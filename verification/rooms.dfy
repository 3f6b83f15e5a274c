/** The room service: the room table with its create, update and delete
    operations, the per-room occupancy view, the overall summary and the
    per-block summary. */
module Rooms {
  import opened Common
  import opened Grouping

  const ROOM_EXISTS := "Room already exists in this block"
  const ROOM_NOT_FOUND := "Room not found"
  const ROOM_HAS_ALLOCATIONS := "Cannot delete room with existing allocations"
  const ROOM_DELETED := "Room deleted successfully"

  datatype Room = Room(id: int, block: string, roomNumber: string, capacity: int)

  // ---------------------------------------------------------------- table queries

  predicate UniqueRoomIds(rooms: seq<Room>)
  {
    forall i, j :: 0 <= i < j < |rooms| ==> rooms[i].id != rooms[j].id
  }

  predicate RoomIdsBelow(rooms: seq<Room>, bound: int)
  {
    forall i :: 0 <= i < |rooms| ==> rooms[i].id < bound
  }

  /** No two rooms share a block and room number. */
  predicate UniqueKeys(rooms: seq<Room>)
  {
    forall i, j :: 0 <= i < j < |rooms| ==>
      rooms[i].block != rooms[j].block || rooms[i].roomNumber != rooms[j].roomNumber
  }

  /** `findFirst` by block and room number. */
  function FindByKey(rooms: seq<Room>, block: string, roomNumber: string): (r: Option<nat>)
    ensures r.Some? ==> r.value < |rooms| && rooms[r.value].block == block && rooms[r.value].roomNumber == roomNumber
    ensures r.None? <==> forall j :: 0 <= j < |rooms| ==> rooms[j].block != block || rooms[j].roomNumber != roomNumber
    decreases |rooms|
  {
    if |rooms| == 0 then None
    else if rooms[0].block == block && rooms[0].roomNumber == roomNumber then Some(0)
    else
      var rest := FindByKey(rooms[1..], block, roomNumber);
      assert forall j :: 1 <= j < |rooms| ==> rooms[1..][j - 1] == rooms[j];
      if rest.None? then None else Some(rest.value + 1)
  }

  /** The position of the room with the given id. */
  function IndexOfRoom(rooms: seq<Room>, id: int): (r: Option<nat>)
    ensures r.Some? ==> r.value < |rooms| && rooms[r.value].id == id
    ensures r.None? <==> forall j :: 0 <= j < |rooms| ==> rooms[j].id != id
    decreases |rooms|
  {
    if |rooms| == 0 then None
    else if rooms[0].id == id then Some(0)
    else
      var rest := IndexOfRoom(rooms[1..], id);
      assert forall j :: 1 <= j < |rooms| ==> rooms[1..][j - 1] == rooms[j];
      if rest.None? then None else Some(rest.value + 1)
  }

  /** The number of allocation rows that point at a room. */
  function Occupancy(roomId: int, allocations: seq<AllocationRow>): (n: nat)
    ensures n <= |allocations|
    ensures n == 0 <==> forall j :: 0 <= j < |allocations| ==> allocations[j].roomId != roomId
    decreases |allocations|
  {
    if |allocations| == 0 then 0
    else
      var n := |allocations| - 1;
      assert forall j :: 0 <= j < n ==> allocations[..n][j] == allocations[j];
      Occupancy(roomId, allocations[..n]) + (if allocations[n].roomId == roomId then 1 else 0)
  }

  /** Every allocation points at a room of the table. */
  predicate AllocationsReferenceRooms(rooms: seq<Room>, allocations: seq<AllocationRow>)
  {
    forall j :: 0 <= j < |allocations| ==> exists i :: 0 <= i < |rooms| && rooms[i].id == allocations[j].roomId
  }

  /** A new room whose key is not taken keeps the keys unique. */
  lemma AppendKeepsKeysUnique(rooms: seq<Room>, room: Room)
    requires UniqueKeys(rooms) && FindByKey(rooms, room.block, room.roomNumber).None?
    ensures UniqueKeys(rooms + [room])
  {
  }

  function RemoveRoomAt(rooms: seq<Room>, k: nat): (r: seq<Room>)
    requires k < |rooms|
    ensures |r| == |rooms| - 1
  {
    rooms[..k] + rooms[k + 1..]
  }

  lemma RemoveRoomAtIndices(rooms: seq<Room>, k: nat)
    requires k < |rooms|
    ensures forall j :: 0 <= j < |RemoveRoomAt(rooms, k)| ==>
              RemoveRoomAt(rooms, k)[j] == if j < k then rooms[j] else rooms[j + 1]
  {
    var r := RemoveRoomAt(rooms, k);
    forall j | 0 <= j < |r| ensures r[j] == if j < k then rooms[j] else rooms[j + 1] {
      if j < k { assert r[j] == rooms[..k][j]; } else { assert r[j] == rooms[k + 1..][j - k]; }
    }
  }

  /** Removing a room keeps every room with another id. */
  lemma RemoveRoomAtMembers(rooms: seq<Room>, k: nat)
    requires k < |rooms|
    ensures forall x :: x in rooms && x.id != rooms[k].id ==> x in RemoveRoomAt(rooms, k)
  {
    var r := RemoveRoomAt(rooms, k);
    RemoveRoomAtIndices(rooms, k);
    forall x | x in rooms && x.id != rooms[k].id ensures x in r {
      var j :| 0 <= j < |rooms| && rooms[j] == x;
      if j < k { assert r[j] == x; } else { assert r[j - 1] == x; }
    }
  }

  /** Removing a room keeps ids and keys unique and drops exactly that room. */
  lemma RemoveRoomAtKeeps(rooms: seq<Room>, k: nat, bound: int)
    requires k < |rooms| && UniqueRoomIds(rooms) && RoomIdsBelow(rooms, bound)
    ensures var r := RemoveRoomAt(rooms, k);
            && UniqueRoomIds(r) && RoomIdsBelow(r, bound)
            && (UniqueKeys(rooms) ==> UniqueKeys(r))
            && (forall x :: x in r <==> x in rooms && x.id != rooms[k].id)
  {
    RemoveRoomAtIndices(rooms, k);
    RemoveRoomAtMembers(rooms, k);
  }

  /** Removing a room no allocation points at leaves no allocation pointing
      nowhere. */
  lemma RemoveUnoccupiedRoom(rooms: seq<Room>, allocations: seq<AllocationRow>, k: nat)
    requires k < |rooms| && UniqueRoomIds(rooms)
    requires Occupancy(rooms[k].id, allocations) == 0
    requires AllocationsReferenceRooms(rooms, allocations)
    ensures AllocationsReferenceRooms(RemoveRoomAt(rooms, k), allocations)
  {
    var r := RemoveRoomAt(rooms, k);
    RemoveRoomAtMembers(rooms, k);
    forall j | 0 <= j < |allocations|
      ensures exists i :: 0 <= i < |r| && r[i].id == allocations[j].roomId
    {
      var i :| 0 <= i < |rooms| && rooms[i].id == allocations[j].roomId;
      assert rooms[i].id != rooms[k].id;
      assert rooms[i] in r;
      var i' :| 0 <= i' < |r| && r[i'] == rooms[i];
    }
  }

  // ---------------------------------------------------------------- the table

  class RoomTable {
    var rooms: seq<Room>
    var allocations: seq<AllocationRow>
    var nextId: int

    ghost predicate Valid()
      reads this
    {
      UniqueRoomIds(rooms) && RoomIdsBelow(rooms, nextId)
    }

    constructor (allocations: seq<AllocationRow>)
      ensures Valid() && rooms == [] && this.allocations == allocations && nextId == 1
    {
      rooms := [];
      this.allocations := allocations;
      nextId := 1;
    }

    /** `createRoom`: a taken (block, room number) pair is refused; otherwise
        the room is added with the next id. */
    method CreateRoom(block: string, roomNumber: string, capacity: int) returns (r: Result<Room, string>)
      requires Valid()
      modifies this
      ensures Valid() && allocations == old(allocations)
      ensures FindByKey(old(rooms), block, roomNumber).Some? ==>
                r == Failure(ROOM_EXISTS) && rooms == old(rooms) && nextId == old(nextId)
      ensures FindByKey(old(rooms), block, roomNumber).None? ==>
                var room := Room(old(nextId), block, roomNumber, capacity);
                r == Success(room) && rooms == old(rooms) + [room] && nextId == old(nextId) + 1
      ensures UniqueKeys(old(rooms)) ==> UniqueKeys(rooms)
    {
      var existingRoom := FindByKey(rooms, block, roomNumber);
      if existingRoom.Some? {
        return Failure(ROOM_EXISTS);
      }
      var room := Room(nextId, block, roomNumber, capacity);
      if UniqueKeys(rooms) {
        AppendKeepsKeysUnique(rooms, room);
      }
      rooms := rooms + [room];
      nextId := nextId + 1;
      r := Success(room);
    }

    /** `updateRoom`: the fields given are overwritten, the others kept; no
        uniqueness check is made. */
    method UpdateRoom(roomId: int, block: Option<string>, roomNumber: Option<string>, capacity: Option<int>)
      returns (r: Result<Room, string>)
      requires Valid()
      modifies this
      ensures Valid() && allocations == old(allocations) && nextId == old(nextId)
      ensures match IndexOfRoom(old(rooms), roomId)
              case None => r == Failure(RECORD_TO_UPDATE_NOT_FOUND) && rooms == old(rooms)
              case Some(k) =>
                var o := old(rooms)[k];
                var e := Room(o.id,
                              if block.Some? then block.value else o.block,
                              if roomNumber.Some? then roomNumber.value else o.roomNumber,
                              if capacity.Some? then capacity.value else o.capacity);
                r == Success(e) && rooms == old(rooms)[k := e]
    {
      var found := IndexOfRoom(rooms, roomId);
      if found.None? {
        return Failure(RECORD_TO_UPDATE_NOT_FOUND);
      }
      var k := found.value;
      var e := rooms[k];
      if block.Some? { e := e.(block := block.value); }
      if roomNumber.Some? { e := e.(roomNumber := roomNumber.value); }
      if capacity.Some? { e := e.(capacity := capacity.value); }
      rooms := rooms[k := e];
      r := Success(e);
    }

    /** `deleteRoom`: a missing room and a room with allocations are refused;
        otherwise exactly that room is removed. */
    method DeleteRoom(roomId: int) returns (r: Result<string, string>)
      requires Valid()
      modifies this
      ensures Valid() && allocations == old(allocations) && nextId == old(nextId)
      ensures match IndexOfRoom(old(rooms), roomId)
              case None => r == Failure(ROOM_NOT_FOUND) && rooms == old(rooms)
              case Some(k) =>
                if Occupancy(roomId, allocations) > 0 then r == Failure(ROOM_HAS_ALLOCATIONS) && rooms == old(rooms)
                else r == Success(ROOM_DELETED) && rooms == RemoveRoomAt(old(rooms), k)
      ensures AllocationsReferenceRooms(old(rooms), allocations) ==> AllocationsReferenceRooms(rooms, allocations)
    {
      var found := IndexOfRoom(rooms, roomId);
      if found.None? {
        return Failure(ROOM_NOT_FOUND);
      }
      var k := found.value;
      if Occupancy(roomId, allocations) > 0 {
        return Failure(ROOM_HAS_ALLOCATIONS);
      }
      RemoveRoomAtKeeps(rooms, k, nextId);
      if AllocationsReferenceRooms(rooms, allocations) {
        RemoveUnoccupiedRoom(rooms, allocations, k);
      }
      rooms := RemoveRoomAt(rooms, k);
      r := Success(ROOM_DELETED);
    }
  }

  // ---------------------------------------------------------------- occupancy view

  datatype StudentInfo = StudentInfo(id: int, firstname: string, lastname: string, matricNumber: string)

  /** A room as the listing query returns it: with the students allocated to it. */
  datatype RoomWithStudents = RoomWithStudents(room: Room, students: seq<StudentInfo>)

  datatype RoomOccupant = RoomOccupant(id: int, name: string, matricNumber: string)

  datatype RoomView = RoomView(room: Room, occupiedCapacity: int, availableCapacity: int, allocations: seq<RoomOccupant>)

  function OccupantOf(s: StudentInfo): RoomOccupant
  {
    RoomOccupant(s.id, s.firstname + " " + s.lastname, s.matricNumber)
  }

  /** `getAllRooms`: each room with its occupied and available capacity and
      its occupants by name. */
  function GetAllRooms(rooms: seq<RoomWithStudents>): (v: seq<RoomView>)
    ensures |v| == |rooms|
    ensures forall i :: 0 <= i < |rooms| ==>
              v[i].room == rooms[i].room && |v[i].allocations| == |rooms[i].students|
              && v[i].occupiedCapacity == |rooms[i].students|
              && v[i].availableCapacity == rooms[i].room.capacity - |rooms[i].students|
              && forall j :: 0 <= j < |rooms[i].students| ==>
                   v[i].allocations[j].id == rooms[i].students[j].id
                   && v[i].allocations[j].name == rooms[i].students[j].firstname + " " + rooms[i].students[j].lastname
  {
    seq(|rooms|, i requires 0 <= i < |rooms| => ViewOf(rooms[i]))
  }

  function ViewOf(r: RoomWithStudents): RoomView
  {
    RoomView(r.room, |r.students|, r.room.capacity - |r.students|,
             seq(|r.students|, j requires 0 <= j < |r.students| => OccupantOf(r.students[j])))
  }

  /** The available capacity is negative exactly for an over-full room; it is
      not clamped. */
  lemma AvailableCapacitySign(rooms: seq<RoomWithStudents>, i: nat)
    requires i < |rooms|
    ensures GetAllRooms(rooms)[i].availableCapacity < 0 <==> |rooms[i].students| > rooms[i].room.capacity
    ensures GetAllRooms(rooms)[i].occupiedCapacity + GetAllRooms(rooms)[i].availableCapacity == rooms[i].room.capacity
  {
  }

  // ---------------------------------------------------------------- overall summary

  datatype RoomSummary = RoomSummary(totalRooms: int, totalCapacity: int, totalAllocated: int, availableSpaces: int)

  function Capacities(rooms: seq<Room>): (c: seq<int>)
    ensures |c| == |rooms|
  {
    seq(|rooms|, i requires 0 <= i < |rooms| => rooms[i].capacity)
  }

  /** `getRoomSummary`: the number of rooms, their summed capacity (zero for
      no rooms), the number of allocation rows, and the difference. */
  function GetRoomSummary(rooms: seq<Room>, allocations: seq<AllocationRow>): (s: RoomSummary)
  {
    var totalCapacity := Sum(Capacities(rooms));
    RoomSummary(|rooms|, totalCapacity, |allocations|, totalCapacity - |allocations|)
  }

  function SumAvailable(v: seq<RoomView>): int
    decreases |v|
  {
    if |v| == 0 then 0 else SumAvailable(v[..|v| - 1]) + v[|v| - 1].availableCapacity
  }

  /** The listing was read from these tables: the same rooms, each with as
      many students as allocation rows point at it. */
  predicate ListedFrom(listing: seq<RoomWithStudents>, rooms: seq<Room>, allocations: seq<AllocationRow>)
  {
    |listing| == |rooms|
    && forall i :: 0 <= i < |rooms| ==>
         listing[i].room == rooms[i] && |listing[i].students| == Occupancy(rooms[i].id, allocations)
  }

  function Occupancies(rooms: seq<Room>, allocations: seq<AllocationRow>): int
    decreases |rooms|
  {
    if |rooms| == 0 then 0
    else Occupancies(rooms[..|rooms| - 1], allocations) + Occupancy(rooms[|rooms| - 1].id, allocations)
  }

  /** Number of rooms carrying a given id. */
  function IdCount(rooms: seq<Room>, id: int): nat
    decreases |rooms|
  {
    if |rooms| == 0 then 0
    else IdCount(rooms[..|rooms| - 1], id) + (if rooms[|rooms| - 1].id == id then 1 else 0)
  }

  lemma {:induction false} IdCountUnique(rooms: seq<Room>, id: int)
    requires UniqueRoomIds(rooms)
    ensures IdCount(rooms, id) == if exists i :: 0 <= i < |rooms| && rooms[i].id == id then 1 else 0
    decreases |rooms|
  {
    if |rooms| > 0 {
      var n := |rooms| - 1;
      assert forall i :: 0 <= i < n ==> rooms[..n][i] == rooms[i];
      IdCountUnique(rooms[..n], id);
    }
  }

  /** One more allocation row adds one to the occupancy of the rooms with its id. */
  lemma {:induction false} OccupanciesStep(rooms: seq<Room>, allocations: seq<AllocationRow>)
    requires |allocations| > 0
    ensures var n := |allocations| - 1;
            Occupancies(rooms, allocations) == Occupancies(rooms, allocations[..n]) + IdCount(rooms, allocations[n].roomId)
    decreases |rooms|
  {
    if |rooms| > 0 {
      OccupanciesStep(rooms[..|rooms| - 1], allocations);
    }
  }

  /** With unique room ids and no dangling allocation, the occupancies of all
      rooms add up to the number of allocation rows. */
  lemma {:induction false} OccupanciesCountAllocations(rooms: seq<Room>, allocations: seq<AllocationRow>)
    requires UniqueRoomIds(rooms) && AllocationsReferenceRooms(rooms, allocations)
    ensures Occupancies(rooms, allocations) == |allocations|
    decreases |allocations|
  {
    if |allocations| == 0 {
      ZeroOccupancies(rooms, allocations);
    } else {
      var n := |allocations| - 1;
      assert AllocationsReferenceRooms(rooms, allocations[..n]) by {
        forall j | 0 <= j < n ensures exists i :: 0 <= i < |rooms| && rooms[i].id == allocations[..n][j].roomId {
          assert allocations[..n][j] == allocations[j];
        }
      }
      OccupanciesCountAllocations(rooms, allocations[..n]);
      OccupanciesStep(rooms, allocations);
      IdCountUnique(rooms, allocations[n].roomId);
    }
  }

  lemma {:induction false} ZeroOccupancies(rooms: seq<Room>, allocations: seq<AllocationRow>)
    requires |allocations| == 0
    ensures Occupancies(rooms, allocations) == 0
    decreases |rooms|
  {
    if |rooms| > 0 {
      ZeroOccupancies(rooms[..|rooms| - 1], allocations);
    }
  }

  lemma {:induction false} SumAvailableListing(listing: seq<RoomWithStudents>, rooms: seq<Room>, allocations: seq<AllocationRow>)
    requires ListedFrom(listing, rooms, allocations)
    ensures SumAvailable(GetAllRooms(listing)) == Sum(Capacities(rooms)) - Occupancies(rooms, allocations)
    decreases |rooms|
  {
    if |rooms| > 0 {
      var n := |rooms| - 1;
      assert ListedFrom(listing[..n], rooms[..n], allocations) by {
        assert forall i :: 0 <= i < n ==> listing[..n][i] == listing[i] && rooms[..n][i] == rooms[i];
      }
      SumAvailableListing(listing[..n], rooms[..n], allocations);
      assert GetAllRooms(listing)[..n] == GetAllRooms(listing[..n]);
      assert Capacities(rooms)[..n] == Capacities(rooms[..n]);
    }
  }

  /** The summary's available spaces equal the available capacities of the
      listing added up, as long as every allocation points at exactly one
      room of the table. */
  lemma SummaryMatchesListing(listing: seq<RoomWithStudents>, rooms: seq<Room>, allocations: seq<AllocationRow>)
    requires UniqueRoomIds(rooms) && AllocationsReferenceRooms(rooms, allocations)
    requires ListedFrom(listing, rooms, allocations)
    ensures GetRoomSummary(rooms, allocations).availableSpaces == SumAvailable(GetAllRooms(listing))
    ensures GetRoomSummary(rooms, allocations).totalRooms == |GetAllRooms(listing)|
  {
    SumAvailableListing(listing, rooms, allocations);
    OccupanciesCountAllocations(rooms, allocations);
  }

  // ---------------------------------------------------------------- per-block summary

  datatype BlockTotals = BlockTotals(totalRooms: int, totalCapacity: int, occupiedCapacity: int)

  datatype BlockSummaryEntry = BlockSummaryEntry(
    name: string, totalRooms: int, totalCapacity: int, occupiedCapacity: int, availableCapacity: int)

  /** The per-block sums over the rooms of a block: rooms, capacity and
      allocations. */
  function TotalsOf(rooms: seq<RoomCount>, block: string): BlockTotals
  {
    var b := RoomBlocks(rooms);
    BlockTotals(Total(b, Ones(|rooms|), block), Total(b, RoomCapacities(rooms), block), Total(b, RoomAllocations(rooms), block))
  }

  /** `blockData` after the `forEach` has seen the first `i` rooms. */
  ghost predicate Collected(blockData: map<string, BlockTotals>, rooms: seq<RoomCount>, i: nat)
    requires i <= |rooms|
  {
    && (forall k :: k in blockData <==> k in RoomBlocks(rooms)[..i])
    && forall k :: k in blockData ==> blockData[k] == TotalsOf(rooms[..i], k)
  }

  lemma TotalsOfStep(rooms: seq<RoomCount>, i: nat, k: string)
    requires i < |rooms|
    ensures var t := TotalsOf(rooms[..i], k);
            TotalsOf(rooms[..i + 1], k)
            == if rooms[i].block == k
               then BlockTotals(t.totalRooms + 1, t.totalCapacity + rooms[i].capacity, t.occupiedCapacity + rooms[i].allocations)
               else t
  {
    var p, q := rooms[..i], rooms[..i + 1];
    assert q[..i] == p;
    assert RoomBlocks(q)[..i] == RoomBlocks(p);
    assert Ones(|q|)[..i] == Ones(|p|);
    assert RoomCapacities(q)[..i] == RoomCapacities(p);
    assert RoomAllocations(q)[..i] == RoomAllocations(p);
    TotalStep(RoomBlocks(q), Ones(|q|), i, k);
    TotalStep(RoomBlocks(q), RoomCapacities(q), i, k);
    TotalStep(RoomBlocks(q), RoomAllocations(q), i, k);
    assert RoomBlocks(q)[..i + 1] == RoomBlocks(q) && Ones(|q|)[..i + 1] == Ones(|q|);
    assert RoomCapacities(q)[..i + 1] == RoomCapacities(q) && RoomAllocations(q)[..i + 1] == RoomAllocations(q);
  }

  /** A block not seen yet has all-zero totals. */
  lemma TotalsOfAbsent(rooms: seq<RoomCount>, k: string)
    requires k !in RoomBlocks(rooms)
    ensures TotalsOf(rooms, k) == BlockTotals(0, 0, 0)
  {
    var b := RoomBlocks(rooms);
    TotalAbsent(b, Ones(|rooms|), k);
    TotalAbsent(b, RoomCapacities(rooms), k);
    TotalAbsent(b, RoomAllocations(rooms), k);
  }

  /** The step of the `forEach`: the room's block entry is created at zero
      if missing, then grows by one room, its capacity and its allocations. */
  lemma CollectStep(blockData: map<string, BlockTotals>, rooms: seq<RoomCount>, i: nat)
    requires i < |rooms| && Collected(blockData, rooms, i)
    ensures var b := rooms[i].block;
            var t := if b in blockData then blockData[b] else BlockTotals(0, 0, 0);
            Collected(blockData[b := BlockTotals(t.totalRooms + 1, t.totalCapacity + rooms[i].capacity,
                                                 t.occupiedCapacity + rooms[i].allocations)], rooms, i + 1)
  {
    var b := rooms[i].block;
    var t := if b in blockData then blockData[b] else BlockTotals(0, 0, 0);
    var m := blockData[b := BlockTotals(t.totalRooms + 1, t.totalCapacity + rooms[i].capacity,
                                        t.occupiedCapacity + rooms[i].allocations)];
    assert RoomBlocks(rooms)[..i + 1] == RoomBlocks(rooms)[..i] + [b];
    assert RoomBlocks(rooms[..i]) == RoomBlocks(rooms)[..i];
    forall k | k in m ensures m[k] == TotalsOf(rooms[..i + 1], k) {
      TotalsOfStep(rooms, i, k);
      if k == b && b !in blockData {
        TotalsOfAbsent(rooms[..i], k);
      }
    }
  }

  /** The `forEach` callback. */
  method AddRoomToBlock(blockData: map<string, BlockTotals>, room: RoomCount, ghost rooms: seq<RoomCount>, ghost i: nat)
    returns (blockData': map<string, BlockTotals>)
    requires i < |rooms| && rooms[i] == room && Collected(blockData, rooms, i)
    ensures Collected(blockData', rooms, i + 1)
  {
    CollectStep(blockData, rooms, i);
    blockData' := blockData;
    if room.block !in blockData' {
      blockData' := blockData'[room.block := BlockTotals(0, 0, 0)];
    }
    blockData' := blockData'[room.block := blockData'[room.block].(totalRooms := blockData'[room.block].totalRooms + 1)];
    blockData' := blockData'[room.block := blockData'[room.block].(totalCapacity := blockData'[room.block].totalCapacity + room.capacity)];
    blockData' := blockData'[room.block := blockData'[room.block].(occupiedCapacity := blockData'[room.block].occupiedCapacity + room.allocations)];
  }

  /** One output entry: the block's sums and its available capacity. */
  function EntryFor(name: string, t: BlockTotals): (e: BlockSummaryEntry)
  {
    BlockSummaryEntry(name, t.totalRooms, t.totalCapacity, t.occupiedCapacity, t.totalCapacity - t.occupiedCapacity)
  }

  /** The entries of the given blocks, in the given order. */
  function EntriesFor(names: seq<string>, rooms: seq<RoomCount>): (r: seq<BlockSummaryEntry>)
    ensures |r| == |names|
    ensures forall j :: 0 <= j < |names| ==> r[j] == EntryFor(names[j], TotalsOf(rooms, names[j]))
    decreases |names|
  {
    if |names| == 0 then [] else [EntryFor(names[0], TotalsOf(rooms, names[0]))] + EntriesFor(names[1..], rooms)
  }

  /** The entries before sorting: one per block, in order of first appearance. */
  function BlockEntries(rooms: seq<RoomCount>): seq<BlockSummaryEntry>
  {
    EntriesFor(FirstSeen(RoomBlocks(rooms)), rooms)
  }

  // ---------------------------------------------------------------- sorting by name

  /** The collation the sort compares names with: a strict total order. */
  ghost predicate StrictTotalOrder(before: (string, string) -> bool)
  {
    && (forall a, b :: before(a, b) ==> !before(b, a))
    && (forall a, b, c :: before(a, b) && before(b, c) ==> before(a, c))
    && (forall a, b :: a != b ==> before(a, b) || before(b, a))
  }

  predicate SortedByName(s: seq<BlockSummaryEntry>, before: (string, string) -> bool)
  {
    forall i, j :: 0 <= i < j < |s| ==> before(s[i].name, s[j].name)
  }

  predicate DistinctNames(s: seq<BlockSummaryEntry>)
  {
    forall i, j :: 0 <= i < j < |s| ==> s[i].name != s[j].name
  }

  function Insert(e: BlockSummaryEntry, s: seq<BlockSummaryEntry>, before: (string, string) -> bool): (r: seq<BlockSummaryEntry>)
    ensures multiset(r) == multiset(s) + multiset{e}
    decreases |s|
  {
    if |s| == 0 then [e]
    else if before(e.name, s[0].name) then [e] + s
    else
      assert s == [s[0]] + s[1..];
      [s[0]] + Insert(e, s[1..], before)
  }

  /** The array sort with a name comparator, as a function: a permutation of
      its input. */
  function SortByName(s: seq<BlockSummaryEntry>, before: (string, string) -> bool): (r: seq<BlockSummaryEntry>)
    ensures multiset(r) == multiset(s)
    decreases |s|
  {
    if |s| == 0 then []
    else
      assert s == [s[0]] + s[1..];
      Insert(s[0], SortByName(s[1..], before), before)
  }

  /** Every entry of `s` comes after the name `x`. */
  predicate AllAfter(x: string, s: seq<BlockSummaryEntry>, before: (string, string) -> bool)
  {
    forall j :: 0 <= j < |s| ==> before(x, s[j].name)
  }

  lemma ConsSorted(e: BlockSummaryEntry, s: seq<BlockSummaryEntry>, before: (string, string) -> bool)
    requires SortedByName(s, before) && AllAfter(e.name, s, before)
    ensures SortedByName([e] + s, before)
  {
    var r := [e] + s;
    forall i, j | 0 <= i < j < |r| ensures before(r[i].name, r[j].name) {
      if i > 0 {
        assert r[i] == s[i - 1] && r[j] == s[j - 1];
      } else {
        assert r[j] == s[j - 1];
      }
    }
  }

  lemma {:induction false} InsertAfter(x: string, e: BlockSummaryEntry, s: seq<BlockSummaryEntry>, before: (string, string) -> bool)
    requires AllAfter(x, s, before) && before(x, e.name)
    ensures AllAfter(x, Insert(e, s, before), before)
    decreases |s|
  {
    if |s| > 0 && !before(e.name, s[0].name) {
      InsertAfter(x, e, s[1..], before);
      var rest := Insert(e, s[1..], before);
      assert forall j :: 0 <= j < |rest| ==> ([s[0]] + rest)[j + 1] == rest[j];
    }
  }

  lemma {:induction false} InsertSorted(e: BlockSummaryEntry, s: seq<BlockSummaryEntry>, before: (string, string) -> bool)
    requires StrictTotalOrder(before) && SortedByName(s, before)
    requires forall j :: 0 <= j < |s| ==> s[j].name != e.name
    ensures SortedByName(Insert(e, s, before), before)
    decreases |s|
  {
    if |s| > 0 && !before(e.name, s[0].name) {
      assert before(s[0].name, e.name);
      assert SortedByName(s[1..], before);
      InsertSorted(e, s[1..], before);
      assert AllAfter(s[0].name, s[1..], before);
      InsertAfter(s[0].name, e, s[1..], before);
      ConsSorted(s[0], Insert(e, s[1..], before), before);
    } else if |s| > 0 {
      assert AllAfter(e.name, s, before) by {
        forall j | 0 <= j < |s| ensures before(e.name, s[j].name) {
          if j > 0 {
            assert before(s[0].name, s[j].name);
          }
        }
      }
      ConsSorted(e, s, before);
    }
  }

  /** With a strict total order and distinct names the sort's output is
      sorted. */
  lemma {:induction false} SortSorted(s: seq<BlockSummaryEntry>, before: (string, string) -> bool)
    requires StrictTotalOrder(before) && DistinctNames(s)
    ensures SortedByName(SortByName(s, before), before)
    decreases |s|
  {
    if |s| > 0 {
      assert DistinctNames(s[1..]);
      SortSorted(s[1..], before);
      var r := SortByName(s[1..], before);
      forall j | 0 <= j < |r| ensures r[j].name != s[0].name {
        assert r[j] in multiset(s[1..]);
        var k :| 0 <= k < |s[1..]| && s[1..][k] == r[j];
        assert s[k + 1] == r[j];
      }
      InsertSorted(s[0], r, before);
    }
  }

  function SumRooms(s: seq<BlockSummaryEntry>): int
    decreases |s|
  {
    if |s| == 0 then 0 else s[0].totalRooms + SumRooms(s[1..])
  }

  function SumCapacity(s: seq<BlockSummaryEntry>): int
    decreases |s|
  {
    if |s| == 0 then 0 else s[0].totalCapacity + SumCapacity(s[1..])
  }

  lemma {:induction false} InsertSums(e: BlockSummaryEntry, s: seq<BlockSummaryEntry>, before: (string, string) -> bool)
    ensures SumRooms(Insert(e, s, before)) == e.totalRooms + SumRooms(s)
    ensures SumCapacity(Insert(e, s, before)) == e.totalCapacity + SumCapacity(s)
    decreases |s|
  {
    if |s| > 0 && !before(e.name, s[0].name) {
      InsertSums(e, s[1..], before);
      assert ([s[0]] + Insert(e, s[1..], before))[1..] == Insert(e, s[1..], before);
    } else if |s| > 0 {
      assert ([e] + s)[1..] == s;
    }
  }

  lemma {:induction false} SortSums(s: seq<BlockSummaryEntry>, before: (string, string) -> bool)
    ensures SumRooms(SortByName(s, before)) == SumRooms(s)
    ensures SumCapacity(SortByName(s, before)) == SumCapacity(s)
    decreases |s|
  {
    if |s| > 0 {
      SortSums(s[1..], before);
      InsertSums(s[0], SortByName(s[1..], before), before);
    }
  }

  lemma {:induction false} EntriesSums(names: seq<string>, rooms: seq<RoomCount>)
    ensures SumRooms(EntriesFor(names, rooms)) == SumOver(names, RoomBlocks(rooms), Ones(|rooms|))
    ensures SumCapacity(EntriesFor(names, rooms)) == SumOver(names, RoomBlocks(rooms), RoomCapacities(rooms))
    decreases |names|
  {
    if |names| > 0 {
      EntriesSums(names[1..], rooms);
      assert EntriesFor(names, rooms)[1..] == EntriesFor(names[1..], rooms);
    }
  }

  /** `getBlockSummary`: one entry per block, sorted by name; each entry's
      sums are over that block's rooms and its available capacity is the
      capacity left over. */
  method GetBlockSummary(rooms: seq<RoomCount>, before: (string, string) -> bool)
    returns (summary: seq<BlockSummaryEntry>)
    ensures summary == SortByName(BlockEntries(rooms), before)
  {
    var blockData: map<string, BlockTotals> := map[];
    var i := 0;
    while i < |rooms|
      invariant 0 <= i <= |rooms|
      invariant Collected(blockData, rooms, i)
    {
      blockData := AddRoomToBlock(blockData, rooms[i], rooms, i);
      i := i + 1;
    }
    assert rooms[..|rooms|] == rooms && RoomBlocks(rooms)[..|rooms|] == RoomBlocks(rooms);
    var names := FirstSeen(RoomBlocks(rooms));
    var entries := seq(|names|, j requires 0 <= j < |names| && names[j] in blockData => EntryFor(names[j], blockData[names[j]]));
    assert entries == BlockEntries(rooms);
    summary := SortByName(entries, before);
  }

  /** The summary is sorted, has exactly one entry per block, and its room
      counts add up to the number of rooms and its capacities to the total
      capacity. */
  lemma BlockSummaryProperties(rooms: seq<RoomCount>, before: (string, string) -> bool)
    requires StrictTotalOrder(before)
    ensures var s := SortByName(BlockEntries(rooms), before);
            && SortedByName(s, before)
            && (forall b :: b in RoomBlocks(rooms) <==> exists j :: 0 <= j < |s| && s[j].name == b)
            && (forall j :: 0 <= j < |s| ==>
                  s[j] == EntryFor(s[j].name, TotalsOf(rooms, s[j].name))
                  && s[j].availableCapacity == s[j].totalCapacity - s[j].occupiedCapacity)
            && SumRooms(s) == |rooms|
            && SumCapacity(s) == Sum(RoomCapacities(rooms))
  {
    var names := FirstSeen(RoomBlocks(rooms));
    var e := BlockEntries(rooms);
    var s := SortByName(e, before);
    assert forall j :: 0 <= j < |e| ==> e[j].name == names[j];
    SortSorted(e, before);
    SortSums(e, before);
    EntriesSums(names, rooms);
    GroupTotals(RoomBlocks(rooms), Ones(|rooms|));
    GroupTotals(RoomBlocks(rooms), RoomCapacities(rooms));
    SumOnes(|rooms|);
    forall j | 0 <= j < |s| ensures s[j] == EntryFor(s[j].name, TotalsOf(rooms, s[j].name)) {
      assert s[j] in multiset(e);
      var k :| 0 <= k < |e| && e[k] == s[j];
    }
    forall b ensures b in RoomBlocks(rooms) <==> exists j :: 0 <= j < |s| && s[j].name == b {
      if b in RoomBlocks(rooms) {
        var k :| 0 <= k < |names| && names[k] == b;
        assert e[k] in multiset(s);
        var j :| 0 <= j < |s| && s[j] == e[k];
      }
      if exists j :: 0 <= j < |s| && s[j].name == b {
        var j :| 0 <= j < |s| && s[j].name == b;
        assert s[j] in multiset(e);
        var k :| 0 <= k < |e| && e[k] == s[j];
        assert names[k] in names;
      }
    }
  }
}
