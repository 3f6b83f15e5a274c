/** The pre-allocation check of src/services/allocationService.ts: the
    number of eligible students, the total free space, the free space per
    block, whether everyone fits, and the warnings. */
module AllocationPrecheck {
  import opened Common
  import opened SolverSpec
  import opened Grouping

  const NO_SPACES_FOUND := "No available hostel spaces found."

  /** One entry of the block availability list. */
  datatype BlockSpace = BlockSpace(block: string, availableSpaces: int)

  datatype PreAllocationCheck = PreAllocationCheck(
    approvedStudents: nat, availableSpaces: int, canAllocateAll: bool,
    warnings: seq<string>, blockAvailability: seq<BlockSpace>)

  /** Free places per room, negative for an over-full room. */
  function Free(rooms: seq<RoomCount>): (f: seq<int>)
    ensures |f| == |rooms|
  {
    seq(|rooms|, i requires 0 <= i < |rooms| => rooms[i].capacity - rooms[i].allocations)
  }

  /** Free places per room, counting an over-full room as zero. */
  function ClampedFree(rooms: seq<RoomCount>): (f: seq<int>)
    ensures |f| == |rooms|
    ensures forall i :: 0 <= i < |rooms| ==> f[i] >= 0 && f[i] >= Free(rooms)[i]
  {
    seq(|rooms|, i requires 0 <= i < |rooms| =>
      if rooms[i].capacity - rooms[i].allocations > 0 then rooms[i].capacity - rooms[i].allocations else 0)
  }

  function BlockNames(acc: seq<BlockSpace>): (b: seq<string>)
    ensures |b| == |acc|
  {
    seq(|acc|, i requires 0 <= i < |acc| => acc[i].block)
  }

  function Spaces(acc: seq<BlockSpace>): (s: seq<int>)
    ensures |s| == |acc|
  {
    seq(|acc|, i requires 0 <= i < |acc| => acc[i].availableSpaces)
  }

  /** The `availableSpaces` reduce: capacity minus allocations, summed
      without clamping. */
  function AvailableSpaces(rooms: seq<RoomCount>): int
  {
    Sum(Free(rooms))
  }

  /** Sums taken pointwise: a list that is nowhere smaller sums to no less. */
  lemma {:induction false} SumMonotone(a: seq<int>, b: seq<int>)
    requires |a| == |b|
    requires forall i :: 0 <= i < |a| ==> a[i] <= b[i]
    ensures Sum(a) <= Sum(b)
    ensures Sum(a) == Sum(b) ==> a == b
    decreases |a|
  {
    if |a| > 0 {
      var n := |a| - 1;
      SumMonotone(a[..n], b[..n]);
      if Sum(a) == Sum(b) {
        assert a[..n] == b[..n];
        assert a == a[..n] + [a[n]] && b == b[..n] + [b[n]];
      }
    }
  }

  /** The first entry for a block (`acc.find`). */
  function FindBlock(acc: seq<BlockSpace>, block: string): (r: Option<nat>)
    ensures r.Some? ==> r.value < |acc| && acc[r.value].block == block
    ensures r.None? <==> block !in BlockNames(acc)
    decreases |acc|
  {
    if |acc| == 0 then None
    else
      assert BlockNames(acc) == [acc[0].block] + BlockNames(acc[1..]);
      if acc[0].block == block then Some(0)
      else
        var rest := FindBlock(acc[1..], block);
        if rest.None? then None else Some(rest.value + 1)
  }

  /** `acc` is the reduce's accumulator after the first `i` rooms. */
  ghost predicate Accumulated(acc: seq<BlockSpace>, blocks: seq<string>, free: seq<int>, i: nat)
    requires i <= |blocks| == |free|
  {
    && BlockNames(acc) == FirstSeen(blocks[..i])
    && forall j :: 0 <= j < |acc| ==> acc[j].availableSpaces == Total(blocks[..i], free[..i], acc[j].block)
  }

  /** A room of a block already listed adds its space to that entry. */
  lemma AddToEntry(acc: seq<BlockSpace>, blocks: seq<string>, free: seq<int>, i: nat, k: nat)
    requires i < |blocks| == |free|
    requires Accumulated(acc, blocks, free, i)
    requires k < |acc| && acc[k].block == blocks[i]
    ensures Accumulated(acc[k := acc[k].(availableSpaces := acc[k].availableSpaces + free[i])], blocks, free, i + 1)
  {
    var acc' := acc[k := acc[k].(availableSpaces := acc[k].availableSpaces + free[i])];
    FirstSeenStep(blocks, i);
    assert BlockNames(acc)[k] == blocks[i];
    assert BlockNames(acc') == BlockNames(acc) by {
      forall j | 0 <= j < |acc| ensures BlockNames(acc')[j] == BlockNames(acc)[j] {
        assert acc'[j].block == acc[j].block;
      }
    }
    forall j | 0 <= j < |acc'|
      ensures acc'[j].availableSpaces == Total(blocks[..i + 1], free[..i + 1], acc'[j].block)
    {
      TotalStep(blocks, free, i, acc'[j].block);
      if j != k {
        assert BlockNames(acc)[j] != BlockNames(acc)[k];
      }
    }
  }

  /** A room of a new block is pushed as a new entry. */
  lemma PushEntry(acc: seq<BlockSpace>, blocks: seq<string>, free: seq<int>, i: nat)
    requires i < |blocks| == |free|
    requires Accumulated(acc, blocks, free, i)
    requires blocks[i] !in BlockNames(acc)
    ensures Accumulated(acc + [BlockSpace(blocks[i], free[i])], blocks, free, i + 1)
  {
    var acc' := acc + [BlockSpace(blocks[i], free[i])];
    FirstSeenStep(blocks, i);
    assert BlockNames(acc') == BlockNames(acc) + [blocks[i]];
    forall j | 0 <= j < |acc'|
      ensures acc'[j].availableSpaces == Total(blocks[..i + 1], free[..i + 1], acc'[j].block)
    {
      TotalStep(blocks, free, i, acc'[j].block);
      if j == |acc| {
        TotalAbsent(blocks[..i], free[..i], blocks[i]);
      } else {
        assert BlockNames(acc)[j] in BlockNames(acc);
      }
    }
  }

  lemma AccumulatedAll(acc: seq<BlockSpace>, blocks: seq<string>, free: seq<int>)
    requires |blocks| == |free|
    requires Accumulated(acc, blocks, free, |blocks|)
    ensures BlockNames(acc) == FirstSeen(blocks)
    ensures forall j :: 0 <= j < |acc| ==> acc[j].availableSpaces == Total(blocks, free, acc[j].block)
  {
    assert blocks[..|blocks|] == blocks && free[..|free|] == free;
  }

  /** The reduce callback: the room's clamped free space is added to its
      block's entry, or pushed as a new entry for a block not seen yet. */
  method AddRoom(acc: seq<BlockSpace>, room: RoomCount, ghost blocks: seq<string>, ghost free: seq<int>, ghost i: nat)
    returns (acc': seq<BlockSpace>)
    requires i < |blocks| == |free|
    requires Accumulated(acc, blocks, free, i)
    requires blocks[i] == room.block && free[i] == if room.capacity - room.allocations > 0 then room.capacity - room.allocations else 0
    ensures Accumulated(acc', blocks, free, i + 1)
  {
    var blockName := room.block;
    var availableInRoom := if room.capacity - room.allocations > 0 then room.capacity - room.allocations else 0;
    var found := FindBlock(acc, blockName);
    if found.Some? {
      var k := found.value;
      AddToEntry(acc, blocks, free, i, k);
      acc' := acc[k := acc[k].(availableSpaces := acc[k].availableSpaces + availableInRoom)];
    } else {
      PushEntry(acc, blocks, free, i);
      acc' := acc + [BlockSpace(blockName, availableInRoom)];
    }
  }

  /** The `blockAvailability` reduce: one entry per block in order of first
      appearance; an existing entry grows by the room's clamped free space,
      a new block is pushed with it. */
  method BlockAvailability(rooms: seq<RoomCount>) returns (acc: seq<BlockSpace>)
    ensures BlockNames(acc) == FirstSeen(RoomBlocks(rooms))
    ensures forall j :: 0 <= j < |acc| ==>
              acc[j].availableSpaces == Total(RoomBlocks(rooms), ClampedFree(rooms), acc[j].block)
  {
    acc := [];
    ghost var blocks, free := RoomBlocks(rooms), ClampedFree(rooms);
    var i := 0;
    while i < |rooms|
      invariant 0 <= i <= |rooms|
      invariant Accumulated(acc, blocks, free, i)
    {
      acc := AddRoom(acc, rooms[i], blocks, free, i);
      i := i + 1;
    }
    AccumulatedAll(acc, blocks, free);
  }

  /** The block entries add up to the clamped free space of all rooms, which
      is never less than the unclamped `availableSpaces`, and equals it
      exactly when no room is over-full. */
  lemma BlockAvailabilityTotals(rooms: seq<RoomCount>, acc: seq<BlockSpace>)
    requires BlockNames(acc) == FirstSeen(RoomBlocks(rooms))
    requires forall j :: 0 <= j < |acc| ==>
               acc[j].availableSpaces == Total(RoomBlocks(rooms), ClampedFree(rooms), acc[j].block)
    ensures Sum(Spaces(acc)) == Sum(ClampedFree(rooms))
    ensures forall j :: 0 <= j < |acc| ==> acc[j].availableSpaces >= 0
    ensures AvailableSpaces(rooms) <= Sum(Spaces(acc))
    ensures AvailableSpaces(rooms) == Sum(Spaces(acc)) <==>
              forall i :: 0 <= i < |rooms| ==> rooms[i].allocations <= rooms[i].capacity
  {
    var blocks, free := RoomBlocks(rooms), ClampedFree(rooms);
    GroupTotals(blocks, free);
    SumOverEntries(acc, blocks, free);
    forall j | 0 <= j < |acc| ensures acc[j].availableSpaces >= 0 {
      TotalNonNegative(blocks, free, acc[j].block);
    }
    SumMonotone(Free(rooms), free);
    if Sum(Free(rooms)) == Sum(free) {
      forall i | 0 <= i < |rooms| ensures rooms[i].allocations <= rooms[i].capacity {
        assert Free(rooms)[i] == free[i];
      }
    } else {
      assert Free(rooms) != free;
    }
  }

  /** The entries' spaces, summed, are the per-block totals over their blocks. */
  lemma {:induction false} SumOverEntries(acc: seq<BlockSpace>, ks: seq<string>, ws: seq<int>)
    requires |ks| == |ws|
    requires forall j :: 0 <= j < |acc| ==> acc[j].availableSpaces == Total(ks, ws, acc[j].block)
    ensures Sum(Spaces(acc)) == SumOver(BlockNames(acc), ks, ws)
    decreases |acc|
  {
    if |acc| > 0 {
      SumOverEntries(acc[1..], ks, ws);
      assert BlockNames(acc)[1..] == BlockNames(acc[1..]);
      SumFront(Spaces(acc));
      assert Spaces(acc)[1..] == Spaces(acc[1..]);
    }
  }

  /** A sum taken from the front. */
  lemma {:induction false} SumFront(ws: seq<int>)
    requires |ws| > 0
    ensures Sum(ws) == ws[0] + Sum(ws[1..])
    decreases |ws|
  {
    if |ws| > 1 {
      var n := |ws| - 1;
      SumFront(ws[..n]);
      assert ws[..n][1..] == ws[1..][..n - 1];
    }
  }

  function NotEnoughSpace(approved: nat, available: int): string
  {
    "Not enough space: " + NatToString(approved) + " eligible students for "
    + IntToString(available) + " available spaces."
  }

  /** The warnings, in this order: not enough space, no eligible students,
      no free space. */
  function Warnings(approved: nat, available: int): (w: seq<string>)
    ensures NotEnoughSpace(approved, available) in w <==> approved > available
    ensures NO_ELIGIBLE_STUDENTS in w <==> approved == 0
    ensures NO_SPACES_FOUND in w <==> available == 0
    ensures |w| == (if approved > available then 1 else 0) + (if approved == 0 then 1 else 0)
                   + (if available == 0 then 1 else 0)
  {
    var m := NotEnoughSpace(approved, available);
    assert m[2] == 't' && NO_ELIGIBLE_STUDENTS[2] == ' ' && NO_SPACES_FOUND[2] == ' ';
    assert NO_ELIGIBLE_STUDENTS[3] == 'e' && NO_SPACES_FOUND[3] == 'a';
    (if approved > available then [m] else [])
    + (if approved == 0 then [NO_ELIGIBLE_STUDENTS] else [])
    + (if available == 0 then [NO_SPACES_FOUND] else [])
  }

  /** `getPreAllocationCheck`, with the students and rooms given: the
      eligible count, the unclamped free space, whether everyone fits, the
      warnings and the per-block clamped free space. */
  method GetPreAllocationCheck(directory: seq<StudentRecord>, rooms: seq<RoomCount>) returns (c: PreAllocationCheck)
    ensures c.approvedStudents == |EligibleStudents(directory)|
    ensures c.availableSpaces == AvailableSpaces(rooms)
    ensures c.canAllocateAll <==> c.approvedStudents <= c.availableSpaces
    ensures c.warnings == Warnings(c.approvedStudents, c.availableSpaces)
    ensures BlockNames(c.blockAvailability) == FirstSeen(RoomBlocks(rooms))
    ensures forall j :: 0 <= j < |c.blockAvailability| ==>
              c.blockAvailability[j].availableSpaces
              == Total(RoomBlocks(rooms), ClampedFree(rooms), c.blockAvailability[j].block)
  {
    var approvedStudents := |EligibleStudents(directory)|;
    var availableSpaces := AvailableSpaces(rooms);
    var blockAvailability := BlockAvailability(rooms);
    var warnings := Warnings(approvedStudents, availableSpaces);
    c := PreAllocationCheck(approvedStudents, availableSpaces, approvedStudents <= availableSpaces,
                            warnings, blockAvailability);
  }
}
