/** The imperative allocation solver of src/services/allocation.solver.ts.
    Room states are objects whose occupant lists are appended in place; the
    candidate lists of a cohort share those objects with the id-ordered list
    of all room states. Each method is proved to compute the corresponding
    function of module SolverSpec. */
module AllocationSolver {
  import opened Common
  import opened SolverSpec

  /** A room during one solver run; only the occupant list changes. */
  class RoomState {
    const id: int
    const block: string
    const roomNumber: string
    const capacity: int
    var occupants: seq<Occupant>

    constructor (d: RoomData)
      ensures Data() == d
    {
      id, block, roomNumber, capacity := d.id, d.block, d.roomNumber, d.capacity;
      occupants := d.occupants;
    }

    /** The room's current value. */
    function Data(): RoomData
      reads this
    {
      RoomData(id, block, roomNumber, capacity, occupants)
    }
  }

  /** The values of a list of room states. */
  function Snapshot(rooms: seq<RoomState>): (v: seq<RoomData>)
    reads rooms
    ensures |v| == |rooms|
    ensures forall i :: 0 <= i < |rooms| ==> v[i] == rooms[i].Data()
  {
    seq(|rooms|, i requires 0 <= i < |rooms| reads rooms => rooms[i].Data())
  }

  /** No room state appears twice. */
  predicate Distinct(rooms: seq<RoomState>)
  {
    forall i, j :: 0 <= i < j < |rooms| ==> rooms[i] != rooms[j]
  }

  /** `getAvailableRoomsForBlock`: the non-full room states of one block. */
  function AvailableRooms(block: string, rooms: seq<RoomState>): (a: seq<RoomState>)
    reads rooms
    ensures forall r :: r in a ==> r in rooms && r.block == block
    decreases |rooms|
  {
    if |rooms| == 0 then []
    else
      (if rooms[0].block == block && |rooms[0].occupants| < rooms[0].capacity then [rooms[0]] else [])
      + AvailableRooms(block, rooms[1..])
  }

  /** The candidate room states carry exactly the candidate room values. */
  lemma {:induction false} AvailableRoomsAgree(block: string, rooms: seq<RoomState>)
    ensures Snapshot(AvailableRooms(block, rooms)) == AvailableForBlock(block, Snapshot(rooms))
    decreases |rooms|
  {
    if |rooms| > 0 {
      AvailableRoomsAgree(block, rooms[1..]);
      var v := Snapshot(rooms);
      var keep := rooms[0].block == block && |rooms[0].occupants| < rooms[0].capacity;
      var head := if keep then [rooms[0]] else [];
      var rest := AvailableRooms(block, rooms[1..]);
      assert AvailableRooms(block, rooms) == head + rest;
      SnapshotTail(rooms);
      assert Snapshot(head) == if keep then [v[0]] else [];
      assert AvailableForBlock(block, v)
             == (if keep then [v[0]] else []) + AvailableForBlock(block, v[1..]);
      SnapshotConcat(head, rest);
    }
  }

  lemma SnapshotTail(rooms: seq<RoomState>)
    requires |rooms| > 0
    ensures Snapshot(rooms)[1..] == Snapshot(rooms[1..])
  {
  }

  lemma SnapshotConcat(a: seq<RoomState>, b: seq<RoomState>)
    ensures Snapshot(a + b) == Snapshot(a) + Snapshot(b)
  {
  }

  /** Candidate lists built from distinct room states are distinct. */
  lemma {:induction false} AvailableRoomsDistinct(block: string, rooms: seq<RoomState>)
    requires Distinct(rooms)
    ensures Distinct(AvailableRooms(block, rooms))
    decreases |rooms|
  {
    if |rooms| > 0 {
      assert Distinct(rooms[1..]);
      AvailableRoomsDistinct(block, rooms[1..]);
      var rest := AvailableRooms(block, rooms[1..]);
      assert rooms[0] !in rooms[1..];
      assert rooms[0] !in rest;
    }
  }

  /** `findBestRoomForStudent`: the first non-full room of strictly greatest
      score, starting from a best score of -1; null when none qualifies. */
  method FindBestRoomForStudent(student: Student, rooms: seq<RoomState>) returns (bestRoom: RoomState?)
    ensures match Best(student, Snapshot(rooms))
            case None => bestRoom == null
            case Some(k) => bestRoom == rooms[k]
  {
    bestRoom := null;
    var maxScore := -1;
    ghost var best: Option<nat> := None;
    ghost var all := Snapshot(rooms);
    var i := 0;
    while i < |rooms|
      invariant 0 <= i <= |rooms|
      invariant best == Best(student, all[..i])
      invariant best.None? ==> bestRoom == null && maxScore == -1
      invariant best.Some? ==> best.value < i && bestRoom == rooms[best.value]
                               && maxScore == Score(student, all[best.value])
    {
      var room := rooms[i];
      assert all[..i + 1][..i] == all[..i];
      if |room.occupants| >= room.capacity {
        i := i + 1;
        continue;
      }
      var currentScore := 100;
      if Some(room.block) == student.preferredBlock {
        currentScore := currentScore + 20;
      }
      if |room.occupants| > 0 {
        var sameLevelOccupants := SameLevelCount(room.occupants, student.level);
        currentScore := currentScore + sameLevelOccupants * 10;
      }
      currentScore := currentScore - |room.occupants| * 5;
      assert currentScore == Score(student, all[i]);
      if currentScore > maxScore {
        maxScore := currentScore;
        bestRoom := room;
        best := Some(i);
      }
      i := i + 1;
    }
    assert all[..|rooms|] == all;
  }

  /** `processStudentCategory`: each student in order goes into the best
      candidate room, whose occupant list grows at once, or becomes a
      conflict; with no candidate room at all, every student is a conflict. */
  method ProcessStudentCategory(
    students: seq<Student>, availableRooms: seq<RoomState>,
    assignments: seq<Assignment>, conflicts: seq<Conflict>)
    returns (assignments': seq<Assignment>, conflicts': seq<Conflict>)
    requires Distinct(availableRooms)
    modifies availableRooms
    ensures var o := ProcessCohort(students, old(Snapshot(availableRooms)));
            && Snapshot(availableRooms) == o.rooms
            && assignments' == assignments + o.assignments
            && conflicts' == conflicts + o.conflicts
  {
    assignments', conflicts' := assignments, conflicts;
    ghost var start := Snapshot(availableRooms);
    if |availableRooms| == 0 {
      var i := 0;
      while i < |students|
        invariant 0 <= i <= |students|
        invariant conflicts' == conflicts + NoRoomConflicts(students[..i])
      {
        var student := students[i];
        conflicts' := conflicts' + [Conflict(student.id, FullName(student.firstname, student.lastname), NO_ROOMS_IN_BLOCKS)];
        assert NoRoomConflicts(students[..i + 1]) == NoRoomConflicts(students[..i]) + [conflicts'[|conflicts'| - 1]];
        i := i + 1;
      }
      assert students[..|students|] == students;
      return;
    }
    var i := 0;
    while i < |students|
      invariant 0 <= i <= |students|
      invariant Snapshot(availableRooms) == PlaceAll(students[..i], start).rooms
      invariant assignments' == assignments + PlaceAll(students[..i], start).assignments
      invariant conflicts' == conflicts + PlaceAll(students[..i], start).conflicts
    {
      PlaceAllStep(students, i, start);
      assignments', conflicts' :=
        PlaceStudent(students[i], availableRooms, PlaceAll(students[..i], start), assignments, conflicts, assignments', conflicts');
      i := i + 1;
    }
    assert students[..|students|] == students;
  }

  /** One iteration of the loop of `processStudentCategory`: the student goes
      into the best candidate room, appended to its occupants, or becomes a
      conflict. `o` is the pass so far, on top of the earlier lists. */
  method PlaceStudent(
    student: Student, availableRooms: seq<RoomState>, ghost o: Outcome,
    ghost assignments0: seq<Assignment>, ghost conflicts0: seq<Conflict>,
    assignments: seq<Assignment>, conflicts: seq<Conflict>)
    returns (assignments': seq<Assignment>, conflicts': seq<Conflict>)
    requires Distinct(availableRooms)
    requires Snapshot(availableRooms) == o.rooms
    requires assignments == assignments0 + o.assignments && conflicts == conflicts0 + o.conflicts
    modifies availableRooms
    ensures Snapshot(availableRooms) == Place(student, o).rooms
    ensures assignments' == assignments0 + Place(student, o).assignments
    ensures conflicts' == conflicts0 + Place(student, o).conflicts
  {
    assignments', conflicts' := assignments, conflicts;
    var bestRoom := FindBestRoomForStudent(student, availableRooms);
    if bestRoom == null {
      conflicts' := conflicts' + [Conflict(student.id, FullName(student.firstname, student.lastname), NO_SUITABLE_ROOM)];
    } else {
      ghost var k := Best(student, o.rooms).value;
      ghost var moved := o.rooms[k].(occupants := o.rooms[k].occupants + [Occupant(student.id, student.level)]);
      assert Place(student, o) == Outcome(o.rooms[k := moved], o.assignments + [Assignment(student.id, o.rooms[k].id)], o.conflicts);
      assignments' := assignments' + [Assignment(student.id, bestRoom.id)];
      bestRoom.occupants := bestRoom.occupants + [Occupant(student.id, student.level)];
      forall j | 0 <= j < |availableRooms|
        ensures Snapshot(availableRooms)[j] == o.rooms[k := moved][j]
      {
        if j != k {
          assert availableRooms[j] != bestRoom;
        }
      }
    }
  }

  /** The id-ordered room states of a run, one fresh object per room. */
  method BuildRoomStates(rows: seq<RoomData>) returns (roomStates: seq<RoomState>)
    ensures Distinct(roomStates)
    ensures forall r :: r in roomStates ==> fresh(r)
    ensures Snapshot(roomStates) == rows
  {
    roomStates := [];
    var i := 0;
    while i < |rows|
      invariant 0 <= i <= |rows|
      invariant |roomStates| == i
      invariant Distinct(roomStates)
      invariant forall r :: r in roomStates ==> fresh(r)
      invariant forall j :: 0 <= j < i ==> roomStates[j].Data() == rows[j]
    {
      var room := new RoomState(rows[i]);
      roomStates := roomStates + [room];
      i := i + 1;
    }
  }

  /** Two room lists that agree on every room of one block, and on every
      room's block, offer the same non-full rooms of that block. */
  lemma {:induction false} SameBlockSameAvailability(block: string, a: seq<RoomData>, b: seq<RoomData>)
    requires |a| == |b|
    requires forall i :: 0 <= i < |a| ==> a[i].block == b[i].block && (a[i].block == block ==> a[i] == b[i])
    ensures AvailableForBlock(block, a) == AvailableForBlock(block, b)
    decreases |a|
  {
    if |a| > 0 {
      SameBlockSameAvailability(block, a[1..], b[1..]);
    }
  }

  /** `now` has the layout of `rooms` and holds its values on `blocks`. */
  ghost predicate AgreesOn(blocks: seq<string>, now: seq<RoomData>, rooms: seq<RoomData>)
  {
    && |now| == |rooms|
    && forall i :: 0 <= i < |rooms| ==>
         now[i].block == rooms[i].block && (rooms[i].block in blocks ==> now[i] == rooms[i])
  }

  /** `after` differs from `before` only on rooms of `blocks`. */
  ghost predicate SameOutside(blocks: seq<string>, before: seq<RoomData>, after: seq<RoomData>)
  {
    && |before| == |after|
    && forall i :: 0 <= i < |before| ==>
         after[i].block == before[i].block && (before[i].block !in blocks ==> after[i] == before[i])
  }

  /** Cohorts that touch other blocks leave a later cohort's blocks as they were. */
  lemma UntouchedBlocks(
    target: seq<string>, touched1: seq<string>, touched2: seq<string>,
    rooms: seq<RoomData>, s1: seq<RoomData>, s2: seq<RoomData>)
    requires forall b :: b in target ==> b !in touched1 && b !in touched2
    requires SameOutside(touched1, rooms, s1) && SameOutside(touched2, s1, s2)
    ensures AgreesOn(target, s2, rooms)
  {
  }

  /** The candidate room states of a cohort, as `runAllocationSolver`
      gathers them: blocks B and C form one list for returning students. */
  function CohortRooms(c: Cohort, roomStates: seq<RoomState>): (p: seq<RoomState>)
    reads roomStates
    ensures forall r :: r in p ==> r in roomStates && r.block in Blocks(c)
  {
    match c
    case Freshmen => AvailableRooms("A", roomStates)
    case Finalists => AvailableRooms("D", roomStates)
    case Returning => AvailableRooms("B", roomStates) + AvailableRooms("C", roomStates)
  }

  /** While a block's rooms still hold their initial values, its candidate
      room states are distinct and carry exactly its non-full rooms. */
  lemma BlockRoomsAgree(block: string, roomStates: seq<RoomState>, rooms: seq<RoomData>)
    requires Distinct(roomStates)
    requires AgreesOn([block], Snapshot(roomStates), rooms)
    ensures Distinct(AvailableRooms(block, roomStates))
    ensures Snapshot(AvailableRooms(block, roomStates)) == AvailableForBlock(block, rooms)
  {
    SameBlockSameAvailability(block, Snapshot(roomStates), rooms);
    AvailableRoomsAgree(block, roomStates);
    AvailableRoomsDistinct(block, roomStates);
  }

  /** While a cohort's blocks still hold their initial values, its candidate
      room states are distinct and carry exactly the cohort's pool. */
  lemma CohortRoomsAgree(c: Cohort, roomStates: seq<RoomState>, rooms: seq<RoomData>)
    requires Distinct(roomStates)
    requires AgreesOn(Blocks(c), Snapshot(roomStates), rooms)
    ensures Distinct(CohortRooms(c, roomStates))
    ensures Snapshot(CohortRooms(c, roomStates)) == Pool(c, rooms)
  {
    var v := Snapshot(roomStates);
    if c == Returning {
      assert AgreesOn(["B"], v, rooms) && AgreesOn(["C"], v, rooms);
      BlockRoomsAgree("B", roomStates, rooms);
      BlockRoomsAgree("C", roomStates, rooms);
      var poolB := AvailableRooms("B", roomStates);
      var poolC := AvailableRooms("C", roomStates);
      SnapshotConcat(poolB, poolC);
      assert "B"[0] != "C"[0];
      forall x | x in poolB ensures x !in poolC { }
    } else {
      assert AgreesOn([Blocks(c)[0]], v, rooms);
      BlockRoomsAgree(Blocks(c)[0], roomStates, rooms);
    }
  }

  /** One cohort's step of `runAllocationSolver`: the cohort is processed
      against its candidate room states; only rooms of its blocks change. */
  method ProcessCohortRooms(
    c: Cohort, students: seq<Student>, roomStates: seq<RoomState>,
    ghost eligible: seq<Student>, ghost rooms: seq<RoomData>,
    assignments: seq<Assignment>, conflicts: seq<Conflict>)
    returns (assignments': seq<Assignment>, conflicts': seq<Conflict>)
    requires students == Members(c, eligible)
    requires Distinct(roomStates)
    requires AgreesOn(Blocks(c), Snapshot(roomStates), rooms)
    modifies set r | r in roomStates
    ensures assignments' == assignments + CohortOutcome(c, eligible, rooms).assignments
    ensures conflicts' == conflicts + CohortOutcome(c, eligible, rooms).conflicts
    ensures SameOutside(Blocks(c), old(Snapshot(roomStates)), Snapshot(roomStates))
  {
    var pool := CohortRooms(c, roomStates);
    CohortRoomsAgree(c, roomStates, rooms);
    assignments', conflicts' := ProcessStudentCategory(students, pool, assignments, conflicts);
  }

  lemma EmptyPrefix<T>(s: seq<T>)
    ensures [] + s == s
  {
  }

  /** The three cohort passes of `runAllocationSolver`, in order, over fresh
      room states: freshmen, then finalists, then returning students. */
  method AllocateCohorts(eligibleStudents: seq<Student>, rooms: seq<RoomData>)
    returns (assignments: seq<Assignment>, conflicts: seq<Conflict>)
    ensures assignments == AllAssignments(eligibleStudents, rooms)
    ensures conflicts == AllConflicts(eligibleStudents, rooms)
  {
    var roomStates := BuildRoomStates(rooms);

    var freshmen := Members(Freshmen, eligibleStudents);
    var finalists := Members(Finalists, eligibleStudents);
    var returning := Members(Returning, eligibleStudents);
    ghost var oA := CohortOutcome(Freshmen, eligibleStudents, rooms);
    ghost var oD := CohortOutcome(Finalists, eligibleStudents, rooms);
    ghost var oR := CohortOutcome(Returning, eligibleStudents, rooms);

    UntouchedBlocks(Blocks(Freshmen), [], [], rooms, rooms, rooms);
    assignments, conflicts := ProcessCohortRooms(Freshmen, freshmen, roomStates, eligibleStudents, rooms, [], []);
    EmptyPrefix(oA.assignments);
    EmptyPrefix(oA.conflicts);
    ghost var afterA := Snapshot(roomStates);
    BlocksDisjoint(Finalists, Freshmen);
    UntouchedBlocks(Blocks(Finalists), Blocks(Freshmen), [], rooms, afterA, afterA);
    assignments, conflicts := ProcessCohortRooms(Finalists, finalists, roomStates, eligibleStudents, rooms, assignments, conflicts);
    ghost var afterD := Snapshot(roomStates);
    BlocksDisjoint(Returning, Freshmen);
    BlocksDisjoint(Returning, Finalists);
    UntouchedBlocks(Blocks(Returning), Blocks(Freshmen), Blocks(Finalists), rooms, afterA, afterD);
    assignments, conflicts := ProcessCohortRooms(Returning, returning, roomStates, eligibleStudents, rooms, assignments, conflicts);
    assert assignments == oA.assignments + oD.assignments + oR.assignments;
    assert conflicts == oA.conflicts + oD.conflicts + oR.conflicts;
  }

  /** `runAllocationSolver`: the directory and the rooms go in, the result
      record (or the no-eligible-students error) comes out. */
  method RunAllocationSolver(allocationId: string, timestamp: string, directory: seq<StudentRecord>, rooms: seq<RoomData>)
    returns (r: Result<AllocationResult, string>)
    requires DistinctRoomIds(rooms)
    ensures r == Solve(allocationId, timestamp, directory, rooms)
  {
    var errors: seq<string> := [];
    var eligibleStudents := EligibleStudents(directory);
    if |eligibleStudents| == 0 {
      return Failure(NO_ELIGIBLE_STUDENTS);
    }
    var assignments, conflicts := AllocateCohorts(eligibleStudents, rooms);
    CohortResolvable(Freshmen, directory, rooms);
    CohortResolvable(Finalists, directory, rooms);
    CohortResolvable(Returning, directory, rooms);
    var allocationsView := AllocationsView(assignments, directory, rooms);

    r := Success(AllocationResult(
      allocationId, timestamp,
      if |conflicts| == 0 && |errors| == 0 then Completed else Partial,
      |assignments|,
      |conflicts| + (|eligibleStudents| - |assignments| - |conflicts|),
      |eligibleStudents|,
      errors, conflicts, allocationsView));
    ghost var expected := Solve(allocationId, timestamp, directory, rooms);
    assert expected.Success? && expected.value.allocations == allocationsView;
    assert expected.value.conflicts == conflicts && expected.value.errors == errors;
    assert expected.value.status == r.value.status;
    assert expected.value.studentsUnallocated == r.value.studentsUnallocated;
  }
}
