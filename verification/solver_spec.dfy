/** The allocation engine of src/services/allocation.solver.ts, stated on
    values: eligibility, the three level cohorts and their blocks, the room
    score, the first-best room choice, the greedy pass over one cohort, and
    the result record of a whole run. The imperative solver (module
    AllocationSolver) is proved to compute exactly these functions; the
    lemmas here state what the engine promises. */
module SolverSpec {
  import opened Common

  const FINALIST_LEVEL: int := 400

  const NO_ELIGIBLE_STUDENTS := "No eligible students found for allocation."
  const NO_ROOMS_IN_BLOCKS := "No available rooms in designated block(s)."
  const NO_SUITABLE_ROOM := "Could not find a suitable room matching constraints."

  /** A student's hostel registration as the directory stores it. */
  datatype Registration = Registration(status: string, preferredBlock: Option<string>)

  /** One row of the student directory, with what eligibility looks at:
      the registration, the statuses of the student's documents, and whether
      an allocation row already exists for the student. */
  datatype StudentRecord = StudentRecord(
    id: int, firstname: string, lastname: string, matricNumber: string, level: int,
    registration: Option<Registration>, documentStatuses: seq<string>, hasAllocation: bool)

  /** An eligible student, as the solver sees one. */
  datatype Student = Student(
    id: int, firstname: string, lastname: string, matricNumber: string, level: int,
    preferredBlock: Option<string>)

  /** A room occupant; scoring only looks at the level. */
  datatype Occupant = Occupant(id: int, level: int)

  /** A room with its current occupants. */
  datatype RoomData = RoomData(id: int, block: string, roomNumber: string, capacity: int, occupants: seq<Occupant>)

  datatype Assignment = Assignment(studentId: int, roomId: int)
  datatype Conflict = Conflict(studentId: int, studentName: string, issue: string)
  datatype AllocationView = AllocationView(
    studentId: int, studentName: string, matricNumber: string, block: string, roomNumber: string)

  datatype RunStatus = Completed | Partial | Failed

  datatype AllocationResult = AllocationResult(
    id: string, timestamp: string, status: RunStatus,
    studentsAllocated: int, studentsUnallocated: int, totalStudents: int,
    errors: seq<string>, conflicts: seq<Conflict>, allocations: seq<AllocationView>)

  /** The three level bands the solver processes, in this order. */
  datatype Cohort = Freshmen | Finalists | Returning

  function FullName(firstname: string, lastname: string): string
  {
    firstname + " " + lastname
  }

  // ---------------------------------------------------------------- eligibility

  /** Registration submitted (in either spelling), some document verified,
      and no allocation yet. */
  predicate IsEligible(r: StudentRecord)
  {
    && r.registration.Some?
    && r.registration.value.status in ["SUBMITTED", "submitted"]
    && "verified" in r.documentStatuses
    && !r.hasAllocation
  }

  function ToStudent(r: StudentRecord): Student
    requires r.registration.Some?
  {
    Student(r.id, r.firstname, r.lastname, r.matricNumber, r.level, r.registration.value.preferredBlock)
  }

  /** First directory row with the given id (`find`). */
  function FindStudent(directory: seq<StudentRecord>, id: int): (r: Option<StudentRecord>)
    ensures r.Some? ==> r.value.id == id && r.value in directory
    decreases |directory|
  {
    if |directory| == 0 then None
    else if directory[0].id == id then Some(directory[0])
    else FindStudent(directory[1..], id)
  }

  /** The eligible students, in directory order. */
  function EligibleStudents(directory: seq<StudentRecord>): (el: seq<Student>)
    ensures |el| <= |directory|
    ensures |el| == 0 <==> forall i :: 0 <= i < |directory| ==> !IsEligible(directory[i])
    ensures forall s :: s in el ==> FindStudent(directory, s.id).Some?
    ensures forall s :: s in el <==>
              exists i :: 0 <= i < |directory| && IsEligible(directory[i]) && s == ToStudent(directory[i])
    decreases |directory|
  {
    if |directory| == 0 then []
    else
      var rest := EligibleStudents(directory[1..]);
      assert forall i :: 1 <= i < |directory| ==> directory[i] == directory[1..][i - 1];
      if IsEligible(directory[0]) then [ToStudent(directory[0])] + rest else rest
  }

  // ---------------------------------------------------------------- cohorts

  predicate InCohort(c: Cohort, level: int)
  {
    match c
    case Freshmen => level == 100
    case Finalists => level >= FINALIST_LEVEL
    case Returning => level > 100 && level < FINALIST_LEVEL
  }

  /** The students of one cohort, in input order (`filter`). */
  function Members(c: Cohort, el: seq<Student>): (m: seq<Student>)
    ensures |m| <= |el|
    ensures forall s :: s in m ==> s in el && InCohort(c, s.level)
    decreases |el|
  {
    if |el| == 0 then []
    else (if InCohort(c, el[0].level) then [el[0]] else []) + Members(c, el[1..])
  }

  /** Students below level 100: in no cohort. */
  function Uncohorted(el: seq<Student>): (u: seq<Student>)
    ensures forall s :: s in u ==> s in el && s.level < 100
    decreases |el|
  {
    if |el| == 0 then []
    else (if el[0].level < 100 then [el[0]] else []) + Uncohorted(el[1..])
  }

  /** The blocks each cohort is confined to. */
  function Blocks(c: Cohort): seq<string>
  {
    match c
    case Freshmen => ["A"]
    case Finalists => ["D"]
    case Returning => ["B", "C"]
  }

  /** No block serves two cohorts. */
  lemma BlocksDisjoint(c1: Cohort, c2: Cohort)
    requires c1 != c2
    ensures forall b :: b in Blocks(c1) ==> b !in Blocks(c2)
  {
    assert "A"[0] != "D"[0] && "A"[0] != "B"[0] && "A"[0] != "C"[0];
    assert "D"[0] != "B"[0] && "D"[0] != "C"[0];
  }

  // ---------------------------------------------------------------- rooms

  predicate HasSpace(r: RoomData)
  {
    |r.occupants| < r.capacity
  }

  /** The non-full rooms of one block, in room order. */
  function AvailableForBlock(block: string, rooms: seq<RoomData>): (a: seq<RoomData>)
    ensures |a| <= |rooms|
    ensures forall r :: r in a ==> r in rooms && r.block == block && HasSpace(r)
    ensures forall r :: r in rooms && r.block == block && HasSpace(r) ==> r in a
    decreases |rooms|
  {
    if |rooms| == 0 then []
    else
      (if rooms[0].block == block && HasSpace(rooms[0]) then [rooms[0]] else [])
      + AvailableForBlock(block, rooms[1..])
  }

  /** The candidate rooms of a cohort; blocks B and C form one shared pool. */
  function Pool(c: Cohort, rooms: seq<RoomData>): (p: seq<RoomData>)
    ensures forall r :: r in p ==> r in rooms && r.block in Blocks(c) && HasSpace(r)
  {
    match c
    case Freshmen => AvailableForBlock("A", rooms)
    case Finalists => AvailableForBlock("D", rooms)
    case Returning => AvailableForBlock("B", rooms) + AvailableForBlock("C", rooms)
  }

  /** First room with the given id (the id-keyed map of room states). */
  function FindRoom(rooms: seq<RoomData>, id: int): (r: Option<RoomData>)
    ensures r.Some? ==> r.value.id == id && r.value in rooms
    decreases |rooms|
  {
    if |rooms| == 0 then None
    else if rooms[0].id == id then Some(rooms[0])
    else FindRoom(rooms[1..], id)
  }

  predicate DistinctRoomIds(rooms: seq<RoomData>)
  {
    forall i, j :: 0 <= i < j < |rooms| ==> rooms[i].id != rooms[j].id
  }

  function RoomIds(rooms: seq<RoomData>): seq<int>
  {
    seq(|rooms|, i requires 0 <= i < |rooms| => rooms[i].id)
  }

  function StudentIds(students: seq<Student>): seq<int>
  {
    seq(|students|, i requires 0 <= i < |students| => students[i].id)
  }

  function AssignedIds(assignments: seq<Assignment>): seq<int>
  {
    seq(|assignments|, i requires 0 <= i < |assignments| => assignments[i].studentId)
  }

  function ConflictIds(conflicts: seq<Conflict>): seq<int>
  {
    seq(|conflicts|, i requires 0 <= i < |conflicts| => conflicts[i].studentId)
  }

  // ---------------------------------------------------------------- scoring

  /** Occupants on the given level. */
  function SameLevelCount(occupants: seq<Occupant>, level: int): (n: nat)
    ensures n <= |occupants|
    decreases |occupants|
  {
    if |occupants| == 0 then 0
    else (if occupants[0].level == level then 1 else 0) + SameLevelCount(occupants[1..], level)
  }

  /** 100, plus 20 in the preferred block, plus 10 per occupant on the
      student's level, minus 5 per occupant. */
  function Score(s: Student, r: RoomData): int
  {
    var preferred := if s.preferredBlock == Some(r.block) then 20 else 0;
    var clustering := if |r.occupants| > 0 then SameLevelCount(r.occupants, s.level) * 10 else 0;
    100 + preferred + clustering - |r.occupants| * 5
  }

  /** The room the scoring loop keeps: scanning in order from a best score of
      -1, a non-full room replaces the current choice only when its score is
      strictly greater. */
  function Best(s: Student, rooms: seq<RoomData>): (b: Option<nat>)
    ensures b.Some? ==> b.value < |rooms| && HasSpace(rooms[b.value]) && Score(s, rooms[b.value]) >= 0
    decreases |rooms|
  {
    if |rooms| == 0 then None
    else
      var n := |rooms| - 1;
      var prev := Best(s, rooms[..n]);
      var maxScore := if prev.Some? then Score(s, rooms[prev.value]) else -1;
      if HasSpace(rooms[n]) && Score(s, rooms[n]) > maxScore then Some(n) else prev
  }

  /** The chosen room is the first non-full room of greatest score, and there
      is none exactly when every non-full room scores below zero. */
  lemma {:induction false} BestIsFirstMaximum(s: Student, rooms: seq<RoomData>)
    ensures Best(s, rooms).None? <==>
              forall j :: 0 <= j < |rooms| && HasSpace(rooms[j]) ==> Score(s, rooms[j]) < 0
    ensures Best(s, rooms).Some? ==>
              var k := Best(s, rooms).value;
              && (forall j :: 0 <= j < |rooms| && HasSpace(rooms[j]) ==> Score(s, rooms[j]) <= Score(s, rooms[k]))
              && (forall j :: 0 <= j < k && HasSpace(rooms[j]) ==> Score(s, rooms[j]) < Score(s, rooms[k]))
    decreases |rooms|
  {
    if |rooms| > 0 {
      var n := |rooms| - 1;
      BestIsFirstMaximum(s, rooms[..n]);
      assert forall j :: 0 <= j < n ==> rooms[..n][j] == rooms[j];
    }
  }

  /** With at most 21 places per room, no non-full room scores below zero,
      so the choice fails only when every candidate room is full. */
  lemma BestNoneOnlyWhenFull(s: Student, rooms: seq<RoomData>)
    requires forall j :: 0 <= j < |rooms| ==> rooms[j].capacity <= 21
    ensures Best(s, rooms).None? <==> forall j :: 0 <= j < |rooms| ==> !HasSpace(rooms[j])
  {
    BestIsFirstMaximum(s, rooms);
    forall j | 0 <= j < |rooms| && HasSpace(rooms[j])
      ensures Score(s, rooms[j]) >= 0
    {
      assert |rooms[j].occupants| <= 20;
    }
  }

  // ---------------------------------------------------------------- one cohort

  /** Rooms after a pass, the assignments and the conflicts it recorded. */
  datatype Outcome = Outcome(rooms: seq<RoomData>, assignments: seq<Assignment>, conflicts: seq<Conflict>)

  /** One student of the pass: into the best room, or a conflict. */
  function Place(s: Student, o: Outcome): Outcome
  {
    match Best(s, o.rooms)
    case None =>
      o.(conflicts := o.conflicts + [Conflict(s.id, FullName(s.firstname, s.lastname), NO_SUITABLE_ROOM)])
    case Some(k) =>
      var room := o.rooms[k];
      Outcome(o.rooms[k := room.(occupants := room.occupants + [Occupant(s.id, s.level)])],
              o.assignments + [Assignment(s.id, room.id)],
              o.conflicts)
  }

  /** The greedy pass over the students, in order, from the given rooms. */
  function PlaceAll(students: seq<Student>, rooms: seq<RoomData>): Outcome
    decreases |students|
  {
    if |students| == 0 then Outcome(rooms, [], [])
    else Place(students[|students| - 1], PlaceAll(students[..|students| - 1], rooms))
  }

  /** One more student extends the pass by one placement. */
  lemma PlaceAllStep(students: seq<Student>, i: nat, rooms: seq<RoomData>)
    requires i < |students|
    ensures PlaceAll(students[..i + 1], rooms) == Place(students[i], PlaceAll(students[..i], rooms))
  {
    assert students[..i + 1][..i] == students[..i];
  }

  function NoRoomConflicts(students: seq<Student>): seq<Conflict>
  {
    seq(|students|, i requires 0 <= i < |students| =>
      Conflict(students[i].id, FullName(students[i].firstname, students[i].lastname), NO_ROOMS_IN_BLOCKS))
  }

  /** A cohort against its candidate rooms: all conflicts when there are none. */
  function ProcessCohort(students: seq<Student>, rooms: seq<RoomData>): Outcome
  {
    if |rooms| == 0 then Outcome(rooms, [], NoRoomConflicts(students))
    else PlaceAll(students, rooms)
  }

  function CohortOutcome(c: Cohort, el: seq<Student>, rooms: seq<RoomData>): Outcome
  {
    ProcessCohort(Members(c, el), Pool(c, rooms))
  }

  /** Same rooms in the same order; occupants only ever appended. */
  predicate SameLayout(before: seq<RoomData>, after: seq<RoomData>)
  {
    && |before| == |after|
    && forall i :: 0 <= i < |before| ==>
         && after[i].id == before[i].id
         && after[i].block == before[i].block
         && after[i].roomNumber == before[i].roomNumber
         && after[i].capacity == before[i].capacity
         && before[i].occupants <= after[i].occupants
  }

  predicate WithinCapacity(rooms: seq<RoomData>)
  {
    forall i :: 0 <= i < |rooms| ==> |rooms[i].occupants| <= rooms[i].capacity
  }

  /** Capacity is a hard constraint: a room that receives a student is never
      pushed past its capacity, so rooms within capacity stay within it. */
  lemma {:induction false} PlaceAllRespectsCapacity(students: seq<Student>, rooms: seq<RoomData>)
    ensures SameLayout(rooms, PlaceAll(students, rooms).rooms)
    ensures var after := PlaceAll(students, rooms).rooms;
            forall i :: 0 <= i < |rooms| && |after[i].occupants| > |rooms[i].occupants| ==>
              |after[i].occupants| <= after[i].capacity
    ensures WithinCapacity(rooms) ==> WithinCapacity(PlaceAll(students, rooms).rooms)
    decreases |students|
  {
    if |students| > 0 {
      var n := |students| - 1;
      PlaceAllRespectsCapacity(students[..n], rooms);
      var o := PlaceAll(students[..n], rooms);
      match Best(students[n], o.rooms)
      case None =>
      case Some(k) =>
        var o' := Place(students[n], o);
        assert forall i :: 0 <= i < |rooms| && i != k ==> o'.rooms[i] == o.rooms[i];
        assert o'.rooms[k].occupants == o.rooms[k].occupants + [Occupant(students[n].id, students[n].level)];
    }
  }

  /** Every student of the pass yields exactly one assignment or one
      conflict: the assigned and the conflicting ids together are the
      students' ids. */
  lemma {:induction false} PlaceAllAccounts(students: seq<Student>, rooms: seq<RoomData>)
    ensures var o := PlaceAll(students, rooms);
            && |o.assignments| + |o.conflicts| == |students|
            && multiset(AssignedIds(o.assignments)) + multiset(ConflictIds(o.conflicts))
               == multiset(StudentIds(students))
    decreases |students|
  {
    if |students| > 0 {
      var n := |students| - 1;
      var s := students[n];
      PlaceAllAccounts(students[..n], rooms);
      var o := PlaceAll(students[..n], rooms);
      assert PlaceAll(students, rooms) == Place(s, o);
      assert multiset(StudentIds(students)) == multiset(StudentIds(students[..n])) + multiset{s.id} by {
        assert StudentIds(students) == StudentIds(students[..n]) + [s.id];
      }
      PlaceIds(s, o);
    }
  }

  /** One placement adds the student's id to exactly one of the two lists. */
  lemma PlaceIds(s: Student, o: Outcome)
    ensures var o' := Place(s, o);
            && |o'.assignments| + |o'.conflicts| == |o.assignments| + |o.conflicts| + 1
            && multiset(AssignedIds(o'.assignments)) + multiset(ConflictIds(o'.conflicts))
               == multiset(AssignedIds(o.assignments)) + multiset(ConflictIds(o.conflicts)) + multiset{s.id}
  {
    var o' := Place(s, o);
    if Best(s, o.rooms).None? {
      assert ConflictIds(o'.conflicts) == ConflictIds(o.conflicts) + [s.id];
    } else {
      assert AssignedIds(o'.assignments) == AssignedIds(o.assignments) + [s.id];
    }
  }

  /** Every assignment of a pass names one of the given rooms, and every
      conflict of a pass says no suitable room was found. */
  lemma {:induction false} PlaceAllTargets(students: seq<Student>, rooms: seq<RoomData>)
    ensures var o := PlaceAll(students, rooms);
            && (forall a :: a in o.assignments ==> a.roomId in RoomIds(rooms))
            && (forall c :: c in o.conflicts ==> c.issue == NO_SUITABLE_ROOM)
    decreases |students|
  {
    if |students| > 0 {
      var n := |students| - 1;
      var s := students[n];
      PlaceAllTargets(students[..n], rooms);
      PlaceAllRespectsCapacity(students[..n], rooms);
      var o := PlaceAll(students[..n], rooms);
      match Best(s, o.rooms)
      case None =>
      case Some(k) =>
        assert o.rooms[k].id == RoomIds(rooms)[k];
    }
  }

  /** A cohort whose blocks have no non-full room gets one "no available
      rooms" conflict per student, in order, and no assignment. */
  lemma EmptyPoolAllConflicts(students: seq<Student>, rooms: seq<RoomData>)
    requires |rooms| == 0
    ensures ProcessCohort(students, rooms).assignments == []
    ensures ConflictIds(ProcessCohort(students, rooms).conflicts) == StudentIds(students)
    ensures forall c :: c in ProcessCohort(students, rooms).conflicts ==> c.issue == NO_ROOMS_IN_BLOCKS
  {
  }

  /** Per cohort: assigned plus conflicting ids are exactly the cohort's ids. */
  lemma CohortAccounts(students: seq<Student>, rooms: seq<RoomData>)
    ensures var o := ProcessCohort(students, rooms);
            && |o.assignments| + |o.conflicts| == |students|
            && multiset(AssignedIds(o.assignments)) + multiset(ConflictIds(o.conflicts))
               == multiset(StudentIds(students))
            && forall a :: a in o.assignments ==> a.roomId in RoomIds(rooms)
  {
    if |rooms| > 0 {
      PlaceAllAccounts(students, rooms);
      PlaceAllTargets(students, rooms);
    } else {
      assert ConflictIds(NoRoomConflicts(students)) == StudentIds(students);
    }
  }

  // ---------------------------------------------------------------- cohorts together

  /** Level bands are pairwise disjoint; a student is in some band exactly
      when the level is at least 100. */
  lemma CohortsDisjoint(level: int)
    ensures !(InCohort(Freshmen, level) && InCohort(Finalists, level))
    ensures !(InCohort(Freshmen, level) && InCohort(Returning, level))
    ensures !(InCohort(Finalists, level) && InCohort(Returning, level))
    ensures (InCohort(Freshmen, level) || InCohort(Finalists, level) || InCohort(Returning, level)) <==> level >= 100
  {
  }

  /** The three cohorts and the students below level 100 split the eligible
      list: every student lands in exactly one of the four. */
  lemma CohortsPartition(el: seq<Student>)
    ensures multiset(StudentIds(Members(Freshmen, el))) + multiset(StudentIds(Members(Finalists, el)))
            + multiset(StudentIds(Members(Returning, el))) + multiset(StudentIds(Uncohorted(el)))
            == multiset(StudentIds(el))
    ensures |Members(Freshmen, el)| + |Members(Finalists, el)| + |Members(Returning, el)| + |Uncohorted(el)| == |el|
  {
    CohortsPartitionIds(el);
    var f, d, r, u := Members(Freshmen, el), Members(Finalists, el), Members(Returning, el), Uncohorted(el);
    assert |multiset(StudentIds(f))| == |f| && |multiset(StudentIds(d))| == |d|;
    assert |multiset(StudentIds(r))| == |r| && |multiset(StudentIds(u))| == |u|;
    assert |multiset(StudentIds(el))| == |el|;
  }

  lemma {:induction false} CohortsPartitionIds(el: seq<Student>)
    ensures multiset(StudentIds(Members(Freshmen, el))) + multiset(StudentIds(Members(Finalists, el)))
            + multiset(StudentIds(Members(Returning, el))) + multiset(StudentIds(Uncohorted(el)))
            == multiset(StudentIds(el))
    decreases |el|
  {
    if |el| > 0 {
      var s, rest := el[0], el[1..];
      CohortsPartitionIds(rest);
      assert el == [s] + rest;
      StudentIdsConcat([s], rest);
      var head := if s.level < 100 then [s] else [];
      StudentIdsConcat(head, Uncohorted(rest));
      StudentIdsConcat(if InCohort(Freshmen, s.level) then [s] else [], Members(Freshmen, rest));
      StudentIdsConcat(if InCohort(Finalists, s.level) then [s] else [], Members(Finalists, rest));
      StudentIdsConcat(if InCohort(Returning, s.level) then [s] else [], Members(Returning, rest));
    }
  }

  lemma StudentIdsConcat(a: seq<Student>, b: seq<Student>)
    ensures StudentIds(a + b) == StudentIds(a) + StudentIds(b)
  {
  }

  /** A room of the given list is what the id map returns for its id. */
  lemma {:induction false} FindRoomOfMember(rooms: seq<RoomData>, r: RoomData)
    requires DistinctRoomIds(rooms)
    requires r in rooms
    ensures FindRoom(rooms, r.id) == Some(r)
    decreases |rooms|
  {
    if rooms[0] != r {
      assert r in rooms[1..];
      FindRoomOfMember(rooms[1..], r);
    }
  }

  /** Block confinement: every assignment of a cohort names one of its
      students and a room, looked up by id among all rooms, in one of the
      cohort's blocks. */
  lemma CohortConfinedToBlocks(c: Cohort, el: seq<Student>, rooms: seq<RoomData>)
    requires DistinctRoomIds(rooms)
    ensures forall a :: a in CohortOutcome(c, el, rooms).assignments ==>
              && a.studentId in StudentIds(Members(c, el))
              && FindRoom(rooms, a.roomId).Some?
              && FindRoom(rooms, a.roomId).value.block in Blocks(c)
  {
    var m := Members(c, el);
    var p := Pool(c, rooms);
    var o := CohortOutcome(c, el, rooms);
    CohortAccounts(m, p);
    forall a | a in o.assignments
      ensures a.studentId in StudentIds(m)
      ensures FindRoom(rooms, a.roomId).Some? && FindRoom(rooms, a.roomId).value.block in Blocks(c)
    {
      var i :| 0 <= i < |o.assignments| && o.assignments[i] == a;
      assert AssignedIds(o.assignments)[i] == a.studentId;
      assert a.studentId in multiset(AssignedIds(o.assignments));
      assert a.studentId in multiset(StudentIds(m));
      var k :| 0 <= k < |p| && p[k].id == a.roomId;
      assert p[k] in p;
      FindRoomOfMember(rooms, p[k]);
    }
  }

  /** Every assignment of a cohort can be resolved to a directory row and a
      room: the lookups the result record makes never miss. */
  lemma CohortResolvable(c: Cohort, directory: seq<StudentRecord>, rooms: seq<RoomData>)
    ensures forall a :: a in CohortOutcome(c, EligibleStudents(directory), rooms).assignments ==>
              FindStudent(directory, a.studentId).Some? && FindRoom(rooms, a.roomId).Some?
  {
    var el := EligibleStudents(directory);
    var m := Members(c, el);
    var p := Pool(c, rooms);
    var o := CohortOutcome(c, el, rooms);
    CohortAccounts(m, p);
    forall a | a in o.assignments
      ensures FindStudent(directory, a.studentId).Some? && FindRoom(rooms, a.roomId).Some?
    {
      var i :| 0 <= i < |o.assignments| && o.assignments[i] == a;
      assert AssignedIds(o.assignments)[i] == a.studentId;
      assert a.studentId in multiset(AssignedIds(o.assignments));
      assert a.studentId in multiset(StudentIds(m));
      var j :| 0 <= j < |m| && m[j].id == a.studentId;
      assert m[j] in m;
      var k :| 0 <= k < |p| && p[k].id == a.roomId;
      assert p[k] in p;
      FindRoomFound(rooms, p[k]);
    }
  }

  lemma {:induction false} FindRoomFound(rooms: seq<RoomData>, r: RoomData)
    requires r in rooms
    ensures FindRoom(rooms, r.id).Some?
    decreases |rooms|
  {
    if rooms[0] != r {
      assert r in rooms[1..];
      FindRoomFound(rooms[1..], r);
    }
  }

  // ---------------------------------------------------------------- the run

  /** The display record of one assignment: the student's id, full name and
      matric number from the directory, the block and room number of the
      room with the assigned id. */
  function ViewOf(a: Assignment, directory: seq<StudentRecord>, rooms: seq<RoomData>): (v: AllocationView)
    requires FindStudent(directory, a.studentId).Some? && FindRoom(rooms, a.roomId).Some?
    ensures exists st :: st in directory && st.id == a.studentId
              && v.studentName == FullName(st.firstname, st.lastname) && v.matricNumber == st.matricNumber
    ensures exists room :: room in rooms && room.id == a.roomId
              && v.block == room.block && v.roomNumber == room.roomNumber
    ensures v.studentId == a.studentId
  {
    var st := FindStudent(directory, a.studentId).value;
    var room := FindRoom(rooms, a.roomId).value;
    AllocationView(st.id, FullName(st.firstname, st.lastname), st.matricNumber, room.block, room.roomNumber)
  }

  /** The display record of every assignment, in assignment order. */
  function AllocationsView(assignments: seq<Assignment>, directory: seq<StudentRecord>, rooms: seq<RoomData>)
    : (v: seq<AllocationView>)
    requires forall a :: a in assignments ==>
               FindStudent(directory, a.studentId).Some? && FindRoom(rooms, a.roomId).Some?
    ensures |v| == |assignments|
    ensures forall i :: 0 <= i < |v| ==> v[i] == ViewOf(assignments[i], directory, rooms)
  {
    seq(|assignments|, i requires 0 <= i < |assignments| => ViewOf(assignments[i], directory, rooms))
  }

  function AllAssignments(el: seq<Student>, rooms: seq<RoomData>): seq<Assignment>
  {
    CohortOutcome(Freshmen, el, rooms).assignments
    + CohortOutcome(Finalists, el, rooms).assignments
    + CohortOutcome(Returning, el, rooms).assignments
  }

  function AllConflicts(el: seq<Student>, rooms: seq<RoomData>): seq<Conflict>
  {
    CohortOutcome(Freshmen, el, rooms).conflicts
    + CohortOutcome(Finalists, el, rooms).conflicts
    + CohortOutcome(Returning, el, rooms).conflicts
  }

  /** A whole solver run: freshmen against block A, finalists against block
      D, returning students against blocks B and C, then the result record. */
  function Solve(allocationId: string, timestamp: string, directory: seq<StudentRecord>, rooms: seq<RoomData>)
    : Result<AllocationResult, string>
  {
    var el := EligibleStudents(directory);
    if |el| == 0 then Failure(NO_ELIGIBLE_STUDENTS)
    else
      var errors: seq<string> := [];
      var assignments := AllAssignments(el, rooms);
      var conflicts := AllConflicts(el, rooms);
      CohortResolvable(Freshmen, directory, rooms);
      CohortResolvable(Finalists, directory, rooms);
      CohortResolvable(Returning, directory, rooms);
      Success(AllocationResult(
        allocationId, timestamp,
        if |conflicts| == 0 && |errors| == 0 then Completed else Partial,
        |assignments|,
        |conflicts| + (|el| - |assignments| - |conflicts|),
        |el|,
        errors, conflicts,
        AllocationsView(assignments, directory, rooms)))
  }

  /** The run fails exactly when nobody is eligible; otherwise it is
      "completed" iff there is no conflict, never records an error, counts
      one allocation per assignment, and reports as unallocated everyone not
      assigned, which is the conflicts plus the students below level 100. */
  lemma SolveCounts(allocationId: string, timestamp: string, directory: seq<StudentRecord>, rooms: seq<RoomData>)
    ensures var el := EligibleStudents(directory);
            Solve(allocationId, timestamp, directory, rooms).Failure? <==> |el| == 0
    ensures Solve(allocationId, timestamp, directory, rooms).Failure? ==>
              Solve(allocationId, timestamp, directory, rooms).error == NO_ELIGIBLE_STUDENTS
    ensures Solve(allocationId, timestamp, directory, rooms).Success? ==>
              var r := Solve(allocationId, timestamp, directory, rooms).value;
              var el := EligibleStudents(directory);
              && r.id == allocationId
              && r.totalStudents == |el|
              && r.studentsAllocated == |r.allocations|
              && r.studentsUnallocated == r.totalStudents - r.studentsAllocated
              && r.studentsUnallocated == |r.conflicts| + |Uncohorted(el)|
              && (r.status == Completed <==> |r.conflicts| == 0)
              && r.status != Failed
              && r.errors == []
  {
    var el := EligibleStudents(directory);
    if |el| > 0 {
      CohortsPartition(el);
      CohortAccounts(Members(Freshmen, el), Pool(Freshmen, rooms));
      CohortAccounts(Members(Finalists, el), Pool(Finalists, rooms));
      CohortAccounts(Members(Returning, el), Pool(Returning, rooms));
    }
  }

  /** Exactly the cohort students get an assignment or a conflict, once each:
      the ids of assignments and conflicts together are the ids of the
      eligible students at level 100 or above. */
  lemma RunPartitionsStudents(el: seq<Student>, rooms: seq<RoomData>)
    ensures multiset(AssignedIds(AllAssignments(el, rooms))) + multiset(ConflictIds(AllConflicts(el, rooms)))
              + multiset(StudentIds(Uncohorted(el)))
            == multiset(StudentIds(el))
  {
    CohortsPartition(el);
    var fa := CohortOutcome(Freshmen, el, rooms);
    var fd := CohortOutcome(Finalists, el, rooms);
    var fr := CohortOutcome(Returning, el, rooms);
    CohortAccounts(Members(Freshmen, el), Pool(Freshmen, rooms));
    CohortAccounts(Members(Finalists, el), Pool(Finalists, rooms));
    CohortAccounts(Members(Returning, el), Pool(Returning, rooms));
    AssignedIdsConcat(fa.assignments, fd.assignments);
    AssignedIdsConcat(fa.assignments + fd.assignments, fr.assignments);
    ConflictIdsConcat(fa.conflicts, fd.conflicts);
    ConflictIdsConcat(fa.conflicts + fd.conflicts, fr.conflicts);
    var ma := multiset(AssignedIds(AllAssignments(el, rooms)));
    var mc := multiset(ConflictIds(AllConflicts(el, rooms)));
    assert ma == multiset(AssignedIds(fa.assignments)) + multiset(AssignedIds(fd.assignments))
                 + multiset(AssignedIds(fr.assignments));
    assert mc == multiset(ConflictIds(fa.conflicts)) + multiset(ConflictIds(fd.conflicts))
                 + multiset(ConflictIds(fr.conflicts));
  }

  lemma AssignedIdsConcat(a: seq<Assignment>, b: seq<Assignment>)
    ensures AssignedIds(a + b) == AssignedIds(a) + AssignedIds(b)
  {
  }

  lemma ConflictIdsConcat(a: seq<Conflict>, b: seq<Conflict>)
    ensures ConflictIds(a + b) == ConflictIds(a) + ConflictIds(b)
  {
  }
}
