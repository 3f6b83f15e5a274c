/** The allocation run controller of src/services/allocationService.ts: the
    in-memory run status and last result, the single-flight start, the
    finalisation that runs the solver, resolves rooms by their
    `block-roomNumber` key and persists the allocation rows with
    duplicates skipped, and the guarded report generators. */
module AllocationService {
  import opened Common
  import opened SolverSpec
  import opened AllocationSolver

  const ALREADY_RUNNING := "Allocation process is already running."
  const STARTED := "Allocation process started successfully."
  const RESULT_NOT_FOUND := "Allocation result not found"

  const IDLE_STEP := "Idle"
  const INITIALIZING_STEP := "Initializing..."
  const FETCHING_STEP := "Fetching students and rooms..."
  const SAVING_STEP := "Saving allocations to database..."
  const COMPLETED_STEP := "Completed"

  const CSV_HEADER_LINE := "Student Name,Matric Number,Block,Room Number"

  /** The module-level run status. */
  datatype AllocationStatus = AllocationStatus(
    isRunning: bool, progress: int, currentStep: string, startTime: Option<string>)

  const IDLE := AllocationStatus(false, 0, IDLE_STEP, None)

  /** A row of the room table, as far as room resolution reads it. */
  datatype RoomRow = RoomRow(id: int, block: string, roomNumber: string)


  // ---------------------------------------------------------------- room resolution

  function RoomKey(block: string, roomNumber: string): string
  {
    block + "-" + roomNumber
  }

  function RoomKeys(rooms: seq<RoomRow>): (keys: seq<string>)
    ensures |keys| == |rooms|
  {
    seq(|rooms|, i requires 0 <= i < |rooms| => RoomKey(rooms[i].block, rooms[i].roomNumber))
  }

  /** `new Map(rooms.map(room => [key, room.id]))`: every room's key maps to
      its id; when two rooms share a key, the later room wins. */
  function RoomKeyMap(rooms: seq<RoomRow>): (m: map<string, int>)
    ensures forall k :: k in m <==> k in RoomKeys(rooms)
    ensures forall i :: 0 <= i < |rooms| && RoomKeys(rooms)[i] !in RoomKeys(rooms)[i + 1..] ==>
              m[RoomKeys(rooms)[i]] == rooms[i].id
    decreases |rooms|
  {
    if |rooms| == 0 then map[]
    else
      var n := |rooms| - 1;
      var keys := RoomKeys(rooms);
      assert RoomKeys(rooms[..n]) == keys[..n];
      assert keys == keys[..n] + [keys[n]];
      RoomKeyMap(rooms[..n])[keys[n] := rooms[n].id]
  }

  function RoomNotFound(block: string, roomNumber: string): string
  {
    "Room not found: " + block + " " + roomNumber
  }

  /** An allocation whose room key is in the map with a truthy (non-zero) id. */
  predicate Resolvable(a: AllocationView, roomMap: map<string, int>)
  {
    RoomKey(a.block, a.roomNumber) in roomMap && roomMap[RoomKey(a.block, a.roomNumber)] != 0
  }

  /** The allocation rows of a result, each room looked up by its key; the
      first allocation whose room is missing aborts the whole batch. */
  function ResolveRooms(allocations: seq<AllocationView>, roomMap: map<string, int>)
    : (r: Result<seq<AllocationRow>, string>)
    ensures r.Success? <==> forall i :: 0 <= i < |allocations| ==> Resolvable(allocations[i], roomMap)
    ensures r.Success? ==>
              && |r.value| == |allocations|
              && forall i :: 0 <= i < |allocations| ==>
                   r.value[i] == AllocationRow(allocations[i].studentId,
                                               roomMap[RoomKey(allocations[i].block, allocations[i].roomNumber)])
    ensures r.Failure? ==>
              exists i :: 0 <= i < |allocations| && !Resolvable(allocations[i], roomMap)
                          && (forall j :: 0 <= j < i ==> Resolvable(allocations[j], roomMap))
                          && r.error == RoomNotFound(allocations[i].block, allocations[i].roomNumber)
    decreases |allocations|
  {
    if |allocations| == 0 then Success([])
    else
      var a := allocations[0];
      if !Resolvable(a, roomMap) then Failure(RoomNotFound(a.block, a.roomNumber))
      else
        var rest := ResolveRooms(allocations[1..], roomMap);
        if rest.Failure? then
          var i :| 0 <= i < |allocations[1..]| && !Resolvable(allocations[1..][i], roomMap)
                   && (forall j :: 0 <= j < i ==> Resolvable(allocations[1..][j], roomMap))
                   && rest.error == RoomNotFound(allocations[1..][i].block, allocations[1..][i].roomNumber);
          assert !Resolvable(allocations[i + 1], roomMap);
          assert forall j :: 1 <= j < i + 1 ==> allocations[j] == allocations[1..][j - 1];
          Failure(rest.error)
        else
          Success([AllocationRow(a.studentId, roomMap[RoomKey(a.block, a.roomNumber)])] + rest.value)
  }

  // ---------------------------------------------------------------- persistence

  function RowStudentIds(table: seq<AllocationRow>): (ids: seq<int>)
    ensures |ids| == |table|
  {
    seq(|table|, i requires 0 <= i < |table| => table[i].studentId)
  }

  predicate DistinctIds(ids: seq<int>)
  {
    forall i, j :: 0 <= i < j < |ids| ==> ids[i] != ids[j]
  }

  /** `createMany({ skipDuplicates: true })` on a table whose `studentId` is
      unique: rows are inserted in order, and a row whose student already
      has a row (stored before, or inserted earlier in the batch) is skipped. */
  function InsertSkipDuplicates(table: seq<AllocationRow>, rows: seq<AllocationRow>): (t: seq<AllocationRow>)
    ensures table <= t
    ensures forall x :: x in t ==> x in table || x in rows
    ensures forall r :: r in rows ==> r.studentId in RowStudentIds(t)
    ensures DistinctIds(RowStudentIds(table)) ==> DistinctIds(RowStudentIds(t))
    decreases |rows|
  {
    if |rows| == 0 then table
    else
      var n := |rows| - 1;
      var t0 := InsertSkipDuplicates(table, rows[..n]);
      assert forall r :: r in rows ==> r in rows[..n] || r == rows[n] by {
        assert rows == rows[..n] + [rows[n]];
      }
      if rows[n].studentId in RowStudentIds(t0) then t0
      else
        var t := t0 + [rows[n]];
        assert RowStudentIds(t) == RowStudentIds(t0) + [rows[n].studentId];
        assert forall x :: x in t0 ==> x in t;
        t
  }

  /** Rows whose students all have a row already change nothing. */
  lemma {:induction false} InsertPresent(table: seq<AllocationRow>, rows: seq<AllocationRow>)
    requires forall r :: r in rows ==> r.studentId in RowStudentIds(table)
    ensures InsertSkipDuplicates(table, rows) == table
    decreases |rows|
  {
    if |rows| > 0 {
      var n := |rows| - 1;
      InsertPresent(table, rows[..n]);
    }
  }

  /** Persisting the same batch twice has the effect of persisting it once. */
  lemma InsertIdempotent(table: seq<AllocationRow>, rows: seq<AllocationRow>)
    ensures InsertSkipDuplicates(InsertSkipDuplicates(table, rows), rows) == InsertSkipDuplicates(table, rows)
  {
    InsertPresent(InsertSkipDuplicates(table, rows), rows);
  }

  /** The persistence step of a finalisation: nothing is written for a run
      without allocations; otherwise the rooms are resolved against the room
      table and the rows inserted, or the batch aborts with the error. */
  function Persist(result: AllocationResult, roomTable: seq<RoomRow>, table: seq<AllocationRow>)
    : Result<seq<AllocationRow>, string>
  {
    if |result.allocations| == 0 then Success(table)
    else
      match ResolveRooms(result.allocations, RoomKeyMap(roomTable))
      case Failure(e) => Failure(e)
      case Success(rows) => Success(InsertSkipDuplicates(table, rows))
  }

  /** Persistence fails exactly when some allocation's room is missing from
      the room table; it never touches existing rows, and on success every
      allocated student has a row. */
  lemma PersistOutcome(result: AllocationResult, roomTable: seq<RoomRow>, table: seq<AllocationRow>)
    ensures var m := RoomKeyMap(roomTable);
            Persist(result, roomTable, table).Failure? <==>
              exists i :: 0 <= i < |result.allocations| && !Resolvable(result.allocations[i], m)
    ensures Persist(result, roomTable, table).Success? ==>
              && table <= Persist(result, roomTable, table).value
              && forall a :: a in result.allocations ==>
                   a.studentId in RowStudentIds(Persist(result, roomTable, table).value)
    ensures |result.allocations| == 0 ==> Persist(result, roomTable, table) == Success(table)
  {
    var m := RoomKeyMap(roomTable);
    if |result.allocations| > 0 {
      var r := ResolveRooms(result.allocations, m);
      if r.Success? {
        var t := InsertSkipDuplicates(table, r.value);
        forall a | a in result.allocations
          ensures a.studentId in RowStudentIds(t)
        {
          var i :| 0 <= i < |result.allocations| && result.allocations[i] == a;
          assert r.value[i] in r.value;
        }
      }
    }
  }

  /** The result stored when a finalisation fails. */
  function FailedResult(failMillis: nat, failTime: string, message: string): AllocationResult
  {
    AllocationResult("alloc-fail-" + NatToString(failMillis), failTime, Failed, 0, 0, 0, [message], [], [])
  }

  /** The id a run is given. */
  function AllocationIdFor(startMillis: nat): string
  {
    "alloc-" + NatToString(startMillis)
  }

  // ---------------------------------------------------------------- reports

  function CsvRow(a: AllocationView): string
  {
    "\"" + a.studentName + "\",\"" + a.matricNumber + "\",\"" + a.block + "\",\"" + a.roomNumber + "\""
  }

  function CsvRows(allocations: seq<AllocationView>): (rows: seq<string>)
    ensures |rows| == |allocations|
  {
    seq(|allocations|, i requires 0 <= i < |allocations| => CsvRow(allocations[i]))
  }

  /** The CSV report: the header line, then one quoted row per allocation,
      joined by newlines. */
  function CsvReport(allocations: seq<AllocationView>): string
  {
    CSV_HEADER_LINE + "\n" + Join(CsvRows(allocations), '\n')
  }

  predicate NoNewline(a: AllocationView)
  {
    '\n' !in a.studentName && '\n' !in a.matricNumber && '\n' !in a.block && '\n' !in a.roomNumber
  }

  lemma HeaderHasNoNewline()
    ensures '\n' !in CSV_HEADER_LINE
  {
    assert forall c :: c in CSV_HEADER_LINE ==> c != '\n';
  }

  lemma RowHasNoNewline(a: AllocationView)
    requires NoNewline(a)
    ensures '\n' !in CsvRow(a)
  {
    var q, sep := "\"", "\",\"";
    assert '\n' !in q && '\n' !in sep;
    assert CsvRow(a) == q + a.studentName + sep + a.matricNumber + sep + a.block + sep + a.roomNumber + q;
  }

  /** Reading the report back line by line gives the header and then
      exactly the allocations' rows, in order (a single empty line when
      there are none), as long as no field holds a newline. */
  lemma CsvLines(allocations: seq<AllocationView>)
    requires forall i :: 0 <= i < |allocations| ==> NoNewline(allocations[i])
    ensures Split(CsvReport(allocations), '\n')
            == [CSV_HEADER_LINE] + (if |allocations| == 0 then [""] else CsvRows(allocations))
  {
    var rows := CsvRows(allocations);
    HeaderHasNoNewline();
    SplitPrefix(CSV_HEADER_LINE, '\n', Join(rows, '\n'));
    assert CsvReport(allocations) == CSV_HEADER_LINE + ['\n'] + Join(rows, '\n');
    if |allocations| > 0 {
      forall i | 0 <= i < |rows| ensures '\n' !in rows[i] {
        RowHasNoNewline(allocations[i]);
      }
      SplitJoin(rows, '\n');
    }
  }

  // ---------------------------------------------------------------- the controller

  /** The service's module-level state together with the allocation table
      it writes. */
  class AllocationController {
    var status: AllocationStatus
    var lastResult: Option<AllocationResult>
    var allocationTable: seq<AllocationRow>

    constructor (table: seq<AllocationRow>)
      ensures status == IDLE && lastResult == None && allocationTable == table
    {
      status := IDLE;
      lastResult := None;
      allocationTable := table;
    }

    /** `getAllocationStatus`. */
    method GetAllocationStatus() returns (s: AllocationStatus)
      ensures s == status
    {
      s := status;
    }

    /** `getLastAllocationResult`. */
    method GetLastAllocationResult() returns (r: Option<AllocationResult>)
      ensures r == lastResult
    {
      r := lastResult;
    }

    /** `startAllocationProcess`: single-flight. While a run is in progress
        it refuses and changes nothing; otherwise it marks a run as started.
        The detached finalisation is the separate method below. */
    method StartAllocationProcess(startTime: string) returns (r: Result<string, string>)
      modifies this
      ensures old(status.isRunning) ==> r == Failure(ALREADY_RUNNING) && status == old(status)
      ensures !old(status.isRunning) ==>
                r == Success(STARTED) && status == AllocationStatus(true, 0, INITIALIZING_STEP, Some(startTime))
      ensures lastResult == old(lastResult) && allocationTable == old(allocationTable)
    {
      if status.isRunning {
        return Failure(ALREADY_RUNNING);
      }
      status := AllocationStatus(true, 0, INITIALIZING_STEP, Some(startTime));
      r := Success(STARTED);
    }

    /** The `catch` branch of `runAndFinalizeAllocation`. */
    method RecordFailure(message: string, failMillis: nat, failTime: string)
      modifies this
      ensures lastResult == Some(FailedResult(failMillis, failTime, message))
      ensures status == old(status).(isRunning := false, currentStep := "Failed: " + message)
      ensures allocationTable == old(allocationTable)
    {
      lastResult := Some(FailedResult(failMillis, failTime, message));
      status := status.(isRunning := false, currentStep := "Failed: " + message);
    }

    /** `runAndFinalizeAllocation`: progress 10, run the solver, progress 85,
        persist, then progress 100 and "Completed" with the result stored.
        A failure at either stage stops the run with the progress reached,
        a "Failed: " step and a failed result record; the table is then
        unchanged. The three clock readings are parameters. */
    method RunAndFinalizeAllocation(
      startMillis: nat, solverTime: string, failMillis: nat, failTime: string,
      directory: seq<StudentRecord>, rooms: seq<RoomData>, roomTable: seq<RoomRow>)
      requires DistinctRoomIds(rooms)
      modifies this
      ensures !status.isRunning && status.startTime == old(status.startTime)
      ensures match Solve(AllocationIdFor(startMillis), solverTime, directory, rooms)
              case Failure(message) =>
                && status == old(status).(isRunning := false, progress := 10, currentStep := "Failed: " + message)
                && lastResult == Some(FailedResult(failMillis, failTime, message))
                && allocationTable == old(allocationTable)
              case Success(result) =>
                match Persist(result, roomTable, old(allocationTable))
                case Failure(message) =>
                  && status == old(status).(isRunning := false, progress := 85, currentStep := "Failed: " + message)
                  && lastResult == Some(FailedResult(failMillis, failTime, message))
                  && allocationTable == old(allocationTable)
                case Success(table) =>
                  && status == old(status).(isRunning := false, progress := 100, currentStep := COMPLETED_STEP)
                  && lastResult == Some(result)
                  && allocationTable == table
    {
      status := status.(currentStep := FETCHING_STEP, progress := 10);
      var allocationId := AllocationIdFor(startMillis);
      var result := RunAllocationSolver(allocationId, solverTime, directory, rooms);
      if result.Failure? {
        RecordFailure(result.error, failMillis, failTime);
        return;
      }
      status := status.(currentStep := SAVING_STEP, progress := 85);
      if |result.value.allocations| > 0 {
        var roomMap := RoomKeyMap(roomTable);
        var rows := ResolveRooms(result.value.allocations, roomMap);
        if rows.Failure? {
          RecordFailure(rows.error, failMillis, failTime);
          return;
        }
        allocationTable := InsertSkipDuplicates(allocationTable, rows.value);
      }
      lastResult := Some(result.value);
      status := status.(isRunning := false, progress := 100, currentStep := COMPLETED_STEP);
    }

    /** `generateCSVReport`: only for the stored result with that id. */
    function GenerateCsvReport(id: string): (r: Result<string, string>)
      reads this
      ensures r.Failure? <==> lastResult.None? || lastResult.value.id != id
      ensures r.Failure? ==> r.error == RESULT_NOT_FOUND
      ensures r.Success? ==> r.value == CsvReport(lastResult.value.allocations)
    {
      if lastResult.None? || lastResult.value.id != id then Failure(RESULT_NOT_FOUND)
      else Success(CsvReport(lastResult.value.allocations))
    }

    /** The guard of `generatePDFReport`: the record the report is rendered
        from, only for the stored result with that id. */
    function GeneratePdfReport(id: string): (r: Result<AllocationResult, string>)
      reads this
      ensures r.Failure? <==> lastResult.None? || lastResult.value.id != id
      ensures r.Failure? ==> r.error == RESULT_NOT_FOUND
      ensures r.Success? ==> Some(r.value) == lastResult && r.value.id == id
    {
      if lastResult.None? || lastResult.value.id != id then Failure(RESULT_NOT_FOUND)
      else Success(lastResult.value)
    }
  }
}
