/** The report service: the filters of the combined report, the per-block
    occupancy and the per-day registration trends it aggregates, the
    per-level student count, and the dispatch on the requested file format. */
module Reports {
  import opened Common
  import opened Grouping

  const UNSUPPORTED_FORMAT := "Unsupported format"
  const DRAFT := "draft"
  const SUBMITTED := "submitted"
  const APPROVED := "approved"
  const REJECTED := "rejected"

  // ---------------------------------------------------------------- parseInt

  /** A number as `parseInt` returns it: an integer or NaN. */
  datatype Num = Num(n: int) | NaN

  /** The white space `parseInt` skips before the number. */
  predicate IsSpace(c: char)
  {
    c == ' ' || c == '\t' || c == '\n' || c == '\r' || c == '\U{B}' || c == '\U{C}'
    || c == '\U{A0}' || c == '\U{1680}' || ('\U{2000}' <= c <= '\U{200A}')
    || c == '\U{2028}' || c == '\U{2029}' || c == '\U{202F}' || c == '\U{205F}'
    || c == '\U{3000}' || c == '\U{FEFF}'
  }

  predicate IsDigit(c: char)
  {
    '0' <= c <= '9'
  }

  function TrimStart(s: string): (r: string)
    ensures |r| <= |s|
    ensures |r| == 0 || !IsSpace(r[0])
    decreases |s|
  {
    if |s| > 0 && IsSpace(s[0]) then TrimStart(s[1..]) else s
  }

  /** The length of the run of decimal digits `s` starts with. */
  function DigitRun(s: string): (n: nat)
    ensures n <= |s|
    ensures forall i :: 0 <= i < n ==> IsDigit(s[i])
    ensures n == |s| || !IsDigit(s[n])
    decreases |s|
  {
    if |s| > 0 && IsDigit(s[0]) then 1 + DigitRun(s[1..]) else 0
  }

  function DigitValue(c: char): (v: nat)
    requires IsDigit(c)
    ensures v < 10
  {
    c as int - '0' as int
  }

  /** The value of a string of decimal digits, read left to right. */
  function DigitsValue(d: string): nat
    requires forall i :: 0 <= i < |d| ==> IsDigit(d[i])
    decreases |d|
  {
    if |d| == 0 then 0 else DigitsValue(d[..|d| - 1]) * 10 + DigitValue(d[|d| - 1])
  }

  /** The text after an optional leading sign. */
  function Unsigned(t: string): (u: string)
    ensures |u| <= |t|
  {
    if |t| > 0 && (t[0] == '-' || t[0] == '+') then t[1..] else t
  }

  /** `parseInt(s, 10)`: leading white space is skipped, then an optional
      sign, then the longest run of digits; no digit at all gives NaN. */
  function ParseInt(s: string): (r: Num)
    ensures r.Num? <==> DigitRun(Unsigned(TrimStart(s))) > 0
  {
    var t := TrimStart(s);
    var neg := |t| > 0 && t[0] == '-';
    var u := Unsigned(t);
    var k := DigitRun(u);
    if k == 0 then NaN
    else
      var v: int := DigitsValue(u[..k]);
      Num(if neg then -v else v)
  }

  lemma {:induction false} DigitsOfNat(n: nat)
    ensures forall i :: 0 <= i < |NatToString(n)| ==> IsDigit(NatToString(n)[i])
    ensures DigitsValue(NatToString(n)) == n
    decreases n
  {
    if n >= 10 {
      DigitsOfNat(n / 10);
      var s := NatToString(n);
      assert s[..|s| - 1] == NatToString(n / 10);
    }
  }

  /** A run of digits is read whole. */
  lemma {:induction false} AllDigits(d: string)
    requires forall i :: 0 <= i < |d| ==> IsDigit(d[i])
    ensures DigitRun(d) == |d|
    decreases |d|
  {
    if |d| > 0 {
      AllDigits(d[1..]);
    }
  }

  /** Text that starts with its digits, after an optional minus sign,
      reads as the value of those digits. */
  lemma ParseLeadingDigits(t: string, d: string, neg: bool)
    requires |d| > 0 && forall i :: 0 <= i < |d| ==> IsDigit(d[i])
    requires t == if neg then "-" + d else d
    ensures ParseInt(t) == Num(if neg then -(DigitsValue(d) as int) else DigitsValue(d))
  {
    assert TrimStart(t) == t by {
      assert t[0] == '-' || IsDigit(t[0]);
    }
    assert Unsigned(t) == d by {
      if neg {
        assert t[1..] == d;
      } else {
        assert IsDigit(t[0]);
      }
    }
    assert DigitRun(d) == |d| by {
      AllDigits(d);
    }
    assert d[..|d|] == d;
    assert neg <==> t[0] == '-' by {
      if !neg {
        assert IsDigit(t[0]);
      }
    }
  }

  /** Reading back a printed integer gives the integer. */
  lemma ParseIntToString(n: int)
    ensures ParseInt(IntToString(n)) == Num(n)
  {
    var m: nat := if n < 0 then -n else n;
    DigitsOfNat(m);
    ParseLeadingDigits(IntToString(n), NatToString(m), n < 0);
  }

  // ---------------------------------------------------------------- filters

  /** The query parameters of the combined report. */
  datatype ReportFilters = ReportFilters(
    period: Option<string>, level: Option<string>, block: Option<string>,
    startDate: Option<string>, endDate: Option<string>)

  /** A string parameter that is present and not empty (JavaScript truthiness). */
  predicate Given(p: Option<string>)
  {
    p.Some? && p.value != ""
  }

  /** The preset periods, in days. */
  function PeriodDays(period: string): (d: Option<nat>)
    ensures d.Some? <==> period in {"7d", "30d", "90d", "1y"}
    ensures d.Some? ==> d.value > 0
  {
    if period == "7d" then Some(7)
    else if period == "30d" then Some(30)
    else if period == "90d" then Some(90)
    else if period == "1y" then Some(365)
    else None
  }

  /** An inclusive range of days. */
  datatype DayRange = DayRange(from: int, to: int)

  /** `getDateRange`: dates are day numbers, `today` is the day of the
      request and `parseDay` reads a date parameter. The range ends today
      unless a custom range gives its own end; it has a start only for a
      custom range with a start date or for a preset period. */
  function GetDateRange(filters: ReportFilters, today: int, parseDay: string -> int): (r: (Option<int>, int))
    ensures r.0.Some?
            <==> (filters.period == Some("custom") && Given(filters.startDate))
                 || (filters.period.Some? && PeriodDays(filters.period.value).Some?)
    ensures filters.period == Some("custom") && Given(filters.startDate)
            ==> r.0 == Some(parseDay(filters.startDate.value))
                && r.1 == (if Given(filters.endDate) then parseDay(filters.endDate.value) else today)
    ensures filters.period.Some? && PeriodDays(filters.period.value).Some?
            ==> r.0 == Some(today - PeriodDays(filters.period.value).value) && r.1 == today
    ensures filters.period == Some("all") ==> r == (None, today)
  {
    if filters.period == Some("custom") && Given(filters.startDate) then
      (Some(parseDay(filters.startDate.value)),
       if Given(filters.endDate) then parseDay(filters.endDate.value) else today)
    else if filters.period != Some("all") then
      if Given(filters.period) && PeriodDays(filters.period.value).Some? then
        (Some(today - PeriodDays(filters.period.value).value), today)
      else (None, today)
    else (None, today)
  }

  /** The four `where` objects, flattened: the statuses registrations must
      avoid, the creation and allocation date ranges, the student level and
      the room block. */
  datatype Wheres = Wheres(
    excludedStatuses: seq<string>, createdAt: Option<DayRange>, allocatedAt: Option<DayRange>,
    level: Option<Num>, block: Option<string>)

  /** A level or block parameter filters only when given and not "all". */
  predicate Narrows(p: Option<string>)
  {
    Given(p) && p.value != "all"
  }

  function BuildWheres(filters: ReportFilters, range: (Option<int>, int)): (w: Wheres)
    ensures w.excludedStatuses == [DRAFT]
    ensures w.createdAt.Some? <==> range.0.Some?
    ensures w.createdAt == w.allocatedAt
    ensures w.createdAt.Some? ==> w.createdAt.value == DayRange(range.0.value, range.1)
    ensures w.level.Some? <==> Narrows(filters.level)
    ensures w.level.Some? ==> w.level.value == ParseInt(filters.level.value)
    ensures w.block.Some? <==> Narrows(filters.block)
    ensures w.block.Some? ==> w.block.value == filters.block.value
  {
    var dates := if range.0.Some? then Some(DayRange(range.0.value, range.1)) else None;
    Wheres([DRAFT], dates, dates,
           if Narrows(filters.level) then Some(ParseInt(filters.level.value)) else None,
           if Narrows(filters.block) then Some(filters.block.value) else None)
  }

  predicate InRange(day: int, r: Option<DayRange>)
  {
    r.None? || r.value.from <= day <= r.value.to
  }

  // ---------------------------------------------------------------- tables and queries

  /** A registration: its status, its creation day and that day rendered as
      `yyyy-MM-dd`. */
  datatype Registration = Registration(status: string, createdDay: int, date: string)

  datatype Student = Student(level: int, registration: Option<Registration>)

  /** A room with the days its allocations were made. */
  datatype RoomRecord = RoomRecord(block: string, capacity: int, allocationDays: seq<int>)

  predicate RegistrationMatches(g: Registration, w: Wheres)
  {
    g.status !in w.excludedStatuses && InRange(g.createdDay, w.createdAt)
  }

  /** A student passes the level filter when there is none or it equals the
      student's level; a NaN filter equals no level and is taken to keep
      nobody (what the database does with NaN is outside this model). */
  predicate LevelMatches(level: int, w: Wheres)
  {
    w.level.None? || w.level.value == Num(level)
  }

  predicate StudentMatches(s: Student, w: Wheres)
  {
    LevelMatches(s.level, w) && s.registration.Some? && RegistrationMatches(s.registration.value, w)
  }

  predicate RoomMatches(r: RoomRecord, w: Wheres)
  {
    w.block.None? || r.block == w.block.value
  }

  /** The number of allocation days inside the allocation range. */
  function CountInRange(days: seq<int>, r: Option<DayRange>): (n: nat)
    ensures n <= |days|
    ensures r.None? ==> n == |days|
    decreases |days|
  {
    if |days| == 0 then 0
    else CountInRange(days[..|days| - 1], r) + (if InRange(days[|days| - 1], r) then 1 else 0)
  }

  /** `room.findMany` with the filtered allocation count. */
  function FetchRooms(rooms: seq<RoomRecord>, w: Wheres): (r: seq<RoomCount>)
    ensures |r| <= |rooms|
    ensures forall j :: 0 <= j < |r| ==> w.block.None? || r[j].block == w.block.value
    ensures w.block.None? ==> |r| == |rooms|
    decreases |rooms|
  {
    if |rooms| == 0 then []
    else
      var n := |rooms| - 1;
      var x := rooms[n];
      FetchRooms(rooms[..n], w) + (if RoomMatches(x, w) then [RoomCount(x.block, x.capacity, CountInRange(x.allocationDays, w.allocatedAt))] else [])
  }

  /** The levels of the students the level count groups. */
  function MatchingLevels(students: seq<Student>, w: Wheres): (ls: seq<int>)
    ensures |ls| <= |students|
    decreases |students|
  {
    if |students| == 0 then []
    else
      var n := |students| - 1;
      MatchingLevels(students[..n], w) + (if StudentMatches(students[n], w) then [students[n].level] else [])
  }

  /** The registrations the trend query returns, in table order. */
  function MatchingRegistrations(students: seq<Student>, w: Wheres): (gs: seq<Registration>)
    ensures |gs| <= |students|
    ensures forall j :: 0 <= j < |gs| ==> RegistrationMatches(gs[j], w)
    decreases |students|
  {
    if |students| == 0 then []
    else
      var n := |students| - 1;
      MatchingRegistrations(students[..n], w) + (if StudentMatches(students[n], w) then [students[n].registration.value] else [])
  }

  /** With the period, level and block all set to "all", nothing is
      filtered but draft registrations. */
  lemma AllMeansUnfiltered(filters: ReportFilters, today: int, parseDay: string -> int, s: Student, r: RoomRecord)
    requires filters.period == Some("all") && filters.level == Some("all") && filters.block == Some("all")
    ensures var w := BuildWheres(filters, GetDateRange(filters, today, parseDay));
            && w.createdAt.None? && w.allocatedAt.None?
            && RoomMatches(r, w)
            && (StudentMatches(s, w) <==> s.registration.Some? && s.registration.value.status != DRAFT)
  {
  }

  /** A level shown in the report, sent back as the level filter, keeps
      exactly the students of that level. */
  lemma LevelFilterSelects(filters: ReportFilters, range: (Option<int>, int), level: int, s: Student)
    requires filters.level == Some(IntToString(level))
    ensures LevelMatches(s.level, BuildWheres(filters, range)) <==> s.level == level
  {
    ParseIntToString(level);
    assert IntToString(level) != "all" by {
      var t := IntToString(level);
      if level >= 0 {
        assert IsDigit(t[0]) by { DigitsOfNat(level); }
      }
    }
  }

  // ---------------------------------------------------------------- block occupancy

  /** The accumulator of one block. */
  datatype Occupancy = Occupancy(totalRooms: int, occupiedRooms: int, capacity: int, allocatedCount: int)

  datatype BlockOccupancy = BlockOccupancy(
    block: string, totalRooms: int, occupiedRooms: int, capacity: int, allocatedCount: int, availableRooms: int)

  datatype AllocationSummary = AllocationSummary(block: string, allocatedCount: int, capacity: int)

  /** 1 for a room with at least one (filtered) allocation, else 0. */
  function OccupiedFlags(rooms: seq<RoomCount>): (f: seq<int>)
    ensures |f| == |rooms|
    ensures forall i :: 0 <= i < |f| ==> 0 <= f[i] <= 1
  {
    seq(|rooms|, i requires 0 <= i < |rooms| => if rooms[i].allocations > 0 then 1 else 0)
  }

  /** The four per-block sums of the report. */
  function OccupancyOf(rooms: seq<RoomCount>, block: string): Occupancy
  {
    var b := RoomBlocks(rooms);
    Occupancy(Total(b, Ones(|rooms|), block), Total(b, OccupiedFlags(rooms), block),
              Total(b, RoomCapacities(rooms), block), Total(b, RoomAllocations(rooms), block))
  }

  /** The accumulator and its key order after the loop has seen `i` rooms. */
  ghost predicate Tallied(m: map<string, Occupancy>, order: seq<string>, rooms: seq<RoomCount>, i: nat)
    requires i <= |rooms|
  {
    && order == FirstSeen(RoomBlocks(rooms)[..i])
    && (forall k :: k in m <==> k in order)
    && forall k :: k in m ==> m[k] == OccupancyOf(rooms[..i], k)
  }

  lemma OccupancyOfStep(rooms: seq<RoomCount>, i: nat, k: string)
    requires i < |rooms|
    ensures var o := OccupancyOf(rooms[..i], k);
            var r := rooms[i];
            OccupancyOf(rooms[..i + 1], k)
            == if r.block == k
               then Occupancy(o.totalRooms + 1, o.occupiedRooms + (if r.allocations > 0 then 1 else 0),
                              o.capacity + r.capacity, o.allocatedCount + r.allocations)
               else o
  {
    var p, q := rooms[..i], rooms[..i + 1];
    assert q[..i] == p;
    assert RoomBlocks(q)[..i] == RoomBlocks(p);
    assert Ones(|q|)[..i] == Ones(|p|);
    assert OccupiedFlags(q)[..i] == OccupiedFlags(p);
    assert RoomCapacities(q)[..i] == RoomCapacities(p);
    assert RoomAllocations(q)[..i] == RoomAllocations(p);
    TotalStep(RoomBlocks(q), Ones(|q|), i, k);
    TotalStep(RoomBlocks(q), OccupiedFlags(q), i, k);
    TotalStep(RoomBlocks(q), RoomCapacities(q), i, k);
    TotalStep(RoomBlocks(q), RoomAllocations(q), i, k);
    assert RoomBlocks(q)[..i + 1] == RoomBlocks(q) && Ones(|q|)[..i + 1] == Ones(|q|);
    assert OccupiedFlags(q)[..i + 1] == OccupiedFlags(q);
    assert RoomCapacities(q)[..i + 1] == RoomCapacities(q) && RoomAllocations(q)[..i + 1] == RoomAllocations(q);
  }

  lemma OccupancyOfAbsent(rooms: seq<RoomCount>, k: string)
    requires k !in RoomBlocks(rooms)
    ensures OccupancyOf(rooms, k) == Occupancy(0, 0, 0, 0)
  {
    var b := RoomBlocks(rooms);
    TotalAbsent(b, Ones(|rooms|), k);
    TotalAbsent(b, OccupiedFlags(rooms), k);
    TotalAbsent(b, RoomCapacities(rooms), k);
    TotalAbsent(b, RoomAllocations(rooms), k);
  }

  /** One room counted into its block's entry. */
  function CountRoom(o: Occupancy, room: RoomCount): Occupancy
  {
    Occupancy(o.totalRooms + 1, o.occupiedRooms + (if room.allocations > 0 then 1 else 0),
              o.capacity + room.capacity, o.allocatedCount + room.allocations)
  }

  lemma TallyValues(m: map<string, Occupancy>, rooms: seq<RoomCount>, i: nat)
    requires i < |rooms|
    requires forall k :: k in m ==> m[k] == OccupancyOf(rooms[..i], k)
    requires rooms[i].block !in m ==> rooms[i].block !in RoomBlocks(rooms[..i])
    ensures var b := rooms[i].block;
            var m' := m[b := CountRoom(if b in m then m[b] else Occupancy(0, 0, 0, 0), rooms[i])];
            forall k :: k in m' ==> m'[k] == OccupancyOf(rooms[..i + 1], k)
  {
    var b := rooms[i].block;
    var m' := m[b := CountRoom(if b in m then m[b] else Occupancy(0, 0, 0, 0), rooms[i])];
    forall k | k in m' ensures m'[k] == OccupancyOf(rooms[..i + 1], k) {
      OccupancyOfStep(rooms, i, k);
      if k == b && b !in m {
        OccupancyOfAbsent(rooms[..i], k);
      }
    }
  }

  lemma TallyStep(m: map<string, Occupancy>, order: seq<string>, rooms: seq<RoomCount>, i: nat,
                  m': map<string, Occupancy>, order': seq<string>)
    requires i < |rooms| && Tallied(m, order, rooms, i)
    requires var b := rooms[i].block;
             && m' == m[b := CountRoom(if b in m then m[b] else Occupancy(0, 0, 0, 0), rooms[i])]
             && order' == if b in m then order else order + [b]
    ensures Tallied(m', order', rooms, i + 1)
  {
    var b := rooms[i].block;
    assert RoomBlocks(rooms[..i]) == RoomBlocks(rooms)[..i];
    FirstSeenStep(RoomBlocks(rooms), i);
    TallyValues(m, rooms, i);
  }

  /** The body of the loop over the rooms: a new block gets a zeroed entry
      (and its place in the key order), then the room is counted in. */
  method TallyRoom(m: map<string, Occupancy>, order: seq<string>, room: RoomCount,
                   ghost rooms: seq<RoomCount>, ghost i: nat)
    returns (m': map<string, Occupancy>, order': seq<string>)
    requires i < |rooms| && rooms[i] == room && Tallied(m, order, rooms, i)
    ensures Tallied(m', order', rooms, i + 1)
  {
    var b := room.block;
    var start := if b in m then m[b] else Occupancy(0, 0, 0, 0);
    var o := start.(totalRooms := start.totalRooms + 1, capacity := start.capacity + room.capacity);
    if room.allocations > 0 {
      o := o.(occupiedRooms := o.occupiedRooms + 1);
    }
    o := o.(allocatedCount := o.allocatedCount + room.allocations);
    assert o == CountRoom(start, room);
    m' := m[b := o];
    order' := if b in m then order else order + [b];
    TallyStep(m, order, rooms, i, m', order');
  }

  function OccupancyEntry(block: string, o: Occupancy): BlockOccupancy
  {
    BlockOccupancy(block, o.totalRooms, o.occupiedRooms, o.capacity, o.allocatedCount, o.totalRooms - o.occupiedRooms)
  }

  /** The occupancy entries of the given blocks, in the given order. */
  function OccupancyEntries(blocks: seq<string>, rooms: seq<RoomCount>): (r: seq<BlockOccupancy>)
    ensures |r| == |blocks|
    ensures forall j :: 0 <= j < |blocks| ==> r[j] == OccupancyEntry(blocks[j], OccupancyOf(rooms, blocks[j]))
    decreases |blocks|
  {
    if |blocks| == 0 then [] else [OccupancyEntry(blocks[0], OccupancyOf(rooms, blocks[0]))] + OccupancyEntries(blocks[1..], rooms)
  }

  /** `roomOccupancy`: one entry per block, in order of first appearance. */
  function RoomOccupancy(rooms: seq<RoomCount>): seq<BlockOccupancy>
  {
    OccupancyEntries(FirstSeen(RoomBlocks(rooms)), rooms)
  }

  /** The occupancy loop and the two listings made from its accumulator:
      `roomOccupancy`, and `allocationSummary` with the same blocks, in the
      same order, with the same allocation counts and capacities. */
  method BlockOccupancyReport(rooms: seq<RoomCount>)
    returns (occupancy: seq<BlockOccupancy>, summary: seq<AllocationSummary>)
    ensures occupancy == RoomOccupancy(rooms)
    ensures |summary| == |occupancy|
    ensures forall j :: 0 <= j < |summary| ==>
              summary[j] == AllocationSummary(occupancy[j].block, occupancy[j].allocatedCount, occupancy[j].capacity)
  {
    var m: map<string, Occupancy> := map[];
    var order: seq<string> := [];
    var i := 0;
    while i < |rooms|
      invariant 0 <= i <= |rooms|
      invariant Tallied(m, order, rooms, i)
    {
      m, order := TallyRoom(m, order, rooms[i], rooms, i);
      i := i + 1;
    }
    assert rooms[..|rooms|] == rooms && RoomBlocks(rooms)[..|rooms|] == RoomBlocks(rooms);
    occupancy := seq(|order|, j requires 0 <= j < |order| && order[j] in m => OccupancyEntry(order[j], m[order[j]]));
    summary := seq(|order|, j requires 0 <= j < |order| && order[j] in m => AllocationSummary(order[j], m[order[j]].allocatedCount, m[order[j]].capacity));
  }

  function SumTotalRooms(s: seq<BlockOccupancy>): int
    decreases |s|
  {
    if |s| == 0 then 0 else s[0].totalRooms + SumTotalRooms(s[1..])
  }

  function SumCapacity(s: seq<BlockOccupancy>): int
    decreases |s|
  {
    if |s| == 0 then 0 else s[0].capacity + SumCapacity(s[1..])
  }

  function SumAllocated(s: seq<BlockOccupancy>): int
    decreases |s|
  {
    if |s| == 0 then 0 else s[0].allocatedCount + SumAllocated(s[1..])
  }

  lemma {:induction false} OccupancySums(blocks: seq<string>, rooms: seq<RoomCount>)
    ensures var e := OccupancyEntries(blocks, rooms);
            var b := RoomBlocks(rooms);
            && SumTotalRooms(e) == SumOver(blocks, b, Ones(|rooms|))
            && SumCapacity(e) == SumOver(blocks, b, RoomCapacities(rooms))
            && SumAllocated(e) == SumOver(blocks, b, RoomAllocations(rooms))
    decreases |blocks|
  {
    if |blocks| > 0 {
      OccupancySums(blocks[1..], rooms);
      assert OccupancyEntries(blocks, rooms)[1..] == OccupancyEntries(blocks[1..], rooms);
    }
  }

  /** Every room is counted once, in its own block: the room counts add up
      to the number of rooms, and the capacities and allocations to theirs. */
  lemma OccupancyAddsUp(rooms: seq<RoomCount>)
    ensures SumTotalRooms(RoomOccupancy(rooms)) == |rooms|
    ensures SumCapacity(RoomOccupancy(rooms)) == Sum(RoomCapacities(rooms))
    ensures SumAllocated(RoomOccupancy(rooms)) == Sum(RoomAllocations(rooms))
  {
    var b := RoomBlocks(rooms);
    OccupancySums(FirstSeen(b), rooms);
    GroupTotals(b, Ones(|rooms|));
    GroupTotals(b, RoomCapacities(rooms));
    GroupTotals(b, RoomAllocations(rooms));
    SumOnes(|rooms|);
  }

  /** One entry per block of the rooms, each block once; in each entry
      0 <= occupiedRooms <= totalRooms, so no available count is negative. */
  lemma OccupancyBounds(rooms: seq<RoomCount>)
    ensures var e := RoomOccupancy(rooms);
            && (forall k :: k in RoomBlocks(rooms) <==> exists j :: 0 <= j < |e| && e[j].block == k)
            && (forall i, j :: 0 <= i < j < |e| ==> e[i].block != e[j].block)
            && forall j :: 0 <= j < |e| ==>
                 && 0 <= e[j].occupiedRooms <= e[j].totalRooms
                 && e[j].availableRooms == e[j].totalRooms - e[j].occupiedRooms >= 0
  {
    var b := RoomBlocks(rooms);
    var names := FirstSeen(b);
    var e := RoomOccupancy(rooms);
    forall j | 0 <= j < |e|
      ensures 0 <= e[j].occupiedRooms <= e[j].totalRooms
    {
      TotalNonNegative(b, OccupiedFlags(rooms), names[j]);
      TotalBounded(b, OccupiedFlags(rooms), Ones(|rooms|), names[j]);
    }
    forall k ensures k in b <==> exists j :: 0 <= j < |e| && e[j].block == k {
      if k in b {
        var j :| 0 <= j < |names| && names[j] == k;
        assert e[j].block == k;
      }
    }
  }

  // ---------------------------------------------------------------- registration trends

  /** The counts of one day: `pending` counts the status "submitted" only. */
  datatype Trend = Trend(date: string, pending: int, approved: int, rejected: int, total: int)

  function Dates(regs: seq<Registration>): (d: seq<string>)
    ensures |d| == |regs|
  {
    seq(|regs|, i requires 0 <= i < |regs| => regs[i].date)
  }

  /** 1 for a registration with exactly this status, else 0. */
  function StatusFlags(regs: seq<Registration>, status: string): (f: seq<int>)
    ensures |f| == |regs|
  {
    seq(|regs|, i requires 0 <= i < |regs| => if regs[i].status == status then 1 else 0)
  }

  function TrendOf(regs: seq<Registration>, date: string): Trend
  {
    var d := Dates(regs);
    Trend(date, Total(d, StatusFlags(regs, SUBMITTED), date), Total(d, StatusFlags(regs, APPROVED), date),
          Total(d, StatusFlags(regs, REJECTED), date), Total(d, Ones(|regs|), date))
  }

  ghost predicate Tracked(m: map<string, Trend>, order: seq<string>, regs: seq<Registration>, i: nat)
    requires i <= |regs|
  {
    && order == FirstSeen(Dates(regs)[..i])
    && (forall k :: k in m <==> k in order)
    && forall k :: k in m ==> m[k] == TrendOf(regs[..i], k)
  }

  /** One registration counted into its day's entry. */
  function CountRegistration(t: Trend, g: Registration): Trend
  {
    Trend(t.date, t.pending + (if g.status == SUBMITTED then 1 else 0),
          t.approved + (if g.status == APPROVED then 1 else 0),
          t.rejected + (if g.status == REJECTED then 1 else 0), t.total + 1)
  }

  lemma TrendOfStep(regs: seq<Registration>, i: nat, k: string)
    requires i < |regs|
    ensures TrendOf(regs[..i + 1], k)
            == if regs[i].date == k then CountRegistration(TrendOf(regs[..i], k), regs[i]) else TrendOf(regs[..i], k)
  {
    var p, q := regs[..i], regs[..i + 1];
    assert q[..i] == p;
    assert Dates(q)[..i] == Dates(p);
    assert Ones(|q|)[..i] == Ones(|p|);
    assert StatusFlags(q, SUBMITTED)[..i] == StatusFlags(p, SUBMITTED);
    assert StatusFlags(q, APPROVED)[..i] == StatusFlags(p, APPROVED);
    assert StatusFlags(q, REJECTED)[..i] == StatusFlags(p, REJECTED);
    TotalStep(Dates(q), Ones(|q|), i, k);
    TotalStep(Dates(q), StatusFlags(q, SUBMITTED), i, k);
    TotalStep(Dates(q), StatusFlags(q, APPROVED), i, k);
    TotalStep(Dates(q), StatusFlags(q, REJECTED), i, k);
    assert Dates(q)[..i + 1] == Dates(q) && Ones(|q|)[..i + 1] == Ones(|q|);
    assert StatusFlags(q, SUBMITTED)[..i + 1] == StatusFlags(q, SUBMITTED);
    assert StatusFlags(q, APPROVED)[..i + 1] == StatusFlags(q, APPROVED);
    assert StatusFlags(q, REJECTED)[..i + 1] == StatusFlags(q, REJECTED);
  }

  lemma TrendOfAbsent(regs: seq<Registration>, k: string)
    requires k !in Dates(regs)
    ensures TrendOf(regs, k) == Trend(k, 0, 0, 0, 0)
  {
    var d := Dates(regs);
    TotalAbsent(d, Ones(|regs|), k);
    TotalAbsent(d, StatusFlags(regs, SUBMITTED), k);
    TotalAbsent(d, StatusFlags(regs, APPROVED), k);
    TotalAbsent(d, StatusFlags(regs, REJECTED), k);
  }

  lemma TrackValues(m: map<string, Trend>, regs: seq<Registration>, i: nat)
    requires i < |regs|
    requires forall k :: k in m ==> m[k] == TrendOf(regs[..i], k)
    requires regs[i].date !in m ==> regs[i].date !in Dates(regs[..i])
    ensures var d := regs[i].date;
            var m' := m[d := CountRegistration(if d in m then m[d] else Trend(d, 0, 0, 0, 0), regs[i])];
            forall k :: k in m' ==> m'[k] == TrendOf(regs[..i + 1], k)
  {
    var d := regs[i].date;
    var m' := m[d := CountRegistration(if d in m then m[d] else Trend(d, 0, 0, 0, 0), regs[i])];
    forall k | k in m' ensures m'[k] == TrendOf(regs[..i + 1], k) {
      TrendOfStep(regs, i, k);
      if k == d && d !in m {
        TrendOfAbsent(regs[..i], k);
      }
    }
  }

  lemma TrackStep(m: map<string, Trend>, order: seq<string>, regs: seq<Registration>, i: nat,
                  m': map<string, Trend>, order': seq<string>)
    requires i < |regs| && Tracked(m, order, regs, i)
    requires var d := regs[i].date;
             && m' == m[d := CountRegistration(if d in m then m[d] else Trend(d, 0, 0, 0, 0), regs[i])]
             && order' == if d in m then order else order + [d]
    ensures Tracked(m', order', regs, i + 1)
  {
    assert Dates(regs[..i]) == Dates(regs)[..i];
    FirstSeenStep(Dates(regs), i);
    TrackValues(m, regs, i);
  }

  /** The `forEach` callback over the registrations: a new day gets a zeroed
      entry, then the total and the counter of an exactly matching status
      grow by one. */
  method TrackRegistration(m: map<string, Trend>, order: seq<string>, g: Registration,
                           ghost regs: seq<Registration>, ghost i: nat)
    returns (m': map<string, Trend>, order': seq<string>)
    requires i < |regs| && regs[i] == g && Tracked(m, order, regs, i)
    ensures Tracked(m', order', regs, i + 1)
  {
    var d := g.date;
    var t := if d in m then m[d] else Trend(d, 0, 0, 0, 0);
    t := t.(total := t.total + 1);
    if g.status == SUBMITTED {
      t := t.(pending := t.pending + 1);
    }
    if g.status == APPROVED {
      t := t.(approved := t.approved + 1);
    }
    if g.status == REJECTED {
      t := t.(rejected := t.rejected + 1);
    }
    m' := m[d := t];
    order' := if d in m then order else order + [d];
    TrackStep(m, order, regs, i, m', order');
  }

  /** The trends of the given days, in the given order. */
  function TrendEntries(dates: seq<string>, regs: seq<Registration>): (r: seq<Trend>)
    ensures |r| == |dates|
    ensures forall j :: 0 <= j < |dates| ==> r[j] == TrendOf(regs, dates[j])
    decreases |dates|
  {
    if |dates| == 0 then [] else [TrendOf(regs, dates[0])] + TrendEntries(dates[1..], regs)
  }

  /** `registrationTrends`: one entry per day, in order of first appearance. */
  function RegistrationTrends(regs: seq<Registration>): seq<Trend>
  {
    TrendEntries(FirstSeen(Dates(regs)), regs)
  }

  method RegistrationTrendsReport(regs: seq<Registration>) returns (trends: seq<Trend>)
    ensures trends == RegistrationTrends(regs)
  {
    var m: map<string, Trend> := map[];
    var order: seq<string> := [];
    var i := 0;
    while i < |regs|
      invariant 0 <= i <= |regs|
      invariant Tracked(m, order, regs, i)
    {
      m, order := TrackRegistration(m, order, regs[i], regs, i);
      i := i + 1;
    }
    assert regs[..|regs|] == regs && Dates(regs)[..|regs|] == Dates(regs);
    trends := seq(|order|, j requires 0 <= j < |order| && order[j] in m => m[order[j]]);
  }

  function SumTotals(s: seq<Trend>): int
    decreases |s|
  {
    if |s| == 0 then 0 else s[0].total + SumTotals(s[1..])
  }

  lemma {:induction false} TrendSums(dates: seq<string>, regs: seq<Registration>)
    ensures SumTotals(TrendEntries(dates, regs)) == SumOver(dates, Dates(regs), Ones(|regs|))
    decreases |dates|
  {
    if |dates| > 0 {
      TrendSums(dates[1..], regs);
      assert TrendEntries(dates, regs)[1..] == TrendEntries(dates[1..], regs);
    }
  }

  /** The per-status counters of a day never exceed its total. */
  lemma StatusCountsBounded(regs: seq<Registration>, date: string)
    ensures var t := TrendOf(regs, date);
            && t.pending >= 0 && t.approved >= 0 && t.rejected >= 0
            && t.pending + t.approved + t.rejected <= t.total
  {
    var d := Dates(regs);
    var p, a, r := StatusFlags(regs, SUBMITTED), StatusFlags(regs, APPROVED), StatusFlags(regs, REJECTED);
    var pa := seq(|regs|, i requires 0 <= i < |regs| => p[i] + a[i]);
    var par := seq(|regs|, i requires 0 <= i < |regs| => pa[i] + r[i]);
    TotalNonNegative(d, p, date);
    TotalNonNegative(d, a, date);
    TotalNonNegative(d, r, date);
    TotalAdd(d, p, a, pa, date);
    TotalAdd(d, pa, r, par, date);
    TotalBounded(d, par, Ones(|regs|), date);
  }

  /** One entry per day of the registrations, each day once; every
      registration is counted once in its day's total; the status counters
      are bounded by the total. */
  lemma TrendProperties(regs: seq<Registration>)
    ensures var t := RegistrationTrends(regs);
            && (forall k :: k in Dates(regs) <==> exists j :: 0 <= j < |t| && t[j].date == k)
            && (forall i, j :: 0 <= i < j < |t| ==> t[i].date != t[j].date)
            && (forall j :: 0 <= j < |t| ==> t[j].pending + t[j].approved + t[j].rejected <= t[j].total)
            && SumTotals(t) == |regs|
  {
    var d := Dates(regs);
    var names := FirstSeen(d);
    var t := RegistrationTrends(regs);
    forall j | 0 <= j < |t| ensures t[j].pending + t[j].approved + t[j].rejected <= t[j].total {
      StatusCountsBounded(regs, names[j]);
    }
    forall k ensures k in d <==> exists j :: 0 <= j < |t| && t[j].date == k {
      if k in d {
        var j :| 0 <= j < |names| && names[j] == k;
        assert t[j].date == k;
      }
    }
    TrendSums(names, regs);
    GroupTotals(d, Ones(|regs|));
    SumOnes(|regs|);
  }

  // ---------------------------------------------------------------- students by level

  datatype LevelCount = LevelCount(level: int, count: int)

  /** A level of the distribution: the level as text, and its count. */
  datatype LevelShare = LevelShare(level: string, count: int)

  predicate Ascending(s: seq<int>)
  {
    forall i, j :: 0 <= i < j < |s| ==> s[i] < s[j]
  }

  function InsertLevel(x: int, s: seq<int>): (r: seq<int>)
    ensures multiset(r) == multiset(s) + multiset{x}
    decreases |s|
  {
    if |s| == 0 || x < s[0] then [x] + s
    else
      assert s == [s[0]] + s[1..];
      [s[0]] + InsertLevel(x, s[1..])
  }

  /** The ordering of the level groups, as a function. */
  function SortLevels(s: seq<int>): (r: seq<int>)
    ensures multiset(r) == multiset(s)
    decreases |s|
  {
    if |s| == 0 then []
    else
      assert s == [s[0]] + s[1..];
      InsertLevel(s[0], SortLevels(s[1..]))
  }

  predicate Above(x: int, s: seq<int>)
  {
    forall j :: 0 <= j < |s| ==> x < s[j]
  }

  lemma {:induction false} InsertLevelAbove(y: int, x: int, s: seq<int>)
    requires Above(y, s) && y < x
    ensures Above(y, InsertLevel(x, s))
    decreases |s|
  {
    if |s| > 0 && x >= s[0] {
      InsertLevelAbove(y, x, s[1..]);
      var rest := InsertLevel(x, s[1..]);
      assert forall j :: 0 <= j < |rest| ==> ([s[0]] + rest)[j + 1] == rest[j];
    }
  }

  lemma ConsAscending(x: int, s: seq<int>)
    requires Ascending(s) && Above(x, s)
    ensures Ascending([x] + s)
  {
    var r := [x] + s;
    forall i, j | 0 <= i < j < |r| ensures r[i] < r[j] {
      if i > 0 {
        assert r[i] == s[i - 1];
      }
      assert r[j] == s[j - 1];
    }
  }

  lemma {:induction false} InsertLevelAscending(x: int, s: seq<int>)
    requires Ascending(s) && x !in s
    ensures Ascending(InsertLevel(x, s))
    decreases |s|
  {
    if |s| > 0 && x >= s[0] {
      assert x != s[0] && s == [s[0]] + s[1..];
      assert Ascending(s[1..]) && Above(s[0], s[1..]);
      InsertLevelAscending(x, s[1..]);
      InsertLevelAbove(s[0], x, s[1..]);
      ConsAscending(s[0], InsertLevel(x, s[1..]));
    } else if |s| > 0 {
      assert Above(x, s) by {
        forall j | 0 <= j < |s| ensures x < s[j] {
          if j > 0 {
            assert s[0] < s[j];
          }
        }
      }
      ConsAscending(x, s);
    } else {
      ConsAscending(x, s);
    }
  }

  lemma {:induction false} SortLevelsAscending(s: seq<int>)
    requires Unique(s)
    ensures Ascending(SortLevels(s))
    decreases |s|
  {
    if |s| > 0 {
      assert Unique(s[1..]);
      SortLevelsAscending(s[1..]);
      var r := SortLevels(s[1..]);
      assert s[0] !in r by {
        assert multiset(r) == multiset(s[1..]);
        assert forall j :: 0 <= j < |s[1..]| ==> s[1..][j] == s[j + 1] != s[0];
        assert s[0] !in s[1..];
        assert s[0] !in multiset(s[1..]);
        assert s[0] !in multiset(r);
      }
      InsertLevelAscending(s[0], r);
    }
  }

  /** `student.groupBy` on the level, ordered by level: one row per level,
      ascending, with the number of students at that level. */
  function LevelCounts(levels: seq<int>): (r: seq<LevelCount>)
  {
    var keys := SortLevels(FirstSeen(levels));
    seq(|keys|, j requires 0 <= j < |keys| => LevelCount(keys[j], Total(levels, Ones(|levels|), keys[j])))
  }

  /** `totalStudents`: the counts of the level rows added up. */
  function TotalStudents(rows: seq<LevelCount>): int
    decreases |rows|
  {
    if |rows| == 0 then 0 else rows[0].count + TotalStudents(rows[1..])
  }

  function LevelDistribution(rows: seq<LevelCount>): (r: seq<LevelShare>)
    ensures |r| == |rows|
  {
    seq(|rows|, j requires 0 <= j < |rows| => LevelShare(IntToString(rows[j].level), rows[j].count))
  }

  lemma {:induction false} TotalStudentsOver(keys: seq<int>, levels: seq<int>, rows: seq<LevelCount>)
    requires |rows| == |keys|
    requires forall j :: 0 <= j < |rows| ==> rows[j].count == Total(levels, Ones(|levels|), keys[j])
    ensures TotalStudents(rows) == SumOver(keys, levels, Ones(|levels|))
    decreases |keys|
  {
    if |keys| > 0 {
      TotalStudentsOver(keys[1..], levels, rows[1..]);
    }
  }

  /** The group keys: the distinct levels, ascending. */
  lemma LevelKeys(levels: seq<int>)
    ensures var keys := SortLevels(FirstSeen(levels));
            && Ascending(keys) && Unique(keys)
            && forall l :: l in keys <==> l in levels
  {
    var distinct := FirstSeen(levels);
    var keys := SortLevels(distinct);
    SortLevelsAscending(distinct);
    forall l ensures l in keys <==> l in levels {
      calc {
        l in keys;
        l in multiset(keys);
        l in multiset(distinct);
        l in distinct;
      }
    }
  }

  /** The level rows are strictly ascending, every grouped student's level
      has a row, and the counts add up to the number of students grouped. */
  lemma LevelCountsProperties(levels: seq<int>)
    ensures var r := LevelCounts(levels);
            && (forall i, j :: 0 <= i < j < |r| ==> r[i].level < r[j].level)
            && (forall l :: l in levels <==> exists j :: 0 <= j < |r| && r[j].level == l)
            && TotalStudents(r) == |levels|
  {
    var keys := SortLevels(FirstSeen(levels));
    var r := LevelCounts(levels);
    LevelKeys(levels);
    forall l ensures l in levels <==> exists j :: 0 <= j < |r| && r[j].level == l {
      if l in levels {
        var j :| 0 <= j < |keys| && keys[j] == l;
        assert r[j].level == l;
      }
    }
    forall i | 0 <= i < |levels| ensures levels[i] in keys {
      assert levels[i] in levels;
    }
    CoveringTotals(keys, levels, Ones(|levels|));
    TotalStudentsOver(keys, levels, r);
    SumOnes(|levels|);
  }

  /** A level shown in the distribution reads back, with `parseInt`, as the
      level of its row. */
  lemma LevelShareReadsBack(rows: seq<LevelCount>, j: nat)
    requires j < |rows|
    ensures ParseInt(LevelDistribution(rows)[j].level) == Num(rows[j].level)
  {
    ParseIntToString(rows[j].level);
  }

  // ---------------------------------------------------------------- the combined report

  datatype CombinedReport = CombinedReport(
    roomOccupancy: seq<BlockOccupancy>, registrationTrends: seq<Trend>,
    levelDistribution: seq<LevelShare>, allocationSummary: seq<AllocationSummary>)

  /** `getCombinedReport`: the filter objects are built up field by field,
      the three queries run on the tables, and the aggregates are computed
      from their rows. */
  method GetCombinedReport(filters: ReportFilters, today: int, parseDay: string -> int,
                           rooms: seq<RoomRecord>, students: seq<Student>)
    returns (report: CombinedReport)
    ensures var w := BuildWheres(filters, GetDateRange(filters, today, parseDay));
            && report.roomOccupancy == RoomOccupancy(FetchRooms(rooms, w))
            && report.registrationTrends == RegistrationTrends(MatchingRegistrations(students, w))
            && report.levelDistribution == LevelDistribution(LevelCounts(MatchingLevels(students, w)))
            && |report.allocationSummary| == |report.roomOccupancy|
            && forall j :: 0 <= j < |report.allocationSummary| ==>
                 report.allocationSummary[j]
                 == AllocationSummary(report.roomOccupancy[j].block, report.roomOccupancy[j].allocatedCount,
                                      report.roomOccupancy[j].capacity)
  {
    var range := GetDateRange(filters, today, parseDay);
    var w := Wheres([DRAFT], None, None, None, None);
    if range.0.Some? {
      w := w.(createdAt := Some(DayRange(range.0.value, range.1)));
      w := w.(allocatedAt := Some(DayRange(range.0.value, range.1)));
    }
    if Narrows(filters.level) {
      w := w.(level := Some(ParseInt(filters.level.value)));
    }
    if Narrows(filters.block) {
      w := w.(block := Some(filters.block.value));
    }
    assert w == BuildWheres(filters, range);
    var occupancy, summary := BlockOccupancyReport(FetchRooms(rooms, w));
    var levelRows := LevelCounts(MatchingLevels(students, w));
    var trends := RegistrationTrendsReport(MatchingRegistrations(students, w));
    report := CombinedReport(occupancy, trends, LevelDistribution(levelRows), summary);
  }

  // ---------------------------------------------------------------- report files

  /** The file body: the CSV of the occupancy rows, or the PDF of the
      occupancy and level lines. */
  datatype ReportContent = CsvOf(rows: seq<BlockOccupancy>) | PdfOf(blocks: seq<BlockOccupancy>, levels: seq<LevelShare>)

  datatype ReportFile = ReportFile(content: ReportContent, contentType: string)

  /** `generateReportFile`: CSV and PDF are the only formats; anything else
      is refused. */
  function GenerateReportFile(format: string, data: CombinedReport): (r: Result<ReportFile, string>)
    ensures r.Success? <==> format == "csv" || format == "pdf"
    ensures r.Failure? ==> r.error == UNSUPPORTED_FORMAT
    ensures format == "csv" ==> r == Success(ReportFile(CsvOf(data.roomOccupancy), "text/csv"))
    ensures format == "pdf"
            ==> r == Success(ReportFile(PdfOf(data.roomOccupancy, data.levelDistribution), "application/pdf"))
  {
    if format == "csv" then Success(ReportFile(CsvOf(data.roomOccupancy), "text/csv"))
    else if format == "pdf" then Success(ReportFile(PdfOf(data.roomOccupancy, data.levelDistribution), "application/pdf"))
    else Failure(UNSUPPORTED_FORMAT)
  }
}
