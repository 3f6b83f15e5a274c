/** Shared vocabulary: optional values, success-or-error results, and the
    small string helpers the services use (decimal rendering, split and join). */
module Common {

  /** A value that may be absent (`null`/`undefined` in the services). */
  datatype Option<T> = None | Some(value: T)

  /** The outcome of an operation that may throw: the thrown message is the error. */
  datatype Result<T, E> = Success(value: T) | Failure(error: E)

  /** The message the database layer raises when the row to update is missing. */
  const RECORD_TO_UPDATE_NOT_FOUND := "Record to update not found."

  /** A row of the allocation table; `studentId` is unique in the table. */
  datatype AllocationRow = AllocationRow(studentId: int, roomId: int)

  /** A room with the number of allocation rows that point at it, as the
      counting queries return it. */
  datatype RoomCount = RoomCount(block: string, capacity: int, allocations: nat)

  /** The block of each room, in order. */
  function RoomBlocks(rooms: seq<RoomCount>): (b: seq<string>)
    ensures |b| == |rooms|
  {
    seq(|rooms|, i requires 0 <= i < |rooms| => rooms[i].block)
  }

  /** The capacity of each room, in order. */
  function RoomCapacities(rooms: seq<RoomCount>): (c: seq<int>)
    ensures |c| == |rooms|
  {
    seq(|rooms|, i requires 0 <= i < |rooms| => rooms[i].capacity)
  }

  /** The allocation count of each room, in order. */
  function RoomAllocations(rooms: seq<RoomCount>): (c: seq<int>)
    ensures |c| == |rooms|
  {
    seq(|rooms|, i requires 0 <= i < |rooms| => rooms[i].allocations as int)
  }

  function DigitChar(d: nat): (c: char)
    requires d < 10
    ensures '0' <= c <= '9'
  {
    "0123456789"[d]
  }

  /** Decimal rendering of a natural number, as a template literal prints it. */
  function NatToString(n: nat): (s: string)
    ensures |s| > 0
    ensures forall i :: 0 <= i < |s| ==> '0' <= s[i] <= '9'
    decreases n
  {
    if n < 10 then [DigitChar(n)] else NatToString(n / 10) + [DigitChar(n % 10)]
  }

  /** Decimal rendering of an integer, with a leading '-' when negative. */
  function IntToString(n: int): (s: string)
    ensures |s| > 0
    ensures (n < 0) <==> s[0] == '-'
  {
    if n < 0 then "-" + NatToString(-n) else NatToString(n)
  }

  /** `s.split(sep)`: the maximal separator-free pieces, always at least one. */
  function Split(s: string, sep: char): (parts: seq<string>)
    ensures |parts| > 0
    ensures forall i, j :: 0 <= i < |parts| && 0 <= j < |parts[i]| ==> parts[i][j] != sep
    decreases |s|
  {
    if |s| == 0 then [""]
    else
      var rest := Split(s[1..], sep);
      if s[0] == sep then [""] + rest
      else [[s[0]] + rest[0]] + rest[1..]
  }

  /** `parts.join(sep)` for a one-character separator. */
  function Join(parts: seq<string>, sep: char): string
    decreases |parts|
  {
    if |parts| == 0 then ""
    else if |parts| == 1 then parts[0]
    else parts[0] + [sep] + Join(parts[1..], sep)
  }

  /** Splitting and re-joining on the same separator gives back the string. */
  lemma {:induction false} JoinSplit(s: string, sep: char)
    ensures Join(Split(s, sep), sep) == s
    decreases |s|
  {
    if |s| > 0 {
      JoinSplit(s[1..], sep);
      var rest := Split(s[1..], sep);
      if s[0] == sep {
        assert Split(s, sep) == [""] + rest;
        calc {
          Join([""] + rest, sep);
          { assert ([""] + rest)[1..] == rest; }
          "" + [sep] + Join(rest, sep);
          [s[0]] + s[1..];
        }
      } else {
        var parts := [[s[0]] + rest[0]] + rest[1..];
        assert Split(s, sep) == parts;
        if |rest| == 1 {
          assert Join(rest, sep) == rest[0];
        } else {
          assert parts[1..] == rest[1..];
          assert Join(rest, sep) == rest[0] + [sep] + Join(rest[1..], sep);
        }
      }
    }
  }

  /** A piece free of the separator splits into itself. */
  lemma {:induction false} SplitNoSeparator(h: string, sep: char)
    requires sep !in h
    ensures Split(h, sep) == [h]
    decreases |h|
  {
    if |h| > 0 {
      assert sep !in h[1..];
      SplitNoSeparator(h[1..], sep);
      assert [h[0]] + h[1..] == h;
    }
  }

  /** A separator-free piece followed by the separator splits off first. */
  lemma {:induction false} SplitPrefix(h: string, sep: char, rest: string)
    requires sep !in h
    ensures Split(h + [sep] + rest, sep) == [h] + Split(rest, sep)
    decreases |h|
  {
    var s := h + [sep] + rest;
    if |h| == 0 {
      assert s == [sep] + rest;
      assert s[1..] == rest;
    } else {
      assert s[1..] == h[1..] + [sep] + rest;
      assert sep !in h[1..];
      SplitPrefix(h[1..], sep, rest);
      assert [h[0]] + h[1..] == h;
    }
  }

  /** Joining separator-free pieces and splitting again gives the pieces back. */
  lemma {:induction false} SplitJoin(parts: seq<string>, sep: char)
    requires |parts| > 0
    requires forall i :: 0 <= i < |parts| ==> sep !in parts[i]
    ensures Split(Join(parts, sep), sep) == parts
    decreases |parts|
  {
    if |parts| == 1 {
      SplitNoSeparator(parts[0], sep);
    } else {
      SplitJoin(parts[1..], sep);
      SplitPrefix(parts[0], sep, Join(parts[1..], sep));
      assert [parts[0]] + parts[1..] == parts;
    }
  }

  /** Number of occurrences of a character. */
  function CountChar(s: string, c: char): nat
    decreases |s|
  {
    if |s| == 0 then 0 else (if s[0] == c then 1 else 0) + CountChar(s[1..], c)
  }

  lemma {:induction false} CountCharAppend(a: string, b: string, c: char)
    ensures CountChar(a + b, c) == CountChar(a, c) + CountChar(b, c)
    decreases |a|
  {
    if |a| == 0 {
      assert a + b == b;
    } else {
      assert (a + b)[1..] == a[1..] + b;
      CountCharAppend(a[1..], b, c);
    }
  }
}
