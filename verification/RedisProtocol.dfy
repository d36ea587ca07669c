/** encode_command and RedisConnection._read_reply of deploy/migrate-redis-allowlist.py: arrays and bulk
    strings of the Redis serialization protocol, version 2. */
module RedisProtocol {
  import opened Text

  const LF: Byte := 10
  const CR: Byte := 13
  const CRLF: Bytes := [CR, LF]
  const PLUS: Byte := '+' as int
  const MINUS: Byte := '-' as int
  const COLON: Byte := ':' as int
  const DOLLAR: Byte := '$' as int
  const STAR: Byte := '*' as int
  const ZERO: Byte := '0' as int

  const MAX_LINE := 1024 * 1024
  const MAX_DUMP_BYTES := 16 * 1024 * 1024
  const MAX_KEYS := 500_000

  /** `str(n).encode("ascii")` */
  function Decimal(n: nat): (r: Bytes)
    ensures r != [] && forall i :: 0 <= i < |r| ==> IsDigit(r[i])
  {
    if n < 10 then [ZERO + n] else Decimal(n / 10) + [ZERO + n % 10]
  }

  predicate IsDigit(b: Byte) { ZERO <= b <= ZERO + 9 }

  function Bulk(part: Bytes): Bytes {
    [DOLLAR] + (Decimal(|part|) + (CRLF + (part + CRLF)))
  }

  function Bulks(parts: seq<Bytes>): Bytes {
    if parts == [] then [] else Bulk(parts[0]) + Bulks(parts[1..])
  }

  function Encode(parts: seq<Bytes>): Bytes {
    [STAR] + (Decimal(|parts|) + (CRLF + Bulks(parts)))
  }

  /** encode_command: the header, then the pieces of every part. */
  method EncodeCommand(parts: seq<Bytes>) returns (r: Bytes)
    ensures r == Encode(parts)
  {
    hide Decimal, Bulk, Bulks;
    r := [STAR] + (Decimal(|parts|) + CRLF);
    NoBulks(parts);
    for i := 0 to |parts|
      invariant r == [STAR] + (Decimal(|parts|) + (CRLF + Bulks(parts[..i])))
    {
      BulksSnoc(parts[..i], parts[i]);
      assert parts[..i + 1] == parts[..i] + [parts[i]];
      OneMoreBulk([STAR], Decimal(|parts|), Bulks(parts[..i]), parts[i]);
      r := r + ([DOLLAR] + Decimal(|parts[i]|) + CRLF) + parts[i] + CRLF;
    }
    assert parts[..|parts|] == parts;
  }

  lemma NoBulks(parts: seq<Bytes>)
    ensures Bulks(parts[..0]) == []
  {
  }

  lemma OneMoreBulk(star: Bytes, count: Bytes, bulks: Bytes, part: Bytes)
    ensures star + (count + (CRLF + bulks)) + ([DOLLAR] + Decimal(|part|) + CRLF) + part + CRLF
         == star + (count + (CRLF + (bulks + Bulk(part))))
  {
    hide Decimal;
    var header := [DOLLAR] + Decimal(|part|) + CRLF;
    BulkPieces(Decimal(|part|), part);
    Regroup(star, count + (CRLF + bulks), header, part, CRLF);
    Inward(count, CRLF, bulks, header + part + CRLF);
  }

  lemma BulkPieces(size: Bytes, part: Bytes)
    ensures ([DOLLAR] + size + CRLF) + part + CRLF == [DOLLAR] + (size + (CRLF + (part + CRLF)))
  {
  }

  lemma Regroup<T>(a: seq<T>, b: seq<T>, c: seq<T>, d: seq<T>, e: seq<T>)
    ensures a + b + c + d + e == a + (b + (c + d + e))
  {
  }

  lemma Inward<T>(a: seq<T>, b: seq<T>, c: seq<T>, d: seq<T>)
    ensures (a + (b + c)) + d == a + (b + (c + d))
  {
  }

  lemma {:induction false} BulksSnoc(parts: seq<Bytes>, last: Bytes)
    ensures Bulks(parts + [last]) == Bulks(parts) + Bulk(last)
  {
    if parts == [] {
      assert ([] + [last])[1..] == [];
    } else {
      BulksSnoc(parts[1..], last);
      assert (parts + [last])[1..] == parts[1..] + [last];
      assert Bulk(parts[0]) + (Bulks(parts[1..]) + Bulk(last)) == (Bulk(parts[0]) + Bulks(parts[1..])) + Bulk(last);
    }
  }

  /* ---------------------------------------------------------------- reading */

  /** What a reply evaluates to; a simple string and a bulk string are both bytes. */
  datatype Value = Data(bytes: Bytes) | Number(n: int) | Nil | List(items: seq<Value>)

  /** Rejected is RedisReplyError, Broken any MigrationError; the rest of the stream is then of no use. */
  datatype Parsed<T> = Got(value: T, rest: Bytes) | Rejected | Broken {
    predicate IsFailure() { !Got? }

    function PropagateFailure<U>(): Parsed<U>
      requires IsFailure()
    {
      if Rejected? then Rejected else Broken
    }

    function Extract(): (T, Bytes)
      requires Got?
    {
      (value, rest)
    }
  }

  /** The position behind the first newline among the first `limit` bytes, or where reading stops. */
  function LineEnd(s: Bytes, limit: nat): (r: nat)
    ensures r <= |s| && r <= limit
  {
    if limit == 0 || s == [] then 0
    else if s[0] == LF then 1
    else 1 + LineEnd(s[1..], limit - 1)
  }

  /** _readline: at most one byte more than MAX_LINE is read. */
  function ReadLine(s: Bytes): (r: Parsed<Bytes>)
    ensures r.Got? ==> |r.rest| < |s|
  {
    var end := LineEnd(s, MAX_LINE + 1);
    if end < 2 || end > MAX_LINE || s[end - 2..end] != CRLF then Broken else Got(s[..end - 2], s[end..])
  }

  predicate IsPySpace(b: Byte) { 9 <= b <= 13 || b == 32 }

  function TrimBytesLeft(s: Bytes): Bytes {
    if s != [] && IsPySpace(s[0]) then TrimBytesLeft(s[1..]) else s
  }

  function TrimBytesRight(s: Bytes): Bytes {
    if s != [] && IsPySpace(s[|s| - 1]) then TrimBytesRight(s[..|s| - 1]) else s
  }

  /** Digits, with single underscores between them. */
  function Magnitude(s: Bytes): Option<nat> {
    if s == [] || !IsDigit(s[|s| - 1]) then None
    else
      var d: nat := s[|s| - 1] - ZERO;
      var before := s[..|s| - 1];
      if before == [] then Some(d)
      else
        var more := Magnitude(if before[|before| - 1] == '_' as int then before[..|before| - 1] else before);
        if more.None? then None else Some(10 * more.value + d)
  }

  /** `int(b)` of a byte string. */
  function PyInt(s: Bytes): Option<int> {
    var t := TrimBytesRight(TrimBytesLeft(s));
    if t == [] then None
    else if t[0] == MINUS then
      var m := Magnitude(t[1..]);
      if m.None? then None
      else
        var magnitude: int := m.value;
        Some(-magnitude)
    else
      var m := Magnitude(if t[0] == PLUS then t[1..] else t);
      if m.None? then None else Some(m.value)
  }

  function ReadNumber(s: Bytes): (r: Parsed<int>)
    ensures r.Got? ==> |r.rest| < |s|
  {
    var (line, rest) :- ReadLine(s);
    var n := PyInt(line);
    if n.None? then Broken else Got(n.value, rest)
  }

  /** `read(length)` and the trailer, each complete. */
  function ReadBulk(s: Bytes, length: nat): (r: Parsed<Value>)
    ensures r.Got? ==> |r.rest| < |s|
  {
    if |s| < length + 2 || s[length..length + 2] != CRLF then Broken else Got(Data(s[..length]), s[length + 2..])
  }

  function AfterDollar(t: Bytes): (r: Parsed<Value>)
    ensures r.Got? ==> |r.rest| < |t|
  {
    var (length, rest) :- ReadNumber(t);
    if length == -1 then Got(Nil, rest)
    else if length < 0 || length > MAX_DUMP_BYTES then Broken
    else ReadBulk(rest, length)
  }

  function AfterStar(t: Bytes): (r: Parsed<Value>)
    ensures r.Got? ==> |r.rest| < |t|
    decreases |t|, 2, 0
  {
    var (length, rest) :- ReadNumber(t);
    if length == -1 then Got(Nil, rest)
    else if length < 0 || length > MAX_KEYS + 16 then Broken
    else
      var (items, end) :- ReadAll(rest, length);
      Got(List(items), end)
  }

  /** _read_reply */
  function Read(s: Bytes): (r: Parsed<Value>)
    ensures r.Got? ==> |r.rest| < |s|
    decreases |s|, 0, 0
  {
    if s == [] then Broken
    else
      var t := s[1..];
      if s[0] == PLUS then
        var (line, rest) :- ReadLine(t);
        Got(Data(line), rest)
      else if s[0] == MINUS then
        var (_, _) :- ReadLine(t);
        Rejected
      else if s[0] == COLON then
        var (n, rest) :- ReadNumber(t);
        Got(Number(n), rest)
      else if s[0] == DOLLAR then AfterDollar(t)
      else if s[0] == STAR then AfterStar(t)
      else Broken
  }

  /** `[self._read_reply() for _ in range(count)]` */
  function ReadAll(s: Bytes, count: nat): (r: Parsed<seq<Value>>)
    ensures r.Got? ==> |r.rest| <= |s| && |r.value| == count
    decreases |s|, 1, count
  {
    if count == 0 then Got([], s)
    else
      var (first, rest) :- Read(s);
      var (more, end) :- ReadAll(rest, count - 1);
      Got([first] + more, end)
  }

  /** The values read so far in front of those still to come. */
  function Ahead(done: seq<Value>, more: Parsed<seq<Value>>): Parsed<seq<Value>> {
    if more.Got? then Got(done + more.value, more.rest) else more
  }

  lemma AheadStep(done: seq<Value>, s: Bytes, count: nat)
    requires count > 0
    ensures var r := Read(s);
            Ahead(done, ReadAll(s, count))
            == if r.Got? then Ahead(done + [r.value], ReadAll(r.rest, count - 1))
               else if r.Rejected? then Rejected else Broken
  {
    hide Read;
    var r := Read(s);
    if r.Got? && ReadAll(r.rest, count - 1).Got? {
      var more := ReadAll(r.rest, count - 1).value;
      assert done + ([r.value] + more) == (done + [r.value]) + more;
    }
  }

  /** The receiving side: every read consumes the stream. */
  class Reader {
    var input: Bytes

    constructor (input: Bytes)
      ensures this.input == input
    {
      this.input := input;
    }

    method ReadOne(count: nat) returns (bytes: Bytes)
      modifies this
      ensures if count <= |old(input)| then bytes == old(input)[..count] && input == old(input)[count..]
              else bytes == old(input) && input == []
    {
      var n := if count <= |input| then count else |input|;
      bytes, input := input[..n], input[n..];
    }

    method ReadCrlfLine() returns (line: Parsed<Bytes>)
      modifies this
      ensures line == ReadLine(old(input)) && (line.Got? ==> input == line.rest)
    {
      var end := LineEnd(input, MAX_LINE + 1);
      var raw := input[..end];
      ghost var was := input;
      input := input[end..];
      if raw == [] || |raw| > MAX_LINE || |raw| < 2 || raw[|raw| - 2..] != CRLF {
        assert end >= 2 ==> raw[|raw| - 2..] == was[end - 2..end];
        return Broken;
      }
      assert raw[|raw| - 2..] == was[end - 2..end];
      assert raw[..|raw| - 2] == was[..end - 2];
      return Got(raw[..|raw| - 2], input);
    }

    method ReadInt() returns (n: Parsed<int>)
      modifies this
      ensures n == ReadNumber(old(input)) && (n.Got? ==> input == n.rest)
    {
      hide ReadLine;
      var line := ReadCrlfLine();
      if !line.Got? {
        return if line.Rejected? then Rejected else Broken;
      }
      var value := PyInt(line.value);
      return if value.None? then Broken else Got(value.value, input);
    }

    method ReadReply() returns (r: Parsed<Value>)
      modifies this
      ensures r == Read(old(input)) && (r.Got? ==> input == r.rest)
      decreases |input|, 0
    {
      hide ReadLine, ReadNumber, AfterDollar, AfterStar;
      var marker := ReadOne(1);
      if marker == [] {
        return Broken;
      }
      if marker[0] == PLUS {
        var line := ReadCrlfLine();
        return if line.Got? then Got(Data(line.value), input) else if line.Rejected? then Rejected else Broken;
      } else if marker[0] == MINUS {
        var line := ReadCrlfLine();
        return if line.Broken? then Broken else Rejected;
      } else if marker[0] == COLON {
        var n := ReadInt();
        return if n.Got? then Got(Number(n.value), input) else if n.Rejected? then Rejected else Broken;
      } else if marker[0] == DOLLAR {
        r := ReadBulkReply();
      } else if marker[0] == STAR {
        r := ReadArrayReply();
      } else {
        return Broken;
      }
    }

    method ReadBulkReply() returns (r: Parsed<Value>)
      modifies this
      ensures r == AfterDollar(old(input)) && (r.Got? ==> input == r.rest)
    {
      hide ReadNumber;
      var n := ReadInt();
      if !n.Got? {
        return if n.Rejected? then Rejected else Broken;
      }
      if n.value == -1 {
        return Got(Nil, input);
      }
      if n.value < 0 || n.value > MAX_DUMP_BYTES {
        return Broken;
      }
      ghost var body := input;
      var value := ReadOne(n.value);
      var trailer := ReadOne(2);
      assert |body| >= n.value + 2 ==> body[n.value..n.value + 2] == trailer;
      if |value| != n.value || trailer != CRLF {
        return Broken;
      }
      return Got(Data(value), input);
    }

    method ReadArrayReply() returns (r: Parsed<Value>)
      modifies this
      ensures r == AfterStar(old(input)) && (r.Got? ==> input == r.rest)
      decreases |input|, 1
    {
      hide ReadNumber, Read, ReadAll;
      var n := ReadInt();
      if !n.Got? {
        return if n.Rejected? then Rejected else Broken;
      }
      if n.value == -1 {
        return Got(Nil, input);
      }
      if n.value < 0 || n.value > MAX_KEYS + 16 {
        return Broken;
      }
      var items: seq<Value> := [];
      ghost var all := ReadAll(input, n.value);
      NothingYet(all);
      for i := 0 to n.value
        invariant all == Ahead(items, ReadAll(input, n.value - i))
        invariant |input| < |old(input)|
      {
        AheadStep(items, input, n.value - i);
        var item := ReadReply();
        if !item.Got? {
          return if item.Rejected? then Rejected else Broken;
        }
        items := items + [item.value];
      }
      NoMore(input, items);
      return Got(List(items), input);
    }
  }

  lemma NothingYet(all: Parsed<seq<Value>>)
    ensures Ahead([], all) == all
  {
    if all.Got? {
      assert [] + all.value == all.value;
    }
  }

  lemma NoMore(s: Bytes, items: seq<Value>)
    ensures Ahead(items, ReadAll(s, 0)) == Got(items, s)
  {
    assert items + [] == items;
  }

  /* ---------------------------------------------------------------- round trip */

  lemma {:induction false} DecimalValue(n: nat)
    ensures Magnitude(Decimal(n)) == Some(n)
  {
    if n >= 10 {
      DecimalValue(n / 10);
      var d := Decimal(n / 10);
      assert Decimal(n)[..|d|] == d;
    }
  }

  lemma DecimalIsInt(n: nat)
    ensures PyInt(Decimal(n)) == Some(n)
  {
    hide Decimal, Magnitude;
    DecimalValue(n);
    var d := Decimal(n);
    assert IsDigit(d[0]) && IsDigit(d[|d| - 1]);
  }

  lemma {:induction false} DecimalLength(n: nat, k: nat)
    requires k > 0 && n < Power10(k)
    ensures |Decimal(n)| <= k
    decreases k
  {
    if n >= 10 {
      DecimalLength(n / 10, k - 1);
    }
  }

  function Power10(k: nat): nat { if k == 0 then 1 else 10 * Power10(k - 1) }

  /** A line without control characters is read up to its end. */
  lemma {:induction false} LineEndAt(line: Bytes, more: Bytes, limit: nat)
    requires (forall i :: 0 <= i < |line| ==> line[i] != LF) && |line| + 2 <= limit
    ensures LineEnd(line + (CRLF + more), limit) == |line| + 2
    decreases |line|
  {
    var s := line + (CRLF + more);
    if line == [] {
      assert s[0] == CR && s[1..][0] == LF;
      assert LineEnd(s[1..], limit - 1) == 1;
    } else {
      LineEndAt(line[1..], more, limit - 1);
      assert s[1..] == line[1..] + (CRLF + more);
    }
  }

  /** A line is read no further than the limit. */
  lemma {:induction false} LineEndBeyond(line: Bytes, more: Bytes, limit: nat)
    requires (forall i :: 0 <= i < |line| ==> line[i] != LF) && limit <= |line|
    ensures LineEnd(line + more, limit) == limit
    decreases limit
  {
    if limit > 0 {
      LineEndBeyond(line[1..], more, limit - 1);
      assert (line + more)[1..] == line[1..] + more;
    }
  }

  /** A decimal is read back exactly if its line is within the limit. */
  lemma NumberRoundTrip(n: nat, more: Bytes)
    ensures ReadNumber(Decimal(n) + (CRLF + more)) == if |Decimal(n)| + 2 <= MAX_LINE then Got(n, more) else Broken
  {
    hide Decimal, PyInt, LineEnd;
    DecimalIsInt(n);
    var line := Decimal(n);
    var s := line + (CRLF + more);
    if |line| + 2 <= MAX_LINE + 1 {
      LineEndAt(line, more, MAX_LINE + 1);
      assert s[|line|..|line| + 2] == CRLF;
      assert s[..|line|] == line && s[|line| + 2..] == more;
    } else {
      LineEndBeyond(line + [CR], [LF] + more, MAX_LINE + 1);
      assert s == (line + [CR]) + ([LF] + more);
    }
  }

  lemma BulkRoundTrip(part: Bytes, more: Bytes)
    requires |part| <= MAX_DUMP_BYTES
    ensures Read(Bulk(part) + more) == Got(Data(part), more)
  {
    hide Decimal, ReadNumber;
    assert Power10(9) == 1_000_000_000;
    DecimalLength(|part|, 9);
    var body := part + CRLF;
    var t := Decimal(|part|) + (CRLF + (body + more));
    NumberRoundTrip(|part|, body + more);
    assert (Bulk(part) + more)[1..] == t;
    assert (body + more)[|part|..|part| + 2] == CRLF;
    assert (body + more)[..|part|] == part && (body + more)[|part| + 2..] == more;
  }

  /** A part above the limit is refused: by its size, or for its absurdly long size line. */
  lemma TooLongIsBroken(part: Bytes, more: Bytes)
    requires |part| > MAX_DUMP_BYTES
    ensures Read(Bulk(part) + more) == Broken
  {
    hide Decimal, ReadNumber;
    var t := Decimal(|part|) + (CRLF + ((part + CRLF) + more));
    NumberRoundTrip(|part|, (part + CRLF) + more);
    assert (Bulk(part) + more)[1..] == t;
  }

  function DataOf(parts: seq<Bytes>): seq<Value> {
    if parts == [] then [] else [Data(parts[0])] + DataOf(parts[1..])
  }

  predicate ShortParts(parts: seq<Bytes>) {
    forall i :: 0 <= i < |parts| ==> |parts[i]| <= MAX_DUMP_BYTES
  }

  predicate WithinLimits(parts: seq<Bytes>) { |parts| <= MAX_KEYS + 16 && ShortParts(parts) }

  lemma {:induction false} BulksRoundTrip(parts: seq<Bytes>, more: Bytes)
    ensures ReadAll(Bulks(parts) + more, |parts|) == if ShortParts(parts) then Got(DataOf(parts), more) else Broken
  {
    hide Read, Bulk;
    if parts == [] {
      assert Bulks(parts) + more == more;
    } else {
      assert Bulks(parts) + more == Bulk(parts[0]) + (Bulks(parts[1..]) + more);
      ShortPartsStep(parts);
      if |parts[0]| <= MAX_DUMP_BYTES {
        BulkRoundTrip(parts[0], Bulks(parts[1..]) + more);
        BulksRoundTrip(parts[1..], more);
      } else {
        TooLongIsBroken(parts[0], Bulks(parts[1..]) + more);
      }
    }
  }

  lemma ShortPartsStep(parts: seq<Bytes>)
    requires parts != []
    ensures ShortParts(parts) <==> |parts[0]| <= MAX_DUMP_BYTES && ShortParts(parts[1..])
  {
    if ShortParts(parts[1..]) && |parts[0]| <= MAX_DUMP_BYTES {
      assert forall i :: 0 < i < |parts| ==> parts[i] == parts[1..][i - 1];
    }
  }

  /** Reading an encoded command gives its parts and leaves exactly the bytes behind it if the command is
      within the limits, and is refused otherwise. */
  lemma CommandRoundTrip(parts: seq<Bytes>, more: Bytes)
    ensures Read(Encode(parts) + more) == if WithinLimits(parts) then Got(List(DataOf(parts)), more) else Broken
  {
    hide Decimal, ReadNumber, ReadAll, Bulks, ShortParts;
    assert Power10(9) == 1_000_000_000;
    var t := Decimal(|parts|) + (CRLF + (Bulks(parts) + more));
    assert (Encode(parts) + more)[1..] == t;
    NumberRoundTrip(|parts|, Bulks(parts) + more);
    if |parts| <= MAX_KEYS + 16 {
      DecimalLength(|parts|, 9);
      BulksRoundTrip(parts, more);
    }
  }

  lemma {:induction false} DataInjective(a: seq<Bytes>, b: seq<Bytes>)
    requires DataOf(a) == DataOf(b)
    ensures a == b
  {
    if a != [] && b != [] {
      assert DataOf(a)[0] == Data(a[0]) && DataOf(b)[0] == Data(b[0]);
      assert DataOf(a)[1..] == DataOf(a[1..]) && DataOf(b)[1..] == DataOf(b[1..]);
      DataInjective(a[1..], b[1..]);
    }
  }

  /** The encoding is injective and self-delimiting: no command is another one followed by more bytes. */
  lemma EncodingIsPrefixFree(a: seq<Bytes>, b: seq<Bytes>, x: Bytes, y: Bytes)
    requires WithinLimits(a) && WithinLimits(b) && Encode(a) + x == Encode(b) + y
    ensures a == b && x == y
  {
    hide Encode, Read;
    CommandRoundTrip(a, x);
    CommandRoundTrip(b, y);
    DataInjective(a, b);
  }
}
