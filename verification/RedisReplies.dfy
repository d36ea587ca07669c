/** Replies as the Redis serialization protocol, version 2, puts them on the wire, and what reading makes
    of them. The encoder knows nothing of the reader. */
module RedisReplies {
  import opened Text
  import opened RedisProtocol

  datatype Reply =
    | Simple(line: Bytes)
    | Refusal(line: Bytes)
    | Integer(n: int)
    | BulkString(bytes: Bytes)
    | NullBulk
    | NullArray
    | Array(items: seq<Reply>)

  const UNDERSCORE: Byte := '_' as int

  /** `$-1` and `*-1`, without the marker. */
  const MINUS_ONE: Bytes := ['-' as int, '1' as int]

  function Signed(n: int): Bytes {
    if n < 0 then [MINUS] + Decimal(-n) else Decimal(n)
  }

  function Wire(r: Reply): Bytes {
    match r
    case Simple(line) => [PLUS] + (line + CRLF)
    case Refusal(line) => [MINUS] + (line + CRLF)
    case Integer(n) => [COLON] + (Signed(n) + CRLF)
    case BulkString(bytes) => [DOLLAR] + (Decimal(|bytes|) + (CRLF + (bytes + CRLF)))
    case NullBulk => [DOLLAR] + (MINUS_ONE + CRLF)
    case NullArray => [STAR] + (MINUS_ONE + CRLF)
    case Array(items) => [STAR] + (Decimal(|items|) + (CRLF + WireAll(items)))
  }

  function WireAll(items: seq<Reply>): Bytes {
    if items == [] then [] else Wire(items[0]) + WireAll(items[1..])
  }

  /** A reply that is no refusal as a value. */
  function Meaning(r: Reply): Value {
    match r
    case Simple(line) => Data(line)
    case Refusal(_) => Nil
    case Integer(n) => Number(n)
    case BulkString(bytes) => Data(bytes)
    case NullBulk => Nil
    case NullArray => Nil
    case Array(items) => List(Meanings(items))
  }

  function Meanings(items: seq<Reply>): seq<Value> {
    if items == [] then [] else [Meaning(items[0])] + Meanings(items[1..])
  }

  /** Lines contain no line feed. */
  predicate WellFormed(r: Reply) {
    match r
    case Simple(line) => LF !in line
    case Refusal(line) => LF !in line
    case Array(items) => forall i :: 0 <= i < |items| ==> WellFormed(items[i])
    case _ => true
  }

  datatype Verdict = Taken | Refused | TooLarge

  function LineVerdict(line: Bytes, verdict: Verdict): Verdict {
    if |line| + 2 <= MAX_LINE then verdict else TooLarge
  }

  /** A refusal is refused, wherever it stands, unless something too large stands before it. */
  function VerdictOf(r: Reply): Verdict {
    match r
    case Simple(line) => LineVerdict(line, Taken)
    case Refusal(line) => LineVerdict(line, Refused)
    case Integer(n) => LineVerdict(Signed(n), Taken)
    case BulkString(bytes) => if |bytes| <= MAX_DUMP_BYTES then Taken else TooLarge
    case NullBulk => Taken
    case NullArray => Taken
    case Array(items) => if |items| <= MAX_KEYS + 16 then VerdictOfAll(items) else TooLarge
  }

  function VerdictOfAll(items: seq<Reply>): Verdict {
    if items == [] then Taken
    else
      var first := VerdictOf(items[0]);
      if first.Taken? then VerdictOfAll(items[1..]) else first
  }

  function Expected<T>(verdict: Verdict, value: T, more: Bytes): Parsed<T> {
    match verdict
    case Taken => Got(value, more)
    case Refused => Rejected
    case TooLarge => Broken
  }

  /* ---------------------------------------------------------------- lines */

  /** A line is read exactly if it ends with its first line feed, after a carriage return, within the limit. */
  lemma ReadLineIff(s: Bytes, line: Bytes, rest: Bytes)
    ensures ReadLine(s) == Got(line, rest) <==> s == line + (CRLF + rest) && LF !in line && |line| + 2 <= MAX_LINE
  {
    if s == line + (CRLF + rest) && LF !in line {
      if |line| + 2 <= MAX_LINE {
        LineEndAt(line, rest, MAX_LINE + 1);
        assert s[|line|..|line| + 2] == CRLF;
        assert s[..|line|] == line && s[|line| + 2..] == rest;
      }
    }
    if ReadLine(s) == Got(line, rest) {
      var end := LineEnd(s, MAX_LINE + 1);
      NoEarlierEnd(s, MAX_LINE + 1);
      assert s == s[..end - 2] + (s[end - 2..end] + s[end..]);
    }
  }

  lemma {:induction false} NoEarlierEnd(s: Bytes, limit: nat)
    ensures var end := LineEnd(s, limit); end > 0 ==> LF !in s[..end - 1]
    decreases limit
  {
    if limit > 0 && s != [] && s[0] != LF {
      NoEarlierEnd(s[1..], limit - 1);
      var end := LineEnd(s, limit);
      assert end > 1 ==> s[..end - 1] == [s[0]] + s[1..][..end - 2];
    }
  }

  lemma LongLineIsBroken(line: Bytes, more: Bytes)
    requires LF !in line && |line| + 2 > MAX_LINE
    ensures ReadLine(line + (CRLF + more)) == Broken
  {
    hide LineEnd;
    if |line| < MAX_LINE {
      LineEndAt(line, more, MAX_LINE + 1);
    } else {
      LineEndBeyond(line + [CR], [LF] + more, MAX_LINE + 1);
      assert line + (CRLF + more) == (line + [CR]) + ([LF] + more);
    }
  }

  /** Any line without a line feed, followed by CR and LF. */
  lemma LineRoundTrip(line: Bytes, more: Bytes)
    requires LF !in line
    ensures ReadLine(line + (CRLF + more)) == Expected(LineVerdict(line, Taken), line, more)
  {
    hide ReadLine;
    if |line| + 2 <= MAX_LINE {
      ReadLineIff(line + (CRLF + more), line, more);
    } else {
      LongLineIsBroken(line, more);
    }
  }

  /* ---------------------------------------------------------------- integers */

  predicate AllSpaces(s: Bytes) { forall i :: 0 <= i < |s| ==> IsPySpace(s[i]) }

  /** A digit, or an underscore between two digits. */
  predicate LiteralAt(s: Bytes, i: nat)
    requires i < |s|
  {
    IsDigit(s[i]) || (s[i] == UNDERSCORE && 0 < i < |s| - 1 && IsDigit(s[i - 1]) && IsDigit(s[i + 1]))
  }

  predicate IsLiteral(s: Bytes) {
    s != [] && forall i :: 0 <= i < |s| ==> LiteralAt(s, i)
  }

  /** The value of the digits of a text, read as a decimal. */
  function DigitValue(s: Bytes): nat {
    if s == [] then 0
    else
      var front, last := s[..|s| - 1], s[|s| - 1];
      if IsDigit(last) then 10 * DigitValue(front) + (last as int - '0' as int) else DigitValue(front)
  }

  lemma {:induction false} MagnitudeIff(s: Bytes)
    ensures Magnitude(s) == if IsLiteral(s) then Some(DigitValue(s)) else None
    decreases |s|
  {
    if s != [] {
      var before := s[..|s| - 1];
      if !IsDigit(s[|s| - 1]) {
        assert !LiteralAt(s, |s| - 1);
      } else if before == [] {
        assert s == [s[0]];
      } else {
        if before[|before| - 1] == UNDERSCORE {
          var front := before[..|before| - 1];
          MagnitudeIff(front);
          LiteralBehindUnderscore(s, front);
        } else {
          MagnitudeIff(before);
          LiteralBehindDigit(s, before);
        }
      }
    }
  }

  lemma LiteralBehindDigit(s: Bytes, before: Bytes)
    requires s != [] && before == s[..|s| - 1] && before != [] && IsDigit(s[|s| - 1]) && before[|before| - 1] != UNDERSCORE
    ensures IsLiteral(s) <==> IsLiteral(before)
  {
    if IsLiteral(s) {
      assert LiteralAt(s, |s| - 2);
      forall i | 0 <= i < |before|
        ensures LiteralAt(before, i)
      {
        assert LiteralAt(s, i) && before[i] == s[i];
      }
    }
    if IsLiteral(before) {
      forall i | 0 <= i < |s|
        ensures LiteralAt(s, i)
      {
        if i < |before| {
          assert LiteralAt(before, i) && before[i] == s[i];
        }
      }
    }
  }

  lemma LiteralBehindUnderscore(s: Bytes, front: Bytes)
    requires |s| >= 2 && front == s[..|s| - 2] && IsDigit(s[|s| - 1]) && s[|s| - 2] == UNDERSCORE
    ensures IsLiteral(s) <==> IsLiteral(front)
    ensures DigitValue(s) == 10 * DigitValue(front) + (s[|s| - 1] as int - '0' as int)
  {
    assert s[..|s| - 1][..|s| - 2] == front;
    if IsLiteral(s) {
      assert LiteralAt(s, |s| - 2);
      assert LiteralAt(s, |s| - 3);
      forall i | 0 <= i < |front|
        ensures LiteralAt(front, i)
      {
        assert LiteralAt(s, i) && front[i] == s[i];
      }
    }
    if IsLiteral(front) {
      assert LiteralAt(front, |front| - 1);
      forall i | 0 <= i < |s|
        ensures LiteralAt(s, i)
      {
        if i < |front| {
          assert LiteralAt(front, i) && front[i] == s[i];
        }
      }
    }
  }

  lemma {:induction false} TrimLeftSpaces(a: Bytes, s: Bytes)
    requires AllSpaces(a) && s != [] && !IsPySpace(s[0])
    ensures TrimBytesLeft(a + s) == s
  {
    if a == [] {
      assert a + s == s;
    } else {
      TrimLeftSpaces(a[1..], s);
      assert (a + s)[1..] == a[1..] + s;
    }
  }

  lemma {:induction false} TrimRightSpaces(s: Bytes, b: Bytes)
    requires AllSpaces(b) && s != [] && !IsPySpace(s[|s| - 1])
    ensures TrimBytesRight(s + b) == s
  {
    if b == [] {
      assert s + b == s;
    } else {
      TrimRightSpaces(s, b[..|b| - 1]);
      assert (s + b)[..|s + b| - 1] == s + b[..|b| - 1];
    }
  }

  lemma {:induction false} TrimLeftParts(s: Bytes)
    ensures var t := TrimBytesLeft(s);
            |t| <= |s| && s == s[..|s| - |t|] + t && AllSpaces(s[..|s| - |t|])
  {
    if s != [] && IsPySpace(s[0]) {
      TrimLeftParts(s[1..]);
      var t := TrimBytesLeft(s);
      assert s[..|s| - |t|] == [s[0]] + s[1..][..|s| - 1 - |t|];
    }
  }

  lemma {:induction false} TrimRightParts(s: Bytes)
    ensures var t := TrimBytesRight(s); t <= s && AllSpaces(s[|t|..])
  {
    if s != [] && IsPySpace(s[|s| - 1]) {
      TrimRightParts(s[..|s| - 1]);
      var t := TrimBytesRight(s);
      assert s[|t|..] == s[..|s| - 1][|t|..] + [s[|s| - 1]];
    }
  }

  predicate IsSign(sign: Bytes) { sign == [] || sign == [PLUS] || sign == [MINUS] }

  function WithSign(sign: Bytes, n: int): int { if sign == [MINUS] then -n else n }

  /** An integer as `int()` accepts it: a signed literal, with whitespace around it. */
  lemma IntIsRead(a: Bytes, sign: Bytes, literal: Bytes, b: Bytes)
    requires AllSpaces(a) && IsSign(sign) && IsLiteral(literal) && AllSpaces(b)
    ensures PyInt(a + (sign + literal + b)) == Some(WithSign(sign, DigitValue(literal)))
  {
    hide IsLiteral, Magnitude, DigitValue, TrimBytesLeft, TrimBytesRight;
    var t := sign + literal;
    LiteralEnds(literal);
    assert t[|t| - 1] == literal[|literal| - 1] && t[0] == if sign == [] then literal[0] else sign[0];
    TrimRightSpaces(t, b);
    TrimLeftSpaces(a, t + b);
    MagnitudeIff(literal);
    if sign != [] {
      assert t[1..] == literal;
    } else {
      assert t == literal;
    }
  }

  lemma LiteralEnds(literal: Bytes)
    requires IsLiteral(literal)
    ensures literal != [] && IsDigit(literal[0]) && IsDigit(literal[|literal| - 1])
  {
    assert LiteralAt(literal, 0) && LiteralAt(literal, |literal| - 1);
  }

  /** Nothing else is accepted. */
  lemma OnlyIntIsRead(s: Bytes) returns (a: Bytes, sign: Bytes, literal: Bytes, b: Bytes)
    requires PyInt(s).Some?
    ensures s == a + (sign + literal + b) && AllSpaces(a) && IsSign(sign) && IsLiteral(literal) && AllSpaces(b)
  {
    hide IsLiteral, Magnitude, DigitValue, TrimBytesLeft, TrimBytesRight;
    TrimLeftParts(s);
    var u := TrimBytesLeft(s);
    a := s[..|s| - |u|];
    TrimRightParts(u);
    var t := TrimBytesRight(u);
    b := u[|t|..];
    sign := if t[0] == MINUS || t[0] == PLUS then [t[0]] else [];
    literal := t[|sign|..];
    MagnitudeIff(literal);
    assert t == sign + literal;
  }

  lemma {:induction false} DecimalIsLiteral(n: nat)
    ensures IsLiteral(Decimal(n)) && DigitValue(Decimal(n)) == n
  {
    hide IsLiteral, DigitValue;
    DecimalValue(n);
    MagnitudeIff(Decimal(n));
  }

  lemma SignedIsRead(n: int)
    ensures PyInt(Signed(n)) == Some(n)
  {
    hide IsLiteral, DigitValue, Decimal, PyInt;
    var m: nat := if n < 0 then -n else n;
    var sign := if n < 0 then [MINUS] else [];
    DecimalIsLiteral(m);
    IntIsRead([], sign, Decimal(m), []);
    assert [] + (sign + Decimal(m) + []) == Signed(n);
  }

  lemma SignedHasNoLineFeed(n: int)
    ensures LF !in Signed(n)
  {
    hide Decimal;
  }

  lemma SignedRoundTrip(n: int, more: Bytes)
    ensures ReadNumber(Signed(n) + (CRLF + more)) == Expected(LineVerdict(Signed(n), Taken), n, more)
  {
    hide Signed, PyInt, ReadLine;
    SignedIsRead(n);
    SignedHasNoLineFeed(n);
    LineRoundTrip(Signed(n), more);
  }

  lemma MinusOneRoundTrip(more: Bytes)
    ensures ReadNumber(MINUS_ONE + (CRLF + more)) == Got(-1, more)
  {
    hide PyInt, ReadLine;
    DecimalIsLiteral(1);
    assert MINUS_ONE == [MINUS] + Decimal(1);
    IntIsRead([], [MINUS], Decimal(1), []);
    assert [] + ([MINUS] + Decimal(1) + []) == MINUS_ONE;
    LineRoundTrip(MINUS_ONE, more);
  }

  /* ---------------------------------------------------------------- replies */

  lemma Associate(marker: Byte, line: Bytes, body: Bytes, more: Bytes)
    ensures ([marker] + (line + (CRLF + body))) + more == [marker] + (line + (CRLF + (body + more)))
  {
  }

  lemma Marked(marker: Byte, t: Bytes)
    ensures ([marker] + t)[0] == marker && ([marker] + t)[1..] == t
  {
  }

  /** A reply of any form is read back to its value, leaving exactly the bytes behind it, or it is refused
      if it contains a refusal or something too large, whichever comes first. */
  lemma {:induction false} ReplyRoundTrip(r: Reply, more: Bytes)
    requires WellFormed(r)
    ensures Read(Wire(r) + more) == Expected(VerdictOf(r), Meaning(r), more)
    decreases r, 1
  {
    match r
    case Simple(line) => SimpleRoundTrip(line, more);
    case Refusal(line) => RefusalRoundTrip(line, more);
    case Integer(n) => IntegerRoundTrip(n, more);
    case BulkString(bytes) => BulkStringRoundTrip(bytes, more);
    case NullBulk => NullsRoundTrip(more);
    case NullArray => NullsRoundTrip(more);
    case Array(items) =>
      hide Read, ReadAll, Wire, VerdictOf, Meaning;
      if |items| <= MAX_KEYS + 16 {
        RepliesRoundTrip(items, more);
      }
      ArrayRoundTrip(items, more);
  }

  lemma {:induction false} RepliesRoundTrip(items: seq<Reply>, more: Bytes)
    requires forall i :: 0 <= i < |items| ==> WellFormed(items[i])
    ensures ReadAll(WireAll(items) + more, |items|) == Expected(VerdictOfAll(items), Meanings(items), more)
    decreases items, 0
  {
    hide Read, Wire, VerdictOf, Meaning, WellFormed;
    if items == [] {
      assert WireAll(items) + more == more;
    } else {
      assert WireAll(items) + more == Wire(items[0]) + (WireAll(items[1..]) + more);
      ReplyRoundTrip(items[0], WireAll(items[1..]) + more);
      RepliesRoundTrip(items[1..], more);
    }
  }

  lemma SimpleRoundTrip(line: Bytes, more: Bytes)
    requires LF !in line
    ensures Read(Wire(Simple(line)) + more) == Expected(VerdictOf(Simple(line)), Data(line), more)
  {
    hide ReadLine;
    LineRoundTrip(line, more);
    Associate(PLUS, line, [], more);
    assert CRLF + [] == CRLF && [] + more == more;
    Marked(PLUS, line + (CRLF + more));
  }

  /** Every refusal line within the limit is a refused command. */
  lemma RefusalRoundTrip(line: Bytes, more: Bytes)
    requires LF !in line
    ensures Read(Wire(Refusal(line)) + more) == Expected(VerdictOf(Refusal(line)), Nil, more)
  {
    hide ReadLine;
    LineRoundTrip(line, more);
    Associate(MINUS, line, [], more);
    assert CRLF + [] == CRLF && [] + more == more;
    Marked(MINUS, line + (CRLF + more));
  }

  lemma IntegerRoundTrip(n: int, more: Bytes)
    ensures Read(Wire(Integer(n)) + more) == Expected(VerdictOf(Integer(n)), Number(n), more)
  {
    hide ReadNumber, Signed;
    SignedRoundTrip(n, more);
    Associate(COLON, Signed(n), [], more);
    assert CRLF + [] == CRLF && [] + more == more;
    Marked(COLON, Signed(n) + (CRLF + more));
  }

  lemma BulkStringRoundTrip(bytes: Bytes, more: Bytes)
    ensures Read(Wire(BulkString(bytes)) + more) == Expected(VerdictOf(BulkString(bytes)), Data(bytes), more)
  {
    hide Read;
    assert Wire(BulkString(bytes)) == Bulk(bytes);
    if |bytes| <= MAX_DUMP_BYTES {
      BulkRoundTrip(bytes, more);
    } else {
      TooLongIsBroken(bytes, more);
    }
  }

  lemma NullsRoundTrip(more: Bytes)
    ensures Read(Wire(NullBulk) + more) == Got(Nil, more)
    ensures Read(Wire(NullArray) + more) == Got(Nil, more)
  {
    hide ReadNumber;
    MinusOneRoundTrip(more);
    assert CRLF + [] == CRLF && [] + more == more;
    Associate(DOLLAR, MINUS_ONE, [], more);
    Associate(STAR, MINUS_ONE, [], more);
    Marked(DOLLAR, MINUS_ONE + (CRLF + more));
    Marked(STAR, MINUS_ONE + (CRLF + more));
  }

  lemma ArrayRoundTrip(items: seq<Reply>, more: Bytes)
    requires |items| <= MAX_KEYS + 16 ==>
               ReadAll(WireAll(items) + more, |items|) == Expected(VerdictOfAll(items), Meanings(items), more)
    ensures Read(Wire(Array(items)) + more) == Expected(VerdictOf(Array(items)), Meaning(Array(items)), more)
  {
    hide ReadNumber, ReadAll, Decimal, WireAll, VerdictOfAll, Meanings;
    var size := Decimal(|items|);
    NumberRoundTrip(|items|, WireAll(items) + more);
    Associate(STAR, size, WireAll(items), more);
    Marked(STAR, size + (CRLF + (WireAll(items) + more)));
    if |items| <= MAX_KEYS + 16 {
      assert Power10(6) == 1_000_000;
      DecimalLength(|items|, 6);
    }
  }

  /** Any other marker is an unsupported reply. */
  lemma OtherMarkersAreBroken(s: Bytes)
    requires s == [] || s[0] !in [PLUS, MINUS, COLON, DOLLAR, STAR]
    ensures Read(s) == Broken
  {
  }

  /** The characters that int() reads as digits and skips around them. */
  lemma CharactersOfInt(b: Byte)
    ensures IsDigit(b) <==> 48 <= b <= 57
    ensures IsPySpace(b) <==> b in {9, 10, 11, 12, 13, 32}
  {
  }
}
