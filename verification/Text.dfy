/** Character and string operations shared by the text-processing models. */
module Text {

  datatype Option<+T> = None | Some(value: T)

  /** The outcome of code that may raise: the message of the exception is not modelled. */
  datatype Result<+T> = Ok(value: T) | Error {
    predicate IsFailure() { Error? }

    function PropagateFailure<U>(): Result<U>
      requires Error?
    {
      Error
    }

    function Extract(): T
      requires Ok?
    {
      value
    }
  }

  type Byte = i: int | 0 <= i < 256

  type Bytes = seq<Byte>

  /** Python's `str.isspace` for one character; `str.strip` removes exactly these. */
  predicate IsSpace(c: char) {
    var n := c as int;
    || 0x09 <= n <= 0x0D || 0x1C <= n <= 0x20 || n == 0x85 || n == 0xA0 || n == 0x1680
    || 0x2000 <= n <= 0x200A || n == 0x2028 || n == 0x2029 || n == 0x202F || n == 0x205F || n == 0x3000
  }

  predicate Blank(s: string) {
    forall i :: 0 <= i < |s| ==> IsSpace(s[i])
  }

  function TrimLeft(s: string): (r: string)
    ensures r == "" <==> Blank(s)
    ensures r != "" ==> !IsSpace(r[0])
    ensures |r| <= |s| && r == s[|s| - |r|..]
  {
    if s != "" && IsSpace(s[0]) then TrimLeft(s[1..]) else s
  }

  function TrimRight(s: string): (r: string)
    ensures r == "" <==> Blank(s)
    ensures r != "" ==> !IsSpace(r[|r| - 1])
    ensures r <= s && Blank(s[|r|..])
  {
    if s != "" && IsSpace(s[|s| - 1]) then TrimRight(s[..|s| - 1]) else s
  }

  function Trim(s: string): (r: string)
    ensures r == "" <==> Blank(s)
  {
    TrimRight(TrimLeft(s))
  }

  lemma BlankConcat(a: string, b: string)
    ensures Blank(a + b) <==> Blank(a) && Blank(b)
  {
    if Blank(a + b) {
      assert forall i :: 0 <= i < |a| ==> a[i] == (a + b)[i];
      assert forall i :: 0 <= i < |b| ==> b[i] == (a + b)[|a| + i];
    }
  }

  lemma {:induction false} TrimLeftBlankPrefix(w: string, s: string)
    requires Blank(w)
    ensures TrimLeft(w + s) == TrimLeft(s)
  {
    hide IsSpace, TrimLeft, Blank;
    if w == "" {
      assert w + s == s;
    } else {
      var v := w[1..];
      assert w == [w[0]] + v;
      BlankConcat([w[0]], v);
      BlankChar(w[0]);
      TrimLeftBlankPrefix(v, s);
      assert w + s == [w[0]] + (v + s);
      TrimLeftStep(w[0], v + s);
    }
  }

  lemma BlankChar(c: char)
    ensures Blank([c]) <==> IsSpace(c)
  {
    hide IsSpace;
    assert [c][0] == c;
  }

  lemma TrimLeftStep(c: char, s: string)
    requires IsSpace(c)
    ensures TrimLeft([c] + s) == TrimLeft(s)
  {
    hide IsSpace, Blank;
    assert ([c] + s)[1..] == s;
  }

  lemma TrimBlankPrefix(w: string, s: string)
    requires Blank(w)
    ensures Trim(w + s) == Trim(s)
  {
    TrimLeftBlankPrefix(w, s);
  }

  lemma {:induction false} TrimRightBlankSuffix(s: string, w: string)
    requires Blank(w)
    ensures TrimRight(s + w) == TrimRight(s)
  {
    hide IsSpace;
    if w == "" {
      assert s + w == s;
    } else {
      TrimRightBlankSuffix(s, w[..|w| - 1]);
      assert (s + w)[..|s + w| - 1] == s + w[..|w| - 1];
    }
  }

  predicate OccursAt(s: string, sub: string, i: int) {
    0 <= i <= |s| - |sub| && s[i..i + |sub|] == sub
  }

  /** `sub in s`. */
  predicate Contains(s: string, sub: string) {
    exists i | 0 <= i <= |s| :: OccursAt(s, sub, i)
  }

  /** `str.lower` on ASCII letters. */
  function LowerChar(c: char): char {
    if 'A' <= c <= 'Z' then (c as int + 32) as char else c
  }

  function Lower(s: string): (r: string)
    ensures |r| == |s|
    ensures forall i :: 0 <= i < |s| ==> r[i] == LowerChar(s[i])
  {
    seq(|s|, i requires 0 <= i < |s| => LowerChar(s[i]))
  }

  predicate StartsWith(s: string, prefix: string) { prefix <= s }

  predicate EndsWith(s: string, suffix: string) {
    |suffix| <= |s| && s[|s| - |suffix|..] == suffix
  }
}
