/** The TOTP seed decoder of deploy/recover-worker-admin.py and its meaning: Base32 of section 6 of RFC 4648
    without padding, read as one big-endian number. */
module Base32 {
  import opened Text

  const ALPHABET := "ABCDEFGHIJKLMNOPQRSTUVWXYZ234567"

  type Digit = d: int | 0 <= d < 32

  predicate IsSymbol(c: char) { 'A' <= c <= 'Z' || '2' <= c <= '7' }

  /** `alphabet.index(character)` */
  function DigitOf(c: char): (d: Digit)
    requires IsSymbol(c)
    ensures ALPHABET[d] == c
  {
    if c >= 'A' then c as int - 'A' as int else c as int - '2' as int + 26
  }

  predicate SeedShape(s: string) {
    16 <= |s| <= 128 && forall i :: 0 <= i < |s| ==> IsSymbol(s[i])
  }

  function Pow2(k: nat): (p: nat)
    ensures p > 0
  {
    if k == 0 then 1 else 2 * Pow2(k - 1)
  }

  /** The digits as a big-endian number in base 32. */
  function SeedValue(s: string): nat
    requires forall i :: 0 <= i < |s| ==> IsSymbol(s[i])
  {
    if s == "" then 0 else 32 * SeedValue(s[..|s| - 1]) + DigitOf(s[|s| - 1])
  }

  /** The bytes as a big-endian number in base 256. */
  function BytesValue(b: Bytes): nat {
    if b == [] then 0 else 256 * BytesValue(b[..|b| - 1]) + b[|b| - 1]
  }

  lemma Pow2Add(a: nat, b: nat)
    ensures Pow2(a + b) == Pow2(a) * Pow2(b)
  {
    if a > 0 {
      Pow2Add(a - 1, b);
    }
  }

  lemma Pow2Values()
    ensures Pow2(3) == 8 && Pow2(5) == 32 && Pow2(8) == 256
  {
    assert Pow2(3) == 2 * Pow2(2);
    assert Pow2(5) == 2 * Pow2(4) && Pow2(4) == 2 * Pow2(3);
    assert Pow2(8) == 2 * Pow2(7) && Pow2(7) == 2 * Pow2(6) && Pow2(6) == 2 * Pow2(5);
  }

  /** Splitting the accumulator at `bits`: the part above is a byte, the part below is kept. */
  lemma SplitByte(bytes: nat, acc: nat, bits: nat)
    requires acc < Pow2(bits + 8)
    ensures acc / Pow2(bits) < 256
    ensures bytes * Pow2(bits + 8) + acc == (256 * bytes + acc / Pow2(bits)) * Pow2(bits) + acc % Pow2(bits)
  {
    var p := Pow2(bits);
    Pow2Add(bits, 8);
    Pow2Values();
    assert Pow2(bits + 8) == 256 * p;
    DivBelow(acc, p, 256);
    assert acc == (acc / p) * p + acc % p;
    assert bytes * (256 * p) == (256 * bytes) * p;
    assert (256 * bytes + acc / p) * p == (256 * bytes) * p + (acc / p) * p;
  }

  lemma DivBelow(a: nat, p: nat, k: nat)
    requires p > 0 && a < k * p
    ensures a / p < k
  {
  }

  lemma MulMono(a: nat, b: nat, c: nat)
    requires a <= b
    ensures a * c <= b * c
  {
  }

  lemma ShiftIn(value: nat, bytes: nat, acc: nat, bits: nat, d: Digit)
    requires value == bytes * Pow2(bits) + acc && acc < Pow2(bits)
    ensures 32 * value + d == bytes * Pow2(bits + 5) + (32 * acc + d)
    ensures 32 * acc + d < Pow2(bits + 5)
  {
    Pow2Add(bits, 5);
    Pow2Values();
    var p := Pow2(bits);
    assert 32 * (bytes * p) == bytes * (p * 32);
  }

  /** Decoding drops the low bits that do not fill a byte: the result is the quotient of the whole value. */
  lemma QuotientOf(value: nat, bytes: nat, acc: nat, bits: nat)
    requires value == bytes * Pow2(bits) + acc && acc < Pow2(bits)
    ensures bytes == value / Pow2(bits)
  {
    var p := Pow2(bits);
    assert value / p == bytes by {
      DivUnique(value, p, bytes, acc);
    }
  }

  lemma DivUnique(value: nat, p: nat, q: nat, r: nat)
    requires p > 0 && value == q * p + r && r < p
    ensures value / p == q
  {
    var d := value / p - q;
    assert value == (value / p) * p + value % p;
    assert d * p == r - value % p;
    if d > 0 { MulMono(1, d, p); }
    if d < 0 { MulMono(1, -d, p); }
  }

  /** The decoding loop: `accumulator` stays below `2 ** bit_count`, and fewer than 8 bits are pending. */
  method DecodeTotpSeed(seed: string) returns (decoded: Bytes)
    requires SeedShape(seed)
    ensures |decoded| == 5 * |seed| / 8
    ensures BytesValue(decoded) == SeedValue(seed) / Pow2(5 * |seed| % 8)
  {
    hide Pow2, DigitOf, SeedValue, BytesValue;
    var accumulator, bitCount := 0, 0;
    decoded := [];
    NothingDecoded(seed);
    for i := 0 to |seed|
      invariant 0 <= bitCount < 8 && 5 * i == 8 * |decoded| + bitCount
      invariant Pending(seed[..i], decoded, accumulator, bitCount)
    {
      NextDigit(seed, i, decoded, accumulator, bitCount);
      accumulator := 32 * accumulator + DigitOf(seed[i]);
      bitCount := bitCount + 5;
      if bitCount >= 8 {
        bitCount := bitCount - 8;
        NextByte(seed[..i + 1], decoded, accumulator, bitCount);
        decoded := decoded + [accumulator / Pow2(bitCount)];
        accumulator := accumulator % Pow2(bitCount);
      }
    }
    assert seed[..|seed|] == seed;
    QuotientOf(SeedValue(seed), BytesValue(decoded), accumulator, bitCount);
  }

  /** What the loop keeps: the value read is the bytes written, then the accumulator below `2 ** bits`. */
  ghost predicate Pending(read: string, written: Bytes, accumulator: int, bits: nat) {
    && 0 <= accumulator < Pow2(bits)
    && (forall i :: 0 <= i < |read| ==> IsSymbol(read[i]))
    && SeedValue(read) == BytesValue(written) * Pow2(bits) + accumulator
  }

  lemma NothingDecoded(seed: string)
    ensures Pending(seed[..0], [], 0, 0)
  {
    Pow2Zero();
  }

  lemma NextDigit(seed: string, i: nat, written: Bytes, accumulator: int, bits: nat)
    requires i < |seed| && IsSymbol(seed[i]) && Pending(seed[..i], written, accumulator, bits)
    ensures Pending(seed[..i + 1], written, 32 * accumulator + DigitOf(seed[i]), bits + 5)
  {
    hide Pow2, DigitOf, BytesValue;
    assert seed[..i + 1][..i] == seed[..i];
    ShiftIn(SeedValue(seed[..i]), BytesValue(written), accumulator, bits, DigitOf(seed[i]));
  }

  lemma NextByte(read: string, written: Bytes, accumulator: int, bits: nat)
    requires Pending(read, written, accumulator, bits + 8)
    ensures 0 <= accumulator / Pow2(bits) < 256
    ensures Pending(read, written + [accumulator / Pow2(bits)], accumulator % Pow2(bits), bits)
  {
    hide Pow2, SeedValue;
    SplitByte(BytesValue(written), accumulator, bits);
    assert (written + [accumulator / Pow2(bits)])[..|written|] == written;
  }

  lemma Pow2Zero()
    ensures Pow2(0) == 1
  {
  }

  function UpperChar(c: char): char {
    if 'a' <= c <= 'z' then (c as int - 32) as char else c
  }

  function Upper(s: string): (r: string)
    ensures |r| == |s| && forall i :: 0 <= i < |s| ==> r[i] == UpperChar(s[i])
  {
    seq(|s|, i requires 0 <= i < |s| => UpperChar(s[i]))
  }

  /** validate_seed: None where it raises. */
  function ValidateSeed(value: string): Option<string> {
    var normalized := Upper(Trim(value));
    if SeedShape(normalized) then Some(normalized) else None
  }

  /** A letter in either case or a digit from 2 to 7, by code point. */
  predicate SeedCharacter(c: char) { 65 <= c as int <= 90 || 97 <= c as int <= 122 || 50 <= c as int <= 55 }

  /** `s` stands in `value` between whitespace. */
  ghost predicate Between(value: string, s: string) {
    exists a, b :: Blank(a) && Blank(b) && value == a + s + b
  }

  /** `value` holds, between whitespace, 16 to 128 letters and digits. */
  ghost predicate SeedInput(value: string, s: string) {
    16 <= |s| <= 128 && (forall i :: 0 <= i < |s| ==> SeedCharacter(s[i])) && Between(value, s)
  }

  lemma TrimIsBetween(value: string)
    ensures Between(value, Trim(value))
  {
    hide IsSpace, Blank, TrimLeft, TrimRight;
    var u := TrimLeft(value);
    LeadIsBlank(value);
    Cut(value, value[..|value| - |u|], u, TrimRight(u));
  }

  lemma Cut(value: string, a: string, u: string, s: string)
    requires value == a + u && Blank(a) && s <= u && Blank(u[|s|..])
    ensures Between(value, s)
  {
    hide Blank;
    var b := u[|s|..];
    assert u == s + b;
    assert value == a + s + b;
  }

  lemma BetweenIsTrim(a: string, s: string, b: string)
    requires Blank(a) && Blank(b) && s != "" && !IsSpace(s[0]) && !IsSpace(s[|s| - 1])
    ensures Trim(a + s + b) == s
  {
    hide IsSpace, Blank;
    assert a + s + b == a + (s + b);
    TrimLeftBlankPrefix(a, s + b);
    assert (s + b)[0] == s[0];
    TrimRightBlankSuffix(s, b);
  }

  lemma TrimIff(value: string, s: string)
    requires s != "" && !IsSpace(s[0]) && !IsSpace(s[|s| - 1])
    ensures Trim(value) == s <==> Between(value, s)
  {
    hide IsSpace, Blank, Trim;
    TrimIsBetween(value);
    if Between(value, s) {
      var a, b :| Blank(a) && Blank(b) && value == a + s + b;
      BetweenIsTrim(a, s, b);
    }
  }

  lemma {:induction false} LeadIsBlank(value: string)
    ensures Blank(value[..|value| - |TrimLeft(value)|])
  {
    if value != "" && IsSpace(value[0]) {
      LeadIsBlank(value[1..]);
      var n := |value| - |TrimLeft(value)|;
      assert value[1..][..n - 1] == value[..n][1..];
    }
  }

  predicate Capitals(s: string, t: string) {
    |t| == |s| && forall i :: 0 <= i < |s| ==> t[i] as int == if 97 <= s[i] as int <= 122 then s[i] as int - 32 else s[i] as int
  }

  /** An input is accepted exactly if it holds a seed between whitespace; its letters are made upper case,
      and nothing else changes. */
  lemma InputIff(value: string, seed: string)
    ensures ValidateSeed(value) == Some(seed)
       <==> exists s :: SeedInput(value, s) && Capitals(s, seed)
  {
    hide Between, Blank, TrimLeft, TrimRight, Trim;
    if ValidateSeed(value) == Some(seed) {
      var s := Trim(value);
      forall i | 0 <= i < |s|
        ensures SeedCharacter(s[i])
      {
        assert IsSymbol(seed[i]) && seed[i] == UpperChar(s[i]);
      }
      TrimIsBetween(value);
      assert SeedInput(value, s) && Capitals(s, seed);
    }
    if exists s :: SeedInput(value, s) && Capitals(s, seed) {
      var s :| SeedInput(value, s) && Capitals(s, seed);
      assert SeedCharacter(s[0]) && SeedCharacter(s[|s| - 1]);
      TrimIff(value, s);
      var u := Upper(s);
      forall i | 0 <= i < |s|
        ensures u[i] == seed[i] && IsSymbol(u[i])
      {
        assert SeedCharacter(s[i]) && u[i] == UpperChar(s[i]);
      }
      assert u == seed;
    }
  }

  /** _decode_totp_seed on an operator's input. */
  method DecodeInput(value: string) returns (decoded: Option<Bytes>)
    ensures decoded.Some? <==> ValidateSeed(value).Some?
    ensures decoded.Some? ==> |decoded.value| >= 10 && Decodes(ValidateSeed(value).value, decoded.value)
  {
    var seed := ValidateSeed(value);
    if seed.None? {
      return None;
    }
    var bytes := DecodeTotpSeed(seed.value);
    return Some(bytes);
  }

  /* ---------------------------------------------------------------- which seeds are equivalent */

  lemma {:induction false} BytesInjective(a: Bytes, b: Bytes)
    requires |a| == |b| && BytesValue(a) == BytesValue(b)
    ensures a == b
  {
    if a != [] {
      var n := |a| - 1;
      BytesInjective(a[..n], b[..n]);
      assert a == a[..n] + [a[n]] && b == b[..n] + [b[n]];
    }
  }

  /** What the decoder returns, as a number and a length. */
  ghost predicate Decodes(seed: string, bytes: Bytes)
    requires SeedShape(seed)
  {
    |bytes| == 5 * |seed| / 8 && BytesValue(bytes) == SeedValue(seed) / Pow2(5 * |seed| % 8)
  }

  /** Two seeds of one length decode to the same bytes exactly when they agree above the dropped tail. */
  lemma SameBytesIff(s: string, t: string, a: Bytes, b: Bytes)
    requires SeedShape(s) && SeedShape(t) && |s| == |t| && Decodes(s, a) && Decodes(t, b)
    ensures a == b <==> SeedValue(s) / Pow2(5 * |s| % 8) == SeedValue(t) / Pow2(5 * |t| % 8)
  {
    if BytesValue(a) == BytesValue(b) {
      BytesInjective(a, b);
    }
  }

  /* ---------------------------------------------------------------- the encoder of the standard */

  function Symbol(d: Digit): (c: char)
    ensures IsSymbol(c) && DigitOf(c) == d
  {
    if d < 26 then (d + 'A' as int) as char else (d - 26 + '2' as int) as char
  }

  /** The `n` lowest base-32 digits of a number. */
  function Symbols(value: nat, n: nat): (s: string)
    ensures |s| == n && forall i :: 0 <= i < n ==> IsSymbol(s[i])
    decreases n
  {
    if n == 0 then "" else Symbols(value / 32, n - 1) + [Symbol(value % 32)]
  }

  lemma {:induction false} SymbolsValue(value: nat, n: nat)
    requires value < Pow2(5 * n)
    ensures SeedValue(Symbols(value, n)) == value
    decreases n
  {
    if n > 0 {
      Pow2Add(5 * (n - 1), 5);
      Pow2Values();
      DivBelow(value, 32, Pow2(5 * (n - 1)));
      SymbolsValue(value / 32, n - 1);
      var s := Symbols(value, n);
      assert s[..n - 1] == Symbols(value / 32, n - 1);
    }
  }

  lemma {:induction false} BytesBelow(b: Bytes)
    ensures BytesValue(b) < Pow2(8 * |b|)
  {
    if b != [] {
      BytesBelow(b[..|b| - 1]);
      Pow2Add(8 * (|b| - 1), 8);
      Pow2Values();
    }
  }

  /** Base32 of a byte string, unpadded: zero bits fill up the last symbol. */
  function Encode(b: Bytes): (s: string)
    ensures |s| == (8 * |b| + 4) / 5 && forall i :: 0 <= i < |s| ==> IsSymbol(s[i])
  {
    var n := (8 * |b| + 4) / 5;
    Symbols(BytesValue(b) * Pow2(5 * n - 8 * |b|), n)
  }

  /** Decoding the standard's encoding gives back the bytes. */
  lemma DecodeEncode(b: Bytes, decoded: Bytes)
    requires SeedShape(Encode(b)) && Decodes(Encode(b), decoded)
    ensures decoded == b
  {
    hide Pow2, Symbols, BytesValue, SeedValue;
    var n := (8 * |b| + 4) / 5;
    var k := 5 * n - 8 * |b|;
    var v := BytesValue(b);
    BytesBelow(b);
    Pow2Add(8 * |b|, k);
    MulStrict(v, Pow2(8 * |b|), Pow2(k));
    SymbolsValue(v * Pow2(k), n);
    assert 5 * n % 8 == k && 5 * n / 8 == |b|;
    DivUnique(v * Pow2(k), Pow2(k), v, 0);
    BytesInjective(decoded, b);
  }

  lemma MulStrict(a: nat, b: nat, c: nat)
    requires a < b && c > 0
    ensures a * c < b * c
  {
  }
}
