/** What _service_blocks of deploy/harden-legacy-redis.py refuses before it looks for services: files that
    are too large, use carriage returns or NULs, or include and merge other definitions. */
module ComposeLimits {
  import opened Text
  import opened Lines
  import opened Compose

  const MAX_COMPOSE_BYTES := 512 * 1024

  /** The bytes of a character in UTF-8. */
  function Width(c: char): nat {
    if c as int < 0x80 then 1 else if c as int < 0x800 then 2 else if c as int < 0x1_0000 then 3 else 4
  }

  /** `len(text.encode("utf-8"))` */
  function Utf8Size(text: string): nat {
    if text == "" then 0 else Utf8Size(text[..|text| - 1]) + Width(text[|text| - 1])
  }

  lemma {:induction false} Utf8Concat(a: string, b: string)
    ensures Utf8Size(a + b) == Utf8Size(a) + Utf8Size(b)
  {
    if b == "" {
      assert a + b == a;
    } else {
      Utf8Concat(a, b[..|b| - 1]);
      assert (a + b)[..|a + b| - 1] == a + b[..|b| - 1];
    }
  }

  /** No control character that the reader refuses, and no include, name, extends or merge key at the
      beginning. */
  predicate SafeLine(line: string) {
    && NoControl(line)
    && !StartsWith(line, "include:") && !StartsWith(line, "name:")
    && !StartsWith(line, "    extends:") && !StartsWith(line, "    <<:")
  }

  predicate NoControl(s: string) { forall i :: 0 <= i < |s| ==> s[i] != '\r' && s[i] != 0 as char }

  predicate SafeLines(lines: seq<string>) { forall i :: 0 <= i < |lines| ==> SafeLine(lines[i]) }

  /** _service_blocks: None where it raises. */
  function Scan(text: string): Option<seq<Entry>> {
    if Utf8Size(text) > MAX_COMPOSE_BYTES || !SafeLines(SplitLines(text)) then None else ServiceBlocks(text)
  }

  /** The size of the file with `put` in place of service `k`. */
  function NewSize(text: string, k: nat, put: string): int
    requires ServiceBlocks(text).Some? && k < |ServiceBlocks(text).value|
  {
    Utf8Size(text) - Utf8Size(ServiceBlocks(text).value[k].body) + Utf8Size(put)
  }

  lemma SafeConcat(a: seq<string>, b: seq<string>)
    ensures SafeLines(a + b) <==> SafeLines(a) && SafeLines(b)
  {
    hide SafeLine;
    if SafeLines(a + b) {
      forall i | 0 <= i < |a|
        ensures SafeLine(a[i])
      {
        assert (a + b)[i] == a[i];
      }
      forall i | 0 <= i < |b|
        ensures SafeLine(b[i])
      {
        assert (a + b)[|a| + i] == b[i];
      }
    }
  }

  /** The refusals look at the lines of the result as they looked at those of the file. */
  lemma StillSafe(lines: seq<string>, d: Doc, k: nat, put: seq<string>)
    requires k < |d.blocks| && SafeLines(Unparse(d)) && SafeLines(put)
    requires Read(lines) == Some(WithBlock(d, k, put))
    ensures SafeLines(lines)
  {
    hide *;
    LinesOf(lines, WithBlock(d, k, put));
    WithBlockLines(d, k, put);
    SafeConcat(Before(d, k) + d.blocks[k], Behind(d, k));
    SafeConcat(Before(d, k), d.blocks[k]);
    SafeConcat(Before(d, k) + put, Behind(d, k));
    SafeConcat(Before(d, k), put);
  }

  lemma LinesOf(lines: seq<string>, d: Doc)
    requires Read(lines) == Some(d)
    ensures Unparse(d) == lines
  {
    hide Read;
    ReadIsSound(lines);
  }

  lemma ReadingIsUnparsed(text: string, d: Doc)
    requires Reads(text, d)
    ensures Unparse(d) == SplitLines(text) && ServiceBlocks(text) == Some(Entries(d.blocks, FirstOffset(d)))
  {
    hide Unparse, SplitLines, Entries, FirstOffset, ServiceBlocks, Read;
  }

  lemma ThreeSizes(a: string, b: string, c: string, put: string)
    ensures Utf8Size(a + put + c) == Utf8Size(a + b + c) - Utf8Size(b) + Utf8Size(put)
  {
    hide Utf8Size;
    Utf8Concat(a + put, c);
    Utf8Concat(a, put);
    Utf8Concat(a + b, c);
    Utf8Concat(a, b);
  }

  lemma ReplacedSize(text: string, k: nat, put: string)
    requires ServiceBlocks(text).Some? && k < |ServiceBlocks(text).value|
    requires var e := ServiceBlocks(text).value[k]; e.start <= e.end <= |text| && text[e.start..e.end] == e.body
    ensures Utf8Size(Replaced(text, k, put)) == NewSize(text, k, put)
  {
    hide Utf8Size, ServiceBlocks;
    var e := ServiceBlocks(text).value[k];
    assert text == text[..e.start] + e.body + text[e.end..];
    ThreeSizes(text[..e.start], e.body, text[e.end..], put);
  }

  /** The scanner accepts the result of the replacement exactly if the file has room for it, and then
      finds the old services with one new text, as ReplacementCommutes says. */
  lemma ScanCommutes(text: string, k: nat, put: seq<string>)
    requires Scan(text).Some? && k < |Scan(text).value|
    requires IsBlock(put) && AreLines(put) && EndsLine(put[|put| - 1]) && SafeLines(put)
    requires NameOf(put) == Scan(text).value[k].name
    ensures Scan(text) == ServiceBlocks(text)
    ensures var out := Replaced(text, k, Join(put));
            && Scan(out) == (if NewSize(text, k, Join(put)) <= MAX_COMPOSE_BYTES then ServiceBlocks(out) else None)
            && ServiceBlocks(out).Some?
  {
    hide Utf8Size, SafeLines, SplitLines, ServiceBlocks, Join, IsBlock, AreLines, EndsLine, NameOf, Read, Reads, WithBlock, Replaced,
         NewSize;
    ReplacementCommutes(text, k, put);
    ReplacedSize(text, k, Join(put));
    var d := ReadingOf(text);
    ReadingIsUnparsed(text, d);
    NameAt(text, d, k);
    ReplacedText(text, d, k, put);
    StillSafe(SplitLines(Replaced(text, k, Join(put))), d, k, put);
  }
}
