/** The service scanner of deploy/harden-legacy-redis.py and the in-place replacement of one service. */
module Compose {
  import opened Text
  import opened Lines

  /* ---------------------------------------------------------------- kinds of lines */

  predicate IsLetter(c: char) { 'A' <= c <= 'Z' || 'a' <= c <= 'z' }

  predicate IsNameStart(c: char) { IsLetter(c) || '0' <= c <= '9' }

  predicate IsNameChar(c: char) { IsNameStart(c) || c == '_' || c == '.' || c == '-' }

  /** `:[ \t]*(?:#.*)?$` */
  predicate IsKeyTail(s: string) {
    s != "" && s[0] == ':' && IsBlankOrComment(s[1..])
  }

  predicate IsBlankOrComment(s: string) {
    s == "" || s[0] == '#' || ((s[0] == ' ' || s[0] == '\t') && IsBlankOrComment(s[1..]))
  }

  /** The length of the longest run of name characters. */
  function NameLength(s: string): (n: nat)
    ensures n <= |s|
  {
    if s == "" || !IsNameChar(s[0]) then 0 else 1 + NameLength(s[1..])
  }

  /** TOP_LEVEL_KEY_RE */
  predicate IsTopLevel(line: string) {
    line != "" && IsLetter(line[0]) && IsKeyTail(line[NameLength(line)..])
  }

  /** SERVICE_RE: the service name, "" for any other line. */
  function ServiceName(line: string): string {
    if |line| < 3 || line[0] != ' ' || line[1] != ' ' || !IsNameStart(line[2]) then ""
    else
      var n := NameLength(line[2..]);
      if IsKeyTail(line[2 + n..]) then line[2..2 + n] else ""
  }

  datatype Kind = Services | TopLevel | Service(name: string) | Other

  function KindOf(line: string): Kind {
    var current := Bare(line);
    if current == "services:" then Services
    else if IsTopLevel(current) then TopLevel
    else if ServiceName(current) != "" then Service(ServiceName(current))
    else Other
  }

  lemma IndentedIsOther(line: string)
    requires |line| >= 4 && line[0] == ' ' && line[1] == ' ' && line[2] == ' '
    ensures KindOf(line) == Other
  {
  }

  /* ---------------------------------------------------------------- the document */

  /** A file cut at the lines that matter; a block is the service line with what follows it. */
  datatype Doc = Doc(pre: seq<string>, services: string, lead: seq<string>, blocks: seq<seq<string>>, post: seq<string>)

  function Flatten(blocks: seq<seq<string>>): seq<string> {
    if blocks == [] then [] else blocks[0] + Flatten(blocks[1..])
  }

  function Unparse(d: Doc): seq<string> { d.pre + ([d.services] + (d.lead + (Flatten(d.blocks) + d.post))) }

  predicate NoServices(lines: seq<string>) { forall i :: 0 <= i < |lines| ==> KindOf(lines[i]) != Services }

  predicate Others(lines: seq<string>) { forall i :: 0 <= i < |lines| ==> KindOf(lines[i]) == Other }

  predicate IsBlock(lines: seq<string>) { lines != [] && KindOf(lines[0]).Service? && Others(lines[1..]) }

  predicate AreBlocks(blocks: seq<seq<string>>) { forall i :: 0 <= i < |blocks| ==> IsBlock(blocks[i]) }

  /** The scanner's view of a file with exactly one services section. */
  predicate WellFormed(d: Doc) {
    && NoServices(d.pre) && KindOf(d.services) == Services && Others(d.lead) && AreBlocks(d.blocks)
    && (d.post != [] ==> KindOf(d.post[0]) == TopLevel) && NoServices(d.post)
  }

  function NameOf(block: seq<string>): string {
    if block != [] && KindOf(block[0]).Service? then KindOf(block[0]).name else ""
  }

  predicate DistinctNames(d: Doc) {
    forall i, j :: 0 <= i < j < |d.blocks| ==> NameOf(d.blocks[i]) != NameOf(d.blocks[j])
  }

  /* ---------------------------------------------------------------- reading */

  /** How many lines at the front are of no special kind. */
  function OtherCount(lines: seq<string>): (n: nat)
    ensures n <= |lines|
  {
    if lines == [] || KindOf(lines[0]) != Other then 0 else 1 + OtherCount(lines[1..])
  }

  function ReadBlocks(lines: seq<string>): (seq<seq<string>>, seq<string>)
    decreases |lines|
  {
    if lines == [] || !KindOf(lines[0]).Service? then ([], lines)
    else
      var n := 1 + OtherCount(lines[1..]);
      var (more, rest) := ReadBlocks(lines[n..]);
      ([lines[..n]] + more, rest)
  }

  function ServicesAt(lines: seq<string>): (i: nat)
    ensures i <= |lines|
  {
    if lines == [] || KindOf(lines[0]) == Services then 0 else 1 + ServicesAt(lines[1..])
  }

  /** The reading of a file; None unless there is exactly one services section. */
  function Read(lines: seq<string>): Option<Doc> {
    var i := ServicesAt(lines);
    if i == |lines| || !NoServices(lines[i + 1..]) then None
    else
      var rest := lines[i + 1..];
      var n := OtherCount(rest);
      var (blocks, post) := ReadBlocks(rest[n..]);
      Some(Doc(lines[..i], lines[i], rest[..n], blocks, post))
  }

  lemma {:induction false} OthersCounted(a: seq<string>, x: seq<string>)
    requires Others(a) && (x == [] || KindOf(x[0]) != Other)
    ensures OtherCount(a + x) == |a|
  {
    hide KindOf;
    if a == [] {
      assert a + x == x;
    } else {
      assert (a + x)[1..] == a[1..] + x;
      OthersCounted(a[1..], x);
    }
  }

  predicate Stops(lines: seq<string>) { lines == [] || KindOf(lines[0]) == TopLevel }

  lemma BlocksStop(blocks: seq<seq<string>>, x: seq<string>)
    requires AreBlocks(blocks) && Stops(x)
    ensures var r := Flatten(blocks) + x; r == [] || KindOf(r[0]) != Other
  {
    hide KindOf;
    if blocks != [] {
      assert (Flatten(blocks) + x)[0] == blocks[0][0];
    } else {
      assert Flatten(blocks) + x == x;
    }
  }

  lemma {:induction false} BlocksRead(blocks: seq<seq<string>>, x: seq<string>)
    requires AreBlocks(blocks) && Stops(x)
    ensures ReadBlocks(Flatten(blocks) + x) == (blocks, x)
    decreases |blocks|
  {
    hide KindOf;
    if blocks == [] {
      assert Flatten(blocks) + x == x;
    } else {
      var b, r := blocks[0], Flatten(blocks[1..]) + x;
      assert blocks == [b] + blocks[1..];
      FlattenCons(b, blocks[1..], x);
      BlocksStop(blocks[1..], x);
      BlocksRead(blocks[1..], x);
      hide AreBlocks, Flatten;
      FirstBlockRead(b, r);
    }
  }

  lemma FirstBlockRead(b: seq<string>, r: seq<string>)
    requires IsBlock(b) && (r == [] || KindOf(r[0]) != Other)
    ensures ReadBlocks(b + r) == ([b] + ReadBlocks(r).0, ReadBlocks(r).1)
  {
    hide KindOf;
    var all := b + r;
    assert all[0] == b[0] && all[1..] == b[1..] + r;
    OthersCounted(b[1..], r);
    assert all[..|b|] == b && all[|b|..] == r;
  }

  lemma {:induction false} ServicesFound(pre: seq<string>, s: string, rest: seq<string>)
    requires NoServices(pre) && KindOf(s) == Services
    ensures ServicesAt(pre + ([s] + rest)) == |pre|
  {
    hide KindOf;
    var all := pre + ([s] + rest);
    if pre != [] {
      assert all[1..] == pre[1..] + ([s] + rest);
      ServicesFound(pre[1..], s, rest);
    }
  }

  lemma NoServicesConcat(a: seq<string>, b: seq<string>)
    requires NoServices(a) && NoServices(b)
    ensures NoServices(a + b)
  {
    hide KindOf;
  }

  lemma {:induction false} BlocksHaveNoServices(blocks: seq<seq<string>>)
    requires AreBlocks(blocks)
    ensures NoServices(Flatten(blocks))
  {
    hide KindOf;
    if blocks != [] {
      BlocksHaveNoServices(blocks[1..]);
      assert NoServices(blocks[0]) by {
        forall i | 0 <= i < |blocks[0]|
          ensures KindOf(blocks[0][i]) != Services
        {
          if i > 0 {
            assert blocks[0][i] == blocks[0][1..][i - 1];
          }
        }
      }
      NoServicesConcat(blocks[0], Flatten(blocks[1..]));
    }
  }

  /** A well-formed document is read back from its lines, so no file has two readings. */
  lemma ReadUnparse(d: Doc)
    requires WellFormed(d)
    ensures Read(Unparse(d)) == Some(d)
  {
    hide KindOf, Flatten;
    var tail := Flatten(d.blocks) + d.post;
    var rest := d.lead + tail;
    var lines := Unparse(d);
    ServicesFound(d.pre, d.services, rest);
    BlocksHaveNoServices(d.blocks);
    NoServicesConcat(Flatten(d.blocks), d.post);
    NoServicesConcat(d.lead, tail);
    BlocksStop(d.blocks, d.post);
    OthersCounted(d.lead, tail);
    BlocksRead(d.blocks, d.post);
    assert lines[|d.pre|] == d.services && lines[..|d.pre|] == d.pre;
    assert lines[|d.pre| + 1..] == rest;
    assert rest[..|d.lead|] == d.lead && rest[|d.lead|..] == tail;
  }

  lemma {:induction false} CountedOthers(lines: seq<string>)
    ensures Others(lines[..OtherCount(lines)])
    ensures OtherCount(lines) < |lines| ==> KindOf(lines[OtherCount(lines)]) != Other
  {
    hide KindOf;
    if lines != [] && KindOf(lines[0]) == Other {
      CountedOthers(lines[1..]);
      var n := OtherCount(lines);
      assert lines[..n] == [lines[0]] + lines[1..][..n - 1];
    }
  }

  lemma {:induction false} ReadBlocksSound(lines: seq<string>)
    requires lines == [] || KindOf(lines[0]) != Other
    ensures var (blocks, rest) := ReadBlocks(lines);
            AreBlocks(blocks) && Flatten(blocks) + rest == lines && (rest != [] ==> !KindOf(rest[0]).Service? && KindOf(rest[0]) != Other)
    decreases |lines|
  {
    hide KindOf;
    if lines != [] && KindOf(lines[0]).Service? {
      var n := 1 + OtherCount(lines[1..]);
      FirstIsBlock(lines);
      ReadBlocksSound(lines[n..]);
      var (more, rest) := ReadBlocks(lines[n..]);
      FlattenCons(lines[..n], more, rest);
      assert lines[..n] + lines[n..] == lines;
      BlocksCons(lines[..n], more);
    } else {
      assert Flatten([]) + lines == lines;
    }
  }

  lemma FirstIsBlock(lines: seq<string>)
    requires lines != [] && KindOf(lines[0]).Service?
    ensures var n := 1 + OtherCount(lines[1..]);
            IsBlock(lines[..n]) && (n < |lines| ==> KindOf(lines[n]) != Other)
  {
    hide KindOf;
    var n := 1 + OtherCount(lines[1..]);
    CountedOthers(lines[1..]);
    assert lines[..n][1..] == lines[1..][..n - 1];
    assert n < |lines| ==> lines[n] == lines[1..][n - 1];
  }

  lemma BlocksCons(b: seq<string>, more: seq<seq<string>>)
    requires IsBlock(b) && AreBlocks(more)
    ensures AreBlocks([b] + more)
  {
    hide IsBlock;
  }

  lemma FlattenCons(b: seq<string>, more: seq<seq<string>>, rest: seq<string>)
    ensures Flatten([b] + more) + rest == b + (Flatten(more) + rest)
  {
    assert ([b] + more)[1..] == more;
  }

  lemma {:induction false} ServicesAtSound(lines: seq<string>)
    ensures NoServices(lines[..ServicesAt(lines)])
    ensures ServicesAt(lines) < |lines| ==> KindOf(lines[ServicesAt(lines)]) == Services
  {
    hide KindOf;
    if lines != [] && KindOf(lines[0]) != Services {
      ServicesAtSound(lines[1..]);
      var n := ServicesAt(lines);
      assert lines[..n] == [lines[0]] + lines[1..][..n - 1];
    }
  }

  /** What stands behind the services line. */
  lemma RestIsSound(rest: seq<string>)
    requires NoServices(rest)
    ensures var n := OtherCount(rest);
            var (blocks, post) := ReadBlocks(rest[n..]);
            && Others(rest[..n]) && AreBlocks(blocks) && NoServices(post)
            && (post != [] ==> KindOf(post[0]) == TopLevel)
            && rest == rest[..n] + (Flatten(blocks) + post)
  {
    hide KindOf, Flatten, AreBlocks, Others, ReadBlocks, OtherCount;
    var n := OtherCount(rest);
    var (blocks, post) := ReadBlocks(rest[n..]);
    CountedOthers(rest);
    ReadBlocksSound(rest[n..]);
    PostHasNoServices(rest, n, Flatten(blocks), post);
    assert post != [] ==> KindOf(post[0]) != Services;
  }

  lemma ReadIsSound(lines: seq<string>)
    requires Read(lines).Some?
    ensures WellFormed(Read(lines).value) && Unparse(Read(lines).value) == lines
  {
    hide KindOf, Flatten, AreBlocks, Others, NoServices, ServicesAt, ReadBlocks, OtherCount;
    var i := ServicesAt(lines);
    ServicesAtSound(lines);
    RestIsSound(lines[i + 1..]);
    assert lines == lines[..i] + ([lines[i]] + lines[i + 1..]);
  }

  lemma PostHasNoServices(rest: seq<string>, n: nat, middle: seq<string>, post: seq<string>)
    requires NoServices(rest) && n <= |rest| && rest[n..] == middle + post
    ensures NoServices(post)
  {
    hide KindOf;
    forall i | 0 <= i < |post|
      ensures KindOf(post[i]) != Services
    {
      assert post[i] == rest[n..][|middle| + i] == rest[n + |middle| + i];
    }
  }

  /** A file is refused here exactly when it has no or several services sections. */
  lemma ReadIff(lines: seq<string>)
    ensures Read(lines).Some?
       <==> exists i :: 0 <= i < |lines| && KindOf(lines[i]) == Services && NoServices(lines[..i]) && NoServices(lines[i + 1..])
  {
    hide KindOf, NoServices;
    ServicesAtSound(lines);
    if i :| 0 <= i < |lines| && KindOf(lines[i]) == Services && NoServices(lines[..i]) && NoServices(lines[i + 1..]) {
      ServicesFound(lines[..i], lines[i], lines[i + 1..]);
      assert lines == lines[..i] + ([lines[i]] + lines[i + 1..]);
    }
  }

  /* ---------------------------------------------------------------- _service_blocks */

  /** Name, offsets and text of one service block. */
  datatype Entry = Entry(name: string, start: nat, end: nat, body: string)

  function Entries(blocks: seq<seq<string>>, offset: nat): (r: seq<Entry>)
    ensures |r| == |blocks|
  {
    if blocks == [] then []
    else
      var body := Join(blocks[0]);
      [Entry(NameOf(blocks[0]), offset, offset + |body|, body)] + Entries(blocks[1..], offset + |body|)
  }

  function FirstOffset(d: Doc): nat { |Join(d.pre + ([d.services] + d.lead))| }

  /** _service_blocks: None where it raises. */
  function ServiceBlocks(text: string): Option<seq<Entry>> {
    var d := Read(SplitLines(text));
    if d.None? || d.value.blocks == [] || !DistinctNames(d.value) then None
    else Some(Entries(d.value.blocks, FirstOffset(d.value)))
  }

  lemma {:induction false} FlattenConcat(a: seq<seq<string>>, b: seq<seq<string>>)
    ensures Flatten(a + b) == Flatten(a) + Flatten(b)
  {
    if a == [] {
      assert a + b == b;
    } else {
      assert (a + b)[1..] == a[1..] + b;
      FlattenConcat(a[1..], b);
    }
  }

  lemma FlattenSnoc(a: seq<seq<string>>, b: seq<string>)
    ensures Flatten(a + [b]) == Flatten(a) + b
  {
    FlattenConcat(a, [b]);
    assert [b][1..] == [];
    assert Flatten([b]) == b;
  }

  function EntryOf(block: seq<string>, start: nat): Entry {
    Entry(NameOf(block), start, start + |Join(block)|, Join(block))
  }

  /** Where block `k` of a list starts. */
  function OffsetOf(blocks: seq<seq<string>>, offset: nat, k: nat): nat
    requires k <= |blocks|
  {
    offset + |Join(Flatten(blocks[..k]))|
  }

  lemma OffsetNext(blocks: seq<seq<string>>, offset: nat, k: nat)
    requires 0 < k <= |blocks|
    ensures OffsetOf(blocks, offset, k) == OffsetOf(blocks[1..], offset + |Join(blocks[0])|, k - 1)
  {
    hide Join;
    var rest := blocks[1..][..k - 1];
    assert blocks[..k] == [blocks[0]] + rest;
    assert ([blocks[0]] + rest)[1..] == rest;
    JoinConcat(blocks[0], Flatten(rest));
  }

  lemma {:induction false} EntryAt(blocks: seq<seq<string>>, offset: nat, k: nat)
    requires k < |blocks|
    ensures Entries(blocks, offset)[k] == EntryOf(blocks[k], OffsetOf(blocks, offset, k))
    decreases k
  {
    hide Join, NameOf, OffsetOf;
    if k == 0 {
      OffsetStart(blocks, offset);
    } else {
      EntryAt(blocks[1..], offset + |Join(blocks[0])|, k - 1);
      OffsetNext(blocks, offset, k);
    }
  }

  lemma OffsetStart(blocks: seq<seq<string>>, offset: nat)
    ensures OffsetOf(blocks, offset, 0) == offset
  {
    assert blocks[..0] == [];
  }

  /** Where the lines of block `k` stand, and where they stand in the text. */
  lemma BlockPosition(d: Doc, k: nat)
    requires k < |d.blocks|
    ensures var before := d.pre + ([d.services] + (d.lead + Flatten(d.blocks[..k])));
            var after := Flatten(d.blocks[k + 1..]) + d.post;
            && Unparse(d) == before + d.blocks[k] + after
            && |Join(before)| == OffsetOf(d.blocks, FirstOffset(d), k)
  {
    assert d.blocks == (d.blocks[..k] + [d.blocks[k]]) + d.blocks[k + 1..];
    FlattenConcat(d.blocks[..k] + [d.blocks[k]], d.blocks[k + 1..]);
    FlattenSnoc(d.blocks[..k], d.blocks[k]);
    Regroup(d.pre, [d.services], d.lead, Flatten(d.blocks[..k]), d.blocks[k], Flatten(d.blocks[k + 1..]), d.post);
    assert d.pre + ([d.services] + (d.lead + Flatten(d.blocks[..k]))) == (d.pre + ([d.services] + d.lead)) + Flatten(d.blocks[..k]);
    JoinConcat(d.pre + ([d.services] + d.lead), Flatten(d.blocks[..k]));
  }

  lemma Regroup<T>(a: seq<T>, b: seq<T>, c: seq<T>, x: seq<T>, y: seq<T>, z: seq<T>, e: seq<T>)
    ensures a + (b + (c + (((x + y) + z) + e))) == (a + (b + (c + x))) + y + (z + e)
  {
  }

  /* ---------------------------------------------------------------- the replacement */

  function Before(d: Doc, k: nat): seq<string>
    requires k < |d.blocks|
  {
    d.pre + ([d.services] + (d.lead + Flatten(d.blocks[..k])))
  }

  function Behind(d: Doc, k: nat): seq<string>
    requires k < |d.blocks|
  {
    Flatten(d.blocks[k + 1..]) + d.post
  }

  function WithBlock(d: Doc, k: nat, put: seq<string>): Doc
    requires k < |d.blocks|
  {
    d.(blocks := d.blocks[k := put])
  }

  lemma WithBlockLines(d: Doc, k: nat, put: seq<string>)
    requires k < |d.blocks|
    ensures Unparse(d) == Before(d, k) + d.blocks[k] + Behind(d, k)
    ensures Unparse(WithBlock(d, k, put)) == Before(d, k) + put + Behind(d, k)
    ensures |Join(Before(d, k))| == OffsetOf(d.blocks, FirstOffset(d), k)
  {
    hide Flatten, Join, OffsetOf, FirstOffset, Unparse;
    BlockPosition(d, k);
    SameAround(d, k, put);
    BlockPosition(WithBlock(d, k, put), k);
  }

  lemma StillWellFormed(d: Doc, k: nat, put: seq<string>)
    requires WellFormed(d) && k < |d.blocks| && IsBlock(put)
    ensures WellFormed(WithBlock(d, k, put))
  {
    hide KindOf, IsBlock, NoServices, Others;
  }

  /** Another text for block `k` is read as the document with that block replaced. */
  lemma ReplacedIsRead(d: Doc, k: nat, put: seq<string>)
    requires WellFormed(d) && AreLines(Unparse(d)) && k < |d.blocks|
    requires IsBlock(put) && AreLines(put) && EndsLine(put[|put| - 1])
    ensures Read(SplitLines(Join(Before(d, k)) + Join(put) + Join(Behind(d, k)))) == Some(WithBlock(d, k, put))
  {
    hide KindOf, Flatten, IsLine, EndsLine, Read, Before, Behind, WithBlock, WellFormed, IsBlock, AreLines, Join, SplitLines, Unparse;
    var e := WithBlock(d, k, put);
    WithBlockLines(d, k, put);
    NotEmptyBlock(put);
    NotEmptyBlock(d.blocks[k]) by { BlockOf(d, k); }
    ReplaceLines(Before(d, k), d.blocks[k], Behind(d, k), put);
    SplitJoin(Unparse(e));
    StillWellFormed(d, k, put);
    ReadUnparse(e);
    JoinThree(Before(d, k), put, Behind(d, k));
  }

  lemma NotEmptyBlock(b: seq<string>)
    requires IsBlock(b)
    ensures b != []
  {
  }

  lemma BlockOf(d: Doc, k: nat)
    requires WellFormed(d) && k < |d.blocks|
    ensures IsBlock(d.blocks[k])
  {
  }

  lemma SameAround(d: Doc, k: nat, put: seq<string>)
    requires k < |d.blocks|
    ensures var blocks := d.blocks[k := put];
            blocks[..k] == d.blocks[..k] && blocks[k + 1..] == d.blocks[k + 1..] && blocks[k] == put
  {
  }

  lemma JoinThree(a: seq<string>, b: seq<string>, c: seq<string>)
    ensures var text := Join(a + b + c);
            && |Join(a)| + |Join(b)| <= |text|
            && text == Join(a) + Join(b) + Join(c)
            && text[..|Join(a)|] == Join(a) && text[|Join(a)| + |Join(b)|..] == Join(c)
  {
    JoinConcat(a + b, c);
    JoinConcat(a, b);
  }

  /** Entry `i` after block `k` is replaced: the same before it, moved by one constant behind it. */
  function Shifted(e: Entry, delta: int): Entry
    requires e.start + delta >= 0 && e.end + delta >= 0
  {
    e.(start := e.start + delta, end := e.end + delta)
  }

  /** Offsets behind block `k` move by the difference of the two block texts. */
  lemma OffsetMoves(blocks: seq<seq<string>>, offset: nat, k: nat, put: seq<string>, i: nat)
    requires k < i <= |blocks|
    ensures OffsetOf(blocks[k := put], offset, i) == OffsetOf(blocks, offset, i) + |Join(put)| - |Join(blocks[k])|
    ensures OffsetOf(blocks, offset, i) >= |Join(blocks[k])|
  {
    var a, b, c := blocks[..k], blocks[k], blocks[k + 1..i];
    assert blocks[..i] == (a + [b]) + c;
    assert blocks[k := put][..i] == (a + [put]) + c;
    hide Join, Flatten;
    LengthOfThree(a, b, c);
    LengthOfThree(a, put, c);
  }

  lemma LengthOfThree(a: seq<seq<string>>, b: seq<string>, c: seq<seq<string>>)
    ensures |Join(Flatten((a + [b]) + c))| == |Join(Flatten(a))| + |Join(b)| + |Join(Flatten(c))|
  {
    hide Join, Flatten;
    FlattenConcat(a + [b], c);
    FlattenSnoc(a, b);
    JoinConcat(Flatten(a) + b, Flatten(c));
    JoinConcat(Flatten(a), b);
  }

  /** One entry after block `k` has been replaced. */
  lemma EntryReplaced(blocks: seq<seq<string>>, offset: nat, k: nat, put: seq<string>, i: nat)
    requires k < |blocks| && i < |blocks| && NameOf(put) == NameOf(blocks[k])
    ensures var was, now := Entries(blocks, offset)[i], Entries(blocks[k := put], offset)[i];
            var delta := |Join(put)| - |Join(blocks[k])|;
            if i < k then now == was
            else if i == k then now == Entry(was.name, was.start, was.start + |Join(put)|, Join(put))
            else was.start + delta >= 0 && was.end + delta >= 0 && now == Shifted(was, delta)
  {
    hide Join, Flatten, Entries, NameOf, OffsetOf;
    var now := blocks[k := put];
    EntryAt(blocks, offset, i);
    EntryAt(now, offset, i);
    if i <= k {
      SameOffset(blocks, now, offset, i);
    } else {
      OffsetMoves(blocks, offset, k, put, i);
    }
  }

  lemma SameOffset(a: seq<seq<string>>, b: seq<seq<string>>, offset: nat, i: nat)
    requires i <= |a| && i <= |b| && a[..i] == b[..i]
    ensures OffsetOf(a, offset, i) == OffsetOf(b, offset, i)
  {
  }

  /** `compose_text[:redis_start] + hardened + compose_text[redis_end:]` */
  function Replaced(text: string, k: nat, put: string): string
    requires ServiceBlocks(text).Some? && k < |ServiceBlocks(text).value|
  {
    var e := ServiceBlocks(text).value[k];
    if e.start <= e.end <= |text| then text[..e.start] + put + text[e.end..] else text
  }

  /** Scanning the result of the replacement gives the old services in the old order: the replaced one
      with the new text, every other one byte for byte, and everything behind it moved by one constant. */
  lemma ReplacementCommutes(text: string, k: nat, put: seq<string>)
    requires ServiceBlocks(text).Some? && k < |ServiceBlocks(text).value|
    requires IsBlock(put) && AreLines(put) && EndsLine(put[|put| - 1])
    requires NameOf(put) == ServiceBlocks(text).value[k].name
    ensures var was, e := ServiceBlocks(text).value, ServiceBlocks(text).value[k];
            var out := Replaced(text, k, Join(put));
            var delta := |Join(put)| - |e.body|;
            && e.start <= e.end <= |text| && text[e.start..e.end] == e.body
            && out[..e.start] == text[..e.start] && out[e.start + |Join(put)|..] == text[e.end..]
            && ServiceBlocks(out).Some? && |ServiceBlocks(out).value| == |was|
            && forall i :: 0 <= i < |was| ==> EntryAfter(was[i], ServiceBlocks(out).value[i], i, k, put, delta)
  {
    hide *;
    var d := ReadingOf(text);
    NameAt(text, d, k);
    ReplacedText(text, d, k, put);
    ReplacedEntries(d, k, put);
    ServiceBlocksFrom(Replaced(text, k, Join(put)), WithBlock(d, k, put));
  }

  /** `d` is what the scanner reads in `text`. */
  ghost predicate Reads(text: string, d: Doc) {
    && Read(SplitLines(text)) == Some(d) && WellFormed(d)
    && Unparse(d) == SplitLines(text) && Join(Unparse(d)) == text && AreLines(Unparse(d))
    && d.blocks != [] && DistinctNames(d)
    && ServiceBlocks(text) == Some(Entries(d.blocks, FirstOffset(d)))
  }

  lemma ReadingOf(text: string) returns (d: Doc)
    requires ServiceBlocks(text).Some?
    ensures Reads(text, d)
  {
    hide Read, WellFormed, Unparse, Entries, FirstOffset, SplitLines, Join, DistinctNames, AreLines;
    JoinSplit(text);
    ReadIsSound(SplitLines(text));
    d := Read(SplitLines(text)).value;
  }

  lemma ServiceBlocksFrom(text: string, d: Doc)
    requires Read(SplitLines(text)) == Some(d) && d.blocks != [] && DistinctNames(d)
    ensures ServiceBlocks(text) == Some(Entries(d.blocks, FirstOffset(d)))
  {
    hide Read, Entries, FirstOffset, SplitLines, DistinctNames;
  }

  lemma NameAt(text: string, d: Doc, k: nat)
    requires ServiceBlocks(text).Some? && Reads(text, d) && k < |ServiceBlocks(text).value|
    ensures |ServiceBlocks(text).value| == |d.blocks| && DistinctNames(d)
    ensures ServiceBlocks(text).value[k].name == NameOf(d.blocks[k])
    ensures ServiceBlocks(text).value[k].body == Join(d.blocks[k])
    ensures ServiceBlocks(text).value == Entries(d.blocks, FirstOffset(d))
  {
    hide Read, WellFormed, Unparse, Entries, FirstOffset, SplitLines, Join, DistinctNames, AreLines, ServiceBlocks, NameOf, OffsetOf;
    EntryAt(d.blocks, FirstOffset(d), k);
  }

  lemma ReplacedText(text: string, d: Doc, k: nat, put: seq<string>)
    requires Reads(text, d) && k < |d.blocks|
    requires IsBlock(put) && AreLines(put) && EndsLine(put[|put| - 1])
    ensures ServiceBlocks(text).Some? && k < |ServiceBlocks(text).value|
    ensures var e := ServiceBlocks(text).value[k];
            var out := Replaced(text, k, Join(put));
            && e.start <= e.end <= |text| && text[e.start..e.end] == e.body
            && e.start + |Join(put)| <= |out|
            && out[..e.start] == text[..e.start] && out[e.start + |Join(put)|..] == text[e.end..]
            && Read(SplitLines(out)) == Some(WithBlock(d, k, put))
  {
    hide Read, WellFormed, Unparse, Entries, FirstOffset, SplitLines, Join, DistinctNames, AreLines, ServiceBlocks, NameOf,
         OffsetOf, Before, Behind, WithBlock, IsBlock, EndsLine, Flatten;
    EntryAt(d.blocks, FirstOffset(d), k);
    WithBlockLines(d, k, put);
    JoinThree(Before(d, k), d.blocks[k], Behind(d, k));
    JoinThree(Before(d, k), put, Behind(d, k));
    ReplacedIsRead(d, k, put);
    Around(Join(Before(d, k)), Join(d.blocks[k]), Join(Behind(d, k)), Join(put));
  }

  lemma Around<T>(a: seq<T>, b: seq<T>, c: seq<T>, put: seq<T>)
    ensures var s := a + b + c;
            && s[|a|..|a| + |b|] == b && s[..|a|] == a && s[|a| + |b|..] == c
            && (a + put + c)[..|a|] == a && (a + put + c)[|a| + |put|..] == c
  {
  }

  lemma ReplacedEntries(d: Doc, k: nat, put: seq<string>)
    requires k < |d.blocks| && NameOf(put) == NameOf(d.blocks[k]) && DistinctNames(d)
    ensures var e := WithBlock(d, k, put);
            var was, now := Entries(d.blocks, FirstOffset(d)), Entries(e.blocks, FirstOffset(e));
            && e.blocks != [] && DistinctNames(e) && |was| == |now| == |d.blocks|
            && forall i :: 0 <= i < |was| ==> EntryAfter(was[i], now[i], i, k, put, |Join(put)| - |Join(d.blocks[k])|)
  {
    hide Entries, Join, NameOf, FirstOffset, Flatten;
    StillDistinct(d, k, put);
    forall i | 0 <= i < |d.blocks|
      ensures EntryAfter(Entries(d.blocks, FirstOffset(d))[i], Entries(WithBlock(d, k, put).blocks, FirstOffset(d))[i], i, k, put,
                         |Join(put)| - |Join(d.blocks[k])|)
    {
      EntryReplaced(d.blocks, FirstOffset(d), k, put, i);
    }
  }

  /** How entry `i` looks after entry `k` is replaced. */
  predicate EntryAfter(was: Entry, now: Entry, i: nat, k: nat, put: seq<string>, delta: int) {
    if i < k then now == was
    else if i == k then now == Entry(was.name, was.start, was.start + |Join(put)|, Join(put))
    else was.start + delta >= 0 && was.end + delta >= 0 && now == Shifted(was, delta)
  }

  lemma StillDistinct(d: Doc, k: nat, put: seq<string>)
    requires k < |d.blocks| && NameOf(put) == NameOf(d.blocks[k]) && DistinctNames(d)
    ensures DistinctNames(d.(blocks := d.blocks[k := put])) && FirstOffset(d.(blocks := d.blocks[k := put])) == FirstOffset(d)
  {
  }
}
