/** _service_blocks and transform_compose of deploy/harden-legacy-redis.py as loops over lines. */
module ComposeScanner {
  import opened Text
  import opened Lines
  import opened Compose
  import opened ComposeLimits

  /** Two services sections make the file unreadable. */
  lemma TwoSections(lines: seq<string>, i: nat, j: nat)
    requires i < j < |lines| && NoServices(lines[..i]) && KindOf(lines[i]) == Services && KindOf(lines[j]) == Services
    ensures Read(lines).None?
  {
    hide KindOf;
    ServicesFound(lines[..i], lines[i], lines[i + 1..]);
    assert lines == lines[..i] + ([lines[i]] + lines[i + 1..]);
    assert lines[i + 1..][j - i - 1] == lines[j];
  }

  lemma NoSection(lines: seq<string>)
    requires NoServices(lines)
    ensures Read(lines).None?
  {
    hide KindOf;
    ServicesAtSound(lines);
  }

  lemma MoreLines(lines: seq<string>, i: nat)
    requires i < |lines|
    ensures NoServices(lines[..i + 1]) <==> NoServices(lines[..i]) && KindOf(lines[i]) != Services
  {
    hide KindOf;
    assert lines[..i + 1] == lines[..i] + [lines[i]];
    if NoServices(lines[..i + 1]) {
      assert lines[..i + 1][i] == lines[i];
      assert forall k :: 0 <= k < i ==> lines[..i][k] == lines[..i + 1][k];
    }
  }

  /** The one services line; None when there is none or a second one. */
  method FindServices(lines: seq<string>) returns (found: Option<nat>)
    ensures found.Some? ==> found.value < |lines| && KindOf(lines[found.value]) == Services
                            && NoServices(lines[..found.value]) && NoServices(lines[found.value + 1..])
    ensures found.None? ==> Read(lines).None?
  {
    hide KindOf, NoServices, Read;
    found := None;
    EmptyHasNoServices(lines);
    for index := 0 to |lines|
      invariant found.None? ==> NoServices(lines[..index])
      invariant found.Some? ==> found.value < index && KindOf(lines[found.value]) == Services
                                && NoServices(lines[..found.value]) && NoServices(lines[found.value + 1..index])
    {
      if Bare(lines[index]) == "services:" {
        BareServices(lines[index]);
        if found.Some? {
          TwoSections(lines, found.value, index);
          return None;
        }
        found := Some(index);
        EmptyHasNoServices(lines[index + 1..]);
        assert lines[index + 1..index + 1] == lines[index + 1..][..0];
      } else {
        BareServices(lines[index]);
        if found.None? {
          MoreLines(lines, index);
        } else {
          var f := found.value;
          MoreLines(lines[f + 1..], index - f - 1);
          assert lines[f + 1..][..index - f - 1] == lines[f + 1..index];
          assert lines[f + 1..][..index - f] == lines[f + 1..index + 1];
        }
      }
    }
    if found.None? {
      assert lines[..|lines|] == lines;
      NoSection(lines);
    } else {
      assert lines[found.value + 1..|lines|] == lines[found.value + 1..];
    }
  }

  lemma BareServices(line: string)
    ensures KindOf(line) == Services <==> Bare(line) == "services:"
  {
  }

  lemma EmptyHasNoServices(lines: seq<string>)
    ensures NoServices(lines[..0])
  {
  }

  /** The first top-level key behind the services line, or the end of the file. */
  method FindEnd(lines: seq<string>, servicesIndex: nat) returns (end: nat)
    requires servicesIndex < |lines| && NoServices(lines[servicesIndex + 1..])
    ensures servicesIndex < end <= |lines|
    ensures forall i :: servicesIndex < i < end ==> KindOf(lines[i]) == Other || KindOf(lines[i]).Service?
    ensures end < |lines| ==> KindOf(lines[end]) == TopLevel
  {
    hide KindOf;
    end := |lines|;
    for index := servicesIndex + 1 to |lines|
      invariant forall i :: servicesIndex < i < index ==> KindOf(lines[i]) == Other || KindOf(lines[i]).Service?
    {
      assert KindOf(lines[index]) != Services by {
        assert lines[servicesIndex + 1..][index - servicesIndex - 1] == lines[index];
      }
      BareTopLevel(lines[index]);
      if IsTopLevel(Bare(lines[index])) {
        return index;
      }
    }
  }

  lemma BareTopLevel(line: string)
    requires KindOf(line) != Services
    ensures IsTopLevel(Bare(line)) <==> KindOf(line) == TopLevel
    ensures KindOf(line) != TopLevel ==>
              KindOf(line) == if ServiceName(Bare(line)) != "" then Service(ServiceName(Bare(line))) else Other
  {
  }

  /** Line `at` begins block `k` of `blocks`, which stand behind `first` lines. */
  ghost predicate StartsBlock(blocks: seq<seq<string>>, first: nat, start: (nat, string), k: nat)
    requires k < |blocks|
  {
    start.0 == first + |Flatten(blocks[..k])| && start.1 == NameOf(blocks[k])
  }

  /** The lines from `from` up to `index`, cut into blocks that begin at `starts`. */
  ghost predicate Cut(lines: seq<string>, from: nat, index: nat, starts: seq<(nat, string)>,
                      lead: seq<string>, blocks: seq<seq<string>>)
  {
    && from <= index <= |lines|
    && lines[from..index] == lead + Flatten(blocks) && Others(lead) && AreBlocks(blocks) && |starts| == |blocks|
    && forall k :: 0 <= k < |starts| ==> StartsBlock(blocks, from + |lead|, starts[k], k)
  }

  /** The service lines of a region, with ghost copies of what stands before and between them. */
  method FindStarts(lines: seq<string>, from: nat, end: nat)
    returns (starts: seq<(nat, string)>, ghost lead: seq<string>, ghost blocks: seq<seq<string>>)
    requires from <= end <= |lines|
    requires forall i :: from <= i < end ==> KindOf(lines[i]) == Other || KindOf(lines[i]).Service?
    ensures Cut(lines, from, end, starts, lead, blocks)
  {
    hide KindOf, Cut;
    starts, lead, blocks := [], [], [];
    NothingCut(lines, from);
    for index := from to end
      invariant Cut(lines, from, index, starts, lead, blocks)
    {
      var line := lines[index];
      var name := ServiceName(Bare(line));
      BareTopLevel(line);
      if name != "" {
        CutBlock(lines, from, index, starts, lead, blocks);
        starts, blocks := starts + [(index, name)], blocks + [[line]];
      } else if |starts| == 0 {
        CutLead(lines, from, index, starts, lead, blocks);
        lead := lead + [line];
      } else {
        CutInside(lines, from, index, starts, lead, blocks);
        blocks := blocks[|blocks| - 1 := blocks[|blocks| - 1] + [line]];
      }
    }
  }

  lemma NothingCut(lines: seq<string>, from: nat)
    requires from <= |lines|
    ensures Cut(lines, from, from, [], [], [])
  {
    NothingYet();
  }

  lemma CutBlock(lines: seq<string>, from: nat, index: nat, starts: seq<(nat, string)>, lead: seq<string>, blocks: seq<seq<string>>)
    requires Cut(lines, from, index, starts, lead, blocks) && index < |lines| && KindOf(lines[index]).Service?
    ensures Cut(lines, from, index + 1, starts + [(index, KindOf(lines[index]).name)], lead, blocks + [[lines[index]]])
  {
    hide KindOf, Flatten, Others, AreBlocks, StartsBlock;
    var line := lines[index];
    assert lines[from..index + 1] == lines[from..index] + [line];
    NewBlock(lead, blocks, line);
    KeepStarts(blocks, blocks + [[line]], from + |lead|, starts);
    LastStart(lead, blocks, from, index, line);
  }

  lemma CutLead(lines: seq<string>, from: nat, index: nat, starts: seq<(nat, string)>, lead: seq<string>, blocks: seq<seq<string>>)
    requires Cut(lines, from, index, starts, lead, blocks) && index < |lines| && KindOf(lines[index]) == Other && starts == []
    ensures Cut(lines, from, index + 1, starts, lead + [lines[index]], blocks)
  {
    hide KindOf, Flatten, Others, AreBlocks, StartsBlock;
    var line := lines[index];
    assert lines[from..index + 1] == lines[from..index] + [line];
    MoreLead(lead, blocks, line);
  }

  lemma CutInside(lines: seq<string>, from: nat, index: nat, starts: seq<(nat, string)>, lead: seq<string>, blocks: seq<seq<string>>)
    requires Cut(lines, from, index, starts, lead, blocks) && index < |lines| && KindOf(lines[index]) == Other && starts != []
    ensures |blocks| == |starts|
    ensures Cut(lines, from, index + 1, starts, lead, blocks[|blocks| - 1 := blocks[|blocks| - 1] + [lines[index]]])
  {
    hide KindOf, Flatten, Others, AreBlocks, StartsBlock;
    var line := lines[index];
    assert lines[from..index + 1] == lines[from..index] + [line];
    LongerBlock(lead, blocks, line);
    LongerStarts(blocks, line, from + |lead|, starts);
  }

  lemma NothingYet()
    ensures [] + Flatten([]) == [] && Others([]) && AreBlocks([])
  {
  }

  lemma NewBlock(lead: seq<string>, blocks: seq<seq<string>>, line: string)
    requires AreBlocks(blocks) && KindOf(line).Service?
    ensures AreBlocks(blocks + [[line]])
    ensures lead + Flatten(blocks + [[line]]) == (lead + Flatten(blocks)) + [line]
  {
    hide KindOf;
    FlattenSnoc(blocks, [line]);
    assert Others([line][1..]) && IsBlock([line]);
  }

  lemma MoreLead(lead: seq<string>, blocks: seq<seq<string>>, line: string)
    requires blocks == [] && Others(lead) && KindOf(line) == Other
    ensures Others(lead + [line]) && (lead + [line]) + Flatten(blocks) == (lead + Flatten(blocks)) + [line]
  {
    hide KindOf;
  }

  lemma LongerBlock(lead: seq<string>, blocks: seq<seq<string>>, line: string)
    requires blocks != [] && AreBlocks(blocks) && KindOf(line) == Other
    ensures var last := |blocks| - 1;
            var more := blocks[last := blocks[last] + [line]];
            AreBlocks(more) && lead + Flatten(more) == (lead + Flatten(blocks)) + [line]
  {
    hide KindOf, Flatten;
    var last := |blocks| - 1;
    var b := blocks[last];
    assert IsBlock(b);
    assert (b + [line])[1..] == b[1..] + [line] && (b + [line])[0] == b[0];
    assert IsBlock(b + [line]);
    assert blocks == blocks[..last] + [b];
    assert blocks[last := b + [line]] == blocks[..last] + [b + [line]];
    FlattenSnoc(blocks[..last], b);
    FlattenSnoc(blocks[..last], b + [line]);
  }

  lemma KeepStarts(blocks: seq<seq<string>>, more: seq<seq<string>>, first: nat, starts: seq<(nat, string)>)
    requires blocks <= more && |starts| == |blocks|
    requires forall k :: 0 <= k < |starts| ==> StartsBlock(blocks, first, starts[k], k)
    ensures forall k :: 0 <= k < |starts| ==> StartsBlock(more, first, starts[k], k)
  {
    forall k | 0 <= k < |starts|
      ensures StartsBlock(more, first, starts[k], k)
    {
      assert StartsBlock(blocks, first, starts[k], k);
      assert more[..k] == blocks[..k];
    }
  }

  lemma LastStart(lead: seq<string>, blocks: seq<seq<string>>, from: nat, index: nat, line: string)
    requires index == from + |lead + Flatten(blocks)| && KindOf(line).Service?
    ensures StartsBlock(blocks + [[line]], from + |lead|, (index, KindOf(line).name), |blocks|)
  {
    hide KindOf;
    assert (blocks + [[line]])[..|blocks|] == blocks;
  }

  lemma LongerStarts(blocks: seq<seq<string>>, line: string, first: nat, starts: seq<(nat, string)>)
    requires blocks != [] && AreBlocks(blocks) && |starts| == |blocks|
    requires forall k :: 0 <= k < |starts| ==> StartsBlock(blocks, first, starts[k], k)
    ensures var last := |blocks| - 1;
            forall k :: 0 <= k < |starts| ==> StartsBlock(blocks[last := blocks[last] + [line]], first, starts[k], k)
  {
    hide KindOf, Flatten;
    var last := |blocks| - 1;
    var more := blocks[last := blocks[last] + [line]];
    forall k | 0 <= k < |starts|
      ensures StartsBlock(more, first, starts[k], k)
    {
      assert StartsBlock(blocks, first, starts[k], k);
      assert more[..k] == blocks[..k];
      assert IsBlock(blocks[k]);
      assert k == last ==> more[k][0] == blocks[k][0];
    }
  }

  /* ---------------------------------------------------------------- the scanner */

  lemma TheDocument(lines: seq<string>, k: nat, end: nat, starts: seq<(nat, string)>, lead: seq<string>, blocks: seq<seq<string>>)
    returns (d: Doc)
    requires k < end <= |lines| && KindOf(lines[k]) == Services && NoServices(lines[..k]) && NoServices(lines[k + 1..])
    requires Cut(lines, k + 1, end, starts, lead, blocks)
    requires end < |lines| ==> KindOf(lines[end]) == TopLevel
    ensures d == Doc(lines[..k], lines[k], lead, blocks, lines[end..])
    ensures Read(lines) == Some(d)
  {
    hide KindOf, Flatten, Others, AreBlocks, StartsBlock;
    d := Doc(lines[..k], lines[k], lead, blocks, lines[end..]);
    var rest := lines[k + 1..];
    assert rest == lines[k + 1..end] + lines[end..];
    assert rest[end - k - 1..] == lines[end..];
    PostHasNoServices(rest, end - k - 1, [], lines[end..]) by { assert [] + lines[end..] == lines[end..]; }
    assert lines == lines[..k] + ([lines[k]] + rest);
    assert (lead + Flatten(blocks)) + lines[end..] == lead + (Flatten(blocks) + lines[end..]);
    ReadUnparse(d);
  }

  /** Offsets of the lines in the text. */
  method LineOffsets(lines: seq<string>) returns (offsets: seq<nat>)
    ensures |offsets| == |lines| && forall i :: 0 <= i < |lines| ==> offsets[i] == |Join(lines[..i])|
  {
    hide Join;
    offsets := [];
    var current := 0;
    JoinNothing(lines);
    for i := 0 to |lines|
      invariant |offsets| == i && current == |Join(lines[..i])|
      invariant forall j :: 0 <= j < i ==> offsets[j] == |Join(lines[..j])|
    {
      offsets := offsets + [current];
      current := current + |lines[i]|;
      assert lines[..i + 1] == lines[..i] + [lines[i]];
      JoinConcat(lines[..i], [lines[i]]);
      JoinOne(lines[i]);
    }
  }

  lemma JoinNothing(lines: seq<string>)
    ensures Join(lines[..0]) == ""
  {
  }

  lemma JoinOne(line: string)
    ensures Join([line]) == line
  {
    assert [line][1..] == [];
    assert line + "" == line;
  }

  /** The lines of block `k`, by position. */
  lemma BlockLines(lines: seq<string>, d: Doc, first: nat, starts: seq<(nat, string)>, end: nat, k: nat)
    requires Cut(lines, first, end, starts, d.lead, d.blocks) && k < |starts|
    requires Unparse(d) == lines && first == |d.pre| + 1
    ensures var next := if k + 1 < |starts| then starts[k + 1].0 else end;
            && starts[k].0 <= next <= |lines| && lines[starts[k].0..next] == d.blocks[k]
            && |Join(lines[..starts[k].0])| == OffsetOf(d.blocks, FirstOffset(d), k)
            && starts[k].1 == NameOf(d.blocks[k])
  {
    hide KindOf, Flatten, Others, AreBlocks, Join, OffsetOf, FirstOffset;
    BlockPosition(d, k);
    var before := d.pre + ([d.services] + (d.lead + Flatten(d.blocks[..k])));
    assert StartsBlock(d.blocks, first + |d.lead|, starts[k], k);
    assert starts[k].0 == |before|;
    assert d.blocks[..k + 1] == d.blocks[..k] + [d.blocks[k]];
    FlattenSnoc(d.blocks[..k], d.blocks[k]);
    if k + 1 < |starts| {
      assert StartsBlock(d.blocks, first + |d.lead|, starts[k + 1], k + 1);
    } else {
      assert d.blocks[..k + 1] == d.blocks;
      assert |lines[first..end]| == end - first;
    }
    assert lines == before + d.blocks[k] + (Flatten(d.blocks[k + 1..]) + d.post);
    assert lines[..|before|] == before;
  }

  /** _service_blocks */
  method ScanServices(text: string) returns (r: Option<seq<Entry>>)
    ensures r == Scan(text)
  {
    if Utf8Size(text) > MAX_COMPOSE_BYTES || !SafeLines(SplitLines(text)) {
      return None;
    }
    r := ScanSections(text);
  }

  /** The part of _service_blocks behind its refusals. */
  method ScanSections(text: string) returns (r: Option<seq<Entry>>)
    ensures r == ServiceBlocks(text)
  {
    hide KindOf, Cut, Read, Entries, NoServices, Join, SplitLines, OffsetOf, FirstOffset, NameOf, DistinctNames, Unparse;
    var lines := SplitLines(text);
    JoinSplit(text);
    var found := FindServices(lines);
    if found.None? {
      NotScanned(text);
      return None;
    }
    var k := found.value;
    var end := FindEnd(lines, k);
    var starts: seq<(nat, string)>;
    ghost var lead: seq<string>, blocks: seq<seq<string>>;
    starts, lead, blocks := FindStarts(lines, k + 1, end);
    ghost var d := TheDocument(lines, k, end, starts, lead, blocks);
    UnparseOf(lines, d);
    CutSize(lines, k + 1, end, starts, lead, blocks);
    if starts == [] {
      NotScanned(text);
      return None;
    }
    var offsets := LineOffsets(lines);
    var result: seq<Entry> := [];
    for position := 0 to |starts|
      invariant result == Entries(blocks, FirstOffset(d))[..position]
      invariant forall i, j :: 0 <= i < j < position ==> starts[i].1 != starts[j].1
    {
      var (start, name) := starts[position];
      var next := if position + 1 < |starts| then starts[position + 1].0 else end;
      BlockLines(lines, d, k + 1, starts, end, position);
      EntryAt(blocks, FirstOffset(d), position);
      AllNames(lines, d, k + 1, starts, end);
      if exists i | 0 <= i < position :: starts[i].1 == name {
        NotDistinct(text, d, starts, position);
        return None;
      }
      EntryEnd(lines, start, next);
      var body := Join(lines[start..next]);
      var startOffset := if start < |offsets| then offsets[start] else |text|;
      var endOffset := if next < |offsets| then offsets[next] else |text|;
      result := result + [Entry(name, startOffset, endOffset, body)];
    }
    AllNames(lines, d, k + 1, starts, end);
    AreDistinct(d, starts);
    assert Entries(blocks, FirstOffset(d))[..|starts|] == Entries(blocks, FirstOffset(d));
    ServiceBlocksFrom(text, d);
    return Some(result);
  }

  lemma UnparseOf(lines: seq<string>, d: Doc)
    requires Read(lines) == Some(d)
    ensures Unparse(d) == lines
  {
    hide Read;
    ReadIsSound(lines);
  }

  lemma CutSize(lines: seq<string>, from: nat, end: nat, starts: seq<(nat, string)>, lead: seq<string>, blocks: seq<seq<string>>)
    requires Cut(lines, from, end, starts, lead, blocks)
    ensures |starts| == |blocks|
  {
  }

  lemma NotScanned(text: string)
    requires Read(SplitLines(text)).None? || Read(SplitLines(text)).value.blocks == []
    ensures ServiceBlocks(text).None?
  {
  }

  lemma AllNames(lines: seq<string>, d: Doc, first: nat, starts: seq<(nat, string)>, end: nat)
    requires Cut(lines, first, end, starts, d.lead, d.blocks)
    ensures |starts| == |d.blocks| && forall k :: 0 <= k < |starts| ==> starts[k].1 == NameOf(d.blocks[k])
  {
    hide KindOf, Flatten, NameOf, AreBlocks, Others;
    forall k | 0 <= k < |starts|
      ensures starts[k].1 == NameOf(d.blocks[k])
    {
      assert StartsBlock(d.blocks, first + |d.lead|, starts[k], k);
    }
  }

  lemma NotDistinct(text: string, d: Doc, starts: seq<(nat, string)>, position: nat)
    requires Read(SplitLines(text)) == Some(d) && position < |starts| == |d.blocks|
    requires forall k :: 0 <= k < |starts| ==> starts[k].1 == NameOf(d.blocks[k])
    requires exists i :: 0 <= i < position && starts[i].1 == starts[position].1
    ensures ServiceBlocks(text).None?
  {
    hide Read, NameOf, SplitLines;
    var i :| 0 <= i < position && starts[i].1 == starts[position].1;
    assert NameOf(d.blocks[i]) == NameOf(d.blocks[position]);
  }

  lemma AreDistinct(d: Doc, starts: seq<(nat, string)>)
    requires |starts| == |d.blocks| && forall k :: 0 <= k < |starts| ==> starts[k].1 == NameOf(d.blocks[k])
    requires forall i, j :: 0 <= i < j < |starts| ==> starts[i].1 != starts[j].1
    ensures DistinctNames(d)
  {
    hide NameOf;
    forall i, j | 0 <= i < j < |d.blocks|
      ensures NameOf(d.blocks[i]) != NameOf(d.blocks[j])
    {
      assert starts[i].1 != starts[j].1;
    }
  }

  lemma EntryEnd(lines: seq<string>, start: nat, next: nat)
    requires start <= next <= |lines|
    ensures |Join(lines[..next])| == |Join(lines[..start])| + |Join(lines[start..next])|
    ensures next == |lines| ==> lines[..next] == lines
  {
    assert lines[..next] == lines[..start] + lines[start..next];
    JoinConcat(lines[..start], lines[start..next]);
  }
}
