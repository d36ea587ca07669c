/** The text edits of rewrite_direct_v1 are edits of the block tree. */
module NginxCommute {
  import opened Text
  import opened NginxLexer
  import opened NginxEvents
  import opened NginxOffsets
  import opened NginxTree
  import opened NginxParser
  import opened NginxParserTree
  import opened NginxLists
  import opened NginxTreeEdit
  import opened NginxRules
  import opened NginxSplice
  import opened NginxSnippets
  import opened NginxRewrite

  /* ---------------------------------------------------------------- the removals */

  /** Text edits and event edits of the same places, all before text position `hi`, the first at the
      start of an event numbered `lo` or later. */
  ghost predicate EditsFit(text: string, marks: seq<Mark>, es: seq<Edit<char>>, xs: seq<Edit<Event>>, lo: nat, hi: nat) {
    && |es| == |xs| && hi <= |text| && Ascending(es, hi)
    && (forall i :: 0 <= i < |es| ==> Matches(text, es[i], xs[i]))
    && (forall i :: 0 <= i < |es| ==> es[i].end <= |text| && Blank(At(text, es[i].end).pending))
    && (es != [] ==> FirstAfter(marks, es[0].start, lo))
  }

  /** Text position `p` lies behind every removable block closed before event `lo`. */
  ghost predicate FirstAfter(marks: seq<Mark>, p: nat, lo: nat) {
    exists k :: lo <= k < |marks| && marks[k].OpenAt? && (p == marks[k].start || p == marks[k].at + 1)
  }

  lemma {:induction false} PrependEdit(text: string, marks: seq<Mark>, e: Edit<char>, x: Edit<Event>,
                                       es: seq<Edit<char>>, xs: seq<Edit<Event>>, lo: nat, mid: nat, hi: nat)
    requires EditsFit(text, marks, es, xs, mid, hi)
    requires Matches(text, e, x) && e.start <= e.end <= |text| && Blank(At(text, e.end).pending)
    requires e.end <= StartOr(es, 0, hi)
    requires FirstAfter(marks, e.start, lo)
    ensures EditsFit(text, marks, [e] + es, [x] + xs, lo, hi)
  {
    hide Matches, At, Blank, FirstAfter, Ascending;
    AscendingCons(e, es, hi);
  }

  lemma AscendingCons(e: Edit<char>, es: seq<Edit<char>>, hi: nat)
    requires Ascending(es, hi) && e.start <= e.end <= StartOr(es, 0, hi)
    ensures Ascending([e] + es, hi)
  {
    var fs := [e] + es;
    forall i | 0 <= i < |fs|
      ensures fs[i].start <= fs[i].end <= StartOr(fs, i + 1, hi)
    {
      assert StartOr(fs, i + 1, hi) == StartOr(es, i, hi);
      if i > 0 {
        assert fs[i] == es[i - 1];
      }
    }
  }

  lemma LowerFirst(text: string, marks: seq<Mark>, es: seq<Edit<char>>, xs: seq<Edit<Event>>, lo: nat, mid: nat, hi: nat)
    requires EditsFit(text, marks, es, xs, mid, hi) && lo <= mid
    ensures EditsFit(text, marks, es, xs, lo, hi)
  {
    hide Matches, At, Blank, Ascending;
  }

  /** The removal of one block cuts the text at clean places. */
  lemma RemovalMatches(text: string, marks: seq<Mark>, header: string, kids: Forest, base: nat, parent: int)
    requires AllPlaced(text, marks) && base + 1 + Size(kids) < |marks|
    requires marks[base].OpenAt? && marks[base + 1 + Size(kids)].CloseAt?
    ensures var e := RemovalOf(text, RecAt(header, kids, marks, base, parent));
            && Matches(text, e, Edit(base, base + 2 + Size(kids), []))
            && e.start == marks[base].start && e.start <= e.end <= |text|
            && e.end == EndOf(text, marks, base + 1 + Size(kids))
            && Blank(At(text, e.end).pending)
  {
    hide Run, Blank, BlockEnd, IsSpace, Trim, Strip, After;
    var c := base + 1 + Size(kids);
    var r := RecAt(header, kids, marks, base, parent);
    assert Placed(text, marks, base) && Placed(text, marks, c);
    MarksAscend(text, marks, base, c);
    BlockEndIsClean(text, marks, c);
    var e := RemovalOf(text, r);
    assert e == Edit(marks[base].start, BlockEnd(text, marks[c].at), "");
    RunNothing(Machine(Code, At(text, e.start).pending, []));
  }

  function EndOf(text: string, marks: seq<Mark>, c: nat): nat {
    if c < |marks| && marks[c].at < |text| then BlockEnd(text, marks[c].at) else |text|
  }

  lemma EndBeforeLater(text: string, marks: seq<Mark>, c: nat, p: nat, lo: nat)
    requires AllPlaced(text, marks) && c < lo && c < |marks| && marks[c].CloseAt?
    requires FirstAfter(marks, p, lo)
    ensures EndOf(text, marks, c) <= p
  {
    hide BlockEnd, StartPlaced, At;
    var k :| lo <= k < |marks| && marks[k].OpenAt? && (p == marks[k].start || p == marks[k].at + 1);
    assert Placed(text, marks, c);
    BlockEndBeforeNext(text, marks, c, k);
  }

  predicate DropsRemoved(text: string, blocks: seq<BlockRec>, drop: set<nat>) {
    forall i :: 0 <= i < |blocks| ==> (blocks[i].id in drop <==> RemovedBlock(text, blocks[i]) == Ok(true))
  }

  lemma {:induction false} RemovalsFit(text: string, marks: seq<Mark>, f: Forest, base: nat, parent: int,
                                       e: nat, es: seq<Edit<char>>, drop: set<nat>)
    requires AllPlaced(text, marks) && Fits(f, EventsOf(marks), base) && base + Size(f) <= e < |marks|
    requires marks[e].at <= |text|
    requires Removals(text, TopBlocks(f, marks, base, parent)) == Ok(es)
    requires DropsRemoved(text, TopBlocks(f, marks, base, parent), drop)
    ensures EditsFit(text, marks, es, PruneEdits(f, base, drop), base, marks[e].at)
    decreases f
  {
    hide Fits, RecAt, RemovalOf, Matches, At, Blank, EndOf, EditsFit, RemovedBlock, Placed, FirstAfter, AllPlaced, EventsOf, Flatten;
    match f
    case End =>
      hide Removals, DropsRemoved;
      NoEditsFit(text, marks, base, marks[e].at);
      NoRemovals(text, es);
    case Directive(text', rest) =>
      hide Removals, DropsRemoved;
      FitsDirective(text', rest, EventsOf(marks), base);
      RemovalsFit(text, marks, rest, base + 1, parent, e, es, drop);
      LowerFirst(text, marks, es, PruneEdits(f, base, drop), base, base + 1, marks[e].at);
    case Block(header, kids, rest) =>
      hide Removals, DropsRemoved;
      var n := base + 2 + Size(kids);
      var blocks := TopBlocks(rest, marks, n, parent);
      FitsBlock(header, kids, rest, EventsOf(marks), base);
      RemovalsUnfold(text, RecAt(header, kids, marks, base, parent), blocks);
      DropsTail(text, RecAt(header, kids, marks, base, parent), blocks, drop);
      var es' := Removals(text, blocks).value;
      RemovalsFit(text, marks, rest, n, parent, e, es', drop);
      RecParent(header, kids, marks, base, parent);
      if base in drop {
        RemovalsStep(text, marks, header, kids, base, parent, e, es', PruneEdits(rest, n, drop));
      } else {
        LowerFirst(text, marks, es', PruneEdits(rest, n, drop), base, n, marks[e].at);
      }
  }

  lemma NoRemovals(text: string, es: seq<Edit<char>>)
    ensures Removals(text, []) == Ok(es) ==> es == []
  {
  }

  lemma RemovalsStep(text: string, marks: seq<Mark>, header: string, kids: Forest, base: nat, parent: int,
                     e: nat, es: seq<Edit<char>>, xs: seq<Edit<Event>>)
    requires AllPlaced(text, marks) && base + 1 + Size(kids) < e < |marks| && marks[e].at <= |text|
    requires EventOf(marks[base]) == Open(header) && EventOf(marks[base + 1 + Size(kids)]) == Close
    requires EditsFit(text, marks, es, xs, base + 2 + Size(kids), marks[e].at)
    ensures EditsFit(text, marks, [RemovalOf(text, RecAt(header, kids, marks, base, parent))] + es,
                     [Edit(base, base + 2 + Size(kids), [])] + xs, base, marks[e].at)
  {
    hide Fits, RecAt, RemovalOf, Matches, At, Blank, EndOf, EditsFit, RemovedBlock, Placed, FirstAfter;
    var n := base + 2 + Size(kids);
    RemovalMatches(text, marks, header, kids, base, parent);
    EndBeforeTail(text, marks, n - 1, es, xs, n, e);
    StartIsFirst(marks, base);
    PrependEdit(text, marks, RemovalOf(text, RecAt(header, kids, marks, base, parent)), Edit(base, n, []),
                es, xs, base, n, marks[e].at);
  }

  lemma StartIsFirst(marks: seq<Mark>, base: nat)
    requires base < |marks| && marks[base].OpenAt?
    ensures FirstAfter(marks, marks[base].start, base) && FirstAfter(marks, marks[base].at + 1, base)
  {
  }

  lemma NoEditsFit(text: string, marks: seq<Mark>, lo: nat, hi: nat)
    requires hi <= |text|
    ensures EditsFit(text, marks, [], [], lo, hi)
  {
  }

  lemma RemovalsUnfold(text: string, r: BlockRec, blocks: seq<BlockRec>)
    requires Removals(text, [r] + blocks).Ok?
    ensures Removals(text, blocks).Ok? && RemovedBlock(text, r).Ok?
    ensures Removals(text, [r] + blocks).value
         == (if RemovedBlock(text, r).value then [RemovalOf(text, r)] + Removals(text, blocks).value
             else Removals(text, blocks).value)
  {
    assert ([r] + blocks)[1..] == blocks;
    assert [] + Removals(text, blocks).value == Removals(text, blocks).value;
  }

  lemma DropsTail(text: string, r: BlockRec, blocks: seq<BlockRec>, drop: set<nat>)
    requires DropsRemoved(text, [r] + blocks, drop)
    ensures DropsRemoved(text, blocks, drop) && (r.id in drop <==> RemovedBlock(text, r) == Ok(true))
  {
    hide RemovedBlock;
    assert ([r] + blocks)[0] == r;
    assert forall i :: 0 <= i < |blocks| ==> ([r] + blocks)[i + 1] == blocks[i];
  }

  lemma EndBeforeTail(text: string, marks: seq<Mark>, c: nat, es: seq<Edit<char>>, xs: seq<Edit<Event>>, lo: nat, e: nat)
    requires AllPlaced(text, marks) && c < lo <= e < |marks| && marks[c].CloseAt? && marks[e].at <= |text|
    requires EditsFit(text, marks, es, xs, lo, marks[e].at)
    ensures EndOf(text, marks, c) <= StartOr(es, 0, marks[e].at)
  {
    hide BlockEnd, StartPlaced, At, Matches, Blank, FirstAfter;
    if es != [] {
      EndBeforeLater(text, marks, c, es[0].start, lo);
    } else {
      assert Placed(text, marks, c);
      BlockEndBeforeNext(text, marks, c, e);
    }
  }
}
