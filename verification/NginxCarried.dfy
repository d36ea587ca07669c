/** What the stages carry to the output: the raw text of the inserted location, and a clean closing brace. */
module NginxCarried {
  import opened Text
  import opened NginxLexer
  import opened NginxEvents
  import opened NginxOffsets
  import opened NginxTree
  import opened NginxParser
  import opened NginxParserTree
  import opened NginxLists
  import opened NginxTreeEdit
  import opened NginxRules
  import opened NginxSplice
  import opened NginxSnippets
  import opened NginxRewrite
  import opened NginxCommute
  import opened NginxStages
  import opened NginxGates
  import opened NginxTheorem
  import opened NginxShift
  import opened NginxKept
  import opened NginxSecond
  import opened NginxInserted

  /** Block `id` is the inserted location, letter by letter. */
  ghost predicate RawAt(text: string, id: int) {
    exists p, q :: BlockAt(text, id, id + 1 + Size(LEAVES), p, q) && Body(text, p, q) == DIRECT_RAW
  }

  /** Event `k` has nothing unfinished before it. */
  ghost predicate CleanAt(text: string, k: int) { exists p :: CleanEvent(text, k, p) }

  ghost predicate Carries(text: string, id: int) { RawAt(text, id) && CleanAt(text, id + 2 + Size(LEAVES)) }

  /* ---------------------------------------------------------------- sizes */

  lemma {:induction false} TotalConcat<T>(a: seq<Edit<T>>, b: seq<Edit<T>>)
    ensures TotalDelta(a + b) == TotalDelta(a) + TotalDelta(b)
  {
    if a == [] {
      assert a + b == b;
    } else {
      assert (a + b)[1..] == a[1..] + b;
      TotalConcat(a[1..], b);
    }
  }

  lemma TotalOne<T>(e: Edit<T>)
    ensures TotalDelta([e]) == Delta(e)
  {
    assert [e][1..] == [];
  }

  lemma {:induction false} PruneDelta(f: Forest, base: nat, drop: set<nat>)
    ensures Size(f) + TotalDelta(PruneEdits(f, base, drop)) == Size(Prune(f, base, drop))
    ensures AllBefore(PruneEdits(f, base, drop), base + Size(f))
    decreases f
  {
    hide TotalDelta, AllBefore;
    match f
    case End => NoDelta(base);
    case Directive(_, rest) => PruneDelta(rest, base + 1, drop);
    case Block(_, kids, rest) =>
      var m := base + 2 + Size(kids);
      PruneDelta(rest, m, drop);
      DeltaCons(Edit(base, m, []), PruneEdits(rest, m, drop), m + Size(rest));
  }

  lemma {:induction false} GateDelta(f: Forest, base: nat, gate: string)
    ensures Size(f) + TotalDelta(GateEdits(f, base, gate)) == Size(Gate(f, gate))
    ensures AllBefore(GateEdits(f, base, gate), base + Size(f))
    decreases f
  {
    hide NeedsGate, Texts, TotalDelta, AllBefore;
    match f
    case End => NoDelta(base);
    case Directive(_, rest) => GateDelta(rest, base + 1, gate);
    case Block(header, kids, rest) =>
      var m := base + 2 + Size(kids);
      GateDelta(rest, m, gate);
      hide GateEdits, Gate, Size;
      GateBlock(header, kids, rest, base, gate);
      DeltaCons(Edit(base + 1, base + 1, [Statement(gate)]), GateEdits(rest, m, gate), m + Size(rest));
  }

  lemma NoDelta(k: int)
    ensures TotalDelta<Event>([]) == 0 && AllBefore([], k)
  {
  }

  lemma DeltaCons(e: Edit<Event>, xs: seq<Edit<Event>>, k: int)
    ensures TotalDelta([e] + xs) == Delta(e) + TotalDelta(xs)
    ensures e.end <= k && AllBefore(xs, k) ==> AllBefore([e] + xs, k)
  {
    TotalConcat([e], xs);
    TotalOne(e);
  }

  lemma {:induction false} GateEditsAppend(f: Forest, g: Forest, base: nat, gate: string)
    ensures GateEdits(Append(f, g), base, gate) == GateEdits(f, base, gate) + GateEdits(g, base + Size(f), gate)
    decreases f
  {
    hide NeedsGate, Texts;
    match f
    case End =>
    case Directive(_, rest) => GateEditsAppend(rest, g, base + 1, gate);
    case Block(header, kids, rest) =>
      GateEditsAppend(rest, g, base + 2 + Size(kids), gate);
      hide GateEdits;
      GateBlockAppend(header, kids, rest, g, base, gate);
  }

  lemma GateBlockAppend(header: string, kids: Forest, rest: Forest, g: Forest, base: nat, gate: string)
    requires var m := base + 2 + Size(kids);
             GateEdits(Append(rest, g), m, gate) == GateEdits(rest, m, gate) + GateEdits(g, m + Size(rest), gate)
    ensures var f := Block(header, kids, rest);
            GateEdits(Append(f, g), base, gate) == GateEdits(f, base, gate) + GateEdits(g, base + Size(f), gate)
  {
    hide NeedsGate, Texts, GateEdits, Gate, Size;
    GateBlock(header, kids, rest, base, gate);
    GateBlock(header, kids, Append(rest, g), base, gate);
    assert Append(Block(header, kids, rest), g) == Block(header, kids, Append(rest, g));
    hide Append;
    var m := base + 2 + Size(kids);
    var x: seq<Edit<Event>> := if NeedsGate(header, Texts(kids)) == Ok(true) then [Edit(base + 1, base + 1, [Statement(gate)])] else [];
    Associate(x, GateEdits(rest, m, gate), GateEdits(g, m + Size(rest), gate));
  }

  lemma Associate<T>(a: seq<T>, b: seq<T>, c: seq<T>)
    ensures (a + b) + c == a + (b + c)
  {
  }

  lemma DirectHasNoEdit(base: nat)
    ensures GateEdits(DIRECT_TREE, base, GATE_TEXT) == []
    ensures DIRECT_TREE == Block(DIRECT_NAME, LEAVES, End) && Size(DIRECT_TREE) == 2 + Size(LEAVES)
  {
    hide NeedsGate, Texts, LeafTexts, DIRECT_LINES;
    DirectNeedsNoGate();
    DirectIsSafe();
  }

  /* ---------------------------------------------------------------- the stages */

  lemma BeforeIsAround(xs: seq<Edit<Event>>, i: int, j: int)
    requires AllBefore(xs, i)
    ensures Around(xs, |xs|, i, j) && xs[..|xs|] == xs
  {
  }

  /** Edits before the inserted location move it, and the closing brace behind it. */
  lemma CarriedBehind(text: string, es: seq<Edit<char>>, xs: seq<Edit<Event>>, id: int)
    requires AllMatch(text, es, xs) && BlankEnds(text, es) && AllBefore(xs, id) && Carries(text, id)
    ensures Carries(ApplyAll(text, es), id + TotalDelta(xs))
  {
    hide AllMatch, BlankEnds, ApplyAll, BlockAt, Body, CleanEvent, TotalDelta, DIRECT_RAW, LEAVES;
    var j := id + 1 + Size(LEAVES);
    var p, q :| BlockAt(text, id, j, p, q) && Body(text, p, q) == DIRECT_RAW;
    BeforeIsAround(xs, id, j);
    BlockMoves(text, es, xs, |xs|, id, j, p, q);
    assert es[..|xs|] == es;
    var t, dx, dp := ApplyAll(text, es), TotalDelta(xs), TotalDelta(es);
    assert BlockAt(t, id + dx, id + dx + 1 + Size(LEAVES), p + dp, q + dp);
    var c :| CleanEvent(text, j + 1, c);
    assert AllBefore(xs, j + 1);
    CleanMoves(text, es, xs, j + 1, c);
    assert CleanEvent(t, id + dx + 2 + Size(LEAVES), c + dp);
  }

  /** The insertion itself. */
  lemma CarriedAtInsertion(text: string, b: BlockRec, kids: Forest, marks: seq<Mark>)
    requires Placed0(text, marks, b, kids)
    requires Matches(text, InsertionOf(text, b.close), InsertedAt(text, b, kids))
    ensures Carries(Splice(text, InsertionOf(text, b.close)), b.id + 1 + Size(kids))
  {
    hide At, Matches, InsertionOf, InsertedAt, BlockAt, Body, CleanEvent, DIRECT_RAW, LEAVES, Splice, EventAt, Blank, AllPlaced, Fits;
    var e := b.id + 1 + Size(kids);
    CloseIsPlaced(text, marks, e);
    var p, q := InsertedAtClose(text, b.close, e);
    CleanHere(text, e, b.close);
    InsertionIsAt(text, b.close);
    CleanBehind(text, InsertionOf(text, b.close), InsertedAt(text, b, kids), e, b.close);
    InsertedDelta(text, b, kids);
    assert CleanEvent(Splice(text, InsertionOf(text, b.close)), e + 2 + Size(LEAVES), b.close + Delta(InsertionOf(text, b.close)));
  }

  lemma CloseIsPlaced(text: string, marks: seq<Mark>, e: nat)
    requires AllPlaced(text, marks) && e < |marks|
    ensures marks[e].at < |text| && At(text, marks[e].at).lex == Code && |At(text, marks[e].at).out| == e
    ensures EventAt(text, e, marks[e].at)
  {
    hide At, StartPlaced;
    assert Placed(text, marks, e);
  }

  lemma CleanHere(text: string, k: int, p: int)
    requires EventAt(text, k, p) && 0 <= p <= |text| && Blank(At(text, p).pending)
    ensures CleanEvent(text, k, p)
  {
  }

  lemma InsertedDelta(text: string, b: BlockRec, kids: Forest)
    requires 0 <= b.close <= |text|
    ensures Delta(InsertedAt(text, b, kids)) == 2 + Size(LEAVES)
  {
    hide HeaderAfter, LeafTexts, Unfinished;
    DirectIsSafe();
    assert Size(DirectAfter(Unfinished(text, b.close))) == 2 + Size(LEAVES);
  }

  /** The first stage. */
  lemma CarriedByDirect(text: string, marks: seq<Mark>, b: BlockRec, kids: Forest, es: seq<Edit<char>>, drop: set<nat>)
    requires Placed0(text, marks, b, kids)
    requires Removals(text, TopBlocks(kids, marks, b.id + 1, b.id)) == Ok(es)
    requires drop == RemovedIds(text, TopBlocks(kids, marks, b.id + 1, b.id))
    ensures Carries(ApplyAll(text, es + [InsertionOf(text, b.close)]), b.id + 1 + Size(Prune(kids, b.id + 1, drop)))
  {
    hide Placed0, TopBlocks, RemovedIds, Removals, ApplyAll, AllMatch, BlankEnds, InsertionOf, InsertedAt, Carries, Prune, PruneEdits,
         AllBefore, Matches, TotalDelta, Splice;
    PlacedSize(text, marks, b, kids);
    var ins, x, xs := InsertionOf(text, b.close), InsertedAt(text, b, kids), PruneEdits(kids, b.id + 1, drop);
    DirectMatches(text, marks, b, kids, es, drop);
    LastMatches(text, es, ins, xs, x);
    CarriedAtInsertion(text, b, kids, marks);
    PruneDelta(kids, b.id + 1, drop);
    CarriedBehind(ApplyAll(text, [ins]), es, xs, b.id + 1 + Size(kids));
    ApplyAppend(text, es, ins);
  }

  lemma ApplyOne<T>(s: seq<T>, e: Edit<T>)
    ensures ApplyAll(s, [e]) == Splice(s, e)
  {
    hide Splice;
    assert [e][1..] == [];
  }

  lemma ApplyAppend<T>(s: seq<T>, es: seq<Edit<T>>, e: Edit<T>)
    ensures ApplyAll(s, es + [e]) == ApplyAll(ApplyAll(s, [e]), es)
  {
    hide ApplyAll;
    ApplySplit(s, es + [e], |es|);
    assert (es + [e])[|es|..] == [e] && (es + [e])[..|es|] == es;
  }

  lemma LastMatches(text: string, es: seq<Edit<char>>, e: Edit<char>, xs: seq<Edit<Event>>, x: Edit<Event>)
    requires AllMatch(text, es + [e], xs + [x]) && BlankEnds(text, es + [e])
    ensures Matches(text, e, x) && ApplyAll(text, [e]) == Splice(text, e)
    ensures AllMatch(ApplyAll(text, [e]), es, xs) && BlankEnds(ApplyAll(text, [e]), es)
  {
    hide Matches, Splice, At, Blank, ApplyAll, Ascending;
    assert |es| == |xs|;
    assert (es + [e])[|es|] == e && (xs + [x])[|xs|] == x;
    assert (es + [e])[|es|..] == [e] && (es + [e])[..|es|] == es;
    assert (xs + [x])[|es|..] == [x] && (xs + [x])[..|es|] == xs;
    EarlierStillMatch(text, es + [e], xs + [x], |es|);
    ApplyOne(text, e);
  }

  /** The second stage. */
  lemma CarriedByUpstream(text: string, id: int)
    requires Carries(text, id)
    ensures Carries(UPSTREAM_BLOCK + text, id + Size(UPSTREAM_TREE))
  {
    hide Matches, Splice, Blank, At, Flatten, Size, Body, BlockAt, CleanEvent, DIRECT_RAW, LEAVES;
    var e, x := Edit(0, 0, UPSTREAM_BLOCK), Edit(0, 0, Flatten(UPSTREAM_TREE));
    UpstreamMatches(text);
    var j, d := id + 1 + Size(LEAVES), Size(UPSTREAM_TREE);
    var p, q :| BlockAt(text, id, j, p, q) && Body(text, p, q) == DIRECT_RAW;
    NotBefore(text, id, j, p, q);
    BlockBehind(text, e, x, id, j, p, q);
    var c :| CleanEvent(text, j + 1, c);
    NotNegative(text, j + 1, c);
    CleanBehind(text, e, x, j + 1, c);
    assert BlockAt(UPSTREAM_BLOCK + text, id + d, id + d + 1 + Size(LEAVES), p + Delta(e), q + Delta(e));
    assert CleanEvent(UPSTREAM_BLOCK + text, id + d + 2 + Size(LEAVES), c + Delta(e));
  }

  lemma NotNegative(text: string, k: int, p: int)
    requires CleanEvent(text, k, p)
    ensures p >= 0
  {
  }

  /** The third stage. */
  lemma CarriedByGates(text: string, b: BlockRec, pruned: Forest, es: seq<Edit<char>>)
    requires Located(text, b, Append(pruned, DIRECT_TREE)) && 0 <= b.close < |text|
    requires Gates(text, Parse(text).value, ChildrenOf(Parse(text).value.blocks, b.id)) == Ok(es)
    requires Carries(text, b.id + 1 + Size(pruned))
    ensures Carries(ApplyAll(text, es), b.id + 1 + Size(Gate(pruned, GATE_TEXT)))
  {
    hide *;
    var base := b.id + 1;
    GateStageMatches(text, b, Append(pruned, DIRECT_TREE), es);
    OnlyPrunedGates(pruned, base);
    GateDelta(pruned, base, GATE_TEXT);
    CarriedBehind(text, es, GateEdits(pruned, base, GATE_TEXT), base + Size(pruned));
  }

  /** The inserted location gets no gate, so all gates lie before it. */
  lemma OnlyPrunedGates(pruned: Forest, base: nat)
    ensures GateEdits(Append(pruned, DIRECT_TREE), base, GATE_TEXT) == GateEdits(pruned, base, GATE_TEXT)
  {
    hide GateEdits, Append, DIRECT_TREE;
    GateEditsAppend(pruned, DIRECT_TREE, base, GATE_TEXT);
    DirectHasNoEdit(base + Size(pruned));
    var xs := GateEdits(pruned, base, GATE_TEXT);
    assert xs + [] == xs;
  }
}
