/** A second rewrite yields the same tree. */
module NginxIdempotent {
  import opened Text
  import opened NginxLexer
  import opened NginxEvents
  import opened NginxOffsets
  import opened NginxTree
  import opened NginxParser
  import opened NginxParserTree
  import opened NginxLists
  import opened NginxTreeEdit
  import opened NginxRules
  import opened NginxSplice
  import opened NginxSnippets
  import opened NginxRewrite
  import opened NginxCommute
  import opened NginxStages
  import opened NginxGates
  import opened NginxTheorem
  import opened NginxResult
  import opened NginxShift
  import opened NginxKept
  import opened NginxSecond
  import opened NginxAlike
  import opened NginxInserted
  import opened NginxCarried
  import Shlex

  /* ---------------------------------------------------------------- the inserted location */

  /** The inserted location is a literal `/v1` location, so a second run removes it, whatever it contains. */
  lemma DirectIsRemoved(body: string)
    ensures IsRemoved(DIRECT_NAME, body) == Ok(true) && !NoV1(DIRECT_NAME)
  {
    hide Shlex.Split, Shlex.Join, SafeWords, SafeLines, Contains, HasMarker, IsCaptureLocation, Plain;
    DirectIsSafe();
    JoinIsPlain(DIRECT_HEADER);
    PlainIsStable(DIRECT_NAME);
    Shlex.SplitWords(DIRECT_HEADER);
    StableTokens(DIRECT_NAME);
  }

  /* ---------------------------------------------------------------- what a second run removes */

  lemma {:induction false} RecordIsTop(f: Forest, marks: seq<Mark>, base: nat, parent: int, r: BlockRec)
    requires r in TopBlocks(f, marks, base, parent)
    ensures TopAt(f, base, r.id).Some?
    ensures var (header, kids) := TopAt(f, base, r.id).value; r == RecAt(header, kids, marks, r.id, parent)
    decreases f
  {
    hide RecAt, Size;
    match f
    case Directive(_, rest) => RecordIsTop(rest, marks, base + 1, parent, r);
    case Block(header, kids, rest) =>
      var m, first := base + 2 + Size(kids), RecAt(header, kids, marks, base, parent);
      RecParent(header, kids, marks, base, parent);
      if r != first {
        var more := TopBlocks(rest, marks, m, parent);
        assert TopBlocks(f, marks, base, parent) == [first] + more;
        hide TopBlocks;
        assert r in more;
        RecordIsTop(rest, marks, m, parent, r);
        TopBounds(rest, m, r.id);
      }
  }

  /** A kept child is not removed by the second run either. */
  lemma KeptIsNotRemoved(text: string, marks: seq<Mark>, header: string, kids: Forest, id: nat, parent: int)
    requires AllPlaced(text, marks) && id + 1 + Size(kids) < |marks| && KeptChild(text, id, header, kids)
    ensures RemovedBlock(text, RecAt(header, kids, marks, id, parent)) == Ok(false)
  {
    hide AllPlaced, EventAt, IsRemoved, Body, RemovedBlock;
    var j := id + 1 + Size(kids);
    RecordAt(text, marks, header, kids, id, parent);
    var p, q :| BlockAt(text, id, j, p, q) && IsRemoved(header, Body(text, p, q)) == Ok(false);
    EventUnique(text, id, p, marks[id].at);
    EventUnique(text, j, q, marks[j].at);
  }

  /** Exactly the inserted location is removed by the second run. */
  lemma RemovedAgain(text: string, marks: seq<Mark>, f: Forest, base: nat, parent: int, id: int)
    requires AllPlaced(text, marks) && base + Size(f) <= |marks| && AllKept(text, f, base) && TopAt(f, base, id).Some?
    ensures id in RemovedIds(text, TopBlocks(f, marks, base, parent)) <==> TopAt(f, base, id).value.0 == DIRECT_NAME
  {
    hide AllPlaced, RemovedBlock, TopBlocks, TopAt, KeptChild, RemovedIds, RecAt, Size, DIRECT_NAME;
    var blocks := TopBlocks(f, marks, base, parent);
    var (header, kids) := TopAt(f, base, id).value;
    TopBounds(f, base, id);
    var r := RecAt(header, kids, marks, id, parent);
    RecParent(header, kids, marks, id, parent);
    if header == DIRECT_NAME {
      TopIsRecord(f, marks, base, parent, id);
      InsertedIsRemoved(text, marks, kids, id, parent);
      RemovedHasId(text, blocks);
    } else {
      KeptIsNotRemoved(text, marks, header, kids, id, parent);
      OnlyOneRecord(text, f, marks, base, parent, id);
    }
  }

  lemma InsertedIsRemoved(text: string, marks: seq<Mark>, kids: Forest, id: nat, parent: int)
    requires AllPlaced(text, marks) && id + 1 + Size(kids) < |marks|
    ensures RemovedBlock(text, RecAt(DIRECT_NAME, kids, marks, id, parent)) == Ok(true)
  {
    hide AllPlaced, RemovedBlock, IsRemoved, Body;
    RecordAt(text, marks, DIRECT_NAME, kids, id, parent);
    DirectIsRemoved(Body(text, marks[id].at, marks[id + 1 + Size(kids)].at));
  }

  /** An identity belongs to one record, so its removal is decided by that record alone. */
  lemma OnlyOneRecord(text: string, f: Forest, marks: seq<Mark>, base: nat, parent: int, id: int)
    requires TopAt(f, base, id).Some? && id >= 0
    requires var (header, kids) := TopAt(f, base, id).value; RemovedBlock(text, RecAt(header, kids, marks, id, parent)) == Ok(false)
    ensures id !in RemovedIds(text, TopBlocks(f, marks, base, parent))
  {
    hide RemovedBlock, TopBlocks, TopAt, RecAt;
    var blocks := TopBlocks(f, marks, base, parent);
    forall k | 0 <= k < |blocks| && blocks[k].id == id
      ensures RemovedBlock(text, blocks[k]) == Ok(false)
    {
      RecordIsTop(f, marks, base, parent, blocks[k]);
    }
  }

  predicate NoDirect(headers: seq<string>) { forall i :: 0 <= i < |headers| ==> headers[i] != DIRECT_NAME }

  lemma NoV1IsNoDirect(headers: seq<string>)
    requires AllNoV1(headers)
    ensures NoDirect(headers)
  {
    hide NoV1, DIRECT_NAME;
    DirectIsRemoved("");
  }

  /** Dropping the blocks with the inserted header leaves everything else. */
  lemma {:induction false} PruneLast(f: Forest, last: Forest, base: nat, drop: set<nat>)
    requires last.Block? && last.header == DIRECT_NAME && last.rest == End && NoDirect(TopHeaders(f))
    requires forall id {:trigger TopAt(Append(f, last), base, id)} ::
               TopAt(Append(f, last), base, id).Some? ==> (id in drop <==> TopAt(Append(f, last), base, id).value.0 == DIRECT_NAME)
    ensures Prune(Append(f, last), base, drop) == f
    decreases f
  {
    hide Size;
    var g := Append(f, last);
    match f
    case End =>
      assert TopAt(g, base, base).Some?;
    case Directive(_, rest) =>
      forall id | TopAt(Append(rest, last), base + 1, id).Some?
        ensures id in drop <==> TopAt(Append(rest, last), base + 1, id).value.0 == DIRECT_NAME
      {
        assert TopAt(g, base, id) == TopAt(Append(rest, last), base + 1, id);
      }
      PruneLast(rest, last, base + 1, drop);
    case Block(header, kids, rest) =>
      var m := base + 2 + Size(kids);
      assert TopHeaders(f)[0] == header;
      assert NoDirect(TopHeaders(rest)) by {
        forall i | 0 <= i < |TopHeaders(rest)|
          ensures TopHeaders(rest)[i] != DIRECT_NAME
        {
          assert TopHeaders(f)[i + 1] == TopHeaders(rest)[i];
        }
      }
      assert TopAt(g, base, base) == Some((header, kids));
      forall id | TopAt(Append(rest, last), m, id).Some?
        ensures id in drop <==> TopAt(Append(rest, last), m, id).value.0 == DIRECT_NAME
      {
        TopBounds(Append(rest, last), m, id);
        assert TopAt(g, base, id) == TopAt(Append(rest, last), m, id);
      }
      PruneLast(rest, last, m, drop);
  }

  /* ---------------------------------------------------------------- nothing is left to gate */

  /** A level that the final verification accepts needs no gate. */
  lemma {:induction false} NothingToGate(cfg: Config, f: Forest, marks: seq<Mark>, base: nat, parent: int)
    requires RefuseUngated(cfg, TopBlocks(f, marks, base, parent)).Ok? && TextsAgree(f, base, cfg.directives)
    ensures Gate(f, GATE_TEXT) == f
    decreases f
  {
    hide RecAt, NeedsGate, TextsAgree, Texts, TextsOf;
    match f
    case End =>
    case Directive(t, rest) =>
      hide RefuseUngated;
      AgreeTail(t, rest, base, cfg.directives);
      NothingToGate(cfg, rest, marks, base + 1, parent);
    case Block(header, kids, rest) =>
      var n := base + 2 + Size(kids);
      AgreeRest(header, kids, rest, base, cfg.directives);
      RecParent(header, kids, marks, base, parent);
      RefusedStep(cfg, RecAt(header, kids, marks, base, parent), TopBlocks(rest, marks, n, parent));
      hide RefuseUngated;
      NothingToGate(cfg, rest, marks, n, parent);
  }

  lemma RefusedStep(cfg: Config, r: BlockRec, blocks: seq<BlockRec>)
    requires RefuseUngated(cfg, [r] + blocks).Ok?
    ensures RefuseUngated(cfg, blocks).Ok? && NeedsGate(r.header, TextsOf(cfg.directives, r.id)) == Ok(false)
  {
    hide NeedsGate, TextsOf;
    assert ([r] + blocks)[1..] == blocks;
  }

  lemma {:induction false} GateAppend(f: Forest, g: Forest, gate: string)
    ensures Gate(Append(f, g), gate) == Append(Gate(f, gate), Gate(g, gate))
  {
    hide NeedsGate, Texts;
    match f
    case End =>
    case Directive(_, rest) => GateAppend(rest, g, gate);
    case Block(_, _, rest) => GateAppend(rest, g, gate);
  }

  lemma SizeAppend(f: Forest, g: Forest)
    ensures Size(Append(f, g)) == Size(f) + Size(g)
  {
    FlattenAppend(f, g);
  }

  lemma {:induction false} SetKidsSame(f: Forest, base: nat, id: int)
    requires NodeAt(f, base, id).Some?
    ensures SetKids(f, base, id, NodeAt(f, base, id).value.1) == f
    decreases f
  {
    match f
    case Directive(_, rest) => SetKidsSame(rest, base + 1, id);
    case Block(_, kids, rest) =>
      if id != base {
        if id < base + 1 + Size(kids) {
          SetKidsSame(kids, base + 1, id);
        } else {
          SetKidsSame(rest, base + 2 + Size(kids), id);
        }
      }
  }

  /* ---------------------------------------------------------------- after the first run */

  predicate AllHarmless(headers: seq<string>) { forall i :: 0 <= i < |headers| ==> Harmless(headers[i]) }

  /** A rewritten server: kept children without a literal `/v1` location or capture directive, then the
      inserted location, letter by letter, and a closing brace with nothing unfinished before it. */
  ghost predicate Rewritten(text: string, host: string, id: nat, header: string, front: Forest) {
    && ServerAt(text, host, id, header, Append(front, DIRECT_TREE)) && Verify(text, host).Ok?
    && AllNoV1(TopHeaders(front)) && AllHarmless(TopHeaders(front))
    && AllKept(text, Append(front, DIRECT_TREE), id + 1) && Carries(text, id + 1 + Size(front))
  }

  lemma UpstreamText(text: string, out: string)
    requires WithUpstream(text) == Ok(out)
    ensures Tree(text).Some? && out == if HasUpstream(Tree(text).value) then text else UPSTREAM_BLOCK + text
  {
    hide Run, Build, Blocks, Directives, Parse, Tree, ChildrenOf, TopBlocks, Headers, Upstreams, TopHeaders, IsUpstream, Fits, Tokenise;
    ParseGivesTree(text);
    var blocks := Parse(text).value.blocks;
    UpstreamsAreTop(blocks);
    var f := Tree(text).value;
    ChildrenInTree(f, Marks(text), 0, -1, -1);
    HeadersOfTop(f, Marks(text), 0, -1);
  }

  lemma LocatedPlace(text: string, b: BlockRec, kids: Forest)
    requires Located(text, b, kids) && 0 <= b.close < |text| && Blank(Unfinished(text, b.close))
    ensures Placed0(text, Marks(text), b, kids)
    ensures ChildrenOf(Parse(text).value.blocks, b.id) == TopBlocks(kids, Marks(text), b.id + 1, b.id)
  {
    hide Run, Flatten, NodeAt, TopBlocks, Texts, ChildrenOf, TextsOf, At, Fits, Parse, Tree, AllPlaced, Blank;
    BlankConcat(At(text, b.close).pending, if b.close > 0 && text[b.close - 1] == '\n' then "" else "\n");
  }

  /** What is kept and carried after the first two stages. */
  lemma KeptAfterTwo(text: string, host: string, t1: string, t2: string, b: BlockRec, kids: Forest, pruned: Forest)
    requires WithDirect(text, host) == Ok(t1) && WithUpstream(t1) == Ok(t2)
    requires Parse(text).Some? && ApprovedServer(Parse(text).value, host) == Ok(b)
    requires Located(text, b, kids) && 0 <= b.close < |text| && Blank(Unfinished(text, b.close))
    requires pruned == Prune(kids, b.id + 1, RemovedIds(text, ChildrenOf(Parse(text).value.blocks, b.id)))
    ensures Tree(t1).Some?
    ensures AllKept(t2, Append(pruned, DIRECT_TREE), b.id + Shift(Tree(t1).value) + 1)
    ensures Carries(t2, b.id + Shift(Tree(t1).value) + 1 + Size(pruned))
  {
    hide Located, Parse, Tree, ChildrenOf, ApplyAll, Removals, RefuseCapture, TextsOf, Headers, InsertionOf, AllKept, Blank, Unfinished,
         Prune, Append, RemovedIds, HasUpstream, ApprovedServer, Size, WithUpstream, TopBlocks, Placed0, Carries;
    LocatedPlace(text, b, kids);
    var es := Removals(text, ChildrenOf(Parse(text).value.blocks, b.id)).value;
    KeptAfterDirect(text, Marks(text), b, kids, es, RemovedIds(text, ChildrenOf(Parse(text).value.blocks, b.id)));
    CarriedByDirect(text, Marks(text), b, kids, es, RemovedIds(text, ChildrenOf(Parse(text).value.blocks, b.id)));
    UpstreamText(t1, t2);
    if !HasUpstream(Tree(t1).value) {
      KeptAfterUpstream(t1, Append(pruned, DIRECT_TREE), b.id + 1);
      CarriedByUpstream(t1, b.id + 1 + Size(pruned));
    }
  }

  lemma KeptAfterThree(text: string, host: string, out: string, id: nat, header: string, pruned: Forest)
    requires WithGates(text, host) == Ok(out) && ServerAt(text, host, id, header, Append(pruned, DIRECT_TREE))
    requires AllKept(text, Append(pruned, DIRECT_TREE), id + 1) && Carries(text, id + 1 + Size(pruned))
    ensures AllKept(out, Gate(Append(pruned, DIRECT_TREE), GATE_TEXT), id + 1)
    ensures Carries(out, id + 1 + Size(Gate(pruned, GATE_TEXT)))
  {
    hide Parse, Tree, NodeAt, Located, IsApproved, ApprovedServers, ApplyAll, ChildrenOf, Gates, Gate, ServerAt, AllKept, Carries, Append, DIRECT_TREE;
    var b := ServerIs(text, host, id, header, Append(pruned, DIRECT_TREE));
    var es := Gates(text, Parse(text).value, ChildrenOf(Parse(text).value.blocks, b.id)).value;
    KeptAfterGates(text, b, Append(pruned, DIRECT_TREE), es);
    CarriedByGates(text, b, pruned, es);
  }

  lemma GatedBody(pruned: Forest)
    ensures Gate(Append(pruned, DIRECT_TREE), GATE_TEXT) == Append(Gate(pruned, GATE_TEXT), DIRECT_TREE)
  {
    hide Gate, Append, DIRECT_TREE;
    GateAppend(pruned, DIRECT_TREE, GATE_TEXT);
    DirectStaysUngated();
  }

  lemma FirstRun(text: string, host: string, out: string) returns (id: nat, header: string, front: Forest)
    requires Rewrite(text, host) == Ok(out)
    ensures Rewritten(out, host, id, header, front)
  {
    hide Parse, Tree, NodeAt, SetKids, HasUpstream, IsApproved, Texts, WithUpstream, WithDirect, WithGates, Verify, ServerAt,
         Located, ApprovedServer, DirectBody, ChildrenOf, Removals, AllNoV1, TopHeaders, Gate, Shift, Append, Prune, RemovedIds, AllKept,
         Unfinished, Blank, DIRECT_TREE, Carries, AllHarmless;
    var t1 := WithDirect(text, host).value;
    var t2 := WithUpstream(t1).value;
    var b, kids := FirstStage(text, host, t1);
    LocatedNode(text, b, kids);
    var children := ChildrenOf(Parse(text).value.blocks, b.id);
    var body := DirectBody(text, b, kids, children);
    var gated := Gate(body, GATE_TEXT);
    DirectBodyTexts(text, b, kids, children);
    StillApproved(text, t1, host, b.id, b.header, kids, body);
    AfterUpstream(t1, t2, host, b.id, b.header, body);
    id, header := b.id + Shift(Tree(t1).value), b.header;
    ThirdStage(t2, host, out, id, header, body);
    TextsOfGate(body, GATE_TEXT);
    StillApproved(t2, out, host, id, header, body, gated);
    VerifiedHasV1(out, host, id, header, gated);
    NothingSwallowed(text, b, kids);
    CleanBody(text, b, kids, children);
    var pruned := Prune(kids, b.id + 1, RemovedIds(text, children));
    KeptAfterTwo(text, host, t1, t2, b, kids, pruned);
    KeptAfterThree(t2, host, out, id, header, pruned);
    front := Gate(pruned, GATE_TEXT);
    GatedBody(pruned);
    TextsOfGate(pruned, GATE_TEXT);
    PrunedIsNoV1(text, b, kids);
    PrunedIsHarmless(text, host, b, kids);
  }

  lemma {:induction false} PruneHeaders(f: Forest, base: nat, drop: set<nat>)
    requires AllHarmless(TopHeaders(f))
    ensures AllHarmless(TopHeaders(Prune(f, base, drop)))
    decreases f
  {
    hide Harmless;
    match f
    case End =>
    case Directive(_, rest) => PruneHeaders(rest, base + 1, drop);
    case Block(header, kids, rest) =>
      var m := base + 2 + Size(kids);
      assert TopHeaders(f)[0] == header;
      assert AllHarmless(TopHeaders(rest)) by {
        assert forall i :: 0 <= i < |TopHeaders(rest)| ==> TopHeaders(rest)[i] == TopHeaders(f)[i + 1];
      }
      PruneHeaders(rest, m, drop);
      var more := TopHeaders(Prune(rest, m, drop));
      assert forall i :: 0 < i < |[header] + more| ==> ([header] + more)[i] == more[i - 1];
  }

  lemma PrunedIsHarmless(text: string, host: string, b: BlockRec, kids: Forest)
    requires WithDirect(text, host).Ok? && Located(text, b, kids)
    requires Parse(text).Some? && ApprovedServer(Parse(text).value, host) == Ok(b)
    ensures AllHarmless(TopHeaders(Prune(kids, b.id + 1, RemovedIds(text, ChildrenOf(Parse(text).value.blocks, b.id)))))
  {
    hide Parse, Tree, NodeAt, Located, ChildrenOf, TopHeaders, TopBlocks, Removals, Prune, RemovedIds, RefuseCapture, Headers,
         TextsOf, ApprovedServer, ApplyAll, InsertionOf, Harmless;
    LocatedNode(text, b, kids);
    HeadersOfTop(kids, Marks(text), b.id + 1, b.id);
    RefuseCaptureIff(TopHeaders(kids));
    PruneHeaders(kids, b.id + 1, RemovedIds(text, ChildrenOf(Parse(text).value.blocks, b.id)));
  }

  lemma PrunedIsNoV1(text: string, b: BlockRec, kids: Forest)
    requires Located(text, b, kids) && Parse(text).Some?
    requires Removals(text, ChildrenOf(Parse(text).value.blocks, b.id)).Ok?
    ensures AllNoV1(TopHeaders(Prune(kids, b.id + 1, RemovedIds(text, ChildrenOf(Parse(text).value.blocks, b.id)))))
  {
    hide Parse, Tree, NodeAt, Located, ChildrenOf, AllNoV1, TopHeaders, TopBlocks, Removals, Prune, RemovedIds, DropsRemoved;
    LocatedNode(text, b, kids);
    var drop := RemovedIds(text, ChildrenOf(Parse(text).value.blocks, b.id));
    RemovedIdsDrop(text, kids, Marks(text), b.id + 1, b.id);
    KeptIsNoV1(text, kids, Marks(text), b.id + 1, b.id, drop);
  }

  /* ---------------------------------------------------------------- the second run */

  /** What the verification says of a server found in the tree. */
  lemma VerifiedServer(text: string, host: string, id: nat, header: string, kids: Forest) returns (b: BlockRec)
    requires Verify(text, host).Ok? && ServerAt(text, host, id, header, kids)
    ensures Parse(text).Some? && ApprovedServer(Parse(text).value, host) == Ok(b) && b.id == id
    ensures Located(text, b, kids) && HasUpstream(Tree(text).value) && Gate(kids, GATE_TEXT) == kids
  {
    hide Parse, Tree, NodeAt, Located, IsApproved, ApprovedServers, ChildrenOf, V1Locations, Upstreams, DirectTokens,
         ReviewedUpstream, ReviewedV1Body, RefuseUngated, RefuseCaptureLocations, RefuseCaptureDirectives,
         TextsOf, ServerAt, TopBlocks, TextsAgree, HasUpstream, Gate;
    b := ServerIs(text, host, id, header, kids);
    LocatedNode(text, b, kids);
    BodyAgrees(text, b, kids);
    NothingToGate(Parse(text).value, kids, Marks(text), b.id + 1, b.id);
    VerifiedUpstream(text, host);
  }

  lemma VerifiedUpstream(text: string, host: string)
    requires Verify(text, host).Ok?
    ensures Parse(text).Some? && Tree(text).Some? && HasUpstream(Tree(text).value)
  {
    hide Run, Build, Blocks, Directives, Parse, Tree, ChildrenOf, TopBlocks, Headers, Upstreams, TopHeaders, IsUpstream, Fits, Tokenise,
         ApprovedServer, DirectTokens, ReviewedUpstream, V1Locations, ReviewedV1Body, RefuseUngated, RefuseCaptureLocations,
         RefuseCaptureDirectives, TextsOf;
    ParseGivesTree(text);
    var blocks := Parse(text).value.blocks;
    UpstreamsAreTop(blocks);
    var f := Tree(text).value;
    ChildrenInTree(f, Marks(text), 0, -1, -1);
    HeadersOfTop(f, Marks(text), 0, -1);
  }

  /** The second run deletes exactly the location that the first one inserted. */
  lemma DroppedAgain(text: string, b: BlockRec, front: Forest)
    requires Located(text, b, Append(front, DIRECT_TREE)) && AllKept(text, Append(front, DIRECT_TREE), b.id + 1)
    requires AllNoV1(TopHeaders(front))
    ensures Prune(Append(front, DIRECT_TREE), b.id + 1, Dropped(text, b)) == front
  {
    hide Located, Parse, AllKept, AllNoV1, TopHeaders, TopAt, Append, RemovedIds, TopBlocks, ChildrenOf, NoDirect, Prune, AllPlaced, DIRECT_NAME, DIRECT_TREE;
    var f, base, marks := Append(front, DIRECT_TREE), b.id + 1, Marks(text);
    LocatedNode(text, b, f);
    LocatedMarks(text, b, f);
    var drop := Dropped(text, b);
    forall id | TopAt(f, base, id).Some?
      ensures id in drop <==> TopAt(f, base, id).value.0 == DIRECT_NAME
    {
      RemovedAgain(text, marks, f, base, b.id, id);
    }
    NoV1IsNoDirect(TopHeaders(front));
    DirectHasNoEdit(0);
    PruneLast(front, DIRECT_TREE, base, drop);
  }

  lemma LocatedMarks(text: string, b: BlockRec, kids: Forest)
    requires Located(text, b, kids)
    ensures AllPlaced(text, Marks(text)) && b.id + 1 + Size(kids) <= |Marks(text)|
  {
    hide Run, Flatten, NodeAt, TopBlocks, Texts, ChildrenOf, TextsOf, AllPlaced, Parse, Tree, Fits;
  }
}
