/** What one run keeps, stage by stage: no child that is kept looks like one to be removed, neither in the
    input nor in the text of any later stage. */
module NginxSecond {
  import opened Text
  import opened NginxLexer
  import opened NginxEvents
  import opened NginxOffsets
  import opened NginxTree
  import opened NginxParser
  import opened NginxParserTree
  import opened NginxLists
  import opened NginxTreeEdit
  import opened NginxRules
  import opened NginxSplice
  import opened NginxSnippets
  import opened NginxRewrite
  import opened NginxCommute
  import opened NginxStages
  import opened NginxGates
  import opened NginxTheorem
  import opened NginxShift
  import opened NginxMarkers
  import opened NginxKept
  import Shlex

  const DIRECT_NAME: string := (DirectIsSafe(); Shlex.Join(DIRECT_HEADER))

  /** The block is in the text, and its raw body gives no reason to remove it. */
  ghost predicate KeptChild(text: string, id: int, header: string, kids: Forest) {
    exists p, q :: BlockAt(text, id, id + 1 + Size(kids), p, q) && IsRemoved(header, Body(text, p, q)) == Ok(false)
  }

  /** Every child of this level is kept, except the inserted location. */
  ghost predicate AllKept(text: string, f: Forest, base: nat) {
    forall id {:trigger TopAt(f, base, id)} ::
      TopAt(f, base, id).Some? && TopAt(f, base, id).value.0 != DIRECT_NAME ==>
        KeptChild(text, id, TopAt(f, base, id).value.0, TopAt(f, base, id).value.1)
  }

  /* ---------------------------------------------------------------- first stage */

  /** A child in the tree has its record among the children. */
  lemma {:induction false} TopIsRecord(f: Forest, marks: seq<Mark>, base: nat, parent: int, i: nat)
    requires TopAt(f, base, i).Some?
    ensures var (header, kids) := TopAt(f, base, i).value;
            RecAt(header, kids, marks, i, parent) in TopBlocks(f, marks, base, parent)
    decreases f
  {
    hide RecAt;
    match f
    case Directive(_, rest) => TopIsRecord(rest, marks, base + 1, parent, i);
    case Block(_, kids, rest) =>
      if i != base {
        TopIsRecord(rest, marks, base + 2 + Size(kids), parent, i);
      }
  }

  lemma {:induction false} RemovalsAreDecided(text: string, children: seq<BlockRec>, r: BlockRec)
    requires Removals(text, children).Ok? && r in children
    ensures RemovedBlock(text, r).Ok?
    decreases |children|
  {
    hide RemovedBlock, RemovalOf;
    if r != children[0] {
      assert r in children[1..];
      RemovalsAreDecided(text, children[1..], r);
    }
  }

  lemma NotDropped(text: string, children: seq<BlockRec>, r: BlockRec)
    requires Removals(text, children).Ok? && r in children && r.id !in RemovedIds(text, children)
    ensures RemovedBlock(text, r) == Ok(false)
  {
    hide RemovedBlock;
    RemovalsAreDecided(text, children, r);
    RemovedHasId(text, children);
  }

  lemma RemovedHasId(text: string, children: seq<BlockRec>)
    ensures forall r :: r in children && RemovedBlock(text, r) == Ok(true) ==> r.id in RemovedIds(text, children)
  {
    hide RemovedBlock;
    forall r | r in children && RemovedBlock(text, r) == Ok(true)
      ensures r.id in RemovedIds(text, children)
    {
      var k :| 0 <= k < |children| && children[k] == r;
    }
  }

  /** A located server, in the terms of its marks. */
  ghost predicate Placed0(text: string, marks: seq<Mark>, b: BlockRec, kids: Forest) {
    AllPlaced(text, marks) && Framed(marks, b, kids) && 0 <= b.close < |text| && Blank(At(text, b.close).pending)
  }

  /** The events that the insertion adds. */
  function InsertedAt(text: string, b: BlockRec, kids: Forest): Edit<Event>
    requires 0 <= b.close <= |text|
  {
    Edit(b.id + 1 + Size(kids), b.id + 1 + Size(kids), Flatten(DirectAfter(Unfinished(text, b.close))))
  }

  /** The edits of the first stage fit the text, and each ends in a clean place. */
  lemma DirectMatches(text: string, marks: seq<Mark>, b: BlockRec, kids: Forest, es: seq<Edit<char>>, drop: set<nat>)
    requires Placed0(text, marks, b, kids)
    requires Removals(text, TopBlocks(kids, marks, b.id + 1, b.id)) == Ok(es)
    requires drop == RemovedIds(text, TopBlocks(kids, marks, b.id + 1, b.id))
    ensures AllMatch(text, es + [InsertionOf(text, b.close)], PruneEdits(kids, b.id + 1, drop) + [InsertedAt(text, b, kids)])
    ensures BlankEnds(text, es + [InsertionOf(text, b.close)])
  {
    hide Flatten, TopBlocks, At, Fits, Blank, Placed, DirectAfter, Unfinished, InsertionOf, RemovedIds, DropsRemoved,
         Matches, Removals, EditsFit, AllMatch, AllPlaced, BlankEnds, EventsOf;
    var e := b.id + 1 + Size(kids);
    RemovedIdsDrop(text, kids, marks, b.id + 1, b.id);
    RemovalsFit(text, marks, kids, b.id + 1, b.id, e, es, drop);
    InsertionMatches(text, marks, e);
    InsertionIsAt(text, b.close);
    AppendLast(text, marks, es, PruneEdits(kids, b.id + 1, drop), b.id + 1, b.close, InsertionOf(text, b.close), InsertedAt(text, b, kids));
    FitEnds(text, marks, es, PruneEdits(kids, b.id + 1, drop), b.id + 1, b.close, InsertionOf(text, b.close));
  }

  lemma FitEnds(text: string, marks: seq<Mark>, es: seq<Edit<char>>, xs: seq<Edit<Event>>, lo: nat, hi: nat, e: Edit<char>)
    requires EditsFit(text, marks, es, xs, lo, hi) && e.end == hi <= |text| && Blank(At(text, hi).pending)
    ensures BlankEnds(text, es + [e])
  {
    hide At, Matches, Blank, Ascending, FirstAfter;
    var fs := es + [e];
    forall m | 0 <= m < |fs|
      ensures fs[m].end <= |text| && Blank(At(text, fs[m].end).pending)
    {
      if m < |es| {
        assert fs[m] == es[m];
      }
    }
  }

  lemma AroundAppend(xs: seq<Edit<Event>>, x: Edit<Event>, n: nat, i: int, j: int)
    requires Around(xs, n, i, j) && x.start > j
    ensures Around(xs + [x], n, i, j) && TotalDelta((xs + [x])[..n]) == TotalDelta(xs[..n])
  {
    assert (xs + [x])[..n] == xs[..n];
  }

  /** The body of a child is the slice that the source inspects. */
  lemma BodyIsSlice(text: string, p: int, q: int)
    requires 0 <= p < q <= |text|
    ensures Body(text, p, q) == Slice(text, p + 1, q)
  {
    assert text[..q][p + 1..] == text[p + 1..q];
  }

  /** One kept child after the first stage. */
  lemma ChildAfterDirect(text: string, marks: seq<Mark>, b: BlockRec, kids: Forest, es: seq<Edit<char>>, drop: set<nat>, id: int)
    requires Placed0(text, marks, b, kids)
    requires Removals(text, TopBlocks(kids, marks, b.id + 1, b.id)) == Ok(es)
    requires drop == RemovedIds(text, TopBlocks(kids, marks, b.id + 1, b.id))
    requires TopAt(Prune(kids, b.id + 1, drop), b.id + 1, id).Some?
    ensures var (header, body) := TopAt(Prune(kids, b.id + 1, drop), b.id + 1, id).value;
            KeptChild(ApplyAll(text, es + [InsertionOf(text, b.close)]), id, header, body)
  {
    hide Placed0, TopBlocks, ApplyAll, InsertionOf, RemovedIds, Removals, AllMatch, BlankEnds, Around, BlockAt, Body, TotalDelta,
         Prune, PruneEdits, TopAt, InsertedAt, RemovedBlock, IsRemoved, Moved;
    var base := b.id + 1;
    DirectMatches(text, marks, b, kids, es, drop);
    var i, n := PruneOrigin(kids, base, drop, base, id);
    TopBounds(kids, base, i);
    var (header, body) := TopAt(kids, base, i).value;
    var j := i + 1 + Size(body);
    PlacedSize(text, marks, b, kids);
    TopIsRecord(kids, marks, base, b.id, i);
    RecordAt(text, marks, header, body, i, b.id);
    RecParent(header, body, marks, i, b.id);
    NotDropped(text, TopBlocks(kids, marks, base, b.id), RecAt(header, body, marks, i, b.id));
    var xs, x := PruneEdits(kids, base, drop), InsertedAt(text, b, kids);
    InsertedStart(text, b, kids);
    AroundAppend(xs, x, n, i, j);
    BlockMoves(text, es + [InsertionOf(text, b.close)], xs + [x], n, i, j, marks[i].at, marks[j].at);
    KeptByMove(text, es + [InsertionOf(text, b.close)], xs + [x], n, i, header, body, marks[i].at, marks[j].at, id);
  }

  lemma InsertedStart(text: string, b: BlockRec, kids: Forest)
    requires 0 <= b.close <= |text|
    ensures InsertedAt(text, b, kids).start == b.id + 1 + Size(kids)
  {
    hide Flatten, DirectAfter;
  }

  /** A child that has only moved is kept. */
  lemma KeptByMove(text: string, es: seq<Edit<char>>, xs: seq<Edit<Event>>, n: nat, i: int, header: string, body: Forest, p: int, q: int, id: int)
    requires n <= |es| == |xs| && Moved(text, es, xs, n, i, i + 1 + Size(body), p, q)
    requires IsRemoved(header, Body(text, p, q)) == Ok(false) && id == i + TotalDelta(xs[..n])
    ensures KeptChild(ApplyAll(text, es), id, header, body)
  {
    hide ApplyAll, BlockAt, Body, TotalDelta, IsRemoved;
    var t, dp := ApplyAll(text, es), TotalDelta(es[..n]);
    assert BlockAt(t, id, id + 1 + Size(body), p + dp, q + dp);
  }

  lemma PlacedSize(text: string, marks: seq<Mark>, b: BlockRec, kids: Forest)
    requires Placed0(text, marks, b, kids)
    ensures b.id + 1 + Size(kids) < |marks| && AllPlaced(text, marks) && 0 <= b.close < |text|
  {
    hide AllPlaced, At, Fits;
  }

  /** A record of the list stands where its events are. */
  lemma RecordAt(text: string, marks: seq<Mark>, header: string, body: Forest, i: nat, parent: int)
    requires AllPlaced(text, marks) && i + 1 + Size(body) < |marks|
    ensures var r := RecAt(header, body, marks, i, parent);
            var j := i + 1 + Size(body);
            && BlockAt(text, i, j, marks[i].at, marks[j].at)
            && RemovedBlock(text, r) == IsRemoved(header, Body(text, marks[i].at, marks[j].at))
  {
    hide At, IsRemoved, AllPlaced, Slice, Body;
    var j := i + 1 + Size(body);
    MarkIsEvent(text, marks, i);
    MarkIsEvent(text, marks, j);
    MarksAscend(text, marks, i, j);
    BodyIsSlice(text, marks[i].at, marks[j].at);
  }

  lemma KeptAfterDirect(text: string, marks: seq<Mark>, b: BlockRec, kids: Forest, es: seq<Edit<char>>, drop: set<nat>)
    requires Placed0(text, marks, b, kids)
    requires Removals(text, TopBlocks(kids, marks, b.id + 1, b.id)) == Ok(es)
    requires drop == RemovedIds(text, TopBlocks(kids, marks, b.id + 1, b.id))
    ensures AllKept(ApplyAll(text, es + [InsertionOf(text, b.close)]), Append(Prune(kids, b.id + 1, drop), DIRECT_TREE), b.id + 1)
  {
    hide Placed0, TopBlocks, ApplyAll, InsertionOf, RemovedIds, Removals, KeptChild, TopAt, Prune, Append;
    PlacedSize(text, marks, b, kids);
    var f, base := Prune(kids, b.id + 1, drop), b.id + 1;
    forall id {:trigger TopAt(Append(f, DIRECT_TREE), base, id)} |
      TopAt(Append(f, DIRECT_TREE), base, id).Some? && TopAt(Append(f, DIRECT_TREE), base, id).value.0 != DIRECT_NAME
      ensures KeptChild(ApplyAll(text, es + [InsertionOf(text, b.close)]), id, TopAt(Append(f, DIRECT_TREE), base, id).value.0,
                        TopAt(Append(f, DIRECT_TREE), base, id).value.1)
    {
      TopAppend(f, DIRECT_TREE, base, id);
      OnlyDirect(base + Size(f), id);
      ChildAfterDirect(text, marks, b, kids, es, drop, id);
    }
  }

  lemma OnlyDirect(base: nat, id: int)
    ensures TopAt(DIRECT_TREE, base, id).Some? ==> TopAt(DIRECT_TREE, base, id).value.0 == DIRECT_NAME && id == base
  {
    hide LeafTexts;
    DirectIsSafe();
  }

  /* ---------------------------------------------------------------- second stage */

  lemma {:induction false} TopShift(f: Forest, base: nat, d: nat, id: int)
    ensures TopAt(f, base + d, id + d) == TopAt(f, base, id)
  {
    match f
    case End =>
    case Directive(_, rest) => TopShift(rest, base + 1, d, id);
    case Block(_, kids, rest) => TopShift(rest, base + 2 + Size(kids), d, id);
  }

  lemma UpstreamMatches(text: string)
    ensures var e, x := Edit(0, 0, UPSTREAM_BLOCK), Edit(0, 0, Flatten(UPSTREAM_TREE));
            && Matches(text, e, x) && Blank(At(text, e.end).pending)
            && Splice(text, e) == UPSTREAM_BLOCK + text
            && Delta(x) == Size(UPSTREAM_TREE)
  {
    hide Flatten, Blank, BlockText, LeafTexts;
    UpstreamEvents();
    EmptyIsBlank();
    AtStart(text);
    hide Run;
    assert UPSTREAM_BLOCK + text[0..] == UPSTREAM_BLOCK + text;
  }

  lemma AtStart(text: string)
    ensures At(text, 0) == INIT
  {
    assert text[..0] == "";
  }

  lemma KeptAfterUpstream(text: string, f: Forest, base: nat)
    requires AllKept(text, f, base)
    ensures AllKept(UPSTREAM_BLOCK + text, f, base + Size(UPSTREAM_TREE))
  {
    hide TopAt, Matches, Splice, Blank, At, Flatten, Size, IsRemoved, Body, BlockAt;
    var d := Size(UPSTREAM_TREE);
    var e, x := Edit(0, 0, UPSTREAM_BLOCK), Edit(0, 0, Flatten(UPSTREAM_TREE));
    UpstreamMatches(text);
    var to := base + d;
    forall id | TopAt(f, to, id).Some? && TopAt(f, to, id).value.0 != DIRECT_NAME
      ensures KeptChild(UPSTREAM_BLOCK + text, id, TopAt(f, to, id).value.0, TopAt(f, to, id).value.1)
    {
      TopShift(f, base, d, id - d);
      var (header, kids) := TopAt(f, base, id - d).value;
      assert KeptChild(text, id - d, header, kids);
      var p, q :| BlockAt(text, id - d, id - d + 1 + Size(kids), p, q) && IsRemoved(header, Body(text, p, q)) == Ok(false);
      NotBefore(text, id - d, id - d + 1 + Size(kids), p, q);
      BlockBehind(text, e, x, id - d, id - d + 1 + Size(kids), p, q);
    }
  }

  lemma NotBefore(text: string, i: int, j: int, p: int, q: int)
    requires BlockAt(text, i, j, p, q)
    ensures 0 <= p < q < |text|
  {
    hide At;
  }

  /* ---------------------------------------------------------------- third stage */

  /** Edit `e` puts the include behind the brace that is event `x.start - 1`. */
  ghost predicate GateShape(marks: seq<Mark>, e: Edit<char>, x: Edit<Event>) {
    && 0 < x.start == x.end <= |marks| && e.start == e.end == marks[x.start - 1].at + 1
    && exists indentation, newline :: Indent(indentation) && (newline == "" || newline == "\n") && e.put == GatePut(indentation, newline)
  }

  lemma OneGateShape(text: string, marks: seq<Mark>, header: string, kids: Forest, base: nat, parent: int)
    requires base < |marks| && marks[base].OpenAt?
    ensures GateShape(marks, GateOf(text, RecAt(header, kids, marks, base, parent)), Edit(base + 1, base + 1, [Statement(GATE_TEXT)]))
  {
    hide Indentation, LineStart;
    var r := RecAt(header, kids, marks, base, parent);
    var line := if r.open <= |text| then LineStart(text, r.open) else 0;
    var indentation := Indentation(Slice(text, line, r.open));
    var newline := if Slice(text, r.open + 1, r.open + 2) == "\n" then "" else "\n";
    assert GateOf(text, r).put == GatePut(indentation, newline);
  }

  ghost predicate GateShapes(marks: seq<Mark>, es: seq<Edit<char>>, xs: seq<Edit<Event>>) {
    |es| == |xs| && forall m :: 0 <= m < |es| ==> GateShape(marks, es[m], xs[m])
  }

  lemma ShapesCons(marks: seq<Mark>, e: Edit<char>, x: Edit<Event>, es: seq<Edit<char>>, xs: seq<Edit<Event>>)
    requires GateShape(marks, e, x) && GateShapes(marks, es, xs)
    ensures GateShapes(marks, [e] + es, [x] + xs)
  {
    hide GateShape;
  }

  lemma {:induction false} GatesHaveShape(text: string, marks: seq<Mark>, cfg: Config, f: Forest, base: nat, parent: int, es: seq<Edit<char>>)
    requires Fits(f, EventsOf(marks), base) && base + Size(f) <= |marks| && TextsAgree(f, base, cfg.directives)
    requires Gates(text, cfg, TopBlocks(f, marks, base, parent)) == Ok(es)
    ensures GateShapes(marks, es, GateEdits(f, base, GATE_TEXT))
    decreases f
  {
    hide Fits, RecAt, GateOf, NeedsGate, TextsAgree, Texts, TextsOf, Flatten, GateShape, GateShapes, EventsOf, EventOf, GATE_TEXT;
    match f
    case End =>
      NoShapes(marks);
    case Directive(t, rest) =>
      hide Gates, GateShapes;
      FitsDirective(t, rest, EventsOf(marks), base);
      AgreeTail(t, rest, base, cfg.directives);
      GatesHaveShape(text, marks, cfg, rest, base + 1, parent, es);
    case Block(header, kids, rest) =>
      hide Gates, GateShapes;
      var n := base + 2 + Size(kids);
      var blocks := TopBlocks(rest, marks, n, parent);
      FitsBlock(header, kids, rest, EventsOf(marks), base);
      AgreeRest(header, kids, rest, base, cfg.directives);
      RecParent(header, kids, marks, base, parent);
      GatesUnfold(text, cfg, RecAt(header, kids, marks, base, parent), blocks);
      var es' := Gates(text, cfg, blocks).value;
      GatesHaveShape(text, marks, cfg, rest, n, parent, es');
      if NeedsGate(header, Texts(kids)) == Ok(true) {
        OpenMark(marks, base, header);
        ShapesStep(text, marks, header, kids, base, parent, es', GateEdits(rest, n, GATE_TEXT));
      }
  }

  lemma ShapesStep(text: string, marks: seq<Mark>, header: string, kids: Forest, base: nat, parent: int, es: seq<Edit<char>>, xs: seq<Edit<Event>>)
    requires base < |marks| && marks[base].OpenAt? && GateShapes(marks, es, xs)
    ensures GateShapes(marks, [GateOf(text, RecAt(header, kids, marks, base, parent))] + es,
                       [Edit(base + 1, base + 1, [Statement(GATE_TEXT)])] + xs)
  {
    hide GateShape, GateShapes, GateOf, RecAt;
    OneGateShape(text, marks, header, kids, base, parent);
    ShapesCons(marks, GateOf(text, RecAt(header, kids, marks, base, parent)), Edit(base + 1, base + 1, [Statement(GATE_TEXT)]), es, xs);
  }

  lemma NoShapes(marks: seq<Mark>)
    ensures GateShapes(marks, [], [])
  {
  }

  lemma OpenMark(marks: seq<Mark>, i: nat, header: string)
    requires i < |EventsOf(marks)| && EventsOf(marks)[i] == Open(header)
    ensures i < |marks| && marks[i].OpenAt?
  {
  }

  /** The include does not change what is_removed sees. */
  lemma SameVerdict(header: string, put: string, body: string, indentation: string, newline: string)
    requires Indent(indentation) && (newline == "" || newline == "\n") && put == GatePut(indentation, newline)
    ensures IsRemoved(header, put + body) == IsRemoved(header, body)
  {
    hide Contains, HasMarker, LocationPath, GatePut;
    SameMarkers(indentation, newline, body);
  }

  /** The edits of the third stage fit the text. */
  lemma GateStageMatches(text: string, b: BlockRec, kids: Forest, es: seq<Edit<char>>)
    requires Located(text, b, kids) && 0 <= b.close < |text|
    requires Gates(text, Parse(text).value, ChildrenOf(Parse(text).value.blocks, b.id)) == Ok(es)
    ensures AllMatch(text, es, GateEdits(kids, b.id + 1, GATE_TEXT)) && BlankEnds(text, es)
    ensures GateShapes(Marks(text), es, GateEdits(kids, b.id + 1, GATE_TEXT))
    ensures AllPlaced(text, Marks(text)) && b.id + 1 + Size(kids) < |Marks(text)|
  {
    hide Run, Flatten, TopBlocks, Texts, ChildrenOf, TextsOf, At, Fits, ApplyAll, Blank, Placed,
         Parse, Build, NodeAt, Gates, GateEdits, EditsFit, AllMatch, TextsAgree, Tree, GateShapes, Marks;
    var marks, e := Marks(text), b.id + 1 + Size(kids);
    BodyAgrees(text, b, kids);
    LocatedBounds(text, b, kids);
    GatesFit(text, marks, Parse(text).value, kids, b.id + 1, b.id, e, es);
    FitIsMatch(text, marks, es, GateEdits(kids, b.id + 1, GATE_TEXT), b.id + 1, b.close);
    FitIsBlank(text, marks, es, GateEdits(kids, b.id + 1, GATE_TEXT), b.id + 1, b.close);
    GatesHaveShape(text, marks, Parse(text).value, kids, b.id + 1, b.id, es);
  }

  lemma FitIsBlank(text: string, marks: seq<Mark>, es: seq<Edit<char>>, xs: seq<Edit<Event>>, lo: nat, hi: nat)
    requires EditsFit(text, marks, es, xs, lo, hi)
    ensures BlankEnds(text, es)
  {
    hide At, Matches, Blank, Ascending, FirstAfter;
  }

  /** One kept child after the third stage. */
  lemma ChildAfterGates(text: string, marks: seq<Mark>, es: seq<Edit<char>>, xs: seq<Edit<Event>>, f: Forest, base: nat, id: int)
    requires xs == GateEdits(f, base, GATE_TEXT) && AllMatch(text, es, xs) && BlankEnds(text, es) && GateShapes(marks, es, xs)
    requires AllPlaced(text, marks) && AllKept(text, f, base)
    requires TopAt(Gate(f, GATE_TEXT), base, id).Some? && TopAt(Gate(f, GATE_TEXT), base, id).value.0 != DIRECT_NAME
    ensures KeptChild(ApplyAll(text, es), id, TopAt(Gate(f, GATE_TEXT), base, id).value.0, TopAt(Gate(f, GATE_TEXT), base, id).value.1)
  {
    hide AllMatch, BlankEnds, GateShapes, AllPlaced, ApplyAll, TopAt, Gate, GateEdits, GateEditsAround, NeedsGate, Texts, IsRemoved,
         BlockAt, Body, Around, Moved;
    var i, n := GateOrigin(f, base, GATE_TEXT, base, id);
    var (header, kids) := TopAt(f, base, i).value;
    assert KeptChild(text, i, header, kids);
    var p, q :| BlockAt(text, i, i + 1 + Size(kids), p, q) && IsRemoved(header, Body(text, p, q)) == Ok(false);
    if NeedsGate(header, Texts(kids)) == Ok(true) {
      GatedChild(text, marks, es, xs, f, base, id, i, n, p, q);
    } else {
      UngatedAround(f, base, id, i, n);
      BlockMoves(text, es, xs, n, i, i + 1 + Size(kids), p, q);
      KeptByMove(text, es, xs, n, i, header, kids, p, q, id);
    }
  }

  lemma UngatedAround(f: Forest, base: nat, id: int, i: int, n: nat)
    requires GateEditsAround(f, base, GATE_TEXT, base, id, i, n)
    requires var (header, kids) := TopAt(f, base, i).value; NeedsGate(header, Texts(kids)) != Ok(true)
    ensures var (header, kids) := TopAt(f, base, i).value;
            var xs := GateEdits(f, base, GATE_TEXT);
            Around(xs, n, i, i + 1 + Size(kids)) && id == i + TotalDelta(xs[..n])
  {
    hide NeedsGate, Texts, TopAt, GateEdits, Around, TotalDelta;
  }

  lemma GatedAround(f: Forest, base: nat, id: int, i: int, n: nat)
    requires GateEditsAround(f, base, GATE_TEXT, base, id, i, n)
    requires var (header, kids) := TopAt(f, base, i).value; NeedsGate(header, Texts(kids)) == Ok(true)
    ensures var (header, kids) := TopAt(f, base, i).value;
            var xs, j := GateEdits(f, base, GATE_TEXT), i + 1 + Size(kids);
            && 0 <= i && n < |xs| && xs[n] == Edit(i + 1, i + 1, [Statement(GATE_TEXT)])
            && (forall k :: 0 <= k < n ==> xs[k].end <= i) && (forall k :: n < k < |xs| ==> xs[k].start > j)
            && id == i + TotalDelta(xs[..n])
  {
    hide NeedsGate, Texts, TopAt, GateEdits, TotalDelta;
  }

  lemma ShapeAt(text: string, marks: seq<Mark>, es: seq<Edit<char>>, xs: seq<Edit<Event>>, n: nat, i: int, p: int)
    returns (indentation: string, newline: string)
    requires GateShapes(marks, es, xs) && AllPlaced(text, marks) && n < |xs| && xs[n].start == xs[n].end == i + 1 && EventAt(text, i, p)
    ensures |es| == |xs| && es[n].start == es[n].end == p + 1
    ensures Indent(indentation) && (newline == "" || newline == "\n") && es[n].put == GatePut(indentation, newline)
  {
    hide AllPlaced, EventAt, Indent, GatePut;
    assert GateShape(marks, es[n], xs[n]);
    MarkIsEvent(text, marks, i);
    EventUnique(text, i, p, marks[i].at);
    indentation, newline :| Indent(indentation) && (newline == "" || newline == "\n") && es[n].put == GatePut(indentation, newline);
  }

  lemma GatedChild(text: string, marks: seq<Mark>, es: seq<Edit<char>>, xs: seq<Edit<Event>>, f: Forest, base: nat, id: int,
                   i: int, n: nat, p: int, q: int)
    requires xs == GateEdits(f, base, GATE_TEXT) && AllMatch(text, es, xs) && BlankEnds(text, es) && GateShapes(marks, es, xs)
    requires AllPlaced(text, marks) && TopAt(f, base, i).Some? && GateEditsAround(f, base, GATE_TEXT, base, id, i, n)
    requires var (header, kids) := TopAt(f, base, i).value;
             && NeedsGate(header, Texts(kids)) == Ok(true) && BlockAt(text, i, i + 1 + Size(kids), p, q)
             && IsRemoved(header, Body(text, p, q)) == Ok(false)
    ensures var (header, kids) := TopAt(f, base, i).value;
            KeptChild(ApplyAll(text, es), id, header, Directive(GATE_TEXT, kids))
  {
    hide AllMatch, BlankEnds, GateShapes, AllPlaced, ApplyAll, TopAt, GateEdits, GateEditsAround, NeedsGate, Texts, IsRemoved,
         EventAt, Body, TotalDelta, GatePut;
    var (header, kids) := TopAt(f, base, i).value;
    var j := i + 1 + Size(kids);
    GatedAround(f, base, id, i, n);
    var indentation, newline := ShapeAt(text, marks, es, xs, n, i, p);
    hide BlockAt;
    assert Opens(es, xs, n, i, j, p);
    GatedMoves(text, es, xs, n, i, j, p, q);
    SameVerdict(header, es[n].put, Body(text, p, q), indentation, newline);
    var t, dp := ApplyAll(text, es), TotalDelta(es[..n]);
    assert BlockAt(t, id, id + 1 + Size(Directive(GATE_TEXT, kids)), p + dp, q + dp + |es[n].put|);
  }

  lemma KeptAfterGates(text: string, b: BlockRec, kids: Forest, es: seq<Edit<char>>)
    requires Located(text, b, kids) && 0 <= b.close < |text|
    requires Gates(text, Parse(text).value, ChildrenOf(Parse(text).value.blocks, b.id)) == Ok(es)
    requires AllKept(text, kids, b.id + 1)
    ensures AllKept(ApplyAll(text, es), Gate(kids, GATE_TEXT), b.id + 1)
  {
    hide Located, Gates, ApplyAll, AllMatch, BlankEnds, GateShapes, AllPlaced, TopAt, Gate, KeptChild, GateEdits, Parse, ChildrenOf;
    GateStageMatches(text, b, kids, es);
    var base, g := b.id + 1, Gate(kids, GATE_TEXT);
    forall id | TopAt(g, base, id).Some? && TopAt(g, base, id).value.0 != DIRECT_NAME
      ensures KeptChild(ApplyAll(text, es), id, TopAt(g, base, id).value.0, TopAt(g, base, id).value.1)
    {
      ChildAfterGates(text, Marks(text), es, GateEdits(kids, base, GATE_TEXT), kids, base, id);
    }
  }
}
