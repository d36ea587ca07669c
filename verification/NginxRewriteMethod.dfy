/** rewrite_direct_v1 as the source runs it: loops that collect the edits, then splicing from the end. */
module NginxRewriteMethod {
  import opened Text
  import opened NginxEvents
  import opened NginxOffsets
  import opened NginxTree
  import opened NginxParser
  import opened NginxParserTree
  import opened NginxLists
  import opened NginxTreeEdit
  import opened NginxRules
  import opened NginxSplice
  import opened NginxRewrite
  import opened NginxCommute
  import opened NginxStages
  import opened NginxTheorem
  import opened NginxResult
  import opened NginxLaminar
  import opened NginxOutcome
  import opened NginxExact

  /** Edits already collected in front of those still to come. */
  function Ahead<T>(done: seq<T>, rest: Result<seq<T>>): Result<seq<T>> {
    if rest.Error? then Error else Ok(done + rest.value)
  }

  lemma AheadStep<T>(done: seq<T>, more: seq<T>, rest: Result<seq<T>>)
    ensures Ahead(done, Ahead(more, rest)) == Ahead(done + more, rest)
  {
    if rest.Ok? {
      assert done + (more + rest.value) == (done + more) + rest.value;
    }
  }

  lemma RemovalsStep(text: string, children: seq<BlockRec>, i: nat)
    requires i < |children|
    ensures Removals(text, children[i..])
         == if RemovedBlock(text, children[i]).Error? then Error
            else Ahead(if RemovedBlock(text, children[i]).value then [RemovalOf(text, children[i])] else [],
                       Removals(text, children[i + 1..]))
  {
    hide RemovedBlock, RemovalOf;
    assert children[i..][1..] == children[i + 1..];
  }

  method CollectRemovals(text: string, children: seq<BlockRec>) returns (r: Result<seq<Edit<char>>>)
    ensures r == Removals(text, children)
  {
    hide RemovedBlock, RemovalOf, Removals;
    var removals: seq<Edit<char>> := [];
    assert children[0..] == children;
    NothingAhead(Removals(text, children));
    for i := 0 to |children|
      invariant Removals(text, children) == Ahead(removals, Removals(text, children[i..]))
    {
      RemovalsStep(text, children, i);
      var removed := RemovedBlock(text, children[i]);
      if removed.Error? {
        return Error;
      }
      var more := if removed.value then [RemovalOf(text, children[i])] else [];
      AheadStep(removals, more, Removals(text, children[i + 1..]));
      removals := removals + more;
    }
    NoRemovals(text, children[|children|..]);
    assert removals + [] == removals;
    return Ok(removals);
  }

  lemma NothingAhead<T>(r: Result<seq<T>>)
    ensures Ahead([], r) == r
  {
    if r.Ok? {
      assert [] + r.value == r.value;
    }
  }

  lemma NoRemovals(text: string, children: seq<BlockRec>)
    requires children == []
    ensures Removals(text, children) == Ok([])
  {
  }

  lemma GatesStepAt(text: string, cfg: Config, children: seq<BlockRec>, i: nat)
    requires i < |children|
    ensures Gates(text, cfg, children[i..])
         == if NeedsGate(children[i].header, TextsOf(cfg.directives, children[i].id)).Error? then Error
            else Ahead(if NeedsGate(children[i].header, TextsOf(cfg.directives, children[i].id)).value
                       then [GateOf(text, children[i])] else [],
                       Gates(text, cfg, children[i + 1..]))
  {
    hide NeedsGate, GateOf, TextsOf;
    assert children[i..][1..] == children[i + 1..];
  }

  method CollectGates(text: string, cfg: Config, children: seq<BlockRec>) returns (r: Result<seq<Edit<char>>>)
    ensures r == Gates(text, cfg, children)
  {
    hide NeedsGate, GateOf, TextsOf, Gates;
    var insertions: seq<Edit<char>> := [];
    assert children[0..] == children;
    NothingAhead(Gates(text, cfg, children));
    for i := 0 to |children|
      invariant Gates(text, cfg, children) == Ahead(insertions, Gates(text, cfg, children[i..]))
    {
      GatesStepAt(text, cfg, children, i);
      var needed := NeedsGate(children[i].header, TextsOf(cfg.directives, children[i].id));
      if needed.Error? {
        return Error;
      }
      var more := if needed.value then [GateOf(text, children[i])] else [];
      AheadStep(insertions, more, Gates(text, cfg, children[i + 1..]));
      insertions := insertions + more;
    }
    NoGates(text, cfg, children[|children|..]);
    assert insertions + [] == insertions;
    return Ok(insertions);
  }

  lemma NoGates(text: string, cfg: Config, children: seq<BlockRec>)
    requires children == []
    ensures Gates(text, cfg, children) == Ok([])
  {
  }

  method RefuseCaptures(texts: seq<string>) returns (r: Result<()>)
    ensures r == RefuseCapture(texts)
  {
    hide Tokenise, IsCaptureDirective;
    assert texts[0..] == texts;
    for i := 0 to |texts|
      invariant RefuseCapture(texts) == RefuseCapture(texts[i..])
    {
      assert texts[i..][1..] == texts[i + 1..];
      var tokens :- Tokenise(texts[i]);
      if IsCaptureDirective(tokens) {
        return Error;
      }
    }
    return Ok(());
  }

  /** The one server that terminates TLS for the host, and the rewritten tree. */
  ghost predicate IsRewritten(text: string, host: string, out: string, id: nat, header: string, kids: Forest) {
    TheServer(text, host, id, header, kids) && Tree(out) == Some(NewTree(text, Tree(text).value, id, kids))
  }

  /** It returns exactly for the texts that can be rewritten. Then parse_config reads in the result the tree
      of the input, in which the server has lost its removable children, its remaining ones have their gates,
      and the direct location is its last child. */
  method RewriteDirectV1(text: string, hostname: string) returns (r: Result<string>)
    ensures r == Rewrite(text, hostname)
    ensures r.Ok? <==> exists id: nat, header, kids :: Rewritable(text, hostname, id, header, kids)
    ensures r.Ok? ==> exists id: nat, header, kids :: IsRewritten(text, hostname, r.value, id, header, kids)
  {
    hide Parse, Tree, ApprovedServer, ChildrenOf, Removals, Gates, Upstreams, Verify, RefuseCapture, TextsOf, Headers,
         ApplyAll, InsertionOf, Rewritable, IsRewritten;
    ReturnsIff(text, hostname);
    var cfg :- ParseOrRaise(text);
    var server :- ApprovedServer(cfg, hostname);
    var children := ChildrenOf(cfg.blocks, server.id);
    var collected := CollectRemovals(text, children);
    var removals :- collected;
    var checked := RefuseCaptures(TextsOf(cfg.directives, server.id));
    var _ :- checked;
    checked := RefuseCaptures(Headers(children));
    var _ :- checked;
    if server.close < 0 {
      return Error;
    }
    var rewritten := ApplyDescending(text, removals + [InsertionOf(text, server.close)]);
    var parsed :- ParseOrRaise(rewritten);
    var upstreams :- Upstreams(parsed.blocks);
    if upstreams == [] {
      rewritten := UPSTREAM_BLOCK + rewritten;
    }
    parsed :- ParseOrRaise(rewritten);
    server :- ApprovedServer(parsed, hostname);
    collected := CollectGates(rewritten, parsed, ChildrenOf(parsed.blocks, server.id));
    var insertions :- collected;
    rewritten := ApplyDescending(rewritten, insertions);
    var _ :- Verify(rewritten, hostname);
    Rewrote(text, hostname, rewritten);
    return Ok(rewritten);
  }

  lemma Rewrote(text: string, host: string, out: string)
    requires Rewrite(text, host) == Ok(out)
    ensures exists id: nat, header, kids :: IsRewritten(text, host, out, id, header, kids)
  {
    hide *;
    var id, header, kids := RewriteMeans(text, host, out);
    IsTheServer(text, host, id, header, kids);
    IsRewrittenIntro(text, host, out, id, header, kids);
  }

  lemma IsRewrittenIntro(text: string, host: string, out: string, id: nat, header: string, kids: Forest)
    requires TheServer(text, host, id, header, kids) && Tree(text).Some? && Tree(out) == Some(NewTree(text, Tree(text).value, id, kids))
    ensures IsRewritten(text, host, out, id, header, kids)
  {
    hide Tree, NewTree;
  }

  /* ---------------------------------------------------------------- the intervals */

  /** The removal intervals lie in the body of the server, one behind the other, and end before its
      brace, so the loop that splices from the end makes one simultaneous edit. */
  lemma EditsAreDisjoint(text: string, host: string, es: seq<Edit<char>>)
    requires DirectEdits(text, host) == Ok(es)
    ensures var b := ApprovedServer(Parse(text).value, host).value;
            && Ascending(es, |text|) && es != []
            && (forall i :: 0 <= i < |es| ==> b.open < es[i].start <= es[i].end <= b.close)
            && es[|es| - 1] == InsertionOf(text, b.close)
    ensures ApplyAll(text, es) == Simultaneous(text, 0, es)
  {
    hide Parse, Tree, ApprovedServer, ChildrenOf, Removals, RefuseCapture, TextsOf, Headers, Located,
         InsertionOf, ApplyAll, Simultaneous, ServerAt, Ascending;
    var b := ApprovedServer(Parse(text).value, host).value;
    var kids := FindServer(text, host, b);
    var removals := Removals(text, ChildrenOf(Parse(text).value.blocks, b.id)).value;
    RemovalsAscend(text, b, kids, removals);
    InsertionIsAt(text, b.close);
    AppendAscending(removals, InsertionOf(text, b.close), b.open, b.close, |text|);
    DescendingIsSimultaneous(text, es, 0);
    DropNothing(ApplyAll(text, es));
  }

  lemma RemovalsAscend(text: string, b: BlockRec, kids: Forest, removals: seq<Edit<char>>)
    requires Located(text, b, kids) && 0 <= b.close < |text|
    requires Removals(text, ChildrenOf(Parse(text).value.blocks, b.id)) == Ok(removals)
    ensures Ascending(removals, b.close) && b.open < b.close
    ensures forall i :: 0 <= i < |removals| ==> b.open < removals[i].start
  {
    hide Parse, Tree, ChildrenOf, Removals, TextsOf, Located, At, Matches, Marks, EventsOf, Fits, Ascending,
         AllPlaced, EditsFit, TopBlocks, RemovedIds, PruneEdits, DropsRemoved, NodeAt, Texts, Flatten;
    LocatedNode(text, b, kids);
    LocatedFrame(text, b, kids);
    var marks, e := Marks(text), b.id + 1 + Size(kids);
    var drop := RemovedIds(text, ChildrenOf(Parse(text).value.blocks, b.id));
    RemovedIdsDrop(text, kids, marks, b.id + 1, b.id);
    RemovalsFit(text, marks, kids, b.id + 1, b.id, e, removals, drop);
    RemovalsInBody(text, marks, removals, PruneEdits(kids, b.id + 1, drop), b);
    MarksAscend(text, marks, b.id, e);
  }

  lemma DropNothing<T>(s: seq<T>)
    ensures Drop(s, 0) == s
  {
  }

  lemma LocatedFrame(text: string, b: BlockRec, kids: Forest)
    requires Located(text, b, kids)
    ensures Framed(Marks(text), b, kids) && AllPlaced(text, Marks(text))
  {
    hide Run, Flatten, NodeAt, TopBlocks, Texts, ChildrenOf, TextsOf, Framed, AllPlaced, Parse, Tree;
  }

  lemma RemovalsInBody(text: string, marks: seq<Mark>, es: seq<Edit<char>>, xs: seq<Edit<Event>>, b: BlockRec)
    requires AllPlaced(text, marks) && b.id < |marks| && marks[b.id].at == b.open && b.close >= 0
    requires EditsFit(text, marks, es, xs, b.id + 1, b.close)
    ensures Ascending(es, b.close)
    ensures forall i :: 0 <= i < |es| ==> b.open < es[i].start
  {
    hide Matches, At, Placed, AllPlaced;
    if es != [] {
      var k :| b.id + 1 <= k < |marks| && marks[k].OpenAt? && (es[0].start == marks[k].start || es[0].start == marks[k].at + 1);
      LaterStart(text, marks, b.id, k);
      forall i | 0 <= i < |es|
        ensures b.open < es[i].start
      {
        AscendingStarts(es, b.close, i);
      }
    }
  }

  lemma {:induction false} AscendingStarts<T>(es: seq<Edit<T>>, size: nat, n: nat)
    requires Ascending(es, size) && n < |es|
    ensures es[0].start <= es[n].start
  {
    if n > 0 {
      AscendingStarts(es, size, n - 1);
      assert es[n - 1].start <= es[n - 1].end <= StartOr(es, n, size);
    }
  }

  lemma AppendAscending<T>(es: seq<Edit<T>>, e: Edit<T>, lo: int, hi: nat, size: nat)
    requires Ascending(es, hi) && e.start == e.end == hi <= size && lo < hi
    requires forall i :: 0 <= i < |es| ==> lo < es[i].start
    ensures Ascending(es + [e], size)
    ensures forall i :: 0 <= i < |es + [e]| ==> lo < (es + [e])[i].start <= (es + [e])[i].end <= hi
  {
    var fs := es + [e];
    EndsBelow(es, hi);
    forall i | 0 <= i < |fs|
      ensures fs[i].start <= fs[i].end <= StartOr(fs, i + 1, size)
    {
      if i < |es| {
        assert fs[i] == es[i];
        assert StartOr(fs, i + 1, size) == StartOr(es, i + 1, hi);
      }
    }
  }

  lemma EndsBelow<T>(es: seq<Edit<T>>, hi: nat)
    requires Ascending(es, hi)
    ensures forall i :: 0 <= i < |es| ==> es[i].end <= hi
  {
    for k := |es| downto 0
      invariant forall i :: k <= i < |es| ==> es[i].start <= es[i].end <= hi
    {
    }
  }
}
