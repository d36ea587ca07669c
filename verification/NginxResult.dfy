/** The main results about rewrite_direct_v1. */
module NginxResult {
  import opened Text
  import opened NginxLexer
  import opened NginxEvents
  import opened NginxOffsets
  import opened NginxTree
  import opened NginxParser
  import opened NginxParserTree
  import opened NginxLists
  import opened NginxTreeEdit
  import opened NginxRules
  import opened NginxSplice
  import opened NginxSnippets
  import opened NginxRewrite
  import opened NginxCommute
  import opened NginxStages
  import opened NginxGates
  import opened NginxTheorem
  import Shlex

  predicate IsUpstream(header: string) { Tokenise(header) == Ok(UPSTREAM_HEADER) }

  predicate AnyUpstream(headers: seq<string>) {
    exists i | 0 <= i < |headers| :: IsUpstream(headers[i])
  }

  predicate HasUpstream(f: Forest) { AnyUpstream(TopHeaders(f)) }

  /** The tree that the rewrite is meant to produce: the blocks `drop` deleted from the body of server
      `id`, the direct location as its last child, the gate include as first directive of each ungated
      proxying child, and the upstream block in front if there is none. Everything else stays. */
  function RewrittenTree(f: Forest, id: nat, drop: set<nat>): Forest {
    var kids := if NodeAt(f, 0, id).Some? then NodeAt(f, 0, id).value.1 else End;
    var body := Gate(Append(Prune(kids, id + 1, drop), DIRECT_TREE), GATE_TEXT);
    var g := SetKids(f, 0, id, body);
    if HasUpstream(f) then g else Append(UPSTREAM_TREE, g)
  }

  /* ---------------------------------------------------------------- second stage */

  lemma {:induction false} UpstreamsAreTop(blocks: seq<BlockRec>)
    requires Upstreams(blocks).Ok?
    ensures Upstreams(blocks).value != [] <==> AnyUpstream(Headers(ChildrenOf(blocks, -1)))
    decreases |blocks|
  {
    hide Tokenise, AnyUpstream, Headers;
    if blocks == [] {
      NoHeaders();
    } else {
      UpstreamsAreTop(blocks[1..]);
      var rest := Headers(ChildrenOf(blocks[1..], -1));
      if blocks[0].parent == -1 {
        ConsHeaders(blocks[0], ChildrenOf(blocks[1..], -1));
        ConsExists(blocks[0].header, rest);
      } else {
        SkipOther(blocks);
      }
    }
  }

  lemma NoHeaders()
    ensures Headers([]) == [] && !AnyUpstream([])
  {
  }

  lemma SkipOther(blocks: seq<BlockRec>)
    requires blocks != [] && blocks[0].parent != -1
    ensures ChildrenOf(blocks, -1) == ChildrenOf(blocks[1..], -1)
  {
  }

  lemma ConsHeaders(b: BlockRec, blocks: seq<BlockRec>)
    ensures Headers([b] + blocks) == [b.header] + Headers(blocks)
  {
    assert ([b] + blocks)[1..] == blocks;
  }

  lemma ConsExists(h: string, rest: seq<string>)
    ensures AnyUpstream([h] + rest) <==> IsUpstream(h) || AnyUpstream(rest)
  {
    hide IsUpstream;
    var all := [h] + rest;
    assert all[0] == h;
    if i :| 0 <= i < |rest| && IsUpstream(rest[i]) {
      assert all[i + 1] == rest[i];
    }
    if i :| 0 < i < |all| && IsUpstream(all[i]) {
      assert rest[i - 1] == all[i];
    }
  }

  /** WithUpstream on a parsed text. */
  lemma SecondStage(text: string, out: string)
    requires WithUpstream(text) == Ok(out)
    ensures Tree(text).Some? && Tree(out).Some?
    ensures Tree(out).value == if HasUpstream(Tree(text).value) then Tree(text).value else Append(UPSTREAM_TREE, Tree(text).value)
  {
    hide Run, Build, Blocks, Directives, Parse, Tree, ChildrenOf, TopBlocks, Headers, Upstreams, TopHeaders, IsUpstream, Fits, Tokenise;
    ParseGivesTree(text);
    var blocks := Parse(text).value.blocks;
    UpstreamsAreTop(blocks);
    var f := Tree(text).value;
    ChildrenInTree(f, Marks(text), 0, -1, -1);
    HeadersOfTop(f, Marks(text), 0, -1);
    if !HasUpstream(f) {
      UpstreamStage(text);
    }
  }

  /* ---------------------------------------------------------------- what the verification adds */

  predicate NoV1(header: string) {
    !(LocationPath(header).Ok? && LocationPath(header).value.Some? && IsLiteralV1(LocationPath(header).value.value))
  }

  predicate AllNoV1(headers: seq<string>) {
    forall i :: 0 <= i < |headers| ==> NoV1(headers[i])
  }

  lemma {:induction false} V1NeedsHeader(children: seq<BlockRec>)
    requires V1Locations(children).Ok? && AllNoV1(Headers(children))
    ensures V1Locations(children).value == []
    decreases |children|
  {
    hide LocationPath, IsLiteralV1;
    if children != [] {
      var hs := Headers(children);
      assert hs[0] == children[0].header && hs[1..] == Headers(children[1..]);
      assert NoV1(hs[0]);
      forall i | 0 <= i < |hs[1..]|
        ensures NoV1(hs[1..][i])
      {
        assert NoV1(hs[i + 1]);
      }
      V1NeedsHeader(children[1..]);
    }
  }

  /** No child that is kept is a literal `/v1` location. */
  lemma {:induction false} KeptIsNoV1(text: string, f: Forest, marks: seq<Mark>, base: nat, parent: int, drop: set<nat>)
    requires Removals(text, TopBlocks(f, marks, base, parent)).Ok?
    requires DropsRemoved(text, TopBlocks(f, marks, base, parent), drop)
    ensures AllNoV1(TopHeaders(Prune(f, base, drop)))
    decreases f
  {
    hide RecAt, RemovedBlock, NoV1, Removals, DropsRemoved, RemovalOf;
    match f
    case End =>
    case Directive(_, rest) => KeptIsNoV1(text, rest, marks, base + 1, parent, drop);
    case Block(header, kids, rest) =>
      var r, n := RecAt(header, kids, marks, base, parent), base + 2 + Size(kids);
      RecParent(header, kids, marks, base, parent);
      RemovalsUnfold(text, r, TopBlocks(rest, marks, n, parent));
      DropsTail(text, r, TopBlocks(rest, marks, n, parent), drop);
      KeptIsNoV1(text, rest, marks, n, parent, drop);
      if base !in drop {
        NotRemovedIsNoV1(text, r);
        ConsNoV1(header, TopHeaders(Prune(rest, n, drop)));
      }
  }

  lemma ConsNoV1(h: string, rest: seq<string>)
    requires NoV1(h) && AllNoV1(rest)
    ensures AllNoV1([h] + rest)
  {
    hide NoV1;
  }

  lemma NotRemovedIsNoV1(text: string, r: BlockRec)
    requires RemovedBlock(text, r) == Ok(false)
    ensures NoV1(r.header)
  {
    hide LocationPath, IsCaptureLocation, Contains, Lower, IsLiteralV1;
  }

  lemma ConcatNoV1(a: seq<string>, b: seq<string>)
    requires AllNoV1(a) && AllNoV1(b)
    ensures AllNoV1(a + b)
  {
    hide NoV1;
  }

  lemma V1OfOne(header: string)
    requires LocationPath(header) == Error || LocationPath(header) == Ok(None)
    ensures NoV1(header)
  {
    hide LocationPath;
  }

  /* ---------------------------------------------------------------- the main result */

  /** The text before the insertion, as seen by the lexer, is stable. */
  lemma UnfinishedIsStable(text: string, close: nat)
    requires close <= |text| && At(text, close).lex == Code
    ensures Stable(Unfinished(text, close))
  {
    hide At, Stable;
    PendingIsStable(text, close);
    PrefixIsPlain();
    PlainIsStable("");
    PlainIsStable("\n");
    StableConcat(At(text, close).pending, "");
    StableConcat(At(text, close).pending, "\n");
  }

  /** If text stands unfinished before the closing brace, the inserted block is no literal `/v1` location. */
  lemma SwallowedIsNoV1(text: string, close: nat)
    requires close <= |text| && At(text, close).lex == Code
    requires !Blank(Unfinished(text, close))
    ensures AllNoV1(TopHeaders(DirectAfter(Unfinished(text, close))))
  {
    hide LocationPath, Blank, At, HeaderAfter, LeafTexts, Stable, Unfinished, NoV1;
    var u := Unfinished(text, close);
    UnfinishedIsStable(text, close);
    UnfinishedIsNoLocation(u);
    DirectIsSafe();
    V1OfOne(HeaderAfter(u, "    ", DIRECT_HEADER));
  }

  /** Block `id` of the tree of `text` is the approved server, with header `header` and body `kids`. */
  ghost predicate ServerAt(text: string, host: string, id: int, header: string, kids: Forest) {
    && Tree(text).Some? && NodeAt(Tree(text).value, 0, id) == Some((header, kids))
    && IsApproved(header, Texts(kids), host) == Ok(true)
  }

  lemma FindServer(text: string, host: string, b: BlockRec) returns (kids: Forest)
    requires Parse(text).Some? && ApprovedServer(Parse(text).value, host) == Ok(b)
    ensures Located(text, b, kids) && 0 <= b.close < |text|
    ensures ServerAt(text, host, b.id, b.header, kids)
  {
    hide Parse, Tree, NodeAt, Located, IsApproved, ApprovedServers;
    ApprovedMembers(Parse(text).value, Parse(text).value.blocks, host);
    kids := Locate(text, b);
    LocatedBounds(text, b, kids);
    ApprovedQualifies(text, host, b, kids);
    LocatedNode(text, b, kids);
  }

  lemma LocatedNode(text: string, b: BlockRec, kids: Forest)
    requires Located(text, b, kids)
    ensures Tree(text).Some? && NodeAt(Tree(text).value, 0, b.id) == Some((b.header, kids))
    ensures Parse(text).Some?
    ensures ChildrenOf(Parse(text).value.blocks, b.id) == TopBlocks(kids, Marks(text), b.id + 1, b.id)
  {
    hide Tree, NodeAt, Run, Flatten, AllPlaced, Framed, Parse, ChildrenOf, TopBlocks, TextsOf, Texts;
  }

  /** The block that qualifies in the tree is the server that the source finds. */
  lemma ServerIs(text: string, host: string, id: nat, header: string, kids: Forest) returns (b: BlockRec)
    requires Parse(text).Some? && ApprovedServer(Parse(text).value, host).Ok?
    requires ServerAt(text, host, id, header, kids)
    ensures b.id == id && ApprovedServer(Parse(text).value, host) == Ok(b)
    ensures Located(text, b, kids) && 0 <= b.close < |text|
  {
    hide Parse, Tree, NodeAt, Located, IsApproved, ApprovedServers;
    ApprovedIs(text, host, id);
    b := ApprovedServer(Parse(text).value, host).value;
    var kids' := FindServer(text, host, b);
  }

  lemma FirstStage(text: string, host: string, t1: string) returns (b: BlockRec, kids: Forest)
    requires WithDirect(text, host) == Ok(t1)
    ensures Parse(text).Some? && ApprovedServer(Parse(text).value, host) == Ok(b)
    ensures Located(text, b, kids) && 0 <= b.close < |text|
    ensures ServerAt(text, host, b.id, b.header, kids)
    ensures Removals(text, ChildrenOf(Parse(text).value.blocks, b.id)).Ok?
    ensures Tree(t1) == Some(SetKids(Tree(text).value, 0, b.id,
                             DirectBody(text, b, kids, ChildrenOf(Parse(text).value.blocks, b.id))))
  {
    hide Parse, Tree, NodeAt, Located, IsApproved, ApprovedServers, DirectBody, ApplyAll, ChildrenOf, Removals, RefuseCapture, SetKids;
    b := ApprovedServer(Parse(text).value, host).value;
    kids := FindServer(text, host, b);
    DirectStage(text, b, kids, Removals(text, ChildrenOf(Parse(text).value.blocks, b.id)).value);
  }

  lemma ThirdStage(text: string, host: string, out: string, id: nat, header: string, kids: Forest)
    requires WithGates(text, host) == Ok(out) && ServerAt(text, host, id, header, kids)
    ensures Tree(out) == Some(SetKids(Tree(text).value, 0, id, Gate(kids, GATE_TEXT)))
  {
    hide Parse, Tree, NodeAt, Located, IsApproved, ApprovedServers, ApplyAll, ChildrenOf, Gates, SetKids, Gate, ServerAt;
    var b := ServerIs(text, host, id, header, kids);
    GateStage(text, b, kids, Gates(text, Parse(text).value, ChildrenOf(Parse(text).value.blocks, b.id)).value);
  }

  /** The final verification finds a literal `/v1` location in the server. */
  lemma VerifiedHasV1(text: string, host: string, id: nat, header: string, kids: Forest)
    requires Verify(text, host).Ok? && ServerAt(text, host, id, header, kids)
    ensures !AllNoV1(TopHeaders(kids))
  {
    hide Parse, Tree, NodeAt, Located, IsApproved, ApprovedServers, ChildrenOf, V1Locations, AllNoV1, Upstreams,
         DirectTokens, ReviewedUpstream, ReviewedV1Body, RefuseUngated, RefuseCaptureLocations, RefuseCaptureDirectives,
         TextsOf, ServerAt, TopHeaders, Headers, TopBlocks;
    var b := ServerIs(text, host, id, header, kids);
    LocatedNode(text, b, kids);
    var children := ChildrenOf(Parse(text).value.blocks, b.id);
    HeadersOfTop(kids, Marks(text), b.id + 1, b.id);
    if AllNoV1(TopHeaders(kids)) {
      V1NeedsHeader(children);
    }
  }

  /** Nothing was left unfinished before the insertion if the result has a literal `/v1` location. */
  lemma NothingSwallowed(text: string, b: BlockRec, kids: Forest)
    requires Located(text, b, kids) && 0 <= b.close < |text|
    requires Removals(text, ChildrenOf(Parse(text).value.blocks, b.id)).Ok?
    requires !AllNoV1(TopHeaders(DirectBody(text, b, kids, ChildrenOf(Parse(text).value.blocks, b.id))))
    ensures Blank(Unfinished(text, b.close))
  {
    hide Parse, Tree, NodeAt, Located, ChildrenOf, AllNoV1, TopHeaders, Headers, TopBlocks, Removals, Prune, DirectAfter,
         Unfinished, RemovedIds, At, Blank, DropsRemoved;
    LocatedNode(text, b, kids);
    var children := ChildrenOf(Parse(text).value.blocks, b.id);
    var drop := RemovedIds(text, children);
    RemovedIdsDrop(text, kids, Marks(text), b.id + 1, b.id);
    KeptIsNoV1(text, kids, Marks(text), b.id + 1, b.id, drop);
    TextsOfAppend(Prune(kids, b.id + 1, drop), DirectAfter(Unfinished(text, b.close)));
    CodeAtClose(text, b, kids);
    if !Blank(Unfinished(text, b.close)) {
      SwallowedIsNoV1(text, b.close);
      ConcatNoV1(TopHeaders(Prune(kids, b.id + 1, drop)), TopHeaders(DirectAfter(Unfinished(text, b.close))));
    }
  }

  lemma CodeAtClose(text: string, b: BlockRec, kids: Forest)
    requires Located(text, b, kids) && 0 <= b.close < |text|
    ensures At(text, b.close).lex == Code
  {
    hide Run, Flatten, NodeAt, TopBlocks, Texts, ChildrenOf, TextsOf, StartPlaced, Fits, Parse, Tree;
    assert Placed(text, Marks(text), b.id + 1 + Size(kids));
  }

  /** Keeping the directives of the body keeps the server approved. */
  lemma StillApproved(before: string, text: string, host: string, id: nat, header: string, kids: Forest, body: Forest)
    requires ServerAt(before, host, id, header, kids) && Texts(body) == Texts(kids)
    requires Tree(text) == Some(SetKids(Tree(before).value, 0, id, body))
    ensures ServerAt(text, host, id, header, body)
  {
    hide Tree, NodeAt, SetKids, IsApproved, Texts;
    SetKidsKeeps(Tree(before).value, 0, id, body);
  }

  /** How far the upstream stage moves the events of the text. */
  function Shift(f: Forest): nat {
    if HasUpstream(f) then 0 else Size(UPSTREAM_TREE)
  }

  lemma UpstreamShifts(f: Forest, id: nat, body: Forest)
    ensures var g := if HasUpstream(f) then f else Append(UPSTREAM_TREE, f);
            && NodeAt(g, 0, id + Shift(f)) == NodeAt(f, 0, id)
            && SetKids(g, 0, id + Shift(f), body)
               == if HasUpstream(f) then SetKids(f, 0, id, body) else Append(UPSTREAM_TREE, SetKids(f, 0, id, body))
  {
    hide NodeAt, SetKids, HasUpstream, Append;
    BlockInFront(UPSTREAM_TREE.header, UPSTREAM_TREE.kids, f, id, body);
  }

  lemma AfterUpstream(t1: string, t2: string, host: string, id: nat, header: string, body: Forest)
    requires WithUpstream(t1) == Ok(t2) && ServerAt(t1, host, id, header, body)
    ensures ServerAt(t2, host, id + Shift(Tree(t1).value), header, body)
  {
    hide Tree, NodeAt, SetKids, HasUpstream, IsApproved, Texts, WithUpstream;
    SecondStage(t1, t2);
    UpstreamShifts(Tree(t1).value, id, End);
  }

  lemma DirectBodyTexts(text: string, b: BlockRec, kids: Forest, children: seq<BlockRec>)
    requires 0 <= b.close <= |text|
    ensures Texts(DirectBody(text, b, kids, children)) == Texts(kids)
  {
    hide Prune, Unfinished, RemovedIds, DirectAfter, Append, Texts;
    var drop := RemovedIds(text, children);
    TextsOfPrune(kids, b.id + 1, drop);
    TextsOfAppend(Prune(kids, b.id + 1, drop), DirectAfter(Unfinished(text, b.close)));
    DirectAfterTexts(Unfinished(text, b.close));
  }

  lemma DirectAfterTexts(p: string)
    ensures Texts(DirectAfter(p)) == []
  {
    hide HeaderAfter, LeafTexts;
  }

  lemma SetKidsUpstream(f: Forest, id: nat, a: Forest, g: Forest)
    requires NodeAt(f, 0, id).Some?
    ensures var f1 := SetKids(f, 0, id, a);
            && HasUpstream(f1) == HasUpstream(f)
            && SetKids(if HasUpstream(f1) then f1 else Append(UPSTREAM_TREE, f1), 0, id + Shift(f1), g)
               == if HasUpstream(f) then SetKids(f, 0, id, g) else Append(UPSTREAM_TREE, SetKids(f, 0, id, g))
  {
    hide SetKids, NodeAt, Append, AnyUpstream, TopHeaders;
    SetKidsKeeps(f, 0, id, a);
    SetKidsTwice(f, 0, id, a, g);
    UpstreamShifts(SetKids(f, 0, id, a), id, g);
  }

  /** The children of server `b` that the rewrite deletes. */
  function Dropped(text: string, b: BlockRec): set<nat> {
    if Parse(text).Some? then RemovedIds(text, ChildrenOf(Parse(text).value.blocks, b.id)) else {}
  }

  /** The text edit and the tree edit commute: whenever the rewrite returns, its text parses to the
      rewritten tree of the input. It never returns when the server's body ends in unfinished text,
      which the inserted location would swallow. */
  lemma RewriteCommutes(text: string, host: string, out: string)
    requires Rewrite(text, host) == Ok(out)
    ensures Parse(text).Some? && Tree(text).Some? && Parse(out).Some?
    ensures ApprovedServer(Parse(text).value, host).Ok?
    ensures var b := ApprovedServer(Parse(text).value, host).value;
            && NodeAt(Tree(text).value, 0, b.id).Some?
            && 0 <= b.close <= |text| && Blank(Unfinished(text, b.close))
            && Tree(out) == Some(RewrittenTree(Tree(text).value, b.id, Dropped(text, b)))
  {
    hide Parse, Tree, NodeAt, SetKids, HasUpstream, IsApproved, Texts, WithUpstream, WithDirect, WithGates, Verify, ServerAt,
         Located, ApprovedServer, DirectBody, ChildrenOf, Removals, AllNoV1, TopHeaders, Gate, Shift, Append, Prune, RemovedIds;
    var t1 := WithDirect(text, host).value;
    var t2 := WithUpstream(t1).value;
    var b, kids := FirstStage(text, host, t1);
    LocatedNode(text, b, kids);
    var children := ChildrenOf(Parse(text).value.blocks, b.id);
    var body := DirectBody(text, b, kids, children);
    var gated := Gate(body, GATE_TEXT);
    DirectBodyTexts(text, b, kids, children);
    StillApproved(text, t1, host, b.id, b.header, kids, body);
    AfterUpstream(t1, t2, host, b.id, b.header, body);
    var id := b.id + Shift(Tree(t1).value);
    ThirdStage(t2, host, out, id, b.header, body);
    TextsOfGate(body, GATE_TEXT);
    StillApproved(t2, out, host, id, b.header, body, gated);
    VerifiedHasV1(out, host, id, b.header, gated);
    NothingSwallowed(text, b, kids);
    SecondStage(t1, t2);
    SetKidsUpstream(Tree(text).value, b.id, body, gated);
    CleanBody(text, b, kids, children);
    VerifyParses(out, host);
  }

  lemma VerifyParses(text: string, host: string)
    requires Verify(text, host).Ok?
    ensures Parse(text).Some?
  {
  }

  lemma CleanBody(text: string, b: BlockRec, kids: Forest, children: seq<BlockRec>)
    requires 0 <= b.close <= |text| && Blank(Unfinished(text, b.close))
    ensures DirectBody(text, b, kids, children) == Append(Prune(kids, b.id + 1, RemovedIds(text, children)), DIRECT_TREE)
  {
    hide Blank, Unfinished, Append, Prune, RemovedIds, DirectAfter;
    DirectAfterBlank(Unfinished(text, b.close));
  }
}
