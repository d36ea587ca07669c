/** The outcome of rewrite_direct_v1, said of tokens and raw text alone. */
module NginxOutcome {
  import opened Text
  import opened NginxLexer
  import opened NginxEvents
  import opened NginxOffsets
  import opened NginxTree
  import opened NginxParser
  import opened NginxParserTree
  import opened NginxLists
  import opened NginxTreeEdit
  import opened NginxRules
  import opened NginxSplice
  import opened NginxSnippets
  import opened NginxRewrite
  import opened NginxCommute
  import opened NginxStages
  import opened NginxTheorem
  import opened NginxResult
  import opened NginxShift
  import opened NginxKept
  import opened NginxSecond
  import opened NginxInserted
  import opened NginxCarried
  import opened NginxIdempotent
  import opened NginxMeaning
  import Shlex

  /* ---------------------------------------------------------------- the server */

  /** Block `id` terminates TLS for the host, and no other block does. */
  ghost predicate TheServer(text: string, host: string, id: int, header: string, kids: Forest) {
    && Tree(text).Some? && NodeAt(Tree(text).value, 0, id) == Some((header, kids))
    && Approved(header, Texts(kids), host)
    && forall other: nat :: ApprovedNode(text, host, other) ==> other == id
  }

  ghost predicate ApprovedNode(text: string, host: string, id: int) {
    && Tree(text).Some? && NodeAt(Tree(text).value, 0, id).Some?
    && Approved(NodeAt(Tree(text).value, 0, id).value.0, Texts(NodeAt(Tree(text).value, 0, id).value.1), host)
  }

  /** Every block was judged. */
  lemma NodeIsJudged(text: string, host: string, id: nat)
    requires Parse(text).Some? && ApprovedServer(Parse(text).value, host).Ok?
    requires Tree(text).Some? && NodeAt(Tree(text).value, 0, id).Some?
    ensures var (header, kids) := NodeAt(Tree(text).value, 0, id).value; IsApproved(header, Texts(kids), host).Ok?
  {
    hide Tree, NodeAt, Blocks, Directives, Parse, TextsOf, Texts, IsApproved, ApprovedServers, Fits;
    var cfg, marks, f := Parse(text).value, Marks(text), Tree(text).value;
    ParseGivesTree(text);
    ApprovedMembers(cfg, cfg.blocks, host);
    var r := NodesAreRecords(f, marks, 0, -1, id);
    RecordsAreNodes(f, marks, 0, -1, r);
    RecHeader(f, marks, r);
    NodeBounds(f, 0, id);
    TextsInTree(f, marks, 0, -1, id);
  }

  lemma ServerIsThe(text: string, host: string, b: BlockRec, kids: Forest)
    requires Parse(text).Some? && ApprovedServer(Parse(text).value, host) == Ok(b)
    requires ServerAt(text, host, b.id, b.header, kids)
    ensures TheServer(text, host, b.id, b.header, kids)
  {
    hide Tree, NodeAt, Parse, Texts, IsApproved, ApprovedServer, Approved;
    ApprovedIff(b.header, Texts(kids), host);
    forall other: nat | ApprovedNode(text, host, other)
      ensures other == b.id
    {
      var (header, body) := NodeAt(Tree(text).value, 0, other).value;
      NodeIsJudged(text, host, other);
      ApprovedIff(header, Texts(body), host);
      var judged := IsApproved(header, Texts(body), host);
      assert judged.Ok? && judged != Ok(false);
      assert judged.value;
      ApprovedIs(text, host, other);
    }
  }

  /* ---------------------------------------------------------------- the children */

  /** The text between the braces of block `id`. */
  function RawBody(text: string, marks: seq<Mark>, id: nat, kids: Forest): string {
    Body(text, MarkAt(marks, id).at, MarkAt(marks, id + 1 + Size(kids)).at)
  }

  /** The children that stay, in their order, and those of them that lack their gate with the gate first. */
  ghost function Remaining(text: string, marks: seq<Mark>, f: Forest, base: nat): Forest {
    match f
    case End => End
    case Directive(t, rest) => Directive(t, Remaining(text, marks, rest, base + 1))
    case Block(header, kids, rest) =>
      var more := Remaining(text, marks, rest, base + 2 + Size(kids));
      if Removable(header, RawBody(text, marks, base, kids)) then more
      else Block(header, if Ungated(header, Texts(kids)) then Directive("include" + " " + GATE_FILE, kids) else kids, more)
  }

  ghost predicate AllReadable(headers: seq<string>) { forall i :: 0 <= i < |headers| ==> !Unreadable(headers[i]) }

  lemma GateTextIsInclude()
    ensures GATE_TEXT == "include" + " " + GATE_FILE
  {
    GateIsSafe();
    var ws := ["include", GATE_FILE];
    assert GATE_WORDS == ws;
    assert ws[..1] == ["include"];
    assert Shlex.Join(["include"]) == "include";
  }

  lemma {:induction false} RemainingIs(text: string, marks: seq<Mark>, f: Forest, base: nat, parent: int, drop: set<nat>)
    requires AllPlaced(text, marks) && base + Size(f) <= |marks|
    requires Removals(text, TopBlocks(f, marks, base, parent)).Ok?
    requires DropsRemoved(text, TopBlocks(f, marks, base, parent), drop)
    ensures Gate(Prune(f, base, drop), GATE_TEXT) == Remaining(text, marks, f, base)
    ensures AllReadable(TopHeaders(f))
    decreases f
  {
    hide RecAt, RemovedBlock, Removals, DropsRemoved, RemovalOf, AllPlaced, RawBody, Removable, Unreadable, Ungated, NeedsGate,
         IsRemoved, Texts, GATE_TEXT, GATE_FILE;
    match f
    case End =>
    case Directive(_, rest) => RemainingIs(text, marks, rest, base + 1, parent, drop);
    case Block(header, kids, rest) =>
      var r, n := RecAt(header, kids, marks, base, parent), base + 2 + Size(kids);
      RecParent(header, kids, marks, base, parent);
      RemovalsUnfold(text, r, TopBlocks(rest, marks, n, parent));
      DropsTail(text, r, TopBlocks(rest, marks, n, parent), drop);
      RemainingIs(text, marks, rest, n, parent, drop);
      RecordIsJudged(text, marks, header, kids, base, parent);
      UngatedIff(header, Texts(kids));
      GateTextIsInclude();
      ConsReadable(header, TopHeaders(rest));
  }

  lemma RecordIsJudged(text: string, marks: seq<Mark>, header: string, kids: Forest, id: nat, parent: int)
    requires AllPlaced(text, marks) && id + 1 + Size(kids) < |marks|
    requires RemovedBlock(text, RecAt(header, kids, marks, id, parent)).Ok?
    ensures RemovedBlock(text, RecAt(header, kids, marks, id, parent)) == Ok(true) <==> Removable(header, RawBody(text, marks, id, kids))
    ensures !Unreadable(header)
  {
    hide RemovedBlock, AllPlaced, IsRemoved, Removable, Unreadable, Body, RecAt;
    RecordAt(text, marks, header, kids, id, parent);
    RemovedIff(header, RawBody(text, marks, id, kids));
  }

  lemma ConsReadable(header: string, rest: seq<string>)
    requires !Unreadable(header) && AllReadable(rest)
    ensures AllReadable([header] + rest)
  {
    hide Unreadable;
  }

  /** The body of the server in the result. */
  ghost function NewBody(text: string, id: nat, kids: Forest): Forest {
    Append(Remaining(text, Marks(text), kids, id + 1), DIRECT_TREE)
  }

  /** What the rewrite does to the tree: it replaces the body of the server, and puts the upstream in front
      if there is none. */
  ghost function NewTree(text: string, f: Forest, id: nat, kids: Forest): Forest {
    var g := SetKids(f, 0, id, NewBody(text, id, kids));
    if HasUpstream(f) then g else Append(UPSTREAM_TREE, g)
  }

  lemma GatedRemaining(text: string, b: BlockRec, kids: Forest)
    requires Located(text, b, kids)
    requires Removals(text, ChildrenOf(Parse(text).value.blocks, b.id)).Ok?
    ensures Gate(Append(Prune(kids, b.id + 1, Dropped(text, b)), DIRECT_TREE), GATE_TEXT) == NewBody(text, b.id, kids)
    ensures AllReadable(TopHeaders(kids))
  {
    hide Located, Parse, Tree, ChildrenOf, TopBlocks, Removals, Prune, RemovedIds, DropsRemoved, Gate, Append, Remaining, AllPlaced,
         DIRECT_TREE, TopHeaders, AllReadable, NodeAt;
    LocatedNode(text, b, kids);
    LocatedMarks(text, b, kids);
    var drop := Dropped(text, b);
    RemovedIdsDrop(text, kids, Marks(text), b.id + 1, b.id);
    RemainingIs(text, Marks(text), kids, b.id + 1, b.id, drop);
    GatedBody(Prune(kids, b.id + 1, drop));
  }

  /** The rewrite in terms of tokens and raw text: of the one server that terminates TLS for the host it
      deletes the removable children, gives the remaining ones their gates, and adds the direct location
      as the last child; nothing else changes. It returns only if no child is unreadable and neither a
      directive nor a child of the server captures traffic. */
  lemma RewriteMeans(text: string, host: string, out: string) returns (id: nat, header: string, kids: Forest)
    requires Rewrite(text, host) == Ok(out)
    ensures TheServer(text, host, id, header, kids)
    ensures AllReadable(TopHeaders(kids)) && NoCaptures(Texts(kids)) && NoCaptures(TopHeaders(kids))
    ensures Tree(out) == Some(NewTree(text, Tree(text).value, id, kids))
  {
    hide Parse, Tree, NodeAt, SetKids, HasUpstream, WithUpstream, WithGates, Verify, ServerAt, Located, ApprovedServer, ChildrenOf,
         Removals, Gate, Append, Prune, Dropped, NewBody, TheServer, AllReadable, NoCaptures, TopHeaders, Texts, DIRECT_TREE,
         GATE_TEXT, RefuseCapture, TextsOf, Headers, TopBlocks, ApplyAll, InsertionOf;
    RewriteCommutes(text, host, out);
    var b := ApprovedServer(Parse(text).value, host).value;
    kids := FindServer(text, host, b);
    id, header := b.id, b.header;
    ServerIsThe(text, host, b, kids);
    GatedRemaining(text, b, kids);
    LocatedNode(text, b, kids);
    LocatedTexts(text, b, kids);
    HeadersOfTop(kids, Marks(text), b.id + 1, b.id);
    NoCapturesIff(Texts(kids));
    NoCapturesIff(TopHeaders(kids));
  }

  lemma LocatedTexts(text: string, b: BlockRec, kids: Forest)
    requires Located(text, b, kids)
    ensures Parse(text).Some? && TextsOf(Parse(text).value.directives, b.id) == Texts(kids)
  {
    hide Tree, NodeAt, Run, Flatten, AllPlaced, Framed, Parse, ChildrenOf, TopBlocks, TextsOf, Texts;
  }

  /* ---------------------------------------------------------------- the result */

  predicate LiteralHeader(header: string) { Tokenise(header).Ok? && LiteralV1(Tokenise(header).value) }

  /** Of a list of headers, only the last one is a literal `/v1` location. */
  predicate OnlyLast(headers: seq<string>) {
    headers != [] && forall i :: 0 <= i < |headers| ==> (LiteralHeader(headers[i]) <==> i == |headers| - 1)
  }

  ghost predicate NoLiteral(headers: seq<string>) { forall i :: 0 <= i < |headers| ==> !LiteralHeader(headers[i]) }

  lemma {:induction false} RemainingIsNoLiteral(text: string, marks: seq<Mark>, f: Forest, base: nat)
    ensures NoLiteral(TopHeaders(Remaining(text, marks, f, base)))
    decreases f
  {
    hide RawBody, Ungated, Texts, Tokenise, GATE_FILE, LiteralV1;
    match f
    case End =>
    case Directive(_, rest) => RemainingIsNoLiteral(text, marks, rest, base + 1);
    case Block(header, kids, rest) =>
      hide Remaining, NoLiteral;
      var n := base + 2 + Size(kids);
      RemainingIsNoLiteral(text, marks, rest, n);
      RemainingBlock(text, marks, header, kids, rest, base);
      if !Removable(header, RawBody(text, marks, base, kids)) {
        ConsNoLiteral(header, TopHeaders(Remaining(text, marks, rest, n)));
      }
  }

  lemma RemainingBlock(text: string, marks: seq<Mark>, header: string, kids: Forest, rest: Forest, base: nat)
    ensures TopHeaders(Remaining(text, marks, Block(header, kids, rest), base))
         == (if Removable(header, RawBody(text, marks, base, kids)) then [] else [header])
            + TopHeaders(Remaining(text, marks, rest, base + 2 + Size(kids)))
  {
    hide Removable, RawBody, Ungated, Texts, GATE_FILE;
    assert [] + TopHeaders(Remaining(text, marks, rest, base + 2 + Size(kids))) == TopHeaders(Remaining(text, marks, rest, base + 2 + Size(kids)));
  }

  lemma ConsNoLiteral(header: string, rest: seq<string>)
    requires !LiteralHeader(header) && NoLiteral(rest)
    ensures NoLiteral([header] + rest)
  {
    hide LiteralHeader;
  }

  lemma DirectIsLiteral()
    ensures Tokenise(DIRECT_NAME) == Ok(["location", "^~", "/v1/"]) && LiteralHeader(DIRECT_NAME)
  {
    hide Shlex.Split, Shlex.Join, SafeWords, SafeLines, Plain;
    DirectIsSafe();
    JoinIsPlain(DIRECT_HEADER);
    PlainIsStable(DIRECT_NAME);
    Shlex.SplitWords(DIRECT_HEADER);
    StableTokens(DIRECT_NAME);
  }

  lemma TopHeadersOfDirect()
    ensures TopHeaders(DIRECT_TREE) == [DIRECT_NAME]
  {
    hide LeafTexts, DIRECT_LINES, Shlex.Join, DIRECT_NAME, SafeLines, SafeWords;
    DirectHasNoEdit(0);
  }

  /** In the result exactly one child of the server is a literal `/v1` location, and it is the inserted one,
      which is the last; no child that passes requests on is without exactly one gate. */
  lemma OneV1Child(text: string, host: string, out: string) returns (id: nat, header: string, body: Forest)
    requires Rewrite(text, host) == Ok(out)
    ensures TheServer(out, host, id, header, body)
    ensures OnlyLast(TopHeaders(body)) && (exists front :: body == Append(front, DIRECT_TREE))
    ensures forall i {:trigger TopAt(body, id + 1, i)} :: TopAt(body, id + 1, i).Some? ==>
              !Ungated(TopAt(body, id + 1, i).value.0, Texts(TopAt(body, id + 1, i).value.1))
  {
    hide Parse, Tree, NodeAt, SetKids, HasUpstream, Verify, ServerAt, Located, ApprovedServer, Append, TheServer, TopHeaders, Texts,
         DIRECT_TREE, Rewrite, AllKept, Carries, AllNoV1, AllHarmless, OnlyLast, Gate, Ungated;
    var front: Forest;
    id, header, front := FirstRun(text, host, out);
    body := Append(front, DIRECT_TREE);
    var b := VerifiedServer(out, host, id, header, body);
    ServerHeader(out, host, id, header, body, b);
    ServerIsThe(out, host, b, body);
    OnlyLastIsV1(front);
    GatedChildren(body, id + 1);
  }

  lemma ServerHeader(text: string, host: string, id: nat, header: string, kids: Forest, b: BlockRec)
    requires ServerAt(text, host, id, header, kids) && Located(text, b, kids) && b.id == id
    ensures b.header == header
  {
    hide Tree, NodeAt, Run, Flatten, AllPlaced, Framed, Parse, ChildrenOf, TopBlocks, TextsOf, Texts, IsApproved;
  }

  lemma OnlyLastIsV1(front: Forest)
    requires AllNoV1(TopHeaders(front))
    ensures OnlyLast(TopHeaders(Append(front, DIRECT_TREE)))
  {
    hide LiteralHeader, TopHeaders, DIRECT_TREE, DIRECT_NAME, NoV1, Append;
    TextsOfAppend(front, DIRECT_TREE);
    TopHeadersOfDirect();
    DirectIsLiteral();
    var hs := TopHeaders(front);
    forall i | 0 <= i < |hs|
      ensures !LiteralHeader(hs[i])
    {
      assert NoV1(hs[i]);
      NoV1IsNoLiteral(hs[i]);
    }
  }

  lemma NoV1IsNoLiteral(header: string)
    requires NoV1(header)
    ensures !LiteralHeader(header)
  {
    hide Tokenise, LocationPath, IsLiteralV1;
    LocationIs(header);
    if LiteralHeader(header) {
      LiteralIs(Tokenise(header).value);
    }
  }

  /** A level that the gate stage leaves as it is has no ungated location. */
  lemma {:induction false} GatedChildren(f: Forest, base: nat)
    requires Gate(f, GATE_TEXT) == f
    ensures forall i {:trigger TopAt(f, base, i)} :: TopAt(f, base, i).Some? ==>
              !Ungated(TopAt(f, base, i).value.0, Texts(TopAt(f, base, i).value.1))
    decreases f
  {
    hide NeedsGate, Ungated, Texts, GATE_TEXT, Size;
    match f
    case End =>
    case Directive(_, rest) => GatedChildren(rest, base + 1);
    case Block(header, kids, rest) =>
      GatedChildren(rest, base + 2 + Size(kids));
      UngatedIff(header, Texts(kids));
      NotItsOwnTail(GATE_TEXT, kids);
  }

  lemma {:induction false} NotItsOwnTail(text: string, f: Forest)
    ensures Directive(text, f) != f
    decreases f
  {
    if f.Directive? {
      NotItsOwnTail(f.text, f.rest);
    }
  }
}
