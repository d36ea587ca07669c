/** The questions that the rewrite asks of a whole configuration, answered on the tree: which block is the
    approved server, and which top-level blocks are the upstream. */
module NginxJudge {
  import opened Text
  import opened NginxLexer
  import opened NginxEvents
  import opened NginxOffsets
  import opened NginxTree
  import opened NginxParser
  import opened NginxParserTree
  import opened NginxLists
  import opened NginxTreeEdit
  import opened NginxRules
  import opened NginxSnippets
  import opened NginxRewrite
  import opened NginxStages
  import opened NginxGates
  import opened NginxTheorem
  import opened NginxResult
  import opened NginxInserted
  import Shlex

  /* ---------------------------------------------------------------- approved servers */

  /** How many blocks of the tree are approved; Error if there is one that cannot be judged. */
  function Judge(f: Forest, host: string): Result<nat> {
    match f
    case End => Ok(0)
    case Directive(_, rest) => Judge(rest, host)
    case Block(header, kids, rest) =>
      var here :- IsApproved(header, Texts(kids), host);
      var inside :- Judge(kids, host);
      var behind :- Judge(rest, host);
      Ok((if here then 1 else 0) + inside + behind)
  }

  lemma JudgeBlock(header: string, kids: Forest, rest: Forest, host: string)
    ensures var j := Judge(Block(header, kids, rest), host);
            && (j.Ok? <==> IsApproved(header, Texts(kids), host).Ok? && Judge(kids, host).Ok? && Judge(rest, host).Ok?)
            && (j.Ok? ==> j.value == (if IsApproved(header, Texts(kids), host).value then 1 else 0)
                                     + Judge(kids, host).value + Judge(rest, host).value)
  {
    hide IsApproved, Texts;
  }

  lemma JudgeDirective(text: string, rest: Forest, host: string)
    ensures Judge(Directive(text, rest), host) == Judge(rest, host)
  {
  }

  lemma {:induction false} ApprovedConcat(cfg: Config, a: seq<BlockRec>, b: seq<BlockRec>, host: string)
    ensures ApprovedServers(cfg, a + b, host).Ok? <==> ApprovedServers(cfg, a, host).Ok? && ApprovedServers(cfg, b, host).Ok?
    ensures ApprovedServers(cfg, a + b, host).Ok? ==>
              |ApprovedServers(cfg, a + b, host).value| == |ApprovedServers(cfg, a, host).value| + |ApprovedServers(cfg, b, host).value|
    decreases |a|
  {
    hide IsApproved, TextsOf;
    if a == [] {
      assert a + b == b;
    } else {
      assert (a + b)[1..] == a[1..] + b && (a + b)[0] == a[0];
      ApprovedConcat(cfg, a[1..], b, host);
    }
  }

  lemma ApprovedOne(cfg: Config, r: BlockRec, host: string)
    ensures var judged := IsApproved(r.header, TextsOf(cfg.directives, r.id), host);
            && (ApprovedServers(cfg, [r], host).Ok? <==> judged.Ok?)
            && (judged.Ok? ==> |ApprovedServers(cfg, [r], host).value| == if judged.value then 1 else 0)
  {
    hide IsApproved, TextsOf;
    assert [r][1..] == [];
  }

  lemma AgreeKids(header: string, kids: Forest, rest: Forest, base: nat, ds: seq<DirectiveRec>)
    requires TextsAgree(Block(header, kids, rest), base, ds)
    ensures TextsAgree(kids, base + 1, ds)
  {
    hide Texts, TextsOf;
    forall j | NodeAt(kids, base + 1, j).Some?
      ensures TextsOf(ds, j) == Texts(NodeAt(kids, base + 1, j).value.1)
    {
      NodeBounds(kids, base + 1, j);
      assert NodeAt(Block(header, kids, rest), base, j) == NodeAt(kids, base + 1, j);
    }
  }

  lemma {:induction false} JudgeRecords(cfg: Config, f: Forest, marks: seq<Mark>, base: nat, parent: int, host: string)
    requires TextsAgree(f, base, cfg.directives)
    ensures ApprovedServers(cfg, Blocks(f, marks, base, parent), host).Ok? <==> Judge(f, host).Ok?
    ensures Judge(f, host).Ok? ==> |ApprovedServers(cfg, Blocks(f, marks, base, parent), host).value| == Judge(f, host).value
    decreases f
  {
    hide IsApproved, Texts, TextsOf, TextsAgree, RecAt, ApprovedServers, Judge;
    match f
    case End => JudgeNothing(cfg, marks, base, parent, host);
    case Directive(text, rest) =>
      AgreeTail(text, rest, base, cfg.directives);
      JudgeRecords(cfg, rest, marks, base + 1, parent, host);
      JudgeDirective(text, rest, host);
    case Block(header, kids, rest) =>
      AgreeRest(header, kids, rest, base, cfg.directives);
      AgreeKids(header, kids, rest, base, cfg.directives);
      RecParent(header, kids, marks, base, parent);
      var r, n := RecAt(header, kids, marks, base, parent), base + 2 + Size(kids);
      JudgeRecords(cfg, kids, marks, base + 1, base, host);
      JudgeRecords(cfg, rest, marks, n, parent, host);
      JudgeBlock(header, kids, rest, host);
      ApprovedOne(cfg, r, host);
      var inner := Blocks(kids, marks, base + 1, base);
      ApprovedConcat(cfg, [r], inner, host);
      ApprovedConcat(cfg, [r] + inner, Blocks(rest, marks, n, parent), host);
  }

  lemma JudgeNothing(cfg: Config, marks: seq<Mark>, base: nat, parent: int, host: string)
    ensures ApprovedServers(cfg, Blocks(End, marks, base, parent), host) == Ok([]) && Judge(End, host) == Ok(0)
  {
  }

  lemma WholeAgrees(text: string)
    requires Parse(text).Some?
    ensures Tree(text).Some? && TextsAgree(Tree(text).value, 0, Parse(text).value.directives)
    ensures Parse(text).value.blocks == Blocks(Tree(text).value, Marks(text), 0, -1)
  {
    hide Tree, NodeAt, Blocks, Directives, Parse, TextsOf, Texts, Fits, Marks;
    ParseGivesTree(text);
    var f, ds := Tree(text).value, Parse(text).value.directives;
    forall j | NodeAt(f, 0, j).Some?
      ensures TextsOf(ds, j) == Texts(NodeAt(f, 0, j).value.1)
    {
      NodeBounds(f, 0, j);
      TextsInTree(f, Marks(text), 0, -1, j);
      ListedAt(f, j);
    }
  }

  lemma ListedAt(f: Forest, id: int)
    requires id >= 0 && NodeAt(f, 0, id).Some?
    ensures ListedTexts(f, 0, -1, id) == Texts(NodeAt(f, 0, id).value.1)
  {
    hide Texts, NodeAt;
    NodeBounds(f, 0, id);
  }

  /** The source finds one server exactly if one block of the tree is approved and all can be judged. */
  lemma OneServerIff(text: string, host: string)
    requires Parse(text).Some?
    ensures Tree(text).Some?
    ensures ApprovedServer(Parse(text).value, host).Ok? <==> Judge(Tree(text).value, host) == Ok(1)
  {
    hide Tree, Parse, Judge, ApprovedServers, Blocks, TextsAgree, Marks;
    WholeAgrees(text);
    JudgeRecords(Parse(text).value, Tree(text).value, Marks(text), 0, -1, host);
  }

  /* ---------------------------------------------------------------- and edits of the tree */

  lemma {:induction false} JudgeAppend(f: Forest, g: Forest, host: string)
    requires Judge(f, host).Ok? && Judge(g, host).Ok?
    ensures Judge(Append(f, g), host) == Ok(Judge(f, host).value + Judge(g, host).value)
  {
    hide IsApproved, Texts, Judge;
    match f
    case End => JudgeEnd(host);
    case Directive(text, rest) =>
      JudgeDirective(text, rest, host);
      JudgeDirective(text, Append(rest, g), host);
      JudgeAppend(rest, g, host);
    case Block(header, kids, rest) =>
      JudgeBlock(header, kids, rest, host);
      JudgeBlock(header, kids, Append(rest, g), host);
      JudgeAppend(rest, g, host);
  }

  lemma JudgeEnd(host: string)
    ensures Judge(End, host) == Ok(0)
  {
  }

  lemma {:induction false} JudgePrune(f: Forest, base: nat, drop: set<nat>, host: string)
    requires Judge(f, host) == Ok(0)
    ensures Judge(Prune(f, base, drop), host) == Ok(0)
    decreases f
  {
    hide IsApproved, Texts, Judge;
    match f
    case End =>
    case Directive(text, rest) =>
      JudgeDirective(text, rest, host);
      JudgeDirective(text, Prune(rest, base + 1, drop), host);
      JudgePrune(rest, base + 1, drop, host);
    case Block(header, kids, rest) =>
      JudgeBlock(header, kids, rest, host);
      JudgePrune(rest, base + 2 + Size(kids), drop, host);
      JudgeBlock(header, kids, Prune(rest, base + 2 + Size(kids), drop), host);
  }

  /** A location is no server, whatever stands in it. */
  lemma GatedIsNoServer(header: string, texts: seq<string>, others: seq<string>, host: string)
    requires NeedsGate(header, texts) == Ok(true)
    ensures IsApproved(header, others, host) == Ok(false)
  {
    hide Tokenise, DirectTokens;
  }

  lemma {:induction false} JudgeGate(f: Forest, gate: string, host: string)
    requires Judge(f, host).Ok?
    ensures Judge(Gate(f, gate), host) == Judge(f, host)
  {
    hide IsApproved, Texts, Judge, NeedsGate;
    match f
    case End =>
    case Directive(text, rest) =>
      JudgeDirective(text, rest, host);
      JudgeDirective(text, Gate(rest, gate), host);
      JudgeGate(rest, gate, host);
    case Block(header, kids, rest) =>
      JudgeBlock(header, kids, rest, host);
      JudgeGate(rest, gate, host);
      if NeedsGate(header, Texts(kids)) == Ok(true) {
        JudgeDirective(gate, kids, host);
        GatedIsNoServer(header, Texts(kids), Texts(kids), host);
        GatedIsNoServer(header, Texts(kids), Texts(Directive(gate, kids)), host);
        JudgeBlock(header, Directive(gate, kids), Gate(rest, gate), host);
      } else {
        JudgeBlock(header, kids, Gate(rest, gate), host);
      }
  }

  lemma {:induction false} TextsOfSetKids(f: Forest, base: nat, id: int, body: Forest)
    ensures Texts(SetKids(f, base, id, body)) == Texts(f)
  {
    match f
    case End =>
    case Directive(_, rest) => TextsOfSetKids(rest, base + 1, id, body);
    case Block(_, kids, rest) =>
      if id >= base + 1 + Size(kids) {
        TextsOfSetKids(rest, base + 2 + Size(kids), id, body);
      }
  }

  lemma {:induction false} JudgeInside(f: Forest, base: nat, id: int, host: string)
    requires NodeAt(f, base, id).Some? && Judge(f, host).Ok?
    ensures var (header, kids) := NodeAt(f, base, id).value;
            && IsApproved(header, Texts(kids), host).Ok? && Judge(kids, host).Ok?
            && Judge(kids, host).value + (if IsApproved(header, Texts(kids), host).value then 1 else 0) <= Judge(f, host).value
    decreases f
  {
    hide IsApproved, Texts, Judge;
    match f
    case Directive(text, rest) =>
      JudgeDirective(text, rest, host);
      JudgeInside(rest, base + 1, id, host);
    case Block(header, kids, rest) =>
      JudgeBlock(header, kids, rest, host);
      if base < id < base + 1 + Size(kids) {
        JudgeInside(kids, base + 1, id, host);
      } else if id != base {
        NodeBounds(f, base, id);
        JudgeInside(rest, base + 2 + Size(kids), id, host);
      }
  }

  /** A new body with the same directives changes the count by what stands inside. */
  lemma {:induction false} JudgeSetKids(f: Forest, base: nat, id: int, body: Forest, host: string)
    requires NodeAt(f, base, id).Some? && Judge(f, host).Ok? && Judge(body, host).Ok?
    requires var (header, kids) := NodeAt(f, base, id).value;
             Texts(body) == Texts(kids) && IsApproved(header, Texts(kids), host) == Ok(true)
    ensures var inside := Judge(NodeAt(f, base, id).value.1, host);
            && inside.Ok? && inside.value < Judge(f, host).value
            && Judge(SetKids(f, base, id, body), host).Ok?
            && Judge(SetKids(f, base, id, body), host).value == Judge(f, host).value - inside.value + Judge(body, host).value
    decreases f
  {
    hide IsApproved, Texts, Judge, SetKids;
    match f
    case Directive(text, rest) =>
      SetInDirective(text, rest, base, id, body);
      JudgeDirective(text, rest, host);
      JudgeDirective(text, SetKids(rest, base + 1, id, body), host);
      JudgeSetKids(rest, base + 1, id, body, host);
    case Block(header, kids, rest) =>
      SetInBlock(header, kids, rest, base, id, body);
      JudgeBlock(header, kids, rest, host);
      if id == base {
        JudgeBlock(header, body, rest, host);
      } else if id < base + 1 + Size(kids) {
        JudgeSetKids(kids, base + 1, id, body, host);
        TextsOfSetKids(kids, base + 1, id, body);
        JudgeBlock(header, SetKids(kids, base + 1, id, body), rest, host);
      } else {
        JudgeSetKids(rest, base + 2 + Size(kids), id, body, host);
        JudgeBlock(header, kids, SetKids(rest, base + 2 + Size(kids), id, body), host);
      }
  }

  /** Blocks whose headers are other words are no servers. */
  lemma JudgeLeaf(header: string, words: seq<string>, lines: seq<seq<string>>, host: string)
    requires Tokenise(header) == Ok(words) && words != ["server"] && SafeLines(lines)
    ensures Judge(Block(header, LeafTexts(lines), End), host) == Ok(0)
  {
    hide Tokenise, Judge, SafeLines;
    JudgeLines(lines, host);
    JudgeEnd(host);
    JudgeBlock(header, LeafTexts(lines), End, host);
  }

  lemma {:induction false} JudgeLines(lines: seq<seq<string>>, host: string)
    requires SafeLines(lines)
    ensures Judge(LeafTexts(lines), host) == Ok(0)
  {
    hide Judge;
    if lines == [] {
      JudgeEnd(host);
    } else {
      assert SafeLines(lines[1..]);
      JudgeDirective(Shlex.Join(lines[0]), LeafTexts(lines[1..]), host);
      JudgeLines(lines[1..], host);
    }
  }

  lemma JudgeSnippets(host: string)
    ensures Judge(DIRECT_TREE, host) == Ok(0) && Judge(UPSTREAM_TREE, host) == Ok(0)
  {
    hide Tokenise, Judge, LeafTexts, DIRECT_LINES, UPSTREAM_LINES, SafeLines, SafeWords;
    DirectIsSafe();
    UpstreamIsSafe();
    WordsTokenise(DIRECT_HEADER);
    WordsTokenise(UPSTREAM_HEADER);
    JudgeLeaf(Shlex.Join(DIRECT_HEADER), DIRECT_HEADER, DIRECT_LINES, host);
    JudgeLeaf(Shlex.Join(UPSTREAM_HEADER), UPSTREAM_HEADER, UPSTREAM_LINES, host);
  }

  /* ---------------------------------------------------------------- upstreams */

  /** The directives of each upstream block of the top level. */
  function UpstreamsOf(f: Forest): seq<seq<string>> {
    match f
    case End => []
    case Directive(_, rest) => UpstreamsOf(rest)
    case Block(header, kids, rest) => (if IsUpstream(header) then [Texts(kids)] else []) + UpstreamsOf(rest)
  }

  predicate AllRead(headers: seq<string>) { forall i :: 0 <= i < |headers| ==> Tokenise(headers[i]).Ok? }

  lemma {:induction false} JudgedIsRead(f: Forest, host: string)
    requires Judge(f, host).Ok?
    ensures AllRead(TopHeaders(f))
  {
    hide Tokenise, IsTlsServer, ServerNames, Texts;
    match f
    case End =>
    case Directive(_, rest) => JudgedIsRead(rest, host);
    case Block(header, kids, rest) =>
      JudgedIsRead(rest, host);
      assert TopHeaders(f) == [header] + TopHeaders(rest);
  }

  lemma {:induction false} UpstreamsConcat(a: seq<BlockRec>, b: seq<BlockRec>)
    ensures Upstreams(a + b).Ok? <==> Upstreams(a).Ok? && Upstreams(b).Ok?
    ensures Upstreams(a + b).Ok? ==> Upstreams(a + b).value == Upstreams(a).value + Upstreams(b).value
    decreases |a|
  {
    hide Tokenise;
    if a == [] {
      assert a + b == b;
      if Upstreams(b).Ok? {
        assert [] + Upstreams(b).value == Upstreams(b).value;
      }
    } else {
      assert (a + b)[1..] == a[1..] + b && (a + b)[0] == a[0];
      UpstreamsConcat(a[1..], b);
    }
  }

  lemma {:induction false} NoneInside(f: Forest, marks: seq<Mark>, base: nat, parent: int)
    requires parent != -1
    ensures Upstreams(Blocks(f, marks, base, parent)) == Ok([])
    decreases f
  {
    hide Tokenise, RecAt;
    match f
    case End =>
    case Directive(_, rest) => NoneInside(rest, marks, base + 1, parent);
    case Block(header, kids, rest) =>
      var r := RecAt(header, kids, marks, base, parent);
      RecParent(header, kids, marks, base, parent);
      NoneInside(kids, marks, base + 1, base);
      NoneInside(rest, marks, base + 2 + Size(kids), parent);
      UpstreamOne(r);
      UpstreamsConcat([r], Blocks(kids, marks, base + 1, base));
      UpstreamsConcat([r] + Blocks(kids, marks, base + 1, base), Blocks(rest, marks, base + 2 + Size(kids), parent));
  }

  lemma UpstreamOne(r: BlockRec)
    ensures r.parent != -1 ==> Upstreams([r]) == Ok([])
    ensures r.parent == -1 ==> (Upstreams([r]).Ok? <==> Tokenise(r.header).Ok?)
    ensures r.parent == -1 && Tokenise(r.header).Ok? ==> Upstreams([r]) == Ok(if IsUpstream(r.header) then [r] else [])
  {
    hide Tokenise;
    assert [r][1..] == [] && Upstreams([]) == Ok([]);
    if r.parent == -1 && Tokenise(r.header).Ok? {
      var here := if Tokenise(r.header).value == UPSTREAM_HEADER then [r] else [];
      assert Upstreams([r]) == Ok(here + []);
      assert here + [] == here;
    }
  }

  ghost predicate TextsAre(ds: seq<DirectiveRec>, blocks: seq<BlockRec>, texts: seq<seq<string>>) {
    |blocks| == |texts| && forall i :: 0 <= i < |blocks| ==> TextsOf(ds, blocks[i].id) == texts[i]
  }

  lemma TextsAreConcat(ds: seq<DirectiveRec>, a: seq<BlockRec>, b: seq<BlockRec>, x: seq<seq<string>>, y: seq<seq<string>>)
    requires TextsAre(ds, a, x) && TextsAre(ds, b, y)
    ensures TextsAre(ds, a + b, x + y)
  {
    hide TextsOf;
  }

  lemma {:induction false} UpstreamRecords(ds: seq<DirectiveRec>, f: Forest, marks: seq<Mark>, base: nat)
    requires TextsAgree(f, base, ds) && AllRead(TopHeaders(f))
    ensures Upstreams(Blocks(f, marks, base, -1)).Ok? && TextsAre(ds, Upstreams(Blocks(f, marks, base, -1)).value, UpstreamsOf(f))
    decreases f
  {
    hide Texts, TextsOf, TextsAgree, RecAt, Upstreams, IsUpstream, Tokenise, TextsAre;
    match f
    case End => NoUpstream(ds, marks, base);
    case Directive(text, rest) =>
      AgreeTail(text, rest, base, ds);
      UpstreamRecords(ds, rest, marks, base + 1);
    case Block(header, kids, rest) =>
      AgreeRest(header, kids, rest, base, ds);
      RecParent(header, kids, marks, base, -1);
      var r, n := RecAt(header, kids, marks, base, -1), base + 2 + Size(kids);
      ReadTail(header, TopHeaders(rest));
      UpstreamRecords(ds, rest, marks, n);
      NoneInside(kids, marks, base + 1, base);
      UpstreamOne(r);
      UpstreamsConcat([r], Blocks(kids, marks, base + 1, base));
      UpstreamsConcat([r] + Blocks(kids, marks, base + 1, base), Blocks(rest, marks, n, -1));
      var here, texts := if IsUpstream(header) then [r] else [], if IsUpstream(header) then [Texts(kids)] else [];
      assert here + [] == here;
      assert TextsAre(ds, here, texts) by { OneTexts(ds, r, Texts(kids)); }
      TextsAreConcat(ds, here, Upstreams(Blocks(rest, marks, n, -1)).value, texts, UpstreamsOf(rest));
  }

  lemma OneTexts(ds: seq<DirectiveRec>, r: BlockRec, texts: seq<string>)
    ensures TextsAre(ds, [], [])
    ensures TextsOf(ds, r.id) == texts ==> TextsAre(ds, [r], [texts])
  {
  }

  lemma ReadTail(h: string, rest: seq<string>)
    requires AllRead([h] + rest)
    ensures Tokenise(h).Ok? && AllRead(rest)
  {
    hide Tokenise;
    assert ([h] + rest)[0] == h;
    assert forall i :: 0 <= i < |rest| ==> rest[i] == ([h] + rest)[i + 1];
  }

  lemma NoUpstream(ds: seq<DirectiveRec>, marks: seq<Mark>, base: nat)
    ensures Upstreams(Blocks(End, marks, base, -1)) == Ok([]) && TextsAre(ds, [], UpstreamsOf(End))
  {
  }

  /** The source finds the upstream blocks of the tree. */
  lemma UpstreamsInTree(text: string)
    requires Parse(text).Some? && Tree(text).Some? && AllRead(TopHeaders(Tree(text).value))
    ensures Upstreams(Parse(text).value.blocks).Ok?
    ensures TextsAre(Parse(text).value.directives, Upstreams(Parse(text).value.blocks).value, UpstreamsOf(Tree(text).value))
  {
    hide Tree, Parse, Upstreams, Blocks, TextsAgree, Marks, AllRead, TopHeaders, TextsAre, UpstreamsOf;
    WholeAgrees(text);
    UpstreamRecords(Parse(text).value.directives, Tree(text).value, Marks(text), 0);
  }

  lemma {:induction false} UpstreamsKept(f: Forest, base: nat, id: int, body: Forest)
    requires NodeAt(f, base, id).Some? && Texts(body) == Texts(NodeAt(f, base, id).value.1)
    ensures UpstreamsOf(SetKids(f, base, id, body)) == UpstreamsOf(f)
    decreases f
  {
    hide IsUpstream, Texts, SetKids;
    match f
    case Directive(text, rest) =>
      SetInDirective(text, rest, base, id, body);
      UpstreamsKept(rest, base + 1, id, body);
    case Block(header, kids, rest) =>
      SetInBlock(header, kids, rest, base, id, body);
      NodeBounds(f, base, id);
      if id == base {
      } else if id < base + 1 + Size(kids) {
        TextsOfSetKids(kids, base + 1, id, body);
      } else {
        UpstreamsKept(rest, base + 2 + Size(kids), id, body);
      }
  }

  lemma {:induction false} UpstreamIff(f: Forest)
    ensures UpstreamsOf(f) != [] <==> HasUpstream(f)
  {
    hide IsUpstream, Texts;
    match f
    case End =>
    case Directive(_, rest) => UpstreamIff(rest);
    case Block(header, _, rest) =>
      UpstreamIff(rest);
      ConsExists(header, TopHeaders(rest));
  }

  /** The directives of the upstream that the rewrite brings. */
  const BACKEND_TEXTS: seq<string> := Texts(UPSTREAM_TREE.kids)

  lemma UpstreamsWithSnippet(f: Forest)
    ensures UpstreamsOf(Append(UPSTREAM_TREE, f)) == [BACKEND_TEXTS] + UpstreamsOf(f)
    ensures TopHeaders(Append(UPSTREAM_TREE, f)) == [UPSTREAM_TREE.header] + TopHeaders(f)
    ensures Tokenise(UPSTREAM_TREE.header).Ok?
  {
    hide Tokenise, LeafTexts, UPSTREAM_LINES, SafeLines, SafeWords, Texts;
    UpstreamIsSafe();
    WordsTokenise(UPSTREAM_HEADER);
  }

  /** What the final verification asks of an upstream block. */
  ghost predicate ReviewedTexts(texts: seq<string>) {
    DirectTokens(texts).Ok? && ReviewedUpstream(DirectTokens(texts).value)
  }

  lemma SnippetIsReviewed()
    ensures ReviewedTexts(BACKEND_TEXTS)
  {
    hide Tokenise, SafeLines, SafeWords, DirectTokens, LeafTexts;
    UpstreamIsSafe();
    LeavesTokenise(UPSTREAM_LINES);
    var a, b := UPSTREAM_LINES[0], UPSTREAM_LINES[1];
    assert UPSTREAM_LINES == [a, b] && a[0] == "include" && b[0] == "keepalive";
    assert |a[0]| == 7 && |b[0]| == 9 && |"server"| == 6;
    assert multiset([a, b]) == multiset{a, b};
  }
}
