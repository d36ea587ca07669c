/** The rewrite as a whole: parsing the rewritten text gives the rewritten tree. */
module NginxTheorem {
  import opened Text
  import opened NginxLexer
  import opened NginxEvents
  import opened NginxOffsets
  import opened NginxTree
  import opened NginxParser
  import opened NginxParserTree
  import opened NginxLists
  import opened NginxTreeEdit
  import opened NginxRules
  import opened NginxSplice
  import opened NginxSnippets
  import opened NginxRewrite
  import opened NginxCommute
  import opened NginxStages
  import opened NginxGates
  import Shlex

  /* ---------------------------------------------------------------- unfinished text before the insertion */

  /** Comment-free text that ends in plain code. */
  predicate Stable(s: string) {
    Strip(Code, s) == s && After(Code, s) == Code
  }

  lemma StableConcat(a: string, b: string)
    requires Stable(a) && Stable(b)
    ensures Stable(a + b)
  {
    hide Strip, After;
    StripConcat(Code, a, b);
    AfterConcat(Code, a, b);
  }

  lemma {:induction false} PlainIsStable(s: string)
    requires Plain(s)
    ensures Stable(s)
  {
    if s != "" {
      PlainIsStable(s[..|s| - 1]);
    }
  }

  lemma {:induction false} BlankIsPlain(s: string)
    requires Blank(s)
    ensures Plain(s)
  {
  }

  /** Dropping whitespace in front keeps text stable. */
  lemma StableWithoutLead(w: string, s: string)
    requires Blank(w) && Stable(w + s)
    ensures Stable(s)
  {
    hide Strip, After, Blank;
    BlankIsPlain(w);
    PlainIsStable(w);
    StripConcat(Code, w, s);
    AfterConcat(Code, w, s);
    assert (w + Strip(Code, s))[|w|..] == Strip(Code, s);
    assert (w + s)[|w|..] == s;
  }

  /** The pending text of the lexer is stable. */
  lemma PendingIsStable(text: string, p: nat)
    requires p <= |text| && At(text, p).lex == Code
    ensures Stable(At(text, p).pending)
  {
    hide Run, ScanTo, Blank, Trim;
    ScanAgrees(text, p);
    StripIdempotent(text[ScanTo(text, p).stmt..p]);
  }

  /** No location directive can begin with other unfinished text: the inserted location would be
      part of a directive that is refused or is no location. */
  lemma UnfinishedIsNoLocation(u: string)
    requires Stable(u) && !Blank(u)
    ensures var header := (DirectIsSafe(); HeaderAfter(u, "    ", DIRECT_HEADER));
            LocationPath(header) == Error || LocationPath(header) == Ok(None)
  {
    hide Strip, After, Blank, Shlex.Split, Shlex.Join, SafeWords, SafeLines, Trim, TrimLeft, IsSpace, Stable, Plain;
    DirectIsSafe();
    IndentOfFour();
    IndentIsBlank("    ");
    JoinIsPlain(DIRECT_HEADER);
    var j := Shlex.Join(DIRECT_HEADER);
    var v := TrimLeft(u);
    var lead := u[..|u| - |v|];
    LeadIsBlank(u);
    assert u == lead + v;
    var h := (v + "  ") + "  " + j;
    SpaceIsBlank();
    assert u + "    " + j + " " == lead + h + " ";
    TrimAround(lead, h, " ");
    // tokenising
    StableWithoutLead(lead, v);
    PlainIsStable("    ");
    PlainIsStable(j);
    StableConcat(v, "    ");
    StableConcat(v + "    ", j);
    assert h == v + "    " + j;
    if Shlex.Split(h).Ok? {
      SpaceIsNoSeparatorElse(v[0]);
      assert (v + "  ")[0] == v[0];
      Shlex.WordsAfterText(v + "  ", DIRECT_HEADER);
    }
    StableTokens(h);
  }

  lemma StableTokens(h: string)
    requires Stable(h)
    ensures Tokenise(h) == Shlex.Split(h)
  {
  }

  lemma SpaceIsNoSeparatorElse(c: char)
    requires !IsSpace(c)
    ensures !Shlex.Separator(c)
  {
  }

  lemma {:induction false} LeadIsBlank(u: string)
    ensures Blank(u[..|u| - |TrimLeft(u)|])
  {
    if u != "" && IsSpace(u[0]) {
      LeadIsBlank(u[1..]);
      var n := |u| - |TrimLeft(u)|;
      assert u[1..][..n - 1] == u[..n][1..];
    }
  }

  /* ---------------------------------------------------------------- headers and directives of a level */

  function TopHeaders(f: Forest): seq<string> {
    match f
    case End => []
    case Directive(_, rest) => TopHeaders(rest)
    case Block(header, _, rest) => [header] + TopHeaders(rest)
  }

  lemma {:induction false} HeadersOfTop(f: Forest, marks: seq<Mark>, base: nat, parent: int)
    ensures Headers(TopBlocks(f, marks, base, parent)) == TopHeaders(f)
    decreases f
  {
    hide RecAt;
    match f
    case End =>
    case Directive(_, rest) => HeadersOfTop(rest, marks, base + 1, parent);
    case Block(header, kids, rest) =>
      RecParent(header, kids, marks, base, parent);
      HeadersOfTop(rest, marks, base + 2 + Size(kids), parent);
  }

  lemma {:induction false} TextsOfAppend(f: Forest, g: Forest)
    ensures Texts(Append(f, g)) == Texts(f) + Texts(g)
    ensures TopHeaders(Append(f, g)) == TopHeaders(f) + TopHeaders(g)
  {
    match f
    case End =>
    case Directive(_, rest) => TextsOfAppend(rest, g);
    case Block(_, _, rest) => TextsOfAppend(rest, g);
  }

  lemma {:induction false} TextsOfPrune(f: Forest, base: nat, drop: set<nat>)
    ensures Texts(Prune(f, base, drop)) == Texts(f)
  {
    match f
    case End =>
    case Directive(_, rest) => TextsOfPrune(rest, base + 1, drop);
    case Block(_, kids, rest) => TextsOfPrune(rest, base + 2 + Size(kids), drop);
  }

  lemma {:induction false} TextsOfGate(f: Forest, gate: string)
    ensures Texts(Gate(f, gate)) == Texts(f) && TopHeaders(Gate(f, gate)) == TopHeaders(f)
  {
    hide NeedsGate;
    match f
    case End =>
    case Directive(_, rest) => TextsOfGate(rest, gate);
    case Block(_, _, rest) => TextsOfGate(rest, gate);
  }

  lemma {:induction false} SetKidsKeeps(f: Forest, base: nat, id: int, body: Forest)
    ensures TopHeaders(SetKids(f, base, id, body)) == TopHeaders(f)
    ensures NodeAt(f, base, id).Some? ==>
              NodeAt(SetKids(f, base, id, body), base, id) == Some((NodeAt(f, base, id).value.0, body))
    decreases f
  {
    match f
    case End =>
    case Directive(_, rest) => SetKidsKeeps(rest, base + 1, id, body);
    case Block(_, kids, rest) =>
      if id != base {
        if id < base + 1 + Size(kids) {
          SetKidsKeeps(kids, base + 1, id, body);
          SetKidsInside(kids, base + 1, id, body);
        } else {
          SetKidsKeeps(rest, base + 2 + Size(kids), id, body);
        }
      }
  }

  lemma SetKidsInside(f: Forest, base: nat, id: int, body: Forest)
    ensures NodeAt(f, base, id).Some? ==> id < base + Size(SetKids(f, base, id, body))
  {
    if NodeAt(f, base, id).Some? {
      SetKidsFlattens(f, base, id, body);
    }
  }

  lemma {:induction false} SetKidsTwice(f: Forest, base: nat, id: int, a: Forest, b: Forest)
    requires NodeAt(f, base, id).Some?
    ensures SetKids(SetKids(f, base, id, a), base, id, b) == SetKids(f, base, id, b)
    decreases f
  {
    hide SetKids;
    match f
    case Directive(text, rest) =>
      SetKidsTwice(rest, base + 1, id, a, b);
      SetInDirective(text, rest, base, id, a);
      SetInDirective(text, rest, base, id, b);
      SetInDirective(text, SetKids(rest, base + 1, id, a), base, id, b);
    case Block(header, kids, rest) =>
      SetInBlock(header, kids, rest, base, id, a);
      SetInBlock(header, kids, rest, base, id, b);
      if id == base {
        SetInBlock(header, a, rest, base, id, b);
      } else if id < base + 1 + Size(kids) {
        SetKidsTwice(kids, base + 1, id, a, b);
        SetKidsInside(kids, base + 1, id, a);
        SetInBlock(header, SetKids(kids, base + 1, id, a), rest, base, id, b);
      } else {
        SetKidsTwice(rest, base + 2 + Size(kids), id, a, b);
        SetInBlock(header, kids, SetKids(rest, base + 2 + Size(kids), id, a), base, id, b);
      }
  }

  lemma SetInDirective(text: string, rest: Forest, base: nat, id: int, body: Forest)
    ensures SetKids(Directive(text, rest), base, id, body) == Directive(text, SetKids(rest, base + 1, id, body))
  {
  }

  lemma SetInBlock(header: string, kids: Forest, rest: Forest, base: nat, id: int, body: Forest)
    ensures SetKids(Block(header, kids, rest), base, id, body)
         == if id == base then Block(header, body, rest)
            else if id < base + 1 + Size(kids) then Block(header, SetKids(kids, base + 1, id, body), rest)
            else Block(header, kids, SetKids(rest, base + 2 + Size(kids), id, body))
  {
  }

  /** Identities are relative: a forest read `d` events later has its blocks at identities `d` higher. */
  lemma {:induction false} ShiftNode(f: Forest, base: nat, d: nat, id: int, body: Forest)
    ensures NodeAt(f, base + d, id + d) == NodeAt(f, base, id)
    ensures SetKids(f, base + d, id + d, body) == SetKids(f, base, id, body)
    decreases f
  {
    match f
    case End =>
    case Directive(_, rest) => ShiftNode(rest, base + 1, d, id, body);
    case Block(_, kids, rest) =>
      ShiftNode(kids, base + 1, d, id, body);
      ShiftNode(rest, base + 2 + Size(kids), d, id, body);
  }

  /** A block put in front shifts the identities of the rest by its size. */
  lemma BlockInFront(header: string, kids: Forest, f: Forest, id: nat, body: Forest)
    ensures var d, g := 2 + Size(kids), Append(Block(header, kids, End), f);
            && NodeAt(g, 0, id + d) == NodeAt(f, 0, id)
            && SetKids(g, 0, id + d, body) == Append(Block(header, kids, End), SetKids(f, 0, id, body))
  {
    ShiftNode(f, 0, 2 + Size(kids), id, body);
  }

  /* ---------------------------------------------------------------- the approved server */

  lemma {:induction false} ApprovedMembers(cfg: Config, blocks: seq<BlockRec>, host: string)
    requires ApprovedServers(cfg, blocks, host).Ok?
    ensures forall r :: r in ApprovedServers(cfg, blocks, host).value ==> r in blocks
    ensures forall r :: r in blocks ==>
              IsApproved(r.header, TextsOf(cfg.directives, r.id), host).Ok?
              && (IsApproved(r.header, TextsOf(cfg.directives, r.id), host).value
                  <==> r in ApprovedServers(cfg, blocks, host).value)
    decreases |blocks|
  {
    hide IsApproved, TextsOf;
    if blocks != [] {
      var r := blocks[0];
      ApprovedMembers(cfg, blocks[1..], host);
      var rest := ApprovedServers(cfg, blocks[1..], host).value;
      assert blocks == [r] + blocks[1..];
      assert ApprovedServers(cfg, blocks, host).value
          == (if IsApproved(r.header, TextsOf(cfg.directives, r.id), host).value then [r] else []) + rest;
      forall s | s in blocks
        ensures IsApproved(s.header, TextsOf(cfg.directives, s.id), host).Ok?
        ensures IsApproved(s.header, TextsOf(cfg.directives, s.id), host).value
           <==> s in ApprovedServers(cfg, blocks, host).value
      {
        if s !in blocks[1..] {
          assert s == r;
        }
      }
    }
  }

  /** The unique approved server is the block that qualifies. */
  lemma ApprovedIs(text: string, host: string, id: nat)
    requires Parse(text).Some? && ApprovedServer(Parse(text).value, host).Ok?
    requires Tree(text).Some? && NodeAt(Tree(text).value, 0, id).Some?
    requires var (header, kids) := NodeAt(Tree(text).value, 0, id).value;
             IsApproved(header, Texts(kids), host) == Ok(true)
    ensures ApprovedServer(Parse(text).value, host).value.id == id
    ensures ApprovedServer(Parse(text).value, host).value in Parse(text).value.blocks
  {
    hide Tree, NodeAt, Blocks, Directives, Parse, TextsOf, Texts, IsApproved, ApprovedServers, Fits;
    var cfg, marks, f := Parse(text).value, Marks(text), Tree(text).value;
    ParseGivesTree(text);
    ApprovedMembers(cfg, cfg.blocks, host);
    var r := NodesAreRecords(f, marks, 0, -1, id);
    RecordsAreNodes(f, marks, 0, -1, r);
    RecHeader(f, marks, r);
    NodeBounds(f, 0, id);
    TextsInTree(f, marks, 0, -1, id);
    assert r in ApprovedServers(cfg, cfg.blocks, host).value;
  }

  lemma RecHeader(f: Forest, marks: seq<Mark>, r: BlockRec)
    requires IsNode(f, marks, 0, r)
    ensures r.header == NodeAt(f, 0, r.id).value.0
  {
    hide NodeAt;
  }

  /** The approved server of a parsed text satisfies the test. */
  lemma ApprovedQualifies(text: string, host: string, b: BlockRec, kids: Forest)
    requires Parse(text).Some? && ApprovedServer(Parse(text).value, host) == Ok(b)
    requires Located(text, b, kids)
    ensures IsApproved(b.header, Texts(kids), host) == Ok(true)
  {
    hide Tree, NodeAt, Blocks, Parse, TextsOf, Texts, IsApproved, ApprovedServers, Framed, TopBlocks, ChildrenOf, Run, Flatten, AllPlaced;
    var cfg := Parse(text).value;
    ApprovedMembers(cfg, cfg.blocks, host);
    assert b in ApprovedServers(cfg, cfg.blocks, host).value;
  }
}
