/** The tests on headers and directives depend on the tree alone, not on where it stands in the text. */
module NginxAlike {
  import opened Text
  import opened NginxLexer
  import opened NginxEvents
  import opened NginxTree
  import opened NginxParser
  import opened NginxParserTree
  import opened NginxLists
  import opened NginxTreeEdit
  import opened NginxRules
  import opened NginxSnippets
  import opened NginxRewrite

  /** The same blocks, apart from their offsets. */
  predicate Same(a: BlockRec, b: BlockRec) { a.id == b.id && a.header == b.header && a.parent == b.parent }

  predicate Alike(a: seq<BlockRec>, b: seq<BlockRec>) {
    |a| == |b| && forall i :: 0 <= i < |a| ==> Same(a[i], b[i])
  }

  lemma AlikeConcat(a: seq<BlockRec>, b: seq<BlockRec>, c: seq<BlockRec>, d: seq<BlockRec>)
    requires Alike(a, b) && Alike(c, d)
    ensures Alike(a + c, b + d)
  {
    hide Same;
    forall i | 0 <= i < |a + c|
      ensures Same((a + c)[i], (b + d)[i])
    {
      assert (a + c)[i] == if i < |a| then a[i] else c[i - |a|];
      assert (b + d)[i] == if i < |a| then b[i] else d[i - |a|];
    }
  }

  lemma AlikeTail(a: seq<BlockRec>, b: seq<BlockRec>)
    requires Alike(a, b) && a != []
    ensures Same(a[0], b[0]) && Alike(a[1..], b[1..])
  {
    hide Same;
    assert forall i :: 0 <= i < |a| - 1 ==> a[1..][i] == a[i + 1] && b[1..][i] == b[i + 1];
  }

  lemma OneAlike(a: BlockRec, b: BlockRec)
    requires Same(a, b)
    ensures Alike([a], [b])
  {
  }

  lemma {:induction false} BlocksAlike(f: Forest, m1: seq<Mark>, m2: seq<Mark>, base: nat, parent: int)
    ensures Alike(Blocks(f, m1, base, parent), Blocks(f, m2, base, parent))
    decreases f
  {
    hide RecAt, Alike;
    match f
    case End => assert Alike([], []) by { NothingAlike(); }
    case Directive(_, rest) => BlocksAlike(rest, m1, m2, base + 1, parent);
    case Block(header, kids, rest) =>
      var n := base + 2 + Size(kids);
      RecParent(header, kids, m1, base, parent);
      RecParent(header, kids, m2, base, parent);
      OneAlike(RecAt(header, kids, m1, base, parent), RecAt(header, kids, m2, base, parent));
      BlocksAlike(kids, m1, m2, base + 1, base);
      BlocksAlike(rest, m1, m2, n, parent);
      AlikeConcat([RecAt(header, kids, m1, base, parent)], [RecAt(header, kids, m2, base, parent)],
                  Blocks(kids, m1, base + 1, base), Blocks(kids, m2, base + 1, base));
      AlikeConcat([RecAt(header, kids, m1, base, parent)] + Blocks(kids, m1, base + 1, base),
                  [RecAt(header, kids, m2, base, parent)] + Blocks(kids, m2, base + 1, base),
                  Blocks(rest, m1, n, parent), Blocks(rest, m2, n, parent));
  }

  lemma NothingAlike()
    ensures Alike([], [])
  {
  }

  ghost predicate SameTexts(c: Config, d: Config) {
    forall id: int {:trigger TextsOf(c.directives, id)} {:trigger TextsOf(d.directives, id)} ::
      id >= -1 ==> TextsOf(c.directives, id) == TextsOf(d.directives, id)
  }

  /** Two texts with one tree are parsed alike. */
  lemma ParsedAlike(s: string, t: string)
    requires Tree(s).Some? && Tree(s) == Tree(t)
    ensures Parse(s).Some? && Parse(t).Some?
    ensures Alike(Parse(s).value.blocks, Parse(t).value.blocks) && SameTexts(Parse(s).value, Parse(t).value)
  {
    hide Parse, Tree, Blocks, Directives, Alike, TextsOf, Fits, Marks, EventsOf, Texts, Size, NodeAt;
    TreeListsAreParsed(s);
    TreeListsAreParsed(t);
    var f := Tree(s).value;
    BlocksAlike(f, Marks(s), Marks(t), 0, -1);
    forall id: int | id >= -1
      ensures TextsOf(Parse(s).value.directives, id) == TextsOf(Parse(t).value.directives, id)
    {
      TextsInTree(f, Marks(s), 0, -1, id);
      TextsInTree(f, Marks(t), 0, -1, id);
    }
  }

  lemma {:induction false} ApprovedAlike(c: Config, d: Config, a: seq<BlockRec>, b: seq<BlockRec>, host: string)
    requires Alike(a, b) && SameTexts(c, d) && ApprovedServers(c, a, host).Ok?
    ensures ApprovedServers(d, b, host).Ok? && Alike(ApprovedServers(c, a, host).value, ApprovedServers(d, b, host).value)
    decreases |a|
  {
    hide IsApproved, Same, Alike, TextsOf;
    SameLength(a, b);
    if a == [] {
      NothingAlike();
    } else {
      AlikeTail(a, b);
      ApprovedAlike(c, d, a[1..], b[1..], host);
      SameParts(a[0], b[0]);
      OneAlike(a[0], b[0]);
      NothingAlike();
      var x, y := ApprovedServers(c, a[1..], host).value, ApprovedServers(d, b[1..], host).value;
      AlikeConcat([a[0]], [b[0]], x, y);
      assert [] + x == x && [] + y == y;
    }
  }

  lemma SameLength(a: seq<BlockRec>, b: seq<BlockRec>)
    requires Alike(a, b)
    ensures |a| == |b|
  {
  }

  lemma SameParts(a: BlockRec, b: BlockRec)
    requires Same(a, b)
    ensures a.id == b.id && a.header == b.header && a.parent == b.parent
  {
  }

  lemma ApprovedServerAlike(c: Config, d: Config, host: string)
    requires Alike(c.blocks, d.blocks) && SameTexts(c, d) && ApprovedServer(c, host).Ok?
    ensures ApprovedServer(d, host).Ok? && ApprovedServer(d, host).value.id == ApprovedServer(c, host).value.id
  {
    hide IsApproved, TextsOf, ApprovedServers, SameTexts;
    ApprovedAlike(c, d, c.blocks, d.blocks, host);
  }

  lemma {:induction false} UpstreamsAlike(a: seq<BlockRec>, b: seq<BlockRec>)
    requires Alike(a, b) && Upstreams(a).Ok?
    ensures Upstreams(b).Ok? && Alike(Upstreams(a).value, Upstreams(b).value)
    decreases |a|
  {
    hide Tokenise, Same, Alike;
    SameLength(a, b);
    if a == [] {
      NothingAlike();
    } else {
      AlikeTail(a, b);
      SameParts(a[0], b[0]);
      UpstreamsAlike(a[1..], b[1..]);
      if a[0].parent == -1 {
        OneAlike(a[0], b[0]);
        var x, y := Upstreams(a[1..]).value, Upstreams(b[1..]).value;
        AlikeConcat([a[0]], [b[0]], x, y);
        assert [] + x == x && [] + y == y;
      }
    }
  }

  lemma {:induction false} RefuseUngatedAlike(c: Config, d: Config, a: seq<BlockRec>, b: seq<BlockRec>)
    requires Alike(a, b) && SameTexts(c, d)
    ensures RefuseUngated(c, a) == RefuseUngated(d, b)
    decreases |a|
  {
    hide NeedsGate, Same, Alike, TextsOf;
    SameLength(a, b);
    if a != [] {
      AlikeTail(a, b);
      SameParts(a[0], b[0]);
      RefuseUngatedAlike(c, d, a[1..], b[1..]);
    }
  }

  lemma {:induction false} ChildrenAlike(a: seq<BlockRec>, b: seq<BlockRec>, id: int)
    requires Alike(a, b)
    ensures Alike(ChildrenOf(a, id), ChildrenOf(b, id))
    decreases |a|
  {
    hide Same, Alike;
    SameLength(a, b);
    if a == [] {
      NothingAlike();
    } else {
      AlikeTail(a, b);
      SameParts(a[0], b[0]);
      ChildrenAlike(a[1..], b[1..], id);
      var x, y := ChildrenOf(a[1..], id), ChildrenOf(b[1..], id);
      OneAlike(a[0], b[0]);
      AlikeConcat([a[0]], [b[0]], x, y);
      assert [] + x == x && [] + y == y;
    }
  }

  /** Nothing to gate means no edit. */
  lemma {:induction false} NoGates(text: string, c: Config, children: seq<BlockRec>)
    requires RefuseUngated(c, children).Ok?
    ensures Gates(text, c, children) == Ok([])
    decreases |children|
  {
    hide NeedsGate, TextsOf, GateOf;
    if children != [] {
      NoGates(text, c, children[1..]);
      NothingBefore(Gates(text, c, children[1..]).value);
    }
  }

  lemma NothingBefore<T>(s: seq<T>)
    ensures [] + s == s
  {
  }

  predicate Harmless(text: string) {
    Tokenise(text).Ok? && !IsCaptureDirective(Tokenise(text).value)
  }

  lemma {:induction false} RefuseCaptureIff(texts: seq<string>)
    ensures RefuseCapture(texts).Ok? <==> forall i :: 0 <= i < |texts| ==> Harmless(texts[i])
  {
    hide Tokenise, IsCaptureDirective;
    if texts != [] {
      RefuseCaptureIff(texts[1..]);
      HarmlessCons(texts);
    }
  }

  lemma HarmlessCons(texts: seq<string>)
    requires texts != []
    ensures (forall i :: 0 <= i < |texts| ==> Harmless(texts[i]))
       <==> Harmless(texts[0]) && forall i :: 0 <= i < |texts[1..]| ==> Harmless(texts[1..][i])
  {
    hide Harmless;
    assert forall i :: 0 < i < |texts| ==> texts[i] == texts[1..][i - 1];
  }

  /** The final verification refuses at least what the removal refuses. */
  lemma {:induction false} VerifiedDirectives(texts: seq<string>)
    requires RefuseCaptureDirectives(texts).Ok?
    ensures RefuseCapture(texts).Ok?
  {
    hide Tokenise, IsCaptureDirective, HasMarker;
    if texts != [] {
      VerifiedDirectives(texts[1..]);
    }
  }
}
