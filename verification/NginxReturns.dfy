/** A rewritten configuration can be rewritten again, and keeps its tree. */
module NginxReturns {
  import opened Text
  import opened NginxLexer
  import opened NginxEvents
  import opened NginxOffsets
  import opened NginxTree
  import opened NginxParser
  import opened NginxParserTree
  import opened NginxLists
  import opened NginxTreeEdit
  import opened NginxRules
  import opened NginxSplice
  import opened NginxSnippets
  import opened NginxRewrite
  import opened NginxCommute
  import opened NginxStages
  import opened NginxGates
  import opened NginxTheorem
  import opened NginxResult
  import opened NginxShift
  import opened NginxKept
  import opened NginxSecond
  import opened NginxAlike
  import opened NginxInserted
  import opened NginxCarried
  import opened NginxIdempotent
  import opened NginxLaminar
  import opened NginxParseConfig

  /* ---------------------------------------------------------------- the children of a rewritten server */

  lemma {:induction false} TopBlocksAppend(f: Forest, g: Forest, marks: seq<Mark>, base: nat, parent: int)
    ensures TopBlocks(Append(f, g), marks, base, parent) == TopBlocks(f, marks, base, parent) + TopBlocks(g, marks, base + Size(f), parent)
    decreases f
  {
    hide *;
    AppendParts(f, g);
    match f
    case End => NothingAppended(g, marks, base, parent);
    case Directive(text, rest) =>
      TopBlocksAppend(rest, g, marks, base + 1, parent);
      TopBlocksOfDirective(text, rest, marks, base, parent);
      TopBlocksOfDirective(text, Append(rest, g), marks, base, parent);
    case Block(header, kids, rest) =>
      var m := base + 2 + Size(kids);
      TopBlocksAppend(rest, g, marks, m, parent);
      TopBlocksOfBlock(header, kids, rest, marks, base, parent);
      TopBlocksOfBlock(header, kids, Append(rest, g), marks, base, parent);
      ConsAppend(RecAt(header, kids, marks, base, parent), TopBlocks(rest, marks, m, parent), TopBlocks(g, marks, m + Size(rest), parent));
  }

  lemma NothingAppended(g: Forest, marks: seq<Mark>, base: nat, parent: int)
    ensures TopBlocks(Append(End, g), marks, base, parent)
         == TopBlocks(End, marks, base, parent) + TopBlocks(g, marks, base + Size(End), parent)
  {
    hide RecAt;
    assert TopBlocks(End, marks, base, parent) == [];
  }

  lemma AppendParts(f: Forest, g: Forest)
    ensures f.Directive? ==> Append(f, g) == Forest.Directive(f.text, Append(f.rest, g)) && Size(f) == 1 + Size(f.rest)
    ensures f.Block? ==> Append(f, g) == Forest.Block(f.header, f.kids, Append(f.rest, g)) && Size(f) == 2 + Size(f.kids) + Size(f.rest)
  {
  }

  lemma TopBlocksOfEnd(marks: seq<Mark>, base: nat, parent: int)
    ensures TopBlocks(End, marks, base, parent) == []
  {
  }

  lemma TopBlocksOfDirective(text: string, rest: Forest, marks: seq<Mark>, base: nat, parent: int)
    ensures TopBlocks(Forest.Directive(text, rest), marks, base, parent) == TopBlocks(rest, marks, base + 1, parent)
  {
  }

  lemma TopBlocksOfBlock(header: string, kids: Forest, rest: Forest, marks: seq<Mark>, base: nat, parent: int)
    ensures TopBlocks(Forest.Block(header, kids, rest), marks, base, parent)
         == [RecAt(header, kids, marks, base, parent)] + TopBlocks(rest, marks, base + 2 + Size(kids), parent)
  {
    hide RecAt;
  }

  lemma ConsAppend<T>(x: T, a: seq<T>, b: seq<T>)
    ensures [x] + (a + b) == ([x] + a) + b
  {
  }

  /** The record of the inserted location behind `front`. */
  function LastRec(marks: seq<Mark>, front: Forest, id: nat): BlockRec {
    RecAt(DIRECT_NAME, LEAVES, marks, id + 1 + Size(front), id)
  }

  lemma ChildrenAre(marks: seq<Mark>, front: Forest, id: nat)
    ensures TopBlocks(Append(front, DIRECT_TREE), marks, id + 1, id)
         == TopBlocks(front, marks, id + 1, id) + [LastRec(marks, front, id)]
  {
    hide *;
    TopBlocksAppend(front, DIRECT_TREE, marks, id + 1, id);
    DirectHasNoEdit(0);
    LastAlone(marks, front, id);
  }

  lemma LastAlone(marks: seq<Mark>, front: Forest, id: nat)
    ensures TopBlocks(Forest.Block(DIRECT_NAME, LEAVES, End), marks, id + 1 + Size(front), id) == [LastRec(marks, front, id)]
  {
    hide TopBlocks, RecAt, DIRECT_NAME, LEAVES, Size;
    var x := id + 1 + Size(front);
    TopBlocksOfBlock(DIRECT_NAME, LEAVES, End, marks, x, id);
    TopBlocksOfEnd(marks, x + 2 + Size(LEAVES), id);
  }

  lemma {:induction false} TopHeaderIn(f: Forest, base: nat, id: int)
    requires TopAt(f, base, id).Some?
    ensures TopAt(f, base, id).value.0 in TopHeaders(f)
    decreases f
  {
    match f
    case Directive(_, rest) => TopHeaderIn(rest, base + 1, id);
    case Block(_, kids, rest) => if id != base { TopHeaderIn(rest, base + 2 + Size(kids), id); }
  }

  lemma NoV1Member(headers: seq<string>, h: string)
    requires AllNoV1(headers) && h in headers
    ensures NoV1(h) && h != DIRECT_NAME
  {
    hide NoV1, DIRECT_NAME;
    DirectIsRemoved("");
  }

  /** A kept child, and where it ends. */
  lemma FrontRecord(text: string, marks: seq<Mark>, front: Forest, id: nat, c: BlockRec)
    requires AllPlaced(text, marks) && id + 1 + Size(front) < |marks| && AllNoV1(TopHeaders(front))
    requires AllKept(text, Append(front, DIRECT_TREE), id + 1) && c in TopBlocks(front, marks, id + 1, id)
    ensures RemovedBlock(text, c) == Ok(false) && id < c.id && c.id + 2 <= id + 1 + Size(front)
    ensures c.open >= 0 && c.close < marks[id + 1 + Size(front)].at
    ensures marks[id + 1 + Size(front)].OpenAt? ==> c.close < marks[id + 1 + Size(front)].start
    ensures c.header in TopHeaders(front)
  {
    hide *;
    var base, x := id + 1, id + 1 + Size(front);
    RecordIsTop(front, marks, base, id, c);
    TopBounds(front, base, c.id);
    TopHeaderIn(front, base, c.id);
    var (header, kids) := TopAt(front, base, c.id).value;
    RecParent(header, kids, marks, c.id, id);
    NoV1Member(TopHeaders(front), header);
    TopAppend(front, DIRECT_TREE, base, c.id);
    KeptOf(text, Append(front, DIRECT_TREE), base, c.id);
    KeptIsNotRemoved(text, marks, header, kids, c.id, id);
    RecClose(header, kids, marks, c.id, id);
    MarksAscend(text, marks, c.id + 1 + Size(kids), x);
    if marks[x].OpenAt? {
      LaterStart(text, marks, c.id + 1 + Size(kids), x);
    }
  }

  lemma KeptOf(text: string, f: Forest, base: nat, id: int)
    requires AllKept(text, f, base) && TopAt(f, base, id).Some? && TopAt(f, base, id).value.0 != DIRECT_NAME
    ensures KeptChild(text, id, TopAt(f, base, id).value.0, TopAt(f, base, id).value.1)
  {
    hide TopAt, KeptChild, DIRECT_NAME;
  }

  lemma RecClose(header: string, kids: Forest, marks: seq<Mark>, id: nat, parent: int)
    requires id + 1 + Size(kids) < |marks|
    ensures var r := RecAt(header, kids, marks, id, parent); r.open >= 0 && r.close == marks[id + 1 + Size(kids)].at
  {
  }

  lemma {:induction false} KeptRemovals(text: string, kept: seq<BlockRec>, last: BlockRec)
    requires forall c :: c in kept ==> RemovedBlock(text, c) == Ok(false)
    requires RemovedBlock(text, last) == Ok(true)
    ensures Removals(text, kept + [last]) == Ok([RemovalOf(text, last)])
    decreases |kept|
  {
    hide RemovedBlock, RemovalOf;
    var all := kept + [last];
    if kept == [] {
      assert all == [last] && all[1..] == [];
      assert [RemovalOf(text, last)] + [] == [RemovalOf(text, last)];
    } else {
      assert all[0] == kept[0] && all[1..] == kept[1..] + [last];
      KeptRemovals(text, kept[1..], last);
      assert [] + [RemovalOf(text, last)] == [RemovalOf(text, last)];
    }
  }

  /** What a second run finds to do in the server. */
  lemma SecondRemovals(text: string, host: string, id: nat, header: string, front: Forest, b: BlockRec)
    requires Rewritten(text, host, id, header, front) && Located(text, b, Append(front, DIRECT_TREE)) && b.id == id
    ensures Parse(text).Some?
    ensures ChildrenOf(Parse(text).value.blocks, id)
         == TopBlocks(front, Marks(text), id + 1, id) + [LastRec(Marks(text), front, id)]
    ensures Removals(text, ChildrenOf(Parse(text).value.blocks, id)) == Ok([RemovalOf(text, LastRec(Marks(text), front, id))])
  {
    hide Located, Parse, ServerAt, Verify, AllHarmless, AllNoV1, TopHeaders, AllKept, Carries, Append, DIRECT_TREE, RecAt, ChildrenOf,
         Removals, RemovalOf, TopBlocks, AllPlaced, RemovedBlock, LEAVES, DIRECT_NAME;
    var f, marks := Append(front, DIRECT_TREE), Marks(text);
    LocatedNode(text, b, f);
    LocatedMarks(text, b, f);
    LastIndex(front);
    ChildrenAre(marks, front, id);
    forall c | c in TopBlocks(front, marks, id + 1, id)
      ensures RemovedBlock(text, c) == Ok(false)
    {
      FrontRecord(text, marks, front, id, c);
    }
    InsertedIsRemoved(text, marks, LEAVES, id + 1 + Size(front), id);
    KeptRemovals(text, TopBlocks(front, marks, id + 1, id), LastRec(marks, front, id));
  }

  lemma LastIndex(front: Forest)
    ensures Size(Append(front, DIRECT_TREE)) == Size(front) + 2 + Size(LEAVES)
  {
    hide Append, DIRECT_TREE, LEAVES;
    SizeAppend(front, DIRECT_TREE);
    DirectHasNoEdit(0);
  }

  lemma NamesAreHarmless(front: Forest)
    requires AllHarmless(TopHeaders(front))
    ensures RefuseCapture(TopHeaders(Append(front, DIRECT_TREE))).Ok?
  {
    hide Harmless, DIRECT_NAME, LEAVES, RefuseCapture;
    TextsOfAppend(front, DIRECT_TREE);
    DirectHasNoEdit(0);
    DirectIsHarmless();
    var hs := TopHeaders(Append(front, DIRECT_TREE));
    assert hs == TopHeaders(front) + [DIRECT_NAME] by { LastHeader(); }
    RefuseCaptureIff(hs);
  }

  lemma LastHeader()
    ensures TopHeaders(DIRECT_TREE) == [DIRECT_NAME]
  {
    hide LEAVES;
    DirectHasNoEdit(0);
  }

  lemma DirectIsHarmless()
    ensures Harmless(DIRECT_NAME)
  {
    hide Tokenise, SafeWord;
    DirectIsSafe();
    WordsTokenise(DIRECT_HEADER);
    LowerLocation();
  }

  lemma LowerLocation()
    ensures Lower("location") == "location"
  {
  }

  /* ---------------------------------------------------------------- the edited text */

  lemma {:induction false} LineStartLocal(a: string, b: string, n: nat, p: nat)
    requires p <= n <= |a| && n <= |b| && a[..n] == b[..n]
    ensures LineStart(a, p) == LineStart(b, p)
    decreases p
  {
    if p > 0 {
      assert a[..n][p - 1] == b[..n][p - 1];
      if a[p - 1] != '\n' {
        LineStartLocal(a, b, n, p - 1);
      }
    }
  }

  lemma SlicesLocal(a: string, b: string, n: nat, i: nat, j: nat)
    requires i <= j <= n <= |a| && n <= |b| && a[..n] == b[..n]
    ensures a[i..j] == b[i..j]
  {
    assert a[i..j] == a[..n][i..j] && b[i..j] == b[..n][i..j];
  }

  /** The scan up to `n` depends on the first `n` characters only. */
  lemma {:induction false} ScanLocal(a: string, b: string, n: nat)
    requires n <= |a| && n <= |b| && a[..n] == b[..n]
    ensures ScanTo(a, n) == ScanTo(b, n)
    decreases n
  {
    if n > 0 {
      hide ScanStep;
      assert a[..n - 1] == a[..n][..n - 1] && b[..n - 1] == b[..n][..n - 1];
      ScanLocal(a, b, n - 1);
      StepLocal(a, b, n, ScanTo(a, n - 1));
    }
  }

  lemma StepLocal(a: string, b: string, n: nat, s: Scan)
    requires 0 < n <= |a| && n <= |b| && a[..n] == b[..n] && s.stmt <= n - 1
    ensures ScanStep(a, n - 1, s) == ScanStep(b, n - 1, s)
  {
    hide Strip, Trim, CodeStart, LineStart, Blank;
    assert a[..n][n - 1] == b[..n][n - 1];
    SlicesLocal(a, b, n, s.stmt, n - 1);
    var code := s.stmt + CodeStart(a[s.stmt..n - 1], 0, false);
    LineStartLocal(a, b, n, code);
    SlicesLocal(a, b, n, LineStart(a, code), code);
  }

  lemma {:induction false} MarksOfPrefix(text: string, i: nat, j: nat)
    requires i <= j <= |text|
    ensures ScanTo(text, i).marks <= ScanTo(text, j).marks
    decreases j
  {
    hide ScanTo;
    if i < j {
      MarksOfPrefix(text, i, j - 1);
      ScanExtends(text, j - 1);
    }
  }

  /** Texts that agree up to `n` have the same marks up to there. */
  lemma MarksAgreeUpTo(a: string, b: string, n: nat, k: nat)
    requires n <= |a| && n <= |b| && a[..n] == b[..n] && |At(a, n).out| == k
    ensures k <= |Marks(a)| && k <= |Marks(b)| && Marks(a)[..k] == Marks(b)[..k]
  {
    hide ScanTo, Run;
    ScanLocal(a, b, n);
    ScanAgrees(a, n);
    MarksOfPrefix(a, n, |a|);
    MarksOfPrefix(b, n, |b|);
  }

  lemma MarkAtLocal(m1: seq<Mark>, m2: seq<Mark>, k: nat, i: nat)
    requires k <= |m1| && k <= |m2| && m1[..k] == m2[..k] && i < k
    ensures MarkAt(m1, i) == MarkAt(m2, i)
  {
    assert m1[..k][i] == m2[..k][i];
  }

  /** Equal marks give equal records. */
  lemma {:induction false} TopBlocksLocal(f: Forest, m1: seq<Mark>, m2: seq<Mark>, k: nat, base: nat, parent: int)
    requires k <= |m1| && k <= |m2| && m1[..k] == m2[..k] && base + Size(f) <= k
    ensures TopBlocks(f, m1, base, parent) == TopBlocks(f, m2, base, parent)
    decreases f
  {
    hide MarkAt;
    match f
    case End =>
    case Directive(_, rest) => TopBlocksLocal(rest, m1, m2, k, base + 1, parent);
    case Block(_, kids, rest) =>
      MarkAtLocal(m1, m2, k, base);
      MarkAtLocal(m1, m2, k, base + 1 + Size(kids));
      TopBlocksLocal(rest, m1, m2, k, base + 2 + Size(kids), parent);
  }

  /** The raw text of the inserted location. */
  lemma RawSlice(text: string, marks: seq<Mark>, front: Forest, id: nat)
    requires AllPlaced(text, marks) && id + 2 + Size(front) + Size(LEAVES) < |marks| && RawAt(text, id + 1 + Size(front))
    ensures var r := LastRec(marks, front, id); r.open >= 0 && Slice(text, r.open + 1, r.close) == DIRECT_RAW
  {
    hide *;
    var x := id + 1 + Size(front);
    var j := x + 1 + Size(LEAVES);
    var p, q := RawPlace(text, x);
    MarkIsEvent(text, marks, x);
    MarkIsEvent(text, marks, j);
    EventUnique(text, x, p, marks[x].at);
    EventUnique(text, j, q, marks[j].at);
    BodyIsSlice(text, p, q);
    LastRecIs(marks, front, id);
  }

  lemma RawPlace(text: string, id: int) returns (p: int, q: int)
    requires RawAt(text, id)
    ensures EventAt(text, id, p) && EventAt(text, id + 1 + Size(LEAVES), q) && 0 <= p < q < |text|
    ensures Body(text, p, q) == DIRECT_RAW
  {
    hide EventAt, Body, DIRECT_RAW, LEAVES, Size;
    p, q :| BlockAt(text, id, id + 1 + Size(LEAVES), p, q) && Body(text, p, q) == DIRECT_RAW;
    NotBefore(text, id, id + 1 + Size(LEAVES), p, q);
  }

  lemma LastRecIs(marks: seq<Mark>, front: Forest, id: nat)
    requires id + 2 + Size(front) + Size(LEAVES) < |marks|
    ensures LastRec(marks, front, id).open == marks[id + 1 + Size(front)].at
    ensures LastRec(marks, front, id).close == marks[id + 2 + Size(front) + Size(LEAVES)].at
  {
    hide LEAVES, Size;
  }

  /* ---------------------------------------------------------------- the second verification */

  lemma {:induction false} V1OfFront(front: seq<BlockRec>, c: BlockRec, d: BlockRec)
    requires V1Locations(front + [c]).Ok? && AllNoV1(Headers(front)) && d.header == DIRECT_NAME
    ensures V1Locations(front + [d]) == Ok([d])
    decreases |front|
  {
    hide LocationPath, IsLiteralV1, DIRECT_NAME;
    DirectIsV1();
    if front == [] {
      assert (front + [d])[1..] == [];
      assert [d] + [] == [d];
    } else {
      assert (front + [c])[1..] == front[1..] + [c] && (front + [d])[1..] == front[1..] + [d];
      assert Headers(front)[0] == front[0].header;
      assert AllNoV1(Headers(front[1..])) by {
        assert forall i :: 0 <= i < |Headers(front[1..])| ==> Headers(front[1..])[i] == Headers(front)[i + 1];
      }
      assert NoV1(Headers(front)[0]);
      V1OfFront(front[1..], c, d);
      assert [] + [d] == [d];
    }
  }

  lemma DirectIsV1()
    ensures LocationPath(DIRECT_NAME).Ok? && LocationPath(DIRECT_NAME).value.Some? && IsLiteralV1(LocationPath(DIRECT_NAME).value.value)
  {
    hide LocationPath;
    DirectPath();
  }

  predicate LiesBefore(c: BlockRec, d: BlockRec, n: nat) { c.id < d.id && c.open >= 0 && c.close <= n }

  lemma SliceLocal(a: string, b: string, n: nat, i: nat, j: int)
    requires n <= |a| && n <= |b| && a[..n] == b[..n] && j <= n
    ensures Slice(a, i, j) == Slice(b, i, j)
  {
    if j >= 0 {
      assert a[..j] == a[..n][..j] && b[..j] == b[..n][..j];
    }
  }

  lemma {:induction false} CaptureLocal(a: string, b: string, n: nat, front: seq<BlockRec>, c: BlockRec, d: BlockRec)
    requires n <= |a| && n <= |b| && a[..n] == b[..n] && c.id == d.id
    requires forall k :: 0 <= k < |front| ==> LiesBefore(front[k], c, n)
    requires RefuseCaptureLocations(a, front + [c], c).Ok?
    ensures RefuseCaptureLocations(b, front + [d], d).Ok?
    decreases |front|
  {
    hide LocationPath, Contains, HasMarker, Slice, Strip;
    if front == [] {
      assert (front + [d])[1..] == [];
    } else {
      assert LiesBefore(front[0], c, n);
      assert (front + [c])[1..] == front[1..] + [c] && (front + [d])[1..] == front[1..] + [d];
      SliceLocal(a, b, n, front[0].open + 1, front[0].close);
      assert forall k :: 0 <= k < |front| - 1 ==> front[1..][k] == front[k + 1];
      CaptureLocal(a, b, n, front[1..], c, d);
    }
  }

  /* ---------------------------------------------------------------- the second run */

  /** The server of a rewritten text. */
  lemma ServerOf(text: string, host: string, id: nat, header: string, front: Forest) returns (b: BlockRec)
    requires Rewritten(text, host, id, header, front)
    ensures Parse(text).Some? && ApprovedServer(Parse(text).value, host) == Ok(b) && b.id == id
    ensures Located(text, b, Append(front, DIRECT_TREE)) && Placed0(text, Marks(text), b, Append(front, DIRECT_TREE))
    ensures Blank(Unfinished(text, b.close)) && HasUpstream(Tree(text).value)
  {
    hide Parse, Located, ServerAt, Verify, AllHarmless, AllNoV1, TopHeaders, AllKept, Append, DIRECT_TREE, ApprovedServer, HasUpstream,
         RawAt, Blank, Unfinished, Gate, Tree, Placed0, LEAVES;
    b := VerifiedServer(text, host, id, header, Append(front, DIRECT_TREE));
    LastIndex(front);
    LocatedBounds(text, b, Append(front, DIRECT_TREE));
    CleanServer(text, b, Append(front, DIRECT_TREE));
    LocatedPlace(text, b, Append(front, DIRECT_TREE));
  }

  /** A clean closing event is a clean closing brace. */
  lemma CleanServer(text: string, b: BlockRec, kids: Forest)
    requires Located(text, b, kids) && 0 <= b.close < |text| && CleanAt(text, b.id + 1 + Size(kids))
    ensures Blank(Unfinished(text, b.close))
  {
    hide Located, At, AllPlaced, Blank, Marks, CleanEvent;
    var e := b.id + 1 + Size(kids);
    var p :| CleanEvent(text, e, p);
    LocatedClose(text, b, kids);
    MarkIsEvent(text, Marks(text), e);
    CleanPending(text, e, p, b.close);
    NewlineIsBlank();
    EmptyIsBlank();
    BlankConcat(At(text, b.close).pending, if b.close > 0 && text[b.close - 1] == '\n' then "" else "\n");
  }

  lemma LocatedClose(text: string, b: BlockRec, kids: Forest)
    requires Located(text, b, kids)
    ensures AllPlaced(text, Marks(text)) && b.id + 1 + Size(kids) < |Marks(text)| && Marks(text)[b.id + 1 + Size(kids)].at == b.close
  {
    hide Run, Flatten, NodeAt, TopBlocks, Texts, ChildrenOf, TextsOf, AllPlaced, Parse, Tree, Fits, Marks, EventsOf, Size, Blank;
  }

  lemma CleanPending(text: string, e: int, p: int, q: nat)
    requires CleanEvent(text, e, p) && EventAt(text, e, q)
    ensures q <= |text| && Blank(At(text, q).pending)
  {
    hide At, Blank;
    EventUnique(text, e, p, q);
  }

  /** The first stage of the second run: it returns a text with the same tree, equal up to the inserted location. */
  lemma SecondDirect(text: string, host: string, id: nat, header: string, front: Forest, b: BlockRec) returns (t: string)
    requires Rewritten(text, host, id, header, front)
    requires Parse(text).Some? && ApprovedServer(Parse(text).value, host) == Ok(b) && b.id == id
    requires Located(text, b, Append(front, DIRECT_TREE)) && Placed0(text, Marks(text), b, Append(front, DIRECT_TREE))
    requires Blank(Unfinished(text, b.close)) && HasUpstream(Tree(text).value)
    ensures WithDirect(text, host) == Ok(t) && Tree(t) == Tree(text)
    ensures RawAt(t, id + 1 + Size(front)) && EqualUpTo(text, t, LastRec(Marks(text), front, id).start)
  {
    hide Parse, Located, ServerAt, Verify, AllHarmless, AllNoV1, TopHeaders, AllKept, Append, DIRECT_TREE, ApprovedServer, HasUpstream,
         RawAt, Blank, Unfinished, Tree, Placed0, LEAVES, TextsOf, Headers, RefuseCapture, ChildrenOf, Removals, RemovalOf, TopBlocks,
         InsertionOf, ApplyAll, LastRec, EqualUpTo, CleanAt, DIRECT_NAME;
    var removal := RemovalOf(text, LastRec(Marks(text), front, id));
    SecondRemovals(text, host, id, header, front, b);
    LocatedNode(text, b, Append(front, DIRECT_TREE));
    PlacedSize(text, Marks(text), b, Append(front, DIRECT_TREE));
    SecondChecks(text, host, id, header, front, b);
    t := ApplyAll(text, [removal] + [InsertionOf(text, b.close)]);
    SecondTree(text, host, id, header, front, b, [removal], t);
    SecondPrefix(text, b, Append(front, DIRECT_TREE), front, removal, t);
  }

  ghost predicate EqualUpTo(a: string, b: string, n: nat) { n <= |a| && n <= |b| && a[..n] == b[..n] }

  /** No refusal stands in the way. */
  lemma SecondChecks(text: string, host: string, id: nat, header: string, front: Forest, b: BlockRec)
    requires Rewritten(text, host, id, header, front)
    requires Parse(text).Some? && ApprovedServer(Parse(text).value, host) == Ok(b) && b.id == id
    requires Located(text, b, Append(front, DIRECT_TREE))
    ensures RefuseCapture(TextsOf(Parse(text).value.directives, id)).Ok?
    ensures RefuseCapture(Headers(ChildrenOf(Parse(text).value.blocks, id))).Ok?
  {
    hide Parse, Located, ServerAt, AllHarmless, AllNoV1, TopHeaders, AllKept, Append, DIRECT_TREE, ApprovedServer, Carries,
         TextsOf, Headers, RefuseCapture, ChildrenOf, TopBlocks, Upstreams, DirectTokens, ReviewedUpstream, V1Locations, ReviewedV1Body,
         RefuseUngated, RefuseCaptureLocations, RefuseCaptureDirectives;
    VerifiedDirectives(TextsOf(Parse(text).value.directives, id));
    LocatedNode(text, b, Append(front, DIRECT_TREE));
    HeadersOfTop(Append(front, DIRECT_TREE), Marks(text), id + 1, id);
    NamesAreHarmless(front);
  }

  lemma SecondTree(text: string, host: string, id: nat, header: string, front: Forest, b: BlockRec, es: seq<Edit<char>>, t: string)
    requires Rewritten(text, host, id, header, front)
    requires Parse(text).Some? && b.id == id && Located(text, b, Append(front, DIRECT_TREE))
    requires Placed0(text, Marks(text), b, Append(front, DIRECT_TREE)) && 0 <= b.close < |text| && Blank(Unfinished(text, b.close))
    requires Removals(text, ChildrenOf(Parse(text).value.blocks, id)) == Ok(es) && t == ApplyAll(text, es + [InsertionOf(text, b.close)])
    ensures Tree(t) == Tree(text) && RawAt(t, id + 1 + Size(front))
  {
    hide *;
    var f := Append(front, DIRECT_TREE);
    RewrittenIsKept(text, host, id, header, front);
    LocatedNode(text, b, f);
    DirectStage(text, b, f, es);
    DroppedAgain(text, b, front);
    DroppedIs(text, b);
    CleanBody(text, b, f, ChildrenOf(Parse(text).value.blocks, b.id));
    SetKidsSame(Tree(text).value, 0, b.id);
    CarriedByDirect(text, Marks(text), b, f, es, RemovedIds(text, TopBlocks(f, Marks(text), b.id + 1, b.id)));
    CarriesRaw(t, id + 1 + Size(front));
  }

  lemma RewrittenIsKept(text: string, host: string, id: nat, header: string, front: Forest)
    requires Rewritten(text, host, id, header, front)
    ensures AllNoV1(TopHeaders(front)) && AllKept(text, Append(front, DIRECT_TREE), id + 1)
  {
    hide ServerAt, Verify, AllHarmless, AllNoV1, TopHeaders, AllKept, Carries, Append, DIRECT_TREE;
  }

  lemma DroppedIs(text: string, b: BlockRec)
    requires Parse(text).Some?
    ensures Dropped(text, b) == RemovedIds(text, ChildrenOf(Parse(text).value.blocks, b.id))
  {
    hide Parse, RemovedIds, ChildrenOf;
  }

  lemma CarriesRaw(text: string, id: int)
    requires Carries(text, id)
    ensures RawAt(text, id)
  {
    hide RawAt, CleanAt;
  }

  lemma SecondPrefix(text: string, b: BlockRec, kids: Forest, front: Forest, removal: Edit<char>, t: string)
    requires Placed0(text, Marks(text), b, kids) && 0 <= b.close < |text|
    requires Removals(text, TopBlocks(kids, Marks(text), b.id + 1, b.id)) == Ok([removal])
    requires removal == RemovalOf(text, LastRec(Marks(text), front, b.id))
    requires t == ApplyAll(text, [removal] + [InsertionOf(text, b.close)])
    ensures EqualUpTo(text, t, LastRec(Marks(text), front, b.id).start)
  {
    hide Removals, TopBlocks, InsertionOf, ApplyAll, LastRec, BlankEnds, Placed0, InsertedAt, PruneEdits, RemovedIds, Matches;
    DirectMatches(text, Marks(text), b, kids, [removal], RemovedIds(text, TopBlocks(kids, Marks(text), b.id + 1, b.id)));
    ApplyKeepsPrefix(text, [removal] + [InsertionOf(text, b.close)], removal.start);
  }

  /** The other stages of the second run change nothing. */
  lemma SecondStages(text: string, t: string, host: string, id: nat, b: BlockRec, kids: Forest) returns (c: BlockRec)
    requires Verify(text, host).Ok? && Tree(text).Some? && Tree(t) == Tree(text)
    requires Parse(text).Some? && ApprovedServer(Parse(text).value, host) == Ok(b) && b.id == id
    ensures Parse(t).Some? && ApprovedServer(Parse(t).value, host) == Ok(c) && c.id == id
    ensures WithUpstream(t) == Ok(t) && WithGates(t, host) == Ok(t)
    ensures Alike(Parse(text).value.blocks, Parse(t).value.blocks) && SameTexts(Parse(text).value, Parse(t).value)
    ensures RefuseUngated(Parse(t).value, ChildrenOf(Parse(t).value.blocks, id)).Ok?
    ensures Upstreams(Parse(t).value.blocks).Ok?
  {
    hide Parse, Tree, ApprovedServer, Upstreams, DirectTokens, ReviewedUpstream, V1Locations, ReviewedV1Body, RefuseUngated,
         RefuseCaptureLocations, RefuseCaptureDirectives, TextsOf, ChildrenOf, Alike, SameTexts, Gates, ApplyAll;
    ParsedAlike(text, t);
    ApprovedServerAlike(Parse(text).value, Parse(t).value, host);
    c := ApprovedServer(Parse(t).value, host).value;
    UpstreamsAlike(Parse(text).value.blocks, Parse(t).value.blocks);
    SameLength(Upstreams(Parse(text).value.blocks).value, Upstreams(Parse(t).value.blocks).value);
    ChildrenAlike(Parse(text).value.blocks, Parse(t).value.blocks, id);
    RefuseUngatedAlike(Parse(text).value, Parse(t).value, ChildrenOf(Parse(text).value.blocks, id), ChildrenOf(Parse(t).value.blocks, id));
    NoGates(t, Parse(t).value, ChildrenOf(Parse(t).value.blocks, id));
    NothingApplied(t);
  }

  /** What the verification of the first output says about the server's children. */
  lemma VerifiedParts(text: string, host: string, b: BlockRec, children: seq<BlockRec>, last: BlockRec, front: seq<BlockRec>)
    requires Verify(text, host).Ok? && Parse(text).Some? && ApprovedServer(Parse(text).value, host) == Ok(b)
    requires children == ChildrenOf(Parse(text).value.blocks, b.id) == front + [last]
    requires AllNoV1(Headers(front)) && last.header == DIRECT_NAME
    ensures Upstreams(Parse(text).value.blocks).Ok? && |Upstreams(Parse(text).value.blocks).value| == 1
    ensures var lines := DirectTokens(TextsOf(Parse(text).value.directives, Upstreams(Parse(text).value.blocks).value[0].id));
            lines.Ok? && ReviewedUpstream(lines.value)
    ensures V1Locations(children).Ok? && ReviewedV1Body(Slice(text, last.open + 1, last.close))
    ensures RefuseCaptureLocations(text, children, last).Ok?
    ensures RefuseCaptureDirectives(TextsOf(Parse(text).value.directives, b.id)).Ok?
  {
    hide Parse, ApprovedServer, Upstreams, DirectTokens, ReviewedUpstream, V1Locations, ReviewedV1Body, RefuseUngated,
         RefuseCaptureLocations, RefuseCaptureDirectives, TextsOf, ChildrenOf, Headers, AllNoV1, DIRECT_NAME, Slice;
    V1OfFront(front, last, last);
  }

  /** The verification of the second output, from its parts. */
  lemma VerifiedFrom(text: string, host: string, b: BlockRec, children: seq<BlockRec>, last: BlockRec)
    requires Parse(text).Some? && ApprovedServer(Parse(text).value, host) == Ok(b)
    requires children == ChildrenOf(Parse(text).value.blocks, b.id)
    requires Upstreams(Parse(text).value.blocks).Ok? && |Upstreams(Parse(text).value.blocks).value| == 1
    requires var lines := DirectTokens(TextsOf(Parse(text).value.directives, Upstreams(Parse(text).value.blocks).value[0].id));
             lines.Ok? && ReviewedUpstream(lines.value)
    requires V1Locations(children) == Ok([last]) && last.open >= 0 && ReviewedV1Body(Slice(text, last.open + 1, last.close))
    requires RefuseUngated(Parse(text).value, children).Ok? && RefuseCaptureLocations(text, children, last).Ok?
    requires RefuseCaptureDirectives(TextsOf(Parse(text).value.directives, b.id)).Ok?
    ensures Verify(text, host).Ok?
  {
    hide Parse, ApprovedServer, Upstreams, DirectTokens, ReviewedUpstream, V1Locations, ReviewedV1Body, RefuseUngated,
         RefuseCaptureLocations, RefuseCaptureDirectives, TextsOf, ChildrenOf, Slice;
  }

  /** The same tree, reviewed upstream included. */
  lemma UpstreamSame(c: Config, d: Config)
    requires Alike(c.blocks, d.blocks) && SameTexts(c, d) && Upstreams(c.blocks).Ok? && |Upstreams(c.blocks).value| == 1
    ensures Upstreams(d.blocks).Ok? && |Upstreams(d.blocks).value| == 1
    ensures TextsOf(d.directives, Upstreams(d.blocks).value[0].id) == TextsOf(c.directives, Upstreams(c.blocks).value[0].id)
  {
    hide Upstreams, TextsOf, Same;
    UpstreamsAlike(c.blocks, d.blocks);
    SameParts(Upstreams(c.blocks).value[0], Upstreams(d.blocks).value[0]);
  }

  /** The children of the second output: the same kept ones, and the location inserted anew. */
  lemma SecondChildren(text: string, t: string, host: string, id: nat, header: string, front: Forest, b: BlockRec, c: BlockRec)
    requires Rewritten(text, host, id, header, front) && b.id == id && c.id == id
    requires Located(text, b, Append(front, DIRECT_TREE)) && Located(t, c, Append(front, DIRECT_TREE))
    requires EqualUpTo(text, t, LastRec(Marks(text), front, id).start) && RawAt(t, id + 1 + Size(front))
    ensures Parse(t).Some? && Parse(text).Some?
    ensures var kept := TopBlocks(front, Marks(text), id + 1, id);
            var d, e := LastRec(Marks(text), front, id), LastRec(Marks(t), front, id);
            && ChildrenOf(Parse(text).value.blocks, id) == kept + [d] && ChildrenOf(Parse(t).value.blocks, id) == kept + [e]
            && AllNoV1(Headers(kept)) && d.header == e.header == DIRECT_NAME && d.id == e.id
            && e.open >= 0 && Slice(t, e.open + 1, e.close) == DIRECT_RAW && Slice(text, d.open + 1, d.close) == DIRECT_RAW
            && forall k :: 0 <= k < |kept| ==> LiesBefore(kept[k], d, d.start)
  {
    hide *;
    var f, m1, m2 := Append(front, DIRECT_TREE), Marks(text), Marks(t);
    RewrittenIsKept(text, host, id, header, front);
    LocatedNode(text, b, f);
    LocatedNode(t, c, f);
    LocatedMarks(text, b, f);
    LocatedMarks(t, c, f);
    LastIndex(front);
    LocatedSize(text, b, f);
    LocatedSize(t, c, f);
    ChildrenAre(m1, front, id);
    ChildrenAre(m2, front, id);
    LastParts(m1, front, id);
    LastParts(m2, front, id);
    RawSlice(t, m2, front, id);
    RewrittenIsRaw(text, host, id, header, front);
    RawSlice(text, m1, front, id);
    LastStart(text, m1, b, front);
    SameFront(text, t, m1, m2, front, id);
    HeadersOfTop(front, m1, id + 1, id);
    KeptLieBefore(text, m1, front, id);
  }

  lemma RewrittenIsRaw(text: string, host: string, id: nat, header: string, front: Forest)
    requires Rewritten(text, host, id, header, front)
    ensures RawAt(text, id + 1 + Size(front))
  {
    hide ServerAt, Verify, AllHarmless, AllNoV1, TopHeaders, AllKept, RawAt, CleanAt, Append, DIRECT_TREE;
  }

  lemma KeptLieBefore(text: string, marks: seq<Mark>, front: Forest, id: nat)
    requires AllPlaced(text, marks) && AllNoV1(TopHeaders(front)) && AllKept(text, Append(front, DIRECT_TREE), id + 1)
    requires var x := id + 1 + Size(front);
             && x < |marks| && marks[x].OpenAt? && LastRec(marks, front, id).start == marks[x].start
    ensures var kept, d := TopBlocks(front, marks, id + 1, id), LastRec(marks, front, id);
            forall k :: 0 <= k < |kept| ==> LiesBefore(kept[k], d, d.start)
  {
    hide AllPlaced, AllNoV1, TopHeaders, AllKept, Append, DIRECT_TREE, TopBlocks, LastRec, RemovedBlock;
    var kept, d := TopBlocks(front, marks, id + 1, id), LastRec(marks, front, id);
    LastParts(marks, front, id);
    forall k | 0 <= k < |kept|
      ensures LiesBefore(kept[k], d, d.start)
    {
      FrontRecord(text, marks, front, id, kept[k]);
    }
  }

  lemma LocatedSize(text: string, b: BlockRec, kids: Forest)
    requires Located(text, b, kids)
    ensures b.id + 1 + Size(kids) < |Marks(text)|
  {
    hide Run, Flatten, NodeAt, TopBlocks, Texts, ChildrenOf, TextsOf, AllPlaced, Parse, Tree, Fits;
  }

  lemma LastParts(marks: seq<Mark>, front: Forest, id: nat)
    ensures var r := LastRec(marks, front, id); r.header == DIRECT_NAME && r.id == id + 1 + Size(front)
  {
    hide DIRECT_NAME, LEAVES;
  }

  /** The inserted location starts where its mark says, before any of its events. */
  lemma LastStart(text: string, marks: seq<Mark>, b: BlockRec, front: Forest)
    requires Located(text, b, Append(front, DIRECT_TREE)) && marks == Marks(text)
    ensures var x, r := b.id + 1 + Size(front), LastRec(marks, front, b.id);
            && x < |marks| && marks[x].OpenAt? && r.start == marks[x].start <= |text| && |At(text, r.start).out| == x
  {
    hide *;
    var x := b.id + 1 + Size(front);
    LocatedFits(text, b, Append(front, DIRECT_TREE));
    LastOpens(front, EventsOf(marks), b.id + 1);
    OpenMark(marks, x, DIRECT_NAME);
    PlacedAt(text, marks, x);
    StartIsPlaced(text, marks, x);
    LastRecStart(marks, front, b.id);
  }

  lemma PlacedAt(text: string, marks: seq<Mark>, x: nat)
    requires AllPlaced(text, marks) && x < |marks|
    ensures Placed(text, marks, x)
  {
    hide Placed;
  }

  lemma LastRecStart(marks: seq<Mark>, front: Forest, id: nat)
    requires id + 1 + Size(front) < |marks| && marks[id + 1 + Size(front)].OpenAt?
    ensures LastRec(marks, front, id).start == marks[id + 1 + Size(front)].start
  {
    hide LEAVES, DIRECT_NAME;
  }

  lemma LocatedFits(text: string, b: BlockRec, kids: Forest)
    requires Located(text, b, kids)
    ensures Fits(kids, EventsOf(Marks(text)), b.id + 1) && AllPlaced(text, Marks(text))
  {
    hide Run, Flatten, NodeAt, TopBlocks, Texts, ChildrenOf, TextsOf, AllPlaced, Parse, Tree, Fits;
  }

  lemma StartIsPlaced(text: string, marks: seq<Mark>, x: nat)
    requires x < |marks| && Placed(text, marks, x) && marks[x].OpenAt?
    ensures marks[x].start <= |text| && |At(text, marks[x].start).out| == x
  {
    hide Run, EventOf;
  }

  lemma LastOpens(front: Forest, ev: seq<Event>, base: nat)
    requires Fits(Append(front, DIRECT_TREE), ev, base)
    ensures base + Size(front) < |ev| && ev[base + Size(front)] == Open(DIRECT_NAME)
  {
    hide DIRECT_NAME, LEAVES, DIRECT_TREE, Append, GateEdits;
    FlattenAppend(front, DIRECT_TREE);
    DirectHasNoEdit(0);
    OpenFlatten(DIRECT_NAME, LEAVES, End);
    hide Flatten;
    PrefixSplit(Flatten(front), Flatten(DIRECT_TREE), ev, base);
    PrefixSplit([Open(DIRECT_NAME)], Flatten(LEAVES) + ([Close] + Flatten(End)), ev, base + Size(front));
  }

  /** The kept children have the same records in both texts. */
  lemma SameFront(text: string, t: string, m1: seq<Mark>, m2: seq<Mark>, front: Forest, id: nat)
    requires m1 == Marks(text) && m2 == Marks(t)
    requires var x, r := id + 1 + Size(front), LastRec(m1, front, id);
             EqualUpTo(text, t, r.start) && |At(text, r.start).out| == x
    ensures TopBlocks(front, m1, id + 1, id) == TopBlocks(front, m2, id + 1, id)
  {
    hide Run, TopBlocks, Marks, LastRec;
    var x := id + 1 + Size(front);
    MarksAgreeUpTo(text, t, LastRec(m1, front, id).start, x);
    TopBlocksLocal(front, m1, m2, x, id + 1, id);
  }

  lemma SecondVerify(text: string, t: string, host: string, id: nat, header: string, front: Forest, b: BlockRec, c: BlockRec)
    requires Rewritten(text, host, id, header, front) && b.id == id && c.id == id
    requires Parse(text).Some? && ApprovedServer(Parse(text).value, host) == Ok(b) && Parse(t).Some? && ApprovedServer(Parse(t).value, host) == Ok(c)
    requires Located(text, b, Append(front, DIRECT_TREE)) && Located(t, c, Append(front, DIRECT_TREE))
    requires EqualUpTo(text, t, LastRec(Marks(text), front, id).start) && RawAt(t, id + 1 + Size(front))
    requires Alike(Parse(text).value.blocks, Parse(t).value.blocks) && SameTexts(Parse(text).value, Parse(t).value)
    requires RefuseUngated(Parse(t).value, ChildrenOf(Parse(t).value.blocks, id)).Ok?
    ensures Verify(t, host).Ok?
  {
    hide *;
    RewrittenIsVerified(text, host, id, header, front);
    SecondChildren(text, t, host, id, header, front, b, c);
    var kept := TopBlocks(front, Marks(text), id + 1, id);
    var d, e := LastRec(Marks(text), front, id), LastRec(Marks(t), front, id);
    VerifiedParts(text, host, b, kept + [d], d, kept);
    UpstreamSame(Parse(text).value, Parse(t).value);
    V1OfFront(kept, d, e);
    EqualParts(text, t, d.start);
    CaptureLocal(text, t, d.start, kept, d, e);
    SameServerTexts(Parse(text).value, Parse(t).value, id);
    VerifiedFrom(t, host, c, kept + [e], e);
  }

  lemma RewrittenIsVerified(text: string, host: string, id: nat, header: string, front: Forest)
    requires Rewritten(text, host, id, header, front)
    ensures Verify(text, host).Ok? && ServerAt(text, host, id, header, Append(front, DIRECT_TREE))
  {
    hide ServerAt, Verify, AllHarmless, AllNoV1, TopHeaders, AllKept, Carries, Append, DIRECT_TREE;
  }

  lemma EqualParts(a: string, b: string, n: nat)
    requires EqualUpTo(a, b, n)
    ensures n <= |a| && n <= |b| && a[..n] == b[..n]
  {
  }

  lemma SameServerTexts(c: Config, d: Config, id: nat)
    requires SameTexts(c, d)
    ensures TextsOf(d.directives, id) == TextsOf(c.directives, id)
  {
    hide TextsOf;
  }

  /** A rewritten configuration is accepted again, and the second run leaves its tree as it is. */
  lemma SecondRun(text: string, host: string, id: nat, header: string, front: Forest) returns (t: string)
    requires Rewritten(text, host, id, header, front)
    ensures Rewrite(text, host) == Ok(t) && Tree(text).Some? && Tree(t) == Tree(text)
  {
    hide *;
    RewrittenIsVerified(text, host, id, header, front);
    var b := ServerOf(text, host, id, header, front);
    LocatedNode(text, b, Append(front, DIRECT_TREE));
    t := SecondDirect(text, host, id, header, front, b);
    var c := SecondStages(text, t, host, id, b, Append(front, DIRECT_TREE));
    SameServerAt(text, t, host, id, header, Append(front, DIRECT_TREE));
    var c' := ServerIs(t, host, id, header, Append(front, DIRECT_TREE));
    SecondVerify(text, t, host, id, header, front, b, c);
    RewriteParts(text, t, host);
  }

  lemma SameServerAt(text: string, t: string, host: string, id: nat, header: string, kids: Forest)
    requires ServerAt(text, host, id, header, kids) && Tree(t) == Tree(text)
    ensures ServerAt(t, host, id, header, kids)
  {
    hide Tree, NodeAt, IsApproved, Texts;
  }

  lemma RewriteParts(text: string, t: string, host: string)
    requires WithDirect(text, host) == Ok(t) && WithUpstream(t) == Ok(t) && WithGates(t, host) == Ok(t) && Verify(t, host).Ok?
    ensures Rewrite(text, host) == Ok(t)
  {
    hide WithDirect, WithUpstream, WithGates, Verify;
  }

  /** The rewrite is idempotent on trees: whenever it returns, it returns again on its own output, and the
      second output parses to the same tree. */
  lemma RewriteAgain(text: string, host: string, out: string)
    requires Rewrite(text, host) == Ok(out)
    ensures Rewrite(out, host).Ok? && Tree(out).Some?
    ensures Tree(Rewrite(out, host).value) == Tree(out)
  {
    hide *;
    var id, header, front := FirstRun(text, host, out);
    var again := SecondRun(out, host, id, header, front);
  }
}
