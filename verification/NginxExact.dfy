/** Exactly when rewrite_direct_v1 returns. */
module NginxExact {
  import opened Text
  import opened NginxLexer
  import opened NginxEvents
  import opened NginxOffsets
  import opened NginxTree
  import opened NginxParser
  import opened NginxParserTree
  import opened NginxLists
  import opened NginxTreeEdit
  import opened NginxRules
  import opened NginxSplice
  import opened NginxSnippets
  import opened NginxRewrite
  import opened NginxCommute
  import opened NginxStages
  import opened NginxGates
  import opened NginxTheorem
  import opened NginxResult
  import opened NginxShift
  import opened NginxKept
  import opened NginxSecond
  import opened NginxInserted
  import opened NginxCarried
  import opened NginxIdempotent
  import opened NginxReturns
  import opened NginxMeaning
  import opened NginxOutcome
  import opened NginxJudge
  import opened NginxDirect
  import Shlex

  /* ---------------------------------------------------------------- what stripping cannot bring about */

  /** The end of stripped text without line feeds is the end of the text. */
  lemma {:induction false} Aligned(l: Lex, s: string, m: nat)
    requires After(l, s) != Comment && m <= |Strip(l, s)|
    requires forall k :: |Strip(l, s)| - m < k < |Strip(l, s)| ==> Strip(l, s)[k] != '\n'
    ensures m <= |s| && s[|s| - m..] == Strip(l, s)[|Strip(l, s)| - m..]
    decreases |s|
  {
    hide Strip, After;
    StripStep(l, s);
    if m > 0 {
      var p, c := s[..|s| - 1], s[|s| - 1];
      LastKept(l, s);
      if m > 1 {
        NoFeeds(Strip(l, p), c, m);
        Aligned(l, p, m - 1);
      }
      TailOf(Strip(l, p), c, m);
      TailOf(p, c, m);
    }
  }

  lemma NoFeeds(u: string, c: char, m: nat)
    requires 1 < m <= |u| + 1
    requires var t := u + [c]; forall k :: |t| - m < k < |t| ==> t[k] != '\n'
    ensures c != '\n' && forall k :: |u| - (m - 1) < k < |u| ==> u[k] != '\n'
  {
    var t := u + [c];
    assert t[|u|] == c;
    assert forall k :: 0 <= k < |u| ==> u[k] == t[k];
  }

  lemma LastKept(l: Lex, s: string)
    requires s != "" && After(l, s) != Comment
    ensures s == s[..|s| - 1] + [s[|s| - 1]] && Strip(l, s) == Strip(l, s[..|s| - 1]) + [s[|s| - 1]]
    ensures s[|s| - 1] != '\n' ==> After(l, s[..|s| - 1]) != Comment
  {
  }

  lemma TailOf(p: string, c: char, m: nat)
    requires 0 < m <= |p| + 1
    ensures (p + [c])[|p| + 1 - m..] == p[|p| - (m - 1)..] + [c]
  {
  }

  lemma PrefixWord(s: string, p: string, word: string, i: int)
    requires p <= s
    ensures WordAt(p, word, i) ==> WordAt(s, word, i)
    ensures WordAt(s, word, i) && i + |word| <= |p| ==> WordAt(p, word, i)
  {
  }

  lemma SuffixWord(s: string, t: string, word: string)
    requires |word| <= |s| && |word| <= |t| && s[|s| - |word|..] == t[|t| - |word|..]
    requires WordAt(t, word, |t| - |word|)
    ensures WordAt(s, word, |s| - |word|)
  {
    var a, b := s[|s| - |word|..], t[|t| - |word|..];
    forall k | 0 <= k < |word|
      ensures SameLetter(s[|s| - |word| + k], word[k])
    {
      assert a[k] == b[k] == t[|t| - |word| + k];
    }
  }

  lemma WordLine(t: string, word: string, i: int)
    requires WordAt(t, word, i) && forall k :: 0 <= k < |word| ==> word[k] != '\n'
    ensures forall k :: i <= k < i + |word| ==> t[k] != '\n'
  {
    forall k | i <= k < i + |word|
      ensures t[k] != '\n'
    {
      var m := k - i;
      assert SameLetter(t[i + m], word[m]);
    }
  }

  /** A word on one line that stands in stripped text stands in the text. */
  lemma {:induction false} StrippedWord(l: Lex, s: string, word: string, i: int) returns (j: int)
    requires WordAt(Strip(l, s), word, i) && word != "" && forall k :: 0 <= k < |word| ==> word[k] != '\n'
    ensures WordAt(s, word, j)
  {
    hide WordAt, Strip, After;
    StripStep(l, s);
    WordFits(Strip(l, s), word, i);
    var p := s[..|s| - 1];
    var t, u := Strip(l, s), Strip(l, p);
    PrefixWord(t, u, word, i);
    if i + |word| <= |u| {
      j := StrippedWord(l, p, word, i);
      PrefixWord(s, p, word, j);
    } else {
      WordLine(t, word, i);
      Aligned(l, s, |word|);
      SuffixWord(s, t, word);
      j := |s| - |word|;
    }
  }

  lemma StripStep(l: Lex, s: string)
    ensures s == "" ==> Strip(l, s) == ""
    ensures s != "" ==>
              var t, u := Strip(l, s), Strip(l, s[..|s| - 1]);
              u <= t && |t| <= |u| + 1 && (|t| > |u| ==> After(l, s) != Comment)
  {
  }

  lemma WordFits(s: string, word: string, i: int)
    requires WordAt(s, word, i)
    ensures 0 <= i && i + |word| <= |s|
  {
  }

  lemma StrippedOccurs(s: string, word: string)
    requires Occurs(Strip(Code, s), word) && word != "" && forall k :: 0 <= k < |word| ==> word[k] != '\n'
    ensures Occurs(s, word)
  {
    hide WordAt, Strip;
    var i :| WordAt(Strip(Code, s), word, i);
    var j := StrippedWord(Code, s, word, i);
  }

  predicate OnOneLine(word: string) { word != "" && forall k :: 0 <= k < |word| ==> word[k] != '\n' }

  lemma WordsAreOnOneLine()
    ensures OnOneLine("mirror") && forall i :: 0 <= i < |CAPTURE_WORDS| ==> OnOneLine(CAPTURE_WORDS[i])
  {
  }

  lemma StrippedMarked(s: string)
    requires Marked(Strip(Code, s))
    ensures Marked(s)
  {
    hide Occurs, OnOneLine, Strip, CAPTURE_WORDS;
    WordsAreOnOneLine();
    var i :| 0 <= i < |CAPTURE_WORDS| && Occurs(Strip(Code, s), CAPTURE_WORDS[i]);
    StrippedOccursOn(s, CAPTURE_WORDS[i]);
  }

  lemma StrippedOccursOn(s: string, word: string)
    requires OnOneLine(word) && Occurs(Strip(Code, s), word)
    ensures Occurs(s, word)
  {
    StrippedOccurs(s, word);
  }

  /** A child that is kept passes the final search for capture. */
  lemma KeptPasses(header: string, body: string)
    requires IsRemoved(header, body) == Ok(false)
    ensures LocationPath(header).Ok?
    ensures LocationPath(header).value.Some? ==>
              var b, h := Lower(Strip(Code, body)), Lower(Strip(Code, header));
              !Contains(b, "mirror ") && !HasMarker(h) && !HasMarker(b)
  {
    hide LocationPath, Tokenise, Contains, Occurs, HasMarker, Marked, Strip, Lower, LiteralV1, RegexV1, Malformed, OnOneLine;
    RemovedIff(header, body);
    LocationIs(header);
    if LocationPath(header).value.Some? {
      MarkedIff(Strip(Code, header));
      MarkedIff(Strip(Code, body));
      if Marked(Strip(Code, header)) {
        StrippedMarked(header);
      }
      if Marked(Strip(Code, body)) {
        StrippedMarked(body);
      }
      if Contains(Lower(Strip(Code, body)), "mirror ") {
        ShorterWord(Lower(Strip(Code, body)));
        MirrorIsLower();
        OccursIff(Strip(Code, body), "mirror");
        WordsAreOnOneLine();
        StrippedOccursOn(body, "mirror");
      }
    }
  }

  lemma MirrorIsLower()
    ensures LowerWord("mirror")
  {
  }

  lemma ShorterWord(s: string)
    requires Contains(s, "mirror ")
    ensures Contains(s, "mirror")
  {
    var i :| 0 <= i <= |s| && OccursAt(s, "mirror ", i);
    assert s[i..i + 6] == s[i..i + 7][..6];
    assert OccursAt(s, "mirror", i);
  }

  /* ---------------------------------------------------------------- the removals */

  lemma {:induction false} RemovalsReturn(text: string, marks: seq<Mark>, f: Forest, base: nat, parent: int)
    requires AllPlaced(text, marks) && base + Size(f) <= |marks| && AllReadable(TopHeaders(f))
    ensures Removals(text, TopBlocks(f, marks, base, parent)).Ok?
    decreases f
  {
    hide RecAt, RemovedBlock, RemovalOf, AllPlaced, Unreadable, Body, IsRemoved;
    match f
    case End =>
    case Directive(_, rest) => RemovalsReturn(text, marks, rest, base + 1, parent);
    case Block(header, kids, rest) =>
      var r, n := RecAt(header, kids, marks, base, parent), base + 2 + Size(kids);
      ReadableTail(header, TopHeaders(rest));
      RemovalsReturn(text, marks, rest, n, parent);
      RecordAt(text, marks, header, kids, base, parent);
      RemovedIff(header, Body(text, marks[base].at, marks[base + 1 + Size(kids)].at));
      assert ([r] + TopBlocks(rest, marks, n, parent))[1..] == TopBlocks(rest, marks, n, parent);
  }

  lemma ReadableTail(header: string, rest: seq<string>)
    requires AllReadable([header] + rest)
    ensures !Unreadable(header) && AllReadable(rest)
  {
    hide Unreadable;
    var all := [header] + rest;
    assert all[0] == header;
    assert forall i :: 0 <= i < |rest| ==> rest[i] == all[i + 1];
  }

  lemma DirectReturns(text: string, host: string, b: BlockRec, kids: Forest)
    requires Parse(text).Some? && ApprovedServer(Parse(text).value, host) == Ok(b) && Located(text, b, kids) && 0 <= b.close
    requires AllReadable(TopHeaders(kids)) && NoCaptures(Texts(kids)) && NoCaptures(TopHeaders(kids))
    ensures WithDirect(text, host).Ok?
  {
    hide Parse, Located, ApprovedServer, ChildrenOf, Removals, RefuseCapture, TextsOf, Headers, InsertionOf, ApplyAll, TopHeaders, Texts,
         AllReadable, NoCaptures, TopBlocks, AllPlaced;
    LocatedNode(text, b, kids);
    LocatedMarks(text, b, kids);
    LocatedTexts(text, b, kids);
    RemovalsReturn(text, Marks(text), kids, b.id + 1, b.id);
    HeadersOfTop(kids, Marks(text), b.id + 1, b.id);
    NoCapturesIff(Texts(kids));
    NoCapturesIff(TopHeaders(kids));
  }

  /* ---------------------------------------------------------------- the gates */

  /** A child that can be given its gate: if it is a location, its directives can be read, and at most one
      of them is the gate already. */
  ghost predicate Gateable(header: string, texts: seq<string>) {
    && Tokenise(header).Ok? && !Malformed(Tokenise(header).value)
    && (IsLocation(Tokenise(header).value) ==> Reads(texts) && (Proxies(texts) ==> AtMostOneGate(texts)))
  }

  predicate AtMostOneGate(texts: seq<string>) {
    forall i, j :: 0 <= i < |texts| && 0 <= j < |texts| && GateAt(texts, i) && GateAt(texts, j) ==> i == j
  }

  lemma GateTextIsGate()
    ensures Tokenise(GATE_TEXT) == Ok(["include", GATE_FILE])
  {
    hide Tokenise, SafeWords;
    GateIsSafe();
    WordsTokenise(GATE_WORDS);
    assert GATE_WORDS == ["include", GATE_FILE];
  }

  /** With the gate in front, a child that had none has exactly one. */
  lemma WithGate(texts: seq<string>)
    ensures var all := [GATE_TEXT] + texts;
            && (Reads(all) <==> Reads(texts)) && (Proxies(all) <==> Proxies(texts))
            && (GatedOnce(all) <==> forall i :: !GateAt(texts, i))
  {
    hide Tokenise, GATE_TEXT;
    GateTextIsGate();
    var all := [GATE_TEXT] + texts;
    assert all[0] == GATE_TEXT && all[1..] == texts;
    ReadsCons(all);
    assert forall i :: 0 <= i < |texts| ==> texts[i] == all[i + 1];
    assert "include" != "proxy_pass" by { assert |"include"| == 7 && |"proxy_pass"| == 10; }
    if Proxies(texts) {
      var i :| 0 <= i < |texts| && Says(texts, i, "proxy_pass");
      assert Says(all, i + 1, "proxy_pass");
    }
    if Proxies(all) {
      var i :| 0 <= i < |all| && Says(all, i, "proxy_pass");
      assert i > 0;
      assert Says(texts, i - 1, "proxy_pass");
    }
    assert GateAt(all, 0);
    forall i | GateAt(texts, i)
      ensures GateAt(all, i + 1)
    {
    }
    if forall i :: !GateAt(texts, i) {
      assert forall j :: j > 0 && GateAt(all, j) ==> GateAt(texts, j - 1);
    }
  }

  lemma GatedOnceIs(texts: seq<string>)
    ensures GatedOnce(texts) <==> (exists i :: GateAt(texts, i)) && AtMostOneGate(texts)
    ensures (forall i :: !GateAt(texts, i)) ==> AtMostOneGate(texts)
  {
    hide Tokenise;
    if (exists i :: GateAt(texts, i)) && AtMostOneGate(texts) {
      var i :| GateAt(texts, i);
      assert forall j :: GateAt(texts, j) ==> j == i;
    }
  }

  /** Exactly the gateable children pass once the missing gates are in. */
  lemma GateableIff(header: string, texts: seq<string>)
    ensures Gateable(header, texts)
       <==> NeedsGate(header, if NeedsGate(header, texts) == Ok(true) then [GATE_TEXT] + texts else texts) == Ok(false)
    ensures Gateable(header, texts) ==> NeedsGate(header, texts).Ok?
  {
    hide Tokenise, NeedsGate, GATE_TEXT, Reads, Proxies, GatedOnce, AtMostOneGate, GateAt;
    var all := [GATE_TEXT] + texts;
    UngatedIff(header, texts);
    UngatedIff(header, all);
    WithGate(texts);
    GatedOnceIs(texts);
    ThreeResults(NeedsGate(header, texts));
    ThreeResults(NeedsGate(header, all));
  }

  lemma ThreeResults(r: Result<bool>)
    ensures r == Ok(true) || r == Ok(false) || r == Error
  {
    if r.Ok? {
      var b: bool := r.value;
      assert r == Ok(b);
    }
  }

  ghost predicate AllGateable(f: Forest) {
    match f
    case End => true
    case Directive(_, rest) => AllGateable(rest)
    case Block(header, kids, rest) => Gateable(header, Texts(kids)) && AllGateable(rest)
  }

  /** No child of this level is, or may be, without its gate. */
  predicate AllGated(f: Forest) {
    match f
    case End => true
    case Directive(_, rest) => AllGated(rest)
    case Block(header, kids, rest) => NeedsGate(header, Texts(kids)) == Ok(false) && AllGated(rest)
  }

  lemma {:induction false} GatedIffGateable(f: Forest)
    ensures AllGated(Gate(f, GATE_TEXT)) <==> AllGateable(f)
  {
    hide NeedsGate, Gateable, Texts, GATE_TEXT;
    match f
    case End =>
    case Directive(_, rest) => GatedIffGateable(rest);
    case Block(header, kids, rest) =>
      GatedIffGateable(rest);
      GateableIff(header, Texts(kids));
      TextsOfDirective(GATE_TEXT, kids);
  }

  lemma TextsOfDirective(text: string, f: Forest)
    ensures Texts(Directive(text, f)) == [text] + Texts(f)
  {
  }

  lemma {:induction false} GatedAppend(f: Forest, g: Forest)
    ensures AllGated(Append(f, g)) <==> AllGated(f) && AllGated(g)
    ensures AllGateable(Append(f, g)) <==> AllGateable(f) && AllGateable(g)
  {
    hide NeedsGate, Gateable, Texts;
    match f
    case End =>
    case Directive(_, rest) => GatedAppend(rest, g);
    case Block(_, _, rest) => GatedAppend(rest, g);
  }

  lemma DirectIsGated()
    ensures AllGated(DIRECT_TREE) && AllGateable(DIRECT_TREE)
  {
    hide NeedsGate, Texts, LeafTexts, DIRECT_LINES, Gate, Gateable, AllGateable;
    DirectNeedsNoGate();
    DirectStaysUngated();
    DirectParts();
    GatedIffGateable(DIRECT_TREE);
  }

  lemma DirectParts()
    ensures SafeDirect() && DIRECT_TREE == Block(DIRECT_NAME, LeafTexts(DIRECT_LINES), End)
  {
    hide LeafTexts, DIRECT_LINES;
    DirectIsSafe();
  }

  lemma {:induction false} GatesReturn(text: string, cfg: Config, f: Forest, marks: seq<Mark>, base: nat, parent: int)
    requires TextsAgree(f, base, cfg.directives) && AllGateable(f)
    ensures Gates(text, cfg, TopBlocks(f, marks, base, parent)).Ok?
    decreases f
  {
    hide RecAt, NeedsGate, TextsAgree, Texts, TextsOf, Gateable, GateOf;
    match f
    case End =>
    case Directive(t, rest) =>
      AgreeTail(t, rest, base, cfg.directives);
      GatesReturn(text, cfg, rest, marks, base + 1, parent);
    case Block(header, kids, rest) =>
      var r, n := RecAt(header, kids, marks, base, parent), base + 2 + Size(kids);
      AgreeRest(header, kids, rest, base, cfg.directives);
      RecParent(header, kids, marks, base, parent);
      GatesReturn(text, cfg, rest, marks, n, parent);
      GateableIff(header, Texts(kids));
      assert ([r] + TopBlocks(rest, marks, n, parent))[1..] == TopBlocks(rest, marks, n, parent);
  }

  lemma {:induction false} GatedIffAccepted(cfg: Config, f: Forest, marks: seq<Mark>, base: nat, parent: int)
    requires TextsAgree(f, base, cfg.directives)
    ensures RefuseUngated(cfg, TopBlocks(f, marks, base, parent)).Ok? <==> AllGated(f)
    decreases f
  {
    hide RecAt, NeedsGate, TextsAgree, Texts, TextsOf;
    match f
    case End =>
    case Directive(t, rest) =>
      AgreeTail(t, rest, base, cfg.directives);
      GatedIffAccepted(cfg, rest, marks, base + 1, parent);
    case Block(header, kids, rest) =>
      var r, n := RecAt(header, kids, marks, base, parent), base + 2 + Size(kids);
      AgreeRest(header, kids, rest, base, cfg.directives);
      RecParent(header, kids, marks, base, parent);
      GatedIffAccepted(cfg, rest, marks, n, parent);
      assert ([r] + TopBlocks(rest, marks, n, parent))[1..] == TopBlocks(rest, marks, n, parent);
  }

  /** Every child that stays is gateable. */
  ghost predicate RemainingGateable(text: string, marks: seq<Mark>, f: Forest, base: nat) {
    match f
    case End => true
    case Directive(_, rest) => RemainingGateable(text, marks, rest, base + 1)
    case Block(header, kids, rest) =>
      && (Removable(header, RawBody(text, marks, base, kids)) || Gateable(header, Texts(kids)))
      && RemainingGateable(text, marks, rest, base + 2 + Size(kids))
  }

  lemma {:induction false} PrunedIsGateable(text: string, marks: seq<Mark>, f: Forest, base: nat, parent: int, drop: set<nat>)
    requires AllPlaced(text, marks) && base + Size(f) <= |marks|
    requires Removals(text, TopBlocks(f, marks, base, parent)).Ok?
    requires DropsRemoved(text, TopBlocks(f, marks, base, parent), drop)
    ensures AllGateable(Prune(f, base, drop)) <==> RemainingGateable(text, marks, f, base)
    decreases f
  {
    hide RecAt, RemovedBlock, Removals, DropsRemoved, RemovalOf, AllPlaced, RawBody, Removable, Unreadable, Gateable, Texts;
    match f
    case End =>
    case Directive(_, rest) => PrunedIsGateable(text, marks, rest, base + 1, parent, drop);
    case Block(header, kids, rest) =>
      var r, n := RecAt(header, kids, marks, base, parent), base + 2 + Size(kids);
      RecParent(header, kids, marks, base, parent);
      RemovalsUnfold(text, r, TopBlocks(rest, marks, n, parent));
      DropsTail(text, r, TopBlocks(rest, marks, n, parent), drop);
      PrunedIsGateable(text, marks, rest, n, parent, drop);
      RecordIsJudged(text, marks, header, kids, base, parent);
  }

  /* ---------------------------------------------------------------- the final verification */

  predicate AllPaths(blocks: seq<BlockRec>) { forall k :: 0 <= k < |blocks| ==> LocationPath(blocks[k].header).Ok? }

  lemma {:induction false} V1Found(front: seq<BlockRec>, d: BlockRec)
    requires AllNoV1(Headers(front)) && AllPaths(front) && d.header == DIRECT_NAME
    ensures V1Locations(front + [d]) == Ok([d])
    decreases |front|
  {
    hide LocationPath, IsLiteralV1, DIRECT_NAME;
    DirectIsV1();
    if front == [] {
      assert (front + [d])[1..] == [];
      assert [d] + [] == [d];
    } else {
      assert (front + [d])[1..] == front[1..] + [d];
      assert Headers(front)[0] == front[0].header;
      assert AllNoV1(Headers(front[1..])) by {
        assert forall i :: 0 <= i < |Headers(front[1..])| ==> Headers(front[1..])[i] == Headers(front)[i + 1];
      }
      assert NoV1(Headers(front)[0]);
      V1Found(front[1..], d);
      assert [] + [d] == [d];
    }
  }

  /** Every child but the inserted one is kept by the rules of the removal. */
  predicate KeptOr(text: string, children: seq<BlockRec>, v1: BlockRec) {
    forall k :: 0 <= k < |children| ==> children[k] == v1 || RemovedBlock(text, children[k]) == Ok(false)
  }

  lemma {:induction false} CapturesPass(text: string, children: seq<BlockRec>, v1: BlockRec)
    requires KeptOr(text, children, v1)
    ensures RefuseCaptureLocations(text, children, v1).Ok?
    decreases |children|
  {
    hide LocationPath, Contains, HasMarker, Slice, Strip, RemovedBlock, IsRemoved;
    if children != [] {
      assert forall k :: 0 <= k < |children[1..]| ==> children[1..][k] == children[k + 1];
      CapturesPass(text, children[1..], v1);
      if children[0] != v1 {
        KeptBlockPasses(text, children[0]);
      }
    }
  }

  lemma KeptBlockPasses(text: string, c: BlockRec)
    requires RemovedBlock(text, c) == Ok(false)
    ensures LocationPath(c.header).Ok?
    ensures LocationPath(c.header).value.Some? ==>
              var body := Lower(Strip(Code, Slice(text, c.open + 1, c.close)));
              var header := Lower(Strip(Code, c.header));
              !Contains(body, "mirror ") && !HasMarker(header) && !HasMarker(body)
  {
    hide LocationPath, Contains, HasMarker, Slice, Strip, IsRemoved, Lower;
    KeptPasses(c.header, Slice(text, c.open + 1, c.close));
  }

  /** No include names something that captures. */
  ghost predicate NoMarkedIncludes(texts: seq<string>) {
    forall i :: Says(texts, i, "include") ==> !Marked(Strip(Code, texts[i]))
  }

  lemma {:induction false} DirectivesPass(texts: seq<string>)
    ensures RefuseCaptureDirectives(texts).Ok? <==> NoCaptures(texts) && NoMarkedIncludes(texts)
  {
    hide Tokenise, IsCaptureDirective, CaptureDirective, HasMarker, Marked, Strip, Lower;
    if texts != [] {
      var text, rest := texts[0], texts[1..];
      DirectivesPass(rest);
      NoCapturesCons(texts);
      NoMarkedCons(texts);
      MarkedIff(Strip(Code, text));
      if Tokenise(text).Ok? {
        CaptureDirectiveIff(Tokenise(text).value);
      }
    }
  }

  lemma NoCapturesCons(texts: seq<string>)
    requires texts != []
    ensures NoCaptures(texts) <==> Tokenise(texts[0]).Ok? && !CaptureDirective(Tokenise(texts[0]).value) && NoCaptures(texts[1..])
  {
    hide Tokenise, CaptureDirective;
    assert forall i :: 0 <= i < |texts[1..]| ==> texts[1..][i] == texts[i + 1];
    if NoCaptures(texts[1..]) && Tokenise(texts[0]).Ok? && !CaptureDirective(Tokenise(texts[0]).value) {
      forall i | 0 <= i < |texts|
        ensures Tokenise(texts[i]).Ok? && !CaptureDirective(Tokenise(texts[i]).value)
      {
        if i > 0 {
          assert texts[i] == texts[1..][i - 1];
        }
      }
    }
  }

  lemma NoMarkedCons(texts: seq<string>)
    requires texts != []
    ensures NoMarkedIncludes(texts) <==> (Says(texts, 0, "include") ==> !Marked(Strip(Code, texts[0]))) && NoMarkedIncludes(texts[1..])
  {
    hide Tokenise, Marked, Strip;
    forall i | Says(texts[1..], i, "include")
      ensures Says(texts, i + 1, "include") && texts[1..][i] == texts[i + 1]
    {
    }
    forall i | i > 0 && Says(texts, i, "include")
      ensures Says(texts[1..], i - 1, "include") && texts[1..][i - 1] == texts[i]
    {
    }
  }

  /** One upstream block, and a reviewed one. */
  ghost predicate OneReviewed(us: seq<seq<string>>) { |us| == 1 && ReviewedTexts(us[0]) }

  lemma UpstreamVerified(text: string, host: string)
    requires Parse(text).Some? && Tree(text).Some? && Judge(Tree(text).value, host).Ok?
    ensures Upstreams(Parse(text).value.blocks).Ok?
    ensures var us := Upstreams(Parse(text).value.blocks).value;
            && |us| == |UpstreamsOf(Tree(text).value)|
            && (|us| == 1 ==> TextsOf(Parse(text).value.directives, us[0].id) == UpstreamsOf(Tree(text).value)[0])
  {
    hide Parse, Tree, Judge, Upstreams, UpstreamsOf, TextsOf, TopHeaders, AllRead;
    JudgedIsRead(Tree(text).value, host);
    UpstreamsInTree(text);
  }

  /** What stands in a text after the three stages. */
  ghost predicate Staged(text: string, host: string, id: nat, header: string, front: Forest) {
    && ServerAt(text, host, id, header, Append(front, DIRECT_TREE)) && Parse(text).Some? && Judge(Tree(text).value, host) == Ok(1)
    && AllKept(text, Append(front, DIRECT_TREE), id + 1) && Carries(text, id + 1 + Size(front))
    && AllNoV1(TopHeaders(front))
  }

  lemma StagedServer(text: string, host: string, id: nat, header: string, front: Forest) returns (b: BlockRec)
    requires Staged(text, host, id, header, front)
    ensures ApprovedServer(Parse(text).value, host) == Ok(b) && b.id == id && Located(text, b, Append(front, DIRECT_TREE))
    ensures TextsOf(Parse(text).value.directives, id) == Texts(front)
  {
    hide Parse, Tree, Judge, ServerAt, Located, ApprovedServer, AllKept, Carries, AllNoV1, TopHeaders, Append, DIRECT_TREE, TextsOf, Texts;
    OneServerIff(text, host);
    b := ServerIs(text, host, id, header, Append(front, DIRECT_TREE));
    LocatedTexts(text, b, Append(front, DIRECT_TREE));
    TextsWithDirect(front);
  }

  lemma TextsWithDirect(front: Forest)
    ensures Texts(Append(front, DIRECT_TREE)) == Texts(front)
  {
    hide LeafTexts, DIRECT_LINES;
    TextsOfAppend(front, DIRECT_TREE);
    DirectIsSafe();
    assert Texts(DIRECT_TREE) == [];
  }

  lemma VerifyReturns(text: string, host: string, id: nat, header: string, front: Forest)
    requires Staged(text, host, id, header, front) && AllGated(front)
    requires NoCaptures(Texts(front)) && NoMarkedIncludes(Texts(front)) && OneReviewed(UpstreamsOf(Tree(text).value))
    ensures Verify(text, host).Ok?
  {
    hide *;
    var b := StagedServer(text, host, id, header, front);
    StagedParts(text, host, id, header, front);
    var f, marks := Append(front, DIRECT_TREE), Marks(text);
    LocatedNode(text, b, f);
    LocatedMarks(text, b, f);
    LocatedSize(text, b, f);
    LastIndex(front);
    ChildrenAre(marks, front, id);
    var kept, last := TopBlocks(front, marks, id + 1, id), LastRec(marks, front, id);
    CarriesRaw(text, id + 1 + Size(front));
    RawSlice(text, marks, front, id);
    LastParts(marks, front, id);
    FrontIsKept(text, marks, front, id);
    HeadersOfTop(front, marks, id + 1, id);
    V1Found(kept, last);
    CapturesPass(text, kept + [last], last);
    DirectIsReviewed();
    GatedAppend(front, DIRECT_TREE);
    DirectIsGated();
    BodyAgrees(text, b, f);
    GatedIffAccepted(Parse(text).value, f, marks, id + 1, id);
    DirectivesPass(Texts(front));
    UpstreamVerified(text, host);
    IsOneReviewed(UpstreamsOf(Tree(text).value));
    VerifiedFrom(text, host, b, kept + [last], last);
  }

  lemma IsOneReviewed(us: seq<seq<string>>)
    ensures OneReviewed(us) <==> |us| == 1 && DirectTokens(us[0]).Ok? && ReviewedUpstream(DirectTokens(us[0]).value)
  {
    hide DirectTokens, ReviewedUpstream;
  }

  lemma StagedParts(text: string, host: string, id: nat, header: string, front: Forest)
    requires Staged(text, host, id, header, front)
    ensures Parse(text).Some? && Tree(text).Some? && Judge(Tree(text).value, host) == Ok(1)
    ensures AllKept(text, Append(front, DIRECT_TREE), id + 1) && Carries(text, id + 1 + Size(front)) && AllNoV1(TopHeaders(front))
  {
    hide Parse, Tree, Judge, NodeAt, IsApproved, AllKept, Carries, AllNoV1, TopHeaders, Append, DIRECT_TREE, Texts;
  }

  lemma FrontIsKept(text: string, marks: seq<Mark>, front: Forest, id: nat)
    requires AllPlaced(text, marks) && id + 1 + Size(front) < |marks| && AllNoV1(TopHeaders(front))
    requires AllKept(text, Append(front, DIRECT_TREE), id + 1)
    ensures var kept, last := TopBlocks(front, marks, id + 1, id), LastRec(marks, front, id);
            AllPaths(kept) && KeptOr(text, kept + [last], last)
  {
    hide AllPlaced, AllNoV1, TopHeaders, AllKept, Append, DIRECT_TREE, TopBlocks, LastRec, RemovedBlock, LocationPath;
    var kept, last := TopBlocks(front, marks, id + 1, id), LastRec(marks, front, id);
    forall k | 0 <= k < |kept|
      ensures LocationPath(kept[k].header).Ok? && RemovedBlock(text, kept[k]) == Ok(false)
    {
      FrontRecord(text, marks, front, id, kept[k]);
      KeptBlockPasses(text, kept[k]);
    }
    forall k | 0 <= k < |kept + [last]|
      ensures (kept + [last])[k] == last || RemovedBlock(text, (kept + [last])[k]) == Ok(false)
    {
      if k < |kept| {
        assert (kept + [last])[k] == kept[k];
      }
    }
  }

  /** What an accepted text has. */
  lemma VerifyNeeds(text: string, host: string, id: nat, header: string, front: Forest)
    requires Staged(text, host, id, header, front) && Verify(text, host).Ok?
    ensures AllGated(front) && NoMarkedIncludes(Texts(front)) && OneReviewed(UpstreamsOf(Tree(text).value))
  {
    hide *;
    var b := StagedServer(text, host, id, header, front);
    StagedParts(text, host, id, header, front);
    var f := Append(front, DIRECT_TREE);
    LocatedNode(text, b, f);
    BodyAgrees(text, b, f);
    VerifiedHas(text, host, b);
    GatedIffAccepted(Parse(text).value, f, Marks(text), id + 1, id);
    GatedAppend(front, DIRECT_TREE);
    DirectivesPass(Texts(front));
    UpstreamVerified(text, host);
    IsOneReviewed(UpstreamsOf(Tree(text).value));
  }

  lemma VerifiedHas(text: string, host: string, b: BlockRec)
    requires Verify(text, host).Ok? && Parse(text).Some? && ApprovedServer(Parse(text).value, host) == Ok(b)
    ensures RefuseUngated(Parse(text).value, ChildrenOf(Parse(text).value.blocks, b.id)).Ok?
    ensures RefuseCaptureDirectives(TextsOf(Parse(text).value.directives, b.id)).Ok?
    ensures Upstreams(Parse(text).value.blocks).Ok? && |Upstreams(Parse(text).value.blocks).value| == 1
    ensures var lines := DirectTokens(TextsOf(Parse(text).value.directives, Upstreams(Parse(text).value.blocks).value[0].id));
            lines.Ok? && ReviewedUpstream(lines.value)
  {
    hide Parse, ApprovedServer, Upstreams, DirectTokens, ReviewedUpstream, V1Locations, ReviewedV1Body, RefuseUngated,
         RefuseCaptureLocations, RefuseCaptureDirectives, TextsOf, ChildrenOf;
  }

  /* ---------------------------------------------------------------- the stages */

  /** The server and its children allow the first stage, and nothing stands unfinished at its end. */
  ghost predicate Prepared(text: string, host: string, b: BlockRec, kids: Forest) {
    && Parse(text).Some? && ApprovedServer(Parse(text).value, host) == Ok(b) && Located(text, b, kids) && 0 <= b.close < |text|
    && ServerAt(text, host, b.id, b.header, kids) && Judge(Tree(text).value, host) == Ok(1)
    && AllReadable(TopHeaders(kids)) && NoCaptures(Texts(kids)) && NoCaptures(TopHeaders(kids))
    && Blank(Unfinished(text, b.close))
  }

  function Pruned(text: string, b: BlockRec, kids: Forest): Forest { Prune(kids, b.id + 1, Dropped(text, b)) }

  lemma FirstReturns(text: string, host: string, b: BlockRec, kids: Forest) returns (t: string)
    requires Prepared(text, host, b, kids)
    ensures WithDirect(text, host) == Ok(t) && Tree(text).Some?
    ensures ServerAt(t, host, b.id, b.header, Append(Pruned(text, b, kids), DIRECT_TREE))
    ensures Tree(t) == Some(SetKids(Tree(text).value, 0, b.id, Append(Pruned(text, b, kids), DIRECT_TREE)))
    ensures Texts(Append(Pruned(text, b, kids), DIRECT_TREE)) == Texts(kids)
    ensures Removals(text, ChildrenOf(Parse(text).value.blocks, b.id)).Ok?
  {
    hide Parse, Tree, NodeAt, SetKids, IsApproved, Texts, WithDirect, ServerAt, Located, ApprovedServer, DirectBody, ChildrenOf,
         Removals, TopHeaders, Append, Prune, RemovedIds, Judge, AllReadable, NoCaptures, DIRECT_TREE, Blank, Unfinished;
    DirectReturns(text, host, b, kids);
    t := WithDirect(text, host).value;
    var b', kids' := FirstStage(text, host, t);
    SameServer(text, host, b.id, b.header, kids, kids');
    var children := ChildrenOf(Parse(text).value.blocks, b.id);
    DirectBodyTexts(text, b, kids, children);
    CleanBody(text, b, kids, children);
    DroppedIs(text, b);
    StillApproved(text, t, host, b.id, b.header, kids, DirectBody(text, b, kids, children));
    ServerHasTree(text, host, b.id, b.header, kids);
  }

  lemma ServerHasTree(text: string, host: string, id: int, header: string, kids: Forest)
    requires ServerAt(text, host, id, header, kids)
    ensures Tree(text).Some? && NodeAt(Tree(text).value, 0, id) == Some((header, kids)) && IsApproved(header, Texts(kids), host) == Ok(true)
  {
    hide Tree, NodeAt, IsApproved, Texts;
  }

  lemma SameServer(text: string, host: string, id: int, header: string, kids: Forest, others: Forest)
    requires ServerAt(text, host, id, header, kids) && ServerAt(text, host, id, header, others)
    ensures kids == others
  {
    hide Tree, NodeAt, IsApproved, Texts;
  }

  /** The first two stages return, and keep the number of servers at one. */
  lemma TwoReturn(text: string, host: string, b: BlockRec, kids: Forest) returns (t1: string, t2: string, id: nat)
    requires Prepared(text, host, b, kids)
    ensures WithDirect(text, host) == Ok(t1) && WithUpstream(t1) == Ok(t2) && Tree(text).Some?
    ensures Staged(t2, host, id, b.header, Pruned(text, b, kids))
    ensures UpstreamsOf(Tree(t2).value)
         == if UpstreamsOf(Tree(text).value) == [] then [BACKEND_TEXTS] else UpstreamsOf(Tree(text).value)
    ensures Texts(Append(Pruned(text, b, kids), DIRECT_TREE)) == Texts(kids)
  {
    hide *;
    t1 := FirstReturns(text, host, b, kids);
    PreparedParts(text, host, b, kids);
    var pruned := Pruned(text, b, kids);
    var f, body := Tree(text).value, Append(pruned, DIRECT_TREE);
    var drop := Dropped(text, b);
    ServerHasTree(text, host, b.id, b.header, kids);
    JudgeInside(f, 0, b.id, host);
    PrunedIs(text, b, kids);
    JudgePrune(kids, b.id + 1, drop, host);
    JudgeSnippets(host);
    JudgeAppend(pruned, DIRECT_TREE, host);
    JudgeSetKids(f, 0, b.id, body, host);
    UpstreamsKept(f, 0, b.id, body);
    t2 := UpstreamReturns(t1, host);
    ServerHasTree(t1, host, b.id, b.header, body);
    AfterUpstream(t1, t2, host, b.id, b.header, body);
    ShiftIsNat(Tree(t1).value);
    id := b.id + Shift(Tree(t1).value);
    DroppedIs(text, b);
    KeptAfterTwo(text, host, t1, t2, b, kids, pruned);
    PrunedIsNoV1(text, b, kids);
    ServerHasTree(t2, host, id, b.header, body);
    ParseIffTree(t2);
    IsStaged(t2, host, id, b.header, pruned);
  }

  lemma ShiftIsNat(f: Forest)
    ensures Shift(f) >= 0
  {
  }

  lemma PrunedIs(text: string, b: BlockRec, kids: Forest)
    ensures Pruned(text, b, kids) == Prune(kids, b.id + 1, Dropped(text, b))
  {
    hide Prune, Dropped;
  }

  lemma PreparedParts(text: string, host: string, b: BlockRec, kids: Forest)
    requires Prepared(text, host, b, kids)
    ensures Parse(text).Some? && ApprovedServer(Parse(text).value, host) == Ok(b) && Located(text, b, kids) && 0 <= b.close < |text|
    ensures ServerAt(text, host, b.id, b.header, kids) && Tree(text).Some? && Judge(Tree(text).value, host) == Ok(1)
    ensures NoCaptures(Texts(kids)) && Blank(Unfinished(text, b.close))
  {
    hide Parse, Tree, NodeAt, IsApproved, Texts, Located, ApprovedServer, TopHeaders, Judge, AllReadable, NoCaptures, Blank, Unfinished;
  }

  lemma IsStaged(text: string, host: string, id: nat, header: string, front: Forest)
    requires ServerAt(text, host, id, header, Append(front, DIRECT_TREE)) && Parse(text).Some?
    requires Tree(text).Some? && Judge(Tree(text).value, host) == Ok(1)
    requires AllKept(text, Append(front, DIRECT_TREE), id + 1) && Carries(text, id + 1 + Size(front)) && AllNoV1(TopHeaders(front))
    ensures Staged(text, host, id, header, front)
  {
    hide Parse, Tree, Judge, ServerAt, AllKept, Carries, AllNoV1, TopHeaders, Append, DIRECT_TREE;
  }

  lemma UpstreamReturns(text: string, host: string) returns (out: string)
    requires Tree(text).Some? && Judge(Tree(text).value, host) == Ok(1)
    ensures WithUpstream(text) == Ok(out) && Tree(out).Some? && Judge(Tree(out).value, host) == Ok(1)
    ensures UpstreamsOf(Tree(out).value)
         == if UpstreamsOf(Tree(text).value) == [] then [BACKEND_TEXTS] else UpstreamsOf(Tree(text).value)
  {
    hide Parse, Tree, Judge, Upstreams, UpstreamsOf, TopHeaders, AllRead, HasUpstream, Append, UPSTREAM_TREE, UPSTREAM_BLOCK, BACKEND_TEXTS;
    ParseIffTree(text);
    UpstreamVerified(text, host);
    out := WithUpstream(text).value;
    SecondStage(text, out);
    var f := Tree(text).value;
    UpstreamIff(f);
    JudgeSnippets(host);
    JudgeAppend(UPSTREAM_TREE, f, host);
    UpstreamsWithSnippet(f);
    assert UpstreamsOf(f) == [] ==> [BACKEND_TEXTS] + UpstreamsOf(f) == [BACKEND_TEXTS];
  }

  lemma GatesOk(text: string, host: string, id: nat, header: string, pruned: Forest)
    requires Staged(text, host, id, header, pruned) && AllGateable(pruned)
    ensures WithGates(text, host).Ok?
  {
    hide *;
    var b := StagedServer(text, host, id, header, pruned);
    StagedParts(text, host, id, header, pruned);
    var f := Append(pruned, DIRECT_TREE);
    LocatedNode(text, b, f);
    BodyAgrees(text, b, f);
    GatedAppend(pruned, DIRECT_TREE);
    DirectIsGated();
    GatesReturn(text, Parse(text).value, f, Marks(text), id + 1, id);
    GatesThenReturn(text, host, b);
  }

  lemma GatesThenReturn(text: string, host: string, b: BlockRec)
    requires Parse(text).Some? && ApprovedServer(Parse(text).value, host) == Ok(b)
    requires Gates(text, Parse(text).value, ChildrenOf(Parse(text).value.blocks, b.id)).Ok?
    ensures WithGates(text, host).Ok?
  {
    hide Parse, ApprovedServer, Gates, ChildrenOf, ApplyAll;
  }

  /** The third stage keeps what the first two have brought about. */
  lemma LastStage(text: string, host: string, out: string, id: nat, header: string, pruned: Forest)
    requires Staged(text, host, id, header, pruned) && WithGates(text, host) == Ok(out)
    ensures Staged(out, host, id, header, Gate(pruned, GATE_TEXT)) && Tree(text).Some?
    ensures UpstreamsOf(Tree(out).value) == UpstreamsOf(Tree(text).value)
    ensures Texts(Gate(pruned, GATE_TEXT)) == Texts(pruned)
  {
    hide *;
    StagedParts(text, host, id, header, pruned);
    StagedServerAt(text, host, id, header, pruned);
    var body := Append(pruned, DIRECT_TREE);
    var gated, front := Gate(body, GATE_TEXT), Gate(pruned, GATE_TEXT);
    ThirdStage(text, host, out, id, header, body);
    GatedBody(pruned);
    TextsOfGate(body, GATE_TEXT);
    TextsOfGate(pruned, GATE_TEXT);
    StillApproved(text, out, host, id, header, body, gated);
    ServerHasTree(text, host, id, header, body);
    var f := Tree(text).value;
    JudgeInside(f, 0, id, host);
    JudgeGate(body, GATE_TEXT, host);
    JudgeSetKids(f, 0, id, gated, host);
    UpstreamsKept(f, 0, id, gated);
    KeptAfterThree(text, host, out, id, header, pruned);
    ParseIffTree(out);
    IsStaged(out, host, id, header, front);
  }

  lemma StagedServerAt(text: string, host: string, id: nat, header: string, front: Forest)
    requires Staged(text, host, id, header, front)
    ensures ServerAt(text, host, id, header, Append(front, DIRECT_TREE))
  {
    hide Parse, Tree, Judge, ServerAt, AllKept, Carries, AllNoV1, TopHeaders, Append, DIRECT_TREE;
  }

  /* ---------------------------------------------------------------- the theorem */

  /** The text can be rewritten: exactly one block is approved, and every block can be judged; every child of
      the server can be read, and no regular expression among them may match /v1; neither a directive nor a
      child captures, nor does an include name something that does; nothing is unfinished before the
      server's closing brace; every child that stays can be given its gate; and there is at most one
      upstream, a reviewed one. */
  ghost predicate Rewritable(text: string, host: string, id: nat, header: string, kids: Forest) {
    && Tree(text).Some? && NodeAt(Tree(text).value, 0, id) == Some((header, kids)) && Approved(header, Texts(kids), host)
    && Judge(Tree(text).value, host) == Ok(1)
    && AllReadable(TopHeaders(kids)) && NoCaptures(Texts(kids)) && NoCaptures(TopHeaders(kids)) && NoMarkedIncludes(Texts(kids))
    && CleanEnd(text, MarkAt(Marks(text), id + 1 + Size(kids)).at)
    && RemainingGateable(text, Marks(text), kids, id + 1)
    && ReviewedUpstreams(UpstreamsOf(Tree(text).value))
  }

  predicate CleanEnd(text: string, close: nat) { close <= |text| && Blank(Unfinished(text, close)) }

  ghost predicate ReviewedUpstreams(us: seq<seq<string>>) { |us| <= 1 && forall i :: 0 <= i < |us| ==> ReviewedTexts(us[i]) }

  lemma UpstreamsPass(us: seq<seq<string>>)
    ensures OneReviewed(if us == [] then [BACKEND_TEXTS] else us) <==> ReviewedUpstreams(us)
  {
    hide ReviewedTexts, BACKEND_TEXTS;
    SnippetIsReviewed();
  }

  lemma PrepareFrom(text: string, host: string, id: nat, header: string, kids: Forest) returns (b: BlockRec)
    requires Rewritable(text, host, id, header, kids)
    ensures Prepared(text, host, b, kids) && b.id == id && b.header == header
    ensures AllGateable(Pruned(text, b, kids)) <==> RemainingGateable(text, Marks(text), kids, id + 1)
  {
    hide *;
    RewritableParts(text, host, id, header, kids);
    ParseIffTree(text);
    OneServerIff(text, host);
    JudgeInside(Tree(text).value, 0, id, host);
    ApprovedIff(header, Texts(kids), host);
    ThreeResults(IsApproved(header, Texts(kids), host));
    IsServerAt(text, host, id, header, kids);
    b := ServerIs(text, host, id, header, kids);
    ServerHeader(text, host, id, header, kids, b);
    LocatedBounds(text, b, kids);
    LocatedMarks(text, b, kids);
    LocatedSize(text, b, kids);
    MarkThere(Marks(text), id + 1 + Size(kids));
    IsCleanEnd(text, b.close);
    IsPrepared(text, host, b, kids);
    PrunedGateable(text, b, kids);
  }

  lemma MarkThere(marks: seq<Mark>, k: nat)
    requires k < |marks|
    ensures MarkAt(marks, k) == marks[k]
  {
  }

  lemma IsCleanEnd(text: string, close: nat)
    ensures CleanEnd(text, close) <==> close <= |text| && Blank(Unfinished(text, close))
  {
    hide Blank, Unfinished;
  }

  lemma IsServerAt(text: string, host: string, id: int, header: string, kids: Forest)
    requires Tree(text).Some? && NodeAt(Tree(text).value, 0, id) == Some((header, kids)) && IsApproved(header, Texts(kids), host) == Ok(true)
    ensures ServerAt(text, host, id, header, kids)
  {
    hide Tree, NodeAt, IsApproved, Texts;
  }

  lemma RewritableParts(text: string, host: string, id: nat, header: string, kids: Forest)
    requires Rewritable(text, host, id, header, kids)
    ensures Tree(text).Some? && NodeAt(Tree(text).value, 0, id) == Some((header, kids)) && Approved(header, Texts(kids), host)
    ensures Judge(Tree(text).value, host) == Ok(1) && AllReadable(TopHeaders(kids)) && NoCaptures(Texts(kids)) && NoCaptures(TopHeaders(kids))
    ensures NoMarkedIncludes(Texts(kids)) && CleanEnd(text, MarkAt(Marks(text), id + 1 + Size(kids)).at)
    ensures RemainingGateable(text, Marks(text), kids, id + 1) && ReviewedUpstreams(UpstreamsOf(Tree(text).value))
  {
    hide Tree, NodeAt, Approved, Judge, AllReadable, NoCaptures, NoMarkedIncludes, Texts, TopHeaders, CleanEnd, RemainingGateable,
         ReviewedUpstreams, UpstreamsOf, Marks, MarkAt;
  }

  lemma IsPrepared(text: string, host: string, b: BlockRec, kids: Forest)
    requires Parse(text).Some? && ApprovedServer(Parse(text).value, host) == Ok(b) && Located(text, b, kids) && 0 <= b.close < |text|
    requires ServerAt(text, host, b.id, b.header, kids) && Tree(text).Some? && Judge(Tree(text).value, host) == Ok(1)
    requires AllReadable(TopHeaders(kids)) && NoCaptures(Texts(kids)) && NoCaptures(TopHeaders(kids)) && Blank(Unfinished(text, b.close))
    ensures Prepared(text, host, b, kids)
  {
    hide Parse, Tree, NodeAt, IsApproved, Texts, Located, ApprovedServer, TopHeaders, Judge, AllReadable, NoCaptures, Blank, Unfinished;
  }

  lemma PrunedGateable(text: string, b: BlockRec, kids: Forest)
    requires Located(text, b, kids) && AllReadable(TopHeaders(kids))
    ensures AllGateable(Pruned(text, b, kids)) <==> RemainingGateable(text, Marks(text), kids, b.id + 1)
  {
    hide Located, Parse, Tree, ChildrenOf, TopBlocks, Removals, Prune, RemovedIds, DropsRemoved, AllPlaced, AllGateable, RemainingGateable,
         TopHeaders, AllReadable, NodeAt;
    LocatedNode(text, b, kids);
    LocatedMarks(text, b, kids);
    RemovedIdsDrop(text, kids, Marks(text), b.id + 1, b.id);
    RemovalsReturn(text, Marks(text), kids, b.id + 1, b.id);
    PrunedIsGateable(text, Marks(text), kids, b.id + 1, b.id, Dropped(text, b));
  }

  lemma RewritableReturns(text: string, host: string, id: nat, header: string, kids: Forest)
    requires Rewritable(text, host, id, header, kids)
    ensures Rewrite(text, host).Ok?
  {
    hide *;
    RewritableParts(text, host, id, header, kids);
    var b := PrepareFrom(text, host, id, header, kids);
    PreparedParts(text, host, b, kids);
    var t1, t2, at := TwoReturn(text, host, b, kids);
    var pruned := Pruned(text, b, kids);
    GatesOk(t2, host, at, b.header, pruned);
    var out := WithGates(t2, host).value;
    LastStage(t2, host, out, at, b.header, pruned);
    GatedIffGateable(pruned);
    TextsWithDirect(pruned);
    UpstreamsPass(UpstreamsOf(Tree(text).value));
    VerifyReturns(out, host, at, b.header, Gate(pruned, GATE_TEXT));
    AllReturn(text, t1, t2, out, host);
  }

  lemma AllReturn(text: string, t1: string, t2: string, out: string, host: string)
    requires WithDirect(text, host) == Ok(t1) && WithUpstream(t1) == Ok(t2) && WithGates(t2, host) == Ok(out)
    ensures Rewrite(text, host).Ok? <==> Verify(out, host).Ok?
  {
    hide WithDirect, WithUpstream, WithGates, Verify;
  }

  lemma ReturnedIsRewritable(text: string, host: string) returns (id: nat, header: string, kids: Forest)
    requires Rewrite(text, host).Ok?
    ensures Rewritable(text, host, id, header, kids)
  {
    hide *;
    var result := Rewrite(text, host).value;
    RewriteCommutes(text, host, result);
    id, header, kids := RewriteMeans(text, host, result);
    IsTheServer(text, host, id, header, kids);
    OneServerIff(text, host);
    var b := ApprovedServer(Parse(text).value, host).value;
    JudgeInside(Tree(text).value, 0, id, host);
    ApprovedIff(header, Texts(kids), host);
    ThreeResults(IsApproved(header, Texts(kids), host));
    IsServerAt(text, host, id, header, kids);
    var c := ServerIs(text, host, id, header, kids);
    ServerHeader(text, host, id, header, kids, c);
    LocatedBounds(text, c, kids);
    LocatedSize(text, c, kids);
    MarkThere(Marks(text), id + 1 + Size(kids));
    IsCleanEnd(text, c.close);
    IsPrepared(text, host, c, kids);
    PrunedGateable(text, c, kids);
    var t1, t2, at := TwoReturn(text, host, c, kids);
    var pruned := Pruned(text, c, kids);
    var out := GatesReturned(text, t1, t2, host);
    LastStage(t2, host, out, at, c.header, pruned);
    AllReturn(text, t1, t2, out, host);
    VerifyNeeds(out, host, at, c.header, Gate(pruned, GATE_TEXT));
    GatedIffGateable(pruned);
    TextsWithDirect(pruned);
    UpstreamsPass(UpstreamsOf(Tree(text).value));
    IsRewritable(text, host, id, header, kids);
  }

  lemma GatesReturned(text: string, t1: string, t2: string, host: string) returns (out: string)
    requires WithDirect(text, host) == Ok(t1) && WithUpstream(t1) == Ok(t2) && Rewrite(text, host).Ok?
    ensures WithGates(t2, host) == Ok(out)
  {
    hide WithDirect, WithUpstream, WithGates, Verify;
    out := WithGates(t2, host).value;
  }

  lemma IsTheServer(text: string, host: string, id: nat, header: string, kids: Forest)
    requires TheServer(text, host, id, header, kids)
    ensures Tree(text).Some? && NodeAt(Tree(text).value, 0, id) == Some((header, kids)) && Approved(header, Texts(kids), host)
  {
    hide Tree, NodeAt, Approved, Texts, ApprovedNode;
  }

  lemma IsRewritable(text: string, host: string, id: nat, header: string, kids: Forest)
    requires Tree(text).Some? && NodeAt(Tree(text).value, 0, id) == Some((header, kids)) && Approved(header, Texts(kids), host)
    requires Judge(Tree(text).value, host) == Ok(1) && AllReadable(TopHeaders(kids)) && NoCaptures(Texts(kids)) && NoCaptures(TopHeaders(kids))
    requires NoMarkedIncludes(Texts(kids)) && CleanEnd(text, MarkAt(Marks(text), id + 1 + Size(kids)).at)
    requires RemainingGateable(text, Marks(text), kids, id + 1) && ReviewedUpstreams(UpstreamsOf(Tree(text).value))
    ensures Rewritable(text, host, id, header, kids)
  {
    hide Tree, NodeAt, Approved, Judge, AllReadable, NoCaptures, NoMarkedIncludes, Texts, TopHeaders, CleanEnd, RemainingGateable,
         ReviewedUpstreams, UpstreamsOf, Marks, MarkAt;
  }

  /** The rewrite returns exactly for the texts that can be rewritten. */
  lemma ReturnsIff(text: string, host: string)
    ensures Rewrite(text, host).Ok? <==> exists id: nat, header, kids :: Rewritable(text, host, id, header, kids)
  {
    hide *;
    if Rewrite(text, host).Ok? {
      var id, header, kids := ReturnedIsRewritable(text, host);
    }
    if exists id: nat, header, kids :: Rewritable(text, host, id, header, kids) {
      var id: nat, header, kids :| Rewritable(text, host, id, header, kids);
      RewritableReturns(text, host, id, header, kids);
    }
  }
}
