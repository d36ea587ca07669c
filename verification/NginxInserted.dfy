/** The inserted location: it needs no gate, and its raw text is the same wherever it is inserted. */
module NginxInserted {
  import opened Text
  import opened NginxLexer
  import opened NginxEvents
  import opened NginxOffsets
  import opened NginxTree
  import opened NginxParser
  import opened NginxTreeEdit
  import opened NginxRules
  import opened NginxSplice
  import opened NginxSnippets
  import opened NginxRewrite
  import opened NginxStages
  import opened NginxTheorem
  import opened NginxShift
  import opened NginxKept
  import opened NginxSecond
  import Shlex

  /* ---------------------------------------------------------------- no gate */

  lemma WordsTokenise(ws: seq<string>)
    requires SafeWords(ws)
    ensures Tokenise(Shlex.Join(ws)) == Ok(ws)
  {
    hide Shlex.Split, Shlex.Join, SafeWord, Plain, Strip, After;
    JoinIsPlain(ws);
    PlainIsStable(Shlex.Join(ws));
    Shlex.SplitWords(ws);
    StableTokens(Shlex.Join(ws));
  }

  lemma {:induction false} LeavesTokenise(lines: seq<seq<string>>)
    requires SafeLines(lines)
    ensures DirectTokens(Texts(LeafTexts(lines))) == Ok(lines)
    decreases |lines|
  {
    hide Tokenise, SafeWord, Shlex.Join;
    if lines != [] {
      WordsTokenise(lines[0]);
      LeavesTokenise(lines[1..]);
      var t, texts := Shlex.Join(lines[0]), Texts(LeafTexts(lines[1..]));
      assert Texts(LeafTexts(lines)) == [t] + texts;
      assert ([t] + texts)[1..] == texts;
      assert [lines[0]] + lines[1..] == lines;
    }
  }

  lemma OnlyFirst<T>(lines: seq<T>, w: T)
    requires lines != [] && lines[0] == w && forall i :: 0 < i < |lines| ==> lines[i] != w
    ensures multiset(lines)[w] == 1
  {
    var rest := lines[1..];
    assert lines == [w] + rest;
    assert w !in rest by {
      assert forall i :: 0 <= i < |rest| ==> rest[i] == lines[i + 1];
    }
    assert multiset(lines) == multiset([w]) + multiset(rest);
  }

  lemma OtherFirstWords()
    ensures |DIRECT_LINES| == 19 && forall i :: 0 < i < 19 ==> DIRECT_LINES[i] != [] && |DIRECT_LINES[i][0]| != 7
    ensures DIRECT_LINES[0] == GATE_WORDS && |GATE_WORDS[0]| == 7 && ProxyPass(DIRECT_LINES[1])
  {
  }

  lemma OneGate()
    ensures multiset(DIRECT_LINES)[GATE_WORDS] == 1 && ProxyPass(DIRECT_LINES[1])
  {
    OtherFirstWords();
    hide DIRECT_LINES, GATE_WORDS;
    OnlyFirst(DIRECT_LINES, GATE_WORDS);
  }

  predicate SafeDirect() { SafeLines(DIRECT_LINES) && SafeWords(DIRECT_HEADER) }

  /** The inserted location carries its gate. */
  lemma DirectNeedsNoGate()
    ensures SafeDirect() && NeedsGate(DIRECT_NAME, Texts(LeafTexts(DIRECT_LINES))) == Ok(false)
  {
    hide Tokenise, LeafTexts, Texts, DirectTokens, Shlex.Join, SafeLines, SafeWords, DIRECT_LINES, GATE_WORDS, DIRECT_NAME;
    DirectIsSafe();
    DirectPath();
    LeavesTokenise(DIRECT_LINES);
    OneGate();
    var all := DIRECT_LINES;
    assert exists i :: 0 <= i < |all| && ProxyPass(all[i]) by { OtherFirstWords(); assert ProxyPass(all[1]); }
  }

  lemma DirectPath()
    ensures LocationPath(DIRECT_NAME) == Ok(Some(("^~", "/v1/")))
  {
    hide Tokenise, Shlex.Join, SafeWords;
    DirectIsSafe();
    WordsTokenise(DIRECT_HEADER);
  }

  lemma DirectStaysUngated()
    ensures Gate(DIRECT_TREE, GATE_TEXT) == DIRECT_TREE
  {
    hide NeedsGate, Texts, LeafTexts, DIRECT_LINES;
    DirectNeedsNoGate();
  }

  /* ---------------------------------------------------------------- the raw text */

  const LEAVES: Forest := (DirectIsSafe(); LeafTexts(DIRECT_LINES))

  /** What stands between the braces of the inserted location. */
  const DIRECT_RAW: string := (DirectIsSafe(); "\n" + Lines("        ", DIRECT_LINES) + "    ")

  /** What stands before its opening brace, on the inserted line. */
  const DIRECT_OPENING: string := (DirectIsSafe(); "    " + DIRECT_NAME + " ")

  lemma DirectPieces()
    ensures DIRECT_LOCATION == DIRECT_OPENING + ("{" + (DIRECT_RAW + ("}" + "\n")))
  {
    hide Lines, Shlex.Join, DIRECT_LINES, DIRECT_HEADER, SafeLines, SafeWords;
    DirectIsSafe();
    assert "    " + "    " == "        ";
    Regrouped("    ", DIRECT_NAME, Lines("        ", DIRECT_LINES));
  }

  lemma Regrouped(i: string, j: string, l: string)
    ensures i + j + " {\n" + l + i + "}\n" == (i + j + " ") + ("{" + (("\n" + l + i) + ("}" + "\n")))
  {
  }

  /** Reading the text between the braces. */
  lemma RawRuns(out: seq<Event>)
    ensures var r := Run(Machine(Code, "", out), DIRECT_RAW);
            r.lex == Code && r.out == out + Flatten(LEAVES)
  {
    hide Run, Lines, LeafTexts, SafeLines, SafeWords, DIRECT_LINES, Blank, Plain, Step;
    DirectIsSafe();
    IndentOfFour();
    EightSpaces();
    NewlineIsBlank();
    StepNewline(out);
    var lines := Lines("        ", DIRECT_LINES);
    RunLines("\n", out, "        ", DIRECT_LINES);
    RunConcat(Machine(Code, "", out), "\n", lines);
    IndentIsBlank("    ");
    RunPlain(Run(Machine(Code, "\n", out), lines), "    ");
    RunConcat(Machine(Code, "", out), "\n" + lines, "    ");
  }

  lemma EightSpaces()
    ensures Indent("        ")
  {
  }

  lemma OpeningIsPlain()
    ensures Plain(DIRECT_OPENING) && Plain("\n" + DIRECT_OPENING) && Plain("" + DIRECT_OPENING)
  {
    hide Shlex.Join, SafeWords, Plain;
    DirectIsSafe();
    JoinIsPlain(DIRECT_HEADER);
    IndentOfFour();
    IndentIsBlank("    ");
    IndentMore("");
    PlainConcat("    ", DIRECT_NAME);
    PlainConcat("    " + DIRECT_NAME, " ");
    PrefixIsPlain();
    PlainConcat("\n", DIRECT_OPENING);
    PlainConcat("", DIRECT_OPENING);
  }

  /** One cutting character behind a known state. */
  lemma StepIn(t: string, p: nat, m: Machine)
    requires p < |t| && At(t, p) == m
    ensures At(t, p + 1) == Step(m, t[p])
  {
    hide Step, Run;
    StepAt(t, p);
  }

  lemma AtConcat(t: string, p: nat, s: string)
    requires p + |s| <= |t| && t[p..p + |s|] == s
    ensures At(t, p + |s|) == Run(At(t, p), s)
  {
    hide Run;
    assert t[..p + |s|] == t[..p] + s;
    RunConcat(INIT, t[..p], s);
  }

  /** The inserted location has its braces and its raw text where the insertion put them. */
  lemma InsertedAtClose(text: string, close: nat, e: nat) returns (p: nat, q: nat)
    requires close <= |text| && At(text, close).lex == Code && |At(text, close).out| == e
    ensures var t := Splice(text, InsertionOf(text, close));
            BlockAt(t, e, e + 1 + Size(LEAVES), p, q) && Body(t, p, q) == DIRECT_RAW
  {
    hide At, Splice, InsertionOf, DIRECT_LOCATION, DIRECT_OPENING, DIRECT_RAW, LEAVES, Flatten, Plain, BlockAt, Body;
    var t := Splice(text, InsertionOf(text, close));
    var prefix := if 0 < close <= |text| && text[close - 1] == '\n' then "" else "\n";
    var opening := prefix + DIRECT_OPENING;
    p, q := close + |opening|, close + |opening| + 1 + |DIRECT_RAW|;
    DirectPieces();
    OpeningIsPlain();
    InsertionPut(text, close, prefix);
    Slices(text[..close], opening, DIRECT_RAW, text[close..]);
    Prefixed(prefix, DIRECT_OPENING, "{" + (DIRECT_RAW + ("}" + "\n")));
    SameStart(text, t, close);
    ReadInserted(t, close, opening, p, q);
  }

  lemma Prefixed(a: string, b: string, c: string)
    ensures a + (b + c) == (a + b) + c
  {
  }

  lemma InsertionPut(text: string, close: nat, prefix: string)
    requires close <= |text| && prefix == if 0 < close <= |text| && text[close - 1] == '\n' then "" else "\n"
    ensures Splice(text, InsertionOf(text, close)) == text[..close] + (prefix + DIRECT_LOCATION) + text[close..]
  {
    hide DIRECT_LOCATION;
  }

  lemma ReadInserted(t: string, close: nat, opening: string, p: nat, q: nat)
    requires p == close + |opening| && q == p + 1 + |DIRECT_RAW| && q < |t| && Plain(opening) && At(t, close).lex == Code
    requires t[close..p] == opening && t[p] == '{' && t[p + 1..q] == DIRECT_RAW && t[q] == '}'
    ensures var e := |At(t, close).out|;
            BlockAt(t, e, e + 1 + Size(LEAVES), p, q) && Body(t, p, q) == DIRECT_RAW
  {
    hide At, DIRECT_RAW, LEAVES, Flatten, Plain, Run, Step;
    var h := ReadOpening(t, close, opening, p);
    ReadRaw(t, p + 1, q, At(t, close).out + [Open(h)]);
    ReadClosing(t, q);
  }

  lemma ReadOpening(t: string, close: nat, opening: string, p: nat) returns (h: string)
    requires p == close + |opening| && p < |t| && Plain(opening) && At(t, close).lex == Code
    requires t[close..p] == opening && t[p] == '{'
    ensures At(t, p).out == At(t, close).out
    ensures At(t, p + 1) == Machine(Code, "", At(t, close).out + [Open(h)])
  {
    hide At, Plain, Run, Step, Trim;
    var m := At(t, close);
    AtConcat(t, close, opening);
    RunPlain(m, opening);
    StepIn(t, p, m.(pending := m.pending + opening));
    OpenStep(m.pending + opening, m.out);
    h := Trim(m.pending + opening);
  }

  lemma ReadRaw(t: string, p: nat, q: nat, out: seq<Event>)
    requires q == p + |DIRECT_RAW| && q <= |t| && At(t, p) == Machine(Code, "", out) && t[p..q] == DIRECT_RAW
    ensures At(t, q).lex == Code && |At(t, q).out| == |out| + Size(LEAVES)
  {
    hide At, DIRECT_RAW, LEAVES, Run;
    AtConcat(t, p, DIRECT_RAW);
    RawRuns(out);
  }

  lemma ReadClosing(t: string, q: nat)
    requires q < |t| && At(t, q).lex == Code && t[q] == '}'
    ensures |At(t, q + 1).out| == |At(t, q).out| + 1
  {
    hide At, Step;
    StepIn(t, q, At(t, q));
    CloseStep(At(t, q));
  }

  lemma OpenStep(pending: string, out: seq<Event>)
    ensures Step(Machine(Code, pending, out), '{') == Machine(Code, "", out + [Open(Trim(pending))])
  {
    StepBraces(pending, out);
  }

  lemma CloseStep(m: Machine)
    requires m.lex == Code
    ensures Step(m, '}').out == m.out + [Close]
  {
    hide Blank, Trim;
  }

  lemma SameStart(text: string, t: string, n: nat)
    requires n <= |text| && n <= |t| && t[..n] == text[..n]
    ensures At(t, n) == At(text, n)
  {
  }

  lemma Slices(a: string, o: string, r: string, z: string)
    ensures var t, p, q := a + (o + ("{" + (r + ("}" + "\n")))) + z, |a| + |o|, |a| + |o| + 1 + |r|;
            && q < |t| && t[..|a|] == a && t[|a|..p] == o && t[p] == '{' && t[p + 1..q] == r && t[q] == '}'
  {
  }
}
