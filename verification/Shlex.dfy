/** `shlex.split(value, comments=False, posix=True)`, character by character. */
module Shlex {
  import opened Text

  datatype Mode = Gap | Word | Inside(mark: char) | Escaped(inQuotes: bool)

  datatype State = State(mode: Mode, token: string, out: seq<string>)

  const START := State(Gap, "", [])

  predicate Separator(c: char) { c == ' ' || c == '\t' || c == '\r' || c == '\n' }

  predicate QuoteMark(c: char) { c == '"' || c == '\'' }

  /** A character that is read as itself in every word. */
  predicate Ordinary(c: char) { !Separator(c) && !QuoteMark(c) && c != '\\' }

  function Step(s: State, c: char): State {
    match s.mode
    case Gap =>
      if Separator(c) then s
      else if c == '\\' then s.(mode := Escaped(false))
      else if QuoteMark(c) then s.(mode := Inside(c))
      else s.(mode := Word, token := [c])
    case Word =>
      if Separator(c) then State(Gap, "", s.out + [s.token])
      else if QuoteMark(c) then s.(mode := Inside(c))
      else if c == '\\' then s.(mode := Escaped(false))
      else s.(token := s.token + [c])
    case Inside(mark) =>
      if c == mark then s.(mode := Word)
      else if c == '\\' && mark == '"' then s.(mode := Escaped(true))
      else s.(token := s.token + [c])
    case Escaped(inQuotes) =>
      var kept := if inQuotes && c != '\\' && c != '"' then "\\" else "";
      s.(mode := if inQuotes then Inside('"') else Word, token := s.token + kept + [c])
  }

  function Run(s: State, text: string): State {
    if text == "" then s else Step(Run(s, text[..|text| - 1]), text[|text| - 1])
  }

  /** Error is the source's ValueError for an open quote or a trailing backslash. */
  function Finish(s: State): Result<seq<string>> {
    match s.mode
    case Gap => Ok(s.out)
    case Word => Ok(s.out + [s.token])
    case _ => Error
  }

  function Split(text: string): Result<seq<string>> {
    Finish(Run(START, text))
  }

  lemma {:induction false} RunConcat(s: State, a: string, b: string)
    ensures Run(s, a + b) == Run(Run(s, a), b)
  {
    if b == "" {
      assert a + b == a;
    } else {
      RunConcat(s, a, b[..|b| - 1]);
      assert (a + b)[..|a + b| - 1] == a + b[..|b| - 1];
    }
  }

  /** Words of ordinary characters. */
  predicate PlainWord(w: string) {
    w != "" && forall i :: 0 <= i < |w| ==> Ordinary(w[i])
  }

  predicate PlainWords(ws: seq<string>) {
    forall i :: 0 <= i < |ws| ==> PlainWord(ws[i])
  }

  /** The words with one space after each but the last. */
  function Join(ws: seq<string>): string
    requires ws != []
  {
    if |ws| == 1 then ws[0] else Join(ws[..|ws| - 1]) + " " + ws[|ws| - 1]
  }

  lemma {:induction false} RunWord(s: State, w: string)
    requires s.mode == Gap && s.token == "" && PlainWord(w)
    ensures Run(s, w) == State(Word, w, s.out)
  {
    var p, c := w[..|w| - 1], w[|w| - 1];
    if p == "" {
      assert w == [c];
      assert Run(s, p) == s;
    } else {
      RunWord(s, p);
      assert p + [c] == w;
    }
  }

  lemma RunOne(s: State, c: char)
    ensures Run(s, [c]) == Step(s, c)
  {
    hide Step;
    assert [c][..0] == "";
  }

  /** Between words the words are added one by one. */
  lemma {:induction false} RunWords(s: State, ws: seq<string>)
    requires s.mode == Gap && s.token == "" && ws != [] && PlainWords(ws)
    ensures Run(s, Join(ws)) == State(Word, ws[|ws| - 1], s.out + ws[..|ws| - 1])
  {
    hide Run, PlainWord;
    var last := ws[|ws| - 1];
    if |ws| == 1 {
      RunWord(s, last);
      assert s.out + ws[..0] == s.out;
    } else {
      var front := ws[..|ws| - 1];
      RunWords(s, front);
      RunConcat(s, Join(front), " ");
      RunOne(Run(s, Join(front)), ' ');
      RunConcat(s, Join(front) + " ", last);
      var u := State(Gap, "", s.out + front);
      assert s.out + front[..|front| - 1] + [front[|front| - 1]] == s.out + front;
      RunWord(u, last);
    }
  }

  lemma SplitWords(ws: seq<string>)
    requires ws != [] && PlainWords(ws)
    ensures Split(Join(ws)) == Ok(ws)
  {
    hide Run, Step, PlainWords, Join;
    RunWords(START, ws);
    assert START.out + ws[..|ws| - 1] == ws[..|ws| - 1];
    assert ws[..|ws| - 1] + [ws[|ws| - 1]] == ws;
  }

  /* ---------------------------------------------------------------- words after arbitrary text */

  /** Nothing typed so far is lost: the tokens only grow, and a token is pending or finished once
      a character other than a separator was read. */
  predicate Begun(s: State) { s.mode != Gap || s.out != [] }

  lemma {:induction false} StaysBegun(s: State, text: string)
    requires Begun(s)
    ensures Begun(Run(s, text)) && s.out <= Run(s, text).out
  {
    if text != "" {
      StaysBegun(s, text[..|text| - 1]);
    }
  }

  /** Reading text without quotes from inside a quote never leaves it. */
  lemma {:induction false} QuoteStaysOpen(s: State, text: string)
    requires s.mode.Inside? || s.mode == Escaped(true)
    requires forall i :: 0 <= i < |text| ==> !QuoteMark(text[i])
    requires s.mode.Inside? ==> QuoteMark(s.mode.mark)
    ensures var t := Run(s, text); (t.mode.Inside? && QuoteMark(t.mode.mark)) || t.mode == Escaped(true)
  {
    if text != "" {
      QuoteStaysOpen(s, text[..|text| - 1]);
    }
  }

  lemma {:induction false} MarksAreQuotes(text: string)
    ensures Run(START, text).mode.Inside? ==> QuoteMark(Run(START, text).mode.mark)
    ensures Run(START, text).mode == Gap ==> Run(START, text).token == ""
  {
    if text != "" {
      MarksAreQuotes(text[..|text| - 1]);
    }
  }

  /** Two spaces end whatever was being read, unless a quote is open. */
  lemma TwoSpaces(s: State)
    requires s.mode == Gap ==> s.token == ""
    requires s.mode.Inside? ==> QuoteMark(s.mode.mark)
    ensures var t := Run(s, "  ");
            && s.out <= t.out
            && (if s.mode.Inside? || s.mode == Escaped(true) then t.mode.Inside? && QuoteMark(t.mode.mark)
                else t.mode == Gap && t.token == "" && (s.mode != Gap ==> |t.out| == |s.out| + 1))
  {
    assert "  " == " " + " ";
    RunConcat(s, " ", " ");
    RunOne(s, ' ');
    RunOne(Step(s, ' '), ' ');
  }

  /** After two spaces and plain words the tokens end with those words, whatever stood before. */
  lemma WordsAfterText(before: string, ws: seq<string>)
    requires ws != [] && PlainWords(ws)
    requires Split(before + "  " + Join(ws)).Ok?
    ensures var tokens := Split(before + "  " + Join(ws)).value;
            && |ws| <= |tokens| && tokens[|tokens| - |ws|..] == ws
            && ((exists i :: 0 <= i < |before| && !Separator(before[i])) ==> |tokens| > |ws|)
  {
    hide Run, Step, Join, PlainWords;
    var s := Run(START, before);
    MarksAreQuotes(before);
    TwoSpaces(s);
    var t := Run(s, "  ");
    RunConcat(START, before, "  ");
    RunConcat(START, before + "  ", Join(ws));
    if s.mode.Inside? || s.mode == Escaped(true) {
      JoinHasNoQuotes(ws);
      QuoteStaysOpen(t, Join(ws));
    } else {
      RunWords(t, ws);
      assert t.out + ws[..|ws| - 1] + [ws[|ws| - 1]] == t.out + ws;
      if i :| 0 <= i < |before| && !Separator(before[i]) {
        CharacterBegins(before, i);
      }
    }
  }

  lemma CharacterBegins(before: string, i: nat)
    requires i < |before| && !Separator(before[i])
    ensures Begun(Run(START, before))
  {
    hide Separator, QuoteMark;
    var head := before[..i + 1];
    assert head[..i] == before[..i] && head[i] == before[i];
    assert Begun(Run(START, head));
    RunConcat(START, head, before[i + 1..]);
    assert head + before[i + 1..] == before;
    StaysBegun(Run(START, head), before[i + 1..]);
  }

  lemma {:induction false} JoinHasNoQuotes(ws: seq<string>)
    requires ws != [] && PlainWords(ws)
    ensures forall i :: 0 <= i < |Join(ws)| ==> !QuoteMark(Join(ws)[i])
  {
    assert PlainWord(ws[|ws| - 1]);
    if |ws| > 1 {
      JoinHasNoQuotes(ws[..|ws| - 1]);
    }
  }
}
