/** What shlex reads: words of bare, escaped and quoted pieces, written out and tokenised back. */
module ShlexWords {
  import opened Text
  import opened Shlex

  /** A character between double quotes, and one behind a backslash there. */
  datatype Item = Plain(c: char) | Slashed(c: char)

  datatype Piece = Bare(c: char) | Backslashed(c: char) | Single(s: string) | Double(items: seq<Item>)

  type Spelling = seq<Piece>

  predicate ItemOk(i: Item) { i.Plain? ==> i.c != '"' && i.c != '\\' }

  predicate PieceOk(p: Piece) {
    match p
    case Bare(c) => Ordinary(c)
    case Backslashed(_) => true
    case Single(s) => forall i :: 0 <= i < |s| ==> s[i] != '\''
    case Double(items) => forall i :: 0 <= i < |items| ==> ItemOk(items[i])
  }

  predicate SpellingOk(w: Spelling) { w != [] && forall i :: 0 <= i < |w| ==> PieceOk(w[i]) }

  /* ---------------------------------------------------------------- how it is written */

  function ItemText(i: Item): string {
    match i
    case Plain(c) => [c]
    case Slashed(c) => ['\\', c]
  }

  function ItemsText(items: seq<Item>): string {
    if items == [] then "" else ItemsText(items[..|items| - 1]) + ItemText(items[|items| - 1])
  }

  function PieceText(p: Piece): string {
    match p
    case Bare(c) => [c]
    case Backslashed(c) => ['\\', c]
    case Single(s) => ['\''] + s + ['\'']
    case Double(items) => ['"'] + ItemsText(items) + ['"']
  }

  function Spelled(w: Spelling): string {
    if w == [] then "" else Spelled(w[..|w| - 1]) + PieceText(w[|w| - 1])
  }

  /* ---------------------------------------------------------------- what it means */

  /** Between double quotes a backslash is kept unless it escapes a double quote or a backslash. */
  function ItemValue(i: Item): string {
    match i
    case Plain(c) => [c]
    case Slashed(c) => if c == '"' || c == '\\' then [c] else ['\\', c]
  }

  function ItemsValue(items: seq<Item>): string {
    if items == [] then "" else ItemsValue(items[..|items| - 1]) + ItemValue(items[|items| - 1])
  }

  function PieceValue(p: Piece): string {
    match p
    case Bare(c) => [c]
    case Backslashed(c) => [c]
    case Single(s) => s
    case Double(items) => ItemsValue(items)
  }

  function Value(w: Spelling): string {
    if w == [] then "" else Value(w[..|w| - 1]) + PieceValue(w[|w| - 1])
  }

  /* ---------------------------------------------------------------- reading it */

  lemma RunTwo(s: State, a: char, b: char)
    ensures Run(s, [a, b]) == Step(Step(s, a), b)
  {
    hide Step;
    assert [a, b] == [a] + [b];
    RunConcat(s, [a], [b]);
    RunOne(s, a);
    RunOne(Step(s, a), b);
  }

  lemma {:induction false} RunSingle(s: State, text: string)
    requires s.mode == Inside('\'') && forall i :: 0 <= i < |text| ==> text[i] != '\''
    ensures Run(s, text) == s.(token := s.token + text)
  {
    if text == "" {
      assert s.token + text == s.token;
    } else {
      RunSingle(s, text[..|text| - 1]);
      assert s.token + text == (s.token + text[..|text| - 1]) + [text[|text| - 1]];
    }
  }

  lemma RunItem(s: State, i: Item)
    requires s.mode == Inside('"') && ItemOk(i)
    ensures Run(s, ItemText(i)) == s.(token := s.token + ItemValue(i))
  {
    match i
    case Plain(c) => RunOne(s, c);
    case Slashed(c) =>
      RunTwo(s, '\\', c);
      assert s.token + "" + [c] == s.token + [c];
      assert s.token + "\\" + [c] == s.token + ['\\', c];
  }

  lemma {:induction false} RunItems(s: State, items: seq<Item>)
    requires s.mode == Inside('"') && forall i :: 0 <= i < |items| ==> ItemOk(items[i])
    ensures Run(s, ItemsText(items)) == s.(token := s.token + ItemsValue(items))
  {
    hide Run, ItemOk, ItemText, ItemValue;
    if items == [] {
      RunNothing(s);
      assert s.token + "" == s.token;
    } else {
      var front, last := items[..|items| - 1], items[|items| - 1];
      RunItems(s, front);
      RunConcat(s, ItemsText(front), ItemText(last));
      RunItem(Run(s, ItemsText(front)), last);
      assert s.token + ItemsValue(front) + ItemValue(last) == s.token + ItemsValue(items);
    }
  }

  lemma RunNothing(s: State)
    ensures Run(s, "") == s
  {
  }

  /** Where a word can begin or go on. */
  predicate Ready(s: State) { (s.mode == Gap && s.token == "") || s.mode == Word }

  lemma RunQuoted(s: State, mark: char, text: string, inside: string)
    requires Ready(s) && QuoteMark(mark)
    requires Run(State(Inside(mark), s.token, s.out), text) == State(Inside(mark), s.token + inside, s.out)
    ensures Run(s, [mark] + text + [mark]) == State(Word, s.token + inside, s.out)
  {
    hide Run;
    RunConcat(s, [mark] + text, [mark]);
    RunConcat(s, [mark], text);
    RunOne(s, mark);
    RunOne(State(Inside(mark), s.token + inside, s.out), mark);
  }

  lemma RunPiece(s: State, p: Piece)
    requires Ready(s) && PieceOk(p)
    ensures Run(s, PieceText(p)) == State(Word, s.token + PieceValue(p), s.out)
  {
    hide Run;
    match p
    case Bare(c) =>
      RunOne(s, c);
      assert s.mode == Gap ==> s.token + [c] == [c];
    case Backslashed(c) =>
      RunTwo(s, '\\', c);
      assert s.token + "" + [c] == s.token + [c];
    case Single(text) =>
      RunSingle(State(Inside('\''), s.token, s.out), text);
      RunQuoted(s, '\'', text, text);
    case Double(items) =>
      RunItems(State(Inside('"'), s.token, s.out), items);
      RunQuoted(s, '"', ItemsText(items), ItemsValue(items));
  }

  lemma {:induction false} RunSpelling(s: State, w: Spelling)
    requires s.mode == Gap && s.token == "" && SpellingOk(w)
    ensures Run(s, Spelled(w)) == State(Word, Value(w), s.out)
  {
    hide Run, PieceOk, PieceText, PieceValue;
    var front, last := w[..|w| - 1], w[|w| - 1];
    var t := s;
    if front == [] {
      RunNothing(s);
    } else {
      RunSpelling(s, front);
      t := State(Word, Value(front), s.out);
    }
    RunConcat(s, Spelled(front), PieceText(last));
    RunPiece(t, last);
    assert t.token + PieceValue(last) == Value(w);
  }

  /* ---------------------------------------------------------------- whole texts */

  predicate Separators(s: string) { forall i :: 0 <= i < |s| ==> Separator(s[i]) }

  /** A word and what separates it from the next. */
  datatype Spaced = Spaced(word: Spelling, gap: string)

  predicate SpacedOk(ws: seq<Spaced>) {
    && (forall i :: 0 <= i < |ws| ==> SpellingOk(ws[i].word) && Separators(ws[i].gap))
    && (forall i :: 0 <= i < |ws| - 1 ==> ws[i].gap != "")
  }

  function Written(ws: seq<Spaced>): string {
    if ws == [] then "" else Written(ws[..|ws| - 1]) + Spelled(ws[|ws| - 1].word) + ws[|ws| - 1].gap
  }

  function Values(ws: seq<Spaced>): seq<string> {
    if ws == [] then [] else Values(ws[..|ws| - 1]) + [Value(ws[|ws| - 1].word)]
  }

  lemma {:induction false} RunGap(s: State, gap: string)
    requires Ready(s) && Separators(gap)
    ensures Run(s, gap) == if s.mode == Gap || gap == "" then s else State(Gap, "", s.out + [s.token])
  {
    if gap != "" {
      RunGap(s, gap[..|gap| - 1]);
    }
  }

  /** The state behind a written text: the last word is pending if no separator follows it. */
  function Behind(ws: seq<Spaced>): State {
    if ws == [] then START
    else if ws[|ws| - 1].gap == "" then State(Word, Value(ws[|ws| - 1].word), Values(ws[..|ws| - 1]))
    else State(Gap, "", Values(ws))
  }

  lemma {:induction false} RunWritten(lead: string, ws: seq<Spaced>)
    requires Separators(lead) && SpacedOk(ws)
    ensures Run(START, lead + Written(ws)) == Behind(ws)
  {
    hide Run, SpellingOk, Separators, Spelled, Value;
    if ws == [] {
      RunGap(START, lead);
      assert lead + Written(ws) == lead;
    } else {
      var front, last := ws[..|ws| - 1], ws[|ws| - 1];
      FrontOk(ws);
      RunWritten(lead, front);
      var s := Behind(front);
      assert s == State(Gap, "", Values(front));
      assert lead + Written(ws) == (lead + Written(front)) + Spelled(last.word) + last.gap;
      RunConcat(START, lead + Written(front), Spelled(last.word));
      RunConcat(START, lead + Written(front) + Spelled(last.word), last.gap);
      RunSpelling(s, last.word);
      RunGap(State(Word, Value(last.word), Values(front)), last.gap);
    }
  }

  lemma FrontOk(ws: seq<Spaced>)
    requires ws != [] && SpacedOk(ws)
    ensures SpacedOk(ws[..|ws| - 1]) && SpellingOk(ws[|ws| - 1].word) && Separators(ws[|ws| - 1].gap)
    ensures |ws| > 1 ==> ws[|ws| - 2].gap != ""
  {
    hide SpellingOk, Separators;
  }

  /** A text of spelled words tokenises to what they mean. */
  lemma SplitWritten(lead: string, ws: seq<Spaced>)
    requires Separators(lead) && SpacedOk(ws)
    ensures Split(lead + Written(ws)) == Ok(Values(ws))
  {
    hide Run, SpellingOk, Separators, Spelled, Value;
    RunWritten(lead, ws);
  }

  /** A quotation that is not closed, or a backslash at the very end. */
  datatype Unclosed = OpenSingle(s: string) | OpenDouble(items: seq<Item>) | LastBackslash | LastSlash(items: seq<Item>)

  predicate UnclosedOk(u: Unclosed) {
    match u
    case OpenSingle(s) => PieceOk(Single(s))
    case OpenDouble(items) => PieceOk(Double(items))
    case LastBackslash => true
    case LastSlash(items) => PieceOk(Double(items))
  }

  function UnclosedText(u: Unclosed): string {
    match u
    case OpenSingle(s) => ['\''] + s
    case OpenDouble(items) => ['"'] + ItemsText(items)
    case LastBackslash => "\\"
    case LastSlash(items) => ['"'] + ItemsText(items) + ['\\']
  }

  /** Text that ends in something unclosed is refused, whatever was spelled before it. */
  lemma SplitUnclosed(lead: string, ws: seq<Spaced>, u: Unclosed)
    requires Separators(lead) && SpacedOk(ws) && UnclosedOk(u)
    ensures Split(lead + Written(ws) + UnclosedText(u)) == Error
  {
    hide Run, SpellingOk, Separators, Spelled, Value, Written, SpacedOk, Values;
    RunWritten(lead, ws);
    var s := Behind(ws);
    RunConcat(START, lead + Written(ws), UnclosedText(u));
    match u
    case OpenSingle(text) =>
      RunConcat(s, ['\''], text);
      RunOne(s, '\'');
      RunSingle(Step(s, '\''), text);
    case OpenDouble(items) =>
      RunConcat(s, ['"'], ItemsText(items));
      RunOne(s, '"');
      RunItems(Step(s, '"'), items);
    case LastBackslash =>
      RunOne(s, '\\');
    case LastSlash(items) =>
      RunConcat(s, ['"'] + ItemsText(items), ['\\']);
      RunConcat(s, ['"'], ItemsText(items));
      RunOne(s, '"');
      RunItems(Step(s, '"'), items);
      RunOne(Run(Step(s, '"'), ItemsText(items)), '\\');
  }
}
