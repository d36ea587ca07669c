/** Where the offsets computed by parse_config stand: every recorded start is a position of plain code
    with nothing unfinished before it, so the text can be cut there. */
module NginxOffsets {
  import opened Text
  import opened NginxLexer
  import opened NginxEvents

  /** The state reached before position `p`. */
  function At(text: string, p: nat): Machine
    requires p <= |text|
  {
    Run(INIT, text[..p])
  }

  /** Plain code with nothing but whitespace and comments since the last statement. */
  predicate Clean(text: string, p: nat)
    requires p <= |text|
  {
    At(text, p).lex == Code && Blank(At(text, p).pending)
  }

  lemma StepAt(text: string, p: nat)
    requires p < |text|
    ensures At(text, p + 1) == Step(At(text, p), text[p])
  {
    hide Step;
    assert text[..p + 1][..p] == text[..p];
  }

  predicate IsCut(c: char) { c == ';' || c == '{' || c == '}' }

  function Terminator(m: Mark): char {
    match m
    case OpenAt(_, _, _, _) => '{'
    case StatementAt(_, _, _, _) => ';'
    case CloseAt(_) => '}'
  }

  ghost predicate Placed(text: string, marks: seq<Mark>, k: nat)
    requires k < |marks|
  {
    var m, events := marks[k], EventsOf(marks);
    && m.at < |text| && text[m.at] == Terminator(m)
    && (k > 0 ==> marks[k - 1].at < m.at)
    && At(text, m.at).lex == Code && At(text, m.at).out == events[..k]
    && At(text, m.at + 1) == Machine(Code, "", events[..k + 1])
    && (!m.CloseAt? ==> StartPlaced(text, m, if k == 0 then -1 else marks[k - 1].at, events[..k]))
  }

  ghost predicate AllPlaced(text: string, marks: seq<Mark>) {
    forall k :: 0 <= k < |marks| ==> Placed(text, marks, k)
  }

  ghost predicate StartPlaced(text: string, m: Mark, previous: int, events: seq<Event>)
    requires !m.CloseAt? && m.at < |text|
  {
    && previous < m.stmt <= m.start <= m.at
    && (m.stmt == 0 || IsCut(text[m.stmt - 1]))
    && (!IsSpace(text[m.start]) || m.start == 0 || text[m.start - 1] == '\n')
    && Clean(text, m.start) && At(text, m.start).out == events
  }

  lemma CutsAreNotSpace(c: char)
    requires IsCut(c)
    ensures !IsSpace(c)
  {
  }

  lemma StepInside(m: Machine, c: char)
    requires m.lex != Code || !IsCut(c)
    ensures Step(m, c) == Machine(Next(m.lex, c), m.pending + Kept(m.lex, c), m.out)
  {
    hide Trim, Blank;
  }

  /** The state inside a gap that begins at a statement boundary. */
  lemma GapState(text: string, stmt: nat, p: nat, out: seq<Event>)
    requires stmt <= p <= |text|
    requires At(text, stmt) == Machine(Code, "", out)
    requires forall i :: stmt <= i < p && After(Code, text[stmt..i]) == Code ==> !IsCut(text[i])
    ensures At(text, p) == Machine(After(Code, text[stmt..p]), Strip(Code, text[stmt..p]), out)
    decreases p - stmt
  {
    hide Blank, Trim;
    if p == stmt {
      assert text[stmt..p] == "";
    } else {
      hide Strip, After, At, Kept, Step, Next, IsCut;
      GapState(text, stmt, p - 1, out);
      StepInside(At(text, p - 1), text[p - 1]);
      StepInSlice(text, stmt, p - 1);
      StepAt(text, p - 1);
    }
  }

  lemma BlankPrefix(text: string, stmt: nat, p: nat, code: nat)
    requires stmt <= p <= code <= |text| && Blank(Strip(Code, text[stmt..code]))
    ensures Blank(Strip(Code, text[stmt..p]))
  {
    hide IsSpace, Strip, After;
    assert text[stmt..code] == text[stmt..p] + text[p..code];
    StripConcat(Code, text[stmt..p], text[p..code]);
    BlankConcat(Strip(Code, text[stmt..p]), Strip(After(Code, text[stmt..p]), text[p..code]));
  }

  lemma NotBlankAt(s: string, i: nat)
    requires i < |s| && !IsSpace(s[i])
    ensures !Blank(s)
  {
  }

  lemma StepInSlice(text: string, stmt: nat, p: nat)
    requires stmt <= p < |text|
    ensures After(Code, text[stmt..p + 1]) == Next(After(Code, text[stmt..p]), text[p])
    ensures Strip(Code, text[stmt..p + 1]) == Strip(Code, text[stmt..p]) + Kept(After(Code, text[stmt..p]), text[p])
  {
    hide Next, Kept;
    assert text[stmt..p + 1][..p - stmt] == text[stmt..p];
  }

  /** The gap before a statement's code closes no statement. */
  lemma GapHasNoCut(text: string, stmt: nat, p: nat, code: nat)
    requires stmt <= p < code <= |text| && Blank(Strip(Code, text[stmt..code]))
    requires After(Code, text[stmt..p]) == Code
    ensures !IsCut(text[p])
  {
    hide IsSpace, Blank, Strip, After;
    BlankPrefix(text, stmt, p + 1, code);
    StepInSlice(text, stmt, p);
    BlankConcat(Strip(Code, text[stmt..p]), Kept(Code, text[p]));
    if IsCut(text[p]) {
      CutsAreNotSpace(text[p]);
      NotBlankAt(Kept(Code, text[p]), 0);
    }
  }

  /** Every position of the gap that is in plain code is clean. */
  lemma GapIsClean(text: string, stmt: nat, p: nat, code: nat, out: seq<Event>)
    requires stmt <= p <= code <= |text|
    requires At(text, stmt) == Machine(Code, "", out)
    requires Blank(Strip(Code, text[stmt..code]))
    requires After(Code, text[stmt..p]) == Code
    ensures Clean(text, p) && At(text, p).out == out
  {
    hide IsSpace, Blank, Strip, After, At;
    forall i | stmt <= i < p && After(Code, text[stmt..i]) == Code
      ensures !IsCut(text[i])
    {
      GapHasNoCut(text, stmt, i, code);
    }
    GapState(text, stmt, p, out);
    BlankPrefix(text, stmt, p, code);
  }

  /** A line start inside the gap is plain code: a newline ends a comment and the gap has no quote. */
  lemma LineStartInGap(text: string, stmt: nat, line: nat, code: nat)
    requires stmt < line <= code <= |text| && text[line - 1] == '\n'
    requires Blank(Strip(Code, text[stmt..code]))
    ensures After(Code, text[stmt..line]) == Code
  {
    hide IsSpace, Blank, Strip, After;
    BlankPrefix(text, stmt, line - 1, code);
    BlankStripHasNoQuote(text[stmt..line - 1]);
    StepInSlice(text, stmt, line - 1);
  }

  /** The start chosen for a block never reaches back over the previous statement's terminator. */
  lemma BlockStartInGap(text: string, stmt: nat, code: nat)
    requires stmt <= code <= |text|
    requires stmt == 0 || IsCut(text[stmt - 1])
    ensures BlockStart(text, code) >= stmt
    ensures stmt > 0 && BlockStart(text, code) < code ==> BlockStart(text, code) > stmt
  {
    hide IsSpace, Blank;
    var line := LineStart(text, code);
    if stmt > 0 {
      CutsAreNotSpace(text[stmt - 1]);
      if line < stmt {
        NotBlankAt(text[line..code], stmt - 1 - line);
      }
    }
  }

  /** The code start of the statement that ends at `i`. */
  lemma CodeIsClean(text: string, stmt: nat, i: nat, out: seq<Event>)
    requires stmt <= i < |text| && IsCut(text[i])
    requires At(text, stmt) == Machine(Code, "", out)
    requires After(Code, text[stmt..i]) == Code
    ensures var code := stmt + CodeStart(text[stmt..i], 0, false);
            && Blank(Strip(Code, text[stmt..code]))
            && !IsSpace(text[code])
            && Clean(text, code) && At(text, code).out == out
  {
    hide IsSpace, Blank, Strip, After, At, CodeStart;
    var raw := text[stmt..i];
    var code := stmt + CodeStart(raw, 0, false);
    CodeStartNeutral(raw);
    CutsAreNotSpace(text[i]);
    assert raw[..code - stmt] == text[stmt..code];
    GapIsClean(text, stmt, code, code, out);
  }

  lemma StartIsPlaced(text: string, i: nat, s: Scan, m: Mark, previous: int, out: seq<Event>)
    requires s.stmt <= i < |text| && IsCut(text[i]) && !m.CloseAt? && m.at == i && m.stmt == s.stmt
    requires s.stmt == 0 || IsCut(text[s.stmt - 1])
    requires previous < s.stmt
    requires At(text, s.stmt) == Machine(Code, "", out) && After(Code, text[s.stmt..i]) == Code
    requires var code := s.stmt + CodeStart(text[s.stmt..i], 0, false);
             m.start == code || m.start == BlockStart(text, code)
    ensures StartPlaced(text, m, previous, out)
  {
    hide IsSpace, Blank, Strip, After, At, CodeStart, LineStart;
    CodeIsClean(text, s.stmt, i, out);
    var code := s.stmt + CodeStart(text[s.stmt..i], 0, false);
    if m.start != code {
      BlockStartInGap(text, s.stmt, code);
      if m.start == s.stmt {
        StateAtBoundary(text, s.stmt);
      } else {
        LineStartInGap(text, s.stmt, m.start, code);
      }
      GapIsClean(text, s.stmt, m.start, code, out);
    }
  }

  lemma StateAtBoundary(text: string, stmt: nat)
    requires stmt <= |text|
    ensures After(Code, text[stmt..stmt]) == Code
  {
    assert text[stmt..stmt] == "";
  }

  lemma NewMarkIsPlaced(text: string, i: nat)
    requires i < |text| && |ScanTo(text, i + 1).marks| > |ScanTo(text, i).marks|
    requires forall k :: 0 <= k < |ScanTo(text, i).marks| ==> ScanTo(text, i).marks[k].at < ScanTo(text, i).stmt
    ensures Placed(text, ScanTo(text, i + 1).marks, |ScanTo(text, i).marks|)
  {
    hide IsSpace, Blank, Strip, After, CodeStart, LineStart, Trim, BlockStart, ScanTo, Run, StartPlaced;
    var s, t := ScanTo(text, i), ScanTo(text, i + 1);
    var k := |s.marks|;
    ScanUnfolds(text, i);
    ScanAgrees(text, i);
    ScanAgrees(text, i + 1);
    assert t.marks[..k] == s.marks;
    assert EventsOf(t.marks)[..k] == EventsOf(s.marks);
    assert EventsOf(t.marks)[..k + 1] == EventsOf(t.marks);
    if !t.marks[k].CloseAt? {
      StartIsPlaced(text, i, s, t.marks[k], if k == 0 then -1 else t.marks[k - 1].at, EventsOf(s.marks));
    }
  }

  lemma ScanUnfolds(text: string, i: nat)
    requires i < |text|
    ensures ScanTo(text, i + 1) == ScanStep(text, i, ScanTo(text, i))
  {
  }

  /** Every mark is placed, and all of them lie before the open statement. */
  lemma {:induction false} MarksArePlaced(text: string, i: nat)
    requires i <= |text|
    ensures forall k :: 0 <= k < |ScanTo(text, i).marks| ==>
              Placed(text, ScanTo(text, i).marks, k) && ScanTo(text, i).marks[k].at < ScanTo(text, i).stmt
  {
    hide ScanStep, Placed;
    if i > 0 {
      MarksArePlaced(text, i - 1);
      var s, t := ScanTo(text, i - 1), ScanTo(text, i);
      StepExtends(text, i - 1, s);
      if |t.marks| > |s.marks| {
        NewMarkIsPlaced(text, i - 1);
      }
      forall k | 0 <= k < |s.marks|
        ensures Placed(text, t.marks, k)
      {
        PlacedInPrefix(text, s.marks, t.marks, k);
      }
    }
  }

  lemma StepExtends(text: string, i: nat, s: Scan)
    requires i < |text| && s.stmt <= i
    ensures var t := ScanStep(text, i, s);
            && s.marks <= t.marks && |t.marks| <= |s.marks| + 1
            && s.stmt <= t.stmt
            && (|t.marks| > |s.marks| ==> t.marks[|s.marks|].at == i && t.stmt == i + 1)
  {
  }

  lemma PlacedInPrefix(text: string, short: seq<Mark>, long: seq<Mark>, k: nat)
    requires short <= long && k < |short| && Placed(text, short, k)
    ensures Placed(text, long, k)
  {
    hide StartPlaced, At;
    assert EventsOf(long)[..k] == EventsOf(short)[..k];
    assert EventsOf(long)[..k + 1] == EventsOf(short)[..k + 1];
    assert short[k] == long[k] && (k > 0 ==> short[k - 1] == long[k - 1]);
  }

  /* ---------------------------------------------------------------- the end of a removed block */

  predicate InlineSpace(c: char) { c == ' ' || c == '\t' || c == '\r' }

  function SkipInline(text: string, i: nat): (r: nat)
    requires i <= |text|
    ensures i <= r <= |text|
    ensures forall j :: i <= j < r ==> InlineSpace(text[j])
    ensures r < |text| ==> !InlineSpace(text[r])
    decreases |text| - i
  {
    if i < |text| && InlineSpace(text[i]) then SkipInline(text, i + 1) else i
  }

  /** The closing brace, the rest of its line when that is blank, and the newline. */
  function BlockEnd(text: string, close: nat): (r: nat)
    requires close < |text|
    ensures close < r <= |text|
  {
    var end := SkipInline(text, close + 1);
    if end < |text| && text[end] == '\n' then end + 1 else end
  }

  method BlockEndWithNewline(text: string, close: nat) returns (end: nat)
    requires close < |text|
    ensures end == BlockEnd(text, close)
  {
    end := close + 1;
    while end < |text| && (text[end] == ' ' || text[end] == '\t' || text[end] == '\r')
      invariant close < end <= |text|
      invariant SkipInline(text, close + 1) == SkipInline(text, end)
    {
      end := end + 1;
    }
    if end < |text| && text[end] == '\n' {
      end := end + 1;
    }
  }

  /** Only whitespace follows the brace, and a newline only as the last character. */
  lemma BlockEndIsBlank(text: string, close: nat)
    requires close < |text|
    ensures forall j :: close < j < BlockEnd(text, close) ==> IsSpace(text[j])
    ensures forall j :: close < j < BlockEnd(text, close) - 1 ==> text[j] != '\n'
  {
    var end := SkipInline(text, close + 1);
    assert forall j :: close < j < end ==> InlineSpace(text[j]);
  }

  lemma MarksAscend(text: string, marks: seq<Mark>, j: nat, k: nat)
    requires AllPlaced(text, marks)
    requires j < k < |marks|
    ensures marks[j].at < marks[k].at < |text|
  {
    hide StartPlaced, At;
    assert Placed(text, marks, k);
    if j < k - 1 {
      MarksAscend(text, marks, j, k - 1);
    }
  }

  lemma BlankRun(text: string, p: nat, q: nat)
    requires p <= q <= |text| && At(text, p).lex == Code && Blank(At(text, p).pending)
    requires forall j :: p <= j < q ==> IsSpace(text[j])
    ensures Clean(text, q) && At(text, q).out == At(text, p).out
    decreases q - p
  {
    hide IsSpace, At;
    if p < q {
      StepAt(text, p);
      SpaceStep(At(text, p), text[p]);
      BlankRun(text, p + 1, q);
    }
  }

  lemma SpaceStep(m: Machine, c: char)
    requires m.lex == Code && IsSpace(c) && Blank(m.pending)
    ensures Step(m, c).lex == Code && Step(m, c).out == m.out && Blank(Step(m, c).pending)
  {
    if IsCut(c) {
      CutsAreNotSpace(c);
    }
    BlankConcat(m.pending, [c]);
  }

  /** The text can be cut behind a removed block. */
  lemma BlockEndIsClean(text: string, marks: seq<Mark>, k: nat)
    requires k < |marks| && Placed(text, marks, k) && marks[k].CloseAt?
    ensures Clean(text, BlockEnd(text, marks[k].at))
    ensures At(text, BlockEnd(text, marks[k].at)).out == EventsOf(marks)[..k + 1]
  {
    hide IsSpace, At, BlockEnd;
    BlockEndIsBlank(text, marks[k].at);
    BlankRun(text, marks[k].at + 1, BlockEnd(text, marks[k].at));
  }

  /** A removal ends before the next event starts, so removals cannot overlap. */
  lemma BlockEndBeforeNext(text: string, marks: seq<Mark>, j: nat, k: nat)
    requires AllPlaced(text, marks)
    requires j < k < |marks| && marks[j].CloseAt? && marks[j].at < |text|
    ensures BlockEnd(text, marks[j].at) <= marks[k].at
    ensures !marks[k].CloseAt? ==> BlockEnd(text, marks[j].at) <= marks[k].start
  {
    hide IsSpace, At, BlockEnd, Clean, EventsOf;
    var close, end := marks[j].at, BlockEnd(text, marks[j].at);
    BlockEndIsBlank(text, close);
    MarksAscend(text, marks, j, k);
    assert Placed(text, marks, j) && Placed(text, marks, k);
    CutsAreNotSpace(text[marks[k].at]);
    if !marks[k].CloseAt? {
      if j < k - 1 {
        MarksAscend(text, marks, j, k - 1);
      }
      CutsAreNotSpace(text[marks[k].stmt - 1]);
    }
  }
}
