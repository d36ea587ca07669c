/** A configuration as a stream of statement events, and where each event stands in the text.

    parse_config cuts the text at every `;`, `{` and `}` of plain code. `Run` is that cutting with the
    offsets left out; `ScanTo` keeps the offsets as the source computes them. */
module NginxEvents {
  import opened Text
  import opened NginxLexer

  datatype Event = Open(header: string) | Statement(text: string) | Close

  /** The lexer state, the comment-free text of the unfinished statement, and the events so far. */
  datatype Machine = Machine(lex: Lex, pending: string, out: seq<Event>)

  const INIT := Machine(Code, "", [])

  function Step(m: Machine, c: char): Machine {
    if m.lex != Code then Machine(Next(m.lex, c), m.pending + Kept(m.lex, c), m.out)
    else if c == ';' then Machine(Code, "", if Blank(m.pending) then m.out else m.out + [Statement(Trim(m.pending))])
    else if c == '{' then Machine(Code, "", m.out + [Open(Trim(m.pending))])
    else if c == '}' then Machine(Code, "", m.out + [Close])
    else Machine(Next(Code, c), m.pending + Kept(Code, c), m.out)
  }

  function Run(m: Machine, s: string): Machine {
    if s == "" then m else Step(Run(m, s[..|s| - 1]), s[|s| - 1])
  }

  lemma {:induction false} RunConcat(m: Machine, a: string, b: string)
    ensures Run(m, a + b) == Run(Run(m, a), b)
  {
    if b == "" {
      assert a + b == a;
    } else {
      RunConcat(m, a, b[..|b| - 1]);
      assert (a + b)[..|a + b| - 1] == a + b[..|b| - 1];
    }
  }

  /** Earlier events do not influence later ones. */
  lemma {:induction false} RunShift(m: Machine, s: string)
    ensures Run(m, s) == var r := Run(m.(out := []), s); r.(out := m.out + r.out)
  {
    hide Step;
    if s == "" {
      assert m.out + [] == m.out;
    } else {
      RunShift(m, s[..|s| - 1]);
      StepShift(m.out, Run(m.(out := []), s[..|s| - 1]), s[|s| - 1]);
    }
  }

  lemma StepShift(before: seq<Event>, r: Machine, c: char)
    ensures Step(r.(out := before + r.out), c) == var t := Step(r, c); t.(out := before + t.out)
  {
    hide Trim, Blank;
    assert forall e :: before + (r.out + [e]) == (before + r.out) + [e];
  }

  /** Two machines that differ at most by a blank beginning of the unfinished statement. */
  predicate SameUpToBlank(a: Machine, b: Machine, w: string) {
    && a.lex == b.lex && a.out == b.out
    && (a.pending == b.pending || a.pending == w + b.pending)
  }

  lemma StepBlankPending(a: Machine, b: Machine, w: string, c: char)
    requires Blank(w) && SameUpToBlank(a, b, w)
    ensures SameUpToBlank(Step(a, c), Step(b, c), w)
  {
    hide Trim, Blank;
    if a.pending != b.pending {
      TrimBlankPrefix(w, b.pending);
      var k := Kept(b.lex, c);
      assert w + (b.pending + k) == (w + b.pending) + k;
    }
  }

  /** A blank beginning of the unfinished statement is invisible to every later event. */
  lemma {:induction false} RunBlankPending(a: Machine, b: Machine, w: string, s: string)
    requires Blank(w) && SameUpToBlank(a, b, w)
    ensures SameUpToBlank(Run(a, s), Run(b, s), w)
  {
    if s != "" {
      RunBlankPending(a, b, w, s[..|s| - 1]);
      StepBlankPending(Run(a, s[..|s| - 1]), Run(b, s[..|s| - 1]), w, s[|s| - 1]);
    }
  }

  /** Text without quotes, comments, braces or semicolons only extends the unfinished statement. */
  predicate PlainChar(c: char) {
    c != '"' && c != '\'' && c != '#' && c != ';' && c != '{' && c != '}'
  }

  predicate Plain(s: string) {
    forall i :: 0 <= i < |s| ==> PlainChar(s[i])
  }

  lemma {:induction false} RunPlain(m: Machine, s: string)
    requires m.lex == Code && Plain(s)
    ensures Run(m, s) == m.(pending := m.pending + s)
  {
    if s == "" {
      assert m.pending + s == m.pending;
    } else {
      var p, c := s[..|s| - 1], s[|s| - 1];
      RunPlain(m, p);
      assert m.pending + p + [c] == m.pending + s;
    }
  }

  /* ---------------------------------------------------------------- offsets */

  /** An event with the start of its statement, its own start and its terminating character. */
  datatype Mark =
    | OpenAt(header: string, stmt: nat, start: nat, at: nat)
    | StatementAt(text: string, stmt: nat, start: nat, at: nat)
    | CloseAt(at: nat)

  function EventOf(m: Mark): Event {
    match m
    case OpenAt(header, _, _, _) => Open(header)
    case StatementAt(text, _, _, _) => Statement(text)
    case CloseAt(_) => Close
  }

  function EventsOf(ms: seq<Mark>): (r: seq<Event>)
    ensures |r| == |ms|
    ensures forall k :: 0 <= k < |ms| ==> r[k] == EventOf(ms[k])
  {
    seq(|ms|, k requires 0 <= k < |ms| => EventOf(ms[k]))
  }

  /** `text.rfind("\n", 0, p) + 1`. */
  function LineStart(text: string, p: nat): (r: nat)
    requires p <= |text|
    ensures r <= p
    ensures r == 0 || text[r - 1] == '\n'
    ensures forall i :: r <= i < p ==> text[i] != '\n'
  {
    if p == 0 || text[p - 1] == '\n' then p else LineStart(text, p - 1)
  }

  /** A block starts at its line when only whitespace stands before it there. */
  function BlockStart(text: string, code: nat): (r: nat)
    requires code <= |text|
    ensures r <= code
  {
    var line := LineStart(text, code);
    if Blank(text[line..code]) then line else code
  }

  datatype Scan = Scan(lex: Lex, stmt: nat, marks: seq<Mark>)

  function ScanTo(text: string, i: nat): (r: Scan)
    requires i <= |text|
    ensures r.stmt <= i
  {
    if i == 0 then Scan(Code, 0, []) else ScanStep(text, i - 1, ScanTo(text, i - 1))
  }

  function ScanStep(text: string, i: nat, s: Scan): (r: Scan)
    requires i < |text| && s.stmt <= i
    ensures r.stmt <= i + 1
  {
    var c := text[i];
    if s.lex != Code || (c != ';' && c != '{' && c != '}') then s.(lex := Next(s.lex, c))
    else
      var raw := text[s.stmt..i];
      var cleaned := Trim(Strip(Code, raw));
      var code := s.stmt + CodeStart(raw, 0, false);
      var marks :=
        if c == ';' then (if cleaned == "" then [] else [StatementAt(cleaned, s.stmt, code, i)])
        else if c == '{' then [OpenAt(cleaned, s.stmt, BlockStart(text, code), i)]
        else [CloseAt(i)];
      Scan(Code, i + 1, s.marks + marks)
  }

  /** The scan with offsets produces the same events from the same states. */
  ghost predicate Agree(text: string, i: nat, s: Scan, m: Machine)
    requires i <= |text| && s.stmt <= i
  {
    && s.lex == m.lex
    && After(Code, text[s.stmt..i]) == s.lex
    && m.pending == Strip(Code, text[s.stmt..i])
    && m.out == EventsOf(s.marks)
    && Run(INIT, text[..s.stmt]) == Machine(Code, "", m.out)
    && (s.stmt == 0 || text[s.stmt - 1] in {';', '{', '}'})
  }

  lemma AgreeInside(text: string, i: nat, s: Scan, m: Machine)
    requires i < |text| && s.stmt <= i && Agree(text, i, s, m)
    requires s.lex != Code || text[i] !in {';', '{', '}'}
    ensures Agree(text, i + 1, ScanStep(text, i, s), Step(m, text[i]))
  {
    hide Trim, Blank, CodeStart, BlockStart, Run;
    assert text[s.stmt..i + 1][..i - s.stmt] == text[s.stmt..i];
  }

  lemma AgreeAtCut(text: string, i: nat, s: Scan, m: Machine)
    requires i < |text| && s.stmt <= i && Agree(text, i, s, m)
    requires s.lex == Code && text[i] in {';', '{', '}'}
    requires Run(INIT, text[..i + 1]) == Step(m, text[i])
    ensures Agree(text, i + 1, ScanStep(text, i, s), Step(m, text[i]))
  {
    hide Trim, Blank, CodeStart, BlockStart, Run, EventsOf;
    var t := ScanStep(text, i, s);
    assert text[i + 1..i + 1] == "";
    if text[i] == ';' && Blank(m.pending) {
      assert t.marks == s.marks;
    } else {
      assert |t.marks| == |s.marks| + 1 && t.marks == s.marks + [t.marks[|s.marks|]];
      EventsSnoc(s.marks, t.marks[|s.marks|]);
    }
  }

  lemma EventsSnoc(ms: seq<Mark>, m: Mark)
    ensures EventsOf(ms + [m]) == EventsOf(ms) + [EventOf(m)]
  {
  }

  lemma AgreeAtStart(text: string)
    ensures Agree(text, 0, ScanTo(text, 0), Run(INIT, text[..0]))
  {
    assert text[0..0] == "" && text[..0] == "";
  }

  lemma OneCharacter(text: string, i: nat)
    requires i < |text|
    ensures Run(INIT, text[..i + 1]) == Step(Run(INIT, text[..i]), text[i])
    ensures ScanTo(text, i + 1) == ScanStep(text, i, ScanTo(text, i))
  {
    hide Step, ScanStep;
    assert text[..i + 1][..i] == text[..i];
  }

  lemma {:induction false} ScanAgrees(text: string, i: nat)
    requires i <= |text|
    ensures Agree(text, i, ScanTo(text, i), Run(INIT, text[..i]))
  {
    hide *;
    if i == 0 {
      AgreeAtStart(text);
    } else {
      ScanAgrees(text, i - 1);
      var s := ScanTo(text, i - 1);
      OneCharacter(text, i - 1);
      if s.lex != Code || text[i - 1] !in {';', '{', '}'} {
        AgreeInside(text, i - 1, s, Run(INIT, text[..i - 1]));
      } else {
        AgreeAtCut(text, i - 1, s, Run(INIT, text[..i - 1]));
      }
    }
  }
}
