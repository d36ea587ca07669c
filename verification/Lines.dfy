/** Text as lines that keep their line feeds, as `str.splitlines(keepends=True)` gives them when "\n" is
    the only line separator. */
module Lines {
  import opened Text

  /** The length of the first line, its line feed included. */
  function FirstLine(text: string): (n: nat)
    requires text != ""
    ensures 0 < n <= |text|
    ensures forall i :: 0 <= i < n - 1 ==> text[i] != '\n'
    ensures n < |text| ==> text[n - 1] == '\n'
  {
    if text[0] == '\n' || |text| == 1 then 1 else 1 + FirstLine(text[1..])
  }

  function SplitLines(text: string): seq<string> {
    if text == "" then [] else [text[..FirstLine(text)]] + SplitLines(text[FirstLine(text)..])
  }

  function Join(lines: seq<string>): string {
    if lines == [] then "" else lines[0] + Join(lines[1..])
  }

  /** A line feed ends a line and occurs nowhere else in it. */
  predicate IsLine(line: string) {
    line != "" && forall i :: 0 <= i < |line| - 1 ==> line[i] != '\n'
  }

  predicate EndsLine(line: string) { line != "" && line[|line| - 1] == '\n' }

  /** Every line ends with a line feed, except that the last may lack it. */
  predicate AreLines(lines: seq<string>) {
    && (forall i :: 0 <= i < |lines| ==> IsLine(lines[i]))
    && (forall i :: 0 <= i < |lines| - 1 ==> EndsLine(lines[i]))
  }

  lemma {:induction false} FirstLineOf(line: string, rest: string)
    requires IsLine(line) && (rest == "" || EndsLine(line))
    ensures FirstLine(line + rest) == |line|
    decreases |line|
  {
    if |line| > 1 {
      assert (line + rest)[1..] == line[1..] + rest;
      FirstLineOf(line[1..], rest);
    }
  }

  lemma {:induction false} SplitJoin(lines: seq<string>)
    requires AreLines(lines)
    ensures SplitLines(Join(lines)) == lines
  {
    hide FirstLine;
    if lines != [] {
      var rest := Join(lines[1..]);
      if |lines| == 1 {
        assert lines[1..] == [];
      }
      TailAreLines(lines);
      SplitJoin(lines[1..]);
      FirstLineOf(lines[0], rest);
      assert (lines[0] + rest)[..|lines[0]|] == lines[0];
      assert (lines[0] + rest)[|lines[0]|..] == rest;
    }
  }

  lemma TailAreLines(lines: seq<string>)
    requires AreLines(lines) && lines != []
    ensures AreLines(lines[1..])
  {
    hide IsLine, EndsLine;
    forall i | 0 <= i < |lines[1..]|
      ensures IsLine(lines[1..][i]) && (i < |lines[1..]| - 1 ==> EndsLine(lines[1..][i]))
    {
      assert lines[1..][i] == lines[i + 1];
    }
  }

  lemma {:induction false} JoinSplit(text: string)
    ensures Join(SplitLines(text)) == text
    ensures AreLines(SplitLines(text))
  {
    if text != "" {
      var n := FirstLine(text);
      JoinSplit(text[n..]);
      assert text == text[..n] + text[n..];
      FirstIsLine(text);
      LinesCons(text[..n], SplitLines(text[n..]));
      hide AreLines, FirstLine;
      assert SplitLines(text)[1..] == SplitLines(text[n..]);
    }
  }

  lemma FirstIsLine(text: string)
    requires text != ""
    ensures var n := FirstLine(text); IsLine(text[..n]) && (text[n..] != "" ==> EndsLine(text[..n]))
  {
  }

  lemma LinesCons(line: string, lines: seq<string>)
    requires IsLine(line) && AreLines(lines) && (lines != [] ==> EndsLine(line))
    ensures AreLines([line] + lines)
  {
    hide IsLine, EndsLine;
  }

  lemma {:induction false} JoinConcat(a: seq<string>, b: seq<string>)
    ensures Join(a + b) == Join(a) + Join(b)
  {
    if a == [] {
      assert a + b == b;
    } else {
      assert (a + b)[1..] == a[1..] + b;
      JoinConcat(a[1..], b);
    }
  }

  /** `line.rstrip("\n")`, `line[:-1] if line.endswith("\n") else line`. */
  function Bare(line: string): string {
    if EndsLine(line) then line[..|line| - 1] else line
  }

  lemma ReplaceLines(a: seq<string>, b: seq<string>, c: seq<string>, put: seq<string>)
    requires AreLines(a + b + c) && b != [] && put != []
    requires AreLines(put) && EndsLine(put[|put| - 1])
    ensures AreLines(a + put + c)
  {
    hide IsLine, EndsLine;
    var was, now := a + b + c, a + put + c;
    forall i | 0 <= i < |now|
      ensures IsLine(now[i]) && (i < |now| - 1 ==> EndsLine(now[i]))
    {
      if i < |a| {
        assert now[i] == was[i];
      } else if i < |a| + |put| {
        assert now[i] == put[i - |a|];
      } else {
        assert now[i] == was[i - |put| + |b|];
      }
    }
  }
}
