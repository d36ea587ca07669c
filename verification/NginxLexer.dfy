/** The character-level lexer that every scan in deploy/install-nginx-direct-v1.py runs:
    a quote with escapes, a `#` comment up to the end of the line, or plain code. */
module NginxLexer {
  import opened Text

  datatype Lex = Code | Quote(mark: char, escaped: bool) | Comment

  function Next(l: Lex, c: char): Lex {
    match l
    case Comment => if c == '\n' then Code else Comment
    case Quote(mark, escaped) =>
      if escaped then Quote(mark, false)
      else if c == '\\' then Quote(mark, true)
      else if c == mark then Code
      else l
    case Code =>
      if c == '"' || c == '\'' then Quote(c, false)
      else if c == '#' then Comment
      else Code
  }

  /** What strip_comments keeps of one character. */
  function Kept(l: Lex, c: char): string {
    match l
    case Comment => if c == '\n' then [c] else ""
    case Quote(_, _) => [c]
    case Code => if c == '#' then "" else [c]
  }

  function After(l: Lex, s: string): Lex {
    if s == "" then l else Next(After(l, s[..|s| - 1]), s[|s| - 1])
  }

  function Strip(l: Lex, s: string): string {
    if s == "" then ""
    else Strip(l, s[..|s| - 1]) + Kept(After(l, s[..|s| - 1]), s[|s| - 1])
  }

  lemma {:induction false} AfterConcat(l: Lex, a: string, b: string)
    ensures After(l, a + b) == After(After(l, a), b)
  {
    if b == "" {
      assert a + b == a;
    } else {
      AfterConcat(l, a, b[..|b| - 1]);
      assert (a + b)[..|a + b| - 1] == a + b[..|b| - 1];
    }
  }

  /** Stripping distributes over every cut, the second part starting in the state the first leaves. */
  lemma {:induction false} StripConcat(l: Lex, a: string, b: string)
    ensures Strip(l, a + b) == Strip(l, a) + Strip(After(l, a), b)
  {
    if b == "" {
      assert a + b == a;
    } else {
      StripConcat(l, a, b[..|b| - 1]);
      AfterConcat(l, a, b[..|b| - 1]);
      assert (a + b)[..|a + b| - 1] == a + b[..|b| - 1];
    }
  }

  /** At a neutral cut both halves are stripped as if each stood alone. */
  lemma StripAtNeutralCut(a: string, b: string)
    requires After(Code, a) == Code
    ensures Strip(Code, a + b) == Strip(Code, a) + Strip(Code, b)
  {
    StripConcat(Code, a, b);
  }

  /** Stripped text holds no comment, so stripping is idempotent. */
  lemma {:induction false} StripIdempotent(s: string)
    ensures After(Code, Strip(Code, s)) == if After(Code, s) == Comment then Code else After(Code, s)
    ensures Strip(Code, Strip(Code, s)) == Strip(Code, s)
  {
    if s != "" {
      var p, c := s[..|s| - 1], s[|s| - 1];
      StripIdempotent(p);
      var k := Kept(After(Code, p), c);
      if k == "" {
        assert Strip(Code, s) == Strip(Code, p);
      } else {
        assert Strip(Code, s) == Strip(Code, p) + [c];
        assert Strip(Code, s)[..|Strip(Code, s)| - 1] == Strip(Code, p);
      }
    }
  }

  method StripComments(value: string) returns (output: string)
    ensures output == Strip(Code, value)
  {
    output := "";
    var quote: Option<char> := None;
    var escaped, comment := false, false;
    for i := 0 to |value|
      invariant output == Strip(Code, value[..i])
      invariant After(Code, value[..i]) == Flags(quote, escaped, comment)
      invariant (comment ==> quote.None?) && (quote.None? ==> !escaped)
    {
      var character := value[i];
      assert value[..i + 1][..i] == value[..i];
      if comment {
        if character == '\n' {
          output := output + [character];
          comment := false;
        }
      } else if quote.Some? {
        output := output + [character];
        if escaped {
          escaped := false;
        } else if character == '\\' {
          escaped := true;
        } else if character == quote.value {
          quote := None;
        }
      } else if character == '"' || character == '\'' {
        quote := Some(character);
        output := output + [character];
      } else if character == '#' {
        comment := true;
      } else {
        output := output + [character];
      }
    }
    assert value[..|value|] == value;
  }

  /** The lexer state held in the three variables of the source's loops. */
  function Flags(quote: Option<char>, escaped: bool, comment: bool): Lex {
    if comment then Comment
    else if quote.Some? then Quote(quote.value, escaped)
    else Code
  }

  /** The offset of the first code character, or the length of `raw` when there is none.
      A quote character already counts as code, so the scan never enters a quote. */
  function CodeStart(raw: string, i: nat, comment: bool): (r: nat)
    requires i <= |raw|
    ensures i <= r <= |raw|
    ensures r < |raw| ==> !IsSpace(raw[r])
    decreases |raw| - i
  {
    if i == |raw| then i
    else if comment then CodeStart(raw, i + 1, raw[i] != '\n')
    else if raw[i] == '#' then CodeStart(raw, i + 1, true)
    else if IsSpace(raw[i]) then CodeStart(raw, i + 1, false)
    else i
  }

  method FindCodeStart(raw: string) returns (offset: nat)
    ensures offset == CodeStart(raw, 0, false)
  {
    var comment := false;
    offset := 0;
    while offset < |raw|
      invariant offset <= |raw|
      invariant CodeStart(raw, 0, false) == CodeStart(raw, offset, comment)
    {
      var character := raw[offset];
      if comment {
        if character == '\n' {
          comment := false;
        }
      } else if character == '#' {
        comment := true;
      } else if !IsSpace(character) {
        return;
      }
      offset := offset + 1;
    }
  }

  /** Only whitespace and comments precede the code start, and it is a neutral position. */
  lemma {:induction false} CodeStartIsNeutral(raw: string, i: nat, comment: bool)
    requires i <= |raw|
    requires After(Code, raw[..i]) == if comment then Comment else Code
    requires Blank(Strip(Code, raw[..i]))
    ensures var r := CodeStart(raw, i, comment);
            && After(Code, raw[..r]) in {Code, Comment}
            && (r < |raw| ==> After(Code, raw[..r]) == Code && !IsSpace(raw[r]) && raw[r] != '#')
            && Blank(Strip(Code, raw[..r]))
    decreases |raw| - i
  {
    if i < |raw| && (comment || raw[i] == '#' || IsSpace(raw[i])) {
      assert raw[..i + 1][..i] == raw[..i];
      BlankConcat(Strip(Code, raw[..i]), Kept(After(Code, raw[..i]), raw[i]));
      CodeStartIsNeutral(raw, i + 1, if comment then raw[i] != '\n' else raw[i] == '#');
    }
  }

  lemma CodeStartNeutral(raw: string)
    ensures var r := CodeStart(raw, 0, false);
            && (r < |raw| ==> After(Code, raw[..r]) == Code && !IsSpace(raw[r]) && raw[r] != '#')
            && Blank(Strip(Code, raw[..r]))
  {
    hide IsSpace, CodeStart;
    assert raw[..0] == "";
    CodeStartIsNeutral(raw, 0, false);
  }

  /** A blank prefix of a gap stays in plain code or a comment: it opens no quote. */
  lemma {:induction false} BlankStripHasNoQuote(s: string)
    requires Blank(Strip(Code, s))
    ensures !After(Code, s).Quote?
  {
    if s != "" {
      var p, c := s[..|s| - 1], s[|s| - 1];
      BlankConcat(Strip(Code, p), Kept(After(Code, p), c));
      BlankStripHasNoQuote(p);
      assert After(Code, p) == Code && c != '#' ==> Kept(After(Code, p), c)[0] == c;
    }
  }

  lemma {:induction false} StripKeepsFirst(s: string)
    requires s != "" && s[0] != '#'
    ensures Strip(Code, s) != "" && Strip(Code, s)[0] == s[0]
  {
    var p := s[..|s| - 1];
    if p == "" {
      assert Strip(Code, p) == "" && After(Code, p) == Code;
    } else {
      StripKeepsFirst(p);
    }
  }

  lemma CodeIsNotBlank(a: string, b: string)
    requires After(Code, a) == Code
    requires b != "" && b[0] != '#' && !IsSpace(b[0])
    ensures !Blank(Strip(Code, a + b))
  {
    StripAtNeutralCut(a, b);
    StripKeepsFirst(b);
    BlankConcat(Strip(Code, a), Strip(Code, b));
  }

  /** The code start is the end of `raw` exactly when nothing but comments and whitespace is there. */
  lemma CodeStartFindsCode(raw: string)
    ensures CodeStart(raw, 0, false) == |raw| <==> Blank(Strip(Code, raw))
  {
    hide IsSpace, Strip, After, CodeStart, Blank;
    CodeStartNeutral(raw);
    var r := CodeStart(raw, 0, false);
    if r < |raw| {
      CodeIsNotBlank(raw[..r], raw[r..]);
      assert raw[..r] + raw[r..] == raw;
    } else {
      assert raw[..r] == raw;
    }
  }
}
