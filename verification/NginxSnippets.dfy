/** The fixed texts that the rewrite inserts, and the events they are read as. */
module NginxSnippets {
  import opened Text
  import opened NginxLexer
  import opened NginxEvents
  import opened NginxTree
  import opened NginxRules
  import Shlex

  /** Printable characters that neither the lexer nor shlex treats specially. */
  predicate SafeChar(c: char) {
    '!' <= c <= '~' && PlainChar(c) && c != '\\'
  }

  predicate SafeWord(w: string) {
    w != "" && forall i :: 0 <= i < |w| ==> SafeChar(w[i])
  }

  predicate SafeWords(ws: seq<string>) {
    ws != [] && forall i :: 0 <= i < |ws| ==> SafeWord(ws[i])
  }

  predicate SafeLines(lines: seq<seq<string>>) {
    forall i :: 0 <= i < |lines| ==> SafeWords(lines[i])
  }

  /** One directive a line. */
  function Lines(indent: string, lines: seq<seq<string>>): string
    requires SafeLines(lines)
  {
    if lines == [] then "" else indent + Shlex.Join(lines[0]) + ";\n" + Lines(indent, lines[1..])
  }

  function BlockText(indent: string, header: seq<string>, lines: seq<seq<string>>): string
    requires SafeWords(header) && SafeLines(lines)
  {
    indent + Shlex.Join(header) + " {\n" + Lines(indent + "    ", lines) + indent + "}\n"
  }

  function LeafTexts(lines: seq<seq<string>>): Forest
    requires SafeLines(lines)
  {
    if lines == [] then End else Directive(Shlex.Join(lines[0]), LeafTexts(lines[1..]))
  }

  const DIRECT_HEADER := ["location", "^~", "/v1/"]

  const DIRECT_LINES := [
    GATE_WORDS,
    ["proxy_pass", "http://sub2api_backend"],
    ["access_log", "off"],
    ["error_log", "/dev/null", "crit"],
    ["proxy_http_version", "1.1"],
    ["proxy_set_header", "Host", "$host"],
    ["proxy_set_header", "X-Real-IP", "$remote_addr"],
    ["proxy_set_header", "X-Forwarded-For", "$remote_addr"],
    ["proxy_set_header", "X-Forwarded-Proto", "https"],
    ["proxy_set_header", "X-Request-ID", "$request_id"],
    ["proxy_set_header", "Upgrade", "$http_upgrade"],
    ["proxy_set_header", "Connection", "$connection_upgrade"],
    ["proxy_buffering", "off"],
    ["proxy_request_buffering", "off"],
    ["proxy_cache", "off"],
    ["proxy_intercept_errors", "off"],
    ["proxy_connect_timeout", "5s"],
    ["proxy_read_timeout", "300s"],
    ["proxy_send_timeout", "300s"]
  ]

  const UPSTREAM_HEADER := ["upstream", "sub2api_backend"]

  const UPSTREAM_LINES := [
    ["include", "/etc/nginx/snippets/" + "sub2api-upstream-active.conf"],
    ["keepalive", "64"]
  ]

  lemma DirectIsSafe()
    ensures SafeLines(DIRECT_LINES) && SafeWords(DIRECT_HEADER)
  {
    GateIsSafe();
    LocationWordsAreSafe();
    LogWordsAreSafe();
    HeaderWordsAreSafe();
    VariablesAreSafe();
    UpgradeWordsAreSafe();
    BufferingWordsAreSafe();
    InterceptWordsAreSafe();
    TimeoutWordsAreSafe();
    MoreTimeoutWordsAreSafe();
    hide SafeWord;
    forall i | 0 <= i < |DIRECT_LINES|
      ensures SafeWords(DIRECT_LINES[i])
    {
      assert DIRECT_LINES[0] == GATE_WORDS;
    }
  }

  lemma LocationWordsAreSafe()
    ensures SafeWord("location") && SafeWord("^~") && SafeWord("/v1/")
    ensures SafeWord("proxy_pass") && SafeWord("http://sub2api_backend")
  {
  }

  lemma LogWordsAreSafe()
    ensures SafeWord("access_log") && SafeWord("off")
    ensures SafeWord("error_log") && SafeWord("/dev/null") && SafeWord("crit")
  {
  }

  lemma HeaderWordsAreSafe()
    ensures SafeWord("proxy_http_version") && SafeWord("1.1") && SafeWord("proxy_set_header")
    ensures SafeWord("Host") && SafeWord("X-Real-IP")
  {
  }

  lemma VariablesAreSafe()
    ensures SafeWord("X-Forwarded-For") && SafeWord("X-Forwarded-Proto") && SafeWord("X-Request-ID")
    ensures SafeWord("$host") && SafeWord("$remote_addr") && SafeWord("https")
  {
  }

  lemma UpgradeWordsAreSafe()
    ensures SafeWord("$request_id") && SafeWord("Upgrade") && SafeWord("$http_upgrade")
  {
  }

  lemma BufferingWordsAreSafe()
    ensures SafeWord("Connection") && SafeWord("$connection_upgrade") && SafeWord("proxy_buffering")
  {
  }

  lemma InterceptWordsAreSafe()
    ensures SafeWord("proxy_request_buffering") && SafeWord("proxy_cache")
    ensures SafeWord("5s") && SafeWord("300s")
  {
  }

  lemma TimeoutWordsAreSafe()
    ensures SafeWord("proxy_intercept_errors") && SafeWord("proxy_connect_timeout")
  {
  }

  lemma MoreTimeoutWordsAreSafe()
    ensures SafeWord("proxy_read_timeout") && SafeWord("proxy_send_timeout")
  {
  }

  lemma UpstreamIsSafe()
    ensures SafeLines(UPSTREAM_LINES) && SafeWords(UPSTREAM_HEADER)
  {
    PathIsSafe();
    UpstreamWordsAreSafe();
    hide SafeWord;
    assert SafeWords(UPSTREAM_LINES[0]);
    assert SafeWords(UPSTREAM_LINES[1]);
  }

  lemma PathIsSafe()
    ensures SafeWord("/etc/nginx/snippets/" + "sub2api-upstream-active.conf")
  {
    assert SafeWord("/etc/nginx/snippets/");
    assert SafeWord("sub2api-upstream-active.conf");
    SafeConcat("/etc/nginx/snippets/", "sub2api-upstream-active.conf");
  }

  lemma UpstreamWordsAreSafe()
    ensures SafeWord("include") && SafeWord("keepalive") && SafeWord("64")
    ensures SafeWord("upstream") && SafeWord("sub2api_backend")
  {
  }

  lemma SafeConcat(a: string, b: string)
    requires SafeWord(a) && SafeWord(b)
    ensures SafeWord(a + b)
  {
  }

  lemma GateIsSafe()
    ensures SafeWords(GATE_WORDS)
  {
    assert SafeWord("/etc/nginx/snippets/") && SafeWord("cloudflare-only.conf") && SafeWord("include");
    SafeConcat("/etc/nginx/snippets/", "cloudflare-only.conf");
    hide SafeWord;
  }

  /* ---------------------------------------------------------------- what the snippets are read as */

  lemma SafeWordIsPlain(w: string)
    requires SafeWord(w)
    ensures Shlex.PlainWord(w) && Plain(w) && !IsSpace(w[0]) && !IsSpace(w[|w| - 1])
  {
    assert SafeChar(w[0]) && SafeChar(w[|w| - 1]);
  }

  lemma {:induction false} JoinIsPlain(ws: seq<string>)
    requires SafeWords(ws)
    ensures Shlex.PlainWords(ws)
    ensures var j := Shlex.Join(ws); j != "" && Plain(j) && !IsSpace(j[0]) && !IsSpace(j[|j| - 1])
  {
    hide SafeWord, IsSpace;
    forall i | 0 <= i < |ws|
      ensures Shlex.PlainWord(ws[i])
    {
      SafeWordIsPlain(ws[i]);
    }
    SafeWordIsPlain(ws[|ws| - 1]);
    if |ws| > 1 {
      JoinIsPlain(ws[..|ws| - 1]);
    }
  }

  /** Whitespace around a text that neither starts nor ends with whitespace is trimmed away. */
  lemma TrimAround(w: string, s: string, v: string)
    requires Blank(w) && Blank(v) && s != "" && !IsSpace(s[0]) && !IsSpace(s[|s| - 1])
    ensures Trim(w + s + v) == s
  {
    hide IsSpace;
    assert w + s + v == w + (s + v);
    TrimLeftBlankPrefix(w, s + v);
    assert TrimLeft(s + v) == s + v by { assert (s + v)[0] == s[0]; }
    TrimRightBlankSuffix(s, v);
  }

  predicate Indent(s: string) {
    forall i :: 0 <= i < |s| ==> s[i] == ' ' || s[i] == '\t'
  }

  lemma IndentIsBlank(s: string)
    requires Indent(s)
    ensures Blank(s) && Plain(s)
  {
  }

  lemma RunCut(m: Machine, c: char)
    ensures Run(m, [c]) == Step(m, c)
  {
    hide Step;
    assert [c][..0] == "";
  }

  /** Plain text up to a cutting character. */
  lemma RunPlainThen(p: string, out: seq<Event>, s: string, c: char)
    requires Plain(s)
    ensures Run(Machine(Code, p, out), s + [c]) == Step(Machine(Code, p + s, out), c)
  {
    hide Step, Run;
    RunConcat(Machine(Code, p, out), s, [c]);
    RunPlain(Machine(Code, p, out), s);
    RunCut(Machine(Code, p + s, out), c);
  }

  lemma PlainConcat(a: string, b: string)
    requires Plain(a) && Plain(b)
    ensures Plain(a + b)
  {
  }

  lemma StepStatement(p: string, out: seq<Event>)
    requires !Blank(p)
    ensures Step(Machine(Code, p, out), ';') == Machine(Code, "", out + [Statement(Trim(p))])
  {
    hide Blank, Trim;
  }

  lemma StepBraces(p: string, out: seq<Event>)
    ensures Step(Machine(Code, p, out), '{') == Machine(Code, "", out + [Open(Trim(p))])
    ensures Step(Machine(Code, p, out), '}') == Machine(Code, "", out + [Close])
  {
    hide Blank, Trim;
  }

  lemma StepNewline(out: seq<Event>)
    ensures Run(Machine(Code, "", out), "\n") == Machine(Code, "\n", out)
  {
    hide Blank, Trim;
    RunCut(Machine(Code, "", out), '\n');
    assert "" + ['\n'] == "\n";
  }

  lemma RunLine(p: string, out: seq<Event>, indent: string, ws: seq<string>)
    requires Blank(p) && Indent(indent) && SafeWords(ws)
    ensures Run(Machine(Code, p, out), indent + Shlex.Join(ws) + ";\n")
         == Machine(Code, "\n", out + [Statement(Shlex.Join(ws))])
  {
    hide Blank, Run, Step, Trim, Shlex.Join, SafeWord, Plain;
    var j := Shlex.Join(ws);
    JoinIsPlain(ws);
    IndentIsBlank(indent);
    PlainConcat(indent, j);
    BlankConcat(p, indent);
    EmptyIsBlank();
    TrimAround(p + indent, j, "");
    NotBlank(p + indent, j);
    assert p + (indent + j) == p + indent + j + "";
    RunPlainThen(p, out, indent + j, ';');
    StepStatement(p + (indent + j), out);
    StepNewline(out + [Statement(j)]);
    RunConcat(Machine(Code, p, out), indent + j + [';'], "\n");
    assert indent + j + ";\n" == (indent + j + [';']) + "\n";
  }

  lemma EmptyIsBlank()
    ensures Blank("")
  {
  }

  lemma NotBlank(a: string, b: string)
    requires b != "" && !IsSpace(b[0])
    ensures !Blank(a + b + "")
  {
    hide IsSpace;
    assert (a + b + "")[|a|] == b[0];
  }

  lemma {:induction false} RunLines(p: string, out: seq<Event>, indent: string, lines: seq<seq<string>>)
    requires Blank(p) && Indent(indent) && SafeLines(lines)
    ensures var r := Run(Machine(Code, p, out), Lines(indent, lines));
            r.lex == Code && Blank(r.pending) && r.out == out + Flatten(LeafTexts(lines))
    decreases |lines|
  {
    hide IsSpace, Run, Shlex.Join, SafeWord, Indent;
    if lines == [] {
      RunNothing(Machine(Code, p, out));
      assert out + [] == out;
    } else {
      var s := Statement(Shlex.Join(lines[0]));
      RunLine(p, out, indent, lines[0]);
      NewlineIsBlank();
      RunLines("\n", out + [s], indent, lines[1..]);
      RunConcat(Machine(Code, p, out), indent + Shlex.Join(lines[0]) + ";\n", Lines(indent, lines[1..]));
      assert (out + [s]) + Flatten(LeafTexts(lines[1..])) == out + ([s] + Flatten(LeafTexts(lines[1..])));
    }
  }

  lemma NewlineIsBlank()
    ensures Blank("\n")
  {
  }

  lemma RunNothing(m: Machine)
    ensures Run(m, "") == m
  {
  }

  function HeaderAfter(p: string, indent: string, header: seq<string>): string
    requires SafeWords(header)
  {
    Trim(p + indent + Shlex.Join(header) + " ")
  }

  /** A snippet is read as one block, whatever unfinished text `p` stands before it; with blank `p`
      its header is exactly the snippet's. */
  lemma RunBlock(p: string, indent: string, header: seq<string>, lines: seq<seq<string>>)
    requires Indent(indent) && SafeWords(header) && SafeLines(lines)
    ensures var r := Run(Machine(Code, p, []), BlockText(indent, header, lines));
            && r.lex == Code && Blank(r.pending)
            && r.out == Flatten(Block(HeaderAfter(p, indent, header), LeafTexts(lines), End))
    ensures Blank(p) ==> HeaderAfter(p, indent, header) == Shlex.Join(header)
    ensures HeaderAfter(p, indent, header) != ""
  {
    hide IsSpace, Run, Shlex.Join, SafeWord, Plain, Indent, Lines, LeafTexts;
    hide Step, Trim, Blank, HeaderAfter, BlockText;
    var j, inner, h := Shlex.Join(header), indent + "    ", HeaderAfter(p, indent, header);
    JoinIsPlain(header);
    IndentIsBlank(indent);
    IndentMore(indent);
    HeaderFacts(p, indent, header);
    HeaderLine(p, indent, header);
    NewlineIsBlank();
    RunLines("\n", [Open(h)], inner, lines);
    var m := Run(Machine(Code, "\n", [Open(h)]), Lines(inner, lines));
    ClosingLine(m, indent);
    BlockTextPieces(indent, header, lines);
    RunConcat(Machine(Code, p, []), indent + j + " {\n", Lines(inner, lines) + (indent + "}\n"));
    RunConcat(Machine(Code, "\n", [Open(h)]), Lines(inner, lines), indent + "}\n");
    BlockEventsEnd(h, LeafTexts(lines));
  }

  lemma BlockEventsEnd(h: string, kids: Forest)
    ensures ([Open(h)] + Flatten(kids)) + [Close] == Flatten(Block(h, kids, End))
  {
  }

  lemma HeaderLine(p: string, indent: string, header: seq<string>)
    requires Indent(indent) && SafeWords(header)
    ensures Run(Machine(Code, p, []), indent + Shlex.Join(header) + " {\n")
         == Machine(Code, "\n", [Open(HeaderAfter(p, indent, header))])
  {
    hide Blank, Run, Step, Trim, Shlex.Join, SafeWord, Plain;
    var j := Shlex.Join(header);
    JoinIsPlain(header);
    IndentIsBlank(indent);
    IndentMore(indent);
    PlainConcat(indent, j);
    PlainConcat(indent + j, " ");
    RunPlainThen(p, [], indent + j + " ", '{');
    assert p + (indent + j + " ") == p + indent + j + " ";
    StepBraces(p + indent + j + " ", []);
    var h := HeaderAfter(p, indent, header);
    assert [] + [Open(h)] == [Open(h)];
    StepNewline([Open(h)]);
    RunConcat(Machine(Code, p, []), indent + j + " " + ['{'], "\n");
    assert indent + j + " {\n" == (indent + j + " " + ['{']) + "\n";
  }

  lemma ClosingLine(m: Machine, indent: string)
    requires m.lex == Code && Indent(indent)
    ensures Run(m, indent + "}\n") == Machine(Code, "\n", m.out + [Close])
  {
    hide Blank, Run, Step, Trim, Plain;
    IndentIsBlank(indent);
    RunPlainThen(m.pending, m.out, indent, '}');
    StepBraces(m.pending + indent, m.out);
    StepNewline(m.out + [Close]);
    RunConcat(m, indent + ['}'], "\n");
    assert indent + "}\n" == (indent + ['}']) + "\n";
  }

  lemma IndentMore(indent: string)
    requires Indent(indent)
    ensures Indent(indent + "    ") && Plain(" ")
  {
  }

  lemma HeaderFacts(p: string, indent: string, header: seq<string>)
    requires SafeWords(header) && Blank(indent)
    ensures Blank(p) ==> HeaderAfter(p, indent, header) == Shlex.Join(header)
    ensures HeaderAfter(p, indent, header) != ""
  {
    hide IsSpace, Shlex.Join, SafeWord, Trim;
    var j := Shlex.Join(header);
    JoinIsPlain(header);
    BlankConcat(p, indent);
    if Blank(p) {
      SpaceIsBlank();
      TrimAround(p + indent, j, " ");
    }
    BlankConcat(p + indent + j, " ");
    BlankConcat(p + indent, j);
    assert !Blank(j);
  }

  lemma SpaceIsBlank()
    ensures Blank(" ")
  {
  }

  lemma BlockTextPieces(indent: string, header: seq<string>, lines: seq<seq<string>>)
    requires SafeWords(header) && SafeLines(lines)
    ensures BlockText(indent, header, lines)
         == (indent + Shlex.Join(header) + " {\n") + (Lines(indent + "    ", lines) + (indent + "}\n"))
  {
    hide Shlex.Join, Lines, SafeWord;
  }
}
