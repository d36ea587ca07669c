/** The inserted location passes the review that the final verification makes of it. */
module NginxDirect {
  import opened Text
  import opened NginxLexer
  import opened NginxRules
  import opened NginxSnippets
  import opened NginxRewrite
  import opened NginxInserted
  import opened NginxMarkers
  import Shlex

  /* ---------------------------------------------------------------- what must be there */

  lemma OccursIn(a: string, word: string, b: string)
    ensures Contains(a + word + b, word)
  {
    assert OccursAt(a + word + b, word, |a|);
  }

  lemma OccursAround(a: string, s: string, b: string, word: string)
    requires Contains(s, word)
    ensures Contains(a + s + b, word)
  {
    var i :| 0 <= i <= |s| && OccursAt(s, word, i);
    assert (a + s + b)[|a| + i..|a| + i + |word|] == s[i..i + |word|];
    assert OccursAt(a + s + b, word, |a| + i);
  }

  lemma {:induction false} LineIsIn(indent: string, lines: seq<seq<string>>, k: nat)
    requires SafeLines(lines) && k < |lines|
    ensures SafeWords(lines[k]) && Contains(Lines(indent, lines), Shlex.Join(lines[k]) + ";")
  {
    hide Contains, Shlex.Join, SafeWord;
    var line := Shlex.Join(lines[0]) + ";";
    var rest := Lines(indent, lines[1..]);
    assert Lines(indent, lines) == indent + line + ("\n" + rest);
    if k == 0 {
      OccursIn(indent, line, "\n" + rest);
    } else {
      LineIsIn(indent, lines[1..], k - 1);
      OccursAround(indent + line + "\n", rest, "", Shlex.Join(lines[k]) + ";");
      assert Lines(indent, lines) == (indent + line + "\n") + rest + "";
    }
  }

  lemma JoinTwo(a: string, b: string)
    ensures Shlex.Join([a, b]) == a + " " + b
  {
    assert [a, b][..1] == [a];
    assert Shlex.Join([a]) == a;
  }

  lemma JoinThree(a: string, b: string, c: string)
    ensures Shlex.Join([a, b, c]) == a + " " + b + " " + c
  {
    assert [a, b, c][..2] == [a, b];
    JoinTwo(a, b);
  }

  lemma ProxyLines()
    ensures Shlex.Join(["proxy_pass", "http://sub2api_backend"]) + ";" == "proxy_pass http://sub2api_backend;"
    ensures Shlex.Join(["access_log", "off"]) + ";" == "access_log off;"
  {
    JoinTwo("proxy_pass", "http://sub2api_backend");
    JoinTwo("access_log", "off");
  }

  lemma ErrorLines()
    ensures Shlex.Join(["error_log", "/dev/null", "crit"]) + ";" == "error_log /dev/null crit;"
    ensures Shlex.Join(["proxy_intercept_errors", "off"]) + ";" == "proxy_intercept_errors off;"
  {
    JoinThree("error_log", "/dev/null", "crit");
    JoinTwo("proxy_intercept_errors", "off");
  }

  lemma BufferLine()
    ensures Shlex.Join(["proxy_request_buffering", "off"]) + ";" == "proxy_request_buffering off;"
  {
    JoinTwo("proxy_request_buffering", "off");
  }

  lemma ConnectionLine()
    ensures Shlex.Join(["proxy_set_header", "Connection", "$connection_upgrade"]) + ";"
         == "proxy_set_header Connection $connection_upgrade;"
  {
    JoinThree("proxy_set_header", "Connection", "$connection_upgrade");
  }

  /** Where the required lines stand among the lines of the location. */
  lemma RequiredLine(i: nat) returns (k: nat)
    requires i < |REQUIRED_V1|
    ensures k < |DIRECT_LINES| && DIRECT_LINES[k] != [] && REQUIRED_V1[i] == Shlex.Join(DIRECT_LINES[k]) + ";"
  {
    hide Shlex.Join;
    ProxyLines();
    ErrorLines();
    BufferLine();
    ConnectionLine();
    k := [1, 2, 3, 13, 11, 15][i];
  }

  /* ---------------------------------------------------------------- what must not be there */

  /** Two neighbouring characters of which every refused word has a pair. */
  predicate Meets(a: char, b: char) {
    var (x, y) := (LowerChar(a), LowerChar(b));
    || (x == 'm' && y == 'i') || (x == '2' && y == '1') || (x == 'e' && y == 'w') || (x == 't' && y == 'u') || (x == 'b' && y == 'y')
  }

  predicate Clean(s: string) { forall i :: 0 <= i < |s| - 1 ==> !Meets(s[i], s[i + 1]) }

  predicate AllClean(words: seq<string>) { forall i :: 0 <= i < |words| ==> Clean(words[i]) && words[i] != "" }

  predicate CleanLines(lines: seq<seq<string>>) { forall i :: 0 <= i < |lines| ==> lines[i] != [] && AllClean(lines[i]) }

  predicate Neutral(c: char) { c == ' ' || c == ';' || c == '\n' }

  /** Text around a blank or a semicolon. */
  lemma CleanAround(a: string, c: char, b: string)
    requires Clean(a) && Clean(b) && Neutral(c)
    ensures Clean(a + [c] + b)
  {
    var s := a + [c] + b;
    forall i | 0 <= i < |s| - 1
      ensures !Meets(s[i], s[i + 1])
    {
      if i + 1 < |a| {
        assert !Meets(a[i], a[i + 1]);
      } else if i > |a| {
        assert !Meets(b[i - |a| - 1], b[i - |a|]);
      }
    }
  }

  lemma {:induction false} CleanJoin(words: seq<string>)
    requires AllClean(words) && words != []
    ensures Clean(Shlex.Join(words))
  {
    hide Clean;
    if |words| == 1 {
      assert Shlex.Join(words) == words[0];
    } else {
      var n := |words| - 1;
      CleanJoin(words[..n]);
      CleanAround(Shlex.Join(words[..n]), ' ', words[n]);
      assert Shlex.Join(words) == Shlex.Join(words[..n]) + [' '] + words[n];
    }
  }

  lemma NothingIsClean()
    ensures Clean("")
  {
  }

  lemma {:induction false} CleanText(lines: seq<seq<string>>)
    requires SafeLines(lines) && CleanLines(lines)
    ensures Clean(Lines("        ", lines))
  {
    hide Clean, Shlex.Join, AllClean, SafeWords;
    if lines == [] {
      NothingIsClean();
    } else {
      var j, rest := Shlex.Join(lines[0]), Lines("        ", lines[1..]);
      CleanText(lines[1..]);
      CleanJoin(lines[0]);
      SevenSpaces();
      CleanAround("       ", ' ', j);
      NothingIsClean();
      CleanAround("       " + [' '] + j, ';', "");
      CleanAround("       " + [' '] + j + [';'] + "", '\n', rest);
      assert "        " == "       " + [' '];
      assert Lines("        ", lines) == "       " + [' '] + j + [';'] + "" + ['\n'] + rest;
    }
  }

  lemma SevenSpaces()
    ensures Clean("       ")
  {
  }

  /** A word with such a pair is not in clean text, in either case. */
  lemma NotInClean(s: string, word: string, k: nat)
    requires Clean(s) && k + 1 < |word| && Meets(word[k], word[k + 1])
    ensures !Contains(Lower(s), word)
  {
    forall i
      ensures !OccursAt(Lower(s), word, i)
    {
      NotAt(s, word, k, i);
    }
  }

  lemma NotAt(s: string, word: string, k: nat, i: int)
    requires Clean(s) && k + 1 < |word| && Meets(word[k], word[k + 1])
    ensures !OccursAt(Lower(s), word, i)
  {
    var t := Lower(s);
    if 0 <= i && i + |word| <= |s| {
      LowerTwice(s[i + k]);
      LowerTwice(s[i + k + 1]);
      assert !Meets(t[i + k], t[i + k + 1]);
      if t[i + k] == word[k] {
        DiffersAt(t, word, i, k + 1);
      } else {
        DiffersAt(t, word, i, k);
      }
    }
  }

  lemma DiffersAt(s: string, word: string, i: int, k: nat)
    requires k < |word| && 0 <= i && i + |word| <= |s| && s[i + k] != word[k]
    ensures !OccursAt(s, word, i)
  {
    assert s[i..i + |word|][k] == s[i + k];
  }

  lemma LowerTwice(c: char)
    ensures LowerChar(LowerChar(c)) == LowerChar(c)
  {
  }

  lemma RefusedMeet()
    ensures Meets("mirror"[0], "mirror"[1]) && Meets("3021"[2], "3021"[3])
    ensures Meets("response-preview"[14], "response-preview"[15]) && Meets("response_preview"[14], "response_preview"[15])
    ensures Meets("request-capture"[11], "request-capture"[12]) && Meets("request_capture"[11], "request_capture"[12])
    ensures Meets("body_filter_by_lua"[12], "body_filter_by_lua"[13]) && Meets("log_by_lua"[4], "log_by_lua"[5])
    ensures Meets("/capture"[4], "/capture"[5]) && Meets("_capture"[4], "_capture"[5])
  {
  }

  lemma CleanHasNoMarker(s: string)
    requires Clean(s)
    ensures !Contains(Lower(s), "mirror") && !Contains(Lower(s), "3021") && !HasMarker(Lower(s))
  {
    RefusedMeet();
    hide Clean, Meets, Contains, Lower;
    NotInClean(s, "mirror", 0);
    NotInClean(s, "3021", 2);
    var where := [14, 14, 11, 11, 12, 4, 4, 4];
    forall i | 0 <= i < |CAPTURE_MARKERS|
      ensures !Contains(Lower(s), CAPTURE_MARKERS[i])
    {
      NotInClean(s, CAPTURE_MARKERS[i], where[i]);
    }
  }

  /** The characters, one of each pair, do not occur in either case. */
  predicate Lacks(s: string, a: char, b: char, c: char, d: char, e: char) {
    forall i :: 0 <= i < |s| ==> Other(LowerChar(s[i]), a, b, c, d, e)
  }

  predicate Other(x: char, a: char, b: char, c: char, d: char, e: char) { x != a && x != b && x != c && x != d && x != e }

  lemma LackingIsClean(s: string, a: char, b: char, c: char, d: char, e: char)
    requires Lacks(s, a, b, c, d, e)
    requires (a == 'm' || a == 'i') && (b == '2' || b == '1') && (c == 'e' || c == 'w') && (d == 't' || d == 'u') && (e == 'b' || e == 'y')
    ensures Clean(s)
  {
    forall i | 0 <= i < |s| - 1
      ensures !Meets(s[i], s[i + 1])
    {
      assert Other(LowerChar(s[i]), a, b, c, d, e) && Other(LowerChar(s[i + 1]), a, b, c, d, e);
    }
  }

  /** Pieces that do not meet. */
  lemma CleanBeside(a: string, b: string)
    requires Clean(a) && Clean(b) && a != "" && b != "" && !Meets(a[|a| - 1], b[0])
    ensures Clean(a + b)
  {
    var s := a + b;
    forall i | 0 <= i < |s| - 1
      ensures !Meets(s[i], s[i + 1])
    {
      if i + 1 < |a| {
        assert !Meets(a[i], a[i + 1]);
      } else if i >= |a| {
        assert !Meets(b[i - |a|], b[i - |a| + 1]);
      }
    }
  }

  lemma GateWordsAreClean()
    ensures AllClean(GATE_WORDS)
  {
    IncludeIsClean();
    PathIsClean();
    hide Clean;
    assert GATE_WORDS == ["include", "/etc/nginx/snippets/" + "cloudflare-only.conf"];
  }

  lemma IncludeIsClean()
    ensures Clean("include")
  {
    hide Clean, Meets;
    LackingIsClean("include", 'm', '2', 'w', 't', 'b');
  }

  lemma PathIsClean()
    ensures Clean("/etc/nginx/snippets/" + "cloudflare-only.conf")
  {
    var a, b := "/etc/nginx/snippets/", "cloudflare-only.conf";
    assert !Meets(a[|a| - 1], b[0]);
    hide Clean, Meets;
    LackingIsClean(a, 'm', '2', 'w', 'u', 'b');
    LackingIsClean(b, 'm', '2', 'w', 't', 'b');
    CleanBeside(a, b);
  }

  lemma ProxyWordsAreClean()
    ensures Clean("proxy_pass") && Clean("access_log") && Clean("off")
  {
    hide Clean, Meets;
    LackingIsClean("proxy_pass", 'm', '2', 'e', 't', 'b');
    LackingIsClean("access_log", 'm', '2', 'w', 't', 'b');
    LackingIsClean("off", 'm', '2', 'e', 't', 'b');
  }

  lemma LogWordsAreClean()
    ensures Clean("error_log") && Clean("/dev/null") && Clean("crit")
  {
    hide Clean, Meets;
    LackingIsClean("error_log", 'm', '2', 'w', 't', 'b');
    LackingIsClean("/dev/null", 'm', '2', 'w', 't', 'b');
    LackingIsClean("crit", 'm', '2', 'e', 'u', 'b');
  }

  lemma VersionWordsAreClean()
    ensures Clean("proxy_http_version") && Clean("1.1") && Clean("5s") && Clean("300s")
  {
    hide Clean, Meets;
    LackingIsClean("proxy_http_version", 'm', '2', 'w', 'u', 'b');
    LackingIsClean("1.1", 'm', '2', 'e', 't', 'b');
    LackingIsClean("5s", 'm', '2', 'e', 't', 'b');
    LackingIsClean("300s", 'm', '2', 'e', 't', 'b');
  }

  lemma HeaderWordsAreClean()
    ensures Clean("proxy_set_header") && Clean("Host") && Clean("$host")
  {
    hide Clean, Meets;
    LackingIsClean("proxy_set_header", 'm', '2', 'w', 'u', 'b');
    LackingIsClean("Host", 'm', '2', 'e', 'u', 'b');
    LackingIsClean("$host", 'm', '2', 'e', 'u', 'b');
  }

  lemma AddressWordsAreClean()
    ensures Clean("X-Real-IP") && Clean("$remote_addr") && Clean("https")
  {
    hide Clean, Meets;
    LackingIsClean("X-Real-IP", 'm', '2', 'w', 't', 'b');
    LackingIsClean("$remote_addr", 'i', '2', 'w', 'u', 'b');
    LackingIsClean("https", 'm', '2', 'e', 'u', 'b');
  }

  lemma ConnectionWordsAreClean()
    ensures Clean("Upgrade") && Clean("Connection")
  {
    hide Clean, Meets;
    LackingIsClean("Upgrade", 'm', '2', 'w', 't', 'b');
    LackingIsClean("Connection", 'm', '2', 'w', 'u', 'b');
  }

  lemma CacheWordsAreClean()
    ensures Clean("proxy_cache") && Clean("proxy_intercept_errors")
  {
    hide Clean, Meets;
    LackingIsClean("proxy_cache", 'm', '2', 'w', 't', 'b');
    LackingIsClean("proxy_intercept_errors", 'm', '2', 'w', 'u', 'b');
  }

  lemma BackendIsClean()
    ensures Clean("http://sub2api_backend")
  {
    var a, b := "http://", "sub2api_backend";
    assert !Meets(a[|a| - 1], b[0]) && a + b == "http://sub2api_backend";
    hide Clean, Meets;
    LackingIsClean(a, 'm', '2', 'e', 'u', 'b');
    LackingIsClean(b, 'm', '1', 'w', 't', 'y');
    CleanBeside(a, b);
  }

  lemma ForwardedForIsClean()
    ensures Clean("X-Forwarded-For")
  {
    var a, b := "X-Forw", "arded-For";
    assert !Meets(a[|a| - 1], b[0]) && a + b == "X-Forwarded-For";
    hide Clean, Meets;
    LackingIsClean(a, 'm', '2', 'e', 't', 'b');
    LackingIsClean(b, 'm', '2', 'w', 't', 'b');
    CleanBeside(a, b);
  }

  lemma ForwardedProtoIsClean()
    ensures Clean("X-Forwarded-Proto")
  {
    var a, b := "X-Forw", "arded-Proto";
    assert !Meets(a[|a| - 1], b[0]) && a + b == "X-Forwarded-Proto";
    hide Clean, Meets;
    LackingIsClean(a, 'm', '2', 'e', 't', 'b');
    LackingIsClean(b, 'm', '2', 'w', 'u', 'b');
    CleanBeside(a, b);
  }

  lemma RequestIdIsClean()
    ensures Clean("X-Request-ID")
  {
    var a, b := "X-Requ", "est-ID";
    assert !Meets(a[|a| - 1], b[0]) && a + b == "X-Request-ID";
    hide Clean, Meets;
    LackingIsClean(a, 'm', '2', 'w', 't', 'b');
    LackingIsClean(b, 'm', '2', 'w', 'u', 'b');
    CleanBeside(a, b);
  }

  lemma RequestVariableIsClean()
    ensures Clean("$request_id")
  {
    var a, b := "$requ", "est_id";
    assert !Meets(a[|a| - 1], b[0]) && a + b == "$request_id";
    hide Clean, Meets;
    LackingIsClean(a, 'm', '2', 'w', 't', 'b');
    LackingIsClean(b, 'm', '2', 'w', 'u', 'b');
    CleanBeside(a, b);
  }

  lemma HttpUpgradeIsClean()
    ensures Clean("$http_upgrade")
  {
    var a, b := "$http_", "upgrade";
    assert !Meets(a[|a| - 1], b[0]) && a + b == "$http_upgrade";
    hide Clean, Meets;
    LackingIsClean(a, 'm', '2', 'e', 'u', 'b');
    LackingIsClean(b, 'm', '2', 'w', 't', 'b');
    CleanBeside(a, b);
  }

  lemma ConnectionUpgradeIsClean()
    ensures Clean("$connection_upgrade")
  {
    var a, b := "$connection_", "upgrade";
    assert !Meets(a[|a| - 1], b[0]) && a + b == "$connection_upgrade";
    hide Clean, Meets;
    LackingIsClean(a, 'm', '2', 'w', 'u', 'b');
    LackingIsClean(b, 'm', '2', 'w', 't', 'b');
    CleanBeside(a, b);
  }

  lemma BufferingIsClean()
    ensures Clean("proxy_buffering")
  {
    var a, b := "proxy_", "buffering";
    assert !Meets(a[|a| - 1], b[0]) && a + b == "proxy_buffering";
    hide Clean, Meets;
    LackingIsClean(a, 'm', '2', 'e', 't', 'b');
    LackingIsClean(b, 'm', '2', 'w', 't', 'y');
    CleanBeside(a, b);
  }

  lemma RequestBufferingIsClean()
    ensures Clean("proxy_request_buffering")
  {
    var a, b, c := "proxy_requ", "est_", "buffering";
    assert !Meets(a[|a| - 1], b[0]) && !Meets(b[|b| - 1], c[0]) && a + b + c == "proxy_request_buffering";
    hide Clean, Meets;
    LackingIsClean(a, 'm', '2', 'w', 't', 'b');
    LackingIsClean(b, 'm', '2', 'w', 'u', 'b');
    LackingIsClean(c, 'm', '2', 'w', 't', 'y');
    CleanBeside(a, b);
    CleanBeside(a + b, c);
  }

  lemma ConnectTimeoutIsClean()
    ensures Clean("proxy_connect_timeout")
  {
    var a, b, c := "proxy_connect_ti", "meou", "t";
    assert !Meets(a[|a| - 1], b[0]) && !Meets(b[|b| - 1], c[0]) && a + b + c == "proxy_connect_timeout";
    hide Clean, Meets;
    LackingIsClean(a, 'm', '2', 'w', 'u', 'b');
    LackingIsClean(b, 'i', '2', 'w', 't', 'b');
    LackingIsClean(c, 'm', '2', 'e', 'u', 'b');
    CleanBeside(a, b);
    CleanBeside(a + b, c);
  }

  lemma ReadTimeoutIsClean()
    ensures Clean("proxy_read_timeout")
  {
    var a, b, c := "proxy_read_ti", "meou", "t";
    assert !Meets(a[|a| - 1], b[0]) && !Meets(b[|b| - 1], c[0]) && a + b + c == "proxy_read_timeout";
    hide Clean, Meets;
    LackingIsClean(a, 'm', '2', 'w', 'u', 'b');
    LackingIsClean(b, 'i', '2', 'w', 't', 'b');
    LackingIsClean(c, 'm', '2', 'e', 'u', 'b');
    CleanBeside(a, b);
    CleanBeside(a + b, c);
  }

  lemma SendTimeoutIsClean()
    ensures Clean("proxy_send_timeout")
  {
    var a, b, c := "proxy_send_ti", "meou", "t";
    assert !Meets(a[|a| - 1], b[0]) && !Meets(b[|b| - 1], c[0]) && a + b + c == "proxy_send_timeout";
    hide Clean, Meets;
    LackingIsClean(a, 'm', '2', 'w', 'u', 'b');
    LackingIsClean(b, 'i', '2', 'w', 't', 'b');
    LackingIsClean(c, 'm', '2', 'e', 'u', 'b');
    CleanBeside(a, b);
    CleanBeside(a + b, c);
  }

  lemma DirectIsClean()
    ensures CleanLines(DIRECT_LINES)
  {
    GateWordsAreClean();
    ProxyWordsAreClean();
    LogWordsAreClean();
    VersionWordsAreClean();
    HeaderWordsAreClean();
    AddressWordsAreClean();
    ConnectionWordsAreClean();
    CacheWordsAreClean();
    BackendIsClean();
    ForwardedForIsClean();
    ForwardedProtoIsClean();
    RequestIdIsClean();
    RequestVariableIsClean();
    HttpUpgradeIsClean();
    ConnectionUpgradeIsClean();
    BufferingIsClean();
    RequestBufferingIsClean();
    ConnectTimeoutIsClean();
    ReadTimeoutIsClean();
    SendTimeoutIsClean();
    hide Clean;
    forall i | 0 <= i < |DIRECT_LINES|
      ensures DIRECT_LINES[i] != [] && AllClean(DIRECT_LINES[i])
    {
      assert DIRECT_LINES[0] == GATE_WORDS;
    }
  }

  /** The inserted location is what the verification calls the reviewed direct proxy. */
  lemma DirectIsReviewed()
    ensures ReviewedV1Body(DIRECT_RAW)
  {
    hide Contains, Lines, Shlex.Join, Clean, CleanLines, SafeLines, SafeWords, HasMarker, DIRECT_LINES, REQUIRED_V1;
    DirectIsSafe();
    DirectIsClean();
    CleanText(DIRECT_LINES);
    var text := Lines("        ", DIRECT_LINES);
    ThreeSpaces();
    NothingIsClean();
    CleanAround("", '\n', text);
    CleanAround("" + ['\n'] + text, ' ', "   ");
    assert DIRECT_RAW == "" + ['\n'] + text + [' '] + "   ";
    CleanHasNoMarker(DIRECT_RAW);
    HasRequired(text);
  }

  lemma ThreeSpaces()
    ensures Clean("   ")
  {
  }

  lemma HasRequired(text: string)
    requires SafeLines(DIRECT_LINES) && text == Lines("        ", DIRECT_LINES)
    ensures forall i | 0 <= i < |REQUIRED_V1| :: Contains("\n" + text + "    ", REQUIRED_V1[i])
  {
    hide Contains, Lines, Shlex.Join, SafeLines;
    hide DIRECT_LINES, REQUIRED_V1;
    forall i | 0 <= i < |REQUIRED_V1|
      ensures Contains("\n" + text + "    ", REQUIRED_V1[i])
    {
      var k := RequiredLine(i);
      LineIsIn("        ", DIRECT_LINES, k);
      OccursAround("\n", text, "    ", REQUIRED_V1[i]);
    }
  }
}
