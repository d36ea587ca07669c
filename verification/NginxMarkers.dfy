/** The gate include brings no capture marker into a location's text. */
module NginxMarkers {
  import opened Text
  import opened NginxLexer
  import opened NginxRules
  import opened NginxSplice
  import opened NginxSnippets
  import opened NginxParser
  import opened NginxRewrite
  import Shlex

  /** None of these characters is in the include, and every marker but one has one of the first four. */
  predicate Telling(c: char) { c == 'm' || c == '_' || c == 'v' || c == 'q' || 'A' <= c <= 'Z' }

  predicate Quiet(s: string) { forall i :: 0 <= i < |s| ==> !Telling(s[i]) }

  lemma QuietConcat(a: string, b: string)
    requires Quiet(a) && Quiet(b)
    ensures Quiet(a + b)
  {
    hide Telling;
  }

  const PATH_HEAD := "/etc/nginx/snippets/"
  const PATH_TAIL := "cloudflare-only.conf"

  lemma GateTextIs()
    ensures GATE_TEXT == "include" + " " + (PATH_HEAD + PATH_TAIL)
  {
    GateIsSafe();
    var ws := ["include", PATH_HEAD + PATH_TAIL];
    assert GATE_WORDS == ws;
    assert ws[..1] == ["include"];
    assert Shlex.Join(["include"]) == "include";
    assert Shlex.Join(ws) == Shlex.Join(ws[..1]) + " " + ws[1];
  }

  /** The text that GateOf inserts. */
  function GatePut(indentation: string, newline: string): string {
    "\n" + indentation + "    " + GATE_TEXT + ";" + newline
  }

  predicate NoSlash(s: string) { forall i :: 0 <= i < |s| ==> s[i] != '/' }

  function Front(indentation: string): string { "\n" + indentation + "    " + "include" + " " }

  lemma PutIs(indentation: string, newline: string)
    requires Indent(indentation) && (newline == "" || newline == "\n")
    ensures GatePut(indentation, newline) == Front(indentation) + PATH_HEAD + PATH_TAIL + (";" + newline)
    ensures Quiet(GatePut(indentation, newline)) && NoSlash(Front(indentation))
  {
    PiecesAreQuiet(indentation, newline);
    hide Quiet, NoSlash;
    PutIsQuiet(indentation, newline);
    FrontHasNoSlash(indentation);
    hide PATH_HEAD, PATH_TAIL;
    GateTextIs();
    Assembled("\n" + indentation + "    ", "include", " ", PATH_HEAD, PATH_TAIL, ";", newline);
  }

  lemma FrontHasNoSlash(indentation: string)
    requires Indent(indentation)
    ensures NoSlash(Front(indentation))
  {
    assert NoSlash("include") && NoSlash(indentation);
  }

  lemma PiecesAreQuiet(indentation: string, newline: string)
    requires Indent(indentation) && (newline == "" || newline == "\n")
    ensures Quiet("\n") && Quiet(indentation) && Quiet("    ") && Quiet("include") && Quiet(" ") && Quiet(";") && Quiet(newline)
    ensures Quiet(PATH_HEAD) && Quiet(PATH_TAIL)
  {
  }

  lemma PutIsQuiet(indentation: string, newline: string)
    requires Quiet("\n") && Quiet(indentation) && Quiet("    ") && Quiet("include") && Quiet(" ") && Quiet(";") && Quiet(newline)
    requires Quiet(PATH_HEAD) && Quiet(PATH_TAIL)
    ensures Quiet(GatePut(indentation, newline))
  {
    hide Quiet, PATH_HEAD, PATH_TAIL;
    GateTextIs();
    QuietConcat(PATH_HEAD, PATH_TAIL);
    QuietConcat("include", " ");
    QuietConcat("include" + " ", PATH_HEAD + PATH_TAIL);
    QuietConcat("\n", indentation);
    QuietConcat("\n" + indentation, "    ");
    QuietConcat("\n" + indentation + "    ", GATE_TEXT);
    QuietConcat("\n" + indentation + "    " + GATE_TEXT, ";");
    QuietConcat("\n" + indentation + "    " + GATE_TEXT + ";", newline);
  }

  lemma Assembled(a: string, b: string, c: string, d: string, e: string, f: string, g: string)
    ensures a + (b + c + (d + e)) + f + g == (a + b + c) + d + e + (f + g)
  {
  }

  /** `/capture` is not in the include: the only slash before a `c` is followed by `cl`. */
  lemma NoCapture(indentation: string, newline: string, i: int)
    requires Indent(indentation) && (newline == "" || newline == "\n")
    ensures !OccursAt(GatePut(indentation, newline), "/capture", i)
  {
    PutIs(indentation, newline);
    var s, n := GatePut(indentation, newline), |Front(indentation)|;
    if OccursAt(s, "/capture", i) {
      CharAt(s, "/capture", i, 0);
      CharAt(s, "/capture", i, 1);
      CharAt(s, "/capture", i, 2);
      SlashInHead(Front(indentation), newline, i);
    }
  }

  lemma SlashInHead(front: string, newline: string, i: int)
    requires NoSlash(front) && (newline == "" || newline == "\n")
    requires var s := front + PATH_HEAD + PATH_TAIL + (";" + newline);
             0 <= i && i + 2 < |s| && s[i] == '/' && s[i + 1] == 'c'
    ensures var s := front + PATH_HEAD + PATH_TAIL + (";" + newline); s[i + 2] == 'l'
  {
    var s := front + PATH_HEAD + PATH_TAIL + (";" + newline);
    var n := |front|;
    assert NoSlash(PATH_TAIL) && NoSlash(";" + newline);
    assert i >= n && i < n + 20;
    assert s[i] == PATH_HEAD[i - n];
    assert s[i + 1] == (PATH_HEAD + PATH_TAIL)[i + 1 - n];
    assert i == n + 19;
    assert s[i + 1] == PATH_TAIL[0] && s[i + 2] == PATH_TAIL[1];
  }

  lemma LowerConcat(a: string, b: string)
    ensures Lower(a + b) == Lower(a) + Lower(b)
  {
  }

  lemma QuietIsLower(s: string)
    requires Quiet(s)
    ensures Lower(s) == s
  {
  }

  /** Text behind a complete line or statement is searched as if it stood alone. */
  lemma NoStraddle(put: string, body: string, word: string)
    requires put != "" && (put[|put| - 1] == ';' || put[|put| - 1] == '\n')
    requires word != "" && forall k :: 0 <= k < |word| ==> word[k] != ';' && word[k] != '\n'
    requires forall i :: !OccursAt(put, word, i)
    ensures Contains(put + body, word) <==> Contains(body, word)
  {
    var s, n := put + body, |put|;
    if Contains(body, word) {
      var i :| 0 <= i <= |body| && OccursAt(body, word, i);
      OccursBehind(put, body, word, i);
    }
    if Contains(s, word) {
      var i :| 0 <= i <= |s| && OccursAt(s, word, i);
      Where(put, body, word, i);
    }
  }

  lemma Where(put: string, body: string, word: string, i: int)
    requires put != "" && (put[|put| - 1] == ';' || put[|put| - 1] == '\n')
    requires word != "" && forall k :: 0 <= k < |word| ==> word[k] != ';' && word[k] != '\n'
    requires forall i :: !OccursAt(put, word, i)
    requires OccursAt(put + body, word, i)
    ensures Contains(body, word)
  {
    var s, n := put + body, |put|;
    if i + |word| <= n {
      OccursInFront(put, body, word, i);
    } else if i < n {
      CharAt(s, word, i, n - 1 - i);
    }
    assert i >= n;
    OccursBehind(put, body, word, i - n);
  }

  lemma CharAt(s: string, word: string, i: int, k: nat)
    requires OccursAt(s, word, i) && k < |word|
    ensures 0 <= i + k < |s| && s[i + k] == word[k]
  {
    assert s[i..i + |word|][k] == word[k];
  }

  lemma OccursInFront(put: string, body: string, word: string, i: int)
    requires 0 <= i && i + |word| <= |put|
    ensures OccursAt(put + body, word, i) <==> OccursAt(put, word, i)
  {
    assert put[i..i + |word|] == (put + body)[i..i + |word|];
  }

  lemma OccursBehind(put: string, body: string, word: string, i: int)
    requires 0 <= i
    ensures OccursAt(put + body, word, |put| + i) <==> OccursAt(body, word, i)
  {
    if i + |word| <= |body| {
      assert body[i..i + |word|] == (put + body)[|put| + i..|put| + i + |word|];
    }
  }

  /** A word with a telling character is not in quiet text. */
  lemma NotInQuiet(s: string, word: string, k: nat, i: int)
    requires Quiet(s) && k < |word| && Telling(word[k])
    ensures !OccursAt(s, word, i)
  {
    if OccursAt(s, word, i) {
      CharAt(s, word, i, k);
    }
  }

  predicate Searched(word: string) {
    word != "" && forall k :: 0 <= k < |word| ==> word[k] != ';' && word[k] != '\n'
  }

  lemma SameSearch(indentation: string, newline: string, body: string, word: string, k: nat)
    requires Indent(indentation) && (newline == "" || newline == "\n")
    requires Searched(word) && k < |word| && (Telling(word[k]) || word == "/capture")
    ensures var put := GatePut(indentation, newline);
            Contains(Lower(put + body), word) <==> Contains(Lower(body), word)
  {
    hide Contains, OccursAt, Quiet, Telling;
    var put := GatePut(indentation, newline);
    PutIs(indentation, newline);
    QuietIsLower(put);
    LowerConcat(put, body);
    forall i
      ensures !OccursAt(put, word, i)
    {
      if Telling(word[k]) {
        NotInQuiet(put, word, k, i);
      } else {
        NoCapture(indentation, newline, i);
      }
    }
    assert put[|put| - 1] == if newline == "" then ';' else '\n';
    NoStraddle(put, Lower(body), word);
  }

  lemma WordsAreSearched()
    ensures Searched("mirror") && Telling("mirror"[0])
    ensures Searched("response-preview") && Telling("response-preview"[12])
    ensures Searched("response_preview") && Telling("response_preview"[8])
    ensures Searched("request-capture") && Telling("request-capture"[2])
    ensures Searched("request_capture") && Telling("request_capture"[2])
  {
  }

  lemma MoreWordsAreSearched()
    ensures Searched("body_filter_by_lua") && Telling("body_filter_by_lua"[4])
    ensures Searched("log_by_lua") && Telling("log_by_lua"[3])
    ensures Searched("/capture") && Searched("_capture") && Telling("_capture"[0])
  {
  }

  /** The include neither adds nor hides a marker. */
  lemma SameMarkers(indentation: string, newline: string, body: string)
    requires Indent(indentation) && (newline == "" || newline == "\n")
    ensures var put := GatePut(indentation, newline);
            && (Contains(Lower(put + body), "mirror") <==> Contains(Lower(body), "mirror"))
            && (HasMarker(Lower(put + body)) <==> HasMarker(Lower(body)))
  {
    hide Contains, Indent, Telling, Searched;
    WordsAreSearched();
    MoreWordsAreSearched();
    hide GatePut;
    SameSearch(indentation, newline, body, "mirror", 0);
    var where := [12, 8, 2, 2, 4, 3, 0, 0];
    forall i | 0 <= i < |CAPTURE_MARKERS|
      ensures Contains(Lower(GatePut(indentation, newline) + body), CAPTURE_MARKERS[i])
         <==> Contains(Lower(body), CAPTURE_MARKERS[i])
    {
      SameSearch(indentation, newline, body, CAPTURE_MARKERS[i], where[i]);
    }
  }
}
