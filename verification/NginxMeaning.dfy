/** What rewrite_direct_v1 does, said of tokens and raw text alone: which server, which of its children go,
    which stay, and what is added. The predicates of this module use none of the source's tests. */
module NginxMeaning {
  import opened Text
  import opened NginxLexer
  import opened NginxEvents
  import opened NginxOffsets
  import opened NginxTree
  import opened NginxParser
  import opened NginxParserTree
  import opened NginxLists
  import opened NginxTreeEdit
  import opened NginxRules
  import opened NginxSplice
  import opened NginxSnippets
  import opened NginxRewrite
  import opened NginxCommute
  import opened NginxStages
  import opened NginxGates
  import opened NginxTheorem
  import opened NginxResult
  import opened NginxIdempotent
  import NginxAlike
  import Shlex

  /* ---------------------------------------------------------------- text in either case */

  /** `c` is `l`, or its upper-case form. */
  predicate SameLetter(c: char, l: char) { c == l || ('a' <= l <= 'z' && c as int + 32 == l as int) }

  predicate WordAt(s: string, word: string, i: int) {
    0 <= i && i + |word| <= |s| && forall k :: 0 <= k < |word| ==> SameLetter(s[i + k], word[k])
  }

  /** `word` stands somewhere in `s`, its letters in either case. */
  ghost predicate Occurs(s: string, word: string) {
    exists i :: WordAt(s, word, i)
  }

  predicate LowerWord(word: string) { forall k :: 0 <= k < |word| ==> !('A' <= word[k] <= 'Z') }

  lemma LowerIs(c: char, l: char)
    requires !('A' <= l <= 'Z')
    ensures LowerChar(c) == l <==> SameLetter(c, l)
  {
  }

  lemma WordAtIff(s: string, word: string, i: int)
    requires LowerWord(word)
    ensures OccursAt(Lower(s), word, i) <==> WordAt(s, word, i)
  {
    var t := Lower(s);
    forall k | 0 <= i && i + |word| <= |s| && 0 <= k < |word|
      ensures t[i + k] == word[k] <==> SameLetter(s[i + k], word[k])
    {
      LowerIs(s[i + k], word[k]);
    }
    if OccursAt(t, word, i) {
      var found := t[i..i + |word|];
      assert forall k :: 0 <= k < |word| ==> found[k] == t[i + k];
    }
    if WordAt(s, word, i) {
      assert t[i..i + |word|] == word;
    }
  }

  lemma OccursIff(s: string, word: string)
    requires LowerWord(word)
    ensures Contains(Lower(s), word) <==> Occurs(s, word)
  {
    hide WordAt, OccursAt;
    forall i
      ensures OccursAt(Lower(s), word, i) <==> WordAt(s, word, i)
    {
      WordAtIff(s, word, i);
    }
    if Occurs(s, word) {
      var i :| WordAt(s, word, i);
      assert OccursAt(Lower(s), word, i);
      OccursBounds(Lower(s), word, i);
    }
  }

  lemma OccursBounds(s: string, word: string, i: int)
    requires OccursAt(s, word, i)
    ensures 0 <= i <= |s|
  {
  }

  /* ---------------------------------------------------------------- locations */

  predicate Modifier(w: string) { w == "=" || w == "^~" || w == "~" || w == "~*" }

  /** A location header of a shape that is not supported. */
  predicate Malformed(ws: seq<string>) {
    |ws| >= 2 && ws[0] == "location" && |ws| != (if Modifier(ws[1]) then 3 else 2)
  }

  predicate IsLocation(ws: seq<string>) { |ws| >= 2 && ws[0] == "location" && !Malformed(ws) }

  predicate V1Path(p: string) { p == "/v1" || (|p| >= 4 && p[..4] == "/v1/") }

  /** `location p`, `location = p` or `location ^~ p`, where `p` is `/v1` or begins with `/v1/`. */
  predicate LiteralV1(ws: seq<string>) {
    || (|ws| == 2 && ws[0] == "location" && V1Path(ws[1]))
    || (|ws| == 3 && ws[0] == "location" && (ws[1] == "=" || ws[1] == "^~") && V1Path(ws[2]))
  }

  /** `location ~ p` or `location ~* p`, where `v1` stands somewhere in `p`. */
  ghost predicate RegexV1(ws: seq<string>) {
    |ws| == 3 && ws[0] == "location" && (ws[1] == "~" || ws[1] == "~*") && Occurs(ws[2], "v1")
  }

  const CAPTURE_WORDS: seq<string> := [
    "response-preview", "response_preview", "request-capture", "request_capture",
    "body_filter_by_lua", "log_by_lua", "/capture", "_capture"
  ]

  ghost predicate Marked(s: string) { exists i | 0 <= i < |CAPTURE_WORDS| :: Occurs(s, CAPTURE_WORDS[i]) }

  /** A location that mirrors, carries a capture marker in its header or its body, or is an internal or
      named location with `capture` in its path. */
  ghost predicate CaptureLocation(ws: seq<string>, header: string, body: string) {
    && IsLocation(ws)
    && var p := ws[|ws| - 1];
       || Occurs(body, "mirror") || Marked(header) || Marked(body)
       || (Occurs(p, "capture") && (p[..1] == "@" || (|p| >= 2 && p[..2] == "/_")) && p != "")
  }

  /** The child is deleted. */
  ghost predicate Removable(header: string, body: string) {
    Tokenise(header).Ok? && var ws := Tokenise(header).value; LiteralV1(ws) || CaptureLocation(ws, header, body)
  }

  /** The child has to be dealt with by hand. */
  ghost predicate Unreadable(header: string) {
    Tokenise(header).Error? || Malformed(Tokenise(header).value) || RegexV1(Tokenise(header).value)
  }

  lemma LocationIs(header: string)
    ensures LocationPath(header) == Error <==> Tokenise(header).Error? || Malformed(Tokenise(header).value)
    ensures Tokenise(header).Ok? ==>
              var ws := Tokenise(header).value;
              && (LocationPath(header).Ok? && LocationPath(header).value.Some? <==> IsLocation(ws))
              && (IsLocation(ws) ==> LocationPath(header) == Ok(Some((if |ws| == 3 then ws[1] else "", ws[|ws| - 1])))
                                     && (Modifier(ws[1]) <==> |ws| == 3))
  {
    hide Tokenise;
  }

  lemma LiteralIs(ws: seq<string>)
    requires IsLocation(ws)
    ensures IsLiteralV1((if |ws| == 3 then ws[1] else "", ws[|ws| - 1])) <==> LiteralV1(ws)
  {
    var p := ws[|ws| - 1];
    assert "/v1/" <= p <==> |p| >= 4 && p[..4] == "/v1/";
  }

  lemma MarkedIff(s: string)
    ensures HasMarker(Lower(s)) <==> Marked(s)
  {
    MarkersAreWords();
    hide Contains, Occurs, LowerWord;
    forall i | 0 <= i < |CAPTURE_WORDS|
      ensures Contains(Lower(s), CAPTURE_MARKERS[i]) <==> Occurs(s, CAPTURE_WORDS[i])
    {
      OccursIff(s, CAPTURE_WORDS[i]);
    }
  }

  lemma MarkersAreWords()
    ensures CAPTURE_MARKERS == CAPTURE_WORDS && forall i | 0 <= i < |CAPTURE_WORDS| :: LowerWord(CAPTURE_WORDS[i])
  {
  }

  lemma CaptureIs(ws: seq<string>, header: string, body: string)
    requires IsLocation(ws)
    ensures IsCaptureLocation(Lower(header), Lower(body), ws[|ws| - 1]) <==> CaptureLocation(ws, header, body)
  {
    hide Contains, Occurs, HasMarker, Marked;
    var p := ws[|ws| - 1];
    assert LowerWord("mirror") && LowerWord("capture");
    OccursIff(body, "mirror");
    OccursIff(p, "capture");
    MarkedIff(header);
    MarkedIff(body);
    assert "@" <= p <==> p != "" && p[..1] == "@";
    assert "/_" <= p <==> |p| >= 2 && p[..2] == "/_";
  }

  /** Exactly the removable children are removed, and exactly the unreadable ones refused. */
  lemma RemovedIff(header: string, body: string)
    ensures IsRemoved(header, body) == Error <==> Unreadable(header)
    ensures IsRemoved(header, body) == Ok(true) <==> !Unreadable(header) && Removable(header, body)
  {
    hide Tokenise, LocationPath, Contains, Occurs, IsCaptureLocation, CaptureLocation, IsLiteralV1;
    LocationIs(header);
    if Tokenise(header).Ok? {
      var ws := Tokenise(header).value;
      if IsLocation(ws) {
        LiteralIs(ws);
        CaptureIs(ws, header, body);
        assert LowerWord("v1");
        OccursIff(ws[|ws| - 1], "v1");
      } else if !Malformed(ws) {
        NotALocation(ws, header, body);
      }
    }
  }

  lemma NotALocation(ws: seq<string>, header: string, body: string)
    requires !IsLocation(ws) && !Malformed(ws)
    ensures !LiteralV1(ws) && !RegexV1(ws) && !CaptureLocation(ws, header, body)
  {
  }

  /* ---------------------------------------------------------------- the server */

  predicate Reads(texts: seq<string>) { forall i :: 0 <= i < |texts| ==> Tokenise(texts[i]).Ok? }

  /** Directive `i` tokenises to words of which `name` is the first. */
  predicate Says(texts: seq<string>, i: int, name: string) {
    0 <= i < |texts| && Tokenise(texts[i]).Ok? && Tokenise(texts[i]).value != [] && Tokenise(texts[i]).value[0] == name
  }

  predicate Port443(address: string) { address == "443" || (|address| >= 4 && address[|address| - 4..] == ":443") }

  predicate TlsAt(texts: seq<string>, i: int) {
    || Says(texts, i, "ssl_certificate")
    || (Says(texts, i, "listen") && |Tokenise(texts[i]).value| >= 2 && Port443(Tokenise(texts[i]).value[1]))
  }

  predicate NamedAt(texts: seq<string>, i: int, host: string) {
    Says(texts, i, "server_name") && host in Tokenise(texts[i]).value[1..]
  }

  /** A server block that terminates TLS and has the name `host`. */
  ghost predicate Approved(header: string, texts: seq<string>, host: string) {
    Tokenise(header) == Ok(["server"]) && (exists i :: TlsAt(texts, i)) && exists i :: NamedAt(texts, i, host)
  }

  predicate NoLetters(word: string) { forall k :: 0 <= k < |word| ==> !('a' <= word[k] <= 'z') && !('A' <= word[k] <= 'Z') }

  lemma PlainEnd(s: string, word: string)
    requires NoLetters(word)
    ensures EndsWith(Lower(s), word) <==> |s| >= |word| && s[|s| - |word|..] == word
    ensures Lower(s) == word <==> s == word
  {
    EndsInWordIff(s, word);
    SameWordIff(s, word);
    var n := |s| - |word|;
    if n >= 0 {
      var tail := s[n..];
      assert forall k :: 0 <= k < |word| ==> tail[k] == s[n + k];
      assert WordAt(s, word, n) <==> tail == word;
      assert n == 0 ==> tail == s;
    }
  }

  lemma PortIs(address: string)
    ensures var a := Lower(address); a == "443" || EndsWith(a, ":443") || EndsWith(a, "]:443") <==> Port443(address)
  {
    hide Lower, EndsWith;
    assert NoLetters("443") && NoLetters(":443") && NoLetters("]:443");
    PlainEnd(address, "443");
    PlainEnd(address, ":443");
    PlainEnd(address, "]:443");
    if |address| >= 5 {
      assert address[|address| - 5..][1..] == address[|address| - 4..];
      assert "]:443"[1..] == ":443";
    }
  }

  /** TLS is found in the first directive that shows it; unreadable directives behind that are not met. */
  lemma {:induction false} TlsIff(texts: seq<string>)
    ensures IsTlsServer(texts) == Ok(true) ==> exists i :: TlsAt(texts, i)
    ensures IsTlsServer(texts) == Ok(false) ==> !exists i :: TlsAt(texts, i)
    ensures Reads(texts) ==> IsTlsServer(texts).Ok?
  {
    hide Tokenise, EndsWith, Port443, Lower;
    if texts != [] {
      TlsIff(texts[1..]);
      if Tokenise(texts[0]).Ok? && |Tokenise(texts[0]).value| >= 2 {
        PortIs(Tokenise(texts[0]).value[1]);
      }
      ShiftTls(texts);
      assert Reads(texts) ==> Reads(texts[1..]);
    }
  }

  lemma ShiftTls(texts: seq<string>)
    requires texts != []
    ensures (exists i :: TlsAt(texts, i)) <==> TlsAt(texts, 0) || exists i :: TlsAt(texts[1..], i)
  {
    hide Tokenise, Port443;
    if exists i :: TlsAt(texts, i) {
      var i :| TlsAt(texts, i);
      if i > 0 {
        assert texts[1..][i - 1] == texts[i];
        assert TlsAt(texts[1..], i - 1);
      }
    }
    if exists i :: TlsAt(texts[1..], i) {
      var i :| TlsAt(texts[1..], i);
      assert texts[1..][i] == texts[i + 1];
      assert TlsAt(texts, i + 1);
    }
  }

  lemma {:induction false} NamesIff(texts: seq<string>, host: string)
    ensures ServerNames(texts).Ok? <==> Reads(texts)
    ensures ServerNames(texts).Ok? ==> (host in ServerNames(texts).value <==> exists i :: NamedAt(texts, i, host))
  {
    hide Tokenise;
    if texts != [] {
      NamesIff(texts[1..], host);
      ShiftNamed(texts, host);
      ReadsCons(texts);
    }
  }

  lemma ReadsCons(texts: seq<string>)
    requires texts != []
    ensures Reads(texts) <==> Tokenise(texts[0]).Ok? && Reads(texts[1..])
  {
    hide Tokenise;
    if Tokenise(texts[0]).Ok? && Reads(texts[1..]) {
      forall i | 0 <= i < |texts|
        ensures Tokenise(texts[i]).Ok?
      {
        if i > 0 {
          assert texts[1..][i - 1] == texts[i];
        }
      }
    }
  }

  lemma ShiftNamed(texts: seq<string>, host: string)
    requires texts != []
    ensures (exists i :: NamedAt(texts, i, host)) <==> NamedAt(texts, 0, host) || exists i :: NamedAt(texts[1..], i, host)
  {
    hide Tokenise;
    if exists i :: NamedAt(texts, i, host) {
      var i :| NamedAt(texts, i, host);
      if i > 0 {
        assert texts[1..][i - 1] == texts[i];
        assert NamedAt(texts[1..], i - 1, host);
      }
    }
    if exists i :: NamedAt(texts[1..], i, host) {
      var i :| NamedAt(texts[1..], i, host);
      assert texts[1..][i] == texts[i + 1];
      assert NamedAt(texts, i + 1, host);
    }
  }

  /** The source's test for the approved server. */
  lemma ApprovedIff(header: string, texts: seq<string>, host: string)
    ensures IsApproved(header, texts, host) == Ok(true) <==> Approved(header, texts, host) && Reads(texts)
    ensures IsApproved(header, texts, host) == Ok(false) ==> !Approved(header, texts, host)
    ensures Tokenise(header).Ok? && Reads(texts) ==> IsApproved(header, texts, host).Ok?
    ensures Tokenise(header).Error? ==> IsApproved(header, texts, host).Error?
  {
    hide Tokenise, TlsAt, NamedAt, Reads;
    TlsIff(texts);
    NamesIff(texts, host);
  }

  /* ---------------------------------------------------------------- capture directives and gates */

  ghost predicate SameWord(s: string, word: string) { |s| == |word| && WordAt(s, word, 0) }

  ghost predicate EndsInWord(s: string, word: string) { WordAt(s, word, |s| - |word|) }

  /** The first word is the name of a directive that captures traffic. */
  ghost predicate CaptureDirective(ws: seq<string>) {
    && ws != []
    && (|| SameWord(ws[0], "mirror") || SameWord(ws[0], "mirror_request_body")
        || EndsInWord(ws[0], "_by_lua") || EndsInWord(ws[0], "_by_lua_block") || EndsInWord(ws[0], "_by_lua_file"))
  }

  lemma SameWordIff(s: string, word: string)
    requires LowerWord(word)
    ensures Lower(s) == word <==> SameWord(s, word)
  {
    WordAtIff(s, word, 0);
    assert |s| == |word| ==> Lower(s)[0..|word|] == Lower(s);
  }

  lemma EndsInWordIff(s: string, word: string)
    requires LowerWord(word)
    ensures EndsWith(Lower(s), word) <==> EndsInWord(s, word)
  {
    WordAtIff(s, word, |s| - |word|);
    assert |word| <= |s| ==> Lower(s)[|s| - |word|..] == Lower(s)[|s| - |word|..|s| - |word| + |word|];
  }

  lemma CaptureDirectiveIff(ws: seq<string>)
    ensures IsCaptureDirective(ws) <==> CaptureDirective(ws)
  {
    if ws != [] {
      var s := ws[0];
      NamesAreWords();
      LuaNamesEnd(Lower(s));
      hide Lower, EndsWith, SameWord, EndsInWord, LowerWord;
      SameWordIff(s, "mirror");
      SameWordIff(s, "mirror_request_body");
      EndsInWordIff(s, "_by_lua");
      EndsInWordIff(s, "_by_lua_block");
      EndsInWordIff(s, "_by_lua_file");
    }
  }

  lemma NamesAreWords()
    ensures LowerWord("mirror") && LowerWord("mirror_request_body")
    ensures LowerWord("_by_lua") && LowerWord("_by_lua_block") && LowerWord("_by_lua_file")
  {
  }

  /** The four Lua names of the source's set are covered by its suffixes. */
  lemma LuaNamesEnd(name: string)
    ensures name == "body_filter_by_lua" || name == "log_by_lua" ==> EndsWith(name, "_by_lua")
    ensures name == "body_filter_by_lua_block" || name == "log_by_lua_block" ==> EndsWith(name, "_by_lua_block")
  {
    assert "body_filter_by_lua"[11..] == "_by_lua";
    assert "log_by_lua"[3..] == "_by_lua";
    assert "body_filter_by_lua_block"[11..] == "_by_lua_block";
    assert "log_by_lua_block"[3..] == "_by_lua_block";
  }

  ghost predicate NoCaptures(texts: seq<string>) {
    forall i :: 0 <= i < |texts| ==> Tokenise(texts[i]).Ok? && !CaptureDirective(Tokenise(texts[i]).value)
  }

  lemma NoCapturesIff(texts: seq<string>)
    ensures RefuseCapture(texts).Ok? <==> NoCaptures(texts)
  {
    hide Tokenise, IsCaptureDirective, CaptureDirective;
    NginxAlike.RefuseCaptureIff(texts);
    forall i | 0 <= i < |texts|
      ensures NginxAlike.Harmless(texts[i]) <==> Tokenise(texts[i]).Ok? && !CaptureDirective(Tokenise(texts[i]).value)
    {
      if Tokenise(texts[i]).Ok? {
        CaptureDirectiveIff(Tokenise(texts[i]).value);
      }
    }
  }

  const GATE_FILE: string := "/etc/nginx/snippets/" + "cloudflare-only.conf"

  predicate GateAt(texts: seq<string>, i: int) { 0 <= i < |texts| && Tokenise(texts[i]) == Ok(["include", GATE_FILE]) }

  predicate Proxies(texts: seq<string>) { exists i | 0 <= i < |texts| :: Says(texts, i, "proxy_pass") }

  /** Exactly one directive is the gate include. */
  ghost predicate GatedOnce(texts: seq<string>) {
    exists i :: GateAt(texts, i) && forall j :: GateAt(texts, j) ==> j == i
  }

  /** A location that passes requests on and has not exactly one gate. */
  ghost predicate Ungated(header: string, texts: seq<string>) {
    && Tokenise(header).Ok? && IsLocation(Tokenise(header).value)
    && Reads(texts) && Proxies(texts) && !GatedOnce(texts)
  }

  lemma {:induction false} DirectTokensAre(texts: seq<string>)
    ensures DirectTokens(texts).Ok? <==> Reads(texts)
    ensures DirectTokens(texts).Ok? ==>
              |DirectTokens(texts).value| == |texts|
              && forall i :: 0 <= i < |texts| ==> Tokenise(texts[i]) == Ok(DirectTokens(texts).value[i])
  {
    hide Tokenise;
    if texts != [] {
      DirectTokensAre(texts[1..]);
      ReadsCons(texts);
      if DirectTokens(texts).Ok? {
        forall i | 0 < i < |texts|
          ensures Tokenise(texts[i]) == Ok(DirectTokens(texts).value[i])
        {
          assert texts[i] == texts[1..][i - 1];
        }
      }
    }
  }

  /** The value stands at position `i` and nowhere else. */
  ghost predicate OnlyAt<T>(s: seq<T>, x: T, i: int) {
    0 <= i < |s| && s[i] == x && forall j :: 0 <= j < |s| && s[j] == x ==> j == i
  }

  lemma CountLast<T>(s: seq<T>, x: T)
    requires s != []
    ensures multiset(s)[x] == multiset(s[..|s| - 1])[x] + (if s[|s| - 1] == x then 1 else 0)
  {
    assert s == s[..|s| - 1] + [s[|s| - 1]];
  }

  lemma {:induction false} NoneIff<T>(s: seq<T>, x: T)
    ensures multiset(s)[x] == 0 <==> x !in s
  {
    if s != [] {
      CountLast(s, x);
      NoneIff(s[..|s| - 1], x);
      assert s == s[..|s| - 1] + [s[|s| - 1]];
    }
  }

  lemma OnlyLast<T>(s: seq<T>, x: T, i: int)
    requires s != []
    ensures s[|s| - 1] != x ==> (OnlyAt(s, x, i) <==> OnlyAt(s[..|s| - 1], x, i))
    ensures s[|s| - 1] == x ==> (OnlyAt(s, x, i) <==> i == |s| - 1 && x !in s[..|s| - 1])
  {
    var t := s[..|s| - 1];
    assert forall j :: 0 <= j < |t| ==> t[j] == s[j];
  }

  /** A value has multiplicity one exactly if it stands at exactly one position. */
  lemma {:induction false} OnceIff<T>(s: seq<T>, x: T)
    ensures multiset(s)[x] == 1 <==> exists i :: OnlyAt(s, x, i)
  {
    hide OnlyAt;
    if s == [] {
      NothingOnly(s, x);
    } else {
      var t, n := s[..|s| - 1], |s| - 1;
      CountLast(s, x);
      OnceIff(t, x);
      NoneIff(t, x);
      OnlyLast(s, x, n);
      forall i
        ensures s[n] != x ==> (OnlyAt(s, x, i) <==> OnlyAt(t, x, i))
        ensures s[n] == x && OnlyAt(s, x, i) ==> x !in t
      {
        OnlyLast(s, x, i);
      }
    }
  }

  lemma NothingOnly<T>(s: seq<T>, x: T)
    requires s == []
    ensures forall i :: !OnlyAt(s, x, i)
  {
  }

  /** Exactly the ungated proxying locations are given a gate. */
  lemma UngatedIff(header: string, texts: seq<string>)
    ensures NeedsGate(header, texts) == Ok(true) <==> Ungated(header, texts)
    ensures NeedsGate(header, texts) == Error
       <==> Tokenise(header).Error? || Malformed(Tokenise(header).value) || (IsLocation(Tokenise(header).value) && !Reads(texts))
  {
    hide Tokenise, LocationPath, Reads;
    LocationIs(header);
    DirectTokensAre(texts);
    assert GATE_WORDS == ["include", GATE_FILE];
    if DirectTokens(texts).Ok? && Tokenise(header).Ok? {
      var all := DirectTokens(texts).value;
      hide DirectTokens;
      assert (exists i | 0 <= i < |all| :: ProxyPass(all[i])) <==> Proxies(texts) by {
        assert forall i :: 0 <= i < |all| ==> (ProxyPass(all[i]) <==> Says(texts, i, "proxy_pass"));
      }
      assert IsLocation(Tokenise(header).value) ==> IsProxyingLocation(header, texts) == Ok(Proxies(texts));
      OnceIff(all, GATE_WORDS);
      assert forall i :: 0 <= i < |all| ==> (all[i] == GATE_WORDS <==> GateAt(texts, i));
      forall i
        ensures OnlyAt(all, GATE_WORDS, i) <==> GateAt(texts, i) && forall j :: GateAt(texts, j) ==> j == i
      {
      }
      assert multiset(all)[GATE_WORDS] == 1 <==> GatedOnce(texts);
      assert HasExplicitGate(texts) == Ok(GatedOnce(texts));
    }
  }
}
