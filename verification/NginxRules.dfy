/** The tests that rewrite_direct_v1 and verify_rewritten_config make on headers and directive texts.
    Error stands for a raised exception and is met in the source's order of evaluation. */
module NginxRules {
  import opened Text
  import opened NginxLexer
  import opened NginxTree
  import Shlex

  const CAPTURE_MARKERS := [
    "response-preview", "response_preview", "request-capture", "request_capture",
    "body_filter_by_lua", "log_by_lua", "/capture", "_capture"
  ]

  const CAPTURE_DIRECTIVE_NAMES := {
    "mirror", "mirror_request_body", "body_filter_by_lua", "body_filter_by_lua_block",
    "log_by_lua", "log_by_lua_block"
  }

  const GATE_WORDS := ["include", "/etc/nginx/snippets/" + "cloudflare-only.conf"]

  function Tokenise(value: string): Result<seq<string>> {
    Shlex.Split(Strip(Code, value))
  }

  predicate IsCaptureDirective(tokens: seq<string>) {
    tokens != [] &&
    var name := Lower(tokens[0]);
    || name in CAPTURE_DIRECTIVE_NAMES
    || EndsWith(name, "_by_lua") || EndsWith(name, "_by_lua_block") || EndsWith(name, "_by_lua_file")
  }

  predicate HasMarker(s: string) {
    exists i | 0 <= i < |CAPTURE_MARKERS| :: Contains(s, CAPTURE_MARKERS[i])
  }

  function IsServerBlock(header: string): Result<bool> {
    var tokens :- Tokenise(header);
    Ok(tokens == ["server"])
  }

  /** `texts` are the directives standing directly in the server block. */
  function ServerNames(texts: seq<string>): Result<seq<string>> {
    if texts == [] then Ok([])
    else
      var tokens :- Tokenise(texts[0]);
      var rest :- ServerNames(texts[1..]);
      Ok((if tokens != [] && tokens[0] == "server_name" then tokens[1..] else []) + rest)
  }

  function IsTlsServer(texts: seq<string>): Result<bool> {
    if texts == [] then Ok(false)
    else
      var tokens :- Tokenise(texts[0]);
      if tokens != [] && tokens[0] == "ssl_certificate" then Ok(true)
      else if |tokens| < 2 || tokens[0] != "listen" then IsTlsServer(texts[1..])
      else
        var address := Lower(tokens[1]);
        if address == "443" || EndsWith(address, ":443") || EndsWith(address, "]:443") then Ok(true)
        else IsTlsServer(texts[1..])
  }

  /** The server that terminates TLS for the approved hostname. */
  function IsApproved(header: string, texts: seq<string>, host: string): Result<bool> {
    var server :- IsServerBlock(header);
    if !server then Ok(false)
    else
      var tls :- IsTlsServer(texts);
      if !tls then Ok(false)
      else
        var names :- ServerNames(texts);
        Ok(host in names)
  }

  /** Modifier and path of a location, or None for any other block. */
  function LocationPath(header: string): Result<Option<(string, string)>> {
    var tokens :- Tokenise(header);
    if tokens == [] || tokens[0] != "location" || |tokens| < 2 then Ok(None)
    else if tokens[1] in {"=", "^~", "~", "~*"} then
      if |tokens| != 3 then Error else Ok(Some((tokens[1], tokens[2])))
    else if |tokens| != 2 then Error
    else Ok(Some(("", tokens[1])))
  }

  function DirectTokens(texts: seq<string>): Result<seq<seq<string>>> {
    if texts == [] then Ok([])
    else
      var tokens :- Tokenise(texts[0]);
      var rest :- DirectTokens(texts[1..]);
      Ok([tokens] + rest)
  }

  predicate ProxyPass(tokens: seq<string>) { tokens != [] && tokens[0] == "proxy_pass" }

  function IsProxyingLocation(header: string, texts: seq<string>): Result<bool> {
    var location :- LocationPath(header);
    if location.None? then Ok(false)
    else
      var all :- DirectTokens(texts);
      Ok(exists i | 0 <= i < |all| :: ProxyPass(all[i]))
  }

  function HasExplicitGate(texts: seq<string>): Result<bool> {
    var all :- DirectTokens(texts);
    Ok(multiset(all)[GATE_WORDS] == 1)
  }

  /** A proxying location without exactly one explicit gate. */
  function NeedsGate(header: string, texts: seq<string>): Result<bool> {
    var proxying :- IsProxyingLocation(header, texts);
    if !proxying then Ok(false)
    else
      var gated :- HasExplicitGate(texts);
      Ok(!gated)
  }

  predicate IsRegex(modifier: string) { modifier == "~" || modifier == "~*" }

  predicate IsLiteralV1(location: (string, string)) {
    !IsRegex(location.0) && (location.1 == "/v1" || StartsWith(location.1, "/v1/"))
  }

  /** Whether a child block of the approved server is removed; `body` is its raw text. */
  function IsRemoved(header: string, body: string): Result<bool> {
    var location :- LocationPath(header);
    if location.None? then Ok(false)
    else
      var (modifier, path) := location.value;
      if IsRegex(modifier) && Contains(Lower(path), "v1") then Error
      else Ok(IsLiteralV1(location.value) || IsCaptureLocation(Lower(header), Lower(body), path))
  }

  predicate IsCaptureLocation(loweredHeader: string, loweredBody: string, path: string) {
    || Contains(loweredBody, "mirror")
    || HasMarker(loweredHeader) || HasMarker(loweredBody)
    || (Contains(Lower(path), "capture") && (StartsWith(path, "/_") || StartsWith(path, "@")))
  }

  /** The directives standing directly in a forest. */
  function Texts(f: Forest): seq<string> {
    match f
    case End => []
    case Directive(text, rest) => [text] + Texts(rest)
    case Block(_, _, rest) => Texts(rest)
  }
}
