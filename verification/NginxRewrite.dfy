/** rewrite_direct_v1 and verify_rewritten_config. */
module NginxRewrite {
  import opened Text
  import opened NginxLexer
  import opened NginxEvents
  import opened NginxOffsets
  import opened NginxParser
  import opened NginxLists
  import opened NginxRules
  import opened NginxSplice
  import opened NginxSnippets
  import Shlex

  function ParseOrRaise(text: string): Result<Config> {
    var c := Parse(text);
    if c.None? then Error else Ok(c.value)
  }

  /** `text[i:j]` */
  function Slice(text: string, i: nat, j: int): string {
    if j < 0 then "" else Drop(Take(text, j), i)
  }

  function ApprovedServers(cfg: Config, blocks: seq<BlockRec>, host: string): Result<seq<BlockRec>> {
    if blocks == [] then Ok([])
    else
      var approved :- IsApproved(blocks[0].header, TextsOf(cfg.directives, blocks[0].id), host);
      var rest :- ApprovedServers(cfg, blocks[1..], host);
      Ok((if approved then [blocks[0]] else []) + rest)
  }

  /** Exactly one server block must match. */
  function ApprovedServer(cfg: Config, host: string): Result<BlockRec> {
    var servers :- ApprovedServers(cfg, cfg.blocks, host);
    if |servers| == 1 then Ok(servers[0]) else Error
  }

  function RemovedBlock(text: string, b: BlockRec): Result<bool> {
    IsRemoved(b.header, Slice(text, b.open + 1, b.close))
  }

  /** One edit for each removed child of the server. */
  function Removals(text: string, children: seq<BlockRec>): Result<seq<Edit<char>>> {
    if children == [] then Ok([])
    else
      var b := children[0];
      var removed :- RemovedBlock(text, b);
      var rest :- Removals(text, children[1..]);
      Ok((if removed then [RemovalOf(text, b)] else []) + rest)
  }

  function RemovalOf(text: string, b: BlockRec): Edit<char> {
    Edit(b.start, if 0 <= b.close < |text| then BlockEnd(text, b.close) else |text|, "")
  }

  /** A capture directive among `texts` must be removed by hand. */
  function RefuseCapture(texts: seq<string>): Result<()> {
    if texts == [] then Ok(())
    else
      var tokens :- Tokenise(texts[0]);
      if IsCaptureDirective(tokens) then Error else RefuseCapture(texts[1..])
  }

  function Headers(blocks: seq<BlockRec>): seq<string> {
    if blocks == [] then [] else [blocks[0].header] + Headers(blocks[1..])
  }

  const DIRECT_LOCATION: string :=
    (DirectIsSafe(); BlockText("    ", DIRECT_HEADER, DIRECT_LINES))

  const UPSTREAM_BLOCK: string :=
    (UpstreamIsSafe(); BlockText("", UPSTREAM_HEADER, UPSTREAM_LINES) + "\n")

  const GATE_TEXT: string := (GateIsSafe(); Shlex.Join(GATE_WORDS))

  /** The new location goes before the closing brace, on a line of its own. */
  function InsertionOf(text: string, at: nat): Edit<char> {
    var prefix := if 0 < at <= |text| && text[at - 1] == '\n' then "" else "\n";
    Edit(at, at, prefix + DIRECT_LOCATION)
  }

  /** The removals, then the insertion: already in ascending order, so `sorted(..., reverse=True)` is
      the reversed list. */
  function DirectEdits(text: string, host: string): Result<seq<Edit<char>>> {
    var cfg :- ParseOrRaise(text);
    var server :- ApprovedServer(cfg, host);
    var children := ChildrenOf(cfg.blocks, server.id);
    var removals :- Removals(text, children);
    var _ :- RefuseCapture(TextsOf(cfg.directives, server.id));
    var _ :- RefuseCapture(Headers(children));
    if server.close < 0 then Error else Ok(removals + [InsertionOf(text, server.close)])
  }

  function WithDirect(text: string, host: string): Result<string> {
    var edits :- DirectEdits(text, host);
    Ok(ApplyAll(text, edits))
  }

  function Upstreams(blocks: seq<BlockRec>): Result<seq<BlockRec>> {
    if blocks == [] then Ok([])
    else if blocks[0].parent != -1 then Upstreams(blocks[1..])
    else
      var tokens :- Tokenise(blocks[0].header);
      var rest :- Upstreams(blocks[1..]);
      Ok((if tokens == UPSTREAM_HEADER then [blocks[0]] else []) + rest)
  }

  function WithUpstream(text: string): Result<string> {
    var cfg :- ParseOrRaise(text);
    var upstreams :- Upstreams(cfg.blocks);
    Ok(if upstreams == [] then UPSTREAM_BLOCK + text else text)
  }

  /** `re.match(r"[ \t]*", s)` */
  function Indentation(s: string): (r: string)
    ensures Indent(r)
  {
    if s != "" && (s[0] == ' ' || s[0] == '\t') then [s[0]] + Indentation(s[1..]) else ""
  }

  function GateOf(text: string, b: BlockRec): Edit<char> {
    var line := if b.open <= |text| then LineStart(text, b.open) else 0;
    var indentation := Indentation(Slice(text, line, b.open));
    var newline := if Slice(text, b.open + 1, b.open + 2) == "\n" then "" else "\n";
    Edit(b.open + 1, b.open + 1, "\n" + indentation + "    " + GATE_TEXT + ";" + newline)
  }

  function Gates(text: string, cfg: Config, children: seq<BlockRec>): Result<seq<Edit<char>>> {
    if children == [] then Ok([])
    else
      var b := children[0];
      var needed :- NeedsGate(b.header, TextsOf(cfg.directives, b.id));
      var rest :- Gates(text, cfg, children[1..]);
      Ok((if needed then [GateOf(text, b)] else []) + rest)
  }

  function WithGates(text: string, host: string): Result<string> {
    var cfg :- ParseOrRaise(text);
    var server :- ApprovedServer(cfg, host);
    var gates :- Gates(text, cfg, ChildrenOf(cfg.blocks, server.id));
    Ok(ApplyAll(text, gates))
  }

  function Rewrite(text: string, host: string): Result<string> {
    var direct :- WithDirect(text, host);
    var upstream :- WithUpstream(direct);
    var gated :- WithGates(upstream, host);
    var _ :- Verify(gated, host);
    Ok(gated)
  }

  /* ---------------------------------------------------------------- verify_rewritten_config */

  function V1Locations(children: seq<BlockRec>): Result<seq<BlockRec>> {
    if children == [] then Ok([])
    else
      var location :- LocationPath(children[0].header);
      var rest :- V1Locations(children[1..]);
      Ok((if location.Some? && IsLiteralV1(location.value) then [children[0]] else []) + rest)
  }

  const REQUIRED_V1 := [
    "proxy_pass http://sub2api_backend;", "access_log off;", "error_log /dev/null crit;",
    "proxy_request_buffering off;", "proxy_set_header Connection $connection_upgrade;",
    "proxy_intercept_errors off;"
  ]

  predicate ReviewedV1Body(body: string) {
    var lowered := Lower(body);
    && (forall i | 0 <= i < |REQUIRED_V1| :: Contains(body, REQUIRED_V1[i]))
    && !Contains(lowered, "mirror") && !Contains(lowered, "3021") && !HasMarker(lowered)
  }

  function RefuseUngated(cfg: Config, children: seq<BlockRec>): Result<()> {
    if children == [] then Ok(())
    else
      var needed :- NeedsGate(children[0].header, TextsOf(cfg.directives, children[0].id));
      if needed then Error else RefuseUngated(cfg, children[1..])
  }

  function RefuseCaptureLocations(text: string, children: seq<BlockRec>, v1: BlockRec): Result<()> {
    if children == [] then Ok(())
    else if children[0] == v1 then RefuseCaptureLocations(text, children[1..], v1)
    else
      var location :- LocationPath(children[0].header);
      if location.None? then RefuseCaptureLocations(text, children[1..], v1)
      else
        var body := Lower(Strip(Code, Slice(text, children[0].open + 1, children[0].close)));
        var header := Lower(Strip(Code, children[0].header));
        if Contains(body, "mirror ") || HasMarker(header) || HasMarker(body) then Error
        else RefuseCaptureLocations(text, children[1..], v1)
  }

  function RefuseCaptureDirectives(texts: seq<string>): Result<()> {
    if texts == [] then Ok(())
    else
      var tokens :- Tokenise(texts[0]);
      if IsCaptureDirective(tokens) then Error
      else if tokens != [] && tokens[0] == "include" && HasMarker(Lower(Strip(Code, texts[0]))) then Error
      else RefuseCaptureDirectives(texts[1..])
  }

  predicate ReviewedUpstream(all: seq<seq<string>>) {
    && multiset(all)[UPSTREAM_LINES[0]] == 1
    && multiset(all)[UPSTREAM_LINES[1]] == 1
    && forall i | 0 <= i < |all| :: all[i] == [] || all[i][0] != "server"
  }

  function Verify(text: string, host: string): Result<()> {
    var cfg :- ParseOrRaise(text);
    var server :- ApprovedServer(cfg, host);
    var upstreams :- Upstreams(cfg.blocks);
    if |upstreams| != 1 then Error
    else
      var lines :- DirectTokens(TextsOf(cfg.directives, upstreams[0].id));
      if !ReviewedUpstream(lines) then Error
      else
        var children := ChildrenOf(cfg.blocks, server.id);
        var v1 :- V1Locations(children);
        if |v1| != 1 || !ReviewedV1Body(Slice(text, v1[0].open + 1, v1[0].close)) then Error
        else
          var _ :- RefuseUngated(cfg, children);
          var _ :- RefuseCaptureLocations(text, children, v1[0]);
          RefuseCaptureDirectives(TextsOf(cfg.directives, server.id))
  }
}
