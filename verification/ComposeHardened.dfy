/** The Redis service that transform_compose of deploy/harden-legacy-redis.py generates, put in place of the old one. */
module ComposeHardened {
  import opened Text
  import opened Lines
  import opened Compose
  import opened ComposeLimits
  import opened ComposeScanner

  /** Text without control characters, as the reviewed image, network names and paths are. */
  predicate OneLine(s: string) { forall i :: 0 <= i < |s| ==> ' ' <= s[i] }

  predicate AllOneLine(ss: seq<string>) { forall i :: 0 <= i < |ss| ==> OneLine(ss[i]) }

  /** `f"      - {network}\n"` for every network, below a heading if there is any. */
  function NetworkLines(networks: seq<string>): seq<string> {
    if networks == [] then [] else NetworkLines(networks[..|networks| - 1]) + ["  - " + networks[|networks| - 1]]
  }

  const CONTAINER := "sub2api-redis"

  const COMMAND_LINES := [
    "command:", "  - redis-server", "  - --aclfile", "  - /etc/redis/users.acl", "  - --appendonly", "  - \"no\"",
    "  - --save", "  - \"\"", "  - --dir", "  - /data"
  ]

  const MEMORY_LINES := [
    "  - --dbfilename", "  - dump.rdb", "  - --protected-mode", "  - \"yes\"", "  - --maxmemory", "  - 128mb",
    "  - --maxmemory-policy", "  - noeviction", "volumes:"
  ]

  const DATA_LINE := "  - /data:rw,noexec,nosuid,nodev," + "size=256m,mode=0700,uid=0,gid=0"

  const TEMP_LINE := "  - /tmp:rw,noexec,nosuid,nodev," + "size=32m,mode=1777,uid=0,gid=0"

  const LIMIT_LINES := [
    "read_only: true", "cap_drop:", "  - ALL", "security_opt:", "  - no-new-privileges:true", "pids_limit: 128",
    "mem_limit: 256m"
  ]

  const LOG_LINES := [
    "ulimits:", "  core: 0", "logging:", "  driver: \"none\"", "healthcheck:", "  test:", "    - CMD-SHELL"
  ]

  const PROBE_LINE :=
    ("    - redis-cli --no-auth-warning" + " ping 2>&1 | grep -Fq ") + ("'NOAUTH Authentication" + " required'")

  const INTERVAL_LINES := ["  interval: 5s", "  timeout: 3s", "  retries: 12", "  start_period: 5s", "restart: unless-stopped"]

  /** The lines below `  redis:`, without their common indentation of four. */
  function BodyLines(image: string, networks: seq<string>, aclFile: string): seq<string> {
    ["image: " + image, "container_name: " + CONTAINER, "user: \"0:0\""] + COMMAND_LINES + MEMORY_LINES
    + ["  - " + aclFile + ":/etc/redis/users.acl:ro"] + ["tmpfs:", DATA_LINE, TEMP_LINE] + LIMIT_LINES + LOG_LINES
    + [PROBE_LINE] + INTERVAL_LINES
    + (if networks == [] then [] else ["networks:"] + NetworkLines(networks))
  }

  function Indented(bodies: seq<string>): seq<string> {
    if bodies == [] then [] else ["    " + bodies[0] + "\n"] + Indented(bodies[1..])
  }

  /** _hardened_redis_service, line by line. */
  function HardenedLines(image: string, networks: seq<string>, aclFile: string): seq<string> {
    ["  redis:\n"] + Indented(BodyLines(image, networks, aclFile))
  }

  /** No beginning of `extends:` or `<<:`. */
  predicate PlainHead(s: string) { s != "" && s[0] != 'e' && s[0] != '<' }

  predicate PlainHeads(ss: seq<string>) { forall i :: 0 <= i < |ss| ==> PlainHead(ss[i]) }

  lemma {:induction false} NetworkHeads(networks: seq<string>)
    ensures PlainHeads(NetworkLines(networks))
  {
    if networks != [] {
      NetworkHeads(networks[..|networks| - 1]);
    }
  }

  lemma BodyHeads(image: string, networks: seq<string>, aclFile: string)
    ensures PlainHeads(BodyLines(image, networks, aclFile))
  {
    assert PlainHeads(COMMAND_LINES) && PlainHeads(MEMORY_LINES);
    assert PlainHead(DATA_LINE) && PlainHead(TEMP_LINE) && PlainHead(PROBE_LINE);
    assert PlainHeads(LIMIT_LINES) && PlainHeads(LOG_LINES);
    assert PlainHeads(INTERVAL_LINES);
    NetworkHeads(networks);
    hide COMMAND_LINES, MEMORY_LINES, DATA_LINE, TEMP_LINE, LIMIT_LINES, LOG_LINES, PROBE_LINE, INTERVAL_LINES, NetworkLines;
  }

  lemma AllOneLineConcat(a: seq<string>, b: seq<string>)
    requires AllOneLine(a) && AllOneLine(b)
    ensures AllOneLine(a + b)
  {
    hide OneLine;
  }

  lemma OneLineConcat(a: string, b: string)
    requires OneLine(a) && OneLine(b)
    ensures OneLine(a + b)
  {
  }

  lemma {:induction false} NetworksAreOneLine(networks: seq<string>)
    requires AllOneLine(networks)
    ensures AllOneLine(NetworkLines(networks))
  {
    if networks != [] {
      var n := |networks| - 1;
      assert AllOneLine(networks[..n]);
      NetworksAreOneLine(networks[..n]);
      OneLineConcat("  - ", networks[n]);
    }
  }

  lemma CommandIsOneLine()
    ensures AllOneLine(COMMAND_LINES)
  {
    ServerIsOneLine();
    assert OneLine("  - --appendonly") && OneLine("  - \"no\"") && OneLine("  - --save") && OneLine("  - \"\"");
    assert OneLine("  - --dir") && OneLine("  - /data");
    hide OneLine;
  }

  lemma ServerIsOneLine()
    ensures OneLine("command:") && OneLine("  - redis-server") && OneLine("  - --aclfile") && OneLine("  - /etc/redis/users.acl")
  {
  }

  lemma MemoryIsOneLine()
    ensures AllOneLine(MEMORY_LINES)
  {
    PolicyIsOneLine();
    assert OneLine("  - --dbfilename") && OneLine("  - dump.rdb") && OneLine("  - --protected-mode") && OneLine("  - \"yes\"");
    assert OneLine("volumes:");
    hide OneLine;
  }

  lemma PolicyIsOneLine()
    ensures OneLine("  - --maxmemory") && OneLine("  - 128mb") && OneLine("  - --maxmemory-policy") && OneLine("  - noeviction")
  {
  }

  lemma DataIsOneLine()
    ensures OneLine(DATA_LINE)
  {
    DataFront();
    assert OneLine("size=256m,mode=0700,uid=0,gid=0");
    hide OneLine;
    OneLineConcat("  - /data:rw,noexec,nosuid,nodev,", "size=256m,mode=0700,uid=0,gid=0");
  }

  lemma DataFront()
    ensures OneLine("  - /data:rw,noexec,nosuid,nodev,") && OneLine("tmpfs:")
  {
  }

  lemma TempFront()
    ensures OneLine("  - /tmp:rw,noexec,nosuid,nodev,")
  {
  }

  lemma TempIsOneLine()
    ensures OneLine(TEMP_LINE)
  {
    TempFront();
    assert OneLine("size=32m,mode=1777,uid=0,gid=0");
    hide OneLine;
    OneLineConcat("  - /tmp:rw,noexec,nosuid,nodev,", "size=32m,mode=1777,uid=0,gid=0");
  }

  lemma LimitIsOneLine()
    ensures AllOneLine(LIMIT_LINES)
  {
    SecurityIsOneLine();
    assert OneLine("read_only: true") && OneLine("cap_drop:") && OneLine("  - ALL") && OneLine("pids_limit: 128");
    assert OneLine("mem_limit: 256m");
    hide OneLine;
  }

  lemma SecurityIsOneLine()
    ensures OneLine("security_opt:") && OneLine("  - no-new-privileges:true")
  {
  }

  lemma LogIsOneLine()
    ensures AllOneLine(LOG_LINES)
  {
    HealthIsOneLine();
    assert OneLine("ulimits:") && OneLine("  core: 0") && OneLine("logging:") && OneLine("  driver: \"none\"");
    hide OneLine;
  }

  lemma HealthIsOneLine()
    ensures OneLine("healthcheck:") && OneLine("  test:") && OneLine("    - CMD-SHELL")
  {
  }

  lemma ProbeIsOneLine()
    ensures AllOneLine([PROBE_LINE])
  {
    ProbeFront();
    ProbeBack();
    hide OneLine;
    OneLineConcat("    - redis-cli --no-auth-warning" + " ping 2>&1 | grep -Fq ", "'NOAUTH Authentication" + " required'");
  }

  lemma ProbeFront()
    ensures OneLine("    - redis-cli --no-auth-warning" + " ping 2>&1 | grep -Fq ")
  {
    assert OneLine("    - redis-cli --no-auth-warning") && OneLine(" ping 2>&1 | grep -Fq ");
    hide OneLine;
    OneLineConcat("    - redis-cli --no-auth-warning", " ping 2>&1 | grep -Fq ");
  }

  lemma ProbeBack()
    ensures OneLine("'NOAUTH Authentication" + " required'")
  {
    assert OneLine("'NOAUTH Authentication") && OneLine(" required'");
    hide OneLine;
    OneLineConcat("'NOAUTH Authentication", " required'");
  }

  lemma IntervalIsOneLine()
    ensures AllOneLine(INTERVAL_LINES)
  {
    RestartIsOneLine();
    assert OneLine("  interval: 5s") && OneLine("  timeout: 3s") && OneLine("  retries: 12");
    hide OneLine;
  }

  lemma RestartIsOneLine()
    ensures OneLine("  start_period: 5s") && OneLine("restart: unless-stopped")
  {
  }

  lemma BodyIsOneLine(image: string, networks: seq<string>, aclFile: string)
    requires OneLine(image) && AllOneLine(networks) && OneLine(aclFile)
    ensures AllOneLine(BodyLines(image, networks, aclFile))
  {
    OneLineConcat("image: ", image);
    OneLineConcat("container_name: ", CONTAINER);
    OneLineConcat("  - ", aclFile);
    OneLineConcat("  - " + aclFile, ":/etc/redis/users.acl:ro");
    var head := ["image: " + image, "container_name: " + CONTAINER, "user: \"0:0\""];
    var acl := ["  - " + aclFile + ":/etc/redis/users.acl:ro"];
    assert OneLine("user: \"0:0\"") && AllOneLine(head) && AllOneLine(acl) && AllOneLine(["networks:"]);
    CommandIsOneLine();
    MemoryIsOneLine();
    DataFront();
    DataIsOneLine();
    TempIsOneLine();
    LimitIsOneLine();
    LogIsOneLine();
    ProbeIsOneLine();
    IntervalIsOneLine();
    NetworksAreOneLine(networks);
    hide OneLine, COMMAND_LINES, MEMORY_LINES, DATA_LINE, TEMP_LINE, LIMIT_LINES, LOG_LINES, PROBE_LINE, INTERVAL_LINES, NetworkLines;
    assert AllOneLine(["tmpfs:", DATA_LINE, TEMP_LINE]);
    AllOneLineConcat(head, COMMAND_LINES);
    AllOneLineConcat(head + COMMAND_LINES, MEMORY_LINES);
    var top := head + COMMAND_LINES + MEMORY_LINES;
    AllOneLineConcat(top, acl);
    AllOneLineConcat(top + acl, ["tmpfs:", DATA_LINE, TEMP_LINE]);
    var middle := top + acl + ["tmpfs:", DATA_LINE, TEMP_LINE];
    AllOneLineConcat(middle, LIMIT_LINES);
    AllOneLineConcat(middle + LIMIT_LINES, LOG_LINES);
    AllOneLineConcat(middle + LIMIT_LINES + LOG_LINES, [PROBE_LINE]);
    AllOneLineConcat(middle + LIMIT_LINES + LOG_LINES + [PROBE_LINE], INTERVAL_LINES);
    AllOneLineConcat(["networks:"], NetworkLines(networks));
    AllOneLineConcat(middle + LIMIT_LINES + LOG_LINES + [PROBE_LINE] + INTERVAL_LINES,
                     if networks == [] then [] else ["networks:"] + NetworkLines(networks));
  }

  lemma IndentedLine(body: string)
    requires OneLine(body) && PlainHead(body)
    ensures var line := "    " + body + "\n"; IsLine(line) && EndsLine(line) && KindOf(line) == Other && SafeLine(line)
  {
    var line := "    " + body + "\n";
    assert forall i :: 4 <= i < |line| - 1 ==> line[i] == body[i - 4];
    IndentedIsOther(line);
    assert line[0] == ' ' && line[4] == body[0];
    assert "    extends:"[4] == 'e' && "    <<:"[4] == '<';
  }

  lemma {:induction false} IndentedLines(bodies: seq<string>)
    requires AllOneLine(bodies) && PlainHeads(bodies)
    ensures Others(Indented(bodies)) && |Indented(bodies)| == |bodies| && SafeLines(Indented(bodies))
    ensures forall i :: 0 <= i < |bodies| ==> IsLine(Indented(bodies)[i]) && EndsLine(Indented(bodies)[i])
  {
    hide KindOf, IsLine, EndsLine, OneLine, SafeLine, PlainHead;
    if bodies != [] {
      assert AllOneLine(bodies[1..]) && PlainHeads(bodies[1..]);
      IndentedLines(bodies[1..]);
      IndentedLine(bodies[0]);
    }
  }

  lemma RedisLineIsSafe()
    ensures SafeLine("  redis:\n")
  {
    assert "  redis:\n"[2] == 'r' && "    extends:"[2] == ' ' && "    <<:"[2] == ' ' && "include:"[0] == 'i' && "name:"[0] == 'n';
  }

  lemma RedisLine()
    ensures IsLine("  redis:\n") && EndsLine("  redis:\n") && KindOf("  redis:\n") == Service("redis") && SafeLine("  redis:\n")
  {
    RedisLineIsSafe();
    hide SafeLine;
    var line := "  redis:\n";
    var current := Bare(line);
    assert current == "  redis:";
    var s := current[2..];
    assert s == "redis:";
    assert s[1..] == "edis:" && s[1..][1..] == "dis:" && s[1..][1..][1..] == "is:" && s[1..][1..][1..][1..] == "s:";
    assert "s:"[1..] == ":" && ":"[1..] == "";
    assert NameLength(":") == 0;
    assert NameLength("s:") == 1;
    assert NameLength("is:") == 2 by { assert "is:"[1..] == "s:"; }
    assert NameLength("dis:") == 3 by { assert "dis:"[1..] == "is:"; }
    assert NameLength("edis:") == 4 by { assert "edis:"[1..] == "dis:"; }
    assert NameLength("redis:") == 5 by { assert "redis:"[1..] == "edis:"; }
    assert current[7..] == ":" && current[2..7] == "redis";
    assert IsKeyTail(":");
    assert ServiceName(current) == "redis";
    assert !IsTopLevel(current) && current != "services:";
  }

  /** The generated lines are one block, named `redis`. */
  lemma HardenedIsBlock(image: string, networks: seq<string>, aclFile: string)
    requires OneLine(image) && AllOneLine(networks) && OneLine(aclFile)
    ensures var put := HardenedLines(image, networks, aclFile);
            IsBlock(put) && AreLines(put) && EndsLine(put[|put| - 1]) && NameOf(put) == "redis" && SafeLines(put)
  {
    hide KindOf, IsLine, EndsLine, OneLine, BodyLines, Indented, SafeLine, PlainHead;
    var bodies := BodyLines(image, networks, aclFile);
    BodyIsOneLine(image, networks, aclFile);
    BodyHeads(image, networks, aclFile);
    IndentedLines(bodies);
    RedisLine();
    var put := HardenedLines(image, networks, aclFile);
    assert put[1..] == Indented(bodies);
  }

  /** A full file: a services line, a comment, and an empty Redis service. */
  function FileLines(comment: string): seq<string> { ["services:\n", comment, "  redis:\n"] }

  function Comment(n: nat): (s: string)
    requires n > 1
    ensures |s| == n && s[n - 1] == '\n' && forall i :: 0 <= i < n - 1 ==> s[i] == '#'
  {
    seq(n - 1, _ => '#') + "\n"
  }

  function PositionOf(entries: seq<Entry>, name: string): (k: nat)
    ensures k <= |entries| && (k < |entries| ==> entries[k].name == name)
    ensures forall i :: 0 <= i < k ==> entries[i].name != name
  {
    if entries == [] || entries[0].name == name then 0 else 1 + PositionOf(entries[1..], name)
  }

  /** The services that are reviewed and edited are there. */
  predicate HasServices(text: string) {
    && Scan(text).Some?
    && PositionOf(Scan(text).value, "redis") < |Scan(text).value|
    && PositionOf(Scan(text).value, "sub2api") < |Scan(text).value|
  }

  /** The result has room for the generated service. */
  predicate HasRoom(text: string, put: string)
    requires HasServices(text)
  {
    NewSize(text, PositionOf(Scan(text).value, "redis"), put) <= MAX_COMPOSE_BYTES
  }

  /** transform_compose: `image` and `networks` come out of reviews of the two services, whose outcome is
      `reviewed`; `accepted` is the outcome of the reviews of the generated service in the result. */
  method TransformCompose(text: string, image: string, networks: seq<string>, aclFile: string, reviewed: bool, accepted: bool)
    returns (r: Option<string>)
    requires OneLine(image) && AllOneLine(networks) && OneLine(aclFile)
    ensures var put := Join(HardenedLines(image, networks, aclFile));
            && (r.Some? <==> reviewed && accepted && HasServices(text) && HasRoom(text, put))
            && (r.Some? ==> r.value == Replaced(text, PositionOf(ServiceBlocks(text).value, "redis"), put))
            && (r.Some? ==> SameServices(text, r.value, put))
  {
    hide Scan, ServiceBlocks, HardenedLines, Join, IsBlock, AreLines, EndsLine, NameOf, SafeLines;
    var blocks := ScanServices(text);
    if blocks.None? {
      return None;
    }
    var k := PositionOf(blocks.value, "redis");
    if k == |blocks.value| || PositionOf(blocks.value, "sub2api") == |blocks.value| || !reviewed {
      return None;
    }
    var put := HardenedLines(image, networks, aclFile);
    HardenedIsBlock(image, networks, aclFile);
    ScanCommutes(text, k, put);
    ReplacementCommutes(text, k, put);
    var result := Replaced(text, k, Join(put));
    var again := ScanServices(result);
    if again.None? || !accepted {
      return None;
    }
    SameServicesIntro(text, result, k, put);
    return Some(result);
  }

  /** The scanner finds the same services in the same order; only `redis` has another text, `put`. */
  ghost predicate SameServices(text: string, out: string, put: string) {
    && Scan(text).Some? && Scan(out).Some?
    && var was, now := Scan(text).value, Scan(out).value;
       && |now| == |was|
       && forall i :: 0 <= i < |was| ==>
            now[i].name == was[i].name && now[i].body == if i == PositionOf(was, "redis") then put else was[i].body
  }

  lemma SameServicesIntro(text: string, out: string, k: nat, put: seq<string>)
    requires Scan(text).Some? && k < |Scan(text).value| && k == PositionOf(Scan(text).value, "redis")
    requires Scan(out).Some? && |Scan(out).value| == |Scan(text).value|
    requires var was := Scan(text).value;
             forall i :: 0 <= i < |was| ==>
               EntryAfter(was[i], Scan(out).value[i], i, k, put, |Join(put)| - |was[k].body|)
    ensures SameServices(text, out, Join(put))
  {
    hide Scan, Join, PositionOf;
  }

  /* ---------------------------------------------------------------- a full file */

  lemma {:induction false} AsciiSize(s: string)
    requires forall i :: 0 <= i < |s| ==> s[i] as int < 0x80
    ensures Utf8Size(s) == |s|
  {
    if s != "" {
      AsciiSize(s[..|s| - 1]);
    }
  }

  lemma {:induction false} SizeIsAtLeast(s: string)
    ensures Utf8Size(s) >= |s|
  {
    if s != "" {
      SizeIsAtLeast(s[..|s| - 1]);
    }
  }

  /** A line that the scanner keeps as it is. */
  predicate IsPlainLine(line: string) { IsLine(line) && EndsLine(line) && SafeLine(line) }

  lemma ServicesLine()
    ensures IsPlainLine("services:\n") && KindOf("services:\n") == Services && Utf8Size("services:\n") == 10
  {
    AsciiSize("services:\n");
    hide Utf8Size;
    assert Bare("services:\n") == "services:";
    assert "services:\n"[0] == 's' && "include:"[0] == 'i' && "name:"[0] == 'n' && "    extends:"[0] == ' ' && "    <<:"[0] == ' ';
  }

  lemma CommentLine(n: nat)
    requires n > 1
    ensures IsPlainLine(Comment(n)) && KindOf(Comment(n)) == Other && Utf8Size(Comment(n)) == n
  {
    var line := Comment(n);
    AsciiSize(line);
    hide Utf8Size;
    assert line[0] == '#' && Bare(line) == line[..n - 1];
    assert n > 2 ==> Bare(line)[0] == '#';
  }

  function FullDoc(comment: string): Doc { Doc([], "services:\n", [comment], [["  redis:\n"]], []) }

  lemma FullIsRead(comment: string)
    requires IsPlainLine(comment) && KindOf(comment) == Other
    ensures var lines := FileLines(comment);
            SplitLines(Join(lines)) == lines && Read(lines) == Some(FullDoc(comment)) && SafeLines(lines)
  {
    var d, lines := FullDoc(comment), FileLines(comment);
    RedisLine();
    ServicesLine();
    hide KindOf, IsLine, EndsLine, SafeLine, SplitLines, Read;
    SplitJoin(lines);
    assert Flatten(d.blocks) == ["  redis:\n"] by { assert d.blocks[1..] == []; }
    assert Unparse(d) == lines;
    ReadUnparse(d);
  }

  /** A file of full size is scanned, but the generated service does not fit into it. */
  lemma FullFileHasNoRoom(image: string, networks: seq<string>, aclFile: string) returns (text: string)
    requires OneLine(image) && AllOneLine(networks) && OneLine(aclFile)
    ensures Scan(text).Some? && Scan(text).value != [] && Scan(text).value[0].name == "redis"
    ensures Scan(Replaced(text, 0, Join(HardenedLines(image, networks, aclFile)))).None?
  {
    var comment := Comment(MAX_COMPOSE_BYTES - 19);
    var put := HardenedLines(image, networks, aclFile);
    CommentLine(MAX_COMPOSE_BYTES - 19);
    HardenedIsBlock(image, networks, aclFile);
    HardenedIsLong(image, networks, aclFile);
    hide *;
    text := FullText(comment);
    ScanCommutes(text, 0, put);
  }

  lemma FullText(comment: string) returns (text: string)
    requires IsPlainLine(comment) && KindOf(comment) == Other && Utf8Size(comment) == MAX_COMPOSE_BYTES - 19
    ensures Scan(text).Some? && |Scan(text).value| == 1 && Scan(text).value[0].name == "redis"
    ensures ServiceBlocks(text) == Scan(text) && forall put :: NewSize(text, 0, put) == MAX_COMPOSE_BYTES - 9 + Utf8Size(put)
  {
    text := Join(FileLines(comment));
    FullIsRead(comment);
    FullSize(comment);
    RedisLine();
    hide Read, SplitLines, Join, KindOf, SafeLines, IsPlainLine, FileLines;
    FullEntries(text, FullDoc(comment));
  }

  lemma FullSize(comment: string)
    ensures Utf8Size(Join(FileLines(comment))) == 19 + Utf8Size(comment) && Utf8Size("  redis:\n") == 9
  {
    AsciiSize("  redis:\n");
    AsciiSize("services:\n");
    hide Utf8Size;
    var lines := FileLines(comment);
    assert lines[1..] == [comment, "  redis:\n"] && lines[1..][1..] == ["  redis:\n"] && ["  redis:\n"][1..] == [];
    assert Join(["  redis:\n"]) == "  redis:\n" + Join([]) == "  redis:\n";
    assert Join(lines) == "services:\n" + (comment + "  redis:\n");
    Utf8Concat("services:\n", comment + "  redis:\n");
    Utf8Concat(comment, "  redis:\n");
  }

  lemma FullEntries(text: string, d: Doc)
    requires Read(SplitLines(text)) == Some(d) && d.blocks == [["  redis:\n"]] && KindOf("  redis:\n") == Service("redis")
    ensures ServiceBlocks(text).Some? && |ServiceBlocks(text).value| == 1
    ensures var e := ServiceBlocks(text).value[0]; e.name == "redis" && e.body == "  redis:\n"
  {
    hide Read, SplitLines, KindOf;
    assert ["  redis:\n"][1..] == [];
    assert Join(["  redis:\n"]) == "  redis:\n" + Join([]) == "  redis:\n";
    ServiceBlocksFrom(text, d);
    EntryAt(d.blocks, FirstOffset(d), 0);
  }

  lemma HardenedIsLong(image: string, networks: seq<string>, aclFile: string)
    ensures Utf8Size(Join(HardenedLines(image, networks, aclFile))) > 9
  {
    var put, bodies := HardenedLines(image, networks, aclFile), BodyLines(image, networks, aclFile);
    hide BodyLines;
    assert bodies != [] by { HasBody(image, networks, aclFile); }
    assert put[1..] == Indented(bodies);
    assert |Join(put)| >= 9 + |Indented(bodies)[0]|;
    SizeIsAtLeast(Join(put));
  }

  lemma HasBody(image: string, networks: seq<string>, aclFile: string)
    ensures BodyLines(image, networks, aclFile) != []
  {
  }
}
