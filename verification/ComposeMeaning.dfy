/** What the scanner's kinds of lines, its refusals and its sizes mean: the regular expressions of
    deploy/harden-legacy-redis.py as the words they match, and UTF-8 as the bytes it writes. */
module ComposeMeaning {
  import opened Text
  import opened Lines
  import opened Compose
  import opened ComposeLimits
  import opened ComposeScanner
  import opened ComposeHardened

  /* ---------------------------------------------------------------- kinds of lines */

  /** `[A-Za-z]`, by code point. */
  predicate Letter(c: char) { 65 <= c as int <= 90 || 97 <= c as int <= 122 }

  /** `[A-Za-z0-9]` */
  predicate Alphanumeric(c: char) { Letter(c) || 48 <= c as int <= 57 }

  /** `[A-Za-z0-9_.-]` */
  predicate NameSymbol(c: char) { Alphanumeric(c) || c in {'_', '.', '-'} }

  predicate AllSymbols(s: string) { forall i :: 0 <= i < |s| ==> NameSymbol(s[i]) }

  predicate Gap(s: string) { forall i :: 0 <= i < |s| ==> s[i] == ' ' || s[i] == '\t' }

  /** Spaces and tabs, and then nothing or a comment. */
  ghost predicate Trailer(s: string) {
    exists n: nat :: n <= |s| && Gap(s[..n]) && (n == |s| || s[n] == '#')
  }

  /** `  name:`, and a trailer behind it. */
  ghost predicate ServiceLine(line: string, name: string) {
    && name != "" && Alphanumeric(name[0]) && AllSymbols(name)
    && exists tail :: line == "  " + name + ":" + tail && Trailer(tail)
  }

  /** A key at the beginning of the line, and a trailer behind it. */
  ghost predicate KeyLine(line: string) {
    exists name, tail :: line == name + ":" + tail && name != "" && Letter(name[0]) && AllSymbols(name) && Trailer(tail)
  }

  lemma {:induction false} TrailerIff(s: string)
    ensures IsBlankOrComment(s) <==> Trailer(s)
  {
    if s == "" {
      assert Gap(s[..0]);
    } else if s[0] == '#' {
      assert Gap(s[..0]);
    } else {
      TrailerIff(s[1..]);
      if IsBlankOrComment(s) {
        var n: nat :| n <= |s[1..]| && Gap(s[1..][..n]) && (n == |s[1..]| || s[1..][n] == '#');
        assert s[..n + 1] == [s[0]] + s[1..][..n];
        assert n + 1 <= |s| && Gap(s[..n + 1]) && (n + 1 == |s| || s[n + 1] == '#');
      }
      if Trailer(s) {
        var n: nat :| n <= |s| && Gap(s[..n]) && (n == |s| || s[n] == '#');
        assert n > 0;
        assert s[..n][0] == s[0];
        assert s[1..][..n - 1] == s[..n][1..];
        assert n - 1 <= |s[1..]| && Gap(s[1..][..n - 1]) && (n - 1 == |s[1..]| || s[1..][n - 1] == '#');
      }
    }
  }

  lemma {:induction false} NameEnds(name: string, rest: string)
    requires AllSymbols(name) && (rest == "" || !NameSymbol(rest[0]))
    ensures NameLength(name + rest) == |name|
  {
    if name == "" {
      assert name + rest == rest;
    } else {
      assert (name + rest)[1..] == name[1..] + rest;
      NameEnds(name[1..], rest);
    }
  }

  lemma {:induction false} NameIsSymbols(s: string)
    ensures AllSymbols(s[..NameLength(s)])
  {
    if s != "" && IsNameChar(s[0]) {
      NameIsSymbols(s[1..]);
      assert s[..NameLength(s)] == [s[0]] + s[1..][..NameLength(s[1..])];
    }
  }

  /** SERVICE_RE matches exactly the service lines, and its group is their name. */
  lemma ServiceIff(line: string, name: string)
    ensures name != "" && ServiceName(line) == name <==> ServiceLine(line, name)
  {
    hide IsBlankOrComment;
    if name != "" && ServiceName(line) == name {
      var n := NameLength(line[2..]);
      var tail := line[3 + n..];
      NameIsSymbols(line[2..]);
      TrailerIff(tail);
      assert line[2..][..n] == line[2..2 + n] == name;
      assert line[2 + n..][1..] == tail;
      assert line == "  " + name + ":" + tail;
    }
    if ServiceLine(line, name) {
      var tail :| line == "  " + name + ":" + tail && Trailer(tail);
      TrailerIff(tail);
      assert line[2..] == name + (":" + tail);
      NameEnds(name, ":" + tail);
      assert line[2 + |name|..] == ":" + tail;
      assert line[2 + |name|..][1..] == tail;
      assert line[2] == name[0];
    }
  }

  /** TOP_LEVEL_KEY_RE matches exactly the key lines. */
  lemma TopLevelIff(line: string)
    ensures IsTopLevel(line) <==> KeyLine(line)
  {
    hide IsBlankOrComment;
    if IsTopLevel(line) {
      var n := NameLength(line);
      var name, tail := line[..n], line[n + 1..];
      NameIsSymbols(line);
      TrailerIff(tail);
      assert line[n..][1..] == tail;
      assert line == name + ":" + tail;
      assert name[0] == line[0];
    }
    if KeyLine(line) {
      var name, tail :| line == name + ":" + tail && name != "" && Letter(name[0]) && AllSymbols(name) && Trailer(tail);
      TrailerIff(tail);
      assert line == name + (":" + tail);
      NameEnds(name, ":" + tail);
      assert line[|name|..] == ":" + tail;
      assert line[|name|..][1..] == tail;
      assert line[0] == name[0];
    }
  }

  /** What a line is, apart from its line feed. */
  lemma KindIff(line: string)
    ensures var s := Bare(line);
            && (KindOf(line) == Services <==> s == "services:")
            && (KindOf(line) == TopLevel <==> s != "services:" && KeyLine(s))
            && forall name :: KindOf(line) == Service(name) <==> ServiceLine(s, name)
  {
    var s := Bare(line);
    hide ServiceName, IsTopLevel, ServiceLine, KeyLine;
    TopLevelIff(s);
    forall name
      ensures KindOf(line) == Service(name) <==> ServiceLine(s, name)
    {
      ServiceIff(s, name);
      if ServiceLine(s, name) {
        IndentedIsNoKey(s, name);
      }
    }
  }

  lemma IndentedIsNoKey(line: string, name: string)
    requires ServiceLine(line, name)
    ensures line != "services:" && !IsTopLevel(line)
  {
    assert line[0] == ' ';
  }

  /* ---------------------------------------------------------------- refusals and sizes */

  ghost predicate Opens(line: string, key: string) { exists rest :: line == key + rest }

  /** A line is refused exactly if it holds a carriage return or a NUL, or opens an include, a project name,
      an extension or a merge. */
  lemma SafeLineIff(line: string)
    ensures SafeLine(line)
       <==> && (forall c :: c in line ==> c as int != 13 && c as int != 0)
            && !Opens(line, "include:") && !Opens(line, "name:") && !Opens(line, "    extends:") && !Opens(line, "    <<:")
  {
    OpensIff(line, "include:");
    OpensIff(line, "name:");
    OpensIff(line, "    extends:");
    OpensIff(line, "    <<:");
    hide Opens, StartsWith;
    assert NoControl(line) <==> forall c :: c in line ==> c as int != 13 && c as int != 0 by {
      if NoControl(line) {
        forall c | c in line
          ensures c as int != 13 && c as int != 0
        {
          var i :| 0 <= i < |line| && line[i] == c;
        }
      } else {
        var i :| 0 <= i < |line| && (line[i] == '\r' || line[i] == 0 as char);
        assert line[i] in line;
      }
    }
  }

  lemma OpensIff(line: string, key: string)
    ensures StartsWith(line, key) <==> Opens(line, key)
  {
    if key <= line {
      assert line == key + line[|key|..];
    }
  }

  /** UTF-8 as RFC 3629 writes it. */
  function Utf8(c: char): (bytes: seq<Byte>) {
    var n := c as int;
    if n <= 0x7F then [n]
    else if n <= 0x7FF then [0xC0 + n / 64, 0x80 + n % 64]
    else if n <= 0xFFFF then [0xE0 + n / 4096, 0x80 + n / 64 % 64, 0x80 + n % 64]
    else [0xF0 + n / 262144, 0x80 + n / 4096 % 64, 0x80 + n / 64 % 64, 0x80 + n % 64]
  }

  /** The number that a lead byte of the given length and its continuation bytes stand for. */
  function Decoded(bytes: seq<Byte>): int {
    var b := Numbers(bytes);
    if |b| == 1 then b[0]
    else if |b| == 2 then 64 * (b[0] - 0xC0) + (b[1] - 0x80)
    else if |b| == 3 then 4096 * (b[0] - 0xE0) + 64 * (b[1] - 0x80) + (b[2] - 0x80)
    else if |b| == 4 then 262144 * (b[0] - 0xF0) + 4096 * (b[1] - 0x80) + 64 * (b[2] - 0x80) + (b[3] - 0x80)
    else -1
  }

  function Numbers(bytes: seq<Byte>): (r: seq<int>)
    ensures |r| == |bytes| && forall i :: 0 <= i < |r| ==> r[i] == bytes[i]
  {
    seq(|bytes|, i requires 0 <= i < |bytes| => bytes[i] as int)
  }

  lemma Digits(n: nat)
    ensures n == 64 * (n / 64) + n % 64
    ensures n / 64 == 64 * (n / 4096) + n / 64 % 64
    ensures n / 4096 == 64 * (n / 262144) + n / 4096 % 64
  {
    assert n / 64 / 64 == n / 4096;
    assert n / 4096 / 64 == n / 262144;
  }

  /** The bytes stand for the character, the lead byte shows their number, and the size counts them. */
  lemma WidthIsUtf8(c: char)
    ensures Decoded(Utf8(c)) == c as int && |Utf8(c)| == Width(c)
    ensures var lead := Utf8(c)[0];
            |Utf8(c)| == if lead < 0x80 then 1 else if lead < 0xE0 then 2 else if lead < 0xF0 then 3 else 4
    ensures forall i :: 1 <= i < |Utf8(c)| ==> 0x80 <= Utf8(c)[i] <= 0xBF
  {
    Digits(c as int);
    var b := Numbers(Utf8(c));
  }

  /* ---------------------------------------------------------------- the generated service */

  function ListLines(networks: seq<string>): seq<string> {
    seq(|networks|, i requires 0 <= i < |networks| => "      - " + networks[i] + "\n")
  }

  lemma {:induction false} IndentedAppend(a: seq<string>, b: seq<string>)
    ensures Indented(a + b) == Indented(a) + Indented(b)
  {
    if a == [] {
      assert a + b == b;
    } else {
      assert (a + b)[1..] == a[1..] + b;
      IndentedAppend(a[1..], b);
    }
  }

  lemma {:induction false} NetworksIndented(networks: seq<string>)
    ensures Indented(NetworkLines(networks)) == ListLines(networks)
  {
    if networks != [] {
      var n := |networks| - 1;
      NetworksIndented(networks[..n]);
      IndentedAppend(NetworkLines(networks[..n]), ["  - " + networks[n]]);
      assert Indented(["  - " + networks[n]]) == ["    " + ("  - " + networks[n]) + "\n"] + Indented([]);
      assert "    " + ("  - " + networks[n]) + "\n" == "      - " + networks[n] + "\n";
      assert ListLines(networks) == ListLines(networks[..n]) + ["      - " + networks[n] + "\n"];
    }
  }

  /** The generated service begins with its image, its container name and its user, and ends with the
      networks in their order, if there are any. */
  lemma HardenedIs(image: string, networks: seq<string>, aclFile: string)
    ensures var lines := HardenedLines(image, networks, aclFile);
            && |lines| >= 4 && lines[0] == "  redis:\n" && lines[1] == "    image: " + image + "\n"
            && lines[2] == "    container_name: sub2api-redis\n" && lines[3] == "    user: \"0:0\"\n"
    ensures networks != [] ==>
              HardenedLines(image, networks, aclFile)
              == HardenedLines(image, [], aclFile) + ["    networks:\n"] + ListLines(networks)
  {
    hide COMMAND_LINES, MEMORY_LINES, LIMIT_LINES, LOG_LINES, INTERVAL_LINES, DATA_LINE, TEMP_LINE, PROBE_LINE;
    var head := ["image: " + image, "container_name: " + CONTAINER, "user: \"0:0\""];
    var fixed := BodyLines(image, [], aclFile);
    var rest := fixed[3..];
    assert fixed == head + rest;
    IndentedAppend(head, rest);
    HeadIndented(image);
    if networks != [] {
      var more := ["networks:"] + NetworkLines(networks);
      assert BodyLines(image, networks, aclFile) == fixed + more;
      IndentedAppend(fixed, more);
      IndentedAppend(["networks:"], NetworkLines(networks));
      NetworksIndented(networks);
      assert Indented(["networks:"]) == ["    networks:\n"] by {
        assert ["networks:"][1..] == [];
        assert "    " + "networks:" + "\n" == "    networks:\n";
      }
      assert Indented(more) == ["    networks:\n"] + ListLines(networks);
      assert HardenedLines(image, networks, aclFile) == ["  redis:\n"] + (Indented(fixed) + Indented(more));
    }
  }

  lemma HeadIndented(image: string)
    ensures Indented(["image: " + image, "container_name: " + CONTAINER, "user: \"0:0\""])
         == ["    image: " + image + "\n", "    container_name: sub2api-redis\n", "    user: \"0:0\"\n"]
  {
    var a, b, c := "image: " + image, "container_name: " + CONTAINER, "user: \"0:0\"";
    assert [a, b, c][1..] == [b, c] && [b, c][1..] == [c] && [c][1..] == [];
    assert Indented([c]) == ["    " + c + "\n"] + Indented([]);
    assert Indented([b, c]) == ["    " + b + "\n"] + Indented([c]);
    assert Indented([a, b, c]) == ["    " + a + "\n"] + Indented([b, c]);
    assert "    " + a + "\n" == "    image: " + image + "\n";
    assert "    " + b + "\n" == "    container_name: sub2api-redis\n";
    assert "    " + c + "\n" == "    user: \"0:0\"\n";
  }
}
