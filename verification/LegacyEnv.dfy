/** parse_legacy_environment and replace_legacy_redis_password of deploy/harden-legacy-redis.py. */
module LegacyEnv {
  import opened Text
  import opened Lines

  const MAX_ENV_BYTES := 128 * 1024
  const PASSWORD := "REDIS_PASSWORD"

  /** Printable ASCII without quotes, backslash, `#` and `$`. */
  predicate IsValueChar(c: char) {
    '!' <= c <= '~' && c != '\'' && c != '"' && c != '\\' && c != '#' && c != '$'
  }

  predicate AllValueChars(s: string) { forall i :: 0 <= i < |s| ==> IsValueChar(s[i]) }

  predicate ValidPassword(s: string) { 32 <= |s| <= 4096 && AllValueChars(s) }

  predicate IsUpper(c: char) { 'A' <= c <= 'Z' }

  /** ENV_KEY_RE */
  predicate IsKey(s: string) {
    s != "" && IsUpper(s[0]) && forall i :: 0 <= i < |s| ==> IsUpper(s[i]) || '0' <= s[i] <= '9' || s[i] == '_'
  }

  predicate IsAscii(text: string) {
    forall i :: 0 <= i < |text| ==> text[i] < 128 as char && text[i] != '\r' && text[i] != 0 as char
  }

  /** `raw.partition("=")`: where the separator stands, or the length of `raw`. */
  function Separator(raw: string): (i: nat)
    ensures i <= |raw| && (i < |raw| ==> raw[i] == '=')
    ensures forall k :: 0 <= k < i ==> raw[k] != '='
  {
    if raw == "" || raw[0] == '=' then 0 else 1 + Separator(raw[1..])
  }

  datatype Reading = Skip | Pair(key: string, value: string) | Bad

  function ReadLine(line: string): Reading {
    var raw := Bare(line);
    if raw == "" || raw[0] == '#' then Skip
    else
      var i := Separator(raw);
      if i == |raw| then Bad
      else
        var key, value := raw[..i], raw[i + 1..];
        if !IsKey(key) || StartsWith(key, "COMPOSE_") || StartsWith(key, "DOCKER_") || value == "" || !AllValueChars(value)
        then Bad else Pair(key, value)
  }

  /** The literal assignments of the lines; None where the source raises. */
  function Values(lines: seq<string>): Option<map<string, string>> {
    if lines == [] then Some(map[])
    else
      var n := |lines| - 1;
      var before := Values(lines[..n]);
      if before.None? then None
      else
        match ReadLine(lines[n])
        case Skip => before
        case Pair(key, value) => if key in before.value then None else Some(before.value[key := value])
        case Bad => None
  }

  /** parse_legacy_environment */
  function Parse(text: string): Option<map<string, string>> {
    if |text| > MAX_ENV_BYTES || !IsAscii(text) then None
    else
      var values := Values(SplitLines(text));
      if values.None? || PASSWORD !in values.value || !ValidPassword(values.value[PASSWORD]) then None else values
  }

  method ParseEnvironment(text: string) returns (r: Option<map<string, string>>)
    ensures r == Parse(text)
  {
    hide ReadLine, SplitLines;
    if |text| > MAX_ENV_BYTES || !IsAscii(text) {
      return None;
    }
    var lines := SplitLines(text);
    var values: map<string, string> := map[];
    for i := 0 to |lines|
      invariant Values(lines[..i]) == Some(values)
    {
      assert lines[..i + 1][..i] == lines[..i];
      var reading := ReadLine(lines[i]);
      if reading.Bad? || (reading.Pair? && reading.key in values) {
        PrefixFails(lines, i + 1, |lines|);
        assert lines[..|lines|] == lines;
        return None;
      }
      if reading.Pair? {
        values := values[reading.key := reading.value];
      }
    }
    assert lines[..|lines|] == lines;
    if PASSWORD !in values || !ValidPassword(values[PASSWORD]) {
      return None;
    }
    return Some(values);
  }

  lemma {:induction false} PrefixFails(lines: seq<string>, i: nat, j: nat)
    requires i <= j <= |lines| && Values(lines[..i]).None?
    ensures Values(lines[..j]).None?
    decreases j
  {
    hide Values;
    if i < j {
      PrefixFails(lines, i, j - 1);
      assert lines[..j][..j - 1] == lines[..j - 1];
      LongerFails(lines[..j]);
    }
  }

  lemma LongerFails(lines: seq<string>)
    requires lines != [] && Values(lines[..|lines| - 1]).None?
    ensures Values(lines).None?
  {
    hide ReadLine;
  }

  const ASSIGNMENT := PASSWORD + "="

  function NewLine(line: string, password: string): string {
    if StartsWith(Bare(line), ASSIGNMENT) then ASSIGNMENT + password + "\n" else line
  }

  function NewLines(lines: seq<string>, password: string): (r: seq<string>)
    ensures |r| == |lines| && forall i :: 0 <= i < |r| ==> r[i] == NewLine(lines[i], password)
  {
    seq(|lines|, i requires 0 <= i < |lines| => NewLine(lines[i], password))
  }

  /** The last line assigns the password and lacks its line feed. */
  predicate OpenPassword(lines: seq<string>) {
    lines != [] && !EndsLine(lines[|lines| - 1]) && StartsWith(Bare(lines[|lines| - 1]), ASSIGNMENT)
  }

  /** The size of the file with the new password, which always ends in a line feed. */
  function NewSize(text: string, password: string): int
    requires Parse(text).Some?
  {
    |text| - |Parse(text).value[PASSWORD]| + |password| + if OpenPassword(SplitLines(text)) then 1 else 0
  }

  /** replace_legacy_redis_password: None where it raises. */
  method ReplacePassword(text: string, password: string) returns (r: Option<string>)
    ensures r.Some? <==> ValidPassword(password) && Parse(text).Some?
    ensures r.Some? ==> r.value == Join(NewLines(SplitLines(text), password))
    ensures r.Some? ==> |r.value| == NewSize(text, password)
    ensures r.Some? && NewSize(text, password) <= MAX_ENV_BYTES ==>
              Parse(r.value) == Some(Parse(text).value[PASSWORD := password])
  {
    hide SplitLines, Join, Values, ReadLine, Bare, StartsWith, Parse, IsAscii, ValidPassword;
    if !ValidPassword(password) {
      return None;
    }
    var values := ParseEnvironment(text);
    if values.None? {
      return None;
    }
    var lines := SplitLines(text);
    var output: seq<string> := [];
    var replaced := false;
    for i := 0 to |lines|
      invariant output == NewLines(lines[..i], password)
      invariant replaced <==> exists k :: 0 <= k < i && StartsWith(Bare(lines[k]), ASSIGNMENT)
    {
      var line := lines[i];
      if StartsWith(Bare(line), ASSIGNMENT) {
        output := output + [ASSIGNMENT + password + "\n"];
        replaced := true;
      } else {
        output := output + [line];
      }
    }
    assert lines[..|lines|] == lines;
    ParsedHasPassword(text);
    HasAssignment(lines);
    assert replaced;
    ReplacementParses(text, password);
    return Some(Join(output));
  }

  /* ---------------------------------------------------------------- the effect of the replacement */

  /** A line that assigns the password is exactly one that starts with the assignment. */
  lemma PasswordLine(line: string)
    requires !ReadLine(line).Bad?
    ensures StartsWith(Bare(line), ASSIGNMENT) <==> ReadLine(line).Pair? && ReadLine(line).key == PASSWORD
  {
    var raw := Bare(line);
    if ReadLine(line).Pair? && ReadLine(line).key == PASSWORD {
      var i := Separator(raw);
      assert raw[..i + 1] == raw[..i] + [raw[i]];
    }
    if StartsWith(raw, ASSIGNMENT) {
      PasswordHasNoSeparator();
      SeparatorBehind(raw);
    }
  }

  lemma PasswordHasNoSeparator()
    ensures forall i :: 0 <= i < |PASSWORD| ==> PASSWORD[i] != '='
    ensures IsKey(PASSWORD) && !StartsWith(PASSWORD, "COMPOSE_") && !StartsWith(PASSWORD, "DOCKER_")
  {
    assert PASSWORD[0] == 'R';
  }

  lemma SeparatorBehind(raw: string)
    requires StartsWith(raw, ASSIGNMENT)
    ensures Separator(raw) == |PASSWORD| && raw[..|PASSWORD|] == PASSWORD && raw[0] == 'R'
  {
    PasswordHasNoSeparator();
    assert PASSWORD[0] == 'R';
    KeyBehind(raw, PASSWORD);
    assert raw[..|PASSWORD|][0] == raw[0];
  }

  lemma KeyBehind(raw: string, key: string)
    requires StartsWith(raw, key + "=") && forall i :: 0 <= i < |key| ==> key[i] != '='
    ensures Separator(raw) == |key| && raw[..|key|] == key
  {
    var n := |key|;
    assert raw[..n + 1] == key + "=";
    assert raw[n] == (key + "=")[n];
    assert raw[..n] == raw[..n + 1][..n] == key;
    assert forall k :: 0 <= k < n ==> raw[k] == raw[..n][k];
  }

  lemma NewLineReads(password: string)
    requires ValidPassword(password)
    ensures var line := ASSIGNMENT + password + "\n";
            ReadLine(line) == Pair(PASSWORD, password) && IsLine(line) && EndsLine(line)
  {
    var line := ASSIGNMENT + password + "\n";
    var raw := ASSIGNMENT + password;
    assert Bare(line) == raw;
    assert raw[..|ASSIGNMENT|] == ASSIGNMENT;
    SeparatorBehind(raw);
    PasswordHasNoSeparator();
    assert raw[|PASSWORD| + 1..] == password;
    AssignmentHasNoNewline();
  }

  lemma AssignmentHasNoNewline()
    ensures forall i :: 0 <= i < |ASSIGNMENT| ==> ASSIGNMENT[i] != '\n'
  {
    assert forall i :: 0 <= i < |PASSWORD| ==> PASSWORD[i] != '\n';
  }

  function WithPassword(m: map<string, string>, password: string): map<string, string> {
    if PASSWORD in m then m[PASSWORD := password] else m
  }

  lemma {:induction false} ValuesReplaced(lines: seq<string>, password: string)
    requires Values(lines).Some? && ValidPassword(password)
    ensures Values(NewLines(lines, password)) == Some(WithPassword(Values(lines).value, password))
  {
    hide ReadLine, StartsWith, Bare, ValidPassword, NewLine;
    if lines != [] {
      var n := |lines| - 1;
      ValuesReplaced(lines[..n], password);
      assert NewLines(lines, password)[..n] == NewLines(lines[..n], password);
      var m := Values(lines[..n]).value;
      OneLineReplaced(lines[n], password);
      var reading := ReadLine(lines[n]);
      if reading.Pair? {
        OneMore(m, reading.key, reading.value, password);
      }
    }
  }

  /** The replaced line reads as the same assignment, except for the password. */
  lemma OneLineReplaced(line: string, password: string)
    requires !ReadLine(line).Bad? && ValidPassword(password)
    ensures ReadLine(NewLine(line, password))
         == if ReadLine(line).Pair? && ReadLine(line).key == PASSWORD then Pair(PASSWORD, password) else ReadLine(line)
  {
    hide ReadLine, StartsWith, Bare, ValidPassword;
    PasswordLine(line);
    NewLineReads(password);
  }

  lemma OneMore(m: map<string, string>, key: string, value: string, password: string)
    requires key !in m
    ensures WithPassword(m[key := value], password)
         == WithPassword(m, password)[key := if key == PASSWORD then password else value]
  {
  }

  lemma {:induction false} HasAssignment(lines: seq<string>)
    requires Values(lines).Some? && PASSWORD in Values(lines).value
    ensures exists k :: 0 <= k < |lines| && StartsWith(Bare(lines[k]), ASSIGNMENT)
  {
    hide ReadLine, StartsWith, Bare;
    var n := |lines| - 1;
    PasswordLine(lines[n]);
    if PASSWORD in Values(lines[..n]).value {
      HasAssignment(lines[..n]);
      var k :| 0 <= k < n && StartsWith(Bare(lines[..n][k]), ASSIGNMENT);
      assert StartsWith(Bare(lines[k]), ASSIGNMENT);
    }
  }

  lemma ParsedHasPassword(text: string)
    requires Parse(text).Some?
    ensures Values(SplitLines(text)) == Parse(text) && PASSWORD in Parse(text).value
  {
    hide Values, SplitLines, IsAscii, ValidPassword;
  }

  lemma NewAreLines(lines: seq<string>, password: string)
    requires AreLines(lines) && ValidPassword(password)
    ensures AreLines(NewLines(lines, password))
  {
    hide IsLine, EndsLine;
    NewLineReads(password);
  }

  lemma {:induction false} JoinAscii(lines: seq<string>)
    requires forall i :: 0 <= i < |lines| ==> IsAscii(lines[i])
    ensures IsAscii(Join(lines))
  {
    if lines != [] {
      JoinAscii(lines[1..]);
    }
  }

  lemma {:induction false} LinesAscii(text: string)
    requires IsAscii(text)
    ensures forall i :: 0 <= i < |SplitLines(text)| ==> IsAscii(SplitLines(text)[i])
    decreases |text|
  {
    if text != "" {
      LinesAscii(text[FirstLine(text)..]);
    }
  }

  lemma AssignedValue(line: string)
    requires ReadLine(line).Pair? && ReadLine(line).key == PASSWORD
    ensures |line| == |ASSIGNMENT| + |ReadLine(line).value| + if EndsLine(line) then 1 else 0
  {
  }

  function Delta(lines: seq<string>, password: string): int
    requires Values(lines).Some?
  {
    if PASSWORD !in Values(lines).value then 0
    else |password| - |Values(lines).value[PASSWORD]| + if OpenPassword(lines) then 1 else 0
  }

  lemma {:induction false} SizeReplaced(lines: seq<string>, password: string)
    requires Values(lines).Some? && AreLines(lines)
    ensures |Join(NewLines(lines, password))| == |Join(lines)| + Delta(lines, password)
  {
    hide ReadLine, StartsWith, Bare, EndsLine, IsLine, Join, NewLine;
    if lines != [] {
      var n, now := |lines| - 1, NewLines(lines, password);
      SizeReplaced(lines[..n], password);
      assert now[..n] == NewLines(lines[..n], password);
      JoinLast(lines);
      JoinLast(now);
      LineDelta(lines[n], password);
    }
  }

  lemma JoinLast(lines: seq<string>)
    requires lines != []
    ensures |Join(lines)| == |Join(lines[..|lines| - 1])| + |lines[|lines| - 1]|
  {
    var n := |lines| - 1;
    assert lines == lines[..n] + [lines[n]];
    JoinConcat(lines[..n], [lines[n]]);
    assert [lines[n]][1..] == [];
  }

  lemma LineDelta(line: string, password: string)
    requires !ReadLine(line).Bad?
    ensures |NewLine(line, password)| - |line|
         == if !(ReadLine(line).Pair? && ReadLine(line).key == PASSWORD) then 0
            else |password| - |ReadLine(line).value| + if EndsLine(line) then 0 else 1
    ensures StartsWith(Bare(line), ASSIGNMENT) <==> ReadLine(line).Pair? && ReadLine(line).key == PASSWORD
  {
    hide ReadLine, StartsWith, Bare, EndsLine;
    PasswordLine(line);
    if ReadLine(line).Pair? && ReadLine(line).key == PASSWORD {
      AssignedValue(line);
    }
  }

  /** Parsing the output gives the old values with only the password changed exactly if the file has room
      for the new password; without room the output is refused by its own parser. */
  lemma ReplacementParses(text: string, password: string)
    requires Parse(text).Some? && ValidPassword(password)
    ensures var out := Join(NewLines(SplitLines(text), password));
            && |out| == NewSize(text, password)
            && Parse(out) == if NewSize(text, password) <= MAX_ENV_BYTES then Some(Parse(text).value[PASSWORD := password]) else None
  {
    hide Values, IsAscii, SplitLines, Join, NewLines, AreLines, OpenPassword;
    var lines := SplitLines(text);
    var now := NewLines(lines, password);
    JoinSplit(text);
    SizeReplaced(lines, password);
    NewAreLines(lines, password);
    SplitJoin(now);
    ValuesReplaced(lines, password);
    LinesAscii(text);
    NewAscii(lines, password);
    JoinAscii(now);
  }

  function Repeat(c: char, n: nat): (s: string)
    ensures |s| == n && forall i :: 0 <= i < n ==> s[i] == c
  {
    seq(n, _ => c)
  }

  /** A file of full size is accepted, a valid password one character longer is put into it, and the
      result is refused. */
  lemma FullFileIsRefused() returns (text: string, password: string)
    ensures Parse(text).Some? && ValidPassword(password) && |text| == MAX_ENV_BYTES
    ensures Parse(Join(NewLines(SplitLines(text), password))).None?
  {
    text := FullFile();
    password := Repeat('x', 33);
    LongerByOne(text);
    hide Parse, NewLines, SplitLines, Join, OpenPassword;
    ReplacementParses(text, password);
  }

  lemma LongerByOne(text: string)
    requires Parse(text).Some?
    ensures NewSize(text, Repeat('x', 33)) >= |text| - |Parse(text).value[PASSWORD]| + 33
  {
    hide Parse, OpenPassword, SplitLines;
  }

  lemma FullFile() returns (text: string)
    ensures |text| == MAX_ENV_BYTES && Parse(text).Some? && |Parse(text).value[PASSWORD]| == 32
  {
    var was := Repeat('x', 32);
    var second := Repeat('#', MAX_ENV_BYTES - |ASSIGNMENT| - 33);
    assert ValidPassword(was);
    CommentLine(second);
    hide ReadLine, ValidPassword, IsAscii, Parse, IsLine;
    text := WithComment(was, second);
  }

  /** A file of one assignment and one comment. */
  lemma WithComment(password: string, comment: string) returns (text: string)
    requires ValidPassword(password) && ReadLine(comment).Skip? && IsLine(comment) && IsAscii(comment)
    requires |ASSIGNMENT| + |password| + 1 + |comment| <= MAX_ENV_BYTES
    ensures |text| == |ASSIGNMENT| + |password| + 1 + |comment| && Parse(text) == Some(map[PASSWORD := password])
  {
    var first := ASSIGNMENT + password + "\n";
    NewLineReads(password);
    FirstAscii(password);
    assert IsAscii(first + comment);
    hide ReadLine, IsLine, EndsLine, SplitLines, Values, IsAscii, ValidPassword;
    TwoLines(first, comment);
    ValueOfTwo(first, comment);
    text := first + comment;
  }

  lemma FirstAscii(password: string)
    requires ValidPassword(password)
    ensures IsAscii(ASSIGNMENT + password + "\n")
  {
    assert IsAscii(password);
    assert IsAscii(ASSIGNMENT) by { assert IsAscii(PASSWORD); }
  }

  lemma TwoLines(first: string, second: string)
    requires IsLine(first) && EndsLine(first) && IsLine(second)
    ensures SplitLines(first + second) == [first, second]
  {
    hide IsLine, EndsLine, SplitLines;
    var lines := [first, second];
    assert lines[1..] == [second] && [second][1..] == [];
    assert Join([second]) == second + Join([]) == second;
    SplitJoin(lines);
  }

  lemma ValueOfTwo(first: string, second: string)
    requires ReadLine(first).Pair? && ReadLine(second).Skip?
    ensures Values([first, second]) == Some(map[ReadLine(first).key := ReadLine(first).value])
  {
    hide ReadLine;
    assert [first, second][..1] == [first] && [first][..0] == [];
    assert Values([]) == Some(map[]);
  }

  lemma CommentLine(line: string)
    requires line != "" && forall i :: 0 <= i < |line| ==> line[i] == '#'
    ensures ReadLine(line).Skip? && IsLine(line) && IsAscii(line)
  {
    assert Bare(line)[0] == '#';
  }

  lemma NewAscii(lines: seq<string>, password: string)
    requires ValidPassword(password) && forall i :: 0 <= i < |lines| ==> IsAscii(lines[i])
    ensures forall i :: 0 <= i < |lines| ==> IsAscii(NewLines(lines, password)[i])
  {
    assert IsAscii(password);
    assert IsAscii(ASSIGNMENT) by { assert IsAscii(PASSWORD); }
  }

  /* ---------------------------------------------------------------- what a line is */

  /** The code points of printable ASCII but for space and five characters that a shell or Compose expands. */
  predicate Literal(c: char) { 33 <= c as int <= 126 && c !in {'\'', '"', '\\', '#', '$'} }

  predicate AllLiteral(s: string) { forall c :: c in s ==> Literal(c) }

  /** `[A-Z][A-Z0-9_]*`, by code point. */
  predicate Name(s: string) {
    s != "" && 65 <= s[0] as int <= 90 && forall c :: c in s ==> 65 <= c as int <= 90 || 48 <= c as int <= 57 || c == '_'
  }

  ghost predicate Opens(s: string, head: string) { exists rest :: s == head + rest }

  lemma OpensIff(s: string, head: string)
    ensures StartsWith(s, head) <==> Opens(s, head)
  {
    if head <= s {
      assert s == head + s[|head|..];
    }
  }

  lemma LiteralIff(s: string)
    ensures AllValueChars(s) <==> AllLiteral(s)
  {
    if AllValueChars(s) {
      forall c | c in s
        ensures Literal(c)
      {
        var i :| 0 <= i < |s| && s[i] == c;
      }
    }
    if AllLiteral(s) {
      assert forall i :: 0 <= i < |s| ==> s[i] in s;
    }
  }

  lemma NameIff(s: string)
    ensures IsKey(s) <==> Name(s)
  {
    if IsKey(s) {
      forall c | c in s
        ensures 65 <= c as int <= 90 || 48 <= c as int <= 57 || c == '_'
      {
        var i :| 0 <= i < |s| && s[i] == c;
      }
    }
    if Name(s) {
      assert forall i :: 0 <= i < |s| ==> s[i] in s;
    }
  }

  /** The line, apart from its line feed, is `key=value`, with an upper-case name that belongs to neither
      Compose nor Docker and a literal value. */
  ghost predicate Assigns(line: string, key: string, value: string) {
    && Bare(line) == key + "=" + value && Name(key) && value != "" && AllLiteral(value)
    && !Opens(key, "COMPOSE_") && !Opens(key, "DOCKER_")
  }

  lemma SeparatorIs(key: string, value: string)
    requires Name(key)
    ensures Separator(key + "=" + value) == |key|
  {
    var raw := key + "=" + value;
    forall k | 0 <= k < |key|
      ensures raw[k] != '='
    {
      assert raw[k] == key[k] && key[k] in key;
    }
    assert raw[|key|] == '=';
  }

  /** A line is skipped, assigns, or makes the file unacceptable. */
  lemma ReadLineIff(line: string, key: string, value: string)
    ensures ReadLine(line) == Skip <==> Bare(line) == "" || Opens(Bare(line), "#")
    ensures ReadLine(line) == Pair(key, value) <==> Assigns(line, key, value)
  {
    var raw := Bare(line);
    OpensIff(raw, "#");
    assert raw != "" ==> (StartsWith(raw, "#") <==> raw[0] == '#');
    var i := Separator(raw);
    OpensIff(key, "COMPOSE_");
    OpensIff(key, "DOCKER_");
    LiteralIff(value);
    NameIff(key);
    hide Opens, AllLiteral, Name, IsKey, AllValueChars, StartsWith;
    if ReadLine(line) == Pair(key, value) {
      assert raw == key + "=" + value;
    }
    if Assigns(line, key, value) {
      SeparatorIs(key, value);
      assert raw[..|key|] == key && raw[|key| + 1..] == value;
      assert raw[0] != '#' by {
        NotAComment(key, value);
      }
    }
  }

  lemma NotAComment(key: string, value: string)
    requires Name(key)
    ensures (key + "=" + value)[0] != '#'
  {
  }

  /** A file is refused before it is read exactly if it is too large or holds a carriage return, a NUL or a
      character beyond ASCII; a password, exactly if its length or a character is not admitted. */
  lemma AdmittedIff(text: string)
    ensures IsAscii(text) <==> forall c :: c in text ==> 1 <= c as int <= 127 && c as int != 13
    ensures ValidPassword(text) <==> 32 <= |text| <= 4_096 && AllLiteral(text)
  {
    LiteralIff(text);
    if IsAscii(text) {
      forall c | c in text
        ensures 1 <= c as int <= 127 && c as int != 13
      {
        var i :| 0 <= i < |text| && text[i] == c;
      }
    }
    if forall c :: c in text ==> 1 <= c as int <= 127 && c as int != 13 {
      assert forall i :: 0 <= i < |text| ==> text[i] in text;
    }
  }
}
