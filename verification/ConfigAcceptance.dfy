/** Which texts the configuration parser accepts, and as what: a grammar of lines written
    without the scanner, and its lift to files and to the whole hierarchy. */
module ConfigAcceptance {
  import opened Options
  import opened ConfigText
  import opened ConfigModel
  import opened ConfigRoundTrip
  import opened ConfigLayers

  // ----- Values

  /** Blanks, a sign and digits that stand for `n`. */
  ghost predicate IsNumber(s: string, n: nat) {
    exists blanks, sign, digits :: StandsFor(s, blanks, sign, digits, n)
  }

  /** Two numbers up to 65535 around the only colon, in fewer than 64 characters. */
  ghost predicate IsPorts(s: string, h: nat, t: nat) {
    && |s| < 64 && h <= 65535 && t <= 65535
    && exists host, target ::
         s == host + ":" + target && ':' !in host && ':' !in target && IsNumber(host, h) && IsNumber(target, t)
  }

  lemma PortsExactly(s: string, h: nat, t: nat)
    ensures ParsePorts(s) == Some((h, t)) <==> IsPorts(s, h, t)
  {
    hide ParsePorts, ParsePositive, IsNumber;
    ParsePortsMeaning(s, h, t);
    if host, target :| IsMapping(s, host, target, h, t) {
      ParsePositiveMeaning(host, h);
      ParsePositiveMeaning(target, t);
      assert IsNumber(host, h) by { NumberExactly(host, h); }
      assert IsNumber(target, t) by { NumberExactly(target, t); }
    }
    if IsPorts(s, h, t) {
      var host, target :| s == host + ":" + target && ':' !in host && ':' !in target
                          && IsNumber(host, h) && IsNumber(target, t);
      NumberExactly(host, h);
      NumberExactly(target, t);
      assert IsMapping(s, host, target, h, t);
    }
  }

  lemma NumberExactly(s: string, n: nat)
    ensures ParsePositive(s) == Some(n) <==> IsNumber(s, n)
  {
    hide ParsePositive, StandsFor;
    ParsePositiveMeaning(s, n);
  }

  /** The values a key may have. */
  ghost predicate LegalValue(key: string, value: string) {
    if key == "port" then exists h, t :: IsPorts(value, h, t)
    else if || key == "auto_discover" || key == "tls_enabled" || key == "enable_metrics"
            || key == "supports_diagnostics" || key == "supports_completion" || key == "supports_formatting"
            || key == "allow_remote" || key == "require_auth"
    then value == "true" || value == "false"
    else if key == "metrics_port" then exists n :: IsNumber(value, n) && n <= 65535
    else if || key == "network_timeout" || key == "max_connections" || key == "discovery_interval"
            || key == "max_cpu_per_service" || key == "timeout"
    then exists n :: IsNumber(value, n)
    else true
  }

  lemma PortsLegal(value: string)
    ensures ParsePorts(value).Some? <==> exists h, t :: IsPorts(value, h, t)
  {
    hide ParsePorts, IsPorts;
    if ParsePorts(value).Some? {
      PortsExactly(value, ParsePorts(value).value.0, ParsePorts(value).value.1);
    }
    if h, t :| IsPorts(value, h, t) { PortsExactly(value, h, t); }
  }

  lemma NumberLegal(value: string)
    ensures ParsePositive(value).Some? <==> exists n :: IsNumber(value, n)
    ensures ParsePositive(value).Some? && ParsePositive(value).value <= MAX_PORT
       <==> exists n :: IsNumber(value, n) && n <= 65535
  {
    hide ParsePositive, IsNumber;
    if ParsePositive(value).Some? { NumberExactly(value, ParsePositive(value).value); }
    if n :| IsNumber(value, n) { NumberExactly(value, n); }
    if n :| IsNumber(value, n) && n <= 65535 { NumberExactly(value, n); }
  }

  lemma ValueExactly(key: string, value: string)
    ensures ValidValue(key, value) <==> LegalValue(key, value)
  {
    hide ParsePorts, ParsePositive, IsPorts, IsNumber;
    PortsLegal(value);
    NumberLegal(value);
  }

  /** The keys that draw no warning: thirteen in the project layer, these and eleven more in
      the others. */
  lemma KnownExactly(key: string, layer: Layer)
    ensures KnownKey(key, Project) <==>
              || key == "network_timeout" || key == "max_connections" || key == "log_directory"
              || key == "workspace_root" || key == "auto_discover" || key == "discovery_interval"
              || key == "tls_enabled" || key == "cert_file" || key == "key_file"
              || key == "max_memory_per_service" || key == "max_cpu_per_service" || key == "enable_metrics"
              || key == "metrics_port"
    ensures layer != Project ==>
              (KnownKey(key, layer) <==>
                 || KnownKey(key, Project)
                 || key == "port" || key == "server_type" || key == "workspace" || key == "log_level"
                 || key == "supports_diagnostics" || key == "supports_completion" || key == "supports_formatting"
                 || key == "max_memory" || key == "timeout" || key == "allow_remote" || key == "require_auth")
  {
  }

  // ----- Trimming

  lemma {:induction false} TrimmedBlanks(s: string)
    requires AllSpaces(s)
    ensures Trimmed(s) == ""
    decreases |s|
  {
    if s != "" { TrimmedBlanks(s[1..]); }
  }

  /** Margins go, whatever they are. */
  lemma {:induction false} TrimmedOf(left: string, s: string, right: string)
    requires AllSpaces(left) && AllSpaces(right) && Tight(s)
    ensures Trimmed(left + s + right) == s
    decreases |left| + |right|
  {
    var t := left + s + right;
    if left != "" {
      assert t[1..] == left[1..] + s + right;
      TrimmedOf(left[1..], s, right);
    } else if s == "" {
      assert t == right;
      TrimmedBlanks(right);
    } else if right != "" {
      var n := |right| - 1;
      assert t[0] == s[0] && t[|t| - 1] == right[n];
      assert t[..|t| - 1] == left + s + right[..n];
      TrimmedOf(left, s, right[..n]);
    } else {
      assert t == s;
    }
  }

  /** A line, its margins and its comment. */
  predicate Stripped(raw: string, left: string, line: string, right: string, comment: string) {
    && raw == left + line + right + comment
    && AllSpaces(left) && AllSpaces(right) && Tight(line) && '#' !in line
    && (comment == "" || comment[0] == '#')
  }

  lemma ContentExactly(raw: string, line: string)
    ensures Content(raw) == line <==> exists left, right, comment :: Stripped(raw, left, line, right, comment)
  {
    var i := Find(raw, '#');
    if Content(raw) == line {
      var left, right := TrimmedMargins(raw[..i]);
      assert raw == raw[..i] + raw[i..];
      assert Stripped(raw, left, line, right, raw[i..]);
    }
    if left, right, comment :| Stripped(raw, left, line, right, comment) {
      var t := left + line + right;
      assert '#' !in t;
      assert raw == t + comment;
      if comment == "" {
        assert raw == t;
        FindAbsent(raw, '#');
      } else {
        assert raw == t + ['#'] + comment[1..];
        FindIn(t, '#', comment[1..]);
      }
      assert raw[..|t|] == t;
      TrimmedOf(left, line, right);
    }
  }

  // ----- Server and network lines

  lemma ScanParts(s: string, max: nat) returns (blanks: string)
    requires max > 0
    ensures var (word, rest) := ScanWord(s, max);
            && s == blanks + word + rest && AllSpaces(blanks)
            && (word == "" ==> rest == "")
            && (|word| == max || rest == "" || IsSpace(rest[0]))
  {
    blanks := SkippedSpaces(s);
    var t := SkipSpaces(s);
    var n := WordLength(t, max);
    assert t == t[..n] + t[n..];
  }

  lemma ScanOf(blanks: string, word: string, rest: string, max: nat)
    requires AllSpaces(blanks) && word != "" && NoSpaces(word) && |word| <= max
    requires |word| == max || rest == "" || IsSpace(rest[0])
    ensures ScanWord(blanks + word + rest, max) == (word, rest)
  {
    var t := word + rest;
    assert t[0] == word[0] && word[0] in word;
    assert blanks + word + rest == blanks + t;
    SkipsExactly(blanks, t);
    assert forall i :: 0 <= i < |word| ==> t[i] == word[i] && word[i] in word;
    assert t[..|word|] == word && t[|word|..] == rest;
  }

  lemma ScanBlanks(s: string, max: nat)
    requires max > 0
    ensures ScanWord(s, max).0 == "" <==> AllSpaces(s)
  {
    var blanks := ScanParts(s, max);
    var (word, rest) := ScanWord(s, max);
    if word != "" { assert s[|blanks|] == word[0] && word[0] in word; }
  }

  /** The words of a server line. A blank between them can be missing where the first has the
      31 characters that are read at most. */
  predicate IsServerLine(line: string, b: string, language: string, c: string, mapping: string) {
    && line == "server" + b + language + c + mapping
    && AllSpaces(b) && b != "" && AllSpaces(c)
    && language != "" && NoSpaces(language) && mapping != "" && NoSpaces(mapping) && |mapping| <= 63
    && (if c == "" then |language| == 31 else |language| <= 31)
  }

  /** What the scanner makes of a line. */
  predicate ScansAs(line: string, language: string, mapping: string)
    requires |line| >= 6
  {
    var (first, rest1) := ScanWord(line[6..], 31);
    var (second, rest2) := ScanWord(rest1, 63);
    first == language && second == mapping && first != "" && second != "" && ScanWord(rest2, 1).0 == ""
  }

  lemma BlankEnd(a: string, b: string)
    requires AllSpaces(b) && b != ""
    ensures !Tight(a + b)
  {
    assert (a + b)[|a + b| - 1] == b[|b| - 1] && b[|b| - 1] in b;
  }

  lemma ScannedServer(line: string, language: string, mapping: string) returns (b: string, c: string)
    requires Tight(line) && Headed(line, "server") && ScansAs(line, language, mapping)
    ensures IsServerLine(line, b, language, c, mapping)
  {
    hide ScanWord, Tight;
    b := ScanParts(line[6..], 31);
    var rest1 := ScanWord(line[6..], 31).1;
    c := ScanParts(rest1, 63);
    var rest2 := ScanWord(rest1, 63).1;
    ScanBlanks(rest2, 1);
    assert line == line[..6] + line[6..];
    var front := "server" + b + language + c + mapping;
    assert line == front + rest2;
    if rest2 != "" { BlankEnd(front, rest2); }
    assert line[6] == (b + language)[0];
    assert language[0] in language;
    assert rest1 == c + mapping + "";
    assert rest1[0] == (c + mapping)[0] && mapping[0] in mapping;
  }

  lemma ServerScanned(line: string, b: string, language: string, c: string, mapping: string)
    requires IsServerLine(line, b, language, c, mapping)
    ensures Headed(line, "server") && ScansAs(line, language, mapping)
  {
    hide ScanWord;
    assert line[..6] == "server" && line[6] == b[0] && b[0] in b;
    assert line[6..] == b + language + (c + mapping);
    assert c != "" ==> (c + mapping)[0] == c[0] && c[0] in c;
    ScanOf(b, language, c + mapping, 31);
    assert c + mapping == c + mapping + "";
    ScanOf(c, mapping, "", 63);
    ScansNothing(1);
  }

  /** The grammar of server lines and what they add. */
  ghost predicate ServerMeans(c: Config, layer: Layer, line: string, c': Config) {
    layer == Project
    && exists b, language, d, mapping, h, t ::
         && IsServerLine(line, b, language, d, mapping) && IsPorts(mapping, h, t)
         && (forall s :: s in c.servers ==> s.language != language) && |c.servers| < 32
         && c' == c.(servers := c.servers + [Server(language, h, t)])
  }

  lemma ServerExactly(c: Config, layer: Layer, line: string, c': Config)
    requires Tight(line) && Headed(line, "server")
    ensures ParseServer(c, layer, line) == Some(c') <==> ServerMeans(c, layer, line, c')
  {
    hide ScanWord, Tight, ParsePorts, IsPorts, IsServerLine;
    if ParseServer(c, layer, line) == Some(c') {
      var (language, rest) := ScanWord(line[6..], 31);
      var mapping := ScanWord(rest, 63).0;
      var b, d := ScannedServer(line, language, mapping);
      var ports := ParsePorts(mapping).value;
      PortsExactly(mapping, ports.0, ports.1);
    }
    if ServerMeans(c, layer, line, c') {
      var b, language, d, mapping, h, t :|
        && IsServerLine(line, b, language, d, mapping) && IsPorts(mapping, h, t)
        && (forall s :: s in c.servers ==> s.language != language) && |c.servers| < 32
        && c' == c.(servers := c.servers + [Server(language, h, t)]);
      ServerScanned(line, b, language, d, mapping);
      PortsExactly(mapping, h, t);
      ShortLanguage(line, b, language, d, mapping);
    }
  }

  lemma ShortLanguage(line: string, b: string, language: string, c: string, mapping: string)
    requires IsServerLine(line, b, language, c, mapping)
    ensures language != "" && |language| < 32
  {
  }

  predicate IsNetworkLine(line: string, b: string, enabled: bool) {
    line == "network" + b + (if enabled then "start" else "stop") && AllSpaces(b) && b != ""
  }

  /** The grammar of network lines and what they set. */
  ghost predicate NetworkMeans(c: Config, layer: Layer, line: string, c': Config) {
    layer == Project
    && exists b, enabled ::
         IsNetworkLine(line, b, enabled) && c' == c.(networkEnabled := enabled, networkSeen := true)
  }

  lemma ScannedNetwork(line: string, enabled: bool) returns (b: string)
    requires Tight(line) && Headed(line, "network")
    requires ScanWord(line[7..], 15).0 == if enabled then "start" else "stop"
    requires ScanWord(ScanWord(line[7..], 15).1, 1).0 == ""
    ensures IsNetworkLine(line, b, enabled)
  {
    hide ScanWord, Tight;
    var action := if enabled then "start" else "stop";
    b := ScanParts(line[7..], 15);
    var rest := ScanWord(line[7..], 15).1;
    ScanBlanks(rest, 1);
    assert line == line[..7] + line[7..];
    var front := "network" + b + action;
    assert line == front + rest;
    if rest != "" { BlankEnd(front, rest); }
    assert line[7] == (b + action)[0];
  }

  lemma NetworkScanned(line: string, b: string, enabled: bool)
    requires IsNetworkLine(line, b, enabled)
    ensures Headed(line, "network")
    ensures ScanWord(line[7..], 15) == (if enabled then "start" else "stop", "")
  {
    hide ScanWord;
    var action := if enabled then "start" else "stop";
    assert line[..7] == "network" && line[7] == b[0] && b[0] in b;
    assert line[7..] == b + action + "";
    ScanOf(b, action, "", 15);
  }

  lemma NetworkExactly(c: Config, layer: Layer, line: string, c': Config)
    requires Tight(line) && Headed(line, "network")
    ensures ParseNetwork(c, layer, line) == Some(c') <==> NetworkMeans(c, layer, line, c')
  {
    hide ScanWord, Tight, IsNetworkLine;
    if ParseNetwork(c, layer, line) == Some(c') {
      var b := ScannedNetwork(line, ScanWord(line[7..], 15).0 == "start");
    }
    if NetworkMeans(c, layer, line, c') {
      var b, enabled :| IsNetworkLine(line, b, enabled)
                        && c' == c.(networkEnabled := enabled, networkSeen := true);
      NetworkScanned(line, b, enabled);
      ScansNothing(1);
    }
  }

  // ----- Assignments

  /** The sides of an assignment with their margins. */
  predicate Sides(line: string, l: string, key: string, m: string, n: string, value: string, r: string) {
    && line == l + key + m + "=" + n + value + r
    && AllSpaces(l) && AllSpaces(m) && AllSpaces(n) && AllSpaces(r)
    && key != "" && Tight(key) && '=' !in key && |key| < 64
    && value != "" && Tight(value) && '=' !in value && |value| < 256
  }

  ghost predicate IsAssignment(line: string, key: string, value: string) {
    exists l, m, n, r :: Sides(line, l, key, m, n, value, r)
  }

  lemma SplitSides(line: string) returns (l: string, m: string, n: string, r: string)
    requires SplitAssignment(line).Some?
    ensures var e := SplitAssignment(line).value; Sides(line, l, e.key, m, n, e.value, r)
  {
    var i := Find(line, '=');
    l, m := TrimmedMargins(line[..i]);
    n, r := TrimmedMargins(line[i + 1..]);
    var e := SplitAssignment(line).value;
    TrimmedWithin(line[..i]);
    TrimmedWithin(line[i + 1..]);
    hide Find, Trimmed, SplitAssignment, Tight;
    SidesJoined(line, i, l + e.key + m, n, e.value, r);
  }

  lemma TrimmedWithin(s: string)
    ensures Tight(Trimmed(s)) && forall c :: c in Trimmed(s) ==> c in s
  {
  }

  lemma SidesJoined(line: string, i: nat, left: string, n: string, value: string, r: string)
    requires i < |line| && line[i] == '=' && line[..i] == left && line[i + 1..] == n + value + r
    ensures line == left + "=" + n + value + r
  {
    assert line == line[..i] + [line[i]] + line[i + 1..];
  }

  lemma SidesSplit(line: string, l: string, key: string, m: string, n: string, value: string, r: string)
    requires Sides(line, l, key, m, n, value, r)
    ensures SplitAssignment(line) == Some(Entry(key, value))
  {
    var a, b := l + key + m, n + value + r;
    assert '=' !in a && '=' !in b;
    assert line == a + ['='] + b;
    FindIn(a, '=', b);
    assert line[..|a|] == a && line[|a| + 1..] == b;
    TrimmedOf(l, key, m);
    TrimmedOf(n, value, r);
  }

  lemma SplitExactly(line: string, key: string, value: string)
    ensures SplitAssignment(line) == Some(Entry(key, value)) <==> IsAssignment(line, key, value)
  {
    hide SplitAssignment, Sides;
    if SplitAssignment(line) == Some(Entry(key, value)) {
      var l, m, n, r := SplitSides(line);
    }
    if l, m, n, r :| Sides(line, l, key, m, n, value, r) {
      SidesSplit(line, l, key, m, n, value, r);
    }
  }

  /** The grammar of assignments and what they do: a new key needs room in the table, a key
      the layer does not know costs a warning. */
  ghost predicate AssignmentMeans(c: Config, layer: Layer, line: string, c': Config) {
    exists key, value :: IsAssignment(line, key, value) && LegalValue(key, value) && Stored(c, layer, key, value, c')
  }

  predicate Stored(c: Config, layer: Layer, key: string, value: string, c': Config) {
    && (Lookup(c.values, key).Some? || |c.values| < 128)
    && c' == c.(values := Assign(c.values, key, value).value,
                warnings := if KnownKey(key, layer) then c.warnings else WrapAdd(c.warnings, 1))
  }

  lemma AssignmentExactly(c: Config, layer: Layer, line: string, c': Config)
    ensures ParseAssignment(c, layer, line) == Some(c') <==> AssignmentMeans(c, layer, line, c')
  {
    hide SplitAssignment, IsAssignment, ValidValue, LegalValue, KnownKey, Assign, Lookup;
    if ParseAssignment(c, layer, line) == Some(c') {
      var e := SplitAssignment(line).value;
      SplitExactly(line, e.key, e.value);
      ValueExactly(e.key, e.value);
      FullTable(c.values, e.key, e.value);
    }
    if AssignmentMeans(c, layer, line, c') {
      var key, value :|
        IsAssignment(line, key, value) && LegalValue(key, value) && Stored(c, layer, key, value, c');
      SplitExactly(line, key, value);
      ValueExactly(key, value);
      FullTable(c.values, key, value);
    }
  }

  // ----- Lines

  predicate Begins(line: string, word: string) {
    |line| > |word| && word <= line && IsSpace(line[|word|])
  }

  /** The grammar of lines: what is accepted, and the configuration it leads to. */
  ghost predicate LineMeans(c: Config, layer: Layer, line: string, c': Config) {
    || (line == "" && c' == c)
    || ServerMeans(c, layer, line, c')
    || NetworkMeans(c, layer, line, c')
    || (!Begins(line, "server") && !Begins(line, "network") && AssignmentMeans(c, layer, line, c'))
  }

  lemma HeadedBegins(line: string, word: string)
    ensures Headed(line, word) <==> Begins(line, word)
  {
  }

  lemma ServerBegins(c: Config, layer: Layer, line: string, c': Config)
    requires ServerMeans(c, layer, line, c')
    ensures Headed(line, "server") && !Headed(line, "network")
  {
    hide ScanWord, IsPorts;
    var b, language, d, mapping, h, t :|
      && IsServerLine(line, b, language, d, mapping) && IsPorts(mapping, h, t)
      && (forall s :: s in c.servers ==> s.language != language) && |c.servers| < 32
      && c' == c.(servers := c.servers + [Server(language, h, t)]);
    ServerScanned(line, b, language, d, mapping);
    assert line[0] == 's';
  }

  lemma NetworkBegins(c: Config, layer: Layer, line: string, c': Config)
    requires NetworkMeans(c, layer, line, c')
    ensures Headed(line, "network") && !Headed(line, "server")
  {
    hide ScanWord;
    var b, enabled :| IsNetworkLine(line, b, enabled)
                      && c' == c.(networkEnabled := enabled, networkSeen := true);
    NetworkScanned(line, b, enabled);
    assert line[0] == 'n';
  }

  lemma NotBoth(line: string)
    ensures !(Headed(line, "server") && Headed(line, "network"))
  {
    assert Headed(line, "server") ==> line[..6][0] == 's' && line[..6][0] == line[0];
    assert Headed(line, "network") ==> line[..7][0] == 'n' && line[..7][0] == line[0];
  }

  lemma NothingAssigned(c: Config, layer: Layer, c': Config)
    ensures !AssignmentMeans(c, layer, "", c')
  {
    hide AssignmentMeans;
    AssignmentExactly(c, layer, "", c');
  }

  /** A line without margins and comment is accepted, and leads to `c'`, exactly if the
      grammar says so. */
  lemma LineExactly(c: Config, layer: Layer, line: string, c': Config)
    requires Tight(line)
    ensures ParseContent(c, layer, line) == Some(c') <==> LineMeans(c, layer, line, c')
  {
    hide ParseServer, ParseNetwork, ParseAssignment, ServerMeans, NetworkMeans, AssignmentMeans, Headed, Begins, Tight;
    HeadedBegins(line, "server");
    HeadedBegins(line, "network");
    NotBoth(line);
    if ServerMeans(c, layer, line, c') { ServerBegins(c, layer, line, c'); }
    if NetworkMeans(c, layer, line, c') { NetworkBegins(c, layer, line, c'); }
    if Headed(line, "server") {
      ServerExactly(c, layer, line, c');
    } else if Headed(line, "network") {
      NetworkExactly(c, layer, line, c');
    } else {
      AssignmentExactly(c, layer, line, c');
    }
    if line == "" {
      NothingAssigned(c, layer, c');
      assert !Headed("", "server") && !Headed("", "network") by { NothingHeaded(); }
    }
  }

  lemma NothingHeaded()
    ensures !Headed("", "server") && !Headed("", "network")
  {
  }

  /** A raw line, with margins and comment. */
  lemma RawLineExactly(c: Config, layer: Layer, raw: string, c': Config)
    ensures ParseContent(c, layer, Content(raw)) == Some(c')
       <==> exists left, line, right, comment ::
              Stripped(raw, left, line, right, comment) && LineMeans(c, layer, line, c')
  {
    hide ParseContent, LineMeans, Stripped, Content;
    var line := Content(raw);
    ContentExactly(raw, line);
    assert Tight(line) by { ContentTight(raw); }
    LineExactly(c, layer, line, c');
    forall left, other, right, comment | Stripped(raw, left, other, right, comment)
      ensures other == line
    {
      ContentExactly(raw, other);
    }
  }

  lemma ContentTight(raw: string)
    ensures Tight(Content(raw))
  {
  }

  // ----- Which lines are legal by themselves, and what else they need

  ghost predicate LegalServer(line: string) {
    exists b, language, d, mapping, h, t ::
      IsServerLine(line, b, language, d, mapping) && IsPorts(mapping, h, t)
  }

  /** The grammar of lines without the configuration they are read into. */
  ghost predicate LegalLine(layer: Layer, line: string) {
    || line == ""
    || (layer == Project && LegalServer(line))
    || (layer == Project && exists b, enabled :: IsNetworkLine(line, b, enabled))
    || (!Begins(line, "server") && !Begins(line, "network")
        && exists key, value :: IsAssignment(line, key, value) && LegalValue(key, value))
  }

  function Languages(servers: seq<Server>): (ls: seq<string>)
    ensures |ls| == |servers|
    ensures forall i :: 0 <= i < |ls| ==> ls[i] == servers[i].language
  {
    seq(|servers|, i requires 0 <= i < |servers| => servers[i].language)
  }

  /** The language a server line names. */
  function LineNames(line: string): (ls: seq<string>) {
    if Headed(line, "server") then [ScanWord(line[6..], 31).0] else []
  }

  /** A language is named once, and there is room for it; so there is for a new key. */
  predicate Room(c: Config, line: string) {
    && (forall l :: l in LineNames(line) ==> l !in Languages(c.servers) && |c.servers| < 32)
    && (forall e :: e in LineAssigns(line) ==> Lookup(c.values, e.key).Some? || |c.values| < 128)
  }

  /** The scanner and the port parser see a legal server line. */
  lemma LegalServerScans(line: string)
    requires Tight(line) && Headed(line, "server")
    ensures var (language, rest) := ScanWord(line[6..], 31);
            var mapping := ScanWord(rest, 63).0;
            LegalServer(line)
            <==> ScansAs(line, language, mapping) && |language| < 32 && ParsePorts(mapping).Some?
  {
    hide ScanWord, Tight, ParsePorts, IsPorts, IsServerLine;
    var (language, rest) := ScanWord(line[6..], 31);
    var mapping := ScanWord(rest, 63).0;
    if ScansAs(line, language, mapping) && ParsePorts(mapping).Some? {
      var b, d := ScannedServer(line, language, mapping);
      var ports := ParsePorts(mapping).value;
      PortsExactly(mapping, ports.0, ports.1);
    }
    if LegalServer(line) {
      var b, l, d, m, h, t :| IsServerLine(line, b, l, d, m) && IsPorts(m, h, t);
      ServerScanned(line, b, l, d, m);
      PortsExactly(m, h, t);
      ShortLanguage(line, b, l, d, m);
    }
  }

  lemma ServerAccepted(c: Config, layer: Layer, line: string)
    requires Tight(line) && Headed(line, "server")
    ensures ParseServer(c, layer, line).Some? <==> layer == Project && LegalServer(line) && Room(c, line)
  {
    hide ScanWord, Tight, ParsePorts, LegalServer, Lookup, Languages, HasLanguage;
    LegalServerScans(line);
    LanguagesOf(c.servers);
  }

  lemma LanguagesOf(servers: seq<Server>)
    ensures forall l :: l in Languages(servers) <==> HasLanguage(servers, l)
  {
    forall l
      ensures l in Languages(servers) <==> HasLanguage(servers, l)
    {
      if l in Languages(servers) {
        var i :| 0 <= i < |servers| && Languages(servers)[i] == l;
        assert servers[i] in servers;
      }
      if s :| s in servers && s.language == l {
        var i :| 0 <= i < |servers| && servers[i] == s;
        assert Languages(servers)[i] == l;
      }
    }
  }

  lemma LegalServerBegins(line: string)
    requires LegalServer(line)
    ensures line != "" && Headed(line, "server")
  {
    hide ScanWord, IsPorts;
    var b, l, d, m, h, t :| IsServerLine(line, b, l, d, m) && IsPorts(m, h, t);
    ServerScanned(line, b, l, d, m);
  }

  lemma LegalNetworkBegins(line: string, b: string, enabled: bool)
    requires IsNetworkLine(line, b, enabled)
    ensures line != "" && Headed(line, "network")
  {
    hide ScanWord;
    NetworkScanned(line, b, enabled);
  }

  lemma NetworkAccepted(c: Config, layer: Layer, line: string)
    requires Tight(line) && Headed(line, "network")
    ensures ParseNetwork(c, layer, line).Some?
       <==> layer == Project && exists b, enabled :: IsNetworkLine(line, b, enabled)
  {
    hide ParseNetwork, IsNetworkLine, Headed;
    if ParseNetwork(c, layer, line).Some? {
      NetworkExactly(c, layer, line, ParseNetwork(c, layer, line).value);
    }
    if layer == Project {
      if b, enabled :| IsNetworkLine(line, b, enabled) {
        NetworkExactly(c, layer, line, c.(networkEnabled := enabled, networkSeen := true));
      }
    }
  }

  lemma AssignmentAccepted(c: Config, layer: Layer, line: string)
    requires !Headed(line, "server") && !Headed(line, "network") && line != ""
    ensures ParseAssignment(c, layer, line).Some?
       <==> Room(c, line) && exists key, value :: IsAssignment(line, key, value) && LegalValue(key, value)
  {
    hide SplitAssignment, IsAssignment, ValidValue, LegalValue, KnownKey, Assign, Lookup, Headed;
    if SplitAssignment(line).Some? {
      var e := SplitAssignment(line).value;
      SplitExactly(line, e.key, e.value);
      ValueExactly(e.key, e.value);
      FullTable(c.values, e.key, e.value);
      assert LineAssigns(line) == [e];
    }
    if key, value :| IsAssignment(line, key, value) && LegalValue(key, value) {
      SplitExactly(line, key, value);
      ValueExactly(key, value);
    }
  }

  /** A line is accepted if and only if it is legal and there is room for what it brings. */
  lemma LineAccepted(c: Config, layer: Layer, line: string)
    requires Tight(line)
    ensures ParseContent(c, layer, line).Some? <==> LegalLine(layer, line) && Room(c, line)
  {
    hide ParseServer, ParseNetwork, ParseAssignment, LegalServer, IsNetworkLine, IsAssignment, LegalValue, Headed,
      Begins, Tight, SplitAssignment, ScanWord, Languages, Lookup;
    HeadedBegins(line, "server");
    HeadedBegins(line, "network");
    NotBoth(line);
    NothingHeaded();
    if LegalServer(line) { LegalServerBegins(line); }
    if b, enabled :| IsNetworkLine(line, b, enabled) { LegalNetworkBegins(line, b, enabled); }
    if line == "" {
    } else if Headed(line, "server") {
      ServerAccepted(c, layer, line);
    } else if Headed(line, "network") {
      NetworkAccepted(c, layer, line);
    } else {
      AssignmentAccepted(c, layer, line);
    }
  }

  // ----- Files

  /** A line fits the buffer and, if a break ends it, has no zero byte that would hide it. */
  predicate Fits(raw: string, ended: bool) {
    |raw| <= 1022 && (ended ==> '\0' !in raw)
  }

  /** Every line of the text fits and is legal as far as its first zero byte. */
  ghost predicate LegalText(layer: Layer, text: string)
    decreases |text|
  {
    var i := Find(text, '\n');
    text == "" ||
    (&& Fits(text[..i], i < |text|)
     && LegalLine(layer, Content(text[..i][..Find(text[..i], '\0')]))
     && (i < |text| ==> LegalText(layer, text[i + 1..])))
  }

  /** The languages that the server lines of a text name. */
  function Names(text: string): (ls: seq<string>)
    decreases |text|
  {
    if text == "" then []
    else
      match NextLine(text)
      case None => []
      case Some(line) => LineNames(Content(line.0)) + Names(line.1)
  }

  predicate NoRepeats(ls: seq<string>) {
    forall i, j :: 0 <= i < j < |ls| ==> ls[i] != ls[j]
  }

  lemma LegalNextLine(layer: Layer, text: string)
    requires text != ""
    ensures LegalText(layer, text)
       <==> && NextLine(text).Some?
            && LegalLine(layer, Content(NextLine(text).value.0)) && LegalText(layer, NextLine(text).value.1)
  {
    hide LegalLine, Content;
    var i := Find(text, '\n');
    var raw := text[..i];
    if '\0' !in raw {
      FindAbsent(raw, '\0');
      assert raw[..|raw|] == raw;
    }
  }

  /** The languages and keys a configuration has by now leave no repetition and fit. */
  ghost predicate Ample(languages: seq<string>, es: seq<Entry>) {
    NoRepeats(languages) && |languages| <= 32 && |FirstAssigned(es)| <= 128
  }

  lemma {:induction false} FirstAssignedGrows(es: seq<Entry>, more: seq<Entry>)
    ensures |FirstAssigned(es)| <= |FirstAssigned(es + more)|
    decreases |more|
  {
    if more == [] {
      assert es + more == es;
    } else {
      var n := |more| - 1;
      FirstAssignedGrows(es, more[..n]);
      assert es + more == (es + more[..n]) + [more[n]];
      FirstOfAppended(es + more[..n], more[n]);
    }
  }

  /** What was too much stays too much. */
  lemma AmpleBefore(languages: seq<string>, ls: seq<string>, es: seq<Entry>, more: seq<Entry>)
    requires Ample(languages + ls, es + more)
    ensures Ample(languages, es)
  {
    FirstAssignedGrows(es, more);
    var all := languages + ls;
    assert forall i :: 0 <= i < |languages| ==> all[i] == languages[i];
  }

  lemma LookupIsKey(values: seq<Entry>, es: seq<Entry>, key: string)
    requires Represents(values, es)
    ensures Lookup(values, key).Some? <==> key in FirstAssigned(es)
  {
    if key in FirstAssigned(es) {
      var i :| 0 <= i < |values| && Keys(values)[i] == key;
      assert values[i].key == key;
    }
  }

  lemma RoomExactly(c: Config, line: string, es: seq<Entry>)
    requires Represents(c.values, es) && Ample(Languages(c.servers), es)
    ensures Room(c, line) <==> Ample(Languages(c.servers) + LineNames(line), es + LineAssigns(line))
  {
    hide Represents, Lookup, ScanWord, SplitAssignment, FirstAssigned, Languages;
    var ls, names := Languages(c.servers), LineNames(line);
    var brought := LineAssigns(line);
    NotBoth(line);
    assert |c.values| == |FirstAssigned(es)| by { KeysCounted(c.values, es); }
    assert |ls| == |c.servers|;
    assert (ls + names)[..|ls|] == ls;
    assert ls + [] == ls && es + [] == es;
    if names != [] { OneMoreName(ls, names[0]); }
    if brought != [] {
      FirstOfAppended(es, brought[0]);
      LookupIsKey(c.values, es, brought[0].key);
    }
  }

  lemma KeysCounted(values: seq<Entry>, es: seq<Entry>)
    requires Represents(values, es)
    ensures |values| == |FirstAssigned(es)|
  {
  }

  lemma OneMoreName(ls: seq<string>, name: string)
    requires NoRepeats(ls)
    ensures NoRepeats(ls + [name]) <==> name !in ls
  {
    var all := ls + [name];
    assert all[|ls|] == name;
    assert forall i :: 0 <= i < |ls| ==> all[i] == ls[i];
    if name in ls {
      var i :| 0 <= i < |ls| && ls[i] == name;
      assert all[i] == all[|ls|];
    }
  }

  lemma LanguagesAfter(c: Config, layer: Layer, line: string)
    requires ParseContent(c, layer, line).Some?
    ensures Languages(ParseContent(c, layer, line).value.servers) == Languages(c.servers) + LineNames(line)
  {
    hide ScanWord, ParsePorts, SplitAssignment, ValidValue;
  }

  /** A file is accepted if and only if every line of it is legal by itself, no language is
      named twice, counting the servers there are, and neither these nor the keys are too
      many. */
  lemma {:induction false} TextAccepted(c: Config, layer: Layer, text: string, es: seq<Entry>)
    requires Represents(c.values, es) && Ample(Languages(c.servers), es)
    ensures ParseText(c, layer, text).Some?
       <==> LegalText(layer, text) && Ample(Languages(c.servers) + Names(text), es + Assignments(text))
    decreases |text|
  {
    hide ParseContent, LegalLine, LegalText, Room, Ample, Represents, LineNames, LineAssigns, Content, NextLine,
      Languages;
    if text == "" {
      assert LegalText(layer, "") by { NothingLegal(layer); }
      assert Languages(c.servers) + [] == Languages(c.servers) && es + [] == es;
    } else {
      LegalNextLine(layer, text);
      if NextLine(text).Some? {
        var (raw, rest) := NextLine(text).value;
        var line := Content(raw);
        ContentTight(raw);
        LineAccepted(c, layer, line);
        RoomExactly(c, line, es);
        var ls, es' := Languages(c.servers) + LineNames(line), es + LineAssigns(line);
        assert Languages(c.servers) + Names(text) == ls + Names(rest);
        Regroup3(es, LineAssigns(line), Assignments(rest));
        assert es + Assignments(text) == es' + Assignments(rest);
        if ParseContent(c, layer, line).Some? {
          var c' := ParseContent(c, layer, line).value;
          ContentRepresents(c, layer, line, es);
          LanguagesAfter(c, layer, line);
          TextAccepted(c', layer, rest, es');
        } else if Ample(ls + Names(rest), es' + Assignments(rest)) {
          AmpleBefore(ls, Names(rest), es', Assignments(rest));
        }
      }
    }
  }

  lemma NothingLegal(layer: Layer)
    ensures LegalText(layer, "")
  {
  }

  lemma NothingAmple()
    ensures Ample([], []) && Represents(EMPTY.values, []) && Languages(EMPTY.servers) == []
  {
  }

  // ----- The whole hierarchy

  lemma {:induction false} TextLanguages(c: Config, layer: Layer, text: string)
    requires ParseText(c, layer, text).Some?
    ensures Languages(ParseText(c, layer, text).value.servers) == Languages(c.servers) + Names(text)
    decreases |text|
  {
    hide ParseContent, LineNames, Content, NextLine, Languages;
    if text == "" {
      assert Languages(c.servers) + [] == Languages(c.servers);
    } else {
      var (raw, rest) := NextLine(text).value;
      LanguagesAfter(c, layer, Content(raw));
      TextLanguages(ParseContent(c, layer, Content(raw)).value, layer, rest);
      assert Names(text) == LineNames(Content(raw)) + Names(rest);
      Regroup(Languages(c.servers), LineNames(Content(raw)), Names(rest));
    }
  }

  lemma Regroup(a: seq<string>, b: seq<string>, c: seq<string>)
    ensures (a + b) + c == a + (b + c)
  {
  }

  lemma {:induction false} NoNamesElsewhere(layer: Layer, text: string)
    requires layer != Project && LegalText(layer, text)
    ensures Names(text) == []
    decreases |text|
  {
    hide Content, NextLine, IsAssignment, LegalValue, ScanWord;
    if text != "" {
      LegalNextLine(layer, text);
      var (raw, rest) := NextLine(text).value;
      HeadedBegins(Content(raw), "server");
      NothingHeaded();
      NoNamesElsewhere(layer, rest);
    }
  }

  lemma ProjectStage(text: string)
    ensures var r := ParseText(EMPTY, Project, text);
            && (r.Some? <==> LegalText(Project, text) && Ample(Names(text), Assignments(text)))
            && (r.Some? ==> Represents(r.value.values, Assignments(text)) && Languages(r.value.servers) == Names(text))
  {
    hide ParseText, LegalText, Ample, Represents, Languages, Names, Assignments;
    NothingAmple();
    TextAccepted(EMPTY, Project, text, []);
    assert [] + Names(text) == Names(text) && [] + Assignments(text) == Assignments(text);
    if ParseText(EMPTY, Project, text).Some? {
      TextRepresents(EMPTY, Project, text, []);
      TextLanguages(EMPTY, Project, text);
    }
  }

  lemma OtherStage(c: Config, layer: Layer, text: string, es: seq<Entry>)
    requires layer != Project && Represents(c.values, es) && Ample(Languages(c.servers), es)
    ensures var r := ParseText(c, layer, text);
            && (r.Some? <==> LegalText(layer, text) && Ample(Languages(c.servers), es + Assignments(text)))
            && (r.Some? ==> Represents(r.value.values, es + Assignments(text)) && r.value.servers == c.servers)
  {
    hide ParseText, LegalText, Ample, Represents, Languages, Names, Assignments;
    TextAccepted(c, layer, text, es);
    if LegalText(layer, text) {
      NoNamesElsewhere(layer, text);
      assert Languages(c.servers) + [] == Languages(c.servers);
    }
    if ParseText(c, layer, text).Some? {
      TextRepresents(c, layer, text, es);
      TopologyIsTheProjects(c, layer, text);
    }
  }

  /** What has to be assigned somewhere, by the last value of each key. */
  ghost predicate Complete(es: seq<Entry>, language: Option<string>) {
    && LastValue(es, "workspace_root").Some? && LastValue(es, "log_directory").Some?
    && (LastValue(es, "tls_enabled") == Some("true") ==>
          LastValue(es, "cert_file").Some? && LastValue(es, "key_file").Some?)
    && (language.Some? ==> LastValue(es, "workspace").Some? && LastValue(es, "server_type") == language)
  }

  /** Letters, digits, hyphens and underscores. */
  predicate IsName(name: string) {
    name != "" && forall ch :: ch in name ==>
      'a' <= ch <= 'z' || 'A' <= ch <= 'Z' || '0' <= ch <= '9' || ch == '-' || ch == '_'
  }

  /** The text of a layer, or none where its file is missing and need not exist. */
  function RuntimeText(files: map<string, string>): (text: string) {
    if "Polycallrc" in files then files["Polycallrc"] else ""
  }

  ghost predicate LegalHierarchy(files: map<string, string>, language: Option<string>) {
    && "Polycallfile" in files
    && LegalText(Project, files["Polycallfile"]) && LegalText(Runtime, RuntimeText(files))
    && (language.Some? ==>
          && IsName(language.value) && LanguageFile(files, language.value).Some?
          && LegalText(Language, LanguageFile(files, language.value).value))
    && Ample(Names(files["Polycallfile"]), LayeredAssignments(files, language))
    && Complete(LayeredAssignments(files, language), language)
  }

  lemma RequiredExactly(c: Config, es: seq<Entry>, language: Option<string>)
    requires Represents(c.values, es)
    ensures RequiredPresent(c, true, language) <==> Complete(es, language)
  {
    hide LastValue, Lookup, FirstAssigned, DistinctKeys, Keys;
  }

  /** The first two layers, as one. */
  lemma TwoStages(files: map<string, string>)
    requires "Polycallfile" in files
    ensures var r1 := ParseText(EMPTY, Project, files["Polycallfile"]);
            var es := Assignments(files["Polycallfile"]) + Assignments(RuntimeText(files));
            var legal := LegalText(Project, files["Polycallfile"]) && LegalText(Runtime, RuntimeText(files));
            if r1.None? then !(legal && Ample(Names(files["Polycallfile"]), es))
            else
              var r2 := ParseText(r1.value, Runtime, RuntimeText(files));
              && (r2.Some? <==> legal && Ample(Names(files["Polycallfile"]), es))
              && (r2.Some? ==>
                    Represents(r2.value.values, es) && Languages(r2.value.servers) == Names(files["Polycallfile"]))
  {
    hide ParseText, LegalText, Ample, Represents, Languages, Names, Assignments;
    var p := files["Polycallfile"];
    ProjectStage(p);
    var r1 := ParseText(EMPTY, Project, p);
    if r1.Some? {
      OtherStage(r1.value, Runtime, RuntimeText(files), Assignments(p));
    } else if Ample(Names(p), Assignments(p) + Assignments(RuntimeText(files))) {
      assert Names(p) + [] == Names(p);
      AmpleBefore(Names(p), [], Assignments(p), Assignments(RuntimeText(files)));
    }
  }

  lemma LayersJoined(files: map<string, string>, language: Option<string>)
    requires "Polycallfile" in files
    ensures LayeredAssignments(files, language)
         == Assignments(files["Polycallfile"]) + Assignments(RuntimeText(files))
            + if language.Some? && LanguageFile(files, language.value).Some?
              then Assignments(LanguageFile(files, language.value).value) else []
  {
    assert Assignments("") == [];
  }

  lemma RuntimeStage(files: map<string, string>, c: Config)
    ensures ParseText(c, Runtime, RuntimeText(files))
         == if "Polycallrc" in files then ParseText(c, Runtime, files["Polycallrc"]) else Some(c)
  {
  }

  lemma ValidName(name: string)
    ensures ValidLanguage(name) <==> IsName(name)
  {
  }

  /** A project loads if and only if the files that are read are legal, the languages and keys
      of all layers together are not too many, no language is named twice, and the last values
      of all keys are complete. */
  lemma LoadAcceptedExactly(files: map<string, string>, language: Option<string>)
    ensures LoadHierarchy(files, language).Some? <==> LegalHierarchy(files, language)
  {
    hide ParseText, LegalText, Ample, Represents, Languages, Names, Assignments, RequiredPresent, Complete,
      LanguageFile, RuntimeText, ValidLanguage, IsName;
    if "Polycallfile" in files {
      var p := files["Polycallfile"];
      var es := Assignments(p) + Assignments(RuntimeText(files));
      var all := LayeredAssignments(files, language);
      TwoStages(files);
      LayersJoined(files, language);
      if language.Some? { ValidName(language.value); }
      var r1 := ParseText(EMPTY, Project, p);
      assert Names(p) + [] == Names(p);
      var more := if language.Some? && LanguageFile(files, language.value).Some?
                  then Assignments(LanguageFile(files, language.value).value) else [];
      if Ample(Names(p), all) { AmpleBefore(Names(p), [], es, more); }
      if r1.Some? {
        RuntimeStage(files, r1.value);
        var r2 := ParseText(r1.value, Runtime, RuntimeText(files));
        if r2.Some? {
          LastStage(files, language, r2.value, es);
        }
      }
    }
  }

  lemma LastStage(files: map<string, string>, language: Option<string>, c: Config, es: seq<Entry>)
    requires Represents(c.values, es) && Ample(Languages(c.servers), es)
    ensures var file := if language.None? then None else LanguageFile(files, language.value);
            var all := es + if file.Some? then Assignments(file.value) else [];
            var r := if file.Some? then ParseText(c, Language, file.value) else Some(c);
            && (r.Some? <==> (file.Some? ==> LegalText(Language, file.value)) && Ample(Languages(c.servers), all))
            && (r.Some? ==> (RequiredPresent(r.value, true, language) <==> Complete(all, language)))
  {
    hide ParseText, LegalText, Ample, Represents, Languages, Assignments, RequiredPresent, Complete, LanguageFile;
    var file := if language.None? then None else LanguageFile(files, language.value);
    if file.Some? {
      OtherStage(c, Language, file.value, es);
      if ParseText(c, Language, file.value).Some? {
        RequiredExactly(ParseText(c, Language, file.value).value, es + Assignments(file.value), language);
      }
    } else {
      assert es + [] == es;
      RequiredExactly(c, es, language);
    }
  }

  /** The language file is looked for under the first 500 characters of the name. */
  lemma LanguageFileExactly(files: map<string, string>, language: string)
    ensures var path := "Polycallrc." + if |language| <= 500 then language else language[..500];
            LanguageFile(files, language)
            == if path in files then Some(files[path])
               else if ".polycallrc" in files then Some(files[".polycallrc"])
               else None
  {
    if |language| > 500 {
      assert ("Polycallrc." + language)[..511] == "Polycallrc." + language[..500];
    }
  }
}
