/** Which configurations parsing can produce, and that printing one and parsing the output
    gives it back. */
module ConfigRoundTrip {
  import opened Options
  import opened ConfigText
  import opened ConfigModel

  // ----- Well-formed configurations

  /** Characters that survive reading a line and stripping its comment. */
  predicate Plain(s: string) {
    '#' !in s && '\n' !in s && '\0' !in s
  }

  predicate ServerOk(s: Server) {
    && s.language != "" && |s.language| < 32 && NoSpaces(s.language) && Plain(s.language)
    && 1 <= s.hostPort <= MAX_PORT && 1 <= s.targetPort <= MAX_PORT
  }

  predicate KeyOk(key: string) {
    && key != "" && |key| < KEY_SIZE && Tight(key) && Plain(key) && '=' !in key
    && !Headed(key, "server") && !Headed(key, "network")
  }

  predicate EntryOk(e: Entry) {
    && KeyOk(e.key)
    && e.value != "" && |e.value| < VALUE_SIZE && Tight(e.value) && Plain(e.value) && '=' !in e.value
    && ValidValue(e.key, e.value)
  }

  predicate DistinctLanguages(servers: seq<Server>) {
    forall i, j :: 0 <= i < j < |servers| ==> servers[i].language != servers[j].language
  }

  predicate DistinctKeys(values: seq<Entry>) {
    forall i, j :: 0 <= i < j < |values| ==> values[i].key != values[j].key
  }

  predicate ServersOk(servers: seq<Server>) {
    forall i :: 0 <= i < |servers| ==> ServerOk(servers[i])
  }

  predicate EntriesOk(values: seq<Entry>) {
    forall i :: 0 <= i < |values| ==> EntryOk(values[i])
  }

  predicate WellFormed(c: Config) {
    && |c.servers| <= MAX_SERVERS && DistinctLanguages(c.servers) && ServersOk(c.servers)
    && |c.values| <= MAX_VALUES && DistinctKeys(c.values) && EntriesOk(c.values)
    && (c.networkEnabled ==> c.networkSeen)
  }

  // ----- Parsing keeps configurations well-formed

  lemma ContentIsPlain(raw: string)
    requires '\n' !in raw && '\0' !in raw
    ensures Plain(Content(raw)) && Tight(Content(raw))
  {
    var cut := raw[..Find(raw, '#')];
    assert forall c :: c in cut ==> c in raw;
  }

  lemma WithServerKeepsWellFormed(c: Config, language: string, mapping: string)
    requires WellFormed(c) && NoSpaces(language) && Plain(language)
    requires WithServer(c, language, mapping).Some?
    ensures WellFormed(WithServer(c, language, mapping).value)
  {
    hide EntriesOk, ParsePorts, DistinctKeys;
    var c' := WithServer(c, language, mapping).value;
    var n := |c.servers|;
    assert ServerOk(c'.servers[n]);
    forall i, j | 0 <= i < j < |c'.servers|
      ensures c'.servers[i].language != c'.servers[j].language
    {
      if j == n { assert c'.servers[i] == c.servers[i] && c.servers[i] in c.servers; }
    }
  }

  lemma ServerKeepsWellFormed(c: Config, layer: Layer, line: string)
    requires WellFormed(c) && Plain(line) && Headed(line, "server")
    requires ParseServer(c, layer, line).Some?
    ensures WellFormed(ParseServer(c, layer, line).value)
  {
    hide WellFormed, WithServer, ScanWord, NoSpaces, Plain;
    ScannedIsPlain(line, 6, 31);
    var (language, rest) := ScanWord(line[6..], 31);
    WithServerKeepsWellFormed(c, language, ScanWord(rest, 63).0);
  }

  lemma ScannedIsPlain(line: string, from: nat, max: nat)
    requires Plain(line) && from <= |line| && max > 0
    ensures Plain(ScanWord(line[from..], max).0) && NoSpaces(ScanWord(line[from..], max).0)
  {
    hide ScanWord;
    var tail := line[from..];
    assert forall ch :: ch in tail ==> ch in line;
  }

  /** A key taken from a line that is not a server or network line cannot look like one. */
  lemma KeyNotHeaded(line: string, i: nat, word: string)
    requires i < |line| && line[i] == '=' && i > 0 && !IsSpace(line[0])
    requires !Headed(line, word)
    ensures !Headed(Trimmed(line[..i]), word)
  {
    TrimmedPrefix(line[..i]);
    var key := Trimmed(line[..i]);
    assert |key| > |word| ==> line[..|word|] == key[..|word|] && line[|word|] == key[|word|];
  }

  lemma SplitIsOk(line: string)
    requires Plain(line) && Tight(line) && line != ""
    requires !Headed(line, "server") && !Headed(line, "network")
    requires SplitAssignment(line).Some?
    requires ValidValue(SplitAssignment(line).value.key, SplitAssignment(line).value.value)
    ensures EntryOk(SplitAssignment(line).value)
  {
    var i := Find(line, '=');
    var left, right := line[..i], line[i + 1..];
    assert forall c :: c in left || c in right ==> c in line;
    KeyNotHeaded(line, i, "server");
    KeyNotHeaded(line, i, "network");
  }

  lemma EntriesUpdated(values: seq<Entry>, i: nat, e: Entry)
    requires EntriesOk(values) && EntryOk(e) && i < |values|
    ensures EntriesOk(values[i := e])
  {
  }

  lemma EntriesAppended(values: seq<Entry>, e: Entry)
    requires EntriesOk(values) && EntryOk(e)
    ensures EntriesOk(values + [e])
  {
  }

  lemma AssignKeepsWellFormed(c: Config, e: Entry)
    requires WellFormed(c) && EntryOk(e) && Assign(c.values, e.key, e.value).Some?
    ensures WellFormed(c.(values := Assign(c.values, e.key, e.value).value))
  {
    assert |e.key| < KEY_SIZE && |e.value| < VALUE_SIZE;
    hide EntryOk;
    var i := KeyIndex(c.values, e.key);
    if i < |c.values| {
      EntriesUpdated(c.values, i, e);
      assert c.values[i].(value := e.value) == e;
    } else {
      EntriesAppended(c.values, e);
    }
  }

  lemma ContentKeepsWellFormed(c: Config, layer: Layer, line: string)
    requires WellFormed(c) && Plain(line) && Tight(line) && ParseContent(c, layer, line).Some?
    ensures WellFormed(ParseContent(c, layer, line).value)
  {
    if line == "" {
    } else if Headed(line, "server") {
      ServerKeepsWellFormed(c, layer, line);
    } else if Headed(line, "network") {
    } else {
      SplitIsOk(line);
      AssignKeepsWellFormed(c, SplitAssignment(line).value);
    }
  }

  lemma {:induction false} TextKeepsWellFormed(c: Config, layer: Layer, text: string)
    requires WellFormed(c) && ParseText(c, layer, text).Some?
    ensures WellFormed(ParseText(c, layer, text).value)
    decreases |text|
  {
    if text != "" {
      var line := NextLine(text).value;
      ContentIsPlain(line.0);
      ContentKeepsWellFormed(c, layer, Content(line.0));
      TextKeepsWellFormed(ParseContent(c, layer, Content(line.0)).value, layer, line.1);
    }
  }

  // ----- Parsing printed lines

  lemma PlainLine(line: string)
    requires Plain(line) && Tight(line)
    ensures Content(line) == line
  {
    FindAbsent(line, '#');
    assert line[..|line|] == line;
  }

  /** The first line of a text is parsed first. */
  lemma ParsesFirstLine(c: Config, layer: Layer, line: string, rest: string)
    requires Plain(line) && Tight(line) && |line| <= LINE_SIZE - 2
    ensures ParseText(c, layer, line + "\n" + rest)
         == match ParseContent(c, layer, line)
            case None => None
            case Some(c') => ParseText(c', layer, rest)
  {
    var text := line + "\n" + rest;
    FindIn(line, '\n', rest);
    assert text == line + ['\n'] + rest;
    assert text[..|line|] == line && text[|line| + 1..] == rest;
    PlainLine(line);
  }

  lemma DigitsArePlain(s: string)
    requires AllDigits(s)
    ensures NoSpaces(s) && Plain(s) && ':' !in s
  {
  }

  /** The mapping as it is printed. */
  function PortsText(host: nat, target: nat): (s: string) {
    Decimal(host) + ":" + Decimal(target)
  }

  lemma PortsShape(host: nat, target: nat)
    requires 1 <= host <= MAX_PORT && 1 <= target <= MAX_PORT
    ensures var s := PortsText(host, target);
            s != "" && |s| <= 11 && NoSpaces(s) && Plain(s) && !IsSpace(s[|s| - 1])
  {
    PortLength(host);
    PortLength(target);
    DigitsArePlain(Decimal(host));
    DigitsArePlain(Decimal(target));
    var s := PortsText(host, target);
    assert s[|s| - 1] in s;
  }

  lemma PortsParse(host: nat, target: nat)
    requires 1 <= host <= MAX_PORT && 1 <= target <= MAX_PORT
    ensures ParsePorts(PortsText(host, target)) == Some((host, target))
  {
    var h, t := Decimal(host), Decimal(target);
    var s := PortsText(host, target);
    PortsShape(host, target);
    DigitsArePlain(h);
    DigitsArePlain(t);
    FindIn(h, ':', t);
    assert s == h + [':'] + t;
    assert s[..|h|] == h && s[|h| + 1..] == t;
    ParsesDecimal(host);
    ParsesDecimal(target);
  }

  /** Servers are printed first, then the network state if it was set, then the values. */
  lemma ShownParts(c: Config)
    ensures Show(c) == Show(EMPTY.(servers := c.servers))
                       + Show(EMPTY.(networkSeen := c.networkSeen, networkEnabled := c.networkEnabled))
                       + Show(EMPTY.(values := c.values))
  {
    hide ServerLine, EntryLine, NetworkLine;
    assert ServersText([]) == "" && ValuesText([]) == "";
  }

  /** Each is printed on a line of its own, in the order of its table. */
  lemma ShownServers(s: Server, more: seq<Server>)
    ensures Show(EMPTY.(servers := [s] + more))
         == "server " + s.language + " " + Decimal(s.hostPort) + ":" + Decimal(s.targetPort) + "\n"
            + Show(EMPTY.(servers := more))
  {
    hide Decimal;
    assert ([s] + more)[1..] == more;
    assert ValuesText([]) == "";
  }

  lemma ShownValues(e: Entry, more: seq<Entry>)
    ensures Show(EMPTY.(values := [e] + more)) == e.key + "=" + e.value + "\n" + Show(EMPTY.(values := more))
  {
    assert ([e] + more)[1..] == more;
    assert ServersText([]) == "";
  }

  lemma ShownNetwork(enabled: bool)
    ensures Show(EMPTY.(networkSeen := true, networkEnabled := enabled))
         == if enabled then "network start\n" else "network stop\n"
    ensures Show(EMPTY) == ""
  {
  }

  /** `s` is two numbers in port range around its only colon. */
  predicate IsMapping(s: string, host: string, target: string, h: nat, t: nat) {
    && s == host + ":" + target && ':' !in host && ':' !in target && |s| < 64
    && ParsePositive(host) == Some(h) && ParsePositive(target) == Some(t)
    && h <= MAX_PORT && t <= MAX_PORT
  }

  /** Exactly which texts are port mappings, and of which ports. */
  lemma ParsePortsMeaning(s: string, h: nat, t: nat)
    ensures ParsePorts(s) == Some((h, t)) <==> exists host, target :: IsMapping(s, host, target, h, t)
  {
    hide ParsePositive;
    if ParsePorts(s) == Some((h, t)) {
      var i := Find(s, ':');
      assert s == s[..i] + ":" + s[i + 1..];
      assert IsMapping(s, s[..i], s[i + 1..], h, t);
    }
    if host, target :| IsMapping(s, host, target, h, t) {
      FindIn(host, ':', target);
      assert s[..|host|] == host && s[|host| + 1..] == target;
    }
  }

  lemma NegatedText(t: nat)
    requires 1 <= t <= MAX_PORT
    ensures var digits := Decimal(ULONG_RANGE - t);
            && StandsFor(" -" + digits, " ", "-", digits, t)
            && |digits| <= 20 && ':' !in " -" + digits
  {
    var digits := Decimal(ULONG_RANGE - t);
    DecimalValue(ULONG_RANGE - t);
    DigitsArePlain(digits);
    assert Pow10(10) == 10000000000;
    assert Pow10(20) == 100000000000000000000;
    DecimalLength(ULONG_RANGE - t, 20);
    assert " -" + digits == " " + "-" + digits;
  }

  /** Every mapping is also accepted with its target written as a blank, a minus sign and the
      complement to 2^64, although the documentation asks for numbers from 1 to 65535. */
  lemma NegatedPortIsAccepted(host: nat, target: nat)
    requires 1 <= host <= MAX_PORT && 1 <= target <= MAX_PORT
    ensures ParsePorts(Decimal(host) + ":" + (" -" + Decimal(ULONG_RANGE - target))) == Some((host, target))
  {
    hide ParsePositive, ParsePorts;
    var digits := Decimal(ULONG_RANGE - target);
    NegatedText(target);
    StandsForAccepted(" -" + digits, " ", "-", digits, target);
    ParsesDecimal(host);
    PortLength(host);
    DigitsArePlain(Decimal(host));
    var s := Decimal(host) + ":" + (" -" + digits);
    assert IsMapping(s, Decimal(host), " -" + digits, host, target);
    ParsePortsMeaning(s, host, target);
  }

  lemma PlainConcat(a: string, b: string)
    requires Plain(a) && Plain(b)
    ensures Plain(a + b)
  {
  }

  lemma Starts(word: string, tail: string)
    requires tail != "" && IsSpace(tail[0])
    ensures Headed(word + tail, word) && (word + tail)[|word|..] == tail
  {
    assert (word + tail)[..|word|] == word;
  }

  /** What follows the word `server` in a printed line. */
  function ServerTail(s: Server): (t: string) {
    " " + s.language + (" " + PortsText(s.hostPort, s.targetPort))
  }

  lemma ServerLineIs(s: Server)
    ensures ServerLine(s) == "server" + ServerTail(s)
  {
    var ports := PortsText(s.hostPort, s.targetPort);
    assert "server " == "server" + " ";
    assert ServerLine(s) == "server " + s.language + " " + ports;
  }

  lemma ServerLineShape(s: Server)
    requires ServerOk(s)
    ensures var line := ServerLine(s);
            Plain(line) && Tight(line) && |line| <= LINE_SIZE - 2 && Headed(line, "server")
  {
    var ports, tail := PortsText(s.hostPort, s.targetPort), ServerTail(s);
    PortsShape(s.hostPort, s.targetPort);
    PlainConcat(" ", ports);
    PlainConcat(" ", s.language);
    PlainConcat(" " + s.language, " " + ports);
    PlainConcat("server", tail);
    ServerLineIs(s);
    Starts("server", tail);
    assert tail[|tail| - 1] == ports[|ports| - 1];
  }

  lemma ServerFields(s: Server)
    requires ServerOk(s)
    ensures var ports := PortsText(s.hostPort, s.targetPort);
            && ScanWord(ServerTail(s), 31) == (s.language, " " + ports)
            && ScanWord(" " + ports, 63) == (ports, "")
  {
    var ports := PortsText(s.hostPort, s.targetPort);
    PortsShape(s.hostPort, s.targetPort);
    ScansWord(" ", s.language, " " + ports, 31);
    ScansWord(" ", ports, "", 63);
    assert " " + ports + "" == " " + ports;
  }

  lemma ParsesServerTail(c: Config, s: Server, line: string)
    requires ServerOk(s) && Headed(line, "server") && line[6..] == ServerTail(s)
    ensures ParseServer(c, Project, line) == WithServer(c, s.language, PortsText(s.hostPort, s.targetPort))
  {
    ServerFields(s);
    ScansNothing(1);
    PortsShape(s.hostPort, s.targetPort);
  }

  lemma AddsServer(c: Config, s: Server)
    requires ServerOk(s) && !HasLanguage(c.servers, s.language) && |c.servers| < MAX_SERVERS
    ensures WithServer(c, s.language, PortsText(s.hostPort, s.targetPort))
         == Some(c.(servers := c.servers + [s]))
  {
    PortsParse(s.hostPort, s.targetPort);
  }

  lemma ParsesServerLine(c: Config, s: Server)
    requires ServerOk(s) && !HasLanguage(c.servers, s.language) && |c.servers| < MAX_SERVERS
    ensures ParseContent(c, Project, ServerLine(s)) == Some(c.(servers := c.servers + [s]))
  {
    var line := ServerLine(s);
    ServerLineIs(s);
    Starts("server", ServerTail(s));
    ParsesServerTail(c, s, line);
    AddsServer(c, s);
  }

  lemma NetworkLineIs(enabled: bool)
    ensures NetworkLine(enabled) == "network" + (" " + if enabled then "start" else "stop")
  {
  }

  lemma NetworkLineShape(enabled: bool)
    ensures var line := NetworkLine(enabled);
            Plain(line) && Tight(line) && |line| <= LINE_SIZE - 2 && !Headed(line, "server")
  {
    assert NetworkLine(enabled)[..6][0] == 'n';
  }

  lemma ParsesNetworkLine(c: Config, enabled: bool)
    ensures ParseContent(c, Project, NetworkLine(enabled))
         == Some(c.(networkEnabled := enabled, networkSeen := true))
  {
    hide ParseAssignment, ParseServer, ScanWord;
    var word := if enabled then "start" else "stop";
    NetworkLineIs(enabled);
    NetworkLineShape(enabled);
    Starts("network", " " + word);
    ScansWord(" ", word, "", 15);
    assert " " + word + "" == " " + word;
    ScansNothing(1);
  }

  lemma EntryLineShape(e: Entry)
    requires EntryOk(e)
    ensures var line := EntryLine(e);
            && Plain(line) && Tight(line) && |line| <= LINE_SIZE - 2 && line != ""
            && SplitAssignment(line) == Some(e)
  {
    var line := EntryLine(e);
    assert line == e.key + ['='] + e.value;
    FindIn(e.key, '=', e.value);
    assert line[..|e.key|] == e.key && line[|e.key| + 1..] == e.value;
    assert line[0] == e.key[0] && line[|line| - 1] == e.value[|e.value| - 1];
  }

  lemma EntryLineNotHeaded(e: Entry, word: string)
    requires '=' !in word && !Headed(e.key, word)
    ensures !Headed(EntryLine(e), word)
  {
    var line := EntryLine(e);
    assert line[|e.key|] == '=';
    assert |e.key| < |word| <= |line| ==> line[..|word|][|e.key|] == '=';
    assert |e.key| > |word| ==> line[..|word|] == e.key[..|word|] && line[|word|] == e.key[|word|];
  }

  predicate SameButWarnings(a: Config, b: Config) {
    a.(warnings := 0) == b.(warnings := 0)
  }

  lemma ParsesEntryLine(c: Config, e: Entry)
    requires EntryOk(e) && |c.values| < MAX_VALUES
    requires forall i :: 0 <= i < |c.values| ==> c.values[i].key != e.key
    ensures var r := ParseContent(c, Project, EntryLine(e));
            r.Some? && SameButWarnings(r.value, c.(values := c.values + [e]))
  {
    hide ParseServer, ParseNetwork, SplitAssignment, KnownKey, ValidValue;
    EntryLineShape(e);
    EntryLineNotHeaded(e, "server");
    EntryLineNotHeaded(e, "network");
  }

  // ----- Parsing a whole printed configuration

  lemma NotYetThere(before: seq<Server>, servers: seq<Server>)
    requires servers != [] && DistinctLanguages(before + servers)
    ensures !HasLanguage(before, servers[0].language)
  {
    var all := before + servers;
    assert all[|before|] == servers[0];
    assert forall i :: 0 <= i < |before| ==> all[i] == before[i];
  }

  lemma Regroup(a: string, b: string, c: string, d: string)
    ensures (a + b + c) + d == a + b + (c + d)
  {
  }

  lemma {:induction false} ParsesServers(c: Config, servers: seq<Server>, rest: string)
    requires |c.servers| + |servers| <= MAX_SERVERS && DistinctLanguages(c.servers + servers)
    requires ServersOk(servers)
    ensures ParseText(c, Project, ServersText(servers) + rest)
         == ParseText(c.(servers := c.servers + servers), Project, rest)
    decreases |servers|
  {
    if servers == [] {
      assert ServersText(servers) + rest == rest;
      assert c.servers + servers == c.servers;
    } else {
      hide ParseText, ServerLine, HasLanguage;
      var s, tail := servers[0], servers[1..];
      var c' := c.(servers := c.servers + [s]);
      assert c'.servers + tail == c.servers + servers;
      ParsesServers(c', tail, rest);
      NotYetThere(c.servers, servers);
      ServerLineShape(s);
      ParsesServerLine(c, s);
      ParsesFirstLine(c, Project, ServerLine(s), ServersText(tail) + rest);
      Regroup(ServerLine(s), "\n", ServersText(tail), rest);
    }
  }

  lemma KeyNotYetThere(before: seq<Entry>, values: seq<Entry>)
    requires values != [] && DistinctKeys(before + values)
    ensures forall i :: 0 <= i < |before| ==> before[i].key != values[0].key
  {
    var all := before + values;
    assert all[|before|] == values[0];
    assert forall i :: 0 <= i < |before| ==> all[i] == before[i];
  }

  /** The result of parsing, up to warnings. */
  predicate ParsesTo(r: Option<Config>, c: Config) {
    r.Some? && SameButWarnings(r.value, c)
  }

  lemma ParsesFirstEntry(c: Config, e: Entry, rest: string) returns (c': Config)
    requires EntryOk(e) && |c.values| < MAX_VALUES
    requires forall i :: 0 <= i < |c.values| ==> c.values[i].key != e.key
    ensures SameButWarnings(c', c.(values := c.values + [e]))
    ensures ParseText(c, Project, EntryLine(e) + "\n" + rest) == ParseText(c', Project, rest)
  {
    EntryLineShape(e);
    ParsesEntryLine(c, e);
    ParsesFirstLine(c, Project, EntryLine(e), rest);
    c' := ParseContent(c, Project, EntryLine(e)).value;
  }

  lemma FirstAndRest(values: seq<Entry>)
    requires values != [] && EntriesOk(values)
    ensures EntryOk(values[0]) && EntriesOk(values[1..])
  {
  }

  lemma OneMoreEntry(c: Config, c': Config, values: seq<Entry>)
    requires values != [] && SameButWarnings(c', c.(values := c.values + [values[0]]))
    ensures c'.values + values[1..] == c.values + values && |c'.values| == |c.values| + 1
  {
  }

  lemma AfterOneMore(c: Config, c': Config, values: seq<Entry>, r: Option<Config>)
    requires values != [] && SameButWarnings(c', c.(values := c.values + [values[0]]))
    requires ParsesTo(r, c'.(values := c'.values + values[1..]))
    ensures ParsesTo(r, c.(values := c.values + values))
  {
    OneMoreEntry(c, c', values);
  }

  lemma {:induction false} ParsesValues(c: Config, values: seq<Entry>)
    requires |c.values| + |values| <= MAX_VALUES && DistinctKeys(c.values + values)
    requires EntriesOk(values)
    ensures ParsesTo(ParseText(c, Project, ValuesText(values)), c.(values := c.values + values))
    decreases |values|
  {
    if values == [] {
      assert c.values + values == c.values;
    } else {
      hide ParseText, EntryOk, EntriesOk, EntryLine, DistinctKeys, SameButWarnings, ParsesTo;
      KeyNotYetThere(c.values, values);
      FirstAndRest(values);
      var c' := ParsesFirstEntry(c, values[0], ValuesText(values[1..]));
      OneMoreEntry(c, c', values);
      ParsesValues(c', values[1..]);
      AfterOneMore(c, c', values, ParseText(c', Project, ValuesText(values[1..])));
    }
  }

  function NetworkText(c: Config): (text: string) {
    if c.networkSeen then NetworkLine(c.networkEnabled) + "\n" else ""
  }

  lemma ShowParts(c: Config)
    ensures Show(c) == ServersText(c.servers) + (NetworkText(c) + ValuesText(c.values))
  {
  }

  lemma ParsesNetwork(c: Config, shown: Config, rest: string)
    requires !c.networkSeen && !c.networkEnabled && (shown.networkEnabled ==> shown.networkSeen)
    ensures ParseText(c, Project, NetworkText(shown) + rest)
         == ParseText(c.(networkEnabled := shown.networkEnabled, networkSeen := shown.networkSeen), Project, rest)
  {
    if shown.networkSeen {
      NetworkLineShape(shown.networkEnabled);
      ParsesNetworkLine(c, shown.networkEnabled);
      ParsesFirstLine(c, Project, NetworkLine(shown.networkEnabled), rest);
    } else {
      assert NetworkText(shown) + rest == rest;
    }
  }

  /** Printing a well-formed configuration and parsing the output as a Polycallfile gives
      the configuration back, up to the number of warnings. */
  lemma ShowThenParse(c: Config)
    requires WellFormed(c)
    ensures ParsesTo(ParseText(EMPTY, Project, Show(c)), c)
  {
    ShowParts(c);
    assert [] + c.servers == c.servers && [] + c.values == c.values;
    ParsesServers(EMPTY, c.servers, NetworkText(c) + ValuesText(c.values));
    var c1 := Config(c.servers, [], false, false, 0);
    ParsesNetwork(c1, c, ValuesText(c.values));
    var c2 := Config(c.servers, [], c.networkEnabled, c.networkSeen, 0);
    ParsesValues(c2, c.values);
  }

  // ----- The theorem over all ways of building a configuration

  datatype Source = Source(layer: Layer, text: string)

  /** Parsing any number of files, each at any layer, into one configuration. */
  function ParseAll(c: Config, sources: seq<Source>): (r: Option<Config>)
    decreases |sources|
  {
    if sources == [] then Some(c)
    else
      var c' :- ParseText(c, sources[0].layer, sources[0].text);
      ParseAll(c', sources[1..])
  }

  lemma {:induction false} AllKeepWellFormed(c: Config, sources: seq<Source>)
    requires WellFormed(c) && ParseAll(c, sources).Some?
    ensures WellFormed(ParseAll(c, sources).value)
    decreases |sources|
  {
    if sources != [] {
      TextKeepsWellFormed(c, sources[0].layer, sources[0].text);
      AllKeepWellFormed(ParseText(c, sources[0].layer, sources[0].text).value, sources[1..]);
    }
  }

  /** Whatever files a configuration was read from, at whatever layers: parsing what
      `config show` prints, as a Polycallfile, succeeds and gives back the same servers in
      order, the same network flags and the same key/value list in order. */
  lemma RoundTrip(sources: seq<Source>)
    requires ParseAll(EMPTY, sources).Some?
    ensures var c := ParseAll(EMPTY, sources).value;
            var r := ParseText(EMPTY, Project, Show(c));
            ParsesTo(r, c) && Show(r.value) == Show(c)
  {
    AllKeepWellFormed(EMPTY, sources);
    ShowThenParse(ParseAll(EMPTY, sources).value);
  }

  /** Well-formedness is exactly what parsing can produce, warnings aside. */
  lemma WellFormedExactly(c: Config)
    ensures WellFormed(c)
       <==> exists text :: ParsesTo(ParseText(EMPTY, Project, text), c)
  {
    if WellFormed(c) {
      ShowThenParse(c);
    }
    if text :| ParsesTo(ParseText(EMPTY, Project, text), c) {
      TextKeepsWellFormed(EMPTY, Project, text);
    }
  }
}
