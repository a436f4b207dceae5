/** The layered configuration of src/polycall_config.c: what one line, one file and a whole
    hierarchy of files mean, and how a configuration is printed. */
module ConfigModel {
  import opened Options
  import opened ConfigText

  const MAX_SERVERS := 32
  const MAX_VALUES := 128
  const KEY_SIZE := 64
  const VALUE_SIZE := 256
  const LINE_SIZE := 1024
  const PATH_SIZE := 512
  const MAX_PORT := 65535
  const UINT_RANGE: nat := 0x1_0000_0000

  datatype Layer = Project | Runtime | Language

  datatype Server = Server(language: string, hostPort: nat, targetPort: nat)

  datatype Entry = Entry(key: string, value: string)

  datatype Config = Config(
    servers: seq<Server>, values: seq<Entry>, networkEnabled: bool, networkSeen: bool, warnings: nat)

  const EMPTY := Config([], [], false, false, 0)

  predicate ProjectKey(key: string) {
    key in [
      "network_timeout", "max_connections", "log_directory", "workspace_root", "auto_discover",
      "discovery_interval", "tls_enabled", "cert_file", "key_file", "max_memory_per_service",
      "max_cpu_per_service", "enable_metrics", "metrics_port"]
  }

  predicate RuntimeKey(key: string) {
    key in [
      "port", "server_type", "workspace", "log_level", "max_connections", "supports_diagnostics",
      "supports_completion", "supports_formatting", "max_memory", "timeout", "allow_remote",
      "require_auth", "network_timeout", "log_directory", "workspace_root", "auto_discover",
      "discovery_interval", "tls_enabled", "cert_file", "key_file", "max_memory_per_service",
      "max_cpu_per_service", "enable_metrics", "metrics_port"]
  }

  predicate BooleanKey(key: string) {
    key in [
      "auto_discover", "tls_enabled", "enable_metrics", "supports_diagnostics",
      "supports_completion", "supports_formatting", "allow_remote", "require_auth"]
  }

  predicate PositiveIntegerKey(key: string) {
    key in [
      "network_timeout", "max_connections", "discovery_interval", "max_cpu_per_service",
      "metrics_port", "timeout"]
  }

  predicate KnownKey(key: string, layer: Layer) {
    if layer == Project then ProjectKey(key) else RuntimeKey(key)
  }

  // ----- Values

  /** `<host>:<target>`, both between 1 and 65535. */
  function ParsePorts(s: string): (r: Option<(nat, nat)>)
    ensures r.Some? ==> 1 <= r.value.0 <= MAX_PORT && 1 <= r.value.1 <= MAX_PORT
  {
    var i := Find(s, ':');
    if |s| >= 64 || i == |s| || ':' in s[i + 1..] then None
    else
      var host :- ParsePositive(s[..i]);
      var target :- ParsePositive(s[i + 1..]);
      if host > MAX_PORT || target > MAX_PORT then None else Some((host, target))
  }

  predicate ValidValue(key: string, value: string) {
    && (key == "port" ==> ParsePorts(value).Some?)
    && (BooleanKey(key) ==> value == "true" || value == "false")
    && (PositiveIntegerKey(key) ==> ParsePositive(value).Some?)
    && (key == "metrics_port" ==> ParsePositive(value).Some? && ParsePositive(value).value <= MAX_PORT)
  }

  /** snprintf into a buffer of `size` bytes. */
  function Cut(s: string, size: nat): (t: string)
    requires size > 0
    ensures |s| < size ==> t == s
  {
    if |s| < size then s else s[..size - 1]
  }

  /** The position of a key in the table, or the table's length. */
  function KeyIndex(values: seq<Entry>, key: string): (i: nat)
    ensures i <= |values|
    ensures i < |values| ==> values[i].key == key
    ensures forall j :: 0 <= j < i ==> values[j].key != key
  {
    if values == [] || values[0].key == key then 0 else 1 + KeyIndex(values[1..], key)
  }

  /** config_get. */
  function Lookup(values: seq<Entry>, key: string): (r: Option<string>) {
    var i := KeyIndex(values, key);
    if i < |values| then Some(values[i].value) else None
  }

  /** config_set: overwrite in place, or append while there is room. */
  function Assign(values: seq<Entry>, key: string, value: string): (r: Option<seq<Entry>>) {
    var i := KeyIndex(values, key);
    if i < |values| then Some(values[i := values[i].(value := Cut(value, VALUE_SIZE))])
    else if |values| >= MAX_VALUES then None
    else Some(values + [Entry(Cut(key, KEY_SIZE), Cut(value, VALUE_SIZE))])
  }

  predicate HasLanguage(servers: seq<Server>, language: string) {
    exists s :: s in servers && s.language == language
  }

  /** add_server. */
  function WithServer(c: Config, language: string, mapping: string): (r: Option<Config>) {
    if language == "" || |language| >= 32 then None
    else
      var ports :- ParsePorts(mapping);
      if HasLanguage(c.servers, language) || |c.servers| >= MAX_SERVERS then None
      else Some(c.(servers := c.servers + [Server(language, ports.0, ports.1)]))
  }

  // ----- Lines

  /** The line starts with the word and a white-space character after it. */
  predicate Headed(line: string, word: string) {
    |line| > |word| && line[..|word|] == word && IsSpace(line[|word|])
  }

  /** `sscanf(line, "server %31s %63s %1s")` must convert exactly two fields. */
  function ParseServer(c: Config, layer: Layer, line: string): (r: Option<Config>)
    requires Headed(line, "server")
  {
    var (language, rest1) := ScanWord(line[6..], 31);
    var (mapping, rest2) := ScanWord(rest1, 63);
    var (extra, _) := ScanWord(rest2, 1);
    if layer != Project || language == "" || mapping == "" || extra != "" then None
    else WithServer(c, language, mapping)
  }

  /** `sscanf(line, "network %15s %1s")` must convert exactly one field. */
  function ParseNetwork(c: Config, layer: Layer, line: string): (r: Option<Config>)
    requires Headed(line, "network")
  {
    var (action, rest) := ScanWord(line[7..], 15);
    var (extra, _) := ScanWord(rest, 1);
    if layer != Project || extra != "" || (action != "start" && action != "stop") then None
    else Some(c.(networkEnabled := action == "start", networkSeen := true))
  }

  /** The two sides of `key=value`, if the line has this form with one equals sign and both
      sides fit their buffers. */
  function SplitAssignment(line: string): (r: Option<Entry>) {
    var i := Find(line, '=');
    if i == |line| || '=' in line[i + 1..] then None
    else
      var key, value := Trimmed(line[..i]), Trimmed(line[i + 1..]);
      if key == "" || value == "" || |key| >= KEY_SIZE || |value| >= VALUE_SIZE then None
      else Some(Entry(key, value))
  }

  function ParseAssignment(c: Config, layer: Layer, line: string): (r: Option<Config>) {
    var e :- SplitAssignment(line);
    if !ValidValue(e.key, e.value) then None
    else
      var values :- Assign(c.values, e.key, e.value);
      Some(c.(values := values,
              warnings := if KnownKey(e.key, layer) then c.warnings else (c.warnings + 1) % UINT_RANGE))
  }

  /** A line without its comment and margins. */
  function Content(raw: string): (line: string) {
    Trimmed(raw[..Find(raw, '#')])
  }

  function ParseContent(c: Config, layer: Layer, line: string): (r: Option<Config>) {
    if line == "" then Some(c)
    else if Headed(line, "server") then ParseServer(c, layer, line)
    else if Headed(line, "network") then ParseNetwork(c, layer, line)
    else ParseAssignment(c, layer, line)
  }

  // ----- Files

  /** What `fgets` and the length test make of the next line of a non-empty text: the line
      as a C string and the rest, or nothing if the line is refused. A line break hidden
      behind a zero byte is not seen, which counts as an over-long line. */
  function NextLine(text: string): (r: Option<(string, string)>)
    requires text != ""
    ensures r.Some? ==> |r.value.1| < |text|
    ensures r.Some? ==> '\n' !in r.value.0 && '\0' !in r.value.0
  {
    var i := Find(text, '\n');
    var raw := text[..i];
    if |raw| > LINE_SIZE - 2 then None
    else if i == |text| then Some((raw[..Find(raw, '\0')], ""))
    else if '\0' in raw then None
    else Some((raw, text[i + 1..]))
  }

  /** parse_config_file. */
  function ParseText(c: Config, layer: Layer, text: string): (r: Option<Config>)
    decreases |text|
  {
    if text == "" then Some(c)
    else
      var line :- NextLine(text);
      var c' :- ParseContent(c, layer, Content(line.0));
      ParseText(c', layer, line.1)
  }

  // ----- What a refusal leaves behind

  /** A refused line changes nothing, except that an unknown key has been counted by the
      time its value is refused. */
  function RefusedLine(c: Config, layer: Layer, line: string): (c': Config) {
    if Headed(line, "server") || Headed(line, "network") then c else RefusedAssignment(c, layer, line)
  }

  function RefusedAssignment(c: Config, layer: Layer, line: string): (c': Config) {
    var e := SplitAssignment(line);
    if e.None? || KnownKey(e.value.key, layer) then c
    else c.(warnings := (c.warnings + 1) % UINT_RANGE)
  }

  /** The lines before the refused one have taken effect. */
  function RefusedText(c: Config, layer: Layer, text: string): (c': Config)
    requires ParseText(c, layer, text).None?
    decreases |text|
  {
    var line := NextLine(text);
    if line.None? then c
    else
      var content := Content(line.value.0);
      var next := ParseContent(c, layer, content);
      if next.None? then RefusedLine(c, layer, content) else RefusedText(next.value, layer, line.value.1)
  }

  // ----- The hierarchy

  predicate Present(c: Config, key: string) {
    Lookup(c.values, key).Some?
  }

  predicate RequiredPresent(c: Config, projectFields: bool, language: Option<string>) {
    && (projectFields ==> Present(c, "workspace_root") && Present(c, "log_directory"))
    && (Lookup(c.values, "tls_enabled") == Some("true") ==> Present(c, "cert_file") && Present(c, "key_file"))
    && (language.Some? ==> Present(c, "workspace") && Lookup(c.values, "server_type") == Some(language.value))
  }

  predicate IsAlnum(ch: char) {
    IsDigit(ch) || 'a' <= ch <= 'z' || 'A' <= ch <= 'Z'
  }

  predicate ValidLanguage(language: string) {
    language != "" && forall ch :: ch in language ==> IsAlnum(ch) || ch == '-' || ch == '_'
  }

  /** The third layer's file: the canonical name, or the legacy one as a fallback. */
  function LanguageFile(files: map<string, string>, language: string): (r: Option<string>) {
    var path := Cut("Polycallrc." + language, PATH_SIZE);
    if path in files then Some(files[path])
    else if ".polycallrc" in files then Some(files[".polycallrc"])
    else None
  }

  /** load_hierarchy, on the files of the current directory. */
  function LoadHierarchy(files: map<string, string>, language: Option<string>): (r: Option<Config>) {
    if "Polycallfile" !in files then None
    else
      var c1 :- ParseText(EMPTY, Project, files["Polycallfile"]);
      var c2 :- if "Polycallrc" in files then ParseText(c1, Runtime, files["Polycallrc"]) else Some(c1);
      var c3 :- if language.None? then Some(c2)
                else if !ValidLanguage(language.value) then None
                else
                  var text :- LanguageFile(files, language.value);
                  ParseText(c2, Language, text);
      if RequiredPresent(c3, true, language) then Some(c3) else None
  }

  /** The configuration after a refused load: everything up to the refusal. */
  function RefusedLoad(files: map<string, string>, language: Option<string>): (c: Config)
    requires LoadHierarchy(files, language).None?
  {
    if "Polycallfile" !in files then EMPTY
    else
      var r1 := ParseText(EMPTY, Project, files["Polycallfile"]);
      if r1.None? then RefusedText(EMPTY, Project, files["Polycallfile"])
      else
        var r2 := if "Polycallrc" in files then ParseText(r1.value, Runtime, files["Polycallrc"]) else r1;
        if r2.None? then RefusedText(r1.value, Runtime, files["Polycallrc"])
        else if language.None? || !ValidLanguage(language.value) then r2.value
        else
          var text := LanguageFile(files, language.value);
          if text.None? then r2.value
          else
            var r3 := ParseText(r2.value, Language, text.value);
            if r3.None? then RefusedText(r2.value, Language, text.value) else r3.value
  }

  // ----- Printing

  function ServerLine(s: Server): (line: string) {
    "server " + s.language + " " + Decimal(s.hostPort) + ":" + Decimal(s.targetPort)
  }

  function NetworkLine(enabled: bool): (line: string) {
    if enabled then "network start" else "network stop"
  }

  function EntryLine(e: Entry): (line: string) {
    e.key + "=" + e.value
  }

  function ServersText(servers: seq<Server>): (text: string) {
    if servers == [] then "" else ServerLine(servers[0]) + "\n" + ServersText(servers[1..])
  }

  function ValuesText(values: seq<Entry>): (text: string) {
    if values == [] then "" else EntryLine(values[0]) + "\n" + ValuesText(values[1..])
  }

  /** show_config. */
  function Show(c: Config): (text: string) {
    ServersText(c.servers)
    + (if c.networkSeen then NetworkLine(c.networkEnabled) + "\n" else "")
    + ValuesText(c.values)
  }
}
