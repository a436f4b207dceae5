/** The mutable configuration object and the loops that fill, search and print it. */
module ConfigLoader {
  import opened Options
  import opened ConfigText
  import opened ConfigModel

  class PolycallConfig {
    var servers: seq<Server>
    var values: seq<Entry>
    var networkEnabled: bool
    var networkSeen: bool
    var warnings: nat

    ghost function Model(): (c: Config)
      reads this
    {
      Config(servers, values, networkEnabled, networkSeen, warnings)
    }

    constructor ()
      ensures Model() == EMPTY
    {
      servers, values := [], [];
      networkEnabled, networkSeen, warnings := false, false, 0;
    }

    method FindKey(key: string) returns (i: nat)
      ensures i == KeyIndex(values, key)
    {
      i := 0;
      while i < |values| && values[i].key != key
        invariant i <= |values|
        invariant forall j :: 0 <= j < i ==> values[j].key != key
      {
        i := i + 1;
      }
    }

    method Get(key: string) returns (r: Option<string>)
      ensures r == Lookup(values, key)
    {
      var i := FindKey(key);
      if i < |values| {
        return Some(values[i].value);
      }
      return None;
    }

    method Set(key: string, value: string) returns (ok: bool)
      modifies this`values
      ensures ok == Assign(old(values), key, value).Some?
      ensures values == if ok then Assign(old(values), key, value).value else old(values)
    {
      var i := FindKey(key);
      if i < |values| {
        values := values[i := values[i].(value := Cut(value, VALUE_SIZE))];
        return true;
      }
      if |values| >= MAX_VALUES {
        return false;
      }
      values := values + [Entry(Cut(key, KEY_SIZE), Cut(value, VALUE_SIZE))];
      return true;
    }

    method AddServer(language: string, mapping: string) returns (ok: bool)
      modifies this`servers
      ensures ok == WithServer(old(Model()), language, mapping).Some?
      ensures Model() == if ok then WithServer(old(Model()), language, mapping).value else old(Model())
    {
      hide ParsePorts;
      if language == "" || |language| >= 32 {
        return false;
      }
      var ports := ParsePorts(mapping);
      if ports.None? {
        return false;
      }
      for i := 0 to |servers|
        invariant servers == old(servers)
        invariant forall j :: 0 <= j < i ==> servers[j].language != language
      {
        if servers[i].language == language {
          return false;
        }
      }
      if |servers| >= MAX_SERVERS {
        return false;
      }
      servers := servers + [Server(language, ports.value.0, ports.value.1)];
      return true;
    }

    method ParseServerLine(layer: Layer, line: string) returns (ok: bool)
      requires Headed(line, "server")
      modifies this`servers
      ensures ok == ParseServer(old(Model()), layer, line).Some?
      ensures Model() == if ok then ParseServer(old(Model()), layer, line).value else old(Model())
    {
      hide ScanWord, WithServer;
      var (language, rest1) := ScanWord(line[6..], 31);
      var (mapping, rest2) := ScanWord(rest1, 63);
      var (extra, _) := ScanWord(rest2, 1);
      if layer != Project || language == "" || mapping == "" || extra != "" {
        return false;
      }
      ok := AddServer(language, mapping);
    }

    method ParseNetworkLine(layer: Layer, line: string) returns (ok: bool)
      requires Headed(line, "network")
      modifies this`networkEnabled, this`networkSeen
      ensures ok == ParseNetwork(old(Model()), layer, line).Some?
      ensures Model() == if ok then ParseNetwork(old(Model()), layer, line).value else old(Model())
    {
      hide ScanWord;
      var (action, rest) := ScanWord(line[7..], 15);
      var (extra, _) := ScanWord(rest, 1);
      if layer != Project || extra != "" || (action != "start" && action != "stop") {
        return false;
      }
      networkEnabled := action == "start";
      networkSeen := true;
      return true;
    }

    method ParseAssignmentLine(layer: Layer, line: string) returns (ok: bool)
      modifies this`values, this`warnings
      ensures ok == ParseAssignment(old(Model()), layer, line).Some?
      ensures Model() == if ok then ParseAssignment(old(Model()), layer, line).value
                         else RefusedAssignment(old(Model()), layer, line)
    {
      hide ValidValue, KnownKey, Assign, Trimmed;
      var i := Find(line, '=');
      if i == |line| || '=' in line[i + 1..] {
        return false;
      }
      var key := Trim(line[..i]);
      var value := Trim(line[i + 1..]);
      if key == "" || value == "" || |key| >= KEY_SIZE || |value| >= VALUE_SIZE {
        return false;
      }
      if !KnownKey(key, layer) {
        warnings := (warnings + 1) % UINT_RANGE;
      }
      if !ValidValue(key, value) {
        return false;
      }
      ok := Set(key, value);
    }

    /** One line without comment and margins. */
    method ParseLine(layer: Layer, line: string) returns (ok: bool)
      modifies this
      ensures ok == ParseContent(old(Model()), layer, line).Some?
      ensures Model() == if ok then ParseContent(old(Model()), layer, line).value
                         else RefusedLine(old(Model()), layer, line)
    {
      hide ParseServer, ParseNetwork, ParseAssignment;
      if line == "" {
        return true;
      }
      if Headed(line, "server") {
        ok := ParseServerLine(layer, line);
      } else if Headed(line, "network") {
        ok := ParseNetworkLine(layer, line);
      } else {
        ok := ParseAssignmentLine(layer, line);
      }
    }

    /** parse_config_file: line by line until the text is used up or a line is refused. */
    method ParseFile(layer: Layer, text: string) returns (ok: bool)
      modifies this
      ensures ok == ParseText(old(Model()), layer, text).Some?
      ensures Model() == if ok then ParseText(old(Model()), layer, text).value
                         else RefusedText(old(Model()), layer, text)
    {
      hide ParseContent;
      var rest := text;
      while rest != ""
        invariant ParseText(Model(), layer, rest) == ParseText(old(Model()), layer, text)
        invariant ParseText(Model(), layer, rest).None? ==>
                    RefusedText(Model(), layer, rest) == RefusedText(old(Model()), layer, text)
        decreases |rest|
      {
        var next := NextLine(rest);
        if next.None? {
          return false;
        }
        var (raw, more) := next.value;
        var line := Trim(raw[..Find(raw, '#')]);
        ok := ParseLine(layer, line);
        if !ok {
          return false;
        }
        rest := more;
      }
      return true;
    }

    /** load_hierarchy. */
    method Load(files: map<string, string>, language: Option<string>) returns (ok: bool)
      requires Model() == EMPTY
      modifies this
      ensures ok == LoadHierarchy(files, language).Some?
      ensures Model() == if ok then LoadHierarchy(files, language).value else RefusedLoad(files, language)
    {
      hide ParseText, Lookup;
      if "Polycallfile" !in files {
        return false;
      }
      ok := ParseFile(Project, files["Polycallfile"]);
      if !ok {
        return;
      }
      if "Polycallrc" in files {
        ok := ParseFile(Runtime, files["Polycallrc"]);
        if !ok {
          return;
        }
      }
      if language.Some? {
        if !ValidLanguage(language.value) {
          return false;
        }
        var text := LanguageFile(files, language.value);
        if text.None? {
          return false;
        }
        ok := ParseFile(Language, text.value);
        if !ok {
          return;
        }
      }
      ok := ValidateRequired(true, language);
    }

    method ValidateRequired(projectFields: bool, language: Option<string>) returns (valid: bool)
      ensures valid == RequiredPresent(Model(), projectFields, language)
    {
      hide Lookup;
      valid := true;
      if projectFields {
        var root := Get("workspace_root");
        var logs := Get("log_directory");
        valid := root.Some? && logs.Some?;
      }
      var tls := Get("tls_enabled");
      if tls == Some("true") {
        var cert := Get("cert_file");
        var key := Get("key_file");
        valid := valid && cert.Some? && key.Some?;
      }
      if language.Some? {
        var workspace := Get("workspace");
        var serverType := Get("server_type");
        valid := valid && workspace.Some? && serverType == language;
      }
    }

    method ShowServers() returns (output: string)
      ensures output == ServersText(servers)
    {
      hide ServerLine;
      output := "";
      for i := 0 to |servers|
        invariant output + ServersText(servers[i..]) == ServersText(servers)
      {
        assert servers[i..][1..] == servers[i + 1..];
        Regroup(output, ServerLine(servers[i]), "\n", ServersText(servers[i + 1..]));
        output := output + ServerLine(servers[i]) + "\n";
      }
      assert ServersText(servers[|servers|..]) == "";
      assert output + "" == output;
    }

    method ShowValues() returns (output: string)
      ensures output == ValuesText(values)
    {
      hide EntryLine;
      output := "";
      for i := 0 to |values|
        invariant output + ValuesText(values[i..]) == ValuesText(values)
      {
        assert values[i..][1..] == values[i + 1..];
        Regroup(output, EntryLine(values[i]), "\n", ValuesText(values[i + 1..]));
        output := output + EntryLine(values[i]) + "\n";
      }
      assert ValuesText(values[|values|..]) == "";
      assert output + "" == output;
    }

    /** show_config: everything it prints. */
    method ShowConfig() returns (output: string)
      ensures output == Show(Model())
    {
      output := ShowServers();
      if networkSeen {
        output := output + NetworkLine(networkEnabled) + "\n";
      }
      var lines := ShowValues();
      output := output + lines;
    }
  }

  lemma Regroup(a: string, b: string, c: string, d: string)
    ensures a + (b + c + d) == a + b + c + d
  {
  }
}
