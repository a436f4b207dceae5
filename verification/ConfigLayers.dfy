/** Layering: later files override earlier ones key by key, topology belongs to the
    Polycallfile, and a loaded configuration is valid as a whole. */
module ConfigLayers {
  import opened Options
  import opened ConfigText
  import opened ConfigModel
  import opened ConfigRoundTrip

  // ----- What a file assigns, without any table

  /** The assignment a line makes, read off the line alone. */
  function LineAssigns(line: string): (es: seq<Entry>) {
    if line == "" || Headed(line, "server") || Headed(line, "network") then []
    else
      match SplitAssignment(line)
      case None => []
      case Some(e) => [e]
  }

  /** All assignments of a file in order of appearance. */
  function Assignments(text: string): (es: seq<Entry>)
    decreases |text|
  {
    if text == "" then []
    else
      match NextLine(text)
      case None => []
      case Some(line) => LineAssigns(Content(line.0)) + Assignments(line.1)
  }

  /** The value a key was given last. */
  function LastValue(es: seq<Entry>, key: string): (r: Option<string>)
    decreases |es|
  {
    if es == [] then None
    else if es[|es| - 1].key == key then Some(es[|es| - 1].value)
    else LastValue(es[..|es| - 1], key)
  }

  function Keys(values: seq<Entry>): (ks: seq<string>)
    ensures |ks| == |values|
    ensures forall i :: 0 <= i < |ks| ==> ks[i] == values[i].key
  {
    seq(|values|, i requires 0 <= i < |values| => values[i].key)
  }

  /** The keys in the order in which they were first assigned. */
  function FirstAssigned(es: seq<Entry>): (ks: seq<string>)
    decreases |es|
  {
    if es == [] then []
    else
      var ks := FirstAssigned(es[..|es| - 1]);
      if es[|es| - 1].key in ks then ks else ks + [es[|es| - 1].key]
  }

  /** The table holds what a plain map would hold after all assignments in `es`, with its
      keys in first-assignment order. */
  ghost predicate Represents(values: seq<Entry>, es: seq<Entry>) {
    && DistinctKeys(values)
    && Keys(values) == FirstAssigned(es)
    && forall key :: Lookup(values, key) == LastValue(es, key)
  }

  lemma LastOfAppended(es: seq<Entry>, e: Entry, key: string)
    ensures LastValue(es + [e], key) == if e.key == key then Some(e.value) else LastValue(es, key)
  {
    assert (es + [e])[..|es|] == es;
  }

  lemma FirstOfAppended(es: seq<Entry>, e: Entry)
    ensures FirstAssigned(es + [e])
         == var ks := FirstAssigned(es); if e.key in ks then ks else ks + [e.key]
  {
    assert (es + [e])[..|es|] == es;
  }

  lemma LookupAfterOverwrite(values: seq<Entry>, i: nat, value: string, key: string)
    requires i < |values| && DistinctKeys(values)
    ensures var values' := values[i := values[i].(value := value)];
            && DistinctKeys(values') && Keys(values') == Keys(values)
            && Lookup(values', key) == if values[i].key == key then Some(value) else Lookup(values, key)
  {
    var values' := values[i := values[i].(value := value)];
    var j, j' := KeyIndex(values, key), KeyIndex(values', key);
    assert forall k :: 0 <= k < |values| ==> values'[k].key == values[k].key;
    assert j == j';
  }

  lemma IndexAfterAppend(values: seq<Entry>, e: Entry, key: string)
    requires KeyIndex(values, e.key) == |values|
    ensures KeyIndex(values + [e], key)
         == if KeyIndex(values, key) < |values| || e.key == key then KeyIndex(values, key) else |values| + 1
  {
    var values' := values + [e];
    assert forall k :: 0 <= k < |values| ==> values'[k] == values[k];
    assert values'[|values|] == e;
  }

  lemma KeysAfterAppend(values: seq<Entry>, e: Entry)
    requires KeyIndex(values, e.key) == |values| && DistinctKeys(values)
    ensures DistinctKeys(values + [e]) && Keys(values + [e]) == Keys(values) + [e.key]
  {
  }

  lemma LookupAfterAppend(values: seq<Entry>, e: Entry, key: string)
    requires KeyIndex(values, e.key) == |values|
    ensures Lookup(values + [e], key) == if e.key == key then Some(e.value) else Lookup(values, key)
  {
    IndexAfterAppend(values, e, key);
  }

  lemma AssignKeepsKeys(values: seq<Entry>, es: seq<Entry>, e: Entry)
    requires Represents(values, es) && |e.key| < KEY_SIZE && |e.value| < VALUE_SIZE
    requires Assign(values, e.key, e.value).Some?
    ensures DistinctKeys(Assign(values, e.key, e.value).value)
    ensures Keys(Assign(values, e.key, e.value).value) == FirstAssigned(es + [e])
  {
    hide FirstAssigned, LastValue, Lookup;
    var i := KeyIndex(values, e.key);
    FirstOfAppended(es, e);
    if i < |values| {
      assert Keys(values)[i] == e.key;
      LookupAfterOverwrite(values, i, e.value, e.key);
    } else {
      KeysAfterAppend(values, e);
    }
  }

  /** One assignment: the table follows the map. */
  lemma AssignRepresents(values: seq<Entry>, es: seq<Entry>, e: Entry)
    requires Represents(values, es) && |e.key| < KEY_SIZE && |e.value| < VALUE_SIZE
    requires Assign(values, e.key, e.value).Some?
    ensures Represents(Assign(values, e.key, e.value).value, es + [e])
  {
    var i := KeyIndex(values, e.key);
    var values' := Assign(values, e.key, e.value).value;
    AssignKeepsKeys(values, es, e);
    forall key
      ensures Lookup(values', key) == LastValue(es + [e], key)
    {
      LastOfAppended(es, e, key);
      if i < |values| {
        LookupAfterOverwrite(values, i, e.value, key);
      } else {
        LookupAfterAppend(values, e, key);
      }
    }
  }

  /** A full table still accepts overrides, and refuses only new keys. */
  lemma FullTable(values: seq<Entry>, key: string, value: string)
    ensures Assign(values, key, value).None? <==> |values| >= MAX_VALUES && Lookup(values, key).None?
  {
  }

  lemma SplitFits(line: string)
    requires SplitAssignment(line).Some?
    ensures var e := SplitAssignment(line).value; |e.key| < KEY_SIZE && |e.value| < VALUE_SIZE
  {
  }

  lemma OnlyAssignmentsAssign(c: Config, layer: Layer, line: string)
    requires Headed(line, "server") || Headed(line, "network")
    requires ParseContent(c, layer, line).Some?
    ensures ParseContent(c, layer, line).value.values == c.values
  {
    hide ScanWord;
  }

  lemma ContentRepresents(c: Config, layer: Layer, line: string, es: seq<Entry>)
    requires Represents(c.values, es) && ParseContent(c, layer, line).Some?
    ensures Represents(ParseContent(c, layer, line).value.values, es + LineAssigns(line))
  {
    hide Represents, SplitAssignment, KnownKey, ValidValue, ScanWord, WithServer, Assign;
    if line == "" || Headed(line, "server") || Headed(line, "network") {
      assert es + [] == es;
      if line != "" { OnlyAssignmentsAssign(c, layer, line); }
    } else {
      SplitFits(line);
      AssignRepresents(c.values, es, SplitAssignment(line).value);
    }
  }

  lemma Regroup3(a: seq<Entry>, b: seq<Entry>, c: seq<Entry>)
    ensures (a + b) + c == a + (b + c)
  {
  }

  /** Parsing a file refines a sequence of map updates. */
  lemma {:induction false} TextRepresents(c: Config, layer: Layer, text: string, es: seq<Entry>)
    requires Represents(c.values, es) && ParseText(c, layer, text).Some?
    ensures Represents(ParseText(c, layer, text).value.values, es + Assignments(text))
    decreases |text|
  {
    if text == "" {
      assert es + [] == es;
    } else {
      var line := NextLine(text).value;
      var content := Content(line.0);
      var c' := ParseContent(c, layer, content).value;
      assert ParseText(c, layer, text) == ParseText(c', layer, line.1);
      assert Assignments(text) == LineAssigns(content) + Assignments(line.1);
      ContentRepresents(c, layer, content, es);
      TextRepresents(c', layer, line.1, es + LineAssigns(content));
      Regroup3(es, LineAssigns(content), Assignments(line.1));
    }
  }

  predicate SameTopology(a: Config, b: Config) {
    a.servers == b.servers && a.networkEnabled == b.networkEnabled && a.networkSeen == b.networkSeen
  }

  lemma ContentTopology(c: Config, layer: Layer, line: string)
    requires layer != Project && ParseContent(c, layer, line).Some?
    ensures SameTopology(ParseContent(c, layer, line).value, c)
  {
  }

  /** Only the project layer can touch servers and network flags. */
  lemma {:induction false} TopologyIsTheProjects(c: Config, layer: Layer, text: string)
    requires layer != Project && ParseText(c, layer, text).Some?
    ensures SameTopology(ParseText(c, layer, text).value, c)
    decreases |text|
  {
    if text != "" {
      var line := NextLine(text).value;
      ContentTopology(c, layer, Content(line.0));
      hide ParseContent, Content, NextLine;
      TopologyIsTheProjects(ParseContent(c, layer, Content(line.0)).value, layer, line.1);
    }
  }

  /** How many of the assignments are to keys the layer does not know. */
  function UnknownKeys(layer: Layer, es: seq<Entry>): (n: nat) {
    if es == [] then 0 else (if KnownKey(es[0].key, layer) then 0 else 1) + UnknownKeys(layer, es[1..])
  }

  lemma {:induction false} UnknownKeysConcat(layer: Layer, a: seq<Entry>, b: seq<Entry>)
    ensures UnknownKeys(layer, a + b) == UnknownKeys(layer, a) + UnknownKeys(layer, b)
    decreases |a|
  {
    hide KnownKey;
    if a == [] {
      assert a + b == b;
    } else {
      assert (a + b)[1..] == a[1..] + b;
      UnknownKeysConcat(layer, a[1..], b);
    }
  }

  /** Addition on `unsigned int`. */
  function WrapAdd(a: nat, b: nat): (s: nat)
    ensures s < UINT_RANGE
  {
    (a + b) % 0x1_0000_0000
  }

  lemma ContentWarnings(c: Config, layer: Layer, line: string)
    requires c.warnings < UINT_RANGE && ParseContent(c, layer, line).Some?
    ensures ParseContent(c, layer, line).value.warnings
         == WrapAdd(c.warnings, UnknownKeys(layer, LineAssigns(line)))
  {
    hide KnownKey, ScanWord, ValidValue, SplitAssignment, ParsePorts;
  }

  lemma AddModulo(a: nat, b: nat, c: nat)
    ensures WrapAdd(WrapAdd(a, b), c) == WrapAdd(a, b + c)
  {
  }

  lemma FirstLineFirst(c: Config, layer: Layer, text: string)
    requires text != "" && ParseText(c, layer, text).Some?
    ensures NextLine(text).Some?
    ensures var line := NextLine(text).value;
            var r := ParseContent(c, layer, Content(line.0));
            && r.Some? && ParseText(c, layer, text) == ParseText(r.value, layer, line.1)
            && Assignments(text) == LineAssigns(Content(line.0)) + Assignments(line.1)
  {
    hide ParseContent, Content, NextLine, LineAssigns;
  }

  lemma NothingToWarn(c: Config, layer: Layer)
    requires c.warnings < UINT_RANGE
    ensures ParseText(c, layer, "") == Some(c)
    ensures WrapAdd(c.warnings, UnknownKeys(layer, Assignments(""))) == c.warnings
  {
  }

  /** Unknown keys do not fail a file; each use of one is counted as a warning. */
  lemma {:induction false} WarningsCountUnknownKeys(c: Config, layer: Layer, text: string)
    requires c.warnings < UINT_RANGE && ParseText(c, layer, text).Some?
    ensures ParseText(c, layer, text).value.warnings
         == WrapAdd(c.warnings, UnknownKeys(layer, Assignments(text)))
    decreases |text|
  {
    hide ParseContent, ParseText, Content, NextLine, UnknownKeys, LineAssigns, Assignments, WrapAdd;
    if text == "" {
      NothingToWarn(c, layer);
    } else {
      FirstLineFirst(c, layer, text);
      var line := NextLine(text).value;
      var content := Content(line.0);
      var c' := ParseContent(c, layer, content).value;
      var here, more := UnknownKeys(layer, LineAssigns(content)), UnknownKeys(layer, Assignments(line.1));
      ContentWarnings(c, layer, content);
      UnknownKeysConcat(layer, LineAssigns(content), Assignments(line.1));
      WarningsCountUnknownKeys(c', layer, line.1);
      AddModulo(c.warnings, here, more);
    }
  }

  lemma BreakInside(text: string, i: nat, j: nat, n: nat)
    requires i <= j <= |text| && i <= n < j && text[n] == '\n'
    ensures '\n' in text[i..j]
  {
    assert text[i..j][n - i] == '\n';
  }

  /** An accepted file has no stretch of more than 1022 characters without a line break. */
  lemma {:induction false} LinesFit(c: Config, layer: Layer, text: string, i: nat, j: nat)
    requires ParseText(c, layer, text).Some? && i <= j <= |text| && '\n' !in text[i..j]
    ensures j - i <= LINE_SIZE - 2
    decreases |text|
  {
    hide ParseContent, Content, Find;
    if text != "" {
      var n := Find(text, '\n');
      if i > n {
        assert text[n + 1..][i - n - 1..j - n - 1] == text[i..j];
        LinesFit(ParseContent(c, layer, Content(text[..n])).value, layer, text[n + 1..], i - n - 1, j - n - 1);
      } else {
        if n < j { BreakInside(text, i, j, n); }
      }
    }
  }

  lemma EmptyRepresents()
    ensures Represents(EMPTY.values, [])
  {
  }

  // ----- What a refused file leaves behind

  lemma SameLine(text: string, p: string)
    requires text != "" && NextLine(text).Some? && NextLine(text).value.1 != ""
    requires p <= NextLine(text).value.1
    ensures var (raw, rest) := NextLine(text).value;
            && raw + "\n" + p <= text
            && NextLine(raw + "\n" + p) == Some((raw, p))
  {
    var (raw, rest) := NextLine(text).value;
    assert text == raw + "\n" + rest;
    var t := raw + "\n" + p;
    FindIn(raw, '\n', p);
    assert t[..|raw|] == raw && t[|raw| + 1..] == p;
  }

  /** A line that does not fit leaves the configuration as it was; one that is refused for
      what it says leaves it with the warning for an unknown key, if it is one. */
  ghost predicate StopsAt(c: Config, layer: Layer, text: string, c': Config) {
    text != "" &&
    match NextLine(text)
    case None => c' == c
    case Some(line) =>
      && ParseContent(c, layer, Content(line.0)).None?
      && c' == c.(warnings := if UnknownKeys(layer, LineAssigns(Content(line.0))) == 0 then c.warnings
                              else WrapAdd(c.warnings, 1))
  }

  lemma RefusedLineCounts(c: Config, layer: Layer, line: string)
    requires ParseContent(c, layer, line).None?
    ensures RefusedLine(c, layer, line)
         == c.(warnings := if UnknownKeys(layer, LineAssigns(line)) == 0 then c.warnings else WrapAdd(c.warnings, 1))
  {
    hide KnownKey, ScanWord, ValidValue, SplitAssignment, ParsePorts;
    assert line != "";
  }

  /** Refusing a file is not atomic: what stays is the effect of the lines before the first
      that is refused, and the warning this one has cost. */
  lemma {:induction false} RefusalKeepsBeginning(c: Config, layer: Layer, text: string) returns (p: string, c': Config)
    requires ParseText(c, layer, text).None?
    ensures p <= text && ParseText(c, layer, p) == Some(c')
    ensures StopsAt(c', layer, text[|p|..], RefusedText(c, layer, text))
    decreases |text|
  {
    hide ParseContent, Content, NextLine, RefusedLine, UnknownKeys, LineAssigns;
    p, c' := "", c;
    assert text[0..] == text;
    if NextLine(text).Some? {
      var (raw, rest) := NextLine(text).value;
      var next := ParseContent(c, layer, Content(raw));
      if next.Some? {
        var q, d := RefusalKeepsBeginning(next.value, layer, rest);
        SameLine(text, q);
        p, c' := raw + "\n" + q, d;
        assert text == raw + "\n" + rest by { LineAndRest(text); }
        assert text[|p|..] == rest[|q|..];
      } else {
        RefusedLineCounts(c, layer, Content(raw));
      }
    }
  }

  lemma LineAndRest(text: string)
    requires text != "" && NextLine(text).Some? && NextLine(text).value.1 != ""
    ensures text == NextLine(text).value.0 + "\n" + NextLine(text).value.1
  {
  }

  // ----- The whole hierarchy

  /** The assignments of all files that a load reads, in the order it reads them. */
  function LayeredAssignments(files: map<string, string>, language: Option<string>): (es: seq<Entry>)
    requires "Polycallfile" in files
  {
    Assignments(files["Polycallfile"])
    + (if "Polycallrc" in files then Assignments(files["Polycallrc"]) else [])
    + (if language.Some? && LanguageFile(files, language.value).Some?
       then Assignments(LanguageFile(files, language.value).value) else [])
  }

  lemma LoadStages(files: map<string, string>, language: Option<string>) returns (c1: Config, c2: Config)
    requires LoadHierarchy(files, language).Some?
    ensures "Polycallfile" in files && ParseText(EMPTY, Project, files["Polycallfile"]) == Some(c1)
    ensures if "Polycallrc" in files then ParseText(c1, Runtime, files["Polycallrc"]) == Some(c2) else c2 == c1
    ensures if language.Some?
            then && LanguageFile(files, language.value).Some?
                 && ParseText(c2, Language, LanguageFile(files, language.value).value) == LoadHierarchy(files, language)
            else LoadHierarchy(files, language) == Some(c2)
  {
    c1 := ParseText(EMPTY, Project, files["Polycallfile"]).value;
    c2 := if "Polycallrc" in files then ParseText(c1, Runtime, files["Polycallrc"]).value else c1;
  }

  /** After a successful load every key has the value assigned last, going through
      Polycallfile, Polycallrc and the language file; keys are unique and in
      first-assignment order; servers and network flags are those of Polycallfile alone. */
  lemma LayeringIsOverride(files: map<string, string>, language: Option<string>)
    requires LoadHierarchy(files, language).Some?
    ensures "Polycallfile" in files
    ensures var c := LoadHierarchy(files, language).value;
            Represents(c.values, LayeredAssignments(files, language))
    ensures var c := LoadHierarchy(files, language).value;
            var p := ParseText(EMPTY, Project, files["Polycallfile"]);
            p.Some? && SameTopology(c, p.value)
  {
    hide ParseText, Represents, Assignments, LoadHierarchy, LanguageFile;
    var c1, c2 := LoadStages(files, language);
    EmptyRepresents();
    var es1 := Assignments(files["Polycallfile"]);
    TextRepresents(EMPTY, Project, files["Polycallfile"], []);
    assert [] + es1 == es1;
    var es2 := if "Polycallrc" in files then Assignments(files["Polycallrc"]) else [];
    assert es1 + [] == es1;
    if "Polycallrc" in files {
      TextRepresents(c1, Runtime, files["Polycallrc"], es1);
      TopologyIsTheProjects(c1, Runtime, files["Polycallrc"]);
    }
    assert Represents(c2.values, es1 + es2);
    assert (es1 + es2) + [] == es1 + es2;
    if language.Some? {
      TextRepresents(c2, Language, LanguageFile(files, language.value).value, es1 + es2);
      TopologyIsTheProjects(c2, Language, LanguageFile(files, language.value).value);
    }
  }

  /** What a user of a loaded configuration may rely on, whichever layer set each key. */
  ghost predicate ValidAsAWhole(c: Config, language: Option<string>) {
    && DistinctLanguages(c.servers)
    && (forall s :: s in c.servers ==> 1 <= s.hostPort <= MAX_PORT && 1 <= s.targetPort <= MAX_PORT)
    && (forall key :: BooleanKey(key) && Lookup(c.values, key).Some? ==>
          Lookup(c.values, key).value == "true" || Lookup(c.values, key).value == "false")
    && (forall key :: PositiveIntegerKey(key) && Lookup(c.values, key).Some? ==>
          ParsePositive(Lookup(c.values, key).value).Some?)
    && (Lookup(c.values, "metrics_port").Some? ==>
          var port := ParsePositive(Lookup(c.values, "metrics_port").value);
          port.Some? && port.value <= MAX_PORT)
    && (Lookup(c.values, "port").Some? ==> ParsePorts(Lookup(c.values, "port").value).Some?)
    && (Lookup(c.values, "tls_enabled") == Some("true") ==>
          Lookup(c.values, "cert_file").Some? && Lookup(c.values, "key_file").Some?)
    && Lookup(c.values, "workspace_root").Some? && Lookup(c.values, "log_directory").Some?
    && (language.Some? ==>
          Lookup(c.values, "server_type") == language && Lookup(c.values, "workspace").Some?)
  }

  lemma LookupIsValid(c: Config, key: string)
    requires WellFormed(c) && Lookup(c.values, key).Some?
    ensures ValidValue(key, Lookup(c.values, key).value)
  {
    assert EntryOk(c.values[KeyIndex(c.values, key)]);
  }

  lemma LoadedIsWellFormed(files: map<string, string>, language: Option<string>)
    requires LoadHierarchy(files, language).Some?
    ensures WellFormed(LoadHierarchy(files, language).value)
  {
    var c1, c2 := LoadStages(files, language);
    TextKeepsWellFormed(EMPTY, Project, files["Polycallfile"]);
    if "Polycallrc" in files {
      TextKeepsWellFormed(c1, Runtime, files["Polycallrc"]);
    }
    if language.Some? {
      TextKeepsWellFormed(c2, Language, LanguageFile(files, language.value).value);
    }
  }

  lemma LoadedIsValid(files: map<string, string>, language: Option<string>)
    requires LoadHierarchy(files, language).Some?
    ensures ValidAsAWhole(LoadHierarchy(files, language).value, language)
  {
    hide LoadHierarchy, ValidLanguage, ParsePorts, ParsePositive, BooleanKey, PositiveIntegerKey, EntryOk, Lookup;
    LoadedIsWellFormed(files, language);
    LoadedHasRequired(files, language);
    var c := LoadHierarchy(files, language).value;
    forall key | Lookup(c.values, key).Some?
      ensures ValidValue(key, Lookup(c.values, key).value)
    {
      LookupIsValid(c, key);
    }
    assert forall s :: s in c.servers ==> ServerOk(s);
  }

  lemma LoadsSingleFile(text: string)
    ensures LoadHierarchy(map["Polycallfile" := text], None)
         == match ParseText(EMPTY, Project, text)
            case None => None
            case Some(c) => if RequiredPresent(c, true, None) then Some(c) else None
  {
    assert |"Polycallrc"| != |"Polycallfile"|;
  }

  lemma LoadedHasRequired(files: map<string, string>, language: Option<string>)
    requires LoadHierarchy(files, language).Some?
    ensures RequiredPresent(LoadHierarchy(files, language).value, true, language)
  {
  }

  /** Showing a loaded configuration and using the output as the Polycallfile of a project
      with no other layer gives the same configuration. */
  lemma ShownConfigurationReloads(files: map<string, string>, language: Option<string>)
    requires LoadHierarchy(files, language).Some?
    ensures var c := LoadHierarchy(files, language).value;
            ParsesTo(LoadHierarchy(map["Polycallfile" := Show(c)], None), c)
  {
    hide LoadHierarchy, ParseText, Show;
    LoadedIsWellFormed(files, language);
    LoadedHasRequired(files, language);
    var c := LoadHierarchy(files, language).value;
    ShowThenParse(c);
    LoadsSingleFile(Show(c));
  }
}
