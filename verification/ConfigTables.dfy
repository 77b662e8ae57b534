/** The tables this build documents, and why its configurations survive printing. */
module ConfigTables {
  import opened Text
  import opened Wrappers
  import opened TomlText
  import opened TomlDocument
  import opened ConfigSchema
  import opened ConfigRoundTrip

  const CAPABILITIES: seq<string> := [
    "autonomous_attack", "building", "combat_assist", "crafting", "door_toggle", "drink_carried",
    "drink_world_source", "eat_percentage", "equipment_equip", "equipment_unequip", "inventory_transfer",
    "medical_bandage", "move_to_square", "read_literature", "survival_rest", "survival_sleep"]

  function TextSpec(default: Option<string>, choices: seq<string>): Spec {
    Spec(TextKind, match default { case None => None case Some(text) => Some(Str(text)) }, choices, None, None)
  }

  function FlagSpec(default: bool): Spec { Spec(FlagKind, Some(Bool(default)), [], None, None) }

  function NumberSpec(default: int, maximum: int): Spec { Spec(NumberKind, Some(Int(default)), [], Some(1), Some(maximum)) }

  function TransportKeys(): seq<Key> {
    [Key("connect_timeout_ms", NumberSpec(5000, 600000)), Key("read_timeout_ms", NumberSpec(60000, 600000)),
     Key("max_response_bytes", NumberSpec(1000000, 8000000)), Key("max_attempts", NumberSpec(3, 5))]
  }

  function GameKeys(): seq<Key> {
    [Key("channel", TextSpec(Some("stable"), ["stable", "unstable"])), Key("expected_build", TextSpec(Some("42.20"), [])),
     Key("install_dir", TextSpec(None, [])), Key("user_dir", TextSpec(None, []))]
  }

  function SessionKeys(): seq<Key> {
    [Key("default_mode", TextSpec(Some("observe"), ["observe", "assisted", "autonomous"])), Key("require_backup", FlagSpec(true))]
  }

  function SafetyKeys(): seq<Key> {
    [Key("panic_hotkey", TextSpec(Some("F12"), [])), Key("manual_takeover", FlagSpec(true)),
     Key("max_autonomous_radius", NumberSpec(30, 100)), Key("allow_multiplayer", FlagSpec(false)),
     Key("disabled_capabilities", Spec(NamesKind, Some(Array([])), CAPABILITIES, None, None))]
  }

  function PlannerKeys(): seq<Key> {
    [Key("provider", TextSpec(Some("none"), ["none", "openai_compatible", "teamon"])), Key("max_steps", NumberSpec(8, 32))]
  }

  function OpenAiKeys(): seq<Key> {
    [Key("base_url", TextSpec(None, [])), Key("model", TextSpec(None, [])),
     Key("api_key_env", TextSpec(Some("PZ_AGENT_OPENAI_API_KEY"), [])),
     Key("max_output_tokens", NumberSpec(1024, 8192)), Key("knowledge_root", TextSpec(None, []))] + TransportKeys()
  }

  function TeamOnKeys(): seq<Key> {
    [Key("base_url", TextSpec(None, [])), Key("assistant", TextSpec(None, [])),
     Key("api_key_env", TextSpec(Some("PZ_AGENT_TEAMON_API_KEY"), [])), Key("knowledge_root", TextSpec(None, []))] + TransportKeys()
  }

  function VoiceKeys(): seq<Key> {
    [Key("adapter", TextSpec(Some("teamon"), ["teamon", "none"])), Key("enabled", FlagSpec(false)),
     Key("api_key_env", TextSpec(Some("PZ_AGENT_TEAMON_API_KEY"), []))]
  }

  function Tables(): Schema {
    [TableSpec("game", GameKeys()), TableSpec("session", SessionKeys()), TableSpec("safety", SafetyKeys()),
     TableSpec("planner", PlannerKeys()), TableSpec("planner.openai_compatible", OpenAiKeys()),
     TableSpec("planner.teamon", TeamOnKeys()), TableSpec("voice", VoiceKeys())]
  }

  predicate Ending(dotted: string, suffix: string) {
    |dotted| >= |suffix| && dotted[|dotted| - |suffix|..] == suffix
  }

  const MAX_HOTKEY := 16
  const PANIC_HOTKEY := "F12"

  /** What validation takes from elsewhere: case, character classes, the providers' own
      checks of endpoints and variable names, whether a directory holds a corpus, and
      whether a provider's typed configuration can be built from its table. */
  datatype Outside = Outside(
    lower: string -> string, upper: string -> string, alnum: char -> bool, space: char -> bool,
    endpoint: string -> bool, envName: string -> bool, corpus: string -> bool, builds: (nat, Values) -> bool)
  {
    /** It leaves the texts this build documents alone. */
    ghost predicate Sane() {
      && (forall text :: text in ["stable", "unstable", "observe", "assisted", "autonomous", "none", "openai_compatible", "teamon"] ==>
            lower(text) == text)
      && upper(PANIC_HOTKEY) == PANIC_HOTKEY && alnum('F') && alnum('1') && alnum('2')
      && envName("PZ_AGENT_OPENAI_API_KEY") && envName("PZ_AGENT_TEAMON_API_KEY")
    }

    predicate Blank(text: string) { forall c :: c in text ==> space(c) }
  }

  /** The three families of texts that answer to a rule of their own. */
  predicate Admitted(dotted: string, raw: string, o: Outside) {
    && (dotted == Dotted("safety", "panic_hotkey") ==> raw != "" && |raw| <= MAX_HOTKEY && forall c :: c in raw ==> o.alnum(c))
    && (Ending(dotted, ".base_url") ==> o.endpoint(raw))
    && (Ending(dotted, ".api_key_env") ==> o.envName(raw))
  }

  function Cell(values: Values, i: nat, j: nat): Option<Toml> {
    if i < |values| && j < |values[i]| then values[i][j] else None
  }

  /** A set text, or nothing. */
  function TextAt(values: Values, i: nat, j: nat): string {
    match Cell(values, i, j)
    case Some(Str(text)) => text
    case _ => ""
  }

  /** The table of the provider the planner names, when it is one that needs a table. */
  function ProviderTable(values: Values): Option<nat> {
    var provider := TextAt(values, 3, 0);
    if provider == "openai_compatible" then Some(4) else if provider == "teamon" then Some(5) else None
  }

  function Missing(values: Values, i: nat, j: nat, key: string, o: Outside): seq<Problem>
    requires i < 7
  {
    if o.Blank(TextAt(values, i, j)) then [Problem(Dotted(Tables()[i].name, key), MissingValue)] else []
  }

  function KnowledgeRoot(values: Values, i: nat): string { TextAt(values, i, if i == 4 then 4 else 3) }

  /** The selected provider's table, and only that one: its keys without defaults, then
      its corpus, then what the provider itself says. */
  function ProviderProblems(values: Values, o: Outside): seq<Problem> {
    var at := ProviderTable(values);
    if at.None? then []
    else
      var (i, root) := (at.value, KnowledgeRoot(values, at.value));
      var missing := Missing(values, i, 0, "base_url", o) + if i == 4 then Missing(values, i, 1, "model", o) else [];
      if missing != [] then missing
      else if !o.Blank(root) && !o.corpus(root) then [Problem(Dotted(Tables()[i].name, "knowledge_root"), NotFound)]
      else if !o.builds(i, values) then [Problem(Tables()[i].name, NotAllowed)]
      else []
  }

  /** Multiplayer is refused outright, and so is any panic key but the one the mod binds. */
  function Forbidden(values: Values, o: Outside): seq<Problem> {
    (if Cell(values, 2, 3) == Some(Bool(true)) then [Problem(Dotted("safety", "allow_multiplayer"), NotAllowed)] else [])
    + if o.upper(TextAt(values, 2, 0)) != PANIC_HOTKEY then [Problem(Dotted("safety", "panic_hotkey"), NotAllowed)] else []
  }

  /** This build's rules. */
  function OwnRules(o: Outside): Rules {
    Rules(o.lower, (dotted: string, raw: string) => Admitted(dotted, raw, o),
          (values: Values) => ProviderProblems(values, o) + Forbidden(values, o))
  }

  /** Values that may stand together. */
  predicate Together(values: Values, o: Outside) {
    && Cell(values, 2, 3) != Some(Bool(true)) && o.upper(TextAt(values, 2, 0)) == PANIC_HOTKEY
    && (ProviderTable(values).Some? ==>
          var i := ProviderTable(values).value;
          && !o.Blank(TextAt(values, i, 0)) && (i == 4 ==> !o.Blank(TextAt(values, i, 1)))
          && (o.Blank(KnowledgeRoot(values, i)) || o.corpus(KnowledgeRoot(values, i)))
          && o.builds(i, values))
  }

  /** A document is a configuration of this build exactly when no table, key or value of
      it is at fault, it asks for no multiplayer, its panic key is the bound one, and the
      provider it selects, if any, has its endpoint, its model and a corpus that is there. */
  lemma ValidatesIff(document: seq<(string, Toml)>, o: Outside)
    ensures var (values, problems) := CheckDocument(Tables(), OwnRules(o), document);
            Validate(Tables(), OwnRules(o), document) == Ok(values) <==> problems == [] && Together(values, o)
    ensures Validate(Tables(), OwnRules(o), document).Ok? <==>
              Validate(Tables(), OwnRules(o), document) == Ok(CheckDocument(Tables(), OwnRules(o), document).0)
  {
    hide CheckDocument, Tables;
  }

  /** What the defaults need of the rules: lower-case choices stay as they are, texts
      picked from choices answer to no further rule, and the default names pass. */
  ghost predicate Ordinary(rules: Rules) {
    && (forall text :: text in ["stable", "unstable", "observe", "assisted", "autonomous", "none", "openai_compatible", "teamon"] ==>
          rules.lower(text) == text)
    && rules.admits(Dotted("game", "expected_build"), "42.20") && rules.admits(Dotted("safety", "panic_hotkey"), "F12")
    && rules.admits(Dotted("planner.openai_compatible", "api_key_env"), "PZ_AGENT_OPENAI_API_KEY")
    && rules.admits(Dotted("planner.teamon", "api_key_env"), "PZ_AGENT_TEAMON_API_KEY")
    && rules.admits(Dotted("voice", "api_key_env"), "PZ_AGENT_TEAMON_API_KEY")
    && (forall text :: rules.admits(Dotted("game", "channel"), text))
    && (forall text :: rules.admits(Dotted("session", "default_mode"), text))
    && (forall text :: rules.admits(Dotted("planner", "provider"), text))
    && (forall text :: rules.admits(Dotted("voice", "adapter"), text))
  }

  // ---- the tables are fit to print ----

  predicate KeysBare(keys: seq<Key>) { forall j :: 0 <= j < |keys| ==> BareKey(keys[j].name) }

  predicate KeysApart(keys: seq<Key>) { forall j, k :: 0 <= j < k < |keys| ==> keys[j].name != keys[k].name }

  predicate AllBare(s: string) { forall i :: 0 <= i < |s| ==> Bare(s[i]) }

  lemma BareIs(s: string)
    requires s != "" && AllBare(s)
    ensures BareKey(s)
  {
  }

  lemma SmallTablesBare()
    ensures KeysBare(GameKeys()) && KeysBare(SessionKeys())
  {
    hide BareKey;
    BareIs("channel"); BareIs("expected_build"); BareIs("install_dir"); BareIs("user_dir");
    BareIs("default_mode"); BareIs("require_backup");
  }

  lemma SafetyBare()
    ensures KeysBare(SafetyKeys())
  {
    hide BareKey;
    BareIs("panic_hotkey"); BareIs("manual_takeover"); BareIs("max_autonomous_radius");
    BareIs("allow_multiplayer"); BareIs("disabled_capabilities");
  }

  lemma PlannerBare()
    ensures KeysBare(PlannerKeys()) && KeysBare(VoiceKeys())
  {
    hide BareKey;
    BareIs("provider"); BareIs("max_steps"); BareIs("adapter"); BareIs("enabled"); BareIs("api_key_env");
  }

  lemma TransportBare()
    ensures KeysBare(TransportKeys())
  {
    hide BareKey;
    BareIs("connect_timeout_ms"); BareIs("read_timeout_ms"); BareIs("max_response_bytes"); BareIs("max_attempts");
  }

  lemma ProvidersBare()
    ensures KeysBare(OpenAiKeys()) && KeysBare(TeamOnKeys())
  {
    hide BareKey;
    TransportBare();
    BareIs("base_url"); BareIs("model"); BareIs("api_key_env"); BareIs("max_output_tokens"); BareIs("knowledge_root");
    BareIs("assistant");
  }

  lemma TablesApart()
    ensures KeysApart(GameKeys()) && KeysApart(SessionKeys()) && KeysApart(PlannerKeys()) && KeysApart(VoiceKeys())
  {
  }

  lemma SafetyApart()
    ensures KeysApart(SafetyKeys())
  {
  }

  lemma ProvidersApart()
    ensures KeysApart(OpenAiKeys()) && KeysApart(TeamOnKeys())
  {
  }

  /** The words of each table's name. */
  function Words(i: nat): seq<string>
    requires i < 7
  {
    [["game"], ["session"], ["safety"], ["planner"], ["planner", "openai_compatible"], ["planner", "teamon"], ["voice"]][i]
  }

  lemma BareUncut(s: string)
    requires AllBare(s)
    ensures Cut(s, '.') == [s]
  {
  }

  lemma OuterNamesCut()
    ensures Cut("game", '.') == ["game"] && Cut("session", '.') == ["session"] && Cut("safety", '.') == ["safety"]
    ensures Cut("planner", '.') == ["planner"] && Cut("voice", '.') == ["voice"]
    ensures BareKey("game") && BareKey("session") && BareKey("safety") && BareKey("planner") && BareKey("voice")
  {
    hide BareKey, Cut;
    BareIs("game"); BareIs("session"); BareIs("safety"); BareIs("planner"); BareIs("voice");
    BareUncut("game"); BareUncut("session"); BareUncut("safety"); BareUncut("planner"); BareUncut("voice");
  }

  lemma NamesCut(i: nat)
    requires i < 7
    ensures Cut(Tables()[i].name, '.') == Words(i)
    ensures forall part :: part in Words(i) ==> BareKey(part)
  {
    hide BareKey, Cut;
    OuterNamesCut();
    InnerNamesCut();
  }

  lemma InnerNamesCut()
    ensures Cut("planner.openai_compatible", '.') == ["planner", "openai_compatible"]
    ensures Cut("planner.teamon", '.') == ["planner", "teamon"]
    ensures BareKey("openai_compatible") && BareKey("teamon")
  {
    hide BareKey, Cut;
    BareIs("openai_compatible");
    BareIs("teamon");
    assert "planner.openai_compatible" == Dotted("planner", "openai_compatible");
    assert "planner.teamon" == Dotted("planner", "teamon");
    BarePairCut("planner", "openai_compatible");
    BarePairCut("planner", "teamon");
  }

  lemma BarePairCut(table: string, key: string)
    requires AllBare(table) && AllBare(key)
    ensures Cut(Dotted(table, key), '.') == [table, key]
  {
    hide Cut;
    BareUncut(table);
    BareUncut(key);
    assert Dotted(table, key) == table + ['.'] + key;
    CutAppend(table, '.', key);
  }

  lemma NamesApart()
    ensures forall i, j :: 0 <= i < j < 7 ==> Tables()[i].name != Tables()[j].name
  {
  }

  lemma Placed(i: nat)
    requires i < 7
    ensures PlacedOk(Tables(), i)
  {
    hide Cut, BareKey;
    NamesCut(i);
    if i == 4 || i == 5 {
      NamesCut(3);
      NamesCut(4);
      assert Holder(Tables(), i, 3);
    }
  }

  lemma WordsDiffer(i: nat, q: nat, key: string)
    requires i < 7 && q < 7 && (i == 3 ==> key != "openai_compatible" && key != "teamon")
    ensures Words(q) != Words(i) + [key]
  {
    if |Words(q)| == |Words(i)| + 1 {
      assert Words(q)[0] == "planner" && Words(q)[1] in ["openai_compatible", "teamon"];
      assert i == 3 || Words(i)[0] != "planner";
      assert (Words(i) + [key])[0] == Words(i)[0] && (Words(i) + [key])[1] == key;
    }
  }

  /** No key's dotted name is a table's. */
  lemma KeyIsNoTable(i: nat, key: string)
    requires i < 7 && BareKey(key) && (i == 3 ==> key != "openai_compatible" && key != "teamon")
    ensures TableAt(Tables(), Dotted(Tables()[i].name, key)).None?
  {
    hide Cut;
    var name := Tables()[i].name;
    assert Dotted(name, key) == name + ['.'] + key;
    CutAppend(name, '.', key);
    BareUncut(key);
    NamesCut(i);
    forall q | 0 <= q < 7
      ensures Tables()[q].name != Dotted(name, key)
    {
      NamesCut(q);
      WordsDiffer(i, q, key);
    }
  }

  // ---- each key is fit ----

  /** A key whose checks leave its default alone. */
  ghost predicate KeyOk(i: nat, key: Key, rules: Rules)
    requires i < 7
  {
    && Choosy(Dotted(Tables()[i].name, key.name), key.spec, rules)
    && Fixed(Dotted(Tables()[i].name, key.name), key.spec, key.spec.default, rules)
  }

  lemma PlainKeysOk(i: nat, key: Key, rules: Rules)
    requires i < 7
    requires (key.spec.kind.TextKind? && key.spec.default.None? && key.spec.choices == []) || key.spec.kind.FlagKind?
             || key.spec.kind.NumberKind? || key.spec.kind.NamesKind?
    requires key.spec.kind.FlagKind? ==> key.spec.default.Some? && key.spec.default.value.Bool?
    requires key.spec.kind.NumberKind? ==>
      && key.spec.default.Some? && key.spec.default.value.Int? && key.spec.minimum == Some(1)
      && key.spec.maximum.Some? && 1 <= key.spec.default.value.value <= key.spec.maximum.value
    requires key.spec.kind.NamesKind? ==> key.spec.default == Some(Array([]))
    ensures KeyOk(i, key, rules)
  {
  }

  lemma TextKeyOk(i: nat, key: Key, text: string, rules: Rules)
    requires i < 7 && key.spec.kind.TextKind? && key.spec.default == Some(Str(text))
    requires key.spec.choices == [] ==> rules.admits(Dotted(Tables()[i].name, key.name), text)
    requires key.spec.choices != [] ==>
      && text in key.spec.choices && (forall c :: c in key.spec.choices ==> rules.lower(c) == c)
      && forall raw :: rules.admits(Dotted(Tables()[i].name, key.name), raw)
    ensures KeyOk(i, key, rules)
  {
  }

  predicate KeysNoTables(i: nat, keys: seq<Key>)
    requires i < 7
  {
    forall j :: 0 <= j < |keys| ==> TableAt(Tables(), Dotted(Tables()[i].name, keys[j].name)).None?
  }

  lemma NoTables(i: nat, keys: seq<Key>)
    requires i < 7 && KeysBare(keys)
    requires i == 3 ==> forall j :: 0 <= j < |keys| ==> keys[j].name != "openai_compatible" && keys[j].name != "teamon"
    ensures KeysNoTables(i, keys)
  {
    hide BareKey, TableAt;
    forall j | 0 <= j < |keys|
      ensures TableAt(Tables(), Dotted(Tables()[i].name, keys[j].name)).None?
    {
      KeyIsNoTable(i, keys[j].name);
    }
  }

  lemma GameOk(rules: Rules)
    requires Ordinary(rules)
    ensures forall j :: 0 <= j < |GameKeys()| ==> KeyOk(0, GameKeys()[j], rules)
  {
    hide KeyOk, Dotted;
    TextKeyOk(0, GameKeys()[0], "stable", rules);
    TextKeyOk(0, GameKeys()[1], "42.20", rules);
    PlainKeysOk(0, GameKeys()[2], rules);
    PlainKeysOk(0, GameKeys()[3], rules);
  }

  lemma SessionOk(rules: Rules)
    requires Ordinary(rules)
    ensures forall j :: 0 <= j < |SessionKeys()| ==> KeyOk(1, SessionKeys()[j], rules)
  {
    hide KeyOk, Dotted;
    TextKeyOk(1, SessionKeys()[0], "observe", rules);
    PlainKeysOk(1, SessionKeys()[1], rules);
  }

  lemma SafetyOk(rules: Rules)
    requires Ordinary(rules)
    ensures forall j :: 0 <= j < |SafetyKeys()| ==> KeyOk(2, SafetyKeys()[j], rules)
  {
    hide KeyOk, Dotted;
    TextKeyOk(2, SafetyKeys()[0], "F12", rules);
    forall j | 1 <= j < 5
      ensures KeyOk(2, SafetyKeys()[j], rules)
    {
      PlainKeysOk(2, SafetyKeys()[j], rules);
    }
  }

  lemma PlannerOk(rules: Rules)
    requires Ordinary(rules)
    ensures forall j :: 0 <= j < |PlannerKeys()| ==> KeyOk(3, PlannerKeys()[j], rules)
  {
    hide KeyOk, Dotted;
    TextKeyOk(3, PlannerKeys()[0], "none", rules);
    PlainKeysOk(3, PlannerKeys()[1], rules);
  }

  lemma OpenAiOk(rules: Rules)
    requires Ordinary(rules)
    ensures forall j :: 0 <= j < |OpenAiKeys()| ==> KeyOk(4, OpenAiKeys()[j], rules)
  {
    hide KeyOk, Dotted;
    TextKeyOk(4, OpenAiKeys()[2], "PZ_AGENT_OPENAI_API_KEY", rules);
    forall j | 0 <= j < 9 && j != 2
      ensures KeyOk(4, OpenAiKeys()[j], rules)
    {
      PlainKeysOk(4, OpenAiKeys()[j], rules);
    }
  }

  lemma TeamOnOk(rules: Rules)
    requires Ordinary(rules)
    ensures forall j :: 0 <= j < |TeamOnKeys()| ==> KeyOk(5, TeamOnKeys()[j], rules)
  {
    hide KeyOk, Dotted;
    TextKeyOk(5, TeamOnKeys()[2], "PZ_AGENT_TEAMON_API_KEY", rules);
    forall j | 0 <= j < 8 && j != 2
      ensures KeyOk(5, TeamOnKeys()[j], rules)
    {
      PlainKeysOk(5, TeamOnKeys()[j], rules);
    }
  }

  lemma VoiceOk(rules: Rules)
    requires Ordinary(rules)
    ensures forall j :: 0 <= j < |VoiceKeys()| ==> KeyOk(6, VoiceKeys()[j], rules)
  {
    hide KeyOk, Dotted;
    TextKeyOk(6, VoiceKeys()[0], "teamon", rules);
    PlainKeysOk(6, VoiceKeys()[1], rules);
    TextKeyOk(6, VoiceKeys()[2], "PZ_AGENT_TEAMON_API_KEY", rules);
  }

  lemma TableFits(i: nat, rules: Rules)
    requires i < 7 && KeysBare(Tables()[i].keys) && KeysApart(Tables()[i].keys) && KeysNoTables(i, Tables()[i].keys)
    requires forall j :: 0 <= j < |Tables()[i].keys| ==> KeyOk(i, Tables()[i].keys[j], rules)
    ensures TableOk(Tables(), i, rules)
  {
    hide BareKey, Fixed, Choosy, TableAt, GameKeys, SessionKeys, SafetyKeys, PlannerKeys, OpenAiKeys, TeamOnKeys, VoiceKeys;
  }

  lemma EveryTableFits(i: nat, rules: Rules)
    requires i < 7 && Ordinary(rules)
    ensures TableOk(Tables(), i, rules)
  {
    hide KeysBare, KeysApart, KeyOk, TableOk, Ordinary, KeysNoTables, TransportKeys;
    SmallTablesBare();
    SafetyBare();
    PlannerBare();
    ProvidersBare();
    TablesApart();
    SafetyApart();
    ProvidersApart();
    NoTables(i, Tables()[i].keys);
    GameOk(rules);
    SessionOk(rules);
    SafetyOk(rules);
    PlannerOk(rules);
    OpenAiOk(rules);
    TeamOnOk(rules);
    VoiceOk(rules);
    TableFits(i, rules);
  }

  lemma TablesFit(rules: Rules)
    requires Ordinary(rules)
    ensures SchemaOk(Tables(), rules)
  {
    hide TableOk, PlacedOk, Ordinary;
    forall i | 0 <= i < 7
      ensures TableOk(Tables(), i, rules) && PlacedOk(Tables(), i)
    {
      EveryTableFits(i, rules);
      Placed(i);
    }
    NamesApart();
  }

  /** The documented tables are fit to print, so with them every validated
      configuration prints to TOML that reads back as itself. */
  lemma DocumentedConfigurationLoads(rules: Rules, document: seq<(string, Toml)>)
    requires Ordinary(rules) && Validate(Tables(), rules, document).Ok?
    ensures var c := Validate(Tables(), rules, document).value;
            && Shaped(Tables(), c) && ReadDocument(ToToml(Tables(), c)).Some?
            && Validate(Tables(), rules, ReadDocument(ToToml(Tables(), c)).value) == Ok(c)
  {
    hide Ordinary, SchemaOk, Validate, ReadDocument, ToToml, Tables;
    TablesFit(rules);
    PrintedConfigurationLoads(Tables(), rules, document);
  }

  lemma NotFree(table: string, key: string, suffix: string)
    requires 1 <= |key| && 1 <= |suffix| && key[|key| - 1] != suffix[|suffix| - 1]
    ensures !Ending(Dotted(table, key), suffix)
  {
    var dotted := Dotted(table, key);
    assert dotted[|dotted| - 1] == key[|key| - 1];
    if |dotted| >= |suffix| { assert dotted[|dotted| - |suffix|..][|suffix| - 1] == dotted[|dotted| - 1]; }
  }

  lemma NotBaseUrl(table: string, key: string)
    requires 2 <= |key| && key[|key| - 2] != 'r'
    ensures !Ending(Dotted(table, key), ".base_url")
  {
    var dotted, suffix := Dotted(table, key), ".base_url";
    assert dotted[|dotted| - 2] == key[|key| - 2];
    if |dotted| >= |suffix| { assert dotted[|dotted| - |suffix|..][|suffix| - 2] == dotted[|dotted| - 2]; }
  }

  lemma NotHotkey(table: string, key: string)
    requires 1 <= |key| && key[|key| - 1] != 'y'
    ensures Dotted(table, key) != Dotted("safety", "panic_hotkey")
  {
    var dotted := Dotted(table, key);
    assert dotted[|dotted| - 1] == key[|key| - 1];
    assert Dotted("safety", "panic_hotkey")[18] == 'y' && |Dotted("safety", "panic_hotkey")| == 19;
  }

  /** A key whose texts answer to no rule of their own. */
  lemma AnyText(table: string, key: string, o: Outside)
    requires 2 <= |key| && key[|key| - 2] != 'r' && key[|key| - 1] != 'v' && key[|key| - 1] != 'y'
    ensures forall text :: Admitted(Dotted(table, key), text, o)
  {
    hide Ending, Dotted;
    NotBaseUrl(table, key);
    NotFree(table, key, ".api_key_env");
    NotHotkey(table, key);
  }

  /** The name of a variable answers only to the check of such names. */
  lemma KeyText(table: string, text: string, o: Outside)
    requires o.envName(text)
    ensures Admitted(Dotted(table, "api_key_env"), text, o)
  {
    hide Ending, Dotted;
    NotBaseUrl(table, "api_key_env");
    NotHotkey(table, "api_key_env");
  }

  /** With the defaults this build documents, its own rules are ordinary. */
  lemma OwnRulesOrdinary(o: Outside)
    requires o.Sane()
    ensures Ordinary(OwnRules(o))
  {
    hide Ending, Dotted, Admitted;
    AnyText("game", "channel", o);
    AnyText("session", "default_mode", o);
    AnyText("planner", "provider", o);
    AnyText("voice", "adapter", o);
    AnyText("game", "expected_build", o);
    KeyText("planner.openai_compatible", "PZ_AGENT_OPENAI_API_KEY", o);
    KeyText("planner.teamon", "PZ_AGENT_TEAMON_API_KEY", o);
    KeyText("voice", "PZ_AGENT_TEAMON_API_KEY", o);
    HotkeyText(o);
  }

  lemma HotkeyText(o: Outside)
    requires o.Sane()
    ensures Admitted(Dotted("safety", "panic_hotkey"), PANIC_HOTKEY, o)
  {
    hide Ending, Dotted;
    NotBaseUrl("safety", "panic_hotkey");
    NotFree("safety", "panic_hotkey", ".api_key_env");
  }
}
