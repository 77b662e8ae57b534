/** What a document says, setting by setting, and what of it is kept. */
module ConfigMeaning {
  import opened Wrappers
  import opened TomlText
  import opened ConfigSchema
  import opened ConfigRoundTrip
  import opened ConfigTables

  // ---- one value ----

  /** A name a list of names may hold. */
  predicate GoodName(item: Toml, spec: Spec) {
    item.Str? && item.text != "" && (spec.choices != [] ==> item.text in spec.choices)
  }

  /** The code a name that is not good is reported under. */
  function BadCode(item: Toml): Code { if item.Str? && item.text != "" then NotAllowed else TypeMismatch }

  /** What is wrong with a raw value, and the code it is reported under. */
  ghost predicate Faulty(dotted: string, raw: Toml, spec: Spec, rules: Rules, code: Code) {
    match spec.kind
    case FlagKind => !raw.Bool? && code == TypeMismatch
    case NumberKind =>
      if !raw.Int? then code == TypeMismatch
      else
        && code == OutOfRange
        && ((spec.minimum.Some? && raw.value < spec.minimum.value) || (spec.maximum.Some? && raw.value > spec.maximum.value))
    case TextKind =>
      if !raw.Str? then code == TypeMismatch
      else code == NotAllowed && ((spec.choices != [] && rules.lower(raw.text) !in spec.choices) || !rules.admits(dotted, raw.text))
    case NamesKind =>
      if !raw.Array? then code == TypeMismatch
      else if |raw.items| > 64 then code == OutOfRange
      else
        exists i :: 0 <= i < |raw.items| && FirstBad(raw.items, spec, i) && code == BadCode(raw.items[i])
  }

  ghost predicate FirstBad(items: seq<Toml>, spec: Spec, i: nat)
    requires i < |items|
  {
    !GoodName(items[i], spec) && forall k :: 0 <= k < i ==> GoodName(items[k], spec)
  }

  /** The first occurrences of a list's items, in their order. */
  ghost predicate FirstsOf(items: seq<Toml>, kept: seq<Toml>) {
    && (forall x :: x in kept <==> x in items)
    && (forall a, b :: 0 <= a < b < |kept| ==> kept[a] != kept[b])
    && forall a, b :: 0 <= a < b < |kept| ==> Before(items, kept[a], kept[b])
  }

  /** One item occurs before another does. */
  ghost predicate Before(items: seq<Toml>, x: Toml, y: Toml) {
    exists i :: 0 <= i < |items| && items[i] == x && forall k :: 0 <= k <= i ==> items[k] != y
  }

  lemma BeforeLonger(items: seq<Toml>, last: Toml, x: Toml, y: Toml)
    ensures Before(items, x, y) ==> Before(items + [last], x, y)
    ensures x in items && y !in items ==> Before(items + [last], x, y)
  {
    var longer := items + [last];
    if x in items && y !in items {
      var i :| 0 <= i < |items| && items[i] == x;
      assert forall k :: 0 <= k <= i ==> items[k] in items;
      assert Before(items, x, y);
    }
    if Before(items, x, y) {
      var i :| 0 <= i < |items| && items[i] == x && forall k :: 0 <= k <= i ==> items[k] != y;
      assert longer[i] == x && forall k :: 0 <= k <= i ==> longer[k] == items[k];
    }
  }

  /** What is kept of a raw value that has no fault. */
  ghost predicate Means(raw: Toml, kept: Toml, spec: Spec, rules: Rules) {
    match spec.kind
    case FlagKind => kept == raw
    case NumberKind => kept == raw
    case TextKind => raw.Str? && kept == Str(if spec.choices == [] then raw.text else rules.lower(raw.text))
    case NamesKind => raw.Array? && kept.Array? && FirstsOf(raw.items, kept.items)
  }

  /** What a kept value is: of its key's kind, within its bounds, one of its choices, and
      past its rule where it has one of its own. */
  ghost predicate Fit(dotted: string, kept: Toml, spec: Spec, rules: Rules) {
    match spec.kind
    case FlagKind => kept.Bool?
    case NumberKind =>
      && kept.Int? && (spec.minimum.Some? ==> spec.minimum.value <= kept.value)
      && (spec.maximum.Some? ==> kept.value <= spec.maximum.value)
    case TextKind => kept.Str? && if spec.choices == [] then rules.admits(dotted, kept.text) else kept.text in spec.choices
    case NamesKind =>
      && kept.Array? && |kept.items| <= 64 && (forall x :: x in kept.items ==> GoodName(x, spec))
      && forall a, b :: 0 <= a < b < |kept.items| ==> kept.items[a] != kept.items[b]
  }

  lemma {:induction false} CleanedSays(items: seq<Toml>, spec: Spec)
    ensures var r := Cleaned(items, spec.choices);
            && (r.Ok? <==> forall x :: x in items ==> GoodName(x, spec))
            && (r.Ok? ==> FirstsOf(items, r.value) && |r.value| <= |items|)
            && (r.Err? ==> exists i :: 0 <= i < |items| && FirstBad(items, spec, i) && r.error == BadCode(items[i]))
  {
    if items != [] {
      var earlier, last := items[..|items| - 1], items[|items| - 1];
      CleanedSays(earlier, spec);
      assert items == earlier + [last];
      var r := Cleaned(earlier, spec.choices);
      if r.Err? {
        var i :| 0 <= i < |earlier| && FirstBad(earlier, spec, i) && r.error == BadCode(earlier[i]);
        assert items[i] == earlier[i] && FirstBad(items, spec, i);
      } else if !GoodName(last, spec) {
        assert forall k :: 0 <= k < |earlier| ==> items[k] in earlier;
        assert FirstBad(items, spec, |items| - 1);
      } else if last in r.value {
        FirstsRepeat(earlier, r.value, last);
      } else {
        FirstsGrow(earlier, r.value, last);
      }
    }
  }

  lemma FirstsRepeat(items: seq<Toml>, kept: seq<Toml>, last: Toml)
    requires FirstsOf(items, kept) && last in kept
    ensures FirstsOf(items + [last], kept)
  {
    forall a, b | 0 <= a < b < |kept|
      ensures Before(items + [last], kept[a], kept[b])
    {
      BeforeLonger(items, last, kept[a], kept[b]);
    }
  }

  lemma FirstsGrow(items: seq<Toml>, kept: seq<Toml>, last: Toml)
    requires FirstsOf(items, kept) && last !in kept
    ensures FirstsOf(items + [last], kept + [last])
  {
    hide Before;
    var longer, more := items + [last], kept + [last];
    assert forall x :: x in more <==> x in kept || x == last;
    forall a, b | 0 <= a < b < |more|
      ensures Before(longer, more[a], more[b])
    {
      assert kept[a] in items;
      BeforeLonger(items, last, kept[a], more[b]);
    }
  }

  lemma OneFirstBad(items: seq<Toml>, spec: Spec, i: nat, j: nat)
    requires i < |items| && j < |items| && FirstBad(items, spec, i) && FirstBad(items, spec, j)
    ensures i == j
  {
  }

  /** A raw value is kept, and as what, or refused, and why. */
  lemma ValueSays(dotted: string, raw: Toml, spec: Spec, rules: Rules)
    ensures var r := CheckValue(dotted, raw, spec, rules);
            && (r.Ok? ==> Means(raw, r.value, spec, rules) && Fit(dotted, r.value, spec, rules)
                          && forall code :: !Faulty(dotted, raw, spec, rules, code))
            && (r.Err? ==> forall code :: Faulty(dotted, raw, spec, rules, code) <==> code == r.error)
  {
    if spec.kind.NamesKind? && raw.Array? && |raw.items| <= 64 {
      hide FirstsOf;
      CleanedSays(raw.items, spec);
      ListSays(dotted, raw, spec, rules);
    }
  }

  lemma ListSays(dotted: string, raw: Toml, spec: Spec, rules: Rules)
    requires spec.kind.NamesKind? && raw.Array? && |raw.items| <= 64
    ensures var r := CheckValue(dotted, raw, spec, rules);
            && (r.Ok? ==> Means(raw, r.value, spec, rules) && Fit(dotted, r.value, spec, rules)
                          && forall code :: !Faulty(dotted, raw, spec, rules, code))
            && (r.Err? ==> forall code :: Faulty(dotted, raw, spec, rules, code) <==> code == r.error)
  {
    CleanedSays(raw.items, spec);
    forall i, j | 0 <= i < |raw.items| && 0 <= j < |raw.items| && FirstBad(raw.items, spec, i) && FirstBad(raw.items, spec, j)
      ensures i == j
    {
      OneFirstBad(raw.items, spec, i, j);
    }
    forall i | 0 <= i < |raw.items| && FirstBad(raw.items, spec, i)
      ensures Cleaned(raw.items, spec.choices).Err?
    {
      assert raw.items[i] in raw.items;
    }
  }

  // ---- a whole document ----

  /** One thing a document says: something with no place, or a raw value for a key. */
  datatype Found = Stray(problem: Problem) | Setting(table: nat, key: nat, raw: Toml)

  /** What a section says, in order; a key that names a table is a section of its own. */
  ghost function FoundIn(schema: Schema, at: nat, body: Toml): seq<Found>
    requires at < |schema|
    decreases body, if body.Table? then |body.entries| + 1 else 0
  {
    if !body.Table? then [Stray(Problem(schema[at].name, TypeMismatch))] else FoundAmong(schema, at, body, |body.entries|)
  }

  ghost function FoundAmong(schema: Schema, at: nat, body: Toml, n: nat): seq<Found>
    requires at < |schema| && body.Table? && n <= |body.entries|
    decreases body, n
  {
    if n == 0 then []
    else FoundAmong(schema, at, body, n - 1) + FoundAt(schema, at, body.entries[n - 1].0, body.entries[n - 1].1)
  }

  ghost function FoundAt(schema: Schema, at: nat, key: string, raw: Toml): seq<Found>
    requires at < |schema|
    decreases raw, if raw.Table? then |raw.entries| + 2 else 1
  {
    var (inner, k) := (TableAt(schema, Dotted(schema[at].name, key)), KeyAt(schema[at].keys, key));
    if inner.Some? then FoundIn(schema, inner.value, raw)
    else if k.Some? then [Setting(at, k.value, raw)]
    else [Stray(Problem(Dotted(schema[at].name, key), UnknownKey))]
  }

  ghost function FoundOver(schema: Schema, document: seq<(string, Toml)>): seq<Found> {
    if document == [] then []
    else
      var (name, body) := document[|document| - 1];
      FoundOver(schema, document[..|document| - 1])
      + if TableAt(schema, name).Some? then FoundIn(schema, TableAt(schema, name).value, body)
        else [Stray(Problem(name, UnknownTable))]
  }

  ghost predicate Placed(schema: Schema, found: seq<Found>) {
    forall f :: f in found && f.Setting? ==> f.table < |schema| && f.key < |schema[f.table].keys|
  }

  function NameOf(schema: Schema, f: Found): string
    requires f.Setting? && f.table < |schema| && f.key < |schema[f.table].keys|
  {
    Dotted(schema[f.table].name, schema[f.table].keys[f.key].name)
  }

  /** One finding is reported so, or is not reported. */
  ghost predicate Reported(schema: Schema, rules: Rules, f: Found, problem: Option<Problem>)
    requires f.Setting? ==> f.table < |schema| && f.key < |schema[f.table].keys|
  {
    match f
    case Stray(p) => problem == Some(p)
    case Setting(i, j, raw) =>
      var (name, spec) := (NameOf(schema, f), schema[i].keys[j].spec);
      match problem
      case Some(p) => p.path == name && Faulty(name, raw, spec, rules, p.code)
      case None => forall code :: !Faulty(name, raw, spec, rules, code)
  }

  /** The reports on a document's findings are its problems, in order. */
  ghost predicate Accounts(schema: Schema, rules: Rules, found: seq<Found>, problems: seq<Problem>)
    requires Placed(schema, found)
  {
    if found == [] then problems == []
    else
      var (last, earlier) := (found[|found| - 1], found[..|found| - 1]);
      || (Reported(schema, rules, last, None) && Accounts(schema, rules, earlier, problems))
      || (problems != [] && Reported(schema, rules, last, Some(problems[|problems| - 1]))
          && Accounts(schema, rules, earlier, problems[..|problems| - 1]))
  }

  /** A key holds its default, or what the last faultless value for it means. */
  ghost predicate Keeps(schema: Schema, rules: Rules, found: seq<Found>, i: nat, j: nat, cell: Option<Toml>)
    requires Placed(schema, found) && i < |schema| && j < |schema[i].keys|
  {
    if found == [] then cell == schema[i].keys[j].spec.default
    else
      var last := found[|found| - 1];
      if last.Setting? && last.table == i && last.key == j && Reported(schema, rules, last, None) then
        && cell.Some? && Means(last.raw, cell.value, schema[i].keys[j].spec, rules)
        && Fit(NameOf(schema, last), cell.value, schema[i].keys[j].spec, rules)
      else Keeps(schema, rules, found[..|found| - 1], i, j, cell)
  }

  ghost predicate KeepsAll(schema: Schema, rules: Rules, found: seq<Found>, values: Values) {
    && Placed(schema, found) && Shaped(schema, values)
    && forall i, j :: 0 <= i < |schema| && 0 <= j < |schema[i].keys| ==> Keeps(schema, rules, found, i, j, values[i][j])
  }

  /** What was found so far accounts for the problems and the values so far. */
  ghost predicate Tracks(schema: Schema, rules: Rules, found: seq<Found>, values: Values, problems: seq<Problem>) {
    KeepsAll(schema, rules, found, values) && Accounts(schema, rules, found, problems)
  }

  lemma NothingTracks(schema: Schema, rules: Rules)
    ensures Tracks(schema, rules, [], Defaults(schema), [])
  {
  }

  /** A thing with no place is reported and changes no value. */
  lemma StrayTracks(schema: Schema, rules: Rules, found: seq<Found>, values: Values, problems: seq<Problem>, p: Problem)
    requires Tracks(schema, rules, found, values, problems)
    ensures Tracks(schema, rules, found + [Stray(p)], values, problems + [p])
  {
    hide Faulty, Means, Fit;
    var longer := found + [Stray(p)];
    assert longer[..|longer| - 1] == found && (problems + [p])[..|problems|] == problems;
    assert Placed(schema, longer);
  }

  /** A value for a key is kept, or reported. */
  lemma SettingTracks(schema: Schema, rules: Rules, found: seq<Found>, values: Values, problems: seq<Problem>,
                      i: nat, j: nat, raw: Toml)
    requires Tracks(schema, rules, found, values, problems) && i < |schema| && j < |schema[i].keys|
    ensures var (f, r) := (Setting(i, j, raw), CheckValue(NameOf(schema, Setting(i, j, raw)), raw, schema[i].keys[j].spec, rules));
            Tracks(schema, rules, found + [f], if r.Ok? then values[i := values[i][j := Some(r.value)]] else values,
                   problems + if r.Ok? then [] else [Problem(NameOf(schema, f), r.error)])
  {
    hide Faulty, Means, Fit, CheckValue;
    var (f, spec) := (Setting(i, j, raw), schema[i].keys[j].spec);
    var r := CheckValue(NameOf(schema, f), raw, spec, rules);
    var longer := found + [f];
    ValueSays(NameOf(schema, f), raw, spec, rules);
    assert longer[..|longer| - 1] == found && longer[|longer| - 1] == f;
    assert Placed(schema, longer);
    if r.Ok? {
      assert Reported(schema, rules, f, None);
      assert problems + [] == problems;
    } else {
      var p := Problem(NameOf(schema, f), r.error);
      assert Reported(schema, rules, f, Some(p)) && !Reported(schema, rules, f, None);
      assert (problems + [p])[..|problems|] == problems;
    }
  }

  lemma {:induction false} TableTracks(schema: Schema, rules: Rules, found: seq<Found>, values: Values, problems: seq<Problem>,
                                       at: nat, body: Toml)
    requires Tracks(schema, rules, found, values, problems) && at < |schema|
    ensures var (v, more) := CheckTable(schema, rules, at, body, values);
            Tracks(schema, rules, found + FoundIn(schema, at, body), v, problems + more)
    decreases body, if body.Table? then |body.entries| + 1 else 0
  {
    hide Tracks;
    if body.Table? {
      EntriesTrack(schema, rules, found, values, problems, at, body, |body.entries|);
    } else {
      StrayTracks(schema, rules, found, values, problems, Problem(schema[at].name, TypeMismatch));
    }
  }

  lemma {:induction false} EntriesTrack(schema: Schema, rules: Rules, found: seq<Found>, values: Values, problems: seq<Problem>,
                                        at: nat, body: Toml, n: nat)
    requires Tracks(schema, rules, found, values, problems) && at < |schema| && body.Table? && n <= |body.entries|
    ensures var (v, more) := CheckEntries(schema, rules, at, body, n, values);
            Tracks(schema, rules, found + FoundAmong(schema, at, body, n), v, problems + more)
    decreases body, n
  {
    hide Keeps, Accounts;
    if n == 0 {
      assert found + FoundAmong(schema, at, body, 0) == found;
      var none: seq<Problem> := [];
      assert problems + none == problems;
    } else {
      EntriesTrack(schema, rules, found, values, problems, at, body, n - 1);
      var (v, more) := CheckEntries(schema, rules, at, body, n - 1, values);
      var (key, raw) := body.entries[n - 1];
      EntryTracks(schema, rules, found + FoundAmong(schema, at, body, n - 1), v, problems + more, at, key, raw);
      var last := CheckEntry(schema, rules, at, key, raw, v).1;
      assert (problems + more) + last == problems + (more + last);
      assert (found + FoundAmong(schema, at, body, n - 1)) + FoundAt(schema, at, key, raw) == found + FoundAmong(schema, at, body, n);
    }
  }

  lemma {:induction false} EntryTracks(schema: Schema, rules: Rules, found: seq<Found>, values: Values, problems: seq<Problem>,
                                       at: nat, key: string, raw: Toml)
    requires Tracks(schema, rules, found, values, problems) && at < |schema|
    ensures var (v, more) := CheckEntry(schema, rules, at, key, raw, values);
            Tracks(schema, rules, found + FoundAt(schema, at, key, raw), v, problems + more)
    decreases raw, if raw.Table? then |raw.entries| + 2 else 1
  {
    hide Tracks, CheckValue, Dotted;
    var inner, k := TableAt(schema, Dotted(schema[at].name, key)), KeyAt(schema[at].keys, key);
    if inner.Some? {
      TableTracks(schema, rules, found, values, problems, inner.value, raw);
    } else if k.Some? {
      SettingTracks(schema, rules, found, values, problems, at, k.value, raw);
    } else {
      StrayTracks(schema, rules, found, values, problems, Problem(Dotted(schema[at].name, key), UnknownKey));
    }
  }

  lemma {:induction false} DocumentTracks(schema: Schema, rules: Rules, document: seq<(string, Toml)>)
    ensures var (values, problems) := CheckDocument(schema, rules, document);
            Tracks(schema, rules, FoundOver(schema, document), values, problems)
  {
    hide Tracks;
    if document == [] {
      NothingTracks(schema, rules);
    } else {
      var earlier := document[..|document| - 1];
      var (name, body) := document[|document| - 1];
      DocumentTracks(schema, rules, earlier);
      var (values, problems) := CheckDocument(schema, rules, earlier);
      if TableAt(schema, name).Some? {
        TableTracks(schema, rules, FoundOver(schema, earlier), values, problems, TableAt(schema, name).value, body);
      } else {
        StrayTracks(schema, rules, FoundOver(schema, earlier), values, problems, Problem(name, UnknownTable));
      }
    }
  }

  /** What validating a document answers, from what the document says: every finding
      without a place and every faulty value is reported, in order, and then what is
      wrong with the kept values together; and if nothing is, those values are the
      configuration. */
  lemma ValidatesAs(schema: Schema, rules: Rules, document: seq<(string, Toml)>)
    ensures exists values, problems :: Answers(schema, rules, document, values, problems)
  {
    hide Tracks;
    DocumentTracks(schema, rules, document);
    var (values, problems) := CheckDocument(schema, rules, document);
    TracksBoth(schema, rules, FoundOver(schema, document), values, problems);
    assert Answers(schema, rules, document, values, problems);
  }

  ghost predicate Answers(schema: Schema, rules: Rules, document: seq<(string, Toml)>, values: Values, problems: seq<Problem>) {
    && KeepsAll(schema, rules, FoundOver(schema, document), values)
    && Accounts(schema, rules, FoundOver(schema, document), problems)
    && Validate(schema, rules, document) ==
         if problems == [] && rules.joint(values) == [] then Ok(values) else Err(problems + rules.joint(values))
  }

  lemma TracksBoth(schema: Schema, rules: Rules, found: seq<Found>, values: Values, problems: seq<Problem>)
    requires Tracks(schema, rules, found, values, problems)
    ensures KeepsAll(schema, rules, found, values) && Accounts(schema, rules, found, problems)
  {
  }

  // ---- what a configuration is ----

  lemma {:induction false} KeptFits(schema: Schema, rules: Rules, found: seq<Found>, i: nat, j: nat, cell: Option<Toml>)
    requires Placed(schema, found) && i < |schema| && j < |schema[i].keys| && Keeps(schema, rules, found, i, j, cell)
    ensures cell == schema[i].keys[j].spec.default
            || (cell.Some? && Fit(Dotted(schema[i].name, schema[i].keys[j].name), cell.value, schema[i].keys[j].spec, rules))
  {
    hide Faulty, Means, Fit;
    if found != [] {
      var last := found[|found| - 1];
      if !(last.Setting? && last.table == i && last.key == j && Reported(schema, rules, last, None)) {
        KeptFits(schema, rules, found[..|found| - 1], i, j, cell);
      }
    }
  }

  /** Every value of a configuration is its key's default, or of its key's kind, within
      its bounds, among its choices and past its rule. */
  lemma ValidatedFits(schema: Schema, rules: Rules, document: seq<(string, Toml)>, i: nat, j: nat)
    requires Validate(schema, rules, document).Ok? && i < |schema| && j < |schema[i].keys|
    ensures Shaped(schema, Validate(schema, rules, document).value)
    ensures var (cell, spec) := (Validate(schema, rules, document).value[i][j], schema[i].keys[j].spec);
            cell == spec.default || (cell.Some? && Fit(Dotted(schema[i].name, schema[i].keys[j].name), cell.value, spec, rules))
  {
    hide Fit, Keeps, Accounts;
    ValidatesAs(schema, rules, document);
    var values, problems :| Answers(schema, rules, document, values, problems);
    KeptFits(schema, rules, FoundOver(schema, document), i, j, values[i][j]);
  }

  /** With a schema fit to print, the defaults are no exception. */
  lemma ConfigurationFits(schema: Schema, rules: Rules, document: seq<(string, Toml)>, i: nat, j: nat)
    requires SchemaOk(schema, rules) && Validate(schema, rules, document).Ok? && i < |schema| && j < |schema[i].keys|
    ensures Shaped(schema, Validate(schema, rules, document).value)
    ensures var (cell, spec) := (Validate(schema, rules, document).value[i][j], schema[i].keys[j].spec);
            if cell.None? then spec.default.None?
            else Fit(Dotted(schema[i].name, schema[i].keys[j].name), cell.value, spec, rules)
  {
    hide Fit, SchemaOk, CheckValue, CheckDocument;
    DocumentFixed(schema, rules, document);
    var (cell, spec) := (Validate(schema, rules, document).value[i][j], schema[i].keys[j].spec);
    if cell.Some? { ValueSays(Dotted(schema[i].name, schema[i].keys[j].name), cell.value, spec, rules); }
  }

  /** Every configuration of this build keeps the product's own limits: the radius, the
      plan's length, no multiplayer, and the panic key the mod binds. */
  lemma ConfigurationIsSafe(document: seq<(string, Toml)>, o: Outside)
    requires o.Sane() && Validate(Tables(), OwnRules(o), document).Ok?
    ensures var c := Validate(Tables(), OwnRules(o), document).value;
            && Shaped(Tables(), c)
            && (exists radius :: 1 <= radius <= 100 && c[2][2] == Some(Int(radius)))
            && (exists steps :: 1 <= steps <= 32 && c[3][1] == Some(Int(steps)))
            && c[2][3] == Some(Bool(false))
            && (exists key :: c[2][0] == Some(Str(key)) && o.upper(key) == "F12")
            && (exists mode :: mode in ["observe", "assisted", "autonomous"] && c[1][0] == Some(Str(mode)))
  {
    hide SchemaOk, Validate, Admitted, Dotted, CheckDocument;
    OwnRulesOrdinary(o);
    TablesFit(OwnRules(o));
    var c := Validate(Tables(), OwnRules(o), document).value;
    assert Tables()[2].keys == SafetyKeys() && Tables()[3].keys == PlannerKeys() && Tables()[1].keys == SessionKeys();
    ConfigurationFits(Tables(), OwnRules(o), document, 2, 2);
    ConfigurationFits(Tables(), OwnRules(o), document, 3, 1);
    ConfigurationFits(Tables(), OwnRules(o), document, 2, 3);
    ConfigurationFits(Tables(), OwnRules(o), document, 2, 0);
    ConfigurationFits(Tables(), OwnRules(o), document, 1, 0);
    ValidatedTogether(document, o);
  }

  lemma ValidatedTogether(document: seq<(string, Toml)>, o: Outside)
    requires Validate(Tables(), OwnRules(o), document).Ok?
    ensures Together(Validate(Tables(), OwnRules(o), document).value, o)
  {
    hide CheckDocument, Tables;
    ValidatesIff(document, o);
  }
}
