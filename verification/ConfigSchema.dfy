/** The configuration's schema, and the validation of a parsed document against it:
    every setting is checked, cleaned or left at its default, and what does not
    fit is reported by name.  Rendering goes the other way. */
module ConfigSchema {
  import opened Text
  import opened Wrappers
  import opened TomlText
  import opened TomlDocument

  const MAX_LIST_ITEMS := 64

  datatype Kind = TextKind | FlagKind | NumberKind | NamesKind

  /** One key: its type, its default, and what it will accept. */
  datatype Spec = Spec(kind: Kind, default: Option<Toml>, choices: seq<string>, minimum: Option<int>, maximum: Option<int>)

  datatype Key = Key(name: string, spec: Spec)

  datatype TableSpec = TableSpec(name: string, keys: seq<Key>)

  type Schema = seq<TableSpec>

  /** A value for each key of each table, in the schema's order; absent is unset. */
  type Values = seq<seq<Option<Toml>>>

  /** What validation asks of code elsewhere: lower-casing, the rules single texts
      answer to by dotted name, and what is wrong with values taken together. */
  datatype Rules = Rules(lower: string -> string, admits: (string, string) -> bool, joint: Values -> seq<Problem>)

  datatype Code = UnknownTable | UnknownKey | TypeMismatch | OutOfRange | NotAllowed | MissingValue | NotFound

  datatype Problem = Problem(path: string, code: Code)

  function TableAt(schema: Schema, name: string): (i: Option<nat>)
    ensures i.Some? ==> i.value < |schema| && schema[i.value].name == name
    ensures i.None? ==> forall k :: 0 <= k < |schema| ==> schema[k].name != name
  {
    if schema == [] then None
    else if schema[|schema| - 1].name == name then Some(|schema| - 1)
    else TableAt(schema[..|schema| - 1], name)
  }

  function KeyAt(keys: seq<Key>, name: string): (i: Option<nat>)
    ensures i.Some? ==> i.value < |keys| && keys[i.value].name == name
    ensures i.None? ==> forall k :: 0 <= k < |keys| ==> keys[k].name != name
  {
    if keys == [] then None
    else if keys[|keys| - 1].name == name then Some(|keys| - 1)
    else KeyAt(keys[..|keys| - 1], name)
  }

  // ---- one value ----

  /** The names of an array, each once, or the first entry's fault. */
  function Cleaned(items: seq<Toml>, choices: seq<string>): Result<seq<Toml>, Code> {
    if items == [] then Ok([])
    else
      var earlier := Cleaned(items[..|items| - 1], choices);
      var item := items[|items| - 1];
      if earlier.Err? then earlier
      else if !item.Str? || item.text == "" then Err(TypeMismatch)
      else if choices != [] && item.text !in choices then Err(NotAllowed)
      else if item in earlier.value then earlier
      else Ok(earlier.value + [item])
  }

  function CheckList(raw: Toml, spec: Spec): Result<Toml, Code> {
    if !raw.Array? then Err(TypeMismatch)
    else if |raw.items| > MAX_LIST_ITEMS then Err(OutOfRange)
    else
      var names := Cleaned(raw.items, spec.choices);
      if names.Err? then Err(names.error) else Ok(Array(names.value))
  }

  function CheckValue(dotted: string, raw: Toml, spec: Spec, rules: Rules): Result<Toml, Code> {
    match spec.kind
    case NamesKind => CheckList(raw, spec)
    case FlagKind => if raw.Bool? then Ok(raw) else Err(TypeMismatch)
    case NumberKind =>
      if !raw.Int? then Err(TypeMismatch)
      else if spec.minimum.Some? && raw.value < spec.minimum.value then Err(OutOfRange)
      else if spec.maximum.Some? && raw.value > spec.maximum.value then Err(OutOfRange)
      else Ok(raw)
    case TextKind =>
      if !raw.Str? then Err(TypeMismatch)
      else if spec.choices != [] && rules.lower(raw.text) !in spec.choices then Err(NotAllowed)
      else if !rules.admits(dotted, raw.text) then Err(NotAllowed)
      else Ok(Str(if spec.choices != [] then rules.lower(raw.text) else raw.text))
  }

  // ---- tables ----

  function Dotted(table: string, key: string): string { table + "." + key }

  ghost predicate Shaped(schema: Schema, values: Values) {
    |values| == |schema| && forall i :: 0 <= i < |schema| ==> |values[i]| == |schema[i].keys|
  }

  function Defaults(schema: Schema): (values: Values)
    ensures Shaped(schema, values)
    ensures forall i, j :: 0 <= i < |schema| && 0 <= j < |schema[i].keys| ==> values[i][j] == schema[i].keys[j].spec.default
  {
    seq(|schema|, i requires 0 <= i < |schema| =>
      seq(|schema[i].keys|, j requires 0 <= j < |schema[i].keys| => schema[i].keys[j].spec.default))
  }

  /** Check a section into the values, sub-tables before keys. */
  function CheckTable(schema: Schema, rules: Rules, at: nat, body: Toml, values: Values): (r: (Values, seq<Problem>))
    requires at < |schema| && Shaped(schema, values)
    ensures Shaped(schema, r.0)
    decreases body, if body.Table? then |body.entries| + 1 else 0
  {
    if !body.Table? then (values, [Problem(schema[at].name, TypeMismatch)])
    else CheckEntries(schema, rules, at, body, |body.entries|, values)
  }

  /** The first `n` entries of a section. */
  function CheckEntries(schema: Schema, rules: Rules, at: nat, body: Toml, n: nat, values: Values): (r: (Values, seq<Problem>))
    requires at < |schema| && Shaped(schema, values) && body.Table? && n <= |body.entries|
    ensures Shaped(schema, r.0)
    decreases body, n
  {
    if n == 0 then (values, [])
    else
      var (v, problems) := CheckEntries(schema, rules, at, body, n - 1, values);
      var (key, raw) := body.entries[n - 1];
      var (v', more) := CheckEntry(schema, rules, at, key, raw, v);
      (v', problems + more)
  }

  function CheckEntry(schema: Schema, rules: Rules, at: nat, key: string, raw: Toml, values: Values): (r: (Values, seq<Problem>))
    requires at < |schema| && Shaped(schema, values)
    ensures Shaped(schema, r.0)
    decreases raw, if raw.Table? then |raw.entries| + 2 else 1
  {
    var dotted := Dotted(schema[at].name, key);
    var inner := TableAt(schema, dotted);
    if inner.Some? then CheckTable(schema, rules, inner.value, raw, values)
    else
      var k := KeyAt(schema[at].keys, key);
      if k.None? then (values, [Problem(dotted, UnknownKey)])
      else
        var checked := CheckValue(dotted, raw, schema[at].keys[k.value].spec, rules);
        if checked.Err? then (values, [Problem(dotted, checked.error)])
        else (values[at := values[at][k.value := Some(checked.value)]], [])
  }

  /** Every section of a document, over the defaults. */
  function CheckDocument(schema: Schema, rules: Rules, document: seq<(string, Toml)>): (r: (Values, seq<Problem>))
    ensures Shaped(schema, r.0)
  {
    if document == [] then (Defaults(schema), [])
    else
      var (values, problems) := CheckDocument(schema, rules, document[..|document| - 1]);
      var (name, body) := document[|document| - 1];
      var at := TableAt(schema, name);
      if at.None? then (values, problems + [Problem(name, UnknownTable)])
      else
        var (v, more) := CheckTable(schema, rules, at.value, body, values);
        (v, problems + more)
  }

  /** A configuration, only when nothing at all is wrong. */
  function Validate(schema: Schema, rules: Rules, document: seq<(string, Toml)>): Result<Values, seq<Problem>> {
    var (values, problems) := CheckDocument(schema, rules, document);
    var all := problems + rules.joint(values);
    if all == [] then Ok(values) else Err(all)
  }

  // ---- the same, step by step ----

  /** Keep each entry of an array the first time it appears, or stop at a bad one. */
  method CleanList(items: seq<Toml>, choices: seq<string>) returns (r: Result<seq<Toml>, Code>)
    ensures r == Cleaned(items, choices)
  {
    var cleaned: seq<Toml> := [];
    var i := 0;
    while i < |items|
      invariant 0 <= i <= |items| && Cleaned(items[..i], choices) == Ok(cleaned)
    {
      var entry := items[i];
      assert items[..i + 1][..i] == items[..i];
      if !entry.Str? || entry.text == "" {
        StaysBad(items, choices, i + 1);
        return Err(TypeMismatch);
      }
      if choices != [] && entry.text !in choices {
        StaysBad(items, choices, i + 1);
        return Err(NotAllowed);
      }
      if entry !in cleaned {
        cleaned := cleaned + [entry];
      }
      i := i + 1;
    }
    assert items[..i] == items;
    return Ok(cleaned);
  }

  lemma {:induction false} StaysBad(items: seq<Toml>, choices: seq<string>, i: nat)
    requires i <= |items| && Cleaned(items[..i], choices).Err?
    ensures Cleaned(items, choices) == Cleaned(items[..i], choices)
    decreases |items| - i
  {
    if i < |items| {
      assert items[..i + 1][..i] == items[..i];
      StaysBad(items, choices, i + 1);
    } else {
      assert items[..i] == items;
    }
  }

  /** Validate one section into the values, recursing into its sub-tables. */
  method CheckSection(schema: Schema, rules: Rules, at: nat, body: Toml, values: Values)
    returns (checked: Values, problems: seq<Problem>)
    requires at < |schema| && Shaped(schema, values)
    ensures Shaped(schema, checked) && (checked, problems) == CheckTable(schema, rules, at, body, values)
    decreases body
  {
    if !body.Table? {
      return values, [Problem(schema[at].name, TypeMismatch)];
    }
    checked, problems := values, [];
    var n := 0;
    while n < |body.entries|
      invariant 0 <= n <= |body.entries| && Shaped(schema, checked)
      invariant (checked, problems) == CheckEntries(schema, rules, at, body, n, values)
    {
      var (key, raw) := body.entries[n];
      var dotted := Dotted(schema[at].name, key);
      var inner := TableAt(schema, dotted);
      if inner.Some? {
        var v, more := CheckSection(schema, rules, inner.value, raw, checked);
        checked, problems := v, problems + more;
      } else {
        var k := KeyAt(schema[at].keys, key);
        if k.None? {
          problems := problems + [Problem(dotted, UnknownKey)];
        } else {
          var value := CheckValue(dotted, raw, schema[at].keys[k.value].spec, rules);
          if value.Err? {
            problems := problems + [Problem(dotted, value.error)];
          } else {
            checked := checked[at := checked[at][k.value := Some(value.value)]];
            assert problems + [] == problems;
          }
        }
      }
      n := n + 1;
    }
  }

  /** Validate a parsed document: every table over the defaults, then the values whole. */
  method ValidateDocument(schema: Schema, rules: Rules, document: seq<(string, Toml)>) returns (r: Result<Values, seq<Problem>>)
    ensures r == Validate(schema, rules, document)
  {
    var values, problems := Defaults(schema), [];
    var i := 0;
    while i < |document|
      invariant 0 <= i <= |document| && Shaped(schema, values)
      invariant (values, problems) == CheckDocument(schema, rules, document[..i])
    {
      var (name, body) := document[i];
      assert document[..i + 1][..i] == document[..i];
      var at := TableAt(schema, name);
      if at.None? {
        problems := problems + [Problem(name, UnknownTable)];
      } else {
        var v, more := CheckSection(schema, rules, at.value, body, values);
        values, problems := v, problems + more;
      }
      i := i + 1;
    }
    assert document[..i] == document;
    problems := problems + rules.joint(values);
    return if problems == [] then Ok(values) else Err(problems);
  }

  // ---- rendering ----

  /** The set keys of a table, in order. */
  function SetPairs(keys: seq<Key>, row: seq<Option<Toml>>): seq<(string, Toml)>
    requires |row| == |keys|
  {
    if keys == [] then []
    else
      var earlier := SetPairs(keys[..|keys| - 1], row[..|row| - 1]);
      if row[|row| - 1].None? then earlier else earlier + [(keys[|keys| - 1].name, row[|row| - 1].value)]
  }

  function Rendered(schema: Schema, values: Values): (sections: seq<Section>)
    requires Shaped(schema, values)
    ensures |sections| == |schema|
    ensures forall i :: 0 <= i < |schema| ==>
              sections[i] == Section(Cut(schema[i].name, '.'), SetPairs(schema[i].keys, values[i]))
  {
    seq(|schema|, i requires 0 <= i < |schema| => Section(Cut(schema[i].name, '.'), SetPairs(schema[i].keys, values[i])))
  }

  function ToToml(schema: Schema, values: Values): string
    requires Shaped(schema, values) && schema != []
  {
    Glue(AllLines(Rendered(schema, values)), '\n')
  }

  method RenderPairs(keys: seq<Key>, row: seq<Option<Toml>>) returns (lines: seq<string>)
    requires |row| == |keys|
    ensures lines == PairLines(SetPairs(keys, row))
  {
    lines := [];
    var j := 0;
    while j < |keys|
      invariant 0 <= j <= |keys| && lines == PairLines(SetPairs(keys[..j], row[..j]))
    {
      assert keys[..j + 1][..j] == keys[..j] && row[..j + 1][..j] == row[..j];
      if row[j].Some? {
        lines := lines + [keys[j].name + " = " + Printed(row[j].value)];
      }
      j := j + 1;
    }
    assert keys[..j] == keys && row[..j] == row;
  }

  /** The lines of the support bundle's copy: a header, the set keys, a blank. */
  method RenderLines(schema: Schema, values: Values) returns (lines: seq<string>)
    requires Shaped(schema, values)
    ensures lines == AllLines(Rendered(schema, values))
  {
    hide Printed, SetPairs, PairLines;
    lines := [];
    ghost var sections := Rendered(schema, values);
    var i := 0;
    while i < |schema|
      invariant 0 <= i <= |schema| && lines == AllLines(sections[..i])
    {
      GlueUndoesCut(schema[i].name, '.');
      var body := RenderPairs(schema[i].keys, values[i]);
      lines := lines + (["[" + schema[i].name + "]"] + body + [""]);
      assert sections[..i + 1][..i] == sections[..i];
      i := i + 1;
    }
    assert sections[..i] == sections;
  }
}
