/** A configuration that validated prints as TOML that reads back and validates again
    to the same configuration. */
module ConfigRoundTrip {
  import opened Text
  import opened Wrappers
  import opened TomlText
  import opened TomlDocument
  import opened ConfigSchema

  /** A value that would validate to itself; unset only where unset is the default. */
  predicate Fixed(dotted: string, spec: Spec, cell: Option<Toml>, rules: Rules) {
    if cell.None? then spec.default.None?
    else Flat(cell.value) && CheckValue(dotted, cell.value, spec, rules) == Ok(cell.value)
  }

  ghost predicate AllFixed(schema: Schema, values: Values, rules: Rules)
    requires Shaped(schema, values)
  {
    forall i, j :: 0 <= i < |schema| && 0 <= j < |schema[i].keys| ==>
      Fixed(Dotted(schema[i].name, schema[i].keys[j].name), schema[i].keys[j].spec, values[i][j], rules)
  }

  /** Lower-casing leaves the choices alone, and only free text answers to a rule. */
  ghost predicate Choosy(dotted: string, spec: Spec, rules: Rules) {
    spec.kind.TextKind? && spec.choices != [] ==>
      (forall c :: c in spec.choices ==> rules.lower(c) == c) && forall text :: rules.admits(dotted, text)
  }

  ghost predicate TableOk(schema: Schema, i: nat, rules: Rules)
    requires i < |schema|
  {
    var t := schema[i];
    && (forall j, k :: 0 <= j < k < |t.keys| ==> t.keys[j].name != t.keys[k].name)
    && forall j :: 0 <= j < |t.keys| ==>
         && BareKey(t.keys[j].name) && TableAt(schema, Dotted(t.name, t.keys[j].name)).None?
         && Choosy(Dotted(t.name, t.keys[j].name), t.keys[j].spec, rules)
         && Fixed(Dotted(t.name, t.keys[j].name), t.keys[j].spec, t.keys[j].spec.default, rules)
  }

  /** A table's name is its own word, or the word of the last such table and one more. */
  ghost predicate PlacedOk(schema: Schema, i: nat)
    requires i < |schema|
  {
    var path := Cut(schema[i].name, '.');
    && (forall part :: part in path ==> BareKey(part))
    && (|path| == 1 || (|path| == 2 && exists p :: 0 <= p < i && Holder(schema, i, p)))
  }

  /** Table `p` is the one the sub-table `i` lies in, with only its sub-tables between. */
  ghost predicate Holder(schema: Schema, i: nat, p: nat)
    requires p < i < |schema|
  {
    && Cut(schema[p].name, '.') == [Cut(schema[i].name, '.')[0]]
    && forall q :: p < q < i ==> |Cut(schema[q].name, '.')| == 2 && Cut(schema[q].name, '.')[0] == schema[p].name
  }

  ghost predicate SchemaOk(schema: Schema, rules: Rules) {
    && schema != []
    && (forall i, j :: 0 <= i < j < |schema| ==> schema[i].name != schema[j].name)
    && (forall i :: 0 <= i < |schema| ==> TableOk(schema, i, rules))
    && (forall i :: 0 <= i < |schema| ==> PlacedOk(schema, i))
  }

  // ---- validated values are fixed points ----

  /** Cleaning a list a second time changes nothing. */
  lemma {:induction false} CleanedIsClean(items: seq<Toml>, choices: seq<string>)
    requires Cleaned(items, choices).Ok?
    ensures var names := Cleaned(items, choices).value;
            && Cleaned(names, choices) == Ok(names) && |names| <= |items|
            && (forall name :: name in names ==> name.Str?)
  {
    if items != [] {
      var earlier, item := items[..|items| - 1], items[|items| - 1];
      CleanedIsClean(earlier, choices);
      var names := Cleaned(earlier, choices).value;
      if item !in names {
        assert (names + [item])[..|names|] == names;
      }
    }
  }

  /** Checking a checked value gives it back. */
  lemma CheckedIsFixed(dotted: string, raw: Toml, spec: Spec, rules: Rules)
    requires Choosy(dotted, spec, rules) && CheckValue(dotted, raw, spec, rules).Ok?
    ensures Fixed(dotted, spec, Some(CheckValue(dotted, raw, spec, rules).value), rules)
  {
    if spec.kind.NamesKind? { CleanedIsClean(raw.items, spec.choices); }
  }

  lemma EntryKeepsFixed(schema: Schema, rules: Rules, at: nat, key: string, raw: Toml, values: Values)
    requires SchemaOk(schema, rules) && at < |schema| && Shaped(schema, values) && AllFixed(schema, values, rules)
    ensures AllFixed(schema, CheckEntry(schema, rules, at, key, raw, values).0, rules)
    decreases raw, if raw.Table? then |raw.entries| + 2 else 1
  {
    hide CheckValue, PlacedOk, Fixed;
    var dotted := Dotted(schema[at].name, key);
    var inner := TableAt(schema, dotted);
    if inner.Some? {
      TableKeepsFixed(schema, rules, inner.value, raw, values);
    } else {
      var k := KeyAt(schema[at].keys, key);
      if k.Some? {
        var spec := schema[at].keys[k.value].spec;
        assert TableOk(schema, at, rules);
        if CheckValue(dotted, raw, spec, rules).Ok? { CheckedIsFixed(dotted, raw, spec, rules); }
      }
    }
  }

  lemma TableKeepsFixed(schema: Schema, rules: Rules, at: nat, body: Toml, values: Values)
    requires SchemaOk(schema, rules) && at < |schema| && Shaped(schema, values) && AllFixed(schema, values, rules)
    ensures AllFixed(schema, CheckTable(schema, rules, at, body, values).0, rules)
    decreases body, if body.Table? then |body.entries| + 1 else 0
  {
    hide SchemaOk, AllFixed;
    if body.Table? { EntriesKeepFixed(schema, rules, at, body, |body.entries|, values); }
  }

  lemma EntriesKeepFixed(schema: Schema, rules: Rules, at: nat, body: Toml, n: nat, values: Values)
    requires SchemaOk(schema, rules) && at < |schema| && Shaped(schema, values) && AllFixed(schema, values, rules)
    requires body.Table? && n <= |body.entries|
    ensures AllFixed(schema, CheckEntries(schema, rules, at, body, n, values).0, rules)
    decreases body, n
  {
    hide SchemaOk, AllFixed;
    if n > 0 {
      EntriesKeepFixed(schema, rules, at, body, n - 1, values);
      var (key, raw) := body.entries[n - 1];
      EntryKeepsFixed(schema, rules, at, key, raw, CheckEntries(schema, rules, at, body, n - 1, values).0);
    }
  }

  lemma DefaultsFixed(schema: Schema, rules: Rules)
    requires SchemaOk(schema, rules)
    ensures AllFixed(schema, Defaults(schema), rules)
  {
    hide Fixed;
    forall i, j | 0 <= i < |schema| && 0 <= j < |schema[i].keys|
      ensures Fixed(Dotted(schema[i].name, schema[i].keys[j].name), schema[i].keys[j].spec, Defaults(schema)[i][j], rules)
    {
      assert TableOk(schema, i, rules);
    }
  }

  lemma {:induction false} DocumentFixed(schema: Schema, rules: Rules, document: seq<(string, Toml)>)
    requires SchemaOk(schema, rules)
    ensures AllFixed(schema, CheckDocument(schema, rules, document).0, rules)
  {
    if document == [] {
      DefaultsFixed(schema, rules);
    } else {
      hide SchemaOk, AllFixed, CheckTable;
      DocumentFixed(schema, rules, document[..|document| - 1]);
      var values := CheckDocument(schema, rules, document[..|document| - 1]).0;
      var (name, body) := document[|document| - 1];
      var at := TableAt(schema, name);
      if at.Some? { TableKeepsFixed(schema, rules, at.value, body, values); }
    }
  }

  // ---- a printed table, read into the defaults ----

  /** Only the entries read so far matter. */
  lemma {:induction false} SameEntries(schema: Schema, rules: Rules, at: nat, a: Toml, b: Toml, n: nat, values: Values)
    requires at < |schema| && Shaped(schema, values) && a.Table? && b.Table? && n <= |a.entries| && n <= |b.entries|
    requires a.entries[..n] == b.entries[..n]
    ensures CheckEntries(schema, rules, at, a, n, values) == CheckEntries(schema, rules, at, b, n, values)
  {
    hide CheckEntry;
    if n > 0 {
      assert a.entries[..n - 1] == a.entries[..n][..n - 1] && b.entries[..n - 1] == b.entries[..n][..n - 1];
      assert a.entries[n - 1] == a.entries[..n][n - 1] && b.entries[n - 1] == b.entries[..n][n - 1];
      SameEntries(schema, rules, at, a, b, n - 1, values);
    }
  }

  /** One more entry in a section is one more check. */
  lemma EntryAppended(schema: Schema, rules: Rules, at: nat, entries: seq<(string, Toml)>, e: (string, Toml), values: Values)
    requires at < |schema| && Shaped(schema, values)
    ensures var (v, problems) := CheckTable(schema, rules, at, Table(entries), values);
            var (v', more) := CheckEntry(schema, rules, at, e.0, e.1, v);
            CheckTable(schema, rules, at, Table(entries + [e]), values) == (v', problems + more)
  {
    hide CheckEntry;
    var a, b := Table(entries), Table(entries + [e]);
    assert b.entries[..|entries|] == a.entries[..|entries|];
    SameEntries(schema, rules, at, a, b, |entries|, values);
  }

  function RowTo(row: seq<Option<Toml>>, default: seq<Option<Toml>>, m: nat): seq<Option<Toml>>
    requires m <= |row| == |default|
  {
    row[..m] + default[m..]
  }

  /** Reading a printed table writes its row over the defaults, and finds no fault. */
  lemma {:induction false} RowReads(schema: Schema, rules: Rules, at: nat, row: seq<Option<Toml>>, values: Values, m: nat)
    requires at < |schema| && Shaped(schema, values) && TableOk(schema, at, rules) && m <= |row| == |schema[at].keys|
    requires forall j :: 0 <= j < |row| ==> values[at][j] == schema[at].keys[j].spec.default
    requires forall j :: 0 <= j < |row| ==>
      Fixed(Dotted(schema[at].name, schema[at].keys[j].name), schema[at].keys[j].spec, row[j], rules)
    ensures CheckTable(schema, rules, at, Table(SetPairs(schema[at].keys[..m], row[..m])), values)
            == (values[at := RowTo(row, values[at], m)], [])
  {
    hide CheckTable, CheckEntry, Fixed, TableOk, SetPairs, RowTo, Dotted;
    if m == 0 {
      NothingReads(schema, rules, at, row, values);
    } else {
      RowReads(schema, rules, at, row, values, m - 1);
      PairsStep(schema[at].keys, row, m);
      CellReads(schema, rules, at, row, values, m);
      if row[m - 1].Some? {
        var before := SetPairs(schema[at].keys[..m - 1], row[..m - 1]);
        EntryAppended(schema, rules, at, before, (schema[at].keys[m - 1].name, row[m - 1].value), values);
        var none: seq<Problem> := [];
        assert none + none == none;
      }
    }
  }

  lemma NothingReads(schema: Schema, rules: Rules, at: nat, row: seq<Option<Toml>>, values: Values)
    requires at < |schema| && Shaped(schema, values) && |row| == |schema[at].keys|
    ensures CheckTable(schema, rules, at, Table(SetPairs(schema[at].keys[..0], row[..0])), values)
            == (values[at := RowTo(row, values[at], 0)], [])
  {
    assert RowTo(row, values[at], 0) == values[at];
    assert values[at := values[at]] == values;
  }

  lemma PairsStep(keys: seq<Key>, row: seq<Option<Toml>>, m: nat)
    requires 1 <= m <= |row| == |keys|
    ensures SetPairs(keys[..m], row[..m]) ==
            if row[m - 1].None? then SetPairs(keys[..m - 1], row[..m - 1])
            else SetPairs(keys[..m - 1], row[..m - 1]) + [(keys[m - 1].name, row[m - 1].value)]
  {
    assert keys[..m][..m - 1] == keys[..m - 1] && row[..m][..m - 1] == row[..m - 1];
  }

  lemma CellReads(schema: Schema, rules: Rules, at: nat, row: seq<Option<Toml>>, values: Values, m: nat)
    requires at < |schema| && Shaped(schema, values) && TableOk(schema, at, rules) && 1 <= m <= |row| == |schema[at].keys|
    requires values[at][m - 1] == schema[at].keys[m - 1].spec.default
    requires Fixed(Dotted(schema[at].name, schema[at].keys[m - 1].name), schema[at].keys[m - 1].spec, row[m - 1], rules)
    ensures var v := values[at := RowTo(row, values[at], m - 1)];
            var v' := values[at := RowTo(row, values[at], m)];
            if row[m - 1].None? then v' == v
            else CheckEntry(schema, rules, at, schema[at].keys[m - 1].name, row[m - 1].value, v) == (v', [])
  {
    hide CheckValue, Flat;
    var key := schema[at].keys[m - 1];
    var v := values[at := RowTo(row, values[at], m - 1)];
    assert KeyAt(schema[at].keys, key.name) == Some(m - 1);
    assert RowTo(row, values[at], m) == RowTo(row, values[at], m - 1)[m - 1 := row[m - 1]];
    if row[m - 1].None? {
      assert RowTo(row, values[at], m) == RowTo(row, values[at], m - 1);
    } else {
      assert values[at := RowTo(row, values[at], m)] == v[at := v[at][m - 1 := row[m - 1]]];
    }
  }

  // ---- the whole document ----

  /** The first tables as configured, the rest at their defaults. */
  function Upto(schema: Schema, values: Values, i: nat): (v: Values)
    requires Shaped(schema, values) && i <= |schema|
    ensures Shaped(schema, v)
  {
    values[..i] + Defaults(schema)[i..]
  }

  /** A name is that of one of the first `i` tables. */
  ghost predicate Among(schema: Schema, i: nat, name: string)
    requires i <= |schema|
  {
    exists p :: 0 <= p < i && schema[p].name == name
  }

  /** Each outer entry of the document is one of the first `i` tables. */
  ghost predicate OuterNamed(schema: Schema, i: nat, document: seq<(string, Toml)>)
    requires i <= |schema|
  {
    forall k :: 0 <= k < |document| ==> Among(schema, i, document[k].0)
  }

  /** Each entry of a section is a table of the schema among the first `i`, or names none. */
  ghost predicate InnerNamed(schema: Schema, i: nat, owner: string, entries: seq<(string, Toml)>)
    requires i <= |schema|
  {
    forall e :: e in entries ==>
      if e.1.Table? then Among(schema, i, Dotted(owner, e.0))
      else TableAt(schema, Dotted(owner, e.0)).None?
  }

  /** The last section is the one the last table is, or lies in. */
  ghost predicate LastOpen(schema: Schema, i: nat, document: seq<(string, Toml)>)
    requires i <= |schema|
  {
    i > 0 ==>
      && document != [] && document[|document| - 1].1.Table?
      && document[|document| - 1].0 == Cut(schema[i - 1].name, '.')[0]
      && InnerNamed(schema, i, document[|document| - 1].0, document[|document| - 1].1.entries)
  }

  /** What the document looks like once the first `i` tables are in it. */
  ghost predicate Stands(schema: Schema, rules: Rules, values: Values, i: nat, document: seq<(string, Toml)>)
    requires Shaped(schema, values) && i <= |schema|
  {
    && CheckDocument(schema, rules, document) == (Upto(schema, values, i), [])
    && OuterNamed(schema, i, document) && LastOpen(schema, i, document)
  }

  lemma OneWord(name: string)
    requires |Cut(name, '.')| == 1
    ensures Cut(name, '.') == [name]
  {
    GlueUndoesCut(name, '.');
  }

  lemma TwoWords(name: string)
    requires |Cut(name, '.')| == 2
    ensures name == Dotted(Cut(name, '.')[0], Cut(name, '.')[1])
  {
    GlueUndoesCut(name, '.');
  }

  lemma {:induction false} PairsAre(keys: seq<Key>, row: seq<Option<Toml>>)
    requires |row| == |keys|
    ensures forall e :: e in SetPairs(keys, row) ==> exists j :: 0 <= j < |keys| && e.0 == keys[j].name && row[j] == Some(e.1)
  {
    if keys != [] {
      var k, r := keys[..|keys| - 1], row[..|row| - 1];
      PairsAre(k, r);
      forall e | e in SetPairs(keys, row)
        ensures exists j :: 0 <= j < |keys| && e.0 == keys[j].name && row[j] == Some(e.1)
      {
        if e in SetPairs(k, r) {
          var j :| 0 <= j < |k| && e.0 == k[j].name && r[j] == Some(e.1);
          assert e.0 == keys[j].name && row[j] == Some(e.1);
        }
      }
    }
  }

  /** The pairs of a printed table are keys of it, none naming a table. */
  lemma PairsPlain(schema: Schema, rules: Rules, at: nat, row: seq<Option<Toml>>)
    requires at < |schema| && TableOk(schema, at, rules) && |row| == |schema[at].keys|
    requires forall j :: 0 <= j < |row| ==> row[j].Some? ==> Flat(row[j].value)
    ensures InnerNamed(schema, |schema|, schema[at].name, SetPairs(schema[at].keys, row))
    ensures InnerNamed(schema, 0, schema[at].name, SetPairs(schema[at].keys, row))
  {
    PairsAre(schema[at].keys, row);
  }

  /** Reading table `i` as printed takes the values from the first `i` tables to one more. */
  lemma TableReads(schema: Schema, rules: Rules, values: Values, i: nat)
    requires SchemaOk(schema, rules) && Shaped(schema, values) && AllFixed(schema, values, rules) && i < |schema|
    ensures CheckTable(schema, rules, i, Table(SetPairs(schema[i].keys, values[i])), Upto(schema, values, i))
            == (Upto(schema, values, i + 1), [])
  {
    hide Fixed, CheckTable, SetPairs, TableOk, PlacedOk;
    var v := Upto(schema, values, i);
    assert TableOk(schema, i, rules);
    RowReads(schema, rules, i, values[i], v, |values[i]|);
    assert schema[i].keys[..|values[i]|] == schema[i].keys && values[i][..|values[i]|] == values[i];
    assert RowTo(values[i], v[i], |values[i]|) == values[i];
    assert v[i := values[i]] == Upto(schema, values, i + 1);
  }

  lemma DocumentAppended(schema: Schema, rules: Rules, document: seq<(string, Toml)>, at: nat, body: Toml)
    requires at < |schema| && TableAt(schema, schema[at].name) == Some(at)
    ensures var (v, problems) := CheckDocument(schema, rules, document);
            var (v', more) := CheckTable(schema, rules, at, body, v);
            CheckDocument(schema, rules, document + [(schema[at].name, body)]) == (v', problems + more)
  {
    hide CheckTable;
    assert (document + [(schema[at].name, body)])[..|document|] == document;
  }

  lemma NamedAt(schema: Schema, rules: Rules, i: nat)
    requires SchemaOk(schema, rules) && i < |schema|
    ensures TableAt(schema, schema[i].name) == Some(i)
  {
  }

  lemma AmongGrows(schema: Schema, i: nat, more: nat, name: string)
    requires i <= more <= |schema| && Among(schema, i, name)
    ensures Among(schema, more, name)
  {
    var p :| 0 <= p < i && schema[p].name == name;
    assert schema[p].name == name;
  }

  lemma InnerGrows(schema: Schema, i: nat, more: nat, owner: string, entries: seq<(string, Toml)>)
    requires i <= more <= |schema| && InnerNamed(schema, i, owner, entries)
    ensures InnerNamed(schema, more, owner, entries)
  {
  }

  /** The section table `i` prints as. */
  function Body(schema: Schema, values: Values, i: nat): (body: Toml)
    requires Shaped(schema, values) && i < |schema|
    ensures body.Table?
  {
    Table(SetPairs(schema[i].keys, values[i]))
  }

  lemma OuterChecks(schema: Schema, rules: Rules, values: Values, i: nat, document: seq<(string, Toml)>)
    requires SchemaOk(schema, rules) && Shaped(schema, values) && AllFixed(schema, values, rules) && i < |schema|
    requires CheckDocument(schema, rules, document) == (Upto(schema, values, i), [])
    ensures CheckDocument(schema, rules, document + [(schema[i].name, Body(schema, values, i))]) == (Upto(schema, values, i + 1), [])
  {
    hide CheckTable, CheckDocument, SetPairs, SchemaOk, AllFixed, Upto, TableAt;
    NamedAt(schema, rules, i);
    TableReads(schema, rules, values, i);
    DocumentAppended(schema, rules, document, i, Body(schema, values, i));
    var none: seq<Problem> := [];
    assert none + none == none;
  }

  lemma BodyNamed(schema: Schema, rules: Rules, values: Values, i: nat)
    requires SchemaOk(schema, rules) && Shaped(schema, values) && AllFixed(schema, values, rules) && i < |schema|
    ensures InnerNamed(schema, i + 1, schema[i].name, Body(schema, values, i).entries)
  {
    assert TableOk(schema, i, rules);
    hide SchemaOk, TableOk, AllFixed, InnerNamed, SetPairs;
    CellsFlat(schema, values, rules, i);
    PairsPlain(schema, rules, i, values[i]);
    InnerGrows(schema, 0, i + 1, schema[i].name, Body(schema, values, i).entries);
  }

  lemma NamesApart(schema: Schema, rules: Rules, i: nat)
    requires SchemaOk(schema, rules) && i < |schema|
    ensures forall p :: 0 <= p < i ==> schema[p].name != schema[i].name
  {
  }

  /** A table of its own, added to the document. */
  lemma AddsOuter(schema: Schema, rules: Rules, values: Values, i: nat, document: seq<(string, Toml)>)
    requires SchemaOk(schema, rules) && Shaped(schema, values) && AllFixed(schema, values, rules) && i < |schema|
    requires Stands(schema, rules, values, i, document) && |Cut(schema[i].name, '.')| == 1
    ensures AddSection(document, Section(Cut(schema[i].name, '.'), Body(schema, values, i).entries)).Some?
    ensures Stands(schema, rules, values, i + 1,
                   AddSection(document, Section(Cut(schema[i].name, '.'), Body(schema, values, i).entries)).value)
  {
    hide CheckDocument, SchemaOk, AllFixed, Upto, Body, InnerNamed;
    OneWord(schema[i].name);
    NamesApart(schema, rules, i);
    BodyNamed(schema, rules, values, i);
    OuterChecks(schema, rules, values, i, document);
    OuterGrows(schema, i, document, schema[i].name, Body(schema, values, i));
    assert !HasKey(document, schema[i].name);
  }

  lemma OuterGrows(schema: Schema, i: nat, document: seq<(string, Toml)>, name: string, body: Toml)
    requires i < |schema| && OuterNamed(schema, i, document) && name == schema[i].name
    ensures OuterNamed(schema, i + 1, document + [(name, body)])
  {
    forall k | 0 <= k < |document| ensures Among(schema, i + 1, document[k].0) {
      AmongGrows(schema, i, i + 1, document[k].0);
    }
    assert schema[i].name == name;
  }

  lemma InnerChecks(schema: Schema, rules: Rules, values: Values, i: nat, p: nat, before: seq<(string, Toml)>, entries: seq<(string, Toml)>, key: string)
    requires SchemaOk(schema, rules) && Shaped(schema, values) && AllFixed(schema, values, rules) && p < i < |schema|
    requires schema[i].name == Dotted(schema[p].name, key)
    requires CheckDocument(schema, rules, before + [(schema[p].name, Table(entries))]) == (Upto(schema, values, i), [])
    ensures CheckDocument(schema, rules, before + [(schema[p].name, Table(entries + [(key, Body(schema, values, i))]))])
            == (Upto(schema, values, i + 1), [])
  {
    hide CheckTable, CheckDocument, SetPairs, SchemaOk, AllFixed, Upto, TableAt, Dotted;
    NamedAt(schema, rules, i);
    NamedAt(schema, rules, p);
    TableReads(schema, rules, values, i);
    LastGrows(schema, rules, before, p, i, entries, (key, Body(schema, values, i)));
    var none: seq<Problem> := [];
    assert none + none == none;
  }

  lemma HolderOf(schema: Schema, rules: Rules, i: nat) returns (p: nat)
    requires SchemaOk(schema, rules) && i < |schema| && |Cut(schema[i].name, '.')| == 2
    ensures p < i && schema[p].name == Cut(schema[i].name, '.')[0] == Cut(schema[i - 1].name, '.')[0]
    ensures schema[i].name == Dotted(schema[p].name, Cut(schema[i].name, '.')[1])
  {
    assert PlacedOk(schema, i);
    p :| 0 <= p < i && Holder(schema, i, p);
    OneWord(schema[p].name);
    TwoWords(schema[i].name);
  }

  /** A table inside the last one, added to the document. */
  lemma AddsInner(schema: Schema, rules: Rules, values: Values, i: nat, document: seq<(string, Toml)>)
    requires SchemaOk(schema, rules) && Shaped(schema, values) && AllFixed(schema, values, rules) && i < |schema|
    requires Stands(schema, rules, values, i, document) && |Cut(schema[i].name, '.')| == 2
    ensures AddSection(document, Section(Cut(schema[i].name, '.'), Body(schema, values, i).entries)).Some?
    ensures Stands(schema, rules, values, i + 1,
                   AddSection(document, Section(Cut(schema[i].name, '.'), Body(schema, values, i).entries)).value)
  {
    hide CheckDocument, SchemaOk, AllFixed, Upto, InnerNamed, Dotted, SetPairs;
    var path, body := Cut(schema[i].name, '.'), Body(schema, values, i);
    var p := HolderOf(schema, rules, i);
    NamesApart(schema, rules, i);
    var last := |document| - 1;
    var before, entries := document[..last], document[last].1.entries;
    assert document == before + [(path[0], Table(entries))];
    assert IndexOf(document, path[0]) == Some(last);
    InnerIsNew(schema, i, path[0], entries, path[1]);
    var grown := Table(entries + [(path[1], body)]);
    assert document[last := (path[0], grown)] == before + [(path[0], grown)];
    InnerChecks(schema, rules, values, i, p, before, entries, path[1]);
    InnerAdded(schema, i, path[0], entries, (path[1], body));
    OuterKept(schema, i, document, (path[0], grown));
  }

  lemma OuterKept(schema: Schema, i: nat, document: seq<(string, Toml)>, e: (string, Toml))
    requires i < |schema| && OuterNamed(schema, i, document) && document != [] && document[|document| - 1].0 == e.0
    ensures OuterNamed(schema, i + 1, document[|document| - 1 := e])
  {
    forall k | 0 <= k < |document| ensures Among(schema, i + 1, document[k].0) {
      AmongGrows(schema, i, i + 1, document[k].0);
    }
  }

  lemma InnerIsNew(schema: Schema, i: nat, owner: string, entries: seq<(string, Toml)>, key: string)
    requires i < |schema| && InnerNamed(schema, i, owner, entries) && schema[i].name == Dotted(owner, key)
    requires forall p :: 0 <= p < i ==> schema[p].name != schema[i].name
    ensures !HasKey(entries, key)
  {
    forall k | 0 <= k < |entries|
      ensures entries[k].0 != key
    {
      assert entries[k] in entries;
    }
  }

  lemma InnerAdded(schema: Schema, i: nat, owner: string, entries: seq<(string, Toml)>, e: (string, Toml))
    requires i < |schema| && InnerNamed(schema, i, owner, entries) && e.1.Table? && schema[i].name == Dotted(owner, e.0)
    ensures InnerNamed(schema, i + 1, owner, entries + [e])
  {
    InnerGrows(schema, i, i + 1, owner, entries);
  }

  /** Adding a sub-table to the last section is one more check at the end. */
  lemma LastGrows(schema: Schema, rules: Rules, before: seq<(string, Toml)>, p: nat, i: nat, entries: seq<(string, Toml)>, e: (string, Toml))
    requires p < |schema| && i < |schema| && TableAt(schema, schema[p].name) == Some(p)
    requires TableAt(schema, Dotted(schema[p].name, e.0)) == Some(i)
    ensures var (v, problems) := CheckDocument(schema, rules, before + [(schema[p].name, Table(entries))]);
            var (v', more) := CheckTable(schema, rules, i, e.1, v);
            CheckDocument(schema, rules, before + [(schema[p].name, Table(entries + [e]))]) == (v', problems + more)
  {
    hide CheckTable, CheckDocument;
    DocumentAppended(schema, rules, before, p, Table(entries));
    DocumentAppended(schema, rules, before, p, Table(entries + [e]));
    EntryAppended(schema, rules, p, entries, e, CheckDocument(schema, rules, before).0);
    var problems := CheckDocument(schema, rules, before).1;
    var (v, inner) := CheckTable(schema, rules, p, Table(entries), CheckDocument(schema, rules, before).0);
    var more := CheckTable(schema, rules, i, e.1, v).1;
    assert (problems + inner) + more == problems + (inner + more);
  }

  lemma CellsFlat(schema: Schema, values: Values, rules: Rules, i: nat)
    requires Shaped(schema, values) && AllFixed(schema, values, rules) && i < |schema|
    ensures forall j :: 0 <= j < |values[i]| ==> values[i][j].Some? ==> Flat(values[i][j].value)
  {
    hide CheckValue;
    forall j | 0 <= j < |values[i]| && values[i][j].Some?
      ensures Flat(values[i][j].value)
    {
      assert Fixed(Dotted(schema[i].name, schema[i].keys[j].name), schema[i].keys[j].spec, values[i][j], rules);
    }
  }

  /** The sections of the printed file, nested again, check out table by table. */
  lemma {:induction false} NestsAndChecks(schema: Schema, rules: Rules, values: Values, i: nat)
    requires SchemaOk(schema, rules) && Shaped(schema, values) && AllFixed(schema, values, rules) && i <= |schema|
    ensures Nested(Rendered(schema, values)[..i]).Some?
    ensures Stands(schema, rules, values, i, Nested(Rendered(schema, values)[..i]).value)
  {
    hide SchemaOk, AllFixed, Upto, AddSection;
    var sections := Rendered(schema, values);
    if i == 0 {
      NothingStands(schema, rules, values);
    } else {
      hide Stands, Rendered;
      NestsAndChecks(schema, rules, values, i - 1);
      assert sections[..i][..i - 1] == sections[..i - 1];
      var document := Nested(sections[..i - 1]).value;
      PathLength(schema, rules, i - 1);
      if |Cut(schema[i - 1].name, '.')| == 1 {
        AddsOuter(schema, rules, values, i - 1, document);
      } else {
        AddsInner(schema, rules, values, i - 1, document);
      }
    }
  }

  lemma PathLength(schema: Schema, rules: Rules, i: nat)
    requires SchemaOk(schema, rules) && i < |schema|
    ensures 1 <= |Cut(schema[i].name, '.')| <= 2
  {
    assert PlacedOk(schema, i);
  }

  lemma NothingStands(schema: Schema, rules: Rules, values: Values)
    requires Shaped(schema, values)
    ensures Nested(Rendered(schema, values)[..0]) == Some([]) && Stands(schema, rules, values, 0, [])
  {
    assert Upto(schema, values, 0) == Defaults(schema);
  }

  lemma RenderedIsGood(schema: Schema, rules: Rules, values: Values)
    requires SchemaOk(schema, rules) && Shaped(schema, values) && AllFixed(schema, values, rules)
    ensures GoodSections(Rendered(schema, values))
  {
    hide AllFixed, GoodPairs;
    var sections := Rendered(schema, values);
    forall i | 0 <= i < |sections|
      ensures GoodSection(sections[i])
    {
      assert PlacedOk(schema, i) && TableOk(schema, i, rules);
      CellsFlat(schema, values, rules, i);
      PairsGood(schema[i].keys, values[i]);
    }
    forall i, j | 0 <= i < j < |sections|
      ensures sections[i].path != sections[j].path
    {
      GlueUndoesCut(schema[i].name, '.');
      GlueUndoesCut(schema[j].name, '.');
    }
  }

  lemma {:induction false} PairsGood(keys: seq<Key>, row: seq<Option<Toml>>)
    requires |row| == |keys| && (forall j :: 0 <= j < |keys| ==> BareKey(keys[j].name))
    requires forall j, k :: 0 <= j < k < |keys| ==> keys[j].name != keys[k].name
    requires forall j :: 0 <= j < |row| ==> row[j].Some? ==> Flat(row[j].value)
    ensures GoodPairs(SetPairs(keys, row))
  {
    hide BareKey, Flat;
    if keys != [] {
      var k, r := keys[..|keys| - 1], row[..|row| - 1];
      PairsGood(k, r);
      PairsAre(k, r);
      var pairs := SetPairs(k, r);
      forall i | 0 <= i < |pairs|
        ensures pairs[i].0 != keys[|keys| - 1].name
      {
        assert pairs[i] in pairs;
      }
    }
  }

  /** Checked values print as TOML that reads back and checks to them. */
  lemma FixedValuesLoad(schema: Schema, rules: Rules, values: Values)
    requires SchemaOk(schema, rules) && schema != [] && Shaped(schema, values) && AllFixed(schema, values, rules)
    ensures ReadDocument(ToToml(schema, values)).Some?
    ensures CheckDocument(schema, rules, ReadDocument(ToToml(schema, values)).value) == (values, [])
  {
    hide SchemaOk, AllFixed, CheckDocument, GoodSections, OuterNamed, LastOpen, Nested, Sections, AllLines, Cut, Glue, Upto, Rendered;
    WholeIs(schema, values);
    RenderedIsGood(schema, rules, values);
    FileReads(Rendered(schema, values));
    NestsAndChecks(schema, rules, values, |schema|);
    assert Rendered(schema, values)[..|schema|] == Rendered(schema, values);
  }

  /** Every configuration a document validates to prints as TOML that reads back, and
      what is read validates to that configuration and no other. */
  lemma PrintedConfigurationLoads(schema: Schema, rules: Rules, document: seq<(string, Toml)>)
    requires SchemaOk(schema, rules) && Validate(schema, rules, document).Ok?
    ensures var c := Validate(schema, rules, document).value;
            && Shaped(schema, c)
            && ReadDocument(ToToml(schema, c)).Some?
            && Validate(schema, rules, ReadDocument(ToToml(schema, c)).value) == Ok(c)
  {
    var c := Validate(schema, rules, document).value;
    assert schema != [];
    hide SchemaOk, AllFixed, CheckDocument, ReadDocument, ToToml;
    DocumentFixed(schema, rules, document);
    FixedValuesLoad(schema, rules, c);
  }

  lemma WholeIs(schema: Schema, values: Values)
    requires Shaped(schema, values)
    ensures Upto(schema, values, |schema|) == values
  {
  }
}
