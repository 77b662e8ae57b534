/** How large a configuration prints, byte for byte, and so when the copy the support
    bundle carries is one the loader will read. */
module ConfigSize {
  import opened Text
  import opened Wrappers
  import opened Utf8
  import opened TomlText
  import opened TomlDocument
  import opened ConfigSchema
  import opened ConfigRoundTrip
  import opened ConfigTables

  const MAX_CONFIG_BYTES := 256 * 1024

  datatype LoadError = TooLarge | NotToml | Invalid(problems: seq<Problem>)

  /** A file's text as the loader takes it: bounded, parsed, validated. */
  function Load(schema: Schema, rules: Rules, text: string): Result<Values, LoadError> {
    if Size(text) > MAX_CONFIG_BYTES then Err(TooLarge)
    else match ReadDocument(text)
      case None => Err(NotToml)
      case Some(document) =>
        match Validate(schema, rules, document)
        case Ok(values) => Ok(values)
        case Err(problems) => Err(Invalid(problems))
  }

  // ---- sizes, from the structure ----

  /** The bytes escaping adds to a character. */
  function Extra(c: char): nat {
    if c == '\\' || c == '"' || c == '\U{8}' || c == '\t' || c == '\n' || c == '\U{c}' || c == '\r' then 1
    else if Control(c) then 5
    else 0
  }

  function Extras(text: string): nat { if text == "" then 0 else Extra(text[0]) + Extras(text[1..]) }

  function NumberSize(n: nat): nat { if n < 10 then 1 else NumberSize(n / 10) + 1 }

  function ValueSize(v: Toml): nat {
    match v
    case Bool(on) => if on then 4 else 5
    case Int(value) => if value < 0 then 1 + NumberSize(-value) else NumberSize(value)
    case Str(text) => Size(text) + Extras(text) + 2
    case Array(items) => 2 + ItemsSize(items)
    case Table(_) => 0
  }

  function ItemsSize(items: seq<Toml>): nat {
    if items == [] then 0
    else if |items| == 1 then ValueSize(items[0])
    else ValueSize(items[0]) + 2 + ItemsSize(items[1..])
  }

  /** Each set key's line, with its line end. */
  function PairsSize(keys: seq<Key>, row: seq<Option<Toml>>): nat
    requires |row| == |keys|
  {
    if keys == [] then 0
    else
      var last := row[|row| - 1];
      PairsSize(keys[..|keys| - 1], row[..|row| - 1])
      + if last.None? then 0 else Size(keys[|keys| - 1].name) + 3 + ValueSize(last.value) + 1
  }

  /** The first `n` tables: a header, the set keys, and a blank line each. */
  function TablesSize(schema: Schema, values: Values, n: nat): nat
    requires Shaped(schema, values) && n <= |schema|
  {
    if n == 0 then 0
    else TablesSize(schema, values, n - 1) + Size(schema[n - 1].name) + 3 + PairsSize(schema[n - 1].keys, values[n - 1]) + 1
  }

  // ---- they are the sizes of what is printed ----

  lemma EscapeSize(c: char)
    ensures Size(Escape(c)) == |Encoded(c)| + Extra(c)
  {
    OneSize(c);
    if Extra(c) > 0 {
      assert forall i :: 0 <= i < |Escape(c)| ==> Escape(c)[i] as int < 128;
      AsciiSize(Escape(c));
    }
  }

  lemma OneSize(c: char)
    ensures Size([c]) == |Encoded(c)|
  {
    assert Utf8Bytes([c]) == Encoded(c) + Utf8Bytes([c][1..]);
    assert [c][1..] == "";
  }

  lemma {:induction false} EscapedSize(text: string)
    ensures Size(Escaped(text)) == Size(text) + Extras(text)
  {
    hide Escape, Extra, Encoded;
    if text != "" {
      EscapedSize(text[1..]);
      EscapeSize(text[0]);
      SizeAppend(Escape(text[0]), Escaped(text[1..]));
    }
  }

  lemma {:induction false} DecimalSize(n: nat)
    ensures Size(Decimal(n)) == NumberSize(n)
  {
    hide Encoded;
    OneSize(Digit(n % 10));
    DigitSize(n % 10);
    if n >= 10 {
      DecimalSize(n / 10);
      SizeAppend(Decimal(n / 10), [Digit(n % 10)]);
    }
  }

  lemma DigitSize(n: nat)
    requires n < 10
    ensures |Encoded(Digit(n))| == 1
  {
  }

  lemma ScalarSize(v: Toml)
    requires Scalar(v)
    ensures Size(Printed(v)) == ValueSize(v)
  {
    match v {
      case Str(text) =>
        EscapedSize(text);
        AsciiSize("\"");
        SizeAppend("\"", Escaped(text));
        SizeAppend("\"" + Escaped(text), "\"");
      case Int(value) =>
        DecimalSize(if value < 0 then -value else value);
        AsciiSize("-");
        if value < 0 { SizeAppend("-", Decimal(-value)); }
      case Bool(on) => AsciiSize(Printed(v));
    }
  }

  lemma {:induction false} ItemsSizes(items: seq<Toml>)
    requires forall item :: item in items ==> Scalar(item)
    ensures Size(PrintedItems(items)) == ItemsSize(items)
  {
    hide Printed, ValueSize;
    if items != [] {
      ScalarSize(items[0]);
      if |items| > 1 {
        ItemsSizes(items[1..]);
        AsciiSize(", ");
        SizeAppend(Printed(items[0]), ", ");
        SizeAppend(Printed(items[0]) + ", ", PrintedItems(items[1..]));
      }
    }
  }

  lemma PrintedSize(v: Toml)
    requires Flat(v)
    ensures Size(Printed(v)) == ValueSize(v)
  {
    hide PrintedItems, ItemsSize, Scalar;
    if v.Array? {
      ItemsSizes(v.items);
      AsciiSize("[");
      AsciiSize("]");
      SizeAppend("[", PrintedItems(v.items));
      SizeAppend("[" + PrintedItems(v.items), "]");
    } else {
      FlatScalar(v);
      ScalarSize(v);
    }
  }

  lemma FlatScalar(v: Toml)
    requires Flat(v) && !v.Array?
    ensures Scalar(v)
  {
  }

  /** Lines with their line ends. */
  function LinesSize(lines: seq<string>): nat {
    if lines == [] then 0 else LinesSize(lines[..|lines| - 1]) + Size(lines[|lines| - 1]) + 1
  }

  lemma {:induction false} LinesSizeAppend(a: seq<string>, b: seq<string>)
    ensures LinesSize(a + b) == LinesSize(a) + LinesSize(b)
  {
    if b == [] {
      assert a + b == a;
    } else {
      LinesSizeAppend(a, b[..|b| - 1]);
      assert (a + b)[..|a + b| - 1] == a + b[..|b| - 1];
    }
  }

  lemma {:induction false} GlueSize(lines: seq<string>)
    requires |lines| >= 1
    ensures Size(Glue(lines, '\n')) + 1 == LinesSize(lines)
  {
    if |lines| == 1 {
      assert lines[..0] == [];
    } else {
      GlueSize(lines[1..]);
      OneSize('\n');
      SizeAppend(lines[0] + ['\n'], Glue(lines[1..], '\n'));
      SizeAppend(lines[0], ['\n']);
      assert lines == [lines[0]] + lines[1..];
      LinesSizeAppend([lines[0]], lines[1..]);
      assert [lines[0]][..0] == [];
    }
  }

  lemma {:induction false} PairsSizes(keys: seq<Key>, row: seq<Option<Toml>>)
    requires |row| == |keys| && forall j :: 0 <= j < |row| ==> row[j].Some? ==> Flat(row[j].value)
    ensures LinesSize(PairLines(SetPairs(keys, row))) == PairsSize(keys, row)
  {
    hide PairLine, ValueSize, Flat;
    if keys != [] {
      var k, r := keys[..|keys| - 1], row[..|row| - 1];
      PairsSizes(k, r);
      if row[|row| - 1].Some? {
        var pair := (keys[|keys| - 1].name, row[|row| - 1].value);
        var pairs := SetPairs(k, r);
        assert PairLines(pairs + [pair])[..|pairs|] == PairLines(pairs);
        PairSize(pair);
      }
    }
  }

  lemma PairSize(pair: (string, Toml))
    requires Flat(pair.1)
    ensures Size(PairLine(pair)) == Size(pair.0) + 3 + ValueSize(pair.1)
  {
    hide Printed, ValueSize;
    AsciiSize(" = ");
    PrintedSize(pair.1);
    SizeAppend(pair.0, " = ");
    SizeAppend(pair.0 + " = ", Printed(pair.1));
  }

  lemma SectionSize(s: Section)
    requires |s.path| >= 1
    ensures LinesSize(SectionLines(s)) == Size(Glue(s.path, '.')) + 3 + LinesSize(PairLines(s.pairs)) + 1
  {
    hide Glue;
    var name := Glue(s.path, '.');
    AsciiSize("[");
    AsciiSize("]");
    AsciiSize("");
    SizeAppend("[", name);
    SizeAppend("[" + name, "]");
    LinesSizeOne("[" + name + "]");
    LinesSizeOne("");
    LinesSizeAppend(["[" + name + "]"], PairLines(s.pairs));
    LinesSizeAppend(["[" + name + "]"] + PairLines(s.pairs), [""]);
  }

  lemma LinesSizeOne(line: string)
    ensures LinesSize([line]) == Size(line) + 1
  {
    assert [line][..0] == [];
  }

  lemma {:induction false} TablesSizes(schema: Schema, values: Values, rules: Rules, n: nat)
    requires Shaped(schema, values) && AllFixed(schema, values, rules) && n <= |schema|
    ensures LinesSize(AllLines(Rendered(schema, values)[..n])) == TablesSize(schema, values, n)
  {
    hide AllFixed, PairsSize, SectionLines, SetPairs;
    var sections := Rendered(schema, values);
    if n == 0 {
      assert sections[..0] == [];
    } else {
      TablesSizes(schema, values, rules, n - 1);
      assert sections[..n][..n - 1] == sections[..n - 1];
      GlueUndoesCut(schema[n - 1].name, '.');
      CellsFlat(schema, values, rules, n - 1);
      PairsSizes(schema[n - 1].keys, values[n - 1]);
      SectionSize(sections[n - 1]);
      LinesSizeAppend(AllLines(sections[..n - 1]), SectionLines(sections[n - 1]));
    }
  }

  /** The bytes a configuration prints as; the last line has no line end. */
  lemma CopySize(schema: Schema, values: Values, rules: Rules)
    requires Shaped(schema, values) && AllFixed(schema, values, rules) && schema != []
    ensures Size(ToToml(schema, values)) + 1 == TablesSize(schema, values, |schema|)
  {
    hide AllFixed, TablesSize, Glue, SectionLines;
    var sections := Rendered(schema, values);
    TablesSizes(schema, values, rules, |schema|);
    assert sections[..|schema|] == sections;
    assert |AllLines(sections)| >= 1 by { assert sections != []; SectionHasLines(sections[|sections| - 1]); }
    GlueSize(AllLines(sections));
  }

  lemma SectionHasLines(s: Section)
    requires |s.path| >= 1
    ensures |SectionLines(s)| >= 1
  {
  }

  /** The copy of a validated configuration loads as that configuration exactly when
      its names, values and escapes fit the loader's limit; one that does not fit is
      refused for its size. */
  lemma CopyLoadsIff(schema: Schema, rules: Rules, document: seq<(string, Toml)>)
    requires SchemaOk(schema, rules) && Validate(schema, rules, document).Ok?
    ensures var c := Validate(schema, rules, document).value;
            && Shaped(schema, c)
            && Load(schema, rules, ToToml(schema, c)) ==
                 if TablesSize(schema, c, |schema|) <= MAX_CONFIG_BYTES + 1 then Ok(c) else Err(TooLarge)
  {
    PrintedConfigurationLoads(schema, rules, document);
    DocumentFixed(schema, rules, document);
    hide SchemaOk, AllFixed, TablesSize, ToToml, ReadDocument, Size;
    var c := Validate(schema, rules, document).value;
    CopySize(schema, c, rules);
    assert schema != [] by { SchemaNotEmpty(schema, rules); }
  }

  lemma SchemaNotEmpty(schema: Schema, rules: Rules)
    requires SchemaOk(schema, rules)
    ensures schema != []
  {
  }

  // ---- how much larger it can get ----

  /** A text read from between quotes prints between quotes again in at most twice the
      bytes it took; what was read is closed by one quote. */
  lemma {:induction false} ReprintAtMostDoubles(s: string)
    requires ReadBasic(s).Some?
    ensures var (text, rest) := ReadBasic(s).value;
            Size(text) + Extras(text) + 2 * (Size(rest) + 1) <= 2 * Size(s)
    decreases |s|
  {
    hide Encoded, ReadEscape, Extra;
    SizeFirst(s);
    if s[0] == '"' {
      QuoteSize();
    } else if s[0] == '\\' {
      var (c, tail) := ReadEscape(s[1..]).value;
      EscapeShrinks(s[1..]);
      ReprintAtMostDoubles(tail);
      var text := ReadBasic(tail).value.0;
      SizeFirst([c] + text);
      assert ([c] + text)[1..] == text;
      BackslashSize();
    } else {
      ReprintAtMostDoubles(s[1..]);
      var text := ReadBasic(s[1..]).value.0;
      SizeFirst([s[0]] + text);
      assert ([s[0]] + text)[1..] == text;
      PlainDoubles(s[0]);
    }
  }

  lemma SizeFirst(s: string)
    requires s != ""
    ensures Size(s) == |Encoded(s[0])| + Size(s[1..])
  {
  }

  lemma QuoteSize()
    ensures |Encoded('"')| == 1
  {
  }

  lemma BackslashSize()
    ensures |Encoded('\\')| == 1
  {
  }

  lemma PlainDoubles(c: char)
    requires c != '"' && c != '\\' && (!Control(c) || c == '\t')
    ensures |Encoded(c)| + Extra(c) <= 2 * |Encoded(c)|
  {
  }

  /** What an escape stands for takes no more than twice the escape. */
  lemma EscapeShrinks(s: string)
    requires ReadEscape(s).Some?
    ensures var (c, rest) := ReadEscape(s).value;
            |Encoded(c)| + Extra(c) + 2 * Size(rest) <= 2 * (Size(s) + 1)
  {
    SizeFirst(s);
    if s[0] == 'u' {
      var (c, rest) := ReadEscape(s).value;
      assert s == s[..5] + rest;
      SizeAppend(s[..5], rest);
      SizeAtLeast(s[..5]);
    }
  }

  // ---- a configuration whose copy does not load ----

  function Tabs(n: nat): string { if n == 0 then "" else "\t" + Tabs(n - 1) }

  const GAME := "[game]"
  const INSTALL := "install_dir"

  /** One setting, whose text is tabs as they are: TOML allows them so, and printing
      escapes each. */
  function TabLine(n: nat): string { INSTALL + (" = " + ("\"" + Tabs(n) + "\"")) }

  function TabSource(n: nat): string { Glue([GAME, TabLine(n)], '\n') }

  /** The defaults, but for that setting. */
  function TabValues(n: nat): (values: Values)
    ensures Shaped(Tables(), values)
  {
    var values := Defaults(Tables());
    values[0 := values[0][2 := Some(Str(Tabs(n)))]]
  }

  lemma {:induction false} TabsRead(n: nat)
    ensures ReadBasic(Tabs(n) + "\"") == Some((Tabs(n), ""))
    ensures Size(Tabs(n)) == Extras(Tabs(n)) == |Tabs(n)| == n && '\n' !in Tabs(n)
  {
    if n > 0 {
      TabsRead(n - 1);
      assert (Tabs(n) + "\"")[1..] == Tabs(n - 1) + "\"";
      assert Tabs(n)[1..] == Tabs(n - 1);
    } else {
      assert "" + "\"" == "\"" && "\""[1..] == "";
    }
  }

  lemma TabLineReads(n: nat)
    ensures ReadLine(TabLine(n)) == Some(Pair(INSTALL, Str(Tabs(n))))
  {
    hide Tabs, BareRun, ReadBasic;
    var text := "\"" + Tabs(n) + "\"";
    var line, tail := TabLine(n), " = " + text;
    TabsRead(n);
    BareIs(INSTALL);
    BareRunEnds(INSTALL, tail);
    assert line[..|INSTALL|] == INSTALL && line[|INSTALL|..] == tail;
    EqualsReads(text);
    assert text[1..] == Tabs(n) + "\"";
    assert ReadValue(text) == Some((Str(Tabs(n)), ""));
    TextFollows(text);
  }

  lemma TextFollows(text: string)
    requires text != "" && text[0] == '"'
    ensures SkipSpaces(" " + text) == text
  {
    assert (" " + text)[1..] == text;
  }

  lemma PairAdds(path: seq<string>, lines: seq<string>, line: string, key: string, value: Toml)
    requires Sections(lines) == Some([Section(path, [])]) && ReadLine(line) == Some(Pair(key, value))
    ensures Sections(lines + [line]) == Some([Section(path, [(key, value)])])
  {
    hide ReadLine;
    var bare := Section(path, []);
    assert (lines + [line])[..|lines|] == lines;
    assert [bare][..0] == [] && bare.pairs + [(key, value)] == [(key, value)];
    assert [bare][..0] + [bare.(pairs := [(key, value)])] == [Section(path, [(key, value)])];
  }

  lemma GameReads()
    ensures ReadLine(GAME) == Some(Header(["game"]))
  {
    hide ReadLine;
    BareIs("game");
    HeaderReads(["game"]);
    assert GAME == "[" + Glue(["game"], '.') + "]";
  }

  lemma TabSectionsRead(n: nat)
    ensures Sections(Cut(TabSource(n), '\n')) == Some([Section(["game"], [(INSTALL, Str(Tabs(n)))])])
  {
    hide Tabs, Cut, Glue, ReadLine, Sections, TabLine;
    NoLineEnds(n);
    CutUndoesGlue([GAME, TabLine(n)], '\n');
    GameReads();
    NoLines();
    HeaderAdds([], ["game"], [], GAME);
    assert [] + [GAME] == [GAME] && [] + [Section(["game"], [])] == [Section(["game"], [])];
    TabLineReads(n);
    PairAdds(["game"], [GAME], TabLine(n), INSTALL, Str(Tabs(n)));
    assert [GAME] + [TabLine(n)] == [GAME, TabLine(n)];
  }

  lemma NoLines()
    ensures Sections([]) == Some([])
  {
  }

  lemma NoLineEnds(n: nat)
    ensures '\n' !in GAME && '\n' !in TabLine(n)
  {
    TabsRead(n);
  }

  lemma TabSourceReads(n: nat)
    ensures ReadDocument(TabSource(n)) == Some([("game", Table([(INSTALL, Str(Tabs(n)))]))])
  {
    hide Tabs, Sections, TabSource;
    TabSectionsRead(n);
    var game := Section(["game"], [(INSTALL, Str(Tabs(n)))]);
    assert [game][..0] == [];
    assert Nested([]) == Some([]);
    var none: seq<(string, Toml)> := [];
    assert none + [("game", Table(game.pairs))] == [("game", Table(game.pairs))];
  }

  /** The setting is one of this build's, and any text will do. */
  lemma TabsValidate(n: nat, rules: Rules)
    requires rules.admits(Dotted("game", INSTALL), Tabs(n)) && rules.joint(TabValues(n)) == []
    ensures Validate(Tables(), rules, [("game", Table([(INSTALL, Str(Tabs(n)))]))]) == Ok(TabValues(n))
  {
    hide Tabs, TableAt, KeyAt, CheckValue, Tables, Dotted;
    var document := [("game", Table([(INSTALL, Str(Tabs(n)))]))];
    var body := Table([(INSTALL, Str(Tabs(n)))]);
    GameIsFirst();
    assert CheckValue(Dotted("game", INSTALL), Str(Tabs(n)), Tables()[0].keys[2].spec, rules) == Ok(Str(Tabs(n))) by {
      InstallTakesText(n, rules);
    }
    var values := Defaults(Tables());
    assert CheckEntry(Tables(), rules, 0, INSTALL, Str(Tabs(n)), values) == (TabValues(n), []);
    assert CheckEntries(Tables(), rules, 0, body, 0, values) == (values, []);
    var none: seq<Problem> := [];
    assert none + none == none && document[..0] == [];
    assert CheckTable(Tables(), rules, 0, body, values) == (TabValues(n), []);
    assert CheckDocument(Tables(), rules, document) == (TabValues(n), []);
  }

  lemma GameIsFirst()
    ensures |Tables()| == 7 && Tables()[0].name == "game" && |Tables()[0].keys| == 4 && Tables()[0].keys[2].name == INSTALL
    ensures TableAt(Tables(), "game") == Some(0) && TableAt(Tables(), Dotted("game", INSTALL)).None?
    ensures KeyAt(Tables()[0].keys, INSTALL) == Some(2)
  {
    hide TableAt, KeyAt, Dotted;
    BareIs(INSTALL);
    KeyIsNoTable(0, INSTALL);
    ConfigTables.NamesApart();
    TablesApart();
  }

  lemma InstallTakesText(n: nat, rules: Rules)
    requires rules.admits(Dotted("game", INSTALL), Tabs(n))
    ensures CheckValue(Dotted("game", INSTALL), Str(Tabs(n)), Tables()[0].keys[2].spec, rules) == Ok(Str(Tabs(n)))
  {
    hide Dotted;
  }

  lemma {:induction false} PairsHold(keys: seq<Key>, row: seq<Option<Toml>>, j: nat)
    requires j < |row| == |keys| && row[j].Some?
    ensures PairsSize(keys, row) >= ValueSize(row[j].value)
  {
    hide ValueSize;
    if j < |row| - 1 { PairsHold(keys[..|keys| - 1], row[..|row| - 1], j); }
  }

  lemma {:induction false} TablesHold(schema: Schema, values: Values, i: nat, n: nat)
    requires Shaped(schema, values) && i < n <= |schema|
    ensures TablesSize(schema, values, n) >= PairsSize(schema[i].keys, values[i])
  {
    hide PairsSize;
    if i < n - 1 { TablesHold(schema, values, i, n - 1); }
  }

  lemma TwoLines(a: string, b: string)
    ensures Size(Glue([a, b], '\n')) == Size(a) + 1 + Size(b)
  {
    hide Size;
    OneSize('\n');
    assert [a, b][1..] == [b];
    SizeAppend(a, ['\n']);
    SizeAppend(a + ['\n'], b);
  }

  lemma TabLineSize(n: nat)
    ensures Size(TabLine(n)) == n + 16
  {
    hide Tabs, Size;
    TabsRead(n);
    AsciiSize(INSTALL);
    AsciiSize(" = ");
    AsciiSize("\"");
    SizeAppend("\"", Tabs(n));
    SizeAppend("\"" + Tabs(n), "\"");
    SizeAppend(" = ", "\"" + Tabs(n) + "\"");
    SizeAppend(INSTALL, " = " + ("\"" + Tabs(n) + "\""));
  }

  lemma TabSourceSize(n: nat)
    ensures Size(TabSource(n)) == n + 23
  {
    hide Size, TabLine, Glue;
    TabLineSize(n);
    AsciiSize(GAME);
    TwoLines(GAME, TabLine(n));
  }

  lemma TabsPrintLarge(n: nat)
    ensures TablesSize(Tables(), TabValues(n), |Tables()|) >= 2 * n + 2
  {
    hide TablesSize, PairsSize, Size, Tabs;
    TabsRead(n);
    GameIsFirst();
    PairsHold(Tables()[0].keys, TabValues(n)[0], 2);
    TablesHold(Tables(), TabValues(n), 0, |Tables()|);
  }

  /** This build's own rules have nothing against it. */
  lemma TabsAdmitted(n: nat, o: Outside)
    requires o.Sane()
    ensures OwnRules(o).admits(Dotted("game", INSTALL), Tabs(n)) && OwnRules(o).joint(TabValues(n)) == []
  {
    hide Admitted, Dotted, Tabs;
    AnyText("game", INSTALL, o);
    var values := TabValues(n);
    assert Cell(values, 2, 3) == Some(Bool(false)) && TextAt(values, 2, 0) == "F12" && TextAt(values, 3, 0) == "none";
  }

  /** A file well within the limit, holding one long setting in tabs, loads under this
      build's own rules; and the copy printed from what it loads as does not, for every
      such length. */
  lemma TabsOutgrowTheLimit(n: nat, o: Outside)
    requires MAX_CONFIG_BYTES / 2 <= n <= MAX_CONFIG_BYTES - 23 && o.Sane()
    ensures Load(Tables(), OwnRules(o), TabSource(n)) == Ok(TabValues(n))
    ensures Load(Tables(), OwnRules(o), ToToml(Tables(), TabValues(n))) == Err(TooLarge)
  {
    hide Tables, Tabs, TabSource, Size, Validate, ReadDocument, ToToml, TablesSize, SchemaOk, Ordinary, TabValues, Dotted, OwnRules;
    var document := [("game", Table([(INSTALL, Str(Tabs(n)))]))];
    TabSourceSize(n);
    TabSourceReads(n);
    TabsAdmitted(n, o);
    TabsValidate(n, OwnRules(o));
    OwnRulesOrdinary(o);
    TablesFit(OwnRules(o));
    CopyLoadsIff(Tables(), OwnRules(o), document);
    TabsPrintLarge(n);
  }
}
