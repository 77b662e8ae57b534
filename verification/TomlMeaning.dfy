/** What TOML text stands for (TOML v1.0.0). */
module TomlMeaning {
  import opened Text
  import opened Wrappers
  import opened TomlText
  import opened TomlDocument

  // ---- values ----

  predicate CodeDigit(c: char, n: int) {
    (0 <= n < 10 && c as int == 48 + n) || (10 <= n < 16 && (c as int == 87 + n || c as int == 55 + n))
  }

  /** One character of a basic string: itself, a short escape, or its code in four
      digits.  A tab may stand for itself; no other control character may. */
  predicate StandsChar(s: string, c: char) {
    || (s == [c] && c != '"' && c != '\\' && (c as int >= 32 || c as int == 9) && c as int != 127)
    || (|s| == 2 && s[0] == '\\'
        && ((s[1] == '"' && c == '"') || (s[1] == '\\' && c == '\\') || (s[1] == 'b' && c as int == 8) || (s[1] == 't' && c as int == 9)
            || (s[1] == 'n' && c as int == 10) || (s[1] == 'f' && c as int == 12) || (s[1] == 'r' && c as int == 13)))
    || (|s| == 6 && s[0] == '\\' && s[1] == 'u' && (c as int) < 0x10000
        && CodeDigit(s[2], c as int / 4096) && CodeDigit(s[3], c as int / 256 % 16)
        && CodeDigit(s[4], c as int / 16 % 16) && CodeDigit(s[5], c as int % 16))
  }

  ghost predicate StandsText(s: string, text: string)
    decreases text
  {
    if text == "" then s == ""
    else exists a, b :: s == a + b && StandsChar(a, text[0]) && StandsText(b, text[1..])
  }

  /** Digits, the first not a zero unless it is the only one. */
  predicate StandsNat(s: string, n: nat) {
    && |s| > 0 && '0' <= s[|s| - 1] <= '9' && n % 10 == s[|s| - 1] as int - 48
    && if |s| == 1 then n < 10 else n >= 10 && StandsNat(s[..|s| - 1], n / 10)
  }

  predicate Spaces(s: string) { forall c :: c in s ==> c == ' ' }

  ghost predicate Stands(s: string, v: Toml)
    decreases v, 0
  {
    match v
    case Str(text) => exists body :: s == "\"" + body + "\"" && StandsText(body, text)
    case Bool(on) => s == if on then "true" else "false"
    case Int(n) => (n >= 0 && StandsNat(s, n)) || (n <= 0 && exists digits :: s == "-" + digits && StandsNat(digits, -n))
    case Array(items) => exists body :: s == "[" + body + "]" && StandsItems(body, items)
    case Table(_) => false
  }

  /** Values with spaces around them and commas between, perhaps one more at the end. */
  ghost predicate StandsItems(s: string, items: seq<Toml>)
    decreases items
  {
    if items == [] then Spaces(s)
    else exists t :: Spaced(t, items[0])
           && ((s == t && |items| == 1) || exists more :: s == t + "," + more && StandsItems(more, items[1..]))
  }

  /** One value with spaces around it. */
  ghost predicate Spaced(s: string, v: Toml)
    decreases v, 1
  {
    exists a, t, b :: s == a + t + b && Spaces(a) && Stands(t, v) && Spaces(b)
  }

  // ---- what is read stands for its value ----

  lemma CodeDigitIs(c: char)
    ensures HexValue(c).Some? ==> CodeDigit(c, HexValue(c).value) && HexValue(c).value < 16
  {
  }

  lemma EscapeStands(s: string) returns (t: string)
    requires ReadEscape(s).Some?
    ensures s == t + ReadEscape(s).value.1 && StandsChar("\\" + t, ReadEscape(s).value.0)
  {
    var (c, rest) := ReadEscape(s).value;
    if |s| - |rest| == 5 {
      t := s[..5];
      assert "\\" + t == ['\\', s[0], s[1], s[2], s[3], s[4]];
      CodeDigitIs(s[1]);
      CodeDigitIs(s[2]);
      CodeDigitIs(s[3]);
      CodeDigitIs(s[4]);
      CodeParts(HexValue(s[1]).value, HexValue(s[2]).value, HexValue(s[3]).value, HexValue(s[4]).value, c as int);
    } else {
      t := s[..1];
      assert "\\" + t == ['\\', s[0]];
    }
  }

  lemma CodeParts(a: nat, b: nat, c: nat, d: nat, n: nat)
    requires a < 16 && b < 16 && c < 16 && d < 16 && n == ((a * 16 + b) * 16 + c) * 16 + d
    ensures n / 4096 == a && n / 256 % 16 == b && n / 16 % 16 == c && n % 16 == d
  {
  }

  lemma {:induction false} TextStands(s: string) returns (t: string)
    requires ReadBasic(s).Some?
    ensures s == t + "\"" + ReadBasic(s).value.1 && StandsText(t, ReadBasic(s).value.0)
    decreases |s|
  {
    hide ReadEscape, StandsChar, StandsText;
    var (text, rest) := ReadBasic(s).value;
    if s[0] == '"' {
      t := "";
      NoText();
    } else if s[0] == '\\' {
      var c, after := ReadEscape(s[1..]).value.0, ReadEscape(s[1..]).value.1;
      var a := EscapeStands(s[1..]);
      var b := TextStands(after);
      t := "\\" + a + b;
      assert s == "\\" + s[1..];
      Joins("\\" + a, c, b, ReadBasic(after).value.0);
    } else {
      PlainStands(s[0]);
      var b := TextStands(s[1..]);
      t := [s[0]] + b;
      assert s == [s[0]] + s[1..];
      Joins([s[0]], s[0], b, ReadBasic(s[1..]).value.0);
    }
  }

  lemma NoText()
    ensures StandsText("", "")
  {
  }

  lemma PlainStands(c: char)
    requires c != '"' && c != '\\' && (!Control(c) || c == '\t')
    ensures StandsChar([c], c)
  {
  }

  /** A character before the rest of a text. */
  lemma Joins(a: string, c: char, b: string, text: string)
    requires StandsChar(a, c) && StandsText(b, text)
    ensures StandsText(a + b, [c] + text)
  {
    hide StandsChar;
    assert ([c] + text)[1..] == text;
  }

  /** And a basic string the grammar allows is read, as what it stands for. */
  lemma {:induction false} TextIsRead(s: string, text: string, rest: string)
    requires StandsText(s, text)
    ensures ReadBasic(s + "\"" + rest) == Some((text, rest))
    decreases text
  {
    hide ReadBasic, StandsChar;
    if text == "" {
      QuoteCloses(rest);
      assert s + "\"" + rest == "\"" + rest;
    } else {
      var a, b :| s == a + b && StandsChar(a, text[0]) && StandsText(b, text[1..]);
      var tail := b + "\"" + rest;
      TextIsRead(b, text[1..], rest);
      CharIsRead(a, text[0], tail, text[1..], rest);
      assert s + "\"" + rest == a + tail && text == [text[0]] + text[1..];
    }
  }

  lemma CharIsRead(a: string, c: char, tail: string, text: string, rest: string)
    requires StandsChar(a, c) && ReadBasic(tail) == Some((text, rest))
    ensures ReadBasic(a + tail) == Some(([c] + text, rest))
  {
    hide ReadEscape, StandsChar;
    CharForms(a, c);
    var s := a + tail;
    if a[0] == '\\' {
      EscapeIsRead(a, c, tail);
    } else {
      assert s[1..] == tail;
    }
  }

  lemma CharForms(a: string, c: char)
    requires StandsChar(a, c)
    ensures a != "" && (a[0] != '\\' ==> a == [c] && c != '"' && (!Control(c) || c == '\t'))
  {
  }

  lemma EscapeIsRead(a: string, c: char, tail: string)
    requires StandsChar(a, c) && a != "" && a[0] == '\\'
    ensures ReadEscape((a + tail)[1..]) == Some((c, tail))
  {
    assert (a + tail)[1..] == a[1..] + tail;
    if |a| == 2 {
      ShortIsRead(a, c, tail);
    } else {
      hide ReadEscape;
      CodeIsRead(a[1..], c, tail);
    }
  }

  lemma ShortIsRead(a: string, c: char, tail: string)
    requires StandsChar(a, c) && |a| == 2
    ensures ReadEscape(a[1..] + tail) == Some((c, tail))
  {
    var s := a[1..] + tail;
    assert s[0] == a[1] && s[1..] == tail;
  }

  lemma CodeIsRead(a: string, c: char, tail: string)
    requires |a| == 5 && a[0] == 'u' && (c as int) < 0x10000
    requires CodeDigit(a[1], c as int / 4096) && CodeDigit(a[2], c as int / 256 % 16)
    requires CodeDigit(a[3], c as int / 16 % 16) && CodeDigit(a[4], c as int % 16)
    ensures ReadEscape(a + tail) == Some((c, tail))
  {
    hide HexValue, CodeDigit;
    var (s, n) := (a + tail, c as int);
    assert s[0] == 'u' && s[1] == a[1] && s[2] == a[2] && s[3] == a[3] && s[4] == a[4] && s[5..] == tail;
    CodeDigitReads(a[1], n / 4096);
    CodeDigitReads(a[2], n / 256 % 16);
    CodeDigitReads(a[3], n / 16 % 16);
    CodeDigitReads(a[4], n % 16);
    assert n / 16 == n / 256 * 16 + n / 16 % 16 && n / 256 == n / 4096 * 16 + n / 256 % 16;
  }

  lemma CodeDigitReads(c: char, n: int)
    requires CodeDigit(c, n)
    ensures HexValue(c) == Some(n)
  {
  }

  lemma {:induction false} RunIsDigits(s: string)
    ensures forall i :: 0 <= i < DigitRun(s) ==> IsDigit(s[i])
  {
    if s != "" && IsDigit(s[0]) {
      RunIsDigits(s[1..]);
      assert forall i :: 1 <= i < DigitRun(s) ==> s[i] == s[1..][i - 1];
    }
  }

  lemma {:induction false} NatStandsFor(digits: string)
    requires digits != "" && (forall i :: 0 <= i < |digits| ==> IsDigit(digits[i])) && (|digits| > 1 ==> digits[0] != '0')
    ensures StandsNat(digits, NatOf(digits)) && (digits[0] != '0' ==> NatOf(digits) > 0)
  {
    var earlier := digits[..|digits| - 1];
    if |digits| > 1 {
      NatStandsFor(earlier);
    } else {
      assert earlier == "";
    }
  }

  lemma NatStands(s: string) returns (t: string)
    requires ReadNat(s).Some?
    ensures s == t + ReadNat(s).value.1 && StandsNat(t, ReadNat(s).value.0)
  {
    RunIsDigits(s);
    t := s[..DigitRun(s)];
    NatStandsFor(t);
  }

  lemma {:induction false} Skipped(s: string) returns (a: string)
    ensures s == a + SkipSpaces(s) && Spaces(a)
  {
    if s != "" && s[0] == ' ' {
      var b := Skipped(s[1..]);
      a := " " + b;
      assert s == " " + s[1..];
    } else {
      a := "";
    }
  }

  /** What is read of a value is the text of it, and what is left is the rest. */
  lemma {:induction false} ReadStands(s: string) returns (t: string)
    requires ReadValue(s).Some?
    ensures s == t + ReadValue(s).value.1 && Stands(t, ReadValue(s).value.0)
    decreases |s|, 0
  {
    hide ReadBasic, ReadItems, ReadNat, StandsText, StandsItems, StandsNat, Spaced;
    var rest := ReadValue(s).value.1;
    assert s == [s[0]] + s[1..];
    if s[0] == '"' {
      var body := TextStands(s[1..]);
      t := "\"" + body + "\"";
    } else if s[0] == '[' {
      var body := ItemsStand(s[1..]);
      t := "[" + body + "]";
    } else if s[0] == '-' {
      var digits := NatStands(s[1..]);
      t := "-" + digits;
    } else if s[0] == 't' {
      t := "true";
    } else if s[0] == 'f' {
      t := "false";
    } else {
      t := NatStands(s);
    }
  }

  lemma {:induction false} ItemsStand(s: string) returns (body: string)
    requires ReadItems(s).Some?
    ensures s == body + "]" + ReadItems(s).value.1 && StandsItems(body, ReadItems(s).value.0)
    decreases |s|, 1
  {
    hide ReadValue, ReadItems, SkipSpaces, Stands, Spaces, StandsItems;
    var t := SkipSpaces(s);
    ItemsShape(s);
    var a := Skipped(s);
    if t[0] == ']' {
      assert t == "]" + t[1..];
      NoItems(a);
      body := a;
    } else {
      var v, after := ReadValue(t).value.0, ReadValue(t).value.1;
      var value := ReadStands(t);
      var b := Skipped(after);
      var u := SkipSpaces(after);
      var item := a + value + b;
      assert s == item + u && u == [u[0]] + u[1..];
      assert Spaced(item, v);
      if u[0] == ']' {
        OneItem(item, v);
        body := item;
      } else {
        var more := ItemsStand(u[1..]);
        MoreItems(item, v, more, ReadItems(u[1..]).value.0);
        body := item + "," + more;
        assert s == body + "]" + ReadItems(s).value.1;
      }
    }
  }

  /** The turns an array takes while it is read. */
  lemma ItemsShape(s: string)
    requires ReadItems(s).Some?
    ensures var t := SkipSpaces(s);
            && t != ""
            && if t[0] == ']' then ReadItems(s).value == ([], t[1..])
               else
                 && ReadValue(t).Some?
                 && var (v, after) := ReadValue(t).value; var u := SkipSpaces(after);
                    && u != ""
                    && if u[0] == ']' then ReadItems(s).value == ([v], u[1..])
                       else u[0] == ',' && ReadItems(u[1..]).Some?
                            && ReadItems(s).value == ([v] + ReadItems(u[1..]).value.0, ReadItems(u[1..]).value.1)
  {
    hide ReadValue, SkipSpaces;
  }

  lemma NoItems(s: string)
    requires Spaces(s)
    ensures StandsItems(s, [])
  {
  }

  lemma OneItem(s: string, v: Toml)
    requires Spaced(s, v)
    ensures StandsItems(s, [v])
  {
    hide Spaced;
    assert Spaced(s, [v][0]);
  }

  lemma MoreItems(s: string, v: Toml, more: string, items: seq<Toml>)
    requires Spaced(s, v) && StandsItems(more, items)
    ensures StandsItems(s + "," + more, [v] + items)
  {
    hide Spaced;
    assert ([v] + items)[1..] == items;
  }

  /** A value prints as text that stands for it. */
  lemma PrintedStands(v: Toml)
    requires Flat(v)
    ensures Stands(Printed(v), v)
  {
    hide Printed, Stands, ReadValue, Flat;
    ValueReads(v, "");
    var t := ReadStands(Printed(v) + "");
    assert Printed(v) + "" == Printed(v) && t + "" == t;
  }

  // ---- lines ----

  /** A key that needs no quotes: letters, digits, underscores and dashes. */
  predicate BareName(key: string) {
    key != "" && forall i :: 0 <= i < |key| ==>
      || 97 <= key[i] as int <= 122 || 65 <= key[i] as int <= 90 || 48 <= key[i] as int <= 57 || key[i] as int == 95 || key[i] as int == 45
  }

  lemma BareIs(key: string)
    ensures BareKey(key) <==> BareName(key)
  {
    if BareKey(key) { assert forall i :: 0 <= i < |key| ==> key[i] in key; }
  }

  lemma {:induction false} BareRunIs(s: string)
    ensures forall i :: 0 <= i < BareRun(s) ==> Bare(s[i])
  {
    if s != "" && Bare(s[0]) {
      BareRunIs(s[1..]);
      assert forall i :: 1 <= i < BareRun(s) ==> s[i] == s[1..][i - 1];
    }
  }

  /** A line that sets a key. */
  ghost predicate Sets(line: string, key: string, value: Toml) {
    BareName(key) && exists a, text :: line == key + a + "=" + text && Spaces(a) && Spaced(text, value)
  }

  /** A line is empty, a header of bare names joined by dots, or a bare name set to what
      a text stands for. */
  lemma LineStands(line: string)
    requires ReadLine(line).Some?
    ensures match ReadLine(line).value
      case Blank => line == ""
      case Header(path) => |path| >= 1 && (forall part :: part in path ==> BareName(part)) && line == "[" + Glue(path, '.') + "]"
      case Pair(key, value) => Sets(line, key, value)
  {
    hide Sets, BareName, Cut, Glue;
    if line != "" && line[0] == '[' {
      HeaderStands(line);
    } else if line != "" {
      PairStands(line);
    }
  }

  lemma HeaderStands(line: string)
    requires line != "" && line[0] == '[' && ReadLine(line).Some?
    ensures ReadLine(line).value.Header? && var path := ReadLine(line).value.path;
              |path| >= 1 && (forall part :: part in path ==> BareName(part)) && line == "[" + Glue(path, '.') + "]"
  {
    hide BareName, BareKey, Cut, Glue;
    var path := ReadLine(line).value.path;
    GlueUndoesCut(line[1..|line| - 1], '.');
    forall part | part in path
      ensures BareName(part)
    {
      BareIs(part);
    }
  }

  lemma PairStands(line: string)
    requires line != "" && line[0] != '[' && ReadLine(line).Some?
    ensures ReadLine(line).value.Pair? && Sets(line, ReadLine(line).value.key, ReadLine(line).value.value)
  {
    hide Stands, Spaces, BareName, BareRun, SkipSpaces, ReadValue, ReadLine;
    PairShape(line);
    KeyStands(line);
    var n := BareRun(line);
    var key, s := line[..n], SkipSpaces(line[n..]);
    var t := SkipSpaces(s[1..]);
    var value, rest := ReadValue(t).value.0, ReadValue(t).value.1;
    var a := Skipped(line[n..]);
    var b := Skipped(s[1..]);
    var text := ReadStands(t);
    var c := Skipped(rest);
    assert s == "=" + s[1..] && rest == c && line == key + line[n..];
    assert Spaced(b + text + c, value);
    assert line == key + a + "=" + (b + text + c);
  }

  lemma PairShape(line: string)
    requires line != "" && line[0] != '[' && ReadLine(line).Some?
    ensures var n := BareRun(line); var s := SkipSpaces(line[n..]);
            && n > 0 && s != "" && s[0] == '=' && ReadValue(SkipSpaces(s[1..])).Some?
            && var (value, rest) := ReadValue(SkipSpaces(s[1..])).value;
               SkipSpaces(rest) == "" && ReadLine(line) == Some(Pair(line[..n], value))
  {
    hide BareRun, SkipSpaces, ReadValue;
  }

  lemma KeyStands(line: string)
    requires BareRun(line) > 0
    ensures BareName(line[..BareRun(line)])
  {
    hide Bare;
    BareRunIs(line);
    BareIs(line[..BareRun(line)]);
  }

  // ---- documents ----

  ghost predicate Once(pairs: seq<(string, Toml)>) { forall i, j :: 0 <= i < j < |pairs| ==> pairs[i].0 != pairs[j].0 }

  /** No name twice in the document, in a table of it, or in a table of that. */
  ghost predicate AllOnce(document: seq<(string, Toml)>) { Once(document) && forall i :: 0 <= i < |document| ==> TableOnce(document[i].1) }

  ghost predicate TableOnce(v: Toml) {
    v.Table? ==> Once(v.entries) && forall k :: 0 <= k < |v.entries| ==> v.entries[k].1.Table? ==> Once(v.entries[k].1.entries)
  }

  ghost predicate PlainPairs(pairs: seq<(string, Toml)>) { Once(pairs) && forall i :: 0 <= i < |pairs| ==> !pairs[i].1.Table? }

  lemma {:induction false} SectionsOnce(lines: seq<string>)
    requires Sections(lines).Some?
    ensures forall s :: s in Sections(lines).value ==> PlainPairs(s.pairs)
  {
    hide ReadLine, Sets;
    if lines != [] {
      var (earlier, line) := (lines[..|lines| - 1], lines[|lines| - 1]);
      SectionsOnce(earlier);
      LineStands(line);
      if ReadLine(line).value.Pair? { NoTable(line, ReadLine(line).value.key, ReadLine(line).value.value); }
    }
  }

  lemma NoTable(line: string, key: string, value: Toml)
    requires Sets(line, key, value)
    ensures !value.Table?
  {
    hide Spaces, BareName, Stands;
    var a, text :| line == key + a + "=" + text && Spaces(a) && Spaced(text, value);
    var c, t, d :| text == c + t + d && Spaces(c) && Stands(t, value) && Spaces(d);
    TableStands(t, value);
  }

  lemma TableStands(t: string, v: Toml)
    requires Stands(t, v)
    ensures !v.Table?
  {
  }

  lemma AddOnce(document: seq<(string, Toml)>, s: Section)
    requires AllOnce(document) && PlainPairs(s.pairs) && AddSection(document, s).Some?
    ensures AllOnce(AddSection(document, s).value)
  {
  }

  lemma NoneOnce()
    ensures AllOnce([])
  {
  }

  lemma {:induction false} NestedOnce(sections: seq<Section>)
    requires Nested(sections).Some? && forall s :: s in sections ==> PlainPairs(s.pairs)
    ensures AllOnce(Nested(sections).value)
  {
    hide AddSection, AllOnce, PlainPairs;
    if sections == [] {
      NoneOnce();
    } else {
      NestedOnce(sections[..|sections| - 1]);
      AddOnce(Nested(sections[..|sections| - 1]).value, sections[|sections| - 1]);
    }
  }

  /** A document that is read names nothing twice. */
  lemma ReadNamesOnce(text: string)
    requires ReadDocument(text).Some?
    ensures AllOnce(ReadDocument(text).value)
  {
    SectionsOnce(Cut(text, '\n'));
    NestedOnce(Sections(Cut(text, '\n')).value);
  }
}
