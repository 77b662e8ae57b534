/** A configuration file as lines of TOML v1.0.0 (section "Table"): headers and keys,
    and the nested table they make. */
module TomlDocument {
  import opened Text
  import opened Wrappers
  import opened TomlText

  /** A header's dotted path with the pairs beneath it. */
  datatype Section = Section(path: seq<string>, pairs: seq<(string, Toml)>)

  predicate Bare(c: char) {
    ('a' <= c <= 'z') || ('A' <= c <= 'Z') || ('0' <= c <= '9') || c == '_' || c == '-'
  }

  predicate BareKey(key: string) { key != "" && forall c :: c in key ==> Bare(c) }

  // ---- printing ----

  function PairLine(pair: (string, Toml)): string { pair.0 + " = " + Printed(pair.1) }

  function PairLines(pairs: seq<(string, Toml)>): seq<string> {
    seq(|pairs|, i requires 0 <= i < |pairs| => PairLine(pairs[i]))
  }

  function SectionLines(s: Section): seq<string>
    requires |s.path| >= 1
  {
    ["[" + Glue(s.path, '.') + "]"] + PairLines(s.pairs) + [""]
  }

  function AllLines(sections: seq<Section>): seq<string>
    requires forall s :: s in sections ==> |s.path| >= 1
  {
    if sections == [] then [] else AllLines(sections[..|sections| - 1]) + SectionLines(sections[|sections| - 1])
  }

  // ---- reading ----

  datatype Line = Blank | Header(path: seq<string>) | Pair(key: string, value: Toml)

  function BareRun(s: string): (n: nat)
    ensures n <= |s|
  {
    if s == "" || !Bare(s[0]) then 0 else 1 + BareRun(s[1..])
  }

  function ReadLine(line: string): Option<Line> {
    if line == "" then Some(Blank)
    else if line[0] == '[' then
      if |line| < 2 || line[|line| - 1] != ']' then None
      else
        var path := Cut(line[1..|line| - 1], '.');
        if exists part :: part in path && !BareKey(part) then None else Some(Header(path))
    else
      var n := BareRun(line);
      var s := SkipSpaces(line[n..]);
      if n == 0 || s == "" || s[0] != '=' then None
      else
        var value := ReadValue(SkipSpaces(s[1..]));
        if value.None? || SkipSpaces(value.value.1) != "" then None else Some(Pair(line[..n], value.value.0))
  }

  predicate HasKey(pairs: seq<(string, Toml)>, key: string) { exists i :: 0 <= i < |pairs| && pairs[i].0 == key }

  /** One more line under the sections read so far.  A header twice, a key twice and a
      key before any header are refused. */
  function AddLine(sections: seq<Section>, line: Line): Option<seq<Section>> {
    match line
    case Blank => Some(sections)
    case Header(path) =>
      if exists s :: s in sections && s.path == path then None else Some(sections + [Section(path, [])])
    case Pair(key, value) =>
      if sections == [] || HasKey(sections[|sections| - 1].pairs, key) then None
      else
        var last := sections[|sections| - 1];
        Some(sections[..|sections| - 1] + [last.(pairs := last.pairs + [(key, value)])])
  }

  function Sections(lines: seq<string>): Option<seq<Section>> {
    if lines == [] then Some([])
    else
      var earlier := Sections(lines[..|lines| - 1]);
      var line := ReadLine(lines[|lines| - 1]);
      if earlier.None? || line.None? then None else AddLine(earlier.value, line.value)
  }

  function IndexOf(pairs: seq<(string, Toml)>, key: string): (i: Option<nat>)
    ensures i.Some? ==> i.value < |pairs| && pairs[i.value].0 == key
    ensures i.None? ==> forall k :: 0 <= k < |pairs| ==> pairs[k].0 != key
  {
    if pairs == [] then None
    else if pairs[|pairs| - 1].0 == key then Some(|pairs| - 1)
    else IndexOf(pairs[..|pairs| - 1], key)
  }

  /** One more section in the document: a table of its own, or one inside another. */
  function AddSection(document: seq<(string, Toml)>, s: Section): Option<seq<(string, Toml)>> {
    if |s.path| == 1 then
      if HasKey(document, s.path[0]) then None else Some(document + [(s.path[0], Table(s.pairs))])
    else if |s.path| == 2 then
      var i := IndexOf(document, s.path[0]);
      if i.None? then Some(document + [(s.path[0], Table([(s.path[1], Table(s.pairs))]))])
      else
        var outer := document[i.value].1;
        if !outer.Table? || HasKey(outer.entries, s.path[1]) then None
        else Some(document[i.value := (s.path[0], Table(outer.entries + [(s.path[1], Table(s.pairs))]))])
    else None
  }

  function Nested(sections: seq<Section>): Option<seq<(string, Toml)>> {
    if sections == [] then Some([])
    else
      var earlier := Nested(sections[..|sections| - 1]);
      if earlier.None? then None else AddSection(earlier.value, sections[|sections| - 1])
  }

  function ReadDocument(text: string): Option<seq<(string, Toml)>> {
    var sections := Sections(Cut(text, '\n'));
    if sections.None? then None else Nested(sections.value)
  }

  // ---- what is printed reads back ----

  predicate GoodPairs(pairs: seq<(string, Toml)>) {
    && (forall i :: 0 <= i < |pairs| ==> BareKey(pairs[i].0) && Flat(pairs[i].1))
    && forall i, j :: 0 <= i < j < |pairs| ==> pairs[i].0 != pairs[j].0
  }

  predicate GoodSection(s: Section) {
    |s.path| >= 1 && (forall part :: part in s.path ==> BareKey(part)) && GoodPairs(s.pairs)
  }

  predicate GoodSections(sections: seq<Section>) {
    && (forall i :: 0 <= i < |sections| ==> GoodSection(sections[i]))
    && forall i, j :: 0 <= i < j < |sections| ==> sections[i].path != sections[j].path
  }

  lemma {:induction false} BareRunEnds(key: string, rest: string)
    requires (forall c :: c in key ==> Bare(c)) && rest != "" && !Bare(rest[0])
    ensures BareRun(key + rest) == |key|
  {
    if key != "" {
      assert (key + rest)[1..] == key[1..] + rest;
      BareRunEnds(key[1..], rest);
    } else {
      assert key + rest == rest;
    }
  }

  lemma PairReads(pair: (string, Toml))
    requires BareKey(pair.0) && Flat(pair.1)
    ensures ReadLine(PairLine(pair)) == Some(Pair(pair.0, pair.1))
  {
    hide ReadValue, Printed, BareRun, Flat;
    var (key, value) := pair;
    var line, tail := PairLine(pair), " = " + Printed(value);
    assert line == key + tail;
    BareRunEnds(key, tail);
    assert line[..|key|] == key && line[|key|..] == tail;
    EqualsReads(Printed(value));
    ValueReads(value, "");
    assert Printed(value) + "" == Printed(value);
    PrintedStarts(value);
    assert Bare(line[0]) by { assert key[0] in key && line[0] == key[0]; }
  }

  lemma EqualsReads(text: string)
    ensures SkipSpaces(" = " + text) == "= " + text && ("= " + text)[1..] == " " + text
  {
    assert (" = " + text)[1..] == "= " + text;
  }

  lemma PrintedStarts(v: Toml)
    requires Flat(v)
    ensures Printed(v) != "" && Printed(v)[0] != ' ' && SkipSpaces(" " + Printed(v)) == Printed(v)
  {
    if !v.Array? { ScalarReads(v, ""); }
    assert (" " + Printed(v))[1..] == Printed(v);
  }

  lemma HeaderReads(path: seq<string>)
    requires |path| >= 1 && forall part :: part in path ==> BareKey(part)
    ensures ReadLine("[" + Glue(path, '.') + "]") == Some(Header(path))
  {
    var line := "[" + Glue(path, '.') + "]";
    assert line[1..|line| - 1] == Glue(path, '.');
    forall part | part in path
      ensures '.' !in part
    {
      assert BareKey(part);
    }
    CutUndoesGlue(path, '.');
  }

  // ---- whole files ----

  lemma AddPairs(before: seq<Section>, path: seq<string>, pairs: seq<(string, Toml)>, lines: seq<string>, n: nat)
    requires GoodPairs(pairs) && n <= |pairs|
    requires Sections(lines) == Some(before + [Section(path, [])])
    ensures Sections(lines + PairLines(pairs)[..n]) == Some(before + [Section(path, pairs[..n])])
  {
    hide ReadLine, PairLine;
    if n == 0 {
      assert lines + PairLines(pairs)[..0] == lines;
    } else {
      AddPairs(before, path, pairs, lines, n - 1);
      var all := lines + PairLines(pairs)[..n];
      assert all[..|all| - 1] == lines + PairLines(pairs)[..n - 1];
      assert all[|all| - 1] == PairLine(pairs[n - 1]);
      PairReads(pairs[n - 1]);
      var sections := before + [Section(path, pairs[..n - 1])];
      assert !HasKey(pairs[..n - 1], pairs[n - 1].0);
      assert pairs[..n] == pairs[..n - 1] + [pairs[n - 1]];
      assert sections[..|sections| - 1] == before;
    }
  }

  lemma AddPrinted(before: seq<Section>, s: Section, lines: seq<string>)
    requires GoodSection(s) && Sections(lines) == Some(before) && forall other :: other in before ==> other.path != s.path
    ensures Sections(lines + SectionLines(s)) == Some(before + [s])
  {
    hide ReadLine, GoodPairs, Sections;
    var header := "[" + Glue(s.path, '.') + "]";
    HeaderReads(s.path);
    HeaderAdds(before, s.path, lines, header);
    AddPairs(before, s.path, s.pairs, lines + [header], |s.pairs|);
    assert PairLines(s.pairs)[..|s.pairs|] == PairLines(s.pairs) && s.pairs[..|s.pairs|] == s.pairs;
    var body := lines + [header] + PairLines(s.pairs);
    assert lines + SectionLines(s) == body + [""];
    BlankAdds(before + [s], body);
  }

  lemma HeaderAdds(before: seq<Section>, path: seq<string>, lines: seq<string>, header: string)
    requires Sections(lines) == Some(before) && ReadLine(header) == Some(Header(path))
    requires forall other :: other in before ==> other.path != path
    ensures Sections(lines + [header]) == Some(before + [Section(path, [])])
  {
    hide ReadLine;
    assert (lines + [header])[..|lines|] == lines;
  }

  lemma BlankAdds(sections: seq<Section>, lines: seq<string>)
    requires Sections(lines) == Some(sections)
    ensures Sections(lines + [""]) == Some(sections)
  {
    assert (lines + [""])[..|lines|] == lines;
    BlankReads();
  }

  lemma BlankReads()
    ensures ReadLine("") == Some(Blank)
  {
  }

  lemma {:induction false} LinesRead(sections: seq<Section>)
    requires GoodSections(sections)
    ensures Sections(AllLines(sections)) == Some(sections)
  {
    hide ReadLine, SectionLines;
    if sections != [] {
      var earlier, last := sections[..|sections| - 1], sections[|sections| - 1];
      LinesRead(earlier);
      AddPrinted(earlier, last, AllLines(earlier));
      assert sections == earlier + [last];
    }
  }

  predicate OneLine(line: string) { '\n' !in line }

  lemma PrintedOneLine(v: Toml)
    requires Flat(v)
    ensures OneLine(Printed(v))
  {
    if v.Array? { ItemsOneLine(v.items); } else { ScalarOneLine(v); }
  }

  lemma ScalarOneLine(v: Toml)
    requires Scalar(v)
    ensures OneLine(Printed(v))
  {
    match v {
      case Str(text) => EscapedHasNoControl(text);
      case Int(value) => DecimalReads(if value < 0 then -value else value);
      case Bool(_) =>
    }
  }

  lemma {:induction false} ItemsOneLine(items: seq<Toml>)
    requires forall item :: item in items ==> Scalar(item)
    ensures OneLine(PrintedItems(items))
  {
    hide Printed;
    if items != [] {
      ScalarOneLine(items[0]);
      ItemsOneLine(items[1..]);
    }
  }

  lemma {:induction false} GlueOneLine(path: seq<string>)
    requires |path| >= 1 && forall part :: part in path ==> BareKey(part)
    ensures OneLine(Glue(path, '.'))
  {
    assert path[0] in path;
    if |path| > 1 { GlueOneLine(path[1..]); }
  }

  lemma {:induction false} AllOneLine(sections: seq<Section>)
    requires GoodSections(sections)
    ensures forall line :: line in AllLines(sections) ==> OneLine(line)
  {
    if sections != [] {
      AllOneLine(sections[..|sections| - 1]);
      SectionOneLine(sections[|sections| - 1]);
    }
  }

  lemma SectionOneLine(s: Section)
    requires GoodSection(s)
    ensures forall line :: line in SectionLines(s) ==> OneLine(line)
  {
    GlueOneLine(s.path);
    forall i | 0 <= i < |s.pairs|
      ensures OneLine(PairLine(s.pairs[i]))
    {
      PrintedOneLine(s.pairs[i].1);
    }
  }

  /** A printed file reads back as the sections it was printed from. */
  lemma FileReads(sections: seq<Section>)
    requires GoodSections(sections) && sections != []
    ensures Sections(Cut(Glue(AllLines(sections), '\n'), '\n')) == Some(sections)
  {
    AllOneLine(sections);
    LinesRead(sections);
    CutUndoesGlue(AllLines(sections), '\n');
  }
}
