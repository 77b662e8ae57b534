/** The manifest a build writes into its archive: an indented JSON document of the
    components and of every file that goes in, and how deep it looks to the scan. */
module ReleaseManifest {
  import opened ByteForms
  import opened Utf8
  import opened ReleaseArchive

  // ---- JSON text of strings and numbers ----

  function Hex(n: nat): byte
    requires n < 16
  {
    (if n < 10 then 48 + n else 87 + n) as byte
  }

  /** One character between quotes: by name, by code, or as its bytes. */
  function JsonChar(c: char): Bytes {
    if c == '"' then [92, 34]
    else if c == '\\' then [92, 92]
    else if c == '\n' then [92, 110]
    else if c == '\r' then [92, 114]
    else if c == '\t' then [92, 116]
    else if c == '\U{c}' then [92, 102]
    else if c == '\U{8}' then [92, 98]
    else if c < ' ' then [92, 117, 48, 48, Hex(c as int / 16), Hex(c as int % 16)]
    else Encoded(c)
  }

  function JsonBytes(text: string): Bytes {
    if text == "" then [] else JsonBytes(text[..|text| - 1]) + JsonChar(text[|text| - 1])
  }

  function Numeral(n: nat): Bytes {
    if n < 10 then [(48 + n) as byte] else Numeral(n / 10) + [(48 + n % 10) as byte]
  }

  function Quote(text: string): Json { Text(JsonBytes(text)) }

  function Number(n: nat): Json { Plain(Numeral(n)) }

  function Truth(on: bool): Json { Plain(if on then [116, 114, 117, 101] else [102, 97, 108, 115, 101]) }

  // ---- layout ----

  function Spaces(n: nat): Bytes { if n == 0 then [] else Spaces(n - 1) + [32] }

  function NewLine(level: nat): Bytes { [LF] + Spaces(2 * level) }

  /** Children one to a line, two spaces deeper than their brackets. */
  function Lines(items: seq<(string, Json)>, level: nat, i: nat): Children
    requires i <= |items|
    decreases |items| - i
  {
    if i == |items| then NoMore(if items == [] then [] else NewLine(level))
    else Child(NewLine(level + 1), JsonBytes(items[i].0), [], [32], items[i].1, [], Lines(items, level, i + 1))
  }

  function Record(items: seq<(string, Json)>, level: nat): Json { Object(Lines(items, level, 0)) }

  function Listing(items: seq<(string, Json)>, level: nat): Json { List(Lines(items, level, 0)) }

  // ---- the document ----

  datatype Part = Part(name: string, summary: string, files: nat, missing: seq<string>)

  /** What the build states beside its files. */
  datatype Release = Release(
    archive: string, release: string, product: string, protocol: string, mod: string, components: seq<Part>)

  function Names(names: seq<string>): (items: seq<(string, Json)>)
    ensures |items| == |names| && forall k :: 0 <= k < |names| ==> items[k] == ("", Quote(names[k]))
  {
    seq(|names|, k requires 0 <= k < |names| => ("", Quote(names[k])))
  }

  function PartFields(c: Part): seq<(string, Json)> {
    [("complete", Truth(c.missing == [])), ("file_count", Number(c.files)), ("missing", Listing(Names(c.missing), 4)),
     ("name", Quote(c.name)), ("summary", Quote(c.summary))]
  }

  function PartItems(components: seq<Part>): (items: seq<(string, Json)>)
    ensures |items| == |components|
    ensures forall k :: 0 <= k < |components| ==> items[k] == ("", Record(PartFields(components[k]), 3))
  {
    seq(|components|, k requires 0 <= k < |components| => ("", Record(PartFields(components[k]), 3)))
  }

  function FileFields(m: Member, digest: Digest): seq<(string, Json)> {
    [("path", Quote(m.name)), ("sha256", Quote(digest(m.data))), ("size_bytes", Number(|m.data|))]
  }

  function FileItems(entries: seq<Member>, digest: Digest): (items: seq<(string, Json)>)
    ensures |items| == |entries|
    ensures forall k :: 0 <= k < |entries| ==> items[k] == ("", Record(FileFields(entries[k], digest), 3))
  {
    seq(|entries|, k requires 0 <= k < |entries| => ("", Record(FileFields(entries[k], digest), 3)))
  }

  predicate Complete(r: Release) { forall c :: c in r.components ==> c.missing == [] }

  function Before(r: Release, files: nat): (items: seq<(string, Json)>)
    ensures |items| == 4
  {
    [("archive", Quote(r.archive)), ("complete", Truth(Complete(r))),
     ("components", Listing(PartItems(r.components), 1)), ("file_count", Number(files))]
  }

  function Behind(r: Release): (items: seq<(string, Json)>)
    ensures |items| == 6
  {
    [("format", Quote(FORMAT)), ("live_evidence_claimed", Truth(false)), ("mod_version", Quote(r.mod)),
     ("product_version", Quote(r.product)), ("protocol_version", Quote(r.protocol)), ("release_version", Quote(r.release))]
  }

  /** The keys in the order of their names. */
  function Fields(r: Release, entries: seq<Member>, digest: Digest): seq<(string, Json)> {
    Before(r, |entries|) + [("files", Listing(FileItems(entries, digest), 1))] + Behind(r)
  }

  /** The manifest's bytes, as the archive carries them. */
  function Manifest(r: Release, entries: seq<Member>, digest: Digest): Bytes {
    Printed(Record(Fields(r, entries, digest), 0)) + [LF]
  }

  // ---- brackets in names ----

  predicate Opener(c: char) { c == '[' || c == '{' }

  predicate Closer(c: char) { c == ']' || c == '}' }

  /** How many more brackets a text opens than it closes. */
  function Open(text: string): int {
    if text == "" then 0
    else
      var last := text[|text| - 1];
      Open(text[..|text| - 1]) + if Opener(last) then 1 else if Closer(last) then -1 else 0
  }

  /** The most brackets any beginning of a text leaves open. */
  function MostOpen(text: string): (most: int)
    ensures most >= 0 && most >= Open(text)
  {
    if text == "" then 0
    else
      var before := MostOpen(text[..|text| - 1]);
      if before < Open(text) then Open(text) else before
  }

  lemma {:induction false} MostOpenIs(text: string, bound: nat)
    ensures MostOpen(text) <= bound <==> forall n :: 0 <= n <= |text| ==> Open(text[..n]) <= bound
  {
    assert text[..|text|] == text;
    if text != "" {
      var rest := text[..|text| - 1];
      MostOpenIs(rest, bound);
      assert forall n :: 0 <= n < |text| ==> text[..n] == rest[..n];
    }
  }

  predicate Tame(text: string) { forall i :: 0 <= i < |text| ==> !Opener(text[i]) && !Closer(text[i]) }

  lemma JsonCharReach(c: char)
    ensures ReachOf(JsonChar(c)) == if Opener(c) then Reach(1, 1) else if Closer(c) then Reach(-1, 0) else FLAT
  {
    hide ReachOf;
    if Opener(c) || Closer(c) {
      OneByte(c as byte);
    } else {
      QuietIsFlat(JsonChar(c));
    }
  }

  /** Escapes and multi-byte characters hold no bracket, so a name counts as it reads. */
  lemma {:induction false} JsonReach(text: string)
    ensures ReachOf(JsonBytes(text)) == Reach(Open(text), MostOpen(text))
  {
    if text != "" {
      hide ReachOf, JsonChar;
      JsonReach(text[..|text| - 1]);
      JsonCharReach(text[|text| - 1]);
      Joins(JsonBytes(text[..|text| - 1]), JsonChar(text[|text| - 1]));
    }
  }

  lemma {:induction false} TameIsFlat(text: string)
    requires Tame(text)
    ensures Open(text) == 0 && MostOpen(text) == 0
  {
    if text != "" { TameIsFlat(text[..|text| - 1]); }
  }

  lemma {:induction false} OpenAppend(a: string, b: string)
    ensures Open(a + b) == Open(a) + Open(b)
    ensures MostOpen(a + b) == if MostOpen(a) < Open(a) + MostOpen(b) then Open(a) + MostOpen(b) else MostOpen(a)
  {
    if b == "" {
      assert a + b == a;
    } else {
      OpenAppend(a, b[..|b| - 1]);
      assert (a + b)[..|a + b| - 1] == a + b[..|b| - 1];
    }
  }

  /** The names of a list of files, one after another. */
  function NamesOf(entries: seq<Member>): string {
    if entries == [] then "" else entries[0].name + NamesOf(entries[1..])
  }

  // ---- how deep the manifest looks ----

  /** The reach of a row of values from the `i`th on. */
  function Total(items: seq<(string, Json)>, i: nat): Reach
    requires i <= |items|
    decreases |items| - i
  {
    if i == |items| then FLAT else Then(Shape(items[i].1), Total(items, i + 1))
  }

  ghost predicate Fit(items: seq<(string, Json)>) {
    forall k :: 0 <= k < |items| ==> Spaced(items[k].1) && Tame(items[k].0)
  }

  lemma {:induction false} LinesShape(items: seq<(string, Json)>, level: nat, i: nat, named: bool)
    requires Fit(items) && i <= |items|
    ensures AllSpaced(Lines(items, level, i)) && ShapeOf(Lines(items, level, i), named) == Total(items, i)
    decreases |items| - i
  {
    hide Shape, Spaced, ReachOf, JsonBytes, Open, MostOpen;
    NewLineBlank(level);
    NewLineBlank(level + 1);
    if i < |items| {
      LinesShape(items, level, i + 1, named);
      ShapeRises(items[i].1);
      ShapesRise(Lines(items, level, i + 1), named);
      JsonReach(items[i].0);
      TameIsFlat(items[i].0);
    }
  }

  lemma {:induction false} SpacesBlank(n: nat)
    ensures Blank(Spaces(n))
  {
    if n > 0 { SpacesBlank(n - 1); }
  }

  lemma NewLineBlank(level: nat)
    ensures Blank(NewLine(level))
  {
    SpacesBlank(2 * level);
  }

  lemma RecordShape(items: seq<(string, Json)>, level: nat)
    requires Fit(items)
    ensures Spaced(Record(items, level)) && Shape(Record(items, level)) == Bracketed(Total(items, 0))
    ensures Spaced(Listing(items, level)) && Shape(Listing(items, level)) == Bracketed(Total(items, 0))
  {
    hide ShapeOf, AllSpaced, Total;
    LinesShape(items, level, 0, true);
    LinesShape(items, level, 0, false);
  }

  lemma QuoteShape(text: string)
    ensures Spaced(Quote(text)) && Shape(Quote(text)) == Reach(Open(text), MostOpen(text))
    ensures Tame(text) ==> Shape(Quote(text)) == FLAT
  {
    hide ReachOf, JsonBytes, Open, MostOpen;
    JsonReach(text);
    if Tame(text) { TameIsFlat(text); }
  }

  lemma {:induction false} NumeralQuiet(n: nat)
    ensures NoBrackets(Numeral(n))
  {
    if n >= 10 { NumeralQuiet(n / 10); }
  }

  lemma PlainShape(n: nat, on: bool)
    ensures Spaced(Number(n)) && Shape(Number(n)) == FLAT && Spaced(Truth(on)) && Shape(Truth(on)) == FLAT
  {
    NumeralQuiet(n);
  }

  lemma FileShape(m: Member, digest: Digest)
    requires Tame(digest(m.data))
    ensures var file := Record(FileFields(m, digest), 3);
            Spaced(file) && Shape(file) == Reach(Open(m.name), 1 + MostOpen(m.name))
  {
    hide Shape, Spaced, Open, MostOpen, Fit, Total, FileFields, Record;
    FileFit(m, digest);
    RecordShape(FileFields(m, digest), 3);
    LastTotal(FileFields(m, digest), 0);
  }

  lemma FileFit(m: Member, digest: Digest)
    requires Tame(digest(m.data))
    ensures var items := FileFields(m, digest);
            && Fit(items) && items != [] && Shape(items[0].1) == Reach(Open(m.name), MostOpen(m.name))
            && forall k :: 1 <= k < |items| ==> Shape(items[k].1) == FLAT
  {
    hide Shape, Spaced, Open, MostOpen, Tame;
    FileKeysTame();
    QuoteShape(m.name);
    QuoteShape(digest(m.data));
    PlainShape(|m.data|, true);
  }

  lemma ThenFlat(r: Reach)
    requires r.high >= 0 && r.high >= r.net
    ensures Then(r, FLAT) == r
  {
  }

  lemma {:induction false} FlatTotal(items: seq<(string, Json)>, i: nat)
    requires i <= |items| && forall k :: i <= k < |items| ==> Shape(items[k].1) == FLAT
    ensures Total(items, i) == FLAT
    decreases |items| - i
  {
    hide Shape, Then;
    if i < |items| {
      FlatTotal(items, i + 1);
      ThenFlat(FLAT);
      assert Shape(items[i].1) == FLAT;
    }
  }

  /** One value with flat ones behind it. */
  lemma LastTotal(items: seq<(string, Json)>, i: nat)
    requires i < |items| && Shape(items[i].1).high >= 0 && Shape(items[i].1).high >= Shape(items[i].1).net
    requires forall k :: i < k < |items| ==> Shape(items[k].1) == FLAT
    ensures Total(items, i) == Shape(items[i].1)
  {
    hide Shape, Then;
    FlatTotal(items, i + 1);
    ThenFlat(Shape(items[i].1));
  }

  lemma FileKeysTame()
    ensures Tame("path") && Tame("sha256") && Tame("size_bytes") && Tame("")
  {
  }

  lemma PartKeysTame()
    ensures Tame("complete") && Tame("file_count") && Tame("missing") && Tame("name") && Tame("summary")
  {
  }

  lemma KeysTame()
    ensures Tame("archive") && Tame("components") && Tame("files") && Tame("format") && Tame("live_evidence_claimed")
  {
  }

  lemma VersionKeysTame()
    ensures Tame("mod_version") && Tame("product_version") && Tame("protocol_version") && Tame("release_version") && Tame(FORMAT)
  {
  }

  lemma OpenNothing()
    ensures Open("") == 0 && MostOpen("") == 0
  {
  }

  lemma {:induction false} FilesTotal(entries: seq<Member>, digest: Digest, i: nat)
    requires i <= |entries| && forall m :: m in entries ==> Tame(digest(m.data))
    ensures var names := NamesOf(entries[i..]);
            Total(FileItems(entries, digest), i) == if i == |entries| then FLAT else Reach(Open(names), 1 + MostOpen(names))
    decreases |entries| - i
  {
    hide Shape, Open, MostOpen, Tame, Record, FileFields;
    if i < |entries| {
      FilesTotal(entries, digest, i + 1);
      FileShape(entries[i], digest);
      assert entries[i..][1..] == entries[i + 1..] && entries[i..][0] == entries[i];
      OpenAppend(entries[i].name, NamesOf(entries[i + 1..]));
      OpenNothing();
    }
  }

  lemma FilesShape(entries: seq<Member>, digest: Digest)
    requires forall m :: m in entries ==> Tame(digest(m.data))
    ensures var (files, names) := (Listing(FileItems(entries, digest), 1), NamesOf(entries));
            && Spaced(files)
            && Shape(files) == Reach(Open(names), if entries == [] then 1 else 2 + MostOpen(names))
  {
    hide Shape, Spaced, Record, Listing, Total, Tame;
    FileKeysTame();
    forall k | 0 <= k < |entries|
      ensures Spaced(Record(FileFields(entries[k], digest), 3))
    {
      FileShape(entries[k], digest);
    }
    RecordShape(FileItems(entries, digest), 1);
    FilesTotal(entries, digest, 0);
    assert entries[0..] == entries;
  }

  /** A row of values that close what they open, none higher than `bound`. */
  ghost predicate Low(items: seq<(string, Json)>, bound: nat) {
    forall k :: 0 <= k < |items| ==> Shape(items[k].1).net == 0 && 0 <= Shape(items[k].1).high <= bound
  }

  lemma ThenWithin(a: Reach, b: Reach, bound: nat)
    requires a.net == b.net == 0 && 0 <= a.high <= bound && 0 <= b.high <= bound
    ensures Then(a, b).net == 0 && 0 <= Then(a, b).high <= bound
  {
  }

  lemma {:induction false} LowTotal(items: seq<(string, Json)>, bound: nat, i: nat)
    requires Low(items, bound) && i <= |items|
    ensures Total(items, i).net == 0 && 0 <= Total(items, i).high <= bound
    decreases |items| - i
  {
    hide Shape, Then;
    if i < |items| {
      LowTotal(items, bound, i + 1);
      ThenWithin(Shape(items[i].1), Total(items, i + 1), bound);
    }
  }

  ghost predicate TamePart(c: Part) {
    Tame(c.name) && Tame(c.summary) && forall name :: name in c.missing ==> Tame(name)
  }

  /** What the build says of itself holds no bracket: its components' names, summaries
      and wanted files, and its versions, are fixed texts. */
  ghost predicate TameRelease(r: Release) {
    && Tame(r.archive) && Tame(r.release) && Tame(r.product) && Tame(r.protocol) && Tame(r.mod)
    && forall c :: c in r.components ==> TamePart(c)
  }

  lemma PartShape(c: Part)
    requires TamePart(c)
    ensures var v := Record(PartFields(c), 3); Spaced(v) && Shape(v).net == 0 && 0 <= Shape(v).high <= 2
  {
    hide Shape, Spaced, Fit, Low, Total, PartFields, Record;
    PartFit(c);
    LowTotal(PartFields(c), 1, 0);
    RecordShape(PartFields(c), 3);
  }

  lemma PartFit(c: Part)
    requires TamePart(c)
    ensures Fit(PartFields(c)) && Low(PartFields(c), 1)
  {
    hide Shape, Spaced, Tame, Listing;
    MissingShape(c.missing);
    PartKeysTame();
    QuoteShape(c.name);
    QuoteShape(c.summary);
    PlainShape(c.files, c.missing == []);
  }

  lemma MissingShape(names: seq<string>)
    requires forall name :: name in names ==> Tame(name)
    ensures var v := Listing(Names(names), 4); Spaced(v) && Shape(v).net == 0 && 0 <= Shape(v).high <= 1
  {
    hide Shape, Spaced, Tame, Total;
    FileKeysTame();
    var items := Names(names);
    forall k | 0 <= k < |names|
      ensures Spaced(items[k].1) && Shape(items[k].1) == FLAT
    {
      QuoteShape(names[k]);
    }
    LowTotal(items, 0, 0);
    RecordShape(items, 4);
  }

  lemma PartsShape(components: seq<Part>)
    requires forall c :: c in components ==> TamePart(c)
    ensures var v := Listing(PartItems(components), 1); Spaced(v) && Shape(v).net == 0 && 0 <= Shape(v).high <= 3
  {
    hide Shape, Spaced, TamePart, Tame, Total, Record, PartFields;
    FileKeysTame();
    var items := PartItems(components);
    forall k | 0 <= k < |components|
      ensures Spaced(items[k].1) && Shape(items[k].1).net == 0 && 0 <= Shape(items[k].1).high <= 2
    {
      PartShape(components[k]);
    }
    LowTotal(items, 2, 0);
    RecordsList(items);
  }

  lemma RecordsList(items: seq<(string, Json)>)
    requires Fit(items)
    ensures Spaced(Listing(items, 1)) && Shape(Listing(items, 1)) == Bracketed(Total(items, 0))
  {
    RecordShape(items, 1);
  }

  const MAX_LEFT_OPEN := MAX_INDEX_DEPTH - 3

  /** The scan lets a manifest through exactly when the names of its files, read one
      after another, never leave more than seven brackets open. */
  lemma ManifestAccepted(r: Release, entries: seq<Member>, digest: Digest)
    requires TameRelease(r) && forall m :: m in entries ==> Tame(digest(m.data))
    ensures Accepts(Manifest(r, entries, digest)) <==> MostOpen(NamesOf(entries)) <= MAX_LEFT_OPEN
  {
    hide Accepts, Shape, Spaced, Fields, Tame, Blank, Printed, NamesOf;
    var v := Record(Fields(r, entries, digest), 0);
    DocumentShape(r, entries, digest);
    NamesOfNone(entries);
    BlankEnds();
    ScanMeasuresShape([], v, [LF]);
    assert [] + Printed(v) + [LF] == Manifest(r, entries, digest);
  }

  lemma NamesOfNone(entries: seq<Member>)
    ensures entries == [] ==> MostOpen(NamesOf(entries)) == 0
  {
    hide MostOpen;
    OpenNothing();
  }

  lemma BlankEnds()
    ensures Blank([]) && Blank([LF])
  {
  }

  lemma DocumentShape(r: Release, entries: seq<Member>, digest: Digest)
    requires TameRelease(r) && forall m :: m in entries ==> Tame(digest(m.data))
    ensures var v := Record(Fields(r, entries, digest), 0);
            var files := if entries == [] then 2 else 3 + MostOpen(NamesOf(entries));
            Spaced(v) && files <= Shape(v).high && (Shape(v).high <= files || Shape(v).high <= 4)
  {
    hide Shape, Spaced, NamesOf, MostOpen, Total, TameRelease, Tame, Fields, Record, Fit;
    DocumentFit(r, entries, digest);
    var items := Fields(r, entries, digest);
    RecordShape(items, 0);
    FilesLead(items, 0);
  }

  lemma DocumentFit(r: Release, entries: seq<Member>, digest: Digest)
    requires TameRelease(r) && forall m :: m in entries ==> Tame(digest(m.data))
    ensures var items := Fields(r, entries, digest);
            && |items| == 11 && Fit(items) && Shape(items[4].1).high >= Shape(items[4].1).net
            && Shape(items[4].1).high == (if entries == [] then 1 else 2 + MostOpen(NamesOf(entries)))
            && (forall k :: 0 <= k < 4 ==> Shape(items[k].1).net == 0 && 0 <= Shape(items[k].1).high <= 3)
            && forall k :: 4 < k < 11 ==> Shape(items[k].1) == FLAT
  {
    hide Shape, Spaced, Tame, NamesOf, Open, MostOpen, Listing, Before, Behind, TameRelease;
    KeysTame();
    BeforeFit(r, |entries|);
    BehindFit(r);
    FilesShape(entries, digest);
    ShapeRises(Listing(FileItems(entries, digest), 1));
    var items := Fields(r, entries, digest);
    assert forall k :: 0 <= k < 4 ==> items[k] == Before(r, |entries|)[k];
    assert forall k :: 4 < k < 11 ==> items[k] == Behind(r)[k - 5];
  }

  lemma BeforeFit(r: Release, files: nat)
    requires TameRelease(r)
    ensures Fit(Before(r, files)) && Low(Before(r, files), 3)
  {
    hide Shape, Spaced, Tame, Listing, Complete, TamePart;
    KeysTame();
    PartKeysTame();
    QuoteShape(r.archive);
    PlainShape(files, Complete(r));
    PartsShape(r.components);
  }

  lemma BehindFit(r: Release)
    requires TameRelease(r)
    ensures Fit(Behind(r)) && forall k :: 0 <= k < 6 ==> Shape(Behind(r)[k].1) == FLAT
  {
    hide Shape, Spaced, Tame, FORMAT, TamePart;
    KeysTame();
    VersionKeysTame();
    QuoteShape(FORMAT);
    QuoteShape(r.mod);
    QuoteShape(r.product);
    QuoteShape(r.protocol);
    QuoteShape(r.release);
    PlainShape(0, false);
  }

  /** In a row with flat values behind the fifth, and low ones before it, the fifth
      stands out. */
  lemma {:induction false} FilesLead(items: seq<(string, Json)>, i: nat)
    requires |items| == 11 && i <= 4
    requires Shape(items[4].1).high >= 1 && Shape(items[4].1).high >= Shape(items[4].1).net
    requires forall k :: 0 <= k < 4 ==> Shape(items[k].1).net == 0 && 0 <= Shape(items[k].1).high <= 3
    requires forall k :: 4 < k < 11 ==> Shape(items[k].1) == FLAT
    ensures Leads(Total(items, i).high, Shape(items[4].1).high)
    decreases 4 - i
  {
    hide Shape, Then;
    if i == 4 {
      LastTotal(items, 4);
    } else {
      FilesLead(items, i + 1);
      ThenLow(Shape(items[i].1), Total(items, i + 1), Shape(items[4].1).high);
    }
  }

  /** As high as the leader, unless no higher than the components come. */
  predicate Leads(high: int, leader: int) { leader <= high && (high <= leader || high <= 3) }

  lemma ThenLow(low: Reach, rest: Reach, leader: int)
    requires low.net == 0 && 0 <= low.high <= 3 && Leads(rest.high, leader)
    ensures Leads(Then(low, rest).high, leader)
  {
  }
}
