/** What a JSON reader, and then the verifier, makes of the manifest. */
module ReleaseReading {
  import opened Wrappers
  import opened ByteForms
  import opened JsonMeaning
  import opened ReleaseArchive
  import opened ReleaseManifest
  import opened ReleaseBuild

  // ---- reading an index out of a document ----

  /** What a key holds: its last value, as a dictionary keeps it. */
  function Get(fields: seq<(string, Value)>, key: string): Option<Value> {
    if fields == [] then None
    else if fields[|fields| - 1].0 == key then Some(fields[|fields| - 1].1)
    else Get(fields[..|fields| - 1], key)
  }

  function AsTextField(v: Option<Value>, show: Value -> string): TextField {
    match v
    case None => NoText
    case Some(Words(text)) => Written(text)
    case Some(other) => Shown(show(other))
  }

  function AsSize(v: Option<Value>): SizeField {
    match v
    case Some(Whole(n)) => SizeField.Whole(n)
    case Some(Flag(on)) => Alike(if on then 1 else 0)
    case _ => NoSize
  }

  function AsEntry(v: Value, show: Value -> string): RawEntry {
    if v.Dict? then
      RawEntry.Fields(AsTextField(Get(v.fields, "path"), show), AsTextField(Get(v.fields, "sha256"), show),
                      AsSize(Get(v.fields, "size_bytes")))
    else NotAnObject
  }

  function AsEntries(values: seq<Value>, show: Value -> string): (entries: seq<RawEntry>)
    ensures |entries| == |values| && forall k :: 0 <= k < |values| ==> entries[k] == AsEntry(values[k], show)
  {
    seq(|values|, k requires 0 <= k < |values| => AsEntry(values[k], show))
  }

  /** The reader of an index: its format, if that is text, and its list of files, if it
      is a list.  `show` is how a value that is no text reads as text. */
  function Reading(load: Loader, show: Value -> string): Reader {
    raw =>
      match load(raw)
      case Some(Dict(fields)) =>
        Some(Index(match Get(fields, "format") case Some(Words(text)) => text case _ => "",
                   match Get(fields, "files") case Some(Array(items)) => Some(AsEntries(items, show)) case _ => None))
      case _ => None
  }

  // ---- what is written reads back ----

  lemma SpellsChar(c: char)
    ensures SpellsOne(JsonChar(c), c)
  {
  }

  lemma {:induction false} SpellsMore(bytes: Bytes, text: string, more: Bytes, c: char)
    requires Spells(bytes, text) && SpellsOne(more, c)
    ensures Spells(bytes + more, text + [c])
    decreases text
  {
    hide SpellsOne;
    if text == "" {
      assert bytes + more == more && more[..|more|] == more && more[|more|..] == [] && (text + [c])[1..] == "";
    } else {
      var n :| 0 <= n <= |bytes| && SpellsOne(bytes[..n], text[0]) && Spells(bytes[n..], text[1..]);
      SpellsMore(bytes[n..], text[1..], more, c);
      assert (bytes + more)[..n] == bytes[..n] && (bytes + more)[n..] == bytes[n..] + more;
      assert (text + [c])[1..] == text[1..] + [c];
    }
  }

  lemma {:induction false} SpellsText(text: string)
    ensures Spells(JsonBytes(text), text)
  {
    if text != "" {
      var (rest, last) := (text[..|text| - 1], text[|text| - 1]);
      SpellsText(rest);
      SpellsChar(last);
      SpellsMore(JsonBytes(rest), rest, JsonChar(last), last);
      assert rest + [last] == text;
    }
  }

  lemma {:induction false} CountsNumeral(n: nat)
    ensures Counts(Numeral(n), n)
  {
    if n >= 10 {
      CountsNumeral(n / 10);
      assert Numeral(n)[..|Numeral(n)| - 1] == Numeral(n / 10);
    }
  }

  /** The values, and the names of the fields, that a row of children stands for. */
  ghost predicate Stand(items: seq<(string, Json)>, values: seq<(string, Value)>) {
    |items| == |values| && forall k :: 0 <= k < |items| ==> items[k].0 == values[k].0 && Denotes(items[k].1, values[k].1)
  }

  lemma {:induction false} LinesDenote(items: seq<(string, Json)>, values: seq<(string, Value)>, named: bool, level: nat, i: nat)
    requires |items| == |values| && i <= |items|
    requires forall k :: 0 <= k < |items| ==> values[k].0 == (if named then items[k].0 else "") && Denotes(items[k].1, values[k].1)
    ensures DenotesRow(Lines(items, level, i), named, values[i..])
    decreases |items| - i
  {
    hide Denotes, Spells, JsonBytes;
    NewLineBlank(level);
    NewLineBlank(level + 1);
    if i < |items| {
      LinesDenote(items, values, named, level, i + 1);
      SpellsText(items[i].0);
      assert values[i..][0] == values[i] && values[i..][1..] == values[i + 1..];
    }
  }

  lemma RecordDenotes(items: seq<(string, Json)>, values: seq<(string, Value)>, level: nat)
    requires Stand(items, values)
    ensures Denotes(Record(items, level), Dict(values))
  {
    LinesDenote(items, values, true, level, 0);
    assert values[0..] == values;
  }

  lemma ListingDenotes(items: seq<(string, Json)>, values: seq<Value>, level: nat)
    requires |items| == |values| && forall k :: 0 <= k < |items| ==> Denotes(items[k].1, values[k])
    ensures Denotes(Listing(items, level), Array(values))
  {
    LinesDenote(items, Unnamed(values), false, level, 0);
    assert Unnamed(values)[0..] == Unnamed(values);
  }

  lemma TokensDenote(text: string, n: nat, on: bool)
    ensures Denotes(Quote(text), Words(text)) && Denotes(Number(n), Value.Whole(n)) && Denotes(Truth(on), Flag(on))
  {
    hide Spells, Counts, JsonBytes, Numeral;
    SpellsText(text);
    CountsNumeral(n);
  }

  // ---- what the manifest says ----

  function FileValue(m: Member, digest: Digest): seq<(string, Value)> {
    [("path", Words(m.name)), ("sha256", Words(digest(m.data))), ("size_bytes", Value.Whole(|m.data|))]
  }

  function Texts(names: seq<string>): (values: seq<Value>)
    ensures |values| == |names| && forall k :: 0 <= k < |names| ==> values[k] == Words(names[k])
  {
    seq(|names|, k requires 0 <= k < |names| => Words(names[k]))
  }

  function PartValue(c: Part): seq<(string, Value)> {
    [("complete", Flag(c.missing == [])), ("file_count", Value.Whole(c.files)), ("missing", Array(Texts(c.missing))),
     ("name", Words(c.name)), ("summary", Words(c.summary))]
  }

  function FileValues(entries: seq<Member>, digest: Digest): (values: seq<Value>)
    ensures |values| == |entries| && forall k :: 0 <= k < |entries| ==> values[k] == Dict(FileValue(entries[k], digest))
  {
    seq(|entries|, k requires 0 <= k < |entries| => Dict(FileValue(entries[k], digest)))
  }

  function PartValues(components: seq<Part>): (values: seq<Value>)
    ensures |values| == |components| && forall k :: 0 <= k < |components| ==> values[k] == Dict(PartValue(components[k]))
  {
    seq(|components|, k requires 0 <= k < |components| => Dict(PartValue(components[k])))
  }

  function DocumentValue(r: Release, entries: seq<Member>, digest: Digest): seq<(string, Value)> {
    [("archive", Words(r.archive)), ("complete", Flag(Complete(r))), ("components", Array(PartValues(r.components))),
     ("file_count", Value.Whole(|entries|)), ("files", Array(FileValues(entries, digest))), ("format", Words(FORMAT)),
     ("live_evidence_claimed", Flag(false)), ("mod_version", Words(r.mod)), ("product_version", Words(r.product)),
     ("protocol_version", Words(r.protocol)), ("release_version", Words(r.release))]
  }

  lemma FileDenotes(m: Member, digest: Digest)
    ensures Denotes(Record(FileFields(m, digest), 3), Dict(FileValue(m, digest)))
  {
    hide Denotes, Record, Quote, Number;
    TokensDenote(m.name, |m.data|, true);
    TokensDenote(digest(m.data), 0, true);
    RecordDenotes(FileFields(m, digest), FileValue(m, digest), 3);
  }

  lemma PartDenotes(c: Part)
    ensures Denotes(Record(PartFields(c), 3), Dict(PartValue(c)))
  {
    hide Denotes, Record, Listing, Quote, Number, Truth;
    TokensDenote(c.name, c.files, c.missing == []);
    TokensDenote(c.summary, 0, true);
    forall k | 0 <= k < |c.missing|
      ensures Denotes(Names(c.missing)[k].1, Texts(c.missing)[k])
    {
      TokensDenote(c.missing[k], 0, true);
    }
    ListingDenotes(Names(c.missing), Texts(c.missing), 4);
    RecordDenotes(PartFields(c), PartValue(c), 3);
  }

  lemma ListsDenote(r: Release, entries: seq<Member>, digest: Digest)
    ensures Denotes(Listing(PartItems(r.components), 1), Array(PartValues(r.components)))
    ensures Denotes(Listing(FileItems(entries, digest), 1), Array(FileValues(entries, digest)))
  {
    hide Denotes, Record, Listing, FileFields, PartFields, FileValue, PartValue;
    forall k | 0 <= k < |entries|
      ensures Denotes(FileItems(entries, digest)[k].1, FileValues(entries, digest)[k])
    {
      FileDenotes(entries[k], digest);
    }
    forall k | 0 <= k < |r.components|
      ensures Denotes(PartItems(r.components)[k].1, PartValues(r.components)[k])
    {
      PartDenotes(r.components[k]);
    }
    ListingDenotes(FileItems(entries, digest), FileValues(entries, digest), 1);
    ListingDenotes(PartItems(r.components), PartValues(r.components), 1);
  }

  lemma DocumentDenotes(r: Release, entries: seq<Member>, digest: Digest)
    ensures Denotes(Record(ReleaseManifest.Fields(r, entries, digest), 0), Dict(DocumentValue(r, entries, digest)))
  {
    hide Denotes, Record, Listing, Quote, Number, Truth, Complete, FileItems, PartItems, FileValues, PartValues;
    ListsDenote(r, entries, digest);
    TokensDenote(r.archive, |entries|, Complete(r));
    TokensDenote(FORMAT, 0, false);
    TokensDenote(r.mod, 0, false);
    TokensDenote(r.product, 0, false);
    TokensDenote(r.protocol, 0, false);
    TokensDenote(r.release, 0, false);
    RecordDenotes(ReleaseManifest.Fields(r, entries, digest), DocumentValue(r, entries, digest), 0);
  }

  lemma {:induction false} GetAt(fields: seq<(string, Value)>, k: nat)
    requires k < |fields| && forall j :: k < j < |fields| ==> fields[j].0 != fields[k].0
    ensures Get(fields, fields[k].0) == Some(fields[k].1)
  {
    if k < |fields| - 1 { GetAt(fields[..|fields| - 1], k); }
  }

  /** A file's entry: its name, its digest and its size. */
  ghost predicate EntrySays(v: Value, m: Member, digest: Digest) {
    && v.Dict? && Get(v.fields, "path") == Some(Words(m.name)) && Get(v.fields, "sha256") == Some(Words(digest(m.data)))
    && Get(v.fields, "size_bytes") == Some(Value.Whole(|m.data|))
  }

  /** A component's: complete exactly when nothing of it is missing. */
  ghost predicate PartSays(v: Value, c: Part) {
    && v.Dict? && Get(v.fields, "name") == Some(Words(c.name)) && Get(v.fields, "summary") == Some(Words(c.summary))
    && Get(v.fields, "file_count") == Some(Value.Whole(c.files)) && Get(v.fields, "complete") == Some(Flag(|c.missing| == 0))
    && exists missing :: Get(v.fields, "missing") == Some(Array(missing)) && |missing| == |c.missing|
                         && forall k :: 0 <= k < |c.missing| ==> missing[k] == Words(c.missing[k])
  }

  /** The document says which files the archive holds and what each is, which components
      it was built of, that it is complete exactly when none misses anything, and claims
      nothing was seen in the game. */
  ghost predicate Says(v: Value, r: Release, entries: seq<Member>, digest: Digest) {
    && v.Dict? && Get(v.fields, "format") == Some(Words(FORMAT)) && Get(v.fields, "archive") == Some(Words(r.archive))
    && Get(v.fields, "release_version") == Some(Words(r.release)) && Get(v.fields, "product_version") == Some(Words(r.product))
    && Get(v.fields, "protocol_version") == Some(Words(r.protocol)) && Get(v.fields, "mod_version") == Some(Words(r.mod))
    && Get(v.fields, "live_evidence_claimed") == Some(Flag(false)) && Get(v.fields, "file_count") == Some(Value.Whole(|entries|))
    && (exists on :: Get(v.fields, "complete") == Some(Flag(on))
                     && (on <==> forall k :: 0 <= k < |r.components| ==> |r.components[k].missing| == 0))
    && (exists files :: Get(v.fields, "files") == Some(Array(files)) && |files| == |entries|
                        && forall k :: 0 <= k < |entries| ==> EntrySays(files[k], entries[k], digest))
    && exists parts :: Get(v.fields, "components") == Some(Array(parts)) && |parts| == |r.components|
                       && forall k :: 0 <= k < |r.components| ==> PartSays(parts[k], r.components[k])
  }

  lemma FileSays(m: Member, digest: Digest)
    ensures EntrySays(Dict(FileValue(m, digest)), m, digest)
  {
    hide Get;
    var fields := FileValue(m, digest);
    GetAt(fields, 0);
    GetAt(fields, 1);
    GetAt(fields, 2);
  }

  lemma ComponentSays(c: Part)
    ensures PartSays(Dict(PartValue(c)), c)
  {
    hide Get;
    var fields := PartValue(c);
    assert fields[3].0[0] == 'n' && fields[4].0[0] == 's' && fields[2].0[0] == 'm' && fields[1].0[0] == 'f' && fields[0].0[0] == 'c';
    GetAt(fields, 0);
    GetAt(fields, 1);
    GetAt(fields, 2);
    GetAt(fields, 3);
    GetAt(fields, 4);
    assert Get(fields, "missing") == Some(Array(Texts(c.missing)));
  }

  lemma KeysApart(r: Release, entries: seq<Member>, digest: Digest)
    ensures var fields := DocumentValue(r, entries, digest);
            forall j, k :: 0 <= j < k < |fields| ==> fields[j].0 != fields[k].0
  {
    var fields := DocumentValue(r, entries, digest);
    assert fields[0].0[0] == 'a' && fields[1].0[0] == 'c' && fields[2].0[0] == 'c' && fields[3].0[0] == 'f';
    assert fields[4].0[0] == 'f' && fields[5].0[0] == 'f' && fields[6].0[0] == 'l' && fields[7].0[0] == 'm';
    assert fields[8].0[0] == 'p' && fields[9].0[0] == 'p' && fields[10].0[0] == 'r';
  }

  lemma DocumentSays(r: Release, entries: seq<Member>, digest: Digest)
    ensures Says(Dict(DocumentValue(r, entries, digest)), r, entries, digest)
  {
    hide Get, EntrySays, PartSays, FileValue, PartValue, Complete;
    var fields := DocumentValue(r, entries, digest);
    KeysApart(r, entries, digest);
    GetAt(fields, 0);
    GetAt(fields, 1);
    GetAt(fields, 2);
    GetAt(fields, 3);
    GetAt(fields, 4);
    GetAt(fields, 5);
    GetAt(fields, 6);
    GetAt(fields, 7);
    GetAt(fields, 8);
    GetAt(fields, 9);
    GetAt(fields, 10);
    CompleteIs(r);
    assert Get(fields, "complete") == Some(Flag(Complete(r)));
    assert Get(fields, "files") == Some(Array(FileValues(entries, digest)));
    assert Get(fields, "components") == Some(Array(PartValues(r.components)));
    forall k | 0 <= k < |entries|
      ensures EntrySays(FileValues(entries, digest)[k], entries[k], digest)
    {
      FileSays(entries[k], digest);
    }
    forall k | 0 <= k < |r.components|
      ensures PartSays(PartValues(r.components)[k], r.components[k])
    {
      ComponentSays(r.components[k]);
    }
  }

  lemma CompleteIs(r: Release)
    ensures Complete(r) <==> forall k :: 0 <= k < |r.components| ==> |r.components[k].missing| == 0
  {
    if Complete(r) { assert forall k :: 0 <= k < |r.components| ==> r.components[k] in r.components; }
  }

  /** Read as its grammar says, the manifest says what was built. */
  lemma ManifestSays(r: Release, entries: seq<Member>, digest: Digest, load: Loader)
    requires Loads(load, Manifest(r, entries, digest))
    ensures load(Manifest(r, entries, digest)).Some? && Says(load(Manifest(r, entries, digest)).value, r, entries, digest)
  {
    hide Denotes, Says, ReleaseManifest.Fields, DocumentValue;
    DocumentDenotes(r, entries, digest);
    DocumentSays(r, entries, digest);
    assert ReadsAs(Manifest(r, entries, digest), Record(ReleaseManifest.Fields(r, entries, digest), 0),
                   Dict(DocumentValue(r, entries, digest)), [LF]);
  }

  /** And the verifier reads out of it exactly the claims of the build. */
  lemma ManifestReadsBack(r: Release, entries: seq<Member>, digest: Digest, load: Loader, show: Value -> string)
    requires Loads(load, Manifest(r, entries, digest))
    ensures ReadsBack(entries, digest, r, Reading(load, show))
  {
    hide Get, EntrySays, PartSays, Manifest, Claims, Loads;
    ManifestSays(r, entries, digest, load);
    FilesRead(load(Manifest(r, entries, digest)).value, r, entries, digest, show);
  }

  lemma FilesRead(v: Value, r: Release, entries: seq<Member>, digest: Digest, show: Value -> string)
    requires Says(v, r, entries, digest)
    ensures v.Dict? && Get(v.fields, "format") == Some(Words(FORMAT))
    ensures exists files :: Get(v.fields, "files") == Some(Array(files)) && AsEntries(files, show) == Claims(entries, digest)
  {
    hide Get, EntrySays, PartSays;
    var files :| Get(v.fields, "files") == Some(Array(files)) && |files| == |entries|
                 && forall k :: 0 <= k < |entries| ==> EntrySays(files[k], entries[k], digest);
    forall k | 0 <= k < |entries|
      ensures AsEntries(files, show)[k] == Claims(entries, digest)[k]
    {
      EntryReads(files[k], entries[k], digest, show);
    }
    assert AsEntries(files, show) == Claims(entries, digest);
  }

  lemma EntryReads(v: Value, m: Member, digest: Digest, show: Value -> string)
    requires EntrySays(v, m, digest)
    ensures AsEntry(v, show) == Claim(m, digest)
  {
    hide Get;
  }

  // ---- what is built checks out ----

  /** A build over files named apart and portably, none of them the manifest, read with
      any JSON reader that keeps to the grammar, gets a verdict exactly when it is within
      the ceilings and the names of its files, one after another in their order, never
      leave more than seven brackets open; and the verdict is then that the index is
      intact. */
  lemma BuildVerifiesIff(payload: seq<Member>, required: set<string>, digest: Digest, r: Release, load: Loader, show: Value -> string)
    requires Distinct(payload) && (forall m :: m in payload ==> Portable(m.name) && m.name != MANIFEST)
    requires Hashes(digest) && TameRelease(r) && Loads(load, Manifest(r, Entries(payload), digest))
    ensures var (entries, members, read) := (Entries(payload), Archive(Entries(payload), digest, r), Reading(load, show));
            && (Readable(members, read) <==>
                  && |payload| < MAX_MEMBERS && Measurable(members) && |Manifest(r, entries, digest)| <= MAX_INDEX_BYTES
                  && MostOpen(NamesOf(entries)) <= MAX_LEFT_OPEN)
            && (Readable(members, read) ==>
                  Compare(Present(members, digest), Listed(EntriesOf(members, read)), required).IndexIntact())
  {
    hide *;
    ManifestReadsBack(r, Entries(payload), digest, load, show);
    BuiltVerifiesIff(payload, required, digest, r, Reading(load, show));
  }

  /** Names without brackets never stand in the way. */
  lemma BuildVerifies(payload: seq<Member>, required: set<string>, digest: Digest, r: Release, load: Loader, show: Value -> string)
    requires Distinct(payload)
    requires forall m :: m in payload ==> Portable(m.name) && m.name != MANIFEST && Tame(m.name)
    requires Hashes(digest) && TameRelease(r) && Loads(load, Manifest(r, Entries(payload), digest))
    requires |payload| < MAX_MEMBERS && Measurable(Archive(Entries(payload), digest, r))
    requires |Manifest(r, Entries(payload), digest)| <= MAX_INDEX_BYTES
    ensures var (members, read) := (Archive(Entries(payload), digest, r), Reading(load, show));
            && Readable(members, read)
            && Compare(Present(members, digest), Listed(EntriesOf(members, read)), required).IndexIntact()
  {
    hide Distinct, Portable, Tame, Hashes, TameRelease, ReadsBack, Measurable, Archive, Manifest, Entries, NamesOf,
         MostOpen, Readable, Compare, Present, Listed, EntriesOf;
    ManifestReadsBack(r, Entries(payload), digest, load, show);
    BuiltVerifies(payload, required, digest, r, Reading(load, show));
  }
}
