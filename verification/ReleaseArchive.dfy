/** The release archive as named contents: how one is built, how it is measured
    against the index it carries, and the gate's second reading of that index. */
module ReleaseArchive {
  import opened Text
  import opened Wrappers
  import opened ByteForms
  import opened InstallerPaths

  const MANIFEST := "BUILD-MANIFEST.json"
  const FORMAT := "pz-agent/windows-rc/1"
  const MAX_MEMBERS := 4096
  const MAX_MEMBER_BYTES := 512 * 1024 * 1024
  const MAX_TOTAL_BYTES := 2 * 1024 * 1024 * 1024
  const MAX_INDEX_BYTES := 4 * 1024 * 1024
  const SHA256_LENGTH := 64

  datatype Member = Member(name: string, data: Bytes)

  /** What hashing a member, or an index entry, says of it. */
  datatype Seal = Seal(sha256: string, size: nat)

  type Digest = Bytes -> string

  function SealOf(m: Member, digest: Digest): Seal { Seal(digest(m.data), |m.data|) }

  datatype Problem =
    | TooManyMembers | NotPortable | Repeated(name: string)
    | MemberTooLarge | TotalTooLarge
    | NoIndex | IndexTooLarge | IndexTooDeep | NotAnIndex | TooManyEntries | BadEntry | EntryTwice

  // ---- names ----

  datatype NameProblem = Empty | NativeSeparator | Drive | Absolute | Directory | Segment | Control

  predicate IsControl(c: char) { (c as int) < 32 || c as int == 127 }

  function MemberNameProblem(name: string): Option<NameProblem> {
    if name == "" then Some(Empty)
    else if '\\' in name then Some(NativeSeparator)
    else if ':' in name then Some(Drive)
    else if name[0] == '/' then Some(Absolute)
    else if name[|name| - 1] == '/' then Some(Directory)
    else if exists part :: part in Pieces(name) && part in ["", ".", ".."] then Some(Segment)
    else if exists c :: c in name && IsControl(c) then Some(Control)
    else None
  }

  predicate Portable(name: string) { MemberNameProblem(name).None? }

  /** What each problem says of a name. */
  ghost predicate Suffers(name: string, p: NameProblem) {
    match p
    case Empty => |name| == 0
    case NativeSeparator => exists i :: 0 <= i < |name| && name[i] == '\\'
    case Drive => exists i :: 0 <= i < |name| && name[i] == ':'
    case Absolute => name != "" && name[0] == '/'
    case Directory => name != "" && name[|name| - 1] == '/'
    case Segment => "" in Pieces(name) || "." in Pieces(name) || ".." in Pieces(name)
    case Control => exists i :: 0 <= i < |name| && (name[i] < ' ' || name[i] == 127 as char)
  }

  ghost function Place(p: NameProblem): nat {
    match p
    case Empty => 0 case NativeSeparator => 1 case Drive => 2 case Absolute => 3
    case Directory => 4 case Segment => 5 case Control => 6
  }

  /** The problem reported is the first a name suffers from, and none exactly when it
      suffers from none. */
  lemma ProblemIsFirst(name: string, p: NameProblem)
    ensures MemberNameProblem(name) == Some(p) <==>
              Suffers(name, p) && forall other :: Place(other) < Place(p) ==> !Suffers(name, other)
    ensures MemberNameProblem(name).None? ==> !Suffers(name, p)
  {
    SuffersIs(name);
    match p { case Empty => case NativeSeparator => case Drive => case Absolute => case Directory => case Segment => case Control => }
  }

  lemma SuffersIs(name: string)
    ensures name == "" <==> Suffers(name, Empty)
    ensures name != "" && name[0] == '/' <==> Suffers(name, Absolute)
    ensures name != "" && name[|name| - 1] == '/' <==> Suffers(name, Directory)
    ensures '\\' in name <==> Suffers(name, NativeSeparator)
    ensures ':' in name <==> Suffers(name, Drive)
    ensures (exists part :: part in Pieces(name) && part in ["", ".", ".."]) <==> Suffers(name, Segment)
    ensures (exists c :: c in name && IsControl(c)) <==> Suffers(name, Control)
  {
    hide Cut;
    forall part: string
      ensures part in ["", ".", ".."] <==> part == "" || part == "." || part == ".."
    {
    }
    if c :| c in name && IsControl(c) {
      var i :| 0 <= i < |name| && name[i] == c;
      assert name[i] < ' ' || name[i] == 127 as char;
    }
    if i :| 0 <= i < |name| && (name[i] < ' ' || name[i] == 127 as char) { assert name[i] in name && IsControl(name[i]); }
  }

  /** A name is portable exactly when it joins components that go nowhere but down
      and holds no control character. */
  lemma PortableIff(name: string)
    ensures Portable(name) <==>
              (forall part :: part in Pieces(name) ==> Component(part)) && forall c :: c in name ==> ' ' <= c && c as int != 127
  {
    if (forall part :: part in Pieces(name) ==> Component(part)) && forall c :: c in name ==> !IsControl(c) {
      ComponentsArePortable(name);
    }
    if Portable(name) {
      PortableIsComponents(name);
    }
  }

  lemma ComponentsArePortable(name: string)
    requires (forall part :: part in Pieces(name) ==> Component(part)) && forall c :: c in name ==> !IsControl(c)
    ensures Portable(name)
  {
    hide Cut, Glue, IsControl;
    GlueUndoesCut(name, '/');
    EndsOf(Pieces(name));
  }

  lemma PortableIsComponents(name: string)
    requires Portable(name)
    ensures (forall part :: part in Pieces(name) ==> Component(part)) && forall c :: c in name ==> !IsControl(c)
  {
    hide Cut, Glue, IsControl;
    GlueUndoesCut(name, '/');
    forall part | part in Pieces(name)
      ensures Component(part)
    {
      assert '\\' !in part && ':' !in part;
    }
  }

  lemma {:induction false} EndsOf(parts: seq<string>)
    requires |parts| >= 1 && forall part :: part in parts ==> part != "" && '/' !in part
    ensures var name := Joined(parts); name != "" && name[0] != '/' && name[|name| - 1] != '/'
  {
    assert parts[0] in parts;
    assert forall part :: part in parts[1..] ==> part in parts;
    if |parts| > 1 {
      EndsOf(parts[1..]);
      assert parts[0][0] in parts[0];
      assert Joined(parts)[0] == parts[0][0];
    } else {
      assert parts[0][0] in parts[0] && parts[0][|parts[0]| - 1] in parts[0];
    }
  }

  predicate Distinct(members: seq<Member>) {
    forall i, j :: 0 <= i < j < |members| ==> members[i].name != members[j].name
  }

  predicate NamesOk(members: seq<Member>) {
    |members| <= MAX_MEMBERS && (forall m :: m in members ==> Portable(m.name)) && Distinct(members)
  }

  method CheckedNames(members: seq<Member>) returns (problem: Option<Problem>)
    ensures problem.None? <==> NamesOk(members)
    ensures problem == Some(TooManyMembers) <==> |members| > MAX_MEMBERS
    ensures problem == Some(NotPortable) <==> |members| <= MAX_MEMBERS && exists m :: m in members && !Portable(m.name)
    ensures problem.Some? ==> problem.value.TooManyMembers? || problem.value.NotPortable? || problem.value.Repeated?
    ensures problem.Some? && problem.value.Repeated? ==>
      exists i, j :: 0 <= i < j < |members| && members[i].name == members[j].name == problem.value.name && Distinct(members[..j])
  {
    if |members| > MAX_MEMBERS {
      return Some(TooManyMembers);
    }
    var i := 0;
    while i < |members|
      invariant 0 <= i <= |members|
      invariant forall k :: 0 <= k < i ==> Portable(members[k].name)
    {
      if !Portable(members[i].name) {
        assert members[i] in members;
        return Some(NotPortable);
      }
      i := i + 1;
    }
    var seen: set<string> := {};
    i := 0;
    while i < |members|
      invariant 0 <= i <= |members|
      invariant seen == set k | 0 <= k < i :: members[k].name
      invariant Distinct(members[..i])
    {
      if members[i].name in seen {
        return Some(Repeated(members[i].name));
      }
      seen := seen + {members[i].name};
      i := i + 1;
    }
    assert members[..i] == members;
    problem := None;
  }

  // ---- measuring ----

  function Total(members: seq<Member>): nat {
    if members == [] then 0 else Total(members[..|members| - 1]) + |members[|members| - 1].data|
  }

  lemma {:induction false} TotalGrows(members: seq<Member>, n: nat)
    requires n <= |members|
    ensures Total(members[..n]) <= Total(members)
  {
    if n < |members| {
      TotalGrows(members[..|members| - 1], n);
      assert members[..|members| - 1][..n] == members[..n];
    } else {
      assert members[..n] == members;
    }
  }

  predicate Measurable(members: seq<Member>) {
    Total(members) <= MAX_TOTAL_BYTES && forall m :: m in members ==> |m.data| <= MAX_MEMBER_BYTES
  }

  /** Each name with the seal of the contents under it. */
  function Present(members: seq<Member>, digest: Digest): (present: map<string, Seal>)
    ensures forall name :: name in present <==> exists m :: m in members && m.name == name
  {
    if members == [] then map[]
    else
      var m := members[|members| - 1];
      Present(members[..|members| - 1], digest)[m.name := SealOf(m, digest)]
  }

  lemma {:induction false} PresentAt(members: seq<Member>, digest: Digest, m: Member)
    requires Distinct(members) && m in members
    ensures m.name in Present(members, digest) && Present(members, digest)[m.name] == SealOf(m, digest)
  {
    if m != members[|members| - 1] {
      var k :| 0 <= k < |members| && members[k] == m;
      assert m == members[..|members| - 1][k];
      PresentAt(members[..|members| - 1], digest, m);
    }
  }

  lemma NothingMeasured(digest: Digest)
    ensures Present([], digest) == map[] && Total([]) == 0
  {
  }

  lemma MeasuresOne(members: seq<Member>, digest: Digest, i: nat)
    requires i < |members|
    ensures Total(members[..i + 1]) == Total(members[..i]) + |members[i].data|
    ensures Present(members[..i + 1], digest) == Present(members[..i], digest)[members[i].name := SealOf(members[i], digest)]
  {
    assert members[..i + 1][..i] == members[..i];
  }

  /** Member `i` is the first to breach a ceiling, and which one. */
  ghost predicate Overflows(members: seq<Member>, i: nat, problem: Problem)
    requires i < |members|
  {
    && Measurable(members[..i]) && !Measurable(members[..i + 1])
    && (problem.MemberTooLarge? <==> |members[i].data| > MAX_MEMBER_BYTES) && (problem.MemberTooLarge? || problem.TotalTooLarge?)
  }

  /** Hash every member, within the ceilings, without looking at the index. */
  method Measure(members: seq<Member>, digest: Digest) returns (r: Result<map<string, Seal>, Problem>)
    ensures r.Ok? <==> Measurable(members)
    ensures r.Ok? ==> r.value == Present(members, digest)
    ensures r.Err? ==> exists i :: 0 <= i < |members| && Overflows(members, i, r.error)
  {
    hide Present, Total, SealOf;
    var measured: map<string, Seal> := map[];
    var total := 0;
    var i := 0;
    NothingMeasured(digest);
    assert members[..0] == [];
    while i < |members|
      invariant 0 <= i <= |members| && total == Total(members[..i]) <= MAX_TOTAL_BYTES
      invariant measured == Present(members[..i], digest)
      invariant forall k :: 0 <= k < i ==> |members[k].data| <= MAX_MEMBER_BYTES
    {
      MeasuresOne(members, digest, i);
      if |members[i].data| > MAX_MEMBER_BYTES {
        assert members[i] in members && members[..i + 1][i] in members[..i + 1];
        assert Overflows(members, i, MemberTooLarge);
        return Err(MemberTooLarge);
      }
      total := total + |members[i].data|;
      if total > MAX_TOTAL_BYTES {
        TotalGrows(members, i + 1);
        assert Overflows(members, i, TotalTooLarge);
        return Err(TotalTooLarge);
      }
      measured := measured[members[i].name := SealOf(members[i], digest)];
      i := i + 1;
    }
    assert members[..i] == members;
    return Ok(measured);
  }

  // ---- the index ----

  /** A field that should be text: a string, or nothing, or something else and how it
      reads when it is taken for text. */
  datatype TextField = Written(text: string) | NoText | Shown(text: string)

  /** A field that should be a whole number: one, or a flag or fraction that compares
      equal to one, or nothing of the kind. */
  datatype SizeField = Whole(n: int) | Alike(n: int) | NoSize

  /** A decoded index entry. */
  datatype RawEntry = NotAnObject | Fields(path: TextField, sha256: TextField, size: SizeField)

  /** A decoded index; `files` is absent when it is not a list. */
  datatype Index = Index(format: string, files: Option<seq<RawEntry>>)

  /** The JSON reader: nothing for bytes that are not a UTF-8 JSON object. */
  type Reader = Bytes -> Option<Index>

  predicate IsSha256(text: string) {
    |text| == SHA256_LENGTH && forall c :: c in text ==> c in "0123456789abcdef"
  }

  /** Taken for text, an absent field is empty. */
  function AsText(field: TextField): string { if field.NoText? then "" else field.text }

  function PathOf(e: RawEntry): string { if e.Fields? then AsText(e.path) else "" }

  function SealIn(e: RawEntry): Seal {
    if e.Fields? && e.size.Whole? && e.size.n >= 0 then Seal(AsText(e.sha256), e.size.n) else Seal("", 0)
  }

  predicate GoodEntry(e: RawEntry) {
    && e.Fields? && e.path.Written? && Portable(e.path.text)
    && e.sha256.Written? && IsSha256(e.sha256.text) && e.size.Whole? && e.size.n >= 0
  }

  predicate GoodEntries(entries: seq<RawEntry>) {
    && |entries| <= MAX_MEMBERS && (forall k :: 0 <= k < |entries| ==> GoodEntry(entries[k]))
    && forall i, j :: 0 <= i < j < |entries| ==> PathOf(entries[i]) != PathOf(entries[j])
  }

  function Listed(entries: seq<RawEntry>): map<string, Seal> {
    if entries == [] then map[]
    else
      var e := entries[|entries| - 1];
      Listed(entries[..|entries| - 1])[PathOf(e) := SealIn(e)]
  }

  lemma {:induction false} ListedNames(entries: seq<RawEntry>)
    ensures forall name :: name in Listed(entries) <==> exists k :: 0 <= k < |entries| && PathOf(entries[k]) == name
  {
    hide PathOf, SealIn;
    if entries != [] {
      var earlier := entries[..|entries| - 1];
      ListedNames(earlier);
      forall name
        ensures name in Listed(entries) <==> exists k :: 0 <= k < |entries| && PathOf(entries[k]) == name
      {
        if name in Listed(earlier) {
          var k :| 0 <= k < |earlier| && PathOf(earlier[k]) == name;
          assert PathOf(entries[k]) == name;
        }
        if k :| 0 <= k < |entries| && PathOf(entries[k]) == name {
          assert k < |earlier| ==> PathOf(earlier[k]) == name;
        }
      }
    }
  }

  lemma {:induction false} ListedAt(entries: seq<RawEntry>, k: nat)
    requires k < |entries| && forall i, j :: 0 <= i < j < |entries| ==> PathOf(entries[i]) != PathOf(entries[j])
    ensures PathOf(entries[k]) in Listed(entries) && Listed(entries)[PathOf(entries[k])] == SealIn(entries[k])
  {
    hide PathOf, SealIn;
    if k < |entries| - 1 {
      ListedAt(entries[..|entries| - 1], k);
    }
  }

  /** Where the manifest is among the members, if it is. */
  function ManifestOf(members: seq<Member>): (m: Option<Member>)
    ensures m.None? <==> forall other :: other in members ==> other.name != MANIFEST
    ensures m.Some? ==> m.value in members && m.value.name == MANIFEST
  {
    if members == [] then None
    else if members[|members| - 1].name == MANIFEST then Some(members[|members| - 1])
    else ManifestOf(members[..|members| - 1])
  }

  /** The entries of an index that can be used, if this archive carries one. */
  predicate Indexed(members: seq<Member>, read: Reader) {
    && ManifestOf(members).Some?
    && var raw := ManifestOf(members).value.data;
    && |raw| <= MAX_INDEX_BYTES && Accepts(raw)
    && read(raw).Some? && read(raw).value.format == FORMAT && read(raw).value.files.Some?
    && GoodEntries(read(raw).value.files.value)
  }

  function EntriesOf(members: seq<Member>, read: Reader): seq<RawEntry>
    requires Indexed(members, read)
  {
    read(ManifestOf(members).value.data).value.files.value
  }

  /** Why an archive has no usable index: the first of these that is so. */
  ghost predicate Unindexed(members: seq<Member>, read: Reader, problem: Problem) {
    match ManifestOf(members)
    case None => problem == NoIndex
    case Some(manifest) =>
      var (raw, document) := (manifest.data, read(manifest.data));
      if |raw| > MAX_INDEX_BYTES then problem == IndexTooLarge
      else if !Accepts(raw) then problem == IndexTooDeep
      else if document.None? || document.value.format != FORMAT || document.value.files.None? then problem == NotAnIndex
      else
        var entries := document.value.files.value;
        if |entries| > MAX_MEMBERS then problem == TooManyEntries
        else exists i :: 0 <= i < |entries| && Spoils(entries, i, problem)
  }

  /** Read the index, refusing anything a build would not have written. */
  method ReadIndex(members: seq<Member>, read: Reader) returns (r: Result<map<string, Seal>, Problem>)
    ensures r.Ok? <==> Indexed(members, read)
    ensures r.Ok? ==> r.value == Listed(EntriesOf(members, read))
    ensures r.Err? ==> Unindexed(members, read, r.error)
  {
    var manifest := ManifestOf(members);
    if manifest.None? {
      return Err(NoIndex);
    }
    var raw := manifest.value.data;
    if |raw| > MAX_INDEX_BYTES {
      return Err(IndexTooLarge);
    }
    var shallow := RefuseDeepNesting(raw);
    AcceptsIff(raw);
    if !shallow {
      return Err(IndexTooDeep);
    }
    var document := read(raw);
    if document.None? || document.value.format != FORMAT || document.value.files.None? {
      return Err(NotAnIndex);
    }
    var entries := document.value.files.value;
    if |entries| > MAX_MEMBERS {
      return Err(TooManyEntries);
    }
    r := ReadEntries(entries);
  }

  /** Entry `i` is the first that cannot stand, and why. */
  ghost predicate Spoils(entries: seq<RawEntry>, i: nat, problem: Problem)
    requires i < |entries|
  {
    && GoodEntries(entries[..i])
    && if GoodEntry(entries[i]) then problem == EntryTwice && exists k :: 0 <= k < i && PathOf(entries[k]) == PathOf(entries[i])
       else problem == BadEntry
  }

  /** The table of a list of entries, each usable and none for a path twice. */
  method ReadEntries(entries: seq<RawEntry>) returns (r: Result<map<string, Seal>, Problem>)
    requires |entries| <= MAX_MEMBERS
    ensures r.Ok? <==> GoodEntries(entries)
    ensures r.Ok? ==> r.value == Listed(entries)
    ensures r.Err? ==> exists i :: 0 <= i < |entries| && Spoils(entries, i, r.error)
  {
    hide GoodEntry, PathOf, SealIn;
    var index: map<string, Seal> := map[];
    var i := 0;
    assert entries[..0] == [];
    while i < |entries|
      invariant 0 <= i <= |entries| && index == Listed(entries[..i])
      invariant forall k :: 0 <= k < i ==> GoodEntry(entries[k]) && PathOf(entries[k]) in index
      invariant forall j, k :: 0 <= j < k < i ==> PathOf(entries[j]) != PathOf(entries[k])
    {
      if !GoodEntry(entries[i]) {
        assert Spoils(entries, i, BadEntry);
        return Err(BadEntry);
      }
      if PathOf(entries[i]) in index {
        NamedBefore(entries, i);
        assert Spoils(entries, i, EntryTwice);
        return Err(EntryTwice);
      }
      ListedStep(entries, i);
      index := index[PathOf(entries[i]) := SealIn(entries[i])];
      i := i + 1;
    }
    assert entries[..i] == entries;
    return Ok(index);
  }

  lemma ListedStep(entries: seq<RawEntry>, i: nat)
    requires i < |entries|
    ensures Listed(entries[..i + 1]) == Listed(entries[..i])[PathOf(entries[i]) := SealIn(entries[i])]
  {
    assert entries[..i + 1][..i] == entries[..i];
  }

  lemma NamedBefore(entries: seq<RawEntry>, i: nat)
    requires i < |entries| && PathOf(entries[i]) in Listed(entries[..i])
    ensures exists k :: 0 <= k < i && PathOf(entries[k]) == PathOf(entries[i])
  {
    ListedNames(entries[..i]);
    var k :| 0 <= k < i && PathOf(entries[..i][k]) == PathOf(entries[i]);
    assert PathOf(entries[k]) == PathOf(entries[i]);
  }

  // ---- comparing ----

  datatype Verification = Verification(
    present: map<string, Seal>, missing: set<string>, changed: set<string>, unlisted: set<string>, absentRequired: set<string>)
  {
    predicate IndexIntact() { missing == {} && changed == {} && unlisted == {} }
    predicate Complete() { absentRequired == {} }
  }

  function Compare(present: map<string, Seal>, index: map<string, Seal>, required: set<string>): Verification {
    var indexable := present - {MANIFEST};
    Verification(present,
                 (set name | name in index && name !in indexable),
                 (set name | name in indexable && name in index && indexable[name] != index[name]),
                 (set name | name in indexable && name !in index),
                 required - present.Keys)
  }

  predicate Holds(members: seq<Member>, name: string) { exists m :: m in members && m.name == name }

  predicate Records(entries: seq<RawEntry>, name: string) {
    exists k :: 0 <= k < |entries| && entries[k].Fields? && entries[k].path == Written(name)
  }

  /** An entry names a member whose digest or size is not the one it records. */
  predicate Differs(members: seq<Member>, entries: seq<RawEntry>, digest: Digest, name: string) {
    exists m, k :: m in members && 0 <= k < |entries| && m.name == name && entries[k].Fields? && entries[k].path == Written(name)
                   && !(entries[k].sha256 == Written(digest(m.data)) && entries[k].size == Whole(|m.data|))
  }

  /** Each finding holds exactly the names it is for, and what is present is what was
      measured. */
  ghost predicate Finds(members: seq<Member>, entries: seq<RawEntry>, required: set<string>, digest: Digest, v: Verification) {
    && (forall name :: name in v.present <==> Holds(members, name))
    && (forall m :: m in members ==> m.name in v.present && v.present[m.name] == Seal(digest(m.data), |m.data|))
    && (forall name :: name in v.missing <==> Records(entries, name) && (name == MANIFEST || !Holds(members, name)))
    && (forall name :: name in v.unlisted <==> name != MANIFEST && Holds(members, name) && !Records(entries, name))
    && (forall name :: name in v.changed <==> name != MANIFEST && Differs(members, entries, digest, name))
    && (forall name :: name in v.absentRequired <==> name in required && !Holds(members, name))
  }

  lemma CompareFinds(members: seq<Member>, entries: seq<RawEntry>, required: set<string>, digest: Digest)
    requires Distinct(members) && GoodEntries(entries)
    ensures Finds(members, entries, required, digest, Compare(Present(members, digest), Listed(entries), required))
  {
    hide Present, Listed, GoodEntries, Distinct, Holds, Records, Differs;
    NamesHeld(members, digest);
    NamesListed(entries);
    forall name
      ensures ChangedIn(members, entries, digest, name) <==> Differs(members, entries, digest, name)
    {
      ChangedIff(members, entries, digest, name);
    }
  }

  ghost predicate ChangedIn(members: seq<Member>, entries: seq<RawEntry>, digest: Digest, name: string) {
    var (present, index) := (Present(members, digest), Listed(entries));
    name in present && name in index && present[name] != index[name]
  }

  lemma NamesHeld(members: seq<Member>, digest: Digest)
    requires Distinct(members)
    ensures forall name :: name in Present(members, digest) <==> Holds(members, name)
    ensures forall m :: m in members ==> m.name in Present(members, digest) && Present(members, digest)[m.name] == SealOf(m, digest)
  {
    hide Distinct, Present;
    forall m | m in members
      ensures m.name in Present(members, digest) && Present(members, digest)[m.name] == SealOf(m, digest)
    {
      PresentAt(members, digest, m);
    }
  }

  lemma NamesListed(entries: seq<RawEntry>)
    requires GoodEntries(entries)
    ensures forall name :: name in Listed(entries) <==> Records(entries, name)
  {
    hide Portable, IsSha256, Listed;
    ListedNames(entries);
    forall k | 0 <= k < |entries|
      ensures entries[k].Fields? && entries[k].path == Written(PathOf(entries[k]))
    {
      assert GoodEntry(entries[k]);
    }
  }

  lemma ChangedIff(members: seq<Member>, entries: seq<RawEntry>, digest: Digest, name: string)
    requires Distinct(members) && GoodEntries(entries)
    ensures ChangedIn(members, entries, digest, name) <==> Differs(members, entries, digest, name)
  {
    var (present, index) := (Present(members, digest), Listed(entries));
    hide Present, Listed, Portable, IsSha256;
    NamesListed(entries);
    forall m, k | m in members && 0 <= k < |entries| && m.name == name && entries[k].Fields? && entries[k].path == Written(name)
      ensures name in Present(members, digest) && Present(members, digest)[name] == SealOf(m, digest)
      ensures name in Listed(entries) && Listed(entries)[name] == SealIn(entries[k])
      ensures SealOf(m, digest) == SealIn(entries[k]) <==>
              entries[k].sha256 == Written(digest(m.data)) && entries[k].size == Whole(|m.data|)
    {
      PresentAt(members, digest, m);
      assert GoodEntry(entries[k]);
      ListedAt(entries, k);
    }
    if name in Present(members, digest) && name in Listed(entries) {
      var m :| m in members && m.name == name;
      var k :| 0 <= k < |entries| && entries[k].Fields? && entries[k].path == Written(name);
      assert m in members && entries[k].Fields?;
    }
  }

  lemma VerifiedFinds(members: seq<Member>, required: set<string>, digest: Digest, read: Reader)
    requires NamesOk(members) && Indexed(members, read)
    ensures Finds(members, EntriesOf(members, read), required, digest,
                  Compare(Present(members, digest), Listed(EntriesOf(members, read)), required))
  {
    hide Accepts, GoodEntries, Portable;
    CompareFinds(members, EntriesOf(members, read), required, digest);
  }

  /** Measure, then read the index, then compare them in both directions. */
  method VerifyArchive(members: seq<Member>, required: set<string>, digest: Digest, read: Reader)
    returns (r: Result<Verification, Problem>)
    ensures r.Ok? <==> NamesOk(members) && Measurable(members) && Indexed(members, read)
    ensures r.Ok? ==> r.value == Compare(Present(members, digest), Listed(EntriesOf(members, read)), required)
    ensures r.Ok? ==> Finds(members, EntriesOf(members, read), required, digest, r.value)
    ensures r.Err? && NamesOk(members) ==>
      if Measurable(members) then Unindexed(members, read, r.error)
      else exists i :: 0 <= i < |members| && Overflows(members, i, r.error)
  {
    hide Finds, Compare, Unindexed, Overflows, Present, Listed, Indexed, NamesOk, Measurable;
    var names := CheckedNames(members);
    if names.Some? {
      return Err(names.value);
    }
    var measured := Measure(members, digest);
    if measured.Err? {
      return Err(measured.error);
    }
    var index := ReadIndex(members, read);
    if index.Err? {
      return Err(index.error);
    }
    VerifiedFinds(members, required, digest, read);
    return Ok(Compare(measured.value, index.value, required));
  }

  /** The three findings are all empty exactly when the index is the table of
      everything in the archive but itself. */
  lemma IntactIff(present: map<string, Seal>, index: map<string, Seal>, required: set<string>)
    ensures Compare(present, index, required).IndexIntact() <==> index == present - {MANIFEST}
    ensures Compare(present, index, required).Complete() <==> required <= present.Keys
  {
    var v := Compare(present, index, required);
    assert forall name :: name in v.absentRequired <==> name in required && name !in present.Keys;
    if v.IndexIntact() {
      forall name
        ensures name in index <==> name in present - {MANIFEST}
        ensures name in index ==> index[name] == present[name]
      {
        assert name !in v.missing && name !in v.unlisted && name !in v.changed;
      }
    }
  }

  // ---- the gate's own reading ----

  predicate SameSize(field: SizeField, size: nat) { !field.NoSize? && field.n == size }

  /** What one claim of the manifest says of the archive is so. */
  predicate Confirmed(present: map<string, Seal>, e: RawEntry) {
    && e.Fields? && PathOf(e) in present
    && SameSize(e.size, present[PathOf(e)].size) && present[PathOf(e)].sha256 == AsText(e.sha256)
  }

  predicate Certified(present: map<string, Seal>, files: seq<RawEntry>) {
    && (exists k :: 0 <= k < |files| && files[k].Fields?)
    && (forall k :: 0 <= k < |files| && files[k].Fields? ==> Confirmed(present, files[k]))
    && (forall name :: name in present && name != MANIFEST ==>
          exists k :: 0 <= k < |files| && files[k].Fields? && PathOf(files[k]) == name)
  }

  method ConfirmEntry(members: seq<Member>, e: RawEntry, digest: Digest) returns (ok: bool)
    requires e.Fields?
    ensures ok <==> Confirmed(Present(members, digest), e)
  {
    var present := Present(members, digest);
    var path := PathOf(e);
    if path !in present {
      return false;
    }
    if !SameSize(e.size, present[path].size) {
      return false;
    }
    return present[path].sha256 == AsText(e.sha256);
  }

  /** Re-hash what the manifest claims, entry by entry, then look for members no
      entry claims. */
  method RecordedDigests(members: seq<Member>, files: seq<RawEntry>, digest: Digest) returns (ok: bool)
    ensures ok <==> Certified(Present(members, digest), files)
  {
    hide Confirmed, PathOf, Present;
    var i, entries, problems := 0, 0, 0;
    var recorded: set<string> := {};
    while i < |files|
      invariant 0 <= i <= |files| && entries >= 0 && problems >= 0
      invariant forall name :: name in recorded <==> exists k :: 0 <= k < i && files[k].Fields? && PathOf(files[k]) == name
      invariant entries == 0 <==> forall k :: 0 <= k < i ==> !files[k].Fields?
      invariant problems == 0 <==> forall k :: 0 <= k < i && files[k].Fields? ==> Confirmed(Present(members, digest), files[k])
    {
      if files[i].Fields? {
        var confirmed := ConfirmEntry(members, files[i], digest);
        entries := entries + 1;
        recorded := recorded + {PathOf(files[i])};
        if !confirmed {
          problems := problems + 1;
        }
      }
      i := i + 1;
    }
    return entries > 0 && problems == 0 && forall name :: name in Present(members, digest) && name != MANIFEST ==> name in recorded;
  }

  /** What the gate certifies, in terms of the table the verifier reads. */
  lemma CertifiedIff(present: map<string, Seal>, files: seq<RawEntry>)
    requires GoodEntries(files)
    ensures Certified(present, files) <==>
              && files != []
              && (forall name :: name in Listed(files) ==> name in present && present[name] == Listed(files)[name])
              && present.Keys - {MANIFEST} <= Listed(files).Keys
  {
    hide Portable, IsSha256, PathOf, Listed;
    ListedNames(files);
    forall k | 0 <= k < |files|
      ensures files[k].Fields? && PathOf(files[k]) in Listed(files)
      ensures Confirmed(present, files[k]) <==>
              PathOf(files[k]) in present && present[PathOf(files[k])] == Listed(files)[PathOf(files[k])]
    {
      ListedAt(files, k);
      assert GoodEntry(files[k]);
    }
    if files != [] { assert files[0].Fields?; }
  }

  /** The two readings agree: on a usable index that says something and does not name
      itself, the gate passes exactly when the verifier finds the index intact. */
  lemma VerifiersAgree(present: map<string, Seal>, files: seq<RawEntry>, required: set<string>)
    requires GoodEntries(files) && files != []
    ensures MANIFEST !in Listed(files) ==>
              (Certified(present, files) <==> Compare(present, Listed(files), required).IndexIntact())
    ensures Compare(present, Listed(files), required).IndexIntact() ==> Certified(present, files)
    ensures MANIFEST in Listed(files) ==> !Compare(present, Listed(files), required).IndexIntact()
  {
    CertifiedIff(present, files);
    IntactIff(present, Listed(files), required);
  }
}
