/** Building the archive: whatever order the files are found in, the same archive
    comes out, and it carries the index of itself. */
module ReleaseBuild {
  import opened Text
  import opened Wrappers
  import opened ByteForms
  import opened InstallerPaths
  import opened Ordering
  import opened ReleaseArchive
  import opened ReleaseManifest

  predicate IsBatch(name: string) { |name| >= 4 && name[|name| - 4..] == ".bat" }

  /** A planned file as it goes in: batch files with Windows line endings. */
  function Packed(m: Member): Member {
    if IsBatch(m.name) then m.(data := AsCrlf(m.data)) else m
  }

  /** A list with one more file put in by name, behind its equals. */
  function PutByName(list: seq<Member>, m: Member): (r: seq<Member>)
    ensures multiset(r) == multiset(list) + multiset{m}
  {
    if list == [] || StringLeq(list[|list| - 1].name, m.name) then list + [m]
    else
      assert list == list[..|list| - 1] + [list[|list| - 1]];
      PutByName(list[..|list| - 1], m) + [list[|list| - 1]]
  }

  /** The files as they go in, by name. */
  function Entries(payload: seq<Member>): (r: seq<Member>) {
    if payload == [] then []
    else PutByName(Entries(payload[..|payload| - 1]), Packed(payload[|payload| - 1]))
  }

  function Claim(m: Member, digest: Digest): RawEntry {
    RawEntry.Fields(Written(m.name), Written(digest(m.data)), Whole(|m.data|))
  }

  function Claims(entries: seq<Member>, digest: Digest): (claims: seq<RawEntry>)
    ensures |claims| == |entries| && forall k :: 0 <= k < |entries| ==> claims[k] == Claim(entries[k], digest)
  {
    seq(|entries|, k requires 0 <= k < |entries| => Claim(entries[k], digest))
  }

  function Archive(entries: seq<Member>, digest: Digest, r: Release): seq<Member> {
    [Member(MANIFEST, Manifest(r, entries, digest))] + entries
  }

  /** What becomes of a file: a batch file keeps its lines, each ended by CR LF; any
      other goes in byte for byte. */
  ghost predicate PackedAs(f: Member, m: Member) {
    && m.name == f.name
    && if exists stem :: f.name == stem + ".bat" then
         Collapsed(m.data) == Collapsed(f.data) && forall i :: 0 <= i < |m.data| && m.data[i] == LF ==> i > 0 && m.data[i - 1] == CR
       else m.data == f.data
  }

  lemma PackedIs(f: Member)
    ensures PackedAs(f, Packed(f))
  {
    if IsBatch(f.name) { assert f.name == f.name[..|f.name| - 4] + ".bat"; }
    hide Collapsed, Expanded;
    CrlfKeepsLines(f.data);
    forall i | 0 <= i < |AsCrlf(f.data)| && AsCrlf(f.data)[i] == LF
      ensures i > 0 && AsCrlf(f.data)[i - 1] == CR
    {
      EveryLfFollowsCr(f.data, i);
    }
  }

  lemma EntriesHold(payload: seq<Member>)
    ensures |Entries(payload)| == |payload|
    ensures forall m :: m in Entries(payload) ==> exists f :: f in payload && PackedAs(f, m)
    ensures forall f :: f in payload ==> exists m :: m in Entries(payload) && PackedAs(f, m)
  {
    hide Packed, PackedAs;
    EntriesAre(payload);
    var (entries, packed) := (Entries(payload), AllPacked(payload));
    assert |entries| == |multiset(entries)| == |multiset(packed)|;
    forall m | m in entries
      ensures exists f :: f in payload && PackedAs(f, m)
    {
      assert m in multiset(packed);
      var k :| 0 <= k < |packed| && packed[k] == m;
      PackedIs(payload[k]);
      assert payload[k] in payload;
    }
    forall f | f in payload
      ensures exists m :: m in entries && PackedAs(f, m)
    {
      var k :| 0 <= k < |payload| && payload[k] == f;
      PackedIs(f);
      assert packed[k] in multiset(packed);
      assert packed[k] in multiset(entries);
    }
  }

  lemma ArchiveIs(entries: seq<Member>, digest: Digest, r: Release)
    ensures var members := Archive(entries, digest, r);
            |members| == |entries| + 1 && members[0] == Member(MANIFEST, Manifest(r, entries, digest)) && members[1..] == entries
  {
  }

  /** Pack, sort, index, and write the index in front. */
  method Build(payload: seq<Member>, digest: Digest, r: Release) returns (members: seq<Member>)
    ensures members == Archive(Entries(payload), digest, r)
    ensures |members| == |payload| + 1 && members[0] == Member(MANIFEST, Manifest(r, members[1..], digest))
    ensures Sorted(members[1..])
    ensures forall m :: m in members[1..] ==> exists f :: f in payload && PackedAs(f, m)
    ensures forall f :: f in payload ==> exists m :: m in members[1..] && PackedAs(f, m)
  {
    hide PutByName, Packed, Archive;
    var entries: seq<Member> := [];
    var i := 0;
    while i < |payload|
      invariant 0 <= i <= |payload| && entries == Entries(payload[..i])
    {
      assert payload[..i + 1][..i] == payload[..i];
      entries := PutByName(entries, Packed(payload[i]));
      i := i + 1;
    }
    assert payload[..i] == payload;
    EntriesSorted(payload);
    EntriesHold(payload);
    members := Archive(entries, digest, r);
    ArchiveIs(entries, digest, r);
  }

  // ---- order ----

  ghost predicate Sorted(list: seq<Member>) {
    forall i, j :: 0 <= i < j < |list| ==> StringLeq(list[i].name, list[j].name)
  }

  lemma PutHolds(list: seq<Member>, m: Member, k: nat)
    requires k < |PutByName(list, m)|
    ensures PutByName(list, m)[k] == m || PutByName(list, m)[k] in list
  {
    assert PutByName(list, m)[k] in multiset(PutByName(list, m));
  }

  lemma {:induction false} PutKeepsSorted(list: seq<Member>, m: Member)
    requires Sorted(list)
    ensures Sorted(PutByName(list, m))
  {
    hide StringLeq;
    if list != [] {
      var last, earlier := list[|list| - 1], list[..|list| - 1];
      StringLeqTotal(last.name, m.name);
      if StringLeq(last.name, m.name) {
        forall k | 0 <= k < |list| - 1
          ensures StringLeq(list[k].name, m.name)
        {
          StringLeqTransitive(list[k].name, last.name, m.name);
        }
      } else {
        PutKeepsSorted(earlier, m);
        forall k | 0 <= k < |PutByName(earlier, m)|
          ensures StringLeq(PutByName(earlier, m)[k].name, last.name)
        {
          PutHolds(earlier, m, k);
        }
      }
    }
  }

  lemma {:induction false} EntriesSorted(payload: seq<Member>)
    ensures Sorted(Entries(payload))
  {
    if payload != [] {
      EntriesSorted(payload[..|payload| - 1]);
      PutKeepsSorted(Entries(payload[..|payload| - 1]), Packed(payload[|payload| - 1]));
    }
  }

  lemma SameLast(a: seq<Member>, b: seq<Member>)
    requires Sorted(a) && Sorted(b) && multiset(a) == multiset(b) && Distinct(a) && a != [] && b != []
    ensures a[|a| - 1] == b[|b| - 1]
  {
    hide StringLeq;
    var x, y := a[|a| - 1], b[|b| - 1];
    assert y in multiset(b) && x in multiset(a);
    var i :| 0 <= i < |a| && a[i] == y;
    var j :| 0 <= j < |b| && b[j] == x;
    StringLeqTotal(x.name, y.name);
    StringLeqTotal(x.name, x.name);
  }

  lemma WithoutLast(a: seq<Member>)
    requires a != []
    ensures multiset(a[..|a| - 1]) == multiset(a) - multiset{a[|a| - 1]}
  {
    assert a == a[..|a| - 1] + [a[|a| - 1]];
  }

  lemma ShorterSorted(a: seq<Member>)
    requires a != []
    ensures Sorted(a) ==> Sorted(a[..|a| - 1])
    ensures Distinct(a) ==> Distinct(a[..|a| - 1])
  {
    hide StringLeq;
  }

  lemma Rejoined(a: seq<Member>)
    requires a != []
    ensures a == a[..|a| - 1] + [a[|a| - 1]]
  {
  }

  /** Two sorted lists of the same files, named apart, are one list. */
  lemma {:induction false} SortedSame(a: seq<Member>, b: seq<Member>)
    requires Sorted(a) && Sorted(b) && multiset(a) == multiset(b) && Distinct(a)
    ensures a == b
  {
    hide StringLeq, Sorted, Distinct;
    assert |b| == |multiset(b)| == |multiset(a)| == |a|;
    if a != [] {
      SameLast(a, b);
      WithoutLast(a);
      WithoutLast(b);
      ShorterSorted(a);
      ShorterSorted(b);
      SortedSame(a[..|a| - 1], b[..|b| - 1]);
      Rejoined(a);
      Rejoined(b);
    }
  }

  function AllPacked(payload: seq<Member>): (r: seq<Member>)
    ensures |r| == |payload| && forall k :: 0 <= k < |r| ==> r[k] == Packed(payload[k])
  {
    seq(|payload|, k requires 0 <= k < |payload| => Packed(payload[k]))
  }

  lemma {:induction false} EntriesAre(payload: seq<Member>)
    ensures multiset(Entries(payload)) == multiset(AllPacked(payload))
  {
    if payload != [] {
      EntriesAre(payload[..|payload| - 1]);
      assert AllPacked(payload) == AllPacked(payload[..|payload| - 1]) + [Packed(payload[|payload| - 1])];
    }
  }

  /** A file of a list, and the list around it. */
  lemma TakeOut(b: seq<Member>, x: Member) returns (front: seq<Member>, back: seq<Member>)
    requires x in multiset(b)
    ensures b == front + [x] + back && multiset(front + back) == multiset(b) - multiset{x}
  {
    var j :| 0 <= j < |b| && b[j] == x;
    front, back := b[..j], b[j + 1..];
    assert b == front + [x] + back;
  }

  lemma PackedAround(b: seq<Member>, front: seq<Member>, x: Member, back: seq<Member>)
    requires b == front + [x] + back
    ensures multiset(AllPacked(b)) == multiset(AllPacked(front + back)) + multiset{Packed(x)}
  {
    assert AllPacked(b) == AllPacked(front) + [Packed(x)] + AllPacked(back);
    assert AllPacked(front + back) == AllPacked(front) + AllPacked(back);
  }

  lemma PackedLast(a: seq<Member>)
    requires a != []
    ensures multiset(AllPacked(a)) == multiset(AllPacked(a[..|a| - 1])) + multiset{Packed(a[|a| - 1])}
  {
    assert AllPacked(a) == AllPacked(a[..|a| - 1]) + [Packed(a[|a| - 1])];
  }

  lemma {:induction false} PackedSame(a: seq<Member>, b: seq<Member>)
    requires multiset(a) == multiset(b)
    ensures multiset(AllPacked(a)) == multiset(AllPacked(b))
  {
    hide AllPacked;
    if a != [] {
      var x, earlier := a[|a| - 1], a[..|a| - 1];
      var front, back := TakeOut(b, x);
      WithoutLast(a);
      PackedSame(earlier, front + back);
      PackedAround(b, front, x, back);
      PackedLast(a);
    } else {
      assert |b| == |multiset(b)| == |multiset(a)|;
    }
  }

  /** However the files are enumerated, the archive is the same. */
  lemma BuildIgnoresOrder(a: seq<Member>, b: seq<Member>, digest: Digest, r: Release)
    requires multiset(a) == multiset(b) && Distinct(a)
    ensures Archive(Entries(a), digest, r) == Archive(Entries(b), digest, r)
  {
    EntriesAre(a);
    EntriesAre(b);
    PackedSame(a, b);
    EntriesSorted(a);
    EntriesSorted(b);
    EntriesDistinct(a);
    SortedSame(Entries(a), Entries(b));
  }

  lemma EntriesDistinct(payload: seq<Member>)
    requires Distinct(payload)
    ensures Distinct(Entries(payload))
  {
    EntriesAre(payload);
    DistinctSame(AllPacked(payload), Entries(payload));
  }

  lemma DistinctAround(front: seq<Member>, x: Member, back: seq<Member>)
    requires Distinct(front + back) && forall m :: m in front + back ==> m.name != x.name
    ensures Distinct(front + [x] + back)
  {
    var all, rest := front + [x] + back, front + back;
    assert forall k :: 0 <= k < |front| ==> all[k] == rest[k] && rest[k] in rest;
    assert forall k :: |front| < k < |all| ==> all[k] == rest[k - 1] && rest[k - 1] in rest;
  }

  /** Naming apart is about the files, not their order. */
  lemma {:induction false} DistinctSame(a: seq<Member>, b: seq<Member>)
    requires Distinct(a) && multiset(a) == multiset(b)
    ensures Distinct(b)
  {
    if a != [] {
      var x, earlier := a[|a| - 1], a[..|a| - 1];
      var front, back := TakeOut(b, x);
      WithoutLast(a);
      DistinctSame(earlier, front + back);
      forall m: Member | m in front + back
        ensures m.name != x.name
      {
        assert m in multiset(earlier);
        assert m in earlier;
      }
      DistinctAround(front, x, back);
    } else {
      assert |b| == |multiset(b)| == |multiset(a)|;
    }
  }

  // ---- what is built checks out ----

  /** What is asked of the JSON reader for one archive: the index comes back as
      written. */
  ghost predicate ReadsBack(entries: seq<Member>, digest: Digest, r: Release, read: Reader) {
    read(Manifest(r, entries, digest)) == Some(Index(FORMAT, Some(Claims(entries, digest))))
  }

  /** The digest is a SHA-256 text. */
  ghost predicate Hashes(digest: Digest) { forall data :: IsSha256(digest(data)) }

  lemma ClaimsGood(entries: seq<Member>, digest: Digest)
    requires |entries| <= MAX_MEMBERS && Distinct(entries) && Hashes(digest)
    requires forall m :: m in entries ==> Portable(m.name)
    ensures GoodEntries(Claims(entries, digest))
  {
    hide Portable, GoodEntry, Claim, PathOf;
    forall k | 0 <= k < |entries|
      ensures GoodEntry(Claims(entries, digest)[k]) && PathOf(Claims(entries, digest)[k]) == entries[k].name
    {
      assert entries[k] in entries;
      ClaimIsGood(entries[k], digest);
    }
  }

  lemma ArchiveCarriesIndex(entries: seq<Member>, digest: Digest, r: Release, read: Reader)
    requires NamesOk(Archive(entries, digest, r)) && Hashes(digest) && ReadsBack(entries, digest, r, read)
    ensures var (members, raw) := (Archive(entries, digest, r), Manifest(r, entries, digest));
            && (Indexed(members, read) <==> |raw| <= MAX_INDEX_BYTES && Accepts(raw))
            && (Indexed(members, read) ==> EntriesOf(members, read) == Claims(entries, digest))
  {
    hide Portable, GoodEntries, Claims, Hashes, Accepts, Manifest;
    var members := Archive(entries, digest, r);
    ManifestLeads(members);
    assert entries == members[1..];
    ClaimsGood(entries, digest);
  }

  lemma ClaimIsGood(m: Member, digest: Digest)
    requires Portable(m.name) && Hashes(digest)
    ensures GoodEntry(Claim(m, digest)) && PathOf(Claim(m, digest)) == m.name && SealIn(Claim(m, digest)) == SealOf(m, digest)
  {
    hide Portable, IsSha256;
    assert IsSha256(digest(m.data));
  }

  lemma {:induction false} ManifestLeads(members: seq<Member>)
    requires members != [] && members[0].name == MANIFEST && Distinct(members)
    ensures ManifestOf(members) == Some(members[0])
  {
    if |members| > 1 { ManifestLeads(members[..|members| - 1]); }
  }

  lemma PutAround(m: map<string, Seal>, name: string, seal: Seal)
    requires name != MANIFEST
    ensures m[name := seal] - {MANIFEST} == (m - {MANIFEST})[name := seal]
  {
  }

  /** The claims, read as a table, are the seals of the archive but its manifest's. */
  lemma {:induction false} SealsAgree(entries: seq<Member>, digest: Digest, first: Member)
    requires first.name == MANIFEST && forall m :: m in entries ==> m.name != MANIFEST
    ensures Listed(Claims(entries, digest)) == Present([first] + entries, digest) - {MANIFEST}
  {
    hide Listed, Present, Claims, SealOf;
    if entries == [] {
      NothingAgrees(digest, first);
    } else {
      var earlier, last := entries[..|entries| - 1], entries[|entries| - 1];
      SealsAgree(earlier, digest, first);
      ClaimsStep(entries, digest);
      PresentStep(first, entries, digest);
      PutAround(Present([first] + earlier, digest), last.name, SealOf(last, digest));
    }
  }

  lemma NothingAgrees(digest: Digest, first: Member)
    requires first.name == MANIFEST
    ensures Listed(Claims([], digest)) == Present([first] + [], digest) - {MANIFEST}
  {
    assert [first] + [] == [first] && [first][..0] == [];
  }

  lemma ClaimsStep(entries: seq<Member>, digest: Digest)
    requires entries != []
    ensures var (earlier, last) := (entries[..|entries| - 1], entries[|entries| - 1]);
            Listed(Claims(entries, digest)) == Listed(Claims(earlier, digest))[last.name := SealOf(last, digest)]
  {
    hide PathOf, SealIn, SealOf, Claim;
    assert Claims(entries, digest)[..|entries| - 1] == Claims(entries[..|entries| - 1], digest);
    ClaimReads(entries[|entries| - 1], digest);
  }

  lemma PresentStep(first: Member, entries: seq<Member>, digest: Digest)
    requires entries != []
    ensures var (earlier, last) := (entries[..|entries| - 1], entries[|entries| - 1]);
            Present([first] + entries, digest) == Present([first] + earlier, digest)[last.name := SealOf(last, digest)]
  {
    hide SealOf;
    var members := [first] + entries;
    assert members[..|members| - 1] == [first] + entries[..|entries| - 1];
  }

  lemma ClaimReads(m: Member, digest: Digest)
    ensures PathOf(Claim(m, digest)) == m.name && SealIn(Claim(m, digest)) == SealOf(m, digest)
  {
  }

  /** What the verifier asks of an archive before it gives a verdict. */
  ghost predicate Readable(members: seq<Member>, read: Reader) {
    NamesOk(members) && Measurable(members) && Indexed(members, read)
  }

  /** A build over files named apart and portably, none of them the manifest, gets a
      verdict exactly when it is within the ceilings and the names of its files, one
      after another in their order, never leave more than seven brackets open; and the
      verdict is then that the index is intact. */
  lemma BuiltVerifiesIff(payload: seq<Member>, required: set<string>, digest: Digest, r: Release, read: Reader)
    requires Distinct(payload) && (forall m :: m in payload ==> Portable(m.name) && m.name != MANIFEST)
    requires Hashes(digest) && TameRelease(r) && ReadsBack(Entries(payload), digest, r, read)
    ensures var (entries, members) := (Entries(payload), Archive(Entries(payload), digest, r));
            && (Readable(members, read) <==>
                  && |payload| < MAX_MEMBERS && Measurable(members) && |Manifest(r, entries, digest)| <= MAX_INDEX_BYTES
                  && MostOpen(NamesOf(entries)) <= MAX_LEFT_OPEN)
            && (Readable(members, read) ==>
                  Compare(Present(members, digest), Listed(EntriesOf(members, read)), required).IndexIntact())
  {
    hide IsSha256, Measurable, Portable, Entries, Accepts, Manifest, MostOpen, NamesOf, Indexed, TameRelease;
    var entries := Entries(payload);
    var members := Archive(entries, digest, r);
    EntriesNamed(payload);
    EntriesDistinct(payload);
    if |payload| < MAX_MEMBERS {
      ArchiveNamed(entries, members[0]);
      ArchiveCarriesIndex(entries, digest, r, read);
      HashesTame(entries, digest);
      ManifestAccepted(r, entries, digest);
      if Readable(members, read) {
        SealsAgree(entries, digest, members[0]);
        IntactIff(Present(members, digest), Listed(EntriesOf(members, read)), required);
      }
    }
  }

  lemma HashesTame(entries: seq<Member>, digest: Digest)
    requires Hashes(digest)
    ensures forall m :: m in entries ==> Tame(digest(m.data))
  {
    forall m | m in entries
      ensures Tame(digest(m.data))
    {
      assert IsSha256(digest(m.data));
      assert forall i :: 0 <= i < |digest(m.data)| ==> digest(m.data)[i] in digest(m.data);
    }
  }

  /** Names without brackets never stand in the way. */
  lemma BuiltVerifies(payload: seq<Member>, required: set<string>, digest: Digest, r: Release, read: Reader)
    requires Distinct(payload)
    requires forall m :: m in payload ==> Portable(m.name) && m.name != MANIFEST && Tame(m.name)
    requires Hashes(digest) && TameRelease(r) && ReadsBack(Entries(payload), digest, r, read)
    requires |payload| < MAX_MEMBERS && Measurable(Archive(Entries(payload), digest, r))
    requires |Manifest(r, Entries(payload), digest)| <= MAX_INDEX_BYTES
    ensures var members := Archive(Entries(payload), digest, r);
            && Readable(members, read)
            && Compare(Present(members, digest), Listed(EntriesOf(members, read)), required).IndexIntact()
  {
    hide Distinct, Portable, Tame, Hashes, TameRelease, ReadsBack, Measurable, Archive, Manifest, Entries, NamesOf,
         MostOpen, Readable, Compare, Present, Listed, EntriesOf;
    EntriesTame(payload);
    NamesTame(Entries(payload));
    TameIsFlat(NamesOf(Entries(payload)));
    BuiltVerifiesIff(payload, required, digest, r, read);
  }

  lemma EntriesTame(payload: seq<Member>)
    requires forall m :: m in payload ==> Tame(m.name)
    ensures forall m :: m in Entries(payload) ==> Tame(m.name)
  {
    hide Tame, Entries;
    EntriesAre(payload);
    forall m | m in Entries(payload)
      ensures Tame(m.name)
    {
      assert m in multiset(AllPacked(payload));
      var k :| 0 <= k < |payload| && AllPacked(payload)[k] == m;
      assert payload[k] in payload;
    }
  }

  lemma {:induction false} NamesTame(entries: seq<Member>)
    requires forall m :: m in entries ==> Tame(m.name)
    ensures Tame(NamesOf(entries))
  {
    if entries != [] {
      NamesTame(entries[1..]);
      assert entries[0] in entries;
    }
  }

  function Openers(n: nat): string { if n == 0 then "" else Openers(n - 1) + "[" }

  function Bracketing(n: nat): string { "mod/" + Openers(n) + ".lua" }

  /** But eight brackets in one portable name are enough: the build writes an archive
      its own verifier refuses. */
  lemma BracketsAreRefused(n: nat, data: Bytes, digest: Digest, r: Release, read: Reader)
    requires n > MAX_LEFT_OPEN && Hashes(digest) && TameRelease(r)
    ensures var payload := [Member(Bracketing(n), data)];
            && Distinct(payload) && Portable(Bracketing(n)) && Bracketing(n) != MANIFEST
            && !Indexed(Archive(Entries(payload), digest, r), read)
  {
    hide Portable, Bracketing, Accepts, Manifest, MostOpen, NamesOf, Hashes, TameRelease, Entries;
    var payload := [Member(Bracketing(n), data)];
    BracketingIsPortable(n);
    OneEntry(payload[0]);
    var entries := Entries(payload);
    var members := Archive(entries, digest, r);
    BracketingOpens(n);
    HashesTame(entries, digest);
    ManifestAccepted(r, entries, digest);
    assert Distinct(members);
    ManifestLeads(members);
  }

  lemma OneEntry(m: Member)
    ensures |Entries([m])| == 1 && Entries([m])[0].name == m.name && NamesOf(Entries([m])) == m.name
  {
    assert [m][..0] == [];
    var e := Packed(m);
    assert Entries([m]) == [e];
    assert [e][1..] == [];
  }

  lemma {:induction false} OpenersOpen(n: nat)
    ensures Open(Openers(n)) == n
    ensures forall i :: 0 <= i < |Openers(n)| ==> Openers(n)[i] == '['
  {
    if n > 0 {
      OpenersOpen(n - 1);
      assert Openers(n)[..|Openers(n)| - 1] == Openers(n - 1);
    }
  }

  lemma BracketingOpens(n: nat)
    ensures MostOpen(Bracketing(n)) >= n
  {
    hide Open, MostOpen, Openers;
    OpenersOpen(n);
    TameIsFlat("mod/");
    OpenAppend("mod/", Openers(n));
    OpenAppend("mod/" + Openers(n), ".lua");
  }

  lemma BracketingIsPortable(n: nat)
    ensures Portable(Bracketing(n)) && Bracketing(n) != MANIFEST
  {
    hide Cut, Glue, Openers, Component;
    var file := Openers(n) + ".lua";
    OpenersOpen(n);
    LettersOnly("mod");
    LettersOnly(file);
    GlueTwo("mod", file);
    CutUndoesGlue(["mod", file], '/');
    assert Bracketing(n) == "mod" + "/" + file;
    ComponentsArePortable(Bracketing(n));
    assert Bracketing(n)[0] == 'm';
  }

  predicate Letter(c: char) { c == '[' || c == '.' || 'a' <= c <= 'z' }

  lemma LettersOnly(text: string)
    requires |text| >= 3 && forall i :: 0 <= i < |text| ==> Letter(text[i])
    ensures Component(text) && forall c :: c in text ==> !IsControl(c)
  {
  }

  lemma GlueTwo(a: string, b: string)
    ensures Glue([a, b], '/') == a + "/" + b
  {
    assert [a, b][1..] == [b];
  }

  lemma EntriesNamed(payload: seq<Member>)
    requires forall m :: m in payload ==> Portable(m.name) && m.name != MANIFEST
    ensures |Entries(payload)| == |payload|
    ensures forall m :: m in Entries(payload) ==> Portable(m.name) && m.name != MANIFEST
  {
    hide Portable, Entries;
    EntriesAre(payload);
    assert |Entries(payload)| == |multiset(Entries(payload))| == |multiset(AllPacked(payload))| == |payload|;
    forall m | m in Entries(payload)
      ensures Portable(m.name) && m.name != MANIFEST
    {
      assert m in multiset(AllPacked(payload));
      var k :| 0 <= k < |payload| && AllPacked(payload)[k] == m;
      assert payload[k] in payload;
    }
  }

  lemma ArchiveNamed(entries: seq<Member>, first: Member)
    requires first.name == MANIFEST && |entries| < MAX_MEMBERS && Distinct(entries)
    requires forall m :: m in entries ==> Portable(m.name) && m.name != MANIFEST
    ensures NamesOk([first] + entries)
  {
    ManifestIsPortable();
    hide Portable;
    var members := [first] + entries;
    forall i, j | 0 <= i < j < |members|
      ensures members[i].name != members[j].name
    {
      assert members[j] == entries[j - 1] && entries[j - 1] in entries;
      assert i > 0 ==> members[i] == entries[i - 1];
    }
  }

  lemma ManifestIsPortable()
    ensures Portable(MANIFEST)
  {
    assert '/' !in MANIFEST;
  }
}
