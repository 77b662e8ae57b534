/** What an uninstall takes away: exactly the files the ledger claims, and every
    recorded directory with nothing left in it. */
module InstallerCleanup {
  import opened Wrappers
  import opened InstallerPaths
  import opened Installer

  /** A ledger stands, and every entry of it addresses a file inside. */
  predicate Readable(t: Tree) { ReadLedger(t).Ok? && ReadLedger(t).value.Some? }

  /** A file the ledger that stands lets an uninstall remove. */
  predicate Claimed(t: Tree, p: Path, digest: Digest) {
    && Readable(t)
    && Owned(t, ReadLedger(t).value.value.files, p, digest)
  }

  lemma {:induction false} DirectoriesOnly(t: Tree, list: seq<string>)
    ensures var t' := RemoveDirectories(t, list).0;
            && t'.files == t.files && t'.dirs <= t.dirs
            && (forall d :: d in t.dirs && d !in t'.dirs ==> exists text :: text in list && At(text) == d)
            && (WellFormed(t) ==> WellFormed(t'))
  {
    if list != [] {
      DirectoriesOnly(t, list[..|list| - 1]);
      var (rest, ok) := RemoveDirectories(t, list[..|list| - 1]);
      var text := list[|list| - 1];
      if ok && SplitRelative(text).Ok? {
        assert text in list;
        assert forall other :: other in list[..|list| - 1] ==> other in list;
      }
    }
  }

  /** An uninstall removes only claimed files and the ledger, changes none, and unless
      the environment refuses it a file has removed every one of them. */
  lemma UninstallRemovesExactly(t: Tree, stop: Option<nat>, digest: Digest, p: Path)
    requires p in t.files && p != LEDGER
    ensures var (t', removal) := Uninstall(t, stop, digest);
            && (p in t'.files ==> t'.files[p] == t.files[p])
            && (p !in t'.files ==> Claimed(t, p, digest))
            && (stop.None? || removal.Removed? ==> (p !in t'.files <==> Claimed(t, p, digest)))
            && t'.files.Keys <= t.files.Keys && t'.dirs <= t.dirs
            && ((stop.None? && Readable(t)) || removal.Removed? ==> LEDGER !in t'.files)
  {
    var ledger := ReadLedger(t);
    if ledger.Ok? && ledger.value.Some? {
      var l := ledger.value.value;
      var bare := WithoutOwned(t, l.files, digest);
      DirectoriesOnly(bare.(files := bare.files - {LEDGER}), DeepestFirst(l.directories));
      if stop.Some? && stop.value < |l.files| {
        assert forall e :: e in l.files[..stop.value] ==> e in l.files;
      }
    }
  }

  /** Refused the removal of an entry, an uninstall stops there: what the entries before
      it claim is gone, and every directory is in place. */
  lemma RefusedRemovalStops(t: Tree, l: Ledger, stop: nat, digest: Digest, p: Path)
    requires ReadLedger(t) == Ok(Some(l)) && stop < |l.files| && p in t.files
    ensures var (t', removal) := Uninstall(t, Some(stop), digest);
            && removal.Stopped? && t'.dirs == t.dirs
            && (p !in t'.files <==> exists k :: 0 <= k < stop && !l.files[k].preserved && At(l.files[k].text) == p
                                                  && l.files[k].mark == digest(t.files[p]))
  {
    hide SplitRelative, At;
    var first := l.files[..stop];
    if k :| 0 <= k < stop && !l.files[k].preserved && At(l.files[k].text) == p && l.files[k].mark == digest(t.files[p]) {
      assert first[k] in first;
    }
  }

  // ---- the user's configuration ----

  /** Uninstalling takes the configuration exactly when the ledger on disk holds an
      entry for it that is not marked preserved and still matches. */
  lemma ConfigGoesIff(t: Tree, digest: Digest)
    requires CONFIG in t.files && Readable(t)
    ensures CONFIG !in Uninstall(t, None, digest).0.files <==>
            exists e :: e in ReadLedger(t).value.value.files && !e.preserved && At(e.text) == CONFIG
                        && e.mark == digest(t.files[CONFIG])
  {
    UninstallRemovesExactly(t, None, digest, CONFIG);
  }

  /** No ledger an install writes is such a ledger. */
  lemma {:induction false} PlacedKeepsConfig(t: Tree, items: seq<Item>, n: nat, fault: Fault, digest: Digest)
    requires Plan(items) && n <= |items|
    ensures forall e :: e in Place(t, items, n, fault, digest).placed && At(e.text) == CONFIG ==> e.preserved
  {
    if n > 0 {
      PlacedKeepsConfig(t, items, n - 1, fault, digest);
      TextOf(items[n - 1].path);
    }
  }

  lemma TextOf(p: Path)
    requires Inside(p)
    ensures SplitRelative(Joined(p)) == Ok(p) && At(Joined(p)) == p
  {
    SplitExactly(Joined(p), p);
  }

  /** But a ledger edited to drop the mark costs the user the configuration. */
  lemma EditedLedgerTakesConfig(t: Tree, digest: Digest)
    requires CONFIG in t.files && LEDGER in t.files
    requires var entry := Entry(Joined(CONFIG), ConfigFile, digest(t.files[CONFIG]), false);
             t.files[LEDGER] == Document(Ledger("", [entry], []))
    ensures Uninstall(t, None, digest).1.Removed? && CONFIG !in Uninstall(t, None, digest).0.files
  {
    hide SplitRelative, Uninstall;
    var entry := Entry(Joined(CONFIG), ConfigFile, digest(t.files[CONFIG]), false);
    TextOf(CONFIG);
    var l := Ledger("", [entry], []);
    assert ReadLedger(t) == Ok(Some(l));
    assert entry in l.files;
    UninstallEnds(t, l, digest);
    ConfigGoesIff(t, digest);
  }

  lemma UninstallEnds(t: Tree, l: Ledger, digest: Digest)
    requires ReadLedger(t) == Ok(Some(l)) && l.directories == []
    ensures Uninstall(t, None, digest).1.Removed?
  {
  }

  ghost predicate AllSplit(list: seq<string>) { forall text :: text in list ==> SplitRelative(text).Ok? }

  /** A directory text that does not split stops an uninstall after its files and its
      ledger are gone, so no second run can finish the work. */
  lemma BadDirectoryStops(t: Tree, l: Ledger, text: string, digest: Digest)
    requires ReadLedger(t) == Ok(Some(l)) && text in l.directories && SplitRelative(text).Err?
    ensures var (t', removal) := Uninstall(t, None, digest);
            removal.Stopped? && LEDGER !in t'.files && Uninstall(t', None, digest) == (t', NothingRecorded)
  {
    hide WithoutOwned, SplitRelative, DeepestFirst, RemoveDirectories;
    var bare' := Bare(t, l, digest);
    var list := DeepestFirst(l.directories);
    SameTexts(l.directories, text);
    StopsAt(bare', list, text);
    DirectoriesOnly(bare', list);
  }

  /** And nothing else does: once the ledger is read an uninstall nothing refuses comes
      to its end exactly when every directory text it holds splits. */
  lemma FinishesIff(t: Tree, l: Ledger, digest: Digest)
    requires ReadLedger(t) == Ok(Some(l))
    ensures Uninstall(t, None, digest).1.Removed? <==> AllSplit(l.directories)
  {
    hide WithoutOwned, SplitRelative, DeepestFirst, RemoveDirectories;
    if text :| text in l.directories && SplitRelative(text).Err? {
      BadDirectoryStops(t, l, text, digest);
    } else {
      SplitSame(l.directories);
      AllSplitEnds(Bare(t, l, digest), DeepestFirst(l.directories));
    }
  }

  /** The tree once the claimed files and the ledger are gone. */
  function Bare(t: Tree, l: Ledger, digest: Digest): Tree {
    var bare := WithoutOwned(t, l.files, digest);
    bare.(files := bare.files - {LEDGER})
  }

  lemma SameTexts(list: seq<string>, text: string)
    ensures text in DeepestFirst(list) <==> text in list
  {
    assert text in multiset(DeepestFirst(list)) <==> text in multiset(list);
  }

  lemma SplitSame(list: seq<string>)
    requires AllSplit(list)
    ensures AllSplit(DeepestFirst(list))
  {
    hide SplitRelative;
    forall text | text in DeepestFirst(list)
      ensures SplitRelative(text).Ok?
    {
      SameTexts(list, text);
    }
  }

  lemma {:induction false} AllSplitEnds(t: Tree, list: seq<string>)
    requires AllSplit(list)
    ensures RemoveDirectories(t, list).1
  {
    if list != [] { AllSplitEnds(t, list[..|list| - 1]); }
  }

  lemma {:induction false} StopsAt(t: Tree, list: seq<string>, text: string)
    requires text in list && SplitRelative(text).Err?
    ensures !RemoveDirectories(t, list).1
  {
    if text != list[|list| - 1] {
      StopsAt(t, list[..|list| - 1], text);
    }
  }

  // ---- directories ----

  ghost predicate Falling(list: seq<string>) {
    forall i, j :: 0 <= i < j < |list| ==> Depth(list[i]) >= Depth(list[j])
  }

  lemma PutHolds(list: seq<string>, text: string, k: nat)
    requires k < |PutByDepth(list, text)|
    ensures PutByDepth(list, text)[k] == text || PutByDepth(list, text)[k] in list
  {
    assert PutByDepth(list, text)[k] in multiset(PutByDepth(list, text));
  }

  lemma {:induction false} PutKeepsFalling(list: seq<string>, text: string)
    requires Falling(list)
    ensures Falling(PutByDepth(list, text))
  {
    hide Depth;
    if list != [] && Depth(text) > Depth(list[|list| - 1]) {
      var last, earlier := list[|list| - 1], list[..|list| - 1];
      PutKeepsFalling(earlier, text);
      forall k | 0 <= k < |PutByDepth(earlier, text)|
        ensures Depth(PutByDepth(earlier, text)[k]) >= Depth(last)
      {
        PutHolds(earlier, text, k);
      }
    }
  }

  lemma {:induction false} DeepestFirstFalls(list: seq<string>)
    ensures Falling(DeepestFirst(list))
  {
    if list != [] {
      DeepestFirstFalls(list[..|list| - 1]);
      PutKeepsFalling(DeepestFirst(list[..|list| - 1]), list[|list| - 1]);
    }
  }

  /** Deepest first, every listed directory is gone or still holds something. */
  lemma {:induction false} NoneLeftEmpty(t: Tree, list: seq<string>, text: string)
    requires Falling(list) && RemoveDirectories(t, list).1 && text in list
    ensures var t' := RemoveDirectories(t, list).0;
            At(text) in t'.dirs ==> !Empty(t', At(text))
  {
    var last := list[|list| - 1];
    var earlier := list[..|list| - 1];
    var rest := RemoveDirectories(t, earlier).0;
    if text in earlier {
      NoneLeftEmpty(t, earlier, text);
      var i :| 0 <= i < |earlier| && earlier[i] == text;
      assert Depth(list[i]) >= Depth(last);
      var t' := RemoveIfEmpty(rest, At(last));
      if At(text) in rest.dirs && t' != rest {
        DepthOf(text);
        DepthOf(last);
        assert At(text) !in Parents(At(last));
      }
    }
  }

  /** An uninstall that comes to its end leaves no recorded directory empty. */
  lemma UninstallLeavesNoneEmpty(t: Tree, l: Ledger, text: string, digest: Digest)
    requires ReadLedger(t) == Ok(Some(l)) && AllSplit(l.directories) && text in l.directories
    ensures var t' := Uninstall(t, None, digest).0;
            At(text) in t'.dirs ==> !Empty(t', At(text))
  {
    hide WithoutOwned, RemoveDirectories, DeepestFirst;
    FinishesIff(t, l, digest);
    DeepestFirstFalls(l.directories);
    SameTexts(l.directories, text);
    NoneLeftEmpty(Bare(t, l, digest), DeepestFirst(l.directories), text);
  }

  lemma DepthOf(text: string)
    ensures At(text) != [] ==> |At(text)| == Depth(text)
  {
  }

  /** A directory a list names, gone down to the last one that can go, stays exactly
      when there was something below it the list could not reach: a file, or a
      directory it does not name. */
  lemma {:induction false} StaysIff(t: Tree, list: seq<string>, d: Path)
    requires WellFormed(t) && Falling(list) && AllSplit(list)
    requires d in t.dirs && Names(list, d)
    ensures d in RemoveDirectories(t, list).0.dirs <==> Holds(t, list, d)
    decreases MAX_DEPTH - |d|
  {
    AllSplitEnds(t, list);
    var t' := RemoveDirectories(t, list).0;
    DirectoriesOnly(t, list);
    var text :| text in list && At(text) == d;
    SplitExactly(text, d);
    if d in t'.dirs {
      NoneLeftEmpty(t, list, text);
      if !exists p :: p in t'.files && d in Parents(p) {
        var p :| p in t'.dirs && d in Parents(p);
        if Names(list, p) {
          var other :| other in list && At(other) == p;
          SplitExactly(other, p);
          assert |d| < |p| <= MAX_DEPTH;
          StaysIff(t, list, p);
          var q :| (q in t.files || (q in t.dirs && !Names(list, q))) && p in Parents(q);
          ParentsNest(q);
        }
      }
    }
  }

  ghost predicate Names(list: seq<string>, d: Path) { exists text :: text in list && At(text) == d }

  ghost predicate Holds(t: Tree, list: seq<string>, d: Path) {
    || (exists p :: p in t.files && d in Parents(p))
    || (exists p :: p in t.dirs && d in Parents(p) && !Names(list, p))
  }

  /** What a file must be to outlast an uninstall. */
  predicate Kept(t: Tree, p: Path, digest: Digest) { p in t.files && p != LEDGER && !Claimed(t, p, digest) }

  /** After a whole uninstall a directory is gone exactly when the ledger records it and
      neither a file that was kept nor a directory it does not record lay below it. */
  lemma DirectoryGoesIff(t: Tree, l: Ledger, d: Path, digest: Digest)
    requires WellFormed(t) && ReadLedger(t) == Ok(Some(l)) && AllSplit(l.directories) && d in t.dirs
    ensures d !in Uninstall(t, None, digest).0.dirs <==>
              && Names(l.directories, d)
              && (forall p :: Kept(t, p, digest) ==> d !in Parents(p))
              && forall p :: p in t.dirs && d in Parents(p) ==> Names(l.directories, p)
  {
    hide RemoveDirectories, DeepestFirst, SplitRelative, Claimed;
    var bare, list := Bare(t, l, digest), DeepestFirst(l.directories);
    SplitSame(l.directories);
    DeepestFirstFalls(l.directories);
    DirectoriesOnly(bare, list);
    NamesSame(l.directories);
    BareKeeps(t, l, digest);
    if Names(l.directories, d) { StaysIff(bare, list, d); }
  }

  lemma NamesSame(list: seq<string>)
    ensures forall d :: Names(DeepestFirst(list), d) <==> Names(list, d)
  {
    forall text
      ensures text in DeepestFirst(list) <==> text in list
    {
      SameTexts(list, text);
    }
  }

  lemma BareKeeps(t: Tree, l: Ledger, digest: Digest)
    requires WellFormed(t) && ReadLedger(t) == Ok(Some(l))
    ensures WellFormed(Bare(t, l, digest)) && Bare(t, l, digest).dirs == t.dirs
    ensures forall p :: p in Bare(t, l, digest).files <==> Kept(t, p, digest)
  {
  }
}
