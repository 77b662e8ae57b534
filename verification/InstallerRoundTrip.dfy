/** Installing and taking it back, installing twice, and trying again after an
    install that was cut short. */
module InstallerRoundTrip {
  import opened Wrappers
  import opened InstallerPaths
  import opened Installer
  import opened InstallerSafety
  import opened InstallerCleanup
  import opened InstallerRuns

  const NO_FAULT := Fault(None, 0, None, false, None)

  /** Every part of a tree is part of another, which holds the whole plan. */
  ghost predicate Under(t: Tree, items: seq<Item>, whole: Tree) {
    && WellFormed(whole) && t.files.Keys <= whole.files.Keys && t.dirs <= whole.dirs
    && LEDGER in whole.files && forall i :: 0 <= i < |items| ==> items[i].path in whole.files
  }

  lemma NotBlocked(t: Tree, items: seq<Item>, whole: Tree, p: Path)
    requires Under(t, items, whole) && p in whole.files
    ensures !Blocked(t, p)
  {
  }

  /** Without a fault, nothing stops an install a larger tree already shows the room for. */
  lemma {:induction false} PlaceCompletes(t: Tree, items: seq<Item>, n: nat, whole: Tree, digest: Digest)
    requires Plan(items) && n <= |items| && Under(t, items, whole)
    ensures var w := Place(t, items, n, NO_FAULT, digest);
            w.progress.Going? && Under(w.tree, items, whole)
  {
    if n > 0 {
      PlaceCompletes(t, items, n - 1, whole, digest);
      var w := Place(t, items, n - 1, NO_FAULT, digest);
      NotBlocked(w.tree, items, whole, items[n - 1].path);
    }
  }

  /** A tree with every planned destination as the install leaves it. */
  function Filled(t: Tree, items: seq<Item>, n: nat): (files: map<Path, Content>)
    requires n <= |items|
  {
    if n == 0 then t.files else Filled(t, items, n - 1)[items[n - 1].path := Final(t, items[n - 1])]
  }

  lemma {:induction false} PlaceFills(t: Tree, items: seq<Item>, n: nat, fault: Fault, digest: Digest)
    requires Plan(items) && n <= |items| && Place(t, items, n, fault, digest).progress.Going?
    ensures Place(t, items, n, fault, digest).tree.files == Filled(t, items, n)
  {
    if n > 0 {
      PlaceFills(t, items, n - 1, fault, digest);
      PlaceFrames(t, items, n - 1, fault, digest);
    }
  }

  /** A finished install, in closed form. */
  lemma InstalledTree(t: Tree, items: seq<Item>, stamp: string, fault: Fault, digest: Digest)
    requires Plan(items) && Install(t, items, stamp, fault, digest).1.Installed?
    ensures var (t', outcome) := Install(t, items, stamp, fault, digest);
            && t'.files == Filled(t, items, |items|)[LEDGER := Document(outcome.ledger)]
            && outcome.ledger.stamp == stamp && outcome.ledger.directories == Directories(items)
            && |outcome.ledger.files| == |items|
            && (forall k :: 0 <= k < |items| ==> outcome.ledger.files[k] == EntryFor(items[k], Final(t, items[k]), digest))
            && (forall k :: 0 <= k < |items| ==> items[k].path in t'.files && t'.files[items[k].path] == Final(t, items[k]))
            && (WellFormed(t) ==> WellFormed(t'))
  {
    hide Place, EntryFor, Final, Filled, AllPass, Directories;
    PlaceFails(t, items, |items|, fault, digest);
    PlaceFills(t, items, |items|, fault, digest);
    PlaceRecords(t, items, |items|, fault, digest);
  }

  /** The entries of a ledger made from a plan read back as that plan. */
  lemma {:induction false} EntriesRead(t: Tree, items: seq<Item>, entries: seq<Entry>, digest: Digest, k: nat)
    requires Plan(items) && k < |entries| <= |items|
    requires forall j :: 0 <= j < |entries| ==> entries[j] == EntryFor(items[j], Final(t, items[j]), digest)
    ensures forall j :: 0 <= j < |entries| ==> SplitRelative(entries[j].text) == Ok(items[j].path)
    ensures Last(entries, items[k].path) == Some(entries[k])
  {
    hide SplitRelative;
    forall j | 0 <= j < |entries|
      ensures SplitRelative(entries[j].text) == Ok(items[j].path) && At(entries[j].text) == items[j].path
    {
      TextOf(items[j].path);
    }
    LastIs(entries, items[k].path, k);
  }

  lemma {:induction false} LastIs(entries: seq<Entry>, p: Path, k: nat)
    requires k < |entries| && At(entries[k].text) == p
    requires forall j :: k < j < |entries| ==> At(entries[j].text) != p
    ensures Last(entries, p) == Some(entries[k])
  {
    if k < |entries| - 1 { LastIs(entries[..|entries| - 1], p, k); }
  }

  // ---- again over itself ----

  /** Installing the same plan over a finished install changes the ledger file alone. */
  lemma ReinstallIsIdle(t: Tree, items: seq<Item>, stamp: string, again: string, digest: Digest)
    requires Plan(items) && WellFormed(t) && Install(t, items, stamp, NO_FAULT, digest).1.Installed?
    ensures var (t1, first) := Install(t, items, stamp, NO_FAULT, digest);
            var (t2, second) := Install(t1, items, again, NO_FAULT, digest);
            && second == Installed(first.ledger.(stamp := again))
            && t2.files == t1.files[LEDGER := Document(first.ledger.(stamp := again))]
  {
    var (t1, first) := Install(t, items, stamp, NO_FAULT, digest);
    InstalledTree(t, items, stamp, NO_FAULT, digest);
    AfterwardsAllPass(t, t1, items, first.ledger, digest);
    PlaceCompletes(t1, items, |items|, t1, digest);
    NotBlocked(Place(t1, items, |items|, NO_FAULT, digest).tree, items, t1, LEDGER);
    InstalledTree(t1, items, again, NO_FAULT, digest);
    RefillIsIdle(t, t1, items, |items|);
    var second := Install(t1, items, again, NO_FAULT, digest).1;
    assert forall k :: 0 <= k < |items| ==> Final(t1, items[k]) == Final(t, items[k]);
    assert second.ledger.files == first.ledger.files;
  }

  lemma AfterwardsAllPass(t: Tree, t1: Tree, items: seq<Item>, l: Ledger, digest: Digest)
    requires Plan(items) && LEDGER in t1.files && t1.files[LEDGER] == Document(l) && |l.files| == |items|
    requires forall k :: 0 <= k < |items| ==> l.files[k] == EntryFor(items[k], Final(t, items[k]), digest)
    requires forall k :: 0 <= k < |items| ==> items[k].path in t1.files && t1.files[items[k].path] == Final(t, items[k])
    ensures ReadLedger(t1) == Ok(Some(l)) && AllPass(t1, items, Some(l), digest)
  {
    forall k | 0 <= k < |items|
      ensures Passes(t1, items[k], Some(l), digest) && SplitRelative(l.files[k].text).Ok?
    {
      EntriesRead(t, items, l.files, digest, k);
    }
  }

  lemma {:induction false} RefillIsIdle(t: Tree, t1: Tree, items: seq<Item>, n: nat)
    requires n <= |items|
    requires forall k :: 0 <= k < |items| ==> items[k].path in t1.files && t1.files[items[k].path] == Final(t, items[k])
    ensures Filled(t1, items, n) == t1.files
  {
    if n > 0 { RefillIsIdle(t, t1, items, n - 1); }
  }

  // ---- and back ----

  lemma {:induction false} DirectoriesSplit(items: seq<Item>, text: string)
    requires (forall item :: item in items ==> |item.path| >= 1 && Inside(item.path)) && text in Directories(items)
    ensures SplitRelative(text).Ok? && |At(text)| >= 2
    ensures exists item :: item in items && At(text) in Parents(item.path)
  {
    var earlier := items[..|items| - 1];
    if text in Directories(earlier) {
      DirectoriesSplit(earlier, text);
    } else {
      var p := items[|items| - 1].path;
      var k := FreshIs(Directories(earlier), p, 2, text);
      assert forall part :: part in p[..k] ==> part in p;
      TextOf(p[..k]);
      assert p[..k] in Parents(p);
    }
  }

  lemma {:induction false} FreshIs(named: seq<string>, p: Path, from: nat, text: string) returns (k: nat)
    requires 1 <= from && text in Fresh(named, p, from)
    ensures from <= k < |p| && text == Joined(p[..k])
    decreases |p| - from
  {
    if Joined(p[..from]) !in named && text == Joined(p[..from]) {
      k := from;
    } else {
      k := FreshIs(named, p, from + 1, text);
    }
  }

  lemma OwnUninstallEnds(t: Tree, items: seq<Item>, l: Ledger, digest: Digest)
    requires Plan(items) && ReadLedger(t) == Ok(Some(l)) && l.directories == Directories(items)
    ensures Uninstall(t, None, digest).1.Removed? && AllSplit(l.directories)
  {
    hide SplitRelative, Directories, Plan, Uninstall;
    AllInside(items);
    forall text | text in l.directories
      ensures SplitRelative(text).Ok?
    {
      DirectoriesSplit(items, text);
    }
    FinishesIff(t, l, digest);
  }

  lemma AllInside(items: seq<Item>)
    requires Plan(items)
    ensures forall item :: item in items ==> |item.path| >= 1 && Inside(item.path)
  {
  }

  /** Into a target with no ledger and out again: every file is back as it was, and
      the configuration stays, the user's own or the one placed. */
  lemma FreshRoundTrip(t: Tree, items: seq<Item>, stamp: string, fault: Fault, digest: Digest, p: Path)
    requires Plan(items) && LEDGER !in t.files && Install(t, items, stamp, fault, digest).1.Installed?
    ensures var t' := Uninstall(Install(t, items, stamp, fault, digest).0, None, digest).0;
            if p == CONFIG && exists item :: item in items && item.path == CONFIG then
              p in t'.files && forall item :: item in items && item.path == CONFIG ==> t'.files[p] == Final(t, item)
            else if p in t.files then p in t'.files && t'.files[p] == t.files[p]
            else p !in t'.files
  {
    hide Uninstall, SplitRelative, Directories, Filled;
    var (t1, outcome) := Install(t, items, stamp, fault, digest);
    var l := outcome.ledger;
    InstalledTree(t, items, stamp, fault, digest);
    AfterwardsAllPass(t, t1, items, l, digest);
    OwnUninstallEnds(t1, items, l, digest);
    FilledIs(t, items, |items|, p);
    if p in t1.files && p != LEDGER {
      UninstallRemovesExactly(t1, None, digest, p);
      ClaimsExactly(t, t1, items, l, digest, p);
    } else {
      GoneStaysGone(t1, l, digest, p);
    }
    if Planned(items, |items|, p) {
      var i :| 0 <= i < |items| && items[i].path == p;
      assert Passes(t, items[i], None, digest);
      assert items[i] in items;
    }
  }

  lemma {:induction false} FilledIs(t: Tree, items: seq<Item>, n: nat, p: Path)
    requires n <= |items|
    ensures !Planned(items, n, p) ==> (p in Filled(t, items, n) <==> p in t.files)
    ensures !Planned(items, n, p) && p in t.files ==> Filled(t, items, n)[p] == t.files[p]
  {
    if n > 0 {
      FilledIs(t, items, n - 1, p);
      assert Planned(items, n - 1, p) ==> Planned(items, n, p);
      assert items[n - 1].path == p ==> Planned(items, n, p);
    }
  }

  /** What the ledger of a finished install claims: the plan, but for the configuration. */
  lemma ClaimsExactly(t: Tree, t1: Tree, items: seq<Item>, l: Ledger, digest: Digest, p: Path)
    requires Plan(items) && ReadLedger(t1) == Ok(Some(l)) && |l.files| == |items|
    requires forall k :: 0 <= k < |items| ==> l.files[k] == EntryFor(items[k], Final(t, items[k]), digest)
    requires forall k :: 0 <= k < |items| ==> items[k].path in t1.files && t1.files[items[k].path] == Final(t, items[k])
    ensures Claimed(t1, p, digest) <==> Planned(items, |items|, p) && p != CONFIG
  {
    hide SplitRelative, Final;
    if |items| > 0 { EntriesRead(t, items, l.files, digest, 0); }
    if Planned(items, |items|, p) && p != CONFIG {
      var i :| 0 <= i < |items| && items[i].path == p;
      assert l.files[i] in l.files;
    }
    if Claimed(t1, p, digest) {
      var e :| e in l.files && !e.preserved && At(e.text) == p && digest(t1.files[p]) == e.mark;
      var i :| 0 <= i < |l.files| && l.files[i] == e;
      assert items[i].path == p;
    }
  }

  lemma GoneStaysGone(t: Tree, l: Ledger, digest: Digest, p: Path)
    requires ReadLedger(t) == Ok(Some(l)) && (p !in t.files || p == LEDGER)
    ensures p !in Uninstall(t, None, digest).0.files
  {
    var bare := WithoutOwned(t, l.files, digest);
    DirectoriesOnly(bare.(files := bare.files - {LEDGER}), DeepestFirst(l.directories));
  }

  /** Every directory two deep or more on the way to a planned file is recorded. */
  lemma {:induction false} DirectoriesNamed(items: seq<Item>, item: Item, d: Path)
    requires (forall other :: other in items ==> |other.path| >= 1 && Inside(other.path))
    requires item in items && d in Parents(item.path) && |d| >= 2
    ensures Joined(d) in Directories(items)
  {
    var earlier, last := items[..|items| - 1], items[|items| - 1];
    if item in earlier {
      DirectoriesNamed(earlier, item, d);
    } else {
      FreshHas(Directories(earlier), last.path, 2, |d|);
      assert d == last.path[..|d|];
    }
  }

  lemma {:induction false} FreshHas(named: seq<string>, p: Path, from: nat, k: nat)
    requires 1 <= from <= k < |p|
    ensures Joined(p[..k]) in named || Joined(p[..k]) in Fresh(named, p, from)
    decreases |p| - from
  {
    if from < k { FreshHas(named, p, from + 1, k); }
  }

  /** On the way to a planned file. */
  ghost predicate OnTheWay(items: seq<Item>, d: Path) { exists item :: item in items && d in Parents(item.path) }

  lemma RecordedIff(items: seq<Item>, d: Path)
    requires Plan(items)
    ensures Names(Directories(items), d) <==> |d| >= 2 && OnTheWay(items, d)
  {
    hide Plan, SplitRelative, Directories;
    AllInside(items);
    if Names(Directories(items), d) {
      var text :| text in Directories(items) && At(text) == d;
      DirectoriesSplit(items, text);
    }
    if |d| >= 2 && OnTheWay(items, d) {
      var item :| item in items && d in Parents(item.path);
      DirectoriesNamed(items, item, d);
      assert forall part :: part in d ==> part in item.path;
      TextOf(d);
    }
  }

  lemma InstalledDirectories(t: Tree, items: seq<Item>, stamp: string, fault: Fault, digest: Digest, d: Path)
    requires Plan(items) && WellFormed(t) && Install(t, items, stamp, fault, digest).1.Installed?
    ensures var t1 := Install(t, items, stamp, fault, digest).0;
            WellFormed(t1) && (d in t1.dirs <==> d in t.dirs || d in Parents(LEDGER) || OnTheWay(items, d))
  {
    hide Filled, Directories, SplitRelative;
    var t1 := Install(t, items, stamp, fault, digest).0;
    InstalledTree(t, items, stamp, fault, digest);
    hide Install;
    InstallGrows(t, items, stamp, fault, digest);
    if OnTheWay(items, d) {
      var item :| item in items && d in Parents(item.path);
      var i :| 0 <= i < |items| && items[i] == item;
      assert items[i].path in t1.files;
    }
  }

  /** And the directories: an install and its uninstall lose a directory of the target
      exactly when it is two deep or more, on the way to a planned file, and held
      nothing but directories that are; and they leave behind no new one but the
      outermost. */
  lemma FreshRoundTripDirectories(t: Tree, items: seq<Item>, stamp: string, fault: Fault, digest: Digest, d: Path)
    requires Plan(items) && WellFormed(t) && LEDGER !in t.files && Install(t, items, stamp, fault, digest).1.Installed?
    ensures var t' := Uninstall(Install(t, items, stamp, fault, digest).0, None, digest).0;
            && (d in t.dirs ==> (d !in t'.dirs <==> OnlyTheWay(t, items, d)))
            && (d !in t.dirs ==> (d in t'.dirs <==> |d| == 1 && (d in Parents(LEDGER) || OnTheWay(items, d))))
  {
    hide Install, Uninstall, Directories, SplitRelative, Claimed, Plan;
    var (t1, outcome) := Install(t, items, stamp, fault, digest);
    InstalledDirectories(t, items, stamp, fault, digest, d);
    InstalledLedger(t, items, stamp, fault, digest);
    OwnUninstallEnds(t1, items, outcome.ledger, digest);
    RecordedIff(items, d);
    if d in t1.dirs {
      DirectoryGoesIff(t1, outcome.ledger, d, digest);
      if |d| >= 2 { WayGoesIff(t, items, stamp, fault, digest, d); }
      if d !in t.dirs { NothingBelow(t, d); }
    } else {
      UninstallMakesNone(t1, digest);
    }
    LedgerIsShallow(d);
  }

  ghost predicate OnlyTheWay(t: Tree, items: seq<Item>, d: Path) {
    && |d| >= 2 && OnTheWay(items, d)
    && (forall p :: p in t.files ==> d !in Parents(p))
    && forall p :: p in t.dirs && d in Parents(p) ==> OnTheWay(items, p)
  }

  lemma LedgerIsShallow(d: Path)
    ensures d in Parents(LEDGER) ==> |d| == 1
    ensures |d| >= 2 ==> d !in Parents(CONFIG)
    ensures |d| == 0 ==> forall p :: d !in Parents(p)
  {
  }

  lemma InstalledLedger(t: Tree, items: seq<Item>, stamp: string, fault: Fault, digest: Digest)
    requires Plan(items) && Install(t, items, stamp, fault, digest).1.Installed?
    ensures var (t1, outcome) := Install(t, items, stamp, fault, digest);
            ReadLedger(t1) == Ok(Some(outcome.ledger)) && outcome.ledger.directories == Directories(items)
  {
    hide Place, Filled, Directories, SplitRelative;
    InstalledTree(t, items, stamp, fault, digest);
    var (t1, outcome) := Install(t, items, stamp, fault, digest);
    hide Install;
    AfterwardsAllPass(t, t1, items, outcome.ledger, digest);
  }

  lemma UninstallMakesNone(t: Tree, digest: Digest)
    ensures Uninstall(t, None, digest).0.dirs <= t.dirs
  {
    var l := ReadLedger(t);
    if l.Ok? && l.value.Some? { DirectoriesOnly(Bare(t, l.value.value, digest), DeepestFirst(l.value.value.directories)); }
  }

  /** Below a directory two deep the files kept are the ones that were there before. */
  lemma KeptIs(t: Tree, items: seq<Item>, stamp: string, fault: Fault, digest: Digest, d: Path, p: Path)
    requires Plan(items) && LEDGER !in t.files && Install(t, items, stamp, fault, digest).1.Installed?
    requires |d| >= 2 && d in Parents(p)
    ensures Kept(Install(t, items, stamp, fault, digest).0, p, digest) <==> p in t.files
  {
    hide Filled, Directories, SplitRelative, Claimed, Place, Close, Final;
    var (t1, outcome) := Install(t, items, stamp, fault, digest);
    InstalledTree(t, items, stamp, fault, digest);
    AfterwardsAllPass(t, t1, items, outcome.ledger, digest);
    ClaimsExactly(t, t1, items, outcome.ledger, digest, p);
    FilledIs(t, items, |items|, p);
    LedgerIsShallow(d);
    if Planned(items, |items|, p) {
      var i :| 0 <= i < |items| && items[i].path == p;
      assert Passes(t, items[i], None, digest);
    }
  }

  /** So what holds such a directory is what held it before. */
  lemma WayGoesIff(t: Tree, items: seq<Item>, stamp: string, fault: Fault, digest: Digest, d: Path)
    requires Plan(items) && WellFormed(t) && LEDGER !in t.files && Install(t, items, stamp, fault, digest).1.Installed?
    requires |d| >= 2
    ensures var (t1, outcome) := Install(t, items, stamp, fault, digest);
            && ((forall p :: Kept(t1, p, digest) ==> d !in Parents(p)) <==> (forall p :: p in t.files ==> d !in Parents(p)))
            && ((forall p :: p in t1.dirs && d in Parents(p) ==> Names(outcome.ledger.directories, p)) <==>
                  (forall p :: p in t.dirs && d in Parents(p) ==> OnTheWay(items, p)))
  {
    var (t1, outcome) := Install(t, items, stamp, fault, digest);
    InstalledLedger(t, items, stamp, fault, digest);
    hide Install, Kept, Plan, OnTheWay, Directories, WellFormed, Names;
    forall p | d in Parents(p)
      ensures Kept(t1, p, digest) <==> p in t.files
      ensures p in t1.dirs <==> p in t.dirs || OnTheWay(items, p)
      ensures Names(outcome.ledger.directories, p) <==> OnTheWay(items, p)
    {
      KeptIs(t, items, stamp, fault, digest, d, p);
      InstalledDirectories(t, items, stamp, fault, digest, p);
      RecordedIff(items, p);
      LedgerIsShallow(p);
    }
  }

  lemma NothingBelow(t: Tree, d: Path)
    requires WellFormed(t) && d !in t.dirs
    ensures forall p :: p in t.files || p in t.dirs ==> d !in Parents(p)
  {
  }

  // ---- trying again ----

  /** An install cut short at an item leaves a ledger of the items before it.  The
      next attempt is refused exactly when that destination, or a later one, is there
      and is not the configuration. */
  lemma RetryRefusedIff(t: Tree, items: seq<Item>, stamp: string, fault: Fault, again: string, next: Fault, digest: Digest)
    requires Plan(items) && Install(t, items, stamp, fault, digest).1.Interrupted?
    ensures var (t1, outcome) := Install(t, items, stamp, fault, digest);
            Install(t1, items, again, next, digest) == (t1, Refused) <==>
              exists i :: outcome.at <= i < |items| && !items[i].skipIfPresent && Exists(t1, items[i].path)
  {
    hide Place, SplitRelative, Passes, Close, Final;
    var (t1, outcome) := Install(t, items, stamp, fault, digest);
    var l := outcome.ledger;
    CutShortLedger(t, items, stamp, fault, digest);
    CutShortPasses(t, t1, items, l, digest);
    PlaceFails(t1, items, |items|, next, digest);
  }

  lemma CutShortLedger(t: Tree, items: seq<Item>, stamp: string, fault: Fault, digest: Digest)
    requires Plan(items) && Install(t, items, stamp, fault, digest).1.Interrupted?
    ensures var (t1, outcome) := Install(t, items, stamp, fault, digest);
            && outcome.at == |outcome.ledger.files| < |items|
            && outcome.ledger.stamp == stamp && outcome.ledger.directories == Directories(items[..outcome.at + 1])
            && LEDGER in t1.files && t1.files[LEDGER] == Document(outcome.ledger)
            && forall k :: 0 <= k < outcome.at ==>
                 && items[k].path in t1.files && t1.files[items[k].path] == Final(t, items[k])
                 && outcome.ledger.files[k] == EntryFor(items[k], Final(t, items[k]), digest)
  {
    hide Place, EntryFor, Final;
    PlaceFails(t, items, |items|, fault, digest);
    PlaceRecords(t, items, |items|, fault, digest);
    var w := Place(t, items, |items|, fault, digest);
    LedgerFrames(w.tree, Install(t, items, stamp, fault, digest).1.ledger, fault);
  }

  lemma CutShortPasses(t: Tree, t1: Tree, items: seq<Item>, l: Ledger, digest: Digest)
    requires Plan(items) && |l.files| < |items| && LEDGER in t1.files && t1.files[LEDGER] == Document(l)
    requires forall k :: 0 <= k < |l.files| ==>
      && items[k].path in t1.files && t1.files[items[k].path] == Final(t, items[k])
      && l.files[k] == EntryFor(items[k], Final(t, items[k]), digest)
    ensures ReadLedger(t1) == Ok(Some(l))
    ensures forall i :: 0 <= i < |items| ==>
      (Passes(t1, items[i], Some(l), digest) <==>
         i < |l.files| || items[i].skipIfPresent || !Exists(t1, items[i].path))
  {
    hide SplitRelative, Final;
    forall i | 0 <= i < |l.files|
      ensures SplitRelative(l.files[i].text) == Ok(items[i].path) && Passes(t1, items[i], Some(l), digest)
    {
      EntriesRead(t, items, l.files, digest, i);
    }
    forall i, e | |l.files| <= i < |items| && e in l.files
      ensures At(e.text) != items[i].path
    {
      var k :| 0 <= k < |l.files| && l.files[k] == e;
      assert items[k].path != items[i].path;
    }
  }

  lemma PlanPrefix(items: seq<Item>, n: nat)
    requires Plan(items) && n <= |items|
    ensures Plan(items[..n])
  {
  }

  /** How many items the ledger of an install holds, and how many it made directories for. */
  function Placed(items: seq<Item>, outcome: Outcome): nat
    requires outcome.Interrupted? ==> outcome.at < |items|
  {
    if outcome.Interrupted? then outcome.at else |items|
  }

  function Reached(items: seq<Item>, outcome: Outcome): nat
    requires outcome.Interrupted? ==> outcome.at < |items|
  {
    if outcome.Interrupted? then outcome.at + 1 else |items|
  }

  /** A ledger that says of the first `placed` items where each is, in what role, what it
      holds and whether it is the user's; and that names, once each, exactly the
      directories two deep or more on the way to the first `reached`. */
  ghost predicate Tells(l: Ledger, items: seq<Item>, placed: nat, reached: nat, tree: Tree, digest: Digest)
    requires placed <= reached <= |items|
  {
    && |l.files| == placed
    && (forall k :: 0 <= k < placed ==>
          && SplitRelative(l.files[k].text) == Ok(items[k].path) && items[k].path in tree.files
          && l.files[k].role == items[k].role && l.files[k].mark == digest(tree.files[items[k].path])
          && (l.files[k].preserved <==> items[k].path == CONFIG))
    && (forall d :: Names(l.directories, d) <==> |d| >= 2 && exists k :: 0 <= k < reached && d in Parents(items[k].path))
    && AllSplit(l.directories)
    && forall i, j :: 0 <= i < j < |l.directories| ==> l.directories[i] != l.directories[j]
  }

  /** What the ledger of an install says, whether it came to its end or was cut short. */
  lemma LedgerTells(t: Tree, items: seq<Item>, stamp: string, fault: Fault, digest: Digest)
    requires Plan(items)
    ensures var (t1, outcome) := Install(t, items, stamp, fault, digest);
            outcome.Installed? || outcome.Interrupted? ==>
              && outcome.ledger.stamp == stamp
              && LEDGER in t1.files && t1.files[LEDGER] == Document(outcome.ledger)
              && Tells(outcome.ledger, items, Placed(items, outcome), Reached(items, outcome), t1, digest)
  {
    hide Place, PlaceOne, Final, Directories, SplitRelative, Tells;
    var (t1, outcome) := Install(t, items, stamp, fault, digest);
    if outcome.Installed? {
      InstalledTree(t, items, stamp, fault, digest);
      assert items[..|items|] == items;
      LedgerOfPrefix(t, t1, items, outcome.ledger, |items|, |items|, digest);
    } else if outcome.Interrupted? {
      CutShortLedger(t, items, stamp, fault, digest);
      LedgerOfPrefix(t, t1, items, outcome.ledger, outcome.at, outcome.at + 1, digest);
    }
  }

  lemma LedgerOfPrefix(t: Tree, t1: Tree, items: seq<Item>, l: Ledger, placed: nat, reached: nat, digest: Digest)
    requires Plan(items) && placed <= reached <= |items| && |l.files| == placed && l.directories == Directories(items[..reached])
    requires forall k :: 0 <= k < placed ==>
      && items[k].path in t1.files && t1.files[items[k].path] == Final(t, items[k])
      && l.files[k] == EntryFor(items[k], Final(t, items[k]), digest)
    ensures Tells(l, items, placed, reached, t1, digest)
  {
    hide Directories, SplitRelative, Final, Names;
    PlanPrefix(items, reached);
    AllInside(items[..reached]);
    forall k | 0 <= k < placed
      ensures SplitRelative(l.files[k].text) == Ok(items[k].path)
    {
      EntriesRead(t, items, l.files, digest, k);
    }
    forall d
      ensures Names(l.directories, d) <==> |d| >= 2 && exists k :: 0 <= k < reached && d in Parents(items[k].path)
    {
      RecordedIff(items[..reached], d);
      WayOfPrefix(items, reached, d);
    }
    forall text | text in l.directories
      ensures SplitRelative(text).Ok?
    {
      DirectoriesSplit(items[..reached], text);
    }
    DirectoriesOnce(items[..reached]);
  }

  lemma WayOfPrefix(items: seq<Item>, n: nat, d: Path)
    requires n <= |items|
    ensures OnTheWay(items[..n], d) <==> exists k :: 0 <= k < n && d in Parents(items[k].path)
  {
    if OnTheWay(items[..n], d) {
      var item :| item in items[..n] && d in Parents(item.path);
      var k :| 0 <= k < n && items[..n][k] == item;
      assert items[k] == item;
    }
    if k :| 0 <= k < n && d in Parents(items[k].path) { assert items[..n][k] in items[..n]; }
  }

  lemma {:induction false} DirectoriesOnce(items: seq<Item>)
    requires forall item :: item in items ==> |item.path| >= 1 && Inside(item.path)
    ensures forall i, j :: 0 <= i < j < |Directories(items)| ==> Directories(items)[i] != Directories(items)[j]
  {
    if items != [] {
      var (earlier, p) := (Directories(items[..|items| - 1]), items[|items| - 1].path);
      DirectoriesOnce(items[..|items| - 1]);
      FreshOnce(earlier, p, 2);
      var added := Fresh(earlier, p, 2);
      forall i, j | 0 <= i < |earlier| && 0 <= j < |added|
        ensures earlier[i] != added[j]
      {
        FreshIsNew(earlier, p, 2, added[j]);
      }
    }
  }

  lemma {:induction false} FreshIsNew(named: seq<string>, p: Path, from: nat, text: string)
    requires 1 <= from && text in Fresh(named, p, from)
    ensures text !in named
    decreases |p| - from
  {
    if text != Joined(p[..from]) || Joined(p[..from]) in named { FreshIsNew(named, p, from + 1, text); }
  }

  lemma {:induction false} FreshOnce(named: seq<string>, p: Path, from: nat)
    requires 1 <= from && Inside(p)
    ensures forall i, j :: 0 <= i < j < |Fresh(named, p, from)| ==> Fresh(named, p, from)[i] != Fresh(named, p, from)[j]
    decreases |p| - from
  {
    if from < |p| {
      FreshOnce(named, p, from + 1);
      if Joined(p[..from]) !in named && Joined(p[..from]) in Fresh(named, p, from + 1) {
        var k := FreshIs(named, p, from + 1, Joined(p[..from]));
        JoinedApart(p, from, k);
      }
    }
  }

  lemma JoinedApart(p: Path, i: nat, k: nat)
    requires Inside(p) && 1 <= i < k <= |p|
    ensures Joined(p[..i]) != Joined(p[..k])
  {
    hide SplitRelative;
    assert forall part :: part in p[..i] || part in p[..k] ==> part in p;
    TextOf(p[..i]);
    TextOf(p[..k]);
    assert |p[..i]| == i && |p[..k]| == k;
  }

  /** An install cut short and taken back: of the directories two deep or more that it
      made, exactly those are left that hold what the failure left of its item. */
  lemma CutShortDirectories(t: Tree, items: seq<Item>, stamp: string, fault: Fault, digest: Digest, d: Path)
    requires Plan(items) && WellFormed(t) && Install(t, items, stamp, fault, digest).1.Interrupted?
    requires |d| >= 2 && d in Install(t, items, stamp, fault, digest).0.dirs && d !in t.dirs
    ensures var (t1, outcome) := Install(t, items, stamp, fault, digest);
            d in Uninstall(t1, None, digest).0.dirs <==>
              items[outcome.at].path in t1.files && d in Parents(items[outcome.at].path)
  {
    hide Install, Uninstall, SplitRelative, Claimed, Plan, Parents;
    var (t1, outcome) := Install(t, items, stamp, fault, digest);
    var l := outcome.ledger;
    LedgerTells(t, items, stamp, fault, digest);
    CutShortLedger(t, items, stamp, fault, digest);
    CutShortPasses(t, t1, items, l, digest);
    InterruptedReads(t, items, stamp, fault, digest);
    InstallGrows(t, items, stamp, fault, digest);
    DirectoryGoesIff(t1, l, d, digest);
    forall p | d in Parents(p)
      ensures p in t1.dirs ==> Names(l.directories, p)
      ensures Kept(t1, p, digest) <==> p in t1.files && p == items[outcome.at].path
    {
      BelowNew(t, items, stamp, fault, digest, d, p);
    }
    MadeByReached(t, items, stamp, fault, digest, d);
  }

  lemma InterruptedReads(t: Tree, items: seq<Item>, stamp: string, fault: Fault, digest: Digest)
    requires Plan(items) && Install(t, items, stamp, fault, digest).1.Interrupted?
    ensures ReadLedger(t).Ok?
  {
  }

  /** New directories and files come from the items up to the one that failed. */
  lemma MadeByReached(t: Tree, items: seq<Item>, stamp: string, fault: Fault, digest: Digest, p: Path)
    requires Plan(items) && Install(t, items, stamp, fault, digest).1.Interrupted?
    ensures var (t1, outcome) := Install(t, items, stamp, fault, digest);
            && (p in t1.dirs && p !in t.dirs && |p| >= 2 ==> exists k :: 0 <= k < outcome.at + 1 && p in Parents(items[k].path))
            && (p in t1.files && p !in t.files && p != LEDGER ==> Planned(items, outcome.at + 1, p))
  {
    hide PlaceOne;
    var outcome := Install(t, items, stamp, fault, digest).1;
    PlaceFails(t, items, |items|, fault, digest);
    StoppedAt(t, items, |items|, fault, digest);
    PlaceFrames(t, items, outcome.at + 1, fault, digest);
    LedgerFrames(Place(t, items, |items|, fault, digest).tree, outcome.ledger, fault);
    LedgerIsShallow(p);
  }

  lemma BelowNew(t: Tree, items: seq<Item>, stamp: string, fault: Fault, digest: Digest, d: Path, p: Path)
    requires Plan(items) && WellFormed(t) && Install(t, items, stamp, fault, digest).1.Interrupted?
    requires |d| >= 2 && d !in t.dirs && d in Parents(p)
    ensures var (t1, outcome) := Install(t, items, stamp, fault, digest);
            && (p in t1.dirs ==> Names(outcome.ledger.directories, p))
            && (Kept(t1, p, digest) <==> p in t1.files && p == items[outcome.at].path)
  {
    var (t1, outcome) := Install(t, items, stamp, fault, digest);
    var l := outcome.ledger;
    LedgerTells(t, items, stamp, fault, digest);
    CutShortLedger(t, items, stamp, fault, digest);
    CutShortPasses(t, t1, items, l, digest);
    hide Install, SplitRelative, Claimed, Directories, Final;
    MadeByReached(t, items, stamp, fault, digest, p);
    NothingBelow(t, d);
    LedgerIsShallow(d);
    PlanPrefix(items, outcome.at);
    ClaimsExactly(t, t1, items[..outcome.at], l, digest, p);
    PlannedPrefix(items, outcome.at, p);
  }

  lemma PlannedPrefix(items: seq<Item>, n: nat, p: Path)
    requires Plan(items) && n < |items|
    ensures Planned(items[..n], n, p) <==> Planned(items, n, p)
    ensures Planned(items, n + 1, p) <==> Planned(items, n, p) || p == items[n].path
    ensures !Planned(items, n, items[n].path)
  {
    if i :| 0 <= i < n && items[i].path == p { assert items[..n][i].path == p; }
    if i :| 0 <= i < n && items[..n][i].path == p { assert items[i].path == p; }
  }

  /** So an upgrade cut short before a file it was to replace cannot be repeated. */
  lemma CutShortUpgradeStuck(t: Tree, items: seq<Item>, stamp: string, fault: Fault, again: string, digest: Digest, i: nat)
    requires Plan(items) && Install(t, items, stamp, fault, digest).1.Interrupted?
    requires Install(t, items, stamp, fault, digest).1.at <= i < |items|
    requires items[i].path in t.files && !items[i].skipIfPresent
    ensures var t1 := Install(t, items, stamp, fault, digest).0;
            Install(t1, items, again, NO_FAULT, digest) == (t1, Refused)
  {
    RetryRefusedIff(t, items, stamp, fault, again, NO_FAULT, digest);
    InstallTouchesOnlyItsOwn(t, items, stamp, fault, digest, items[i].path);
  }

  /** Into a target with no ledger the same question is about the failing item alone. */
  lemma FreshRetryRefusedIff(t: Tree, items: seq<Item>, stamp: string, fault: Fault, again: string, next: Fault, digest: Digest)
    requires Plan(items) && LEDGER !in t.files && Install(t, items, stamp, fault, digest).1.Interrupted?
    ensures var (t1, outcome) := Install(t, items, stamp, fault, digest);
            Install(t1, items, again, next, digest) == (t1, Refused) <==>
              !items[outcome.at].skipIfPresent && Exists(t1, items[outcome.at].path)
  {
    hide Place, PlaceOne, Close;
    RetryRefusedIff(t, items, stamp, fault, again, next, digest);
    var (t1, outcome) := Install(t, items, stamp, fault, digest);
    forall i | outcome.at < i < |items| && !items[i].skipIfPresent
      ensures !Exists(t1, items[i].path)
    {
      assert Passes(t, items[i], None, digest);
      UnreachedStaysAbsent(t, items, stamp, fault, digest, i);
    }
  }

  lemma UnreachedStaysAbsent(t: Tree, items: seq<Item>, stamp: string, fault: Fault, digest: Digest, i: nat)
    requires Plan(items) && Install(t, items, stamp, fault, digest).1.Interrupted?
    requires Install(t, items, stamp, fault, digest).1.at < i < |items| && !Exists(t, items[i].path)
    ensures !Exists(Install(t, items, stamp, fault, digest).0, items[i].path)
  {
    hide PlaceOne;
    var outcome := Install(t, items, stamp, fault, digest).1;
    var w := Place(t, items, |items|, fault, digest);
    PlaceFails(t, items, |items|, fault, digest);
    StoppedAt(t, items, |items|, fault, digest);
    PlaceFrames(t, items, outcome.at + 1, fault, digest);
    LedgerFrames(w.tree, outcome.ledger, fault);
    var p := items[i].path;
    assert !Planned(items, outcome.at + 1, p);
    assert p !in w.tree.files && p !in w.tree.dirs;
  }

  lemma {:induction false} StoppedAt(t: Tree, items: seq<Item>, n: nat, fault: Fault, digest: Digest)
    requires Plan(items) && n <= |items| && Place(t, items, n, fault, digest).progress.Failed?
    ensures var at := Place(t, items, n, fault, digest).progress.at;
            at < n && Place(t, items, at + 1, fault, digest) == Place(t, items, n, fault, digest)
  {
    if !Place(t, items, n - 1, fault, digest).progress.Going? {
      StoppedAt(t, items, n - 1, fault, digest);
    }
  }

  /** How an install into a target with no ledger grows it, however it ends. */
  lemma InstallGrows(t: Tree, items: seq<Item>, stamp: string, fault: Fault, digest: Digest)
    requires Plan(items) && ReadLedger(t).Ok?
    ensures var t' := Install(t, items, stamp, fault, digest).0;
            && (WellFormed(t) ==> WellFormed(t'))
            && t.dirs <= t'.dirs
            && (forall p :: p in t'.files && p !in t.files ==> p == LEDGER || Planned(items, |items|, p))
            && (forall d :: d in t'.dirs && d !in t.dirs ==>
                  d in Parents(LEDGER) || exists i :: 0 <= i < |items| && d in Parents(items[i].path))
  {
    hide PlaceOne, WriteLedger;
    var w := Place(t, items, |items|, fault, digest);
    PlaceFrames(t, items, |items|, fault, digest);
    PlaceFails(t, items, |items|, fault, digest);
    if w.progress.Failed? {
      LedgerFrames(w.tree, Ledger(stamp, w.placed, Directories(items[..w.progress.at + 1])), fault);
    } else if w.progress.Going? {
      LedgerFrames(w.tree, Ledger(stamp, w.placed, Directories(items)), fault);
    }
  }

  lemma CutShortUnder(t: Tree, items: seq<Item>, stamp: string, fault: Fault, digest: Digest)
    requires Plan(items) && WellFormed(t) && LEDGER !in t.files
    requires Install(t, items, stamp, NO_FAULT, digest).1.Installed?
    ensures var (t0, t1) := (Install(t, items, stamp, NO_FAULT, digest).0, Install(t, items, stamp, fault, digest).0);
            Under(t1, items, t0) && t0.dirs == t.dirs + (set i, d | 0 <= i < |items| && d in Parents(items[i].path) :: d) + Parents(LEDGER)
  {
    hide Install;
    InstallGrows(t, items, stamp, fault, digest);
    InstallGrows(t, items, stamp, NO_FAULT, digest);
    InstalledTree(t, items, stamp, NO_FAULT, digest);
    var (t0, t1) := (Install(t, items, stamp, NO_FAULT, digest).0, Install(t, items, stamp, fault, digest).0);
    forall p | p in t.files
      ensures p in t0.files
    {
      InstallTouchesOnlyItsOwn(t, items, stamp, NO_FAULT, digest, p);
    }
  }

  /** An item's destination is empty, or is the configuration with the whole of its
      planned content. */
  predicate AsPlanned(t: Tree, item: Item) {
    !Exists(t, item.path) || (item.skipIfPresent && item.path in t.files && t.files[item.path] == item.body)
  }

  /** An install into a target with no ledger that is cut short with its item as planned
      is repeated to the very tree it would have made. */
  lemma RetryMakesSameTree(t: Tree, items: seq<Item>, stamp: string, fault: Fault, digest: Digest)
    requires Plan(items) && WellFormed(t) && LEDGER !in t.files
    requires Install(t, items, stamp, NO_FAULT, digest).1.Installed?
    requires Install(t, items, stamp, fault, digest).1.Interrupted?
    requires var (t1, outcome) := Install(t, items, stamp, fault, digest); AsPlanned(t1, items[outcome.at])
    ensures var t1 := Install(t, items, stamp, fault, digest).0;
            Install(t1, items, stamp, NO_FAULT, digest) == Install(t, items, stamp, NO_FAULT, digest)
  {
    hide Place, PlaceOne, Close, Directories, WellFormed, Plan, Blocked, Written, Parents;
    var (t1, outcome) := Install(t, items, stamp, fault, digest);
    var (t0, first) := Install(t, items, stamp, NO_FAULT, digest);
    var (t2, second) := Install(t1, items, stamp, NO_FAULT, digest);
    RetryInstalls(t, items, stamp, fault, digest);
    InstalledTree(t, items, stamp, NO_FAULT, digest);
    InstalledTree(t1, items, stamp, NO_FAULT, digest);
    forall i | 0 <= i < |items|
      ensures Final(t1, items[i]) == Final(t, items[i])
    {
      FinalAgrees(t, items, stamp, fault, digest, i);
    }
    assert first.ledger.files == second.ledger.files;
    FilesAgree(t, t1, items, stamp, fault, digest, first.ledger);
    SameDirectories(t, items, stamp, fault, digest);
  }

  /** And only then: the repeat makes that tree and that ledger exactly when the failure
      left the item as planned. */
  lemma RetryMakesSameTreeIff(t: Tree, items: seq<Item>, stamp: string, fault: Fault, digest: Digest)
    requires Plan(items) && WellFormed(t) && LEDGER !in t.files
    requires Install(t, items, stamp, NO_FAULT, digest).1.Installed?
    requires Install(t, items, stamp, fault, digest).1.Interrupted?
    ensures var (t1, outcome) := Install(t, items, stamp, fault, digest);
            Install(t1, items, stamp, NO_FAULT, digest) == Install(t, items, stamp, NO_FAULT, digest) <==>
              AsPlanned(t1, items[outcome.at])
  {
    hide Install, Plan, WellFormed, Final;
    var (t1, outcome) := Install(t, items, stamp, fault, digest);
    if AsPlanned(t1, items[outcome.at]) {
      RetryMakesSameTree(t, items, stamp, fault, digest);
    } else if !items[outcome.at].skipIfPresent {
      FreshRetryRefusedIff(t, items, stamp, fault, stamp, NO_FAULT, digest);
    } else {
      TornDiffers(t, items, stamp, fault, digest);
    }
  }

  /** The failing item is the configuration, and was not there before. */
  lemma FailingConfigIsNew(t: Tree, items: seq<Item>, stamp: string, fault: Fault, digest: Digest)
    requires Plan(items) && LEDGER !in t.files && Install(t, items, stamp, fault, digest).1.Interrupted?
    requires items[Install(t, items, stamp, fault, digest).1.at].skipIfPresent
    ensures CONFIG !in t.files && items[Install(t, items, stamp, fault, digest).1.at].path == CONFIG
  {
    hide Place, Close, Blocked, Directories;
    EndsIff(t, items, stamp, fault, digest);
    assert StopsAtItem(t, items, Install(t, items, stamp, fault, digest).1.at, fault);
  }

  lemma TornDiffers(t: Tree, items: seq<Item>, stamp: string, fault: Fault, digest: Digest)
    requires Plan(items) && WellFormed(t) && LEDGER !in t.files
    requires Install(t, items, stamp, NO_FAULT, digest).1.Installed?
    requires Install(t, items, stamp, fault, digest).1.Interrupted?
    requires var (t1, outcome) := Install(t, items, stamp, fault, digest);
             items[outcome.at].skipIfPresent && !AsPlanned(t1, items[outcome.at])
    ensures var t1 := Install(t, items, stamp, fault, digest).0;
            Install(t1, items, stamp, NO_FAULT, digest) != Install(t, items, stamp, NO_FAULT, digest)
  {
    hide Place, PlaceOne, Close, Directories, Blocked, Written, Parents, Filled;
    var (t1, outcome) := Install(t, items, stamp, fault, digest);
    FailingConfigIsNew(t, items, stamp, fault, digest);
    RetryInstalls(t, items, stamp, fault, digest);
    InstalledTree(t, items, stamp, NO_FAULT, digest);
    InstalledTree(t1, items, stamp, NO_FAULT, digest);
    InstalledReads(t1, items, stamp, digest);
    InstallGrows(t1, items, stamp, NO_FAULT, digest);
  }

  lemma RetryInstalls(t: Tree, items: seq<Item>, stamp: string, fault: Fault, digest: Digest)
    requires Plan(items) && WellFormed(t) && LEDGER !in t.files
    requires Install(t, items, stamp, NO_FAULT, digest).1.Installed?
    requires Install(t, items, stamp, fault, digest).1.Interrupted?
    requires var (t1, outcome) := Install(t, items, stamp, fault, digest);
             items[outcome.at].skipIfPresent || !Exists(t1, items[outcome.at].path)
    ensures Install(Install(t, items, stamp, fault, digest).0, items, stamp, NO_FAULT, digest).1.Installed?
  {
    hide PlaceOne, Directories, WellFormed, Blocked, Written, Parents, AllPass;
    var t0, t1 := Install(t, items, stamp, NO_FAULT, digest).0, Install(t, items, stamp, fault, digest).0;
    FreshRetryRefusedIff(t, items, stamp, fault, stamp, NO_FAULT, digest);
    CutShortUnder(t, items, stamp, fault, digest);
    PlaceCompletes(t1, items, |items|, t0, digest);
    NotBlocked(Place(t1, items, |items|, NO_FAULT, digest).tree, items, t0, LEDGER);
    PlaceFails(t1, items, |items|, NO_FAULT, digest);
  }

  lemma FinalAgrees(t: Tree, items: seq<Item>, stamp: string, fault: Fault, digest: Digest, i: nat)
    requires Plan(items) && LEDGER !in t.files && i < |items|
    requires Install(t, items, stamp, fault, digest).1.Interrupted?
    requires var (t1, outcome) := Install(t, items, stamp, fault, digest); AsPlanned(t1, items[outcome.at])
    ensures Final(Install(t, items, stamp, fault, digest).0, items[i]) == Final(t, items[i])
  {
    hide PlaceOne, Close, Place;
    var (t1, outcome) := Install(t, items, stamp, fault, digest);
    CutShortLedger(t, items, stamp, fault, digest);
    if i >= outcome.at && items[i].skipIfPresent {
      if items[i].path in t.files {
        InstallTouchesOnlyItsOwn(t, items, stamp, fault, digest, items[i].path);
      } else if i > outcome.at && items[i].path in t1.files {
        AbsentFile(t, items, stamp, fault, digest, i);
      }
    }
  }

  lemma AbsentFile(t: Tree, items: seq<Item>, stamp: string, fault: Fault, digest: Digest, i: nat)
    requires Plan(items) && Install(t, items, stamp, fault, digest).1.Interrupted?
    requires Install(t, items, stamp, fault, digest).1.at < i < |items| && items[i].path !in t.files
    ensures items[i].path !in Install(t, items, stamp, fault, digest).0.files
  {
    hide PlaceOne;
    var outcome := Install(t, items, stamp, fault, digest).1;
    var w := Place(t, items, |items|, fault, digest);
    PlaceFails(t, items, |items|, fault, digest);
    StoppedAt(t, items, |items|, fault, digest);
    PlaceFrames(t, items, outcome.at + 1, fault, digest);
    LedgerFrames(w.tree, outcome.ledger, fault);
    assert !Planned(items, outcome.at + 1, items[i].path);
  }

  lemma FilesAgree(t: Tree, t1: Tree, items: seq<Item>, stamp: string, fault: Fault, digest: Digest, l: Ledger)
    requires Plan(items) && LEDGER !in t.files && t1 == Install(t, items, stamp, fault, digest).0
    requires forall i :: 0 <= i < |items| ==> Final(t1, items[i]) == Final(t, items[i])
    ensures Filled(t1, items, |items|)[LEDGER := Document(l)] == Filled(t, items, |items|)[LEDGER := Document(l)]
  {
    hide Install, Final;
    var a, b := Filled(t1, items, |items|)[LEDGER := Document(l)], Filled(t, items, |items|)[LEDGER := Document(l)];
    InstallGrows(t, items, stamp, fault, digest);
    forall p | p != LEDGER
      ensures p in a <==> p in b
      ensures p in a ==> a[p] == b[p]
    {
      if Planned(items, |items|, p) {
        FilledAt(t, t1, items, |items|, p);
      } else {
        FilledIs(t, items, |items|, p);
        FilledIs(t1, items, |items|, p);
        if p in t.files { InstallTouchesOnlyItsOwn(t, items, stamp, fault, digest, p); }
      }
    }
  }

  lemma {:induction false} FilledAt(t: Tree, t1: Tree, items: seq<Item>, n: nat, p: Path)
    requires n <= |items| && Planned(items, n, p)
    requires forall i :: 0 <= i < n ==> Final(t1, items[i]) == Final(t, items[i])
    ensures p in Filled(t, items, n) && p in Filled(t1, items, n) && Filled(t1, items, n)[p] == Filled(t, items, n)[p]
  {
    if p != items[n - 1].path {
      var i :| 0 <= i < n && items[i].path == p;
      assert Planned(items, n - 1, p);
      FilledAt(t, t1, items, n - 1, p);
    }
  }

  lemma SameDirectories(t: Tree, items: seq<Item>, stamp: string, fault: Fault, digest: Digest)
    requires Plan(items) && WellFormed(t) && LEDGER !in t.files
    requires Install(t, items, stamp, NO_FAULT, digest).1.Installed?
    requires Install(Install(t, items, stamp, fault, digest).0, items, stamp, NO_FAULT, digest).1.Installed?
    ensures var t1 := Install(t, items, stamp, fault, digest).0;
            Install(t1, items, stamp, NO_FAULT, digest).0.dirs == Install(t, items, stamp, NO_FAULT, digest).0.dirs
  {
    hide Install, Filled;
    var t0, t1 := Install(t, items, stamp, NO_FAULT, digest).0, Install(t, items, stamp, fault, digest).0;
    var t2 := Install(t1, items, stamp, NO_FAULT, digest).0;
    CutShortUnder(t, items, stamp, fault, digest);
    InstallGrows(t, items, stamp, fault, digest);
    InstalledReads(t1, items, stamp, digest);
    InstallGrows(t1, items, stamp, NO_FAULT, digest);
    InstalledTree(t1, items, stamp, NO_FAULT, digest);
    assert forall i :: 0 <= i < |items| ==> Parents(items[i].path) <= t2.dirs;
  }

  lemma InstalledReads(t: Tree, items: seq<Item>, stamp: string, digest: Digest)
    requires Plan(items) && Install(t, items, stamp, NO_FAULT, digest).1.Installed?
    ensures ReadLedger(t).Ok?
  {
  }

  // ---- nothing recorded ----

  /** On the tree an install starts from: nothing stops the write loop at item `i`.
      A configuration that is there is passed over; anything else needs its way clear,
      and an environment that lets it be written. */
  predicate Clear(t: Tree, items: seq<Item>, i: nat, fault: Fault)
    requires i < |items|
  {
    var p := items[i].path;
    && p !in t.dirs
    && ((p == CONFIG && p in t.files) || (fault.at != Some(i) && forall d :: d in Parents(p) ==> d !in t.files))
  }

  /** Nothing stops it before item `n`. */
  predicate ClearTo(t: Tree, items: seq<Item>, n: nat, fault: Fault)
    requires n <= |items|
  {
    forall i :: 0 <= i < n ==> Clear(t, items, i, fault)
  }

  lemma OneGoes(t: Tree, w: Work, items: seq<Item>, i: nat, fault: Fault, digest: Digest)
    requires Plan(items) && i < |items| && w == Place(t, items, i, fault, digest) && w.progress.Going?
    ensures PlaceOne(w, items[i], i, fault, digest).progress.Going? <==> Clear(t, items, i, fault)
    ensures PlaceOne(w, items[i], i, fault, digest).progress.Crashed? <==> items[i].path == CONFIG && CONFIG in t.dirs
    ensures PlaceOne(w, items[i], i, fault, digest).progress in {Going, Crashed, Failed(i)}
  {
    hide Place;
    PlaceFrames(t, items, i, fault, digest);
    assert !Planned(items, i, items[i].path);
    assert forall d :: d in Parents(items[i].path) ==> !Planned(items, i, d);
  }

  /** A directory stands where the configuration goes, and nothing stops the loop
      before it. */
  predicate Trips(t: Tree, items: seq<Item>, n: nat, fault: Fault)
    requires n <= |items|
  {
    CONFIG in t.dirs && exists c :: 0 <= c < n && items[c].path == CONFIG && ClearTo(t, items, c, fault)
  }

  /** Nothing but the failing item stops the loop, and it is not the configuration over
      a directory. */
  predicate StopsAtItem(t: Tree, items: seq<Item>, at: nat, fault: Fault)
    requires at < |items|
  {
    ClearTo(t, items, at, fault) && !Clear(t, items, at, fault) && !(items[at].path == CONFIG && CONFIG in t.dirs)
  }

  /** How the write loop ends, from the tree it starts from. */
  lemma {:induction false} LoopEnds(t: Tree, items: seq<Item>, n: nat, fault: Fault, digest: Digest)
    requires Plan(items) && n <= |items|
    ensures var progress := Place(t, items, n, fault, digest).progress;
            && (progress.Going? <==> ClearTo(t, items, n, fault))
            && (progress.Crashed? <==> Trips(t, items, n, fault))
            && forall at :: 0 <= at < n ==> (progress == Failed(at) <==> StopsAtItem(t, items, at, fault))
  {
    if n > 0 {
      hide PlaceOne, Clear;
      LoopEnds(t, items, n - 1, fault, digest);
      var w := Place(t, items, n - 1, fault, digest);
      if w.progress.Going? { OneGoes(t, w, items, n - 1, fault, digest); }
      PlaceFails(t, items, n - 1, fault, digest);
    }
  }

  lemma LedgerWayClear(t: Tree, items: seq<Item>, n: nat, fault: Fault, digest: Digest)
    requires Plan(items) && n <= |items|
    ensures Blocked(Place(t, items, n, fault, digest).tree, LEDGER) <==> Blocked(t, LEDGER)
  {
    hide Place, Final;
    PlaceFrames(t, items, n, fault, digest);
    forall d | d in Parents(LEDGER)
      ensures d in Place(t, items, n, fault, digest).tree.files <==> d in t.files
    {
    }
  }

  /** An install does not begin, and changes nothing, exactly when the ledger that stands
      cannot be read, or a destination but the configuration's is taken by something an
      unchanged record does not account for. */
  lemma RefusedIff(t: Tree, items: seq<Item>, stamp: string, fault: Fault, digest: Digest)
    requires Plan(items)
    ensures Install(t, items, stamp, fault, digest).1.Refused? <==>
              || ReadLedger(t).Err?
              || exists i :: 0 <= i < |items| && Exists(t, items[i].path) && items[i].path != CONFIG && !Recorded(t, items[i].path, digest)
    ensures Install(t, items, stamp, fault, digest).1.Refused? ==> Install(t, items, stamp, fault, digest).0 == t
  {
    hide Place, Close, Directories, Known;
    PlaceFails(t, items, |items|, fault, digest);
  }

  /** How an install that began ends, from the tree, the plan and the fault: it comes to
      its end, or is cut short at an item with a record, or leaves no record of itself,
      which happens exactly when a directory stands at the configuration's path and
      nothing stops the loop before it, or the ledger cannot be written. */
  lemma EndsIff(t: Tree, items: seq<Item>, stamp: string, fault: Fault, digest: Digest)
    requires Plan(items) && ReadLedger(t).Ok? && AllPass(t, items, ReadLedger(t).value, digest)
    ensures var (outcome, unwritten) := (Install(t, items, stamp, fault, digest).1, Blocked(t, LEDGER) || fault.ledgerFails);
            && (outcome.Installed? <==> !unwritten && ClearTo(t, items, |items|, fault))
            && (forall at :: 0 <= at < |items| ==>
                  (outcome.Interrupted? && outcome.at == at <==> !unwritten && StopsAtItem(t, items, at, fault)))
            && (outcome.Lost? <==> Trips(t, items, |items|, fault) || unwritten)
  {
    hide Place, Blocked, Directories, Trips, StopsAtItem, ClearTo;
    LoopEnds(t, items, |items|, fault, digest);
    LedgerWayClear(t, items, |items|, fault, digest);
    PlaceFails(t, items, |items|, fault, digest);
  }

  /** With no ledger before or after it, the attempt is not repeated: the next one is
      refused exactly when a destination but the configuration's is there. */
  lemma LostRetryIff(t: Tree, items: seq<Item>, again: string, next: Fault, digest: Digest)
    requires Plan(items) && LEDGER !in t.files
    ensures Install(t, items, again, next, digest) == (t, Refused) <==>
              exists i :: 0 <= i < |items| && !items[i].skipIfPresent && Exists(t, items[i].path)
  {
    hide Place, Close;
    PlaceFails(t, items, |items|, next, digest);
  }

  /** So a directory at the configuration's path, met after the first file, ends the
      matter: nothing is recorded, and every later attempt is refused. */
  lemma ConfigDirectoryLoses(t: Tree, items: seq<Item>, stamp: string, fault: Fault, again: string, next: Fault, digest: Digest, c: nat)
    requires Plan(items) && LEDGER !in t.files && AllPass(t, items, None, digest)
    requires 0 < c < |items| && items[c].path == CONFIG && CONFIG in t.dirs && ClearTo(t, items, c, fault)
    ensures var (t1, outcome) := Install(t, items, stamp, fault, digest);
            outcome.Lost? && LEDGER !in t1.files && Install(t1, items, again, next, digest) == (t1, Refused)
  {
    hide Place, AllPass, Final, EntryFor, Directories;
    var w := Place(t, items, |items|, fault, digest);
    LoopEnds(t, items, c, fault, digest);
    assert Trips(t, items, |items|, fault);
    LoopEnds(t, items, |items|, fault, digest);
    assert Install(t, items, stamp, fault, digest) == (w.tree, Lost);
    hide Install, Trips;
    PlaceFrames(t, items, |items|, fault, digest);
    NeverLedger(items, |items|);
    CrashKeeps(t, items, c, |items|, fault, digest);
    PlaceRecords(t, items, c, fault, digest);
    assert Exists(w.tree, items[0].path) && !items[0].skipIfPresent;
    LostRetryIff(w.tree, items, again, next, digest);
  }

  lemma NeverLedger(items: seq<Item>, n: nat)
    requires Plan(items) && n <= |items|
    ensures !Planned(items, n, LEDGER)
  {
  }

  /** What was placed before the crash is still there after it. */
  lemma {:induction false} CrashKeeps(t: Tree, items: seq<Item>, c: nat, n: nat, fault: Fault, digest: Digest)
    requires Plan(items) && c <= n <= |items|
    ensures Place(t, items, c, fault, digest).tree.files.Keys <= Place(t, items, n, fault, digest).tree.files.Keys
  {
    hide PlaceOne;
    if c < n {
      CrashKeeps(t, items, c, n - 1, fault, digest);
      var w := Place(t, items, n - 1, fault, digest);
      if w.progress.Going? { OneFrames(w, items[n - 1], n - 1, fault, digest); }
    }
  }

  /** A configuration torn by the failure is taken for the user's own by the retry, which
      then makes the tree the first run would have made exactly when it was torn nowhere. */
  lemma TornConfigStays(t: Tree, items: seq<Item>, stamp: string, fault: Fault, digest: Digest)
    requires Plan(items) && WellFormed(t) && LEDGER !in t.files
    requires Install(t, items, stamp, NO_FAULT, digest).1.Installed?
    requires Install(t, items, stamp, fault, digest).1.Interrupted?
    requires var (t1, outcome) := Install(t, items, stamp, fault, digest);
             items[outcome.at].path == CONFIG && CONFIG in t1.files
    ensures var (t1, outcome) := Install(t, items, stamp, fault, digest);
            var (t2, retry) := Install(t1, items, stamp, NO_FAULT, digest);
            && retry.Installed? && CONFIG in t2.files && t2.files[CONFIG] == t1.files[CONFIG]
            && (t2 == Install(t, items, stamp, NO_FAULT, digest).0 <==> t1.files[CONFIG] == items[outcome.at].body)
  {
    hide Place, PlaceOne, Close, Directories, WellFormed, Blocked, Written, Parents, Filled;
    var (t1, outcome) := Install(t, items, stamp, fault, digest);
    FailingConfigIsNew(t, items, stamp, fault, digest);
    RetryInstalls(t, items, stamp, fault, digest);
    InstallTouchesOnlyItsOwn(t1, items, stamp, NO_FAULT, digest, CONFIG);
    InstalledTree(t, items, stamp, NO_FAULT, digest);
    if AsPlanned(t1, items[outcome.at]) { RetryMakesSameTree(t, items, stamp, fault, digest); }
  }

  /** An upgrade drops the record of whatever its plan no longer names.  Whatever ledger
      stood before it, what an uninstall after it leaves is exactly every file the plan
      does not name, and the configuration; and what it leaves of the files there were
      is as it was. */
  lemma UpgradeForgets(t: Tree, items: seq<Item>, stamp: string, fault: Fault, digest: Digest, p: Path)
    requires Plan(items) && Install(t, items, stamp, fault, digest).1.Installed? && p != LEDGER
    ensures var t2 := Uninstall(Install(t, items, stamp, fault, digest).0, None, digest).0;
            && (p in t2.files <==> if Planned(items, |items|, p) then p == CONFIG else p in t.files)
            && (p in t2.files && p in t.files ==> t2.files[p] == t.files[p])
  {
    hide Install, Uninstall, Filled, Final, Claimed;
    var (t1, outcome) := Install(t, items, stamp, fault, digest);
    InstalledTree(t, items, stamp, fault, digest);
    AfterwardsAllPass(t, t1, items, outcome.ledger, digest);
    FilledIs(t, items, |items|, p);
    if p in t.files { InstallTouchesOnlyItsOwn(t, items, stamp, fault, digest, p); }
    if p in t1.files {
      UninstallRemovesExactly(t1, None, digest, p);
      ClaimsExactly(t, t1, items, outcome.ledger, digest, p);
    } else {
      GoneStaysGone(t1, outcome.ledger, digest, p);
    }
  }
}
