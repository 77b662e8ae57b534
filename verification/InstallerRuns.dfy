/** The installer over whole histories: installs that finish or fail part-way,
    uninstalls, and a user who writes and deletes in between. */
module InstallerRuns {
  import opened Wrappers
  import opened InstallerPaths
  import opened Installer
  import opened InstallerSafety
  import opened InstallerCleanup

  datatype Event =
    | Installs(items: seq<Item>, stamp: string, fault: Fault)
    | Uninstalls(stop: Option<nat>)
    | UserWrites(p: Path, c: Content)
    | UserDeletes(p: Path)
    | UserMakes(d: Path)
    | UserRemoves(d: Path)

  /** `written` remembers every content an install ever put at a path. */
  datatype World = World(tree: Tree, written: set<(Path, Content)>)

  /** The user may do anything but write the ledger. */
  ghost predicate Allowed(e: Event) {
    match e
    case Installs(items, _, _) => Plan(items)
    case UserWrites(p, _) => p != LEDGER
    case _ => true
  }

  function Added(t: Tree, t': Tree): set<(Path, Content)> {
    set p | p in t'.files && p != LEDGER && (p in t.files ==> t.files[p] != t'.files[p]) :: (p, t'.files[p])
  }

  ghost function Step(w: World, e: Event, digest: Digest): World
    requires Allowed(e)
  {
    match e
    case Installs(items, stamp, fault) =>
      var t' := Install(w.tree, items, stamp, fault, digest).0;
      World(t', w.written + Added(w.tree, t'))
    case Uninstalls(stop) => w.(tree := Uninstall(w.tree, stop, digest).0)
    case UserWrites(p, c) => w.(tree := w.tree.(files := w.tree.files[p := c]))
    case UserDeletes(p) => w.(tree := w.tree.(files := w.tree.files - {p}))
    case UserMakes(d) => w.(tree := w.tree.(dirs := w.tree.dirs + {d}))
    case UserRemoves(d) => w.(tree := w.tree.(dirs := w.tree.dirs - {d}))
  }

  ghost function After(t: Tree, events: seq<Event>, digest: Digest): World
    requires forall e :: e in events ==> Allowed(e)
  {
    if events == [] then World(t, {})
    else Step(After(t, events[..|events| - 1], digest), events[|events| - 1], digest)
  }

  /** An entry describes something an install once wrote there; only the
      configuration is preserved. */
  ghost predicate Accounted(e: Entry, written: set<(Path, Content)>, digest: Digest) {
    && (e.preserved <==> At(e.text) == CONFIG)
    && (!e.preserved ==> exists c :: (At(e.text), c) in written && digest(c) == e.mark)
  }

  ghost predicate Inv(w: World, digest: Digest) {
    ReadLedger(w.tree).Ok? && ReadLedger(w.tree).value.Some? ==>
      forall e :: e in ReadLedger(w.tree).value.value.files ==> Accounted(e, w.written, digest)
  }

  // ---- what the write loop places ----

  /** The content a destination holds once its turn has come. */
  function Final(t: Tree, item: Item): Content {
    if item.skipIfPresent && item.path in t.files then t.files[item.path] else item.body
  }

  /** Every placed item is on disk and recorded as it is. */
  ghost predicate PlacedAre(t: Tree, w: Work, items: seq<Item>, n: nat, digest: Digest) {
    && n <= |items| && |w.placed| <= n
    && (w.progress.Going? ==> |w.placed| == n) && (w.progress.Failed? ==> |w.placed| == w.progress.at < n)
    && forall k :: 0 <= k < |w.placed| ==>
         && items[k].path != [] && items[k].path in w.tree.files
         && w.tree.files[items[k].path] == Final(t, items[k])
         && w.placed[k] == EntryFor(items[k], Final(t, items[k]), digest)
  }

  lemma {:induction false} PlaceRecords(t: Tree, items: seq<Item>, n: nat, fault: Fault, digest: Digest)
    requires Plan(items) && n <= |items|
    ensures PlacedAre(t, Place(t, items, n, fault, digest), items, n, digest)
  {
    hide PlaceOne, Final;
    if n > 0 {
      var w := Place(t, items, n - 1, fault, digest);
      PlaceRecords(t, items, n - 1, fault, digest);
      if w.progress.Going? {
        PlaceFrames(t, items, n - 1, fault, digest);
        OneRecords(t, w, items[n - 1], n - 1, fault, digest);
        PlacedGrows(t, w, items, n, fault, digest);
      }
    }
  }

  lemma PlacedGrows(t: Tree, w: Work, items: seq<Item>, n: nat, fault: Fault, digest: Digest)
    requires Plan(items) && 0 < n <= |items| && w.progress.Going? && PlacedAre(t, w, items, n - 1, digest)
    requires Records(t, w, PlaceOne(w, items[n - 1], n - 1, fault, digest), items[n - 1], n - 1, digest)
    ensures PlacedAre(t, PlaceOne(w, items[n - 1], n - 1, fault, digest), items, n, digest)
  {
    var w' := PlaceOne(w, items[n - 1], n - 1, fault, digest);
    OneFrames(w, items[n - 1], n - 1, fault, digest);
    hide PlaceOne, Final, EntryFor, Inside;
    forall k | 0 <= k < n - 1
      ensures items[k].path in w'.tree.files && w'.tree.files[items[k].path] == w.tree.files[items[k].path]
    {
      assert items[k].path != items[n - 1].path;
    }
  }

  ghost predicate Records(t: Tree, w: Work, w': Work, item: Item, n: nat, digest: Digest) {
    && item.path != []
    && if w'.progress.Going? then
         && item.path in w'.tree.files && w'.tree.files[item.path] == Final(t, item)
         && w'.placed == w.placed + [EntryFor(item, Final(t, item), digest)]
       else w'.placed == w.placed && (w'.progress.Failed? ==> w'.progress.at == n)
  }

  lemma OneRecords(t: Tree, w: Work, item: Item, n: nat, fault: Fault, digest: Digest)
    requires item.path != [] && w.progress.Going?
    requires item.path in w.tree.files <==> item.path in t.files
    requires item.path in t.files ==> w.tree.files[item.path] == t.files[item.path]
    ensures Records(t, w, PlaceOne(w, item, n, fault, digest), item, n, digest)
  {
  }

  // ---- the invariant ----

  lemma LedgerAfter(t: Tree, l: Ledger, fault: Fault)
    ensures var (t', ok) := WriteLedger(t, l, fault);
            if ok then LEDGER in t'.files && t'.files[LEDGER] == Document(l)
            else if LEDGER in t'.files then t'.files[LEDGER].Raw? || (LEDGER in t.files && t'.files[LEDGER] == t.files[LEDGER])
            else LEDGER !in t.files
  {
  }

  /** After an install the ledger is the one it reports, the one that stood, or unreadable. */
  lemma InstallLedger(t: Tree, items: seq<Item>, stamp: string, fault: Fault, digest: Digest)
    requires Plan(items)
    ensures var (t', outcome) := Install(t, items, stamp, fault, digest);
            if outcome.Installed? || outcome.Interrupted? then LEDGER in t'.files && t'.files[LEDGER] == Document(outcome.ledger)
            else if LEDGER in t'.files then t'.files[LEDGER].Raw? || (LEDGER in t.files && t'.files[LEDGER] == t.files[LEDGER])
            else LEDGER !in t.files
  {
    hide Place, WriteLedger, AllPass;
    PlaceFails(t, items, |items|, fault, digest);
    PlaceFrames(t, items, |items|, fault, digest);
    var w := Place(t, items, |items|, fault, digest);
    if w.progress.Failed? {
      LedgerAfter(w.tree, Ledger(stamp, w.placed, Directories(items[..w.progress.at + 1])), fault);
    } else if w.progress.Going? {
      LedgerAfter(w.tree, Ledger(stamp, w.placed, Directories(items)), fault);
    }
  }

  /** What an install records, it has put on disk or found there. */
  lemma InstallRecords(t: Tree, items: seq<Item>, stamp: string, fault: Fault, digest: Digest, k: nat)
    requires Plan(items)
    requires var outcome := Install(t, items, stamp, fault, digest).1;
             (outcome.Installed? || outcome.Interrupted?) && k < |outcome.ledger.files|
    ensures var (t', outcome) := Install(t, items, stamp, fault, digest);
            && ReadLedger(t).Ok? && k < |items| && Passes(t, items[k], ReadLedger(t).value, digest)
            && items[k].path in t'.files && t'.files[items[k].path] == Final(t, items[k])
            && outcome.ledger.files[k] == EntryFor(items[k], Final(t, items[k]), digest)
  {
    hide Place, WriteLedger, Passes, EntryFor, Final;
    PlaceFails(t, items, |items|, fault, digest);
    PlaceRecords(t, items, |items|, fault, digest);
    var w := Place(t, items, |items|, fault, digest);
    LedgerFrames(w.tree, Install(t, items, stamp, fault, digest).1.ledger, fault);
  }

  lemma InstallKeeps(w: World, items: seq<Item>, stamp: string, fault: Fault, digest: Digest)
    requires Inv(w, digest) && Plan(items)
    ensures Inv(Step(w, Installs(items, stamp, fault), digest), digest)
  {
    hide Install, Accounted, Passes, EntryFor;
    var t := w.tree;
    var (t', outcome) := Install(t, items, stamp, fault, digest);
    InstallLedger(t, items, stamp, fault, digest);
    if outcome.Installed? || outcome.Interrupted? {
      var l := outcome.ledger;
      forall e | e in l.files
        ensures Accounted(e, w.written + Added(t, t'), digest)
      {
        var k :| 0 <= k < |l.files| && l.files[k] == e;
        InstallRecords(t, items, stamp, fault, digest, k);
        EntryIsAccounted(w, t', items[k], e, digest);
      }
    } else if LEDGER in t'.files && t'.files[LEDGER].Document? {
      forall e | e in t'.files[LEDGER].ledger.files && Accounted(e, w.written, digest)
        ensures Accounted(e, w.written + Added(t, t'), digest)
      {
        StaysAccounted(e, w.written, Added(t, t'), digest);
      }
    }
  }

  lemma StaysAccounted(e: Entry, written: set<(Path, Content)>, more: set<(Path, Content)>, digest: Digest)
    requires Accounted(e, written, digest)
    ensures Accounted(e, written + more, digest)
  {
  }

  lemma EntryIsAccounted(w: World, t': Tree, item: Item, e: Entry, digest: Digest)
    requires Inv(w, digest) && ReadLedger(w.tree).Ok? && Passes(w.tree, item, ReadLedger(w.tree).value, digest)
    requires Inside(item.path) && item.path != LEDGER
    requires (item.path == CONFIG <==> item.skipIfPresent) && (item.preserved <==> item.skipIfPresent)
    requires item.path in t'.files && t'.files[item.path] == Final(w.tree, item)
    requires e == EntryFor(item, Final(w.tree, item), digest)
    ensures Accounted(e, w.written + Added(w.tree, t'), digest)
  {
    TextOf(item.path);
    if !item.skipIfPresent {
      if item.path in w.tree.files && w.tree.files[item.path] == item.body {
        var known := Known(ReadLedger(w.tree).value, item.path).value;
        assert Accounted(known, w.written, digest);
      } else {
        assert (item.path, item.body) in Added(w.tree, t');
      }
    }
  }

  lemma StepKeeps(w: World, e: Event, digest: Digest)
    requires Inv(w, digest) && Allowed(e)
    ensures Inv(Step(w, e, digest), digest)
  {
    hide Accounted, Uninstall, Install;
    match e {
      case Installs(items, stamp, fault) => InstallKeeps(w, items, stamp, fault, digest);
      case Uninstalls(stop) => LedgerOnlyGoes(w.tree, stop, digest);
      case _ =>
    }
  }

  lemma LedgerOnlyGoes(t: Tree, stop: Option<nat>, digest: Digest)
    ensures var t' := Uninstall(t, stop, digest).0;
            LEDGER in t'.files ==> LEDGER in t.files && t'.files[LEDGER] == t.files[LEDGER]
  {
    var ledger := ReadLedger(t);
    if ledger.Ok? && ledger.value.Some? {
      var l := ledger.value.value;
      var bare := WithoutOwned(t, l.files, digest);
      DirectoriesOnly(bare.(files := bare.files - {LEDGER}), DeepestFirst(l.directories));
    }
  }

  /** Whatever was installed, cut short, uninstalled, written and deleted before:
      every entry of a ledger that stands describes content an install wrote there. */
  lemma {:induction false} RunKeeps(t: Tree, events: seq<Event>, digest: Digest)
    requires LEDGER !in t.files && forall e :: e in events ==> Allowed(e)
    ensures Inv(After(t, events, digest), digest)
    decreases |events|
  {
    if events != [] {
      RunKeeps(t, events[..|events| - 1], digest);
      StepKeeps(After(t, events[..|events| - 1], digest), events[|events| - 1], digest);
    }
  }

  /** So a file an install overwrites or an uninstall removes holds exactly what an
      install once wrote at that path, and is never the configuration: nothing the
      user wrote is lost. */
  lemma OnlyItsOwnWork(t: Tree, events: seq<Event>, e: Event, digest: Digest, p: Path)
    requires LEDGER !in t.files && (forall earlier :: earlier in events ==> Allowed(earlier)) && Allowed(e)
    requires e.Installs? || e.Uninstalls?
    requires forall a, b :: digest(a) == digest(b) ==> a == b
    requires var w := After(t, events, digest);
             && p != LEDGER && p in w.tree.files
             && var after := Step(w, e, digest).tree.files;
                p !in after || after[p] != w.tree.files[p]
    ensures p != CONFIG && (p, After(t, events, digest).tree.files[p]) in After(t, events, digest).written
  {
    hide Install, Uninstall;
    var w := After(t, events, digest);
    RunKeeps(t, events, digest);
    match e {
      case Installs(items, stamp, fault) =>
        InstallTouchesOnlyItsOwn(w.tree, items, stamp, fault, digest, p);
        assert Accounted(Known(ReadLedger(w.tree).value, p).value, w.written, digest);
      case Uninstalls(stop) =>
        UninstallRemovesExactly(w.tree, stop, digest, p);
        var claim :| claim in ReadLedger(w.tree).value.value.files && !claim.preserved && At(claim.text) == p
                     && digest(w.tree.files[p]) == claim.mark;
        assert Accounted(claim, w.written, digest);
    }
  }
}
