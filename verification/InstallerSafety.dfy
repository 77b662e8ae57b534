/** What no install or uninstall does, whatever interrupts it: touch a file it has
    no unchanged record of. */
module InstallerSafety {
  import opened Wrappers
  import opened InstallerPaths
  import opened Installer

  // ---- the write loop ----

  /** Some of the first `n` destinations. */
  predicate Planned(items: seq<Item>, n: nat, p: Path)
    requires n <= |items|
  {
    exists i :: 0 <= i < n && items[i].path == p
  }

  /** The write loop after `n` items leaves everything else alone, and a destination
      that must be left if present is left. */
  ghost predicate Framed(t: Tree, w: Work, items: seq<Item>, n: nat)
    requires n <= |items|
  {
    && (forall p :: p in t.files && !(Planned(items, n, p) && p != CONFIG) ==> p in w.tree.files && w.tree.files[p] == t.files[p])
    && (forall p :: p in t.files ==> p in w.tree.files)
    && (forall p :: p in w.tree.files && p !in t.files ==> Planned(items, n, p))
    && t.dirs <= w.tree.dirs
    && (forall d :: d in w.tree.dirs && d !in t.dirs ==> exists i :: 0 <= i < n && d in Parents(items[i].path))
  }

  lemma {:induction false} PlaceFrames(t: Tree, items: seq<Item>, n: nat, fault: Fault, digest: Digest)
    requires Plan(items) && n <= |items|
    ensures Framed(t, Place(t, items, n, fault, digest), items, n)
  {
    if n > 0 {
      var w := Place(t, items, n - 1, fault, digest);
      PlaceFrames(t, items, n - 1, fault, digest);
      assert forall p :: Planned(items, n - 1, p) ==> Planned(items, n, p);
      if w.progress.Going? {
        OneFrames(w, items[n - 1], n - 1, fault, digest);
        assert Planned(items, n, items[n - 1].path);
      }
    }
  }

  lemma OneFrames(w: Work, item: Item, n: nat, fault: Fault, digest: Digest)
    requires item.path != []
    ensures var w' := PlaceOne(w, item, n, fault, digest);
            && (forall p :: p in w.tree.files && (p != item.path || item.skipIfPresent) ==>
                  p in w'.tree.files && w'.tree.files[p] == w.tree.files[p])
            && (item.path in w.tree.files ==> item.path in w'.tree.files)
            && w'.tree.files.Keys <= w.tree.files.Keys + {item.path}
            && w.tree.dirs <= w'.tree.dirs <= w.tree.dirs + Parents(item.path)
  {
    ParentsOfPrefix(item.path, if fault.levels < |item.path| then fault.levels + 1 else |item.path|);
  }

  /** While the loop runs every destination still ahead passes the audit that let the
      install begin: no earlier write reached it. */
  lemma AuditStaysValid(t: Tree, items: seq<Item>, n: nat, i: nat, previous: Option<Ledger>, fault: Fault, digest: Digest)
    requires Plan(items) && n <= i < |items| && AllPass(t, items, previous, digest)
    ensures Passes(Place(t, items, n, fault, digest).tree, items[i], previous, digest)
  {
    PlaceFrames(t, items, n, fault, digest);
    assert Passes(t, items[i], previous, digest);
  }

  /** A file whose entry in the ledger that stands still describes it. */
  predicate Recorded(t: Tree, p: Path, digest: Digest) {
    && ReadLedger(t).Ok? && Known(ReadLedger(t).value, p).Some?
    && p in t.files && digest(t.files[p]) == Known(ReadLedger(t).value, p).value.mark
  }

  lemma LedgerFrames(t: Tree, l: Ledger, fault: Fault)
    ensures var t' := WriteLedger(t, l, fault).0;
            && (forall p :: p in t.files && p != LEDGER ==> p in t'.files && t'.files[p] == t.files[p])
            && t'.files.Keys <= t.files.Keys + {LEDGER}
            && t.dirs <= t'.dirs <= t.dirs + Parents(LEDGER)
  {
    ParentsOfPrefix(LEDGER, 2);
  }

  /** An install, finished or cut short anywhere, changes only the ledger file and
      planned files an unchanged record accounts for; it removes nothing, and never
      changes a configuration that is there. */
  lemma InstallTouchesOnlyItsOwn(t: Tree, items: seq<Item>, stamp: string, fault: Fault, digest: Digest, p: Path)
    requires Plan(items) && p in t.files && p != LEDGER
    ensures var t' := Install(t, items, stamp, fault, digest).0;
            && p in t'.files
            && (t'.files[p] != t.files[p] ==> p != CONFIG && Planned(items, |items|, p) && Recorded(t, p, digest))
  {
    var previous := ReadLedger(t);
    if previous.Ok? && AllPass(t, items, previous.value, digest) {
      var w := Place(t, items, |items|, fault, digest);
      PlaceFrames(t, items, |items|, fault, digest);
      PlaceFails(t, items, |items|, fault, digest);
      if w.progress.Failed? {
        LedgerFrames(w.tree, Ledger(stamp, w.placed, Directories(items[..w.progress.at + 1])), fault);
      } else if w.progress.Going? {
        LedgerFrames(w.tree, Ledger(stamp, w.placed, Directories(items)), fault);
      }
      if Planned(items, |items|, p) && p != CONFIG {
        var i :| 0 <= i < |items| && items[i].path == p;
        assert Passes(t, items[i], previous.value, digest);
      }
    }
  }
}
