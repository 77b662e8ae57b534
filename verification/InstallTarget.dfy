/** The directory an installer works on, changed in place. */
module InstallTarget {
  import opened Wrappers
  import opened InstallerPaths
  import opened Installer
  import opened InstallerCleanup

  class Target {
    var files: map<Path, Content>
    var dirs: set<Path>

    ghost function Current(): Tree
      reads this
    {
      Tree(files, dirs)
    }

    constructor (t: Tree)
      ensures Current() == t
    {
      files, dirs := t.files, t.dirs;
    }

    method Put(p: Path, c: Content)
      requires p != [] && !Blocked(Current(), p)
      modifies this
      ensures Current() == Written(old(Current()), p, c)
    {
      files := files[p := c];
      dirs := dirs + Parents(p);
    }

    /** What a write that fails leaves. */
    method Tear(p: Path, levels: nat, left: Option<Content>)
      requires p != []
      modifies this
      ensures Current() == Torn(old(Current()), p, levels, left)
    {
      if Blocked(Tree(files, dirs), p) {
        return;
      }
      if left.Some? {
        Put(p, left.value);
      } else {
        dirs := dirs + Parents(if levels < |p| then p[..levels + 1] else p);
      }
    }

    /** Look at every destination before anything is written. */
    method Audit(items: seq<Item>, previous: Option<Ledger>, digest: Digest) returns (stopped: Option<nat>, replaced: seq<Path>)
      ensures stopped.None? <==> AllPass(Current(), items, previous, digest)
      ensures stopped.Some? ==> stopped.value < |items| && !Passes(Current(), items[stopped.value], previous, digest)
      ensures stopped.Some? ==> forall i :: 0 <= i < stopped.value ==> Passes(Current(), items[i], previous, digest)
      ensures stopped.None? ==> forall i :: 0 <= i < |items| ==>
        (items[i].path in replaced <==> exists j :: 0 <= j < |items| && items[j].path == items[i].path
                                                    && Exists(Current(), items[j].path) && !items[j].skipIfPresent)
    {
      replaced := [];
      var now := Tree(files, dirs);
      var i := 0;
      while i < |items|
        invariant 0 <= i <= |items|
        invariant forall j :: 0 <= j < i ==> Passes(now, items[j], previous, digest)
        invariant forall p :: p in replaced <==> exists j :: 0 <= j < i && items[j].path == p
                                                             && Exists(now, items[j].path) && !items[j].skipIfPresent
      {
        var item := items[i];
        if Exists(now, item.path) && !item.skipIfPresent {
          var recorded := Known(previous, item.path);
          if recorded.None? || item.path !in files || digest(files[item.path]) != recorded.value.mark {
            return Some(i), replaced;
          }
          replaced := replaced + [item.path];
        }
        i := i + 1;
      }
      stopped := None;
    }

    /** Name the parents of a destination from depth two on, once each. */
    method NoteDirectories(named: seq<string>, p: Path) returns (more: seq<string>)
      ensures more == named + Fresh(named, p, 2)
    {
      var found: seq<string> := [];
      var depth := 2;
      while depth < |p|
        invariant 2 <= depth
        invariant found + Fresh(named, p, depth) == Fresh(named, p, 2)
      {
        if Joined(p[..depth]) !in named {
          found := found + [Joined(p[..depth])];
        }
        depth := depth + 1;
      }
      more := named + found;
    }

    method Record(l: Ledger, fault: Fault) returns (ok: bool)
      modifies this
      ensures (Current(), ok) == WriteLedger(old(Current()), l, fault)
    {
      if Blocked(Tree(files, dirs), LEDGER) {
        return false;
      }
      if fault.ledgerFails {
        Tear(LEDGER, 1, match fault.ledgerLeft { case None => None case Some(b) => Some(Raw(b)) });
        return false;
      }
      Put(LEDGER, Document(l));
      return true;
    }

    /** Place the plan item by item, up to the first destination that cannot be written. */
    method PlaceAll(items: seq<Item>, fault: Fault, digest: Digest)
      returns (placed: seq<Entry>, directories: seq<string>, progress: Progress)
      requires forall i :: 0 <= i < |items| ==> items[i].path != []
      modifies this
      ensures Work(Current(), placed, progress) == Place(old(Current()), items, |items|, fault, digest)
      ensures progress.Failed? ==> progress.at < |items|
      ensures !progress.Crashed? ==> directories == Directories(if progress.Failed? then items[..progress.at + 1] else items)
    {
      ghost var start := Current();
      placed, directories, progress := [], [], Going;
      var n := 0;
      while n < |items| && progress.Going?
        invariant 0 <= n <= |items| && (progress.Failed? ==> n == progress.at + 1)
        invariant Place(start, items, n, fault, digest) == Work(Current(), placed, progress)
        invariant directories == Directories(items[..n])
      {
        var item := items[n];
        assert items[..n + 1][..n] == items[..n];
        directories := NoteDirectories(directories, item.path);
        var now := Tree(files, dirs);
        if item.skipIfPresent && Exists(now, item.path) {
          if item.path in dirs {
            progress := Crashed;
          } else {
            placed := placed + [EntryFor(item, files[item.path], digest)];
          }
        } else if fault.at == Some(n) {
          Tear(item.path, fault.levels, fault.left);
          progress := Failed(n);
        } else if Blocked(now, item.path) {
          progress := Failed(n);
        } else {
          Put(item.path, item.body);
          placed := placed + [EntryFor(item, item.body, digest)];
        }
        n := n + 1;
      }
      Stays(start, items, n, fault, digest);
      assert progress.Going? ==> items[..n] == items;
    }

    /** Audit the whole plan, place it, and write the ledger: at the end, or before
        giving up on a destination that cannot be written. */
    method InstallPlan(items: seq<Item>, stamp: string, fault: Fault, digest: Digest) returns (outcome: Outcome)
      requires Plan(items)
      modifies this
      ensures (Current(), outcome) == Install(old(Current()), items, stamp, fault, digest)
    {
      var previous := ReadLedger(Tree(files, dirs));
      if previous.Err? {
        return Refused;
      }
      var stopped, _ := Audit(items, previous.value, digest);
      if stopped.Some? {
        return Refused;
      }
      var placed, directories, progress := PlaceAll(items, fault, digest);
      if progress.Crashed? {
        return Lost;
      }
      var l := Ledger(stamp, placed, directories);
      var ok := Record(l, fault);
      return if !ok then Lost else if progress.Failed? then Interrupted(progress.at, l) else Installed(l);
    }

    /** Remove each recorded file that is unchanged and not preserved, and say of every
        entry what became of it. */
    method RemoveFiles(entries: seq<Entry>, stop: Option<nat>, digest: Digest) returns (ok: bool, report: Report)
      modifies this`files
      ensures ok <==> stop.None? || stop.value >= |entries|
      ensures Current() == WithoutOwned(old(Current()), if ok then entries else entries[..stop.value], digest)
      ensures ok ==> report == Sorted(old(Current()), entries, |entries|, digest)
    {
      hide Sorted;
      ghost var start := Current();
      report := NOTHING;
      SortsNothing(start, entries, digest);
      var k := 0;
      while k < |entries|
        invariant 0 <= k <= |entries| && (stop.Some? ==> k <= stop.value)
        invariant files == WithoutOwned(start, entries[..k], digest).files
        invariant report == Sorted(start, entries, k, digest)
      {
        if stop == Some(k) {
          return false, report;
        }
        var e := entries[k];
        assert entries[..k + 1] == entries[..k] + [e];
        SortsOne(start, entries, k, digest, Tree(files, dirs));
        if e.preserved {
          report := report.(preserved := report.preserved + [e.text]);
        } else if At(e.text) !in files {
          report := report.(missing := report.missing + [e.text]);
        } else if digest(files[At(e.text)]) != e.mark {
          report := report.(kept := report.kept + [e.text]);
        } else {
          files := files - {At(e.text)};
          report := report.(removed := report.removed + [e.text]);
        }
        k := k + 1;
      }
      assert entries[..k] == entries;
      return true, report;
    }

    /** Remove the listed directories that are empty when their turn comes. */
    method RemoveListed(list: seq<string>) returns (ok: bool, emptied: seq<string>)
      modifies this`dirs
      ensures (Current(), ok) == RemoveDirectories(old(Current()), list)
      ensures ok ==> emptied == Emptied(old(Current()), list)
    {
      hide RemoveDirectories, Emptied, Empty, SplitRelative;
      ghost var start := Current();
      emptied := [];
      EmptiesNothing(start);
      assert list[..0] == [];
      var i := 0;
      while i < |list|
        invariant 0 <= i <= |list|
        invariant RemoveDirectories(start, list[..i]) == (Current(), true) && emptied == Emptied(start, list[..i])
      {
        EmptiesOne(start, list, i);
        if SplitRelative(list[i]).Err? {
          NeverResumes(start, list, i + 1);
          return false, emptied;
        }
        if At(list[i]) in dirs && Empty(Tree(files, dirs), At(list[i])) {
          dirs := dirs - {At(list[i])};
          emptied := emptied + [list[i]];
        }
        i := i + 1;
      }
      assert list[..i] == list;
      return true, emptied;
    }

    /** Remove what the ledger owns, then the ledger, then the directories left empty. */
    method UninstallAll(stop: Option<nat>, digest: Digest) returns (removal: Removal, report: Report, emptied: seq<string>)
      modifies this
      ensures (Current(), removal) == Uninstall(old(Current()), stop, digest)
      ensures removal.Removed? ==>
        && ReadLedger(old(Current())).Ok? && ReadLedger(old(Current())).value.Some?
        && var l := ReadLedger(old(Current())).value.value;
           && report == Sorted(old(Current()), l.files, |l.files|, digest)
           && emptied == Emptied(Bare(old(Current()), l, digest), DeepestFirst(l.directories))
    {
      hide Sorted, Emptied;
      report, emptied := NOTHING, [];
      var ledger := ReadLedger(Tree(files, dirs));
      if ledger.Err? || ledger.value.None? {
        return NothingRecorded, report, emptied;
      }
      var l := ledger.value.value;
      var ok;
      ok, report := RemoveFiles(l.files, stop, digest);
      if !ok {
        return Stopped, report, emptied;
      }
      files := files - {LEDGER};
      ok, emptied := RemoveListed(DeepestFirst(l.directories));
      return if ok then Removed else Stopped, report, emptied;
    }
  }

  // ---- what an uninstall says it did ----

  /** What became of each entry of the ledger, in its order. */
  datatype Report = Report(removed: seq<string>, kept: seq<string>, preserved: seq<string>, missing: seq<string>)

  const NOTHING := Report([], [], [], [])

  /** The report on the first `n` entries. */
  function Sorted(t: Tree, entries: seq<Entry>, n: nat, digest: Digest): Report
    requires n <= |entries|
  {
    if n == 0 then NOTHING
    else
      var r, e := Sorted(t, entries, n - 1, digest), entries[n - 1];
      var now := WithoutOwned(t, entries[..n - 1], digest);
      if e.preserved then r.(preserved := r.preserved + [e.text])
      else if At(e.text) !in now.files then r.(missing := r.missing + [e.text])
      else if digest(now.files[At(e.text)]) != e.mark then r.(kept := r.kept + [e.text])
      else r.(removed := r.removed + [e.text])
  }

  lemma SortsNothing(t: Tree, entries: seq<Entry>, digest: Digest)
    ensures Sorted(t, entries, 0, digest) == NOTHING && WithoutOwned(t, entries[..0], digest).files == t.files
  {
  }

  lemma SortsOne(t: Tree, entries: seq<Entry>, k: nat, digest: Digest, now: Tree)
    requires k < |entries| && now.files == WithoutOwned(t, entries[..k], digest).files
    ensures var (r, e, next) := (Sorted(t, entries, k, digest), entries[k], Sorted(t, entries, k + 1, digest));
            if e.preserved then next == r.(preserved := r.preserved + [e.text])
            else if At(e.text) !in now.files then next == r.(missing := r.missing + [e.text])
            else if digest(now.files[At(e.text)]) != e.mark then next == r.(kept := r.kept + [e.text])
            else next == r.(removed := r.removed + [e.text])
  {
    hide WithoutOwned, At;
  }

  /** The directories a list empties, in its order. */
  function Emptied(t: Tree, list: seq<string>): seq<string> {
    if list == [] then []
    else
      var earlier, text := Emptied(t, list[..|list| - 1]), list[|list| - 1];
      var now := RemoveDirectories(t, list[..|list| - 1]).0;
      if At(text) in now.dirs && Empty(now, At(text)) then earlier + [text] else earlier
  }

  lemma EmptiesNothing(t: Tree)
    ensures RemoveDirectories(t, []) == (t, true) && Emptied(t, []) == []
  {
  }

  lemma EmptiesOne(t: Tree, list: seq<string>, i: nat)
    requires i < |list| && RemoveDirectories(t, list[..i]).1
    ensures var (now, d) := (RemoveDirectories(t, list[..i]).0, At(list[i]));
            && RemoveDirectories(t, list[..i + 1]) ==
                 (if SplitRelative(list[i]).Err? then (now, false) else (RemoveIfEmpty(now, d), true))
            && Emptied(t, list[..i + 1]) == Emptied(t, list[..i]) + (if d in now.dirs && Empty(now, d) then [list[i]] else [])
  {
    hide Empty, SplitRelative;
    assert list[..i + 1][..i] == list[..i];
  }

  /** Some text of a list points at `p`. */
  ghost predicate Names(list: seq<string>, p: Path) { exists i :: 0 <= i < |list| && At(list[i]) == p }

  ghost predicate Once(list: seq<string>, p: Path) {
    forall i, j :: 0 <= i < j < |list| && At(list[i]) == p ==> At(list[j]) != p
  }

  lemma NamesAdds(list: seq<string>, text: string, p: Path)
    ensures Names(list + [text], p) <==> Names(list, p) || At(text) == p
    ensures Once(list + [text], p) <==> Once(list, p) && (At(text) == p ==> !Names(list, p))
  {
    hide SplitRelative;
    var more := list + [text];
    assert more[|list|] == text && forall i :: 0 <= i < |list| ==> more[i] == list[i];
    if i :| 0 <= i < |list| && At(list[i]) == p { assert At(more[i]) == p; }
  }

  /** What a report tells of one path: it is reported removed exactly when the ledger
      claims the file there, and never twice; what is reported kept was there; what is
      reported missing is not there at the end; and every entry is reported once. */
  ghost predicate Tells(r: Report, n: nat, p: Path, here: bool, owned: bool) {
    && (owned <==> Names(r.removed, p)) && Once(r.removed, p)
    && (!here ==> !Names(r.kept, p)) && (here && !owned ==> !Names(r.missing, p))
    && |r.removed| + |r.kept| + |r.preserved| + |r.missing| == n
  }

  lemma {:induction false} ReportTells(t: Tree, entries: seq<Entry>, n: nat, digest: Digest, p: Path)
    requires n <= |entries|
    ensures Tells(Sorted(t, entries, n, digest), n, p, p in t.files, Owned(t, entries[..n], p, digest))
  {
    if n == 0 {
      SortsNothing(t, entries, digest);
      NoneOwned(t, entries, digest, p);
    } else {
      hide Owned, Sorted, At, WithoutOwned, Tells;
      ReportTells(t, entries, n - 1, digest, p);
      StillThere(t, entries[..n - 1], digest, p);
      OwnedStep(t, entries, n, digest, p);
      SortsOne(t, entries, n - 1, digest, WithoutOwned(t, entries[..n - 1], digest));
      var here, owned := p in t.files, Owned(t, entries[..n - 1], p, digest);
      var r, e := Sorted(t, entries, n - 1, digest), entries[n - 1];
      var now := WithoutOwned(t, entries[..n - 1], digest).files;
      if e.preserved {
        TellsPreserved(r, n, e.text, p, here, owned);
      } else if At(e.text) !in now {
        TellsMissing(r, n, e.text, p, here, owned);
      } else if digest(now[At(e.text)]) != e.mark {
        TellsKept(r, n, e.text, p, here, owned);
      } else {
        TellsRemoved(r, n, e.text, p, here, owned);
      }
    }
  }

  lemma TellsPreserved(r: Report, n: nat, text: string, p: Path, here: bool, owned: bool)
    requires n > 0 && Tells(r, n - 1, p, here, owned)
    ensures Tells(r.(preserved := r.preserved + [text]), n, p, here, owned)
  {
    hide Names, Once;
  }

  lemma TellsMissing(r: Report, n: nat, text: string, p: Path, here: bool, owned: bool)
    requires n > 0 && Tells(r, n - 1, p, here, owned) && (At(text) == p ==> !here || owned)
    ensures Tells(r.(missing := r.missing + [text]), n, p, here, owned)
  {
    hide Names, Once, At;
    NamesAdds(r.missing, text, p);
  }

  lemma TellsKept(r: Report, n: nat, text: string, p: Path, here: bool, owned: bool)
    requires n > 0 && Tells(r, n - 1, p, here, owned) && (At(text) == p ==> here)
    ensures Tells(r.(kept := r.kept + [text]), n, p, here, owned)
  {
    hide Names, Once, At;
    NamesAdds(r.kept, text, p);
  }

  lemma TellsRemoved(r: Report, n: nat, text: string, p: Path, here: bool, owned: bool)
    requires n > 0 && Tells(r, n - 1, p, here, owned) && (At(text) == p ==> here && !owned)
    ensures Tells(r.(removed := r.removed + [text]), n, p, here, owned || At(text) == p)
  {
    hide Names, Once, At;
    NamesAdds(r.removed, text, p);
  }

  lemma StillThere(t: Tree, entries: seq<Entry>, digest: Digest, p: Path)
    ensures var left := WithoutOwned(t, entries, digest).files;
            (p in left <==> p in t.files && !Owned(t, entries, p, digest)) && (p in left ==> left[p] == t.files[p])
  {
  }

  lemma NoneOwned(t: Tree, entries: seq<Entry>, digest: Digest, p: Path)
    ensures !Owned(t, entries[..0], p, digest)
  {
  }

  lemma OwnedStep(t: Tree, entries: seq<Entry>, n: nat, digest: Digest, p: Path)
    requires 0 < n <= |entries|
    ensures var e := entries[n - 1];
            Owned(t, entries[..n], p, digest) <==>
              || Owned(t, entries[..n - 1], p, digest)
              || (p in t.files && !e.preserved && At(e.text) == p && digest(t.files[p]) == e.mark)
  {
    assert entries[..n] == entries[..n - 1] + [entries[n - 1]];
  }

  /** Once the write loop has stopped, the rest of the plan changes nothing. */
  lemma {:induction false} Stays(t: Tree, items: seq<Item>, n: nat, fault: Fault, digest: Digest)
    requires n <= |items| && (forall i :: 0 <= i < |items| ==> items[i].path != [])
    requires n == |items| || !Place(t, items, n, fault, digest).progress.Going?
    ensures Place(t, items, |items|, fault, digest) == Place(t, items, n, fault, digest)
    decreases |items| - n
  {
    if n < |items| {
      Stays(t, items, n + 1, fault, digest);
    }
  }

  lemma {:induction false} NeverResumes(t: Tree, list: seq<string>, i: nat)
    requires i <= |list| && !RemoveDirectories(t, list[..i]).1
    ensures RemoveDirectories(t, list) == RemoveDirectories(t, list[..i])
    decreases |list| - i
  {
    if i < |list| {
      assert list[..i + 1][..i] == list[..i];
      NeverResumes(t, list, i + 1);
    } else {
      assert list[..i] == list;
    }
  }
}
