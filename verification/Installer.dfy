/** The manifest installer over a tree of files: what one install or uninstall
    leaves behind, step by step, whatever interrupts it.  A tree is well formed
    when every file and directory in it stands in directories that are there too;
    every step keeps it so, and a write that is interrupted may leave some of the
    directories it needed. */
module Installer {
  import opened Wrappers
  import opened InstallerPaths

  const LEDGER: Path := ["pz-agent", "installer-manifest.json"]
  const CONFIG: Path := ["pz-agent", "config.toml"]
  const LAUNCHER: Path := ["pz-agent", "Start-PZ-Agent.cmd"]

  datatype Role = ModFile | LauncherFile | ConfigFile

  /** What a digest run over a file reports. */
  datatype Mark = Mark(size: nat, digest: string)

  datatype Entry = Entry(text: string, role: Role, mark: Mark, preserved: bool)

  /** The ledger document; `stamp` stands for its version and time fields. */
  datatype Ledger = Ledger(stamp: string, files: seq<Entry>, directories: seq<string>)

  /** File contents: a document that reads as a ledger, or any other bytes. */
  datatype Content = Raw(bytes: string) | Document(ledger: Ledger)

  type Digest = Content -> Mark

  /** Paths are relative to the target directory, which itself always exists. */
  datatype Tree = Tree(files: map<Path, Content>, dirs: set<Path>)

  predicate Exists(t: Tree, p: Path) { p in t.files || p in t.dirs }

  function Parents(p: Path): (parents: set<Path>) { set n | 1 <= n < |p| :: p[..n] }

  /** The directories on the way to a path: what it begins with, short of itself. */
  lemma ParentsIff(p: Path, d: Path)
    ensures d in Parents(p) <==> 1 <= |d| < |p| && d <= p
  {
    if 1 <= |d| < |p| && d <= p { assert d == p[..|d|]; }
  }

  /** Every file and directory lies in directories of the tree. */
  ghost predicate WellFormed(t: Tree) {
    && t.files.Keys !! t.dirs && [] !in t.files && [] !in t.dirs
    && (forall p :: p in t.files ==> Parents(p) <= t.dirs)
    && (forall d :: d in t.dirs ==> Parents(d) <= t.dirs)
  }

  /** Something other than a file at `p` keeps one from being written there. */
  predicate Blocked(t: Tree, p: Path) { p in t.dirs || exists d :: d in Parents(p) && d in t.files }

  function Written(t: Tree, p: Path, c: Content): (t': Tree)
    requires p != [] && !Blocked(t, p)
    ensures WellFormed(t) ==> WellFormed(t')
  {
    ParentsNest(p);
    Tree(t.files[p := c], t.dirs + Parents(p))
  }

  lemma ParentsNest(p: Path)
    ensures [] !in Parents(p) && p !in Parents(p)
    ensures forall d :: d in Parents(p) ==> Parents(d) <= Parents(p)
  {
    forall d, e | d in Parents(p) && e in Parents(d)
      ensures e in Parents(p)
    {
      assert e == p[..|e|];
    }
  }

  lemma ParentsOfPrefix(p: Path, n: nat)
    requires n <= |p|
    ensures Parents(p[..n]) <= Parents(p)
  {
    forall d | d in Parents(p[..n])
      ensures d in Parents(p)
    {
      assert d == p[..|d|];
    }
  }

  // ---- reading the ledger ----

  /** Where an entry's text points; text that splits to nothing usable points nowhere. */
  function At(text: string): Path {
    match SplitRelative(text)
    case Ok(parts) => parts
    case Err(_) => []
  }

  datatype Unreadable = NotALedger | BadEntry

  /** No ledger, one whose every entry addresses a file inside, or a refusal. */
  function ReadLedger(t: Tree): Result<Option<Ledger>, Unreadable> {
    if LEDGER !in t.files then Ok(None)
    else match t.files[LEDGER]
      case Raw(_) => Err(NotALedger)
      case Document(l) =>
        if exists e :: e in l.files && SplitRelative(e.text).Err? then Err(BadEntry) else Ok(Some(l))
  }

  /** A text that addresses a file inside the target. */
  ghost predicate Addresses(text: string) { exists parts :: Inside(parts) && Joined(parts) == text }

  /** A ledger is read exactly when it is one and every entry addresses a file inside. */
  lemma ReadLedgerIff(t: Tree, l: Ledger)
    ensures ReadLedger(t) == Ok(None) <==> LEDGER !in t.files
    ensures ReadLedger(t) == Err(NotALedger) <==> LEDGER in t.files && t.files[LEDGER].Raw?
    ensures ReadLedger(t) == Err(BadEntry) <==>
              LEDGER in t.files && t.files[LEDGER].Document? && exists e :: e in t.files[LEDGER].ledger.files && !Addresses(e.text)
    ensures ReadLedger(t) == Ok(Some(l)) <==>
              LEDGER in t.files && t.files[LEDGER] == Document(l) && forall e :: e in l.files ==> Addresses(e.text)
  {
    hide Inside, Joined, SplitRelative;
    forall e: Entry
      ensures SplitRelative(e.text).Ok? <==> Addresses(e.text)
    {
      AddressesIff(e.text);
    }
  }

  lemma AddressesIff(text: string)
    ensures SplitRelative(text).Ok? <==> Addresses(text)
  {
    hide Joined, SplitRelative;
    if SplitRelative(text).Ok? { SplitExactly(text, SplitRelative(text).value); }
    if parts :| Inside(parts) && Joined(parts) == text { SplitExactly(text, parts); }
  }

  /** The entry a path is known by: the last one, as building a table by path keeps. */
  function Known(l: Option<Ledger>, p: Path): (e: Option<Entry>)
    ensures e.Some? ==> l.Some? && e.value in l.value.files && At(e.value.text) == p
    ensures e.None? && l.Some? ==> forall other :: other in l.value.files ==> At(other.text) != p
  {
    if l.None? then None else Last(l.value.files, p)
  }

  function Last(entries: seq<Entry>, p: Path): (e: Option<Entry>)
    ensures e.Some? ==> e.value in entries && At(e.value.text) == p
    ensures e.None? ==> forall other :: other in entries ==> At(other.text) != p
  {
    if entries == [] then None
    else if At(entries[|entries| - 1].text) == p then Some(entries[|entries| - 1])
    else Last(entries[..|entries| - 1], p)
  }

  // ---- the plan ----

  datatype Item = Item(path: Path, role: Role, body: Content, preserved: bool, skipIfPresent: bool)

  /** Destinations of a plan are those of one directory tree: distinct, none inside
      another, none the ledger. */
  ghost predicate Plan(items: seq<Item>) {
    && (forall i :: 0 <= i < |items| ==> Inside(items[i].path) && |items[i].path| >= 2)
    && (forall i :: 0 <= i < |items| ==> items[i].path != LEDGER && LEDGER !in Parents(items[i].path)
                                         && items[i].path !in Parents(LEDGER))
    && (forall i, j :: 0 <= i < |items| && 0 <= j < |items| && i != j ==>
          items[i].path != items[j].path && items[i].path !in Parents(items[j].path))
    && (forall i :: 0 <= i < |items| ==> (items[i].path == CONFIG <==> items[i].skipIfPresent))
    && (forall i :: 0 <= i < |items| ==> (items[i].preserved <==> items[i].skipIfPresent))
  }

  /** A destination an install may write, or leave as the user's. */
  predicate Passes(t: Tree, item: Item, previous: Option<Ledger>, digest: Digest) {
    || !Exists(t, item.path)
    || item.skipIfPresent
    || (Known(previous, item.path).Some? && item.path in t.files
        && digest(t.files[item.path]) == Known(previous, item.path).value.mark)
  }

  // ---- installing ----

  /** What the environment makes fail: the write of item `at` after making `levels`
      parent directories and leaving `left` behind, and the write of the ledger. */
  datatype Fault = Fault(at: Option<nat>, levels: nat, left: Option<Content>, ledgerFails: bool, ledgerLeft: Option<string>)

  datatype Progress = Going | Failed(at: nat) | Crashed

  datatype Work = Work(tree: Tree, placed: seq<Entry>, progress: Progress)

  function EntryFor(item: Item, c: Content, digest: Digest): Entry
    requires item.path != []
  {
    Entry(Joined(item.path), item.role, digest(c), item.preserved)
  }

  /** The tree a failed write leaves. */
  function Torn(t: Tree, p: Path, levels: nat, left: Option<Content>): (t': Tree)
    requires p != []
    ensures WellFormed(t) ==> WellFormed(t')
  {
    if Blocked(t, p) then t
    else if left.Some? then Written(t, p, left.value)
    else
      var made := if levels < |p| then p[..levels + 1] else p;
      ParentsNest(made);
      ParentsOfPrefix(p, |made|);
      t.(dirs := t.dirs + Parents(made))
  }

  function PlaceOne(w: Work, item: Item, n: nat, fault: Fault, digest: Digest): (w': Work)
    requires item.path != []
    ensures WellFormed(w.tree) ==> WellFormed(w'.tree)
  {
    if item.skipIfPresent && item.path in w.tree.dirs then w.(progress := Crashed)
    else if item.skipIfPresent && item.path in w.tree.files then
      w.(placed := w.placed + [EntryFor(item, w.tree.files[item.path], digest)])
    else if fault.at == Some(n) then
      w.(tree := Torn(w.tree, item.path, fault.levels, fault.left), progress := Failed(n))
    else if Blocked(w.tree, item.path) then w.(progress := Failed(n))
    else w.(tree := Written(w.tree, item.path, item.body), placed := w.placed + [EntryFor(item, item.body, digest)])
  }

  /** The write loop after at most `n` items. */
  function Place(t: Tree, items: seq<Item>, n: nat, fault: Fault, digest: Digest): (w: Work)
    requires n <= |items| && forall i :: 0 <= i < |items| ==> items[i].path != []
    ensures WellFormed(t) ==> WellFormed(w.tree)
  {
    if n == 0 then Work(t, [], Going)
    else
      var w := Place(t, items, n - 1, fault, digest);
      if !w.progress.Going? then w else PlaceOne(w, items[n - 1], n - 1, fault, digest)
  }

  /** Directories of two components and more that hold the first items, in order of
      appearance. */
  function Directories(items: seq<Item>): (dirs: seq<string>)
    requires forall item :: item in items ==> |item.path| >= 1
  {
    if items == [] then []
    else
      var earlier := Directories(items[..|items| - 1]);
      earlier + Fresh(earlier, items[|items| - 1].path, 2)
  }

  /** The parents of `p` from depth `from` on that a list does not name yet. */
  function Fresh(named: seq<string>, p: Path, from: nat): seq<string>
    requires 1 <= from
    decreases |p| - from
  {
    if from >= |p| then []
    else if Joined(p[..from]) in named then Fresh(named, p, from + 1)
    else [Joined(p[..from])] + Fresh(named, p, from + 1)
  }

  /** How an install ends.  `Interrupted` recorded what was placed; `Lost` did not. */
  datatype Outcome = Installed(ledger: Ledger) | Refused | Interrupted(at: nat, ledger: Ledger) | Lost

  function WriteLedger(t: Tree, l: Ledger, fault: Fault): (r: (Tree, bool))
    ensures WellFormed(t) ==> WellFormed(r.0)
    ensures r.1 <==> !Blocked(t, LEDGER) && !fault.ledgerFails
  {
    if Blocked(t, LEDGER) then (t, false)
    else if !fault.ledgerFails then (Written(t, LEDGER, Document(l)), true)
    else (Torn(t, LEDGER, 1, match fault.ledgerLeft { case None => None case Some(b) => Some(Raw(b)) }), false)
  }

  /** A write loop that came to its end or to a failure, closed with the ledger. */
  function Close(w: Work, items: seq<Item>, stamp: string, fault: Fault): (r: (Tree, Outcome))
    requires forall item :: item in items ==> |item.path| >= 1
    requires w.progress.Failed? ==> w.progress.at < |items|
    ensures !r.1.Refused? && (r.1.Interrupted? ==> w.progress == Failed(r.1.at))
  {
    match w.progress
    case Crashed => (w.tree, Lost)
    case Going =>
      var l := Ledger(stamp, w.placed, Directories(items));
      var (t, ok) := WriteLedger(w.tree, l, fault);
      (t, if ok then Installed(l) else Lost)
    case Failed(at) =>
      var l := Ledger(stamp, w.placed, Directories(items[..at + 1]));
      var (t, ok) := WriteLedger(w.tree, l, fault);
      (t, if ok then Interrupted(at, l) else Lost)
  }

  function AllPass(t: Tree, items: seq<Item>, previous: Option<Ledger>, digest: Digest): bool {
    forall i :: 0 <= i < |items| ==> Passes(t, items[i], previous, digest)
  }

  function Install(t: Tree, items: seq<Item>, stamp: string, fault: Fault, digest: Digest): (r: (Tree, Outcome))
    requires Plan(items)
    ensures r.1.Interrupted? ==> r.1.at < |items|
  {
    var previous := ReadLedger(t);
    if previous.Err? || !AllPass(t, items, previous.value, digest) then (t, Refused)
    else
      PlaceFails(t, items, |items|, fault, digest);
      Close(Place(t, items, |items|, fault, digest), items, stamp, fault)
  }

  lemma {:induction false} PlaceFails(t: Tree, items: seq<Item>, n: nat, fault: Fault, digest: Digest)
    requires n <= |items| && forall i :: 0 <= i < |items| ==> items[i].path != []
    ensures var w := Place(t, items, n, fault, digest); w.progress.Failed? ==> w.progress.at < n
  {
    if n > 0 { PlaceFails(t, items, n - 1, fault, digest); }
  }

  // ---- uninstalling ----

  /** Files a list of entries claims and may remove: recorded, unchanged, not preserved. */
  predicate Owned(t: Tree, entries: seq<Entry>, p: Path, digest: Digest) {
    p in t.files && exists e :: e in entries && !e.preserved && At(e.text) == p && digest(t.files[p]) == e.mark
  }

  function WithoutOwned(t: Tree, entries: seq<Entry>, digest: Digest): Tree {
    t.(files := map p | p in t.files && !Owned(t, entries, p, digest) :: t.files[p])
  }

  predicate Empty(t: Tree, d: Path) {
    && (forall p :: p in t.files ==> d !in Parents(p))
    && (forall p :: p in t.dirs ==> d !in Parents(p))
  }

  function RemoveIfEmpty(t: Tree, d: Path): Tree {
    if d in t.dirs && Empty(t, d) then t.(dirs := t.dirs - {d}) else t
  }

  /** Empty directories go in list order, up to the first text that does not split. */
  function RemoveDirectories(t: Tree, list: seq<string>): (Tree, bool) {
    if list == [] then (t, true)
    else
      var (rest, ok) := RemoveDirectories(t, list[..|list| - 1]);
      if !ok || SplitRelative(list[|list| - 1]).Err? then (rest, false)
      else (RemoveIfEmpty(rest, At(list[|list| - 1])), true)
  }

  function Depth(text: string): nat { |Pieces(text)| }

  /** A list with one more text put in by falling depth, behind its equals. */
  function PutByDepth(list: seq<string>, text: string): (r: seq<string>)
    ensures multiset(r) == multiset(list) + multiset{text}
  {
    if list == [] || Depth(text) <= Depth(list[|list| - 1]) then list + [text]
    else
      assert list == list[..|list| - 1] + [list[|list| - 1]];
      PutByDepth(list[..|list| - 1], text) + [list[|list| - 1]]
  }

  /** Deepest first, otherwise in the order given. */
  function DeepestFirst(list: seq<string>): (r: seq<string>)
    ensures multiset(r) == multiset(list)
  {
    if list == [] then []
    else
      assert list == list[..|list| - 1] + [list[|list| - 1]];
      PutByDepth(DeepestFirst(list[..|list| - 1]), list[|list| - 1])
  }

  datatype Removal = Removed | NothingRecorded | Stopped

  /** `stop` is the entry whose removal the environment refuses, if one. */
  function Uninstall(t: Tree, stop: Option<nat>, digest: Digest): (Tree, Removal) {
    var ledger := ReadLedger(t);
    if ledger.Err? || ledger.value.None? then (t, NothingRecorded)
    else
      var l := ledger.value.value;
      if stop.Some? && stop.value < |l.files| then (WithoutOwned(t, l.files[..stop.value], digest), Stopped)
      else
        var bare := WithoutOwned(t, l.files, digest);
        var (t', ok) := RemoveDirectories(bare.(files := bare.files - {LEDGER}), DeepestFirst(l.directories));
        (t', if ok then Removed else Stopped)
  }
}
