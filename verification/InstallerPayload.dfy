/** From the payload on disk to the plan of an install. */
module InstallerPayload {
  import opened Text
  import opened Wrappers
  import opened InstallerPaths
  import opened Installer

  const ALLOWED_SUFFIXES := {".lua", ".info", ".txt", ".md", ".png", ".json"}
  const MAX_FILES: nat := 500
  const MAX_TOTAL_BYTES: nat := 16 * 1024 * 1024
  const MAX_FILE_BYTES: nat := 4 * 1024 * 1024

  /** A file of the payload, in listing order; `suffix` is its extension in lower case. */
  datatype PayloadFile = PayloadFile(relative: Path, suffix: string, size: nat, body: Content)

  datatype PlanProblem = BadPath(problem: PathProblem) | FileTooLarge | TooManyFiles | TooLarge | Nothing

  predicate Allowed(suffix: string) { suffix in ALLOWED_SUFFIXES }

  /** What goes in: scripts and the plain files beside them, and nothing that runs. */
  lemma AllowedIs(suffix: string)
    ensures Allowed(suffix) <==>
              || suffix == ".lua" || suffix == ".info" || suffix == ".txt"
              || suffix == ".md" || suffix == ".png" || suffix == ".json"
  {
  }

  function Eligible(files: seq<PayloadFile>): (kept: seq<PayloadFile>)
    ensures forall f :: f in kept <==> f in files && Allowed(f.suffix)
  {
    if files == [] then []
    else
      var last := files[|files| - 1];
      assert forall f :: f in files <==> f == last || f in files[..|files| - 1];
      Eligible(files[..|files| - 1]) + if Allowed(last.suffix) then [last] else []
  }

  function Total(files: seq<PayloadFile>): nat {
    if files == [] then 0 else Total(files[..|files| - 1]) + files[|files| - 1].size
  }

  function Prefix(modId: string): string { "mods/" + modId }

  function Destination(modId: string, f: PayloadFile): string {
    Prefix(modId) + "/" + (if f.relative == [] then "" else Joined(f.relative))
  }

  /** A payload small enough and addressed inside the target throughout. */
  predicate Fits(modId: string, kept: seq<PayloadFile>) {
    && kept != [] && |kept| <= MAX_FILES && Total(kept) <= MAX_TOTAL_BYTES
    && SplitRelative(Prefix(modId)).Ok?
    && forall f :: f in kept ==> Sound(modId, f)
  }

  /** One file within its bounds. */
  predicate Sound(modId: string, f: PayloadFile) {
    f.size <= MAX_FILE_BYTES && SplitRelative(Destination(modId, f)).Ok?
  }

  function Copy(modId: string, f: PayloadFile): Item {
    Item(At(Destination(modId, f)), ModFile, f.body, false, false)
  }

  lemma {:induction false} TotalGrows(files: seq<PayloadFile>, n: nat)
    requires n <= |files|
    ensures Total(files[..n]) <= Total(files)
  {
    if n < |files| {
      TotalGrows(files[..|files| - 1], n);
      assert files[..|files| - 1][..n] == files[..n];
    } else {
      assert files[..n] == files;
    }
  }

  lemma {:induction false} EligibleGrows(files: seq<PayloadFile>, n: nat)
    requires n <= |files|
    ensures Eligible(files[..n]) <= Eligible(files)
  {
    if n < |files| {
      EligibleGrows(files[..|files| - 1], n);
      assert files[..|files| - 1][..n] == files[..n];
    } else {
      assert files[..n] == files;
    }
  }

  lemma TotalOfPrefix(part: seq<PayloadFile>, files: seq<PayloadFile>)
    requires part <= files
    ensures Total(part) <= Total(files)
  {
    assert part == files[..|part|];
    TotalGrows(files, |part|);
  }

  /** One more file of a listing: kept or passed over. */
  lemma NextFile(files: seq<PayloadFile>, i: nat)
    requires i < |files|
    ensures var before, after := Eligible(files[..i]), Eligible(files[..i + 1]);
            && after == (if Allowed(files[i].suffix) then before + [files[i]] else before)
            && after <= Eligible(files)
            && Total(after) <= Total(Eligible(files))
  {
    hide Allowed, Total;
    assert files[..i + 1][..i] == files[..i];
    EligibleGrows(files, i + 1);
    TotalOfPrefix(Eligible(files[..i + 1]), Eligible(files));
  }

  lemma TotalAdds(files: seq<PayloadFile>, f: PayloadFile)
    ensures Total(files + [f]) == Total(files) + f.size
  {
    assert (files + [f])[..|files|] == files;
  }

  /** The copies of the files kept so far. */
  ghost predicate Copied(modId: string, kept: seq<PayloadFile>, planned: seq<Item>) {
    |planned| == |kept| && forall k :: 0 <= k < |planned| ==> planned[k] == Copy(modId, kept[k])
  }

  /** Files that are within every bound. */
  ghost predicate Within(modId: string, kept: seq<PayloadFile>) {
    |kept| <= MAX_FILES && Total(kept) <= MAX_TOTAL_BYTES && forall f :: f in kept ==> Sound(modId, f)
  }

  lemma OneMore(modId: string, kept: seq<PayloadFile>, f: PayloadFile, planned: seq<Item>)
    requires Within(modId, kept) && Copied(modId, kept, planned)
    ensures Within(modId, kept + [f]) <==>
              Sound(modId, f) && |kept| < MAX_FILES && Total(kept) + f.size <= MAX_TOTAL_BYTES
    ensures Copied(modId, kept + [f], planned + [Copy(modId, f)])
    ensures Total(kept + [f]) == Total(kept) + f.size
  {
    hide Sound, Copy, Total;
    TotalAdds(kept, f);
    SoundAdds(modId, kept, f);
  }

  lemma SoundAdds(modId: string, kept: seq<PayloadFile>, f: PayloadFile)
    ensures (forall other :: other in kept + [f] ==> Sound(modId, other)) <==>
              (forall other :: other in kept ==> Sound(modId, other)) && Sound(modId, f)
  {
    hide Sound;
    assert f in kept + [f];
    assert forall other :: other in kept ==> other in kept + [f];
  }

  lemma NothingFits(modId: string, part: seq<PayloadFile>, kept: seq<PayloadFile>)
    requires part <= kept && !Within(modId, part)
    ensures !Fits(modId, kept)
  {
    hide Sound, Total;
    assert forall f :: f in part ==> f in kept;
    TotalOfPrefix(part, kept);
  }

  /** Each kept file is copied to its own place below the mod's directory, and is the
      program's to replace. */
  ghost predicate Planned(modId: string, kept: seq<PayloadFile>, planned: seq<Item>) {
    && |planned| == |kept|
    && forall k :: 0 <= k < |kept| ==>
         && planned[k].role.ModFile? && planned[k].body == kept[k].body && !planned[k].preserved && !planned[k].skipIfPresent
         && SplitRelative("mods/" + modId + "/" + (if kept[k].relative == [] then "" else Joined(kept[k].relative))) == Ok(planned[k].path)
  }

  lemma CopiesPlanned(modId: string, kept: seq<PayloadFile>, planned: seq<Item>)
    requires Within(modId, kept) && Copied(modId, kept, planned)
    ensures Planned(modId, kept, planned)
  {
    hide SplitRelative, Total;
    forall k | 0 <= k < |kept|
      ensures SplitRelative(Destination(modId, kept[k])) == Ok(planned[k].path)
    {
      assert Sound(modId, kept[k]);
    }
  }

  /** File `i` is the first that breaks a bound, and which: its own size, then the number
      of files, then their sum, then its path. */
  ghost predicate Breaks(modId: string, files: seq<PayloadFile>, i: nat, problem: PlanProblem)
    requires i < |files|
  {
    var (kept, f) := (Eligible(files[..i]), files[i]);
    && Allowed(f.suffix) && Within(modId, kept)
    && if f.size > MAX_FILE_BYTES then problem.FileTooLarge?
       else if |kept| >= MAX_FILES then problem.TooManyFiles?
       else if Total(kept) + f.size > MAX_TOTAL_BYTES then problem.TooLarge?
       else SplitRelative(Destination(modId, f)).Err? && problem == BadPath(SplitRelative(Destination(modId, f)).error)
  }

  lemma BreaksAt(modId: string, files: seq<PayloadFile>, i: nat)
    requires i < |files| && Allowed(files[i].suffix) && Within(modId, Eligible(files[..i]))
    ensures var (kept, f) := (Eligible(files[..i]), files[i]);
            && (f.size > MAX_FILE_BYTES ==> Breaks(modId, files, i, FileTooLarge))
            && (f.size <= MAX_FILE_BYTES && |kept| >= MAX_FILES ==> Breaks(modId, files, i, TooManyFiles))
            && (f.size <= MAX_FILE_BYTES && |kept| < MAX_FILES && Total(kept) + f.size > MAX_TOTAL_BYTES ==>
                  Breaks(modId, files, i, TooLarge))
            && (f.size <= MAX_FILE_BYTES && |kept| < MAX_FILES && Total(kept) + f.size <= MAX_TOTAL_BYTES
                && SplitRelative(Destination(modId, f)).Err? ==>
                  Breaks(modId, files, i, BadPath(SplitRelative(Destination(modId, f)).error)))
  {
    hide SplitRelative, Total, Within;
  }

  /** The plan copies exactly the eligible files, in order, when they fit; otherwise
      there is no plan. */
  method PlanPayload(modId: string, files: seq<PayloadFile>) returns (plan: Result<seq<Item>, PlanProblem>)
    ensures plan.Ok? <==> Fits(modId, Eligible(files))
    ensures plan.Ok? ==> Copied(modId, Eligible(files), plan.value) && Planned(modId, Eligible(files), plan.value)
    ensures SplitRelative("mods/" + modId).Err? ==> plan == Err(BadPath(SplitRelative("mods/" + modId).error))
    ensures SplitRelative("mods/" + modId).Ok? && Eligible(files) == [] ==> plan == Err(Nothing)
    ensures plan.Err? && SplitRelative("mods/" + modId).Ok? && Eligible(files) != [] ==>
              exists i :: 0 <= i < |files| && Breaks(modId, files, i, plan.error)
  {
    hide SplitRelative, Copy, Total, Allowed, Copied, Within, Destination, Planned, Breaks;
    if SplitRelative(Prefix(modId)).Err? {
      return Err(BadPath(SplitRelative(Prefix(modId)).error));
    }
    var planned: seq<Item> := [];
    var total := 0;
    var i := 0;
    Nothing0(modId, files);
    hide Eligible, Fits;
    while i < |files|
      invariant 0 <= i <= |files|
      invariant Within(modId, Eligible(files[..i])) && Copied(modId, Eligible(files[..i]), planned)
      invariant total == Total(Eligible(files[..i])) && |planned| == |Eligible(files[..i])|
    {
      var f := files[i];
      NextFile(files, i);
      if Allowed(f.suffix) {
        OneMore(modId, Eligible(files[..i]), f, planned);
        if !Within(modId, Eligible(files[..i + 1])) { NothingFits(modId, Eligible(files[..i + 1]), Eligible(files)); }
        BreaksAt(modId, files, i);
        assert Eligible(files[..i + 1]) != [] && Eligible(files) != [];
        if f.size > MAX_FILE_BYTES {
          assert Breaks(modId, files, i, FileTooLarge);
          return Err(FileTooLarge);
        }
        total := total + f.size;
        if |planned| >= MAX_FILES {
          assert Breaks(modId, files, i, TooManyFiles);
          return Err(TooManyFiles);
        }
        if total > MAX_TOTAL_BYTES {
          assert Breaks(modId, files, i, TooLarge);
          return Err(TooLarge);
        }
        if SplitRelative(Destination(modId, f)).Err? {
          assert Breaks(modId, files, i, BadPath(SplitRelative(Destination(modId, f)).error));
          return Err(BadPath(SplitRelative(Destination(modId, f)).error));
        }
        planned := planned + [Copy(modId, f)];
      }
      i := i + 1;
    }
    assert files[..i] == files;
    FitsWhole(modId, Eligible(files));
    CopiesPlanned(modId, Eligible(files), planned);
    return if planned == [] then Err(Nothing) else Ok(planned);
  }

  lemma FitsWhole(modId: string, kept: seq<PayloadFile>)
    requires Within(modId, kept) && SplitRelative(Prefix(modId)).Ok?
    ensures Fits(modId, kept) <==> kept != []
  {
  }

  lemma Nothing0(modId: string, files: seq<PayloadFile>)
    ensures Eligible(files[..0]) == [] && Total([]) == 0 && Within(modId, []) && Copied(modId, [], [])
  {
  }

  /** The whole plan: the copies, then the configuration, then the launcher. */
  function FullPlan(copies: seq<Item>, config: Content, launcher: Content): seq<Item> {
    copies + [Item(CONFIG, ConfigFile, config, true, true), Item(LAUNCHER, LauncherFile, launcher, false, false)]
  }

  /** Files of one directory tree: distinct, none inside another. */
  ghost predicate OneTree(files: seq<PayloadFile>) {
    && (forall i :: 0 <= i < |files| ==> files[i].relative != [] && forall part :: part in files[i].relative ==> '/' !in part)
    && forall i, j :: 0 <= i < |files| && 0 <= j < |files| && i != j ==> !(files[i].relative <= files[j].relative)
  }

  /** Each copy keeps its place below `mods` and the mod's own directory. */
  lemma CopyGoes(modId: string, f: PayloadFile)
    requires f.relative != [] && SplitRelative(Destination(modId, f)).Ok?
    requires forall part :: part in f.relative ==> '/' !in part
    ensures Copy(modId, f).path == ["mods"] + Pieces(modId) + f.relative && Inside(Copy(modId, f).path)
  {
    hide Cut, Glue, Inside;
    var text := Destination(modId, f);
    assert Prefix(modId) == "mods" + ['/'] + modId;
    CutAppend("mods", '/', modId);
    CutAppend(Prefix(modId), '/', Joined(f.relative));
    CutUndoesGlue(f.relative, '/');
    ModsIsOnePiece();
    SplitsInside(text);
  }

  lemma ModsIsOnePiece()
    ensures Cut("mods", '/') == ["mods"]
  {
    assert forall i :: 0 <= i < 4 ==> "mods"[i] != '/';
  }

  lemma {:induction false} EligibleIsOneTree(files: seq<PayloadFile>)
    requires OneTree(files)
    ensures OneTree(Eligible(files))
  {
    if files != [] {
      var earlier, last := files[..|files| - 1], files[|files| - 1];
      EligibleIsOneTree(earlier);
      forall f | f in Eligible(earlier)
        ensures !(f.relative <= last.relative) && !(last.relative <= f.relative)
      {
        var k :| 0 <= k < |earlier| && earlier[k] == f;
        assert files[k] == f;
      }
    }
  }

  /** A payload that is one directory tree makes a plan an install can work from. */
  lemma PayloadMakesPlan(modId: string, files: seq<PayloadFile>, copies: seq<Item>, config: Content, launcher: Content)
    requires OneTree(files) && forall f :: f in Eligible(files) ==> f.relative != [] && SplitRelative(Destination(modId, f)).Ok?
    requires Copied(modId, Eligible(files), copies)
    ensures Plan(FullPlan(copies, config, launcher)) && Roles(FullPlan(copies, config, launcher), config, launcher)
  {
    hide SplitRelative, Copy;
    var kept, items := Eligible(files), FullPlan(copies, config, launcher);
    var base := ["mods"] + Pieces(modId);
    EligibleIsOneTree(files);
    forall i | 0 <= i < |copies|
      ensures copies[i].path == base + kept[i].relative && Inside(copies[i].path)
      ensures !copies[i].preserved && !copies[i].skipIfPresent && copies[i].role.ModFile?
    {
      CopyGoes(modId, kept[i]);
      CopyIsPlain(modId, kept[i]);
    }
    forall i, j | 0 <= i < |copies| && 0 <= j < |copies| && i != j
      ensures !(copies[i].path <= copies[j].path)
    {
      Unnested(base, kept[i].relative, kept[j].relative);
    }
    CopiesMakePlan(copies, config, launcher);
    RolesKept(copies, config, launcher);
  }

  /** The configuration is in a plan once, and the launcher, each at its own place and
      with its own content; everything else is the mod's. */
  ghost predicate Roles(items: seq<Item>, config: Content, launcher: Content) {
    && (forall i :: 0 <= i < |items| ==>
          if items[i].path == CONFIG then items[i].role.ConfigFile? && items[i].body == config
          else if items[i].path == LAUNCHER then items[i].role.LauncherFile? && items[i].body == launcher
          else items[i].role.ModFile? && |items[i].path| > 0 && items[i].path[0] == "mods")
    && (exists i :: 0 <= i < |items| && items[i].path == CONFIG) && exists i :: 0 <= i < |items| && items[i].path == LAUNCHER
  }

  lemma RolesKept(copies: seq<Item>, config: Content, launcher: Content)
    requires forall i :: 0 <= i < |copies| ==> |copies[i].path| >= 2 && copies[i].path[0] == "mods" && copies[i].role.ModFile?
    ensures Roles(FullPlan(copies, config, launcher), config, launcher)
  {
    var items := FullPlan(copies, config, launcher);
    assert items[|copies|].path == CONFIG && items[|copies| + 1].path == LAUNCHER;
    assert CONFIG[0] == "pz-agent" && LAUNCHER[0] == "pz-agent" && CONFIG[1] != LAUNCHER[1];
    forall i | 0 <= i < |copies|
      ensures items[i] == copies[i]
    {
    }
  }

  lemma CopyIsPlain(modId: string, f: PayloadFile)
    requires f.relative != []
    ensures !Copy(modId, f).preserved && !Copy(modId, f).skipIfPresent && Copy(modId, f).role.ModFile?
  {
  }

  lemma Unnested(base: Path, a: Path, b: Path)
    ensures base + a <= base + b ==> a <= b
  {
    if base + a <= base + b {
      assert forall k :: 0 <= k < |a| ==> a[k] == (base + a)[|base| + k] && b[k] == (base + b)[|base| + k];
    }
  }

  lemma CopiesMakePlan(copies: seq<Item>, config: Content, launcher: Content)
    requires forall i :: 0 <= i < |copies| ==> Inside(copies[i].path) && |copies[i].path| >= 2 && copies[i].path[0] == "mods"
    requires forall i :: 0 <= i < |copies| ==> !copies[i].preserved && !copies[i].skipIfPresent
    requires forall i, j :: 0 <= i < |copies| && 0 <= j < |copies| && i != j ==> !(copies[i].path <= copies[j].path)
    ensures Plan(FullPlan(copies, config, launcher))
  {
    hide Inside, FullPlan;
    var items := FullPlan(copies, config, launcher);
    assert |items| == |copies| + 2 by { ItemFits(copies, config, launcher, |copies|); }
    forall i, j | 0 <= i < |items| && 0 <= j < |items| && i != j
      ensures items[i].path != items[j].path && items[i].path !in Parents(items[j].path)
    {
      SideBySide(copies, config, launcher, i, j);
      ParentsAreShorter(items[j].path);
    }
    forall i | 0 <= i < |items|
      ensures Inside(items[i].path) && |items[i].path| >= 2
      ensures items[i].path != LEDGER && LEDGER !in Parents(items[i].path) && items[i].path !in Parents(LEDGER)
      ensures items[i].path == CONFIG <==> items[i].skipIfPresent
      ensures items[i].preserved <==> items[i].skipIfPresent
    {
      ItemFits(copies, config, launcher, i);
    }
  }

  lemma ItemFits(copies: seq<Item>, config: Content, launcher: Content, i: nat)
    requires forall k :: 0 <= k < |copies| ==> Inside(copies[k].path) && |copies[k].path| >= 2 && copies[k].path[0] == "mods"
    requires forall k :: 0 <= k < |copies| ==> !copies[k].preserved && !copies[k].skipIfPresent
    requires i < |copies| + 2
    ensures var items := FullPlan(copies, config, launcher);
            && |items| == |copies| + 2
            && Inside(items[i].path) && |items[i].path| >= 2
            && items[i].path != LEDGER && LEDGER !in Parents(items[i].path) && items[i].path !in Parents(LEDGER)
            && (items[i].path == CONFIG <==> items[i].skipIfPresent) && (items[i].preserved <==> items[i].skipIfPresent)
  {
    hide Inside, Parents;
    if i < |copies| { ModPathClear(copies[i].path); } else { OwnPathsClear(); OwnPathsInside(); }
  }

  lemma ModPathClear(p: Path)
    requires |p| >= 2 && p[0] == "mods"
    ensures p != LEDGER && p != CONFIG && LEDGER !in Parents(p) && p !in Parents(LEDGER)
  {
    assert "mods"[0] == 'm' && CONFIG[0][0] == 'p' && LEDGER[0][0] == 'p';
    ParentsAreShorter(p);
    PrefixAgrees(LEDGER, p);
  }

  lemma OwnPathsInside()
    ensures Inside(CONFIG) && Inside(LAUNCHER)
  {
  }

  lemma OwnPathsClear()
    ensures CONFIG != LAUNCHER && CONFIG != LEDGER && LAUNCHER != LEDGER
    ensures LEDGER !in Parents(CONFIG) && LEDGER !in Parents(LAUNCHER)
    ensures CONFIG !in Parents(LEDGER) && LAUNCHER !in Parents(LEDGER)
  {
    hide Parents;
    assert CONFIG[1][0] == 'c' && LAUNCHER[1][0] == 'S' && LEDGER[1][0] == 'i';
    ParentsAreShorter(CONFIG);
    ParentsAreShorter(LAUNCHER);
    ParentsAreShorter(LEDGER);
  }

  lemma SideBySide(copies: seq<Item>, config: Content, launcher: Content, i: nat, j: nat)
    requires forall k :: 0 <= k < |copies| ==> |copies[k].path| >= 2 && copies[k].path[0] == "mods"
    requires forall k, l :: 0 <= k < |copies| && 0 <= l < |copies| && k != l ==> !(copies[k].path <= copies[l].path)
    requires i < |copies| + 2 && j < |copies| + 2 && i != j
    ensures var items := FullPlan(copies, config, launcher); !(items[i].path <= items[j].path)
  {
    var a, b := FullPlan(copies, config, launcher)[i].path, FullPlan(copies, config, launcher)[j].path;
    assert "mods"[0] == 'm' && CONFIG[0][0] == 'p' && LAUNCHER[0][0] == 'p';
    assert CONFIG[1][0] == 'c' && LAUNCHER[1][0] == 'S';
    PrefixAgrees(a, b);
  }

  lemma PrefixAgrees(a: Path, b: Path)
    ensures a <= b && |a| >= 2 ==> |b| >= 2 && a[0] == b[0] && a[1] == b[1]
  {
  }

  lemma ParentsAreShorter(p: Path)
    ensures forall d :: d in Parents(p) ==> d <= p && |d| < |p|
  {
  }
}
