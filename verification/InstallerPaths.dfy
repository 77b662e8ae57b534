/** Ledger paths: text with forward slashes on disk, components in use. */
module InstallerPaths {
  import opened Text
  import opened Wrappers

  const MAX_DEPTH := 12

  type Path = seq<string>

  datatype PathProblem = NotRelative | Backslash | Traverses | NamesDrive | TooDeep

  function Pieces(text: string): (parts: seq<string>)
    ensures |parts| >= 1
    ensures forall part :: part in parts ==> '/' !in part
  {
    Cut(text, '/')
  }

  function Joined(parts: seq<string>): string
    requires |parts| >= 1
  {
    Glue(parts, '/')
  }

  predicate Component(part: string) {
    part != "" && part != "." && part != ".." && '/' !in part && '\\' !in part && ':' !in part
  }

  /** What may address a file under the target. */
  predicate Inside(parts: seq<string>) {
    1 <= |parts| <= MAX_DEPTH && forall part :: part in parts ==> Component(part)
  }

  function SplitRelative(text: string): Result<Path, PathProblem> {
    if text == "" || text[0] == '/' || text[0] == '\\' then Err(NotRelative)
    else if '\\' in text then Err(Backslash)
    else
      var parts := Pieces(text);
      if exists part :: part in parts && part in ["", ".", ".."] then Err(Traverses)
      else if exists part :: part in parts && ':' in part then Err(NamesDrive)
      else if |parts| > MAX_DEPTH then Err(TooDeep)
      else Ok(parts)
  }

  /** Splitting accepts exactly the joins of components that stay inside the target,
      and gives those components back. */
  lemma SplitExactly(text: string, parts: Path)
    ensures SplitRelative(text) == Ok(parts) <==> Inside(parts) && Joined(parts) == text
  {
    if Inside(parts) && Joined(parts) == text {
      JoinsSplit(parts);
    }
    if SplitRelative(text) == Ok(parts) {
      SplitsInside(text);
    }
  }

  /** What each problem says of a text. */
  ghost predicate Breaches(text: string, p: PathProblem) {
    match p
    case NotRelative => text == "" || text[0] == '/' || text[0] == '\\'
    case Backslash => exists i :: 0 <= i < |text| && text[i] == '\\'
    case Traverses => "" in Pieces(text) || "." in Pieces(text) || ".." in Pieces(text)
    case NamesDrive => exists part, i :: part in Pieces(text) && 0 <= i < |part| && part[i] == ':'
    case TooDeep => |Pieces(text)| > 12
  }

  ghost function Turn(p: PathProblem): nat {
    match p case NotRelative => 0 case Backslash => 1 case Traverses => 2 case NamesDrive => 3 case TooDeep => 4
  }

  /** The problem a text is refused for is the first it suffers from. */
  lemma RefusedForFirst(text: string, p: PathProblem)
    ensures SplitRelative(text) == Err(p) <==>
              Breaches(text, p) && forall other :: Turn(other) < Turn(p) ==> !Breaches(text, other)
  {
    BreachIs(text);
    match p { case NotRelative => case Backslash => case Traverses => case NamesDrive => case TooDeep => }
  }

  lemma BreachIs(text: string)
    ensures text == "" || text[0] == '/' || text[0] == '\\' <==> Breaches(text, NotRelative)
    ensures '\\' in text <==> Breaches(text, Backslash)
    ensures (exists part :: part in Pieces(text) && part in ["", ".", ".."]) <==> Breaches(text, Traverses)
    ensures (exists part :: part in Pieces(text) && ':' in part) <==> Breaches(text, NamesDrive)
  {
    hide Cut;
    forall part: string
      ensures part in ["", ".", ".."] <==> part == "" || part == "." || part == ".."
    {
    }
    if part :| part in Pieces(text) && ':' in part { var i :| 0 <= i < |part| && part[i] == ':'; }
  }

  lemma JoinsSplit(parts: Path)
    requires Inside(parts)
    ensures SplitRelative(Joined(parts)) == Ok(parts)
  {
    hide Cut;
    var text := Joined(parts);
    CutUndoesGlue(parts, '/');
    GlueUndoesCut(text, '/');
    assert Component(parts[0]);
    assert text[0] == parts[0][0] && parts[0][0] in parts[0];
  }

  lemma SplitsInside(text: string)
    requires SplitRelative(text).Ok?
    ensures Inside(SplitRelative(text).value) && Joined(SplitRelative(text).value) == text
  {
    hide Cut, Glue;
    GlueUndoesCut(text, '/');
    forall part | part in Pieces(text)
      ensures Component(part)
    {
      assert '\\' !in part;
    }
  }
}
