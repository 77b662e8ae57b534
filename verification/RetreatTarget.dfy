/** Where to retreat to: the nearest safe zone in range, or the ring square that
    keeps the most distance from every locatable threat. */
module RetreatTarget {
  import opened Wrappers
  import opened Journey

  const RETREAT_RING_RADIUS := 15
  const MAX_RETREAT_DISTANCE := 30

  datatype Zone = Zone(centre: Square, radius: nat) {
    predicate Contains(square: Square) {
      square.2 == centre.2 && Chebyshev(centre, square) <= radius
    }
  }

  datatype TargetKind = SafeZone | OpenGround

  function Abs(n: int): nat { if n < 0 then -n else n }

  function Max(a: nat, b: nat): nat { if a < b then b else a }

  /** Planar: the floor does not count. */
  function Chebyshev(a: Square, b: Square): nat { Max(Abs(a.0 - b.0), Abs(a.1 - b.1)) }

  predicate SquareLess(a: Square, b: Square) {
    a.0 < b.0 || (a.0 == b.0 && (a.1 < b.1 || (a.1 == b.1 && a.2 < b.2)))
  }

  // ---- the ring ----

  predicate OnRing(c: Square, r: int, s: Square) { s.2 == c.2 && Chebyshev(c, s) == r }

  /** Scan order: every square found so far comes before the next one. */
  ghost predicate InScanOrder(squares: seq<Square>) {
    forall i, j | 0 <= i < j < |squares| :: SquareLess(squares[i], squares[j])
  }

  /** How many ring squares have been passed when the scan stands at `dx`, `dy`. */
  ghost function Passed(r: int, dx: int, dy: int): int
    requires 0 <= r && -r <= dx <= r + 1 && -r <= dy <= r + 1
  {
    if r == 0 then (if dx == 1 || dy == 1 then 1 else 0)
    else if dx == -r then dy + r
    else
      (2 * r + 1) + 2 * (dx + r - 1) +
      (if dx == r + 1 then 2 * r - 1 + dy + r
       else if dx == r then dy + r
       else if dy == -r then 0 else if dy <= r then 1 else 2)
  }

  /** The ring, scanned column by column, is exactly the squares at distance `r`,
      each once, in increasing order: 8r of them. */
  method Ring(c: Square, r: int) returns (squares: seq<Square>)
    requires 0 <= r
    ensures forall s :: s in squares <==> OnRing(c, r, s)
    ensures InScanOrder(squares)
    ensures |squares| == if r == 0 then 1 else 8 * r
  {
    squares := [];
    for dx: int := -r to r + 1
      invariant forall s :: s in squares <==> OnRing(c, r, s) && s.0 < c.0 + dx
      invariant InScanOrder(squares)
      invariant |squares| == Passed(r, dx, -r)
    {
      for dy: int := -r to r + 1
        invariant forall s :: s in squares <==>
                    OnRing(c, r, s) && (s.0 < c.0 + dx || (s.0 == c.0 + dx && s.1 < c.1 + dy))
        invariant InScanOrder(squares)
        invariant |squares| == Passed(r, dx, dy)
      {
        if Max(Abs(dx), Abs(dy)) == r {
          var next := (c.0 + dx, c.1 + dy, c.2);
          assert forall s :: s in squares ==> SquareLess(s, next);
          squares := squares + [next];
        }
      }
    }
  }

  // ---- open ground ----

  /** The distance to the closest of the threats. */
  function Clearance(square: Square, threats: seq<Square>): (d: nat)
    requires threats != []
    ensures exists t :: t in threats && Chebyshev(square, t) == d
    ensures forall t :: t in threats ==> d <= Chebyshev(square, t)
  {
    var last := threats[|threats| - 1];
    assert forall t :: t in threats ==> t == last || t in threats[..|threats| - 1];
    if |threats| == 1 then Chebyshev(square, last)
    else
      var rest := Clearance(square, threats[..|threats| - 1]);
      if Chebyshev(square, last) < rest then Chebyshev(square, last) else rest
  }

  /** More clearance wins; on a tie the earlier square does. */
  ghost predicate Beats(a: Square, b: Square, threats: seq<Square>)
    requires threats != []
  {
    Clearance(b, threats) < Clearance(a, threats) ||
    (Clearance(b, threats) == Clearance(a, threats) && SquareLess(a, b))
  }

  ghost predicate BestOpenGround(here: Square, threats: seq<Square>, best: Square)
    requires threats != []
  {
    && OnRing(here, RETREAT_RING_RADIUS, best)
    && forall s :: OnRing(here, RETREAT_RING_RADIUS, s) && s != best ==> Beats(best, s, threats)
  }

  /** The one square that beats every other square of the ring. */
  ghost function OpenGroundSquare(here: Square, threats: seq<Square>): (best: Square)
    requires threats != []
    ensures BestOpenGround(here, threats, best)
  {
    OpenGroundExists(here, threats);
    var best :| BestOpenGround(here, threats, best);
    best
  }

  lemma OpenGroundExists(here: Square, threats: seq<Square>)
    requires threats != []
    ensures exists best :: BestOpenGround(here, threats, best)
  {
    var r := RETREAT_RING_RADIUS;
    var ring := set dx: int, dy: int | -r <= dx <= r && -r <= dy <= r && Max(Abs(dx), Abs(dy)) == r
                  :: (here.0 + dx, here.1 + dy, here.2);
    forall s | OnRing(here, r, s) ensures s in ring {
      var dx, dy := s.0 - here.0, s.1 - here.1;
      assert Max(Abs(dx), Abs(dy)) == r && s == (here.0 + dx, here.1 + dy, here.2);
    }
    assert (here.0 + r, here.1 + r, here.2) in ring;
    var best := BestOf(ring, threats);
    assert BestOpenGround(here, threats, best);
  }

  lemma {:induction false} BestOf(squares: set<Square>, threats: seq<Square>) returns (best: Square)
    requires threats != [] && squares != {}
    ensures best in squares && forall s :: s in squares && s != best ==> Beats(best, s, threats)
  {
    var one :| one in squares;
    if squares == {one} {
      best := one;
    } else {
      best := BestOf(squares - {one}, threats);
      var rest := best;
      forall s | s in squares - {one} ensures Beats(one, rest, threats) ==> Beats(one, s, threats) {
        BeatsOrder(one, rest, s, threats);
      }
      BeatsOrder(one, rest, one, threats);
      if Beats(one, best, threats) { best := one; }
    }
  }

  lemma BeatsOrder(a: Square, b: Square, c: Square, threats: seq<Square>)
    requires threats != []
    ensures a == b || Beats(a, b, threats) || Beats(b, a, threats)
    ensures Beats(a, b, threats) && Beats(b, c, threats) ==> a != c && Beats(a, c, threats)
  {
  }

  // ---- the selection ----

  predicate CloserCentre(here: Square, a: Square, b: Square) {
    Chebyshev(here, a) < Chebyshev(here, b) || (Chebyshev(here, a) == Chebyshev(here, b) && SquareLess(a, b))
  }

  /** The nearest zone centre in range, ties broken on the centre. */
  ghost function NearestZone(here: Square, zones: seq<Zone>): (best: Option<Square>)
    ensures best.None? <==> forall z :: z in zones ==> Chebyshev(here, z.centre) > MAX_RETREAT_DISTANCE
    ensures best.Some? ==>
              && (exists z :: z in zones && z.centre == best.value)
              && Chebyshev(here, best.value) <= MAX_RETREAT_DISTANCE
              && forall z :: z in zones && z.centre != best.value ==> CloserCentre(here, best.value, z.centre)
  {
    if zones == [] then None
    else
      var last := zones[|zones| - 1];
      assert forall z :: z in zones ==> z == last || z in zones[..|zones| - 1];
      var rest := NearestZone(here, zones[..|zones| - 1]);
      if Chebyshev(here, last.centre) > MAX_RETREAT_DISTANCE then rest
      else if rest.None? || CloserCentre(here, last.centre, rest.value) then Some(last.centre)
      else rest
  }

  ghost function SelectTarget(here: Square, zones: seq<Zone>, threats: seq<Square>): Option<(Square, TargetKind)> {
    var zone := NearestZone(here, zones);
    if zone.Some? then Some((zone.value, SafeZone))
    else if threats == [] then None
    else Some((OpenGroundSquare(here, threats), OpenGround))
  }

  predicate InRange(here: Square, z: Zone) { Chebyshev(here, z.centre) <= MAX_RETREAT_DISTANCE }

  /** The nearest zone in range comes first; with none, the best open ground, if there is
      anything to keep away from. */
  ghost predicate Retreats(here: Square, zones: seq<Zone>, threats: seq<Square>, target: Option<(Square, TargetKind)>) {
    match target
    case Some((square, SafeZone)) =>
      && (exists z :: z in zones && InRange(here, z) && z.centre == square)
      && forall z :: z in zones && z.centre != square ==>
           || Chebyshev(here, square) < Chebyshev(here, z.centre)
           || (Chebyshev(here, square) == Chebyshev(here, z.centre) && SquareLess(square, z.centre))
    case Some((square, OpenGround)) =>
      (forall z :: z in zones ==> !InRange(here, z)) && threats != [] && BestOpenGround(here, threats, square)
    case None => (forall z :: z in zones ==> !InRange(here, z)) && threats == []
  }

  lemma SelectRetreats(here: Square, zones: seq<Zone>, threats: seq<Square>)
    ensures Retreats(here, zones, threats, SelectTarget(here, zones, threats))
  {
    hide Chebyshev, SquareLess, BestOpenGround, NearestZone;
    var zone := NearestZone(here, zones);
    if zone.Some? { assert exists z :: z in zones && z.centre == zone.value; }
  }

  method FindTarget(here: Square, zones: seq<Zone>, threats: seq<Square>)
    returns (target: Option<(Square, TargetKind)>)
    ensures target == SelectTarget(here, zones, threats)
    ensures Retreats(here, zones, threats, target)
  {
    var bestZone: Option<Square> := None;
    for i := 0 to |zones|
      invariant bestZone == NearestZone(here, zones[..i])
    {
      assert zones[..i + 1][..i] == zones[..i];
      var centre := zones[i].centre;
      if Chebyshev(here, centre) <= MAX_RETREAT_DISTANCE {
        if bestZone.None? || CloserCentre(here, centre, bestZone.value) {
          bestZone := Some(centre);
        }
      }
    }
    assert zones[..|zones|] == zones;
    SelectRetreats(here, zones, threats);
    if bestZone.Some? { return Some((bestZone.value, SafeZone)); }
    if threats == [] { return None; }
    var best := FindOpenGround(here, threats);
    return Some((best, OpenGround));
  }

  method FindOpenGround(here: Square, threats: seq<Square>) returns (best: Square)
    requires threats != []
    ensures best == OpenGroundSquare(here, threats)
  {
    hide OpenGroundSquare, Beats, Clearance, OnRing, SquareLess;
    var ring := Ring(here, RETREAT_RING_RADIUS);
    best := ring[0];
    for i := 1 to |ring|
      invariant best in ring[..i]
      invariant Leads(best, ring[..i], threats)
    {
      var candidate := ring[i];
      assert ring[..i + 1] == ring[..i] + [candidate];
      NextBest(ring[..i], best, candidate, threats);
      if Clearance(best, threats) < Clearance(candidate, threats) { best := candidate; }
    }
    assert ring[..|ring|] == ring;
    assert BestOpenGround(here, threats, best);
    OnlyOneBest(here, threats, best, OpenGroundSquare(here, threats));
  }

  /** Better than everything else seen so far. */
  ghost predicate Leads(best: Square, seen: seq<Square>, threats: seq<Square>)
    requires threats != []
  {
    forall s :: s in seen && s != best ==> Beats(best, s, threats)
  }

  lemma NextBest(seen: seq<Square>, best: Square, candidate: Square, threats: seq<Square>)
    requires threats != [] && best in seen && Leads(best, seen, threats)
    requires forall s :: s in seen ==> SquareLess(s, candidate)
    ensures var next := if Clearance(best, threats) < Clearance(candidate, threats) then candidate else best;
            next in seen + [candidate] && Leads(next, seen + [candidate], threats)
  {
    hide Clearance, SquareLess;
    forall s | s in seen
      ensures Beats(candidate, best, threats) && Beats(best, s, threats) ==> Beats(candidate, s, threats)
    {
      BeatsOrder(candidate, best, s, threats);
    }
  }

  lemma OnlyOneBest(here: Square, threats: seq<Square>, a: Square, b: Square)
    requires threats != [] && BestOpenGround(here, threats, a) && BestOpenGround(here, threats, b)
    ensures a == b
  {
    BeatsOrder(a, b, a, threats);
  }

  // ---- how much distance the choice opens ----

  datatype Side = East | West | South | North

  /** Every threat is on, or on one side of, the line through the character. */
  ghost predicate AllOn(side: Side, here: Square, threats: seq<Square>) {
    forall t :: t in threats ==>
      match side
      case East => t.0 >= here.0
      case West => t.0 <= here.0
      case South => t.1 >= here.1
      case North => t.1 <= here.1
  }

  function Opposite(side: Side, here: Square): Square {
    var r := RETREAT_RING_RADIUS;
    match side
    case East => (here.0 - r, here.1, here.2)
    case West => (here.0 + r, here.1, here.2)
    case South => (here.0, here.1 - r, here.2)
    case North => (here.0, here.1 + r, here.2)
  }

  /** A square at least `d` from every threat. */
  predicate Clear(s: Square, threats: seq<Square>, d: nat) { forall t :: t in threats ==> Chebyshev(s, t) >= d }

  /** The choice keeps a distance exactly when some square of the ring does. */
  lemma ClearanceIff(here: Square, threats: seq<Square>, d: nat)
    requires threats != []
    ensures Clearance(OpenGroundSquare(here, threats), threats) >= d <==>
              exists s :: OnRing(here, RETREAT_RING_RADIUS, s) && Clear(s, threats, d)
  {
    hide OpenGroundSquare, Chebyshev, SquareLess;
    var best := OpenGroundSquare(here, threats);
    if s :| OnRing(here, RETREAT_RING_RADIUS, s) && Clear(s, threats, d) {
      assert best == s || Beats(best, s, threats);
    }
    if Clearance(best, threats) >= d { assert Clear(best, threats, d); }
  }

  /** The square of a side `k` along it from its middle. */
  function OnSide(side: Side, here: Square, k: int): Square {
    var r := RETREAT_RING_RADIUS;
    match side
    case East => (here.0 + r, here.1 + k, here.2)
    case West => (here.0 - r, here.1 + k, here.2)
    case South => (here.0 + k, here.1 + r, here.2)
    case North => (here.0 + k, here.1 - r, here.2)
  }

  /** How far along a side a square lies. */
  function Along(side: Side, here: Square, s: Square): int {
    if side.East? || side.West? then s.1 - here.1 else s.0 - here.0
  }

  /** A side's first square, and the first one past each threat's reach. */
  predicate Gap(side: Side, here: Square, threats: seq<Square>, d: nat, k: int) {
    && -RETREAT_RING_RADIUS <= k <= RETREAT_RING_RADIUS
    && (k == -RETREAT_RING_RADIUS || exists t :: t in threats && k == Along(side, here, t) + d)
  }

  /** Side by side: the choice keeps a distance exactly when, on one of the four sides,
      the first square or the first one past some threat is that far from them all. */
  lemma ClearanceBySides(here: Square, threats: seq<Square>, d: nat)
    requires threats != []
    ensures Clearance(OpenGroundSquare(here, threats), threats) >= d <==>
              exists side, k :: Gap(side, here, threats, d, k) && Clear(OnSide(side, here, k), threats, d)
  {
    hide *;
    ClearanceIff(here, threats, d);
    if s :| OnRing(here, RETREAT_RING_RADIUS, s) && Clear(s, threats, d) {
      var side, k := SideOf(here, s);
      var k' := GapBelow(side, here, threats, d, k);
    }
    if side, k :| Gap(side, here, threats, d, k) && Clear(OnSide(side, here, k), threats, d) {
      SideOnRing(side, here, threats, d, k);
    }
  }

  lemma SideOnRing(side: Side, here: Square, threats: seq<Square>, d: nat, k: int)
    requires Gap(side, here, threats, d, k)
    ensures OnRing(here, RETREAT_RING_RADIUS, OnSide(side, here, k))
  {
  }

  lemma SideOf(here: Square, s: Square) returns (side: Side, k: int)
    requires OnRing(here, RETREAT_RING_RADIUS, s)
    ensures -RETREAT_RING_RADIUS <= k <= RETREAT_RING_RADIUS && s == OnSide(side, here, k)
  {
    var (dx, dy) := (s.0 - here.0, s.1 - here.1);
    if Abs(dx) == RETREAT_RING_RADIUS {
      side, k := if dx > 0 then East else West, dy;
    } else {
      side, k := if dy > 0 then South else North, dx;
    }
  }

  /** Walking back along a side from a clear square, one stays clear until the side
      ends or a threat comes into reach. */
  lemma {:induction false} GapBelow(side: Side, here: Square, threats: seq<Square>, d: nat, k: int) returns (first: int)
    requires -RETREAT_RING_RADIUS <= k <= RETREAT_RING_RADIUS && Clear(OnSide(side, here, k), threats, d)
    ensures Gap(side, here, threats, d, first) && Clear(OnSide(side, here, first), threats, d)
    decreases k + RETREAT_RING_RADIUS
  {
    if k == -RETREAT_RING_RADIUS {
      first := k;
    } else if Clear(OnSide(side, here, k - 1), threats, d) {
      first := GapBelow(side, here, threats, d, k - 1);
    } else {
      var t :| t in threats && Chebyshev(OnSide(side, here, k - 1), t) < d;
      assert Chebyshev(OnSide(side, here, k), t) >= d;
      assert k == Along(side, here, t) + d;
      first := k;
    }
  }

  /** Threats confined to one half-plane leave the whole ring radius clear. */
  lemma HalfPlaneClearance(side: Side, here: Square, threats: seq<Square>)
    requires threats != [] && AllOn(side, here, threats)
    ensures Clearance(OpenGroundSquare(here, threats), threats) >= RETREAT_RING_RADIUS
  {
    var away := Opposite(side, here);
    assert OnRing(here, RETREAT_RING_RADIUS, away) && Clear(away, threats, RETREAT_RING_RADIUS);
    ClearanceIff(here, threats, RETREAT_RING_RADIUS);
  }

  /** One threat at distance d: the choice stands exactly 15 + d away from it. */
  lemma SingleThreatClearance(here: Square, threat: Square)
    ensures Clearance(OpenGroundSquare(here, [threat]), [threat])
            == RETREAT_RING_RADIUS + Chebyshev(here, threat)
  {
    var best := OpenGroundSquare(here, [threat]);
    hide OpenGroundSquare, Chebyshev;
    OppositeIsFarthest(here, threat, best);
    assert best == Opposite(Facing(here, threat), here) || Beats(best, Opposite(Facing(here, threat), here), [threat]);
  }

  function Facing(here: Square, threat: Square): Side {
    var (dx, dy) := (threat.0 - here.0, threat.1 - here.1);
    if Abs(dx) >= Abs(dy) then (if dx >= 0 then East else West)
    else if dy >= 0 then South else North
  }

  lemma OppositeIsFarthest(here: Square, threat: Square, other: Square)
    requires OnRing(here, RETREAT_RING_RADIUS, other)
    ensures OnRing(here, RETREAT_RING_RADIUS, Opposite(Facing(here, threat), here))
    ensures Chebyshev(Opposite(Facing(here, threat), here), threat) == RETREAT_RING_RADIUS + Chebyshev(here, threat)
    ensures Chebyshev(other, threat) <= RETREAT_RING_RADIUS + Chebyshev(here, threat)
  {
  }

  /** Eight threats on the ring itself: its corners and the middles of its sides. */
  function Round(here: Square): (round: seq<Square>)
    ensures |round| == 8
  {
    [(here.0 - 15, here.1 - 15, here.2), (here.0, here.1 - 15, here.2), (here.0 + 15, here.1 - 15, here.2),
     (here.0 + 15, here.1, here.2), (here.0 + 15, here.1 + 15, here.2), (here.0, here.1 + 15, here.2),
     (here.0 - 15, here.1 + 15, here.2), (here.0 - 15, here.1, here.2)]
  }

  /** With threats all round there is no such square: eight of them leave no choice
      with even nine squares of clearance. */
  lemma SurroundedHasNoClearance(here: Square)
    ensures Clearance(OpenGroundSquare(here, Round(here)), Round(here)) <= 8
  {
    hide Clearance, OpenGroundSquare, Chebyshev, OnRing, Round;
    var best := OpenGroundSquare(here, Round(here));
    var i := Nearby(best.0 - here.0, best.1 - here.1);
    NearbyIsNear(here, best);
    assert Round(here)[i] in Round(here);
  }

  /** Which of the eight stands near a ring square. */
  function Nearby(dx: int, dy: int): (i: nat)
    ensures i < 8
  {
    if dy == -15 then (if dx < -7 then 0 else if dx <= 7 then 1 else 2)
    else if dy == 15 then (if dx < -7 then 6 else if dx <= 7 then 5 else 4)
    else if dx == 15 then (if dy < -7 then 2 else if dy <= 7 then 3 else 4)
    else (if dy < -7 then 0 else if dy <= 7 then 7 else 6)
  }

  lemma NearbyIsNear(here: Square, s: Square)
    requires OnRing(here, RETREAT_RING_RADIUS, s)
    ensures Chebyshev(s, Round(here)[Nearby(s.0 - here.0, s.1 - here.1)]) <= 8
  {
  }
}
