/** The route executor's budgets: how a journey spends legs, door openings and
    replans, whatever the map search and the world answer.  The search and the map
    are left to the caller. */
module Journey {
  import opened Wrappers
  import opened MissionMoves

  type Square = (int, int, int)

  datatype Limits = Limits(maxLegs: nat, maxReplans: nat, maxFailures: nat) {
    predicate Valid() { 1 <= maxLegs && 1 <= maxReplans && 1 <= maxFailures }

    /** The most steps one journey can ever hand out. */
    function Cap(): nat { maxLegs + maxReplans }
  }

  /** What the route search over the remembered map answers. */
  datatype Route = RouteFound | SearchExhausted | NoRoute(reason: Reason)

  /** What one observation says to a journey: whether it stands within the target
      radius, how far it is, whether the failed leg has a door worth opening. */
  datatype View = View(arrived: bool, distance: nat, doorOnLeg: bool, route: Route)

  datatype StepAction = MoveTo | DoorOpen

  datatype Answer = Step(action: StepAction) | Arrived | Refused(reason: Option<Reason>)

  datatype Trip = Trip(
    target: Square, limits: Limits, steps: nat, legs: nat, replans: nat,
    failures: nat, legsWithoutProgress: nat, best: Option<nat>, legCompleted: bool,
    doorRetry: bool, pending: Option<StepAction>, outcome: Option<Answer>)
  {
    /** Every door opening is paid for by a replan already spent. */
    predicate Valid() {
      && limits.Valid()
      && legs <= limits.maxLegs && legs <= steps
      && steps - legs <= limits.maxReplans
      && steps - legs + (if doorRetry then 1 else 0) <= replans
      && (outcome.Some? ==> !outcome.value.Step?)
    }

    function Fuel(): nat
      requires Valid()
    {
      limits.Cap() - steps
    }
  }

  function Begin(target: Square, limits: Limits): Trip {
    Trip(target, limits, 0, 0, 0, 0, 0, None, false, false, None, None)
  }

  function Ends(t: Trip, answer: Answer): (Trip, Answer) { (t.(outcome := Some(answer)), answer) }

  function TrackProgress(t: Trip, distance: nat): Trip {
    var best := if t.best.None? then distance else t.best.value;
    t.(best := Some(if distance < best then distance else best),
       legCompleted := false,
       legsWithoutProgress := if !t.legCompleted then t.legsWithoutProgress
                              else if distance < best then 0 else t.legsWithoutProgress + 1)
  }

  /** One decision.  A step always spends fuel, and a finished journey replays
      its outcome: this is what every mission that walks relies on. */
  function Next(t: Trip, view: View): (r: (Trip, Answer))
    requires t.Valid()
    ensures r.0.Valid() && r.0.limits == t.limits && r.0.target == t.target
    ensures r.1.Step? ==> r.0.Fuel() == t.Fuel() - 1 && r.0.pending == Some(r.1.action) && t.outcome.None?
    ensures !r.1.Step? ==> r.0.Fuel() == t.Fuel() && r.0.outcome == Some(r.1)
  {
    if t.outcome.Some? then (t, t.outcome.value)
    else if view.arrived then Ends(t, Arrived)
    else
      var tracked := TrackProgress(t, view.distance);
      if tracked.legsWithoutProgress >= t.limits.maxFailures || t.failures >= t.limits.maxFailures then
        Ends(tracked, Refused(Some(OtherReason("PATH_STUCK"))))
      else if t.replans > t.limits.maxReplans then Ends(tracked, Refused(None))
      else if t.doorRetry && view.doorOnLeg then
        (tracked.(doorRetry := false, steps := t.steps + 1, pending := Some(DoorOpen)), Step(DoorOpen))
      else
        var replanned := tracked.(doorRetry := false);
        match view.route
        case SearchExhausted => Ends(replanned, Refused(None))
        case NoRoute(reason) => Ends(replanned, Refused(Some(reason)))
        case RouteFound =>
          if t.legs >= t.limits.maxLegs then Ends(replanned, Refused(None))
          else (replanned.(steps := t.steps + 1, legs := t.legs + 1, pending := Some(MoveTo)), Step(MoveTo))
  }

  /** One result folded in.  It never gives fuel back. */
  function Note(t: Trip, r: ActionResult<StepAction>): (t': Trip)
    requires t.Valid()
    ensures t'.Valid() && t'.limits == t.limits && t'.target == t.target
    ensures t'.Fuel() == t.Fuel() && t'.outcome == t.outcome
  {
    if t.outcome.Some? || r.status.NotTerminal? || t.pending != Some(r.action) then t
    else
      var landed := t.(pending := None, legCompleted := t.legCompleted || r.action.MoveTo?);
      if r.status.Succeeded? then landed.(failures := 0)
      else
        var walkBlocked := r.action.MoveTo? &&
          (r.reason.PathNotFound? || r.reason == OtherReason("PATH_STUCK"));
        landed.(replans := t.replans + 1, failures := t.failures + 1,
                doorRetry := t.doorRetry || walkBlocked)
  }

  // ---- a whole journey ----

  datatype Event = Look(view: View) | Fold(result: ActionResult<StepAction>)

  ghost function After(t: Trip, events: seq<Event>): (r: (Trip, nat))
    requires t.Valid()
    ensures r.0.Valid() && r.0.limits == t.limits
  {
    if events == [] then (t, 0)
    else
      var (before, handed) := After(t, events[..|events| - 1]);
      match events[|events| - 1]
      case Fold(result) => (Note(before, result), handed)
      case Look(view) =>
        var (next, answer) := Next(before, view);
        (next, if answer.Step? then handed + 1 else handed)
  }

  /** However it is driven, a journey hands out at most legs plus replans steps. */
  lemma {:induction false} JourneyIsBounded(target: Square, limits: Limits, events: seq<Event>)
    requires limits.Valid()
    ensures var (t, handed) := After(Begin(target, limits), events);
            handed + t.Fuel() == limits.Cap() && handed <= limits.maxLegs + limits.maxReplans
  {
    if events != [] { JourneyIsBounded(target, limits, events[..|events| - 1]); }
  }
}
