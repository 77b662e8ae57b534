/** The retreat mission: leg by leg, until an observation itself is safe.  The
    functions say what one observation and one result do to the mission's state;
    the class does the same step by step, and keeps the history both are compared
    on. */
module AvoidMission {
  import opened Wrappers
  import opened MissionMoves
  import opened RetreatTarget
  import J = Journey

  const SAFE_DISTANCE := 12.0

  datatype Limits = Limits(maxLegs: nat, maxFailures: nat, maxProbes: nat) {
    predicate Valid() { 1 <= maxLegs && 1 <= maxFailures && 1 <= maxProbes }
  }

  datatype Mission = Mission(limits: Limits, journey: J.Limits) {
    predicate Valid() { limits.Valid() && journey.Valid() }
  }

  datatype Zombie = Zombie(distance: real, square: Option<J.Square>, chasing: bool)

  /** One observation, with what the ports answer beside it: the remembered safe
      zones, and what the map says to the journey of each leg. */
  datatype Obs = Obs(here: J.Square, zombies: Option<seq<Zombie>>, zones: seq<Zone>, views: nat -> J.View)

  /** One step of the journey of leg number `leg`, which is aimed at `aim`. */
  datatype Command = WalkLeg(leg: nat, aim: J.Square, action: J.StepAction)

  datatype State = State(
    journey: Option<J.Trip>, targetKind: Option<TargetKind>, pending: Option<J.StepAction>,
    legsStarted: nat, probes: nat, failures: nat, anySuccess: bool,
    threatsAtStart: Option<nat>, nearestBefore: Option<real>, nearestAfter: Option<real>,
    ended: Ending, final: Option<Move<Command>>)
  {
    predicate Valid() { journey.Some? ==> journey.value.Valid() }
  }

  type AvoidEntry = Entry<Obs, Command, J.StepAction>

  // ---- reading the picture ----

  function Reach(z: Zombie): real { if z.distance < 0.0 then 0.0 else z.distance }

  function NearestDistance(zombies: seq<Zombie>): (d: Option<real>)
    ensures d.None? <==> zombies == []
    ensures d.Some? ==> (exists z :: z in zombies && Reach(z) == d.value)
                        && forall z :: z in zombies ==> d.value <= Reach(z)
  {
    if zombies == [] then None
    else
      var last := zombies[|zombies| - 1];
      assert forall z :: z in zombies ==> z == last || z in zombies[..|zombies| - 1];
      var rest := NearestDistance(zombies[..|zombies| - 1]);
      if rest.None? || Reach(last) < rest.value then Some(Reach(last)) else rest
  }

  /** The observed postcondition: far enough from everything, or inside a
      remembered zone with nothing chasing. */
  predicate IsSafe(obs: Obs)
    requires obs.zombies.Some?
  {
    var zombies := obs.zombies.value;
    || (forall z | z in zombies :: Reach(z) >= SAFE_DISTANCE)
    || ((forall z | z in zombies :: !z.chasing) && exists zone | zone in obs.zones :: zone.Contains(obs.here))
  }

  /** Where the zombies are whose place is known. */
  function ThreatSquares(zombies: seq<Zombie>): (squares: seq<J.Square>)
    ensures forall sq :: sq in squares <==> exists z :: z in zombies && z.square == Some(sq)
  {
    if zombies == [] then []
    else
      assert forall z :: z in zombies <==> z == zombies[|zombies| - 1] || z in zombies[..|zombies| - 1];
      var rest := ThreatSquares(zombies[..|zombies| - 1]);
      var last := zombies[|zombies| - 1];
      if last.square.Some? then rest + [last.square.value] else rest
  }

  // ---- the decision ----

  function Initial(): State {
    State(None, None, None, 0, 0, 0, false, None, None, None, EndedInProgress, None)
  }

  function Seal(s: State, move: Move<Command>): (State, Move<Command>)
    requires move.Ends()
  {
    (s.(final := Some(move), ended := if move.Complete? then EndedComplete else move.ended), move)
  }

  function Finish(m: Mission, s: State): (State, Move<Command>) {
    if s.anySuccess then Seal(s, Complete)
    else if s.probes >= m.limits.maxProbes then Seal(s, Refuse(EndedNoProgress, NoProgress))
    else (s.(ended := EndedComplete, probes := s.probes + 1), Probe(s.probes + 1))
  }

  function Threatened(s: State): (State, Move<Command>) {
    Seal(s, Refuse(EndedThreatened, ThreatInterrupted))
  }

  ghost function TargetFor(obs: Obs): Option<(J.Square, TargetKind)>
    requires obs.zombies.Some?
  {
    SelectTarget(obs.here, obs.zones, ThreatSquares(obs.zombies.value))
  }

  function StartLeg(m: Mission, s: State, target: J.Square, kind: TargetKind): State {
    s.(legsStarted := s.legsStarted + 1, targetKind := Some(kind),
       journey := Some(J.Begin(target, m.journey)))
  }

  /** The leg in hand, or a new one; None when there is no leg left or nowhere to aim. */
  ghost function Aim(m: Mission, s: State, obs: Obs): (aimed: Option<State>)
    requires m.Valid() && s.Valid() && obs.zombies.Some?
    ensures aimed.Some? ==>
              && aimed.value.Valid() && aimed.value.journey.Some?
              && aimed.value.failures == s.failures && aimed.value.pending == s.pending
  {
    if s.journey.Some? then Some(s)
    else if s.legsStarted >= m.limits.maxLegs then None
    else match TargetFor(obs)
      case None => None
      case Some((square, kind)) => Some(StartLeg(m, s, square, kind))
  }

  /** Drive the leg, aiming new ones while journeys refuse. */
  ghost function Walk(m: Mission, s: State, obs: Obs): (r: (State, Move<Command>))
    requires m.Valid() && s.Valid() && obs.zombies.Some?
    ensures r.0.Valid()
    decreases m.limits.maxFailures - s.failures
  {
    if s.failures >= m.limits.maxFailures || Aim(m, s, obs).None? then Threatened(s)
    else
      var aimed := Aim(m, s, obs).value;
      var (trip, answer) := J.Next(aimed.journey.value, obs.views(aimed.legsStarted));
      match answer
      case Arrived => (aimed.(journey := None), Wait)
      case Refused(_) => Walk(m, aimed.(journey := None, failures := s.failures + 1), obs)
      case Step(action) =>
        (aimed.(journey := Some(trip), pending := Some(action)),
         Do(trip.steps, WalkLeg(aimed.legsStarted, trip.target, action)))
  }

  function Observed(s: State, zombies: seq<Zombie>): State {
    var nearest := NearestDistance(zombies);
    s.(threatsAtStart := if s.threatsAtStart.None? then Some(|zombies|) else s.threatsAtStart,
       nearestBefore := if s.threatsAtStart.None? then nearest else s.nearestBefore,
       nearestAfter := nearest)
  }

  ghost function Decide(m: Mission, s: State, obs: Obs): (r: (State, Move<Command>))
    requires m.Valid() && s.Valid()
    ensures r.0.Valid()
  {
    if s.final.Some? then (s, s.final.value)
    else if obs.zombies.None? then Seal(s, Refuse(EndedNoProgress, CapabilityUnavailable))
    else
      var seen := Observed(s, obs.zombies.value);
      if IsSafe(obs) then Finish(m, seen)
      else if s.pending.Some? then (seen, Wait)
      else Walk(m, seen, obs)
  }

  predicate Accepts(s: State, r: ActionResult<J.StepAction>) {
    s.final.None? && !r.status.NotTerminal? && s.pending == Some(r.action)
  }

  function Note(s: State, r: ActionResult<J.StepAction>): State
    requires s.Valid()
  {
    if !Accepts(s, r) then s
    else
      var won := r.status.Succeeded?;
      s.(pending := None,
         journey := if s.journey.Some? then Some(J.Note(s.journey.value, r)) else None,
         anySuccess := s.anySuccess || won,
         failures := if won then 0 else s.failures + 1)
  }

  function Abandoned(s: State): State {
    if s.ended.EndedInProgress? then s.(ended := EndedCancelled) else s
  }

  // ---- runs ----

  datatype Event = Look(obs: Obs) | Fold(result: ActionResult<J.StepAction>) | Abandon

  datatype Run = Run(state: State, log: seq<AvoidEntry>)

  ghost function Step(m: Mission, run: Run, e: Event): (run': Run)
    requires m.Valid() && run.state.Valid()
    ensures run'.state.Valid()
  {
    match e
    case Look(obs) =>
      var (s, move) := Decide(m, run.state, obs);
      Run(s, run.log + [Told(obs, move)])
    case Fold(r) =>
      Run(Note(run.state, r), if Accepts(run.state, r) then run.log + [Folded(r)] else run.log)
    case Abandon => run.(state := Abandoned(run.state))
  }

  ghost function After(m: Mission, events: seq<Event>): (run: Run)
    requires m.Valid()
    ensures run.state.Valid()
  {
    if events == [] then Run(Initial(), [])
    else Step(m, After(m, events[..|events| - 1]), events[|events| - 1])
  }

  lemma HistoryAppend(m: Mission, events: seq<Event>, e: Event)
    requires m.Valid()
    ensures After(m, events + [e]) == Step(m, After(m, events), e)
  {
    assert (events + [e])[..|events|] == events;
  }

  // ---- the mission object ----

  class AvoidMission {
    const mission: Mission
    var journey: Option<J.Trip>
    var targetKind: Option<TargetKind>
    var pending: Option<J.StepAction>
    var legsStarted: nat
    var probes: nat
    var failures: nat
    var anySuccess: bool
    var threatsAtStart: Option<nat>
    var nearestBefore: Option<real>
    var nearestAfter: Option<real>
    var ended: Ending
    var final: Option<Move<Command>>
    ghost var history: seq<Event>

    ghost function Snapshot(): State
      reads this
    {
      State(journey, targetKind, pending, legsStarted, probes, failures, anySuccess,
            threatsAtStart, nearestBefore, nearestAfter, ended, final)
    }

    ghost predicate Valid()
      reads this
    {
      mission.Valid() && Snapshot() == After(mission, history).state
    }

    constructor (mission: Mission)
      requires mission.Valid()
      ensures Valid() && this.mission == mission && history == []
    {
      this.mission := mission;
      journey, targetKind, pending, legsStarted, probes := None, None, None, 0, 0;
      failures, anySuccess, threatsAtStart, nearestBefore := 0, false, None, None;
      nearestAfter, ended, final, history := None, EndedInProgress, None, [];
    }

    method NoteResult(result: ActionResult<J.StepAction>)
      requires Valid()
      modifies this
      ensures Valid() && history == old(history) + [Fold(result)]
    {
      HistoryAppend(mission, history, Fold(result));
      history := history + [Fold(result)];
      if final.Some? || result.status.NotTerminal? { return; }
      if pending.None? || result.action != pending.value { return; }
      pending := None;
      if journey.Some? { journey := Some(J.Note(journey.value, result)); }
      if result.status.Succeeded? {
        anySuccess := true;
        failures := 0;
      } else {
        failures := failures + 1;
      }
    }

    method MarkAbandoned()
      requires Valid()
      modifies this
      ensures Valid() && history == old(history) + [Abandon]
    {
      HistoryAppend(mission, history, Abandon);
      history := history + [Abandon];
      if ended.EndedInProgress? { ended := EndedCancelled; }
    }

    /** The answer is the one the run of the whole history gives. */
    method NextStep(obs: Obs) returns (move: Move<Command>)
      requires Valid()
      modifies this
      ensures Valid() && history == old(history) + [Look(obs)]
      ensures After(mission, history).log == After(mission, old(history)).log + [Told(obs, move)]
    {
      HistoryAppend(mission, history, Look(obs));
      move := Decides(obs);
      history := history + [Look(obs)];
    }

    method Decides(obs: Obs) returns (move: Move<Command>)
      requires mission.Valid() && Snapshot().Valid()
      modifies this
      ensures (Snapshot(), move) == Decide(mission, old(Snapshot()), obs) && history == old(history)
    {
      if final.Some? { return final.value; }
      if obs.zombies.None? {
        move := Seals(Refuse(EndedNoProgress, CapabilityUnavailable));
        return;
      }
      var nearest := NearestDistance(obs.zombies.value);
      if threatsAtStart.None? {
        threatsAtStart := Some(|obs.zombies.value|);
        nearestBefore := nearest;
      }
      nearestAfter := nearest;
      if SafeNow(obs, nearest) {
        move := Finishes();
        return;
      }
      if pending.Some? { return Wait; }
      move := WalksOn(obs);
    }

    /** The postcondition as it is checked: the nearest distance, the chasers,
        then the zones. */
    function SafeNow(obs: Obs, nearest: Option<real>): (safe: bool)
      requires obs.zombies.Some? && nearest == NearestDistance(obs.zombies.value)
      ensures safe <==> IsSafe(obs)
    {
      if nearest.None? || nearest.value >= SAFE_DISTANCE then true
      else if exists z | z in obs.zombies.value :: z.chasing then false
      else exists zone | zone in obs.zones :: zone.Contains(obs.here)
    }

    method WalksOn(obs: Obs) returns (move: Move<Command>)
      requires mission.Valid() && Snapshot().Valid() && obs.zombies.Some?
      modifies this
      ensures (Snapshot(), move) == Walk(mission, old(Snapshot()), obs) && history == old(history)
    {
      var done := false;
      move := Wait;
      while !done
        invariant !done ==> Snapshot().Valid() && Walk(mission, Snapshot(), obs) == Walk(mission, old(Snapshot()), obs)
        invariant done ==> (Snapshot(), move) == Walk(mission, old(Snapshot()), obs)
        invariant history == old(history)
        decreases !done, mission.limits.maxFailures - failures
      {
        done, move := WalksOnce(obs);
      }
    }

    /** One turn of the walk: an answer, or a refused journey put aside. */
    method WalksOnce(obs: Obs) returns (done: bool, move: Move<Command>)
      requires mission.Valid() && Snapshot().Valid() && obs.zombies.Some?
      modifies this
      ensures done ==> (Snapshot(), move) == Walk(mission, old(Snapshot()), obs)
      ensures !done ==>
        && Snapshot().Valid() && Walk(mission, Snapshot(), obs) == Walk(mission, old(Snapshot()), obs)
        && old(failures) < mission.limits.maxFailures && failures == old(failures) + 1
      ensures history == old(history)
    {
      if failures >= mission.limits.maxFailures {
        move := Seals(Refuse(EndedThreatened, ThreatInterrupted));
        return true, move;
      }
      var aimed := StartsLeg(obs);
      if !aimed {
        move := Seals(Refuse(EndedThreatened, ThreatInterrupted));
        return true, move;
      }
      assert Aim(mission, old(Snapshot()), obs) == Some(Snapshot());
      var (trip, answer) := J.Next(journey.value, obs.views(legsStarted));
      if answer.Arrived? {
        journey := None;
        return true, Wait;
      }
      if answer.Refused? {
        failures := failures + 1;
        journey := None;
        return false, Wait;
      }
      journey := Some(trip);
      pending := Some(answer.action);
      return true, Do(trip.steps, WalkLeg(legsStarted, trip.target, answer.action));
    }

    method StartsLeg(obs: Obs) returns (aimed: bool)
      requires mission.Valid() && Snapshot().Valid() && obs.zombies.Some?
      modifies this`journey, this`legsStarted, this`targetKind
      ensures Aim(mission, old(Snapshot()), obs) == if aimed then Some(Snapshot()) else None
      ensures !aimed ==> Snapshot() == old(Snapshot())
      ensures history == old(history)
    {
      if journey.Some? { return true; }
      if legsStarted >= mission.limits.maxLegs { return false; }
      var target := FindTarget(obs.here, obs.zones, ThreatSquares(obs.zombies.value));
      if target.None? { return false; }
      legsStarted := legsStarted + 1;
      targetKind := Some(target.value.1);
      journey := Some(J.Begin(target.value.0, mission.journey));
      return true;
    }

    method Finishes() returns (move: Move<Command>)
      modifies this
      ensures (Snapshot(), move) == Finish(mission, old(Snapshot())) && history == old(history)
    {
      if anySuccess {
        move := Seals(Complete);
        return;
      }
      if probes >= mission.limits.maxProbes {
        move := Seals(Refuse(EndedNoProgress, NoProgress));
        return;
      }
      ended := EndedComplete;
      probes := probes + 1;
      move := Probe(probes);
    }

    method Seals(answer: Move<Command>) returns (move: Move<Command>)
      requires answer.Ends()
      modifies this
      ensures (Snapshot(), move) == Seal(old(Snapshot()), answer) && history == old(history)
    {
      ended := if answer.Complete? then EndedComplete else answer.ended;
      final := Some(answer);
      move := answer;
    }
  }
}
