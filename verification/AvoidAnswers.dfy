/** What the retreat mission answers, read off the log and the legs it has in hand. */
module AvoidAnswers {
  import opened Wrappers
  import opened MissionMoves
  import opened RetreatTarget
  import opened AvoidMission
  import opened AvoidSafety
  import J = Journey

  // ---- the journeys tried on one look ----

  /** Where a new leg would go. */
  ghost function Target(obs: Obs): Option<(J.Square, TargetKind)>
    requires obs.zombies.Some?
    ensures Retreats(obs.here, obs.zones, ThreatSquares(obs.zombies.value), Target(obs))
  {
    SelectRetreats(obs.here, obs.zones, ThreatSquares(obs.zombies.value));
    SelectTarget(obs.here, obs.zones, ThreatSquares(obs.zombies.value))
  }

  /** The number of the leg the `n`-th journey tried on this look is for. */
  ghost function LegTried(journey: Option<J.Trip>, legs: nat, n: nat): nat { if journey.Some? then legs + n else legs + n + 1 }

  /** The `n`-th journey tried: the one in hand, and then fresh ones to the target while
      legs last. */
  ghost function Tried(m: Mission, journey: Option<J.Trip>, legs: nat, obs: Obs, n: nat): (trip: Option<J.Trip>)
    requires m.Valid() && obs.zombies.Some? && (journey.Some? ==> journey.value.Valid())
    ensures trip.Some? ==> trip.value.Valid()
  {
    if n == 0 && journey.Some? then journey
    else if LegTried(journey, legs, n) <= m.limits.maxLegs && Target(obs).Some? then Some(J.Begin(Target(obs).value.0, m.journey))
    else None
  }

  ghost function AnswerOf(m: Mission, journey: Option<J.Trip>, legs: nat, obs: Obs, n: nat): (J.Trip, J.Answer)
    requires m.Valid() && obs.zombies.Some? && (journey.Some? ==> journey.value.Valid()) && Tried(m, journey, legs, obs, n).Some?
  {
    J.Next(Tried(m, journey, legs, obs, n).value, obs.views(LegTried(journey, legs, n)))
  }

  /** The `n`-th journey can be tried: the failures so far, with the journeys refused on
      this look, are short of the limit, and there is one. */
  ghost predicate CanTry(m: Mission, journey: Option<J.Trip>, legs: nat, failures: nat, obs: Obs, n: nat)
    requires m.Valid() && obs.zombies.Some? && (journey.Some? ==> journey.value.Valid())
  {
    failures + n < m.limits.maxFailures && Tried(m, journey, legs, obs, n).Some?
  }

  /** The first `n` journeys are tried and refused. */
  ghost predicate AllRefused(m: Mission, journey: Option<J.Trip>, legs: nat, failures: nat, obs: Obs, n: nat)
    requires m.Valid() && obs.zombies.Some? && (journey.Some? ==> journey.value.Valid())
  {
    forall k :: 0 <= k < n ==> CanTry(m, journey, legs, failures, obs, k) && AnswerOf(m, journey, legs, obs, k).1.Refused?
  }

  /** The answer of a walk: after the refused journeys, a step of the first that gives
      one, a wait at one that has arrived, or, with none left to try, the threat. */
  ghost predicate Walked(m: Mission, journey: Option<J.Trip>, legs: nat, failures: nat, obs: Obs, move: Move<Command>, n: nat)
    requires m.Valid() && obs.zombies.Some? && (journey.Some? ==> journey.value.Valid())
  {
    && AllRefused(m, journey, legs, failures, obs, n)
    && if !CanTry(m, journey, legs, failures, obs, n) then move == Refuse(EndedThreatened, ThreatInterrupted)
       else
         var (trip, answer) := AnswerOf(m, journey, legs, obs, n);
         match answer
         case Refused(_) => false
         case Arrived => move.Wait?
         case Step(action) => move == Do(trip.steps, WalkLeg(LegTried(journey, legs, n), trip.target, action))
  }

  /** And what a walk leaves: a failure for each journey refused, the legs begun, and the
      journey that gave the step. */
  ghost predicate Left(m: Mission, journey: Option<J.Trip>, legs: nat, failures: nat, obs: Obs, s': State, n: nat)
    requires m.Valid() && obs.zombies.Some? && (journey.Some? ==> journey.value.Valid())
  {
    && s'.failures == failures + n
    && if CanTry(m, journey, legs, failures, obs, n) then
         var (trip, answer) := AnswerOf(m, journey, legs, obs, n);
         s'.legsStarted == LegTried(journey, legs, n) && s'.journey == if answer.Step? then Some(trip) else None
       else
         s'.legsStarted == (if n == 0 then legs else LegTried(journey, legs, n - 1)) && s'.journey == if n == 0 then journey else None
  }

  lemma {:induction false} WalkIs(m: Mission, s: State, obs: Obs) returns (n: nat)
    requires m.Valid() && s.Valid() && obs.zombies.Some?
    ensures Walked(m, s.journey, s.legsStarted, s.failures, obs, Walk(m, s, obs).1, n)
    ensures Left(m, s.journey, s.legsStarted, s.failures, obs, Walk(m, s, obs).0, n)
    decreases m.limits.maxFailures - s.failures
  {
    hide J.Next, SelectTarget, ThreatSquares;
    n := 0;
    if s.failures < m.limits.maxFailures && Aim(m, s, obs).Some? {
      var aimed := Aim(m, s, obs).value;
      if J.Next(aimed.journey.value, obs.views(aimed.legsStarted)).1.Refused? {
        var retry := aimed.(journey := None, failures := s.failures + 1);
        var k := WalkIs(m, retry, obs);
        n := k + 1;
        ShiftTried(m, s, retry, obs, k);
      }
    }
  }

  lemma ShiftTried(m: Mission, s: State, retry: State, obs: Obs, k: nat)
    requires m.Valid() && s.Valid() && obs.zombies.Some? && retry.Valid() && retry.journey.None? && retry.failures == s.failures + 1
    requires CanTry(m, s.journey, s.legsStarted, s.failures, obs, 0) && AnswerOf(m, s.journey, s.legsStarted, obs, 0).1.Refused?
    requires retry.legsStarted == LegTried(s.journey, s.legsStarted, 0) && Walk(m, s, obs) == Walk(m, retry, obs)
    requires Walked(m, None, retry.legsStarted, retry.failures, obs, Walk(m, retry, obs).1, k)
    requires Left(m, None, retry.legsStarted, retry.failures, obs, Walk(m, retry, obs).0, k)
    ensures Walked(m, s.journey, s.legsStarted, s.failures, obs, Walk(m, s, obs).1, k + 1)
    ensures Left(m, s.journey, s.legsStarted, s.failures, obs, Walk(m, s, obs).0, k + 1)
  {
    hide J.Next, Target, Walk, AllRefused;
    ShiftRefused(m, s, retry, obs, k);
    assert Tried(m, s.journey, s.legsStarted, obs, k + 1) == Tried(m, None, retry.legsStarted, obs, k);
    assert LegTried(s.journey, s.legsStarted, k + 1) == LegTried(None, retry.legsStarted, k);
  }

  /** The journeys tried after a refused one are those tried from there. */
  lemma ShiftRefused(m: Mission, s: State, retry: State, obs: Obs, k: nat)
    requires m.Valid() && s.Valid() && obs.zombies.Some? && retry.journey.None? && retry.failures == s.failures + 1
    requires CanTry(m, s.journey, s.legsStarted, s.failures, obs, 0) && AnswerOf(m, s.journey, s.legsStarted, obs, 0).1.Refused?
    requires retry.legsStarted == LegTried(s.journey, s.legsStarted, 0)
    requires AllRefused(m, None, retry.legsStarted, retry.failures, obs, k)
    ensures AllRefused(m, s.journey, s.legsStarted, s.failures, obs, k + 1)
    ensures CanTry(m, s.journey, s.legsStarted, s.failures, obs, k + 1) <==> CanTry(m, None, retry.legsStarted, retry.failures, obs, k)
  {
    hide J.Next, Target;
    forall i | 0 <= i < k + 1
      ensures CanTry(m, s.journey, s.legsStarted, s.failures, obs, i) && AnswerOf(m, s.journey, s.legsStarted, obs, i).1.Refused?
    {
      if i > 0 { assert CanTry(m, None, retry.legsStarted, retry.failures, obs, i - 1); }
    }
  }

  // ---- the whole answer ----

  /** On the zone's floor, within its radius each way. */
  predicate Inside(zone: Zone, square: J.Square) {
    && square.2 == zone.centre.2
    && zone.centre.0 - zone.radius <= square.0 <= zone.centre.0 + zone.radius
    && zone.centre.1 - zone.radius <= square.1 <= zone.centre.1 + zone.radius
  }

  /** Far from everything, or with nothing giving chase inside a remembered zone. */
  ghost predicate Safe(obs: Obs)
    requires obs.zombies.Some?
  {
    || (forall z :: z in obs.zombies.value ==> z.distance >= 12.0)
    || ((forall z :: z in obs.zombies.value ==> !z.chasing)
        && exists zone :: zone in obs.zones && Inside(zone, obs.here))
  }

  lemma SafeIs(obs: Obs)
    requires obs.zombies.Some?
    ensures IsSafe(obs) <==> Safe(obs)
  {
    forall zone: Zone
      ensures zone.Contains(obs.here) <==> Inside(zone, obs.here)
    {
    }
  }

  ghost predicate Concluded(m: Mission, s: State, past: seq<AvoidEntry>, obs: Obs, s': State, move: Move<Command>)
    requires m.Valid() && s.Valid()
  {
    if EndingOf(past).Some? then move == EndingOf(past).value
    else if obs.zombies.None? then move == Refuse(EndedNoProgress, CapabilityUnavailable)
    else if Safe(obs) then
      if Count(past, IsSuccess) > 0 then move.Complete?
      else if Count(past, IsProbe) < m.limits.maxProbes then move == Probe(Count(past, IsProbe) + 1)
      else move == Refuse(EndedNoProgress, NoProgress)
    else if Outstanding(past).Some? then move.Wait?
    else exists n :: Walked(m, s.journey, s.legsStarted, s.failures, obs, move, n)
                     && Left(m, s.journey, s.legsStarted, s.failures, obs, s', n)
  }

  lemma LookConcludes(m: Mission, s: State, log: seq<AvoidEntry>, obs: Obs)
    requires m.Valid() && Inv(m, s, log)
    ensures Concluded(m, s, log, obs, Decide(m, s, obs).0, Decide(m, s, obs).1)
  {
    hide Count, EndingOf, Outstanding, LastCommand, FailureStreak, IsSafe, Safe, NearestDistance, Walk, Walked, Left;
    if obs.zombies.Some? {
      SafeIs(obs);
      if s.final.None? && s.pending.None? {
        var seen := Observed(s, obs.zombies.value);
        var n := WalkIs(m, seen, obs);
      }
    }
  }

  /** Over every run the answer to any observation is the one the log and the leg in hand
      call for. */
  lemma EveryAnswerIsDue(m: Mission, events: seq<Event>, obs: Obs)
    requires m.Valid()
    ensures var run := After(m, events);
            Concluded(m, run.state, run.log, obs, Decide(m, run.state, obs).0, Decide(m, run.state, obs).1)
  {
    hide Inv, Concluded, Decide, Step, Justified, Funded;
    RunKeeps(m, events);
    LookConcludes(m, After(m, events).state, After(m, events).log, obs);
  }

  /** With no leg in hand, a leg left, the streak short, somewhere to go, and a first view
      that has not arrived and finds a route: the first step of the next leg. */
  lemma LegBegins(m: Mission, s: State, obs: Obs)
    requires m.Valid() && s.Valid() && s.final.None? && s.pending.None? && s.journey.None? && obs.zombies.Some? && !Safe(obs)
    requires s.legsStarted < m.limits.maxLegs && s.failures < m.limits.maxFailures && Target(obs).Some?
    requires var view := obs.views(s.legsStarted + 1); !view.arrived && view.route.RouteFound?
    ensures Decide(m, s, obs).1 == Do(1, WalkLeg(s.legsStarted + 1, Target(obs).value.0, J.MoveTo))
  {
    hide IsSafe, Safe, NearestDistance, SelectTarget, ThreatSquares;
    SafeIs(obs);
  }

  // ---- results and the summary ----

  /** A result counts exactly when it ends the step in flight; a success clears the
      failures and anything else adds one, and the journey in hand takes it in. */
  lemma ResultsCount(m: Mission, events: seq<Event>, r: ActionResult<J.StepAction>)
    requires m.Valid()
    ensures var run := After(m, events);
            && (Accepts(run.state, r) <==>
                  EndingOf(run.log).None? && !r.status.NotTerminal? && Outstanding(run.log).Some? && Outstanding(run.log).value.action == r.action)
            && Note(run.state, r).failures ==
                 (if !Accepts(run.state, r) then run.state.failures else if r.status.Succeeded? then 0 else run.state.failures + 1)
            && (Accepts(run.state, r) ==>
                  run.state.journey.Some? && Note(run.state, r).journey == Some(J.Note(run.state.journey.value, r)))
  {
    hide Inv, Justified, Funded, Note;
    RunKeeps(m, events);
    OneCounts(m, After(m, events).state, After(m, events).log, r);
  }

  lemma OneCounts(m: Mission, s: State, log: seq<AvoidEntry>, r: ActionResult<J.StepAction>)
    requires Inv(m, s, log)
    ensures Accepts(s, r) <==>
              EndingOf(log).None? && !r.status.NotTerminal? && Outstanding(log).Some? && Outstanding(log).value.action == r.action
    ensures s.Valid() ==> Note(s, r).failures == if !Accepts(s, r) then s.failures else if r.status.Succeeded? then 0 else s.failures + 1
    ensures s.Valid() && Accepts(s, r) ==> s.journey.Some? && Note(s, r).journey == Some(J.Note(s.journey.value, r))
  {
    hide Count, EndingOf, Outstanding, LastCommand, FailureStreak, J.Note;
  }

  /** The observations the summary is made from: those that saw the surroundings, up to
      the ending. */
  ghost function Sighted(log: seq<AvoidEntry>): seq<seq<Zombie>> {
    if log == [] then []
    else
      var before, last := log[..|log| - 1], log[|log| - 1];
      Sighted(before) + if last.Told? && last.obs.zombies.Some? && EndingOf(before).None? then [last.obs.zombies.value] else []
  }

  ghost predicate Near(zombies: seq<Zombie>, d: Option<real>) {
    if zombies == [] then d.None?
    else d.Some? && (exists z :: z in zombies && Reach(z) == d.value) && forall z :: z in zombies ==> d.value <= Reach(z)
  }

  /** How many there were at first, and how near the nearest was then and is now. */
  ghost predicate Summed(s: State, log: seq<AvoidEntry>) {
    var seen := Sighted(log);
    if seen == [] then s.threatsAtStart.None? && s.nearestBefore.None? && s.nearestAfter.None?
    else s.threatsAtStart == Some(|seen[0]|) && Near(seen[0], s.nearestBefore) && Near(seen[|seen| - 1], s.nearestAfter)
  }

  lemma LookSummed(m: Mission, s: State, log: seq<AvoidEntry>, obs: Obs)
    requires m.Valid() && s.Valid() && s.final == EndingOf(log) && Summed(s, log)
    ensures var (s', move) := Decide(m, s, obs); Summed(s', log + [Told(obs, move)])
  {
    hide EndingOf, IsSafe, Walk;
    var (s', move) := Decide(m, s, obs);
    assert (log + [Told(obs, move)])[..|log|] == log;
    if obs.zombies.Some? && s.final.None? {
      WalkFrames(m, Observed(s, obs.zombies.value), obs);
    }
  }

  lemma {:induction false} WalkFrames(m: Mission, s: State, obs: Obs)
    requires m.Valid() && s.Valid() && obs.zombies.Some?
    ensures var s' := Walk(m, s, obs).0;
            s'.threatsAtStart == s.threatsAtStart && s'.nearestBefore == s.nearestBefore && s'.nearestAfter == s.nearestAfter
    decreases m.limits.maxFailures - s.failures
  {
    hide J.Next, TargetFor;
    if s.failures < m.limits.maxFailures && Aim(m, s, obs).Some? {
      var aimed := Aim(m, s, obs).value;
      if J.Next(aimed.journey.value, obs.views(aimed.legsStarted)).1.Refused? {
        WalkFrames(m, aimed.(journey := None, failures := s.failures + 1), obs);
      }
    }
  }

  /** Over every run the summary says what was seen first and last. */
  lemma {:induction false} SummaryAgrees(m: Mission, events: seq<Event>)
    requires m.Valid()
    ensures Summed(After(m, events).state, After(m, events).log)
  {
    hide Summed, Decide, Inv, Funded, Justified;
    if events == [] {
      StartSummed();
    } else {
      var before := events[..|events| - 1];
      SummaryAgrees(m, before);
      RunKeeps(m, before);
      var run := After(m, before);
      match events[|events| - 1] {
        case Look(obs) =>
          FinalIs(m, run.state, run.log);
          LookSummed(m, run.state, run.log, obs);
        case Fold(r) => FoldSummed(run.state, run.log, r);
        case Abandon => AbandonSummed(run.state, run.log);
      }
    }
  }

  lemma StartSummed()
    ensures Summed(Initial(), [])
  {
  }

  lemma FinalIs(m: Mission, s: State, log: seq<AvoidEntry>)
    requires Inv(m, s, log)
    ensures s.final == EndingOf(log)
  {
    hide Count, EndingOf, Outstanding, LastCommand, FailureStreak;
  }

  lemma FoldSummed(s: State, log: seq<AvoidEntry>, r: ActionResult<J.StepAction>)
    requires s.Valid() && Summed(s, log)
    ensures Summed(Note(s, r), log) && Summed(Note(s, r), log + [Folded(r)])
  {
    assert (log + [Folded(r)])[..|log|] == log;
  }

  lemma AbandonSummed(s: State, log: seq<AvoidEntry>)
    requires Summed(s, log)
    ensures Summed(Abandoned(s), log)
  {
  }
}
