/** What holds of every run of the retreat mission. */
module AvoidSafety {
  import opened Wrappers
  import opened MissionMoves
  import opened RetreatTarget
  import opened AvoidMission
  import J = Journey

  predicate IsCommand(e: AvoidEntry) { e.Commands() }
  predicate IsProbe(e: AvoidEntry) { e.Told? && e.move.Probe? }
  predicate IsSuccess(e: AvoidEntry) { e.Succeeds() }

  /** Calls answered before any ending, not counting the ones that only wait for
      the step in flight. */
  ghost function WorkCalls(log: seq<AvoidEntry>): nat {
    if log == [] then 0
    else
      var (before, last) := (log[..|log| - 1], log[|log| - 1]);
      WorkCalls(before) +
      (if last.Told? && EndingOf(before).None? && !(last.move.Wait? && Outstanding(before).Some?) then 1 else 0)
  }

  /** A leg's share: every step its journey can take, and its retirement. */
  ghost function PerLeg(m: Mission): nat { m.journey.Cap() + 1 }

  ghost function WorkBudget(m: Mission): nat { m.limits.maxLegs * PerLeg(m) + m.limits.maxProbes }

  // ---- what justifies one answer ----

  /** The whole decision short of the walk: endings replay, a blind observation
      refuses, safety beats every budget, and a step in flight is waited out. */
  ghost predicate Decided(m: Mission, past: seq<AvoidEntry>, obs: Obs, move: Move<Command>) {
    if EndingOf(past).Some? then move == EndingOf(past).value
    else if obs.zombies.None? then move == Refuse(EndedNoProgress, CapabilityUnavailable)
    else if IsSafe(obs) then
      if Count(past, IsSuccess) > 0 then move == Complete
      else if Count(past, IsProbe) < m.limits.maxProbes then move == Probe(Count(past, IsProbe) + 1)
      else move == Refuse(EndedNoProgress, NoProgress)
    else if Outstanding(past).Some? then move == Wait
    else move.Wait? || move.Do? || move == Refuse(EndedThreatened, ThreatInterrupted)
  }

  /** A step continues the newest leg, or begins a later one aimed from this
      very observation; the leg and failure budgets are not yet spent. */
  ghost predicate Walked(m: Mission, past: seq<AvoidEntry>, obs: Obs, move: Move<Command>) {
    move.Do? ==>
      var (leg, aim, last) := (move.command.leg, move.command.aim, LastCommand(past));
      && 1 <= leg <= m.limits.maxLegs
      && FailureStreak(past) < m.limits.maxFailures
      && obs.zombies.Some?
      && if last.Some? && last.value.leg == leg then last.value.aim == aim
         else (last.Some? ==> last.value.leg < leg)
              && TargetFor(obs).Some? && TargetFor(obs).value.0 == aim
  }

  ghost predicate Justified(m: Mission, past: seq<AvoidEntry>, e: AvoidEntry) {
    e.Told? ==> Decided(m, past, e.obs, e.move) && Walked(m, past, e.obs, e.move)
  }

  // ---- the invariant ----

  ghost predicate Inv(m: Mission, s: State, log: seq<AvoidEntry>) {
    && s.Valid()
    && s.final == EndingOf(log) && (s.final.Some? ==> s.final.value.Ends())
    && s.pending == (match Outstanding(log) case None => None case Some(c) => Some(c.action))
    && (s.final.None? && s.pending.Some? ==> s.journey.Some?)
    && s.probes == Count(log, IsProbe) <= m.limits.maxProbes
    && (s.anySuccess <==> Count(log, IsSuccess) > 0)
    && FailureStreak(log) <= s.failures
    && OnLeg(m, s, LastCommand(log))
  }

  /** The leg in hand is the one last commanded. */
  ghost predicate OnLeg(m: Mission, s: State, last: Option<Command>) {
    && s.legsStarted <= m.limits.maxLegs
    && (last.Some? ==> last.value.leg <= s.legsStarted)
    && (s.journey.Some? ==>
          && s.journey.value.Valid() && s.journey.value.limits == m.journey
          && last.Some? && last.value.leg == s.legsStarted && last.value.aim == s.journey.value.target
          && 1 <= s.legsStarted)
  }

  /** Work still affordable: the legs not started, the journey in hand, the probes. */
  ghost function Potential(m: Mission, s: State): int
    requires s.Valid()
  {
    (m.limits.maxLegs - s.legsStarted) * PerLeg(m)
    + (if s.journey.Some? then s.journey.value.Fuel() + 1 else 0)
    + (m.limits.maxProbes - s.probes)
  }

  ghost predicate Funded(m: Mission, s: State, log: seq<AvoidEntry>)
    requires s.Valid()
  {
    if s.final.Some? then WorkCalls(log) <= WorkBudget(m) + 1
    else WorkCalls(log) + Potential(m, s) <= WorkBudget(m)
  }

  lemma AppendFacts(log: seq<AvoidEntry>, e: AvoidEntry)
    ensures Count(log + [e], IsCommand) == Count(log, IsCommand) + (if IsCommand(e) then 1 else 0)
    ensures Count(log + [e], IsProbe) == Count(log, IsProbe) + (if IsProbe(e) then 1 else 0)
    ensures Count(log + [e], IsSuccess) == Count(log, IsSuccess) + (if IsSuccess(e) then 1 else 0)
    ensures WorkCalls(log + [e]) == WorkCalls(log) +
              (if e.Told? && EndingOf(log).None? && !(e.move.Wait? && Outstanding(log).Some?) then 1 else 0)
  {
    LogAppend(log, e);
    CountAppend(log, e, IsCommand);
    CountAppend(log, e, IsProbe);
    CountAppend(log, e, IsSuccess);
    assert (log + [e])[..|log|] == log;
  }

  /** A walk never waits for nothing: it ends the mission, or spends potential. */
  ghost predicate Spends(m: Mission, s: State, obs: Obs, last: Option<Command>, s': State, move: Move<Command>)
    requires obs.zombies.Some? && s.Valid()
  {
    && s'.Valid()
    && s'.probes == s.probes && s'.anySuccess == s.anySuccess && s.failures <= s'.failures
    && (move == Refuse(EndedThreatened, ThreatInterrupted) || move.Wait? || move.Do?)
    && s'.final == (if move.Refuse? then Some(move) else None)
    && s'.pending == (if move.Do? then Some(move.command.action) else None)
    && (move.Do? ==> s'.journey.Some? && s'.failures < m.limits.maxFailures && 1 <= move.command.leg <= m.limits.maxLegs)
    && (move.Do? ==>
          if last.Some? && last.value.leg == move.command.leg then last.value.aim == move.command.aim
          else (last.Some? ==> last.value.leg < move.command.leg)
               && TargetFor(obs).Some? && TargetFor(obs).value.0 == move.command.aim)
    && (move.Refuse? || Potential(m, s') < Potential(m, s))
    && OnLeg(m, s', if move.Do? then Some(move.command) else last)
    && (move.Refuse? || move.Do? || s'.journey.None?)
  }

  /** Nothing but a probe is spent while the legs and the journey stay. */
  lemma ProbePays(m: Mission, s: State, s': State)
    requires s.Valid() && s'.Valid() && s'.legsStarted == s.legsStarted && s'.journey == s.journey
    ensures Potential(m, s') == Potential(m, s) - (s'.probes - s.probes)
  {
    hide PerLeg;
  }

  /** Aiming a new leg moves its share from the legs not started to the journey. */
  lemma AimKeepsPotential(m: Mission, s: State, obs: Obs)
    requires m.Valid() && s.Valid() && obs.zombies.Some? && Aim(m, s, obs).Some?
    ensures Potential(m, Aim(m, s, obs).value) == Potential(m, s)
  {
    hide TargetFor;
    var left := m.limits.maxLegs - s.legsStarted;
    assert (left - 1) * PerLeg(m) + PerLeg(m) == left * PerLeg(m);
  }

  lemma {:induction false} WalkSpends(m: Mission, s: State, obs: Obs, last: Option<Command>)
    requires m.Valid() && s.Valid() && obs.zombies.Some? && OnLeg(m, s, last)
    requires s.final.None? && s.pending.None?
    ensures var (s', move) := Walk(m, s, obs); Spends(m, s, obs, last, s', move)
    decreases m.limits.maxFailures - s.failures
  {
    hide TargetFor, J.Next;
    if s.failures < m.limits.maxFailures && Aim(m, s, obs).Some? {
      var aimed := Aim(m, s, obs).value;
      AimKeepsPotential(m, s, obs);
      var (trip, answer) := J.Next(aimed.journey.value, obs.views(aimed.legsStarted));
      if answer.Refused? {
        var retry := aimed.(journey := None, failures := s.failures + 1);
        WalkSpends(m, retry, obs, last);
        assert Potential(m, retry) <= Potential(m, s);
      } else {
        StepSpends(m, s, obs, last);
      }
    } else {
      hide Potential;
    }
  }

  lemma StepSpends(m: Mission, s: State, obs: Obs, last: Option<Command>)
    requires m.Valid() && s.Valid() && obs.zombies.Some? && OnLeg(m, s, last)
    requires s.final.None? && s.pending.None?
    requires s.failures < m.limits.maxFailures && Aim(m, s, obs).Some?
    requires var aimed := Aim(m, s, obs).value;
             !J.Next(aimed.journey.value, obs.views(aimed.legsStarted)).1.Refused?
    ensures var (s', move) := Walk(m, s, obs); Spends(m, s, obs, last, s', move)
  {
    hide TargetFor, J.Next;
    AimKeepsPotential(m, s, obs);
  }

  lemma FinishKeeps(m: Mission, s: State, log: seq<AvoidEntry>, obs: Obs)
    requires m.Valid() && Inv(m, s, log) && Funded(m, s, log) && s.final.None?
    requires obs.zombies.Some? && IsSafe(obs)
    ensures var (s', move) := Finish(m, Observed(s, obs.zombies.value));
            && Inv(m, s', log + [Told(obs, move)]) && Funded(m, s', log + [Told(obs, move)])
            && Justified(m, log, Told(obs, move))
  {
    hide Count, EndingOf, Outstanding, LastCommand, FailureStreak, WorkCalls, IsSafe, NearestDistance, Potential, WorkBudget;
    var (s', move) := Finish(m, Observed(s, obs.zombies.value));
    ProbePays(m, s, s');
    PotentialLasts(m, s);
    LogAppend(log, Told(obs, move));
    AppendFacts(log, Told(obs, move));
  }

  lemma WalkKeeps(m: Mission, s: State, log: seq<AvoidEntry>, obs: Obs)
    requires m.Valid() && Inv(m, s, log) && Funded(m, s, log) && s.final.None? && s.pending.None?
    requires obs.zombies.Some? && !IsSafe(obs)
    ensures var (s', move) := Walk(m, Observed(s, obs.zombies.value), obs);
            && Inv(m, s', log + [Told(obs, move)]) && Funded(m, s', log + [Told(obs, move)])
            && Justified(m, log, Told(obs, move))
  {
    hide Count, EndingOf, Outstanding, LastCommand, FailureStreak, WorkCalls, IsSafe, NearestDistance, Walk, TargetFor,
         Potential, WorkBudget;
    var seen := Observed(s, obs.zombies.value);
    ProbePays(m, s, seen);
    PotentialLasts(m, s);
    WalkSpends(m, seen, obs, LastCommand(log));
    var move := Walk(m, seen, obs).1;
    LogAppend(log, Told(obs, move));
    AppendFacts(log, Told(obs, move));
  }

  lemma LookKeeps(m: Mission, s: State, log: seq<AvoidEntry>, obs: Obs)
    requires m.Valid() && Inv(m, s, log) && Funded(m, s, log)
    ensures var (s', move) := Decide(m, s, obs);
            && Inv(m, s', log + [Told(obs, move)]) && Funded(m, s', log + [Told(obs, move)])
            && Justified(m, log, Told(obs, move))
  {
    hide Inv, Funded, Justified, IsSafe, Walk, Finish, Observed, NearestDistance;
    InvIsValid(m, s, log);
    if s.final.Some? || obs.zombies.None? {
      SealedKeeps(m, s, log, obs);
    } else if IsSafe(obs) {
      FinishKeeps(m, s, log, obs);
    } else if s.pending.None? {
      WalkKeeps(m, s, log, obs);
    } else {
      WaitKeeps(m, s, log, obs);
    }
  }

  lemma InvIsValid(m: Mission, s: State, log: seq<AvoidEntry>)
    requires Inv(m, s, log)
    ensures s.Valid()
  {
  }

  /** An ending is replayed, and a blind observation makes one. */
  lemma SealedKeeps(m: Mission, s: State, log: seq<AvoidEntry>, obs: Obs)
    requires m.Valid() && Inv(m, s, log) && Funded(m, s, log) && (s.final.Some? || obs.zombies.None?)
    ensures var (s', move) := Decide(m, s, obs);
            && Inv(m, s', log + [Told(obs, move)]) && Funded(m, s', log + [Told(obs, move)])
            && Justified(m, log, Told(obs, move))
  {
    hide Count, EndingOf, Outstanding, LastCommand, FailureStreak, WorkCalls, IsSafe, Walk, Finish, Potential, WorkBudget, Observed;
    PotentialLasts(m, s);
    var move := Decide(m, s, obs).1;
    LogAppend(log, Told(obs, move));
    AppendFacts(log, Told(obs, move));
  }

  lemma PotentialLasts(m: Mission, s: State)
    requires s.Valid() && s.legsStarted <= m.limits.maxLegs && s.probes <= m.limits.maxProbes
    ensures Potential(m, s) >= 0
  {
    hide PerLeg;
    assert (m.limits.maxLegs - s.legsStarted) * PerLeg(m) >= 0;
  }

  lemma WaitKeeps(m: Mission, s: State, log: seq<AvoidEntry>, obs: Obs)
    requires m.Valid() && Inv(m, s, log) && Funded(m, s, log) && s.final.None? && s.pending.Some?
    requires obs.zombies.Some? && !IsSafe(obs)
    ensures var s' := Observed(s, obs.zombies.value);
            && Inv(m, s', log + [Told(obs, Wait)]) && Funded(m, s', log + [Told(obs, Wait)])
            && Justified(m, log, Told(obs, Wait))
  {
    hide Count, EndingOf, Outstanding, LastCommand, FailureStreak, WorkCalls, IsSafe, NearestDistance, Potential, WorkBudget;
    ProbePays(m, s, Observed(s, obs.zombies.value));
    LogAppend(log, Told(obs, Wait));
    AppendFacts(log, Told(obs, Wait));
  }

  lemma FoldKeeps(m: Mission, s: State, log: seq<AvoidEntry>, r: ActionResult<J.StepAction>)
    requires m.Valid() && Inv(m, s, log) && Funded(m, s, log) && Accepts(s, r)
    ensures Inv(m, Note(s, r), log + [Folded(r)]) && Funded(m, Note(s, r), log + [Folded(r)])
  {
    hide Count, EndingOf, Outstanding, LastCommand, FailureStreak, WorkCalls;
    LogAppend(log, Folded(r));
    AppendFacts(log, Folded(r));
  }

  /** Every answer of every run is justified by what came before it, and the work
      done is paid for out of a fixed budget. */
  lemma {:induction false} RunKeeps(m: Mission, events: seq<Event>)
    requires m.Valid()
    ensures var run := After(m, events); Inv(m, run.state, run.log) && Funded(m, run.state, run.log)
    ensures var log := After(m, events).log;
            forall i | 0 <= i < |log| :: Justified(m, log[..i], log[i])
  {
    hide Inv, Funded, Justified, Decide, Note;
    if events == [] {
      NothingYet(m);
    } else {
      var before := events[..|events| - 1];
      RunKeeps(m, before);
      var run, run' := After(m, before), After(m, events);
      match events[|events| - 1] {
        case Look(obs) => LookKeeps(m, run.state, run.log, obs);
        case Fold(r) =>
          FoldJustified(m, run.state, run.log, r);
          if Accepts(run.state, r) { FoldKeeps(m, run.state, run.log, r); }
        case Abandon => AbandonKeeps(m, run.state, run.log);
      }
      forall i | 0 <= i < |run'.log| ensures Justified(m, run'.log[..i], run'.log[i]) {
        if i < |run.log| { assert run'.log[..i] == run.log[..i]; }
        else { assert run'.log[..i] == run.log; }
      }
    }
  }

  lemma FoldJustified(m: Mission, s: State, log: seq<AvoidEntry>, r: ActionResult<J.StepAction>)
    requires m.Valid() && s.Valid()
    ensures Justified(m, log, Folded(r)) && (!Accepts(s, r) ==> Note(s, r) == s)
  {
  }

  lemma NothingYet(m: Mission)
    requires m.Valid()
    ensures Inv(m, Initial(), []) && Funded(m, Initial(), [])
  {
    hide PerLeg;
  }

  lemma AbandonKeeps(m: Mission, s: State, log: seq<AvoidEntry>)
    requires Inv(m, s, log) && Funded(m, s, log)
    ensures Inv(m, Abandoned(s), log) && Funded(m, Abandoned(s), log)
  {
  }

  // ---- what follows ----

  /** Legs are bounded by their budget, and the mission is sealed once it has
      been called, beyond waiting for steps in flight, as often as every leg's
      steps and retirement plus the probes allow. */
  lemma RetreatEnds(m: Mission, events: seq<Event>)
    requires m.Valid()
    ensures var run := After(m, events);
            && run.state.legsStarted <= m.limits.maxLegs
            && WorkCalls(run.log) <= m.limits.maxLegs * (m.journey.maxLegs + m.journey.maxReplans + 1) + m.limits.maxProbes + 1
            && (WorkCalls(run.log) > m.limits.maxLegs * (m.journey.maxLegs + m.journey.maxReplans + 1) + m.limits.maxProbes
                ==> EndingOf(run.log).Some?)
  {
    assert WorkBudget(m) == m.limits.maxLegs * (m.journey.maxLegs + m.journey.maxReplans + 1) + m.limits.maxProbes;
    hide *;
    RunKeeps(m, events);
    FundedEnds(m, After(m, events).state, After(m, events).log);
  }

  lemma FundedEnds(m: Mission, s: State, log: seq<AvoidEntry>)
    requires Inv(m, s, log) && Funded(m, s, log)
    ensures WorkCalls(log) <= WorkBudget(m) + 1
    ensures WorkCalls(log) > WorkBudget(m) ==> EndingOf(log).Some?
    ensures s.legsStarted <= m.limits.maxLegs
  {
    hide Count, EndingOf, Outstanding, LastCommand, FailureStreak, WorkCalls;
    assert (m.limits.maxLegs - s.legsStarted) * PerLeg(m) >= 0;
  }

  /** The first completion answers an observation that is itself safe, after a
      step that succeeded; and with a success behind it a safe observation
      always completes. */
  lemma CompletesExactlyWhenSafe(m: Mission, events: seq<Event>, i: nat)
    requires m.Valid()
    requires var log := After(m, events).log; i < |log| && log[i].Told? && EndingOf(log[..i]).None?
    ensures var log := After(m, events).log;
            log[i].move.Complete? <==>
              log[i].obs.zombies.Some? && IsSafe(log[i].obs) && Count(log[..i], IsSuccess) > 0
  {
    RunKeeps(m, events);
    hide *;
    var log := After(m, events).log;
    assert Justified(m, log[..i], log[i]);
    CompletionStep(m, log[..i], log[i]);
  }

  lemma CompletionStep(m: Mission, past: seq<AvoidEntry>, e: AvoidEntry)
    requires Justified(m, past, e) && e.Told? && EndingOf(past).None?
    ensures e.move.Complete? <==> e.obs.zombies.Some? && IsSafe(e.obs) && Count(past, IsSuccess) > 0
  {
    hide Count, EndingOf, Outstanding, IsSafe;
  }

  // ---- what the report says ----

  lemma {:induction false} WalkReports(m: Mission, s: State, obs: Obs)
    requires m.Valid() && s.Valid() && s.final.None? && obs.zombies.Some?
    ensures var (s', move) := Walk(m, s, obs); !move.Probe? && (if s'.final.Some? then Names(s'.ended, s'.final.value) else s'.ended == s.ended)
    decreases m.limits.maxFailures - s.failures
  {
    hide TargetFor, J.Next;
    if s.failures < m.limits.maxFailures && Aim(m, s, obs).Some? {
      var aimed := Aim(m, s, obs).value;
      if J.Next(aimed.journey.value, obs.views(aimed.legsStarted)).1.Refused? {
        WalkReports(m, aimed.(journey := None, failures := s.failures + 1), obs);
      }
    }
  }

  predicate IsAbandon(e: Event) { e.Abandon? }

  ghost function ReportOf(run: Run, events: seq<Event>): Report<Obs, Command, J.StepAction> {
    Report(run.state.ended, run.state.final, run.log, Count(events, IsAbandon) > 0)
  }

  lemma StepReports(m: Mission, run: Run, events: seq<Event>, e: Event)
    requires m.Valid() && run.state.Valid()
    ensures Follows(ReportOf(run, events), ReportOf(Step(m, run, e), events + [e]))
  {
    CountAppend(events, e, IsAbandon);
    hide Walk, IsSafe, NearestDistance;
    if e.Look? && e.obs.zombies.Some? && run.state.final.None? { WalkReports(m, Observed(run.state, e.obs.zombies.value), e.obs); }
  }

  /** Over every run, abandonment included, the report says just that. */
  lemma {:induction false} ReportNamesEnding(m: Mission, events: seq<Event>)
    requires m.Valid()
    ensures Reported(ReportOf(After(m, events), events))
  {
    if events != [] {
      hide Probed, Reported, Follows, ReportOf, Step;
      var (before, e) := (events[..|events| - 1], events[|events| - 1]);
      var (run, next) := (After(m, before), After(m, events));
      assert next == Step(m, run, e) && events == before + [e];
      ReportNamesEnding(m, before);
      hide After;
      StepReports(m, run, before, e);
      ReportKept(ReportOf(run, before), ReportOf(next, events));
    }
  }

  // ---- a probe beside a step ----

  /** A probe beside a step: sent on a safe observation before anything has succeeded,
      with probes left; and the step stays in flight. */
  ghost predicate Beside(m: Mission, s: State, log: seq<AvoidEntry>, obs: Obs)
    requires m.Valid() && s.Valid() && Outstanding(log).Some?
  {
    var (s', move) := Decide(m, s, obs);
    && (move.Probe? <==>
          && EndingOf(log).None? && obs.zombies.Some? && IsSafe(obs)
          && Count(log, IsSuccess) == 0 && Count(log, IsProbe) < m.limits.maxProbes)
    && (move.Probe? ==>
          forall r: ActionResult<J.StepAction> ::
            Accepts(s', r) <==> !r.status.NotTerminal? && r.action == Outstanding(log).value.action)
  }

  /** So a probe can go out with a step in flight, and then a result that names the
      step's action, the probe's own included, is folded as the step's. */
  lemma ProbeBesideStep(m: Mission, events: seq<Event>, obs: Obs)
    requires m.Valid() && Outstanding(After(m, events).log).Some?
    ensures Beside(m, After(m, events).state, After(m, events).log, obs)
  {
    RunKeeps(m, events);
    hide *;
    ProbeStep(m, After(m, events).state, After(m, events).log, obs);
  }

  lemma ProbeStep(m: Mission, s: State, log: seq<AvoidEntry>, obs: Obs)
    requires m.Valid() && Inv(m, s, log) && Outstanding(log).Some?
    ensures Beside(m, s, log, obs)
  {
    hide Count, EndingOf, Outstanding, LastCommand, FailureStreak, IsSafe, NearestDistance, Walk;
  }
}
