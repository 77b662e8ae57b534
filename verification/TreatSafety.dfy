/** What holds of every run of the treat-wounds mission. */
module TreatSafety {
  import opened Wrappers
  import opened MissionMoves
  import opened TreatMission

  predicate IsCommand(e: TreatEntry) { e.Commands() }
  predicate IsSuccess(e: TreatEntry) { e.Succeeds() }
  predicate IsProbe(e: TreatEntry) { e.Told? && e.move.Probe? }

  /** No ending yet and no command out. */
  ghost predicate Idle(past: seq<TreatEntry>) { EndingOf(past).None? && Outstanding(past).None? }

  /** The parts commands were sent for. */
  ghost function Started(m: Mission, log: seq<TreatEntry>): set<string> {
    if log == [] then {}
    else
      var last := log[|log| - 1];
      Started(m, log[..|log| - 1])
      + if last.Commands() && m.select(last.obs).Chosen? then {m.select(last.obs).part} else {}
  }

  /** The parts whose own bandage command was answered with success, in order. */
  ghost function Dressed(log: seq<TreatEntry>): seq<string> {
    if log == [] then []
    else
      var past, last := log[..|log| - 1], log[|log| - 1];
      Dressed(past)
      + if last.Succeeds() && Outstanding(past).Some? && Outstanding(past).value.Bandage? then [Outstanding(past).value.part] else []
  }

  lemma TreatLogAppend(m: Mission, log: seq<TreatEntry>, e: TreatEntry)
    ensures Started(m, log + [e]) ==
            Started(m, log) + if e.Commands() && m.select(e.obs).Chosen? then {m.select(e.obs).part} else {}
    ensures Dressed(log + [e]) ==
            Dressed(log) + if e.Succeeds() && Outstanding(log).Some? && Outstanding(log).value.Bandage?
                           then [Outstanding(log).value.part] else []
    ensures Count(log + [e], IsCommand) == Count(log, IsCommand) + (if IsCommand(e) then 1 else 0)
    ensures Count(log + [e], IsSuccess) == Count(log, IsSuccess) + (if IsSuccess(e) then 1 else 0)
    ensures Count(log + [e], IsProbe) == Count(log, IsProbe) + (if IsProbe(e) then 1 else 0)
  {
    CountAppend(log, e, IsCommand);
    CountAppend(log, e, IsSuccess);
    CountAppend(log, e, IsProbe);
    assert (log + [e])[..|log|] == log;
  }

  // ---- what justifies one answer ----

  ghost predicate Settled(past: seq<TreatEntry>, move: Move<Command>) {
    && (EndingOf(past).Some? ==> move == EndingOf(past).value)
    && (move.Wait? <==> EndingOf(past).None? && Outstanding(past).Some?)
  }

  /** Free to work: nothing out, the failure streak short, and a wound bleeding. */
  ghost predicate Working(m: Mission, past: seq<TreatEntry>, obs: Obs) {
    Idle(past) && FailureStreak(past) < m.limits.maxFailures && obs.bleeding > 0 && obs.inventory
  }

  /** A command goes out exactly when the policy names a dressing in this observation
      for a part within the wound budget, and it is the one the choice calls for. */
  ghost predicate Prescribed(m: Mission, past: seq<TreatEntry>, obs: Obs, move: Move<Command>) {
    var choice := m.select(obs);
    && (move.Do? <==> Working(m, past, obs) && choice.Chosen?
                      && (choice.part in Started(m, past) || |Started(m, past)| < m.limits.maxWounds))
    && (move.Do? ==> move == Do(Count(past, IsCommand) + 1, CommandFor(choice)))
    && (Working(m, past, obs) ==> (move == Refuse(EndedExhausted, PreconditionFailed) <==> choice.NoDressing?))
  }

  /** Completion is an observation in which nothing bleeds, after a success. */
  ghost predicate Earned(m: Mission, past: seq<TreatEntry>, obs: Obs, move: Move<Command>) {
    Idle(past) ==>
      (move.Complete? <==> FailureStreak(past) < m.limits.maxFailures && obs.bleeding == 0 && Count(past, IsSuccess) > 0)
  }

  ghost predicate Justified(m: Mission, past: seq<TreatEntry>, e: TreatEntry) {
    e.Told? ==> Settled(past, e.move) && Prescribed(m, past, e.obs, e.move) && Earned(m, past, e.obs, e.move)
  }

  // ---- the invariant ----

  ghost predicate Inv(m: Mission, s: State, log: seq<TreatEntry>) {
    && s.final == EndingOf(log) && (s.final.Some? ==> s.final.value.Ends())
    && s.pending == (match Outstanding(log) case None => None case Some(c) => Some(ActionOf(c)))
    && s.steps == Count(log, IsCommand) && s.probes == Count(log, IsProbe) <= m.limits.maxProbes
    && s.failures == FailureStreak(log) && (s.anySuccess <==> Count(log, IsSuccess) > 0)
    && s.started == Started(m, log) && |s.started| <= m.limits.maxWounds
    && s.bandaged == Dressed(log)
    && (Outstanding(log).None? ==> s.pendingPart.None? && s.stage.StartPhase?)
    && (Outstanding(log).Some? ==>
          if Outstanding(log).value.Bandage? then s.stage.TreatPhase? && s.pendingPart == Some(Outstanding(log).value.part)
          else s.stage.TransferPhase? && s.pendingPart.None?)
  }

  lemma LookJustified(m: Mission, s: State, log: seq<TreatEntry>, obs: Obs)
    requires m.limits.Valid() && Inv(m, s, log)
    ensures Justified(m, log, Told(obs, Decide(m, s, obs).1))
  {
    hide Inv, Settled, Prescribed, Earned, Decide;
    LookSettles(m, s, log, obs);
    LookPrescribes(m, s, log, obs);
    LookEarns(m, s, log, obs);
  }

  lemma LookSettles(m: Mission, s: State, log: seq<TreatEntry>, obs: Obs)
    requires m.limits.Valid() && Inv(m, s, log)
    ensures Settled(log, Decide(m, s, obs).1)
  {
    hide Count, EndingOf, Outstanding, FailureStreak, Started, Dressed;
  }

  lemma LookPrescribes(m: Mission, s: State, log: seq<TreatEntry>, obs: Obs)
    requires m.limits.Valid() && Inv(m, s, log)
    ensures Prescribed(m, log, obs, Decide(m, s, obs).1)
  {
    hide Count, EndingOf, Outstanding, FailureStreak, Started, Dressed;
  }

  lemma LookEarns(m: Mission, s: State, log: seq<TreatEntry>, obs: Obs)
    requires m.limits.Valid() && Inv(m, s, log)
    ensures Earned(m, log, obs, Decide(m, s, obs).1)
  {
    hide Count, EndingOf, Outstanding, FailureStreak, Started, Dressed;
  }

  lemma LookKeeps(m: Mission, s: State, log: seq<TreatEntry>, obs: Obs)
    requires m.limits.Valid() && Inv(m, s, log)
    ensures var (s', move) := Decide(m, s, obs); Inv(m, s', log + [Told(obs, move)])
  {
    hide Count, EndingOf, Outstanding, FailureStreak, Started, Dressed;
    var move := Decide(m, s, obs).1;
    LogAppend(log, Told(obs, move));
    TreatLogAppend(m, log, Told(obs, move));
  }

  lemma FoldKeeps(m: Mission, s: State, log: seq<TreatEntry>, r: ActionResult<Action>)
    requires m.limits.Valid() && Inv(m, s, log) && Accepts(s, r)
    ensures Inv(m, Note(s, r), log + [Folded(r)])
  {
    hide Count, EndingOf, Outstanding, FailureStreak, Started, Dressed;
    LogAppend(log, Folded(r));
    TreatLogAppend(m, log, Folded(r));
  }

  lemma OtherKeeps(m: Mission, s: State, log: seq<TreatEntry>, r: ActionResult<Action>)
    requires Inv(m, s, log)
    ensures Inv(m, Abandoned(s), log)
    ensures !Accepts(s, r) ==> Note(s, r) == s
    ensures Justified(m, log, Folded(r))
  {
  }

  lemma NothingYet(m: Mission)
    requires m.limits.Valid()
    ensures Inv(m, Initial(), [])
  {
  }

  /** Every run keeps the invariant, and every answer in it is justified by what came
      before. */
  lemma {:induction false} RunKeeps(m: Mission, events: seq<Event>)
    requires m.limits.Valid()
    ensures Inv(m, After(m, events).state, After(m, events).log)
    ensures forall i :: 0 <= i < |After(m, events).log| ==>
              Justified(m, After(m, events).log[..i], After(m, events).log[i])
    decreases |events|
  {
    hide Inv, Justified, Decide, Note;
    if events == [] {
      NothingYet(m);
    } else {
      var before, after := After(m, events[..|events| - 1]), After(m, events);
      RunKeeps(m, events[..|events| - 1]);
      match events[|events| - 1] {
        case Look(obs) =>
          LookJustified(m, before.state, before.log, obs);
          LookKeeps(m, before.state, before.log, obs);
        case Fold(r) =>
          OtherKeeps(m, before.state, before.log, r);
          if Accepts(before.state, r) { FoldKeeps(m, before.state, before.log, r); }
        case Abandon =>
          OtherKeeps(m, before.state, before.log, ActionResult(BandageAction, NotTerminal, NoProgress));
      }
      forall i | 0 <= i < |after.log|
        ensures Justified(m, after.log[..i], after.log[i])
      {
        if i < |before.log| {
          assert after.log[..i] == before.log[..i] && after.log[i] == before.log[i];
        } else {
          assert after.log[..i] == before.log;
        }
      }
    }
  }

  /** Every run: no more parts than the wound budget are ever started, and the report
      names exactly the parts whose own bandage succeeded. */
  lemma WoundsAreBudgeted(m: Mission, events: seq<Event>)
    requires m.limits.Valid()
    ensures var run := After(m, events);
            && |Started(m, run.log)| <= m.limits.maxWounds
            && run.state.bandaged == Dressed(run.log)
            && Count(run.log, IsProbe) <= m.limits.maxProbes
  {
    RunKeeps(m, events);
  }

  // ---- what the mission answers ----

  /** The whole answer to an observation, read off the log before it. */
  ghost predicate Concluded(m: Mission, past: seq<TreatEntry>, obs: Obs, move: Move<Command>) {
    if EndingOf(past).Some? then move == EndingOf(past).value
    else if Outstanding(past).Some? then move.Wait?
    else if FailureStreak(past) >= m.limits.maxFailures then move == Refuse(EndedNoProgress, NoProgress)
    else if obs.bleeding == 0 then
      if Count(past, IsSuccess) > 0 then move.Complete?
      else if Count(past, IsProbe) < m.limits.maxProbes then move == Probe(Count(past, IsProbe) + 1)
      else move == Refuse(EndedNoProgress, NoProgress)
    else if !obs.inventory then move == Refuse(EndedNoProgress, CapabilityUnavailable)
    else match m.select(obs)
      case NoneTreatable => move == Refuse(EndedNoProgress, PreconditionFailed)
      case NoDressing => move == Refuse(EndedExhausted, PreconditionFailed)
      case Chosen(part, item, transfer) =>
        if part in Started(m, past) || |Started(m, past)| < m.limits.maxWounds then
          move == Do(Count(past, IsCommand) + 1, if transfer then EnsureMain(item) else Bandage(part, item))
        else move == Refuse(EndedNoProgress, NoProgress)
  }

  lemma LookConcludes(m: Mission, s: State, log: seq<TreatEntry>, obs: Obs)
    requires m.limits.Valid() && Inv(m, s, log)
    ensures Concluded(m, log, obs, Decide(m, s, obs).1)
  {
    hide Count, EndingOf, Outstanding, FailureStreak, Started, Dressed;
  }

  /** Over every run the answer to any observation is the one the log before it calls
      for. */
  lemma EveryAnswerIsDue(m: Mission, events: seq<Event>, obs: Obs)
    requires m.limits.Valid()
    ensures Concluded(m, After(m, events).log, obs, Decide(m, After(m, events).state, obs).1)
  {
    hide Inv, Concluded, Decide, Step, Justified;
    RunKeeps(m, events);
    LookConcludes(m, After(m, events).state, After(m, events).log, obs);
  }

  // ---- what bounds the commands ----

  /** Commands, successes and the running streak, at every point of a run. */
  ghost predicate Paced(m: Mission, log: seq<TreatEntry>) {
    var (f, out) := (m.limits.maxFailures, if Outstanding(log).Some? then 1 else 0);
    && FailureStreak(log) + out <= f
    && Count(log, IsCommand) <= Allowance(Count(log, IsSuccess), f) + FailureStreak(log) + out
  }

  lemma PacedLook(m: Mission, s: State, log: seq<TreatEntry>, obs: Obs)
    requires m.limits.Valid() && Inv(m, s, log) && Paced(m, log)
    ensures Paced(m, log + [Told(obs, Decide(m, s, obs).1)])
  {
    hide Count, EndingOf, Outstanding, FailureStreak, Started, Dressed, Decide, Inv, Earned, Allowance;
    var e: TreatEntry := Told(obs, Decide(m, s, obs).1);
    LookJustified(m, s, log, obs);
    LogAppend(log, e);
    TreatLogAppend(m, log, e);
  }

  lemma PacedFold(m: Mission, s: State, log: seq<TreatEntry>, r: ActionResult<Action>)
    requires m.limits.Valid() && Inv(m, s, log) && Paced(m, log) && Accepts(s, r)
    ensures Paced(m, log + [Folded(r)])
  {
    hide Count, EndingOf, Outstanding, FailureStreak, Started, Dressed, Allowance;
    LogAppend(log, Folded(r));
    TreatLogAppend(m, log, Folded(r));
    AllowanceGrows(Count(log, IsSuccess), m.limits.maxFailures);
  }

  lemma {:induction false} RunPaced(m: Mission, events: seq<Event>)
    requires m.limits.Valid()
    ensures Paced(m, After(m, events).log)
  {
    if events != [] {
      hide Paced, Decide, Note, Inv, Justified;
      var before := events[..|events| - 1];
      RunPaced(m, before);
      RunKeeps(m, before);
      var run := After(m, before);
      match events[|events| - 1] {
        case Look(obs) => PacedLook(m, run.state, run.log, obs);
        case Fold(r) => if Accepts(run.state, r) { PacedFold(m, run.state, run.log, r); }
        case Abandon =>
      }
    }
  }

  /** Every command is paid for by a success or by the last failure streak; the wound
      budget bounds parts, and only the failure streak bounds commands. */
  lemma CommandsBoundedBySuccesses(m: Mission, events: seq<Event>)
    requires m.limits.Valid()
    ensures var log := After(m, events).log;
            Count(log, IsCommand) <= (Count(log, IsSuccess) + 1) * m.limits.maxFailures
  {
    RunPaced(m, events);
    hide *;
    CommandsArithmetic(m, After(m, events).log);
  }

  lemma CommandsArithmetic(m: Mission, log: seq<TreatEntry>)
    requires Paced(m, log)
    ensures Count(log, IsCommand) <= (Count(log, IsSuccess) + 1) * m.limits.maxFailures
  {
    hide Count, Outstanding, FailureStreak;
    AllowanceGrows(Count(log, IsSuccess), m.limits.maxFailures);
  }

  // ---- the number of commands is not bounded ----

  const BLEEDING := Obs(0, 1, true)
  const DRESSED: ActionResult<Action> := ActionResult(BandageAction, Succeeded, NoProgress)

  function DressForever(n: nat): seq<Event> {
    if n == 0 then [] else DressForever(n - 1) + [Look(BLEEDING), Fold(DRESSED)]
  }

  predicate BetweenDressings(s: State) {
    s.final.None? && s.pending.None? && s.failures == 0 && s.started <= {"Hand_L"}
  }

  lemma DressRound(m: Mission, s: State)
    requires m.limits.Valid() && m.select(BLEEDING) == Chosen("Hand_L", "item", false) && BetweenDressings(s)
    ensures var (s', move) := Decide(m, s, BLEEDING);
            move.Do? && Accepts(s', DRESSED) && BetweenDressings(Note(s', DRESSED))
  {
    if "Hand_L" !in s.started { assert s.started == {}; }
  }

  /** A wound that opens again after each successful dressing is dressed again, and
      neither the wound budget nor the failure streak ever ends it. */
  lemma {:induction false} DressingsAreUnbounded(limits: Limits, n: nat)
    requires limits.Valid()
    ensures var run := After(Mission(limits, o => Chosen("Hand_L", "item", false)), DressForever(n));
            Count(run.log, IsCommand) == n && BetweenDressings(run.state)
  {
    hide Decide, Note, Accepts, BetweenDressings, Count;
    var m := Mission(limits, o => Chosen("Hand_L", "item", false));
    if n == 0 {
      assert After(m, []) == Run(Initial(), []);
      StartsBetween();
    } else {
      DressingsAreUnbounded(limits, n - 1);
      var events := DressForever(n - 1);
      var run := After(m, events);
      DressRound(m, run.state);
      HistoryAppend(m, events, Look(BLEEDING));
      HistoryAppend(m, events + [Look(BLEEDING)], Fold(DRESSED));
      assert events + [Look(BLEEDING)] + [Fold(DRESSED)] == DressForever(n);
      var look: TreatEntry := Told(BLEEDING, Decide(m, run.state, BLEEDING).1);
      CountAppend(run.log, look, IsCommand);
      CountAppend(run.log + [look], Folded(DRESSED), IsCommand);
    }
  }

  lemma StartsBetween()
    ensures BetweenDressings(Initial()) && Count<TreatEntry>([], IsCommand) == 0
  {
  }

  // ---- results and the phase ----

  /** A result counts exactly when it ends the command in flight. */
  lemma ResultsCount(m: Mission, events: seq<Event>, r: ActionResult<Action>)
    requires m.limits.Valid()
    ensures var (run, next) := (After(m, events), After(m, events + [Fold(r)]));
            if EndingOf(run.log).None? && Outstanding(run.log).Some? && !r.status.NotTerminal?
               && (if Outstanding(run.log).value.Bandage? then r.action.BandageAction? else r.action.TransferAction?)
            then next.log == run.log + [Folded(r)] else next == run
  {
    hide Note;
    RunKeeps(m, events);
    HistoryAppend(m, events, Fold(r));
    OtherKeeps(m, After(m, events).state, After(m, events).log, r);
  }

  /** Over every run the phase is that of the command in flight. */
  lemma PhaseAgrees(m: Mission, events: seq<Event>)
    requires m.limits.Valid()
    ensures var run := After(m, events);
            run.state.stage == match Outstanding(run.log)
              case None => StartPhase
              case Some(c) => if c.Bandage? then TreatPhase else TransferPhase
  {
    RunKeeps(m, events);
  }

  // ---- what the report says ----

  predicate IsAbandon(e: Event) { e.Abandon? }

  ghost function ReportOf(run: Run, events: seq<Event>): Report<Obs, Command, Action> {
    Report(run.state.ended, run.state.final, run.log, Count(events, IsAbandon) > 0)
  }

  lemma StepReports(m: Mission, run: Run, events: seq<Event>, e: Event)
    ensures Follows(ReportOf(run, events), ReportOf(Step(m, run, e), events + [e]))
  {
    CountAppend(events, e, IsAbandon);
  }

  /** Over every run, abandonment included, the report says just that. */
  lemma {:induction false} ReportNamesEnding(m: Mission, events: seq<Event>)
    ensures Reported(ReportOf(After(m, events), events))
  {
    if events != [] {
      hide Probed, Reported, Follows, ReportOf, Step;
      var before := events[..|events| - 1];
      ReportNamesEnding(m, before);
      assert events == before + [events[|events| - 1]];
      StepReports(m, After(m, before), before, events[|events| - 1]);
      ReportKept(ReportOf(After(m, before), before), ReportOf(After(m, events), events));
    }
  }
}
