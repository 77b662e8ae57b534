/** What holds of every run of the combat mission, whatever is observed, whatever
    the policy answers and however results are interleaved. */
module CombatSafety {
  import opened Wrappers
  import opened MissionMoves
  import opened CombatMission

  predicate IsEngage(e: CombatEntry) { e.Commands() && e.move.command.EngageTarget? }
  predicate IsShove(e: CombatEntry) { e.Commands() && e.move.command.Shove? }
  predicate IsEquip(e: CombatEntry) { e.Commands() && e.move.command.EquipBest? }
  predicate IsRetreat(e: CombatEntry) { e.Commands() && e.move.command.Retreat? }
  predicate IsCommand(e: CombatEntry) { e.Commands() }
  predicate IsSuccess(e: CombatEntry) { e.Succeeds() }

  /** An engage window's own command was answered with success. */
  ghost predicate WindowWon(log: seq<CombatEntry>) {
    log != [] &&
    var before, last := log[..|log| - 1], log[|log| - 1];
    WindowWon(before) ||
    (last.Succeeds() && Outstanding(before).Some? && Outstanding(before).value.EngageTarget?)
  }

  /** The one target: the nearest zombie of the first observation. */
  ghost function TargetOf(log: seq<CombatEntry>): Option<string> {
    if log == [] || log[0].Folded? || log[0].obs.zombies.None? then None
    else match Nearest(log[0].obs.zombies.value)
      case None => None
      case Some(z) => Some(z.id)
  }

  ghost predicate TargetDown(obs: Obs, target: string) {
    obs.zombies.Some? && var z := Lookup(obs.zombies.value, target); z.Some? && z.value.down
  }

  ghost predicate TargetAbsent(obs: Obs, target: string) {
    obs.zombies.Some? && Lookup(obs.zombies.value, target).None?
  }

  /** The mission is free to act and its target stands in this observation. */
  ghost predicate FreeToFight(m: Mission, past: seq<CombatEntry>, obs: Obs) {
    var target := TargetOf(past + [Told(obs, Wait)]);
    && EndingOf(past).None? && Outstanding(past).None? && Count(past, IsRetreat) == 0
    && FailureStreak(past) < m.limits.maxFailures
    && target.Some? && obs.zombies.Some?
    && !TargetDown(obs, target.value) && !TargetAbsent(obs, target.value)
  }

  // ---- what justifies one answer, given everything before it ----

  /** An ending is final and is replayed; while a command is out, and only
      then, the answer is to wait. */
  ghost predicate Settled(past: seq<CombatEntry>, move: Move<Command>) {
    && (EndingOf(past).Some? ==> move == EndingOf(past).value)
    && (move.Wait? <==> EndingOf(past).None? && Outstanding(past).Some?)
  }

  /** After a retreat no command follows, and the first decision seals a
      refusal that says the threat interrupted. */
  ghost predicate RetreatEnds(past: seq<CombatEntry>, move: Move<Command>) {
    Count(past, IsRetreat) > 0 ==>
      move.Wait? || (move.Refuse? && move.reason.ThreatInterrupted?
                     && (move.ended.EndedRetreated? || move.ended.EndedExhausted?))
  }

  /** A command is sent exactly when the mission is free to fight, and the
      policy's verdict on this very observation decides which one it is. */
  ghost predicate Policed(m: Mission, past: seq<CombatEntry>, obs: Obs, move: Move<Command>) {
    && (move.Do? <==> FreeToFight(m, past, obs))
    && (move.Do? ==>
          var target := TargetOf(past + [Told(obs, move)]).value;
          var verdict := m.assess(obs, target);
          var draw := verdict.WeaponUnusable? && Count(past, IsEquip) == 0;
          var window := Count(past, IsEngage) < m.limits.maxWindows;
          && move.key == Count(past, IsCommand) + 1
          && (move.command.EquipBest? <==> draw)
          && (move.command == EngageTarget(target) <==> verdict.Engage? && window)
          && (move.command == Shove(target) <==> verdict.ShoveFirst? && window)
          && (move.command.Retreat? <==> !draw && (verdict.Refused() || !window)))
  }

  /** Completion needs a success, and the target down or gone after a window
      that itself succeeded. */
  ghost predicate Earned(past: seq<CombatEntry>, obs: Obs, move: Move<Command>) {
    EndingOf(past).None? && move.Complete? ==>
      var target := TargetOf(past + [Told(obs, move)]);
      && Count(past, IsSuccess) > 0
      && target.Some?
      && (TargetDown(obs, target.value) || (TargetAbsent(obs, target.value) && WindowWon(past)))
  }

  ghost predicate Justified(m: Mission, past: seq<CombatEntry>, e: CombatEntry) {
    e.Told? ==>
      && Settled(past, e.move)
      && RetreatEnds(past, e.move)
      && Policed(m, past, e.obs, e.move)
      && Earned(past, e.obs, e.move)
  }

  // ---- the invariant tying the fields to the log ----

  ghost predicate Counted(s: State, log: seq<CombatEntry>) {
    && s.steps == Count(log, IsCommand)
    && s.windows == Count(log, IsEngage)
    && s.shoves == Count(log, IsShove)
    && (if s.equipRequested then 1 else 0) == Count(log, IsEquip)
    && (if s.endAfterRetreat.Some? then 1 else 0) == Count(log, IsRetreat)
    && (s.anySuccess <==> Count(log, IsSuccess) > 0)
  }

  ghost predicate Inv(m: Mission, s: State, log: seq<CombatEntry>) {
    && Counted(s, log)
    && s.windows <= m.limits.maxWindows
    && s.final == EndingOf(log)
    && s.pending == (match Outstanding(log) case None => None case Some(c) => Some(ActionOf(c)))
    && (s.final.Some? ==> s.pending.None? && s.final.value.Ends())
    && (s.endAfterRetreat.None? ==> s.failures == FailureStreak(log))
    && (s.pending.Some? ==> (s.stage.EngagePhase? <==> s.pending.value.EngageAction?))
    && (s.windowSucceeded <==> WindowWon(log))
    && s.target == TargetOf(log)
    && (log != [] ==> log[0].Told? && (s.final.None? ==> s.target.Some?))
    && (s.endAfterRetreat.Some? ==>
          var (ended, reason) := s.endAfterRetreat.value;
          && reason.ThreatInterrupted? && (ended.EndedRetreated? || ended.EndedExhausted?)
          && (s.final.Some? ==> s.final.value == Refuse(ended, reason)))
  }

  lemma AppendCounts(log: seq<CombatEntry>, e: CombatEntry)
    ensures Count(log + [e], IsCommand) == Count(log, IsCommand) + (if IsCommand(e) then 1 else 0)
    ensures Count(log + [e], IsEngage) == Count(log, IsEngage) + (if IsEngage(e) then 1 else 0)
    ensures Count(log + [e], IsShove) == Count(log, IsShove) + (if IsShove(e) then 1 else 0)
    ensures Count(log + [e], IsEquip) == Count(log, IsEquip) + (if IsEquip(e) then 1 else 0)
    ensures Count(log + [e], IsRetreat) == Count(log, IsRetreat) + (if IsRetreat(e) then 1 else 0)
    ensures Count(log + [e], IsSuccess) == Count(log, IsSuccess) + (if IsSuccess(e) then 1 else 0)
    ensures WindowWon(log + [e]) <==>
            WindowWon(log) ||
            (e.Succeeds() && Outstanding(log).Some? && Outstanding(log).value.EngageTarget?)
    ensures log != [] ==> TargetOf(log + [e]) == TargetOf(log)
  {
    CountAppend(log, e, IsCommand);
    CountAppend(log, e, IsEngage);
    CountAppend(log, e, IsShove);
    CountAppend(log, e, IsEquip);
    CountAppend(log, e, IsRetreat);
    CountAppend(log, e, IsSuccess);
    assert (log + [e])[..|log|] == log;
  }

  lemma EmptyLog(log: seq<CombatEntry>)
    ensures log == [] ==>
              && EndingOf(log).None? && Outstanding(log).None? && FailureStreak(log) == 0
              && Count(log, IsRetreat) == Count(log, IsEngage) == Count(log, IsEquip) == 0
              && Count(log, IsCommand) == Count(log, IsShove) == Count(log, IsSuccess) == 0
              && !WindowWon(log)
  {
  }

  lemma LookJustified(m: Mission, s: State, log: seq<CombatEntry>, obs: Obs)
    requires m.limits.Valid() && Inv(m, s, log)
    ensures Justified(m, log, Told(obs, Decide(m, s, obs).1))
  {
    hide Count, EndingOf, Outstanding, FailureStreak, WindowWon, TargetOf, Nearest;
    EmptyLog(log);
    var move := Decide(m, s, obs).1;
    TargetIsObserved(log, obs, Wait, move);
    TargetIsPinned(m, s, log, obs);
    assert Settled(log, move);
    assert RetreatEnds(log, move);
    assert Policed(m, log, obs, move);
    assert Earned(log, obs, move);
  }

  /** What a mission that is still free pins is the target of the log. */
  lemma TargetIsPinned(m: Mission, s: State, log: seq<CombatEntry>, obs: Obs)
    requires Inv(m, s, log)
    ensures s.final.None? && obs.zombies.Some? ==> PinnedTarget(s, obs.zombies.value) == TargetOf(log + [Told(obs, Wait)])
    ensures s.final.None? && log == [] && obs.zombies.None? ==> TargetOf(log + [Told(obs, Wait)]).None?
  {
    hide Count, EndingOf, Outstanding, FailureStreak, WindowWon, Nearest;
    if log != [] { assert (log + [Told(obs, Wait)])[0] == log[0]; }
  }

  /** Idle and pinned: where `Decide` hands over to the policy or to `Finish`. */
  ghost predicate Pinned(m: Mission, s0: State, s: State, log: seq<CombatEntry>, obs: Obs) {
    && m.limits.Valid() && Inv(m, s0, log)
    && s == s0.(target := TargetOf(log + [Told(obs, Wait)]))
    && s.target.Some?
    && s.final.None? && s.pending.None? && s.endAfterRetreat.None?
  }

  lemma FightKeeps(m: Mission, s0: State, s: State, log: seq<CombatEntry>, obs: Obs, verdict: Verdict)
    requires Pinned(m, s0, s, log, obs)
    ensures var (s', move) := Fight(m, s, verdict, s.target.value);
            Inv(m, s', log + [Told(obs, move)])
  {
    hide Count, EndingOf, Outstanding, FailureStreak, WindowWon, TargetOf;
    var move := Fight(m, s, verdict, s.target.value).1;
    LogAppend(log, Told(obs, move));
    AppendCounts(log, Told(obs, move));
    TargetIsObserved(log, obs, Wait, move);
  }

  /** The target is what was seen, whatever the answer was. */
  lemma TargetIsObserved(log: seq<CombatEntry>, obs: Obs, a: Move<Command>, b: Move<Command>)
    ensures TargetOf(log + [Told(obs, a)]) == TargetOf(log + [Told(obs, b)])
    ensures (log + [Told(obs, b)])[0].Told? <==> log == [] || log[0].Told?
  {
  }

  lemma FinishKeeps(m: Mission, s0: State, s: State, log: seq<CombatEntry>, obs: Obs)
    requires Pinned(m, s0, s, log, obs)
    ensures var (s', move) := Finish(m, s);
            Inv(m, s', log + [Told(obs, move)])
  {
    hide Count, EndingOf, Outstanding, FailureStreak, WindowWon;
    var move := Finish(m, s).1;
    LogAppend(log, Told(obs, move));
    AppendCounts(log, Told(obs, move));
    assert TargetOf(log + [Told(obs, Wait)]) == TargetOf(log + [Told(obs, move)]);
  }

  /** Where `Decide` hands over, it hands over a pinned state. */
  lemma HandsOver(m: Mission, s: State, log: seq<CombatEntry>, obs: Obs, target: string)
    requires m.limits.Valid() && Inv(m, s, log)
    requires s.final.None? && s.pending.None? && s.endAfterRetreat.None? && obs.zombies.Some?
    requires PinnedTarget(s, obs.zombies.value) == Some(target)
    ensures Pinned(m, s, s.(target := Some(target)), log, obs)
  {
    hide Inv, TargetOf, Nearest, PinnedTarget;
    TargetIsPinned(m, s, log, obs);
  }

  /** An answer that needs no target: the state is sealed, or as it was. */
  lemma SealKeeps(m: Mission, s: State, log: seq<CombatEntry>, obs: Obs, s': State, move: Move<Command>)
    requires m.limits.Valid() && Inv(m, s, log)
    requires if s.final.Some? then s' == s && move == s.final.value
             else if s.pending.Some? then s' == s && move.Wait?
             else move.Refuse? && s' == Seal(s.(target := TargetOf(log + [Told(obs, Wait)])), move).0
    requires s.final.None? && s.pending.None? && s.endAfterRetreat.Some? ==>
      move == Refuse(s.endAfterRetreat.value.0, s.endAfterRetreat.value.1)
    ensures Inv(m, s', log + [Told(obs, move)])
  {
    hide Count, EndingOf, Outstanding, FailureStreak, WindowWon, TargetOf;
    LogAppend(log, Told(obs, move));
    AppendCounts(log, Told(obs, move));
    TargetIsObserved(log, obs, Wait, move);
    StartedTarget(m, s, log, obs);
  }

  /** A mission that has been called keeps its target. */
  lemma StartedTarget(m: Mission, s: State, log: seq<CombatEntry>, obs: Obs)
    requires Inv(m, s, log)
    ensures log != [] ==> TargetOf(log + [Told(obs, Wait)]) == s.target
    ensures s.final.Some? || s.pending.Some? || s.endAfterRetreat.Some? ==> log != []
    ensures log == [] ==> s.failures == 0 && s.target.None?
  {
    hide Count, WindowWon;
    EmptyLog(log);
    if log != [] { AppendCounts(log, Told(obs, Wait)); }
  }

  lemma LookKeeps(m: Mission, s: State, log: seq<CombatEntry>, obs: Obs)
    requires m.limits.Valid() && Inv(m, s, log)
    ensures var (s', move) := Decide(m, s, obs);
            Inv(m, s', log + [Told(obs, move)])
  {
    hide Inv, Fight, Finish, Pinned, TargetOf, Nearest, EndingOf, Outstanding, FailureStreak, WindowWon;
    var (s', move) := Decide(m, s, obs);
    TargetIsPinned(m, s, log, obs);
    StartedTarget(m, s, log, obs);
    Unseen(log, obs);
    if s.final.None? && s.pending.None? && s.endAfterRetreat.None? && s.failures < m.limits.maxFailures
      && obs.zombies.Some? && PinnedTarget(s, obs.zombies.value).Some? {
      var target := PinnedTarget(s, obs.zombies.value);
      HandsOver(m, s, log, obs, target.value);
      FinishKeeps(m, s, s.(target := target), log, obs);
      FightKeeps(m, s, s.(target := target), log, obs, m.assess(obs, target.value));
      if move.Refuse? && (s', move) == Seal(s.(target := target), move) {
        SealKeeps(m, s, log, obs, s', move);
      }
    } else {
      SealKeeps(m, s, log, obs, s', move);
    }
  }

  lemma Unseen(log: seq<CombatEntry>, obs: Obs)
    ensures log == [] && obs.zombies.None? ==> TargetOf(log + [Told(obs, Wait)]).None?
  {
  }

  lemma FoldKeeps(m: Mission, s: State, log: seq<CombatEntry>, r: ActionResult<Action>)
    requires Inv(m, s, log) && Accepts(s, r)
    ensures Inv(m, Note(s, r), log + [Folded(r)])
  {
    hide Count, EndingOf, Outstanding, FailureStreak, WindowWon;
    EmptyLog(log);
    LogAppend(log, Folded(r));
    AppendCounts(log, Folded(r));
  }

  lemma NothingYet(m: Mission)
    requires m.limits.Valid()
    ensures Inv(m, Initial(), [])
  {
    EmptyLog([]);
  }

  lemma OtherKeeps(m: Mission, s: State, log: seq<CombatEntry>, r: ActionResult<Action>)
    requires Inv(m, s, log)
    ensures Inv(m, Abandoned(s), log)
    ensures !Accepts(s, r) ==> Note(s, r) == s
    ensures Justified(m, log, Folded(r))
  {
    hide Count, EndingOf, Outstanding, FailureStreak, WindowWon;
  }

  ghost predicate AllJustified(m: Mission, log: seq<CombatEntry>) {
    forall i | 0 <= i < |log| :: Justified(m, log[..i], log[i])
  }

  lemma JustifiedGrows(m: Mission, log: seq<CombatEntry>, e: CombatEntry)
    requires AllJustified(m, log) && Justified(m, log, e)
    ensures AllJustified(m, log + [e])
  {
    hide Justified;
    var longer := log + [e];
    forall i | 0 <= i < |longer|
      ensures Justified(m, longer[..i], longer[i])
    {
      if i < |log| { assert longer[..i] == log[..i]; } else { assert longer[..i] == log; }
    }
  }

  /** Every run keeps the invariant, and every answer in it is justified by what came
      before. */
  lemma {:induction false} RunKeeps(m: Mission, events: seq<Event>)
    requires m.limits.Valid()
    ensures var run := After(m, events); Inv(m, run.state, run.log)
    ensures AllJustified(m, After(m, events).log)
  {
    hide Inv, Justified, AllJustified, Decide, Note, Abandoned;
    if events == [] {
      NothingYet(m);
      NoneToJustify(m);
    } else {
      var before := After(m, events[..|events| - 1]);
      RunKeeps(m, events[..|events| - 1]);
      match events[|events| - 1] {
        case Look(obs) =>
          LookKeeps(m, before.state, before.log, obs);
          LookJustified(m, before.state, before.log, obs);
          JustifiedGrows(m, before.log, Told(obs, Decide(m, before.state, obs).1));
        case Fold(r) =>
          OtherKeeps(m, before.state, before.log, r);
          if Accepts(before.state, r) {
            FoldKeeps(m, before.state, before.log, r);
            JustifiedGrows(m, before.log, Folded(r));
          }
        case Abandon =>
          OtherKeeps(m, before.state, before.log, ActionResult(EquipAction, NotTerminal, NoProgress));
      }
    }
  }

  lemma NoneToJustify(m: Mission)
    ensures AllJustified(m, [])
  {
  }

  // ---- what follows ----

  /** The budgets, and the failure streak no command outlives. */
  lemma RunBudgets(m: Mission, events: seq<Event>)
    requires m.limits.Valid()
    ensures var log := After(m, events).log;
            && Count(log, IsEngage) <= m.limits.maxWindows <= 4
            && Count(log, IsEquip) <= 1
            && Count(log, IsRetreat) <= 1
            && forall i | 0 <= i < |log| && log[i].Commands() ::
                 FailureStreak(log[..i]) < m.limits.maxFailures
  {
    hide Count, EndingOf, Outstanding, FailureStreak, WindowWon, TargetOf, After;
    RunKeeps(m, events);
  }

  /** A retreat is the last command; until its result lands the answer is to
      wait, and from then on it is a refusal naming the threat. */
  lemma RetreatIsLast(m: Mission, events: seq<Event>, i: nat, j: nat)
    requires m.limits.Valid()
    requires var log := After(m, events).log; i < j < |log| && IsRetreat(log[i]) && log[j].Told?
    ensures var log := After(m, events).log;
            if Outstanding(log[..j]).Some? then log[j].move.Wait?
            else log[j].move.Refuse? && log[j].move.reason.ThreatInterrupted?
  {
    hide Count, EndingOf, Outstanding, FailureStreak, WindowWon, TargetOf, After;
    RunKeeps(m, events);
    var log := After(m, events).log;
    assert log[..j][i] == log[i];
    CountPositive(log[..j], i, IsRetreat);
    assert Justified(m, log[..j], log[j]);
    EndedMeansQuiet(m, events, j);
  }

  lemma {:induction false} EndedMeansQuiet(m: Mission, events: seq<Event>, j: nat)
    requires m.limits.Valid() && j <= |After(m, events).log|
    ensures var past := After(m, events).log[..j];
            EndingOf(past).Some? ==> Outstanding(past).None?
  {
    hide Count, EndingOf, Outstanding, FailureStreak, WindowWon, TargetOf;
    RunKeeps(m, events);
    var log := After(m, events).log;
    if j == |log| { assert log[..j] == log; }
    else {
      RunKeeps(m, events[..|events| - 1]);
      var before := After(m, events[..|events| - 1]);
      if j <= |before.log| {
        EndedMeansQuiet(m, events[..|events| - 1], j);
        assert log[..j] == before.log[..j];
      }
    }
  }

  /** Shoves whose own command succeeded. */
  ghost function ShovesWon(log: seq<CombatEntry>): nat {
    if log == [] then 0
    else
      var before, last := log[..|log| - 1], log[|log| - 1];
      ShovesWon(before) +
      (if last.Succeeds() && Outstanding(before).Some? && Outstanding(before).value.Shove? then 1 else 0)
  }

  /** Commands, successes and the running streak, at every point of a run. */
  ghost predicate Paced(m: Mission, log: seq<CombatEntry>) {
    var (f, out) := (m.limits.maxFailures, if Outstanding(log).Some? then 1 else 0);
    && FailureStreak(log) + out <= f
    && Count(log, IsCommand) <= Allowance(Count(log, IsSuccess), f) + FailureStreak(log) + out
    && Count(log, IsSuccess) + out <=
         ShovesWon(log) + Count(log, IsEngage) + Count(log, IsEquip) + Count(log, IsRetreat)
         + (if Outstanding(log).Some? && Outstanding(log).value.Shove? then 1 else 0)
  }

  lemma PacedLook(m: Mission, s: State, log: seq<CombatEntry>, obs: Obs)
    requires m.limits.Valid() && Inv(m, s, log) && Paced(m, log)
    ensures Paced(m, log + [Told(obs, Decide(m, s, obs).1)])
  {
    hide Count, EndingOf, Outstanding, FailureStreak, WindowWon, TargetOf, ShovesWon, Decide, Inv, Allowance;
    var e: CombatEntry := Told(obs, Decide(m, s, obs).1);
    LookJustified(m, s, log, obs);
    LogAppend(log, e);
    AppendCounts(log, e);
    ShovesWonAppend(log, e);
  }

  lemma PacedFold(m: Mission, s: State, log: seq<CombatEntry>, r: ActionResult<Action>)
    requires m.limits.Valid() && Inv(m, s, log) && Paced(m, log) && Accepts(s, r)
    ensures Paced(m, log + [Folded(r)])
  {
    hide Count, EndingOf, Outstanding, FailureStreak, WindowWon, TargetOf, ShovesWon, Allowance;
    LogAppend(log, Folded(r));
    AppendCounts(log, Folded(r));
    ShovesWonAppend(log, Folded(r));
    AllowanceGrows(Count(log, IsSuccess), m.limits.maxFailures);
  }

  lemma ShovesWonAppend(log: seq<CombatEntry>, e: CombatEntry)
    ensures ShovesWon(log + [e]) == ShovesWon(log) +
            (if e.Succeeds() && Outstanding(log).Some? && Outstanding(log).value.Shove? then 1 else 0)
  {
    assert (log + [e])[..|log|] == log;
  }

  lemma {:induction false} RunPaced(m: Mission, events: seq<Event>)
    requires m.limits.Valid()
    ensures Paced(m, After(m, events).log)
  {
    if events != [] {
      hide Paced, Decide, Note, Inv, Justified;
      var before := events[..|events| - 1];
      RunPaced(m, before);
      RunKeeps(m, before);
      var run := After(m, before);
      match events[|events| - 1] {
        case Look(obs) => PacedLook(m, run.state, run.log, obs);
        case Fold(r) => if Accepts(run.state, r) { PacedFold(m, run.state, run.log, r); }
        case Abandon =>
      }
    }
  }

  /** Every command is paid for: by a failure streak, or by a success, and only
      successful shoves are not themselves budgeted. */
  lemma CommandsBoundedByShoves(m: Mission, events: seq<Event>)
    requires m.limits.Valid()
    ensures var log := After(m, events).log;
            Count(log, IsCommand) <= (ShovesWon(log) + m.limits.maxWindows + 3) * m.limits.maxFailures
  {
    RunPaced(m, events);
    RunBudgets(m, events);
    hide *;
    var log := After(m, events).log;
    CommandsArithmetic(m, log);
  }

  lemma CommandsArithmetic(m: Mission, log: seq<CombatEntry>)
    requires m.limits.Valid() && Paced(m, log)
    requires Count(log, IsEngage) <= m.limits.maxWindows
    requires Count(log, IsEquip) <= 1 && Count(log, IsRetreat) <= 1
    ensures Count(log, IsCommand) <= (ShovesWon(log) + m.limits.maxWindows + 3) * m.limits.maxFailures
  {
    hide Count, EndingOf, Outstanding, FailureStreak, ShovesWon;
    var (wins, f) := (Count(log, IsSuccess), m.limits.maxFailures);
    var cap := ShovesWon(log) + m.limits.maxWindows + 2;
    assert wins <= cap;
    assert wins * f + f <= cap * f + f == (cap + 1) * f;
  }

  // ---- shoves have no budget of their own ----

  const STANDING := Obs(0, Some([Zombie("z", 1.0, false)]))

  ghost function ShoveForever(n: nat): seq<Event> {
    if n == 0 then []
    else ShoveForever(n - 1) + [Look(STANDING), Fold(SHOVED)]
  }

  const SHOVED := ActionResult(ShoveAction, Succeeded, NoProgress)

  ghost predicate BetweenShoves(s: State) {
    && s.final.None? && s.pending.None? && s.failures == 0 && s.endAfterRetreat.None?
    && (s.target.None? || s.target == Some("z")) && s.windows == 0
  }

  lemma ShoveRound(m: Mission, s: State)
    requires m.limits.Valid() && BetweenShoves(s) && m.assess(STANDING, "z").ShoveFirst?
    ensures var (s', move) := Decide(m, s, STANDING);
            && move == Do(s.steps + 1, Shove("z"))
            && Accepts(s', SHOVED) && BetweenShoves(Note(s', SHOVED))
  {
    assert Nearest(STANDING.zombies.value) == Some(Zombie("z", 1.0, false));
    assert Lookup(STANDING.zombies.value, "z") == Some(Zombie("z", 1.0, false));
  }

  /** A policy that always asks for a shove. */
  function Shover(limits: Limits): Mission { Mission(limits, (o, t) => ShoveFirst) }

  lemma StartsBetween(limits: Limits)
    ensures var run := After(Shover(limits), []);
            Count(run.log, IsShove) == 0 && Count(run.log, IsEngage) == 0 && BetweenShoves(run.state)
  {
  }

  /** With a policy that keeps asking for a shove, and shoves that succeed, no
      window and no failure is ever spent: the run is as long as one likes. */
  lemma {:induction false} ShovesAreUnbounded(limits: Limits, n: nat)
    requires limits.Valid()
    ensures var run := After(Shover(limits), ShoveForever(n));
            Count(run.log, IsShove) == n && Count(run.log, IsEngage) == 0 && BetweenShoves(run.state)
  {
    hide After, Count, BetweenShoves;
    if n == 0 {
      StartsBetween(limits);
    } else {
      ShovesAreUnbounded(limits, n - 1);
      ShoveTwoSteps(Shover(limits), ShoveForever(n - 1));
    }
  }

  lemma ShoveTwoSteps(m: Mission, events: seq<Event>)
    requires m.limits.Valid() && m.assess(STANDING, "z").ShoveFirst?
    requires BetweenShoves(After(m, events).state)
    ensures var (run, run') := (After(m, events), After(m, events + [Look(STANDING), Fold(SHOVED)]));
            && Count(run'.log, IsShove) == Count(run.log, IsShove) + 1
            && Count(run'.log, IsEngage) == Count(run.log, IsEngage)
            && BetweenShoves(run'.state)
  {
    hide Decide, Note, Count, BetweenShoves, Accepts, After;
    var run := After(m, events);
    ShoveRound(m, run.state);
    var look: CombatEntry := Told(STANDING, Decide(m, run.state, STANDING).1);
    HistoryAppend(m, events, Look(STANDING));
    HistoryAppend(m, events + [Look(STANDING)], Fold(SHOVED));
    assert events + [Look(STANDING)] + [Fold(SHOVED)] == events + [Look(STANDING), Fold(SHOVED)];
    AppendCounts(run.log, look);
    AppendCounts(run.log + [look], Folded(SHOVED));
  }

  // ---- what the mission answers ----

  predicate IsProbe(e: CombatEntry) { e.Told? && e.move.Probe? }

  /** How a mission ends after its retreat: retreated, when the policy refused on the
      observation that called for it; otherwise out of windows. */
  ghost function RetreatEnding(m: Mission, log: seq<CombatEntry>): Option<Ending> {
    if log == [] then None
    else
      var before, last := log[..|log| - 1], log[|log| - 1];
      if IsRetreat(last) then
        Some(if TargetOf(log).Some? && m.assess(last.obs, TargetOf(log).value).Refused() then EndedRetreated else EndedExhausted)
      else RetreatEnding(m, before)
  }

  /** What the summary reports of the refusal that ended the fight. */
  ghost function Objection(m: Mission, log: seq<CombatEntry>): Option<Verdict> {
    if log == [] then None
    else
      var before, last := log[..|log| - 1], log[|log| - 1];
      if IsRetreat(last) && TargetOf(log).Some? && m.assess(last.obs, TargetOf(log).value).Refused() then
        Some(m.assess(last.obs, TargetOf(log).value))
      else Objection(m, before)
  }

  /** The whole answer to an observation, the choice of a command aside. */
  ghost predicate Concluded(m: Mission, past: seq<CombatEntry>, obs: Obs, move: Move<Command>) {
    var target := TargetOf(past + [Told(obs, Wait)]);
    if EndingOf(past).Some? then move == EndingOf(past).value
    else if Outstanding(past).Some? then move.Wait?
    else if RetreatEnding(m, past).Some? then move == Refuse(RetreatEnding(m, past).value, ThreatInterrupted)
    else if FailureStreak(past) >= m.limits.maxFailures then move == Refuse(EndedNoProgress, NoProgress)
    else if obs.zombies.None? then move == Refuse(EndedNoProgress, CapabilityUnavailable)
    else if target.None? then move == Refuse(EndedNoTarget, PreconditionFailed)
    else if TargetDown(obs, target.value) || (TargetAbsent(obs, target.value) && WindowWon(past)) then
      if Count(past, IsSuccess) > 0 then move.Complete?
      else if Count(past, IsProbe) < m.limits.maxProbes then move == Probe(Count(past, IsProbe) + 1)
      else move == Refuse(EndedNoProgress, NoProgress)
    else if TargetAbsent(obs, target.value) then move == Refuse(EndedLost, PreconditionFailed)
    else move.Do?
  }

  /** The fields the answer is read off, beside those of the invariant. */
  ghost predicate Traced(m: Mission, s: State, log: seq<CombatEntry>) {
    && s.probes == Count(log, IsProbe) && s.refusal == Objection(m, log)
    && RetreatEnding(m, log) == (if s.endAfterRetreat.Some? then Some(s.endAfterRetreat.value.0) else None)
    && (s.endAfterRetreat.Some? ==> s.endAfterRetreat.value.1.ThreatInterrupted?)
    && s.stage == PhaseOf(log)
  }

  /** Where the mission stands: the command in flight, or between windows, or after the
      retreat. */
  ghost function PhaseOf(log: seq<CombatEntry>): Phase {
    if Outstanding(log).None? then (if Count(log, IsRetreat) > 0 then RetreatPhase else StartPhase)
    else
      match Outstanding(log).value
      case EquipBest => EquipPhase
      case Shove(_) => ShovePhase
      case EngageTarget(_) => EngagePhase
      case Retreat => RetreatPhase
  }

  lemma AppendTraced(m: Mission, log: seq<CombatEntry>, e: CombatEntry)
    ensures Count(log + [e], IsProbe) == Count(log, IsProbe) + (if IsProbe(e) then 1 else 0)
    ensures var target := TargetOf(log + [e]);
            && RetreatEnding(m, log + [e]) ==
                 (if !IsRetreat(e) then RetreatEnding(m, log)
                  else Some(if target.Some? && m.assess(e.obs, target.value).Refused() then EndedRetreated else EndedExhausted))
            && Objection(m, log + [e]) ==
                 if IsRetreat(e) && target.Some? && m.assess(e.obs, target.value).Refused() then Some(m.assess(e.obs, target.value))
                 else Objection(m, log)
  {
    CountAppend(log, e, IsProbe);
    assert (log + [e])[..|log|] == log;
  }

  lemma LookConcludes(m: Mission, s: State, log: seq<CombatEntry>, obs: Obs)
    requires m.limits.Valid() && Inv(m, s, log) && Traced(m, s, log)
    ensures Concluded(m, log, obs, Decide(m, s, obs).1)
  {
    hide Count, EndingOf, Outstanding, FailureStreak, WindowWon, TargetOf, Nearest, RetreatEnding, Objection, Lookup;
    EmptyLog(log);
    TargetIsPinned(m, s, log, obs);
  }

  lemma FightTraced(m: Mission, s: State, log: seq<CombatEntry>, obs: Obs)
    requires Traced(m, s, log) && s.endAfterRetreat.None? && s.target.Some? && s.target == TargetOf(log + [Told(obs, Wait)])
    ensures var (s', move) := Fight(m, s, m.assess(obs, s.target.value), s.target.value);
            Traced(m, s', log + [Told(obs, move)])
  {
    hide Count, Outstanding, TargetOf, RetreatEnding, Objection;
    var move := Fight(m, s, m.assess(obs, s.target.value), s.target.value).1;
    TargetIsObserved(log, obs, Wait, move);
    AppendTraced(m, log, Told(obs, move));
    LogAppend(log, Told(obs, move));
  }

  /** Answers that are no command change nothing but the count of probes. */
  lemma QuietTraced(m: Mission, s: State, log: seq<CombatEntry>, obs: Obs, s': State, move: Move<Command>)
    requires Traced(m, s, log) && !move.Do? && s'.probes == s.probes + (if move.Probe? then 1 else 0)
    requires s'.refusal == s.refusal && s'.endAfterRetreat == s.endAfterRetreat && s'.stage == s.stage
    ensures Traced(m, s', log + [Told(obs, move)])
  {
    hide Count, Outstanding, TargetOf, RetreatEnding, Objection;
    AppendTraced(m, log, Told(obs, move));
    LogAppend(log, Told(obs, move));
    CountAppend(log, Told(obs, move), IsRetreat);
  }

  lemma LookTraced(m: Mission, s: State, log: seq<CombatEntry>, obs: Obs)
    requires m.limits.Valid() && Inv(m, s, log) && Traced(m, s, log)
    ensures Traced(m, Decide(m, s, obs).0, log + [Told(obs, Decide(m, s, obs).1)])
  {
    hide Fight, Nearest, Lookup, Traced, TargetOf, PinnedTarget;
    var (s', move) := Decide(m, s, obs);
    EndsOnly(m, s, log);
    TargetIsPinned(m, s, log, obs);
    if s.final.None? && obs.zombies.Some? && PinnedTarget(s, obs.zombies.value).Some? && s.endAfterRetreat.None? {
      var pinned := s.(target := PinnedTarget(s, obs.zombies.value));
      PinnedTraced(m, s, pinned, log);
      FightTraced(m, pinned, log, obs);
      FightReports(m, pinned, m.assess(obs, pinned.target.value), pinned.target.value);
    }
    if !move.Do? { QuietTraced(m, s, log, obs, s', move); }
  }

  lemma EndsOnly(m: Mission, s: State, log: seq<CombatEntry>)
    requires Inv(m, s, log)
    ensures s.final.Some? ==> s.final.value.Ends()
  {
    hide Counted, EndingOf, Outstanding, FailureStreak, WindowWon, TargetOf;
  }

  lemma PinnedTraced(m: Mission, s: State, pinned: State, log: seq<CombatEntry>)
    requires Traced(m, s, log) && pinned == s.(target := pinned.target)
    ensures Traced(m, pinned, log)
  {
  }

  lemma FightReports(m: Mission, s: State, verdict: Verdict, target: string)
    ensures var (s', move) := Fight(m, s, verdict, target); move.Do? && s'.ended == s.ended && s'.final == s.final
  {
  }

  lemma FoldTraced(m: Mission, s: State, log: seq<CombatEntry>, r: ActionResult<Action>)
    requires Traced(m, s, log) && Counted(s, log) && Accepts(s, r)
    ensures Traced(m, Note(s, r), log + [Folded(r)])
  {
    hide Count, Outstanding, RetreatEnding, Objection, TargetOf;
    AppendTraced(m, log, Folded(r));
    LogAppend(log, Folded(r));
    CountAppend(log, Folded(r), IsRetreat);
  }

  lemma {:induction false} RunTraced(m: Mission, events: seq<Event>)
    requires m.limits.Valid()
    ensures Traced(m, After(m, events).state, After(m, events).log)
  {
    hide Inv, Traced, Decide, Note, Abandoned, Concluded;
    if events == [] {
      StartTraced(m);
    } else {
      var run := After(m, events[..|events| - 1]);
      RunTraced(m, events[..|events| - 1]);
      RunKeeps(m, events[..|events| - 1]);
      match events[|events| - 1] {
        case Look(obs) => LookTraced(m, run.state, run.log, obs);
        case Fold(r) =>
          OtherKeeps(m, run.state, run.log, r);
          if Accepts(run.state, r) {
            CountsOf(m, run.state, run.log);
            FoldTraced(m, run.state, run.log, r);
          }
        case Abandon => AbandonTraced(m, run.state, run.log);
      }
    }
  }

  lemma CountsOf(m: Mission, s: State, log: seq<CombatEntry>)
    requires Inv(m, s, log)
    ensures Counted(s, log)
  {
    hide Count, EndingOf, Outstanding, FailureStreak, WindowWon, TargetOf;
  }

  lemma StartTraced(m: Mission)
    ensures Traced(m, Initial(), [])
  {
  }

  lemma AbandonTraced(m: Mission, s: State, log: seq<CombatEntry>)
    requires Traced(m, s, log)
    ensures Traced(m, Abandoned(s), log)
  {
    hide Count, RetreatEnding, Objection;
  }

  /** Over every run the answer to any observation is the one the log before it calls
      for, and the fields the summary reads agree with the log. */
  lemma EveryAnswerIsDue(m: Mission, events: seq<Event>, obs: Obs)
    requires m.limits.Valid()
    ensures var run := After(m, events);
            && Concluded(m, run.log, obs, Decide(m, run.state, obs).1)
            && Policed(m, run.log, obs, Decide(m, run.state, obs).1)
            && Summed(m, run.state, run.log)
  {
    hide Inv, Concluded, Policed, Decide, Step;
    RunKeeps(m, events);
    RunTraced(m, events);
    var run := After(m, events);
    hide After;
    LookConcludes(m, run.state, run.log, obs);
    LookJustified(m, run.state, run.log, obs);
    SummedIs(m, run.state, run.log);
  }

  /** What the report counts is what happened. */
  ghost predicate Summed(m: Mission, s: State, log: seq<CombatEntry>) {
    && s.windows == Count(log, IsEngage) && s.shoves == Count(log, IsShove) && (s.equipRequested <==> Count(log, IsEquip) > 0)
    && s.target == TargetOf(log) && s.refusal == Objection(m, log) && s.stage == PhaseOf(log)
  }

  lemma SummedIs(m: Mission, s: State, log: seq<CombatEntry>)
    requires Inv(m, s, log) && Traced(m, s, log)
    ensures Summed(m, s, log)
  {
    hide Count, EndingOf, Outstanding, FailureStreak, WindowWon, TargetOf, PhaseOf, RetreatEnding, Objection;
  }

  /** The action a command is carried out by. */
  predicate CarriedBy(c: Command, a: Action) {
    match c
    case EquipBest => a.EquipAction?
    case Shove(_) => a.ShoveAction?
    case EngageTarget(_) => a.EngageAction?
    case Retreat => a.RetreatAction?
  }

  /** A result counts exactly when it ends the command in flight. */
  lemma ResultsCount(m: Mission, events: seq<Event>, r: ActionResult<Action>)
    requires m.limits.Valid()
    ensures var (run, next) := (After(m, events), After(m, events + [Fold(r)]));
            if EndingOf(run.log).None? && Outstanding(run.log).Some? && CarriedBy(Outstanding(run.log).value, r.action)
               && !r.status.NotTerminal?
            then next.log == run.log + [Folded(r)] else next == run
  {
    hide Note;
    RunKeeps(m, events);
    HistoryAppend(m, events, Fold(r));
    var run := After(m, events);
    OtherKeeps(m, run.state, run.log, r);
    AwaitsCommand(m, run.state, run.log);
  }

  lemma AwaitsCommand(m: Mission, s: State, log: seq<CombatEntry>)
    requires Inv(m, s, log)
    ensures s.final == EndingOf(log)
    ensures s.pending == match Outstanding(log) case None => None case Some(c) => Some(ActionOf(c))
  {
    hide Counted, WindowWon, TargetOf;
  }

  // ---- what the report says ----

  predicate IsAbandon(e: Event) { e.Abandon? }

  ghost function ReportOf(run: Run, events: seq<Event>): Report<Obs, Command, Action> {
    Report(run.state.ended, run.state.final, run.log, Count(events, IsAbandon) > 0)
  }

  lemma LookReports(m: Mission, s: State, obs: Obs)
    ensures var (s', move) := Decide(m, s, obs);
            if s.final.Some? then s' == s
            else if s'.final.Some? then Names(s'.ended, s'.final.value)
            else s'.ended == if move.Probe? then EndedComplete else s.ended
  {
    hide Fight, Nearest, Lookup;
    if obs.zombies.Some? && PinnedTarget(s, obs.zombies.value).Some? {
      var target := PinnedTarget(s, obs.zombies.value);
      FightReports(m, s.(target := target), m.assess(obs, target.value), target.value);
    }
  }

  lemma StepReports(m: Mission, run: Run, events: seq<Event>, e: Event)
    ensures Follows(ReportOf(run, events), ReportOf(Step(m, run, e), events + [e]))
  {
    CountAppend(events, e, IsAbandon);
    hide Decide, Count;
    if e.Look? { LookReports(m, run.state, e.obs); }
  }

  /** Over every run, abandonment included, the report says just that. */
  lemma {:induction false} ReportNamesEnding(m: Mission, events: seq<Event>)
    ensures Reported(ReportOf(After(m, events), events))
  {
    if events != [] {
      hide Probed, Reported, Follows, ReportOf, Step;
      var before := events[..|events| - 1];
      ReportNamesEnding(m, before);
      assert events == before + [events[|events| - 1]];
      StepReports(m, After(m, before), before, events[|events| - 1]);
      ReportKept(ReportOf(After(m, before), before), ReportOf(After(m, events), events));
    }
  }
}
