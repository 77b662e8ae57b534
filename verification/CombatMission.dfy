/** The combat mission: one zombie, bounded windows, retreat as the ending. */
module CombatMission {
  import opened Wrappers
  import opened MissionMoves
  import opened Ordering

  const MAX_WINDOWS := 4

  datatype Limits = Limits(maxWindows: nat, maxFailures: nat, maxProbes: nat) {
    predicate Valid() {
      1 <= maxWindows <= MAX_WINDOWS && 1 <= maxFailures && 1 <= maxProbes
    }
  }

  /** One observed zombie.  `down`: its state is reported and is a down state. */
  datatype Zombie = Zombie(id: string, distance: real, down: bool)

  /** `zombies` is None when the observation carries no nearby tier. */
  datatype Obs = Obs(seq_: nat, zombies: Option<seq<Zombie>>)

  datatype Verdict = WeaponUnusable | RefusedOther(token: string) | ShoveFirst | Engage
  {
    predicate Refused() { WeaponUnusable? || RefusedOther? }
  }

  /** The limits, and the engagement policy as a function of the observation and
      the target.  Nothing is required of the policy. */
  datatype Mission = Mission(limits: Limits, assess: (Obs, string) -> Verdict)

  datatype Command = EquipBest | Shove(target: string) | EngageTarget(target: string) | Retreat

  datatype Action = EquipAction | ShoveAction | EngageAction | RetreatAction

  function ActionOf(c: Command): Action {
    match c
    case EquipBest => EquipAction
    case Shove(_) => ShoveAction
    case EngageTarget(_) => EngageAction
    case Retreat => RetreatAction
  }

  datatype Phase = StartPhase | EquipPhase | ShovePhase | EngagePhase | RetreatPhase

  datatype State = State(
    stage: Phase, pending: Option<Action>, steps: nat, probes: nat, failures: nat, anySuccess: bool,
    target: Option<string>, windows: nat, windowSucceeded: bool, shoves: nat, equipRequested: bool,
    refusal: Option<Verdict>, endAfterRetreat: Option<(Ending, Reason)>,
    ended: Ending, final: Option<Move<Command>>)

  type CombatEntry = Entry<Obs, Command, Action>

  // ---- choosing the one target ----

  function Reach(z: Zombie): real { if z.distance < 0.0 then 0.0 else z.distance }

  predicate NoFarther(a: Zombie, b: Zombie) {
    Reach(a) < Reach(b) || (Reach(a) == Reach(b) && StringLeq(a.id, b.id))
  }

  /** The nearest zombie, ties broken on the reference. */
  function Nearest(zombies: seq<Zombie>): (best: Option<Zombie>)
    ensures best.None? <==> zombies == []
    ensures best.Some? ==> best.value in zombies && forall z :: z in zombies ==> NoFarther(best.value, z)
  {
    if zombies == [] then None
    else
      var last := zombies[|zombies| - 1];
      var rest := Nearest(zombies[..|zombies| - 1]);
      assert forall z :: z in zombies ==> z == last || z in zombies[..|zombies| - 1];
      StringLeqTotal(last.id, last.id);
      if rest.None? then Some(last)
      else if NoFarther(rest.value, last) then rest
      else
        NoFartherTotal(rest.value, last);
        assert forall z :: z in zombies[..|zombies| - 1] ==> NoFarther(last, z) by {
          forall z | z in zombies[..|zombies| - 1] ensures NoFarther(last, z) {
            NoFartherTransitive(last, rest.value, z);
          }
        }
        Some(last)
  }

  lemma NoFartherTotal(a: Zombie, b: Zombie)
    ensures NoFarther(a, b) || NoFarther(b, a)
  {
    StringLeqTotal(a.id, b.id);
  }

  lemma NoFartherTransitive(a: Zombie, b: Zombie, c: Zombie)
    requires NoFarther(a, b) && NoFarther(b, c)
    ensures NoFarther(a, c)
  {
    if Reach(a) == Reach(b) == Reach(c) { StringLeqTransitive(a.id, b.id, c.id); }
  }

  /** The first zombie with a reference. */
  function Lookup(zombies: seq<Zombie>, id: string): (found: Option<Zombie>)
    ensures found.None? <==> forall z :: z in zombies ==> z.id != id
    ensures found.Some? ==> exists i :: 0 <= i < |zombies| && zombies[i] == found.value && found.value.id == id
                                        && forall j :: 0 <= j < i ==> zombies[j].id != id
  {
    if zombies == [] then None
    else if zombies[0].id == id then Some(zombies[0])
    else Lookup(zombies[1..], id)
  }

  // ---- the decision, as a function of the state and the observation ----

  function Initial(): State {
    State(StartPhase, None, 0, 0, 0, false, None, 0, false, 0, false, None, None, EndedInProgress, None)
  }

  function Seal(s: State, move: Move<Command>): (State, Move<Command>)
    requires move.Ends()
  {
    (s.(final := Some(move), ended := if move.Complete? then EndedComplete else move.ended), move)
  }

  function Emit(s: State, stage: Phase, c: Command): (State, Move<Command>) {
    (s.(stage := stage, steps := s.steps + 1, pending := Some(ActionOf(c))), Do(s.steps + 1, c))
  }

  function Finish(m: Mission, s: State): (State, Move<Command>) {
    if s.anySuccess then Seal(s, Complete)
    else if s.probes >= m.limits.maxProbes then Seal(s, Refuse(EndedNoProgress, NoProgress))
    else (s.(ended := EndedComplete, probes := s.probes + 1), Probe(s.probes + 1))
  }

  function RetreatThenEnd(s: State, ended: Ending): (State, Move<Command>) {
    Emit(s.(endAfterRetreat := Some((ended, ThreatInterrupted))), RetreatPhase, Retreat)
  }

  /** The policy's part: the target is pinned, observed and standing. */
  function Fight(m: Mission, s: State, verdict: Verdict, target: string): (State, Move<Command>) {
    if verdict.WeaponUnusable? && !s.equipRequested then
      Emit(s.(equipRequested := true), EquipPhase, EquipBest)
    else if verdict.Refused() then
      RetreatThenEnd(s.(refusal := Some(verdict)), EndedRetreated)
    else if s.windows >= m.limits.maxWindows then
      RetreatThenEnd(s, EndedExhausted)
    else if verdict.ShoveFirst? then
      Emit(s.(shoves := s.shoves + 1), ShovePhase, Shove(target))
    else
      Emit(s.(windows := s.windows + 1), EngagePhase, EngageTarget(target))
  }

  function PinnedTarget(s: State, zombies: seq<Zombie>): Option<string> {
    if s.target.Some? then s.target
    else match Nearest(zombies)
      case None => None
      case Some(z) => Some(z.id)
  }

  function Decide(m: Mission, s: State, obs: Obs): (State, Move<Command>) {
    if s.final.Some? then (s, s.final.value)
    else if s.pending.Some? then (s, Wait)
    else if s.endAfterRetreat.Some? then
      Seal(s, Refuse(s.endAfterRetreat.value.0, s.endAfterRetreat.value.1))
    else if s.failures >= m.limits.maxFailures then Seal(s, Refuse(EndedNoProgress, NoProgress))
    else if obs.zombies.None? then Seal(s, Refuse(EndedNoProgress, CapabilityUnavailable))
    else
      var target := PinnedTarget(s, obs.zombies.value);
      if target.None? then Seal(s, Refuse(EndedNoTarget, PreconditionFailed))
      else
        var pinned := s.(target := target);
        var observed := Lookup(obs.zombies.value, target.value);
        if observed.Some? && observed.value.down then Finish(m, pinned)
        else if observed.None? && s.windowSucceeded then Finish(m, pinned)
        else if observed.None? then Seal(pinned, Refuse(EndedLost, PreconditionFailed))
        else Fight(m, pinned, m.assess(obs, target.value), target.value)
  }

  predicate Accepts(s: State, r: ActionResult<Action>) {
    s.final.None? && !r.status.NotTerminal? && s.pending == Some(r.action)
  }

  function Note(s: State, r: ActionResult<Action>): State {
    if !Accepts(s, r) then s
    else
      var won := r.status.Succeeded?;
      s.(pending := None,
         anySuccess := s.anySuccess || won,
         failures := if won then 0 else if s.endAfterRetreat.None? then s.failures + 1 else s.failures,
         windowSucceeded := s.windowSucceeded || (won && s.stage.EngagePhase?),
         stage := if s.endAfterRetreat.None? then StartPhase else RetreatPhase)
  }

  function Abandoned(s: State): State {
    if s.ended.EndedInProgress? then s.(ended := EndedCancelled) else s
  }

  // ---- runs: any interleaving of observations, results and abandonment ----

  datatype Event = Look(obs: Obs) | Fold(result: ActionResult<Action>) | Abandon

  datatype Run = Run(state: State, log: seq<CombatEntry>)

  ghost function Step(m: Mission, run: Run, e: Event): Run {
    match e
    case Look(obs) =>
      var (s, move) := Decide(m, run.state, obs);
      Run(s, run.log + [Told(obs, move)])
    case Fold(r) =>
      Run(Note(run.state, r), if Accepts(run.state, r) then run.log + [Folded(r)] else run.log)
    case Abandon => run.(state := Abandoned(run.state))
  }

  ghost function After(m: Mission, events: seq<Event>): Run {
    if events == [] then Run(Initial(), [])
    else Step(m, After(m, events[..|events| - 1]), events[|events| - 1])
  }

  // ---- the mission object ----

  /** The mission as the program keeps it.  `history` is every call it has had;
      `Valid` says its fields are where that run leaves them. */
  class EngageZombieMission {
    const mission: Mission
    var stage: Phase
    var pending: Option<Action>
    var steps: nat
    var probes: nat
    var failures: nat
    var anySuccess: bool
    var target: Option<string>
    var windows: nat
    var windowSucceeded: bool
    var shoves: nat
    var equipRequested: bool
    var refusal: Option<Verdict>
    var endAfterRetreat: Option<(Ending, Reason)>
    var ended: Ending
    var final: Option<Move<Command>>
    ghost var history: seq<Event>

    ghost function Snapshot(): State
      reads this
    {
      State(stage, pending, steps, probes, failures, anySuccess, target, windows, windowSucceeded,
            shoves, equipRequested, refusal, endAfterRetreat, ended, final)
    }

    ghost predicate Valid()
      reads this
    {
      mission.limits.Valid() && Snapshot() == After(mission, history).state
    }

    constructor (mission: Mission)
      requires mission.limits.Valid()
      ensures Valid() && this.mission == mission && history == []
    {
      this.mission := mission;
      stage, pending, steps, probes, failures := StartPhase, None, 0, 0, 0;
      anySuccess, target, windows, windowSucceeded := false, None, 0, false;
      shoves, equipRequested, refusal, endAfterRetreat := 0, false, None, None;
      ended, final, history := EndedInProgress, None, [];
    }

    method NoteResult(result: ActionResult<Action>)
      requires Valid()
      modifies this
      ensures Valid() && history == old(history) + [Fold(result)]
    {
      HistoryAppend(mission, history, Fold(result));
      history := history + [Fold(result)];
      if final.Some? || result.status.NotTerminal? { return; }
      if pending.None? || result.action != pending.value { return; }
      pending := None;
      if result.status.Succeeded? {
        anySuccess := true;
        failures := 0;
        if stage.EngagePhase? { windowSucceeded := true; }
      } else if endAfterRetreat.None? {
        failures := failures + 1;
      }
      stage := if endAfterRetreat.None? then StartPhase else RetreatPhase;
    }

    method MarkAbandoned()
      requires Valid()
      modifies this
      ensures Valid() && history == old(history) + [Abandon]
    {
      HistoryAppend(mission, history, Abandon);
      history := history + [Abandon];
      if ended.EndedInProgress? { ended := EndedCancelled; }
    }

    /** The answer is the one the run of the whole history gives. */
    method NextStep(obs: Obs) returns (move: Move<Command>)
      requires Valid()
      modifies this
      ensures Valid() && history == old(history) + [Look(obs)]
      ensures After(mission, history).log == After(mission, old(history)).log + [Told(obs, move)]
    {
      HistoryAppend(mission, history, Look(obs));
      move := Decides(obs);
      history := history + [Look(obs)];
    }

    method Decides(obs: Obs) returns (move: Move<Command>)
      modifies this
      ensures (Snapshot(), move) == Decide(mission, old(Snapshot()), obs) && history == old(history)
    {
      if final.Some? { return final.value; }
      if pending.Some? { return Wait; }
      if endAfterRetreat.Some? {
        move := Seals(Refuse(endAfterRetreat.value.0, endAfterRetreat.value.1));
        return;
      }
      if failures >= mission.limits.maxFailures {
        move := Seals(Refuse(EndedNoProgress, NoProgress));
        return;
      }
      if obs.zombies.None? {
        move := Seals(Refuse(EndedNoProgress, CapabilityUnavailable));
        return;
      }
      if target.None? {
        var nearest := Nearest(obs.zombies.value);
        if nearest.None? {
          move := Seals(Refuse(EndedNoTarget, PreconditionFailed));
          return;
        }
        target := Some(nearest.value.id);
      }
      var observed := Lookup(obs.zombies.value, target.value);
      if observed.Some? && observed.value.down {
        move := Finishes();
        return;
      }
      if observed.None? {
        if windowSucceeded {
          move := Finishes();
        } else {
          move := Seals(Refuse(EndedLost, PreconditionFailed));
        }
        return;
      }
      move := Fights(mission.assess(obs, target.value), target.value);
    }

    method Fights(verdict: Verdict, id: string) returns (move: Move<Command>)
      modifies this
      ensures (Snapshot(), move) == Fight(mission, old(Snapshot()), verdict, id) && history == old(history)
    {
      if verdict.Refused() {
        if verdict.WeaponUnusable? && !equipRequested {
          equipRequested := true;
          move := Emits(EquipPhase, EquipBest);
          return;
        }
        refusal := Some(verdict);
        move := RetreatsThenEnds(EndedRetreated);
        return;
      }
      if windows >= mission.limits.maxWindows {
        move := RetreatsThenEnds(EndedExhausted);
        return;
      }
      if verdict.ShoveFirst? {
        shoves := shoves + 1;
        move := Emits(ShovePhase, Shove(id));
        return;
      }
      windows := windows + 1;
      move := Emits(EngagePhase, EngageTarget(id));
    }

    method RetreatsThenEnds(ended: Ending) returns (move: Move<Command>)
      modifies this
      ensures (Snapshot(), move) == RetreatThenEnd(old(Snapshot()), ended) && history == old(history)
    {
      endAfterRetreat := Some((ended, ThreatInterrupted));
      move := Emits(RetreatPhase, Retreat);
    }

    method Finishes() returns (move: Move<Command>)
      modifies this
      ensures (Snapshot(), move) == Finish(mission, old(Snapshot())) && history == old(history)
    {
      if anySuccess {
        move := Seals(Complete);
        return;
      }
      if probes >= mission.limits.maxProbes {
        move := Seals(Refuse(EndedNoProgress, NoProgress));
        return;
      }
      ended := EndedComplete;
      probes := probes + 1;
      move := Probe(probes);
    }

    method Seals(answer: Move<Command>) returns (move: Move<Command>)
      requires answer.Ends()
      modifies this
      ensures (Snapshot(), move) == Seal(old(Snapshot()), answer) && history == old(history)
    {
      ended := if answer.Complete? then EndedComplete else answer.ended;
      final := Some(answer);
      move := answer;
    }

    method Emits(stage: Phase, c: Command) returns (move: Move<Command>)
      modifies this
      ensures (Snapshot(), move) == Emit(old(Snapshot()), stage, c) && history == old(history)
    {
      this.stage := stage;
      steps := steps + 1;
      pending := Some(ActionOf(c));
      move := Do(steps, c);
    }
  }

  lemma HistoryAppend(m: Mission, events: seq<Event>, e: Event)
    ensures After(m, events + [e]) == Step(m, After(m, events), e)
  {
    assert (events + [e])[..|events|] == events;
  }
}
