/** The treat-wounds mission: dress every bleeding wound, one dressing at a time. */
module TreatMission {
  import opened Wrappers
  import opened MissionMoves

  datatype Limits = Limits(maxWounds: nat, maxFailures: nat, maxProbes: nat) {
    predicate Valid() { 1 <= maxWounds && 1 <= maxFailures && 1 <= maxProbes }
  }

  /** What the observation shows: how many wounds bleed, and whether the carried
      things were reported at all. */
  datatype Obs = Obs(at: nat, bleeding: nat, inventory: bool)

  datatype Selection = Chosen(part: string, item: string, transfer: bool) | NoneTreatable | NoDressing

  /** The limits, and the medical policy as a function of the observation.  Nothing is
      required of the policy. */
  datatype Mission = Mission(limits: Limits, select: Obs -> Selection)

  datatype Command = EnsureMain(item: string) | Bandage(part: string, item: string)

  datatype Action = TransferAction | BandageAction

  function ActionOf(c: Command): Action { if c.Bandage? then BandageAction else TransferAction }

  datatype Phase = StartPhase | TransferPhase | TreatPhase

  datatype State = State(
    stage: Phase, pending: Option<Action>, steps: nat, probes: nat, failures: nat, anySuccess: bool,
    started: set<string>, bandaged: seq<string>, pendingPart: Option<string>, ended: Ending, final: Option<Move<Command>>)

  type TreatEntry = Entry<Obs, Command, Action>

  function Initial(): State {
    State(StartPhase, None, 0, 0, 0, false, {}, [], None, EndedInProgress, None)
  }

  function Seal(s: State, move: Move<Command>): (State, Move<Command>)
    requires move.Ends()
  {
    (s.(final := Some(move), ended := if move.Complete? then EndedComplete else move.ended), move)
  }

  function Finish(m: Mission, s: State): (State, Move<Command>) {
    if s.anySuccess then Seal(s, Complete)
    else if s.probes >= m.limits.maxProbes then Seal(s, Refuse(EndedNoProgress, NoProgress))
    else (s.(ended := EndedComplete, probes := s.probes + 1), Probe(s.probes + 1))
  }

  /** The command a choice calls for, and the part it is counted under. */
  function CommandFor(c: Selection): Command
    requires c.Chosen?
  {
    if c.transfer then EnsureMain(c.item) else Bandage(c.part, c.item)
  }

  function Dress(m: Mission, s: State, c: Selection): (State, Move<Command>)
    requires c.Chosen?
  {
    if c.part !in s.started && |s.started| >= m.limits.maxWounds then Seal(s, Refuse(EndedNoProgress, NoProgress))
    else
      (s.(started := s.started + {c.part}, stage := if c.transfer then TransferPhase else TreatPhase,
          pendingPart := if c.transfer then s.pendingPart else Some(c.part),
          steps := s.steps + 1, pending := Some(ActionOf(CommandFor(c)))),
       Do(s.steps + 1, CommandFor(c)))
  }

  function Decide(m: Mission, s: State, obs: Obs): (State, Move<Command>) {
    if s.final.Some? then (s, s.final.value)
    else if s.pending.Some? then (s, Wait)
    else if s.failures >= m.limits.maxFailures then Seal(s, Refuse(EndedNoProgress, NoProgress))
    else if obs.bleeding == 0 then Finish(m, s)
    else if !obs.inventory then Seal(s, Refuse(EndedNoProgress, CapabilityUnavailable))
    else match m.select(obs)
      case NoneTreatable => Seal(s, Refuse(EndedNoProgress, PreconditionFailed))
      case NoDressing => Seal(s, Refuse(EndedExhausted, PreconditionFailed))
      case Chosen(_, _, _) => Dress(m, s, m.select(obs))
  }

  predicate Accepts(s: State, r: ActionResult<Action>) {
    s.final.None? && !r.status.NotTerminal? && s.pending == Some(r.action)
  }

  function Note(s: State, r: ActionResult<Action>): State {
    if !Accepts(s, r) then s
    else
      var won := r.status.Succeeded?;
      s.(pending := None, anySuccess := s.anySuccess || won, failures := if won then 0 else s.failures + 1,
         bandaged := if won && s.stage.TreatPhase? && s.pendingPart.Some? then s.bandaged + [s.pendingPart.value] else s.bandaged,
         pendingPart := None, stage := StartPhase)
  }

  function Abandoned(s: State): State {
    if s.ended.EndedInProgress? then s.(ended := EndedCancelled) else s
  }

  // ---- runs ----

  datatype Event = Look(obs: Obs) | Fold(result: ActionResult<Action>) | Abandon

  datatype Run = Run(state: State, log: seq<TreatEntry>)

  ghost function Step(m: Mission, run: Run, e: Event): Run {
    match e
    case Look(obs) =>
      var (s, move) := Decide(m, run.state, obs);
      Run(s, run.log + [Told(obs, move)])
    case Fold(r) =>
      Run(Note(run.state, r), if Accepts(run.state, r) then run.log + [Folded(r)] else run.log)
    case Abandon => run.(state := Abandoned(run.state))
  }

  ghost function After(m: Mission, events: seq<Event>): Run {
    if events == [] then Run(Initial(), [])
    else Step(m, After(m, events[..|events| - 1]), events[|events| - 1])
  }

  // ---- the mission object ----

  /** The mission as the program keeps it; `history` is every call it has had. */
  class TreatWoundsMission {
    const mission: Mission
    var stage: Phase
    var pending: Option<Action>
    var steps: nat
    var probes: nat
    var failures: nat
    var anySuccess: bool
    var started: set<string>
    var bandaged: seq<string>
    var pendingPart: Option<string>
    var ended: Ending
    var final: Option<Move<Command>>
    ghost var history: seq<Event>

    ghost function Snapshot(): State
      reads this
    {
      State(stage, pending, steps, probes, failures, anySuccess, started, bandaged, pendingPart, ended, final)
    }

    ghost predicate Valid()
      reads this
    {
      mission.limits.Valid() && Snapshot() == After(mission, history).state
    }

    constructor (mission: Mission)
      requires mission.limits.Valid()
      ensures Valid() && this.mission == mission && history == []
    {
      this.mission := mission;
      stage, pending, steps, probes, failures := StartPhase, None, 0, 0, 0;
      anySuccess, started, bandaged, pendingPart := false, {}, [], None;
      ended, final, history := EndedInProgress, None, [];
    }

    method NoteResult(result: ActionResult<Action>)
      requires Valid()
      modifies this
      ensures Valid() && history == old(history) + [Fold(result)]
    {
      HistoryAppend(mission, history, Fold(result));
      history := history + [Fold(result)];
      if final.Some? || result.status.NotTerminal? { return; }
      if pending.None? || result.action != pending.value { return; }
      Notes(result.status.Succeeded?);
    }

    method Notes(won: bool)
      modifies this`pending, this`anySuccess, this`failures, this`bandaged, this`pendingPart, this`stage
      ensures pending == None && pendingPart == None && stage == StartPhase
      ensures anySuccess == (old(anySuccess) || won) && failures == if won then 0 else old(failures) + 1
      ensures bandaged == if won && old(stage).TreatPhase? && old(pendingPart).Some?
                          then old(bandaged) + [old(pendingPart).value] else old(bandaged)
    {
      pending := None;
      if won {
        anySuccess := true;
        failures := 0;
        if stage.TreatPhase? && pendingPart.Some? {
          bandaged := bandaged + [pendingPart.value];
        }
      } else {
        failures := failures + 1;
      }
      pendingPart := None;
      stage := StartPhase;
    }

    method MarkAbandoned()
      requires Valid()
      modifies this
      ensures Valid() && history == old(history) + [Abandon]
    {
      HistoryAppend(mission, history, Abandon);
      history := history + [Abandon];
      if ended.EndedInProgress? { ended := EndedCancelled; }
    }

    /** The answer is the one the run of the whole history gives. */
    method NextStep(obs: Obs) returns (move: Move<Command>)
      requires Valid()
      modifies this
      ensures Valid() && history == old(history) + [Look(obs)]
      ensures After(mission, history).log == After(mission, old(history)).log + [Told(obs, move)]
    {
      HistoryAppend(mission, history, Look(obs));
      move := Decides(obs);
      history := history + [Look(obs)];
    }

    method Decides(obs: Obs) returns (move: Move<Command>)
      modifies this
      ensures (Snapshot(), move) == Decide(mission, old(Snapshot()), obs) && history == old(history)
    {
      if final.Some? { return final.value; }
      if pending.Some? { return Wait; }
      if failures >= mission.limits.maxFailures {
        move := Seals(Refuse(EndedNoProgress, NoProgress));
        return;
      }
      if obs.bleeding == 0 {
        move := Finishes();
        return;
      }
      if !obs.inventory {
        move := Seals(Refuse(EndedNoProgress, CapabilityUnavailable));
        return;
      }
      match mission.select(obs) {
        case NoneTreatable => move := Seals(Refuse(EndedNoProgress, PreconditionFailed));
        case NoDressing => move := Seals(Refuse(EndedExhausted, PreconditionFailed));
        case Chosen(_, _, _) => move := Dresses(mission.select(obs));
      }
    }

    method Dresses(choice: Selection) returns (move: Move<Command>)
      requires choice.Chosen?
      modifies this
      ensures (Snapshot(), move) == Dress(mission, old(Snapshot()), choice) && history == old(history)
    {
      if choice.part !in started && |started| >= mission.limits.maxWounds {
        move := Seals(Refuse(EndedNoProgress, NoProgress));
        return;
      }
      started := started + {choice.part};
      if !choice.transfer { pendingPart := Some(choice.part); }
      move := Emits(if choice.transfer then TransferPhase else TreatPhase, CommandFor(choice));
    }

    method Finishes() returns (move: Move<Command>)
      modifies this`ended, this`final, this`probes
      ensures (Snapshot(), move) == Finish(mission, old(Snapshot()))
    {
      if anySuccess {
        move := Seals(Complete);
        return;
      }
      if probes >= mission.limits.maxProbes {
        move := Seals(Refuse(EndedNoProgress, NoProgress));
        return;
      }
      ended := EndedComplete;
      probes := probes + 1;
      move := Probe(probes);
    }

    method Seals(answer: Move<Command>) returns (move: Move<Command>)
      requires answer.Ends()
      modifies this`ended, this`final
      ensures (Snapshot(), move) == Seal(old(Snapshot()), answer)
    {
      ended := if answer.Complete? then EndedComplete else answer.ended;
      final := Some(answer);
      move := answer;
    }

    method Emits(stage: Phase, c: Command) returns (move: Move<Command>)
      modifies this`stage, this`steps, this`pending
      ensures this.stage == stage && steps == old(steps) + 1 && pending == Some(ActionOf(c)) && move == Do(steps, c)
    {
      this.stage := stage;
      steps := steps + 1;
      pending := Some(ActionOf(c));
      move := Do(steps, c);
    }
  }

  lemma HistoryAppend(m: Mission, events: seq<Event>, e: Event)
    ensures After(m, events + [e]) == Step(m, After(m, events), e)
  {
    assert (events + [e])[..|events|] == events;
  }
}
