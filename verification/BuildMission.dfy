/** The build mission: one structure, one square, one command, once. */
module BuildMission {
  import opened Wrappers
  import opened MissionMoves

  const MAX_ATTEMPTS := 1

  datatype Limits = Limits(maxAttempts: nat, maxLooks: nat, maxProbes: nat) {
    predicate Valid() { 1 <= maxAttempts <= MAX_ATTEMPTS && 1 <= maxLooks && 1 <= maxProbes }
  }

  type Square = (int, int, int)

  /** What an observation says stands on the square: the objects on it, and whether
      the observer calls it taken. */
  datatype Reading = Reading(refs: set<string>, occupied: bool)

  /** `reading` is None when this observation cannot describe the square. */
  datatype Obs = Obs(at: nat, reading: Option<Reading>)

  datatype Refusal =
    | StructureUnknown | SquareUnreadable | SquareOccupied | WouldTrapPlayer | MaterialsMissing | MaterialsReserved

  /** The goal, the limits, and the building policy as a function of the observation:
      a refusal, or nothing.  Nothing is required of the policy. */
  datatype Mission = Mission(limits: Limits, structure: string, square: Square, assess: Obs -> Option<Refusal>)

  datatype Command = BuildAt(structure: string, square: Square)

  datatype Action = BuildAction | OtherAction(name: string)

  function ActionOf(c: Command): Action { BuildAction }

  datatype Phase = StartPhase | BuildPhase | ConfirmPhase

  function ReasonOf(r: Refusal): Reason {
    match r
    case StructureUnknown => OtherReason("RECIPE_UNKNOWN")
    case SquareUnreadable => OtherReason("TARGET_NOT_LOADED")
    case SquareOccupied => OtherReason("SQUARE_OCCUPIED")
    case WouldTrapPlayer => OtherReason("WOULD_TRAP_PLAYER")
    case MaterialsMissing => OtherReason("RECIPE_MATERIALS_MISSING")
    case MaterialsReserved => OtherReason("RESOURCE_RESERVED")
  }

  datatype State = State(
    stage: Phase, pending: Option<Action>, steps: nat, probes: nat, anySuccess: bool,
    baseline: Option<Reading>, attempts: nat, built: nat, looks: nat, placed: bool,
    refusal: Option<Refusal>, ended: Ending, final: Option<Move<Command>>)

  type BuildEntry = Entry<Obs, Command, Action>

  // ---- the decision, as a function of the state and the observation ----

  function Initial(): State {
    State(StartPhase, None, 0, 0, false, None, 0, 0, 0, false, None, EndedInProgress, None)
  }

  /** Something is on the square now that was not on it at first. */
  predicate Appeared(before: Option<Reading>, now: Option<Reading>) {
    && before.Some? && now.Some?
    && (now.value.refs - before.value.refs != {} || (now.value.occupied && !before.value.occupied))
  }

  function Seal(s: State, move: Move<Command>): (State, Move<Command>)
    requires move.Ends()
  {
    (s.(final := Some(move), ended := if move.Complete? then EndedComplete else move.ended), move)
  }

  function Finish(m: Mission, s: State): (State, Move<Command>) {
    if s.anySuccess then Seal(s, Complete)
    else if s.probes >= m.limits.maxProbes then Seal(s, Refuse(EndedNoProgress, NoProgress))
    else (s.(ended := EndedComplete, probes := s.probes + 1), Probe(s.probes + 1))
  }

  function First(kept: Option<Reading>, now: Option<Reading>): Option<Reading> { if kept.Some? then kept else now }

  function Decide(m: Mission, s: State, obs: Obs): (State, Move<Command>) {
    if s.final.Some? then (s, s.final.value)
    else if s.pending.Some? then (s, Wait)
    else
      var read := s.(baseline := First(s.baseline, obs.reading));
      if Appeared(read.baseline, obs.reading) then Finish(m, read.(placed := true))
      else if s.attempts >= m.limits.maxAttempts then
        var looked := read.(looks := s.looks + 1);
        if looked.looks < m.limits.maxLooks then (looked, Wait) else Seal(looked, Refuse(EndedUnconfirmed, NoProgress))
      else
        var refusal := m.assess(obs);
        if refusal.Some? then Seal(read.(refusal := refusal), Refuse(EndedRefused, ReasonOf(refusal.value)))
        else
          (read.(attempts := s.attempts + 1, stage := BuildPhase, steps := s.steps + 1, pending := Some(BuildAction)),
           Do(s.steps + 1, BuildAt(m.structure, m.square)))
  }

  predicate Accepts(s: State, r: ActionResult<Action>) {
    s.final.None? && !r.status.NotTerminal? && s.pending == Some(r.action)
  }

  function Note(s: State, r: ActionResult<Action>): State {
    if !Accepts(s, r) then s
    else
      s.(pending := None, anySuccess := s.anySuccess || r.status.Succeeded?,
         built := s.built + (if r.status.Succeeded? then 1 else 0), stage := ConfirmPhase)
  }

  function Abandoned(s: State): State {
    if s.ended.EndedInProgress? then s.(ended := EndedCancelled) else s
  }

  // ---- runs ----

  datatype Event = Look(obs: Obs) | Fold(result: ActionResult<Action>) | Abandon

  datatype Run = Run(state: State, log: seq<BuildEntry>)

  ghost function Step(m: Mission, run: Run, e: Event): Run {
    match e
    case Look(obs) =>
      var (s, move) := Decide(m, run.state, obs);
      Run(s, run.log + [Told(obs, move)])
    case Fold(r) =>
      Run(Note(run.state, r), if Accepts(run.state, r) then run.log + [Folded(r)] else run.log)
    case Abandon => run.(state := Abandoned(run.state))
  }

  ghost function After(m: Mission, events: seq<Event>): Run {
    if events == [] then Run(Initial(), [])
    else Step(m, After(m, events[..|events| - 1]), events[|events| - 1])
  }

  // ---- the mission object ----

  /** The mission as the program keeps it; `history` is every call it has had. */
  class BuildStructureMission {
    const mission: Mission
    var stage: Phase
    var pending: Option<Action>
    var steps: nat
    var probes: nat
    var anySuccess: bool
    var baseline: Option<Reading>
    var attempts: nat
    var built: nat
    var looks: nat
    var placed: bool
    var refusal: Option<Refusal>
    var ended: Ending
    var final: Option<Move<Command>>
    ghost var history: seq<Event>

    ghost function Snapshot(): State
      reads this
    {
      State(stage, pending, steps, probes, anySuccess, baseline, attempts, built, looks, placed, refusal, ended, final)
    }

    ghost predicate Valid()
      reads this
    {
      mission.limits.Valid() && Snapshot() == After(mission, history).state
    }

    constructor (mission: Mission)
      requires mission.limits.Valid()
      ensures Valid() && this.mission == mission && history == []
    {
      this.mission := mission;
      stage, pending, steps, probes, anySuccess := StartPhase, None, 0, 0, false;
      baseline, attempts, built, looks, placed := None, 0, 0, 0, false;
      refusal, ended, final, history := None, EndedInProgress, None, [];
    }

    method NoteResult(result: ActionResult<Action>)
      requires Valid()
      modifies this
      ensures Valid() && history == old(history) + [Fold(result)]
    {
      HistoryAppend(mission, history, Fold(result));
      history := history + [Fold(result)];
      if final.Some? || result.status.NotTerminal? { return; }
      if pending.None? || result.action != pending.value { return; }
      pending := None;
      if result.status.Succeeded? {
        anySuccess := true;
        built := built + 1;
      }
      stage := ConfirmPhase;
    }

    method MarkAbandoned()
      requires Valid()
      modifies this
      ensures Valid() && history == old(history) + [Abandon]
    {
      HistoryAppend(mission, history, Abandon);
      history := history + [Abandon];
      if ended.EndedInProgress? { ended := EndedCancelled; }
    }

    /** The answer is the one the run of the whole history gives. */
    method NextStep(obs: Obs) returns (move: Move<Command>)
      requires Valid()
      modifies this
      ensures Valid() && history == old(history) + [Look(obs)]
      ensures After(mission, history).log == After(mission, old(history)).log + [Told(obs, move)]
    {
      HistoryAppend(mission, history, Look(obs));
      move := Decides(obs);
      history := history + [Look(obs)];
    }

    method Decides(obs: Obs) returns (move: Move<Command>)
      modifies this
      ensures (Snapshot(), move) == Decide(mission, old(Snapshot()), obs) && history == old(history)
    {
      if final.Some? { return final.value; }
      if pending.Some? { return Wait; }
      if obs.reading.Some? && baseline.None? { baseline := obs.reading; }
      if Appeared(baseline, obs.reading) {
        placed := true;
        move := Finishes();
        return;
      }
      if attempts >= mission.limits.maxAttempts {
        looks := looks + 1;
        if looks < mission.limits.maxLooks { return Wait; }
        move := Seals(Refuse(EndedUnconfirmed, NoProgress));
        return;
      }
      var verdict := mission.assess(obs);
      if verdict.Some? {
        refusal := verdict;
        move := Seals(Refuse(EndedRefused, ReasonOf(verdict.value)));
        return;
      }
      attempts := attempts + 1;
      move := Emits(BuildAt(mission.structure, mission.square));
    }

    method Finishes() returns (move: Move<Command>)
      modifies this`ended, this`final, this`probes
      ensures (Snapshot(), move) == Finish(mission, old(Snapshot()))
    {
      if anySuccess {
        move := Seals(Complete);
        return;
      }
      if probes >= mission.limits.maxProbes {
        move := Seals(Refuse(EndedNoProgress, NoProgress));
        return;
      }
      ended := EndedComplete;
      probes := probes + 1;
      move := Probe(probes);
    }

    method Seals(answer: Move<Command>) returns (move: Move<Command>)
      requires answer.Ends()
      modifies this`ended, this`final
      ensures (Snapshot(), move) == Seal(old(Snapshot()), answer)
    {
      ended := if answer.Complete? then EndedComplete else answer.ended;
      final := Some(answer);
      move := answer;
    }

    method Emits(c: Command) returns (move: Move<Command>)
      modifies this`stage, this`steps, this`pending
      ensures stage == BuildPhase && steps == old(steps) + 1 && pending == Some(BuildAction) && move == Do(steps, c)
    {
      stage := BuildPhase;
      steps := steps + 1;
      pending := Some(ActionOf(c));
      move := Do(steps, c);
    }
  }

  lemma HistoryAppend(m: Mission, events: seq<Event>, e: Event)
    ensures After(m, events + [e]) == Step(m, After(m, events), e)
  {
    assert (events + [e])[..|events|] == events;
  }
}
