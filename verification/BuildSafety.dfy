/** What holds of every run of the build mission, whatever is observed, whatever the
    policy answers and however results are interleaved. */
module BuildSafety {
  import opened Wrappers
  import opened MissionMoves
  import opened BuildMission

  predicate IsCommand(e: BuildEntry) { e.Commands() }
  predicate IsSuccess(e: BuildEntry) { e.Succeeds() }
  predicate IsProbe(e: BuildEntry) { e.Told? && e.move.Probe? }

  /** No ending yet and no command out: this call decides something. */
  ghost predicate Idle(past: seq<BuildEntry>) { EndingOf(past).None? && Outstanding(past).None? }

  /** What the square held when the mission first managed to read it. */
  ghost function Baseline(log: seq<BuildEntry>): Option<Reading> {
    if log == [] then None
    else
      var past, last := log[..|log| - 1], log[|log| - 1];
      if last.Told? && Idle(past) then First(Baseline(past), last.obs.reading) else Baseline(past)
  }

  /** Calls with nothing in flight and no ending before them. */
  ghost function IdleCalls(log: seq<BuildEntry>): nat {
    if log == [] then 0
    else IdleCalls(log[..|log| - 1]) + if log[|log| - 1].Told? && Idle(log[..|log| - 1]) then 1 else 0
  }

  /** Those that came after the command and found nothing new on the square. */
  ghost function FruitlessLooks(log: seq<BuildEntry>): nat {
    if log == [] then 0
    else
      var past, last := log[..|log| - 1], log[|log| - 1];
      FruitlessLooks(past)
      + if last.Told? && Idle(past) && Count(past, IsCommand) > 0 && !Seen(past, last.obs) then 1 else 0
  }

  /** The square shows something it did not hold at first. */
  ghost predicate Seen(past: seq<BuildEntry>, obs: Obs) {
    Appeared(First(Baseline(past), obs.reading), obs.reading)
  }

  lemma BuildLogAppend(log: seq<BuildEntry>, e: BuildEntry)
    ensures Baseline(log + [e]) == if e.Told? && Idle(log) then First(Baseline(log), e.obs.reading) else Baseline(log)
    ensures IdleCalls(log + [e]) == IdleCalls(log) + (if e.Told? && Idle(log) then 1 else 0)
    ensures FruitlessLooks(log + [e]) ==
            FruitlessLooks(log) + (if e.Told? && Idle(log) && Count(log, IsCommand) > 0 && !Seen(log, e.obs) then 1 else 0)
    ensures Count(log + [e], IsCommand) == Count(log, IsCommand) + (if IsCommand(e) then 1 else 0)
    ensures Count(log + [e], IsSuccess) == Count(log, IsSuccess) + (if IsSuccess(e) then 1 else 0)
    ensures Count(log + [e], IsProbe) == Count(log, IsProbe) + (if IsProbe(e) then 1 else 0)
  {
    CountAppend(log, e, IsCommand);
    CountAppend(log, e, IsSuccess);
    CountAppend(log, e, IsProbe);
    assert (log + [e])[..|log|] == log;
  }

  // ---- what justifies one answer, given everything before it ----

  /** An ending is replayed; while the command is out the answer is to wait. */
  ghost predicate Settled(past: seq<BuildEntry>, move: Move<Command>) {
    && (EndingOf(past).Some? ==> move == EndingOf(past).value)
    && (EndingOf(past).None? && Outstanding(past).Some? ==> move.Wait?)
  }

  /** The command goes out exactly when none has, nothing new stands on the square and
      the policy accepts this very observation; it names the goal's structure and
      square.  A refusing policy ends the mission instead. */
  ghost predicate Asked(m: Mission, past: seq<BuildEntry>, obs: Obs, move: Move<Command>) {
    var free := Idle(past) && !Seen(past, obs) && Count(past, IsCommand) == 0;
    && (move.Do? <==> free && m.assess(obs).None?)
    && (move.Do? ==> move == Do(1, BuildAt(m.structure, m.square)))
    && (free && m.assess(obs).Some? ==> move == Refuse(EndedRefused, ReasonOf(m.assess(obs).value)))
  }

  /** Completion needs a command of this mission to have succeeded, and a difference
      between the first reading of the square and this one; a difference with no
      success is worth a probe, and then nothing. */
  ghost predicate Earned(m: Mission, past: seq<BuildEntry>, obs: Obs, move: Move<Command>) {
    Idle(past) ==>
      && (move.Complete? <==> Seen(past, obs) && Count(past, IsSuccess) > 0)
      && (Seen(past, obs) && Count(past, IsSuccess) == 0 ==>
            if Count(past, IsProbe) < m.limits.maxProbes then move == Probe(Count(past, IsProbe) + 1)
            else move == Refuse(EndedNoProgress, NoProgress))
  }

  /** After the command, looks that show nothing new are waited out and then reported. */
  ghost predicate Confirmed(m: Mission, past: seq<BuildEntry>, obs: Obs, move: Move<Command>) {
    Idle(past) && Count(past, IsCommand) > 0 && !Seen(past, obs) ==>
      if FruitlessLooks(past) + 1 < m.limits.maxLooks then move.Wait? else move == Refuse(EndedUnconfirmed, NoProgress)
  }

  ghost predicate Justified(m: Mission, past: seq<BuildEntry>, e: BuildEntry) {
    e.Told? ==>
      && Settled(past, e.move) && Asked(m, past, e.obs, e.move)
      && Earned(m, past, e.obs, e.move) && Confirmed(m, past, e.obs, e.move)
  }

  // ---- the invariant tying the fields to the log ----

  ghost predicate Inv(m: Mission, s: State, log: seq<BuildEntry>) {
    && s.final == EndingOf(log) && (s.final.Some? ==> s.final.value.Ends())
    && s.pending == (match Outstanding(log) case None => None case Some(_) => Some(BuildAction))
    && s.baseline == Baseline(log)
    && s.attempts == s.steps == Count(log, IsCommand) <= m.limits.maxAttempts
    && s.probes == Count(log, IsProbe) <= m.limits.maxProbes
    && (s.anySuccess <==> Count(log, IsSuccess) > 0)
    && s.looks == FruitlessLooks(log)
    && (s.final.None? ==> s.looks < m.limits.maxLooks && IdleCalls(log) == s.attempts + s.looks + s.probes)
    && (s.final.Some? ==> IdleCalls(log) <= m.limits.maxAttempts + m.limits.maxLooks + m.limits.maxProbes)
  }

  lemma LookKeeps(m: Mission, s: State, log: seq<BuildEntry>, obs: Obs)
    requires m.limits.Valid() && Inv(m, s, log)
    ensures var (s', move) := Decide(m, s, obs);
            Inv(m, s', log + [Told(obs, move)]) && Justified(m, log, Told(obs, move))
  {
    hide Count, EndingOf, Outstanding, Baseline, IdleCalls, FruitlessLooks, Appeared;
    var move := Decide(m, s, obs).1;
    LogAppend(log, Told(obs, move));
    BuildLogAppend(log, Told(obs, move));
  }

  lemma FoldKeeps(m: Mission, s: State, log: seq<BuildEntry>, r: ActionResult<Action>)
    requires m.limits.Valid() && Inv(m, s, log) && Accepts(s, r)
    ensures Inv(m, Note(s, r), log + [Folded(r)])
  {
    hide Count, EndingOf, Outstanding, Baseline, IdleCalls, FruitlessLooks;
    LogAppend(log, Folded(r));
    BuildLogAppend(log, Folded(r));
  }

  lemma NothingYet(m: Mission)
    requires m.limits.Valid()
    ensures Inv(m, Initial(), [])
  {
  }

  /** Every run keeps the invariant, and every answer in it is justified by what came
      before. */
  lemma {:induction false} RunKeeps(m: Mission, events: seq<Event>)
    requires m.limits.Valid()
    ensures Inv(m, After(m, events).state, After(m, events).log)
    ensures forall i :: 0 <= i < |After(m, events).log| ==>
              Justified(m, After(m, events).log[..i], After(m, events).log[i])
    decreases |events|
  {
    hide Inv, Justified, Decide, Note;
    if events == [] {
      NothingYet(m);
    } else {
      var before := After(m, events[..|events| - 1]);
      RunKeeps(m, events[..|events| - 1]);
      var e := events[|events| - 1];
      var after := After(m, events);
      match e {
        case Look(obs) =>
          LookKeeps(m, before.state, before.log, obs);
        case Fold(r) =>
          if Accepts(before.state, r) { FoldKeeps(m, before.state, before.log, r); FoldsJustified(m, before.log, r); }
          else { NotKeeps(before.state, r); }
        case Abandon => AbandonKeeps(m, before.state, before.log);
      }
      forall i | 0 <= i < |after.log|
        ensures Justified(m, after.log[..i], after.log[i])
      {
        if i < |before.log| {
          assert after.log[..i] == before.log[..i] && after.log[i] == before.log[i];
        } else {
          assert after.log[..i] == before.log;
        }
      }
    }
  }

  lemma FoldsJustified(m: Mission, past: seq<BuildEntry>, r: ActionResult<Action>)
    ensures Justified(m, past, Folded(r))
  {
  }

  lemma NotKeeps(s: State, r: ActionResult<Action>)
    requires !Accepts(s, r)
    ensures Note(s, r) == s
  {
  }

  lemma AbandonKeeps(m: Mission, s: State, log: seq<BuildEntry>)
    requires Inv(m, s, log)
    ensures Inv(m, Abandoned(s), log)
  {
  }

  /** Every run: one command at most, and an ending within the sum of the three
      budgets of calls with nothing in flight. */
  lemma RunBudgets(m: Mission, events: seq<Event>)
    requires m.limits.Valid()
    ensures var log := After(m, events).log;
            && Count(log, IsCommand) <= 1
            && (IdleCalls(log) >= m.limits.maxAttempts + m.limits.maxLooks + m.limits.maxProbes ==> EndingOf(log).Some?)
            && IdleCalls(log) <= m.limits.maxAttempts + m.limits.maxLooks + m.limits.maxProbes
  {
    RunKeeps(m, events);
  }

  // ---- what the mission answers ----

  /** The reading the square is compared with: the first one a call with nothing in
      flight was given, this call included. */
  ghost predicate Stood(past: seq<BuildEntry>, obs: Obs, r: Reading) {
    exists k :: 0 <= k <= |past| && GaveReading(past, obs, k) && ReadingAt(past, obs, k) == r
                && forall j :: 0 <= j < k ==> !GaveReading(past, obs, j)
  }

  ghost predicate GaveReading(past: seq<BuildEntry>, obs: Obs, k: nat)
    requires k <= |past|
  {
    Idle(past[..k]) && if k == |past| then obs.reading.Some? else past[k].Told? && past[k].obs.reading.Some?
  }

  ghost function ReadingAt(past: seq<BuildEntry>, obs: Obs, k: nat): Reading
    requires k <= |past| && GaveReading(past, obs, k)
  {
    if k == |past| then obs.reading.value else past[k].obs.reading.value
  }

  /** Something stands there that did not, or the square is taken and was not. */
  ghost predicate Rose(past: seq<BuildEntry>, obs: Obs) {
    exists r :: Stood(past, obs, r) && obs.reading.Some?
      && ((exists x :: x in obs.reading.value.refs && x !in r.refs) || (obs.reading.value.occupied && !r.occupied))
  }

  /** The reason a refusal is reported under. */
  predicate NamedBy(r: Refusal, reason: Reason) {
    && (r == StructureUnknown ==> reason == OtherReason("RECIPE_UNKNOWN"))
    && (r == SquareUnreadable ==> reason == OtherReason("TARGET_NOT_LOADED"))
    && (r == SquareOccupied ==> reason == OtherReason("SQUARE_OCCUPIED"))
    && (r == WouldTrapPlayer ==> reason == OtherReason("WOULD_TRAP_PLAYER"))
    && (r == MaterialsMissing ==> reason == OtherReason("RECIPE_MATERIALS_MISSING"))
    && (r == MaterialsReserved ==> reason == OtherReason("RESOURCE_RESERVED"))
  }

  /** The whole answer to an observation, read off the log before it. */
  ghost predicate Concluded(m: Mission, past: seq<BuildEntry>, obs: Obs, move: Move<Command>) {
    if EndingOf(past).Some? then move == EndingOf(past).value
    else if Outstanding(past).Some? then move.Wait?
    else if Rose(past, obs) then
      if Count(past, IsSuccess) > 0 then move.Complete?
      else if Count(past, IsProbe) < m.limits.maxProbes then move == Probe(Count(past, IsProbe) + 1)
      else move == Refuse(EndedNoProgress, NoProgress)
    else if Count(past, IsCommand) > 0 then
      if FruitlessLooks(past) + 1 < m.limits.maxLooks then move.Wait? else move == Refuse(EndedUnconfirmed, NoProgress)
    else match m.assess(obs)
      case None => move == Do(1, BuildAt(m.structure, m.square))
      case Some(refusal) => move.Refuse? && move.ended == EndedRefused && NamedBy(refusal, move.reason)
  }

  lemma {:induction false} StoodIs(past: seq<BuildEntry>)
    ensures Baseline(past).None? <==> forall k :: 0 <= k < |past| ==> !(Idle(past[..k]) && past[k].Told? && past[k].obs.reading.Some?)
    ensures Baseline(past).Some? ==>
              exists k :: 0 <= k < |past| && Idle(past[..k]) && past[k].Told? && past[k].obs.reading == Baseline(past)
                          && forall j :: 0 <= j < k ==> !(Idle(past[..j]) && past[j].Told? && past[j].obs.reading.Some?)
  {
    hide Idle;
    if past != [] {
      var earlier := past[..|past| - 1];
      StoodIs(earlier);
      assert forall k :: 0 <= k < |earlier| ==> earlier[..k] == past[..k] && earlier[k] == past[k];
      assert past[..|past| - 1] == earlier;
      if Baseline(earlier).Some? {
        var k :| 0 <= k < |earlier| && Idle(earlier[..k]) && earlier[k].Told? && earlier[k].obs.reading == Baseline(earlier)
                 && forall j :: 0 <= j < k ==> !(Idle(earlier[..j]) && earlier[j].Told? && earlier[j].obs.reading.Some?);
        assert Idle(past[..k]) && past[k].obs.reading == Baseline(past);
      }
    }
  }

  lemma RoseIsSeen(past: seq<BuildEntry>, obs: Obs)
    requires Idle(past)
    ensures Rose(past, obs) <==> Seen(past, obs)
  {
    hide Idle, Baseline;
    StoodIs(past);
    assert past[..|past|] == past;
    assert forall k :: 0 <= k < |past| ==>
             (GaveReading(past, obs, k) <==> Idle(past[..k]) && past[k].Told? && past[k].obs.reading.Some?);
    forall r | Stood(past, obs, r)
      ensures First(Baseline(past), obs.reading) == Some(r)
    {
      StoodOnce(past, obs, r);
    }
    if First(Baseline(past), obs.reading).Some? {
      var r := First(Baseline(past), obs.reading).value;
      if Baseline(past).None? {
        assert GaveReading(past, obs, |past|) && ReadingAt(past, obs, |past|) == r;
      } else {
        var k :| 0 <= k < |past| && Idle(past[..k]) && past[k].Told? && past[k].obs.reading == Baseline(past)
                 && forall j :: 0 <= j < k ==> !(Idle(past[..j]) && past[j].Told? && past[j].obs.reading.Some?);
        assert GaveReading(past, obs, k) && ReadingAt(past, obs, k) == r;
      }
      assert Stood(past, obs, r);
    }
    if obs.reading.Some? && Baseline(past).Some? {
      var more := obs.reading.value.refs - Baseline(past).value.refs;
      if more != {} { var x :| x in more; assert x in obs.reading.value.refs && x !in Baseline(past).value.refs; }
      if x :| x in obs.reading.value.refs && x !in Baseline(past).value.refs { assert x in more; }
    }
  }

  lemma StoodOnce(past: seq<BuildEntry>, obs: Obs, r: Reading)
    requires Idle(past) && Stood(past, obs, r)
    ensures First(Baseline(past), obs.reading) == Some(r)
  {
    hide Idle, Baseline;
    StoodIs(past);
    assert past[..|past|] == past;
    var k :| 0 <= k <= |past| && GaveReading(past, obs, k) && ReadingAt(past, obs, k) == r
             && forall j :: 0 <= j < k ==> !GaveReading(past, obs, j);
    assert forall j :: 0 <= j < |past| ==>
             (GaveReading(past, obs, j) <==> Idle(past[..j]) && past[j].Told? && past[j].obs.reading.Some?);
  }

  lemma LookConcludes(m: Mission, s: State, log: seq<BuildEntry>, obs: Obs)
    requires m.limits.Valid() && Inv(m, s, log)
    ensures Concluded(m, log, obs, Decide(m, s, obs).1)
  {
    hide Count, EndingOf, Outstanding, Baseline, IdleCalls, FruitlessLooks, Appeared, Rose;
    if EndingOf(log).None? && Outstanding(log).None? { RoseIsSeen(log, obs); }
  }

  /** Over every run the answer to any observation is the one the log before it calls
      for. */
  lemma EveryAnswerIsDue(m: Mission, events: seq<Event>, obs: Obs)
    requires m.limits.Valid()
    ensures Concluded(m, After(m, events).log, obs, Decide(m, After(m, events).state, obs).1)
  {
    hide Inv, Concluded, Decide, Step, Justified;
    RunKeeps(m, events);
    LookConcludes(m, After(m, events).state, After(m, events).log, obs);
  }

  // ---- results and the summary ----

  /** A result counts exactly when it ends the command in flight. */
  lemma ResultsCount(m: Mission, events: seq<Event>, r: ActionResult<Action>)
    requires m.limits.Valid()
    ensures var (run, next) := (After(m, events), After(m, events + [Fold(r)]));
            if EndingOf(run.log).None? && Outstanding(run.log).Some? && r.action.BuildAction? && !r.status.NotTerminal?
            then next.log == run.log + [Folded(r)] else next == run
  {
    hide Note;
    RunKeeps(m, events);
    HistoryAppend(m, events, Fold(r));
    var run := After(m, events);
    if !Accepts(run.state, r) { NotKeeps(run.state, r); }
  }

  /** Where the mission stands: the command not sent, sent, or answered. */
  ghost function PhaseOf(log: seq<BuildEntry>): Phase {
    if Count(log, IsCommand) == 0 then StartPhase else if Outstanding(log).Some? then BuildPhase else ConfirmPhase
  }

  /** Some call saw something new on the square. */
  ghost predicate SawIt(log: seq<BuildEntry>) {
    log != [] &&
    var past, last := log[..|log| - 1], log[|log| - 1];
    SawIt(past) || (last.Told? && Idle(past) && Rose(past, last.obs))
  }

  /** The policy's refusal, if one ended the mission. */
  ghost function Objection(m: Mission, log: seq<BuildEntry>): Option<Refusal> {
    if log == [] then None
    else
      var past, last := log[..|log| - 1], log[|log| - 1];
      if last.Told? && Idle(past) && last.move.Refuse? && last.move.ended.EndedRefused? then m.assess(last.obs)
      else Objection(m, past)
  }

  ghost predicate Summed(m: Mission, s: State, log: seq<BuildEntry>) {
    && s.attempts == Count(log, IsCommand) && s.built == Count(log, IsSuccess) && s.looks == FruitlessLooks(log)
    && (s.placed <==> SawIt(log)) && s.refusal == Objection(m, log) && s.stage == PhaseOf(log)
  }

  lemma LookSummed(m: Mission, s: State, log: seq<BuildEntry>, obs: Obs)
    requires m.limits.Valid() && Inv(m, s, log) && Summed(m, s, log)
    ensures var (s', move) := Decide(m, s, obs); Summed(m, s', log + [Told(obs, move)])
  {
    hide Count, EndingOf, Outstanding, Baseline, IdleCalls, FruitlessLooks, Appeared, Rose;
    var move := Decide(m, s, obs).1;
    LogAppend(log, Told(obs, move));
    BuildLogAppend(log, Told(obs, move));
    if Idle(log) { RoseIsSeen(log, obs); }
    assert (log + [Told(obs, move)])[..|log|] == log;
  }

  lemma FoldSummed(m: Mission, s: State, log: seq<BuildEntry>, r: ActionResult<Action>)
    requires Inv(m, s, log) && Summed(m, s, log) && Accepts(s, r)
    ensures Summed(m, Note(s, r), log + [Folded(r)])
  {
    hide Count, EndingOf, Outstanding, Baseline, IdleCalls, FruitlessLooks, Rose;
    LogAppend(log, Folded(r));
    BuildLogAppend(log, Folded(r));
    OutstandingCounts(log);
    assert (log + [Folded(r)])[..|log|] == log;
  }

  lemma {:induction false} OutstandingCounts(log: seq<BuildEntry>)
    ensures Outstanding(log).Some? ==> Count(log, IsCommand) > 0
  {
    if log != [] { OutstandingCounts(log[..|log| - 1]); }
  }

  lemma AbandonSummed(m: Mission, s: State, log: seq<BuildEntry>)
    requires Summed(m, s, log)
    ensures Summed(m, Abandoned(s), log)
  {
    hide Count, PhaseOf, FruitlessLooks, SawIt, Objection;
  }

  /** Over every run what the report counts is what happened. */
  lemma {:induction false} SummaryAgrees(m: Mission, events: seq<Event>)
    requires m.limits.Valid()
    ensures Summed(m, After(m, events).state, After(m, events).log)
  {
    if events != [] {
      hide Inv, Summed, Decide, Note, Justified, Abandoned;
      var before := events[..|events| - 1];
      SummaryAgrees(m, before);
      RunKeeps(m, before);
      var run := After(m, before);
      match events[|events| - 1] {
        case Look(obs) => LookSummed(m, run.state, run.log, obs);
        case Fold(r) => if Accepts(run.state, r) { FoldSummed(m, run.state, run.log, r); } else { NotKeeps(run.state, r); }
        case Abandon => AbandonSummed(m, run.state, run.log);
      }
    }
  }

  // ---- what the report says ----

  predicate IsAbandon(e: Event) { e.Abandon? }

  ghost function ReportOf(run: Run, events: seq<Event>): Report<Obs, Command, Action> {
    Report(run.state.ended, run.state.final, run.log, Count(events, IsAbandon) > 0)
  }

  lemma StepReports(m: Mission, run: Run, events: seq<Event>, e: Event)
    ensures Follows(ReportOf(run, events), ReportOf(Step(m, run, e), events + [e]))
  {
    CountAppend(events, e, IsAbandon);
  }

  /** Over every run, abandonment included, the report says just that. */
  lemma {:induction false} ReportNamesEnding(m: Mission, events: seq<Event>)
    ensures Reported(ReportOf(After(m, events), events))
  {
    if events != [] {
      hide Probed, Reported, Follows, ReportOf, Step;
      var before := events[..|events| - 1];
      ReportNamesEnding(m, before);
      assert events == before + [events[|events| - 1]];
      StepReports(m, After(m, before), before, events[|events| - 1]);
      ReportKept(ReportOf(After(m, before), before), ReportOf(After(m, events), events));
    }
  }
}
