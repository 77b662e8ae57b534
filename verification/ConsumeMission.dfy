/** The eat-or-drink mission as the program keeps it: one object, updated field by
    field, each method tied to the functions of ConsumeDecision. */
module ConsumeMission {
  import opened Wrappers
  import opened MissionMoves
  import opened ConsumeDecision
  import J = Journey
  import O = Ordering
  import R = RetreatTarget

  class ConsumeMission {
    const mission: Mission
    var stage: Stage
    var pending: Option<Action>
    var journey: Option<J.Trip>
    var current: Option<Fetch>
    var await: Option<PendingConsume>
    var ensureItem: Option<string>
    var verifyDue: bool
    var steps: nat
    var probes: nat
    var failures: nat
    var anySuccess: bool
    var spent: nat
    var fetchIndex: nat
    var tried: set<string>
    var reservedHits: set<string>
    var visited: set<string>
    var seen: map<string, (string, J.Square)>
    var statStart: Option<real>
    var statLast: Option<real>
    var moved: bool
    var consumed: seq<(string, real)>
    var skipped: seq<(string, Skip)>
    var boxesVisited: seq<string>
    var ended: Ending
    var final: Option<Move<Command>>
    ghost var history: seq<Event>

    ghost function Snapshot(): State
      reads this
    {
      State(stage, pending, journey, current, await, ensureItem, verifyDue, steps, probes, failures,
            anySuccess, spent, fetchIndex, tried, reservedHits, visited, seen,
            Book(statStart, statLast, moved, consumed, skipped, boxesVisited), ended, final)
    }

    ghost predicate Valid()
      reads this
    {
      mission.Bounded() && Snapshot() == After(mission, history).state
    }

    constructor (mission: Mission)
      requires mission.Bounded()
      ensures Valid() && this.mission == mission && history == []
    {
      this.mission := mission;
      stage, pending, journey, current, await := CheckStage, None, None, None, None;
      ensureItem, verifyDue, steps, probes, failures := None, false, 0, 0, 0;
      anySuccess, spent, fetchIndex, tried, reservedHits := false, 0, 0, {}, {};
      visited, seen, statStart, statLast, moved := {}, map[], None, None, false;
      consumed, skipped, boxesVisited, ended, final := [], [], [], EndedInProgress, None;
      history := [];
    }

    // ---- results ----

    method NoteResult(result: ActionResult<Action>)
      requires Valid()
      modifies this
      ensures Valid() && history == old(history) + [Fold(result)]
    {
      HistoryAppend(mission, history, Fold(result));
      Notes(result);
      history := history + [Fold(result)];
    }

    method Notes(result: ActionResult<Action>)
      requires Snapshot().Valid()
      modifies this
      ensures Snapshot() == Note(old(Snapshot()), result) && history == old(history)
    {
      if final.Some? || result.status.NotTerminal? { return; }
      if pending.None? || result.action != pending.value { return; }
      pending := None;
      match stage {
        case ApproachStage => NotesWalk(result);
        case ConsumeStage => NotesConsume(result);
        case EnsureStage => NotesEnsure(result);
        case CheckStage =>
        case _ => NotesFetch(result);
      }
    }

    method NotesWalk(result: ActionResult<Action>)
      requires journey.Some? && journey.value.Valid()
      modifies this
      ensures Snapshot() == NoteWalk(old(Snapshot()), result) && history == old(history)
    {
      if result.action.WalkAction? {
        journey := Some(J.Note(journey.value, ActionResult(result.action.action, result.status, result.reason)));
      }
      if result.status.Succeeded? { NotesSuccess(); }
    }

    method NotesSuccess()
      modifies this`anySuccess, this`failures
      ensures anySuccess && failures == 0
    {
      anySuccess := true;
      failures := 0;
    }

    method NotesConsume(result: ActionResult<Action>)
      requires await.Some?
      modifies this
      ensures Snapshot() == NoteConsume(old(Snapshot()), result) && history == old(history)
    {
      if result.status.Succeeded? { LandsConsume(); } else { RetiresConsume(result.reason); }
    }

    method LandsConsume()
      modifies this`stage, this`anySuccess, this`failures, this`verifyDue
      ensures stage == CheckStage && anySuccess && failures == 0 && verifyDue
    {
      stage := CheckStage;
      NotesSuccess();
      verifyDue := true;
    }

    method RetiresConsume(reason: Reason)
      requires await.Some?
      modifies this`stage, this`await, this`tried, this`skipped, this`failures
      ensures stage == CheckStage && await == None && tried == old(tried) + {old(await.value.item)}
      ensures skipped == old(skipped) + [(old(await.value.item), ActionRefused(reason))]
      ensures failures == if TypedRefusal(reason) then old(failures) else old(failures) + 1
    {
      stage := CheckStage;
      Retires(await.value.item, ActionRefused(reason));
      await := None;
      CountsUntyped(reason);
    }

    method NotesEnsure(result: ActionResult<Action>)
      requires ensureItem.Some?
      modifies this
      ensures Snapshot() == NoteEnsure(old(Snapshot()), result) && history == old(history)
    {
      if result.status.Succeeded? { LandsEnsure(); } else { RetiresEnsure(result.reason); }
    }

    method LandsEnsure()
      modifies this`stage, this`ensureItem, this`anySuccess, this`failures
      ensures stage == CheckStage && ensureItem == None && anySuccess && failures == 0
    {
      stage := CheckStage;
      ensureItem := None;
      NotesSuccess();
    }

    method RetiresEnsure(reason: Reason)
      requires ensureItem.Some?
      modifies this`stage, this`ensureItem, this`tried, this`skipped, this`failures
      ensures stage == CheckStage && ensureItem == None && tried == old(tried) + {old(ensureItem.value)}
      ensures skipped == old(skipped) + [(old(ensureItem.value), ActionRefused(reason))]
      ensures failures == if TypedRefusal(reason) then old(failures) else old(failures) + 1
    {
      stage := CheckStage;
      Retires(ensureItem.value, ActionRefused(reason));
      ensureItem := None;
      CountsUntyped(reason);
    }

    method NotesFetch(result: ActionResult<Action>)
      requires current.Some?
      modifies this
      ensures Snapshot() == NoteFetch(old(Snapshot()), result) && history == old(history)
    {
      if result.status.Succeeded? {
        NotesSuccess();
        if stage.OpenStage? {
          stage := InspectStage;
        } else if stage.InspectStage? {
          stage := TransferStage;
        } else {
          boxesVisited := boxesVisited + [current.value.box];
          ResetsFetch();
        }
      } else if result.reason.DoorLocked? || result.reason.DoorBarricaded? {
        SkipsFetch(DoorSealed(result.reason), false);
      } else {
        SkipsFetch(ActionRefused(result.reason), true);
      }
    }

    /** A spent item is never offered to the policy again, and the skip is recorded. */
    method Retires(item: string, why: Skip)
      modifies this`tried, this`skipped
      ensures tried == old(tried) + {item} && skipped == old(skipped) + [(item, why)]
    {
      tried := tried + {item};
      skipped := skipped + [(item, why)];
    }

    method CountsUntyped(reason: Reason)
      modifies this`failures
      ensures failures == if TypedRefusal(reason) then old(failures) else old(failures) + 1
    {
      if !TypedRefusal(reason) { failures := failures + 1; }
    }

    /** Record why the fetch is dropped, and whether it counts as a failure. */
    method SkipsFetch(why: Skip, counts: bool)
      requires current.Some?
      modifies this
      ensures Snapshot() == SkipFetch(old(Snapshot()), why, if counts then old(failures) + 1 else old(failures))
      ensures history == old(history)
    {
      RecordsSkip(why, counts);
      ResetsFetch();
    }

    method RecordsSkip(why: Skip, counts: bool)
      requires current.Some?
      modifies this`failures, this`skipped
      ensures failures == if counts then old(failures) + 1 else old(failures)
      ensures skipped == old(skipped) + [(if current.value.box != "" then current.value.box else current.value.tail, why)]
    {
      if counts { failures := failures + 1; }
      skipped := skipped + [(if current.value.box != "" then current.value.box else current.value.tail, why)];
    }

    method ResetsFetch()
      modifies this`current, this`journey, this`stage
      ensures current.None? && journey.None? && stage.CheckStage?
    {
      current := None;
      journey := None;
      stage := CheckStage;
    }

    method MarkAbandoned()
      requires Valid()
      modifies this
      ensures Valid() && history == old(history) + [Abandon]
    {
      HistoryAppend(mission, history, Abandon);
      if ended.EndedInProgress? { ended := EndedCancelled; }
      history := history + [Abandon];
    }

    // ---- the decision ----

    /** The answer is the one the run of the whole history gives. */
    method NextStep(obs: Obs) returns (move: Move<Command>)
      requires Valid()
      modifies this
      ensures Valid() && history == old(history) + [Look(obs)]
      ensures After(mission, history).log == After(mission, old(history)).log + [Told(obs, move)]
    {
      HistoryAppend(mission, history, Look(obs));
      move := Decides(obs);
      history := history + [Look(obs)];
    }

    method Decides(obs: Obs) returns (move: Move<Command>)
      requires mission.Bounded() && Snapshot().Valid()
      modifies this
      ensures (Snapshot(), move) == Decide(mission, old(Snapshot()), obs) && history == old(history)
    {
      if final.Some? { return final.value; }
      Discovers(obs);
      if pending.Some? { return Wait; }
      if failures >= mission.limits.maxFailures {
        move := Seals(Refuse(EndedNoProgress, NoProgress));
        return;
      }
      if obs.stat.None? {
        move := Seals(Refuse(EndedUnreported, PreconditionFailed));
        return;
      }
      Reads(obs.stat.value);
      if obs.stat.value <= mission.target {
        move := FinishesSatisfied();
        return;
      }
      if obs.inventory.None? { return Wait; }
      move := Seeks(obs, obs.stat.value);
    }

    method Discovers(obs: Obs)
      modifies this
      ensures Snapshot() == Discover(old(Snapshot()), obs) && history == old(history)
    {
      if obs.nearby.None? { return; }
      var objects := obs.nearby.value;
      if |objects| > MAX_DISCOVERIES { objects := objects[..MAX_DISCOVERIES]; }
      SightsAll(objects);
    }

    method SightsAll(objects: seq<Seen>)
      modifies this`seen
      ensures seen == SightAll(old(seen), objects)
    {
      for i := 0 to |objects|
        invariant seen == SightAll(old(seen), objects[..i])
      {
        assert objects[..i + 1][..i] == objects[..i];
        var o := objects[i];
        if o.square.None? || o.tail.None? { continue; }
        if o.tail.value !in seen && |seen| >= MAX_SIGHTINGS { continue; }
        seen := seen[o.tail.value := (o.id, o.square.value)];
      }
      assert objects[..|objects|] == objects;
    }

    method Reads(stat: real)
      requires Snapshot().Idle()
      modifies this
      ensures Snapshot() == Read(old(Snapshot()), stat) && history == old(history)
    {
      if statStart.None? { statStart := Some(stat); }
      statLast := Some(stat);
      if verifyDue { SettlesVerify(stat); }
    }

    method SettlesVerify(stat: real)
      modifies this
      ensures Snapshot() == Settle(old(Snapshot()), stat) && history == old(history)
    {
      if await.None? { verifyDue := false; } else { CreditsConsume(stat); }
    }

    method CreditsConsume(stat: real)
      requires await.Some?
      modifies this`await, this`verifyDue, this`moved, this`consumed, this`tried, this`skipped
      ensures await == None && !verifyDue
      ensures stat < old(await.value.statBefore) ==>
                && moved && consumed == old(consumed) + [(old(await.value.name), old(await.value.fraction))]
                && tried == old(tried) && skipped == old(skipped)
      ensures stat >= old(await.value.statBefore) ==>
                && moved == old(moved) && consumed == old(consumed)
                && tried == old(tried) + {old(await.value.item)}
                && skipped == old(skipped) + [(old(await.value.item), ConsumedUnmoved)]
    {
      var owed := await.value;
      await := None;
      verifyDue := false;
      if stat < owed.statBefore {
        moved := true;
        consumed := consumed + [(owed.name, owed.fraction)];
      } else {
        Retires(owed.item, ConsumedUnmoved);
      }
    }

    method Seeks(obs: Obs, stat: real) returns (move: Move<Command>)
      requires mission.Bounded() && Snapshot().Idle() && obs.inventory.Some?
      modifies this
      ensures (Snapshot(), move) == Seek(mission, old(Snapshot()), obs, stat) && history == old(history)
    {
      if spent >= mission.limits.maxCandidates {
        move := FinishesExhausted();
        return;
      }
      if current.None? && stage.CheckStage? {
        var choice := ChoosesCarried(obs);
        if choice.Some? {
          move := UsesCarried(obs, stat, choice.value);
          return;
        }
      }
      move := HuntsOn(obs);
    }

    /** One scan: what may be offered to the policy, and what the user's reserves
        withheld. */
    method Prefilters(obs: Obs, items: seq<Item>) returns (kept: seq<Item>)
      modifies this`reservedHits
      ensures kept == Prefilter(old(Snapshot()), obs, items)
      ensures Snapshot() == Withhold(old(Snapshot()), obs, items)
    {
      ghost var was := Snapshot();
      kept := KeepsBack(was, obs, items);
    }

    /** The loop, over the items already tried and the reservations. */
    method KeepsBack(ghost was: State, obs: Obs, items: seq<Item>) returns (kept: seq<Item>)
      requires was.tried == tried
      modifies this`reservedHits
      ensures kept == Prefilter(was, obs, items)
      ensures reservedHits == old(reservedHits) + Withheld(was, obs, items)
    {
      hide Prefilter, Withheld;
      kept := [];
      NothingOffered(was, obs);
      assert items[..0] == [];
      for i := 0 to |items|
        invariant kept == Prefilter(was, obs, items[..i])
        invariant reservedHits == old(reservedHits) + Withheld(was, obs, items[..i])
      {
        PrefilterStep(was, obs, items, i);
        var item := items[i];
        if !item.wanted || item.id in tried { continue; }
        if obs.reserved(item.fullType) {
          reservedHits := reservedHits + {item.id};
          continue;
        }
        kept := kept + [item];
      }
      assert items[..|items|] == items;
    }

    method ChoosesCarried(obs: Obs) returns (choice: Option<Choice>)
      requires obs.inventory.Some?
      modifies this
      ensures choice == PickCarried(mission, old(Snapshot()), obs)
      ensures Snapshot() == Withhold(old(Snapshot()), obs, obs.inventory.value.items) && history == old(history)
    {
      var items := Prefilters(obs, obs.inventory.value.items);
      if items == [] { return None; }
      choice := mission.select(View(obs.inventory.value.boxes, items, false), obs);
    }

    method UsesCarried(obs: Obs, stat: real, choice: Choice) returns (move: Move<Command>)
      modifies this
      ensures (Snapshot(), move) == UseCarried(old(Snapshot()), obs, stat, choice) && history == old(history)
    {
      if choice.needsMain {
        stage := EnsureStage;
        ensureItem := Some(choice.id);
        move := Emits(EnsureMain(choice.id));
        return;
      }
      stage := ConsumeStage;
      spent := spent + 1;
      await := Some(PendingConsume(choice.id, choice.name, choice.fraction, stat));
      move := Emits(Consume(choice.id, choice.fraction));
    }

    // ---- the loop over containers ----

    method HuntsOn(obs: Obs) returns (move: Move<Command>)
      requires mission.Bounded() && Snapshot().Idle() && obs.inventory.Some?
      modifies this
      ensures (Snapshot(), move) == Hunt(mission, old(Snapshot()), obs) && history == old(history)
    {
      while true
        invariant Snapshot().Idle() && history == old(history)
        invariant Hunt(mission, Snapshot(), obs) == Hunt(mission, old(Snapshot()), obs)
        decreases mission.limits.maxCandidates - spent, StageRank(Snapshot())
      {
        if current.None? {
          StartsNextFetch(obs);
          if current.None? {
            move := FinishesExhausted();
            return;
          }
        }
        var driven := DrivesFetch(obs);
        if driven.Some? { return driven.value; }
      }
    }

    method StartsNextFetch(obs: Obs)
      requires mission.Bounded() && Snapshot().Idle() && current.None?
      modifies this
      ensures Snapshot() == StartFetch(mission, old(Snapshot()), obs) && history == old(history)
    {
      if spent >= mission.limits.maxCandidates { return; }
      var best := FindsNextTail(obs);
      if best.None? { return; }
      BeginsFetch(obs, best.value.0, best.value.1);
    }

    method BeginsFetch(obs: Obs, tail: string, c: Candidate)
      requires current.None? && journey.None?
      modifies this
      ensures Snapshot() == BeginFetch(mission, old(Snapshot()), obs, tail, c) && history == old(history)
    {
      SpendsCandidate(tail);
      PlacesFetch(obs, tail, c);
    }

    method SpendsCandidate(tail: string)
      modifies this
      ensures history == old(history)
      ensures var s := old(Snapshot());
              Snapshot() == s.(fetchIndex := s.fetchIndex + 1, spent := s.spent + 1, visited := s.visited + {tail})
    {
      fetchIndex := fetchIndex + 1;
      spent := spent + 1;
      visited := visited + {tail};
    }

    method PlacesFetch(obs: Obs, tail: string, c: Candidate)
      requires current.None? && journey.None?
      modifies this`current, this`stage, this`journey
      ensures current == Some(Fetch(tail, c.box, c.square, fetchIndex))
      ensures stage == if NeedsJourney(obs.here, c.square) then ApproachStage else OpenStage
      ensures journey == if NeedsJourney(obs.here, c.square) then Some(J.Begin(c.square, mission.journey)) else None
    {
      current := Some(Fetch(tail, c.box, c.square, fetchIndex));
      if NeedsJourney(obs.here, c.square) {
        stage := ApproachStage;
        journey := Some(J.Begin(c.square, mission.journey));
      } else {
        stage := OpenStage;
      }
    }

    /** Scan every tail seen or remembered, keeping the best so far. */
    method FindsNextTail(obs: Obs) returns (best: Option<(string, Candidate)>)
      ensures best.None? <==> NextTail(Snapshot(), obs).None?
      ensures best.Some? ==>
                && NextTail(Snapshot(), obs) == Some(best.value.0)
                && Appraise(Snapshot(), obs, RememberedMap(obs.known), best.value.0) == Some(best.value.1)
    {
      var remembered := RememberedMap(obs.known);
      var left := seen.Keys + remembered.Keys;
      ghost var done: set<string> := {};
      best := None;
      while left != {}
        invariant left + done == seen.Keys + remembered.Keys
        invariant BestAmong(Snapshot(), obs, done, best)
        decreases left
      {
        var tail :| tail in left;
        var worth := AppraiseNow(obs, remembered, tail);
        WidenBest(Snapshot(), obs, done, best, tail);
        if worth.Some? && (best.None? || Prefers(worth.value, tail, best.value.1, best.value.0)) {
          best := Some((tail, worth.value));
        }
        left, done := left - {tail}, done + {tail};
      }
      OnlyOneBest(Snapshot(), obs, done, best);
    }

    function AppraiseNow(obs: Obs, remembered: map<string, Remembered>, tail: string): (worth: Option<Candidate>)
      reads this
      ensures worth == Appraise(Snapshot(), obs, remembered, tail)
    {
      if tail in visited then None
      else if tail in seen then
        var distance := R.Chebyshev(obs.here, seen[tail].1);
        if tail in remembered && remembered[tail].hasCategory then
          Some(Candidate(0, distance, seen[tail].0, seen[tail].1))
        else if tail !in remembered || !remembered[tail].inspected then
          Some(Candidate(2, distance, seen[tail].0, seen[tail].1))
        else None
      else if tail in remembered && remembered[tail].square.Some? && remembered[tail].hasCategory
        && R.Chebyshev(obs.here, remembered[tail].square.value) <= MAX_FETCH_DISTANCE then
        Some(Candidate(1, R.Chebyshev(obs.here, remembered[tail].square.value), "", remembered[tail].square.value))
      else None
    }

    method DrivesFetch(obs: Obs) returns (move: Option<Move<Command>>)
      requires Snapshot().Idle() && current.Some? && obs.inventory.Some?
      modifies this
      ensures (Snapshot(), move) == DriveFetch(mission, old(Snapshot()), obs) && history == old(history)
    {
      if stage.ApproachStage? {
        move := DrivesJourney(obs);
        return;
      }
      var f := current.value;
      if f.box == "" {
        if f.tail !in seen {
          SkipsFetch(StaleMemory, false);
          return None;
        }
        current := Some(f.(box := seen[f.tail].0));
      }
      if stage.TransferStage? {
        move := DrivesTransfer(obs);
        return;
      }
      var command := if stage.OpenStage? then OpenBox(f.tail, current.value.box) else Inspect(f.tail, current.value.box);
      var sent := Emits(command);
      return Some(sent);
    }

    method DrivesJourney(obs: Obs) returns (move: Option<Move<Command>>)
      requires Snapshot().Idle() && stage.ApproachStage? && obs.inventory.Some?
      modifies this
      ensures (Snapshot(), move) == DriveFetch(mission, old(Snapshot()), obs) && history == old(history)
    {
      var (trip, answer) := J.Next(journey.value, obs.views(current.value.index));
      match answer {
        case Arrived =>
          journey := None;
          stage := OpenStage;
          return None;
        case Refused(reason) =>
          if reason == Some(DoorLocked) || reason == Some(DoorBarricaded) {
            SkipsFetch(DoorSealed(reason.value), false);
          } else {
            SkipsFetch(ApproachRefused, reason != Some(PathNotFound));
          }
          return None;
        case Step(a) =>
          journey := Some(trip);
          pending := Some(WalkAction(a));
          return Some(Do(trip.steps, Walk(current.value.tail, a)));
      }
    }

    method DrivesTransfer(obs: Obs) returns (move: Option<Move<Command>>)
      requires Snapshot().Idle() && stage.TransferStage? && obs.inventory.Some?
      modifies this
      ensures (Snapshot(), move) == DriveTransfer(mission, old(Snapshot()), obs) && history == old(history)
    {
      var (tail, box) := (current.value.tail, current.value.box);
      if box !in obs.inventory.value.boxes {
        SkipsFetch(NotDescribed, true);
        return None;
      }
      var items := Prefilters(obs, ItemsIn(obs.inventory.value, box));
      var choice: Option<Choice> := None;
      if items != [] { choice := mission.select(View([box], items, true), obs); }
      if choice.None? {
        SkipsFetch(NothingSafeInside, false);
        return None;
      }
      var sent := Emits(Transfer(tail, box, choice.value.id));
      return Some(sent);
    }

    // ---- endings and emission ----

    method FinishesSatisfied() returns (move: Move<Command>)
      modifies this
      ensures (Snapshot(), move) == FinishSatisfied(mission, old(Snapshot())) && history == old(history)
    {
      if anySuccess {
        move := Seals(Complete);
        return;
      }
      if probes >= mission.limits.maxProbes {
        move := Seals(Refuse(EndedNoProgress, NoProgress));
        return;
      }
      ended := EndedComplete;
      probes := probes + 1;
      move := Probe(probes);
    }

    method FinishesExhausted() returns (move: Move<Command>)
      modifies this
      ensures (Snapshot(), move) == FinishExhausted(mission, old(Snapshot())) && history == old(history)
    {
      if moved && anySuccess {
        move := Seals(Complete);
      } else if consumed != [] || exists k | k in skipped :: k.1.ConsumedUnmoved? {
        move := Seals(Refuse(EndedNoProgress, NoProgress));
      } else {
        move := Seals(Refuse(EndedNothingFound, mission.refusal));
      }
    }

    method Seals(answer: Move<Command>) returns (move: Move<Command>)
      requires answer.Ends()
      modifies this
      ensures (Snapshot(), move) == Seal(old(Snapshot()), answer) && history == old(history)
    {
      ended := if answer.Complete? then EndedComplete else answer.ended;
      final := Some(answer);
      move := answer;
    }

    method Emits(c: Command) returns (move: Move<Command>)
      modifies this
      ensures (Snapshot(), move) == Emit(old(Snapshot()), c) && history == old(history)
    {
      steps := steps + 1;
      pending := Some(ActionOf(c));
      move := Do(steps, c);
    }
  }

  // ---- the scan for the best container ----

  ghost predicate BestAmong(s: State, obs: Obs, done: set<string>, best: Option<(string, Candidate)>) {
    var remembered := RememberedMap(obs.known);
    match best
    case None => forall t :: t in done ==> Appraise(s, obs, remembered, t).None?
    case Some((tail, c)) =>
      && tail in done && Appraise(s, obs, remembered, tail) == Some(c)
      && forall t :: t in done && Appraise(s, obs, remembered, t).Some? ==>
           Prefers(c, tail, Appraise(s, obs, remembered, t).value, t)
  }

  lemma WidenBest(s: State, obs: Obs, done: set<string>, best: Option<(string, Candidate)>, tail: string)
    requires BestAmong(s, obs, done, best)
    ensures var worth := Appraise(s, obs, RememberedMap(obs.known), tail);
            var better := worth.Some? && (best.None? || Prefers(worth.value, tail, best.value.1, best.value.0));
            BestAmong(s, obs, done + {tail}, if better then Some((tail, worth.value)) else best)
  {
    hide Appraise, RememberedMap;
    var worth := Appraise(s, obs, RememberedMap(obs.known), tail);
    if worth.Some? {
      PrefersItself(worth.value, tail);
      if best.Some? {
        PrefersTotal(worth.value, tail, best.value.1, best.value.0);
        forall t | t in done && Appraise(s, obs, RememberedMap(obs.known), t).Some?
          ensures Prefers(worth.value, tail, best.value.1, best.value.0) ==>
                    Prefers(worth.value, tail, Appraise(s, obs, RememberedMap(obs.known), t).value, t)
        {
          var c := Appraise(s, obs, RememberedMap(obs.known), t).value;
          if Prefers(worth.value, tail, best.value.1, best.value.0) {
            PrefersTransitive(worth.value, tail, best.value.1, best.value.0, c, t);
          }
        }
      }
    }
  }

  lemma PrefersItself(a: Candidate, aTail: string)
    ensures Prefers(a, aTail, a, aTail)
  {
    O.StringLeqTotal(aTail, aTail);
  }

  lemma PrefersTotal(a: Candidate, aTail: string, b: Candidate, bTail: string)
    ensures Prefers(a, aTail, b, bTail) || Prefers(b, bTail, a, aTail)
    ensures Prefers(a, aTail, b, bTail) && Prefers(b, bTail, a, aTail) ==> aTail == bTail
  {
    O.StringLeqTotal(aTail, bTail);
  }

  lemma OnlyOneBest(s: State, obs: Obs, done: set<string>, best: Option<(string, Candidate)>)
    requires BestAmong(s, obs, done, best)
    requires done == s.seen.Keys + RememberedMap(obs.known).Keys
    ensures best.None? <==> NextTail(s, obs).None?
    ensures best.Some? ==> NextTail(s, obs) == Some(best.value.0)
  {
    hide Appraise, RememberedMap;
    if best.Some? {
      assert best.value.0 in done;
      var next := NextTail(s, obs).value;
      assert IsBest(s, obs, next);
      PrefersTotal(best.value.1, best.value.0, Appraise(s, obs, RememberedMap(obs.known), next).value, next);
    }
  }

  lemma NothingOffered(s: State, obs: Obs)
    ensures Prefilter(s, obs, []) == [] && Withheld(s, obs, []) == {}
  {
  }
}
