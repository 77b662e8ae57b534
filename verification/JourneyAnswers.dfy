/** What a journey answers, read off everything it was asked and told. */
module JourneyAnswers {
  import opened Wrappers
  import opened MissionMoves
  import opened Journey

  /** One question and its answer, or one result the journey took in. */
  datatype Mark = Asked(view: View, answer: Answer) | Took(result: ActionResult<StepAction>)

  type Trail = seq<Mark>

  predicate IsStep(m: Mark, action: StepAction) { m.Asked? && m.answer == Step(action) }
  predicate IsLeg(m: Mark) { IsStep(m, MoveTo) }
  predicate IsDoor(m: Mark) { IsStep(m, DoorOpen) }
  predicate IsFailure(m: Mark) { m.Took? && !m.result.status.Succeeded? }

  /** A walk was stopped on its way, not only unlucky. */
  predicate IsBlocked(m: Mark) {
    IsFailure(m) && m.result.action.MoveTo? && (m.result.reason == PathNotFound || m.result.reason == OtherReason("PATH_STUCK"))
  }

  /** How the journey ended, if it has. */
  ghost function Ended(trail: Trail): Option<Answer> {
    if trail == [] then None
    else
      var before, last := trail[..|trail| - 1], trail[|trail| - 1];
      if Ended(before).Some? then Ended(before)
      else if last.Asked? && !last.answer.Step? then Some(last.answer) else None
  }

  /** Failures since the last success. */
  ghost function Streak(trail: Trail): nat {
    if trail == [] then 0
    else
      var before, last := trail[..|trail| - 1], trail[|trail| - 1];
      if last.Asked? then Streak(before) else if last.result.status.Succeeded? then 0 else Streak(before) + 1
  }

  /** The nearest the target has been when asked. */
  ghost function Nearest(trail: Trail): Option<nat> {
    if trail == [] then None
    else
      var before, last := trail[..|trail| - 1], trail[|trail| - 1];
      if last.Took? || last.view.arrived || Ended(before).Some? then Nearest(before)
      else match Nearest(before)
        case None => Some(last.view.distance)
        case Some(d) => Some(if last.view.distance < d then last.view.distance else d)
  }

  ghost predicate LegDone(trail: Trail) { trail != [] && trail[|trail| - 1].Took? && trail[|trail| - 1].result.action.MoveTo? }

  ghost predicate BlockedLast(trail: Trail) { trail != [] && IsBlocked(trail[|trail| - 1]) }

  /** Legs walked one after another without coming nearer, this question included. */
  ghost function Stalled(before: Trail, view: View): nat {
    if !LegDone(before) then StalledSoFar(before)
    else if Nearest(before).Some? && view.distance < Nearest(before).value then 0
    else StalledSoFar(before) + 1
  }

  ghost function StalledSoFar(trail: Trail): nat
    decreases |trail|, 0
  {
    if trail == [] then 0
    else
      var before, last := trail[..|trail| - 1], trail[|trail| - 1];
      if last.Took? || last.view.arrived || Ended(before).Some? then StalledSoFar(before)
      else if !LegDone(before) then StalledSoFar(before)
      else if Nearest(before).Some? && last.view.distance < Nearest(before).value then 0
      else StalledSoFar(before) + 1
  }

  /** The step asked for and not yet answered. */
  ghost function Waiting(trail: Trail): Option<StepAction> {
    if trail == [] then None
    else
      var last := trail[|trail| - 1];
      if last.Asked? && last.answer.Step? then Some(last.answer.action)
      else if last.Took? then None else Waiting(trail[..|trail| - 1])
  }

  /** The answer a question is due: the ending again; arrival; stuck, after too many
      legs without progress or failures in a row; too many replans; the door in the way
      of a walk that was blocked; otherwise the next leg of a route, while legs last. */
  ghost function Due(limits: Limits, trail: Trail, view: View): Answer {
    if Ended(trail).Some? then Ended(trail).value
    else if view.arrived then Arrived
    else if Stalled(trail, view) >= limits.maxFailures || Streak(trail) >= limits.maxFailures then
      Refused(Some(OtherReason("PATH_STUCK")))
    else if Count(trail, IsFailure) > limits.maxReplans then Refused(None)
    else if BlockedLast(trail) && view.doorOnLeg then Step(DoorOpen)
    else match view.route
      case SearchExhausted => Refused(None)
      case NoRoute(reason) => Refused(Some(reason))
      case RouteFound => if Count(trail, IsLeg) >= limits.maxLegs then Refused(None) else Step(MoveTo)
  }

  // ---- the journey follows it ----

  ghost predicate Takes(t: Trip, r: ActionResult<StepAction>) {
    t.outcome.None? && !r.status.NotTerminal? && t.pending == Some(r.action)
  }

  ghost function Along(target: Square, limits: Limits, events: seq<Event>): (r: (Trip, Trail))
    requires limits.Valid()
    ensures r.0.Valid() && r.0.limits == limits && r.0.target == target
  {
    if events == [] then (Begin(target, limits), [])
    else
      var (t, trail) := Along(target, limits, events[..|events| - 1]);
      match events[|events| - 1]
      case Look(view) => (Next(t, view).0, trail + [Asked(view, Next(t, view).1)])
      case Fold(result) => (Journey.Note(t, result), if Takes(t, result) then trail + [Took(result)] else trail)
  }

  ghost predicate Follows(t: Trip, trail: Trail) {
    && t.outcome == Ended(trail) && t.legs == Count(trail, IsLeg) && t.steps == Count(trail, IsLeg) + Count(trail, IsDoor)
    && t.replans == Count(trail, IsFailure)
    && (t.outcome.None? ==>
          && t.failures == Streak(trail) && t.best == Nearest(trail) && t.pending == Waiting(trail)
          && (t.legCompleted <==> LegDone(trail)) && (t.doorRetry <==> BlockedLast(trail))
          && t.legsWithoutProgress == StalledSoFar(trail))
  }

  lemma TrailAppend(trail: Trail, m: Mark)
    ensures var longer := trail + [m];
            && Ended(longer) == (if Ended(trail).Some? then Ended(trail)
                                 else if m.Asked? && !m.answer.Step? then Some(m.answer) else None)
            && Streak(longer) == (if m.Asked? then Streak(trail) else if m.result.status.Succeeded? then 0 else Streak(trail) + 1)
            && Nearest(longer) == (if m.Took? || m.view.arrived || Ended(trail).Some? then Nearest(trail)
                                   else match Nearest(trail)
                                     case None => Some(m.view.distance)
                                     case Some(d) => Some(if m.view.distance < d then m.view.distance else d))
            && StalledSoFar(longer) == (if m.Took? || m.view.arrived || Ended(trail).Some? then StalledSoFar(trail)
                                        else Stalled(trail, m.view))
            && Waiting(longer) == (if m.Asked? && m.answer.Step? then Some(m.answer.action) else if m.Took? then None else Waiting(trail))
            && (LegDone(longer) <==> m.Took? && m.result.action.MoveTo?) && (BlockedLast(longer) <==> IsBlocked(m))
            && Count(longer, IsLeg) == Count(trail, IsLeg) + (if IsLeg(m) then 1 else 0)
            && Count(longer, IsDoor) == Count(trail, IsDoor) + (if IsDoor(m) then 1 else 0)
            && Count(longer, IsFailure) == Count(trail, IsFailure) + (if IsFailure(m) then 1 else 0)
  {
    CountAppend(trail, m, IsLeg);
    CountAppend(trail, m, IsDoor);
    CountAppend(trail, m, IsFailure);
    assert (trail + [m])[..|trail|] == trail;
  }

  lemma NextFollows(t: Trip, trail: Trail, view: View)
    requires t.Valid() && Follows(t, trail)
    ensures var (t', answer) := Next(t, view);
            answer == Due(t.limits, trail, view) && Follows(t', trail + [Asked(view, answer)])
  {
    hide Ended, Streak, Nearest, Waiting, StalledSoFar, Count, LegDone, BlockedLast;
    TrailAppend(trail, Asked(view, Next(t, view).1));
  }

  lemma NoteFollows(t: Trip, trail: Trail, r: ActionResult<StepAction>)
    requires t.Valid() && Follows(t, trail)
    ensures if Takes(t, r) then Follows(Journey.Note(t, r), trail + [Took(r)]) else Journey.Note(t, r) == t
  {
    hide Ended, Streak, Nearest, Waiting, StalledSoFar, Count, LegDone, BlockedLast;
    TrailAppend(trail, Took(r));
    if Takes(t, r) { WaitingIsNotBlocked(trail); }
  }

  /** While a step is out nothing has been blocked since. */
  lemma {:induction false} WaitingIsNotBlocked(trail: Trail)
    ensures Waiting(trail).Some? ==> !BlockedLast(trail) && !LegDone(trail)
  {
  }

  lemma {:induction false} RunFollows(target: Square, limits: Limits, events: seq<Event>)
    requires limits.Valid()
    ensures var (t, trail) := Along(target, limits, events); Follows(t, trail)
  {
    hide Follows, Next, Journey.Note, Due;
    if events == [] {
      StartFollows(target, limits);
    } else {
      RunFollows(target, limits, events[..|events| - 1]);
      var (t, trail) := Along(target, limits, events[..|events| - 1]);
      match events[|events| - 1] {
        case Look(view) => NextFollows(t, trail, view);
        case Fold(result) => NoteFollows(t, trail, result);
      }
    }
  }

  lemma StartFollows(target: Square, limits: Limits)
    ensures Follows(Begin(target, limits), [])
  {
  }

  /** However a journey is driven, the next answer is the one its trail is due. */
  lemma EveryAnswerIsDue(target: Square, limits: Limits, events: seq<Event>, view: View)
    requires limits.Valid()
    ensures var (t, trail) := Along(target, limits, events); Next(t, view).1 == Due(limits, trail, view)
  {
    hide Follows, Next, Due;
    RunFollows(target, limits, events);
    var (t, trail) := Along(target, limits, events);
    NextFollows(t, trail, view);
  }
}
