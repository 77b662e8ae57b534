/** What the arbiter does at each observation, read off what it saw before. */
module ArbiterAnswers {
  import opened Wrappers
  import opened GoalQueue
  import opened Arbiter
  import opened ArbiterSafety

  // ---- crossings, between two observations ----

  function Severity(d: Danger): nat {
    if d == NoDanger then 0 else if d == Low then 1 else if d == Medium then 2 else if d == High then 3 else 4
  }

  /** The worse of what the mod says and what is assessed near by, at least so bad. */
  predicate Endangered(o: Observation, severity: nat) {
    Severity(o.modDanger) >= severity || (o.nearby.Some? && Severity(o.nearby.value.level) >= severity)
  }

  predicate Chased(o: Observation) { o.nearby.Some? && o.nearby.value.chasing > 0 }

  /** A need's line was reached from below it. */
  predicate Passed(before: Option<real>, now: Option<real>, line: real) {
    before.Some? && now.Some? && before.value < line && now.value >= line
  }

  /** A trigger fires between two observations. */
  predicate Fires(p: Observation, o: Observation, t: Trigger) {
    match t
    case Bleeding => o.bleeding && !p.bleeding
    case Threat => !Endangered(p, 3) && Endangered(o, 3) && !Chased(o)
    case Thirst => Passed(p.thirst, o.thirst, o.criticalThirst)
    case Hunger => Passed(p.hunger, o.hunger, o.criticalHunger)
  }

  /** The first of them by urgency. */
  predicate FiresFirst(p: Observation, o: Observation, t: Trigger) {
    && Fires(p, o, t)
    && (t != Bleeding ==> !Fires(p, o, Bleeding))
    && (t == Thirst || t == Hunger ==> !Fires(p, o, Threat))
    && (t == Hunger ==> !Fires(p, o, Thirst))
  }

  lemma CrossedIs(p: Observation, o: Observation)
    ensures var fired := Crossed(Read(p), Read(o), o);
            if fired.Some? then FiresFirst(p, o, fired.value) else forall t :: !Fires(p, o, t)
  {
    hide Reached, Read;
    DangerIs(p);
    DangerIs(o);
    PassedIs(p.thirst, o.thirst, o.criticalThirst);
    PassedIs(p.hunger, o.hunger, o.criticalHunger);
    SameReadings(p);
    SameReadings(o);
    if Crossed(Read(p), Read(o), o).None? { NoneFires(p, o); }
  }

  lemma FirstFires(p: Observation, o: Observation)
    ensures forall t :: FiresFirst(p, o, t) ==> Fires(p, o, t)
  {
  }

  lemma SameReadings(o: Observation)
    ensures Read(o).at == o.at && Read(o).thirst == o.thirst && Read(o).hunger == o.hunger && Read(o).bleeding == o.bleeding
  {
  }

  lemma NoneFires(p: Observation, o: Observation)
    requires !Fires(p, o, Bleeding) && !Fires(p, o, Threat) && !Fires(p, o, Thirst) && !Fires(p, o, Hunger)
    ensures forall t :: !Fires(p, o, t)
  {
    forall t: Trigger
      ensures !Fires(p, o, t)
    {
      match t { case Bleeding => case Threat => case Thirst => case Hunger => }
    }
  }

  lemma DangerIs(o: Observation)
    ensures Read(o).danger.Rank() >= 3 <==> Endangered(o, 3)
    ensures Read(o).chasing <==> Chased(o)
  {
  }

  lemma PassedIs(before: Option<real>, now: Option<real>, line: real)
    ensures Reached(before, now, line) <==> Passed(before, now, line)
  {
  }

  // ---- what is done about one ----

  /** The goal that answers a trigger. */
  predicate Serves(kind: Kind, t: Trigger) {
    match t
    case Bleeding => kind == TreatWounds
    case Threat => kind == AvoidThreat
    case Thirst => kind == SatisfyThirst
    case Hunger => kind == SatisfyHunger
  }

  /** Why an attempt stands down, the first of these that is so. */
  ghost predicate StandsDown(q: Queue, t: Trigger, why: StandDown)
    requires Valid(q)
  {
    if exists id :: id in ActiveIds(q) && Serves(q.goals[id].kind, t) then why == AlreadyServing
    else if |OpenIds(q)| >= q.maxOpen then why == ChannelFull
    else exists id :: id in ActiveIds(q)
           && if id in q.cancels then why == NotSuspended(CancelledByRequest)
              else q.goals[id].suspensions >= 3 && why == NotSuspended(QueueRejected)
  }

  /** One attempt: a new decision, and what it says. */
  ghost predicate Attempted(s: State, q: Queue, t: Trigger, at: nat, s': State, q': Queue)
    requires Valid(q)
  {
    && |s'.decisions| == |s.decisions| + 1 && s'.decisions[..|s.decisions|] == s.decisions
    && var made := s'.decisions[|s.decisions|];
       && made.trigger == t && made.at == at
       && if made.outcome.StoodDown? then
            q' == q && s'.inFlight.None? && made.suspended.None? && made.injected.None? && StandsDown(q, t, made.outcome.why)
          else
            && (forall why :: !StandsDown(q, t, why))
            && (forall id :: id in ActiveIds(q) <==> made.suspended == Some(id))
            && (made.injected.Some? ==>
                  && made.outcome.Undecided? && s'.inFlight == Some(Preemption(made.injected.value, |s'.decisions|))
                  && (made.injected.value !in q.goals ==>
                        made.injected.value in q'.goals && Serves(q'.goals[made.injected.value].kind, t)
                        && q'.goals[made.injected.value].state.Pending?))
            && (made.injected.None? ==> made.outcome.InjectRefused? && s'.inFlight.None?)
  }

  lemma PreemptAttempts(s: State, q: Queue, t: Trigger, at: nat)
    requires Valid(q) && s.inFlight.None?
    ensures Attempted(s, q, t, at, Preempt(s, q, t, at).0, Preempt(s, q, t, at).1)
  {
    hide Valid, Preempt, StandsDown, Preempted;
    PreemptConserves(s, q, t, at);
    if Interrupts(s, q, t) {
      InterruptsIs(s, q, t);
      InterruptionIs(s, q, t, at);
    } else {
      DeclineIs(s, q, t, at);
    }
  }

  lemma RunningIs(q: Queue)
    requires Valid(q)
    ensures forall id :: id in ActiveIds(q) <==> Running(q) == Some(id)
  {
    hide Valid;
  }

  lemma AnswerServes(kind: Kind, t: Trigger)
    ensures Serves(kind, t) <==> kind == Answer(t)
  {
  }

  lemma InterruptsIs(s: State, q: Queue, t: Trigger)
    requires Valid(q) && Interrupts(s, q, t)
    ensures forall why :: !StandsDown(q, t, why)
  {
    hide Valid;
    RunningIs(q);
    if Running(q).Some? { AnswerServes(q.goals[Running(q).value].kind, t); }
  }

  lemma InterruptionIs(s: State, q: Queue, t: Trigger, at: nat)
    requires Valid(q) && s.inFlight.None? && Interrupts(s, q, t)
    requires forall why :: !StandsDown(q, t, why)
    ensures Attempted(s, q, t, at, Preempt(s, q, t, at).0, Preempt(s, q, t, at).1)
  {
    hide Valid, Preempt, StandsDown, IsFront, ParkedAhead, OpenIds, Interrupts, Answer;
    PreemptConserves(s, q, t, at);
    RunningIs(q);
    MadeAt(s, q, t, at);
    var (s', q') := Preempt(s, q, t, at);
    var made := s'.decisions[|s.decisions|];
    if made.injected.Some? && made.injected.value !in q.goals {
      assert IsFront(q', PendingIds(q'), made.injected.value);
      FrontIsPending(q', made.injected.value);
      AnswerServes(q'.goals[made.injected.value].kind, t);
    }
  }

  lemma FrontIsPending(q: Queue, id: nat)
    requires IsFront(q, PendingIds(q), id)
    ensures id in q.goals && q.goals[id].state.Pending?
  {
  }

  /** A decision carries the observation it was taken on. */
  lemma MadeAt(s: State, q: Queue, t: Trigger, at: nat)
    requires Valid(q)
    ensures var s' := Preempt(s, q, t, at).0; |s'.decisions| > 0 && s'.decisions[|s'.decisions| - 1].at == at
  {
    hide SubmitFront, Suspend, ParkedAhead, Valid;
    if Running(q).Some? { SuspendKeeps(q, Running(q).value, MintedKey(s, q, t)); }
  }

  lemma DeclineIs(s: State, q: Queue, t: Trigger, at: nat)
    requires Valid(q) && s.inFlight.None? && !Interrupts(s, q, t)
    ensures Attempted(s, q, t, at, Preempt(s, q, t, at).0, Preempt(s, q, t, at).1)
  {
    hide Valid, OpenIds, SubmitFront, NextFrontRank, ParkedAhead;
    RunningIs(q);
    var active := Running(q);
    if active.Some? {
      AnswerServes(q.goals[active.value].kind, t);
      SuspendKeeps(q, active.value, MintedKey(s, q, t));
    }
    assert |Preempt(s, q, t, at).0.decisions| == |s.decisions| + 1;
  }

  // ---- over every run ----

  /** The newest observation, whether or not a channel could be reached. */
  ghost function Newest(events: seq<Event>): Option<Observation> {
    if events == [] then None
    else if events[|events| - 1].Sees? then Some(events[|events| - 1].observation)
    else Newest(events[..|events| - 1])
  }

  lemma {:induction false} LastIsNewest(q: Queue, events: seq<Event>)
    requires Valid(q)
    ensures After(Begin(q), events).arbiter.last ==
            match Newest(events) case None => None case Some(p) => Some(Read(p))
  {
    hide Valid, Settle, Preempt, Read, Apply;
    if events != [] {
      var earlier := events[..|events| - 1];
      LastIsNewest(q, earlier);
      RunKeeps(q, earlier);
      var w := After(Begin(q), earlier);
      match events[|events| - 1] {
        case Channel(op) =>
        case Sees(o, attached) =>
          if attached {
            SettleKeeps(w.arbiter, w.queue);
            var settled := Settle(w.arbiter, w.queue);
            if Wanted(w.arbiter, o, settled).Some? {
              PreemptConserves(settled.(last := Some(Read(o))), w.queue, Wanted(w.arbiter, o, settled).value, o.at);
            }
          }
      }
    }
  }

  /** The preemption in flight is closed when its goal has ended or is forgotten, with
      that outcome under its own decision, and otherwise stays. */
  ghost predicate Settles(s: State, q: Queue, s': State) {
    if s.inFlight.None? then s' == s
    else
      var (id, key) := (s.inFlight.value.injected, s.inFlight.value.entryKey);
      if id in q.goals && (q.goals[id].state.Pending? || q.goals[id].state.Active?) then s' == s
      else
        && 1 <= key <= |s.decisions| && s' == s.(inFlight := None, decisions := s'.decisions)
        && s'.decisions == s.decisions[key - 1 := s.decisions[key - 1].(
             outcome := if id in q.goals then Ended(q.goals[id].state) else Forgotten)]
  }

  /** What one observation does: settles what is in flight, and, between two different
      observations in the autonomous mode with nothing in flight, attempts the first
      trigger that fired. */
  ghost predicate Answered(w: World, before: Option<Observation>, o: Observation, w': World)
    requires Valid(w.queue)
  {
    exists settled: State :: Settles(w.arbiter, w.queue, settled)
      && if before.Some? && before.value.at != o.at && o.autonomous && settled.inFlight.None? && exists t :: FiresFirst(before.value, o, t)
         then exists t :: FiresFirst(before.value, o, t)
                && Attempted(settled.(last := w'.arbiter.last), w.queue, t, o.at, w'.arbiter, w'.queue)
         else w'.queue == w.queue && w'.arbiter == settled.(last := w'.arbiter.last)
  }

  lemma SettlesIs(s: State, q: Queue)
    requires Valid(q) && OneUndecided(s)
    ensures Settles(s, q, Settle(s, q))
  {
    hide Valid;
  }

  /** Over every run, an observation with the channel in reach is answered so, and one
      without it only becomes the newest. */
  lemma EverySightIsAnswered(q: Queue, events: seq<Event>, o: Observation)
    requires Valid(q)
    ensures var w := After(Begin(q), events); Answered(w, Newest(events), o, Step(w, Sees(o, true)))
    ensures var (w, w') := (After(Begin(q), events), Step(After(Begin(q), events), Sees(o, false)));
            w' == World(w.arbiter.(last := w'.arbiter.last), w.queue)
  {
    hide After, Inv, Answered, Step, Valid;
    RunKeeps(q, events);
    LastIsNewest(q, events);
    SightAnswered(After(Begin(q), events), Newest(events), o);
    SightOutOfReach(After(Begin(q), events), o);
  }

  lemma SightOutOfReach(w: World, o: Observation)
    requires Valid(w.queue)
    ensures var w' := Step(w, Sees(o, false)); w' == World(w.arbiter.(last := w'.arbiter.last), w.queue)
  {
  }

  lemma SightAnswered(w: World, before: Option<Observation>, o: Observation)
    requires Inv(w) && w.arbiter.last == match before case None => None case Some(p) => Some(Read(p))
    ensures Answered(w, before, o, Step(w, Sees(o, true)))
  {
    hide Valid, Settle, Settles, Preempt, Read, Attempted, FiresFirst, OthersClosed, OneUndecided;
    if before.Some? { SameReadings(before.value); }
    var settled := Settle(w.arbiter, w.queue);
    SettlesIs(w.arbiter, w.queue);
    SettleKeeps(w.arbiter, w.queue);
    var read := settled.(last := Some(Read(o)));
    var wanted := Wanted(w.arbiter, o, settled);
    if wanted.Some? {
      CrossedIs(before.value, o);
      PreemptAttempts(read, w.queue, wanted.value, o.at);
      PreemptConserves(read, w.queue, wanted.value, o.at);
      var w' := Step(w, Sees(o, true));
      assert FiresFirst(before.value, o, wanted.value);
      assert w'.arbiter.last == read.last && settled.(last := w'.arbiter.last) == read;
      assert Attempted(settled.(last := w'.arbiter.last), w.queue, wanted.value, o.at, w'.arbiter, w'.queue);
    } else if before.Some? && before.value.at != o.at && o.autonomous && settled.inFlight.None? {
      CrossedIs(before.value, o);
      FirstFires(before.value, o);
    }
  }
}
