/** What arbitration guarantees over every run: observations and everything else
    that can happen to the goal channel, interleaved in any order. */
module ArbiterSafety {
  import opened Wrappers
  import opened GoalQueue
  import opened Arbiter

  /** `attached` is false while no channel can be reached. */
  datatype Event = Sees(observation: Observation, attached: bool) | Channel(op: Op)

  datatype World = World(arbiter: State, queue: Queue)

  function Step(w: World, e: Event): (w': World)
    requires Valid(w.queue)
    ensures Valid(w'.queue)
  {
    match e
    case Channel(op) =>
      ApplyKeeps(w.queue, op);
      w.(queue := Apply(w.queue, op))
    case Sees(o, attached) =>
      ObserveKeeps(w.arbiter, o, w.queue);
      var (s, channel) := Observe(w.arbiter, o, if attached then Some(w.queue) else None);
      World(s, if attached then channel.value else w.queue)
  }

  function After(w: World, events: seq<Event>): (w': World)
    requires Valid(w.queue)
    ensures Valid(w'.queue)
  {
    if events == [] then w else Step(After(w, events[..|events| - 1]), events[|events| - 1])
  }

  /** A fresh arbiter over a channel in any state, restored or new. */
  function Begin(q: Queue): World { World(State(None, None, 0, []), q) }

  lemma ObserveKeeps(s: State, o: Observation, q: Queue)
    requires Valid(q)
    ensures Valid(Observe(s, o, Some(q)).1.value)
  {
    var settled := Settle(s, q);
    if Wanted(s, o, settled).Some? {
      PreemptConserves(settled.(last := Some(Read(o))), q, Wanted(s, o, settled).value, o.at);
    }
  }

  // ---- one attempt ----

  /** An injection into a channel with room opens a goal ahead of everything
      waiting, or answers with the goal its key already names, or is refused. */
  lemma InjectConserves(s: State, q: Queue, r: Request, suspended: Option<nat>, t: Trigger, at: nat)
    requires Valid(q) && s.inFlight.None? && |OpenIds(q)| < q.maxOpen && ActiveIds(q) == {}
    ensures var (s', q') := Inject(s, q, r, suspended, t, at);
            && Valid(q') && q'.maxOpen == q.maxOpen && q'.cancels == q.cancels && ActiveIds(q') == {}
            && q' == SubmitFront(q, r).0 && q.nextId <= q'.nextId && q'.keys.Keys <= q.keys.Keys + {r.key}
            && (s'.inFlight.Some? && s'.inFlight.value.injected !in q.goals <==> !Known(q, r.key))
            && s'.inFlight == (if SubmitFront(q, r).1.Refused? then None
                               else Some(Preemption(SubmitFront(q, r).1.id, |s'.decisions|)))
            && |s'.decisions| == |s.decisions| + 1 && s.decisions <= s'.decisions
            && s'.injections == s.injections && s'.last == s.last
            && var made := s'.decisions[|s.decisions|];
            && made.suspended == suspended && made.trigger == t
            && if s'.inFlight.None? then made.outcome.InjectRefused? && made.injected.None? && q'.goals == q.goals && OpenIds(q') == OpenIds(q)
               else
                 var injected := s'.inFlight.value.injected;
                 && made.outcome.Undecided? && made.injected == Some(injected)
                 && if injected in q.goals then q'.goals == q.goals && OpenIds(q') == OpenIds(q) && injected < q.nextId
                    else
                      && injected == q.nextId < q'.nextId && injected in q'.goals && q'.goals == q.goals[injected := q'.goals[injected]]
                      && q'.goals[injected].kind == r.kind
                      && OpenIds(q') == OpenIds(q) + {injected} && PendingIds(q') == PendingIds(q) + {injected}
                      && IsFront(q', PendingIds(q'), injected)
  {
    hide Valid, NextFrontRank, IsFront, SubmitFront;
    SubmitFrontKeeps(q, r);
  }

  /** Exactly when an attempt interrupts or injects. */
  predicate Interrupts(s: State, q: Queue, t: Trigger)
    requires Valid(q)
  {
    && |OpenIds(q)| < q.maxOpen
    && (Running(q).Some? ==>
          var goal := q.goals[Running(q).value];
          goal.kind != Answer(t) && Running(q).value !in q.cancels && goal.suspensions < MAX_SUSPENSIONS)
  }

  /** An attempt either declines and leaves the channel alone, or frees it of its
      active goal, which waits ahead of the whole backlog but for the injection;
      open goals are conserved but for at most one new goal. */
  lemma PreemptConserves(s: State, q: Queue, t: Trigger, at: nat)
    requires Valid(q) && s.inFlight.None?
    ensures var (s', q') := Preempt(s, q, t, at);
            && Valid(q') && q'.maxOpen == q.maxOpen && q'.cancels == q.cancels
            && |s'.decisions| == |s.decisions| + 1 && s.decisions <= s'.decisions && s'.last == s.last
            && (s'.inFlight.Some? <==> s'.decisions[|s.decisions|].outcome.Undecided?)
            && if !Interrupts(s, q, t) then q' == q && s'.inFlight.None?
               else Preempted(s, q, t, s', q')
  {
    hide Valid, OpenIds, Inject, Suspend, Preempted, MintedKey;
    if !Interrupts(s, q, t) {
      AttemptDeclines(s, q, t, at);
    } else if Running(q).None? {
      AttemptInjects(s, q, t, at);
    } else {
      AttemptSuspends(s, q, t, at);
    }
  }

  lemma AttemptDeclines(s: State, q: Queue, t: Trigger, at: nat)
    requires Valid(q) && !Interrupts(s, q, t)
    ensures exists why, s1 :: (s1 == s || s1 == s.(injections := s.injections + 1)) && Preempt(s, q, t, at) == (Decline(s1, t, at, why), q)
  {
    var s1 := s.(injections := s.injections + 1);
    var active := Running(q);
    if active.Some? && q.goals[active.value].kind == Answer(t) {
      assert Preempt(s, q, t, at) == (Decline(s, t, at, AlreadyServing), q);
    } else if |OpenIds(q)| >= q.maxOpen {
      assert Preempt(s, q, t, at) == (Decline(s, t, at, ChannelFull), q);
    } else {
      var refusal := Suspend(q, active.value, MintedKey(s, q, t)).1;
      assert Preempt(s, q, t, at) == (Decline(s1, t, at, NotSuspended(refusal.value)), q);
    }
  }

  lemma AttemptInjects(s: State, q: Queue, t: Trigger, at: nat)
    requires Valid(q) && s.inFlight.None? && Interrupts(s, q, t) && Running(q).None?
    ensures var (s', q') := Preempt(s, q, t, at);
            && Valid(q') && q'.maxOpen == q.maxOpen && q'.cancels == q.cancels && s'.last == s.last
            && |s'.decisions| == |s.decisions| + 1 && s.decisions <= s'.decisions
            && (s'.inFlight.Some? <==> s'.decisions[|s.decisions|].outcome.Undecided?)
            && Preempted(s, q, t, s', q')
  {
    hide Valid, IsFront, ParkedAhead, Inject, SubmitFront, Preempt, OpenIds, PendingIds;
    var s1, r := s.(injections := s.injections + 1), Request(Answer(t), "", MintedKey(s, q, t));
    InjectsAtOnce(s, q, t, at);
    InjectConserves(s1, q, r, None, t, at);
  }

  lemma InjectsAtOnce(s: State, q: Queue, t: Trigger, at: nat)
    requires Valid(q) && Interrupts(s, q, t) && Running(q).None?
    ensures Preempt(s, q, t, at) ==
            Inject(s.(injections := s.injections + 1), q, Request(Answer(t), "", MintedKey(s, q, t)), None, t, at)
  {
  }

  lemma AttemptSuspends(s: State, q: Queue, t: Trigger, at: nat)
    requires Valid(q) && s.inFlight.None? && Interrupts(s, q, t) && Running(q).Some?
    ensures var (s', q') := Preempt(s, q, t, at);
            && Valid(q') && q'.maxOpen == q.maxOpen && q'.cancels == q.cancels && s'.last == s.last
            && |s'.decisions| == |s.decisions| + 1 && s.decisions <= s'.decisions
            && (s'.inFlight.Some? <==> s'.decisions[|s.decisions|].outcome.Undecided?)
            && Preempted(s, q, t, s', q')
  {
    hide Valid, IsFront, ParkedAhead, Suspend, Inject, SubmitFront, Preempt, OpenIds, PendingIds;
    var id, key := Running(q).value, MintedKey(s, q, t);
    SuspendKeeps(q, id, key);
    var s1, r, parked := s.(injections := s.injections + 1), Request(Answer(t), "", key), Suspend(q, id, key).0;
    SuspendsThenInjects(s, q, t, at);
    InjectConserves(s1, parked, r, Some(id), t, at);
    SuspendThenFront(q, id, key, r);
  }

  lemma SuspendsThenInjects(s: State, q: Queue, t: Trigger, at: nat)
    requires Valid(q) && Interrupts(s, q, t) && Running(q).Some?
    ensures var (id, key) := (Running(q).value, MintedKey(s, q, t));
            && Valid(Suspend(q, id, key).0)
            && Preempt(s, q, t, at) ==
               Inject(s.(injections := s.injections + 1), Suspend(q, id, key).0, Request(Answer(t), "", key), Some(id), t, at)
  {
    hide Inject, ParkedAhead;
    SuspendKeeps(q, Running(q).value, MintedKey(s, q, t));
  }

  /** What an interruption leaves behind. */
  ghost predicate Preempted(s: State, q: Queue, t: Trigger, s': State, q': Queue)
    requires Valid(q) && |s'.decisions| == |s.decisions| + 1
  {
    var made := s'.decisions[|s.decisions|];
    && s'.injections == s.injections + 1 && q.nextId <= q'.nextId
    && q'.keys.Keys <= q.keys.Keys + {MintedKey(s, q, t)}
    && (s'.inFlight.Some? && s'.inFlight.value.injected !in q.goals <==> !Known(q, MintedKey(s, q, t)))
    && made.trigger == t && made.suspended == Running(q)
    && ActiveIds(q') == {} && OpenIds(q) <= OpenIds(q')
    && (s'.inFlight.None? ==> made.outcome.InjectRefused? && made.injected.None? && OpenIds(q') == OpenIds(q) && q'.goals.Keys == q.goals.Keys)
    && (s'.inFlight.Some? ==>
          var injected := s'.inFlight.value.injected;
          && s'.inFlight.value.entryKey == |s'.decisions| && made.injected == Some(injected)
          && (injected !in q.goals ==>
                injected == q.nextId < q'.nextId && OpenIds(q') == OpenIds(q) + {injected} && q'.goals[injected].kind == Answer(t)
                && IsFront(q', PendingIds(q'), injected))
          && (injected in q.goals ==> OpenIds(q') == OpenIds(q) && injected < q.nextId))
    && (forall id :: id in q.goals && Running(q) != Some(id) ==> id in q'.goals && q'.goals[id] == q.goals[id])
    && (forall id :: id in q'.goals && id !in q.goals ==> InFlight(s', id))
    && (Running(q).Some? ==>
          ParkedAhead(q, q', Running(q).value, MintedKey(s, q, t),
                      if s'.inFlight.Some? then Some(s'.inFlight.value.injected) else None))
  }

  // ---- every run ----

  predicate InFlight(s: State, id: nat) { s.inFlight.Some? && s.inFlight.value.injected == id }

  /** Undecided is exactly the newest decision while its preemption is in flight. */
  ghost predicate OneUndecided(s: State) {
    && (forall i :: 0 <= i < |s.decisions| && s.decisions[i].outcome.Undecided? ==>
          s.inFlight.Some? && i == |s.decisions| - 1)
    && (s.inFlight.Some? ==>
          && 1 <= s.inFlight.value.entryKey == |s.decisions|
          && s.decisions[|s.decisions| - 1].outcome.Undecided?
          && s.decisions[|s.decisions| - 1].injected == Some(s.inFlight.value.injected))
  }

  /** Of all goals ever injected, only the one in flight can still be open. */
  ghost predicate OthersClosed(s: State, q: Queue) {
    forall i :: 0 <= i < |s.decisions| && s.decisions[i].injected.Some? ==>
      && s.decisions[i].injected.value < q.nextId
      && (s.decisions[i].injected.value in OpenIds(q) ==> InFlight(s, s.decisions[i].injected.value))
  }

  ghost predicate Inv(w: World) { Valid(w.queue) && OneUndecided(w.arbiter) && OthersClosed(w.arbiter, w.queue) }

  lemma ApplyOpens(q: Queue, op: Op)
    requires Valid(q)
    ensures q.nextId <= Apply(q, op).nextId
    ensures forall id :: id in OpenIds(Apply(q, op)) && id < q.nextId ==> id in OpenIds(q)
  {
    hide NextFrontRank, Numbered, AllMarked, OneActive;
  }

  lemma SettleKeeps(s: State, q: Queue)
    requires Valid(q) && OneUndecided(s) && OthersClosed(s, q)
    ensures var s' := Settle(s, q);
            && OneUndecided(s') && OthersClosed(s', q) && s'.last == s.last && s'.injections == s.injections
            && (s'.inFlight == s.inFlight || s'.inFlight.None?)
            && (s'.inFlight.Some? ==> s' == s && s.inFlight.value.injected in OpenIds(q))
            && (s.inFlight.Some? && s'.inFlight.None? ==> s.inFlight.value.injected !in OpenIds(q))
            && |s'.decisions| == |s.decisions|
            && forall i :: 0 <= i < |s.decisions| ==>
                 s'.decisions[i] == s.decisions[i].(outcome := s'.decisions[i].outcome)
                 && (s.decisions[i].outcome.InjectRefused? <==> s'.decisions[i].outcome.InjectRefused?)
  {
  }

  lemma PreemptKeeps(s: State, q: Queue, t: Trigger, at: nat)
    requires Valid(q) && s.inFlight.None? && OneUndecided(s) && OthersClosed(s, q)
    ensures Inv(World(Preempt(s, q, t, at).0, Preempt(s, q, t, at).1))
  {
    hide Valid, Preempt, Interrupts, IsFront, ParkedAhead, MintedKey, OpenIds, ActiveIds, PendingIds, Known;
    PreemptConserves(s, q, t, at);
    if !Interrupts(s, q, t) {
      PreemptDeclined(s, q, t, at);
    }
  }

  lemma PreemptDeclined(s: State, q: Queue, t: Trigger, at: nat)
    requires Valid(q) && !Interrupts(s, q, t)
    ensures var s' := Preempt(s, q, t, at).0;
            s'.decisions[|s.decisions|].injected.None? && s'.decisions[|s.decisions|].outcome.StoodDown?
            && s.injections <= s'.injections
  {
    AttemptDeclines(s, q, t, at);
  }

  /** Over every run from any channel: at most one decision is undecided, always
      the newest; and no goal injected earlier is still open. */
  lemma {:induction false} RunKeeps(q: Queue, events: seq<Event>)
    requires Valid(q)
    ensures Inv(After(Begin(q), events))
    decreases |events|
  {
    if events != [] {
      RunKeeps(q, events[..|events| - 1]);
      StepKeeps(After(Begin(q), events[..|events| - 1]), events[|events| - 1]);
    }
  }

  lemma StepKeeps(w: World, e: Event)
    requires Inv(w)
    ensures Inv(Step(w, e))
  {
    hide Valid, Apply, Settle, Preempt, OpenIds;
    match e {
      case Channel(op) => ApplyOpens(w.queue, op);
      case Sees(o, attached) =>
        if attached {
          SettleKeeps(w.arbiter, w.queue);
          var settled := Settle(w.arbiter, w.queue);
          if Wanted(w.arbiter, o, settled).Some? {
            PreemptKeeps(settled.(last := Some(Read(o))), w.queue, Wanted(w.arbiter, o, settled).value, o.at);
          }
        }
    }
  }

  /** The bounded ledger never loses an unsettled decision: it is the newest entry
      held, and every other entry held is settled. */
  lemma NeverEvictedUnsettled(q: Queue, events: seq<Event>)
    requires Valid(q)
    ensures HoldsUnsettled(After(Begin(q), events).arbiter)
  {
    hide Valid, After, OthersClosed, HoldsUnsettled;
    RunKeeps(q, events);
    NewestIsHeld(After(Begin(q), events).arbiter);
  }

  ghost predicate HoldsUnsettled(s: State) {
    var log := Ledger(s.decisions);
    && (s.inFlight.Some? ==>
          |log| > 0 && log[|log| - 1].0 == s.inFlight.value.entryKey && log[|log| - 1].1.outcome.Undecided?)
    && forall i :: 0 <= i < |log| && log[i].1.outcome.Undecided? ==> s.inFlight.Some? && i == |log| - 1
  }

  lemma NewestIsHeld(s: State)
    requires OneUndecided(s)
    ensures HoldsUnsettled(s)
  {
  }

  // ---- resuming is nobody's job ----

  /** `goal` waits with nothing ahead of it, waiting or running, but the preemption
      in flight. */
  ghost predicate Waiting(w: World, goal: nat) {
    && Inv(w) && goal in Startable(w.queue) && w.queue.goals[goal].frontRank < 0
    && (forall id :: id in PendingIds(w.queue) && id != goal && Before(w.queue.goals[id], w.queue.goals[goal]) ==>
          InFlight(w.arbiter, id))
    && (forall id :: id in ActiveIds(w.queue) ==> InFlight(w.arbiter, id))
  }

  lemma SuspensionWaits(w: World, o: Observation, goal: nat)
    requires Inv(w) && ActiveIds(w.queue) == {goal}
    requires goal in PendingIds(Step(w, Sees(o, true)).queue)
    ensures Waiting(Step(w, Sees(o, true)), goal)
  {
    hide Preempt, NextFrontRank, Numbered, AllMarked, IsFront, Known, MintedKey;
    StepKeeps(w, Sees(o, true));
    SettleKeeps(w.arbiter, w.queue);
    var settled := Settle(w.arbiter, w.queue);
    var read := settled.(last := Some(Read(o)));
    var t := Wanted(w.arbiter, o, settled);
    assert t.Some?;
    PreemptConserves(read, w.queue, t.value, o.at);
    assert Running(w.queue) == Some(goal);
    assert Interrupts(read, w.queue, t.value);
  }

  /** No waiting goal moved, none new in front, and none started but the next. */
  ghost predicate Frames(q: Queue, q': Queue)
    requires Valid(q)
  {
    && (forall id :: id in PendingIds(q') ==>
          if id in q.goals then id in PendingIds(q) && q'.goals[id].frontRank == q.goals[id].frontRank
                                && q'.goals[id].sequence == q.goals[id].sequence
          else q'.goals[id].frontRank == 0)
    && (forall id :: id in ActiveIds(q') ==> id in ActiveIds(q) || NextUp(q) == Some(id))
  }

  lemma SubmitFrames(q: Queue, r: Request)
    requires Valid(q)
    ensures Frames(q, Submit(q, r).0)
  {
    assert Numbered(q);
    hide Valid, NextUp, OpenIds;
    assert q.nextId !in q.goals;
  }

  lemma ActivateFrames(q: Queue)
    requires Valid(q)
    ensures Frames(q, ActivateNext(q))
  {
    hide NextFrontRank, AllMarked, OneActive;
  }

  lemma EndAllFrames(q: Queue, ids: set<nat>, how: GoalState)
    requires Valid(q) && how.Terminal()
    ensures Frames(q, EndAll(q, ids, how))
  {
    hide Valid, NextUp;
  }

  lemma SameFrames(q: Queue, q': Queue)
    requires Valid(q) && forall id :: id in q'.goals ==> id in q.goals && q'.goals[id] == q.goals[id]
    ensures Frames(q, q')
  {
    hide Valid, NextUp;
  }

  /** Disarming first changes no goal. */
  lemma DisarmedFrames(q: Queue, ids: set<nat>)
    requires Valid(q)
    ensures Frames(q, EndAll(q.(armed := false), ids, Cancelled))
  {
    hide Valid, NextUp;
  }

  /** No operation on the channel moves a waiting goal, puts one at the front, or
      starts any but the next. */
  lemma ApplyFrames(q: Queue, op: Op)
    requires Valid(q)
    ensures Frames(q, Apply(q, op))
  {
    hide Valid, Frames, Submit, ActivateNext, EndAll, OpenIds, NextUp;
    match op {
      case Submits(r) => SubmitFrames(q, r);
      case Activates => ActivateFrames(q);
      case AppliesCancels => EndAllFrames(q, q.cancels, Cancelled);
      case Ends(id, how) => if how.Terminal() { EndAllFrames(q, {id}, how); } else { SameFrames(q, q); }
      case Disarms => DisarmedFrames(q, ActiveIds(q) + SuspendedIds(q));
      case Panics => DisarmedFrames(q, OpenIds(q));
      case _ => SameFrames(q, Apply(q, op));
    }
  }

  lemma ChannelKeepsWaiting(w: World, op: Op, goal: nat)
    requires Waiting(w, goal) && goal in Startable(Apply(w.queue, op))
    ensures Waiting(Step(w, Channel(op)), goal)
  {
    hide NextFrontRank, Numbered, OneActive, OthersClosed, OneUndecided, Apply;
    StepKeeps(w, Channel(op));
    ApplyFrames(w.queue, op);
    assert IsFront(w.queue, Startable(w.queue), NextUp(w.queue).value);
  }

  lemma ObservationKeepsWaiting(w: World, o: Observation, goal: nat)
    requires Waiting(w, goal) && goal in Startable(Step(w, Sees(o, true)).queue)
    ensures Waiting(Step(w, Sees(o, true)), goal)
  {
    hide Preempt, NextFrontRank, Numbered, AllMarked, IsFront, Known, MintedKey;
    StepKeeps(w, Sees(o, true));
    SettleKeeps(w.arbiter, w.queue);
    var settled := Settle(w.arbiter, w.queue);
    var t := Wanted(w.arbiter, o, settled);
    if t.Some? {
      PreemptConserves(settled.(last := Some(Read(o))), w.queue, t.value, o.at);
    }
  }

  /** Whatever happens meanwhile, a suspended goal that stays waiting and uncancelled
      has only the preemption in flight ahead of it. */
  lemma {:induction false} WaitingKept(w: World, events: seq<Event>, goal: nat)
    requires Waiting(w, goal)
    requires forall n :: 0 <= n <= |events| ==> goal in Startable(After(w, events[..n]).queue)
    ensures Waiting(After(w, events), goal)
    decreases |events|
  {
    if events != [] {
      var n := |events| - 1;
      var earlier := events[..n];
      forall m | 0 <= m <= |earlier|
        ensures goal in Startable(After(w, earlier[..m]).queue)
      {
        assert earlier[..m] == events[..m];
      }
      WaitingKept(w, earlier, goal);
      assert events[..|events|] == events;
      var w' := After(w, earlier);
      match events[n] {
        case Channel(op) => ChannelKeepsWaiting(w', op, goal);
        case Sees(o, attached) =>
          if attached { ObservationKeepsWaiting(w', o, goal); } else { StepKeeps(w', events[n]); }
      }
    }
  }

  /** However the preemption ends, and even if the injection is refused, the goal
      it suspended is the next to start. */
  lemma SuspendedGoalIsNext(w: World, o: Observation, goal: nat, events: seq<Event>)
    requires Inv(w) && ActiveIds(w.queue) == {goal}
    requires goal in PendingIds(Step(w, Sees(o, true)).queue)
    requires forall n :: 0 <= n <= |events| ==> goal in Startable(After(Step(w, Sees(o, true)), events[..n]).queue)
    ensures var w' := After(Step(w, Sees(o, true)), events);
            && (NextUp(w'.queue) == Some(goal)
                || (NextUp(w'.queue).Some? && InFlight(w'.arbiter, NextUp(w'.queue).value)))
            && forall id :: id in ActiveIds(w'.queue) ==> InFlight(w'.arbiter, id)
  {
    SuspensionWaits(w, o, goal);
    WaitingKept(Step(w, Sees(o, true)), events, goal);
    var w' := After(Step(w, Sees(o, true)), events);
    assert IsFront(w'.queue, Startable(w'.queue), NextUp(w'.queue).value);
  }

  // ---- fresh keys ----

  /** No key the arbiter has yet to mint is in use. */
  predicate Unminted(q: Queue, n: nat) { forall key :: key in q.keys && key.ArbiterKey? ==> key.n <= n }

  predicate Outside(e: Event) { e.Channel? && e.op.Submits? ==> e.op.request.key.TextKey? }

  /** Each injection opened a goal of its own. */
  ghost predicate AllDistinct(s: State) {
    && (forall i :: 0 <= i < |s.decisions| ==> !s.decisions[i].outcome.InjectRefused?)
    && forall i, j :: 0 <= i < j < |s.decisions| && s.decisions[i].injected.Some? && s.decisions[j].injected.Some? ==>
         s.decisions[i].injected.value < s.decisions[j].injected.value
  }

  lemma PreemptIsFresh(s: State, q: Queue, t: Trigger, at: nat)
    requires Valid(q) && s.inFlight.None? && OneUndecided(s) && OthersClosed(s, q)
    requires Unminted(q, s.injections) && AllDistinct(s)
    ensures var (s', q') := Preempt(s, q, t, at);
            Unminted(q', s'.injections) && AllDistinct(s') && s.injections <= s'.injections
  {
    hide Valid, Preempt, Interrupts, IsFront, ParkedAhead, OpenIds, ActiveIds, PendingIds;
    PreemptConserves(s, q, t, at);
    if !Interrupts(s, q, t) {
      PreemptDeclined(s, q, t, at);
    }
  }

  /** While nobody else submits under the arbiter's keys, every attempt's key is
      new, no injection is refused, and each opens a goal nobody opened before. */
  lemma {:induction false} KeysAreFresh(q: Queue, events: seq<Event>)
    requires Valid(q) && Unminted(q, 0)
    requires forall i :: 0 <= i < |events| ==> Outside(events[i])
    ensures var w := After(Begin(q), events);
            Unminted(w.queue, w.arbiter.injections) && AllDistinct(w.arbiter)
    decreases |events|
  {
    hide Valid, Apply, Settle, Preempt, OpenIds;
    if events != [] {
      var earlier := events[..|events| - 1];
      KeysAreFresh(q, earlier);
      RunKeeps(q, earlier);
      var w := After(Begin(q), earlier);
      match events[|events| - 1] {
        case Channel(op) => ApplyMintsNothing(w.queue, op, w.arbiter.injections);
        case Sees(o, attached) =>
          if attached {
            SettleKeeps(w.arbiter, w.queue);
            var settled := Settle(w.arbiter, w.queue);
            if Wanted(w.arbiter, o, settled).Some? {
              PreemptIsFresh(settled.(last := Some(Read(o))), w.queue, Wanted(w.arbiter, o, settled).value, o.at);
            }
          }
      }
    }
  }

  lemma ApplyMintsNothing(q: Queue, op: Op, n: nat)
    requires Valid(q) && Unminted(q, n) && Outside(Channel(op))
    ensures Unminted(Apply(q, op), n)
  {
    hide NextFrontRank, Numbered, AllMarked, OneActive;
  }

  /** An idle attempt whose key the channel still knows is answered by the goal that
      key named, however long ago that goal ended, and opens nothing. */
  lemma KnownKeyOpensNothing(s: State, q: Queue, t: Trigger, at: nat)
    requires Valid(q) && ActiveIds(q) == {} && |OpenIds(q)| < q.maxOpen
    requires var key := ArbiterKey(None, t, s.injections + 1);
             Known(q, key) && q.goals[q.keys[key]].kind == Answer(t) && q.goals[q.keys[key]].params == ""
    ensures var (s', q') := Preempt(s, q, t, at);
            && q' == q
            && s'.decisions == s.decisions + [Entry(t, None, Some(q.keys[ArbiterKey(None, t, s.injections + 1)]), at, Undecided)]
  {
    hide NextFrontRank, Numbered, OneActive, AllMarked;
  }

  /** After a restart the counter begins again while the channel still knows the old
      keys: the crossing is answered by the goal of the earlier life, already ended,
      and no goal is opened for it. */
  lemma RestartReplaysKey(seen: Observation, thirsty: Observation)
    requires seen.at != thirsty.at && thirsty.autonomous && !thirsty.bleeding && thirsty.nearby.None?
    requires thirsty.modDanger.NoDanger? && seen.thirst.Some? && thirsty.thirst.Some?
    requires seen.thirst.value < thirsty.criticalThirst <= thirsty.thirst.value
    ensures var key := ArbiterKey(None, Thirst, 1);
            var ended := Goal(SatisfyThirst, "", 0, Succeeded, 0, None, 0);
            var q := Queue(map[0 := ended], map[key := 0], {}, 4, true, 1, 1);
            && Valid(q) && !Unminted(q, 0)
            && var w := After(Begin(q), [Sees(seen, true), Sees(thirsty, true)]);
            && w.arbiter.decisions == [Entry(Thirst, None, Some(0), thirsty.at, Undecided)]
            && OpenIds(w.queue) == {} && w.queue.goals == q.goals
  {
    var key := ArbiterKey(None, Thirst, 1);
    var ended := Goal(SatisfyThirst, "", 0, Succeeded, 0, None, 0);
    var q := Queue(map[0 := ended], map[key := 0], {}, 4, true, 1, 1);
    assert OpenIds(q) == {} && ActiveIds(q) == {} && PendingIds(q) == {};
    assert key in q.keys;
    hide NextFrontRank, Preempt, Numbered, OneActive, AllMarked;
    var (w0, w1) := (Begin(q), Step(Begin(q), Sees(seen, true)));
    assert w1 == World(State(Some(Read(seen)), None, 0, []), q);
    assert Wanted(w1.arbiter, thirsty, w1.arbiter) == Some(Thirst);
    KnownKeyOpensNothing(w1.arbiter.(last := Some(Read(thirsty))), q, Thirst, thirsty.at);
    var events := [Sees(seen, true), Sees(thirsty, true)];
    assert events[..1] == [Sees(seen, true)] && events[..1][..0] == [];
    assert After(w0, []) == w0;
    assert After(w0, events[..1]) == w1;
  }
}
