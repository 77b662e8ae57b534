/** What the eat-or-drink mission answers: exactly when it ends, and how. */
module ConsumeAnswers {
  import opened Wrappers
  import opened MissionMoves
  import opened Ordering
  import opened ConsumeDecision
  import opened ConsumeSafety
  import R = RetreatTarget
  import J = Journey

  // ---- endings ----

  /** With the need above its target and nothing left to try: the need was read lower
      after a consume, or a consume changed nothing, or nothing was ever verified. */
  ghost predicate Exhausted(m: Mission, past: seq<ConsumeEntry>, obs: Obs, move: Move<Command>) {
    var now := past + [Told(obs, move)];
    if Dropped(now) then move.Complete?
    else if Unmoved(now) then move == Refuse(EndedNoProgress, NoProgress)
    else move == Refuse(EndedNothingFound, m.refusal)
  }

  /** The need at its target: complete after a success, or probe for one, or give up. */
  ghost predicate Satisfied(m: Mission, past: seq<ConsumeEntry>, move: Move<Command>) {
    if Count(past, IsSuccess) > 0 then move.Complete?
    else if Count(past, IsProbe) < m.limits.maxProbes then move == Probe(Count(past, IsProbe) + 1)
    else move == Refuse(EndedNoProgress, NoProgress)
  }

  /** The whole answer to an observation, commands aside. */
  ghost predicate Concluded(m: Mission, failures: nat, past: seq<ConsumeEntry>, obs: Obs, move: Move<Command>) {
    if EndingOf(past).Some? then move == EndingOf(past).value
    else if Outstanding(past).Some? then move.Wait?
    else if failures >= m.limits.maxFailures then move == Refuse(EndedNoProgress, NoProgress)
    else if obs.stat.None? then move == Refuse(EndedUnreported, PreconditionFailed)
    else if obs.stat.value <= m.target then Satisfied(m, past, move)
    else if obs.inventory.None? then move.Wait?
    else move.Do? || Exhausted(m, past, obs, move)
  }

  lemma ExhaustedIs(m: Mission, t: State, log: seq<ConsumeEntry>, obs: Obs)
    requires ReadBooks(t, log, obs)
    ensures Exhausted(m, log, obs, FinishExhausted(m, t).1)
  {
    hide Dropped, Unmoved, Retired, Awaiting, SentReading;
    ReadingsIgnoreMove(log, obs, FinishExhausted(m, t).1, Wait);
  }

  lemma SatisfiedIs(m: Mission, t: State, log: seq<ConsumeEntry>)
    requires Control(t, log)
    ensures Satisfied(m, log, FinishSatisfied(m, t).1)
  {
    hide Count, EndingOf, Outstanding;
  }

  lemma SeekConcludes(m: Mission, t: State, log: seq<ConsumeEntry>, obs: Obs)
    requires m.Valid() && Core(m, t, log) && ReadBooks(t, log, obs) && obs.inventory.Some? && obs.stat.Some?
    requires t.final.None? && t.Idle()
    ensures var move := Seek(m, t, obs, obs.stat.value).1; move.Do? || Exhausted(m, log, obs, move)
  {
    hide Count, EndingOf, Outstanding, Progress, LastFetched, Dropped, Unmoved, Retired, Awaiting, SentReading,
         HasUnmoved, Prefilter, Hunt, Exhausted, FinishExhausted;
    ExhaustedIs(m, t, log, obs);
    if t.spent < m.limits.maxCandidates {
      assert Hunting(m, t, log);
      var looked := Withhold(t, obs, obs.inventory.value.items);
      if !(t.stage.CheckStage? && PickCarried(m, t, obs).Some?) {
        var from := if t.stage.CheckStage? then looked else t;
        assert Hunting(m, from, log) && ReadBooks(from, log, obs);
        HuntKeeps(m, from, log, obs);
        SameExhaustion(m, from, t);
      }
    }
  }

  lemma LookConcludes(m: Mission, s: State, log: seq<ConsumeEntry>, obs: Obs)
    requires m.Valid() && Inv(m, s, log)
    ensures Concluded(m, s.failures, log, obs, Decide(m, s, obs).1)
  {
    hide Count, EndingOf, Outstanding, Progress, LastFetched, Dropped, Unmoved, Retired, Awaiting, SentReading,
         HasUnmoved, Seek, Read, Discover, Exhausted, Satisfied;
    if s.final.None? && s.pending.None? && s.failures < m.limits.maxFailures && obs.stat.Some? {
      DiscoverKeeps(m, s, log, obs);
      var here := Discover(s, obs);
      DiscoverFrame(s, obs);
      var read := Read(here, obs.stat.value);
      ReadKeeps(m, here, log, obs);
      ReadFrame(here, obs.stat.value);
      if obs.stat.value <= m.target { SatisfiedIs(m, read, log); }
      else if obs.inventory.Some? { SeekConcludes(m, read, log, obs); }
    }
  }

  /** Over every run the answer to any observation is the one the log before it calls
      for; a command, or one ending and no other. */
  lemma EveryAnswerIsDue(m: Mission, events: seq<Event>, obs: Obs)
    requires m.Valid()
    ensures var run := After(m, events); Concluded(m, run.state.failures, run.log, obs, Decide(m, run.state, obs).1)
  {
    hide Inv, Concluded, Decide, Step;
    RunKeeps(m, events);
    LookConcludes(m, After(m, events).state, After(m, events).log, obs);
  }

  // ---- which command ----

  /** The items on offer, in order: of the need's category, not retired, not reserved. */
  function OnOffer(items: seq<Item>, gone: set<string>, obs: Obs): seq<Item> {
    if items == [] then []
    else
      (if items[0].wanted && items[0].id !in gone && !obs.reserved(items[0].fullType) then [items[0]] else [])
      + OnOffer(items[1..], gone, obs)
  }

  lemma {:induction false} OnOfferAppend(items: seq<Item>, last: Item, gone: set<string>, obs: Obs)
    ensures OnOffer(items + [last], gone, obs) == OnOffer(items, gone, obs) + OnOffer([last], gone, obs)
  {
    if items == [] {
      assert [] + [last] == [last];
    } else {
      OnOfferAppend(items[1..], last, gone, obs);
      assert (items + [last])[1..] == items[1..] + [last];
    }
  }

  lemma {:induction false} PrefilterOffers(s: State, obs: Obs, items: seq<Item>)
    ensures Prefilter(s, obs, items) == OnOffer(items, s.tried, obs)
  {
    if items != [] {
      var earlier, last := items[..|items| - 1], items[|items| - 1];
      PrefilterOffers(s, obs, earlier);
      OnOfferAppend(earlier, last, s.tried, obs);
      assert earlier + [last] == items && [last][1..] == [];
    }
  }

  /** What the policy picks of the items on offer, if there are any. */
  function Picks(m: Mission, boxes: seq<string>, offers: seq<Item>, world: bool, obs: Obs): Option<Choice> {
    if offers == [] then None else m.select(View(boxes, offers, world), obs)
  }

  /** Commands numbered by the mission itself; the steps of a walk are numbered by the
      journey. */
  predicate IsNumbered(e: ConsumeEntry) { e.Commands() && !e.move.command.Walk? }

  ghost function Walks(log: seq<ConsumeEntry>, tail: string): nat {
    if log == [] then 0
    else
      var e := log[|log| - 1];
      Walks(log[..|log| - 1], tail) + if e.Commands() && e.move.command.Walk? && e.move.command.tail == tail then 1 else 0
  }

  /** The newest result was a success. */
  ghost predicate Won(log: seq<ConsumeEntry>) {
    log != [] && if log[|log| - 1].Folded? then log[|log| - 1].Succeeds() else Won(log[..|log| - 1])
  }

  lemma AppendPace(log: seq<ConsumeEntry>, e: ConsumeEntry)
    ensures Count(log + [e], IsNumbered) == Count(log, IsNumbered) + (if IsNumbered(e) then 1 else 0)
    ensures forall tail :: Walks(log + [e], tail) ==
              Walks(log, tail) + if e.Commands() && e.move.command.Walk? && e.move.command.tail == tail then 1 else 0
    ensures Won(log + [e]) <==> if e.Folded? then e.Succeeds() else Won(log)
  {
    CountAppend(log, e, IsNumbered);
    assert (log + [e])[..|log|] == log;
  }

  /** The container whose door was just opened, or which was just looked into. */
  ghost predicate Just(log: seq<ConsumeEntry>, tail: string, inside: bool) {
    && Won(log) && LastCommand(log).Some?
    && if inside then LastCommand(log).value.Inspect? && LastCommand(log).value.tail == tail
       else LastCommand(log).value.OpenBox? && LastCommand(log).value.tail == tail
  }

  /** A fetch goes one stage at a time, each on the success of the one before, and the
      numbers run on. */
  ghost predicate Paced(s: State, log: seq<ConsumeEntry>)
    requires s.Valid()
  {
    && s.steps == Count(log, IsNumbered)
    && (s.journey.Some? ==> s.journey.value.outcome.None? && s.journey.value.steps == Walks(log, s.current.value.tail))
    && (s.pending.None? ==> !s.stage.OpenStage?)
    && (s.pending.None? && s.stage.InspectStage? ==> Just(log, s.current.value.tail, false))
    && (s.pending.None? && s.stage.TransferStage? ==> Just(log, s.current.value.tail, true))
    && (forall tail :: tail !in s.visited ==> Walks(log, tail) == 0)
  }

  /** The step is the one the journey in hand, or one just begun, answers with. */
  ghost predicate Walked(m: Mission, s: State, obs: Obs, s': State, tail: string, action: J.StepAction)
    requires s.Valid() && s'.Valid()
  {
    && s'.journey.Some?
    && exists t: J.Trip :: t.Valid() && J.Next(t, obs.views(s'.current.value.index)) == (s'.journey.value, J.Step(action))
         && if s.journey.Some? && s.current.value.tail == tail then t == s.journey.value
            else t == J.Begin(s'.current.value.square, m.journey)
  }

  /** A square is walked to when it is on another level or over thirty squares away. */
  predicate Distant(here: J.Square, square: J.Square): (distant: bool)
    ensures distant <==> NeedsJourney(here, square)
  {
    || here.2 != square.2
    || here.0 - square.0 > 30 || square.0 - here.0 > 30 || here.1 - square.1 > 30 || square.1 - here.1 > 30
  }

  /** What a command says, next to the state it leaves. */
  ghost predicate Right(m: Mission, s: State, obs: Obs, s': State, move: Move<Command>)
    requires s.Valid() && s'.Valid() && obs.inventory.Some?
  {
    && s.visited <= s'.visited
    && if !move.Do? then
         s'.steps == s.steps && (s'.current.None? || (s'.current == s.current && s'.journey == s.journey && s'.stage == s.stage))
       else match move.command
         case OpenBox(tail, box) =>
           && move.key == s.steps + 1 == s'.steps && s'.stage.OpenStage? && s'.current.value.tail == tail
           && (Distant(obs.here, s'.current.value.square) ==> obs.views(s'.current.value.index).arrived)
         case Inspect(tail, box) =>
           && move.key == s.steps + 1 == s'.steps && s.stage.InspectStage? && s'.stage.InspectStage?
           && s.current.value.tail == tail == s'.current.value.tail
         case Transfer(tail, box, item) =>
           && move.key == s.steps + 1 == s'.steps && s.stage.TransferStage? && s'.stage.TransferStage?
           && s.current.value.tail == tail == s'.current.value.tail
           && exists c :: Picks(m, [box], OnOffer(ItemsIn(obs.inventory.value, box), s.tried, obs), true, obs) == Some(c) && c.id == item
         case Walk(tail, action) =>
           && Walked(m, s, obs, s', tail, action)
           && s'.steps == s.steps && s'.journey.Some? && s'.journey.value.outcome.None? && s'.current.value.tail == tail && move.key == s'.journey.value.steps
           && move.key == 1 + (if s.journey.Some? && s.current.value.tail == tail then s.journey.value.steps else 0)
           && (!(s.journey.Some? && s.current.value.tail == tail) ==>
                 tail !in s.visited && Distant(obs.here, s'.current.value.square))
         case EnsureMain(item) =>
           && move.key == s.steps + 1 == s'.steps && s.current.None?
           && exists c :: PicksCarried(m, s, obs) == Some(c) && c.needsMain && c.id == item
         case Consume(item, fraction) =>
           && move.key == s.steps + 1 == s'.steps && s.current.None?
           && exists c :: PicksCarried(m, s, obs) == Some(c) && !c.needsMain && c.id == item && c.fraction == fraction
  }

  /** What the policy picks of what is carried. */
  function PicksCarried(m: Mission, s: State, obs: Obs): Option<Choice>
    requires obs.inventory.Some?
  {
    Picks(m, obs.inventory.value.boxes, OnOffer(obs.inventory.value.items, s.tried, obs), false, obs)
  }

  lemma TransferRight(m: Mission, s: State, obs: Obs)
    requires s.Idle() && s.stage.TransferStage? && obs.inventory.Some?
    ensures var (s', move) := DriveTransfer(m, s, obs);
            move.Some? ==> Right(m, s, obs, s', move.value) && move.value.Do? && move.value.command.Transfer?
  {
    hide Prefilter, ItemsIn, OnOffer;
    PrefilterOffers(s, obs, ItemsIn(obs.inventory.value, s.current.value.box));
  }

  lemma JourneySteps(t: J.Trip, view: J.View)
    requires t.Valid()
    ensures var (t', a) := J.Next(t, view);
            && (a.Step? ==> t'.steps == t.steps + 1 && t'.outcome.None?)
            && (a.Arrived? && t.outcome.None? ==> view.arrived)
  {
  }

  lemma DriveRight(m: Mission, s: State, obs: Obs)
    requires s.Idle() && s.current.Some? && obs.inventory.Some?
    requires s.journey.Some? ==> s.journey.value.outcome.None?
    requires s.stage.OpenStage? && Distant(obs.here, s.current.value.square) ==> obs.views(s.current.value.index).arrived
    ensures var (s', move) := DriveFetch(m, s, obs);
            && s'.visited == s.visited && s'.tried == s.tried
            && if move.Some? then Right(m, s, obs, s', move.value)
               else
                 && s'.steps == s.steps
                 && (s'.current.Some? ==>
                       s'.stage.OpenStage? && s'.current == s.current && s.journey.Some? && obs.views(s.current.value.index).arrived)
  {
    hide J.Next, DriveTransfer, Prefilter, ItemsIn, OnOffer;
    if s.stage.ApproachStage? {
      JourneySteps(s.journey.value, obs.views(s.current.value.index));
    } else if s.stage.TransferStage? {
      var f := s.current.value;
      if !(f.box == "" && f.tail !in s.seen) {
        var box := if f.box == "" then s.seen[f.tail].0 else f.box;
        var found := s.(current := Some(f.(box := box)));
        TransferRight(m, found, obs);
        TransferFrame(m, found, obs);
        var (s', move) := DriveTransfer(m, found, obs);
        hide Right;
        if move.Some? { FoundRight(m, s, found, obs, s', move.value); }
      }
    }
  }

  /** Learning what a container is called changes nothing that a command says. */
  lemma FoundRight(m: Mission, s: State, found: State, obs: Obs, s': State, move: Move<Command>)
    requires s.Valid() && found.Valid() && s'.Valid() && obs.inventory.Some? && found == s.(current := found.current)
    requires s.stage.TransferStage? && found.current.value.tail == s.current.value.tail
    requires Right(m, found, obs, s', move) && move.Do? && move.command.Transfer?
    ensures Right(m, s, obs, s', move)
  {
    hide OnOffer, ItemsIn, Distant;
  }

  lemma TransferFrame(m: Mission, s: State, obs: Obs)
    requires s.Idle() && s.stage.TransferStage? && obs.inventory.Some?
    ensures var s' := DriveTransfer(m, s, obs).0; s'.visited == s.visited && s'.tried == s.tried
    ensures DriveTransfer(m, s, obs).1.None? ==> DriveTransfer(m, s, obs).0.steps == s.steps
  {
    hide Prefilter, ItemsIn;
  }

  /** A state the loop over containers may stand in. */
  ghost predicate Standing(s: State, obs: Obs) {
    && s.Idle() && (s.journey.Some? ==> s.journey.value.outcome.None?)
    && (s.current.Some? ==> s.current.value.tail in s.visited)
    && (s.stage.OpenStage? && Distant(obs.here, s.current.value.square) ==> obs.views(s.current.value.index).arrived)
  }

  lemma StartStands(m: Mission, s: State, obs: Obs)
    requires m.Bounded() && Standing(s, obs) && s.current.None?
    ensures var t := StartFetch(m, s, obs);
            && Standing(t, obs) && t.steps == s.steps && t.tried == s.tried && s.visited <= t.visited
            && (t.current.Some? ==> t.current.value.tail !in s.visited && (t.stage.ApproachStage? || t.stage.OpenStage?))
            && (t.journey.Some? ==>
                  t.journey.value == J.Begin(t.current.value.square, m.journey) && Distant(obs.here, t.current.value.square))
  {
    hide Appraise, RememberedMap;
    NewTail(s, obs);
  }

  /** What is right after a container was started, or put aside, is right before it. */
  lemma RightBefore(m: Mission, s: State, t: State, obs: Obs, s': State, move: Move<Command>)
    requires Standing(s, obs) && Standing(t, obs) && s'.Valid() && obs.inventory.Some? && Right(m, t, obs, s', move)
    requires t.steps == s.steps && t.tried == s.tried && s.visited <= t.visited
    requires !t.stage.InspectStage? && !t.stage.TransferStage? && !(move.Do? && (move.command.EnsureMain? || move.command.Consume?))
    requires t.journey.Some? ==>
      && t.journey.value == J.Begin(t.current.value.square, m.journey) && t.current.value.tail !in s.visited
      && Distant(obs.here, t.current.value.square)
    requires t.journey.Some? ==> s'.current.Some? && s'.current == t.current
    requires !move.Do? ==> s'.current.None?
    ensures Right(m, s, obs, s', move)
  {
    hide OnOffer, ItemsIn, Distant;
  }

  lemma {:induction false} HuntRight(m: Mission, s: State, obs: Obs)
    requires m.Bounded() && Standing(s, obs) && obs.inventory.Some?
    ensures var (s', move) := Hunt(m, s, obs);
            && Right(m, s, obs, s', move) && !(move.Do? && (move.command.EnsureMain? || move.command.Consume?))
            && (!move.Do? ==> s'.current.None?)
    decreases m.limits.maxCandidates - s.spent, StageRank(s)
  {
    hide DriveFetch, StartFetch, Right, Distant;
    if s.current.None? { StartStands(m, s, obs); }
    var started := if s.current.Some? then s else StartFetch(m, s, obs);
    if started.current.None? {
      EndRight(m, s, started, obs);
    } else {
      DriveRight(m, started, obs);
      var (driven, move) := DriveFetch(m, started, obs);
      if move.None? {
        DrivenStands(m, started, obs);
        HuntRight(m, driven, obs);
        RightBefore(m, s, driven, obs, Hunt(m, driven, obs).0, Hunt(m, driven, obs).1);
      } else {
        FetchesOnly(m, started, obs);
        DriveFair(m, started, obs);
        if s.current.None? { RightBefore(m, s, started, obs, driven, move.value); }
      }
    }
  }

  lemma EndRight(m: Mission, s: State, t: State, obs: Obs)
    requires s.Valid() && t.Valid() && t.current.None? && t.steps == s.steps && s.visited <= t.visited && obs.inventory.Some?
    ensures var (s', move) := FinishExhausted(m, t); s'.Valid() && Right(m, s, obs, s', move) && !move.Do? && s'.current.None?
  {
  }

  lemma FetchesOnly(m: Mission, s: State, obs: Obs)
    requires s.Idle() && s.current.Some? && obs.inventory.Some?
    ensures DriveFetch(m, s, obs).1.Some? ==> DriveFetch(m, s, obs).1.value.Do? && DriveFetch(m, s, obs).1.value.command.Fetches()
  {
    hide J.Next, PickInside, Prefilter, ItemsIn;
  }

  lemma DrivenStands(m: Mission, s: State, obs: Obs)
    requires Standing(s, obs) && s.current.Some? && obs.inventory.Some? && DriveFetch(m, s, obs).1.None?
    ensures var t := DriveFetch(m, s, obs).0;
            && Standing(t, obs) && t.steps == s.steps && t.tried == s.tried && t.visited == s.visited
            && !t.stage.InspectStage? && !t.stage.TransferStage? && t.journey.None?
  {
    hide DriveFetch, Distant;
    DriveRight(m, s, obs);
  }

  // ---- which container ----

  /** The newest record of a container. */
  ghost predicate Newest(known: seq<Remembered>, tail: string, r: Remembered) {
    exists k :: 0 <= k < |known| && known[k] == r && r.tail == tail && forall j :: k < j < |known| ==> known[j].tail != tail
  }

  /** What a container is worth: in sight and known to hold the need's category; or
      remembered to, within reach; or in sight and never looked into. */
  ghost predicate Ranks(seen: map<string, (string, J.Square)>, obs: Obs, tail: string, tier: nat, distance: nat) {
    if tail in seen then
      && distance == R.Chebyshev(obs.here, seen[tail].1)
      && if exists r :: Newest(obs.known, tail, r) && r.hasCategory then tier == 0
         else tier == 2 && forall r :: Newest(obs.known, tail, r) ==> !r.inspected
    else
      && tier == 1
      && exists r :: Newest(obs.known, tail, r) && r.hasCategory && r.square.Some?
                     && distance == R.Chebyshev(obs.here, r.square.value) <= MAX_FETCH_DISTANCE
  }

  ghost predicate Worth(seen: map<string, (string, J.Square)>, obs: Obs, tail: string) {
    exists tier, distance :: Ranks(seen, obs, tail, tier, distance)
  }

  /** No container of less worth, none farther of the same, none with a later name at the
      same distance. */
  ghost predicate NoBetter(seen: map<string, (string, J.Square)>, obs: Obs, tail: string, other: string) {
    forall t, d, t', d' :: Ranks(seen, obs, tail, t, d) && Ranks(seen, obs, other, t', d') ==>
      t < t' || (t == t' && (d < d' || (d == d' && StringLeq(tail, other))))
  }

  lemma {:induction false} RememberedIs(known: seq<Remembered>, tail: string)
    ensures tail in RememberedMap(known) ==> Newest(known, tail, RememberedMap(known)[tail])
    ensures forall r :: Newest(known, tail, r) ==> tail in RememberedMap(known) && RememberedMap(known)[tail] == r
  {
    if known != [] {
      var earlier, last := known[..|known| - 1], known[|known| - 1];
      RememberedIs(earlier, tail);
      assert known == earlier + [last];
      if last.tail == tail {
        assert known[|known| - 1] == last;
        assert Newest(known, tail, last);
      } else {
        if tail in RememberedMap(earlier) {
          var r := RememberedMap(earlier)[tail];
          var k :| 0 <= k < |earlier| && earlier[k] == r && r.tail == tail && forall j :: k < j < |earlier| ==> earlier[j].tail != tail;
          assert known[k] == r && forall j :: k < j < |earlier| ==> known[j] == earlier[j];
        }
        forall r | Newest(known, tail, r)
          ensures Newest(earlier, tail, r)
        {
          var k :| 0 <= k < |known| && known[k] == r && r.tail == tail && forall j :: k < j < |known| ==> known[j].tail != tail;
          assert earlier[k] == r && forall j :: k < j < |earlier| ==> known[j] == earlier[j];
        }
      }
    }
  }

  lemma AppraiseRanks(s: State, obs: Obs, tail: string)
    requires tail !in s.visited
    ensures var c := Appraise(s, obs, RememberedMap(obs.known), tail);
            forall tier, distance :: Ranks(s.seen, obs, tail, tier, distance) <==> c.Some? && c.value.tier == tier && c.value.distance == distance
  {
    hide RememberedMap, Newest, R.Chebyshev;
    RememberedIs(obs.known, tail);
    var remembered := RememberedMap(obs.known);
    if tail in remembered { assert Newest(obs.known, tail, remembered[tail]); }
  }

  /** Containers begun on this look were the best left; and an ending leaves none. */
  ghost predicate Fair(m: Mission, s: State, obs: Obs, s': State, move: Move<Command>) {
    && s'.seen == s.seen
    && (move.Do? && move.command.Fetches() && move.command.tail !in s.visited ==>
          Worth(s.seen, obs, move.command.tail)
          && forall other :: other !in s'.visited ==> NoBetter(s.seen, obs, move.command.tail, other))
    && (move.Ends() ==> s'.spent >= m.limits.maxCandidates || forall other :: Worth(s.seen, obs, other) ==> other in s'.visited)
  }

  lemma NextIsBest(m: Mission, s: State, obs: Obs)
    requires m.Bounded() && s.Idle() && s.current.None?
    ensures var t := StartFetch(m, s, obs);
            && t.seen == s.seen
            && (t.current.Some? ==>
                  var tail := t.current.value.tail;
                  && t.visited == s.visited + {tail} && Worth(s.seen, obs, tail)
                  && forall other :: other !in s.visited ==> NoBetter(s.seen, obs, tail, other))
            && (t.current.None? ==>
                  t.spent >= m.limits.maxCandidates || forall other :: Worth(s.seen, obs, other) ==> other in t.visited)
  {
    hide RememberedMap, Ranks, Appraise;
    var best := NextTail(s, obs);
    if s.spent < m.limits.maxCandidates {
      forall other | other !in s.visited
        ensures Worth(s.seen, obs, other) ==> best.Some?
        ensures best.Some? ==> NoBetter(s.seen, obs, best.value, other)
      {
        AppraiseRanks(s, obs, other);
        RankedIsKnown(s, obs, other);
        if best.Some? {
          NewTail(s, obs);
          AppraiseRanks(s, obs, best.value);
        }
      }
      if best.Some? {
        NewTail(s, obs);
        AppraiseRanks(s, obs, best.value);
        var c := Appraise(s, obs, RememberedMap(obs.known), best.value).value;
        assert Ranks(s.seen, obs, best.value, c.tier, c.distance);
      }
    }
  }

  lemma RankedIsKnown(s: State, obs: Obs, tail: string)
    ensures Worth(s.seen, obs, tail) ==> tail in s.seen || tail in RememberedMap(obs.known)
  {
    hide RememberedMap, Newest;
    RememberedIs(obs.known, tail);
  }

  /** One turn leaves the sightings and the containers started alone. */
  ghost predicate Turned(s: State, s': State, move: Option<Move<Command>>)
    requires s.current.Some?
  {
    && s'.seen == s.seen && s'.visited == s.visited
    && (move.Some? ==> move.value.Do? && move.value.command.Fetches() && move.value.command.tail == s.current.value.tail)
    && ((move.None? || s.journey.Some?) && s'.current.Some? ==> s'.current == s.current) && (move.Some? ==> s'.current.Some?)
  }

  lemma DriveFair(m: Mission, s: State, obs: Obs)
    requires s.Idle() && s.current.Some? && obs.inventory.Some?
    ensures Turned(s, DriveFetch(m, s, obs).0, DriveFetch(m, s, obs).1)
  {
    var f := s.current.value;
    if s.stage.ApproachStage? {
      hide J.Next, DriveTransfer;
      DriveWalks(m, s, obs);
    } else if !(f.box == "" && f.tail !in s.seen) && s.stage.TransferStage? {
      hide DriveTransfer;
      TransferFair(m, s.(current := Some(f.(box := if f.box == "" then s.seen[f.tail].0 else f.box))), obs);
    } else {
      hide DriveTransfer;
    }
  }

  lemma DriveWalks(m: Mission, s: State, obs: Obs)
    requires s.Idle() && s.stage.ApproachStage? && obs.inventory.Some?
    ensures Turned(s, DriveFetch(m, s, obs).0, DriveFetch(m, s, obs).1)
  {
    hide J.Next, DriveTransfer;
  }

  lemma TransferFair(m: Mission, s: State, obs: Obs)
    requires s.Idle() && s.stage.TransferStage? && obs.inventory.Some?
    ensures Turned(s, DriveTransfer(m, s, obs).0, DriveTransfer(m, s, obs).1)
  {
    hide Prefilter, ItemsIn, PickInside;
  }

  lemma {:induction false} HuntFair(m: Mission, s: State, obs: Obs)
    requires m.Bounded() && Standing(s, obs) && obs.inventory.Some?
    ensures Fair(m, s, obs, Hunt(m, s, obs).0, Hunt(m, s, obs).1)
    decreases m.limits.maxCandidates - s.spent, StageRank(s)
  {
    hide DriveFetch, StartFetch, Worth, NoBetter, Distant;
    if s.current.None? {
      StartStands(m, s, obs);
      NextIsBest(m, s, obs);
    }
    var started := if s.current.Some? then s else StartFetch(m, s, obs);
    if started.current.Some? {
      DriveFair(m, started, obs);
      if DriveFetch(m, started, obs).1.None? {
        DrivenStands(m, started, obs);
        HuntFair(m, DriveFetch(m, started, obs).0, obs);
        HuntGrows(m, DriveFetch(m, started, obs).0, obs);
      }
    }
  }

  lemma {:induction false} HuntGrows(m: Mission, s: State, obs: Obs)
    requires m.Bounded() && Standing(s, obs) && obs.inventory.Some?
    ensures s.visited <= Hunt(m, s, obs).0.visited
    ensures var move := Hunt(m, s, obs).1;
            move.Do? && move.command.Fetches() && move.command.tail in s.visited ==>
              s.current.Some? && s.current.value.tail == move.command.tail
    decreases m.limits.maxCandidates - s.spent, StageRank(s)
  {
    hide DriveFetch, StartFetch, Distant;
    if s.current.None? { StartStands(m, s, obs); }
    var started := if s.current.Some? then s else StartFetch(m, s, obs);
    if started.current.Some? {
      DriveFair(m, started, obs);
      if DriveFetch(m, started, obs).1.None? {
        DrivenStands(m, started, obs);
        HuntGrows(m, DriveFetch(m, started, obs).0, obs);
      }
    }
  }

  // ---- over every run ----

  lemma SeekRight(m: Mission, t: State, obs: Obs)
    requires m.Bounded() && Standing(t, obs) && obs.inventory.Some? && obs.stat.Some?
    ensures var (s', move) := Seek(m, t, obs, obs.stat.value); Right(m, t, obs, s', move) && Fair(m, t, obs, s', move)
    ensures var move := Seek(m, t, obs, obs.stat.value).1;
            t.spent < m.limits.maxCandidates && t.current.None? && t.stage.CheckStage? && PicksCarried(m, t, obs).Some? ==>
              move.Do? && (move.command.EnsureMain? || move.command.Consume?)
  {
    hide Hunt, Prefilter, OnOffer, Distant, NoBetter, Worth, UseCarried, FinishExhausted;
    PrefilterOffers(t, obs, obs.inventory.value.items);
    var looked := Withhold(t, obs, obs.inventory.value.items);
    if t.spent >= m.limits.maxCandidates {
      SpentRight(m, t, obs);
    } else if t.stage.CheckStage? && PickCarried(m, t, obs).Some? {
      CarriedRight(m, t, obs, PickCarried(m, t, obs).value);
    } else {
      hide Right, Fair;
      var from := if t.stage.CheckStage? then looked else t;
      assert Standing(from, obs);
      HuntRight(m, from, obs);
      HuntFair(m, from, obs);
      WithheldRight(m, t, from, obs, Hunt(m, from, obs).0, Hunt(m, from, obs).1);
    }
  }

  lemma SpentRight(m: Mission, t: State, obs: Obs)
    requires t.Idle() && obs.inventory.Some? && t.spent >= m.limits.maxCandidates
    ensures var (s', move) := FinishExhausted(m, t); s'.Valid() && Right(m, t, obs, s', move) && Fair(m, t, obs, s', move) && !move.Do?
  {
    hide NoBetter, Worth;
  }

  lemma CarriedRight(m: Mission, t: State, obs: Obs, c: Choice)
    requires m.Bounded() && t.Idle() && t.stage.CheckStage? && obs.inventory.Some? && obs.stat.Some?
    requires PickCarried(m, t, obs) == Some(c)
    ensures var (s', move) := UseCarried(Withhold(t, obs, obs.inventory.value.items), obs, obs.stat.value, c);
            && s'.Valid() && Right(m, t, obs, s', move) && Fair(m, t, obs, s', move)
            && move.Do? && (move.command.EnsureMain? || move.command.Consume?)
  {
    hide Prefilter, OnOffer, NoBetter, Worth, Withheld;
    PrefilterOffers(t, obs, obs.inventory.value.items);
  }

  /** Noting what is withheld changes nothing that a command says. */
  lemma WithheldRight(m: Mission, t: State, from: State, obs: Obs, s': State, move: Move<Command>)
    requires t.Valid() && from.Valid() && s'.Valid() && obs.inventory.Some? && from == t.(reservedHits := from.reservedHits)
    requires Right(m, from, obs, s', move) && Fair(m, from, obs, s', move)
    ensures Right(m, t, obs, s', move) && Fair(m, t, obs, s', move)
  {
    hide OnOffer, NoBetter, Worth, Distant, ItemsIn;
  }

  /** What a command is, read off the log: the next number; what the policy picks of the
      items on offer; a container opened when it is near or has just been reached, looked
      into when it has just been opened, and taken from when it has just been looked into. */
  ghost predicate Due(m: Mission, s: State, s': State, past: seq<ConsumeEntry>, obs: Obs, move: Move<Command>)
    requires move.Do? && s.Valid() && s'.Valid()
  {
    && obs.inventory.Some?
    && var (n, gone, carried) := (Count(past, IsNumbered) + 1, Retired(past + [Told(obs, move)]), obs.inventory.value);
       match move.command
       case EnsureMain(item) =>
         move.key == n && exists c :: Picks(m, carried.boxes, OnOffer(carried.items, gone, obs), false, obs) == Some(c)
                                      && c.needsMain && c.id == item
       case Consume(item, fraction) =>
         move.key == n && exists c :: Picks(m, carried.boxes, OnOffer(carried.items, gone, obs), false, obs) == Some(c)
                                      && !c.needsMain && c.id == item && c.fraction == fraction
       case Walk(tail, action) =>
         && move.key == Walks(past, tail) + 1 && Walked(m, s, obs, s', tail, action)
         && (!(s.journey.Some? && s.current.value.tail == tail) ==>
               s'.current.Some? && Distant(obs.here, s'.current.value.square))
       case OpenBox(tail, _) =>
         && move.key == n && s'.current.Some? && s'.current.value.tail == tail
         && (Distant(obs.here, s'.current.value.square) ==> obs.views(s'.current.value.index).arrived)
       case Inspect(tail, _) => move.key == n && Just(past, tail, false)
       case Transfer(tail, box, item) =>
         && move.key == n && Just(past, tail, true)
         && exists c :: Picks(m, [box], OnOffer(ItemsIn(carried, box), gone, obs), true, obs) == Some(c) && c.id == item
  }

  /** The answer to one observation, and the state it leaves. */
  ghost predicate Given(m: Mission, s: State, past: seq<ConsumeEntry>, obs: Obs, s': State, move: Move<Command>)
    requires s.Valid() && s'.Valid()
  {
    && Paced(s', past + [Told(obs, move)])
    && (EndingOf(past).None? && move.Do? ==> Due(m, s, s', past, obs, move))
    && (EndingOf(past).None? && (move.Do? || (move.Ends() && Sought(m, s, past, obs))) ==>
          Fair(m, s.(seen := s'.seen), obs, s', move))
    && (Sought(m, s, past, obs) && s.current.None? && s.spent < m.limits.maxCandidates ==>
          var carried := obs.inventory.value;
          Picks(m, carried.boxes, OnOffer(carried.items, Retired(past + [Told(obs, move)]), obs), false, obs).Some? ==>
            move.Do? && (move.command.EnsureMain? || move.command.Consume?))
  }

  /** Nothing is in flight, the need is above its target and what is carried is seen. */
  ghost predicate Sought(m: Mission, s: State, past: seq<ConsumeEntry>, obs: Obs) {
    && EndingOf(past).None? && Outstanding(past).None? && s.failures < m.limits.maxFailures
    && obs.stat.Some? && obs.stat.value > m.target && obs.inventory.Some?
  }

  lemma {:induction false} OutstandingIsLast(log: seq<ConsumeEntry>)
    ensures Outstanding(log).Some? ==> LastCommand(log) == Outstanding(log)
  {
    if log != [] && log[|log| - 1].Told? && !log[|log| - 1].move.Do? { OutstandingIsLast(log[..|log| - 1]); }
  }

  lemma SeekGiven(m: Mission, s: State, t: State, log: seq<ConsumeEntry>, obs: Obs)
    requires m.Valid() && Inv(m, s, log) && Paced(s, log) && Sought(m, s, log, obs)
    requires t == Read(Discover(s, obs), obs.stat.value) && t.Idle() && t.final.None?
    requires Core(m, t, log) && ReadBooks(t, log, obs)
    requires var (s', move) := Seek(m, t, obs, obs.stat.value); Inv(m, s', log + [Told(obs, move)])
    ensures var (s', move) := Seek(m, t, obs, obs.stat.value); Given(m, s, log, obs, s', move)
  {
    hide Seek, Read, Discover, Inv, Core, ReadBooks, Paced, Right, Fair, Sought, Given;
    SoughtIdle(m, s, log, obs);
    SeekFrame(m, s, obs);
    var (s', move) := Seek(m, t, obs, obs.stat.value);
    StandsIdle(m, t, log, obs, s);
    SeekRight(m, t, obs);
    TriedIs(t, log, obs, move);
    PacedNext(m, s, t, log, obs, s', move);
    if move.Do? { DueNext(m, s, t, log, obs, s', move); }
    GivenOf(m, s, t, log, obs, s', move);
  }

  lemma SoughtIdle(m: Mission, s: State, log: seq<ConsumeEntry>, obs: Obs)
    requires Inv(m, s, log) && Sought(m, s, log, obs)
    ensures s.Idle() && s.final.None? && obs.stat.Some? && obs.inventory.Some?
    ensures s.current.None? ==> s.stage.CheckStage?
  {
    hide Count, EndingOf, Outstanding, Progress, LastFetched, Costed, Budgeted, Fetching, Booked, Verifying;
  }

  lemma TriedIs(t: State, log: seq<ConsumeEntry>, obs: Obs, move: Move<Command>)
    requires ReadBooks(t, log, obs)
    ensures t.tried == Retired(log + [Told(obs, move)])
  {
    hide Dropped, Unmoved, Retired, HasUnmoved;
    ReadingsIgnoreMove(log, obs, move, Wait);
  }

  /** What is right is due. */
  lemma DueNext(m: Mission, s: State, t: State, log: seq<ConsumeEntry>, obs: Obs, s': State, move: Move<Command>)
    requires s.Valid() && t.Valid() && s'.Valid() && Paced(s, log) && s.pending.None? && obs.inventory.Some?
    requires t.steps == s.steps && t.visited == s.visited && t.current == s.current && t.journey == s.journey && t.stage == s.stage
    requires t.tried == Retired(log + [Told(obs, move)]) && Right(m, t, obs, s', move) && move.Do?
    ensures Due(m, s, s', log, obs, move)
  {
    hide OnOffer, ItemsIn, Distant, Count, Walks, Won, LastCommand, Retired, Walked;
    if move.command.Walk? { WalkedSame(m, s, t, obs, s', move.command.tail, move.command.action); }
  }

  lemma WalkedSame(m: Mission, s: State, t: State, obs: Obs, s': State, tail: string, action: J.StepAction)
    requires s.Valid() && t.Valid() && s'.Valid() && t.current == s.current && t.journey == s.journey
    requires Walked(m, t, obs, s', tail, action)
    ensures Walked(m, s, obs, s', tail, action)
  {
    hide J.Next;
  }

  lemma GivenOf(m: Mission, s: State, t: State, log: seq<ConsumeEntry>, obs: Obs, s': State, move: Move<Command>)
    requires s.Valid() && t.Valid() && s'.Valid() && Sought(m, s, log, obs) && Paced(s', log + [Told(obs, move)])
    requires t.visited == s.visited && t.tried == Retired(log + [Told(obs, move)]) && t.spent == s.spent && t.current == s.current
    requires Fair(m, t, obs, s', move) && (move.Do? ==> Due(m, s, s', log, obs, move))
    requires t.spent < m.limits.maxCandidates && t.current.None? && PicksCarried(m, t, obs).Some? ==>
               move.Do? && (move.command.EnsureMain? || move.command.Consume?)
    ensures Given(m, s, log, obs, s', move)
  {
    hide Paced, Due, OnOffer, Worth, NoBetter, Retired, Count, EndingOf, Outstanding;
  }

  lemma SeekFrame(m: Mission, s: State, obs: Obs)
    requires s.Idle() && obs.stat.Some?
    ensures Discover(s, obs).Idle()
    ensures var t := Read(Discover(s, obs), obs.stat.value);
            && t.steps == s.steps && t.visited == s.visited && t.current == s.current && t.journey == s.journey && t.stage == s.stage
            && t.spent == s.spent && t.pending == s.pending && t.failures == s.failures
  {
    hide Discover, Read;
    DiscoverFrame(s, obs);
    ReadSame(Discover(s, obs), obs.stat.value);
  }

  lemma ReadSame(s: State, stat: real)
    requires s.Idle()
    ensures var t := Read(s, stat);
            && t.steps == s.steps && t.visited == s.visited && t.current == s.current && t.journey == s.journey && t.stage == s.stage
            && t.spent == s.spent && t.pending == s.pending && t.failures == s.failures
  {
  }

  lemma StandsIdle(m: Mission, t: State, log: seq<ConsumeEntry>, obs: Obs, s: State)
    requires Core(m, t, log) && t.Idle() && s.Valid() && Paced(s, log) && s.pending.None?
    requires t.journey == s.journey && t.stage == s.stage && t.current == s.current
    ensures Standing(t, obs)
  {
    hide Count, EndingOf, Outstanding, Progress, LastFetched, Walks, Won, Distant;
  }

  /** The pace is kept by any right answer. */
  lemma PacedNext(m: Mission, s: State, t: State, log: seq<ConsumeEntry>, obs: Obs, s': State, move: Move<Command>)
    requires s.Valid() && t.Valid() && Paced(s, log) && s.pending.None? && obs.inventory.Some?
    requires t.steps == s.steps && t.visited == s.visited && t.current == s.current && t.journey == s.journey && t.stage == s.stage
    requires s'.Valid() && Right(m, t, obs, s', move) && Inv(m, s', log + [Told(obs, move)])
    ensures Paced(s', log + [Told(obs, move)])
  {
    hide Count, EndingOf, Outstanding, LastCommand, Progress, LastFetched, Dropped, Unmoved, Retired, Awaiting, SentReading,
         HasUnmoved, OnOffer, Distant, Costed, Budgeted, Walks, Won, Walked;
    LogAppend(log, Told(obs, move));
    AppendPace(log, Told(obs, move));
  }

  /** Answers that are no command leave the pace as it was. */
  lemma QuietPaced(m: Mission, s: State, log: seq<ConsumeEntry>, obs: Obs, s': State, move: Move<Command>)
    requires s.Valid() && s'.Valid() && Paced(s, log) && !move.Do?
    requires s'.steps == s.steps && s'.journey == s.journey && s'.current == s.current && s'.stage == s.stage
    requires s'.pending == s.pending && s'.visited == s.visited
    ensures Paced(s', log + [Told(obs, move)])
  {
    hide Count, Walks, Won, LastCommand;
    LogAppend(log, Told(obs, move));
    AppendPace(log, Told(obs, move));
  }

  lemma QuietFrame(m: Mission, s: State, obs: Obs)
    requires m.Bounded() && s.Valid()
    requires s.final.Some? || s.pending.Some? || s.failures >= m.limits.maxFailures || obs.stat.None?
             || obs.stat.value <= m.target || obs.inventory.None?
    requires s.final.Some? ==> s.final.value.Ends()
    ensures var (s', move) := Decide(m, s, obs);
            && !move.Do? && s'.steps == s.steps && s'.journey == s.journey && s'.current == s.current && s'.stage == s.stage
            && s'.pending == s.pending && s'.visited == s.visited
  {
    hide SightAll, Seek, Read, Discover;
    DiscoverFrame(s, obs);
    if s.final.None? && s.pending.None? && obs.stat.Some? { ReadSame(Discover(s, obs), obs.stat.value); }
  }

  lemma LookGiven(m: Mission, s: State, log: seq<ConsumeEntry>, obs: Obs)
    requires m.Valid() && Inv(m, s, log) && s.Valid() && Paced(s, log)
    ensures var (s', move) := Decide(m, s, obs); Given(m, s, log, obs, s', move)
  {
    hide Seek, Read, Discover, Core, ReadBooks, Paced, Given, Count, EndingOf, Outstanding, Fair, Due;
    var (s', move) := Decide(m, s, obs);
    InvControl(m, s, log);
    if s.final.Some? || s.pending.Some? || s.failures >= m.limits.maxFailures || obs.stat.None?
      || obs.stat.value <= m.target || obs.inventory.None? {
      QuietFrame(m, s, obs);
      QuietPaced(m, s, log, obs, s', move);
      NotSought(m, s, log, obs, s', move);
    } else {
      LookKeeps(m, s, log, obs);
      DiscoverKeeps(m, s, log, obs);
      SeekFrame(m, s, obs);
      DiscoverFrame(s, obs);
      ReadKeeps(m, Discover(s, obs), log, obs);
      ReadFrame(Discover(s, obs), obs.stat.value);
      SeekGiven(m, s, Read(Discover(s, obs), obs.stat.value), log, obs);
    }
  }

  lemma InvControl(m: Mission, s: State, log: seq<ConsumeEntry>)
    requires Inv(m, s, log)
    ensures s.Valid() && s.final == EndingOf(log) && (s.final.Some? ==> s.final.value.Ends())
    ensures s.pending.None? <==> Outstanding(log).None?
  {
    hide Count, Progress, LastFetched, Costed, Budgeted, Fetching, Booked, Verifying;
  }

  lemma NotSought(m: Mission, s: State, log: seq<ConsumeEntry>, obs: Obs, s': State, move: Move<Command>)
    requires s.Valid() && s'.Valid() && Paced(s', log + [Told(obs, move)]) && !move.Do? && !Sought(m, s, log, obs)
    ensures Given(m, s, log, obs, s', move)
  {
    hide Paced, Fair, Due;
  }

  lemma FoldPaced(m: Mission, s: State, log: seq<ConsumeEntry>, r: ActionResult<Action>)
    requires m.Bounded() && Inv(m, s, log) && s.Valid() && Paced(s, log) && Accepts(s, r)
    ensures Paced(Note(s, r), log + [Folded(r)])
  {
    hide Count, Walks, EndingOf, LastCommand, Progress, LastFetched, Costed, Budgeted, Fetching, Booked, Verifying, SkipBook;
    OutstandingIsLast(log);
    LogAppend(log, Folded(r));
    AppendPace(log, Folded(r));
    if s.stage.ApproachStage? { NotedSteps(s.journey.value, r); }
    hide Outstanding, Won, J.Note;
  }

  lemma NotedSteps(t: J.Trip, r: ActionResult<Action>)
    requires t.Valid() && r.action.WalkAction?
    ensures J.Note(t, ActionResult(r.action.action, r.status, r.reason)).steps == t.steps
  {
  }

  lemma {:induction false} RunPaced(m: Mission, events: seq<Event>)
    requires m.Valid()
    ensures var run := After(m, events); Paced(run.state, run.log)
  {
    hide Inv, Given, Decide, Note, Paced;
    if events == [] {
      StartPaced();
    } else {
      var before := events[..|events| - 1];
      var run := After(m, before);
      RunPaced(m, before);
      RunKeeps(m, before);
      match events[|events| - 1] {
        case Look(obs) =>
          LookGiven(m, run.state, run.log, obs);
          GivenPaced(m, run.state, run.log, obs, Decide(m, run.state, obs).0, Decide(m, run.state, obs).1);
        case Fold(r) =>
          if Accepts(run.state, r) { FoldPaced(m, run.state, run.log, r); } else { OtherFolds(run.state, r); }
        case Abandon => AbandonPaced(run.state, run.log);
      }
    }
  }

  lemma StartPaced()
    ensures Paced(Initial(), [])
  {
  }

  lemma GivenPaced(m: Mission, s: State, log: seq<ConsumeEntry>, obs: Obs, s': State, move: Move<Command>)
    requires s.Valid() && s'.Valid() && Given(m, s, log, obs, s', move)
    ensures Paced(s', log + [Told(obs, move)])
  {
  }

  lemma AbandonPaced(s: State, log: seq<ConsumeEntry>)
    requires s.Valid() && Paced(s, log)
    ensures Abandoned(s).Valid() && Paced(Abandoned(s), log)
  {
    hide Count, Walks, Won, LastCommand;
  }

  /** Over every run: a command is the one due, what is carried is used first, the
      container begun is the best left, and an ending leaves none worth trying. */
  lemma EveryCommandIsDue(m: Mission, events: seq<Event>, obs: Obs)
    requires m.Valid()
    ensures var run := After(m, events);
            Given(m, run.state, run.log, obs, Decide(m, run.state, obs).0, Decide(m, run.state, obs).1)
  {
    hide Inv, Given, Decide, Step, Paced;
    RunKeeps(m, events);
    RunPaced(m, events);
    LookGiven(m, After(m, events).state, After(m, events).log, obs);
  }

  /** What a result does to the failure count: a success clears it; a refusal the policy
      foresaw, a door that will not open and a step of a walk leave it; the rest count. */
  ghost function FailuresNext(failures: nat, command: Command, r: ActionResult<Action>): nat {
    if r.status.Succeeded? then 0
    else match command
      case Walk(_, _) => failures
      case EnsureMain(_) => if Foreseen(r.reason) then failures else failures + 1
      case Consume(_, _) => if Foreseen(r.reason) then failures else failures + 1
      case _ => if r.reason == DoorLocked || r.reason == DoorBarricaded then failures else failures + 1
  }

  predicate Foreseen(reason: Reason) {
    reason == NoSafeFood || reason == NoSafeDrink || reason == PreconditionFailed || reason == InvalidArgument || reason == PolicyDenied
  }

  /** The action a command is carried out by. */
  predicate CarriedBy(c: Command, a: Action) {
    match c
    case EnsureMain(_) => a.EnsureAction?
    case Consume(_, _) => a.ConsumeAction?
    case Walk(_, step) => a == WalkAction(step)
    case OpenBox(_, _) => a.OpenAction?
    case Inspect(_, _) => a.InspectAction?
    case Transfer(_, _, _) => a.TransferAction?
  }

  lemma ResultsCount(m: Mission, events: seq<Event>, r: ActionResult<Action>)
    requires m.Valid()
    ensures var run := After(m, events);
            Accepts(run.state, r) <==>
              EndingOf(run.log).None? && !r.status.NotTerminal? && Outstanding(run.log).Some? && CarriedBy(Outstanding(run.log).value, r.action)
    ensures var run := After(m, events);
            Accepts(run.state, r) ==>
              && Note(run.state, r).failures == FailuresNext(run.state.failures, Outstanding(run.log).value, r)
              && (Outstanding(run.log).value.Walk? ==>
                    && run.state.journey.Some? && r.action.WalkAction?
                    && Note(run.state, r).journey == Some(J.Note(run.state.journey.value, ActionResult(r.action.action, r.status, r.reason))))
  {
    hide Inv, Note, FailuresNext;
    RunKeeps(m, events);
    OneCounts(m, After(m, events).state, After(m, events).log, r);
  }

  lemma OneCounts(m: Mission, s: State, log: seq<ConsumeEntry>, r: ActionResult<Action>)
    requires Inv(m, s, log)
    ensures Accepts(s, r) <==>
              EndingOf(log).None? && !r.status.NotTerminal? && Outstanding(log).Some? && CarriedBy(Outstanding(log).value, r.action)
    ensures Accepts(s, r) && s.Valid() ==> Note(s, r).failures == FailuresNext(s.failures, Outstanding(log).value, r)
    ensures Accepts(s, r) && s.Valid() && Outstanding(log).value.Walk? ==>
              s.journey.Some? && r.action.WalkAction?
              && Note(s, r).journey == Some(J.Note(s.journey.value, ActionResult(r.action.action, r.status, r.reason)))
  {
    hide Count, EndingOf, Outstanding, Progress, LastFetched, Costed, Budgeted, Fetching, Booked, Verifying, SkipBook, J.Note;
  }

  /** Why a container in hand is put aside without a command, and whether it counts as a
      failure: a refused walk does unless there is no path or a door is shut, and so does
      a container the observation does not describe. */
  ghost predicate PutAside(m: Mission, s: State, obs: Obs, why: Skip, counts: bool)
    requires s.Idle() && s.current.Some? && obs.inventory.Some?
  {
    var (f, carried) := (s.current.value, obs.inventory.value);
    var box := if f.box != "" then f.box else if f.tail in s.seen then s.seen[f.tail].0 else "";
    if s.stage.ApproachStage? then
      var answer := J.Next(s.journey.value, obs.views(f.index)).1;
      && answer.Refused?
      && if answer.reason == Some(DoorLocked) || answer.reason == Some(DoorBarricaded) then
           why == DoorSealed(answer.reason.value) && !counts
         else why == ApproachRefused && (counts <==> answer.reason != Some(PathNotFound))
    else if f.box == "" && f.tail !in s.seen then why == StaleMemory && !counts
    else
      && s.stage.TransferStage?
      && if box !in carried.boxes then why == NotDescribed && counts
         else why == NothingSafeInside && !counts
              && Picks(m, [box], OnOffer(ItemsIn(carried, box), s.tried, obs), true, obs).None?
  }

  /** What a container put aside is reported as: the object it was found to be, if known
      by then, and otherwise by its reference. */
  function LabelOf(s: State): string
    requires s.current.Some?
  {
    var f := s.current.value;
    if f.box != "" then f.box
    else if !s.stage.ApproachStage? && f.tail in s.seen && s.seen[f.tail].0 != "" then s.seen[f.tail].0
    else f.tail
  }

  /** A turn of the loop that sends nothing has reached the container, or puts it aside. */
  lemma TurnsAside(m: Mission, s: State, obs: Obs)
    requires s.Idle() && s.current.Some? && obs.inventory.Some? && DriveFetch(m, s, obs).1.None?
    ensures var s' := DriveFetch(m, s, obs).0;
            if s'.current.Some? then
              && s.stage.ApproachStage? && s'.stage.OpenStage? && s'.failures == s.failures
              && J.Next(s.journey.value, obs.views(s.current.value.index)).1.Arrived?
            else exists why, counts :: PutAside(m, s, obs, why, counts)
                   && |s'.book.skipped| == |s.book.skipped| + 1 && s'.book.skipped[..|s.book.skipped|] == s.book.skipped
                   && s'.book.skipped[|s.book.skipped|] == (LabelOf(s), why) && s'.failures == s.failures + if counts then 1 else 0
  {
    hide J.Next, DriveTransfer, OnOffer, ItemsIn;
    var (f, s') := (s.current.value, DriveFetch(m, s, obs).0);
    if s.stage.ApproachStage? {
      var answer := J.Next(s.journey.value, obs.views(f.index)).1;
      if answer.Refused? { assert PutAside(m, s, obs, s'.book.skipped[|s.book.skipped|].1, s'.failures != s.failures); }
    } else if f.box == "" && f.tail !in s.seen {
      assert PutAside(m, s, obs, StaleMemory, false);
    } else {
      var found := s.(current := Some(f.(box := if f.box == "" then s.seen[f.tail].0 else f.box)));
      TransferAside(m, found, obs);
      assert PutAside(m, s, obs, s'.book.skipped[|s.book.skipped|].1, s'.failures != s.failures);
    }
  }

  lemma TransferAside(m: Mission, s: State, obs: Obs)
    requires s.Idle() && s.stage.TransferStage? && obs.inventory.Some? && DriveTransfer(m, s, obs).1.None?
    ensures var (s', box) := (DriveTransfer(m, s, obs).0, s.current.value.box);
            && |s'.book.skipped| == |s.book.skipped| + 1 && s'.book.skipped[..|s.book.skipped|] == s.book.skipped
            && s'.book.skipped[|s.book.skipped|].0 == (if box != "" then box else s.current.value.tail)
            && if box !in obs.inventory.value.boxes then
                 s'.book.skipped[|s.book.skipped|].1 == NotDescribed && s'.failures == s.failures + 1
               else
                 && s'.book.skipped[|s.book.skipped|].1 == NothingSafeInside && s'.failures == s.failures
                 && Picks(m, [box], OnOffer(ItemsIn(obs.inventory.value, box), s.tried, obs), true, obs).None?
  {
    hide Prefilter, ItemsIn, OnOffer;
    PrefilterOffers(s, obs, ItemsIn(obs.inventory.value, s.current.value.box));
  }

  // ---- what was seen ----

  /** A container has a place and a tail. */
  predicate Places(o: Seen, tail: string) { o.square.Some? && o.tail == Some(tail) }

  /** A sighting is the newest of its container, or the old one; a container seen is kept
      while there is room. */
  ghost predicate SightedAs(seen: map<string, (string, J.Square)>, objects: seq<Seen>, now: map<string, (string, J.Square)>, tail: string) {
    if exists i :: 0 <= i < |objects| && Places(objects[i], tail) then
      && (tail in now || |now| >= MAX_SIGHTINGS)
      && (tail in now ==> exists i :: 0 <= i < |objects| && Places(objects[i], tail)
                            && now[tail] == (objects[i].id, objects[i].square.value)
                            && forall j :: i < j < |objects| ==> !Places(objects[j], tail))
    else (tail in now <==> tail in seen) && (tail in seen ==> now[tail] == seen[tail])
  }

  lemma {:induction false} SightAllSays(seen: map<string, (string, J.Square)>, objects: seq<Seen>, tail: string)
    ensures SightedAs(seen, objects, SightAll(seen, objects), tail)
    ensures seen.Keys <= SightAll(seen, objects).Keys && |seen| <= |SightAll(seen, objects)|
  {
    if objects != [] {
      var earlier, last := objects[..|objects| - 1], objects[|objects| - 1];
      SightAllSays(seen, earlier, tail);
      assert objects == earlier + [last];
      OneSighted(seen, earlier, last, SightAll(seen, earlier), tail);
    }
  }

  lemma OneSighted(seen: map<string, (string, J.Square)>, earlier: seq<Seen>, last: Seen, now: map<string, (string, J.Square)>, tail: string)
    requires SightedAs(seen, earlier, now, tail) && seen.Keys <= now.Keys && |seen| <= |now|
    ensures SightedAs(seen, earlier + [last], Sight(now, last), tail)
    ensures seen.Keys <= Sight(now, last).Keys && |seen| <= |Sight(now, last)|
  {
    var (objects, next) := (earlier + [last], Sight(now, last));
    GrowsByOne(now, last);
    if Places(last, tail) {
      assert Places(objects[|earlier|], tail);
    } else {
      assert tail in next <==> tail in now;
      if i :| 0 <= i < |earlier| && Places(earlier[i], tail) {
        assert Places(objects[i], tail);
        if tail in now {
          var k :| 0 <= k < |earlier| && Places(earlier[k], tail) && now[tail] == (earlier[k].id, earlier[k].square.value)
                   && forall j :: k < j < |earlier| ==> !Places(earlier[j], tail);
          assert Places(objects[k], tail) && forall j :: k < j < |objects| ==> !Places(objects[j], tail);
        }
      } else {
        assert forall i :: 0 <= i < |objects| ==> !Places(objects[i], tail);
      }
    }
  }

  lemma GrowsByOne(now: map<string, (string, J.Square)>, o: Seen)
    ensures now.Keys <= Sight(now, o).Keys && |now| <= |Sight(now, o)|
    ensures o.square.Some? && o.tail.Some? && o.tail.value !in Sight(now, o) ==> |Sight(now, o)| >= MAX_SIGHTINGS
  {
    var next := Sight(now, o);
    if o.square.Some? && o.tail.Some? && next != now && o.tail.value !in now {
      assert next.Keys == now.Keys + {o.tail.value};
    } else if next != now {
      assert next.Keys == now.Keys;
    }
  }

  /** An observation adds the first sixty-four objects near by to what was seen. */
  lemma DiscoverSays(s: State, obs: Obs, tail: string)
    ensures obs.nearby.None? ==> Discover(s, obs).seen == s.seen
    ensures obs.nearby.Some? ==>
              var objects := obs.nearby.value;
              SightedAs(s.seen, if |objects| > 64 then objects[..64] else objects, Discover(s, obs).seen, tail)
  {
    hide SightAll, SightedAs;
    if obs.nearby.Some? {
      SightAllSays(s.seen, if |obs.nearby.value| > 64 then obs.nearby.value[..64] else obs.nearby.value, tail);
    }
  }
}
