/** The eat-or-drink mission, as functions of its state and one observation.  Each
    look reads the stat, settles a verification that is due, uses what is carried,
    and otherwise hunts through containers, one tail at a time: walk, open, look
    again, transfer.  Every function keeps the state's stage, the action in flight
    and the fetch under way consistent with each other. */
module ConsumeDecision {
  import opened Wrappers
  import opened MissionMoves
  import opened Ordering
  import J = Journey
  import R = RetreatTarget

  const MAX_FETCH_DISTANCE := 30
  const APPROACH_DISTANCE := 30
  const MAX_DISCOVERIES := 64
  const MAX_SIGHTINGS := 128

  datatype Limits = Limits(maxCandidates: nat, maxFailures: nat, maxProbes: nat) {
    predicate Valid() { 1 <= maxCandidates && 1 <= maxFailures && 1 <= maxProbes }
  }

  /** `wanted`: of the need's category.  `holder`: the container it lies in. */
  datatype Item = Item(id: string, fullType: string, wanted: bool, holder: string)

  datatype Inventory = Inventory(boxes: seq<string>, items: seq<Item>)

  datatype Choice = Choice(id: string, name: string, fraction: real, needsMain: bool)

  datatype View = View(boxes: seq<string>, items: seq<Item>, world: bool)

  /** A nearby object.  Only one with a world square and a tail is a container. */
  datatype Seen = Seen(id: string, square: Option<J.Square>, tail: Option<string>)

  datatype Remembered = Remembered(tail: string, square: Option<J.Square>, hasCategory: bool, inspected: bool)

  /** One observation, with what the memory ports and the map answer beside it. */
  datatype Obs = Obs(
    here: J.Square, stat: Option<real>, inventory: Option<Inventory>, nearby: Option<seq<Seen>>,
    known: seq<Remembered>, reserved: string -> bool, views: nat -> J.View)

  datatype Mission = Mission(
    limits: Limits, journey: J.Limits, target: real, refusal: Reason, select: (View, Obs) -> Option<Choice>)
  {
    predicate Bounded() { limits.Valid() && journey.Valid() }

    /** The selection policy only ever picks from the view it is handed. */
    ghost predicate Valid() {
      && Bounded()
      && forall v, o :: select(v, o).Some? ==> exists i :: i in v.items && i.id == select(v, o).value.id
    }
  }

  /** The commands.  A fetch command carries the tail of the container it is for. */
  datatype Command =
    | EnsureMain(item: string)
    | Consume(item: string, fraction: real)
    | Walk(tail: string, action: J.StepAction)
    | OpenBox(tail: string, box: string)
    | Inspect(tail: string, box: string)
    | Transfer(tail: string, box: string, item: string)
  {
    predicate Fetches() { Walk? || OpenBox? || Inspect? || Transfer? }
  }

  datatype Action = EnsureAction | ConsumeAction | WalkAction(action: J.StepAction) | OpenAction | InspectAction | TransferAction

  function ActionOf(c: Command): Action {
    match c
    case EnsureMain(_) => EnsureAction
    case Consume(_, _) => ConsumeAction
    case Walk(_, a) => WalkAction(a)
    case OpenBox(_, _) => OpenAction
    case Inspect(_, _) => InspectAction
    case Transfer(_, _, _) => TransferAction
  }

  datatype Stage = CheckStage | ApproachStage | OpenStage | InspectStage | TransferStage | EnsureStage | ConsumeStage

  datatype Fetch = Fetch(tail: string, box: string, square: J.Square, index: nat)

  datatype PendingConsume = PendingConsume(item: string, name: string, fraction: real, statBefore: real)

  datatype Skip =
    | ConsumedUnmoved | ActionRefused(reason: Reason) | DoorSealed(door: Reason) | StaleMemory
    | NotDescribed | NothingSafeInside | ApproachRefused

  datatype Book = Book(
    statStart: Option<real>, statLast: Option<real>, moved: bool,
    consumed: seq<(string, real)>, skipped: seq<(string, Skip)>, boxesVisited: seq<string>)

  datatype State = State(
    stage: Stage, pending: Option<Action>, journey: Option<J.Trip>, current: Option<Fetch>,
    await: Option<PendingConsume>, ensureItem: Option<string>, verifyDue: bool,
    steps: nat, probes: nat, failures: nat, anySuccess: bool, spent: nat, fetchIndex: nat,
    tried: set<string>, reservedHits: set<string>, visited: set<string>,
    seen: map<string, (string, J.Square)>, book: Book, ended: Ending, final: Option<Move<Command>>)
  {
    /** The stage says which parts of a fetch exist. */
    predicate Valid() {
      && (current.Some? <==> stage.ApproachStage? || stage.OpenStage? || stage.InspectStage? || stage.TransferStage?)
      && (journey.Some? <==> stage.ApproachStage?)
      && (journey.Some? ==> journey.value.Valid())
      && (ensureItem.Some? <==> stage.EnsureStage?)
      && (stage.ConsumeStage? ==> await.Some?)
      && (stage.ConsumeStage? || stage.EnsureStage? ==> pending.Some?)
    }

    /** Nothing in flight: the next decision is free. */
    predicate Idle() { Valid() && pending.None? }
  }

  type ConsumeEntry = Entry<Obs, Command, Action>

  function Initial(): State {
    State(CheckStage, None, None, None, None, None, false, 0, 0, 0, false, 0, 0, {}, {}, {}, map[],
          Book(None, None, false, [], [], []), EndedInProgress, None)
  }

  // ---- small moves ----

  function Seal(s: State, move: Move<Command>): (State, Move<Command>)
    requires move.Ends()
  {
    (s.(final := Some(move), ended := if move.Complete? then EndedComplete else move.ended), move)
  }

  function Emit(s: State, c: Command): (State, Move<Command>) {
    (s.(steps := s.steps + 1, pending := Some(ActionOf(c))), Do(s.steps + 1, c))
  }

  function SkipBook(s: State, what: string, why: Skip): Book {
    s.book.(skipped := s.book.skipped + [(what, why)])
  }

  /** Drop the fetch in hand, with the failures the skip leaves behind. */
  function SkipFetch(s: State, why: Skip, failures: nat): State
    requires s.current.Some?
  {
    var box := s.current.value.box;
    s.(current := None, journey := None, stage := CheckStage, failures := failures,
       book := SkipBook(s, if box != "" then box else s.current.value.tail, why))
  }

  // ---- sightings ----

  function Sight(seen: map<string, (string, J.Square)>, o: Seen): map<string, (string, J.Square)> {
    if o.square.None? || o.tail.None? then seen
    else if o.tail.value !in seen && |seen| >= MAX_SIGHTINGS then seen
    else seen[o.tail.value := (o.id, o.square.value)]
  }

  function SightAll(seen: map<string, (string, J.Square)>, objects: seq<Seen>): (r: map<string, (string, J.Square)>)
    ensures |seen| <= MAX_SIGHTINGS ==> |r| <= MAX_SIGHTINGS
  {
    if objects == [] then seen
    else
      var before := SightAll(seen, objects[..|objects| - 1]);
      var last := objects[|objects| - 1];

      Sight(before, last)
  }

  function Discover(s: State, obs: Obs): State {
    if obs.nearby.None? then s
    else
      var objects := obs.nearby.value;
      s.(seen := SightAll(s.seen, if |objects| > MAX_DISCOVERIES then objects[..MAX_DISCOVERIES] else objects))
  }

  // ---- carried first ----

  predicate Offered(s: State, obs: Obs, i: Item) { i.wanted && i.id !in s.tried && !obs.reserved(i.fullType) }

  function Prefilter(s: State, obs: Obs, items: seq<Item>): (kept: seq<Item>)
    ensures forall i :: i in kept <==> i in items && Offered(s, obs, i)
  {
    if items == [] then []
    else
      var last := items[|items| - 1];
      assert forall i :: i in items <==> i == last || i in items[..|items| - 1];
      var rest := Prefilter(s, obs, items[..|items| - 1]);
      if Offered(s, obs, last) then rest + [last] else rest
  }

  /** The wanted items kept back because they are reserved. */
  function Withheld(s: State, obs: Obs, items: seq<Item>): set<string> {
    set i | i in items && i.wanted && i.id !in s.tried && obs.reserved(i.fullType) :: i.id
  }

  function Withhold(s: State, obs: Obs, items: seq<Item>): State {
    s.(reservedHits := s.reservedHits + Withheld(s, obs, items))
  }

  /** One more item: withheld, kept, or passed over. */
  lemma PrefilterStep(s: State, obs: Obs, items: seq<Item>, i: nat)
    requires i < |items|
    ensures var (before, item) := (items[..i], items[i]);
            && Prefilter(s, obs, items[..i + 1]) == Prefilter(s, obs, before) + (if Offered(s, obs, item) then [item] else [])
            && Withheld(s, obs, items[..i + 1]) == Withheld(s, obs, before) +
                 if item.wanted && item.id !in s.tried && obs.reserved(item.fullType) then {item.id} else {}
  {
    assert items[..i + 1][..i] == items[..i];
    assert forall other :: other in items[..i + 1] <==> other == items[i] || other in items[..i];
  }

  function ItemsIn(inv: Inventory, box: string): (found: seq<Item>)
    ensures forall i :: i in found <==> i in inv.items && i.holder == box
  {
    ItemsOf(inv.items, box)
  }

  function ItemsOf(items: seq<Item>, box: string): (found: seq<Item>)
    ensures forall i :: i in found <==> i in items && i.holder == box
  {
    if items == [] then []
    else
      var last := items[|items| - 1];
      assert forall i :: i in items <==> i == last || i in items[..|items| - 1];
      var rest := ItemsOf(items[..|items| - 1], box);
      if last.holder == box then rest + [last] else rest
  }

  function PickCarried(m: Mission, s: State, obs: Obs): Option<Choice>
    requires obs.inventory.Some?
  {
    var items := Prefilter(s, obs, obs.inventory.value.items);
    if items == [] then None else m.select(View(obs.inventory.value.boxes, items, false), obs)
  }

  function UseCarried(s: State, obs: Obs, stat: real, c: Choice): (State, Move<Command>) {
    if c.needsMain then
      Emit(s.(stage := EnsureStage, ensureItem := Some(c.id)), EnsureMain(c.id))
    else
      Emit(s.(stage := ConsumeStage, spent := s.spent + 1,
              await := Some(PendingConsume(c.id, c.name, c.fraction, stat))),
           Consume(c.id, c.fraction))
  }

  // ---- choosing the next container ----

  datatype Candidate = Candidate(tier: nat, distance: nat, box: string, square: J.Square)

  function RememberedMap(known: seq<Remembered>): map<string, Remembered> {
    if known == [] then map[]
    else RememberedMap(known[..|known| - 1])[known[|known| - 1].tail := known[|known| - 1]]
  }

  /** What one tail is worth: seen with the category, remembered with it within
      reach, seen and never inspected, or nothing. */
  function Appraise(s: State, obs: Obs, remembered: map<string, Remembered>, tail: string): Option<Candidate> {
    if tail in s.visited then None
    else if tail in s.seen then
      var (box, square) := s.seen[tail];
      var distance := R.Chebyshev(obs.here, square);
      if tail in remembered && remembered[tail].hasCategory then Some(Candidate(0, distance, box, square))
      else if tail !in remembered || !remembered[tail].inspected then Some(Candidate(2, distance, box, square))
      else None
    else if tail in remembered && remembered[tail].square.Some? && remembered[tail].hasCategory then
      var square := remembered[tail].square.value;
      var distance := R.Chebyshev(obs.here, square);
      if distance > MAX_FETCH_DISTANCE then None else Some(Candidate(1, distance, "", square))
    else None
  }

  predicate Prefers(a: Candidate, aTail: string, b: Candidate, bTail: string) {
    a.tier < b.tier ||
    (a.tier == b.tier && (a.distance < b.distance || (a.distance == b.distance && StringLeq(aTail, bTail))))
  }

  ghost predicate IsBest(s: State, obs: Obs, tail: string) {
    var remembered := RememberedMap(obs.known);
    && (tail in s.seen || tail in remembered)
    && Appraise(s, obs, remembered, tail).Some?
    && forall t :: (t in s.seen || t in remembered) && Appraise(s, obs, remembered, t).Some? ==>
         Prefers(Appraise(s, obs, remembered, tail).value, tail, Appraise(s, obs, remembered, t).value, t)
  }

  /** The container to fetch from next: best tier, then nearest, then by tail. */
  ghost function NextTail(s: State, obs: Obs): (best: Option<string>)
    ensures best.Some? ==> IsBest(s, obs, best.value)
    ensures best.None? ==> forall t :: (t in s.seen || t in RememberedMap(obs.known)) ==>
              Appraise(s, obs, RememberedMap(obs.known), t).None?
  {
    if exists t :: IsBest(s, obs, t) then
      var t :| IsBest(s, obs, t);
      Some(t)
    else
      NoBestMeansNone(s, obs);
      None
  }

  lemma NoBestMeansNone(s: State, obs: Obs)
    requires !exists t :: IsBest(s, obs, t)
    ensures forall t :: (t in s.seen || t in RememberedMap(obs.known)) ==>
              Appraise(s, obs, RememberedMap(obs.known), t).None?
  {
    var remembered := RememberedMap(obs.known);
    var tails := set t | t in s.seen.Keys + remembered.Keys && Appraise(s, obs, remembered, t).Some?;
    if tails != {} {
      var best := BestTail(s, obs, tails);
      assert IsBest(s, obs, best);
      assert false;
    }
    forall t | t in s.seen || t in remembered ensures Appraise(s, obs, remembered, t).None? {
      assert t !in tails;
    }
  }

  lemma {:induction false} BestTail(s: State, obs: Obs, tails: set<string>) returns (best: string)
    requires tails != {}
    requires forall t :: t in tails ==> Appraise(s, obs, RememberedMap(obs.known), t).Some?
    ensures best in tails
    ensures forall t :: t in tails ==>
              Prefers(Appraise(s, obs, RememberedMap(obs.known), best).value, best,
                      Appraise(s, obs, RememberedMap(obs.known), t).value, t)
  {
    var one :| one in tails;
    var worth := (t: string) requires t in tails => Appraise(s, obs, RememberedMap(obs.known), t).value;
    StringLeqTotal(one, one);
    if tails == {one} {
      best := one;
    } else {
      var rest := BestTail(s, obs, tails - {one});
      StringLeqTotal(one, rest);
      best := if Prefers(worth(one), one, worth(rest), rest) then one else rest;
      forall t | t in tails ensures Prefers(worth(best), best, worth(t), t) {
        if t != one && best == one { PrefersTransitive(worth(one), one, worth(rest), rest, worth(t), t); }
      }
    }
  }

  lemma PrefersTransitive(a: Candidate, aTail: string, b: Candidate, bTail: string, c: Candidate, cTail: string)
    requires Prefers(a, aTail, b, bTail) && Prefers(b, bTail, c, cTail)
    ensures Prefers(a, aTail, c, cTail)
  {
    if a.tier == b.tier == c.tier && a.distance == b.distance == c.distance {
      StringLeqTransitive(aTail, bTail, cTail);
    }
  }

  predicate NeedsJourney(here: J.Square, square: J.Square) {
    R.Chebyshev(here, square) > APPROACH_DISTANCE || here.2 != square.2
  }

  function BeginFetch(m: Mission, s: State, obs: Obs, tail: string, c: Candidate): State {
    var walk := NeedsJourney(obs.here, c.square);
    s.(fetchIndex := s.fetchIndex + 1, spent := s.spent + 1, visited := s.visited + {tail},
       current := Some(Fetch(tail, c.box, c.square, s.fetchIndex + 1)),
       stage := if walk then ApproachStage else OpenStage,
       journey := if walk then Some(J.Begin(c.square, m.journey)) else None)
  }

  ghost function StartFetch(m: Mission, s: State, obs: Obs): (s': State)
    requires m.Bounded() && s.Idle() && s.current.None?
    ensures s'.Idle()
    ensures s' == s || (s'.current.Some? && s'.spent == s.spent + 1 <= m.limits.maxCandidates)
  {
    if s.spent >= m.limits.maxCandidates || NextTail(s, obs).None? then s
    else
      var tail := NextTail(s, obs).value;
      BeginFetch(m, s, obs, tail, Appraise(s, obs, RememberedMap(obs.known), tail).value)
  }

  // ---- driving the fetch in hand ----

  function AfterJourney(s: State, reason: Option<Reason>): State
    requires s.current.Some?
  {
    if reason == Some(DoorLocked) || reason == Some(DoorBarricaded) then
      SkipFetch(s, DoorSealed(reason.value), s.failures)
    else
      SkipFetch(s, ApproachRefused, if reason == Some(PathNotFound) then s.failures else s.failures + 1)
  }

  function PickInside(m: Mission, s: State, obs: Obs, box: string): Option<Choice>
    requires obs.inventory.Some?
  {
    var items := Prefilter(s, obs, ItemsIn(obs.inventory.value, box));
    if items == [] then None else m.select(View([box], items, true), obs)
  }

  function DriveTransfer(m: Mission, s: State, obs: Obs): (r: (State, Option<Move<Command>>))
    requires s.Idle() && s.stage.TransferStage? && obs.inventory.Some?
    ensures r.0.Valid()
    ensures r.1.None? ==> r.0.pending.None? && r.0.current.None? && r.0.spent == s.spent
  {
    var (tail, box) := (s.current.value.tail, s.current.value.box);
    if box !in obs.inventory.value.boxes then (SkipFetch(s, NotDescribed, s.failures + 1), None)
    else
      var looked := Withhold(s, obs, ItemsIn(obs.inventory.value, box));
      var choice := PickInside(m, s, obs, box);
      if choice.None? then (SkipFetch(looked, NothingSafeInside, s.failures), None)
      else
        var (s', move) := Emit(looked, Transfer(tail, box, choice.value.id));
        (s', Some(move))
  }

  /** One turn of the loop: a command, or the fetch advanced or dropped. */
  function DriveFetch(m: Mission, s: State, obs: Obs): (r: (State, Option<Move<Command>>))
    requires s.Idle() && s.current.Some? && obs.inventory.Some?
    ensures r.0.Valid()
    ensures r.1.None? ==> r.0.pending.None? && r.0.spent == s.spent && StageRank(r.0) < StageRank(s)
  {
    var f := s.current.value;
    if s.stage.ApproachStage? then
      var (trip, answer) := J.Next(s.journey.value, obs.views(f.index));
      match answer
      case Arrived => (s.(journey := None, stage := OpenStage), None)
      case Refused(reason) => (AfterJourney(s, reason), None)
      case Step(a) =>
        (s.(journey := Some(trip), pending := Some(WalkAction(a))), Some(Do(trip.steps, Walk(f.tail, a))))
    else if f.box == "" && f.tail !in s.seen then (SkipFetch(s, StaleMemory, s.failures), None)
    else
      var box := if f.box == "" then s.seen[f.tail].0 else f.box;
      var found := s.(current := Some(f.(box := box)));
      match s.stage
      case OpenStage => var (s', move) := Emit(found, OpenBox(f.tail, box)); (s', Some(move))
      case InspectStage => var (s', move) := Emit(found, Inspect(f.tail, box)); (s', Some(move))
      case TransferStage => DriveTransfer(m, found, obs)
  }

  function StageRank(s: State): nat { if s.current.None? then 0 else if s.stage.ApproachStage? then 2 else 1 }

  function FinishExhausted(m: Mission, s: State): (State, Move<Command>) {
    if s.book.moved && s.anySuccess then Seal(s, Complete)
    else if s.book.consumed != [] || exists k | k in s.book.skipped :: k.1.ConsumedUnmoved? then
      Seal(s, Refuse(EndedNoProgress, NoProgress))
    else Seal(s, Refuse(EndedNothingFound, m.refusal))
  }

  /** The loop: it ends because every turn spends a candidate or a stage. */
  ghost function Hunt(m: Mission, s: State, obs: Obs): (r: (State, Move<Command>))
    requires m.Bounded() && s.Idle() && obs.inventory.Some?
    ensures r.0.Valid()
    decreases m.limits.maxCandidates - s.spent, StageRank(s)
  {
    var started := if s.current.Some? then s else StartFetch(m, s, obs);
    if started.current.None? then FinishExhausted(m, started)
    else
      var (driven, move) := DriveFetch(m, started, obs);
      if move.Some? then (driven, move.value) else Hunt(m, driven, obs)
  }

  // ---- the decision ----

  function Settle(s: State, stat: real): State {
    if s.await.None? then s.(verifyDue := false)
    else
      var owed := s.await.value;
      if stat < owed.statBefore then
        s.(await := None, verifyDue := false,
           book := s.book.(moved := true, consumed := s.book.consumed + [(owed.name, owed.fraction)]))
      else
        s.(await := None, verifyDue := false, tried := s.tried + {owed.item},
           book := SkipBook(s, owed.item, ConsumedUnmoved))
  }

  function Read(s: State, stat: real): (s': State)
    requires s.Idle()
    ensures s'.Idle()
  {
    var noted := s.(book := s.book.(statStart := if s.book.statStart.None? then Some(stat) else s.book.statStart,
                                    statLast := Some(stat)));
    if s.verifyDue then Settle(noted, stat) else noted
  }

  function FinishSatisfied(m: Mission, s: State): (State, Move<Command>) {
    if s.anySuccess then Seal(s, Complete)
    else if s.probes >= m.limits.maxProbes then Seal(s, Refuse(EndedNoProgress, NoProgress))
    else (s.(ended := EndedComplete, probes := s.probes + 1), Probe(s.probes + 1))
  }

  /** The need is above its target and the inventory is visible. */
  ghost function Seek(m: Mission, s: State, obs: Obs, stat: real): (r: (State, Move<Command>))
    requires m.Bounded() && s.Idle() && obs.inventory.Some?
    ensures r.0.Valid()
  {
    if s.spent >= m.limits.maxCandidates then FinishExhausted(m, s)
    else if s.stage.CheckStage? then
      var looked := Withhold(s, obs, obs.inventory.value.items);
      var choice := PickCarried(m, s, obs);
      if choice.Some? then UseCarried(looked, obs, stat, choice.value) else Hunt(m, looked, obs)
    else Hunt(m, s, obs)
  }

  ghost function Decide(m: Mission, s: State, obs: Obs): (r: (State, Move<Command>))
    requires m.Bounded() && s.Valid()
    ensures r.0.Valid()
  {
    hide Read, Seek, SightAll;
    if s.final.Some? then (s, s.final.value)
    else
      var here := Discover(s, obs);
      if s.pending.Some? then (here, Wait)
      else if s.failures >= m.limits.maxFailures then Seal(here, Refuse(EndedNoProgress, NoProgress))
      else if obs.stat.None? then Seal(here, Refuse(EndedUnreported, PreconditionFailed))
      else
        var read := Read(here, obs.stat.value);
        if obs.stat.value <= m.target then FinishSatisfied(m, read)
        else if obs.inventory.None? then (read, Wait)
        else Seek(m, read, obs, obs.stat.value)
  }

  // ---- results ----

  predicate TypedRefusal(r: Reason) {
    r.NoSafeFood? || r.NoSafeDrink? || r.PreconditionFailed? || r.InvalidArgument? || r.PolicyDenied?
  }

  predicate Accepts(s: State, r: ActionResult<Action>) {
    s.final.None? && !r.status.NotTerminal? && s.pending == Some(r.action)
  }

  function FailuresAfter(s: State, reason: Reason): nat {
    if TypedRefusal(reason) then s.failures else s.failures + 1
  }

  /** A refused item is spent, whatever the reason. */
  function NoteConsume(s: State, r: ActionResult<Action>): State
    requires s.await.Some?
  {
    if r.status.Succeeded? then
      s.(stage := CheckStage, anySuccess := true, failures := 0, verifyDue := true)
    else
      var item := s.await.value.item;
      s.(stage := CheckStage, await := None, tried := s.tried + {item},
         book := SkipBook(s, item, ActionRefused(r.reason)), failures := FailuresAfter(s, r.reason))
  }

  function NoteEnsure(s: State, r: ActionResult<Action>): State
    requires s.ensureItem.Some?
  {
    if r.status.Succeeded? then
      s.(stage := CheckStage, ensureItem := None, anySuccess := true, failures := 0)
    else
      var item := s.ensureItem.value;
      s.(stage := CheckStage, ensureItem := None, tried := s.tried + {item},
         book := SkipBook(s, item, ActionRefused(r.reason)), failures := FailuresAfter(s, r.reason))
  }

  function NoteFetch(s: State, r: ActionResult<Action>): State
    requires s.current.Some?
  {
    if r.status.Succeeded? then
      if s.stage.OpenStage? then s.(anySuccess := true, failures := 0, stage := InspectStage)
      else if s.stage.InspectStage? then s.(anySuccess := true, failures := 0, stage := TransferStage)
      else
        s.(anySuccess := true, failures := 0, current := None, journey := None, stage := CheckStage,
           book := s.book.(boxesVisited := s.book.boxesVisited + [s.current.value.box]))
    else if r.reason.DoorLocked? || r.reason.DoorBarricaded? then
      SkipFetch(s, DoorSealed(r.reason), s.failures)
    else SkipFetch(s, ActionRefused(r.reason), s.failures + 1)
  }

  function NoteWalk(s: State, r: ActionResult<Action>): State
    requires s.journey.Some? && s.journey.value.Valid()
  {
    var trip := if r.action.WalkAction?
                then J.Note(s.journey.value, ActionResult(r.action.action, r.status, r.reason))
                else s.journey.value;
    if r.status.Succeeded? then s.(journey := Some(trip), anySuccess := true, failures := 0)
    else s.(journey := Some(trip))
  }

  function Note(s: State, r: ActionResult<Action>): (s': State)
    requires s.Valid()
    ensures s'.Valid()
  {
    if !Accepts(s, r) then s
    else
      var free := s.(pending := None);
      match s.stage
      case ApproachStage => NoteWalk(free, r)
      case ConsumeStage => NoteConsume(free, r)
      case EnsureStage => NoteEnsure(free, r)
      case CheckStage => free
      case _ => NoteFetch(free, r)
  }

  function Abandoned(s: State): State {
    if s.ended.EndedInProgress? then s.(ended := EndedCancelled) else s
  }

  // ---- runs ----

  datatype Event = Look(obs: Obs) | Fold(result: ActionResult<Action>) | Abandon

  datatype Run = Run(state: State, log: seq<ConsumeEntry>)

  ghost function Step(m: Mission, run: Run, e: Event): (run': Run)
    requires m.Bounded() && run.state.Valid()
    ensures run'.state.Valid()
  {
    match e
    case Look(obs) =>
      var (s, move) := Decide(m, run.state, obs);
      Run(s, run.log + [Told(obs, move)])
    case Fold(r) =>
      Run(Note(run.state, r), if Accepts(run.state, r) then run.log + [Folded(r)] else run.log)
    case Abandon => run.(state := Abandoned(run.state))
  }

  ghost function After(m: Mission, events: seq<Event>): (run: Run)
    requires m.Bounded()
    ensures run.state.Valid()
  {
    if events == [] then Run(Initial(), [])
    else Step(m, After(m, events[..|events| - 1]), events[|events| - 1])
  }

  lemma HistoryAppend(m: Mission, events: seq<Event>, e: Event)
    requires m.Bounded()
    ensures After(m, events + [e]) == Step(m, After(m, events), e)
  {
    assert (events + [e])[..|events|] == events;
  }
}
