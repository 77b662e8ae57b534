/** The goal channel as the arbiter meets it: open goals, at most one of them
    active, served by front rank and then by admission order. */
module GoalQueue {
  import opened Wrappers

  const MAX_SUSPENSIONS := 3

  datatype Trigger = Bleeding | Threat | Thirst | Hunger

  datatype Kind = TreatWounds | AvoidThreat | SatisfyThirst | SatisfyHunger | OtherKind(name: string)

  /** An idempotency key: one the arbiter mints, or any other text. */
  datatype Key = ArbiterKey(original: Option<nat>, trigger: Trigger, n: nat) | TextKey(text: string)

  datatype GoalState = Pending | Active | Succeeded | Failed | Cancelled | Expired
  {
    predicate Terminal() { !Pending? && !Active? }
  }

  datatype Goal = Goal(
    kind: Kind, params: string, sequence: nat, state: GoalState, frontRank: int,
    suspendedBy: Option<Key>, suspensions: nat)
  {
    predicate Open() { !state.Terminal() }
  }

  /** `goals` holds every record not yet forgotten; `keys` resolves a submission's
      key to the goal it created; `cancels` are requested and not yet applied. */
  datatype Queue = Queue(
    goals: map<nat, Goal>, keys: map<Key, nat>, cancels: set<nat>,
    maxOpen: nat, armed: bool, nextId: nat, nextSequence: nat)

  datatype Request = Request(kind: Kind, params: string, key: Key)

  datatype RefusalReason = QueueRejected | CancelledByRequest | PreconditionFailed | InvalidArgument | NotArmed

  datatype Admission = Admitted(id: nat, duplicate: bool) | Refused(reason: RefusalReason)

  function OpenIds(q: Queue): set<nat> { set id | id in q.goals && q.goals[id].Open() }

  function PendingIds(q: Queue): set<nat> { set id | id in q.goals && q.goals[id].state.Pending? }

  function ActiveIds(q: Queue): set<nat> { set id | id in q.goals && q.goals[id].state.Active? }

  function SuspendedIds(q: Queue): set<nat> { set id | id in q.goals && q.goals[id].suspendedBy.Some? }

  /** Every goal has its own place in the admission order, below the next one. */
  ghost predicate Numbered(q: Queue) {
    && (forall id :: id in q.goals ==> id < q.nextId && q.goals[id].sequence < q.nextSequence)
    && (forall a, b :: a in q.goals && b in q.goals && a != b ==> q.goals[a].sequence != q.goals[b].sequence)
    && (forall k :: k in q.keys ==> q.keys[k] < q.nextId)
  }

  /** A parking mark stands only on a waiting goal held ahead of the backlog. */
  ghost predicate Marked(g: Goal) {
    && g.frontRank <= 0 && g.suspensions <= MAX_SUSPENSIONS
    && (g.suspendedBy.Some? ==> g.state.Pending? && g.frontRank < 0)
  }

  ghost predicate AllMarked(q: Queue) { forall id :: id in q.goals ==> Marked(q.goals[id]) }

  ghost predicate OneActive(q: Queue) {
    forall a, b :: a in ActiveIds(q) && b in ActiveIds(q) ==> a == b
  }

  ghost predicate Valid(q: Queue) {
    && 1 <= q.maxOpen && |OpenIds(q)| <= q.maxOpen && q.cancels <= OpenIds(q)
    && OneActive(q) && Numbered(q) && AllMarked(q)
  }

  // ---- order ----

  /** The backlog's order: front rank, then admission. */
  predicate Before(a: Goal, b: Goal) {
    a.frontRank < b.frontRank || (a.frontRank == b.frontRank && a.sequence < b.sequence)
  }

  predicate IsFront(q: Queue, ids: set<nat>, id: nat) {
    && id in ids && id in q.goals
    && forall other :: other in ids && other in q.goals && other != id ==> Before(q.goals[id], q.goals[other])
  }

  lemma {:induction false} FrontExists(q: Queue, ids: set<nat>)
    requires Numbered(q) && ids != {} && ids <= q.goals.Keys
    ensures exists id :: id in ids && IsFront(q, ids, id)
    ensures forall a, b :: IsFront(q, ids, a) && IsFront(q, ids, b) ==> a == b
  {
    var one :| one in ids;
    if ids == {one} {
      assert IsFront(q, ids, one);
    } else {
      FrontExists(q, ids - {one});
      var rest :| rest in ids - {one} && IsFront(q, ids - {one}, rest);
      assert IsFront(q, ids, if Before(q.goals[one], q.goals[rest]) then one else rest);
    }
  }

  /** The first of a set of goals in the backlog's order. */
  function Front(q: Queue, ids: set<nat>): (id: nat)
    requires Numbered(q) && ids != {} && ids <= q.goals.Keys
    ensures IsFront(q, ids, id)
  {
    FrontExists(q, ids);
    var id :| id in ids && IsFront(q, ids, id);
    id
  }

  /** Pending goals nobody has asked to cancel. */
  function Startable(q: Queue): set<nat> { PendingIds(q) - q.cancels }

  /** The goal the next activation starts. */
  function NextUp(q: Queue): (next: Option<nat>)
    requires Valid(q)
    ensures next.None? <==> Startable(q) == {}
    ensures next.Some? ==> IsFront(q, Startable(q), next.value)
  {
    if Startable(q) == {} then None else Some(Front(q, Startable(q)))
  }

  /** A rank below every waiting goal's. */
  function NextFrontRank(q: Queue): (rank: int)
    requires Valid(q)
    ensures rank < 0
    ensures forall id :: id in PendingIds(q) ==> rank < q.goals[id].frontRank
    ensures if PendingIds(q) == {} then rank == -1
            else exists id :: id in PendingIds(q) && q.goals[id].frontRank == rank + 1
  {
    if PendingIds(q) == {} then -1 else q.goals[Front(q, PendingIds(q))].frontRank - 1
  }

  // ---- operations ----

  /** A key whose goal is still remembered. */
  predicate Known(q: Queue, key: Key) { key in q.keys && q.keys[key] in q.goals }

  /** A known key answers with the goal it created, or refuses different content;
      otherwise a free slot is needed. */
  function Admit(q: Queue, r: Request, rank: int): (Queue, Admission) {
    if Known(q, r.key) then
      var existing := q.goals[q.keys[r.key]];
      if existing.kind == r.kind && existing.params == r.params then (q, Admitted(q.keys[r.key], true))
      else (q, Refused(InvalidArgument))
    else if |OpenIds(q)| >= q.maxOpen then (q.(keys := q.keys - {r.key}), Refused(QueueRejected))
    else
      var goal := Goal(r.kind, r.params, q.nextSequence, Pending, rank, None, 0);
      (q.(goals := q.goals[q.nextId := goal], keys := q.keys[r.key := q.nextId],
          nextId := q.nextId + 1, nextSequence := q.nextSequence + 1),
       Admitted(q.nextId, false))
  }

  function Submit(q: Queue, r: Request): (Queue, Admission) { Admit(q, r, 0) }

  function SubmitFront(q: Queue, r: Request): (Queue, Admission)
    requires Valid(q)
  {
    Admit(q, r, NextFrontRank(q))
  }

  /** Park the active goal at the front of the backlog, or refuse, changing nothing. */
  function Suspend(q: Queue, id: nat, forWhom: Key): (Queue, Option<RefusalReason>)
    requires Valid(q) && id in q.goals
  {
    var goal := q.goals[id];
    if !goal.state.Active? then (q, Some(PreconditionFailed))
    else if id in q.cancels then (q, Some(CancelledByRequest))
    else if goal.suspensions >= MAX_SUSPENSIONS then (q, Some(QueueRejected))
    else
      (q.(goals := q.goals[id := goal.(state := Pending, suspendedBy := Some(forWhom),
                                       suspensions := goal.suspensions + 1, frontRank := NextFrontRank(q))]),
       None)
  }

  function ActivateNext(q: Queue): Queue
    requires Valid(q)
  {
    if !q.armed || ActiveIds(q) != {} || NextUp(q).None? then q
    else
      var id := NextUp(q).value;
      q.(goals := q.goals[id := q.goals[id].(state := Active, suspendedBy := None, frontRank := 0)])
  }

  function Ended(g: Goal, how: GoalState): Goal
    requires how.Terminal()
  {
    g.(state := how, suspendedBy := None)
  }

  /** Close every goal of a set that is open. */
  function EndAll(q: Queue, ids: set<nat>, how: GoalState): Queue
    requires how.Terminal()
  {
    q.(goals := map id | id in q.goals ::
         if id in ids && q.goals[id].Open() then Ended(q.goals[id], how) else q.goals[id],
       cancels := q.cancels - ids)
  }

  /** What else happens to the channel: submissions, the stop levers, goals ending
      in any way, finished records and keys being forgotten.  Clocks, step and wall
      budgets appear only as the ends they bring about. */
  datatype Op =
    | Submits(request: Request)
    | Activates
    | RequestsCancel(id: nat)
    | AppliesCancels
    | Ends(id: nat, how: GoalState)
    | Arms | Disarms | Panics
    | Forgets(id: nat)
    | ForgetsKey(key: Key)

  function Apply(q: Queue, op: Op): Queue
    requires Valid(q)
  {
    match op
    case Submits(r) => Submit(q, r).0
    case Activates => ActivateNext(q)
    case RequestsCancel(id) => if id in OpenIds(q) then q.(cancels := q.cancels + {id}) else q
    case AppliesCancels => EndAll(q, q.cancels, Cancelled)
    case Ends(id, how) => if how.Terminal() then EndAll(q, {id}, how) else q
    case Arms => q.(armed := true)
    case Disarms =>
      EndAll(q.(armed := false), ActiveIds(q) + SuspendedIds(q), Cancelled)
    case Panics => EndAll(q.(armed := false), OpenIds(q), Cancelled)
    case Forgets(id) => if id in q.goals && !q.goals[id].Open() then q.(goals := q.goals - {id}) else q
    case ForgetsKey(k) => if k in q.keys && !(q.keys[k] in OpenIds(q)) then q.(keys := q.keys - {k}) else q
  }

  // ---- what every operation keeps ----

  /** Writing one record: a new goal, or an old one in its own place. */
  lemma PutKeeps(q: Queue, q': Queue, id: nat, g: Goal)
    requires Numbered(q) && AllMarked(q) && Marked(g) && q'.goals == q.goals[id := g]
    requires id < q'.nextId && q.nextId <= q'.nextId && g.sequence < q'.nextSequence && q.nextSequence <= q'.nextSequence
    requires if id in q.goals then g.sequence == q.goals[id].sequence else g.sequence == q.nextSequence
    requires forall k :: k in q'.keys ==> q'.keys[k] < q'.nextId
    ensures Numbered(q') && AllMarked(q')
  {
  }

  lemma AdmitKeeps(q: Queue, r: Request, rank: int)
    requires Valid(q) && rank <= 0
    ensures var (q', a) := Admit(q, r, rank);
            && Valid(q') && q'.cancels == q.cancels && q'.armed == q.armed && q'.maxOpen == q.maxOpen
            && if a.Admitted? && !a.duplicate then
                 OpenIds(q') == OpenIds(q) + {a.id} && a.id !in OpenIds(q) && PendingIds(q') == PendingIds(q) + {a.id}
                 && ActiveIds(q') == ActiveIds(q)
               else q'.goals == q.goals
  {
    hide Numbered, AllMarked, OpenIds, PendingIds, ActiveIds;
    var (q', a) := Admit(q, r, rank);
    if a.Admitted? && !a.duplicate {
      KeysStayLow(q, q', r.key);
      AdmittedSets(q, q', a.id);
      assert OneActive(q');
      PutKeeps(q, q', a.id, q'.goals[a.id]);
    } else {
      SameGoals(q, q');
    }
  }

  lemma KeysStayLow(q: Queue, q': Queue, key: Key)
    requires Numbered(q) && q'.keys == q.keys[key := q.nextId] && q'.nextId == q.nextId + 1
    ensures forall k :: k in q'.keys ==> q'.keys[k] < q'.nextId
    ensures q.nextId !in q.goals
  {
  }

  lemma AdmittedSets(q: Queue, q': Queue, id: nat)
    requires Numbered(q) && id == q.nextId && id in q'.goals && q'.goals == q.goals[id := q'.goals[id]]
    requires q'.goals[id].state.Pending?
    ensures id !in q.goals && id !in OpenIds(q) && OpenIds(q') == OpenIds(q) + {id} && PendingIds(q') == PendingIds(q) + {id}
    ensures ActiveIds(q') == ActiveIds(q)
  {
    assert id !in q.goals;
  }

  /** What a front submission leaves: nothing new, or one goal ahead of the backlog. */
  ghost predicate Fronted(q: Queue, r: Request, q': Queue, a: Admission)
    requires Valid(q)
  {
    && Valid(q') && q'.maxOpen == q.maxOpen && q'.cancels == q.cancels && q.nextId <= q'.nextId
    && q.keys.Keys - {r.key} <= q'.keys.Keys <= q.keys.Keys + {r.key}
    && (a.Admitted? && !a.duplicate <==> |OpenIds(q)| < q.maxOpen && !Known(q, r.key))
    && if a.Refused? then q'.goals == q.goals
       else if a.duplicate then q'.goals == q.goals && a.id in q.goals && a.id < q.nextId
       else
         && a.id == q.nextId < q'.nextId && a.id !in q.goals && a.id in q'.goals && q'.goals == q.goals[a.id := q'.goals[a.id]]
         && q'.goals[a.id].kind == r.kind && q'.goals[a.id].frontRank == NextFrontRank(q)
         && OpenIds(q') == OpenIds(q) + {a.id} && PendingIds(q') == PendingIds(q) + {a.id}
         && ActiveIds(q') == ActiveIds(q) && IsFront(q', PendingIds(q'), a.id)
  }

  lemma SubmitFrontKeeps(q: Queue, r: Request)
    requires Valid(q)
    ensures Fronted(q, r, SubmitFront(q, r).0, SubmitFront(q, r).1)
  {
    var rank := NextFrontRank(q);
    AdmitKeeps(q, r, rank);
    FrontRankLeads(q, r, rank);
  }

  lemma FrontRankLeads(q: Queue, r: Request, rank: int)
    requires Valid(q) && forall id :: id in PendingIds(q) ==> rank < q.goals[id].frontRank
    ensures var (q', a) := Admit(q, r, rank);
            a.Admitted? && !a.duplicate ==> IsFront(q', PendingIds(q) + {a.id}, a.id)
  {
  }

  /** A goal parked for `key`: it waits ahead of everything but the goal `ahead`. */
  ghost predicate ParkedAhead(q: Queue, q': Queue, parked: nat, key: Key, ahead: Option<nat>)
    requires parked in q.goals
  {
    && parked in q'.goals && parked in PendingIds(q') && q'.goals[parked].frontRank < 0
    && q'.goals[parked].suspendedBy == Some(key) && q'.goals[parked].suspensions == q.goals[parked].suspensions + 1
    && forall id :: id in PendingIds(q') && id != parked && Before(q'.goals[id], q'.goals[parked]) ==>
         ahead == Some(id) && id !in q.goals
  }

  lemma SuspendKeeps(q: Queue, id: nat, forWhom: Key)
    requires Valid(q) && id in q.goals
    ensures var (q', refusal) := Suspend(q, id, forWhom);
            && Valid(q') && OpenIds(q') == OpenIds(q) && q'.maxOpen == q.maxOpen && q'.cancels == q.cancels
            && id in q'.goals && q'.keys == q.keys && q'.goals == q.goals[id := q'.goals[id]] && q'.nextId == q.nextId
            && (refusal.None? <==> id in ActiveIds(q) && id !in q.cancels && q.goals[id].suspensions < MAX_SUSPENSIONS)
            && (refusal.Some? ==> q' == q)
            && (refusal.None? ==> ActiveIds(q') == {} && PendingIds(q') == PendingIds(q) + {id}
                                  && ParkedAhead(q, q', id, forWhom, None))
  {
    hide Numbered, AllMarked, OneActive, OpenIds, PendingIds, ParkedAhead, NextFrontRank;
    var (q', refusal) := Suspend(q, id, forWhom);
    if refusal.None? {
      assert id in ActiveIds(q) && q' == Parked(q, id, forWhom);
      ParkKeeps(q, id, forWhom);
    }
  }

  /** The channel with an active goal parked. */
  function Parked(q: Queue, id: nat, forWhom: Key): Queue
    requires Valid(q) && id in q.goals
  {
    q.(goals := q.goals[id := q.goals[id].(state := Pending, suspendedBy := Some(forWhom),
                                           suspensions := q.goals[id].suspensions + 1, frontRank := NextFrontRank(q))])
  }

  lemma ParkKeeps(q: Queue, id: nat, forWhom: Key)
    requires Valid(q) && id in ActiveIds(q) && q.goals[id].suspensions < MAX_SUSPENSIONS
    ensures var q' := Parked(q, id, forWhom);
            && Valid(q') && OpenIds(q') == OpenIds(q) && ActiveIds(q') == {} && PendingIds(q') == PendingIds(q) + {id}
            && ParkedAhead(q, q', id, forWhom, None)
  {
    hide Numbered, AllMarked, OpenIds, PendingIds;
    var q' := Parked(q, id, forWhom);
    NumbersOf(q, id);
    PutKeeps(q, q', id, q'.goals[id]);
    SuspendedSets(q, q', id);
    assert forall other :: other in PendingIds(q') && other != id ==> q'.goals[other] == q.goals[other];
  }

  lemma NumbersOf(q: Queue, id: nat)
    requires Numbered(q) && id in q.goals
    ensures id < q.nextId && q.goals[id].sequence < q.nextSequence
    ensures forall k :: k in q.keys ==> q.keys[k] < q.nextId
    ensures forall other :: other in PendingIds(q) ==> other in q.goals
  {
  }

  lemma SuspendThenFront(q: Queue, id: nat, key: Key, r: Request)
    requires Valid(q) && id in q.goals && Valid(Suspend(q, id, key).0) && Suspend(q, id, key).1.None?
    ensures var (q', a) := SubmitFront(Suspend(q, id, key).0, r);
            ParkedAhead(q, q', id, key, if a.Admitted? then Some(a.id) else None)
  {
    hide Valid, Suspend, SubmitFront, IsFront, ParkedAhead, NextFrontRank, OpenIds, PendingIds, ActiveIds;
    SuspendKeeps(q, id, key);
    var q1 := Suspend(q, id, key).0;
    SubmitFrontKeeps(q1, r);
    var (q', a) := SubmitFront(q1, r);
    StillParked(q, q1, q', id, key, a);
  }

  lemma StillParked(q: Queue, q1: Queue, q': Queue, id: nat, key: Key, a: Admission)
    requires id in q.goals && ParkedAhead(q, q1, id, key, None) && q1.goals.Keys == q.goals.Keys
    requires q'.goals == q1.goals || (a.Admitted? && a.id !in q1.goals && a.id in q'.goals
                                      && q'.goals == q1.goals[a.id := q'.goals[a.id]])
    ensures ParkedAhead(q, q', id, key, if a.Admitted? then Some(a.id) else None)
  {
  }

  lemma SuspendedSets(q: Queue, q': Queue, id: nat)
    requires OneActive(q) && id in ActiveIds(q) && id in q'.goals && q'.goals == q.goals[id := q'.goals[id]]
    requires q'.goals[id].state.Pending?
    ensures OpenIds(q') == OpenIds(q) && PendingIds(q') == PendingIds(q) + {id} && ActiveIds(q') == {}
  {
    assert ActiveIds(q') <= ActiveIds(q) - {id};
  }

  lemma ActivateKeeps(q: Queue)
    requires Valid(q)
    ensures Valid(ActivateNext(q)) && OpenIds(ActivateNext(q)) == OpenIds(q) && ActivateNext(q).maxOpen == q.maxOpen
  {
    var q' := ActivateNext(q);
    if q' != q {
      var id := NextUp(q).value;
      PutKeeps(q, q', id, q'.goals[id]);
      assert OpenIds(q') == OpenIds(q);
      assert ActiveIds(q') == {id};
    }
  }

  lemma EndAllKeeps(q: Queue, ids: set<nat>, how: GoalState)
    requires Valid(q) && how.Terminal()
    ensures var q' := EndAll(q, ids, how);
            Valid(q') && OpenIds(q') == OpenIds(q) - ids && PendingIds(q') == PendingIds(q) - ids && q'.maxOpen == q.maxOpen
  {
    var q' := EndAll(q, ids, how);
    EndedSets(q, ids, how);
    EndedNumbers(q, ids, how);
    SubsetSize(OpenIds(q'), OpenIds(q));
  }

  lemma EndedSets(q: Queue, ids: set<nat>, how: GoalState)
    requires how.Terminal()
    ensures var q' := EndAll(q, ids, how);
            && OpenIds(q') == OpenIds(q) - ids && PendingIds(q') == PendingIds(q) - ids
            && ActiveIds(q') == ActiveIds(q) - ids
  {
  }

  lemma EndedNumbers(q: Queue, ids: set<nat>, how: GoalState)
    requires Numbered(q) && AllMarked(q) && how.Terminal()
    ensures Numbered(EndAll(q, ids, how)) && AllMarked(EndAll(q, ids, how))
  {
  }

  lemma {:induction false} SubsetSize(a: set<nat>, b: set<nat>)
    requires a <= b
    ensures |a| <= |b|
  {
    if a != {} {
      var x :| x in a;
      SubsetSize(a - {x}, b - {x});
    }
  }

  /** No operation breaks the channel: one active goal at most, never more than
      `maxOpen` open, and an outstanding cancel only ever names an open goal. */
  lemma ApplyKeeps(q: Queue, op: Op)
    requires Valid(q)
    ensures Valid(Apply(q, op)) && Apply(q, op).maxOpen == q.maxOpen
  {
    hide Numbered, AllMarked, OneActive, OpenIds, ActiveIds, PendingIds, Admit, ActivateNext, EndAll, SuspendedIds;
    match op {
      case Submits(r) => AdmitKeeps(q, r, 0);
      case Activates => ActivateKeeps(q);
      case RequestsCancel(id) => if id in OpenIds(q) { CancelKeeps(q, id); }
      case AppliesCancels => EndAllKeeps(q, q.cancels, Cancelled);
      case Ends(id, how) => if how.Terminal() { EndAllKeeps(q, {id}, how); }
      case Arms => SameGoals(q, Apply(q, op));
      case Disarms =>
        SameGoals(q, q.(armed := false));
        EndAllKeeps(q.(armed := false), ActiveIds(q) + SuspendedIds(q), Cancelled);
      case Panics =>
        SameGoals(q, q.(armed := false));
        EndAllKeeps(q.(armed := false), OpenIds(q), Cancelled);
      case Forgets(id) => if id in q.goals && !q.goals[id].Open() { ForgetKeeps(q, id); }
      case ForgetsKey(k) => SameGoals(q, Apply(q, op));
    }
  }

  lemma CancelKeeps(q: Queue, id: nat)
    requires Valid(q) && id in OpenIds(q)
    ensures Valid(q.(cancels := q.cancels + {id}))
  {
    var q' := q.(cancels := q.cancels + {id});
    assert OpenIds(q') == OpenIds(q) && ActiveIds(q') == ActiveIds(q);
  }

  lemma ForgetKeeps(q: Queue, id: nat)
    requires Valid(q) && id in q.goals && !q.goals[id].Open()
    ensures Valid(q.(goals := q.goals - {id}))
  {
    var q' := q.(goals := q.goals - {id});
    assert OpenIds(q') == OpenIds(q) && ActiveIds(q') == ActiveIds(q);
  }

  lemma SameGoals(q: Queue, q': Queue)
    requires Valid(q) && q'.goals == q.goals && q'.cancels == q.cancels && q'.maxOpen == q.maxOpen
    requires q'.nextId == q.nextId && q'.nextSequence == q.nextSequence
    requires forall k :: k in q'.keys ==> k in q.keys && q'.keys[k] == q.keys[k]
    ensures Valid(q')
  {
    assert OpenIds(q') == OpenIds(q) && ActiveIds(q') == ActiveIds(q);
  }
}
