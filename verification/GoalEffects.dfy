/** What each operation does to the channel, goal by goal. */
module GoalEffects {
  import opened Wrappers
  import opened GoalQueue

  predicate IsOpen(q: Queue, id: nat) { id in q.goals && (q.goals[id].state.Pending? || q.goals[id].state.Active?) }

  /** The open goals picked out end so, their requests to cancel with them, and no
      other record changes. */
  ghost predicate EndExactly(q: Queue, q': Queue, picked: nat -> bool, how: GoalState) {
    && q' == q.(goals := q'.goals, cancels := q'.cancels, armed := q'.armed) && q'.goals.Keys == q.goals.Keys
    && (forall id :: id in q.goals ==>
          q'.goals[id] == if IsOpen(q, id) && picked(id) then q.goals[id].(state := how, suspendedBy := None) else q.goals[id])
    && forall id :: id in q'.cancels <==> id in q.cancels && !(IsOpen(q, id) && picked(id))
  }

  /** The goal that starts: waiting, not asked to cancel, and before every other such
      goal by rank and then by admission. */
  ghost predicate Starts(q: Queue, id: nat) {
    && id in q.goals && q.goals[id].state.Pending? && id !in q.cancels
    && forall other :: other in q.goals && q.goals[other].state.Pending? && other !in q.cancels && other != id ==>
         || q.goals[id].frontRank < q.goals[other].frontRank
         || (q.goals[id].frontRank == q.goals[other].frontRank && q.goals[id].sequence < q.goals[other].sequence)
  }

  /** A submission: the goal its key created, or a refusal of other content under that
      key, or a refusal when full, or one new goal of that rank, last in admission order. */
  ghost predicate Submitted(q: Queue, r: Request, rank: int, q': Queue, a: Admission) {
    if r.key in q.keys && q.keys[r.key] in q.goals then
      var first := q.goals[q.keys[r.key]];
      q' == q && a == if first.kind == r.kind && first.params == r.params then Admitted(q.keys[r.key], true)
                      else Refused(InvalidArgument)
    else if |set id | id in q.goals && IsOpen(q, id)| >= q.maxOpen then
      && a == Refused(QueueRejected) && q' == q.(keys := q'.keys)
      && forall k :: (k in q'.keys <==> k in q.keys && k != r.key) && (k in q'.keys ==> q'.keys[k] == q.keys[k])
    else
      && a.Admitted? && !a.duplicate && a.id !in q.goals && a.id in q'.goals
      && q' == q.(goals := q.goals[a.id := q'.goals[a.id]], keys := q.keys[r.key := a.id],
                  nextId := q'.nextId, nextSequence := q'.nextSequence)
      && q'.goals[a.id] == Goal(r.kind, r.params, q'.goals[a.id].sequence, Pending, rank, None, 0)
      && forall id :: id in q.goals ==> q.goals[id].sequence < q'.goals[a.id].sequence
  }

  ghost predicate Effect(q: Queue, op: Op, q': Queue) {
    match op
    case Submits(r) => exists a :: Submitted(q, r, 0, q', a)
    case Activates =>
      if q.armed && (forall id :: id in q.goals ==> !q.goals[id].state.Active?) && exists id :: Starts(q, id) then
        exists id :: Starts(q, id)
          && q' == q.(goals := q.goals[id := q.goals[id].(state := Active, suspendedBy := None, frontRank := 0)])
      else q' == q
    case RequestsCancel(id) =>
      q' == q.(cancels := q'.cancels) && forall any :: any in q'.cancels <==> any in q.cancels || (any == id && IsOpen(q, id))
    case AppliesCancels => q'.armed == q.armed && q'.cancels == {} && EndExactly(q, q', id => id in q.cancels, Cancelled)
    case Ends(id, how) =>
      if how.Pending? || how.Active? then q' == q
      else q'.armed == q.armed && EndExactly(q, q', any => any == id, how)
    case Arms => q' == q.(armed := true)
    case Disarms =>
      && !q'.armed
      && EndExactly(q, q', id => id in q.goals && (q.goals[id].state.Active? || q.goals[id].suspendedBy.Some?), Cancelled)
    case Panics => !q'.armed && q'.cancels == {} && EndExactly(q, q', id => true, Cancelled)
    case Forgets(id) =>
      && q' == q.(goals := q'.goals)
      && forall any :: (any in q'.goals <==> any in q.goals && !(any == id && !IsOpen(q, id)))
                       && (any in q'.goals ==> q'.goals[any] == q.goals[any])
    case ForgetsKey(key) =>
      && q' == q.(keys := q'.keys)
      && forall k :: (k in q'.keys <==> k in q.keys && !(k == key && !IsOpen(q, q.keys[k])))
                     && (k in q'.keys ==> q'.keys[k] == q.keys[k])
  }

  /** Every operation does that to the channel and nothing else. */
  lemma ApplyHasEffect(q: Queue, op: Op)
    requires Valid(q)
    ensures Effect(q, op, Apply(q, op))
  {
    hide Numbered, AllMarked, OneActive;
    match op {
      case Submits(r) => AdmitIs(q, r, 0);
      case Activates => ActivateIs(q);
      case RequestsCancel(id) =>
      case AppliesCancels => EndAllIs(q, q, q.cancels, id => id in q.cancels, Cancelled);
      case Ends(id, how) => if how.Terminal() { EndAllIs(q, q, {id}, any => any == id, how); }
      case Arms =>
      case Disarms =>
        EndAllIs(q, q.(armed := false), ActiveIds(q) + SuspendedIds(q),
                 id => id in q.goals && (q.goals[id].state.Active? || q.goals[id].suspendedBy.Some?), Cancelled);
      case Panics => EndAllIs(q, q.(armed := false), OpenIds(q), id => true, Cancelled);
      case Forgets(id) =>
      case ForgetsKey(key) =>
    }
  }

  lemma EndAllIs(q: Queue, from: Queue, ids: set<nat>, picked: nat -> bool, how: GoalState)
    requires Valid(q) && how.Terminal() && from == q.(armed := from.armed)
    requires forall id :: IsOpen(q, id) ==> (id in ids <==> picked(id))
    ensures EndExactly(q, EndAll(from, ids, how), picked, how)
  {
    hide Numbered, AllMarked, OneActive;
  }

  lemma AdmitIs(q: Queue, r: Request, rank: int)
    requires Valid(q)
    ensures Submitted(q, r, rank, Admit(q, r, rank).0, Admit(q, r, rank).1)
  {
    hide AllMarked, OneActive;
    assert (set id | id in q.goals && IsOpen(q, id)) == OpenIds(q);
  }

  lemma ActivateIs(q: Queue)
    requires Valid(q)
    ensures Effect(q, Activates, ActivateNext(q))
  {
    hide Numbered, AllMarked, OneActive;
    if NextUp(q).Some? {
      assert Starts(q, NextUp(q).value);
    }
    assert forall id :: Starts(q, id) ==> id in Startable(q);
    assert (forall id :: id in q.goals ==> !q.goals[id].state.Active?) <==> ActiveIds(q) == {} by {
      assert forall id :: id in ActiveIds(q) <==> id in q.goals && q.goals[id].state.Active?;
    }
  }

  // ---- what the arbiter asks for ----

  /** A rank ahead of every waiting goal, and by one only. */
  ghost predicate Ahead(q: Queue, rank: int) {
    var waiting := set id | id in q.goals && q.goals[id].state.Pending? :: q.goals[id].frontRank;
    if waiting == {} then rank == -1 else rank + 1 in waiting && forall other :: other in waiting ==> rank < other
  }

  /** Parking a goal: refused unless it runs, unless nobody asked to cancel it, unless
      it was parked less than three times, in that order; otherwise it alone changes,
      and waits ahead of everything. */
  ghost predicate Parks(q: Queue, id: nat, forWhom: Key, q': Queue, refusal: Option<RefusalReason>)
    requires id in q.goals
  {
    var goal := q.goals[id];
    if !goal.state.Active? then q' == q && refusal == Some(PreconditionFailed)
    else if id in q.cancels then q' == q && refusal == Some(CancelledByRequest)
    else if goal.suspensions >= 3 then q' == q && refusal == Some(QueueRejected)
    else
      && refusal.None? && id in q'.goals && q' == q.(goals := q.goals[id := q'.goals[id]])
      && Ahead(q, q'.goals[id].frontRank)
      && q'.goals[id] == Goal(goal.kind, goal.params, goal.sequence, Pending, q'.goals[id].frontRank,
                              Some(forWhom), goal.suspensions + 1)
  }

  lemma SuspendParks(q: Queue, id: nat, forWhom: Key)
    requires Valid(q) && id in q.goals
    ensures Parks(q, id, forWhom, Suspend(q, id, forWhom).0, Suspend(q, id, forWhom).1)
  {
    hide Numbered, AllMarked, OneActive, NextFrontRank, Ahead;
    FrontRankIsAhead(q);
  }

  lemma SubmitFrontLeads(q: Queue, r: Request)
    requires Valid(q)
    ensures exists rank :: Ahead(q, rank) && Submitted(q, r, rank, SubmitFront(q, r).0, SubmitFront(q, r).1)
  {
    FrontRankIsAhead(q);
    AdmitIs(q, r, NextFrontRank(q));
  }

  lemma FrontRankIsAhead(q: Queue)
    requires Valid(q)
    ensures Ahead(q, NextFrontRank(q))
  {
    hide Numbered, AllMarked, OneActive;
    var waiting := set id | id in q.goals && q.goals[id].state.Pending? :: q.goals[id].frontRank;
    forall id | id in PendingIds(q)
      ensures q.goals[id].frontRank in waiting
    {
    }
    if waiting != {} { var rank :| rank in waiting; }
  }
}
