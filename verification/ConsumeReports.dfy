/** What the consume mission's report counts. */
module ConsumeReports {
  import opened Wrappers
  import opened MissionMoves
  import opened ConsumeDecision
  import opened ConsumeSafety
  import J = Journey

  /** The readings taken, in order: one by each call with nothing in flight that was
      given one. */
  ghost function Readings(log: seq<ConsumeEntry>): seq<real> {
    if log == [] then []
    else
      var (past, last) := (log[..|log| - 1], log[|log| - 1]);
      Readings(past)
      + if last.Told? && EndingOf(past).None? && Outstanding(past).None? && last.obs.stat.Some? then [last.obs.stat.value] else []
  }

  /** The parts consumed to effect, in order: what each consume asked for whose fresh
      reading was lower. */
  ghost function Credited(log: seq<ConsumeEntry>): seq<real> {
    if log == [] then []
    else
      var (past, last) := (log[..|log| - 1], log[|log| - 1]);
      Credited(past)
      + if ReadsLower(past, last) && LastCommand(past).Some? && LastCommand(past).value.Consume? then
          [LastCommand(past).value.fraction]
        else []
  }

  /** What the books of a mission still open say. */
  ghost predicate Summed(s: State, log: seq<ConsumeEntry>) {
    var read := Readings(log);
    && s.book.statStart == (if read == [] then None else Some(read[0]))
    && s.book.statLast == (if read == [] then None else Some(read[|read| - 1]))
    && |s.book.consumed| == |Credited(log)| && (forall i :: 0 <= i < |Credited(log)| ==> s.book.consumed[i].1 == Credited(log)[i])
    && (s.await.Some? ==>
          && LastCommand(log).Some? && LastCommand(log).value.Consume?
          && LastCommand(log).value.fraction == s.await.value.fraction)
  }

  lemma AppendReports(log: seq<ConsumeEntry>, e: ConsumeEntry)
    ensures Readings(log + [e]) == Readings(log) +
              if e.Told? && EndingOf(log).None? && Outstanding(log).None? && e.obs.stat.Some? then [e.obs.stat.value] else []
    ensures Credited(log + [e]) == Credited(log) +
              if ReadsLower(log, e) && LastCommand(log).Some? && LastCommand(log).value.Consume? then [LastCommand(log).value.fraction] else []
  {
    assert (log + [e])[..|log|] == log;
  }

  // ---- what an observation does to the books ----

  /** Nothing here touches what was read or credited, nor what is owed but a new consume. */
  ghost predicate Untouched(s: State, s': State, move: Option<Move<Command>>) {
    && s'.book.statStart == s.book.statStart && s'.book.statLast == s.book.statLast && s'.book.consumed == s.book.consumed
    && if move.Some? && move.value.Do? then
         if move.value.command.Consume? then s'.await.Some? && s'.await.value.fraction == move.value.command.fraction
         else s'.await == s.await
       else s'.await == s.await
  }

  lemma TurnUntouched(m: Mission, s: State, obs: Obs)
    requires s.Idle() && s.current.Some? && obs.inventory.Some?
    ensures Untouched(s, DriveFetch(m, s, obs).0, DriveFetch(m, s, obs).1)
    ensures DriveFetch(m, s, obs).1.Some? ==> DriveFetch(m, s, obs).1.value.Do? && !DriveFetch(m, s, obs).1.value.command.Consume?
  {
    hide J.Next, DriveTransfer;
    if s.stage.TransferStage? {
      var f := s.current.value;
      if f.box != "" || f.tail in s.seen {
        var found := s.(current := Some(f.(box := if f.box == "" then s.seen[f.tail].0 else f.box)));
        TransferUntouched(m, found, obs);
      }
    }
  }

  lemma TransferUntouched(m: Mission, s: State, obs: Obs)
    requires s.Idle() && s.stage.TransferStage? && obs.inventory.Some?
    ensures Untouched(s, DriveTransfer(m, s, obs).0, DriveTransfer(m, s, obs).1)
    ensures DriveTransfer(m, s, obs).1.Some? ==>
              DriveTransfer(m, s, obs).1.value.Do? && DriveTransfer(m, s, obs).1.value.command.Transfer?
  {
    hide PickInside, ItemsIn;
  }

  lemma StartUntouched(m: Mission, s: State, obs: Obs)
    requires m.Bounded() && s.Idle() && s.current.None?
    ensures Untouched(s, StartFetch(m, s, obs), None)
  {
    hide NextTail, Appraise, RememberedMap;
  }

  lemma {:induction false} HuntUntouched(m: Mission, s: State, obs: Obs)
    requires m.Bounded() && s.Idle() && obs.inventory.Some?
    ensures Untouched(s, Hunt(m, s, obs).0, Some(Hunt(m, s, obs).1))
    decreases m.limits.maxCandidates - s.spent, StageRank(s)
  {
    hide DriveFetch, StartFetch;
    var started := if s.current.Some? then s else StartFetch(m, s, obs);
    if s.current.None? { StartUntouched(m, s, obs); }
    if started.current.Some? {
      TurnUntouched(m, started, obs);
      var (driven, move) := DriveFetch(m, started, obs);
      if move.None? { HuntUntouched(m, driven, obs); }
    }
  }

  lemma SeekUntouched(m: Mission, s: State, obs: Obs)
    requires m.Bounded() && s.Idle() && obs.inventory.Some? && obs.stat.Some?
    ensures Untouched(s, Seek(m, s, obs, obs.stat.value).0, Some(Seek(m, s, obs, obs.stat.value).1))
  {
    hide Hunt, PickCarried, Prefilter;
    if s.spent < m.limits.maxCandidates {
      if s.stage.CheckStage? {
        HuntUntouched(m, Withhold(s, obs, obs.inventory.value.items), obs);
      } else {
        HuntUntouched(m, s, obs);
      }
    }
  }

  /** What reading a value does to the books: the first and the newest reading, and one
      more credit exactly when a lower one was owed. */
  ghost predicate Noted(s: State, stat: real, s': State) {
    && s'.book.statLast == Some(stat) && s'.book.statStart == (if s.book.statStart.None? then Some(stat) else s.book.statStart)
    && s'.book.consumed == s.book.consumed +
         if s.verifyDue && s.await.Some? && stat < s.await.value.statBefore then [(s.await.value.name, s.await.value.fraction)] else []
  }

  lemma ReadNotes(s: State, stat: real)
    requires s.Idle()
    ensures Noted(s, stat, Read(s, stat)) && Read(s, stat).await == if s.verifyDue then None else s.await
  {
  }

  /** Whether a call takes a reading, and what it does to what is owed. */
  ghost predicate Took(m: Mission, s: State, obs: Obs, s': State, move: Move<Command>) {
    if s.final.Some? || s.pending.Some? || s.failures >= m.limits.maxFailures || obs.stat.None? then
      s'.book == s.book && s'.await == s.await && (s.final.None? ==> !move.Do?)
    else
      && Noted(s, obs.stat.value, s')
      && if move.Do? && move.command.Consume? then s'.await.Some? && s'.await.value.fraction == move.command.fraction
         else s'.await == if s.verifyDue then None else s.await
  }

  lemma LookTakes(m: Mission, s: State, obs: Obs)
    requires m.Bounded() && s.Valid()
    ensures Took(m, s, obs, Decide(m, s, obs).0, Decide(m, s, obs).1)
  {
    hide Seek, Read, Discover, Untouched, Noted;
    DiscoverFrame(s, obs);
    var (s', move) := Decide(m, s, obs);
    if s.final.None? && s.pending.None? && s.failures < m.limits.maxFailures && obs.stat.Some? {
      var here := Discover(s, obs);
      var read := Read(here, obs.stat.value);
      ReadNotes(here, obs.stat.value);
      if obs.stat.value > m.target && obs.inventory.Some? {
        SeekUntouched(m, read, obs);
      } else {
        UnsentUntouched(read, s', move);
      }
      TookAfter(m, s, obs, here, read, s', move);
    }
  }

  lemma UnsentUntouched(s: State, s': State, move: Move<Command>)
    requires s'.book == s.book && s'.await == s.await && !move.Do?
    ensures Untouched(s, s', Some(move))
  {
  }

  lemma TookAfter(m: Mission, s: State, obs: Obs, here: State, read: State, s': State, move: Move<Command>)
    requires s.final.None? && s.pending.None? && s.failures < m.limits.maxFailures && obs.stat.Some?
    requires here.book == s.book && here.await == s.await && here.verifyDue == s.verifyDue
    requires Noted(here, obs.stat.value, read) && read.await == if here.verifyDue then None else here.await
    requires Untouched(read, s', Some(move))
    ensures Took(m, s, obs, s', move)
  {
  }

  // ---- over every run ----

  /** Both readings and credits of a log with one more call. */
  lemma LookSummed(m: Mission, s: State, log: seq<ConsumeEntry>, obs: Obs, s': State, move: Move<Command>)
    requires m.Valid() && s.Valid() && Verifying(s, log) && Summed(s, log) && s.final.None?
    requires EndingOf(log).None? && (Outstanding(log).None? <==> s.pending.None?)
    requires Took(m, s, obs, s', move)
    requires s.pending.None? ==> s.failures < m.limits.maxFailures && obs.stat.Some?
    ensures Summed(s', log + [Told(obs, move)])
  {
    hide EndingOf, Outstanding, Awaiting, SentReading, LastCommand, Readings, Credited;
    LogAppend(log, Told(obs, move));
    AppendReports(log, Told(obs, move));
  }

  lemma FoldFrame(s: State, r: ActionResult<Action>)
    requires s.Valid() && Accepts(s, r)
    ensures var s' := Note(s, r);
            && s'.book.statStart == s.book.statStart && s'.book.statLast == s.book.statLast
            && s'.book.consumed == s.book.consumed && (s'.await == s.await || s'.await.None?)
  {
    hide NoteFetch, NoteWalk;
    if s.current.Some? { FetchFrame(s.(pending := None), r); }
  }

  lemma FetchFrame(s: State, r: ActionResult<Action>)
    requires s.current.Some?
    ensures var s' := NoteFetch(s, r);
            s'.book.statStart == s.book.statStart && s'.book.statLast == s.book.statLast && s'.book.consumed == s.book.consumed
            && s'.await == s.await
    ensures s.journey.Some? && s.journey.value.Valid() ==>
              NoteWalk(s, r).book == s.book && NoteWalk(s, r).await == s.await
  {
    hide J.Note;
  }

  lemma FoldSummed(s: State, log: seq<ConsumeEntry>, r: ActionResult<Action>)
    requires s.Valid() && Summed(s, log) && Accepts(s, r)
    ensures Summed(Note(s, r), log + [Folded(r)])
  {
    hide Note, EndingOf, Outstanding, Awaiting, SentReading, LastCommand, Readings, Credited;
    FoldFrame(s, r);
    LogAppend(log, Folded(r));
    AppendReports(log, Folded(r));
  }

  lemma InvSays(m: Mission, s: State, log: seq<ConsumeEntry>)
    requires Inv(m, s, log)
    ensures s.final == EndingOf(log) && (s.final.None? ==> Verifying(s, log))
    ensures Outstanding(log).None? <==> s.pending.None?
  {
    hide Count, EndingOf, Outstanding, Progress, LastFetched, Costed, Budgeted, Fetching, Booked, Verifying;
  }

  /** Calls that end before the need is read are the only ones not counted. */
  lemma OpenReads(m: Mission, s: State, obs: Obs)
    requires m.Bounded() && s.Valid() && Decide(m, s, obs).0.final.None?
    ensures s.final.None? && (s.pending.None? ==> s.failures < m.limits.maxFailures && obs.stat.Some?)
  {
    hide Seek, Read, Discover;
    DiscoverFrame(s, obs);
  }

  /** Over every run, while there is no ending: the first and the newest reading are
      those of the log, and what is reported consumed is what was read to have worked. */
  lemma {:induction false} SummaryAgrees(m: Mission, events: seq<Event>)
    requires m.Valid()
    ensures var run := After(m, events); run.state.final.None? ==> Summed(run.state, run.log)
  {
    if events == [] {
      assert Summed(Initial(), []);
    } else {
      hide Summed, Decide, Note, Inv, Took;
      var before := events[..|events| - 1];
      SummaryAgrees(m, before);
      RunKeeps(m, before);
      var run := After(m, before);
      InvSays(m, run.state, run.log);
      match events[|events| - 1] {
        case Look(obs) =>
          if Decide(m, run.state, obs).0.final.None? {
            OpenReads(m, run.state, obs);
            LookTakes(m, run.state, obs);
            LookSummed(m, run.state, run.log, obs, Decide(m, run.state, obs).0, Decide(m, run.state, obs).1);
          }
        case Fold(r) =>
          if Accepts(run.state, r) { FoldFinal(run.state, r); FoldSummed(run.state, run.log, r); } else { OtherFolds(run.state, r); }
        case Abandon => AbandonSummed(run.state, run.log);
      }
    }
  }

  lemma FoldFinal(s: State, r: ActionResult<Action>)
    requires s.Valid() && Accepts(s, r)
    ensures s.final.None?
  {
  }

  lemma AbandonSummed(s: State, log: seq<ConsumeEntry>)
    ensures Abandoned(s).final == s.final && (Summed(s, log) ==> Summed(Abandoned(s), log))
  {
  }

  // ---- what a result adds ----

  /** What a result adds to the report: the container a successful transfer emptied, or
      why a command was given up; a failed walk adds nothing by itself. */
  ghost predicate Books(before: Book, c: Command, r: ActionResult<Action>, after: Book) {
    var gone := if r.reason == DoorLocked || r.reason == DoorBarricaded then DoorSealed(r.reason) else ActionRefused(r.reason);
    && after == before.(skipped := after.skipped, boxesVisited := after.boxesVisited)
    && after.boxesVisited == (if r.status.Succeeded? && c.Transfer? then before.boxesVisited + [c.box] else before.boxesVisited)
    && after.skipped == before.skipped +
         if r.status.Succeeded? || c.Walk? then []
         else if c.Consume? || c.EnsureMain? then [(c.item, ActionRefused(r.reason))]
         else [(if c.box != "" then c.box else c.tail, gone)]
  }

  lemma ResultBooks(m: Mission, events: seq<Event>, r: ActionResult<Action>)
    requires m.Valid() && Accepts(After(m, events).state, r)
    ensures var run := After(m, events);
            Outstanding(run.log).Some? && Books(run.state.book, Outstanding(run.log).value, r, Note(run.state, r).book)
  {
    hide Inv, Note, Books;
    RunKeeps(m, events);
    OneBooks(m, After(m, events).state, After(m, events).log, r);
  }

  lemma OneBooks(m: Mission, s: State, log: seq<ConsumeEntry>, r: ActionResult<Action>)
    requires Inv(m, s, log) && s.Valid() && Accepts(s, r)
    ensures Outstanding(log).Some? && Books(s.book, Outstanding(log).value, r, Note(s, r).book)
  {
    hide Count, EndingOf, Outstanding, Progress, LastFetched, Costed, Budgeted, Fetching, Booked, Verifying, J.Note;
  }

  // ---- what is kept back ----

  /** The object a container in hand is known as. */
  function BoxInHand(s: State): string {
    if s.current.None? then ""
    else if s.current.value.box != "" then s.current.value.box
    else if s.current.value.tail in s.seen then s.seen[s.current.value.tail].0
    else ""
  }

  /** What this call looks through: all that is carried, or one container's contents. */
  predicate Looks(s: State, obs: Obs, i: Item)
    requires obs.inventory.Some?
  {
    || s.stage.CheckStage?
    || (s.stage.TransferStage? && (s.current.Some? ==> s.current.value.box != "" || s.current.value.tail in s.seen)
        && BoxInHand(s) in obs.inventory.value.boxes && i.holder == BoxInHand(s))
  }

  /** Kept back is what was, and of what is looked through what is wanted, not given up,
      and reserved. */
  ghost predicate KeepsBack(s: State, obs: Obs, s': State)
    requires obs.inventory.Some?
  {
    forall id :: id in s'.reservedHits <==>
      || id in s.reservedHits
      || exists i :: i in obs.inventory.value.items && i.id == id && Looks(s, obs, i) && i.wanted && id !in s'.tried && obs.reserved(i.fullType)
  }

  lemma TurnKeepsBack(m: Mission, s: State, obs: Obs)
    requires s.Idle() && s.current.Some? && obs.inventory.Some?
    ensures var s' := DriveFetch(m, s, obs).0;
            s'.tried == s.tried && if s.stage.TransferStage? then KeepsBack(s, obs, s') else s'.reservedHits == s.reservedHits
    ensures DriveFetch(m, s, obs).1.None? ==> !DriveFetch(m, s, obs).0.stage.TransferStage?
  {
    hide J.Next, DriveTransfer;
    var f := s.current.value;
    if s.stage.TransferStage? && (f.box != "" || f.tail in s.seen) {
      var found := s.(current := Some(f.(box := if f.box == "" then s.seen[f.tail].0 else f.box)));
      TransferKeepsBack(m, found, obs);
    }
  }

  lemma TransferKeepsBack(m: Mission, s: State, obs: Obs)
    requires s.Idle() && s.stage.TransferStage? && obs.inventory.Some?
    ensures var (s', box) := (DriveTransfer(m, s, obs).0, s.current.value.box);
            && s'.tried == s.tried && (DriveTransfer(m, s, obs).1.None? ==> !s'.stage.TransferStage?)
            && forall id :: id in s'.reservedHits <==>
                 || id in s.reservedHits
                 || exists i :: i in obs.inventory.value.items && i.id == id && box in obs.inventory.value.boxes && i.holder == box
                                && i.wanted && id !in s.tried && obs.reserved(i.fullType)
  {
    hide Prefilter;
    var (s', box) := (DriveTransfer(m, s, obs).0, s.current.value.box);
    assert forall i :: i in ItemsIn(obs.inventory.value, box) <==> i in obs.inventory.value.items && i.holder == box;
  }

  lemma StartKeepsBack(m: Mission, s: State, obs: Obs)
    requires m.Bounded() && s.Idle() && s.current.None?
    ensures var t := StartFetch(m, s, obs); t.tried == s.tried && t.reservedHits == s.reservedHits && !t.stage.TransferStage?
  {
    hide NextTail, Appraise, RememberedMap;
  }

  lemma {:induction false} HuntKeepsBack(m: Mission, s: State, obs: Obs)
    requires m.Bounded() && s.Idle() && obs.inventory.Some?
    ensures var s' := Hunt(m, s, obs).0;
            s'.tried == s.tried && if s.stage.TransferStage? then KeepsBack(s, obs, s') else s'.reservedHits == s.reservedHits
    decreases m.limits.maxCandidates - s.spent, StageRank(s)
  {
    hide DriveFetch, StartFetch, KeepsBack;
    var started := if s.current.Some? then s else StartFetch(m, s, obs);
    if s.current.None? { StartKeepsBack(m, s, obs); }
    if started.current.Some? {
      TurnKeepsBack(m, started, obs);
      var (driven, move) := DriveFetch(m, started, obs);
      if move.None? {
        HuntKeepsBack(m, driven, obs);
        BackAfter(started, obs, driven, Hunt(m, driven, obs).0);
      }
    }
  }

  lemma BackAfter(s: State, obs: Obs, t: State, s': State)
    requires obs.inventory.Some? && s'.reservedHits == t.reservedHits && s'.tried == t.tried
    ensures KeepsBack(s, obs, t) ==> KeepsBack(s, obs, s')
  {
  }

  lemma SeekKeepsBack(m: Mission, s: State, obs: Obs)
    requires m.Bounded() && s.Idle() && obs.inventory.Some? && obs.stat.Some?
    ensures var s' := Seek(m, s, obs, obs.stat.value).0;
            if s.spent >= m.limits.maxCandidates then s'.reservedHits == s.reservedHits else KeepsBack(s, obs, s')
  {
    hide Hunt, PickCarried, Prefilter;
    if s.spent < m.limits.maxCandidates {
      if s.stage.CheckStage? {
        HuntKeepsBack(m, Withhold(s, obs, obs.inventory.value.items), obs);
      } else {
        HuntKeepsBack(m, s, obs);
      }
    }
  }

  /** Whether a call looks for anything: above the target, with something to look in and
      candidates left.  What it keeps back is then exactly that, and nothing otherwise. */
  lemma LookKeepsBack(m: Mission, s: State, obs: Obs)
    requires m.Bounded() && s.Valid()
    ensures var s' := Decide(m, s, obs).0;
            if s.final.None? && s.pending.None? && s.failures < m.limits.maxFailures && obs.stat.Some? && obs.stat.value > m.target
               && obs.inventory.Some? && s.spent < m.limits.maxCandidates
            then KeepsBack(Discover(s, obs), obs, s') else s'.reservedHits == s.reservedHits
  {
    hide Seek, Read, Discover, KeepsBack;
    DiscoverFrame(s, obs);
    var here := Discover(s, obs);
    if s.final.None? && s.pending.None? && s.failures < m.limits.maxFailures && obs.stat.Some? {
      ReadKeepsBack(here, obs.stat.value);
      if obs.inventory.Some? {
        SeekKeepsBack(m, Read(here, obs.stat.value), obs);
        BackFrom(here, obs, Read(here, obs.stat.value), Decide(m, s, obs).0);
      }
    }
  }

  lemma ReadKeepsBack(s: State, stat: real)
    requires s.Idle()
    ensures var t := Read(s, stat);
            && t.reservedHits == s.reservedHits && t.stage == s.stage && t.current == s.current && t.seen == s.seen
            && t.spent == s.spent && t.final == s.final && t.pending == s.pending
  {
  }

  lemma BackFrom(s: State, obs: Obs, t: State, s': State)
    requires obs.inventory.Some? && t.reservedHits == s.reservedHits && t.stage == s.stage && t.current == s.current && t.seen == s.seen
    ensures KeepsBack(t, obs, s') ==> KeepsBack(s, obs, s')
  {
  }
}
