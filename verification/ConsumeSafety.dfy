/** What holds of every run of the eat-or-drink mission: its budgets, the order of
    each fetch, what it may consume, and what a completion is worth. */
module ConsumeSafety {
  import opened Wrappers
  import opened MissionMoves
  import opened ConsumeDecision
  import J = Journey

  predicate IsConsume(e: ConsumeEntry) { e.Commands() && e.move.command.Consume? }
  predicate IsEnsure(e: ConsumeEntry) { e.Commands() && e.move.command.EnsureMain? }
  predicate IsTransfer(e: ConsumeEntry) { e.Commands() && e.move.command.Transfer? }
  /** Every command but the move of a carried item to the main inventory. */
  predicate IsBudgeted(e: ConsumeEntry) { e.Commands() && !e.move.command.EnsureMain? }
  predicate IsProbe(e: ConsumeEntry) { e.Told? && e.move.Probe? }
  predicate IsSuccess(e: ConsumeEntry) { e.Succeeds() }

  // ---- reading the log ----

  /** The reading on the call that sent the newest command. */
  ghost function SentReading(log: seq<ConsumeEntry>): Option<real> {
    if log == [] then None
    else if log[|log| - 1].Commands() then log[|log| - 1].obs.stat
    else SentReading(log[..|log| - 1])
  }

  /** The item whose consume succeeded, and the reading its effect is owed against. */
  ghost function Awaiting(log: seq<ConsumeEntry>): Option<(string, Option<real>)> {
    if log == [] then None
    else
      var (before, last) := (log[..|log| - 1], log[|log| - 1]);
      if last.Told? then (if last.obs.stat.None? then Awaiting(before) else None)
      else if last.Succeeds() && Outstanding(before).Some? && Outstanding(before).value.Consume? then
        Some((Outstanding(before).value.item, SentReading(before)))
      else Awaiting(before)
  }

  ghost predicate Verifies(before: seq<ConsumeEntry>, e: ConsumeEntry) {
    e.Told? && e.obs.stat.Some? && Awaiting(before).Some? && Awaiting(before).value.1.Some?
  }

  /** This entry reads strictly below the reading its consume was sent at. */
  ghost predicate ReadsLower(before: seq<ConsumeEntry>, e: ConsumeEntry) {
    Verifies(before, e) && e.obs.stat.value < Awaiting(before).value.1.value
  }

  ghost predicate ReadsUnmoved(before: seq<ConsumeEntry>, e: ConsumeEntry) {
    Verifies(before, e) && !ReadsLower(before, e)
  }

  /** Some consume was verified: the need was read strictly lower after it. */
  ghost predicate Dropped(log: seq<ConsumeEntry>) {
    log != [] && (Dropped(log[..|log| - 1]) || ReadsLower(log[..|log| - 1], log[|log| - 1]))
  }

  /** Some consume succeeded and its fresh reading did not move. */
  ghost predicate Unmoved(log: seq<ConsumeEntry>) {
    log != [] && (Unmoved(log[..|log| - 1]) || ReadsUnmoved(log[..|log| - 1], log[|log| - 1]))
  }

  /** Items refused by a consume or a move to hand, or consumed to no effect. */
  ghost function Retired(log: seq<ConsumeEntry>): set<string> {
    if log == [] then {}
    else
      var (before, last) := (log[..|log| - 1], log[|log| - 1]);
      Retired(before) + RetiredBy(before, last)
  }

  ghost function RetiredBy(before: seq<ConsumeEntry>, e: ConsumeEntry): set<string> {
    if ReadsUnmoved(before, e) then {Awaiting(before).value.0}
    else if e.Folded? && !e.result.status.Succeeded? && Outstanding(before).Some? then
      match Outstanding(before).value
      case Consume(item, _) => {item}
      case EnsureMain(item) => {item}
      case _ => {}
    else {}
  }

  /** How far a fetch command is along its chain. */
  ghost function Rank(c: Command): nat {
    match c
    case Walk(_, _) => 1
    case OpenBox(_, _) => 2
    case Inspect(_, _) => 3
    case Transfer(_, _, _) => 4
    case _ => 0
  }

  /** How far the log has taken one container: 0 when it was never commanded. */
  ghost function Progress(log: seq<ConsumeEntry>, tail: string): nat {
    if log == [] then 0
    else if log[|log| - 1].Commands() && log[|log| - 1].move.command.Fetches()
      && log[|log| - 1].move.command.tail == tail then Rank(log[|log| - 1].move.command)
    else Progress(log[..|log| - 1], tail)
  }

  ghost function LastFetched(log: seq<ConsumeEntry>): Option<string> {
    if log == [] then None
    else if log[|log| - 1].Commands() && log[|log| - 1].move.command.Fetches() then Some(log[|log| - 1].move.command.tail)
    else LastFetched(log[..|log| - 1])
  }

  // ---- what justifies one answer ----

  /** Endings replay, and a command in flight is waited out. */
  ghost predicate Settled(past: seq<ConsumeEntry>, move: Move<Command>) {
    if EndingOf(past).Some? then move == EndingOf(past).value
    else Outstanding(past).Some? ==> move.Wait?
  }

  /** A fetch command takes its container strictly further than anything before
      it, steps of one walk excepted; and no container is returned to once
      another has been commanded. */
  ghost predicate InOrder(past: seq<ConsumeEntry>, move: Move<Command>) {
    move.Do? && move.command.Fetches() ==>
      var (tail, rank) := (move.command.tail, Rank(move.command));
      && (Progress(past, tail) < rank || Progress(past, tail) == rank == 1)
      && (Progress(past, tail) > 0 ==> LastFetched(past) == Some(tail))
  }

  /** What is consumed, moved or transferred is of the need's category, not
      reserved, never retired, and where the command says it is. */
  ghost predicate Allowed(past: seq<ConsumeEntry>, obs: Obs, move: Move<Command>) {
    move.Do? && (move.command.Consume? || move.command.EnsureMain? || move.command.Transfer?) ==>
      && obs.inventory.Some?
      && move.command.item !in Retired(past + [Told(obs, move)])
      && exists i :: i in obs.inventory.value.items && i.id == move.command.item && i.wanted
           && !obs.reserved(i.fullType) && (move.command.Transfer? ==> i.holder == move.command.box)
  }

  /** Completion needs a success, and a reading at the target now or strictly
      lower after a consume. */
  ghost predicate Earned(m: Mission, past: seq<ConsumeEntry>, obs: Obs, move: Move<Command>) {
    EndingOf(past).None? && move.Complete? ==>
      && Count(past, IsSuccess) > 0
      && obs.stat.Some?
      && (obs.stat.value <= m.target || Dropped(past + [Told(obs, move)]))
  }

  /** The exhausted endings split: nothing found means no consume was ever
      verified either way, no progress means one was and none moved the need. */
  ghost predicate Split(m: Mission, s: State, past: seq<ConsumeEntry>, obs: Obs, move: Move<Command>) {
    var now := past + [Told(obs, move)];
    EndingOf(past).None? ==>
      && (move.Refuse? && move.ended.EndedNothingFound? ==>
            move.reason == m.refusal && !Dropped(now) && !Unmoved(now))
      && (move.Refuse? && move.ended.EndedNoProgress? ==>
            || s.failures >= m.limits.maxFailures
            || (Count(past, IsProbe) >= m.limits.maxProbes && Count(past, IsSuccess) == 0)
            || (!Dropped(now) && Unmoved(now)))
      && (move.Refuse? && move.ended.EndedUnreported? ==> obs.stat.None?)
  }

  ghost predicate Justified(m: Mission, s: State, past: seq<ConsumeEntry>, obs: Obs, move: Move<Command>) {
    && Settled(past, move)
    && InOrder(past, move)
    && Allowed(past, obs, move)
    && Earned(m, past, obs, move)
    && Split(m, s, past, obs, move)
  }

  // ---- the invariant, in parts ----

  ghost predicate Control(s: State, log: seq<ConsumeEntry>) {
    && s.Valid()
    && s.final == EndingOf(log) && (s.final.Some? ==> s.final.value.Ends() && s.pending.None?)
    && s.pending == (match Outstanding(log) case None => None case Some(c) => Some(ActionOf(c)))
    && (s.anySuccess <==> Count(log, IsSuccess) > 0)
    && s.probes == Count(log, IsProbe)
    && (Outstanding(log).Some? ==> InFlight(s, Outstanding(log).value))
  }

  /** The command in flight is the one the stage is for. */
  ghost predicate InFlight(s: State, c: Command) {
    match c
    case EnsureMain(item) => s.stage.EnsureStage? && s.ensureItem == Some(item)
    case Consume(item, fraction) =>
      s.stage.ConsumeStage? && s.await.Some? && s.await.value.item == item && s.await.value.fraction == fraction
    case Walk(tail, _) => s.stage.ApproachStage? && s.current.Some? && s.current.value.tail == tail
    case OpenBox(tail, box) => s.stage.OpenStage? && HasInHand(s, tail, box)
    case Inspect(tail, box) => s.stage.InspectStage? && HasInHand(s, tail, box)
    case Transfer(tail, box, _) => s.stage.TransferStage? && HasInHand(s, tail, box)
  }

  ghost predicate HasInHand(s: State, tail: string, box: string) {
    s.current.Some? && s.current.value.tail == tail && s.current.value.box == box
  }

  /** Candidates: each consume is one, each container started is one. */
  ghost predicate Budgeted(m: Mission, s: State, log: seq<ConsumeEntry>) {
    && s.spent == Count(log, IsConsume) + |s.visited|
    && s.fetchIndex == |s.visited|
    && s.spent <= m.limits.maxCandidates
  }

  ghost function StageTop(s: State): nat {
    var sent := if s.pending.Some? then 1 else 0;
    match s.stage
    case ApproachStage => 1
    case OpenStage => 1 + sent
    case InspectStage => 2 + sent
    case TransferStage => 3 + sent
    case _ => 0
  }

  ghost predicate Fetching(m: Mission, s: State, log: seq<ConsumeEntry>) {
    && (forall t :: t !in s.visited ==> Progress(log, t) == 0)
    && (s.journey.Some? ==> s.journey.value.limits == m.journey)
    && (s.current.Some? ==>
          var tail := s.current.value.tail;
          && tail in s.visited
          && Progress(log, tail) <= StageTop(s)
          && (Progress(log, tail) > 0 ==> LastFetched(log) == Some(tail)))
  }

  /** One candidate's share of commands: a whole journey, open, inspect, transfer. */
  ghost function PerCandidate(m: Mission): nat { m.journey.Cap() + 3 }

  /** What a number of candidates pays for. */
  ghost function Paid(m: Mission, n: int): int { n * PerCandidate(m) }

  lemma PaidMore(m: Mission, n: int)
    ensures Paid(m, n + 1) == Paid(m, n) + PerCandidate(m)
  {
  }

  /** The commands the fetch in hand may still send. */
  ghost function Owed(s: State): int
    requires s.Valid()
  {
    var sent := if s.pending.Some? then 1 else 0;
    match s.stage
    case ApproachStage => s.journey.value.Fuel() + 3
    case OpenStage => 3 - sent
    case InspectStage => 2 - sent
    case TransferStage => 1 - sent
    case _ => 0
  }

  /** While candidates remain, commands are paid for per candidate; the last
      candidate gets a single command. */
  ghost predicate Costed(m: Mission, s: State, log: seq<ConsumeEntry>)
    requires s.Valid()
  {
    && (s.spent < m.limits.maxCandidates ==> Count(log, IsBudgeted) + Owed(s) <= Paid(m, s.spent))
    && (s.spent >= m.limits.maxCandidates ==>
          Count(log, IsBudgeted) <= Paid(m, m.limits.maxCandidates - 1) + 1)
  }

  ghost predicate HasUnmoved(book: Book) { exists k | k in book.skipped :: k.1.ConsumedUnmoved? }

  /** The books agree with the readings in the log. */
  ghost predicate Booked(s: State, log: seq<ConsumeEntry>) {
    && (s.book.moved <==> s.book.consumed != [])
    && (s.book.moved <==> Dropped(log))
    && (HasUnmoved(s.book) <==> Unmoved(log))
    && s.tried == Retired(log)
    && (s.book.moved ==> s.anySuccess)
  }

  ghost predicate Verifying(s: State, log: seq<ConsumeEntry>) {
    && (s.verifyDue <==> Awaiting(log).Some?)
    && (s.await.Some? <==> s.verifyDue || s.stage.ConsumeStage?)
    && (s.verifyDue ==>
          && s.anySuccess && s.pending.None? && s.failures == 0 && !s.stage.ConsumeStage?
          && Awaiting(log).value == (s.await.value.item, Some(s.await.value.statBefore)))
    && (s.stage.ConsumeStage? ==> SentReading(log) == Some(s.await.value.statBefore))
  }

  /** The part no reading touches. */
  ghost predicate Core(m: Mission, s: State, log: seq<ConsumeEntry>) {
    Control(s, log) && Budgeted(m, s, log) && Fetching(m, s, log) && Costed(m, s, log)
  }

  ghost predicate Inv(m: Mission, s: State, log: seq<ConsumeEntry>) {
    && Core(m, s, log)
    && (s.final.None? ==> Booked(s, log) && Verifying(s, log))
  }

  // ---- one more entry ----

  lemma AppendCounts(log: seq<ConsumeEntry>, e: ConsumeEntry)
    ensures Count(log + [e], IsConsume) == Count(log, IsConsume) + (if IsConsume(e) then 1 else 0)
    ensures Count(log + [e], IsEnsure) == Count(log, IsEnsure) + (if IsEnsure(e) then 1 else 0)
    ensures Count(log + [e], IsTransfer) == Count(log, IsTransfer) + (if IsTransfer(e) then 1 else 0)
    ensures Count(log + [e], IsBudgeted) == Count(log, IsBudgeted) + (if IsBudgeted(e) then 1 else 0)
    ensures Count(log + [e], IsProbe) == Count(log, IsProbe) + (if IsProbe(e) then 1 else 0)
    ensures Count(log + [e], IsSuccess) == Count(log, IsSuccess) + (if IsSuccess(e) then 1 else 0)
  {
    CountAppend(log, e, IsConsume);
    CountAppend(log, e, IsEnsure);
    CountAppend(log, e, IsTransfer);
    CountAppend(log, e, IsBudgeted);
    CountAppend(log, e, IsProbe);
    CountAppend(log, e, IsSuccess);
  }

  lemma AppendReadings(log: seq<ConsumeEntry>, e: ConsumeEntry)
    ensures SentReading(log + [e]) == if e.Commands() then e.obs.stat else SentReading(log)
    ensures Awaiting(log + [e]) ==
              if e.Told? then (if e.obs.stat.None? then Awaiting(log) else None)
              else if e.Succeeds() && Outstanding(log).Some? && Outstanding(log).value.Consume? then
                Some((Outstanding(log).value.item, SentReading(log)))
              else Awaiting(log)
    ensures Dropped(log + [e]) <==> Dropped(log) || ReadsLower(log, e)
    ensures Unmoved(log + [e]) <==> Unmoved(log) || ReadsUnmoved(log, e)
    ensures Retired(log + [e]) == Retired(log) + RetiredBy(log, e)
  {
    assert (log + [e])[..|log|] == log;
  }

  lemma AppendFetches(log: seq<ConsumeEntry>, e: ConsumeEntry)
    ensures var fetches := e.Commands() && e.move.command.Fetches();
            && LastFetched(log + [e]) == (if fetches then Some(e.move.command.tail) else LastFetched(log))
            && forall t :: Progress(log + [e], t) ==
                 if fetches && e.move.command.tail == t then Rank(e.move.command) else Progress(log, t)
  {
    assert (log + [e])[..|log|] == log;
  }

  /** Nothing read off a call depends on how it was answered, commands aside. */
  lemma ReadingsIgnoreMove(log: seq<ConsumeEntry>, obs: Obs, a: Move<Command>, b: Move<Command>)
    ensures var (x, y) := (log + [Told(obs, a)], log + [Told(obs, b)]);
            Dropped(x) == Dropped(y) && Unmoved(x) == Unmoved(y) && Retired(x) == Retired(y) && Awaiting(x) == Awaiting(y)
  {
    AppendReadings(log, Told(obs, a));
    AppendReadings(log, Told(obs, b));
    hide *;
    SameReading(log, obs, a, b);
  }

  lemma SameReading(log: seq<ConsumeEntry>, obs: Obs, a: Move<Command>, b: Move<Command>)
    ensures ReadsLower(log, Told(obs, a)) == ReadsLower(log, Told(obs, b))
    ensures ReadsUnmoved(log, Told(obs, a)) == ReadsUnmoved(log, Told(obs, b))
    ensures RetiredBy(log, Told(obs, a)) == RetiredBy(log, Told(obs, b))
  {
    hide Awaiting, Outstanding, SentReading;
  }

  // ---- answers that send nothing ----

  ghost predicate Sealed(t: State, s': State, move: Move<Command>) {
    || (move.Wait? && s' == t)
    || (move.Ends() && t.pending.None? && s' == Seal(t, move).0)
    || (move.Probe? && s' == t.(ended := EndedComplete, probes := t.probes + 1))
  }

  lemma QuietCore(m: Mission, t: State, log: seq<ConsumeEntry>, obs: Obs, s': State, move: Move<Command>)
    requires Core(m, t, log) && t.final.None? && Sealed(t, s', move)
    ensures Core(m, s', log + [Told(obs, move)])
  {
    hide Count, EndingOf, Outstanding, LastFetched, Progress;
    LogAppend(log, Told(obs, move));
    AppendCounts(log, Told(obs, move));
    AppendFetches(log, Told(obs, move));
  }

  lemma ReplayCore(m: Mission, t: State, log: seq<ConsumeEntry>, obs: Obs)
    requires Core(m, t, log) && t.final.Some?
    ensures Core(m, t, log + [Told(obs, t.final.value)])
  {
    hide Count, EndingOf, Outstanding, LastFetched, Progress;
    LogAppend(log, Told(obs, t.final.value));
    AppendCounts(log, Told(obs, t.final.value));
    AppendFetches(log, Told(obs, t.final.value));
  }

  // ---- reading the need ----

  /** After the need is read the books already include this call. */
  ghost predicate ReadBooks(t: State, log: seq<ConsumeEntry>, obs: Obs) {
    obs.stat.Some? && Booked(t, log + [Told(obs, Wait)]) && !t.verifyDue && t.await.None?
  }

  lemma ReadKeeps(m: Mission, s: State, log: seq<ConsumeEntry>, obs: Obs)
    requires Inv(m, s, log) && s.final.None? && s.pending.None? && obs.stat.Some?
    ensures Core(m, Read(s, obs.stat.value), log) && ReadBooks(Read(s, obs.stat.value), log, obs)
  {
    hide Count, EndingOf, Outstanding, LastFetched, Progress, Awaiting, SentReading, Dropped, Unmoved, Retired;
    AppendReadings(log, Told(obs, Wait));
    assert Core(m, Read(s, obs.stat.value), log);
    SkippedUnmoved(s.book.skipped, if s.await.Some? then s.await.value.item else "", ConsumedUnmoved);
  }

  lemma SkippedUnmoved(skipped: seq<(string, Skip)>, what: string, why: Skip)
    ensures (exists k | k in skipped + [(what, why)] :: k.1.ConsumedUnmoved?)
            <==> (exists k | k in skipped :: k.1.ConsumedUnmoved?) || why.ConsumedUnmoved?
  {
    if why.ConsumedUnmoved? { assert (what, why) in skipped + [(what, why)]; }
    if k :| k in skipped && k.1.ConsumedUnmoved? { assert k in skipped + [(what, why)]; }
  }

  /** The books survive any answer that leaves them alone. */
  lemma BooksKept(t: State, log: seq<ConsumeEntry>, obs: Obs, s': State, move: Move<Command>)
    requires ReadBooks(t, log, obs)
    requires s'.tried == t.tried && s'.anySuccess == t.anySuccess && !s'.verifyDue
    requires s'.book.moved == t.book.moved && s'.book.consumed == t.book.consumed
    requires HasUnmoved(s'.book) == HasUnmoved(t.book)
    requires s'.await.Some? <==> s'.stage.ConsumeStage?
    requires s'.stage.ConsumeStage? ==> move.Do? && obs.stat == Some(s'.await.value.statBefore)
    ensures Booked(s', log + [Told(obs, move)]) && Verifying(s', log + [Told(obs, move)])
  {
    hide Outstanding, Awaiting, SentReading, Dropped, Unmoved, Retired, HasUnmoved;
    ReadingsIgnoreMove(log, obs, move, Wait);
    AppendReadings(log, Told(obs, move));
  }

  // ---- the loop over containers ----

  /** Inside one call: the fetch in hand is unsent, and if it is the last one the
      budget allows, nothing has been spent on it yet. */
  ghost predicate Hunting(m: Mission, s: State, log: seq<ConsumeEntry>) {
    && Control(s, log) && Budgeted(m, s, log) && Fetching(m, s, log)
    && s.final.None? && s.pending.None? && (s.stage.CheckStage? || s.current.Some?)
    && Count(log, IsBudgeted) + Owed(s) <= Paid(m, s.spent)
    && (s.spent >= m.limits.maxCandidates ==>
          Count(log, IsBudgeted) <= Paid(m, m.limits.maxCandidates - 1))
  }

  /** What the loop leaves alone. */
  ghost predicate SameBooks(s: State, s': State) {
    && s'.tried == s.tried && s'.anySuccess == s.anySuccess && s'.verifyDue == s.verifyDue
    && s'.probes == s.probes && s'.await == s.await && !s'.stage.ConsumeStage? && !s'.stage.EnsureStage?
    && s'.book.moved == s.book.moved && s'.book.consumed == s.book.consumed
    && HasUnmoved(s'.book) == HasUnmoved(s.book)
  }

  lemma StartKeeps(m: Mission, s: State, log: seq<ConsumeEntry>, obs: Obs)
    requires m.Bounded() && Hunting(m, s, log) && s.current.None?
    ensures var s' := StartFetch(m, s, obs); Hunting(m, s', log) && SameBooks(s, s')
  {
    hide Count, EndingOf, Outstanding, LastFetched, Progress, Appraise, RememberedMap, Paid;
    if s.spent < m.limits.maxCandidates && NextTail(s, obs).Some? {
      var tail := NextTail(s, obs).value;
      assert tail !in s.visited by { NewTail(s, obs); }
      assert |s.visited + {tail}| == |s.visited| + 1;
      PaidMore(m, s.spent);
    }
  }

  lemma NewTail(s: State, obs: Obs)
    ensures NextTail(s, obs).Some? ==> NextTail(s, obs).value !in s.visited
  {
    hide RememberedMap;
  }

  /** Dropping the fetch in hand, for whatever reason and at whatever cost. */
  lemma DropKeeps(m: Mission, s: State, log: seq<ConsumeEntry>, why: Skip, failures: nat)
    requires m.Bounded() && Hunting(m, s, log) && s.current.Some? && !why.ConsumedUnmoved?
    ensures var s' := SkipFetch(s, why, failures); Hunting(m, s', log) && SameBooks(s, s')
  {
    hide Count, EndingOf, Outstanding, LastFetched, Progress, Paid;
    var skipped := SkipFetch(s, why, failures).book.skipped;
    var last := skipped[|s.book.skipped|];
    SkippedUnmoved(s.book.skipped, last.0, why);
  }

  /** One turn without a command: the fetch has moved on, or is gone. */
  lemma TurnKeeps(m: Mission, s: State, log: seq<ConsumeEntry>, obs: Obs)
    requires m.Bounded() && Hunting(m, s, log) && s.current.Some? && obs.inventory.Some?
    requires DriveFetch(m, s, obs).1.None?
    ensures var s' := DriveFetch(m, s, obs).0; Hunting(m, s', log) && SameBooks(s, s')
  {
    if s.stage.ApproachStage? {
      WalkTurnKeeps(m, s, log, obs);
    } else {
      hide Count, EndingOf, Outstanding, LastFetched, Progress, J.Next, Prefilter, ItemsIn, Paid;
      DropKeeps(m, s, log, StaleMemory, s.failures);
      var f := s.current.value;
      if f.box != "" || f.tail in s.seen {
        var box := if f.box == "" then s.seen[f.tail].0 else f.box;
        TransferTurnKeeps(m, s, s.(current := Some(f.(box := box))), log, obs);
      }
    }
  }

  lemma WalkTurnKeeps(m: Mission, s: State, log: seq<ConsumeEntry>, obs: Obs)
    requires m.Bounded() && Hunting(m, s, log) && s.current.Some? && obs.inventory.Some?
    requires s.stage.ApproachStage? && DriveFetch(m, s, obs).1.None?
    ensures var s' := DriveFetch(m, s, obs).0; Hunting(m, s', log) && SameBooks(s, s')
  {
    hide Count, EndingOf, Outstanding, LastFetched, Progress, J.Next, SkipFetch, DriveTransfer, Paid;
    DropKeeps(m, s, log, ApproachRefused, s.failures);
    DropKeeps(m, s, log, ApproachRefused, s.failures + 1);
    DropKeeps(m, s, log, DoorSealed(DoorLocked), s.failures);
    DropKeeps(m, s, log, DoorSealed(DoorBarricaded), s.failures);
  }

  lemma TransferTurnKeeps(m: Mission, s: State, found: State, log: seq<ConsumeEntry>, obs: Obs)
    requires m.Bounded() && Hunting(m, s, log) && s.current.Some? && obs.inventory.Some?
    requires found == s.(current := found.current) && found.current.Some?
    requires found.current.value.tail == s.current.value.tail
    ensures Hunting(m, found, log)
    ensures s.stage.TransferStage? && DriveTransfer(m, found, obs).1.None? ==>
              var s' := DriveTransfer(m, found, obs).0; Hunting(m, s', log) && SameBooks(s, s')
  {
    hide Count, EndingOf, Outstanding, LastFetched, Progress, SkipFetch, Prefilter, ItemsIn, Paid;
    assert Hunting(m, found, log);
    var looked := Withhold(found, obs, ItemsIn(obs.inventory.value, found.current.value.box));
    assert Hunting(m, looked, log);
    DropKeeps(m, found, log, NotDescribed, s.failures + 1);
    DropKeeps(m, looked, log, NothingSafeInside, s.failures);
  }

  /** One turn with a command. */
  ghost predicate Commanded(m: Mission, s: State, log: seq<ConsumeEntry>, obs: Obs, s': State, move: Move<Command>)
    requires obs.inventory.Some?
  {
    && move.Do? && move.command.Fetches()
    && Core(m, s', log + [Told(obs, move)]) && SameBooks(s, s') && s'.final.None?
    && InOrder(log, move)
    && (move.command.Transfer? ==>
          exists i :: i in obs.inventory.value.items && i.id == move.command.item
                      && Offered(s, obs, i) && i.holder == move.command.box)
  }

  /** What sending a command does to the state: the fetch in hand stays, one command of
      its share is used, and the stage stands where the command is. */
  ghost predicate Sends(s: State, obs: Obs, s': State, move: Move<Command>)
    requires s.Valid() && obs.inventory.Some?
  {
    && s'.Valid() && move.Do? && move.command.Fetches() && s.current.Some? && s'.current.Some?
    && move.command.tail == s.current.value.tail == s'.current.value.tail
    && s'.pending == Some(ActionOf(move.command)) && InFlight(s', move.command) && s'.final.None? && SameBooks(s, s')
    && s'.spent == s.spent && s'.visited == s.visited && s'.fetchIndex == s.fetchIndex
    && Owed(s') + 1 <= Owed(s) && StageTop(s') == Rank(move.command)
    && (StageTop(s) < Rank(move.command) || StageTop(s) == Rank(move.command) == 1)
    && (s'.journey.Some? ==> s.journey.Some? && s'.journey.value.limits == s.journey.value.limits)
    && (move.command.Transfer? ==>
          exists i :: i in obs.inventory.value.items && i.id == move.command.item
                      && Offered(s, obs, i) && i.holder == move.command.box)
  }

  lemma DriveSends(m: Mission, s: State, obs: Obs)
    requires m.Valid() && s.Idle() && s.final.None? && s.current.Some? && obs.inventory.Some?
    requires DriveFetch(m, s, obs).1.Some?
    ensures Sends(s, obs, DriveFetch(m, s, obs).0, DriveFetch(m, s, obs).1.value)
  {
    if s.stage.ApproachStage? {
      hide Sends;
      WalkSends(m, s, obs);
    } else {
      hide DriveTransfer;
      var f := s.current.value;
      var box := if f.box == "" then s.seen[f.tail].0 else f.box;
      if s.stage.TransferStage? { TransferSends(m, s, s.(current := Some(f.(box := box))), obs); }
    }
  }

  lemma WalkSends(m: Mission, s: State, obs: Obs)
    requires m.Valid() && s.Idle() && s.final.None? && s.current.Some? && obs.inventory.Some?
    requires s.stage.ApproachStage? && DriveFetch(m, s, obs).1.Some?
    ensures Sends(s, obs, DriveFetch(m, s, obs).0, DriveFetch(m, s, obs).1.value)
  {
    hide J.Next, DriveTransfer, AfterJourney;
  }

  lemma TransferSends(m: Mission, s: State, found: State, obs: Obs)
    requires m.Valid() && s.Idle() && s.final.None? && s.stage.TransferStage? && obs.inventory.Some?
    requires found == s.(current := found.current) && found.current.Some?
    requires found.current.value.tail == s.current.value.tail && DriveTransfer(m, found, obs).1.Some?
    ensures Sends(s, obs, DriveTransfer(m, found, obs).0, DriveTransfer(m, found, obs).1.value)
  {
    hide Prefilter, ItemsIn;
  }

  lemma CommandKeeps(m: Mission, s: State, log: seq<ConsumeEntry>, obs: Obs)
    requires m.Valid() && Hunting(m, s, log) && s.current.Some? && obs.inventory.Some?
    requires DriveFetch(m, s, obs).1.Some?
    ensures Commanded(m, s, log, obs, DriveFetch(m, s, obs).0, DriveFetch(m, s, obs).1.value)
  {
    hide Commanded, Sends, DriveFetch, Fetching, Budgeted;
    DriveSends(m, s, obs);
    SendKeeps(m, s, log, obs, DriveFetch(m, s, obs).0, DriveFetch(m, s, obs).1.value);
  }

  lemma SendKeeps(m: Mission, s: State, log: seq<ConsumeEntry>, obs: Obs, s': State, move: Move<Command>)
    requires Hunting(m, s, log) && obs.inventory.Some? && Sends(s, obs, s', move)
    ensures Commanded(m, s, log, obs, s', move)
  {
    hide Count, EndingOf, Outstanding, LastFetched, Progress, Owed, Paid, InFlight, StageTop;
    LogAppend(log, Told(obs, move));
    AppendCounts(log, Told(obs, move));
    AppendFetches(log, Told(obs, move));
    OwedLasts(s');
  }

  lemma OwedLasts(s: State)
    requires s.Valid()
    ensures Owed(s) >= 0
  {
  }

  // ---- what the loop answers ----

  ghost predicate Hunted(m: Mission, s: State, log: seq<ConsumeEntry>, obs: Obs, s': State, move: Move<Command>) {
    && Inv(m, s', log + [Told(obs, move)])
    && InOrder(log, move) && Allowed(log, obs, move)
    && (move.Do? || (move.Ends() && move == FinishExhausted(m, s).1))
  }

  lemma {:induction false} HuntKeeps(m: Mission, s: State, log: seq<ConsumeEntry>, obs: Obs)
    requires m.Valid() && Hunting(m, s, log) && ReadBooks(s, log, obs) && obs.inventory.Some?
    ensures var (s', move) := Hunt(m, s, obs); Hunted(m, s, log, obs, s', move)
    decreases m.limits.maxCandidates - s.spent, StageRank(s)
  {
    hide Count, EndingOf, Outstanding, LastFetched, Progress, DriveFetch, StartFetch, Dropped, Unmoved, Retired,
         Awaiting, SentReading, HasUnmoved;
    if s.current.None? { StartKeeps(m, s, log, obs); }
    var started := if s.current.Some? then s else StartFetch(m, s, obs);
    assert ReadBooks(started, log, obs);
    if started.current.None? {
      ExhaustKeeps(m, s, started, log, obs);
    } else if DriveFetch(m, started, obs).1.None? {
      TurnKeeps(m, started, log, obs);
      var driven := DriveFetch(m, started, obs).0;
      HuntKeeps(m, driven, log, obs);
      SameExhaustion(m, s, driven);
    } else {
      CommandKeeps(m, started, log, obs);
      HuntCommands(m, started, log, obs, DriveFetch(m, started, obs).0, DriveFetch(m, started, obs).1.value);
      hide Hunted;
      assert Hunted(m, started, log, obs, Hunt(m, s, obs).0, Hunt(m, s, obs).1);
      HuntedFrom(m, s, started, log, obs, Hunt(m, s, obs).0, Hunt(m, s, obs).1);
    }
  }

  lemma HuntedFrom(m: Mission, s: State, t: State, log: seq<ConsumeEntry>, obs: Obs, s': State, move: Move<Command>)
    requires Hunted(m, t, log, obs, s', move) && move.Do?
    ensures Hunted(m, s, log, obs, s', move)
  {
    hide Inv, InOrder, Allowed;
  }

  lemma SameExhaustion(m: Mission, s: State, t: State)
    requires s.book.moved == t.book.moved && s.book.consumed == t.book.consumed && s.anySuccess == t.anySuccess
    requires HasUnmoved(s.book) == HasUnmoved(t.book)
    ensures FinishExhausted(m, s).1 == FinishExhausted(m, t).1
  {
  }

  lemma ExhaustKeeps(m: Mission, s: State, t: State, log: seq<ConsumeEntry>, obs: Obs)
    requires m.Valid() && Hunting(m, t, log) && ReadBooks(t, log, obs)
    requires s.book.moved == t.book.moved && s.book.consumed == t.book.consumed && s.anySuccess == t.anySuccess
    requires HasUnmoved(s.book) == HasUnmoved(t.book)
    ensures var (s', move) := FinishExhausted(m, t); Hunted(m, s, log, obs, s', move)
  {
    hide Count, EndingOf, Outstanding, LastFetched, Progress, Dropped, Unmoved, Retired, Awaiting, SentReading;
    var (s', move) := FinishExhausted(m, t);
    SameExhaustion(m, s, t);
    assert Sealed(t, s', move);
    assert Costed(m, t, log);
    QuietCore(m, t, log, obs, s', move);
  }

  lemma HuntCommands(m: Mission, t: State, log: seq<ConsumeEntry>, obs: Obs, s': State, move: Move<Command>)
    requires ReadBooks(t, log, obs) && obs.inventory.Some?
    requires Commanded(m, t, log, obs, s', move)
    ensures Hunted(m, t, log, obs, s', move)
  {
    hide Core, InOrder, HasUnmoved, Dropped, Unmoved, Retired, Awaiting, SentReading;
    BooksKept(t, log, obs, s', move);
    ReadingsIgnoreMove(log, obs, move, Wait);
  }

  // ---- carried items ----

  lemma CarriedKeeps(m: Mission, t: State, log: seq<ConsumeEntry>, obs: Obs, c: Choice)
    requires m.Valid() && Hunting(m, t, log) && ReadBooks(t, log, obs) && obs.inventory.Some?
    requires t.spent < m.limits.maxCandidates && t.stage.CheckStage?
    requires PickCarried(m, t, obs) == Some(c)
    ensures var (s', move) := UseCarried(Withhold(t, obs, obs.inventory.value.items), obs, obs.stat.value, c);
            Inv(m, s', log + [Told(obs, move)]) && InOrder(log, move) && Allowed(log, obs, move) && move.Do?
  {
    hide Count, EndingOf, Outstanding, LastFetched, Progress, Prefilter, Dropped, Unmoved, Retired, Awaiting,
         SentReading, HasUnmoved, Paid;
    var (s', move) := UseCarried(Withhold(t, obs, obs.inventory.value.items), obs, obs.stat.value, c);
    CarriedCore(m, t, log, obs, c);
    BooksKept(t, log, obs, s', move);
    ReadingsIgnoreMove(log, obs, move, Wait);
    assert exists i :: i in Prefilter(t, obs, obs.inventory.value.items) && i.id == c.id;
  }

  lemma CarriedCore(m: Mission, t: State, log: seq<ConsumeEntry>, obs: Obs, c: Choice)
    requires m.Bounded() && Hunting(m, t, log) && obs.inventory.Some? && obs.stat.Some?
    requires t.spent < m.limits.maxCandidates && t.stage.CheckStage?
    ensures var (s', move) := UseCarried(Withhold(t, obs, obs.inventory.value.items), obs, obs.stat.value, c);
            Core(m, s', log + [Told(obs, move)])
  {
    hide Count, EndingOf, Outstanding, LastFetched, Progress, Prefilter, Paid;
    var (s', move) := UseCarried(Withhold(t, obs, obs.inventory.value.items), obs, obs.stat.value, c);
    LogAppend(log, Told(obs, move));
    AppendCounts(log, Told(obs, move));
    AppendFetches(log, Told(obs, move));
    PaidMore(m, t.spent);
  }

  // ---- the whole decision ----

  ghost predicate Answers(m: Mission, s: State, log: seq<ConsumeEntry>, obs: Obs, s': State, move: Move<Command>) {
    Inv(m, s', log + [Told(obs, move)]) && Justified(m, s, log, obs, move)
  }

  lemma ExhaustedClaims(m: Mission, s: State, t: State, log: seq<ConsumeEntry>, obs: Obs, move: Move<Command>)
    requires Control(t, log) && t.final.None? && t.pending.None?
    requires ReadBooks(t, log, obs) && move == FinishExhausted(m, t).1
    ensures Settled(log, move) && Earned(m, log, obs, move) && Split(m, s, log, obs, move)
    ensures InOrder(log, move) && Allowed(log, obs, move)
  {
    hide Count, EndingOf, Outstanding, Progress, LastFetched, Dropped, Unmoved, Retired, Awaiting, SentReading;
    ReadingsIgnoreMove(log, obs, move, Wait);
  }

  lemma SeekKeeps(m: Mission, s: State, t: State, log: seq<ConsumeEntry>, obs: Obs)
    requires m.Valid() && Inv(m, s, log) && s.final.None? && s.pending.None?
    requires obs.stat.Some? && obs.inventory.Some? && t == Read(Discover(s, obs), obs.stat.value)
    requires Core(m, t, log) && ReadBooks(t, log, obs)
    requires t.final.None? && t.pending.None? && t.Idle()
    ensures var (s', move) := Seek(m, t, obs, obs.stat.value); Answers(m, s, log, obs, s', move)
  {
    hide Count, EndingOf, Outstanding, Progress, LastFetched, Dropped, Unmoved, Retired, Awaiting, SentReading,
         HasUnmoved, Prefilter, Hunt, Read, Discover, InOrder, Allowed;
    var (s', move) := Seek(m, t, obs, obs.stat.value);
    if t.spent >= m.limits.maxCandidates {
      QuietCore(m, t, log, obs, s', move);
      BooksKept(t, log, obs, s', move);
      ExhaustedClaims(m, s, t, log, obs, move);
    } else {
      assert Hunting(m, t, log);
      var looked := Withhold(t, obs, obs.inventory.value.items);
      assert Hunting(m, looked, log);
      if t.stage.CheckStage? && PickCarried(m, t, obs).Some? {
        CarriedKeeps(m, t, log, obs, PickCarried(m, t, obs).value);
      } else {
        var from := if t.stage.CheckStage? then looked else t;
        HuntKeeps(m, from, log, obs);
        if move.Ends() { ExhaustedClaims(m, s, from, log, obs, move); }
      }
    }
  }

  lemma DiscoverKeeps(m: Mission, s: State, log: seq<ConsumeEntry>, obs: Obs)
    requires Inv(m, s, log)
    ensures Inv(m, Discover(s, obs), log)
  {
    hide Count, EndingOf, Outstanding, Progress, LastFetched, Dropped, Unmoved, Retired, Awaiting, SentReading,
         HasUnmoved, SightAll;
  }

  lemma LookKeeps(m: Mission, s: State, log: seq<ConsumeEntry>, obs: Obs)
    requires m.Valid() && Inv(m, s, log)
    ensures var (s', move) := Decide(m, s, obs); Answers(m, s, log, obs, s', move)
  {
    hide Count, EndingOf, Outstanding, Progress, LastFetched, Dropped, Unmoved, Retired, Awaiting, SentReading,
         HasUnmoved, Seek, Read, Discover;
    var (s', move) := Decide(m, s, obs);
    if s.final.Some? {
      ReplayCore(m, s, log, obs);
    } else {
      DiscoverKeeps(m, s, log, obs);
      var here := Discover(s, obs);
      DiscoverFrame(s, obs);
      if s.pending.Some? || s.failures >= m.limits.maxFailures || obs.stat.None? {
        QuietCore(m, here, log, obs, s', move);
        UnreadKeeps(m, s, here, log, obs, s', move);
      } else {
        var read := Read(here, obs.stat.value);
        ReadKeeps(m, here, log, obs);
        ReadFrame(here, obs.stat.value);
        if obs.stat.value <= m.target {
          SatisfiedKeeps(m, s, read, log, obs);
        } else if obs.inventory.None? {
          QuietCore(m, read, log, obs, s', move);
          BooksKept(read, log, obs, s', move);
        } else {
          SeekKeeps(m, s, read, log, obs);
        }
      }
    }
  }

  lemma DiscoverFrame(s: State, obs: Obs)
    ensures Discover(s, obs) == s.(seen := Discover(s, obs).seen)
  {
    hide SightAll;
  }

  lemma ReadFrame(s: State, stat: real)
    requires s.Idle()
    ensures var t := Read(s, stat);
            t.final == s.final && t.pending == s.pending && t.spent == s.spent && t.stage == s.stage && t.current == s.current
  {
  }

  /** Calls that end or wait before the need is read. */
  lemma UnreadKeeps(m: Mission, s: State, t: State, log: seq<ConsumeEntry>, obs: Obs, s': State, move: Move<Command>)
    requires m.Valid() && Inv(m, t, log) && t.final.None? && t == s.(seen := t.seen)
    requires Core(m, s', log + [Told(obs, move)])
    requires t.pending.Some? || t.failures >= m.limits.maxFailures || obs.stat.None?
    requires if t.pending.Some? then move.Wait? && s' == t
             else if t.failures >= m.limits.maxFailures then (s', move) == Seal(t, Refuse(EndedNoProgress, NoProgress))
             else (s', move) == Seal(t, Refuse(EndedUnreported, PreconditionFailed))
    ensures Answers(m, s, log, obs, s', move)
  {
    hide Count, EndingOf, Outstanding, Progress, LastFetched, Dropped, Unmoved, Retired, Awaiting, SentReading,
         HasUnmoved;
    AppendReadings(log, Told(obs, move));
  }

  lemma SatisfiedKeeps(m: Mission, s: State, t: State, log: seq<ConsumeEntry>, obs: Obs)
    requires m.Valid() && Core(m, t, log) && ReadBooks(t, log, obs) && obs.stat.value <= m.target
    requires t.final.None? && t.pending.None?
    ensures var (s', move) := FinishSatisfied(m, t); Answers(m, s, log, obs, s', move)
  {
    hide Count, EndingOf, Outstanding, Progress, LastFetched, Dropped, Unmoved, Retired, Awaiting, SentReading,
         HasUnmoved;
    var (s', move) := FinishSatisfied(m, t);
    QuietCore(m, t, log, obs, s', move);
    if !t.stage.ConsumeStage? { BooksKept(t, log, obs, s', move); }
  }

  // ---- results ----

  /** What folding a result leaves alone, and what it says of success. */
  lemma NoteFrame(s: State, r: ActionResult<Action>)
    requires s.Valid() && Accepts(s, r) && !s.stage.CheckStage?
    ensures var s' := Note(s, r);
            && s'.final == s.final && s'.pending.None? && s'.probes == s.probes
            && s'.spent == s.spent && s'.visited == s.visited && s'.fetchIndex == s.fetchIndex
            && s'.anySuccess == (s.anySuccess || r.status.Succeeded?)
  {
    hide J.Note, SkipBook, FailuresAfter;
  }

  lemma FoldControl(m: Mission, s: State, log: seq<ConsumeEntry>, r: ActionResult<Action>)
    requires m.Bounded() && Core(m, s, log) && Accepts(s, r)
    ensures Control(Note(s, r), log + [Folded(r)]) && Budgeted(m, Note(s, r), log + [Folded(r)])
  {
    hide Count, EndingOf, Outstanding, Fetching, Costed, Note, Paid;
    NoteFrame(s, r);
    LogAppend(log, Folded(r));
    AppendCounts(log, Folded(r));
  }

  lemma FoldFetching(m: Mission, s: State, log: seq<ConsumeEntry>, r: ActionResult<Action>)
    requires m.Bounded() && Core(m, s, log) && Accepts(s, r)
    ensures Fetching(m, Note(s, r), log + [Folded(r)])
  {
    hide Count, EndingOf, Outstanding, Progress, LastFetched, J.Note, Budgeted, Costed, SkipBook, Paid;
    AppendFetches(log, Folded(r));
  }

  lemma FoldCosted(m: Mission, s: State, log: seq<ConsumeEntry>, r: ActionResult<Action>)
    requires m.Bounded() && Core(m, s, log) && Accepts(s, r)
    ensures Costed(m, Note(s, r), log + [Folded(r)])
  {
    hide Count, EndingOf, Outstanding, Progress, LastFetched, J.Note, Budgeted, Fetching, SkipBook, Paid;
    AppendCounts(log, Folded(r));
  }

  lemma FoldCore(m: Mission, s: State, log: seq<ConsumeEntry>, r: ActionResult<Action>)
    requires m.Bounded() && Core(m, s, log) && Accepts(s, r)
    ensures Core(m, Note(s, r), log + [Folded(r)])
  {
    hide Control, Budgeted, Fetching, Costed, Note;
    FoldControl(m, s, log, r);
    FoldFetching(m, s, log, r);
    FoldCosted(m, s, log, r);
  }

  lemma FoldBooks(m: Mission, s: State, log: seq<ConsumeEntry>, r: ActionResult<Action>)
    requires Inv(m, s, log) && Accepts(s, r)
    ensures Booked(Note(s, r), log + [Folded(r)]) && Verifying(Note(s, r), log + [Folded(r)])
  {
    hide Inv, Booked, Verifying, Note, Accepts;
    if s.stage.ConsumeStage? { FoldConsumeBooks(m, s, log, r); } else { FoldOtherBooks(m, s, log, r); }
  }

  lemma FoldConsumeBooks(m: Mission, s: State, log: seq<ConsumeEntry>, r: ActionResult<Action>)
    requires Inv(m, s, log) && Accepts(s, r) && s.stage.ConsumeStage?
    ensures Booked(Note(s, r), log + [Folded(r)]) && Verifying(Note(s, r), log + [Folded(r)])
  {
    hide Count, EndingOf, Outstanding, Progress, LastFetched, Dropped, Unmoved, Retired, Awaiting, SentReading,
         J.Note, Fetching, Budgeted, Costed;
    AppendReadings(log, Folded(r));
    BooksGrow(s, r);
  }

  lemma FoldOtherBooks(m: Mission, s: State, log: seq<ConsumeEntry>, r: ActionResult<Action>)
    requires Inv(m, s, log) && Accepts(s, r) && !s.stage.ConsumeStage?
    ensures Booked(Note(s, r), log + [Folded(r)]) && Verifying(Note(s, r), log + [Folded(r)])
  {
    hide Count, EndingOf, Outstanding, Progress, LastFetched, Dropped, Unmoved, Retired, Awaiting, SentReading,
         J.Note, Fetching, Budgeted, Costed;
    AppendReadings(log, Folded(r));
    BooksGrow(s, r);
  }

  /** A result adds at most one line to the skipped, and none of them for lack of effect. */
  lemma BooksGrow(s: State, r: ActionResult<Action>)
    requires s.Valid() && Accepts(s, r)
    ensures HasUnmoved(Note(s, r).book) <==> HasUnmoved(s.book)
  {
    var skipped := Note(s, r).book.skipped;
    if skipped != s.book.skipped {
      var last := skipped[|s.book.skipped|];
      SkippedUnmoved(s.book.skipped, last.0, last.1);
    }
  }

  lemma {:induction false} RunKeeps(m: Mission, events: seq<Event>)
    requires m.Valid()
    ensures var run := After(m, events); Inv(m, run.state, run.log)
  {
    hide Inv, Decide, Note;
    if events == [] {
      NothingYet(m);
    } else {
      var run := After(m, events[..|events| - 1]);
      RunKeeps(m, events[..|events| - 1]);
      match events[|events| - 1] {
        case Look(obs) => LookKeeps(m, run.state, run.log, obs);
        case Fold(r) =>
          if Accepts(run.state, r) { FoldKeeps(m, run.state, run.log, r); } else { OtherFolds(run.state, r); }
        case Abandon => AbandonKeeps(m, run.state, run.log);
      }
    }
  }

  lemma NothingYet(m: Mission)
    requires m.Bounded()
    ensures Inv(m, Initial(), [])
  {
  }

  lemma OtherFolds(s: State, r: ActionResult<Action>)
    requires s.Valid() && !Accepts(s, r)
    ensures Note(s, r) == s
  {
  }

  lemma FoldKeeps(m: Mission, s: State, log: seq<ConsumeEntry>, r: ActionResult<Action>)
    requires m.Bounded() && Inv(m, s, log) && Accepts(s, r)
    ensures Inv(m, Note(s, r), log + [Folded(r)])
  {
    FoldBooks(m, s, log, r);
    FoldCore(m, s, log, r);
    hide Core, Booked, Verifying;
  }

  lemma AbandonKeeps(m: Mission, s: State, log: seq<ConsumeEntry>)
    requires Inv(m, s, log)
    ensures Inv(m, Abandoned(s), log)
  {
    hide Count, EndingOf, Outstanding, Progress, LastFetched, Dropped, Unmoved, Retired, Awaiting, SentReading;
  }

  // ---- what follows ----

  /** Whatever the run so far, the answer to the next observation is justified by
      the log of everything before it. */
  lemma EveryAnswerIsJustified(m: Mission, events: seq<Event>, obs: Obs)
    requires m.Valid()
    ensures var run := After(m, events);
            Justified(m, run.state, run.log, obs, Decide(m, run.state, obs).1)
  {
    hide Inv, Justified, Decide, Step;
    RunKeeps(m, events);
    LookKeeps(m, After(m, events).state, After(m, events).log, obs);
    AnswersJustify(m, After(m, events).state, After(m, events).log, obs);
  }

  lemma AnswersJustify(m: Mission, s: State, log: seq<ConsumeEntry>, obs: Obs)
    requires m.Bounded() && s.Valid()
    requires Answers(m, s, log, obs, Decide(m, s, obs).0, Decide(m, s, obs).1)
    ensures Justified(m, s, log, obs, Decide(m, s, obs).1)
  {
    hide Inv, Justified, Decide;
  }

  /** Consumes and containers share one budget, and every command but the move of
      a carried item to hand is paid for by it: a whole journey and three commands
      for each candidate but the last, which gets one command. */
  lemma RunBudgets(m: Mission, events: seq<Event>)
    requires m.Valid()
    ensures var run := After(m, events);
            var (max, perCandidate) := (m.limits.maxCandidates, m.journey.maxLegs + m.journey.maxReplans + 3);
            && Count(run.log, IsConsume) + |run.state.visited| == run.state.spent <= max
            && Count(run.log, IsBudgeted) <= (max - 1) * perCandidate + 1
            && Count(run.log, IsBudgeted) <= max * perCandidate
  {
    RunKeeps(m, events);
    hide After;
    BudgetsOf(m, After(m, events).state, After(m, events).log);
    hide Inv;
  }

  lemma BudgetsOf(m: Mission, s: State, log: seq<ConsumeEntry>)
    requires m.Bounded() && Inv(m, s, log)
    ensures var (max, perCandidate) := (m.limits.maxCandidates, m.journey.maxLegs + m.journey.maxReplans + 3);
            && Count(log, IsConsume) + |s.visited| == s.spent <= max
            && Count(log, IsBudgeted) <= (max - 1) * perCandidate + 1
            && Count(log, IsBudgeted) <= max * perCandidate
  {
    hide Count, EndingOf, Outstanding, Progress, LastFetched, Control, Booked, Verifying, Fetching;
    CostArithmetic(m.limits.maxCandidates, PerCandidate(m), s.spent);
    assert s.Valid() by { ValidOf(m, s, log); }
    assert Owed(s) >= 0;
  }

  lemma ValidOf(m: Mission, s: State, log: seq<ConsumeEntry>)
    requires Inv(m, s, log)
    ensures s.Valid()
  {
  }

  lemma CostArithmetic(max: nat, per: nat, spent: nat)
    requires 1 <= max && 1 <= per
    ensures (max - 1) * per + 1 <= max * per
    ensures spent < max ==> spent * per <= (max - 1) * per
  {
    if spent < max { assert (max - 1 - spent) * per >= 0; }
  }

  lemma DriveKinds(m: Mission, s: State, obs: Obs)
    requires s.Idle() && s.current.Some? && obs.inventory.Some?
    ensures var (s', move) := DriveFetch(m, s, obs);
            if move.Some? then
              && (move.value.Do? && move.value.command.Inspect? ==> s.stage.InspectStage?)
              && (move.value.Do? && move.value.command.Transfer? ==> s.stage.TransferStage?)
            else !s'.stage.InspectStage? && !s'.stage.TransferStage?
  {
    hide NextTail, Appraise, RememberedMap, Prefilter, ItemsIn, J.Next;
  }

  lemma StartsOutside(m: Mission, s: State, obs: Obs)
    requires m.Bounded() && s.Idle() && s.current.None? && obs.inventory.Some?
    ensures var s' := StartFetch(m, s, obs); s'.current.Some? ==> !s'.stage.InspectStage? && !s'.stage.TransferStage?
  {
    hide NextTail, Appraise, RememberedMap, Prefilter, ItemsIn, J.Next;
  }

  /** An inspect or a transfer is never the first command of a fetch. */
  lemma {:induction false} HuntKinds(m: Mission, s: State, obs: Obs)
    requires m.Bounded() && s.Idle() && obs.inventory.Some?
    ensures var move := Hunt(m, s, obs).1;
            && (move.Do? && move.command.Inspect? ==> s.stage.InspectStage?)
            && (move.Do? && move.command.Transfer? ==> s.stage.TransferStage?)
    decreases m.limits.maxCandidates - s.spent, StageRank(s)
  {
    hide DriveFetch, StartFetch;
    if s.current.None? { StartsOutside(m, s, obs); }
    var started := if s.current.Some? then s else StartFetch(m, s, obs);
    if started.current.Some? {
      DriveKinds(m, started, obs);
      if DriveFetch(m, started, obs).1.None? { HuntKinds(m, DriveFetch(m, started, obs).0, obs); }
    }
  }

  lemma CommandNeedsBudget(m: Mission, s: State, obs: Obs)
    requires m.Bounded() && s.Valid()
    ensures var move := Decide(m, s, obs).1;
            && (s.final.None? && move.Do? ==> s.spent < m.limits.maxCandidates)
            && (s.final.None? && move.Do? && (move.command.Inspect? || move.command.Transfer?) ==> s.current.Some?)
  {
    hide Hunt, Prefilter, Read, Discover;
    if s.final.None? && s.pending.None? && obs.stat.Some? && obs.inventory.Some? {
      DiscoverFrame(s, obs);
      ReadFrame(Discover(s, obs), obs.stat.value);
      var read := Read(Discover(s, obs), obs.stat.value);
      HuntKinds(m, read, obs);
      HuntKinds(m, Withhold(read, obs, obs.inventory.value.items), obs);
    }
  }

  /** Over every run a command goes out only while a candidate is left, and a container
      is looked into or taken from only once it has been started as one: so the last
      candidate of any budget gets the one command that starts it. */
  lemma CommandsNeedCandidates(m: Mission, events: seq<Event>, obs: Obs)
    requires m.Valid()
    ensures var (run, max) := (After(m, events), m.limits.maxCandidates);
            var e: ConsumeEntry := Told(obs, Decide(m, run.state, obs).1);
            var spent := Count(run.log, IsConsume) + |run.state.visited|;
            && (e.Commands() ==> spent < max)
            && (IsInside(e) ==> 0 < spent < max)
  {
    RunKeeps(m, events);
    hide After, Decide, Count;
    var run := After(m, events);
    CommandNeedsBudget(m, run.state, obs);
    EndedSendsNothing(m, run.state, run.log, obs);
    if run.state.spent == 0 { NothingOpened(m, run.state, run.log); }
    SpentIs(m, run.state, run.log);
  }

  lemma SpentIs(m: Mission, s: State, log: seq<ConsumeEntry>)
    requires Inv(m, s, log)
    ensures s.spent == Count(log, IsConsume) + |s.visited|
  {
    hide Count, Progress, LastFetched;
  }

  predicate IsInside(e: ConsumeEntry) { e.Commands() && (e.move.command.Inspect? || e.move.command.Transfer?) }

  /** With a single candidate no container is ever looked into: opening it spends
      the budget, and the budget is checked before the fetch in hand is driven. */
  lemma {:induction false} OneCandidateNeverTransfers(m: Mission, events: seq<Event>)
    requires m.Valid() && m.limits.maxCandidates == 1
    ensures Count(After(m, events).log, IsInside) == 0
  {
    if events != [] {
      var before := events[..|events| - 1];
      OneCandidateNeverTransfers(m, before);
      var run := After(m, before);
      hide Decide, Note, Count;
      match events[|events| - 1] {
        case Look(obs) =>
          CommandsNeedCandidates(m, before, obs);
          CountAppend(run.log, Told(obs, Decide(m, run.state, obs).1), IsInside);
        case Fold(r) => CountAppend(run.log, Folded(r), IsInside);
        case Abandon =>
      }
    }
  }

  lemma NothingOpened(m: Mission, s: State, log: seq<ConsumeEntry>)
    requires Inv(m, s, log) && s.spent == 0
    ensures s.current.None?
  {
    hide Count, Progress, LastFetched;
  }

  lemma EndedSendsNothing(m: Mission, s: State, log: seq<ConsumeEntry>, obs: Obs)
    requires m.Bounded() && Inv(m, s, log)
    ensures s.final.Some? ==> !Decide(m, s, obs).1.Do?
  {
    hide Count, EndingOf, Outstanding, Progress, LastFetched, Dropped, Unmoved, Retired, Awaiting, SentReading;
  }

  // ---- a second candidate is enough ----

  const SHELF := Obs((0, 0, 0), Some(1.0), Some(Inventory(["box"], [Item("i", "Base.Crisps", true, "box")])),
                     Some([Seen("box", Some((0, 0, 0)), Some("shelf"))]), [],
                     t => false, k => J.View(false, 0, false, J.SearchExhausted))

  /** A policy that takes the first item a container holds. */
  ghost function Rummager(limits: Limits, journey: J.Limits): Mission {
    Mission(limits, journey, 0.0, NoSafeFood,
            (v: View, o: Obs) => if v.items == [] || !v.world then None else Some(Choice(v.items[0].id, "", 1.0, false)))
  }

  ghost predicate AtShelf(s: State) {
    && s.Valid() && s.final.None? && s.failures == 0 && s.spent == 1 && s.tried == {} && !s.verifyDue
    && s.current == Some(Fetch("shelf", "box", (0, 0, 0), 1)) && s.seen == map["shelf" := ("box", (0, 0, 0))]
  }

  lemma ShelfOpens(m: Mission)
    requires m.Bounded() && m == Rummager(m.limits, m.journey) && m.limits.maxCandidates >= 2
    ensures var (s, move) := Decide(m, Initial(), SHELF);
            && move.Do? && move.command == OpenBox("shelf", "box")
            && AtShelf(s) && s.stage.OpenStage? && s.pending == Some(OpenAction)
  {
    var seen := Discover(Initial(), SHELF).seen;
    assert seen == map["shelf" := ("box", (0, 0, 0))] by { ShelfSeen(Initial()); }
    var s := Withhold(Read(Discover(Initial(), SHELF), 1.0), SHELF, SHELF.inventory.value.items);
    assert PickCarried(m, s, SHELF).None?;
    assert RememberedMap(SHELF.known) == map[];
    assert NextTail(s, SHELF) == Some("shelf") by {
      assert "shelf" in s.seen && Appraise(s, SHELF, map[], "shelf").Some?;
    }
  }

  lemma ShelfSeen(s: State)
    requires s.seen == map[] || s.seen == map["shelf" := ("box", (0, 0, 0))]
    ensures Discover(s, SHELF).seen == map["shelf" := ("box", (0, 0, 0))]
  {
    var objects := SHELF.nearby.value;
    assert objects == [objects[0]] && objects[..|objects| - 1] == [];
    assert SightAll(s.seen, []) == s.seen;
  }

  lemma ShelfGoesOn(m: Mission, s: State)
    requires m.Bounded() && m == Rummager(m.limits, m.journey) && m.limits.maxCandidates >= 2
    requires AtShelf(s) && s.pending.None? && (s.stage.InspectStage? || s.stage.TransferStage?)
    ensures var (s', move) := Decide(m, s, SHELF);
            && AtShelf(s') && s'.stage == s.stage && move.Do?
            && move.command == (if s.stage.InspectStage? then Inspect("shelf", "box") else Transfer("shelf", "box", "i"))
            && s'.pending == Some(ActionOf(move.command))
  {
    hide Rummager, Discover, Read, DriveFetch;
    ShelfReads(m, s);
    ShelfDrives(m, Read(Discover(s, SHELF), 1.0));
  }

  lemma ShelfReads(m: Mission, s: State)
    requires AtShelf(s) && s.pending.None? && m == Rummager(m.limits, m.journey)
    ensures m.target == 0.0 && Discover(s, SHELF).Idle() && Discover(s, SHELF).failures == 0
    ensures var t := Read(Discover(s, SHELF), 1.0); AtShelf(t) && t.Idle() && t.stage == s.stage
  {
    hide SightAll;
    ShelfSeen(s);
  }

  lemma ShelfDrives(m: Mission, s: State)
    requires AtShelf(s) && s.pending.None? && m == Rummager(m.limits, m.journey)
    requires s.stage.InspectStage? || s.stage.TransferStage?
    ensures var (s', move) := DriveFetch(m, s, SHELF);
            && AtShelf(s') && s'.stage == s.stage && move.Some? && move.value.Do?
            && move.value.command == (if s.stage.InspectStage? then Inspect("shelf", "box") else Transfer("shelf", "box", "i"))
            && s'.pending == Some(ActionOf(move.value.command))
  {
    hide Prefilter, ItemsIn;
    var items := SHELF.inventory.value.items;
    ShelfHolds(s);
    assert items != [] && items[0].id == "i";
  }

  lemma ShelfHolds(s: State)
    requires s.tried == {}
    ensures var items := SHELF.inventory.value.items;
            ItemsIn(SHELF.inventory.value, "box") == items && Prefilter(s, SHELF, items) == items
  {
    var items := SHELF.inventory.value.items;
    assert items[..|items| - 1] == [];
    assert ItemsOf([], "box") == [] && ItemsIn(SHELF.inventory.value, "box") == [] + [items[0]] == items;
    assert Prefilter(s, SHELF, []) == [] && Prefilter(s, SHELF, items) == [] + [items[0]] == items;
  }

  /** One command of the fetch sent and its success folded in. */
  ghost function Served(m: Mission, run: Run, a: Action): (run': Run)
    requires m.Bounded() && run.state.Valid()
    ensures run'.state.Valid()
  {
    Step(m, Step(m, run, Look(SHELF)), Fold(ActionResult(a, Succeeded, NoProgress)))
  }

  lemma ServedAfter(m: Mission, events: seq<Event>, a: Action)
    requires m.Bounded()
    ensures Served(m, After(m, events), a) == After(m, events + [Look(SHELF), Fold(ActionResult(a, Succeeded, NoProgress))])
  {
    var r := ActionResult(a, Succeeded, NoProgress);
    HistoryAppend(m, events, Look(SHELF));
    HistoryAppend(m, events + [Look(SHELF)], Fold(r));
    assert events + [Look(SHELF)] + [Fold(r)] == events + [Look(SHELF), Fold(r)];
  }

  lemma NextStage(s: State, r: ActionResult<Action>)
    requires AtShelf(s) && s.pending == Some(r.action) && r.status.Succeeded? && (s.stage.OpenStage? || s.stage.InspectStage?)
    ensures Accepts(s, r) && AtShelf(Note(s, r)) && Note(s, r).pending.None?
    ensures if s.stage.OpenStage? then Note(s, r).stage.InspectStage? else Note(s, r).stage.TransferStage?
  {
  }

  const RUMMAGE: seq<Event> :=
    [Look(SHELF), Fold(ActionResult(OpenAction, Succeeded, NoProgress))]
    + [Look(SHELF), Fold(ActionResult(InspectAction, Succeeded, NoProgress))] + [Look(SHELF)]

  /** With any budget but one a container is looked into and taken from. */
  lemma SecondCandidateTransfers(limits: Limits, journey: J.Limits)
    requires limits.Valid() && journey.Valid() && limits.maxCandidates >= 2
    ensures var m := Rummager(limits, journey);
            m.Valid() && Count(After(m, RUMMAGE).log, IsInside) > 0 && Count(After(m, RUMMAGE).log, IsTransfer) > 0
  {
    hide Decide, Note, Count, AtShelf, Accepts, After, Rummager;
    var m := Rummager(limits, journey);
    RummagerValid(limits, journey);
    StartsInitial(m);
    ServedAfter(m, [], OpenAction);
    var first := [Look(SHELF), Fold(ActionResult(OpenAction, Succeeded, NoProgress))];
    var open := Served(m, After(m, []), OpenAction);
    assert [] + first == first;
    ShelfOpens(m);
    NextStage(Decide(m, Initial(), SHELF).0, ActionResult(OpenAction, Succeeded, NoProgress));
    ShelfGoesOn(m, open.state);
    NextStage(Decide(m, open.state, SHELF).0, ActionResult(InspectAction, Succeeded, NoProgress));
    ServedAfter(m, first, InspectAction);
    var looked := Served(m, open, InspectAction);
    ShelfGoesOn(m, looked.state);
    HistoryAppend(m, first + [Look(SHELF), Fold(ActionResult(InspectAction, Succeeded, NoProgress))], Look(SHELF));
    CountAppend(looked.log, Told(SHELF, Decide(m, looked.state, SHELF).1), IsInside);
    CountAppend(looked.log, Told(SHELF, Decide(m, looked.state, SHELF).1), IsTransfer);
  }

  lemma StartsInitial(m: Mission)
    requires m.Bounded()
    ensures After(m, []) == Run(Initial(), [])
  {
  }

  lemma RummagerValid(limits: Limits, journey: J.Limits)
    requires limits.Valid() && journey.Valid()
    ensures var m := Rummager(limits, journey); m.Valid() && m.limits == limits && m.journey == journey
  {
    var m := Rummager(limits, journey);
    forall v, o | m.select(v, o).Some? ensures exists i :: i in v.items && i.id == m.select(v, o).value.id {
      assert v.items[0] in v.items;
    }
  }

  // ---- what pays for a move to hand ----

  predicate IsHanded(e: ConsumeEntry) { e.Succeeds() && e.result.action.EnsureAction? }

  /** Every move to hand but one in flight succeeded or retired an item of its own. */
  ghost predicate PaidFor(log: seq<ConsumeEntry>) {
    var moving := Outstanding(log).Some? && Outstanding(log).value.EnsureMain?;
    && Count(log, IsEnsure) <= Count(log, IsHanded) + |Retired(log)| + (if moving then 1 else 0)
    && (moving ==> Outstanding(log).value.item !in Retired(log))
  }

  lemma AppendMoves(log: seq<ConsumeEntry>, e: ConsumeEntry)
    ensures Count(log + [e], IsEnsure) == Count(log, IsEnsure) + (if IsEnsure(e) then 1 else 0)
    ensures Count(log + [e], IsHanded) == Count(log, IsHanded) + (if IsHanded(e) then 1 else 0)
    ensures Retired(log + [e]) == Retired(log) + RetiredBy(log, e)
    ensures |Retired(log + [e])| >= |Retired(log)|
  {
    CountAppend(log, e, IsEnsure);
    CountAppend(log, e, IsHanded);
    AppendReadings(log, e);
    Larger(Retired(log), RetiredBy(log, e));
  }

  lemma Larger(a: set<string>, b: set<string>)
    ensures |a + b| >= |a|
  {
    assert a + b == a + (b - a);
  }

  lemma PaidLook(m: Mission, s: State, log: seq<ConsumeEntry>, obs: Obs, move: Move<Command>)
    requires Inv(m, s, log) && PaidFor(log) && Settled(log, move) && Allowed(log, obs, move)
    ensures PaidFor(log + [Told(obs, move)])
  {
    hide Count, EndingOf, Outstanding, Progress, LastFetched, Dropped, Unmoved, Retired, Awaiting, SentReading;
    hide Fetching, Costed, Budgeted, HasUnmoved, InFlight;
    LogAppend(log, Told(obs, move));
    AppendMoves(log, Told(obs, move));
  }

  lemma PaidFold(m: Mission, s: State, log: seq<ConsumeEntry>, r: ActionResult<Action>)
    requires Inv(m, s, log) && PaidFor(log) && Accepts(s, r)
    ensures PaidFor(log + [Folded(r)])
  {
    hide Count, EndingOf, Outstanding, Progress, LastFetched, Dropped, Unmoved, Retired, Awaiting, SentReading;
    hide Fetching, Costed, Budgeted, HasUnmoved, InFlight, Booked, Verifying;
    LogAppend(log, Folded(r));
    AppendMoves(log, Folded(r));
  }

  lemma {:induction false} RunPaid(m: Mission, events: seq<Event>)
    requires m.Valid()
    ensures PaidFor(After(m, events).log)
  {
    if events != [] {
      hide PaidFor, Inv, Justified, Decide, Note;
      var before := events[..|events| - 1];
      RunPaid(m, before);
      RunKeeps(m, before);
      var run := After(m, before);
      match events[|events| - 1] {
        case Look(obs) =>
          EveryAnswerIsJustified(m, before, obs);
          JustifiedMoves(m, run.state, run.log, obs, Decide(m, run.state, obs).1);
          PaidLook(m, run.state, run.log, obs, Decide(m, run.state, obs).1);
        case Fold(r) => if Accepts(run.state, r) { PaidFold(m, run.state, run.log, r); }
        case Abandon =>
      }
    }
  }

  lemma JustifiedMoves(m: Mission, s: State, log: seq<ConsumeEntry>, obs: Obs, move: Move<Command>)
    requires Justified(m, s, log, obs, move)
    ensures Settled(log, move) && Allowed(log, obs, move)
  {
    hide Settled, InOrder, Allowed, Earned, Split;
  }

  /** A move to hand either succeeds or costs an item, and no item is lost twice: over
      any run there are no more than the moves that succeeded, the items retired and the
      one in flight. */
  lemma MovesToHandArePaidFor(m: Mission, events: seq<Event>)
    requires m.Valid()
    ensures var log := After(m, events).log;
            Count(log, IsEnsure) <= Count(log, IsHanded) + |Retired(log)| + 1
  {
    hide Count, Retired, Outstanding;
    RunPaid(m, events);
  }

  // ---- the move to hand has no budget of its own ----

  const SNACK := Item("i", "Base.Crisps", true, "bag")

  const HUNGRY := Obs((0, 0, 0), Some(1.0), Some(Inventory(["bag"], [SNACK])), None, [],
                      t => false, k => J.View(false, 0, false, J.SearchExhausted))

  /** A policy that always picks the first item, and wants carried ones in hand. */
  ghost function Fetcher(limits: Limits, journey: J.Limits): Mission {
    Mission(limits, journey, 0.0, NoSafeFood,
            (v: View, o: Obs) => if v.items == [] then None
                                 else Some(Choice(v.items[0].id, "", 1.0, !v.world)))
  }

  const HANDED := ActionResult(EnsureAction, Succeeded, NoProgress)

  ghost predicate BetweenMoves(s: State) {
    && s.final.None? && s.pending.None? && s.stage.CheckStage? && s.failures == 0 && !s.verifyDue && s.await.None?
    && s.spent == 0 && s.tried == {} && s.seen == map[] && s.Valid()
  }

  lemma MoveRound(m: Mission, s: State)
    requires m.limits.Valid() && m.journey.Valid() && BetweenMoves(s)
    requires m == Fetcher(m.limits, m.journey)
    ensures var (s', move) := Decide(m, s, HUNGRY);
            && move == Do(s.steps + 1, EnsureMain("i"))
            && Accepts(s', HANDED) && BetweenMoves(Note(s', HANDED))
  {
    hide Hunt, PickCarried, Fetcher, Read, Discover, Withheld;
    HungryReads(s);
    FetcherPicks(m, Read(Discover(s, HUNGRY), 1.0));
  }

  /** The policy picks the snack, and wants it in hand. */
  lemma FetcherPicks(m: Mission, s: State)
    requires m == Fetcher(m.limits, m.journey) && s.tried == {}
    ensures m.target == 0.0 && PickCarried(m, s, HUNGRY) == Some(Choice("i", "", 1.0, true))
  {
    var items := HUNGRY.inventory.value.items;
    assert Offered(s, HUNGRY, SNACK) && items == [SNACK] && items[..|items| - 1] == [];
    assert Prefilter(s, HUNGRY, []) == [];
    assert Prefilter(s, HUNGRY, items) == [] + [SNACK] == [SNACK];
  }

  lemma HungryReads(s: State)
    requires BetweenMoves(s)
    ensures var read := Read(Discover(s, HUNGRY), 1.0);
            && read.tried == {} && read.final.None? && read.pending.None? && read.stage.CheckStage? && read.spent == 0
            && read.failures == 0 && read.steps == s.steps && read.seen == map[] && !read.verifyDue && read.await.None?
            && read.Idle() && Discover(s, HUNGRY).Valid() && Discover(s, HUNGRY).failures == 0
            && Discover(s, HUNGRY).pending.None?
  {
  }

  ghost function MoveForever(n: nat): seq<Event> {
    if n == 0 then [] else MoveForever(n - 1) + [Look(HUNGRY), Fold(HANDED)]
  }

  /** A policy that keeps asking for an item to be moved to hand, and moves that
      succeed, spend no candidate and no failure: the run is as long as one likes. */
  lemma {:induction false} MovesToHandAreUnbounded(limits: Limits, journey: J.Limits, n: nat)
    requires limits.Valid() && journey.Valid()
    ensures var m := Fetcher(limits, journey);
            var run := After(m, MoveForever(n));
            m.Valid() && Count(run.log, IsEnsure) == n && Count(run.log, IsBudgeted) == 0 && BetweenMoves(run.state)
  {
    hide Decide, Note, Count, BetweenMoves, Accepts, After, Fetcher;
    var m := Fetcher(limits, journey);
    FetcherValid(limits, journey);
    if n == 0 {
      NoMovesYet(m);
    } else {
      MovesToHandAreUnbounded(limits, journey, n - 1);
      var events, run := MoveForever(n - 1), After(m, MoveForever(n - 1));
      MoveRound(m, run.state);
      var look: ConsumeEntry := Told(HUNGRY, Decide(m, run.state, HUNGRY).1);
      HistoryAppend(m, events, Look(HUNGRY));
      HistoryAppend(m, events + [Look(HUNGRY)], Fold(HANDED));
      assert events + [Look(HUNGRY)] + [Fold(HANDED)] == events + [Look(HUNGRY), Fold(HANDED)];
      AppendCounts(run.log, look);
      AppendCounts(run.log + [look], Folded(HANDED));
    }
  }

  lemma NoMovesYet(m: Mission)
    requires m.limits.Valid() && m.journey.Valid()
    ensures After(m, []).log == [] && Count(After(m, []).log, IsEnsure) == 0 && Count(After(m, []).log, IsBudgeted) == 0
    ensures BetweenMoves(After(m, []).state)
  {
  }

  lemma FetcherValid(limits: Limits, journey: J.Limits)
    requires limits.Valid() && journey.Valid()
    ensures var m := Fetcher(limits, journey); m.Valid() && m.limits == limits && m.journey == journey
  {
    var m := Fetcher(limits, journey);
    forall v, o | m.select(v, o).Some? ensures exists i :: i in v.items && i.id == m.select(v, o).value.id {
      assert v.items[0] in v.items;
    }
  }

  // ---- what the report says ----

  /** Neither an ending nor a probe. */
  ghost predicate Quiet(s: State, s': State, move: Move<Command>) {
    !move.Probe? && (if s'.final.Some? then Names(s'.ended, s'.final.value) else s'.ended == s.ended)
  }

  lemma DriveReports(m: Mission, s: State, obs: Obs)
    requires s.Idle() && s.current.Some? && obs.inventory.Some?
    ensures var (s', move) := DriveFetch(m, s, obs);
            s'.ended == s.ended && s'.final == s.final && (move.Some? ==> move.value.Do?)
  {
    hide J.Next, PickInside, Prefilter, ItemsIn;
  }

  lemma StartReports(m: Mission, s: State, obs: Obs)
    requires m.Bounded() && s.Idle() && s.current.None?
    ensures StartFetch(m, s, obs).ended == s.ended && StartFetch(m, s, obs).final == s.final
  {
    hide NextTail, Appraise, RememberedMap;
  }

  lemma {:induction false} HuntReports(m: Mission, s: State, obs: Obs)
    requires m.Bounded() && s.Idle() && obs.inventory.Some? && s.final.None?
    ensures Quiet(s, Hunt(m, s, obs).0, Hunt(m, s, obs).1)
    decreases m.limits.maxCandidates - s.spent, StageRank(s)
  {
    hide DriveFetch, StartFetch;
    var started := if s.current.Some? then s else StartFetch(m, s, obs);
    if s.current.None? { StartReports(m, s, obs); }
    if started.current.Some? {
      DriveReports(m, started, obs);
      var (driven, move) := DriveFetch(m, started, obs);
      if move.None? { HuntReports(m, driven, obs); }
    }
  }

  lemma SeekReports(m: Mission, s: State, obs: Obs, stat: real)
    requires m.Bounded() && s.Idle() && obs.inventory.Some? && s.final.None?
    ensures Quiet(s, Seek(m, s, obs, stat).0, Seek(m, s, obs, stat).1)
  {
    hide Hunt, PickCarried, Prefilter;
    if s.spent < m.limits.maxCandidates {
      if s.stage.CheckStage? {
        HuntReports(m, Withhold(s, obs, obs.inventory.value.items), obs);
      } else {
        HuntReports(m, s, obs);
      }
    }
  }

  lemma ReadReports(s: State, stat: real)
    requires s.Idle()
    ensures Read(s, stat).ended == s.ended && Read(s, stat).final == s.final
  {
  }

  lemma DiscoverReports(s: State, obs: Obs)
    requires s.Valid()
    ensures Discover(s, obs).ended == s.ended && Discover(s, obs).final == s.final
    ensures Discover(s, obs).Valid() && Discover(s, obs).pending == s.pending
  {
    hide SightAll;
  }

  lemma OwedReports(s: State, r: ActionResult<Action>)
    requires s.await.Some?
    ensures NoteConsume(s, r).ended == s.ended && NoteConsume(s, r).final == s.final
  {
  }

  lemma EnsureReports(s: State, r: ActionResult<Action>)
    requires s.ensureItem.Some?
    ensures NoteEnsure(s, r).ended == s.ended && NoteEnsure(s, r).final == s.final
  {
  }

  lemma FetchReports(s: State, r: ActionResult<Action>)
    requires s.current.Some?
    ensures NoteFetch(s, r).ended == s.ended && NoteFetch(s, r).final == s.final
  {
  }

  lemma WalkReports(s: State, r: ActionResult<Action>)
    requires s.journey.Some? && s.journey.value.Valid()
    ensures NoteWalk(s, r).ended == s.ended && NoteWalk(s, r).final == s.final
  {
    hide J.Note;
  }

  lemma NoteReports(s: State, r: ActionResult<Action>)
    requires s.Valid()
    ensures Note(s, r).ended == s.ended && Note(s, r).final == s.final
  {
    hide NoteConsume, NoteEnsure, NoteFetch, NoteWalk;
    var free := s.(pending := None);
    if s.await.Some? { OwedReports(free, r); }
    if s.ensureItem.Some? { EnsureReports(free, r); }
    if s.current.Some? { FetchReports(free, r); }
    if s.journey.Some? && s.journey.value.Valid() { WalkReports(free, r); }
  }

  predicate IsAbandon(e: Event) { e.Abandon? }

  ghost function ReportOf(run: Run, events: seq<Event>): Report<Obs, Command, Action> {
    Report(run.state.ended, run.state.final, run.log, Count(events, IsAbandon) > 0)
  }

  lemma LookReports(m: Mission, s: State, obs: Obs)
    requires m.Bounded() && s.Valid()
    ensures var (s', move) := Decide(m, s, obs);
            if s.final.Some? then s'.final == s.final && s'.ended == s.ended
            else if s'.final.Some? then Names(s'.ended, s'.final.value)
            else s'.ended == if move.Probe? then EndedComplete else s.ended
  {
    hide Seek, Read, Discover, SightAll;
    DiscoverReports(s, obs);
    var here := Discover(s, obs);
    if s.final.None? && s.pending.None? && obs.stat.Some? {
      ReadReports(here, obs.stat.value);
      if obs.inventory.Some? { SeekReports(m, Read(here, obs.stat.value), obs, obs.stat.value); }
    }
  }

  lemma StepReports(m: Mission, run: Run, events: seq<Event>, e: Event)
    requires m.Bounded() && run.state.Valid()
    ensures Follows(ReportOf(run, events), ReportOf(Step(m, run, e), events + [e]))
  {
    CountAppend(events, e, IsAbandon);
    hide Decide, Count, Note;
    match e {
      case Look(obs) => LookReports(m, run.state, obs);
      case Fold(r) =>
        NoteReports(run.state, r);
        if !Accepts(run.state, r) { OtherFolds(run.state, r); }
      case Abandon =>
    }
  }

  /** Over every run, abandonment included, the report says just that. */
  lemma {:induction false} ReportNamesEnding(m: Mission, events: seq<Event>)
    requires m.Bounded()
    ensures Reported(ReportOf(After(m, events), events))
  {
    if events != [] {
      hide Probed, Reported, Follows, ReportOf, Step;
      var before := events[..|events| - 1];
      ReportNamesEnding(m, before);
      assert events == before + [events[|events| - 1]];
      StepReports(m, After(m, before), before, events[|events| - 1]);
      ReportKept(ReportOf(After(m, before), before), ReportOf(After(m, events), events));
    }
  }
}
