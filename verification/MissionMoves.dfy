/** The vocabulary every goal mission answers with, and the results it folds in. */
module MissionMoves {
  import opened Wrappers

  /** The reason codes the missions themselves read or write. */
  datatype Reason =
    | NoProgress | PreconditionFailed | CapabilityUnavailable | ThreatInterrupted
    | NoSafeFood | NoSafeDrink | InvalidArgument | PolicyDenied
    | DoorLocked | DoorBarricaded | PathNotFound
    | OtherReason(code: string)

  /** The report's ending token. */
  datatype Ending =
    | EndedInProgress | EndedComplete | EndedNoProgress | EndedCancelled
    | EndedRetreated | EndedExhausted | EndedNoTarget | EndedLost
    | EndedThreatened | EndedRefused | EndedUnconfirmed
    | EndedNothingFound | EndedUnreported

  datatype Status = NotTerminal | Succeeded | Failed

  /** One engine result: which action it is for, and how it ended. */
  datatype ActionResult<+A> = ActionResult(action: A, status: Status, reason: Reason)

  /** A mission's answer to one observation.  `key` is the serial number in the
      request's idempotency key: steps and probes are numbered separately. */
  datatype Move<+C> =
    | Wait
    | Do(key: nat, command: C)
    | Probe(key: nat)
    | Complete
    | Refuse(ended: Ending, reason: Reason)
  {
    predicate Ends() { Complete? || Refuse? }
  }

  /** What a mission was told and what it answered, or a result it accepted. */
  datatype Entry<+O, +C, +A> = Told(obs: O, move: Move<C>) | Folded(result: ActionResult<A>)
  {
    predicate Commands() { Told? && move.Do? }

    predicate Ends() { Told? && move.Ends() }

    predicate Succeeds() { Folded? && result.status.Succeeded? }
  }

  /** The ending a log has reached, if any: the first one. */
  ghost function EndingOf<O, C, A>(log: seq<Entry<O, C, A>>): Option<Move<C>> {
    if log == [] then None
    else if EndingOf(log[..|log| - 1]).Some? then EndingOf(log[..|log| - 1])
    else if log[|log| - 1].Ends() then Some(log[|log| - 1].move)
    else None
  }

  /** The command sent and not yet answered, if any. */
  ghost function Outstanding<O, C, A>(log: seq<Entry<O, C, A>>): Option<C> {
    if log == [] then None
    else match log[|log| - 1]
      case Folded(_) => None
      case Told(_, Do(_, c)) => Some(c)
      case Told(_, _) => Outstanding(log[..|log| - 1])
  }

  /** The newest command, if any was ever sent. */
  ghost function LastCommand<O, C, A>(log: seq<Entry<O, C, A>>): Option<C> {
    if log == [] then None
    else if log[|log| - 1].Commands() then Some(log[|log| - 1].move.command)
    else LastCommand(log[..|log| - 1])
  }

  /** Failed results since the last success. */
  ghost function FailureStreak<O, C, A>(log: seq<Entry<O, C, A>>): nat {
    if log == [] then 0
    else match log[|log| - 1]
      case Folded(r) => if r.status.Succeeded? then 0 else 1 + FailureStreak(log[..|log| - 1])
      case Told(_, _) => FailureStreak(log[..|log| - 1])
  }

  lemma LogAppend<O, C, A>(log: seq<Entry<O, C, A>>, e: Entry<O, C, A>)
    ensures EndingOf(log + [e]) == if EndingOf(log).Some? then EndingOf(log)
                                   else if e.Ends() then Some(e.move) else None
    ensures Outstanding(log + [e]) == match e
              case Folded(_) => None
              case Told(_, Do(_, c)) => Some(c)
              case Told(_, _) => Outstanding(log)
    ensures LastCommand(log + [e]) == if e.Commands() then Some(e.move.command) else LastCommand(log)
    ensures FailureStreak(log + [e]) == match e
              case Folded(r) => if r.status.Succeeded? then 0 else 1 + FailureStreak(log)
              case Told(_, _) => FailureStreak(log)
  {
    assert (log + [e])[..|log|] == log;
  }

  /** A probe has gone out. */
  ghost predicate Probed<O, C, A>(log: seq<Entry<O, C, A>>) {
    log != [] && (Probed(log[..|log| - 1]) || (log[|log| - 1].Told? && log[|log| - 1].move.Probe?))
  }

  lemma ProbedAppend<O, C, A>(log: seq<Entry<O, C, A>>, e: Entry<O, C, A>)
    ensures Probed(log + [e]) <==> Probed(log) || (e.Told? && e.move.Probe?)
  {
    assert (log + [e])[..|log|] == log;
  }

  // ---- the report ----

  /** What a report is made from: the ending it would name, the answer that sealed the
      mission if one has, the log, and whether the mission has been abandoned. */
  datatype Report<+O, +C, +A> = Report(ended: Ending, final: Option<Move<C>>, log: seq<Entry<O, C, A>>, abandoned: bool)

  /** The report names the ending that sealed the mission. */
  predicate Names<C>(ended: Ending, final: Move<C>) {
    if final.Complete? then ended.EndedComplete? else final.Refuse? && ended == final.ended
  }

  /** What the report says: a mission still open is complete exactly when a probe has
      gone out, earned or not, and otherwise cancelled exactly when abandoned; one that
      has ended is what the ending named. */
  ghost predicate Reported<O, C, A>(r: Report<O, C, A>) {
    match r.final
    case Some(final) => Names(r.ended, final) || (final.Refuse? && final.ended.EndedInProgress?)
    case None =>
      if Probed(r.log) then r.ended.EndedComplete?
      else if r.abandoned then r.ended.EndedCancelled?
      else r.ended.EndedInProgress?
  }

  /** What one call may do to it: nothing; cancel an ending in progress; fold a result;
      or answer, a probe naming completion, an ending naming itself and anything else
      naming nothing. */
  ghost predicate Follows<O, C, A>(r: Report<O, C, A>, next: Report<O, C, A>) {
    || next == r
    || next == r.(abandoned := true, ended := if r.ended.EndedInProgress? then EndedCancelled else r.ended)
    || (next.log != [] && next == r.(log := r.log + [next.log[|next.log| - 1]], ended := next.ended, final := next.final)
        && Reports(r, next, next.log[|next.log| - 1]))
  }

  ghost predicate Reports<O, C, A>(r: Report<O, C, A>, next: Report<O, C, A>, e: Entry<O, C, A>) {
    if e.Folded? || r.final.Some? then next.final == r.final && next.ended == r.ended
    else if next.final.Some? then Names(next.ended, next.final.value)
    else next.ended == if e.move.Probe? then EndedComplete else r.ended
  }

  /** No such call breaks it. */
  lemma ReportKept<O, C, A>(r: Report<O, C, A>, next: Report<O, C, A>)
    requires Reported(r) && Follows(r, next)
    ensures Reported(next)
  {
    hide Probed;
    if next.log != r.log { ProbedAppend(r.log, next.log[|next.log| - 1]); }
  }

  /** The commands a number of successes pays for, when at most `streak` of them may go
      by between one success and the next. */
  function Allowance(wins: nat, streak: nat): nat { wins * streak }

  lemma AllowanceGrows(wins: nat, streak: nat)
    ensures Allowance(wins + 1, streak) == Allowance(wins, streak) + streak
    ensures Allowance(0, streak) == 0
  {
  }
}
