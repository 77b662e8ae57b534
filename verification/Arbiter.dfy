/** The needs arbiter: it interrupts the goal channel for one need at a time and
    keeps a ledger of every decision. */
module Arbiter {
  import opened Wrappers
  import opened GoalQueue

  const MAX_LOG: nat := 16

  datatype Danger = NoDanger | Low | Medium | High | Critical
  {
    function Rank(): nat {
      match this
      case NoDanger => 0 case Low => 1 case Medium => 2 case High => 3 case Critical => 4
    }
  }

  /** What the threat assessment makes of the nearby view. */
  datatype Assessment = Assessment(level: Danger, chasing: nat)

  /** `criticalHunger` and `criticalThirst` are the policy's lines at this call. */
  datatype Observation = Observation(
    at: nat, hunger: Option<real>, thirst: Option<real>, bleeding: bool, nearby: Option<Assessment>,
    modDanger: Danger, autonomous: bool, criticalHunger: real, criticalThirst: real)

  datatype Readings = Readings(
    at: nat, hunger: Option<real>, thirst: Option<real>, bleeding: bool, danger: Danger, chasing: bool)

  datatype StandDown = AlreadyServing | ChannelFull | NotSuspended(reason: RefusalReason)

  datatype Outcome = Undecided | StoodDown(why: StandDown) | InjectRefused | Forgotten | Ended(how: GoalState)

  datatype Entry = Entry(trigger: Trigger, suspended: Option<nat>, injected: Option<nat>, at: nat, outcome: Outcome)

  datatype Preemption = Preemption(injected: nat, entryKey: nat)

  /** What the arbiter watches with: the last reading, the preemption in flight, and
      every decision ever taken.  The class keeps only the last sixteen entries, and
      is proved to follow this state all the same. */
  datatype State = State(
    last: Option<Readings>, inFlight: Option<Preemption>, injections: nat, decisions: seq<Entry>)

  // ---- readings and crossings ----

  function Read(o: Observation): Readings {
    match o.nearby
    case None => Readings(o.at, o.hunger, o.thirst, o.bleeding, o.modDanger, false)
    case Some(seen) =>
      Readings(o.at, o.hunger, o.thirst, o.bleeding,
               if seen.level.Rank() < o.modDanger.Rank() then o.modDanger else seen.level, seen.chasing > 0)
  }

  /** A reading that came to a line from below it. */
  predicate Reached(before: Option<real>, now: Option<real>, line: real) {
    before.Some? && now.Some? && before.value < line <= now.value
  }

  /** The first trigger in priority order that crossed between two readings. */
  function Crossed(before: Readings, now: Readings, o: Observation): Option<Trigger> {
    if !before.bleeding && now.bleeding then Some(Bleeding)
    else if before.danger.Rank() < High.Rank() <= now.danger.Rank() && !now.chasing then Some(Threat)
    else if Reached(before.thirst, now.thirst, o.criticalThirst) then Some(Thirst)
    else if Reached(before.hunger, now.hunger, o.criticalHunger) then Some(Hunger)
    else None
  }

  function Answer(t: Trigger): Kind {
    match t
    case Bleeding => TreatWounds
    case Threat => AvoidThreat
    case Thirst => SatisfyThirst
    case Hunger => SatisfyHunger
  }

  // ---- decisions ----

  function Running(q: Queue): (id: Option<nat>)
    requires Valid(q)
    ensures id.None? <==> ActiveIds(q) == {}
    ensures id.Some? ==> ActiveIds(q) == {id.value}
  {
    if ActiveIds(q) == {} then None
    else
      var id :| id in ActiveIds(q);
      Some(id)
  }

  /** How an in-flight goal stands: still open, ended, or no longer remembered. */
  function Settlement(q: Queue, injected: nat): Option<Outcome> {
    if injected !in q.goals then Some(Forgotten)
    else if q.goals[injected].Open() then None
    else Some(Ended(q.goals[injected].state))
  }

  /** Close the in-flight preemption once its goal has ended. */
  function Settle(s: State, q: Queue): State {
    if s.inFlight.None? || Settlement(q, s.inFlight.value.injected).None? then s
    else
      var key := s.inFlight.value.entryKey;
      s.(inFlight := None,
         decisions := if 1 <= key <= |s.decisions|
                      then s.decisions[key - 1 := s.decisions[key - 1].(outcome := Settlement(q, s.inFlight.value.injected).value)]
                      else s.decisions)
  }

  lemma SettleIgnoresLast(s: State, last: Option<Readings>, q: Queue)
    ensures Settle(s.(last := last), q) == Settle(s, q).(last := last)
  {
  }

  function Decline(s: State, t: Trigger, at: nat, why: StandDown): State {
    s.(decisions := s.decisions + [Entry(t, None, None, at, StoodDown(why))])
  }

  function MintedKey(s: State, q: Queue, t: Trigger): Key
    requires Valid(q)
  {
    ArbiterKey(Running(q), t, s.injections + 1)
  }

  /** Inject the answer ahead of the backlog, in flight under the newest entry. */
  function Inject(s: State, q: Queue, r: Request, suspended: Option<nat>, t: Trigger, at: nat): (State, Queue)
    requires Valid(q)
  {
    var (q', admission) := SubmitFront(q, r);
    if admission.Refused? then
      (s.(decisions := s.decisions + [Entry(t, suspended, None, at, InjectRefused)]), q')
    else
      (s.(decisions := s.decisions + [Entry(t, suspended, Some(admission.id), at, Undecided)],
          inFlight := Some(Preemption(admission.id, |s.decisions| + 1))), q')
  }

  /** One attempt: stand down, or suspend what runs and inject the answer. */
  function Preempt(s: State, q: Queue, t: Trigger, at: nat): (State, Queue)
    requires Valid(q)
  {
    var active := Running(q);
    if active.Some? && q.goals[active.value].kind == Answer(t) then (Decline(s, t, at, AlreadyServing), q)
    else if |OpenIds(q)| >= q.maxOpen then (Decline(s, t, at, ChannelFull), q)
    else
      var key := MintedKey(s, q, t);
      var s1 := s.(injections := s.injections + 1);
      if active.None? then Inject(s1, q, Request(Answer(t), "", key), None, t, at)
      else
        SuspendKeeps(q, active.value, key);
        var (parked, refusal) := Suspend(q, active.value, key);
        if refusal.Some? then (Decline(s1, t, at, NotSuspended(refusal.value)), q)
        else Inject(s1, parked, Request(Answer(t), "", key), active, t, at)
  }

  /** The attempt an observation calls for, once the last preemption is settled. */
  function Wanted(s: State, o: Observation, settled: State): Option<Trigger> {
    if s.last.None? || s.last.value.at == o.at || !o.autonomous || settled.inFlight.Some? then None
    else Crossed(s.last.value, Read(o), o)
  }

  function Observe(s: State, o: Observation, channel: Option<Queue>): (State, Option<Queue>)
    requires channel.Some? ==> Valid(channel.value)
  {
    var settled := if channel.Some? then Settle(s, channel.value) else s;
    var read := settled.(last := Some(Read(o)));
    if channel.None? || Wanted(s, o, settled).None? then (read, channel)
    else
      var (s', q') := Preempt(read, channel.value, Wanted(s, o, settled).value, o.at);
      (s', Some(q'))
  }

  // ---- the bounded ledger ----

  /** The ledger after a history of decisions: the last sixteen, numbered from one
      over the whole history. */
  function Ledger(decisions: seq<Entry>): (log: seq<(nat, Entry)>)
    ensures |log| == if |decisions| < MAX_LOG then |decisions| else MAX_LOG
    ensures forall i :: 0 <= i < |log| ==>
      log[i] == (|decisions| - |log| + i + 1, decisions[|decisions| - |log| + i])
  {
    var held := if |decisions| < MAX_LOG then |decisions| else MAX_LOG;
    seq(held, i requires 0 <= i < held => (|decisions| - held + i + 1, decisions[|decisions| - held + i]))
  }

  /** A new decision goes in behind under a key never used before, and only a full
      ledger lets its oldest entry go. */
  lemma LedgerSlides(decisions: seq<Entry>, entry: Entry)
    ensures var (log, key) := (Ledger(decisions), |decisions| + 1);
            && Ledger(decisions + [entry]) == (if |log| < MAX_LOG then log else log[1..]) + [(key, entry)]
            && forall i :: 0 <= i < |log| ==> 1 <= log[i].0 < key && log[i].1 == decisions[log[i].0 - 1]
  {
    var log, next := Ledger(decisions), Ledger(decisions + [entry]);
    var slid := (if |log| < MAX_LOG then log else log[1..]) + [(|decisions| + 1, entry)];
    assert |next| == |slid|;
    forall i | 0 <= i < |next|
      ensures next[i] == slid[i]
    {
      NextHolds(decisions, entry, i);
    }
  }

  lemma NextHolds(decisions: seq<Entry>, entry: Entry, i: nat)
    requires i < |Ledger(decisions + [entry])|
    ensures var (log, next) := (Ledger(decisions), Ledger(decisions + [entry]));
            var from := |log| + 1 - |next|;
            if i == |next| - 1 then next[i] == (|decisions| + 1, entry)
            else from + i < |log| && next[i] == log[from + i]
  {
  }

  lemma LedgerGrows(decisions: seq<Entry>, entry: Entry, log: seq<(nat, Entry)>)
    requires var whole := Ledger(decisions) + [(|decisions| + 1, entry)];
             |log| == (if |whole| < MAX_LOG then |whole| else MAX_LOG) && log == whole[|whole| - |log|..]
    ensures log == Ledger(decisions + [entry])
  {
    hide Ledger;
    LedgerSlides(decisions, entry);
    var whole := Ledger(decisions) + [(|decisions| + 1, entry)];
    if |Ledger(decisions)| < MAX_LOG {
      assert whole[0..] == whole;
    } else {
      assert whole[1..] == Ledger(decisions)[1..] + [(|decisions| + 1, entry)];
    }
  }

  /** Let entries go from the front until the ledger fits its cap. */
  method DropOldest(log: seq<(nat, Entry)>) returns (held: seq<(nat, Entry)>)
    ensures held == if |log| <= MAX_LOG then log else log[|log| - MAX_LOG..]
  {
    held := log;
    while |held| > MAX_LOG
      invariant held == log || (MAX_LOG <= |held| < |log| && held == log[|log| - |held|..])
    {
      held := held[1..];
    }
  }

  class NeedsArbiter {
    var last: Option<Readings>
    var inFlight: Option<Preemption>
    var injections: nat
    var log: seq<(nat, Entry)>
    ghost var decisions: seq<Entry>

    ghost predicate Valid()
      reads this
    {
      && log == Ledger(decisions)
      && (inFlight.Some? ==> 1 <= inFlight.value.entryKey == |decisions|)
    }

    ghost function Snapshot(): State
      reads this
    {
      State(last, inFlight, injections, decisions)
    }

    constructor ()
      ensures Valid() && Snapshot() == State(None, None, 0, [])
    {
      last, inFlight, injections, log, decisions := None, None, 0, [], [];
    }

    /** Append a decision under the next key, and let the oldest entry go. */
    method Record(entry: Entry) returns (key: nat)
      requires log == Ledger(decisions)
      modifies this`log, this`decisions
      ensures log == Ledger(decisions) && decisions == old(decisions) + [entry] && key == |decisions|
    {
      assert |log| > 0 ==> log[|log| - 1].0 == |decisions|;
      key := 1 + (if |log| > 0 then log[|log| - 1].0 else 0);
      var held := DropOldest(log + [(key, entry)]);
      LedgerGrows(decisions, entry, held);
      log, decisions := held, decisions + [entry];
    }

    /** Replace the outcome of the entry held under a key, if it is still held. */
    method Close(key: nat, outcome: Outcome)
      requires log == Ledger(decisions)
      modifies this`log, this`decisions
      ensures log == Ledger(decisions)
      ensures decisions == if 1 <= key <= |old(decisions)| && |old(decisions)| - key < MAX_LOG
                           then old(decisions)[key - 1 := old(decisions)[key - 1].(outcome := outcome)]
                           else old(decisions)
    {
      assert 1 <= key <= |decisions| && |decisions| - key < MAX_LOG ==> log[|log| - 1 - (|decisions| - key)].0 == key;
      var i := 0;
      while i < |log| && log[i].0 != key
        invariant 0 <= i <= |log|
        invariant forall j :: 0 <= j < i ==> log[j].0 != key
      {
        i := i + 1;
      }
      if i < |log| {
        log := log[i := (key, log[i].1.(outcome := outcome))];
        decisions := decisions[key - 1 := decisions[key - 1].(outcome := outcome)];
        assert log == Ledger(decisions);
      }
    }

    method SettleWith(q: Queue)
      requires Valid()
      modifies this`inFlight, this`log, this`decisions
      ensures Valid() && Snapshot() == Settle(old(Snapshot()), q)
    {
      if inFlight.Some? && Settlement(q, inFlight.value.injected).Some? {
        Close(inFlight.value.entryKey, Settlement(q, inFlight.value.injected).value);
        inFlight := None;
      }
    }

    method InjectAnswer(q: Queue, r: Request, suspended: Option<nat>, t: Trigger, at: nat) returns (q': Queue)
      requires Valid() && GoalQueue.Valid(q) && inFlight.None?
      modifies this`inFlight, this`log, this`decisions
      ensures Valid() && (Snapshot(), q') == Inject(old(Snapshot()), q, r, suspended, t, at)
    {
      var (queue, admission) := SubmitFront(q, r);
      q' := queue;
      if admission.Refused? {
        var _ := Record(Entry(t, suspended, None, at, InjectRefused));
        return;
      }
      var key := Record(Entry(t, suspended, Some(admission.id), at, Undecided));
      inFlight := Some(Preemption(admission.id, key));
    }

    method Arbitrate(q: Queue, t: Trigger, at: nat) returns (q': Queue)
      requires Valid() && GoalQueue.Valid(q) && inFlight.None?
      modifies this`inFlight, this`log, this`decisions, this`injections
      ensures Valid() && (Snapshot(), q') == Preempt(old(Snapshot()), q, t, at)
    {
      hide Inject, Ledger, NextFrontRank, ParkedAhead;
      q' := q;
      var active := Running(q);
      if active.Some? && q.goals[active.value].kind == Answer(t) {
        var _ := Record(Entry(t, None, None, at, StoodDown(AlreadyServing)));
        return;
      }
      if |OpenIds(q)| >= q.maxOpen {
        var _ := Record(Entry(t, None, None, at, StoodDown(ChannelFull)));
        return;
      }
      injections := injections + 1;
      var key := ArbiterKey(active, t, injections);
      if active.Some? {
        SuspendKeeps(q, active.value, key);
        var (parked, refusal) := Suspend(q, active.value, key);
        if refusal.Some? {
          var _ := Record(Entry(t, None, None, at, StoodDown(NotSuspended(refusal.value))));
          return;
        }
        q' := parked;
      }
      q' := InjectAnswer(q', Request(Answer(t), "", key), active, t, at);
    }

    /** Fold one observation in; preempt when a crossing and the mode allow. */
    method See(o: Observation, channel: Option<Queue>) returns (channel': Option<Queue>)
      requires Valid() && (channel.Some? ==> GoalQueue.Valid(channel.value))
      modifies this
      ensures Valid() && (Snapshot(), channel') == Observe(old(Snapshot()), o, channel)
    {
      hide Settle, Preempt, Ledger;
      channel' := channel;
      var current, previous := Read(o), last;
      last := Some(current);
      if channel.Some? {
        SettleIgnoresLast(old(Snapshot()), Some(current), channel.value);
        SettleWith(channel.value);
      }
      if previous.None? || previous.value.at == current.at {
        return;
      }
      var trigger := Crossed(previous.value, current, o);
      if trigger.None? || !o.autonomous || channel.None? || inFlight.Some? {
        return;
      }
      var queue := Arbitrate(channel.value, trigger.value, current.at);
      channel' := Some(queue);
    }
  }
}
