/** Optional values and outcomes, shared by every component. */
module Wrappers {

  datatype Option<+T> = None | Some(value: T)

  datatype Result<+T, +E> = Ok(value: T) | Err(error: E)

  /** How many entries of a log satisfy a predicate. */
  ghost function Count<E>(log: seq<E>, p: E -> bool): nat {
    if log == [] then 0
    else Count(log[..|log| - 1], p) + (if p(log[|log| - 1]) then 1 else 0)
  }

  lemma CountAppend<E>(log: seq<E>, e: E, p: E -> bool)
    ensures Count(log + [e], p) == Count(log, p) + (if p(e) then 1 else 0)
  {
    assert (log + [e])[..|log|] == log;
  }

  lemma {:induction false} CountPositive<E>(log: seq<E>, i: nat, p: E -> bool)
    requires i < |log| && p(log[i])
    ensures Count(log, p) > 0
  {
    if i < |log| - 1 { CountPositive(log[..|log| - 1], i, p); }
  }
}
