/** The queue of bios (`queue_spinlocking.c`): first in, first out, and closed once inactive. */
module Queues {
  import opened Basics

  class Queue<T> {
    var items: seq<T>
    var inQueueCnt: nat
    var activeState: bool

    ghost predicate Valid()
      reads this
    {
      inQueueCnt == |items|
    }

    constructor ()
      ensures Valid() && items == [] && activeState
    {
      items, inQueueCnt, activeState := [], 0, true;
    }

    /** `queue_sl_push_back`. */
    method PushBack(x: T) returns (res: Status)
      requires Valid()
      modifies this
      ensures Valid() && activeState == old(activeState)
      ensures res == if activeState then Success else EAcces
      ensures items == if activeState then old(items) + [x] else old(items)
    {
      if !activeState { return EAcces; }
      items := items + [x];
      inQueueCnt := inQueueCnt + 1;
      res := Success;
    }

    /** `queue_sl_get_first`. */
    method GetFirst() returns (first: Option<T>)
      requires Valid()
      modifies this
      ensures Valid() && activeState == old(activeState)
      ensures if old(items) == [] then first == None && items == []
              else first == Some(old(items)[0]) && items == old(items)[1..]
    {
      if items == [] { return None; }
      first := Some(items[0]);
      items := items[1..];
      inQueueCnt := inQueueCnt - 1;
    }

    /** `queue_sl_active`. */
    method SetActive(state: bool) returns (was: bool)
      requires Valid()
      modifies this
      ensures Valid() && items == old(items) && activeState == state && was == old(activeState)
    {
      was := activeState;
      activeState := state;
    }
  }
}
