/** Waker queues, as the gates and the semaphore keep them. */
module Wakers {

  /** The equivalence class of a task's waker under `will_wake`. */
  type Waker = nat

  /** The queue once `waker` is on it, nobody being on it twice on that account. */
  function Enrol(wakers: seq<Waker>, waker: Waker): (r: seq<Waker>)
    ensures waker in r
    ensures forall w :: w in wakers ==> w in r
    ensures forall w :: w in r ==> w in wakers || w == waker
  {
    if waker in wakers then wakers else wakers + [waker]
  }

  /** Registers `waker` unless some queued waker would wake the same task. */
  method Register(wakers: seq<Waker>, waker: Waker) returns (r: seq<Waker>)
    ensures r == Enrol(wakers, waker)
  {
    var known, i := false, 0;
    while i < |wakers| && !known
      invariant i <= |wakers|
      invariant known <==> waker in wakers[..i]
    {
      known := wakers[i] == waker;
      i := i + 1;
    }
    if known {
      r := wakers;
    } else {
      assert wakers[..i] == wakers;
      r := wakers + [waker];
    }
  }
}
