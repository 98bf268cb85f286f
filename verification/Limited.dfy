/** The limiting middleware's semaphore, as a system of interleaved steps: calls
    arrive, poll for a permit, run their operation, return the permit, wake the
    waiters one by one, and may be cancelled at any await. */
module Limited {
  import opened Bindings
  import opened Wakers

  type CallId = nat

  datatype Semaphore = Semaphore(available: nat, wakers: seq<Waker>)

  function Tried(sem: Semaphore, waker: Waker): Semaphore {
    if sem.available > 0 then sem.(available := sem.available - 1)
    else sem.(wakers := Enrol(sem.wakers, waker))
  }

  class SemState {
    var available: nat
    var wakers: seq<Waker>

    constructor (limit: nat)
      ensures Value() == Semaphore(limit, [])
    {
      available := limit;
      wakers := [];
    }

    ghost function Value(): Semaphore
      reads this
    {
      Semaphore(available, wakers)
    }

    /** Takes a permit if one is left; otherwise registers `waker` once. */
    method TryAcquire(waker: Waker) returns (taken: bool)
      modifies this
      ensures taken <==> old(available) > 0
      ensures Value() == Tried(old(Value()), waker)
    {
      if available > 0 {
        available := available - 1;
        taken := true;
      } else {
        wakers := Register(wakers, waker);
        taken := false;
      }
    }

    /** Returns a permit and hands back everyone to notify. */
    method Release() returns (toWake: seq<Waker>)
      modifies this
      ensures Value() == Semaphore(old(available) + 1, [])
      ensures toWake == old(wakers)
    {
      available := available + 1;
      toWake := wakers;
      wakers := [];
    }
  }

  /** Admitted: the permit is out and the inner operation may be in flight. */
  datatype Stage =
    | Waiting(polled: Option<Waker>, notified: bool)
    | Admitted
    | Waking(toWake: seq<Waker>)

  datatype State = State(sem: Semaphore, calls: map<CallId, Stage>)

  datatype Action =
    | Arrive           // ask for a permit
    | Poll(waker: Waker)
    | Abandon          // cancelled while waiting
    | Release          // operation over or cancelled: return the permit
    | Wake             // call the next waker
    | Leave            // all woken

  predicate Enabled(s: State, c: CallId, a: Action) {
    match a
    case Arrive => c !in s.calls
    case Poll(_) => c in s.calls && s.calls[c].Waiting?
    case Abandon => c in s.calls && s.calls[c].Waiting?
    case Release => c in s.calls && s.calls[c].Admitted?
    case Wake => c in s.calls && s.calls[c].Waking? && s.calls[c].toWake != []
    case Leave => c in s.calls && s.calls[c] == Waking([])
  }

  function Notify(stage: Stage, waker: Waker): Stage {
    if stage.Waiting? && stage.polled == Some(waker) then stage.(notified := true) else stage
  }

  function NotifyAll(calls: map<CallId, Stage>, waker: Waker): map<CallId, Stage> {
    map c | c in calls :: Notify(calls[c], waker)
  }

  function Do(s: State, c: CallId, a: Action): State
    requires Enabled(s, c, a)
  {
    match a
    case Arrive => s.(calls := s.calls[c := Waiting(None, false)])
    case Poll(waker) =>
      State(Tried(s.sem, waker), s.calls[c := if s.sem.available > 0 then Admitted else Waiting(Some(waker), false)])
    case Abandon => s.(calls := s.calls - {c})
    case Release => State(Semaphore(s.sem.available + 1, []), s.calls[c := Waking(s.sem.wakers)])
    case Wake =>
      var toWake := s.calls[c].toWake;
      s.(calls := NotifyAll(s.calls[c := Waking(toWake[1..])], toWake[0]))
    case Leave => s.(calls := s.calls - {c})
  }

  function Out(s: State): set<CallId> {
    set c | c in s.calls && s.calls[c].Admitted?
  }

  predicate WillWake(s: State, d: CallId, waker: Waker) {
    d in s.calls && s.calls[d].Waking? && waker in s.calls[d].toWake
  }

  predicate Forgettable(stage: Stage) {
    stage.Waiting? && stage.polled.Some? && !stage.notified
  }

  ghost predicate Remembered(s: State, c: CallId)
    requires c in s.calls
  {
    Forgettable(s.calls[c]) ==>
      s.calls[c].polled.value in s.sem.wakers || exists d :: WillWake(s, d, s.calls[c].polled.value)
  }

  ghost predicate NoneForgotten(s: State) {
    forall c :: c in s.calls ==> Remembered(s, c)
  }

  ghost predicate Inv(s: State, limit: nat) {
    && |Out(s)| + s.sem.available == limit
    && (s.sem.wakers != [] ==> s.sem.available == 0)
    && NoneForgotten(s)
  }

  /** A step that leaves the semaphore and every waking list alone forgets nobody. */
  lemma {:induction false} NobodyForgotten(s: State, t: State, c: CallId)
    requires NoneForgotten(s)
    requires forall w :: w in s.sem.wakers ==> w in t.sem.wakers
    requires t.calls.Keys - {c} == s.calls.Keys - {c}
    requires forall d :: d in s.calls && d in t.calls && d != c ==> s.calls[d] == t.calls[d]
    requires c in s.calls && s.calls[c].Waking? ==> s.calls[c].toWake == []
    requires c in t.calls ==> Remembered(t, c)
    ensures NoneForgotten(t)
  {
    forall d | d in t.calls
      ensures Remembered(t, d)
    {
      if d != c {
        assert d in t.calls.Keys - {c};
        assert d in s.calls && Remembered(s, d);
        forall e, w | WillWake(s, e, w)
          ensures WillWake(t, e, w)
        {
          assert e in s.calls.Keys - {c};
        }
      }
    }
  }

  lemma {:induction false} WakeKeeps(s: State, c: CallId, limit: nat)
    requires Inv(s, limit) && Enabled(s, c, Wake)
    ensures Inv(Do(s, c, Wake), limit)
  {
    var t := Do(s, c, Wake);
    assert Out(t) == Out(s);
    var woken := s.calls[c].toWake[0];
    forall d | d in t.calls
      ensures Remembered(t, d)
    {
      assert Remembered(s, d);
      forall e, w | WillWake(s, e, w) && w != woken
        ensures WillWake(t, e, w)
      {
      }
    }
  }

  lemma {:induction false} ReleaseKeeps(s: State, c: CallId, limit: nat)
    requires Inv(s, limit) && Enabled(s, c, Release)
    ensures Inv(Do(s, c, Release), limit)
  {
    var t := Do(s, c, Release);
    assert Out(s) == Out(t) + {c} && c !in Out(t);
    forall d | d in t.calls
      ensures Remembered(t, d)
    {
      assert Remembered(s, d);
      forall e, w | WillWake(s, e, w)
        ensures WillWake(t, e, w)
      {
      }
      if Forgettable(t.calls[d]) && t.calls[d].polled.value in s.sem.wakers {
        assert WillWake(t, c, t.calls[d].polled.value);
      }
    }
  }

  lemma {:induction false} PollCounts(s: State, c: CallId, waker: Waker)
    requires Enabled(s, c, Poll(waker))
    ensures |Out(Do(s, c, Poll(waker)))| + Do(s, c, Poll(waker)).sem.available == |Out(s)| + s.sem.available
  {
    var t := Do(s, c, Poll(waker));
    if s.sem.available > 0 {
      assert Out(t) == Out(s) + {c} && c !in Out(s);
    } else {
      assert Out(t) == Out(s);
    }
  }

  lemma {:induction false} PollKeeps(s: State, c: CallId, waker: Waker, limit: nat)
    requires Inv(s, limit) && Enabled(s, c, Poll(waker))
    ensures Inv(Do(s, c, Poll(waker)), limit)
  {
    PollCounts(s, c, waker);
    NobodyForgotten(s, Do(s, c, Poll(waker)), c);
  }

  lemma {:induction false} StepKeeps(s: State, c: CallId, a: Action, limit: nat)
    requires Inv(s, limit) && Enabled(s, c, a)
    ensures Inv(Do(s, c, a), limit)
  {
    match a
    case Poll(waker) => PollKeeps(s, c, waker, limit);
    case Release => ReleaseKeeps(s, c, limit);
    case Wake => WakeKeeps(s, c, limit);
    case _ =>
      assert Out(Do(s, c, a)) == Out(s);
      NobodyForgotten(s, Do(s, c, a), c);
  }

  /** `s` is reached from an idle semaphore of `limit` permits by the enabled steps of `run`. */
  ghost predicate Reaches(run: seq<(CallId, Action)>, limit: nat, s: State)
    decreases |run|
  {
    if run == [] then s == State(Semaphore(limit, []), map[])
    else
      var (c, a) := run[|run| - 1];
      exists before :: Reaches(run[..|run| - 1], limit, before) && Enabled(before, c, a) && s == Do(before, c, a)
  }

  lemma {:induction false} ReachableInv(run: seq<(CallId, Action)>, limit: nat, s: State)
    requires Reaches(run, limit, s)
    ensures Inv(s, limit)
    decreases |run|
  {
    if run == [] {
      assert Out(s) == {};
    } else {
      var (c, a) := run[|run| - 1];
      var before :| Reaches(run[..|run| - 1], limit, before) && Enabled(before, c, a) && s == Do(before, c, a);
      ReachableInv(run[..|run| - 1], limit, before);
      StepKeeps(before, c, a, limit);
    }
  }

  /** Never more than `limit` operations run at once, and no permit leaks or is
      minted, whatever is cancelled. */
  lemma {:induction false} BoundedAdmission(run: seq<(CallId, Action)>, limit: nat, s: State)
    requires Reaches(run, limit, s)
    ensures |Out(s)| + s.sem.available == limit
    ensures (forall c :: c in s.calls ==> !s.calls[c].Admitted?) ==> s.sem.available == limit
  {
    ReachableInv(run, limit, s);
    if forall c :: c in s.calls ==> !s.calls[c].Admitted? {
      assert Out(s) == {};
    }
  }

  /** No wakeup is lost: a call that last saw `Pending` and was not woken since is
      registered while all permits are out, so a release is still to come and will
      return its waker, or it is on the list of a call that is waking others. */
  lemma {:induction false} NoLostWakeup(run: seq<(CallId, Action)>, limit: nat, s: State, c: CallId)
    requires Reaches(run, limit, s)
    requires c in s.calls && Forgettable(s.calls[c])
    ensures
      || (exists d :: WillWake(s, d, s.calls[c].polled.value))
      || (s.calls[c].polled.value in s.sem.wakers && |Out(s)| == limit)
  {
    ReachableInv(run, limit, s);
    assert Remembered(s, c);
  }

  /** No deadlock: when nobody holds a permit and nobody is still waking others, every
      call that saw `Pending` has been woken, so its task will poll again. */
  lemma {:induction false} NoDeadlock(run: seq<(CallId, Action)>, limit: nat, s: State, c: CallId)
    requires Reaches(run, limit, s) && limit > 0
    requires forall d :: d in s.calls ==> s.calls[d].Waiting?
    requires c in s.calls && s.calls[c].polled.Some?
    ensures s.calls[c].notified && s.sem.available == limit
  {
    BoundedAdmission(run, limit, s);
    assert Out(s) == {};
    if !s.calls[c].notified {
      NoLostWakeup(run, limit, s, c);
      assert false;
    }
  }
}
