/** Per-key single-flight gates, as a system of interleaved steps: any number of
    calls look their gate up, wait, hold, release, are cancelled and clean up, one
    locked section or one reference-count change at a time. */
module SingleFlight {
  import opened Bindings
  import opened Tiers
  import opened Wakers

  type GateId = nat
  type CallId = nat

  datatype Gate = Gate(held: bool, wakers: seq<Waker>)

  const FREE := Gate(false, [])

  /** The gate after `waker`'s task tried to take it. */
  function Tried(gate: Gate, waker: Waker): Gate {
    if gate.held then gate.(wakers := Enrol(gate.wakers, waker)) else gate.(held := true)
  }

  class GateState {
    var held: bool
    var wakers: seq<Waker>

    constructor ()
      ensures Value() == FREE
    {
      held := false;
      wakers := [];
    }

    ghost function Value(): Gate
      reads this
    {
      Gate(held, wakers)
    }

    /** Takes the gate if it is free; otherwise registers `waker` once. */
    method TryAcquire(waker: Waker) returns (taken: bool)
      modifies this
      ensures taken == !old(held)
      ensures Value() == Tried(old(Value()), waker)
    {
      if held {
        wakers := Register(wakers, waker);
        taken := false;
      } else {
        held := true;
        taken := true;
      }
    }

    /** Frees the gate and hands back everyone to notify. */
    method Release() returns (toWake: seq<Waker>)
      modifies this
      ensures Value() == FREE
      ensures toWake == old(wakers)
    {
      held := false;
      toWake := wakers;
      wakers := [];
    }
  }

  /** How far one `acquire` call has come.
      - Looked: it cloned the gate out of the map.
      - Waiting: the inner future exists; `polled` is the waker it last left, and
        `notified` says that waker was woken since.
      - Won: the poll took the gate, the inner future is still alive.
      - Holding: the guard exists.
      - Waking: the guard's drop released the gate and still has wakers to call.
      - Leaving: nothing is left to do but drop the last reference. */
  datatype Stage =
    | Looked
    | Waiting(polled: Option<Waker>, notified: bool)
    | Won
    | Holding
    | Waking(toWake: seq<Waker>)
    | Leaving

  datatype Call = Call(key: Key, gate: GateId, stage: Stage)

  datatype State = State(mapped: map<Key, GateId>, gates: map<GateId, Gate>, calls: map<CallId, Call>)

  /** Whoever owns one counted reference to a gate. */
  datatype Handle = InMap(key: Key) | Own(call: CallId) | InFuture(call: CallId)

  function MapHandles(s: State, g: GateId): set<Handle> {
    set k | k in s.mapped && s.mapped[k] == g :: InMap(k)
  }

  function OwnHandles(s: State, g: GateId): set<Handle> {
    set c | c in s.calls && s.calls[c].gate == g :: Own(c)
  }

  function FutureHandles(s: State, g: GateId): set<Handle> {
    set c | c in s.calls && s.calls[c].gate == g && (s.calls[c].stage.Waiting? || s.calls[c].stage.Won?) :: InFuture(c)
  }

  /** The references `strong_count` counts. */
  function Handles(s: State, g: GateId): set<Handle> {
    MapHandles(s, g) + OwnHandles(s, g) + FutureHandles(s, g)
  }

  function StrongCount(s: State, g: GateId): nat {
    |Handles(s, g)|
  }

  datatype Action =
    | Enter(key: Key, made: GateId)    // look the gate up, making one at `made` if there is none
    | Prepare                          // clone it into the inner future
    | Poll(waker: Waker)               // poll the inner future
    | Claim                            // drop the inner future, return the guard
    | Abandon                          // cancel: drop the inner future
    | Release                          // guard drop: free the gate
    | Wake                             // guard drop: call the next waker
    | Cleanup                          // guard drop: remove the map entry if nobody else is there
    | Leave                            // drop the last reference

  predicate Enabled(s: State, c: CallId, a: Action) {
    match a
    case Enter(key, made) => c !in s.calls && (key in s.mapped || Handles(s, made) == {})
    case Prepare => At(s, c) && s.calls[c].stage.Looked?
    case Poll(_) => At(s, c) && s.calls[c].stage.Waiting?
    case Claim => At(s, c) && s.calls[c].stage.Won?
    case Abandon => At(s, c) && s.calls[c].stage.Waiting?
    case Release => At(s, c) && s.calls[c].stage.Holding?
    case Wake => At(s, c) && s.calls[c].stage.Waking? && s.calls[c].stage.toWake != []
    case Cleanup => At(s, c) && s.calls[c].stage == Waking([])
    case Leave => At(s, c) && s.calls[c].stage.Leaving?
  }

  /** Call `c` is under way, and its reference keeps its gate allocated. */
  predicate At(s: State, c: CallId) {
    c in s.calls && s.calls[c].gate in s.gates
  }

  function Become(s: State, c: CallId, stage: Stage): State
    requires c in s.calls
  {
    s.(calls := s.calls[c := s.calls[c].(stage := stage)])
  }

  function Notify(stage: Stage, waker: Waker): Stage {
    if stage.Waiting? && stage.polled == Some(waker) then stage.(notified := true) else stage
  }

  function NotifyAll(calls: map<CallId, Call>, waker: Waker): map<CallId, Call> {
    map c | c in calls :: calls[c].(stage := Notify(calls[c].stage, waker))
  }

  predicate Removable(s: State, c: CallId)
    requires c in s.calls
  {
    && s.calls[c].key in s.mapped
    && s.mapped[s.calls[c].key] == s.calls[c].gate
    && StrongCount(s, s.calls[c].gate) == 2
  }

  function Do(s: State, c: CallId, a: Action): State
    requires Enabled(s, c, a)
  {
    match a
    case Enter(key, made) =>
      if key in s.mapped then s.(calls := s.calls[c := Call(key, s.mapped[key], Looked)])
      else State(s.mapped[key := made], s.gates[made := FREE], s.calls[c := Call(key, made, Looked)])
    case Prepare => Become(s, c, Waiting(None, false))
    case Poll(waker) =>
      var g := s.calls[c].gate;
      var tried := s.(gates := s.gates[g := Tried(s.gates[g], waker)]);
      Become(tried, c, if s.gates[g].held then Waiting(Some(waker), false) else Won)
    case Claim => Become(s, c, Holding)
    case Abandon => Become(s, c, Leaving)
    case Release =>
      var g := s.calls[c].gate;
      Become(s.(gates := s.gates[g := FREE]), c, Waking(s.gates[g].wakers))
    case Wake =>
      var stage := s.calls[c].stage;
      Become(s, c, Waking(stage.toWake[1..])).(calls := NotifyAll(s.calls[c := s.calls[c].(stage := Waking(stage.toWake[1..]))], stage.toWake[0]))
    case Cleanup =>
      Become(if Removable(s, c) then s.(mapped := s.mapped - {s.calls[c].key}) else s, c, Leaving)
    case Leave => s.(calls := s.calls - {c})
  }

  // ----- the invariant, one clause at a time -----

  predicate Owner(stage: Stage) {
    stage.Won? || stage.Holding?
  }

  ghost predicate Backed(s: State) {
    && (forall k :: k in s.mapped ==> s.mapped[k] in s.gates)
    && (forall c :: c in s.calls ==> s.calls[c].gate in s.gates)
  }

  ghost predicate OneKeyPerGate(s: State) {
    forall j, k :: j in s.mapped && k in s.mapped && s.mapped[j] == s.mapped[k] ==> j == k
  }

  predicate OnMap(s: State, c: CallId)
    requires c in s.calls
  {
    s.calls[c].key in s.mapped && s.mapped[s.calls[c].key] == s.calls[c].gate
  }

  /** Every call that may still use its gate uses the one in the map. */
  ghost predicate Attached(s: State) {
    forall c :: c in s.calls && !s.calls[c].stage.Leaving? ==> OnMap(s, c)
  }

  predicate Owns(s: State, c: CallId, g: GateId) {
    c in s.calls && s.calls[c].gate == g && Owner(s.calls[c].stage)
  }

  ghost predicate Exclusive(s: State) {
    forall c, d, g :: Owns(s, c, g) && Owns(s, d, g) ==> c == d
  }

  ghost predicate HeldIffOwned(s: State) {
    forall g :: g in s.gates ==> (s.gates[g].held <==> exists c :: Owns(s, c, g))
  }

  ghost predicate WakersOnlyWhileHeld(s: State) {
    forall g :: g in s.gates && s.gates[g].wakers != [] ==> s.gates[g].held
  }

  /** Releaser `d` has yet to call `waker` for gate `g`. */
  predicate WillWake(s: State, d: CallId, g: GateId, waker: Waker) {
    d in s.calls && s.calls[d].gate == g && s.calls[d].stage.Waking? && waker in s.calls[d].stage.toWake
  }

  /** A call that last saw `Pending` and was not woken since is registered at its
      gate or on a releaser's list. */
  ghost predicate Remembered(s: State, c: CallId)
    requires At(s, c)
  {
    var stage := s.calls[c].stage;
    stage.Waiting? && stage.polled.Some? && !stage.notified ==>
      || stage.polled.value in s.gates[s.calls[c].gate].wakers
      || exists d :: WillWake(s, d, s.calls[c].gate, stage.polled.value)
  }

  ghost predicate NoneForgotten(s: State) {
    forall c :: At(s, c) ==> Remembered(s, c)
  }

  ghost predicate Inv(s: State) {
    && Backed(s) && OneKeyPerGate(s) && Attached(s) && Exclusive(s)
    && HeldIffOwned(s) && WakersOnlyWhileHeld(s) && NoneForgotten(s)
  }

  // ----- reference counts -----

  lemma {:induction false} PairOnly(handles: set<Handle>, a: Handle, b: Handle)
    requires |handles| == 2 && a in handles && b in handles && a != b
    ensures handles == {a, b}
  {
    var rest := handles - {a, b};
    assert handles == rest + {a, b} && rest !! {a, b};
    assert |{a, b}| == 2;
    assert |handles| == |rest| + 2;
  }

  /** The clean-up removes a map entry exactly when no other call still refers to its gate. */
  lemma {:induction false} CleanupExact(s: State, c: CallId)
    requires Inv(s) && c in s.calls && s.calls[c].stage == Waking([])
    ensures Removable(s, c) <==> forall d :: d in s.calls && d != c ==> s.calls[d].gate != s.calls[c].gate
  {
    var g, k := s.calls[c].gate, s.calls[c].key;
    assert OnMap(s, c);
    assert InMap(k) in Handles(s, g) && Own(c) in Handles(s, g);
    if Removable(s, c) {
      PairOnly(Handles(s, g), InMap(k), Own(c));
      forall d | d in s.calls && d != c
        ensures s.calls[d].gate != g
      {
        assert s.calls[d].gate == g ==> Own(d) in Handles(s, g);
      }
    }
    if forall d :: d in s.calls && d != c ==> s.calls[d].gate != g {
      assert MapHandles(s, g) == {InMap(k)};
      assert OwnHandles(s, g) == {Own(c)};
      assert FutureHandles(s, g) == {};
      assert Handles(s, g) == {InMap(k), Own(c)};
    }
  }

  /** What the clean-up does: the key leaves the map unless another call refers to its
      gate, and no other key does. */
  lemma {:induction false} CleanupRemoves(s: State, c: CallId, key: Key)
    requires Inv(s) && Enabled(s, c, Cleanup)
    ensures var t := Do(s, c, Cleanup);
      var shared := exists d :: d in s.calls && d != c && s.calls[d].gate == s.calls[c].gate;
      key in t.mapped <==> key in s.mapped && (key == s.calls[c].key ==> shared)
    ensures key in Do(s, c, Cleanup).mapped ==> Do(s, c, Cleanup).mapped[key] == s.mapped[key]
  {
    CleanupExact(s, c);
  }

  /** A gate nobody refers to is not in the map and belongs to no call. */
  lemma {:induction false} Unreferenced(s: State, g: GateId)
    requires Handles(s, g) == {}
    ensures forall k :: k in s.mapped ==> s.mapped[k] != g
    ensures forall c :: c in s.calls ==> s.calls[c].gate != g
  {
    forall k | k in s.mapped
      ensures s.mapped[k] != g
    {
      assert s.mapped[k] == g ==> InMap(k) in Handles(s, g);
    }
    forall c | c in s.calls
      ensures s.calls[c].gate != g
    {
      assert s.calls[c].gate == g ==> Own(c) in Handles(s, g);
    }
  }

  // ----- one step keeps the invariant -----

  /** A step that changes only call `c`'s stage keeps what is said of gates and keys. */
  lemma {:induction false} BecomeKeeps(s: State, c: CallId, stage: Stage)
    requires Inv(s) && c in s.calls
    requires Owner(stage) == Owner(s.calls[c].stage)
    requires stage.Waiting? ==> stage.polled.None? || stage == s.calls[c].stage
    requires s.calls[c].stage.Waking? ==> stage.Waking? || s.calls[c].stage.toWake == []
    requires s.calls[c].stage.Waking? && stage.Waking? ==> stage.toWake == s.calls[c].stage.toWake
    requires !stage.Leaving? ==> OnMap(s, c)
    ensures Inv(Become(s, c, stage))
  {
    var t := Become(s, c, stage);
    forall d, g
      ensures Owns(t, d, g) == Owns(s, d, g)
    {
    }
    forall g | g in t.gates
      ensures t.gates[g].held <==> exists d :: Owns(t, d, g)
    {
      if s.gates[g].held {
        var d :| Owns(s, d, g);
        assert Owns(t, d, g);
      }
    }
    forall d | At(t, d)
      ensures Remembered(t, d)
    {
      assert At(s, d) && Remembered(s, d);
      forall e, w | WillWake(s, e, t.calls[d].gate, w)
        ensures WillWake(t, e, t.calls[d].gate, w)
      {
      }
    }
  }

  lemma {:induction false} EnterOwners(s: State, c: CallId, key: Key, made: GateId)
    requires Inv(s) && Enabled(s, c, Enter(key, made))
    ensures Exclusive(Do(s, c, Enter(key, made))) && HeldIffOwned(Do(s, c, Enter(key, made)))
  {
    var t := Do(s, c, Enter(key, made));
    if key !in s.mapped {
      Unreferenced(s, made);
    }
    forall d, g
      ensures Owns(t, d, g) == Owns(s, d, g)
    {
    }
    forall g | g in t.gates
      ensures t.gates[g].held <==> exists d :: Owns(t, d, g)
    {
      if g in s.gates && s.gates[g].held {
        var d :| Owns(s, d, g);
        assert Owns(t, d, g);
      }
    }
  }

  lemma {:induction false} EnterKeeps(s: State, c: CallId, key: Key, made: GateId)
    requires Inv(s) && Enabled(s, c, Enter(key, made))
    ensures Inv(Do(s, c, Enter(key, made)))
  {
    var t := Do(s, c, Enter(key, made));
    EnterOwners(s, c, key, made);
    if key !in s.mapped {
      Unreferenced(s, made);
    }
    forall d | At(t, d)
      ensures Remembered(t, d)
    {
      if d != c {
        assert At(s, d) && Remembered(s, d);
        forall e, w | WillWake(s, e, t.calls[d].gate, w)
          ensures WillWake(t, e, t.calls[d].gate, w)
        {
        }
      }
    }
  }

  lemma {:induction false} PollKeeps(s: State, c: CallId, waker: Waker)
    requires Inv(s) && Enabled(s, c, Poll(waker))
    ensures Inv(Do(s, c, Poll(waker)))
  {
    var t := Do(s, c, Poll(waker));
    var mine := s.calls[c].gate;
    forall d, g
      ensures Owns(t, d, g) <==> Owns(s, d, g) || (d == c && g == mine && !s.gates[mine].held)
    {
    }
    forall g | g in t.gates
      ensures t.gates[g].held <==> exists d :: Owns(t, d, g)
    {
      if s.gates[g].held {
        var d :| Owns(s, d, g);
        assert Owns(t, d, g);
      } else if g == mine {
        assert Owns(t, c, g);
      }
    }
    forall d | At(t, d)
      ensures Remembered(t, d)
    {
      assert At(s, d) && Remembered(s, d);
      forall e, w | WillWake(s, e, t.calls[d].gate, w)
        ensures WillWake(t, e, t.calls[d].gate, w)
      {
      }
    }
  }

  lemma {:induction false} ReleaseKeeps(s: State, c: CallId)
    requires Inv(s) && Enabled(s, c, Release)
    ensures Inv(Do(s, c, Release))
  {
    var t := Do(s, c, Release);
    var mine := s.calls[c].gate;
    assert Owns(s, c, mine);
    forall d, g
      ensures Owns(t, d, g) <==> Owns(s, d, g) && g != mine
    {
    }
    forall g | g in t.gates
      ensures t.gates[g].held <==> exists d :: Owns(t, d, g)
    {
      if g != mine && s.gates[g].held {
        var d :| Owns(s, d, g);
        assert Owns(t, d, g);
      }
    }
    forall d | At(t, d)
      ensures Remembered(t, d)
    {
      assert At(s, d) && Remembered(s, d);
      forall e, w | WillWake(s, e, t.calls[d].gate, w)
        ensures WillWake(t, e, t.calls[d].gate, w)
      {
      }
      var stage := t.calls[d].stage;
      if stage.Waiting? && stage.polled.Some? && t.calls[d].gate == mine && stage.polled.value in s.gates[mine].wakers {
        assert WillWake(t, c, mine, stage.polled.value);
      }
    }
  }

  lemma {:induction false} WakeKeeps(s: State, c: CallId)
    requires Inv(s) && Enabled(s, c, Wake)
    ensures Inv(Do(s, c, Wake))
  {
    var t := Do(s, c, Wake);
    var woken := s.calls[c].stage.toWake[0];
    forall d, g
      ensures Owns(t, d, g) == Owns(s, d, g)
    {
    }
    forall g | g in t.gates
      ensures t.gates[g].held <==> exists d :: Owns(t, d, g)
    {
      if s.gates[g].held {
        var d :| Owns(s, d, g);
        assert Owns(t, d, g);
      }
    }
    forall d | At(t, d)
      ensures Remembered(t, d)
    {
      assert At(s, d) && Remembered(s, d);
      forall e, w | WillWake(s, e, t.calls[d].gate, w) && w != woken
        ensures WillWake(t, e, t.calls[d].gate, w)
      {
      }
    }
  }

  lemma {:induction false} CleanupKeeps(s: State, c: CallId)
    requires Inv(s) && Enabled(s, c, Cleanup)
    ensures Inv(Do(s, c, Cleanup))
  {
    CleanupExact(s, c);
    var left := Become(s, c, Leaving);
    BecomeKeeps(s, c, Leaving);
    if Removable(s, c) {
      var t := Do(s, c, Cleanup);
      assert t == left.(mapped := s.mapped - {s.calls[c].key});
      forall d | d in t.calls && !t.calls[d].stage.Leaving?
        ensures OnMap(t, d)
      {
        assert OnMap(left, d);
      }
      forall d, g
        ensures Owns(t, d, g) == Owns(left, d, g)
      {
      }
      forall g | g in t.gates
        ensures t.gates[g].held <==> exists d :: Owns(t, d, g)
      {
        if left.gates[g].held {
          var d :| Owns(left, d, g);
          assert Owns(t, d, g);
        }
      }
      forall d | At(t, d)
        ensures Remembered(t, d)
      {
        assert At(left, d) && Remembered(left, d);
        forall e, w | WillWake(left, e, t.calls[d].gate, w)
          ensures WillWake(t, e, t.calls[d].gate, w)
        {
        }
      }
    }
  }

  lemma {:induction false} LeaveKeeps(s: State, c: CallId)
    requires Inv(s) && Enabled(s, c, Leave)
    ensures Inv(Do(s, c, Leave))
  {
    var t := Do(s, c, Leave);
    forall d, g
      ensures Owns(t, d, g) == Owns(s, d, g)
    {
    }
    forall g | g in t.gates
      ensures t.gates[g].held <==> exists d :: Owns(t, d, g)
    {
      if s.gates[g].held {
        var d :| Owns(s, d, g);
        assert Owns(t, d, g);
      }
    }
    forall d | At(t, d)
      ensures Remembered(t, d)
    {
      assert At(s, d) && Remembered(s, d);
      forall e, w | WillWake(s, e, t.calls[d].gate, w)
        ensures WillWake(t, e, t.calls[d].gate, w)
      {
      }
    }
  }

  lemma {:induction false} StepKeeps(s: State, c: CallId, a: Action)
    requires Inv(s) && Enabled(s, c, a)
    ensures Inv(Do(s, c, a))
  {
    match a
    case Enter(key, made) => EnterKeeps(s, c, key, made);
    case Prepare => BecomeKeeps(s, c, Waiting(None, false));
    case Poll(waker) => PollKeeps(s, c, waker);
    case Claim => BecomeKeeps(s, c, Holding);
    case Abandon => BecomeKeeps(s, c, Leaving);
    case Release => ReleaseKeeps(s, c);
    case Wake => WakeKeeps(s, c);
    case Cleanup => CleanupKeeps(s, c);
    case Leave => LeaveKeeps(s, c);
  }

  // ----- whole runs -----

  const INITIAL := State(map[], map[], map[])

  /** `s` is reached from no calls at all by the enabled steps of `run`. */
  ghost predicate Reaches(run: seq<(CallId, Action)>, s: State)
    decreases |run|
  {
    if run == [] then s == INITIAL
    else
      var (c, a) := run[|run| - 1];
      exists before :: Reaches(run[..|run| - 1], before) && Enabled(before, c, a) && s == Do(before, c, a)
  }

  lemma {:induction false} ReachableInv(run: seq<(CallId, Action)>, s: State)
    requires Reaches(run, s)
    ensures Inv(s)
    decreases |run|
  {
    if run != [] {
      var (c, a) := run[|run| - 1];
      var before :| Reaches(run[..|run| - 1], before) && Enabled(before, c, a) && s == Do(before, c, a);
      ReachableInv(run[..|run| - 1], before);
      StepKeeps(before, c, a);
    }
  }

  /** At most one live guard per key, in every reachable state. */
  lemma {:induction false} MutualExclusion(run: seq<(CallId, Action)>, s: State, c: CallId, d: CallId)
    requires Reaches(run, s)
    requires c in s.calls && d in s.calls && s.calls[c].key == s.calls[d].key
    requires Owner(s.calls[c].stage) && Owner(s.calls[d].stage)
    ensures c == d
  {
    ReachableInv(run, s);
    assert OnMap(s, c) && OnMap(s, d);
    assert Owns(s, c, s.calls[c].gate) && Owns(s, d, s.calls[c].gate);
  }

  /** No call that waits, holds or releases is ever left on a gate the map has
      forgotten: the clean-up never detaches anybody. */
  lemma {:induction false} NeverDetached(run: seq<(CallId, Action)>, s: State, c: CallId)
    requires Reaches(run, s)
    requires c in s.calls && !s.calls[c].stage.Leaving?
    ensures OnMap(s, c)
  {
    ReachableInv(run, s);
  }

  /** Calls for different keys never share a gate, so they never wait for each other. */
  lemma {:induction false} KeysDoNotContend(run: seq<(CallId, Action)>, s: State, c: CallId, d: CallId)
    requires Reaches(run, s)
    requires c in s.calls && d in s.calls && s.calls[c].key != s.calls[d].key
    requires !s.calls[c].stage.Leaving? && !s.calls[d].stage.Leaving?
    ensures s.calls[c].gate != s.calls[d].gate
  {
    ReachableInv(run, s);
    assert OnMap(s, c) && OnMap(s, d);
  }

  ghost predicate SomeoneWillWake(s: State, key: Key, waker: Waker) {
    exists d :: d in s.calls && s.calls[d].key == key && s.calls[d].stage.Waking? && waker in s.calls[d].stage.toWake
  }

  ghost predicate SomeoneOwns(s: State, key: Key) {
    exists d :: d in s.calls && s.calls[d].key == key && Owner(s.calls[d].stage)
  }

  /** No wakeup is lost: a call that last saw `Pending` and was not woken since
      is registered behind a live owner of its own key, whose release will return
      its waker, or is on the list of a releaser of its key. */
  lemma {:induction false} NoLostWakeup(run: seq<(CallId, Action)>, s: State, c: CallId)
    requires Reaches(run, s)
    requires c in s.calls && s.calls[c].stage.Waiting? && s.calls[c].stage.polled.Some? && !s.calls[c].stage.notified
    ensures
      var waker := s.calls[c].stage.polled.value;
      || SomeoneWillWake(s, s.calls[c].key, waker)
      || (At(s, c) && SomeoneOwns(s, s.calls[c].key) && waker in s.gates[s.calls[c].gate].wakers)
  {
    ReachableInv(run, s);
    var g, waker := s.calls[c].gate, s.calls[c].stage.polled.value;
    assert At(s, c) && Remembered(s, c) && OnMap(s, c);
    if waker in s.gates[g].wakers {
      assert s.gates[g].held;
      var d :| Owns(s, d, g);
      assert OnMap(s, d);
    } else {
      var d :| WillWake(s, d, g, waker);
      assert OnMap(s, d);
    }
  }

  /** No deadlock: when no call for the key owns its gate or is still waking others,
      every call for the key that saw `Pending` has been woken, and finds the gate free. */
  lemma {:induction false} NoDeadlock(run: seq<(CallId, Action)>, s: State, c: CallId)
    requires Reaches(run, s)
    requires c in s.calls && s.calls[c].stage.Waiting? && s.calls[c].stage.polled.Some?
    requires forall d :: d in s.calls && s.calls[d].key == s.calls[c].key ==> !Owner(s.calls[d].stage) && !s.calls[d].stage.Waking?
    ensures s.calls[c].stage.notified && At(s, c) && !s.gates[s.calls[c].gate].held
  {
    ReachableInv(run, s);
    assert OnMap(s, c);
    if !s.calls[c].stage.notified {
      NoLostWakeup(run, s, c);
      assert false;
    }
    forall d
      ensures !Owns(s, d, s.calls[c].gate)
    {
      if d in s.calls && !s.calls[d].stage.Leaving? {
        assert OnMap(s, d);
      }
    }
  }

  /** A map entry that no call refers to any more is a free gate with no wakers, so
      keeping it costs memory and nothing else. */
  lemma {:induction false} LeftoverIsFree(run: seq<(CallId, Action)>, s: State, key: Key)
    requires Reaches(run, s)
    requires key in s.mapped && forall c :: c in s.calls ==> s.calls[c].gate != s.mapped[key]
    ensures s.mapped[key] in s.gates && s.gates[s.mapped[key]] == FREE
  {
    ReachableInv(run, s);
    assert forall c :: !Owns(s, c, s.mapped[key]);
  }

  // ----- where the clean-up misses -----

  lemma {:induction false} Extend(run: seq<(CallId, Action)>, s: State, c: CallId, a: Action, t: State)
    returns (longer: seq<(CallId, Action)>)
    requires Reaches(run, s) && Enabled(s, c, a) && Do(s, c, a) == t
    ensures Reaches(longer, t)
  {
    longer := run + [(c, a)];
    assert longer[..|longer| - 1] == run && longer[|longer| - 1] == (c, a);
    assert Reaches(longer[..|longer| - 1], s) && Enabled(s, c, a) && t == Do(s, c, a);
  }

  function Held(key: Key, gate: Gate, first: Stage): State {
    State(map[key := 0], map[0 := gate], map[0 := Call(key, 0, first)])
  }

  function Pair(key: Key, gate: Gate, first: Stage, second: Stage): State {
    State(map[key := 0], map[0 := gate], map[0 := Call(key, 0, first), 1 := Call(key, 0, second)])
  }

  lemma {:induction false} FirstEnters(key: Key) returns (run: seq<(CallId, Action)>)
    ensures Reaches(run, Held(key, FREE, Waiting(None, false)))
  {
    assert Handles(INITIAL, 0) == {};
    run := Extend([], INITIAL, 0, Enter(key, 0), Held(key, FREE, Looked));
    run := Extend(run, Held(key, FREE, Looked), 0, Prepare, Held(key, FREE, Waiting(None, false)));
  }

  lemma {:induction false} FirstTakes(key: Key)
    ensures
      var s := Held(key, FREE, Waiting(None, false));
      Enabled(s, 0, Poll(0)) && Do(s, 0, Poll(0)) == Held(key, Gate(true, []), Won)
  {
  }

  lemma {:induction false} HolderReached(key: Key) returns (run: seq<(CallId, Action)>)
    ensures Reaches(run, Held(key, Gate(true, []), Holding))
  {
    run := FirstEnters(key);
    FirstTakes(key);
    run := Extend(run, Held(key, FREE, Waiting(None, false)), 0, Poll(0), Held(key, Gate(true, []), Won));
    run := Extend(run, Held(key, Gate(true, []), Won), 0, Claim, Held(key, Gate(true, []), Holding));
  }

  lemma {:induction false} SecondEnters(key: Key)
    ensures
      var s := Held(key, Gate(true, []), Holding);
      Enabled(s, 1, Enter(key, 0)) && Do(s, 1, Enter(key, 0)) == Pair(key, Gate(true, []), Holding, Looked)
  {
  }

  lemma {:induction false} SecondWaits(key: Key)
    ensures
      var s := Pair(key, Gate(true, []), Holding, Looked);
      Enabled(s, 1, Prepare) && Do(s, 1, Prepare) == Pair(key, Gate(true, []), Holding, Waiting(None, false))
  {
  }

  lemma {:induction false} FirstReleases(key: Key)
    ensures
      var s := Pair(key, Gate(true, []), Holding, Waiting(None, false));
      Enabled(s, 0, Release) && Do(s, 0, Release) == Pair(key, FREE, Waking([]), Waiting(None, false))
  {
  }

  lemma {:induction false} ReleaseSeesWaiter(key: Key) returns (run: seq<(CallId, Action)>)
    ensures Reaches(run, Pair(key, FREE, Waking([]), Waiting(None, false)))
  {
    run := HolderReached(key);
    SecondEnters(key);
    run := Extend(run, Held(key, Gate(true, []), Holding), 1, Enter(key, 0), Pair(key, Gate(true, []), Holding, Looked));
    SecondWaits(key);
    run := Extend(run, Pair(key, Gate(true, []), Holding, Looked), 1, Prepare, Pair(key, Gate(true, []), Holding, Waiting(None, false)));
    FirstReleases(key);
    run := Extend(run, Pair(key, Gate(true, []), Holding, Waiting(None, false)), 0, Release, Pair(key, FREE, Waking([]), Waiting(None, false)));
  }

  lemma {:induction false} CountedSoKept(run: seq<(CallId, Action)>, s: State, c: CallId, d: CallId)
    requires Reaches(run, s)
    requires At(s, c) && s.calls[c].stage == Waking([]) && At(s, d) && d != c && s.calls[d].gate == s.calls[c].gate
    ensures Enabled(s, c, Cleanup) && Do(s, c, Cleanup) == Become(s, c, Leaving)
  {
    ReachableInv(run, s);
    CleanupExact(s, c);
  }

  lemma {:induction false} FirstSkipsCleanup(key: Key, run: seq<(CallId, Action)>)
    requires Reaches(run, Pair(key, FREE, Waking([]), Waiting(None, false)))
    ensures
      var s := Pair(key, FREE, Waking([]), Waiting(None, false));
      Enabled(s, 0, Cleanup) && Do(s, 0, Cleanup) == Pair(key, FREE, Leaving, Waiting(None, false))
  {
    CountedSoKept(run, Pair(key, FREE, Waking([]), Waiting(None, false)), 0, 1);
  }

  lemma {:induction false} LastWaiterCancelled(key: Key, run: seq<(CallId, Action)>) returns (longer: seq<(CallId, Action)>)
    requires Reaches(run, Pair(key, FREE, Leaving, Waiting(None, false)))
    ensures Reaches(longer, State(map[key := 0], map[0 := FREE], map[]))
  {
    var alone := State(map[key := 0], map[0 := FREE], map[1 := Call(key, 0, Waiting(None, false))]);
    longer := Extend(run, Pair(key, FREE, Leaving, Waiting(None, false)), 0, Leave, alone);
    longer := Extend(longer, alone, 1, Abandon, Become(alone, 1, Leaving));
    longer := Extend(longer, Become(alone, 1, Leaving), 1, Leave, State(map[key := 0], map[0 := FREE], map[]));
  }

  /** The clean-up is best effort: when a waiter is cancelled after the holder's
      clean-up counted it, the entry outlives every call. */
  lemma {:induction false} EntryCanOutliveCalls(key: Key) returns (run: seq<(CallId, Action)>)
    ensures Reaches(run, State(map[key := 0], map[0 := FREE], map[]))
  {
    run := ReleaseSeesWaiter(key);
    FirstSkipsCleanup(key, run);
    run := Extend(run, Pair(key, FREE, Waking([]), Waiting(None, false)), 0, Cleanup, Pair(key, FREE, Leaving, Waiting(None, false)));
    run := LastWaiterCancelled(key, run);
  }
}
