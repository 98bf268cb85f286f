/** The cache's `get_or_load`: probe, take the key's gate, probe again, load, fill,
    release. Any number of callers on any keys interleave at every await, over the
    gates of module SingleFlight, and any of them may be cancelled. The stack below
    keeps what is filled and answers every probe (a router over honest tiers refines
    one flat map, module Runs); nothing is invalidated. */
module Coalescing {
  import opened Bindings
  import opened Tiers
  import Flight = SingleFlight

  type CallId = Flight.CallId

  /** How far one caller has come. `Gated` covers the wait for the gate and the second
      probe, `Closing` the drop of the guard, `Over` the return: an outcome of `None`
      is a loader error or a cancellation. */
  datatype Phase =
    | Probing
    | Gated
    | Loading
    | Loaded(value: Value)
    | Closing(outcome: Option<Value>)
    | Over(outcome: Option<Value>)

  datatype Caller = Caller(key: Key, phase: Phase)

  /** `loads`, `fills` and `wasted` count, per key, the loaders that succeeded, the
      fills, and the successful loads whose caller was cancelled before its fill. */
  datatype State = State(
    flight: Flight.State,
    callers: map<CallId, Caller>,
    store: map<Key, Value>,
    loads: multiset<Key>,
    fills: multiset<Key>,
    wasted: multiset<Key>)

  datatype Action =
    | Begin(key: Key)
    | Probe
    | Gate(step: Flight.Action)
    | Reprobe
    | Load(result: Result<Value>)
    | Fill
    | Cancel

  /** The caller's guard exists. */
  predicate Guarded(s: State, c: CallId) {
    c in s.flight.calls && s.flight.calls[c].stage.Holding?
  }

  predicate GateAllowed(s: State, c: CallId, step: Flight.Action)
    requires c in s.callers
  {
    var phase := s.callers[c].phase;
    match step
    case Enter(key, _) => phase.Gated? && key == s.callers[c].key
    case Prepare => phase.Gated?
    case Poll(_) => phase.Gated?
    case Claim => phase.Gated?
    case Abandon => phase.Gated?
    case Release => phase.Closing?
    case Wake => phase.Closing?
    case Cleanup => phase.Closing?
    case Leave => phase.Closing?
  }

  predicate Enabled(s: State, c: CallId, a: Action) {
    match a
    case Begin(_) => c !in s.callers && c !in s.flight.calls
    case Probe => c in s.callers && s.callers[c].phase.Probing?
    case Gate(step) => c in s.callers && GateAllowed(s, c, step) && Flight.Enabled(s.flight, c, step)
    case Reprobe => c in s.callers && s.callers[c].phase.Gated? && Guarded(s, c)
    case Load(_) => c in s.callers && s.callers[c].phase.Loading?
    case Fill => c in s.callers && s.callers[c].phase.Loaded?
    case Cancel =>
      && c in s.callers
      && (s.callers[c].phase.Probing? || s.callers[c].phase.Loading? || s.callers[c].phase.Loaded?
          || (s.callers[c].phase.Gated? && Guarded(s, c)))
  }

  function Become(s: State, c: CallId, phase: Phase): State
    requires c in s.callers
  {
    s.(callers := s.callers[c := s.callers[c].(phase := phase)])
  }

  /** What a gate step does to its caller. */
  function AfterGate(phase: Phase, step: Flight.Action): Phase {
    if step.Abandon? then Closing(None)
    else if step.Leave? && phase.Closing? then Over(phase.outcome)
    else phase
  }

  function Do(s: State, c: CallId, a: Action): State
    requires Enabled(s, c, a)
  {
    match a
    case Begin(key) => s.(callers := s.callers[c := Caller(key, Probing)])
    case Probe =>
      var hit := Lookup(s.store, s.callers[c].key);
      Become(s, c, if hit.Some? then Over(hit) else Gated)
    case Gate(step) =>
      Become(s.(flight := Flight.Do(s.flight, c, step)), c, AfterGate(s.callers[c].phase, step))
    case Reprobe =>
      var hit := Lookup(s.store, s.callers[c].key);
      Become(s, c, if hit.Some? then Closing(hit) else Loading)
    case Load(result) =>
      if result.Err? then Become(s, c, Closing(None))
      else Become(s.(loads := s.loads + multiset{s.callers[c].key}), c, Loaded(result.value))
    case Fill =>
      var key, value := s.callers[c].key, s.callers[c].phase.value;
      Become(s.(store := s.store[key := value], fills := s.fills + multiset{key}), c, Closing(Some(value)))
    case Cancel =>
      if s.callers[c].phase.Probing? then Become(s, c, Over(None))
      else if s.callers[c].phase.Loaded? then
        Become(s.(wasted := s.wasted + multiset{s.callers[c].key}), c, Closing(None))
      else Become(s, c, Closing(None))
  }

  // ----- the invariant -----

  predicate Busy(phase: Phase) {
    phase.Loading? || phase.Loaded?
  }

  /** A caller and its gate call are in step. */
  predicate InStep(caller: Caller, call: Flight.Call) {
    && caller.key == call.key
    && (call.stage.Looked? || call.stage.Waiting? || call.stage.Won? ==> caller.phase.Gated?)
    && (call.stage.Holding? ==> caller.phase.Gated? || Busy(caller.phase) || caller.phase.Closing?)
    && (call.stage.Waking? || call.stage.Leaving? ==> caller.phase.Closing?)
  }

  ghost predicate AllInStep(s: State) {
    forall c :: c in s.flight.calls ==> c in s.callers && InStep(s.callers[c], s.flight.calls[c])
  }

  /** A caller that loads holds the gate, and found nothing stored. */
  ghost predicate LoadersGuarded(s: State) {
    forall c :: c in s.callers && Busy(s.callers[c].phase) ==> Guarded(s, c) && s.callers[c].key !in s.store
  }

  ghost predicate Truthful(store: map<Key, Value>, caller: Caller) {
    var phase := caller.phase;
    (phase.Closing? || phase.Over?) && phase.outcome.Some? ==> Lookup(store, caller.key) == phase.outcome
  }

  ghost predicate AllTruthful(s: State) {
    forall c :: c in s.callers ==> Truthful(s.store, s.callers[c])
  }

  function LoadedCallers(s: State, key: Key): set<CallId> {
    set c | c in s.callers && s.callers[c].key == key && s.callers[c].phase.Loaded?
  }

  ghost predicate Counted(s: State, key: Key) {
    && s.loads[key] == s.fills[key] + s.wasted[key] + |LoadedCallers(s, key)|
    && s.fills[key] <= 1
    && (s.fills[key] == 1 ==> key in s.store)
  }

  ghost predicate AllCounted(s: State) {
    forall key :: Counted(s, key)
  }

  ghost predicate Inv(s: State) {
    && Flight.Inv(s.flight) && AllInStep(s) && LoadersGuarded(s) && AllTruthful(s)
    && AllCounted(s)
  }

  /** At most one caller per key is past its second probe and not yet done. */
  lemma {:induction false} OneLoader(s: State, c: CallId, d: CallId)
    requires Inv(s)
    requires c in s.callers && d in s.callers && s.callers[c].key == s.callers[d].key
    requires Busy(s.callers[c].phase) && (Busy(s.callers[d].phase) || Guarded(s, d))
    ensures c == d
  {
    assert Guarded(s, c) && Guarded(s, d);
    assert InStep(s.callers[c], s.flight.calls[c]) && InStep(s.callers[d], s.flight.calls[d]);
    assert Flight.OnMap(s.flight, c) && Flight.OnMap(s.flight, d);
    assert Flight.Owns(s.flight, c, s.flight.calls[c].gate) && Flight.Owns(s.flight, d, s.flight.calls[c].gate);
  }

  predicate Alike(before: Flight.Call, after: Flight.Call) {
    before.key == after.key && (before.stage == after.stage || (before.stage.Waiting? && after.stage.Waiting?))
  }

  /** A gate step of one call leaves every other call where it is, but for being notified. */
  lemma {:induction false} OthersKeep(s: Flight.State, c: CallId, step: Flight.Action, d: CallId)
    requires Flight.Enabled(s, c, step) && d != c
    ensures d in Flight.Do(s, c, step).calls <==> d in s.calls
    ensures d in s.calls ==> Alike(s.calls[d], Flight.Do(s, c, step).calls[d])
  {
  }

  /** The call that makes a gate step stays in step with its caller. */
  lemma {:induction false} MoverInStep(s: State, c: CallId, step: Flight.Action)
    requires Enabled(s, c, Gate(step)) && AllInStep(s)
    ensures
      var t := Do(s, c, Gate(step));
      c in t.flight.calls ==> InStep(t.callers[c], t.flight.calls[c])
  {
    if c in s.flight.calls {
      assert InStep(s.callers[c], s.flight.calls[c]);
    }
  }

  lemma {:induction false} GateInStep(s: State, c: CallId, step: Flight.Action)
    requires Inv(s) && Enabled(s, c, Gate(step))
    ensures AllInStep(Do(s, c, Gate(step))) && LoadersGuarded(Do(s, c, Gate(step)))
  {
    var t := Do(s, c, Gate(step));
    forall d | d in t.flight.calls
      ensures d in t.callers && InStep(t.callers[d], t.flight.calls[d])
    {
      if d == c {
        MoverInStep(s, c, step);
      } else {
        OthersKeep(s.flight, c, step, d);
        assert InStep(s.callers[d], s.flight.calls[d]);
      }
    }
    forall d | d in t.callers && Busy(t.callers[d].phase)
      ensures Guarded(t, d) && t.callers[d].key !in t.store
    {
      assert d != c && Guarded(s, d);
      OthersKeep(s.flight, c, step, d);
    }
  }

  /** A step of `c` that keeps the store and the counters, and neither reaches nor
      leaves `Loaded`, keeps the counts and the truth of every outcome. */
  lemma {:induction false} QuietCounts(s: State, t: State, c: CallId)
    requires AllTruthful(s) && AllCounted(s)
    requires t.store == s.store && t.loads == s.loads && t.fills == s.fills && t.wasted == s.wasted
    requires c in t.callers && t.callers == s.callers[c := t.callers[c]]
    requires c in s.callers ==> !s.callers[c].phase.Loaded?
    requires !t.callers[c].phase.Loaded? && Truthful(t.store, t.callers[c])
    ensures AllTruthful(t) && AllCounted(t)
  {
    forall d | d in t.callers
      ensures Truthful(t.store, t.callers[d])
    {
      assert d != c ==> Truthful(s.store, s.callers[d]);
    }
    forall key
      ensures Counted(t, key)
    {
      assert Counted(s, key);
      assert LoadedCallers(t, key) == LoadedCallers(s, key);
    }
  }

  lemma {:induction false} GateKeeps(s: State, c: CallId, step: Flight.Action)
    requires Inv(s) && Enabled(s, c, Gate(step))
    ensures Inv(Do(s, c, Gate(step)))
  {
    Flight.StepKeeps(s.flight, c, step);
    GateInStep(s, c, step);
    assert Truthful(s.store, s.callers[c]);
    QuietCounts(s, Do(s, c, Gate(step)), c);
  }

  /** The steps that touch no counter and not the store. */
  lemma {:induction false} QuietKeeps(s: State, c: CallId, a: Action)
    requires Inv(s) && Enabled(s, c, a)
    requires a.Begin? || a.Probe? || a.Reprobe? || a == Load(Err) || (a.Cancel? && !s.callers[c].phase.Loaded?)
    ensures Inv(Do(s, c, a))
  {
    assert c in s.flight.calls ==> InStep(s.callers[c], s.flight.calls[c]);
    QuietInStep(s, c, a);
    QuietCounts(s, Do(s, c, a), c);
  }

  lemma {:induction false} QuietInStep(s: State, c: CallId, a: Action)
    requires AllInStep(s) && LoadersGuarded(s) && Enabled(s, c, a)
    requires a.Begin? || a.Probe? || a.Reprobe? || a == Load(Err) || a.Cancel?
    ensures AllInStep(Do(s, c, a)) && LoadersGuarded(Do(s, c, a))
  {
    assert c in s.flight.calls ==> InStep(s.callers[c], s.flight.calls[c]);
  }

  /** A step of `c` into `Loaded`, or out of it, moves one between the counts. */
  lemma {:induction false} LoadCounts(s: State, c: CallId, value: Value, key: Key)
    requires Counted(s, key) && Enabled(s, c, Load(Ok(value)))
    ensures Counted(Do(s, c, Load(Ok(value))), key)
  {
    var t := Do(s, c, Load(Ok(value)));
    if key == s.callers[c].key {
      assert LoadedCallers(t, key) == LoadedCallers(s, key) + {c} && c !in LoadedCallers(s, key);
    } else {
      assert LoadedCallers(t, key) == LoadedCallers(s, key);
    }
  }

  lemma {:induction false} LoadKeeps(s: State, c: CallId, value: Value)
    requires Inv(s) && Enabled(s, c, Load(Ok(value)))
    ensures Inv(Do(s, c, Load(Ok(value))))
  {
    var t := Do(s, c, Load(Ok(value)));
    forall d | d in t.callers
      ensures Truthful(t.store, t.callers[d])
    {
      assert Truthful(s.store, s.callers[d]);
    }
    forall key
      ensures Counted(t, key)
    {
      LoadCounts(s, c, value, key);
    }
  }

  lemma {:induction false} WasteCounts(s: State, c: CallId, key: Key)
    requires Counted(s, key) && Enabled(s, c, Cancel) && s.callers[c].phase.Loaded?
    ensures Counted(Do(s, c, Cancel), key)
  {
    var t := Do(s, c, Cancel);
    if key == s.callers[c].key {
      assert LoadedCallers(s, key) == LoadedCallers(t, key) + {c} && c !in LoadedCallers(t, key);
    } else {
      assert LoadedCallers(t, key) == LoadedCallers(s, key);
    }
  }

  lemma {:induction false} WasteKeeps(s: State, c: CallId)
    requires Inv(s) && Enabled(s, c, Cancel) && s.callers[c].phase.Loaded?
    ensures Inv(Do(s, c, Cancel))
  {
    var t := Do(s, c, Cancel);
    QuietInStep(s, c, Cancel);
    forall d | d in t.callers
      ensures Truthful(t.store, t.callers[d])
    {
      assert Truthful(s.store, s.callers[d]);
    }
    forall key
      ensures Counted(t, key)
    {
      WasteCounts(s, c, key);
    }
  }

  lemma {:induction false} FillCounted(s: State, c: CallId, key: Key)
    requires Inv(s) && Enabled(s, c, Fill)
    ensures Counted(Do(s, c, Fill), key)
  {
    var t := Do(s, c, Fill);
    assert Counted(s, key) && Guarded(s, c);
    if key == s.callers[c].key {
      assert LoadedCallers(s, key) == LoadedCallers(t, key) + {c} && c !in LoadedCallers(t, key);
    } else {
      assert LoadedCallers(t, key) == LoadedCallers(s, key);
    }
  }

  lemma {:induction false} FillKeeps(s: State, c: CallId)
    requires Inv(s) && Enabled(s, c, Fill)
    ensures Inv(Do(s, c, Fill))
  {
    var t := Do(s, c, Fill);
    assert Guarded(s, c) && InStep(s.callers[c], s.flight.calls[c]);
    forall d | d in t.callers
      ensures Truthful(t.store, t.callers[d])
      ensures Busy(t.callers[d].phase) ==> Guarded(t, d) && t.callers[d].key !in t.store
    {
      assert Truthful(s.store, s.callers[d]);
      if d != c && Busy(s.callers[d].phase) && s.callers[d].key == s.callers[c].key {
        OneLoader(s, c, d);
      }
    }
    forall key
      ensures Counted(t, key)
    {
      FillCounted(s, c, key);
    }
  }

  lemma {:induction false} StepKeeps(s: State, c: CallId, a: Action)
    requires Inv(s) && Enabled(s, c, a)
    ensures Inv(Do(s, c, a))
  {
    match a
    case Gate(step) => GateKeeps(s, c, step);
    case Fill => FillKeeps(s, c);
    case Load(Ok(value)) => LoadKeeps(s, c, value);
    case Cancel => if s.callers[c].phase.Loaded? { WasteKeeps(s, c); } else { QuietKeeps(s, c, a); }
    case _ => QuietKeeps(s, c, a);
  }

  // ----- whole runs -----

  /** `s` is reached, from a stack that holds `stored` and no calls, by the enabled steps of `run`. */
  ghost predicate Reaches(run: seq<(CallId, Action)>, stored: map<Key, Value>, s: State)
    decreases |run|
  {
    if run == [] then s == State(Flight.INITIAL, map[], stored, multiset{}, multiset{}, multiset{})
    else
      var (c, a) := run[|run| - 1];
      exists before :: Reaches(run[..|run| - 1], stored, before) && Enabled(before, c, a) && s == Do(before, c, a)
  }

  lemma {:induction false} ReachableInv(run: seq<(CallId, Action)>, stored: map<Key, Value>, s: State)
    requires Reaches(run, stored, s)
    ensures Inv(s)
    ensures forall key :: key in stored ==> Lookup(s.store, key) == Lookup(stored, key)
    decreases |run|
  {
    if run == [] {
      forall key
        ensures Counted(s, key)
      {
        assert LoadedCallers(s, key) == {};
      }
    } else {
      var (c, a) := run[|run| - 1];
      var before :| Reaches(run[..|run| - 1], stored, before) && Enabled(before, c, a) && s == Do(before, c, a);
      ReachableInv(run[..|run| - 1], stored, before);
      StepKeeps(before, c, a);
    }
  }

  /** At most one fill per key; no more successful loads than one and the wasted ones;
      and while a value is stored nobody loads, so no loader starts after a fill. */
  lemma {:induction false} LoadsCoalesce(run: seq<(CallId, Action)>, stored: map<Key, Value>, s: State, key: Key)
    requires Reaches(run, stored, s)
    ensures s.fills[key] <= 1 && s.loads[key] <= 1 + s.wasted[key]
    ensures key in s.store ==> forall c :: c in s.callers && s.callers[c].key == key ==> !Busy(s.callers[c].phase)
  {
    ReachableInv(run, stored, s);
    assert Counted(s, key);
    var loaded := LoadedCallers(s, key);
    if c :| c in loaded {
      assert forall d :: d in loaded ==> d == c by {
        forall d | d in loaded ensures d == c { OneLoader(s, c, d); }
      }
      assert loaded == {c};
    } else {
      assert loaded == {};
    }
  }

  /** All callers of a key that came back with a value came back with the same one. */
  lemma {:induction false} OneAnswer(run: seq<(CallId, Action)>, stored: map<Key, Value>, s: State, c: CallId, d: CallId)
    requires Reaches(run, stored, s)
    requires c in s.callers && d in s.callers && s.callers[c].key == s.callers[d].key
    requires s.callers[c].phase.Over? && s.callers[c].phase.outcome.Some?
    requires s.callers[d].phase.Over? && s.callers[d].phase.outcome.Some?
    ensures s.callers[c].phase == s.callers[d].phase
    ensures Lookup(s.store, s.callers[c].key) == s.callers[c].phase.outcome
  {
    ReachableInv(run, stored, s);
    assert Truthful(s.store, s.callers[c]) && Truthful(s.store, s.callers[d]);
  }

  // ----- what each caller comes back with -----

  predicate Ended(phase: Phase) {
    phase.Closing? || phase.Over?
  }

  /** The only steps that cost a caller its value: cancelling it, abandoning its wait
      for the gate, and its loader failing. */
  ghost predicate Spoils(a: Action) {
    a == Cancel || a == Gate(Flight.Abandon) || a == Load(Err)
  }

  ghost predicate Spoiled(run: seq<(CallId, Action)>, c: CallId) {
    exists i :: 0 <= i < |run| && run[i].0 == c && Spoils(run[i].1)
  }

  /** The loader of `c` yielded `value` in this run. */
  ghost predicate Yielded(run: seq<(CallId, Action)>, c: CallId, value: Value) {
    (c, Load(Ok(value))) in run
  }

  lemma {:induction false} LastStep(run: seq<(CallId, Action)>, c: CallId)
    requires run != []
    ensures var before, last := run[..|run| - 1], run[|run| - 1];
      && (Spoiled(run, c) <==> Spoiled(before, c) || (last.0 == c && Spoils(last.1)))
      && (forall a :: (c, a) in run <==> (c, a) in before || last == (c, a))
  {
    var before, last := run[..|run| - 1], run[|run| - 1];
    assert run == before + [last];
    if i :| 0 <= i < |run| && run[i].0 == c && Spoils(run[i].1) {
      assert i < |before| ==> before[i] == run[i];
    }
    if i :| 0 <= i < |before| && before[i].0 == c && Spoils(before[i].1) {
      assert run[i] == before[i];
    }
  }

  /** How a caller stands, given what has happened to it. */
  predicate Stands(phase: Phase, spoiled: bool) {
    if spoiled then Ended(phase) && phase.outcome.None? else Ended(phase) ==> phase.outcome.Some?
  }

  lemma {:induction false} StepStands(s: State, c: CallId, a: Action, d: CallId, spoiled: bool)
    requires Enabled(s, c, a)
    requires if d in s.callers then Stands(s.callers[d].phase, spoiled) else !spoiled
    ensures
      var t, now := Do(s, c, a), spoiled || (d == c && Spoils(a));
      if d in t.callers then Stands(t.callers[d].phase, now) else !now
  {
  }

  /** Every answer accounted for: a caller that has ended has no value exactly when it
      was cancelled, gave up its wait, or its loader failed. */
  lemma {:induction false} AnswersStand(run: seq<(CallId, Action)>, stored: map<Key, Value>, s: State, c: CallId)
    requires Reaches(run, stored, s)
    ensures if c in s.callers then Stands(s.callers[c].phase, Spoiled(run, c)) else !Spoiled(run, c)
    decreases |run|
  {
    if run != [] {
      var (d, a) := run[|run| - 1];
      var before :| Reaches(run[..|run| - 1], stored, before) && Enabled(before, d, a) && s == Do(before, d, a);
      AnswersStand(run[..|run| - 1], stored, before, c);
      StepStands(before, d, a, c, Spoiled(run[..|run| - 1], c));
      LastStep(run, c);
    }
  }

  /** A caller that has ended without being cancelled, giving up or seeing its loader fail
      has the stored value of its key. */
  lemma {:induction false} EveryoneAnswered(run: seq<(CallId, Action)>, stored: map<Key, Value>, s: State, c: CallId)
    requires Reaches(run, stored, s) && c in s.callers && Ended(s.callers[c].phase)
    ensures s.callers[c].phase.outcome.None? <==> Spoiled(run, c)
    ensures !Spoiled(run, c) ==> s.callers[c].key in s.store && s.callers[c].phase.outcome == Some(s.store[s.callers[c].key])
  {
    ReachableInv(run, stored, s);
    AnswersStand(run, stored, s, c);
    assert Truthful(s.store, s.callers[c]);
  }

  /** What the loader of `c` yielded is on its way to being its answer. */
  ghost predicate Carries(phase: Phase, value: Value) {
    phase == Loaded(value) || (Ended(phase) && (phase.outcome.None? || phase.outcome == Some(value)))
  }

  lemma {:induction false} StepCarries(s: State, d: CallId, a: Action, c: CallId, value: Value)
    requires Enabled(s, d, a)
    requires (c in s.callers && Carries(s.callers[c].phase, value)) || (d == c && a == Load(Ok(value)))
    ensures c in Do(s, d, a).callers && Carries(Do(s, d, a).callers[c].phase, value)
  {
  }

  /** A caller whose loader yielded a value comes back with that value, unless cancelled. */
  lemma {:induction false} LoadedIsAnswer(run: seq<(CallId, Action)>, stored: map<Key, Value>, s: State, c: CallId, value: Value)
    requires Reaches(run, stored, s) && Yielded(run, c, value)
    ensures c in s.callers && Carries(s.callers[c].phase, value)
    decreases |run|
  {
    var (d, a) := run[|run| - 1];
    var before :| Reaches(run[..|run| - 1], stored, before) && Enabled(before, d, a) && s == Do(before, d, a);
    LastStep(run, c);
    assert Yielded(run[..|run| - 1], c, value) || run[|run| - 1] == (c, Load(Ok(value)));
    if Yielded(run[..|run| - 1], c, value) {
      LoadedIsAnswer(run[..|run| - 1], stored, before, c, value);
    }
    StepCarries(before, d, a, c, value);
  }

  /** `t` is reached from `s` by the enabled steps of `run`. */
  ghost predicate Leads(s: State, run: seq<(CallId, Action)>, t: State)
    decreases |run|
  {
    if run == [] then t == s
    else
      var (c, a) := run[|run| - 1];
      exists before :: Leads(s, run[..|run| - 1], before) && Enabled(before, c, a) && t == Do(before, c, a)
  }

  /** A caller that has not probed yet, or not again, on a key that is stored. */
  ghost predicate Finds(store: map<Key, Value>, caller: Caller, value: Value, asked: bool) {
    && Lookup(store, caller.key) == Some(value)
    && (if asked then Ended(caller.phase) && caller.phase.outcome == Some(value)
        else caller.phase.Probing? || caller.phase.Gated? || (Ended(caller.phase) && caller.phase.outcome == Some(value)))
  }

  /** The caller probes in this run. */
  ghost predicate Asks(run: seq<(CallId, Action)>, c: CallId) {
    (c, Probe) in run || (c, Reprobe) in run
  }

  /** Once a key is stored, a caller that probes for it, the first or the second time,
      ends with the stored value and never loads. */
  lemma {:induction false} ProbeAnswers(s: State, run: seq<(CallId, Action)>, t: State, c: CallId, value: Value)
    requires Inv(s) && Leads(s, run, t) && c in s.callers && Finds(s.store, s.callers[c], value, false) && !Ended(s.callers[c].phase)
    requires !Spoiled(run, c)
    ensures Inv(t) && c in t.callers && t.callers[c].key == s.callers[c].key
    ensures Finds(t.store, t.callers[c], value, Asks(run, c))
    decreases |run|
  {
    if run != [] {
      var before := run[..|run| - 1];
      var (d, a) := run[|run| - 1];
      var u :| Leads(s, before, u) && Enabled(u, d, a) && t == Do(u, d, a);
      LastStep(run, c);
      assert run == before + [run[|run| - 1]];
      ProbeAnswers(s, before, u, c, value);
      StepKeeps(u, d, a);
      StepFinds(u, d, a, c, value, Asks(before, c));
    }
  }

  lemma {:induction false} StepFinds(s: State, d: CallId, a: Action, c: CallId, value: Value, asked: bool)
    requires Inv(s) && Enabled(s, d, a) && c in s.callers && Finds(s.store, s.callers[c], value, asked)
    requires d == c ==> !Spoils(a)
    ensures
      var t := Do(s, d, a);
      && c in t.callers && t.callers[c].key == s.callers[c].key
      && Finds(t.store, t.callers[c], value, asked || (d == c && (a.Probe? || a.Reprobe?)))
  {
    if a.Fill? {
      assert Busy(s.callers[d].phase) && s.callers[d].key !in s.store;
    }
  }
}
