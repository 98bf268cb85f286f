/** The router: the loops that drive the tiers, each proved to leave exactly the
    stack, and answer exactly, what the functions of `Stack` say. */
module Router {
  import opened Bindings
  import opened Tiers
  import opened Stack
  import ReadFlow

  // Moving one element from the part of a stack still to do to the part done.

  lemma {:induction false} Cut<T>(a: seq<T>, b: seq<T>)
    ensures (a + b)[..|a|] == a && (a + b)[|a|..] == b
  {
  }

  lemma {:induction false} Glue<T>(a: seq<T>, x: T, b: seq<T>)
    ensures (a + [x]) + b == a + ([x] + b)
  {
  }

  lemma {:induction false} Advance<T>(done: seq<T>, rest: seq<T>, x: T, tail: seq<T>)
    requires rest != []
    ensures (done + rest)[|done|] == rest[0]
    ensures (done + rest)[|done| := x] == (done + [x]) + rest[1..]
    ensures done + rest == (done + [rest[0]]) + rest[1..]
    ensures done + ([x] + tail) == (done + [x]) + tail
  {
  }

  /** One slot further into the tiers above a fixed bottom. */
  lemma {:induction false} AdvanceOver<T>(done: seq<T>, rest: seq<T>, below: seq<T>, x: T)
    requires rest != []
    ensures var all := done + (rest + below);
      && all[|done|] == rest[0]
      && all[|done| := x] == (done + [x]) + (rest[1..] + below)
      && all == (done + [rest[0]]) + (rest[1..] + below)
  {
    assert (rest + below)[1..] == rest[1..] + below;
    Advance(done, rest + below, x, []);
  }

  /** Above an abort nothing was written, so the abort is the whole write's. */
  lemma {:induction false} AbortLifts<S(!new)>(above: seq<Slot<S>>, below: seq<Slot<S>>, w: Tiers.Write, p: Policy)
    requires WriteThrough(below, w, p).aborted.Some?
    ensures var b, r := WriteThrough(below, w, p), WriteThrough(above + below, w, p);
      r.slots == above + b.slots && r.aborted == Some(|above| + b.aborted.value)
  {
    var b := WriteThrough(below, w, p);
    if above == [] {
      assert above + below == below && above + b.slots == b.slots;
    } else {
      var x, rest := above[0], above[1..];
      assert above == [x] + rest;
      ConsConcat(x, rest, below);
      ConsConcat(x, rest, b.slots);
      AbortLifts(rest, below, w, p);
      assert ([x] + (rest + below))[1..] == rest + below;
    }
  }

  lemma {:induction false} WriteThroughCons<S(!new)>(x: Slot<S>, below: seq<Slot<S>>, w: Tiers.Write, p: Policy)
    requires WriteThrough(below, w, p).aborted.None?
    ensures var b, r := WriteThrough(below, w, p), WriteThrough([x] + below, w, p);
      r == if !x.writable then Written([x] + b.slots, b.evicted, b.dropped, b.rejected, None) else WriteTop(x, b, w, p)
  {
    assert ([x] + below)[0] == x && ([x] + below)[1..] == below;
  }

  /** What an invalidation does to one tier; read-only tiers are skipped. */
  function InvalidateOne<S(!new)>(slot: Slot<S>, w: Tiers.Write): (Slot<S>, bool) {
    if slot.writable then slot.Invalidate(w) else (slot, true)
  }

  /** Invalidation part-way: `done` handled, `rest` to go from tier `tier`. */
  ghost predicate Clearing<S(!new)>(above: seq<Slot<S>>, w: Tiers.Write, done: seq<Slot<S>>, rest: seq<Slot<S>>,
                                    tier: nat, failures: seq<nat>)
  {
    var all, left := Invalidate(above, 0, w), Invalidate(rest, tier, w);
    all.slots == done + left.slots && all.failures == failures + left.failures
  }

  lemma {:induction false} ClearingStep<S(!new)>(above: seq<Slot<S>>, w: Tiers.Write, done: seq<Slot<S>>, rest: seq<Slot<S>>,
                              tier: nat, failures: seq<nat>)
    requires Clearing(above, w, done, rest, tier, failures) && rest != []
    ensures var (x, ok) := InvalidateOne(rest[0], w);
      Clearing(above, w, done + [x], rest[1..], tier + 1, if ok then failures else failures + [tier])
  {
    var (x, ok) := InvalidateOne(rest[0], w);
    var left := Invalidate(rest[1..], tier + 1, w);
    Glue(done, x, left.slots);
    Glue(failures, tier, left.failures);
    assert [] + left.failures == left.failures;
  }

  /** One tier further up: `b` is the write of the tiers `below`. */
  ghost predicate Climbing<S(!new)>(slots: seq<Slot<S>>, w: Tiers.Write, p: Policy, above: seq<Slot<S>>,
                                    below: seq<Slot<S>>, b: Written<S>)
  {
    above + below == slots && b == WriteThrough(below, w, p) && b.aborted.None?
  }

  /** The write of one more tier; it completes the climb or aborts the whole write. */
  lemma {:induction false} ClimbingStep<S(!new)>(slots: seq<Slot<S>>, w: Tiers.Write, p: Policy, above: seq<Slot<S>>, x: Slot<S>,
                              below: seq<Slot<S>>, b: Written<S>)
    requires Climbing(slots, w, p, above + [x], below, b)
    ensures var r := WriteThrough([x] + below, w, p);
      && r == (if !x.writable then Written([x] + b.slots, b.evicted, b.dropped, b.rejected, None) else WriteTop(x, b, w, p))
      && (r.aborted.None? ==> Climbing(slots, w, p, above, [x] + below, r))
      && (r.aborted.Some? ==>
           var all := WriteThrough(slots, w, p); all.slots == above + r.slots && all.aborted == Some(|above|))
  {
    Glue(above, x, below);
    WriteThroughCons(x, below, w, p);
    if WriteThrough([x] + below, w, p).aborted.Some? {
      AbortLifts(above, [x] + below, w, p);
    }
  }

  // ------------------------------------------------------ a single read, part-way

  /** How the end of a flow, with what its driver remembers, becomes an answer. */
  function Conclusion(end: ReadFlow.End, hit: Option<Value>, failures: seq<nat>): Outcome<Option<Value>> {
    match end
    case Found(_) => Done(hit)
    case Absent => Done(None)
    case Inconclusive => Fail(RouterError.Inconclusive(failures))
    case Failed(_) => Fail(if failures == [] then RouterError.Inconclusive([]) else Tier(failures[|failures| - 1]))
  }

  /** The driver's state matches a run of `Get` that is as far as the flow says. */
  ghost predicate Reading<S(!new)>(before: seq<Slot<S>>, k: Key, p: Policy, state: ReadFlow.State, errors: nat,
                                   slots: seq<Slot<S>>, hit: Option<Value>, failures: seq<nat>)
  {
    |slots| == |before| &&
    match state
    case Probing(t) => t < |slots| && hit == None && errors == |failures| && AtProbe(before, k, p, t, slots, failures)
    case Promoting(h, next) => hit.Some? && AtPromotion(before, k, p, h, next, slots, hit.value, failures)
    case Over(end) => AtEnd(before, k, p, end, slots, hit, failures)
  }

  ghost predicate AtProbe<S(!new)>(before: seq<Slot<S>>, k: Key, p: Policy, t: nat, slots: seq<Slot<S>>, failures: seq<nat>)
    requires t <= |slots|
  {
    Asked(ProbeOne(before, 0, k, p.onReadError), slots[..t], ProbeOne(slots[t..], t, k, p.onReadError), failures)
  }

  ghost predicate AtPromotion<S(!new)>(before: seq<Slot<S>>, k: Key, p: Policy, h: nat, next: nat, slots: seq<Slot<S>>,
                                       value: Value, failures: seq<nat>)
    requires |slots| == |before|
  {
    var q, to, w := ProbeOne(before, 0, k, p.onReadError), Reach(p.promote, h), Single((k, value));
    && h < |slots| && next < to && q.hit == Some((h, value)) && q.failures == failures
    && FillRange(slots, next, to, w, p.demote).slots == FillRange(q.slots, 0, to, w, p.demote).slots
  }

  ghost predicate AtEnd<S(!new)>(before: seq<Slot<S>>, k: Key, p: Policy, end: ReadFlow.End, slots: seq<Slot<S>>,
                                 hit: Option<Value>, failures: seq<nat>)
  {
    slots == Get(before, k, p).slots && Conclusion(end, hit, failures) == Get(before, k, p).outcome
  }

  /** A probe run split into the tiers asked so far and the probes still to come. */
  ghost predicate Asked<S(!new), T>(all: Probed<S, T>, done: seq<Slot<S>>, left: Probed<S, T>, failures: seq<nat>) {
    && all.slots == done + left.slots && all.failures == failures + left.failures
    && all.hit == left.hit && all.aborted == left.aborted
  }

  lemma {:induction false} ReadingStarts<S(!new)>(before: seq<Slot<S>>, k: Key, p: Policy)
    ensures Reading(before, k, p, ReadFlow.Start(|before|), 0, before, None, [])
  {
    var q := ProbeOne(before, 0, k, p.onReadError);
    assert before[..0] == [] && before[0..] == before;
    assert [] + q.slots == q.slots && [] + q.failures == q.failures;
  }

  /** What a tier's answer means to the flow. */
  function Seen<T>(r: Result<Option<T>>): ReadFlow.Probe {
    if r.Err? then ReadFlow.Error else if r.value.Some? then ReadFlow.Hit else ReadFlow.Miss
  }

  /** The probe of tier `t`, spelled out: what is left after it. */
  lemma {:induction false} AskedNext<S(!new)>(all: Probed<S, Value>, done: seq<Slot<S>>, rest: seq<Slot<S>>, t: nat, k: Key, e: OnReadError, failures: seq<nat>)
    requires rest != [] && Asked(all, done, ProbeOne(rest, t, k, e), failures)
    ensures var (s, r) := rest[0].Get(k);
      if Seen(r).Hit? then
        all == Probed((done + [s]) + rest[1..], Some((t, r.value.value)), failures, false)
      else if Seen(r).Error? && e.FailFast? then
        all == Probed((done + [s]) + rest[1..], None, failures + [t], true)
      else
        Asked(all, done + [s], ProbeOne(rest[1..], t + 1, k, e), if Seen(r).Error? then failures + [t] else failures)
  {
    var (s, r) := rest[0].Get(k);
    Glue(done, s, rest[1..]);
    assert failures + [] == failures;
    if !(Seen(r).Hit? || (Seen(r).Error? && e.FailFast?)) {
      var left := ProbeOne(rest[1..], t + 1, k, e);
      Glue(done, s, left.slots);
      Glue(failures, t, left.failures);
      assert [] + left.failures == left.failures;
    }
  }

  lemma {:induction false} Parts<T>(items: seq<T>, t: nat, x: T)
    requires t < |items|
    ensures items[t..][0] == items[t]
    ensures items[t := x][..t + 1] == items[..t] + [x] && items[t := x][t + 1..] == items[t..][1..]
    ensures items[t := x] == (items[..t] + [x]) + items[t..][1..]
  {
  }

  lemma {:induction false} ReadingProbesHit<S(!new)>(before: seq<Slot<S>>, k: Key, p: Policy, t: nat, errors: nat, slots: seq<Slot<S>>, failures: seq<nat>)
    requires Reading(before, k, p, ReadFlow.Probing(t), errors, slots, None, failures) && Seen(slots[t].Get(k).1).Hit?
    ensures var (s, r) := slots[t].Get(k);
      var (state, errors') := ReadFlow.AfterProbe(|before|, p.promote, p.onReadError, errors, t, Seen(r));
      Reading(before, k, p, state, errors', slots[t := s],
              r.value, failures)
  {
    var q := ProbeOne(before, 0, k, p.onReadError);
    var (s, r) := slots[t].Get(k);
    Parts(slots, t, s);
    AskedNext(q, slots[..t], slots[t..], t, k, p.onReadError, failures);
    ReadingHits(before, k, p, t, slots[t := s], r.value.value, failures);
  }

  lemma {:induction false} ReadingProbesOn<S(!new)>(before: seq<Slot<S>>, k: Key, p: Policy, t: nat, errors: nat, slots: seq<Slot<S>>, failures: seq<nat>)
    requires Reading(before, k, p, ReadFlow.Probing(t), errors, slots, None, failures) && !Seen(slots[t].Get(k).1).Hit?
    ensures var (s, r) := slots[t].Get(k);
      var (state, errors') := ReadFlow.AfterProbe(|before|, p.promote, p.onReadError, errors, t, Seen(r));
      Reading(before, k, p, state, errors', slots[t := s],
              None, if Seen(r).Error? then failures + [t] else failures)
  {
    var q := ProbeOne(before, 0, k, p.onReadError);
    var (s, r) := slots[t].Get(k);
    Parts(slots, t, s);
    AskedNext(q, slots[..t], slots[t..], t, k, p.onReadError, failures);
    if Seen(r).Error? && p.onReadError.FailFast? {
      ReadingFails(before, k, p, t, slots[t := s], failures);
    } else {
      var failures' := if Seen(r).Error? then failures + [t] else failures;
      ReadingGoesOn(before, k, p, t + 1, |failures'|, slots[t := s], failures');
    }
  }

  lemma {:induction false} ReadingProbes<S(!new)>(before: seq<Slot<S>>, k: Key, p: Policy, t: nat, errors: nat, slots: seq<Slot<S>>, failures: seq<nat>)
    requires Reading(before, k, p, ReadFlow.Probing(t), errors, slots, None, failures)
    ensures var (s, r) := slots[t].Get(k);
      var (state, errors') := ReadFlow.AfterProbe(|before|, p.promote, p.onReadError, errors, t, Seen(r));
      Reading(before, k, p, state, errors', slots[t := s],
              if Seen(r).Hit? then r.value else None, if Seen(r).Error? then failures + [t] else failures)
  {
    if Seen(slots[t].Get(k).1).Hit? {
      ReadingProbesHit(before, k, p, t, errors, slots, failures);
    } else {
      ReadingProbesOn(before, k, p, t, errors, slots, failures);
    }
  }

  lemma {:induction false} ReadingHits<S(!new)>(before: seq<Slot<S>>, k: Key, p: Policy, t: nat, slots: seq<Slot<S>>,
                             value: Value, failures: seq<nat>)
    requires t < |slots| == |before|
    requires ProbeOne(before, 0, k, p.onReadError) == Probed(slots, Some((t, value)), failures, false)
    ensures if t == 0 || p.promote.Never? then AtEnd(before, k, p, ReadFlow.Found(t), slots, Some(value), failures)
            else AtPromotion(before, k, p, t, 0, slots, value, failures)
  {
  }

  lemma {:induction false} ReadingFails<S(!new)>(before: seq<Slot<S>>, k: Key, p: Policy, t: nat, slots: seq<Slot<S>>, failures: seq<nat>)
    requires |slots| == |before|
    requires ProbeOne(before, 0, k, p.onReadError) == Probed(slots, None, failures + [t], true)
    ensures AtEnd(before, k, p, ReadFlow.Failed(t), slots, None, failures + [t])
  {
  }

  lemma {:induction false} ReadingGoesOn<S(!new)>(before: seq<Slot<S>>, k: Key, p: Policy, t: nat, errors: nat, slots: seq<Slot<S>>, failures: seq<nat>)
    requires 0 < t <= |slots| == |before| && errors == |failures|
    requires AtProbe(before, k, p, t, slots, failures)
    ensures Reading(before, k, p, ReadFlow.Advance(|before|, errors, t - 1), errors, slots, None, failures)
  {
    if t == |slots| {
      assert slots[..t] + [] == slots && failures + [] == failures && slots[t..] == [];
    }
  }

  lemma {:induction false} ReadingPromotes<S(!new)>(before: seq<Slot<S>>, k: Key, p: Policy, h: nat, next: nat, errors: nat,
                                 slots: seq<Slot<S>>, value: Value, failures: seq<nat>)
    requires Reading(before, k, p, ReadFlow.Promoting(h, next), errors, slots, Some(value), failures)
    ensures Reading(before, k, p, ReadFlow.AfterPromotion(p.promote, h, next), errors,
                    Fill(slots, next, Single((k, value)), p.demote).slots, Some(value), failures)
  {
    var f := Fill(slots, next, Single((k, value)), p.demote);
    if next + 1 == Reach(p.promote, h) {
      assert FillRange(f.slots, next + 1, next + 1, Single((k, value)), p.demote).slots == f.slots;
    }
  }

  // -------------------------------------------------- an existence check, part-way

  function Checked(end: ReadFlow.End, failures: seq<nat>): Outcome<bool> {
    match end
    case Found(_) => Done(true)
    case Absent => Done(false)
    case Inconclusive => Fail(RouterError.Inconclusive(failures))
    case Failed(_) => Fail(if failures == [] then RouterError.Inconclusive([]) else Tier(failures[|failures| - 1]))
  }

  /** The driver's state matches a run of `Exists` that is as far as the flow says;
      the flow of an existence check never promotes. */
  ghost predicate Checking<S(!new)>(before: seq<Slot<S>>, k: Key, p: Policy, state: ReadFlow.State, errors: nat,
                                    slots: seq<Slot<S>>, failures: seq<nat>)
  {
    |slots| == |before| &&
    match state
    case Probing(t) => t < |slots| && errors == |failures| && AtCheck(before, k, p, t, slots, failures)
    case Promoting(_, _) => false
    case Over(end) => slots == Exists(before, k, p).slots && Checked(end, failures) == Exists(before, k, p).outcome
  }

  ghost predicate AtCheck<S(!new)>(before: seq<Slot<S>>, k: Key, p: Policy, t: nat, slots: seq<Slot<S>>, failures: seq<nat>)
    requires t <= |slots|
  {
    Asked(ProbeHas(before, 0, k, p.onReadError), slots[..t], ProbeHas(slots[t..], t, k, p.onReadError), failures)
  }

  lemma {:induction false} CheckingStarts<S(!new)>(before: seq<Slot<S>>, k: Key, p: Policy)
    ensures Checking(before, k, p, ReadFlow.Start(|before|), 0, before, [])
  {
    var q := ProbeHas(before, 0, k, p.onReadError);
    assert before[..0] == [] && before[0..] == before;
    assert [] + q.slots == q.slots && [] + q.failures == q.failures;
  }

  function SeenHas(r: Result<bool>): ReadFlow.Probe {
    if r.Err? then ReadFlow.Error else if r.value then ReadFlow.Hit else ReadFlow.Miss
  }

  lemma {:induction false} HasNext<S(!new)>(all: Probed<S, ()>, done: seq<Slot<S>>, rest: seq<Slot<S>>, t: nat, k: Key,
                                            e: OnReadError, failures: seq<nat>)
    requires rest != [] && Asked(all, done, ProbeHas(rest, t, k, e), failures)
    ensures var (s, r) := rest[0].Exists(k);
      if SeenHas(r).Hit? then
        all == Probed((done + [s]) + rest[1..], Some((t, ())), failures, false)
      else if SeenHas(r).Error? && e.FailFast? then
        all == Probed((done + [s]) + rest[1..], None, failures + [t], true)
      else
        Asked(all, done + [s], ProbeHas(rest[1..], t + 1, k, e), if SeenHas(r).Error? then failures + [t] else failures)
  {
    var (s, r) := rest[0].Exists(k);
    Glue(done, s, rest[1..]);
    assert failures + [] == failures;
    if !(SeenHas(r).Hit? || (SeenHas(r).Error? && e.FailFast?)) {
      var left := ProbeHas(rest[1..], t + 1, k, e);
      Glue(done, s, left.slots);
      Glue(failures, t, left.failures);
      assert [] + left.failures == left.failures;
    }
  }

  lemma {:induction false} CheckingProbes<S(!new)>(before: seq<Slot<S>>, k: Key, p: Policy, t: nat, errors: nat,
                                                   slots: seq<Slot<S>>, failures: seq<nat>)
    requires Checking(before, k, p, ReadFlow.Probing(t), errors, slots, failures)
    ensures var (s, r) := slots[t].Exists(k);
      var (state, errors') := ReadFlow.AfterProbe(|before|, Never, p.onReadError, errors, t, SeenHas(r));
      Checking(before, k, p, state, errors', slots[t := s], if SeenHas(r).Error? then failures + [t] else failures)
  {
    var q := ProbeHas(before, 0, k, p.onReadError);
    var (s, r) := slots[t].Exists(k);
    Parts(slots, t, s);
    HasNext(q, slots[..t], slots[t..], t, k, p.onReadError, failures);
    if !SeenHas(r).Hit? && !(SeenHas(r).Error? && p.onReadError.FailFast?) {
      var failures' := if SeenHas(r).Error? then failures + [t] else failures;
      CheckingGoesOn(before, k, p, t + 1, |failures'|, slots[t := s], failures');
    }
  }

  lemma {:induction false} CheckingGoesOn<S(!new)>(before: seq<Slot<S>>, k: Key, p: Policy, t: nat, errors: nat,
                                                   slots: seq<Slot<S>>, failures: seq<nat>)
    requires 0 < t <= |slots| == |before| && errors == |failures|
    requires AtCheck(before, k, p, t, slots, failures)
    ensures Checking(before, k, p, ReadFlow.Advance(|before|, errors, t - 1), errors, slots, failures)
  {
    if t == |slots| {
      assert slots[..t] + [] == slots && failures + [] == failures && slots[t..] == [];
    }
  }

  // ---------------------------------------------------------- a removal, part-way

  /** A delete run split into the tiers handled and those to come. */
  ghost predicate Deleting<S(!new)>(before: seq<Slot<S>>, k: Key, done: seq<Slot<S>>, rest: seq<Slot<S>>, tier: nat,
                                    existed: bool, failures: seq<nat>)
  {
    var all, left := DeleteFrom(before, 0, k), DeleteFrom(rest, tier, k);
    all.slots == done + left.slots && all.existed == (existed || left.existed) && all.failures == failures + left.failures
  }

  lemma {:induction false} DeletingStep<S(!new)>(before: seq<Slot<S>>, k: Key, done: seq<Slot<S>>, rest: seq<Slot<S>>, tier: nat,
                                                 existed: bool, failures: seq<nat>)
    requires Deleting(before, k, done, rest, tier, existed, failures) && rest != []
    ensures var (s, r) := rest[0].Delete(k);
      if rest[0].writable
      then Deleting(before, k, done + [s], rest[1..], tier + 1, existed || (r.Ok? && r.value),
                    if r.Ok? then failures else failures + [tier])
      else Deleting(before, k, done + [rest[0]], rest[1..], tier + 1, existed, failures)
  {
    var (s, r) := rest[0].Delete(k);
    var left := DeleteFrom(rest[1..], tier + 1, k);
    Glue(done, s, left.slots);
    Glue(done, rest[0], left.slots);
    Glue(failures, tier, left.failures);
    assert [] + left.failures == left.failures;
  }

  ghost predicate Removing<S(!new)>(all: RemovedMany<S>, keys: seq<Key>, done: seq<Slot<S>>, rest: seq<Slot<S>>, tier: nat,
                                    removed: seq<bool>, failures: seq<nat>)
    requires |removed| == |keys|
  {
    var left := RemoveFrom(rest, tier, keys, removed);
    && all.slots == done + left.slots && all.report.removed == left.report.removed
    && all.report.failures == failures + left.report.failures
  }

  lemma {:induction false} RemovingStep<S(!new)>(all: RemovedMany<S>, keys: seq<Key>, done: seq<Slot<S>>, rest: seq<Slot<S>>,
                                                 tier: nat, removed: seq<bool>, failures: seq<nat>)
    requires |removed| == |keys| && Removing(all, keys, done, rest, tier, removed, failures) && rest != []
    ensures var (s, r) := rest[0].DeleteMany(keys);
      if rest[0].writable
      then Removing(all, keys, done + [s], rest[1..], tier + 1, if r.Ok? then OrFlags(removed, r.value) else removed,
                    if r.Ok? then failures else failures + [tier])
      else Removing(all, keys, done + [rest[0]], rest[1..], tier + 1, removed, failures)
  {
    var (s, r) := rest[0].DeleteMany(keys);
    var left := RemoveFrom(rest[1..], tier + 1, keys,
                           if rest[0].writable && r.Ok? then OrFlags(removed, r.value) else removed);
    Glue(done, s, left.slots);
    Glue(done, rest[0], left.slots);
    Glue(failures, tier, left.report.failures);
    assert [] + left.report.failures == left.report.failures;
  }

  // ------------------------------------------------------ a batched read, part-way

  /** A sweep split into the tiers asked and those to come. */
  ghost predicate Sweeping<S(!new)>(all: Swept<S>, keys: seq<Key>, e: OnReadError, done: seq<Slot<S>>, rest: seq<Slot<S>>,
                                    tier: nat, statuses: seq<KeyStatus>, unresolved: seq<nat>, failures: seq<nat>)
  {
    |statuses| == |keys| && Within(unresolved, |keys|) &&
    var left := ProbeMany(rest, tier, keys, unresolved, statuses, e);
    && all.slots == done + left.slots && all.failures == failures + left.failures
    && all.statuses == left.statuses && all.pending == left.pending && all.aborted == left.aborted
  }

  lemma {:induction false} SweepingStep<S(!new)>(all: Swept<S>, keys: seq<Key>, e: OnReadError, done: seq<Slot<S>>, rest: seq<Slot<S>>,
                                                 tier: nat, statuses: seq<KeyStatus>, unresolved: seq<nat>, failures: seq<nat>)
    requires Sweeping(all, keys, e, done, rest, tier, statuses, unresolved, failures) && rest != [] && unresolved != []
    ensures var (s, r) := rest[0].GetMany(Pick(keys, unresolved));
      if r.Ok? then
        Sweeping(all, keys, e, done + [s], rest[1..], tier + 1, Mark(statuses, unresolved, r.value, tier),
                 Missing(unresolved, r.value), failures)
      else if e.FailFast? then
        all == Swept((done + [s]) + rest[1..], statuses, unresolved, failures + [tier], true)
      else
        Sweeping(all, keys, e, done + [s], rest[1..], tier + 1, statuses, unresolved, failures + [tier])
  {
    var (s, r) := rest[0].GetMany(Pick(keys, unresolved));
    if r.Ok? {
      Glue(done, s, ProbeMany(rest[1..], tier + 1, keys, Missing(unresolved, r.value),
                              Mark(statuses, unresolved, r.value, tier), e).slots);
    } else if e.FailFast? {
      Glue(done, s, rest[1..]);
    } else {
      var left := ProbeMany(rest[1..], tier + 1, keys, unresolved, statuses, e);
      Glue(done, s, left.slots);
      Glue(failures, tier, left.failures);
    }
  }

  /** Request positions of the hits of one tier, in request order. */
  function HitIndices(statuses: seq<KeyStatus>, tier: nat): (r: seq<nat>)
    ensures forall i :: 0 <= i < |r| ==> r[i] < |statuses| && statuses[r[i]].Hit? && statuses[r[i]].tier == tier
  {
    if statuses == [] then []
    else
      var n := |statuses| - 1;
      HitIndices(statuses[..n], tier) + (if statuses[n].Hit? && statuses[n].tier == tier then [n] else [])
  }

  lemma {:induction false} HitsAtSnoc(keys: seq<Key>, statuses: seq<KeyStatus>, k: Key, status: KeyStatus, tier: nat)
    requires |keys| == |statuses|
    ensures HitsAt(keys + [k], statuses + [status], tier)
         == HitsAt(keys, statuses, tier) + (if status.Hit? && status.tier == tier then [(k, status.value)] else [])
  {
    if keys == [] {
      assert keys + [k] == [k] && statuses + [status] == [status];
      assert [k][1..] == [] && [status][1..] == [];
    } else {
      assert (keys + [k])[1..] == keys[1..] + [k] && (statuses + [status])[1..] == statuses[1..] + [status];
      HitsAtSnoc(keys[1..], statuses[1..], k, status, tier);
    }
  }

  function EntriesAt(keys: seq<Key>, statuses: seq<KeyStatus>, indices: seq<nat>): (r: seq<Entry>)
    requires |keys| == |statuses|
    requires forall i :: 0 <= i < |indices| ==> indices[i] < |keys| && statuses[indices[i]].Hit?
    ensures |r| == |indices|
  {
    seq(|indices|, i requires 0 <= i < |indices| => (keys[indices[i]], statuses[indices[i]].value))
  }

  lemma {:induction false} HitsByIndex(keys: seq<Key>, statuses: seq<KeyStatus>, tier: nat)
    requires |keys| == |statuses|
    ensures EntriesAt(keys, statuses, HitIndices(statuses, tier)) == HitsAt(keys, statuses, tier)
  {
    if keys != [] {
      var n := |keys| - 1;
      HitsByIndex(keys[..n], statuses[..n], tier);
      HitsAtSnoc(keys[..n], statuses[..n], keys[n], statuses[n], tier);
      assert keys[..n] + [keys[n]] == keys && statuses[..n] + [statuses[n]] == statuses;
    }
  }

  ghost predicate HitsBelow(statuses: seq<KeyStatus>, tiers: nat) {
    forall j :: 0 <= j < |statuses| && statuses[j].Hit? ==> statuses[j].tier < tiers
  }

  lemma {:induction false} MarkBelow(statuses: seq<KeyStatus>, pending: seq<nat>, found: seq<Option<Value>>, tier: nat, tiers: nat)
    requires Within(pending, |statuses|) && HitsBelow(statuses, tiers) && tier < tiers
    ensures HitsBelow(Mark(statuses, pending, found, tier), tiers)
    decreases |pending|
  {
    if pending != [] && found != [] {
      MarkBelow(if found[0].Some? then statuses[pending[0] := Hit(tier, found[0].value)] else statuses,
                pending[1..], found[1..], tier, tiers);
    }
  }

  lemma {:induction false} HitsServed<S(!new)>(slots: seq<Slot<S>>, base: nat, keys: seq<Key>, pending: seq<nat>,
                                               statuses: seq<KeyStatus>, e: OnReadError)
    requires |statuses| == |keys| && Within(pending, |keys|) && HitsBelow(statuses, base + |slots|)
    ensures HitsBelow(ProbeMany(slots, base, keys, pending, statuses, e).statuses, base + |slots|)
    decreases |slots|
  {
    if slots != [] && pending != [] {
      var r := slots[0].GetMany(Pick(keys, pending)).1;
      if r.Ok? {
        MarkBelow(statuses, pending, r.value, base, base + |slots|);
        HitsServed(slots[1..], base + 1, keys, Missing(pending, r.value), Mark(statuses, pending, r.value, base), e);
      } else {
        HitsServed(slots[1..], base + 1, keys, pending, statuses, e);
      }
    }
  }

  class Router<S(!new)> {
    var slots: seq<Slot<S>>
    const policy: Policy

    constructor (slots: seq<Slot<S>>, policy: Policy)
      requires slots != []
      ensures this.slots == slots && this.policy == policy
    {
      this.slots := slots;
      this.policy := policy;
    }

    // -------------------------------------------------------------- demotion

    /** Entries into one tier, one `put` each. */
    method PourInto(target: nat, entries: seq<Entry>) returns (next: Displaced)
      requires target < |slots|
      modifies this`slots
      ensures var p := Pour(old(slots)[target], entries);
        slots == old(slots)[target := p.slot] && next == p.next
    {
      next := [];
      var i := 0;
      ghost var all := Pour(slots[target], entries);
      assert entries[0..] == entries;
      while i < |entries|
        invariant 0 <= i <= |entries| && |slots| == |old(slots)|
        invariant slots == old(slots)[target := slots[target]]
        invariant Pour(slots[target], entries[i..]).slot == all.slot
        invariant next + Pour(slots[target], entries[i..]).next == all.next
      {
        assert entries[i..][0] == entries[i] && entries[i..][1..] == entries[i + 1..];
        var (s, r) := slots[target].Accept(Single(entries[i]));
        slots := slots[target := s];
        if r.Ok? {
          assert (next + r.value) + Pour(s, entries[i + 1..]).next == next + (r.value + Pour(s, entries[i + 1..]).next);
          next := next + r.value;
        }
        i := i + 1;
      }
      assert entries[|entries|..] == [];
      assert next + [] == next;
    }

    /** Pushes what tier `from` displaced down the stack. */
    method Demote(from: nat, entries: Displaced) returns (out: Displaced)
      requires from < |slots|
      modifies this`slots
      ensures var c := Cascade(old(slots)[from + 1..], entries);
        slots == old(slots)[..from + 1] + c.slots && out == c.out
    {
      var current := entries;
      var target := from + 1;
      ghost var done, rest := slots[..from + 1], slots[from + 1..];
      ghost var all := Cascade(rest, entries);
      ghost var goal := done + all.slots;
      while target < |slots| && current != []
        invariant |done| == target && slots == done + rest
        invariant goal == done + Cascade(rest, current).slots
        invariant all.out == Cascade(rest, current).out
        decreases |slots| - target
      {
        if !slots[target].writable {
          Advance(done, rest, rest[0], Cascade(rest[1..], current).slots);
          done, rest := done + [rest[0]], rest[1..];
          target := target + 1;
          continue;
        }
        ghost var p := Pour(rest[0], current);
        var next := PourInto(target, current);
        Advance(done, rest, p.slot, Cascade(rest[1..], p.next).slots);
        done, rest := done + [p.slot], rest[1..];
        current := next;
        target := target + 1;
      }
      out := current;
    }

    // ----------------------------------------------------------------- writes

    /** Writes one tier and demotes what it displaces. */
    method WriteTier(tier: nat, w: Tiers.Write, ghost above: seq<Slot<S>>, ghost x: Slot<S>, ghost below: seq<Slot<S>>)
      returns (r: Result<Displaced>)
      requires slots == above + ([x] + below) && |above| == tier
      modifies this`slots
      ensures var (s, a) := x.Accept(w);
        if a.Err? then r == Err && slots == above + ([s] + below)
        else if !policy.demote then r == a && slots == above + ([s] + below)
        else var c := Cascade(below, a.value);
          r == Ok(c.out) && slots == above + ([s] + c.slots)
    {
      var (s, a) := slots[tier].Accept(w);
      slots := slots[tier := s];
      assert slots == above + ([s] + below);
      if a.Ok? && policy.demote && a.value != [] {
        Glue(above, s, below);
        Cut(above + [s], below);
        var out := Demote(tier, a.value);
        r := Ok(out);
        Glue(above, s, Cascade(below, a.value).slots);
      } else {
        r := a;
      }
    }

    /** `put` and `put_many` under write-through: bottom-up, so that an upper tier
        never holds a key its lower tiers failed to accept. */
    method WriteThroughAll(w: Tiers.Write) returns (r: Outcome<Displaced>)
      requires policy.write.Through?
      modifies this`slots
      ensures var u := Stack.Write(old(slots), w, policy);
        slots == u.slots && r == u.outcome
    {
      if Bottom(slots).None? {
        return Fail(ReadOnly);
      }
      var evicted := [];
      var tier := |slots|;
      ghost var above, below := slots, [];
      ghost var b := WriteThrough(below, w, policy);
      assert slots + [] == slots;
      while tier > 0
        invariant tier == |above| && Climbing(old(slots), w, policy, above, below, b)
        invariant slots == above + b.slots && evicted == b.evicted
      {
        tier := tier - 1;
        ghost var up, x := above[..tier], above[tier];
        assert above == up + [x];
        Glue(up, x, b.slots);
        ClimbingStep(old(slots), w, policy, up, x, below, b);
        above, below := up, [x] + below;
        if !slots[tier].writable {
          b := WriteThrough(below, w, policy);
          continue;
        }
        var res := WriteTier(tier, w, up, x, b.slots);
        b := WriteThrough(below, w, policy);
        if res.Ok? {
          evicted := evicted + res.value;
        } else if policy.onWriteError.Abort? {
          return Fail(Tier(tier));
        }
      }
      assert [] + below == below && [] + b.slots == b.slots;
      r := Done(evicted);
    }

    /** Removes the keys of a write from the tiers above `bottom`. */
    method InvalidateAbove(bottom: nat, w: Tiers.Write, ghost above: seq<Slot<S>>, ghost below: seq<Slot<S>>)
      returns (failures: seq<nat>)
      requires slots == above + below && |above| == bottom
      modifies this`slots
      ensures var c := Invalidate(above, 0, w);
        slots == c.slots + below && failures == c.failures
    {
      failures := [];
      var tier := 0;
      ghost var done, rest := [], above;
      ghost var start := Invalidate(above, 0, w);
      assert [] + start.slots == start.slots && [] + start.failures == start.failures;
      while tier < bottom
        invariant |done| == tier && |rest| == bottom - tier && slots == done + (rest + below)
        invariant Clearing(above, w, done, rest, tier, failures)
      {
        ghost var x' := InvalidateOne(rest[0], w).0;
        ClearingStep(above, w, done, rest, tier, failures);
        AdvanceOver(done, rest, below, x');
        if slots[tier].writable {
          var (s, ok) := slots[tier].Invalidate(w);
          slots := slots[tier := s];
          if !ok {
            failures := failures + [tier];
          }
        }
        done, rest := done + [x'], rest[1..];
        tier := tier + 1;
      }
      assert rest == [] && [] + below == below;
      assert done + [] == done && failures + [] == failures;
    }

    /** `put` and `put_many` under write-around: the bottom tier is written, stale
        copies above it are invalidated. */
    method WriteAroundAll(w: Tiers.Write) returns (r: Outcome<Displaced>)
      requires policy.write.Around?
      modifies this`slots
      ensures var u := Stack.Write(old(slots), w, policy);
        slots == u.slots && r == u.outcome
    {
      var bottom := Bottom(slots);
      if bottom.None? {
        return Fail(ReadOnly);
      }
      ghost var above, below := slots[..bottom.value], slots[bottom.value + 1..];
      var (s, a) := slots[bottom.value].Accept(w);
      slots := slots[bottom.value := s];
      assert slots == above + ([s] + below);
      if a.Err? {
        return Fail(Tier(bottom.value));
      }
      var failures := InvalidateAbove(bottom.value, w, above, [s] + below);
      r := if failures == [] then Done(a.value) else Fail(Partial(failures));
    }

    method Put(key: Key, value: Value) returns (r: Outcome<Displaced>)
      modifies this`slots
      ensures var u := Stack.Write(old(slots), Single((key, value)), policy);
        slots == u.slots && r == u.outcome
    {
      match policy.write {
        case Through => r := WriteThroughAll(Single((key, value)));
        case Around => r := WriteAroundAll(Single((key, value)));
      }
    }

    method PutMany(entries: seq<Entry>) returns (r: Outcome<Displaced>)
      modifies this`slots
      ensures var u := Stack.Write(old(slots), Batch(entries), policy);
        slots == u.slots && r == u.outcome
    {
      match policy.write {
        case Through => r := WriteThroughAll(Batch(entries));
        case Around => r := WriteAroundAll(Batch(entries));
      }
    }

    // ------------------------------------------------------------------- reads

    /** Best-effort copy of a hit into one tier. What that pushes off the bottom is
        dropped. */
    method FillTier(target: nat, w: Tiers.Write)
      requires target < |slots|
      modifies this`slots
      ensures slots == Fill(old(slots), target, w, policy.demote).slots
    {
      if slots[target].writable {
        Stack.Around(slots, target);
        var _ := WriteTier(target, w, slots[..target], slots[target], slots[target + 1..]);
      }
    }

    /** A single read, driven by the flow. */
    method Get(key: Key) returns (r: Outcome<Option<Value>>)
      modifies this`slots
      ensures var f := Stack.Get(old(slots), key, policy);
        slots == f.slots && r == f.outcome
    {
      var flow := new ReadFlow.ReadFlow(|slots|, policy.promote, policy.onReadError);
      var hit: Option<Value> := None;
      var failures: seq<nat> := [];
      ReadingStarts(slots, key, policy);
      while true
        invariant fresh(flow) && flow.Valid()
        invariant flow.tiers == |slots| == |old(slots)|
        invariant flow.promote == policy.promote && flow.onError == policy.onReadError
        invariant Reading(old(slots), key, policy, flow.state, flow.errors, slots, hit, failures)
        decreases ReadFlow.Rank(flow.tiers, flow.state)
      {
        match ReadFlow.Next(flow.state) {
          case GetFrom(tier) =>
            ReadingProbes(old(slots), key, policy, tier, flow.errors, slots, failures);
            var (s, answer) := slots[tier].Get(key);
            slots := slots[tier := s];
            if answer.Ok? && answer.value.Some? {
              hit := answer.value;
            } else if answer.Err? {
              failures := failures + [tier];
            }
            flow.OnGet(Seen(answer));
          case PromoteInto(tier) =>
            ReadingPromotes(old(slots), key, policy, flow.state.hit, tier, flow.errors, slots, hit.value, failures);
            FillTier(tier, Single((key, hit.value)));
            flow.OnPromote();
          case Done(end) =>
            return Conclusion(end, hit, failures);
        }
      }
    }

    /** An existence check, driven by a flow that never promotes. */
    method Exists(key: Key) returns (r: Outcome<bool>)
      modifies this`slots
      ensures var u := Stack.Exists(old(slots), key, policy);
        slots == u.slots && r == u.outcome
    {
      var flow := new ReadFlow.ReadFlow(|slots|, Never, policy.onReadError);
      var failures: seq<nat> := [];
      CheckingStarts(slots, key, policy);
      while true
        invariant fresh(flow) && flow.Valid()
        invariant flow.tiers == |slots| == |old(slots)|
        invariant flow.promote == Never && flow.onError == policy.onReadError
        invariant Checking(old(slots), key, policy, flow.state, flow.errors, slots, failures)
        decreases ReadFlow.Rank(flow.tiers, flow.state)
      {
        match ReadFlow.Next(flow.state) {
          case GetFrom(tier) =>
            CheckingProbes(old(slots), key, policy, tier, flow.errors, slots, failures);
            var (s, answer) := slots[tier].Exists(key);
            slots := slots[tier := s];
            if answer.Err? {
              failures := failures + [tier];
            }
            flow.OnGet(SeenHas(answer));
          case PromoteInto(_) =>
            assert false;
          case Done(end) =>
            return Checked(end, failures);
        }
      }
    }

    // ------------------------------------------------------------ batched reads

    /** Copies every hit into the tiers above the one that served it. */
    method PromoteBatch(keys: seq<Key>, statuses: seq<KeyStatus>)
      requires |keys| == |statuses|
      requires HitsBelow(statuses, |slots|)
      modifies this`slots
      ensures slots == PromoteFrom(old(slots), 0, keys, statuses, policy).slots
    {
      if policy.promote.Never? {
        PromoteNever(slots, 0, keys, statuses, policy);
        return;
      }
      var hitsByTier := GroupHits(statuses);
      var tier := 0;
      while tier < |slots|
        invariant 0 <= tier <= |slots| == |old(slots)|
        invariant PromoteFrom(slots, tier, keys, statuses, policy).slots
               == PromoteFrom(old(slots), 0, keys, statuses, policy).slots
      {
        var hits := hitsByTier[tier];
        HitsByIndex(keys, statuses, tier);
        ghost var before := slots;
        if tier != 0 && hits != [] {
          var entries := EntriesAt(keys, statuses, hits);
          var to := if policy.promote.TopOnly? then 1 else tier;
          FillUpTo(to, Batch(entries));
        } else {
          assert FillRange(slots, 0, 0, Batch(EntriesAt(keys, statuses, hits)), policy.demote).slots == slots;
        }
        assert slots == PromoteTier(before, tier, keys, statuses, policy).slots;
        tier := tier + 1;
      }
    }

    method FillUpTo(to: nat, w: Tiers.Write)
      requires to <= |slots|
      modifies this`slots
      ensures slots == FillRange(old(slots), 0, to, w, policy.demote).slots
    {
      var target := 0;
      while target < to
        invariant 0 <= target <= to <= |slots|
        invariant FillRange(slots, target, to, w, policy.demote).slots == FillRange(old(slots), 0, to, w, policy.demote).slots
      {
        FillTier(target, w);
        target := target + 1;
      }
    }

    /** The hits of a batch by serving tier. */
    method GroupHits(statuses: seq<KeyStatus>) returns (hitsByTier: seq<seq<nat>>)
      requires HitsBelow(statuses, |slots|)
      ensures |hitsByTier| == |slots| && forall t :: 0 <= t < |slots| ==> hitsByTier[t] == HitIndices(statuses, t)
    {
      hitsByTier := seq(|slots|, _ => []);
      var index := 0;
      while index < |statuses|
        invariant 0 <= index <= |statuses| && |hitsByTier| == |slots|
        invariant forall t :: 0 <= t < |slots| ==> hitsByTier[t] == HitIndices(statuses[..index], t)
      {
        assert statuses[..index + 1][..index] == statuses[..index];
        if statuses[index].Hit? {
          var t := statuses[index].tier;
          hitsByTier := hitsByTier[t := hitsByTier[t] + [index]];
        }
        index := index + 1;
      }
      assert statuses[..|statuses|] == statuses;
    }

    /** Files the answers of one tier under the keys asked. */
    method Resolve(tier: nat, unresolved: seq<nat>, found: seq<Option<Value>>, statuses: seq<KeyStatus>)
      returns (marked: seq<KeyStatus>, missing: seq<nat>)
      requires Within(unresolved, |statuses|)
      ensures marked == Mark(statuses, unresolved, found, tier) && missing == Missing(unresolved, found)
    {
      marked := statuses;
      missing := [];
      var i := 0;
      assert unresolved[0..] == unresolved && found[0..] == found;
      while i < |unresolved| && i < |found|
        invariant 0 <= i <= |unresolved| && i <= |found| && |marked| == |statuses|
        invariant Mark(marked, unresolved[i..], found[i..], tier) == Mark(statuses, unresolved, found, tier)
        invariant missing + Missing(unresolved[i..], found[i..]) == Missing(unresolved, found)
      {
        assert unresolved[i..][1..] == unresolved[i + 1..] && found[i..][1..] == found[i + 1..];
        var rest := Missing(unresolved[i + 1..], found[i + 1..]);
        if found[i].Some? {
          marked := marked[unresolved[i] := Hit(tier, found[i].value)];
          assert [] + rest == rest;
        } else {
          Glue(missing, unresolved[i], rest);
          missing := missing + [unresolved[i]];
        }
        i := i + 1;
      }
      assert missing + [] == missing;
    }

    /** Asks each tier in turn for the keys still unresolved. */
    method Sweep(keys: seq<Key>) returns (statuses: seq<KeyStatus>, unresolved: seq<nat>, failures: seq<nat>, aborted: bool)
      modifies this`slots
      ensures var q := ProbeMany(old(slots), 0, keys, seq(|keys|, i => i), seq(|keys|, i => Miss), policy.onReadError);
        slots == q.slots && statuses == q.statuses && unresolved == q.pending && failures == q.failures && aborted == q.aborted
    {
      statuses := seq(|keys|, i => Miss);
      unresolved := seq(|keys|, i => i);
      failures := [];
      aborted := false;
      var tier := 0;
      ghost var all := ProbeMany(slots, 0, keys, unresolved, statuses, policy.onReadError);
      ghost var done, rest := [], slots;
      assert [] + slots == slots && [] + all.slots == all.slots && [] + all.failures == all.failures;
      while tier < |slots| && unresolved != []
        invariant |done| == tier && slots == done + rest
        invariant Sweeping(all, keys, policy.onReadError, done, rest, tier, statuses, unresolved, failures)
        decreases |slots| - tier
      {
        SweepingStep(all, keys, policy.onReadError, done, rest, tier, statuses, unresolved, failures);
        var (s, answer) := slots[tier].GetMany(Pick(keys, unresolved));
        Advance(done, rest, s, []);
        slots := slots[tier := s];
        if answer.Ok? {
          statuses, unresolved := Resolve(tier, unresolved, answer.value, statuses);
        } else {
          failures := failures + [tier];
          if policy.onReadError.FailFast? {
            return statuses, unresolved, failures, true;
          }
        }
        done, rest := done + [s], rest[1..];
        tier := tier + 1;
      }
      assert failures + [] == failures;
    }

    method ReadMany(keys: seq<Key>) returns (r: Outcome<ReadReport>)
      modifies this`slots
      ensures var f := Stack.ReadMany(old(slots), keys, policy);
        slots == f.slots && r == f.outcome
    {
      ghost var before := slots;
      var statuses, unresolved, failures, aborted := Sweep(keys);
      if aborted {
        return Fail(Tier(failures[|failures| - 1]));
      }
      HitsServed(before, 0, keys, seq(|keys|, i => i), seq(|keys|, i => Miss), policy.onReadError);
      if failures != [] {
        statuses := BlurAll(statuses, unresolved);
      }
      PromoteBatch(keys, statuses);
      r := Done(ReadReport(statuses, failures));
    }

    /** Marks the unresolved keys as unknown. */
    method BlurAll(statuses: seq<KeyStatus>, unresolved: seq<nat>) returns (r: seq<KeyStatus>)
      requires Within(unresolved, |statuses|)
      ensures r == Blur(statuses, unresolved)
    {
      r := statuses;
      var i := 0;
      while i < |unresolved|
        invariant 0 <= i <= |unresolved| && |r| == |statuses|
        invariant forall j :: 0 <= j < |statuses| ==> r[j] == if j in unresolved[..i] then Unknown else statuses[j]
      {
        assert unresolved[..i + 1] == unresolved[..i] + [unresolved[i]];
        r := r[unresolved[i] := Unknown];
        i := i + 1;
      }
      assert unresolved[..i] == unresolved;
    }

    /** One key through the batched path. */
    method ReadOne(key: Key) returns (r: Outcome<ReadReport>)
      modifies this`slots
      ensures var f := Stack.ReadMany(old(slots), [key], policy);
        slots == f.slots && r == f.outcome
      ensures r.Done? ==> |r.value.statuses| == 1
    {
      r := ReadMany([key]);
    }

    method GetMany(keys: seq<Key>) returns (r: Outcome<seq<Option<Value>>>)
      modifies this`slots
      ensures var u := Stack.GetMany(old(slots), keys, policy);
        slots == u.slots && r == u.outcome
    {
      var report := ReadMany(keys);
      match report {
        case Fail(e) => r := Fail(e);
        case Done(d) =>
          r := if Unknown in d.statuses then Fail(RouterError.Inconclusive(d.failures)) else Done(Answers(d.statuses));
      }
    }

    // ----------------------------------------------------------------- removal

    /** Deletes from every writable tier, whatever fails. */
    method Delete(key: Key) returns (r: Outcome<bool>)
      modifies this`slots
      ensures var u := Stack.Delete(old(slots), key);
        slots == u.slots && r == u.outcome
    {
      var existed := false;
      var failures: seq<nat> := [];
      var tier := 0;
      ghost var done, rest := [], slots;
      ghost var start := DeleteFrom(slots, 0, key);
      assert [] + slots == slots && [] + start.slots == start.slots && [] + start.failures == start.failures;
      while tier < |slots|
        invariant |done| == tier && slots == done + rest
        invariant Deleting(old(slots), key, done, rest, tier, existed, failures)
      {
        DeletingStep(old(slots), key, done, rest, tier, existed, failures);
        ghost var x := rest[0];
        if slots[tier].writable {
          var (s, answer) := slots[tier].Delete(key);
          Advance(done, rest, s, []);
          slots := slots[tier := s];
          x := s;
          if answer.Ok? {
            existed := existed || answer.value;
          } else {
            failures := failures + [tier];
          }
        } else {
          Advance(done, rest, x, []);
        }
        done, rest := done + [x], rest[1..];
        tier := tier + 1;
      }
      assert done + [] == done && failures + [] == failures;
      r := if failures == [] then Done(existed) else Fail(Partial(failures));
    }

    method RemoveMany(keys: seq<Key>) returns (report: DeleteReport)
      modifies this`slots
      ensures var d := Stack.RemoveMany(old(slots), keys);
        slots == d.slots && report == d.report
    {
      var removed := seq(|keys|, i => false);
      var failures: seq<nat> := [];
      var tier := 0;
      ghost var done, rest := [], slots;
      ghost var all := RemoveFrom(slots, 0, keys, removed);
      assert [] + slots == slots && [] + all.slots == all.slots;
      assert [] + all.report.failures == all.report.failures;
      while tier < |slots|
        invariant |done| == tier && slots == done + rest && |removed| == |keys|
        invariant Removing(all, keys, done, rest, tier, removed, failures)
      {
        RemovingStep(all, keys, done, rest, tier, removed, failures);
        ghost var x := rest[0];
        if slots[tier].writable {
          var (s, answer) := slots[tier].DeleteMany(keys);
          Advance(done, rest, s, []);
          slots := slots[tier := s];
          x := s;
          if answer.Ok? {
            removed := OrFlags(removed, answer.value);
          } else {
            failures := failures + [tier];
          }
        } else {
          Advance(done, rest, x, []);
        }
        done, rest := done + [x], rest[1..];
        tier := tier + 1;
      }
      assert done + [] == done && failures + [] == failures;
      report := DeleteReport(removed, failures);
    }

    method DeleteMany(keys: seq<Key>) returns (r: Outcome<seq<bool>>)
      modifies this`slots
      ensures var u := Stack.DeleteMany(old(slots), keys);
        slots == u.slots && r == u.outcome
    {
      var report := RemoveMany(keys);
      r := if report.failures == [] then Done(report.removed) else Fail(Partial(report.failures));
    }
  }
}
