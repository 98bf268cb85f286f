/** Batched reads: one honest status per key, and the same invisibility of
    promotion as single reads. */
module Batches {
  import opened Bindings
  import opened Tiers
  import opened Views
  import opened Reads
  import opened Stack

  lemma {:induction false} MarkAt(statuses: seq<KeyStatus>, keys: seq<Key>, pending: seq<nat>, found: seq<Option<Value>>,
                                  tier: nat, held: map<Key, Value>, j: nat)
    requires |statuses| == |keys| && Within(pending, |keys|) && |found| == |pending| && j < |keys|
    requires forall i :: 0 <= i < |found| ==> found[i] == Lookup(held, keys[pending[i]])
    ensures var v := Lookup(held, keys[j]);
      Mark(statuses, pending, found, tier)[j] == if j in pending && v.Some? then Hit(tier, v.value) else statuses[j]
    decreases |pending|
  {
    if pending != [] {
      var next := if found[0].Some? then statuses[pending[0] := Hit(tier, found[0].value)] else statuses;
      MarkAt(next, keys, pending[1..], found[1..], tier, held, j);
      assert pending == [pending[0]] + pending[1..];
    }
  }

  lemma {:induction false} MissingAt(keys: seq<Key>, pending: seq<nat>, found: seq<Option<Value>>, held: map<Key, Value>, j: nat)
    requires Within(pending, |keys|) && |found| == |pending| && j < |keys|
    requires forall i :: 0 <= i < |found| ==> found[i] == Lookup(held, keys[pending[i]])
    ensures j in Missing(pending, found) <==> j in pending && Lookup(held, keys[j]).None?
    decreases |pending|
  {
    if pending != [] {
      MissingAt(keys, pending[1..], found[1..], held, j);
      assert pending == [pending[0]] + pending[1..];
    }
  }

  // ------------------------------------------------------------------ probing

  lemma {:induction false} GetManyHeld<S(!new)>(slot: Slot<S>, keys: seq<Key>, pending: seq<nat>)
    requires slot.Sound() && Within(pending, |keys|)
    ensures var (s, r) := slot.GetMany(Pick(keys, pending));
      && s.Sound() && s.backend == slot.backend && s.writable == slot.writable
      && s.backend.view(s.tier) == slot.backend.view(slot.tier)
      && s.counters.errors == slot.counters.errors + (if r.Err? then 1 else 0)
      && (r.Ok? ==> |r.value| == |pending|)
      && (r.Ok? ==> forall i :: 0 <= i < |pending| ==>
            r.value[i] == Lookup(slot.backend.view(slot.tier), keys[pending[i]]))
  {
    assert slot.backend.GetManyOk(slot.tier, Pick(keys, pending));
  }

  lemma {:induction false} ProbeManyKeeps<S(!new)>(slots: seq<Slot<S>>, base: nat, keys: seq<Key>, pending: seq<nat>,
                                                   statuses: seq<KeyStatus>, e: OnReadError)
    requires Sound(slots) && |statuses| == |keys| && Within(pending, |keys|)
    ensures var q := ProbeMany(slots, base, keys, pending, statuses, e);
      Sound(q.slots) && Errors(q.slots) == Errors(slots) + |q.failures|
    decreases |slots|
  {
    if slots != [] && pending != [] {
      var (s, r) := slots[0].GetMany(Pick(keys, pending));
      GetManyHeld(slots[0], keys, pending);
      if r.Ok? {
        ProbeManyKeeps(slots[1..], base + 1, keys, Missing(pending, r.value), Mark(statuses, pending, r.value, base), e);
      } else {
        ProbeManyKeeps(slots[1..], base + 1, keys, pending, statuses, e);
      }
    }
  }

  lemma {:induction false} ProbeManyView<S(!new)>(slots: seq<Slot<S>>, base: nat, keys: seq<Key>, pending: seq<nat>,
                                                  statuses: seq<KeyStatus>, e: OnReadError, x: Key)
    requires Sound(slots) && |statuses| == |keys| && Within(pending, |keys|)
    ensures var q := ProbeMany(slots, base, keys, pending, statuses, e);
      Top(q.slots, x) == Top(slots, x)
    decreases |slots|
  {
    if slots != [] && pending != [] {
      var (s, r) := slots[0].GetMany(Pick(keys, pending));
      GetManyHeld(slots[0], keys, pending);
      if r.Ok? {
        ProbeManyView(slots[1..], base + 1, keys, Missing(pending, r.value), Mark(statuses, pending, r.value, base), e, x);
      } else {
        ProbeManyView(slots[1..], base + 1, keys, pending, statuses, e, x);
      }
    }
  }

  /** What a probe run has found out about key `j` when it did not abort: a hit from
      the topmost answering tier that holds it, or else it is still pending. */
  ghost predicate Found<S(!new)>(slots: seq<Slot<S>>, base: nat, keys: seq<Key>, pending: seq<nat>,
                                 statuses: seq<KeyStatus>, q: Swept<S>, j: nat)
    requires |statuses| == |keys| == |q.statuses| && j < |keys|
  {
    var h := Served(slots, base, q.failures, keys[j]);
    if j in pending && h.Some? then q.statuses[j] == Hit(h.value.0, h.value.1) && j !in q.pending
    else q.statuses[j] == statuses[j] && (j in q.pending <==> j in pending)
  }

  lemma {:induction false} ProbeManyFinds<S(!new)>(slots: seq<Slot<S>>, base: nat, keys: seq<Key>, pending: seq<nat>,
                                                   statuses: seq<KeyStatus>, e: OnReadError, j: nat)
    requires Sound(slots) && |statuses| == |keys| && Within(pending, |keys|) && j < |keys|
    ensures var q := ProbeMany(slots, base, keys, pending, statuses, e);
      && (q.aborted <==> e.FailFast? && q.failures != [])
      && (!q.aborted ==> Found(slots, base, keys, pending, statuses, q, j))
    decreases |slots|
  {
    if slots != [] && pending != [] {
      var (s, r) := slots[0].GetMany(Pick(keys, pending));
      GetManyHeld(slots[0], keys, pending);
      if r.Ok? {
        var held := slots[0].backend.view(slots[0].tier);
        var marked, missing := Mark(statuses, pending, r.value, base), Missing(pending, r.value);
        MarkAt(statuses, keys, pending, r.value, base, held, j);
        MissingAt(keys, pending, r.value, held, j);
        ProbeManyFinds(slots[1..], base + 1, keys, missing, marked, e, j);
        var q := ProbeMany(slots[1..], base + 1, keys, missing, marked, e);
        FailuresBelow(slots[1..], base + 1, keys, missing, marked, e);
      } else {
        ProbeManyFinds(slots[1..], base + 1, keys, pending, statuses, e, j);
        var q := ProbeMany(slots[1..], base + 1, keys, pending, statuses, e);
        ServedIgnores(slots[1..], base + 1, base, q.failures, keys[j]);
        assert ([base] + q.failures)[0] == base;
      }
    }
  }

  lemma {:induction false} FailuresBelow<S(!new)>(slots: seq<Slot<S>>, base: nat, keys: seq<Key>, pending: seq<nat>,
                                                  statuses: seq<KeyStatus>, e: OnReadError)
    requires |statuses| == |keys| && Within(pending, |keys|)
    ensures Between(ProbeMany(slots, base, keys, pending, statuses, e).failures, base, base + |slots|)
    decreases |slots|
  {
    if slots != [] && pending != [] {
      var (s, r) := slots[0].GetMany(Pick(keys, pending));
      if r.Ok? {
        FailuresBelow(slots[1..], base + 1, keys, Missing(pending, r.value), Mark(statuses, pending, r.value, base), e);
      } else {
        FailuresBelow(slots[1..], base + 1, keys, pending, statuses, e);
      }
    }
  }

  // ----------------------------------------------------------------- statuses

  /** The truth about one key given which tiers failed to answer. */
  ghost function Status<S(!new)>(slots: seq<Slot<S>>, failures: seq<nat>, k: Key): KeyStatus {
    var h := Served(slots, 0, failures, k);
    if h.Some? then Hit(h.value.0, h.value.1) else if failures == [] then Miss else Unknown
  }

  /** Honest statuses, for every fault pattern: each key's status says exactly which
      topmost answering tier held it; `Miss` is claimed only when every tier
      answered, and an unresolved key past a failure is `Unknown`. */
  lemma {:induction false} HonestStatuses<S(!new)>(slots: seq<Slot<S>>, keys: seq<Key>, p: Policy)
    requires Sound(slots)
    ensures var f := ReadMany(slots, keys, p);
      && (f.outcome.Done? ==>
           forall j :: 0 <= j < |keys| ==>
             f.outcome.value.statuses[j] == Status(slots, f.outcome.value.failures, keys[j]))
      && (f.outcome.Fail? ==> p.onReadError.FailFast? && f.outcome.error.Tier?)
      && (f.outcome.Done? && p.onReadError.FailFast? ==> f.outcome.value.failures == [])
  {
    var all, none := seq(|keys|, i => i), seq(|keys|, i => Miss);
    var q := ProbeMany(slots, 0, keys, all, none, p.onReadError);
    if |keys| == 0 {
    } else {
      ProbeManyFinds(slots, 0, keys, all, none, p.onReadError, 0);
    }
    if !q.aborted {
      forall j | 0 <= j < |keys|
        ensures ReadMany(slots, keys, p).outcome.value.statuses[j] == Status(slots, q.failures, keys[j])
      {
        ProbeManyFinds(slots, 0, keys, all, none, p.onReadError, j);
        assert all[j] == j;
      }
    }
  }

  // ---------------------------------------------------------------- promotion

  /** Every hit recorded for `k` is the value the stack shows for it. */
  ghost predicate HitsShown<S(!new)>(slots: seq<Slot<S>>, spilled: Displaced, keys: seq<Key>, statuses: seq<KeyStatus>, k: Key)
    requires |keys| == |statuses|
  {
    forall j :: 0 <= j < |keys| && keys[j] == k && statuses[j].Hit? ==>
      Over(slots, spilled, k) == Some(statuses[j].value)
  }

  lemma {:induction false} HitsAtBind(keys: seq<Key>, statuses: seq<KeyStatus>, tier: nat, k: Key)
    requires |keys| == |statuses|
    ensures var b := Bind(HitsAt(keys, statuses, tier), k);
      b.Some? ==> exists j :: 0 <= j < |keys| && keys[j] == k && statuses[j] == Hit(tier, b.value)
  {
    if keys != [] {
      HitsAtBind(keys[1..], statuses[1..], tier, k);
      var rest := HitsAt(keys[1..], statuses[1..], tier);
      var here := if statuses[0].Hit? && statuses[0].tier == tier then [(keys[0], statuses[0].value)] else [];
      BindConcat(here, rest, k);
      assert HitsAt(keys, statuses, tier) == here + rest;
      if here != [] {
        BindOne(here[0], k);
      }
      var b := Bind(rest, k);
      if b.Some? {
        var j :| 0 <= j < |keys[1..]| && keys[1..][j] == k && statuses[1..][j] == Hit(tier, b.value);
        assert keys[j + 1] == k && statuses[j + 1] == Hit(tier, b.value);
      } else if here != [] && here[0].0 == k {
        assert keys[0] == k && statuses[0] == Hit(tier, here[0].1);
      }
    }
  }

  lemma {:induction false} PromoteTierKeeps<S(!new)>(slots: seq<Slot<S>>, tier: nat, keys: seq<Key>, statuses: seq<KeyStatus>, p: Policy)
    requires Sound(slots) && |keys| == |statuses| && tier < |slots|
    ensures var f := PromoteTier(slots, tier, keys, statuses, p);
      Sound(f.slots) && Errors(f.slots) >= Errors(slots)
  {
    FillRangeKeeps(slots, 0, Reach(p.promote, tier), Batch(HitsAt(keys, statuses, tier)), p.demote);
  }

  lemma {:induction false} PromoteTierAt<S(!new)>(slots: seq<Slot<S>>, tier: nat, keys: seq<Key>, statuses: seq<KeyStatus>, p: Policy,
                               spilled: Displaced, k: Key)
    requires Sound(slots) && WritableAbove(slots) && |keys| == |statuses| && tier < |slots| && (p.demote || p.promote.Never?)
    requires HitsShown(slots, spilled, keys, statuses, k)
    requires Errors(PromoteTier(slots, tier, keys, statuses, p).slots) == Errors(slots)
    ensures var f := PromoteTier(slots, tier, keys, statuses, p);
      Over(f.slots, spilled + f.out, k) == Over(slots, spilled, k)
  {
    var entries := HitsAt(keys, statuses, tier);
    assert spilled + [] == spilled;
    if entries != [] && p.demote {
      HitsAtBind(keys, statuses, tier, k);
      FillRangeAt(slots, 0, Reach(p.promote, tier), Batch(entries), spilled, k);
    }
  }

  lemma {:induction false} PromoteFromKeeps<S(!new)>(slots: seq<Slot<S>>, from: nat, keys: seq<Key>, statuses: seq<KeyStatus>, p: Policy)
    requires Sound(slots) && |keys| == |statuses|
    ensures var f := PromoteFrom(slots, from, keys, statuses, p);
      Sound(f.slots) && Errors(f.slots) >= Errors(slots)
    decreases if from < |slots| then |slots| - from else 0
  {
    if from < |slots| {
      PromoteTierKeeps(slots, from, keys, statuses, p);
      PromoteFromKeeps(PromoteTier(slots, from, keys, statuses, p).slots, from + 1, keys, statuses, p);
    }
  }

  lemma {:induction false} PromoteFromAt<S(!new)>(slots: seq<Slot<S>>, from: nat, keys: seq<Key>, statuses: seq<KeyStatus>, p: Policy,
                                                  spilled: Displaced, k: Key)
    requires Sound(slots) && WritableAbove(slots) && |keys| == |statuses| && (p.demote || p.promote.Never?)
    requires HitsShown(slots, spilled, keys, statuses, k)
    requires Errors(PromoteFrom(slots, from, keys, statuses, p).slots) == Errors(slots)
    ensures var f := PromoteFrom(slots, from, keys, statuses, p);
      Over(f.slots, spilled + f.out, k) == Over(slots, spilled, k)
    decreases if from < |slots| then |slots| - from else 0
  {
    if from >= |slots| {
      assert spilled + [] == spilled;
    } else {
      var f := PromoteTier(slots, from, keys, statuses, p);
      var g := PromoteFrom(f.slots, from + 1, keys, statuses, p);
      assert spilled + (f.out + g.out) == (spilled + f.out) + g.out;
      PromoteFirstKeeps(slots, from, keys, statuses, p);
      PromoteTierAt(slots, from, keys, statuses, p, spilled, k);
      PromoteFromAt(f.slots, from + 1, keys, statuses, p, spilled + f.out, k);
    }
  }

  lemma {:induction false} PromoteFirstKeeps<S(!new)>(slots: seq<Slot<S>>, from: nat, keys: seq<Key>, statuses: seq<KeyStatus>, p: Policy)
    requires Sound(slots) && WritableAbove(slots) && |keys| == |statuses| && from < |slots|
    requires Errors(PromoteFrom(slots, from, keys, statuses, p).slots) == Errors(slots)
    ensures var f := PromoteTier(slots, from, keys, statuses, p);
      && Sound(f.slots) && WritableAbove(f.slots)
      && Errors(f.slots) == Errors(slots)
      && Errors(PromoteFrom(f.slots, from + 1, keys, statuses, p).slots) == Errors(f.slots)
  {
    var f := PromoteTier(slots, from, keys, statuses, p);
    PromoteTierKeeps(slots, from, keys, statuses, p);
    PromoteFromKeeps(f.slots, from + 1, keys, statuses, p);
    SameRoles(slots, f.slots);
  }

  /** A batched read without tier errors: every tier answered. */
  lemma {:induction false} ReadManyClean<S(!new)>(slots: seq<Slot<S>>, keys: seq<Key>, p: Policy)
    requires Sound(slots) && Errors(ReadMany(slots, keys, p).slots) == Errors(slots)
    ensures var all, none := seq(|keys|, i => i), seq(|keys|, i => Miss);
      var q, f := ProbeMany(slots, 0, keys, all, none, p.onReadError), ReadMany(slots, keys, p);
      && Sound(q.slots) && Errors(q.slots) == Errors(slots) && q.failures == [] && !q.aborted
      && Sound(f.slots) && f.outcome == Done(ReadReport(q.statuses, []))
  {
    var all, none := seq(|keys|, i => i), seq(|keys|, i => Miss);
    var q := ProbeMany(slots, 0, keys, all, none, p.onReadError);
    ProbeManyKeeps(slots, 0, keys, all, none, p.onReadError);
    if !q.aborted {
      PromoteFromKeeps(q.slots, 0, keys, if q.failures == [] then q.statuses else Blur(q.statuses, q.pending), p);
    }
  }

  /** With no tier error a batched read answers every key from the view, and its
      promotions leave the view alone, up to what fell off the bottom. */
  lemma {:induction false} ReadManyAt<S(!new)>(slots: seq<Slot<S>>, keys: seq<Key>, p: Policy, k: Key)
    requires Sound(slots) && WritableAbove(slots) && (p.demote || p.promote.Never?)
    requires Errors(ReadMany(slots, keys, p).slots) == Errors(slots)
    ensures var f := ReadMany(slots, keys, p);
      && Sound(f.slots)
      && f.outcome.Done? && f.outcome.value.failures == []
      && (forall j :: 0 <= j < |keys| ==> Answer(f.outcome.value.statuses[j]) == Top(slots, keys[j]))
      && Over(f.slots, f.out, k) == Top(slots, k)
  {
    var all, none := seq(|keys|, i => i), seq(|keys|, i => Miss);
    var q := ProbeMany(slots, 0, keys, all, none, p.onReadError);
    ReadManyClean(slots, keys, p);
    TrueAnswers(slots, keys, p);
    ProbeManyView(slots, 0, keys, all, none, p.onReadError, k);
    OverNothing(q.slots, k);
    SameRoles(slots, q.slots);
    var f := PromoteFrom(q.slots, 0, keys, q.statuses, p);
    PromoteFromAt(q.slots, 0, keys, q.statuses, p, [], k);
    assert [] + f.out == f.out;
  }

  lemma {:induction false} TrueAnswers<S(!new)>(slots: seq<Slot<S>>, keys: seq<Key>, p: Policy)
    requires Sound(slots)
    requires ReadMany(slots, keys, p).outcome.Done? && ReadMany(slots, keys, p).outcome.value.failures == []
    ensures forall j :: 0 <= j < |keys| ==>
      Answer(ReadMany(slots, keys, p).outcome.value.statuses[j]) == Top(slots, keys[j])
  {
    var report := ReadMany(slots, keys, p).outcome.value;
    HonestStatuses(slots, keys, p);
    forall j | 0 <= j < |keys| ensures Answer(report.statuses[j]) == Top(slots, keys[j]) {
      assert report.statuses[j] == Status(slots, [], keys[j]);
      ServedTop(slots, 0, keys[j]);
    }
  }
}
