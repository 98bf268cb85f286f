/** The router has two read paths: `get`, driven by the read flow with single
    tier calls, and `read_many`, with batched tier calls and batched promotion.
    On one key they are the same operation, whatever the tiers do. */
module ReadPaths {
  import opened Bindings
  import opened Tiers
  import opened Stack

  /** On every tier a batch of one is the single call. */
  ghost predicate Coherent<S(!new)>(slots: seq<Slot<S>>) {
    slots == [] || (slots[0].backend.Coherent() && Coherent(slots[1..]))
  }

  lemma {:induction false} CoherentAt<S(!new)>(slots: seq<Slot<S>>, i: nat)
    requires Coherent(slots) && i < |slots|
    ensures slots[i].backend.Coherent()
  {
    if i > 0 {
      CoherentAt(slots[1..], i - 1);
    }
  }

  lemma {:induction false} SameCoherent<S(!new)>(a: seq<Slot<S>>, b: seq<Slot<S>>)
    requires Roles(a) == Roles(b)
    ensures Coherent(a) == Coherent(b)
  {
    if a != [] {
      assert Roles(a)[0] == Roles(b)[0];
      assert Roles(a)[1..] == Roles(a[1..]) && Roles(b)[1..] == Roles(b[1..]);
      SameCoherent(a[1..], b[1..]);
    }
  }

  lemma {:induction false} GetAlone<S(!new)>(slot: Slot<S>, k: Key)
    requires slot.backend.Coherent()
    ensures var (s, r) := slot.Get(k);
      slot.GetMany([k]) == (s, if r.Ok? then Ok([r.value]) else Err)
  {
    assert slot.backend.GetOfOne(slot.tier, k);
    var r := slot.backend.get(slot.tier, k).1;
    if r.Ok? {
      assert [r.value][1..] == [];
      assert Found([r.value]) == if r.value.Some? then 1 else 0;
    }
  }

  lemma {:induction false} ProbesAgree<S(!new)>(slots: seq<Slot<S>>, base: nat, k: Key, e: OnReadError)
    requires Coherent(slots)
    ensures var q := ProbeOne(slots, base, k, e);
      ProbeMany(slots, base, [k], [0], [Miss], e) ==
        if q.hit.Some? then Swept(q.slots, [Hit(q.hit.value.0, q.hit.value.1)], [], q.failures, q.aborted)
        else Swept(q.slots, [Miss], [0], q.failures, q.aborted)
    decreases |slots|
  {
    if slots != [] {
      var keys, pending: seq<nat> := [k], [0];
      assert Pick(keys, pending) == [k];
      GetAlone(slots[0], k);
      var (s, r) := slots[0].Get(k);
      if r.Ok? {
        var found := [r.value];
        assert pending[1..] == [] && found[1..] == [];
        if r.value.Some? {
          assert Mark([Miss], pending, found, base) == [Hit(base, r.value.value)];
          assert Missing(pending, found) == [];
        } else {
          assert Mark([Miss], pending, found, base) == [Miss];
          assert Missing(pending, found) == pending;
          ProbesAgree(slots[1..], base + 1, k, e);
          var f := ProbeOne(slots[1..], base + 1, k, e).failures;
          assert [] + f == f;
        }
      } else if e.FallThrough? {
        ProbesAgree(slots[1..], base + 1, k, e);
      }
    }
  }

  lemma {:induction false} AcceptAlone<S(!new)>(slot: Slot<S>, entry: Entry)
    requires slot.backend.Coherent()
    ensures slot.Accept(Batch([entry])) == slot.Accept(Single(entry))
  {
    assert slot.backend.PutOfOne(slot.tier, entry);
  }

  lemma {:induction false} FillsAgree<S(!new)>(slots: seq<Slot<S>>, target: nat, entry: Entry, demote: bool)
    requires Coherent(slots) && target < |slots|
    ensures Fill(slots, target, Batch([entry]), demote) == Fill(slots, target, Single(entry), demote)
  {
    CoherentAt(slots, target);
    AcceptAlone(slots[target], entry);
  }

  lemma {:induction false} RangesAgree<S(!new)>(slots: seq<Slot<S>>, from: nat, to: nat, entry: Entry, demote: bool)
    requires Coherent(slots) && to <= |slots|
    ensures FillRange(slots, from, to, Batch([entry]), demote) == FillRange(slots, from, to, Single(entry), demote)
    decreases if from < to then to - from else 0
  {
    if from < to {
      FillsAgree(slots, from, entry, demote);
      var f := Fill(slots, from, Single(entry), demote);
      SameCoherent(slots, f.slots);
      RangesAgree(f.slots, from + 1, to, entry, demote);
    }
  }

  /** Batch promotion of one status: nothing, unless a lower tier served it. */
  lemma {:induction false} PromoteOne<S(!new)>(slots: seq<Slot<S>>, from: nat, k: Key, status: KeyStatus, p: Policy)
    requires Coherent(slots)
    requires status.Hit? ==> status.tier < |slots|
    ensures PromoteFrom(slots, from, [k], [status], p) ==
      if status.Hit? && from <= status.tier
      then FillRange(slots, 0, Reach(p.promote, status.tier), Single((k, status.value)), p.demote)
      else Sunk(slots, [], [])
    decreases if from < |slots| then |slots| - from else 0
  {
    if from < |slots| {
      var keys, statuses := [k], [status];
      assert keys[1..] == [] && statuses[1..] == [];
      if status.Hit? && status.tier == from {
        PromoteHere(slots, k, status, p);
        var f := PromoteTier(slots, from, keys, statuses, p);
        PromoteDone(f.slots, from + 1, k, status, p);
        assert f.out + [] == f.out && f.dropped + [] == f.dropped;
      } else {
        assert HitsAt(keys, statuses, from) == [];
        PromoteOne(slots, from + 1, k, status, p);
        var g := PromoteFrom(slots, from + 1, keys, statuses, p);
        assert [] + g.out == g.out && [] + g.dropped == g.dropped;
      }
    }
  }

  lemma {:induction false} PromoteHere<S(!new)>(slots: seq<Slot<S>>, k: Key, status: KeyStatus, p: Policy)
    requires Coherent(slots) && status.Hit? && status.tier < |slots|
    ensures PromoteTier(slots, status.tier, [k], [status], p)
         == FillRange(slots, 0, Reach(p.promote, status.tier), Single((k, status.value)), p.demote)
  {
    var keys, statuses := [k], [status];
    assert keys[1..] == [] && statuses[1..] == [];
    assert HitsAt(keys, statuses, status.tier) == [(k, status.value)];
    RangesAgree(slots, 0, Reach(p.promote, status.tier), (k, status.value), p.demote);
  }

  lemma {:induction false} PromoteDone<S(!new)>(slots: seq<Slot<S>>, from: nat, k: Key, status: KeyStatus, p: Policy)
    requires status.Hit? && status.tier < from
    ensures PromoteFrom(slots, from, [k], [status], p) == Sunk(slots, [], [])
    decreases if from < |slots| then |slots| - from else 0
  {
    if from < |slots| {
      var keys, statuses := [k], [status];
      assert keys[1..] == [] && statuses[1..] == [];
      assert HitsAt(keys, statuses, from) == [];
      PromoteDone(slots, from + 1, k, status, p);
    }
  }

  /** A one-key report as a single read's outcome. */
  function Single1(outcome: Outcome<ReadReport>): Outcome<Option<Value>>
    requires outcome.Done? ==> |outcome.value.statuses| == 1
  {
    if outcome.Fail? then Fail(outcome.error)
    else
      match outcome.value.statuses[0]
      case Hit(_, v) => Done(Some(v))
      case Miss => Done(None)
      case Unknown => Fail(Inconclusive(outcome.value.failures))
  }

  /** The two read paths agree on one key for every stack, policy and fault pattern:
      the same outcome, and the same tiers and counters afterwards. */
  lemma {:induction false} ReadPathsAgree<S(!new)>(slots: seq<Slot<S>>, k: Key, p: Policy)
    requires Coherent(slots)
    ensures var g, m := Get(slots, k, p), ReadMany(slots, [k], p);
      && m.slots == g.slots
      && Single1(m.outcome) == g.outcome
      && m.out == g.out && m.dropped == g.dropped
  {
    var q := ProbeOne(slots, 0, k, p.onReadError);
    SweepOne(slots, k, p);
    SameCoherent(slots, q.slots);
    if q.hit.Some? {
      PromoteOne(q.slots, 0, k, Hit(q.hit.value.0, q.hit.value.1), p);
    } else if !q.aborted {
      PromoteOne(q.slots, 0, k, if q.failures == [] then Miss else Unknown, p);
    }
  }

  /** `read_many` on one key, its probes replaced by single calls. */
  lemma {:induction false} SweepOne<S(!new)>(slots: seq<Slot<S>>, k: Key, p: Policy)
    requires Coherent(slots)
    ensures var q := ProbeOne(slots, 0, k, p.onReadError);
      var status := if q.hit.Some? then Hit(q.hit.value.0, q.hit.value.1) else if q.failures == [] then Miss else Unknown;
      var f := PromoteFrom(q.slots, 0, [k], [status], p);
      ReadMany(slots, [k], p) ==
        if q.aborted then FetchedMany(q.slots, Fail(Tier(q.failures[|q.failures| - 1])), [], [])
        else FetchedMany(f.slots, Done(ReadReport([status], q.failures)), f.out, f.dropped)
  {
    var q := ProbeOne(slots, 0, k, p.onReadError);
    assert seq(|[k]|, i => i) == [0] && seq(|[k]|, i => Miss) == [Miss];
    ProbesAgree(slots, 0, k, p.onReadError);
    if q.hit.Some? {
      assert Blur([Hit(q.hit.value.0, q.hit.value.1)], []) == [Hit(q.hit.value.0, q.hit.value.1)];
    } else {
      assert Blur([Miss], [0]) == [Unknown];
    }
  }
}
