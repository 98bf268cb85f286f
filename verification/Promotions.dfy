/** That promotion happens: which tiers a hit is copied into, by which call, and that
    they then hold it. */
module Promotions {
  import opened Bindings
  import opened Tiers
  import opened Views
  import opened Reads
  import opened Batches
  import opened Blame
  import WriteAnswers
  import ReadAnswers
  import Contract
  import Stack

  /** The policy names tier `i` for a hit at tier `hit`. */
  ghost predicate Named(promote: Promote, hit: nat, i: nat) {
    i < hit && (promote.AllAbove? || (promote.TopOnly? && i == 0))
  }

  /** Filling a tier is its own write; the tiers above are left alone. */
  lemma {:induction false} FillOwn<S(!new)>(slots: seq<Slot<S>>, target: nat, w: Write, demote: bool)
    requires target < |slots|
    ensures var f := Stack.Fill(slots, target, w, demote);
      && f.slots[..target] == slots[..target]
      && (slots[target].writable ==> WriteAnswers.OwnWrite(slots[target], w, f.slots[target]))
  {
    var above, s := slots[..target], slots[target].Accept(w).0;
    WriteAnswers.AcceptIsOwn(slots[target], w);
    var below := Stack.Fill(slots, target, w, demote).slots[target + 1..];
    if slots[target].writable {
      WriteAnswers.Parts(above, s, slots[target + 1..]);
      WriteAnswers.Parts(above, s, Stack.Cascade(slots[target + 1..], if slots[target].Accept(w).1.Ok? then slots[target].Accept(w).1.value else []).slots);
    }
  }

  lemma {:induction false} FillRangeAbove<S(!new)>(slots: seq<Slot<S>>, from: nat, to: nat, w: Write, demote: bool, i: nat)
    requires to <= |slots| && i < from && i < |slots|
    ensures Stack.FillRange(slots, from, to, w, demote).slots[i] == slots[i]
    decreases if from < to then to - from else 0
  {
    if from < to {
      var f := Stack.Fill(slots, from, w, demote).slots;
      FillOwn(slots, from, w, demote);
      assert f[i] == f[..from][i] == slots[..from][i];
      FillRangeAbove(f, from + 1, to, w, demote, i);
    }
  }

  lemma {:induction false} FillRangeSplit<S(!new)>(slots: seq<Slot<S>>, from: nat, mid: nat, to: nat, w: Write, demote: bool)
    requires from <= mid <= to <= |slots|
    ensures var f := Stack.FillRange(slots, from, mid, w, demote);
      Stack.FillRange(slots, from, to, w, demote).slots == Stack.FillRange(f.slots, mid, to, w, demote).slots
    decreases mid - from
  {
    if from < mid {
      FillRangeSplit(Stack.Fill(slots, from, w, demote).slots, from + 1, mid, to, w, demote);
    }
  }

  /** Every tier in the range is written once, in the state the fills above it and their
      demotions left it in, and not touched again. */
  lemma {:induction false} FillRangeOwn<S(!new)>(slots: seq<Slot<S>>, to: nat, w: Write, demote: bool, i: nat)
    requires i < to <= |slots| && slots[i].writable
    ensures WriteAnswers.OwnWrite(Stack.FillRange(slots, 0, i, w, demote).slots[i], w,
                                  Stack.FillRange(slots, 0, to, w, demote).slots[i])
  {
    var f := Stack.FillRange(slots, 0, i, w, demote).slots;
    SameWritable(slots, f, i);
    FillRangeSplit(slots, 0, i, to, w, demote);
    FillOwn(f, i, w, demote);
    FillRangeAbove(Stack.Fill(f, i, w, demote).slots, i + 1, to, w, demote, i);
  }

  lemma {:induction false} SameWritable<S(!new)>(a: seq<Slot<S>>, b: seq<Slot<S>>, i: nat)
    requires Stack.Roles(a) == Stack.Roles(b) && |a| == |b| && i < |a|
    ensures a[i].writable == b[i].writable && a[i].backend == b[i].backend
  {
    assert Stack.Roles(a)[0] == Stack.Roles(b)[0];
    if i > 0 {
      assert Stack.Roles(a)[1..] == Stack.Roles(a[1..]) && Stack.Roles(b)[1..] == Stack.Roles(b[1..]);
      SameWritable(a[1..], b[1..], i - 1);
    }
  }

  /** The tier's own write hands `k` back. */
  ghost predicate HandsBack<S(!new)>(slot: Slot<S>, w: Write, k: Key) {
    var r := slot.backend.Accept(slot.tier, w).1;
    r.Ok? && Bind(r.value, k).Some?
  }

  /** A tier whose own write keeps what it was given then holds it. */
  lemma {:induction false} OwnWriteHolds<S(!new)>(before: Slot<S>, w: Write, after: Slot<S>, k: Key)
    requires before.Sound() && WriteAnswers.OwnWrite(before, w, after)
    requires Bind(w.Entries(), k).Some? && !HandsBack(before, w, k) && before.backend.Accept(before.tier, w).1.Ok?
    ensures after.Held(k) == Bind(w.Entries(), k)
  {
    AcceptAt(before, w, k);
  }

  lemma {:induction false} RefusedFillCounts<S(!new)>(slots: seq<Slot<S>>, target: nat, w: Write, demote: bool)
    requires target < |slots| && WriteAnswers.Refuses(slots[target], w)
    ensures Errors(Stack.Fill(slots, target, w, demote).slots) == Errors(slots) + 1
  {
    var above, s, below := slots[..target], slots[target].Accept(w).0, slots[target + 1..];
    Stack.Around(slots, target);
    ErrorsAround(above, slots[target], below);
    ErrorsAround(above, s, below);
  }

  lemma {:induction false} FirstFillCounts<S(!new)>(slots: seq<Slot<S>>, i: nat, to: nat, w: Write, demote: bool)
    requires Sound(slots) && i < to <= |slots|
    ensures var g := Stack.Fill(slots, i, w, demote).slots;
      Errors(Stack.FillRange(slots, i, to, w, demote).slots) >= Errors(g) >= Errors(slots)
  {
    FillKeeps(slots, i, w, demote);
    FillRangeKeeps(Stack.Fill(slots, i, w, demote).slots, i + 1, to, w, demote);
  }

  /** A promotion of a sound stack that counts no error. */
  ghost predicate Clean<S(!new)>(slots: seq<Slot<S>>, to: nat, w: Write, demote: bool)
    requires to <= |slots|
  {
    Sound(slots) && Errors(Stack.FillRange(slots, 0, to, w, demote).slots) == Errors(slots)
  }

  /** None of its steps counts one. */
  lemma {:induction false} CleanSteps<S(!new)>(slots: seq<Slot<S>>, to: nat, w: Write, demote: bool, i: nat)
    requires i < to <= |slots| && Clean(slots, to, w, demote)
    ensures var f := Stack.FillRange(slots, 0, i, w, demote).slots;
      Sound(f) && Errors(Stack.Fill(f, i, w, demote).slots) == Errors(f)
  {
    FillRangeKeeps(slots, 0, i, w, demote);
    FillRangeSplit(slots, 0, i, to, w, demote);
    FirstFillCounts(Stack.FillRange(slots, 0, i, w, demote).slots, i, to, w, demote);
  }

  lemma {:induction false} NoneRefuses<S(!new)>(slots: seq<Slot<S>>, to: nat, w: Write, demote: bool, i: nat)
    requires i < to <= |slots| && Clean(slots, to, w, demote)
    ensures var f := Stack.FillRange(slots, 0, i, w, demote).slots;
      Sound(f) && !WriteAnswers.Refuses(f[i], w)
  {
    var f := Stack.FillRange(slots, 0, i, w, demote).slots;
    CleanSteps(slots, to, w, demote, i);
    if WriteAnswers.Refuses(f[i], w) {
      RefusedFillCounts(f, i, w, demote);
    }
  }

  /** A promotion that counts no error leaves every writable tier of the range holding
      the copy, unless the tier handed it straight back. */
  lemma {:induction false} FillRangeHolds<S(!new)>(slots: seq<Slot<S>>, to: nat, w: Write, demote: bool, i: nat, k: Key)
    requires i < to <= |slots| && Clean(slots, to, w, demote) && slots[i].writable && Bind(w.Entries(), k).Some?
    requires !HandsBack(Stack.FillRange(slots, 0, i, w, demote).slots[i], w, k)
    ensures Stack.FillRange(slots, 0, to, w, demote).slots[i].Held(k) == Bind(w.Entries(), k)
  {
    var f := Stack.FillRange(slots, 0, i, w, demote).slots;
    NoneRefuses(slots, to, w, demote, i);
    SameWritable(slots, f, i);
    Contract.SoundAt(f, i);
    FillRangeOwn(slots, to, w, demote, i);
    OwnWriteHolds(f[i], w, Stack.FillRange(slots, 0, to, w, demote).slots[i], k);
  }

  // ----------------------------------------------------------------- one key

  /** Tier `hit` decides the read of `k`, with value `v`. */
  ghost predicate HitAt<S(!new)>(slots: seq<Slot<S>>, k: Key, e: OnReadError, hit: nat, v: Value) {
    var replies := ReadAnswers.GetReplies(slots, k);
    hit == ReadAnswers.First(replies, e) && hit < |slots| && replies[hit] == Ok(Some(v))
  }

  lemma {:induction false} HitProbed<S(!new)>(slots: seq<Slot<S>>, k: Key, p: Policy, hit: nat, v: Value)
    requires HitAt(slots, k, p.onReadError, hit, v)
    ensures var q := Stack.ProbeOne(slots, 0, k, p.onReadError);
      && q.hit == Some((hit, v))
      && Stack.Get(slots, k, p).slots == Stack.FillRange(q.slots, 0, Reach(p.promote, hit), Single((k, v)), p.demote).slots
  {
    ReadAnswers.ProbeOneTells(slots, 0, k, p.onReadError);
  }

  /** A hit below the top under a promoting policy is written into a writable top
      tier by one `put` on the state the probe left, and counted there. */
  lemma {:induction false} GetWritesTop<S(!new)>(slots: seq<Slot<S>>, k: Key, p: Policy, hit: nat, v: Value)
    requires HitAt(slots, k, p.onReadError, hit, v)
    requires slots[0].writable && hit > 0 && !p.promote.Never?
    ensures var top, final := slots[0], Stack.Get(slots, k, p).slots[0];
      var (s, r) := top.backend.put(top.backend.get(top.tier, k).0, k, v);
      final.tier == s && final.counters.puts == top.counters.puts + (if r.Ok? then 1 else 0)
  {
    var q := Stack.ProbeOne(slots, 0, k, p.onReadError);
    HitProbed(slots, k, p, hit, v);
    ReadAnswers.ProbeOneAsks(slots, 0, k, p.onReadError);
    FillRangeOwn(q.slots, Reach(p.promote, hit), Single((k, v)), p.demote, 0);
  }

  /** The stack as the promotion of `k` finds it when it comes to tier `i`. */
  ghost function Reached<S(!new)>(slots: seq<Slot<S>>, k: Key, v: Value, p: Policy, i: nat): (r: seq<Slot<S>>)
    requires i < |slots|
    ensures |r| == |slots|
  {
    Stack.FillRange(Stack.ProbeOne(slots, 0, k, p.onReadError).slots, 0, i, Single((k, v)), p.demote).slots
  }

  /** A hit is written into every writable tier the policy names, each by its own call. */
  lemma {:induction false} GetWritesNamed<S(!new)>(slots: seq<Slot<S>>, k: Key, p: Policy, hit: nat, v: Value, i: nat)
    requires HitAt(slots, k, p.onReadError, hit, v)
    requires Named(p.promote, hit, i) && slots[i].writable
    ensures WriteAnswers.OwnWrite(Reached(slots, k, v, p, i)[i], Single((k, v)), Stack.Get(slots, k, p).slots[i])
  {
    var q := Stack.ProbeOne(slots, 0, k, p.onReadError);
    HitProbed(slots, k, p, hit, v);
    SameWritable(slots, q.slots, i);
    FillRangeOwn(q.slots, Reach(p.promote, hit), Single((k, v)), p.demote, i);
  }

  lemma {:induction false} CleanHit<S(!new)>(slots: seq<Slot<S>>, k: Key, p: Policy, hit: nat, v: Value)
    requires Sound(slots) && HitAt(slots, k, p.onReadError, hit, v)
    requires Errors(Stack.Get(slots, k, p).slots) == Errors(slots)
    ensures var q := Stack.ProbeOne(slots, 0, k, p.onReadError).slots;
      var f := Stack.FillRange(q, 0, Reach(p.promote, hit), Single((k, v)), p.demote).slots;
      Stack.Get(slots, k, p).slots == f && Clean(q, Reach(p.promote, hit), Single((k, v)), p.demote)
  {
    var q := Stack.ProbeOne(slots, 0, k, p.onReadError).slots;
    HitProbed(slots, k, p, hit, v);
    ProbeKeeps(slots, 0, k, p.onReadError);
    FillRangeKeeps(q, 0, Reach(p.promote, hit), Single((k, v)), p.demote);
  }

  lemma {:induction false} PromotedHeld<S(!new)>(slots: seq<Slot<S>>, k: Key, p: Policy, to: nat, v: Value, i: nat)
    requires i < to <= |slots| && slots[i].writable
    requires Clean(Stack.ProbeOne(slots, 0, k, p.onReadError).slots, to, Single((k, v)), p.demote)
    requires !HandsBack(Reached(slots, k, v, p, i)[i], Single((k, v)), k)
    ensures Stack.FillRange(Stack.ProbeOne(slots, 0, k, p.onReadError).slots, 0, to, Single((k, v)), p.demote).slots[i].Held(k) == Some(v)
  {
    var q := Stack.ProbeOne(slots, 0, k, p.onReadError).slots;
    SameWritable(slots, q, i);
    CopyHeld(q, to, k, v, p.demote, i);
  }

  /** After a read that counts no error, every writable tier the policy names holds the
      value read, unless the tier handed it straight back. */
  lemma {:induction false} GetPromotes<S(!new)>(slots: seq<Slot<S>>, k: Key, p: Policy, hit: nat, v: Value, i: nat)
    requires Sound(slots) && HitAt(slots, k, p.onReadError, hit, v)
    requires Named(p.promote, hit, i) && slots[i].writable
    requires Errors(Stack.Get(slots, k, p).slots) == Errors(slots)
    requires !HandsBack(Reached(slots, k, v, p, i)[i], Single((k, v)), k)
    ensures Stack.Get(slots, k, p).slots[i].Held(k) == Some(v)
  {
    CleanHit(slots, k, p, hit, v);
    PromotedHeld(slots, k, p, Reach(p.promote, hit), v, i);
  }

  lemma {:induction false} CopyHeld<S(!new)>(slots: seq<Slot<S>>, to: nat, k: Key, v: Value, demote: bool, i: nat)
    requires i < to <= |slots| && Clean(slots, to, Single((k, v)), demote) && slots[i].writable
    requires !HandsBack(Stack.FillRange(slots, 0, i, Single((k, v)), demote).slots[i], Single((k, v)), k)
    ensures Stack.FillRange(slots, 0, to, Single((k, v)), demote).slots[i].Held(k) == Some(v)
  {
    BindOne((k, v), k);
    FillRangeHolds(slots, to, Single((k, v)), demote, i, k);
  }

  // ------------------------------------------------------------------ batches

  ghost predicate IsHit(status: Stack.KeyStatus, tier: nat) {
    status.Hit? && status.tier == tier
  }

  ghost function Flags(statuses: seq<Stack.KeyStatus>, tier: nat): (flags: seq<bool>)
    ensures |flags| == |statuses|
    ensures forall j :: 0 <= j < |flags| ==> flags[j] == IsHit(statuses[j], tier)
  {
    if statuses == [] then [] else [IsHit(statuses[0], tier)] + Flags(statuses[1..], tier)
  }

  /** Where in the report a tier's hits stand. */
  ghost function Places(statuses: seq<Stack.KeyStatus>, tier: nat, base: nat): seq<nat> {
    if statuses == [] then []
    else (if IsHit(statuses[0], tier) then [base] else []) + Places(statuses[1..], tier, base + 1)
  }

  lemma {:induction false} PlacesNamed(statuses: seq<Stack.KeyStatus>, tier: nat, base: nat)
    ensures Names(Places(statuses, tier, base), base, Flags(statuses, tier))
  {
    if statuses != [] {
      PlacesNamed(statuses[1..], tier, base + 1);
      NamesOne(Places(statuses[1..], tier, base + 1), base, Flags(statuses, tier));
    }
  }

  /** The entry a place of the report stands for. */
  ghost predicate Stands(entry: Entry, place: int, keys: seq<Key>, statuses: seq<Stack.KeyStatus>)
    requires |keys| == |statuses|
  {
    0 <= place < |keys| && statuses[place].Hit? && entry == (keys[place], statuses[place].value)
  }

  /** A tier's share of a batch is exactly its hits, in request order. */
  lemma {:induction false} HitsListed(keys: seq<Key>, statuses: seq<Stack.KeyStatus>, tier: nat, base: nat, i: nat)
    requires |keys| == |statuses|
    ensures var entries, places := Stack.HitsAt(keys, statuses, tier), Places(statuses, tier, base);
      && |entries| == |places|
      && Names(places, base, Flags(statuses, tier))
      && (i < |entries| ==> Stands(entries[i], places[i] - base, keys, statuses))
  {
    PlacesNamed(statuses, tier, base);
    if keys != [] {
      var n := if IsHit(statuses[0], tier) then 1 else 0;
      HitsListed(keys[1..], statuses[1..], tier, base + 1, if i >= n then i - n else 0);
    }
  }

  /** A tier after a run of batched writes of its own. */
  ghost predicate OwnBatches<S(!new)>(before: Slot<S>, batches: seq<seq<Entry>>, after: Slot<S>)
    decreases |batches|
  {
    if batches == [] then after == before
    else exists next :: WriteAnswers.OwnWrite(before, Batch(batches[0]), next) && OwnBatches(next, batches[1..], after)
  }

  /** What each tier from `from` down served, where it served something. */
  ghost function SharesBelow(tiers: nat, from: nat, keys: seq<Key>, statuses: seq<Stack.KeyStatus>): seq<seq<Entry>>
    requires |keys| == |statuses|
    decreases if from < tiers then tiers - from else 0
  {
    if from >= tiers then []
    else
      var entries := Stack.HitsAt(keys, statuses, from);
      (if entries == [] then [] else [entries]) + SharesBelow(tiers, from + 1, keys, statuses)
  }

  /** A batched promotion writes a writable top tier once for every tier below it that
      served something, nearest tier first, with exactly what it served. */
  lemma {:induction false} PromoteFromTop<S(!new)>(slots: seq<Slot<S>>, from: nat, keys: seq<Key>, statuses: seq<Stack.KeyStatus>, p: Policy)
    requires |keys| == |statuses| && slots != [] && slots[0].writable && from > 0 && !p.promote.Never?
    ensures OwnBatches(slots[0], SharesBelow(|slots|, from, keys, statuses), Stack.PromoteFrom(slots, from, keys, statuses, p).slots[0])
    decreases if from < |slots| then |slots| - from else 0
  {
    if from < |slots| {
      var entries := Stack.HitsAt(keys, statuses, from);
      var f := Stack.PromoteTier(slots, from, keys, statuses, p).slots;
      SameWritable(slots, f, 0);
      PromoteFromTop(f, from + 1, keys, statuses, p);
      var rest := SharesBelow(|slots|, from + 1, keys, statuses);
      if entries == [] {
        assert [] + rest == rest;
      } else {
        FillRangeOwn(slots, Reach(p.promote, from), Batch(entries), p.demote, 0);
        assert ([entries] + rest)[1..] == rest;
      }
    }
  }

  /** A batched read that reports leaves a writable top tier as its own batched read and
      then its own batched writes leave it: one for every lower tier that served some of
      the keys. */
  lemma {:induction false} ReadManyWritesTop<S(!new)>(slots: seq<Slot<S>>, keys: seq<Key>, p: Policy)
    requires slots != [] && slots[0].writable && keys != [] && !p.promote.Never?
    requires Stack.ReadMany(slots, keys, p).outcome.Done?
    ensures var f := Stack.ReadMany(slots, keys, p);
      OwnBatches(slots[0].GetMany(keys).0, SharesBelow(|slots|, 1, keys, f.outcome.value.statuses), f.slots[0])
  {
    var all, none := seq(|keys|, i => i), seq(|keys|, i => Stack.Miss);
    var q := Stack.ProbeMany(slots, 0, keys, all, none, p.onReadError);
    var statuses := Stack.ReadMany(slots, keys, p).outcome.value.statuses;
    assert Stack.Pick(keys, all) == keys;
    assert Stack.PromoteTier(q.slots, 0, keys, statuses, p).slots == q.slots;
    SameWritable(slots, q.slots, 0);
    PromoteFromTop(q.slots, 1, keys, statuses, p);
  }

  /** One tier's share of a batch: without error, every writable tier the policy names
      then holds every key that tier served, unless it handed the key straight back. */
  lemma {:induction false} BatchPromotes<S(!new)>(slots: seq<Slot<S>>, tier: nat, keys: seq<Key>, statuses: seq<Stack.KeyStatus>,
                                                  p: Policy, i: nat, j: nat)
    requires Sound(slots) && |keys| == |statuses| && tier < |slots| && j < |keys|
    requires IsHit(statuses[j], tier) && Named(p.promote, tier, i) && slots[i].writable
    requires forall m :: 0 <= m < |keys| && keys[m] == keys[j] && IsHit(statuses[m], tier) ==> statuses[m] == statuses[j]
    requires Errors(Stack.PromoteTier(slots, tier, keys, statuses, p).slots) == Errors(slots)
    requires var w := Batch(Stack.HitsAt(keys, statuses, tier));
      !HandsBack(Stack.FillRange(slots, 0, i, w, p.demote).slots[i], w, keys[j])
    ensures Stack.PromoteTier(slots, tier, keys, statuses, p).slots[i].Held(keys[j]) == Some(statuses[j].value)
  {
    var w := Batch(Stack.HitsAt(keys, statuses, tier));
    HitBound(keys, statuses, tier, j);
    HitsAtBind(keys, statuses, tier, keys[j]);
    FillRangeHolds(slots, Reach(p.promote, tier), w, p.demote, i, keys[j]);
  }

  lemma {:induction false} HitBound(keys: seq<Key>, statuses: seq<Stack.KeyStatus>, tier: nat, j: nat)
    requires |keys| == |statuses| && j < |keys| && IsHit(statuses[j], tier)
    ensures Bind(Stack.HitsAt(keys, statuses, tier), keys[j]).Some?
  {
    var rest := Stack.HitsAt(keys[1..], statuses[1..], tier);
    var here := if statuses[0].Hit? && statuses[0].tier == tier then [(keys[0], statuses[0].value)] else [];
    assert Stack.HitsAt(keys, statuses, tier) == here + rest;
    BindConcat(here, rest, keys[j]);
    if j == 0 {
      BindOne(here[0], keys[0]);
    } else {
      HitBound(keys[1..], statuses[1..], tier, j - 1);
    }
  }
}
