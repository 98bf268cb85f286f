/** A router over reliable tiers is itself a reliable tier that meets the contract, so
    the theorems that ask of their tiers no more than that apply to stacks of routers. */
module Nested {
  import opened Bindings
  import opened Tiers
  import opened Views
  import opened Reads
  import opened Batches
  import opened Contract
  import opened Runs
  import Stack

  ghost predicate Reliable<S(!new)>(slots: seq<Slot<S>>) {
    slots == [] || (slots[0].backend.Reliable() && Reliable(slots[1..]))
  }

  lemma {:induction false} SameReliable<S(!new)>(a: seq<Slot<S>>, b: seq<Slot<S>>)
    requires Stack.Roles(a) == Stack.Roles(b)
    ensures Reliable(a) == Reliable(b)
  {
    if a != [] {
      assert Stack.Roles(a)[0] == Stack.Roles(b)[0];
      assert Stack.Roles(a)[1..] == Stack.Roles(a[1..]) && Stack.Roles(b)[1..] == Stack.Roles(b[1..]);
      SameReliable(a[1..], b[1..]);
    }
  }

  // ---------------------------------------- reliable tiers never count an error

  lemma {:induction false} PourReliable<S(!new)>(slot: Slot<S>, entries: seq<Entry>)
    requires slot.Sound() && slot.backend.Reliable()
    ensures Stack.Pour(slot, entries).dropped == []
    decreases |entries|
  {
    if entries != [] {
      assert slot.backend.WriteOk(slot.tier, Single(entries[0]));
      PourReliable(slot.Accept(Single(entries[0])).0, entries[1..]);
    }
  }

  lemma {:induction false} CascadeReliable<S(!new)>(below: seq<Slot<S>>, entries: Displaced)
    requires Sound(below) && Reliable(below)
    ensures Stack.Cascade(below, entries).dropped == []
  {
    if below != [] && entries != [] {
      if below[0].writable {
        PourReliable(below[0], entries);
        CascadeReliable(below[1..], Stack.Pour(below[0], entries).next);
      } else {
        CascadeReliable(below[1..], entries);
      }
    }
  }

  lemma {:induction false} WriteThroughReliable<S(!new)>(slots: seq<Slot<S>>, w: Write, p: Policy)
    requires Sound(slots) && Reliable(slots)
    ensures var r := Stack.WriteThrough(slots, w, p);
      r.dropped == [] && r.rejected == 0 && r.aborted == None
  {
    if slots != [] {
      var b := Stack.WriteThrough(slots[1..], w, p);
      WriteThroughReliable(slots[1..], w, p);
      WriteThroughKeeps(slots[1..], w, p);
      SameReliable(slots[1..], b.slots);
      if slots[0].writable && p.demote {
        CascadeReliable(b.slots, slots[0].Accept(w).1.value);
      }
    }
  }

  lemma {:induction false} InvalidateReliable<S(!new)>(slots: seq<Slot<S>>, base: nat, w: Write)
    requires Sound(slots) && Reliable(slots)
    ensures Stack.Invalidate(slots, base, w).failures == []
    decreases |slots|
  {
    if slots != [] {
      InvalidateReliable(slots[1..], base + 1, w);
    }
  }

  lemma {:induction false} ReliableAt<S(!new)>(slots: seq<Slot<S>>, i: nat)
    requires Reliable(slots) && i < |slots|
    ensures slots[i].backend.Reliable() && Reliable(slots[..i]) && Reliable(slots[i + 1..])
  {
    if i == 0 {
    } else {
      ReliableAt(slots[1..], i - 1);
      assert slots[..i][1..] == slots[1..][..i - 1] && slots[i + 1..] == slots[1..][i..];
    }
  }

  lemma {:induction false} WriteReliable<S(!new)>(slots: seq<Slot<S>>, w: Write, p: Policy)
    requires Sound(slots) && Reliable(slots)
    ensures Errors(Stack.Write(slots, w, p).slots) == Errors(slots)
  {
    if p.write.Around? {
      WriteAroundKeeps(slots, w);
      var b := Stack.Bottom(slots);
      if b.Some? {
        SoundAt(slots, b.value);
        ReliableAt(slots, b.value);
        Stack.Around(slots, b.value);
        ErrorsAround(slots[..b.value], slots[b.value], slots[b.value + 1..]);
        InvalidateReliable(slots[..b.value], 0, w);
      }
    } else {
      WriteThroughReliable(slots, w, p);
      WriteThroughKeeps(slots, w, p);
    }
  }

  lemma {:induction false} ProbeReliable<S(!new)>(slots: seq<Slot<S>>, base: nat, k: Key, e: OnReadError)
    requires Sound(slots) && Reliable(slots)
    ensures Stack.ProbeOne(slots, base, k, e).failures == []
    ensures Stack.ProbeHas(slots, base, k, e).failures == []
    decreases |slots|
  {
    if slots != [] {
      ProbeReliable(slots[1..], base + 1, k, e);
    }
  }

  lemma {:induction false} FillReliable<S(!new)>(slots: seq<Slot<S>>, target: nat, w: Write, demote: bool)
    requires Sound(slots) && Reliable(slots) && target < |slots|
    ensures Errors(Stack.Fill(slots, target, w, demote).slots) == Errors(slots)
  {
    var above, x, below := slots[..target], slots[target], slots[target + 1..];
    Stack.Around(slots, target);
    ErrorsAround(above, x, below);
    ReliableAt(slots, target);
    var (s, r) := x.Accept(w);
    ErrorsAround(above, s, below);
    CascadeReliable(below, r.value);
    CascadeErrors(below, r.value);
    ErrorsAround(above, s, Stack.Cascade(below, r.value).slots);
  }

  lemma {:induction false} FillRangeReliable<S(!new)>(slots: seq<Slot<S>>, from: nat, to: nat, w: Write, demote: bool)
    requires Sound(slots) && Reliable(slots) && to <= |slots|
    ensures Errors(Stack.FillRange(slots, from, to, w, demote).slots) == Errors(slots)
    decreases if from < to then to - from else 0
  {
    if from < to {
      var f := Stack.Fill(slots, from, w, demote);
      FillReliable(slots, from, w, demote);
      FillKeeps(slots, from, w, demote);
      SameReliable(slots, f.slots);
      FillRangeReliable(f.slots, from + 1, to, w, demote);
    }
  }

  lemma {:induction false} GetReliable<S(!new)>(slots: seq<Slot<S>>, k: Key, p: Policy)
    requires Sound(slots) && Reliable(slots)
    ensures Errors(Stack.Get(slots, k, p).slots) == Errors(slots)
  {
    var q := Stack.ProbeOne(slots, 0, k, p.onReadError);
    ProbeKeeps(slots, 0, k, p.onReadError);
    ProbeReliable(slots, 0, k, p.onReadError);
    SameReliable(slots, q.slots);
    if q.hit.Some? {
      FillRangeReliable(q.slots, 0, Reach(p.promote, q.hit.value.0), Single((k, q.hit.value.1)), p.demote);
    }
  }

  lemma {:induction false} ProbeManyReliable<S(!new)>(slots: seq<Slot<S>>, base: nat, keys: seq<Key>, pending: seq<nat>,
                                                      statuses: seq<Stack.KeyStatus>, e: OnReadError)
    requires Sound(slots) && Reliable(slots) && |statuses| == |keys| && Stack.Within(pending, |keys|)
    ensures var q := Stack.ProbeMany(slots, base, keys, pending, statuses, e);
      q.failures == [] && !q.aborted
    decreases |slots|
  {
    if slots != [] && pending != [] {
      var r := slots[0].GetMany(Stack.Pick(keys, pending)).1;
      ProbeManyReliable(slots[1..], base + 1, keys, Stack.Missing(pending, r.value),
                        Stack.Mark(statuses, pending, r.value, base), e);
    }
  }

  lemma {:induction false} PromoteFromReliable<S(!new)>(slots: seq<Slot<S>>, from: nat, keys: seq<Key>,
                                                        statuses: seq<Stack.KeyStatus>, p: Policy)
    requires Sound(slots) && Reliable(slots) && |keys| == |statuses|
    ensures Errors(Stack.PromoteFrom(slots, from, keys, statuses, p).slots) == Errors(slots)
    decreases if from < |slots| then |slots| - from else 0
  {
    if from < |slots| {
      var f := Stack.PromoteTier(slots, from, keys, statuses, p);
      FillRangeReliable(slots, 0, Reach(p.promote, from), Batch(Stack.HitsAt(keys, statuses, from)), p.demote);
      PromoteTierKeeps(slots, from, keys, statuses, p);
      SameReliable(slots, f.slots);
      PromoteFromReliable(f.slots, from + 1, keys, statuses, p);
    }
  }

  lemma {:induction false} ReadManyReliable<S(!new)>(slots: seq<Slot<S>>, keys: seq<Key>, p: Policy)
    requires Sound(slots) && Reliable(slots)
    ensures Errors(Stack.ReadMany(slots, keys, p).slots) == Errors(slots)
  {
    var all, none := seq(|keys|, i => i), seq(|keys|, i => Stack.Miss);
    var q := Stack.ProbeMany(slots, 0, keys, all, none, p.onReadError);
    ProbeManyReliable(slots, 0, keys, all, none, p.onReadError);
    ProbeManyKeeps(slots, 0, keys, all, none, p.onReadError);
    SameReliable(slots, q.slots);
    PromoteFromReliable(q.slots, 0, keys, q.statuses, p);
  }

  lemma {:induction false} DeleteReliable<S(!new)>(slots: seq<Slot<S>>, base: nat, k: Key)
    requires Sound(slots) && Reliable(slots)
    ensures Stack.DeleteFrom(slots, base, k).failures == []
    decreases |slots|
  {
    if slots != [] {
      DeleteReliable(slots[1..], base + 1, k);
    }
  }

  lemma {:induction false} RemoveReliable<S(!new)>(slots: seq<Slot<S>>, base: nat, keys: seq<Key>, removed: seq<bool>)
    requires Sound(slots) && Reliable(slots) && |removed| == |keys|
    ensures Stack.RemoveFrom(slots, base, keys, removed).report.failures == []
    decreases |slots|
  {
    if slots != [] {
      if !slots[0].writable {
        RemoveReliable(slots[1..], base + 1, keys, removed);
      } else {
        RemoveReliable(slots[1..], base + 1, keys, Stack.OrFlags(removed, slots[0].DeleteMany(keys).1.value));
      }
    }
  }

  // ------------------------------------------------------- the router as a tier

  function Answered<T>(outcome: Stack.Outcome<T>): Result<T> {
    if outcome.Done? then Ok(outcome.value) else Err
  }

  /** The states of an inner router that can serve as a tier: reliable writable
      tiers; `roomy` when its own bottom tier never overflows. */
  ghost predicate Fit<S(!new)>(slots: seq<Slot<S>>, roomy: bool) {
    slots != [] && Sound(slots) && AllWritable(slots) && Reliable(slots) && (roomy ==> RoomyBottom(slots))
  }

  /** The tier interface of a router with policy `p`. */
  ghost function AsTier<S(!new)>(p: Policy, roomy: bool): Backend<seq<Slot<S>>> {
    Backend(
      (slots: seq<Slot<S>>) => Fit(slots, roomy),
      (slots: seq<Slot<S>>) => View(slots),
      (slots: seq<Slot<S>>, k: Key) => var f := Stack.Get(slots, k, p); (f.slots, Answered(f.outcome)),
      (slots: seq<Slot<S>>, k: Key) => var u := Stack.Exists(slots, k, p); (u.slots, Answered(u.outcome)),
      (slots: seq<Slot<S>>, k: Key, v: Tiers.Value) => var u := Stack.Write(slots, Single((k, v)), p); (u.slots, Answered(u.outcome)),
      (slots: seq<Slot<S>>, k: Key) => var u := Stack.Delete(slots, k); (u.slots, Answered(u.outcome)),
      (slots: seq<Slot<S>>, ks: seq<Key>) => var u := Stack.GetMany(slots, ks, p); (u.slots, Answered(u.outcome)),
      (slots: seq<Slot<S>>, es: seq<Entry>) => var u := Stack.Write(slots, Batch(es), p); (u.slots, Answered(u.outcome)),
      (slots: seq<Slot<S>>, ks: seq<Key>) => var u := Stack.DeleteMany(slots, ks); (u.slots, Answered(u.outcome)))
  }

  lemma {:induction false} FitKept<S(!new)>(slots: seq<Slot<S>>, after: seq<Slot<S>>, roomy: bool)
    requires Fit(slots, roomy) && Sound(after) && |after| == |slots| && Stack.Roles(after) == Stack.Roles(slots)
    ensures Fit(after, roomy)
  {
    SameRoles(slots, after);
    SameReliable(slots, after);
    SameBottom(slots, after);
  }

  lemma {:induction false} TierWrites<S(!new)>(slots: seq<Slot<S>>, w: Write, p: Policy, roomy: bool)
    requires Fit(slots, roomy) && p.demote
    ensures var u := Stack.Write(slots, w, p);
      && Fit(u.slots, roomy)
      && u.outcome.Done? && Accepted(View(slots), w.Entries(), View(u.slots), u.outcome.value)
      && (roomy ==> u.outcome.value == [])
  {
    var u := Stack.Write(slots, w, p);
    WriteReliable(slots, w, p);
    WriteKeeps(slots, w, p);
    NothingLostQuietly(slots, w, p);
    FitKept(slots, u.slots, roomy);
    if roomy {
      WriteRoomy(slots, w, p);
    }
  }

  /** Without room at the bottom a read must not promote, or it could push entries
      out of the router unseen. */
  lemma {:induction false} TierGets<S(!new)>(slots: seq<Slot<S>>, k: Key, p: Policy, roomy: bool)
    requires Fit(slots, roomy) && p.demote && (roomy || p.promote.Never?)
    ensures var f := Stack.Get(slots, k, p);
      && Fit(f.slots, roomy)
      && f.outcome == Stack.Done(Lookup(View(slots), k)) && View(f.slots) == View(slots)
  {
    var f := Stack.Get(slots, k, p);
    GetReliable(slots, k, p);
    GetKeeps(slots, k, p);
    FitKept(slots, f.slots, roomy);
    AllWritableAbove(slots);
    if roomy {
      GetRoomy(slots, k, p);
    }
    GetAt(slots, k, p, k);
    ViewAt(slots, k);
    forall x ensures Over(f.slots, [], x) == Top(slots, x) {
      GetAt(slots, k, p, x);
    }
    SameShown(slots, f.slots);
  }

  lemma {:induction false} SilentReadMany<S(!new)>(slots: seq<Slot<S>>, keys: seq<Key>, p: Policy)
    requires (Holds(slots) && p.demote) || p.promote.Never?
    ensures Stack.ReadMany(slots, keys, p).out == []
  {
    var all, none := seq(|keys|, i => i), seq(|keys|, i => Stack.Miss);
    var q := Stack.ProbeMany(slots, 0, keys, all, none, p.onReadError);
    if p.promote.Never? {
      Stack.PromoteNever(q.slots, 0, keys, if q.failures == [] then q.statuses else Stack.Blur(q.statuses, q.pending), p);
    } else {
      ReadManyRoomy(slots, keys, p);
    }
  }

  lemma {:induction false} TierGetsMany<S(!new)>(slots: seq<Slot<S>>, keys: seq<Key>, p: Policy, roomy: bool)
    requires Fit(slots, roomy) && p.demote && (roomy || p.promote.Never?)
    ensures var u := Stack.GetMany(slots, keys, p);
      && Fit(u.slots, roomy)
      && View(u.slots) == View(slots)
      && u.outcome == Stack.Done(seq(|keys|, i requires 0 <= i < |keys| => Lookup(View(slots), keys[i])))
  {
    var f := Stack.ReadMany(slots, keys, p);
    ReadManyReliable(slots, keys, p);
    ReadManyKeeps(slots, keys, p);
    FitKept(slots, f.slots, roomy);
    SilentReadMany(slots, keys, p);
    NoneUnknown(slots, keys, p);
    AnswersShown(slots, keys, f.outcome.value.statuses);
    AllWritableAbove(slots);
    forall x ensures Over(f.slots, [], x) == Top(slots, x) {
      ReadManyAt(slots, keys, p, x);
    }
    SameShown(slots, f.slots);
  }

  lemma {:induction false} AnswersShown<S(!new)>(slots: seq<Slot<S>>, keys: seq<Key>, statuses: seq<Stack.KeyStatus>)
    requires |statuses| == |keys|
    requires forall i :: 0 <= i < |keys| ==> Stack.Answer(statuses[i]) == Top(slots, keys[i])
    ensures Stack.Answers(statuses) == seq(|keys|, i requires 0 <= i < |keys| => Lookup(View(slots), keys[i]))
  {
    forall i | 0 <= i < |keys| ensures Stack.Answers(statuses)[i] == Lookup(View(slots), keys[i]) {
      ViewAt(slots, keys[i]);
    }
  }

  lemma {:induction false} NoneUnknown<S(!new)>(slots: seq<Slot<S>>, keys: seq<Key>, p: Policy)
    requires Sound(slots) && Errors(Stack.ReadMany(slots, keys, p).slots) == Errors(slots)
    ensures var f := Stack.ReadMany(slots, keys, p);
      && f.outcome.Done? && Stack.Unknown !in f.outcome.value.statuses
      && (forall i :: 0 <= i < |keys| ==> Stack.Answer(f.outcome.value.statuses[i]) == Top(slots, keys[i]))
  {
    ReadManyClean(slots, keys, p);
    TrueAnswers(slots, keys, p);
    HonestStatuses(slots, keys, p);
    var statuses := Stack.ReadMany(slots, keys, p).outcome.value.statuses;
    forall j | 0 <= j < |statuses| ensures statuses[j] != Stack.Unknown {
      assert statuses[j] == Status(slots, [], keys[j]);
    }
  }

  lemma {:induction false} TierDeletes<S(!new)>(slots: seq<Slot<S>>, k: Key, roomy: bool)
    requires Fit(slots, roomy)
    ensures var u := Stack.Delete(slots, k);
      && Fit(u.slots, roomy)
      && u.outcome == Stack.Done(k in View(slots)) && View(u.slots) == View(slots) - {k}
  {
    DeleteReliable(slots, 0, k);
    DeleteKeeps(slots, 0, k);
    DeleteRefines(slots, k);
    FitKept(slots, Stack.Delete(slots, k).slots, roomy);
  }

  lemma {:induction false} TierDeletesMany<S(!new)>(slots: seq<Slot<S>>, keys: seq<Key>, roomy: bool)
    requires Fit(slots, roomy)
    ensures var u := Stack.DeleteMany(slots, keys);
      && Fit(u.slots, roomy)
      && View(u.slots) == View(slots) - (set k | k in keys)
      && u.outcome == Stack.Done(seq(|keys|, i requires 0 <= i < |keys| => keys[i] in View(slots) && keys[i] !in keys[..i]))
  {
    var none := seq(|keys|, i => false);
    RemoveReliable(slots, 0, keys, none);
    RemoveKeeps(slots, 0, keys, none);
    RemoveRefines(slots, keys);
    FitKept(slots, Stack.DeleteMany(slots, keys).slots, roomy);
  }

  lemma {:induction false} TierChecks<S(!new)>(slots: seq<Slot<S>>, k: Key, p: Policy, roomy: bool)
    requires Fit(slots, roomy)
    ensures var u := Stack.Exists(slots, k, p);
      && Fit(u.slots, roomy)
      && u.outcome == Stack.Done(k in View(slots)) && View(u.slots) == View(slots)
  {
    ProbeReliable(slots, 0, k, p.onReadError);
    ProbeHasKeeps(slots, 0, k, p.onReadError, k);
    ExistsRefines(slots, k, p);
    FitKept(slots, Stack.Exists(slots, k, p).slots, roomy);
  }

  lemma {:induction false} TierReads<S(!new)>(p: Policy, roomy: bool)
    requires p.demote && (roomy || p.promote.Never?)
    ensures var b := AsTier<S>(p, roomy);
      && (forall s, k :: b.inv(s) ==> b.GetOk(s, k))
      && (forall s, k :: b.inv(s) ==> b.get(s, k).1.Ok?)
      && (forall s, ks :: b.inv(s) ==> b.GetManyOk(s, ks))
      && (forall s, ks :: b.inv(s) ==> b.getMany(s, ks).1.Ok?)
  {
    var b := AsTier<S>(p, roomy);
    forall s, k | b.inv(s) ensures b.GetOk(s, k) && b.get(s, k).1.Ok? {
      TierGets(s, k, p, roomy);
    }
    forall s, ks | b.inv(s) ensures b.GetManyOk(s, ks) && b.getMany(s, ks).1.Ok? {
      TierGetsMany(s, ks, p, roomy);
    }
  }

  lemma {:induction false} TierRemoves<S(!new)>(p: Policy, roomy: bool)
    ensures var b := AsTier<S>(p, roomy);
      && (forall s, k :: b.inv(s) ==> b.ExistsOk(s, k))
      && (forall s, k :: b.inv(s) ==> b.has(s, k).1.Ok?)
      && (forall s, k :: b.inv(s) ==> b.DeleteOk(s, k))
      && (forall s, k :: b.inv(s) ==> b.delete(s, k).1.Ok?)
      && (forall s, ks :: b.inv(s) ==> b.DeleteManyOk(s, ks))
      && (forall s, ks :: b.inv(s) ==> b.deleteMany(s, ks).1.Ok?)
  {
    var b := AsTier<S>(p, roomy);
    forall s, k | b.inv(s) ensures b.ExistsOk(s, k) && b.has(s, k).1.Ok? {
      TierChecks(s, k, p, roomy);
    }
    forall s, k | b.inv(s) ensures b.DeleteOk(s, k) && b.delete(s, k).1.Ok? {
      TierDeletes(s, k, roomy);
    }
    forall s, ks | b.inv(s) ensures b.DeleteManyOk(s, ks) && b.deleteMany(s, ks).1.Ok? {
      TierDeletesMany(s, ks, roomy);
    }
  }

  lemma {:induction false} TierAccepts<S(!new)>(p: Policy, roomy: bool)
    requires p.demote
    ensures var b := AsTier<S>(p, roomy);
      && (forall s, w :: b.inv(s) ==> b.WriteOk(s, w))
      && (forall s, w :: b.inv(s) ==> b.Accept(s, w).1.Ok?)
      && (roomy ==> b.Roomy())
  {
    var b := AsTier<S>(p, roomy);
    forall s, w | b.inv(s)
      ensures b.WriteOk(s, w) && b.Accept(s, w).1.Ok? && (roomy ==> b.Accept(s, w).1.value == [])
    {
      TierAcceptsOne(s, w, p, roomy);
    }
  }

  lemma {:induction false} TierAcceptsOne<S(!new)>(slots: seq<Slot<S>>, w: Write, p: Policy, roomy: bool)
    requires Fit(slots, roomy) && p.demote
    ensures var b := AsTier<S>(p, roomy);
      b.WriteOk(slots, w) && b.Accept(slots, w).1.Ok? && (roomy ==> b.Accept(slots, w).1.value == [])
  {
    TierWrites(slots, w, p, roomy);
    if w.Single? {
      assert Single((w.entry.0, w.entry.1)) == w;
    } else {
      assert Batch(w.entries) == w;
    }
  }

  /** A router over reliable, contract-keeping, writable tiers is a reliable tier
      that keeps the contract - provided displaced entries are demoted, and reads
      cannot push entries off its bottom. If its bottom tier never overflows,
      neither does the router. */
  lemma {:induction false} RouterIsATier<S(!new)>(p: Policy, roomy: bool)
    requires p.demote && (roomy || p.promote.Never?)
    ensures AsTier<S>(p, roomy).Honest()
    ensures AsTier<S>(p, roomy).Reliable()
    ensures roomy ==> AsTier<S>(p, roomy).Roomy()
  {
    TierReads<S>(p, roomy);
    TierRemoves<S>(p, roomy);
    TierAccepts<S>(p, roomy);
  }
}
