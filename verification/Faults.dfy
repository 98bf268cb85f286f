/** Failing tiers: what an aborted write leaves behind, and why falling through a
    failing tier cannot serve a stale value. */
module Faults {
  import opened Bindings
  import opened Tiers
  import opened Views
  import opened Reads
  import opened Batches
  import opened Contract
  import opened Runs
  import Stack

  // ------------------------------------------------------------ aborted writes

  /** Every writable tier counted the write. */
  ghost predicate AllCounted<S(!new)>(before: seq<Slot<S>>, after: seq<Slot<S>>, n: nat) {
    |after| == |before| &&
    (before != [] ==>
      (before[0].writable ==> after[0].counters.puts >= before[0].counters.puts + n) &&
      AllCounted(before[1..], after[1..], n))
  }

  lemma {:induction false} CascadeCounts<S(!new)>(before: seq<Slot<S>>, slots: seq<Slot<S>>, entries: Displaced, n: nat)
    requires AllCounted(before, slots, n)
    ensures AllCounted(before, Stack.Cascade(slots, entries).slots, n)
  {
    if slots != [] && entries != [] {
      if slots[0].writable {
        PourCounts(slots[0], entries);
        CascadeCounts(before[1..], slots[1..], Stack.Pour(slots[0], entries).next, n);
      } else {
        CascadeCounts(before[1..], slots[1..], entries, n);
      }
    }
  }

  lemma {:induction false} PourCounts<S(!new)>(slot: Slot<S>, entries: seq<Entry>)
    ensures Stack.Pour(slot, entries).slot.counters.puts >= slot.counters.puts
    decreases |entries|
  {
    if entries != [] {
      PourCounts(slot.Accept(Single(entries[0])).0, entries[1..]);
    }
  }

  lemma {:induction false} WriteThroughCounts<S(!new)>(slots: seq<Slot<S>>, w: Write, p: Policy)
    requires Stack.WriteThrough(slots, w, p).rejected == 0 && Stack.WriteThrough(slots, w, p).aborted.None?
    ensures AllCounted(slots, Stack.WriteThrough(slots, w, p).slots, |w.Entries()|)
  {
    if slots != [] {
      var b := Stack.WriteThrough(slots[1..], w, p);
      WriteThroughCounts(slots[1..], w, p);
      if slots[0].writable && p.demote {
        CascadeCounts(slots[1..], b.slots, slots[0].Accept(w).1.value, |w.Entries()|);
      }
    }
  }

  /** An aborted write-through stops at one tier that refused the write: the tiers
      above it are exactly as they were, those below took the write in full, and
      the error counters account for that refusal and for every binding a demotion
      dropped on the way, one for one. */
  lemma {:induction false} AbortsCleanly<S(!new)>(slots: seq<Slot<S>>, w: Write, p: Policy)
    requires Sound(slots) && p.onWriteError.Abort? && Stack.WriteThrough(slots, w, p).aborted.Some?
    ensures var r := Stack.WriteThrough(slots, w, p);
      var i := r.aborted.value;
      var b := Stack.WriteThrough(slots[i + 1..], w, p);
      && slots[i].writable && slots[i].Accept(w).1.Err?
      && r.slots == slots[..i] + ([slots[i].Accept(w).0] + b.slots)
      && b.aborted.None? && b.rejected == 0 && AllCounted(slots[i + 1..], b.slots, |w.Entries()|)
      && r.dropped == b.dropped && r.evicted == b.evicted
      && Errors(r.slots) == Errors(slots) + |r.dropped| + 1
  {
    var i := Stack.WriteThrough(slots, w, p).aborted.value;
    var above, x, below := AbortsAt(slots, w, p);
    assert slots[..i] == above && slots[i] == x && slots[i + 1..] == below;
    NotRejected(slots, w, p);
    NotRejected(slots[i + 1..], w, p);
    WriteThroughKeeps(slots, w, p);
    WriteThroughCounts(slots[i + 1..], w, p);
  }

  lemma {:induction false} AbortsAt<S(!new)>(slots: seq<Slot<S>>, w: Write, p: Policy)
    returns (above: seq<Slot<S>>, x: Slot<S>, below: seq<Slot<S>>)
    requires Stack.WriteThrough(slots, w, p).aborted.Some?
    ensures slots == above + ([x] + below) && x.writable && x.Accept(w).1.Err?
    ensures var r, b := Stack.WriteThrough(slots, w, p), Stack.WriteThrough(below, w, p);
      && r.aborted == Some(|above|)
      && r.slots == above + ([x.Accept(w).0] + b.slots)
      && b.aborted.None? && r.dropped == b.dropped && r.evicted == b.evicted
  {
    if Stack.WriteThrough(slots[1..], w, p).aborted.Some? {
      var above1;
      above1, x, below := AbortsAt(slots[1..], w, p);
      above := [slots[0]] + above1;
      Stack.ConsConcat(slots[0], above1, [x] + below);
      Stack.ConsConcat(slots[0], above1, [x.Accept(w).0] + Stack.WriteThrough(below, w, p).slots);
    } else {
      above, x, below := [], slots[0], slots[1..];
      assert [] + slots == slots;
      var r := Stack.WriteThrough(slots, w, p);
      assert [] + r.slots == r.slots;
    }
  }

  lemma {:induction false} NotRejected<S(!new)>(slots: seq<Slot<S>>, w: Write, p: Policy)
    requires p.onWriteError.Abort?
    ensures var r := Stack.WriteThrough(slots, w, p);
      r.rejected == if r.aborted.Some? then 1 else 0
  {
    if slots != [] {
      NotRejected(slots[1..], w, p);
    }
  }

  // --------------------------------------------------------------- copies agree

  ghost predicate Part<K, V>(m: map<K, V>, whole: map<K, V>) {
    forall k :: k in m ==> k in whole && m[k] == whole[k]
  }

  ghost predicate Listed(entries: seq<Entry>, whole: map<Key, Tiers.Value>) {
    forall i :: 0 <= i < |entries| ==> Lookup(whole, entries[i].0) == Some(entries[i].1)
  }

  /** The entry was just given, or was held before; after a single put, what is handed
      back of the written key can only be the new binding. */
  ghost predicate Sourced(view: map<Key, Tiers.Value>, w: Write, e: Entry) {
    e in w.Entries() || (Lookup(view, e.0) == Some(e.1) && (w.Single? ==> e.0 != w.entry.0))
  }

  ghost predicate AllSourced(view: map<Key, Tiers.Value>, w: Write, entries: seq<Entry>) {
    forall i :: 0 <= i < |entries| ==> Sourced(view, w, entries[i])
  }

  /** Every binding of `after` was held before or is one of `entries`. */
  ghost predicate Grown(before: map<Key, Tiers.Value>, entries: seq<Entry>, after: map<Key, Tiers.Value>) {
    forall k :: k in after ==> Lookup(before, k) == Some(after[k]) || (k, after[k]) in entries
  }

  /** A tier that makes nothing up: an accepted write hands back only bindings it held
      before or was given, a refused one leaves only such bindings, and a delete,
      failed or not, adds nothing. A batch may hand back a binding of a key it also
      writes: the one it superseded. */
  ghost predicate WriteGenuine<S(!new)>(b: Backend<S>, s: S, w: Write) {
    var (s', r) := b.Accept(s, w);
    if r.Ok? then AllSourced(b.view(s), w, r.value) else Grown(b.view(s), w.Entries(), b.view(s'))
  }

  ghost predicate DeleteGenuine<S(!new)>(b: Backend<S>, s: S, k: Key) {
    Part(b.view(b.delete(s, k).0), b.view(s))
  }

  ghost predicate DeleteManyGenuine<S(!new)>(b: Backend<S>, s: S, ks: seq<Key>) {
    Part(b.view(b.deleteMany(s, ks).0), b.view(s))
  }

  ghost predicate Genuine<S(!new)>(b: Backend<S>) {
    && (forall s, w :: b.inv(s) ==> WriteGenuine(b, s, w))
    && (forall s, k :: b.inv(s) ==> DeleteGenuine(b, s, k))
    && (forall s, ks :: b.inv(s) ==> DeleteManyGenuine(b, s, ks))
  }

  ghost predicate AllGenuine<S(!new)>(slots: seq<Slot<S>>) {
    slots == [] || (Genuine(slots[0].backend) && AllGenuine(slots[1..]))
  }

  /** Every copy in every tier is the one in `last`. */
  ghost predicate Copies<S(!new)>(slots: seq<Slot<S>>, last: map<Key, Tiers.Value>) {
    slots == [] || (Part(slots[0].backend.view(slots[0].tier), last) && Copies(slots[1..], last))
  }

  lemma {:induction false} SameGenuine<S(!new)>(a: seq<Slot<S>>, b: seq<Slot<S>>)
    requires Stack.Roles(a) == Stack.Roles(b)
    ensures AllGenuine(a) == AllGenuine(b)
  {
    if a != [] {
      assert Stack.Roles(a)[0] == Stack.Roles(b)[0];
      assert Stack.Roles(a)[1..] == Stack.Roles(a[1..]) && Stack.Roles(b)[1..] == Stack.Roles(b[1..]);
      SameGenuine(a[1..], b[1..]);
    }
  }

  lemma {:induction false} CopiesConcat<S(!new)>(a: seq<Slot<S>>, b: seq<Slot<S>>, last: map<Key, Tiers.Value>)
    ensures Copies(a + b, last) <==> Copies(a, last) && Copies(b, last)
    ensures AllGenuine(a + b) <==> AllGenuine(a) && AllGenuine(b)
  {
    if a == [] {
      assert a + b == b;
    } else {
      assert (a + b)[0] == a[0] && (a + b)[1..] == a[1..] + b;
      CopiesConcat(a[1..], b, last);
    }
  }

  lemma {:induction false} CopiesAround<S(!new)>(above: seq<Slot<S>>, s: Slot<S>, below: seq<Slot<S>>, last: map<Key, Tiers.Value>)
    ensures Copies(above + ([s] + below), last) <==>
      Copies(above, last) && Part(s.backend.view(s.tier), last) && Copies(below, last)
    ensures AllGenuine(above + ([s] + below)) <==> AllGenuine(above) && Genuine(s.backend) && AllGenuine(below)
  {
    CopiesConcat(above, [s] + below, last);
    assert ([s] + below)[1..] == below;
  }

  /** A write of bindings that are already the last ones. */
  lemma {:induction false} AcceptCopies<S(!new)>(slot: Slot<S>, w: Write, last: map<Key, Tiers.Value>)
    requires slot.Sound() && Genuine(slot.backend)
    requires Part(slot.backend.view(slot.tier), last) && Listed(w.Entries(), last)
    ensures var (s, r) := slot.Accept(w);
      && s.Sound() && Part(s.backend.view(s.tier), last)
      && (r.Ok? ==> Listed(r.value, last))
  {
    var b := slot.backend;
    var (s, r) := b.Accept(slot.tier, w);
    assert b.WriteOk(slot.tier, w) && WriteGenuine(b, slot.tier, w);
    if r.Ok? {
      AcceptedPart(b.view(slot.tier), w.Entries(), b.view(s), r.value, last);
      forall i | 0 <= i < |r.value|
        ensures Lookup(last, r.value[i].0) == Some(r.value[i].1)
      {
        assert Sourced(b.view(slot.tier), w, r.value[i]);
      }
    }
  }

  /** What an accepted write of last values leaves is made of last values. */
  lemma {:induction false} AcceptedPart(before: map<Key, Tiers.Value>, entries: seq<Entry>, after: map<Key, Tiers.Value>,
                                        displaced: Displaced, last: map<Key, Tiers.Value>)
    requires Accepted(before, entries, after, displaced)
    requires Part(before, last) && Listed(entries, last)
    ensures Part(after, last)
  {
    forall k | k in after
      ensures k in last && after[k] == last[k]
    {
      AcceptedAt(before, entries, after, displaced, k);
      BindMember(entries, k);
    }
  }

  lemma {:induction false} ListedConcat(a: seq<Entry>, b: seq<Entry>, whole: map<Key, Tiers.Value>)
    requires Listed(a, whole) && Listed(b, whole)
    ensures Listed(a + b, whole)
  {
  }

  lemma {:induction false} PourCopies<S(!new)>(slot: Slot<S>, entries: seq<Entry>, last: map<Key, Tiers.Value>)
    requires slot.Sound() && Genuine(slot.backend)
    requires Part(slot.backend.view(slot.tier), last) && Listed(entries, last)
    ensures var p := Stack.Pour(slot, entries);
      && p.slot.Sound() && Part(p.slot.backend.view(p.slot.tier), last)
      && Listed(p.next, last) && Listed(p.dropped, last)
    decreases |entries|
  {
    if entries != [] {
      var e := Single(entries[0]);
      var (s, r) := slot.Accept(e);
      assert Lookup(last, entries[0].0) == Some(entries[0].1);
      AcceptCopies(slot, e, last);
      PourCopies(s, entries[1..], last);
      if r.Ok? {
        ListedConcat(r.value, Stack.Pour(s, entries[1..]).next, last);
      }
    }
  }

  /** Demotion, refused entries and all, spreads and drops only last values. */
  lemma {:induction false} CascadeCopies<S(!new)>(below: seq<Slot<S>>, entries: Displaced, last: map<Key, Tiers.Value>)
    requires Sound(below) && AllGenuine(below) && Copies(below, last) && Listed(entries, last)
    ensures Copies(Stack.Cascade(below, entries).slots, last)
    ensures Listed(Stack.Cascade(below, entries).dropped, last)
  {
    if below != [] && entries != [] {
      if below[0].writable {
        var p := Stack.Pour(below[0], entries);
        PourCopies(below[0], entries, last);
        CascadeCopies(below[1..], p.next, last);
        ListedConcat(p.dropped, Stack.Cascade(below[1..], p.next).dropped, last);
      } else {
        CascadeCopies(below[1..], entries, last);
      }
    }
  }

  /** The tier hands back no binding that the batch supersedes. */
  ghost predicate SupersedesNone<S(!new)>(slot: Slot<S>, w: Write) {
    var r := slot.Accept(w).1;
    r.Ok? ==> forall i :: 0 <= i < |r.value| && r.value[i].0 in Keys(w.Entries()) ==> Bind(w.Entries(), r.value[i].0) == Some(r.value[i].1)
  }

  ghost predicate NoneSuperseded<S(!new)>(slots: seq<Slot<S>>, w: Write) {
    slots == [] || (SupersedesNone(slots[0], w) && NoneSuperseded(slots[1..], w))
  }

  /** A genuine tier's single put supersedes nothing it hands back. */
  lemma {:induction false} SinglesSupersedeNone<S(!new)>(slots: seq<Slot<S>>, e: Entry)
    requires Sound(slots) && AllGenuine(slots)
    ensures NoneSuperseded(slots, Single(e))
  {
    if slots != [] {
      SinglesSupersedeNone(slots[1..], e);
      var b, r := slots[0].backend, slots[0].Accept(Single(e)).1;
      assert WriteGenuine(b, slots[0].tier, Single(e));
      assert Keys([e]) == [e.0] && [e][1..] == [];
      forall i | r.Ok? && 0 <= i < |r.value| && r.value[i].0 in Keys([e])
        ensures Bind([e], r.value[i].0) == Some(r.value[i].1)
      {
        assert Sourced(b.view(slots[0].tier), Single(e), r.value[i]);
      }
    }
  }

  /** A write whose own tier writes all succeed, demoting nothing it superseded, moves
      every tier to the new values. */
  lemma {:induction false} WriteThroughCopies<S(!new)>(slots: seq<Slot<S>>, w: Write, p: Policy, last: map<Key, Tiers.Value>)
    requires Sound(slots) && AllGenuine(slots) && AllWritable(slots) && Copies(slots, last)
    requires p.demote ==> NoneSuperseded(slots, w)
    requires var r := Stack.WriteThrough(slots, w, p); r.rejected == 0 && r.aborted.None?
    ensures Copies(Stack.WriteThrough(slots, w, p).slots, Apply(last, w.Entries()))
    ensures Listed(Stack.WriteThrough(slots, w, p).dropped, Apply(last, w.Entries()))
  {
    if slots != [] {
      var b := Stack.WriteThrough(slots[1..], w, p);
      WriteThroughKeeps(slots[1..], w, p);
      WriteThroughCopies(slots[1..], w, p, last);
      SameGenuine(slots[1..], b.slots);
      WriteCopies(slots[0], w, last);
      if p.demote {
        DisplacedListed(slots[0], w, last);
        var out := slots[0].Accept(w).1.value;
        CascadeCopies(b.slots, out, Apply(last, w.Entries()));
        ListedConcat(b.dropped, Stack.Cascade(b.slots, out).dropped, Apply(last, w.Entries()));
      }
    }
  }

  /** An accepted write leaves its tier with last values, duplicates in the batch and all. */
  lemma {:induction false} WriteCopies<S(!new)>(slot: Slot<S>, w: Write, last: map<Key, Tiers.Value>)
    requires slot.Sound() && Part(slot.backend.view(slot.tier), last)
    requires slot.Accept(w).1.Ok?
    ensures var s := slot.Accept(w).0; Part(s.backend.view(s.tier), Apply(last, w.Entries()))
  {
    var b := slot.backend;
    var (s, r) := b.Accept(slot.tier, w);
    assert b.WriteOk(slot.tier, w);
    forall k | k in b.view(s)
      ensures Lookup(Apply(last, w.Entries()), k) == Some(b.view(s)[k])
    {
      AcceptedAt(b.view(slot.tier), w.Entries(), b.view(s), r.value, k);
      ApplyAt(last, w.Entries(), k);
    }
  }

  /** Displaced entries carry last values, but for superseded ones. */
  lemma {:induction false} DisplacedListed<S(!new)>(slot: Slot<S>, w: Write, last: map<Key, Tiers.Value>)
    requires slot.Sound() && Genuine(slot.backend) && Part(slot.backend.view(slot.tier), last)
    requires slot.Accept(w).1.Ok? && SupersedesNone(slot, w)
    ensures Listed(slot.Accept(w).1.value, Apply(last, w.Entries()))
  {
    var b, r := slot.backend, slot.Accept(w).1;
    assert WriteGenuine(b, slot.tier, w);
    forall i | 0 <= i < |r.value|
      ensures Lookup(Apply(last, w.Entries()), r.value[i].0) == Some(r.value[i].1)
    {
      var e := r.value[i];
      assert Sourced(b.view(slot.tier), w, e);
      ApplyAt(last, w.Entries(), e.0);
      BindMember(w.Entries(), e.0);
      EntryKey(w.Entries(), e);
    }
  }

  lemma {:induction false} EntryKey(entries: seq<Entry>, e: Entry)
    ensures e in entries ==> e.0 in Keys(entries)
  {
    if e in entries {
      var i :| 0 <= i < |entries| && entries[i] == e;
      assert Keys(entries)[i] == e.0;
    }
  }

  lemma {:induction false} InvalidateCopies<S(!new)>(slots: seq<Slot<S>>, base: nat, w: Write, last: map<Key, Tiers.Value>)
    requires Sound(slots) && AllGenuine(slots) && AllWritable(slots) && Copies(slots, last)
    requires Stack.Invalidate(slots, base, w).failures == []
    ensures Copies(Stack.Invalidate(slots, base, w).slots, Apply(last, w.Entries()))
    decreases |slots|
  {
    if slots != [] {
      InvalidatedPart(slots[0], w, last);
      InvalidateCopies(slots[1..], base + 1, w, last);
    }
  }

  lemma {:induction false} InvalidatedPart<S(!new)>(slot: Slot<S>, w: Write, last: map<Key, Tiers.Value>)
    requires slot.Sound() && Part(slot.backend.view(slot.tier), last) && slot.Invalidate(w).1
    ensures var s := slot.Invalidate(w).0; Part(s.backend.view(s.tier), Apply(last, w.Entries()))
  {
    var s := slot.Invalidate(w).0;
    forall k | k in s.backend.view(s.tier)
      ensures Lookup(Apply(last, w.Entries()), k) == Some(s.backend.view(s.tier)[k])
    {
      InvalidateSlot(slot, w, k);
      ApplyAt(last, w.Entries(), k);
      BindMember(w.Entries(), k);
    }
  }

  lemma {:induction false} WriteAroundCopies<S(!new)>(slots: seq<Slot<S>>, w: Write, last: map<Key, Tiers.Value>)
    requires Sound(slots) && AllGenuine(slots) && AllWritable(slots) && Copies(slots, last)
    requires Stack.WriteAround(slots, w).outcome.Done?
    ensures Copies(Stack.WriteAround(slots, w).slots, Apply(last, w.Entries()))
  {
    var b := Stack.Bottom(slots).value;
    var above, bottom, below := slots[..b], slots[b], slots[b + 1..];
    Stack.Around(slots, b);
    AllWritableAbove(slots);
    WritableConcat(above, bottom, below);
    ErrorsAround(above, bottom, below);
    CopiesAround(above, bottom, below, last);
    AllBelow(slots, b);
    InvalidateCopies(above, 0, w, last);
    WriteCopies(bottom, w, last);
    CopiesAround(Stack.Invalidate(above, 0, w).slots, bottom.Accept(w).0, below, Apply(last, w.Entries()));
  }

  /** Whatever copy is on top is the last value. */
  lemma {:induction false} TopCopies<S(!new)>(slots: seq<Slot<S>>, k: Key, last: map<Key, Tiers.Value>)
    requires Copies(slots, last)
    ensures Top(slots, k).Some? ==> Top(slots, k) == Lookup(last, k)
  {
    if slots != [] {
      TopCopies(slots[1..], k, last);
    }
  }

  // ------------------------------------------------- when a batch's copies agree

  /** A batch on a top tier over tiers that evict nothing off the bottom, with no error
      counted: below, a key of the batch shows its new value exactly when the top tier
      did not hand back a binding of it that the batch superseded. */
  lemma {:induction false} BatchAgreesBelow<S(!new)>(slots: seq<Slot<S>>, w: Write, p: Policy, k: Key)
    requires |slots| > 1 && Sound(slots) && AllWritable(slots) && RoomyBottom(slots[1..]) && p.demote
    requires k in Keys(w.Entries())
    requires Errors(Stack.WriteThrough(slots, w, p).slots) == Errors(slots)
    ensures slots[0].Accept(w).1.Ok?
    ensures
      var (r, displaced) := (Stack.WriteThrough(slots, w, p), slots[0].Accept(w).1.value);
      Top(r.slots[1..], k) == Bind(w.Entries(), k) <==> Bind(displaced, k).None? || Bind(displaced, k) == Bind(w.Entries(), k)
  {
    var below := slots[1..];
    var (r, b) := (Stack.WriteThrough(slots, w, p), Stack.WriteThrough(below, w, p));
    WriteThroughKeeps(slots, w, p);
    WriteThroughKeeps(below, w, p);
    BindMember(w.Entries(), k);
    BatchReached(slots, w, p);
    var displaced := slots[0].Accept(w).1.value;
    var c := Stack.Cascade(b.slots, displaced);
    assert r.slots == [slots[0].Accept(w).0] + c.slots && r.slots[1..] == c.slots;
    BelowWritten(below, w, p, k);
    AllWritableAbove(b.slots);
    CascadeAt(b.slots, displaced, [], k);
    CascadeRoomy(b.slots, displaced);
    assert [] + c.out == [];
    OverNothing(c.slots, k);
    OverNothing(b.slots, k);
  }

  lemma {:induction false} BatchReached<S(!new)>(slots: seq<Slot<S>>, w: Write, p: Policy)
    requires slots != [] && Sound(slots) && AllWritable(slots) && p.demote
    requires Errors(Stack.WriteThrough(slots, w, p).slots) == Errors(slots)
    ensures
      var (r, b) := (Stack.WriteThrough(slots, w, p), Stack.WriteThrough(slots[1..], w, p));
      && r.dropped == [] && r.rejected == 0 && slots[0].Accept(w).1.Ok?
      && b.aborted.None? && b.dropped == [] && b.rejected == 0
      && Stack.Cascade(b.slots, slots[0].Accept(w).1.value).dropped == []
  {
    WriteThroughKeeps(slots, w, p);
    WriteThroughKeeps(slots[1..], w, p);
  }

  /** The lower tiers, written first, show the batch. */
  lemma {:induction false} BelowWritten<S(!new)>(below: seq<Slot<S>>, w: Write, p: Policy, k: Key)
    requires below != [] && Sound(below) && AllWritable(below) && RoomyBottom(below) && p.demote
    requires var b := Stack.WriteThrough(below, w, p); b.aborted.None? && b.dropped == [] && b.rejected == 0
    ensures
      var b := Stack.WriteThrough(below, w, p);
      && Sound(b.slots) && AllWritable(b.slots) && RoomyBottom(b.slots)
      && Top(b.slots, k) == Or(Bind(w.Entries(), k), Top(below, k))
  {
    var b := Stack.WriteThrough(below, w, p);
    WriteThroughKeeps(below, w, p);
    AllWritableAbove(below);
    WriteThroughAt(below, w, p, k);
    WriteThroughRoomy(below, w, p);
    SameRoles(below, b.slots);
    SameBottom(below, b.slots);
    OverNothing(b.slots, k);
  }

  lemma {:induction false} AllBelow<S(!new)>(slots: seq<Slot<S>>, b: nat)
    requires AllWritable(slots) && b < |slots| && forall i :: b < i < |slots| ==> !slots[i].writable
    ensures slots[b + 1..] == []
  {
    if b + 1 < |slots| {
      WritableAt(slots, b + 1);
    }
  }

  lemma {:induction false} WritableAt<S(!new)>(slots: seq<Slot<S>>, i: nat)
    requires AllWritable(slots) && i < |slots|
    ensures slots[i].writable
  {
    if i > 0 {
      WritableAt(slots[1..], i - 1);
    }
  }

  // ---------------------------------------------------------------------- reads

  lemma {:induction false} ProbeCopies<S(!new)>(slots: seq<Slot<S>>, base: nat, k: Key, e: OnReadError, last: map<Key, Tiers.Value>)
    requires Sound(slots) && Copies(slots, last)
    ensures var q := Stack.ProbeOne(slots, base, k, e);
      Copies(q.slots, last) && (q.hit.Some? ==> Lookup(last, k) == Some(q.hit.value.1))
    decreases |slots|
  {
    if slots != [] {
      assert slots[0].backend.GetOk(slots[0].tier, k);
      ProbeCopies(slots[1..], base + 1, k, e, last);
    }
  }

  lemma {:induction false} ProbeHasCopies<S(!new)>(slots: seq<Slot<S>>, base: nat, k: Key, e: OnReadError, last: map<Key, Tiers.Value>)
    requires Sound(slots) && Copies(slots, last)
    ensures Copies(Stack.ProbeHas(slots, base, k, e).slots, last)
    decreases |slots|
  {
    if slots != [] {
      assert slots[0].backend.ExistsOk(slots[0].tier, k);
      ProbeHasCopies(slots[1..], base + 1, k, e, last);
    }
  }

  lemma {:induction false} FillCopies<S(!new)>(slots: seq<Slot<S>>, target: nat, w: Write, demote: bool, last: map<Key, Tiers.Value>)
    requires Sound(slots) && AllGenuine(slots) && Copies(slots, last) && Listed(w.Entries(), last) && target < |slots|
    ensures Copies(Stack.Fill(slots, target, w, demote).slots, last)
  {
    var above, x, below := slots[..target], slots[target], slots[target + 1..];
    Stack.Around(slots, target);
    ErrorsAround(above, x, below);
    CopiesAround(above, x, below, last);
    var (s, r) := x.Accept(w);
    AcceptCopies(x, w, last);
    CopiesAround(above, s, below, last);
    if r.Ok? {
      CascadeCopies(below, r.value, last);
      CopiesAround(above, s, Stack.Cascade(below, r.value).slots, last);
    }
  }

  /** Promotion, failed or not, spreads only last values. */
  lemma {:induction false} FillRangeCopies<S(!new)>(slots: seq<Slot<S>>, from: nat, to: nat, w: Write, demote: bool, last: map<Key, Tiers.Value>)
    requires Sound(slots) && AllGenuine(slots) && Copies(slots, last) && Listed(w.Entries(), last) && to <= |slots|
    ensures Copies(Stack.FillRange(slots, from, to, w, demote).slots, last)
    decreases if from < to then to - from else 0
  {
    if from < to {
      var f := Stack.Fill(slots, from, w, demote);
      FillCopies(slots, from, w, demote, last);
      FillKeeps(slots, from, w, demote);
      SameGenuine(slots, f.slots);
      FillRangeCopies(f.slots, from + 1, to, w, demote, last);
    }
  }

  lemma {:induction false} GetCopies<S(!new)>(slots: seq<Slot<S>>, k: Key, p: Policy, last: map<Key, Tiers.Value>)
    requires Sound(slots) && AllGenuine(slots) && Copies(slots, last)
    ensures var f := Stack.Get(slots, k, p);
      && Copies(f.slots, last)
      && (f.outcome.Done? && f.outcome.value.Some? ==> Lookup(last, k) == f.outcome.value)
  {
    var q := Stack.ProbeOne(slots, 0, k, p.onReadError);
    ProbeCopies(slots, 0, k, p.onReadError, last);
    if q.hit.Some? {
      ProbeKeeps(slots, 0, k, p.onReadError);
      SameGenuine(slots, q.slots);
      FillRangeCopies(q.slots, 0, Reach(p.promote, q.hit.value.0), Single((k, q.hit.value.1)), p.demote, last);
    }
  }

  /** Every hit recorded so far carries the last value. */
  ghost predicate LastHits(keys: seq<Key>, statuses: seq<Stack.KeyStatus>, last: map<Key, Tiers.Value>)
    requires |keys| == |statuses|
  {
    forall j :: 0 <= j < |keys| && statuses[j].Hit? ==> Lookup(last, keys[j]) == Some(statuses[j].value)
  }

  lemma {:induction false} ProbeManyCopies<S(!new)>(slots: seq<Slot<S>>, keys: seq<Key>, p: Policy, last: map<Key, Tiers.Value>)
    requires Sound(slots) && Copies(slots, last) && Stack.ReadMany(slots, keys, p).outcome.Done?
    ensures LastHits(keys, Stack.ReadMany(slots, keys, p).outcome.value.statuses, last)
  {
    var report := Stack.ReadMany(slots, keys, p).outcome.value;
    HonestStatuses(slots, keys, p);
    forall j | 0 <= j < |keys| && report.statuses[j].Hit?
      ensures Lookup(last, keys[j]) == Some(report.statuses[j].value)
    {
      ServedCopies(slots, 0, report.failures, keys[j], last);
    }
  }

  lemma {:induction false} ServedCopies<S(!new)>(slots: seq<Slot<S>>, base: nat, failures: seq<nat>, k: Key, last: map<Key, Tiers.Value>)
    requires Copies(slots, last)
    ensures var h := Served(slots, base, failures, k); h.Some? ==> Lookup(last, k) == Some(h.value.1)
    decreases |slots|
  {
    if slots != [] {
      ServedCopies(slots[1..], base + 1, failures, k, last);
    }
  }

  lemma {:induction false} SweepCopies<S(!new)>(slots: seq<Slot<S>>, base: nat, keys: seq<Key>, pending: seq<nat>,
                                                statuses: seq<Stack.KeyStatus>, e: OnReadError, last: map<Key, Tiers.Value>)
    requires Sound(slots) && Copies(slots, last) && |statuses| == |keys| && Stack.Within(pending, |keys|)
    ensures Copies(Stack.ProbeMany(slots, base, keys, pending, statuses, e).slots, last)
    decreases |slots|
  {
    if slots != [] && pending != [] {
      var r := slots[0].GetMany(Stack.Pick(keys, pending)).1;
      GetManyHeld(slots[0], keys, pending);
      if r.Ok? {
        SweepCopies(slots[1..], base + 1, keys, Stack.Missing(pending, r.value), Stack.Mark(statuses, pending, r.value, base), e, last);
      } else {
        SweepCopies(slots[1..], base + 1, keys, pending, statuses, e, last);
      }
    }
  }

  lemma {:induction false} HitsAtListed(keys: seq<Key>, statuses: seq<Stack.KeyStatus>, tier: nat, last: map<Key, Tiers.Value>)
    requires |keys| == |statuses| && LastHits(keys, statuses, last)
    ensures Listed(Stack.HitsAt(keys, statuses, tier), last)
  {
    if keys != [] {
      forall j | 0 <= j < |keys[1..]| && statuses[1..][j].Hit?
        ensures Lookup(last, keys[1..][j]) == Some(statuses[1..][j].value)
      {
        assert statuses[j + 1].Hit?;
      }
      HitsAtListed(keys[1..], statuses[1..], tier, last);
    }
  }

  lemma {:induction false} PromoteCopies<S(!new)>(slots: seq<Slot<S>>, from: nat, keys: seq<Key>, statuses: seq<Stack.KeyStatus>,
                                                  p: Policy, last: map<Key, Tiers.Value>)
    requires Sound(slots) && AllGenuine(slots) && Copies(slots, last) && |keys| == |statuses| && LastHits(keys, statuses, last)
    ensures Copies(Stack.PromoteFrom(slots, from, keys, statuses, p).slots, last)
    decreases if from < |slots| then |slots| - from else 0
  {
    if from < |slots| {
      var f := Stack.PromoteTier(slots, from, keys, statuses, p);
      HitsAtListed(keys, statuses, from, last);
      FillRangeCopies(slots, 0, Reach(p.promote, from), Batch(Stack.HitsAt(keys, statuses, from)), p.demote, last);
      PromoteTierKeeps(slots, from, keys, statuses, p);
      SameGenuine(slots, f.slots);
      PromoteCopies(f.slots, from + 1, keys, statuses, p, last);
    }
  }

  lemma {:induction false} ReadManyCopies<S(!new)>(slots: seq<Slot<S>>, keys: seq<Key>, p: Policy, last: map<Key, Tiers.Value>)
    requires Sound(slots) && AllGenuine(slots) && Copies(slots, last)
    ensures var f := Stack.ReadMany(slots, keys, p);
      && Copies(f.slots, last)
      && (f.outcome.Done? ==> LastHits(keys, f.outcome.value.statuses, last))
  {
    var all, none := seq(|keys|, i => i), seq(|keys|, i => Stack.Miss);
    var q := Stack.ProbeMany(slots, 0, keys, all, none, p.onReadError);
    SweepCopies(slots, 0, keys, all, none, p.onReadError, last);
    ProbeManyKeeps(slots, 0, keys, all, none, p.onReadError);
    if !q.aborted {
      ProbeManyCopies(slots, keys, p, last);
      SameGenuine(slots, q.slots);
      PromoteCopies(q.slots, 0, keys, Stack.ReadMany(slots, keys, p).outcome.value.statuses, p, last);
    }
  }

  lemma {:induction false} DeleteCopies<S(!new)>(slots: seq<Slot<S>>, base: nat, k: Key, last: map<Key, Tiers.Value>)
    requires Sound(slots) && AllGenuine(slots) && Copies(slots, last)
    ensures Copies(Stack.DeleteFrom(slots, base, k).slots, last)
    decreases |slots|
  {
    if slots != [] {
      assert DeleteGenuine(slots[0].backend, slots[0].tier, k);
      DeleteCopies(slots[1..], base + 1, k, last);
    }
  }

  lemma {:induction false} RemoveCopies<S(!new)>(slots: seq<Slot<S>>, base: nat, keys: seq<Key>, removed: seq<bool>, last: map<Key, Tiers.Value>)
    requires Sound(slots) && AllGenuine(slots) && Copies(slots, last) && |removed| == |keys|
    ensures Copies(Stack.RemoveFrom(slots, base, keys, removed).slots, last)
    decreases |slots|
  {
    if slots != [] {
      assert DeleteManyGenuine(slots[0].backend, slots[0].tier, keys);
      var r := slots[0].DeleteMany(keys).1;
      RemoveCopies(slots[1..], base + 1, keys,
                   if slots[0].writable && r.Ok? then Stack.OrFlags(removed, r.value) else removed, last);
    }
  }

  // ----------------------------------------------------------------------- runs

  /** If the operation is a put, its own tier writes and invalidations succeed, and a
      batch written through with demotion has no tier hand back a binding it
      superseded. Everything else - promotions, demotions, reads, deletes - may fail. */
  ghost predicate PutsSucceed<S(!new)>(slots: seq<Slot<S>>, op: Op, p: Policy) {
    op.Put? ==>
      && Stack.Write(slots, op.write, p).outcome.Done?
      && (p.write.Through? ==>
           && Stack.WriteThrough(slots, op.write, p).rejected == 0
           && (op.write.Batch? && p.demote ==> NoneSuperseded(slots, op.write)))
  }

  /** The value last put for each key; deletes do not rewrite history. */
  ghost function LastPut(last: map<Key, Tiers.Value>, op: Op): map<Key, Tiers.Value> {
    if op.Put? then Apply(last, op.write.Entries()) else last
  }

  /** What the operation serves is what was last put. */
  ghost predicate ServesLast<S(!new)>(slots: seq<Slot<S>>, op: Op, p: Policy, last: map<Key, Tiers.Value>) {
    match op
    case Get(k) =>
      var o := Stack.Get(slots, k, p).outcome;
      o.Done? && o.value.Some? ==> Lookup(last, k) == o.value
    case ReadMany(ks) =>
      var o := Stack.ReadMany(slots, ks, p).outcome;
      o.Done? ==> LastHits(ks, o.value.statuses, last)
    case _ => true
  }

  lemma {:induction false} PutStepCopies<S(!new)>(slots: seq<Slot<S>>, w: Write, p: Policy, last: map<Key, Tiers.Value>)
    requires Sound(slots) && AllGenuine(slots) && AllWritable(slots) && Copies(slots, last)
    requires PutsSucceed(slots, Put(w), p)
    ensures Copies(Stack.Write(slots, w, p).slots, Apply(last, w.Entries()))
  {
    if p.write.Around? {
      WriteAroundCopies(slots, w, last);
    } else {
      if w.Single? {
        SinglesSupersedeNone(slots, w.entry);
      }
      WriteThroughCopies(slots, w, p, last);
    }
  }

  lemma {:induction false} StepCopies<S(!new)>(slots: seq<Slot<S>>, op: Op, p: Policy, last: map<Key, Tiers.Value>)
    requires Sound(slots) && AllGenuine(slots) && AllWritable(slots) && Copies(slots, last)
    requires PutsSucceed(slots, op, p)
    ensures Copies(Step(slots, op, p).0, LastPut(last, op))
    ensures ServesLast(slots, op, p, last)
  {
    match op
    case Put(w) => PutStepCopies(slots, w, p, last);
    case Get(k) => GetCopies(slots, k, p, last);
    case ReadMany(ks) => ReadManyCopies(slots, ks, p, last);
    case Exists(k) => ProbeHasCopies(slots, 0, k, p.onReadError, last);
    case Delete(k) => DeleteCopies(slots, 0, k, last);
    case RemoveMany(ks) => RemoveCopies(slots, 0, ks, seq(|ks|, i => false), last);
  }

  ghost predicate PutsSucceedThroughout<S(!new)>(slots: seq<Slot<S>>, ops: seq<Op>, p: Policy)
    decreases |ops|
  {
    ops == [] || (PutsSucceed(slots, ops[0], p) && PutsSucceedThroughout(Step(slots, ops[0], p).0, ops[1..], p))
  }

  ghost predicate ServesLastThroughout<S(!new)>(slots: seq<Slot<S>>, ops: seq<Op>, p: Policy, last: map<Key, Tiers.Value>)
    decreases |ops|
  {
    ops == [] ||
    (ServesLast(slots, ops[0], p, last) && ServesLastThroughout(Step(slots, ops[0], p).0, ops[1..], p, LastPut(last, ops[0])))
  }

  /** Over any run of puts, batched puts that supersede nothing they demote, reads and
      deletes, over evicting tiers or not, with any tier failing any call but the puts'
      own writes, every hit - found past however many failing
      tiers - is the value last put for its key. */
  lemma {:induction false} NeverStale<S(!new)>(slots: seq<Slot<S>>, ops: seq<Op>, p: Policy, last: map<Key, Tiers.Value>)
    requires Sound(slots) && AllGenuine(slots) && AllWritable(slots) && Copies(slots, last)
    requires PutsSucceedThroughout(slots, ops, p)
    ensures ServesLastThroughout(slots, ops, p, last)
    decreases |ops|
  {
    if ops != [] {
      var s := Step(slots, ops[0], p).0;
      StepCopies(slots, ops[0], p, last);
      StepKeeps(slots, ops[0], p);
      SameRoles(slots, s);
      SameGenuine(slots, s);
      NeverStale(s, ops[1..], p, LastPut(last, ops[0]));
    }
  }
}
