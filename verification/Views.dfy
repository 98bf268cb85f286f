/** The contents of a stack as a reader sees them - the topmost copy of a key
    wins - and what demotion, writes, promotion and removal do to that view. */
module Views {
  import opened Bindings
  import opened Tiers
  import Stack

  /** Every tier meets the contract and is in a state that can occur. */
  ghost predicate Sound<S(!new)>(slots: seq<Slot<S>>) {
    slots == [] || (slots[0].Sound() && Sound(slots[1..]))
  }

  ghost predicate ErrorsConfined<S(!new)>(slots: seq<Slot<S>>) {
    slots == [] || (slots[0].backend.ErrorsConfined() && ErrorsConfined(slots[1..]))
  }

  ghost predicate AllWritable<S(!new)>(slots: seq<Slot<S>>) {
    slots == [] || (slots[0].writable && AllWritable(slots[1..]))
  }

  ghost predicate NoneWritable<S(!new)>(slots: seq<Slot<S>>) {
    slots == [] || (!slots[0].writable && NoneWritable(slots[1..]))
  }

  /** Read-only tiers only at the bottom: an origin under writable cache tiers. */
  ghost predicate WritableAbove<S(!new)>(slots: seq<Slot<S>>) {
    slots == [] || (if slots[0].writable then WritableAbove(slots[1..]) else NoneWritable(slots[1..]))
  }

  /** The first-match view of one key. */
  ghost function Top<S(!new)>(slots: seq<Slot<S>>, k: Key): Option<Value> {
    if slots == [] then None else Or(slots[0].Held(k), Top(slots[1..], k))
  }

  /** The first-match view of all keys. */
  ghost function View<S(!new)>(slots: seq<Slot<S>>): map<Key, Value> {
    if slots == [] then map[] else View(slots[1..]) + slots[0].backend.view(slots[0].tier)
  }

  /** The view with a list of bindings laid just under the lowest writable tier
      (above any read-only suffix), newest on top. With an empty list it is the
      view; with what an operation pushed off the writable tiers it is the view
      had nothing been pushed off. */
  ghost function Over<S(!new)>(slots: seq<Slot<S>>, spilled: Displaced, k: Key): Option<Value> {
    if slots == [] || !slots[0].writable then Or(Bind(spilled, k), Top(slots, k))
    else Or(slots[0].Held(k), Over(slots[1..], spilled, k))
  }

  lemma {:induction false} ViewAt<S(!new)>(slots: seq<Slot<S>>, k: Key)
    ensures Lookup(View(slots), k) == Top(slots, k)
  {
    if slots != [] {
      ViewAt(slots[1..], k);
    }
  }

  lemma {:induction false} OverNothing<S(!new)>(slots: seq<Slot<S>>, k: Key)
    ensures Over(slots, [], k) == Top(slots, k)
  {
    if slots != [] && slots[0].writable {
      OverNothing(slots[1..], k);
    }
  }

  /** On an all-writable stack the spilled bindings lie under everything. */
  lemma {:induction false} OverAllWritable<S(!new)>(slots: seq<Slot<S>>, spilled: Displaced, k: Key)
    requires AllWritable(slots)
    ensures Over(slots, spilled, k) == Or(Top(slots, k), Bind(spilled, k))
  {
    if slots != [] {
      OverAllWritable(slots[1..], spilled, k);
    }
  }

  /** Failed tier calls recorded so far, over all tiers. */
  ghost function Errors<S(!new)>(slots: seq<Slot<S>>): nat {
    if slots == [] then 0 else slots[0].counters.errors + Errors(slots[1..])
  }

  // -------------------------------------------------------------- one tier

  lemma {:induction false} AcceptAt<S(!new)>(slot: Slot<S>, w: Write, k: Key)
    requires slot.Sound()
    ensures slot.Accept(w).0.Sound()
    ensures slot.Accept(w).1.Ok? ==>
      Or(slot.Accept(w).0.Held(k), Bind(slot.Accept(w).1.value, k)) == Or(Bind(w.Entries(), k), slot.Held(k))
  {
    assert slot.backend.WriteOk(slot.tier, w);
    var (s, r) := slot.backend.Accept(slot.tier, w);
    if r.Ok? {
      AcceptedAt(slot.backend.view(slot.tier), w.Entries(), slot.backend.view(s), r.value, k);
    }
  }

  /** Pouring entries into a tier keeps every binding whose entry was not refused,
      and each refusal is one counted error. */
  lemma {:induction false} PourAt<S(!new)>(slot: Slot<S>, entries: seq<Entry>, k: Key)
    requires slot.Sound()
    requires k !in Keys(Stack.Pour(slot, entries).dropped)
    requires Stack.Pour(slot, entries).dropped == [] || slot.backend.ErrorsConfined()
    ensures var p := Stack.Pour(slot, entries);
      Or(p.slot.Held(k), Bind(p.next, k)) == Or(Bind(entries, k), slot.Held(k))
    decreases |entries|
  {
    if entries != [] {
      var e := Single(entries[0]);
      var (s, r) := slot.Accept(e);
      var p := Stack.Pour(s, entries[1..]);
      AcceptAt(slot, e, k);
      if r.Ok? {
        PourAt(s, entries[1..], k);
        BindConcat(r.value, p.next, k);
      } else {
        DroppedTail(entries[0], p.dropped, k);
        PourAt(s, entries[1..], k);
      }
    }
  }

  lemma {:induction false} DroppedTail(e: Entry, rest: seq<Entry>, k: Key)
    requires k !in Keys([e] + rest)
    ensures k != e.0 && k !in Keys(rest)
  {
    var all := [e] + rest;
    assert all[0] == e;
    assert Keys(all)[0] == e.0;
    forall i | 0 <= i < |rest| ensures Keys(rest)[i] != k {
      assert Keys(all)[i + 1] == rest[i].0;
    }
  }

  lemma {:induction false} DroppedConcat(a: seq<Entry>, b: seq<Entry>, k: Key)
    ensures k in Keys(a + b) <==> k in Keys(a) || k in Keys(b)
  {
    assert Keys(a + b) == Keys(a) + Keys(b);
  }

  lemma {:induction false} PourKeeps<S(!new)>(slot: Slot<S>, entries: seq<Entry>)
    requires slot.Sound()
    ensures Stack.Pour(slot, entries).slot.Sound()
    ensures Stack.Pour(slot, entries).slot.counters.errors
         == slot.counters.errors + |Stack.Pour(slot, entries).dropped|
    decreases |entries|
  {
    if entries != [] {
      var (s, r) := slot.Accept(Single(entries[0]));
      assert slot.backend.WriteOk(slot.tier, Single(entries[0]));
      PourKeeps(s, entries[1..]);
    }
  }

  // -------------------------------------------------------------- demotion

  lemma {:induction false} CascadeKeeps<S(!new)>(below: seq<Slot<S>>, entries: Displaced)
    requires Sound(below)
    ensures Sound(Stack.Cascade(below, entries).slots)
  {
    if below != [] && entries != [] {
      if below[0].writable {
        PourKeeps(below[0], entries);
        CascadeKeeps(below[1..], Stack.Pour(below[0], entries).next);
      } else {
        CascadeKeeps(below[1..], entries);
      }
    }
  }

  /** Every entry a demotion drops is one counted tier error, and conversely. */
  lemma {:induction false} CascadeErrors<S(!new)>(below: seq<Slot<S>>, entries: Displaced)
    requires Sound(below)
    ensures Errors(Stack.Cascade(below, entries).slots) == Errors(below) + |Stack.Cascade(below, entries).dropped|
  {
    if below != [] && entries != [] {
      if below[0].writable {
        PourKeeps(below[0], entries);
        CascadeErrors(below[1..], Stack.Pour(below[0], entries).next);
      } else {
        CascadeErrors(below[1..], entries);
      }
    }
  }

  lemma {:induction false} SameRoles<S(!new)>(a: seq<Slot<S>>, b: seq<Slot<S>>)
    requires Stack.Roles(a) == Stack.Roles(b)
    ensures AllWritable(a) == AllWritable(b) && NoneWritable(a) == NoneWritable(b)
    ensures WritableAbove(a) == WritableAbove(b)
    ensures ErrorsConfined(a) == ErrorsConfined(b)
  {
    if a != [] {
      assert Stack.Roles(a)[0] == Stack.Roles(b)[0];
      assert Stack.Roles(a)[1..] == Stack.Roles(a[1..]) && Stack.Roles(b)[1..] == Stack.Roles(b[1..]);
      SameRoles(a[1..], b[1..]);
    }
  }

  /** The demotion cascade: for every key whose entry was not dropped, the stack it
      leaves with its output spilled under it shows what the old stack showed with
      the displaced list spliced in on top of `below` - whatever was already
      spilled before (`spilled`). */
  lemma {:induction false} CascadeAt<S(!new)>(below: seq<Slot<S>>, entries: Displaced, spilled: Displaced, k: Key)
    requires Sound(below) && WritableAbove(below)
    requires k !in Keys(Stack.Cascade(below, entries).dropped)
    requires Stack.Cascade(below, entries).dropped == [] || ErrorsConfined(below)
    ensures var c := Stack.Cascade(below, entries);
      Over(c.slots, spilled + c.out, k) == Or(Bind(entries, k), Over(below, spilled, k))
  {
    var c := Stack.Cascade(below, entries);
    if entries == [] {
      assert spilled + c.out == spilled;
    } else if below == [] {
      BindConcat(spilled, entries, k);
    } else if !below[0].writable {
      CascadeReadOnly(below, entries);
      BindConcat(spilled, entries, k);
    } else {
      var p := Stack.Pour(below[0], entries);
      var rest := Stack.Cascade(below[1..], p.next);
      DroppedConcat(p.dropped, rest.dropped, k);
      PourAt(below[0], entries, k);
      CascadeAt(below[1..], p.next, spilled, k);
    }
  }

  /** Read-only tiers are passed over. */
  lemma {:induction false} CascadeReadOnly<S(!new)>(below: seq<Slot<S>>, entries: Displaced)
    requires NoneWritable(below)
    ensures Stack.Cascade(below, entries) == Stack.Sunk(below, entries, [])
  {
    if below != [] && entries != [] {
      CascadeReadOnly(below[1..], entries);
      assert [below[0]] + below[1..] == below;
    }
  }

  // ---------------------------------------------------------------- splitting

  lemma {:induction false} TopSplit<S(!new)>(a: seq<Slot<S>>, b: seq<Slot<S>>, k: Key)
    ensures Top(a + b, k) == Or(Top(a, k), Top(b, k))
  {
    if a == [] {
      assert a + b == b;
    } else {
      assert (a + b)[1..] == a[1..] + b;
      TopSplit(a[1..], b, k);
    }
  }

  lemma {:induction false} OverSplit<S(!new)>(a: seq<Slot<S>>, b: seq<Slot<S>>, spilled: Displaced, k: Key)
    requires AllWritable(a)
    ensures Over(a + b, spilled, k) == Or(Top(a, k), Over(b, spilled, k))
  {
    if a == [] {
      assert a + b == b;
    } else {
      assert (a + b)[0] == a[0] && (a + b)[1..] == a[1..] + b;
      OverSplit(a[1..], b, spilled, k);
    }
  }

  lemma {:induction false} ErrorsSplit<S(!new)>(a: seq<Slot<S>>, b: seq<Slot<S>>)
    ensures Errors(a + b) == Errors(a) + Errors(b)
  {
    if a == [] {
      assert a + b == b;
    } else {
      assert (a + b)[0] == a[0] && (a + b)[1..] == a[1..] + b;
      ErrorsSplit(a[1..], b);
    }
  }

  // ------------------------------------------------------------ write-through

  lemma {:induction false} WriteTopKeeps<S(!new)>(top: Slot<S>, b: Stack.Written<S>, w: Write, p: Policy)
    requires top.Sound() && Sound(b.slots)
    ensures var r := Stack.WriteTop(top, b, w, p);
      && Sound(r.slots)
      && Errors(r.slots) == top.counters.errors + Errors(b.slots) + (|r.dropped| - |b.dropped|) + (r.rejected - b.rejected)
      && (r.aborted.Some? ==> r.rejected > 0)
  {
    var (s, r) := top.Accept(w);
    assert top.backend.WriteOk(top.tier, w);
    if r.Ok? && p.demote {
      CascadeKeeps(b.slots, r.value);
      CascadeErrors(b.slots, r.value);
    }
  }

  lemma {:induction false} WriteThroughKeeps<S(!new)>(slots: seq<Slot<S>>, w: Write, p: Policy)
    requires Sound(slots)
    ensures var r := Stack.WriteThrough(slots, w, p);
      && Sound(r.slots)
      && Errors(r.slots) == Errors(slots) + |r.dropped| + r.rejected
      && (r.aborted.Some? ==> r.rejected > 0)
  {
    if slots != [] {
      WriteThroughKeeps(slots[1..], w, p);
      var b := Stack.WriteThrough(slots[1..], w, p);
      if b.aborted.None? && slots[0].writable {
        WriteTopKeeps(slots[0], b, w, p);
      }
    }
  }

  /** The keys a write can vouch for: their entries were not dropped by a demotion,
      and if a tier refused the write, it was a single write of another key. */
  ghost predicate Vouched<S(!new)>(slots: seq<Slot<S>>, w: Write, r: Stack.Written<S>, k: Key) {
    && k !in Keys(r.dropped)
    && (r.dropped == [] || ErrorsConfined(slots))
    && (r.rejected == 0 || (w.Single? && k != w.entry.0 && ErrorsConfined(slots)))
  }

  lemma {:induction false} WriteTopAt<S(!new)>(top: Slot<S>, b: Stack.Written<S>, w: Write, p: Policy, k: Key)
    requires top.Sound() && top.writable && Sound(b.slots) && WritableAbove(b.slots) && p.demote
    requires Vouched([top] + b.slots, w, Stack.WriteTop(top, b, w, p), k)
    requires b.rejected <= Stack.WriteTop(top, b, w, p).rejected
    ensures var r := Stack.WriteTop(top, b, w, p);
      Over(r.slots, r.evicted, k) == Or(Bind(w.Entries(), k), Or(top.Held(k), Over(b.slots, b.evicted, k)))
  {
    var (s, r) := top.Accept(w);
    AcceptAt(top, w, k);
    if r.Err? {
      BindOne(w.entry, k);
      assert top.backend.put(top.tier, w.entry.0, w.entry.1).1.Err?;
    } else {
      var c := Stack.Cascade(b.slots, r.value);
      DroppedConcat(b.dropped, c.dropped, k);
      CascadeAt(b.slots, r.value, b.evicted, k);
    }
  }

  /** Write-through with demotion, tier faults included: every vouched key reads,
      through the stack laid over what was evicted, as the old view with the batch
      written in order. */
  lemma {:induction false} WriteThroughAt<S(!new)>(slots: seq<Slot<S>>, w: Write, p: Policy, k: Key)
    requires Sound(slots) && WritableAbove(slots) && p.demote
    requires Vouched(slots, w, Stack.WriteThrough(slots, w, p), k)
    ensures var r := Stack.WriteThrough(slots, w, p);
      Over(r.slots, r.evicted, k) ==
        if slots != [] && slots[0].writable then Or(Bind(w.Entries(), k), Top(slots, k)) else Top(slots, k)
  {
    if slots == [] {
    } else if !slots[0].writable {
      ReadOnlyUntouched(slots, w, p);
      OverNothing(slots, k);
    } else {
      WriteThroughKeeps(slots[1..], w, p);
      if Stack.WriteThrough(slots[1..], w, p).aborted.Some? {
        BindOne(w.entry, k);
        WriteThroughAt(slots[1..], w, p, k);
      } else {
        VouchedBelow(slots, w, p, k);
        WriteThroughAt(slots[1..], w, p, k);
        WriteThroughStep(slots, w, p, k);
      }
    }
  }

  lemma {:induction false} WriteThroughStep<S(!new)>(slots: seq<Slot<S>>, w: Write, p: Policy, k: Key)
    requires Sound(slots) && WritableAbove(slots) && p.demote && slots != [] && slots[0].writable
    requires Stack.WriteThrough(slots[1..], w, p).aborted.None?
    requires Vouched(slots, w, Stack.WriteThrough(slots, w, p), k)
    ensures var b, r := Stack.WriteThrough(slots[1..], w, p), Stack.WriteThrough(slots, w, p);
      Over(r.slots, r.evicted, k) == Or(Bind(w.Entries(), k), Or(slots[0].Held(k), Over(b.slots, b.evicted, k)))
  {
    var b := Stack.WriteThrough(slots[1..], w, p);
    WriteThroughKeeps(slots[1..], w, p);
    SameRoles(slots[1..], b.slots);
    SameRoles(slots, [slots[0]] + b.slots);
    WriteTopAt(slots[0], b, w, p, k);
  }

  lemma {:induction false} VouchedBelow<S(!new)>(slots: seq<Slot<S>>, w: Write, p: Policy, k: Key)
    requires slots != [] && slots[0].writable && Stack.WriteThrough(slots[1..], w, p).aborted.None?
    requires Vouched(slots, w, Stack.WriteThrough(slots, w, p), k)
    ensures Vouched(slots[1..], w, Stack.WriteThrough(slots[1..], w, p), k)
  {
    var b := Stack.WriteThrough(slots[1..], w, p);
    var (s, r) := slots[0].Accept(w);
    if r.Ok? {
      DroppedConcat(b.dropped, Stack.Cascade(b.slots, r.value).dropped, k);
    }
  }

  lemma {:induction false} BindOne(e: Entry, k: Key)
    ensures Bind([e], k) == if e.0 == k then Some(e.1) else None
  {
    assert [e][1..] == [];
  }

  lemma {:induction false} ReadOnlyUntouched<S(!new)>(slots: seq<Slot<S>>, w: Write, p: Policy)
    requires NoneWritable(slots)
    ensures Stack.WriteThrough(slots, w, p) == Stack.Written(slots, [], [], 0, None)
  {
    if slots != [] {
      ReadOnlyUntouched(slots[1..], w, p);
      assert [slots[0]] + slots[1..] == slots;
    }
  }

  // ------------------------------------------------------------- write-around

  lemma {:induction false} InvalidateKeeps<S(!new)>(slots: seq<Slot<S>>, base: nat, w: Write)
    requires Sound(slots)
    ensures var c := Stack.Invalidate(slots, base, w);
      Sound(c.slots) && Errors(c.slots) == Errors(slots) + |c.failures|
    decreases |slots|
  {
    if slots != [] {
      InvalidateKeeps(slots[1..], base + 1, w);
      InvalidateSlotKeeps(slots[0], w);
    }
  }

  lemma {:induction false} InvalidateAt<S(!new)>(slots: seq<Slot<S>>, base: nat, w: Write, k: Key)
    requires Sound(slots) && AllWritable(slots) && Stack.Invalidate(slots, base, w).failures == []
    ensures Top(Stack.Invalidate(slots, base, w).slots, k) == if Bind(w.Entries(), k).Some? then None else Top(slots, k)
    decreases |slots|
  {
    if slots != [] {
      InvalidateAt(slots[1..], base + 1, w, k);
      InvalidateSlot(slots[0], w, k);
    }
  }

  lemma {:induction false} InvalidateSlotKeeps<S(!new)>(slot: Slot<S>, w: Write)
    requires slot.Sound()
    ensures var (s, ok) := slot.Invalidate(w);
      s.Sound() && s.counters.errors == slot.counters.errors + (if ok then 0 else 1)
  {
    if w.Single? {
      assert slot.backend.DeleteOk(slot.tier, w.entry.0);
    } else {
      assert slot.backend.DeleteManyOk(slot.tier, Keys(w.entries));
    }
  }

  lemma {:induction false} InvalidateSlot<S(!new)>(slot: Slot<S>, w: Write, k: Key)
    requires slot.Sound() && slot.Invalidate(w).1
    ensures slot.Invalidate(w).0.Held(k) == if Bind(w.Entries(), k).Some? then None else slot.Held(k)
  {
    BindMember(w.Entries(), k);
    if w.Single? {
      BindOne(w.entry, k);
      assert slot.backend.DeleteOk(slot.tier, w.entry.0);
    } else {
      assert slot.backend.DeleteManyOk(slot.tier, Keys(w.entries));
    }
  }

  lemma {:induction false} SoundConcat<S(!new)>(a: seq<Slot<S>>, b: seq<Slot<S>>)
    ensures Sound(a + b) <==> Sound(a) && Sound(b)
  {
    if a == [] {
      assert a + b == b;
    } else {
      assert (a + b)[0] == a[0] && (a + b)[1..] == a[1..] + b;
      SoundConcat(a[1..], b);
    }
  }

  lemma {:induction false} WritableConcat<S(!new)>(above: seq<Slot<S>>, s: Slot<S>, below: seq<Slot<S>>)
    requires WritableAbove(above + ([s] + below))
    ensures s.writable ==> AllWritable(above) && WritableAbove(below)
  {
    var all := above + ([s] + below);
    if above == [] {
      assert all == [s] + below;
    } else {
      assert all[0] == above[0] && all[1..] == above[1..] + ([s] + below);
      if !above[0].writable {
        NoneConcat(above[1..], s, below);
      } else {
        WritableConcat(above[1..], s, below);
      }
    }
  }

  lemma {:induction false} NoneConcat<S(!new)>(above: seq<Slot<S>>, s: Slot<S>, below: seq<Slot<S>>)
    requires NoneWritable(above + ([s] + below))
    ensures !s.writable
  {
    var all := above + ([s] + below);
    if above == [] {
      assert all == [s] + below;
    } else {
      assert all[0] == above[0] && all[1..] == above[1..] + ([s] + below);
      NoneConcat(above[1..], s, below);
    }
  }

  lemma {:induction false} ErrorsAround<S(!new)>(above: seq<Slot<S>>, s: Slot<S>, below: seq<Slot<S>>)
    ensures Errors(above + ([s] + below)) == Errors(above) + s.counters.errors + Errors(below)
    ensures Sound(above + ([s] + below)) <==> Sound(above) && s.Sound() && Sound(below)
  {
    ErrorsSplit(above, [s] + below);
    SoundConcat(above, [s] + below);
    assert ([s] + below)[1..] == below;
  }

  lemma {:induction false} WriteAroundKeeps<S(!new)>(slots: seq<Slot<S>>, w: Write)
    requires Sound(slots)
    ensures var u := Stack.WriteAround(slots, w);
      && Sound(u.slots)
      && (u.outcome.Done? ==> Errors(u.slots) == Errors(slots))
      && (u.outcome.Fail? && u.outcome.error != Stack.ReadOnly ==> Errors(u.slots) > Errors(slots))
  {
    var b := Stack.Bottom(slots);
    if b.Some? {
      var above, bottom, below := slots[..b.value], slots[b.value], slots[b.value + 1..];
      var (s, r) := bottom.Accept(w);
      Stack.Around(slots, b.value);
      ErrorsAround(above, bottom, below);
      assert bottom.backend.WriteOk(bottom.tier, w);
      ErrorsAround(above, s, below);
      if r.Ok? {
        InvalidateKeeps(above, 0, w);
        ErrorsAround(Stack.Invalidate(above, 0, w).slots, s, below);
      }
    }
  }

  lemma {:induction false} WriteAroundAt<S(!new)>(slots: seq<Slot<S>>, w: Write, k: Key)
    requires Sound(slots) && WritableAbove(slots) && Stack.WriteAround(slots, w).outcome.Done?
    ensures var u := Stack.WriteAround(slots, w);
      Over(u.slots, u.outcome.value, k) == Or(Bind(w.Entries(), k), Top(slots, k))
  {
    var b := Stack.Bottom(slots).value;
    Stack.Around(slots, b);
    BelowBottom(slots[b + 1..]);
    AroundAt(slots[..b], slots[b], slots[b + 1..], w, k);
  }

  lemma {:induction false} AroundAt<S(!new)>(above: seq<Slot<S>>, bottom: Slot<S>, below: seq<Slot<S>>, w: Write, k: Key)
    requires Sound(above + ([bottom] + below)) && WritableAbove(above + ([bottom] + below))
    requires bottom.writable && NoneWritable(below)
    requires bottom.Accept(w).1.Ok? && Stack.Invalidate(above, 0, w).failures == []
    ensures var (s, r) := bottom.Accept(w);
      Over(Stack.Invalidate(above, 0, w).slots + ([s] + below), r.value, k)
        == Or(Bind(w.Entries(), k), Top(above + ([bottom] + below), k))
  {
    var (s, r) := bottom.Accept(w);
    ErrorsAround(above, bottom, below);
    WritableConcat(above, bottom, below);
    AcceptAt(bottom, w, k);
    InvalidateAt(above, 0, w, k);
    AroundView(above, Stack.Invalidate(above, 0, w).slots, bottom, s, below, w, r.value, k);
  }

  lemma {:induction false} BelowBottom<S(!new)>(slots: seq<Slot<S>>)
    requires forall i :: 0 <= i < |slots| ==> !slots[i].writable
    ensures NoneWritable(slots)
  {
    if slots != [] {
      BelowBottom(slots[1..]);
    }
  }

  lemma {:induction false} AroundView<S(!new)>(above: seq<Slot<S>>, cleared: seq<Slot<S>>, bottom: Slot<S>, written: Slot<S>,
                            below: seq<Slot<S>>, w: Write, displaced: Displaced, k: Key)
    requires AllWritable(above) && Stack.Roles(above) == Stack.Roles(cleared)
    requires bottom.writable && written.writable && NoneWritable(below)
    requires Top(cleared, k) == if Bind(w.Entries(), k).Some? then None else Top(above, k)
    requires Or(written.Held(k), Bind(displaced, k)) == Or(Bind(w.Entries(), k), bottom.Held(k))
    ensures Over(cleared + ([written] + below), displaced, k)
         == Or(Bind(w.Entries(), k), Top(above + ([bottom] + below), k))
  {
    SameRoles(above, cleared);
    OverSplit(cleared, [written] + below, displaced, k);
    TopSplit(above, [bottom] + below, k);
    assert ([written] + below)[1..] == below && ([bottom] + below)[1..] == below;
  }
}
