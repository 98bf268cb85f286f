/** What every router operation does to a stack of tiers, as functions on the
    stack. Tier 0 is the topmost. The router class runs these step by step; the
    theorems about routing are about these functions. */
module Stack {
  import opened Bindings
  import opened Tiers

  datatype RouterError = ReadOnly | Tier(tier: nat) | Inconclusive(failures: seq<nat>) | Partial(failures: seq<nat>)

  datatype Outcome<+T> = Done(value: T) | Fail(error: RouterError)

  datatype KeyStatus = Hit(tier: nat, value: Value) | Miss | Unknown

  datatype ReadReport = ReadReport(statuses: seq<KeyStatus>, failures: seq<nat>)

  datatype DeleteReport = DeleteReport(removed: seq<bool>, failures: seq<nat>)

  /** What never changes about a slot: its implementation and its writability. */
  function Roles<S(!new)>(slots: seq<Slot<S>>): (r: seq<(Backend<S>, bool)>)
    ensures |r| == |slots|
  {
    if slots == [] then [] else [(slots[0].backend, slots[0].writable)] + Roles(slots[1..])
  }

  lemma {:induction false} RolesConcat<S(!new)>(a: seq<Slot<S>>, b: seq<Slot<S>>)
    ensures Roles(a + b) == Roles(a) + Roles(b)
  {
    if a == [] {
      assert a + b == b;
    } else {
      assert (a + b)[0] == a[0] && (a + b)[1..] == a[1..] + b;
      RolesConcat(a[1..], b);
    }
  }

  lemma {:induction false} RolesAround<S(!new)>(above: seq<Slot<S>>, s: Slot<S>, below: seq<Slot<S>>)
    ensures Roles(above + ([s] + below)) == Roles(above) + ([(s.backend, s.writable)] + Roles(below))
  {
    RolesConcat(above, [s] + below);
    assert ([s] + below)[1..] == below;
  }

  lemma {:induction false} ConsConcat<T>(x: T, a: seq<T>, b: seq<T>)
    ensures ([x] + a) + b == [x] + (a + b)
  {
  }

  lemma {:induction false} Around<T>(items: seq<T>, n: nat)
    requires n < |items|
    ensures items[..n] + ([items[n]] + items[n + 1..]) == items
  {
  }

  /** Changing one slot's state, and those above and below it, without changing roles. */
  lemma {:induction false} RolesReplace<S(!new)>(above: seq<Slot<S>>, x: Slot<S>, below: seq<Slot<S>>,
                              above': seq<Slot<S>>, x': Slot<S>, below': seq<Slot<S>>)
    requires Roles(above') == Roles(above) && Roles(below') == Roles(below)
    requires x'.backend == x.backend && x'.writable == x.writable
    ensures Roles(above' + ([x'] + below')) == Roles(above + ([x] + below))
  {
    RolesAround(above', x', below');
    RolesAround(above, x, below);
  }

  // ---------------------------------------------------------------- demotion

  /** Entries pushed into one tier: what the tier displaced in turn, and the
      entries it refused, which are gone. */
  datatype Poured<!S(!new)> = Poured(slot: Slot<S>, next: Displaced, dropped: seq<Entry>)

  function Pour<S(!new)>(slot: Slot<S>, entries: seq<Entry>): (p: Poured<S>)
    ensures p.slot.backend == slot.backend && p.slot.writable == slot.writable
    decreases |entries|
  {
    if entries == [] then Poured(slot, [], [])
    else
      var (s, r) := slot.Accept(Single(entries[0]));
      var p := Pour(s, entries[1..]);
      if r.Ok? then Poured(p.slot, r.value + p.next, p.dropped)
      else Poured(p.slot, p.next, [entries[0]] + p.dropped)
  }

  datatype Sunk<!S(!new)> = Sunk(slots: seq<Slot<S>>, out: Displaced, dropped: seq<Entry>)

  /** Entries displaced from the tier just above `below`, pushed down through it.
      `out` fell off the bottom; `dropped` were refused on the way. */
  function Cascade<S(!new)>(below: seq<Slot<S>>, entries: Displaced): (c: Sunk<S>)
    ensures |c.slots| == |below| && Roles(c.slots) == Roles(below)
  {
    if below == [] || entries == [] then Sunk(below, entries, [])
    else if !below[0].writable then
      var c := Cascade(below[1..], entries);
      Sunk([below[0]] + c.slots, c.out, c.dropped)
    else
      var p := Pour(below[0], entries);
      var c := Cascade(below[1..], p.next);
      Sunk([p.slot] + c.slots, c.out, p.dropped + c.dropped)
  }

  // ------------------------------------------------------------------ writes

  /** A write run: the stack it leaves, what it hands back as evicted, the entries
      demotion dropped, how many tiers rejected the write itself, and the tier it
      aborted at. After an abort `evicted` is what the router had collected and
      throws away. */
  datatype Written<!S(!new)> = Written(slots: seq<Slot<S>>, evicted: Displaced, dropped: seq<Entry>,
                                       rejected: nat, aborted: Option<nat>)

  /** Writes the tier on top of a stack whose lower tiers are already written
      (`b`); what it displaces sinks into them. */
  function WriteTop<S(!new)>(top: Slot<S>, b: Written<S>, w: Write, p: Policy): (r: Written<S>)
    ensures Roles(r.slots) == Roles([top] + b.slots)
    ensures r.aborted.Some? ==> r.aborted.value == 0
  {
    var (s, r) := top.Accept(w);
    if r.Err? then
      Written([s] + b.slots, b.evicted, b.dropped, b.rejected + 1, if p.onWriteError.Abort? then Some(0) else None)
    else if !p.demote then Written([s] + b.slots, b.evicted + r.value, b.dropped, b.rejected, None)
    else
      var c := Cascade(b.slots, r.value);
      Written([s] + c.slots, b.evicted + c.out, b.dropped + c.dropped, b.rejected, None)
  }

  /** Bottom-up: the tiers below are written first, then the top tier. An abort
      below leaves everything above untouched. */
  function WriteThrough<S(!new)>(slots: seq<Slot<S>>, w: Write, p: Policy): (r: Written<S>)
    ensures |r.slots| == |slots| && Roles(r.slots) == Roles(slots)
    ensures r.aborted.Some? ==> r.aborted.value < |slots|
  {
    if slots == [] then Written([], [], [], 0, None)
    else
      var b := WriteThrough(slots[1..], w, p);
      if b.aborted.Some? then
        Written([slots[0]] + b.slots, b.evicted, b.dropped, b.rejected, Some(b.aborted.value + 1))
      else if !slots[0].writable then Written([slots[0]] + b.slots, b.evicted, b.dropped, b.rejected, None)
      else
        WriteTop(slots[0], b, w, p)
  }

  /** Index of the lowest writable tier. */
  function Bottom<S(!new)>(slots: seq<Slot<S>>): (b: Option<nat>)
    ensures b.Some? ==> b.value < |slots| && slots[b.value].writable
    ensures b.Some? ==> forall i :: b.value < i < |slots| ==> !slots[i].writable
    ensures b.None? ==> forall i :: 0 <= i < |slots| ==> !slots[i].writable
  {
    if slots == [] then None
    else if slots[|slots| - 1].writable then Some(|slots| - 1)
    else Bottom(slots[..|slots| - 1])
  }

  datatype Cleared<!S(!new)> = Cleared(slots: seq<Slot<S>>, failures: seq<nat>)

  /** Removes the keys of a write from every writable tier of `slots`. */
  function Invalidate<S(!new)>(slots: seq<Slot<S>>, base: nat, w: Write): (c: Cleared<S>)
    ensures |c.slots| == |slots| && Roles(c.slots) == Roles(slots)
    decreases |slots|
  {
    if slots == [] then Cleared([], [])
    else if !slots[0].writable then
      var c := Invalidate(slots[1..], base + 1, w);
      c.(slots := [slots[0]] + c.slots)
    else
      var (s, ok) := slots[0].Invalidate(w);
      var c := Invalidate(slots[1..], base + 1, w);
      Cleared([s] + c.slots, (if ok then [] else [base]) + c.failures)
  }

  datatype Update<!S(!new), +T> = Update(slots: seq<Slot<S>>, outcome: Outcome<T>)

  function WriteAround<S(!new)>(slots: seq<Slot<S>>, w: Write): (u: Update<S, Displaced>)
    ensures |u.slots| == |slots| && Roles(u.slots) == Roles(slots)
  {
    var b := Bottom(slots);
    if b.None? then Update(slots, Fail(ReadOnly))
    else
      var above, below := slots[..b.value], slots[b.value + 1..];
      var (s, r) := slots[b.value].Accept(w);
      Around(slots, b.value);
      if r.Err? then
        RolesReplace(above, slots[b.value], below, above, s, below);
        Update(above + ([s] + below), Fail(Tier(b.value)))
      else
        var c := Invalidate(above, 0, w);
        RolesReplace(above, slots[b.value], below, c.slots, s, below);
        Update(c.slots + ([s] + below),
               if c.failures == [] then Done(r.value) else Fail(Partial(c.failures)))
  }

  /** `put` and `put_many`. */
  function Write<S(!new)>(slots: seq<Slot<S>>, w: Tiers.Write, p: Policy): (u: Update<S, Displaced>)
    ensures |u.slots| == |slots| && Roles(u.slots) == Roles(slots)
  {
    if p.write.Around? then WriteAround(slots, w)
    else if Bottom(slots).None? then Update(slots, Fail(ReadOnly))
    else
      var r := WriteThrough(slots, w, p);
      Update(r.slots, if r.aborted.Some? then Fail(Tier(r.aborted.value)) else Done(r.evicted))
  }

  // --------------------------------------------------------------- promotion

  /** Copies of a hit written into tier `target` and the demotion that follows.
      Whatever falls off the bottom (`out`) the router forgets. */
  function Fill<S(!new)>(slots: seq<Slot<S>>, target: nat, w: Tiers.Write, demote: bool): (f: Sunk<S>)
    requires target < |slots|
    ensures |f.slots| == |slots| && Roles(f.slots) == Roles(slots)
  {
    if !slots[target].writable then Sunk(slots, [], [])
    else
      var above, below := slots[..target], slots[target + 1..];
      var (s, r) := slots[target].Accept(w);
      Around(slots, target);
      RolesReplace(above, slots[target], below, above, s, below);
      if r.Err? then Sunk(above + ([s] + below), [], [])
      else if !demote then Sunk(above + ([s] + below), r.value, [])
      else
        var c := Cascade(below, r.value);
        RolesReplace(above, slots[target], below, above, s, c.slots);
        Sunk(above + ([s] + c.slots), c.out, c.dropped)
  }

  /** Fills tiers `from` up to but not including `to`, topmost first. */
  function FillRange<S(!new)>(slots: seq<Slot<S>>, from: nat, to: nat, w: Tiers.Write, demote: bool): (f: Sunk<S>)
    requires to <= |slots|
    ensures |f.slots| == |slots| && Roles(f.slots) == Roles(slots)
    decreases if from < to then to - from else 0
  {
    if from >= to then Sunk(slots, [], [])
    else
      var f := Fill(slots, from, w, demote);
      var g := FillRange(f.slots, from + 1, to, w, demote);
      Sunk(g.slots, f.out + g.out, f.dropped + g.dropped)
  }

  // -------------------------------------------------------------- single read

  datatype Probed<!S(!new), +T> = Probed(slots: seq<Slot<S>>, hit: Option<(nat, T)>, failures: seq<nat>, aborted: bool)

  /** Asks the tiers for `k` top-down until one has it. */
  function ProbeOne<S(!new)>(slots: seq<Slot<S>>, base: nat, k: Key, onError: OnReadError): (p: Probed<S, Value>)
    ensures |p.slots| == |slots| && Roles(p.slots) == Roles(slots)
    ensures p.hit.Some? ==> base <= p.hit.value.0 < base + |slots| && !p.aborted
    ensures p.aborted ==> p.failures != []
    decreases |slots|
  {
    if slots == [] then Probed([], None, [], false)
    else
      var (s, r) := slots[0].Get(k);
      if r.Ok? && r.value.Some? then Probed([s] + slots[1..], Some((base, r.value.value)), [], false)
      else if r.Err? && onError.FailFast? then Probed([s] + slots[1..], None, [base], true)
      else
        var p := ProbeOne(slots[1..], base + 1, k, onError);
        p.(slots := [s] + p.slots, failures := (if r.Err? then [base] else []) + p.failures)
  }

  /** `exists` asks the same way and promotes nothing. */
  function ProbeHas<S(!new)>(slots: seq<Slot<S>>, base: nat, k: Key, onError: OnReadError): (p: Probed<S, ()>)
    ensures |p.slots| == |slots| && Roles(p.slots) == Roles(slots)
    ensures p.aborted ==> p.failures != []
    decreases |slots|
  {
    if slots == [] then Probed([], None, [], false)
    else
      var (s, r) := slots[0].Exists(k);
      if r.Ok? && r.value then Probed([s] + slots[1..], Some((base, ())), [], false)
      else if r.Err? && onError.FailFast? then Probed([s] + slots[1..], None, [base], true)
      else
        var p := ProbeHas(slots[1..], base + 1, k, onError);
        p.(slots := [s] + p.slots, failures := (if r.Err? then [base] else []) + p.failures)
  }

  /** What a read answers, from what its probes saw: absence is only reported when
      no tier failed. */
  function Conclude<S(!new), T>(p: Probed<S, T>): Outcome<Option<T>> {
    if p.hit.Some? then Done(Some(p.hit.value.1))
    else if p.aborted && p.failures != [] then Fail(Tier(p.failures[|p.failures| - 1]))
    else if p.failures != [] then Fail(Inconclusive(p.failures))
    else Done(None)
  }

  datatype Fetched<!S(!new)> = Fetched(slots: seq<Slot<S>>, outcome: Outcome<Option<Value>>, out: Displaced, dropped: seq<Entry>)

  function Get<S(!new)>(slots: seq<Slot<S>>, k: Key, p: Policy): (f: Fetched<S>)
    ensures |f.slots| == |slots| && Roles(f.slots) == Roles(slots)
  {
    var q := ProbeOne(slots, 0, k, p.onReadError);
    if q.hit.None? then Fetched(q.slots, Conclude(q), [], [])
    else
      var g := FillRange(q.slots, 0, Reach(p.promote, q.hit.value.0), Single((k, q.hit.value.1)), p.demote);
      Fetched(g.slots, Conclude(q), g.out, g.dropped)
  }

  function Exists<S(!new)>(slots: seq<Slot<S>>, k: Key, p: Policy): (u: Update<S, bool>)
    ensures |u.slots| == |slots| && Roles(u.slots) == Roles(slots)
  {
    var q := ProbeHas(slots, 0, k, p.onReadError);
    var c := Conclude(q);
    Update(q.slots, if c.Done? then Done(c.value.Some?) else Fail(c.error))
  }

  // ------------------------------------------------------------- batched read

  predicate Within(indices: seq<nat>, n: nat) {
    forall i :: 0 <= i < |indices| ==> indices[i] < n
  }

  /** Records the values a tier returned for the keys still pending. */
  function Mark(statuses: seq<KeyStatus>, pending: seq<nat>, found: seq<Option<Value>>, tier: nat): (r: seq<KeyStatus>)
    requires Within(pending, |statuses|)
    ensures |r| == |statuses|
    decreases |pending|
  {
    if pending == [] || found == [] then statuses
    else
      Mark(if found[0].Some? then statuses[pending[0] := Hit(tier, found[0].value)] else statuses,
           pending[1..], found[1..], tier)
  }

  /** The keys a tier left pending. */
  function Missing(pending: seq<nat>, found: seq<Option<Value>>): (r: seq<nat>)
    ensures forall n :: Within(pending, n) ==> Within(r, n)
  {
    if pending == [] || found == [] then []
    else
      assert forall n :: Within(pending, n) ==> pending[0] < n && Within(pending[1..], n);
      (if found[0].Some? then [] else [pending[0]]) + Missing(pending[1..], found[1..])
  }

  function Pick<T>(items: seq<T>, indices: seq<nat>): (r: seq<T>)
    requires Within(indices, |items|)
    ensures |r| == |indices|
    ensures forall i :: 0 <= i < |r| ==> r[i] == items[indices[i]]
  {
    seq(|indices|, i requires 0 <= i < |indices| => items[indices[i]])
  }

  datatype Swept<!S(!new)> = Swept(slots: seq<Slot<S>>, statuses: seq<KeyStatus>, pending: seq<nat>,
                                   failures: seq<nat>, aborted: bool)

  /** Asks each tier in turn for the keys no tier above it had. */
  function ProbeMany<S(!new)>(slots: seq<Slot<S>>, base: nat, keys: seq<Key>, pending: seq<nat>,
                              statuses: seq<KeyStatus>, onError: OnReadError): (q: Swept<S>)
    requires |statuses| == |keys|
    requires Within(pending, |keys|)
    ensures |q.slots| == |slots| && Roles(q.slots) == Roles(slots)
    ensures |q.statuses| == |keys|
    ensures Within(q.pending, |keys|)
    ensures q.aborted ==> q.failures != []
    decreases |slots|
  {
    if slots == [] || pending == [] then Swept(slots, statuses, pending, [], false)
    else
      var (s, r) := slots[0].GetMany(Pick(keys, pending));
      if r.Ok? then
        var q := ProbeMany(slots[1..], base + 1, keys, Missing(pending, r.value),
                           Mark(statuses, pending, r.value, base), onError);
        q.(slots := [s] + q.slots)
      else if onError.FailFast? then Swept([s] + slots[1..], statuses, pending, [base], true)
      else
        var q := ProbeMany(slots[1..], base + 1, keys, pending, statuses, onError);
        q.(slots := [s] + q.slots, failures := [base] + q.failures)
  }

  /** Keys still pending past a failing tier are unknown, not absent. */
  function Blur(statuses: seq<KeyStatus>, pending: seq<nat>): (r: seq<KeyStatus>)
    requires Within(pending, |statuses|)
    ensures |r| == |statuses|
    ensures forall j :: 0 <= j < |r| ==> r[j] == if j in pending then Unknown else statuses[j]
  {
    seq(|statuses|, j requires 0 <= j < |statuses| => if j in pending then Unknown else statuses[j])
  }

  /** The entries tier `tier` served, in request order. */
  function HitsAt(keys: seq<Key>, statuses: seq<KeyStatus>, tier: nat): seq<Entry>
    requires |keys| == |statuses|
  {
    if keys == [] then []
    else (if statuses[0].Hit? && statuses[0].tier == tier then [(keys[0], statuses[0].value)] else [])
         + HitsAt(keys[1..], statuses[1..], tier)
  }

  /** One tier's share of a batch promotion. */
  function PromoteTier<S(!new)>(slots: seq<Slot<S>>, tier: nat, keys: seq<Key>, statuses: seq<KeyStatus>, p: Policy): (f: Sunk<S>)
    requires |keys| == |statuses| && tier < |slots|
    ensures |f.slots| == |slots| && Roles(f.slots) == Roles(slots)
  {
    var entries := HitsAt(keys, statuses, tier);
    if entries == [] then Sunk(slots, [], [])
    else FillRange(slots, 0, Reach(p.promote, tier), Batch(entries), p.demote)
  }

  /** Promotes what tiers `from` and below served. */
  function PromoteFrom<S(!new)>(slots: seq<Slot<S>>, from: nat, keys: seq<Key>, statuses: seq<KeyStatus>, p: Policy): (f: Sunk<S>)
    requires |keys| == |statuses|
    ensures |f.slots| == |slots| && Roles(f.slots) == Roles(slots)
    decreases if from < |slots| then |slots| - from else 0
  {
    if from >= |slots| then Sunk(slots, [], [])
    else
      var f := PromoteTier(slots, from, keys, statuses, p);
      var g := PromoteFrom(f.slots, from + 1, keys, statuses, p);
      Sunk(g.slots, f.out + g.out, f.dropped + g.dropped)
  }

  lemma {:induction false} PromoteNever<S(!new)>(slots: seq<Slot<S>>, from: nat, keys: seq<Key>, statuses: seq<KeyStatus>, p: Policy)
    requires p.promote.Never? && |keys| == |statuses|
    ensures PromoteFrom(slots, from, keys, statuses, p) == Sunk(slots, [], [])
    decreases if from < |slots| then |slots| - from else 0
  {
    if from < |slots| {
      PromoteNever(slots, from + 1, keys, statuses, p);
    }
  }

  datatype FetchedMany<!S(!new)> = FetchedMany(slots: seq<Slot<S>>, outcome: Outcome<ReadReport>, out: Displaced, dropped: seq<Entry>)

  function ReadMany<S(!new)>(slots: seq<Slot<S>>, keys: seq<Key>, p: Policy): (f: FetchedMany<S>)
    ensures |f.slots| == |slots| && Roles(f.slots) == Roles(slots)
    ensures f.outcome.Done? ==> |f.outcome.value.statuses| == |keys|
  {
    var q := ProbeMany(slots, 0, keys, seq(|keys|, i => i), seq(|keys|, i => Miss), p.onReadError);
    if q.aborted then FetchedMany(q.slots, Fail(Tier(q.failures[|q.failures| - 1])), [], [])
    else
      var statuses := if q.failures == [] then q.statuses else Blur(q.statuses, q.pending);
      var f := PromoteFrom(q.slots, 0, keys, statuses, p);
      FetchedMany(f.slots, Done(ReadReport(statuses, q.failures)), f.out, f.dropped)
  }

  /** The value a status carries. */
  function Answer(status: KeyStatus): Option<Value> {
    if status.Hit? then Some(status.value) else None
  }

  function Answers(statuses: seq<KeyStatus>): (r: seq<Option<Value>>)
    ensures |r| == |statuses|
    ensures forall i :: 0 <= i < |r| ==> r[i] == Answer(statuses[i])
  {
    seq(|statuses|, i requires 0 <= i < |statuses| => Answer(statuses[i]))
  }

  /** The batched read of the tier interface: one unknown key spoils the batch. */
  function GetMany<S(!new)>(slots: seq<Slot<S>>, keys: seq<Key>, p: Policy): (u: Update<S, seq<Option<Value>>>)
    ensures |u.slots| == |slots| && Roles(u.slots) == Roles(slots)
  {
    var f := ReadMany(slots, keys, p);
    Update(f.slots,
           if f.outcome.Fail? then Fail(f.outcome.error)
           else if Unknown in f.outcome.value.statuses then Fail(Inconclusive(f.outcome.value.failures))
           else Done(Answers(f.outcome.value.statuses)))
  }

  // ----------------------------------------------------------------- removal

  datatype Removed<!S(!new)> = Removed(slots: seq<Slot<S>>, existed: bool, failures: seq<nat>)

  function DeleteFrom<S(!new)>(slots: seq<Slot<S>>, base: nat, k: Key): (d: Removed<S>)
    ensures |d.slots| == |slots| && Roles(d.slots) == Roles(slots)
    decreases |slots|
  {
    if slots == [] then Removed([], false, [])
    else if !slots[0].writable then
      var d := DeleteFrom(slots[1..], base + 1, k);
      d.(slots := [slots[0]] + d.slots)
    else
      var (s, r) := slots[0].Delete(k);
      var d := DeleteFrom(slots[1..], base + 1, k);
      Removed([s] + d.slots, (r.Ok? && r.value) || d.existed, (if r.Ok? then [] else [base]) + d.failures)
  }

  function Delete<S(!new)>(slots: seq<Slot<S>>, k: Key): (u: Update<S, bool>)
    ensures |u.slots| == |slots| && Roles(u.slots) == Roles(slots)
  {
    var d := DeleteFrom(slots, 0, k);
    Update(d.slots, if d.failures == [] then Done(d.existed) else Fail(Partial(d.failures)))
  }

  function OrFlags(a: seq<bool>, b: seq<bool>): (r: seq<bool>)
    ensures |r| == |a|
    ensures forall i :: 0 <= i < |a| ==> r[i] == (a[i] || (i < |b| && b[i]))
  {
    seq(|a|, i requires 0 <= i < |a| => a[i] || (i < |b| && b[i]))
  }

  datatype RemovedMany<!S(!new)> = RemovedMany(slots: seq<Slot<S>>, report: DeleteReport)

  function RemoveFrom<S(!new)>(slots: seq<Slot<S>>, base: nat, keys: seq<Key>, removed: seq<bool>): (d: RemovedMany<S>)
    requires |removed| == |keys|
    ensures |d.slots| == |slots| && Roles(d.slots) == Roles(slots)
    ensures |d.report.removed| == |keys|
    decreases |slots|
  {
    if slots == [] then RemovedMany([], DeleteReport(removed, []))
    else if !slots[0].writable then
      var d := RemoveFrom(slots[1..], base + 1, keys, removed);
      d.(slots := [slots[0]] + d.slots)
    else
      var (s, r) := slots[0].DeleteMany(keys);
      var d := RemoveFrom(slots[1..], base + 1, keys, if r.Ok? then OrFlags(removed, r.value) else removed);
      RemovedMany([s] + d.slots, d.report.(failures := (if r.Ok? then [] else [base]) + d.report.failures))
  }

  function RemoveMany<S(!new)>(slots: seq<Slot<S>>, keys: seq<Key>): (d: RemovedMany<S>)
    ensures |d.slots| == |slots| && Roles(d.slots) == Roles(slots)
    ensures |d.report.removed| == |keys|
  {
    RemoveFrom(slots, 0, keys, seq(|keys|, i => false))
  }

  /** The batched delete of the tier interface: any failure spoils the batch. */
  function DeleteMany<S(!new)>(slots: seq<Slot<S>>, keys: seq<Key>): (u: Update<S, seq<bool>>)
    ensures |u.slots| == |slots| && Roles(u.slots) == Roles(slots)
  {
    var d := RemoveMany(slots, keys);
    Update(d.slots, if d.report.failures == [] then Done(d.report.removed) else Fail(Partial(d.report.failures)))
  }
}
