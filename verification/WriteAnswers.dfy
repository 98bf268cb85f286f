/** What a write answers, and what it does to each tier, for every fault pattern:
    stated tier by tier on the stack as it was before the write. */
module WriteAnswers {
  import opened Bindings
  import opened Tiers
  import opened Views
  import opened Blame
  import RemovalAnswers
  import Stack

  /** The tier's own call for the write fails. */
  ghost predicate Refuses<S(!new)>(slot: Slot<S>, w: Write) {
    slot.writable && slot.backend.Accept(slot.tier, w).1.Err?
  }

  /** What a write's own call leaves of a tier, its counters included. */
  ghost predicate OwnWrite<S(!new)>(before: Slot<S>, w: Write, after: Slot<S>) {
    var (s, r) := before.backend.Accept(before.tier, w);
    var c, d := before.counters, after.counters;
    && after.tier == s && after.backend == before.backend && after.writable == before.writable
    && d.hits == c.hits && d.misses == c.misses && d.deletes == c.deletes
    && d.errors == c.errors + (if r.Err? then 1 else 0)
    && d.puts == c.puts + (if r.Ok? then |w.Entries()| else 0)
  }

  lemma {:induction false} AcceptIsOwn<S(!new)>(slot: Slot<S>, w: Write)
    ensures OwnWrite(slot, w, slot.Accept(w).0)
    ensures slot.Accept(w).1 == slot.backend.Accept(slot.tier, w).1
  {
  }

  // ----------------------------------------------------------- write-through

  /** The lowest writable tier whose own call fails. */
  ghost predicate LowestRefusing<S(!new)>(slots: seq<Slot<S>>, w: Write, i: nat) {
    i < |slots| && Refuses(slots[i], w) && forall j :: i < j < |slots| ==> !Refuses(slots[j], w)
  }

  ghost predicate AnyRefuses<S(!new)>(slots: seq<Slot<S>>, w: Write) {
    exists i :: 0 <= i < |slots| && Refuses(slots[i], w)
  }

  lemma {:induction false} TailRefuses<S(!new)>(slots: seq<Slot<S>>, w: Write)
    requires slots != []
    ensures AnyRefuses(slots, w) <==> Refuses(slots[0], w) || AnyRefuses(slots[1..], w)
    ensures forall i: nat :: LowestRefusing(slots, w, i + 1) <==> LowestRefusing(slots[1..], w, i)
    ensures LowestRefusing(slots, w, 0) <==> Refuses(slots[0], w) && !AnyRefuses(slots[1..], w)
  {
    if i :| 0 <= i < |slots| && Refuses(slots[i], w) {
      assert i > 0 ==> Refuses(slots[1..][i - 1], w);
    }
    if i :| 0 <= i < |slots[1..]| && Refuses(slots[1..][i], w) {
      assert Refuses(slots[i + 1], w);
    }
    forall i: nat
      ensures LowestRefusing(slots, w, i + 1) <==> LowestRefusing(slots[1..], w, i)
    {
      if LowestRefusing(slots, w, i + 1) {
        forall j | i < j < |slots[1..]|
          ensures !Refuses(slots[1..][j], w)
        {
          assert !Refuses(slots[j + 1], w);
        }
      }
      if LowestRefusing(slots[1..], w, i) {
        forall j | i + 1 < j < |slots|
          ensures !Refuses(slots[j], w)
        {
          assert !Refuses(slots[1..][j - 1], w);
        }
      }
    }
    if Refuses(slots[0], w) && !AnyRefuses(slots[1..], w) {
      forall j | 0 < j < |slots|
        ensures !Refuses(slots[j], w)
      {
        assert !Refuses(slots[1..][j - 1], w);
      }
    }
  }

  /** Where a write-through aborts: nowhere under best effort, otherwise at the lowest
      writable tier that refuses. */
  lemma {:induction false} AbortsWhere<S(!new)>(slots: seq<Slot<S>>, w: Write, p: Policy)
    ensures var r := Stack.WriteThrough(slots, w, p);
      && (p.onWriteError.BestEffort? ==> r.aborted.None?)
      && (p.onWriteError.Abort? ==> (r.aborted.Some? <==> AnyRefuses(slots, w)))
      && (r.aborted.Some? ==> LowestRefusing(slots, w, r.aborted.value))
  {
    if slots != [] {
      AbortsWhere(slots[1..], w, p);
      TailRefuses(slots, w);
    }
  }

  lemma {:induction false} OneLowest<S(!new)>(slots: seq<Slot<S>>, w: Write, i: nat, j: nat)
    requires LowestRefusing(slots, w, i) && LowestRefusing(slots, w, j)
    ensures i == j
  {
  }

  ghost predicate SomeWritable<S(!new)>(slots: seq<Slot<S>>) {
    exists i :: 0 <= i < |slots| && slots[i].writable
  }

  lemma {:induction false} BottomExists<S(!new)>(slots: seq<Slot<S>>)
    ensures Stack.Bottom(slots).Some? <==> SomeWritable(slots)
  {
    var b := Stack.Bottom(slots);
    assert b.Some? ==> slots[b.value].writable;
  }

  /** The answer of a write-through, for every fault pattern: read-only exactly when no
      tier is writable; best effort answers success whatever refuses; fail-fast fails
      exactly when a tier refuses, naming the lowest one. */
  lemma {:induction false} ThroughAnswers<S(!new)>(slots: seq<Slot<S>>, w: Write, p: Policy)
    requires p.write.Through?
    ensures var o := Stack.Write(slots, w, p).outcome;
      && (o == Stack.Fail(Stack.ReadOnly) <==> !SomeWritable(slots))
      && (SomeWritable(slots) && p.onWriteError.BestEffort? ==> o.Done?)
      && (SomeWritable(slots) && p.onWriteError.Abort? ==> (o.Done? <==> !AnyRefuses(slots, w)))
      && (p.onWriteError.Abort? ==> forall i :: o == Stack.Fail(Stack.Tier(i)) <==> LowestRefusing(slots, w, i))
  {
    BottomExists(slots);
    AbortsWhere(slots, w, p);
    var r := Stack.WriteThrough(slots, w, p);
    var o := Stack.Write(slots, w, p).outcome;
    if p.onWriteError.Abort? {
      forall i: nat
        ensures o == Stack.Fail(Stack.Tier(i)) <==> LowestRefusing(slots, w, i)
      {
        if LowestRefusing(slots, w, i) {
          assert slots[i].writable && AnyRefuses(slots, w);
          OneLowest(slots, w, i, r.aborted.value);
        }
      }
    }
  }

  ghost predicate TopWritable<S(!new)>(slots: seq<Slot<S>>, top: nat) {
    top < |slots| && slots[top].writable && forall i :: 0 <= i < top ==> !slots[i].writable
  }

  /** A write-through that does not stop reaches every writable tier: the top one ends
      as its own call leaves it. */
  lemma {:induction false} TopWritten<S(!new)>(slots: seq<Slot<S>>, w: Write, p: Policy, top: nat)
    requires TopWritable(slots, top) && Stack.WriteThrough(slots, w, p).aborted.None?
    ensures OwnWrite(slots[top], w, Stack.WriteThrough(slots, w, p).slots[top])
  {
    var r := Stack.WriteThrough(slots, w, p);
    if top == 0 {
      AcceptIsOwn(slots[0], w);
    } else {
      assert !slots[0].writable;
      var b := Stack.WriteThrough(slots[1..], w, p);
      TopWritten(slots[1..], w, p, top - 1);
      assert r.slots[top] == b.slots[top - 1];
    }
  }

  /** Under best effort the write succeeds and the top writable tier is written,
      whatever the tiers below did. */
  lemma {:induction false} BestEffortReachesTop<S(!new)>(slots: seq<Slot<S>>, w: Write, p: Policy, top: nat)
    requires p.write.Through? && p.onWriteError.BestEffort? && TopWritable(slots, top)
    ensures var u := Stack.Write(slots, w, p);
      && u.outcome.Done? && u.slots[top].tier == slots[top].backend.Accept(slots[top].tier, w).0
      && OwnWrite(slots[top], w, u.slots[top])
  {
    assert SomeWritable(slots);
    ThroughAnswers(slots, w, p);
    AbortsWhere(slots, w, p);
    BottomExists(slots);
    TopWritten(slots, w, p, top);
  }

  /** What the tiers' own calls displace, bottom-up. */
  ghost function Displacements<S(!new)>(slots: seq<Slot<S>>, w: Write): Displaced {
    if slots == [] then []
    else
      var r := slots[0].backend.Accept(slots[0].tier, w).1;
      Displacements(slots[1..], w) + (if slots[0].writable && r.Ok? then r.value else [])
  }

  /** Every writable tier is as its own call leaves it, the others as they were. */
  ghost predicate OwnWrites<S(!new)>(before: seq<Slot<S>>, w: Write, after: seq<Slot<S>>) {
    |before| == |after| &&
    (before == [] || ((if before[0].writable then OwnWrite(before[0], w, after[0]) else after[0] == before[0])
                      && OwnWrites(before[1..], w, after[1..])))
  }

  /** Without demotion a write that does not stop is just every writable tier's own
      call, and hands back all they displaced, bottom-up. */
  lemma {:induction false} WithoutDemotion<S(!new)>(slots: seq<Slot<S>>, w: Write, p: Policy)
    requires !p.demote && Stack.WriteThrough(slots, w, p).aborted.None?
    ensures var r := Stack.WriteThrough(slots, w, p);
      r.evicted == Displacements(slots, w) && OwnWrites(slots, w, r.slots)
  {
    if slots != [] {
      var r, b := Stack.WriteThrough(slots, w, p), Stack.WriteThrough(slots[1..], w, p);
      WithoutDemotion(slots[1..], w, p);
      AcceptIsOwn(slots[0], w);
      assert r.slots[1..] == b.slots;
      assert b.evicted + [] == b.evicted;
    }
  }

  /** With demotion off too, a one-tier stack meets the insert contract. */
  lemma {:induction false} OneTierMeetsContract<S(!new)>(slot: Slot<S>, w: Write, p: Policy)
    requires slot.Sound() && slot.writable && p.write.Through?
    requires Errors(Stack.Write([slot], w, p).slots) == slot.counters.errors
    ensures var u := Stack.Write([slot], w, p);
      u.outcome.Done? && Accepted(View([slot]), w.Entries(), View(u.slots), u.outcome.value)
  {
    var slots, none: seq<Slot<S>> := [slot], [];
    assert slots[1..] == none && slots[0] == slot;
    var u := Stack.Write(slots, w, p);
    BottomExists(slots);
    AcceptIsOwn(slot, w);
    var (s, r) := slot.Accept(w);
    var b := Stack.WriteThrough(none, w, p);
    var t := Stack.WriteTop(slot, b, w, p);
    assert Stack.WriteThrough(slots, w, p) == t;
    assert t.slots == [s] && [s][1..] == [];
    assert Errors([s]) == s.counters.errors;
    assert u.slots == [s];
    assert r.Ok?;
    assert slot.backend.WriteOk(slot.tier, w);
    assert Stack.Cascade(none, r.value) == Stack.Sunk(none, r.value, []);
    assert [] + r.value == r.value;
    assert View(none) == map[];
    assert View(slots) == slot.backend.view(slot.tier) && View([s]) == s.backend.view(s.tier);
  }

  /** Entries pushed into a tier by demotion: one put each, counted as a put or as an
      error, in order. */
  lemma {:induction false} PourInTurn<S(!new)>(slot: Slot<S>, a: seq<Entry>, b: seq<Entry>)
    ensures var p := Stack.Pour(slot, a);
      var q := Stack.Pour(p.slot, b);
      Stack.Pour(slot, a + b) == Stack.Poured(q.slot, p.next + q.next, p.dropped + q.dropped)
    decreases |a|
  {
    if a == [] {
      assert a + b == b;
    } else {
      var (s, r) := slot.Accept(Single(a[0]));
      assert (a + b)[1..] == a[1..] + b;
      PourInTurn(s, a[1..], b);
      var p := Stack.Pour(s, a[1..]);
      var q := Stack.Pour(p.slot, b);
      if r.Ok? {
        assert r.value + (p.next + q.next) == (r.value + p.next) + q.next;
      } else {
        assert [a[0]] + (p.dropped + q.dropped) == ([a[0]] + p.dropped) + q.dropped;
      }
    }
  }

  lemma {:induction false} PourOfOne<S(!new)>(slot: Slot<S>, entry: Entry)
    ensures var p, r := Stack.Pour(slot, [entry]), slot.backend.put(slot.tier, entry.0, entry.1).1;
      && OwnWrite(slot, Single(entry), p.slot)
      && (if r.Ok? then p.next == r.value && p.dropped == [] else p.next == [] && p.dropped == [entry])
  {
    AcceptIsOwn(slot, Single(entry));
    var s := slot.Accept(Single(entry)).0;
    var none: seq<Entry> := [];
    assert [entry][1..] == none && Stack.Pour(s, none) == Stack.Poured(s, none, none);
  }

  // ------------------------------------------------------------- write-around

  /** The removal that matches a write. */
  ghost function Undoing(w: Write): RemovalAnswers.Removal {
    if w.Single? then RemovalAnswers.One(w.entry.0) else RemovalAnswers.Many(Keys(w.entries))
  }

  lemma {:induction false} InvalidateTells<S(!new)>(slots: seq<Slot<S>>, base: nat, w: Write)
    ensures var c := Stack.Invalidate(slots, base, w);
      && RemovalAnswers.OwnRemovals(slots, Undoing(w), c.slots)
      && Names(c.failures, base, RemovalAnswers.Refusals(slots, Undoing(w)))
    decreases |slots|
  {
    if slots != [] {
      var c, rest := Stack.Invalidate(slots, base, w), Stack.Invalidate(slots[1..], base + 1, w);
      InvalidateTells(slots[1..], base + 1, w);
      assert c.slots[1..] == rest.slots;
      NamesOne(rest.failures, base, RemovalAnswers.Refusals(slots, Undoing(w)));
      assert c.failures == (if RemovalAnswers.Refuses(slots[0], Undoing(w)) then [base] else []) + rest.failures;
    }
  }

  /** `bottom` is the lowest writable tier. */
  ghost predicate BottomWritable<S(!new)>(slots: seq<Slot<S>>, bottom: nat) {
    bottom < |slots| && slots[bottom].writable && forall i :: bottom < i < |slots| ==> !slots[i].writable
  }

  /** What a write-around does to the stack: the bottom tier is written; if that
      succeeds every writable tier above has the keys removed, otherwise nothing else
      changes. */
  lemma {:induction false} AroundWrites<S(!new)>(slots: seq<Slot<S>>, w: Write, bottom: nat)
    requires BottomWritable(slots, bottom)
    ensures var u := Stack.WriteAround(slots, w);
      && OwnWrite(slots[bottom], w, u.slots[bottom])
      && u.slots[bottom + 1..] == slots[bottom + 1..]
      && (if Refuses(slots[bottom], w) then u.slots[..bottom] == slots[..bottom]
          else RemovalAnswers.OwnRemovals(slots[..bottom], Undoing(w), u.slots[..bottom]))
  {
    assert Stack.Bottom(slots) == Some(bottom);
    AcceptIsOwn(slots[bottom], w);
    var u, s := Stack.WriteAround(slots, w), slots[bottom].Accept(w).0;
    InvalidateTells(slots[..bottom], 0, w);
    var above := if Refuses(slots[bottom], w) then slots[..bottom] else Stack.Invalidate(slots[..bottom], 0, w).slots;
    assert u.slots == above + ([s] + slots[bottom + 1..]);
    Parts(above, s, slots[bottom + 1..]);
  }

  lemma {:induction false} Parts<T>(above: seq<T>, x: T, below: seq<T>)
    ensures var all := above + ([x] + below);
      all[|above|] == x && all[..|above|] == above && all[|above| + 1..] == below
  {
  }

  /** The answer of a write-around, for every fault pattern: the bottom tier's refusal,
      or else a partial error naming exactly the tiers above whose removal failed, or
      else what the bottom tier displaced. */
  lemma {:induction false} AroundAnswers<S(!new)>(slots: seq<Slot<S>>, w: Write, bottom: nat)
    requires BottomWritable(slots, bottom)
    ensures var o, r := Stack.WriteAround(slots, w).outcome, slots[bottom].backend.Accept(slots[bottom].tier, w).1;
      var bad := RemovalAnswers.Refusals(slots[..bottom], Undoing(w));
      && (r.Err? ==> o == Stack.Fail(Stack.Tier(bottom)))
      && (r.Ok? && true !in bad ==> o == Stack.Done(r.value))
      && (r.Ok? && true in bad ==> o.Fail? && o.error.Partial? && Names(o.error.failures, 0, bad))
  {
    assert Stack.Bottom(slots) == Some(bottom);
    AcceptIsOwn(slots[bottom], w);
    InvalidateTells(slots[..bottom], 0, w);
    NamesNobody(Stack.Invalidate(slots[..bottom], 0, w).failures, 0, RemovalAnswers.Refusals(slots[..bottom], Undoing(w)));
  }

  lemma {:induction false} AroundReadOnly<S(!new)>(slots: seq<Slot<S>>, w: Write)
    ensures Stack.WriteAround(slots, w).outcome == Stack.Fail(Stack.ReadOnly) <==> !SomeWritable(slots)
  {
    BottomExists(slots);
  }
}
