/** What a removal answers, and what it does to each tier, for every fault pattern:
    stated on the tiers as they were before it, by their own calls. */
module RemovalAnswers {
  import opened Bindings
  import opened Tiers
  import opened Views
  import opened Blame
  import Stack

  /** A removal reaches a tier either as `delete` or as `delete_many`. */
  datatype Removal = One(key: Key) | Many(keys: seq<Key>) {
    function Size(): nat {
      if One? then 1 else |keys|
    }
  }

  /** A tier's own answer to a removal, one flag per key. */
  ghost function Remove<S(!new)>(slot: Slot<S>, a: Removal): (S, Result<seq<bool>>) {
    if a.One? then
      var (s, r) := slot.backend.delete(slot.tier, a.key); (s, if r.Ok? then Ok([r.value]) else Err)
    else slot.backend.deleteMany(slot.tier, a.keys)
  }

  ghost predicate Refuses<S(!new)>(slot: Slot<S>, a: Removal) {
    slot.writable && Remove(slot, a).1.Err?
  }

  ghost function Refusals<S(!new)>(slots: seq<Slot<S>>, a: Removal): (bad: seq<bool>)
    ensures |bad| == |slots|
    ensures forall i :: 0 <= i < |slots| ==> bad[i] == Refuses(slots[i], a)
  {
    if slots == [] then [] else [Refuses(slots[0], a)] + Refusals(slots[1..], a)
  }

  /** What a removal leaves of a writable tier, its counters included. */
  ghost predicate OwnRemoval<S(!new)>(before: Slot<S>, a: Removal, after: Slot<S>) {
    var (s, r) := Remove(before, a);
    var c, d := before.counters, after.counters;
    && after.tier == s && after.backend == before.backend && after.writable == before.writable
    && d.hits == c.hits && d.misses == c.misses && d.puts == c.puts
    && d.errors == c.errors + (if r.Err? then 1 else 0)
    && d.deletes == c.deletes + (if r.Ok? then a.Size() else 0)
  }

  /** Every writable tier is asked, whatever the others answered; the read-only ones
      are left alone. */
  ghost predicate OwnRemovals<S(!new)>(before: seq<Slot<S>>, a: Removal, after: seq<Slot<S>>) {
    |before| == |after| &&
    (before == [] || ((if before[0].writable then OwnRemoval(before[0], a, after[0]) else after[0] == before[0])
                      && OwnRemovals(before[1..], a, after[1..])))
  }

  /** A removal counts an error exactly when some tier refuses it. */
  lemma {:induction false} ErrorsTell<S(!new)>(before: seq<Slot<S>>, a: Removal, after: seq<Slot<S>>)
    requires OwnRemovals(before, a, after)
    ensures Errors(after) >= Errors(before)
    ensures Errors(after) == Errors(before) <==> true !in Refusals(before, a)
  {
    if before != [] {
      ErrorsTell(before[1..], a, after[1..]);
      assert Refusals(before, a) == [Refuses(before[0], a)] + Refusals(before[1..], a);
    }
  }

  // ------------------------------------------------------------------ one key

  /** Some writable tier answered that it had the key. */
  ghost predicate SomeHad<S(!new)>(slots: seq<Slot<S>>, a: Removal, j: nat) {
    exists i :: 0 <= i < |slots| && Had(slots[i], a, j)
  }

  ghost predicate Had<S(!new)>(slot: Slot<S>, a: Removal, j: nat) {
    var r := Remove(slot, a).1;
    slot.writable && r.Ok? && j < |r.value| && r.value[j]
  }

  lemma {:induction false} SomeHadTail<S(!new)>(slots: seq<Slot<S>>, a: Removal, j: nat)
    requires slots != []
    ensures SomeHad(slots, a, j) <==> Had(slots[0], a, j) || SomeHad(slots[1..], a, j)
  {
    if i :| 0 <= i < |slots| && Had(slots[i], a, j) {
      assert i > 0 ==> Had(slots[1..][i - 1], a, j);
    }
    if i :| 0 <= i < |slots[1..]| && Had(slots[1..][i], a, j) {
      assert Had(slots[i + 1], a, j);
    }
  }

  lemma {:induction false} DeleteFromTells<S(!new)>(slots: seq<Slot<S>>, base: nat, k: Key)
    ensures var d := Stack.DeleteFrom(slots, base, k);
      && OwnRemovals(slots, One(k), d.slots)
      && (d.existed <==> SomeHad(slots, One(k), 0))
      && Names(d.failures, base, Refusals(slots, One(k)))
    decreases |slots|
  {
    if slots != [] {
      var d, rest := Stack.DeleteFrom(slots, base, k), Stack.DeleteFrom(slots[1..], base + 1, k);
      DeleteFromTells(slots[1..], base + 1, k);
      SomeHadTail(slots, One(k), 0);
      assert d.slots[1..] == rest.slots;
      NamesOne(rest.failures, base, Refusals(slots, One(k)));
      assert d.failures == (if Refuses(slots[0], One(k)) then [base] else []) + rest.failures;
    }
  }

  /** The answer of `delete`, for every fault pattern: if no writable tier refused,
      whether one had the key; otherwise a partial error naming exactly the tiers that
      refused. Every writable tier was asked either way. */
  lemma {:induction false} DeleteAnswers<S(!new)>(slots: seq<Slot<S>>, k: Key)
    ensures var u, bad := Stack.Delete(slots, k), Refusals(slots, One(k));
      && OwnRemovals(slots, One(k), u.slots)
      && (u.outcome.Done? <==> Errors(u.slots) == Errors(slots))
      && (u.outcome.Done? <==> true !in bad)
      && (u.outcome.Done? ==> (u.outcome.value <==> SomeHad(slots, One(k), 0)))
      && (u.outcome.Fail? ==> u.outcome.error.Partial? && Names(u.outcome.error.failures, 0, bad))
  {
    DeleteFromTells(slots, 0, k);
    NamesNobody(Stack.DeleteFrom(slots, 0, k).failures, 0, Refusals(slots, One(k)));
    ErrorsTell(slots, One(k), Stack.Delete(slots, k).slots);
  }

  // ---------------------------------------------------------------- many keys

  lemma {:induction false} RemoveFromTells<S(!new)>(slots: seq<Slot<S>>, base: nat, keys: seq<Key>, removed: seq<bool>)
    requires |removed| == |keys|
    ensures var d := Stack.RemoveFrom(slots, base, keys, removed);
      && OwnRemovals(slots, Many(keys), d.slots)
      && Names(d.report.failures, base, Refusals(slots, Many(keys)))
    decreases |slots|
  {
    if slots != [] {
      var r := slots[0].backend.deleteMany(slots[0].tier, keys).1;
      var next := if slots[0].writable && r.Ok? then Stack.OrFlags(removed, r.value) else removed;
      var d, rest := Stack.RemoveFrom(slots, base, keys, removed), Stack.RemoveFrom(slots[1..], base + 1, keys, next);
      RemoveFromTells(slots[1..], base + 1, keys, next);
      assert d.slots[1..] == rest.slots;
      NamesOne(rest.report.failures, base, Refusals(slots, Many(keys)));
      assert d.report.failures == (if Refuses(slots[0], Many(keys)) then [base] else []) + rest.report.failures;
    }
  }

  lemma {:induction false} RemoveFromFlags<S(!new)>(slots: seq<Slot<S>>, base: nat, keys: seq<Key>, removed: seq<bool>, j: nat)
    requires |removed| == |keys| && j < |keys|
    ensures Stack.RemoveFrom(slots, base, keys, removed).report.removed[j] <==> removed[j] || SomeHad(slots, Many(keys), j)
    decreases |slots|
  {
    if slots != [] {
      var r := slots[0].backend.deleteMany(slots[0].tier, keys).1;
      var next := if slots[0].writable && r.Ok? then Stack.OrFlags(removed, r.value) else removed;
      RemoveFromFlags(slots[1..], base + 1, keys, next, j);
      SomeHadTail(slots, Many(keys), j);
    }
  }

  /** `remove_many` reports, for every fault pattern, which keys some answering tier
      had and exactly which writable tiers refused. */
  lemma {:induction false} RemoveManyTells<S(!new)>(slots: seq<Slot<S>>, keys: seq<Key>)
    ensures var d := Stack.RemoveMany(slots, keys);
      && OwnRemovals(slots, Many(keys), d.slots)
      && (forall j :: 0 <= j < |keys| ==> (d.report.removed[j] <==> SomeHad(slots, Many(keys), j)))
      && Names(d.report.failures, 0, Refusals(slots, Many(keys)))
  {
    var none := seq(|keys|, i => false);
    RemoveFromTells(slots, 0, keys, none);
    forall j | 0 <= j < |keys|
      ensures Stack.RemoveMany(slots, keys).report.removed[j] <==> SomeHad(slots, Many(keys), j)
    {
      RemoveFromFlags(slots, 0, keys, none, j);
    }
  }

  /** The answer of `delete_many`, for every fault pattern. */
  lemma {:induction false} DeleteManyAnswers<S(!new)>(slots: seq<Slot<S>>, keys: seq<Key>)
    ensures var u, bad := Stack.DeleteMany(slots, keys), Refusals(slots, Many(keys));
      && OwnRemovals(slots, Many(keys), u.slots)
      && (u.outcome.Done? <==> Errors(u.slots) == Errors(slots))
      && (u.outcome.Done? <==> true !in bad)
      && (u.outcome.Done? ==> |u.outcome.value| == |keys|)
      && (u.outcome.Done? ==> forall j :: 0 <= j < |keys| ==> (u.outcome.value[j] <==> SomeHad(slots, Many(keys), j)))
      && (u.outcome.Fail? ==> u.outcome.error.Partial? && Names(u.outcome.error.failures, 0, bad))
  {
    RemoveManyTells(slots, keys);
    NamesNobody(Stack.RemoveMany(slots, keys).report.failures, 0, Refusals(slots, Many(keys)));
    ErrorsTell(slots, Many(keys), Stack.DeleteMany(slots, keys).slots);
  }
}
