/** Claims that look true of the stack and are not, each with a stack that shows it. */
module Counterexamples {
  import opened Bindings
  import opened Tiers
  import opened Recency
  import opened Views
  import opened Defaults
  import opened MemoryTier
  import Contract
  import Stack
  import Store

  /** An unbounded tier that fails to rewrite one key, and loses it when it does: after
      an error its contents for that key are unspecified. */
  ghost function FlakyCore(flaky: Key): Core<seq<Item>> {
    Core(
      (items: seq<Item>) => Distinct(items),
      (items: seq<Item>) => Held(items),
      (items: seq<Item>, k: Key) => (items, Ok(Lookup(Held(items), k))),
      (items: seq<Item>, k: Key) => (items, Ok(Has(items, k))),
      (items: seq<Item>, k: Key, v: Value) =>
        if k == flaky && Has(items, k) then (Without(items, k), Err) else (Placed(items, Item(k, v, 0), Fifo), Ok([])),
      (items: seq<Item>, k: Key) => (Without(items, k), Ok(Has(items, k))))
  }

  lemma {:induction false} FlakyIsATier(flaky: Key)
    ensures FlakyCore(flaky).Tier().Honest() && FlakyCore(flaky).Tier().ErrorsConfined()
  {
    var c := FlakyCore(flaky);
    forall s, k | c.inv(s) ensures c.Tier().GetOk(s, k) && c.Tier().ExistsOk(s, k) && c.Tier().DeleteOk(s, k) {
      HeldAt(s, k);
      DistinctWithout(s, k);
      HeldWithout(s, k);
    }
    forall s, e | c.inv(s) ensures c.Tier().WriteOk(s, Single(e)) {
      DistinctPlaced(s, Item(e.0, e.1, 0), Fifo);
      HeldPlaced(s, Item(e.0, e.1, 0), Fifo);
      DistinctWithout(s, e.0);
      assert map[] + Held(Placed(s, Item(e.0, e.1, 0), Fifo)) == Held(Placed(s, Item(e.0, e.1, 0), Fifo));
      assert Apply(Held(s), [e]) == Held(s)[e.0 := e.1];
    }
    c.TierHonest();
    forall s, k, v, x | c.inv(s) && c.put(s, k, v).1.Err? && x != k
      ensures Lookup(c.view(c.put(s, k, v).0), x) == Lookup(c.view(s), x)
    {
      HeldWithout(s, k);
    }
  }

  /** A FIFO memory tier that holds at most `n` entries, if bounded. */
  ghost function FifoCore(n: Option<nat>): Core<seq<Item>> {
    MemoryCore(Limits(n, None), Fifo, (k, v) => 0)
  }

  ghost function Bounded(n: nat, items: seq<Item>): Slot<seq<Item>> {
    Slot(items, FifoCore(Some(n)).Tier(), true, Counters(0, 0, 0, 0, 0))
  }

  ghost function Flaky(flaky: Key, items: seq<Item>): Slot<seq<Item>> {
    Slot(items, FlakyCore(flaky).Tier(), true, Counters(0, 0, 0, 0, 0))
  }

  /** The tier of capacity one, or the flaky one, holding `items`. */
  ghost predicate Hot(slot: Slot<seq<Item>>, items: seq<Item>) {
    slot.writable && slot.backend == FifoCore(Some(1)).Tier() && slot.tier == items
  }

  ghost predicate Cold(slot: Slot<seq<Item>>, flaky: Key, items: seq<Item>) {
    slot.writable && slot.backend == FlakyCore(flaky).Tier() && slot.tier == items
  }

  /** What a bounded FIFO tier of capacity one does with a new key. */
  lemma {:induction false} OneOut(x: Item, y: Item)
    requires x.key != y.key
    ensures var placed := Placed([x], y, Fifo);
      var limits := Limits(Some(1), None);
      placed == [x, y] && Kept(placed, limits) == [y] && Evicted(placed, limits) == [(x.key, x.value)]
  {
    HasCons([x], y.key);
    assert [x][1..] == [];
    var placed, limits := Placed([x], y, Fifo), Limits(Some(1), None);
    assert placed == [x, y] && placed[1..] == [y];
    assert !Recency.Over([y], limits);
    assert Excess([y], limits) == 0 && Recency.Over(placed, limits);
    assert Excess(placed, limits) == 1;
  }

  /** The first put, on empty tiers, reaches both and displaces nothing. */
  lemma {:induction false} FirstPut(a: Key, v: Value) returns (hot: Slot<seq<Item>>, cold: Slot<seq<Item>>)
    ensures Hot(hot, [Item(a, v, 0)]) && Cold(cold, a, [Item(a, v, 0)])
    ensures Stack.WriteThrough([Bounded(1, []), Flaky(a, [])], Single((a, v)), Store.STORE_POLICY)
         == Stack.Written([hot, cold], [], [], 0, None)
  {
    var top, bottom, wr := Bounded(1, []), Flaky(a, []), Single((a, v));
    var nothing: Displaced := [];
    HasCons([], a);
    assert [] + [Item(a, v, 0)] == [Item(a, v, 0)];
    assert !Recency.Over([Item(a, v, 0)], Limits(Some(1), None));
    assert Excess([Item(a, v, 0)], Limits(Some(1), None)) == 0;
    assert Kept([Item(a, v, 0)], Limits(Some(1), None)) == [Item(a, v, 0)] && Evicted([Item(a, v, 0)], Limits(Some(1), None)) == [];
    hot := top.Accept(wr).0;
    cold := ColdTakes(bottom, wr.entry, a);
    assert [top, bottom][1..] == [bottom] && nothing + nothing == nothing;
    assert Stack.Cascade([cold], nothing) == Stack.Sunk([cold], nothing, []);
  }

  /** A flaky tier alone takes a key it does not hold. */
  lemma {:induction false} ColdTakes(bottom: Slot<seq<Item>>, e: Tiers.Entry, flaky: Key) returns (cold: Slot<seq<Item>>)
    requires Cold(bottom, flaky, bottom.tier) && !Has(bottom.tier, e.0)
    ensures Cold(cold, flaky, bottom.tier + [Item(e.0, e.1, 0)])
    ensures Stack.WriteThrough([bottom], Single(e), Store.STORE_POLICY) == Stack.Written([cold], [], [], 0, None)
  {
    var none: seq<Slot<seq<Item>>> := [];
    var nothing: Displaced := [];
    cold := bottom.Accept(Single(e)).0;
    assert [bottom][1..] == none && nothing + nothing == nothing && [cold] + none == [cold];
    assert Stack.Cascade(none, nothing) == Stack.Sunk(none, nothing, []);
  }

  /** The flaky tier fails on a demoted entry it still holds, and loses it. */
  lemma {:induction false} Refused(a: Key, v: Value, y: Item, slot: Slot<seq<Item>>)
    requires y.key != a && Cold(slot, a, [Item(a, v, 0), y])
    ensures Stack.Cascade([slot], [(a, v)]) == Stack.Sunk([slot.Failed([y])], [], [(a, v)])
  {
    var gone, slots, none: seq<Slot<seq<Item>>> := [(a, v)], [slot], [];
    var items := [Item(a, v, 0), y];
    assert gone[1..] == [] && slots[1..] == none;
    assert items[1..] == [y] && [y][1..] == [] && items[0].key == a;
    assert Without([y], a) == [y] && Without(items, a) == [] + [y] == [y];
    HasCons(items, a);
    assert slot.Accept(Single(gone[0])) == (slot.Failed([y]), Err);
    var p := Stack.Pour(slot, gone);
    assert Stack.Pour(slot.Failed([y]), gone[1..]) == Stack.Poured(slot.Failed([y]), [], []);
    assert [gone[0]] + [] == gone;
    assert p == Stack.Poured(slot.Failed([y]), [], gone);
    assert Stack.Cascade(none, p.next) == Stack.Sunk(none, [], []);
    assert gone + [] == gone && [p.slot] + none == [p.slot];
  }

  /** The second put: `b` is written below and on top, `a` is pushed out of the top
      tier, and the tier below fails on it. */
  lemma {:induction false} DroppingPut(a: Key, b: Key, v: Value, w: Value, top: Slot<seq<Item>>, bottom: Slot<seq<Item>>)
    returns (hot: Slot<seq<Item>>, cold: Slot<seq<Item>>)
    requires a != b && Hot(top, [Item(a, v, 0)]) && Cold(bottom, a, [Item(a, v, 0)])
    ensures Hot(hot, [Item(b, w, 0)]) && Cold(cold, a, [Item(b, w, 0)])
    ensures Stack.WriteThrough([top, bottom], Single((b, w)), Store.STORE_POLICY)
         == Stack.Written([hot, cold], [], [(a, v)], 0, None)
  {
    var x, y, wr := Item(a, v, 0), Item(b, w, 0), Single((b, w));
    HasCons([x], b);
    assert [x][1..] == [];
    var cold1 := ColdTakes(bottom, (b, w), a);
    assert [x] + [y] == [x, y];
    OneOut(x, y);
    hot := top.Accept(wr).0;
    cold := cold1.Failed([y]);
    Refused(a, v, y, cold1);
    assert [top, bottom][1..] == [bottom] && [] + [(a, v)] == [(a, v)];
    assert Stack.WriteTop(top, Stack.Written([cold1], [], [], 0, None), wr, Store.STORE_POLICY)
        == Stack.Written([hot, cold], [], [(a, v)], 0, None);
  }

  /** From two empty tiers, two store puts that both report success can lose the first
      entry: the top tier makes room by demoting `a`, the tier below fails to rewrite
      `a`, and demotion drops it. */
  lemma {:induction false} SilentDrop(a: Key, b: Key, v: Value, w: Value)
    requires a != b
    ensures var slots := [Bounded(1, []), Flaky(a, [])];
      var (middle, first) := Store.Put(slots, Single((a, v)), Store.STORE_POLICY);
      var (after, second) := Store.Put(middle, Single((b, w)), Store.STORE_POLICY);
      && Sound(slots) && AllWritable(slots)
      && first.Kept? && Top(middle, a) == Some(v)
      && second.Kept? && Top(after, a) == None
  {
    var slots := [Bounded(1, []), Flaky(a, [])];
    DropStackSound(a);
    var top, bottom := FirstPut(a, v);
    var hot, cold := DroppingPut(a, b, v, w, top, bottom);
    PairShows(top, bottom, a, Item(a, v, 0), a);
    PairShows(hot, cold, a, Item(b, w, 0), a);
    PutPlain(slots, Single((a, v)), [top, bottom], []);
    PutPlain([top, bottom], Single((b, w)), [hot, cold], [(a, v)]);
  }

  /** Both tiers hold the one item. */
  lemma {:induction false} PairShows(top: Slot<seq<Item>>, bottom: Slot<seq<Item>>, flaky: Key, item: Item, k: Key)
    requires Hot(top, [item]) && Cold(bottom, flaky, [item])
    ensures AllWritable([top, bottom]) && Sound([top, bottom])
    ensures Top([top, bottom], k) == if k == item.key then Some(item.value) else None
  {
    MemoryIsATier(Limits(Some(1), None), Fifo, (k, v) => 0);
    FlakyIsATier(flaky);
    assert [top, bottom][1..] == [bottom] && [bottom][1..] == [] && [item][1..] == [];
    assert Held([item]) == map[item.key := item.value];
    assert Distinct([item]);
    assert FifoCore(Some(1)).Tier().Honest() && top.Sound();
    assert Sound([bottom]) && AllWritable([bottom]);
    assert Top([bottom], k) == if k == item.key then Some(item.value) else None;
  }

  /** A store put is the stack's write-through, here with nothing evicted. */
  lemma {:induction false} PutPlain(slots: seq<Slot<seq<Item>>>, w: Write, after: seq<Slot<seq<Item>>>, dropped: seq<Tiers.Entry>)
    requires AllWritable(slots) && Sound(slots) && slots != []
    requires Stack.WriteThrough(slots, w, Store.STORE_POLICY) == Stack.Written(after, [], dropped, 0, None)
    ensures Store.Put(slots, w, Store.STORE_POLICY) == (after, Store.Kept)
  {
    Contract.AllWritableAbove(slots);
    Contract.BottomWritable(slots);
  }

  lemma {:induction false} DropStackSound(a: Key)
    ensures Sound([Bounded(1, []), Flaky(a, [])]) && AllWritable([Bounded(1, []), Flaky(a, [])])
  {
    var top, bottom := Bounded(1, []), Flaky(a, []);
    MemoryIsATier(Limits(Some(1), None), Fifo, (k, v) => 0);
    FlakyIsATier(a);
    assert [top, bottom][1..] == [bottom] && [bottom][1..] == [];
    assert Sound([bottom]) && AllWritable([bottom]);
  }

  // ----- a batched put makes copies disagree -----

  ghost function Roomy(items: seq<Item>): Slot<seq<Item>> {
    Slot(items, FifoCore(None).Tier(), true, Counters(0, 0, 0, 0, 0))
  }

  /** An unbounded tier replaces a held key in place and displaces nothing. */
  lemma {:induction false} RoomyPut(items: seq<Item>, k: Key, v: Value)
    ensures FifoCore(None).put(items, k, v) == (Placed(items, Item(k, v, 0), Fifo), Ok([]))
  {
    var placed := Placed(items, Item(k, v, 0), Fifo);
    assert Excess(placed, Limits(None, None)) == 0;
    assert Kept(placed, Limits(None, None)) == placed && Evicted(placed, Limits(None, None)) == [];
  }

  lemma {:induction false} BoundedPut(x: Item, y: Item)
    requires x.key != y.key && y.weight == 0
    ensures FifoCore(Some(1)).put([x], y.key, y.value) == ([y], Ok([(x.key, x.value)]))
  {
    OneOut(x, y);
  }

  /** Two items, one of them replaced. */
  lemma {:induction false} ReplaceInPair(x: Item, y: Item, z: Item)
    requires x.key != y.key
    ensures z.key == x.key ==> Placed([x, y], z, Fifo) == [z, y]
    ensures z.key == y.key ==> Placed([x, y], z, Fifo) == [x, z]
  {
    assert [x, y][1..] == [y] && [y][1..] == [];
    assert [x, y][0] == x && [x, y][1] == y;
    assert Replaced([y], z) == [if y.key == z.key then z else y] + Replaced([], z);
  }

  /** The batch on the unbounded tier below. */
  lemma {:induction false} ColdBatch(a: Key, b: Key, older: Value, x: Value, newer: Value)
    requires a != b
    ensures FifoCore(None).PutMany([Item(b, older, 0)], [(a, x), (b, newer)])
         == ([Item(b, newer, 0), Item(a, x, 0)], Ok([]))
  {
    var core := FifoCore(None);
    var es: seq<Tiers.Entry> := [(a, x), (b, newer)];
    RoomyPut([Item(b, older, 0)], a, x);
    HasCons([Item(b, older, 0)], a);
    assert [Item(b, older, 0)][1..] == [];
    assert Placed([Item(b, older, 0)], Item(a, x, 0), Fifo) == [Item(b, older, 0), Item(a, x, 0)];
    RoomyPut([Item(b, older, 0), Item(a, x, 0)], b, newer);
    ReplaceInPair(Item(b, older, 0), Item(a, x, 0), Item(b, newer, 0));
    assert es[1..] == [(b, newer)] && es[1..][1..] == [];
    assert core.PutMany([Item(b, newer, 0), Item(a, x, 0)], []) == ([Item(b, newer, 0), Item(a, x, 0)], Ok([]));
    var none: Displaced := [];
    assert none + none == none;
    assert core.PutMany([Item(b, older, 0), Item(a, x, 0)], es[1..]) == ([Item(b, newer, 0), Item(a, x, 0)], Ok([]));
  }

  /** The batch on the tier of capacity one above: the old `b` goes first, then `a`. */
  lemma {:induction false} HotBatch(a: Key, b: Key, older: Value, x: Value, newer: Value)
    requires a != b
    ensures FifoCore(Some(1)).PutMany([Item(b, older, 0)], [(a, x), (b, newer)])
         == ([Item(b, newer, 0)], Ok([(b, older), (a, x)]))
  {
    var core := FifoCore(Some(1));
    var es: seq<Tiers.Entry> := [(a, x), (b, newer)];
    BoundedPut(Item(b, older, 0), Item(a, x, 0));
    BoundedPut(Item(a, x, 0), Item(b, newer, 0));
    assert es[1..] == [(b, newer)] && es[1..][1..] == [];
    assert core.PutMany([Item(b, newer, 0)], []) == ([Item(b, newer, 0)], Ok([]));
    var none: Displaced := [];
    assert [(a, x)] + none == [(a, x)];
    assert core.PutMany([Item(a, x, 0)], es[1..]) == ([Item(b, newer, 0)], Ok([(a, x)]));
    assert [(b, older)] + [(a, x)] == [(b, older), (a, x)];
  }

  /** What the tier above displaced, poured over the new entries below. */
  lemma {:induction false} ColdPour(a: Key, b: Key, older: Value, x: Value, newer: Value, cold: Slot<seq<Item>>)
    requires a != b && cold.writable && cold.backend == Roomy([]).backend && cold.tier == [Item(b, newer, 0), Item(a, x, 0)]
    ensures Stack.Pour(cold, [(b, older), (a, x)]).slot.tier == [Item(b, older, 0), Item(a, x, 0)]
    ensures Stack.Pour(cold, [(b, older), (a, x)]).next == []
  {
    var es: seq<Tiers.Entry> := [(b, older), (a, x)];
    RoomyPut(cold.tier, b, older);
    ReplaceInPair(Item(b, newer, 0), Item(a, x, 0), Item(b, older, 0));
    var one := cold.Accept(Single(es[0])).0;
    assert one.tier == [Item(b, older, 0), Item(a, x, 0)] && one.backend == cold.backend;
    RoomyPut(one.tier, a, x);
    ReplaceInPair(Item(b, older, 0), Item(a, x, 0), Item(a, x, 0));
    assert es[1..] == [(a, x)] && es[1..][1..] == [];
    var two := one.Accept(Single((a, x))).0;
    assert Stack.Pour(two, []) == Stack.Poured(two, [], []);
    assert Stack.Pour(one, es[1..]).slot == two && Stack.Pour(one, es[1..]).next == [];
  }

  /** The write below: accepted, nothing displaced. */
  lemma {:induction false} ColdWritten(a: Key, b: Key, older: Value, x: Value, newer: Value) returns (cold: Slot<seq<Item>>)
    requires a != b
    ensures cold.writable && cold.backend == Roomy([]).backend && cold.tier == [Item(b, newer, 0), Item(a, x, 0)]
    ensures Stack.WriteThrough([Roomy([Item(b, older, 0)])], Batch([(a, x), (b, newer)]), Store.STORE_POLICY)
         == Stack.Written([cold], [], [], 0, None)
  {
    var bottom, wr := Roomy([Item(b, older, 0)]), Batch([(a, x), (b, newer)]);
    var none: seq<Slot<seq<Item>>> := [];
    var nothing: Displaced := [];
    ColdBatch(a, b, older, x, newer);
    cold := bottom.Accept(wr).0;
    assert [bottom][1..] == none && nothing + nothing == nothing && [cold] + none == [cold];
    assert Stack.Cascade(none, nothing) == Stack.Sunk(none, nothing, []);
  }

  /** A batched put that fails nowhere can leave an old copy below the new one: the top
      tier makes room twice, and the first entry it demotes is the old value, written
      over the new one below. Reads stay right; the copies disagree. */
  lemma {:induction false} BatchLeavesOldBelow(a: Key, b: Key, older: Value, x: Value, newer: Value)
    requires a != b
    ensures var slots := [Bounded(1, [Item(b, older, 0)]), Roomy([Item(b, older, 0)])];
      var r := Stack.WriteThrough(slots, Batch([(a, x), (b, newer)]), Store.STORE_POLICY);
      && r.aborted.None? && r.rejected == 0 && r.evicted == [] && |r.slots| == 2
      && r.slots[0].Held(b) == Some(newer) && r.slots[1].Held(b) == Some(older)
  {
    var top, wr := Bounded(1, [Item(b, older, 0)]), Batch([(a, x), (b, newer)]);
    var bottom := Roomy([Item(b, older, 0)]);
    var slots, none: seq<Slot<seq<Item>>> := [top, bottom], [];
    var nothing: Displaced := [];
    assert slots[1..] == [bottom];
    var cold := ColdWritten(a, b, older, x, newer);
    HotBatch(a, b, older, x, newer);
    var hot := top.Accept(wr).0;
    var out := [(b, older), (a, x)];
    ColdPour(a, b, older, x, newer, cold);
    var p := Stack.Pour(cold, out);
    assert [cold][1..] == none && [p.slot] + none == [p.slot] && nothing + nothing == nothing;
    assert Stack.Cascade(none, nothing) == Stack.Sunk(none, nothing, []);
    assert Stack.Cascade([cold], out) == Stack.Sunk([p.slot], [], p.dropped + []);
    assert Stack.WriteThrough(slots, wr, Store.STORE_POLICY)
        == Stack.WriteTop(top, Stack.Written([cold], [], [], 0, None), wr, Store.STORE_POLICY);
    assert [Item(b, newer, 0)][1..] == [] && [Item(b, older, 0), Item(a, x, 0)][1..] == [Item(a, x, 0)];
    assert Held([Item(b, newer, 0)]) == map[b := newer];
  }
}
