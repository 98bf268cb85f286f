/** A bounded cache as a plain list in eviction order: what the memory tier's
    ticket queue stands for. */
module Recency {
  import opened Bindings
  import opened Tiers

  datatype Eviction = Fifo | Lru

  datatype Item = Item(key: Key, value: Value, weight: nat)

  datatype Limits = Limits(entries: Option<nat>, bytes: Option<nat>)

  function Weight(items: seq<Item>): nat {
    if items == [] then 0 else items[0].weight + Weight(items[1..])
  }

  predicate Over(items: seq<Item>, limits: Limits) {
    || (limits.entries.Some? && |items| > limits.entries.value)
    || (limits.bytes.Some? && Weight(items) > limits.bytes.value)
  }

  predicate Has(items: seq<Item>, k: Key) {
    exists i :: 0 <= i < |items| && items[i].key == k
  }

  ghost predicate Distinct(items: seq<Item>) {
    items == [] || (!Has(items[1..], items[0].key) && Distinct(items[1..]))
  }

  function Without(items: seq<Item>, k: Key): seq<Item> {
    if items == [] then []
    else (if items[0].key == k then [] else [items[0]]) + Without(items[1..], k)
  }

  function Replaced(items: seq<Item>, item: Item): (r: seq<Item>)
    ensures |r| == |items|
  {
    if items == [] then []
    else [if items[0].key == item.key then item else items[0]] + Replaced(items[1..], item)
  }

  /** A new key goes last. A replacement keeps its place under FIFO and goes last
      under LRU. */
  function Placed(items: seq<Item>, item: Item, e: Eviction): seq<Item> {
    if !Has(items, item.key) then items + [item]
    else if e.Fifo? then Replaced(items, item)
    else Without(items, item.key) + [item]
  }

  function Entry(item: Item): Tiers.Entry {
    (item.key, item.value)
  }

  function Entries(items: seq<Item>): (r: seq<Tiers.Entry>)
    ensures |r| == |items|
    ensures forall i :: 0 <= i < |r| ==> r[i] == Entry(items[i])
  {
    seq(|items|, i requires 0 <= i < |items| => Entry(items[i]))
  }

  /** How many of the oldest entries must go. */
  function Excess(items: seq<Item>, limits: Limits): (n: nat)
    ensures n <= |items|
  {
    if items == [] || !Over(items, limits) then 0 else 1 + Excess(items[1..], limits)
  }

  function Kept(items: seq<Item>, limits: Limits): seq<Item> {
    items[Excess(items, limits)..]
  }

  function Evicted(items: seq<Item>, limits: Limits): seq<Tiers.Entry> {
    Entries(items[..Excess(items, limits)])
  }

  function Touched(items: seq<Item>, k: Key, e: Eviction): seq<Item> {
    if e.Lru? && Has(items, k) then Without(items, k) + [At(items, k)] else items
  }

  function At(items: seq<Item>, k: Key): (item: Item)
    requires Has(items, k)
    ensures item in items && item.key == k
  {
    if items[0].key == k then items[0]
    else
      assert Has(items[1..], k) by {
        var i :| 0 <= i < |items| && items[i].key == k;
        assert items[1..][i - 1].key == k;
      }
      At(items[1..], k)
  }

  /** The contents. */
  function Held(items: seq<Item>): map<Key, Value> {
    if items == [] then map[] else Held(items[1..])[items[0].key := items[0].value]
  }

  // --------------------------------------------------------------- list lemmas

  lemma {:induction false} HasCons(items: seq<Item>, k: Key)
    ensures Has(items, k) <==> items != [] && (items[0].key == k || Has(items[1..], k))
  {
    if items != [] && Has(items, k) && items[0].key != k {
      var i :| 0 <= i < |items| && items[i].key == k;
      assert items[1..][i - 1].key == k;
    }
    if items != [] && Has(items[1..], k) {
      var i :| 0 <= i < |items[1..]| && items[1..][i].key == k;
      assert items[i + 1].key == k;
    }
  }

  lemma {:induction false} HasConcat(a: seq<Item>, b: seq<Item>, k: Key)
    ensures Has(a + b, k) <==> Has(a, k) || Has(b, k)
  {
    if Has(a, k) {
      var i :| 0 <= i < |a| && a[i].key == k;
      assert (a + b)[i].key == k;
    }
    if Has(b, k) {
      var i :| 0 <= i < |b| && b[i].key == k;
      assert (a + b)[|a| + i].key == k;
    }
  }

  lemma {:induction false} HeldAt(items: seq<Item>, k: Key)
    ensures k in Held(items) <==> Has(items, k)
  {
    HasCons(items, k);
    if items != [] {
      HeldAt(items[1..], k);
    }
  }

  lemma {:induction false} WithoutHas(items: seq<Item>, k: Key, x: Key)
    ensures Has(Without(items, k), x) <==> Has(items, x) && x != k
  {
    HasCons(items, x);
    if items != [] {
      WithoutHas(items[1..], k, x);
      HasConcat(if items[0].key == k then [] else [items[0]], Without(items[1..], k), x);
      HasCons([items[0]], x);
    }
  }

  lemma {:induction false} WithoutAbsent(items: seq<Item>, k: Key)
    requires !Has(items, k)
    ensures Without(items, k) == items
  {
    if items != [] {
      HasCons(items, k);
      WithoutAbsent(items[1..], k);
    }
  }

  lemma {:induction false} DistinctWithout(items: seq<Item>, k: Key)
    requires Distinct(items)
    ensures Distinct(Without(items, k))
  {
    if items != [] {
      DistinctWithout(items[1..], k);
      WithoutHas(items[1..], k, items[0].key);
      if items[0].key != k {
        assert ([items[0]] + Without(items[1..], k))[1..] == Without(items[1..], k);
      } else {
        assert [] + Without(items[1..], k) == Without(items[1..], k);
      }
    }
  }

  lemma {:induction false} DistinctSnoc(items: seq<Item>, item: Item)
    requires Distinct(items) && !Has(items, item.key)
    ensures Distinct(items + [item])
  {
    if items == [] {
      assert items + [item] == [item];
    } else {
      HasCons(items, item.key);
      DistinctSnoc(items[1..], item);
      assert (items + [item])[1..] == items[1..] + [item];
      HasConcat(items[1..], [item], items[0].key);
      HasCons([item], items[0].key);
    }
  }

  lemma {:induction false} ReplacedHas(items: seq<Item>, item: Item, x: Key)
    ensures Has(Replaced(items, item), x) <==> Has(items, x)
  {
    HasCons(items, x);
    HasCons(Replaced(items, item), x);
    if items != [] {
      ReplacedHas(items[1..], item, x);
    }
  }

  lemma {:induction false} DistinctReplaced(items: seq<Item>, item: Item)
    requires Distinct(items)
    ensures Distinct(Replaced(items, item))
  {
    if items != [] {
      DistinctReplaced(items[1..], item);
      ReplacedHas(items[1..], item, items[0].key);
    }
  }

  lemma {:induction false} DistinctDrop(items: seq<Item>, n: nat)
    requires Distinct(items) && n <= |items|
    ensures Distinct(items[n..])
  {
    if n == 0 {
      assert items[0..] == items;
    } else {
      DistinctDrop(items[1..], n - 1);
      assert items[1..][n - 1..] == items[n..];
    }
  }

  lemma {:induction false} DistinctPlaced(items: seq<Item>, item: Item, e: Eviction)
    requires Distinct(items)
    ensures Distinct(Placed(items, item, e))
  {
    if !Has(items, item.key) {
      DistinctSnoc(items, item);
    } else if e.Fifo? {
      DistinctReplaced(items, item);
    } else {
      DistinctWithout(items, item.key);
      WithoutHas(items, item.key, item.key);
      DistinctSnoc(Without(items, item.key), item);
    }
  }

  lemma {:induction false} DistinctTouched(items: seq<Item>, k: Key, e: Eviction)
    requires Distinct(items)
    ensures Distinct(Touched(items, k, e))
  {
    if e.Lru? && Has(items, k) {
      DistinctWithout(items, k);
      WithoutHas(items, k, k);
      DistinctSnoc(Without(items, k), At(items, k));
    }
  }

  // ------------------------------------------------------------------ contents

  lemma {:induction false} HeldWithout(items: seq<Item>, k: Key)
    ensures Held(Without(items, k)) == Held(items) - {k}
  {
    if items != [] {
      HeldWithout(items[1..], k);
      if items[0].key != k {
        assert ([items[0]] + Without(items[1..], k))[1..] == Without(items[1..], k);
      } else {
        assert [] + Without(items[1..], k) == Without(items[1..], k);
      }
    }
  }

  lemma {:induction false} HeldSnoc(items: seq<Item>, item: Item)
    requires !Has(items, item.key)
    ensures Held(items + [item]) == Held(items)[item.key := item.value]
  {
    if items == [] {
      assert items + [item] == [item];
      assert [item][1..] == [];
    } else {
      HasCons(items, item.key);
      HeldSnoc(items[1..], item);
      assert (items + [item])[1..] == items[1..] + [item];
    }
  }

  lemma {:induction false} HeldReplaced(items: seq<Item>, item: Item)
    requires Distinct(items) && Has(items, item.key)
    ensures Held(Replaced(items, item)) == Held(items)[item.key := item.value]
  {
    HasCons(items, item.key);
    if items[0].key == item.key {
      ReplacedAbsent(items[1..], item);
    } else {
      HeldReplaced(items[1..], item);
    }
  }

  lemma {:induction false} ReplacedAbsent(items: seq<Item>, item: Item)
    requires !Has(items, item.key)
    ensures Replaced(items, item) == items
  {
    if items != [] {
      HasCons(items, item.key);
      ReplacedAbsent(items[1..], item);
    }
  }

  lemma {:induction false} HeldPlaced(items: seq<Item>, item: Item, e: Eviction)
    requires Distinct(items)
    ensures Held(Placed(items, item, e)) == Held(items)[item.key := item.value]
  {
    if !Has(items, item.key) {
      HeldSnoc(items, item);
    } else if e.Fifo? {
      HeldReplaced(items, item);
    } else {
      WithoutHas(items, item.key, item.key);
      HeldSnoc(Without(items, item.key), item);
      HeldWithout(items, item.key);
    }
  }

  lemma {:induction false} HeldOne(items: seq<Item>, k: Key)
    requires Distinct(items) && Has(items, k)
    ensures Held(items)[k := At(items, k).value] == Held(items)
  {
    HasCons(items, k);
    HeldAt(items, k);
    if items[0].key != k {
      HeldOne(items[1..], k);
      HeldAt(items[1..], k);
    }
  }

  lemma {:induction false} HeldTouched(items: seq<Item>, k: Key, e: Eviction)
    requires Distinct(items)
    ensures Held(Touched(items, k, e)) == Held(items)
    ensures Lookup(Held(items), k) == if Has(items, k) then Some(At(items, k).value) else None
  {
    HeldAt(items, k);
    if Has(items, k) {
      HeldOne(items, k);
      if e.Lru? {
        WithoutHas(items, k, k);
        HeldSnoc(Without(items, k), At(items, k));
        HeldWithout(items, k);
      }
    }
  }

  /** An evicted prefix and the rest split the contents: no binding is in both and
      none is in neither. */
  lemma {:induction false} HeldSplit(items: seq<Item>, n: nat, k: Key)
    requires Distinct(items) && n <= |items|
    ensures var gone, left := Bind(Entries(items[..n]), k), Lookup(Held(items[n..]), k);
      && Or(left, gone) == Lookup(Held(items), k)
      && !(gone.Some? && left.Some?)
  {
    if n == 0 {
      assert items[0..] == items;
    } else {
      HeldSplit(items[1..], n - 1, k);
      assert items[1..][n - 1..] == items[n..];
      assert items[..n] == [items[0]] + items[1..][..n - 1];
      var rest := Entries(items[1..][..n - 1]);
      assert Entries(items[..n])[1..] == rest;
      HeldAt(items[1..], items[0].key);
    }
  }

  /** Eviction takes the shortest prefix, oldest first, that restores both bounds. */
  lemma {:induction false} ExcessShortest(items: seq<Item>, limits: Limits)
    ensures !Over(Kept(items, limits), limits)
    ensures forall n :: 0 <= n < Excess(items, limits) ==> Over(items[n..], limits)
  {
    if items == [] || !Over(items, limits) {
      assert items[0..] == items;
    } else {
      ExcessShortest(items[1..], limits);
      var x := Excess(items[1..], limits);
      assert items[1..][x..] == items[x + 1..];
      forall n | 0 <= n < x + 1 ensures Over(items[n..], limits) {
        if n == 0 {
          assert items[0..] == items;
        } else {
          assert items[n..] == items[1..][n - 1..];
        }
      }
    }
  }

  /** The bounded insert meets the insert contract, and the displaced entries are
      exactly those no longer held. */
  lemma {:induction false} InsertAccepted(items: seq<Item>, item: Item, limits: Limits, e: Eviction)
    requires Distinct(items)
    ensures var placed := Placed(items, item, e);
      && Distinct(Kept(placed, limits))
      && !Over(Kept(placed, limits), limits)
      && Accepted(Held(items), [(item.key, item.value)], Held(Kept(placed, limits)), Evicted(placed, limits))
      && (forall i :: 0 <= i < |Evicted(placed, limits)| ==>
            Evicted(placed, limits)[i].0 !in Held(Kept(placed, limits)))
  {
    var placed := Placed(items, item, e);
    var n := Excess(placed, limits);
    DistinctPlaced(items, item, e);
    DistinctDrop(placed, n);
    ExcessShortest(placed, limits);
    HeldPlaced(items, item, e);
    assert Apply(Held(items), [(item.key, item.value)]) == Held(placed);
    forall k ensures Or(Lookup(Held(placed[n..]), k), Bind(Evicted(placed, limits), k))
                  == Or(Bind([(item.key, item.value)], k), Lookup(Held(items), k)) {
      HeldSplit(placed, n, k);
      ApplyAt(Held(items), [(item.key, item.value)], k);
    }
    AcceptedFrom(Held(items), [(item.key, item.value)], Held(placed[n..]), Evicted(placed, limits));
    forall i | 0 <= i < n ensures Evicted(placed, limits)[i].0 !in Held(placed[n..]) {
      var k := Evicted(placed, limits)[i].0;
      HeldSplit(placed, n, k);
      BindMember(Evicted(placed, limits), k);
      assert Keys(Evicted(placed, limits))[i] == k;
    }
  }
}
