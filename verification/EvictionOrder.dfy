/** Who goes first from a bounded cache, told by when each key was put or last used and
    not by the order of the list; and when anyone has to go, in numbers. */
module EvictionOrder {
  import opened Bindings
  import opened Tiers
  import opened Recency

  datatype Op = Put(item: Item) | Use(key: Key) | Drop(key: Key) {
    function Subject(): Key {
      if Put? then item.key else key
    }
  }

  function Step(items: seq<Item>, op: Op, limits: Limits, e: Eviction): seq<Item> {
    match op
    case Put(item) => Kept(Placed(items, item, e), limits)
    case Use(key) => Touched(items, key, e)
    case Drop(key) => Without(items, key)
  }

  function After(items: seq<Item>, ops: seq<Op>, limits: Limits, e: Eviction): seq<Item> {
    if ops == [] then items else Step(After(items, ops[..|ops| - 1], limits, e), ops[|ops| - 1], limits, e)
  }

  /** The age of every key after a step at time `now` that puts, uses or drops `subject`:
      under FIFO a key dates from when it came in, under LRU from when it was last put or
      used. */
  ghost function Dated(e: Eviction, birth: map<Key, nat>, before: set<Key>, subject: Key, after: set<Key>, now: nat): map<Key, nat> {
    map k | k in after :: if k in before && k in birth && !(e.Lru? && k == subject) then birth[k] else now
  }

  ghost function Since(items: seq<Item>, birth: map<Key, nat>, start: nat, ops: seq<Op>, limits: Limits, e: Eviction): map<Key, nat> {
    if ops == [] then birth
    else
      var ops' := ops[..|ops| - 1];
      Dated(e, Since(items, birth, start, ops', limits, e), Held(After(items, ops', limits, e)).Keys, ops[|ops| - 1].Subject(),
            Held(After(items, ops, limits, e)).Keys, start + |ops'|)
  }

  /** A list that runs from the oldest key to the youngest, all from before `now`. */
  ghost predicate OldFirst(items: seq<Item>, birth: map<Key, nat>, now: nat) {
    && (forall i :: 0 <= i < |items| ==> items[i].key in birth && birth[items[i].key] < now)
    && (forall i, j :: 0 <= i < j < |items| ==> birth[items[i].key] < birth[items[j].key])
  }

  lemma {:induction false} SameDates(items: seq<Item>, birth: map<Key, nat>, now: nat, later: map<Key, nat>, then': nat)
    requires OldFirst(items, birth, now) && now <= then'
    requires forall i :: 0 <= i < |items| ==> items[i].key in later && later[items[i].key] == birth[items[i].key]
    ensures OldFirst(items, later, then')
  {
  }

  lemma {:induction false} HeldEach(items: seq<Item>, i: nat)
    requires i < |items|
    ensures items[i].key in Held(items)
  {
    assert Has(items, items[i].key);
    HeldAt(items, items[i].key);
  }

  lemma {:induction false} WithoutOldFirst(items: seq<Item>, birth: map<Key, nat>, now: nat, key: Key)
    requires OldFirst(items, birth, now)
    ensures OldFirst(Without(items, key), birth, now)
    ensures forall i :: 0 <= i < |Without(items, key)| ==> Without(items, key)[i] in items && Without(items, key)[i].key != key
  {
    if items != [] {
      assert forall i :: 0 <= i < |items[1..]| ==> items[1..][i] == items[i + 1];
      WithoutOldFirst(items[1..], birth, now, key);
      var rest := Without(items[1..], key);
      forall i | 0 <= i < |rest|
        ensures birth[items[0].key] < birth[rest[i].key] && rest[i] in items
      {
        assert rest[i] in items[1..];
      }
    }
  }

  lemma {:induction false} ReplacedKeys(items: seq<Item>, item: Item, i: nat)
    requires i < |items|
    ensures Replaced(items, item)[i].key == items[i].key
  {
    if i > 0 {
      ReplacedKeys(items[1..], item, i - 1);
    }
  }

  lemma {:induction false} AppendYoungest(items: seq<Item>, birth: map<Key, nat>, now: nat, item: Item)
    requires OldFirst(items, birth, now) && item.key in birth && birth[item.key] == now
    ensures OldFirst(items + [item], birth, now + 1)
  {
  }

  /** The dates that hold once the item is placed, before anything is evicted. */
  ghost function PutDates(items: seq<Item>, item: Item, e: Eviction, birth: map<Key, nat>, now: nat): map<Key, nat> {
    Dated(e, birth, Held(items).Keys, item.key, Held(items).Keys + {item.key}, now)
  }

  lemma {:induction false} PlacedOldFirst(items: seq<Item>, item: Item, e: Eviction, birth: map<Key, nat>, now: nat)
    requires OldFirst(items, birth, now)
    ensures OldFirst(Placed(items, item, e), PutDates(items, item, e, birth, now), now + 1)
  {
    var dates := PutDates(items, item, e, birth, now);
    HeldAt(items, item.key);
    forall i | 0 <= i < |items| ensures items[i].key in Held(items) { HeldEach(items, i); }
    if !Has(items, item.key) {
      SameDates(items, birth, now, dates, now);
      AppendYoungest(items, dates, now, item);
    } else if e.Fifo? {
      forall i | 0 <= i < |items| ensures Replaced(items, item)[i].key == items[i].key { ReplacedKeys(items, item, i); }
      SameDates(items, birth, now, dates, now + 1);
    } else {
      var rest := Without(items, item.key);
      WithoutOldFirst(items, birth, now, item.key);
      SameDates(rest, birth, now, dates, now);
      AppendYoungest(rest, dates, now, item);
    }
  }

  lemma {:induction false} UseOldFirst(items: seq<Item>, key: Key, e: Eviction, birth: map<Key, nat>, now: nat)
    requires OldFirst(items, birth, now)
    ensures OldFirst(Touched(items, key, e), Dated(e, birth, Held(items).Keys, key, Held(items).Keys, now), now + 1)
  {
    var dates := Dated(e, birth, Held(items).Keys, key, Held(items).Keys, now);
    forall i | 0 <= i < |items| ensures items[i].key in Held(items) { HeldEach(items, i); }
    HeldAt(items, key);
    if e.Lru? && Has(items, key) {
      WithoutOldFirst(items, birth, now, key);
      SameDates(Without(items, key), birth, now, dates, now);
      AppendYoungest(Without(items, key), dates, now, At(items, key));
    } else {
      SameDates(items, birth, now, dates, now + 1);
    }
  }

  lemma {:induction false} DropOldFirst(items: seq<Item>, key: Key, e: Eviction, birth: map<Key, nat>, now: nat)
    requires OldFirst(items, birth, now)
    ensures OldFirst(Without(items, key), Dated(e, birth, Held(items).Keys, key, Held(Without(items, key)).Keys, now), now + 1)
  {
    var rest := Without(items, key);
    WithoutOldFirst(items, birth, now, key);
    HeldWithout(items, key);
    forall i | 0 <= i < |items| ensures items[i].key in Held(items) { HeldEach(items, i); }
    SameDates(rest, birth, now, Dated(e, birth, Held(items).Keys, key, Held(rest).Keys, now), now + 1);
  }

  /** Cutting a prefix off. */
  lemma {:induction false} SuffixOldFirst(items: seq<Item>, n: nat, birth: map<Key, nat>, now: nat, later: map<Key, nat>)
    requires OldFirst(items, birth, now) && n <= |items|
    requires forall k :: k in Held(items[n..]) ==> k in later && (k in birth ==> later[k] == birth[k])
    ensures OldFirst(items[n..], later, now)
  {
    forall i | 0 <= i < |items[n..]|
      ensures items[n..][i].key in Held(items[n..])
    {
      HeldEach(items[n..], i);
    }
  }

  lemma {:induction false} StepOldFirst(items: seq<Item>, op: Op, limits: Limits, e: Eviction, birth: map<Key, nat>, now: nat)
    requires Distinct(items) && OldFirst(items, birth, now)
    ensures var after := Step(items, op, limits, e);
      && Distinct(after)
      && OldFirst(after, Dated(e, birth, Held(items).Keys, op.Subject(), Held(after).Keys, now), now + 1)
  {
    match op
    case Put(item) =>
      PutOldFirst(items, item, limits, e, birth, now);
    case Use(key) =>
      UseOldFirst(items, key, e, birth, now);
      DistinctTouched(items, key, e);
      HeldTouched(items, key, e);
    case Drop(key) =>
      DropOldFirst(items, key, e, birth, now);
      DistinctWithout(items, key);
  }

  lemma {:induction false} HeldSuffix(items: seq<Item>, n: nat, k: Key)
    requires n <= |items| && k in Held(items[n..])
    ensures k in Held(items) && exists i :: n <= i < |items| && items[i].key == k
  {
    HeldAt(items[n..], k);
    var i :| 0 <= i < |items[n..]| && items[n..][i].key == k;
    assert items[n + i].key == k;
    HeldEach(items, n + i);
  }

  lemma {:induction false} PutOldFirst(items: seq<Item>, item: Item, limits: Limits, e: Eviction, birth: map<Key, nat>, now: nat)
    requires Distinct(items) && OldFirst(items, birth, now)
    ensures var after := Step(items, Put(item), limits, e);
      && Distinct(after)
      && OldFirst(after, Dated(e, birth, Held(items).Keys, item.key, Held(after).Keys, now), now + 1)
  {
    var placed := Placed(items, item, e);
    var n := Excess(placed, limits);
    PlacedOldFirst(items, item, e, birth, now);
    DistinctPlaced(items, item, e);
    DistinctDrop(placed, n);
    HeldPlaced(items, item, e);
    forall k | k in Held(placed[n..]) ensures k in Held(placed) { HeldSuffix(placed, n, k); }
    SuffixOldFirst(placed, n, PutDates(items, item, e, birth, now), now + 1,
                   Dated(e, birth, Held(items).Keys, item.key, Held(placed[n..]).Keys, now));
  }

  lemma {:induction false} RunOldFirst(items: seq<Item>, birth: map<Key, nat>, start: nat, ops: seq<Op>, limits: Limits, e: Eviction)
    requires Distinct(items) && OldFirst(items, birth, start)
    ensures var after := After(items, ops, limits, e);
      Distinct(after) && OldFirst(after, Since(items, birth, start, ops, limits, e), start + |ops|)
    decreases |ops|
  {
    if ops != [] {
      var ops' := ops[..|ops| - 1];
      RunOldFirst(items, birth, start, ops', limits, e);
      StepOldFirst(After(items, ops', limits, e), ops[|ops| - 1], limits, e, Since(items, birth, start, ops', limits, e), start + |ops'|);
    }
  }

  /** Eviction goes by age: over any run of puts, uses and removals, a key that a put
      evicts, be it the key just put, is older than every key the put leaves - by arrival
      under FIFO, by last use under LRU. */
  lemma {:induction false} OldestEvicted(items: seq<Item>, birth: map<Key, nat>, start: nat, ops: seq<Op>, limits: Limits, e: Eviction,
                                         item: Item, out: Key, kept: Key)
    requires Distinct(items) && OldFirst(items, birth, start)
    requires var now := Held(After(items, ops, limits, e));
      var next := Held(After(items, ops + [Put(item)], limits, e));
      out in now.Keys + {item.key} && out !in next && kept in next
    ensures var dates := PutDates(After(items, ops, limits, e), item, e, Since(items, birth, start, ops, limits, e), start + |ops|);
      out in dates && kept in dates && dates[out] < dates[kept]
  {
    assert (ops + [Put(item)])[..|ops|] == ops;
    var now := After(items, ops, limits, e);
    RunOldFirst(items, birth, start, ops, limits, e);
    EvictedOlder(now, item, limits, e, Since(items, birth, start, ops, limits, e), start + |ops|, out, kept);
  }

  lemma {:induction false} EvictedOlder(items: seq<Item>, item: Item, limits: Limits, e: Eviction, birth: map<Key, nat>, now: nat,
                                        out: Key, kept: Key)
    requires Distinct(items) && OldFirst(items, birth, now)
    requires out in Held(items).Keys + {item.key} && out !in Held(Step(items, Put(item), limits, e))
    requires kept in Held(Step(items, Put(item), limits, e))
    ensures var dates := PutDates(items, item, e, birth, now);
      out in dates && kept in dates && dates[out] < dates[kept]
  {
    var placed := Placed(items, item, e);
    var n := Excess(placed, limits);
    PlacedOldFirst(items, item, e, birth, now);
    HeldPlaced(items, item, e);
    HeldSuffix(placed, n, kept);
    HeldAt(placed, out);
    var i :| 0 <= i < |placed| && placed[i].key == out;
    if i >= n {
      assert placed[n..][i - n].key == out;
      HeldEach(placed[n..], i - n);
    }
  }

  // ------------------------------------------------------- the bounds in numbers

  /** `Weight` is the sum of the weights: nothing for nothing, and each item adds its own
      wherever it stands. */
  lemma {:induction false} WeightAdds(above: seq<Item>, item: Item, below: seq<Item>)
    ensures Weight(above + [item] + below) == Weight(above + below) + item.weight
    ensures Weight([]) == 0
  {
    var all := above + [item] + below;
    if above == [] {
      assert all[1..] == below && above + below == below;
    } else {
      WeightAdds(above[1..], item, below);
      assert all[1..] == above[1..] + [item] + below && (above + below)[1..] == above[1..] + below;
    }
  }

  /** After an insert at most the permitted number of entries, and at most the permitted
      weight, is left; and had one fewer gone, one of the two would be exceeded. */
  lemma {:induction false} BoundsMet(items: seq<Item>, limits: Limits)
    ensures var kept := Kept(items, limits);
      && (limits.entries.Some? ==> |kept| <= limits.entries.value)
      && (limits.bytes.Some? ==> Weight(kept) <= limits.bytes.value)
    ensures var n := |items| - |Kept(items, limits)|;
      && n >= 0 && Kept(items, limits) == items[n..]
      && (n > 0 ==>
           || (limits.entries.Some? && |items[n - 1..]| > limits.entries.value)
           || (limits.bytes.Some? && Weight(items[n - 1..]) > limits.bytes.value))
  {
    ExcessShortest(items, limits);
    var n := |items| - |Kept(items, limits)|;
    assert n > 0 ==> Over(items[n - 1..], limits);
  }
}
