/** The memory tier as a tier of the stack, the inclusion property of LRU, and the
    cost of the ticket queue over whole runs. */
module MemoryTier {
  import opened Bindings
  import opened Tiers
  import opened Recency
  import opened Defaults
  import Memory
  import Faults
  import Provenance

  // ------------------------------------------------------------------- the tier

  /** A memory tier's calls on its contents in eviction order. It never fails. */
  ghost function MemoryCore(limits: Limits, e: Eviction, weigh: (Key, Value) -> nat): Core<seq<Item>> {
    Core(
      (items: seq<Item>) => Distinct(items),
      (items: seq<Item>) => Held(items),
      (items: seq<Item>, k: Key) => (Touched(items, k, e), Ok(Lookup(Held(items), k))),
      (items: seq<Item>, k: Key) => (items, Ok(Has(items, k))),
      (items: seq<Item>, k: Key, v: Value) =>
        (Kept(Placed(items, Item(k, v, weigh(k, v)), e), limits), Ok(Evicted(Placed(items, Item(k, v, weigh(k, v)), e), limits))),
      (items: seq<Item>, k: Key) => (Without(items, k), Ok(Has(items, k))))
  }

  lemma {:induction false} MemoryReads(limits: Limits, e: Eviction, weigh: (Key, Value) -> nat, items: seq<Item>, k: Key)
    requires Distinct(items)
    ensures var b := MemoryCore(limits, e, weigh).Tier();
      b.GetOk(items, k) && b.ExistsOk(items, k) && b.DeleteOk(items, k)
  {
    DistinctTouched(items, k, e);
    HeldTouched(items, k, e);
    HeldAt(items, k);
    DistinctWithout(items, k);
    HeldWithout(items, k);
  }

  lemma {:induction false} MemoryPuts(limits: Limits, e: Eviction, weigh: (Key, Value) -> nat, items: seq<Item>, entry: Entry)
    requires Distinct(items)
    ensures MemoryCore(limits, e, weigh).Tier().WriteOk(items, Single(entry))
    ensures limits == Limits(None, None) ==> MemoryCore(limits, e, weigh).put(items, entry.0, entry.1).1 == Ok([])
  {
    InsertAccepted(items, Item(entry.0, entry.1, weigh(entry.0, entry.1)), limits, e);
    assert (entry.0, entry.1) == entry;
  }

  lemma {:induction false} CoreHonest(limits: Limits, e: Eviction, weigh: (Key, Value) -> nat)
    ensures MemoryCore(limits, e, weigh).Honest() && MemoryCore(limits, e, weigh).Reliable()
  {
    var c := MemoryCore(limits, e, weigh);
    var b := c.Tier();
    forall s, k | c.inv(s) ensures b.GetOk(s, k) && b.ExistsOk(s, k) && b.DeleteOk(s, k) {
      MemoryReads(limits, e, weigh, s, k);
    }
    forall s, entry | c.inv(s) ensures b.WriteOk(s, Single(entry)) {
      MemoryPuts(limits, e, weigh, s, entry);
    }
  }

  /** A memory tier keeps the tier contract under every bound and eviction order,
      never fails, and without bounds never displaces. */
  lemma {:induction false} MemoryIsATier(limits: Limits, e: Eviction, weigh: (Key, Value) -> nat)
    ensures var b := MemoryCore(limits, e, weigh).Tier();
      && b.Honest() && b.Coherent() && b.Reliable()
      && (limits == Limits(None, None) ==> b.Roomy())
  {
    var c := MemoryCore(limits, e, weigh);
    CoreHonest(limits, e, weigh);
    if limits == Limits(None, None) {
      forall s, k, v | c.inv(s) ensures c.put(s, k, v).1 == Ok([]) {
        MemoryPuts(limits, e, weigh, s, (k, v));
      }
    }
    c.TierHonest();
  }

  /** The memory tier's one-pass batch insert is the default one-by-one loop. */
  lemma {:induction false} BatchIsLoop(limits: Limits, e: Eviction, weigh: (Key, Value) -> nat, items: seq<Item>, entries: seq<Entry>)
    ensures var (rest, out) := Memory.InsertAll(items, Weighed(entries, weigh), limits, e);
      MemoryCore(limits, e, weigh).PutMany(items, entries) == (rest, Ok(out))
    decreases |entries|
  {
    if entries != [] {
      var item := Item(entries[0].0, entries[0].1, weigh(entries[0].0, entries[0].1));
      assert Weighed(entries, weigh)[1..] == Weighed(entries[1..], weigh);
      BatchIsLoop(limits, e, weigh, Kept(Placed(items, item, e), limits), entries[1..]);
    }
  }

  function Weighed(entries: seq<Entry>, weigh: (Key, Value) -> nat): (r: seq<(Key, Value, nat)>)
    ensures |r| == |entries|
    ensures forall i :: 0 <= i < |r| ==> r[i] == (entries[i].0, entries[i].1, weigh(entries[i].0, entries[i].1))
  {
    seq(|entries|, i requires 0 <= i < |entries| => (entries[i].0, entries[i].1, weigh(entries[i].0, entries[i].1)))
  }

  /** What a memory tier's put hands back was held before or just given, and no old
      binding of the key it wrote. */
  lemma {:induction false} MemoryPutGenuine(limits: Limits, e: Eviction, weigh: (Key, Value) -> nat, items: seq<Item>, k: Key, v: Value)
    requires Distinct(items)
    ensures Faults.WriteGenuine(MemoryCore(limits, e, weigh).Tier(), items, Single((k, v)))
  {
    var item := Item(k, v, weigh(k, v));
    var placed := Placed(items, item, e);
    var n := Excess(placed, limits);
    DistinctPlaced(items, item, e);
    HeldPlaced(items, item, e);
    forall i | 0 <= i < n
      ensures Faults.Sourced(Held(items), Single((k, v)), Evicted(placed, limits)[i])
    {
      EvictedHeld(placed, n, i);
    }
  }

  /** Every memory tier, under any bound and eviction order, makes nothing up: single
      and batched puts, and deletes. */
  lemma {:induction false} MemoryIsGenuine(limits: Limits, e: Eviction, weigh: (Key, Value) -> nat)
    ensures Faults.Genuine(MemoryCore(limits, e, weigh).Tier())
  {
    var c := MemoryCore(limits, e, weigh);
    CoreHonest(limits, e, weigh);
    forall s, k, v | c.inv(s)
      ensures Provenance.PutGenuine(c, s, k, v)
    {
      MemoryPutGenuine(limits, e, weigh, s, k, v);
    }
    forall s, k | c.inv(s)
      ensures Faults.DeleteGenuine(c.Tier(), s, k)
    {
      HeldWithout(s, k);
    }
    Provenance.CoreIsGenuine(c);
  }

  lemma {:induction false} EvictedHeld(items: seq<Item>, n: nat, i: nat)
    requires Distinct(items) && i < n <= |items|
    ensures Lookup(Held(items), items[i].key) == Some(items[i].value)
  {
    if i > 0 {
      EvictedHeld(items[1..], n - 1, i - 1);
      assert items[1..][i - 1] == items[i];
      HeldAt(items[1..], items[i].key);
      assert Has(items[1..], items[i].key);
    }
  }

  // ---------------------------------------------------------------- LRU inclusion

  datatype Op = Put(key: Key, value: Value) | Get(key: Key) | Delete(key: Key)

  /** One operation on an entry-bounded LRU tier and what a get answers. */
  function Step(items: seq<Item>, op: Op, capacity: nat): (seq<Item>, Option<Value>) {
    match op
    case Put(k, v) => (Kept(Placed(items, Item(k, v, 0), Lru), Limits(Some(capacity), None)), None)
    case Get(k) => (Touched(items, k, Lru), Lookup(Held(items), k))
    case Delete(k) => (Without(items, k), None)
  }

  /** `small` is `large` with some entries left out: same order, same bindings. */
  ghost predicate Embeds(small: seq<Item>, large: seq<Item>) {
    if small == [] then true
    else if large == [] then false
    else (small[0] == large[0] && Embeds(small[1..], large[1..])) || Embeds(small, large[1..])
  }

  /** The relation a small and a large tier keep. */
  ghost predicate Included(small: seq<Item>, large: seq<Item>, n: nat, m: nat) {
    && Distinct(small) && Distinct(large) && Embeds(small, large)
    && |small| <= n && |large| <= m && |large| - |small| <= m - n
  }

  lemma {:induction false} EmbedsHas(small: seq<Item>, large: seq<Item>, k: Key)
    requires Embeds(small, large) && Has(small, k)
    ensures Has(large, k)
  {
    HasCons(small, k);
    HasCons(large, k);
    if Embeds(small, large[1..]) {
      EmbedsHas(small, large[1..], k);
    } else if small[0].key != k {
      EmbedsHas(small[1..], large[1..], k);
    }
  }

  lemma {:induction false} EmbedsLength(small: seq<Item>, large: seq<Item>)
    requires Embeds(small, large)
    ensures |small| <= |large|
  {
    if small != [] {
      if Embeds(small, large[1..]) {
        EmbedsLength(small, large[1..]);
      } else {
        EmbedsLength(small[1..], large[1..]);
      }
    }
  }

  lemma {:induction false} EmbedsTail(small: seq<Item>, large: seq<Item>)
    requires Embeds(small, large) && small != []
    ensures Embeds(small[1..], large)
    ensures large != [] && Embeds(small[1..], large[1..])
    decreases |large|
  {
    if Embeds(small, large[1..]) {
      EmbedsTail(small, large[1..]);
    }
  }

  lemma {:induction false} EmbedsWithout(small: seq<Item>, large: seq<Item>, k: Key)
    requires Embeds(small, large)
    ensures Embeds(Without(small, k), Without(large, k))
    decreases |large|
  {
    if small != [] {
      var s, l := Without(small[1..], k), Without(large[1..], k);
      if Embeds(small, large[1..]) {
        EmbedsWithout(small, large[1..], k);
        if large[0].key == k {
          assert [] + l == l;
        } else {
          assert ([large[0]] + l)[1..] == l;
        }
      } else {
        EmbedsWithout(small[1..], large[1..], k);
        if large[0].key == k {
          assert [] + l == l && [] + s == s;
        } else {
          assert ([large[0]] + l)[1..] == l && ([small[0]] + s)[1..] == s;
        }
      }
    }
  }

  lemma {:induction false} EmbedsSnoc(small: seq<Item>, large: seq<Item>, item: Item)
    requires Embeds(small, large)
    ensures Embeds(small + [item], large + [item])
    decreases |large|
  {
    if large != [] {
      assert (large + [item])[0] == large[0] && (large + [item])[1..] == large[1..] + [item];
    }
    if small == [] {
      assert small + [item] == [item] && [item][1..] == [];
      if large == [] {
        assert large + [item] == [item];
      } else {
        EmbedsSnoc(small, large[1..], item);
      }
    } else if Embeds(small, large[1..]) {
      EmbedsSnoc(small, large[1..], item);
    } else {
      assert (small + [item])[0] == small[0] && (small + [item])[1..] == small[1..] + [item];
      EmbedsSnoc(small[1..], large[1..], item);
    }
  }

  lemma {:induction false} EmbedsAt(small: seq<Item>, large: seq<Item>, k: Key)
    requires Embeds(small, large) && Distinct(large) && Has(small, k)
    ensures Has(large, k) && At(large, k) == At(small, k)
    decreases |large|
  {
    EmbedsHas(small, large, k);
    HasCons(small, k);
    HasCons(large, k);
    if Embeds(small, large[1..]) {
      EmbedsHas(small, large[1..], k);
      EmbedsAt(small, large[1..], k);
    } else if small[0].key != k {
      EmbedsHas(small[1..], large[1..], k);
      EmbedsAt(small[1..], large[1..], k);
    }
  }

  lemma {:induction false} WithoutLength(items: seq<Item>, k: Key)
    requires Distinct(items)
    ensures |Without(items, k)| == |items| - if Has(items, k) then 1 else 0
  {
    HasCons(items, k);
    if items != [] {
      WithoutLength(items[1..], k);
    }
  }

  /** What the eviction of a one-entry overflow amounts to. */
  lemma {:induction false} KeptByCount(items: seq<Item>, n: nat)
    requires |items| <= n + 1
    ensures Kept(items, Limits(Some(n), None)) == if |items| == n + 1 then items[1..] else items
  {
    if |items| == n + 1 {
      assert !Over(items[1..], Limits(Some(n), None));
    } else {
      assert items[0..] == items;
    }
  }

  lemma {:induction false} PlacedLru(items: seq<Item>, item: Item)
    requires Distinct(items)
    ensures Placed(items, item, Lru) == Without(items, item.key) + [item]
    ensures |Placed(items, item, Lru)| == |items| + if Has(items, item.key) then 0 else 1
  {
    WithoutLength(items, item.key);
    if !Has(items, item.key) {
      WithoutAbsent(items, item.key);
    }
  }

  lemma {:induction false} PutIncluded(small: seq<Item>, large: seq<Item>, n: nat, m: nat, k: Key, v: Value)
    requires Included(small, large, n, m) && n <= m
    ensures Included(Step(small, Put(k, v), n).0, Step(large, Put(k, v), m).0, n, m)
  {
    var item := Item(k, v, 0);
    var s, l := Placed(small, item, Lru), Placed(large, item, Lru);
    PlacedLru(small, item);
    PlacedLru(large, item);
    EmbedsWithout(small, large, k);
    EmbedsSnoc(Without(small, k), Without(large, k), item);
    DistinctPlaced(small, item, Lru);
    DistinctPlaced(large, item, Lru);
    if Has(small, k) {
      EmbedsHas(small, large, k);
    }
    KeptByCount(s, n);
    KeptByCount(l, m);
    if s != [] {
      EmbedsTail(s, l);
    }
  }

  lemma {:induction false} GetIncluded(small: seq<Item>, large: seq<Item>, n: nat, m: nat, k: Key)
    requires Included(small, large, n, m)
    ensures Included(Touched(small, k, Lru), Touched(large, k, Lru), n, m)
  {
    DistinctTouched(small, k, Lru);
    DistinctTouched(large, k, Lru);
    WithoutLength(small, k);
    WithoutLength(large, k);
    if Has(small, k) {
      EmbedsAt(small, large, k);
      EmbedsWithout(small, large, k);
      EmbedsSnoc(Without(small, k), Without(large, k), At(large, k));
    } else if Has(large, k) {
      WithoutAbsent(small, k);
      EmbedsWithout(small, large, k);
      EmbedsWiden(small, Without(large, k), [At(large, k)]);
    }
  }

  lemma {:induction false} EmbedsWiden(small: seq<Item>, large: seq<Item>, more: seq<Item>)
    requires Embeds(small, large)
    ensures Embeds(small, large + more)
    decreases |large|
  {
    if small != [] {
      assert (large + more)[0] == large[0] && (large + more)[1..] == large[1..] + more;
      if Embeds(small, large[1..]) {
        EmbedsWiden(small, large[1..], more);
      } else {
        EmbedsWiden(small[1..], large[1..], more);
      }
    }
  }

  lemma {:induction false} DeleteIncluded(small: seq<Item>, large: seq<Item>, n: nat, m: nat, k: Key)
    requires Included(small, large, n, m)
    ensures Included(Without(small, k), Without(large, k), n, m)
  {
    DistinctWithout(small, k);
    DistinctWithout(large, k);
    EmbedsWithout(small, large, k);
    WithoutLength(small, k);
    WithoutLength(large, k);
    if Has(small, k) {
      EmbedsHas(small, large, k);
    }
  }

  /** Contents of the small tier are contents of the large one. */
  lemma {:induction false} IncludedHeld(small: seq<Item>, large: seq<Item>, n: nat, m: nat, k: Key)
    requires Included(small, large, n, m)
    ensures k in Held(small) ==> k in Held(large) && Held(large)[k] == Held(small)[k]
  {
    HeldAt(small, k);
    HeldAt(large, k);
    if Has(small, k) {
      EmbedsAt(small, large, k);
      HeldTouched(small, k, Fifo);
      HeldTouched(large, k, Fifo);
    }
  }

  function Run(items: seq<Item>, ops: seq<Op>, capacity: nat): (seq<Item>, seq<Option<Value>>)
    decreases |ops|
  {
    if ops == [] then (items, [])
    else
      var (s, a) := Step(items, ops[0], capacity);
      var (s', rest) := Run(s, ops[1..], capacity);
      (s', [a] + rest)
  }

  /** LRU never gets worse with more room: fed the same puts, gets and deletes, a
      smaller LRU tier's contents stay within a larger one's, binding for binding,
      and every get the smaller answers the larger answers alike. */
  lemma {:induction false} LruInclusion(small: seq<Item>, large: seq<Item>, n: nat, m: nat, ops: seq<Op>)
    requires n <= m && Included(small, large, n, m)
    ensures var (s, a) := Run(small, ops, n);
      var (l, b) := Run(large, ops, m);
      && Included(s, l, n, m)
      && (forall k :: k in Held(s) ==> k in Held(l) && Held(l)[k] == Held(s)[k])
      && |a| == |b| == |ops| && forall i :: 0 <= i < |a| && a[i].Some? ==> b[i] == a[i]
    decreases |ops|
  {
    if ops == [] {
      forall k ensures k in Held(small) ==> k in Held(large) && Held(large)[k] == Held(small)[k] {
        IncludedHeld(small, large, n, m, k);
      }
    } else {
      var s, l := Step(small, ops[0], n), Step(large, ops[0], m);
      match ops[0] {
        case Put(k, v) => PutIncluded(small, large, n, m, k, v);
        case Get(k) =>
          GetIncluded(small, large, n, m, k);
          IncludedHeld(small, large, n, m, k);
        case Delete(k) => DeleteIncluded(small, large, n, m, k);
      }
      LruInclusion(s.0, l.0, n, m, ops[1..]);
    }
  }

  // -------------------------------------------------------------- cost over runs

  datatype Call = Insert(key: Key, value: Value, weight: nat) | Fetch(key: Key) | Touch(key: Key) | Remove(key: Key)

  /** What the call adds to the total before anything is taken off it. */
  function Added(call: Call): nat {
    if call.Insert? then call.weight else 0
  }

  /** One call on the list. */
  ghost function One(items: seq<Item>, call: Call, limits: Limits, e: Eviction): seq<Item> {
    match call
    case Insert(k, v, w) => Kept(Placed(items, Item(k, v, w), e), limits)
    case Fetch(k) => Touched(items, k, e)
    case Touch(k) => Touched(items, k, Lru)
    case Remove(k) => Without(items, k)
  }

  ghost function Replay(items: seq<Item>, calls: seq<Call>, limits: Limits, e: Eviction): seq<Item>
    decreases |calls|
  {
    if calls == [] then items else Replay(One(items, calls[0], limits, e), calls[1..], limits, e)
  }

  /** The running total never overflows. */
  ghost predicate Bearable(items: seq<Item>, calls: seq<Call>, limits: Limits, e: Eviction)
    decreases |calls|
  {
    calls == [] ||
    (Weight(items) + Added(calls[0]) <= Memory.MAX_USIZE && Bearable(One(items, calls[0], limits, e), calls[1..], limits, e))
  }

  ghost predicate QueueShort(tier: Memory.Inner, limits: Limits)
    reads tier
  {
    limits.entries.Some? ==>
      |tier.cells| <= limits.entries.value && |tier.order| <= Memory.Max(16, 2 * limits.entries.value + 2)
  }

  method Perform(tier: Memory.Inner, call: Call, limits: Limits, e: Eviction)
    requires tier.Valid() && QueueShort(tier, limits)
    requires tier.totalWeight + Added(call) <= Memory.MAX_USIZE
    modifies tier
    ensures tier.Valid() && QueueShort(tier, limits)
    ensures tier.Items() == One(old(tier.Items()), call, limits, e)
    ensures tier.visits + tier.Potential() <= old(tier.visits + tier.Potential()) + 2
  {
    tier.Facts();
    match call {
      case Insert(k, v, w) =>
        ExcessShortest(Placed(tier.Items(), Item(k, v, w), e), limits);
        var _ := tier.Insert(k, v, w, limits, e);
        tier.Facts();
      case Fetch(k) =>
        var _ := tier.Fetch(k, e);
      case Touch(k) =>
        tier.Touch(k);
        tier.Facts();
      case Remove(k) =>
        var _ := tier.Remove(k);
    }
  }

  /** Any run of single-entry calls from an empty tier: the ticket queue stays in
      step with the list, all its evictions and sweeps together look at no more
      than two tickets per call, and with an entry bound the queue stays short. */
  method Drive(calls: seq<Call>, limits: Limits, e: Eviction) returns (tier: Memory.Inner)
    requires Bearable([], calls, limits, e)
    ensures fresh(tier) && tier.Valid() && tier.Items() == Replay([], calls, limits, e)
    ensures tier.visits <= 2 * |calls|
    ensures QueueShort(tier, limits)
  {
    tier := new Memory.Inner();
    tier.Facts();
    var i := 0;
    assert calls[0..] == calls;
    while i < |calls|
      invariant 0 <= i <= |calls| && fresh(tier) && tier.Valid() && QueueShort(tier, limits)
      invariant Replay(tier.Items(), calls[i..], limits, e) == Replay([], calls, limits, e)
      invariant Bearable(tier.Items(), calls[i..], limits, e)
      invariant tier.visits + tier.Potential() <= 2 * i
    {
      assert calls[i..][0] == calls[i] && calls[i..][1..] == calls[i + 1..];
      Perform(tier, calls[i], limits, e);
      i := i + 1;
    }
    tier.Facts();
    assert calls[i..] == [];
  }
}
