/** The memory tier: a map and a queue of stamped tickets, of which only the one
    matching its entry's stamp is live. The live tickets in queue order are the
    list of `Recency`; stale ones are skipped and now and then swept out, at a
    cost bounded over any run. */
module Memory {
  import opened Bindings
  import opened Tiers
  import opened Recency

  const MAX_USIZE: nat := 0xFFFF_FFFF_FFFF_FFFF

  function SaturatingAdd(a: nat, b: nat): nat {
    if a + b <= MAX_USIZE then a + b else MAX_USIZE
  }

  function SaturatingSub(a: nat, b: nat): nat {
    if b <= a then a - b else 0
  }

  datatype Cell = Cell(value: Value, weight: nat, stamp: nat)

  type Cells = map<Key, Cell>
  type Ticket = (Key, nat)

  predicate IsLive(cells: Cells, ticket: Ticket) {
    ticket.0 in cells && cells[ticket.0].stamp == ticket.1
  }

  /** The entries of the live tickets, in queue order. */
  ghost function Live(cells: Cells, order: seq<Ticket>): seq<Item> {
    if order == [] then []
    else (if IsLive(cells, order[0]) then [Item(order[0].0, cells[order[0].0].value, cells[order[0].0].weight)] else [])
         + Live(cells, order[1..])
  }

  /** Stamps rise along the queue, from above `low` up to at most `high`. */
  ghost predicate Ascending(order: seq<Ticket>, low: nat, high: nat) {
    if order == [] then low <= high
    else low < order[0].1 && Ascending(order[1..], order[0].1, high)
  }

  /** Every entry has its live ticket in the queue. */
  ghost predicate Ticketed(cells: Cells, order: seq<Ticket>) {
    forall k :: k in cells ==> (k, cells[k].stamp) in order
  }

  // ------------------------------------------------------------------- tickets

  lemma {:induction false} StampBounds(order: seq<Ticket>, low: nat, high: nat, i: nat)
    requires Ascending(order, low, high) && i < |order|
    ensures low < order[i].1 <= high
  {
    HighBound(order[1..], order[0].1, high);
    if i > 0 {
      StampBounds(order[1..], order[0].1, high, i - 1);
    }
  }

  lemma {:induction false} HighBound(order: seq<Ticket>, low: nat, high: nat)
    requires Ascending(order, low, high)
    ensures low <= high
  {
    if order != [] {
      HighBound(order[1..], order[0].1, high);
    }
  }

  lemma {:induction false} AscendingPush(order: seq<Ticket>, low: nat, high: nat, t: Ticket)
    requires Ascending(order, low, high) && high < t.1
    ensures Ascending(order + [t], low, t.1)
  {
    HighBound(order, low, high);
    if order == [] {
      assert order + [t] == [t] && [t][1..] == [];
    } else {
      AscendingPush(order[1..], order[0].1, high, t);
      assert (order + [t])[1..] == order[1..] + [t];
    }
  }

  lemma {:induction false} AscendingRaise(order: seq<Ticket>, low: nat, low': nat, high: nat, high': nat)
    requires Ascending(order, low, high) && low' <= low && high <= high'
    ensures Ascending(order, low', high')
  {
    if order != [] {
      AscendingRaise(order[1..], order[0].1, order[0].1, high, high');
    }
  }

  lemma {:induction false} LiveHas(cells: Cells, order: seq<Ticket>, k: Key)
    ensures Has(Live(cells, order), k) <==> k in cells && (k, cells[k].stamp) in order
  {
    if order != [] {
      LiveHas(cells, order[1..], k);
      var first := if IsLive(cells, order[0]) then [Item(order[0].0, cells[order[0].0].value, cells[order[0].0].weight)] else [];
      HasConcat(first, Live(cells, order[1..]), k);
      HasCons(first, k);
      assert order == [order[0]] + order[1..];
    }
  }

  lemma {:induction false} LiveDistinct(cells: Cells, order: seq<Ticket>, low: nat, high: nat)
    requires Ascending(order, low, high)
    ensures Distinct(Live(cells, order))
  {
    if order != [] {
      var rest := Live(cells, order[1..]);
      LiveDistinct(cells, order[1..], order[0].1, high);
      if IsLive(cells, order[0]) {
        LiveHas(cells, order[1..], order[0].0);
        if order[0] in order[1..] {
          var i :| 0 <= i < |order[1..]| && order[1..][i] == order[0];
          StampBounds(order[1..], order[0].1, high, i);
        }
        var item := Item(order[0].0, cells[order[0].0].value, cells[order[0].0].weight);
        assert ([item] + rest)[1..] == rest;
      } else {
        assert [] + rest == rest;
      }
    }
  }

  lemma {:induction false} HeldSize(items: seq<Item>)
    requires Distinct(items)
    ensures |Held(items)| == |items|
  {
    if items != [] {
      HeldSize(items[1..]);
      HeldAt(items[1..], items[0].key);
    }
  }

  /** One live ticket per entry. */
  lemma {:induction false} LiveSize(cells: Cells, order: seq<Ticket>, high: nat)
    requires Ascending(order, 0, high) && Ticketed(cells, order)
    ensures |Live(cells, order)| == |cells|
  {
    LiveDistinct(cells, order, 0, high);
    HeldSize(Live(cells, order));
    forall k ensures k in Held(Live(cells, order)) <==> k in cells {
      HeldAt(Live(cells, order), k);
      LiveHas(cells, order, k);
    }
    assert Held(Live(cells, order)).Keys == cells.Keys;
    assert |cells.Keys| == |cells| && |Held(Live(cells, order)).Keys| == |Held(Live(cells, order))|;
  }

  lemma {:induction false} LiveItems(cells: Cells, order: seq<Ticket>)
    ensures forall item :: item in Live(cells, order) ==>
      item.key in cells && item == Item(item.key, cells[item.key].value, cells[item.key].weight)
  {
    if order != [] {
      LiveItems(cells, order[1..]);
    }
  }

  /** A fresh ticket: the entry goes last, and its old ticket, if any, is stale. */
  lemma {:induction false} LiveFresh(cells: Cells, order: seq<Ticket>, low: nat, high: nat, k: Key, cell: Cell)
    requires Ascending(order, low, high) && high < cell.stamp
    ensures Live(cells[k := cell], order + [(k, cell.stamp)]) == Without(Live(cells, order), k) + [Item(k, cell.value, cell.weight)]
  {
    var cells' := cells[k := cell];
    var t: Ticket := (k, cell.stamp);
    if order == [] {
      assert order + [t] == [t] && [t][1..] == [];
    } else {
      LiveFresh(cells, order[1..], order[0].1, high, k, cell);
      assert (order + [t])[0] == order[0] && (order + [t])[1..] == order[1..] + [t];
      StampBounds(order, low, high, 0);
      FirstTicket(cells, order, k);
      assert order[0].0 == k ==> !IsLive(cells', order[0]);
    }
  }

  /** `Without` peels off the first ticket's entry, if it has one. */
  lemma {:induction false} FirstTicket(cells: Cells, order: seq<Ticket>, k: Key)
    requires order != []
    ensures var rest := Live(cells, order[1..]);
      Without(Live(cells, order), k) ==
        (if IsLive(cells, order[0]) && order[0].0 != k
         then [Item(order[0].0, cells[order[0].0].value, cells[order[0].0].weight)] else []) + Without(rest, k)
  {
    var rest := Live(cells, order[1..]);
    if IsLive(cells, order[0]) {
      var item := Item(order[0].0, cells[order[0].0].value, cells[order[0].0].weight);
      assert ([item] + rest)[1..] == rest;
    } else {
      assert [] + rest == rest;
    }
  }

  lemma {:induction false} LiveReplaced(cells: Cells, order: seq<Ticket>, k: Key, cell: Cell)
    requires k in cells && cell.stamp == cells[k].stamp
    ensures Live(cells[k := cell], order) == Replaced(Live(cells, order), Item(k, cell.value, cell.weight))
  {
    if order != [] {
      LiveReplaced(cells, order[1..], k, cell);
      var rest := Live(cells, order[1..]);
      if IsLive(cells, order[0]) {
        var item := Item(order[0].0, cells[order[0].0].value, cells[order[0].0].weight);
        assert ([item] + rest)[1..] == rest;
      } else {
        assert [] + rest == rest;
      }
    }
  }

  lemma {:induction false} LiveRemoved(cells: Cells, order: seq<Ticket>, k: Key)
    ensures Live(cells - {k}, order) == Without(Live(cells, order), k)
  {
    if order != [] {
      LiveRemoved(cells, order[1..], k);
      FirstTicket(cells, order, k);
    }
  }

  /** The live tickets, as a sweep keeps them. */
  function Swept(cells: Cells, order: seq<Ticket>): (r: seq<Ticket>)
    ensures |r| <= |order|
  {
    if order == [] then []
    else (if IsLive(cells, order[0]) then [order[0]] else []) + Swept(cells, order[1..])
  }

  lemma {:induction false} SweptLive(cells: Cells, order: seq<Ticket>, low: nat, high: nat)
    requires Ascending(order, low, high)
    ensures Live(cells, Swept(cells, order)) == Live(cells, order)
    ensures |Swept(cells, order)| == |Live(cells, order)|
    ensures Ascending(Swept(cells, order), low, high)
  {
    HighBound(order, low, high);
    if order != [] {
      var rest := Swept(cells, order[1..]);
      SweptLive(cells, order[1..], order[0].1, high);
      if IsLive(cells, order[0]) {
        assert ([order[0]] + rest)[1..] == rest;
      } else {
        assert [] + rest == rest;
        AscendingRaise(rest, order[0].1, low, high, high);
      }
    }
  }

  lemma {:induction false} SweptTickets(cells: Cells, order: seq<Ticket>, t: Ticket)
    ensures t in Swept(cells, order) <==> t in order && IsLive(cells, t)
  {
    if order != [] {
      SweptTickets(cells, order[1..], t);
      assert order == [order[0]] + order[1..];
    }
  }

  // ------------------------------------------------------------------- weights

  lemma {:induction false} WeightConcat(a: seq<Item>, b: seq<Item>)
    ensures Weight(a + b) == Weight(a) + Weight(b)
  {
    if a == [] {
      assert a + b == b;
    } else {
      assert (a + b)[0] == a[0] && (a + b)[1..] == a[1..] + b;
      WeightConcat(a[1..], b);
    }
  }

  lemma {:induction false} WeightWithout(items: seq<Item>, k: Key)
    requires Distinct(items)
    ensures Weight(items) == Weight(Without(items, k)) + if Has(items, k) then At(items, k).weight else 0
  {
    HasCons(items, k);
    if items != [] {
      var rest := Without(items[1..], k);
      WeightWithout(items[1..], k);
      if items[0].key == k {
        assert [] + rest == rest;
      } else {
        assert ([items[0]] + rest)[1..] == rest;
      }
    }
  }

  lemma {:induction false} WeightReplaced(items: seq<Item>, item: Item)
    requires Distinct(items) && Has(items, item.key)
    ensures Weight(Replaced(items, item)) + At(items, item.key).weight == Weight(items) + item.weight
  {
    HasCons(items, item.key);
    if items[0].key == item.key {
      ReplacedAbsent(items[1..], item);
    } else {
      WeightReplaced(items[1..], item);
    }
  }

  lemma {:induction false} WeightPlaced(items: seq<Item>, item: Item, e: Eviction)
    requires Distinct(items)
    ensures Weight(Placed(items, item, e)) ==
      Weight(items) + item.weight - if Has(items, item.key) then At(items, item.key).weight else 0
  {
    assert Weight([item]) == item.weight by {
      assert [item][1..] == [];
    }
    if !Has(items, item.key) {
      WeightConcat(items, [item]);
    } else if e.Fifo? {
      WeightReplaced(items, item);
    } else {
      WeightWithout(items, item.key);
      WeightConcat(Without(items, item.key), [item]);
    }
  }

  // ------------------------------------------------------------------- batches

  function BatchWeight(entries: seq<(Key, Value, nat)>): nat {
    if entries == [] then 0 else entries[0].2 + BatchWeight(entries[1..])
  }

  /** A batch of inserts on the list. */
  function InsertAll(items: seq<Item>, entries: seq<(Key, Value, nat)>, limits: Limits, e: Eviction): (seq<Item>, Displaced)
    decreases |entries|
  {
    if entries == [] then (items, [])
    else
      var placed := Placed(items, Item(entries[0].0, entries[0].1, entries[0].2), e);
      var (rest, out) := InsertAll(Kept(placed, limits), entries[1..], limits, e);
      (rest, Evicted(placed, limits) + out)
  }

  /** A batch part-way: `rest` is still to insert into `items`. */
  ghost predicate Batching(all: (seq<Item>, Displaced), items: seq<Item>, rest: seq<(Key, Value, nat)>, out: Displaced,
                           limits: Limits, e: Eviction)
  {
    var left := InsertAll(items, rest, limits, e);
    all.0 == left.0 && all.1 == out + left.1
  }

  lemma {:induction false} BatchingStep(all: (seq<Item>, Displaced), items: seq<Item>, rest: seq<(Key, Value, nat)>, out: Displaced,
                                        limits: Limits, e: Eviction)
    requires Batching(all, items, rest, out, limits, e) && rest != []
    ensures var placed := Placed(items, Item(rest[0].0, rest[0].1, rest[0].2), e);
      Batching(all, Kept(placed, limits), rest[1..], out + Evicted(placed, limits), limits, e)
  {
    var placed := Placed(items, Item(rest[0].0, rest[0].1, rest[0].2), e);
    var left := InsertAll(Kept(placed, limits), rest[1..], limits, e);
    assert out + (Evicted(placed, limits) + left.1) == (out + Evicted(placed, limits)) + left.1;
  }

  // ------------------------------------------------------------------ the class

  class Inner {
    var cells: Cells
    var order: seq<Ticket>
    var totalWeight: nat
    var nextStamp: nat
    /** Tickets looked at by eviction and sweeps so far. */
    ghost var visits: nat

    ghost predicate Valid()
      reads this
    {
      && Ascending(order, 0, nextStamp) && Ticketed(cells, order)
      && totalWeight == Weight(Items())
    }

    /** The contents in eviction order. */
    ghost function Items(): seq<Item>
      reads this
    {
      Live(cells, order)
    }

    /** What the stale tickets in the queue can still cost. */
    ghost function Potential(): int
      reads this
    {
      2 * |order| - |cells|
    }

    constructor ()
      ensures Valid() && Items() == [] && visits == 0 && Potential() == 0 && |order| == 0
    {
      cells, order, totalWeight, nextStamp := map[], [], 0, 0;
      visits := 0;
    }

    /** The invariant, spelled out for the list. */
    lemma {:induction false} Facts()
      requires Valid()
      ensures Distinct(Items()) && |Items()| == |cells|
      ensures |cells| <= |order|
      ensures forall k :: Has(Items(), k) <==> k in cells
      ensures forall k :: k in cells ==> At(Items(), k) == Item(k, cells[k].value, cells[k].weight)
    {
      LiveDistinct(cells, order, 0, nextStamp);
      LiveSize(cells, order, nextStamp);
      LiveShort(cells, order);
      forall k ensures Has(Items(), k) <==> k in cells {
        LiveHas(cells, order, k);
      }
      LiveItems(cells, order);
    }

    method FreshStamp() returns (stamp: nat)
      modifies this`nextStamp
      ensures stamp == nextStamp == old(nextStamp) + 1
    {
      nextStamp := nextStamp + 1;
      stamp := nextStamp;
    }

    method IsOver(limits: Limits) returns (over: bool)
      requires Valid()
      ensures over == Over(Items(), limits)
    {
      Facts();
      over := (limits.entries.Some? && |cells| > limits.entries.value)
           || (limits.bytes.Some? && totalWeight > limits.bytes.value);
    }

    /** Sweeps the queue once stale tickets dominate it. */
    method Compact()
      requires Valid()
      modifies this`order, this`visits
      ensures Valid() && Items() == old(Items())
      ensures |order| <= Max(2 * |cells|, 16)
      ensures visits + Potential() <= old(visits + Potential())
    {
      Facts();
      if |order| > Max(2 * |cells|, 16) {
        visits := visits + |order|;
        SweptLive(cells, order, 0, nextStamp);
        forall k | k in cells ensures (k, cells[k].stamp) in Swept(cells, order) {
          SweptTickets(cells, order, (k, cells[k].stamp));
        }
        order := Swept(cells, order);
      }
    }

    /** Takes the oldest ticket off the queue, and its entry out if the ticket is live. */
    method Pop() returns (oldest: Option<Tiers.Entry>)
      requires Valid() && order != []
      modifies this
      ensures Valid() && nextStamp == old(nextStamp) && |order| == old(|order|) - 1
      ensures oldest.None? ==> Items() == old(Items())
      ensures oldest.Some? ==> old(Items()) != [] && oldest.value == Recency.Entry(old(Items())[0]) && Items() == old(Items())[1..]
      ensures visits + Potential() <= old(visits + Potential())
    {
      var ticket := order[0];
      PopTicket(cells, order, nextStamp);
      order := order[1..];
      visits := visits + 1;
      if !IsLive(cells, ticket) {
        return None;
      }
      var cell := cells[ticket.0];
      cells := cells - {ticket.0};
      totalWeight := SaturatingSub(totalWeight, cell.weight);
      oldest := Some((ticket.0, cell.value));
    }

    /** Evicts in ticket order until both bounds hold again. */
    method EvictOver(limits: Limits) returns (displaced: Displaced)
      requires Valid()
      modifies this
      ensures Valid()
      ensures Items() == Kept(old(Items()), limits) && displaced == Evicted(old(Items()), limits)
      ensures |order| <= old(|order|) && nextStamp == old(nextStamp)
      ensures visits + Potential() <= old(visits + Potential())
    {
      ghost var all, n := Items(), 0;
      displaced := [];
      assert all[0..] == all && Entries(all[..0]) == [];
      var over := IsOver(limits);
      while over
        invariant Valid() && over == Over(Items(), limits)
        invariant Evicting(all, limits, n, Items(), displaced)
        invariant |order| <= old(|order|) && nextStamp == old(nextStamp)
        invariant visits + Potential() <= old(visits + Potential())
        decreases |order|
      {
        if order == [] {
          break;
        }
        ghost var before := Items();
        var oldest := Pop();
        if oldest.Some? {
          EvictingStep(all, limits, n, before, displaced);
          displaced := displaced + [oldest.value];
          n := n + 1;
        }
        over := IsOver(limits);
      }
    }

    /** Files an entry, new or replacing, without looking at the bounds. */
    method Place(key: Key, value: Value, weight: nat, e: Eviction)
      requires Valid() && totalWeight + weight <= MAX_USIZE
      modifies this
      ensures Valid() && Items() == Placed(old(Items()), Item(key, value, weight), e)
      ensures nextStamp == old(nextStamp) + 1 && visits == old(visits)
      ensures |cells| <= old(|cells|) + 1 && Potential() <= old(Potential()) + 2
    {
      Facts();
      ghost var item := Item(key, value, weight);
      WeightPlaced(Items(), item, e);
      var stamp := FreshStamp();
      AscendingRaise(order, 0, 0, old(nextStamp), stamp);
      if key in cells {
        var old_ := cells[key].weight;
        if e.Lru? {
          LiveFresh(cells, order, 0, old(nextStamp), key, Cell(value, weight, stamp));
          AscendingPush(order, 0, old(nextStamp), (key, stamp));
          cells := cells[key := Cell(value, weight, stamp)];
          order := order + [(key, stamp)];
        } else {
          LiveReplaced(cells, order, key, cells[key].(value := value, weight := weight));
          cells := cells[key := cells[key].(value := value, weight := weight)];
        }
        totalWeight := SaturatingSub(SaturatingAdd(totalWeight, weight), old_);
      } else {
        LiveFresh(cells, order, 0, old(nextStamp), key, Cell(value, weight, stamp));
        WithoutAbsent(Items(), key);
        AscendingPush(order, 0, old(nextStamp), (key, stamp));
        cells := cells[key := Cell(value, weight, stamp)];
        order := order + [(key, stamp)];
        totalWeight := SaturatingAdd(totalWeight, weight);
      }
    }

    method Insert(key: Key, value: Value, weight: nat, limits: Limits, e: Eviction) returns (displaced: Displaced)
      requires Valid() && totalWeight + weight <= MAX_USIZE
      modifies this
      ensures Valid()
      ensures var placed := Placed(old(Items()), Item(key, value, weight), e);
        Items() == Kept(placed, limits) && displaced == Evicted(placed, limits)
      ensures totalWeight <= old(totalWeight) + weight
      ensures |order| <= Max(2 * (old(|cells|) + 1), 16)
      ensures visits + Potential() <= old(visits + Potential()) + 2
    {
      Facts();
      WeightPlaced(Items(), Item(key, value, weight), e);
      Place(key, value, weight, e);
      Compact();
      KeptLighter(Items(), limits);
      displaced := EvictOver(limits);
    }

    /** A batch under one lock: inserts one by one, each evicting as it goes. */
    method InsertBatch(entries: seq<(Key, Value, nat)>, limits: Limits, e: Eviction) returns (displaced: Displaced)
      requires Valid() && totalWeight + BatchWeight(entries) <= MAX_USIZE
      modifies this
      ensures Valid()
      ensures (Items(), displaced) == InsertAll(old(Items()), entries, limits, e)
    {
      displaced := [];
      var i := 0;
      ghost var all := InsertAll(Items(), entries, limits, e);
      assert entries[0..] == entries && [] + all.1 == all.1;
      while i < |entries|
        invariant 0 <= i <= |entries| && Valid()
        invariant totalWeight + BatchWeight(entries[i..]) <= MAX_USIZE
        invariant Batching(all, Items(), entries[i..], displaced, limits, e)
      {
        BatchingStep(all, Items(), entries[i..], displaced, limits, e);
        assert entries[i..][0] == entries[i] && entries[i..][1..] == entries[i + 1..];
        var (key, value, weight) := entries[i];
        var out := Insert(key, value, weight, limits, e);
        displaced := displaced + out;
        i := i + 1;
      }
      assert entries[i..] == [] && displaced + [] == displaced;
    }

    /** Refreshes an entry's recency. */
    method Touch(key: Key)
      requires Valid()
      modifies this
      ensures Valid()
      ensures Items() == if key in old(cells) then Touched(old(Items()), key, Lru) else old(Items())
      ensures cells.Keys == old(cells).Keys && (key in cells ==> cells[key].value == old(cells)[key].value)
      ensures |order| <= Max(2 * |cells|, 16)
      ensures visits + Potential() <= old(visits + Potential()) + 2
    {
      Facts();
      var stamp := FreshStamp();
      AscendingRaise(order, 0, 0, old(nextStamp), stamp);
      if key in cells {
        var cell := cells[key].(stamp := stamp);
        LiveFresh(cells, order, 0, old(nextStamp), key, cell);
        AscendingPush(order, 0, old(nextStamp), (key, stamp));
        WeightWithout(Items(), key);
        WeightConcat(Without(Items(), key), [At(Items(), key)]);
        assert [At(Items(), key)][1..] == [];
        cells := cells[key := cell];
        order := order + [(key, stamp)];
      }
      Compact();
    }

    method Fetch(key: Key, e: Eviction) returns (value: Option<Value>)
      requires Valid()
      modifies this
      ensures Valid()
      ensures Items() == Touched(old(Items()), key, e) && value == Lookup(Held(old(Items())), key)
      ensures |cells| == old(|cells|) && |order| <= Max(old(|order|), Max(2 * |cells|, 16))
      ensures visits + Potential() <= old(visits + Potential()) + 2
    {
      Facts();
      HeldTouched(Items(), key, e);
      if e.Lru? && key in cells {
        Touch(key);
        assert |cells.Keys| == |cells| && |old(cells).Keys| == |old(cells)|;
      }
      value := if key in cells then Some(cells[key].value) else None;
    }

    /** Removes an entry; its ticket goes stale. */
    method Remove(key: Key) returns (present: bool)
      requires Valid()
      modifies this
      ensures Valid()
      ensures Items() == Without(old(Items()), key) && present == Has(old(Items()), key)
      ensures |cells| <= old(|cells|) && order == old(order)
      ensures visits + Potential() <= old(visits + Potential()) + 2
    {
      Facts();
      WithoutGone(Items(), key);
      if key !in cells {
        return false;
      }
      var cell := cells[key];
      LiveRemoved(cells, order, key);
      WeightWithout(Items(), key);
      cells := cells - {key};
      totalWeight := SaturatingSub(totalWeight, cell.weight);
      return true;
    }
  }

  /** Eviction part-way: the first `n` of `all` are out, the others still in. */
  ghost predicate Evicting(all: seq<Item>, limits: Limits, n: nat, items: seq<Item>, displaced: Displaced) {
    && n <= |all| && items == all[n..] && displaced == Entries(all[..n])
    && n + Excess(items, limits) == Excess(all, limits)
  }

  lemma {:induction false} EvictingStep(all: seq<Item>, limits: Limits, n: nat, items: seq<Item>, displaced: Displaced)
    requires Evicting(all, limits, n, items, displaced) && Over(items, limits) && items != []
    ensures Evicting(all, limits, n + 1, items[1..], displaced + [Recency.Entry(items[0])])
  {
    assert all[n..][1..] == all[n + 1..];
    assert all[..n + 1] == all[..n] + [all[n]];
  }

  function Max(a: nat, b: nat): nat {
    if a > b then a else b
  }

  lemma {:induction false} LiveShort(cells: Cells, order: seq<Ticket>)
    ensures |Live(cells, order)| <= |order|
  {
    if order != [] {
      LiveShort(cells, order[1..]);
    }
  }

  lemma {:induction false} WithoutGone(items: seq<Item>, k: Key)
    ensures !Has(items, k) ==> Without(items, k) == items
  {
    if !Has(items, k) {
      WithoutAbsent(items, k);
    }
  }

  lemma {:induction false} KeptLighter(items: seq<Item>, limits: Limits)
    ensures Weight(Kept(items, limits)) <= Weight(items)
  {
    var n := Excess(items, limits);
    assert items == items[..n] + items[n..];
    WeightConcat(items[..n], items[n..]);
  }

  /** Popping the oldest ticket, stale or live. */
  lemma {:induction false} PopTicket(cells: Cells, order: seq<Ticket>, high: nat)
    requires order != [] && Ascending(order, 0, high) && Ticketed(cells, order)
    ensures Ascending(order[1..], 0, high)
    ensures var t, items := order[0], Live(cells, order);
      if IsLive(cells, t) then
        && Ticketed(cells - {t.0}, order[1..])
        && items == [Item(t.0, cells[t.0].value, cells[t.0].weight)] + Live(cells - {t.0}, order[1..])
        && |cells - {t.0}| == |cells| - 1
      else Ticketed(cells, order[1..]) && items == Live(cells, order[1..])
  {
    var t := order[0];
    var rest := Live(cells, order[1..]);
    assert order == [t] + order[1..];
    AscendingRaise(order[1..], t.1, 0, high, high);
    if IsLive(cells, t) {
      LiveRemoved(cells, order[1..], t.0);
      LiveDistinct(cells, order, 0, high);
      assert ([Item(t.0, cells[t.0].value, cells[t.0].weight)] + rest)[1..] == rest;
      WithoutAbsent(rest, t.0);
      assert (cells - {t.0}).Keys == cells.Keys - {t.0};
      assert |cells.Keys| == |cells| && |(cells - {t.0}).Keys| == |cells - {t.0}|;
    } else {
      assert [] + rest == rest;
    }
  }
}
