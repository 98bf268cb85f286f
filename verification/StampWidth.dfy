/** The width of the mmap tier's stamps does not show: tiers whose counters wrap at
    different points, however often, answer alike and evict alike. */
module StampWidth {
  import opened Bindings
  import opened Tiers
  import opened Recency
  import opened DiskBooks
  import opened MmapDisk
  import Memory

  datatype Call = Put(key: Key, value: Value) | Get(key: Key) | Delete(key: Key)

  /** `Failed` is the I/O error of the empty key. */
  datatype Answer = Out(displaced: Displaced) | Read(value: Option<Value>) | Gone(found: bool) | Failed

  function Bytes(len: Value -> nat, call: Call): nat {
    if call.Put? then len(call.value) else 0
  }

  /** The keys that the calls put. */
  function PutKeys(calls: seq<Call>): set<Key> {
    if calls == [] then {} else (if calls[0].Put? then {calls[0].key} else {}) + PutKeys(calls[1..])
  }

  /** What a call does to the list, and answers. */
  ghost function Performed(c: Rules, items: seq<Item>, call: Call): (seq<Item>, Answer) {
    if c.encoding.utf8(call.key) == [] then (items, Failed)
    else
      match call
      case Put(key, value) =>
        var placed := Placed(items, Item(key, value, c.len(value)), c.eviction);
        (Kept(placed, Recency.Limits(None, c.budget)), Out(Evicted(placed, Recency.Limits(None, c.budget))))
      case Get(key) => (Touched(items, key, c.eviction), Read(Lookup(Held(items), key)))
      case Delete(key) => (Without(items, key), Gone(key in Held(items)))
  }

  /** Two tiers that differ at most in the width of their stamps. */
  ghost predicate Twins(a: MmapDisk, b: MmapDisk)
    reads a, b
  {
    && a != b && a.Valid() && b.Valid() && a.Contents() == b.Contents() && SameRules(a.rules, b.rules)
  }

  ghost predicate SameRules(a: Rules, b: Rules) {
    a.encoding == b.encoding && a.len == b.len && a.budget == b.budget && a.eviction == b.eviction
  }

  /** The running total never overflows. */
  ghost predicate Bearable(c: Rules, items: seq<Item>, calls: seq<Call>)
    decreases |calls|
  {
    calls == [] ||
    (Weight(items) + Bytes(c.len, calls[0]) <= Memory.MAX_USIZE && Bearable(c, Performed(c, items, calls[0]).0, calls[1..]))
  }

  /** Fewer keys than stamps, however many calls. */
  ghost predicate Room(d: MmapDisk, calls: seq<Call>)
    reads d
  {
    |d.sizes.Keys + PutKeys(calls)| + 1 < d.rules.width && Bearable(d.rules, d.Contents(), calls)
  }

  method PerformPut(d: MmapDisk, key: Key, value: Value) returns (answer: Answer)
    requires d.Valid() && |d.sizes| + 1 < d.rules.width
    requires d.total + d.rules.len(value) <= Memory.MAX_USIZE
    modifies d
    ensures d.Valid() && d.sizes.Keys <= old(d.sizes.Keys) + {key}
    ensures (d.Contents(), answer) == Performed(d.rules, old(d.Contents()), Put(key, value))
  {
    var r := d.Put(key, value);
    answer := if r.Ok? then Out(r.value) else Failed;
  }

  method PerformDelete(d: MmapDisk, key: Key) returns (answer: Answer)
    requires d.Valid()
    modifies d
    ensures d.Valid() && d.sizes.Keys <= old(d.sizes.Keys)
    ensures (d.Contents(), answer) == Performed(d.rules, old(d.Contents()), Delete(key))
  {
    EmptyKeyAbsent(d.rules, d.Now(), key);
    var r := d.Delete(key);
    answer := if r.Ok? then Gone(r.value) else Failed;
  }

  method PerformGet(d: MmapDisk, key: Key) returns (answer: Answer)
    requires d.Valid() && |d.sizes| + 1 < d.rules.width
    modifies d
    ensures d.Valid() && d.sizes.Keys == old(d.sizes.Keys)
    ensures (d.Contents(), answer) == Performed(d.rules, old(d.Contents()), Get(key))
  {
    EmptyKeyAbsent(d.rules, d.Now(), key);
    HeldKeys(d.rules, d.Now());
    var r := d.Get(key);
    answer := if r.Ok? then Read(r.value) else Failed;
  }

  method Perform(d: MmapDisk, call: Call) returns (answer: Answer)
    requires d.Valid() && |d.sizes| + 1 < d.rules.width
    requires d.total + Bytes(d.rules.len, call) <= Memory.MAX_USIZE
    modifies d
    ensures d.Valid() && d.sizes.Keys <= old(d.sizes.Keys) + PutKeys([call])
    ensures (d.Contents(), answer) == Performed(d.rules, old(d.Contents()), call)
  {
    match call
    case Put(key, value) => answer := PerformPut(d, key, value);
    case Get(key) => answer := PerformGet(d, key);
    case Delete(key) => answer := PerformDelete(d, key);
  }

  /** One call of a run leaves room for the rest. */
  method PerformNext(d: MmapDisk, ghost calls: seq<Call>, call: Call) returns (answer: Answer)
    requires d.Valid() && Room(d, calls) && calls != [] && call == calls[0]
    modifies d
    ensures d.Valid() && Room(d, calls[1..])
    ensures (d.Contents(), answer) == Performed(d.rules, old(d.Contents()), call)
  {
    ghost var keys := d.sizes.Keys;
    SubsetSize(keys, keys + PutKeys(calls));
    assert |d.sizes.Keys| == |d.sizes|;
    answer := Perform(d, call);
    KeysLeft(keys, d.sizes.Keys, calls);
  }

  lemma {:induction false} KeysLeft(before: set<Key>, after: set<Key>, calls: seq<Call>)
    requires calls != [] && after <= before + PutKeys([calls[0]])
    ensures |after + PutKeys(calls[1..])| <= |before + PutKeys(calls)|
  {
    assert [calls[0]][1..] == [];
    assert PutKeys(calls) == PutKeys([calls[0]]) + PutKeys(calls[1..]);
    SubsetSize(after + PutKeys(calls[1..]), before + PutKeys(calls));
  }

  lemma {:induction false} SamePerformed(a: Rules, b: Rules, items: seq<Item>, call: Call)
    requires SameRules(a, b)
    ensures Performed(a, items, call) == Performed(b, items, call)
  {
  }

  method PerformBoth(narrow: MmapDisk, wide: MmapDisk, ghost calls: seq<Call>, call: Call) returns (x: Answer, y: Answer)
    requires Twins(narrow, wide) && Room(narrow, calls) && Room(wide, calls) && calls != [] && call == calls[0]
    modifies narrow, wide
    ensures x == y && Twins(narrow, wide) && Room(narrow, calls[1..]) && Room(wide, calls[1..])
  {
    SamePerformed(narrow.rules, wide.rules, narrow.Contents(), call);
    x := PerformNext(narrow, calls, call);
    y := PerformNext(wide, calls, call);
  }

  /** Two tiers of which each key in play has a stamp to spare, whatever the length of
      the run and however often their counters wrap in it: they give the same answers
      and evict the same entries in the same order. */
  method Lockstep(narrow: MmapDisk, wide: MmapDisk, calls: seq<Call>) returns (a: seq<Answer>, b: seq<Answer>)
    requires Twins(narrow, wide) && Room(narrow, calls) && Room(wide, calls)
    modifies narrow, wide
    ensures a == b && |a| == |calls| && Twins(narrow, wide)
  {
    a, b := [], [];
    var i := 0;
    assert calls[0..] == calls;
    while i < |calls|
      invariant i <= |calls| && |a| == i && a == b
      invariant Twins(narrow, wide) && Room(narrow, calls[i..]) && Room(wide, calls[i..])
    {
      assert calls[i..][1..] == calls[i + 1..] && calls[i..][0] == calls[i];
      var x, y := PerformBoth(narrow, wide, calls[i..], calls[i]);
      a, b := a + [x], b + [y];
      i := i + 1;
    }
  }
}
