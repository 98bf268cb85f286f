/** First in, first out: in what order the slot store lets keys go, told by when each
    key came in and not by the queue the store keeps. */
module SlotOrder {
  import opened Bindings
  import opened Records
  import opened SlotTable

  datatype Op = Put(key: Bytes, value: Bytes) | Drop(key: Bytes)

  function Step(t: Table, op: Op): Table {
    match op
    case Put(key, value) => t.Insert(key, value).0
    case Drop(key) => t.Remove(key).0
  }

  function After(t: Table, ops: seq<Op>): Table {
    if ops == [] then t else Step(After(t, ops[..|ops| - 1]), ops[|ops| - 1])
  }

  /** Since when the store has each key: a key that stays keeps its time, a key that
      comes in gets the time of the step. Times start at `start`; `birth` dates the
      keys of the first table. */
  ghost function Since(t: Table, birth: map<Bytes, nat>, start: nat, ops: seq<Op>): map<Bytes, nat> {
    if ops == [] then birth
    else
      var before, ops' := After(t, ops[..|ops| - 1]), ops[..|ops| - 1];
      Dated(Since(t, birth, start, ops'), before.index.Keys, After(t, ops).index.Keys, start + |ops'|)
  }

  ghost function Dated(birth: map<Bytes, nat>, before: set<Bytes>, after: set<Bytes>, now: nat): map<Bytes, nat> {
    map k | k in after :: if k in before && k in birth then birth[k] else now
  }

  /** A queue that runs from the oldest key to the newest, all from before `now`. */
  ghost predicate OldFirst(order: seq<Bytes>, birth: map<Bytes, nat>, now: nat) {
    && (forall i :: 0 <= i < |order| ==> order[i] in birth && birth[order[i]] < now)
    && (forall i, j :: 0 <= i < j < |order| ==> birth[order[i]] < birth[order[j]])
  }

  // ----- one step and the queue -----

  /** Where the index points there is a record of the key. */
  lemma {:induction false} IndexedReads(t: Table, key: Bytes)
    requires t.Wf() && key in t.index
    ensures t.Read(t.index[key]).Some? && t.Read(t.index[key]).value.0 == key
  {
    assert t.Cells()[t.index[key]] == t.Read(t.index[key]);
  }

  ghost predicate FirstIsBack(t: Table, taken: Table, displaced: seq<(Bytes, Bytes)>) {
    t.order == Keys(displaced) + taken.order && (displaced == [] <==> t.free != [])
  }

  lemma {:induction false} OldestIsBack(t: Table, displaced: seq<(Bytes, Bytes)>, taken: Table)
    requires t.free == [] && |displaced| == 1 && t.order != [] && displaced[0].0 == t.order[0] && taken.order == t.order[1..]
    ensures FirstIsBack(t, taken, displaced)
  {
    assert Keys(displaced) == [t.order[0]];
  }

  lemma {:induction false} TakenOrder(t: Table)
    requires t.Wf() && t.Taken().Ok?
    ensures FirstIsBack(t, t.Taken().value.0, t.Taken().value.2)
  {
    var (taken, slot, displaced) := t.Taken().value;
    if t.free == [] {
      IndexedReads(t, t.order[0]);
      OldestIsBack(t, displaced, taken);
    } else {
      assert Keys(displaced) == [];
      assert [] + t.order == t.order;
    }
  }

  /** A new key goes last; the keys that stay keep their order, and the one handed back,
      if any, was first. A replacement leaves the queue alone. */
  lemma {:induction false} InsertOrder(t: Table, key: Bytes, value: Bytes)
    requires t.Wf() && t.Insert(key, value).1.Ok?
    ensures var (r, displaced) := t.Insert(key, value);
      if key in t.index then r.order == t.order && displaced.value == []
      else r.order != [] && r.order[|r.order| - 1] == key && t.order == Keys(displaced.value) + r.order[..|r.order| - 1]
  {
    if key !in t.index {
      TakenOrder(t);
      var order := t.Taken().value.0.order;
      assert (order + [key])[..|order|] == order;
    }
  }

  lemma {:induction false} WithoutSplit(before: seq<Bytes>, key: Bytes, after: seq<Bytes>)
    requires Distinct(before + [key] + after)
    ensures Without(before + [key] + after, key) == before + after
  {
    var all := before + [key] + after;
    if before == [] {
      assert all[1..] == after;
      forall i | 0 <= i < |after|
        ensures after[i] != key
      {
        assert all[0] != all[i + 1];
      }
      WithoutAbsent(after, key);
    } else {
      assert all[1..] == before[1..] + [key] + after;
      assert all[0] != all[|before|];
      WithoutSplit(before[1..], key, after);
      assert before + after == [before[0]] + (before[1..] + after);
    }
  }

  lemma {:induction false} WithoutAbsent(s: seq<Bytes>, key: Bytes)
    requires key !in s
    ensures Without(s, key) == s
  {
    if s != [] {
      WithoutAbsent(s[1..], key);
    }
  }

  /** A removal takes one key out of the queue and leaves the others in their order. */
  lemma {:induction false} RemoveOrder(t: Table, key: Bytes)
    requires OrderAgrees(t.index, t.order)
    ensures var r := t.Remove(key).0.order;
      if key in t.index then exists i :: 0 <= i < |t.order| && t.order[i] == key && r == t.order[..i] + t.order[i + 1..]
      else r == t.order
  {
    if key in t.index {
      var i :| 0 <= i < |t.order| && t.order[i] == key;
      OneOut(t.order, i);
    }
  }

  lemma {:induction false} OneOut(order: seq<Bytes>, i: nat)
    requires Distinct(order) && i < |order|
    ensures Without(order, order[i]) == order[..i] + order[i + 1..]
  {
    var before, after := order[..i], order[i + 1..];
    assert order == before + [order[i]] + after;
    WithoutSplit(before, order[i], after);
  }

  // ----- age -----

  lemma {:induction false} NextOldest(order: seq<Bytes>, birth: map<Bytes, nat>, now: nat, later: map<Bytes, nat>)
    requires order != [] && OldFirst(order, birth, now)
    requires forall k :: k in order[1..] ==> k in later && later[k] == birth[k]
    ensures OldFirst(order[1..], later, now + 1)
  {
    assert forall i :: 0 <= i < |order[1..]| ==> order[1..][i] == order[i + 1] && order[1..][i] in order[1..];
  }

  lemma {:induction false} AppendNewest(order: seq<Bytes>, birth: map<Bytes, nat>, now: nat, key: Bytes)
    requires OldFirst(order, birth, now) && key in birth && birth[key] == now
    ensures OldFirst(order + [key], birth, now + 1)
  {
  }

  lemma {:induction false} WithoutOldFirst(order: seq<Bytes>, birth: map<Bytes, nat>, now: nat, key: Bytes)
    requires OldFirst(order, birth, now)
    ensures OldFirst(Without(order, key), birth, now)
  {
    if order != [] {
      assert forall i :: 0 <= i < |order[1..]| ==> order[1..][i] == order[i + 1];
      WithoutOldFirst(order[1..], birth, now, key);
      var rest := Without(order[1..], key);
      forall i | 0 <= i < |rest|
        ensures birth[order[0]] < birth[rest[i]]
      {
        assert rest[i] in order[1..];
      }
    }
  }

  lemma {:induction false} SameDates(order: seq<Bytes>, birth: map<Bytes, nat>, now: nat, later: map<Bytes, nat>)
    requires OldFirst(order, birth, now)
    requires forall k :: k in order ==> k in later && later[k] == birth[k]
    ensures OldFirst(order, later, now)
  {
    assert forall i :: 0 <= i < |order| ==> order[i] in order;
  }

  /** A key that an insert puts out is the first of the queue. */
  lemma {:induction false} PutsOutFirst(t: Table, key: Bytes, value: Bytes, x: Bytes)
    requires OrderAgrees(t.index, t.order)
    requires x in t.index && x !in t.Insert(key, value).0.index
    ensures t.order != [] && t.order[0] == x
  {
  }

  /** The queue and the index after the slot was taken. */
  lemma {:induction false} TakenQueue(t: Table)
    requires OrderAgrees(t.index, t.order) && t.Taken().Ok?
    ensures var taken := t.Taken().value.0;
      && OrderAgrees(taken.index, taken.order)
      && (forall k :: k in taken.order ==> k in t.order)
      && (taken.order == t.order || (t.order != [] && taken.order == t.order[1..]))
  {
    if t.free == [] {
      Dequeue(t.index, t.order);
    }
  }

  lemma {:induction false} NewKeyByAge(t: Table, key: Bytes, value: Bytes, birth: map<Bytes, nat>, now: nat)
    requires OrderAgrees(t.index, t.order) && OldFirst(t.order, birth, now)
    requires t.Fits(key, value) && key !in t.index && t.Taken().Ok?
    ensures var r := t.Insert(key, value).0;
      OrderAgrees(r.index, r.order) && OldFirst(r.order, Dated(birth, t.index.Keys, r.index.Keys, now), now + 1)
  {
    var taken, r := t.Taken().value.0, t.Insert(key, value).0;
    var later := Dated(birth, t.index.Keys, r.index.Keys, now);
    TakenQueue(t);
    if taken.order == t.order {
      SameDates(t.order, birth, now, later);
    } else {
      NextOldest(t.order, birth, now, later);
    }
    if !TooLong(key, value) {
      AppendNewest(taken.order, later, now, key);
    }
  }

  lemma {:induction false} SameKeysByAge(t: Table, r: Table, birth: map<Bytes, nat>, now: nat)
    requires OrderAgrees(t.index, t.order) && OldFirst(t.order, birth, now)
    requires r.order == t.order && r.index == t.index
    ensures OldFirst(r.order, Dated(birth, t.index.Keys, r.index.Keys, now), now + 1)
  {
    SameDates(t.order, birth, now, Dated(birth, t.index.Keys, r.index.Keys, now));
  }

  lemma {:induction false} DropByAge(t: Table, key: Bytes, birth: map<Bytes, nat>, now: nat)
    requires OrderAgrees(t.index, t.order) && OldFirst(t.order, birth, now) && key in t.index
    ensures var r := t.Remove(key).0;
      OrderAgrees(r.index, r.order) && OldFirst(r.order, Dated(birth, t.index.Keys, r.index.Keys, now), now + 1)
  {
    var r := t.Remove(key).0;
    DropOrder(t.index, t.order, key);
    WithoutOldFirst(t.order, birth, now, key);
    SameDates(r.order, birth, now, Dated(birth, t.index.Keys, r.index.Keys, now));
  }

  lemma {:induction false} StepByAge(t: Table, op: Op, birth: map<Bytes, nat>, now: nat)
    requires OrderAgrees(t.index, t.order) && OldFirst(t.order, birth, now)
    ensures var r := Step(t, op);
      OrderAgrees(r.index, r.order) && OldFirst(r.order, Dated(birth, t.index.Keys, r.index.Keys, now), now + 1)
  {
    var r := Step(t, op);
    if op.Drop? && op.key in t.index {
      DropByAge(t, op.key, birth, now);
    } else if op.Put? && t.Fits(op.key, op.value) && op.key !in t.index && t.Taken().Ok? {
      NewKeyByAge(t, op.key, op.value, birth, now);
    } else {
      SameKeysByAge(t, r, birth, now);
    }
  }

  /** Whatever is put and dropped, failed inserts included, the queue runs by age. */
  lemma {:induction false} RunByAge(t: Table, birth: map<Bytes, nat>, start: nat, ops: seq<Op>)
    requires OrderAgrees(t.index, t.order) && OldFirst(t.order, birth, start)
    ensures var r := After(t, ops);
      OrderAgrees(r.index, r.order) && OldFirst(r.order, Since(t, birth, start, ops), start + |ops|)
    decreases |ops|
  {
    if ops != [] {
      var before := ops[..|ops| - 1];
      RunByAge(t, birth, start, before);
      StepByAge(After(t, before), ops[|ops| - 1], Since(t, birth, start, before), start + |before|);
    }
  }

  /** First in, first out: over any run of inserts and removals, a key that an insert puts
      out came in before every other key the store then has. */
  lemma {:induction false} FirstInFirstOut(t: Table, birth: map<Bytes, nat>, start: nat, ops: seq<Op>, key: Bytes, value: Bytes,
                                           out: Bytes, other: Bytes)
    requires OrderAgrees(t.index, t.order) && OldFirst(t.order, birth, start)
    requires var now, next := After(t, ops).index, After(t, ops + [Put(key, value)]).index;
      out in now && out !in next && other in now && other != out
    ensures var since := Since(t, birth, start, ops);
      out in since && other in since && since[out] < since[other]
  {
    assert (ops + [Put(key, value)])[..|ops|] == ops;
    var r := After(t, ops);
    RunByAge(t, birth, start, ops);
    PutsOutFirst(r, key, value, out);
    assert other in r.order;
  }

  // ----- after a reopening -----

  /** Times at which the keys of a scanned file count as come in: their slots. */
  lemma {:induction false} ScanOldFirst(cells: seq<Cell>)
    requires NoTwins(cells)
    ensures OldFirst(ScanOrder(cells), ScanIndex(cells), |cells|)
  {
    if cells != [] {
      var before, last := cells[..|cells| - 1], cells[|cells| - 1];
      ScanOldFirst(before);
      ScanIndexAgrees(before);
      if last.Some? {
        var order, key := ScanOrder(before), last.value.0;
        forall i | 0 <= i < |order|
          ensures order[i] != key
        {
          assert order[i] in order;
          assert cells[ScanIndex(before)[order[i]]] == before[ScanIndex(before)[order[i]]];
        }
        SameDates(order, ScanIndex(before), |before|, ScanIndex(cells));
        AppendNewest(order, ScanIndex(cells), |before|, key);
      }
    }
  }

  /** A reopened file queues its keys in slot order, and goes on first in, first out from
      there: before anything put since, the key in the lowest slot goes first. */
  lemma {:induction false} ReopenedByAge(text: Bytes -> bool, slots: nat, size: nat, bytes: Bytes)
    requires size > HEADER && |bytes| == slots * size
    requires NoTwins(Scan(text, slots, size, bytes).Cells())
    ensures var t := Scan(text, slots, size, bytes);
      OrderAgrees(t.index, t.order) && OldFirst(t.order, t.index, slots)
  {
    var t := Scan(text, slots, size, bytes);
    assert t.Cells() == Table(text, slots, size, bytes, map[], [], []).Cells();
    ScanIndexAgrees(t.Cells());
    ScanOldFirst(t.Cells());
  }
}
