/** Whole runs: a tiered stack answers exactly as one flat map would. */
module Runs {
  import opened Bindings
  import opened Tiers
  import opened Views
  import opened Reads
  import opened Batches
  import opened Contract
  import Stack

  datatype Op =
    | Put(write: Write)
    | Get(key: Key)
    | ReadMany(keys: seq<Key>)
    | Exists(key: Key)
    | Delete(key: Key)
    | RemoveMany(keys: seq<Key>)

  datatype Answer =
    | Evicted(entries: Displaced)
    | Value(value: Option<Tiers.Value>)
    | Values(values: seq<Option<Tiers.Value>>)
    | Present(present: bool)
    | Flags(flags: seq<bool>)
    | Error

  /** One operation on the stack and what the caller sees of it. */
  function Step<S(!new)>(slots: seq<Slot<S>>, op: Op, p: Policy): (r: (seq<Slot<S>>, Answer))
    ensures |r.0| == |slots| && Stack.Roles(r.0) == Stack.Roles(slots)
  {
    match op
    case Put(w) =>
      var u := Stack.Write(slots, w, p);
      (u.slots, if u.outcome.Done? then Evicted(u.outcome.value) else Error)
    case Get(k) =>
      var f := Stack.Get(slots, k, p);
      (f.slots, if f.outcome.Done? then Value(f.outcome.value) else Error)
    case ReadMany(ks) =>
      var f := Stack.ReadMany(slots, ks, p);
      (f.slots, if f.outcome.Done? && f.outcome.value.failures == [] then Values(Stack.Answers(f.outcome.value.statuses)) else Error)
    case Exists(k) =>
      var u := Stack.Exists(slots, k, p);
      (u.slots, if u.outcome.Done? then Present(u.outcome.value) else Error)
    case Delete(k) =>
      var u := Stack.Delete(slots, k);
      (u.slots, if u.outcome.Done? then Present(u.outcome.value) else Error)
    case RemoveMany(ks) =>
      var d := Stack.RemoveMany(slots, ks);
      (d.slots, if d.report.failures == [] then Flags(d.report.removed) else Error)
  }

  /** The same operation on a flat map. */
  function FlatStep(m: map<Key, Tiers.Value>, op: Op): (map<Key, Tiers.Value>, Answer) {
    match op
    case Put(w) => (Apply(m, w.Entries()), Evicted([]))
    case Get(k) => (m, Value(Lookup(m, k)))
    case ReadMany(ks) => (m, Values(seq(|ks|, i requires 0 <= i < |ks| => Lookup(m, ks[i]))))
    case Exists(k) => (m, Present(k in m))
    case Delete(k) => (m - {k}, Present(k in m))
    case RemoveMany(ks) =>
      (m - (set k | k in ks), Flags(seq(|ks|, i requires 0 <= i < |ks| => ks[i] in m && ks[i] !in ks[..i])))
  }

  function Run<S(!new)>(slots: seq<Slot<S>>, ops: seq<Op>, p: Policy): (seq<Slot<S>>, seq<Answer>)
    decreases |ops|
  {
    if ops == [] then (slots, [])
    else
      var (s, a) := Step(slots, ops[0], p);
      var (s', rest) := Run(s, ops[1..], p);
      (s', [a] + rest)
  }

  function FlatRun(m: map<Key, Tiers.Value>, ops: seq<Op>): (map<Key, Tiers.Value>, seq<Answer>)
    decreases |ops|
  {
    if ops == [] then (m, [])
    else
      var (m1, a) := FlatStep(m, ops[0]);
      var (m2, rest) := FlatRun(m1, ops[1..]);
      (m2, [a] + rest)
  }

  /** A stack that can serve as a store of record: every tier is writable and meets
      the contract, and the bottom one never overflows. */
  ghost predicate Holds<S(!new)>(slots: seq<Slot<S>>) {
    Sound(slots) && AllWritable(slots) && RoomyBottom(slots)
  }

  lemma {:induction false} StepKeeps<S(!new)>(slots: seq<Slot<S>>, op: Op, p: Policy)
    requires Sound(slots)
    ensures Sound(Step(slots, op, p).0)
    ensures Errors(Step(slots, op, p).0) >= Errors(slots)
  {
    match op
    case Put(w) => WriteKeeps(slots, w, p);
    case Get(k) => GetKeeps(slots, k, p);
    case ReadMany(ks) => ReadManyKeeps(slots, ks, p);
    case Exists(k) => ProbeHasKeeps(slots, 0, k, p.onReadError, k);
    case Delete(k) => DeleteKeeps(slots, 0, k);
    case RemoveMany(ks) => RemoveKeeps(slots, 0, ks, seq(|ks|, i => false));
  }

  lemma {:induction false} GetKeeps<S(!new)>(slots: seq<Slot<S>>, k: Key, p: Policy)
    requires Sound(slots)
    ensures Sound(Stack.Get(slots, k, p).slots)
    ensures Errors(Stack.Get(slots, k, p).slots) >= Errors(slots)
  {
    var q := Stack.ProbeOne(slots, 0, k, p.onReadError);
    ProbeKeeps(slots, 0, k, p.onReadError);
    if q.hit.Some? {
      FillRangeKeeps(q.slots, 0, Reach(p.promote, q.hit.value.0), Single((k, q.hit.value.1)), p.demote);
    }
  }

  lemma {:induction false} ReadManyKeeps<S(!new)>(slots: seq<Slot<S>>, keys: seq<Key>, p: Policy)
    requires Sound(slots)
    ensures Sound(Stack.ReadMany(slots, keys, p).slots)
    ensures Errors(Stack.ReadMany(slots, keys, p).slots) >= Errors(slots)
  {
    var all, none := seq(|keys|, i => i), seq(|keys|, i => Stack.Miss);
    var q := Stack.ProbeMany(slots, 0, keys, all, none, p.onReadError);
    ProbeManyKeeps(slots, 0, keys, all, none, p.onReadError);
    if !q.aborted {
      PromoteFromKeeps(q.slots, 0, keys, if q.failures == [] then q.statuses else Stack.Blur(q.statuses, q.pending), p);
    }
  }

  /** One operation during which no tier error was counted answers as the flat map
      does and leaves the view the flat map. */
  lemma {:induction false} StepRefines<S(!new)>(slots: seq<Slot<S>>, op: Op, p: Policy)
    requires Holds(slots) && p.demote
    requires Errors(Step(slots, op, p).0) == Errors(slots)
    ensures var (m, a) := FlatStep(View(slots), op);
      Step(slots, op, p).1 == a && View(Step(slots, op, p).0) == m
  {
    match op
    case Put(w) => PutRefines(slots, w, p);
    case Get(k) => GetRefines(slots, k, p);
    case ReadMany(ks) => ReadManyRefines(slots, ks, p);
    case Exists(k) => ExistsRefines(slots, k, p);
    case Delete(k) => DeleteRefines(slots, k);
    case RemoveMany(ks) => RemoveRefines(slots, ks);
  }

  lemma {:induction false} PutRefines<S(!new)>(slots: seq<Slot<S>>, w: Write, p: Policy)
    requires Holds(slots) && p.demote
    requires Errors(Stack.Write(slots, w, p).slots) == Errors(slots)
    ensures var u := Stack.Write(slots, w, p);
      u.outcome == Stack.Done([]) && View(u.slots) == Apply(View(slots), w.Entries())
  {
    NothingLostQuietly(slots, w, p);
    WriteRoomy(slots, w, p);
    var u := Stack.Write(slots, w, p);
    assert map[] + View(u.slots) == View(u.slots);
  }

  /** Two stacks that show the same under nothing spilled have the same view. */
  lemma {:induction false} SameShown<S(!new)>(slots: seq<Slot<S>>, after: seq<Slot<S>>)
    requires forall k :: Over(after, [], k) == Top(slots, k)
    ensures View(after) == View(slots)
  {
    forall k ensures Lookup(View(after), k) == Lookup(View(slots), k) {
      assert Over(after, [], k) == Top(slots, k);
      OverNothing(after, k);
      ViewAt(after, k);
      ViewAt(slots, k);
    }
    SameMap(View(after), View(slots));
  }

  lemma {:induction false} GetRefines<S(!new)>(slots: seq<Slot<S>>, k: Key, p: Policy)
    requires Holds(slots) && p.demote
    requires Errors(Stack.Get(slots, k, p).slots) == Errors(slots)
    ensures var f := Stack.Get(slots, k, p);
      f.outcome == Stack.Done(Lookup(View(slots), k)) && View(f.slots) == View(slots)
  {
    var f := Stack.Get(slots, k, p);
    AllWritableAbove(slots);
    GetRoomy(slots, k, p);
    ViewAt(slots, k);
    GetAt(slots, k, p, k);
    forall x ensures Over(f.slots, [], x) == Top(slots, x) {
      GetAt(slots, k, p, x);
    }
    SameShown(slots, f.slots);
  }

  lemma {:induction false} GetRoomy<S(!new)>(slots: seq<Slot<S>>, k: Key, p: Policy)
    requires Holds(slots) && p.demote
    ensures Stack.Get(slots, k, p).out == []
  {
    var q := Stack.ProbeOne(slots, 0, k, p.onReadError);
    ProbeKeeps(slots, 0, k, p.onReadError);
    SameBottom(slots, q.slots);
    if q.hit.Some? {
      FillRangeRoomy(q.slots, 0, Reach(p.promote, q.hit.value.0), Single((k, q.hit.value.1)));
    }
  }

  lemma {:induction false} ReadManyRoomy<S(!new)>(slots: seq<Slot<S>>, keys: seq<Key>, p: Policy)
    requires Holds(slots) && p.demote
    ensures Stack.ReadMany(slots, keys, p).out == []
  {
    var all, none := seq(|keys|, i => i), seq(|keys|, i => Stack.Miss);
    var q := Stack.ProbeMany(slots, 0, keys, all, none, p.onReadError);
    ProbeManyKeeps(slots, 0, keys, all, none, p.onReadError);
    SameBottom(slots, q.slots);
    if !q.aborted {
      PromoteFromRoomy(q.slots, 0, keys, if q.failures == [] then q.statuses else Stack.Blur(q.statuses, q.pending), p);
    }
  }

  lemma {:induction false} ReadManyRefines<S(!new)>(slots: seq<Slot<S>>, keys: seq<Key>, p: Policy)
    requires Holds(slots) && p.demote
    requires Errors(Stack.ReadMany(slots, keys, p).slots) == Errors(slots)
    ensures var f := Stack.ReadMany(slots, keys, p);
      && f.outcome.Done? && f.outcome.value.failures == []
      && Stack.Answers(f.outcome.value.statuses) == seq(|keys|, i requires 0 <= i < |keys| => Lookup(View(slots), keys[i]))
      && View(f.slots) == View(slots)
  {
    var f := Stack.ReadMany(slots, keys, p);
    AllWritableAbove(slots);
    ReadManyRoomy(slots, keys, p);
    ReadManyClean(slots, keys, p);
    TrueAnswers(slots, keys, p);
    forall i | 0 <= i < |keys| ensures Stack.Answers(f.outcome.value.statuses)[i] == Lookup(View(slots), keys[i]) {
      ViewAt(slots, keys[i]);
    }
    forall x ensures Over(f.slots, [], x) == Top(slots, x) {
      ReadManyAt(slots, keys, p, x);
    }
    SameShown(slots, f.slots);
  }

  lemma {:induction false} ExistsRefines<S(!new)>(slots: seq<Slot<S>>, k: Key, p: Policy)
    requires Sound(slots)
    requires Errors(Stack.Exists(slots, k, p).slots) == Errors(slots)
    ensures var u := Stack.Exists(slots, k, p);
      u.outcome == Stack.Done(k in View(slots)) && View(u.slots) == View(slots)
  {
    var u := Stack.Exists(slots, k, p);
    ViewAt(slots, k);
    ExistsAt(slots, k, p, k);
    forall x ensures Over(u.slots, [], x) == Top(slots, x) {
      ExistsAt(slots, k, p, x);
      OverNothing(u.slots, x);
    }
    SameShown(slots, u.slots);
  }

  lemma {:induction false} DeleteRefines<S(!new)>(slots: seq<Slot<S>>, k: Key)
    requires Sound(slots) && AllWritable(slots)
    requires Errors(Stack.Delete(slots, k).slots) == Errors(slots)
    ensures var u := Stack.Delete(slots, k);
      u.outcome == Stack.Done(k in View(slots)) && View(u.slots) == View(slots) - {k}
  {
    var u := Stack.Delete(slots, k);
    DeleteKeeps(slots, 0, k);
    DeleteAt(slots, 0, k, k);
    ViewAt(slots, k);
    forall x ensures Lookup(View(u.slots), x) == Lookup(View(slots) - {k}, x) {
      DeleteAt(slots, 0, k, x);
      NoOrigin(slots, k);
      ViewAt(slots, x);
      ViewAt(u.slots, x);
    }
    SameMap(View(u.slots), View(slots) - {k});
  }

  lemma {:induction false} RemoveRefines<S(!new)>(slots: seq<Slot<S>>, keys: seq<Key>)
    requires Sound(slots) && AllWritable(slots)
    requires Errors(Stack.RemoveMany(slots, keys).slots) == Errors(slots)
    ensures var d := Stack.RemoveMany(slots, keys);
      && d.report.failures == []
      && d.report.removed == seq(|keys|, i requires 0 <= i < |keys| => keys[i] in View(slots) && keys[i] !in keys[..i])
      && View(d.slots) == View(slots) - (set k | k in keys)
  {
    var d := Stack.RemoveMany(slots, keys);
    var none := seq(|keys|, i => false);
    RemoveKeeps(slots, 0, keys, none);
    forall i | 0 <= i < |keys|
      ensures d.report.removed[i] == (keys[i] in View(slots) && keys[i] !in keys[..i])
    {
      RemoveFlags(slots, 0, keys, none, i);
      ViewAt(slots, keys[i]);
    }
    forall x ensures Lookup(View(d.slots), x) == Lookup(View(slots) - (set k | k in keys), x) {
      RemoveAt(slots, 0, keys, none, x);
      NoOrigin(slots, x);
      ViewAt(slots, x);
      ViewAt(d.slots, x);
    }
    SameMap(View(d.slots), View(slots) - (set k | k in keys));
  }

  lemma {:induction false} RunKeeps<S(!new)>(slots: seq<Slot<S>>, ops: seq<Op>, p: Policy)
    requires Sound(slots)
    ensures Sound(Run(slots, ops, p).0)
    ensures Errors(Run(slots, ops, p).0) >= Errors(slots)
    decreases |ops|
  {
    if ops != [] {
      StepKeeps(slots, ops[0], p);
      RunKeeps(Step(slots, ops[0], p).0, ops[1..], p);
    }
  }

  /** Every run - puts and batched puts, reads with promotion, existence checks and
      deletes in any mix, under every promotion, write and error mode, over a stack
      of any depth whose upper tiers evict as they like - answers exactly as one
      flat map, as long as no tier error was counted during it. */
  lemma {:induction false} FlatMap<S(!new)>(slots: seq<Slot<S>>, ops: seq<Op>, p: Policy)
    requires Holds(slots) && p.demote
    requires Errors(Run(slots, ops, p).0) == Errors(slots)
    ensures var (m, answers) := FlatRun(View(slots), ops);
      Run(slots, ops, p).1 == answers && View(Run(slots, ops, p).0) == m
    decreases |ops|
  {
    if ops != [] {
      var s := Step(slots, ops[0], p).0;
      StepKeeps(slots, ops[0], p);
      RunKeeps(s, ops[1..], p);
      StepRefines(slots, ops[0], p);
      SameRoles(slots, s);
      SameBottom(slots, s);
      FlatMap(s, ops[1..], p);
    }
  }
}
