/** What reads and checks answer, and which tiers they ask, for every fault pattern:
    stated on what the tiers reply to the key, one by one. */
module ReadAnswers {
  import opened Bindings
  import opened Tiers
  import opened Views
  import opened Reads
  import opened Batches
  import opened Blame
  import Contract
  import Stack

  type Reply<+T> = Result<Option<T>>

  ghost function GetReplies<S(!new)>(slots: seq<Slot<S>>, k: Key): (replies: seq<Reply<Value>>)
    ensures |replies| == |slots|
    ensures forall i :: 0 <= i < |slots| ==> replies[i] == slots[i].backend.get(slots[i].tier, k).1
  {
    if slots == [] then [] else [slots[0].backend.get(slots[0].tier, k).1] + GetReplies(slots[1..], k)
  }

  ghost function Presence(r: Result<bool>): Reply<()> {
    if r.Err? then Err else if r.value then Ok(Some(())) else Ok(None)
  }

  ghost function HasReplies<S(!new)>(slots: seq<Slot<S>>, k: Key): (replies: seq<Reply<()>>)
    ensures |replies| == |slots|
    ensures forall i :: 0 <= i < |slots| ==> replies[i] == Presence(slots[i].backend.has(slots[i].tier, k).1)
  {
    if slots == [] then [] else [Presence(slots[0].backend.has(slots[0].tier, k).1)] + HasReplies(slots[1..], k)
  }

  ghost function Errs<T>(replies: seq<Reply<T>>): (bad: seq<bool>)
    ensures |bad| == |replies|
    ensures forall i :: 0 <= i < |bad| ==> bad[i] == replies[i].Err?
  {
    if replies == [] then [] else [replies[0].Err?] + Errs(replies[1..])
  }

  /** The reply ends the search. */
  ghost predicate Settles<T>(r: Reply<T>, e: OnReadError) {
    if r.Err? then e.FailFast? else r.value.Some?
  }

  /** The topmost tier whose reply ends the search, or the number of tiers. */
  ghost function First<T>(replies: seq<Reply<T>>, e: OnReadError): (n: nat)
    ensures n <= |replies|
    ensures forall i :: 0 <= i < n ==> !Settles(replies[i], e)
    ensures n < |replies| ==> Settles(replies[n], e)
  {
    if replies == [] || Settles(replies[0], e) then 0 else 1 + First(replies[1..], e)
  }

  /** What one read leaves of a tier it asked. */
  ghost predicate OwnRead<S(!new), T>(before: Slot<S>, s: S, r: Reply<T>, after: Slot<S>) {
    var c, d := before.counters, after.counters;
    && after.tier == s && after.backend == before.backend && after.writable == before.writable
    && d.puts == c.puts && d.deletes == c.deletes
    && d.errors == c.errors + (if r.Err? then 1 else 0)
    && d.hits == c.hits + (if r.Ok? && r.value.Some? then 1 else 0)
    && d.misses == c.misses + (if r.Ok? && r.value.None? then 1 else 0)
  }

  /** The tiers down to the one that ends the search are asked, those below are not. */
  ghost predicate AskedGet<S(!new)>(before: seq<Slot<S>>, k: Key, e: OnReadError, after: seq<Slot<S>>) {
    |before| == |after| &&
    (before == [] ||
     (var (s, r) := before[0].backend.get(before[0].tier, k);
      OwnRead(before[0], s, r, after[0]) &&
      (if Settles(r, e) then after[1..] == before[1..] else AskedGet(before[1..], k, e, after[1..]))))
  }

  ghost predicate AskedHas<S(!new)>(before: seq<Slot<S>>, k: Key, e: OnReadError, after: seq<Slot<S>>) {
    |before| == |after| &&
    (before == [] ||
     (var (s, r) := before[0].backend.has(before[0].tier, k);
      OwnRead(before[0], s, Presence(r), after[0]) &&
      (if Settles(Presence(r), e) then after[1..] == before[1..] else AskedHas(before[1..], k, e, after[1..]))))
  }

  /** What a run of probes found out, from the replies. */
  ghost predicate Tells<S(!new), T>(p: Stack.Probed<S, T>, base: nat, replies: seq<Reply<T>>, e: OnReadError) {
    var n := First(replies, e);
    if n == |replies| then p.hit.None? && !p.aborted && Names(p.failures, base, Errs(replies))
    else if replies[n].Ok? then p.hit == Some((base + n, replies[n].value.value))
    else p.hit.None? && p.aborted && p.failures == [base + n]
  }

  /** One more tier above, whose reply did not end the search. */
  lemma {:induction false} TellsNext<S(!new), T>(p: Stack.Probed<S, T>, q: Stack.Probed<S, T>, base: nat,
                                                 replies: seq<Reply<T>>, e: OnReadError)
    requires replies != [] && !Settles(replies[0], e)
    requires Tells(q, base + 1, replies[1..], e)
    requires p.hit == q.hit && p.aborted == q.aborted
    requires p.failures == (if replies[0].Err? then [base] else []) + q.failures
    ensures Tells(p, base, replies, e)
  {
    var n := First(replies[1..], e);
    assert First(replies, e) == n + 1;
    if n == |replies[1..]| {
      NamesOne(q.failures, base, Errs(replies));
    } else if replies[n + 1].Err? {
      assert replies[0].Ok? && [] + q.failures == q.failures;
    }
  }

  lemma {:induction false} ProbeOneTells<S(!new)>(slots: seq<Slot<S>>, base: nat, k: Key, e: OnReadError)
    ensures Tells(Stack.ProbeOne(slots, base, k, e), base, GetReplies(slots, k), e)
    decreases |slots|
  {
    if slots != [] {
      var p, r := Stack.ProbeOne(slots, base, k, e), slots[0].Get(k).1;
      if !Settles(r, e) {
        ProbeOneTells(slots[1..], base + 1, k, e);
        TellsNext(p, Stack.ProbeOne(slots[1..], base + 1, k, e), base, GetReplies(slots, k), e);
      }
    }
  }

  lemma {:induction false} ProbeOneAsks<S(!new)>(slots: seq<Slot<S>>, base: nat, k: Key, e: OnReadError)
    ensures AskedGet(slots, k, e, Stack.ProbeOne(slots, base, k, e).slots)
    decreases |slots|
  {
    if slots != [] && !Settles(slots[0].Get(k).1, e) {
      ProbeOneAsks(slots[1..], base + 1, k, e);
      assert Stack.ProbeOne(slots, base, k, e).slots[1..] == Stack.ProbeOne(slots[1..], base + 1, k, e).slots;
    }
  }

  lemma {:induction false} ProbeHasTells<S(!new)>(slots: seq<Slot<S>>, base: nat, k: Key, e: OnReadError)
    ensures Tells(Stack.ProbeHas(slots, base, k, e), base, HasReplies(slots, k), e)
    decreases |slots|
  {
    if slots != [] {
      var p, r := Stack.ProbeHas(slots, base, k, e), Presence(slots[0].Exists(k).1);
      if !Settles(r, e) {
        ProbeHasTells(slots[1..], base + 1, k, e);
        TellsNext(p, Stack.ProbeHas(slots[1..], base + 1, k, e), base, HasReplies(slots, k), e);
      }
    }
  }

  lemma {:induction false} ProbeHasAsks<S(!new)>(slots: seq<Slot<S>>, base: nat, k: Key, e: OnReadError)
    ensures AskedHas(slots, k, e, Stack.ProbeHas(slots, base, k, e).slots)
    decreases |slots|
  {
    if slots != [] && !Settles(Presence(slots[0].Exists(k).1), e) {
      ProbeHasAsks(slots[1..], base + 1, k, e);
      assert Stack.ProbeHas(slots, base, k, e).slots[1..] == Stack.ProbeHas(slots[1..], base + 1, k, e).slots;
    }
  }

  /** The answer a caller gets, from the replies: the topmost reply that ends the search
      decides; without one, absence if every tier replied, otherwise an inconclusive
      error naming exactly the tiers that did not. */
  ghost predicate Decided<T>(o: Stack.Outcome<Option<T>>, replies: seq<Reply<T>>, e: OnReadError) {
    var n := First(replies, e);
    && (n < |replies| && replies[n].Ok? ==> o == Stack.Done(replies[n].value))
    && (n < |replies| && replies[n].Err? ==> o == Stack.Fail(Stack.Tier(n)))
    && (n == |replies| && true !in Errs(replies) ==> o == Stack.Done(None))
    && (n == |replies| && true in Errs(replies) ==>
          o.Fail? && o.error.Inconclusive? && Names(o.error.failures, 0, Errs(replies)))
  }

  lemma {:induction false} ConcludeTells<S(!new), T>(p: Stack.Probed<S, T>, replies: seq<Reply<T>>, e: OnReadError)
    requires Tells(p, 0, replies, e)
    ensures Decided(Stack.Conclude(p), replies, e)
  {
    if First(replies, e) == |replies| {
      NamesNobody(p.failures, 0, Errs(replies));
    }
  }

  /** The answer of `get`, for every fault pattern. Without promotion the tiers asked
      are all it touches. */
  lemma {:induction false} GetAnswers<S(!new)>(slots: seq<Slot<S>>, k: Key, p: Policy)
    ensures Decided(Stack.Get(slots, k, p).outcome, GetReplies(slots, k), p.onReadError)
    ensures p.promote.Never? || Stack.Get(slots, k, p).outcome.Fail? ==>
      AskedGet(slots, k, p.onReadError, Stack.Get(slots, k, p).slots)
  {
    ProbeOneTells(slots, 0, k, p.onReadError);
    ProbeOneAsks(slots, 0, k, p.onReadError);
    ConcludeTells(Stack.ProbeOne(slots, 0, k, p.onReadError), GetReplies(slots, k), p.onReadError);
  }

  /** The answer of `exists` in those terms. */
  ghost predicate Checked(o: Stack.Outcome<bool>, replies: seq<Reply<()>>, e: OnReadError) {
    && (o == Stack.Done(true) ==> Decided(Stack.Done(Some(())), replies, e))
    && (o == Stack.Done(false) ==> Decided(Stack.Done(None), replies, e))
    && (o.Fail? ==> Decided(Stack.Fail(o.error), replies, e))
  }

  lemma {:induction false} ExistsReplies<S(!new)>(slots: seq<Slot<S>>, k: Key, p: Policy)
    ensures var u := Stack.Exists(slots, k, p);
      Checked(u.outcome, HasReplies(slots, k), p.onReadError) && AskedHas(slots, k, p.onReadError, u.slots)
  {
    ProbeHasTells(slots, 0, k, p.onReadError);
    ProbeHasAsks(slots, 0, k, p.onReadError);
    ConcludeTells(Stack.ProbeHas(slots, 0, k, p.onReadError), HasReplies(slots, k), p.onReadError);
  }

  // ------------------------------------------------ in terms of the contents

  /** Tier `i` answers a check of `k` and holds it. */
  ghost predicate AnsweringHolder<S(!new)>(slots: seq<Slot<S>>, k: Key, i: nat) {
    i < |slots| && slots[i].backend.has(slots[i].tier, k).1.Ok? && slots[i].Held(k).Some?
  }

  lemma {:induction false} HonestHas<S(!new)>(slots: seq<Slot<S>>, k: Key, i: nat)
    requires Sound(slots) && i < |slots|
    ensures AnsweringHolder(slots, k, i) <==> HasReplies(slots, k)[i] == Ok(Some(()))
  {
    Contract.SoundAt(slots, i);
    assert slots[i].backend.ExistsOk(slots[i].tier, k);
  }

  /** Under fall-through, for every fault pattern: a check says yes exactly when an
      answering tier holds the key, no exactly when every tier answered and none holds
      it, and is inconclusive otherwise, naming the tiers that did not answer. */
  lemma {:induction false} ExistsAnswers<S(!new)>(slots: seq<Slot<S>>, k: Key, p: Policy)
    requires Sound(slots) && p.onReadError.FallThrough?
    ensures var o, bad := Stack.Exists(slots, k, p).outcome, Errs(HasReplies(slots, k));
      && (o == Stack.Done(true) <==> exists i :: AnsweringHolder(slots, k, i))
      && (o == Stack.Done(false) <==> true !in bad && Top(slots, k).None?)
      && (o.Fail? <==> true in bad && forall i :: !AnsweringHolder(slots, k, i))
      && (o.Fail? ==> o.error.Inconclusive? && Names(o.error.failures, 0, bad))
  {
    ExistsReplies(slots, k, p);
    FirstHolds(slots, k, p.onReadError);
    if true !in Errs(HasReplies(slots, k)) {
      AllAnswered(slots, k);
    }
  }

  lemma {:induction false} FirstHolds<S(!new)>(slots: seq<Slot<S>>, k: Key, e: OnReadError)
    requires Sound(slots) && e.FallThrough?
    ensures var replies := HasReplies(slots, k);
      && (First(replies, e) < |replies| <==> exists i :: AnsweringHolder(slots, k, i))
      && (First(replies, e) < |replies| ==> replies[First(replies, e)] == Ok(Some(())))
  {
    var replies := HasReplies(slots, k);
    var n := First(replies, e);
    if n < |replies| {
      HonestHas(slots, k, n);
    }
    if i: nat :| AnsweringHolder(slots, k, i) {
      HonestHas(slots, k, i);
    }
  }

  /** When every tier answers, an answering holder is just a holder. */
  lemma {:induction false} AllAnswered<S(!new)>(slots: seq<Slot<S>>, k: Key)
    requires true !in Errs(HasReplies(slots, k))
    ensures Top(slots, k).Some? <==> exists i :: AnsweringHolder(slots, k, i)
  {
    if slots != [] {
      var replies := HasReplies(slots, k);
      assert forall i :: 0 <= i < |slots| ==> !Errs(replies)[i];
      forall i | 0 <= i < |slots[1..]|
        ensures !Errs(HasReplies(slots[1..], k))[i]
      {
        assert !Errs(replies)[i + 1];
      }
      AllAnswered(slots[1..], k);
      if i: nat :| AnsweringHolder(slots[1..], k, i) {
        assert AnsweringHolder(slots, k, i + 1);
      }
      if i: nat :| AnsweringHolder(slots, k, i) {
        assert i > 0 ==> AnsweringHolder(slots[1..], k, i - 1);
      }
      assert slots[0].Held(k).Some? ==> AnsweringHolder(slots, k, 0);
    }
  }

  // ------------------------------------------------------------ batched reads

  /** The keys of a request a tier leaves open. */
  ghost function Without(keys: seq<Key>, held: map<Key, Value>): seq<Key> {
    if keys == [] then [] else (if keys[0] in held then [] else [keys[0]]) + Without(keys[1..], held)
  }

  /** Which tiers fail a batched read: each is asked, in one call, for the keys that no
      answering tier above it holds, and not at all once none is left. */
  ghost function BatchErrs<S(!new)>(slots: seq<Slot<S>>, keys: seq<Key>): (bad: seq<bool>)
    ensures |bad| == |slots|
  {
    if slots == [] then []
    else
      var err := keys != [] && slots[0].backend.getMany(slots[0].tier, keys).1.Err?;
      [err] + BatchErrs(slots[1..], if err then keys else Without(keys, slots[0].backend.view(slots[0].tier)))
  }

  lemma {:induction false} MissingKeys(keys: seq<Key>, pending: seq<nat>, found: seq<Option<Value>>, held: map<Key, Value>)
    requires Stack.Within(pending, |keys|) && |found| == |pending|
    requires forall i :: 0 <= i < |found| ==> found[i] == Lookup(held, keys[pending[i]])
    ensures Stack.Pick(keys, Stack.Missing(pending, found)) == Without(Stack.Pick(keys, pending), held)
    decreases |pending|
  {
    var all := Stack.Pick(keys, pending);
    if pending == [] {
      assert all == [];
    } else {
      MissingKeys(keys, pending[1..], found[1..], held);
      assert all[1..] == Stack.Pick(keys, pending[1..]);
      var rest := Stack.Missing(pending[1..], found[1..]);
      var first: seq<nat> := if found[0].Some? then [] else [pending[0]];
      assert Stack.Missing(pending, found) == first + rest;
      assert Stack.Pick(keys, first + rest) == Stack.Pick(keys, first) + Stack.Pick(keys, rest);
      assert Stack.Pick(keys, first) == if keys[pending[0]] in held then [] else [keys[pending[0]]];
    }
  }

  ghost predicate FirstTrue(bad: seq<bool>, i: nat) {
    i < |bad| && bad[i] && forall j :: 0 <= j < i ==> !bad[j]
  }

  /** Fail-fast stops at the first failing tier, fall-through names them all. */
  ghost predicate BatchTells(failures: seq<nat>, aborted: bool, base: nat, bad: seq<bool>, e: OnReadError) {
    if e.FailFast? && true in bad then
      aborted && |failures| == 1 && base <= failures[0] && FirstTrue(bad, failures[0] - base)
    else !aborted && Names(failures, base, bad)
  }

  lemma {:induction false} BatchNext(failures: seq<nat>, aborted: bool, base: nat, bad: seq<bool>, e: OnReadError)
    requires bad != [] && (bad[0] ==> e.FallThrough?)
    requires BatchTells(failures, aborted, base + 1, bad[1..], e)
    ensures BatchTells((if bad[0] then [base] else []) + failures, aborted, base, bad, e)
  {
    assert bad == [bad[0]] + bad[1..];
    if aborted {
      var i := failures[0] - (base + 1);
      assert bad[i + 1];
      assert [] + failures == failures;
      assert forall j :: 0 < j < i + 1 ==> bad[j] == bad[1..][j - 1];
    } else {
      NamesOne(failures, base, bad);
    }
  }

  lemma {:induction false} ProbeManyTells<S(!new)>(slots: seq<Slot<S>>, base: nat, keys: seq<Key>, pending: seq<nat>,
                                                   statuses: seq<Stack.KeyStatus>, e: OnReadError)
    requires Sound(slots) && |statuses| == |keys| && Stack.Within(pending, |keys|)
    ensures var q := Stack.ProbeMany(slots, base, keys, pending, statuses, e);
      BatchTells(q.failures, q.aborted, base, BatchErrs(slots, Stack.Pick(keys, pending)), e)
    decreases |slots|
  {
    var ks := Stack.Pick(keys, pending);
    if slots == [] || pending == [] {
      NoKeysNoErrs(slots, base);
      assert slots != [] ==> ks == [];
    } else {
      var bad := BatchErrs(slots, ks);
      var r := slots[0].GetMany(ks).1;
      GetManyHeld(slots[0], keys, pending);
      if r.Ok? {
        var marked, missing := Stack.Mark(statuses, pending, r.value, base), Stack.Missing(pending, r.value);
        MissingKeys(keys, pending, r.value, slots[0].backend.view(slots[0].tier));
        ProbeManyTells(slots[1..], base + 1, keys, missing, marked, e);
        var q := Stack.ProbeMany(slots[1..], base + 1, keys, missing, marked, e);
        BatchNext(q.failures, q.aborted, base, bad, e);
        assert [] + q.failures == q.failures;
      } else if e.FallThrough? {
        ProbeManyTells(slots[1..], base + 1, keys, pending, statuses, e);
        var q := Stack.ProbeMany(slots[1..], base + 1, keys, pending, statuses, e);
        BatchNext(q.failures, q.aborted, base, bad, e);
      } else {
        assert FirstTrue(bad, 0);
      }
    }
  }

  lemma {:induction false} NoKeysNoErrs<S(!new)>(slots: seq<Slot<S>>, base: nat)
    ensures true !in BatchErrs(slots, [])
    ensures Names([], base, BatchErrs(slots, []))
  {
    if slots != [] {
      NoKeysNoErrs(slots[1..], base + 1);
    }
  }

  /** What one batched read leaves of a tier it asked, its counters included: a hit for
      every key held, a miss for every other, or one error. */
  ghost predicate OwnBatch<S(!new)>(before: Slot<S>, keys: seq<Key>, after: Slot<S>) {
    var (s, r) := before.backend.getMany(before.tier, keys);
    var c, d := before.counters, after.counters;
    var open := |Without(keys, before.backend.view(before.tier))|;
    && after.tier == s && after.backend == before.backend && after.writable == before.writable
    && d.puts == c.puts && d.deletes == c.deletes
    && d.errors == c.errors + (if r.Err? then 1 else 0)
    && d.hits == c.hits + (if r.Ok? then |keys| - open else 0)
    && d.misses == c.misses + (if r.Ok? then open else 0)
  }

  /** The tiers a batched read asks, and for what: down to the first where no key is left
      or, under fail-fast, the first that fails. */
  ghost predicate AskedMany<S(!new)>(before: seq<Slot<S>>, keys: seq<Key>, e: OnReadError, after: seq<Slot<S>>) {
    if before == [] || keys == [] then after == before
    else
      var r := before[0].backend.getMany(before[0].tier, keys).1;
      && |after| == |before| && OwnBatch(before[0], keys, after[0])
      && (if r.Err? && e.FailFast? then after[1..] == before[1..]
          else AskedMany(before[1..], if r.Err? then keys else Without(keys, before[0].backend.view(before[0].tier)), e, after[1..]))
  }

  lemma {:induction false} FoundCounts(keys: seq<Key>, found: seq<Option<Value>>, held: map<Key, Value>)
    requires |found| == |keys| && forall i :: 0 <= i < |keys| ==> found[i] == Lookup(held, keys[i])
    ensures Tiers.Found(found) == |keys| - |Without(keys, held)|
  {
    if keys != [] {
      FoundCounts(keys[1..], found[1..], held);
    }
  }

  lemma {:induction false} GetManyIsOwn<S(!new)>(slot: Slot<S>, keys: seq<Key>)
    requires slot.Sound()
    ensures OwnBatch(slot, keys, slot.GetMany(keys).0)
    ensures slot.GetMany(keys).1 == slot.backend.getMany(slot.tier, keys).1
  {
    assert slot.backend.GetManyOk(slot.tier, keys);
    var r := slot.backend.getMany(slot.tier, keys).1;
    if r.Ok? {
      FoundCounts(keys, r.value, slot.backend.view(slot.tier));
    }
  }

  lemma {:induction false} ProbeManyAsks<S(!new)>(slots: seq<Slot<S>>, base: nat, keys: seq<Key>, pending: seq<nat>,
                                                  statuses: seq<Stack.KeyStatus>, e: OnReadError)
    requires Sound(slots) && |statuses| == |keys| && Stack.Within(pending, |keys|)
    ensures AskedMany(slots, Stack.Pick(keys, pending), e, Stack.ProbeMany(slots, base, keys, pending, statuses, e).slots)
    decreases |slots|
  {
    var ks := Stack.Pick(keys, pending);
    if slots != [] && pending != [] {
      var r := slots[0].GetMany(ks).1;
      GetManyIsOwn(slots[0], ks);
      GetManyHeld(slots[0], keys, pending);
      var q := Stack.ProbeMany(slots, base, keys, pending, statuses, e).slots;
      if r.Ok? {
        var marked, missing := Stack.Mark(statuses, pending, r.value, base), Stack.Missing(pending, r.value);
        MissingKeys(keys, pending, r.value, slots[0].backend.view(slots[0].tier));
        ProbeManyAsks(slots[1..], base + 1, keys, missing, marked, e);
        assert q[1..] == Stack.ProbeMany(slots[1..], base + 1, keys, missing, marked, e).slots;
      } else if e.FallThrough? {
        ProbeManyAsks(slots[1..], base + 1, keys, pending, statuses, e);
        assert q[1..] == Stack.ProbeMany(slots[1..], base + 1, keys, pending, statuses, e).slots;
      }
    }
  }

  /** The first tier named is the first that failed. */
  lemma {:induction false} FirstNamed(failures: seq<nat>, bad: seq<bool>, i: nat)
    requires Names(failures, 0, bad) && FirstTrue(bad, i)
    ensures failures != [] && failures[0] == i
  {
    assert i in failures;
    assert bad[failures[0]] by {
      assert failures[0] in failures;
    }
  }

  /** A key no answering tier serves although some tier failed. */
  ghost predicate Undecided<S(!new)>(slots: seq<Slot<S>>, failures: seq<nat>, keys: seq<Key>) {
    failures != [] && exists j :: 0 <= j < |keys| && Served(slots, 0, failures, keys[j]).None?
  }

  /** The copies the answering tiers serve. */
  ghost predicate AllServed<S(!new)>(slots: seq<Slot<S>>, failures: seq<nat>, keys: seq<Key>, values: seq<Option<Value>>) {
    |values| == |keys| &&
    forall j :: 0 <= j < |keys| ==>
      var h := Served(slots, 0, failures, keys[j]);
      values[j] == if h.Some? then Some(h.value.1) else None
  }

  /** The report of a batched read, for every fault pattern: it is given unless
      fail-fast meets a failing tier, which it then names; and it lists exactly the
      tiers whose call failed. */
  lemma {:induction false} ReadManyAnswers<S(!new)>(slots: seq<Slot<S>>, keys: seq<Key>, p: Policy)
    requires Sound(slots)
    ensures var o, bad := Stack.ReadMany(slots, keys, p).outcome, BatchErrs(slots, keys);
      if p.onReadError.FailFast? && true in bad then o.Fail? && o.error.Tier? && FirstTrue(bad, o.error.tier)
      else o.Done? && Names(o.value.failures, 0, bad)
    ensures p.promote.Never? ==> AskedMany(slots, keys, p.onReadError, Stack.ReadMany(slots, keys, p).slots)
  {
    var all, none := seq(|keys|, i => i), seq(|keys|, i => Stack.Miss);
    ProbeManyAsks(slots, 0, keys, all, none, p.onReadError);
    if p.promote.Never? {
      var q := Stack.ProbeMany(slots, 0, keys, all, none, p.onReadError);
      Stack.PromoteNever(q.slots, 0, keys, if q.failures == [] then q.statuses else Stack.Blur(q.statuses, q.pending), p);
    }
    ProbeManyTells(slots, 0, keys, all, none, p.onReadError);
    assert Stack.Pick(keys, all) == keys;
  }

  /** The answer of `get_many`, for every fault pattern: the first failing tier under
      fail-fast; otherwise an inconclusive error naming the failing tiers exactly when
      some key is left undecided; otherwise each key's serving copy. */
  lemma {:induction false} GetManyAnswers<S(!new)>(slots: seq<Slot<S>>, keys: seq<Key>, p: Policy, failures: seq<nat>)
    requires Sound(slots) && Names(failures, 0, BatchErrs(slots, keys))
    ensures var o := Stack.GetMany(slots, keys, p).outcome;
      if p.onReadError.FailFast? && failures != [] then o == Stack.Fail(Stack.Tier(failures[0]))
      else if Undecided(slots, failures, keys) then o == Stack.Fail(Stack.Inconclusive(failures))
      else o.Done? && AllServed(slots, failures, keys, o.value)
  {
    var f, bad := Stack.ReadMany(slots, keys, p).outcome, BatchErrs(slots, keys);
    ReadManyAnswers(slots, keys, p);
    HonestStatuses(slots, keys, p);
    NamesNobody(failures, 0, bad);
    if f.Fail? {
      FirstNamed(failures, bad, f.error.tier);
    } else {
      NamesUnique(failures, f.value.failures, 0, bad);
      UnknownTells(slots, keys, f.value.statuses, failures);
    }
  }

  /** A status is unknown exactly where a key is undecided. */
  lemma {:induction false} UnknownTells<S(!new)>(slots: seq<Slot<S>>, keys: seq<Key>, statuses: seq<Stack.KeyStatus>, failures: seq<nat>)
    requires |statuses| == |keys|
    requires forall j :: 0 <= j < |keys| ==> statuses[j] == Status(slots, failures, keys[j])
    ensures Stack.Unknown in statuses <==> Undecided(slots, failures, keys)
    ensures AllServed(slots, failures, keys, Stack.Answers(statuses))
  {
    if failures != [] {
      if j :| 0 <= j < |keys| && Served(slots, 0, failures, keys[j]).None? {
        assert statuses[j] == Stack.Unknown;
      }
    }
  }
}
