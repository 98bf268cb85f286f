/** Tiers that make nothing up: single calls that only pass bindings on make batched
    calls that do, whatever is evicted or fails on the way. */
module Provenance {
  import opened Bindings
  import opened Tiers
  import opened Defaults
  import opened Faults

  /** The single calls make nothing up. */
  ghost predicate SinglesGenuine<S(!new)>(c: Core<S>) {
    && (forall s, k, v :: c.inv(s) ==> PutGenuine(c, s, k, v))
    && (forall s, k :: c.inv(s) ==> DeleteGenuine(c.Tier(), s, k))
  }

  ghost predicate PutGenuine<S(!new)>(c: Core<S>, s: S, k: Key, v: Value) {
    WriteGenuine(c.Tier(), s, Single((k, v)))
  }

  /** What a put leaves, accepted or refused, was held before or just given. */
  lemma {:induction false} PutGrown<S(!new)>(c: Core<S>, s: S, k: Key, v: Value)
    requires c.Honest() && SinglesGenuine(c) && c.inv(s)
    ensures var s' := c.put(s, k, v).0; c.inv(s') && Grown(c.view(s), [(k, v)], c.view(s'))
  {
    var (s', r) := c.put(s, k, v);
    assert PutGenuine(c, s, k, v) && c.Tier().WriteOk(s, Single((k, v)));
    if r.Ok? {
      forall x | x in c.view(s')
        ensures Lookup(c.view(s), x) == Some(c.view(s')[x]) || (x, c.view(s')[x]) in [(k, v)]
      {
        AcceptedAt(c.view(s), [(k, v)], c.view(s'), r.value, x);
        BindMember([(k, v)], x);
      }
    }
  }

  lemma {:induction false} GrownChain(a: map<Key, Value>, first: seq<Entry>, b: map<Key, Value>, second: seq<Entry>, c: map<Key, Value>)
    requires Grown(a, first, b) && Grown(b, second, c)
    ensures Grown(a, first + second, c)
  {
    forall k | k in c
      ensures Lookup(a, k) == Some(c[k]) || (k, c[k]) in first + second
    {
      if (k, c[k]) !in second {
        assert Lookup(b, k) == Some(c[k]);
      }
    }
  }

  /** The default batched put makes nothing up. */
  lemma {:induction false} BatchGenuine<S(!new)>(c: Core<S>, s: S, es: seq<Entry>)
    requires c.Honest() && SinglesGenuine(c) && c.inv(s)
    ensures
      var (s', r) := c.PutMany(s, es);
      if r.Ok? then AllSourced(c.view(s), Batch(es), r.value) else Grown(c.view(s), es, c.view(s'))
    decreases |es|
  {
    if es != [] {
      var (k, v) := es[0];
      var (s1, r) := c.put(s, k, v);
      PutGrown(c, s, k, v);
      assert es == [(k, v)] + es[1..];
      if r.Err? {
        GrownMore(c.view(s), [(k, v)], es[1..], c.view(s1));
      } else {
        BatchGenuine(c, s1, es[1..]);
        var (s2, rest) := c.PutMany(s1, es[1..]);
        if rest.Err? {
          GrownChain(c.view(s), [(k, v)], c.view(s1), es[1..], c.view(s2));
        } else {
          assert PutGenuine(c, s, k, v);
          RestSourced(c.view(s), es, c.view(s1), r.value, rest.value);
        }
      }
    }
  }

  lemma {:induction false} GrownMore(a: map<Key, Value>, first: seq<Entry>, more: seq<Entry>, b: map<Key, Value>)
    requires Grown(a, first, b)
    ensures Grown(a, first + more, b)
  {
  }

  /** What the first put hands back, and what the rest of the batch does, come from
      what was held before the batch and from the batch. */
  lemma {:induction false} RestSourced(a: map<Key, Value>, es: seq<Entry>, b: map<Key, Value>, first: Displaced, rest: Displaced)
    requires es != [] && Grown(a, [es[0]], b)
    requires AllSourced(a, Single(es[0]), first) && AllSourced(b, Batch(es[1..]), rest)
    ensures AllSourced(a, Batch(es), first + rest)
  {
    assert es == [es[0]] + es[1..];
    forall i | 0 <= i < |first + rest|
      ensures Sourced(a, Batch(es), (first + rest)[i])
    {
      if i < |first| {
        assert Sourced(a, Single(es[0]), first[i]);
      } else {
        var e := rest[i - |first|];
        assert Sourced(b, Batch(es[1..]), e);
        assert e !in es[1..] ==> Lookup(b, e.0) == Some(e.1) && (e.0, b[e.0]) == e;
      }
    }
  }

  lemma {:induction false} DeletesGenuine<S(!new)>(c: Core<S>, s: S, ks: seq<Key>)
    requires c.Honest() && SinglesGenuine(c) && c.inv(s)
    ensures Part(c.view(c.DeleteMany(s, ks).0), c.view(s))
    decreases |ks|
  {
    if ks != [] {
      var (s1, r) := c.delete(s, ks[0]);
      assert DeleteGenuine(c.Tier(), s, ks[0]) && c.Tier().DeleteOk(s, ks[0]);
      if r.Ok? {
        DeletesGenuine(c, s1, ks[1..]);
      }
    }
  }

  /** A tier whose single calls make nothing up makes nothing up, batched calls included. */
  lemma {:induction false} CoreIsGenuine<S(!new)>(c: Core<S>)
    requires c.Honest() && SinglesGenuine(c)
    ensures Genuine(c.Tier())
  {
    var b := c.Tier();
    forall s, w | b.inv(s)
      ensures WriteGenuine(b, s, w)
    {
      if w.Batch? {
        BatchGenuine(c, s, w.entries);
      } else {
        assert PutGenuine(c, s, w.entry.0, w.entry.1);
        assert (w.entry.0, w.entry.1) == w.entry;
      }
    }
    forall s, k | b.inv(s)
      ensures DeleteGenuine(b, s, k)
    {
    }
    forall s, ks | b.inv(s)
      ensures DeleteManyGenuine(b, s, ks)
    {
      DeletesGenuine(c, s, ks);
    }
  }
}
