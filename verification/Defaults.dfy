/** The batch calls every tier gets for free: loops over the single calls that stop
    at the first error. They meet the batch contract whenever the single calls
    meet theirs. */
module Defaults {
  import opened Bindings
  import opened Tiers

  /** The single calls of a tier. */
  datatype Core<!S(!new)> = Core(
    inv: S -> bool,
    view: S -> map<Key, Value>,
    get: (S, Key) -> (S, Result<Option<Value>>),
    has: (S, Key) -> (S, Result<bool>),
    put: (S, Key, Value) -> (S, Result<Displaced>),
    delete: (S, Key) -> (S, Result<bool>))
  {
    function GetMany(s: S, ks: seq<Key>): (S, Result<seq<Option<Value>>>)
      decreases |ks|
    {
      if ks == [] then (s, Ok([]))
      else
        var (s1, r) := get(s, ks[0]);
        if r.Err? then (s1, Err)
        else
          var (s2, rest) := GetMany(s1, ks[1..]);
          (s2, if rest.Err? then Err else Ok([r.value] + rest.value))
    }

    function PutMany(s: S, es: seq<Entry>): (S, Result<Displaced>)
      decreases |es|
    {
      if es == [] then (s, Ok([]))
      else
        var (s1, r) := put(s, es[0].0, es[0].1);
        if r.Err? then (s1, Err)
        else
          var (s2, rest) := PutMany(s1, es[1..]);
          (s2, if rest.Err? then Err else Ok(r.value + rest.value))
    }

    function DeleteMany(s: S, ks: seq<Key>): (S, Result<seq<bool>>)
      decreases |ks|
    {
      if ks == [] then (s, Ok([]))
      else
        var (s1, r) := delete(s, ks[0]);
        if r.Err? then (s1, Err)
        else
          var (s2, rest) := DeleteMany(s1, ks[1..]);
          (s2, if rest.Err? then Err else Ok([r.value] + rest.value))
    }

    function Tier(): Backend<S> {
      Backend(inv, view, get, has, put, delete,
              (s: S, ks: seq<Key>) => GetMany(s, ks),
              (s: S, es: seq<Entry>) => PutMany(s, es),
              (s: S, ks: seq<Key>) => DeleteMany(s, ks))
    }

    /** The single calls keep the contract. */
    ghost predicate Honest() {
      && (forall s, k :: inv(s) ==> Tier().GetOk(s, k))
      && (forall s, k :: inv(s) ==> Tier().ExistsOk(s, k))
      && (forall s, e :: inv(s) ==> Tier().WriteOk(s, Single(e)))
      && (forall s, k :: inv(s) ==> Tier().DeleteOk(s, k))
    }

    ghost predicate Reliable() {
      && (forall s, k :: inv(s) ==> get(s, k).1.Ok?)
      && (forall s, k :: inv(s) ==> has(s, k).1.Ok?)
      && (forall s, k, v :: inv(s) ==> put(s, k, v).1.Ok?)
      && (forall s, k :: inv(s) ==> delete(s, k).1.Ok?)
    }

    ghost predicate Roomy() {
      forall s, k, v :: inv(s) && put(s, k, v).1.Ok? ==> put(s, k, v).1.value == []
    }

    lemma {:induction false} GetsMany(s: S, ks: seq<Key>)
      requires Honest() && inv(s)
      ensures Tier().GetManyOk(s, ks)
      ensures Reliable() ==> GetMany(s, ks).1.Ok?
      decreases |ks|
    {
      if ks != [] {
        assert Tier().GetOk(s, ks[0]);
        GetsMany(get(s, ks[0]).0, ks[1..]);
      }
    }

    lemma {:induction false} PutsMany(s: S, es: seq<Entry>)
      requires Honest() && inv(s)
      ensures Tier().WriteOk(s, Batch(es))
      ensures Reliable() ==> PutMany(s, es).1.Ok?
      ensures Roomy() && PutMany(s, es).1.Ok? ==> PutMany(s, es).1.value == []
      decreases |es|
    {
      if es != [] {
        assert Tier().WriteOk(s, Single(es[0]));
        var (s1, r) := put(s, es[0].0, es[0].1);
        PutsMany(s1, es[1..]);
        var (s2, rest) := PutMany(s1, es[1..]);
        if r.Ok? && rest.Ok? {
          AcceptedChain(view(s), [es[0]], view(s1), r.value, es[1..], view(s2), rest.value);
          assert [es[0]] + es[1..] == es;
        }
      } else {
        assert map[] + view(s) == view(s);
      }
    }

    /** A batch in two parts is its first part and then, unless that failed, its second:
        with `BatchesOfOne` this says that the loops make the single calls in order, join
        their answers, and stop where the first one fails. */
    lemma {:induction false} BatchesInTurn(s: S, es: seq<Entry>, fs: seq<Entry>)
      ensures var (s1, r) := PutMany(s, es);
        var (s2, q) := PutMany(s1, fs);
        PutMany(s, es + fs) == if r.Err? then (s1, Err) else (s2, if q.Err? then Err else Ok(r.value + q.value))
      decreases |es|
    {
      if es == [] {
        assert es + fs == fs;
        var none: Displaced := [];
        assert forall q: Result<Displaced> :: q.Ok? ==> none + q.value == q.value;
      } else {
        var (s1, r) := put(s, es[0].0, es[0].1);
        assert (es + fs)[1..] == es[1..] + fs;
        BatchesInTurn(s1, es[1..], fs);
        var (s2, rest) := PutMany(s1, es[1..]);
        var q := PutMany(s2, fs).1;
        if r.Ok? && rest.Ok? && q.Ok? {
          assert r.value + (rest.value + q.value) == (r.value + rest.value) + q.value;
        }
      }
    }

    lemma {:induction false} ReadsInTurn(s: S, ks: seq<Key>, ls: seq<Key>)
      ensures var (s1, r) := GetMany(s, ks);
        var (s2, q) := GetMany(s1, ls);
        GetMany(s, ks + ls) == if r.Err? then (s1, Err) else (s2, if q.Err? then Err else Ok(r.value + q.value))
      decreases |ks|
    {
      if ks == [] {
        assert ks + ls == ls;
        var none: seq<Option<Value>> := [];
        assert forall q: Result<seq<Option<Value>>> :: q.Ok? ==> none + q.value == q.value;
      } else {
        var (s1, r) := get(s, ks[0]);
        assert (ks + ls)[1..] == ks[1..] + ls;
        ReadsInTurn(s1, ks[1..], ls);
        var (s2, rest) := GetMany(s1, ks[1..]);
        var q := GetMany(s2, ls).1;
        if r.Ok? && rest.Ok? && q.Ok? {
          assert [r.value] + (rest.value + q.value) == ([r.value] + rest.value) + q.value;
        }
      }
    }

    lemma {:induction false} DeletesInTurn(s: S, ks: seq<Key>, ls: seq<Key>)
      ensures var (s1, r) := DeleteMany(s, ks);
        var (s2, q) := DeleteMany(s1, ls);
        DeleteMany(s, ks + ls) == if r.Err? then (s1, Err) else (s2, if q.Err? then Err else Ok(r.value + q.value))
      decreases |ks|
    {
      if ks == [] {
        assert ks + ls == ls;
        var none: seq<bool> := [];
        assert forall q: Result<seq<bool>> :: q.Ok? ==> none + q.value == q.value;
      } else {
        var (s1, r) := delete(s, ks[0]);
        assert (ks + ls)[1..] == ks[1..] + ls;
        DeletesInTurn(s1, ks[1..], ls);
        var (s2, rest) := DeleteMany(s1, ks[1..]);
        var q := DeleteMany(s2, ls).1;
        if r.Ok? && rest.Ok? && q.Ok? {
          assert [r.value] + (rest.value + q.value) == ([r.value] + rest.value) + q.value;
        }
      }
    }

    lemma {:induction false} DeleteOfOne(s: S, k: Key)
      ensures var (s1, r) := delete(s, k);
        DeleteMany(s, [k]) == (s1, if r.Ok? then Ok([r.value]) else Err)
    {
      var ks := [k];
      var (s1, r) := delete(s, k);
      var rest := DeleteMany(s1, ks[1..]);
      assert ks[1..] == [] && rest.0 == s1 && rest.1.Ok? && rest.1.value == [];
      if r.Ok? {
        assert [r.value] + rest.1.value == [r.value];
      }
      assert DeleteMany(s, ks) == (s1, if r.Ok? then Ok([r.value]) else Err);
    }

    /** A key occurs before position `i` when it is the first or occurs among the rest before. */
    lemma {:induction false} FirstOnce(ks: seq<Key>, i: nat)
      requires 0 < i < |ks|
      ensures ks[i] in ks[..i] <==> ks[i] == ks[0] || ks[i] in ks[1..][..i - 1]
    {
      assert ks[..i] == [ks[0]] + ks[1..][..i - 1];
    }

    lemma {:induction false} DeletesMany(s: S, ks: seq<Key>)
      requires Honest() && inv(s)
      ensures Tier().DeleteManyOk(s, ks)
      ensures Reliable() ==> DeleteMany(s, ks).1.Ok?
      decreases |ks|
    {
      if ks == [] {
        assert view(s) - (set k | k in ks) == view(s);
      } else {
        assert Tier().DeleteOk(s, ks[0]);
        var (s1, r) := delete(s, ks[0]);
        DeletesMany(s1, ks[1..]);
        var (s2, rest) := DeleteMany(s1, ks[1..]);
        if r.Ok? && rest.Ok? {
          assert ks == [ks[0]] + ks[1..];
          assert (set k | k in ks) == {ks[0]} + (set k | k in ks[1..]);
          forall i | 0 < i < |ks|
            ensures rest.value[i - 1] == (ks[i] in view(s) && ks[i] !in ks[..i])
          {
            FirstOnce(ks, i);
            assert rest.value[i - 1] == (ks[1..][i - 1] in view(s1) && ks[1..][i - 1] !in ks[1..][..i - 1]);
          }
        }
      }
    }

    /** The default batch calls meet the whole tier contract, fail only where a
        single call fails, and are the single call on a batch of one. */
    lemma {:induction false} TierHonest()
      requires Honest()
      ensures Tier().Honest() && Tier().Coherent()
      ensures Reliable() ==> Tier().Reliable()
      ensures Roomy() ==> Tier().Roomy()
    {
      var b := Tier();
      forall s, ks | inv(s) ensures b.GetManyOk(s, ks) && (Reliable() ==> b.getMany(s, ks).1.Ok?) {
        GetsMany(s, ks);
      }
      forall s, ks | inv(s) ensures b.DeleteManyOk(s, ks) && (Reliable() ==> b.deleteMany(s, ks).1.Ok?) {
        DeletesMany(s, ks);
      }
      forall s, w | inv(s)
        ensures b.WriteOk(s, w) && (Reliable() ==> b.Accept(s, w).1.Ok?)
        ensures Roomy() && b.Accept(s, w).1.Ok? ==> b.Accept(s, w).1.value == []
      {
        if w.Batch? {
          PutsMany(s, w.entries);
        } else {
          assert Single(w.entry) == w;
        }
      }
      BatchesOfOne();
    }

    lemma {:induction false} BatchesOfOne()
      ensures Tier().Coherent()
    {
      var b := Tier();
      forall s, k ensures b.GetOfOne(s, k) {
        var ks := [k];
        var (s1, r) := get(s, k);
        var rest := GetMany(s1, ks[1..]);
        assert ks[1..] == [] && rest.0 == s1 && rest.1.Ok? && rest.1.value == [];
        if r.Ok? {
          assert [r.value] + rest.1.value == [r.value];
        }
        assert GetMany(s, ks) == (s1, if r.Ok? then Ok([r.value]) else Err);
      }
      forall s, e ensures b.PutOfOne(s, e) {
        var es := [e];
        var (s1, r) := put(s, e.0, e.1);
        assert es[1..] == [] && PutMany(s1, es[1..]).0 == s1;
        if r.Ok? {
          assert r.value + [] == r.value;
        }
        assert PutMany(s, es) == (s1, r);
      }
    }
  }
}
