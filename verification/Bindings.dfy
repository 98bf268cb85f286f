/** Lists of key-value bindings and how they lie over a map: the vocabulary in
    which every tier says what an insert did. */
module Bindings {

  datatype Option<+T> = None | Some(value: T)

  datatype Result<+T> = Ok(value: T) | Err

  /** The first answer if there is one, otherwise the second. */
  function Or<T>(first: Option<T>, second: Option<T>): Option<T> {
    if first.Some? then first else second
  }

  function Lookup<K, V>(m: map<K, V>, key: K): Option<V> {
    if key in m then Some(m[key]) else None
  }

  /** The binding a list gives `key`: list order is time order, so the last one counts. */
  function Bind<K(==), V>(entries: seq<(K, V)>, key: K): Option<V> {
    if entries == [] then None
    else Or(Bind(entries[1..], key), if entries[0].0 == key then Some(entries[0].1) else None)
  }

  /** Inserting a list of bindings one after another. */
  function Apply<K, V>(m: map<K, V>, entries: seq<(K, V)>): map<K, V>
    decreases |entries|
  {
    if entries == [] then m else Apply(m[entries[0].0 := entries[0].1], entries[1..])
  }

  function Keys<K, V>(entries: seq<(K, V)>): (keys: seq<K>)
    ensures |keys| == |entries|
    ensures forall i :: 0 <= i < |keys| ==> keys[i] == entries[i].0
  {
    seq(|entries|, i requires 0 <= i < |entries| => entries[i].0)
  }

  lemma {:induction false} ApplyAt<K, V>(m: map<K, V>, entries: seq<(K, V)>, key: K)
    ensures Lookup(Apply(m, entries), key) == Or(Bind(entries, key), Lookup(m, key))
    decreases |entries|
  {
    if entries != [] {
      ApplyAt(m[entries[0].0 := entries[0].1], entries[1..], key);
    }
  }

  lemma {:induction false} BindConcat<K, V>(a: seq<(K, V)>, b: seq<(K, V)>, key: K)
    ensures Bind(a + b, key) == Or(Bind(b, key), Bind(a, key))
  {
    if a == [] {
      assert a + b == b;
    } else {
      assert (a + b)[1..] == a[1..] + b;
      BindConcat(a[1..], b, key);
    }
  }

  /** A list binds exactly the keys that occur in it. */
  lemma {:induction false} BindMember<K, V>(entries: seq<(K, V)>, key: K)
    ensures Bind(entries, key).Some? <==> key in Keys(entries)
    ensures Bind(entries, key).Some? ==> (key, Bind(entries, key).value) in entries
  {
    if entries != [] {
      BindMember(entries[1..], key);
      assert Keys(entries) == [entries[0].0] + Keys(entries[1..]);
      assert entries == [entries[0]] + entries[1..];
    }
  }

  lemma {:induction false} SameMap<K(!new), V>(a: map<K, V>, b: map<K, V>)
    requires forall key :: Lookup(a, key) == Lookup(b, key)
    ensures a == b
  {
    forall key
      ensures key in a <==> key in b
      ensures key in a ==> a[key] == b[key]
    {
      assert Lookup(a, key) == Lookup(b, key);
    }
  }

  /** The insert contract: laying what is left over what was displaced (latest
      displaced binding on top) gives the old contents with `entries` written in
      order. An insert that meets it has lost nothing. */
  ghost predicate Accepted<K, V>(before: map<K, V>, entries: seq<(K, V)>, after: map<K, V>, displaced: seq<(K, V)>) {
    Apply(map[], displaced) + after == Apply(before, entries)
  }

  /** The insert contract read one key at a time. */
  lemma {:induction false} AcceptedAt<K, V>(before: map<K, V>, entries: seq<(K, V)>, after: map<K, V>, displaced: seq<(K, V)>, key: K)
    requires Accepted(before, entries, after, displaced)
    ensures Or(Lookup(after, key), Bind(displaced, key)) == Or(Bind(entries, key), Lookup(before, key))
  {
    ApplyAt(map[], displaced, key);
    ApplyAt(before, entries, key);
    assert Lookup(Apply(map[], displaced) + after, key) == Or(Lookup(after, key), Bind(displaced, key));
  }

  lemma {:induction false} AcceptedFrom<K(!new), V>(before: map<K, V>, entries: seq<(K, V)>, after: map<K, V>, displaced: seq<(K, V)>)
    requires forall key :: Or(Lookup(after, key), Bind(displaced, key)) == Or(Bind(entries, key), Lookup(before, key))
    ensures Accepted(before, entries, after, displaced)
  {
    forall key
      ensures Lookup(Apply(map[], displaced) + after, key) == Lookup(Apply(before, entries), key)
    {
      ApplyAt(map[], displaced, key);
      ApplyAt(before, entries, key);
      assert Or(Lookup(after, key), Bind(displaced, key)) == Or(Bind(entries, key), Lookup(before, key));
    }
    SameMap(Apply(map[], displaced) + after, Apply(before, entries));
  }

  /** Two inserts in a row meet the contract of the joined list. */
  lemma {:induction false} AcceptedChain<K(!new), V>(a: map<K, V>, first: seq<(K, V)>, b: map<K, V>, out1: seq<(K, V)>,
                                  second: seq<(K, V)>, c: map<K, V>, out2: seq<(K, V)>)
    requires Accepted(a, first, b, out1) && Accepted(b, second, c, out2)
    ensures Accepted(a, first + second, c, out1 + out2)
  {
    forall key
      ensures Or(Lookup(c, key), Bind(out1 + out2, key)) == Or(Bind(first + second, key), Lookup(a, key))
    {
      AcceptedAt(a, first, b, out1, key);
      AcceptedAt(b, second, c, out2, key);
      BindConcat(out1, out2, key);
      BindConcat(first, second, key);
    }
    AcceptedFrom(a, first + second, c, out1 + out2);
  }
}
