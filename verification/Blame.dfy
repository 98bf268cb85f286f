/** Which tiers an answer blames. */
module Blame {

  /** `tiers` are, in rising order, exactly the tiers flagged in `bad`; the first flag
      is about tier `base`. */
  ghost predicate Names(tiers: seq<nat>, base: nat, bad: seq<bool>) {
    && (forall i, j :: 0 <= i < j < |tiers| ==> tiers[i] < tiers[j])
    && (forall t: nat :: t in tiers <==> base <= t < base + |bad| && bad[t - base])
  }

  lemma {:induction false} NamesOne(tiers: seq<nat>, base: nat, bad: seq<bool>)
    requires bad != [] && Names(tiers, base + 1, bad[1..])
    ensures Names((if bad[0] then [base] else []) + tiers, base, bad)
  {
    var all := (if bad[0] then [base] else []) + tiers;
    forall t: nat
      ensures t in all <==> base <= t < base + |bad| && bad[t - base]
    {
      assert t in all <==> (bad[0] && t == base) || t in tiers;
      assert t > base && t - base < |bad| ==> bad[t - base] == bad[1..][t - (base + 1)];
    }
    assert forall j :: 0 <= j < |tiers| ==> tiers[j] in tiers;
  }

  /** Nobody is blamed exactly when no flag is set. */
  lemma {:induction false} NamesNobody(tiers: seq<nat>, base: nat, bad: seq<bool>)
    requires Names(tiers, base, bad)
    ensures tiers == [] <==> true !in bad
  {
    if i :| 0 <= i < |bad| && bad[i] {
      assert base + i in tiers;
    }
    assert tiers != [] ==> tiers[0] in tiers;
  }

  lemma {:induction false} NamesSkip(tiers: seq<nat>, base: nat, bad: seq<bool>)
    requires bad != [] && !bad[0] && Names(tiers, base, bad)
    ensures Names(tiers, base + 1, bad[1..])
  {
    forall t: nat
      ensures t in tiers <==> base + 1 <= t < base + |bad| && bad[1..][t - (base + 1)]
    {
    }
  }

  lemma {:induction false} NamesFirst(tiers: seq<nat>, base: nat, bad: seq<bool>)
    requires bad != [] && bad[0] && Names(tiers, base, bad)
    ensures tiers != [] && tiers[0] == base && Names(tiers[1..], base + 1, bad[1..])
  {
    assert base in tiers;
    assert tiers[0] in tiers;
    var rest := tiers[1..];
    assert tiers == [tiers[0]] + rest;
    forall t: nat
      ensures t in rest <==> base + 1 <= t < base + |bad| && bad[1..][t - (base + 1)]
    {
      assert t in rest <==> t in tiers && t != base by {
        if i :| 0 <= i < |rest| && rest[i] == t {
          assert tiers[i + 1] == t && tiers[0] < tiers[i + 1];
        }
      }
    }
  }

  /** The flags determine the list. */
  lemma {:induction false} NamesUnique(a: seq<nat>, b: seq<nat>, base: nat, bad: seq<bool>)
    requires Names(a, base, bad) && Names(b, base, bad)
    ensures a == b
    decreases |bad|
  {
    if bad == [] {
      NamesNobody(a, base, bad);
      NamesNobody(b, base, bad);
    } else if bad[0] {
      NamesFirst(a, base, bad);
      NamesFirst(b, base, bad);
      NamesUnique(a[1..], b[1..], base + 1, bad[1..]);
      assert a == [a[0]] + a[1..] && b == [b[0]] + b[1..];
    } else {
      NamesSkip(a, base, bad);
      NamesSkip(b, base, bad);
      NamesUnique(a, b, base + 1, bad[1..]);
    }
  }
}
