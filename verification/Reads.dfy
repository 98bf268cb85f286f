/** What reads answer, and that reading - promotion and demotion included - does
    not change what there is to read. */
module Reads {
  import opened Bindings
  import opened Tiers
  import opened Views
  import Stack

  /** The topmost tier that answered (is not among `failures`) and holds `k`. */
  ghost function Served<S(!new)>(slots: seq<Slot<S>>, base: nat, failures: seq<nat>, k: Key): Option<(nat, Value)>
    decreases |slots|
  {
    if slots == [] then None
    else if base !in failures && slots[0].Held(k).Some? then Some((base, slots[0].Held(k).value))
    else Served(slots[1..], base + 1, failures, k)
  }

  lemma {:induction false} ServedIgnores<S(!new)>(slots: seq<Slot<S>>, base: nat, above: nat, failures: seq<nat>, k: Key)
    requires above < base
    ensures Served(slots, base, [above] + failures, k) == Served(slots, base, failures, k)
    decreases |slots|
  {
    if slots != [] {
      ServedIgnores(slots[1..], base + 1, above, failures, k);
    }
  }

  /** When every tier answered, the serving tier's value is the first-match view. */
  lemma {:induction false} ServedTop<S(!new)>(slots: seq<Slot<S>>, base: nat, k: Key)
    ensures var h := Served(slots, base, [], k);
      (if h.Some? then Some(h.value.1) else None) == Top(slots, k)
    decreases |slots|
  {
    if slots != [] {
      ServedTop(slots[1..], base + 1, k);
    }
  }

  /** Tier indices in a range. */
  ghost predicate Between(tiers: seq<nat>, from: nat, to: nat) {
    forall i :: 0 <= i < |tiers| ==> from <= tiers[i] < to
  }

  // -------------------------------------------------------------- single read

  lemma {:induction false} ProbeKeeps<S(!new)>(slots: seq<Slot<S>>, base: nat, k: Key, e: OnReadError)
    requires Sound(slots)
    ensures var q := Stack.ProbeOne(slots, base, k, e);
      Sound(q.slots) && Errors(q.slots) == Errors(slots) + |q.failures|
    decreases |slots|
  {
    if slots != [] {
      assert slots[0].backend.GetOk(slots[0].tier, k);
      ProbeKeeps(slots[1..], base + 1, k, e);
    }
  }

  lemma {:induction false} ProbeView<S(!new)>(slots: seq<Slot<S>>, base: nat, k: Key, e: OnReadError, spilled: Displaced, x: Key)
    requires Sound(slots)
    ensures var q := Stack.ProbeOne(slots, base, k, e);
      && Top(q.slots, x) == Top(slots, x)
      && Over(q.slots, spilled, x) == Over(slots, spilled, x)
    decreases |slots|
  {
    if slots != [] {
      assert slots[0].backend.GetOk(slots[0].tier, k);
      ProbeView(slots[1..], base + 1, k, e, spilled, x);
    }
  }

  /** A probe run finds the topmost answering tier that holds the key - or aborted. */
  lemma {:induction false} ProbeFinds<S(!new)>(slots: seq<Slot<S>>, base: nat, k: Key, e: OnReadError)
    requires Sound(slots)
    ensures var q := Stack.ProbeOne(slots, base, k, e);
      && (!q.aborted ==> q.hit == Served(slots, base, q.failures, k))
      && (q.aborted <==> e.FailFast? && q.failures != [])
    decreases |slots|
  {
    if slots != [] {
      assert slots[0].backend.GetOk(slots[0].tier, k);
      var r := slots[0].Get(k).1;
      if r.Err? && e.FailFast? {
      } else if r.Ok? && r.value.Some? {
      } else {
        ProbeFinds(slots[1..], base + 1, k, e);
        var p := Stack.ProbeOne(slots[1..], base + 1, k, e);
        ServedIgnores(slots[1..], base + 1, base, p.failures, k);
        assert ([base] + p.failures)[0] == base && [] + p.failures == p.failures;
      }
    }
  }

  lemma {:induction false} ProbeHasKeeps<S(!new)>(slots: seq<Slot<S>>, base: nat, k: Key, e: OnReadError, x: Key)
    requires Sound(slots)
    ensures var q := Stack.ProbeHas(slots, base, k, e);
      && Sound(q.slots)
      && Errors(q.slots) == Errors(slots) + |q.failures|
      && Top(q.slots, x) == Top(slots, x)
    decreases |slots|
  {
    if slots != [] {
      assert slots[0].backend.ExistsOk(slots[0].tier, k);
      ProbeHasKeeps(slots[1..], base + 1, k, e, x);
    }
  }

  lemma {:induction false} ProbeHasFinds<S(!new)>(slots: seq<Slot<S>>, base: nat, k: Key, e: OnReadError)
    requires Sound(slots)
    ensures var q := Stack.ProbeHas(slots, base, k, e);
      && (!q.aborted ==> q.hit.Some? == Served(slots, base, q.failures, k).Some?)
      && (q.aborted <==> e.FailFast? && q.failures != [])
    decreases |slots|
  {
    if slots != [] {
      assert slots[0].backend.ExistsOk(slots[0].tier, k);
      var r := slots[0].Exists(k).1;
      if r.Err? && e.FailFast? {
      } else if r.Ok? && r.value {
      } else {
        ProbeHasFinds(slots[1..], base + 1, k, e);
        var p := Stack.ProbeHas(slots[1..], base + 1, k, e);
        ServedIgnores(slots[1..], base + 1, base, p.failures, k);
        assert ([base] + p.failures)[0] == base && [] + p.failures == p.failures;
      }
    }
  }

  // --------------------------------------------------------------- promotion

  /** The write only repeats what the stack already shows for the keys it covers. */
  ghost predicate Repeats<S(!new)>(slots: seq<Slot<S>>, spilled: Displaced, w: Write, k: Key) {
    Bind(w.Entries(), k).Some? ==> Over(slots, spilled, k) == Bind(w.Entries(), k)
  }

  lemma {:induction false} FillKeeps<S(!new)>(slots: seq<Slot<S>>, target: nat, w: Write, demote: bool)
    requires Sound(slots) && target < |slots|
    ensures var f := Stack.Fill(slots, target, w, demote);
      Sound(f.slots) && Errors(f.slots) >= Errors(slots) + |f.dropped|
  {
    var above, x, below := slots[..target], slots[target], slots[target + 1..];
    Stack.Around(slots, target);
    ErrorsAround(above, x, below);
    if x.writable {
      var (s, r) := x.Accept(w);
      assert x.backend.WriteOk(x.tier, w);
      ErrorsAround(above, s, below);
      if r.Ok? && demote {
        CascadeKeeps(below, r.value);
        CascadeErrors(below, r.value);
        ErrorsAround(above, s, Stack.Cascade(below, r.value).slots);
      }
    }
  }

  /** Copying a hit into a tier and demoting what it displaces leaves the view as it
      was, up to what fell off the bottom. */
  lemma {:induction false} FillAt<S(!new)>(slots: seq<Slot<S>>, target: nat, w: Write, spilled: Displaced, k: Key)
    requires Sound(slots) && WritableAbove(slots) && target < |slots|
    requires Errors(Stack.Fill(slots, target, w, true).slots) == Errors(slots)
    requires Repeats(slots, spilled, w, k)
    ensures var f := Stack.Fill(slots, target, w, true);
      Over(f.slots, spilled + f.out, k) == Over(slots, spilled, k)
  {
    var above, x, below := slots[..target], slots[target], slots[target + 1..];
    Stack.Around(slots, target);
    ErrorsAround(above, x, below);
    if !x.writable {
      assert spilled + [] == spilled;
    } else {
      var (s, r) := x.Accept(w);
      ErrorsAround(above, s, below);
      if r.Ok? {
        FillKeeps(slots, target, w, true);
        FillView(above, x, below, w, spilled, k);
      }
    }
  }

  lemma {:induction false} FillView<S(!new)>(above: seq<Slot<S>>, x: Slot<S>, below: seq<Slot<S>>, w: Write, spilled: Displaced, k: Key)
    requires Sound(above + ([x] + below)) && WritableAbove(above + ([x] + below)) && x.writable
    requires x.Accept(w).1.Ok? && Stack.Cascade(below, x.Accept(w).1.value).dropped == []
    requires Repeats(above + ([x] + below), spilled, w, k)
    ensures var (s, r) := x.Accept(w);
      var c := Stack.Cascade(below, r.value);
      Over(above + ([s] + c.slots), spilled + c.out, k) == Over(above + ([x] + below), spilled, k)
  {
    var (s, r) := x.Accept(w);
    var c := Stack.Cascade(below, r.value);
    WritableConcat(above, x, below);
    ErrorsAround(above, x, below);
    AcceptAt(x, w, k);
    CascadeAt(below, r.value, spilled, k);
    OverSplit(above, [x] + below, spilled, k);
    OverSplit(above, [s] + c.slots, spilled + c.out, k);
    assert ([x] + below)[1..] == below && ([s] + c.slots)[1..] == c.slots;
  }

  lemma {:induction false} FillRangeKeeps<S(!new)>(slots: seq<Slot<S>>, from: nat, to: nat, w: Write, demote: bool)
    requires Sound(slots) && to <= |slots|
    ensures var f := Stack.FillRange(slots, from, to, w, demote);
      Sound(f.slots) && Errors(f.slots) >= Errors(slots) + |f.dropped|
    decreases if from < to then to - from else 0
  {
    if from < to {
      FillKeeps(slots, from, w, demote);
      FillRangeKeeps(Stack.Fill(slots, from, w, demote).slots, from + 1, to, w, demote);
    }
  }

  lemma {:induction false} FillRangeAt<S(!new)>(slots: seq<Slot<S>>, from: nat, to: nat, w: Write, spilled: Displaced, k: Key)
    requires Sound(slots) && WritableAbove(slots) && to <= |slots|
    requires Errors(Stack.FillRange(slots, from, to, w, true).slots) == Errors(slots)
    requires Repeats(slots, spilled, w, k)
    ensures var f := Stack.FillRange(slots, from, to, w, true);
      Over(f.slots, spilled + f.out, k) == Over(slots, spilled, k)
    decreases if from < to then to - from else 0
  {
    if from >= to {
      assert spilled + [] == spilled;
    } else {
      var f := Stack.Fill(slots, from, w, true);
      var g := Stack.FillRange(f.slots, from + 1, to, w, true);
      assert spilled + (f.out + g.out) == (spilled + f.out) + g.out;
      FirstFillKeeps(slots, from, to, w);
      FillAt(slots, from, w, spilled, k);
      FillRangeAt(f.slots, from + 1, to, w, spilled + f.out, k);
    }
  }

  lemma {:induction false} FirstFillKeeps<S(!new)>(slots: seq<Slot<S>>, from: nat, to: nat, w: Write)
    requires Sound(slots) && WritableAbove(slots) && from < to <= |slots|
    requires Errors(Stack.FillRange(slots, from, to, w, true).slots) == Errors(slots)
    ensures var f := Stack.Fill(slots, from, w, true);
      && Sound(f.slots) && WritableAbove(f.slots)
      && Errors(f.slots) == Errors(slots)
      && Errors(Stack.FillRange(f.slots, from + 1, to, w, true).slots) == Errors(f.slots)
  {
    var f := Stack.Fill(slots, from, w, true);
    FillKeeps(slots, from, w, true);
    FillRangeKeeps(f.slots, from + 1, to, w, true);
    SameRoles(slots, f.slots);
  }

  /** `get` answers from the topmost answering tier, and with demotion on and no
      tier error its promotions leave the view alone, up to what fell off the
      bottom. */
  lemma {:induction false} GetAt<S(!new)>(slots: seq<Slot<S>>, k: Key, p: Policy, x: Key)
    requires Sound(slots) && WritableAbove(slots) && (p.demote || p.promote.Never?)
    requires Errors(Stack.Get(slots, k, p).slots) == Errors(slots)
    ensures var f := Stack.Get(slots, k, p);
      && Sound(f.slots)
      && f.outcome == Stack.Done(Top(slots, k))
      && Over(f.slots, f.out, x) == Top(slots, x)
  {
    var q := Stack.ProbeOne(slots, 0, k, p.onReadError);
    ProbeAnswer(slots, k, p.onReadError, x);
    if q.hit.Some? {
      var w := Single((k, q.hit.value.1));
      var to := Reach(p.promote, q.hit.value.0);
      FillRangeKeeps(q.slots, 0, to, w, p.demote);
      BindOne((k, q.hit.value.1), x);
      SameRoles(slots, q.slots);
      PromoteAt(q.slots, to, w, p.demote, x);
    } else {
      ProbeFinds(slots, 0, k, p.onReadError);
    }
  }

  lemma {:induction false} ProbeAnswer<S(!new)>(slots: seq<Slot<S>>, k: Key, e: OnReadError, x: Key)
    requires Sound(slots)
    ensures var q := Stack.ProbeOne(slots, 0, k, e);
      && Sound(q.slots) && Errors(q.slots) == Errors(slots) + |q.failures|
      && (q.failures == [] ==> Top(slots, k) == if q.hit.Some? then Some(q.hit.value.1) else None)
      && Over(q.slots, [], x) == Top(slots, x) && Over(q.slots, [], k) == Top(slots, k)
  {
    ProbeKeeps(slots, 0, k, e);
    ProbeView(slots, 0, k, e, [], x);
    ProbeView(slots, 0, k, e, [], k);
    ProbeFinds(slots, 0, k, e);
    OverNothing(slots, x);
    OverNothing(slots, k);
    ServedTop(slots, 0, k);
  }

  lemma {:induction false} PromoteAt<S(!new)>(slots: seq<Slot<S>>, to: nat, w: Write, demote: bool, x: Key)
    requires Sound(slots) && WritableAbove(slots) && to <= |slots| && (demote || to == 0)
    requires Errors(Stack.FillRange(slots, 0, to, w, demote).slots) == Errors(slots)
    requires Repeats(slots, [], w, x)
    ensures var f := Stack.FillRange(slots, 0, to, w, demote);
      Over(f.slots, f.out, x) == Over(slots, [], x)
  {
    if to > 0 {
      FillRangeAt(slots, 0, to, w, [], x);
      var f := Stack.FillRange(slots, 0, to, w, true);
      assert [] + f.out == f.out;
    }
  }

  lemma {:induction false} ExistsAt<S(!new)>(slots: seq<Slot<S>>, k: Key, p: Policy, x: Key)
    requires Sound(slots)
    requires Errors(Stack.Exists(slots, k, p).slots) == Errors(slots)
    ensures var u := Stack.Exists(slots, k, p);
      && Sound(u.slots)
      && u.outcome == Stack.Done(Top(slots, k).Some?)
      && Top(u.slots, x) == Top(slots, x)
  {
    ProbeHasKeeps(slots, 0, k, p.onReadError, x);
    ProbeHasFinds(slots, 0, k, p.onReadError);
    ServedTop(slots, 0, k);
  }
}
