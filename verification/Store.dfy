/** The authoritative store over the router: a write that shrinks the store is an
    error that carries what was lost. */
module Store {
  import opened Bindings
  import opened Tiers
  import opened Views
  import opened Reads
  import opened Contract
  import Faults
  import WriteAnswers
  import Stack

  /** Fail-fast reads, no promotion, write-through, demotion. */
  const STORE_POLICY := Policy(Never, FailFast, Through, Abort, true)

  datatype StoreError = Router(error: Stack.RouterError) | Evicted(entries: Displaced)

  datatype Stored = Kept | Refused(error: StoreError)

  /** `put` and `put_many` of the store. */
  function Put<S(!new)>(slots: seq<Slot<S>>, w: Write, p: Policy): (seq<Slot<S>>, Stored) {
    var u := Stack.Write(slots, w, p);
    (u.slots,
     if u.outcome.Fail? then Refused(Router(u.outcome.error))
     else if u.outcome.value == [] then Kept
     else Refused(Evicted(u.outcome.value)))
  }

  /** When a store put fails for a tier's sake, for every fault pattern: when the lowest
      writable tier that refuses is `i`, with that tier's error, and nowhere else; when no
      tier is writable, as read-only. Otherwise it is kept or says what was evicted. */
  lemma {:induction false} PutAnswers<S(!new)>(slots: seq<Slot<S>>, w: Write)
    ensures var r := Put(slots, w, STORE_POLICY).1;
      && (r == Refused(Router(Stack.ReadOnly)) <==> !WriteAnswers.SomeWritable(slots))
      && (forall i: nat :: r == Refused(Router(Stack.Tier(i))) <==> WriteAnswers.LowestRefusing(slots, w, i))
      && (WriteAnswers.SomeWritable(slots) && !WriteAnswers.AnyRefuses(slots, w) ==> r.Kept? || (r.error.Evicted? && r.error.entries != []))
  {
    WriteAnswers.ThroughAnswers(slots, w, STORE_POLICY);
  }

  /** Loss is loud as long as no tier error was counted: `Kept` means the store now
      shows exactly the old contents with the write applied, and otherwise `Evicted`
      carries every binding the store no longer shows. */
  lemma {:induction false} LossIsLoud<S(!new)>(slots: seq<Slot<S>>, w: Write)
    requires Sound(slots) && AllWritable(slots) && slots != []
    requires Errors(Put(slots, w, STORE_POLICY).0) == Errors(slots)
    ensures var (after, r) := Put(slots, w, STORE_POLICY);
      match r
      case Kept => View(after) == Apply(View(slots), w.Entries())
      case Refused(Evicted(lost)) => lost != [] && Apply(map[], lost) + View(after) == Apply(View(slots), w.Entries())
      case Refused(Router(_)) => false
  {
    NothingLostQuietly(slots, w, STORE_POLICY);
    var (after, r) := Put(slots, w, STORE_POLICY);
    if r.Kept? {
      assert map[] + View(after) == View(after);
    }
  }

  /** With tier errors the store's promise has one hole: entries a demotion could not
      place. Every other key is as promised when the put reports success. */
  lemma {:induction false} KeptButDropped<S(!new)>(slots: seq<Slot<S>>, w: Write, k: Key)
    requires Sound(slots) && AllWritable(slots) && ErrorsConfined(slots) && slots != []
    requires Put(slots, w, STORE_POLICY).1.Kept?
    requires k !in Keys(Stack.WriteThrough(slots, w, STORE_POLICY).dropped)
    ensures Top(Put(slots, w, STORE_POLICY).0, k) == Or(Bind(w.Entries(), k), Top(slots, k))
  {
    var r := Stack.WriteThrough(slots, w, STORE_POLICY);
    AllWritableAbove(slots);
    BottomWritable(slots);
    Faults.NotRejected(slots, w, STORE_POLICY);
    WriteThroughAt(slots, w, STORE_POLICY, k);
    SameRoles(slots, r.slots);
    OverAllWritable(r.slots, [], k);
    OverNothing(r.slots, k);
  }

  /** Exactly when a put that reports success kept everything, on a stack whose copies
      agree: when every key a refused demotion carried still has a copy somewhere. */
  lemma {:induction false} KeptExactly<S(!new)>(slots: seq<Slot<S>>, w: Write)
    requires Sound(slots) && AllWritable(slots) && ErrorsConfined(slots) && slots != []
    requires Faults.AllGenuine(slots) && Faults.Copies(slots, View(slots))
    requires w.Single? || Faults.NoneSuperseded(slots, w)
    requires Put(slots, w, STORE_POLICY).1.Kept?
    ensures
      var after := Put(slots, w, STORE_POLICY).0;
      View(after) == Apply(View(slots), w.Entries()) <==>
        forall k :: k in Keys(Stack.WriteThrough(slots, w, STORE_POLICY).dropped) ==> Top(after, k).Some?
  {
    var r, after := Stack.WriteThrough(slots, w, STORE_POLICY), Put(slots, w, STORE_POLICY).0;
    var whole := Apply(View(slots), w.Entries());
    KeptCopies(slots, w);
    assert after == r.slots;
    if View(after) == whole {
      forall k | k in Keys(r.dropped)
        ensures Top(after, k).Some?
      {
        var i :| 0 <= i < |r.dropped| && Keys(r.dropped)[i] == k;
        assert Lookup(whole, r.dropped[i].0) == Some(r.dropped[i].1);
        ViewAt(after, k);
      }
    }
    if forall k :: k in Keys(r.dropped) ==> Top(after, k).Some? {
      forall k
        ensures Lookup(View(after), k) == Lookup(whole, k)
      {
        ShowsWhole(slots, w, k);
      }
      SameMap(View(after), whole);
    }
  }

  lemma {:induction false} KeptCopies<S(!new)>(slots: seq<Slot<S>>, w: Write)
    requires Sound(slots) && AllWritable(slots) && slots != []
    requires Faults.AllGenuine(slots) && Faults.Copies(slots, View(slots))
    requires w.Single? || Faults.NoneSuperseded(slots, w)
    requires Put(slots, w, STORE_POLICY).1.Kept?
    ensures
      var r := Stack.WriteThrough(slots, w, STORE_POLICY);
      && Put(slots, w, STORE_POLICY).0 == r.slots
      && Faults.Copies(r.slots, Apply(View(slots), w.Entries())) && Faults.Listed(r.dropped, Apply(View(slots), w.Entries()))
  {
    AllWritableAbove(slots);
    BottomWritable(slots);
    Faults.NotRejected(slots, w, STORE_POLICY);
    if w.Single? {
      Faults.SinglesSupersedeNone(slots, w.entry);
    }
    Faults.WriteThroughCopies(slots, w, STORE_POLICY, View(slots));
  }

  /** A key with a copy, or that no refused demotion carried, shows as promised. */
  lemma {:induction false} ShowsWhole<S(!new)>(slots: seq<Slot<S>>, w: Write, k: Key)
    requires Sound(slots) && AllWritable(slots) && ErrorsConfined(slots) && slots != []
    requires Faults.AllGenuine(slots) && Faults.Copies(slots, View(slots))
    requires w.Single? || Faults.NoneSuperseded(slots, w)
    requires Put(slots, w, STORE_POLICY).1.Kept?
    requires k in Keys(Stack.WriteThrough(slots, w, STORE_POLICY).dropped) ==> Top(Put(slots, w, STORE_POLICY).0, k).Some?
    ensures Lookup(View(Put(slots, w, STORE_POLICY).0), k) == Lookup(Apply(View(slots), w.Entries()), k)
  {
    var r := Stack.WriteThrough(slots, w, STORE_POLICY);
    KeptCopies(slots, w);
    ViewAt(r.slots, k);
    ViewAt(slots, k);
    ApplyAt(View(slots), w.Entries(), k);
    if k in Keys(r.dropped) {
      Faults.TopCopies(r.slots, k, Apply(View(slots), w.Entries()));
    } else {
      KeptButDropped(slots, w, k);
    }
  }

  /** A store read never serves around a broken tier: whatever fails, an answer it
      does give - value or absence - is the view's, and the contents stay put. */
  lemma {:induction false} ReadsAreAuthoritative<S(!new)>(slots: seq<Slot<S>>, k: Key, x: Key)
    requires Sound(slots)
    ensures var f := Stack.Get(slots, k, STORE_POLICY);
      && (f.outcome.Done? ==> f.outcome.value == Top(slots, k))
      && Top(f.slots, x) == Top(slots, x)
  {
    var q := Stack.ProbeOne(slots, 0, k, FailFast);
    ProbeFinds(slots, 0, k, FailFast);
    ProbeKeeps(slots, 0, k, FailFast);
    ProbeView(slots, 0, k, FailFast, [], x);
    ServedTop(slots, 0, k);
  }
}
