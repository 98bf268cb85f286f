/** The capability contract of a storage tier, and one routed tier with its counters. */
module Tiers {
  import opened Bindings

  type Key(==,!new)
  type Value(!new)
  type Entry = (Key, Value)
  type Displaced = seq<Entry>

  datatype Promote = Never | TopOnly | AllAbove
  datatype OnReadError = FallThrough | FailFast
  datatype OnWriteError = Abort | BestEffort
  datatype WriteMode = Through | Around
  datatype Policy = Policy(promote: Promote, onReadError: OnReadError,
                           write: WriteMode, onWriteError: OnWriteError, demote: bool)

  /** One past the last tier a hit at `tier` is promoted into. */
  function Reach(promote: Promote, tier: nat): (to: nat)
    ensures to <= tier
  {
    if promote.Never? || tier == 0 then 0 else if promote.TopOnly? then 1 else tier
  }

  /** A write reaches a tier either as `put` or as `put_many`. */
  datatype Write = Single(entry: Entry) | Batch(entries: seq<Entry>) {
    function Entries(): seq<Entry> {
      if Single? then [entry] else entries
    }
  }

  /** A tier implementation: what each call does to the tier's state, and what it
      answers. `view` reads the contents out of a state, `inv` says which states
      can occur. Every call may fail; the state after a failed call is whatever
      the implementation says. */
  datatype Backend<!S(!new)> = Backend(
    inv: S -> bool,
    view: S -> map<Key, Value>,
    get: (S, Key) -> (S, Result<Option<Value>>),
    has: (S, Key) -> (S, Result<bool>),
    put: (S, Key, Value) -> (S, Result<Displaced>),
    delete: (S, Key) -> (S, Result<bool>),
    getMany: (S, seq<Key>) -> (S, Result<seq<Option<Value>>>),
    putMany: (S, seq<Entry>) -> (S, Result<Displaced>),
    deleteMany: (S, seq<Key>) -> (S, Result<seq<bool>>))
  {
    function Accept(s: S, w: Write): (S, Result<Displaced>) {
      if w.Single? then put(s, w.entry.0, w.entry.1) else putMany(s, w.entries)
    }

    ghost predicate GetOk(s: S, k: Key) {
      var (s', r) := get(s, k);
      inv(s') && view(s') == view(s) && (r.Ok? ==> r.value == Lookup(view(s), k))
    }

    ghost predicate ExistsOk(s: S, k: Key) {
      var (s', r) := has(s, k);
      inv(s') && view(s') == view(s) && (r.Ok? ==> r.value == (k in view(s)))
    }

    ghost predicate GetManyOk(s: S, ks: seq<Key>) {
      var (s', r) := getMany(s, ks);
      inv(s') && view(s') == view(s) &&
      (r.Ok? ==> |r.value| == |ks| && forall i :: 0 <= i < |ks| ==> r.value[i] == Lookup(view(s), ks[i]))
    }

    ghost predicate WriteOk(s: S, w: Write) {
      var (s', r) := Accept(s, w);
      inv(s') && (r.Ok? ==> Accepted(view(s), w.Entries(), view(s'), r.value))
    }

    ghost predicate DeleteOk(s: S, k: Key) {
      var (s', r) := delete(s, k);
      inv(s') && (r.Ok? ==> view(s') == view(s) - {k} && r.value == (k in view(s)))
    }

    ghost predicate DeleteManyOk(s: S, ks: seq<Key>) {
      var (s', r) := deleteMany(s, ks);
      inv(s') &&
      (r.Ok? ==>
         && view(s') == view(s) - (set k | k in ks)
         && |r.value| == |ks|
         && forall i :: 0 <= i < |ks| ==> r.value[i] == (ks[i] in view(s) && ks[i] !in ks[..i]))
    }

    /** The tier contract: answers are true of the contents, reads (answered or
        failed) leave the contents alone, and an accepted write loses nothing it
        does not report as displaced. */
    ghost predicate Honest() {
      && (forall s, k :: inv(s) ==> GetOk(s, k))
      && (forall s, k :: inv(s) ==> ExistsOk(s, k))
      && (forall s, ks :: inv(s) ==> GetManyOk(s, ks))
      && (forall s, w :: inv(s) ==> WriteOk(s, w))
      && (forall s, k :: inv(s) ==> DeleteOk(s, k))
      && (forall s, ks :: inv(s) ==> DeleteManyOk(s, ks))
    }

    /** No call fails. */
    ghost predicate Reliable() {
      && (forall s, k :: inv(s) ==> get(s, k).1.Ok?)
      && (forall s, k :: inv(s) ==> has(s, k).1.Ok?)
      && (forall s, ks :: inv(s) ==> getMany(s, ks).1.Ok?)
      && (forall s, w :: inv(s) ==> Accept(s, w).1.Ok?)
      && (forall s, k :: inv(s) ==> delete(s, k).1.Ok?)
      && (forall s, ks :: inv(s) ==> deleteMany(s, ks).1.Ok?)
    }

    /** No accepted write displaces anything: an unbounded tier. */
    ghost predicate Roomy() {
      forall s, w :: inv(s) && Accept(s, w).1.Ok? ==> Accept(s, w).1.value == []
    }

    ghost predicate GetOfOne(s: S, k: Key) {
      getMany(s, [k]) == (var (s', r) := get(s, k); (s', if r.Ok? then Ok([r.value]) else Err))
    }

    ghost predicate PutOfOne(s: S, e: Entry) {
      putMany(s, [e]) == put(s, e.0, e.1)
    }

    /** A batch of one is the single call. */
    ghost predicate Coherent() {
      (forall s, k :: GetOfOne(s, k)) && (forall s, e :: PutOfOne(s, e))
    }

    /** A failed write of one key is confined to that key: what the write contract
        calls unspecified after an error is that key's binding only. */
    ghost predicate ErrorsConfined() {
      forall s, k, v, x :: inv(s) && put(s, k, v).1.Err? && x != k ==>
        Lookup(view(put(s, k, v).0), x) == Lookup(view(s), x)
    }
  }

  datatype Counters = Counters(hits: nat, misses: nat, errors: nat, puts: nat, deletes: nat)

  /** Number of answers in `found` that are present. */
  function Found(found: seq<Option<Value>>): (n: nat)
    ensures n <= |found|
  {
    if found == [] then 0 else (if found[0].Some? then 1 else 0) + Found(found[1..])
  }

  /** One routed tier: its state, its implementation, whether the router may write
      it, and the counters the router keeps about it. */
  datatype Slot<!S(!new)> = Slot(tier: S, backend: Backend<S>, writable: bool, counters: Counters) {

    function Failed(s: S): Slot<S> {
      this.(tier := s, counters := counters.(errors := counters.errors + 1))
    }

    function Get(k: Key): (Slot<S>, Result<Option<Value>>) {
      var (s, r) := backend.get(tier, k);
      (if r.Err? then Failed(s)
       else if r.value.Some? then this.(tier := s, counters := counters.(hits := counters.hits + 1))
       else this.(tier := s, counters := counters.(misses := counters.misses + 1)), r)
    }

    function Exists(k: Key): (Slot<S>, Result<bool>) {
      var (s, r) := backend.has(tier, k);
      (if r.Err? then Failed(s)
       else if r.value then this.(tier := s, counters := counters.(hits := counters.hits + 1))
       else this.(tier := s, counters := counters.(misses := counters.misses + 1)), r)
    }

    /** The miss count is a checked subtraction in the source; an answer longer
        than the request would underflow it, and the contract rules that out. */
    function GetMany(ks: seq<Key>): (Slot<S>, Result<seq<Option<Value>>>) {
      var (s, r) := backend.getMany(tier, ks);
      (if r.Err? then Failed(s)
       else
         var n := Found(r.value);
         this.(tier := s, counters := counters.(hits := counters.hits + n,
           misses := counters.misses + (if n <= |ks| then |ks| - n else 0))), r)
    }

    function Accept(w: Write): (Slot<S>, Result<Displaced>) {
      var (s, r) := backend.Accept(tier, w);
      (if r.Err? then Failed(s)
       else this.(tier := s, counters := counters.(puts := counters.puts + |w.Entries()|)), r)
    }

    function Delete(k: Key): (Slot<S>, Result<bool>) {
      var (s, r) := backend.delete(tier, k);
      (if r.Err? then Failed(s)
       else this.(tier := s, counters := counters.(deletes := counters.deletes + 1)), r)
    }

    function DeleteMany(ks: seq<Key>): (Slot<S>, Result<seq<bool>>) {
      var (s, r) := backend.deleteMany(tier, ks);
      (if r.Err? then Failed(s)
       else this.(tier := s, counters := counters.(deletes := counters.deletes + |ks|)), r)
    }

    /** Removes the keys a write covers, by the call that matches the write. */
    function Invalidate(w: Write): (Slot<S>, bool) {
      if w.Single? then
        var (slot, r) := Delete(w.entry.0); (slot, r.Ok?)
      else
        var (slot, r) := DeleteMany(Keys(w.entries)); (slot, r.Ok?)
    }

    ghost function Held(k: Key): Option<Value> {
      Lookup(backend.view(tier), k)
    }

    /** A tier that meets the contract, in a state that can occur. */
    ghost predicate Sound() {
      backend.Honest() && backend.inv(tier)
    }
  }
}
