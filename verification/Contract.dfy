/** The router as a whole against the tier contract: removal, the write contract
    in one statement, and bottoms that never overflow. */
module Contract {
  import opened Bindings
  import opened Tiers
  import opened Views
  import opened Reads
  import opened Batches
  import opened Stack

  // ----------------------------------------------------------------- removal

  /** The topmost read-only copy: what a delete cannot reach. */
  ghost function Origin<S(!new)>(slots: seq<Slot<S>>, k: Key): Option<Value> {
    if slots == [] then None
    else Or(if slots[0].writable then None else slots[0].Held(k), Origin(slots[1..], k))
  }

  lemma {:induction false} NoOrigin<S(!new)>(slots: seq<Slot<S>>, k: Key)
    requires AllWritable(slots)
    ensures Origin(slots, k) == None
  {
    if slots != [] {
      NoOrigin(slots[1..], k);
    }
  }

  lemma {:induction false} DeleteKeeps<S(!new)>(slots: seq<Slot<S>>, base: nat, k: Key)
    requires Sound(slots)
    ensures var d := DeleteFrom(slots, base, k);
      Sound(d.slots) && Errors(d.slots) == Errors(slots) + |d.failures|
    decreases |slots|
  {
    if slots != [] {
      DeleteKeeps(slots[1..], base + 1, k);
      assert slots[0].backend.DeleteOk(slots[0].tier, k);
    }
  }

  /** A delete no tier failed leaves only read-only copies of its key, and touches
      no other key; wherever the read-only tiers sit. */
  lemma {:induction false} DeleteAt<S(!new)>(slots: seq<Slot<S>>, base: nat, k: Key, x: Key)
    requires Sound(slots) && DeleteFrom(slots, base, k).failures == []
    ensures var d := DeleteFrom(slots, base, k);
      && Top(d.slots, x) == (if x == k then Origin(slots, k) else Top(slots, x))
      && (AllWritable(slots) ==> d.existed == Top(slots, k).Some?)
    decreases |slots|
  {
    if slots != [] {
      DeleteAt(slots[1..], base + 1, k, x);
      assert slots[0].backend.DeleteOk(slots[0].tier, k);
    }
  }

  lemma {:induction false} RemoveKeeps<S(!new)>(slots: seq<Slot<S>>, base: nat, keys: seq<Key>, removed: seq<bool>)
    requires Sound(slots) && |removed| == |keys|
    ensures var d := RemoveFrom(slots, base, keys, removed);
      Sound(d.slots) && Errors(d.slots) == Errors(slots) + |d.report.failures|
    decreases |slots|
  {
    if slots != [] {
      if !slots[0].writable {
        RemoveKeeps(slots[1..], base + 1, keys, removed);
      } else {
        var r := slots[0].DeleteMany(keys).1;
        assert slots[0].backend.DeleteManyOk(slots[0].tier, keys);
        RemoveKeeps(slots[1..], base + 1, keys, if r.Ok? then OrFlags(removed, r.value) else removed);
      }
    }
  }

  lemma {:induction false} RemoveAt<S(!new)>(slots: seq<Slot<S>>, base: nat, keys: seq<Key>, removed: seq<bool>, x: Key)
    requires Sound(slots) && |removed| == |keys| && RemoveFrom(slots, base, keys, removed).report.failures == []
    ensures Top(RemoveFrom(slots, base, keys, removed).slots, x) == if x in keys then Origin(slots, x) else Top(slots, x)
    decreases |slots|
  {
    if slots != [] {
      if !slots[0].writable {
        RemoveAt(slots[1..], base + 1, keys, removed, x);
      } else {
        var r := slots[0].DeleteMany(keys).1;
        assert slots[0].backend.DeleteManyOk(slots[0].tier, keys);
        RemoveAt(slots[1..], base + 1, keys, if r.Ok? then OrFlags(removed, r.value) else removed, x);
      }
    }
  }

  /** The flag of key `i`: it was in the view, and this is its first mention. */
  lemma {:induction false} RemoveFlags<S(!new)>(slots: seq<Slot<S>>, base: nat, keys: seq<Key>, removed: seq<bool>, i: nat)
    requires Sound(slots) && AllWritable(slots) && i < |keys| == |removed|
    requires RemoveFrom(slots, base, keys, removed).report.failures == []
    ensures RemoveFrom(slots, base, keys, removed).report.removed[i] ==
      (removed[i] || (Top(slots, keys[i]).Some? && keys[i] !in keys[..i]))
    decreases |slots|
  {
    if slots != [] {
      var r := slots[0].DeleteMany(keys).1;
      assert slots[0].backend.DeleteManyOk(slots[0].tier, keys);
      RemoveFlags(slots[1..], base + 1, keys, if r.Ok? then OrFlags(removed, r.value) else removed, i);
    }
  }

  // ------------------------------------------------------------------- writes

  lemma {:induction false} BottomWritable<S(!new)>(slots: seq<Slot<S>>)
    requires WritableAbove(slots)
    ensures Bottom(slots).Some? <==> slots != [] && slots[0].writable
  {
    if slots != [] && !slots[0].writable {
      NoneWritableAt(slots);
    }
  }

  lemma {:induction false} NoneWritableAt<S(!new)>(slots: seq<Slot<S>>)
    requires NoneWritable(slots)
    ensures forall i :: 0 <= i < |slots| ==> !slots[i].writable
  {
    if slots != [] {
      NoneWritableAt(slots[1..]);
      assert forall i :: 0 < i < |slots| ==> slots[i] == slots[1..][i - 1];
    }
  }

  lemma {:induction false} WriteKeeps<S(!new)>(slots: seq<Slot<S>>, w: Tiers.Write, p: Policy)
    requires Sound(slots)
    ensures Sound(Stack.Write(slots, w, p).slots)
    ensures Errors(Stack.Write(slots, w, p).slots) >= Errors(slots)
  {
    if p.write.Around? {
      AroundKeeps(slots, w);
    } else {
      ThroughKeeps(slots, w, p);
    }
  }

  lemma {:induction false} AroundKeeps<S(!new)>(slots: seq<Slot<S>>, w: Tiers.Write)
    requires Sound(slots)
    ensures var u := Stack.WriteAround(slots, w).slots;
      Sound(u) && Errors(u) >= Errors(slots)
  {
    WriteAroundKeeps(slots, w);
  }

  lemma {:induction false} ThroughKeeps<S(!new)>(slots: seq<Slot<S>>, w: Tiers.Write, p: Policy)
    requires Sound(slots) && p.write.Through?
    ensures var u := Stack.Write(slots, w, p).slots;
      Sound(u) && Errors(u) >= Errors(slots)
  {
    if Bottom(slots).Some? {
      WriteThroughKeeps(slots, w, p);
    }
  }

  lemma {:induction false} WriteDone<S(!new)>(slots: seq<Slot<S>>, w: Tiers.Write, p: Policy)
    requires Sound(slots) && WritableAbove(slots) && slots != [] && slots[0].writable
    requires Errors(Stack.Write(slots, w, p).slots) == Errors(slots)
    ensures Stack.Write(slots, w, p).outcome.Done?
  {
    BottomWritable(slots);
    if p.write.Around? {
      WriteAroundKeeps(slots, w);
    } else {
      WriteThroughKeeps(slots, w, p);
    }
  }

  /** A write during which no tier error was counted: accepted, and nothing lost but
      what it hands back - read through the stack laid over the evicted list, every
      key is the old view with the batch written in order. A read-only suffix stays
      under the evicted entries. */
  lemma {:induction false} WriteAt<S(!new)>(slots: seq<Slot<S>>, w: Tiers.Write, p: Policy, k: Key)
    requires Sound(slots) && WritableAbove(slots) && slots != [] && slots[0].writable
    requires p.demote || p.write.Around?
    requires Errors(Stack.Write(slots, w, p).slots) == Errors(slots)
    ensures var u := Stack.Write(slots, w, p);
      && u.outcome.Done?
      && Over(u.slots, u.outcome.value, k) == Or(Bind(w.Entries(), k), Top(slots, k))
  {
    BottomWritable(slots);
    if p.write.Around? {
      WriteAroundKeeps(slots, w);
      WriteAroundAt(slots, w, k);
    } else {
      WriteThroughKeeps(slots, w, p);
      WriteThroughAt(slots, w, p, k);
    }
  }

  /** The router meets the insert contract it expects of its tiers. */
  lemma {:induction false} NothingLostQuietly<S(!new)>(slots: seq<Slot<S>>, w: Tiers.Write, p: Policy)
    requires Sound(slots) && AllWritable(slots) && slots != []
    requires p.demote || p.write.Around?
    requires Errors(Stack.Write(slots, w, p).slots) == Errors(slots)
    ensures var u := Stack.Write(slots, w, p);
      u.outcome.Done? && Accepted(View(slots), w.Entries(), View(u.slots), u.outcome.value)
  {
    var u := Stack.Write(slots, w, p);
    AllWritableAbove(slots);
    WriteDone(slots, w, p);
    SameRoles(slots, u.slots);
    forall k
      ensures Or(Lookup(View(u.slots), k), Bind(u.outcome.value, k)) == Or(Bind(w.Entries(), k), Lookup(View(slots), k))
    {
      WriteAt(slots, w, p, k);
      OverAllWritable(u.slots, u.outcome.value, k);
      ViewAt(slots, k);
      ViewAt(u.slots, k);
    }
    AcceptedFrom(View(slots), w.Entries(), View(u.slots), u.outcome.value);
  }

  lemma {:induction false} AllWritableAbove<S(!new)>(slots: seq<Slot<S>>)
    requires AllWritable(slots)
    ensures WritableAbove(slots)
  {
    if slots != [] {
      AllWritableAbove(slots[1..]);
    }
  }

  // -------------------------------------------------------- a roomy bottom tier

  /** The lowest tier is writable and never displaces anything. */
  ghost predicate RoomyBottom<S(!new)>(slots: seq<Slot<S>>) {
    slots != [] &&
    if |slots| == 1 then slots[0].writable && slots[0].backend.Roomy() else RoomyBottom(slots[1..])
  }

  lemma {:induction false} SameBottom<S(!new)>(a: seq<Slot<S>>, b: seq<Slot<S>>)
    requires Roles(a) == Roles(b)
    ensures RoomyBottom(a) == RoomyBottom(b)
  {
    if a != [] {
      assert Roles(a)[0] == Roles(b)[0];
      assert Roles(a)[1..] == Roles(a[1..]) && Roles(b)[1..] == Roles(b[1..]);
      SameBottom(a[1..], b[1..]);
    }
  }

  lemma {:induction false} PourRoomy<S(!new)>(slot: Slot<S>, entries: seq<Entry>)
    requires slot.Sound() && slot.backend.Roomy()
    ensures Pour(slot, entries).next == []
    decreases |entries|
  {
    if entries != [] {
      assert slot.backend.WriteOk(slot.tier, Single(entries[0]));
      PourRoomy(slot.Accept(Single(entries[0])).0, entries[1..]);
    }
  }

  /** Nothing falls off the bottom of a stack with a roomy bottom tier. */
  lemma {:induction false} CascadeRoomy<S(!new)>(below: seq<Slot<S>>, entries: Displaced)
    requires Sound(below) && (RoomyBottom(below) || entries == [])
    ensures Cascade(below, entries).out == []
  {
    if below != [] && entries != [] {
      if !below[0].writable {
        CascadeRoomy(below[1..], entries);
      } else {
        if |below| == 1 {
          PourRoomy(below[0], entries);
        }
        CascadeRoomy(below[1..], Pour(below[0], entries).next);
      }
    }
  }

  lemma {:induction false} RoomyAccept<S(!new)>(slot: Slot<S>, w: Tiers.Write)
    requires slot.Sound()
    ensures slot.Accept(w).0.Sound()
    ensures slot.backend.Roomy() && slot.Accept(w).1.Ok? ==> slot.Accept(w).1.value == []
  {
    assert slot.backend.WriteOk(slot.tier, w);
  }

  lemma {:induction false} WriteThroughRoomy<S(!new)>(slots: seq<Slot<S>>, w: Tiers.Write, p: Policy)
    requires Sound(slots) && p.demote && (RoomyBottom(slots) || slots == [])
    ensures WriteThrough(slots, w, p).evicted == []
  {
    if slots != [] {
      var b := WriteThrough(slots[1..], w, p);
      WriteThroughRoomy(slots[1..], w, p);
      WriteThroughKeeps(slots[1..], w, p);
      if b.aborted.None? && slots[0].writable {
        RoomyAccept(slots[0], w);
        SameBottom(slots[1..], b.slots);
        var r := slots[0].Accept(w).1;
        if r.Ok? {
          CascadeRoomy(b.slots, r.value);
        }
      }
    }
  }

  lemma {:induction false} WriteRoomy<S(!new)>(slots: seq<Slot<S>>, w: Tiers.Write, p: Policy)
    requires Sound(slots) && p.demote && RoomyBottom(slots)
    ensures var u := Stack.Write(slots, w, p); u.outcome.Done? ==> u.outcome.value == []
  {
    if p.write.Around? {
      LastWritable(slots);
      var b := Bottom(slots).value;
      SoundAt(slots, b);
      RoomyAccept(slots[b], w);
    } else {
      WriteThroughRoomy(slots, w, p);
    }
  }

  lemma {:induction false} SoundAt<S(!new)>(slots: seq<Slot<S>>, i: nat)
    requires Sound(slots) && i < |slots|
    ensures slots[i].Sound()
  {
    if i > 0 {
      SoundAt(slots[1..], i - 1);
    }
  }

  lemma {:induction false} LastWritable<S(!new)>(slots: seq<Slot<S>>)
    requires RoomyBottom(slots)
    ensures Bottom(slots) == Some(|slots| - 1)
    ensures slots[|slots| - 1].backend.Roomy()
  {
    if |slots| > 1 {
      LastWritable(slots[1..]);
      assert slots[|slots| - 1] == slots[1..][|slots| - 2];
    }
  }

  lemma {:induction false} BottomBelow<S(!new)>(slots: seq<Slot<S>>, n: nat)
    requires RoomyBottom(slots) && n < |slots|
    ensures RoomyBottom(slots[n..])
  {
    if n == 0 {
      assert slots[0..] == slots;
    } else {
      BottomBelow(slots[1..], n - 1);
      assert slots[n..] == slots[1..][n - 1..];
    }
  }

  lemma {:induction false} FillRoomy<S(!new)>(slots: seq<Slot<S>>, target: nat, w: Tiers.Write)
    requires Sound(slots) && RoomyBottom(slots) && target < |slots|
    ensures Fill(slots, target, w, true).out == []
  {
    var above, x, below := slots[..target], slots[target], slots[target + 1..];
    Stack.Around(slots, target);
    ErrorsAround(above, x, below);
    RoomyAccept(x, w);
    if x.writable && x.Accept(w).1.Ok? {
      if below != [] {
        BottomBelow(slots, target + 1);
      } else {
        LastWritable(slots);
      }
      CascadeRoomy(below, x.Accept(w).1.value);
    }
  }

  lemma {:induction false} FillRangeRoomy<S(!new)>(slots: seq<Slot<S>>, from: nat, to: nat, w: Tiers.Write)
    requires Sound(slots) && RoomyBottom(slots) && to <= |slots|
    ensures FillRange(slots, from, to, w, true).out == []
    decreases if from < to then to - from else 0
  {
    if from < to {
      var f := Fill(slots, from, w, true);
      FillRoomy(slots, from, w);
      FillKeeps(slots, from, w, true);
      SameBottom(slots, f.slots);
      FillRangeRoomy(f.slots, from + 1, to, w);
    }
  }

  lemma {:induction false} PromoteFromRoomy<S(!new)>(slots: seq<Slot<S>>, from: nat, keys: seq<Key>, statuses: seq<KeyStatus>, p: Policy)
    requires Sound(slots) && RoomyBottom(slots) && |keys| == |statuses| && p.demote
    ensures PromoteFrom(slots, from, keys, statuses, p).out == []
    decreases if from < |slots| then |slots| - from else 0
  {
    if from < |slots| {
      var f := PromoteTier(slots, from, keys, statuses, p);
      FillRangeRoomy(slots, 0, Reach(p.promote, from), Batch(HitsAt(keys, statuses, from)));
      PromoteTierKeeps(slots, from, keys, statuses, p);
      SameBottom(slots, f.slots);
      PromoteFromRoomy(f.slots, from + 1, keys, statuses, p);
    }
  }
}
