/** The memory-mapped slot store: one byte array updated in place, with its index,
    queue and free list. `Value()` is the table of module SlotTable it stands for. */
module SlotMmap {
  import opened Bindings
  import opened Records
  import opened SlotTable

  class SlotMmap {
    const text: Bytes -> bool
    const slots: nat
    const size: nat
    const mmap: array<Byte>
    var index: map<Bytes, nat>
    /** Keys in insertion order. */
    var order: seq<Bytes>
    var free: seq<nat>

    ghost function Value(): Table
      reads this, mmap
    {
      Table(text, slots, size, mmap[..], index, order, free)
    }

    ghost predicate Valid()
      reads this, mmap
    {
      Value().Wf()
    }

    /** Opens a mapped file: scans every slot, in order. */
    constructor (text: Bytes -> bool, slots: nat, size: nat, mmap: array<Byte>)
      requires size > HEADER && mmap.Length == slots * size
      ensures this.text == text && this.slots == slots && this.size == size && this.mmap == mmap
      ensures Value() == Scan(text, slots, size, mmap[..])
      ensures Valid() <==> NoTwins(Value().Cells())
    {
      this.text, this.slots, this.size, this.mmap := text, slots, size, mmap;
      index, order, free := map[], [], [];
      new;
      ghost var cells := Table(text, slots, size, mmap[..], map[], [], []).Cells();
      var slot := 0;
      while slot < slots
        invariant slot <= slots && mmap[..] == old(mmap[..])
        invariant index == ScanIndex(cells[..slot]) && order == ScanOrder(cells[..slot]) && free == ScanFree(cells[..slot])
      {
        assert cells[..slot + 1][..slot] == cells[..slot];
        SlotFits(slots, size, slot);
        var cell := ReadSlot(slot);
        assert cell == cells[slot];
        if cell.Some? {
          index := index[cell.value.0 := slot];
          order := order + [cell.value.0];
        } else {
          free := free + [slot];
        }
        slot := slot + 1;
      }
      assert cells[..slot] == cells;
      ScanAgrees(text, slots, size, mmap[..]);
    }

    /** What slot `slot` of the mapping reads as. */
    function ReadSlot(slot: nat): (r: Cell)
      requires size > HEADER && slot * size + size <= mmap.Length
      reads mmap
      ensures r == Value().Read(slot)
    {
      ReadRecord(mmap[slot * size..slot * size + size], text)
    }

    /** Copies `data` into the mapping at `at`. */
    method CopyIn(at: nat, data: Bytes)
      requires at + |data| <= mmap.Length
      modifies mmap
      ensures mmap[..] == Spliced(old(mmap[..]), at, data)
    {
      var i := 0;
      while i < |data|
        invariant i <= |data|
        invariant mmap[..] == Spliced(old(mmap[..]), at, data[..i])
      {
        ghost var was := mmap[..];
        mmap[at + i] := data[i];
        assert mmap[..] == Spliced(was, at + i, [data[i]]);
        SpliceTwice(old(mmap[..]), at, data[..i], [data[i]]);
        assert data[..i + 1] == data[..i] + [data[i]];
        i := i + 1;
      }
      assert data[..i] == data;
    }

    method WriteHead(base: nat, key: Bytes, value: Bytes)
      requires !TooLong(key, value) && base + HEADER <= mmap.Length
      modifies mmap
      ensures mmap[..] == Spliced(old(mmap[..]), base, Head(key, value))
    {
      ghost var was := mmap[..];
      CopyIn(base, [1]);
      CopyIn(base + 1, Le16(|key|));
      SpliceTwice(was, base, [1], Le16(|key|));
      CopyIn(base + 3, Le32(|value|));
      SpliceTwice(was, base, [1] + Le16(|key|), Le32(|value|));
    }

    /** Writes a record over the front of a slot; fails, before touching a byte, when
        a length does not fit its header field. */
    method WriteSlot(slot: nat, key: Bytes, value: Bytes) returns (ok: bool)
      requires Value().Fits(key, value) && slot * size + size <= mmap.Length
      modifies mmap
      ensures ok == !TooLong(key, value)
      ensures Value() == old(Value()).Written(slot, key, value)
    {
      if |key| >= 0x1_0000 {
        return false;
      }
      if |value| >= 0x1_0000_0000 {
        return false;
      }
      var base := slot * size;
      ghost var was := mmap[..];
      WriteHead(base, key, value);
      CopyIn(base + HEADER, key);
      SpliceTwice(was, base, Head(key, value), key);
      CopyIn(base + HEADER + |key|, value);
      SpliceTwice(was, base, Head(key, value) + key, value);
      return true;
    }

    method Fetch(key: Bytes) returns (r: Option<Bytes>)
      requires Valid()
      ensures r == Lookup(Value().Contents(), key)
    {
      FetchIsLookup(Value(), key);
      if key in index {
        SlotFits(slots, size, index[key]);
        var cell := ReadSlot(index[key]);
        r := if cell.Some? then Some(cell.value.1) else None;
      } else {
        r := None;
      }
    }

    method Exists(key: Bytes) returns (found: bool)
      requires Valid()
      ensures found <==> key in Value().Contents()
    {
      FetchIsLookup(Value(), key);
      found := key in index;
    }

    /** The slot for a new key: the last free one, or the oldest key's. */
    method TakeSlot() returns (r: Result<(nat, seq<(Bytes, Bytes)>)>)
      requires Valid()
      modifies this
      ensures r.Ok? <==> old(Value()).Taken().Ok?
      ensures r.Err? ==> Value() == old(Value())
      ensures r.Ok? ==> (Value(), r.value.0, r.value.1) == old(Value()).Taken().value
    {
      TakenIsVacant(Value());
      if free != [] {
        var slot := free[|free| - 1];
        free := free[..|free| - 1];
        return Ok((slot, []));
      }
      if order == [] {
        return Err;
      }
      assert order[0] in order;
      var oldest := order[0];
      order := order[1..];
      var slot := index[oldest];
      index := index - {oldest};
      SlotFits(slots, size, slot);
      var cell := ReadSlot(slot);
      return Ok((slot, if cell.Some? then [cell.value] else []));
    }

    /** Inserts an entry; `Valid()` is lost exactly by the late length error. */
    method Insert(key: Bytes, value: Bytes) returns (r: Result<seq<(Bytes, Bytes)>>)
      requires Valid() && text(key)
      modifies this, mmap
      ensures (Value(), r) == old(Value()).Insert(key, value)
      ensures Valid() <==> !(Value().Fits(key, value) && TooLong(key, value) && key !in old(index) && slots > 0)
      ensures r.Ok? ==> Accepted(old(Value().Contents()), [(key, value)], Value().Contents(), r.value)
      ensures Valid() && r.Err? ==> Value() == old(Value())
    {
      ghost var was := Value();
      InsertFacts(was, key, value);
      if HEADER + |key| + |value| > size {
        return Err;
      }
      if key in index {
        SlotFits(slots, size, index[key]);
        var ok := WriteSlot(index[key], key, value);
        return if ok then Ok([]) else Err;
      }
      TakenIsVacant(was);
      var taken := TakeSlot();
      if taken.Err? {
        return Err;
      }
      var (slot, displaced) := taken.value;
      SlotFits(slots, size, slot);
      var ok := WriteSlot(slot, key, value);
      if !ok {
        return Err;
      }
      index := index[key := slot];
      order := order + [key];
      return Ok(displaced);
    }

    /** Marks a slot unused. */
    method Clear(slot: nat)
      requires slot * size + size <= mmap.Length && size > HEADER
      modifies mmap
      ensures Value() == old(Value()).Cleared(slot)
    {
      mmap[slot * size] := 0;
    }

    method Remove(key: Bytes) returns (found: bool)
      requires Valid()
      modifies this, mmap
      ensures (Value(), found) == old(Value()).Remove(key)
      ensures Valid()
      ensures Value().Contents() == old(Value().Contents()) - {key}
      ensures found <==> key in old(Value().Contents())
    {
      ghost var was := Value();
      RemoveKeeps(was, key);
      if key !in index {
        return false;
      }
      var slot := index[key];
      SlotFits(slots, size, slot);
      index := index - {key};
      Clear(slot);
      free := free + [slot];
      Retain(key);
      return true;
    }

    method Retain(key: Bytes)
      modifies this`order
      ensures order == Without(old(order), key)
    {
      var kept, i := [], 0;
      while i < |order|
        invariant i <= |order| && order == old(order)
        invariant Without(order, key) == kept + Without(order[i..], key)
      {
        if order[i] != key {
          kept := kept + [order[i]];
        }
        i := i + 1;
      }
      order := kept;
    }
  }

  /** What the insert theorems say of one insert, for every outcome. */
  lemma {:induction false} InsertFacts(t: Table, key: Bytes, value: Bytes)
    requires t.Wf() && t.text(key)
    ensures
      var (r, displaced) := t.Insert(key, value);
      && (r.Wf() <==> !(t.Fits(key, value) && TooLong(key, value) && key !in t.index && t.slots > 0))
      && (displaced.Ok? ==> Accepted(t.Contents(), [(key, value)], r.Contents(), displaced.value))
      && (r.Wf() && displaced.Err? ==> r == t)
  {
    LateErrorLosesSlot(t, key, value);
    TakenIsVacant(t);
    if !t.Fits(key, value) || !TooLong(key, value) {
      InsertKeeps(t, key, value);
    }
  }
}
