/** The slot store on values: a byte string cut into slots, an index from key to
    slot, the keys in insertion order and the free slots; what each operation makes
    of them, and why they always agree. */
module SlotTable {
  import opened Bindings
  import opened Records

  /** What each slot reads as: a key with its value, or unused. */
  type Cell = Option<(Bytes, Bytes)>

  /** The index is the graph of what the slots hold. */
  ghost predicate IndexAgrees(cells: seq<Cell>, index: map<Bytes, nat>) {
    && (forall k :: k in index ==> index[k] < |cells| && cells[index[k]].Some? && cells[index[k]].value.0 == k)
    && (forall i :: 0 <= i < |cells| && cells[i].Some? ==> cells[i].value.0 in index && index[cells[i].value.0] == i)
  }

  /** The free list is the slots that read as unused, each once. */
  ghost predicate FreeAgrees(cells: seq<Cell>, free: seq<nat>) {
    && Distinct(free)
    && (forall i :: i in free ==> i < |cells| && cells[i].None?)
    && (forall i :: 0 <= i < |cells| && cells[i].None? ==> i in free)
  }

  /** The queue is a permutation of the index keys. */
  ghost predicate OrderAgrees(index: map<Bytes, nat>, order: seq<Bytes>) {
    Distinct(order) && forall k :: k in order <==> k in index
  }

  ghost predicate Distinct<T>(s: seq<T>) {
    forall i, j :: 0 <= i < j < |s| ==> s[i] != s[j]
  }

  function Without(s: seq<Bytes>, x: Bytes): (r: seq<Bytes>)
    ensures forall y :: y in r <==> y in s && y != x
  {
    if s == [] then [] else if s[0] == x then Without(s[1..], x) else [s[0]] + Without(s[1..], x)
  }

  lemma {:induction false} WithoutDistinct(s: seq<Bytes>, x: Bytes)
    requires Distinct(s)
    ensures Distinct(Without(s, x))
  {
    if s != [] {
      WithoutDistinct(s[1..], x);
      var rest := Without(s[1..], x);
      forall i | 0 <= i < |rest|
        ensures rest[i] != s[0]
      {
        assert rest[i] in s[1..];
      }
    }
  }

  /** The map that cells and index stand for. */
  function Held(cells: seq<Cell>, index: map<Bytes, nat>): map<Bytes, Bytes> {
    map k | k in index && index[k] < |cells| && cells[index[k]].Some? :: cells[index[k]].value.1
  }

  // ----- agreement on cells -----

  lemma {:induction false} Rewrite(cells: seq<Cell>, index: map<Bytes, nat>, free: seq<nat>, key: Bytes, value: Bytes)
    requires IndexAgrees(cells, index) && FreeAgrees(cells, free) && key in index
    ensures
      var now := cells[index[key] := Some((key, value))];
      IndexAgrees(now, index) && FreeAgrees(now, free) && Held(now, index) == Held(cells, index)[key := value]
  {
  }

  /** Writing a new key into a slot that reads as unused and is on no list. */
  lemma {:induction false} Occupy(cells: seq<Cell>, index: map<Bytes, nat>, free: seq<nat>, slot: nat, key: Bytes, value: Bytes)
    requires slot < |cells| && key !in index && slot !in free
    requires IndexAgrees(cells[slot := None], index) && FreeAgrees(cells[slot := None], free + [slot])
    ensures
      var now := cells[slot := Some((key, value))];
      && IndexAgrees(now, index[key := slot]) && FreeAgrees(now, free)
      && Held(now, index[key := slot]) == Held(cells[slot := None], index)[key := value]
  {
    var before, now := cells[slot := None], cells[slot := Some((key, value))];
    assert forall i :: 0 <= i < |cells| && i != slot ==> now[i] == before[i];
    assert forall i :: i in free ==> i in free + [slot];
    assert forall i :: 0 <= i < |free| ==> (free + [slot])[i] == free[i];
  }

  lemma {:induction false} Vacate(cells: seq<Cell>, index: map<Bytes, nat>, free: seq<nat>, key: Bytes)
    requires IndexAgrees(cells, index) && FreeAgrees(cells, free) && key in index
    ensures
      var now := cells[index[key] := None];
      && IndexAgrees(now, index - {key}) && FreeAgrees(now, free + [index[key]]) && index[key] !in free
      && Held(now, index - {key}) == Held(cells, index) - {key}
  {
    var slot := index[key];
    assert forall i :: i in free + [slot] <==> i in free || i == slot;
  }

  lemma {:induction false} Dequeue(index: map<Bytes, nat>, order: seq<Bytes>)
    requires OrderAgrees(index, order) && order != []
    ensures order[0] in index && OrderAgrees(index - {order[0]}, order[1..])
  {
    assert order == [order[0]] + order[1..];
    assert forall i :: 0 <= i < |order[1..]| ==> order[1..][i] == order[i + 1];
  }

  // ----- the table -----

  /** `text` says which byte strings are the encoding of a text key. */
  datatype Table = Table(
    text: Bytes -> bool,
    slots: nat,
    size: nat,
    bytes: Bytes,
    index: map<Bytes, nat>,
    order: seq<Bytes>,
    free: seq<nat>)
  {
    ghost predicate Shaped() {
      size > HEADER && |bytes| == slots * size
    }

    function Read(slot: nat): Cell {
      if size > HEADER && slot * size + size <= |bytes| then ReadRecord(Slice(bytes, size, slot), text) else None
    }

    function Cells(): (r: seq<Cell>)
      ensures |r| == slots
    {
      seq(slots, i requires 0 <= i < slots => Read(i))
    }

    ghost predicate Wf() {
      && Shaped()
      && IndexAgrees(Cells(), index)
      && FreeAgrees(Cells(), free)
      && OrderAgrees(index, order)
    }

    function Fetch(key: Bytes): Option<Bytes> {
      if key in index && Read(index[key]).Some? then Some(Read(index[key]).value.1) else None
    }

    function Contents(): map<Bytes, Bytes> {
      Held(Cells(), index)
    }

    predicate Fits(key: Bytes, value: Bytes) {
      HEADER + |key| + |value| <= size
    }

    function Written(slot: nat, key: Bytes, value: Bytes): Table {
      if TooLong(key, value) || slot * size + |Image(key, value)| > |bytes| then this
      else this.(bytes := Spliced(bytes, slot * size, Image(key, value)))
    }

    /** The slot an insert of a new key takes, and the entry it displaces: the last
        free slot, or the slot of the oldest key. */
    function Taken(): Result<(Table, nat, seq<(Bytes, Bytes)>)> {
      if free != [] then Ok((this.(free := free[..|free| - 1]), free[|free| - 1], []))
      else if order == [] || order[0] !in index then Err
      else
        var slot := index[order[0]];
        Ok((this.(order := order[1..], index := index - {order[0]}), slot,
            if Read(slot).Some? then [Read(slot).value] else []))
    }

    /** `Err` stands for every error: too large for a slot, no slots, a length its
        header field cannot hold. The last comes after the slot was taken. */
    function Insert(key: Bytes, value: Bytes): (Table, Result<seq<(Bytes, Bytes)>>) {
      if !Fits(key, value) then (this, Err)
      else if key in index then
        if TooLong(key, value) then (this, Err) else (Written(index[key], key, value), Ok([]))
      else if Taken().Err? then (this, Err)
      else
        var (taken, slot, displaced) := Taken().value;
        if TooLong(key, value) then (taken, Err)
        else (taken.Written(slot, key, value).(index := taken.index[key := slot], order := taken.order + [key]), Ok(displaced))
    }

    /** The table with the used byte of `slot` zeroed. */
    function Cleared(slot: nat): Table {
      if slot * size < |bytes| then this.(bytes := bytes[slot * size := 0]) else this
    }

    function Remove(key: Bytes): (Table, bool) {
      if key !in index then (this, false)
      else
        (Cleared(index[key]).(index := index - {key}, order := Without(order, key), free := free + [index[key]]), true)
    }
  }

  // ----- one write and what the slots read as -----

  lemma {:induction false} WrittenReads(t: Table, slot: nat, key: Bytes, value: Bytes, other: nat)
    requires t.Shaped() && slot < t.slots && other < t.slots
    requires t.Fits(key, value) && !TooLong(key, value) && t.text(key)
    ensures t.Written(slot, key, value).Shaped()
    ensures t.Written(slot, key, value).Read(other) == if other == slot then Some((key, value)) else t.Read(other)
  {
    WriteIsLocal(t.bytes, t.slots, t.size, slot, Image(key, value), other);
    if other == slot {
      ReadsBack(key, value, Slice(t.bytes, t.size, slot)[|Image(key, value)|..], t.text);
    }
  }

  /** Writing a record changes what its slot reads as, and no other. */
  lemma {:induction false} WrittenCells(t: Table, slot: nat, key: Bytes, value: Bytes)
    requires t.Shaped() && slot < t.slots
    requires t.Fits(key, value) && !TooLong(key, value) && t.text(key)
    ensures t.Written(slot, key, value).Shaped()
    ensures t.Written(slot, key, value).Cells() == t.Cells()[slot := Some((key, value))]
  {
    WrittenReads(t, slot, key, value, slot);
    forall other | 0 <= other < t.slots
      ensures t.Written(slot, key, value).Cells()[other] == t.Cells()[slot := Some((key, value))][other]
    {
      WrittenReads(t, slot, key, value, other);
    }
  }

  lemma {:induction false} ClearedReads(t: Table, slot: nat, other: nat)
    requires t.Shaped() && slot < t.slots && other < t.slots
    ensures t.Cleared(slot).Shaped() && slot * t.size < |t.bytes|
    ensures t.Cleared(slot).Read(other) == if other == slot then None else t.Read(other)
  {
    WriteIsLocal(t.bytes, t.slots, t.size, slot, [0], other);
    assert Spliced(t.bytes, slot * t.size, [0]) == t.bytes[slot * t.size := 0];
    if other == slot {
      var record := Slice(t.bytes, t.size, slot);
      assert [0] + record[1..] == record[0 := 0];
      ClearedIsUnused(record, t.text);
    }
  }

  /** Zeroing a slot's used byte frees that slot, and no other. */
  lemma {:induction false} ClearedCells(t: Table, slot: nat)
    requires t.Shaped() && slot < t.slots
    ensures t.Cleared(slot).Shaped() && t.Cleared(slot).Cells() == t.Cells()[slot := None]
  {
    ClearedReads(t, slot, slot);
    var now := t.Cleared(slot).Cells();
    forall other | 0 <= other < t.slots
      ensures now[other] == t.Cells()[slot := None][other]
    {
      ClearedReads(t, slot, other);
    }
  }

  lemma {:induction false} FetchIsLookup(t: Table, key: Bytes)
    requires t.Wf()
    ensures t.Fetch(key) == Lookup(t.Contents(), key)
    ensures key in t.Contents() <==> key in t.index
  {
    if key in t.index {
      assert t.Cells()[t.index[key]] == t.Read(t.index[key]);
    }
  }

  // ----- the operations keep the agreement -----

  lemma {:induction false} ReplaceKeeps(t: Table, key: Bytes, value: Bytes)
    requires t.Wf() && key in t.index && t.Fits(key, value) && !TooLong(key, value) && t.text(key)
    ensures t.Written(t.index[key], key, value).Wf()
    ensures t.Written(t.index[key], key, value).Contents() == t.Contents()[key := value]
  {
    Rewrite(t.Cells(), t.index, t.free, key, value);
    WrittenCells(t, t.index[key], key, value);
  }

  /** A table that agrees with its bytes, had the slot `slot` been cleared and freed. */
  ghost predicate Vacant(t: Table, slot: nat) {
    && t.Shaped() && slot < t.slots && slot !in t.free && OrderAgrees(t.index, t.order)
    && IndexAgrees(t.Cells()[slot := None], t.index)
    && FreeAgrees(t.Cells()[slot := None], t.free + [slot])
  }

  ghost function VacantContents(t: Table, slot: nat): map<Bytes, Bytes>
    requires slot < t.slots
  {
    Held(t.Cells()[slot := None], t.index)
  }

  lemma {:induction false} FreeTaken(t: Table)
    requires t.Wf() && t.free != []
    ensures var (taken, slot, displaced) := t.Taken().value;
      Vacant(taken, slot) && Accepted(t.Contents(), [], VacantContents(taken, slot), displaced)
  {
    var (taken, slot, displaced) := t.Taken().value;
    assert t.free == taken.free + [slot] && slot in t.free;
    assert taken.Cells() == t.Cells();
    assert t.Cells()[slot].None?;
    assert t.Cells()[slot := None] == t.Cells();
    assert Apply(map[], []) + t.Contents() == t.Contents();
  }

  lemma {:induction false} OldestIsVacant(t: Table)
    requires t.Wf() && t.free == [] && t.order != []
    ensures t.Taken().Ok?
    ensures var (taken, slot, displaced) := t.Taken().value;
      Vacant(taken, slot) && VacantContents(taken, slot) == t.Contents() - {t.order[0]}
  {
    Dequeue(t.index, t.order);
    var (taken, slot, displaced) := t.Taken().value;
    assert taken.Cells() == t.Cells();
    Vacate(t.Cells(), t.index, t.free, t.order[0]);
  }

  lemma {:induction false} AcceptedEviction(m: map<Bytes, Bytes>, key: Bytes)
    requires key in m
    ensures Accepted(m, [], m - {key}, [(key, m[key])])
  {
    assert Apply(map[], [(key, m[key])]) == map[key := m[key]];
    assert map[key := m[key]] + (m - {key}) == m;
    assert Apply(m, []) == m;
  }

  /** With no slot free, the oldest key goes, and its entry is handed back. */
  lemma {:induction false} OldestTaken(t: Table)
    requires t.Wf() && t.free == [] && t.order != []
    ensures t.Taken().Ok? && t.order[0] in t.Contents()
    ensures var (taken, slot, displaced) := t.Taken().value;
      && Vacant(taken, slot) && Accepted(t.Contents(), [], VacantContents(taken, slot), displaced)
      && displaced == [(t.order[0], t.Contents()[t.order[0]])]
  {
    Dequeue(t.index, t.order);
    OldestIsVacant(t);
    FetchIsLookup(t, t.order[0]);
    AcceptedEviction(t.Contents(), t.order[0]);
    assert t.Cells()[t.index[t.order[0]]] == t.Read(t.index[t.order[0]]);
  }

  lemma {:induction false} SomeSlotListed(t: Table)
    requires t.Wf() && t.slots > 0
    ensures t.free != [] || t.order != []
  {
    if t.Cells()[0].None? {
      assert 0 in t.free;
    } else {
      assert t.Cells()[0].value.0 in t.order;
    }
  }

  /** An agreeing table has a slot to take unless it has no slots. */
  lemma {:induction false} TakenIsVacant(t: Table)
    requires t.Wf()
    ensures t.Taken().Ok? <==> t.slots > 0
    ensures t.Taken().Ok? ==>
      var (taken, slot, displaced) := t.Taken().value;
      Vacant(taken, slot) && Accepted(t.Contents(), [], VacantContents(taken, slot), displaced)
  {
    if t.slots > 0 {
      SomeSlotListed(t);
    }
    if t.free != [] {
      assert t.free[0] in t.free;
      FreeTaken(t);
    } else if t.order != [] {
      assert t.order[0] in t.order;
      assert t.index[t.order[0]] < t.slots;
      OldestTaken(t);
    }
  }

  lemma {:induction false} FillKeeps(t: Table, slot: nat, key: Bytes, value: Bytes)
    requires Vacant(t, slot) && key !in t.index && t.Fits(key, value) && !TooLong(key, value) && t.text(key)
    ensures
      var r := t.Written(slot, key, value).(index := t.index[key := slot], order := t.order + [key]);
      r.Wf() && r.Contents() == VacantContents(t, slot)[key := value]
  {
    Occupy(t.Cells(), t.index, t.free, slot, key, value);
    WrittenCells(t, slot, key, value);
    var r := t.Written(slot, key, value).(index := t.index[key := slot], order := t.order + [key]);
    assert r.Cells() == t.Written(slot, key, value).Cells();
    assert key !in t.order;
  }

  lemma {:induction false} AcceptedOne(m: map<Bytes, Bytes>, key: Bytes, value: Bytes)
    ensures Accepted(m, [(key, value)], m[key := value], [])
  {
    assert Apply(m, [(key, value)]) == m[key := value];
    assert Apply(map[], []) + m[key := value] == m[key := value];
  }

  lemma {:induction false} NewKeyKeeps(t: Table, key: Bytes, value: Bytes)
    requires t.Wf() && t.text(key) && key !in t.index && t.Fits(key, value) && !TooLong(key, value) && t.slots > 0
    ensures
      var (r, displaced) := t.Insert(key, value);
      r.Wf() && displaced.Ok? && Accepted(t.Contents(), [(key, value)], r.Contents(), displaced.value)
  {
    TakenIsVacant(t);
    var (taken, slot, displaced) := t.Taken().value;
    FillKeeps(taken, slot, key, value);
    var m := VacantContents(taken, slot);
    AcceptedOne(m, key, value);
    AcceptedChain(t.Contents(), [], m, displaced, [(key, value)], m[key := value], []);
    assert [] + [(key, value)] == [(key, value)] && displaced + [] == displaced;
  }

  /** When the header fields can hold the lengths, an insert keeps the agreement and
      meets the insert contract; it succeeds exactly when the entry fits a slot and
      there is one, and a failed insert changes nothing. */
  lemma {:induction false} InsertKeeps(t: Table, key: Bytes, value: Bytes)
    requires t.Wf() && t.text(key)
    requires !t.Fits(key, value) || !TooLong(key, value)
    ensures
      var (r, displaced) := t.Insert(key, value);
      && r.Wf()
      && (displaced.Ok? ==> Accepted(t.Contents(), [(key, value)], r.Contents(), displaced.value))
      && (displaced.Err? ==> r == t)
      && (displaced.Ok? <==> t.Fits(key, value) && t.slots > 0)
  {
    if t.Fits(key, value) {
      if key in t.index {
        ReplaceKeeps(t, key, value);
        AcceptedOne(t.Contents(), key, value);
      } else if t.slots > 0 {
        NewKeyKeeps(t, key, value);
      } else {
        TakenIsVacant(t);
      }
    }
  }

  /** Exactly one kind of insert breaks the agreement: a new key whose length, or
      whose value's length, its header field cannot hold, in a slot large enough for
      the entry. The error comes after a slot was taken, and the slot is lost. */
  lemma {:induction false} LateErrorLosesSlot(t: Table, key: Bytes, value: Bytes)
    requires t.Wf() && t.text(key)
    ensures !t.Insert(key, value).0.Wf() <==>
      t.Fits(key, value) && TooLong(key, value) && key !in t.index && t.slots > 0
  {
    if t.Fits(key, value) && TooLong(key, value) {
      TakenIsVacant(t);
      if key !in t.index && t.slots > 0 {
        var (taken, slot, displaced) := t.Taken().value;
        SlotLost(taken, slot);
      }
    } else {
      InsertKeeps(t, key, value);
    }
  }

  /** Taking a free slot costs no entry. */
  lemma {:induction false} FreeCostsNone(t: Table)
    requires t.Wf() && t.free != []
    ensures t.Taken().value.0.Contents() == t.Contents()
  {
    assert t.Taken().value.0.Cells() == t.Cells();
  }

  lemma {:induction false} OldestCostsOne(t: Table)
    requires t.Wf() && t.free == [] && t.order != []
    ensures t.Taken().Ok? && t.Taken().value.0.Contents() != t.Contents()
  {
    Dequeue(t.index, t.order);
    FetchIsLookup(t, t.order[0]);
    assert t.Cells()[t.index[t.order[0]]] == t.Read(t.index[t.order[0]]);
    assert t.order[0] in t.Contents() && t.order[0] !in t.Taken().value.0.Contents();
  }

  /** Exactly when a failed insert costs an existing entry its slot: such an insert,
      with no slot free. */
  lemma {:induction false} FailureCostsEntry(t: Table, key: Bytes, value: Bytes)
    requires t.Wf() && t.text(key) && t.Insert(key, value).1.Err?
    ensures t.Insert(key, value).0.Contents() != t.Contents() <==>
      t.Fits(key, value) && TooLong(key, value) && key !in t.index && t.slots > 0 && t.free == []
  {
    TakenIsVacant(t);
    if t.free != [] {
      FreeCostsNone(t);
    } else if t.slots > 0 {
      SomeSlotListed(t);
      OldestCostsOne(t);
    }
  }

  lemma {:induction false} SlotLost(t: Table, slot: nat)
    requires Vacant(t, slot)
    ensures !t.Wf()
  {
    var cells := t.Cells();
    if cells[slot].Some? {
      var k := cells[slot].value.0;
      assert k in t.index ==> cells[slot := None][t.index[k]].Some?;
      assert !IndexAgrees(cells, t.index);
    } else {
      assert !FreeAgrees(cells, t.free);
    }
  }

  lemma {:induction false} DropOrder(index: map<Bytes, nat>, order: seq<Bytes>, key: Bytes)
    requires OrderAgrees(index, order)
    ensures OrderAgrees(index - {key}, Without(order, key))
  {
    WithoutDistinct(order, key);
  }

  lemma {:induction false} RemovedKeeps(t: Table, key: Bytes)
    requires t.Wf() && key in t.index
    ensures t.Remove(key).0.Wf()
    ensures t.Remove(key).0.Contents() == t.Contents() - {key}
  {
    ClearedCells(t, t.index[key]);
    var r := t.Remove(key).0;
    assert r.Cells() == t.Cleared(t.index[key]).Cells();
    Vacate(t.Cells(), t.index, t.free, key);
    DropOrder(t.index, t.order, key);
  }

  lemma {:induction false} RemoveKeeps(t: Table, key: Bytes)
    requires t.Wf()
    ensures t.Remove(key).0.Wf()
    ensures t.Remove(key).0.Contents() == t.Contents() - {key}
    ensures t.Remove(key).1 <==> key in t.Contents()
  {
    FetchIsLookup(t, key);
    if key in t.index {
      RemovedKeeps(t, key);
    } else {
      assert t.Contents() - {key} == t.Contents();
    }
  }

  // ----- rebuilding the table from its bytes -----

  function ScanIndex(cells: seq<Cell>): map<Bytes, nat> {
    if cells == [] then map[]
    else
      var (rest, last) := (ScanIndex(cells[..|cells| - 1]), cells[|cells| - 1]);
      if last.Some? then rest[last.value.0 := |cells| - 1] else rest
  }

  function ScanOrder(cells: seq<Cell>): seq<Bytes> {
    if cells == [] then []
    else
      var (rest, last) := (ScanOrder(cells[..|cells| - 1]), cells[|cells| - 1]);
      if last.Some? then rest + [last.value.0] else rest
  }

  function ScanFree(cells: seq<Cell>): seq<nat> {
    if cells == [] then []
    else
      var (rest, last) := (ScanFree(cells[..|cells| - 1]), cells[|cells| - 1]);
      if last.Some? then rest else rest + [|cells| - 1]
  }

  /** The table `open` builds from a mapped file. */
  function Scan(text: Bytes -> bool, slots: nat, size: nat, bytes: Bytes): Table {
    var cells := Table(text, slots, size, bytes, map[], [], []).Cells();
    Table(text, slots, size, bytes, ScanIndex(cells), ScanOrder(cells), ScanFree(cells))
  }

  /** No key stands in two slots. */
  ghost predicate NoTwins(cells: seq<Cell>) {
    forall i, j :: 0 <= i < j < |cells| && cells[i].Some? && cells[j].Some? ==> cells[i].value.0 != cells[j].value.0
  }

  lemma {:induction false} ScanFreeAgrees(cells: seq<Cell>)
    ensures FreeAgrees(cells, ScanFree(cells))
  {
    if cells != [] {
      var before := cells[..|cells| - 1];
      ScanFreeAgrees(before);
      assert forall i :: i in ScanFree(before) ==> i < |before| && cells[i] == before[i];
    }
  }

  lemma {:induction false} ScanIndexAgrees(cells: seq<Cell>)
    requires NoTwins(cells)
    ensures IndexAgrees(cells, ScanIndex(cells)) && OrderAgrees(ScanIndex(cells), ScanOrder(cells))
  {
    if cells != [] {
      var (before, last) := (cells[..|cells| - 1], cells[|cells| - 1]);
      ScanIndexAgrees(before);
      assert forall i :: 0 <= i < |before| ==> cells[i] == before[i];
      if last.Some? {
        assert last.value.0 !in ScanIndex(before);
        assert last.value.0 !in ScanOrder(before);
      }
    }
  }

  /** A file two of whose slots hold the same key has no agreeing index. */
  lemma {:induction false} AgreeingHasNoTwins(cells: seq<Cell>, index: map<Bytes, nat>)
    requires IndexAgrees(cells, index)
    ensures NoTwins(cells)
  {
  }

  /** Opening any file of the right length gives an agreeing table exactly when no
      two slots hold the same key. */
  lemma {:induction false} ScanAgrees(text: Bytes -> bool, slots: nat, size: nat, bytes: Bytes)
    requires size > HEADER && |bytes| == slots * size
    ensures Scan(text, slots, size, bytes).Wf() <==> NoTwins(Scan(text, slots, size, bytes).Cells())
  {
    var t := Scan(text, slots, size, bytes);
    assert t.Cells() == Table(text, slots, size, bytes, map[], [], []).Cells();
    ScanFreeAgrees(t.Cells());
    if NoTwins(t.Cells()) {
      ScanIndexAgrees(t.Cells());
    }
  }

  /** Reopening the file of an agreeing table rebuilds its index and its contents;
      only the queue is rebuilt in slot order instead of insertion order. */
  lemma {:induction false} ReopenRestores(t: Table)
    requires t.Wf()
    ensures
      var r := Scan(t.text, t.slots, t.size, t.bytes);
      && r.Wf() && r.index == t.index && r.Contents() == t.Contents()
      && (forall slot :: slot in r.free <==> slot in t.free)
      && (forall k :: k in r.order <==> k in t.order)
  {
    var r := Scan(t.text, t.slots, t.size, t.bytes);
    assert r.Cells() == t.Cells();
    AgreeingHasNoTwins(t.Cells(), t.index);
    ScanAgrees(t.text, t.slots, t.size, t.bytes);
    SameIndex(t.Cells(), r.index, t.index);
    SameFree(t.Cells(), r.free, t.free);
  }

  lemma {:induction false} SameIndex(cells: seq<Cell>, a: map<Bytes, nat>, b: map<Bytes, nat>)
    requires IndexAgrees(cells, a) && IndexAgrees(cells, b)
    ensures a == b
  {
    forall k
      ensures k in a <==> k in b
      ensures k in a ==> a[k] == b[k]
    {
      if k in a {
        assert cells[a[k]].value.0 == k;
      }
      if k in b {
        assert cells[b[k]].value.0 == k;
      }
    }
  }

  lemma {:induction false} SameFree(cells: seq<Cell>, a: seq<nat>, b: seq<nat>)
    requires FreeAgrees(cells, a) && FreeAgrees(cells, b)
    ensures forall slot :: slot in a <==> slot in b
  {
  }
}
