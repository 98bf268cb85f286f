/** The slot record of the memory-mapped demo tier:
    `used (1) | key length (2, little endian) | value length (4, little endian) | key | value`. */
module Records {
  import opened Bindings

  type Byte = b: int | 0 <= b < 256
  type Bytes = seq<Byte>

  const HEADER := 7

  function Le16(n: nat): (r: Bytes)
    requires n < 0x1_0000
    ensures |r| == 2 && FromLe16(r[0], r[1]) == n
  {
    [n % 256, n / 256]
  }

  function FromLe16(b0: Byte, b1: Byte): nat {
    b0 + 256 * b1
  }

  function Le32(n: nat): (r: Bytes)
    requires n < 0x1_0000_0000
    ensures |r| == 4 && FromLe32(r[0], r[1], r[2], r[3]) == n
  {
    var q1 := n / 256;
    var q2 := q1 / 256;
    var q3 := q2 / 256;
    assert n == n % 256 + 256 * (q1 % 256 + 256 * (q2 % 256 + 256 * q3));
    [n % 256, q1 % 256, q2 % 256, q3]
  }

  function FromLe32(b0: Byte, b1: Byte, b2: Byte, b3: Byte): nat {
    b0 + 256 * (b1 + 256 * (b2 + 256 * b3))
  }

  /** A length that its header field cannot hold: the write fails, late. */
  predicate TooLong(key: Bytes, value: Bytes) {
    |key| >= 0x1_0000 || |value| >= 0x1_0000_0000
  }

  function Head(key: Bytes, value: Bytes): (r: Bytes)
    requires !TooLong(key, value)
    ensures |r| == HEADER
  {
    [1] + Le16(|key|) + Le32(|value|)
  }

  function Image(key: Bytes, value: Bytes): (r: Bytes)
    requires !TooLong(key, value)
    ensures |r| == HEADER + |key| + |value|
  {
    Head(key, value) + key + value
  }

  /** The record byte by byte: the used mark, both lengths lowest byte first, then the
      key and the value. */
  lemma {:induction false} Layout(key: Bytes, value: Bytes, i: nat)
    requires !TooLong(key, value)
    ensures var r := Image(key, value);
      && r[0] == 1
      && r[1] == |key| % 256 && r[2] == |key| / 256
      && r[3] == |value| % 256 && r[4] == |value| / 256 % 256
      && r[5] == |value| / 0x1_0000 % 256 && r[6] == |value| / 0x100_0000
      && (i < |key| ==> r[7 + i] == key[i])
      && (i < |value| ==> r[7 + |key| + i] == value[i])
  {
    var head := Head(key, value);
    assert forall j :: 0 <= j < 7 ==> Image(key, value)[j] == head[j];
    assert |value| / 256 / 256 == |value| / 0x1_0000 && |value| / 256 / 256 / 256 == |value| / 0x100_0000;
  }

  /** Where the value of a used record starts and how long it is, relative to the
      record; a record whose lengths overrun the slot reads as unused. */
  function ValueRange(record: Bytes): (r: Option<(nat, nat)>)
    requires |record| > HEADER
    ensures r.Some? ==> HEADER <= r.value.0 && r.value.0 + r.value.1 <= |record|
  {
    if record[0] != 1 then None
    else
      var start := HEADER + FromLe16(record[1], record[2]);
      var len := FromLe32(record[3], record[4], record[5], record[6]);
      if start + len > |record| then None else Some((start, len))
  }

  /** The key and value of a used record. `text` says which byte strings are the
      encoding of a text key; any other key reads as unused. */
  function ReadRecord(record: Bytes, text: Bytes -> bool): Option<(Bytes, Bytes)>
    requires |record| > HEADER
  {
    var range := ValueRange(record);
    if range.None? then None
    else
      var (start, len) := range.value;
      if text(record[HEADER..start]) then Some((record[HEADER..start], record[start..start + len])) else None
  }

  /** What is written is what is read, whatever lies behind it in the slot. */
  lemma {:induction false} ReadsBack(key: Bytes, value: Bytes, rest: Bytes, text: Bytes -> bool)
    requires !TooLong(key, value) && text(key)
    requires |Image(key, value) + rest| > HEADER
    ensures ReadRecord(Image(key, value) + rest, text) == Some((key, value))
  {
    var record := Image(key, value) + rest;
    var lens := Le16(|key|) + Le32(|value|);
    assert record[1..HEADER] == lens;
    assert record[1] == lens[0] == Le16(|key|)[0] && record[2] == lens[1] == Le16(|key|)[1];
    assert record[3] == lens[2] == Le32(|value|)[0] && record[4] == lens[3] == Le32(|value|)[1];
    assert record[5] == lens[4] == Le32(|value|)[2] && record[6] == lens[5] == Le32(|value|)[3];
    assert record[HEADER..HEADER + |key|] == key;
    assert record[HEADER + |key|..HEADER + |key| + |value|] == value;
  }

  /** A slot whose used byte is zero reads as unused. */
  lemma {:induction false} ClearedIsUnused(record: Bytes, text: Bytes -> bool)
    requires |record| > HEADER
    ensures ReadRecord(record[0 := 0], text) == None
  {
  }

  // ----- writing into the middle of a byte string -----

  function Spliced(s: Bytes, at: nat, data: Bytes): (r: Bytes)
    requires at + |data| <= |s|
    ensures |r| == |s|
  {
    s[..at] + data + s[at + |data|..]
  }

  /** Two neighbouring writes are one. */
  lemma {:induction false} SpliceTwice(s: Bytes, at: nat, a: Bytes, b: Bytes)
    requires at + |a| + |b| <= |s|
    ensures Spliced(Spliced(s, at, a), at + |a|, b) == Spliced(s, at, a + b)
  {
    var once := Spliced(s, at, a);
    assert once[..at + |a|] == s[..at] + a;
    assert once[at + |a| + |b|..] == s[at + |a| + |b|..];
  }

  /** The slot `slot` of a file of slots of `size` bytes each. */
  function Slice(bytes: Bytes, size: nat, slot: nat): (r: Bytes)
    requires slot * size + size <= |bytes|
    ensures |r| == size
  {
    bytes[slot * size..slot * size + size]
  }

  lemma {:induction false} SlotFits(slots: nat, size: nat, slot: nat)
    requires slot < slots
    ensures slot * size + size <= slots * size
  {
    if slot + 1 < slots {
      SlotFits(slots - 1, size, slot);
      assert slots * size == (slots - 1) * size + size;
    } else {
      assert slots * size == slot * size + size;
    }
  }

  /** A write inside one slot is seen there and nowhere else. */
  lemma {:induction false} WriteIsLocal(bytes: Bytes, slots: nat, size: nat, slot: nat, data: Bytes, other: nat)
    requires |bytes| == slots * size && slot < slots && other < slots && |data| <= size
    ensures slot * size + |data| <= |bytes| && other * size + size <= |bytes|
    ensures
      Slice(Spliced(bytes, slot * size, data), size, other)
      == if other == slot then data + Slice(bytes, size, slot)[|data|..] else Slice(bytes, size, other)
  {
    SlotFits(slots, size, slot);
    SlotFits(slots, size, other);
    if other < slot {
      SlotFits(slot, size, other);
    } else if slot < other {
      SlotFits(other, size, slot);
    }
  }
}
