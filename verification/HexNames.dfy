/** File names of the mmap tier: keys in lower-case hexadecimal, two digits a byte. */
module HexNames {
  import opened Bindings
  import opened Records

  const DIGITS := "0123456789abcdef"

  function EncodeByte(b: Byte): (r: string)
    ensures |r| == 2
  {
    [DIGITS[b / 16], DIGITS[b % 16]]
  }

  function Encode(bytes: Bytes): (r: string)
    ensures |r| == 2 * |bytes|
  {
    if bytes == [] then "" else EncodeByte(bytes[0]) + Encode(bytes[1..])
  }

  /** A digit of either case. */
  function Digit(c: char): Option<nat> {
    if '0' <= c <= '9' then Some(c as int - '0' as int)
    else if 'a' <= c <= 'f' then Some(c as int - 'a' as int + 10)
    else if 'A' <= c <= 'F' then Some(c as int - 'A' as int + 10)
    else None
  }

  /** Two characters as the source's parser reads them: two digits, or a plus sign and one. */
  function DecodePair(c: char, d: char): (r: Option<Byte>) {
    var (hi, lo) := (Digit(c), Digit(d));
    if lo.None? then None
    else if c == '+' then Some(lo.value)
    else if hi.None? then None
    else Some(16 * hi.value + lo.value)
  }

  function Decode(name: string): Option<Bytes> {
    if name == "" then Some([])
    else if |name| == 1 then None
    else
      var (b, rest) := (DecodePair(name[0], name[1]), Decode(name[2..]));
      if b.None? || rest.None? then None else Some([b.value] + rest.value)
  }

  predicate Lower(c: char) {
    '0' <= c <= '9' || 'a' <= c <= 'f'
  }

  lemma {:induction false} DigitsRead(n: nat)
    requires n < 16
    ensures Digit(DIGITS[n]) == Some(n) && Lower(DIGITS[n])
  {
  }

  /** `c` is the digit of value `n` counted up from '0', 'a' or 'A'. */
  predicate Counts(c: char, n: nat) {
    n < 16 &&
    (if n < 10 then c as int == '0' as int + n
     else c as int == 'a' as int + (n - 10) || c as int == 'A' as int + (n - 10))
  }

  /** A byte is written high half first, each half as the lower-case digit of its value. */
  lemma {:induction false} ByteWritten(b: Byte)
    ensures var (hi, lo) := (EncodeByte(b)[0], EncodeByte(b)[1]);
      Counts(hi, b / 16) && Lower(hi) && Counts(lo, b % 16) && Lower(lo)
  {
  }

  /** What a pair of characters reads as: two digits of either case, high half first, or
      a plus sign and a digit. Nothing else reads as a byte. */
  lemma {:induction false} PairRead(c: char, d: char, b: Byte)
    ensures DecodePair(c, d) == Some(b) <==>
      Counts(d, b % 16) && (Counts(c, b / 16) || (c == '+' && b < 16))
  {
    var (hi, lo) := (Digit(c), Digit(d));
    assert hi.Some? ==> Counts(c, hi.value);
    assert lo.Some? ==> Counts(d, lo.value);
    assert hi.Some? && lo.Some? ==> (16 * hi.value + lo.value) / 16 == hi.value && (16 * hi.value + lo.value) % 16 == lo.value;
  }

  /** The characters of a file name, byte by byte. */
  lemma {:induction false} NameAt(bytes: Bytes, i: nat)
    requires i < |bytes|
    ensures var name := Encode(bytes);
      Counts(name[2 * i], bytes[i] / 16) && Counts(name[2 * i + 1], bytes[i] % 16) && Lower(name[2 * i]) && Lower(name[2 * i + 1])
  {
    if i == 0 {
      ByteWritten(bytes[0]);
    } else {
      NameAt(bytes[1..], i - 1);
    }
  }

  lemma {:induction false} PairRoundTrip(b: Byte)
    ensures DecodePair(EncodeByte(b)[0], EncodeByte(b)[1]) == Some(b)
  {
    DigitsRead(b / 16);
    DigitsRead(b % 16);
  }

  /** A key's file name decodes to the key's bytes. */
  lemma {:induction false} RoundTrip(bytes: Bytes)
    ensures Decode(Encode(bytes)) == Some(bytes)
  {
    if bytes != [] {
      PairRoundTrip(bytes[0]);
      RoundTrip(bytes[1..]);
      assert Encode(bytes)[2..] == Encode(bytes[1..]);
      assert [bytes[0]] + bytes[1..] == bytes;
    }
  }

  /** Distinct keys have distinct file names. */
  lemma {:induction false} Injective(a: Bytes, b: Bytes)
    requires Encode(a) == Encode(b)
    ensures a == b
  {
    RoundTrip(a);
    RoundTrip(b);
  }

  /** The temporary file a write goes through is never taken for an entry. */
  lemma {:induction false} TemporaryRejected(bytes: Bytes)
    ensures Decode(Encode(bytes) + ".tmp") == None
  {
    var name := Encode(bytes) + ".tmp";
    if bytes != [] {
      PairRoundTrip(bytes[0]);
      TemporaryRejected(bytes[1..]);
      assert name[2..] == Encode(bytes[1..]) + ".tmp";
    } else {
      assert name == ".tmp";
    }
  }

  predicate LowerDigits(name: string) {
    name == "" || (Lower(name[0]) && LowerDigits(name[1..]))
  }

  lemma {:induction false} DigitWritten(c: char)
    requires Lower(c)
    ensures Digit(c).Some? && Digit(c).value < 16 && DIGITS[Digit(c).value] == c
  {
    var n := Digit(c).value;
    DigitsRead(n);
    var w := DIGITS[n];
    assert Digit(w) == Digit(c);
  }

  lemma {:induction false} EncodeHalves(hi: nat, lo: nat)
    requires hi < 16 && lo < 16
    ensures EncodeByte(16 * hi + lo) == [DIGITS[hi], DIGITS[lo]]
  {
    assert (16 * hi + lo) / 16 == hi && (16 * hi + lo) % 16 == lo;
  }

  lemma {:induction false} PairValue(c: char, d: char)
    requires Lower(c) && Lower(d)
    ensures Digit(c).Some? && Digit(d).Some? && DecodePair(c, d) == Some(16 * Digit(c).value + Digit(d).value)
  {
  }

  lemma {:induction false} PairCanonical(c: char, d: char)
    requires Lower(c) && Lower(d)
    ensures DecodePair(c, d).Some? && EncodeByte(DecodePair(c, d).value) == [c, d]
  {
    DigitWritten(c);
    DigitWritten(d);
    PairValue(c, d);
    EncodeHalves(Digit(c).value, Digit(d).value);
  }

  lemma {:induction false} EncodeCons(b: Byte, rest: Bytes)
    ensures Encode([b] + rest) == EncodeByte(b) + Encode(rest)
  {
    assert ([b] + rest)[1..] == rest;
  }

  lemma {:induction false} CanonicalStep(name: string, b: Byte, tail: Bytes)
    requires |name| >= 2 && DecodePair(name[0], name[1]) == Some(b) && EncodeByte(b) == [name[0], name[1]]
    requires Decode(name[2..]) == Some(tail) && Encode(tail) == name[2..]
    ensures Decode(name) == Some([b] + tail) && Encode([b] + tail) == name
  {
    EncodeCons(b, tail);
    assert name == [name[0], name[1]] + name[2..];
  }

  lemma {:induction false} LowerTail(name: string)
    requires LowerDigits(name) && |name| >= 2
    ensures Lower(name[0]) && Lower(name[1]) && LowerDigits(name[2..])
  {
    assert name[1..][0] == name[1] && name[1..][1..] == name[2..];
  }

  /** A name of lower-case digits that decodes is the name of what it decodes to, so
      among such names an entry has exactly one file. */
  lemma {:induction false} Canonical(name: string)
    requires LowerDigits(name)
    ensures Decode(name).Some? <==> |name| % 2 == 0
    ensures Decode(name).Some? ==> Encode(Decode(name).value) == name
  {
    if |name| >= 2 {
      LowerTail(name);
      PairCanonical(name[0], name[1]);
      Canonical(name[2..]);
      if Decode(name[2..]).Some? {
        CanonicalStep(name, DecodePair(name[0], name[1]).value, Decode(name[2..]).value);
      }
    }
  }
}
