/** The pieces of the Protocol Buffers wire format the messages are made of, after the
    Protocol Buffers Encoding specification, sections "Base 128 Varints" and
    "Length-Delimited Records". Reading stops with Bad where the parser gives up. */
module Wire {
  import opened Bytes

  const TWO31 := 0x8000_0000
  const TWO32 := 0x1_0000_0000
  const TWO64 := 0x1_0000_0000_0000_0000
  const INT_MAX := 0x7FFF_FFFF
  const MAX_SIZE := INT_MAX - 16    // the longest length prefix the parser accepts

  type int32 = x: int | -TWO31 <= x < TWO31
  type uint32 = x: int | 0 <= x < TWO32

  datatype Read<T> = Got(value: T, rest: seq<byte>) | Bad

  /** What parsing a message ends with. */
  datatype Outcome<T> = Parsed(msg: T) | Malformed

  // ---------- varints ----------

  function Varint(v: nat): seq<byte>
    decreases v
  {
    if v < 128 then [v] else [128 + v % 128] + Varint(v / 128)
  }

  function VarintSize(v: nat): nat
    decreases v
  {
    if v < 128 then 1 else 1 + VarintSize(v / 128)
  }

  /** A varint of at most max bytes. */
  function ReadVarint(s: seq<byte>, max: nat): (r: Read<nat>)
    ensures r.Got? ==> |r.rest| < |s|
    decreases max
  {
    if max == 0 || s == [] then Bad
    else if s[0] < 128 then Got(s[0], s[1..])
    else
      var r := ReadVarint(s[1..], max - 1);
      if r.Bad? then Bad else Got(s[0] - 128 + 128 * r.value, r.rest)
  }

  function Power128(k: nat): nat {
    if k == 0 then 1 else 128 * Power128(k - 1)
  }

  lemma {:induction false} VarintLength(v: nat)
    ensures |Varint(v)| == VarintSize(v)
    decreases v
  {
    if v >= 128 {
      VarintLength(v / 128);
    }
  }

  lemma {:induction false} VarintFits(v: nat, k: nat)
    requires 1 <= k && v < Power128(k)
    ensures VarintSize(v) <= k
    ensures Power128(k - 1) <= v ==> VarintSize(v) == k
    decreases k
  {
    if v >= 128 {
      assert k > 1 by {
        assert Power128(1) == 128 * Power128(0);
      }
      VarintFits(v / 128, k - 1);
    }
  }

  lemma Powers()
    ensures Power128(5) == 8 * TWO32 && Power128(9) == TWO64 / 2 && Power128(10) == 64 * TWO64
  {
    assert Power128(1) == 128 && Power128(2) == 128 * 128;
    assert Power128(4) == 128 * Power128(3) && Power128(3) == 128 * Power128(2);
    assert Power128(6) == 128 * Power128(5) && Power128(5) == 128 * Power128(4);
    assert Power128(8) == 128 * Power128(7) && Power128(7) == 128 * Power128(6);
  }

  /** Reading undoes writing, whatever follows. */
  lemma {:induction false} VarintRoundTrip(v: nat, max: nat, rest: seq<byte>)
    requires VarintSize(v) <= max
    ensures ReadVarint(Varint(v) + rest, max) == Got(v, rest)
    decreases v
  {
    var s := Varint(v) + rest;
    if v < 128 {
      assert s[1..] == rest;
    } else {
      assert s[1..] == Varint(v / 128) + rest;
      VarintRoundTrip(v / 128, max - 1, rest);
    }
  }

  lemma Width32(v: nat)
    requires v < TWO32
    ensures VarintSize(v) <= 5
  {
    Powers();
    VarintFits(v, 5);
  }

  lemma Width64(v: nat)
    requires v < TWO64
    ensures VarintSize(v) <= 10
    ensures TWO64 / 2 <= v ==> VarintSize(v) == 10
  {
    Powers();
    VarintFits(v, 10);
  }

  // ---------- tags, numbers, byte strings ----------

  /** A number stored into 32 bits. */
  function Low32(v: nat): (r: uint32)
    ensures v < TWO32 ==> r == v
  {
    v % 0x1_0000_0000
  }

  function ReadTag(s: seq<byte>): (r: Read<nat>)
    ensures r.Got? ==> |r.rest| < |s|
  {
    var r := ReadVarint(s, 5);
    if r.Bad? then Bad else Got(Low32(r.value), r.rest)
  }

  function Low64(v: nat): (r: nat)
    ensures r < TWO64 && (v < TWO64 ==> r == v)
  {
    v % 0x1_0000_0000_0000_0000
  }

  function ReadVarint32(s: seq<byte>): (r: Read<uint32>)
    ensures r.Got? ==> |r.rest| < |s|
  {
    var r := ReadVarint(s, 10);
    if r.Bad? then Bad else Got(Low32(r.value), r.rest)
  }

  /** A 64-bit varint stored into a 32-bit signed field: its low 32 bits. */
  function ReadInt32(s: seq<byte>): (r: Read<int32>)
    ensures r.Got? ==> |r.rest| < |s|
  {
    var r := ReadVarint(s, 10);
    if r.Bad? then Bad else Got(ToInt32(r.value), r.rest)
  }

  function ToInt32(v: nat): int32 {
    var low := Low32(v);
    if low < TWO31 then low else low - TWO32
  }

  /** A negative number is written as its 64-bit two's complement. */
  function Extend(v: int32): nat {
    if v < 0 then v + TWO64 else v
  }

  function WriteInt32(v: int32): seq<byte> {
    Varint(Extend(v))
  }

  function Int32Size(v: int32): nat {
    if v < 0 then 10 else VarintSize(v)
  }

  function WriteBytes(b: seq<byte>): seq<byte> {
    Varint(|b|) + b
  }

  function BytesSize(n: nat): nat {
    VarintSize(n) + n
  }

  /** A length prefix of at most MAX_SIZE and that many bytes. */
  function ReadBytes(s: seq<byte>): (r: Read<seq<byte>>)
    ensures r.Got? ==> |r.rest| < |s|
  {
    var n := ReadVarint(s, 5);
    if n.Bad? || n.value > MAX_SIZE || n.value > |n.rest| then Bad
    else Got(n.rest[..n.value], n.rest[n.value..])
  }

  lemma TagRoundTrip(tag: byte, rest: seq<byte>)
    requires tag < 128
    ensures ReadTag([tag] + rest) == Got(tag, rest)
  {
    assert ([tag] + rest)[1..] == rest;
  }

  lemma Uint32RoundTrip(v: uint32, rest: seq<byte>)
    ensures ReadVarint32(Varint(v) + rest) == Got(v, rest)
  {
    Width32(v);
    VarintRoundTrip(v, 10, rest);
  }

  lemma Int32RoundTrip(v: int32, rest: seq<byte>)
    ensures ReadInt32(WriteInt32(v) + rest) == Got(v, rest)
  {
    Width64(Extend(v));
    VarintRoundTrip(Extend(v), 10, rest);
    LowBits(v);
  }

  lemma LowBits(v: int32)
    ensures ToInt32(Extend(v)) == v
  {
    if v < 0 {
      assert Extend(v) == (v + TWO32) + TWO32 * (TWO32 - 1);
      assert Low32(Extend(v)) == v + TWO32;
    }
  }

  /** The ten bytes a negative number is said to take are the bytes it takes. */
  lemma Int32SizeExact(v: int32)
    ensures |WriteInt32(v)| == Int32Size(v)
  {
    VarintLength(Extend(v));
    Width64(Extend(v));
  }

  /** A byte string reads back exactly when its length prefix is one the parser accepts. */
  lemma BytesRoundTrip(b: seq<byte>, rest: seq<byte>)
    requires |b| < TWO32
    ensures ReadBytes(WriteBytes(b) + rest) == if |b| <= 2147483631 then Got(b, rest) else Bad
  {
    Width32(|b|);
    VarintRoundTrip(|b|, 5, b + rest);
    assert WriteBytes(b) + rest == Varint(|b|) + (b + rest);
    assert (b + rest)[..|b|] == b && (b + rest)[|b|..] == rest;
  }

  lemma {:induction false} CutVarintBad(v: nat, max: nat, k: nat)
    requires k < VarintSize(v)
    ensures |Varint(v)| == VarintSize(v) && ReadVarint(Varint(v)[..k], max) == Bad
    decreases v
  {
    VarintLength(v);
    if max > 0 && k > 0 {
      assert Varint(v)[..k][1..] == Varint(v / 128)[..k - 1];
      CutVarintBad(v / 128, max - 1, k - 1);
    }
  }

  /** A byte string cut short anywhere is not read. */
  lemma CutBytesBad(b: seq<byte>, k: nat)
    requires |b| < TWO32 && k < |WriteBytes(b)|
    ensures ReadBytes(WriteBytes(b)[..k]) == Bad
  {
    VarintLength(|b|);
    if k < VarintSize(|b|) {
      CutVarintBad(|b|, 5, k);
      assert WriteBytes(b)[..k] == Varint(|b|)[..k];
    } else {
      var rest := b[..k - VarintSize(|b|)];
      assert WriteBytes(b)[..k] == Varint(|b|) + rest;
      Width32(|b|);
      VarintRoundTrip(|b|, 5, rest);
    }
  }

  function Ones(k: nat): nat {
    if k == 0 then 1 else 128 * Ones(k - 1) + 127
  }

  lemma {:induction false} OnesVarint(k: nat)
    ensures Varint(Ones(k)) == seq(k, _ => 255) + [1]
    decreases k
  {
    if k > 0 {
      OnesVarint(k - 1);
      assert Ones(k) / 128 == Ones(k - 1) && Ones(k) % 128 == 127;
      assert [255] + (seq(k - 1, _ => 255) + [1]) == seq(k, _ => 255) + [1];
    }
  }

  lemma OnesEight()
    ensures Ones(8) == 0x200_0000_0000_0000 - 1
  {
    assert Ones(1) == 255 && Ones(2) == 0x7FFF;
    assert Ones(3) == 128 * Ones(2) + 127 && Ones(4) == 128 * Ones(3) + 127;
    assert Ones(5) == 128 * Ones(4) + 127 && Ones(6) == 128 * Ones(5) + 127;
    assert Ones(7) == 128 * Ones(6) + 127 && Ones(8) == 128 * Ones(7) + 127;
  }

  lemma VarintStep(v: nat, r: nat)
    requires v > 0 && r < 128
    ensures Varint(128 * v + r) == [128 + r] + Varint(v)
  {
  }

  /** Minus two is ten bytes, the low bits first. */
  lemma MinusTwo()
    ensures WriteInt32(-2) == [254, 255, 255, 255, 255, 255, 255, 255, 255, 1]
  {
    OnesEight();
    OnesVarint(8);
    VarintStep(Ones(8), 126);
    assert seq(8, _ => 255) == [255, 255, 255, 255, 255, 255, 255, 255];
  }

  /** The byte sequences the specification gives as examples. */
  lemma Examples()
    ensures Varint(1) == [1] && Varint(150) == [150, 1] && Varint(300) == [172, 2]
    ensures WriteBytes([116, 101, 115, 116, 105, 110, 103]) == [7, 116, 101, 115, 116, 105, 110, 103]
  {
    VarintStep(1, 22);
    VarintStep(2, 44);
  }

  lemma BytesSizeExact(b: seq<byte>)
    ensures |WriteBytes(b)| == BytesSize(|b|)
  {
    VarintLength(|b|);
  }

  // ---------- fields a message does not know ----------

  /** The library's reader of such a field, given its tag and what follows: it keeps the
      field as it will be written out again, tag included. */
  type FieldReader = f: (nat, seq<byte>) -> Read<seq<byte>> |
    (forall tag: nat, s: seq<byte> :: f(tag, s).Got? ==> |f(tag, s).rest| <= |s|)
    witness (tag: nat, s: seq<byte>) => Bad

  ghost predicate Keeps(f: FieldReader, tag: nat, field: seq<byte>) {
    exists s :: f(tag, s).Got? && f(tag, s).value == field
  }

  /** Written out before anything, a kept field is read again as it was kept. */
  ghost predicate ReadsAgain(f: FieldReader, tag: nat, field: seq<byte>, more: seq<byte>) {
    var t := ReadTag(field + more);
    t.Got? && t.value == tag && f(tag, t.rest) == Got(field, more)
  }

  ghost predicate Rereads(f: FieldReader) {
    forall tag: nat, field, more :: Keeps(f, tag, field) ==> ReadsAgain(f, tag, field, more)
  }

  function WriteUnknown(fields: seq<seq<byte>>): seq<byte> {
    if fields == [] then [] else fields[0] + WriteUnknown(fields[1..])
  }

  function UnknownSize(fields: seq<seq<byte>>): nat {
    if fields == [] then 0 else |fields[0]| + UnknownSize(fields[1..])
  }

  lemma {:induction false} UnknownSizeExact(fields: seq<seq<byte>>)
    ensures |WriteUnknown(fields)| == UnknownSize(fields)
    decreases |fields|
  {
    if fields != [] {
      UnknownSizeExact(fields[1..]);
    }
  }

  /** The field was kept for a tag that is neither known nor the end of the message. */
  ghost predicate KeptFor(f: FieldReader, known: set<nat>, field: seq<byte>) {
    exists tag: nat :: tag !in known && tag % 8 != 4 && tag != 0 && Keeps(f, tag, field)
  }

  ghost predicate AllKept(f: FieldReader, known: set<nat>, fields: seq<seq<byte>>) {
    forall i :: 0 <= i < |fields| ==> KeptFor(f, known, fields[i])
  }

  // ---------- the reader of the specification, groups apart ----------

  function StandardReader(tag: nat, s: seq<byte>): (r: Read<seq<byte>>)
    ensures r.Got? ==> |r.rest| <= |s|
  {
    if tag >= TWO32 || tag / 8 == 0 then Bad
    else if tag % 8 == 0 then
      var v := ReadVarint(s, 10);
      if v.Bad? then Bad else Got(Varint(tag) + Varint(Low64(v.value)), v.rest)
    else if tag % 8 == 1 then ReadFixed(tag, 8, s)
    else if tag % 8 == 2 then
      var b := ReadBytes(s);
      if b.Bad? then Bad else Got(Varint(tag) + WriteBytes(b.value), b.rest)
    else if tag % 8 == 5 then ReadFixed(tag, 4, s)
    else Bad
  }

  function ReadFixed(tag: nat, n: nat, s: seq<byte>): (r: Read<seq<byte>>)
    ensures r.Got? ==> |r.rest| <= |s|
  {
    if |s| < n then Bad else Got(Varint(tag) + s[..n], s[n..])
  }

  lemma TagAgain(tag: nat, body: seq<byte>, more: seq<byte>)
    requires tag < TWO32
    ensures ReadTag(Varint(tag) + body + more) == Got(tag, body + more)
  {
    JoinAssociates(Varint(tag), body, more);
    Width32(tag);
    VarintRoundTrip(tag, 5, body + more);
  }

  lemma FixedAgain(tag: nat, n: nat, s: seq<byte>, more: seq<byte>)
    requires tag < TWO32 && ReadFixed(tag, n, s).Got?
    ensures var field := ReadFixed(tag, n, s).value;
      ReadTag(field + more) == Got(tag, s[..n] + more) && ReadFixed(tag, n, s[..n] + more) == Got(field, more)
  {
    TagAgain(tag, s[..n], more);
    assert (s[..n] + more)[..n] == s[..n] && (s[..n] + more)[n..] == more;
  }

  lemma VarintAgain(tag: nat, v: nat, more: seq<byte>)
    requires tag < TWO32 && tag % 8 == 0 && tag / 8 != 0 && v < TWO64
    ensures ReadsAgain(StandardReader, tag, Varint(tag) + Varint(v), more)
  {
    TagAgain(tag, Varint(v), more);
    Width64(v);
    VarintRoundTrip(v, 10, more);
  }

  lemma BytesAgain(tag: nat, b: seq<byte>, more: seq<byte>)
    requires tag < TWO32 && tag % 8 == 2 && tag / 8 != 0 && |b| <= MAX_SIZE
    ensures ReadsAgain(StandardReader, tag, Varint(tag) + WriteBytes(b), more)
  {
    TagAgain(tag, WriteBytes(b), more);
    BytesRoundTrip(b, more);
  }

  /** That reader keeps fields so that they are read again. */
  lemma StandardRereads()
    ensures Rereads(StandardReader)
  {
    forall tag: nat, field, more | Keeps(StandardReader, tag, field)
      ensures ReadsAgain(StandardReader, tag, field, more)
    {
      var s :| StandardReader(tag, s).Got? && StandardReader(tag, s).value == field;
      if tag % 8 == 0 {
        VarintAgain(tag, Low64(ReadVarint(s, 10).value), more);
      } else if tag % 8 == 2 {
        BytesAgain(tag, ReadBytes(s).value, more);
      } else {
        FixedAgain(tag, if tag % 8 == 1 then 8 else 4, s, more);
      }
    }
  }
}
