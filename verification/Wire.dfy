/**
 The Protocol Buffers wire format: base-128 varints, tags, length-delimited records,
 fixed-width records and groups. The generated parsers and serializers call these
 primitives (`ReadTag`, `ReadVarint32`, `ReadSize`, `WriteInt32ToArray`, ...); they follow the
 Protocol Buffers Encoding specification and the limits of the C++ runtime.
 */
module Wire {
  type byte = x: int | 0 <= x < 256
  type bytes = seq<byte>

  const TWO32: int := 0x1_0000_0000
  const TWO64: int := 0x1_0000_0000_0000_0000

  type uint64 = x: int | 0 <= x < TWO64

  /** The largest length prefix `ReadSize` accepts: INT32_MAX less the 16 slop bytes. */
  const MAX_LEN: nat := 0x7fff_ffff - 16

  /** A varint takes at most ten bytes, a tag or a length prefix at most five. */
  const VARINT_BYTES: nat := 10
  const TAG_BYTES: nat := 5

  const MAX_FIELD_NUMBER: nat := 0x1fff_ffff

  datatype Option<+T> = None | Some(value: T)

  // ---------------------------------------------------------------- varints

  function WriteVarint(v: nat): (r: bytes)
    ensures |r| >= 1
  {
    if v < 128 then [v] else [v % 128 + 128] + WriteVarint(v / 128)
  }

  /** Reads a varint of at most `budget` bytes; the result is its value and its length. */
  function ReadVarint(s: bytes, budget: nat): (r: Option<(nat, nat)>)
    ensures r.Some? ==> 1 <= r.value.1 <= |s| && r.value.1 <= budget
  {
    if s == [] || budget == 0 then None
    else if s[0] < 128 then Some((s[0], 1))
    else
      match ReadVarint(s[1..], budget - 1)
      case None => None
      case Some((v, n)) => Some((s[0] - 128 + 128 * v, n + 1))
  }

  /** The number of bytes the size calculators charge for a varint. */
  function VarintSize(v: nat): (n: nat)
    ensures n >= 1
  {
    if v < 128 then 1 else 1 + VarintSize(v / 128)
  }

  function Pow128(n: nat): (p: nat)
    ensures p >= 1
  {
    if n == 0 then 1 else 128 * Pow128(n - 1)
  }

  lemma Pow128Values()
    ensures Pow128(5) == 0x8_0000_0000
    ensures Pow128(10) == 0x40_0000_0000_0000_0000
  {
  }

  lemma {:induction false} WriteVarintSize(v: nat)
    ensures |WriteVarint(v)| == VarintSize(v)
  {
    if v >= 128 { WriteVarintSize(v / 128); }
  }

  /** Reading undoes writing, whatever follows, when the value fits the byte budget. */
  lemma {:induction false} VarintRoundTrip(v: nat, budget: nat, rest: bytes)
    requires v < Pow128(budget) && budget >= 1
    ensures ReadVarint(WriteVarint(v) + rest, budget) == Some((v, |WriteVarint(v)|))
  {
    var s := WriteVarint(v) + rest;
    if v >= 128 {
      VarintRoundTrip(v / 128, budget - 1, rest);
      assert s[1..] == WriteVarint(v / 128) + rest;
    }
  }

  lemma {:induction false} ReadVarintPrefix(x: bytes, y: bytes, budget: nat)
    requires ReadVarint(x, budget).Some?
    ensures ReadVarint(x + y, budget) == ReadVarint(x, budget)
  {
    if x[0] >= 128 {
      ReadVarintPrefix(x[1..], y, budget - 1);
      assert (x + y)[1..] == x[1..] + y;
    }
  }

  // ---------------------------------------------------------------- fixed-width values

  function WriteFixed(v: nat, width: nat): (r: bytes)
    ensures |r| == width
  {
    if width == 0 then [] else [v % 256] + WriteFixed(v / 256, width - 1)
  }

  function ReadFixed(s: bytes): (v: nat)
  {
    if s == [] then 0 else s[0] + 256 * ReadFixed(s[1..])
  }

  function Pow256(n: nat): (p: nat)
    ensures p >= 1
  {
    if n == 0 then 1 else 256 * Pow256(n - 1)
  }

  lemma {:induction false} FixedRoundTrip(v: nat, width: nat)
    requires v < Pow256(width)
    ensures ReadFixed(WriteFixed(v, width)) == v
  {
    if width > 0 {
      FixedRoundTrip(v / 256, width - 1);
      assert WriteFixed(v, width)[1..] == WriteFixed(v / 256, width - 1);
    }
  }

  lemma {:induction false} ReadFixedBound(s: bytes)
    ensures ReadFixed(s) < Pow256(|s|)
  {
    if s != [] { ReadFixedBound(s[1..]); }
  }

  lemma Pow256Of8()
    ensures Pow256(8) == TWO64
  {
  }

  // ---------------------------------------------------------------- records

  const WT_VARINT: nat := 0
  const WT_FIXED64: nat := 1
  const WT_LEN: nat := 2
  const WT_START_GROUP: nat := 3
  const WT_END_GROUP: nat := 4
  const WT_FIXED32: nat := 5

  /**
   One record of a message. `Opaque` is a record no message of flat.proto declares
   (a group or a 32-bit value); its bytes are skipped.
   */
  datatype Field =
    | Varint(number: nat, value: uint64)
    | Fixed64(number: nat, bits: uint64)
    | Len(number: nat, payload: bytes)
    | Opaque(number: nat)

  function Tag(number: nat, wireType: nat): nat { number * 8 + wireType }

  /** `ReadTag`: a varint of at most five bytes, kept modulo 2^32. */
  function ReadTag(s: bytes): (r: Option<(nat, nat)>)
    ensures r.Some? ==> 1 <= r.value.1 <= |s| && r.value.0 < TWO32
  {
    match ReadVarint(s, TAG_BYTES)
    case None => None
    case Some((v, n)) => Some((v % TWO32, n))
  }

  /** `ReadSize` followed by the payload it announces. */
  function ReadLen(s: bytes): (r: Option<(bytes, nat)>)
    ensures r.Some? ==> 1 <= r.value.1 <= |s| && |r.value.0| < r.value.1
  {
    match ReadVarint(s, TAG_BYTES)
    case None => None
    case Some((len, n)) =>
      if len > MAX_LEN || n + len > |s| then None else Some((s[n..n + len], n + len))
  }

  /**
   Reads the next record and its total length. The result is None on malformed input and
   where the parsers stop early (tag 0 or an end-group tag), since both a nested and a
   top-level parse then report failure.
   */
  function ReadField(s: bytes): (r: Option<(Field, nat)>)
    ensures r.Some? ==> 1 <= r.value.1 <= |s|
    decreases |s|, 0
  {
    match ReadTag(s)
    case None => None
    case Some((tag, n)) =>
      if tag / 8 == 0 then None
      else ReadBody(tag / 8, tag % 8, n, s)
  }

  /** The record body after an `n`-byte tag with this field number and wire type. */
  function ReadBody(number: nat, wireType: nat, n: nat, s: bytes): (r: Option<(Field, nat)>)
    requires 1 <= n <= |s|
    ensures r.Some? ==> 1 <= r.value.1 <= |s|
    decreases |s| - n, 2
  {
    var rest := s[n..];
    if wireType == WT_VARINT then
      match ReadVarint(rest, VARINT_BYTES)
      case None => None
      case Some((v, k)) => Some((Varint(number, v % TWO64), n + k))
    else if wireType == WT_FIXED64 then
      if |rest| < 8 then None
      else Some((Fixed64(number, ReadFixed64(rest[..8])), n + 8))
    else if wireType == WT_LEN then
      match ReadLen(rest)
      case None => None
      case Some((payload, k)) => Some((Len(number, payload), n + k))
    else if wireType == WT_START_GROUP then
      match SkipGroup(rest, number)
      case None => None
      case Some(k) => Some((Opaque(number), n + k))
    else if wireType == WT_FIXED32 then
      if |rest| < 4 then None else Some((Opaque(number), n + 4))
    else None
  }

  function ReadFixed64(s: bytes): uint64
    requires |s| == 8
  {
    ReadFixedBound(s);
    Pow256Of8();
    ReadFixed(s)
  }

  /** Skips records up to and including the end-group tag that closes group `number`. */
  function SkipGroup(s: bytes, number: nat): (r: Option<nat>)
    ensures r.Some? ==> 1 <= r.value <= |s|
    decreases |s|, 1
  {
    match ReadTag(s)
    case None => None
    case Some((tag, n)) =>
      if tag % 8 == WT_END_GROUP then
        if tag / 8 == number then Some(n) else None
      else
        match ReadField(s)
        case None => None
        case Some((_, k)) =>
          match SkipGroup(s[k..], number)
          case None => None
          case Some(j) => Some(k + j)
  }

  function WriteTag(number: nat, wireType: nat): (r: bytes) { WriteVarint(Tag(number, wireType)) }

  function WriteField(f: Field): (r: bytes)
    requires !f.Opaque?
  {
    match f
    case Varint(number, v) => WriteTag(number, WT_VARINT) + WriteVarint(v)
    case Fixed64(number, v) => WriteTag(number, WT_FIXED64) + WriteFixed(v, 8)
    case Len(number, payload) => WriteTag(number, WT_LEN) + WriteVarint(|payload|) + payload
  }

  predicate Writable(f: Field) {
    !f.Opaque? && 1 <= f.number <= MAX_FIELD_NUMBER && (f.Len? ==> |f.payload| <= MAX_LEN)
  }

  lemma TagRoundTrip(number: nat, wireType: nat, rest: bytes)
    requires 1 <= number <= MAX_FIELD_NUMBER && wireType < 8
    ensures ReadTag(WriteTag(number, wireType) + rest)
         == Some((Tag(number, wireType), |WriteTag(number, wireType)|))
    ensures Tag(number, wireType) / 8 == number && Tag(number, wireType) % 8 == wireType
  {
    Pow128Values();
    VarintRoundTrip(Tag(number, wireType), TAG_BYTES, rest);
  }

  lemma LenRoundTrip(payload: bytes, rest: bytes)
    requires |payload| <= MAX_LEN
    ensures ReadLen(WriteVarint(|payload|) + payload + rest)
         == Some((payload, |WriteVarint(|payload|)| + |payload|))
  {
    Pow128Values();
    var w := WriteVarint(|payload|);
    VarintRoundTrip(|payload|, TAG_BYTES, payload + rest);
    assert w + payload + rest == w + (payload + rest);
    assert (w + payload + rest)[|w|..|w| + |payload|] == payload;
  }

  lemma VarintFieldRoundTrip(number: nat, v: uint64, rest: bytes)
    requires 1 <= number <= MAX_FIELD_NUMBER
    ensures var f := Varint(number, v); ReadField(WriteField(f) + rest) == Some((f, |WriteField(f)|))
  {
    Pow128Values();
    var t, body := WriteTag(number, WT_VARINT), WriteVarint(v) + rest;
    assert WriteField(Varint(number, v)) + rest == t + body;
    TagRoundTrip(number, WT_VARINT, body);
    VarintRoundTrip(v, VARINT_BYTES, rest);
    assert (t + body)[|t|..] == body;
  }

  lemma FixedFieldRoundTrip(number: nat, v: uint64, rest: bytes)
    requires 1 <= number <= MAX_FIELD_NUMBER
    ensures var f := Fixed64(number, v); ReadField(WriteField(f) + rest) == Some((f, |WriteField(f)|))
  {
    var t, body := WriteTag(number, WT_FIXED64), WriteFixed(v, 8) + rest;
    assert WriteField(Fixed64(number, v)) + rest == t + body;
    TagRoundTrip(number, WT_FIXED64, body);
    Pow256Of8();
    FixedRoundTrip(v, 8);
    assert (t + body)[|t|..] == body;
    assert body[..8] == WriteFixed(v, 8);
  }

  lemma LenFieldRoundTrip(number: nat, payload: bytes, rest: bytes)
    requires 1 <= number <= MAX_FIELD_NUMBER && |payload| <= MAX_LEN
    ensures var f := Len(number, payload); ReadField(WriteField(f) + rest) == Some((f, |WriteField(f)|))
  {
    var t, body := WriteTag(number, WT_LEN), WriteVarint(|payload|) + payload + rest;
    assert WriteField(Len(number, payload)) + rest == t + body;
    TagRoundTrip(number, WT_LEN, body);
    LenRoundTrip(payload, rest);
    assert (t + body)[|t|..] == body;
  }

  /** Every record that can be written is read back whole, whatever follows it. */
  lemma FieldRoundTrip(f: Field, rest: bytes)
    requires Writable(f)
    ensures ReadField(WriteField(f) + rest) == Some((f, |WriteField(f)|))
  {
    match f
    case Varint(number, v) => VarintFieldRoundTrip(number, v, rest);
    case Fixed64(number, v) => FixedFieldRoundTrip(number, v, rest);
    case Len(number, payload) => LenFieldRoundTrip(number, payload, rest);
  }

  // ---------------------------------------------------------------- reading is prefix-stable

  lemma ReadTagPrefix(x: bytes, y: bytes)
    requires ReadTag(x).Some?
    ensures ReadTag(x + y) == ReadTag(x)
  {
    ReadVarintPrefix(x, y, TAG_BYTES);
  }

  lemma ReadLenPrefix(x: bytes, y: bytes)
    requires ReadLen(x).Some?
    ensures ReadLen(x + y) == ReadLen(x)
  {
    ReadVarintPrefix(x, y, TAG_BYTES);
    var (len, n) := ReadVarint(x, TAG_BYTES).value;
    assert (x + y)[n..n + len] == x[n..n + len];
  }

  /** A record that reads from `x` reads identically from any extension of `x`. */
  lemma {:induction false} ReadFieldPrefix(x: bytes, y: bytes)
    requires ReadField(x).Some?
    ensures ReadField(x + y) == ReadField(x)
    decreases |x|, 0
  {
    ReadTagPrefix(x, y);
    var (tag, n) := ReadTag(x).value;
    assert (x + y)[n..] == x[n..] + y;
    var wireType := tag % 8;
    if wireType == WT_VARINT {
      ReadVarintPrefix(x[n..], y, VARINT_BYTES);
    } else if wireType == WT_FIXED64 {
      assert (x + y)[n..][..8] == x[n..][..8];
    } else if wireType == WT_LEN {
      ReadLenPrefix(x[n..], y);
    } else if wireType == WT_START_GROUP {
      SkipGroupPrefix(x[n..], y, tag / 8);
    }
  }

  lemma {:induction false} SkipGroupPrefix(x: bytes, y: bytes, number: nat)
    requires SkipGroup(x, number).Some?
    ensures SkipGroup(x + y, number) == SkipGroup(x, number)
    decreases |x|, 1
  {
    hide ReadVarint;
    ReadTagPrefix(x, y);
    var (tag, n) := ReadTag(x).value;
    if tag % 8 != WT_END_GROUP {
      ReadFieldPrefix(x, y);
      var k := ReadField(x).value.1;
      assert (x + y)[k..] == x[k..] + y;
      SkipGroupPrefix(x[k..], y, number);
    }
  }
}
