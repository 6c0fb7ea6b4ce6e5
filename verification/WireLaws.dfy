/**
 What the bytes of the wire format are: the little-endian sums behind varints and fixed-width values,
 the limits of tags and lengths, and the records that are skipped.
 */
module WireLaws {
  import opened Wire

  // ---------------------------------------------------------------- varints

  /** The sum of the low seven bits of the first `n` bytes, each times its power of 128. */
  function Sum128(s: bytes, n: nat): nat
    requires n <= |s|
  {
    if n == 0 then 0 else Sum128(s, n - 1) + s[n - 1] % 128 * Pow128(n - 1)
  }

  lemma Shift128(d: nat, n: nat)
    ensures d * Pow128(n + 1) == 128 * (d * Pow128(n))
  {
  }

  lemma {:induction false} Sum128Horner(s: bytes, n: nat)
    requires 1 <= n <= |s|
    ensures Sum128(s, n) == s[0] % 128 + 128 * Sum128(s[1..], n - 1)
  {
    if n > 1 {
      Sum128Horner(s, n - 1);
      Shift128(s[n - 1] % 128, n - 2);
    }
  }

  lemma LowDigit(v: nat)
    ensures (v % 128 + 128) % 128 == v % 128 && v == v % 128 + 128 * (v / 128)
  {
  }

  /** The bytes before `k` say that more follow, byte `k` that it is the last. */
  predicate StopsAt(s: bytes, k: nat) { k < |s| && s[k] < 128 && forall j :: 0 <= j < k ==> s[j] >= 128 }

  /** A value is written as its digits to base 128, the lowest first, with the high bit on all but the last. */
  lemma {:induction false} VarintBytes(v: nat)
    ensures var r := WriteVarint(v);
      StopsAt(r, |r| - 1) && Sum128(r, |r|) == v && (|r| > 1 ==> r[|r| - 1] != 0)
  {
    var r := WriteVarint(v);
    if v >= 128 {
      hide Sum128, Pow128;
      VarintBytes(v / 128);
      assert r[1..] == WriteVarint(v / 128);
      Sum128Horner(r, |r|);
      LowDigit(v);
      assert forall j :: 1 <= j < |r| ==> r[j] == r[1..][j - 1];
    } else {
      assert Sum128(r, 1) == Sum128(r, 0) + r[0] % 128 * Pow128(0);
    }
  }

  /** What is read from any bytes: the sum up to the first byte without the high bit, if it is within the budget. */
  lemma {:induction false} ReadVarintIs(s: bytes, budget: nat, k: nat)
    requires StopsAt(s, k)
    ensures ReadVarint(s, budget) == if k < budget then Some((Sum128(s, k + 1), k + 1)) else None
  {
    if budget > 0 {
      Sum128Horner(s, k + 1);
      if k > 0 {
        hide Sum128, Pow128;
        assert forall j :: 0 <= j < k ==> s[1..][j] == s[j + 1];
        ReadVarintIs(s[1..], budget - 1, k - 1);
      }
    }
  }

  /** Without such a byte nothing is read. */
  lemma {:induction false} ReadVarintNone(s: bytes, budget: nat)
    requires forall j :: 0 <= j < |s| ==> s[j] >= 128
    ensures ReadVarint(s, budget) == None
  {
    if s != [] && budget > 0 { ReadVarintNone(s[1..], budget - 1); }
  }

  // ---------------------------------------------------------------- fixed-width values

  function Sum256(s: bytes, n: nat): nat
    requires n <= |s|
  {
    if n == 0 then 0 else Sum256(s, n - 1) + s[n - 1] * Pow256(n - 1)
  }

  lemma Shift256(d: nat, n: nat)
    ensures d * Pow256(n + 1) == 256 * (d * Pow256(n))
  {
  }

  lemma {:induction false} Sum256Horner(s: bytes, n: nat)
    requires 1 <= n <= |s|
    ensures Sum256(s, n) == s[0] + 256 * Sum256(s[1..], n - 1)
  {
    if n > 1 {
      Sum256Horner(s, n - 1);
      Shift256(s[n - 1], n - 2);
    }
  }

  /** Reading a fixed-width value is the little-endian sum of its bytes. */
  lemma {:induction false} ReadFixedIs(s: bytes)
    ensures ReadFixed(s) == Sum256(s, |s|)
  {
    if s != [] {
      ReadFixedIs(s[1..]);
      Sum256Horner(s, |s|);
    }
  }

  /** Writing one gives bytes whose sum is the value. */
  lemma FixedBytes(v: nat, width: nat)
    requires v < Pow256(width)
    ensures |WriteFixed(v, width)| == width && Sum256(WriteFixed(v, width), width) == v
  {
    FixedRoundTrip(v, width);
    ReadFixedIs(WriteFixed(v, width));
  }

  // ---------------------------------------------------------------- tags, lengths and record bodies

  /** A tag has at most five bytes and counts modulo 2^32; field number and wire type are its parts. */
  lemma ReadTagIs(s: bytes, k: nat)
    requires StopsAt(s, k)
    ensures ReadTag(s) == if k < 5 then Some((Sum128(s, k + 1) % 0x1_0000_0000, k + 1)) else None
  {
    ReadVarintIs(s, TAG_BYTES, k);
  }

  /** A length has at most five bytes, is at most 2147483631, and its payload must be there. */
  lemma ReadLenIs(s: bytes, k: nat)
    requires StopsAt(s, k)
    ensures var len := Sum128(s, k + 1);
      ReadLen(s) == if k < 5 && len <= 2147483631 && k + 1 + len <= |s| then Some((s[k + 1..k + 1 + len], k + 1 + len))
                    else None
  {
    ReadVarintIs(s, TAG_BYTES, k);
  }

  /** The record after a tag of `n` bytes, by its wire type. */
  lemma VarintBodyIs(number: nat, n: nat, s: bytes, k: nat)
    requires 1 <= n <= |s| && StopsAt(s[n..], k)
    ensures ReadBody(number, 0, n, s)
         == if k < 10 then Some((Varint(number, Sum128(s[n..], k + 1) % 0x1_0000_0000_0000_0000), n + k + 1)) else None
  {
    ReadVarintIs(s[n..], VARINT_BYTES, k);
  }

  lemma Fixed64BodyIs(number: nat, n: nat, s: bytes)
    requires 1 <= n <= |s|
    ensures |s| < n + 8 ==> ReadBody(number, 1, n, s) == None
    ensures |s| >= n + 8 ==>
      && Sum256(s[n..n + 8], 8) < TWO64
      && ReadBody(number, 1, n, s) == Some((Fixed64(number, Sum256(s[n..n + 8], 8)), n + 8))
  {
    if |s| >= n + 8 {
      assert s[n..][..8] == s[n..n + 8];
      ReadFixedIs(s[n..n + 8]);
      ReadFixedBound(s[n..n + 8]);
      Pow256Of8();
    }
  }

  /** A 32-bit value is four bytes that are skipped; wire types 4, 6 and 7 are refused. */
  lemma OtherBodiesAre(number: nat, n: nat, s: bytes)
    requires 1 <= n <= |s|
    ensures ReadBody(number, 5, n, s) == if |s| >= n + 4 then Some((Opaque(number), n + 4)) else None
    ensures ReadBody(number, 4, n, s) == ReadBody(number, 6, n, s) == ReadBody(number, 7, n, s) == None
  {
  }

  // ---------------------------------------------------------------- groups

  /** A record as a writer of the format may produce it, groups nested to any depth. */
  datatype Item = Plain(f: Field) | Word32(number: nat, word: bytes) | Group(number: nat, items: seq<Item>)

  predicate WritableItem(it: Item) {
    match it
    case Plain(f) => Writable(f)
    case Word32(number, word) => 1 <= number <= MAX_FIELD_NUMBER && |word| == 4
    case Group(number, items) => 1 <= number <= MAX_FIELD_NUMBER && forall x :: x in items ==> WritableItem(x)
  }

  function WriteItem(it: Item): bytes
    requires WritableItem(it)
    decreases it, 0
  {
    match it
    case Plain(f) => WriteField(f)
    case Word32(number, word) => WriteVarint(number * 8 + 5) + word
    case Group(number, items) => WriteVarint(number * 8 + 3) + WriteItems(items) + WriteVarint(number * 8 + 4)
  }

  function WriteItems(items: seq<Item>): bytes
    requires forall x :: x in items ==> WritableItem(x)
    decreases items, 1
  {
    if items == [] then [] else WriteItem(items[0]) + WriteItems(items[1..])
  }

  lemma TagOf(number: nat, wireType: nat, rest: bytes)
    requires 1 <= number <= MAX_FIELD_NUMBER && wireType < 8
    ensures var t := WriteVarint(number * 8 + wireType);
      && ReadTag(t + rest) == Some((number * 8 + wireType, |t|)) && (t + rest)[|t|..] == rest
      && (number * 8 + wireType) / 8 == number && (number * 8 + wireType) % 8 == wireType
  {
    TagRoundTrip(number, wireType, rest);
  }

  /** Every record is read as one, whole, whatever follows it; its tag is its own. */
  lemma {:induction false} ItemRead(it: Item, rest: bytes)
    requires WritableItem(it)
    ensures var w := WriteItem(it);
      var r := ReadField(w + rest);
      && r.Some? && r.value.1 == |w| && r.value.0 == (if it.Plain? then it.f else Opaque(it.number))
      && ReadTag(w + rest).Some? && ReadTag(w + rest).value.0 % 8 != 4
    decreases it, 0
  {
    hide ReadTag, SkipGroup, WriteVarint, WriteItems;
    match it
    case Plain(f) =>
      FieldRoundTrip(f, rest);
      PlainTag(f, rest);
    case Word32(number, word) =>
      TagOf(number, 5, word + rest);
      assert WriteItem(it) + rest == WriteVarint(number * 8 + 5) + (word + rest);
    case Group(number, items) =>
      var body := WriteItems(items) + WriteVarint(number * 8 + 4) + rest;
      TagOf(number, 3, body);
      assert WriteItem(it) + rest == WriteVarint(number * 8 + 3) + body;
      GroupSkipped(items, number, number, rest);
  }

  lemma PlainTag(f: Field, rest: bytes)
    requires Writable(f)
    ensures ReadTag(WriteField(f) + rest).Some? && ReadTag(WriteField(f) + rest).value.0 % 8 != 4
  {
    hide WriteVarint, WriteFixed, WriteTag, ReadTag;
    match f
    case Varint(number, v) =>
      assert WriteField(f) + rest == WriteTag(number, WT_VARINT) + (WriteVarint(v) + rest);
      TagRoundTrip(number, WT_VARINT, WriteVarint(v) + rest);
    case Fixed64(number, v) =>
      assert WriteField(f) + rest == WriteTag(number, WT_FIXED64) + (WriteFixed(v, 8) + rest);
      TagRoundTrip(number, WT_FIXED64, WriteFixed(v, 8) + rest);
    case Len(number, payload) =>
      assert WriteField(f) + rest == WriteTag(number, WT_LEN) + (WriteVarint(|payload|) + payload + rest);
      TagRoundTrip(number, WT_LEN, WriteVarint(|payload|) + payload + rest);
  }

  /** A group is skipped up to its own end tag; an end tag of another number is refused. */
  lemma {:induction false} GroupSkipped(items: seq<Item>, number: nat, end: nat, rest: bytes)
    requires (forall x :: x in items ==> WritableItem(x)) && 1 <= end <= MAX_FIELD_NUMBER
    ensures var w := WriteItems(items) + WriteVarint(end * 8 + 4);
      SkipGroup(w + rest, number) == if end == number then Some(|w|) else None
    decreases items, 1
  {
    hide ReadTag, ReadField, WriteVarint, WriteItem;
    var t := WriteVarint(end * 8 + 4);
    if items == [] {
      assert WriteItems(items) + t + rest == t + rest;
      TagOf(end, 4, rest);
    } else {
      var first, more := WriteItem(items[0]), WriteItems(items[1..]) + t;
      assert WriteItems(items) + t + rest == first + (more + rest);
      ItemRead(items[0], more + rest);
      assert (first + (more + rest))[|first|..] == more + rest;
      GroupSkipped(items[1..], number, end, rest);
    }
  }
}
