/** The messages of flat.proto as schemas, and the tag constants of their generated parsers. */
module FlatProto {
  import opened Wire
  import opened Schema
  import opened ParseSteps

  /** Every message of flat.proto numbers its fields 1, 2, 3, ... in declaration order. */
  function Numbered(kinds: seq<Kind>): (sc: Schema)
    ensures |sc.fields| == |kinds|
    ensures forall i :: 0 <= i < |kinds| ==> sc.fields[i] == FieldSpec(i + 1, kinds[i])
  {
    Schema(seq(|kinds|, i requires 0 <= i < |kinds| => FieldSpec(i + 1, kinds[i])))
  }

  const MIRROR_ARGS := Numbered([Int32, Int32])
  const CHUNK_OPTIONS := Numbered([Int32, Sub(MIRROR_ARGS), Bytes])
  const REPLICA_LOCATION := Numbered([Bytes, Int32, UInt32])
  const ACCELERATE_OPEN_OPTIONS := Numbered([Sub(CHUNK_OPTIONS), Rep(REPLICA_LOCATION), UInt32, UInt32])
  const FIXED_UUID_INFO := Numbered([Fixed, Fixed])
  const IO_NICE := Numbered([Int32, Int32])
  const CHOOSE_DISK_SINGLE := Numbered([UInt32, UInt32, UInt64])
  const CHOOSE_DISK := Numbered([Rep(CHOOSE_DISK_SINGLE), Int32, Int32])
  const UUID_INFO := Numbered([UInt64, UInt64])
  const CHUNK_OR_STREAM_ID := Numbered([Sub(UUID_INFO), UInt32, UInt32])
  const QOS_OPTIONS := Numbered([UInt32, UInt32, Int32, UInt32, Int32])
  const FLUSH_CHECKSUM := Numbered([UInt32, Int64])
  const ROOT_SERVER_ID := Numbered([Sub(UUID_INFO), Int64])
  const CHUNK_ID_TYPE := Numbered([UInt64, UInt32, UInt32])
  const TRACE_SPAN := Numbered([UInt64, UInt64, UInt64])

  const FLUSH_REQUEST_KINDS: seq<Kind> := [
    Sub(CHUNK_ID_TYPE), UInt32, UInt32, UInt32, Bytes, UInt32, Bool, Bool, Sub(IO_NICE),
    Sub(ACCELERATE_OPEN_OPTIONS), Int32, Int64, Bool, Sub(TRACE_SPAN), Bool, Sub(CHOOSE_DISK),
    Sub(CHUNK_OR_STREAM_ID), Sub(QOS_OPTIONS), Sub(FLUSH_CHECKSUM), Sub(UUID_INFO), UInt32, Bytes,
    UInt32, UInt64, Bytes, Sub(ROOT_SERVER_ID), UInt32, Int32, UInt64, UInt32, UInt32, UInt64, Int32]

  const FLUSH_REQUEST := Numbered(FLUSH_REQUEST_KINDS)

  const FLUSH_RESPONSE := Numbered([Int32, UInt32, UInt32, UInt32, UInt32, Bytes, Int64, UInt32,
                                    UInt32, UInt64, Int64, UInt64, Int32])

  lemma NumberedValid(kinds: seq<Kind>)
    requires |kinds| <= MAX_FIELD_NUMBER
    requires forall i :: 0 <= i < |kinds| ==> ValidKind(kinds[i])
    ensures Valid(Numbered(kinds))
  {
  }

  /** So every law of SchemaLaws applies to every message of flat.proto. */
  lemma FlatSchemasValid()
    ensures Valid(MIRROR_ARGS) && Valid(CHUNK_OPTIONS) && Valid(REPLICA_LOCATION)
    ensures Valid(ACCELERATE_OPEN_OPTIONS) && Valid(FIXED_UUID_INFO) && Valid(IO_NICE)
    ensures Valid(CHOOSE_DISK_SINGLE) && Valid(CHOOSE_DISK) && Valid(UUID_INFO)
    ensures Valid(CHUNK_OR_STREAM_ID) && Valid(QOS_OPTIONS) && Valid(FLUSH_CHECKSUM)
    ensures Valid(ROOT_SERVER_ID) && Valid(CHUNK_ID_TYPE) && Valid(TRACE_SPAN)
    ensures Valid(FLUSH_REQUEST) && Valid(FLUSH_RESPONSE)
  {
    hide Valid;
    NumberedValid([Int32, Int32]);
    NumberedValid([Int32, Sub(MIRROR_ARGS), Bytes]);
    NumberedValid([Bytes, Int32, UInt32]);
    NumberedValid([Sub(CHUNK_OPTIONS), Rep(REPLICA_LOCATION), UInt32, UInt32]);
    NumberedValid([Fixed, Fixed]);
    NumberedValid([UInt32, UInt32, UInt64]);
    NumberedValid([Rep(CHOOSE_DISK_SINGLE), Int32, Int32]);
    NumberedValid([UInt64, UInt64]);
    NumberedValid([Sub(UUID_INFO), UInt32, UInt32]);
    NumberedValid([UInt32, UInt32, Int32, UInt32, Int32]);
    NumberedValid([UInt32, Int64]);
    NumberedValid([Sub(UUID_INFO), Int64]);
    NumberedValid([UInt64, UInt32, UInt32]);
    NumberedValid([UInt64, UInt64, UInt64]);
    NumberedValid(FLUSH_REQUEST_KINDS);
    NumberedValid([Int32, UInt32, UInt32, UInt32, UInt32, Bytes, Int64, UInt32, UInt32, UInt64, Int64, UInt64, Int32]);
  }

  // Serialization, size and merge of messages with two, three and four fields, spelled out.

  lemma EncodeTwo(k0: Kind, k1: Kind, a: seq<Cell>)
    requires |a| == 2
    ensures Encode(Numbered([k0, k1]), Msg(a))
         == EncodeCell(1, k0, a[0]) + EncodeCell(2, k1, a[1])
  {
    var sc, m := Numbered([k0, k1]), Msg(a);
    assert EncodeFrom(sc, m, 1) == EncodeCell(2, k1, a[1]) + EncodeFrom(sc, m, 2);
  }

  lemma SizeTwo(k0: Kind, k1: Kind, a: seq<Cell>)
    requires |a| == 2
    ensures ByteSize(Numbered([k0, k1]), Msg(a))
         == CellSize(1, k0, a[0]) + CellSize(2, k1, a[1])
  {
    var sc, m := Numbered([k0, k1]), Msg(a);
    assert ByteSizeFrom(sc, m, 1) == CellSize(2, k1, a[1]) + ByteSizeFrom(sc, m, 2);
  }

  lemma MergeTwo(k0: Kind, k1: Kind, a: seq<Cell>, b: seq<Cell>)
    requires |a| == 2 && |b| == 2
    ensures Merge(Numbered([k0, k1]), Msg(a), Msg(b))
         == Msg([MergeCell(k0, a[0], b[0]), MergeCell(k1, a[1], b[1])])
  {
  }

  lemma EncodeThree(k0: Kind, k1: Kind, k2: Kind, a: seq<Cell>)
    requires |a| == 3
    ensures Encode(Numbered([k0, k1, k2]), Msg(a))
         == EncodeCell(1, k0, a[0]) + EncodeCell(2, k1, a[1]) + EncodeCell(3, k2, a[2])
  {
    hide EncodeCell;
    var sc, m := Numbered([k0, k1, k2]), Msg(a);
    assert EncodeFrom(sc, m, 2) == EncodeCell(3, k2, a[2]) + EncodeFrom(sc, m, 3);
    assert EncodeFrom(sc, m, 1) == EncodeCell(2, k1, a[1]) + EncodeFrom(sc, m, 2);
  }

  lemma SizeThree(k0: Kind, k1: Kind, k2: Kind, a: seq<Cell>)
    requires |a| == 3
    ensures ByteSize(Numbered([k0, k1, k2]), Msg(a))
         == CellSize(1, k0, a[0]) + CellSize(2, k1, a[1]) + CellSize(3, k2, a[2])
  {
    var sc, m := Numbered([k0, k1, k2]), Msg(a);
    assert ByteSizeFrom(sc, m, 2) == CellSize(3, k2, a[2]) + ByteSizeFrom(sc, m, 3);
    assert ByteSizeFrom(sc, m, 1) == CellSize(2, k1, a[1]) + ByteSizeFrom(sc, m, 2);
  }

  lemma MergeThree(k0: Kind, k1: Kind, k2: Kind, a: seq<Cell>, b: seq<Cell>)
    requires |a| == 3 && |b| == 3
    ensures Merge(Numbered([k0, k1, k2]), Msg(a), Msg(b))
         == Msg([MergeCell(k0, a[0], b[0]), MergeCell(k1, a[1], b[1]), MergeCell(k2, a[2], b[2])])
  {
  }

  lemma Concat4(c0: bytes, c1: bytes, c2: bytes, c3: bytes)
    ensures c0 + (c1 + (c2 + (c3 + []))) == c0 + c1 + c2 + c3
  {
  }

  lemma EncodeFour(k0: Kind, k1: Kind, k2: Kind, k3: Kind, a: seq<Cell>)
    requires |a| == 4
    ensures Encode(Numbered([k0, k1, k2, k3]), Msg(a))
         == EncodeCell(1, k0, a[0]) + EncodeCell(2, k1, a[1]) + EncodeCell(3, k2, a[2])
          + EncodeCell(4, k3, a[3])
  {
    var sc, m := Numbered([k0, k1, k2, k3]), Msg(a);
    var c0, c1 := EncodeCell(1, k0, a[0]), EncodeCell(2, k1, a[1]);
    var c2, c3 := EncodeCell(3, k2, a[2]), EncodeCell(4, k3, a[3]);
    assert EncodeFrom(sc, m, 3) == c3 + [];
    assert EncodeFrom(sc, m, 2) == c2 + EncodeFrom(sc, m, 3);
    assert EncodeFrom(sc, m, 1) == c1 + EncodeFrom(sc, m, 2);
    assert EncodeFrom(sc, m, 0) == c0 + EncodeFrom(sc, m, 1);
    Concat4(c0, c1, c2, c3);
  }

  lemma SizeFour(k0: Kind, k1: Kind, k2: Kind, k3: Kind, a: seq<Cell>)
    requires |a| == 4
    ensures ByteSize(Numbered([k0, k1, k2, k3]), Msg(a))
         == CellSize(1, k0, a[0]) + CellSize(2, k1, a[1]) + CellSize(3, k2, a[2]) + CellSize(4, k3, a[3])
  {
    var sc, m := Numbered([k0, k1, k2, k3]), Msg(a);
    assert ByteSizeFrom(sc, m, 3) == CellSize(4, k3, a[3]) + ByteSizeFrom(sc, m, 4);
    assert ByteSizeFrom(sc, m, 2) == CellSize(3, k2, a[2]) + ByteSizeFrom(sc, m, 3);
    assert ByteSizeFrom(sc, m, 1) == CellSize(2, k1, a[1]) + ByteSizeFrom(sc, m, 2);
  }

  /** The low tag byte each case of the FlatLogFileFlushChunkRequestPB parser tests for. */
  const FLUSH_REQUEST_TAG_BYTES: seq<byte> := [
    10, 16, 24, 32, 42, 48, 56, 64, 74, 82, 88, 96, 104, 114, 120, 130, 138, 146, 154, 162, 168, 178,
    184, 192, 202, 210, 216, 224, 232, 240, 248, 0, 8]

  /**
   The parser switches on `tag >> 3` and then compares only the low byte of the tag; for all 33
   fields, one-byte and two-byte tags alike, the two tests together accept exactly the field's tag.
   */
  lemma FlushRequestDispatchExact(tag: nat, i: nat)
    requires i < |FLUSH_REQUEST_KINDS|
    ensures |FLUSH_REQUEST_TAG_BYTES| == |FLUSH_REQUEST_KINDS|
    ensures tag / 8 == i + 1 && tag % 256 == FLUSH_REQUEST_TAG_BYTES[i]
       <==> tag == Tag(i + 1, WireType(FLUSH_REQUEST_KINDS[i]))
  {
    TagByte(i);
    var t := Tag(i + 1, WireType(FLUSH_REQUEST_KINDS[i]));
    assert tag / 8 == t / 8 ==> tag / 256 == t / 256;
  }

  lemma TagByte(i: nat)
    requires i < |FLUSH_REQUEST_KINDS|
    ensures |FLUSH_REQUEST_TAG_BYTES| == |FLUSH_REQUEST_KINDS|
    ensures FLUSH_REQUEST_TAG_BYTES[i] == Tag(i + 1, WireType(FLUSH_REQUEST_KINDS[i])) % 256
  {
    if i < 11 { TagByteLow(i); } else if i < 22 { TagByteMid(i); } else { TagByteHigh(i); }
  }

  lemma TagByteLow(i: nat)
    requires i < 11
    ensures FLUSH_REQUEST_TAG_BYTES[i] == Tag(i + 1, WireType(FLUSH_REQUEST_KINDS[i])) % 256
  {
  }

  lemma TagByteMid(i: nat)
    requires 11 <= i < 22
    ensures FLUSH_REQUEST_TAG_BYTES[i] == Tag(i + 1, WireType(FLUSH_REQUEST_KINDS[i])) % 256
  {
  }

  lemma TagByteHigh(i: nat)
    requires 22 <= i < 33
    ensures FLUSH_REQUEST_TAG_BYTES[i] == Tag(i + 1, WireType(FLUSH_REQUEST_KINDS[i])) % 256
  {
  }

  /** The size calculators charge one byte for the tags of fields 1 to 15 and two from 16 on. */
  lemma TagSizeConstants(number: nat)
    requires 1 <= number <= 2047
    ensures TagSize(number) == if number < 16 then 1 else 2
  {
    if number >= 16 { assert VarintSize(number * 8 / 128) == 1; }
  }
}
