/**
 What the generated message classes share: cells for has-bits, the readers behind a field's tag,
 and the writers of scalar, bytes and submessage fields. The readers advance the input the way the
 runtime advances `ptr`, and say what is left to parse afterwards.
 */
module MessageReaders {
  import opened Wire
  import opened Schema
  import opened ParseSteps

  type int32 = x: int | -0x8000_0000 <= x < 0x8000_0000
  type uint32 = x: int | 0 <= x < TWO32

  function NumCell(has: bool, v: int): Cell { if has then Num(v) else Absent }

  function BlobCell(has: bool, b: bytes): Cell { if has then Blob(b) else Absent }

  /** `ReadVarint32` or `ReadVarint64` behind the tag of a varint field. */
  method ReadScalar(ghost sc: Schema, ghost m: Msg, ghost i: nat, ghost number: nat, k: Kind, rest: bytes, n: nat)
      returns (ok: bool, v: int, rest': bytes)
    requires DeclaredAt(sc, i, number, k) && IsVarintKind(k) && i < |m.cells| && number >= 1
    requires rest != [] && ReadTag(rest) == Some((Tag(number, WT_VARINT), n))
    ensures InRange(k, v)
    ensures ok ==> |rest'| < |rest|
    ensures ok ==> Parse(sc, m, rest) == Parse(sc, Msg(m.cells[i := Num(v)]), rest')
    ensures !ok ==> Parse(sc, m, rest) == None
  {
    hide ReadVarint;
    VarintStep(sc, m, i, number, k, rest, n);
    var r := ReadVarint(rest[n..], VARINT_BYTES);
    if r.None? {
      return false, 0, rest;
    }
    return true, FromWire(k, r.value.0 % TWO64), rest[n + r.value.1..];
  }

  /** `InlineGreedyStringParser` behind the tag of a bytes field. */
  method ReadBytes(ghost sc: Schema, ghost m: Msg, ghost i: nat, ghost number: nat, rest: bytes, n: nat)
      returns (ok: bool, b: bytes, rest': bytes)
    requires DeclaredAt(sc, i, number, Bytes) && i < |m.cells| && number >= 1
    requires rest != [] && ReadTag(rest) == Some((Tag(number, WT_LEN), n))
    ensures ok ==> |rest'| < |rest|
    ensures ok ==> Parse(sc, m, rest) == Parse(sc, Msg(m.cells[i := Blob(b)]), rest')
    ensures !ok ==> Parse(sc, m, rest) == None
  {
    hide ReadVarint;
    BytesStep(sc, m, i, number, rest, n);
    var r := ReadLen(rest[n..]);
    if r.None? {
      return false, [], rest;
    }
    return true, r.value.0, rest[n + r.value.1..];
  }

  /** The result of a message once the parse of a payload for its cell `i` has come to `p`. */
  function AfterSub(sc: Schema, m: Msg, i: nat, p: Option<Msg>, rest: bytes): (r: Option<Msg>)
    requires i < |m.cells|
  {
    if p.None? then None else Parse(sc, Msg(m.cells[i := One(p.value)]), rest)
  }

  function AfterElement(sc: Schema, m: Msg, i: nat, p: Option<Msg>, rest: bytes): (r: Option<Msg>)
    requires i < |m.cells|
  {
    if p.None? then None
    else Parse(sc, Msg(m.cells[i := Many(Elements(m.cells[i]) + [p.value])]), rest)
  }

  /** The payload `ParseMessage` hands to a submessage. */
  method ReadSub(ghost sc: Schema, ghost m: Msg, ghost i: nat, ghost number: nat, ghost sub: Schema,
                 rest: bytes, n: nat)
      returns (ok: bool, payload: bytes, rest': bytes)
    requires DeclaredAt(sc, i, number, Sub(sub)) && i < |m.cells| && number >= 1
    requires rest != [] && ReadTag(rest) == Some((Tag(number, WT_LEN), n))
    ensures |rest'| <= |rest| && (ok ==> |rest'| < |rest|)
    ensures ok ==>
      Parse(sc, m, rest) == AfterSub(sc, m, i, Parse(sub, Existing(sub, m.cells[i]), payload), rest')
    ensures !ok ==> Parse(sc, m, rest) == None
  {
    SubStep(sc, m, i, number, sub, rest, n);
    var r := ReadLen(rest[n..]);
    if r.None? {
      return false, [], rest;
    }
    return true, r.value.0, rest[n + r.value.1..];
  }

  /** The payload `ParseMessage` hands to a new element of a repeated field. */
  method ReadElement(ghost sc: Schema, ghost m: Msg, ghost i: nat, ghost number: nat, ghost sub: Schema,
                     ghost rest: bytes, ghost n: nat, body: bytes)
      returns (ok: bool, payload: bytes, body': bytes)
    requires DeclaredAt(sc, i, number, Rep(sub)) && i < |m.cells| && number >= 1
    requires rest != [] && ReadTag(rest) == Some((Tag(number, WT_LEN), n)) && body == rest[n..]
    ensures |body'| <= |body| && (ok ==> |body'| < |body|)
    ensures ok ==>
      Parse(sc, m, rest) == AfterElement(sc, m, i, Parse(sub, Default(sub), payload), body')
    ensures !ok ==> Parse(sc, m, rest) == None
  {
    hide ReadVarint;
    RepStep(sc, m, i, number, sub, rest, n);
    var r := ReadLen(body);
    if r.None? {
      return false, [], body;
    }
    assert rest[n + r.value.1..] == body[r.value.1..];
    return true, r.value.0, body[r.value.1..];
  }

  /** `handle_unusual`: stops at tag 0 and at end-group tags, otherwise skips the record. */
  method SkipUnusual(ghost sc: Schema, ghost m: Msg, rest: bytes, tag: nat, ghost n: nat)
      returns (ok: bool, rest': bytes)
    requires rest != [] && ReadTag(rest) == Some((tag, n)) && !Declares(sc, tag)
    ensures ok ==> |rest'| < |rest|
    ensures ok ==> Parse(sc, m, rest) == Parse(sc, m, rest')
    ensures !ok ==> Parse(sc, m, rest) == None
  {
    SkipStep(sc, m, rest);
    if tag == 0 || tag % 8 == WT_END_GROUP {
      StopStep(rest);
      return false, rest;
    }
    var r := ReadField(rest);
    if r.None? {
      return false, rest;
    }
    return true, rest[r.value.1..];
  }

  /** `WriteInt32ToArray`, `WriteUInt32ToArray`. */
  function WriteScalar(number: nat, k: Kind, v: int): bytes
    requires InRange(k, v)
  {
    WriteField(ScalarField(number, k, v))
  }

  /** `InternalWriteMessage`: the length prefix is the size the submessage has cached. */
  function WriteMessage(number: nat, cachedSize: nat, body: bytes): bytes {
    WriteTag(number, WT_LEN) + WriteVarint(cachedSize) + body
  }
}
