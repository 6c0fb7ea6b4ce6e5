/** The message classes without submessages: MirrorArgsPB and ReplicaLocationPB. */
module LeafMessages {
  import opened Wire
  import opened Schema
  import opened SchemaLaws
  import opened FlatProto
  import opened ParseSteps
  import opened MessageReaders

  class MirrorArgsPB {
    var hasCopy: bool
    var hasFtt: bool
    var copy: int32
    var ftt: int32
    var cachedSize: nat

    /** A field whose has-bit is off holds its default. */
    ghost predicate Valid()
      reads this
    {
      (!hasCopy ==> copy == 0) && (!hasFtt ==> ftt == 0)
    }

    /** The abstract value once pending has-bits are or-ed in. */
    ghost function Pending(pCopy: bool, pFtt: bool): (m: Msg)
      reads this
    {
      Msg([NumCell(hasCopy || pCopy, copy), NumCell(hasFtt || pFtt, ftt)])
    }

    ghost function Value(): (m: Msg)
      reads this
    {
      Pending(false, false)
    }

    /** No has-bit is set; with `Valid` that is the default message. */
    ghost predicate IsCleared()
      reads this
    {
      !hasCopy && !hasFtt
    }

    lemma ClearedIsDefault()
      requires IsCleared()
      ensures Value() == Default(MIRROR_ARGS)
    {
    }

    constructor ()
      ensures Valid() && IsCleared()
    {
      hasCopy, hasFtt := false, false;
      copy, ftt := 0, 0;
      cachedSize := 0;
    }

    method SetCopy(v: int32)
      requires Valid()
      modifies this
      ensures Valid() && Value() == Msg(old(Value()).cells[0 := Num(v)])
    {
      hasCopy := true;
      copy := v;
      assert Value().cells == old(Value()).cells[0 := Num(v)];
    }

    method ClearCopy()
      requires Valid()
      modifies this
      ensures Valid() && Value() == Msg(old(Value()).cells[0 := Absent])
    {
      copy := 0;
      hasCopy := false;
      assert Value().cells == old(Value()).cells[0 := Absent];
    }

    method SetFtt(v: int32)
      requires Valid()
      modifies this
      ensures Valid() && Value() == Msg(old(Value()).cells[1 := Num(v)])
    {
      hasFtt := true;
      ftt := v;
      assert Value().cells == old(Value()).cells[1 := Num(v)];
    }

    method ClearFtt()
      requires Valid()
      modifies this
      ensures Valid() && Value() == Msg(old(Value()).cells[1 := Absent])
    {
      ftt := 0;
      hasFtt := false;
      assert Value().cells == old(Value()).cells[1 := Absent];
    }

    /** The group test skips the fields when no has-bit is set. */
    method Clear()
      requires Valid()
      modifies this
      ensures Valid() && IsCleared() && Value() == Default(MIRROR_ARGS)
    {
      if hasCopy || hasFtt {
        copy, ftt := 0, 0;
      }
      hasCopy, hasFtt := false, false;
    }

    /** Has-bits seen are or-ed in at the end, on failure too. */
    method InternalParse(s: bytes) returns (ok: bool)
      requires Valid()
      modifies this
      ensures Valid()
      ensures ok == Parse(MIRROR_ARGS, old(Value()), s).Some?
      ensures ok ==> Parse(MIRROR_ARGS, old(Value()), s) == Some(Value())
    {
      MirrorArgsFields();
      var pCopy, pFtt := false, false;
      var rest := s;
      ok := true;
      while ok && rest != []
        invariant !(hasCopy || pCopy) ==> copy == 0
        invariant !(hasFtt || pFtt) ==> ftt == 0
        invariant ok ==> Parse(MIRROR_ARGS, old(Value()), s) == Parse(MIRROR_ARGS, Pending(pCopy, pFtt), rest)
        invariant !ok ==> Parse(MIRROR_ARGS, old(Value()), s) == None
        decreases ok, |rest|
      {
        ghost var m := Pending(pCopy, pFtt);
        var t := ReadTag(rest);
        if t.None? { ok := false; break; }
        var (tag, n) := t.value;
        MirrorArgsCases(tag);
        if Case(tag, 1, 8) {
          pCopy := true;
          ok, copy, rest := ReadScalar(MIRROR_ARGS, m, 0, 1, Int32, rest, n);
          assert Pending(pCopy, pFtt).cells == m.cells[0 := Num(copy)];
        } else if Case(tag, 2, 16) {
          pFtt := true;
          ok, ftt, rest := ReadScalar(MIRROR_ARGS, m, 1, 2, Int32, rest, n);
          assert Pending(pCopy, pFtt).cells == m.cells[1 := Num(ftt)];
        } else {
          ok, rest := SkipUnusual(MIRROR_ARGS, m, rest, tag, n);
        }
      }
      hasCopy, hasFtt := hasCopy || pCopy, hasFtt || pFtt;
    }

    method ByteSizeLong() returns (n: nat)
      modifies this`cachedSize
      ensures n == cachedSize == ByteSize(MIRROR_ARGS, Value())
    {
      SizeTwo(Int32, Int32, Value().cells);
      n := 0;
      if hasCopy || hasFtt {
        if hasCopy { n := n + 1 + ScalarSize(Int32, copy); }
        if hasFtt { n := n + 1 + ScalarSize(Int32, ftt); }
      }
      cachedSize := n;
    }

    method InternalSerialize() returns (target: bytes)
      ensures target == Encode(MIRROR_ARGS, Value())
    {
      EncodeTwo(Int32, Int32, Value().cells);
      target := [];
      if hasCopy { target := target + WriteScalar(1, Int32, copy); }
      if hasFtt { target := target + WriteScalar(2, Int32, ftt); }
    }

    method MergeFrom(from: MirrorArgsPB)
      requires Valid() && from.Valid() && from != this
      modifies this
      ensures Valid() && Value() == Merge(MIRROR_ARGS, old(Value()), from.Value())
    {
      MergeTwo(Int32, Int32, Value().cells, from.Value().cells);
      if from.hasCopy || from.hasFtt {
        if from.hasCopy { copy := from.copy; }
        if from.hasFtt { ftt := from.ftt; }
        hasCopy, hasFtt := hasCopy || from.hasCopy, hasFtt || from.hasFtt;
      }
    }

    method CopyFrom(from: MirrorArgsPB)
      requires Valid() && from.Valid()
      modifies this
      ensures Valid() && Value() == old(from.Value())
    {
      if from == this {
        return;
      }
      Clear();
      MergeFrom(from);
      MirrorArgsTyped(from);
      MergeDefaultLeft(MIRROR_ARGS, from.Value());
    }
  }

  lemma MirrorArgsFields()
    ensures DeclaredAt(MIRROR_ARGS, 0, 1, Int32) && DeclaredAt(MIRROR_ARGS, 1, 2, Int32)
  {
  }

  lemma MirrorArgsCases(tag: nat)
    ensures Case(tag, 1, 8) ==> tag == Tag(1, WT_VARINT)
    ensures Case(tag, 2, 16) ==> tag == Tag(2, WT_VARINT)
    ensures Declares(MIRROR_ARGS, tag) ==> Case(tag, 1, 8) || Case(tag, 2, 16)
  {
  }

  lemma MirrorArgsTyped(m: MirrorArgsPB)
    ensures Typed(MIRROR_ARGS, m.Value())
  {
  }

  class ReplicaLocationPB {
    var hasCslocation: bool
    var hasDisklocation: bool
    var hasDisktype: bool
    var cslocation: bytes
    var disklocation: int32
    var disktype: uint32
    var cachedSize: nat

    ghost predicate ValidPending(pLocation: bool, pType: bool)
      reads this`hasCslocation, this`hasDisklocation, this`hasDisktype
      reads this`cslocation, this`disklocation, this`disktype
    {
      && (!hasCslocation ==> cslocation == [])
      && (!(hasDisklocation || pLocation) ==> disklocation == 0)
      && (!(hasDisktype || pType) ==> disktype == 0)
    }

    ghost predicate Valid()
      reads this`hasCslocation, this`hasDisklocation, this`hasDisktype
      reads this`cslocation, this`disklocation, this`disktype
    {
      ValidPending(false, false)
    }

    ghost function Pending(pLocation: bool, pType: bool): (m: Msg)
      reads this`hasCslocation, this`hasDisklocation, this`hasDisktype
      reads this`cslocation, this`disklocation, this`disktype
    {
      Msg([BlobCell(hasCslocation, cslocation), NumCell(hasDisklocation || pLocation, disklocation),
           NumCell(hasDisktype || pType, disktype)])
    }

    ghost function Value(): (m: Msg)
      reads this`hasCslocation, this`hasDisklocation, this`hasDisktype
      reads this`cslocation, this`disklocation, this`disktype
    {
      Pending(false, false)
    }

    /** What parsing the rest of the input into the present value leads to. */
    ghost function Outcome(pLocation: bool, pType: bool, rest: bytes): (r: Option<Msg>)
      reads this`hasCslocation, this`hasDisklocation, this`hasDisktype
      reads this`cslocation, this`disklocation, this`disktype
    {
      Parse(REPLICA_LOCATION, Pending(pLocation, pType), rest)
    }

    constructor ()
      ensures Valid() && Value() == Default(REPLICA_LOCATION)
    {
      hasCslocation, hasDisklocation, hasDisktype := false, false, false;
      cslocation, disklocation, disktype := [], 0, 0;
      cachedSize := 0;
    }

    method SetCslocation(v: bytes)
      requires Valid()
      modifies this
      ensures Valid() && Value() == Msg(old(Value()).cells[0 := Blob(v)])
    {
      hasCslocation := true;
      cslocation := v;
      assert Value().cells == old(Value()).cells[0 := Blob(v)];
    }

    method ClearCslocation()
      requires Valid()
      modifies this
      ensures Valid() && Value() == Msg(old(Value()).cells[0 := Absent])
    {
      cslocation := [];
      hasCslocation := false;
      assert Value().cells == old(Value()).cells[0 := Absent];
    }

    method SetDisklocation(v: int32)
      requires Valid()
      modifies this
      ensures Valid() && Value() == Msg(old(Value()).cells[1 := Num(v)])
    {
      hasDisklocation := true;
      disklocation := v;
      assert Value().cells == old(Value()).cells[1 := Num(v)];
    }

    method ClearDisklocation()
      requires Valid()
      modifies this
      ensures Valid() && Value() == Msg(old(Value()).cells[1 := Absent])
    {
      disklocation := 0;
      hasDisklocation := false;
      assert Value().cells == old(Value()).cells[1 := Absent];
    }

    method SetDisktype(v: uint32)
      requires Valid()
      modifies this
      ensures Valid() && Value() == Msg(old(Value()).cells[2 := Num(v)])
    {
      hasDisktype := true;
      disktype := v;
      assert Value().cells == old(Value()).cells[2 := Num(v)];
    }

    method ClearDisktype()
      requires Valid()
      modifies this
      ensures Valid() && Value() == Msg(old(Value()).cells[2 := Absent])
    {
      disktype := 0;
      hasDisktype := false;
      assert Value().cells == old(Value()).cells[2 := Absent];
    }

    method Clear()
      requires Valid()
      modifies this
      ensures Valid() && Value() == Default(REPLICA_LOCATION)
    {
      if hasCslocation { cslocation := []; }
      if hasDisklocation || hasDisktype {
        disklocation, disktype := 0, 0;
      }
      hasCslocation, hasDisklocation, hasDisktype := false, false, false;
    }

    method InternalParse(s: bytes) returns (ok: bool)
      requires Valid()
      modifies this
      ensures Valid()
      ensures ok == Parse(REPLICA_LOCATION, old(Value()), s).Some?
      ensures ok ==> Parse(REPLICA_LOCATION, old(Value()), s) == Some(Value())
    {
      var pLocation, pType := false, false;
      var rest := s;
      ok := true;
      while ok && rest != []
        invariant ValidPending(pLocation, pType)
        invariant ok ==> Outcome(pLocation, pType, rest) == old(Outcome(false, false, s))
        invariant !ok ==> old(Outcome(false, false, s)) == None
        decreases ok, |rest|
      {
        ok, rest, pLocation, pType := ParseNext(rest, pLocation, pType);
      }
      hasDisklocation, hasDisktype := hasDisklocation || pLocation, hasDisktype || pType;
    }

    /** One turn of the parse loop. */
    method ParseNext(rest: bytes, pLocation: bool, pType: bool)
        returns (ok: bool, rest': bytes, pLocation': bool, pType': bool)
      requires rest != [] && ValidPending(pLocation, pType)
      modifies this
      ensures ValidPending(pLocation', pType')
      ensures ok ==> |rest'| < |rest|
      ensures ok ==> Outcome(pLocation', pType', rest') == old(Outcome(pLocation, pType, rest))
      ensures !ok ==> old(Outcome(pLocation, pType, rest)) == None
    {
      hide ReadTag;
      ghost var m := Pending(pLocation, pType);
      pLocation', pType' := pLocation, pType;
      var t := ReadTag(rest);
      if t.None? { return false, rest, pLocation, pType; }
      var (tag, n) := t.value;
      ReplicaLocationFields();
      ReplicaLocationCases(tag);
      if Case(tag, 1, 10) {
        hasCslocation := true;
        ok, cslocation, rest' := ReadBytes(REPLICA_LOCATION, m, 0, 1, rest, n);
        assert Pending(pLocation', pType').cells == m.cells[0 := Blob(cslocation)];
      } else if Case(tag, 2, 16) {
        pLocation' := true;
        ok, disklocation, rest' := ReadScalar(REPLICA_LOCATION, m, 1, 2, Int32, rest, n);
        assert Pending(pLocation', pType').cells == m.cells[1 := Num(disklocation)];
      } else if Case(tag, 3, 24) {
        pType' := true;
        ok, disktype, rest' := ReadScalar(REPLICA_LOCATION, m, 2, 3, UInt32, rest, n);
        assert Pending(pLocation', pType').cells == m.cells[2 := Num(disktype)];
      } else {
        ok, rest' := SkipUnusual(REPLICA_LOCATION, m, rest, tag, n);
      }
    }

    method ByteSizeLong() returns (n: nat)
      modifies this`cachedSize
      ensures n == cachedSize == ByteSize(REPLICA_LOCATION, Value())
    {
      SizeThree(Bytes, Int32, UInt32, Value().cells);
      n := 0;
      if hasCslocation || hasDisklocation || hasDisktype {
        if hasCslocation { n := n + 1 + LenSize(|cslocation|); }
        assert n == CellSize(1, Bytes, Value().cells[0]);
        if hasDisklocation { n := n + 1 + ScalarSize(Int32, disklocation); }
        assert n == CellSize(1, Bytes, Value().cells[0]) + CellSize(2, Int32, Value().cells[1]);
        if hasDisktype { n := n + 1 + ScalarSize(UInt32, disktype); }
      }
      cachedSize := n;
    }

    method InternalSerialize() returns (target: bytes)
      ensures target == Encode(REPLICA_LOCATION, Value())
    {
      EncodeThree(Bytes, Int32, UInt32, Value().cells);
      target := [];
      if hasCslocation { target := target + WriteField(Len(1, cslocation)); }
      assert target == EncodeCell(1, Bytes, Value().cells[0]);
      if hasDisklocation { target := target + WriteScalar(2, Int32, disklocation); }
      assert target == EncodeCell(1, Bytes, Value().cells[0]) + EncodeCell(2, Int32, Value().cells[1]);
      if hasDisktype { target := target + WriteScalar(3, UInt32, disktype); }
    }

    method MergeFrom(from: ReplicaLocationPB)
      requires Valid() && from.Valid() && from != this
      modifies this
      ensures Valid() && Value() == Merge(REPLICA_LOCATION, old(Value()), from.Value())
    {
      MergeThree(Bytes, Int32, UInt32, Value().cells, from.Value().cells);
      if from.hasCslocation || from.hasDisklocation || from.hasDisktype {
        if from.hasCslocation { hasCslocation, cslocation := true, from.cslocation; }
        if from.hasDisklocation { disklocation := from.disklocation; }
        if from.hasDisktype { disktype := from.disktype; }
        hasCslocation, hasDisklocation, hasDisktype :=
          hasCslocation || from.hasCslocation, hasDisklocation || from.hasDisklocation, hasDisktype || from.hasDisktype;
      }
    }
  }

  lemma ReplicaLocationFields()
    ensures DeclaredAt(REPLICA_LOCATION, 0, 1, Bytes) && DeclaredAt(REPLICA_LOCATION, 1, 2, Int32)
    ensures DeclaredAt(REPLICA_LOCATION, 2, 3, UInt32)
  {
  }

  lemma ReplicaLocationCases(tag: nat)
    ensures Case(tag, 1, 10) ==> tag == Tag(1, WT_LEN)
    ensures Case(tag, 2, 16) ==> tag == Tag(2, WT_VARINT)
    ensures Case(tag, 3, 24) ==> tag == Tag(3, WT_VARINT)
    ensures Declares(REPLICA_LOCATION, tag) ==> Case(tag, 1, 10) || Case(tag, 2, 16) || Case(tag, 3, 24)
  {
  }

  lemma ReplicaLocationTyped(m: ReplicaLocationPB)
    ensures Typed(REPLICA_LOCATION, m.Value())
  {
  }
}
