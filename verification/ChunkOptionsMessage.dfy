/** ChunkOptionsPB: a scalar, a bytes field and the submessage MirrorArgsPB. */
module ChunkOptionsMessage {
  import opened Wire
  import opened Schema
  import opened SchemaLaws
  import opened FlatProto
  import opened ParseSteps
  import opened MessageReaders
  import opened LeafMessages

  class ChunkOptionsPB {
    var hasPlacement: bool
    var hasMirror: bool
    var hasFtttype: bool
    var placement: bytes
    var mirror: MirrorArgsPB?
    var ftttype: int32
    var cachedSize: nat

    /** This message and the submessage it owns. */
    ghost function Repr(): (r: set<object>)
      reads this
    {
      {this} + if mirror == null then {} else {mirror}
    }

    /** The two messages share nothing. */
    ghost predicate Apart(other: ChunkOptionsPB)
      reads this, other
    {
      this != other && (mirror == null || mirror != other.mirror)
    }

    /** A field whose has-bit is off holds its default; an unused submessage is null or cleared. */
    ghost predicate ValidPending(pFtttype: bool)
      reads this, mirror
    {
      && (!hasPlacement ==> placement == [])
      && (!(hasFtttype || pFtttype) ==> ftttype == 0)
      && (hasMirror ==> mirror != null)
      && (mirror != null ==> mirror.Valid() && (!hasMirror ==> mirror.IsCleared()))
    }

    ghost predicate Valid()
      reads this, mirror
    {
      ValidPending(false)
    }

    ghost function MirrorCell(): (c: Cell)
      reads this, mirror
    {
      if hasMirror && mirror != null then One(mirror.Value()) else Absent
    }

    ghost function Pending(pFtttype: bool): (m: Msg)
      reads this, mirror
    {
      Msg([NumCell(hasFtttype || pFtttype, ftttype), MirrorCell(), BlobCell(hasPlacement, placement)])
    }

    ghost function Value(): (m: Msg)
      reads this, mirror
    {
      Pending(false)
    }

    ghost predicate IsCleared()
      reads this
    {
      !hasPlacement && !hasMirror && !hasFtttype
    }

    lemma ClearedIsDefault()
      requires IsCleared()
      ensures Value() == Default(CHUNK_OPTIONS)
    {
    }

    /** What parsing the rest of the input into the present value leads to. */
    ghost function Outcome(pFtttype: bool, rest: bytes): (r: Option<Msg>)
      reads this, mirror
    {
      Parse(CHUNK_OPTIONS, Pending(pFtttype), rest)
    }

    /** The cached size of every submessage is current. */
    ghost predicate SizesCached()
      reads this, mirror
    {
      hasMirror && mirror != null ==> mirror.cachedSize == ByteSize(MIRROR_ARGS, mirror.Value())
    }

    constructor ()
      ensures Valid() && IsCleared() && mirror == null
    {
      hasPlacement, hasMirror, hasFtttype := false, false, false;
      placement, mirror, ftttype := [], null, 0;
      cachedSize := 0;
    }

    /** `_internal_mutable_mirror`: sets the has-bit and allocates the submessage if needed. */
    method MutableMirror(ghost pFtttype: bool) returns (sub: MirrorArgsPB)
      requires ValidPending(pFtttype)
      modifies this
      ensures ValidPending(pFtttype) && hasMirror && mirror == sub
      ensures sub == old(mirror) || fresh(sub)
      ensures Pending(pFtttype) == Msg(old(Pending(pFtttype)).cells[1 := One(sub.Value())])
      ensures sub.Value() == Existing(MIRROR_ARGS, old(MirrorCell()))
      ensures placement == old(placement) && hasPlacement == old(hasPlacement)
      ensures ftttype == old(ftttype) && hasFtttype == old(hasFtttype)
    {
      hasMirror := true;
      if mirror == null {
        mirror := new MirrorArgsPB();
      }
      sub := mirror;
      if !old(hasMirror) { sub.ClearedIsDefault(); }
      assert Pending(pFtttype).cells == old(Pending(pFtttype)).cells[1 := One(sub.Value())];
    }

    method ClearMirror()
      requires Valid()
      modifies Repr()
      ensures Valid() && mirror == old(mirror)
      ensures Value() == Msg(old(Value()).cells[1 := Absent])
    {
      if mirror != null {
        mirror.Clear();
      }
      hasMirror := false;
      assert Value().cells == old(Value()).cells[1 := Absent];
    }

    method SetFtttype(v: int32)
      requires Valid()
      modifies this`hasFtttype, this`ftttype
      ensures Valid() && Value() == Msg(old(Value()).cells[0 := Num(v)])
    {
      hasFtttype := true;
      ftttype := v;
      assert Value().cells == old(Value()).cells[0 := Num(v)];
    }

    method ClearFtttype()
      requires Valid()
      modifies this`hasFtttype, this`ftttype
      ensures Valid() && Value() == Msg(old(Value()).cells[0 := Absent])
    {
      ftttype := 0;
      hasFtttype := false;
      assert Value().cells == old(Value()).cells[0 := Absent];
    }

    method SetPlacement(v: bytes)
      requires Valid()
      modifies this`hasPlacement, this`placement
      ensures Valid() && Value() == Msg(old(Value()).cells[2 := Blob(v)])
    {
      hasPlacement := true;
      placement := v;
      assert Value().cells == old(Value()).cells[2 := Blob(v)];
    }

    method ClearPlacement()
      requires Valid()
      modifies this`hasPlacement, this`placement
      ensures Valid() && Value() == Msg(old(Value()).cells[2 := Absent])
    {
      placement := [];
      hasPlacement := false;
      assert Value().cells == old(Value()).cells[2 := Absent];
    }

    method Clear()
      requires Valid()
      modifies Repr()
      ensures Valid() && mirror == old(mirror)
      ensures IsCleared() && Value() == Default(CHUNK_OPTIONS)
    {
      if hasPlacement || hasMirror {
        if hasPlacement { placement := []; }
        if hasMirror { mirror.Clear(); }
      }
      ftttype := 0;
      hasPlacement, hasMirror, hasFtttype := false, false, false;
    }

    method InternalParse(s: bytes) returns (ok: bool)
      requires Valid()
      modifies Repr()
      ensures Valid() && (mirror == old(mirror) || fresh(mirror))
      ensures ok == Parse(CHUNK_OPTIONS, old(Value()), s).Some?
      ensures ok ==> Parse(CHUNK_OPTIONS, old(Value()), s) == Some(Value())
    {
      var pFtttype := false;
      var rest := s;
      ok := true;
      while ok && rest != []
        invariant ValidPending(pFtttype) && (mirror == old(mirror) || fresh(mirror))
        invariant ok ==> Outcome(pFtttype, rest) == old(Outcome(false, s))
        invariant !ok ==> old(Outcome(false, s)) == None
        decreases ok, |rest|
      {
        ok, rest, pFtttype := ParseNext(rest, pFtttype);
      }
      hasFtttype := hasFtttype || pFtttype;
    }

    /** One turn of the parse loop. */
    method ParseNext(rest: bytes, pFtttype: bool) returns (ok: bool, rest': bytes, pFtttype': bool)
      requires rest != [] && ValidPending(pFtttype)
      modifies Repr()
      ensures ValidPending(pFtttype') && (mirror == old(mirror) || fresh(mirror))
      ensures ok ==> |rest'| < |rest|
      ensures ok ==> Outcome(pFtttype', rest') == old(Outcome(pFtttype, rest))
      ensures !ok ==> old(Outcome(pFtttype, rest)) == None
    {
      hide ReadTag, Find;
      ghost var m := Pending(pFtttype);
      pFtttype' := pFtttype;
      var t := ReadTag(rest);
      if t.None? { return false, rest, pFtttype; }
      var (tag, n) := t.value;
      ChunkOptionsFields();
      ChunkOptionsCases(tag);
      if Case(tag, 1, 8) {
        pFtttype' := true;
        ok, ftttype, rest' := ReadScalar(CHUNK_OPTIONS, m, 0, 1, Int32, rest, n);
        assert Pending(pFtttype').cells == m.cells[0 := Num(ftttype)];
      } else if Case(tag, 2, 18) {
        ok, rest' := ParseMirror(rest, n, pFtttype);
      } else if Case(tag, 3, 26) {
        hasPlacement := true;
        ok, placement, rest' := ReadBytes(CHUNK_OPTIONS, m, 2, 3, rest, n);
        assert Pending(pFtttype').cells == m.cells[2 := Blob(placement)];
      } else {
        ok, rest' := SkipUnusual(CHUNK_OPTIONS, m, rest, tag, n);
      }
    }

    /** `ParseMessage` into the submessage. */
    method ParseMirror(rest: bytes, n: nat, ghost pFtttype: bool) returns (ok: bool, rest': bytes)
      requires ValidPending(pFtttype)
      requires rest != [] && ReadTag(rest) == Some((Tag(2, WT_LEN), n))
      modifies Repr()
      ensures ValidPending(pFtttype) && (mirror == old(mirror) || fresh(mirror))
      ensures ok ==> |rest'| < |rest|
      ensures ok ==> Outcome(pFtttype, rest') == old(Outcome(pFtttype, rest))
      ensures !ok ==> old(Outcome(pFtttype, rest)) == None
    {
      ChunkOptionsFields();
      ghost var m := Pending(pFtttype);
      var sub := MutableMirror(pFtttype);
      var payload;
      ok, payload, rest' := ReadSub(CHUNK_OPTIONS, m, 1, 2, MIRROR_ARGS, rest, n);
      if ok {
        ok := sub.InternalParse(payload);
      }
      assert Pending(pFtttype).cells == m.cells[1 := One(sub.Value())];
    }

    /** Sizes the submessage first, so its size is cached too. */
    method ByteSizeLong() returns (n: nat)
      requires Valid()
      modifies Repr()
      ensures Valid() && mirror == old(mirror) && Value() == old(Value())
      ensures n == cachedSize == ByteSize(CHUNK_OPTIONS, Value()) && SizesCached()
    {
      SizeThree(Int32, Sub(MIRROR_ARGS), Bytes, Value().cells);
      n := 0;
      if hasPlacement || hasMirror || hasFtttype {
        if hasPlacement { n := n + 1 + LenSize(|placement|); }
        assert n == CellSize(3, Bytes, Value().cells[2]);
        if hasMirror {
          var size := mirror.ByteSizeLong();
          assert Value() == old(Value());
          n := n + 1 + LenSize(size);
        }
        assert n == CellSize(3, Bytes, Value().cells[2]) + CellSize(2, Sub(MIRROR_ARGS), Value().cells[1]);
        if hasFtttype { n := n + 1 + ScalarSize(Int32, ftttype); }
      }
      cachedSize := n;
    }

    /** Relies on sizes cached by `ByteSizeLong` for the length prefix of the submessage. */
    method InternalSerialize() returns (target: bytes)
      requires Valid()
      ensures SizesCached() ==> target == Encode(CHUNK_OPTIONS, Value())
    {
      EncodeThree(Int32, Sub(MIRROR_ARGS), Bytes, Value().cells);
      target := [];
      if hasFtttype { target := target + WriteScalar(1, Int32, ftttype); }
      assert target == EncodeCell(1, Int32, Value().cells[0]);
      if hasMirror {
        var body := mirror.InternalSerialize();
        SizeIsLength(MIRROR_ARGS, mirror.Value());
        target := target + WriteMessage(2, mirror.cachedSize, body);
      }
      assert SizesCached() ==>
        target == EncodeCell(1, Int32, Value().cells[0]) + EncodeCell(2, Sub(MIRROR_ARGS), Value().cells[1]);
      if hasPlacement { target := target + WriteField(Len(3, placement)); }
    }

    /** The submessage part of `MergeFrom`. */
    method MergeMirror(from: ChunkOptionsPB)
      requires Valid() && from.Valid() && Apart(from)
      modifies Repr()
      ensures Valid() && (mirror == old(mirror) || fresh(mirror))
      ensures MirrorCell() == MergeCell(Sub(MIRROR_ARGS), old(MirrorCell()), from.MirrorCell())
      ensures from.hasMirror ==> hasMirror
      ensures from.Valid() && Apart(from) && from.Value() == old(from.Value())
      ensures placement == old(placement) && hasPlacement == old(hasPlacement)
      ensures ftttype == old(ftttype) && hasFtttype == old(hasFtttype)
    {
      if from.hasMirror {
        var sub := MutableMirror(false);
        sub.MergeFrom(from.mirror);
      }
    }

    /** The rest of `MergeFrom`, and the has-bits of all fields. */
    method MergePlain(from: ChunkOptionsPB)
      requires Valid() && from.Valid() && Apart(from) && (from.hasMirror ==> hasMirror)
      modifies this
      ensures Valid() && mirror == old(mirror) && MirrorCell() == old(MirrorCell())
      ensures Value().cells[0] == MergeCell(Int32, old(Value()).cells[0], from.Value().cells[0])
      ensures Value().cells[2] == MergeCell(Bytes, old(Value()).cells[2], from.Value().cells[2])
      ensures from.Value() == old(from.Value())
    {
      hide Merge;
      if from.hasPlacement { placement := from.placement; }
      if from.hasFtttype { ftttype := from.ftttype; }
      hasPlacement, hasMirror, hasFtttype :=
        hasPlacement || from.hasPlacement, hasMirror || from.hasMirror, hasFtttype || from.hasFtttype;
    }

    method MergeFrom(from: ChunkOptionsPB)
      requires Valid() && from.Valid() && Apart(from)
      modifies Repr()
      ensures Valid() && (mirror == old(mirror) || fresh(mirror))
      ensures Value() == Merge(CHUNK_OPTIONS, old(Value()), from.Value())
      ensures from.Valid() && from.Value() == old(from.Value())
    {
      MergeThree(Int32, Sub(MIRROR_ARGS), Bytes, Value().cells, from.Value().cells);
      if from.hasPlacement || from.hasMirror || from.hasFtttype {
        MergeMirror(from);
        MergePlain(from);
      }
    }

    method CopyFrom(from: ChunkOptionsPB)
      requires Valid() && from.Valid() && (from == this || Apart(from))
      modifies Repr()
      ensures Valid() && (mirror == old(mirror) || fresh(mirror))
      ensures Value() == old(from.Value())
    {
      if from == this {
        return;
      }
      Clear();
      MergeFrom(from);
      ChunkOptionsTyped(from);
      MergeDefaultLeft(CHUNK_OPTIONS, from.Value());
    }
  }

  lemma ChunkOptionsFields()
    ensures DeclaredAt(CHUNK_OPTIONS, 0, 1, Int32) && DeclaredAt(CHUNK_OPTIONS, 1, 2, Sub(MIRROR_ARGS))
    ensures DeclaredAt(CHUNK_OPTIONS, 2, 3, Bytes)
  {
  }

  lemma ChunkOptionsCases(tag: nat)
    ensures Case(tag, 1, 8) ==> tag == Tag(1, WT_VARINT)
    ensures Case(tag, 2, 18) ==> tag == Tag(2, WT_LEN)
    ensures Case(tag, 3, 26) ==> tag == Tag(3, WT_LEN)
    ensures Declares(CHUNK_OPTIONS, tag) ==> Case(tag, 1, 8) || Case(tag, 2, 18) || Case(tag, 3, 26)
  {
  }

  lemma ChunkOptionsTyped(m: ChunkOptionsPB)
    ensures Typed(CHUNK_OPTIONS, m.Value())
  {
  }
}
