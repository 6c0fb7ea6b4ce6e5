/** AccelerateOpenOptionsPB: a submessage, a repeated submessage and two scalars. */
module AccelerateMessage {
  import opened Wire
  import opened Schema
  import opened SchemaLaws
  import opened FlatProto
  import opened ParseSteps
  import opened MessageReaders
  import opened LeafMessages
  import opened ChunkOptionsMessage

  method ReadOptions(ghost m: Msg, rest: bytes, n: nat) returns (ok: bool, payload: bytes, rest': bytes)
    requires |m.cells| == 4 && rest != [] && ReadTag(rest) == Some((Tag(1, WT_LEN), n))
    ensures ok ==> |rest'| < |rest|
    ensures ok ==>
      Parse(ACCELERATE_OPEN_OPTIONS, m, rest)
      == AfterSub(ACCELERATE_OPEN_OPTIONS, m, 0,
                  Parse(CHUNK_OPTIONS, Existing(CHUNK_OPTIONS, m.cells[0]), payload), rest')
    ensures !ok ==> Parse(ACCELERATE_OPEN_OPTIONS, m, rest) == None
  {
    AccelerateFields();
    ok, payload, rest' := ReadSub(ACCELERATE_OPEN_OPTIONS, m, 0, 1, CHUNK_OPTIONS, rest, n);
  }

  class AccelerateOpenOptionsPB {
    var hasChunkoptions: bool
    var hasExponent: bool
    var hasCategory: bool
    var chunklocation: seq<ReplicaLocationPB>
    var chunkoptions: ChunkOptionsPB?
    var exponent: uint32
    var category: uint32
    var cachedSize: nat

    // The values of the owned objects, tied to them by `Owned`.
    ghost var optionsValue: Msg
    ghost var locationValues: seq<Msg>

    /** The submessage and what it owns. */
    ghost function OptionsRepr(): (r: set<object>)
      reads this`chunkoptions, chunkoptions
      ensures forall o :: o in r ==> o is ChunkOptionsPB || o is MirrorArgsPB
    {
      if chunkoptions == null then {} else chunkoptions.Repr()
    }

    ghost predicate OwnsOptions()
      reads this`hasChunkoptions, this`chunkoptions, this`optionsValue
      reads chunkoptions, OptionsRepr()
    {
      && (hasChunkoptions ==> chunkoptions != null)
      && (chunkoptions != null ==>
            chunkoptions.Valid() && chunkoptions.Value() == optionsValue
            && (!hasChunkoptions ==> chunkoptions.IsCleared()))
    }

    ghost predicate OwnsLocations()
      reads this`chunklocation, this`locationValues, chunklocation
    {
      && |locationValues| == |chunklocation|
      && forall i :: 0 <= i < |chunklocation| ==>
           chunklocation[i].Valid() && chunklocation[i].Value() == locationValues[i]
    }

    ghost predicate ValidPending(pExponent: bool, pCategory: bool)
      reads this, chunkoptions, OptionsRepr(), chunklocation
    {
      && (!(hasExponent || pExponent) ==> exponent == 0)
      && (!(hasCategory || pCategory) ==> category == 0)
      && OwnsOptions()
      && OwnsLocations()
    }

    /** Has-bits off mean defaults, and the owned objects have the recorded values. */
    ghost predicate Valid()
      reads this, chunkoptions, OptionsRepr(), chunklocation
    {
      ValidPending(false, false)
    }

    ghost function ExponentCell(): (c: Cell)
      reads this`hasExponent, this`exponent
    {
      NumCell(hasExponent, exponent)
    }

    ghost function CategoryCell(): (c: Cell)
      reads this`hasCategory, this`category
    {
      NumCell(hasCategory, category)
    }

    ghost function OptionsCell(): (c: Cell)
      reads this`hasChunkoptions, this`optionsValue
    {
      if hasChunkoptions then One(optionsValue) else Absent
    }

    ghost function Pending(pExponent: bool, pCategory: bool): (m: Msg)
      reads this
    {
      Msg([OptionsCell(), Many(locationValues),
           NumCell(hasExponent || pExponent, exponent), NumCell(hasCategory || pCategory, category)])
    }

    ghost function Value(): (m: Msg)
      reads this
    {
      Pending(false, false)
    }

    /** What parsing the rest of the input into the present value leads to. */
    ghost function Outcome(pExponent: bool, pCategory: bool, rest: bytes): (r: Option<Msg>)
      reads this
    {
      Parse(ACCELERATE_OPEN_OPTIONS, Pending(pExponent, pCategory), rest)
    }

    constructor ()
      ensures Valid() && Value() == Default(ACCELERATE_OPEN_OPTIONS)
    {
      hasChunkoptions, hasExponent, hasCategory := false, false, false;
      chunklocation, chunkoptions, exponent, category := [], null, 0, 0;
      cachedSize := 0;
      optionsValue, locationValues := Default(CHUNK_OPTIONS), [];
    }

    /** `_internal_mutable_chunkoptions`. */
    method MutableChunkOptions() returns (sub: ChunkOptionsPB)
      requires OwnsOptions()
      modifies this`hasChunkoptions, this`chunkoptions, this`optionsValue
      ensures OwnsOptions() && hasChunkoptions && chunkoptions == sub
      ensures if old(chunkoptions) == null then fresh(sub) && sub.mirror == null else sub == old(chunkoptions)
      ensures sub.Value() == Existing(CHUNK_OPTIONS, old(OptionsCell()))
    {
      hasChunkoptions := true;
      if chunkoptions == null {
        chunkoptions := new ChunkOptionsPB();
        optionsValue := chunkoptions.Value();
      }
      sub := chunkoptions;
      if !old(hasChunkoptions) { sub.ClearedIsDefault(); }
    }

    /** `_internal_add_chunklocation`. */
    method AddChunkLocation() returns (e: ReplicaLocationPB)
      requires OwnsLocations()
      modifies this`chunklocation, this`locationValues
      ensures OwnsLocations() && fresh(e) && chunklocation == old(chunklocation) + [e]
      ensures e.Valid() && e.Value() == Default(REPLICA_LOCATION)
      ensures locationValues == old(locationValues) + [Default(REPLICA_LOCATION)]
    {
      e := new ReplicaLocationPB();
      chunklocation := chunklocation + [e];
      locationValues := locationValues + [e.Value()];
    }

    method SetExponent(v: uint32)
      requires Valid()
      modifies this`hasExponent, this`exponent
      ensures Valid() && Value() == Msg(old(Value()).cells[2 := Num(v)])
    {
      hasExponent := true;
      exponent := v;
      assert Value().cells == old(Value()).cells[2 := Num(v)];
    }

    method ClearExponent()
      requires Valid()
      modifies this`hasExponent, this`exponent
      ensures Valid() && Value() == Msg(old(Value()).cells[2 := Absent])
    {
      exponent := 0;
      hasExponent := false;
      assert Value().cells == old(Value()).cells[2 := Absent];
    }

    method SetCategory(v: uint32)
      requires Valid()
      modifies this`hasCategory, this`category
      ensures Valid() && Value() == Msg(old(Value()).cells[3 := Num(v)])
    {
      hasCategory := true;
      category := v;
      assert Value().cells == old(Value()).cells[3 := Num(v)];
    }

    method ClearCategory()
      requires Valid()
      modifies this`hasCategory, this`category
      ensures Valid() && Value() == Msg(old(Value()).cells[3 := Absent])
    {
      category := 0;
      hasCategory := false;
      assert Value().cells == old(Value()).cells[3 := Absent];
    }

    method ClearChunkLocations()
      requires Valid()
      modifies this`chunklocation, this`locationValues
      ensures Valid() && Value() == Msg(old(Value()).cells[1 := Many([])])
    {
      chunklocation, locationValues := [], [];
      assert Value().cells == old(Value()).cells[1 := Many([])];
    }

    method ClearChunkOptions()
      requires Valid()
      modifies this`hasChunkoptions, this`optionsValue, OptionsRepr()
      ensures Valid() && Value() == Msg(old(Value()).cells[0 := Absent])
    {
      if chunkoptions != null {
        assert forall i :: 0 <= i < |chunklocation| ==> chunklocation[i] !in chunkoptions.Repr();
        chunkoptions.Clear();
        optionsValue := chunkoptions.Value();
      }
      hasChunkoptions := false;
      assert Value().cells == old(Value()).cells[0 := Absent];
    }

    method Clear()
      requires Valid()
      modifies this, OptionsRepr()
      ensures Valid() && Value() == Default(ACCELERATE_OPEN_OPTIONS)
      ensures chunkoptions == old(chunkoptions) && chunklocation == []
      ensures chunkoptions != null ==> chunkoptions.mirror == old(chunkoptions.mirror)
    {
      chunklocation, locationValues := [], [];
      ClearOptions();
      if hasExponent || hasCategory {
        exponent, category := 0, 0;
      }
      hasExponent, hasCategory := false, false;
    }

    method ClearOptions()
      requires OwnsOptions()
      modifies this`hasChunkoptions, this`optionsValue, OptionsRepr()
      ensures OwnsOptions() && !hasChunkoptions
      ensures chunkoptions != null ==> chunkoptions.mirror == old(chunkoptions.mirror)
    {
      if hasChunkoptions {
        chunkoptions.Clear();
        optionsValue := chunkoptions.Value();
      }
      hasChunkoptions := false;
    }

    method InternalParse(s: bytes) returns (ok: bool)
      requires Valid()
      modifies this, OptionsRepr()
      ensures Valid() && fresh(OptionsRepr() - old(OptionsRepr()))
      ensures ok == Parse(ACCELERATE_OPEN_OPTIONS, old(Value()), s).Some?
      ensures ok ==> Parse(ACCELERATE_OPEN_OPTIONS, old(Value()), s) == Some(Value())
    {
      var pExponent, pCategory := false, false;
      var rest := s;
      ok := true;
      while ok && rest != []
        invariant ValidPending(pExponent, pCategory) && fresh(OptionsRepr() - old(OptionsRepr()))
        invariant ok ==> Outcome(pExponent, pCategory, rest) == old(Outcome(false, false, s))
        invariant !ok ==> old(Outcome(false, false, s)) == None
        decreases ok, |rest|
      {
        ok, rest, pExponent, pCategory := ParseNext(rest, pExponent, pCategory);
      }
      OrHasBits(pExponent, pCategory);
    }

    /** The has-bits collected by the loop join those of the message. */
    method OrHasBits(pExponent: bool, pCategory: bool)
      requires ValidPending(pExponent, pCategory)
      modifies this`hasExponent, this`hasCategory
      ensures Valid() && Value() == old(Pending(pExponent, pCategory))
    {
      hasExponent, hasCategory := hasExponent || pExponent, hasCategory || pCategory;
    }

    /** One turn of the parse loop; a run of repeated elements counts as one turn. */
    method ParseNext(rest: bytes, pExponent: bool, pCategory: bool)
        returns (ok: bool, rest': bytes, pExponent': bool, pCategory': bool)
      requires rest != [] && ValidPending(pExponent, pCategory)
      modifies this, OptionsRepr()
      ensures ValidPending(pExponent', pCategory') && fresh(OptionsRepr() - old(OptionsRepr()))
      ensures ok ==> |rest'| < |rest|
      ensures ok ==> Outcome(pExponent', pCategory', rest') == old(Outcome(pExponent, pCategory, rest))
      ensures !ok ==> old(Outcome(pExponent, pCategory, rest)) == None
    {
      var t := ReadTag(rest);
      if t.None? { return false, rest, pExponent, pCategory; }
      var (tag, n) := t.value;
      ok, rest', pExponent', pCategory' := ParseCase(rest, tag, n, pExponent, pCategory);
    }

    /** The dispatch on the tag. */
    method ParseCase(rest: bytes, tag: nat, n: nat, pExponent: bool, pCategory: bool)
        returns (ok: bool, rest': bytes, pExponent': bool, pCategory': bool)
      requires rest != [] && ValidPending(pExponent, pCategory) && ReadTag(rest) == Some((tag, n))
      modifies this, OptionsRepr()
      ensures ValidPending(pExponent', pCategory') && fresh(OptionsRepr() - old(OptionsRepr()))
      ensures ok ==> |rest'| < |rest|
      ensures ok ==> Outcome(pExponent', pCategory', rest') == old(Outcome(pExponent, pCategory, rest))
      ensures !ok ==> old(Outcome(pExponent, pCategory, rest)) == None
    {
      pExponent', pCategory' := pExponent, pCategory;
      AccelerateCases(tag);
      if Case(tag, 1, 10) {
        ok, rest' := ParseChunkOptions(rest, n, pExponent, pCategory);
      } else if Case(tag, 2, 18) {
        ok, rest' := ParseChunkLocations(rest, n, pExponent, pCategory);
      } else {
        ok, rest', pExponent', pCategory' := ParsePlain(rest, tag, n, pExponent, pCategory);
      }
    }

    /** The scalar cases and the records that are skipped. */
    method ParsePlain(rest: bytes, tag: nat, n: nat, pExponent: bool, pCategory: bool)
        returns (ok: bool, rest': bytes, pExponent': bool, pCategory': bool)
      requires ValidPending(pExponent, pCategory)
      requires rest != [] && ReadTag(rest) == Some((tag, n)) && !Case(tag, 1, 10) && !Case(tag, 2, 18)
      modifies this`exponent, this`category
      ensures ValidPending(pExponent', pCategory')
      ensures ok ==> |rest'| < |rest|
      ensures ok ==> Outcome(pExponent', pCategory', rest') == old(Outcome(pExponent, pCategory, rest))
      ensures !ok ==> old(Outcome(pExponent, pCategory, rest)) == None
    {
      hide OwnsLocations, Parse, ReadTag;
      ghost var m := Pending(pExponent, pCategory);
      pExponent', pCategory' := pExponent, pCategory;
      AccelerateFields();
      AccelerateCases(tag);
      if Case(tag, 3, 24) {
        pExponent' := true;
        ok, exponent, rest' := ReadScalar(ACCELERATE_OPEN_OPTIONS, m, 2, 3, UInt32, rest, n);
        assert Pending(pExponent', pCategory').cells == m.cells[2 := Num(exponent)];
      } else if Case(tag, 4, 32) {
        pCategory' := true;
        ok, category, rest' := ReadScalar(ACCELERATE_OPEN_OPTIONS, m, 3, 4, UInt32, rest, n);
        assert Pending(pExponent', pCategory').cells == m.cells[3 := Num(category)];
      } else {
        ok, rest' := SkipUnusual(ACCELERATE_OPEN_OPTIONS, m, rest, tag, n);
      }
    }

    method ParseChunkOptions(rest: bytes, n: nat, ghost pExponent: bool, ghost pCategory: bool)
        returns (ok: bool, rest': bytes)
      requires ValidPending(pExponent, pCategory)
      requires rest != [] && ReadTag(rest) == Some((Tag(1, WT_LEN), n))
      modifies this`hasChunkoptions, this`chunkoptions, this`optionsValue, OptionsRepr()
      ensures ValidPending(pExponent, pCategory) && fresh(OptionsRepr() - old(OptionsRepr()))
      ensures ok ==> |rest'| < |rest|
      ensures ok ==> Outcome(pExponent, pCategory, rest') == old(Outcome(pExponent, pCategory, rest))
      ensures !ok ==> old(Outcome(pExponent, pCategory, rest)) == None
    {
      hide OwnsLocations, OwnsOptions, ReadTag, ReadLen;
      ghost var m := Pending(pExponent, pCategory);
      var payload;
      ok, payload, rest' := ReadOptions(m, rest, n);
      assert m.cells[0] == OptionsCell();
      ok := ParseIntoOptions(ok, payload);
      if ok { assert Pending(pExponent, pCategory) == Msg(m.cells[0 := One(optionsValue)]); }
    }

    /** The submessage is made present before its payload is read, so it is on failure too. */
    method ParseIntoOptions(sized: bool, payload: bytes) returns (ok: bool)
      requires OwnsOptions() && OwnsLocations()
      modifies this`hasChunkoptions, this`chunkoptions, this`optionsValue, OptionsRepr()
      ensures OwnsOptions() && hasChunkoptions && fresh(OptionsRepr() - old(OptionsRepr()))
      ensures OwnsLocations()
      ensures ok ==> sized
      ensures sized ==> ok == Parse(CHUNK_OPTIONS, Existing(CHUNK_OPTIONS, old(OptionsCell())), payload).Some?
      ensures ok ==> Parse(CHUNK_OPTIONS, Existing(CHUNK_OPTIONS, old(OptionsCell())), payload) == Some(optionsValue)
    {
      var sub := MutableChunkOptions();
      assert forall i :: 0 <= i < |chunklocation| ==> chunklocation[i] !in sub.Repr();
      ok := sized;
      if sized {
        ok := sub.InternalParse(payload);
        optionsValue := sub.Value();
      }
    }

    /**
     The batched loop for a run of elements: after each element it looks for one more tag byte 18
     and stays in the loop. It has the same effect as going back to the dispatch each time.
     */
    method ParseChunkLocations(rest: bytes, n: nat, ghost pExponent: bool, ghost pCategory: bool)
        returns (ok: bool, rest': bytes)
      requires ValidPending(pExponent, pCategory)
      requires rest != [] && ReadTag(rest) == Some((Tag(2, WT_LEN), n))
      modifies this`chunklocation, this`locationValues
      ensures ValidPending(pExponent, pCategory)
      ensures ok ==> |rest'| < |rest|
      ensures ok ==> Outcome(pExponent, pCategory, rest') == old(Outcome(pExponent, pCategory, rest))
      ensures !ok ==> old(Outcome(pExponent, pCategory, rest)) == None
    {
      rest' := rest[n..];
      ghost var head, k := rest, n;
      ok := true;
      while true
        invariant ok && OwnsLocations()
        invariant head != [] && ReadTag(head) == Some((Tag(2, WT_LEN), k)) && rest' == head[k..]
        invariant |rest'| < |rest|
        invariant Outcome(pExponent, pCategory, head) == old(Outcome(pExponent, pCategory, rest))
        decreases |rest'|
      {
        ok, rest' := ParseChunkLocation(head, k, rest', pExponent, pCategory);
        if !ok || rest' == [] || rest'[0] != 18 {
          break;
        }
        head, k := rest', 1;
        rest' := rest'[1..];
      }
    }

    /** One element of the run: `ParseMessage` into a new element. */
    method ParseChunkLocation(ghost rest: bytes, ghost n: nat, body: bytes,
                              ghost pExponent: bool, ghost pCategory: bool)
        returns (ok: bool, body': bytes)
      requires OwnsLocations()
      requires rest != [] && ReadTag(rest) == Some((Tag(2, WT_LEN), n)) && body == rest[n..]
      modifies this`chunklocation, this`locationValues
      ensures OwnsLocations()
      ensures |body'| <= |body| && (ok ==> |body'| < |body|)
      ensures ok ==> Outcome(pExponent, pCategory, body') == old(Outcome(pExponent, pCategory, rest))
      ensures !ok ==> old(Outcome(pExponent, pCategory, rest)) == None
    {
      AccelerateFields();
      ghost var m := Pending(pExponent, pCategory);
      var payload;
      ok, payload, body' := ReadElement(ACCELERATE_OPEN_OPTIONS, m, 1, 2, REPLICA_LOCATION, rest, n, body);
      ok := ParseIntoNewLocation(ok, payload);
      assert ok ==> Pending(pExponent, pCategory).cells == m.cells[1 := Many(locationValues)];
    }

    /** The element is added before its payload is read, so it is there on failure too. */
    method ParseIntoNewLocation(sized: bool, payload: bytes) returns (ok: bool)
      requires OwnsLocations()
      modifies this`chunklocation, this`locationValues
      ensures OwnsLocations()
      ensures ok ==> sized
      ensures sized ==> ok == Parse(REPLICA_LOCATION, Default(REPLICA_LOCATION), payload).Some?
      ensures ok ==>
        locationValues == old(locationValues) + [Parse(REPLICA_LOCATION, Default(REPLICA_LOCATION), payload).value]
    {
      var e := AddChunkLocation();
      assert forall i :: 0 <= i < |chunklocation| - 1 ==> chunklocation[i] != e;
      ok := sized;
      if sized {
        ok := e.InternalParse(payload);
        locationValues := old(locationValues) + [e.Value()];
      }
    }

    // ---------------------------------------------------------------- sizes and serialization

    ghost predicate OptionsSized()
      reads this`hasChunkoptions, this`chunkoptions, this`optionsValue, chunkoptions, OptionsRepr()
    {
      hasChunkoptions && chunkoptions != null ==>
        chunkoptions.SizesCached() && chunkoptions.cachedSize == ByteSize(CHUNK_OPTIONS, optionsValue)
    }

    ghost predicate LocationsSized()
      reads this`chunklocation, this`locationValues, chunklocation`cachedSize
    {
      SizedTo(|chunklocation|)
    }

    /** The cached sizes of all owned messages are current. */
    ghost predicate SizesCached()
      reads this, chunkoptions, OptionsRepr(), chunklocation
    {
      OptionsSized() && LocationsSized()
    }

    /** Each element is sized, which caches its size. */
    method SizeLocations() returns (n: nat)
      requires OwnsOptions() && OwnsLocations()
      modifies chunklocation`cachedSize
      ensures OwnsOptions() && OwnsLocations() && LocationsSized()
      ensures Value() == old(Value()) && OptionsRepr() == old(OptionsRepr())
      ensures n == |locationValues| + ManySize(REPLICA_LOCATION, locationValues)
    {
      n := 1 * |chunklocation|;
      var i := 0;
      while i < |chunklocation|
        invariant i <= |chunklocation| && OwnsOptions() && OwnsLocations() && SizedTo(i)
        invariant n == |locationValues| + ManySize(REPLICA_LOCATION, locationValues[..i])
      {
        var size := SizeLocation(i);
        n := n + LenSize(size);
        ManySizePrefix(REPLICA_LOCATION, locationValues, i);
        i := i + 1;
      }
      assert locationValues[..i] == locationValues;
    }

    ghost predicate SizedTo(k: nat)
      reads this`chunklocation, this`locationValues, chunklocation`cachedSize
    {
      && |locationValues| == |chunklocation|
      && forall i :: 0 <= i < k && i < |chunklocation| ==>
           chunklocation[i].cachedSize == ByteSize(REPLICA_LOCATION, locationValues[i])
    }

    method SizeLocation(i: nat) returns (n: nat)
      requires OwnsOptions() && OwnsLocations() && i < |chunklocation| && SizedTo(i)
      modifies chunklocation`cachedSize
      ensures OwnsOptions() && OwnsLocations() && SizedTo(i + 1)
      ensures Value() == old(Value()) && OptionsRepr() == old(OptionsRepr())
      ensures n == ByteSize(REPLICA_LOCATION, locationValues[i])
    {
      n := chunklocation[i].ByteSizeLong();
    }

    method SizeOptions() returns (n: nat)
      requires OwnsOptions()
      modifies OptionsRepr()
      ensures OwnsOptions() && OptionsSized() && OptionsRepr() == old(OptionsRepr())
      ensures n == CellSize(1, Sub(CHUNK_OPTIONS), OptionsCell())
    {
      n := 0;
      if hasChunkoptions {
        var size := chunkoptions.ByteSizeLong();
        n := 1 + LenSize(size);
      }
    }

    /** The part of the size the two scalars contribute. */
    function PlainSize(): (n: nat)
      reads this
      ensures n == CellSize(3, UInt32, NumCell(hasExponent, exponent))
                 + CellSize(4, UInt32, NumCell(hasCategory, category))
    {
      (if hasExponent then 1 + ScalarSize(UInt32, exponent) else 0)
      + (if hasCategory then 1 + ScalarSize(UInt32, category) else 0)
    }

    /** The singular fields, skipped as a group when no has-bit is set. */
    method SizeGroup() returns (n: nat)
      requires OwnsOptions() && OwnsLocations() && LocationsSized()
      modifies OptionsRepr()
      ensures OwnsOptions() && OptionsSized() && OptionsRepr() == old(OptionsRepr())
      ensures OwnsLocations() && LocationsSized() && Value() == old(Value())
      ensures n == CellSize(1, Sub(CHUNK_OPTIONS), OptionsCell()) + PlainSize()
    {
      n := 0;
      if hasChunkoptions || hasExponent || hasCategory {
        n := SizeOptions();
        n := n + PlainSize();
      }
    }

    method ByteSizeLong() returns (n: nat)
      requires Valid()
      modifies this`cachedSize, OptionsRepr(), chunklocation`cachedSize
      ensures Valid() && SizesCached()
      ensures Value() == old(Value())
      ensures n == cachedSize == ByteSize(ACCELERATE_OPEN_OPTIONS, Value())
    {
      hide ByteSize, CellSize, ManySize, OwnsLocations;
      n := SizeParts();
      cachedSize := n;
      SizeOfParts();
    }

    /** Field by field. */
    method SizeParts() returns (n: nat)
      requires Valid()
      modifies OptionsRepr(), chunklocation`cachedSize
      ensures Valid() && SizesCached() && Value() == old(Value())
      ensures n == |locationValues| + ManySize(REPLICA_LOCATION, locationValues)
                 + CellSize(1, Sub(CHUNK_OPTIONS), OptionsCell()) + PlainSize()
    {
      n := SizeLocations();
      var group := SizeGroup();
      n := n + group;
    }

    lemma SizeOfParts()
      ensures ByteSize(ACCELERATE_OPEN_OPTIONS, Value())
           == |locationValues| + ManySize(REPLICA_LOCATION, locationValues)
            + CellSize(1, Sub(CHUNK_OPTIONS), OptionsCell()) + PlainSize()
    {
      SizeFour(Sub(CHUNK_OPTIONS), Rep(REPLICA_LOCATION), UInt32, UInt32, Value().cells);
    }

    /** Each element behind its tag and its cached size. */
    method WriteLocations() returns (target: bytes)
      requires OwnsLocations()
      ensures LocationsSized() ==> target == EncodeMany(2, REPLICA_LOCATION, locationValues)
    {
      target := [];
      var i := 0;
      while i < |chunklocation|
        invariant i <= |chunklocation| == |locationValues|
        invariant LocationsSized() ==> target == EncodeMany(2, REPLICA_LOCATION, locationValues[..i])
      {
        var element := WriteLocation(i);
        target := target + element;
        EncodeManyPrefix(2, REPLICA_LOCATION, locationValues, i);
        i := i + 1;
      }
      assert locationValues[..i] == locationValues;
    }

    method WriteLocation(i: nat) returns (target: bytes)
      requires OwnsLocations() && i < |chunklocation|
      ensures LocationsSized() ==> target == WriteField(Len(2, Encode(REPLICA_LOCATION, locationValues[i])))
    {
      var body := chunklocation[i].InternalSerialize();
      target := WriteMessage(2, chunklocation[i].cachedSize, body);
      SizeIsLength(REPLICA_LOCATION, locationValues[i]);
    }

    method WriteOptions() returns (target: bytes)
      requires OwnsOptions()
      ensures OptionsSized() ==> target == EncodeCell(1, Sub(CHUNK_OPTIONS), OptionsCell())
    {
      target := [];
      if hasChunkoptions {
        var body := chunkoptions.InternalSerialize();
        SizeIsLength(CHUNK_OPTIONS, optionsValue);
        target := WriteMessage(1, chunkoptions.cachedSize, body);
      }
    }

    /** Relies on sizes cached by `ByteSizeLong` for the length prefixes. */
    method InternalSerialize() returns (target: bytes)
      requires Valid()
      ensures SizesCached() ==> target == Encode(ACCELERATE_OPEN_OPTIONS, Value())
    {
      hide Encode;
      EncodeFour(Sub(CHUNK_OPTIONS), Rep(REPLICA_LOCATION), UInt32, UInt32, Value().cells);
      target := WriteOptions();
      var locations := WriteLocations();
      target := target + locations;
      ghost var subs := target;
      if hasExponent { target := target + WriteScalar(3, UInt32, exponent); }
      assert target == subs + EncodeCell(3, UInt32, Value().cells[2]);
      if hasCategory { target := target + WriteScalar(4, UInt32, category); }
      assert target == subs + EncodeCell(3, UInt32, Value().cells[2]) + EncodeCell(4, UInt32, Value().cells[3]);
    }

    /** Sizes first, then bytes: the length returned is the length written. */
    method SerializeToArray() returns (size: nat, target: bytes)
      requires Valid()
      modifies this`cachedSize, OptionsRepr(), chunklocation`cachedSize
      ensures Valid() && Value() == old(Value())
      ensures target == Encode(ACCELERATE_OPEN_OPTIONS, Value()) && size == |target|
    {
      size := ByteSizeLong();
      target := InternalSerialize();
      SizeIsLength(ACCELERATE_OPEN_OPTIONS, Value());
    }

    // ---------------------------------------------------------------- merging

    /** The two messages share nothing. */
    ghost predicate Apart(other: AccelerateOpenOptionsPB)
      reads this, other, chunkoptions, other.chunkoptions
    {
      && this != other
      && (chunkoptions != null && other.chunkoptions != null ==> chunkoptions.Apart(other.chunkoptions))
    }

    /** `RepeatedPtrField::MergeFrom`: a deep copy of each element is appended. */
    method MergeLocations(from: AccelerateOpenOptionsPB)
      requires OwnsLocations() && from.OwnsLocations() && from != this
      modifies this`chunklocation, this`locationValues
      ensures OwnsLocations() && locationValues == old(locationValues) + from.locationValues
    {
      var i := 0;
      while i < |from.chunklocation|
        invariant i <= |from.chunklocation| == |from.locationValues|
        invariant OwnsLocations() && from.OwnsLocations()
        invariant locationValues == old(locationValues) + from.locationValues[..i]
      {
        AppendCopy(from.chunklocation[i]);
        i := i + 1;
      }
      assert from.locationValues[..i] == from.locationValues;
    }

    method AppendCopy(other: ReplicaLocationPB)
      requires OwnsLocations() && other.Valid()
      modifies this`chunklocation, this`locationValues
      ensures OwnsLocations() && locationValues == old(locationValues) + [other.Value()]
    {
      var e := AddChunkLocation();
      assert forall i :: 0 <= i < |chunklocation| - 1 ==> chunklocation[i] != e;
      e.MergeFrom(other);
      ReplicaLocationTyped(other);
      MergeDefaultLeft(REPLICA_LOCATION, other.Value());
      locationValues := old(locationValues) + [other.Value()];
    }

    /** The submessage of the other message is merged into this one's. */
    method MergeOptions(other: ChunkOptionsPB)
      requires OwnsOptions() && OwnsLocations()
      requires other.Valid() && (chunkoptions != null ==> chunkoptions.Apart(other))
      modifies this`hasChunkoptions, this`chunkoptions, this`optionsValue, OptionsRepr()
      ensures OwnsOptions() && OwnsLocations() && fresh(OptionsRepr() - old(OptionsRepr()))
      ensures hasChunkoptions
      ensures optionsValue == Merge(CHUNK_OPTIONS, Existing(CHUNK_OPTIONS, old(OptionsCell())), old(other.Value()))
    {
      var sub := MutableChunkOptions();
      assert forall i :: 0 <= i < |chunklocation| ==> chunklocation[i] !in sub.Repr();
      sub.MergeFrom(other);
      optionsValue := sub.Value();
    }

    method MergeOptionsField(from: AccelerateOpenOptionsPB)
      requires OwnsOptions() && OwnsLocations() && from.OwnsOptions() && Apart(from)
      modifies this`hasChunkoptions, this`chunkoptions, this`optionsValue, OptionsRepr()
      ensures OwnsOptions() && OwnsLocations() && fresh(OptionsRepr() - old(OptionsRepr()))
      ensures OptionsCell() == MergeCell(Sub(CHUNK_OPTIONS), old(OptionsCell()), old(from.OptionsCell()))
    {
      if from.hasChunkoptions { MergeOptions(from.chunkoptions); }
    }

    /** The scalars, and the has-bits of all singular fields. */
    method MergePlain(from: AccelerateOpenOptionsPB)
      requires from != this && (!hasExponent ==> exponent == 0) && (!hasCategory ==> category == 0)
      modifies this`exponent, this`category, this`hasExponent, this`hasCategory
      ensures (!hasExponent ==> exponent == 0) && (!hasCategory ==> category == 0)
      ensures ExponentCell() == MergeCell(UInt32, old(ExponentCell()), from.ExponentCell())
      ensures CategoryCell() == MergeCell(UInt32, old(CategoryCell()), from.CategoryCell())
    {
      if from.hasExponent { exponent := from.exponent; }
      if from.hasCategory { category := from.category; }
      hasExponent, hasCategory := hasExponent || from.hasExponent, hasCategory || from.hasCategory;
    }

    /** The singular fields, skipped as a group when the other message has none of them. */
    method MergeGroup(from: AccelerateOpenOptionsPB)
      requires Valid() && from.OwnsOptions() && Apart(from)
      modifies this`hasChunkoptions, this`chunkoptions, this`optionsValue, OptionsRepr()
      modifies this`exponent, this`category, this`hasExponent, this`hasCategory
      ensures Valid() && fresh(OptionsRepr() - old(OptionsRepr()))
      ensures OptionsCell() == MergeCell(Sub(CHUNK_OPTIONS), old(OptionsCell()), old(from.OptionsCell()))
      ensures ExponentCell() == MergeCell(UInt32, old(ExponentCell()), old(from.ExponentCell()))
      ensures CategoryCell() == MergeCell(UInt32, old(CategoryCell()), old(from.CategoryCell()))
    {
      if from.hasChunkoptions || from.hasExponent || from.hasCategory {
        MergeSingular(from);
      }
    }

    method MergeSingular(from: AccelerateOpenOptionsPB)
      requires Valid() && from.OwnsOptions() && Apart(from)
      modifies this`hasChunkoptions, this`chunkoptions, this`optionsValue, OptionsRepr()
      modifies this`exponent, this`category, this`hasExponent, this`hasCategory
      ensures Valid() && fresh(OptionsRepr() - old(OptionsRepr()))
      ensures OptionsCell() == MergeCell(Sub(CHUNK_OPTIONS), old(OptionsCell()), old(from.OptionsCell()))
      ensures ExponentCell() == MergeCell(UInt32, old(ExponentCell()), old(from.ExponentCell()))
      ensures CategoryCell() == MergeCell(UInt32, old(CategoryCell()), old(from.CategoryCell()))
    {
      MergePlain(from);
      MergeOptionsField(from);
    }

    method MergeFrom(from: AccelerateOpenOptionsPB)
      requires Valid() && from.Valid() && Apart(from)
      modifies this, OptionsRepr()
      ensures Valid() && fresh(OptionsRepr() - old(OptionsRepr()))
      ensures Value() == Merge(ACCELERATE_OPEN_OPTIONS, old(Value()), old(from.Value()))
    {
      ghost var a, b := Value(), from.Value();
      MergeParts(from);
      MergeOfParts(a, b, Value());
    }

    /** Field by field. */
    method MergeParts(from: AccelerateOpenOptionsPB)
      requires Valid() && from.Valid() && Apart(from)
      modifies this, OptionsRepr()
      ensures Valid() && fresh(OptionsRepr() - old(OptionsRepr()))
      ensures locationValues == old(locationValues) + old(from.locationValues)
      ensures OptionsCell() == MergeCell(Sub(CHUNK_OPTIONS), old(OptionsCell()), old(from.OptionsCell()))
      ensures ExponentCell() == MergeCell(UInt32, old(ExponentCell()), old(from.ExponentCell()))
      ensures CategoryCell() == MergeCell(UInt32, old(CategoryCell()), old(from.CategoryCell()))
    {
      MergeLocations(from);
      MergeGroup(from);
    }

    static lemma MergeOfParts(a: Msg, b: Msg, r: Msg)
      requires |a.cells| == |b.cells| == |r.cells| == 4
      requires r.cells[0] == MergeCell(Sub(CHUNK_OPTIONS), a.cells[0], b.cells[0])
      requires r.cells[1] == MergeCell(Rep(REPLICA_LOCATION), a.cells[1], b.cells[1])
      requires r.cells[2] == MergeCell(UInt32, a.cells[2], b.cells[2])
      requires r.cells[3] == MergeCell(UInt32, a.cells[3], b.cells[3])
      ensures r == Merge(ACCELERATE_OPEN_OPTIONS, a, b)
    {
    }

    method CopyFrom(from: AccelerateOpenOptionsPB)
      requires Valid() && from.Valid() && (from == this || Apart(from))
      modifies this, OptionsRepr()
      ensures Valid() && fresh(OptionsRepr() - old(OptionsRepr()))
      ensures Value() == old(from.Value())
    {
      if from == this {
        return;
      }
      Clear();
      AccelerateTyped(from);
      MergeDefaultLeft(ACCELERATE_OPEN_OPTIONS, from.Value());
      MergeFrom(from);
    }
  }

  lemma AccelerateFields()
    ensures DeclaredAt(ACCELERATE_OPEN_OPTIONS, 0, 1, Sub(CHUNK_OPTIONS))
    ensures DeclaredAt(ACCELERATE_OPEN_OPTIONS, 1, 2, Rep(REPLICA_LOCATION))
    ensures DeclaredAt(ACCELERATE_OPEN_OPTIONS, 2, 3, UInt32)
    ensures DeclaredAt(ACCELERATE_OPEN_OPTIONS, 3, 4, UInt32)
  {
  }

  lemma AccelerateCases(tag: nat)
    ensures Case(tag, 1, 10) ==> tag == Tag(1, WT_LEN)
    ensures Case(tag, 2, 18) ==> tag == Tag(2, WT_LEN)
    ensures Case(tag, 3, 24) ==> tag == Tag(3, WT_VARINT)
    ensures Case(tag, 4, 32) ==> tag == Tag(4, WT_VARINT)
    ensures Declares(ACCELERATE_OPEN_OPTIONS, tag) ==>
      Case(tag, 1, 10) || Case(tag, 2, 18) || Case(tag, 3, 24) || Case(tag, 4, 32)
  {
  }

  lemma AccelerateTyped(m: AccelerateOpenOptionsPB)
    requires m.Valid()
    ensures Typed(ACCELERATE_OPEN_OPTIONS, m.Value())
  {
    if m.chunkoptions != null { ChunkOptionsTyped(m.chunkoptions); }
    forall e | e in m.locationValues ensures Typed(REPLICA_LOCATION, e) {
      var i :| 0 <= i < |m.locationValues| && m.locationValues[i] == e;
      ReplicaLocationTyped(m.chunklocation[i]);
    }
  }
}
