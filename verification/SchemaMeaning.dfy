/**
 What parsing, merging and serializing do to each single value, without reference to one another: which
 integer a record stands for, which of two values survives at every place of a message, and in which
 order fields are written.
 */
module SchemaMeaning {
  import opened Wire
  import opened Schema
  import opened SchemaLaws
  import opened FlatProto

  // ---------------------------------------------------------------- integers on the wire

  /** An integer is written as the unsigned 64-bit number congruent to it. */
  lemma ToWireMeans(k: Kind, v: int)
    requires InRange(k, v)
    ensures ToWire(k, v) == v || ToWire(k, v) == v + 0x1_0000_0000_0000_0000
    ensures 0 <= ToWire(k, v) < 0x1_0000_0000_0000_0000
  {
  }

  /** And read as the number of the field's range congruent to what was written; bools as whether it is zero. */
  lemma FromWireMeans(k: Kind, u: uint64)
    requires !k.Bytes? && !k.Sub? && !k.Rep?
    ensures InRange(k, FromWire(k, u))
    ensures k.Int32? || k.UInt32? ==> (u - FromWire(k, u)) % 0x1_0000_0000 == 0
    ensures k.Int64? ==> FromWire(k, u) == u || FromWire(k, u) == u - 0x1_0000_0000_0000_0000
    ensures k.UInt64? || k.Fixed? ==> FromWire(k, u) == u
    ensures k.Bool? ==> (FromWire(k, u) == 0 <==> u == 0)
  {
    if k.Int32? || k.UInt32? {
      var q, v := u / 0x1_0000_0000, FromWire(k, u);
      assert u - v == 0x1_0000_0000 * q || u - v == 0x1_0000_0000 * (q + 1);
      WholeWords(if v < 0 then q + 1 else q);
    }
  }

  lemma WholeWords(q: nat)
    ensures (0x1_0000_0000 * q) % 0x1_0000_0000 == 0
  {
  }

  // ---------------------------------------------------------------- one record sets one field

  lemma ParseOne(sc: Schema, m: Msg, i: nat, f: Field)
    requires Valid(sc) && |m.cells| == |sc.fields| && i < |sc.fields|
    requires Writable(f) && f.number == sc.fields[i].number
    ensures var c := ApplyCell(sc.fields[i].kind, m.cells[i], f);
      Parse(sc, m, WriteField(f)) == if c.None? then None else Some(Msg(m.cells[i := c.value]))
  {
    var w := WriteField(f);
    FieldRoundTrip(f, []);
    assert w + [] == w && w[|w|..] == [];
    assert w != [];
    FindDeclared(sc, i);
    var c := ApplyCell(sc.fields[i].kind, m.cells[i], f);
    if c.Some? { assert Parse(sc, Msg(m.cells[i := c.value]), []) == Some(Msg(m.cells[i := c.value])); }
  }

  lemma FindDeclared(sc: Schema, i: nat)
    requires Valid(sc) && i < |sc.fields|
    ensures Find(sc.fields, sc.fields[i].number) == i
  {
  }

  /** A scalar record sets its field to the value written, whatever was there, and nothing else. */
  lemma ScalarSet(sc: Schema, m: Msg, i: nat, v: int)
    requires Valid(sc) && |m.cells| == |sc.fields| && i < |sc.fields| && InRange(sc.fields[i].kind, v)
    ensures Parse(sc, m, WriteField(ScalarField(sc.fields[i].number, sc.fields[i].kind, v)))
         == Some(Msg(m.cells[i := Num(v)]))
  {
    var k := sc.fields[i].kind;
    ScalarRoundTrip(k, v);
    ParseOne(sc, m, i, ScalarField(sc.fields[i].number, k, v));
  }

  lemma BytesSet(sc: Schema, m: Msg, i: nat, b: bytes)
    requires Valid(sc) && |m.cells| == |sc.fields| && i < |sc.fields| && sc.fields[i].kind.Bytes? && |b| <= MAX_LEN
    ensures Parse(sc, m, WriteField(Len(sc.fields[i].number, b))) == Some(Msg(m.cells[i := Blob(b)]))
  {
    ParseOne(sc, m, i, Len(sc.fields[i].number, b));
  }

  // ---------------------------------------------------------------- merging, place by place

  /** A path goes through submessages by field index. */
  predicate IsPath(sc: Schema, path: seq<nat>)
    decreases |path|
  {
    && path != [] && path[0] < |sc.fields|
    && (|path| > 1 ==> sc.fields[path[0]].kind.Sub? && IsPath(sc.fields[path[0]].kind.schema, path[1..]))
  }

  function KindOf(sc: Schema, path: seq<nat>): Kind
    requires IsPath(sc, path)
    decreases |path|
  {
    if |path| == 1 then sc.fields[path[0]].kind else KindOf(sc.fields[path[0]].kind.schema, path[1..])
  }

  /** What a message holds at a path; nothing behind an absent submessage. */
  function At(m: Msg, path: seq<nat>): Cell
    requires path != []
    decreases |path|
  {
    var c := CellAt(m, path[0]);
    if |path| == 1 then c else if c.One? then At(c.msg, path[1..]) else Absent
  }

  lemma {:induction false} DefaultHasNothing(sc: Schema, path: seq<nat>)
    requires IsPath(sc, path)
    ensures At(Default(sc), path).Absent? || At(Default(sc), path) == Many([])
    decreases |path|
  {
  }

  /**
   At every place of every depth: a number or string set in `b` wins, otherwise that of `a` stays;
   repeated elements of `a` come before those of `b`; a submessage is there if either has it.
   */
  lemma {:induction false} MergedAt(sc: Schema, a: Msg, b: Msg, path: seq<nat>)
    requires Typed(sc, a) && Typed(sc, b) && IsPath(sc, path)
    ensures var r, x, y := At(Merge(sc, a, b), path), At(a, path), At(b, path);
      match KindOf(sc, path)
      case Sub(_) => r.One? <==> x.One? || y.One?
      case Rep(_) => Elements(r) == Elements(x) + Elements(y)
      case _ => r == if y.Absent? then x else y
    decreases |path|
  {
    var i, k := path[0], sc.fields[path[0]].kind;
    assert TypedCell(k, a.cells[i]) && TypedCell(k, b.cells[i]);
    if |path| > 1 && b.cells[i].One? {
      ExistingTyped(k.schema, a.cells[i]);
      MergedAt(k.schema, Existing(k.schema, a.cells[i]), b.cells[i].msg, path[1..]);
      DefaultHasNothing(k.schema, path[1..]);
    }
  }

  // ---------------------------------------------------------------- the order of the bytes

  /** The message with fields `lo` up to `hi` only. */
  function Only(sc: Schema, m: Msg, lo: nat, hi: nat): Msg
    requires |m.cells| == |sc.fields|
  {
    Msg(seq(|sc.fields|, i requires 0 <= i < |sc.fields| =>
      if lo <= i < hi then m.cells[i] else DefaultCell(sc.fields[i].kind)))
  }

  lemma DefaultWritesNothing(number: nat, k: Kind)
    ensures EncodeCell(number, k, DefaultCell(k)) == []
  {
    if k.Rep? { assert EncodeMany(number, k.schema, []) == []; }
  }

  lemma {:induction false} NothingWritten(sc: Schema, m: Msg, j: nat)
    requires |m.cells| == |sc.fields| && j <= |sc.fields|
    requires forall i :: j <= i < |sc.fields| ==> m.cells[i] == DefaultCell(sc.fields[i].kind)
    ensures EncodeFrom(sc, m, j) == []
    decreases |sc.fields| - j
  {
    if j < |sc.fields| {
      DefaultWritesNothing(sc.fields[j].number, sc.fields[j].kind);
      NothingWritten(sc, m, j + 1);
    }
  }

  lemma {:induction false} SameTail(sc: Schema, m: Msg, m': Msg, j: nat)
    requires |m.cells| == |m'.cells| == |sc.fields| && j <= |sc.fields|
    requires forall i :: j <= i < |sc.fields| ==> m.cells[i] == m'.cells[i]
    ensures EncodeFrom(sc, m, j) == EncodeFrom(sc, m', j)
    decreases |sc.fields| - j
  {
    if j < |sc.fields| { SameTail(sc, m, m', j + 1); }
  }

  lemma {:induction false} SplitFrom(sc: Schema, m: Msg, i: nat, j: nat)
    requires |m.cells| == |sc.fields| && j <= i <= |sc.fields|
    ensures EncodeFrom(sc, m, j)
         == EncodeFrom(sc, Only(sc, m, 0, i), j) + EncodeFrom(sc, Only(sc, m, i, |sc.fields|), j)
    decreases i - j
  {
    var a, b := Only(sc, m, 0, i), Only(sc, m, i, |sc.fields|);
    if j == i {
      NothingWritten(sc, a, i);
      SameTail(sc, m, b, i);
    } else {
      SplitFrom(sc, m, i, j + 1);
      DefaultWritesNothing(sc.fields[j].number, sc.fields[j].kind);
      var c := EncodeCell(sc.fields[j].number, sc.fields[j].kind, m.cells[j]);
      var x, y := EncodeFrom(sc, a, j + 1), EncodeFrom(sc, b, j + 1);
      assert c + (x + y) == c + x + y && [] + y == y;
    }
  }

  /** Fields are written in the order of the schema: those before `i`, then the others. */
  lemma FieldsInOrder(sc: Schema, m: Msg, i: nat)
    requires |m.cells| == |sc.fields| && i <= |sc.fields|
    ensures Encode(sc, m) == Encode(sc, Only(sc, m, 0, i)) + Encode(sc, Only(sc, m, i, |sc.fields|))
  {
    SplitFrom(sc, m, i, 0);
  }

  lemma {:induction false} ElementsInOrder(number: nat, s: Schema, x: seq<Msg>, y: seq<Msg>)
    ensures EncodeMany(number, s, x + y) == EncodeMany(number, s, x) + EncodeMany(number, s, y)
    decreases |x|
  {
    hide WriteField, Encode;
    if x == [] {
      assert x + y == y;
    } else {
      ElementsInOrder(number, s, x[1..], y);
      assert (x + y)[0] == x[0] && (x + y)[1..] == x[1..] + y;
    }
  }

  /** A MirrorArgsPB with Copy = 300 and FTT = -1, byte by byte. */
  lemma MirrorArgsBytes()
    ensures Encode(MIRROR_ARGS, Msg([Num(300), Absent])) == [8, 172, 2]
    ensures Encode(MIRROR_ARGS, Msg([Absent, Num(-1)])) == [16, 255, 255, 255, 255, 255, 255, 255, 255, 255, 1]
  {
    EncodeTwo(Int32, Int32, [Num(300), Absent]);
    EncodeTwo(Int32, Int32, [Absent, Num(-1)]);
    SmallVarints();
    MinusOne();
    hide WriteVarint;
    assert EncodeCell(1, Int32, Num(300)) == WriteVarint(8) + WriteVarint(300);
    assert EncodeCell(2, Int32, Num(-1)) == WriteVarint(16) + WriteVarint(0xffff_ffff_ffff_ffff);
  }

  lemma SmallVarints()
    ensures WriteVarint(1) == [1] && WriteVarint(8) == [8] && WriteVarint(16) == [16] && WriteVarint(300) == [172, 2]
  {
  }

  lemma AllOnes(v: nat)
    requires v >= 1
    ensures WriteVarint(128 * v + 127) == [255] + WriteVarint(v)
  {
  }

  lemma MinusOne()
    ensures WriteVarint(0xffff_ffff_ffff_ffff) == [255, 255, 255, 255, 255, 255, 255, 255, 255, 1]
  {
    SmallVarints();
    hide WriteVarint;
    AllOnes(0x1);
    AllOnes(0xff);
    AllOnes(0x7fff);
    AllOnes(0x3f_ffff);
    AllOnes(0x1fff_ffff);
    AllOnes(0xf_ffff_ffff);
    AllOnes(0x7ff_ffff_ffff);
    AllOnes(0x3_ffff_ffff_ffff);
    AllOnes(0x1ff_ffff_ffff_ffff);
  }
}
