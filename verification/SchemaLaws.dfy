/** The laws that tie parsing, serializing, sizing and merging together, for every schema. */
module SchemaLaws {
  import opened Wire
  import opened Schema

  lemma DefaultTyped(sc: Schema)
    ensures Typed(sc, Default(sc))
  {
  }

  // ---------------------------------------------------------------- merging is a monoid

  lemma {:induction false} MergeDefaultLeft(sc: Schema, b: Msg)
    requires Typed(sc, b)
    ensures Merge(sc, Default(sc), b) == b
    decreases sc
  {
    forall i | 0 <= i < |sc.fields|
      ensures MergeCell(sc.fields[i].kind, Default(sc).cells[i], b.cells[i]) == b.cells[i]
    {
      var k, c := sc.fields[i].kind, b.cells[i];
      assert TypedCell(k, c);
      if c.One? { MergeDefaultLeft(k.schema, c.msg); }
    }
  }

  lemma MergeDefaultRight(sc: Schema, a: Msg)
    requires Typed(sc, a)
    ensures Merge(sc, a, Default(sc)) == a
  {
    forall i | 0 <= i < |sc.fields|
      ensures MergeCell(sc.fields[i].kind, a.cells[i], Default(sc).cells[i]) == a.cells[i]
    {
      assert TypedCell(sc.fields[i].kind, a.cells[i]);
    }
  }

  lemma {:induction false} MergeAssociative(sc: Schema, a: Msg, b: Msg, c: Msg)
    requires Typed(sc, a) && Typed(sc, b) && Typed(sc, c)
    ensures Merge(sc, Merge(sc, a, b), c) == Merge(sc, a, Merge(sc, b, c))
    decreases sc
  {
    forall i | 0 <= i < |sc.fields|
      ensures Merge(sc, Merge(sc, a, b), c).cells[i] == Merge(sc, a, Merge(sc, b, c)).cells[i]
    {
      MergeCellAssociative(sc, i, a.cells[i], b.cells[i], c.cells[i]);
    }
  }

  lemma {:induction false} MergeCellAssociative(sc: Schema, i: nat, a: Cell, b: Cell, c: Cell)
    requires i < |sc.fields|
    requires var k := sc.fields[i].kind; TypedCell(k, a) && TypedCell(k, b) && TypedCell(k, c)
    ensures var k := sc.fields[i].kind;
      MergeCell(k, MergeCell(k, a, b), c) == MergeCell(k, a, MergeCell(k, b, c))
    decreases sc, 0
  {
    var k := sc.fields[i].kind;
    if k.Sub? && b.One? && c.One? {
      ExistingTyped(k.schema, a);
      MergeAssociative(k.schema, Existing(k.schema, a), b.msg, c.msg);
    } else if k.Sub? && c.One? {
      MergeDefaultLeft(k.schema, c.msg);
    } else if k.Rep? {
      assert a.msgs + b.msgs + c.msgs == a.msgs + (b.msgs + c.msgs);
    }
  }

  lemma ExistingTyped(s: Schema, c: Cell)
    requires TypedCell(Sub(s), c)
    ensures Typed(s, Existing(s, c))
  {
  }

  /** Merging keeps messages well typed. */
  lemma {:induction false} MergeTyped(sc: Schema, a: Msg, b: Msg)
    requires Typed(sc, a) && Typed(sc, b)
    ensures Typed(sc, Merge(sc, a, b))
    decreases sc
  {
    forall i | 0 <= i < |sc.fields|
      ensures TypedCell(sc.fields[i].kind, Merge(sc, a, b).cells[i])
    {
      var k := sc.fields[i].kind;
      assert TypedCell(k, a.cells[i]) && TypedCell(k, b.cells[i]);
      if k.Sub? && b.cells[i].One? {
        ExistingTyped(k.schema, a.cells[i]);
        MergeTyped(k.schema, Existing(k.schema, a.cells[i]), b.cells[i].msg);
      }
    }
  }

  // ---------------------------------------------------------------- computed sizes

  lemma TagSizeIsLength(number: nat, wireType: nat)
    requires wireType < 8
    ensures |WriteTag(number, wireType)| == TagSize(number)
  {
    WriteVarintSize(Tag(number, wireType));
    assert Tag(number, wireType) / 128 == number * 8 / 128;
  }

  lemma LenFieldSize(number: nat, payload: bytes)
    ensures |WriteField(Len(number, payload))| == TagSize(number) + LenSize(|payload|)
  {
    TagSizeIsLength(number, WT_LEN);
    WriteVarintSize(|payload|);
  }

  lemma {:induction false} VarintSizeOf(u: nat, k: nat)
    requires k >= 1 && u < Pow128(k) && (k == 1 || Pow128(k - 1) <= u)
    ensures VarintSize(u) == k
  {
    if k > 1 { VarintSizeOf(u / 128, k - 1); }
  }

  /** A negative integer always takes ten bytes. */
  lemma NegativeVarintSize(u: nat)
    requires TWO64 / 2 <= u < TWO64
    ensures VarintSize(u) == 10
  {
    Pow128Values();
    VarintSizeOf(u, 10);
  }

  lemma ScalarFieldSize(number: nat, k: Kind, v: int)
    requires InRange(k, v)
    ensures |WriteField(ScalarField(number, k, v))| == TagSize(number) + ScalarSize(k, v)
  {
    TagSizeIsLength(number, WT_VARINT);
    TagSizeIsLength(number, WT_FIXED64);
    if !k.Fixed? {
      WriteVarintSize(ToWire(k, v));
      if v < 0 { NegativeVarintSize(v + TWO64); }
    }
  }

  /** `ByteSizeLong` returns exactly the number of bytes `_InternalSerialize` writes. */
  lemma {:induction false} SizeIsLength(sc: Schema, m: Msg)
    ensures ByteSize(sc, m) == |Encode(sc, m)|
    decreases sc, |sc.fields| + 1
  {
    SizeIsLengthFrom(sc, m, 0);
  }

  lemma {:induction false} SizeIsLengthFrom(sc: Schema, m: Msg, i: nat)
    requires i <= |sc.fields|
    ensures ByteSizeFrom(sc, m, i) == |EncodeFrom(sc, m, i)|
    decreases sc, |sc.fields| - i
  {
    if i < |sc.fields| {
      CellSizeIsLength(sc.fields[i].number, sc.fields[i].kind, CellAt(m, i));
      SizeIsLengthFrom(sc, m, i + 1);
    }
  }

  lemma {:induction false} CellSizeIsLength(number: nat, k: Kind, c: Cell)
    ensures CellSize(number, k, c) == |EncodeCell(number, k, c)|
    decreases k, 0
  {
    match k
    case Bytes => if c.Blob? { LenFieldSize(number, c.b); }
    case Sub(s) =>
      if c.One? {
        SizeIsLength(s, c.msg);
        LenFieldSize(number, Encode(s, c.msg));
      }
    case Rep(s) => ManySizeIsLength(number, s, Elements(c));
    case _ => if c.Num? && InRange(k, c.v) { ScalarFieldSize(number, k, c.v); }
  }

  lemma TimesSuccessor(n: nat, t: nat)
    ensures (n + 1) * t == t + n * t
  {
  }

  lemma {:induction false} ManySizeIsLength(number: nat, s: Schema, subs: seq<Msg>)
    ensures |subs| * TagSize(number) + ManySize(s, subs) == |EncodeMany(number, s, subs)|
    decreases s, |s.fields| + 2, |subs|
  {
    if subs != [] {
      SizeIsLength(s, subs[0]);
      LenFieldSize(number, Encode(s, subs[0]));
      ManySizeIsLength(number, s, subs[1..]);
      TimesSuccessor(|subs[1..]|, TagSize(number));
    }
  }

  // ---------------------------------------------------------------- repeated fields grow at the end

  lemma {:induction false} EncodeManyAppend(number: nat, s: Schema, subs: seq<Msg>, e: Msg)
    ensures EncodeMany(number, s, subs + [e])
         == EncodeMany(number, s, subs) + WriteField(Len(number, Encode(s, e)))
  {
    hide WriteField;
    if subs == [] {
      assert subs + [e] == [e];
    } else {
      EncodeManyAppend(number, s, subs[1..], e);
      assert (subs + [e])[1..] == subs[1..] + [e];
    }
  }

  lemma {:induction false} ManySizeAppend(s: Schema, subs: seq<Msg>, e: Msg)
    ensures ManySize(s, subs + [e]) == ManySize(s, subs) + LenSize(ByteSize(s, e))
  {
    if subs == [] {
      assert subs + [e] == [e];
    } else {
      ManySizeAppend(s, subs[1..], e);
      assert (subs + [e])[1..] == subs[1..] + [e];
    }
  }

  lemma EncodeManyPrefix(number: nat, s: Schema, subs: seq<Msg>, i: nat)
    requires i < |subs|
    ensures EncodeMany(number, s, subs[..i + 1])
         == EncodeMany(number, s, subs[..i]) + WriteField(Len(number, Encode(s, subs[i])))
  {
    hide Encode, WriteField, EncodeMany;
    EncodeManyAppend(number, s, subs[..i], subs[i]);
    assert subs[..i + 1] == subs[..i] + [subs[i]];
  }

  lemma ManySizePrefix(s: Schema, subs: seq<Msg>, i: nat)
    requires i < |subs|
    ensures ManySize(s, subs[..i + 1]) == ManySize(s, subs[..i]) + LenSize(ByteSize(s, subs[i]))
  {
    hide ByteSize, LenSize, ManySize;
    ManySizeAppend(s, subs[..i], subs[i]);
    assert subs[..i + 1] == subs[..i] + [subs[i]];
  }

  // ---------------------------------------------------------------- parsing a concatenation

  /** Parsing `x + y` is parsing `x` and then parsing `y` into the result. */
  lemma {:induction false} ParseConcat(sc: Schema, m: Msg, x: bytes, y: bytes)
    requires Parse(sc, m, x).Some?
    ensures Parse(sc, m, x + y) == Parse(sc, Parse(sc, m, x).value, y)
    decreases |x|
  {
    if x == [] {
      assert x + y == y;
    } else {
      ReadFieldPrefix(x, y);
      var (f, n) := ReadField(x).value;
      assert (x + y)[n..] == x[n..] + y;
      ParseConcat(sc, Apply(sc, m, f).value, x[n..], y);
    }
  }

  lemma ParseOneField(sc: Schema, m: Msg, f: Field)
    requires Writable(f)
    ensures Parse(sc, m, WriteField(f)) == Apply(sc, m, f)
  {
    FieldRoundTrip(f, []);
    var w := WriteField(f);
    assert w + [] == w;
    assert w[|w|..] == [];
  }

  // ---------------------------------------------------------------- parse after serialize is merge

  /** `a` with its first `i` cells merged with those of `b`. */
  function MergedTo(sc: Schema, a: Msg, b: Msg, i: nat): (r: Msg)
    requires i <= |sc.fields| == |a.cells|
  {
    Msg(Merge(sc, a, b).cells[..i] + a.cells[i..])
  }

  lemma FindDeclared(sc: Schema, i: nat)
    requires Valid(sc) && i < |sc.fields|
    ensures Find(sc.fields, sc.fields[i].number) == i
  {
  }

  /**
   Parsing the serialization of `b` into an existing message `m` yields exactly the merge of
   `m` and `b`, for every schema and so at every nesting depth.
   */
  lemma {:induction false} ParseEncodeIsMerge(sc: Schema, m: Msg, b: Msg)
    requires Valid(sc) && Typed(sc, m) && Typed(sc, b) && |Encode(sc, b)| <= MAX_LEN
    ensures Parse(sc, m, Encode(sc, b)) == Some(Merge(sc, m, b))
    decreases sc, |sc.fields| + 1
  {
    ParseEncodeFrom(sc, m, b, 0);
    assert MergedTo(sc, m, b, 0) == m;
  }

  lemma {:induction false} ParseEncodeFrom(sc: Schema, m: Msg, b: Msg, i: nat)
    requires Valid(sc) && Typed(sc, m) && Typed(sc, b) && i <= |sc.fields|
    requires |EncodeFrom(sc, b, i)| <= MAX_LEN
    ensures Parse(sc, MergedTo(sc, m, b, i), EncodeFrom(sc, b, i)) == Some(Merge(sc, m, b))
    decreases sc, |sc.fields| - i
  {
    var mi := MergedTo(sc, m, b, i);
    if i == |sc.fields| {
      assert mi == Merge(sc, m, b);
    } else {
      var x := EncodeCell(sc.fields[i].number, sc.fields[i].kind, b.cells[i]);
      assert Parse(sc, mi, x) == Some(MergedTo(sc, m, b, i + 1)) by {
        ParseCell(sc, mi, i, b.cells[i]);
        MergedNext(sc, m, b, i);
      }
      ParseConcat(sc, mi, x, EncodeFrom(sc, b, i + 1));
      ParseEncodeFrom(sc, m, b, i + 1);
    }
  }

  lemma MergedNext(sc: Schema, m: Msg, b: Msg, i: nat)
    requires Typed(sc, m) && Typed(sc, b) && i < |sc.fields|
    ensures MergedTo(sc, m, b, i).cells[i] == m.cells[i]
    ensures MergedTo(sc, m, b, i).cells[i := MergeCell(sc.fields[i].kind, m.cells[i], b.cells[i])]
         == MergedTo(sc, m, b, i + 1).cells
  {
  }

  lemma {:induction false} ParseCell(sc: Schema, m: Msg, i: nat, c: Cell)
    requires Valid(sc) && |m.cells| == |sc.fields| && i < |sc.fields|
    requires TypedCell(sc.fields[i].kind, m.cells[i]) && TypedCell(sc.fields[i].kind, c)
    requires |EncodeCell(sc.fields[i].number, sc.fields[i].kind, c)| <= MAX_LEN
    ensures Parse(sc, m, EncodeCell(sc.fields[i].number, sc.fields[i].kind, c))
         == Some(Msg(m.cells[i := MergeCell(sc.fields[i].kind, m.cells[i], c)]))
    decreases sc, 0, 2
  {
    var number, k := sc.fields[i].number, sc.fields[i].kind;
    assert ValidKind(k);
    FindDeclared(sc, i);
    match c
    case Absent =>
      assert m.cells[i := m.cells[i]] == m.cells;
    case Num(v) =>
      ScalarRoundTrip(k, v);
      ParseOneField(sc, m, ScalarField(number, k, v));
    case Blob(b) =>
      ParseOneField(sc, m, Len(number, b));
    case One(sub) =>
      ExistingTyped(k.schema, m.cells[i]);
      ParseEncodeIsMerge(k.schema, Existing(k.schema, m.cells[i]), sub);
      ParseOneField(sc, m, Len(number, Encode(k.schema, sub)));
    case Many(subs) =>
      ParseMany(sc, m, i, subs);
  }

  /** `m` with more elements in its repeated field `i`. */
  function Appended(m: Msg, i: nat, subs: seq<Msg>): (r: Msg)
    requires i < |m.cells|
  {
    Msg(m.cells[i := Many(Elements(m.cells[i]) + subs)])
  }

  lemma AppendedTwice(m: Msg, i: nat, subs: seq<Msg>)
    requires i < |m.cells| && subs != []
    ensures Appended(Appended(m, i, [subs[0]]), i, subs[1..]) == Appended(m, i, subs)
  {
    assert Elements(m.cells[i]) + [subs[0]] + subs[1..] == Elements(m.cells[i]) + subs;
  }

  lemma {:induction false} ParseElement(sc: Schema, m: Msg, i: nat, e: Msg)
    requires Valid(sc) && |m.cells| == |sc.fields| && i < |sc.fields| && sc.fields[i].kind.Rep?
    requires Typed(sc.fields[i].kind.schema, e) && |Encode(sc.fields[i].kind.schema, e)| <= MAX_LEN
    ensures Parse(sc, m, WriteField(Len(sc.fields[i].number, Encode(sc.fields[i].kind.schema, e))))
         == Some(Appended(m, i, [e]))
    decreases sc, 0, 0, 0
  {
    var s := sc.fields[i].kind.schema;
    assert ValidKind(sc.fields[i].kind);
    FindDeclared(sc, i);
    DefaultTyped(s);
    ParseEncodeIsMerge(s, Default(s), e);
    MergeDefaultLeft(s, e);
    ParseOneField(sc, m, Len(sc.fields[i].number, Encode(s, e)));
  }

  lemma {:induction false} ParseMany(sc: Schema, m: Msg, i: nat, subs: seq<Msg>)
    requires Valid(sc) && |m.cells| == |sc.fields| && i < |sc.fields| && sc.fields[i].kind.Rep?
    requires m.cells[i].Many? && forall e :: e in subs ==> Typed(sc.fields[i].kind.schema, e)
    requires |EncodeMany(sc.fields[i].number, sc.fields[i].kind.schema, subs)| <= MAX_LEN
    ensures Parse(sc, m, EncodeMany(sc.fields[i].number, sc.fields[i].kind.schema, subs))
         == Some(Appended(m, i, subs))
    decreases sc, 0, 1, |subs|
  {
    if subs == [] {
      assert Elements(m.cells[i]) + subs == Elements(m.cells[i]);
      assert Appended(m, i, subs).cells == m.cells;
    } else {
      var number, s := sc.fields[i].number, sc.fields[i].kind.schema;
      ParseElement(sc, m, i, subs[0]);
      ParseConcat(sc, m, WriteField(Len(number, Encode(s, subs[0]))), EncodeMany(number, s, subs[1..]));
      ParseMany(sc, Appended(m, i, [subs[0]]), i, subs[1..]);
      AppendedTwice(m, i, subs);
    }
  }

  /** Whatever bytes are parsed, the result is well typed. */
  lemma {:induction false} ParseTyped(sc: Schema, m: Msg, s: bytes)
    requires Typed(sc, m) && Parse(sc, m, s).Some?
    ensures Typed(sc, Parse(sc, m, s).value)
    decreases sc, |s|
  {
    if s != [] {
      var (f, n) := ReadField(s).value;
      var i := Find(sc.fields, f.number);
      if i < |sc.fields| { ApplyCellTyped(sc, i, m.cells[i], f); }
      ParseTyped(sc, Apply(sc, m, f).value, s[n..]);
    }
  }

  lemma {:induction false} ApplyCellTyped(sc: Schema, i: nat, c: Cell, f: Field)
    requires i < |sc.fields| && TypedCell(sc.fields[i].kind, c)
    requires ApplyCell(sc.fields[i].kind, c, f).Some?
    ensures TypedCell(sc.fields[i].kind, ApplyCell(sc.fields[i].kind, c, f).value)
    decreases sc, 0
  {
    var k := sc.fields[i].kind;
    if k.Sub? && f.Len? {
      ExistingTyped(k.schema, c);
      ParseTyped(k.schema, Existing(k.schema, c), f.payload);
    } else if k.Rep? && f.Len? {
      DefaultTyped(k.schema);
      ParseTyped(k.schema, Default(k.schema), f.payload);
    }
  }

  // ---------------------------------------------------------------- consequences

  /** Serializing and parsing into a fresh message gives the message back. */
  lemma RoundTrip(sc: Schema, b: Msg)
    requires Valid(sc) && Typed(sc, b) && |Encode(sc, b)| <= MAX_LEN
    ensures Parse(sc, Default(sc), Encode(sc, b)) == Some(b)
  {
    DefaultTyped(sc);
    ParseEncodeIsMerge(sc, Default(sc), b);
    MergeDefaultLeft(sc, b);
  }

  /** "Last One Wins": parsing two serializations back to back is merging the two messages. */
  lemma ParseOfConcatenationIsMerge(sc: Schema, a: Msg, b: Msg)
    requires Valid(sc) && Typed(sc, a) && Typed(sc, b)
    requires |Encode(sc, a)| <= MAX_LEN && |Encode(sc, b)| <= MAX_LEN
    ensures Parse(sc, Default(sc), Encode(sc, a) + Encode(sc, b)) == Some(Merge(sc, a, b))
  {
    RoundTrip(sc, a);
    ParseConcat(sc, Default(sc), Encode(sc, a), Encode(sc, b));
    ParseEncodeIsMerge(sc, a, b);
  }

  /** The serialization determines the message. */
  lemma EncodeInjective(sc: Schema, a: Msg, b: Msg)
    requires Valid(sc) && Typed(sc, a) && Typed(sc, b) && |Encode(sc, a)| <= MAX_LEN
    requires Encode(sc, a) == Encode(sc, b)
    ensures a == b
  {
    RoundTrip(sc, a);
    RoundTrip(sc, b);
  }
}
