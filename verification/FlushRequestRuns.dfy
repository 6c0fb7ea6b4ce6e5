/**
 The operations of FlatLogFileFlushChunkRequestPB on its has-bits and raw contents: construction,
 setters, clearers, mutable accessors, parsing, merging and clearing. A has-bit that is off means
 default content after any sequence of them.
 */
module FlushRequestRuns {
  import opened Wire
  import opened Schema
  import opened SchemaLaws
  import opened FlatProto
  import opened FlushRequestBits

  function NewMessage(): (f: Fields)
    ensures |f.raw| == N
  {
    Fields(seq(32, i => false), false, seq(N, b requires 0 <= b < N => Blank(b)))
  }

  function WithBit(f: Fields, b: nat, on: bool): (r: Fields)
    requires |f.raw| == N && b < N
    ensures |r.raw| == N
  {
    if b < 32 then f.(word := f.word[b := on]) else f.(last := on)
  }

  /** `set_x`: the bit and the content. */
  function SetField(f: Fields, b: nat, c: Cell): (r: Fields)
    requires |f.raw| == N && b < N
    ensures |r.raw| == N
  {
    WithBit(f, b, true).(raw := f.raw[b := c])
  }

  /** `clear_x`: the default content, then the bit. */
  function ClearField(f: Fields, b: nat): (r: Fields)
    requires |f.raw| == N && b < N
    ensures |r.raw| == N
  {
    WithBit(f, b, false).(raw := f.raw[b := Blank(b)])
  }

  /** The record is written as the field's kind is. */
  predicate WiredAs(k: Kind, rec: Field) {
    if k.Fixed? then rec.Fixed64? else if k.Bytes? || k.Sub? || k.Rep? then rec.Len? else rec.Varint?
  }

  /** One turn of `_InternalParse`. */
  function ParseRecord(f: Fields, rec: Field): (r: Option<Fields>)
    requires |f.raw| == N
    ensures r.Some? ==> |r.value.raw| == N
  {
    var i := Find(FLUSH_REQUEST.fields, rec.number);
    if i >= N || !WiredAs(KindAt(BitOf(i)), rec) then Some(f)
    else
      match ApplyCell(KindAt(BitOf(i)), f.raw[BitOf(i)], rec)
      case None => None
      case Some(c) => Some(SetField(f, BitOf(i), c))
  }

  /** `_InternalParse`. */
  function ParseFields(f: Fields, s: bytes): (r: Option<Fields>)
    requires |f.raw| == N
    ensures r.Some? ==> |r.value.raw| == N
    decreases |s|
  {
    if s == [] then Some(f)
    else
      match ReadField(s)
      case None => None
      case Some((rec, n)) =>
        match ParseRecord(f, rec)
        case None => None
        case Some(f') => ParseFields(f', s[n..])
  }

  // ---------------------------------------------------------------- what each operation keeps

  /** Has-bits tell what is set, and contents fit their kinds. */
  predicate Sound(f: Fields) { Clean(f) && Fits(f) }

  lemma BlankFits(b: nat)
    requires b < N
    ensures !Blank(b).Absent? && TypedCell(KindAt(b), Blank(b)) && !KindAt(b).Rep?
  {
    Lengths();
    if FIELD_OF[b] < N { NoneRepeated(FIELD_OF[b]); }
    if b == 32 {
      assert KindAt(32) == Bool;
    } else if KindAt(b).Sub? {
      DefaultTyped(KindAt(b).schema);
    }
  }

  lemma NewSound()
    ensures Sound(NewMessage()) && Value(NewMessage()) == Default(FLUSH_REQUEST)
  {
    forall b | 0 <= b < N ensures !Blank(b).Absent? && TypedCell(KindAt(b), Blank(b)) { BlankFits(b); }
    DefaultAbsent();
    assert forall k :: 0 <= k < N ==> Value(NewMessage()).cells[k] == Absent;
  }

  lemma SetSound(f: Fields, b: nat, c: Cell)
    requires Sound(f) && b < N && !c.Absent? && TypedCell(KindAt(b), c)
    ensures Sound(SetField(f, b, c)) && Has(SetField(f, b, c), b)
  {
  }

  lemma ClearSound(f: Fields, b: nat)
    requires Sound(f) && b < N
    ensures Sound(ClearField(f, b)) && !Has(ClearField(f, b), b)
  {
    BlankFits(b);
  }

  /** Setting or clearing one field changes exactly that field of what is shown. */
  lemma OneShown(f: Fields, k: nat, c: Cell)
    requires |f.raw| == N && k < N
    ensures Value(SetField(f, BitOf(k), c)) == Msg(Value(f).cells[k := c])
    ensures Value(ClearField(f, BitOf(k))) == Msg(Value(f).cells[k := Absent])
  {
    hide KindAt, Blank;
    var b := BitOf(k);
    forall j | 0 <= j < N && j != k ensures BitOf(j) != b {
      FieldOfBit(j);
      FieldOfBit(k);
    }
    assert Value(SetField(f, b, c)).cells == Value(f).cells[k := c];
    assert Value(ClearField(f, b)).cells == Value(f).cells[k := Absent];
  }

  // ---------------------------------------------------------------- parsing

  lemma KindOfField(i: nat)
    requires i < N
    ensures |FLUSH_REQUEST.fields| == N && FLUSH_REQUEST.fields[i].kind == KindAt(BitOf(i))
  {
    Lengths();
  }

  /** Parsing into the raw content of an unset field is parsing into an absent one. */
  lemma SameCell(f: Fields, i: nat, rec: Field)
    requires Sound(f) && i < N && WiredAs(KindAt(BitOf(i)), rec)
    ensures ApplyCell(KindAt(BitOf(i)), f.raw[BitOf(i)], rec) == ApplyCell(KindAt(BitOf(i)), Shown(f, BitOf(i)), rec)
  {
    BlankFits(BitOf(i));
  }

  lemma CellSound(f: Fields, i: nat, rec: Field)
    requires Sound(f) && i < N && WiredAs(KindAt(BitOf(i)), rec)
    requires ApplyCell(KindAt(BitOf(i)), f.raw[BitOf(i)], rec).Some?
    ensures var c := ApplyCell(KindAt(BitOf(i)), f.raw[BitOf(i)], rec).value;
      !c.Absent? && TypedCell(KindAt(BitOf(i)), c)
  {
    KindOfField(i);
    ApplyCellTyped(FLUSH_REQUEST, i, f.raw[BitOf(i)], rec);
  }

  lemma SkippedCell(f: Fields, i: nat, rec: Field)
    requires |f.raw| == N && i < N && !WiredAs(KindAt(BitOf(i)), rec)
    ensures ApplyCell(KindAt(BitOf(i)), Shown(f, BitOf(i)), rec) == Some(Shown(f, BitOf(i)))
  {
  }

  /** One record on has-bits and raw contents is one record on what they show. */
  lemma ParseRecordIsApply(f: Fields, rec: Field)
    requires Sound(f)
    ensures ParseRecord(f, rec).Some? <==> Apply(FLUSH_REQUEST, Value(f), rec).Some?
    ensures ParseRecord(f, rec).Some? ==>
      Sound(ParseRecord(f, rec).value) && Some(Value(ParseRecord(f, rec).value)) == Apply(FLUSH_REQUEST, Value(f), rec)
  {
    var i := Find(FLUSH_REQUEST.fields, rec.number);
    Lengths();
    if i < N {
      var b := BitOf(i);
      KindOfField(i);
      if WiredAs(KindAt(b), rec) {
        SameCell(f, i, rec);
        var c := ApplyCell(KindAt(b), f.raw[b], rec);
        if c.Some? {
          CellSound(f, i, rec);
          SetSound(f, b, c.value);
          OneShown(f, i, c.value);
        }
      } else {
        SkippedCell(f, i, rec);
        assert Value(f).cells[i := Shown(f, b)] == Value(f).cells;
      }
    }
  }

  /** The parser of the 33-field message is the reference parser on what the message shows. */
  lemma {:induction false} ParseFieldsIsParse(f: Fields, s: bytes)
    requires Sound(f)
    ensures ParseFields(f, s).Some? <==> Parse(FLUSH_REQUEST, Value(f), s).Some?
    ensures ParseFields(f, s).Some? ==>
      Sound(ParseFields(f, s).value) && Some(Value(ParseFields(f, s).value)) == Parse(FLUSH_REQUEST, Value(f), s)
    decreases |s|
  {
    if s != [] && ReadField(s).Some? {
      var (rec, n) := ReadField(s).value;
      ParseRecordIsApply(f, rec);
      if ParseRecord(f, rec).Some? { ParseFieldsIsParse(ParseRecord(f, rec).value, s[n..]); }
    }
  }

  // ---------------------------------------------------------------- any sequence of operations

  /**
   `Failed` is what a record that cannot be read leaves behind: the bit is set first, and the content
   is whatever was read.
   */
  datatype Op =
    | Set(b: nat, c: Cell)
    | Unset(b: nat)
    | Mutable(b: nat)
    | Record(rec: Field)
    | Failed(b: nat, c: Cell)
    | MergeFrom(from: Fields)
    | CopyFrom(from: Fields)
    | ClearAll

  predicate Fitting(b: nat, c: Cell) { b < N && !c.Absent? && TypedCell(KindAt(b), c) }

  predicate Applicable(f: Fields, op: Op) {
    |f.raw| == N &&
    match op
    case Set(b, c) => Fitting(b, c)
    case Unset(b) => b < N
    case Mutable(b) => b < N && (KindAt(b).Bytes? || KindAt(b).Sub?)
    case Record(rec) => ParseRecord(f, rec).Some?
    case Failed(b, c) => Fitting(b, c)
    case MergeFrom(from) => Sound(from)
    case CopyFrom(from) => Sound(from)
    case ClearAll => true
  }

  function Do(f: Fields, op: Op): (r: Fields)
    requires Applicable(f, op)
    ensures |r.raw| == N
  {
    match op
    case Set(b, c) => SetField(f, b, c)
    case Unset(b) => ClearField(f, b)
    case Mutable(b) => WithBit(f, b, true)
    case Record(rec) => ParseRecord(f, rec).value
    case Failed(b, c) => SetField(f, b, c)
    case MergeFrom(from) => Merged(f, from)
    case CopyFrom(from) => Merged(Cleared(f), from)
    case ClearAll => Cleared(f)
  }

  predicate Possible(f: Fields, ops: seq<Op>)
    decreases |ops|
  {
    ops == [] || (Applicable(f, ops[0]) && Possible(Do(f, ops[0]), ops[1..]))
  }

  function DoAll(f: Fields, ops: seq<Op>): (r: Fields)
    requires |f.raw| == N && Possible(f, ops)
    ensures |r.raw| == N
    decreases |ops|
  {
    if ops == [] then f else DoAll(Do(f, ops[0]), ops[1..])
  }

  lemma MergeSound(f: Fields, from: Fields)
    requires Sound(f) && Sound(from)
    ensures Sound(Merged(f, from))
  {
    MergeIsMerge(f, from);
    forall b | 0 <= b < N ensures !Merged(f, from).raw[b].Absent? && TypedCell(KindAt(b), Merged(f, from).raw[b]) {
      MergedField(f, from, b);
      MergedFits(b, f.raw[b], from.raw[b]);
    }
  }

  lemma MergedFits(b: nat, c: Cell, d: Cell)
    requires Fitting(b, c) && Fitting(b, d)
    ensures Fitting(b, MergeCell(KindAt(b), c, d))
  {
    BlankFits(b);
    if KindAt(b).Sub? { MergeTyped(KindAt(b).schema, c.msg, d.msg); }
  }

  lemma ClearAllSound(f: Fields)
    requires Sound(f)
    ensures Cleared(f) == NewMessage()
  {
    ClearReachesDefault(f);
    assert Cleared(f).raw == NewMessage().raw;
  }

  lemma OpSound(f: Fields, op: Op)
    requires Sound(f) && Applicable(f, op)
    ensures Sound(Do(f, op))
  {
    NewSound();
    match op
    case Set(b, c) => SetSound(f, b, c);
    case Unset(b) => ClearSound(f, b);
    case Mutable(b) => assert f.raw[b := f.raw[b]] == f.raw; SetSound(f, b, f.raw[b]);
    case Record(rec) => ParseRecordIsApply(f, rec);
    case Failed(b, c) => SetSound(f, b, c);
    case MergeFrom(from) => MergeSound(f, from);
    case CopyFrom(from) => ClearAllSound(f); MergeSound(NewMessage(), from);
    case ClearAll => ClearAllSound(f);
  }

  lemma {:induction false} RunSound(f: Fields, ops: seq<Op>)
    requires Sound(f) && Possible(f, ops)
    ensures Sound(DoAll(f, ops))
    decreases |ops|
  {
    if ops != [] {
      OpSound(f, ops[0]);
      RunSound(Do(f, ops[0]), ops[1..]);
    }
  }

  /** After any operations on a new message, `Clear` makes it a new message again, bit for bit. */
  lemma ClearAfterAnything(ops: seq<Op>)
    requires Possible(NewMessage(), ops)
    ensures Cleared(DoAll(NewMessage(), ops)) == NewMessage()
  {
    NewSound();
    RunSound(NewMessage(), ops);
    ClearAllSound(DoAll(NewMessage(), ops));
  }

  // ---------------------------------------------------------------- what the getters return

  /** The getter of field number `k + 1`: the content, whether its has-bit is set or not. */
  function Getter(f: Fields, k: nat): Cell
    requires |f.raw| == N && k < N
  {
    f.raw[BitOf(k)]
  }

  /** The default that flat.proto declares for field number `k + 1`: true for `DataSync`, number 13. */
  function Declared(k: nat): Cell
    requires k < N
  {
    Lengths();
    if k == 12 then Num(1)
    else match FLUSH_REQUEST_KINDS[k]
      case Bytes => Blob([])
      case Sub(s) => One(Default(s))
      case _ => Num(0)
  }

  lemma BlankIsDeclared(k: nat)
    requires k < N
    ensures Blank(BitOf(k)) == Declared(k)
  {
    FieldOfBit(k);
    assert BIT_OF[12] == 32;
    if BitOf(k) == 32 { FieldOfBit(12); }
  }

  /** After any operations, a field whose has-bit is off reads as the default flat.proto declares for it. */
  lemma UnsetReadsDefault(ops: seq<Op>, k: nat)
    requires Possible(NewMessage(), ops) && k < N && !Has(DoAll(NewMessage(), ops), BitOf(k))
    ensures Getter(DoAll(NewMessage(), ops), k) == Declared(k)
  {
    NewSound();
    RunSound(NewMessage(), ops);
    BlankIsDeclared(k);
  }

  /** And every field does after `Clear`. */
  lemma ClearedReadsDefault(ops: seq<Op>, k: nat)
    requires Possible(NewMessage(), ops) && k < N
    ensures !Has(Cleared(DoAll(NewMessage(), ops)), BitOf(k))
    ensures Getter(Cleared(DoAll(NewMessage(), ops)), k) == Declared(k)
  {
    ClearAfterAnything(ops);
    BlankIsDeclared(k);
  }

  /** A field that was set reads as what it was set to, and setting it changes no other getter. */
  lemma SetReadsBack(f: Fields, k: nat, c: Cell, j: nat)
    requires |f.raw| == N && k < N && j < N
    ensures Getter(SetField(f, BitOf(k), c), j) == if j == k then c else Getter(f, j)
  {
    FieldOfBit(j);
    FieldOfBit(k);
  }
}
