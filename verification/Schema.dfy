/**
 Messages described by a schema, and what the generated code does with them: serialize,
 compute sizes, parse into an existing message, and merge. Every message of flat.proto is an
 instance (module FlatProto); the laws below hold for every schema, so at every nesting depth.
 */
module Schema {
  import opened Wire

  datatype Kind =
    | Int32 | UInt32 | Int64 | UInt64 | Bool
    | Fixed
    | Bytes
    | Sub(schema: Schema)
    | Rep(schema: Schema)

  datatype FieldSpec = FieldSpec(number: nat, kind: Kind)

  /** The declared fields of a message, in the order they are serialized. */
  datatype Schema = Schema(fields: seq<FieldSpec>)

  /** What a message holds for one field; `Absent` is a field whose has-bit is off. */
  datatype Cell =
    | Absent
    | Num(v: int)
    | Blob(b: bytes)
    | One(msg: Msg)
    | Many(msgs: seq<Msg>)

  datatype Msg = Msg(cells: seq<Cell>)

  // ---------------------------------------------------------------- well-formedness

  predicate Valid(sc: Schema) {
    && (forall i :: 0 <= i < |sc.fields| ==> 1 <= sc.fields[i].number <= MAX_FIELD_NUMBER)
    && (forall i, j :: 0 <= i < j < |sc.fields| ==> sc.fields[i].number != sc.fields[j].number)
    && (forall i :: 0 <= i < |sc.fields| ==> ValidKind(sc.fields[i].kind))
  }

  predicate ValidKind(k: Kind) {
    match k
    case Sub(s) => Valid(s)
    case Rep(s) => Valid(s)
    case _ => true
  }

  predicate InRange(k: Kind, v: int) {
    match k
    case Int32 => -0x8000_0000 <= v < 0x8000_0000
    case UInt32 => 0 <= v < TWO32
    case Int64 => -0x8000_0000_0000_0000 <= v < 0x8000_0000_0000_0000
    case UInt64 => 0 <= v < TWO64
    case Bool => 0 <= v <= 1
    case Fixed => 0 <= v < TWO64
    case _ => false
  }

  predicate Typed(sc: Schema, m: Msg)
    decreases sc, 1
  {
    |m.cells| == |sc.fields|
    && forall i :: 0 <= i < |sc.fields| ==> TypedCell(sc.fields[i].kind, m.cells[i])
  }

  predicate TypedCell(k: Kind, c: Cell)
    decreases k, 0
  {
    match k
    case Bytes => c.Absent? || c.Blob?
    case Sub(s) => c.Absent? || (c.One? && Typed(s, c.msg))
    case Rep(s) => c.Many? && forall e :: e in c.msgs ==> Typed(s, e)
    case _ => c.Absent? || (c.Num? && InRange(k, c.v))
  }

  function DefaultCell(k: Kind): (c: Cell) { if k.Rep? then Many([]) else Absent }

  /** The message a default constructor makes. */
  function Default(sc: Schema): (m: Msg)
  {
    Msg(seq(|sc.fields|, i requires 0 <= i < |sc.fields| => DefaultCell(sc.fields[i].kind)))
  }

  /** The submessage a parser or a merge writes into: the present one, else a new one. */
  function Existing(s: Schema, c: Cell): (m: Msg) { if c.One? then c.msg else Default(s) }

  function Elements(c: Cell): (ms: seq<Msg>) { if c.Many? then c.msgs else [] }

  function CellAt(m: Msg, i: nat): (c: Cell) { if i < |m.cells| then m.cells[i] else Absent }

  // ---------------------------------------------------------------- scalars

  /** Negative integers are written as their 64-bit two's complement. */
  function ToWire(k: Kind, v: int): (u: uint64)
    requires InRange(k, v)
  {
    if v < 0 then v + TWO64 else v
  }

  function FromWire(k: Kind, u: uint64): (v: int)
    requires !k.Bytes? && !k.Sub? && !k.Rep?
    ensures InRange(k, v)
  {
    match k
    case Int32 => var w := u % TWO32; if w < 0x8000_0000 then w else w - TWO32
    case UInt32 => u % TWO32
    case Int64 => if u < 0x8000_0000_0000_0000 then u else u - TWO64
    case Bool => if u != 0 then 1 else 0
    case _ => u
  }

  lemma ScalarRoundTrip(k: Kind, v: int)
    requires InRange(k, v)
    ensures FromWire(k, ToWire(k, v)) == v
  {
  }

  function ScalarField(number: nat, k: Kind, v: int): (f: Field)
    requires InRange(k, v)
  {
    if k.Fixed? then Fixed64(number, v) else Varint(number, ToWire(k, v))
  }

  // ---------------------------------------------------------------- serialization

  /** `_InternalSerialize`: the present fields, in schema order. */
  function Encode(sc: Schema, m: Msg): (r: bytes)
    decreases sc, |sc.fields| + 1
  {
    EncodeFrom(sc, m, 0)
  }

  function EncodeFrom(sc: Schema, m: Msg, i: nat): (r: bytes)
    requires i <= |sc.fields|
    decreases sc, |sc.fields| - i
  {
    if i == |sc.fields| then []
    else EncodeCell(sc.fields[i].number, sc.fields[i].kind, CellAt(m, i)) + EncodeFrom(sc, m, i + 1)
  }

  function EncodeCell(number: nat, k: Kind, c: Cell): (r: bytes)
    decreases k, 0
  {
    match k
    case Bytes => if c.Blob? then WriteField(Len(number, c.b)) else []
    case Sub(s) => if c.One? then WriteField(Len(number, Encode(s, c.msg))) else []
    case Rep(s) => EncodeMany(number, s, Elements(c))
    case _ => if c.Num? && InRange(k, c.v) then WriteField(ScalarField(number, k, c.v)) else []
  }

  function EncodeMany(number: nat, s: Schema, subs: seq<Msg>): (r: bytes)
    decreases s, |s.fields| + 2, |subs|
  {
    if subs == [] then []
    else WriteField(Len(number, Encode(s, subs[0]))) + EncodeMany(number, s, subs[1..])
  }

  // ---------------------------------------------------------------- sizes

  /** The tag size the generated code adds as a constant. */
  function TagSize(number: nat): (n: nat) { VarintSize(number * 8) }

  /** `BytesSize` and `MessageSize`: a length prefix and what it announces. */
  function LenSize(n: nat): (r: nat) { VarintSize(n) + n }

  /** `Int32Size`, `UInt32Size`, `UInt64Size`, one byte for a bool, eight for a fixed64. */
  function ScalarSize(k: Kind, v: int): (n: nat)
    requires InRange(k, v)
  {
    if k.Fixed? then 8
    else if k.Bool? then 1
    else if v < 0 then 10
    else VarintSize(v)
  }

  /** `ByteSizeLong`. */
  function ByteSize(sc: Schema, m: Msg): (n: nat)
    decreases sc, |sc.fields| + 1
  {
    ByteSizeFrom(sc, m, 0)
  }

  function ByteSizeFrom(sc: Schema, m: Msg, i: nat): (n: nat)
    requires i <= |sc.fields|
    decreases sc, |sc.fields| - i
  {
    if i == |sc.fields| then 0
    else CellSize(sc.fields[i].number, sc.fields[i].kind, CellAt(m, i)) + ByteSizeFrom(sc, m, i + 1)
  }

  function CellSize(number: nat, k: Kind, c: Cell): (n: nat)
    decreases k, 0
  {
    match k
    case Bytes => if c.Blob? then TagSize(number) + LenSize(|c.b|) else 0
    case Sub(s) => if c.One? then TagSize(number) + LenSize(ByteSize(s, c.msg)) else 0
    case Rep(s) => |Elements(c)| * TagSize(number) + ManySize(s, Elements(c))
    case _ => if c.Num? && InRange(k, c.v) then TagSize(number) + ScalarSize(k, c.v) else 0
  }

  function ManySize(s: Schema, subs: seq<Msg>): (n: nat)
    decreases s, |s.fields| + 2, |subs|
  {
    if subs == [] then 0 else LenSize(ByteSize(s, subs[0])) + ManySize(s, subs[1..])
  }

  // ---------------------------------------------------------------- parsing

  function Find(fields: seq<FieldSpec>, number: nat): (i: nat)
    ensures i <= |fields|
    ensures i < |fields| ==> fields[i].number == number
    ensures forall j :: 0 <= j < i ==> fields[j].number != number
  {
    if fields == [] || fields[0].number == number then 0 else 1 + Find(fields[1..], number)
  }

  /** `_InternalParse`: reads one record per step and applies it to the message. */
  function Parse(sc: Schema, m: Msg, s: bytes): (r: Option<Msg>)
    decreases sc, |s|, 1
  {
    if s == [] then Some(m)
    else
      match ReadField(s)
      case None => None
      case Some((f, n)) =>
        match Apply(sc, m, f)
        case None => None
        case Some(m') => Parse(sc, m', s[n..])
  }

  /** One turn of the dispatch loop; undeclared records and wrong wire types are skipped. */
  function Apply(sc: Schema, m: Msg, f: Field): (r: Option<Msg>)
    decreases sc, 0, 0
  {
    var i := Find(sc.fields, f.number);
    if i >= |sc.fields| || i >= |m.cells| then Some(m)
    else
      match ApplyCell(sc.fields[i].kind, m.cells[i], f)
      case None => None
      case Some(c) => Some(Msg(m.cells[i := c]))
  }

  function ApplyCell(k: Kind, c: Cell, f: Field): (r: Option<Cell>)
    decreases k, 0, 0
  {
    match k
    case Bytes => if f.Len? then Some(Blob(f.payload)) else Some(c)
    case Fixed => if f.Fixed64? then Some(Num(f.bits)) else Some(c)
    case Sub(s) =>
      if f.Len? then
        match Parse(s, Existing(s, c), f.payload)
        case None => None
        case Some(sub) => Some(One(sub))
      else Some(c)
    case Rep(s) =>
      if f.Len? then
        match Parse(s, Default(s), f.payload)
        case None => None
        case Some(sub) => Some(Many(Elements(c) + [sub]))
      else Some(c)
    case _ => if f.Varint? then Some(Num(FromWire(k, f.value))) else Some(c)
  }

  // ---------------------------------------------------------------- merging

  /** `MergeImpl`: present scalars overwrite, submessages merge, repeated fields append. */
  function Merge(sc: Schema, a: Msg, b: Msg): (r: Msg)
    decreases sc, 1
  {
    Msg(seq(|sc.fields|, i requires 0 <= i < |sc.fields| =>
      MergeCell(sc.fields[i].kind, CellAt(a, i), CellAt(b, i))))
  }

  function MergeCell(k: Kind, a: Cell, b: Cell): (r: Cell)
    decreases k, 0
  {
    match k
    case Sub(s) => if b.One? then One(Merge(s, Existing(s, a), b.msg)) else a
    case Rep(s) => Many(Elements(a) + Elements(b))
    case _ => if b.Absent? then a else b
  }
}
