/**
 One turn of a generated `_InternalParse` loop in terms of the primitives it calls. The loops of
 LeafMessages, ChunkOptionsMessage and AccelerateMessage are proved against Schema.Parse with these.
 */
module ParseSteps {
  import opened Wire
  import opened Schema

  /** Field `i` of the schema has this number and kind, and no earlier field has the number. */
  predicate DeclaredAt(sc: Schema, i: nat, number: nat, k: Kind) {
    i < |sc.fields| && sc.fields[i] == FieldSpec(number, k) && Find(sc.fields, number) == i
  }

  lemma ReadDeclared(number: nat, wireType: nat, s: bytes, n: nat)
    requires number >= 1 && wireType < 8
    requires ReadTag(s) == Some((Tag(number, wireType), n))
    ensures ReadField(s) == ReadBody(number, wireType, n, s)
  {
  }

  lemma ParseUnfolds(sc: Schema, m: Msg, i: nat, number: nat, k: Kind, s: bytes)
    requires s != [] && DeclaredAt(sc, i, number, k) && i < |m.cells|
    requires ReadField(s).Some? && ReadField(s).value.0.number == number
    ensures var (f, n) := ReadField(s).value;
      var c := ApplyCell(k, m.cells[i], f);
      Parse(sc, m, s) == if c.None? then None else Parse(sc, Msg(m.cells[i := c.value]), s[n..])
  {
  }

  predicate IsVarintKind(k: Kind) { k.Int32? || k.UInt32? || k.Int64? || k.UInt64? || k.Bool? }

  /** A varint field: the value is truncated to the field's type and stored. */
  lemma VarintStep(sc: Schema, m: Msg, i: nat, number: nat, k: Kind, s: bytes, n: nat)
    requires DeclaredAt(sc, i, number, k) && IsVarintKind(k) && i < |m.cells| && number >= 1
    requires s != [] && ReadTag(s) == Some((Tag(number, WT_VARINT), n))
    ensures var r := ReadVarint(s[n..], VARINT_BYTES);
      Parse(sc, m, s)
      == if r.None? then None
         else Parse(sc, Msg(m.cells[i := Num(FromWire(k, r.value.0 % TWO64))]), s[n + r.value.1..])
  {
    ReadDeclared(number, WT_VARINT, s, n);
    if ReadField(s).Some? { ParseUnfolds(sc, m, i, number, k, s); }
  }

  /** A bytes field: the payload replaces the stored string. */
  lemma BytesStep(sc: Schema, m: Msg, i: nat, number: nat, s: bytes, n: nat)
    requires DeclaredAt(sc, i, number, Bytes) && i < |m.cells| && number >= 1
    requires s != [] && ReadTag(s) == Some((Tag(number, WT_LEN), n))
    ensures var r := ReadLen(s[n..]);
      Parse(sc, m, s)
      == if r.None? then None else Parse(sc, Msg(m.cells[i := Blob(r.value.0)]), s[n + r.value.1..])
  {
    ReadDeclared(number, WT_LEN, s, n);
    if ReadField(s).Some? { ParseUnfolds(sc, m, i, number, Bytes, s); }
  }

  /** A submessage field: the payload is parsed into the existing submessage. */
  lemma SubStep(sc: Schema, m: Msg, i: nat, number: nat, sub: Schema, s: bytes, n: nat)
    requires DeclaredAt(sc, i, number, Sub(sub)) && i < |m.cells| && number >= 1
    requires s != [] && ReadTag(s) == Some((Tag(number, WT_LEN), n))
    ensures var r := ReadLen(s[n..]);
      if r.None? then Parse(sc, m, s) == None
      else
        var p := Parse(sub, Existing(sub, m.cells[i]), r.value.0);
        Parse(sc, m, s)
        == if p.None? then None else Parse(sc, Msg(m.cells[i := One(p.value)]), s[n + r.value.1..])
  {
    hide ReadVarint, Find, DeclaredAt;
    ReadDeclared(number, WT_LEN, s, n);
    if ReadField(s).Some? { ParseUnfolds(sc, m, i, number, Sub(sub), s); }
  }

  /** A repeated submessage field: the payload is parsed into a new last element. */
  lemma RepStep(sc: Schema, m: Msg, i: nat, number: nat, sub: Schema, s: bytes, n: nat)
    requires DeclaredAt(sc, i, number, Rep(sub)) && i < |m.cells| && number >= 1
    requires s != [] && ReadTag(s) == Some((Tag(number, WT_LEN), n))
    ensures var r := ReadLen(s[n..]);
      if r.None? then Parse(sc, m, s) == None
      else
        var p := Parse(sub, Default(sub), r.value.0);
        Parse(sc, m, s)
        == if p.None? then None
           else Parse(sc, Msg(m.cells[i := Many(Elements(m.cells[i]) + [p.value])]), s[n + r.value.1..])
  {
    hide ReadVarint, Find, DeclaredAt;
    ReadDeclared(number, WT_LEN, s, n);
    if ReadField(s).Some? { ParseUnfolds(sc, m, i, number, Rep(sub), s); }
  }

  function WireType(k: Kind): (w: nat)
    ensures w < 8
  {
    if k.Fixed? then WT_FIXED64 else if k.Bytes? || k.Sub? || k.Rep? then WT_LEN else WT_VARINT
  }

  /** The tag is the one a declared field is written with. */
  predicate Declares(sc: Schema, tag: nat) {
    var i := Find(sc.fields, tag / 8);
    i < |sc.fields| && tag % 8 == WireType(sc.fields[i].kind)
  }

  /** The test of one case: the field number from the tag, its low byte against a constant. */
  predicate Case(tag: nat, number: nat, lowByte: nat) { tag / 8 == number && tag % 256 == lowByte }

  /** Any other record: its bytes are skipped and the message stays as it is. */
  lemma SkipStep(sc: Schema, m: Msg, s: bytes)
    requires s != []
    requires ReadTag(s).Some? ==> !Declares(sc, ReadTag(s).value.0)
    ensures Parse(sc, m, s)
         == if ReadField(s).None? then None else Parse(sc, m, s[ReadField(s).value.1..])
  {
    if ReadField(s).Some? {
      var i := Find(sc.fields, ReadField(s).value.0.number);
      if i < |sc.fields| && i < |m.cells| {
        MismatchKeepsCell(sc.fields[i].kind, m.cells[i], s);
        assert m.cells[i := m.cells[i]] == m.cells;
      }
    }
  }

  lemma MismatchKeepsCell(k: Kind, c: Cell, s: bytes)
    requires ReadField(s).Some? && ReadTag(s).value.0 % 8 != WireType(k)
    ensures ApplyCell(k, c, ReadField(s).value.0) == Some(c)
  {
  }

  /** The parsers stop at tag 0 and at end-group tags, and the caller then reports failure. */
  lemma StopStep(s: bytes)
    requires ReadTag(s).Some?
    requires ReadTag(s).value.0 == 0 || ReadTag(s).value.0 % 8 == WT_END_GROUP
    ensures ReadField(s) == None
  {
  }
}
