/**
 The has-bit layout of FlatLogFileFlushChunkRequestPB: 32 bits in one word and one more, raw field
 contents that stay in place when a bit is cleared, and the group masks that let `Clear` and
 `MergeImpl` skip fields. A word is the sequence of its bits, lowest first, and a mask of adjacent
 bits is their range. Submessages are held as values.
 */
module FlushRequestBits {
  import opened Wire
  import opened Schema
  import opened SchemaLaws
  import opened FlatProto

  const N: nat := 33

  /** The has-bit of each field, in declaration order. */
  const BIT_OF: seq<nat> := [
    3, 13, 14, 15, 0, 16, 17, 18, 4, 5, 20, 21, 32, 6, 19, 7, 8, 9, 10, 11, 22, 1, 23, 24, 2, 12, 25, 26, 27,
    28, 29, 30, 31]

  /** The field of each has-bit. */
  const FIELD_OF: seq<nat> := [
    4, 21, 24, 0, 8, 9, 13, 15, 16, 17, 18, 19, 25, 1, 2, 3, 5, 6, 7, 14, 10, 11, 20, 22, 23, 26, 27, 28, 29,
    30, 31, 32, 12]

  lemma Lengths()
    ensures |BIT_OF| == |FIELD_OF| == |FLUSH_REQUEST_KINDS| == N
  {
  }

  lemma FieldOfBit(k: nat)
    requires k < N
    ensures |BIT_OF| == |FIELD_OF| == N && BIT_OF[k] < N && FIELD_OF[BIT_OF[k]] == k
  {
  }

  /** The kind of the field behind a has-bit: strings, then submessages, then scalars. */
  function KindAt(b: nat): Kind
    requires b < N
  {
    Lengths();
    if FIELD_OF[b] < N then FLUSH_REQUEST_KINDS[FIELD_OF[b]] else Bytes
  }

  type Word = w: seq<bool> | |w| == 32 witness seq(32, i => false)

  /** `word & mask` is not zero, for the mask of bits `lo` to `hi - 1`. */
  predicate AnySet(w: Word, lo: nat, hi: nat)
    requires hi <= 32
  {
    exists i :: lo <= i < hi && w[i]
  }

  function Or(w: Word, x: Word): Word { seq(32, i requires 0 <= i < 32 => w[i] || x[i]) }

  datatype Fields = Fields(word: Word, last: bool, raw: seq<Cell>)

  predicate Has(f: Fields, b: nat)
    requires b < N
  {
    if b < 32 then f.word[b] else f.last
  }

  /** The content of a field that was never set; `DataSync` defaults to true. */
  function Blank(b: nat): Cell
    requires b < N
  {
    if b == 32 then Num(1)
    else match KindAt(b)
      case Bytes => Blob([])
      case Sub(s) => One(Default(s))
      case _ => Num(0)
  }

  /** A has-bit that is off means the default content. */
  predicate Clean(f: Fields) { |f.raw| == N && forall b :: 0 <= b < N && !Has(f, b) ==> f.raw[b] == Blank(b) }

  function BitOf(k: nat): (b: nat)
    requires k < N
    ensures b < N && KindAt(b) == FLUSH_REQUEST_KINDS[k]
  {
    FieldOfBit(k); BIT_OF[k]
  }

  function Shown(f: Fields, b: nat): Cell
    requires |f.raw| == N && b < N
  {
    if Has(f, b) then f.raw[b] else Absent
  }

  /** What the accessors show. */
  function Value(f: Fields): (m: Msg)
    requires |f.raw| == N
  {
    Msg(seq(N, k requires 0 <= k < N => Shown(f, BitOf(k))))
  }

  // ---------------------------------------------------------------- clearing by groups

  /** The groups of `Clear`: masks 0xff, 0x1f00, 0xe000, 0xff0000 and 0xff000000. */
  function ClearGroup(b: nat): (nat, nat) {
    if b < 8 then (0, 8) else if b < 13 then (8, 13) else if b < 16 then (13, 16) else if b < 24 then (16, 24)
    else (24, 32)
  }

  /** Pointers and strings are cleared one by one, scalars by groups, `DataSync` always. */
  function ClearedAt(f: Fields, b: nat): Cell
    requires |f.raw| == N && b < N
  {
    if b == 32 then Num(1)
    else if !AnySet(f.word, ClearGroup(b).0, ClearGroup(b).1) then f.raw[b]
    else if b < 13 && !Has(f, b) then f.raw[b]
    else Blank(b)
  }

  function Cleared(f: Fields): (r: Fields)
    requires |f.raw| == N
    ensures |r.raw| == N
  {
    Fields(seq(32, i => false), false, seq(N, b requires 0 <= b < N => ClearedAt(f, b)))
  }

  /** A skipped group has no bit set, so it holds defaults already. */
  lemma SkippedIsBlank(f: Fields, b: nat)
    requires Clean(f) && b < N
    ensures ClearedAt(f, b) == Blank(b)
  {
  }

  /** `Clear` reaches the all-default message, whatever was set before. */
  lemma ClearReachesDefault(f: Fields)
    requires Clean(f)
    ensures Clean(Cleared(f)) && Value(Cleared(f)) == Default(FLUSH_REQUEST)
    ensures forall b :: 0 <= b < N ==> Cleared(f).raw[b] == Blank(b)
  {
    var r := Cleared(f);
    forall b | 0 <= b < N ensures !Has(r, b) && r.raw[b] == Blank(b) {
      SkippedIsBlank(f, b);
    }
    DefaultAbsent();
    assert forall k :: 0 <= k < N ==> Value(r).cells[k] == Absent;
  }

  lemma NoneRepeated(k: nat)
    requires k < N
    ensures |FLUSH_REQUEST_KINDS| == N && !FLUSH_REQUEST_KINDS[k].Rep?
  {
  }

  lemma DefaultAbsent()
    ensures |Default(FLUSH_REQUEST).cells| == N
    ensures forall k :: 0 <= k < N ==> Default(FLUSH_REQUEST).cells[k] == Absent
  {
  }

  // ---------------------------------------------------------------- merging by groups

  /** The groups of `MergeImpl`: masks 0xff, 0xff00, 0xff0000 and 0xff000000. */
  function MergeGroup(b: nat): (nat, nat) {
    if b < 8 then (0, 8) else if b < 16 then (8, 16) else if b < 24 then (16, 24) else (24, 32)
  }

  function MergedAt(f: Fields, from: Fields, b: nat): Cell
    requires |f.raw| == N && |from.raw| == N && b < N
  {
    if b < 32 && !AnySet(from.word, MergeGroup(b).0, MergeGroup(b).1) then f.raw[b]
    else if !Has(from, b) then f.raw[b]
    else MergeCell(KindAt(b), f.raw[b], from.raw[b])
  }

  /** The setters of the first group set their own bits; each other group ends by or-ing in the whole word. */
  function MergedWord(w: Word, x: Word): Word {
    var w1 := Or(w, seq(32, i requires 0 <= i < 32 => i < 8 && x[i]));
    var w2 := if AnySet(x, 8, 16) then Or(w1, x) else w1;
    var w3 := if AnySet(x, 16, 24) then Or(w2, x) else w2;
    if AnySet(x, 24, 32) then Or(w3, x) else w3
  }

  function Merged(f: Fields, from: Fields): (r: Fields)
    requires |f.raw| == N && |from.raw| == N
    ensures |r.raw| == N
  {
    Fields(MergedWord(f.word, from.word), f.last || from.last,
           seq(N, b requires 0 <= b < N => MergedAt(f, from, b)))
  }

  lemma MergedWordIsOr(w: Word, x: Word)
    ensures MergedWord(w, x) == Or(w, x)
  {
  }

  /** The has-bits are joined, and contents merged exactly where the other message has the field. */
  lemma MergedField(f: Fields, from: Fields, b: nat)
    requires |f.raw| == N && |from.raw| == N && b < N
    ensures Has(Merged(f, from), b) <==> Has(f, b) || Has(from, b)
    ensures Merged(f, from).raw[b] == if Has(from, b) then MergeCell(KindAt(b), f.raw[b], from.raw[b]) else f.raw[b]
  {
  }

  /** A field's content fits its kind. */
  predicate Fits(f: Fields) {
    |f.raw| == N && forall b :: 0 <= b < N ==> !f.raw[b].Absent? && TypedCell(KindAt(b), f.raw[b])
  }

  /** Field `k` shows the merge of what the two messages show. */
  lemma MergedCell(f: Fields, from: Fields, k: nat)
    requires Clean(f) && Fits(from) && k < N
    ensures |FLUSH_REQUEST_KINDS| == N
    ensures var b := BitOf(k);
      Shown(Merged(f, from), b) == MergeCell(FLUSH_REQUEST_KINDS[k], Shown(f, b), Shown(from, b))
  {
    MergedField(f, from, BitOf(k));
    NoneRepeated(k);
  }

  /** `MergeImpl` merges the messages and keeps the has-bit discipline. */
  lemma MergeIsMerge(f: Fields, from: Fields)
    requires Clean(f) && Fits(from)
    ensures Clean(Merged(f, from))
    ensures Value(Merged(f, from)) == Merge(FLUSH_REQUEST, Value(f), Value(from))
  {
    var r, m := Value(Merged(f, from)), Merge(FLUSH_REQUEST, Value(f), Value(from));
    forall b | 0 <= b < N && !Has(Merged(f, from), b) ensures Merged(f, from).raw[b] == Blank(b) {
      MergedField(f, from, b);
    }
    Lengths();
    forall k | 0 <= k < N ensures r.cells[k] == m.cells[k] {
      MergedCell(f, from, k);
    }
  }

  lemma ValueTyped(f: Fields)
    requires Fits(f)
    ensures Typed(FLUSH_REQUEST, Value(f))
  {
    Lengths();
    forall k | 0 <= k < N ensures TypedCell(FLUSH_REQUEST.fields[k].kind, Value(f).cells[k]) {
      NoneRepeated(k);
    }
  }

  /** `CopyFrom`: clearing and then merging shows exactly the other message. */
  lemma CopyIsEqual(f: Fields, from: Fields)
    requires Clean(f) && Fits(from)
    ensures Value(Merged(Cleared(f), from)) == Value(from)
  {
    ClearReachesDefault(f);
    MergeIsMerge(Cleared(f), from);
    ValueTyped(from);
    MergeDefaultLeft(FLUSH_REQUEST, Value(from));
  }
}
