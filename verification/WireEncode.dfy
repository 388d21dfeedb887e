/** Encoding a metadata row, and the round trip: whatever is encoded decodes to
    itself, so every extractor reads back the field that was written. */
module WireEncode {
  import opened Rows
  import opened Wire
  import opened WireExtract

  function EncodeVarint(v: nat): Bytes {
    if v < 128 then [v] else [v % 128 + 128] + EncodeVarint(v / 128)
  }

  lemma {:induction false} VarintRoundTrip(v: nat, k: nat, rest: Bytes)
    requires k <= 9 && v < Room(k)
    ensures VarintFrom(EncodeVarint(v) + rest, k) == Good(v, |EncodeVarint(v)|)
    decreases 9 - k
  {
    if v >= 128 {
      VarintRoundTrip(v / 128, k + 1, rest);
      assert (EncodeVarint(v) + rest)[1..] == EncodeVarint(v / 128) + rest;
      assert v % 128 + 128 * (v / 128) == v;
    }
  }

  lemma RoomIsWord()
    ensures Room(0) == TWO_64
  {
  }

  /** A field as the encoder writes it: a varint or a byte string under a valid number. */
  predicate Encodable(f: Field) {
    && 1 <= f.num <= MAX_NUMBER
    && match f.value
       case Varint(v) => v < TWO_64
       case Len(b) => |b| < TWO_64
       case _ => false
  }

  function EncodeField(f: Field): Bytes
    requires Encodable(f)
  {
    match f.value
    case Varint(v) => EncodeVarint(f.num * 8) + EncodeVarint(v)
    case Len(b) => EncodeVarint(f.num * 8 + 2) + (EncodeVarint(|b|) + b)
  }

  lemma {:induction false} TagRoundTrip(num: nat, typ: nat, rest: Bytes)
    requires 1 <= num <= MAX_NUMBER && typ < 8
    ensures ConsumeTag(EncodeVarint(num * 8 + typ) + rest) == Good((num, typ), |EncodeVarint(num * 8 + typ)|)
  {
    RoomIsWord();
    VarintRoundTrip(num * 8 + typ, 0, rest);
    assert (num * 8 + typ) / 8 == num && (num * 8 + typ) % 8 == typ;
  }

  lemma {:induction false} BytesRoundTrip(b: Bytes)
    requires |b| < TWO_64
    ensures ConsumeBytes(EncodeVarint(|b|) + b) == Good(b, |EncodeVarint(|b|) + b|)
  {
    RoomIsWord();
    VarintRoundTrip(|b|, 0, b);
    var n := |EncodeVarint(|b|)|;
    assert (EncodeVarint(|b|) + b)[n..n + |b|] == b;
  }

  lemma FieldRoundTrip(f: Field)
    requires Encodable(f)
    ensures EncodeField(f) != [] && ConsumeField(EncodeField(f)) == Good(f, |EncodeField(f)|)
  {
    hide EncodeVarint, ConsumeTag, VarintFrom, ConsumeBytes;
    var e := EncodeField(f);
    match f.value
    case Varint(v) =>
      TagRoundTrip(f.num, 0, EncodeVarint(v));
      RoomIsWord();
      VarintRoundTrip(v, 0, []);
      assert EncodeVarint(v) + [] == EncodeVarint(v);
      assert e[|EncodeVarint(f.num * 8)|..] == EncodeVarint(v);
    case Len(b) =>
      TagRoundTrip(f.num, 2, EncodeVarint(|b|) + b);
      BytesRoundTrip(b);
      assert e[|EncodeVarint(f.num * 8 + 2)|..] == EncodeVarint(|b|) + b;
  }

  function EncodeFields(fs: seq<Field>): Bytes
    requires forall i :: 0 <= i < |fs| ==> Encodable(fs[i])
  {
    if fs == [] then [] else EncodeFields(fs[..|fs| - 1]) + EncodeField(fs[|fs| - 1])
  }

  lemma OneFieldRoundTrip(f: Field)
    requires Encodable(f)
    ensures ParseFields(EncodeField(f)) == Some([f])
  {
    var e := EncodeField(f);
    FieldRoundTrip(f);
    OneField(e);
    assert e[..|e|] == e;
  }

  lemma {:induction false} ParseOneMore(b: Bytes, fs: seq<Field>, f: Field)
    requires ParseFields(b) == Some(fs) && Encodable(f)
    ensures ParseFields(b + EncodeField(f)) == Some(fs + [f])
  {
    OneFieldRoundTrip(f);
    ParseAppend(b, EncodeField(f));
  }

  lemma {:induction false} FieldsRoundTrip(fs: seq<Field>)
    requires forall i :: 0 <= i < |fs| ==> Encodable(fs[i])
    ensures ParseFields(EncodeFields(fs)) == Some(fs)
  {
    hide EncodeField, ConsumeField;
    if fs != [] {
      var init, f := fs[..|fs| - 1], fs[|fs| - 1];
      FieldsRoundTrip(init);
      ParseOneMore(EncodeFields(init), init, f);
      assert init + [f] == fs;
    }
  }

  // ---- Messages ----

  const MIN_INT64: int := -0x8000_0000_0000_0000
  const MIN_INT32: int := -0x8000_0000

  predicate Int64(i: int) {
    MIN_INT64 <= i < TWO_63
  }

  predicate Int32(i: int) {
    MIN_INT32 <= i < TWO_32 / 2
  }

  /** Every field within the range of its declared type, and the paths UTF-8. */
  predicate Representable(m: Message) {
    && Int64(m.expiry) && Int64(m.segmentOffset) && Int64(m.valueLength) && Int32(m.valueType) && Int32(m.opType)
    && m.checksum < TWO_32 && m.version < TWO_64 && m.casExpected < TWO_64
    && |m.data| < TWO_64 && |m.rawFilePath| < TWO_64 && |m.segmentPath| < TWO_64
    && Utf8(m.rawFilePath) && Utf8(m.segmentPath)
  }

  /** Two's complement in 64 bits. */
  function Unsigned64(i: int): nat
    requires MIN_INT64 <= i < TWO_64
  {
    if i < 0 then i + TWO_64 else i
  }

  /** A field at its default is not written. */
  function Scalar(num: nat, i: int): seq<Field>
    requires MIN_INT64 <= i < TWO_64
  {
    if i == 0 then [] else [Field(num, Varint(Unsigned64(i)))]
  }

  function Text(num: nat, b: Bytes): seq<Field> {
    if b == [] then [] else [Field(num, Len(b))]
  }

  /** What is written for field `n`. */
  function Slot(m: Message, n: nat): seq<Field>
    requires Representable(m)
  {
    match n
    case 1 => Scalar(1, m.valueType)
    case 2 => Text(2, m.data)
    case 3 => Scalar(3, m.expiry)
    case 4 => Text(4, m.rawFilePath)
    case 5 => Text(5, m.segmentPath)
    case 6 => Scalar(6, m.segmentOffset)
    case 7 => Scalar(7, m.valueLength)
    case 8 => Scalar(8, m.checksum)
    case 9 => Scalar(9, m.version)
    case 10 => Scalar(10, m.opType)
    case 11 => Scalar(11, m.casExpected)
    case _ => []
  }

  /** The fields up to number `n`, in the order of their numbers. */
  function FieldsOf(m: Message, n: nat): seq<Field>
    requires Representable(m)
  {
    if n == 0 then [] else FieldsOf(m, n - 1) + Slot(m, n)
  }

  /** The message with the fields after number `n` cleared. */
  function UpTo(m: Message, n: nat): Message {
    Message(if n >= 1 then m.valueType else 0, if n >= 2 then m.data else [], if n >= 3 then m.expiry else 0,
            if n >= 4 then m.rawFilePath else [], if n >= 5 then m.segmentPath else [],
            if n >= 6 then m.segmentOffset else 0, if n >= 7 then m.valueLength else 0,
            if n >= 8 then m.checksum else 0, if n >= 9 then m.version else 0,
            if n >= 10 then m.opType else 0, if n >= 11 then m.casExpected else 0)
  }

  predicate Written(fs: seq<Field>) {
    forall i :: 0 <= i < |fs| ==> Encodable(fs[i]) && TextOk(fs[i])
  }

  ghost predicate SlotFits(m: Message, n: nat)
    requires Representable(m) && n >= 1
  {
    && |Slot(m, n)| <= 1 && Written(Slot(m, n))
    && UpTo(m, n) == if Slot(m, n) == [] then UpTo(m, n - 1) else Apply(UpTo(m, n - 1), Slot(m, n)[0])
  }

  lemma TextSlots(m: Message, n: nat)
    requires Representable(m) && n in {2, 4, 5}
    ensures SlotFits(m, n)
  {
  }

  lemma LongSlots(m: Message, n: nat)
    requires Representable(m) && n in {3, 6, 7}
    ensures SlotFits(m, n)
  {
  }

  lemma EnumSlots(m: Message, n: nat)
    requires Representable(m) && n in {1, 10}
    ensures SlotFits(m, n)
  {
  }

  lemma CountSlots(m: Message, n: nat)
    requires Representable(m) && n in {8, 9, 11}
    ensures SlotFits(m, n)
  {
  }

  lemma SlotStep(m: Message, n: nat)
    requires Representable(m) && 1 <= n <= 11
    ensures |Slot(m, n)| <= 1 && Written(Slot(m, n))
    ensures UpTo(m, n) == if Slot(m, n) == [] then UpTo(m, n - 1) else Apply(UpTo(m, n - 1), Slot(m, n)[0])
  {
    if n in {2, 4, 5} {
      TextSlots(m, n);
    } else if n in {3, 6, 7} {
      LongSlots(m, n);
    } else if n in {1, 10} {
      EnumSlots(m, n);
    } else {
      CountSlots(m, n);
    }
  }

  lemma {:induction false} SlotAppend(fs: seq<Field>, slot: seq<Field>)
    requires Written(fs) && Written(slot) && |slot| <= 1
    ensures Written(fs + slot)
    ensures Build(fs + slot) == if slot == [] then Build(fs) else Apply(Build(fs), slot[0])
  {
    if slot == [] {
      assert fs + slot == fs;
    } else {
      assert slot == [slot[0]];
      BuildAppend(fs, slot[0]);
    }
  }

  lemma {:induction false} BuildNext(m: Message, n: nat, fs: seq<Field>)
    requires Representable(m) && 1 <= n <= 11 && Written(fs) && Build(fs) == UpTo(m, n - 1)
    ensures Written(fs + Slot(m, n)) && Build(fs + Slot(m, n)) == UpTo(m, n)
  {
    hide Apply, UpTo, Slot, Build, Written, Representable;
    SlotStep(m, n);
    SlotAppend(fs, Slot(m, n));
  }

  lemma {:induction false} BuildFields(m: Message, n: nat)
    requires Representable(m) && n <= 11
    ensures Written(FieldsOf(m, n)) && Build(FieldsOf(m, n)) == UpTo(m, n)
  {
    hide Apply, Slot, Representable;
    if n > 0 {
      BuildFields(m, n - 1);
      BuildNext(m, n, FieldsOf(m, n - 1));
    }
  }

  /** The message as the store keeps it. */
  function Encode(m: Message): Bytes
    requires Representable(m)
  {
    BuildFields(m, 11);
    EncodeFields(FieldsOf(m, 11))
  }

  /** What is written is read back whole. */
  lemma RoundTrip(m: Message)
    requires Representable(m)
    ensures Decode(Encode(m)) == Some(m)
  {
    BuildFields(m, 11);
    FieldsRoundTrip(FieldsOf(m, 11));
  }

  // ---- Nothing else is ever read ----

  predicate Fits(f: Field) {
    TextOk(f) && (f.value.Len? ==> |f.value.bytes| < TWO_64)
  }

  lemma LengthFits(b: Bytes)
    requires ConsumeBytes(b).Good?
    ensures |ConsumeBytes(b).value| < TWO_64
  {
    hide VarintFrom;
    RoomIsWord();
  }

  lemma FieldLength(b: Bytes)
    requires ConsumeField(b).Good? && ConsumeField(b).value.value.Len?
    ensures |ConsumeField(b).value.value.bytes| < TWO_64
  {
    hide ConsumeTag, ConsumeBytes, ConsumeVarint, ConsumeGroup, ConsumeFixed;
    LengthFits(b[ConsumeTag(b).n..]);
  }

  lemma {:induction false} ParsedFit(b: Bytes)
    requires ParseFields(b).Some? && AllTextOk(ParseFields(b).value)
    ensures forall i :: 0 <= i < |ParseFields(b).value| ==> Fits(ParseFields(b).value[i])
    decreases |b|
  {
    hide ConsumeField;
    if b != [] {
      var f, rest := ConsumeField(b), ParseFields(b[ConsumeField(b).n..]).value;
      var fs := ParseFields(b).value;
      assert fs == [f.value] + rest;
      assert AllTextOk(rest) by {
        assert forall i :: 0 <= i < |rest| ==> rest[i] == fs[i + 1];
      }
      ParsedFit(b[f.n..]);
      assert fs[0] == f.value && TextOk(fs[0]);
      if f.value.value.Len? {
        FieldLength(b);
      }
    }
  }

  lemma ApplyFits(m: Message, f: Field)
    requires Representable(m) && Fits(f)
    ensures Representable(Apply(m, f))
  {
  }

  lemma {:induction false} BuildFits(fs: seq<Field>)
    requires forall i :: 0 <= i < |fs| ==> Fits(fs[i])
    ensures Representable(Build(fs))
  {
    hide Apply, Fits;
    if fs != [] {
      BuildFits(fs[..|fs| - 1]);
      ApplyFits(Build(fs[..|fs| - 1]), fs[|fs| - 1]);
    }
  }

  lemma DecodeFits(b: Bytes)
    requires Decode(b).Some?
    ensures Representable(Decode(b).value)
  {
    ParsedFit(b);
    BuildFits(ParseFields(b).value);
  }

  /** A message is what some bytes decode to exactly when it can be written: whatever was read is
      written and read back unchanged. */
  lemma DecodedExactly(m: Message)
    ensures Representable(m) <==> exists b :: Decode(b) == Some(m)
  {
    hide Representable, Encode, Decode;
    if Representable(m) {
      RoundTrip(m);
    }
    if b :| Decode(b) == Some(m) {
      DecodeFits(b);
    }
  }

  /** What the extractors read off one row. */
  datatype Extract = Extract(expiry: int, length: int, version: int, segment: (Bytes, int), raw: (int, Bytes),
                             cleanup: CleanupFields, withoutData: Message)

  /** Every extractor succeeds on an encoded row and returns the row's own fields. */
  method ReadBack(m: Message) returns (x: Extract, ok: bool)
    requires Representable(m)
    ensures ok
    ensures x == Extract(m.expiry, m.valueLength, m.version, (m.segmentPath, m.valueLength), (m.valueLength, m.rawFilePath),
                         CleanupOf(m), m.(data := []))
  {
    hide Representable, Encode, Decode;
    RoundTrip(m);
    var buf := Encode(m);
    var expiry, ok1 := ValueMessageExpiry(buf);
    var length, ok2 := ValueMessageValueLength(buf);
    var version, ok3 := ValueMessageVersion(buf);
    var segment, segmentLength, ok4 := ValueMessageSegmentRef(buf);
    var rawLength, raw, ok5 := ValueMessageSizeAndRawPath(buf);
    var cleanup, ok6 := DecodeValueMessageCleanupFields(buf);
    var rest := UnmarshalSkippingData(buf);
    ok := ok1 && ok2 && ok3 && ok4 && ok5 && ok6 && rest.Some?;
    x := Extract(expiry, length, version, (segment, segmentLength), (rawLength, raw), cleanup, rest.value);
  }
}
