/** The fast readers of storage/value_wire.go: each scans the wire once, never
    builds the message, and must agree with the full decode on every byte string. */
module WireExtract {
  import opened Rows
  import opened Wire

  // ---- How far a scan has come ----

  /** The fields read so far, then whatever the rest parses to, is the parse of the whole. */
  ghost predicate Scanned(whole: Bytes, done: seq<Field>, b: Bytes) {
    ParseFields(whole) == Then(done, ParseFields(b))
  }

  lemma ScanStarts(b: Bytes)
    ensures Scanned(b, [], b)
  {
    assert ParseFields(b).Some? ==> [] + ParseFields(b).value == ParseFields(b).value;
  }

  lemma {:induction false} ScanEnds(whole: Bytes, done: seq<Field>)
    requires Scanned(whole, done, [])
    ensures ParseFields(whole) == Some(done)
  {
    assert done + [] == done;
  }

  lemma ScanAdvances(whole: Bytes, done: seq<Field>, b: Bytes)
    requires Scanned(whole, done, b) && b != [] && ConsumeField(b).Good?
    ensures Scanned(whole, done + [ConsumeField(b).value], b[ConsumeField(b).n..])
  {
    var f := ConsumeField(b);
    ThenThen(done, [f.value], ParseFields(b[f.n..]));
  }

  /** A path that is not UTF-8 makes the decode fail, whatever follows. */
  lemma BadText(whole: Bytes, done: seq<Field>, f: Field, b: Bytes)
    requires Scanned(whole, done + [f], b) && !TextOk(f)
    ensures Decode(whole).None?
  {
    if ParseFields(b).Some? {
      assert (done + [f] + ParseFields(b).value)[|done|] == f;
    }
  }

  /** A scan with every path so far in order. */
  ghost predicate Scanning(whole: Bytes, done: seq<Field>, b: Bytes) {
    Scanned(whole, done, b) && AllTextOk(done)
  }

  lemma FieldOf(b: Bytes)
    requires ConsumeTag(b).Good? && ConsumeTag(b).value.0 <= MAX_NUMBER
    ensures var tag := ConsumeTag(b);
            var v := ConsumeFieldValue(tag.value.0, tag.value.1, b[tag.n..], RECURSION_LIMIT);
            if v.Bad? then ConsumeField(b).Bad?
            else ConsumeField(b) == Good(Field(tag.value.0, v.value), tag.n + v.n) && b[tag.n..][v.n..] == b[tag.n + v.n..]
  {
  }

  /** What reading one more tag and value tells about the decode of the whole. */
  lemma ScanField(whole: Bytes, done: seq<Field>, b: Bytes)
    requires Scanning(whole, done, b) && b != []
    ensures ConsumeTag(b).Bad? || ConsumeTag(b).value.0 > MAX_NUMBER ==> Decode(whole).None?
    ensures ConsumeTag(b).Good? && ConsumeTag(b).value.0 <= MAX_NUMBER ==>
              var tag := ConsumeTag(b);
              var v := ConsumeFieldValue(tag.value.0, tag.value.1, b[tag.n..], RECURSION_LIMIT);
              if v.Bad? || !TextOk(Field(tag.value.0, v.value)) then Decode(whole).None?
              else Scanning(whole, done + [Field(tag.value.0, v.value)], b[tag.n..][v.n..])
  {
    hide ConsumeTag, ConsumeFieldValue, Build, TextOk;
    var tag := ConsumeTag(b);
    if tag.Good? && tag.value.0 <= MAX_NUMBER {
      FieldOf(b);
      if ConsumeField(b).Good? {
        ScanAdvances(whole, done, b);
        if !TextOk(ConsumeField(b).value) {
          BadText(whole, done, ConsumeField(b).value, b[ConsumeField(b).n..]);
        }
      }
    }
  }

  // The same, by what an extractor does with the field.

  /** Tag read, number valid: the scan stands before a value of wire type `typ`. */
  ghost predicate AtValue(whole: Bytes, done: seq<Field>, b: Bytes, num: nat, typ: nat, rest: Bytes) {
    && Scanning(whole, done, b) && b != [] && num <= MAX_NUMBER
    && ConsumeTag(b).Good? && ConsumeTag(b).value == (num, typ) && rest == b[ConsumeTag(b).n..]
  }

  lemma TookVarint(whole: Bytes, done: seq<Field>, b: Bytes, num: nat, rest: Bytes)
    requires AtValue(whole, done, b, num, 0, rest)
    ensures var v := ConsumeVarint(rest);
            if v.Bad? then Decode(whole).None? else Scanning(whole, done + [Field(num, Varint(v.value))], rest[v.n..])
  {
    ScanField(whole, done, b);
  }

  lemma TookText(whole: Bytes, done: seq<Field>, b: Bytes, num: nat, rest: Bytes)
    requires AtValue(whole, done, b, num, 2, rest) && num in {4, 5}
    ensures var v := ConsumeBytes(rest);
            if v.Bad? || !Utf8(v.value) then Decode(whole).None?
            else Scanning(whole, done + [Field(num, Len(v.value))], rest[v.n..])
  {
    ScanField(whole, done, b);
  }

  lemma {:induction false} Skipped(whole: Bytes, done: seq<Field>, b: Bytes, num: nat, typ: nat, rest: Bytes)
    requires AtValue(whole, done, b, num, typ, rest) && !(num in {4, 5} && typ == 2)
    ensures var v := ConsumeFieldValue(num, typ, rest, RECURSION_LIMIT);
            if v.Bad? then Decode(whole).None? else Scanning(whole, done + [Field(num, v.value)], rest[v.n..])
    ensures var v := ConsumeFieldValue(num, typ, rest, RECURSION_LIMIT);
            v.Good? ==> (v.value.Varint? <==> typ == 0) && (v.value.Len? <==> typ == 2)
  {
    hide ConsumeTag, ConsumeFieldValue, Decode, Scanning;
    ScanField(whole, done, b);
    KindOfValue(num, typ, rest);
  }

  lemma {:induction false} KindOfValue(num: nat, typ: nat, rest: Bytes)
    ensures var v := ConsumeFieldValue(num, typ, rest, RECURSION_LIMIT);
            v.Good? ==> (v.value.Varint? <==> typ == 0) && (v.value.Len? <==> typ == 2)
  {
    hide ConsumeVarint, ConsumeFixed, ConsumeBytes, ConsumeGroup;
  }

  lemma BadTag(whole: Bytes, done: seq<Field>, b: Bytes)
    requires Scanning(whole, done, b) && b != [] && (ConsumeTag(b).Bad? || ConsumeTag(b).value.0 > MAX_NUMBER)
    ensures Decode(whole).None?
  {
  }

  // ---- One scalar field ----

  /** The last varint under this number, 0 if there is none. */
  function LastVarint(fs: seq<Field>, num: nat): nat {
    if fs == [] then 0
    else
      var f := fs[|fs| - 1];
      if f.num == num && f.value.Varint? then f.value.number else LastVarint(fs[..|fs| - 1], num)
  }

  lemma {:induction false} LastVarintAppend(fs: seq<Field>, f: Field, num: nat)
    ensures LastVarint(fs + [f], num) == if f.num == num && f.value.Varint? then f.value.number else LastVarint(fs, num)
  {
  }

  /** The last byte string under this number, empty if there is none. */
  function LastLen(fs: seq<Field>, num: nat): Bytes {
    if fs == [] then []
    else
      var f := fs[|fs| - 1];
      if f.num == num && f.value.Len? then f.value.bytes else LastLen(fs[..|fs| - 1], num)
  }

  lemma {:induction false} LastLenAppend(fs: seq<Field>, f: Field, num: nat)
    ensures LastLen(fs + [f], num) == if f.num == num && f.value.Len? then f.value.bytes else LastLen(fs, num)
  {
  }

  /** Last one wins, field by field. */
  lemma {:induction false} BuildScalars(fs: seq<Field>)
    ensures Build(fs).expiry == Signed64(LastVarint(fs, 3)) && Build(fs).valueLength == Signed64(LastVarint(fs, 7))
    ensures Build(fs).version == LastVarint(fs, 9) % TWO_64 && Build(fs).valueType == Signed32(LastVarint(fs, 1))
    ensures Build(fs).rawFilePath == LastLen(fs, 4) && Build(fs).segmentPath == LastLen(fs, 5)
    ensures Build(fs).data == LastLen(fs, 2) && Build(fs).segmentOffset == Signed64(LastVarint(fs, 6))
    ensures Build(fs).checksum == LastVarint(fs, 8) % TWO_32 && Build(fs).opType == Signed32(LastVarint(fs, 10))
    ensures Build(fs).casExpected == LastVarint(fs, 11) % TWO_64
  {
    if fs != [] {
      BuildScalars(fs[..|fs| - 1]);
    }
  }

  method ValueMessageVarintField(buf: Bytes, want: nat) returns (val: int, ok: bool)
    ensures ok <==> Decode(buf).Some?
    ensures ok ==> val == Signed64(LastVarint(ParseFields(buf).value, want))
    ensures !ok ==> val == 0
  {
    var b := buf;
    val := 0;
    ghost var done: seq<Field> := [];
    ScanStarts(buf);
    while b != []
      invariant Scanning(buf, done, b) && val == Signed64(LastVarint(done, want))
      decreases |b|
    {
      var tag := ConsumeTag(b);
      if tag.Bad? || tag.value.0 > MAX_NUMBER {
        BadTag(buf, done, b);
        return 0, false;
      }
      var num, typ := tag.value.0, tag.value.1;
      ghost var b0, f := b, Field(num, Fixed32([]));
      b := b[tag.n..];
      if num == want && typ == 0 {
        TookVarint(buf, done, b0, num, b);
        var v := ConsumeVarint(b);
        if v.Bad? {
          return 0, false;
        }
        val, b, f := Signed64(v.value), b[v.n..], Field(num, Varint(v.value));
      } else if (num == 4 || num == 5) && typ == 2 {
        TookText(buf, done, b0, num, b);
        var v := ConsumeBytes(b);
        if v.Bad? || !Utf8(v.value) {
          return 0, false;
        }
        b, f := b[v.n..], Field(num, Len(v.value));
      } else {
        Skipped(buf, done, b0, num, typ, b);
        var v := ConsumeFieldValue(num, typ, b, RECURSION_LIMIT);
        if v.Bad? {
          return 0, false;
        }
        b, f := b[v.n..], Field(num, v.value);
      }
      LastVarintAppend(done, f, want);
      done := done + [f];
    }
    ScanEnds(buf, done);
    ok := true;
  }

  /** The three scalars the scans read this way come out as the full decode has them. */
  method ValueMessageExpiry(buf: Bytes) returns (expiry: int, ok: bool)
    ensures ok <==> Decode(buf).Some?
    ensures ok ==> expiry == Decode(buf).value.expiry
  {
    expiry, ok := ValueMessageVarintField(buf, 3);
    if ok {
      BuildScalars(ParseFields(buf).value);
    }
  }

  method ValueMessageValueLength(buf: Bytes) returns (length: int, ok: bool)
    ensures ok <==> Decode(buf).Some?
    ensures ok ==> length == Decode(buf).value.valueLength
  {
    length, ok := ValueMessageVarintField(buf, 7);
    if ok {
      BuildScalars(ParseFields(buf).value);
    }
  }

  /** The version goes through a signed number and back. */
  method ValueMessageVersion(buf: Bytes) returns (version: int, ok: bool)
    ensures ok <==> Decode(buf).Some?
    ensures ok ==> version == Decode(buf).value.version
  {
    var v;
    v, ok := ValueMessageVarintField(buf, 9);
    version := if v < 0 then v + TWO_64 else v;
    if ok {
      BuildScalars(ParseFields(buf).value);
    }
  }

  // ---- Several fields in one pass ----

  method ValueMessageSegmentRef(buf: Bytes) returns (segmentPath: Bytes, valueLength: int, ok: bool)
    ensures ok <==> Decode(buf).Some?
    ensures ok ==> segmentPath == Decode(buf).value.segmentPath && valueLength == Decode(buf).value.valueLength
    ensures !ok ==> segmentPath == [] && valueLength == 0
  {
    var b := buf;
    segmentPath, valueLength := [], 0;
    ghost var done: seq<Field> := [];
    ScanStarts(buf);
    while b != []
      invariant Scanning(buf, done, b)
      invariant segmentPath == LastLen(done, 5) && valueLength == Signed64(LastVarint(done, 7))
      decreases |b|
    {
      var tag := ConsumeTag(b);
      if tag.Bad? || tag.value.0 > MAX_NUMBER {
        BadTag(buf, done, b);
        return [], 0, false;
      }
      var num, typ := tag.value.0, tag.value.1;
      ghost var b0, f := b, Field(num, Fixed32([]));
      b := b[tag.n..];
      if num == 7 && typ == 0 {
        TookVarint(buf, done, b0, num, b);
        var v := ConsumeVarint(b);
        if v.Bad? {
          return [], 0, false;
        }
        valueLength, b, f := Signed64(v.value), b[v.n..], Field(num, Varint(v.value));
      } else if (num == 4 || num == 5) && typ == 2 {
        TookText(buf, done, b0, num, b);
        var v := ConsumeBytes(b);
        if v.Bad? || !Utf8(v.value) {
          return [], 0, false;
        }
        if num == 5 {
          segmentPath := v.value;
        }
        b, f := b[v.n..], Field(num, Len(v.value));
      } else {
        Skipped(buf, done, b0, num, typ, b);
        var v := ConsumeFieldValue(num, typ, b, RECURSION_LIMIT);
        if v.Bad? {
          return [], 0, false;
        }
        b, f := b[v.n..], Field(num, v.value);
      }
      LastVarintAppend(done, f, 7);
      LastLenAppend(done, f, 5);
      done := done + [f];
    }
    ScanEnds(buf, done);
    BuildScalars(done);
    ok := true;
  }

  method ValueMessageSizeAndRawPath(buf: Bytes) returns (valueLength: int, rawPath: Bytes, ok: bool)
    ensures ok <==> Decode(buf).Some?
    ensures ok ==> valueLength == Decode(buf).value.valueLength && rawPath == Decode(buf).value.rawFilePath
    ensures !ok ==> valueLength == 0 && rawPath == []
  {
    var b := buf;
    valueLength, rawPath := 0, [];
    ghost var done: seq<Field> := [];
    ScanStarts(buf);
    while b != []
      invariant Scanning(buf, done, b)
      invariant valueLength == Signed64(LastVarint(done, 7)) && rawPath == LastLen(done, 4)
      decreases |b|
    {
      var tag := ConsumeTag(b);
      if tag.Bad? || tag.value.0 > MAX_NUMBER {
        BadTag(buf, done, b);
        return 0, [], false;
      }
      var num, typ := tag.value.0, tag.value.1;
      ghost var b0, f := b, Field(num, Fixed32([]));
      b := b[tag.n..];
      if num == 7 && typ == 0 {
        TookVarint(buf, done, b0, num, b);
        var v := ConsumeVarint(b);
        if v.Bad? {
          return 0, [], false;
        }
        valueLength, b, f := Signed64(v.value), b[v.n..], Field(num, Varint(v.value));
      } else if (num == 4 || num == 5) && typ == 2 {
        TookText(buf, done, b0, num, b);
        var v := ConsumeBytes(b);
        if v.Bad? || !Utf8(v.value) {
          return 0, [], false;
        }
        if num == 4 {
          rawPath := v.value;
        }
        b, f := b[v.n..], Field(num, Len(v.value));
      } else {
        Skipped(buf, done, b0, num, typ, b);
        var v := ConsumeFieldValue(num, typ, b, RECURSION_LIMIT);
        if v.Bad? {
          return 0, [], false;
        }
        b, f := b[v.n..], Field(num, v.value);
      }
      LastVarintAppend(done, f, 7);
      LastLenAppend(done, f, 4);
      done := done + [f];
    }
    ScanEnds(buf, done);
    BuildScalars(done);
    ok := true;
  }

  /** What is needed of a row once it is deleted or replaced. */
  datatype CleanupFields = CleanupFields(valueType: int, valueLength: int, rawFilePath: Bytes, segmentPath: Bytes)

  const NO_FIELDS := CleanupFields(0, 0, [], [])

  function CleanupOf(m: Message): CleanupFields {
    CleanupFields(m.valueType, m.valueLength, m.rawFilePath, m.segmentPath)
  }

  method DecodeValueMessageCleanupFields(buf: Bytes) returns (fields: CleanupFields, ok: bool)
    ensures ok <==> Decode(buf).Some?
    ensures fields == if ok then CleanupOf(Decode(buf).value) else NO_FIELDS
  {
    var b := buf;
    fields := NO_FIELDS;
    ghost var done: seq<Field> := [];
    ScanStarts(buf);
    while b != []
      invariant Scanning(buf, done, b)
      invariant fields.valueType == Signed32(LastVarint(done, 1)) && fields.valueLength == Signed64(LastVarint(done, 7))
      invariant fields.rawFilePath == LastLen(done, 4) && fields.segmentPath == LastLen(done, 5)
      decreases |b|
    {
      var tag := ConsumeTag(b);
      if tag.Bad? || tag.value.0 > MAX_NUMBER {
        BadTag(buf, done, b);
        return NO_FIELDS, false;
      }
      var num, typ := tag.value.0, tag.value.1;
      ghost var b0, f := b, Field(num, Fixed32([]));
      b := b[tag.n..];
      if (num == 1 || num == 7) && typ == 0 {
        TookVarint(buf, done, b0, num, b);
        var v := ConsumeVarint(b);
        if v.Bad? {
          return NO_FIELDS, false;
        }
        fields := if num == 1 then fields.(valueType := Signed32(v.value)) else fields.(valueLength := Signed64(v.value));
        b, f := b[v.n..], Field(num, Varint(v.value));
      } else if (num == 4 || num == 5) && typ == 2 {
        TookText(buf, done, b0, num, b);
        var v := ConsumeBytes(b);
        if v.Bad? || !Utf8(v.value) {
          return NO_FIELDS, false;
        }
        fields := if num == 4 then fields.(rawFilePath := v.value) else fields.(segmentPath := v.value);
        b, f := b[v.n..], Field(num, Len(v.value));
      } else {
        Skipped(buf, done, b0, num, typ, b);
        var v := ConsumeFieldValue(num, typ, b, RECURSION_LIMIT);
        if v.Bad? {
          return NO_FIELDS, false;
        }
        b, f := b[v.n..], Field(num, v.value);
      }
      LastVarintAppend(done, f, 1);
      LastVarintAppend(done, f, 7);
      LastLenAppend(done, f, 4);
      LastLenAppend(done, f, 5);
      done := done + [f];
    }
    ScanEnds(buf, done);
    BuildScalars(done);
    ok := true;
  }

  // ---- Everything but the data ----

  function WithoutData(fs: seq<Field>): seq<Field> {
    if fs == [] then []
    else WithoutData(fs[..|fs| - 1]) + (if fs[|fs| - 1].num == 2 then [] else [fs[|fs| - 1]])
  }

  lemma {:induction false} WithoutDataAppend(fs: seq<Field>, f: Field)
    ensures WithoutData(fs + [f]) == WithoutData(fs) + (if f.num == 2 then [] else [f])
  {
  }

  lemma ApplyClears(m: Message, f: Field)
    ensures if f.num == 2 then Apply(m, f).(data := []) == m.(data := [])
            else Apply(m.(data := []), f) == Apply(m, f).(data := [])
  {
  }

  lemma {:induction false} BuildWithoutData(fs: seq<Field>)
    ensures Build(WithoutData(fs)) == Build(fs).(data := [])
    ensures AllTextOk(WithoutData(fs)) <==> AllTextOk(fs)
  {
    if fs != [] {
      var init, f := fs[..|fs| - 1], fs[|fs| - 1];
      BuildWithoutData(init);
      assert fs == init + [f];
      AllTextAppend(init, f);
      BuildAppend(init, f);
      ApplyClears(Build(init), f);
      if f.num == 2 {
        assert WithoutData(fs) == WithoutData(init);
      } else {
        BuildAppend(WithoutData(init), f);
        AllTextAppend(WithoutData(init), f);
      }
    }
  }

  lemma AllTextAppend(fs: seq<Field>, f: Field)
    ensures AllTextOk(fs + [f]) <==> AllTextOk(fs) && TextOk(f)
  {
    if AllTextOk(fs + [f]) {
      forall i | 0 <= i < |fs| ensures TextOk(fs[i]) {
        assert (fs + [f])[i] == fs[i];
      }
      assert (fs + [f])[|fs|] == f;
    }
  }

  lemma OneField(b: Bytes)
    requires ConsumeField(b).Good?
    ensures ParseFields(b[..ConsumeField(b).n]) == Some([ConsumeField(b).value])
  {
    var n := ConsumeField(b).n;
    FieldPrefix(b, b[..n]);
    assert b[..n][n..] == [];
    assert [ConsumeField(b).value] + [] == [ConsumeField(b).value];
  }

  /** The parse of what has been kept, after one more field. */
  lemma StripField(whole: Bytes, done: seq<Field>, b: Bytes, stripped: Bytes)
    requires Scanned(whole, done, b) && b != [] && ParseFields(stripped) == Some(WithoutData(done)) && ConsumeField(b).Good?
    ensures var f := ConsumeField(b);
            && Scanned(whole, done + [f.value], b[f.n..])
            && ParseFields(if f.value.num == 2 then stripped else stripped + b[..f.n]) == Some(WithoutData(done + [f.value]))
  {
    var f := ConsumeField(b);
    ScanAdvances(whole, done, b);
    WithoutDataAppend(done, f.value);
    if f.value.num == 2 {
      assert WithoutData(done + [f.value]) == WithoutData(done);
    } else {
      OneField(b);
      ParseAppend(stripped, b[..f.n]);
    }
  }

  lemma {:induction false} StripEnds(whole: Bytes, done: seq<Field>, stripped: Bytes)
    requires Scanned(whole, done, []) && ParseFields(stripped) == Some(WithoutData(done))
    ensures Decode(stripped) == if Decode(whole).Some? then Some(Decode(whole).value.(data := [])) else None
  {
    ScanEnds(whole, done);
    BuildWithoutData(done);
  }

  /** Stripping field 2 and decoding the rest is decoding and clearing the data. */
  method UnmarshalSkippingData(buf: Bytes) returns (msg: Option<Message>)
    ensures msg == if Decode(buf).Some? then Some(Decode(buf).value.(data := [])) else None
  {
    var b, stripped: Bytes := buf, [];
    ghost var done: seq<Field> := [];
    ScanStarts(buf);
    while b != []
      invariant Scanned(buf, done, b) && ParseFields(stripped) == Some(WithoutData(done))
      decreases |b|
    {
      var tag := ConsumeTag(b);
      if tag.Bad? || tag.value.0 > MAX_NUMBER {
        return None;
      }
      FieldOf(b);
      var v := ConsumeFieldValue(tag.value.0, tag.value.1, b[tag.n..], RECURSION_LIMIT);
      if v.Bad? {
        return None;
      }
      StripField(buf, done, b, stripped);
      if tag.value.0 != 2 {
        stripped := stripped + b[..tag.n + v.n];
      }
      b := b[tag.n + v.n..];
      done := done + [Field(tag.value.0, v.value)];
    }
    StripEnds(buf, done, stripped);
    msg := Decode(stripped);
  }
}
