/** The wire format of a metadata row: what a full decode makes of a byte string
    ("Base 128 Varints", "Message Structure" and "Last One Wins" of the Protocol
    Buffers Encoding specification). */
module Wire {
  import opened Rows

  datatype Parsed<+T> = Bad | Good(value: T, n: nat)

  /** A wire value of one of the wire types 0, 1, 2, 3 and 5. */
  datatype Value = Varint(number: nat) | Fixed64(raw: Bytes) | Len(bytes: Bytes) | Group(raw: Bytes) | Fixed32(raw: Bytes)

  datatype Field = Field(num: nat, value: Value)

  const MAX_NUMBER := 0x1FFF_FFFF      // largest valid field number
  const MAX_INT32 := 0x7FFF_FFFF       // largest number a tag can decode to
  const RECURSION_LIMIT := 10000
  const TWO_64: nat := 0x1_0000_0000_0000_0000
  const TWO_63: nat := 0x8000_0000_0000_0000
  const TWO_32: nat := 0x1_0000_0000

  /** What the `k`-th and later bytes of a varint can still hold. */
  function Room(k: nat): (r: nat)
    ensures r >= 2
    decreases 9 - k
  {
    if k >= 9 then 2 else 128 * Room(k + 1)
  }

  /** A varint from its `k`-th byte on: seven bits a byte, least significant first,
      at most ten bytes, the tenth below 2. */
  function VarintFrom(b: Bytes, k: nat): (r: Parsed<nat>)
    requires k <= 9
    ensures r.Good? ==> 0 < r.n <= |b| && r.value < Room(k)
    decreases 9 - k
  {
    if b == [] then Bad
    else if k == 9 then if b[0] < 2 then Good(b[0], 1) else Bad
    else if b[0] < 128 then Good(b[0], 1)
    else
      var rest := VarintFrom(b[1..], k + 1);
      if rest.Bad? then Bad else Good(b[0] - 128 + 128 * rest.value, rest.n + 1)
  }

  /** The number seven-bit groups stand for, least significant first. */
  function Groups(b: Bytes): nat {
    if b == [] then 0 else b[0] % 128 + 128 * Groups(b[1..])
  }

  /** `n` bytes make a varint from its `k`-th byte on: all but the last carry the continuation
      bit, and a tenth byte can only be 0 or 1. */
  predicate IsVarint(b: Bytes, k: nat, n: nat) {
    && 0 < n <= |b| && n + k <= 10 && b[n - 1] < 128 && (n + k == 10 ==> b[n - 1] < 2)
    && forall i :: 0 <= i < n - 1 ==> b[i] >= 128
  }

  lemma VarintTail(b: Bytes, k: nat, n: nat)
    requires b != [] && b[0] >= 128 && k < 9 && 0 < n < |b|
    ensures IsVarint(b, k, n + 1) <==> IsVarint(b[1..], k + 1, n)
    ensures b[..n + 1][1..] == b[1..][..n] && b[..n + 1][0] == b[0]
  {
    assert forall i :: 0 <= i < |b| - 1 ==> b[1..][i] == b[i + 1];
  }

  lemma OneByteVarint(b: Bytes, k: nat)
    requires k <= 9 && b != [] && b[0] < 128 && (k == 9 ==> b[0] < 2)
    ensures IsVarint(b, k, 1)
  {
  }

  /** What is read is a varint and its value ... */
  lemma {:induction false} VarintSound(b: Bytes, k: nat)
    requires k <= 9 && VarintFrom(b, k).Good?
    ensures var r := VarintFrom(b, k); IsVarint(b, k, r.n) && r.value == Groups(b[..r.n])
    decreases 9 - k
  {
    hide Room, IsVarint;
    if k < 9 && b[0] >= 128 {
      VarintSound(b[1..], k + 1);
      VarintTail(b, k, VarintFrom(b[1..], k + 1).n);
      assert b[0] - 128 == b[0] % 128;
    } else {
      OneByteVarint(b, k);
      assert b[..1] == [b[0]] && [b[0]][1..] == [];
    }
  }

  /** ... and every varint is read. */
  lemma {:induction false} VarintComplete(b: Bytes, k: nat, n: nat)
    requires k <= 9 && IsVarint(b, k, n)
    ensures VarintFrom(b, k) == Good(Groups(b[..n]), n)
    decreases 9 - k
  {
    if n > 1 {
      assert b[0] >= 128;
      VarintTail(b, k, n - 1);
      VarintComplete(b[1..], k + 1, n - 1);
    } else {
      assert b[..1] == [b[0]] && [b[0]][1..] == [];
    }
  }

  function ConsumeVarint(b: Bytes): (r: Parsed<nat>)
    ensures r.Good? ==> 0 < r.n <= |b|
  {
    VarintFrom(b, 0)
  }

  /** A field number and a wire type. */
  function ConsumeTag(b: Bytes): (r: Parsed<(nat, nat)>)
    ensures r.Good? ==> 0 < r.n <= |b|
  {
    var v := ConsumeVarint(b);
    if v.Bad? then Bad
    else if v.value / 8 > MAX_INT32 || v.value / 8 < 1 then Bad
    else Good((v.value / 8, v.value % 8), v.n)
  }

  function ConsumeFixed(b: Bytes, size: nat): (r: Parsed<Bytes>)
    ensures r.Good? ==> r.n == size <= |b|
  {
    if |b| < size then Bad else Good(b[..size], size)
  }

  function ConsumeBytes(b: Bytes): (r: Parsed<Bytes>)
    ensures r.Good? ==> 0 < r.n <= |b|
  {
    var m := ConsumeVarint(b);
    if m.Bad? || m.value > |b| - m.n then Bad
    else Good(b[m.n..m.n + m.value], m.n + m.value)
  }

  /** The fields of a group and its end tag; the size of all that. */
  function ConsumeGroup(num: nat, b: Bytes, depth: int): (r: Parsed<()>)
    ensures r.Good? ==> 0 < r.n <= |b|
    decreases |b|, 1
  {
    var tag := ConsumeTag(b);
    if tag.Bad? then Bad
    else if tag.value.1 == 4 then if tag.value.0 == num then Good((), tag.n) else Bad
    else
      var v := ConsumeFieldValue(tag.value.0, tag.value.1, b[tag.n..], depth - 1);
      if v.Bad? then Bad
      else
        var rest := ConsumeGroup(num, b[tag.n + v.n..], depth);
        if rest.Bad? then Bad else Good((), tag.n + v.n + rest.n)
  }

  function ConsumeFieldValue(num: nat, typ: nat, b: Bytes, depth: int): (r: Parsed<Value>)
    ensures r.Good? ==> r.n <= |b|
    decreases |b|, 2
  {
    if typ == 0 then (var v := ConsumeVarint(b); if v.Bad? then Bad else Good(Varint(v.value), v.n))
    else if typ == 1 then (var v := ConsumeFixed(b, 8); if v.Bad? then Bad else Good(Fixed64(v.value), v.n))
    else if typ == 2 then (var v := ConsumeBytes(b); if v.Bad? then Bad else Good(Len(v.value), v.n))
    else if typ == 3 then
      if depth < 0 then Bad
      else (var v := ConsumeGroup(num, b, depth); if v.Bad? then Bad else Good(Group(b[..v.n]), v.n))
    else if typ == 5 then (var v := ConsumeFixed(b, 4); if v.Bad? then Bad else Good(Fixed32(v.value), v.n))
    else Bad
  }

  /** Tag and value of one field. */
  function ConsumeField(b: Bytes): (r: Parsed<Field>)
    ensures r.Good? ==> 0 < r.n <= |b|
  {
    var tag := ConsumeTag(b);
    if tag.Bad? || tag.value.0 > MAX_NUMBER then Bad
    else
      var v := ConsumeFieldValue(tag.value.0, tag.value.1, b[tag.n..], RECURSION_LIMIT);
      if v.Bad? then Bad else Good(Field(tag.value.0, v.value), tag.n + v.n)
  }

  /** A tag is a varint that holds a field number of at least 1 and a wire type below it. */
  lemma TagExactly(b: Bytes, num: nat, typ: nat, n: nat)
    ensures ConsumeTag(b) == Good((num, typ), n) <==>
            IsVarint(b, 0, n) && Groups(b[..n]) == 8 * num + typ && typ < 8 && 1 <= num <= 0x7FFF_FFFF
  {
    hide IsVarint, Groups, VarintFrom;
    if ConsumeVarint(b).Good? {
      VarintSound(b, 0);
    }
    if IsVarint(b, 0, n) {
      IsVarintWithin(b, 0, n);
      VarintComplete(b, 0, n);
    }
  }

  lemma IsVarintWithin(b: Bytes, k: nat, n: nat)
    requires IsVarint(b, k, n)
    ensures n <= |b|
  {
  }

  /** A byte string is its length as a varint and then that many bytes. */
  lemma BytesExactly(b: Bytes, x: Bytes, n: nat)
    ensures ConsumeBytes(b) == Good(x, n) <==>
            exists m: nat :: IsVarint(b, 0, m) && m <= n <= |b| && Groups(b[..m]) == n - m && x == b[m..n]
  {
    hide IsVarint, Groups, VarintFrom;
    if ConsumeVarint(b).Good? {
      VarintSound(b, 0);
    }
    if m: nat :| IsVarint(b, 0, m) && m <= n <= |b| && Groups(b[..m]) == n - m && x == b[m..n] {
      VarintComplete(b, 0, m);
    }
  }

  /** A group ends in the end tag of its own number. */
  lemma {:induction false} GroupEnds(num: nat, b: Bytes, depth: int) returns (m: nat)
    requires ConsumeGroup(num, b, depth).Good?
    ensures var n := ConsumeGroup(num, b, depth).n; m < n && ConsumeTag(b[m..]) == Good((num, 4), n - m)
    decreases |b|
  {
    hide ConsumeTag, ConsumeFieldValue;
    var tag := ConsumeTag(b);
    if tag.value.1 == 4 {
      m := 0;
      assert b[0..] == b;
    } else {
      var v := ConsumeFieldValue(tag.value.0, tag.value.1, b[tag.n..], depth - 1);
      var at := tag.n + v.n;
      var rest := GroupEnds(num, b[at..], depth);
      m := at + rest;
      assert b[at..][rest..] == b[m..];
    }
  }

  /** A field has a number in range and one of five wire types, and its value is what its type says. */
  lemma FieldExactly(b: Bytes)
    requires ConsumeField(b).Good?
    ensures var f := ConsumeField(b).value;
            && 1 <= f.num <= 0x1FFF_FFFF && ConsumeTag(b).Good? && ConsumeTag(b).value.0 == f.num
            && (match ConsumeTag(b).value.1
                case 0 => f.value.Varint?
                case 1 => f.value.Fixed64? && |f.value.raw| == 8
                case 2 => f.value.Len?
                case 3 => f.value.Group?
                case 5 => f.value.Fixed32? && |f.value.raw| == 4
                case _ => false)
  {
    hide VarintFrom, ConsumeGroup;
  }

  function Then(fs: seq<Field>, rest: Option<seq<Field>>): Option<seq<Field>> {
    if rest.None? then None else Some(fs + rest.value)
  }

  /** All fields of a message, in order. */
  function ParseFields(b: Bytes): Option<seq<Field>>
    decreases |b|
  {
    if b == [] then Some([])
    else
      var f := ConsumeField(b);
      if f.Bad? then None else Then([f.value], ParseFields(b[f.n..]))
  }

  // ---- The full decode ----

  predicate Continues(b: Bytes, i: nat, lo: int, hi: int) {
    i < |b| && lo <= b[i] <= hi
  }

  /** Well-formed UTF-8: no overlong form, no surrogate, nothing past U+10FFFF. */
  predicate Utf8(b: Bytes)
    decreases |b|
  {
    if b == [] then true
    else if b[0] < 0x80 then Utf8(b[1..])
    else if 0xC2 <= b[0] <= 0xDF then Continues(b, 1, 0x80, 0xBF) && Utf8(b[2..])
    else if 0xE0 <= b[0] <= 0xEF then
      Continues(b, 1, if b[0] == 0xE0 then 0xA0 else 0x80, if b[0] == 0xED then 0x9F else 0xBF) &&
      Continues(b, 2, 0x80, 0xBF) && Utf8(b[3..])
    else if 0xF0 <= b[0] <= 0xF4 then
      Continues(b, 1, if b[0] == 0xF0 then 0x90 else 0x80, if b[0] == 0xF4 then 0x8F else 0xBF) &&
      Continues(b, 2, 0x80, 0xBF) && Continues(b, 3, 0x80, 0xBF) && Utf8(b[4..])
    else false
  }

  /** The decoded message, field by field as declared in storage/proto/storage.proto. */
  datatype Message = Message(
    valueType: int,
    data: Bytes,
    expiry: int,
    rawFilePath: Bytes,
    segmentPath: Bytes,
    segmentOffset: int,
    valueLength: int,
    checksum: nat,
    version: nat,
    opType: int,
    casExpected: nat)

  const EMPTY := Message(0, [], 0, [], [], 0, 0, 0, 0, 0, 0)

  /** Reinterpretation of the low 64 or 32 bits as a signed number. */
  function Signed64(v: nat): int {
    if v % TWO_64 >= TWO_63 then v % TWO_64 - TWO_64 else v % TWO_64
  }

  function Signed32(v: nat): int {
    if v % TWO_32 >= TWO_32 / 2 then v % TWO_32 - TWO_32 else v % TWO_32
  }

  lemma WholeWords(q: int)
    ensures (q * 0x1_0000_0000_0000_0000) % 0x1_0000_0000_0000_0000 == 0 && (q * 0x1_0000_0000) % 0x1_0000_0000 == 0
  {
  }

  /** The number of that many bits that agrees with `v` modulo their power of two. */
  lemma SignedExactly(v: nat)
    ensures -0x8000_0000_0000_0000 <= Signed64(v) < 0x8000_0000_0000_0000 && (Signed64(v) - v) % 0x1_0000_0000_0000_0000 == 0
    ensures -0x8000_0000 <= Signed32(v) < 0x8000_0000 && (Signed32(v) - v) % 0x1_0000_0000 == 0
  {
    WholeWords(-(v / TWO_64));
    WholeWords(-(v / TWO_32));
    WholeWords(-(v / TWO_64) - 1);
    WholeWords(-(v / TWO_32) - 1);
  }

  /** One field over what came before it; an unknown field, or one of another wire type, changes nothing. */
  function Apply(m: Message, f: Field): Message {
    match f.value
    case Varint(v) =>
      if f.num == 1 then m.(valueType := Signed32(v))
      else if f.num == 3 then m.(expiry := Signed64(v))
      else if f.num == 6 then m.(segmentOffset := Signed64(v))
      else if f.num == 7 then m.(valueLength := Signed64(v))
      else if f.num == 8 then m.(checksum := v % TWO_32)
      else if f.num == 9 then m.(version := v % TWO_64)
      else if f.num == 10 then m.(opType := Signed32(v))
      else if f.num == 11 then m.(casExpected := v % TWO_64)
      else m
    case Len(b) =>
      if f.num == 2 then m.(data := b)
      else if f.num == 4 then m.(rawFilePath := b)
      else if f.num == 5 then m.(segmentPath := b)
      else m
    case _ => m
  }

  function Build(fs: seq<Field>): Message {
    if fs == [] then EMPTY else Apply(Build(fs[..|fs| - 1]), fs[|fs| - 1])
  }

  /** The two path fields are strings and must be UTF-8. */
  predicate TextOk(f: Field) {
    f.num in {4, 5} && f.value.Len? ==> Utf8(f.value.bytes)
  }

  predicate AllTextOk(fs: seq<Field>) {
    forall i :: 0 <= i < |fs| ==> TextOk(fs[i])
  }

  /** What a full decode returns: nothing for a malformed message. */
  function Decode(b: Bytes): Option<Message> {
    match ParseFields(b)
    case None => None
    case Some(fs) => if AllTextOk(fs) then Some(Build(fs)) else None
  }

  // ---- A parse depends only on the bytes it consumes ----

  predicate Agree(a: Bytes, b: Bytes, n: nat) {
    n <= |a| && n <= |b| && forall i :: 0 <= i < n ==> a[i] == b[i]
  }

  lemma AgreeDrop(a: Bytes, b: Bytes, n: nat, k: nat)
    requires Agree(a, b, n) && k <= n
    ensures Agree(a[k..], b[k..], n - k)
  {
  }

  lemma AgreeSlice(a: Bytes, b: Bytes, n: nat, k: nat)
    requires Agree(a, b, n) && k <= n
    ensures a[k..n] == b[k..n]
  {
  }

  lemma {:induction false} VarintPrefix(b: Bytes, c: Bytes, k: nat)
    requires k <= 9 && VarintFrom(b, k).Good? && Agree(b, c, VarintFrom(b, k).n)
    ensures VarintFrom(c, k) == VarintFrom(b, k)
    decreases 9 - k
  {
    assert c[0] == b[0];
    if k < 9 && b[0] >= 128 {
      AgreeDrop(b, c, VarintFrom(b, k).n, 1);
      VarintPrefix(b[1..], c[1..], k + 1);
    }
  }

  lemma TagPrefix(b: Bytes, c: Bytes)
    requires ConsumeTag(b).Good? && Agree(b, c, ConsumeTag(b).n)
    ensures ConsumeTag(c) == ConsumeTag(b)
  {
    VarintPrefix(b, c, 0);
  }

  lemma BytesPrefix(b: Bytes, c: Bytes)
    requires ConsumeBytes(b).Good? && Agree(b, c, ConsumeBytes(b).n)
    ensures ConsumeBytes(c) == ConsumeBytes(b)
  {
    VarintPrefix(b, c, 0);
    AgreeSlice(b, c, ConsumeBytes(b).n, ConsumeVarint(b).n);
  }

  lemma {:induction false} GroupPrefix(num: nat, b: Bytes, c: Bytes, depth: int)
    requires ConsumeGroup(num, b, depth).Good? && Agree(b, c, ConsumeGroup(num, b, depth).n)
    ensures ConsumeGroup(num, c, depth) == ConsumeGroup(num, b, depth)
    decreases |b|, 1
  {
    hide ConsumeTag, ConsumeFieldValue;
    var n, tag := ConsumeGroup(num, b, depth).n, ConsumeTag(b);
    TagPrefix(b, c);
    if tag.value.1 != 4 {
      var v := ConsumeFieldValue(tag.value.0, tag.value.1, b[tag.n..], depth - 1);
      AgreeDrop(b, c, n, tag.n);
      ValuePrefix(tag.value.0, tag.value.1, b[tag.n..], c[tag.n..], depth - 1);
      AgreeDrop(b, c, n, tag.n + v.n);
      GroupPrefix(num, b[tag.n + v.n..], c[tag.n + v.n..], depth);
    }
  }

  lemma {:induction false} ValuePrefix(num: nat, typ: nat, b: Bytes, c: Bytes, depth: int)
    requires ConsumeFieldValue(num, typ, b, depth).Good? && Agree(b, c, ConsumeFieldValue(num, typ, b, depth).n)
    ensures ConsumeFieldValue(num, typ, c, depth) == ConsumeFieldValue(num, typ, b, depth)
    decreases |b|, 2
  {
    if typ == 0 {
      VarintPrefix(b, c, 0);
    } else if typ == 2 {
      BytesPrefix(b, c);
    } else {
      if typ == 3 {
        GroupPrefix(num, b, c, depth);
      }
      AgreeSlice(b, c, ConsumeFieldValue(num, typ, b, depth).n, 0);
    }
  }

  lemma FieldPrefix(b: Bytes, c: Bytes)
    requires ConsumeField(b).Good? && Agree(b, c, ConsumeField(b).n)
    ensures ConsumeField(c) == ConsumeField(b)
  {
    var tag := ConsumeTag(b);
    TagPrefix(b, c);
    AgreeDrop(b, c, ConsumeField(b).n, tag.n);
    ValuePrefix(tag.value.0, tag.value.1, b[tag.n..], c[tag.n..], RECURSION_LIMIT);
  }

  lemma ThenThen(a: seq<Field>, b: seq<Field>, rest: Option<seq<Field>>)
    ensures Then(a, Then(b, rest)) == Then(a + b, rest)
  {
    if rest.Some? {
      assert a + (b + rest.value) == a + b + rest.value;
    }
  }

  lemma FirstField(b: Bytes, c: Bytes)
    requires b != [] && ConsumeField(b).Good?
    ensures ConsumeField(b + c) == ConsumeField(b) && (b + c)[ConsumeField(b).n..] == b[ConsumeField(b).n..] + c
  {
    FieldPrefix(b, b + c);
  }

  /** Messages concatenate. */
  lemma {:induction false} ParseAppend(a: Bytes, b: Bytes)
    requires ParseFields(a).Some?
    ensures ParseFields(a + b) == Then(ParseFields(a).value, ParseFields(b))
    decreases |a|
  {
    if a == [] {
      assert a + b == b;
      assert ParseFields(b).Some? ==> [] + ParseFields(b).value == ParseFields(b).value;
    } else {
      var f := ConsumeField(a);
      FirstField(a, b);
      ParseAppend(a[f.n..], b);
      ThenThen([f.value], ParseFields(a[f.n..]).value, ParseFields(b));
    }
  }

  lemma {:induction false} BuildAppend(fs: seq<Field>, f: Field)
    ensures Build(fs + [f]) == Apply(Build(fs), f)
  {
  }
}
