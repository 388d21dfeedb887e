/** What well-formed text is: exactly the encodings of sequences of Unicode scalar values
    (the definition of UTF-8 in section 3 of RFC 3629). */
module WireText {
  import opened Rows
  import opened Wire

  /** A code point that is no surrogate. */
  type Rune = c: int | 0 <= c < 0xD800 || 0xE000 <= c <= 0x10FFFF

  function EncodeRune(c: Rune): Bytes {
    if c < 0x80 then [c]
    else if c < 0x800 then [0xC0 + c / 64, 0x80 + c % 64]
    else if c < 0x10000 then [0xE0 + c / 4096, 0x80 + c / 64 % 64, 0x80 + c % 64]
    else [0xF0 + c / 262144, 0x80 + c / 4096 % 64, 0x80 + c / 64 % 64, 0x80 + c % 64]
  }

  function EncodeText(text: seq<Rune>): Bytes {
    if text == [] then [] else EncodeRune(text[0]) + EncodeText(text[1..])
  }

  lemma {:induction false} RuneFirst(c: Rune, rest: Bytes)
    ensures Utf8(EncodeRune(c) + rest) <==> Utf8(rest)
  {
    var b := EncodeRune(c) + rest;
    assert b[|EncodeRune(c)|..] == rest;
    if c < 0x80 {
    } else if c < 0x800 {
      assert 0xC2 <= b[0] <= 0xDF;
    } else if c < 0x10000 {
      ThreeFit(c);
    } else {
      FourFit(c);
    }
  }

  lemma ThreeFit(c: Rune)
    requires 0x800 <= c < 0x10000
    ensures var b0, b1 := 0xE0 + c / 4096, 0x80 + c / 64 % 64;
            0xE0 <= b0 <= 0xEF && (b0 == 0xE0 ==> b1 >= 0xA0) && (b0 == 0xED ==> b1 <= 0x9F)
  {
  }

  lemma FourFit(c: Rune)
    requires c >= 0x10000
    ensures var b0, b1 := 0xF0 + c / 262144, 0x80 + c / 4096 % 64;
            0xF0 <= b0 <= 0xF4 && (b0 == 0xF0 ==> b1 >= 0x90) && (b0 == 0xF4 ==> b1 <= 0x8F)
  {
  }

  lemma {:induction false} TextIsUtf8(text: seq<Rune>)
    ensures Utf8(EncodeText(text))
  {
    if text != [] {
      TextIsUtf8(text[1..]);
      RuneFirst(text[0], EncodeText(text[1..]));
    }
  }

  /** The code point the first bytes stand for, and how many there are. */
  lemma FirstRune(b: Bytes) returns (c: Rune, n: nat)
    requires b != [] && Utf8(b)
    ensures 0 < n <= |b| && EncodeRune(c) == b[..n] && Utf8(b[n..])
  {
    if b[0] < 0x80 {
      c, n := b[0], 1;
    } else if b[0] <= 0xDF {
      n := 2;
      c := TwoBytes(b[0], b[1]);
    } else if b[0] <= 0xEF {
      n := 3;
      c := ThreeBytes(b[0], b[1], b[2]);
    } else {
      n := 4;
      c := FourBytes(b[0], b[1], b[2], b[3]);
    }
  }

  lemma TwoBytes(b0: int, b1: int) returns (c: Rune)
    requires 0xC2 <= b0 <= 0xDF && 0x80 <= b1 <= 0xBF
    ensures EncodeRune(c) == [b0, b1]
  {
    c := (b0 - 0xC0) * 64 + (b1 - 0x80);
    assert c / 64 == b0 - 0xC0;
  }

  lemma ThreeBytes(b0: int, b1: int, b2: int) returns (c: Rune)
    requires 0xE0 <= b0 <= 0xEF && 0x80 <= b1 <= 0xBF && 0x80 <= b2 <= 0xBF
    requires (b0 == 0xE0 ==> b1 >= 0xA0) && (b0 == 0xED ==> b1 <= 0x9F)
    ensures EncodeRune(c) == [b0, b1, b2]
  {
    var v := (b0 - 0xE0) * 4096 + (b1 - 0x80) * 64 + (b2 - 0x80);
    assert 0x800 <= v < 0x10000 && !(0xD800 <= v < 0xE000);
    c := v;
    assert c / 4096 == b0 - 0xE0 && c / 64 == (b0 - 0xE0) * 64 + (b1 - 0x80);
  }

  lemma FourBytes(b0: int, b1: int, b2: int, b3: int) returns (c: Rune)
    requires 0xF0 <= b0 <= 0xF4 && 0x80 <= b1 <= 0xBF && 0x80 <= b2 <= 0xBF && 0x80 <= b3 <= 0xBF
    requires (b0 == 0xF0 ==> b1 >= 0x90) && (b0 == 0xF4 ==> b1 <= 0x8F)
    ensures EncodeRune(c) == [b0, b1, b2, b3]
  {
    var v := (b0 - 0xF0) * 262144 + (b1 - 0x80) * 4096 + (b2 - 0x80) * 64 + (b3 - 0x80);
    assert 0x10000 <= v <= 0x10FFFF;
    c := v;
    assert c / 262144 == b0 - 0xF0 && c / 4096 == (b0 - 0xF0) * 64 + (b1 - 0x80);
    assert c / 64 == ((b0 - 0xF0) * 64 + (b1 - 0x80)) * 64 + (b2 - 0x80);
  }

  lemma {:induction false} Utf8IsText(b: Bytes) returns (text: seq<Rune>)
    requires Utf8(b)
    ensures EncodeText(text) == b
  {
    if b == [] {
      text := [];
    } else {
      var c, n := FirstRune(b);
      var rest := Utf8IsText(b[n..]);
      text := [c] + rest;
      assert text[1..] == rest && b == b[..n] + b[n..];
    }
  }

  /** A byte string passes for text exactly when it encodes some. */
  lemma {:induction false} Utf8Exactly(b: Bytes)
    ensures Utf8(b) <==> exists text :: EncodeText(text) == b
  {
    if Utf8(b) {
      var text := Utf8IsText(b);
    }
    if text :| EncodeText(text) == b {
      TextIsUtf8(text);
    }
  }
}
