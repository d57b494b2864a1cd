/** UTF-8 as Rust's `String::from_utf8` checks and decodes it (the well-formed
    byte sequences of Table 3-7 in chapter 3 of the Unicode Standard: no overlong
    forms, no surrogates, nothing above U+10FFFF), and the encoder that
    `str::as_bytes` and `str::len` observe. */
module Utf8 {
  import opened Base

  type Byte = b: int | 0 <= b < 256

  /** A continuation byte 10xxxxxx. */
  predicate IsCont(b: Byte) {
    0x80 <= b <= 0xBF
  }

  /** Allowed second byte of a three-byte sequence led by `b0`. */
  predicate SecondOk3(b0: Byte, b1: Byte) {
    if b0 == 0xE0 then 0xA0 <= b1 <= 0xBF
    else if b0 == 0xED then 0x80 <= b1 <= 0x9F
    else IsCont(b1)
  }

  /** Allowed second byte of a four-byte sequence led by `b0`. */
  predicate SecondOk4(b0: Byte, b1: Byte) {
    if b0 == 0xF0 then 0x90 <= b1 <= 0xBF
    else if b0 == 0xF4 then 0x80 <= b1 <= 0x8F
    else IsCont(b1)
  }

  /** Length of the well-formed sequence at the front of `s`, or 0 when `s` does
      not start with one. */
  function SeqLen(s: seq<Byte>): (n: nat)
    requires |s| > 0
    ensures n <= 4 && n <= |s|
    ensures n == 1 <==> s[0] < 0x80
  {
    var b0 := s[0];
    if b0 < 0x80 then 1
    else if 0xC2 <= b0 <= 0xDF then
      (if |s| >= 2 && IsCont(s[1]) then 2 else 0)
    else if 0xE0 <= b0 <= 0xEF then
      (if |s| >= 3 && SecondOk3(b0, s[1]) && IsCont(s[2]) then 3 else 0)
    else if 0xF0 <= b0 <= 0xF4 then
      (if |s| >= 4 && SecondOk4(b0, s[1]) && IsCont(s[2]) && IsCont(s[3]) then 4 else 0)
    else 0
  }

  /** Code point of the well-formed sequence at the front of `s`, as a number. */
  function CodePoint(s: seq<Byte>): (v: int)
    requires |s| > 0 && SeqLen(s) > 0
    ensures 0 <= v < 0xD800 || 0xE000 <= v < 0x11_0000
  {
    var n := SeqLen(s);
    var b0 := s[0] as int;
    if n == 1 then b0
    else if n == 2 then (b0 - 0xC0) * 64 + (s[1] as int - 0x80)
    else if n == 3 then (b0 - 0xE0) * 4096 + (s[1] as int - 0x80) * 64 + (s[2] as int - 0x80)
    else (b0 - 0xF0) * 262144 + (s[1] as int - 0x80) * 4096 + (s[2] as int - 0x80) * 64 + (s[3] as int - 0x80)
  }

  /** The character the well-formed sequence at the front of `s` stands for. */
  function DecodeChar(s: seq<Byte>): char
    requires |s| > 0 && SeqLen(s) > 0
  {
    CodePoint(s) as char
  }

  /** `String::from_utf8`: the text the bytes spell, or `None` when they are not
      well-formed UTF-8. */
  function Decode(b: seq<Byte>): (r: Option<string>)
    ensures r.Some? ==> |r.value| <= |b|
    ensures (forall i | 0 <= i < |b| :: b[i] < 0x80) ==>
      r.Some? && |r.value| == |b| && forall i | 0 <= i < |b| :: r.value[i] as int == b[i]
    decreases |b|
  {
    if b == [] then Some([])
    else
      var n := SeqLen(b);
      if n == 0 then None
      else match Decode(b[n..])
        case None => None
        case Some(rest) => Some([DecodeChar(b)] + rest)
  }

  /** The UTF-8 bytes of one character. */
  function EncodeChar(c: char): (b: seq<Byte>)
    ensures 1 <= |b| <= 4
    ensures |b| == 1 <==> (c as int) < 0x80
  {
    var v := c as int;
    if v < 0x80 then [v]
    else if v < 0x800 then [0xC0 + v / 64, 0x80 + v % 64]
    else if v < 0x10000 then [0xE0 + v / 4096, 0x80 + (v / 64) % 64, 0x80 + v % 64]
    else [0xF0 + v / 262144, 0x80 + (v / 4096) % 64, 0x80 + (v / 64) % 64, 0x80 + v % 64]
  }

  /** The UTF-8 bytes of a string (`s.as_bytes()`). */
  function Encode(s: string): (b: seq<Byte>)
    ensures |b| >= |s|
  {
    if s == [] then [] else EncodeChar(s[0]) + Encode(s[1..])
  }

  lemma DivMod64(v: int, q: int, r: int)
    requires v == 64 * q + r && 0 <= r < 64
    ensures v / 64 == q && v % 64 == r
  {
  }

  lemma DivMod4096(v: int, q: int, r: int)
    requires v == 4096 * q + r && 0 <= r < 4096
    ensures v / 4096 == q && v % 4096 == r
  {
  }

  lemma DivMod262144(v: int, q: int, r: int)
    requires v == 262144 * q + r && 0 <= r < 262144
    ensures v / 262144 == q && v % 262144 == r
  {
  }

  lemma EncodeCharDecodes2(v: int, s: seq<Byte>)
    requires 0x80 <= v < 0x800 && |s| >= 2
    requires s[0] == 0xC0 + v / 64 && s[1] == 0x80 + v % 64
    ensures SeqLen(s) == 2 && CodePoint(s) == v
  {
  }

  lemma EncodeCharDecodes3(v: int, s: seq<Byte>)
    requires 0x800 <= v < 0x10000 && (v < 0xD800 || 0xE000 <= v) && |s| >= 3
    requires s[0] == 0xE0 + v / 4096 && s[1] == 0x80 + (v / 64) % 64 && s[2] == 0x80 + v % 64
    ensures SeqLen(s) == 3 && CodePoint(s) == v
  {
    var a, r := v / 4096, v % 4096;
    var b, c := r / 64, r % 64;
    DivMod64(v, 64 * a + b, c);
    DivMod64(64 * a + b, a, b);
  }

  lemma EncodeCharDecodes4(v: int, s: seq<Byte>)
    requires 0x10000 <= v < 0x11_0000 && |s| >= 4
    requires s[0] == 0xF0 + v / 262144 && s[1] == 0x80 + (v / 4096) % 64
    requires s[2] == 0x80 + (v / 64) % 64 && s[3] == 0x80 + v % 64
    ensures SeqLen(s) == 4 && CodePoint(s) == v
  {
    var a, r := v / 262144, v % 262144;
    var b, r2 := r / 4096, r % 4096;
    var c, d := r2 / 64, r2 % 64;
    DivMod4096(v, 64 * a + b, r2);
    DivMod64(64 * a + b, a, b);
    DivMod64(v, 4096 * a + 64 * b + c, d);
    DivMod64(4096 * a + 64 * b + c, 64 * a + b, c);
    assert s[1] == 0x80 + b && s[2] == 0x80 + c && s[3] == 0x80 + d;
  }

  /** Every character is encoded by a well-formed sequence that decodes back to it,
      whatever bytes follow. */
  lemma EncodeCharDecodes(c: char, rest: seq<Byte>)
    ensures SeqLen(EncodeChar(c) + rest) == |EncodeChar(c)|
    ensures DecodeChar(EncodeChar(c) + rest) == c
  {
    var v := c as int;
    var s := EncodeChar(c) + rest;
    if v < 0x80 {
    } else if v < 0x800 {
      EncodeCharDecodes2(v, s);
    } else if v < 0x10000 {
      EncodeCharDecodes3(v, s);
    } else {
      EncodeCharDecodes4(v, s);
    }
  }

  lemma DecodeCharEncodes3(s: seq<Byte>)
    requires |s| > 0 && SeqLen(s) == 3
    ensures EncodeChar(DecodeChar(s)) == s[..3]
  {
    var v := CodePoint(s);
    var a, b, c := s[0] as int - 0xE0, s[1] as int - 0x80, s[2] as int - 0x80;
    DivMod4096(v, a, 64 * b + c);
    DivMod64(v, 64 * a + b, c);
    DivMod64(64 * a + b, a, b);
  }

  lemma DecodeCharEncodes4(s: seq<Byte>)
    requires |s| > 0 && SeqLen(s) == 4
    ensures EncodeChar(DecodeChar(s)) == s[..4]
  {
    var v := CodePoint(s);
    var a, b, c, d := s[0] as int - 0xF0, s[1] as int - 0x80, s[2] as int - 0x80, s[3] as int - 0x80;
    DivMod262144(v, a, 4096 * b + 64 * c + d);
    DivMod4096(v, 64 * a + b, 64 * c + d);
    DivMod64(64 * a + b, a, b);
    DivMod64(v, 4096 * a + 64 * b + c, d);
    DivMod64(4096 * a + 64 * b + c, 64 * a + b, c);
  }

  /** A well-formed sequence is exactly the encoding of the character it decodes to. */
  lemma DecodeCharEncodes(s: seq<Byte>)
    requires |s| > 0 && SeqLen(s) > 0
    ensures EncodeChar(DecodeChar(s)) == s[..SeqLen(s)]
  {
    var n := SeqLen(s);
    if n == 2 {
      DivMod64(CodePoint(s), s[0] as int - 0xC0, s[1] as int - 0x80);
    } else if n == 3 {
      DecodeCharEncodes3(s);
    } else if n == 4 {
      DecodeCharEncodes4(s);
    }
  }

  /** Round trip: the bytes of any string decode back to that string. */
  lemma {:induction false} DecodeEncode(s: string)
    ensures Decode(Encode(s)) == Some(s)
  {
    if s != [] {
      var e, tail := EncodeChar(s[0]), Encode(s[1..]);
      var b := Encode(s);
      assert b == e + tail;
      EncodeCharDecodes(s[0], tail);
      assert SeqLen(b) == |e| && DecodeChar(b) == s[0];
      assert b[|e|..] == tail;
      DecodeEncode(s[1..]);
      assert Decode(b) == Some([s[0]] + s[1..]);
      assert [s[0]] + s[1..] == s;
    }
  }

  /** Encoding distributes over a leading character. */
  lemma EncodeCons(c: char, t: string)
    ensures Encode([c] + t) == EncodeChar(c) + Encode(t)
  {
    assert ([c] + t)[1..] == t;
  }

  /** Bytes that decode start with a well-formed sequence, and the text is its
      character followed by the decoding of the remaining bytes. */
  lemma DecodeCons(b: seq<Byte>)
    requires b != [] && Decode(b).Some?
    ensures SeqLen(b) > 0 && Decode(b[SeqLen(b)..]).Some?
    ensures Decode(b).value == [DecodeChar(b)] + Decode(b[SeqLen(b)..]).value
  {
  }

  /** Round trip the other way: bytes that decode are the encoding of what they
      decode to, so `Decode` accepts each string's bytes and nothing else. */
  lemma {:induction false} EncodeDecode(b: seq<Byte>)
    ensures Decode(b).Some? ==> Encode(Decode(b).value) == b
  {
    if b != [] && Decode(b).Some? {
      DecodeCons(b);
      var n := SeqLen(b);
      var rest := Decode(b[n..]).value;
      EncodeDecode(b[n..]);
      DecodeCharEncodes(b);
      EncodeCons(DecodeChar(b), rest);
      assert b[..n] + b[n..] == b;
    }
  }

  /** A string of ASCII characters takes one byte per character. */
  lemma {:induction false} AsciiLength(s: string)
    requires forall i | 0 <= i < |s| :: (s[i] as int) < 0x80
    ensures |Encode(s)| == |s|
  {
    if s != [] {
      AsciiLength(s[1..]);
    }
  }
}
