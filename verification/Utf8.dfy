/** UTF-8 as section 4 of RFC 3629 defines it, and decoding the way Go's utf8 package does. */
module Utf8 {

  type Byte = b: int | 0 <= b < 256

  const RUNE_ERROR := 0xFFFD

  predicate IsScalar(r: int) {
    0 <= r < 0xD800 || 0xE000 <= r < 0x110000
  }

  /** A byte carrying the low six bits. */
  function Tail(r: int): Byte {
    0x80 + r % 64
  }

  function Encode(r: int): (s: seq<Byte>)
    requires IsScalar(r)
    ensures 1 <= |s| <= 4
  {
    if r < 0x80 then [r]
    else if r < 0x800 then [0xC0 + r / 64, Tail(r)]
    else if r < 0x10000 then [0xE0 + r / 64 / 64, Tail(r / 64), Tail(r)]
    else [0xF0 + r / 64 / 64 / 64, Tail(r / 64 / 64), Tail(r / 64), Tail(r)]
  }

  /** Six more bits. */
  function Shift(r: int, b: Byte): int {
    r * 64 + (b - 0x80)
  }

  /** A decoded rune and the bytes it took; a malformed byte is the error rune of size one. */
  datatype Rune = Rune(value: int, size: nat)

  const MALFORMED := Rune(RUNE_ERROR, 1)

  predicate Continues(b: Byte) {
    0x80 <= b <= 0xBF
  }

  /** The first continuation byte may take only part of the range after some lead bytes. */
  predicate SecondOk(b0: Byte, b1: Byte) {
    if b0 == 0xE0 then 0xA0 <= b1 <= 0xBF
    else if b0 == 0xED then 0x80 <= b1 <= 0x9F
    else if b0 == 0xF0 then 0x90 <= b1 <= 0xBF
    else if b0 == 0xF4 then 0x80 <= b1 <= 0x8F
    else Continues(b1)
  }

  /** How many bytes a lead byte announces; none for a byte that cannot lead. */
  function Announced(b: Byte): nat {
    if b < 0x80 then 1
    else if 0xC2 <= b <= 0xDF then 2
    else if 0xE0 <= b <= 0xEF then 3
    else if 0xF0 <= b <= 0xF4 then 4
    else 0
  }

  function DecodeRune(s: seq<Byte>): (r: Rune)
    requires |s| > 0
    ensures 1 <= r.size <= |s|
  {
    var n := Announced(s[0]);
    if n == 1 then Rune(s[0], 1)
    else if n == 0 || |s| < 2 || !SecondOk(s[0], s[1]) then MALFORMED
    else if n == 2 then Rune(Shift(s[0] - 0xC0, s[1]), 2)
    else if |s| < 3 || !Continues(s[2]) then MALFORMED
    else if n == 3 then Rune(Shift(Shift(s[0] - 0xE0, s[1]), s[2]), 3)
    else if |s| < 4 || !Continues(s[3]) then MALFORMED
    else Rune(Shift(Shift(Shift(s[0] - 0xF0, s[1]), s[2]), s[3]), 4)
  }

  predicate Malformed(r: Rune) {
    r.value == RUNE_ERROR && r.size == 1
  }

  lemma ShiftTail(r: int, b: Byte)
    ensures Shift(r / 64, Tail(r)) == r && Continues(Tail(r))
    ensures Continues(b) ==> Shift(r, b) / 64 == r && Tail(Shift(r, b)) == b
  {
  }

  /** Decoding undoes encoding, whatever follows. */
  lemma DecodeEncode(r: int, rest: seq<Byte>)
    requires IsScalar(r)
    ensures DecodeRune(Encode(r) + rest) == Rune(r, |Encode(r)|)
  {
    hide Shift, Tail;
    ShiftTail(r, 0);
    ShiftTail(r / 64, 0);
    ShiftTail(r / 64 / 64, 0);
    var e, s := Encode(r), Encode(r) + rest;
    assert s[..|e|] == e;
    assert forall k :: 0 <= k < |e| ==> s[k] == e[k];
    LeadBytes(r);
  }

  /** The lead byte announces the length, and keeps the first continuation byte in its range. */
  lemma LeadBytes(r: int)
    requires IsScalar(r)
    ensures Announced(Encode(r)[0]) == |Encode(r)|
    ensures |Encode(r)| >= 2 ==> SecondOk(Encode(r)[0], Encode(r)[1])
  {
  }

  /** Decoded values land in the range their length is for, surrogates excluded. */
  lemma DecodedRange(s: seq<Byte>)
    requires |s| > 0 && !Malformed(DecodeRune(s))
    ensures IsScalar(DecodeRune(s).value)
    ensures match DecodeRune(s).size
      case 1 => DecodeRune(s).value == s[0] < 0x80
      case 2 => 0x80 <= DecodeRune(s).value < 0x800
      case 3 => 0x800 <= DecodeRune(s).value < 0x10000
      case _ => 0x10000 <= DecodeRune(s).value
  {
  }

  /** What decodes is exactly the encoding of one scalar value: no overlong forms, no
      surrogates, nothing beyond the last code point. */
  lemma EncodeDecode(s: seq<Byte>)
    requires |s| > 0 && !Malformed(DecodeRune(s))
    ensures IsScalar(DecodeRune(s).value)
    ensures Encode(DecodeRune(s).value) == s[..DecodeRune(s).size]
  {
    hide Shift, Tail;
    var r := DecodeRune(s);
    DecodedRange(s);
    if r.size == 2 {
      ShiftTail(s[0] - 0xC0, s[1]);
    } else if r.size == 3 {
      ShiftTail(s[0] - 0xE0, s[1]);
      ShiftTail(Shift(s[0] - 0xE0, s[1]), s[2]);
    } else if r.size == 4 {
      ShiftTail(s[0] - 0xF0, s[1]);
      ShiftTail(Shift(s[0] - 0xF0, s[1]), s[2]);
      ShiftTail(Shift(Shift(s[0] - 0xF0, s[1]), s[2]), s[3]);
    }
  }

  /** The examples of section 7 of RFC 3629: a Latin, a mathematical and a Greek character, a Hangul
      syllable, a Japanese character and one beyond the basic plane. */
  lemma SectionSeven()
    ensures Encode(0x0041) == [0x41]
    ensures Encode(0x2262) == [0xe2, 0x89, 0xa2]
    ensures Encode(0x0391) == [0xce, 0x91]
    ensures Encode(0xd55c) == [0xed, 0x95, 0x9c]
    ensures Encode(0x65e5) == [0xe6, 0x97, 0xa5]
    ensures Encode(0x233b4) == [0xf0, 0xa3, 0x8e, 0xb4]
  {
  }
}
