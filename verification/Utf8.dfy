/** Well-formed UTF-8, as the parser of texts requires it. */
module Utf8 {
  import opened Types

  // ---- The grammar (RFC 3629, section 4) ----

  predicate IsTail(b: u8) {
    0x80 <= b <= 0xBF
  }

  /** The length of the well-formed character at the front, or 0. */
  function CharWidth(b: Bytes): (w: nat)
    ensures w <= |b|
  {
    if |b| >= 1 && b[0] <= 0x7F then 1
    else if |b| >= 2 && 0xC2 <= b[0] <= 0xDF && IsTail(b[1]) then 2
    else if |b| >= 3 && IsTail(b[1]) && IsTail(b[2]) &&
            (|| (b[0] == 0xE0 && 0xA0 <= b[1]) || 0xE1 <= b[0] <= 0xEC
             || (b[0] == 0xED && b[1] <= 0x9F) || 0xEE <= b[0] <= 0xEF) then 3
    else if |b| >= 4 && IsTail(b[1]) && IsTail(b[2]) && IsTail(b[3]) &&
            ((b[0] == 0xF0 && 0x90 <= b[1]) || 0xF1 <= b[0] <= 0xF3 || (b[0] == 0xF4 && b[1] <= 0x8F)) then 4
    else 0
  }

  predicate ValidUtf8(b: Bytes) {
    |b| == 0 || (CharWidth(b) > 0 && ValidUtf8(b[CharWidth(b)..]))
  }

  /** Valid text stays valid exactly with valid text appended. */
  lemma {:induction false} Utf8Append(a: Bytes, b: Bytes)
    requires ValidUtf8(a)
    ensures ValidUtf8(a + b) <==> ValidUtf8(b)
  {
    if |a| == 0 {
      assert a + b == b;
    } else {
      var w := CharWidth(a);
      assert CharWidth(a + b) == w;
      assert (a + b)[w..] == a[w..] + b;
      Utf8Append(a[w..], b);
    }
  }

  // ---- What it accepts: the encodings of scalar values (RFC 3629, section 3) ----

  predicate IsScalar(c: nat) {
    c <= 0xD7FF || 0xE000 <= c <= 0x10FFFF
  }

  /** A byte that carries six bits of a character. */
  function Continuation(bits: nat): u8 {
    0x80 + bits % 0x40
  }

  function Encode(c: nat): (b: Bytes)
    requires IsScalar(c)
    ensures 1 <= |b| <= 4
  {
    if c <= 0x7F then [c]
    else if c <= 0x7FF then [0xC0 + c / 0x40, Continuation(c)]
    else if c <= 0xFFFF then [0xE0 + c / 0x1000, Continuation(c / 0x40), Continuation(c)]
    else [0xF0 + c / 0x4_0000, Continuation(c / 0x1000), Continuation(c / 0x40), Continuation(c)]
  }

  lemma EncodedIsChar(c: nat, t: Bytes)
    requires IsScalar(c)
    ensures CharWidth(Encode(c) + t) == |Encode(c)|
  {
    var b := Encode(c) + t;
    assert b[0] == Encode(c)[0];
    if 0x7F < c {
      assert b[1] == Encode(c)[1];
      if 0x7FF < c {
        assert b[2] == Encode(c)[2];
        if 0xFFFF < c {
          assert b[3] == Encode(c)[3];
        }
      }
    }
  }

  lemma TwoBytes(x: nat, y: nat) returns (c: nat)
    requires 0xC2 <= x <= 0xDF && 0x80 <= y <= 0xBF
    ensures 0x80 <= c <= 0x7FF && Encode(c) == [x, y]
  {
    c := (x - 0xC0) * 0x40 + (y - 0x80);
  }

  lemma ThreeBytes(x: nat, y: nat, z: nat) returns (c: nat)
    requires 0xE0 <= x <= 0xEF && 0x80 <= y <= 0xBF && 0x80 <= z <= 0xBF
    requires (x == 0xE0 ==> 0xA0 <= y) && (x == 0xED ==> y <= 0x9F)
    ensures IsScalar(c) && Encode(c) == [x, y, z]
  {
    var high := (x - 0xE0) * 0x40 + (y - 0x80);
    c := high * 0x40 + (z - 0x80);
    assert c / 0x40 == high && c / 0x1000 == x - 0xE0;
  }

  lemma FourBytes(w: nat, x: nat, y: nat, z: nat) returns (c: nat)
    requires 0xF0 <= w <= 0xF4 && 0x80 <= x <= 0xBF && 0x80 <= y <= 0xBF && 0x80 <= z <= 0xBF
    requires (w == 0xF0 ==> 0x90 <= x) && (w == 0xF4 ==> x <= 0x8F)
    ensures IsScalar(c) && Encode(c) == [w, x, y, z]
  {
    var top := (w - 0xF0) * 0x40 + (x - 0x80);
    var high := top * 0x40 + (y - 0x80);
    c := high * 0x40 + (z - 0x80);
    assert c / 0x40 == high && c / 0x1000 == top && c / 0x4_0000 == w - 0xF0;
  }

  lemma CharIsEncoded(b: Bytes) returns (c: nat)
    requires 0 < CharWidth(b)
    ensures IsScalar(c) && b[..CharWidth(b)] == Encode(c)
  {
    match CharWidth(b)
    case 1 => c := b[0];
    case 2 => c := TwoBytes(b[0], b[1]);
    case 3 => c := ThreeBytes(b[0], b[1], b[2]);
    case _ => c := FourBytes(b[0], b[1], b[2], b[3]);
  }

  predicate AreScalars(text: seq<nat>) {
    forall i | 0 <= i < |text| :: IsScalar(text[i])
  }

  function EncodeAll(text: seq<nat>): Bytes
    requires AreScalars(text)
  {
    if |text| == 0 then [] else Encode(text[0]) + EncodeAll(text[1..])
  }

  lemma {:induction false} EncodedIsValid(text: seq<nat>)
    requires AreScalars(text)
    ensures ValidUtf8(EncodeAll(text))
  {
    if |text| > 0 {
      var first, rest := Encode(text[0]), EncodeAll(text[1..]);
      EncodedIsValid(text[1..]);
      EncodedIsChar(text[0], rest);
      assert (first + rest)[|first|..] == rest;
    }
  }

  lemma {:induction false} ValidIsEncoded(b: Bytes) returns (text: seq<nat>)
    requires ValidUtf8(b)
    ensures AreScalars(text) && EncodeAll(text) == b
  {
    if |b| == 0 {
      text := [];
    } else {
      var w := CharWidth(b);
      var c := CharIsEncoded(b);
      var rest := ValidIsEncoded(b[w..]);
      text := [c] + rest;
      assert text[1..] == rest && b == b[..w] + b[w..];
    }
  }

  /** Valid are exactly the encodings of texts of scalar values. */
  lemma ValidUtf8Iff(b: Bytes)
    ensures ValidUtf8(b) <==> exists text: seq<nat> :: AreScalars(text) && EncodeAll(text) == b
  {
    if ValidUtf8(b) {
      var text := ValidIsEncoded(b);
    }
    forall text: seq<nat> | AreScalars(text) && EncodeAll(text) == b ensures ValidUtf8(b) {
      EncodedIsValid(text);
    }
  }

  /** In particular every text of seven-bit bytes is valid. */
  lemma {:induction false} AsciiIsValid(b: Bytes)
    requires forall i | 0 <= i < |b| :: b[i] <= 0x7F
    ensures ValidUtf8(b)
  {
    if |b| > 0 {
      assert CharWidth(b) == 1;
      AsciiIsValid(b[1..]);
    }
  }
}
