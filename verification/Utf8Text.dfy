/**
 The byte strings `Utf8` calls well-formed are exactly the encodings of Unicode text (section 3 of RFC 3629).
 */
module Utf8Text {
  import opened Common
  import opened Utf8

  /** A code point other than a surrogate. */
  predicate Scalar(c: nat)
  {
    c < 0xD800 || 0xE000 <= c <= 0x10FFFF
  }

  function Continuation(bits: nat): Byte
    requires bits < 64
  {
    (0x80 + bits) as Byte
  }

  function Encode(c: nat): seq<Byte>
    requires Scalar(c)
  {
    if c < 0x80 then [c as Byte]
    else if c < 0x800 then [(0xC0 + c / 64) as Byte, Continuation(c % 64)]
    else if c < 0x10000 then [(0xE0 + c / 4096) as Byte, Continuation(c / 64 % 64), Continuation(c % 64)]
    else [(0xF0 + c / 262144) as Byte, Continuation(c / 4096 % 64), Continuation(c / 64 % 64), Continuation(c % 64)]
  }

  predicate IsText(text: seq<nat>)
  {
    forall i :: 0 <= i < |text| ==> Scalar(text[i])
  }

  function EncodeAll(text: seq<nat>): seq<Byte>
    requires IsText(text)
  {
    if text == [] then [] else Encode(text[0]) + EncodeAll(text[1..])
  }

  lemma {:induction false} EncodedIsChar(c: nat, rest: seq<Byte>)
    requires Scalar(c)
    ensures Scan(Encode(c) + rest) == Char(|Encode(c)|)
  {
    var bytes := Encode(c) + rest;
    assert bytes[0] == Encode(c)[0];
    if c >= 0x80 {
      assert bytes[1] == Encode(c)[1];
    }
    if c >= 0x800 {
      assert bytes[2] == Encode(c)[2];
    }
    if c >= 0x10000 {
      assert bytes[3] == Encode(c)[3];
    }
  }

  lemma {:induction false} TextIsUtf8(text: seq<nat>)
    requires IsText(text)
    ensures IsUtf8(EncodeAll(text))
    decreases |text|
  {
    hide Encode, Scan;
    if text != [] {
      var rest := EncodeAll(text[1..]);
      EncodedIsChar(text[0], rest);
      assert (Encode(text[0]) + rest)[|Encode(text[0])|..] == rest;
      TextIsUtf8(text[1..]);
    }
  }

  lemma {:induction false} TwoBytes(b0: Byte, b1: Byte) returns (c: nat)
    requires Announced(b0) == 2 && Second(b0, b1)
    ensures Scalar(c) && Encode(c) == [b0, b1]
  {
    c := (b0 as int - 0xC0) * 64 + (b1 as int - 0x80);
  }

  lemma {:induction false} ThreeBytes(b0: Byte, b1: Byte, b2: Byte) returns (c: nat)
    requires Announced(b0) == 3 && Second(b0, b1) && Tail(b2)
    ensures Scalar(c) && Encode(c) == [b0, b1, b2]
  {
    var x, y, z := b0 as int - 0xE0, b1 as int - 0x80, b2 as int - 0x80;
    c := x * 4096 + y * 64 + z;
    assert c / 64 == x * 64 + y && c / 4096 == x;
  }

  lemma {:induction false} FourBytes(b0: Byte, b1: Byte, b2: Byte, b3: Byte) returns (c: nat)
    requires Announced(b0) == 4 && Second(b0, b1) && Tail(b2) && Tail(b3)
    ensures Scalar(c) && Encode(c) == [b0, b1, b2, b3]
  {
    var w, x, y, z := b0 as int - 0xF0, b1 as int - 0x80, b2 as int - 0x80, b3 as int - 0x80;
    c := w * 262144 + x * 4096 + y * 64 + z;
    assert c / 64 == w * 4096 + x * 64 + y && c / 4096 == w * 64 + x && c / 262144 == w;
  }

  lemma {:induction false} OneByte(b0: Byte)
    requires Announced(b0) == 1
    ensures Scalar(b0 as int) && Encode(b0 as int) == [b0]
  {
  }

  lemma {:induction false} CharIsEncoded(bytes: seq<Byte>) returns (c: nat)
    requires bytes != [] && Scan(bytes).Char?
    ensures Scalar(c) && Encode(c) == bytes[..Scan(bytes).length]
  {
    hide Encode, Scalar, Announced, Second;
    var n := Scan(bytes).length;
    if n == 1 {
      OneByte(bytes[0]);
      c := bytes[0] as int;
    } else if n == 2 {
      c := TwoBytes(bytes[0], bytes[1]);
    } else if n == 3 {
      c := ThreeBytes(bytes[0], bytes[1], bytes[2]);
    } else {
      c := FourBytes(bytes[0], bytes[1], bytes[2], bytes[3]);
    }
  }

  lemma {:induction false} Utf8IsText(bytes: seq<Byte>) returns (text: seq<nat>)
    requires IsUtf8(bytes)
    ensures IsText(text) && EncodeAll(text) == bytes
    decreases |bytes|
  {
    hide Encode, Scan;
    if bytes == [] {
      text := [];
    } else {
      var n := Scan(bytes).length;
      var c := CharIsEncoded(bytes);
      var rest := Utf8IsText(bytes[n..]);
      text := [c] + rest;
      assert text[1..] == rest && bytes == bytes[..n] + bytes[n..];
    }
  }

  lemma {:induction false} WellFormedIffText(bytes: seq<Byte>)
    ensures IsUtf8(bytes) <==> exists text :: IsText(text) && EncodeAll(text) == bytes
  {
    if IsUtf8(bytes) {
      var text := Utf8IsText(bytes);
    }
    forall text | IsText(text) && EncodeAll(text) == bytes
      ensures IsUtf8(bytes)
    {
      TextIsUtf8(text);
    }
  }
}
