/**
 Well-formed UTF-8 (section 4 of RFC 3629) and where `std::str::from_utf8` stops in a byte string:
 the longest well-formed prefix, and whether the input merely ended inside a character.
 */
module Utf8 {
  import opened Common

  /** How a byte string begins: a whole character, the start of one, or neither. */
  datatype Front = Char(length: nat) | Cut | Bad

  predicate Between(b: Byte, low: Byte, high: Byte)
  {
    low <= b <= high
  }

  /** Bytes of the character a lead byte announces; 0 when it announces none. */
  function Announced(lead: Byte): (n: nat)
    ensures n <= 4
  {
    if lead <= 0x7F then 1
    else if Between(lead, 0xC2, 0xDF) then 2
    else if Between(lead, 0xE0, 0xEF) then 3
    else if Between(lead, 0xF0, 0xF4) then 4
    else 0
  }

  /** The second byte is restricted after some lead bytes, which excludes overlong forms and surrogates. */
  predicate Second(lead: Byte, b: Byte)
  {
    if lead == 0xE0 then Between(b, 0xA0, 0xBF)
    else if lead == 0xED then Between(b, 0x80, 0x9F)
    else if lead == 0xF0 then Between(b, 0x90, 0xBF)
    else if lead == 0xF4 then Between(b, 0x80, 0x8F)
    else Between(b, 0x80, 0xBF)
  }

  predicate Tail(b: Byte)
  {
    Between(b, 0x80, 0xBF)
  }

  /** The bytes present so far are ones the announced character could have. */
  predicate Plausible(bytes: seq<Byte>)
    requires bytes != []
  {
    && (|bytes| > 1 && Announced(bytes[0]) > 1 ==> Second(bytes[0], bytes[1]))
    && (|bytes| > 2 && Announced(bytes[0]) > 2 ==> Tail(bytes[2]))
    && (|bytes| > 3 && Announced(bytes[0]) > 3 ==> Tail(bytes[3]))
  }

  function Scan(bytes: seq<Byte>): (front: Front)
    requires bytes != []
    ensures front.Char? ==> 1 <= front.length <= |bytes|
  {
    var n := Announced(bytes[0]);
    if n == 0 || !Plausible(bytes) then Bad
    else if |bytes| < n then Cut
    else Char(n)
  }

  predicate IsUtf8(bytes: seq<Byte>)
  {
    bytes == [] || (Scan(bytes).Char? && IsUtf8(bytes[Scan(bytes).length..]))
  }

  /** `valid_up_to`: the longest prefix made of whole characters. */
  function ValidUpTo(bytes: seq<Byte>): (n: nat)
    ensures n <= |bytes|
  {
    if bytes == [] || !Scan(bytes).Char? then 0
    else Scan(bytes).length + ValidUpTo(bytes[Scan(bytes).length..])
  }

  /** `char_boundary`: stop before a character the input cut short; pass anything else on whole. */
  function CharBoundary(bytes: seq<Byte>): (n: nat)
    ensures n <= |bytes|
  {
    var n := ValidUpTo(bytes);
    if n < |bytes| && Scan(bytes[n..]).Cut? then n else |bytes|
  }

  lemma {:induction false} Utf8Concat(a: seq<Byte>, b: seq<Byte>)
    requires IsUtf8(a)
    ensures IsUtf8(a + b) <==> IsUtf8(b)
    decreases |a|
  {
    if a == [] {
      assert a + b == b;
    } else {
      var n := Scan(a).length;
      assert (a + b)[n..] == a[n..] + b;
      Utf8Concat(a[n..], b);
    }
  }

  lemma {:induction false} ValidPrefixIsUtf8(bytes: seq<Byte>)
    ensures IsUtf8(bytes[..ValidUpTo(bytes)])
    decreases |bytes|
  {
    if bytes != [] && Scan(bytes).Char? {
      var n := Scan(bytes).length;
      var prefix := bytes[..ValidUpTo(bytes)];
      ValidPrefixIsUtf8(bytes[n..]);
      assert prefix[n..] == bytes[n..][..ValidUpTo(bytes[n..])];
    }
  }

  /** A prefix of well-formed text is whole characters and then at most the start of one. */
  lemma {:induction false} PrefixEndsInChar(prefix: seq<Byte>, rest: seq<Byte>)
    requires IsUtf8(prefix + rest)
    ensures var n := ValidUpTo(prefix); n < |prefix| ==> Scan(prefix[n..]).Cut? && |prefix| - n <= 3
    decreases |prefix|
  {
    if prefix != [] {
      var whole := prefix + rest;
      if Scan(prefix).Char? {
        var n := Scan(prefix).length;
        assert whole[n..] == prefix[n..] + rest;
        PrefixEndsInChar(prefix[n..], rest);
        assert prefix[n..][ValidUpTo(prefix[n..])..] == prefix[ValidUpTo(prefix)..];
      } else {
        assert prefix[0..] == prefix;
      }
    }
  }

  lemma {:induction false} BoundaryIsValidUpTo(prefix: seq<Byte>, rest: seq<Byte>)
    requires IsUtf8(prefix + rest)
    ensures CharBoundary(prefix) == ValidUpTo(prefix) && |prefix| - ValidUpTo(prefix) <= 3
  {
    PrefixEndsInChar(prefix, rest);
  }

  /**
   Cutting any prefix of well-formed text at `char_boundary` gives well-formed text, leaves at most three
   bytes behind, and what is left with the text still to come is well-formed too.
   */
  lemma {:induction false} BoundaryOfPrefix(prefix: seq<Byte>, rest: seq<Byte>)
    requires IsUtf8(prefix + rest)
    ensures IsUtf8(prefix[..CharBoundary(prefix)])
    ensures |prefix| - CharBoundary(prefix) <= 3
    ensures IsUtf8(prefix[CharBoundary(prefix)..] + rest)
  {
    hide CharBoundary, IsUtf8, ValidUpTo, Scan;
    var n := CharBoundary(prefix);
    BoundaryIsValidUpTo(prefix, rest);
    ValidPrefixIsUtf8(prefix);
    assert prefix + rest == prefix[..n] + (prefix[n..] + rest);
    Utf8Concat(prefix[..n], prefix[n..] + rest);
  }

  lemma {:induction false} CutTwice(bytes: seq<Byte>, n: nat, m: nat)
    requires n <= m <= |bytes|
    ensures bytes[n..][..m - n] == bytes[..m][n..] && bytes[n..][m - n..] == bytes[m..]
  {
  }

  /** A newline is a character of its own, so text may be cut after any of them. */
  lemma {:induction false} CutAfterNewline(bytes: seq<Byte>, i: nat)
    requires IsUtf8(bytes) && i < |bytes| && bytes[i] == 10
    ensures IsUtf8(bytes[..i + 1]) && IsUtf8(bytes[i + 1..])
    decreases |bytes|
  {
    var n := Scan(bytes).length;
    var prefix := bytes[..i + 1];
    if i < n {
      assert n == 1;
      assert prefix[1..] == [];
    } else {
      CutAfterNewline(bytes[n..], i - n);
      CutTwice(bytes, n, i + 1);
    }
  }
}
