/** What the grammar of section 4 of RFC 3629 accepts: exactly the encodings of
    sequences of Unicode scalar values, by the arithmetic of its section 3. */
module Utf8 {
  import opened Words
  import opened Wire

  /** A code point that is no surrogate. */
  predicate IsScalar(c: nat) {
    c < 0xD800 || 0xE000 <= c <= 0x10FFFF
  }

  type Scalar = c: nat | IsScalar(c)

  /** A continuation byte: the low six bits of `v`. */
  function Tail(v: nat): uint8 {
    0x80 + v % 0x40
  }

  function Encode(c: Scalar): bytes {
    assert IsScalar(c);
    var v: nat := c;
    var v6, v12, v18 := v / 0x40, v / 0x40 / 0x40, v / 0x40 / 0x40 / 0x40;
    if v < 0x80 then [v]
    else if v < 0x800 then [0xC0 + v6, Tail(v)]
    else if v < 0x1_0000 then [0xE0 + v12, Tail(v6), Tail(v)]
    else [0xF0 + v18, Tail(v12), Tail(v6), Tail(v)]
  }

  function EncodeAll(cs: seq<Scalar>): bytes {
    if cs == [] then [] else Encode(cs[0]) + EncodeAll(cs[1..])
  }

  lemma EncodedLength(c: Scalar, rest: bytes)
    ensures CharLen(Encode(c) + rest) == |Encode(c)|
  {
    var s := Encode(c) + rest;
    assert IsScalar(c);
    assert forall i :: 0 <= i < |Encode(c)| ==> s[i] == Encode(c)[i];
  }

  lemma SixBits(a: nat, b: nat)
    requires b < 0x40
    ensures (a * 0x40 + b) / 0x40 == a && (a * 0x40 + b) % 0x40 == b
  {
  }

  lemma TwoBytes(s: bytes) returns (c: Scalar)
    requires CharLen(s) == 2
    ensures Encode(c) == s[..2]
  {
    var a: nat, b1: nat := s[0] - 0xC0, s[1] - 0x80;
    SixBits(a, b1);
    c := a * 0x40 + b1;
  }

  lemma ThreeBytes(s: bytes) returns (c: Scalar)
    requires CharLen(s) == 3
    ensures Encode(c) == s[..3]
  {
    var a: nat, b1: nat, b2: nat := s[0] - 0xE0, s[1] - 0x80, s[2] - 0x80;
    SixBits(a, b1);
    SixBits(a * 0x40 + b1, b2);
    c := (a * 0x40 + b1) * 0x40 + b2;
  }

  lemma FourBytes(s: bytes) returns (c: Scalar)
    requires CharLen(s) == 4
    ensures Encode(c) == s[..4]
  {
    var a: nat, b1: nat, b2: nat, b3: nat := s[0] - 0xF0, s[1] - 0x80, s[2] - 0x80, s[3] - 0x80;
    SixBits(a, b1);
    SixBits(a * 0x40 + b1, b2);
    SixBits((a * 0x40 + b1) * 0x40 + b2, b3);
    c := ((a * 0x40 + b1) * 0x40 + b2) * 0x40 + b3;
  }

  /** The scalar value a string starts with. */
  lemma FirstScalar(s: bytes) returns (c: Scalar)
    requires CharLen(s) > 0
    ensures Encode(c) == s[..CharLen(s)]
  {
    if CharLen(s) == 1 {
      c := s[0];
    } else if CharLen(s) == 2 {
      c := TwoBytes(s);
    } else if CharLen(s) == 3 {
      c := ThreeBytes(s);
    } else {
      c := FourBytes(s);
    }
  }

  lemma {:induction false} EncodedIsValid(cs: seq<Scalar>)
    ensures ValidUtf8(EncodeAll(cs))
  {
    if cs != [] {
      EncodedIsValid(cs[1..]);
      EncodedLength(cs[0], EncodeAll(cs[1..]));
      assert EncodeAll(cs)[|Encode(cs[0])|..] == EncodeAll(cs[1..]);
    }
  }

  lemma {:induction false} ScalarsOf(s: bytes) returns (cs: seq<Scalar>)
    requires ValidUtf8(s)
    ensures EncodeAll(cs) == s
    decreases |s|
  {
    cs := [];
    if s != [] {
      var c := FirstScalar(s);
      var rest := ScalarsOf(s[CharLen(s)..]);
      cs := [c] + rest;
      assert cs[1..] == rest && s == s[..CharLen(s)] + s[CharLen(s)..];
    }
  }

  lemma ValidIff(s: bytes)
    ensures ValidUtf8(s) <==> exists cs :: EncodeAll(cs) == s
  {
    if ValidUtf8(s) {
      var cs := ScalarsOf(s);
    } else if cs :| EncodeAll(cs) == s {
      EncodedIsValid(cs);
    }
  }
}
