/** Unicode scalar values, their encoding by section 3 of RFC 3629, and what it has to do with the byte-wise rules. */
module Scalars {
  import opened Utf8

  predicate Scalar(c: int) {
    0 <= c < 0xD800 || 0xE000 <= c <= 0x10FFFF
  }

  function Continuation(bits: nat): byte {
    (0x80 + bits % 64) as byte
  }

  function Encode(c: int): (s: seq<byte>)
    requires Scalar(c)
    ensures 1 <= |s| <= 4
  {
    if c < 0x80 then [c as byte]
    else if c < 0x800 then [(0xC0 + c / 64) as byte, Continuation(c)]
    else if c < 0x10000 then [(0xE0 + c / 4096) as byte, Continuation(c / 64), Continuation(c)]
    else [(0xF0 + c / 262144) as byte, Continuation(c / 4096), Continuation(c / 64), Continuation(c)]
  }

  /** The bytes of an encoded scalar value are one character, whatever follows. */
  lemma EncodedIsCharacter(c: int, tail: seq<byte>)
    requires Scalar(c)
    ensures CharLen(Encode(c) + tail) == |Encode(c)|
  {
    EncodedAlone(c);
    PrefixCode(Encode(c), tail);
  }

  lemma EncodedAlone(c: int)
    requires Scalar(c)
    ensures CharLen(Encode(c)) == |Encode(c)|
  {
  }

  /** The scalar value a character encodes. */
  function Decode(s: seq<byte>): int
    requires CharLen(s) > 0
  {
    match CharLen(s)
    case 1 => s[0] as int
    case 2 => (s[0] as int - 0xC0) * 64 + (s[1] as int - 0x80)
    case 3 => (s[0] as int - 0xE0) * 4096 + (s[1] as int - 0x80) * 64 + (s[2] as int - 0x80)
    case _ => (s[0] as int - 0xF0) * 262144 + (s[1] as int - 0x80) * 4096 + (s[2] as int - 0x80) * 64 + (s[3] as int - 0x80)
  }

  lemma TwoDigits(a: nat, b: nat)
    requires b < 64
    ensures (a * 64 + b) / 64 == a && (a * 64 + b) % 64 == b
  {
  }

  lemma ThreeDigits(a: nat, b: nat, c: nat)
    requires b < 64 && c < 64
    ensures var x := a * 4096 + b * 64 + c; x / 4096 == a && x / 64 == a * 64 + b && x / 64 % 64 == b && x % 64 == c
  {
    TwoDigits(a * 64 + b, c);
    TwoDigits(a, b);
  }

  lemma FourDigits(a: nat, b: nat, c: nat, d: nat)
    requires b < 64 && c < 64 && d < 64
    ensures var x := a * 262144 + b * 4096 + c * 64 + d;
            x / 262144 == a && x / 4096 % 64 == b && x / 64 % 64 == c && x % 64 == d
  {
    var x, high := a * 262144 + b * 4096 + c * 64 + d, a * 64 + b;
    assert x == high * 4096 + c * 64 + d;
    ThreeDigits(high, c, d);
    TwoDigits(a, b);
  }

  lemma TwoByteCharacter(s: seq<byte>)
    requires CharLen(s) == 2
    ensures Scalar(Decode(s)) && Encode(Decode(s)) == s[..2]
  {
    TwoDigits(s[0] as int - 0xC0, s[1] as int - 0x80);
  }

  lemma ThreeByteCharacter(s: seq<byte>)
    requires CharLen(s) == 3
    ensures Scalar(Decode(s)) && Encode(Decode(s)) == s[..3]
  {
    var a, b, c := s[0] as int - 0xE0, s[1] as int - 0x80, s[2] as int - 0x80;
    ThreeDigits(a, b, c);
    assert Decode(s) == a * 4096 + b * 64 + c;
    assert 0x800 <= Decode(s) < 0x10000;
  }

  lemma FourByteCharacter(s: seq<byte>)
    requires CharLen(s) == 4
    ensures Scalar(Decode(s)) && Encode(Decode(s)) == s[..4]
  {
    var a, b, c, d := s[0] as int - 0xF0, s[1] as int - 0x80, s[2] as int - 0x80, s[3] as int - 0x80;
    FourDigits(a, b, c, d);
    assert Decode(s) == a * 262144 + b * 4096 + c * 64 + d;
    assert 0x10000 <= Decode(s) <= 0x10FFFF;
  }

  /** And every character is the encoding of a scalar value. */
  lemma CharacterIsEncoded(s: seq<byte>)
    requires CharLen(s) > 0
    ensures Scalar(Decode(s)) && Encode(Decode(s)) == s[..CharLen(s)]
  {
    match CharLen(s)
    case 2 => TwoByteCharacter(s);
    case 3 => ThreeByteCharacter(s);
    case 4 => FourByteCharacter(s);
    case _ =>
  }

  lemma DecodeEncode(c: int, tail: seq<byte>)
    requires Scalar(c)
    ensures CharLen(Encode(c) + tail) > 0 && Decode(Encode(c) + tail) == c
  {
    EncodedIsCharacter(c, tail);
    DecodePrefix(Encode(c), Encode(c) + tail);
    DecodeOne(c);
  }

  lemma DecodePrefix(e: seq<byte>, s: seq<byte>)
    requires e <= s && CharLen(s) == |e| > 0
    ensures CharLen(e) == |e| && Decode(e) == Decode(s)
  {
    assert forall i :: 0 <= i < |e| ==> s[i] == e[i];
  }

  lemma DecodeOne(c: int)
    requires Scalar(c) && CharLen(Encode(c)) == |Encode(c)|
    ensures Decode(Encode(c)) == c
  {
    Positional(c);
    var e := Encode(c);
    if c >= 0x10000 {
      assert |e| == 4;
    } else if c >= 0x800 {
      assert |e| == 3;
    }
  }

  lemma DivideTwice(c: nat)
    ensures c / 64 / 64 == c / 4096
  {
  }

  lemma Positional(c: nat)
    ensures c == c / 4096 * 4096 + c / 64 % 64 * 64 + c % 64
    ensures c == c / 262144 * 262144 + c / 4096 % 64 * 4096 + c / 64 % 64 * 64 + c % 64
  {
    var x, y := c / 64, c / 4096;
    DivideTwice(c);
    DivideTwice(x);
    assert c == x * 64 + c % 64 && x == y * 64 + x % 64 && y == y / 64 * 64 + y % 64;
    assert y / 64 == c / 262144;
  }

  function EncodeAll(cs: seq<int>): seq<byte>
    requires forall c :: c in cs ==> Scalar(c)
  {
    if cs == [] then [] else Encode(cs[0]) + EncodeAll(cs[1..])
  }

  lemma EncodeAllNext(c: int, cs: seq<int>)
    requires Scalar(c) && forall d :: d in cs ==> Scalar(d)
    ensures forall d :: d in [c] + cs ==> Scalar(d)
    ensures EncodeAll([c] + cs) == Encode(c) + EncodeAll(cs)
  {
    assert ([c] + cs)[1..] == cs;
  }

  lemma {:induction false} EncodedIsWellFormed(cs: seq<int>)
    requires forall c :: c in cs ==> Scalar(c)
    ensures WellFormed(EncodeAll(cs))
  {
    if cs != [] {
      EncodedIsCharacter(cs[0], EncodeAll(cs[1..]));
      EncodedIsWellFormed(cs[1..]);
      var s := EncodeAll(cs);
      assert s[|Encode(cs[0])|..] == EncodeAll(cs[1..]);
    }
  }

  lemma Assemble(s: seq<byte>, n: nat, c: int, rest: seq<int>)
    requires n <= |s| && Scalar(c) && forall d :: d in rest ==> Scalar(d)
    requires s[..n] == Encode(c) && s[n..] == EncodeAll(rest)
    ensures (forall d :: d in [c] + rest ==> Scalar(d)) && EncodeAll([c] + rest) == s
  {
    EncodeAllNext(c, rest);
    assert s == s[..n] + s[n..];
  }

  lemma RestIsWellFormed(s: seq<byte>)
    requires WellFormed(s) && s != []
    ensures CharLen(s) > 0 && WellFormed(s[CharLen(s)..])
  {
  }

  lemma {:induction false} DecodeAll(s: seq<byte>) returns (cs: seq<int>)
    requires WellFormed(s)
    ensures (forall c :: c in cs ==> Scalar(c)) && EncodeAll(cs) == s
    decreases |s|
  {
    if s == [] {
      cs := [];
    } else {
      var n := CharLen(s);
      RestIsWellFormed(s);
      var rest := DecodeAll(s[n..]);
      CharacterIsEncoded(s);
      Assemble(s, n, Decode(s), rest);
      cs := [Decode(s)] + rest;
    }
  }

  lemma {:induction false} EncodingIsUnique(a: seq<int>, b: seq<int>)
    requires (forall c :: c in a ==> Scalar(c)) && (forall c :: c in b ==> Scalar(c)) && EncodeAll(a) == EncodeAll(b)
    ensures a == b
    decreases |a|
  {
    if a != [] && b != [] {
      DecodeEncode(a[0], EncodeAll(a[1..]));
      DecodeEncode(b[0], EncodeAll(b[1..]));
      var n := |Encode(a[0])|;
      assert EncodeAll(a)[n..] == EncodeAll(a[1..]) && EncodeAll(b)[n..] == EncodeAll(b[1..]);
      EncodingIsUnique(a[1..], b[1..]);
      assert a == [a[0]] + a[1..] && b == [b[0]] + b[1..];
    }
  }

  /** Well-formed text is text: the bytes are the encoding of some sequence of scalar values, and of only one. */
  lemma WellFormedIffEncoded(s: seq<byte>)
    ensures WellFormed(s) <==> exists cs: seq<int> :: (forall c :: c in cs ==> Scalar(c)) && EncodeAll(cs) == s
    ensures forall a: seq<int>, b: seq<int> ::
              (forall c :: c in a ==> Scalar(c)) && (forall c :: c in b ==> Scalar(c)) && EncodeAll(a) == EncodeAll(b) == s ==> a == b
  {
    if WellFormed(s) {
      var cs := DecodeAll(s);
    }
    if cs: seq<int> :| (forall c :: c in cs ==> Scalar(c)) && EncodeAll(cs) == s {
      EncodedIsWellFormed(cs);
    }
    forall a: seq<int>, b: seq<int> |
      (forall c :: c in a ==> Scalar(c)) && (forall c :: c in b ==> Scalar(c)) && EncodeAll(a) == EncodeAll(b) == s
      ensures a == b
    {
      EncodingIsUnique(a, b);
    }
  }

  /** Unicode's White_Space property. */
  predicate WhiteSpace(c: int) {
    || 9 <= c <= 13 || 0x2000 <= c <= 0x200A
    || c in {0x20, 0x85, 0xA0, 0x1680, 0x2028, 0x2029, 0x202F, 0x205F, 0x3000}
  }
}
