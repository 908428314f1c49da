/** UTF-8 the way Go converts between strings and runes: `[]rune(s)` and `string(r)`.
    The byte patterns are those of section 4 of RFC 3629. */
module Utf8 {
  import opened Texts

  type Byte = b: nat | b < 256

  const REPLACEMENT: nat := 0xFFFD

  /** A Unicode scalar value: in range and not a surrogate. */
  predicate Scalar(r: nat) {
    r < 0xD800 || 0xE000 <= r < 0x110000
  }

  /** `string(r)` for a rune in range; anything else becomes U+FFFD. */
  function Encode(r: nat): (bytes: seq<Byte>)
    ensures 1 <= |bytes| <= 4
  {
    if r < 0x80 then [r]
    else if r < 0x800 then [0xC0 + r / 64, 0x80 + r % 64]
    else if !Scalar(r) then [0xEF, 0xBF, 0xBD]
    else if r < 0x10000 then [0xE0 + r / 4096, 0x80 + r / 64 % 64, 0x80 + r % 64]
    else [0xF0 + r / 262144, 0x80 + r / 4096 % 64, 0x80 + r / 64 % 64, 0x80 + r % 64]
  }

  predicate Tail(b: nat) {
    0x80 <= b < 0xC0
  }

  /** The length of the well-formed sequence at the front of `bytes`, 0 if there is none. */
  function FrontLen(bytes: seq<Byte>): (n: nat)
    ensures n <= 4 && n <= |bytes|
  {
    if bytes == [] then 0
    else
      var b := bytes[0];
      if b < 0x80 then 1
      else if 0xC2 <= b < 0xE0 then
        if |bytes| >= 2 && Tail(bytes[1]) then 2 else 0
      else if 0xE0 <= b < 0xF0 then
        if |bytes| >= 3 && Second3(b, bytes[1]) && Tail(bytes[2]) then 3 else 0
      else if 0xF0 <= b < 0xF5 then
        if |bytes| >= 4 && Second4(b, bytes[1]) && Tail(bytes[2]) && Tail(bytes[3]) then 4 else 0
      else 0
  }

  /** No overlong three-byte form and no surrogate. */
  predicate Second3(b: nat, c: nat) {
    if b == 0xE0 then 0xA0 <= c < 0xC0
    else if b == 0xED then 0x80 <= c < 0xA0
    else Tail(c)
  }

  /** No overlong four-byte form and nothing above U+10FFFF. */
  predicate Second4(b: nat, c: nat) {
    if b == 0xF0 then 0x90 <= c < 0xC0
    else if b == 0xF4 then 0x80 <= c < 0x90
    else Tail(c)
  }

  function Join6(high: nat, low: nat): nat {
    high * 64 + low
  }

  /** The value of the well-formed sequence at the front. */
  function FrontRune(bytes: seq<Byte>): nat
    requires FrontLen(bytes) > 0
  {
    match FrontLen(bytes)
    case 1 => bytes[0]
    case 2 => Join6(bytes[0] - 0xC0, bytes[1] - 0x80)
    case 3 => Join6(Join6(bytes[0] - 0xE0, bytes[1] - 0x80), bytes[2] - 0x80)
    case 4 => Join6(Join6(Join6(bytes[0] - 0xF0, bytes[1] - 0x80), bytes[2] - 0x80), bytes[3] - 0x80)
  }

  /** `[]rune(s)`: an ill-formed byte counts for one and reads as U+FFFD. */
  function Decode(bytes: seq<Byte>): seq<nat> {
    if bytes == [] then []
    else
      var n := FrontLen(bytes);
      if n == 0 then [REPLACEMENT] + Decode(bytes[1..])
      else [FrontRune(bytes)] + Decode(bytes[n..])
  }

  /** The texts made of well-formed sequences only. */
  predicate WellFormed(bytes: seq<Byte>) {
    bytes == [] || (FrontLen(bytes) > 0 && WellFormed(bytes[FrontLen(bytes)..]))
  }

  function EncodeAll(runes: seq<nat>): seq<Byte> {
    if runes == [] then [] else Encode(runes[0]) + EncodeAll(runes[1..])
  }

  /** Reading a well-formed sequence and writing its rune gives the same bytes. */
  lemma FrontRoundTrip(bytes: seq<Byte>)
    requires FrontLen(bytes) > 0
    ensures Scalar(FrontRune(bytes)) && Encode(FrontRune(bytes)) == bytes[..FrontLen(bytes)]
  {
    match FrontLen(bytes)
    case 1 =>
    case 2 => Front2(bytes);
    case 3 => Front3(bytes);
    case 4 => Front4(bytes);
  }

  lemma Front2(bytes: seq<Byte>)
    requires FrontLen(bytes) == 2
    ensures Scalar(FrontRune(bytes)) && Encode(FrontRune(bytes)) == bytes[..2]
  {
    Digits(bytes[0] - 0xC0, bytes[1] - 0x80);
  }

  lemma Front3(bytes: seq<Byte>)
    requires FrontLen(bytes) == 3
    ensures Scalar(FrontRune(bytes)) && Encode(FrontRune(bytes)) == bytes[..3]
  {
    var high := Join6(bytes[0] - 0xE0, bytes[1] - 0x80);
    Digits(bytes[0] - 0xE0, bytes[1] - 0x80);
    Digits(high, bytes[2] - 0x80);
    Divides(FrontRune(bytes));
    assert 0x20 <= high < 0x400 && !(0x360 <= high < 0x380);
  }

  lemma Front4(bytes: seq<Byte>)
    requires FrontLen(bytes) == 4
    ensures Scalar(FrontRune(bytes)) && Encode(FrontRune(bytes)) == bytes[..4]
  {
    var top := Join6(bytes[0] - 0xF0, bytes[1] - 0x80);
    var high := Join6(top, bytes[2] - 0x80);
    Digits(bytes[0] - 0xF0, bytes[1] - 0x80);
    Digits(top, bytes[2] - 0x80);
    Digits(high, bytes[3] - 0x80);
    Divides(FrontRune(bytes));
    assert 0x10 <= top < 0x110;
  }

  lemma Digits(high: nat, low: nat)
    requires low < 64
    ensures Join6(high, low) / 64 == high && Join6(high, low) % 64 == low
  {}

  lemma Divides(r: nat)
    ensures r / 64 / 64 == r / 4096 && r / 64 / 64 / 64 == r / 262144
  {}

  /** Writing a scalar value gives one well-formed sequence that reads back as that value,
      whatever follows. */
  lemma RuneRoundTrip(r: nat, rest: seq<Byte>)
    requires Scalar(r)
    ensures FrontLen(Encode(r) + rest) == |Encode(r)|
    ensures FrontRune(Encode(r) + rest) == r
  {
    if 0x80 <= r < 0x800 {
      Rune2(r, rest);
    } else if 0x800 <= r < 0x10000 {
      Rune3(r, rest);
    } else if 0x10000 <= r {
      Rune4(r, rest);
    }
  }

  lemma Rune2(r: nat, rest: seq<Byte>)
    requires 0x80 <= r < 0x800
    ensures FrontLen(Encode(r) + rest) == |Encode(r)| && FrontRune(Encode(r) + rest) == r
  {}

  lemma Rune3(r: nat, rest: seq<Byte>)
    requires 0x800 <= r < 0x10000 && Scalar(r)
    ensures FrontLen(Encode(r) + rest) == |Encode(r)| && FrontRune(Encode(r) + rest) == r
  {
    Divides(r);
  }

  lemma Rune4(r: nat, rest: seq<Byte>)
    requires 0x10000 <= r < 0x110000
    ensures FrontLen(Encode(r) + rest) == |Encode(r)| && FrontRune(Encode(r) + rest) == r
  {
    Divides(r);
  }

  /** Decoding and encoding returns the bytes exactly when they are well-formed; on anything
      else the result is longer. */
  lemma {:induction false} DecodeExact(bytes: seq<Byte>)
    ensures |EncodeAll(Decode(bytes))| >= |bytes|
    ensures |EncodeAll(Decode(bytes))| == |bytes| <==> WellFormed(bytes)
    ensures WellFormed(bytes) ==> EncodeAll(Decode(bytes)) == bytes
    decreases |bytes|
  {
    if bytes != [] {
      var n := FrontLen(bytes);
      if n == 0 {
        DecodeExact(bytes[1..]);
        assert Decode(bytes)[1..] == Decode(bytes[1..]);
      } else {
        FrontRoundTrip(bytes);
        DecodeExact(bytes[n..]);
        assert Decode(bytes)[1..] == Decode(bytes[n..]);
        Halves(bytes, n);
      }
    }
  }

  /** Encoding and decoding returns every sequence of scalar values. */
  lemma {:induction false} EncodeRoundTrip(runes: seq<nat>)
    requires forall i :: 0 <= i < |runes| ==> Scalar(runes[i])
    ensures WellFormed(EncodeAll(runes)) && Decode(EncodeAll(runes)) == runes
    decreases |runes|
  {
    if runes != [] {
      var rest := EncodeAll(runes[1..]);
      RuneRoundTrip(runes[0], rest);
      EncodeRoundTrip(runes[1..]);
      assert (Encode(runes[0]) + rest)[|Encode(runes[0])|..] == rest;
    }
  }

  /** `[]rune(s)` without its byte patterns: wherever the bytes go on with the encoding of a scalar
      value that value is read, and otherwise one byte is, as U+FFFD. */
  lemma DecodeSteps(bytes: seq<Byte>)
    requires bytes != []
    ensures forall r: nat :: Scalar(r) && Encode(r) <= bytes ==>
      Decode(bytes) == [r] + Decode(bytes[|Encode(r)|..])
    ensures (forall r: nat :: Scalar(r) ==> !(Encode(r) <= bytes)) ==>
      Decode(bytes) == [REPLACEMENT] + Decode(bytes[1..])
  {
    forall r: nat | Scalar(r) && Encode(r) <= bytes
      ensures Decode(bytes) == [r] + Decode(bytes[|Encode(r)|..])
    {
      DecodeRune(bytes, r);
    }
    if FrontLen(bytes) > 0 {
      FrontRoundTrip(bytes);
      assert Encode(FrontRune(bytes)) <= bytes;
    }
  }

  lemma DecodeRune(bytes: seq<Byte>, r: nat)
    requires Scalar(r) && Encode(r) <= bytes
    ensures Decode(bytes) == [r] + Decode(bytes[|Encode(r)|..])
  {
    var rest := bytes[|Encode(r)|..];
    assert bytes == Encode(r) + rest;
    RuneRoundTrip(r, rest);
  }

  /** The encodings are ordered as the values are: byte by byte. */
  lemma EncodeOrdered(r: nat, r': nat)
    requires Scalar(r) && Scalar(r') && r < r'
    ensures exists k: nat :: SmallerAt(Encode(r), Encode(r'), k)
  {
    var k := 0;
    if 0x80 <= r && r' < 0x800 {
      k := Ordered2(r, r');
    } else if 0x800 <= r && r' < 0x10000 {
      k := Ordered3(r, r');
    } else if 0x10000 <= r {
      k := Ordered4(r, r');
    }
    assert SmallerAt(Encode(r), Encode(r'), k);
  }

  lemma Ordered2(r: nat, r': nat) returns (k: nat)
    requires 0x80 <= r < r' < 0x800
    ensures SmallerAt(Encode(r), Encode(r'), k)
  {
    Digit(r, r');
    k := if r / 64 < r' / 64 then 0 else 1;
  }

  lemma Ordered3(r: nat, r': nat) returns (k: nat)
    requires 0x800 <= r < r' < 0x10000 && Scalar(r) && Scalar(r')
    ensures SmallerAt(Encode(r), Encode(r'), k)
  {
    Digit(r, r');
    Digit(r / 64, r' / 64);
    Divides(r);
    Divides(r');
    k := if r / 4096 < r' / 4096 then 0 else if r / 64 < r' / 64 then 1 else 2;
  }

  lemma Ordered4(r: nat, r': nat) returns (k: nat)
    requires 0x10000 <= r < r' < 0x110000
    ensures SmallerAt(Encode(r), Encode(r'), k)
  {
    Digit(r, r');
    Digit(r / 64, r' / 64);
    Digit(r / 64 / 64, r' / 64 / 64);
    Divides(r);
    Divides(r');
    k := if r / 262144 < r' / 262144 then 0
      else if r / 4096 < r' / 4096 then 1
      else if r / 64 < r' / 64 then 2 else 3;
  }

  lemma Digit(r: nat, r': nat)
    requires r <= r'
    ensures r / 64 <= r' / 64 && (r / 64 == r' / 64 && r < r' ==> r % 64 < r' % 64)
  {}
}
