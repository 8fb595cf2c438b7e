/** UTF-8 as RFC 3629, section 3, defines it: the texts the readers accept are
    exactly the encodings of sequences of Unicode scalar values. */
module Utf8 {
  import opened Basics

  /** A code point that is not a surrogate. */
  predicate Scalar(c: int) {
    0 <= c < 0xD800 || 0xE000 <= c < 0x11_0000
  }

  function EncodeOne(c: int): Bytes
    requires Scalar(c)
  {
    if c < 0x80 then [c]
    else if c < 0x800 then [0xC0 + c / 0x40, 0x80 + c % 0x40]
    else if c < 0x1_0000 then [0xE0 + c / 0x1000, 0x80 + c / 0x40 % 0x40, 0x80 + c % 0x40]
    else [0xF0 + c / 0x4_0000, 0x80 + c / 0x1000 % 0x40, 0x80 + c / 0x40 % 0x40, 0x80 + c % 0x40]
  }

  predicate Scalars(cs: seq<int>) {
    forall i :: 0 <= i < |cs| ==> Scalar(cs[i])
  }

  function EncodeAll(cs: seq<int>): Bytes
    requires Scalars(cs)
  {
    if cs == [] then [] else EncodeOne(cs[0]) + EncodeAll(cs[1..])
  }

  lemma OneMoreScalar(c: int, rest: Bytes)
    requires Scalar(c)
    ensures ValidUtf8(EncodeOne(c) + rest) <==> ValidUtf8(rest)
  {
    var b := EncodeOne(c) + rest;
    assert b[|EncodeOne(c)|..] == rest;
  }

  lemma {:induction false} EncodingsAreValid(cs: seq<int>)
    requires Scalars(cs)
    ensures ValidUtf8(EncodeAll(cs))
  {
    if cs == [] {
    } else {
      EncodingsAreValid(cs[1..]);
      OneMoreScalar(cs[0], EncodeAll(cs[1..]));
    }
  }

  lemma Digits(x: int, y: int, z: int)
    requires 0 <= x && 0 <= y < 0x40 && 0 <= z < 0x40
    ensures var c := x * 0x1000 + y * 0x40 + z;
      c / 0x1000 == x && c / 0x40 == x * 0x40 + y && c / 0x40 % 0x40 == y && c % 0x40 == z
  {
    var c, low := x * 0x1000 + y * 0x40 + z, y * 0x40 + z;
    assert c == 0x1000 * x + low && 0 <= low < 0x1000;
    assert c == 0x40 * (x * 0x40 + y) + z;
  }

  lemma TwoBytes(x: int, y: int)
    requires 2 <= x < 0x20 && 0 <= y < 0x40
    ensures Scalar(x * 0x40 + y) && EncodeOne(x * 0x40 + y) == [0xC0 + x, 0x80 + y]
  {
  }

  lemma ThreeBytes(x: int, y: int, z: int)
    requires 0 <= x < 0x10 && 0 <= y < 0x40 && 0 <= z < 0x40
    requires (x == 0 ==> y >= 0x20) && (x == 0xD ==> y < 0x20)
    ensures var c := x * 0x1000 + y * 0x40 + z;
      Scalar(c) && EncodeOne(c) == [0xE0 + x, 0x80 + y, 0x80 + z]
  {
    Digits(x, y, z);
  }

  lemma FourBytes(w: int, x: int, y: int, z: int)
    requires 0 <= w < 5 && 0 <= x < 0x40 && 0 <= y < 0x40 && 0 <= z < 0x40
    requires (w == 0 ==> x >= 0x10) && (w == 4 ==> x < 0x10)
    ensures var c := (w * 0x40 + x) * 0x1000 + y * 0x40 + z;
      Scalar(c) && EncodeOne(c) == [0xF0 + w, 0x80 + x, 0x80 + y, 0x80 + z]
  {
    var c := (w * 0x40 + x) * 0x1000 + y * 0x40 + z;
    Digits(w * 0x40 + x, y, z);
    assert c / 0x1000 % 0x40 == x;
    assert c == 0x4_0000 * w + (x * 0x1000 + y * 0x40 + z) && x * 0x1000 + y * 0x40 + z < 0x4_0000;
    assert c / 0x4_0000 == w;
  }

  /** The scalar value a valid text begins with, and how many bytes it takes. */
  lemma FirstScalar(b: Bytes) returns (c: int, n: nat)
    requires ValidUtf8(b) && b != []
    ensures Scalar(c) && 0 < n <= |b| && b[..n] == EncodeOne(c) && ValidUtf8(b[n..])
  {
    var lead: int := b[0];
    if lead <= 0x7F {
      c, n := lead, 1;
    } else {
      hide Scalar, EncodeOne;
      var y: int := b[1] as int - 0x80;
      if lead <= 0xDF {
        TwoBytes(lead - 0xC0, y);
        c, n := (lead - 0xC0) * 0x40 + y, 2;
      } else if lead <= 0xEF {
        var z: int := b[2] as int - 0x80;
        ThreeBytes(lead - 0xE0, y, z);
        c, n := (lead - 0xE0) * 0x1000 + y * 0x40 + z, 3;
      } else {
        var z: int := b[2] as int - 0x80;
        var t: int := b[3] as int - 0x80;
        FourBytes(lead - 0xF0, y, z, t);
        c, n := ((lead - 0xF0) * 0x40 + y) * 0x1000 + z * 0x40 + t, 4;
      }
    }
  }

  lemma {:induction false} ValidAreEncodings(b: Bytes) returns (cs: seq<int>)
    requires ValidUtf8(b)
    ensures Scalars(cs) && EncodeAll(cs) == b
    decreases |b|
  {
    if b == [] {
      cs := [];
    } else {
      var c, n := FirstScalar(b);
      var rest := ValidAreEncodings(b[n..]);
      cs := [c] + rest;
      assert cs[1..] == rest;
      assert b == b[..n] + b[n..];
    }
  }

  /** What `String::from_utf8` and `to_string` accept: encodings of scalar values,
      and nothing else. */
  lemma ValidIffEncoding(b: Bytes)
    ensures ValidUtf8(b) <==> exists cs :: Scalars(cs) && EncodeAll(cs) == b
  {
    if ValidUtf8(b) {
      var cs := ValidAreEncodings(b);
    }
    forall cs | Scalars(cs) && EncodeAll(cs) == b ensures ValidUtf8(b) {
      EncodingsAreValid(cs);
    }
  }
}
