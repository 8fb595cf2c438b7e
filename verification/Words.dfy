/** Bytes and 64-bit words: little-endian packing, as Cap'n Proto lays them out. */
module Words {
  import opened Basics

  type Seg = seq<u64>

  /** The `n` low-order bytes of `v`, least significant first. */
  function LittleEndian(v: int, n: nat): (b: Bytes)
    requires v >= 0
    ensures |b| == n
  {
    if n == 0 then [] else [v % 0x100] + LittleEndian(v / 0x100, n - 1)
  }

  function FromLittleEndian(b: Bytes): (v: int)
    ensures v >= 0
  {
    if b == [] then 0 else b[0] + 0x100 * FromLittleEndian(b[1..])
  }

  function Pow256(n: nat): (p: int)
    ensures p > 0
  {
    if n == 0 then 1 else 0x100 * Pow256(n - 1)
  }

  lemma {:induction false} FromLittleEndianBound(b: Bytes)
    ensures FromLittleEndian(b) < Pow256(|b|)
  {
    if b == [] {
    } else {
      FromLittleEndianBound(b[1..]);
    }
  }

  lemma {:induction false} ByteRoundTrip(b: Bytes)
    ensures LittleEndian(FromLittleEndian(b), |b|) == b
  {
    if b == [] {
    } else {
      var v := FromLittleEndian(b);
      assert v % 0x100 == b[0] && v / 0x100 == FromLittleEndian(b[1..]);
      ByteRoundTrip(b[1..]);
    }
  }

  lemma {:induction false} NumberRoundTrip(v: int, n: nat)
    requires 0 <= v < Pow256(n)
    ensures FromLittleEndian(LittleEndian(v, n)) == v
  {
    if n == 0 {
    } else {
      NumberRoundTrip(v / 0x100, n - 1);
      assert LittleEndian(v, n)[1..] == LittleEndian(v / 0x100, n - 1);
    }
  }

  lemma Pow256Of8()
    ensures Pow256(8) == 0x1_0000_0000_0000_0000
  {
    assert Pow256(4) == 0x1_0000_0000;
    assert Pow256(6) == 0x1_0000_0000_0000;
  }

  function WordOf(b: Bytes): u64
    requires |b| == 8
  {
    FromLittleEndianBound(b);
    Pow256Of8();
    FromLittleEndian(b)
  }

  function BytesOfWord(w: u64): (b: Bytes)
    ensures |b| == 8
  {
    LittleEndian(w, 8)
  }

  lemma WordRoundTrip(w: u64)
    ensures WordOf(BytesOfWord(w)) == w
  {
    Pow256Of8();
    NumberRoundTrip(w, 8);
  }

  /** The bytes of a run of words. */
  function BytesOf(ws: Seg): (b: Bytes)
    ensures |b| == 8 * |ws|
  {
    if ws == [] then [] else BytesOfWord(ws[0]) + BytesOf(ws[1..])
  }

  /** How many words hold `n` bytes. */
  function WordCount(n: nat): nat {
    (n + 7) / 8
  }

  /** Bytes packed into words, the last one padded with zeros. */
  function Pack(b: Bytes): (ws: Seg)
    ensures |ws| == WordCount(|b|)
  {
    if b == [] then []
    else if |b| < 8 then [WordOf(b + seq(8 - |b|, _ => 0))]
    else [WordOf(b[..8])] + Pack(b[8..])
  }

  lemma {:induction false} UnpackPack(b: Bytes)
    ensures |b| <= 8 * |Pack(b)|
    ensures BytesOf(Pack(b))[..|b|] == b
  {
    if b == [] {
    } else if |b| < 8 {
      var padded := b + seq(8 - |b|, _ => 0);
      ByteRoundTrip(padded);
      assert Pack(b)[1..] == [];
      assert BytesOf(Pack(b)) == padded;
    } else {
      UnpackPack(b[8..]);
      ByteRoundTrip(b[..8]);
      assert Pack(b)[1..] == Pack(b[8..]);
      assert BytesOf(Pack(b)) == b[..8] + BytesOf(Pack(b[8..]));
      assert b == b[..8] + b[8..];
    }
  }

  lemma {:induction false} PackBytesOf(ws: Seg)
    ensures Pack(BytesOf(ws)) == ws
  {
    if ws == [] {
    } else {
      var b := BytesOf(ws);
      assert b[..8] == BytesOfWord(ws[0]) && b[8..] == BytesOf(ws[1..]);
      WordRoundTrip(ws[0]);
      PackBytesOf(ws[1..]);
    }
  }

  /** Digit `i` of a number, in base 256 and least significant first. */
  lemma {:induction false} LittleEndianDigit(v: int, n: nat, i: nat)
    requires v >= 0 && i < n
    ensures LittleEndian(v, n)[i] == v / Pow256(i) % 0x100
  {
    if i == 0 {
    } else {
      LittleEndianDigit(v / 0x100, n - 1, i - 1);
      DivideTwice(v, Pow256(i - 1));
    }
  }

  lemma Multiples(d: int, k: int)
    requires d > 0
    ensures k >= 1 ==> d * k >= d
    ensures k <= -1 ==> d * k <= -d
  {
    if k >= 1 {
      assert d * k == d * (k - 1) + d;
    } else if k <= -1 {
      assert d * k == d * (k + 1) - d;
    }
  }

  lemma QuotientIs(v: int, d: int, q: int)
    requires d > 0 && d * q <= v < d * q + d
    ensures v / d == q
  {
    var x := v / d;
    assert v == d * x + v % d;
    Multiples(d, x - q);
    assert d * (x - q) == d * x - d * q;
  }

  lemma DivideTwice(v: int, p: int)
    requires v >= 0 && p > 0
    ensures v / 0x100 / p == v / (0x100 * p)
  {
    var u := v / 0x100;
    var q := u / p;
    assert u == p * q + u % p;
    assert 0x100 * p * q == 0x100 * (p * q);
    QuotientIs(v, 0x100 * p, q);
  }

  /** A number is written as its low digits and then its high ones. */
  lemma {:induction false} LittleEndianSplit(low: int, high: int, m: nat, n: nat)
    requires 0 <= low < Pow256(m) && high >= 0
    ensures Pow256(m) * high >= 0
    ensures LittleEndian(Pow256(m) * high + low, m + n) == LittleEndian(low, m) + LittleEndian(high, n)
  {
    if m == 0 {
    } else {
      var x := Pow256(m - 1) * high;
      assert Pow256(m) * high == 0x100 * x;
      LowByte(x, low);
      hide Pow256;
      LittleEndianSplit(low / 0x100, high, m - 1, n);
    }
  }

  lemma LowByte(x: int, low: int)
    ensures (0x100 * x + low) % 0x100 == low % 0x100
    ensures (0x100 * x + low) / 0x100 == x + low / 0x100
  {
  }

  /** Byte `i` of a run of words is byte `i % 8` of word `i / 8`. */
  lemma {:induction false} BytesOfAt(ws: Seg, i: nat)
    requires i < 8 * |ws|
    ensures BytesOf(ws)[i] == BytesOfWord(ws[i / 8])[i % 8]
  {
    if i < 8 {
    } else {
      BytesOfAt(ws[1..], i - 8);
    }
  }

  /** The bytes that fill up the last word are zero. */
  lemma {:induction false} PaddingIsZero(b: Bytes, i: nat)
    requires |b| <= i < 8 * |Pack(b)|
    ensures BytesOf(Pack(b))[i] == 0
  {
    if |b| < 8 {
      var padded := b + seq(8 - |b|, _ => 0);
      ByteRoundTrip(padded);
      assert Pack(b)[1..] == [];
      assert BytesOf(Pack(b)) == padded;
    } else {
      PaddingIsZero(b[8..], i - 8);
      assert Pack(b)[1..] == Pack(b[8..]);
    }
  }

  /** `i64` and `f64` fields are stored as their 64 bits. */
  function BitsOf(x: i64): u64 {
    if x < 0 then x + 0x1_0000_0000_0000_0000 else x
  }

  function SignedOf(w: u64): i64 {
    if w >= 0x8000_0000_0000_0000 then w - 0x1_0000_0000_0000_0000 else w
  }

  /** Two's complement: the one 64-bit number congruent to `x`. */
  lemma BitsAreTwosComplement(x: i64, w: u64)
    ensures BitsOf(x) == w <==> (w - x) % 0x1_0000_0000_0000_0000 == 0
    ensures SignedOf(w) == x <==> (w - x) % 0x1_0000_0000_0000_0000 == 0
  {
  }
}
