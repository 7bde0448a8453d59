/** Arithmetic of unsigned machine words as numbers below a power of two. */
module Words {
  import opened Bytes

  function Pow2(k: nat): (p: nat)
    ensures p > 0
  {
    if k == 0 then 1 else 2 * Pow2(k - 1)
  }

  lemma {:induction false} PowMonotone(a: nat, b: nat)
    requires a <= b
    ensures Pow2(a) <= Pow2(b)
    decreases b - a
  {
    if a < b {
      PowMonotone(a + 1, b);
    }
  }

  /** Bitwise exclusive or, bit by bit from the lowest. */
  function Xor(a: nat, b: nat): nat {
    if a == 0 && b == 0 then 0 else (if a % 2 == b % 2 then 0 else 1) + 2 * Xor(a / 2, b / 2)
  }

  /** x >> r of an unsigned word. */
  function Shr(x: nat, r: nat): (y: nat)
    ensures y <= x && (r > 0 && x > 0 ==> y < x)
  {
    if r == 0 then x else Shr(x / 2, r - 1)
  }

  /** rotl of a word below 2 * half: r times, the top bit comes in at the bottom. */
  function Rotl(half: nat, x: nat, r: nat): (y: nat)
    requires half > 0 && x < 2 * half
    ensures y < 2 * half
    decreases r
  {
    if r == 0 then x else Rotl(half, if x < half then 2 * x else 2 * (x - half) + 1, r - 1)
  }

  lemma {:induction false} RotlAdd(half: nat, x: nat, a: nat, b: nat)
    requires half > 0 && x < 2 * half
    ensures Rotl(half, x, a + b) == Rotl(half, Rotl(half, x, a), b)
    decreases a
  {
    if a > 0 {
      RotlAdd(half, if x < half then 2 * x else 2 * (x - half) + 1, a - 1, b);
    }
  }

  lemma MulLess(a: nat, b: nat, q: nat, lo: nat)
    requires a < b && lo < q
    ensures 0 <= a * q && a * q + lo < b * q
  {
    assert (b - a) * q == b * q - a * q && (b - a - 1) * q >= 0;
  }

  lemma Doubles(a: int, b: int, c: int)
    ensures a * (2 * b) == 2 * (a * b) && (a - c) * (2 * b) == 2 * (a * b) - 2 * (c * b) && (2 * a) * b == 2 * (a * b)
  {
  }

  /** The low bits go up and the high bits come in below them. */
  lemma {:induction false} RotlSplits(half: nat, hi: nat, lo: nat, q: nat, r: nat)
    requires 2 * half == Pow2(r) * q && hi < Pow2(r) && lo < q
    ensures half > 0 && 0 <= hi * q && hi * q + lo < 2 * half
    ensures Rotl(half, hi * q + lo, r) == lo * Pow2(r) + hi
    decreases r
  {
    MulLess(hi, Pow2(r), q, lo);
    if r > 0 {
      var h := Pow2(r - 1);
      assert Pow2(r) == 2 * h;
      RotlStep(half, hi, lo, q, r, h);
      hide Rotl, Pow2;
      Doubles(lo, h, 0);
      if hi < h {
        RotlSplits(half, hi, 2 * lo, 2 * q, r - 1);
      } else {
        RotlSplits(half, hi - h, 2 * lo + 1, 2 * q, r - 1);
        assert (2 * lo + 1) * h == (2 * lo) * h + h;
      }
    }
  }

  lemma RotlStep(half: nat, hi: nat, lo: nat, q: nat, r: nat, h: nat)
    requires r > 0 && 2 * half == (2 * h) * q && hi < 2 * h && lo < q
    ensures half > 0 && 0 <= hi * q && hi * q + lo < 2 * half && 2 * half == h * (2 * q)
    ensures hi < h ==> 0 <= hi * (2 * q) && hi * (2 * q) + 2 * lo < 2 * half
    ensures hi >= h ==> 0 <= (hi - h) * (2 * q) && (hi - h) * (2 * q) + 2 * lo + 1 < 2 * half
    ensures Rotl(half, hi * q + lo, r) ==
      if hi < h then Rotl(half, hi * (2 * q) + 2 * lo, r - 1) else Rotl(half, (hi - h) * (2 * q) + 2 * lo + 1, r - 1)
  {
    Doubles(h, q, 0);
    Doubles(hi, q, h);
    MulLess(hi, 2 * h, q, lo);
    if hi < h {
      MulLess(hi, h, q, lo);
      MulLess(hi, h, 2 * q, 2 * lo);
    } else {
      MulLess(hi - h, h, 2 * q, 2 * lo + 1);
    }
  }

  function Rotr(half: nat, y: nat, r: nat): (x: nat)
    requires half > 0 && y < 2 * half
    ensures x < 2 * half
  {
    if r == 0 then y
    else
      var z := Rotr(half, y, r - 1);
      if z % 2 == 0 then z / 2 else z / 2 + half
  }

  lemma {:induction false} RotlUndone(half: nat, x: nat, r: nat)
    requires half > 0 && x < 2 * half
    ensures Rotr(half, Rotl(half, x, r), r) == x
    decreases r
  {
    if r > 0 {
      RotlUndone(half, if x < half then 2 * x else 2 * (x - half) + 1, r - 1);
    }
  }

  /** Undoes x ^ (x >> r). */
  function Unshift(y: nat, r: nat): nat {
    if y == 0 || r == 0 then y else Xor(y, Unshift(Shr(y, r), r))
  }

  lemma XorOf(x: nat, y: nat)
    ensures Xor(x, y) == (if x % 2 == y % 2 then 0 else 1) + 2 * Xor(x / 2, y / 2)
  {
  }

  lemma {:induction false} XorUndone(a: nat, b: nat)
    ensures Xor(Xor(a, b), b) == a && Xor(Xor(a, b), a) == b
  {
    if a != 0 || b != 0 {
      var x := Xor(a, b);
      assert x / 2 == Xor(a / 2, b / 2) && x % 2 == (if a % 2 == b % 2 then 0 else 1);
      XorUndone(a / 2, b / 2);
      XorOf(x, b);
      XorOf(x, a);
    }
  }

  lemma {:induction false} XorBound(a: nat, b: nat, k: nat)
    requires a < Pow2(k) && b < Pow2(k)
    ensures Xor(a, b) < Pow2(k)
  {
    if k > 0 && (a != 0 || b != 0) {
      XorBound(a / 2, b / 2, k - 1);
    }
  }

  /** Shifts distribute over exclusive or. */
  lemma {:induction false} XorShr(a: nat, b: nat, r: nat)
    ensures Shr(Xor(a, b), r) == Xor(Shr(a, r), Shr(b, r))
    decreases r
  {
    if r > 0 {
      XorShr(a / 2, b / 2, r - 1);
      assert Xor(a, b) / 2 == Xor(a / 2, b / 2);
    }
  }

  lemma {:induction false} ShiftUndone(a: nat, r: nat)
    requires r > 0
    ensures Unshift(Xor(a, Shr(a, r)), r) == a
    decreases a
  {
    if a > 0 {
      var s := Shr(a, r);
      ShiftUndone(s, r);
      XorShr(a, s, r);
      XorUndone(a, s);
    }
  }

  /** The little-endian value of some bytes. */
  function ReadLE(s: seq<Byte>): nat {
    if s == [] then 0 else s[0] as nat + 256 * ReadLE(s[1..])
  }

  function Unread(x: nat, n: nat): seq<Byte> {
    if n == 0 then [] else [(x % 256) as Byte] + Unread(x / 256, n - 1)
  }

  lemma {:induction false} ReadUndone(s: seq<Byte>)
    ensures Unread(ReadLE(s), |s|) == s
  {
    if s != [] {
      ReadUndone(s[1..]);
      assert ReadLE(s) / 256 == ReadLE(s[1..]);
    }
  }

  lemma {:induction false} ReadZeros(s: seq<Byte>)
    requires forall k :: 0 <= k < |s| ==> s[k] == 0
    ensures ReadLE(s) == 0
  {
    if s != [] {
      ReadZeros(s[1..]);
    }
  }

  lemma {:induction false} ReadBound(s: seq<Byte>)
    ensures ReadLE(s) < Pow2(8 * |s|)
  {
    if s != [] {
      ReadBound(s[1..]);
      PowByte(8 * |s[1..]|);
    }
  }

  lemma PowByte(k: nat)
    ensures Pow2(k + 8) == 256 * Pow2(k)
  {
    assert Pow2(k + 2) == 4 * Pow2(k);
    assert Pow2(k + 4) == 4 * Pow2(k + 2);
    assert Pow2(k + 6) == 4 * Pow2(k + 4);
    assert Pow2(k + 8) == 4 * Pow2(k + 6);
  }

  // ---- the same, step by step on given numbers ----

  function Differ(a: nat, b: nat): nat { if a % 2 == b % 2 then 0 else 1 }

  /** The lowest eight bits of an exclusive or. */
  function XorByte(a: nat, b: nat): nat {
    Differ(a, b) + 2 * Differ(a / 2, b / 2) + 4 * Differ(a / 4, b / 4) + 8 * Differ(a / 8, b / 8)
    + 16 * Differ(a / 16, b / 16) + 32 * Differ(a / 32, b / 32) + 64 * Differ(a / 64, b / 64)
    + 128 * Differ(a / 128, b / 128)
  }

  lemma XorTwoBits(a: nat, b: nat)
    ensures Xor(a, b) == Differ(a, b) + 2 * Differ(a / 2, b / 2) + 4 * Xor(a / 4, b / 4)
  {
    XorOf(a, b);
    XorOf(a / 2, b / 2);
    assert a / 2 / 2 == a / 4 && b / 2 / 2 == b / 4;
  }

  lemma XorOneByte(a: nat, b: nat)
    ensures Xor(a, b) == XorByte(a, b) + 0x100 * Xor(a / 0x100, b / 0x100)
  {
    hide Xor, Differ;
    XorTwoBits(a, b);
    XorTwoBits(a / 4, b / 4);
    XorTwoBits(a / 16, b / 16);
    XorTwoBits(a / 64, b / 64);
    Divided(a);
    Divided(b);
  }

  lemma Divided(a: nat)
    ensures a / 4 / 2 == a / 8 && a / 4 / 4 == a / 16 && a / 16 / 2 == a / 32 && a / 16 / 4 == a / 64
    ensures a / 64 / 2 == a / 128 && a / 64 / 4 == a / 0x100
  {
  }

  /** A shift is a division. */
  lemma {:induction false} ShrIs(x: nat, r: nat)
    ensures Shr(x, r) == x / Pow2(r)
    decreases r
  {
    if r > 0 {
      ShrIs(x / 2, r - 1);
      HalfOf(x, Pow2(r - 1));
    }
  }

  lemma HalfOf(x: nat, p: nat)
    requires p > 0
    ensures x / 2 / p == x / (2 * p)
  {
    var q := x / 2 / p;
    var r := x / 2 % p;
    assert x / 2 == q * p + r;
    assert x == 2 * (q * p) + 2 * r + x % 2;
    Doubles(q, p, 0);
    DividedBy(x, 2 * p, q, 2 * r + x % 2);
  }

  lemma MulMonotone(a: nat, b: nat, q: nat)
    requires a <= b
    ensures a * q <= b * q && (a < b ==> a * q + q <= b * q)
  {
    var n := b - a;
    assert (a + n) * q == a * q + n * q;
    if n > 0 {
      assert (n - 1) * q + q == n * q;
    }
  }

  lemma DividedBy(x: nat, d: nat, q: nat, r: nat)
    requires d > 0 && x == q * d + r && r < d
    ensures x / d == q
  {
    var q', r' := x / d, x % d;
    assert x == q' * d + r';
    if q' < q {
      MulMonotone(q', q, d);
    } else {
      MulMonotone(q, q', d);
    }
  }

  /** Exclusive or of two bytes, as the machine does it. */
  function XorBits(x: nat, y: nat): nat
    requires x < 0x100 && y < 0x100
  {
    ((x as bv8) ^ (y as bv8)) as nat
  }

  lemma XorByteIs(x: nat, y: nat)
    requires x < 0x100 && y < 0x100
    ensures XorByte(x, y) == XorBits(x, y)
  {
  }

  lemma LowTwo(a: nat, x: nat)
    requires x < 4
    ensures (4 * a + x) / 4 == a && x / 4 == 0
    ensures (4 * a + x) % 2 == x % 2 && (4 * a + x) / 2 % 2 == x / 2 % 2
  {
    assert (4 * a + x) / 2 == 2 * a + x / 2;
  }

  lemma SameDiffer(a: nat, b: nat, x: nat, y: nat)
    requires a % 2 == x % 2 && b % 2 == y % 2
    ensures Differ(a, b) == Differ(x, y)
  {
  }

  lemma XorBehindTwo(a: nat, b: nat, x: nat, y: nat)
    requires x < 4 && y < 4
    ensures Xor(4 * a + x, 4 * b + y) == 4 * Xor(a, b) + Xor(x, y)
  {
    hide Xor, Differ;
    var u, v := 4 * a + x, 4 * b + y;
    LowTwo(a, x);
    LowTwo(b, y);
    XorTwoBits(u, v);
    XorTwoBits(x, y);
    SameDiffer(u, v, x, y);
    SameDiffer(u / 2, v / 2, x / 2, y / 2);
    XorNone();
  }

  lemma XorNone()
    ensures Xor(0, 0) == 0
  {
  }

  lemma XorBehindFour(a: nat, b: nat, x: nat, y: nat)
    requires x < 16 && y < 16
    ensures Xor(16 * a + x, 16 * b + y) == 16 * Xor(a, b) + Xor(x, y)
  {
    hide Xor;
    XorBehindTwo(4 * a + x / 4, 4 * b + y / 4, x % 4, y % 4);
    XorBehindTwo(a, b, x / 4, y / 4);
    XorBehindTwo(x / 4, y / 4, x % 4, y % 4);
  }

  /** The lowest byte of an exclusive or is that of the lowest bytes. */
  lemma XorBehind(a: nat, b: nat, x: nat, y: nat)
    requires x < 0x100 && y < 0x100
    ensures Xor(0x100 * a + x, 0x100 * b + y) == 0x100 * Xor(a, b) + XorBits(x, y)
  {
    hide Xor, XorByte, XorBits;
    XorBehindFour(16 * a + x / 16, 16 * b + y / 16, x % 16, y % 16);
    XorBehindFour(a, b, x / 16, y / 16);
    XorBehindFour(x / 16, y / 16, x % 16, y % 16);
    XorOneByte(x, y);
    XorNone();
    XorByteIs(x, y);
  }

  /** Four bytes of a word, the highest first. */
  datatype Quad = Quad(b3: Byte, b2: Byte, b1: Byte, b0: Byte) {
    function Value(): nat { 0x100 * (0x100 * (0x100 * b3 as nat + b2 as nat) + b1 as nat) + b0 as nat }
    function Xored(q: Quad): nat {
      0x100 * (0x100 * (0x100 * XorBits(b3 as nat, q.b3 as nat) + XorBits(b2 as nat, q.b2 as nat))
               + XorBits(b1 as nat, q.b1 as nat)) + XorBits(b0 as nat, q.b0 as nat)
    }
  }

  lemma XorQuads(a: nat, b: nat, s: Quad, t: Quad)
    ensures Xor(0x1_0000_0000 * a + s.Value(), 0x1_0000_0000 * b + t.Value())
      == 0x1_0000_0000 * Xor(a, b) + s.Xored(t)
  {
    hide Xor, XorBits;
    var s3, t3 := 0x100 * a + s.b3 as nat, 0x100 * b + t.b3 as nat;
    var s2, t2 := 0x100 * s3 + s.b2 as nat, 0x100 * t3 + t.b2 as nat;
    XorBehind(a, b, s.b3 as nat, t.b3 as nat);
    XorBehind(s3, t3, s.b2 as nat, t.b2 as nat);
    XorBehind(s2, t2, s.b1 as nat, t.b1 as nat);
    XorBehind(0x100 * s2 + s.b1 as nat, 0x100 * t2 + t.b1 as nat, s.b0 as nat, t.b0 as nat);
  }

  lemma ReadNext(s: seq<Byte>, k: nat)
    requires k < |s|
    ensures ReadLE(s[k..]) == s[k] as nat + 0x100 * ReadLE(s[k + 1..])
  {
    assert s[k..][1..] == s[k + 1..];
  }

  /** The first four bytes are the lowest of a little-endian word. */
  lemma ReadFour(s: seq<Byte>)
    requires |s| >= 4
    ensures ReadLE(s) == s[0] as nat + 0x100 * s[1] as nat + 0x1_0000 * s[2] as nat + 0x100_0000 * s[3] as nat
                         + 0x1_0000_0000 * ReadLE(s[4..])
  {
    hide ReadLE;
    assert s[0..] == s;
    ReadNext(s, 0);
    ReadNext(s, 1);
    ReadNext(s, 2);
    ReadNext(s, 3);
  }
}
