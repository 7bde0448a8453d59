/** The xxHash family of native/src/xxhash.hpp. The template parameter N becomes a record of
    word operations, so that both widths are one text and one proof. */
module XxHash {
  import opened Bytes

  /** The arithmetic of `hash_t<N>`: everything wraps at 2^N. */
  datatype Word<!W> = Word(
    lane: nat,                 // N / 8, the bytes of one word
    add: (W, W) -> W,
    sub: (W, W) -> W,
    xor: (W, W) -> W,
    prime: nat -> W,
    mul: (W, nat) -> W,        // mul(x, n) is x * PRIME<N>(n)
    rotl: (W, nat) -> W,
    shr: (W, nat) -> W,
    ofNat: nat -> W,           // static_cast<hash_t<N>>
    readLE: seq<Byte> -> W)    // readLE_align<N>, or of a shorter word zero-extended
  {
    predicate Valid() { lane == 4 || lane == 8 }

    /** N / 2 bytes: one word for each of the four lanes. */
    function Stripe(): nat { 4 * lane }
  }

  datatype Lanes<W> = Lanes(v1: W, v2: W, v3: W, v4: W)

  function Round<W>(w: Word<W>, seed: W, input: W): W {
    w.mul(w.rotl(w.add(seed, w.mul(input, 2)), if w.lane == 4 then 13 else 31), 1)
  }

  function MergeRound<W>(w: Word<W>, acc: W, val: W): W {
    w.add(w.mul(w.xor(acc, Round(w, w.ofNat(0), val)), 1), w.prime(4))
  }

  function Start<W>(w: Word<W>, seed: W): Lanes<W> {
    Lanes(w.add(w.add(seed, w.prime(1)), w.prime(2)), w.add(seed, w.prime(2)), w.add(seed, w.ofNat(0)),
          w.sub(seed, w.prime(1)))
  }

  /** One stripe: each lane absorbs its own word. */
  function Absorb<W>(w: Word<W>, v: Lanes<W>, s: seq<Byte>): Lanes<W>
    requires w.Valid() && |s| == w.Stripe()
  {
    var n := w.lane;
    Lanes(Round(w, v.v1, w.readLE(s[..n])), Round(w, v.v2, w.readLE(s[n..2 * n])),
          Round(w, v.v3, w.readLE(s[2 * n..3 * n])), Round(w, v.v4, w.readLE(s[3 * n..])))
  }

  function RotSum<W>(w: Word<W>, v: Lanes<W>): W {
    w.add(w.add(w.add(w.rotl(v.v1, 1), w.rotl(v.v2, 7)), w.rotl(v.v3, 12)), w.rotl(v.v4, 18))
  }

  function Converge<W>(w: Word<W>, v: Lanes<W>): W {
    if w.lane == 4 then RotSum(w, v)
    else MergeRound(w, MergeRound(w, MergeRound(w, MergeRound(w, RotSum(w, v), v.v1), v.v2), v.v3), v.v4)
  }

  /** How many bytes the next step over a tail of `len` bytes consumes. */
  function ChunkLen<W>(w: Word<W>, len: nat): (n: nat)
    requires w.Valid() && len > 0
    ensures 0 < n <= len && (n == 1 || n == 4 || n == w.lane)
  {
    if len >= w.lane then w.lane else if w.lane == 8 && len >= 4 then 4 else 1
  }

  /** One step of the tail: a lane word, a half word (64-bit only) or a byte. */
  function TailStep<W>(w: Word<W>, h: W, chunk: seq<Byte>): W {
    var k := w.readLE(chunk);
    if w.lane == 4 then
      if |chunk| == 4 then w.mul(w.rotl(w.add(h, w.mul(k, 3)), 17), 4)
      else w.mul(w.rotl(w.add(h, w.mul(k, 5)), 11), 1)
    else if |chunk| == 8 then
      w.add(w.mul(w.rotl(w.xor(h, Round(w, w.ofNat(0), k)), 27), 1), w.prime(4))
    else if |chunk| == 4 then
      w.add(w.mul(w.rotl(w.xor(h, w.mul(k, 1)), 23), 2), w.prime(3))
    else
      w.mul(w.rotl(w.xor(h, w.mul(k, 5)), 11), 1)
  }

  function TailFold<W>(w: Word<W>, h: W, tail: seq<Byte>): W
    requires w.Valid()
    decreases |tail|
  {
    if tail == [] then h
    else
      var n := ChunkLen(w, |tail|);
      TailFold(w, TailStep(w, h, tail[..n]), tail[n..])
  }

  function XorShift<W>(w: Word<W>, h: W, r: nat): W { w.xor(h, w.shr(h, r)) }

  function Avalanche<W>(w: Word<W>, h: W): W {
    if w.lane == 4 then XorShift(w, w.mul(XorShift(w, w.mul(XorShift(w, h, 15), 2), 13), 3), 16)
    else XorShift(w, w.mul(XorShift(w, w.mul(XorShift(w, h, 33), 2), 29), 3), 32)
  }

  /** endian_align_sub_ending: the tail and the final mix. */
  function Ending<W>(w: Word<W>, h: W, tail: seq<Byte>): W
    requires w.Valid()
  {
    Avalanche(w, TailFold(w, h, tail))
  }

  /** The lanes after the stripes that end at byte `p`. */
  function Stripes<W>(w: Word<W>, v: Lanes<W>, data: seq<Byte>, p: nat): Lanes<W>
    requires w.Valid() && p <= |data|
    decreases p
  {
    if p < w.Stripe() then v
    else Absorb(w, Stripes(w, v, data, p - w.Stripe()), data[p - w.Stripe()..p])
  }

  /** `p` is a whole number of stripes. */
  predicate IsWhole<W>(w: Word<W>, p: nat)
    requires w.Valid()
  {
    p == 0 || (p >= w.Stripe() && IsWhole(w, p - w.Stripe()))
  }

  /** The end of the last whole stripe of `n` bytes. */
  function Whole<W>(w: Word<W>, n: nat): (p: nat)
    requires w.Valid()
    ensures p <= n < p + w.Stripe() && IsWhole(w, p)
  {
    if n < w.Stripe() then 0 else w.Stripe() + Whole(w, n - w.Stripe())
  }

  /** The lanes after every whole stripe of `data`. */
  function Absorbed<W>(w: Word<W>, seed: W, data: seq<Byte>): Lanes<W>
    requires w.Valid()
  {
    Stripes(w, Start(w, seed), data, Whole(w, |data|))
  }

  /** What the tail loop starts from. */
  function BeforeTail<W>(w: Word<W>, seed: W, data: seq<Byte>): W
    requires w.Valid()
  {
    w.add(if |data| >= w.Stripe() then Converge(w, Absorbed(w, seed, data)) else w.add(seed, w.prime(5)),
          w.ofNat(|data|))
  }

  /** The digest of `data`, as the algorithm description defines it. */
  function Hash<W>(w: Word<W>, seed: W, data: seq<Byte>): W
    requires w.Valid()
  {
    Ending(w, BeforeTail(w, seed, data), data[Whole(w, |data|)..])
  }

  /** The lanes depend on the stripes already read and on nothing behind them. */
  lemma {:induction false} StripesPrefix<W>(w: Word<W>, v: Lanes<W>, a: seq<Byte>, b: seq<Byte>, p: nat)
    requires w.Valid() && p <= |a| && a <= b
    ensures Stripes(w, v, a, p) == Stripes(w, v, b, p)
    decreases p
  {
    if p >= w.Stripe() {
      StripesPrefix(w, v, a, b, p - w.Stripe());
      assert a[p - w.Stripe()..p] == b[p - w.Stripe()..p];
    }
  }

  lemma {:induction false} WholeIs<W>(w: Word<W>, p: nat, n: nat)
    requires w.Valid() && IsWhole(w, p) && p <= n < p + w.Stripe()
    ensures Whole(w, n) == p
  {
    if p != 0 {
      WholeIs(w, p - w.Stripe(), n - w.Stripe());
    }
  }

  /** endian_align_sub_ending, with its moving pointer. */
  method SubEnding<W>(w: Word<W>, hash: W, tail: seq<Byte>) returns (r: W)
    requires w.Valid()
    ensures r == Ending(w, hash, tail)
  {
    r := hash;
    var p := 0;
    while p + w.lane <= |tail|
      invariant p <= |tail|
      invariant TailFold(w, r, tail[p..]) == TailFold(w, hash, tail)
    {
      assert tail[p..][..w.lane] == tail[p..p + w.lane] && tail[p..][w.lane..] == tail[p + w.lane..];
      r := TailStep(w, r, tail[p..p + w.lane]);
      p := p + w.lane;
    }
    if w.lane == 8 && p + 4 <= |tail| {
      assert tail[p..][..4] == tail[p..p + 4] && tail[p..][4..] == tail[p + 4..];
      r := TailStep(w, r, tail[p..p + 4]);
      p := p + 4;
    }
    while p < |tail|
      invariant p <= |tail| && |tail| - p < (if w.lane == 8 then 4 else w.lane)
      invariant TailFold(w, r, tail[p..]) == TailFold(w, hash, tail)
    {
      assert tail[p..][..1] == tail[p..p + 1] && tail[p..][1..] == tail[p + 1..];
      r := TailStep(w, r, tail[p..p + 1]);
      p := p + 1;
    }
    if w.lane == 4 {
      r := XorShift(w, r, 15);
      r := w.mul(r, 2);
      r := XorShift(w, r, 13);
      r := w.mul(r, 3);
      r := XorShift(w, r, 16);
    } else {
      r := XorShift(w, r, 33);
      r := w.mul(r, 2);
      r := XorShift(w, r, 29);
      r := w.mul(r, 3);
      r := XorShift(w, r, 32);
    }
  }

  /** The one-shot hash: endian_align. */
  method EndianAlign<W>(w: Word<W>, input: array<Byte>, len: nat, seed: W) returns (r: W)
    requires w.Valid() && len <= input.Length
    ensures r == Hash(w, seed, input[..len])
  {
    var data := input[..len];
    var p := 0;
    if len >= w.Stripe() {
      var limit := len - w.Stripe();
      var v := Start(w, seed);
      while p <= limit
        invariant p <= len && IsWhole(w, p)
        invariant v == Stripes(w, Start(w, seed), data, p)
      {
        v := Absorb(w, v, data[p..p + w.Stripe()]);
        p := p + w.Stripe();
        assert v == Stripes(w, Start(w, seed), data, p);
      }
      WholeIs(w, p, len);
      r := Converge(w, v);
    } else {
      r := w.add(seed, w.prime(5));
    }
    r := w.add(r, w.ofNat(len));
    r := SubEnding(w, r, data[p..]);
  }
}
