/** hash_state_t<N>: the same hash fed in pieces through a one-stripe buffer. */
module HashStream {
  import opened Bytes
  import opened XxHash

  datatype ErrorCode = Ok | Error

  /** What digest returns after `data`: short inputs are finished from the third lane, and an
      input of exactly one stripe is still taken for a short one. */
  function StreamHash<W>(w: Word<W>, seed: W, data: seq<Byte>): W
    requires w.Valid()
  {
    var v := Absorbed(w, seed, data);
    var h := if |data| > w.Stripe() then Converge(w, v) else w.add(v.v3, w.prime(5));
    Ending(w, w.add(h, w.ofNat(|data|)), data[Whole(w, |data|)..])
  }

  /** The same from the parts of a state, with the length counted so far. */
  function Digest<W>(w: Word<W>, v: Lanes<W>, tail: seq<Byte>, total: nat): W
    requires w.Valid()
  {
    var h := if total > w.Stripe() then Converge(w, v) else w.add(v.v3, w.prime(5));
    Ending(w, w.add(h, w.ofNat(total)), tail)
  }

  /** The lanes of `data` up to its last whole stripe, with the bytes behind it. */
  ghost predicate Feeds<W>(w: Word<W>, seed: W, data: seq<Byte>, v: Lanes<W>, tail: seq<Byte>)
    requires w.Valid()
  {
    && |tail| <= |data| && IsWhole(w, |data| - |tail|)
    && tail == data[|data| - |tail|..]
    && v == Stripes(w, Start(w, seed), data, |data| - |tail|)
  }

  /** The state depends only on the concatenation of what was fed in, not on how it was cut. */
  lemma FeedsUnique<W>(w: Word<W>, seed: W, data: seq<Byte>, v: Lanes<W>, tail: seq<Byte>,
                       v': Lanes<W>, tail': seq<Byte>)
    requires w.Valid() && |tail| < w.Stripe() && |tail'| < w.Stripe()
    requires Feeds(w, seed, data, v, tail) && Feeds(w, seed, data, v', tail')
    ensures v == v' && tail == tail'
  {
    WholeIs(w, |data| - |tail|, |data|);
    WholeIs(w, |data| - |tail'|, |data|);
  }

  /** A tail shorter than a stripe is what is left behind the last whole stripe. */
  lemma FeedsAll<W>(w: Word<W>, seed: W, data: seq<Byte>, v: Lanes<W>, tail: seq<Byte>)
    requires w.Valid() && |tail| < w.Stripe() && Feeds(w, seed, data, v, tail)
    ensures v == Absorbed(w, seed, data) && tail == data[Whole(w, |data|)..]
  {
    WholeIs(w, |data| - |tail|, |data|);
  }

  lemma FeedsNothing<W>(w: Word<W>, seed: W)
    requires w.Valid()
    ensures Feeds(w, seed, [], Start(w, seed), [])
  {
  }

  /** Bytes that do not complete a stripe only lengthen the tail. */
  lemma FeedTail<W>(w: Word<W>, seed: W, data: seq<Byte>, v: Lanes<W>, tail: seq<Byte>, more: seq<Byte>)
    requires w.Valid() && Feeds(w, seed, data, v, tail)
    ensures Feeds(w, seed, data + more, v, tail + more)
  {
    StripesPrefix(w, Start(w, seed), data, data + more, |data| - |tail|);
  }

  /** A tail of at least one stripe gives its first stripe to the lanes. */
  lemma FeedStripe<W>(w: Word<W>, seed: W, data: seq<Byte>, v: Lanes<W>, tail: seq<Byte>)
    requires w.Valid() && Feeds(w, seed, data, v, tail) && |tail| >= w.Stripe()
    ensures Feeds(w, seed, data, Absorb(w, v, tail[..w.Stripe()]), tail[w.Stripe()..])
  {
    var S := w.Stripe();
    var p := |data| - |tail| + S;
    assert tail[..S] == data[p - S..p] && tail[S..] == data[p..];
    assert Stripes(w, Start(w, seed), data, p) == Absorb(w, Stripes(w, Start(w, seed), data, p - S), data[p - S..p]);
  }

  class HashState<W> {
    const w: Word<W>
    const mem: array<Byte>
    var totalLen: nat
    var v1: W
    var v2: W
    var v3: W
    var v4: W
    var memsize: nat
    ghost var seed: W
    ghost var data: seq<Byte>  // everything fed in since the last reset
    ghost var wraps: nat       // how often totalLen has wrapped since then

    ghost predicate Valid()
      reads this, mem
    {
      && w.Valid() && mem.Length == w.Stripe()
      && totalLen < TWO_64 && totalLen + wraps * TWO_64 == |data|
      && memsize < w.Stripe()
      && Feeds(w, seed, data, Lanes(v1, v2, v3, v4), mem[..memsize])
    }

    constructor (w: Word<W>, seed: W)
      requires w.Valid()
      ensures Valid() && this.w == w && this.seed == seed && data == [] && fresh(mem)
    {
      var s := Start(w, seed);
      this.w := w;
      this.seed, data, wraps := seed, [], 0;
      totalLen, memsize := 0, 0;
      v1, v2, v3, v4 := s.v1, s.v2, s.v3, s.v4;
      mem := new Byte[w.Stripe()];
    }

    method Reset(seed: W)
      requires Valid()
      modifies this
      ensures Valid() && this.seed == seed && data == []
    {
      var s := Start(w, seed);
      this.seed, data, wraps := seed, [], 0;
      totalLen, memsize := 0, 0;
      v1, v2, v3, v4 := s.v1, s.v2, s.v3, s.v4;
      FeedsNothing(w, seed);
      assert mem[..memsize] == [];
    }

    /** A null input is refused and changes nothing; any other is appended to what was fed in. */
    method Update(input: array?<Byte>, length: nat) returns (e: ErrorCode)
      requires Valid() && input != mem
      requires input != null ==> length <= input.Length && length < TWO_64
      modifies this, mem
      ensures Valid() && seed == old(seed)
      ensures input == null ==> e == Error && unchanged(this) && unchanged(mem)
      ensures input != null ==> e == Ok && data == old(data) + old(input[..length])
    {
      if input == null {
        return Error;
      }
      ghost var bytes := input[..length];
      Count(length, bytes);
      if memsize + length < w.Stripe() {
        Keep(input[..length]);
      } else {
        Consume(input[..length]);
      }
      e := Ok;
    }

    /** total_len += length, and with it the ghost record of what was fed in. */
    method Count(length: nat, ghost bytes: seq<Byte>)
      requires Valid() && length == |bytes| < TWO_64
      modifies `totalLen, `data, `wraps
      ensures data == old(data) + bytes
      ensures totalLen < TWO_64 && totalLen + wraps * TWO_64 == |data|
      ensures Feeds(w, seed, data, Lanes(v1, v2, v3, v4), mem[..memsize] + bytes)
    {
      FeedTail(w, seed, data, Lanes(v1, v2, v3, v4), mem[..memsize], bytes);
      data := data + bytes;
      wraps := if totalLen + length < TWO_64 then wraps else wraps + 1;
      totalLen := Add64(totalLen, length);
    }

    /** Too little for a stripe: the bytes wait in the buffer. */
    method Keep(bytes: seq<Byte>)
      requires w.Valid() && mem.Length == w.Stripe() && memsize + |bytes| < w.Stripe()
      requires Feeds(w, seed, data, Lanes(v1, v2, v3, v4), mem[..memsize] + bytes)
      modifies mem, `memsize
      ensures memsize < w.Stripe() && Feeds(w, seed, data, Lanes(v1, v2, v3, v4), mem[..memsize])
    {
      MemCpy(mem, memsize, bytes);
      memsize := memsize + |bytes|;
      assert mem[..memsize] == old(mem[..memsize]) + bytes;
    }

    /** At least one stripe is complete: absorb what can be absorbed and keep the rest. */
    method Consume(bytes: seq<Byte>)
      requires w.Valid() && mem.Length == w.Stripe() && memsize < w.Stripe() <= memsize + |bytes|
      requires Feeds(w, seed, data, Lanes(v1, v2, v3, v4), mem[..memsize] + bytes)
      modifies mem, `v1, `v2, `v3, `v4, `memsize
      ensures memsize < w.Stripe() && Feeds(w, seed, data, Lanes(v1, v2, v3, v4), mem[..memsize])
    {
      var rest := bytes;
      if memsize != 0 {
        var used := w.Stripe() - memsize;
        CompleteStripe(bytes);
        rest := bytes[used..];
      } else {
        assert mem[..memsize] + bytes == bytes;
      }
      var p := AbsorbStripes(rest);
      if p < |rest| {
        MemCpy(mem, 0, rest[p..]);
        memsize := |rest| - p;
      }
      assert mem[..memsize] == rest[p..];
    }

    /** Tops the buffer up to a whole stripe and absorbs it. */
    method CompleteStripe(bytes: seq<Byte>)
      requires w.Valid() && mem.Length == w.Stripe() && memsize < w.Stripe() <= memsize + |bytes|
      requires Feeds(w, seed, data, Lanes(v1, v2, v3, v4), mem[..memsize] + bytes)
      modifies mem, `v1, `v2, `v3, `v4, `memsize
      ensures memsize == 0
      ensures Feeds(w, seed, data, Lanes(v1, v2, v3, v4), bytes[w.Stripe() - old(memsize)..])
    {
      var used := w.Stripe() - memsize;
      ghost var tail := mem[..memsize] + bytes;
      MemCpy(mem, memsize, bytes[..used]);
      assert mem[..] == tail[..w.Stripe()] && bytes[used..] == tail[w.Stripe()..];
      FeedStripe(w, seed, data, Lanes(v1, v2, v3, v4), tail);
      AbsorbLanes(mem[..]);
      memsize := 0;
    }

    /** The do-while loop over whole stripes of `bytes`, the bytes not yet in the lanes. */
    method AbsorbStripes(bytes: seq<Byte>) returns (p: nat)
      requires w.Valid() && Feeds(w, seed, data, Lanes(v1, v2, v3, v4), bytes)
      modifies `v1, `v2, `v3, `v4
      ensures p <= |bytes| < p + w.Stripe()
      ensures Feeds(w, seed, data, Lanes(v1, v2, v3, v4), bytes[p..])
    {
      var S := w.Stripe();
      p := 0;
      while p + S <= |bytes|
        invariant p <= |bytes|
        invariant Feeds(w, seed, data, Lanes(v1, v2, v3, v4), bytes[p..])
      {
        assert bytes[p..][..S] == bytes[p..p + S] && bytes[p..][S..] == bytes[p + S..];
        FeedStripe(w, seed, data, Lanes(v1, v2, v3, v4), bytes[p..]);
        AbsorbLanes(bytes[p..p + S]);
        p := p + S;
      }
    }

    method AbsorbLanes(s: seq<Byte>)
      requires w.Valid() && |s| == w.Stripe()
      modifies `v1, `v2, `v3, `v4
      ensures Lanes(v1, v2, v3, v4) == Absorb(w, old(Lanes(v1, v2, v3, v4)), s)
    {
      var n := w.lane;
      v1 := Round(w, v1, w.readLE(s[..n]));
      v2 := Round(w, v2, w.readLE(s[n..2 * n]));
      v3 := Round(w, v3, w.readLE(s[2 * n..3 * n]));
      v4 := Round(w, v4, w.readLE(s[3 * n..]));
    }

    /** The digest depends on nothing but the seed and the bytes fed in; they are counted modulo 2^64. */
    method GetDigest() returns (r: W)
      requires Valid()
      ensures r == Digest(w, Absorbed(w, seed, data), data[Whole(w, |data|)..], |data| % TWO_64)
      ensures |data| < TWO_64 ==> r == StreamHash(w, seed, data)
    {
      FeedsAll(w, seed, data, Lanes(v1, v2, v3, v4), mem[..memsize]);
      Remainder(totalLen, wraps, |data|);
      SmallRemainder(|data|);
      hide Feeds, Absorbed, Converge, Ending, Whole, IsWhole, Stripes;
      if totalLen > w.Stripe() {
        r := Converge(w, Lanes(v1, v2, v3, v4));
      } else {
        r := w.add(v3, w.prime(5));
      }
      r := w.add(r, w.ofNat(totalLen));
      r := SubEnding(w, r, mem[..memsize]);
    }
  }

  lemma SmallRemainder(n: nat)
    ensures n < TWO_64 ==> n % TWO_64 == n
  {
  }

  lemma Remainder(rest: nat, times: nat, n: nat)
    requires rest < TWO_64 && rest + times * TWO_64 == n
    ensures n % TWO_64 == rest
  {
  }
}
