/** What the arithmetic of xxHash guarantees: every step can be undone, hence the streaming
    digest meets the one-shot hash, and single-word changes are always noticed. */
module XxHashLaws {
  import opened Bytes
  import opened XxHash
  import opened HashStream

  /** Left inverses of the word operations. */
  datatype Undo<!W> = Undo(
    add: (W, W) -> W,
    xor: (W, W) -> W,
    mul: (W, nat) -> W,
    rotl: (W, nat) -> W,
    shift: (W, nat) -> W,       // of x ^ (x >> r)
    read: (W, nat) -> seq<Byte>)

  predicate Rotation(r: nat) { r in {1, 7, 11, 12, 13, 17, 18, 23, 27, 31} }
  predicate Shift<W>(w: Word<W>, r: nat) {
    if w.lane == 4 then r in {13, 15, 16} else r in {29, 32, 33}
  }
  predicate WordLen<W>(w: Word<W>, n: nat) { n == 1 || n == 4 || n == w.lane }

  /** `u` undoes `w`: addition and xor in either argument, multiplication by each prime, each
      rotation and shift in use, and the reading of a word. */
  ghost predicate Lawful<W(!new)>(w: Word<W>, u: Undo<W>) {
    && w.Valid()
    && (forall a: W :: w.add(a, w.ofNat(0)) == a)
    && (forall a: W, b: W :: u.add(w.add(a, b), b) == a && u.add(w.add(a, b), a) == b)
    && (forall a: W, b: W :: u.xor(w.xor(a, b), b) == a && u.xor(w.xor(a, b), a) == b)
    && (forall a: W, n: nat :: 1 <= n <= 5 ==> u.mul(w.mul(a, n), n) == a)
    && (forall a: W, r: nat :: Rotation(r) ==> u.rotl(w.rotl(a, r), r) == a)
    && (forall a: W, r: nat :: Shift(w, r) ==> u.shift(XorShift(w, a, r), r) == a)
    && (forall s: seq<Byte> :: WordLen(w, |s|) ==> u.read(w.readLE(s), |s|) == s)
  }

  lemma {:induction false} RoundInjective<W(!new)>(w: Word<W>, u: Undo<W>, s: W, k: W, s': W, k': W)
    requires Lawful(w, u) && Round(w, s, k) == Round(w, s', k')
    ensures s == s' <==> k == k'
  {
    var r := if w.lane == 4 then 13 else 31;
    var x, x' := w.add(s, w.mul(k, 2)), w.add(s', w.mul(k', 2));
    assert Rotation(r);
    assert u.mul(Round(w, s, k), 1) == w.rotl(x, r) && u.mul(Round(w, s', k'), 1) == w.rotl(x', r);
    assert u.rotl(w.rotl(x, r), r) == x && u.rotl(w.rotl(x', r), r) == x';
    assert u.mul(w.mul(k, 2), 2) == k && u.mul(w.mul(k', 2), 2) == k';
  }

  lemma {:induction false} AvalancheInjective<W(!new)>(w: Word<W>, u: Undo<W>, h: W, h': W)
    requires Lawful(w, u) && Avalanche(w, h) == Avalanche(w, h')
    ensures h == h'
  {
    var r1, r2, r3 := if w.lane == 4 then 15 else 33, if w.lane == 4 then 13 else 29, if w.lane == 4 then 16 else 32;
    assert Shift(w, r1) && Shift(w, r2) && Shift(w, r3);
    var x1, x1' := w.mul(XorShift(w, h, r1), 2), w.mul(XorShift(w, h', r1), 2);
    var x2, x2' := w.mul(XorShift(w, x1, r2), 3), w.mul(XorShift(w, x1', r2), 3);
    assert Avalanche(w, h) == XorShift(w, x2, r3) && Avalanche(w, h') == XorShift(w, x2', r3);
    assert x2 == u.shift(XorShift(w, x2, r3), r3) && x2' == u.shift(XorShift(w, x2', r3), r3);
    assert XorShift(w, x1, r2) == u.mul(x2, 3) && XorShift(w, x1', r2) == u.mul(x2', 3);
    assert x1 == u.shift(XorShift(w, x1, r2), r2) && x1' == u.shift(XorShift(w, x1', r2), r2);
    assert XorShift(w, h, r1) == u.mul(x1, 2) && XorShift(w, h', r1) == u.mul(x1', 2);
  }

  /** The streaming digest is the one-shot hash, except on an input of exactly one stripe,
      where they meet just when the mixed lanes happen to equal the short-input start. */
  lemma {:induction false} StreamIsOneShot<W(!new)>(w: Word<W>, u: Undo<W>, seed: W, data: seq<Byte>)
    requires Lawful(w, u)
    ensures var v := Absorbed(w, seed, data);
      StreamHash(w, seed, data) == Hash(w, seed, data)
      <==> (|data| != w.Stripe() || Converge(w, v) == w.add(v.v3, w.prime(5)))
  {
    var v := Absorbed(w, seed, data);
    if |data| < w.Stripe() {
      assert v == Start(w, seed);
      assert v.v3 == seed;
    } else if |data| == w.Stripe() {
      var n := w.ofNat(|data|);
      var h, h' := w.add(w.add(v.v3, w.prime(5)), n), w.add(Converge(w, v), n);
      assert Whole(w, |data|) == |data|;
      assert StreamHash(w, seed, data) == Avalanche(w, h) && Hash(w, seed, data) == Avalanche(w, h');
      if Avalanche(w, h) == Avalanche(w, h') {
        AvalancheInjective(w, u, h, h');
        assert u.add(h, n) == w.add(v.v3, w.prime(5)) && u.add(h', n) == Converge(w, v);
      }
    }
  }

  lemma OneStripe<W>(w: Word<W>, seed: W, data: seq<Byte>)
    requires w.Valid() && |data| == w.Stripe()
    ensures Absorbed(w, seed, data) == Absorb(w, Start(w, seed), data)
  {
    assert Whole(w, |data|) == w.Stripe() + Whole(w, 0);
    assert data[0..w.Stripe()] == data;
    assert Stripes(w, Start(w, seed), data, 0) == Start(w, seed);
  }

  // ---- changes inside one consumed word ----

  /** `a` and `b` differ, and only inside the `n` bytes at `i`. */
  ghost predicate DifferAt(a: seq<Byte>, b: seq<Byte>, i: nat, n: nat) {
    |a| == |b| && i + n <= |a| && a != b && forall k :: 0 <= k < |a| && !(i <= k < i + n) ==> a[k] == b[k]
  }

  /** The tail loop over `len` bytes reads the `n` bytes at `i` as one word. */
  predicate ReadsInTail<W>(w: Word<W>, len: nat, i: nat, n: nat)
    requires w.Valid()
  {
    len > 0 &&
    var c := ChunkLen(w, len);
    if i == 0 then n == c else c <= i && ReadsInTail(w, len - c, i - c, n)
  }

  /** The stripe loop that ends at `p` reads a lane word at `i`. */
  predicate ReadsInStripes<W>(w: Word<W>, p: nat, i: nat)
    requires w.Valid()
    decreases p
  {
    var S := w.Stripe();
    p >= S &&
    if i < p - S then ReadsInStripes(w, p - S, i)
    else i == p - S || i == p - S + w.lane || i == p - S + 2 * w.lane || i == p - S + 3 * w.lane
  }

  /** The change seen from `c` on. */
  lemma DifferAfter(a: seq<Byte>, b: seq<Byte>, i: nat, n: nat, c: nat)
    requires DifferAt(a, b, i, n) && c <= i
    ensures a[..c] == b[..c] && DifferAt(a[c..], b[c..], i - c, n)
  {
    assert a == a[..c] + a[c..] && b == b[..c] + b[c..];
  }

  /** The change seen before `c`. */
  lemma DifferBefore(a: seq<Byte>, b: seq<Byte>, i: nat, n: nat, c: nat)
    requires DifferAt(a, b, i, n) && i + n <= c <= |a|
    ensures a[c..] == b[c..] && DifferAt(a[..c], b[..c], i, n)
  {
    assert a == a[..c] + a[c..] && b == b[..c] + b[c..];
  }

  lemma {:induction false} TailStepInjective<W(!new)>(w: Word<W>, u: Undo<W>, h: W, c: seq<Byte>, h': W, c': seq<Byte>)
    requires Lawful(w, u) && |c| == |c'| && WordLen(w, |c|)
    requires TailStep(w, h, c) == TailStep(w, h', c')
    ensures h == h' <==> c == c'
  {
    var k, k' := w.readLE(c), w.readLE(c');
    assert u.read(k, |c|) == c && u.read(k', |c'|) == c';
    if w.lane == 4 {
      var r, q, z := if |c| == 4 then 17 else 11, if |c| == 4 then 4 else 1, if |c| == 4 then 3 else 5;
      var x, x' := w.add(h, w.mul(k, z)), w.add(h', w.mul(k', z));
      assert Rotation(r);
      assert TailStep(w, h, c) == w.mul(w.rotl(x, r), q) && TailStep(w, h', c') == w.mul(w.rotl(x', r), q);
      assert u.rotl(u.mul(TailStep(w, h, c), q), r) == x && u.rotl(u.mul(TailStep(w, h', c'), q), r) == x';
      assert u.mul(w.mul(k, z), z) == k && u.mul(w.mul(k', z), z) == k';
    } else {
      var r, q := if |c| == 8 then 27 else if |c| == 4 then 23 else 11, if |c| == 4 then 2 else 1;
      var y, y' := TailInput(w, k, |c|), TailInput(w, k', |c|);
      var x, x' := w.xor(h, y), w.xor(h', y');
      assert Rotation(r);
      assert w.mul(w.rotl(x, r), q) == w.mul(w.rotl(x', r), q) by {
        if |c| == 8 {
          assert u.add(TailStep(w, h, c), w.prime(4)) == w.mul(w.rotl(x, r), q);
          assert u.add(TailStep(w, h', c'), w.prime(4)) == w.mul(w.rotl(x', r), q);
        } else if |c| == 4 {
          assert u.add(TailStep(w, h, c), w.prime(3)) == w.mul(w.rotl(x, r), q);
          assert u.add(TailStep(w, h', c'), w.prime(3)) == w.mul(w.rotl(x', r), q);
        }
      }
      assert u.rotl(u.mul(w.mul(w.rotl(x, r), q), q), r) == x && u.rotl(u.mul(w.mul(w.rotl(x', r), q), q), r) == x';
      if y == y' {
        TailInputInjective(w, u, k, k', |c|);
      }
    }
  }

  /** What the 64-bit tail step xors into the hash. */
  function TailInput<W>(w: Word<W>, k: W, n: nat): W {
    if n == 8 then Round(w, w.ofNat(0), k) else w.mul(k, if n == 4 then 1 else 5)
  }

  lemma {:induction false} TailInputInjective<W(!new)>(w: Word<W>, u: Undo<W>, k: W, k': W, n: nat)
    requires Lawful(w, u) && TailInput(w, k, n) == TailInput(w, k', n)
    ensures k == k'
  {
    if n == 8 {
      RoundInjective(w, u, w.ofNat(0), k, w.ofNat(0), k');
    } else {
      assert u.mul(w.mul(k, if n == 4 then 1 else 5), if n == 4 then 1 else 5) == k;
      assert u.mul(w.mul(k', if n == 4 then 1 else 5), if n == 4 then 1 else 5) == k';
    }
  }

  /** Different hashes stay different over one tail. */
  lemma {:induction false} TailFoldInjective<W(!new)>(w: Word<W>, u: Undo<W>, h: W, h': W, tail: seq<Byte>)
    requires Lawful(w, u) && h != h'
    ensures TailFold(w, h, tail) != TailFold(w, h', tail)
    decreases |tail|
  {
    if tail != [] {
      var n := ChunkLen(w, |tail|);
      if TailStep(w, h, tail[..n]) == TailStep(w, h', tail[..n]) {
        TailStepInjective(w, u, h, tail[..n], h', tail[..n]);
      }
      TailFoldInjective(w, u, TailStep(w, h, tail[..n]), TailStep(w, h', tail[..n]), tail[n..]);
    }
  }

  /** A change inside one word of the tail changes the fold. */
  lemma {:induction false} TailNotices<W(!new)>(w: Word<W>, u: Undo<W>, h: W, a: seq<Byte>, b: seq<Byte>, i: nat,
        n: nat)
    requires Lawful(w, u) && DifferAt(a, b, i, n) && ReadsInTail(w, |a|, i, n)
    ensures TailFold(w, h, a) != TailFold(w, h, b)
    decreases |a|
  {
    var c := ChunkLen(w, |a|);
    if i == 0 {
      DifferBefore(a, b, i, n, c);
      if TailStep(w, h, a[..c]) == TailStep(w, h, b[..c]) {
        TailStepInjective(w, u, h, a[..c], h, b[..c]);
      }
      TailFoldInjective(w, u, TailStep(w, h, a[..c]), TailStep(w, h, b[..c]), a[c..]);
    } else {
      DifferAfter(a, b, i, n, c);
      TailNotices(w, u, TailStep(w, h, a[..c]), a[c..], b[c..], i - c, n);
    }
  }

  lemma {:induction false} EndingNotices<W(!new)>(w: Word<W>, u: Undo<W>, h: W, a: seq<Byte>, b: seq<Byte>, p: nat,
        i: nat, n: nat)
    requires Lawful(w, u) && DifferAt(a, b, i, n) && p <= i && ReadsInTail(w, |a| - p, i - p, n)
    ensures Ending(w, h, a[p..]) != Ending(w, h, b[p..])
  {
    DifferAfter(a, b, i, n, p);
    TailNotices(w, u, h, a[p..], b[p..], i - p, n);
    if Ending(w, h, a[p..]) == Ending(w, h, b[p..]) {
      AvalancheInjective(w, u, TailFold(w, h, a[p..]), TailFold(w, h, b[p..]));
    }
  }

  lemma {:induction false} EndingInjective<W(!new)>(w: Word<W>, u: Undo<W>, h: W, h': W, tail: seq<Byte>)
    requires Lawful(w, u) && h != h'
    ensures Ending(w, h, tail) != Ending(w, h', tail)
  {
    TailFoldInjective(w, u, h, h', tail);
    if Ending(w, h, tail) == Ending(w, h', tail) {
      AvalancheInjective(w, u, TailFold(w, h, tail), TailFold(w, h', tail));
    }
  }

  /** Exactly one lane differs. */
  ghost predicate OneLane<W>(x: Lanes<W>, y: Lanes<W>) {
    || (x.v1 != y.v1 && x.v2 == y.v2 && x.v3 == y.v3 && x.v4 == y.v4)
    || (x.v1 == y.v1 && x.v2 != y.v2 && x.v3 == y.v3 && x.v4 == y.v4)
    || (x.v1 == y.v1 && x.v2 == y.v2 && x.v3 != y.v3 && x.v4 == y.v4)
    || (x.v1 == y.v1 && x.v2 == y.v2 && x.v3 == y.v3 && x.v4 != y.v4)
  }

  /** A stripe both sides share keeps a difference in the lane it is in. */
  lemma {:induction false} AbsorbKeeps<W(!new)>(w: Word<W>, u: Undo<W>, x: Lanes<W>, y: Lanes<W>, s: seq<Byte>)
    requires Lawful(w, u) && |s| == w.Stripe() && OneLane(x, y)
    ensures OneLane(Absorb(w, x, s), Absorb(w, y, s))
  {
    forall a: W, b: W, k: W {:trigger Round(w, a, k), Round(w, b, k)} | a != b
      ensures Round(w, a, k) != Round(w, b, k)
    {
      if Round(w, a, k) == Round(w, b, k) {
        RoundInjective(w, u, a, k, b, k);
      }
    }
  }

  /** The four lane words of two stripes, in the form Absorb slices them. */
  lemma StripeWords(s: seq<Byte>, t: seq<Byte>, i: nat, n: nat)
    requires |s| == 4 * n && DifferAt(s, t, i, n)
    ensures i == 0 ==> s[..n] != t[..n]
    ensures i == n ==> s[n..2 * n] != t[n..2 * n]
    ensures i == 2 * n ==> s[2 * n..3 * n] != t[2 * n..3 * n]
    ensures i == 3 * n ==> s[3 * n..] != t[3 * n..]
    ensures i >= n ==> s[..n] == t[..n]
    ensures i + n <= n || i >= 2 * n ==> s[n..2 * n] == t[n..2 * n]
    ensures i + n <= 2 * n || i >= 3 * n ==> s[2 * n..3 * n] == t[2 * n..3 * n]
    ensures i + n <= 3 * n ==> s[3 * n..] == t[3 * n..]
  {
    assert s == s[..n] + s[n..2 * n] + s[2 * n..3 * n] + s[3 * n..];
    assert t == t[..n] + t[n..2 * n] + t[2 * n..3 * n] + t[3 * n..];
  }

  /** A lane notices that its word changed. */
  lemma {:induction false} LaneNotices<W(!new)>(w: Word<W>, u: Undo<W>, v: W, c: seq<Byte>, c': seq<Byte>)
    requires Lawful(w, u) && |c| == |c'| == w.lane && c != c'
    ensures Round(w, v, w.readLE(c)) != Round(w, v, w.readLE(c'))
  {
    assert u.read(w.readLE(c), |c|) == c && u.read(w.readLE(c'), |c'|) == c';
    if Round(w, v, w.readLE(c)) == Round(w, v, w.readLE(c')) {
      RoundInjective(w, u, v, w.readLE(c), v, w.readLE(c'));
    }
  }

  /** A stripe that differs inside one lane word makes exactly that lane differ. */
  lemma {:induction false} AbsorbNotices<W(!new)>(w: Word<W>, u: Undo<W>, x: Lanes<W>, s: seq<Byte>, t: seq<Byte>,
        i: nat)
    requires Lawful(w, u) && |s| == w.Stripe() && ReadsInStripes(w, |s|, i) && DifferAt(s, t, i, w.lane)
    ensures OneLane(Absorb(w, x, s), Absorb(w, x, t))
  {
    var n := w.lane;
    StripeWords(s, t, i, n);
    if i == 0 {
      LaneNotices(w, u, x.v1, s[..n], t[..n]);
    } else if i == n {
      LaneNotices(w, u, x.v2, s[n..2 * n], t[n..2 * n]);
    } else if i == 2 * n {
      LaneNotices(w, u, x.v3, s[2 * n..3 * n], t[2 * n..3 * n]);
    } else {
      LaneNotices(w, u, x.v4, s[3 * n..], t[3 * n..]);
    }
  }

  /** A change inside one lane word leaves exactly one lane different after the last stripe. */
  lemma {:induction false} StripesNotice<W(!new)>(w: Word<W>, u: Undo<W>, v: Lanes<W>, a: seq<Byte>, b: seq<Byte>,
                                                  i: nat, p: nat)
    requires Lawful(w, u) && p <= |a| && ReadsInStripes(w, p, i) && DifferAt(a, b, i, w.lane)
    ensures OneLane(Stripes(w, v, a, p), Stripes(w, v, b, p))
    decreases p
  {
    var q := p - w.Stripe();
    if i < q {
      StripesNotice(w, u, v, a, b, i, q);
      LaterStripe(w, u, v, a, b, i, p);
    } else {
      SamePrefix(w, v, a, b, i, w.lane, q);
      DifferInStripe(a, b, i, w.lane, q, p);
      AbsorbNotices(w, u, Stripes(w, v, a, q), a[q..p], b[q..p], i - q);
    }
  }

  lemma LaterStripe<W(!new)>(w: Word<W>, u: Undo<W>, v: Lanes<W>, a: seq<Byte>, b: seq<Byte>, i: nat, p: nat)
    requires Lawful(w, u) && p <= |a| && DifferAt(a, b, i, w.lane)
    requires i < p - w.Stripe() && ReadsInStripes(w, p - w.Stripe(), i)
    requires OneLane(Stripes(w, v, a, p - w.Stripe()), Stripes(w, v, b, p - w.Stripe()))
    ensures OneLane(Stripes(w, v, a, p), Stripes(w, v, b, p))
  {
    var q := p - w.Stripe();
    LaneWordEnds(w, q, i);
    SameWithin(a, b, i, w.lane, q, p);
    assert Stripes(w, v, a, p) == Absorb(w, Stripes(w, v, a, q), a[q..p]);
    assert Stripes(w, v, b, p) == Absorb(w, Stripes(w, v, b, q), b[q..p]);
    assert w.Valid() && p - q == w.Stripe();
    hide DifferAt, Lawful, Stripes, Absorb, OneLane, ReadsInStripes;
    AbsorbKeeps(w, u, Stripes(w, v, a, q), Stripes(w, v, b, q), a[q..p]);
  }

  lemma DifferInStripe(a: seq<Byte>, b: seq<Byte>, i: nat, n: nat, lo: nat, hi: nat)
    requires DifferAt(a, b, i, n) && lo <= i && i + n <= hi <= |a|
    ensures DifferAt(a[lo..hi], b[lo..hi], i - lo, n)
  {
    DifferBefore(a, b, i, n, hi);
    DifferAfter(a[..hi], b[..hi], i, n, lo);
    assert a[..hi][lo..] == a[lo..hi] && b[..hi][lo..] == b[lo..hi];
  }

  lemma {:induction false} LaneWordEnds<W>(w: Word<W>, p: nat, i: nat)
    requires w.Valid() && ReadsInStripes(w, p, i)
    ensures i + w.lane <= p
    decreases p
  {
    if i < p - w.Stripe() {
      LaneWordEnds(w, p - w.Stripe(), i);
    }
  }

  /** Stripes before the change do not see it. */
  lemma SamePrefix<W>(w: Word<W>, v: Lanes<W>, a: seq<Byte>, b: seq<Byte>, i: nat, n: nat, p: nat)
    requires w.Valid() && DifferAt(a, b, i, n) && p <= i
    ensures Stripes(w, v, a, p) == Stripes(w, v, b, p)
  {
    assert a[..p] == b[..p];
    StripesPrefix(w, v, a[..p], a, p);
    StripesPrefix(w, v, a[..p], b, p);
  }

  lemma {:induction false} RotSumNotices<W(!new)>(w: Word<W>, u: Undo<W>, x: Lanes<W>, y: Lanes<W>)
    requires Lawful(w, u) && OneLane(x, y)
    ensures RotSum(w, x) != RotSum(w, y)
  {
    assert Rotation(1) && Rotation(7) && Rotation(12) && Rotation(18);
    assert u.rotl(w.rotl(x.v1, 1), 1) == x.v1 && u.rotl(w.rotl(y.v1, 1), 1) == y.v1;
    assert u.rotl(w.rotl(x.v2, 7), 7) == x.v2 && u.rotl(w.rotl(y.v2, 7), 7) == y.v2;
    assert u.rotl(w.rotl(x.v3, 12), 12) == x.v3 && u.rotl(w.rotl(y.v3, 12), 12) == y.v3;
    assert u.rotl(w.rotl(x.v4, 18), 18) == x.v4 && u.rotl(w.rotl(y.v4, 18), 18) == y.v4;
  }

  // ---- the theorems on whole inputs ----

  /** Either width: a change inside one word of the tail always changes the hash. */
  lemma {:induction false} TailChangeChangesHash<W(!new)>(w: Word<W>, u: Undo<W>, seed: W, a: seq<Byte>,
        b: seq<Byte>, i: nat, n: nat)
    requires Lawful(w, u) && DifferAt(a, b, i, n)
    requires i >= Whole(w, |a|) && ReadsInTail(w, |a| - Whole(w, |a|), i - Whole(w, |a|), n)
    ensures Hash(w, seed, a) != Hash(w, seed, b)
  {
    forall h: W
      ensures Ending(w, h, a[Whole(w, |a|)..]) != Ending(w, h, b[Whole(w, |a|)..])
    {
      EndingNotices(w, u, h, a, b, Whole(w, |a|), i, n);
    }
    SameBeforeTail(w, seed, a, b, i, n);
  }

  lemma SameBeforeTail<W(!new)>(w: Word<W>, seed: W, a: seq<Byte>, b: seq<Byte>, i: nat, n: nat)
    requires w.Valid() && DifferAt(a, b, i, n) && i >= Whole(w, |a|)
    requires forall h: W :: Ending(w, h, a[Whole(w, |a|)..]) != Ending(w, h, b[Whole(w, |a|)..])
    ensures Hash(w, seed, a) != Hash(w, seed, b)
  {
    SamePrefix(w, Start(w, seed), a, b, i, n, Whole(w, |a|));
  }

  /** 32 bits: a change inside one lane word always changes the hash. */
  lemma {:induction false} LaneChangeChangesHash32<W(!new)>(w: Word<W>, u: Undo<W>, seed: W, a: seq<Byte>,
        b: seq<Byte>, i: nat)
    requires Lawful(w, u) && w.lane == 4
    requires DifferAt(a, b, i, 4) && ReadsInStripes(w, Whole(w, |a|), i)
    ensures Hash(w, seed, a) != Hash(w, seed, b)
  {
    LaneChangeShows(w, u, seed, a, b, i);
    var p := Whole(w, |a|);
    assert Hash(w, seed, a) == Ending(w, BeforeTail(w, seed, a), a[p..]);
    assert Hash(w, seed, b) == Ending(w, BeforeTail(w, seed, b), b[p..]);
    hide Hash, Ending, BeforeTail, Lawful;
    if Hash(w, seed, a) == Hash(w, seed, b) {
      EndingInjective(w, u, BeforeTail(w, seed, a), BeforeTail(w, seed, b), a[p..]);
    }
  }

  /** The change is still there when the lanes have been put together, and the tails are the same. */
  lemma LaneChangeShows<W(!new)>(w: Word<W>, u: Undo<W>, seed: W, a: seq<Byte>, b: seq<Byte>, i: nat)
    requires Lawful(w, u) && w.lane == 4
    requires DifferAt(a, b, i, 4) && ReadsInStripes(w, Whole(w, |a|), i)
    ensures BeforeTail(w, seed, a) != BeforeTail(w, seed, b)
    ensures a[Whole(w, |a|)..] == b[Whole(w, |b|)..]
  {
    var p := Whole(w, |a|);
    assert w.Valid() && |a| == |b| && p <= |a|;
    hide Stripes, Lawful, BeforeTail, RotSum;
    LaneWordEnds(w, p, i);
    SameBehind(a, b, i, 4, p);
    assert |a| >= w.Stripe();
    hide ReadsInStripes, DifferAt;
    StripesNotice(w, u, Start(w, seed), a, b, i, p);
    RotSumNotices(w, u, Absorbed(w, seed, a), Absorbed(w, seed, b));
    BeforeTail32(w, seed, a);
    BeforeTail32(w, seed, b);
    AddInjective(w, u, RotSum(w, Absorbed(w, seed, a)), RotSum(w, Absorbed(w, seed, b)), w.ofNat(|a|));
  }

  lemma SameWithin(a: seq<Byte>, b: seq<Byte>, i: nat, n: nat, lo: nat, hi: nat)
    requires DifferAt(a, b, i, n) && i + n <= lo <= hi <= |a|
    ensures a[lo..hi] == b[lo..hi]
  {
  }

  lemma SameBehind(a: seq<Byte>, b: seq<Byte>, i: nat, n: nat, p: nat)
    requires DifferAt(a, b, i, n) && i + n <= p <= |a|
    ensures a[p..] == b[p..]
  {
  }

  lemma BeforeTail32<W>(w: Word<W>, seed: W, data: seq<Byte>)
    requires w.Valid() && w.lane == 4 && |data| >= w.Stripe()
    ensures BeforeTail(w, seed, data) == w.add(RotSum(w, Absorbed(w, seed, data)), w.ofNat(|data|))
  {
  }

  lemma AddInjective<W(!new)>(w: Word<W>, u: Undo<W>, x: W, y: W, n: W)
    requires Lawful(w, u) && x != y
    ensures w.add(x, n) != w.add(y, n)
  {
    assert u.add(w.add(x, n), n) == x && u.add(w.add(y, n), n) == y;
  }

  /** XXH32 never collides on inputs of one length that differ inside one word the code reads:
      an aligned 4-byte word, or one of the last `len % 4` bytes. */
  lemma {:induction false} SingleWordChangeChangesHash32<W(!new)>(w: Word<W>, u: Undo<W>, seed: W, a: seq<Byte>,
        b: seq<Byte>, i: nat, n: nat)
    requires Lawful(w, u) && w.lane == 4 && DifferAt(a, b, i, n)
    requires (n == 4 && i % 4 == 0) || (n == 1 && i >= |a| - |a| % 4)
    ensures Hash(w, seed, a) != Hash(w, seed, b)
  {
    ReadsEveryWord32(w, |a|, i, n);
    if i < Whole(w, |a|) {
      LaneChangeChangesHash32(w, u, seed, a, b, i);
    } else {
      TailChangeChangesHash(w, u, seed, a, b, i, n);
    }
  }

  /** The words the 32-bit code reads are the aligned 4-byte words and the bytes behind them. */
  lemma {:induction false} ReadsEveryWord32<W>(w: Word<W>, len: nat, i: nat, n: nat)
    requires w.lane == 4 && i + n <= len
    requires (n == 4 && i % 4 == 0) || (n == 1 && i >= len - len % 4)
    ensures var p := Whole(w, len);
      if i < p then n == 4 && ReadsInStripes(w, p, i) else ReadsInTail(w, len - p, i - p, n)
    decreases len
  {
    assert Whole(w, len) == if len < 16 then 0 else 16 + Whole(w, len - 16);
    hide Whole, ReadsInStripes, ReadsInTail;
    if len < 16 {
      TailReadsEveryWord32(w, len, i, n);
    } else if i >= 16 {
      SixteenLess(len, i);
      ReadsEveryWord32(w, len - 16, i - 16, n);
      if i < Whole(w, len) {
        ShiftStripes32(w, Whole(w, len) - 16, i - 16);
      }
    } else {
      FirstStripe32(w, Whole(w, len), i);
    }
  }

  lemma SixteenLess(len: nat, i: nat)
    requires i >= 16 && len >= 16
    ensures (i - 16) % 4 == i % 4 && (len - 16) % 4 == len % 4
  {
  }

  lemma {:induction false} TailReadsEveryWord32<W>(w: Word<W>, len: nat, i: nat, n: nat)
    requires w.lane == 4 && i + n <= len
    requires (n == 4 && i % 4 == 0) || (n == 1 && i >= len - len % 4)
    ensures ReadsInTail(w, len, i, n)
  {
    var c := ChunkLen(w, len);
    if i != 0 {
      TailReadsEveryWord32(w, len - c, i - c, n);
    }
  }

  lemma {:induction false} ShiftStripes32<W>(w: Word<W>, p: nat, i: nat)
    requires w.lane == 4 && ReadsInStripes(w, p, i)
    ensures ReadsInStripes(w, p + 16, i + 16)
    decreases p
  {
    if i < p - 16 {
      ShiftStripes32(w, p - 16, i);
    }
  }

  lemma {:induction false} FirstStripe32<W>(w: Word<W>, p: nat, i: nat)
    requires w.lane == 4 && IsWhole(w, p) && p >= 16 && i < 16 && i % 4 == 0
    ensures ReadsInStripes(w, p, i)
    decreases p
  {
    if p > 16 {
      FirstStripe32(w, p - 16, i);
    }
  }
}
