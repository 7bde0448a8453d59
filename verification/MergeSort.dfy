/** mergeSort of core/.../nvm/nvmExternalSorter.scala: the k-way merge over a heap of buffered iterators. */
module MergeSort {
  import opened Options

  /** What java.util.Comparator promises: a total preorder, with the sign telling which way. */
  ghost predicate Comparator<K(!new)>(cmp: (K, K) -> int) {
    && (forall a, b :: cmp(a, b) < 0 <==> cmp(b, a) > 0)
    && (forall a, b, c :: cmp(a, b) <= 0 && cmp(b, c) <= 0 ==> cmp(a, c) <= 0)
  }

  /** An order in which only equal keys compare as equal. */
  ghost predicate TotalOrder<K(!new)>(cmp: (K, K) -> int) {
    Comparator(cmp) && forall a, b :: cmp(a, b) == 0 ==> a == b
  }

  lemma BelowThenStrictly<K(!new)>(cmp: (K, K) -> int, a: K, b: K, c: K)
    requires Comparator(cmp)
    ensures cmp(a, b) <= 0 && cmp(b, c) < 0 ==> cmp(a, c) < 0
    ensures cmp(a, b) < 0 && cmp(b, c) <= 0 ==> cmp(a, c) < 0
  {
    assert cmp(c, a) <= 0 && cmp(a, b) <= 0 ==> cmp(c, b) <= 0;
    assert cmp(b, c) <= 0 && cmp(c, a) <= 0 ==> cmp(b, a) <= 0;
    assert cmp(a, c) < 0 <==> cmp(c, a) > 0;
  }

  /** The order used where none is given: by hash code, with 0 for null. */
  function HashCompare<K>(hash: K -> int, a: K, b: K): int {
    if hash(a) < hash(b) then -1 else if hash(a) == hash(b) then 0 else 1
  }

  /** It orders keys as their hash codes are; it is a comparator for any hash code, and a total order
      exactly for an injective one. */
  lemma HashCompares<K(!new)>(hash: K -> int)
    ensures forall a, b :: HashCompare(hash, a, b) < 0 <==> hash(a) < hash(b)
    ensures forall a, b :: HashCompare(hash, a, b) == 0 <==> hash(a) == hash(b)
    ensures Comparator((a, b) => HashCompare(hash, a, b))
    ensures TotalOrder((a, b) => HashCompare(hash, a, b)) <==> forall a, b :: hash(a) == hash(b) ==> a == b
  {
    var cmp := (a, b) => HashCompare(hash, a, b);
    if TotalOrder(cmp) {
      forall a, b | hash(a) == hash(b) ensures a == b {
        assert cmp(a, b) == 0;
      }
    }
  }

  ghost predicate Sorted<K(!new), C>(cmp: (K, K) -> int, s: seq<(K, C)>) {
    forall i, j :: 0 <= i < j < |s| ==> cmp(s[i].0, s[j].0) <= 0
  }

  lemma SortedCons<K(!new), C>(cmp: (K, K) -> int, p: (K, C), rest: seq<(K, C)>)
    requires Sorted(cmp, rest) && forall j :: 0 <= j < |rest| ==> cmp(p.0, rest[j].0) <= 0
    ensures Sorted(cmp, [p] + rest)
  {
  }

  // ---- the heap ----

  /** The iterators in the heap, each as what it has left; their order in it does not matter. */
  type Heap<K, C> = seq<seq<(K, C)>>

  ghost predicate AllSorted<K(!new), C>(cmp: (K, K) -> int, h: Heap<K, C>) {
    forall i :: 0 <= i < |h| ==> Sorted(cmp, h[i])
  }

  predicate AllNonEmpty<K, C>(h: Heap<K, C>) { forall i :: 0 <= i < |h| ==> |h[i]| > 0 }

  /** iterators.filter(_.hasNext) */
  function NonEmpty<K, C>(iters: seq<seq<(K, C)>>): (h: Heap<K, C>)
    ensures AllNonEmpty(h)
  {
    if iters == [] then []
    else if |iters[0]| > 0 then [iters[0]] + NonEmpty(iters[1..])
    else NonEmpty(iters[1..])
  }

  ghost function Contents<K, C>(h: Heap<K, C>): multiset<(K, C)> {
    if h == [] then multiset{} else multiset(h[0]) + Contents(h[1..])
  }

  function Left<K, C>(h: Heap<K, C>): nat { if h == [] then 0 else |h[0]| + Left(h[1..]) }

  /** A dequeue may return any iterator whose head no other head is below. */
  predicate Minimal<K, C>(cmp: (K, K) -> int, h: Heap<K, C>, i: nat)
    requires AllNonEmpty(h) && i < |h|
  {
    forall j :: 0 <= j < |h| ==> cmp(h[i][0].0, h[j][0].0) <= 0
  }

  function Without<K, C>(h: Heap<K, C>, i: nat): Heap<K, C>
    requires i < |h|
  {
    h[..i] + h[i + 1..]
  }

  /** Dequeue, take the head, and enqueue again unless that was the last. */
  function Advanced<K, C>(h: Heap<K, C>, i: nat): (r: Heap<K, C>)
    requires AllNonEmpty(h) && i < |h|
    ensures AllNonEmpty(r)
  {
    if |h[i]| > 1 then Without(h, i) + [h[i][1..]] else Without(h, i)
  }

  lemma SumAssociates<T>(x: multiset<T>, y: multiset<T>, z: multiset<T>)
    ensures x + y + z == x + (y + z) && x + y == y + x
  {
  }

  lemma HeadAndRest<T>(s: seq<T>)
    requires s != []
    ensures multiset(s) == multiset{s[0]} + multiset(s[1..])
  {
    assert s == [s[0]] + s[1..];
  }

  lemma AllButOne<T>(s: seq<T>, i: nat)
    requires i < |s|
    ensures multiset(s) == multiset{s[i]} + multiset(s[..i] + s[i + 1..])
  {
    assert s == s[..i] + [s[i]] + s[i + 1..];
  }

  lemma ContentsNone<K, C>()
    ensures Contents<K, C>([]) == multiset{} && Left<K, C>([]) == 0
  {
  }

  lemma ContentsCons<K, C>(s: seq<(K, C)>, h: Heap<K, C>)
    ensures Contents([s] + h) == multiset(s) + Contents(h) && Left([s] + h) == |s| + Left(h)
  {
    assert ([s] + h)[1..] == h;
  }

  lemma {:induction false} ContentsAppend<K, C>(a: Heap<K, C>, b: Heap<K, C>)
    ensures Contents(a + b) == Contents(a) + Contents(b) && Left(a + b) == Left(a) + Left(b)
  {
    if a == [] {
      assert a + b == b;
      assert Contents(a) == multiset{};
    } else {
      assert a == [a[0]] + a[1..] && a + b == [a[0]] + (a[1..] + b);
      ContentsAppend(a[1..], b);
      AppendToCons(a[0], a[1..], b);
    }
  }

  lemma AppendToCons<K, C>(s: seq<(K, C)>, a: Heap<K, C>, b: Heap<K, C>)
    requires Contents(a + b) == Contents(a) + Contents(b) && Left(a + b) == Left(a) + Left(b)
    ensures Contents([s] + (a + b)) == Contents([s] + a) + Contents(b) && Left([s] + (a + b)) == Left([s] + a) + Left(b)
  {
    hide Contents, Left;
    ContentsCons(s, a + b);
    ContentsCons(s, a);
    SumAssociates(multiset(s), Contents(a), Contents(b));
  }

  lemma ContentsOfOne<K, C>(s: seq<(K, C)>)
    ensures Contents([s]) == multiset(s) && Left([s]) == |s|
  {
    ContentsNone<K, C>();
    ContentsCons(s, []);
    assert [s] + [] == [s];
  }

  lemma ContentsWithout<K, C>(h: Heap<K, C>, i: nat)
    requires i < |h|
    ensures Contents(h) == Contents(Without(h, i)) + multiset(h[i]) && Left(h) == Left(Without(h, i)) + |h[i]|
  {
    hide Contents, Left;
    var a, b := h[..i], h[i + 1..];
    assert h == a + ([h[i]] + b);
    ContentsAppend(a, [h[i]] + b);
    ContentsCons(h[i], b);
    ContentsAppend(a, b);
    SumAssociates(multiset(h[i]), Contents(b), Contents(a));
    SumAssociates(Contents(a), Contents(b), multiset(h[i]));
  }

  /** One step takes exactly the head it returns. */
  lemma AdvancedTakesHead<K, C>(h: Heap<K, C>, i: nat)
    requires AllNonEmpty(h) && i < |h|
    ensures Contents(h) == multiset{h[i][0]} + Contents(Advanced(h, i)) && Left(h) == 1 + Left(Advanced(h, i))
  {
    hide Contents, Left;
    ContentsWithout(h, i);
    HeadAndRest(h[i]);
    ContentsAppend(Without(h, i), [h[i][1..]]);
    ContentsOfOne(h[i][1..]);
    SumAssociates(multiset{h[i][0]}, Contents(Without(h, i)), multiset(h[i][1..]));
    SumAssociates(Contents(Without(h, i)), multiset{h[i][0]}, multiset(h[i][1..]));
  }

  lemma AdvancedSorted<K(!new), C>(cmp: (K, K) -> int, h: Heap<K, C>, i: nat)
    requires AllNonEmpty(h) && i < |h| && AllSorted(cmp, h)
    ensures AllSorted(cmp, Advanced(h, i))
  {
    assert Sorted(cmp, h[i]) && Sorted(cmp, h[i][1..]);
  }

  lemma {:induction false} InContents<K, C>(h: Heap<K, C>, x: (K, C))
    requires x in Contents(h)
    ensures exists i :: 0 <= i < |h| && x in h[i]
  {
    if x in h[0] {
    } else {
      InContents(h[1..], x);
      var i :| 0 <= i < |h[1..]| && x in h[1..][i];
      assert x in h[i + 1];
    }
  }

  /** In a heap of sorted iterators nothing is below a minimal head. */
  lemma MinimalIsLeast<K(!new), C>(cmp: (K, K) -> int, h: Heap<K, C>, i: nat, x: (K, C))
    requires Comparator(cmp) && AllNonEmpty(h) && AllSorted(cmp, h) && i < |h| && Minimal(cmp, h, i)
    requires x in Contents(h)
    ensures cmp(h[i][0].0, x.0) <= 0
  {
    InContents(h, x);
    var j :| 0 <= j < |h| && x in h[j];
    var n :| 0 <= n < |h[j]| && h[j][n] == x;
    assert Sorted(cmp, h[j]) && cmp(h[j][0].0, h[j][n].0) <= 0;
    assert cmp(h[i][0].0, h[j][0].0) <= 0;
  }

  /** A dequeue finds something in every heap that is not empty. */
  lemma {:induction false} MinimalExists<K(!new), C>(cmp: (K, K) -> int, h: Heap<K, C>)
    requires Comparator(cmp) && AllNonEmpty(h) && h != []
    ensures exists i: nat :: i < |h| && Minimal(cmp, h, i)
  {
    if |h| == 1 {
      assert Minimal(cmp, h, 0);
    } else {
      var last, front := |h| - 1, h[..|h| - 1];
      MinimalExists(cmp, front);
      var i: nat :| i < |front| && Minimal(cmp, front, i);
      if cmp(h[i][0].0, h[last][0].0) <= 0 {
        assert Minimal(cmp, h, i);
      } else {
        forall j | 0 <= j < |h| ensures cmp(h[last][0].0, h[j][0].0) <= 0 {
          assert j < last ==> front[j] == h[j];
        }
        assert Minimal(cmp, h, last);
      }
    }
  }

  // ---- runs of the merge ----

  /** After delivering `out` the heap may have become `now`, with ties broken in any way. */
  ghost predicate Reaches<K(!new), C(!new)>(cmp: (K, K) -> int, h: Heap<K, C>, out: seq<(K, C)>, now: Heap<K, C>)
    requires AllNonEmpty(h)
    ensures Reaches(cmp, h, out, now) ==> AllNonEmpty(now)
    decreases |out|
  {
    if out == [] then now == h
    else
      var front, p := out[..|out| - 1], out[|out| - 1];
      exists before: Heap<K, C>, i: nat :: Reaches(cmp, h, front, before) && Steps(cmp, before, i, p, now)
  }

  predicate Steps<K(==), C(==)>(cmp: (K, K) -> int, h: Heap<K, C>, i: nat, p: (K, C), now: Heap<K, C>)
    requires AllNonEmpty(h)
  {
    i < |h| && Minimal(cmp, h, i) && p == h[i][0] && now == Advanced(h, i)
  }

  lemma ReachesSnoc<K(!new), C(!new)>(cmp: (K, K) -> int, h: Heap<K, C>, out: seq<(K, C)>, before: Heap<K, C>,
                                     i: nat, p: (K, C), now: Heap<K, C>)
    requires AllNonEmpty(h) && Reaches(cmp, h, out, before) && Steps(cmp, before, i, p, now)
    ensures Reaches(cmp, h, out + [p], now)
  {
    var all := out + [p];
    assert all[..|all| - 1] == out && all[|all| - 1] == p;
  }

  /** Nothing in `out` is above `x`. */
  ghost predicate Above<K(!new), C>(cmp: (K, K) -> int, out: seq<(K, C)>, x: (K, C)) {
    forall i :: 0 <= i < |out| ==> cmp(out[i].0, x.0) <= 0
  }

  lemma AboveSnoc<K(!new), C>(cmp: (K, K) -> int, out: seq<(K, C)>, p: (K, C), x: (K, C))
    requires Above(cmp, out, x) && cmp(p.0, x.0) <= 0
    ensures Above(cmp, out + [p], x)
  {
  }

  lemma SortedSnoc<K(!new), C>(cmp: (K, K) -> int, out: seq<(K, C)>, p: (K, C))
    requires Sorted(cmp, out) && Above(cmp, out, p)
    ensures Sorted(cmp, out + [p])
  {
  }

  /** What holds at every moment of a merge: what was delivered is sorted, and nothing that is left
      belongs before any of it; and nothing was lost or made up. */
  ghost predicate Merging<K(!new), C(!new)>(cmp: (K, K) -> int, h: Heap<K, C>, out: seq<(K, C)>, now: Heap<K, C>) {
    && AllSorted(cmp, now) && Sorted(cmp, out) && (forall x :: x in Contents(now) ==> Above(cmp, out, x))
    && multiset(out) + Contents(now) == Contents(h) && |out| + Left(now) == Left(h)
  }

  lemma StepKeepsMerging<K(!new), C(!new)>(cmp: (K, K) -> int, h: Heap<K, C>, out: seq<(K, C)>, before: Heap<K, C>,
                                          i: nat, p: (K, C), now: Heap<K, C>)
    requires Comparator(cmp) && AllNonEmpty(before) && Merging(cmp, h, out, before) && Steps(cmp, before, i, p, now)
    ensures Merging(cmp, h, out + [p], now)
  {
    hide Contents, Left, Minimal, Sorted, AllSorted, Comparator, Above;
    AdvancedTakesHead(before, i);
    AdvancedSorted(cmp, before, i);
    assert p in Contents(before);
    SortedSnoc(cmp, out, p);
    SumAssociates(multiset(out), multiset{p}, Contents(now));
    forall x | x in Contents(now) ensures Above(cmp, out + [p], x) {
      assert x in Contents(before);
      MinimalIsLeast(cmp, before, i, x);
      AboveSnoc(cmp, out, p, x);
    }
  }

  lemma MergingStarts<K(!new), C(!new)>(cmp: (K, K) -> int, h: Heap<K, C>)
    requires AllSorted(cmp, h)
    ensures Merging(cmp, h, [], h)
  {
    var none: seq<(K, C)> := [];
    assert multiset(none) + Contents(h) == Contents(h);
  }

  lemma {:induction false} ReachesMerging<K(!new), C(!new)>(cmp: (K, K) -> int, h: Heap<K, C>, out: seq<(K, C)>,
        now: Heap<K, C>)
    requires Comparator(cmp) && AllNonEmpty(h) && AllSorted(cmp, h) && Reaches(cmp, h, out, now)
    ensures Merging(cmp, h, out, now)
    decreases |out|
  {
    hide Merging, Contents, Left, AllSorted, Comparator, Steps;
    if out == [] {
      MergingStarts(cmp, h);
    } else {
      var front, p := out[..|out| - 1], out[|out| - 1];
      var before: Heap<K, C>, i: nat :| Reaches(cmp, h, front, before) && Steps(cmp, before, i, p, now);
      ReachesMerging(cmp, h, front, before);
      StepKeepsMerging(cmp, h, front, before, i, p, now);
      assert out == front + [p];
    }
  }

  /** `out` is what the whole iterator may deliver. */
  ghost predicate MergesTo<K(!new), C(!new)>(cmp: (K, K) -> int, h: Heap<K, C>, out: seq<(K, C)>)
    requires AllNonEmpty(h)
  {
    Reaches(cmp, h, out, [])
  }

  /** Any merge of sorted iterators is sorted and delivers exactly their elements. */
  lemma MergeIsSortedUnion<K(!new), C(!new)>(cmp: (K, K) -> int, h: Heap<K, C>, out: seq<(K, C)>)
    requires Comparator(cmp) && AllNonEmpty(h) && AllSorted(cmp, h) && MergesTo(cmp, h, out)
    ensures Sorted(cmp, out) && multiset(out) == Contents(h) && |out| == Left(h)
  {
    ReachesMerging(cmp, h, out, []);
    assert Contents<K, C>([]) == multiset{};
  }

  /** Leaving out the empty iterators loses nothing. */
  lemma {:induction false} NonEmptyKeeps<K, C>(iters: seq<seq<(K, C)>>)
    ensures Contents(NonEmpty(iters)) == Contents(iters) && Left(NonEmpty(iters)) == Left(iters)
    ensures forall s :: s in NonEmpty(iters) ==> s in iters
  {
    if iters != [] {
      hide Contents, Left;
      var first, rest := iters[0], iters[1..];
      NonEmptyKeeps(rest);
      assert iters == [first] + rest;
      ContentsCons(first, rest);
      if |first| > 0 {
        ContentsCons(first, NonEmpty(rest));
      } else {
        assert multiset(first) + Contents(rest) == Contents(rest);
      }
    }
  }

  /** mergeSort of any number of sorted iterators, however ties are broken. */
  lemma KWayMerge<K(!new), C(!new)>(cmp: (K, K) -> int, iterators: seq<seq<(K, C)>>, out: seq<(K, C)>)
    requires Comparator(cmp) && AllSorted(cmp, iterators) && MergesTo(cmp, NonEmpty(iterators), out)
    ensures Sorted(cmp, out) && multiset(out) == Contents(iterators)
  {
    NonEmptyKeeps(iterators);
    NonEmptySorted(cmp, iterators);
    MergeIsSortedUnion(cmp, NonEmpty(iterators), out);
  }

  lemma NonEmptySorted<K(!new), C>(cmp: (K, K) -> int, iters: seq<seq<(K, C)>>)
    requires AllSorted(cmp, iters)
    ensures AllSorted(cmp, NonEmpty(iters))
  {
    NonEmptyKeeps(iters);
    forall i | 0 <= i < |NonEmpty(iters)| ensures Sorted(cmp, NonEmpty(iters)[i]) {
      assert NonEmpty(iters)[i] in iters;
    }
  }

  // ---- the iterator ----

  class Merger<K(!new), C(!new)> {
    const cmp: (K, K) -> int
    var heap: Heap<K, C>

    predicate Valid()
      reads this
    {
      AllNonEmpty(heap)
    }

    constructor (iterators: seq<seq<(K, C)>>, cmp: (K, K) -> int)
      ensures Valid() && heap == NonEmpty(iterators) && this.cmp == cmp
    {
      heap, this.cmp := NonEmpty(iterators), cmp;
    }

    predicate HasNext()
      reads this
    {
      heap != []
    }

    /** None is where the source throws NoSuchElementException. */
    method Next() returns (pair: Option<(K, C)>, ghost i: nat)
      requires Valid() && Comparator(cmp)
      modifies this
      ensures Valid() && (pair == None <==> old(heap) == [])
      ensures pair == None ==> heap == []
      ensures pair != None ==>
        i < |old(heap)| && Minimal(cmp, old(heap), i) && pair.value == old(heap)[i][0] && heap == Advanced(old(heap), i)
    {
      i := 0;
      if !HasNext() {
        return None, 0;
      }
      MinimalExists(cmp, heap);
      var n: nat :| n < |heap| && Minimal(cmp, heap, n);
      i := n;
      var firstBuf := heap[n];
      heap := Without(heap, n);
      var firstPair, rest := firstBuf[0], firstBuf[1..];
      if |rest| > 0 {
        heap := heap + [rest];
      }
      pair := Some(firstPair);
    }

    /** The iterator, run to its end. */
    method Drain() returns (out: seq<(K, C)>)
      requires Valid() && Comparator(cmp)
      modifies this
      ensures Valid() && heap == [] && MergesTo(cmp, old(heap), out)
    {
      out := [];
      while HasNext()
        invariant Valid() && Reaches(cmp, old(heap), out, heap)
        decreases Left(heap)
      {
        ghost var before := heap;
        var pair, i := Next();
        AdvancedTakesHead(before, i);
        ReachesSnoc(cmp, old(heap), out, before, i, pair.value, heap);
        out := out + [pair.value];
      }
    }
  }
}
