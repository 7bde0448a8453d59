/** mergeWithAggregation of core/.../nvm/nvmExternalSorter.scala: one pass over sorted pairs that
    merges the combiners of each key. */
module MergeAggregation {
  import opened Aggregation
  import opened MergeSort
  import opened Options

  /** `r` has every key of `ps` once, with the total of its combiners, and no other key. */
  ghost predicate Aggregates<K(!new), C>(merge: (C, C) -> C, ps: seq<(K, C)>, r: seq<(K, C)>) {
    DistinctKeys(r) && forall k :: SameTotal(merge, ps, r, k)
  }

  predicate SameTotal<K(==), C(==)>(merge: (C, C) -> C, ps: seq<(K, C)>, r: seq<(K, C)>, k: K) {
    Total(merge, r, k) == Total(merge, ps, k)
  }

  /** So a pair is in `r` exactly when it is a key with its total. */
  lemma AggregatesIn<K(!new), C>(merge: (C, C) -> C, ps: seq<(K, C)>, r: seq<(K, C)>, k: K, c: C)
    requires Aggregates(merge, ps, r)
    ensures (k, c) in r <==> Total(merge, ps, k) == Some(c)
  {
    assert SameTotal(merge, ps, r, k);
    TotalIffIn(merge, r, k, c);
  }

  /** A key that occurs in only one of two parts has its total from that part. */
  lemma {:induction false} TotalOfPart<K, C>(merge: (C, C) -> C, ps: seq<(K, C)>, qs: seq<(K, C)>, k: K)
    ensures !Occurs(ps, k) ==> Total(merge, ps + qs, k) == Total(merge, qs, k)
    ensures !Occurs(qs, k) ==> Total(merge, ps + qs, k) == Total(merge, ps, k)
  {
    TotalIffOccurs(merge, ps, k);
    TotalIffOccurs(merge, qs, k);
    if qs == [] {
      assert ps + qs == ps;
    } else {
      var front, q := qs[..|qs| - 1], qs[|qs| - 1];
      TotalOfPart(merge, ps, front, k);
      assert ps + qs == ps + front + [q];
      TotalSnoc(merge, ps + front, q, k);
      assert Occurs(front, k) ==> Occurs(qs, k) by {
        if Occurs(front, k) {
          var i :| 0 <= i < |front| && front[i].0 == k;
          assert qs[i].0 == k;
        }
      }
      assert q.0 == k ==> Occurs(qs, k);
    }
  }

  // ---- one group: linear search over the keys seen so far ----

  /** The first position of the key, or the number of keys. */
  function Find<K(==), C>(r: seq<(K, C)>, k: K): (i: nat)
    ensures i <= |r| && (i < |r| ==> r[i].0 == k)
    ensures forall j :: 0 <= j < i ==> r[j].0 != k
  {
    if r == [] then 0 else if r[0].0 == k then 0 else 1 + Find(r[1..], k)
  }

  function Absorbed<K(==), C>(merge: (C, C) -> C, r: seq<(K, C)>, p: (K, C)): seq<(K, C)> {
    var i := Find(r, p.0);
    if i < |r| then r[i := (p.0, merge(r[i].1, p.1))] else r + [p]
  }

  function Grouped<K(==), C>(merge: (C, C) -> C, ps: seq<(K, C)>): seq<(K, C)> {
    if ps == [] then [] else Absorbed(merge, Grouped(merge, ps[..|ps| - 1]), ps[|ps| - 1])
  }

  /** Replacing a combiner replaces the total of its key, and no other. */
  lemma TotalOfUpdate<K, C>(merge: (C, C) -> C, r: seq<(K, C)>, i: nat, c: C, k: K)
    requires DistinctKeys(r) && i < |r|
    ensures DistinctKeys(r[i := (r[i].0, c)])
    ensures Total(merge, r[i := (r[i].0, c)], k) == if k == r[i].0 then Some(c) else Total(merge, r, k)
  {
    var r' := r[i := (r[i].0, c)];
    TotalIffOccurs(merge, r, k);
    TotalIffOccurs(merge, r', k);
    assert Occurs(r', k) ==> Occurs(r, k) by {
      if Occurs(r', k) {
        var j :| 0 <= j < |r'| && r'[j].0 == k;
        assert r[j].0 == k;
      }
    }
    if k == r[i].0 {
      TotalOfDistinct(merge, r', i);
    } else if Occurs(r, k) {
      var j :| 0 <= j < |r| && r[j].0 == k;
      assert r'[j] == r[j];
      TotalOfDistinct(merge, r, j);
      TotalOfDistinct(merge, r', j);
    }
  }

  lemma AbsorbedKeeps<K(!new), C>(merge: (C, C) -> C, ps: seq<(K, C)>, r: seq<(K, C)>, p: (K, C))
    requires Aggregates(merge, ps, r)
    ensures Aggregates(merge, ps + [p], Absorbed(merge, r, p))
  {
    var i, r' := Find(r, p.0), Absorbed(merge, r, p);
    assert DistinctKeys(r') by {
      if i < |r| {
        TotalOfUpdate(merge, r, i, merge(r[i].1, p.1), p.0);
      }
    }
    forall k ensures SameTotal(merge, ps + [p], r', k) {
      assert SameTotal(merge, ps, r, k);
      TotalSnoc(merge, ps, p, k);
      if i < |r| {
        TotalOfDistinct(merge, r, i);
        TotalOfUpdate(merge, r, i, merge(r[i].1, p.1), k);
      } else {
        TotalSnoc(merge, r, p, k);
      }
    }
  }

  /** The linear search groups exactly: distinct keys with equal hash codes stay apart. */
  lemma {:induction false} GroupedAggregates<K(!new), C>(merge: (C, C) -> C, ps: seq<(K, C)>)
    ensures Aggregates(merge, ps, Grouped(merge, ps))
  {
    if ps == [] {
      assert forall k :: SameTotal(merge, ps, Grouped(merge, ps), k);
    } else {
      var front, p := ps[..|ps| - 1], ps[|ps| - 1];
      GroupedAggregates(merge, front);
      AbsorbedKeeps(merge, front, Grouped(merge, front), p);
      assert front + [p] == ps;
    }
  }

  // ---- the partial order ----

  /** How many pairs at the front compare as equal to `key`. */
  function Ties<K, C>(cmp: (K, K) -> int, key: K, s: seq<(K, C)>): (n: nat)
    ensures n <= |s| && (forall i :: 0 <= i < n ==> cmp(s[i].0, key) == 0)
    ensures n < |s| ==> cmp(s[n].0, key) != 0
  {
    if s == [] || cmp(s[0].0, key) != 0 then 0 else 1 + Ties(cmp, key, s[1..])
  }

  /** The pairs of the next group: the first, and those that tie with it. */
  function GroupSize<K, C>(cmp: (K, K) -> int, s: seq<(K, C)>): (n: nat)
    requires s != []
    ensures 1 <= n <= |s|
  {
    1 + Ties(cmp, s[0].0, s[1..])
  }

  function PartialMerge<K(==), C>(cmp: (K, K) -> int, merge: (C, C) -> C, s: seq<(K, C)>): seq<(K, C)> {
    if s == [] then []
    else Grouped(merge, s[..GroupSize(cmp, s)]) + PartialMerge(cmp, merge, s[GroupSize(cmp, s)..])
  }

  lemma PartialMergeStep<K, C>(cmp: (K, K) -> int, merge: (C, C) -> C, s: seq<(K, C)>, n: nat)
    requires s != [] && n == GroupSize(cmp, s)
    ensures PartialMerge(cmp, merge, s) == Grouped(merge, s[..n]) + PartialMerge(cmp, merge, s[n..])
    ensures s[..n] + s[n..] == s
  {
    SplitJoins(s, n);
    assert PartialMerge(cmp, merge, s) == Grouped(merge, s[..n]) + PartialMerge(cmp, merge, s[n..]);
    hide PartialMerge, Grouped, GroupSize;
  }

  lemma SplitJoins<T>(s: seq<T>, n: nat)
    requires n <= |s|
    ensures s[..n] + s[n..] == s
  {
  }

  /** In sorted pairs, no key of a group comes again behind it, nor ties with anything behind it. */
  lemma GroupIsApart<K(!new), C>(cmp: (K, K) -> int, s: seq<(K, C)>, i: nat, j: nat)
    requires Comparator(cmp) && Sorted(cmp, s) && s != []
    requires i < GroupSize(cmp, s) <= j < |s|
    ensures cmp(s[i].0, s[0].0) == 0 && cmp(s[i].0, s[j].0) < 0
  {
    var n, key := GroupSize(cmp, s), s[0].0;
    assert cmp(key, key) == 0;
    assert i > 0 ==> s[1..][i - 1] == s[i];
    assert s[1..][n - 1] == s[n];
    assert cmp(key, s[n].0) <= 0 && cmp(s[n].0, key) != 0;
    assert n < j ==> cmp(s[n].0, s[j].0) <= 0;
    BelowThenStrictly(cmp, key, s[n].0, s[j].0);
    BelowThenStrictly(cmp, s[i].0, key, s[j].0);
  }

  /** Two parts whose keys differ may be aggregated one after the other. */
  lemma AggregatesParts<K(!new), C>(merge: (C, C) -> C, ps: seq<(K, C)>, r: seq<(K, C)>, qs: seq<(K, C)>,
        t: seq<(K, C)>)
    requires Aggregates(merge, ps, r) && Aggregates(merge, qs, t)
    requires forall k :: Apart(ps, qs, k)
    ensures Aggregates(merge, ps + qs, r + t)
  {
    forall k ensures SameTotal(merge, ps + qs, r + t, k) && Apart(r, t, k) {
      assert Apart(ps, qs, k) && SameTotal(merge, ps, r, k) && SameTotal(merge, qs, t, k);
      TotalIffOccurs(merge, ps, k);
      TotalIffOccurs(merge, qs, k);
      TotalIffOccurs(merge, r, k);
      TotalIffOccurs(merge, t, k);
      TotalOfPart(merge, ps, qs, k);
      TotalOfPart(merge, r, t, k);
    }
    forall i, j | 0 <= i < j < |r + t| ensures (r + t)[i].0 != (r + t)[j].0 {
      if i < |r| <= j {
        assert Apart(r, t, r[i].0) && t[j - |r|] == (r + t)[j];
      }
    }
  }

  predicate Apart<K(==), C>(ps: seq<(K, C)>, qs: seq<(K, C)>, k: K) { !(Occurs(ps, k) && Occurs(qs, k)) }

  lemma GroupApartFromRest<K(!new), C>(cmp: (K, K) -> int, s: seq<(K, C)>, k: K)
    requires Comparator(cmp) && Sorted(cmp, s) && s != []
    ensures Apart(s[..GroupSize(cmp, s)], s[GroupSize(cmp, s)..], k)
  {
    var n := GroupSize(cmp, s);
    if Occurs(s[..n], k) {
      var i :| 0 <= i < n && s[..n][i].0 == k;
      assert cmp(k, k) == 0;
      hide Comparator, Sorted, GroupSize;
      forall j | 0 <= j < |s[n..]| ensures s[n..][j].0 != k {
        GroupIsApart(cmp, s, i, n + j);
      }
    }
  }

  lemma AggregatesNone<K(!new), C>(merge: (C, C) -> C)
    ensures Aggregates<K, C>(merge, [], [])
  {
    var none: seq<(K, C)> := [];
    assert forall k :: SameTotal(merge, none, none, k);
  }

  lemma SortedFrom<K(!new), C>(cmp: (K, K) -> int, s: seq<(K, C)>, n: nat)
    requires Sorted(cmp, s) && n <= |s|
    ensures Sorted(cmp, s[n..])
  {
  }

  /** Keys ordered only up to ties: each distinct key once, with the total of all its combiners. */
  lemma {:induction false} PartialMergeAggregates<K(!new), C>(cmp: (K, K) -> int, merge: (C, C) -> C, s: seq<(K, C)>)
    requires Comparator(cmp) && Sorted(cmp, s)
    ensures Aggregates(merge, s, PartialMerge(cmp, merge, s))
    decreases |s|
  {
    if s == [] {
      AggregatesNone<K, C>(merge);
    } else {
      var n := GroupSize(cmp, s);
      SortedFrom(cmp, s, n);
      PartialMergeStep(cmp, merge, s, n);
      hide Aggregates, SameTotal, Grouped, Total, Apart, Sorted, Comparator, GroupSize, PartialMerge;
      GroupedAggregates(merge, s[..n]);
      PartialMergeAggregates(cmp, merge, s[n..]);
      forall k ensures Apart(s[..n], s[n..], k) {
        GroupApartFromRest(cmp, s, k);
      }
      AggregatesParts(merge, s[..n], Grouped(merge, s[..n]), s[n..], PartialMerge(cmp, merge, s[n..]));
    }
  }

  // ---- the total order ----

  /** How many pairs at the front have this very key. */
  function Same<K(==), C>(key: K, s: seq<(K, C)>): (n: nat)
    ensures n <= |s| && (forall i :: 0 <= i < n ==> s[i].0 == key)
    ensures n < |s| ==> s[n].0 != key
  {
    if s == [] || s[0].0 != key then 0 else 1 + Same(key, s[1..])
  }

  /** `c` merged with the combiners of `ps`, from left to right. */
  function Folded<K, C>(merge: (C, C) -> C, c: C, ps: seq<(K, C)>): C {
    if ps == [] then c else merge(Folded(merge, c, ps[..|ps| - 1]), ps[|ps| - 1].1)
  }

  function TotalMerge<K(==), C>(merge: (C, C) -> C, s: seq<(K, C)>): seq<(K, C)> {
    if s == [] then []
    else
      var n := Same(s[0].0, s[1..]);
      [(s[0].0, Folded(merge, s[0].1, s[1..1 + n]))] + TotalMerge(merge, s[1 + n..])
  }

  lemma TotalMergeStep<K, C>(merge: (C, C) -> C, s: seq<(K, C)>, n: nat)
    requires s != [] && n == Same(s[0].0, s[1..])
    ensures TotalMerge(merge, s) == [(s[0].0, Folded(merge, s[0].1, s[1..1 + n]))] + TotalMerge(merge, s[1 + n..])
  {
  }

  /** With one key, grouping is folding. */
  lemma {:induction false} GroupedIsFolded<K, C>(merge: (C, C) -> C, p: (K, C), ps: seq<(K, C)>)
    requires forall i :: 0 <= i < |ps| ==> ps[i].0 == p.0
    ensures Grouped(merge, [p] + ps) == [(p.0, Folded(merge, p.1, ps))]
  {
    if ps == [] {
      assert Grouped(merge, [p]) == Absorbed(merge, Grouped(merge, []), p);
      assert [p] + ps == [p];
    } else {
      var front, q := ps[..|ps| - 1], ps[|ps| - 1];
      GroupedIsFolded(merge, p, front);
      assert ([p] + ps)[..|ps|] == [p] + front;
      assert Find([(p.0, Folded(merge, p.1, front))], q.0) == 0;
    }
  }

  lemma {:induction false} SameIsTies<K(!new), C>(cmp: (K, K) -> int, key: K, s: seq<(K, C)>)
    requires TotalOrder(cmp)
    ensures Same(key, s) == Ties(cmp, key, s)
  {
    if s != [] {
      assert cmp(s[0].0, key) == 0 <==> s[0].0 == key by {
        assert cmp(key, key) == 0;
      }
      SameIsTies(cmp, key, s[1..]);
    }
  }

  /** In a total order both branches deliver the same pairs. */
  lemma {:induction false} BranchesAgree<K(!new), C>(cmp: (K, K) -> int, merge: (C, C) -> C, s: seq<(K, C)>)
    requires TotalOrder(cmp)
    ensures TotalMerge(merge, s) == PartialMerge(cmp, merge, s)
    decreases |s|
  {
    if s != [] {
      var n := Same(s[0].0, s[1..]);
      SameIsTies(cmp, s[0].0, s[1..]);
      TotalMergeStep(merge, s, n);
      PartialMergeStep(cmp, merge, s, 1 + n);
      RunIsFolded(merge, s, n);
      hide TotalMerge, PartialMerge, Same, Ties, TotalOrder, Grouped, Folded;
      BranchesAgree(cmp, merge, s[1 + n..]);
    }
  }

  lemma RunIsFolded<K, C>(merge: (C, C) -> C, s: seq<(K, C)>, n: nat)
    requires s != [] && n == Same(s[0].0, s[1..])
    ensures Grouped(merge, s[..1 + n]) == [(s[0].0, Folded(merge, s[0].1, s[1..1 + n]))]
  {
    GroupedIsFolded(merge, s[0], s[1..1 + n]);
    assert [s[0]] + s[1..1 + n] == s[..1 + n];
  }

  ghost predicate StrictlyIncreasing<K(!new), C>(cmp: (K, K) -> int, r: seq<(K, C)>) {
    forall i, j :: 0 <= i < j < |r| ==> cmp(r[i].0, r[j].0) < 0
  }

  lemma {:induction false} TotalMergeKeys<K(!new), C>(merge: (C, C) -> C, s: seq<(K, C)>, i: nat)
    requires i < |TotalMerge(merge, s)|
    ensures exists j :: 0 <= j < |s| && s[j].0 == TotalMerge(merge, s)[i].0
    decreases |s|
  {
    var n := Same(s[0].0, s[1..]);
    if i > 0 {
      TotalMergeKeys(merge, s[1 + n..], i - 1);
      var j :| 0 <= j < |s[1 + n..]| && s[1 + n..][j].0 == TotalMerge(merge, s)[i].0;
      assert s[1 + n + j].0 == TotalMerge(merge, s)[i].0;
    }
  }

  /** In a total order the keys come out strictly increasing, each with its total. */
  lemma {:induction false} TotalMergeIncreases<K(!new), C>(cmp: (K, K) -> int, merge: (C, C) -> C, s: seq<(K, C)>)
    requires TotalOrder(cmp) && Sorted(cmp, s)
    ensures StrictlyIncreasing(cmp, TotalMerge(merge, s))
    decreases |s|
  {
    if s != [] {
      var n := Same(s[0].0, s[1..]);
      SortedFrom(cmp, s, 1 + n);
      TotalMergeStep(merge, s, n);
      hide TotalMerge, Same, StrictlyIncreasing, Sorted;
      TotalMergeIncreases(cmp, merge, s[1 + n..]);
      FirstIsBelow(cmp, merge, s, n);
      IncreasesCons(cmp, (s[0].0, Folded(merge, s[0].1, s[1..1 + n])), TotalMerge(merge, s[1 + n..]));
    }
  }

  lemma FirstIsBelow<K(!new), C>(cmp: (K, K) -> int, merge: (C, C) -> C, s: seq<(K, C)>, n: nat)
    requires TotalOrder(cmp) && Sorted(cmp, s) && s != [] && n == Same(s[0].0, s[1..])
    ensures var rest := TotalMerge(merge, s[1 + n..]);
      forall j :: 0 <= j < |rest| ==> cmp(s[0].0, rest[j].0) < 0
  {
    var rest := TotalMerge(merge, s[1 + n..]);
    SameIsTies(cmp, s[0].0, s[1..]);
    assert GroupSize(cmp, s) == 1 + n;
    hide TotalMerge, Same, Ties, GroupSize;
    forall j | 0 <= j < |rest| ensures cmp(s[0].0, rest[j].0) < 0 {
      TotalMergeKeys(merge, s[1 + n..], j);
      var m :| 0 <= m < |s[1 + n..]| && s[1 + n..][m].0 == rest[j].0;
      assert s[1 + n..][m] == s[1 + n + m];
      GroupIsApart(cmp, s, 0, 1 + n + m);
    }
  }

  lemma IncreasesCons<K(!new), C>(cmp: (K, K) -> int, p: (K, C), rest: seq<(K, C)>)
    requires StrictlyIncreasing(cmp, rest) && forall j :: 0 <= j < |rest| ==> cmp(p.0, rest[j].0) < 0
    ensures StrictlyIncreasing(cmp, [p] + rest)
  {
  }

  lemma TotalMergeAggregates<K(!new), C>(cmp: (K, K) -> int, merge: (C, C) -> C, s: seq<(K, C)>)
    requires TotalOrder(cmp) && Sorted(cmp, s)
    ensures Aggregates(merge, s, TotalMerge(merge, s)) && StrictlyIncreasing(cmp, TotalMerge(merge, s))
  {
    BranchesAgree(cmp, merge, s);
    PartialMergeAggregates(cmp, merge, s);
    TotalMergeIncreases(cmp, merge, s);
  }

  /** The total-order branch delivers every key once, whatever sorted pairs it is given, exactly when
      only equal keys compare as equal; else it repeats the first of a, b, a. */
  lemma TotalMergeNeedsTotalOrder<K(!new), C(!new)>(cmp: (K, K) -> int, merge: (C, C) -> C, c: C)
    requires Comparator(cmp)
    ensures TotalOrder(cmp) <==> forall s: seq<(K, C)> :: Sorted(cmp, s) ==> DistinctKeys(TotalMerge(merge, s))
  {
    if TotalOrder(cmp) {
      forall s: seq<(K, C)> | Sorted(cmp, s) ensures DistinctKeys(TotalMerge(merge, s)) {
        TotalMergeAggregates(cmp, merge, s);
      }
    } else {
      var a, b :| cmp(a, b) == 0 && a != b;
      var s := [(a, c), (b, c), (a, c)];
      RepeatsKey(cmp, merge, a, b, c);
      assert Sorted(cmp, s) && !DistinctKeys(TotalMerge(merge, s));
    }
  }

  lemma RepeatsKey<K(!new), C>(cmp: (K, K) -> int, merge: (C, C) -> C, a: K, b: K, c: C)
    requires Comparator(cmp) && cmp(a, b) == 0 && a != b
    ensures Sorted(cmp, [(a, c), (b, c), (a, c)])
    ensures TotalMerge(merge, [(a, c), (b, c), (a, c)]) == [(a, c), (b, c), (a, c)]
  {
    var s := [(a, c), (b, c), (a, c)];
    assert cmp(a, a) == 0 && cmp(b, a) == 0;
    assert s[1..] == [(b, c), (a, c)] && s[1..][1..] == [(a, c)];
    assert TotalMerge(merge, [(a, c)]) == [(a, c)];
    assert TotalMerge(merge, s[1..]) == [(b, c)] + TotalMerge(merge, [(a, c)]);
  }

  // ---- the iterators ----

  function Zip<K, C>(keys: seq<K>, combiners: seq<C>): (r: seq<(K, C)>)
    requires |keys| == |combiners|
    ensures |r| == |keys| && forall i :: 0 <= i < |r| ==> r[i] == (keys[i], combiners[i])
  {
    seq(|keys|, i requires 0 <= i < |keys| => (keys[i], combiners[i]))
  }

  /** Where `GroupSize` ends: behind pairs that tie with the first, before one that does not. */
  lemma GroupEnds<K, C>(cmp: (K, K) -> int, s: seq<(K, C)>, m: nat)
    requires s != [] && 1 <= m <= |s| && forall i :: 1 <= i < m ==> cmp(s[i].0, s[0].0) == 0
    requires m < |s| ==> cmp(s[m].0, s[0].0) != 0
    ensures m == GroupSize(cmp, s)
  {
    TiesEnd(cmp, s[0].0, s[1..], m - 1);
  }

  lemma {:induction false} TiesEnd<K, C>(cmp: (K, K) -> int, key: K, s: seq<(K, C)>, m: nat)
    requires m <= |s| && forall i :: 0 <= i < m ==> cmp(s[i].0, key) == 0
    requires m < |s| ==> cmp(s[m].0, key) != 0
    ensures m == Ties(cmp, key, s)
  {
    if m > 0 {
      TiesEnd(cmp, key, s[1..], m - 1);
    }
  }

  /** The iterator over groups of keys that compare as equal. */
  class GroupMerger<K(!new,==), C(!new)> {
    const cmp: (K, K) -> int
    const merge: (C, C) -> C
    var sorted: seq<(K, C)>  // what the merge-sort still delivers
    var keys: seq<K>
    var combiners: seq<C>

    constructor (sorted: seq<(K, C)>, cmp: (K, K) -> int, merge: (C, C) -> C)
      ensures this.sorted == sorted && this.cmp == cmp && this.merge == merge
    {
      this.sorted, this.cmp, this.merge, keys, combiners := sorted, cmp, merge, [], [];
    }

    /** The search among the buffered keys. */
    method Absorb(pair: (K, C))
      requires |keys| == |combiners|
      modifies `keys, `combiners
      ensures |keys| == |combiners| && Zip(keys, combiners) == Absorbed(merge, old(Zip(keys, combiners)), pair)
    {
      var i, foundKey := 0, false;
      ghost var r := Zip(keys, combiners);
      while i < |keys| && !foundKey
        invariant i <= |keys| == |combiners| && keys == old(keys)
        invariant !foundKey ==> combiners == old(combiners) && forall j :: 0 <= j < i ==> keys[j] != pair.0
        invariant foundKey ==> i > 0 && Find(r, pair.0) == i - 1 && Zip(keys, combiners) == Absorbed(merge, r, pair)
      {
        if keys[i] == pair.0 {
          assert Find(r, pair.0) == i by {
            assert r[i].0 == pair.0 && forall j :: 0 <= j < i ==> r[j].0 != pair.0;
          }
          combiners := combiners[i := merge(combiners[i], pair.1)];
          foundKey := true;
        }
        i := i + 1;
      }
      if !foundKey {
        assert Find(r, pair.0) == |r|;
        keys := keys + [pair.0];
        combiners := combiners + [pair.1];
      }
    }

    method Next() returns (group: Option<seq<(K, C)>>)
      modifies this
      ensures old(sorted) == [] ==> group == None && sorted == []
      ensures old(sorted) != [] ==>
        var n := GroupSize(cmp, old(sorted));
        group == Some(Grouped(merge, old(sorted)[..n])) && sorted == old(sorted)[n..]
    {
      if sorted == [] {
        return None;
      }
      ghost var all, m := sorted, 1;
      var firstPair := sorted[0];
      sorted := sorted[1..];
      keys, combiners := [firstPair.0], [firstPair.1];
      var key := firstPair.0;
      StartsGroup(merge, firstPair);
      assert all[..1] == [firstPair];
      while sorted != [] && cmp(sorted[0].0, key) == 0
        invariant 1 <= m <= |all| && sorted == all[m..] && forall i :: 1 <= i < m ==> cmp(all[i].0, key) == 0
        invariant |keys| == |combiners| && Zip(keys, combiners) == Grouped(merge, all[..m])
        decreases |sorted|
      {
        var pair := sorted[0];
        sorted := sorted[1..];
        Absorb(pair);
        assert all[..m + 1][..m] == all[..m] && all[..m + 1][m] == pair;
        m := m + 1;
      }
      GroupEnds(cmp, all, m);
      group := Some(Zip(keys, combiners));
    }

    /** flatMap: the groups, one behind the other. */
    method Drain() returns (out: seq<(K, C)>)
      modifies this
      ensures sorted == [] && out == PartialMerge(cmp, merge, old(sorted))
    {
      out := [];
      assert out + PartialMerge(cmp, merge, sorted) == PartialMerge(cmp, merge, sorted);
      assert PartialMerge<K, C>(cmp, merge, []) == [];
      hide PartialMerge, GroupSize, Grouped;
      while sorted != []
        invariant out + PartialMerge(cmp, merge, sorted) == PartialMerge(cmp, merge, old(sorted))
        decreases |sorted|
      {
        ghost var s, before := sorted, out;
        var group := Next();
        out := out + group.value;
        PartialMergeStep(cmp, merge, s, GroupSize(cmp, s));
        assert before + (group.value + PartialMerge(cmp, merge, sorted)) == out + PartialMerge(cmp, merge, sorted);
      }
      assert out + [] == out;
    }
  }

  lemma StartsGroup<K, C>(merge: (C, C) -> C, p: (K, C))
    ensures Zip([p.0], [p.1]) == Grouped(merge, [p])
  {
    assert Grouped(merge, [p]) == Absorbed(merge, Grouped(merge, []), p);
  }

  lemma RunEnds<K, C>(s: seq<(K, C)>, m: nat)
    requires s != [] && 1 <= m <= |s| && forall i :: 1 <= i < m ==> s[i].0 == s[0].0
    requires m < |s| ==> s[m].0 != s[0].0
    ensures m == 1 + Same(s[0].0, s[1..])
  {
    SameEnds(s[0].0, s[1..], m - 1);
  }

  lemma {:induction false} SameEnds<K, C>(key: K, s: seq<(K, C)>, m: nat)
    requires m <= |s| && forall i :: 0 <= i < m ==> s[i].0 == key
    requires m < |s| ==> s[m].0 != key
    ensures m == Same(key, s)
  {
    if m > 0 {
      SameEnds(key, s[1..], m - 1);
    }
  }

  /** The iterator for a total order, where equal keys stand together. */
  class RunMerger<K(!new,==), C(!new)> {
    const merge: (C, C) -> C
    var sorted: seq<(K, C)>

    constructor (sorted: seq<(K, C)>, merge: (C, C) -> C)
      ensures this.sorted == sorted && this.merge == merge
    {
      this.sorted, this.merge := sorted, merge;
    }

    method Next() returns (pair: Option<(K, C)>)
      modifies this
      ensures old(sorted) == [] ==> pair == None && sorted == []
      ensures old(sorted) != [] ==>
        var n := Same(old(sorted)[0].0, old(sorted)[1..]);
        && pair == Some((old(sorted)[0].0, Folded(merge, old(sorted)[0].1, old(sorted)[1..1 + n])))
        && sorted == old(sorted)[1 + n..]
    {
      if sorted == [] {
        return None;
      }
      ghost var all, m := sorted, 1;
      var (k, c) := sorted[0];
      sorted := sorted[1..];
      while sorted != [] && sorted[0].0 == k
        invariant 1 <= m <= |all| && sorted == all[m..] && forall i :: 1 <= i < m ==> all[i].0 == k
        invariant c == Folded(merge, all[0].1, all[1..m])
        decreases |sorted|
      {
        assert all[1..m + 1][..m - 1] == all[1..m] && all[1..m + 1][m - 1] == all[m];
        c := merge(c, sorted[0].1);
        sorted := sorted[1..];
        m := m + 1;
      }
      RunEnds(all, m);
      pair := Some((k, c));
    }

    method Drain() returns (out: seq<(K, C)>)
      modifies this
      ensures sorted == [] && out == TotalMerge(merge, old(sorted))
    {
      out := [];
      assert out + TotalMerge(merge, sorted) == TotalMerge(merge, sorted);
      assert TotalMerge<K, C>(merge, []) == [];
      hide TotalMerge, Same, Folded;
      while sorted != []
        invariant out + TotalMerge(merge, sorted) == TotalMerge(merge, old(sorted))
        decreases |sorted|
      {
        ghost var s, before := sorted, out;
        var pair := Next();
        out := out + [pair.value];
        TotalMergeStep(merge, s, Same(s[0].0, s[1..]));
        assert before + ([pair.value] + TotalMerge(merge, sorted)) == out + TotalMerge(merge, sorted);
      }
      assert out + [] == out;
    }
  }

  // ---- the whole of mergeWithAggregation ----

  /** What the iterator may deliver, for the iterators given and any breaking of ties. */
  ghost predicate MergesWithAggregation<K(!new), C(!new)>(cmp: (K, K) -> int, merge: (C, C) -> C, totalOrder: bool,
                                                            iterators: seq<seq<(K, C)>>, out: seq<(K, C)>) {
    exists s: seq<(K, C)> :: MergesTo(cmp, NonEmpty(iterators), s) &&
      out == if totalOrder then TotalMerge(merge, s) else PartialMerge(cmp, merge, s)
  }

  /** All the pairs of all the iterators. */
  function Joined<K, C>(iterators: seq<seq<(K, C)>>): seq<(K, C)> {
    if iterators == [] then [] else iterators[0] + Joined(iterators[1..])
  }

  lemma {:induction false} JoinedContents<K, C>(iterators: seq<seq<(K, C)>>)
    ensures multiset(Joined(iterators)) == Contents(iterators)
  {
    if iterators != [] {
      JoinedContents(iterators[1..]);
    }
  }

  /** Every key of any of the iterators comes out exactly once, with the total of its combiners over
      all of them; the same pairs therefore, up to order, in either branch and for any ties. */
  lemma AggregatesAcrossIterators<K(!new), C(!new)>(cmp: (K, K) -> int, merge: (C, C) -> C, totalOrder: bool,
                                                     iterators: seq<seq<(K, C)>>, out: seq<(K, C)>)
    requires Comparator(cmp) && AllSorted(cmp, iterators) && (totalOrder ==> TotalOrder(cmp))
    requires Associative(merge) && Commutative(merge)
    requires MergesWithAggregation(cmp, merge, totalOrder, iterators, out)
    ensures Aggregates(merge, Joined(iterators), out)
    ensures totalOrder ==> StrictlyIncreasing(cmp, out)
  {
    var s: seq<(K, C)> :| MergesTo(cmp, NonEmpty(iterators), s) &&
      out == if totalOrder then TotalMerge(merge, s) else PartialMerge(cmp, merge, s);
    KWayMerge(cmp, iterators, s);
    JoinedContents(iterators);
    if totalOrder {
      TotalMergeAggregates(cmp, merge, s);
    } else {
      PartialMergeAggregates(cmp, merge, s);
    }
    AggregatesPermutation(merge, s, Joined(iterators), out);
  }

  lemma AggregatesPermutation<K(!new), C(!new)>(merge: (C, C) -> C, s: seq<(K, C)>, t: seq<(K, C)>, out: seq<(K, C)>)
    requires Associative(merge) && Commutative(merge) && multiset(s) == multiset(t) && Aggregates(merge, s, out)
    ensures Aggregates(merge, t, out)
  {
    forall k ensures SameTotal(merge, t, out, k) {
      assert SameTotal(merge, s, out, k);
      TotalOfPermutation(merge, s, t, k);
    }
  }
}
