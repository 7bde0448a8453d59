/** The combining of values by key: Spark's Aggregator, and the fold that every way of grouping and
    merging has to agree with. */
module Aggregation {
  import opened Options

  /** createCombiner, mergeValue and mergeCombiners. */
  datatype Aggregator<!V, !C> = Aggregator(create: V -> C, mergeValue: (C, V) -> C, merge: (C, C) -> C)

  ghost predicate Associative<C(!new)>(merge: (C, C) -> C) {
    forall a, b, c :: merge(merge(a, b), c) == merge(a, merge(b, c))
  }

  ghost predicate Commutative<C(!new)>(merge: (C, C) -> C) {
    forall a, b :: merge(a, b) == merge(b, a)
  }

  /** Adding a value is merging with the combiner made of it. */
  ghost predicate Compatible<V(!new), C(!new)>(agg: Aggregator<V, C>) {
    forall c, v :: agg.mergeValue(c, v) == agg.merge(c, agg.create(v))
  }

  /** Merging where either side may have nothing for the key. */
  function Plus<C>(merge: (C, C) -> C, a: Option<C>, b: Option<C>): Option<C> {
    if a.None? then b else if b.None? then a else Some(merge(a.value, b.value))
  }

  function At<K(==), C>(p: (K, C), k: K): Option<C> { if p.0 == k then Some(p.1) else None }

  /** The combiners of a key, merged from left to right. */
  function Total<K(==), C>(merge: (C, C) -> C, ps: seq<(K, C)>, k: K): Option<C> {
    if ps == [] then None else Plus(merge, Total(merge, ps[..|ps| - 1], k), At(ps[|ps| - 1], k))
  }

  lemma TotalSnoc<K, C>(merge: (C, C) -> C, ps: seq<(K, C)>, p: (K, C), k: K)
    ensures Total(merge, ps + [p], k) == Plus(merge, Total(merge, ps, k), At(p, k))
  {
    assert (ps + [p])[..|ps|] == ps;
  }

  lemma {:induction false} TotalAppend<K, C(!new)>(merge: (C, C) -> C, ps: seq<(K, C)>, qs: seq<(K, C)>, k: K)
    requires Associative(merge)
    ensures Total(merge, ps + qs, k) == Plus(merge, Total(merge, ps, k), Total(merge, qs, k))
  {
    if qs == [] {
      assert ps + qs == ps;
    } else {
      var q := qs[|qs| - 1];
      TotalAppend(merge, ps, qs[..|qs| - 1], k);
      assert ps + qs == ps + qs[..|qs| - 1] + [q];
      TotalSnoc(merge, ps + qs[..|qs| - 1], q, k);
      PlusAssociates(merge, Total(merge, ps, k), Total(merge, qs[..|qs| - 1], k), At(q, k));
    }
  }

  lemma PlusAssociates<C(!new)>(merge: (C, C) -> C, a: Option<C>, b: Option<C>, c: Option<C>)
    requires Associative(merge)
    ensures Plus(merge, Plus(merge, a, b), c) == Plus(merge, a, Plus(merge, b, c))
  {
  }

  lemma PlusCommutes<C(!new)>(merge: (C, C) -> C, a: Option<C>, b: Option<C>)
    requires Commutative(merge)
    ensures Plus(merge, a, b) == Plus(merge, b, a)
  {
  }

  predicate Occurs<K(==), C>(ps: seq<(K, C)>, k: K) { exists i :: 0 <= i < |ps| && ps[i].0 == k }

  /** A key has a total exactly when it occurs. */
  lemma {:induction false} TotalIffOccurs<K, C>(merge: (C, C) -> C, ps: seq<(K, C)>, k: K)
    ensures Total(merge, ps, k).Some? <==> Occurs(ps, k)
  {
    if ps != [] {
      TotalIffOccurs(merge, ps[..|ps| - 1], k);
      if Occurs(ps, k) {
        var i :| 0 <= i < |ps| && ps[i].0 == k;
        if i < |ps| - 1 {
          assert ps[..|ps| - 1][i].0 == k;
        }
      }
    }
  }

  /** Where keys are distinct, the total is the one combiner there is. */
  predicate DistinctKeys<K(==), C>(ps: seq<(K, C)>) {
    forall i, j :: 0 <= i < j < |ps| ==> ps[i].0 != ps[j].0
  }

  lemma {:induction false} TotalOfDistinct<K, C>(merge: (C, C) -> C, ps: seq<(K, C)>, i: nat)
    requires DistinctKeys(ps) && i < |ps|
    ensures Total(merge, ps, ps[i].0) == Some(ps[i].1)
  {
    var front := ps[..|ps| - 1];
    if i < |front| {
      TotalOfDistinct(merge, front, i);
      assert front[i] == ps[i];
    } else {
      TotalIffOccurs(merge, front, ps[i].0);
    }
  }

  /** Moving one pair to the end changes no total, however the pairs stand. */
  lemma TotalMoves<K, C(!new)>(merge: (C, C) -> C, ps: seq<(K, C)>, i: nat, k: K)
    requires Associative(merge) && Commutative(merge) && i < |ps|
    ensures Total(merge, ps, k) == Plus(merge, Total(merge, ps[..i] + ps[i + 1..], k), At(ps[i], k))
  {
    var a, b, p := ps[..i], ps[i + 1..], ps[i];
    var ta, tb, tp := Total(merge, a, k), Total(merge, b, k), At(p, k);
    assert ps == a + [p] + b;
    TotalSnoc(merge, a, p, k);
    TotalAppend(merge, a + [p], b, k);
    TotalAppend(merge, a, b, k);
    PlusAssociates(merge, ta, tp, tb);
    PlusCommutes(merge, tp, tb);
    PlusAssociates(merge, ta, tb, tp);
  }

  /** The total of a key depends on the multiset of pairs alone. */
  lemma {:induction false} TotalOfPermutation<K, C(!new)>(merge: (C, C) -> C, ps: seq<(K, C)>, qs: seq<(K, C)>, k: K)
    requires Associative(merge) && Commutative(merge) && multiset(ps) == multiset(qs)
    ensures Total(merge, ps, k) == Total(merge, qs, k)
    decreases |ps|
  {
    hide Total, Associative, Commutative;
    if ps == [] {
      assert |multiset(qs)| == |qs|;
      assert qs == ps;
    } else {
      var p, front := ps[|ps| - 1], ps[..|ps| - 1];
      assert p in multiset(ps);
      var i :| 0 <= i < |qs| && qs[i] == p;
      FrontPermutes(ps, qs, i);
      TotalOfPermutation(merge, front, qs[..i] + qs[i + 1..], k);
      assert ps == front + [p];
      TotalSnoc(merge, front, p, k);
      TotalMoves(merge, qs, i, k);
    }
  }

  lemma FrontPermutes<T>(ps: seq<T>, qs: seq<T>, i: nat)
    requires multiset(ps) == multiset(qs) && ps != [] && i < |qs| && qs[i] == ps[|ps| - 1]
    ensures multiset(ps[..|ps| - 1]) == multiset(qs[..i] + qs[i + 1..])
  {
    LessOne(ps, |ps| - 1);
    LessOne(qs, i);
    assert ps[..|ps| - 1] + ps[|ps| - 1 + 1..] == ps[..|ps| - 1];
  }

  lemma LessOne<T>(s: seq<T>, i: nat)
    requires i < |s|
    ensures multiset(s[..i] + s[i + 1..]) == multiset(s) - multiset{s[i]}
  {
    assert s == s[..i] + [s[i]] + s[i + 1..];
  }

  lemma {:induction false} CountsOnce<K, C>(ps: seq<(K, C)>, x: (K, C))
    requires DistinctKeys(ps)
    ensures multiset(ps)[x] <= 1
  {
    if ps != [] {
      var front, p := ps[..|ps| - 1], ps[|ps| - 1];
      CountsOnce(front, x);
      assert ps == front + [p];
      if x == p {
        assert x !in front;
      }
    }
  }

  lemma CountsTwice<T>(s: seq<T>, i: nat, j: nat)
    requires i < j < |s| && s[i] == s[j]
    ensures multiset(s)[s[i]] >= 2
  {
    assert s == s[..j] + s[j..] && s[..j][i] == s[i] && s[j..][0] == s[i];
    assert s[i] in s[..j] && s[i] in s[j..];
    assert multiset(s) == multiset(s[..j]) + multiset(s[j..]);
  }

  lemma DistinctPermutation<K, C>(ps: seq<(K, C)>, qs: seq<(K, C)>)
    requires DistinctKeys(ps) && multiset(ps) == multiset(qs)
    ensures DistinctKeys(qs)
  {
    forall i, j | 0 <= i < j < |qs| ensures qs[i].0 != qs[j].0 {
      if qs[i] == qs[j] {
        CountsOnce(ps, qs[i]);
        CountsTwice(qs, i, j);
      } else {
        assert qs[i] in multiset(ps) && qs[j] in multiset(ps);
        var a :| 0 <= a < |ps| && ps[a] == qs[i];
        var b :| 0 <= b < |ps| && ps[b] == qs[j];
        assert ps[a].0 != ps[b].0;
      }
    }
  }

  /** Where keys are distinct the totals are the pairs. */
  lemma TotalIffIn<K, C>(merge: (C, C) -> C, ps: seq<(K, C)>, k: K, c: C)
    requires DistinctKeys(ps)
    ensures Total(merge, ps, k) == Some(c) <==> (k, c) in ps
  {
    TotalIffOccurs(merge, ps, k);
    if Occurs(ps, k) {
      var i :| 0 <= i < |ps| && ps[i].0 == k;
      TotalOfDistinct(merge, ps, i);
      if (k, c) in ps {
        var j :| 0 <= j < |ps| && ps[j] == (k, c);
        assert i == j;
      }
    }
  }

  /** In whatever order distinct keys stand, their totals are the same. */
  lemma TotalOfDistinctPermutation<K, C>(merge: (C, C) -> C, ps: seq<(K, C)>, qs: seq<(K, C)>, k: K)
    requires DistinctKeys(ps) && multiset(ps) == multiset(qs)
    ensures DistinctKeys(qs) && Total(merge, qs, k) == Total(merge, ps, k)
  {
    DistinctPermutation(ps, qs);
    if Total(merge, ps, k).Some? {
      var c := Total(merge, ps, k).value;
      TotalIffIn(merge, ps, k, c);
      assert (k, c) in multiset(ps);
      TotalIffIn(merge, qs, k, c);
    } else if Total(merge, qs, k).Some? {
      var c := Total(merge, qs, k).value;
      TotalIffIn(merge, qs, k, c);
      assert (k, c) in multiset(qs);
      TotalIffIn(merge, ps, k, c);
    }
  }
}
