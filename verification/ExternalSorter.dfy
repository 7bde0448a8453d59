/** core/.../nvm/nvmExternalSorter.scala: records collected in memory, spilled at any time into
    streams, and combined or merged again. */
module ExternalSorter {
  import opened Aggregation
  import opened MergeSort
  import opened MergeAggregation
  import opened PartitionIterators
  import opened Options

  /** What a sorter is made for. Without an aggregator the values are taken as combiners as they are,
      by `create`; the comparator is the ordering, or the order of hash codes. */
  datatype Config<!K, !V, !C> = Config(partitioner: K -> nat, n: nat, cmp: (K, K) -> int,
                                       ordered: bool, combine: bool, agg: Aggregator<V, C>)
  {
    function PartitionOf(k: K): nat { if n > 1 then partitioner(k) else 0 }
    function Part(): ((K, C)) -> nat { (x: (K, C)) => PartitionOf(x.0) }
    /** Whether spills are sorted by key. */
    predicate Keyed() { ordered || combine }
  }

  /** What a partitioner and a comparator promise. */
  ghost predicate Proper<K(!new), V, C>(cfg: Config<K, V, C>) {
    cfg.n > 0 && Comparator(cfg.cmp) && forall k :: cfg.n > 1 ==> cfg.partitioner(k) < cfg.n
  }

  /** What an aggregator has to be for the order of merging not to matter within a key. */
  ghost predicate Lawful<V(!new), C(!new)>(agg: Aggregator<V, C>) { Associative(agg.merge) && Compatible(agg) }

  /** The collection in memory: what it holds and, by stream, what was spilled. */
  datatype State<K, C> = State(pairs: seq<(K, C)>, streams: seq<seq<(K, C)>>)

  // ---- inserting ----

  /** changeValue on the map. */
  function Changed<K(==), V, C>(agg: Aggregator<V, C>, pairs: seq<(K, C)>, k: K, v: V): seq<(K, C)> {
    var i := Find(pairs, k);
    if i < |pairs| then pairs[i := (k, agg.mergeValue(pairs[i].1, v))] else pairs + [(k, agg.create(v))]
  }

  function Inserted<K(==), V, C>(cfg: Config<K, V, C>, s: State<K, C>, k: K, v: V): State<K, C> {
    s.(pairs := if cfg.combine then Changed(cfg.agg, s.pairs, k, v) else s.pairs + [(k, cfg.agg.create(v))])
  }

  lemma ChangedIsAbsorbed<K, V(!new), C(!new)>(agg: Aggregator<V, C>, pairs: seq<(K, C)>, k: K, v: V)
    requires Compatible(agg)
    ensures Changed(agg, pairs, k, v) == Absorbed(agg.merge, pairs, (k, agg.create(v)))
  {
  }

  // ---- spilling ----

  /** The order that Spark's collections promise of their iterators: by partition, and by key too. */
  ghost predicate SpillOrder<K(!new), V, C>(cfg: Config<K, V, C>, keyed: bool, it: seq<(K, C)>) {
    forall i, j :: 0 <= i < j < |it| ==> Before(cfg, keyed, it[i].0, it[j].0)
  }

  predicate Before<K, V, C>(cfg: Config<K, V, C>, keyed: bool, a: K, b: K) {
    || cfg.PartitionOf(a) < cfg.PartitionOf(b)
    || (cfg.PartitionOf(a) == cfg.PartitionOf(b) && (keyed ==> cfg.cmp(a, b) <= 0))
  }

  ghost predicate Iterates<K(!new), V, C>(cfg: Config<K, V, C>, keyed: bool, pairs: seq<(K, C)>, it: seq<(K, C)>) {
    multiset(it) == multiset(pairs) && SpillOrder(cfg, keyed, it)
  }

  /** Without an ordering and an aggregator the elements of a partition may come in any order. */
  lemma IteratesIff<K(!new), V, C>(cfg: Config<K, V, C>, pairs: seq<(K, C)>, it: seq<(K, C)>)
    ensures Iterates(cfg, cfg.Keyed(), pairs, it) <==> (
      && multiset(it) == multiset(pairs) && InOrder(cfg.Part(), it)
      && ((cfg.ordered || cfg.combine) ==> forall i, j :: 0 <= i < j < |it| ==>
        cfg.Part()(it[i]) == cfg.Part()(it[j]) ==> cfg.cmp(it[i].0, it[j].0) <= 0))
  {
    if Iterates(cfg, cfg.Keyed(), pairs, it) {
      forall i, j | 0 <= i < j < |it|
        ensures cfg.Part()(it[i]) <= cfg.Part()(it[j])
        ensures cfg.Keyed() && cfg.Part()(it[i]) == cfg.Part()(it[j]) ==> cfg.cmp(it[i].0, it[j].0) <= 0
      {
        assert Before(cfg, cfg.Keyed(), it[i].0, it[j].0);
      }
    }
  }

  /** Where the elements of an iterator go: on the map side to the stream of their partition, else to
      a new stream for each run of a partition. */
  function Placed<K, V, C>(cfg: Config<K, V, C>, mapStage: bool, streams: seq<seq<(K, C)>>, it: seq<(K, C)>)
      : (r: seq<seq<(K, C)>>)
    requires mapStage ==> |streams| == cfg.n && Within(cfg.Part(), it, cfg.n)
    ensures mapStage ==> |r| == cfg.n
    ensures !mapStage && it != [] ==> r != []
  {
    if it == [] then streams
    else
      var front, x := it[..|it| - 1], it[|it| - 1];
      var s, p := Placed(cfg, mapStage, streams, front), cfg.Part()(x);
      if mapStage then s[p := s[p] + [x]]
      else Continued(cfg, s, front, x)
  }

  /** The next element goes to the last stream while its partition does not change. */
  function Continued<K, V, C>(cfg: Config<K, V, C>, s: seq<seq<(K, C)>>, front: seq<(K, C)>,
        x: (K, C)): (r: seq<seq<(K, C)>>)
    requires front != [] ==> s != []
    ensures r != []
  {
    if SamePartition(cfg, front, x) then s[|s| - 1 := s[|s| - 1] + [x]] else s + [[x]]
  }

  predicate SamePartition<K, V, C>(cfg: Config<K, V, C>, front: seq<(K, C)>, x: (K, C)) {
    front != [] && cfg.Part()(front[|front| - 1]) == cfg.Part()(x)
  }

  lemma OnlyOne<K, V, C>(cfg: Config<K, V, C>, x: (K, C), p: nat)
    ensures Only(cfg.Part(), [x], p) == if cfg.Part()(x) == p then [x] else []
  {
    OnlyCons(cfg.Part(), [x], p);
    OnlyNil(cfg.Part(), p);
  }

  /** The partition by key that a partitioner gives. */
  function ByKey<K, C>(partitioner: K -> nat): ((K, C)) -> nat { (x: (K, C)) => partitioner(x.0) }

  /** The elements of a partition are those for which the partitioner names it; a single partition has
      all of them. */
  lemma PartIsNamed<K, V, C>(cfg: Config<K, V, C>, s: seq<(K, C)>, p: nat)
    ensures cfg.n > 1 ==> Only(cfg.Part(), s, p) == Only(ByKey(cfg.partitioner), s, p)
    ensures cfg.n == 1 ==> Only(cfg.Part(), s, 0) == s
  {
    if cfg.n > 1 {
      SamePart(cfg.Part(), ByKey(cfg.partitioner), s, p);
    } else {
      OnlyAll(cfg.Part(), s, 0);
    }
  }

  /** On the map side stream p gets exactly the elements for which the partitioner names p, in order. */
  lemma PlacedByPartition<K, V, C>(cfg: Config<K, V, C>, streams: seq<seq<(K, C)>>, it: seq<(K, C)>, p: nat)
    requires |streams| == cfg.n && Within(cfg.Part(), it, cfg.n) && p < cfg.n
    ensures Placed(cfg, true, streams, it)[p] == streams[p] + Only(cfg.Part(), it, p)
    ensures cfg.n > 1 ==> Placed(cfg, true, streams, it)[p] == streams[p] + Only(ByKey(cfg.partitioner), it, p)
    ensures cfg.n == 1 ==> Placed(cfg, true, streams, it)[0] == streams[0] + it
  {
    PlacedInParts(cfg, streams, it, p);
    PartIsNamed(cfg, it, p);
  }

  lemma {:induction false} PlacedInParts<K, V, C>(cfg: Config<K, V, C>, streams: seq<seq<(K, C)>>,
        it: seq<(K, C)>, p: nat)
    requires |streams| == cfg.n && Within(cfg.Part(), it, cfg.n) && p < cfg.n
    ensures Placed(cfg, true, streams, it)[p] == streams[p] + Only(cfg.Part(), it, p)
    decreases |it|
  {
    if it == [] {
      assert streams[p] + [] == streams[p];
    } else {
      var front, x := it[..|it| - 1], it[|it| - 1];
      PlacedInParts(cfg, streams, front, p);
      assert it == front + [x];
      OnlyAppend(cfg.Part(), front, [x], p);
      OnlyOne(cfg, x, p);
      var o := Only(cfg.Part(), front, p);
      assert streams[p] + o + [x] == streams[p] + (o + [x]) && o + [] == o;
    }
  }

  /** A stream of the reduce side: of one partition, in the order of the comparator, and not empty. */
  ghost predicate SpillShaped<K(!new), V, C>(cfg: Config<K, V, C>, s: seq<(K, C)>) {
    && s != [] && SpillOrder(cfg, cfg.Keyed(), s)
    && forall i :: 0 <= i < |s| ==> cfg.Part()(s[i]) == cfg.Part()(s[0])
  }

  ghost predicate AllShaped<K(!new), V, C>(cfg: Config<K, V, C>, streams: seq<seq<(K, C)>>) {
    forall i :: 0 <= i < |streams| ==> SpillShaped(cfg, streams[i])
  }

  lemma {:induction false} JoinedSnoc<K, C>(streams: seq<seq<(K, C)>>, s: seq<(K, C)>)
    ensures Joined(streams + [s]) == Joined(streams) + s
  {
    if streams == [] {
      assert streams + [s] == [s] && Joined([s]) == s + Joined([]);
      assert s + [] == s && [] + s == s;
    } else {
      JoinedSnoc(streams[1..], s);
      assert (streams + [s])[1..] == streams[1..] + [s];
      var a, b := streams[0], Joined(streams[1..]);
      hide Joined;
      assert a + (b + s) == a + b + s;
    }
  }

  lemma JoinedLast<K, C>(s: seq<seq<(K, C)>>, x: (K, C))
    requires s != []
    ensures Joined(s[|s| - 1 := s[|s| - 1] + [x]]) == Joined(s) + [x]
  {
    var front, last := s[..|s| - 1], s[|s| - 1];
    JoinedSnoc(front, last);
    JoinedSnoc(front, last + [x]);
    assert s == front + [last] && s[|s| - 1 := last + [x]] == front + [last + [x]];
    var j := Joined(front);
    hide Joined;
    assert j + (last + [x]) == j + last + [x];
  }

  /** The last run is the end of what was placed. */
  ghost predicate EndsIn<K(!new), C>(r: seq<seq<(K, C)>>, n: nat, it: seq<(K, C)>) {
    it != [] ==> |r| > n && 0 < |r[|r| - 1]| <= |it| && r[|r| - 1] == it[|it| - |r[|r| - 1]|..]
  }

  /** From stream n on each is of another partition than the one before it. */
  ghost predicate Alternate<K(!new), V, C>(cfg: Config<K, V, C>, r: seq<seq<(K, C)>>, n: nat) {
    forall i: nat :: n < i < |r| ==> Turns(cfg, r, i)
  }

  predicate Turns<K, V, C>(cfg: Config<K, V, C>, r: seq<seq<(K, C)>>, i: nat)
    requires 0 < i < |r|
  {
    r[i - 1] != [] && r[i] != [] && cfg.Part()(r[i - 1][0]) != cfg.Part()(r[i][0])
  }

  lemma ContinuedAlternates<K(!new), V, C>(cfg: Config<K, V, C>, s: seq<seq<(K, C)>>, n: nat, front: seq<(K, C)>,
                                           x: (K, C))
    requires AllShaped(cfg, s) && EndsIn(s, n, front) && Alternate(cfg, s, n) && (front == [] ==> |s| == n)
    ensures Alternate(cfg, Continued(cfg, s, front, x), n)
  {
    if front != [] {
      var last := s[|s| - 1];
      assert SpillShaped(cfg, last) && last[|last| - 1] == front[|front| - 1];
      assert cfg.Part()(last[|last| - 1]) == cfg.Part()(last[0]);
      var r := Continued(cfg, s, front, x);
      forall i: nat | n < i < |r| ensures Turns(cfg, r, i) {
        assert i < |s| ==> Turns(cfg, s, i);
      }
    }
  }

  /** Off the map side each run of a partition becomes one new stream, and nothing else changes. */
  lemma {:induction false} PlacedInRuns<K(!new), V, C>(cfg: Config<K, V, C>, streams: seq<seq<(K, C)>>, it: seq<(K, C)>)
    requires SpillOrder(cfg, cfg.Keyed(), it) && AllShaped(cfg, streams)
    ensures var r := Placed(cfg, false, streams, it);
      && AllShaped(cfg, r) && Joined(r) == Joined(streams) + it
      && streams <= r && EndsIn(r, |streams|, it) && Alternate(cfg, r, |streams|)
    decreases |it|
  {
    hide SpillOrder, AllShaped, Placed, Joined, EndsIn, Continued;
    if it == [] {
      PlacedNone(cfg, streams);
      assert it == [];
    } else {
      var front, x := it[..|it| - 1], it[|it| - 1];
      assert it == front + [x];
      OrderOfFront(cfg, it);
      var s := Placed(cfg, false, streams, front);
      PlacedLast(cfg, streams, it);
      PlacedInRuns(cfg, streams, front);
      EndsAreKept(cfg, s, |streams|, front, x);
      ContinuedShaped(cfg, s, |streams|, front, x);
      ContinuedJoined(cfg, s, Joined(streams), |streams|, front, x);
      ContinuedGrows(cfg, streams, s, front, x);
      if front == [] {
        PlacedNone(cfg, streams);
        assert front == [];
      }
      hide Alternate;
      ContinuedAlternates(cfg, s, |streams|, front, x);
    }
  }

  lemma PlacedNone<K(!new), V, C>(cfg: Config<K, V, C>, streams: seq<seq<(K, C)>>)
    ensures Placed(cfg, false, streams, []) == streams
    ensures Joined(streams) + [] == Joined(streams) && EndsIn(streams, |streams|, [])
  {
  }

  lemma PlacedLast<K, V, C>(cfg: Config<K, V, C>, streams: seq<seq<(K, C)>>, it: seq<(K, C)>)
    requires it != []
    ensures var front := it[..|it| - 1];
      Placed(cfg, false, streams, it) == Continued(cfg, Placed(cfg, false, streams, front), front, it[|it| - 1])
  {
  }

  lemma OrderOfFront<K(!new), V, C>(cfg: Config<K, V, C>, it: seq<(K, C)>)
    requires it != [] && SpillOrder(cfg, cfg.Keyed(), it)
    ensures SpillOrder(cfg, cfg.Keyed(), it[..|it| - 1])
  {
  }

  lemma EndsAreKept<K(!new), V, C>(cfg: Config<K, V, C>, s: seq<seq<(K, C)>>, n: nat, front: seq<(K, C)>, x: (K, C))
    requires EndsIn(s, n, front) && n <= |s|
    ensures front != [] ==> s != []
    ensures EndsIn(Continued(cfg, s, front, x), n, front + [x])
  {
    if SamePartition(cfg, front, x) {
      var last := s[|s| - 1];
      assert (front + [x])[|front + [x]| - |last + [x]|..] == last + [x];
    } else {
      assert (front + [x])[|front|..] == [x];
    }
  }

  lemma ContinuedShaped<K(!new), V, C>(cfg: Config<K, V, C>, s: seq<seq<(K, C)>>, n: nat, front: seq<(K, C)>, x: (K, C))
    requires SpillOrder(cfg, cfg.Keyed(), front + [x]) && AllShaped(cfg, s) && EndsIn(s, n, front)
    ensures AllShaped(cfg, Continued(cfg, s, front, x))
  {
    hide SpillOrder;
    if SamePartition(cfg, front, x) {
      assert SpillShaped(cfg, s[|s| - 1]);
      LongerRun(cfg, s[|s| - 1], front, x);
    } else {
      OneIsShaped(cfg, x);
    }
  }

  lemma OneIsShaped<K(!new), V, C>(cfg: Config<K, V, C>, x: (K, C))
    ensures SpillShaped(cfg, [x])
  {
  }

  lemma ContinuedJoined<K(!new), V, C>(cfg: Config<K, V, C>, s: seq<seq<(K, C)>>, j: seq<(K, C)>, n: nat,
        front: seq<(K, C)>, x: (K, C))
    requires Joined(s) == j + front && EndsIn(s, n, front)
    ensures Joined(Continued(cfg, s, front, x)) == j + (front + [x])
  {
    assert j + front + [x] == j + (front + [x]);
    hide Joined;
    if SamePartition(cfg, front, x) {
      JoinedLast(s, x);
    } else {
      JoinedSnoc(s, [x]);
    }
  }

  lemma ContinuedGrows<K(!new), V, C>(cfg: Config<K, V, C>, streams: seq<seq<(K, C)>>, s: seq<seq<(K, C)>>,
        front: seq<(K, C)>, x: (K, C))
    requires streams <= s && EndsIn(s, |streams|, front)
    ensures streams <= Continued(cfg, s, front, x)
  {
  }

  lemma LongerRun<K(!new), V, C>(cfg: Config<K, V, C>, last: seq<(K, C)>, front: seq<(K, C)>, x: (K, C))
    requires SpillOrder(cfg, cfg.Keyed(), front + [x]) && SpillShaped(cfg, last)
    requires |last| <= |front| && last == front[|front| - |last|..]
    requires cfg.Part()(front[|front| - 1]) == cfg.Part()(x)
    ensures SpillShaped(cfg, last + [x])
  {
    var d, l := |front| - |last|, last + [x];
    assert last[|last| - 1] == front[|front| - 1];
    forall i, j | 0 <= i < j < |l| ensures Before(cfg, cfg.Keyed(), l[i].0, l[j].0) {
      assert l[i] == (front + [x])[d + i] && l[j] == (front + [x])[d + j];
    }
  }

  // ---- runs ----

  datatype Op<K, V, C> = Insert(key: K, value: V) | Spill(it: seq<(K, C)>)

  ghost predicate Allowed<K(!new), V, C>(cfg: Config<K, V, C>, s: State<K, C>, op: Op<K, V, C>) {
    op.Spill? ==> Iterates(cfg, cfg.Keyed(), s.pairs, op.it)
  }

  lemma AlwaysWithin<K(!new), V, C>(cfg: Config<K, V, C>, it: seq<(K, C)>)
    requires Proper(cfg)
    ensures Within(cfg.Part(), it, cfg.n)
  {
  }

  /** spill: the collection is emptied into the streams. */
  ghost function Spilled<K(!new), V, C>(cfg: Config<K, V, C>, mapStage: bool, s: State<K, C>,
        it: seq<(K, C)>): State<K, C>
    requires Proper(cfg) && (mapStage ==> |s.streams| == cfg.n)
  {
    AlwaysWithin(cfg, it);
    State([], Placed(cfg, mapStage, s.streams, it))
  }

  ghost function Do<K(!new), V, C>(cfg: Config<K, V, C>, mapStage: bool, s: State<K, C>,
        op: Op<K, V, C>): (r: State<K, C>)
    requires Proper(cfg) && (mapStage ==> |s.streams| == cfg.n)
    ensures mapStage ==> |r.streams| == cfg.n
  {
    match op
    case Insert(k, v) => Inserted(cfg, s, k, v)
    case Spill(it) => Spilled(cfg, mapStage, s, it)
  }

  ghost predicate AllowedRun<K(!new), V, C>(cfg: Config<K, V, C>, mapStage: bool, s: State<K, C>, ops: seq<Op<K, V, C>>)
    requires Proper(cfg) && (mapStage ==> |s.streams| == cfg.n)
    decreases |ops|
  {
    ops != [] ==> Allowed(cfg, s, ops[0]) && AllowedRun(cfg, mapStage, Do(cfg, mapStage, s, ops[0]), ops[1..])
  }

  ghost function Run<K(!new), V, C>(cfg: Config<K, V, C>, mapStage: bool, s: State<K, C>,
        ops: seq<Op<K, V, C>>): (r: State<K, C>)
    requires Proper(cfg) && (mapStage ==> |s.streams| == cfg.n)
    ensures mapStage ==> |r.streams| == cfg.n
    decreases |ops|
  {
    if ops == [] then s else Run(cfg, mapStage, Do(cfg, mapStage, s, ops[0]), ops[1..])
  }

  /** What an operation inserts, as combiners, and what a run does. */
  function Entered<K, V, C>(cfg: Config<K, V, C>, op: Op<K, V, C>): seq<(K, C)> {
    if op.Insert? then [(op.key, cfg.agg.create(op.value))] else []
  }

  function Lifted<K, V, C>(cfg: Config<K, V, C>, ops: seq<Op<K, V, C>>): seq<(K, C)> {
    if ops == [] then [] else Entered(cfg, ops[0]) + Lifted(cfg, ops[1..])
  }

  lemma LiftedNone<K, V, C>(cfg: Config<K, V, C>)
    ensures Lifted(cfg, []) == []
  {
  }

  lemma LiftedCons<K, V, C>(cfg: Config<K, V, C>, ops: seq<Op<K, V, C>>)
    requires ops != []
    ensures Lifted(cfg, ops) == Entered(cfg, ops[0]) + Lifted(cfg, ops[1..])
  {
  }

  lemma EnteredJoins<K, V, C>(cfg: Config<K, V, C>, before: seq<(K, C)>, ops: seq<Op<K, V, C>>)
    ensures ops == [] ==> before + Lifted(cfg, ops) == before
    ensures ops != [] ==> before + Lifted(cfg, ops) == before + Entered(cfg, ops[0]) + Lifted(cfg, ops[1..])
  {
    hide Lifted, Entered;
    if ops == [] {
      LiftedNone(cfg);
      assert ops == [] && before + [] == before;
    } else {
      LiftedCons(cfg, ops);
      var a, b := Entered(cfg, ops[0]), Lifted(cfg, ops[1..]);
      assert before + (a + b) == before + a + b;
    }
  }

  // ---- the map side: combining before the shuffle ----

  /** All of one partition. */
  predicate Belongs<K, V, C>(cfg: Config<K, V, C>, s: seq<(K, C)>, p: nat) {
    forall i :: 0 <= i < |s| ==> cfg.PartitionOf(s[i].0) == p
  }

  /** What was spilled of a key, merged with what is in memory, is the total of all that was inserted. */
  ghost predicate Accounted<K(!new), V, C>(cfg: Config<K, V, C>, s: State<K, C>, lifted: seq<(K, C)>, k: K)
    requires Proper(cfg) && |s.streams| == cfg.n
  {
    Plus(cfg.agg.merge, Total(cfg.agg.merge, s.streams[cfg.PartitionOf(k)], k), Total(cfg.agg.merge, s.pairs, k))
      == Total(cfg.agg.merge, lifted, k)
  }

  ghost predicate MapSound<K(!new), V, C>(cfg: Config<K, V, C>, s: State<K, C>, lifted: seq<(K, C)>)
    requires Proper(cfg)
  {
    && |s.streams| == cfg.n && DistinctKeys(s.pairs)
    && (forall p :: 0 <= p < cfg.n ==> Belongs(cfg, s.streams[p], p))
    && forall k :: Accounted(cfg, s, lifted, k)
  }

  /** A record changes the total of its key as one more combiner would. */
  lemma TotalOfChanged<K(!new), V(!new), C(!new)>(agg: Aggregator<V, C>, pairs: seq<(K, C)>, k: K, v: V, x: K)
    requires Compatible(agg) && DistinctKeys(pairs)
    ensures DistinctKeys(Changed(agg, pairs, k, v))
    ensures Total(agg.merge, Changed(agg, pairs, k, v), x)
      == Plus(agg.merge, Total(agg.merge, pairs, x), At((k, agg.create(v)), x))
  {
    ChangedIsAbsorbed(agg, pairs, k, v);
    assert forall y :: SameTotal(agg.merge, pairs, pairs, y);
    AbsorbedKeeps(agg.merge, pairs, pairs, (k, agg.create(v)));
    assert SameTotal(agg.merge, pairs + [(k, agg.create(v))], Changed(agg, pairs, k, v), x);
    TotalSnoc(agg.merge, pairs, (k, agg.create(v)), x);
  }

  lemma {:induction false} TotalOfOnly<K(!new), V, C>(cfg: Config<K, V, C>, it: seq<(K, C)>, p: nat, k: K)
    ensures Total(cfg.agg.merge, Only(cfg.Part(), it, p), k)
      == if p == cfg.PartitionOf(k) then Total(cfg.agg.merge, it, k) else None
    decreases |it|
  {
    if it == [] {
      OnlyNil(cfg.Part(), p);
    } else {
      var front, x := it[..|it| - 1], it[|it| - 1];
      TotalOfOnly(cfg, front, p, k);
      assert it == front + [x];
      OnlyAppend(cfg.Part(), front, [x], p);
      OnlyOne(cfg, x, p);
      TotalSnoc(cfg.agg.merge, Only(cfg.Part(), front, p), x, k);
      assert Only(cfg.Part(), front, p) + [] == Only(cfg.Part(), front, p);
    }
  }

  lemma InsertKeepsMap<K(!new), V(!new), C(!new)>(cfg: Config<K, V, C>, s: State<K, C>, lifted: seq<(K, C)>, k: K, v: V)
    requires Proper(cfg) && Lawful(cfg.agg) && cfg.combine && MapSound(cfg, s, lifted)
    ensures MapSound(cfg, Inserted(cfg, s, k, v), lifted + [(k, cfg.agg.create(v))])
  {
    var merge, p := cfg.agg.merge, (k, cfg.agg.create(v));
    TotalOfChanged(cfg.agg, s.pairs, k, v, k);
    forall x ensures Accounted(cfg, Inserted(cfg, s, k, v), lifted + [p], x) {
      assert Accounted(cfg, s, lifted, x);
      TotalOfChanged(cfg.agg, s.pairs, k, v, x);
      TotalSnoc(merge, lifted, p, x);
      PlusAssociates(merge, Total(merge, s.streams[cfg.PartitionOf(x)], x), Total(merge, s.pairs, x), At(p, x));
    }
  }

  lemma SpillKeepsMap<K(!new), V(!new), C(!new)>(cfg: Config<K, V, C>, s: State<K, C>, lifted: seq<(K, C)>,
        it: seq<(K, C)>)
    requires Proper(cfg) && Lawful(cfg.agg) && MapSound(cfg, s, lifted) && Iterates(cfg, cfg.Keyed(), s.pairs, it)
    ensures MapSound(cfg, Spilled(cfg, true, s, it), lifted)
  {
    var merge, r := cfg.agg.merge, Spilled(cfg, true, s, it);
    AlwaysWithin(cfg, it);
    forall p | 0 <= p < cfg.n ensures Belongs(cfg, r.streams[p], p) {
      PlacedByPartition(cfg, s.streams, it, p);
      OnlyBelongs(cfg, it, p);
      assert Belongs(cfg, s.streams[p], p);
    }
    forall k ensures Accounted(cfg, r, lifted, k) {
      assert Accounted(cfg, s, lifted, k);
      var p := cfg.PartitionOf(k);
      PlacedByPartition(cfg, s.streams, it, p);
      TotalAppend(merge, s.streams[p], Only(cfg.Part(), it, p), k);
      TotalOfOnly(cfg, it, p, k);
      TotalOfDistinctPermutation(merge, s.pairs, it, k);
    }
  }

  lemma OnlyBelongs<K, V, C>(cfg: Config<K, V, C>, it: seq<(K, C)>, p: nat)
    ensures Belongs(cfg, Only(cfg.Part(), it, p), p)
  {
    forall i | 0 <= i < |Only(cfg.Part(), it, p)| ensures cfg.PartitionOf(Only(cfg.Part(), it, p)[i].0) == p {
      OnlyHas(cfg.Part(), it, p, i);
    }
  }

  lemma {:induction false} RunKeepsMap<K(!new), V(!new), C(!new)>(cfg: Config<K, V, C>, s: State<K, C>,
        lifted: seq<(K, C)>, ops: seq<Op<K, V, C>>)
    requires Proper(cfg) && Lawful(cfg.agg) && cfg.combine && MapSound(cfg, s, lifted) && AllowedRun(cfg, true, s, ops)
    ensures MapSound(cfg, Run(cfg, true, s, ops), lifted + Lifted(cfg, ops))
    decreases |ops|
  {
    EnteredJoins(cfg, lifted, ops);
    if ops != [] {
      var r := Do(cfg, true, s, ops[0]);
      match ops[0] {
        case Insert(k, v) => InsertKeepsMap(cfg, s, lifted, k, v);
        case Spill(it) => SpillKeepsMap(cfg, s, lifted, it); assert lifted + Entered(cfg, ops[0]) == lifted;
      }
      hide MapSound, Do, Proper, Lawful, Allowed, Entered;
      RunKeepsMap(cfg, r, lifted + Entered(cfg, ops[0]), ops[1..]);
    }
  }

  ghost function StartOfMap<K, V, C>(cfg: Config<K, V, C>): State<K, C> { State([], seq(cfg.n, _ => [])) }

  /** Combining on the map side does not depend on when the collection was spilled: after the last
      spill each stream holds keys of its own partition only, and folding it gives for each key the
      combiner that one run without any spill has in memory. */
  lemma SpillScheduleIndependence<K(!new), V(!new), C(!new)>(cfg: Config<K, V, C>, ops: seq<Op<K, V, C>>,
        last: seq<(K, C)>)
    requires Proper(cfg) && Lawful(cfg.agg) && cfg.combine
    requires AllowedRun(cfg, true, StartOfMap(cfg), ops)
    requires Iterates(cfg, cfg.Keyed(), Run(cfg, true, StartOfMap(cfg), ops).pairs, last)
    ensures var end := Spilled(cfg, true, Run(cfg, true, StartOfMap(cfg), ops), last);
      && |end.streams| == cfg.n
      && (forall p :: 0 <= p < cfg.n ==> Belongs(cfg, end.streams[p], p))
      && (forall k :: FoldsTo(cfg, end, InMemory(cfg, ops), k))
      && (forall p, k :: 0 <= p < cfg.n ==> FoldsIn(cfg, end.streams[p], InMemory(cfg, ops), p, k))
  {
    hide Proper, Lawful, Run, AllowedRun, Lifted, InMemory, Iterates, Placed, MapSound, Total;
    var start := StartOfMap(cfg);
    StartIsMapSound(cfg);
    RunKeepsMap(cfg, start, [], ops);
    assert [] + Lifted(cfg, ops) == Lifted(cfg, ops);
    var s := Run(cfg, true, start, ops);
    SpillKeepsMap(cfg, s, Lifted(cfg, ops), last);
    SoundFolds(cfg, Spilled(cfg, true, s, last), ops);
    var end := Spilled(cfg, true, s, last);
    forall p, k | 0 <= p < cfg.n ensures FoldsIn(cfg, end.streams[p], InMemory(cfg, ops), p, k) {
      assert FoldsTo(cfg, end, InMemory(cfg, ops), k);
      NamedFolds(cfg, end, InMemory(cfg, ops), p, k);
    }
  }

  lemma StartIsMapSound<K(!new), V, C>(cfg: Config<K, V, C>)
    requires Proper(cfg)
    ensures MapSound(cfg, StartOfMap(cfg), [])
  {
    var start := StartOfMap(cfg);
    forall k ensures Accounted(cfg, start, [], k) {
      assert start.streams[cfg.PartitionOf(k)] == [];
    }
  }

  /** With nothing in memory, the streams account for everything. */
  lemma SoundFolds<K(!new), V(!new), C(!new)>(cfg: Config<K, V, C>, end: State<K, C>, ops: seq<Op<K, V, C>>)
    requires Proper(cfg) && Lawful(cfg.agg) && MapSound(cfg, end, Lifted(cfg, ops)) && end.pairs == []
    ensures |end.streams| == cfg.n && (forall p :: 0 <= p < cfg.n ==> Belongs(cfg, end.streams[p], p))
    ensures forall k :: FoldsTo(cfg, end, InMemory(cfg, ops), k)
  {
    hide Proper, Lawful, Lifted, InMemory;
    forall k ensures FoldsTo(cfg, end, InMemory(cfg, ops), k) {
      assert Accounted(cfg, end, Lifted(cfg, ops), k);
      InMemoryIsTotal(cfg, ops, k);
    }
  }

  ghost predicate FoldsTo<K(!new), V, C>(cfg: Config<K, V, C>, end: State<K, C>, pairs: seq<(K, C)>, k: K)
    requires Proper(cfg) && |end.streams| == cfg.n
  {
    Total(cfg.agg.merge, end.streams[cfg.PartitionOf(k)], k) == Total(cfg.agg.merge, pairs, k)
  }

  /** Stream p has a combiner of a key just when the partitioner names p for it, and then it folds to the
      one in `pairs`. */
  ghost predicate FoldsIn<K(!new), V, C>(cfg: Config<K, V, C>, stream: seq<(K, C)>, pairs: seq<(K, C)>, p: nat, k: K) {
    Total(cfg.agg.merge, stream, k)
      == if cfg.n == 1 || cfg.partitioner(k) == p then Total(cfg.agg.merge, pairs, k) else None
  }

  lemma NamedFolds<K(!new), V, C>(cfg: Config<K, V, C>, end: State<K, C>, pairs: seq<(K, C)>, p: nat, k: K)
    requires Proper(cfg) && |end.streams| == cfg.n && p < cfg.n
    requires Belongs(cfg, end.streams[p], p) && FoldsTo(cfg, end, pairs, k)
    ensures FoldsIn(cfg, end.streams[p], pairs, p, k)
  {
    if cfg.PartitionOf(k) != p {
      NoTotal(cfg.agg.merge, end.streams[p], k);
    }
  }

  lemma {:induction false} NoTotal<K, C>(merge: (C, C) -> C, s: seq<(K, C)>, k: K)
    requires forall i :: 0 <= i < |s| ==> s[i].0 != k
    ensures Total(merge, s, k) == None
    decreases |s|
  {
    if s != [] {
      NoTotal(merge, s[..|s| - 1], k);
    }
  }

  /** The map after inserting everything, had it never been spilled. */
  function InMemory<K(==), V, C>(cfg: Config<K, V, C>, ops: seq<Op<K, V, C>>): seq<(K, C)> {
    if ops == [] then []
    else
      var before, op := InMemory(cfg, ops[..|ops| - 1]), ops[|ops| - 1];
      if op.Insert? then Changed(cfg.agg, before, op.key, op.value) else before
  }

  lemma LiftedOne<K, V, C>(cfg: Config<K, V, C>, op: Op<K, V, C>)
    ensures Lifted(cfg, [op]) == Entered(cfg, op)
  {
    hide Lifted, Entered;
    LiftedCons(cfg, [op]);
    LiftedNone(cfg);
    assert [op][1..] == [] && Entered(cfg, op) + [] == Entered(cfg, op);
  }

  lemma {:induction false} LiftedSnoc<K, V, C>(cfg: Config<K, V, C>, ops: seq<Op<K, V, C>>, op: Op<K, V, C>)
    ensures Lifted(cfg, ops + [op]) == Lifted(cfg, ops) + Entered(cfg, op)
  {
    hide Entered, Lifted;
    if ops == [] {
      LiftedOne(cfg, op);
      LiftedNone(cfg);
      assert ops == [] && ops + [op] == [op];
    } else {
      LiftedCons(cfg, ops);
      LiftedCons(cfg, ops + [op]);
      assert (ops + [op])[1..] == ops[1..] + [op];
      LiftedSnoc(cfg, ops[1..], op);
      var a, b, c := Entered(cfg, ops[0]), Lifted(cfg, ops[1..]), Entered(cfg, op);
      assert a + (b + c) == a + b + c;
    }
  }

  lemma {:induction false} InMemoryIsTotal<K(!new), V(!new), C(!new)>(cfg: Config<K, V, C>, ops: seq<Op<K, V, C>>, k: K)
    requires Lawful(cfg.agg)
    ensures DistinctKeys(InMemory(cfg, ops))
    ensures Total(cfg.agg.merge, InMemory(cfg, ops), k) == Total(cfg.agg.merge, Lifted(cfg, ops), k)
    decreases |ops|
  {
    hide Lifted, Total, Changed, DistinctKeys, Associative, Compatible;
    if ops == [] {
      LiftedNone(cfg);
      assert ops == [];
      NoneDistinct<K, C>();
    } else {
      var front, op := ops[..|ops| - 1], ops[|ops| - 1];
      InMemoryIsTotal(cfg, front, k);
      assert ops == front + [op];
      LiftedSnoc(cfg, front, op);
      if op.Insert? {
        TotalOfChanged(cfg.agg, InMemory(cfg, front), op.key, op.value, k);
        TotalSnoc(cfg.agg.merge, Lifted(cfg, front), (op.key, cfg.agg.create(op.value)), k);
      } else {
        assert Lifted(cfg, front) + [] == Lifted(cfg, front);
      }
    }
  }

  lemma NoneDistinct<K, C>()
    ensures DistinctKeys<K, C>([])
  {
  }

  // ---- the reduce side: merging what was spilled with what is in memory ----

  /** Nothing was lost or made up, whatever was spilled when. */
  ghost predicate Kept<K(!new), V, C>(cfg: Config<K, V, C>, s: State<K, C>, lifted: seq<(K, C)>) {
    if cfg.combine then DistinctKeys(s.pairs) && forall k :: KeptTotal(cfg, s, lifted, k)
    else multiset(Joined(s.streams) + s.pairs) == multiset(lifted)
  }

  predicate KeptTotal<K(==), V, C(==)>(cfg: Config<K, V, C>, s: State<K, C>, lifted: seq<(K, C)>, k: K) {
    Plus(cfg.agg.merge, Total(cfg.agg.merge, Joined(s.streams), k), Total(cfg.agg.merge, s.pairs, k))
      == Total(cfg.agg.merge, lifted, k)
  }

  ghost predicate ReduceSound<K(!new), V, C>(cfg: Config<K, V, C>, s: State<K, C>, lifted: seq<(K, C)>) {
    AllShaped(cfg, s.streams) && Kept(cfg, s, lifted)
  }

  lemma InsertKeepsReduce<K(!new), V(!new), C(!new)>(cfg: Config<K, V, C>, s: State<K, C>, lifted: seq<(K, C)>,
        k: K, v: V)
    requires (cfg.combine ==> Lawful(cfg.agg)) && ReduceSound(cfg, s, lifted)
    ensures ReduceSound(cfg, Inserted(cfg, s, k, v), lifted + [(k, cfg.agg.create(v))])
  {
    var merge, p, j := cfg.agg.merge, (k, cfg.agg.create(v)), Joined(s.streams);
    hide Joined, AllShaped;
    if cfg.combine {
      TotalOfChanged(cfg.agg, s.pairs, k, v, k);
      forall x ensures KeptTotal(cfg, Inserted(cfg, s, k, v), lifted + [p], x) {
        assert KeptTotal(cfg, s, lifted, x);
        TotalOfChanged(cfg.agg, s.pairs, k, v, x);
        TotalSnoc(merge, lifted, p, x);
        PlusAssociates(merge, Total(merge, j, x), Total(merge, s.pairs, x), At(p, x));
      }
    } else {
      assert j + (s.pairs + [p]) == j + s.pairs + [p];
    }
  }

  lemma SpillKeepsReduce<K(!new), V(!new), C(!new)>(cfg: Config<K, V, C>, s: State<K, C>, lifted: seq<(K, C)>,
        it: seq<(K, C)>)
    requires Proper(cfg) && (cfg.combine ==> Lawful(cfg.agg)) && ReduceSound(cfg, s, lifted)
    requires Iterates(cfg, cfg.Keyed(), s.pairs, it)
    ensures ReduceSound(cfg, Spilled(cfg, false, s, it), lifted)
  {
    var merge, r := cfg.agg.merge, Spilled(cfg, false, s, it);
    PlacedInRuns(cfg, s.streams, it);
    hide Joined, AllShaped, SpillOrder, Placed;
    if cfg.combine {
      forall k ensures KeptTotal(cfg, r, lifted, k) {
        assert KeptTotal(cfg, s, lifted, k);
        TotalAppend(merge, Joined(s.streams), it, k);
        TotalOfDistinctPermutation(merge, s.pairs, it, k);
      }
    } else {
      assert Joined(r.streams) + r.pairs == Joined(s.streams) + it;
    }
  }

  lemma {:induction false} RunKeepsReduce<K(!new), V(!new), C(!new)>(cfg: Config<K, V, C>, s: State<K, C>,
        lifted: seq<(K, C)>, ops: seq<Op<K, V, C>>)
    requires Proper(cfg) && (cfg.combine ==> Lawful(cfg.agg))
    requires ReduceSound(cfg, s, lifted) && AllowedRun(cfg, false, s, ops)
    ensures ReduceSound(cfg, Run(cfg, false, s, ops), lifted + Lifted(cfg, ops))
    decreases |ops|
  {
    EnteredJoins(cfg, lifted, ops);
    if ops != [] {
      var r := Do(cfg, false, s, ops[0]);
      match ops[0] {
        case Insert(k, v) => InsertKeepsReduce(cfg, s, lifted, k, v);
        case Spill(it) => SpillKeepsReduce(cfg, s, lifted, it); assert lifted + Entered(cfg, ops[0]) == lifted;
      }
      hide ReduceSound, Do, Proper, Lawful, Allowed, Entered;
      RunKeepsReduce(cfg, r, lifted + Entered(cfg, ops[0]), ops[1..]);
    }
  }

  // ---- partitionedIterator ----

  /** The iterators of one partition over several streams. */
  function Parts<K, V, C>(cfg: Config<K, V, C>, streams: seq<seq<(K, C)>>, p: nat): seq<seq<(K, C)>> {
    if streams == [] then [] else [Only(cfg.Part(), streams[0], p)] + Parts(cfg, streams[1..], p)
  }

  lemma {:induction false} PartsJoined<K, V, C>(cfg: Config<K, V, C>, streams: seq<seq<(K, C)>>, p: nat)
    ensures Joined(Parts(cfg, streams, p)) == Only(cfg.Part(), Joined(streams), p)
  {
    if streams == [] {
      OnlyNil(cfg.Part(), p);
    } else {
      PartsJoined(cfg, streams[1..], p);
      OnlyAppend(cfg.Part(), streams[0], Joined(streams[1..]), p);
      assert Parts(cfg, streams, p)[1..] == Parts(cfg, streams[1..], p);
    }
  }

  /** What is merged for one partition: every spilled stream, and what is in memory. */
  function Sources<K, V, C>(cfg: Config<K, V, C>, streams: seq<seq<(K, C)>>, it: seq<(K, C)>,
        p: nat): seq<seq<(K, C)>> {
    Parts(cfg, streams + [it], p)
  }

  lemma {:induction false} OnlySorted<K(!new), V, C>(cfg: Config<K, V, C>, s: seq<(K, C)>, p: nat)
    requires SpillOrder(cfg, true, s)
    ensures Sorted(cfg.cmp, Only(cfg.Part(), s, p))
  {
    if s != [] {
      OnlySorted(cfg, s[1..], p);
      if cfg.Part()(s[0]) == p {
        var rest := Only(cfg.Part(), s[1..], p);
        forall j | 0 <= j < |rest| ensures cfg.cmp(s[0].0, rest[j].0) <= 0 {
          OnlyHas(cfg.Part(), s[1..], p, j);
          var i :| 0 <= i < |s[1..]| && s[1..][i] == rest[j];
          assert Before(cfg, true, s[0].0, s[1 + i].0);
        }
        SortedCons(cfg.cmp, s[0], rest);
      }
    }
  }

  lemma {:induction false} PartsSorted<K(!new), V, C>(cfg: Config<K, V, C>, streams: seq<seq<(K, C)>>, p: nat)
    requires forall i :: 0 <= i < |streams| ==> SpillOrder(cfg, true, streams[i])
    ensures AllSorted(cfg.cmp, Parts(cfg, streams, p))
  {
    if streams != [] {
      PartsSorted(cfg, streams[1..], p);
      OnlySorted(cfg, streams[0], p);
    }
  }

  /** What partition `p` may be given, for any breaking of ties. */
  ghost predicate DeliversPartition<K(!new), V, C(!new)>(cfg: Config<K, V, C>, iters: seq<seq<(K, C)>>,
        out: seq<(K, C)>) {
    if cfg.combine then MergesWithAggregation(cfg.cmp, cfg.agg.merge, cfg.ordered, iters, out)
    else if cfg.ordered then MergesTo(cfg.cmp, NonEmpty(iters), out)
    else out == Joined(iters)
  }

  /** The two paths of partitionedIterator, `it` being the iterator over what is in memory. */
  ghost predicate Delivers<K(!new), V, C(!new)>(cfg: Config<K, V, C>, s: State<K, C>, it: seq<(K, C)>,
        outs: seq<seq<(K, C)>>) {
    && |outs| == cfg.n
    && if s.streams == [] then
         Iterates(cfg, cfg.ordered, s.pairs, it) && forall p :: 0 <= p < cfg.n ==> outs[p] == Only(cfg.Part(), it, p)
       else
         Iterates(cfg, cfg.Keyed(), s.pairs, it)
         && forall p :: 0 <= p < cfg.n ==> DeliversPartition(cfg, Sources(cfg, s.streams, it, p), outs[p])
  }

  /** What partition `p` should be given of the items that are its own. */
  ghost predicate Right<K(!new), V, C>(cfg: Config<K, V, C>, items: seq<(K, C)>, out: seq<(K, C)>) {
    && (if cfg.combine then Aggregates(cfg.agg.merge, items, out) else multiset(out) == multiset(items))
    && (cfg.ordered ==> Sorted(cfg.cmp, out))
  }

  lemma OnlyMoves<K, V, C>(cfg: Config<K, V, C>, s: seq<(K, C)>, i: nat, p: nat)
    requires i < |s|
    ensures multiset(Only(cfg.Part(), s, p))
      == multiset(Only(cfg.Part(), s[..i] + s[i + 1..], p)) + multiset(Only(cfg.Part(), [s[i]], p))
  {
    var a, x, b := s[..i], s[i], s[i + 1..];
    assert s == a + ([x] + b);
    OnlyAppend(cfg.Part(), a, [x] + b, p);
    OnlyAppend(cfg.Part(), [x], b, p);
    OnlyAppend(cfg.Part(), a, b, p);
  }

  lemma RestPermutes<T>(s: seq<T>, t: seq<T>, i: nat)
    requires multiset(s) == multiset(t) && s != [] && i < |t| && t[i] == s[0]
    ensures multiset(s[1..]) == multiset(t[..i] + t[i + 1..])
  {
    HeadAndRest(s);
    AllButOne(t, i);
    assert multiset(s[1..]) == multiset(s) - multiset{s[0]};
    assert multiset(t[..i] + t[i + 1..]) == multiset(t) - multiset{s[0]};
  }

  lemma {:induction false} OnlyOfPermutation<K, V, C>(cfg: Config<K, V, C>, s: seq<(K, C)>, t: seq<(K, C)>, p: nat)
    requires multiset(s) == multiset(t)
    ensures multiset(Only(cfg.Part(), s, p)) == multiset(Only(cfg.Part(), t, p))
    decreases |s|
  {
    if s == [] {
      assert |multiset(t)| == |t|;
      assert s == t;
    } else {
      hide Only;
      assert s[0] in multiset(s);
      var i :| 0 <= i < |t| && t[i] == s[0];
      RestPermutes(s, t, i);
      OnlyOfPermutation(cfg, s[1..], t[..i] + t[i + 1..], p);
      OnlyMoves(cfg, s, 0, p);
      OnlyMoves(cfg, t, i, p);
      assert s[..0] + s[0 + 1..] == s[1..];
    }
  }

  /** Streams and memory together hold, of each partition, what was inserted. */
  lemma KeptByPartition<K(!new), V(!new), C(!new)>(cfg: Config<K, V, C>, s: State<K, C>, lifted: seq<(K, C)>,
        it: seq<(K, C)>, p: nat)
    requires (cfg.combine ==> Lawful(cfg.agg)) && Kept(cfg, s, lifted) && multiset(it) == multiset(s.pairs)
    ensures var got := Only(cfg.Part(), Joined(s.streams) + it, p);
      if cfg.combine then forall k :: SameTotal(cfg.agg.merge, Only(cfg.Part(), lifted, p), got, k)
      else multiset(got) == multiset(Only(cfg.Part(), lifted, p))
  {
    var merge, j := cfg.agg.merge, Joined(s.streams);
    hide Joined, Only;
    if cfg.combine {
      forall k ensures SameTotal(merge, Only(cfg.Part(), lifted, p), Only(cfg.Part(), j + it, p), k) {
        assert KeptTotal(cfg, s, lifted, k);
        TotalOfOnly(cfg, j + it, p, k);
        TotalOfOnly(cfg, lifted, p, k);
        TotalAppend(merge, j, it, k);
        TotalOfDistinctPermutation(merge, s.pairs, it, k);
      }
    } else {
      assert multiset(j + it) == multiset(j + s.pairs);
      OnlyOfPermutation(cfg, j + it, lifted, p);
    }
  }

  lemma SourcesJoined<K, V, C>(cfg: Config<K, V, C>, streams: seq<seq<(K, C)>>, it: seq<(K, C)>, p: nat)
    ensures Joined(Sources(cfg, streams, it, p)) == Only(cfg.Part(), Joined(streams) + it, p)
  {
    PartsJoined(cfg, streams + [it], p);
    JoinedSnoc(streams, it);
  }

  lemma SourcesSorted<K(!new), V, C>(cfg: Config<K, V, C>, streams: seq<seq<(K, C)>>, it: seq<(K, C)>, p: nat)
    requires AllShaped(cfg, streams) && SpillOrder(cfg, true, it) && cfg.Keyed()
    ensures AllSorted(cfg.cmp, Sources(cfg, streams, it, p))
  {
    forall i | 0 <= i < |streams + [it]| ensures SpillOrder(cfg, true, (streams + [it])[i]) {
      assert i < |streams| ==> SpillShaped(cfg, streams[i]);
    }
    PartsSorted(cfg, streams + [it], p);
  }

  /** The merging path. */
  lemma MergedIsRight<K(!new), V(!new), C(!new)>(cfg: Config<K, V, C>, s: State<K, C>, lifted: seq<(K, C)>,
        it: seq<(K, C)>,
                                               p: nat, out: seq<(K, C)>)
    requires Proper(cfg) && ReduceSound(cfg, s, lifted) && Iterates(cfg, cfg.Keyed(), s.pairs, it)
    requires cfg.combine ==> Lawful(cfg.agg) && Commutative(cfg.agg.merge) && (cfg.ordered ==> TotalOrder(cfg.cmp))
    requires DeliversPartition(cfg, Sources(cfg, s.streams, it, p), out)
    ensures Right(cfg, Only(cfg.Part(), lifted, p), out)
  {
    var iters := Sources(cfg, s.streams, it, p);
    KeptByPartition(cfg, s, lifted, it, p);
    SourcesJoined(cfg, s.streams, it, p);
    if cfg.Keyed() {
      SourcesSorted(cfg, s.streams, it, p);
    }
    JoinedContents(iters);
    hide Only, Joined, Sources, AllShaped, Iterates, MergesWithAggregation, MergesTo;
    hide Kept, Total, AllSorted, Contents, NonEmpty;
    if cfg.combine {
      AggregatesAcrossIterators(cfg.cmp, cfg.agg.merge, cfg.ordered, iters, out);
      SameItems(cfg.agg.merge, Joined(iters), Only(cfg.Part(), lifted, p), out);
      IncreasingIsSorted(cfg.cmp, out);
    } else if cfg.ordered {
      KWayMerge(cfg.cmp, iters, out);
    }
  }

  lemma IncreasingIsSorted<K(!new), C>(cmp: (K, K) -> int, out: seq<(K, C)>)
    ensures StrictlyIncreasing(cmp, out) ==> Sorted(cmp, out)
  {
  }

  lemma SameItems<K(!new), C>(merge: (C, C) -> C, got: seq<(K, C)>, items: seq<(K, C)>, out: seq<(K, C)>)
    requires Aggregates(merge, got, out) && forall k :: SameTotal(merge, items, got, k)
    ensures Aggregates(merge, items, out)
  {
    forall k ensures SameTotal(merge, items, out, k) {
      assert SameTotal(merge, items, got, k) && SameTotal(merge, got, out, k);
    }
  }

  lemma {:induction false} OnlyDistinct<K, V, C>(cfg: Config<K, V, C>, s: seq<(K, C)>, p: nat)
    requires DistinctKeys(s)
    ensures DistinctKeys(Only(cfg.Part(), s, p))
  {
    if s != [] {
      OnlyDistinct(cfg, s[1..], p);
      forall j | 0 <= j < |Only(cfg.Part(), s[1..], p)| ensures s[0].0 != Only(cfg.Part(), s[1..], p)[j].0 {
        OnlyHas(cfg.Part(), s[1..], p, j);
      }
    }
  }

  /** The path without spilled streams. */
  lemma UnmergedIsRight<K(!new), V(!new), C(!new)>(cfg: Config<K, V, C>, s: State<K, C>, lifted: seq<(K, C)>,
        it: seq<(K, C)>, p: nat)
    requires Proper(cfg) && ReduceSound(cfg, s, lifted) && s.streams == [] && Iterates(cfg, cfg.ordered, s.pairs, it)
    requires cfg.combine ==> Lawful(cfg.agg)
    ensures Right(cfg, Only(cfg.Part(), lifted, p), Only(cfg.Part(), it, p))
  {
    KeptByPartition(cfg, s, lifted, it, p);
    assert Joined(s.streams) + it == it;
    if cfg.ordered {
      OnlySorted(cfg, it, p);
    }
    hide Only, Joined;
    if cfg.combine {
      DistinctPermutation(s.pairs, it);
      OnlyDistinct(cfg, it, p);
    }
  }

  /** Whatever was spilled when, on whichever path, and however ties are broken: partition p is given
      each of its keys once with the total of all that was inserted under it, or without an aggregator
      exactly the records of the partition; and with an ordering they come sorted. */
  lemma PartitionedIteratorIsRight<K(!new), V(!new), C(!new)>(cfg: Config<K, V, C>, ops: seq<Op<K, V, C>>,
        it: seq<(K, C)>, outs: seq<seq<(K, C)>>)
    requires Proper(cfg) && AllowedRun(cfg, false, State([], []), ops)
    requires cfg.combine ==> Lawful(cfg.agg) && Commutative(cfg.agg.merge) && (cfg.ordered ==> TotalOrder(cfg.cmp))
    requires Delivers(cfg, Run(cfg, false, State([], []), ops), it, outs)
    ensures |outs| == cfg.n
    ensures forall p :: 0 <= p < cfg.n ==> Right(cfg, Only(cfg.Part(), Lifted(cfg, ops), p), outs[p])
    ensures Routed(cfg, Lifted(cfg, ops), outs)
    ensures !cfg.Keyed() ==> Queued(cfg, Run(cfg, false, State([], []), ops), it, outs)
  {
    var start: State<K, C>, s := State([], []), Run(cfg, false, State([], []), ops);
    StartIsSound(cfg);
    RunKeepsReduce(cfg, start, [], ops);
    assert [] + Lifted(cfg, ops) == Lifted(cfg, ops);
    hide Run, AllowedRun, ReduceSound, Right, Iterates, DeliversPartition, Lifted;
    forall p | 0 <= p < cfg.n ensures Right(cfg, Only(cfg.Part(), Lifted(cfg, ops), p), outs[p]) {
      if s.streams == [] {
        UnmergedIsRight(cfg, s, Lifted(cfg, ops), it, p);
      } else {
        MergedIsRight(cfg, s, Lifted(cfg, ops), it, p, outs[p]);
      }
    }
    PartsAreRouted(cfg, Lifted(cfg, ops), outs);
    if !cfg.Keyed() {
      PartsAreQueued(cfg, s, it, outs);
    }
  }

  /** With neither an aggregator nor an ordering: what was spilled first comes first, and what is in
      memory last. */
  ghost predicate Queued<K(!new), V, C>(cfg: Config<K, V, C>, s: State<K, C>, it: seq<(K, C)>,
                                        outs: seq<seq<(K, C)>>) {
    |outs| == cfg.n && forall p :: 0 <= p < cfg.n ==> outs[p] == Only(cfg.Part(), Joined(s.streams) + it, p)
  }

  lemma PartsAreQueued<K(!new), V(!new), C(!new)>(cfg: Config<K, V, C>, s: State<K, C>, it: seq<(K, C)>,
                                                  outs: seq<seq<(K, C)>>)
    requires !cfg.Keyed() && Delivers(cfg, s, it, outs)
    ensures Queued(cfg, s, it, outs)
  {
    forall p | 0 <= p < cfg.n ensures outs[p] == Only(cfg.Part(), Joined(s.streams) + it, p) {
      if s.streams == [] {
        assert Joined(s.streams) + it == it;
      } else {
        SourcesJoined(cfg, s.streams, it, p);
        assert DeliversPartition(cfg, Sources(cfg, s.streams, it, p), outs[p]);
      }
    }
  }

  lemma StartIsSound<K(!new), V, C>(cfg: Config<K, V, C>)
    ensures ReduceSound(cfg, State([], []), [])
  {
    var s: State<K, C> := State([], []);
    assert forall k :: KeptTotal(cfg, s, [], k);
    assert Joined(s.streams) + s.pairs == [];
  }

  lemma {:induction false} OnlyAll<T>(part: T -> nat, s: seq<T>, p: nat)
    requires forall i :: 0 <= i < |s| ==> part(s[i]) == p
    ensures Only(part, s, p) == s
  {
    if s != [] {
      OnlyAll(part, s[1..], p);
    }
  }

  /** Partition p is given the keys for which the partitioner names p, and only those, each as it should
      be; a single partition is given all. */
  ghost predicate Routed<K(!new), V, C>(cfg: Config<K, V, C>, items: seq<(K, C)>, outs: seq<seq<(K, C)>>) {
    && |outs| == cfg.n
    && (cfg.n == 1 ==> Right(cfg, items, outs[0]))
    && (cfg.n > 1 ==> forall p :: 0 <= p < cfg.n ==> RoutedTo(cfg, items, p, outs[p]))
  }

  ghost predicate RoutedTo<K(!new), V, C>(cfg: Config<K, V, C>, items: seq<(K, C)>, p: nat, out: seq<(K, C)>) {
    && Right(cfg, Only(ByKey(cfg.partitioner), items, p), out)
    && forall k :: KeyRouted(cfg, items, p, out, k)
  }

  predicate KeyRouted<K(==), V, C>(cfg: Config<K, V, C>, items: seq<(K, C)>, p: nat, out: seq<(K, C)>, k: K) {
    Occurs(out, k) <==> Occurs(items, k) && cfg.partitioner(k) == p
  }

  lemma SameItemsOccur<K(!new), C>(a: seq<(K, C)>, b: seq<(K, C)>, k: K)
    requires multiset(a) == multiset(b) && Occurs(a, k)
    ensures Occurs(b, k)
  {
    var i :| 0 <= i < |a| && a[i].0 == k;
    assert a[i] in multiset(b);
    var j :| 0 <= j < |b| && b[j] == a[i];
  }

  lemma RightOccurs<K(!new), V, C>(cfg: Config<K, V, C>, items: seq<(K, C)>, out: seq<(K, C)>, k: K)
    requires Right(cfg, items, out)
    ensures Occurs(out, k) <==> Occurs(items, k)
  {
    if cfg.combine {
      assert SameTotal(cfg.agg.merge, items, out, k);
      TotalIffOccurs(cfg.agg.merge, items, k);
      TotalIffOccurs(cfg.agg.merge, out, k);
    } else if Occurs(out, k) {
      SameItemsOccur(out, items, k);
    } else if Occurs(items, k) {
      SameItemsOccur(items, out, k);
    }
  }

  lemma {:induction false} OnlyOccurs<K, C>(partitioner: K -> nat, s: seq<(K, C)>, p: nat, k: K)
    ensures Occurs(Only(ByKey(partitioner), s, p), k) <==> Occurs(s, k) && partitioner(k) == p
  {
    var part: ((K, C)) -> nat := ByKey(partitioner);
    if s == [] {
      OnlyNil(part, p);
    } else {
      OnlyCons(part, s, p);
      OnlyOccurs(partitioner, s[1..], p, k);
      OccursCons(s, k);
      if part(s[0]) == p {
        var t := [s[0]] + Only(part, s[1..], p);
        OccursCons(t, k);
        assert t[1..] == Only(part, s[1..], p);
      }
    }
  }

  lemma OccursCons<K, C>(s: seq<(K, C)>, k: K)
    requires s != []
    ensures Occurs(s, k) <==> s[0].0 == k || Occurs(s[1..], k)
  {
    if Occurs(s, k) && s[0].0 != k {
      var i :| 0 <= i < |s| && s[i].0 == k;
      assert s[1..][i - 1].0 == k;
    }
    if Occurs(s[1..], k) {
      var i :| 0 <= i < |s[1..]| && s[1..][i].0 == k;
      assert s[i + 1].0 == k;
    }
  }

  lemma PartsAreRouted<K(!new), V, C>(cfg: Config<K, V, C>, items: seq<(K, C)>, outs: seq<seq<(K, C)>>)
    requires |outs| == cfg.n && forall p :: 0 <= p < cfg.n ==> Right(cfg, Only(cfg.Part(), items, p), outs[p])
    ensures Routed(cfg, items, outs)
  {
    hide Right, Only;
    PartIsNamed(cfg, items, 0);
    forall p | 0 <= p < cfg.n && cfg.n > 1 ensures RoutedTo(cfg, items, p, outs[p]) {
      PartIsNamed(cfg, items, p);
      forall k ensures KeyRouted(cfg, items, p, outs[p], k) {
        RightOccurs(cfg, Only(cfg.Part(), items, p), outs[p], k);
        OnlyOccurs(cfg.partitioner, items, p, k);
      }
    }
  }

  /** A sorter without an ordering: keys are compared by hash code. */
  function HashConfig<K, V, C>(partitioner: K -> nat, n: nat, hash: K -> int, combine: bool, agg: Aggregator<V, C>)
    : Config<K, V, C>
  {
    Config(partitioner, n, (a, b) => HashCompare(hash, a, b), false, combine, agg)
  }

  /** In order of hash codes. */
  predicate ByHash<K, C>(hash: K -> int, s: seq<(K, C)>) {
    forall i, j :: 0 <= i < j < |s| ==> hash(s[i].0) <= hash(s[j].0)
  }

  /** With any hash code, colliding or not: what an aggregating sorter spills is in order of hash codes,
      and each partition is given its keys as it should be. */
  lemma HashSorterIsRight<K(!new), V(!new), C(!new)>(partitioner: K -> nat, n: nat, hash: K -> int, combine: bool,
        agg: Aggregator<V, C>, ops: seq<Op<K, V, C>>, it: seq<(K, C)>, outs: seq<seq<(K, C)>>)
    requires n > 0 && forall k :: n > 1 ==> partitioner(k) < n
    requires combine ==> Lawful(agg) && Commutative(agg.merge)
    ensures Proper(HashConfig(partitioner, n, hash, combine, agg))
    ensures var cfg: Config<K, V, C> := HashConfig(partitioner, n, hash, combine, agg);
      AllowedRun(cfg, false, State([], []), ops) ==>
        && (combine ==> forall s :: s in Run(cfg, false, State([], []), ops).streams ==> ByHash(hash, s))
        && (Delivers(cfg, Run(cfg, false, State([], []), ops), it, outs) ==> Routed(cfg, Lifted(cfg, ops), outs))
  {
    HashCompares(hash);
    var cfg: Config<K, V, C> := HashConfig(partitioner, n, hash, combine, agg);
    if AllowedRun(cfg, false, State([], []), ops) {
      HashStreams(cfg, hash, ops);
      hide Run, AllowedRun, Lifted, Routed, Right, ByHash, Delivers;
      if Delivers(cfg, Run(cfg, false, State([], []), ops), it, outs) {
        PartitionedIteratorIsRight(cfg, ops, it, outs);
      }
    }
  }

  lemma HashStreams<K(!new), V(!new), C(!new)>(cfg: Config<K, V, C>, hash: K -> int, ops: seq<Op<K, V, C>>)
    requires Proper(cfg) && AllowedRun(cfg, false, State([], []), ops) && (cfg.combine ==> Lawful(cfg.agg))
    requires forall a, b :: cfg.cmp(a, b) <= 0 <==> hash(a) <= hash(b)
    ensures cfg.combine ==> forall s :: s in Run(cfg, false, State([], []), ops).streams ==> ByHash(hash, s)
  {
    StartIsSound(cfg);
    RunKeepsReduce(cfg, State([], []), [], ops);
    hide Run, AllowedRun, Lifted;
    forall s: seq<(K, C)> | s in Run(cfg, false, State([], []), ops).streams && cfg.combine ensures ByHash(hash, s) {
      assert SpillShaped(cfg, s);
      forall i, j | 0 <= i < j < |s| ensures hash(s[i].0) <= hash(s[j].0) {
        assert Before(cfg, cfg.Keyed(), s[i].0, s[j].0);
      }
    }
  }

  /** sortByKey with one partition: the output is sorted and a permutation of everything inserted. */
  lemma ExternalSortIsRight<K(!new), V(!new), C(!new)>(cfg: Config<K, V, C>, ops: seq<Op<K, V, C>>,
        it: seq<(K, C)>, outs: seq<seq<(K, C)>>)
    requires Proper(cfg) && cfg.n == 1 && cfg.ordered && !cfg.combine && AllowedRun(cfg, false, State([], []), ops)
    requires Delivers(cfg, Run(cfg, false, State([], []), ops), it, outs)
    ensures |outs| == 1 && Sorted(cfg.cmp, outs[0]) && multiset(outs[0]) == multiset(Lifted(cfg, ops))
  {
    PartitionedIteratorIsRight(cfg, ops, it, outs);
    assert Right(cfg, Only(cfg.Part(), Lifted(cfg, ops), 0), outs[0]);
    OnlyAll(cfg.Part(), Lifted(cfg, ops), 0);
  }

  // ---- the object ----

  function Whole<K, C>(stored: seq<seq<(K, C)>>, buffered: seq<seq<(K, C)>>): seq<seq<(K, C)>>
    requires |stored| == |buffered|
  {
    seq(|stored|, i requires 0 <= i < |stored| => stored[i] + buffered[i])
  }

  /** No stream but `b` holds anything back. */
  ghost predicate HeldOnlyBy<K(!new), C>(buffered: seq<seq<(K, C)>>, b: int) {
    forall i :: 0 <= i < |buffered| && i != b ==> buffered[i] == []
  }

  lemma ForcedWhole<K(!new), C>(stored: seq<seq<(K, C)>>, buffered: seq<seq<(K, C)>>, b: nat)
    requires |stored| == |buffered| && b < |stored| && HeldOnlyBy(buffered, b)
    ensures var s, f := stored[b := stored[b] + buffered[b]], buffered[b := []];
      HeldOnlyBy(f, -1) && Whole(s, f) == Whole(stored, buffered) == s
  {
    var s := stored[b := stored[b] + buffered[b]];
    assert Whole(stored, buffered) == s by {
      forall i | 0 <= i < |s| ensures Whole(stored, buffered)[i] == s[i] {
        assert i != b ==> stored[i] + [] == stored[i];
      }
    }
    assert Whole(s, buffered[b := []]) == s by {
      forall i | 0 <= i < |s| ensures s[i] + buffered[b := []][i] == s[i] {
        assert s[i] + [] == s[i];
      }
    }
  }

  lemma WrittenWhole<K, C>(stored: seq<seq<(K, C)>>, buffered: seq<seq<(K, C)>>, b: nat, x: (K, C))
    requires |stored| == |buffered| && b < |stored|
    ensures var w := Whole(stored, buffered);
      Whole(stored, buffered[b := buffered[b] + [x]]) == w[b := w[b] + [x]]
  {
    assert stored[b] + (buffered[b] + [x]) == stored[b] + buffered[b] + [x];
  }

  lemma OpenedWhole<K, C>(stored: seq<seq<(K, C)>>, buffered: seq<seq<(K, C)>>, x: (K, C))
    requires |stored| == |buffered|
    ensures Whole(stored + [[]], buffered + [[x]]) == Whole(stored, buffered) + [[x]]
  {
    var none: seq<(K, C)> := [];
    assert none + [x] == [x];
  }

  lemma FlushedWhole<K(!new), C>(stored: seq<seq<(K, C)>>, buffered: seq<seq<(K, C)>>)
    requires |stored| == |buffered| && HeldOnlyBy(buffered, -1)
    ensures Whole(stored, buffered) == stored
  {
    forall i | 0 <= i < |stored| ensures stored[i] + buffered[i] == stored[i] {
      assert stored[i] + [] == stored[i];
    }
  }

  lemma PartsSnoc<K, V, C>(cfg: Config<K, V, C>, streams: seq<seq<(K, C)>>, s: seq<(K, C)>, p: nat)
    ensures Parts(cfg, streams + [s], p) == Parts(cfg, streams, p) + [Only(cfg.Part(), s, p)]
  {
    if streams == [] {
      assert streams + [s] == [s] && Parts(cfg, [s], p) == [Only(cfg.Part(), s, p)] + Parts(cfg, [], p);
    } else {
      PartsSnoc(cfg, streams[1..], s, p);
      assert (streams + [s])[1..] == streams[1..] + [s];
    }
  }

  /** The merge of one partition's iterators. */
  method MergePartition<K(!new,==), V, C(!new)>(cfg: Config<K, V, C>, iters: seq<seq<(K, C)>>)
    returns (out: seq<(K, C)>)
    requires Proper(cfg)
    ensures DeliversPartition(cfg, iters, out)
  {
    if !cfg.combine && !cfg.ordered {
      return Joined(iters);
    }
    var merger := new Merger(iters, cfg.cmp);
    var sorted := merger.Drain();
    if !cfg.combine {
      return sorted;
    }
    if !cfg.ordered {
      var groups := new GroupMerger(sorted, cfg.cmp, cfg.agg.merge);
      out := groups.Drain();
    } else {
      var runs := new RunMerger(sorted, cfg.agg.merge);
      out := runs.Drain();
    }
  }

  /** The elements of the partition whose turn it is, off the front of a stream. */
  method TakeTurn<K, V, C>(cfg: Config<K, V, C>, left: seq<(K, C)>, p: nat, ghost all: seq<(K, C)>)
    returns (out: seq<(K, C)>, rest: seq<(K, C)>)
    requires InOrder(cfg.Part(), all) && left == From(cfg.Part(), all, p)
    ensures out == Only(cfg.Part(), all, p) && rest == From(cfg.Part(), all, p + 1)
  {
    var buffer := new SharedBuffer(left, cfg.Part());
    out := buffer.DrainPartition(p, all);
    rest := buffer.data;
  }

  lemma PlacedNext<K, V, C>(cfg: Config<K, V, C>, mapStage: bool, streams: seq<seq<(K, C)>>, it: seq<(K, C)>, i: nat)
    requires i < |it| && (mapStage ==> |streams| == cfg.n && Within(cfg.Part(), it, cfg.n))
    ensures var s, x := Placed(cfg, mapStage, streams, it[..i]), it[i];
      Placed(cfg, mapStage, streams, it[..i + 1]) ==
        if mapStage then s[cfg.Part()(x) := s[cfg.Part()(x)] + [x]] else Continued(cfg, s, it[..i], x)
  {
    assert it[..i + 1][..i] == it[..i] && it[..i + 1][i] == it[i];
  }

  class Sorter<K(!new,==), V(!new), C(!new)> {
    const cfg: Config<K, V, C>
    const threshold: nat
    var collection: seq<(K, C)>
    var stored: seq<seq<(K, C)>>    // by stream: what forced spills have stored
    var buffered: seq<seq<(K, C)>>  // by stream: what was written behind it
    var mapStage: bool
    var elementsRead: nat

    /** Between two calls nothing is held back. */
    ghost predicate Flushed()
      reads this
    {
      |stored| == |buffered| && HeldOnlyBy(buffered, -1) && (mapStage ==> |stored| == cfg.n)
    }

    /** And off the map side every stream is one run of one partition. */
    ghost predicate Valid()
      reads this
    {
      Flushed() && (!mapStage ==> AllShaped(cfg, stored))
    }

    ghost function View(): State<K, C>
      reads this
    {
      State(collection, stored)
    }

    constructor (cfg: Config<K, V, C>, threshold: nat)
      ensures Valid() && View() == State([], []) && !mapStage && elementsRead == 0
      ensures this.cfg == cfg && this.threshold == threshold
    {
      this.cfg, this.threshold := cfg, threshold;
      collection, stored, buffered, mapStage, elementsRead := [], [], [], false, 0;
    }

    /** One stream for each partition, as the shuffle writer hands them over. */
    method SetPartitionByteBufferArray()
      requires Valid() && View() == State([], [])
      modifies `stored, `buffered, `mapStage
      ensures Valid() && mapStage && View() == StartOfMap(cfg)
    {
      stored, buffered := seq(cfg.n, _ => []), seq(cfg.n, _ => []);
      mapStage := true;
    }

    method GetPartitionByteBufferArray(partitionId: nat) returns (b: nat)
      requires |stored| == |buffered| && (mapStage ==> partitionId < |stored|)
      modifies `stored, `buffered
      ensures |stored| == |buffered| && b < |stored|
      ensures mapStage ==> b == partitionId && stored == old(stored) && buffered == old(buffered)
      ensures !mapStage ==> b == |stored| - 1 && stored == old(stored) + [[]] && buffered == old(buffered) + [[]]
    {
      if mapStage {
        return partitionId;
      }
      stored, buffered := stored + [[]], buffered + [[]];
      b := |stored| - 1;
    }

    method ForceSpill(b: nat)
      requires |stored| == |buffered| && b < |stored| && HeldOnlyBy(buffered, b)
      modifies `stored, `buffered
      ensures |stored| == |buffered| == old(|stored|) && HeldOnlyBy(buffered, -1)
      ensures Whole(stored, buffered) == old(Whole(stored, buffered)) == stored
    {
      ForcedWhole(stored, buffered, b);
      stored, buffered := stored[b := stored[b] + buffered[b]], buffered[b := []];
    }

    /** The element goes to the stream at hand, or to the one of its own partition. */
    method PlaceNext(x: (K, C), cur: int, b: nat, ghost front: seq<(K, C)>) returns (b': nat)
      requires |stored| == |buffered| && (mapStage ==> |stored| == cfg.n && cfg.Part()(x) < cfg.n)
      requires cur == -1 <==> front == []
      requires cur != -1 ==> cur == cfg.Part()(front[|front| - 1])
      requires cur != -1 ==> b < |stored| && b == (if mapStage then cur else |stored| - 1)
      requires HeldOnlyBy(buffered, if cur == -1 then -1 else b)
      modifies `stored, `buffered
      ensures |stored| == |buffered| && b' < |stored| && HeldOnlyBy(buffered, b')
      ensures b' == if mapStage then cfg.Part()(x) else |stored| - 1
      ensures var w := old(Whole(stored, buffered));
        Whole(stored, buffered) ==
          if mapStage then w[cfg.Part()(x) := w[cfg.Part()(x)] + [x]] else Continued(cfg, w, front, x)
    {
      var partitionId := cfg.PartitionOf(x.0);
      b' := b;
      ghost var before := buffered;
      if cur != partitionId {
        if cur != -1 {
          ForceSpill(b');
        }
        OpenedWhole(stored, buffered, x);
        before := buffered;
        b' := GetPartitionByteBufferArray(partitionId);
      }
      WrittenWhole(stored, buffered, b', x);
      buffered := buffered[b' := buffered[b'] + [x]];
      if !mapStage && cur != partitionId {
        assert buffered[b'] == [x];
        assert buffered == before + [[x]];
      }
    }

    /** The first i elements are placed, the last of them in stream b, which alone holds any back. */
    ghost predicate Placing(start: seq<seq<(K, C)>>, it: seq<(K, C)>, i: nat, cur: int, b: nat)
      requires i <= |it| && Within(cfg.Part(), it, cfg.n)
      reads this
    {
      && |stored| == |buffered| && (mapStage ==> |stored| == |start| == cfg.n) && (cur == -1 <==> i == 0)
      && (cur != -1 ==> cur == cfg.Part()(it[i - 1]) && b < |stored| && b == if mapStage then cur else |stored| - 1)
      && HeldOnlyBy(buffered, if cur == -1 then -1 else b)
      && Whole(stored, buffered) == Placed(cfg, mapStage, start, it[..i])
    }

    lemma PartWithin(it: seq<(K, C)>, i: nat)
      requires i < |it| && Within(cfg.Part(), it, cfg.n)
      ensures cfg.Part()(it[i]) < cfg.n
    {
    }

    method PlaceAt(it: seq<(K, C)>, i: nat, cur: int, b: nat, ghost start: seq<seq<(K, C)>>)
      returns (cur': int, b': nat)
      requires i < |it| && Within(cfg.Part(), it, cfg.n) && Placing(start, it, i, cur, b)
      modifies `stored, `buffered
      ensures Placing(start, it, i + 1, cur', b')
    {
      hide Placed, Continued, HeldOnlyBy;
      PlacedNext(cfg, mapStage, start, it, i);
      PartWithin(it, i);
      ghost var front := it[..i];
      assert front != [] ==> front[|front| - 1] == it[i - 1];
      b' := PlaceNext(it[i], cur, b, front);
      cur' := cfg.PartitionOf(it[i].0);
    }

    /** Every element goes to its stream, and every stream written to is forced out. */
    method SpillMemoryIteratorToPmem(it: seq<(K, C)>)
      requires Flushed() && Within(cfg.Part(), it, cfg.n)
      modifies `stored, `buffered
      ensures Flushed() && stored == Placed(cfg, mapStage, old(stored), it)
    {
      var cur: int, b: nat, i: nat := -1, 0, 0;
      ghost var start := stored;
      FlushedWhole(stored, buffered);
      assert it[..i] == [] && Placing(start, it, 0, cur, b);
      while i < |it|
        invariant i <= |it| && Placing(start, it, i, cur, b)
      {
        cur, b := PlaceAt(it, i, cur, b, start);
        i := i + 1;
      }
      assert it[..i] == it;
      hide Placed, HeldOnlyBy, Within;
      if cur != -1 {
        ForceSpill(b);
      }
      FlushedWhole(stored, buffered);
    }

    /** spill, `it` being the collection's destructive sorted iterator. */
    method Spill(it: seq<(K, C)>)
      requires Valid() && Proper(cfg) && Iterates(cfg, cfg.Keyed(), collection, it)
      modifies this
      ensures mapStage == old(mapStage) && elementsRead == old(elementsRead)
      ensures Valid() && View() == Spilled(cfg, mapStage, old(View()), it)
    {
      AlwaysWithin(cfg, it);
      if !mapStage {
        PlacedInRuns(cfg, stored, it);
      }
      hide AllShaped, HeldOnlyBy, Placed, Iterates, Proper;
      SpillMemoryIteratorToPmem(it);
      collection := [];
    }

    /** maybeSpill: at every 32nd element, when the collection has grown to the threshold. */
    method MaybeSpill(currentMemory: nat, it: seq<(K, C)>) returns (shouldSpill: bool)
      requires Valid() && Proper(cfg) && Iterates(cfg, cfg.Keyed(), collection, it)
      modifies this
      ensures Valid() && shouldSpill == (elementsRead % 32 == 0 && currentMemory >= threshold)
      ensures mapStage == old(mapStage) && elementsRead == old(elementsRead)
      ensures View() == if shouldSpill then Spilled(cfg, mapStage, old(View()), it) else old(View())
    {
      shouldSpill := false;
      if elementsRead % 32 == 0 && currentMemory >= threshold {
        shouldSpill := currentMemory >= threshold;
      }
      if shouldSpill {
        Spill(it);
      }
    }

    /** One round of insertAll. */
    method Insert(key: K, value: V, currentMemory: nat, it: seq<(K, C)>) returns (spilled: bool)
      requires Valid() && Proper(cfg) && Iterates(cfg, cfg.Keyed(), Inserted(cfg, View(), key, value).pairs, it)
      modifies this
      ensures Valid() && elementsRead == old(elementsRead) + 1 && mapStage == old(mapStage)
      ensures var s := Do(cfg, mapStage, old(View()), Op.Insert(key, value));
        View() == if spilled then Do(cfg, mapStage, s, Op.Spill(it)) else s
      ensures spilled == (elementsRead % 32 == 0 && currentMemory >= threshold)
    {
      elementsRead := elementsRead + 1;
      if cfg.combine {
        collection := Changed(cfg.agg, collection, key, value);
      } else {
        collection := collection + [(key, cfg.agg.create(value))];
      }
      spilled := MaybeSpill(currentMemory, it);
    }

    method ForceSpillToPmem(it: seq<(K, C)>) returns (ok: bool)
      requires Valid() && Proper(cfg) && Iterates(cfg, cfg.Keyed(), collection, it)
      modifies this
      ensures mapStage == old(mapStage)
      ensures Valid() && ok && View() == Spilled(cfg, mapStage, old(View()), it)
    {
      Spill(it);
      ok := true;
    }

    /** The turn of one partition on all streams. */
    method TakeAll(readers: seq<seq<(K, C)>>, p: nat, ghost streams: seq<seq<(K, C)>>)
      returns (iters: seq<seq<(K, C)>>, rest: seq<seq<(K, C)>>)
      requires |readers| == |streams|
      requires forall i :: 0 <= i < |streams| ==> InOrder(cfg.Part(), streams[i])
      requires forall i :: 0 <= i < |streams| ==> readers[i] == From(cfg.Part(), streams[i], p)
      ensures iters == Parts(cfg, streams, p) && |rest| == |streams|
      ensures forall i :: 0 <= i < |streams| ==> rest[i] == From(cfg.Part(), streams[i], p + 1)
    {
      hide Only, From, InOrder;
      iters, rest := [], [];
      for i := 0 to |readers|
        invariant iters == Parts(cfg, streams[..i], p) && |rest| == i
        invariant forall j :: 0 <= j < i ==> rest[j] == From(cfg.Part(), streams[j], p + 1)
      {
        var front, left := TakeTurn(cfg, readers[i], p, streams[i]);
        PartsSnoc(cfg, streams[..i], streams[i], p);
        assert streams[..i + 1] == streams[..i] + [streams[i]];
        iters, rest := iters + [front], rest + [left];
      }
      assert streams[..|readers|] == streams;
    }

    /** merge: the partitions one after the other, each over all streams and what is in memory. */
    method Merge(inMemory: seq<(K, C)>) returns (outs: seq<seq<(K, C)>>)
      requires Proper(cfg) && InOrder(cfg.Part(), inMemory)
      requires forall i :: 0 <= i < |stored| ==> InOrder(cfg.Part(), stored[i])
      ensures |outs| == cfg.n
      ensures forall p :: 0 <= p < cfg.n ==> DeliversPartition(cfg, Sources(cfg, stored, inMemory, p), outs[p])
    {
      hide Only, From, InOrder, Parts, DeliversPartition, Proper;
      outs := [];
      var all := stored + [inMemory];
      var readers := all;
      forall i | 0 <= i < |all| ensures readers[i] == From(cfg.Part(), all[i], 0) && InOrder(cfg.Part(), all[i]) {
        FromStart(cfg.Part(), all[i]);
      }
      for p := 0 to cfg.n
        invariant |outs| == p && |readers| == |all|
        invariant forall i :: 0 <= i < |all| ==> readers[i] == From(cfg.Part(), all[i], p)
        invariant forall q :: 0 <= q < p ==> DeliversPartition(cfg, Parts(cfg, all, q), outs[q])
      {
        var iters, rest := TakeAll(readers, p, all);
        readers := rest;
        var out := MergePartition(cfg, iters);
        outs := outs + [out];
      }
    }

    lemma StreamsInOrder(it: seq<(K, C)>, keyed: bool)
      requires AllShaped(cfg, stored) && SpillOrder(cfg, keyed, it)
      ensures InOrder(cfg.Part(), it) && forall i :: 0 <= i < |stored| ==> InOrder(cfg.Part(), stored[i])
    {
      OrderIsInOrder(cfg, keyed, it);
      forall i | 0 <= i < |stored| ensures InOrder(cfg.Part(), stored[i]) {
        assert SpillShaped(cfg, stored[i]);
        OrderIsInOrder(cfg, cfg.Keyed(), stored[i]);
      }
    }

    /** partitionedIterator, its iterators drained in order. */
    method PartitionedIterator(it: seq<(K, C)>) returns (outs: seq<seq<(K, C)>>)
      requires Valid() && !mapStage && Proper(cfg)
      requires Iterates(cfg, if stored == [] then cfg.ordered else cfg.Keyed(), collection, it)
      ensures Delivers(cfg, View(), it, outs)
    {
      StreamsInOrder(it, if stored == [] then cfg.ordered else cfg.Keyed());
      if stored == [] {
        AlwaysWithin(cfg, it);
        var buffer := new SharedBuffer(it, cfg.Part());
        outs := buffer.GroupByPartition(cfg.n);
      } else {
        outs := Merge(it);
      }
    }
  }

  lemma OrderIsInOrder<K(!new), V, C>(cfg: Config<K, V, C>, keyed: bool, it: seq<(K, C)>)
    requires SpillOrder(cfg, keyed, it)
    ensures InOrder(cfg.Part(), it)
  {
    forall i, j | 0 <= i < j < |it| ensures cfg.Part()(it[i]) <= cfg.Part()(it[j]) {
      assert Before(cfg, keyed, it[i].0, it[j].0);
    }
  }
}
