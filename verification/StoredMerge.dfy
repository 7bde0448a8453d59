/** merge of core/.../nvm/nvmExternalSorter.scala over what is stored: the spilled streams are read
    back from their blocks, record by record, while they are merged. */
module StoredMerge {
  import opened Aggregation
  import opened BlockInput
  import opened MergeSort
  import opened PartitionIterators
  import opened ExternalSorter

  /** Two readers share no object. */
  ghost predicate Apart<O(!new)>(a: SpillReader<O>, b: SpillReader<O>) {
    && a != b && a.stream != b.stream && a.stream.input != b.stream.input && a.stream.input.buf != b.stream.input.buf
  }

  ghost predicate AllApart<O(!new)>(readers: seq<SpillReader<O>>) {
    forall i, j :: 0 <= i < |readers| && 0 <= j < |readers| && i != j ==> Apart(readers[i], readers[j])
  }

  ghost function Footprint<O(!new)>(readers: seq<SpillReader<O>>): set<object> {
    (set r: SpillReader<O> | r in readers :: r as object)
    + (set r: SpillReader<O> | r in readers :: r.stream as object)
    + (set r: SpillReader<O> | r in readers :: r.stream.input as object)
    + (set r: SpillReader<O> | r in readers :: r.stream.input.buf as object)
  }

  lemma InFootprint<O(!new)>(readers: seq<SpillReader<O>>, i: nat)
    requires i < |readers|
    ensures readers[i] in Footprint(readers) && readers[i].stream in Footprint(readers)
    ensures readers[i].stream.input in Footprint(readers) && readers[i].stream.input.buf in Footprint(readers)
  {
    assert readers[i] in readers;
  }

  /** The reader asks for the partitions of this sorter. */
  ghost predicate Asks<O(!new), V>(cfg: Config<O, V, O>, r: SpillReader<O>) {
    forall k :: r.getPartition(k) == cfg.PartitionOf(k)
  }

  /** And its stream is in their order. */
  ghost predicate Reads<O(!new), V>(cfg: Config<O, V, O>, r: SpillReader<O>) {
    Asks(cfg, r) && InOrder(cfg.Part(), r.records)
  }

  /** So it hands over the elements that the sorter wants. */
  lemma ReadsSame<O(!new), V>(cfg: Config<O, V, O>, r: SpillReader<O>, p: nat)
    requires Reads(cfg, r)
    ensures InOrder(KeyPartition(r.getPartition), r.records)
    ensures Only(KeyPartition(r.getPartition), r.records, p) == Only(cfg.Part(), r.records, p)
    ensures From(KeyPartition(r.getPartition), r.records, p) == From(cfg.Part(), r.records, p)
  {
    var a, b := KeyPartition(r.getPartition), cfg.Part();
    assert forall i :: 0 <= i < |r.records| ==> a(r.records[i]) == b(r.records[i]);
    SamePart(a, b, r.records, p);
  }

  /** A reader, with what is left from partition p on. */
  ghost predicate At<O(!new), V>(cfg: Config<O, V, O>, r: SpillReader<O>, p: nat)
    reads r, r.stream, r.stream.input, r.stream.input.buf, r.stream.input.buf.bufData
  {
    r.Valid() && r.Left() == From(cfg.Part(), r.records, p)
  }

  ghost function Records<O(!new)>(readers: seq<SpillReader<O>>): (r: seq<seq<Record<O>>>)
    ensures |r| == |readers| && forall i :: 0 <= i < |r| ==> r[i] == readers[i].records
  {
    seq(|readers|, i requires 0 <= i < |readers| => readers[i].records)
  }

  /** One partition of one stream. */
  method TakePartition<O(!new,==), V>(cfg: Config<O, V, O>, r: SpillReader<O>, p: nat) returns (out: seq<Record<O>>)
    requires Reads(cfg, r) && At(cfg, r, p)
    modifies r, r.stream, r.stream.input, r.stream.input.buf
    ensures At(cfg, r, p + 1) && out == Only(cfg.Part(), r.records, p)
  {
    ReadsSame(cfg, r, p);
    ReadsSame(cfg, r, p + 1);
    out := r.DrainPartition(p);
  }

  /** One partition of every stream, in the order of the streams. */
  method TakeAll<O(!new,==), V>(cfg: Config<O, V, O>, readers: seq<SpillReader<O>>, p: nat)
    returns (iters: seq<seq<Record<O>>>)
    requires AllApart(readers)
    requires forall i :: 0 <= i < |readers| ==> Reads(cfg, readers[i]) && At(cfg, readers[i], p)
    modifies Footprint(readers)
    ensures forall i :: 0 <= i < |readers| ==> At(cfg, readers[i], p + 1)
    ensures iters == Parts(cfg, Records(readers), p)
  {
    hide At, Reads, Footprint, Only, Parts;
    iters := [];
    ghost var all := Records(readers);
    PartsNone(cfg, all[..0], p);
    for i := 0 to |readers|
      invariant iters == Parts(cfg, all[..i], p)
      invariant forall j :: 0 <= j < i ==> At(cfg, readers[j], p + 1)
      invariant forall j :: i <= j < |readers| ==> At(cfg, readers[j], p)
    {
      InFootprint(readers, i);
      assert forall j :: 0 <= j < |readers| && j != i ==> Apart(readers[i], readers[j]);
      var out := TakePartition(cfg, readers[i], p);
      PartsSnoc(cfg, all[..i], all[i], p);
      assert all[..i + 1] == all[..i] + [all[i]];
      iters := iters + [out];
    }
    assert all[..|readers|] == all;
  }

  lemma PartsNone<K, V, C>(cfg: Config<K, V, C>, none: seq<seq<(K, C)>>, p: nat)
    requires none == []
    ensures Parts(cfg, none, p) == []
  {
  }

  /** merge: the partitions in order, each over the stored streams and what is in memory. */
  method Merge<O(!new,==), V>(cfg: Config<O, V, O>, readers: seq<SpillReader<O>>, inMemory: seq<Record<O>>)
    returns (outs: seq<seq<Record<O>>>)
    requires Proper(cfg) && AllApart(readers) && InOrder(cfg.Part(), inMemory)
    requires forall i :: 0 <= i < |readers| ==> Reads(cfg, readers[i]) && At(cfg, readers[i], 0)
    modifies Footprint(readers)
    ensures |outs| == cfg.n
    ensures forall p :: 0 <= p < cfg.n ==>
      DeliversPartition(cfg, Sources(cfg, Records(readers), inMemory, p), outs[p])
  {
    hide At, Reads, Footprint, Only, From, Parts, AllApart, InOrder, DeliversPartition, Proper;
    outs := [];
    var left := inMemory;
    FromStart(cfg.Part(), inMemory);
    for p := 0 to cfg.n
      invariant |outs| == p && left == From(cfg.Part(), inMemory, p)
      invariant forall i :: 0 <= i < |readers| ==> At(cfg, readers[i], p)
      invariant forall q :: 0 <= q < p ==>
        DeliversPartition(cfg, Sources(cfg, Records(readers), inMemory, q), outs[q])
    {
      var iters := TakeAll(cfg, readers, p);
      var here, rest := TakeTurn(cfg, left, p, inMemory);
      left := rest;
      PartsSnoc(cfg, Records(readers), inMemory, p);
      var out := MergePartition(cfg, iters + [here]);
      outs := outs + [out];
    }
  }

  /** The whole of the reduce side over stored bytes: whatever was inserted and spilled when, each
      partition is given each of its keys once with the combiner of everything inserted, or without an
      aggregator exactly its records; and with an ordering they come sorted. */
  method PartitionedIterator<O(!new,==), V(!new)>(cfg: Config<O, V, O>, readers: seq<SpillReader<O>>,
                                                  it: seq<Record<O>>, ghost ops: seq<Op<O, V, O>>)
    returns (outs: seq<seq<Record<O>>>)
    requires Proper(cfg) && AllowedRun(cfg, false, State([], []), ops)
    requires cfg.combine ==> Lawful(cfg.agg) && Commutative(cfg.agg.merge) && (cfg.ordered ==> TotalOrder(cfg.cmp))
    requires readers != [] && AllApart(readers)
    requires Records(readers) == Run(cfg, false, State([], []), ops).streams
    requires forall i :: 0 <= i < |readers| ==> Asks(cfg, readers[i])
    requires forall i :: 0 <= i < |readers| ==> readers[i].Valid() && readers[i].Left() == readers[i].records
    requires Iterates(cfg, cfg.Keyed(), Run(cfg, false, State([], []), ops).pairs, it)
    modifies Footprint(readers)
    ensures |outs| == cfg.n
    ensures forall p :: 0 <= p < cfg.n ==> Right(cfg, Only(cfg.Part(), Lifted(cfg, ops), p), outs[p])
    ensures Routed(cfg, Lifted(cfg, ops), outs)
  {
    RunInOrder(cfg, readers, it, ops);
    forall i | 0 <= i < |readers| ensures At(cfg, readers[i], 0) && Reads(cfg, readers[i]) {
      FromStart(cfg.Part(), readers[i].records);
    }
    hide Run, AllowedRun, Iterates, Lifted, Right, Only, At, Reads, Footprint, AllApart, Proper, DeliversPartition;
    outs := Merge(cfg, readers, it);
    PartitionedIteratorIsRight(cfg, ops, it, outs);
  }

  /** What a run spills and what it leaves in memory is in the order of partitions. */
  lemma RunInOrder<O(!new), V(!new)>(cfg: Config<O, V, O>, readers: seq<SpillReader<O>>, it: seq<Record<O>>,
                                     ops: seq<Op<O, V, O>>)
    requires Proper(cfg) && AllowedRun(cfg, false, State([], []), ops) && (cfg.combine ==> Lawful(cfg.agg))
    requires Records(readers) == Run(cfg, false, State([], []), ops).streams
    requires Iterates(cfg, cfg.Keyed(), Run(cfg, false, State([], []), ops).pairs, it)
    ensures InOrder(cfg.Part(), it)
    ensures forall i :: 0 <= i < |readers| ==> InOrder(cfg.Part(), readers[i].records)
  {
    StartIsSound(cfg);
    RunKeepsReduce(cfg, State([], []), [], ops);
    var s := Run(cfg, false, State([], []), ops);
    hide Run, AllowedRun, Lifted, Kept;
    OrderIsInOrder(cfg, cfg.Keyed(), it);
    forall i | 0 <= i < |readers| ensures InOrder(cfg.Part(), readers[i].records) {
      assert s.streams[i] == readers[i].records && SpillShaped(cfg, s.streams[i]);
      OrderIsInOrder(cfg, cfg.Keyed(), s.streams[i]);
    }
  }
}
