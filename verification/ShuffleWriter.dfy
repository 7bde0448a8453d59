/** core/.../shuffle/nvm/nvmShuffleWriter.scala: the records of a map task, routed to one stream for
    each partition. */
module ShuffleWriters {
  import opened Bytes
  import opened OutputStreams
  import opened BlockStreams
  import opened RecordStreams
  import opened BlockStreamLaws
  import opened BlockInput
  import opened InputStreams
  import opened Options
  import opened Aggregation
  import opened PartitionIterators
  import opened PmemKv
  import ExternalSorter
  import StoredSorters

  /** The records of partition p among those routed so far. */
  function Share<O>(partitioner: O -> nat, rs: seq<Record<O>>, p: nat): seq<Record<O>> {
    Only(KeyPartition(partitioner), rs, p)
  }

  lemma ShareNone<O>(partitioner: O -> nat, p: nat)
    ensures Share(partitioner, [], p) == []
  {
    OnlyNil(KeyPartition(partitioner), p);
  }

  lemma ShareSnoc<O>(partitioner: O -> nat, rs: seq<Record<O>>, r: Record<O>, p: nat)
    ensures Share(partitioner, rs + [r], p) ==
      if partitioner(r.0) == p then Share(partitioner, rs, p) + [r] else Share(partitioner, rs, p)
  {
    var part := KeyPartition(partitioner);
    OnlyAppend(part, rs, [r], p);
    OnlyCons(part, [r], p);
    OnlyNil(part, p);
    assert Only(part, rs, p) + [] == Only(part, rs, p);
  }

  lemma ShareGrows<O>(c: Codec<O>, partitioner: O -> nat, rs: seq<Record<O>>, more: seq<Record<O>>, p: nat)
    ensures Overflows(c, Share(partitioner, rs, p)) ==> Overflows(c, Share(partitioner, rs + more, p))
  {
    OnlyAppend(KeyPartition(partitioner), rs, more, p);
    BytesAdd(c, Share(partitioner, rs, p), Share(partitioner, more, p));
  }

  /** The length reported for a complete stream; it is 0 where nothing was spilled. */
  lemma LengthOfComplete<O>(c: Codec<O>, w: Writer, rs: seq<Record<O>>)
    requires Complete(c, w, rs)
    ensures (if w.spilled then w.size else 0) == Wrap32(|RecordBytes(c, rs)|)
  {
  }

  /** What a reducer reads of a complete stream: its records, in order, and then null. */
  lemma ReducerReads<O(!new)>(c: Codec<O>, w: Writer, rs: seq<Record<O>>, k: nat)
    requires SelfDelimiting(c) && Complete(c, w, rs) && rs != [] && |RecordBytes(c, rs)| <= INT_MAX
    ensures Opened(w.blocks).Loaded()
    ensures ItemOf(c, AfterItems(c, Reading(Opened(w.blocks).buf.Contents(), w.records, 0, false), k)) ==
      if k < |rs| then Pair(rs[k]) else Null
  {
    OpenLoads(w.blocks);
    ItemNumber(c, rs, |rs|, k);
  }

  function BytesList<O>(c: Codec<O>, rs: seq<Record<O>>): seq<seq<Byte>> {
    if rs == [] then [] else [PairBytes(c, rs[0])] + BytesList(c, rs[1..])
  }

  lemma {:induction false} BytesListIs<O(!new)>(c: Codec<O>, rs: seq<Record<O>>)
    requires SelfDelimiting(c)
    ensures |BytesList(c, rs)| == |rs| && Flatten(BytesList(c, rs)) == RecordBytes(c, rs) && [] !in BytesList(c, rs)
  {
    if rs != [] {
      BytesListIs(c, rs[1..]);
      assert c.encode(rs[0].0) != [];
      assert BytesList(c, rs)[1..] == BytesList(c, rs[1..]);
    }
  }

  /** Whatever the throttle: the records of a partition are safe from overflow with every serializer
      exactly when they fit the buffer of its stream together. */
  lemma PartitionSurvivesIff<O(!new)>(c: Codec<O>, rs: seq<Record<O>>, throttle: int)
    requires SelfDelimiting(c)
    ensures |BytesList(c, rs)| == |rs|
    ensures (forall pushes: seq<nat> :: |pushes| == |rs| ==> Survives(BytesList(c, rs), pushes, throttle))
      <==> !Overflows(c, rs)
  {
    BytesListIs(c, rs);
    EveryChoiceSucceedsIff(BytesList(c, rs), throttle);
  }

  class ShuffleWriter<O(!new,==)> {
    const on: Setup<O>          // with ShuffleBlockId(stageId, mapId, partitionId).name as id of stream partitionId
    const numPartitions: nat
    const partitioner: O -> nat
    var streams: seq<BlockOutputStream<O>>
    var spillPartitionArray: seq<nat>
    var partitionLengths: seq<int>

    ghost predicate Proper() { SelfDelimiting(on.codec) && forall k :: partitioner(k) < numPartitions }

    /** The block ids are new to the store, and their hashes differ. */
    ghost predicate FreshIds()
      reads on.kv, on.kv.dev
    {
      DistinctIds(on, numPartitions) && forall p :: 0 <= p < numPartitions ==> Unused(on, p)
    }

    constructor (on: Setup<O>, numPartitions: nat, partitioner: O -> nat)
      ensures streams == [] && partitionLengths == seq(numPartitions, _ => 0) && this.on == on
      ensures this.numPartitions == numPartitions && this.partitioner == partitioner
    {
      this.on, this.numPartitions, this.partitioner := on, numPartitions, partitioner;
      streams, spillPartitionArray, partitionLengths := [], [], seq(numPartitions, _ => 0);
    }

    /** One stream for each partition. */
    method CreateStreams()
      requires on.kv.Valid() && FreshIds()
      modifies `streams
      ensures |streams| == numPartitions && AllMade(on, streams)
      ensures forall p :: 0 <= p < numPartitions ==>
        fresh(streams[p]) && fresh(streams[p].out) && fresh(streams[p].out.byteBuffer)
      ensures forall p :: 0 <= p < numPartitions ==> streams[p].Valid() && streams[p].State() == START
    {
      hide Kv.Valid, Kv.Log, Stored, BlockOutputStream.Valid, BlockOutputStream.State;
      streams := [];
      for p := 0 to numPartitions
        invariant |streams| == p && AllMade(on, streams)
        invariant forall q :: 0 <= q < p ==>
          fresh(streams[q]) && fresh(streams[q].out) && fresh(streams[q].out.byteBuffer)
        invariant forall q :: 0 <= q < p ==> streams[q].Valid() && streams[q].State() == START
      {
        var stream := CreateStream(on, p);
        MadeSnoc(on, streams, stream);
        streams := streams + [stream];
      }
    }

    /** A stream holds these records; without a throttle, all in its buffer. */
    ghost predicate HoldsShare(w: Writer, rs: seq<Record<O>>) { Holding(on.codec, on.throttle, w, rs, 0) }

    lemma NotInFootprint(ss: seq<BlockOutputStream<O>>)
      ensures this !in Footprint(ss)
    {
    }

    /** The records, each to the stream of its partition. */
    method Route(records: seq<Record<O>>) returns (ok: bool)
      requires Proper() && on.kv.Valid() && |streams| == numPartitions && AllMade(on, streams)
      requires forall p :: 0 <= p < numPartitions ==> streams[p].Valid() && streams[p].State() == START
      modifies Footprint(streams), on.kv, on.kv.dev, on.kv.index
      ensures on.kv.Valid()
      ensures forall p :: 0 <= p < |streams| ==> streams[p].Valid()
      ensures ok ==> forall p :: 0 <= p < |streams| ==>
        HoldsShare(streams[p].State(), Share(partitioner, records, p))
      ensures !ok ==> exists p: nat :: Overflows(on.codec, Share(partitioner, records, p))
    {
      hide Holding, Share, SelfDelimiting, Exceeds, Kv.Valid, Kv.Log, Stored;
      hide BlockOutputStream.Valid, BlockOutputStream.State, AllApart, Footprint;
      var ss := streams;
      NotInFootprint(ss);
      ok := true;
      StartShares(records[..0]);
      for i := 0 to |records|
        invariant on.kv.Valid() && ok
        invariant forall p :: 0 <= p < |ss| ==> ss[p].Valid()
        invariant forall p :: 0 <= p < |ss| ==> HoldsShare(ss[p].State(), Share(partitioner, records[..i], p))
      {
        var partitionId := partitioner(records[i].0);
        InFootprint(ss, partitionId);
        assert Made(on, ss[partitionId], partitionId);
        ok := WriteTo(on, ss[partitionId], records[i], ss, partitionId,
                      Share(partitioner, records[..i], partitionId), 0);
        assert records[..i + 1] == records[..i] + [records[i]];
        ShareSnoc(partitioner, records[..i], records[i], partitionId);
        if !ok {
          assert records == records[..i + 1] + records[i + 1..];
          ShareGrows(on.codec, partitioner, records[..i + 1], records[i + 1..], partitionId);
          return;
        }
        forall p | 0 <= p < |ss|
          ensures ss[p].Valid() && HoldsShare(ss[p].State(), Share(partitioner, records[..i + 1], p))
        {
          ShareSnoc(partitioner, records[..i], records[i], p);
        }
      }
      assert records[..|records|] == records;
    }

    lemma StartShares(none: seq<Record<O>>)
      requires none == []
      ensures forall p: nat :: HoldsShare(START, Share(partitioner, none, p))
    {
      hide Holds, Share;
      StartIsComplete(on.codec);
      CompleteHolds(on.codec, on.throttle, START, []);
      assert HoldsShare(START, []);
      hide HoldsShare;
      forall p: nat ensures HoldsShare(START, Share(partitioner, none, p)) {
        ShareNone(partitioner, p);
      }
    }

    /** A forced spill of every stream. */
    method ForceAll(ghost records: seq<Record<O>>) returns (ok: bool)
      requires on.kv.Valid() && |streams| == numPartitions && AllMade(on, streams)
      requires forall p :: 0 <= p < |streams| ==>
        streams[p].Valid() && HoldsShare(streams[p].State(), Share(partitioner, records, p))
      modifies Footprint(streams), on.kv, on.kv.dev, on.kv.index
      ensures on.kv.Valid()
      ensures forall p :: 0 <= p < |streams| ==> streams[p].Valid()
      ensures ok ==> forall p :: 0 <= p < |streams| ==>
        Complete(on.codec, streams[p].State(), Share(partitioner, records, p))
      ensures ok && on.throttle == -1 ==> forall p :: 0 <= p < |streams| ==>
        !Overflows(on.codec, Share(partitioner, records, p))
      ensures !ok ==> exists p: nat :: Overflows(on.codec, Share(partitioner, records, p))
    {
      hide Holding, Share, Complete, Exceeds, Kv.Valid, Kv.Log, Stored;
      hide BlockOutputStream.Valid, BlockOutputStream.State, AllApart, Footprint;
      var ss := streams;
      NotInFootprint(ss);
      ok := true;
      for i := 0 to |ss|
        invariant on.kv.Valid() && ok
        invariant forall p :: 0 <= p < |ss| ==> ss[p].Valid()
        invariant forall p :: 0 <= p < i ==> Complete(on.codec, ss[p].State(), Share(partitioner, records, p))
        invariant on.throttle == -1 ==> forall p :: 0 <= p < i ==> !Overflows(on.codec, Share(partitioner, records, p))
        invariant forall p :: i <= p < |ss| ==> HoldsShare(ss[p].State(), Share(partitioner, records, p))
      {
        InFootprint(ss, i);
        assert Made(on, ss[i], i);
        ok := ForceTo(on, ss[i], ss, i, Share(partitioner, records, i), 0);
        if !ok {
          return;
        }
      }
    }

    /** Which streams spilled, and how much: the others keep the length 0. */
    method CollectLengths()
      requires |streams| == numPartitions == |partitionLengths|
      modifies `spillPartitionArray, `partitionLengths
      ensures |partitionLengths| == numPartitions
      ensures forall p :: 0 <= p < numPartitions ==>
        partitionLengths[p] == if streams[p].spilled then streams[p].size else old(partitionLengths[p])
      ensures forall p :: p in spillPartitionArray <==> 0 <= p < numPartitions && streams[p].spilled
    {
      var spilledPartition := 0;
      spillPartitionArray := [];
      while spilledPartition < numPartitions
        invariant spilledPartition <= numPartitions && partitionLengths == old(partitionLengths)
        invariant forall p :: p in spillPartitionArray <==> 0 <= p < spilledPartition && streams[p].spilled
      {
        if streams[spilledPartition].spilled {
          spillPartitionArray := spillPartitionArray + [spilledPartition];
        }
        spilledPartition := spilledPartition + 1;
      }
      ghost var spilled := spillPartitionArray;
      for i := 0 to |spillPartitionArray|
        invariant spillPartitionArray == spilled
        invariant |partitionLengths| == numPartitions
        invariant forall p :: 0 <= p < numPartitions ==>
          partitionLengths[p] == if p in spillPartitionArray[..i] then streams[p].size else old(partitionLengths[p])
      {
        var p := spillPartitionArray[i];
        assert p in spillPartitionArray;
        partitionLengths := partitionLengths[p := streams[p].size];
        assert spillPartitionArray[..i + 1] == spillPartitionArray[..i] + [p];
      }
      assert spillPartitionArray[..|spillPartitionArray|] == spillPartitionArray;
    }

    lemma ClosesComplete(w: Writer, rs: seq<Record<O>>)
      requires w.out.Valid() && Complete(on.codec, w, rs)
      ensures FlushOut(w).(out := EMPTY) == w
    {
      assert w.blocks + [] == w.blocks;
    }

    /** close stores what is pending, which after a forced spill is nothing. */
    method CloseTo(s: BlockOutputStream<O>, ghost ss: seq<BlockOutputStream<O>>, ghost p: nat, ghost rs: seq<Record<O>>)
      requires p < |ss| && s == ss[p] && AllMade(on, ss) && on.kv.Valid()
      requires forall q :: 0 <= q < |ss| ==> ss[q].Valid()
      requires Complete(on.codec, s.State(), rs)
      modifies s.out, on.kv, on.kv.dev, on.kv.index
      ensures on.kv.Valid() && forall q :: 0 <= q < |ss| ==> Kept(ss[q])
    {
      hide Complete, Kv.Valid, Kv.Log, Stored;
      assert Made(on, ss[p], p);
      ClosesComplete(s.State(), rs);
      hide BlockOutputStream.Valid, BlockOutputStream.State, FlushOut;
      s.Close();
      assert forall q :: 0 <= q < |ss| && q != p ==> Apart(ss[p], ss[q]);
      forall q | 0 <= q < |ss| && q != p ensures Kept(ss[q]) {
        assert OtherStored(on.kv.hash(ss[q].out.blockId), old(on.kv.Log()), on.kv.Log());
        StateKept(ss[q]);
      }
    }

    method CloseAll(ss: seq<BlockOutputStream<O>>, ghost contents: seq<seq<Record<O>>>)
      requires on.kv.Valid() && |ss| == |contents| && AllMade(on, ss)
      requires forall p :: 0 <= p < |ss| ==> ss[p].Valid() && Complete(on.codec, ss[p].State(), contents[p])
      modifies Footprint(ss), on.kv, on.kv.dev, on.kv.index
      ensures on.kv.Valid()
      ensures forall p :: 0 <= p < |ss| ==> ss[p].Valid() && Complete(on.codec, ss[p].State(), contents[p])
    {
      hide Complete, Kv.Valid, Kv.Log, Stored;
      hide BlockOutputStream.Valid, BlockOutputStream.State, AllApart, Footprint;
      for i := 0 to |ss|
        invariant on.kv.Valid()
        invariant forall p :: 0 <= p < |ss| ==> ss[p].Valid() && Complete(on.codec, ss[p].State(), contents[p])
      {
        InFootprint(ss, i);
        CloseTo(ss[i], ss, i, contents[i]);
      }
    }

    /** Some partition has more bytes than the buffer of a stream. */
    ghost predicate TooMuch(records: seq<Record<O>>) {
      exists p: nat :: Overflows(on.codec, Share(partitioner, records, p))
    }

    lemma NoneBeyond(records: seq<Record<O>>, p: nat)
      requires Proper() && p >= numPartitions
      ensures !Overflows(on.codec, Share(partitioner, records, p))
    {
      forall i | 0 <= i < |records| ensures KeyPartition(partitioner)(records[i]) != p {
        assert partitioner(records[i].0) < numPartitions;
      }
      OnlyNone(KeyPartition(partitioner), records, p);
    }

    ghost predicate LengthIs(length: int, rs: seq<Record<O>>) {
      var bytes := |RecordBytes(on.codec, rs)|;
      length == Wrap32(bytes) && (length == bytes <==> bytes < 0x8000_0000)
    }

    /** write, without map-side combining: stream p gets exactly the records of partition p in the
        order they came, and its length is their number of bytes exactly while that fits an Int.
        Without a throttle it fails exactly when some partition has more bytes than the buffer of a
        stream; with one, only then. */
    method Write(records: seq<Record<O>>) returns (ok: bool)
      requires Proper() && on.kv.Valid() && FreshIds()
      requires streams == [] && partitionLengths == seq(numPartitions, _ => 0)
      modifies this, on.kv, on.kv.dev, on.kv.index
      ensures on.kv.Valid() && |streams| == numPartitions && AllMade(on, streams)
      ensures !ok ==> TooMuch(records)
      ensures on.throttle == -1 ==> (ok <==> !TooMuch(records))
      ensures ok ==> |partitionLengths| == numPartitions
      ensures ok ==> forall p :: 0 <= p < numPartitions ==>
        streams[p].Valid() && Complete(on.codec, streams[p].State(), Share(partitioner, records, p))
      ensures ok ==> forall p :: 0 <= p < numPartitions ==>
        LengthIs(partitionLengths[p], Share(partitioner, records, p))
    {
      hide Complete, Share, HoldsShare, SelfDelimiting, Overflows, Kv.Valid, Kv.Log, Stored;
      hide BlockOutputStream.Valid, FreshIds, AllMade, BlockOutputStream.State;
      CreateStreams();
      NotInFootprint(streams);
      FreshFootprint(streams);
      ok := Route(records);
      if !ok {
        return;
      }
      ok := ForceAll(records);
      if !ok {
        return;
      }
      forall p: nat | on.throttle == -1 ensures !Overflows(on.codec, Share(partitioner, records, p)) {
        if p >= numPartitions {
          NoneBeyond(records, p);
        }
      }
      ghost var shares := seq(numPartitions, p requires 0 <= p < numPartitions => Share(partitioner, records, p));
      Lengths(shares);
      CloseAll(streams, shares);
    }

    /** What stream p holds of a key folds to its combiner when the partitioner names p, and else it holds
        nothing of it. */
    ghost predicate ShareFolds<V>(cfg: ExternalSorter.Config<O, V, O>, stream: seq<Record<O>>, pairs: seq<Record<O>>,
                                  p: nat, k: O)
    {
      && Total(cfg.agg.merge, stream, k) == (if partitioner(k) == p then Total(cfg.agg.merge, pairs, k) else None)
      && (Occurs(stream, k) <==> partitioner(k) == p && Occurs(pairs, k))
    }

    lemma CombinedShares<V(!new)>(cfg: ExternalSorter.Config<O, V, O>, ops: seq<ExternalSorter.Op<O, V, O>>,
                                  last: seq<Record<O>>)
      requires Proper() && cfg.n == numPartitions && cfg.partitioner == partitioner
      requires ExternalSorter.Proper(cfg) && ExternalSorter.Lawful(cfg.agg) && cfg.combine
      requires ExternalSorter.AllowedRun(cfg, true, ExternalSorter.StartOfMap(cfg), ops)
      requires var s := ExternalSorter.Run(cfg, true, ExternalSorter.StartOfMap(cfg), ops);
        ExternalSorter.Iterates(cfg, cfg.Keyed(), s.pairs, last)
      ensures var end := StoredSorters.Combined(cfg, ops, last);
        forall p, k :: 0 <= p < numPartitions ==>
          ShareFolds(cfg, end.streams[p], ExternalSorter.InMemory(cfg, ops), p, k)
    {
      StoredSorters.CombinedFolds(cfg, ops, last);
      var end, pairs := StoredSorters.Combined(cfg, ops, last), ExternalSorter.InMemory(cfg, ops);
      hide StoredSorters.Combined, ExternalSorter.Run, ExternalSorter.AllowedRun, ExternalSorter.Iterates;
      hide ExternalSorter.InMemory, SelfDelimiting;
      forall p, k | 0 <= p < numPartitions ensures ShareFolds(cfg, end.streams[p], pairs, p, k) {
        assert partitioner(k) < numPartitions && ExternalSorter.FoldsIn(cfg, end.streams[p], pairs, p, k);
        TotalIffOccurs(cfg.agg.merge, end.streams[p], k);
        TotalIffOccurs(cfg.agg.merge, pairs, k);
      }
    }

    /** write, with map-side combining: whatever the sorter spills when, stream p gets only keys of partition
        p, and folding what it holds of a key gives the combiner that inserting everything without any
        spill leaves in memory. It fails only when a spill has some combiners of one partition in a row
        with more bytes than the buffer of a stream; and without a throttle whenever one has. */
    method WriteCombined<V(!new)>(cfg: ExternalSorter.Config<O, V, O>, ops: seq<ExternalSorter.Op<O, V, O>>,
                                  last: seq<Record<O>>) returns (ok: bool)
      requires Proper() && on.kv.Valid() && FreshIds() && cfg.n == numPartitions && cfg.partitioner == partitioner
      requires ExternalSorter.Proper(cfg) && ExternalSorter.Lawful(cfg.agg) && cfg.combine
      requires ExternalSorter.AllowedRun(cfg, true, ExternalSorter.StartOfMap(cfg), ops)
      requires var s := ExternalSorter.Run(cfg, true, ExternalSorter.StartOfMap(cfg), ops);
        ExternalSorter.Iterates(cfg, cfg.Keyed(), s.pairs, last)
      requires streams == [] && partitionLengths == seq(numPartitions, _ => 0)
      modifies this, on.kv, on.kv.dev, on.kv.index
      ensures on.kv.Valid() && |streams| == numPartitions && AllMade(on, streams)
      ensures !ok ==> StoredSorters.AnyTooLong(cfg, on.codec, ops) || StoredSorters.TooLong(cfg, on.codec, last)
      ensures on.throttle == -1 ==>
        (ok <==> !StoredSorters.AnyTooLong(cfg, on.codec, ops) && !StoredSorters.TooLong(cfg, on.codec, last))
      ensures ok ==> |partitionLengths| == numPartitions
      ensures var end := StoredSorters.Combined(cfg, ops, last);
        && (ok ==> forall p :: 0 <= p < numPartitions ==>
            && streams[p].Valid() && Complete(on.codec, streams[p].State(), end.streams[p])
            && LengthIs(partitionLengths[p], end.streams[p]))
        && forall p, k :: 0 <= p < numPartitions ==>
            ShareFolds(cfg, end.streams[p], ExternalSorter.InMemory(cfg, ops), p, k)
    {
      hide Complete, SelfDelimiting, Kv.Valid, Kv.Log, Stored, StoredSorters.Combined, ExternalSorter.Run, AllMade;
      hide ExternalSorter.AllowedRun, ExternalSorter.Iterates, ExternalSorter.Proper, ExternalSorter.Belongs;
      hide ExternalSorter.FoldsTo, ExternalSorter.Lawful, StoredSorters.AnyTooLong, StoredSorters.TooLong;
      hide BlockOutputStream.Valid, BlockOutputStream.State;
      CombinedShares(cfg, ops, last);
      ghost var contents := StoredSorters.Combined(cfg, ops, last).streams;
      CreateStreams();
      NotInFootprint(streams);
      FreshFootprint(streams);
      ok := StoredSorters.CombineOnMap(cfg, on, streams, ops, last);
      if ok {
        Lengths(contents);
        CloseAll(streams, contents);
      }
    }

    /** Fresh streams have a fresh footprint. */
    twostate lemma FreshFootprint(new ss: seq<BlockOutputStream<O>>)
      requires forall p :: 0 <= p < |ss| ==> fresh(ss[p]) && fresh(ss[p].out) && fresh(ss[p].out.byteBuffer)
      ensures fresh(Footprint(ss))
    {
    }

    method Lengths(ghost contents: seq<seq<Record<O>>>)
      requires |streams| == |contents| == numPartitions && partitionLengths == seq(numPartitions, _ => 0)
      requires forall p :: 0 <= p < |streams| ==>
        streams[p].Valid() && Complete(on.codec, streams[p].State(), contents[p])
      modifies `spillPartitionArray, `partitionLengths
      ensures |partitionLengths| == numPartitions
      ensures forall p :: 0 <= p < numPartitions ==>
        LengthIs(partitionLengths[p], contents[p])
    {
      hide Complete, Kv.Log, Stored;
      ghost var ss := streams;
      CollectLengths();
      forall p | 0 <= p < numPartitions ensures LengthIs(partitionLengths[p], contents[p]) {
        LengthOfComplete(on.codec, ss[p].State(), contents[p]);
      }
    }
  }
}
