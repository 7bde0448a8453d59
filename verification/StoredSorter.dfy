/** core/.../nvm/nvmExternalSorter.scala with its streams as objects on one store: what ExternalSorter
    keeps as sequences of records is written as bytes, stored in blocks and opened again to be merged. */
module StoredSorters {
  import opened Bytes
  import opened BlockStreams
  import opened RecordStreams
  import opened BlockInput
  import opened InputStreams
  import opened PartitionIterators
  import opened ExternalSorter
  import opened PmemKv
  import opened PmemLog
  import opened Aggregation
  import opened MergeSort
  import StoredMerge

  // ---- runs of one partition ----

  /** Elements j to k are of one partition. */
  predicate Stretch<K, V, C>(cfg: Config<K, V, C>, it: seq<(K, C)>, j: nat, k: nat) {
    j <= k <= |it| && forall i :: j <= i < k ==> cfg.Part()(it[i]) == cfg.Part()(it[j])
  }

  /** The stretch from j to i starts where its partition does. */
  predicate Starts<K, V, C>(cfg: Config<K, V, C>, it: seq<(K, C)>, j: nat, i: nat) {
    Stretch(cfg, it, j, i) && (0 < j < i ==> cfg.Part()(it[j - 1]) != cfg.Part()(it[j]))
  }

  /** No stretch that ends before i has more bytes than the buffer of a stream. */
  ghost predicate NoneTooLong<O, V>(cfg: Config<O, V, O>, c: Codec<O>, it: seq<Record<O>>, i: nat) {
    forall j: nat, k: nat :: k <= i && Stretch(cfg, it, j, k) ==> !Overflows(c, it[j..k])
  }

  /** Some records of one partition in a row have more bytes than the buffer of a stream. */
  ghost predicate TooLong<O, V>(cfg: Config<O, V, O>, c: Codec<O>, it: seq<Record<O>>) {
    !NoneTooLong(cfg, c, it, |it|)
  }

  lemma PartIsShorter<O>(c: Codec<O>, it: seq<Record<O>>, a: nat, j: nat, k: nat, b: nat)
    requires a <= j <= k <= b <= |it|
    ensures |RecordBytes(c, it[j..k])| <= |RecordBytes(c, it[a..b])|
  {
    BytesAdd(c, it[a..j], it[j..k]);
    BytesAdd(c, it[a..k], it[k..b]);
    assert it[a..j] + it[j..k] == it[a..k] && it[a..k] + it[k..b] == it[a..b];
  }

  lemma StretchWithin<K, V, C>(cfg: Config<K, V, C>, it: seq<(K, C)>, j: nat, i: nat, a: nat, k: nat)
    requires Starts(cfg, it, j, i) && Stretch(cfg, it, a, k) && j < k <= i
    ensures j <= a
  {
  }

  /** When the run that ends at i fits a buffer, so does every stretch up to it. */
  lemma RunFits<O, V>(cfg: Config<O, V, O>, c: Codec<O>, it: seq<Record<O>>, j: nat, i: nat)
    requires Starts(cfg, it, j, i) && j < i && NoneTooLong(cfg, c, it, j) && !Overflows(c, it[j..i])
    ensures NoneTooLong(cfg, c, it, i)
  {
    forall a: nat, k: nat | k <= i && Stretch(cfg, it, a, k) ensures !Overflows(c, it[a..k]) {
      if k > j {
        StretchWithin(cfg, it, j, i, a, k);
        PartIsShorter(c, it, j, a, k, i);
      }
    }
  }

  lemma RunTooLong<O, V>(cfg: Config<O, V, O>, c: Codec<O>, it: seq<Record<O>>, j: nat, i: nat)
    requires Stretch(cfg, it, j, i) && Overflows(c, it[j..i])
    ensures TooLong(cfg, c, it)
  {
  }

  lemma NothingTooLong<O, V>(cfg: Config<O, V, O>, c: Codec<O>, it: seq<Record<O>>)
    ensures NoneTooLong(cfg, c, it, 0)
  {
    forall j: nat, k: nat | k <= 0 && Stretch(cfg, it, j, k) ensures !Overflows(c, it[j..k]) {
      assert it[j..k] == [];
    }
  }

  /** Where the run of the next element starts. */
  function RunStart<K, V, C>(cfg: Config<K, V, C>, it: seq<(K, C)>, j: nat, i: nat): nat
    requires i < |it|
  {
    if 0 < i && cfg.Part()(it[i - 1]) == cfg.Part()(it[i]) then j else i
  }

  lemma StretchGrows<K, V, C>(cfg: Config<K, V, C>, it: seq<(K, C)>, j: nat, i: nat)
    requires i < |it| && Starts(cfg, it, j, i) && (0 < i ==> j < i)
    ensures RunStart(cfg, it, j, i) <= i && Starts(cfg, it, RunStart(cfg, it, j, i), i + 1)
    ensures Stretch(cfg, it, RunStart(cfg, it, j, i), i + 1)
  {
  }

  // ---- the streams, on values ----

  /** The stream was complete before the last records, `run`, were written. */
  ghost predicate Open<O>(on: Setup<O>, w: Writer, rs: seq<Record<O>>, run: seq<Record<O>>) {
    && |RecordBytes(on.codec, run)| <= |RecordBytes(on.codec, rs)|
    && Holding(on.codec, on.throttle, w, rs, |RecordBytes(on.codec, rs)| - |RecordBytes(on.codec, run)|)
  }

  lemma ExceedsIff<O>(c: Codec<O>, rs: seq<Record<O>>, run: seq<Record<O>>, before: nat)
    requires |RecordBytes(c, rs)| == before + |RecordBytes(c, run)|
    ensures Exceeds(c, rs, before) <==> Overflows(c, run)
  {
  }

  predicate NoBlocks(log: seq<Entry>, key: nat) { Stored(log, key) == [] }

  /** The streams hold these contents, and all but one have stored them; that one has yet to be forced,
      with `run` its last records. The ids of more streams, up to the limit, are not used yet. */
  ghost predicate Filled<O>(on: Setup<O>, limit: nat, ws: seq<Writer>, log: seq<Entry>,
                            contents: seq<seq<Record<O>>>, open: int, run: seq<Record<O>>)
  {
    && |ws| == |contents| && -1 <= open < |ws|
    && (forall q :: 0 <= q < |ws| && q != open ==> Complete(on.codec, ws[q], contents[q]))
    && (open >= 0 ==> Open(on, ws[open], contents[open], run))
    && forall p :: |ws| <= p < limit ==> NoBlocks(log, on.KeyOf(p))
  }

  lemma Reopened<O>(on: Setup<O>, limit: nat, ws: seq<Writer>, log: seq<Entry>, contents: seq<seq<Record<O>>>, b: nat)
    requires Filled(on, limit, ws, log, contents, -1, []) && b < |ws|
    ensures Filled(on, limit, ws, log, contents, b, [])
  {
    CompleteHolds(on.codec, on.throttle, ws[b], contents[b]);
    assert |RecordBytes(on.codec, [])| == 0;
    hide Stored, Complete, Holding, RecordBytes;
  }

  /** One stream is written or forced, and no other key of the store touched. */
  lemma StepFilled<O>(on: Setup<O>, limit: nat, ws: seq<Writer>, log: seq<Entry>, contents: seq<seq<Record<O>>>, b: nat,
                      run: seq<Record<O>>, w: Writer, log': seq<Entry>, rs: seq<Record<O>>, open: int,
                      run': seq<Record<O>>)
    requires DistinctIds(on, limit) && |ws| <= limit && b < |ws|
    requires Filled(on, limit, ws, log, contents, b, run) && OthersStored(on.KeyOf(b), log, log')
    requires open == -1 || open == b
    requires if open == -1 then Complete(on.codec, w, rs) else Open(on, w, rs, run')
    ensures Filled(on, limit, ws[b := w], log', contents[b := rs], open, run')
  {
    hide Stored, Complete, Open;
    forall p | |ws| <= p < limit ensures NoBlocks(log', on.KeyOf(p)) {
      assert NoBlocks(log, on.KeyOf(p)) && OtherStored(on.KeyOf(p), log, log');
    }
  }

  lemma OpenAmount<O>(on: Setup<O>, w: Writer, rs: seq<Record<O>>, run: seq<Record<O>>) returns (before: nat)
    requires Open(on, w, rs, run)
    ensures |RecordBytes(on.codec, rs)| == before + |RecordBytes(on.codec, run)|
    ensures Holding(on.codec, on.throttle, w, rs, before)
  {
    before := |RecordBytes(on.codec, rs)| - |RecordBytes(on.codec, run)|;
  }

  lemma OpenFrom<O>(on: Setup<O>, w: Writer, rs: seq<Record<O>>, run: seq<Record<O>>, before: nat)
    requires |RecordBytes(on.codec, rs)| == before + |RecordBytes(on.codec, run)|
    requires Holding(on.codec, on.throttle, w, rs, before)
    ensures Open(on, w, rs, run)
  {
  }

  /** The stream is in this state. */
  ghost predicate Is<O>(s: BlockOutputStream<O>, w: Writer)
    reads s, s.out, s.out.byteBuffer, s.out.kv, s.out.kv.dev
  {
    s.Valid() && s.State() == w
  }

  ghost predicate Are<O>(kv: Kv, ss: seq<BlockOutputStream<O>>, ws: seq<Writer>)
    reads Footprint(ss), kv, kv.dev
  {
    && |ss| == |ws|
    && forall q :: 0 <= q < |ss| ==> (InFootprint(ss, q); ss[q].out.kv == kv && Is(ss[q], ws[q]))
  }

  /** A stream more, off the map side. */
  function WithStream<O>(mapStage: bool, contents: seq<seq<Record<O>>>): seq<seq<Record<O>>> {
    if mapStage then contents else contents + [[]]
  }

  lemma MoreFilled<O>(on: Setup<O>, limit: nat, ws: seq<Writer>, log: seq<Entry>, contents: seq<seq<Record<O>>>)
    requires Filled(on, limit, ws, log, contents, -1, [])
    ensures Filled(on, limit, ws + [START], log, contents + [[]], -1, [])
  {
    StartIsComplete(on.codec);
    hide Complete, Stored, NoBlocks;
  }

  /** The streams to which element i is written, the last one new if its partition is. */
  function Ready<O, V>(cfg: Config<O, V, O>, mapStage: bool, start: seq<seq<Record<O>>>, it: seq<Record<O>>, i: nat)
    : seq<seq<Record<O>>>
    requires i < |it| && (mapStage ==> |start| == cfg.n && Within(cfg.Part(), it, cfg.n))
  {
    var s := Placed(cfg, mapStage, start, it[..i]);
    if SamePartition(cfg, it[..i], it[i]) then s else WithStream(mapStage, s)
  }

  lemma PlacedStep<O, V>(cfg: Config<O, V, O>, mapStage: bool, start: seq<seq<Record<O>>>, it: seq<Record<O>>, i: nat,
                         b: int)
    requires i < |it| && (mapStage ==> |start| == cfg.n && Within(cfg.Part(), it, cfg.n))
    requires b == if mapStage then cfg.Part()(it[i]) else |Ready(cfg, mapStage, start, it, i)| - 1
    ensures var t := Ready(cfg, mapStage, start, it, i);
      0 <= b < |t| && Placed(cfg, mapStage, start, it[..i + 1]) == t[b := t[b] + [it[i]]]
  {
    PlacedNext(cfg, mapStage, start, it, i);
    assert [] + [it[i]] == [it[i]];
  }

  /** Streams were added, all new. */
  twostate predicate Grown<O>(before: seq<BlockOutputStream<O>>, new after: seq<BlockOutputStream<O>>) {
    && before <= after
    && forall q :: |before| <= q < |after| ==> fresh(after[q]) && fresh(after[q].out) && fresh(after[q].out.byteBuffer)
  }

  twostate lemma GrownFootprint<O>(before: seq<BlockOutputStream<O>>, new after: seq<BlockOutputStream<O>>)
    requires Grown(before, after)
    ensures forall o :: o in Footprint(after) ==> o in Footprint(before) || fresh(o)
  {
    forall o | o in Footprint(after) ensures o in Footprint(before) || fresh(o) {
      var q :| 0 <= q < |after| && (o == after[q] || o == after[q].out || o == after[q].out.byteBuffer);
      if q < |before| {
        assert before[q] == after[q];
        InFootprint(before, q);
      }
    }
  }

  // ---- reading back ----

  /** The blocks under a key are these records, as after a forced spill. */
  ghost predicate StoredAs<O>(c: Codec<O>, blocks: seq<seq<Byte>>, rs: seq<Record<O>>) {
    Flatten(blocks) == RecordBytes(c, rs) && [] !in blocks && blocks != [] && |Flatten(blocks)| <= INT_MAX
  }

  lemma StoredOpens<O>(c: Codec<O>, blocks: seq<seq<Byte>>, rs: seq<Record<O>>)
    requires StoredAs(c, blocks, rs)
    ensures Opened(blocks).Valid() && Opened(blocks).buf.Contents() == RecordBytes(c, rs)
  {
    OpenLoads(blocks);
  }

  lemma CompleteIsStored<O(!new)>(c: Codec<O>, w: Writer, rs: seq<Record<O>>)
    requires SelfDelimiting(c) && Complete(c, w, rs) && rs != [] && |RecordBytes(c, rs)| <= INT_MAX
    ensures StoredAs(c, w.blocks, rs) && w.records == |rs|
  {
    assert c.encode(rs[0].0) != [];
  }

  /** nvmBlockInputStream on nvmInputStream. */
  method OpenStream<O(!new)>(kv: Kv, blockId: seq<Byte>, codec: Codec<O>, totalRecords: nat, ghost rs: seq<Record<O>>)
    returns (stream: BlockInputStream<O>)
    requires kv.Valid() && StoredAs(codec, Stored(kv.Log(), kv.hash(blockId)), rs)
    ensures stream.codec == codec && stream.Valid()
    ensures stream.State() == Reading(RecordBytes(codec, rs), totalRecords, 0, false)
    ensures fresh(stream) && fresh(stream.input) && fresh(stream.input.buf)
  {
    StoredOpens(codec, Stored(kv.Log(), kv.hash(blockId)), rs);
    hide Kv.Valid, Kv.Log, Stored, Opened, Flatten, RecordBytes;
    var input := new InputStream(kv, blockId);
    stream := new BlockInputStream(input, codec, totalRecords);
  }

  /** The reader stands before the first of these records. */
  ghost predicate Unread<O(!new)>(r: SpillReader<O>, rs: seq<Record<O>>)
    reads r, r.stream, r.stream.input, r.stream.input.buf, r.stream.input.buf.bufData
  {
    r.Valid() && r.Left() == r.records == rs
  }

  method OpenReader<O(!new,==)>(kv: Kv, blockId: seq<Byte>, codec: Codec<O>, totalRecords: nat, getPartition: O -> nat,
                                ghost rs: seq<Record<O>>) returns (r: SpillReader<O>)
    requires kv.Valid() && StoredAs(codec, Stored(kv.Log(), kv.hash(blockId)), rs)
    requires SelfDelimiting(codec) && totalRecords == |rs| > 0
    ensures Unread(r, rs) && r.getPartition == getPartition
    ensures fresh(r) && fresh(r.stream) && fresh(r.stream.input) && fresh(r.stream.input.buf)
  {
    hide Kv.Valid, Kv.Log, StoredAs, RecordBytes, SelfDelimiting;
    hide BlockInputStream.Valid, BlockInputStream.State;
    var stream := OpenStream(kv, blockId, codec, totalRecords, rs);
    r := new SpillReader(stream, getPartition, rs);
  }

  /** Records, and no more bytes than an int counts. */
  predicate Loadable<O>(c: Codec<O>, rs: seq<Record<O>>) { rs != [] && |RecordBytes(c, rs)| <= INT_MAX }

  twostate predicate FreshReader<O(!new)>(new r: SpillReader<O>) {
    fresh(r) && fresh(r.stream) && fresh(r.stream.input) && fresh(r.stream.input.buf)
  }

  lemma ApartSnoc<O(!new)>(readers: seq<SpillReader<O>>, r: SpillReader<O>)
    requires StoredMerge.AllApart(readers)
    requires forall i :: 0 <= i < |readers| ==> StoredMerge.Apart(readers[i], r) && StoredMerge.Apart(r, readers[i])
    ensures StoredMerge.AllApart(readers + [r])
  {
    hide StoredMerge.Apart;
    var all := readers + [r];
    forall i, j | 0 <= i < |all| && 0 <= j < |all| && i != j ensures StoredMerge.Apart(all[i], all[j]) {
      if i < |readers| && j < |readers| {
        assert StoredMerge.Apart(readers[i], readers[j]);
      }
    }
  }

  twostate lemma FreshReaders<O(!new)>(new readers: seq<SpillReader<O>>)
    requires forall q :: 0 <= q < |readers| ==> FreshReader(readers[q])
    ensures fresh(StoredMerge.Footprint(readers))
  {
  }

  /** Every stream of a run on the reduce side can be opened. */
  lemma RunLoadable<O(!new), V(!new)>(cfg: Config<O, V, O>, c: Codec<O>, ops: seq<ExternalSorter.Op<O, V, O>>)
    requires Proper(cfg) && ExternalSorter.AllowedRun(cfg, false, State([], []), ops)
    requires cfg.combine ==> Lawful(cfg.agg)
    requires var ss := ExternalSorter.Run(cfg, false, State([], []), ops).streams;
      forall s :: s in ss ==> |RecordBytes(c, s)| <= INT_MAX
    ensures var ss := ExternalSorter.Run(cfg, false, State([], []), ops).streams;
      forall q :: 0 <= q < |ss| ==> Loadable(c, ss[q])
  {
    StartIsSound(cfg);
    RunKeepsReduce(cfg, State([], []), [], ops);
    hide ExternalSorter.Run, ExternalSorter.AllowedRun, Lifted;
    var ss := ExternalSorter.Run(cfg, false, State([], []), ops).streams;
    forall q | 0 <= q < |ss| ensures Loadable(c, ss[q]) {
      assert ss[q] in ss && SpillShaped(cfg, ss[q]);
    }
  }

  // ---- whole runs ----

  /** So many streams at most are opened by the spills of a run. */
  function Spilling<O, V>(ops: seq<ExternalSorter.Op<O, V, O>>): nat {
    if ops == [] then 0 else (if ops[0].Spill? then |ops[0].it| else 0) + Spilling(ops[1..])
  }

  lemma {:induction false} PlacedGrows<O, V>(cfg: Config<O, V, O>, streams: seq<seq<Record<O>>>, it: seq<Record<O>>)
    ensures |Placed(cfg, false, streams, it)| <= |streams| + |it|
    decreases |it|
  {
    if it != [] {
      PlacedGrows(cfg, streams, it[..|it| - 1]);
    }
  }

  ghost predicate SpillTooLong<O, V>(cfg: Config<O, V, O>, c: Codec<O>, op: ExternalSorter.Op<O, V, O>) {
    op.Spill? && TooLong(cfg, c, op.it)
  }

  /** Some spill of a run overflows a buffer. */
  ghost predicate AnyTooLong<O, V>(cfg: Config<O, V, O>, c: Codec<O>, ops: seq<ExternalSorter.Op<O, V, O>>) {
    exists i :: 0 <= i < |ops| && SpillTooLong(cfg, c, ops[i])
  }

  lemma RunNext<O(!new), V>(cfg: Config<O, V, O>, mapStage: bool, s: State<O, O>, ops: seq<ExternalSorter.Op<O, V, O>>,
                            i: nat)
    requires Proper(cfg) && (mapStage ==> |s.streams| == cfg.n) && i < |ops|
    requires ExternalSorter.AllowedRun(cfg, mapStage, s, ops[i..])
    ensures ExternalSorter.Allowed(cfg, s, ops[i])
    ensures var t := ExternalSorter.Do(cfg, mapStage, s, ops[i]);
      && ExternalSorter.AllowedRun(cfg, mapStage, t, ops[i + 1..])
      && ExternalSorter.Run(cfg, mapStage, s, ops[i..]) == ExternalSorter.Run(cfg, mapStage, t, ops[i + 1..])
    ensures Spilling(ops[i..]) == (if ops[i].Spill? then |ops[i].it| else 0) + Spilling(ops[i + 1..])
  {
    assert ops[i..][0] == ops[i] && ops[i..][1..] == ops[i + 1..];
  }

  lemma RunDone<O(!new), V>(cfg: Config<O, V, O>, mapStage: bool, s: State<O, O>, ops: seq<ExternalSorter.Op<O, V, O>>)
    requires Proper(cfg) && (mapStage ==> |s.streams| == cfg.n) && ops == []
    ensures ExternalSorter.Run(cfg, mapStage, s, ops) == s
  {
  }

  // ---- the sorter's streams ----

  class StoredSorter<O(!new,==), V(!new)> {
    const cfg: Config<O, V, O>
    const on: Setup<O>       // off the map side with PmemBlockId.getTempBlockId as the ids
    const mapStage: bool
    ghost const limit: nat   // as many ids are there
    var streams: seq<BlockOutputStream<O>>
    ghost var states: seq<Writer>

    /** The streams hold these contents. */
    ghost predicate Holds(contents: seq<seq<Record<O>>>, open: int, run: seq<Record<O>>)
      reads this, Footprint(streams), on.kv, on.kv.dev, on.kv.index
    {
      && on.kv.Valid() && AllMade(on, streams) && (mapStage ==> |streams| == cfg.n)
      && DistinctIds(on, limit) && |streams| <= limit && Are(on.kv, streams, states)
      && Filled(on, limit, states, on.kv.Log(), contents, open, run)
    }

    /** With the streams of the shuffle writer on the map side, else with none. */
    constructor (cfg: Config<O, V, O>, on: Setup<O>, streams: seq<BlockOutputStream<O>>, mapStage: bool,
                 ghost limit: nat)
      ensures this.cfg == cfg && this.on == on && this.streams == streams && this.mapStage == mapStage
      ensures this.limit == limit && states == seq(|streams|, _ => START)
    {
      this.cfg, this.on, this.streams, this.mapStage, this.limit := cfg, on, streams, mapStage, limit;
      states := seq(|streams|, _ => START);
    }

    lemma StartHolds()
      requires on.kv.Valid() && AllMade(on, streams) && mapStage
      requires |streams| == cfg.n == limit && DistinctIds(on, limit)
      requires states == seq(|streams|, _ => START) && forall p :: 0 <= p < |streams| ==> Is(streams[p], START)
      ensures Holds(seq(cfg.n, _ => []), -1, [])
    {
      StartIsComplete(on.codec);
      hide Kv.Valid, Kv.Log, Stored, Complete, DistinctIds, Is, Footprint;
    }

    lemma StreamsComplete(contents: seq<seq<Record<O>>>)
      requires Holds(contents, -1, [])
      ensures |streams| == |contents|
      ensures forall p :: 0 <= p < |streams| ==>
        streams[p].Valid() && Complete(on.codec, streams[p].State(), contents[p])
    {
      hide Kv.Valid, Kv.Log, Stored, Complete, DistinctIds, Footprint, AllMade;
      forall p | 0 <= p < |streams| ensures streams[p].Valid() && Complete(on.codec, streams[p].State(), contents[p]) {
        assert Is(streams[p], states[p]);
      }
    }

    /** The stream at hand is forced out. */
    method ForceOpen(b: nat, ghost contents: seq<seq<Record<O>>>, ghost run: seq<Record<O>>) returns (ok: bool)
      requires b < |streams| && Holds(contents, b, run)
      modifies `states, Footprint(streams), on.kv, on.kv.dev, on.kv.index
      ensures on.kv.Valid()
      ensures ok ==> Holds(contents, -1, []) && (on.throttle == -1 ==> !Overflows(on.codec, run))
      ensures !ok ==> Overflows(on.codec, run)
    {
      hide Complete, Holding, Exceeds, Overflows, Kv.Valid, Kv.Log, Stored, AllApart, Footprint, RecordBytes, Open;
      hide BlockOutputStream.Valid, BlockOutputStream.State, DistinctIds, OthersStored, NoBlocks;
      ghost var log := on.kv.Log();
      ghost var before := OpenAmount(on, states[b], contents[b], run);
      ExceedsIff(on.codec, contents[b], run, before);
      InFootprint(streams, b);
      ok := ForceTo(on, streams[b], streams, b, contents[b], before);
      if ok {
        StepFilled(on, limit, states, log, contents, b, run, streams[b].State(), on.kv.Log(), contents[b], -1, []);
        assert contents[b := contents[b]] == contents;
        states := states[b := streams[b].State()];
      }
    }

    /** And this is one more record written to it. */
    method WriteOpen(b: nat, r: Record<O>, ghost contents: seq<seq<Record<O>>>, ghost run: seq<Record<O>>)
      returns (ok: bool)
      requires b < |streams| && Holds(contents, b, run) && SelfDelimiting(on.codec)
      modifies `states, Footprint(streams), on.kv, on.kv.dev, on.kv.index
      ensures on.kv.Valid()
      ensures ok ==> Holds(contents[b := contents[b] + [r]], b, run + [r])
      ensures !ok ==> Overflows(on.codec, run + [r])
    {
      hide Complete, Holding, Exceeds, Overflows, Kv.Valid, Kv.Log, Stored, AllApart, Footprint, RecordBytes, Open;
      hide BlockOutputStream.Valid, BlockOutputStream.State, DistinctIds, OthersStored, NoBlocks, SelfDelimiting;
      ghost var log := on.kv.Log();
      ghost var before := OpenAmount(on, states[b], contents[b], run);
      RecordBytesSnoc(on.codec, contents[b], r);
      RecordBytesSnoc(on.codec, run, r);
      ExceedsIff(on.codec, contents[b] + [r], run + [r], before);
      InFootprint(streams, b);
      ok := WriteTo(on, streams[b], r, streams, b, contents[b], before);
      if ok {
        OpenFrom(on, streams[b].State(), contents[b] + [r], run + [r], before);
        StepFilled(on, limit, states, log, contents, b, run, streams[b].State(), on.kv.Log(), contents[b] + [r], b,
                   run + [r]);
        states := states[b := streams[b].State()];
      }
    }

    method GetPartitionByteBufferArray(partitionId: nat, ghost contents: seq<seq<Record<O>>>) returns (b: nat)
      requires Holds(contents, -1, []) && if mapStage then partitionId < |streams| else |streams| < limit
      modifies `streams, `states
      ensures b < |streams| && b == (if mapStage then partitionId else |streams| - 1)
      ensures Holds(WithStream(mapStage, contents), b, [])
      ensures if mapStage then streams == old(streams) else |streams| == |old(streams)| + 1
      ensures Grown(old(streams), streams)
    {
      b := partitionId;
      if !mapStage {
        b := |streams|;
        AddStream(contents);
      }
      hide Kv.Valid, Kv.Log, Footprint, AllMade, Are, Filled, DistinctIds, Grown;
      Reopened(on, limit, states, on.kv.Log(), WithStream(mapStage, contents), b);
    }

    method AddStream(ghost contents: seq<seq<Record<O>>>)
      requires Holds(contents, -1, []) && !mapStage && |streams| < limit
      modifies `streams, `states
      ensures Holds(contents + [[]], -1, [])
      ensures |streams| == |old(streams)| + 1 && Grown(old(streams), streams)
    {
      hide Kv.Valid, Kv.Log, Stored, Footprint, AllApart, Complete, BlockOutputStream.Valid, BlockOutputStream.State;
      assert NoBlocks(on.kv.Log(), on.KeyOf(|streams|));
      assert DistinctIds(on, |streams| + 1);
      hide DistinctIds;
      MoreFilled(on, limit, states, on.kv.Log(), contents);
      hide Filled, NoBlocks, AllMade;
      var s := CreateStream(on, |streams|);
      MadeSnoc(on, streams, s);
      streams, states := streams + [s], states + [START];
    }

    lemma HoldsStreams(contents: seq<seq<Record<O>>>, open: int, run: seq<Record<O>>)
      requires Holds(contents, open, run)
      ensures open < |streams| == |contents| && (mapStage ==> |streams| == cfg.n) && on.kv.Valid()
    {
    }

    lemma NotInFootprint()
      ensures this !in Footprint(streams)
    {
    }

    /** The stream for the next element: the one at hand, or when the partition changes another one,
        after the one at hand has been forced out. */
    method Switch(partitionId: nat, cur: int, b: nat, ghost contents: seq<seq<Record<O>>>, ghost run: seq<Record<O>>)
      returns (ok: bool, b': nat)
      requires cur != partitionId && Holds(contents, if cur == -1 then -1 else b, run) && -1 <= cur
      requires cur == -1 ==> run == []
      requires if mapStage then partitionId < cfg.n else |streams| < limit
      modifies `streams, `states, Footprint(streams), on.kv, on.kv.dev, on.kv.index
      ensures on.kv.Valid() && Grown(old(streams), streams) && |streams| <= |old(streams)| + 1
      ensures ok ==> b' < |streams| && b' == (if mapStage then partitionId else |streams| - 1)
      ensures ok ==> Holds(WithStream(mapStage, contents), b', [])
      ensures ok && cur != -1 && on.throttle == -1 ==> !Overflows(on.codec, run)
      ensures !ok ==> cur != -1 && Overflows(on.codec, run)
    {
      hide StoredSorter.Holds, Kv.Valid, Footprint, Overflows, WithStream;
      NotInFootprint();
      HoldsStreams(contents, if cur == -1 then -1 else b, run);
      ok, b' := true, b;
      if cur != -1 {
        ok := ForceOpen(b, contents, run);
        if !ok {
          return;
        }
      }
      b' := GetPartitionByteBufferArray(partitionId, contents);
    }

    /** The first i elements are written, those from j on to stream b, which alone is not forced out yet. */
    ghost predicate Placing(start: seq<seq<Record<O>>>, it: seq<Record<O>>, i: nat, cur: int, b: nat, j: nat)
      requires i <= |it| && Within(cfg.Part(), it, cfg.n)
      reads this, Footprint(streams), on.kv, on.kv.dev, on.kv.index
    {
      && (mapStage ==> |start| == cfg.n) && (cur == -1 <==> i == 0) && -1 <= cur
      && j <= i && Starts(cfg, it, j, i) && (on.throttle == -1 ==> NoneTooLong(cfg, on.codec, it, j))
      && (0 < i ==> j < i && cur == cfg.Part()(it[i - 1]) && b == if mapStage then cur else |streams| - 1)
      && Holds(Placed(cfg, mapStage, start, it[..i]), if cur == -1 then -1 else b, it[j..i])
      && (!mapStage ==> |streams| + |it| - i <= limit)
    }

    /** The stream at hand is right for element i, or another one is made ready. */
    method Prepare(it: seq<Record<O>>, i: nat, cur: int, b: nat, ghost j: nat, ghost start: seq<seq<Record<O>>>)
      returns (ok: bool, b': nat)
      requires i < |it| && Within(cfg.Part(), it, cfg.n) && Placing(start, it, i, cur, b, j)
      modifies `streams, `states, Footprint(streams), on.kv, on.kv.dev, on.kv.index
      ensures on.kv.Valid() && Grown(old(streams), streams)
      ensures var j' := RunStart(cfg, it, j, i);
        if ok then
          && b' < |streams| && b' == (if mapStage then cfg.Part()(it[i]) else |streams| - 1)
          && Holds(Ready(cfg, mapStage, start, it, i), b', it[j'..i])
          && (on.throttle == -1 ==> NoneTooLong(cfg, on.codec, it, j'))
          && (!mapStage ==> |streams| + |it| - (i + 1) <= limit)
        else TooLong(cfg, on.codec, it)
    {
      hide StoredSorter.Holds, Kv.Valid, Footprint, Overflows, Placed, NoneTooLong, Exceeds;
      ghost var contents, run := Placed(cfg, mapStage, start, it[..i]), it[j..i];
      HoldsStreams(contents, if cur == -1 then -1 else b, run);
      assert it[i..i] == [];
      var partitionId := cfg.PartitionOf(it[i].0);
      ok, b' := true, b;
      if cur != partitionId {
        ok, b' := Switch(partitionId, cur, b, contents, run);
        if !ok {
          RunTooLong(cfg, on.codec, it, j, i);
        } else if cur != -1 && on.throttle == -1 {
          RunFits(cfg, on.codec, it, j, i);
        }
      }
    }

    /** An element goes to the stream at hand, or to the one of its own partition. */
    method PlaceAt(it: seq<Record<O>>, i: nat, cur: int, b: nat, ghost j: nat, ghost start: seq<seq<Record<O>>>)
      returns (ok: bool, cur': int, b': nat)
      requires i < |it| && Within(cfg.Part(), it, cfg.n) && Placing(start, it, i, cur, b, j) && SelfDelimiting(on.codec)
      modifies `streams, `states, Footprint(streams), on.kv, on.kv.dev, on.kv.index
      ensures on.kv.Valid() && Grown(old(streams), streams)
      ensures ok ==> Placing(start, it, i + 1, cur', b', RunStart(cfg, it, j, i))
      ensures !ok ==> TooLong(cfg, on.codec, it)
    {
      hide StoredSorter.Holds, Kv.Valid, Footprint, Overflows, Placed, NoneTooLong, SelfDelimiting, Ready, TooLong;
      hide Starts, Stretch, RunStart, Within;
      StretchGrows(cfg, it, j, i);
      cur' := cfg.PartitionOf(it[i].0);
      ghost var j', t := RunStart(cfg, it, j, i), Ready(cfg, mapStage, start, it, i);
      ok, b' := Prepare(it, i, cur, b, j, start);
      if ok {
        HoldsStreams(t, b', it[j'..i]);
        PlacedStep(cfg, mapStage, start, it, i, b');
        GrownFootprint(old(streams), streams);
        NotInFootprint();
        ok := WriteOpen(b', it[i], t, it[j'..i]);
        assert it[j'..i] + [it[i]] == it[j'..i + 1];
        if !ok {
          RunTooLong(cfg, on.codec, it, j', i + 1);
        }
      }
    }

    /** Every element is written to its stream, and every stream written to is forced out: the streams
        then hold what the sorter on sequences places there. It fails only when some records of one
        partition in a row have more bytes than a buffer; and without a throttle whenever they do. */
    method SpillMemoryIteratorToPmem(it: seq<Record<O>>, ghost contents: seq<seq<Record<O>>>) returns (ok: bool)
      requires Holds(contents, -1, []) && Within(cfg.Part(), it, cfg.n) && SelfDelimiting(on.codec)
      requires !mapStage ==> |streams| + |it| <= limit
      modifies `streams, `states, Footprint(streams), on.kv, on.kv.dev, on.kv.index
      ensures on.kv.Valid() && Grown(old(streams), streams) && (mapStage ==> |contents| == cfg.n)
      ensures ok ==> Holds(Placed(cfg, mapStage, contents, it), -1, [])
      ensures !ok ==> TooLong(cfg, on.codec, it)
      ensures on.throttle == -1 ==> (ok <==> !TooLong(cfg, on.codec, it))
    {
      hide StoredSorter.Holds, Kv.Valid, Footprint, Overflows, Placed, NoneTooLong, SelfDelimiting;
      HoldsStreams(contents, -1, []);
      StartPlacing(it, contents);
      ok := true;
      var cur: int, b: nat, i: nat := -1, 0, 0;
      ghost var j: nat := 0;
      while i < |it|
        invariant ok && i <= |it| && Placing(contents, it, i, cur, b, j)
        invariant on.kv.Valid() && Grown(old(streams), streams)
      {
        GrownFootprint(old(streams), streams);
        NotInFootprint();
        ghost var j' := RunStart(cfg, it, j, i);
        ok, cur, b := PlaceAt(it, i, cur, b, j, contents);
        if !ok {
          return;
        }
        i, j := i + 1, j';
      }
      assert it[..i] == it;
      if cur != -1 {
        HoldsStreams(Placed(cfg, mapStage, contents, it), b, it[j..i]);
        GrownFootprint(old(streams), streams);
        NotInFootprint();
        ok := ForceOpen(b, Placed(cfg, mapStage, contents, it), it[j..i]);
        if !ok {
          RunTooLong(cfg, on.codec, it, j, i);
        } else if on.throttle == -1 {
          RunFits(cfg, on.codec, it, j, i);
        }
      }
    }

    lemma StartPlacing(it: seq<Record<O>>, contents: seq<seq<Record<O>>>)
      requires Holds(contents, -1, []) && Within(cfg.Part(), it, cfg.n)
      requires !mapStage ==> |streams| + |it| <= limit
      ensures Placing(contents, it, 0, -1, 0, 0)
    {
      HoldsStreams(contents, -1, []);
      NothingTooLong(cfg, on.codec, it);
      hide StoredSorter.Holds, Overflows, NoneTooLong;
      assert it[..0] == [] && it[0..0] == [];
    }

    /** What one operation does to the streams: an insertion nothing. */
    method Step(op: ExternalSorter.Op<O, V, O>, ghost s: State<O, O>) returns (ok: bool)
      requires Proper(cfg) && SelfDelimiting(on.codec)
      requires Holds(s.streams, -1, []) && (mapStage ==> |s.streams| == cfg.n)
      requires op.Spill? && !mapStage ==> |streams| + |op.it| <= limit
      modifies `streams, `states, Footprint(streams), on.kv, on.kv.dev, on.kv.index
      ensures on.kv.Valid() && Grown(old(streams), streams)
      ensures ok ==> Holds(ExternalSorter.Do(cfg, mapStage, s, op).streams, -1, [])
      ensures ok && !mapStage ==> |streams| <= |old(streams)| + if op.Spill? then |op.it| else 0
      ensures !ok ==> SpillTooLong(cfg, on.codec, op)
      ensures on.throttle == -1 ==> (ok <==> !SpillTooLong(cfg, on.codec, op))
    {
      hide StoredSorter.Holds, Kv.Valid, Footprint, Placed, TooLong, SelfDelimiting, Proper;
      HoldsStreams(s.streams, -1, []);
      ok := true;
      if op.Spill? {
        AlwaysWithin(cfg, op.it);
        ok := SpillMemoryIteratorToPmem(op.it, s.streams);
        if ok {
          HoldsStreams(Placed(cfg, mapStage, s.streams, op.it), -1, []);
          if !mapStage {
            PlacedGrows(cfg, s.streams, op.it);
          }
        }
      }
    }

    /** A whole run: after any insertions and spills the stored streams are those of the run on
        sequences. It fails only when a spill has some records of one partition in a row with more
        bytes than a buffer; and without a throttle whenever one has. */
    method InsertAll(ops: seq<ExternalSorter.Op<O, V, O>>, ghost start: State<O, O>) returns (ok: bool)
      requires Proper(cfg) && SelfDelimiting(on.codec) && (mapStage ==> |start.streams| == cfg.n)
      requires ExternalSorter.AllowedRun(cfg, mapStage, start, ops) && Holds(start.streams, -1, [])
      requires !mapStage ==> |streams| + Spilling(ops) <= limit
      modifies `streams, `states, Footprint(streams), on.kv, on.kv.dev, on.kv.index
      ensures on.kv.Valid() && Grown(old(streams), streams)
      ensures ok ==> Holds(ExternalSorter.Run(cfg, mapStage, start, ops).streams, -1, [])
      ensures !ok ==> AnyTooLong(cfg, on.codec, ops)
      ensures on.throttle == -1 ==> (ok <==> !AnyTooLong(cfg, on.codec, ops))
    {
      hide StoredSorter.Holds, Kv.Valid, Footprint, SelfDelimiting, Proper, Spilling, SpillTooLong;
      hide ExternalSorter.Run, ExternalSorter.AllowedRun, ExternalSorter.Do;
      HoldsStreams(start.streams, -1, []);
      ghost var s := start;
      ok := true;
      assert ops[0..] == ops;
      for i := 0 to |ops|
        invariant ok && on.kv.Valid() && Grown(old(streams), streams) && Holds(s.streams, -1, [])
        invariant (mapStage ==> |s.streams| == cfg.n) && (!mapStage ==> |streams| + Spilling(ops[i..]) <= limit)
        invariant ExternalSorter.AllowedRun(cfg, mapStage, s, ops[i..])
        invariant ExternalSorter.Run(cfg, mapStage, s, ops[i..]) == ExternalSorter.Run(cfg, mapStage, start, ops)
        invariant on.throttle == -1 ==> forall k :: 0 <= k < i ==> !SpillTooLong(cfg, on.codec, ops[k])
      {
        RunNext(cfg, mapStage, s, ops, i);
        GrownFootprint(old(streams), streams);
        NotInFootprint();
        ok := Step(ops[i], s);
        if !ok {
          return;
        }
        s := ExternalSorter.Do(cfg, mapStage, s, ops[i]);
      }
      RunDone(cfg, mapStage, s, ops[|ops|..]);
    }

    lemma StreamIsStored(contents: seq<seq<Record<O>>>, q: nat)
      requires Holds(contents, -1, []) && q < |streams| && SelfDelimiting(on.codec) && Loadable(on.codec, contents[q])
      ensures streams[q].records == |contents[q]| > 0
      ensures StoredAs(on.codec, Stored(on.kv.Log(), on.kv.hash(streams[q].out.blockId)), contents[q])
    {
      CompleteIsStored(on.codec, states[q], contents[q]);
      hide Kv.Valid, Kv.Log, Stored, StoredAs, SelfDelimiting, Complete, Loadable;
      assert Is(streams[q], states[q]);
    }

    /** A reader on one stream, apart from those there are. */
    method OpenNext(q: nat, ghost contents: seq<seq<Record<O>>>, ghost readers: seq<SpillReader<O>>)
      returns (r: SpillReader<O>)
      requires Holds(contents, -1, []) && q < |streams| && SelfDelimiting(on.codec) && Loadable(on.codec, contents[q])
      ensures StoredMerge.Asks(cfg, r) && Unread(r, contents[q]) && FreshReader(r)
      ensures forall i :: 0 <= i < |readers| ==> StoredMerge.Apart(readers[i], r) && StoredMerge.Apart(r, readers[i])
    {
      hide StoredSorter.Holds, Kv.Valid, Kv.Log, Stored, StoredAs, SelfDelimiting, Loadable, RecordBytes, Unread;
      HoldsStreams(contents, -1, []);
      StreamIsStored(contents, q);
      var s := streams[q];
      r := OpenReader(on.kv, s.out.blockId, on.codec, s.records, k => cfg.PartitionOf(k), contents[q]);
    }

    /** A reader on every stream. */
    method OpenReaders(ghost contents: seq<seq<Record<O>>>) returns (readers: seq<SpillReader<O>>)
      requires Holds(contents, -1, []) && SelfDelimiting(on.codec)
      requires forall q :: 0 <= q < |contents| ==> Loadable(on.codec, contents[q])
      ensures |readers| == |contents| && StoredMerge.AllApart(readers) && fresh(StoredMerge.Footprint(readers))
      ensures forall q :: 0 <= q < |readers| ==> StoredMerge.Asks(cfg, readers[q]) && Unread(readers[q], contents[q])
    {
      hide Kv.Valid, Kv.Log, Filled, AllMade, DistinctIds, Footprint, BlockOutputStream.Valid, BlockOutputStream.State;
      hide SelfDelimiting, Loadable, SpillReader.Valid, SpillReader.Left, StoredMerge.Asks, StoredMerge.Apart;
      HoldsStreams(contents, -1, []);
      readers := [];
      for i := 0 to |streams|
        invariant |readers| == i && Holds(contents, -1, []) && |streams| == |contents| && on.kv.Valid()
        invariant StoredMerge.AllApart(readers) && forall q :: 0 <= q < i ==> FreshReader(readers[q])
        invariant forall q :: 0 <= q < i ==> StoredMerge.Asks(cfg, readers[q]) && Unread(readers[q], contents[q])
      {
        var r := OpenNext(i, contents, readers);
        ApartSnoc(readers, r);
        readers := readers + [r];
      }
      FreshReaders(readers);
    }

    /** partitionedIterator: the whole of the reduce side from its stored bytes. Whatever was inserted and
        spilled when, each partition is given each of its keys once with the combiner of everything
        inserted, or without an aggregator exactly its records; and with an ordering they come sorted. */
    method PartitionedIterator(it: seq<Record<O>>, ghost ops: seq<ExternalSorter.Op<O, V, O>>)
      returns (outs: seq<seq<Record<O>>>)
      requires Proper(cfg) && ExternalSorter.AllowedRun(cfg, false, State([], []), ops) && SelfDelimiting(on.codec)
      requires cfg.combine ==> Lawful(cfg.agg) && Commutative(cfg.agg.merge) && (cfg.ordered ==> TotalOrder(cfg.cmp))
      requires var s := ExternalSorter.Run(cfg, false, State([], []), ops);
        && Holds(s.streams, -1, []) && (forall r :: r in s.streams ==> |RecordBytes(on.codec, r)| <= INT_MAX)
        && Iterates(cfg, if streams == [] then cfg.ordered else cfg.Keyed(), s.pairs, it)
      ensures |outs| == cfg.n
      ensures forall p :: 0 <= p < cfg.n ==> Right(cfg, Only(cfg.Part(), Lifted(cfg, ops), p), outs[p])
      ensures Routed(cfg, Lifted(cfg, ops), outs)
    {
      ghost var s := ExternalSorter.Run(cfg, false, State([], []), ops);
      RunLoadable(cfg, on.codec, ops);
      HoldsStreams(s.streams, -1, []);
      hide StoredSorter.Holds, ExternalSorter.Run, ExternalSorter.AllowedRun, Lifted, Right, SelfDelimiting;
      hide Loadable, RecordBytes, Proper, Footprint;
      if streams == [] {
        AlwaysWithin(cfg, it);
        OrderIsInOrder(cfg, cfg.ordered, it);
        var buffer := new SharedBuffer(it, cfg.Part());
        outs := buffer.GroupByPartition(cfg.n);
        PartitionedIteratorIsRight(cfg, ops, it, outs);
      } else {
        hide Iterates;
        var readers := OpenReaders(s.streams);
        outs := StoredMerge.PartitionedIterator(cfg, readers, it, ops);
      }
    }
  }

  /** What the streams of a map task should hold in the end. */
  ghost function Combined<O(!new), V>(cfg: Config<O, V, O>, ops: seq<ExternalSorter.Op<O, V, O>>, last: seq<Record<O>>)
    : (r: State<O, O>)
    requires Proper(cfg)
    ensures |r.streams| == cfg.n
  {
    Spilled(cfg, true, ExternalSorter.Run(cfg, true, StartOfMap(cfg), ops), last)
  }

  lemma CombinedFolds<O(!new), V(!new)>(cfg: Config<O, V, O>, ops: seq<ExternalSorter.Op<O, V, O>>,
                                        last: seq<Record<O>>)
    requires Proper(cfg) && Lawful(cfg.agg) && cfg.combine && ExternalSorter.AllowedRun(cfg, true, StartOfMap(cfg), ops)
    requires Iterates(cfg, cfg.Keyed(), ExternalSorter.Run(cfg, true, StartOfMap(cfg), ops).pairs, last)
    ensures var end := Combined(cfg, ops, last);
      && (forall p :: 0 <= p < cfg.n ==> Belongs(cfg, end.streams[p], p))
      && (forall k :: FoldsTo(cfg, end, InMemory(cfg, ops), k))
      && (forall p, k :: 0 <= p < cfg.n ==> FoldsIn(cfg, end.streams[p], InMemory(cfg, ops), p, k))
  {
    SpillScheduleIndependence(cfg, ops, last);
  }

  /** The map side: everything is inserted and spilled to the streams of the shuffle writer. */
  method CombineOnMap<O(!new,==), V(!new)>(cfg: Config<O, V, O>, on: Setup<O>, streams: seq<BlockOutputStream<O>>,
                                           ops: seq<ExternalSorter.Op<O, V, O>>, last: seq<Record<O>>)
    returns (ok: bool)
    requires Proper(cfg) && SelfDelimiting(on.codec) && ExternalSorter.AllowedRun(cfg, true, StartOfMap(cfg), ops)
    requires on.kv.Valid() && AllMade(on, streams) && |streams| == cfg.n && DistinctIds(on, cfg.n)
    requires forall p :: 0 <= p < |streams| ==> Is(streams[p], START)
    modifies Footprint(streams), on.kv, on.kv.dev, on.kv.index
    ensures on.kv.Valid()
    ensures ok ==> forall p :: 0 <= p < |streams| ==>
      streams[p].Valid() && Complete(on.codec, streams[p].State(), Combined(cfg, ops, last).streams[p])
    ensures !ok ==> AnyTooLong(cfg, on.codec, ops) || TooLong(cfg, on.codec, last)
    ensures on.throttle == -1 ==> (ok <==> !AnyTooLong(cfg, on.codec, ops) && !TooLong(cfg, on.codec, last))
  {
    hide StoredSorter.Holds, Kv.Valid, Footprint, SelfDelimiting, Proper, AnyTooLong, TooLong, Complete, Is, AllMade;
    hide ExternalSorter.Run, ExternalSorter.AllowedRun, Placed;
    var sorter := new StoredSorter(cfg, on, streams, true, |streams|);
    sorter.StartHolds();
    ghost var start := StartOfMap(cfg);
    ok := sorter.InsertAll(ops, start);
    if ok {
      ghost var s := ExternalSorter.Run(cfg, true, start, ops);
      sorter.HoldsStreams(s.streams, -1, []);
      assert sorter.streams == streams;
      AlwaysWithin(cfg, last);
      ok := sorter.SpillMemoryIteratorToPmem(last, s.streams);
      if ok {
        sorter.HoldsStreams(Combined(cfg, ops, last).streams, -1, []);
        assert sorter.streams == streams;
        sorter.StreamsComplete(Combined(cfg, ops, last).streams);
      }
    }
  }
}
