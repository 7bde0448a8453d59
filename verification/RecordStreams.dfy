/** Records written to streams that are objects on one store: what the shuffle writer and the spills of
    the sorter have in common. */
module RecordStreams {
  import opened Bytes
  import opened OutputStreams
  import opened BlockStreams
  import opened BlockStreamLaws
  import opened BlockInput
  import opened PmemKv
  import opened PmemLog

  lemma {:induction false} RecordBytesSnoc<O>(c: Codec<O>, rs: seq<Record<O>>, r: Record<O>)
    ensures RecordBytes(c, rs + [r]) == RecordBytes(c, rs) + PairBytes(c, r)
  {
    if rs == [] {
      assert rs + [r] == [r] && RecordBytes(c, [r]) == PairBytes(c, r) + RecordBytes(c, []);
    } else {
      assert rs + [r] == [rs[0]] + (rs[1..] + [r]);
      RecordBytesSnoc(c, rs[1..], r);
      var a, b := PairBytes(c, rs[0]), RecordBytes(c, rs[1..]);
      assert RecordBytes(c, rs) == a + b && RecordBytes(c, rs + [r]) == a + RecordBytes(c, rs[1..] + [r]);
      ConcatAssociates(a, b, PairBytes(c, r));
    }
  }

  /** The length of the bytes of records is that of their parts. */
  lemma {:induction false} BytesAdd<O>(c: Codec<O>, rs: seq<Record<O>>, more: seq<Record<O>>)
    ensures |RecordBytes(c, rs + more)| == |RecordBytes(c, rs)| + |RecordBytes(c, more)|
    decreases |more|
  {
    if more == [] {
      assert rs + more == rs;
    } else {
      var front, r := more[..|more| - 1], more[|more| - 1];
      BytesAdd(c, rs, front);
      assert rs + more == rs + front + [r] && more == front + [r];
      RecordBytesSnoc(c, rs + front, r);
      RecordBytesSnoc(c, front, r);
    }
  }

  /** More bytes than fit into the buffer of one stream, behind so many that were stored before. */
  predicate Exceeds<O>(c: Codec<O>, rs: seq<Record<O>>, before: nat) { |RecordBytes(c, rs)| > before + LENGTH }

  /** More bytes than fit into the buffer of one stream. */
  predicate Overflows<O>(c: Codec<O>, rs: seq<Record<O>>) { Exceeds(c, rs, 0) }

  // ---- one stream, on values ----

  /** A stream that holds these records, with nothing lost and all accounted. */
  ghost predicate Holds<O>(c: Codec<O>, w: Writer, rs: seq<Record<O>>) {
    Sound(w, RecordBytes(c, rs), |rs|)
  }

  /** And has stored at least so many bytes; without a throttle just those. */
  ghost predicate Holding<O>(c: Codec<O>, throttle: int, w: Writer, rs: seq<Record<O>>, before: nat) {
    Holds(c, w, rs) && |Flatten(w.blocks)| >= before && (throttle == -1 ==> |Flatten(w.blocks)| == before)
  }

  /** A stream whose records are all stored: in non-empty blocks, each record accounted to one. */
  ghost predicate Complete<O>(c: Codec<O>, w: Writer, rs: seq<Record<O>>) {
    && w.out == EMPTY && w.codec == [] && Flatten(w.blocks) == RecordBytes(c, rs) && [] !in w.blocks
    && w.records == Sum(w.recordsArray) == |rs| && w.recordsPerBlock == 0 && |w.recordsArray| == |w.blocks|
    && (w.spilled <==> w.blocks != []) && w.size == Wrap32(|RecordBytes(c, rs)|)
  }

  lemma StartIsComplete<O>(c: Codec<O>)
    ensures Complete(c, START, [])
  {
  }

  /** A complete stream can be written on. */
  lemma CompleteHolds<O>(c: Codec<O>, throttle: int, w: Writer, rs: seq<Record<O>>)
    requires Complete(c, w, rs)
    ensures w.out.Valid() && Holding(c, throttle, w, rs, |RecordBytes(c, rs)|)
  {
    hide Flatten, RecordBytes, Sum, Wrap32;
    assert Flatten(w.blocks) + w.out.buffer + w.codec == RecordBytes(c, rs);
  }

  lemma RecordHeld<O(!new)>(c: Codec<O>, w: Writer, rs: seq<Record<O>>, r: Record<O>, pushed: nat, throttle: int)
    requires SelfDelimiting(c) && Holds(c, w, rs) && Allowed(w, DoRecord(PairBytes(c, r), pushed))
    ensures Holds(c, Do(w, DoRecord(PairBytes(c, r), pushed), throttle), rs + [r])
  {
    StepKeeps(w, DoRecord(PairBytes(c, r), pushed), throttle, RecordBytes(c, rs), |rs|);
    RecordBytesSnoc(c, rs, r);
  }

  lemma BlocksGrow(w: Writer, op: Op, throttle: int)
    requires w.out.Valid() && Allowed(w, op) && op.DoRecord?
    ensures |Flatten(Do(w, op, throttle).blocks)| >= |Flatten(w.blocks)|
    ensures throttle == -1 ==> Do(w, op, throttle).blocks == w.blocks
  {
    var v := Push(Counted(BlockStreams.Record(w, op.bytes)), op.pushed);
    FlattenAppend(w.blocks, FlushedBlocks(v.out));
  }

  lemma WriteHeld<O(!new)>(c: Codec<O>, throttle: int, w: Writer, rs: seq<Record<O>>, r: Record<O>, pushed: nat,
                           before: nat)
    requires SelfDelimiting(c) && Holding(c, throttle, w, rs, before) && pushed <= |w.codec| + |PairBytes(c, r)|
    ensures w.out.Valid() && c.encode(r.0) + c.encode(r.1) != []
    ensures Fits(w.out, pushed) ==>
      Holding(c, throttle, Do(w, DoRecord(c.encode(r.0) + c.encode(r.1), pushed), throttle), rs + [r], before)
    ensures !Fits(w.out, pushed) ==> Exceeds(c, rs + [r], before)
  {
    assert c.encode(r.0) != [];
    HeldIsWritten(w, RecordBytes(c, rs), |rs|);
    RecordBytesSnoc(c, rs, r);
    if Fits(w.out, pushed) {
      RecordHeld(c, w, rs, r, pushed, throttle);
      BlocksGrow(w, DoRecord(PairBytes(c, r), pushed), throttle);
    }
  }

  lemma ForcedIsComplete<O>(c: Codec<O>, w: Writer, rs: seq<Record<O>>, throttle: int)
    requires Holds(c, w, rs) && Allowed(w, DoSpill(true))
    ensures Complete(c, Do(w, DoSpill(true), throttle), rs)
  {
    Finish(w, throttle, RecordBytes(c, rs), |rs|);
    SpillKeeps(w, true, throttle, RecordBytes(c, rs), |rs|);
  }

  /** A forced spill overflows the buffer only when there is too much for it; without a throttle exactly
      then. */
  lemma ForceHeld<O>(c: Codec<O>, throttle: int, w: Writer, rs: seq<Record<O>>, before: nat)
    requires Holding(c, throttle, w, rs, before)
    ensures Allowed(w, DoSpill(true)) ==> w.out.Valid() && Complete(c, Spill(w, true, throttle), rs)
    ensures !Allowed(w, DoSpill(true)) ==> Exceeds(c, rs, before)
    ensures Allowed(w, DoSpill(true)) && throttle == -1 ==> !Exceeds(c, rs, before)
  {
    HeldIsWritten(w, RecordBytes(c, rs), |rs|);
    hide Sound, Complete, Flatten, RecordBytes;
    if Allowed(w, DoSpill(true)) {
      ForcedIsComplete(c, w, rs, throttle);
    }
  }

  // ---- streams on one store ----

  /** The store, the serializer, the throttle, and the block id of each stream. */
  datatype Setup<!O> = Setup(kv: Kv, codec: Codec<O>, throttle: int, idOf: nat -> seq<Byte>) {
    function KeyOf(p: nat): nat { kv.hash(idOf(p)) }
  }

  /** The ids of the first n streams do not collide in the store. */
  ghost predicate DistinctIds<O>(on: Setup<O>, n: nat) {
    forall p, q :: 0 <= p < q < n ==> on.KeyOf(p) != on.KeyOf(q)
  }

  ghost predicate Unused<O>(on: Setup<O>, p: nat)
    reads on.kv, on.kv.dev
  {
    Stored(on.kv.Log(), on.KeyOf(p)) == []
  }

  /** Two streams share nothing but the store, and there not a key. */
  ghost predicate Apart<O>(a: BlockOutputStream<O>, b: BlockOutputStream<O>) {
    && a != b && a.out != b.out && a.out.byteBuffer != b.out.byteBuffer
    && a.out.kv == b.out.kv && a.out.kv.hash(a.out.blockId) != b.out.kv.hash(b.out.blockId)
  }

  ghost predicate AllApart<O>(kv: Kv, streams: seq<BlockOutputStream<O>>) {
    && (forall i :: 0 <= i < |streams| ==> streams[i].out.kv == kv)
    && forall i, j :: 0 <= i < |streams| && 0 <= j < |streams| && i != j ==> Apart(streams[i], streams[j])
  }

  /** Stream p; nothing of this can change. */
  ghost predicate Made<O>(on: Setup<O>, s: BlockOutputStream<O>, p: nat) {
    s.encode == on.codec.encode && s.throttle == on.throttle && s.out.kv == on.kv && s.out.blockId == on.idOf(p)
  }

  /** Each stream on its own id, apart from the others. */
  ghost predicate AllMade<O>(on: Setup<O>, streams: seq<BlockOutputStream<O>>) {
    && AllApart(on.kv, streams) && forall p :: 0 <= p < |streams| ==> Made(on, streams[p], p)
  }

  lemma MadeSnoc<O>(on: Setup<O>, ss: seq<BlockOutputStream<O>>, s: BlockOutputStream<O>)
    requires AllMade(on, ss) && Made(on, s, |ss|) && DistinctIds(on, |ss| + 1)
    requires forall q :: 0 <= q < |ss| ==> s != ss[q] && s.out != ss[q].out && s.out.byteBuffer != ss[q].out.byteBuffer
    ensures AllMade(on, ss + [s])
  {
    forall q | 0 <= q < |ss| ensures Apart(ss[q], s) && Apart(s, ss[q]) {
      assert Made(on, ss[q], q) && on.KeyOf(q) != on.KeyOf(|ss|);
    }
    assert forall p :: 0 <= p < |ss| + 1 ==> Made(on, (ss + [s])[p], p);
  }

  ghost function Footprint<O>(streams: seq<BlockOutputStream<O>>): set<object> {
    (set s: BlockOutputStream<O> | s in streams :: s as object)
    + (set s: BlockOutputStream<O> | s in streams :: s.out as object)
    + (set s: BlockOutputStream<O> | s in streams :: s.out.byteBuffer as object)
  }

  lemma InFootprint<O>(streams: seq<BlockOutputStream<O>>, p: nat)
    requires p < |streams|
    ensures streams[p] in Footprint(streams) && streams[p].out in Footprint(streams)
    ensures streams[p].out.byteBuffer in Footprint(streams)
  {
    assert streams[p] in streams;
  }

  predicate OtherStored(k: nat, before: seq<Entry>, after: seq<Entry>) { Stored(after, k) == Stored(before, k) }

  /** Nothing changed under any other key. */
  ghost predicate OthersStored(key: nat, before: seq<Entry>, after: seq<Entry>) {
    forall k: nat :: k != key ==> OtherStored(k, before, after)
  }

  twostate predicate Kept<O>(s: BlockOutputStream<O>)
    reads s, s.out, s.out.byteBuffer, s.out.kv, s.out.kv.dev
  {
    old(s.Valid()) && s.Valid() && s.State() == old(s.State())
  }

  /** A stream is as it was when its own objects are, and the blocks under its key. */
  twostate lemma StateKept<O>(s: BlockOutputStream<O>)
    requires old(s.Valid()) && unchanged(s) && unchanged(s.out) && unchanged(s.out.byteBuffer)
    requires OtherStored(s.out.kv.hash(s.out.blockId), old(s.out.kv.Log()), s.out.kv.Log())
    ensures Kept(s)
  {
    hide Kv.Log, Stored;
    assert s.out.Blocks() == old(s.out.Blocks());
  }

  /** A new stream on an id that is new to the store. */
  method CreateStream<O>(on: Setup<O>, p: nat) returns (s: BlockOutputStream<O>)
    requires on.kv.Valid() && Unused(on, p)
    ensures Made(on, s, p) && s.Valid() && s.State() == START
    ensures fresh(s) && fresh(s.out) && fresh(s.out.byteBuffer)
  {
    var out := new OutputStream(on.kv, on.idOf(p));
    s := new BlockOutputStream(out, on.codec.encode, on.throttle);
  }

  /** One record into one stream. It fails where the buffer below the serializer overflows. */
  method WriteRecord<O(!new)>(ghost on: Setup<O>, s: BlockOutputStream<O>, r: Record<O>, ghost rs: seq<Record<O>>,
                              ghost before: nat) returns (ok: bool)
    requires s.encode == on.codec.encode && s.throttle == on.throttle && SelfDelimiting(on.codec)
    requires s.Valid() && s.out.kv.Valid() && Holding(on.codec, on.throttle, s.State(), rs, before)
    modifies s, s.out, s.out.byteBuffer, s.out.kv, s.out.kv.dev, s.out.kv.index
    ensures s.Valid() && s.out.kv.Valid()
    ensures ok ==> Holding(on.codec, on.throttle, s.State(), rs + [r], before)
    ensures !ok ==> Exceeds(on.codec, rs + [r], before)
    ensures OthersStored(s.out.kv.hash(s.out.blockId), old(s.out.kv.Log()), s.out.kv.Log())
  {
    var pushed: nat :| pushed <= |s.codec| + |s.encode(r.0) + s.encode(r.1)|;
    WriteHeld(on.codec, on.throttle, s.State(), rs, r, pushed, before);
    hide Holding, Exceeds, Kv.Valid, SelfDelimiting, Do, Kv.Log, Stored;
    ok := s.Write(r.0, r.1, pushed);
  }

  /** One of many streams gets a record; the others keep their state, and other keys their blocks. */
  method WriteTo<O(!new)>(ghost on: Setup<O>, s: BlockOutputStream<O>, r: Record<O>,
                          ghost ss: seq<BlockOutputStream<O>>, ghost p: nat, ghost rs: seq<Record<O>>,
                          ghost before: nat) returns (ok: bool)
    requires p < |ss| && s == ss[p] && AllMade(on, ss) && on.kv.Valid() && SelfDelimiting(on.codec)
    requires forall q :: 0 <= q < |ss| ==> ss[q].Valid()
    requires Holding(on.codec, on.throttle, s.State(), rs, before)
    modifies s, s.out, s.out.byteBuffer, on.kv, on.kv.dev, on.kv.index
    ensures on.kv.Valid() && s.Valid()
    ensures forall q :: 0 <= q < |ss| && q != p ==> Kept(ss[q])
    ensures OthersStored(on.KeyOf(p), old(on.kv.Log()), on.kv.Log())
    ensures ok ==> Holding(on.codec, on.throttle, s.State(), rs + [r], before)
    ensures !ok ==> Exceeds(on.codec, rs + [r], before)
  {
    hide Holding, Exceeds, Kv.Valid, SelfDelimiting, Kv.Log, Stored;
    hide BlockOutputStream.Valid, BlockOutputStream.State;
    assert Made(on, ss[p], p);
    ok := WriteRecord(on, s, r, rs, before);
    assert forall q :: 0 <= q < |ss| && q != p ==> Apart(ss[p], ss[q]);
    forall q | 0 <= q < |ss| && q != p ensures Kept(ss[q]) {
      assert OtherStored(on.kv.hash(ss[q].out.blockId), old(on.kv.Log()), on.kv.Log());
      StateKept(ss[q]);
    }
  }

  /** A forced spill of one stream; it fails as a write does. */
  method ForceRecords<O>(ghost on: Setup<O>, s: BlockOutputStream<O>, ghost rs: seq<Record<O>>, ghost before: nat)
    returns (ok: bool)
    requires s.throttle == on.throttle && s.Valid() && s.out.kv.Valid()
    requires Holding(on.codec, on.throttle, s.State(), rs, before)
    modifies s, s.out, s.out.byteBuffer, s.out.kv, s.out.kv.dev, s.out.kv.index
    ensures s.Valid() && s.out.kv.Valid()
    ensures ok ==> Complete(on.codec, s.State(), rs) && (on.throttle == -1 ==> !Exceeds(on.codec, rs, before))
    ensures !ok ==> Exceeds(on.codec, rs, before)
    ensures OthersStored(s.out.kv.hash(s.out.blockId), old(s.out.kv.Log()), s.out.kv.Log())
  {
    ForceHeld(on.codec, on.throttle, s.State(), rs, before);
    hide Holding, Exceeds, Complete, Kv.Valid, Kv.Log, Stored, Spill;
    ok := s.MaybeSpill(true);
  }

  method ForceTo<O>(ghost on: Setup<O>, s: BlockOutputStream<O>, ghost ss: seq<BlockOutputStream<O>>, ghost p: nat,
                    ghost rs: seq<Record<O>>, ghost before: nat) returns (ok: bool)
    requires p < |ss| && s == ss[p] && AllMade(on, ss) && on.kv.Valid()
    requires forall q :: 0 <= q < |ss| ==> ss[q].Valid()
    requires Holding(on.codec, on.throttle, s.State(), rs, before)
    modifies s, s.out, s.out.byteBuffer, on.kv, on.kv.dev, on.kv.index
    ensures on.kv.Valid() && s.Valid()
    ensures forall q :: 0 <= q < |ss| && q != p ==> Kept(ss[q])
    ensures OthersStored(on.KeyOf(p), old(on.kv.Log()), on.kv.Log())
    ensures ok ==> Complete(on.codec, s.State(), rs) && (on.throttle == -1 ==> !Exceeds(on.codec, rs, before))
    ensures !ok ==> Exceeds(on.codec, rs, before)
  {
    hide Holding, Exceeds, Complete, Kv.Valid, Kv.Log, Stored;
    hide BlockOutputStream.Valid, BlockOutputStream.State;
    assert Made(on, ss[p], p);
    ok := ForceRecords(on, s, rs, before);
    assert forall q :: 0 <= q < |ss| && q != p ==> Apart(ss[p], ss[q]);
    forall q | 0 <= q < |ss| && q != p ensures Kept(ss[q]) {
      assert OtherStored(on.kv.hash(ss[q].out.blockId), old(on.kv.Log()), on.kv.Log());
      StateKept(ss[q]);
    }
  }
}
