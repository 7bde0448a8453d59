/** The whole byte pipeline: what nvmBlockOutputStream writes is what nvmInputStream and
    nvmBlockInputStream read back. */
module RoundTrips {
  import opened Bytes
  import opened BlockStreams
  import opened InputStreams
  import opened BlockInput

  /** The buffer is never overfilled, not even by the last spill. */
  predicate Complete(ops: seq<Op>, throttle: int) {
    AllowedRun(START, ops, throttle) && Allowed(Run(START, ops, throttle), DoSpill(true))
  }

  /** The stream after a run on a fresh block id and a forced spill. */
  function EndOf(ops: seq<Op>, throttle: int): Writer
    requires Complete(ops, throttle)
  {
    ForcedSpillStoresAll(ops, throttle);
    Do(Run(START, ops, throttle), DoSpill(true), throttle)
  }

  function StoredBy(ops: seq<Op>, throttle: int): seq<seq<Byte>>
    requires Complete(ops, throttle)
  {
    EndOf(ops, throttle).blocks
  }

  /** The value a reader finds is the bytes written, cut into blocks none of which is empty. */
  lemma StoredIsWritten(ops: seq<Op>, throttle: int)
    requires Complete(ops, throttle)
    ensures Flatten(StoredBy(ops, throttle)) == Written(ops) && [] !in StoredBy(ops, throttle)
  {
    ForcedSpillStoresAll(ops, throttle);
  }

  /** Bytes: whatever the records, the spills and the throttle were, and however the reader asks, it
      gets the bytes written, in order, and its end exactly behind the last of them. */
  lemma BytesComeBack(ops: seq<Op>, throttle: int, qs: seq<Request>)
    requires Complete(ops, throttle) && |Written(ops)| <= INT_MAX
    ensures Flatten(StoredBy(ops, throttle)) == Written(ops)
    ensures var r := Opened(StoredBy(ops, throttle));
      && r.Loaded() && r.available == |Written(ops)| && r.Unread() == r.buf.Contents() == Written(ops)
      && Answers(r, qs) == Written(ops)[..Min(AllWanted(qs), |Written(ops)|)]
  {
    StoredIsWritten(ops, throttle);
    OpenLoads(StoredBy(ops, throttle));
    ReadsInOrder(Opened(StoredBy(ops, throttle)), qs);
  }

  /** These records were written by these operations. */
  ghost predicate Writes<O>(c: Codec<O>, ops: seq<Op>, rs: seq<Record<O>>) {
    if ops == [] then rs == []
    else if ops[0].DoRecord? then
      rs != [] && ops[0].bytes == PairBytes(c, rs[0]) && Writes(c, ops[1..], rs[1..])
    else Writes(c, ops[1..], rs)
  }

  lemma {:induction false} WrittenIsRecords<O>(c: Codec<O>, ops: seq<Op>, rs: seq<Record<O>>)
    requires Writes(c, ops, rs)
    ensures Written(ops) == RecordBytes(c, rs) && Records(ops) == |rs|
  {
    if ops != [] {
      WrittenIsRecords(c, ops[1..], if ops[0].DoRecord? then rs[1..] else rs);
      assert [] + Written(ops[1..]) == Written(ops[1..]);
    }
  }

  /** Records: the reader returns record after record, each once and in order, and then null for ever. */
  lemma RecordsComeBack<O(!new)>(c: Codec<O>, ops: seq<Op>, throttle: int, rs: seq<Record<O>>, k: nat)
    requires SelfDelimiting(c) && Writes(c, ops, rs)
    requires Complete(ops, throttle) && |Written(ops)| <= INT_MAX
    requires rs != []
    ensures Flatten(StoredBy(ops, throttle)) == Written(ops) && Opened(StoredBy(ops, throttle)).Loaded()
    ensures var total := EndOf(ops, throttle).records;
      ItemOf(c, AfterItems(c, Reading(Opened(StoredBy(ops, throttle)).buf.Contents(), total, 0, false), k)) ==
        if k < |rs| then Pair(rs[k]) else Null
  {
    BytesComeBack(ops, throttle, []);
    AllCounted(ops, throttle);
    hide Complete, StoredBy, EndOf, Opened, SelfDelimiting, Writes, RecordBytes, Written, Records, ItemOf, AfterItems;
    WrittenIsRecords(c, ops, rs);
    ItemNumber(c, rs, |rs|, k);
  }

  lemma AllCounted(ops: seq<Op>, throttle: int)
    requires Complete(ops, throttle)
    ensures EndOf(ops, throttle).records == Records(ops)
  {
    ForcedSpillStoresAll(ops, throttle);
  }
}
