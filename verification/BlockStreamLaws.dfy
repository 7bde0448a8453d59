/** Exact conditions on the runs of nvmBlockOutputStream.scala: when the buffer overflows, when the Int
    size is wrong, and when the record counts are those of the blocks. */
module BlockStreamLaws {
  import opened Bytes
  import opened Options
  import opened OutputStreams
  import opened BlockStreams

  // ---- overflow ----

  /** A stream that is written these records and forced out; None where put on the full buffer throws.
      With each record the serializer passes on as many bytes as it is told, or all it has. */
  function Outcome(w: Writer, records: seq<seq<Byte>>, pushes: seq<nat>, throttle: int): Option<Writer>
    requires w.out.Valid() && |pushes| == |records|
    decreases |records|
  {
    if records == [] then
      if Allowed(w, DoSpill(true)) then Some(Do(w, DoSpill(true), throttle)) else None
    else
      var op := DoRecord(records[0], Min(pushes[0], |w.codec| + |records[0]|));
      if Allowed(w, op) then
        DoValid(w, op, throttle);
        Outcome(Do(w, op, throttle), records[1..], pushes[1..], throttle)
      else None
  }

  lemma FlattenFirst(records: seq<seq<Byte>>)
    requires records != []
    ensures |Flatten(records)| == |records[0]| + |Flatten(records[1..])|
    ensures [] !in records ==> records[0] != [] && [] !in records[1..]
  {
    assert forall r :: r in records[1..] ==> r in records;
  }

  /** What is in the buffer and with the serializer is no more than what was written. */
  lemma HeldIsWritten(w: Writer, written: seq<Byte>, n: nat)
    requires Sound(w, written, n)
    ensures |w.out.buffer| + |w.codec| + |Flatten(w.blocks)| == |written| && w.out.Valid()
  {
  }

  /** Bytes that fit the buffer together never overflow it. */
  lemma {:induction false} FewBytesSucceed(w: Writer, records: seq<seq<Byte>>, pushes: seq<nat>, throttle: int,
                                          written: seq<Byte>, n: nat)
    requires Sound(w, written, n) && w.out.Valid() && |pushes| == |records| && [] !in records
    requires |written| + |Flatten(records)| <= LENGTH
    ensures Outcome(w, records, pushes, throttle).Some?
    decreases |records|
  {
    hide Sound, Do, Flatten;
    HeldIsWritten(w, written, n);
    if records != [] {
      FlattenFirst(records);
      var op := DoRecord(records[0], Min(pushes[0], |w.codec| + |records[0]|));
      assert Allowed(w, op);
      StepKeeps(w, op, throttle, written, n);
      DoValid(w, op, throttle);
      FewBytesSucceed(Do(w, op, throttle), records[1..], pushes[1..], throttle, written + records[0], n + 1);
    }
  }

  /** Nothing was stored yet, and nothing will be before the end: either there is no throttle, or the
      serializer passes nothing on of its own accord. */
  predicate Unspilled(w: Writer, throttle: int, pushes: seq<nat>) {
    && w.blocks == []
    && (throttle == -1 || (w.out == EMPTY && forall i :: 0 <= i < |pushes| ==> pushes[i] == 0))
  }

  lemma StaysUnspilled(w: Writer, record: seq<Byte>, pushes: seq<nat>, throttle: int)
    requires w.out.Valid() && Unspilled(w, throttle, pushes) && pushes != []
    requires Allowed(w, DoRecord(record, Min(pushes[0], |w.codec| + |record|)))
    ensures Unspilled(Do(w, DoRecord(record, Min(pushes[0], |w.codec| + |record|)), throttle), throttle, pushes[1..])
  {
    if throttle != -1 {
      assert pushes[0] == 0;
      assert (w.codec + record)[..0] == [] && Put(EMPTY, []) == EMPTY;
    }
  }

  lemma {:induction false} UnspilledNeedsRoom(w: Writer, records: seq<seq<Byte>>, pushes: seq<nat>, throttle: int,
                                             written: seq<Byte>, n: nat)
    requires Sound(w, written, n) && w.out.Valid() && |pushes| == |records| && [] !in records
    requires Unspilled(w, throttle, pushes) && Outcome(w, records, pushes, throttle).Some?
    ensures |written| + |Flatten(records)| <= LENGTH
    decreases |records|
  {
    hide Sound, Do, Flatten;
    FlattenNone();
    HeldIsWritten(w, written, n);
    if records != [] {
      FlattenFirst(records);
      var op := DoRecord(records[0], Min(pushes[0], |w.codec| + |records[0]|));
      StaysUnspilled(w, records[0], pushes, throttle);
      assert Allowed(w, op);
      hide Unspilled;
      StepKeeps(w, op, throttle, written, n);
      DoValid(w, op, throttle);
      UnspilledNeedsRoom(Do(w, op, throttle), records[1..], pushes[1..], throttle, written + records[0], n + 1);
    }
  }

  /** Without a throttle a stream overflows exactly when its records do not fit the buffer together,
      whatever the serializer passes on when. */
  lemma SucceedsIff(records: seq<seq<Byte>>, pushes: seq<nat>)
    requires |pushes| == |records| && [] !in records
    ensures Outcome(START, records, pushes, -1).Some? <==> |Flatten(records)| <= LENGTH
  {
    hide Sound, Flatten, Outcome;
    StartSound();
    if |Flatten(records)| <= LENGTH {
      FewBytesSucceed(START, records, pushes, -1, [], 0);
    } else if Outcome(START, records, pushes, -1).Some? {
      UnspilledNeedsRoom(START, records, pushes, -1, [], 0);
    }
  }

  /** Whatever the throttle: no serializer makes a stream overflow exactly when its records fit the
      buffer together. */
  lemma EveryChoiceSucceedsIff(records: seq<seq<Byte>>, throttle: int)
    requires [] !in records
    ensures (forall pushes: seq<nat> :: |pushes| == |records| ==> Survives(records, pushes, throttle))
      <==> |Flatten(records)| <= LENGTH
  {
    hide Sound, Flatten, Outcome;
    StartSound();
    if |Flatten(records)| <= LENGTH {
      forall pushes: seq<nat> | |pushes| == |records| ensures Survives(records, pushes, throttle) {
        FewBytesSucceed(START, records, pushes, throttle, [], 0);
      }
    } else {
      var none: seq<nat> := seq(|records|, _ => 0);
      if Survives(records, none, throttle) {
        UnspilledNeedsRoom(START, records, none, throttle, [], 0);
      }
    }
  }

  predicate Survives(records: seq<seq<Byte>>, pushes: seq<nat>, throttle: int)
    requires |pushes| == |records|
  {
    Outcome(START, records, pushes, throttle).Some?
  }

  // ---- the Int size ----

  lemma RunStep(w: Writer, op: Op, ops: seq<Op>, throttle: int)
    requires w.out.Valid() && Allowed(w, op)
    ensures Do(w, op, throttle).out.Valid()
    ensures AllowedRun(Do(w, op, throttle), ops, throttle) ==>
      AllowedRun(w, [op] + ops, throttle) && Run(w, [op] + ops, throttle) == Run(Do(w, op, throttle), ops, throttle)
    ensures Written([op] + ops) == BytesOf(op) + Written(ops)
  {
    DoValid(w, op, throttle);
    assert ([op] + ops)[1..] == ops;
  }

  /** Records of the size of the buffer, each forced out. */
  function Bulk(k: nat, block: seq<Byte>): seq<Op> {
    if k == 0 then [] else [DoRecord(block, |block|)] + ([DoSpill(true)] + Bulk(k - 1, block))
  }

  lemma RunNothing(w: Writer, throttle: int)
    requires w.out.Valid()
    ensures AllowedRun(w, [], throttle) && Run(w, [], throttle) == w && Written([]) == []
  {
  }

  lemma BulkStep(w: Writer, block: seq<Byte>, throttle: int, written: seq<Byte>, n: nat)
    requires Sound(w, written, n) && w.out.buffer == [] && w.codec == [] && |block| == LENGTH
    ensures w.out.Valid() && Allowed(w, DoRecord(block, |block|))
    ensures var v := Do(w, DoRecord(block, |block|), throttle);
      && v.out.Valid() && Allowed(v, DoSpill(true))
      && var u := Do(v, DoSpill(true), throttle);
        Sound(u, written + block, n + 1) && u.out.buffer == [] && u.codec == []
  {
    StepKeeps(w, DoRecord(block, |block|), throttle, written, n);
    var v := Do(w, DoRecord(block, |block|), throttle);
    assert v.codec == [];
    hide Do, Sound;
    assert Do(v, DoSpill(true), throttle) == Spill(v, true, throttle);
    SpillKeeps(v, true, throttle, written + block, n + 1);
  }

  lemma {:induction false} BulkRuns(w: Writer, k: nat, block: seq<Byte>, throttle: int, written: seq<Byte>, n: nat)
    requires Sound(w, written, n) && w.out.Valid() && w.out.buffer == [] && w.codec == [] && |block| == LENGTH
    ensures AllowedRun(w, Bulk(k, block), throttle) && |Written(Bulk(k, block))| == k * LENGTH
    ensures Allowed(Run(w, Bulk(k, block), throttle), DoSpill(true))
    decreases k
  {
    hide Sound, Run, AllowedRun, Written, Do;
    RunNothing(w, throttle);
    if k > 0 {
      BulkStep(w, block, throttle, written, n);
      var v := Do(w, DoRecord(block, |block|), throttle);
      var u, rest := Do(v, DoSpill(true), throttle), Bulk(k - 1, block);
      RunStep(v, DoSpill(true), rest, throttle);
      RunStep(w, DoRecord(block, |block|), [DoSpill(true)] + rest, throttle);
      BulkRuns(u, k - 1, block, throttle, written + block, n + 1);
    }
  }

  /** The size is wrong for real runs: 342 full buffers are more than an Int counts. */
  lemma SizeWraps(block: seq<Byte>, throttle: int)
    requires |block| == LENGTH
    ensures AllowedRun(START, Bulk(342, block), throttle)
    ensures Allowed(Run(START, Bulk(342, block), throttle), DoSpill(true))
    ensures Run(START, Bulk(342, block), throttle).out.Valid()
    ensures Do(Run(START, Bulk(342, block), throttle), DoSpill(true), throttle).size != |Written(Bulk(342, block))|
  {
    hide Run, AllowedRun, Written, Bulk, Do, Sound, Flatten, Sum, Allowed;
    StartSound();
    BulkRuns(START, 342, block, throttle, [], 0);
    ForcedSpillStoresAll(Bulk(342, block), throttle);
  }

  // ---- the records of each block ----

  lemma SumSnoc(counts: seq<nat>, n: nat)
    ensures Sum(counts + [n]) == Sum(counts) + n
  {
    assert (counts + [n])[..|counts|] == counts;
  }

  lemma {:induction false} SumPrefix(counts: seq<nat>, i: nat)
    requires i <= |counts|
    ensures Sum(counts[..i]) <= Sum(counts)
    decreases |counts|
  {
    if i < |counts| {
      SumPrefix(counts[..|counts| - 1], i);
      assert counts[..|counts| - 1][..i] == counts[..i];
    } else {
      assert counts[..i] == counts;
    }
  }

  /** The records, so many to a block as the counts say. */
  function Grouped(records: seq<seq<Byte>>, counts: seq<nat>): (r: seq<seq<Byte>>)
    requires Sum(counts) <= |records|
    ensures |r| == |counts|
  {
    if counts == [] then []
    else
      var front := counts[..|counts| - 1];
      Grouped(records, front) + [Flatten(records[Sum(front)..Sum(counts)])]
  }

  lemma {:induction false} GroupedAt(records: seq<seq<Byte>>, counts: seq<nat>, i: nat)
    requires Sum(counts) <= |records| && i < |counts|
    ensures Sum(counts[..i]) <= Sum(counts[..i + 1]) <= |records|
    ensures Grouped(records, counts)[i] == Flatten(records[Sum(counts[..i])..Sum(counts[..i + 1])])
    decreases |counts|
  {
    var front := counts[..|counts| - 1];
    if i < |front| {
      GroupedAt(records, front, i);
      assert front[..i] == counts[..i] && front[..i + 1] == counts[..i + 1];
    } else {
      assert counts[..i] == front && counts[..i + 1] == counts;
    }
  }

  lemma {:induction false} GroupedPrefix(records: seq<seq<Byte>>, more: seq<seq<Byte>>, counts: seq<nat>)
    requires Sum(counts) <= |records|
    ensures Grouped(records + more, counts) == Grouped(records, counts)
  {
    if counts != [] {
      var front := counts[..|counts| - 1];
      GroupedPrefix(records, more, front);
      assert (records + more)[Sum(front)..Sum(counts)] == records[Sum(front)..Sum(counts)];
    }
  }

  /** Each block is the records accounted to it, and the buffer and the serializer hold the others. */
  ghost predicate Aligned(w: Writer, records: seq<seq<Byte>>) {
    && Sum(w.recordsArray) + w.recordsPerBlock == |records|
    && w.blocks == Grouped(records, w.recordsArray)
    && w.out.buffer + w.codec == Flatten(records[Sum(w.recordsArray)..])
  }

  function RecordOf(op: Op): seq<seq<Byte>> { if op.DoRecord? then [op.bytes] else [] }

  lemma RecordAligns(w: Writer, bytes: seq<Byte>, records: seq<seq<Byte>>)
    requires Aligned(w, records)
    ensures Aligned(Counted(Record(w, bytes)), records + [bytes])
  {
    GroupedPrefix(records, [bytes], w.recordsArray);
    var rest := records[Sum(w.recordsArray)..];
    assert (records + [bytes])[Sum(w.recordsArray)..] == rest + [bytes];
    FlattenSnoc(rest, bytes);
    ConcatAssociates(w.out.buffer, w.codec, bytes);
  }

  lemma PushAligns(w: Writer, n: nat, records: seq<seq<Byte>>)
    requires n <= |w.codec| && Fits(w.out, n) && Aligned(w, records)
    ensures Aligned(Push(w, n), records)
  {
    ConcatAssociates(w.out.buffer, w.codec[..n], w.codec[n..]);
    assert w.codec[..n] + w.codec[n..] == w.codec;
  }

  lemma GroupedSnoc(records: seq<seq<Byte>>, counts: seq<nat>, n: nat)
    requires Sum(counts) + n == |records|
    ensures Sum(counts + [n]) == |records|
    ensures Grouped(records, counts + [n]) == Grouped(records, counts) + [Flatten(records[Sum(counts)..])]
  {
    hide Flatten, Sum;
    SumSnoc(counts, n);
    var all := counts + [n];
    assert all[..|all| - 1] == counts;
    assert Grouped(records, all) == Grouped(records, counts) + [Flatten(records[Sum(counts)..Sum(all)])];
    assert records[Sum(counts)..|records|] == records[Sum(counts)..];
  }

  lemma AccountIs(w: Writer)
    requires w.out.Valid() && w.out.remaining == |w.out.buffer| && w.out.flushed == 0
    ensures w.out.buffer == [] ==> Account(FlushOut(w)) == w
    ensures w.out.buffer != [] ==> var v := Account(FlushOut(w));
      && v.out == EMPTY && v.codec == w.codec && v.blocks == w.blocks + [w.out.buffer]
      && v.recordsArray == w.recordsArray + [w.recordsPerBlock] && v.recordsPerBlock == 0
  {
    assert w.out.buffer[..w.out.remaining] == w.out.buffer;
    assert w.blocks + [] == w.blocks;
  }

  lemma LongerIff(b: seq<Byte>, c: seq<Byte>)
    ensures b == b + c <==> c == []
  {
    assert |b + c| == |b| + |c|;
    assert b + [] == b;
  }

  lemma NothingBehind(records: seq<seq<Byte>>)
    ensures Flatten(records[|records|..]) == []
  {
  }

  /** Some block is not the records accounted to it. */
  ghost predicate Misaligned(w: Writer, records: seq<seq<Byte>>) {
    Sum(w.recordsArray) <= |records| && w.blocks != Grouped(records, w.recordsArray)
  }

  lemma BlockIsGroupIff(records: seq<seq<Byte>>, counts: seq<nat>, n: nat, block: seq<Byte>, held: seq<Byte>)
    requires Sum(counts) + n == |records| && block + held == Flatten(records[Sum(counts)..])
    ensures Sum(counts + [n]) == |records|
    ensures Grouped(records, counts) + [block] == Grouped(records, counts + [n]) <==> held == []
  {
    hide Sum, Flatten, Grouped;
    GroupedSnoc(records, counts, n);
    LastsSameIff(Grouped(records, counts), block, block + held);
    LongerIff(block, held);
  }

  /** A flush that stores something is accounted the right records when the serializer holds nothing
      back, and other ones else. */
  lemma AccountAligns(w: Writer, written: seq<Byte>, n: nat, records: seq<seq<Byte>>)
    requires Sound(w, written, n) && w.out.Valid() && Aligned(w, records)
    ensures var v := Account(FlushOut(w));
      if w.out.buffer == [] || w.codec == [] then Aligned(v, records) else Misaligned(v, records)
  {
    AccountIs(w);
    hide Account, FlushOut, Flatten, Grouped, Sum, Sound;
    if w.out.buffer != [] {
      BlockIsGroupIff(records, w.recordsArray, w.recordsPerBlock, w.out.buffer, w.codec);
      NothingBehind(records);
      assert w.codec == [] ==> EMPTY.buffer + w.codec == [];
    }
  }

  lemma LastsSameIff<T>(s: seq<T>, x: T, y: T)
    ensures s + [x] == s + [y] <==> x == y
  {
    assert (s + [x])[|s|] == x && (s + [y])[|s|] == y;
  }

  /** With so many bytes in the buffer a spill that is not forced stores a block. */
  predicate Stores(buffered: nat, throttle: int) { throttle != -1 && buffered >= throttle && buffered > 0 }

  lemma SpillAligns(w: Writer, force: bool, throttle: int, written: seq<Byte>, n: nat, records: seq<seq<Byte>>)
    requires Sound(w, written, n) && w.out.Valid() && Aligned(w, records) && (force ==> Fits(w.out, |w.codec|))
    ensures var v := Spill(w, force, throttle);
      if force || !Stores(|w.out.buffer|, throttle) || w.codec == [] then Aligned(v, records)
      else Misaligned(v, records)
  {
    hide Aligned, Misaligned, Account, FlushOut;
    assert w.out.remaining == |w.out.buffer|;
    if force {
      PushKeeps(w, written, n, |w.codec|);
      PushAligns(w, |w.codec|, records);
      SecondFlushIdle(Push(w, |w.codec|));
      AccountAligns(Push(w, |w.codec|), written, n, records);
    } else if Due(w.out, force, throttle) {
      AccountAligns(w, written, n, records);
    }
  }

  /** With so many bytes in the buffer and with the serializer, the operation stores no block or leaves
      the serializer nothing. */
  predicate StepTidy(buffered: nat, held: nat, op: Op, throttle: int) {
    match op
    case DoRecord(bytes, pushed) => Stores(buffered + pushed, throttle) ==> pushed == held + |bytes|
    case DoSpill(force) => !force && Stores(buffered, throttle) ==> held == 0
  }

  lemma StepAligns(w: Writer, op: Op, throttle: int, written: seq<Byte>, n: nat, records: seq<seq<Byte>>)
    requires Sound(w, written, n) && w.out.Valid() && Allowed(w, op) && Aligned(w, records)
    ensures var v, rs := Do(w, op, throttle), records + RecordOf(op);
      if StepTidy(|w.out.buffer|, |w.codec|, op, throttle) then Aligned(v, rs) else Misaligned(v, rs)
  {
    hide Sound, Aligned, Misaligned, Spill;
    match op {
      case DoRecord(bytes, pushed) =>
        RecordKeeps(w, bytes, written, n);
        RecordAligns(w, bytes, records);
        PushKeeps(Counted(Record(w, bytes)), written + bytes, n + 1, pushed);
        PushAligns(Counted(Record(w, bytes)), pushed, records + [bytes]);
        var v := Push(Counted(Record(w, bytes)), pushed);
        SpillAligns(v, false, throttle, written + bytes, n + 1, records + [bytes]);
      case DoSpill(force) =>
        assert records + [] == records;
        SpillAligns(w, force, throttle, written, n, records);
    }
  }

  /** After any step the counts are those of the blocks exactly when the counters of bytes say that it
      stores no block or that the serializer then holds nothing back; a forced spill always qualifies. */
  lemma StepAlignsIff(w: Writer, op: Op, throttle: int, written: seq<Byte>, n: nat, records: seq<seq<Byte>>)
    requires Sound(w, written, n) && w.out.Valid() && Allowed(w, op) && Aligned(w, records)
    ensures Aligned(Do(w, op, throttle), records + RecordOf(op))
      <==> StepTidy(|w.out.buffer|, |w.codec|, op, throttle)
  {
    StepAligns(w, op, throttle, written, n, records);
  }

  // A block that is not what it is accounted stays that.

  lemma RecordMisaligned(w: Writer, bytes: seq<Byte>, records: seq<seq<Byte>>)
    requires Misaligned(w, records)
    ensures Misaligned(Counted(Record(w, bytes)), records + [bytes])
  {
    GroupedPrefix(records, [bytes], w.recordsArray);
  }

  lemma AccountMisaligned(w: Writer, written: seq<Byte>, records: seq<seq<Byte>>)
    requires Sound(w, written, |records|) && w.out.Valid() && Misaligned(w, records)
    ensures Misaligned(Account(FlushOut(w)), records)
  {
    AccountIs(w);
    var v := Account(FlushOut(w));
    hide Account, FlushOut, Flatten, Sum, Wrap32;
    if w.out.buffer != [] {
      SumSnoc(w.recordsArray, w.recordsPerBlock);
      assert v.recordsArray[..|w.recordsArray|] == w.recordsArray;
      var last := Flatten(records[Sum(w.recordsArray)..Sum(v.recordsArray)]);
      assert Grouped(records, v.recordsArray) == Grouped(records, w.recordsArray) + [last];
      FrontsDiffer(w.blocks, w.out.buffer, Grouped(records, w.recordsArray), last);
    }
  }

  lemma FrontsDiffer<T>(s: seq<T>, x: T, t: seq<T>, y: T)
    requires s != t
    ensures s + [x] != t + [y]
  {
    assert |s| == |t| ==> (s + [x])[..|s|] == s && (t + [y])[..|s|] == t;
  }

  lemma SpillMisaligned(w: Writer, force: bool, throttle: int, written: seq<Byte>, records: seq<seq<Byte>>)
    requires Sound(w, written, |records|) && w.out.Valid() && Misaligned(w, records)
    requires force ==> Fits(w.out, |w.codec|)
    ensures Misaligned(Spill(w, force, throttle), records)
  {
    hide Sound, Account, FlushOut;
    if force {
      PushKeeps(w, written, |records|, |w.codec|);
      SecondFlushIdle(Push(w, |w.codec|));
      AccountMisaligned(Push(w, |w.codec|), written, records);
    } else if Due(w.out, force, throttle) {
      AccountMisaligned(w, written, records);
    }
  }

  lemma StepMisaligned(w: Writer, op: Op, throttle: int, written: seq<Byte>, records: seq<seq<Byte>>)
    requires Sound(w, written, |records|) && w.out.Valid() && Allowed(w, op) && Misaligned(w, records)
    ensures Misaligned(Do(w, op, throttle), records + RecordOf(op))
  {
    hide Sound, Spill;
    match op {
      case DoRecord(bytes, pushed) =>
        RecordKeeps(w, bytes, written, |records|);
        RecordMisaligned(w, bytes, records);
        PushKeeps(Counted(Record(w, bytes)), written + bytes, |records| + 1, pushed);
        SpillMisaligned(Push(Counted(Record(w, bytes)), pushed), false, throttle, written + bytes, records + [bytes]);
      case DoSpill(force) =>
        assert records + [] == records;
        SpillMisaligned(w, force, throttle, written, records);
    }
  }

  // ---- over runs ----

  function BufferedAfter(buffered: nat, op: Op, throttle: int): nat {
    match op
    case DoRecord(bytes, pushed) => if Stores(buffered + pushed, throttle) then 0 else buffered + pushed
    case DoSpill(force) => if force || Stores(buffered, throttle) then 0 else buffered
  }

  function HeldAfter(held: nat, op: Op): nat {
    match op
    case DoRecord(bytes, pushed) => if pushed <= held + |bytes| then held + |bytes| - pushed else 0
    case DoSpill(force) => if force then 0 else held
  }

  lemma BytesCounted(w: Writer, op: Op, throttle: int, written: seq<Byte>, n: nat)
    requires Sound(w, written, n) && w.out.Valid() && Allowed(w, op)
    ensures |Do(w, op, throttle).out.buffer| == BufferedAfter(|w.out.buffer|, op, throttle)
    ensures |Do(w, op, throttle).codec| == HeldAfter(|w.codec|, op)
  {
    hide Flatten, Sum, Wrap32;
  }

  /** Every step that stores a block leaves the serializer nothing. */
  predicate Tidy(buffered: nat, held: nat, ops: seq<Op>, throttle: int)
    decreases |ops|
  {
    ops == [] || (
      && StepTidy(buffered, held, ops[0], throttle)
      && Tidy(BufferedAfter(buffered, ops[0], throttle), HeldAfter(held, ops[0]), ops[1..], throttle))
  }

  function RecordList(ops: seq<Op>): seq<seq<Byte>> {
    if ops == [] then [] else RecordOf(ops[0]) + RecordList(ops[1..])
  }

  lemma RecordListStep(records: seq<seq<Byte>>, ops: seq<Op>)
    ensures ops == [] ==> records + RecordList(ops) == records
    ensures ops != [] ==> records + RecordList(ops) == records + RecordOf(ops[0]) + RecordList(ops[1..])
  {
    if ops != [] {
      var a, b := RecordOf(ops[0]), RecordList(ops[1..]);
      assert RecordList(ops) == a + b;
      hide RecordOf, RecordList;
      assert records + (a + b) == records + a + b;
    }
  }

  lemma {:induction false} RunMisaligned(w: Writer, ops: seq<Op>, throttle: int, written: seq<Byte>,
                                         records: seq<seq<Byte>>)
    requires Sound(w, written, |records|) && w.out.Valid() && AllowedRun(w, ops, throttle) && Misaligned(w, records)
    ensures Misaligned(Run(w, ops, throttle), records + RecordList(ops))
    decreases |ops|
  {
    hide Sound, Misaligned, Do, Allowed, BytesOf, RecordList;
    RecordListStep(records, ops);
    if ops != [] {
      StepKeeps(w, ops[0], throttle, written, |records|);
      DoValid(w, ops[0], throttle);
      StepMisaligned(w, ops[0], throttle, written, records);
      RunMisaligned(Do(w, ops[0], throttle), ops[1..], throttle, written + BytesOf(ops[0]), records + RecordOf(ops[0]));
    }
  }

  /** After a whole run block i is exactly the records that recordsArray(i) counts, for every i, exactly
      when no step stored a block while the serializer held something back. */
  lemma {:induction false} RunAlignsIff(w: Writer, ops: seq<Op>, throttle: int, written: seq<Byte>,
                                        records: seq<seq<Byte>>)
    requires Sound(w, written, |records|) && w.out.Valid() && AllowedRun(w, ops, throttle) && Aligned(w, records)
    ensures Aligned(Run(w, ops, throttle), records + RecordList(ops))
      <==> Tidy(|w.out.buffer|, |w.codec|, ops, throttle)
    decreases |ops|
  {
    hide Sound, Aligned, Misaligned, Do, Allowed, BytesOf, RecordList, StepTidy, BufferedAfter, HeldAfter;
    RecordListStep(records, ops);
    if ops != [] {
      var v, written', records' := Do(w, ops[0], throttle), written + BytesOf(ops[0]), records + RecordOf(ops[0]);
      StepKeeps(w, ops[0], throttle, written, |records|);
      DoValid(w, ops[0], throttle);
      StepAligns(w, ops[0], throttle, written, |records|, records);
      if StepTidy(|w.out.buffer|, |w.codec|, ops[0], throttle) {
        BytesCounted(w, ops[0], throttle, written, |records|);
        RunAlignsIff(v, ops[1..], throttle, written', records');
      } else {
        RunMisaligned(v, ops[1..], throttle, written', records');
        MisalignedIsNot(Run(v, ops[1..], throttle), records' + RecordList(ops[1..]));
      }
    }
  }

  lemma MisalignedIsNot(w: Writer, records: seq<seq<Byte>>)
    requires Misaligned(w, records)
    ensures !Aligned(w, records)
  {
  }

  lemma StartAligned()
    ensures Aligned(START, [])
  {
  }

  /** So for a stream from its start. */
  lemma CountsAreRightIff(ops: seq<Op>, throttle: int)
    requires AllowedRun(START, ops, throttle)
    ensures Aligned(Run(START, ops, throttle), RecordList(ops)) <==> Tidy(0, 0, ops, throttle)
  {
    hide Sound, Aligned, AllowedRun, Tidy, Run, RecordList;
    StartSound();
    StartAligned();
    assert [] + RecordList(ops) == RecordList(ops);
    RunAlignsIff(START, ops, throttle, [], []);
  }

  /** A serializer that passes on one byte of two, with a throttle of one: the block is counted one
      record, and is not it. */
  lemma CountMisleads(a: Byte, b: Byte)
    ensures Allowed(START, DoRecord([a, b], 1))
    ensures var w := Do(START, DoRecord([a, b], 1), 1);
      w.blocks == [[a]] && w.recordsArray == [1] && w.codec == [b]
  {
    var v := Push(Counted(Record(START, [a, b])), 1);
    assert START.codec + [a, b] == [a, b] && [a, b][..1] == [a] && [a, b][1..] == [b];
    assert START.out.buffer + [a] == [a] && v.out == Out([a], 1, 0) && v.codec == [b];
    assert [a][..1] == [a] && START.blocks + [[a]] == [[a]] && START.recordsArray + [1] == [1];
  }
}
