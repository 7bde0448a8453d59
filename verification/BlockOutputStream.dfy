/** core/.../nvm/nvmBlockOutputStream.scala: records through a serializer into stored blocks, with
    the accounting of blocks, records and bytes. */
module BlockStreams {
  import opened Bytes
  import opened PmemKv
  import opened OutputStreams
  import opened Options

  /** The stream with what is stored under its block id. `codec` holds the bytes of written records
      that the serializer has not yet passed on. */
  datatype Writer = Writer(out: Out, codec: seq<Byte>, blocks: seq<seq<Byte>>,
                           size: int, records: nat, recordsPerBlock: nat, recordsArray: seq<nat>, spilled: bool)

  const START: Writer := Writer(EMPTY, [], [], 0, 0, 0, [], false)

  /** The serializer passes on its first `n` bytes. */
  function Push(w: Writer, n: nat): Writer
    requires n <= |w.codec| && Fits(w.out, n)
  {
    w.(out := Put(w.out, w.codec[..n]), codec := w.codec[n..])
  }

  /** nvmOutputStream.flush. */
  function FlushOut(w: Writer): Writer
    requires w.out.Valid()
  {
    w.(out := Flushed(w.out), blocks := w.blocks + FlushedBlocks(w.out))
  }

  /** The accounting of maybeSpill, when the flushes since the last reset stored anything. */
  function Account(w: Writer): Writer {
    if w.out.flushed > 0 then
      w.(recordsArray := w.recordsArray + [w.recordsPerBlock], recordsPerBlock := 0,
         size := Wrap32(w.size + w.out.flushed), out := EMPTY, spilled := true)
    else w
  }

  predicate Due(o: Out, force: bool, throttle: int) { (throttle != -1 && o.remaining >= throttle) || force }

  /** An explicit flush of the serializer passes everything on and flushes the stream below. */
  function Drained(w: Writer): Writer
    requires w.out.Valid() && Fits(w.out, |w.codec|)
  {
    FlushOut(Push(w, |w.codec|))
  }

  function Spill(w: Writer, force: bool, throttle: int): Writer
    requires w.out.Valid() && (force ==> Fits(w.out, |w.codec|))
  {
    var w1 := if force then Drained(w) else w;
    if Due(w1.out, force, throttle) then Account(FlushOut(w1)) else w1
  }

  function Record(w: Writer, bytes: seq<Byte>): Writer { w.(codec := w.codec + bytes) }

  function Counted(w: Writer): Writer { w.(records := w.records + 1, recordsPerBlock := w.recordsPerBlock + 1) }

  lemma PushCounted(w: Writer, n: nat)
    requires n <= |w.codec| && Fits(w.out, n)
    ensures Push(Counted(w), n) == Counted(Push(w, n))
  {
  }

  // ---- runs ----

  /** Write a record, of which the serializer then passes on some bytes; or ask for a spill. */
  datatype Op = DoRecord(bytes: seq<Byte>, pushed: nat) | DoSpill(force: bool)

  /** A record has at least one byte, and the buffer is never overfilled. */
  predicate Allowed(w: Writer, op: Op) {
    match op
    case DoRecord(bytes, pushed) => bytes != [] && pushed <= |w.codec| + |bytes| && Fits(w.out, pushed)
    case DoSpill(force) => force ==> Fits(w.out, |w.codec|)
  }

  function Do(w: Writer, op: Op, throttle: int): Writer
    requires w.out.Valid() && Allowed(w, op)
  {
    match op
    case DoRecord(bytes, pushed) => Spill(Push(Counted(Record(w, bytes)), pushed), false, throttle)
    case DoSpill(force) => Spill(w, force, throttle)
  }

  function Sum(s: seq<nat>): nat {
    if s == [] then 0 else Sum(s[..|s| - 1]) + s[|s| - 1]
  }

  /** Between two calls: what is stored, what is in the buffer and what the serializer holds are the
      bytes written; and the counters say how many bytes and records that is. */
  ghost predicate Sound(w: Writer, written: seq<Byte>, n: nat) {
    && w.out.Valid() && w.out.remaining == |w.out.buffer| && w.out.flushed == 0
    && Flatten(w.blocks) + w.out.buffer + w.codec == written
    && (forall b :: b in w.blocks ==> b != [])
    && w.size == Wrap32(|Flatten(w.blocks)|)
    && w.records == n && Sum(w.recordsArray) + w.recordsPerBlock == n
    && w.recordsPerBlock <= |w.out.buffer| + |w.codec|
    && |w.recordsArray| == |w.blocks| && (w.spilled <==> w.blocks != [])
  }

  /** A flush of a sound stream stores exactly what is pending, as one block, or nothing. */
  lemma FlushKeeps(w: Writer, written: seq<Byte>, n: nat)
    requires Sound(w, written, n)
    ensures var v := FlushOut(w);
      && v.out.Valid() && v.out.remaining == 0 && v.out.flushed == |w.out.buffer|
      && Flatten(v.blocks) == Flatten(w.blocks) + w.out.buffer
      && |v.blocks| == |w.blocks| + (if w.out.buffer == [] then 0 else 1)
      && (forall b :: b in v.blocks ==> b != [])
  {
    if w.out.remaining > 0 {
      assert w.out.buffer[..w.out.remaining] == w.out.buffer;
      FlattenSnoc(w.blocks, w.out.buffer);
    } else {
      assert w.blocks + [] == w.blocks && Flatten(w.blocks) + [] == Flatten(w.blocks);
    }
  }

  lemma AccountKeeps(w: Writer, written: seq<Byte>, n: nat)
    requires Sound(w, written, n)
    ensures Sound(Account(FlushOut(w)), written, n)
    ensures Account(FlushOut(w)).out.buffer == [] && Account(FlushOut(w)).codec == w.codec
  {
    FlushKeeps(w, written, n);
    var v := Account(FlushOut(w));
    WrapTwice(|Flatten(w.blocks)|, |w.out.buffer|);
    assert v.recordsArray != w.recordsArray ==> v.recordsArray[..|w.recordsArray|] == w.recordsArray;
    assert Flatten(w.blocks) + w.out.buffer + [] + w.codec == written;
  }

  lemma SplitAgain(f: seq<Byte>, o: seq<Byte>, c: seq<Byte>, k: nat)
    requires k <= |c|
    ensures f + (o + c[..k]) + c[k..] == f + o + c
  {
  }

  /** Passing bytes on changes nothing written. */
  lemma PushKeeps(w: Writer, written: seq<Byte>, n: nat, k: nat)
    requires Sound(w, written, n) && k <= |w.codec| && Fits(w.out, k)
    ensures Sound(Push(w, k), written, n)
  {
    hide Flatten, Sum, Wrap32;
    SplitAgain(Flatten(w.blocks), w.out.buffer, w.codec, k);
  }

  /** After the flush inside the serializer's flush, the one behind it finds nothing more to store. */
  lemma SecondFlushIdle(w: Writer)
    requires w.out.Valid()
    ensures FlushOut(FlushOut(w)) == FlushOut(w)
  {
    assert FlushOut(w).out.remaining == 0;
    assert FlushOut(w).blocks + [] == FlushOut(w).blocks;
  }

  lemma SpillKeeps(w: Writer, force: bool, throttle: int, written: seq<Byte>, n: nat)
    requires Sound(w, written, n) && (force ==> Fits(w.out, |w.codec|))
    ensures Sound(Spill(w, force, throttle), written, n)
    ensures force ==> Spill(w, force, throttle).out.buffer == [] && Spill(w, force, throttle).codec == []
  {
    if force {
      PushKeeps(w, written, n, |w.codec|);
      SecondFlushIdle(Push(w, |w.codec|));
      AccountKeeps(Push(w, |w.codec|), written, n);
    } else if Due(w.out, force, throttle) {
      AccountKeeps(w, written, n);
    }
  }

  lemma RecordKeeps(w: Writer, bytes: seq<Byte>, written: seq<Byte>, n: nat)
    requires Sound(w, written, n) && bytes != []
    ensures Sound(Counted(Record(w, bytes)), written + bytes, n + 1)
  {
    var f, o, c := Flatten(w.blocks), w.out.buffer, w.codec;
    assert f + o + (c + bytes) == f + o + c + bytes;
  }

  function BytesOf(op: Op): seq<Byte> { if op.DoRecord? then op.bytes else [] }
  function RecordsOf(op: Op): nat { if op.DoRecord? then 1 else 0 }

  /** Every step keeps the stream sound. */
  lemma StepKeeps(w: Writer, op: Op, throttle: int, written: seq<Byte>, n: nat)
    requires Sound(w, written, n) && Allowed(w, op)
    ensures Sound(Do(w, op, throttle), written + BytesOf(op), n + RecordsOf(op))
  {
    match op {
      case DoRecord(bytes, pushed) =>
        RecordKeeps(w, bytes, written, n);
        PushKeeps(Counted(Record(w, bytes)), written + bytes, n + 1, pushed);
        SpillKeeps(Push(Counted(Record(w, bytes)), pushed), false, throttle, written + bytes, n + 1);
      case DoSpill(force) =>
        assert written + [] == written;
        SpillKeeps(w, force, throttle, written, n);
    }
  }

  lemma DoValid(w: Writer, op: Op, throttle: int)
    requires w.out.Valid() && Allowed(w, op)
    ensures Do(w, op, throttle).out.Valid()
  {
  }

  predicate AllowedRun(w: Writer, ops: seq<Op>, throttle: int)
    requires w.out.Valid()
    decreases |ops|
  {
    ops == [] || (
      && Allowed(w, ops[0])
      && (DoValid(w, ops[0], throttle); AllowedRun(Do(w, ops[0], throttle), ops[1..], throttle)))
  }

  function Run(w: Writer, ops: seq<Op>, throttle: int): Writer
    requires w.out.Valid() && AllowedRun(w, ops, throttle)
    decreases |ops|
  {
    if ops == [] then w else DoValid(w, ops[0], throttle); Run(Do(w, ops[0], throttle), ops[1..], throttle)
  }

  function Written(ops: seq<Op>): seq<Byte> { if ops == [] then [] else BytesOf(ops[0]) + Written(ops[1..]) }
  function Records(ops: seq<Op>): nat { if ops == [] then 0 else RecordsOf(ops[0]) + Records(ops[1..]) }

  lemma Written0(written: seq<Byte>)
    ensures written + Written([]) == written && [] + written == written
  {
  }

  /** So does every run. */
  lemma {:induction false} RunKeeps(w: Writer, ops: seq<Op>, throttle: int, written: seq<Byte>, n: nat)
    requires Sound(w, written, n) && w.out.Valid() && AllowedRun(w, ops, throttle)
    ensures Run(w, ops, throttle).out.Valid()
    ensures Sound(Run(w, ops, throttle), written + Written(ops), n + Records(ops))
    decreases |ops|
  {
    hide Sound, Do, Allowed, BytesOf, RecordsOf;
    if ops == [] {
      Written0(written);
    } else {
      var op, v := ops[0], Do(w, ops[0], throttle);
      StepKeeps(w, op, throttle, written, n);
      DoValid(w, op, throttle);
      RunKeeps(v, ops[1..], throttle, written + BytesOf(op), n + RecordsOf(op));
      ConcatAssociates(written, BytesOf(op), Written(ops[1..]));
    }
  }

  /** A run on a fresh block id that ends in a forced spill: the stored blocks are the bytes written,
      none of them empty; every record is accounted to one of the blocks; and the Int size is the
      number of bytes exactly while that fits. */
  lemma ForcedSpillStoresAll(ops: seq<Op>, throttle: int)
    requires AllowedRun(START, ops, throttle) && Allowed(Run(START, ops, throttle), DoSpill(true))
    ensures Run(START, ops, throttle).out.Valid()
    ensures var end := Do(Run(START, ops, throttle), DoSpill(true), throttle);
      && Flatten(end.blocks) == Written(ops) && end.out == EMPTY && end.codec == []
      && (forall b :: b in end.blocks ==> b != [])
      && end.records == Sum(end.recordsArray) == Records(ops)
      && |end.recordsArray| == |end.blocks|
      && (end.size == |Written(ops)| <==> |Written(ops)| < 0x8000_0000)
  {
    hide Sound, Flatten, Sum, Allowed, AllowedRun, Run, Written, Records, Do;
    StartSound();
    RunKeeps(START, ops, throttle, [], 0);
    Written0(Written(ops));
    Finish(Run(START, ops, throttle), throttle, Written(ops), Records(ops));
  }

  lemma Finish(w: Writer, throttle: int, written: seq<Byte>, n: nat)
    requires Sound(w, written, n) && Allowed(w, DoSpill(true))
    ensures var end := Do(w, DoSpill(true), throttle);
      && Flatten(end.blocks) == written && end.out == EMPTY && end.codec == []
      && (forall b :: b in end.blocks ==> b != [])
      && end.records == Sum(end.recordsArray) == n && |end.recordsArray| == |end.blocks|
      && (end.size == |written| <==> |written| < 0x8000_0000)
  {
    assert Do(w, DoSpill(true), throttle) == Spill(w, true, throttle);
    hide Sound, Spill, Do, Flatten, Sum, Wrap32;
    SpillKeeps(w, true, throttle, written, n);
    NothingHeld(Spill(w, true, throttle), written, n);
  }

  lemma NothingHeld(w: Writer, written: seq<Byte>, n: nat)
    requires Sound(w, written, n) && w.out.buffer == [] && w.codec == []
    ensures Flatten(w.blocks) == written && w.out == EMPTY && (forall b :: b in w.blocks ==> b != [])
    ensures w.records == Sum(w.recordsArray) == n && |w.recordsArray| == |w.blocks|
    ensures w.size == |written| <==> |written| < 0x8000_0000
  {
    hide Flatten, Sum;
    assert Flatten(w.blocks) + w.out.buffer + w.codec == Flatten(w.blocks);
  }

  lemma StartSound()
    ensures Sound(START, [], 0)
  {
    assert Flatten(START.blocks) + START.out.buffer + START.codec == [];
  }

  /** Each block's address and length with the records accounted to it. */
  function WithRecords(info: seq<(nat, nat)>, counts: seq<nat>): (r: seq<(nat, nat, nat)>)
    requires |info| <= |counts|
    ensures |r| == |info| && forall i :: 0 <= i < |r| ==> r[i] == (info[i].0, info[i].1, counts[i])
  {
    if info == [] then [] else [(info[0].0, info[0].1, counts[0])] + WithRecords(info[1..], counts[1..])
  }

  /** Entry i tells the address of a buffer that is block i, its length, and the records counted for it. */
  predicate Describes(meta: seq<(nat, nat, nat)>, buffers: map<nat, seq<Byte>>, blocks: seq<seq<Byte>>,
                      counts: seq<nat>)
  {
    && |meta| == |blocks| <= |counts|
    && forall i :: 0 <= i < |meta| ==>
      && meta[i].0 in buffers && buffers[meta[i].0] == blocks[i]
      && meta[i].1 == |blocks[i]| && meta[i].2 == counts[i]
  }

  // ---- the object ----

  /** `O` stands for the objects the serializer takes, a key and a value for each record. */
  class BlockOutputStream<O> {
    const out: OutputStream
    const encode: O -> seq<Byte>
    const throttle: int
    var codec: seq<Byte>
    var size: int
    var records: nat
    var recordsPerBlock: nat
    var recordsArray: seq<nat>
    var spilled: bool
    var partitionMeta: Option<seq<(nat, nat, nat)>>

    ghost predicate Valid()
      reads this, out
    {
      out.Valid()
    }

    ghost function State(): (w: Writer)
      requires Valid()
      reads this, out, out.byteBuffer, out.kv, out.kv.dev
      ensures w.out.Valid()
    {
      Writer(out.State(), codec, out.Blocks(), size, records, recordsPerBlock, recordsArray, spilled)
    }

    constructor (out: OutputStream, encode: O -> seq<Byte>, throttle: int)
      requires out.Valid() && out.State() == EMPTY && out.Blocks() == []
      ensures Valid() && State() == START && partitionMeta == None
      ensures this.out == out && this.encode == encode && this.throttle == throttle
    {
      this.out, this.encode, this.throttle := out, encode, throttle;
      codec, size, records, recordsPerBlock, recordsArray, spilled := [], 0, 0, 0, [], false;
      partitionMeta := None;
    }

    /** The serializer passes on what it holds, or the first bytes of it; put refuses what does not
        fit, and then nothing has changed. In this and the methods below, not ok is its exception. */
    method Pass(n: nat) returns (ok: bool)
      requires Valid() && n <= |codec|
      modifies `codec, out, out.byteBuffer
      ensures Valid() && ok == Fits(old(State()).out, n)
      ensures State() == if ok then Push(old(State()), n) else old(State())
    {
      ok := out.Write(codec[..n]);
      if ok {
        codec := codec[n..];
      }
    }

    method FlushBuffer()
      requires Valid() && out.kv.Valid()
      modifies out, out.kv, out.kv.dev, out.kv.index
      ensures Valid() && out.kv.Valid() && State() == FlushOut(old(State()))
      ensures forall k: nat :: k != out.kv.hash(out.blockId) ==> Stored(out.kv.Log(), k) == Stored(old(out.kv.Log()), k)
    {
      hide Kv.Valid;
      out.Flush();
    }

    /** flush: the serializer's, which flushes the stream below as well. */
    method Flush() returns (ok: bool)
      requires Valid() && out.kv.Valid()
      modifies this, out, out.byteBuffer, out.kv, out.kv.dev, out.kv.index
      ensures Valid() && out.kv.Valid() && ok == Fits(old(State()).out, |old(codec)|)
      ensures State() == if ok then Drained(old(State())) else old(State())
      ensures forall k: nat :: k != out.kv.hash(out.blockId) ==> Stored(out.kv.Log(), k) == Stored(old(out.kv.Log()), k)
    {
      hide Kv.Valid, Kv.Log, Stored;
      ok := Pass(|codec|);
      if ok {
        FlushBuffer();
      }
    }

    method SpillBuffer()
      requires Valid() && out.kv.Valid()
      modifies this, out, out.byteBuffer, out.kv, out.kv.dev, out.kv.index
      ensures Valid() && out.kv.Valid() && State() == Account(FlushOut(old(State())))
      ensures forall k: nat :: k != out.kv.hash(out.blockId) ==> Stored(out.kv.Log(), k) == Stored(old(out.kv.Log()), k)
    {
      hide Kv.Valid, Kv.Log, Stored;
      FlushBuffer();
      var bufSize := out.bufferFlushedSize;
      if bufSize > 0 {
        recordsArray := recordsArray + [recordsPerBlock];
        recordsPerBlock := 0;
        size := Wrap32(size + bufSize);
        out.Reset();
        spilled := true;
      }
    }

    method MaybeSpill(force: bool) returns (ok: bool)
      requires Valid() && out.kv.Valid()
      modifies this, out, out.byteBuffer, out.kv, out.kv.dev, out.kv.index
      ensures Valid() && out.kv.Valid() && ok == Allowed(old(State()), DoSpill(force))
      ensures State() == if ok then Spill(old(State()), force, throttle) else old(State())
      ensures forall k: nat :: k != out.kv.hash(out.blockId) ==> Stored(out.kv.Log(), k) == Stored(old(out.kv.Log()), k)
    {
      hide Kv.Valid, Kv.Log, Stored;
      ok := true;
      if force {
        ok := Flush();
        if !ok {
          return;
        }
      }
      hide FlushOut, Account, Push;
      if (throttle != -1 && out.bufferRemainingSize >= throttle) || force {
        SpillBuffer();
      }
    }

    /** write: `pushed` bytes are what the serializer passes on of its own accord meanwhile. */
    method Write(key: O, value: O, pushed: nat) returns (ok: bool)
      requires Valid() && out.kv.Valid()
      requires encode(key) + encode(value) != [] && pushed <= |codec| + |encode(key) + encode(value)|
      modifies this, out, out.byteBuffer, out.kv, out.kv.dev, out.kv.index
      ensures Valid() && out.kv.Valid() && ok == Fits(old(State()).out, pushed)
      ensures State() ==
        if ok then Do(old(State()), DoRecord(encode(key) + encode(value), pushed), throttle)
        else Record(old(State()), encode(key) + encode(value))
      ensures forall k: nat :: k != out.kv.hash(out.blockId) ==> Stored(out.kv.Log(), k) == Stored(old(out.kv.Log()), k)
    {
      hide Kv.Valid, Kv.Log, Stored, Spill, Push, Put, OutputStream.State;
      codec := codec + (encode(key) + encode(value));
      ghost var w := State();
      ok := Pass(pushed);
      if ok {
        PushCounted(w, pushed);
        records := records + 1;
        recordsPerBlock := recordsPerBlock + 1;
        var spilled := MaybeSpill(false);
      }
    }

    /** close: what is pending in the buffer is stored, and not accounted. */
    method Close()
      requires Valid() && out.kv.Valid()
      modifies out, out.kv, out.kv.dev, out.kv.index
      ensures Valid() && out.kv.Valid()
      ensures old(out.isClosed) ==> State() == old(State())
      ensures !old(out.isClosed) ==> State() == FlushOut(old(State())).(out := EMPTY)
      ensures forall k: nat :: k != out.kv.hash(out.blockId) ==> Stored(out.kv.Log(), k) == Stored(old(out.kv.Log()), k)
    {
      hide Kv.Valid;
      out.Close();
    }

    /** getPartitionMeta: where each stored block is, how long it is and how many records it was
        accounted; computed once, so blocks stored after the first call are not in it. None is where
        recordsArray has no entry for a block, and indexing it throws. */
    method GetPartitionMeta() returns (r: Option<seq<(nat, nat, nat)>>)
      requires Valid() && out.kv.Valid()
      modifies `partitionMeta
      ensures partitionMeta == r && (old(partitionMeta).Some? ==> r == old(partitionMeta))
      ensures old(partitionMeta) == None ==> (r.Some? <==> |out.Blocks()| <= |recordsArray|)
      ensures old(partitionMeta) == None && r.Some? ==>
        Describes(r.value, out.kv.dev.mem.buffers, out.Blocks(), recordsArray)
    {
      hide Kv.Valid;
      if partitionMeta == None {
        var rc, info, length := out.kv.GetMeta(out.blockId, 0);
        if |info| <= |recordsArray| {
          partitionMeta := Some(WithRecords(info, recordsArray));
        }
      }
      r := partitionMeta;
    }
  }
}
