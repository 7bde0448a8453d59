/** native/src/PmemBuffer.h: a byte buffer with a read cursor and a flush cursor. */
module PmemBuffers {
  import opened Bytes

  const DEFAULT_BUFSIZE: nat := 4096 * 1024 + 512

  /** The fields of the C++ object. `live` is buf_data[..pos + remaining], the bytes ever defined. */
  datatype Buf = Buf(capacity: nat, live: seq<Byte>, pos: nat, posDirty: nat, remainingDirty: int) {
    predicate Valid() { pos <= |live| <= capacity <= INT_MAX }
    function Remaining(): nat requires Valid() { |live| - pos }
    /** What a reader still has to see. */
    function Contents(): seq<Byte> requires Valid() { live[pos..] }
    /** The flush cursor stands between the read cursor and the end, and remaining_dirty counts from it. */
    predicate Tracked() { pos <= posDirty && posDirty + remainingDirty == |live| && remainingDirty >= 0 }
    /** What a flush has not yet been given. */
    function Unflushed(): seq<Byte> requires Tracked() { live[posDirty..] }
  }

  function Empty(): Buf { Buf(0, [], 0, 0, 0) }

  // ---- the five operations on values ----

  /** The buffer a load copies into; with room for both parts it is the one at hand. */
  function LoadCapacity(b: Buf, len: nat): nat
    requires b.Valid()
  {
    var cap := if b.capacity == 0 then len else b.capacity;
    if cap < b.Remaining() + len then b.Remaining() + len else cap
  }

  /** What stands before the loaded bytes: the contents when they were moved, else the first
      `remaining` bytes of the buffer, wherever the read cursor stands. */
  function Kept(b: Buf, len: nat): seq<Byte>
    requires b.Valid()
  {
    if b.capacity < b.Remaining() + len then b.Contents() else b.live[..b.Remaining()]
  }

  function AfterLoad(b: Buf, data: seq<Byte>): Buf
    requires b.Valid()
  {
    if data == [] then b
    else Buf(LoadCapacity(b, |data|), Kept(b, |data|) + data, 0, b.Remaining() + |data|, 0)
  }

  lemma RoomForLoad(b: Buf, len: nat)
    requires b.Valid() && b.Remaining() + len <= INT_MAX
    ensures |Kept(b, len)| == b.Remaining() && b.Remaining() + len <= LoadCapacity(b, len) <= INT_MAX
  {
  }

  predicate LoadFits(b: Buf, data: seq<Byte>) requires b.Valid() { b.Remaining() + |data| <= INT_MAX }

  /** The capacity a write starts from: an unallocated buffer is given the default size. */
  function Allocated(b: Buf): nat { if b.capacity == 0 then DEFAULT_BUFSIZE else b.capacity }

  /** A write moves the contents to the front when they would run over the end. */
  predicate Moves(b: Buf, len: nat) { |b.live| + len > Allocated(b) }

  /** The buffer grows by at most one step, which has to be enough. */
  predicate WriteFits(b: Buf, len: nat)
    requires b.Valid()
  {
    && |b.live| + len <= INT_MAX
    && (b.Remaining() + len > Allocated(b) ==> b.Remaining() + len <= Allocated(b) + DEFAULT_BUFSIZE <= INT_MAX)
  }

  /** The buffer with room for `len` more bytes behind its contents. */
  function WithRoom(b: Buf, len: nat): Buf
    requires b.Valid()
  {
    var cap := Allocated(b);
    if Moves(b, len) then
      Buf(if b.Remaining() + len > cap then cap + DEFAULT_BUFSIZE else cap, b.Contents(), 0, 0, b.remainingDirty)
    else b.(capacity := cap)
  }

  function AfterWrite(b: Buf, data: seq<Byte>): Buf
    requires b.Valid() && WriteFits(b, |data|)
  {
    var r := WithRoom(b, |data|);
    r.(live := r.live + data, remainingDirty := r.remainingDirty + |data|)
  }

  function AfterRead(b: Buf, len: nat): Buf
    requires b.Valid()
  {
    var p := b.pos + Min(len, b.Remaining());
    if p > b.posDirty then b.(pos := p, posDirty := p, remainingDirty := b.remainingDirty - (p - b.posDirty))
    else b.(pos := p)
  }

  /** getDataForFlush refuses a request for more than it has, and any when it has nothing. */
  predicate Flushes(b: Buf, size: nat) { size <= b.remainingDirty && b.remainingDirty != 0 }

  function AfterFlush(b: Buf, size: nat): Buf {
    if Flushes(b, size) then b.(posDirty := b.posDirty + size, remainingDirty := b.remainingDirty - size) else b
  }

  // ---- what each operation means ----

  lemma WriteAppends(b: Buf, data: seq<Byte>)
    requires b.Valid() && WriteFits(b, |data|)
    ensures AfterWrite(b, data).Valid() && AfterWrite(b, data).Contents() == b.Contents() + data
  {
  }

  // ---- when the copies stay inside the allocation ----

  /** What an operation finds allocated when it copies its bytes behind the unread ones, and where those
      then start. */
  datatype Room = Room(size: nat, pos: nat) {
    predicate Holds(n: nat) { pos + n <= size }
  }

  /** The room a write makes, in ints that wrap around: a sum that has become negative asks for none,
      and a capacity that has is not allocated. */
  function WriteRoom(b: Buf, len: nat): Room
    requires b.Valid()
  {
    var cap := Allocated(b);
    var grown := if Wrap32(b.Remaining() + len) > cap then Wrap32(cap + DEFAULT_BUFSIZE) else cap;
    if Wrap32(|b.live| + len) > cap && grown > 0 then Room(grown, 0) else Room(cap, b.pos)
  }

  /** A write stays inside the allocation exactly when its sums fit an int and one growth step, which
      fits one too, is enough; and then the room is that of the numbers without bound. */
  lemma WriteIsSafeIff(b: Buf, len: nat)
    requires b.Valid() && len <= INT_MAX
    ensures WriteRoom(b, len).Holds(b.Remaining() + len) <==> (
      && |b.live| + len <= INT_MAX
      && (b.Remaining() + len > Allocated(b) ==> b.Remaining() + len <= Allocated(b) + DEFAULT_BUFSIZE <= INT_MAX))
    ensures WriteFits(b, len) ==> WriteRoom(b, len) == Room(WithRoom(b, len).capacity, WithRoom(b, len).pos)
  {
    hide Wrap32;
  }

  /** Two growth steps' worth of bytes, written to a buffer that was never allocated, run past it. */
  lemma WriteOverruns()
    ensures !WriteRoom(Empty(), 2 * DEFAULT_BUFSIZE + 1).Holds(2 * DEFAULT_BUFSIZE + 1)
  {
  }

  /** 50 bytes behind 2^31 - 101 unread ones: the grown capacity is negative, and nothing is allocated. */
  lemma WriteOutgrowsInt(b: Buf)
    requires Counts(b, INT_MAX - 100, INT_MAX - 100, 0)
    ensures b.Remaining() + 50 <= Allocated(b) + DEFAULT_BUFSIZE && !WriteRoom(b, 50).Holds(b.Remaining() + 50)
  {
  }

  /** One byte behind a single unread one at the end of the largest buffer: their end is negative, and
      nothing moves. */
  lemma WriteWrapsEnd(b: Buf)
    requires Counts(b, INT_MAX, INT_MAX, INT_MAX - 1)
    ensures b.Remaining() + 1 <= Allocated(b) && !WriteRoom(b, 1).Holds(b.Remaining() + 1)
  {
  }

  /** The room a load makes, likewise. */
  function LoadingRoom(b: Buf, len: nat): Room
    requires b.Valid()
  {
    var cap := if b.capacity == 0 then len else b.capacity;
    if b.Remaining() == 0 then Room(if cap < len then len else cap, 0)
    else Room(if cap < Wrap32(b.Remaining() + len) then Wrap32(b.Remaining() + len) else cap, 0)
  }

  /** A load stays inside the allocation exactly when the unread bytes and the new ones fit an int
      together; and then the room is that of the numbers without bound. */
  lemma LoadIsSafeIff(b: Buf, len: nat)
    requires b.Valid() && 0 < len <= INT_MAX
    ensures LoadingRoom(b, len).Holds(b.Remaining() + len) <==> b.Remaining() + len <= INT_MAX
    ensures b.Remaining() + len <= INT_MAX ==> LoadingRoom(b, len).size == LoadCapacity(b, len)
  {
    hide Wrap32;
  }

  /** One unread byte, and as many loaded as an int counts. */
  lemma LoadOverruns()
    ensures Buf(1, [7], 0, 1, 0).Valid() && !LoadingRoom(Buf(1, [7], 0, 1, 0), INT_MAX).Holds(1 + INT_MAX)
  {
  }

  lemma ReadTakes(b: Buf, len: nat)
    requires b.Valid()
    ensures AfterRead(b, len).Valid()
    ensures b.Contents() == b.Contents()[..Min(len, b.Remaining())] + AfterRead(b, len).Contents()
  {
  }

  predicate LoadAppends(b: Buf, data: seq<Byte>)
    requires b.Valid() && LoadFits(b, data)
  {
    AfterLoad(b, data).Valid() && AfterLoad(b, data).Contents() == b.Contents() + data
  }

  lemma LoadAppendsWhen(b: Buf, data: seq<Byte>)
    requires b.Valid() && LoadFits(b, data)
    requires data == [] || b.capacity < b.Remaining() + |data| || b.pos == 0 || b.Remaining() == 0
    ensures LoadAppends(b, data)
  {
    assert b.Contents() + [] == b.Contents();
    if b.pos == 0 || b.Remaining() == 0 {
      assert b.live[..b.Remaining()] == b.Contents();
    }
  }

  /** The counters of a buffer, whatever its bytes are. */
  predicate Counts(b: Buf, capacity: nat, end: nat, pos: nat) {
    b.Valid() && b.capacity == capacity && |b.live| == end && b.pos == pos
  }

  /** A load appends, whatever the bytes are, exactly when it loads nothing, has to grow the buffer,
      finds the read cursor at the front, or finds nothing unread. */
  lemma LoadAppendsIff(capacity: nat, end: nat, pos: nat, data: seq<Byte>)
    requires pos <= end <= capacity <= INT_MAX && end - pos + |data| <= INT_MAX
    ensures (forall b: Buf :: Counts(b, capacity, end, pos) ==> LoadAppends(b, data))
      <==> data == [] || capacity < end - pos + |data| || pos == 0 || pos == end
  {
    if data == [] || capacity < end - pos + |data| || pos == 0 || pos == end {
      forall b: Buf | Counts(b, capacity, end, pos) ensures LoadAppends(b, data) {
        LoadAppendsWhen(b, data);
      }
    } else {
      var b := Buf(capacity, [1] + seq(end - 1, _ => 0), pos, 0, 0);
      assert Counts(b, capacity, end, pos);
      assert AfterLoad(b, data).Contents()[0] == 1 && (b.Contents() + data)[0] == 0;
    }
  }

  /** Two bytes loaded, one read, one more loaded: the reader sees the first byte again. */
  lemma LoadRepeats()
    ensures var b := AfterLoad(AfterRead(AfterLoad(Buf(4, [], 0, 0, 0), [1, 2]), 1), [3]);
      b.Valid() && b.Contents() == [1, 3]
  {
  }

  lemma LoadTracks(b: Buf, data: seq<Byte>)
    requires b.Valid() && b.Tracked() && LoadFits(b, data)
    ensures AfterLoad(b, data).Tracked() && (data != [] ==> AfterLoad(b, data).Unflushed() == [])
  {
  }

  /** A write keeps the flush cursor right exactly when it does not move the contents under a flush
      cursor that is ahead of the read cursor. */
  lemma WriteTracksIff(b: Buf, data: seq<Byte>)
    requires b.Valid() && b.Tracked() && WriteFits(b, |data|)
    ensures AfterWrite(b, data).Tracked() <==> (Moves(b, |data|) ==> b.posDirty == b.pos)
    ensures AfterWrite(b, data).Tracked() ==> AfterWrite(b, data).Unflushed() == b.Unflushed() + data
  {
  }

  /** One byte written and flushed, then one more that moves the contents: the next flush hands out
      the first byte again. */
  lemma FlushRepeats()
    ensures WriteFits(Buf(1, [], 0, 0, 0), 1)
    ensures AfterFlush(AfterWrite(Buf(1, [], 0, 0, 0), [1]), 1) == Buf(1, [1], 0, 1, 0)
    ensures WriteFits(Buf(1, [1], 0, 1, 0), 1)
    ensures AfterWrite(Buf(1, [1], 0, 1, 0), [2]) == Buf(1 + DEFAULT_BUFSIZE, [1, 2], 0, 0, 1)
    ensures Flushes(Buf(1 + DEFAULT_BUFSIZE, [1, 2], 0, 0, 1), 1)
  {
  }

  lemma ReadTracks(b: Buf, len: nat)
    requires b.Valid() && b.Tracked()
    ensures AfterRead(b, len).Tracked()
    ensures |AfterRead(b, len).Unflushed()| <= |b.Unflushed()|
    ensures AfterRead(b, len).Unflushed() == b.Unflushed()[|b.Unflushed()| - |AfterRead(b, len).Unflushed()|..]
  {
  }

  lemma FlushTracks(b: Buf, size: nat)
    requires b.Valid() && b.Tracked() && Flushes(b, size)
    ensures AfterFlush(b, size).Valid() && AfterFlush(b, size).Tracked()
    ensures b.Unflushed() == b.live[b.posDirty..b.posDirty + size] + AfterFlush(b, size).Unflushed()
  {
  }

  /** A request is granted exactly when something is unflushed and no more than that is asked for; then
      it is given the front of it, and the next request starts behind. */
  lemma FlushGrantedIff(b: Buf, size: nat)
    requires b.Valid() && b.Tracked()
    ensures Flushes(b, size) <==> b.Unflushed() != [] && size <= |b.Unflushed()|
    ensures Flushes(b, size) ==>
      b.live[b.posDirty..b.posDirty + size] == b.Unflushed()[..size] &&
      AfterFlush(b, size).Tracked() && AfterFlush(b, size).Unflushed() == b.Unflushed()[size..]
    ensures !Flushes(b, size) ==> AfterFlush(b, size) == b
  {
  }

  // ---- runs ----

  datatype Op = DoWrite(data: seq<Byte>) | DoLoad(data: seq<Byte>) | DoRead(len: nat) | DoFlush(size: nat) | DoClean

  /** The conditions under which the operations are a queue with a flush cursor. */
  predicate Allowed(b: Buf, op: Op)
    requires b.Valid()
  {
    match op
    case DoWrite(data) => WriteFits(b, |data|)
    case DoLoad(data) => LoadFits(b, data) && (b.Remaining() == 0 || b.pos == 0 || b.capacity < b.Remaining() + |data|)
    case _ => true
  }

  function Do(b: Buf, op: Op): Buf
    requires b.Valid() && Allowed(b, op)
  {
    match op
    case DoWrite(data) => AfterWrite(b, data)
    case DoLoad(data) => AfterLoad(b, data)
    case DoRead(len) => AfterRead(b, len)
    case DoFlush(size) => AfterFlush(b, size)
    case DoClean => Empty()
  }

  predicate AllowedRun(b: Buf, ops: seq<Op>)
    requires b.Valid()
    decreases |ops|
  {
    ops == [] || (Allowed(b, ops[0]) && (DoKeepsValid(b, ops[0]); AllowedRun(Do(b, ops[0]), ops[1..])))
  }

  function Run(b: Buf, ops: seq<Op>): Buf
    requires b.Valid() && AllowedRun(b, ops)
    decreases |ops|
  {
    if ops == [] then b else Run(Do(b, ops[0]), ops[1..])
  }

  /** The bytes the reads of a run return. */
  function ReadOut(b: Buf, ops: seq<Op>): seq<Byte>
    requires b.Valid() && AllowedRun(b, ops)
    decreases |ops|
  {
    if ops == [] then []
    else (if ops[0].DoRead? then b.Contents()[..Min(ops[0].len, b.Remaining())] else [])
         + ReadOut(Do(b, ops[0]), ops[1..])
  }

  /** The same run on a plain queue: append, take a prefix, clear. */
  function QueueRun(q: seq<Byte>, ops: seq<Op>): (r: (seq<Byte>, seq<Byte>))
    decreases |ops|
  {
    if ops == [] then (q, [])
    else match ops[0]
      case DoWrite(data) => QueueRun(q + data, ops[1..])
      case DoLoad(data) => QueueRun(q + data, ops[1..])
      case DoRead(len) =>
        var n := Min(len, |q|);
        var rest := QueueRun(q[n..], ops[1..]);
        (rest.0, q[..n] + rest.1)
      case DoFlush(size) => QueueRun(q, ops[1..])
      case DoClean => QueueRun([], ops[1..])
  }

  lemma DoKeepsValid(b: Buf, op: Op)
    requires b.Valid() && Allowed(b, op)
    ensures Do(b, op).Valid()
  {
  }

  /** PmemBuffer is a FIFO queue: any allowed run reads what the queue reads and leaves what it leaves. */
  lemma {:induction false} RefinesQueue(b: Buf, ops: seq<Op>)
    requires b.Valid() && AllowedRun(b, ops)
    ensures Run(b, ops).Valid()
    ensures QueueRun(b.Contents(), ops) == (Run(b, ops).Contents(), ReadOut(b, ops))
    decreases |ops|
  {
    if ops != [] {
      match ops[0] {
        case DoWrite(data) => WriteAppends(b, data);
        case DoLoad(data) =>
          LoadAppendsWhen(b, data);
        case DoRead(len) =>
          ReadTakes(b, len);
          assert AfterRead(b, len).Contents() == b.Contents()[Min(len, b.Remaining())..];
        case DoFlush(size) => assert AfterFlush(b, size).Contents() == b.Contents();
        case DoClean => assert Empty().Contents() == [];
      }
      RefinesQueue(Do(b, ops[0]), ops[1..]);
      assert [] + ReadOut(Do(b, ops[0]), ops[1..]) == ReadOut(Do(b, ops[0]), ops[1..]);
    }
  }

  /** One flush: where in the stream of all bytes ever entered it starts, and what it returned. */
  datatype Slice = Slice(at: nat, bytes: seq<Byte>)

  predicate TrackedRun(b: Buf, ops: seq<Op>)
    requires b.Valid() && AllowedRun(b, ops)
    decreases |ops|
  {
    ops == [] || (
      && (ops[0].DoWrite? && Moves(b, |ops[0].data|) ==> b.posDirty == b.pos)
      && TrackedRun(Do(b, ops[0]), ops[1..]))
  }

  /** The stream of all bytes ever entered, after one more operation. */
  function Enter(entered: seq<Byte>, op: Op): seq<Byte> {
    if op.DoWrite? || op.DoLoad? then entered + op.data else entered
  }

  function Stream(entered: seq<Byte>, ops: seq<Op>): (r: seq<Byte>)
    ensures |entered| <= |r| && r[..|entered|] == entered
    decreases |ops|
  {
    if ops == [] then entered
    else
      var r := Stream(Enter(entered, ops[0]), ops[1..]);
      assert entered == r[..|Enter(entered, ops[0])|][..|entered|];
      r
  }

  /** The slice an operation returns; a flush stands remaining_dirty bytes before the end of the stream. */
  function Given(b: Buf, end: nat, op: Op): seq<Slice>
    requires b.Valid() && b.Tracked() && b.remainingDirty <= end
  {
    if op.DoFlush? && Flushes(b, op.size)
    then [Slice(end - b.remainingDirty, b.live[b.posDirty..b.posDirty + op.size])] else []
  }

  /** The slices a run's flushes return. */
  function Slices(b: Buf, entered: seq<Byte>, ops: seq<Op>): seq<Slice>
    requires b.Valid() && AllowedRun(b, ops) && TrackedRun(b, ops)
    requires b.Tracked() && b.remainingDirty <= |entered|
    decreases |ops|
  {
    if ops == [] then []
    else
      StepTracks(b, ops[0]);
      Given(b, |entered|, ops[0]) + Slices(Do(b, ops[0]), Enter(entered, ops[0]), ops[1..])
  }

  lemma StepTracks(b: Buf, op: Op)
    requires b.Valid() && Allowed(b, op) && b.Tracked()
    requires op.DoWrite? && Moves(b, |op.data|) ==> b.posDirty == b.pos
    ensures Do(b, op).Tracked()
    ensures Do(b, op).remainingDirty <= b.remainingDirty + if op.DoWrite? || op.DoLoad? then |op.data| else 0
  {
    match op {
      case DoWrite(data) => WriteTracksIff(b, data);
      case DoLoad(data) => LoadTracks(b, data);
      case DoRead(len) => ReadTracks(b, len);
      case DoFlush(size) => if Flushes(b, size) { FlushTracks(b, size); }
      case DoClean =>
    }
  }

  predicate InOrder(slices: seq<Slice>, from: nat) {
    slices == [] || (from <= slices[0].at && InOrder(slices[1..], slices[0].at + |slices[0].bytes|))
  }

  lemma {:induction false} InOrderFrom(slices: seq<Slice>, from: nat, lower: nat)
    requires InOrder(slices, from) && lower <= from
    ensures InOrder(slices, lower)
  {
    assert slices == [] || lower <= slices[0].at;
  }

  predicate Stretches(slices: seq<Slice>, stream: seq<Byte>) {
    slices == [] || (
      && slices[0].at + |slices[0].bytes| <= |stream|
      && slices[0].bytes == stream[slices[0].at..slices[0].at + |slices[0].bytes|]
      && Stretches(slices[1..], stream))
  }

  predicate Suffix(tail: seq<Byte>, s: seq<Byte>) { |tail| <= |s| && s[|s| - |tail|..] == tail }

  lemma SuffixGrows(tail: seq<Byte>, s: seq<Byte>, more: seq<Byte>)
    requires Suffix(tail, s)
    ensures Suffix(tail + more, s + more)
  {
  }

  lemma SuffixShrinks(tail: seq<Byte>, s: seq<Byte>, k: nat)
    requires Suffix(tail, s) && k <= |tail|
    ensures Suffix(tail[k..], s)
  {
  }

  lemma StepStaysAt(b: Buf, entered: seq<Byte>, op: Op)
    requires b.Valid() && Allowed(b, op) && b.Tracked() && Suffix(b.Unflushed(), entered)
    requires op.DoWrite? && Moves(b, |op.data|) ==> b.posDirty == b.pos
    ensures Do(b, op).Valid() && Do(b, op).Tracked() && Suffix(Do(b, op).Unflushed(), Enter(entered, op))
  {
    match op {
      case DoWrite(data) => WriteStaysAt(b, entered, data);
      case DoLoad(data) => LoadStaysAt(b, entered, data);
      case DoRead(len) => ReadStaysAt(b, entered, len);
      case DoFlush(size) => FlushStaysAt(b, entered, size);
      case DoClean => CleanStaysAt(entered);
    }
  }

  lemma CleanStaysAt(entered: seq<Byte>)
    ensures Empty().Valid() && Empty().Tracked() && Suffix(Empty().Unflushed(), entered)
  {
    assert Empty().Unflushed() == [] && Suffix([], entered);
  }

  lemma WriteStaysAt(b: Buf, entered: seq<Byte>, data: seq<Byte>)
    requires b.Valid() && WriteFits(b, |data|) && b.Tracked() && Suffix(b.Unflushed(), entered)
    requires Moves(b, |data|) ==> b.posDirty == b.pos
    ensures AfterWrite(b, data).Valid() && AfterWrite(b, data).Tracked()
    ensures Suffix(AfterWrite(b, data).Unflushed(), entered + data)
  {
    WriteTracksIff(b, data);
    SuffixGrows(b.Unflushed(), entered, data);
  }

  lemma LoadStaysAt(b: Buf, entered: seq<Byte>, data: seq<Byte>)
    requires b.Valid() && LoadFits(b, data) && b.Tracked() && Suffix(b.Unflushed(), entered)
    ensures AfterLoad(b, data).Valid() && AfterLoad(b, data).Tracked()
    ensures Suffix(AfterLoad(b, data).Unflushed(), entered + data)
  {
    LoadTracks(b, data);
    if data == [] {
      SuffixGrows(b.Unflushed(), entered, data);
      assert b.Unflushed() + data == b.Unflushed();
    } else {
      assert Suffix([], entered + data);
    }
  }

  lemma ReadStaysAt(b: Buf, entered: seq<Byte>, len: nat)
    requires b.Valid() && b.Tracked() && Suffix(b.Unflushed(), entered)
    ensures AfterRead(b, len).Valid() && AfterRead(b, len).Tracked() && Suffix(AfterRead(b, len).Unflushed(), entered)
  {
    ReadTracks(b, len);
    SuffixShrinks(b.Unflushed(), entered, |b.Unflushed()| - |AfterRead(b, len).Unflushed()|);
  }

  lemma FlushStaysAt(b: Buf, entered: seq<Byte>, size: nat)
    requires b.Valid() && b.Tracked() && Suffix(b.Unflushed(), entered)
    ensures AfterFlush(b, size).Valid() && AfterFlush(b, size).Tracked()
    ensures Suffix(AfterFlush(b, size).Unflushed(), entered)
  {
    if Flushes(b, size) {
      FlushTracks(b, size);
      assert AfterFlush(b, size).Unflushed() == b.Unflushed()[size..];
      SuffixShrinks(b.Unflushed(), entered, size);
    }
  }

  /** Flushes return stretches of the stream, in order, and no byte twice. */
  lemma {:induction false} FlushesInOrder(b: Buf, entered: seq<Byte>, ops: seq<Op>)
    requires b.Valid() && AllowedRun(b, ops) && TrackedRun(b, ops) && b.Tracked() && Suffix(b.Unflushed(), entered)
    ensures InOrder(Slices(b, entered, ops), |entered| - b.remainingDirty)
    ensures Stretches(Slices(b, entered, ops), Stream(entered, ops))
    decreases |ops|
  {
    if ops != [] {
      var op := ops[0];
      StepTracks(b, op);
      StepStaysAt(b, entered, op);
      var b', entered' := Do(b, op), Enter(entered, op);
      FlushesInOrder(b', entered', ops[1..]);
      var rest := Slices(b', entered', ops[1..]);
      ExtendsRun(b, entered, op, rest, |entered'| - b'.remainingDirty, Stream(entered, ops));
    }
  }

  lemma ExtendsRun(b: Buf, entered: seq<Byte>, op: Op, rest: seq<Slice>, from: nat, stream: seq<Byte>)
    requires b.Valid() && b.Tracked() && Suffix(b.Unflushed(), entered)
    requires InOrder(rest, from) && Stretches(rest, stream)
    requires from >= |entered| - b.remainingDirty + (if op.DoFlush? && Flushes(b, op.size) then op.size else 0)
    requires |entered| <= |stream| && stream[..|entered|] == entered
    ensures InOrder(Given(b, |entered|, op) + rest, |entered| - b.remainingDirty)
    ensures Stretches(Given(b, |entered|, op) + rest, stream)
  {
    if op.DoFlush? && Flushes(b, op.size) {
      var s := Given(b, |entered|, op)[0];
      SliceIsStretch(b, entered, op.size);
      StretchOfPrefix(s, entered, stream);
      assert ([s] + rest)[1..] == rest;
      InOrderFrom(rest, from, s.at + |s.bytes|);
    } else {
      assert [] + rest == rest;
      InOrderFrom(rest, from, |entered| - b.remainingDirty);
    }
  }

  lemma StretchOfPrefix(s: Slice, entered: seq<Byte>, stream: seq<Byte>)
    requires |entered| <= |stream| && stream[..|entered|] == entered
    requires s.at + |s.bytes| <= |entered| && s.bytes == entered[s.at..s.at + |s.bytes|]
    ensures s.bytes == stream[s.at..s.at + |s.bytes|]
  {
  }

  lemma SliceIsStretch(b: Buf, entered: seq<Byte>, size: nat)
    requires b.Valid() && b.Tracked() && Suffix(b.Unflushed(), entered) && Flushes(b, size)
    ensures var at := |entered| - b.remainingDirty;
      b.live[b.posDirty..b.posDirty + size] == entered[at..at + size]
  {
    assert b.live[b.posDirty..b.posDirty + size] == b.Unflushed()[..size];
    var at := |entered| - b.remainingDirty;
    assert entered[at..][..size] == entered[at..at + size];
  }

  lemma SliceOfSlice(s: seq<Byte>, pos: nat, n: nat, end: nat)
    requires pos + n <= end <= |s|
    ensures s[..end][pos..][..n] == s[pos..pos + n]
  {
  }

  // ---- the object ----

  class PmemBuffer {
    var bufData: array?<Byte>
    var bufDataCapacity: nat
    var pos: nat
    var remaining: nat
    var posDirty: nat
    var remainingDirty: int

    ghost predicate Valid()
      reads this, bufData
    {
      && (bufData == null ==> bufDataCapacity == 0)
      && (bufData != null ==> bufData.Length == bufDataCapacity)
      && pos + remaining <= bufDataCapacity <= INT_MAX
    }

    ghost function State(): (b: Buf)
      requires Valid()
      reads this, bufData
      ensures b.Valid() && b.Remaining() == remaining
    {
      Buf(bufDataCapacity, if bufData == null then [] else bufData[..pos + remaining], pos, posDirty, remainingDirty)
    }

    constructor (capacity: nat)
      requires capacity <= INT_MAX
      ensures Valid() && State() == Buf(capacity, [], 0, 0, 0)
      ensures bufData != null && fresh(bufData)
    {
      bufDataCapacity := capacity;
      bufData := new Byte[capacity];
      pos, remaining, posDirty, remainingDirty := 0, 0, 0, 0;
    }

    constructor Unallocated()
      ensures Valid() && State() == Empty()
    {
      bufDataCapacity := 0;
      bufData := null;
      pos, remaining, posDirty, remainingDirty := 0, 0, 0, 0;
    }

    /** Copies the unread bytes to the front of a new allocation. */
    method MoveTo(capacity: nat)
      requires Valid() && bufData != null && remaining <= capacity
      modifies `bufData, `bufDataCapacity
      ensures bufData != null && fresh(bufData) && bufData.Length == bufDataCapacity == capacity
      ensures bufData[..remaining] == old(State()).Contents()
    {
      bufDataCapacity := capacity;
      var original := bufData;
      bufData := new Byte[capacity];
      MemCpy(bufData, 0, original[pos..pos + remaining]);
    }

    method LoadRoom(len: nat)
      requires Valid() && len > 0 && State().Remaining() + len <= INT_MAX
      modifies this
      ensures bufData != null && bufData.Length == bufDataCapacity == LoadCapacity(old(State()), len)
      ensures remaining == old(remaining) && bufData[..remaining] == Kept(old(State()), len)
      ensures bufData != old(bufData) ==> fresh(bufData)
    {
      ghost var b := State();
      RoomForLoad(b, len);
      assert bufData != null ==> b.live[..remaining] == bufData[..remaining];
      assert b.capacity < remaining + len ==> Kept(b, len) == b.Contents();
      assert b.capacity >= remaining + len ==> Kept(b, len) == b.live[..remaining];
      hide Wrap32, Kept;
      if bufDataCapacity == 0 {
        bufDataCapacity := len;
        bufData := new Byte[len];
      }
      if remaining > 0 {
        if bufDataCapacity < Wrap32(remaining + len) {
          MoveTo(Wrap32(remaining + len));
        }
      } else if bufDataCapacity < len {
        bufDataCapacity := len;
        bufData := new Byte[len];
      }
      assert remaining == 0 ==> bufData[..remaining] == [] == Kept(b, len);
    }

    method Load(data: seq<Byte>) returns (n: nat)
      requires Valid() && LoadFits(State(), data)
      modifies this, bufData
      ensures Valid() && State() == AfterLoad(old(State()), data)
      ensures n == |data| && remaining == old(remaining) + |data|
      ensures bufData != old(bufData) ==> fresh(bufData)
    {
      if |data| == 0 {
        return 0;
      }
      assert AfterLoad(State(), data)
        == Buf(LoadCapacity(State(), |data|), Kept(State(), |data|) + data, 0, State().Remaining() + |data|, 0);
      RoomForLoad(State(), |data|);
      hide AfterLoad, LoadCapacity, Kept;
      LoadRoom(|data|);
      CopyIn(data);
      n := |data|;
    }

    /** The bytes go behind the first `remaining` ones. */
    method CopyIn(data: seq<Byte>)
      requires bufData != null && remaining + |data| <= bufData.Length == bufDataCapacity <= INT_MAX
      modifies `pos, `remaining, `posDirty, `remainingDirty, bufData
      ensures remaining == old(remaining) + |data| && Valid()
      ensures State() == Buf(bufDataCapacity, old(bufData[..remaining]) + data, 0, remaining, 0)
    {
      hide Overlay;
      pos := remaining;
      MemCpy(bufData, pos, data);
      remaining := remaining + |data|;
      pos := 0;
      posDirty := remaining;
      remainingDirty := 0;
    }

    method Clean()
      requires Valid()
      modifies this
      ensures Valid() && State() == Empty() && bufData == null
    {
      bufDataCapacity, remaining, pos, remainingDirty, posDirty := 0, 0, 0, 0, 0;
      bufData := null;
    }

    /** The address of the bytes to flush, as an offset into the buffer; none when refused. */
    method GetDataForFlush(size: nat) returns (at: int)
      requires Valid()
      modifies this
      ensures Valid() && State() == AfterFlush(old(State()), size)
      ensures at == if Flushes(old(State()), size) then old(posDirty) else -1
      ensures var b := old(State());
        b.Tracked() ==>
          && (at == -1 <==> b.Unflushed() == [] || size > |b.Unflushed()|)
          && (at != -1 ==> 0 <= at && at + size <= |b.live| && b.live[at..at + size] == b.Unflushed()[..size])
    {
      if remainingDirty < size || remainingDirty == 0 {
        return -1;
      }
      at := posDirty;
      posDirty := posDirty + size;
      remainingDirty := remainingDirty - size;
    }

    method Read(ret: array<Byte>, off: nat, len: nat) returns (n: nat)
      requires Valid() && ret != bufData && off + Min(len, remaining) <= ret.Length
      modifies this, ret
      ensures Valid() && State() == AfterRead(old(State()), len) && bufData == old(bufData)
      ensures n == Min(len, old(remaining))
      ensures ret[..] == Overlay(old(ret[..]), off, old(State()).Contents()[..n])
    {
      n := Min(len, remaining);
      if bufData != null {
        SliceOfSlice(bufData[..], pos, n, pos + remaining);
        assert bufData[pos..pos + n] == State().Contents()[..n];
        MemCpy(ret, off, bufData[pos..pos + n]);
      }
      if pos + n > posDirty {
        remainingDirty := remainingDirty - (pos + n - posDirty);
        posDirty := pos + n;
      }
      pos := pos + n;
      remaining := remaining - n;
    }

    /** get() of PmemBuffer.java: the next byte, or 0 when there is none. */
    method Get() returns (r: Byte)
      requires Valid()
      modifies this
      ensures Valid() && State() == AfterRead(old(State()), 1) && bufData == old(bufData)
      ensures r == if old(remaining) > 0 then old(State()).Contents()[0] else 0
    {
      var one := new Byte[1](_ => 0);
      var n := Read(one, 0, 1);
      r := one[..][0];
    }

    method MakeRoom(len: nat)
      requires Valid() && WriteFits(State(), len)
      modifies this
      ensures Valid() && bufData != null && State() == WithRoom(old(State()), len)
      ensures pos + remaining + len <= bufDataCapacity
      ensures bufData != old(bufData) ==> fresh(bufData)
    {
      hide Wrap32;
      Allocate();
      if Wrap32(pos + remaining + len) > bufDataCapacity {
        var grown := bufDataCapacity;
        if Wrap32(remaining + len) > bufDataCapacity {
          grown := Wrap32(bufDataCapacity + DEFAULT_BUFSIZE);
        }
        if grown > 0 {
          MoveTo(grown);
          pos := 0;
          posDirty := 0;
          assert bufData[..pos + remaining] == old(State()).Contents();
        }
      }
    }

    method Allocate()
      requires Valid()
      modifies `bufData, `bufDataCapacity
      ensures Valid() && bufData != null && State() == old(State()).(capacity := Allocated(old(State())))
      ensures bufData != old(bufData) ==> fresh(bufData)
    {
      if bufDataCapacity == 0 {
        bufDataCapacity := DEFAULT_BUFSIZE;
        bufData := new Byte[bufDataCapacity];
        assert bufData[..pos + remaining] == [] && old(State()).live == [];
      }
    }

    method Write(data: seq<Byte>)
      requires Valid() && WriteFits(State(), |data|)
      modifies this, bufData
      ensures Valid() && State() == AfterWrite(old(State()), data)
      ensures bufData != old(bufData) ==> fresh(bufData)
    {
      hide WithRoom, WriteFits, Overlay;
      MakeRoom(|data|);
      MemCpy(bufData, pos + remaining, data);
      remaining := remaining + |data|;
      remainingDirty := remainingDirty + |data|;
    }
  }
}
