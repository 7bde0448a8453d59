/** core/.../nvm/nvmOutputStream.scala: a fixed direct buffer whose pending bytes are stored as a block. */
module OutputStreams {
  import opened Bytes
  import opened PmemKv

  const LENGTH: nat := 1024 * 1024 * 6

  /** `buffer` is byteBuffer[..position], everything put since the last reset. */
  datatype Out = Out(buffer: seq<Byte>, remaining: nat, flushed: nat) {
    predicate Valid() { remaining <= |buffer| <= LENGTH }
    /** The bytes put since the last flush. */
    function Pending(): seq<Byte> requires Valid() { buffer[|buffer| - remaining..] }
  }

  const EMPTY: Out := Out([], 0, 0)

  /** put refuses what does not fit, and then changes nothing. */
  predicate Fits(o: Out, len: nat) { |o.buffer| + len <= LENGTH }

  function Put(o: Out, bytes: seq<Byte>): Out
    requires Fits(o, |bytes|)
  {
    o.(buffer := o.buffer + bytes, remaining := o.remaining + |bytes|)
  }

  /** putInt: four bytes, the highest first. */
  function IntBytes(byte: int): (r: seq<Byte>)
    requires -0x8000_0000 <= byte < 0x8000_0000
    ensures |r| == 4
  {
    var w := if byte < 0 then byte + 0x1_0000_0000 else byte;
    [(w / 0x100_0000) as Byte, (w / 0x1_0000 % 0x100) as Byte, (w / 0x100 % 0x100) as Byte, (w % 0x100) as Byte]
  }

  function Flushed(o: Out): Out {
    if o.remaining > 0 then o.(remaining := 0, flushed := o.flushed + o.remaining) else o
  }

  lemma FourDigits(w: nat)
    ensures w == 0x100_0000 * (w / 0x100_0000) + 0x1_0000 * (w / 0x1_0000 % 0x100)
                 + 0x100 * (w / 0x100 % 0x100) + w % 0x100
  {
    var a, b, c := w / 0x100, w / 0x1_0000, w / 0x100_0000;
    assert w == 0x100 * a + w % 0x100;
    assert a / 0x100 == b && a == 0x100 * b + a % 0x100;
    assert b / 0x100 == c && b == 0x100 * c + b % 0x100;
  }

  /** So an Int comes back from its bytes, the highest first. */
  lemma IntBytesTell(byte: int)
    requires -0x8000_0000 <= byte < 0x8000_0000
    ensures var b := IntBytes(byte);
      byte == Wrap32(0x100_0000 * b[0] as int + 0x1_0000 * b[1] as int + 0x100 * b[2] as int + b[3] as int)
  {
    hide Wrap32;
    var w := if byte < 0 then byte + 0x1_0000_0000 else byte;
    FourDigits(w);
  }

  /** What a flush stores: the native side always takes the bytes from the start of the buffer. */
  function FlushedBlocks(o: Out): seq<seq<Byte>>
    requires o.Valid()
  {
    if o.remaining > 0 then [o.buffer[..o.remaining]] else []
  }

  /** A 1, and zeros behind it. */
  function Marks(pos: nat, len: nat): (s: seq<Byte>)
    ensures |s| == len && forall i :: 0 <= i < len ==> s[i] == if pos + i == 0 then 1 else 0
  {
    seq(len, i => if pos + i == 0 then 1 else 0)
  }

  /** A flush stores the pending bytes, whatever the bytes are, exactly when nothing stands before
      them in the buffer. */
  lemma FlushStoresPendingIff(position: nat, remaining: nat)
    requires 0 < remaining <= position <= LENGTH
    ensures (forall o: Out :: o.Valid() && |o.buffer| == position && o.remaining == remaining ==> StoresPending(o))
      <==> position == remaining
  {
    if position != remaining {
      MarksDiffer(position, remaining);
      var o := Out(Marks(0, position), remaining, 0);
      assert o.Valid() && !StoresPending(o);
    } else {
      forall o: Out | o.Valid() && |o.buffer| == position && o.remaining == remaining ensures StoresPending(o) {
        assert o.buffer[..remaining] == o.buffer;
      }
    }
  }

  predicate StoresPending(o: Out)
    requires o.Valid()
  {
    FlushedBlocks(o) == if o.remaining > 0 then [o.Pending()] else []
  }

  lemma MarksDiffer(n: nat, r: nat)
    requires 0 < r < n
    ensures Marks(0, n)[..r] != Marks(0, n)[n - r..]
    ensures [Marks(0, n)[..r]] != [Marks(0, n)[n - r..]]
  {
    assert Marks(0, n)[..r][0] == 1 && Marks(0, n)[n - r..][0] == 0;
    assert [Marks(0, n)[..r]][0] == Marks(0, n)[..r];
  }

  // ---- runs of the buffer alone ----

  datatype Call = DoWrite(bytes: seq<Byte>) | DoFlush | DoReset

  function Next(o: Out, c: Call): (r: Out)
    requires o.Valid()
    ensures r.Valid()
  {
    match c
    case DoWrite(bytes) => if Fits(o, |bytes|) then Put(o, bytes) else o
    case DoFlush => Flushed(o)
    case DoReset => EMPTY
  }

  /** After any call the bytes flushed since the last reset and the pending ones are those in the buffer. */
  lemma CountersAddUp(o: Out, c: Call)
    requires o.Valid() && o.flushed + o.remaining == |o.buffer|
    ensures Next(o, c).flushed + Next(o, c).remaining == |Next(o, c).buffer|
    ensures EMPTY.flushed + EMPTY.remaining == |EMPTY.buffer|
  {
  }

  /** The blocks a run stores. */
  function StoredBy(o: Out, calls: seq<Call>): seq<seq<Byte>>
    requires o.Valid()
    decreases |calls|
  {
    if calls == [] then []
    else if calls[0].DoFlush? then FlushedBlocks(o) + StoredBy(Next(o, calls[0]), calls[1..])
    else StoredBy(Next(o, calls[0]), calls[1..])
  }

  /** The blocks it should store: at each flush what was written since the last one or the last reset. */
  function Intended(position: nat, pending: seq<Byte>, calls: seq<Call>): seq<seq<Byte>>
    decreases |calls|
  {
    if calls == [] then []
    else match calls[0]
      case DoWrite(bytes) =>
        if position + |bytes| <= LENGTH then Intended(position + |bytes|, pending + bytes, calls[1..])
        else Intended(position, pending, calls[1..])
      case DoFlush =>
        if pending == [] then Intended(position, [], calls[1..]) else [pending] + Intended(position, [], calls[1..])
      case DoReset => Intended(0, [], calls[1..])
  }

  /** No flush of pending bytes follows an earlier one without a reset between them; so at each of
      them the position of the buffer is the number of bytes pending. */
  predicate Rewound(position: nat, pending: nat, calls: seq<Call>)
    decreases |calls|
  {
    calls == [] || match calls[0]
      case DoWrite(bytes) =>
        if position + |bytes| <= LENGTH then Rewound(position + |bytes|, pending + |bytes|, calls[1..])
        else Rewound(position, pending, calls[1..])
      case DoFlush => (pending > 0 ==> position == pending) && Rewound(position, 0, calls[1..])
      case DoReset => Rewound(0, 0, calls[1..])
  }

  predicate SameShape(a: Call, b: Call) {
    match a
    case DoWrite(bytes) => b.DoWrite? && |b.bytes| == |bytes|
    case DoFlush => b.DoFlush?
    case DoReset => b.DoReset?
  }

  /** The same calls with other bytes. */
  predicate SameShapes(a: seq<Call>, b: seq<Call>) {
    |a| == |b| && forall i :: 0 <= i < |a| ==> SameShape(a[i], b[i])
  }

  lemma {:induction false} RewoundByShape(position: nat, pending: nat, a: seq<Call>, b: seq<Call>)
    requires SameShapes(a, b)
    ensures Rewound(position, pending, a) == Rewound(position, pending, b)
    decreases |a|
  {
    if a != [] {
      assert SameShape(a[0], b[0]) && SameShapes(a[1..], b[1..]);
      match a[0] {
        case DoWrite(bytes) =>
          if position + |bytes| <= LENGTH {
            RewoundByShape(position + |bytes|, pending + |bytes|, a[1..], b[1..]);
          } else {
            RewoundByShape(position, pending, a[1..], b[1..]);
          }
        case DoFlush => RewoundByShape(position, 0, a[1..], b[1..]);
        case DoReset => RewoundByShape(0, 0, a[1..], b[1..]);
      }
    }
  }

  lemma NothingThen<T>(s: seq<T>)
    ensures [] + s == s
  {
  }

  lemma PutPends(o: Out, bytes: seq<Byte>)
    requires o.Valid() && Fits(o, |bytes|)
    ensures Put(o, bytes).Valid() && Put(o, bytes).Pending() == o.Pending() + bytes
  {
  }

  lemma {:induction false} RewoundStoresIntended(o: Out, calls: seq<Call>)
    requires o.Valid() && Rewound(|o.buffer|, o.remaining, calls)
    ensures StoredBy(o, calls) == Intended(|o.buffer|, o.Pending(), calls)
    decreases |calls|
  {
    if calls != [] {
      RewoundStoresIntended(Next(o, calls[0]), calls[1..]);
      match calls[0] {
        case DoWrite(bytes) =>
          if Fits(o, |bytes|) {
            PutPends(o, bytes);
          }
        case DoFlush =>
          assert Flushed(o).Pending() == [];
          assert o.remaining > 0 ==> o.buffer[..o.remaining] == o.Pending();
          NothingThen(StoredBy(Flushed(o), calls[1..]));
        case DoReset =>
          assert EMPTY.Pending() == [];
      }
    }
  }

  /** The calls with bytes that tell the front of the buffer from the rest. */
  function Marked(position: nat, calls: seq<Call>): (r: seq<Call>)
    ensures SameShapes(calls, r)
    decreases |calls|
  {
    if calls == [] then []
    else match calls[0]
      case DoWrite(bytes) =>
        var next := if position + |bytes| <= LENGTH then position + |bytes| else position;
        [DoWrite(Marks(position, |bytes|))] + Marked(next, calls[1..])
      case DoFlush => [DoFlush] + Marked(position, calls[1..])
      case DoReset => [DoReset] + Marked(0, calls[1..])
  }

  lemma MarksJoin(a: nat, b: nat)
    ensures Marks(0, a) + Marks(a, b) == Marks(0, a + b)
  {
  }

  lemma FirstsDiffer<T>(x: T, y: T, a: seq<T>, b: seq<T>)
    requires x != y
    ensures [x] + a != [y] + b
  {
    assert ([x] + a)[0] == x && ([y] + b)[0] == y;
  }

  lemma RestsDiffer<T>(x: seq<T>, a: seq<T>, b: seq<T>)
    requires a != b
    ensures x + a != x + b
  {
    assert (x + a)[|x|..] == a && (x + b)[|x|..] == b;
  }

  lemma FlushedDiffers(o: Out, rest: seq<seq<Byte>>, wanted: seq<seq<Byte>>)
    requires o.Valid() && o.buffer == Marks(0, |o.buffer|)
    requires (o.remaining > 0 && |o.buffer| != o.remaining) || rest != wanted
    ensures FlushedBlocks(o) + rest != if o.Pending() == [] then wanted else [o.Pending()] + wanted
  {
    if o.remaining > 0 && |o.buffer| != o.remaining {
      MarksDiffer(|o.buffer|, o.remaining);
      FirstsDiffer(o.buffer[..o.remaining], o.Pending(), rest, wanted);
    } else if o.remaining > 0 {
      RestsDiffer([o.Pending()], rest, wanted);
    } else {
      NothingThen(rest);
    }
  }

  lemma StoredCons(o: Out, c: Call, rest: seq<Call>)
    requires o.Valid()
    ensures StoredBy(o, [c] + rest) ==
      if c.DoFlush? then FlushedBlocks(o) + StoredBy(Next(o, c), rest) else StoredBy(Next(o, c), rest)
  {
    assert ([c] + rest)[1..] == rest;
  }

  lemma IntendedCons(position: nat, pending: seq<Byte>, c: Call, rest: seq<Call>)
    ensures Intended(position, pending, [c] + rest) == match c
      case DoWrite(bytes) =>
        if position + |bytes| <= LENGTH then Intended(position + |bytes|, pending + bytes, rest)
        else Intended(position, pending, rest)
      case DoFlush => if pending == [] then Intended(position, [], rest) else [pending] + Intended(position, [], rest)
      case DoReset => Intended(0, [], rest)
  {
    assert ([c] + rest)[1..] == rest;
  }

  /** One marked write, flush or reset, and what is left of the run. */
  lemma MarkedWrite(o: Out, calls: seq<Call>)
    requires o.Valid() && o.buffer == Marks(0, |o.buffer|) && calls != [] && calls[0].DoWrite?
    ensures var n := |o.buffer|;
      var r, rest := Next(o, DoWrite(Marks(n, |calls[0].bytes|))), calls[1..];
      && r.buffer == Marks(0, |r.buffer|)
      && StoredBy(o, Marked(n, calls)) == StoredBy(r, Marked(|r.buffer|, rest))
      && Intended(n, o.Pending(), Marked(n, calls)) == Intended(|r.buffer|, r.Pending(), Marked(|r.buffer|, rest))
      && Rewound(n, o.remaining, calls) == Rewound(|r.buffer|, r.remaining, rest)
  {
    hide StoredBy, Intended, Marked, Rewound;
    var n, len := |o.buffer|, |calls[0].bytes|;
    var c := DoWrite(Marks(n, len));
    var r, rest := Next(o, c), calls[1..];
    MarksGrow(o, len);
    hide *;
    MarkedCons(n, o.remaining, calls);
    var marked := Marked(|r.buffer|, rest);
    StoredCons(o, c, marked);
    IntendedCons(n, o.Pending(), c, marked);
  }

  lemma MarksGrow(o: Out, len: nat)
    requires o.Valid() && o.buffer == Marks(0, |o.buffer|)
    ensures var r := Next(o, DoWrite(Marks(|o.buffer|, len)));
      && r.buffer == Marks(0, |r.buffer|)
      && (if |o.buffer| + len <= LENGTH
          then |r.buffer| == |o.buffer| + len && r.remaining == o.remaining + len
            && r.Pending() == o.Pending() + Marks(|o.buffer|, len)
          else r == o)
  {
    if Fits(o, len) {
      MarksJoin(|o.buffer|, len);
      PutPends(o, Marks(|o.buffer|, len));
    }
  }

  lemma MarkedCons(position: nat, pending: nat, calls: seq<Call>)
    requires calls != [] && calls[0].DoWrite?
    ensures var len, rest := |calls[0].bytes|, calls[1..];
      var next := if position + len <= LENGTH then position + len else position;
      var more := if position + len <= LENGTH then pending + len else pending;
      && Marked(position, calls) == [DoWrite(Marks(position, len))] + Marked(next, rest)
      && Rewound(position, pending, calls) == Rewound(next, more, rest)
  {
  }

  lemma MarkedFlush(o: Out, calls: seq<Call>)
    requires o.Valid() && calls != [] && calls[0].DoFlush?
    ensures var n, rest := |o.buffer|, calls[1..];
      var later := Intended(n, [], Marked(n, rest));
      && StoredBy(o, Marked(n, calls)) == FlushedBlocks(o) + StoredBy(Flushed(o), Marked(n, rest))
      && Intended(n, o.Pending(), Marked(n, calls)) == (if o.Pending() == [] then later else [o.Pending()] + later)
      && Rewound(n, o.remaining, calls) == ((o.remaining == 0 || n == o.remaining) && Rewound(n, 0, rest))
  {
    hide StoredBy, Intended;
    var n, rest := |o.buffer|, calls[1..];
    assert Marked(n, calls) == [DoFlush] + Marked(n, rest);
    assert Rewound(n, o.remaining, calls) == ((o.remaining == 0 || n == o.remaining) && Rewound(n, 0, rest));
    hide Marked, Rewound;
    StoredCons(o, DoFlush, Marked(n, rest));
    IntendedCons(n, o.Pending(), DoFlush, Marked(n, rest));
  }

  lemma MarkedReset(o: Out, calls: seq<Call>)
    requires o.Valid() && calls != [] && calls[0].DoReset?
    ensures var n, rest := |o.buffer|, calls[1..];
      && StoredBy(o, Marked(n, calls)) == StoredBy(EMPTY, Marked(0, rest))
      && Intended(n, o.Pending(), Marked(n, calls)) == Intended(0, [], Marked(0, rest))
      && Rewound(n, o.remaining, calls) == Rewound(0, 0, rest)
  {
    hide StoredBy, Intended;
    var n, rest := |o.buffer|, calls[1..];
    assert Marked(n, calls) == [DoReset] + Marked(0, rest);
    assert Rewound(n, o.remaining, calls) == Rewound(0, 0, rest);
    hide Marked, Rewound;
    StoredCons(o, DoReset, Marked(0, rest));
    IntendedCons(n, o.Pending(), DoReset, Marked(0, rest));
  }

  lemma NothingPending(o: Out)
    requires o.Valid()
    ensures Flushed(o).Pending() == [] && EMPTY.Pending() == []
  {
  }

  lemma {:induction false} ElseStoresOther(o: Out, calls: seq<Call>)
    requires o.Valid() && o.buffer == Marks(0, |o.buffer|) && !Rewound(|o.buffer|, o.remaining, calls)
    ensures StoredBy(o, Marked(|o.buffer|, calls)) != Intended(|o.buffer|, o.Pending(), Marked(|o.buffer|, calls))
    decreases |calls|
  {
    assert calls != [];
    hide StoredBy, Intended, Marked, Rewound, FlushedBlocks;
    var n, rest := |o.buffer|, calls[1..];
    NothingPending(o);
    match calls[0] {
      case DoWrite(bytes) =>
        MarkedWrite(o, calls);
        ElseStoresOther(Next(o, DoWrite(Marks(n, |bytes|))), rest);
      case DoFlush =>
        MarkedFlush(o, calls);
        if o.remaining == 0 || n == o.remaining {
          ElseStoresOther(Flushed(o), rest);
        }
        FlushedDiffers(o, StoredBy(Flushed(o), Marked(n, rest)), Intended(n, [], Marked(n, rest)));
      case DoReset =>
        MarkedReset(o, calls);
        assert EMPTY.buffer == Marks(0, 0);
        ElseStoresOther(EMPTY, rest);
    }
  }

  /** A run of writes, flushes and resets stores what it should, whatever the bytes are, exactly when
      every flush that has something to store finds the buffer rewound. */
  lemma RunStoresIntendedIff(calls: seq<Call>)
    ensures (forall cs: seq<Call> :: SameShapes(calls, cs) ==> StoredBy(EMPTY, cs) == Intended(0, [], cs))
      <==> Rewound(0, 0, calls)
  {
    if Rewound(0, 0, calls) {
      forall cs: seq<Call> | SameShapes(calls, cs) ensures StoredBy(EMPTY, cs) == Intended(0, [], cs) {
        RewoundByShape(0, 0, calls, cs);
        RewoundStoresIntended(EMPTY, cs);
      }
    } else {
      ElseStoresOther(EMPTY, calls);
      assert SameShapes(calls, Marked(0, calls));
    }
  }

  /** Two flushes without a reset between them store the first byte twice. */
  lemma FlushWithoutResetRepeats(a: Byte, b: Byte)
    requires a != b
    ensures var o := Put(Flushed(Put(EMPTY, [a])), [b]);
      o.Valid() && o.Pending() == [b] && FlushedBlocks(o) == [[a]]
  {
    assert [] + [a] == [a];
    assert ([a] + [b])[..1] == [a] && ([a] + [b])[1..] == [b];
  }

  /** write(Int) is meant to write one byte; it writes that byte behind three others. */
  lemma WriteIntPads(byte: int)
    requires 0 <= byte < 256
    ensures IntBytes(byte) == [0, 0, 0, byte as Byte]
  {
  }

  class OutputStream {
    const kv: Kv
    const blockId: seq<Byte>
    const byteBuffer: array<Byte>
    var position: nat
    var bufferFlushedSize: nat
    var bufferRemainingSize: nat
    var setClean: bool
    var isClosed: bool

    ghost predicate Valid()
      reads this
    {
      byteBuffer.Length == LENGTH && bufferRemainingSize <= position <= LENGTH
    }

    ghost function State(): (o: Out)
      requires Valid()
      reads this, byteBuffer
      ensures o.Valid()
    {
      Out(byteBuffer[..position], bufferRemainingSize, bufferFlushedSize)
    }

    /** The blocks stored under this stream's id. */
    ghost function Blocks(): seq<seq<Byte>>
      reads kv, kv.dev
    {
      Stored(kv.Log(), kv.hash(blockId))
    }

    constructor (kv: Kv, blockId: seq<Byte>)
      ensures Valid() && State() == EMPTY && this.kv == kv && this.blockId == blockId && !isClosed
      ensures fresh(byteBuffer)
    {
      this.kv, this.blockId := kv, blockId;
      position, bufferFlushedSize, bufferRemainingSize := 0, 0, 0;
      setClean, isClosed := true, false;
      byteBuffer := new Byte[LENGTH];
    }

    method Write(bytes: seq<Byte>) returns (ok: bool)
      requires Valid()
      modifies this, byteBuffer
      ensures Valid() && ok == Fits(old(State()), |bytes|) && isClosed == old(isClosed)
      ensures State() == if ok then Put(old(State()), bytes) else old(State())
    {
      ok := position + |bytes| <= LENGTH;
      if ok {
        MemCpy(byteBuffer, position, bytes);
        position := position + |bytes|;
        bufferRemainingSize := bufferRemainingSize + |bytes|;
      }
    }

    method WriteInt(byte: int) returns (ok: bool)
      requires Valid() && -0x8000_0000 <= byte < 0x8000_0000
      modifies this, byteBuffer
      ensures Valid() && ok == Fits(old(State()), 4)
      ensures State() == if ok then Put(old(State()), IntBytes(byte)) else old(State())
    {
      ok := Write(IntBytes(byte));
    }

    /** setPartition: stores the first `size` bytes of the buffer under the block id. */
    method SetPartition(size: nat)
      requires size <= byteBuffer.Length && kv.Valid()
      modifies kv, kv.dev, kv.index
      ensures kv.Valid() && Blocks() == old(Blocks()) + [byteBuffer[..size]]
      ensures forall k: nat :: k != kv.hash(blockId) ==> Stored(kv.Log(), k) == Stored(old(kv.Log()), k)
    {
      var rc, bep, d := kv.Put(blockId, byteBuffer[..size]);
    }

    method Flush()
      requires Valid() && kv.Valid()
      modifies this, kv, kv.dev, kv.index
      ensures Valid() && kv.Valid() && State() == Flushed(old(State())) && isClosed == old(isClosed)
      ensures Blocks() == old(Blocks()) + FlushedBlocks(old(State()))
      ensures forall k: nat :: k != kv.hash(blockId) ==> Stored(kv.Log(), k) == Stored(old(kv.Log()), k)
    {
      hide Kv.Valid;
      FirstBytes();
      if bufferRemainingSize > 0 {
        SetPartition(bufferRemainingSize);
        bufferFlushedSize := bufferFlushedSize + bufferRemainingSize;
        bufferRemainingSize := 0;
      }
      setClean := false;
    }

    lemma FirstBytes()
      requires Valid()
      ensures FlushedBlocks(State()) == if bufferRemainingSize > 0 then [byteBuffer[..bufferRemainingSize]] else []
    {
      assert byteBuffer[..position][..bufferRemainingSize] == byteBuffer[..bufferRemainingSize];
    }

    method Reset()
      requires Valid()
      modifies `position, `bufferRemainingSize, `bufferFlushedSize
      ensures Valid() && State() == EMPTY
    {
      bufferRemainingSize := 0;
      bufferFlushedSize := 0;
      position := 0;
    }

    /** Only the first close does anything. */
    method Close()
      requires Valid() && kv.Valid()
      modifies this, kv, kv.dev, kv.index
      ensures Valid() && kv.Valid() && isClosed
      ensures State() == if old(isClosed) then old(State()) else EMPTY
      ensures Blocks() == if old(isClosed) then old(Blocks()) else old(Blocks()) + FlushedBlocks(old(State()))
      ensures forall k: nat :: k != kv.hash(blockId) ==> Stored(kv.Log(), k) == Stored(old(kv.Log()), k)
    {
      hide Kv.Valid;
      if !isClosed {
        Flush();
        Reset();
        isClosed := true;
      }
    }
  }
}
