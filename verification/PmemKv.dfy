/** The store of native/src/pmemkv.h: the persistent log, and the volatile index that has to agree
    with it. */
module PmemKv {
  import opened Bytes
  import opened Pmem
  import opened PmemLog
  import opened MetaIndex

  /** The blocks stored under a key, in the order they were put. */
  function Stored(log: seq<Entry>, key: nat): seq<seq<Byte>> { Blocks(OfKey(log, key)) }

  lemma StoredSnoc(log: seq<Entry>, e: Entry, key: nat)
    ensures Stored(log + [e], key) == if e.key == key then Stored(log, key) + [e.bytes] else Stored(log, key)
  {
    OfKeySnoc(log, e, key);
  }

  lemma StoredUnderEach(log: seq<Entry>, e: Entry)
    ensures forall k: nat ::
      Stored(log + [e], k) == (if k == e.key then Stored(log, k) + [e.bytes] else Stored(log, k))
  {
    forall k: nat
      ensures Stored(log + [e], k) == if k == e.key then Stored(log, k) + [e.bytes] else Stored(log, k)
    {
      StoredSnoc(log, e, k);
    }
  }

  /** As many whole blocks as fit into `cap` bytes. */
  function Fitting(blocks: seq<seq<Byte>>, cap: nat): (r: seq<Byte>)
    ensures |r| <= cap
  {
    if blocks == [] || |blocks[0]| > cap then [] else blocks[0] + Fitting(blocks[1..], cap - |blocks[0]|)
  }

  /** It is the longest run of leading blocks that fits: the next one would not. */
  lemma {:induction false} FittingIsLongest(blocks: seq<seq<Byte>>, cap: nat) returns (n: nat)
    ensures n <= |blocks| && Fitting(blocks, cap) == Flatten(blocks[..n])
    ensures n < |blocks| ==> |Flatten(blocks[..n + 1])| > cap
  {
    if blocks == [] || |blocks[0]| > cap {
      n := 0;
      if blocks != [] {
        assert blocks[..1] == [blocks[0]];
        assert Flatten(blocks[..1]) == blocks[0] + Flatten([]);
      }
    } else {
      var m := FittingIsLongest(blocks[1..], cap - |blocks[0]|);
      n := m + 1;
      assert blocks[..n][1..] == blocks[1..][..m];
      if n < |blocks| {
        assert blocks[..n + 1][1..] == blocks[1..][..m + 1];
      }
    }
  }

  /** Node `i` of an index list leads to block `i` and to the next node. */
  predicate ReadableNode(metas: map<nat, Meta>, buffers: map<nat, seq<Byte>>, ns: seq<nat>, blocks: seq<seq<Byte>>,
        i: nat)
    requires i < |ns| == |blocks|
  {
    && ns[i] != 0 && ns[i] in metas
    && metas[ns[i]].next == (if i + 1 < |ns| then ns[i + 1] else 0)
    && metas[ns[i]].size == |blocks[i]|
    && metas[ns[i]].off in buffers && buffers[metas[ns[i]].off] == blocks[i]
  }

  predicate Readable(metas: map<nat, Meta>, buffers: map<nat, seq<Byte>>, ns: seq<nat>, blocks: seq<seq<Byte>>) {
    |ns| == |blocks| && forall i :: 0 <= i < |ns| ==> ReadableNode(metas, buffers, ns, blocks, i)
  }

  /** The entry a walk has reached, and its share of the total. */
  lemma NodeSize(m: Mem, chain: seq<nat>, i: nat)
    requires Walks(m, First(chain), chain) && i <= |chain|
    ensures i < |chain| ==> Step(m, chain, i)
    ensures i < |chain| ==>
      TotalSize(LogOf(m, chain)[i..]) == m.Word(chain[i], Size) + TotalSize(LogOf(m, chain)[i + 1..])
  {
    if i < |chain| {
      assert Step(m, chain, i);
      assert LogOf(m, chain)[i..][1..] == LogOf(m, chain)[i + 1..];
    }
  }

  /** These addresses and sizes are where the blocks are. */
  predicate Locates(where: seq<(nat, nat)>, buffers: map<nat, seq<Byte>>, blocks: seq<seq<Byte>>) {
    |where| == |blocks| && forall i :: 0 <= i < |where| ==>
      where[i].0 in buffers && buffers[where[i].0] == blocks[i] && where[i].1 == |blocks[i]|
  }

  /** The first `i` blocks have been copied, and all fitted. */
  ghost predicate Copied(blocks: seq<seq<Byte>>, i: nat, copied: seq<Byte>, size: nat) {
    i <= |blocks| && |copied| <= size && copied + Fitting(blocks[i..], size - |copied|) == Fitting(blocks, size)
  }

  lemma CopiedNone(blocks: seq<seq<Byte>>, size: nat)
    ensures Copied(blocks, 0, [], size)
  {
    assert blocks[0..] == blocks && [] + Fitting(blocks, size) == Fitting(blocks, size);
  }

  lemma CopiedOne(blocks: seq<seq<Byte>>, i: nat, copied: seq<Byte>, size: nat)
    requires Copied(blocks, i, copied, size) && i < |blocks| && |copied| + |blocks[i]| <= size
    ensures Copied(blocks, i + 1, copied + blocks[i], size)
  {
    assert blocks[i..][0] == blocks[i] && blocks[i..][1..] == blocks[i + 1..];
    var rest := Fitting(blocks[i + 1..], size - |copied + blocks[i]|);
    assert copied + (blocks[i] + rest) == copied + blocks[i] + rest;
  }

  lemma CopiedAll(blocks: seq<seq<Byte>>, i: nat, copied: seq<Byte>, size: nat)
    requires Copied(blocks, i, copied, size) && (i < |blocks| ==> |copied| + |blocks[i]| > size)
    ensures copied == Fitting(blocks, size)
  {
    assert Fitting(blocks[i..], size - |copied|) == [];
  }

  lemma OverlayExtends(s: seq<Byte>, a: seq<Byte>, b: seq<Byte>)
    requires |a| + |b| <= |s|
    ensures Overlay(Overlay(s, 0, a), |a|, b) == Overlay(s, 0, a + b)
  {
  }

  lemma {:induction false} TotalIsFlat(es: seq<Entry>)
    ensures TotalSize(es) == |Flatten(Blocks(es))|
  {
    if es != [] {
      TotalIsFlat(es[1..]);
      assert Blocks(es)[1..] == Blocks(es[1..]);
    }
  }

  /** create: an allocated root with nothing behind it. */
  method CreateRoot(dev: Device) returns (bp: nat)
    requires dev.frontier > 0
    modifies dev
    ensures Consistent(dev.mem, bp, []) && 0 < bp && old(dev.frontier) <= bp < dev.frontier
    ensures dev.mem.buffers == old(dev.mem.buffers)
  {
    bp := dev.TBPAlloc(64);
    dev.TBPSet(bp, Head, 0);
    dev.TBPSet(bp, Tail, 0);
    dev.TBPSet(bp, BytesWritten, 0);
  }

  class Kv {
    const hash: seq<Byte> -> nat  // xxh::xxhash<64>
    const dev: Device
    const index: Index
    const bp: nat
    ghost var chain: seq<nat>     // the entries of the persistent log

    ghost function Log(): seq<Entry>
      reads this, dev
    {
      LogOf(dev.mem, chain)
    }

    /** The persistent half: a consistent log of allocated entries. */
    ghost predicate LogValid()
      reads this, dev
    {
      && Consistent(dev.mem, bp, chain) && bp !in chain && 0 < bp < dev.frontier
      && (forall e :: e in chain ==> e < dev.frontier)
      && (forall a :: a in dev.mem.buffers ==> a < dev.frontier)
    }

    /** The index is exactly the log. */
    ghost predicate Valid()
      reads this, dev, index
    {
      LogValid() && index.Valid(Log())
    }

    constructor (dev: Device, hash: seq<Byte> -> nat)
      requires dev.frontier > 0 && forall a :: a in dev.mem.buffers ==> a < dev.frontier
      modifies dev
      ensures Valid() && this.dev == dev && this.hash == hash && Log() == [] && fresh(index)
    {
      this.dev, this.hash, chain := dev, hash, [];
      index := new Index();
      var root := CreateRoot(dev);
      bp := root;
    }

    /** The first five stores of put: the entry and its data, not yet linked. */
    method PrepareEntry(key: nat, buf: seq<Byte>) returns (bep: nat, ghost d: nat)
      requires LogValid()
      modifies dev
      ensures Fresh(old(dev.mem), bp, chain, bep, d) && bep < dev.frontier && d < dev.frontier
      ensures old(dev.frontier) <= dev.frontier
      ensures dev.mem == After(old(dev.mem), PutStores(old(dev.mem), bp, bep, d, key, buf), 5)
      ensures dev.journal == old(dev.journal) + PutStores(old(dev.mem), bp, bep, d, key, buf)[..5]
    {
      bep := dev.TBPAlloc(32);
      var data := dev.TBPAlloc(|buf|);
      d := data;
      AllStores(dev.mem, PutStores(dev.mem, bp, bep, d, key, buf));
      dev.TBPSet(bep, Data, data);
      dev.TBPStore(StoreBytes(data, buf));
      dev.TBPSet(bep, Next, 0);
      dev.TBPSet(bep, Key, key);
      dev.TBPSet(bep, Size, |buf|);
    }

    /** The last three: link the entry, move the tail, count its bytes. */
    method LinkEntry(bep: nat, count: nat)
      requires dev.mem.Defined(bp, Tail) && dev.mem.Defined(bp, BytesWritten) && bep != bp
      requires dev.mem.Word(bp, Tail) != bp
      modifies dev`mem, dev`journal
      ensures var link := if old(dev.mem).Word(bp, Tail) == 0 then StoreWord(Loc(bp, Head), bep)
                          else StoreWord(Loc(old(dev.mem).Word(bp, Tail), Next), bep);
        var moved := StoreWord(Loc(bp, Tail), bep);
        var counted := StoreWord(Loc(bp, BytesWritten), Wrap64(old(dev.mem).Word(bp, BytesWritten) + count));
        && dev.mem == Apply(Apply(Apply(old(dev.mem), link), moved), counted)
        && dev.journal == old(dev.journal) + [link, moved, counted]
    {
      var tail := dev.TBPGet(bp, Tail);
      if tail == 0 {
        dev.TBPSet(bp, Head, bep);
      } else {
        dev.TBPSet(tail, Next, bep);
      }
      dev.TBPSet(bp, Tail, bep);
      dev.TBPAdd(bp, BytesWritten, count);
    }

    /** The stores of put, all eight. */
    method StoreEntry(key: nat, buf: seq<Byte>) returns (bep: nat, ghost d: nat)
      requires LogValid()
      modifies dev
      ensures Fresh(old(dev.mem), bp, chain, bep, d) && bep < dev.frontier && d < dev.frontier
      ensures old(dev.frontier) <= dev.frontier
      ensures dev.mem == After(old(dev.mem), PutStores(old(dev.mem), bp, bep, d, key, buf), 8)
      ensures dev.journal == old(dev.journal) + PutStores(old(dev.mem), bp, bep, d, key, buf)
    {
      ghost var m := dev.mem;
      bep, d := PrepareEntry(key, buf);
      ReadyToLink(m, bp, chain, bep, d, key, buf);
      LinkEntry(bep, |buf|);
      AllStores(m, PutStores(m, bp, bep, d, key, buf));
    }

    /** The persistent half of put. */
    method AppendEntry(key: nat, buf: seq<Byte>) returns (bep: nat, ghost d: nat)
      requires LogValid()
      modifies dev, `chain
      ensures LogValid() && chain == old(chain) + [bep]
      ensures Fresh(old(dev.mem), bp, old(chain), bep, d)
      ensures dev.journal == old(dev.journal) + PutStores(old(dev.mem), bp, bep, d, key, buf)
      ensures Log() == old(Log()) + [Entry(key, d, buf)]
      ensures Initialised(dev.mem, bep) && EntryOf(dev.mem, bep) == Entry(key, d, buf)
    {
      ghost var m := dev.mem;
      bep, d := StoreEntry(key, buf);
      PutCommits(m, bp, chain, bep, d, key, buf);
      LastEntry(dev.mem, dev.mem.Word(bp, Head), chain, bep);
      chain := chain + [bep];
    }

    /** update_meta, from the fields of the persistent entry. */
    method IndexEntry(bep: nat, ghost log: seq<Entry>, ghost e: Entry) returns (rc: int)
      requires Initialised(dev.mem, bep) && EntryOf(dev.mem, bep) == e && index.Valid(log)
      modifies index
      ensures index.Valid(log + [e]) && rc == 0
    {
      var key := dev.TBPGet(bep, Key);
      var off := dev.TBPGet(bep, Data);
      var size := dev.TBPGet(bep, Size);
      rc := index.UpdateMeta(key, off, size, log, e);
    }

    /** put: one more block under the key, and every other key as before. */
    method Put(key: seq<Byte>, buf: seq<Byte>) returns (rc: int, ghost bep: nat, ghost d: nat)
      requires Valid()
      modifies this, dev, index
      ensures Valid() && rc == 0
      ensures Log() == old(Log()) + [Entry(hash(key), d, buf)]
      ensures forall k: nat ::
        Stored(Log(), k) == (if k == hash(key) then Stored(old(Log()), k) + [buf] else Stored(old(Log()), k))
      ensures Fresh(old(dev.mem), bp, old(chain), bep, d)
      ensures dev.journal == old(dev.journal) + PutStores(old(dev.mem), bp, bep, d, hash(key), buf)
    {
      hide Kv.LogValid, Kv.Log, Fresh, PutStores, Index.Valid, Initialised;
      var entry, data := AppendEntry(hash(key), buf);
      bep, d := entry, data;
      rc := IndexEntry(entry, old(Log()), Entry(hash(key), d, buf));
      StoredUnderEach(old(Log()), Entry(hash(key), d, buf));
    }

    /** One round of get's loop. */
    method CopyBlock(bm: nat, mb: array<Byte>, readOffset: nat, ghost before: seq<Byte>, ghost copied: seq<Byte>)
      requires bm in index.metas && index.metas[bm].off in dev.mem.buffers
      requires |before| == mb.Length && readOffset == |copied|
      requires readOffset + |dev.mem.buffers[index.metas[bm].off]| <= mb.Length
      requires mb[..] == Overlay(before, 0, copied)
      modifies mb
      ensures mb[..] == Overlay(before, 0, copied + dev.mem.buffers[index.metas[bm].off])
    {
      OverlayExtends(before, copied, dev.mem.buffers[index.metas[bm].off]);
      MemCpy(mb, readOffset, dev.mem.buffers[index.metas[bm].off]);
    }

    /** The loop of get, from the first node of a list on. */
    method CopyBlocks(first: nat, mb: array<Byte>, size: nat, ghost ns: seq<nat>, ghost blocks: seq<seq<Byte>>)
      requires Readable(index.metas, dev.mem.buffers, ns, blocks) && first == (if ns == [] then 0 else ns[0])
      requires size <= mb.Length
      modifies mb
      ensures mb[..] == Overlay(old(mb[..]), 0, Fitting(blocks, size))
    {
      var bm := first;
      var readOffset: nat := 0;
      ghost var i, copied, before := 0, [], mb[..];
      CopiedNone(blocks, size);
      while bm != 0 && readOffset + index.metas[bm].size <= size
        invariant i <= |ns| && bm == (if i < |ns| then ns[i] else 0)
        invariant i < |ns| ==> ReadableNode(index.metas, dev.mem.buffers, ns, blocks, i)
        invariant Copied(blocks, i, copied, size)
        invariant readOffset == |copied| && mb[..] == Overlay(before, 0, copied)
        decreases |ns| - i
      {
        CopiedOne(blocks, i, copied, size);
        CopyBlock(bm, mb, readOffset, before, copied);
        copied := copied + blocks[i];
        readOffset := readOffset + index.metas[bm].size;
        bm := index.metas[bm].next;
        i := i + 1;
      }
      CopiedAll(blocks, i, copied, size);
    }

    /** get: copies the longest run of whole blocks that fits, and refuses an unknown key. */
    method Get(key: seq<Byte>, mb: array<Byte>, size: nat) returns (rc: int)
      requires Valid() && size <= mb.Length
      modifies mb
      ensures rc == if Stored(Log(), hash(key)) == [] then -1 else 0
      ensures rc == -1 ==> mb[..] == old(mb[..])
      ensures rc == 0 ==> mb[..] == Overlay(old(mb[..]), 0, Fitting(Stored(Log(), hash(key)), size))
    {
      var k := hash(key);
      IndexedIffStored(k);
      if k !in index.indexMap {
        return -1;
      }
      CopyBlocks(index.lists[index.indexMap[k]].head, mb, size, index.nodes[k], Stored(Log(), k));
      rc := 0;
    }

    /** The index lists a key exactly when the log has blocks of it, with head, totals and nodes right. */
    lemma IndexedIffStored(k: nat)
      requires Valid()
      ensures k in index.indexMap <==> Stored(Log(), k) != []
      ensures k in index.indexMap ==>
        && index.indexMap[k] in index.lists && k in index.nodes
        && Readable(index.metas, dev.mem.buffers, index.nodes[k], Stored(Log(), k))
        && var l := index.lists[index.indexMap[k]];
          l.head == index.nodes[k][0] && l.totalSize == |Flatten(Stored(Log(), k))| && l.length == |Stored(Log(), k)|
    {
      var x, es := index.View(), OfKey(Log(), k);
      assert k in x.index.Keys <==> es != [];
      if k in index.indexMap {
        assert KeyOk(x, k, es);
        forall i | 0 <= i < |es|
          ensures ReadableNode(index.metas, dev.mem.buffers, index.nodes[k], Stored(Log(), k), i)
        {
          assert NodeOk(x, k, x.nodes[k], es, i);
          assert i + 1 < |es| ==> NodeOk(x, k, x.nodes[k], es, i + 1);
          BlockIsStored(k, i);
        }
        TotalIsFlat(es);
      }
    }

    lemma BlockIsStored(k: nat, i: nat)
      requires LogValid() && i < |OfKey(Log(), k)|
      ensures var e := OfKey(Log(), k)[i]; e.off in dev.mem.buffers && dev.mem.buffers[e.off] == e.bytes
    {
      OfKeyIn(Log(), k, i);
      var j :| 0 <= j < |Log()| && Log()[j] == OfKey(Log(), k)[i];
      assert Step(dev.mem, chain, j);
    }

    method GetValueSize(key: seq<Byte>) returns (rc: int, size: nat)
      requires Valid()
      ensures rc == (if Stored(Log(), hash(key)) == [] then -1 else 0)
      ensures size == |Flatten(Stored(Log(), hash(key)))|
    {
      var k := hash(key);
      IndexedIffStored(k);
      if k !in index.indexMap {
        return -1, 0;
      }
      return 0, index.lists[index.indexMap[k]].totalSize;
    }

    method GetMetaSize(key: seq<Byte>) returns (rc: int, size: nat)
      requires Valid()
      ensures rc == (if Stored(Log(), hash(key)) == [] then -1 else 0)
      ensures size == |Stored(Log(), hash(key))|
    {
      var k := hash(key);
      IndexedIffStored(k);
      if k !in index.indexMap {
        return -1, 0;
      }
      return 0, index.lists[index.indexMap[k]].length;
    }

    /** The loop of get_meta. */
    method CollectMeta(first: nat, ghost ns: seq<nat>, ghost bs: seq<seq<Byte>>) returns (blocks: seq<(nat, nat)>)
      requires Readable(index.metas, dev.mem.buffers, ns, bs) && first == (if ns == [] then 0 else ns[0])
      ensures Locates(blocks, dev.mem.buffers, bs)
    {
      blocks := [];
      var next := first;
      ghost var i := 0;
      while next != 0
        invariant i <= |ns| && next == (if i < |ns| then ns[i] else 0)
        invariant Locates(blocks, dev.mem.buffers, bs[..i])
        decreases |ns| - i
      {
        assert ReadableNode(index.metas, dev.mem.buffers, ns, bs, i);
        blocks := blocks + [(index.metas[next].off, index.metas[next].size)];
        next := index.metas[next].next;
        i := i + 1;
      }
      assert i < |ns| ==> ReadableNode(index.metas, dev.mem.buffers, ns, bs, i);
      assert bs[..i] == bs;
    }

    /** get_meta: the addresses and sizes of the blocks under the key, in order, two words each. For an
        unknown key nothing is written, and the caller's length field is left as it was. */
    method GetMeta(key: seq<Byte>, length: nat) returns (rc: int, blocks: seq<(nat, nat)>, newLength: nat)
      requires Valid()
      ensures rc == 0 && Locates(blocks, dev.mem.buffers, Stored(Log(), hash(key)))
      ensures newLength == if Stored(Log(), hash(key)) == [] then length else 2 * |blocks|
    {
      var k := hash(key);
      IndexedIffStored(k);
      if k !in index.indexMap {
        return 0, [], length;
      }
      blocks := CollectMeta(index.lists[index.indexMap[k]].head, index.nodes[k], Stored(Log(), k));
      rc, newLength := 0, 2 * |blocks|;
    }

    /** The walk of dump_all: it ends, and visits the log. */
    method DumpAll() returns (entries: seq<(nat, seq<Byte>)>)
      requires LogValid()
      ensures |entries| == |Log()|
      ensures forall i :: 0 <= i < |entries| ==> entries[i] == (Log()[i].key, Log()[i].bytes)
    {
      entries := [];
      var next := dev.TBPGet(bp, Head);
      ghost var i := 0;
      assert chain != [] ==> Step(dev.mem, chain, 0);
      while next != 0
        invariant i <= |chain| && next == (if i < |chain| then chain[i] else 0) && (next == 0 ==> i == |chain|)
        invariant |entries| == i && forall j :: 0 <= j < i ==> entries[j] == (Log()[j].key, Log()[j].bytes)
        decreases |chain| - i
      {
        assert Step(dev.mem, chain, i);
        assert i + 1 < |chain| ==> Step(dev.mem, chain, i + 1);
        var dataAddr := dev.TBPGet(next, Data);
        var dataSize := dev.TBPGet(next, Size);
        var dataKey := dev.TBPGet(next, Key);
        var dataNext := dev.TBPGet(next, Next);
        entries := entries + [(dataKey, dev.mem.buffers[dataAddr][..dataSize])];
        assert Log()[i] == EntryOf(dev.mem, chain[i]);
        assert dev.mem.buffers[dataAddr][..dataSize] == dev.mem.buffers[dataAddr];
        next := dataNext;
        i := i + 1;
      }
    }

    /** One round of it. */
    method Discount(ghost m: Mem, size: nat, ghost total: nat)
      requires dev.mem == Apply(m, StoreWord(Loc(bp, BytesWritten), Wrap64(total))) && size <= total
      modifies dev`mem, dev`journal
      ensures dev.mem == Apply(m, StoreWord(Loc(bp, BytesWritten), Wrap64(total - size)))
    {
      hide Wrap64;
      WrapAgain(total, 0 - size);
      dev.TBPSub(bp, BytesWritten, size);
    }

    /** The walk of free_all: every entry's size is taken off bytes_written, which ends at zero. */
    method DiscountEntries()
      requires LogValid()
      modifies dev`mem, dev`journal
      ensures dev.mem == Apply(old(dev.mem), StoreWord(Loc(bp, BytesWritten), 0))
    {
      hide Wrap64;
      ghost var m, log, i := dev.mem, Log(), 0;
      var nextBep := dev.TBPGet(bp, Head);
      assert log[0..] == log;
      assert m.words[Loc(bp, BytesWritten) := Wrap64(TotalSize(log[0..]))] == m.words;
      NodeSize(m, chain, 0);
      while nextBep != 0
        invariant i <= |chain| && nextBep == (if i < |chain| then chain[i] else 0)
        invariant i < |chain| ==> Step(m, chain, i)
        invariant dev.mem == Apply(m, StoreWord(Loc(bp, BytesWritten), Wrap64(TotalSize(log[i..]))))
        decreases |chain| - i
      {
        NodeSize(m, chain, i);
        var size := dev.TBPGet(nextBep, Size);
        nextBep := dev.TBPGet(nextBep, Next);
        Discount(m, size, TotalSize(log[i..]));
        i := i + 1;
        NodeSize(m, chain, i);
      }
      assert log[i..] == [];
    }

    /** The persistent half of free_all. */
    method ClearLog()
      requires LogValid()
      modifies dev`mem, dev`journal, `chain
      ensures LogValid() && chain == [] && dev.mem.Word(bp, BytesWritten) == 0
    {
      DiscountEntries();
      dev.TBPSet(bp, Head, 0);
      dev.TBPSet(bp, Tail, 0);
      chain := [];
    }

    /** free_all: an empty log, an empty index, nothing counted. */
    method FreeAll() returns (rc: int)
      requires Valid()
      modifies this, dev, index
      ensures Valid() && rc == 0 && Log() == []
      ensures index.indexMap == map[] && index.metas == map[] && index.lists == map[] && index.bytesAllocated == 0
      ensures dev.mem.Word(bp, BytesWritten) == 0
    {
      ClearLog();
      rc := index.FreeMeta(old(Log()));
    }

    /** What the destructor does: free_meta again, on whatever free_all left. */
    method Close()
      requires Valid()
      modifies index
      ensures index.indexMap == map[] && index.metas == map[] && index.lists == map[] && index.bytesAllocated == 0
      ensures Log() == [] ==> Valid()
    {
      var rc := index.FreeMeta(Log());
    }
  }
}
