/** core/.../nvm/nvmInputStream.scala: the blocks stored under an id, reassembled by a PmemBuffer. */
module InputStreams {
  import opened Bytes
  import opened Pmem
  import opened PmemBuffers
  import opened PmemKv

  /** The stream's fields. `remaining` is the buffer's own count; the blocks from `index` on are not
      yet loaded. */
  datatype Reader = Reader(buf: Buf, blocks: seq<seq<Byte>>, index: nat, available: int) {
    predicate Valid() {
      buf.Valid() && index <= |blocks| && buf.Remaining() + |Flatten(blocks[index..])| <= INT_MAX
    }
    /** What the stream still has to give. */
    function Unread(): seq<Byte> requires Valid() { buf.Contents() + Flatten(blocks[index..]) }
    /** Everything left is in the buffer, and counted as available. */
    predicate Loaded() { Valid() && index == |blocks| && available == buf.Remaining() }
  }

  lemma FlattenNext(blocks: seq<seq<Byte>>, index: nat)
    requires index < |blocks|
    ensures Flatten(blocks[index..]) == blocks[index] + Flatten(blocks[index + 1..])
  {
    assert blocks[index..][1..] == blocks[index + 1..];
  }

  /** A buffer that never has to hold more than is unread has room for the next block. */
  lemma NextFits(r: Reader)
    requires r.Valid() && r.index < |r.blocks|
    ensures LoadFits(r.buf, r.blocks[r.index])
  {
    FlattenNext(r.blocks, r.index);
  }

  /** loadNextStream. */
  function LoadNext(r: Reader): Reader
    requires r.Valid()
  {
    if r.index >= |r.blocks| then r
    else NextFits(r); r.(buf := AfterLoad(r.buf, r.blocks[r.index]), index := r.index + 1)
  }

  lemma LoadCounts(b: Buf, data: seq<Byte>)
    requires b.Valid() && LoadFits(b, data)
    ensures AfterLoad(b, data).Valid() && AfterLoad(b, data).Remaining() == b.Remaining() + |data|
  {
    RoomForLoad(b, |data|);
    hide Kept, LoadCapacity;
  }

  lemma LoadNextValid(r: Reader)
    requires r.Valid()
    ensures LoadNext(r).Valid()
  {
    hide AfterLoad, Flatten;
    if r.index < |r.blocks| {
      NextFits(r);
      FlattenNext(r.blocks, r.index);
      LoadCounts(r.buf, r.blocks[r.index]);
    }
  }

  function NextLength(r: Reader): nat { if r.index >= |r.blocks| then 0 else |r.blocks[r.index]| }

  /** Loading moves a block into the buffer, and nothing else, when the read cursor is at the front
      or the buffer is empty. */
  lemma LoadNextKeeps(r: Reader)
    requires r.Valid() && (r.buf.pos == 0 || r.buf.Remaining() == 0)
    ensures LoadNext(r).Valid() && LoadNext(r).Unread() == r.Unread()
    ensures LoadNext(r).buf.Contents() == r.buf.Contents() + (if r.index < |r.blocks| then r.blocks[r.index] else [])
    ensures LoadNext(r).buf.pos == 0 || LoadNext(r).buf.Remaining() == 0
  {
    if r.index < |r.blocks| {
      NextFits(r);
      FlattenNext(r.blocks, r.index);
      var block, rest := r.blocks[r.index], Flatten(r.blocks[r.index + 1..]);
      BufferAppends(r.buf, block);
      assert r.buf.Contents() + block + rest == r.buf.Contents() + (block + rest);
    }
  }

  lemma BufferAppends(b: Buf, data: seq<Byte>)
    requires b.Valid() && LoadFits(b, data) && (b.pos == 0 || b.Remaining() == 0)
    ensures AfterLoad(b, data).Valid() && AfterLoad(b, data).Contents() == b.Contents() + data
    ensures AfterLoad(b, data).pos == 0 || AfterLoad(b, data).Remaining() == 0
  {
    LoadAppendsWhen(b, data);
  }

  predicate Wants(r: Reader, len: int) requires r.Valid() { 0 < r.buf.Remaining() < len || r.buf.Remaining() == 0 }

  /** load: blocks are loaded until `len` bytes are there, or one is missing or empty. */
  function LoadUpTo(r: Reader, len: int): Reader
    requires r.Valid() && (r.buf.pos == 0 || r.buf.Remaining() == 0)
    decreases |r.blocks| - r.index
  {
    LoadNextKeeps(r);
    if !Wants(r, len) then r
    else if NextLength(r) == 0 then LoadNext(r)
    else LoadUpTo(LoadNext(r), len)
  }

  /** A new stream before its first load: a buffer of the size of the whole value. */
  function Opening(blocks: seq<seq<Byte>>): (r: Reader)
    requires |Flatten(blocks)| <= INT_MAX
    ensures r.Valid() && r.Unread() == Flatten(blocks)
  {
    assert blocks[0..] == blocks;
    Reader(Buf(|Flatten(blocks)|, [], 0, 0, 0), blocks, 0, |Flatten(blocks)|)
  }

  function Opened(blocks: seq<seq<Byte>>): Reader
    requires |Flatten(blocks)| <= INT_MAX
  {
    LoadUpTo(Opening(blocks), |Flatten(blocks)|)
  }

  /** The blocks before the first empty one. */
  function Leading(blocks: seq<seq<Byte>>): seq<seq<Byte>> {
    if blocks == [] || blocks[0] == [] then [] else [blocks[0]] + Leading(blocks[1..])
  }

  lemma {:induction false} LeadingIsShorter(blocks: seq<seq<Byte>>)
    ensures |Flatten(Leading(blocks))| <= |Flatten(blocks)|
  {
    if blocks != [] && blocks[0] != [] {
      LeadingIsShorter(blocks[1..]);
      assert Leading(blocks)[1..] == Leading(blocks[1..]);
    }
  }

  lemma {:induction false} LeadingIsAll(blocks: seq<seq<Byte>>)
    requires [] !in blocks
    ensures Leading(blocks) == blocks
  {
    if blocks != [] {
      assert blocks[0] in blocks;
      assert forall b :: b in blocks[1..] ==> b in blocks;
      LeadingIsAll(blocks[1..]);
      assert [blocks[0]] + blocks[1..] == blocks;
    }
  }

  lemma LeadingNext(before: seq<Byte>, blocks: seq<seq<Byte>>, index: nat)
    requires index < |blocks| && blocks[index] != []
    ensures before + Flatten(Leading(blocks[index..])) == before + blocks[index] + Flatten(Leading(blocks[index + 1..]))
  {
    assert blocks[index..][1..] == blocks[index + 1..];
    assert Leading(blocks[index..])[1..] == Leading(blocks[index + 1..]);
  }

  lemma {:induction false} LoadUpToLoads(r: Reader, len: int)
    requires r.Valid() && r.buf.pos == 0 && len == |r.Unread()|
    ensures LoadUpTo(r, len).Valid() && LoadUpTo(r, len).Unread() == r.Unread()
    ensures LoadUpTo(r, len).buf.Contents() == r.buf.Contents() + Flatten(Leading(r.blocks[r.index..]))
    ensures LoadUpTo(r, len).available == r.available
    ensures LoadUpTo(r, len).blocks == r.blocks
    decreases |r.blocks| - r.index
  {
    LoadNextKeeps(r);
    LeadingIsShorter(r.blocks[r.index..]);
    if Wants(r, len) {
      if NextLength(r) != 0 {
        LoadUpToLoads(LoadNext(r), len);
        LeadingNext(r.buf.Contents(), r.blocks, r.index);
      } else {
        assert Leading(r.blocks[r.index..]) == [];
      }
    }
  }

  /** Nothing but empty blocks behind an empty one. */
  predicate EmptyLast(blocks: seq<seq<Byte>>) {
    forall i, j :: 0 <= i < j < |blocks| && blocks[i] == [] ==> blocks[j] == []
  }

  lemma {:induction false} FlatEmptyIff(blocks: seq<seq<Byte>>)
    ensures Flatten(blocks) == [] <==> forall j :: 0 <= j < |blocks| ==> blocks[j] == []
  {
    if blocks != [] {
      FlatEmptyIff(blocks[1..]);
      assert forall j :: 0 < j < |blocks| ==> blocks[j] == blocks[1..][j - 1];
    }
  }

  lemma {:induction false} LeadingIsAllIff(blocks: seq<seq<Byte>>)
    ensures Flatten(Leading(blocks)) == Flatten(blocks) <==> EmptyLast(blocks)
  {
    if blocks == [] {
    } else if blocks[0] == [] {
      FlatEmptyIff(blocks);
    } else {
      LeadingIsAllIff(blocks[1..]);
      EmptyLastCons(blocks);
      assert Leading(blocks)[1..] == Leading(blocks[1..]);
      SamePrefixIff(blocks[0], Flatten(Leading(blocks[1..])), Flatten(blocks[1..]));
    }
  }

  lemma EmptyLastCons(blocks: seq<seq<Byte>>)
    requires blocks != [] && blocks[0] != []
    ensures EmptyLast(blocks) <==> EmptyLast(blocks[1..])
  {
    if EmptyLast(blocks[1..]) {
      forall i, j | 0 <= i < j < |blocks| && blocks[i] == [] ensures blocks[j] == [] {
        assert blocks[1..][i - 1] == blocks[i] && blocks[1..][j - 1] == blocks[j];
      }
    }
  }

  lemma SamePrefixIff(x: seq<Byte>, a: seq<Byte>, b: seq<Byte>)
    ensures x + a == x + b <==> a == b
  {
    assert (x + a)[|x|..] == a && (x + b)[|x|..] == b;
  }

  /** A new stream holds everything before the first empty block: all of the value exactly when only
      empty blocks follow one. With no empty block it is loaded to the end. */
  lemma OpenLoads(blocks: seq<seq<Byte>>)
    requires |Flatten(blocks)| <= INT_MAX
    ensures Opened(blocks).Valid() && Opened(blocks).Unread() == Flatten(blocks)
    ensures Opened(blocks).buf.Contents() == Flatten(Leading(blocks))
    ensures Opened(blocks).buf.Contents() == Flatten(blocks) <==> EmptyLast(blocks)
    ensures [] !in blocks ==> Opened(blocks).Loaded() && Opened(blocks).available == |Flatten(blocks)|
    ensures [] !in blocks ==> EmptyLast(blocks)
  {
    assert forall i :: 0 <= i < |blocks| ==> blocks[i] in blocks;
    var r := Opening(blocks);
    assert r.blocks[r.index..] == blocks && r.buf.Contents() == [];
    LoadUpToLoads(r, |Flatten(blocks)|);
    assert [] + Flatten(Leading(blocks)) == Flatten(Leading(blocks));
    LeadingIsAllIff(blocks);
    UnreadSplit(Opened(blocks));
    if [] !in blocks {
      LeadingIsAll(blocks);
      if Opened(blocks).index < |blocks| {
        NotAllLoaded(Opened(blocks));
      }
    }
  }

  /** Behind an empty block nothing is loaded, and the first array read reports the end. */
  lemma OpenMisses(x: Byte)
    ensures Flatten([[], [x]]) == [x]
    ensures var r := Opened([[], [x]]); r.Valid() && r.buf.Contents() == [] && AnswerTo(r, Array(1)) == End
  {
    assert [[], [x]][1..] == [[x]];
    assert Flatten([[x]]) == [x] + Flatten([]);
    OpenLoads([[], [x]]);
    assert Leading([[], [x]]) == [];
  }

  /** The next single-byte read finds the byte: the empty block has been passed. */
  lemma OpenGoesOn(x: Byte)
    ensures Flatten([[], [x]]) == [x]
    ensures var r := Opened([[], [x]]); r.Valid() && r.index == 1 && AnswerTo(r, OneByte) == Bytes([x])
  {
    OpenMisses(x);
    var o, r := Opening([[], [x]]), Opened([[], [x]]);
    assert NextLength(o) == 0 && Wants(o, 1);
    assert r == LoadNext(o);
    ByteEndsIff(r);
    assert r.blocks == [[], [x]] && r.index == 1;
    assert r.blocks[r.index..] == [[x]];
    assert Flatten([[x]]) == [x] + Flatten([]);
    assert r.Unread() == [x];
  }

  /** The buffered bytes are the first of the unread ones. */
  lemma UnreadSplit(r: Reader)
    requires r.Valid()
    ensures r.buf.Contents() == r.Unread()[..r.buf.Remaining()]
    ensures r.buf.Remaining() == |r.Unread()| ==> r.buf.Contents() == r.Unread()
  {
  }

  lemma NotAllLoaded(r: Reader)
    requires r.Valid() && r.index < |r.blocks| && [] !in r.blocks
    ensures r.buf.Remaining() < |r.Unread()|
  {
    FlattenNext(r.blocks, r.index);
    assert r.blocks[r.index] in r.blocks;
  }

  // ---- reading ----

  /** read() and read(bytes, off, len). */
  datatype Request = OneByte | Array(len: nat)

  /** -1, or the bytes handed over. */
  datatype Answer = End | Bytes(bytes: seq<Byte>)

  function Take(r: Reader, n: nat): Reader
    requires r.Valid()
  {
    r.(buf := AfterRead(r.buf, n), available := r.available - n)
  }

  function First(r: Reader, n: nat): seq<Byte>
    requires r.Valid()
  {
    r.buf.Contents()[..Min(n, r.buf.Remaining())]
  }

  function AnswerTo(r: Reader, q: Request): Answer
    requires r.Valid()
  {
    match q
    case OneByte =>
      if r.buf.Remaining() > 0 then Bytes(First(r, 1))
      else if NextLength(r) == 0 then End
      else LoadNextKeeps(r); Bytes(First(LoadNext(r), 1))
    case Array(len) =>
      if r.buf.Remaining() == 0 then End else Bytes(First(r, len))
  }

  function AfterRequest(r: Reader, q: Request): Reader
    requires r.Valid()
  {
    match q
    case OneByte =>
      if r.buf.Remaining() > 0 then Take(r, 1)
      else if NextLength(r) == 0 then LoadNext(r)
      else LoadNextKeeps(r); Take(LoadNext(r), 1)
    case Array(len) =>
      if r.buf.Remaining() == 0 then r else Take(r, Min(len, r.buf.Remaining()))
  }

  function Given(a: Answer): seq<Byte> { if a.End? then [] else a.bytes }

  lemma TakeKeeps(r: Reader, n: nat)
    requires r.Valid()
    ensures Take(r, n).Valid() && First(r, n) + Take(r, n).Unread() == r.Unread()
    ensures |First(r, n)| == Min(n, r.buf.Remaining())
    ensures r.Loaded() && n <= r.buf.Remaining() ==> Take(r, n).Loaded()
  {
    ReadTakes(r.buf, n);
    var rest := Flatten(r.blocks[r.index..]);
    assert First(r, n) + (Take(r, n).buf.Contents() + rest) == First(r, n) + Take(r, n).buf.Contents() + rest;
  }

  /** No request loses, repeats or reorders a byte. */
  lemma RequestKeeps(r: Reader, q: Request)
    requires r.Valid()
    ensures AfterRequest(r, q).Valid()
    ensures Given(AnswerTo(r, q)) + AfterRequest(r, q).Unread() == r.Unread()
  {
    match q {
      case OneByte =>
        if r.buf.Remaining() > 0 {
          TakeKeeps(r, 1);
        } else {
          LoadNextKeeps(r);
          TakeKeeps(LoadNext(r), 1);
          assert [] + LoadNext(r).Unread() == LoadNext(r).Unread();
        }
      case Array(len) =>
        TakeKeeps(r, Min(len, r.buf.Remaining()));
        assert [] + r.Unread() == r.Unread();
    }
  }

  /** An array read takes what is loaded, and reports the end exactly when nothing is. */
  lemma ArrayTakes(r: Reader, len: nat)
    requires r.Valid()
    ensures AfterRequest(r, Array(len)).Valid()
    ensures Given(AnswerTo(r, Array(len))) + AfterRequest(r, Array(len)).buf.Contents() == r.buf.Contents()
    ensures AnswerTo(r, Array(len)).End? <==> r.buf.Contents() == []
    ensures |Given(AnswerTo(r, Array(len)))| == Min(len, r.buf.Remaining())
  {
    ReadTakes(r.buf, Min(len, r.buf.Remaining()));
    assert [] + r.buf.Contents() == r.buf.Contents();
  }

  /** A single-byte read reports the end exactly when nothing is loaded and the next block is missing or
      empty, and then stands behind the empty block; else it gives the next unread byte, loading the
      block if it has to. */
  lemma ByteEndsIff(r: Reader)
    requires r.Valid()
    ensures AnswerTo(r, OneByte).End? <==>
      r.buf.Contents() == [] && (r.index >= |r.blocks| || r.blocks[r.index] == [])
    ensures !AnswerTo(r, OneByte).End? ==> r.Unread() != [] && Given(AnswerTo(r, OneByte)) == [r.Unread()[0]]
    ensures AnswerTo(r, OneByte).End? && r.index < |r.blocks| ==> AfterRequest(r, OneByte).index == r.index + 1
  {
    RequestKeeps(r, OneByte);
    if r.buf.Remaining() == 0 {
      LoadNextKeeps(r);
    }
  }

  function Wanted(q: Request): nat { if q.OneByte? then 1 else q.len }

  /** A loaded stream stays loaded, hands over as much as is asked for and left, and reports its end
      exactly when nothing is left. */
  lemma LoadedAnswers(r: Reader, q: Request)
    requires r.Loaded()
    ensures AfterRequest(r, q).Loaded()
    ensures AnswerTo(r, q).End? <==> r.Unread() == []
    ensures Given(AnswerTo(r, q)) == r.Unread()[..Min(Wanted(q), |r.Unread()|)]
    ensures AfterRequest(r, q).Unread() == r.Unread()[Min(Wanted(q), |r.Unread()|)..]
  {
    assert Flatten(r.blocks[r.index..]) == [];
    assert r.buf.Contents() == r.Unread();
    var n := Min(Wanted(q), r.buf.Remaining());
    TakeKeeps(r, n);
    assert First(r, n) == r.Unread()[..n] && Take(r, n).Unread() == r.Unread()[n..];
  }

  function Answers(r: Reader, qs: seq<Request>): seq<Byte>
    requires r.Valid()
    decreases |qs|
  {
    if qs == [] then []
    else RequestKeeps(r, qs[0]); Given(AnswerTo(r, qs[0])) + Answers(AfterRequest(r, qs[0]), qs[1..])
  }

  function AllWanted(qs: seq<Request>): nat { if qs == [] then 0 else Wanted(qs[0]) + AllWanted(qs[1..]) }

  lemma Cut(s: seq<Byte>, a: nat, b: nat)
    ensures s[..Min(a, |s|)] + s[Min(a, |s|)..][..Min(b, |s[Min(a, |s|)..]|)] == s[..Min(a + b, |s|)]
  {
  }

  lemma PrefixGrows(a: seq<Byte>, b: seq<Byte>, c: seq<Byte>)
    requires b <= c
    ensures a + b <= a + c
  {
  }

  /** Any sequence of reads hands over the unread bytes in order: a prefix of them, and from a loaded
      stream exactly as many as are asked for and there. */
  lemma {:induction false} ReadsInOrder(r: Reader, qs: seq<Request>)
    requires r.Valid()
    ensures Answers(r, qs) <= r.Unread()
    ensures r.Loaded() ==> Answers(r, qs) == r.Unread()[..Min(AllWanted(qs), |r.Unread()|)]
    decreases |qs|
  {
    hide AfterRequest, AnswerTo, Given, Wanted;
    if qs != [] {
      RequestKeeps(r, qs[0]);
      var v := AfterRequest(r, qs[0]);
      ReadsInOrder(v, qs[1..]);
      PrefixGrows(Given(AnswerTo(r, qs[0])), Answers(v, qs[1..]), v.Unread());
      if r.Loaded() {
        LoadedAnswers(r, qs[0]);
        Cut(r.Unread(), Wanted(qs[0]), AllWanted(qs[1..]));
      }
    }
  }

  // ---- the object ----

  class InputStream {
    const dev: Device
    const blockInfo: seq<(nat, nat)>
    const buf: PmemBuffer
    ghost const blocks: seq<seq<Byte>>
    var index: nat
    var remaining: nat
    var availableBytes: int

    /** The addresses still lead to the blocks that are to be loaded. */
    ghost predicate Mapped()
      reads dev
    {
      Locates(blockInfo, dev.mem.buffers, blocks)
    }

    ghost predicate Valid()
      reads this, buf, buf.bufData
    {
      && buf.Valid() && remaining == buf.remaining && |blockInfo| == |blocks|
      && Reader(buf.State(), blocks, index, availableBytes).Valid()
    }

    ghost function State(): (r: Reader)
      requires Valid()
      reads this, buf, buf.bufData
      ensures r.Valid()
    {
      Reader(buf.State(), blocks, index, availableBytes)
    }

    constructor (kv: Kv, blockId: seq<Byte>)
      requires kv.Valid() && Stored(kv.Log(), kv.hash(blockId)) != []
      requires |Flatten(Stored(kv.Log(), kv.hash(blockId)))| <= INT_MAX
      ensures Valid() && Mapped() && dev == kv.dev && fresh(buf) && fresh(buf.bufData)
      ensures State() == Opened(Stored(kv.Log(), kv.hash(blockId)))
    {
      hide Kv.Valid;
      var none, info, length := kv.GetMeta(blockId, 0);
      var rc, size := kv.GetValueSize(blockId);
      dev, blockInfo, blocks := kv.dev, info, Stored(kv.Log(), kv.hash(blockId));
      index, remaining, availableBytes := 0, 0, size;
      var b := new PmemBuffer(size);
      buf := b;
      new;
      hide Flatten, LoadUpTo, Locates;
      assert State() == Opening(blocks);
      Load(size);
    }

    method LoadNextStream() returns (n: nat)
      requires Valid() && Mapped()
      modifies this, buf, buf.bufData
      ensures Valid() && n == NextLength(old(State())) && State() == LoadNext(old(State()))
      ensures buf.bufData != old(buf.bufData) ==> fresh(buf.bufData)
    {
      if index >= |blockInfo| {
        return 0;
      }
      ghost var r := State();
      NextFits(r);
      LoadNextValid(r);
      var block := dev.mem.buffers[blockInfo[index].0][..blockInfo[index].1];
      assert block == blocks[index];
      assert LoadNext(r) == Reader(AfterLoad(r.buf, block), blocks, index + 1, availableBytes);
      hide AfterLoad, Flatten, Locates, LoadNext, LoadFits;
      n := LoadBlock(block);
    }

    /** The block goes into the buffer. */
    method LoadBlock(block: seq<Byte>) returns (n: nat)
      requires buf.Valid() && remaining == buf.remaining && LoadFits(buf.State(), block)
      modifies `index, `remaining, buf, buf.bufData
      ensures buf.Valid() && remaining == buf.remaining && buf.State() == AfterLoad(old(buf.State()), block)
      ensures index == old(index) + 1 && n == |block|
      ensures buf.bufData != old(buf.bufData) ==> fresh(buf.bufData)
    {
      hide AfterLoad;
      var loaded := buf.Load(block);
      index := index + 1;
      remaining := remaining + |block|;
      n := |block|;
    }

    lemma LoadedByte(r: Reader)
      requires r.Valid()
      ensures r.buf.Remaining() == 0 && NextLength(r) > 0 ==> LoadNext(r).Valid() && LoadNext(r).buf.Remaining() > 0
    {
      if r.buf.Remaining() == 0 {
        LoadNextKeeps(r);
      }
    }

    method Load(len: int)
      requires Valid() && Mapped() && (State().buf.pos == 0 || State().buf.Remaining() == 0)
      modifies this, buf, buf.bufData
      ensures Valid() && State() == LoadUpTo(old(State()), len)
      ensures buf.bufData != old(buf.bufData) ==> fresh(buf.bufData)
    {
      while 0 < remaining < len || remaining == 0
        invariant Valid() && (State().buf.pos == 0 || State().buf.Remaining() == 0)
        invariant LoadUpTo(State(), len) == LoadUpTo(old(State()), len)
        invariant buf.bufData != old(buf.bufData) ==> fresh(buf.bufData)
        decreases |blocks| - index
      {
        LoadNextKeeps(State());
        var n := LoadNextStream();
        if n == 0 {
          break;
        }
      }
    }

    method GetByte() returns (r: int)
      requires Valid() && remaining > 0
      modifies this, buf
      ensures Valid() && State() == Take(old(State()), 1)
      ensures 0 <= r < 256 && First(old(State()), 1) == [r as Byte]
    {
      TakeKeeps(State(), 1);
      remaining := remaining - 1;
      availableBytes := availableBytes - 1;
      var b := buf.Get();
      r := b as int;
    }

    /** read(): the next byte, or -1. */
    method ReadByte() returns (r: int)
      requires Valid() && Mapped()
      modifies this, buf, buf.bufData
      ensures Valid() && State() == AfterRequest(old(State()), OneByte)
      ensures -1 <= r < 256
      ensures AnswerTo(old(State()), OneByte) == if r == -1 then End else Bytes([r as Byte])
    {
      LoadedByte(State());
      hide Take, First, LoadNext, Flatten, NextLength;
      if remaining == 0 {
        var n := LoadNextStream();
        if n == 0 {
          return -1;
        }
      }
      r := GetByte();
    }

    /** read(bytes, off, len): as many bytes as are loaded and fit, or -1. */
    method Read(bytes: array<Byte>, off: nat, len: nat) returns (n: int)
      requires Valid() && bytes != buf.bufData && off + len <= bytes.Length
      modifies this, buf, bytes
      ensures Valid() && State() == AfterRequest(old(State()), Array(len)) && buf.bufData == old(buf.bufData)
      ensures var a := AnswerTo(old(State()), Array(len));
        if a.End? then n == -1 && bytes[..] == old(bytes[..])
        else n == |a.bytes| && off + n <= bytes.Length && bytes[..] == Overlay(old(bytes[..]), off, a.bytes)
    {
      if remaining == 0 {
        return -1;
      }
      var realLen := Min(len, remaining);
      var got := buf.Read(bytes, off, realLen);
      remaining := remaining - realLen;
      availableBytes := availableBytes - realLen;
      n := realLen;
    }
  }
}
