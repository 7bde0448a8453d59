/** The persistent log of native/src/pmemkv.h: entries linked from the root's head. */
module PmemLog {
  import opened Bytes
  import opened Pmem

  datatype Entry = Entry(key: nat, off: nat, bytes: seq<Byte>)

  /** Every field of a block_entry and its data have been stored. */
  predicate Initialised(m: Mem, e: nat) {
    && e != 0
    && m.Defined(e, Next) && m.Defined(e, Key) && m.Defined(e, Size) && m.Defined(e, Data)
    && m.Word(e, Data) in m.buffers && |m.Buffer(m.Word(e, Data))| == m.Word(e, Size)
  }

  function EntryOf(m: Mem, e: nat): Entry {
    Entry(m.Word(e, Key), m.Word(e, Data), m.Buffer(m.Word(e, Data)))
  }

  function LogOf(m: Mem, chain: seq<nat>): (log: seq<Entry>)
    ensures |log| == |chain| && forall i :: 0 <= i < |log| ==> log[i] == EntryOf(m, chain[i])
  {
    seq(|chain|, i requires 0 <= i < |chain| => EntryOf(m, chain[i]))
  }

  function First(chain: seq<nat>): nat { if chain == [] then 0 else chain[0] }
  function Last(chain: seq<nat>): nat { if chain == [] then 0 else chain[|chain| - 1] }

  /** The walk from `p` along the next pointers visits `chain`, all of it initialised, and stops. */
  predicate Walks(m: Mem, p: nat, chain: seq<nat>) {
    p == First(chain) && forall i :: 0 <= i < |chain| ==> Step(m, chain, i)
  }

  predicate Step(m: Mem, chain: seq<nat>, i: nat)
    requires i < |chain|
  {
    Initialised(m, chain[i]) && m.Word(chain[i], Next) == if i + 1 < |chain| then chain[i + 1] else 0
  }

  /** A walk has only one outcome. */
  lemma {:induction false} WalkUnique(m: Mem, p: nat, c: seq<nat>, d: seq<nat>)
    requires Walks(m, p, c) && Walks(m, p, d)
    ensures c == d
    decreases |c|
  {
    assert c != [] ==> Step(m, c, 0);
    assert d != [] ==> Step(m, d, 0);
    if c != [] && d != [] {
      WalkFrom(m, p, c, 1);
      WalkFrom(m, p, d, 1);
      WalkUnique(m, m.Word(p, Next), c[1..], d[1..]);
      assert c == [c[0]] + c[1..] && d == [d[0]] + d[1..];
    }
  }

  lemma WalkFrom(m: Mem, p: nat, c: seq<nat>, i: nat)
    requires Walks(m, p, c) && i <= |c|
    ensures Walks(m, First(c[i..]), c[i..])
    ensures 0 < i ==> First(c[i..]) == m.Word(c[i - 1], Next)
  {
    forall k | 0 <= k < |c[i..]|
      ensures Step(m, c[i..], k)
    {
      assert Step(m, c, i + k);
    }
    if i > 0 {
      assert Step(m, c, i - 1);
    }
  }

  /** A walk that ends visits no entry twice. */
  lemma WalkDistinct(m: Mem, p: nat, c: seq<nat>, i: nat, j: nat)
    requires Walks(m, p, c) && i < j < |c|
    ensures c[i] != c[j]
  {
    if c[i] == c[j] {
      WalkFrom(m, p, c, i);
      WalkFrom(m, p, c, j);
      WalkUnique(m, c[i], c[i..], c[j..]);
    }
  }

  function TotalSize(log: seq<Entry>): nat {
    if log == [] then 0 else |log[0].bytes| + TotalSize(log[1..])
  }

  lemma {:induction false} TotalSizeAppend(a: seq<Entry>, b: seq<Entry>)
    ensures TotalSize(a + b) == TotalSize(a) + TotalSize(b)
  {
    if a == [] {
      assert a + b == b;
    } else {
      assert (a + b)[0] == a[0] && (a + b)[1..] == a[1..] + b;
      TotalSizeAppend(a[1..], b);
    }
  }

  lemma TotalSizeSnoc(log: seq<Entry>, e: Entry)
    ensures TotalSize(log + [e]) == TotalSize(log) + |e.bytes|
  {
    TotalSizeAppend(log, [e]);
    assert TotalSize([e]) == |e.bytes| + TotalSize([]);
  }

  /** The root is consistent with the walk: tail is its last entry and bytes_written its size. */
  predicate Consistent(m: Mem, root: nat, chain: seq<nat>) {
    && m.Defined(root, Head) && m.Defined(root, Tail) && m.Defined(root, BytesWritten)
    && Walks(m, m.Word(root, Head), chain)
    && m.Word(root, Tail) == Last(chain)
    && m.Word(root, BytesWritten) == Wrap64(TotalSize(LogOf(m, chain)))
  }

  /** Nothing durable refers to the new entry or its data yet. */
  predicate Fresh(m: Mem, root: nat, chain: seq<nat>, bep: nat, d: nat) {
    && bep != 0 && bep != root && bep !in chain && root !in chain
    && d != 0 && d !in m.buffers
  }

  /** The stores of put, in program order. */
  function PutStores(m: Mem, root: nat, bep: nat, d: nat, key: nat, buf: seq<Byte>): (s: seq<Store>)
    ensures |s| == 8
  {
    [ StoreWord(Loc(bep, Data), d),
      StoreBytes(d, buf),
      StoreWord(Loc(bep, Next), 0),
      StoreWord(Loc(bep, Key), key),
      StoreWord(Loc(bep, Size), |buf|),
      if m.Word(root, Tail) == 0 then StoreWord(Loc(root, Head), bep)
      else StoreWord(Loc(m.Word(root, Tail), Next), bep),
      StoreWord(Loc(root, Tail), bep),
      StoreWord(Loc(root, BytesWritten), Wrap64(m.Word(root, BytesWritten) + |buf|)) ]
  }

  /** A store that a walk does not read. */
  predicate Misses(s: Store, m: Mem, chain: seq<nat>) {
    match s
    case StoreWord(at, _) => at.obj !in chain
    case StoreBytes(addr, _) => addr !in m.buffers
  }

  lemma MissKeepsWalk(m: Mem, s: Store, p: nat, chain: seq<nat>)
    requires Walks(m, p, chain) && Misses(s, m, chain)
    ensures Walks(Apply(m, s), p, chain) && LogOf(Apply(m, s), chain) == LogOf(m, chain)
  {
    var m' := Apply(m, s);
    forall i | 0 <= i < |chain|
      ensures Step(m', chain, i) && EntryOf(m', chain[i]) == EntryOf(m, chain[i])
    {
      assert Step(m, chain, i);
    }
  }

  /** Before it is linked the entry is written field by field: cut anywhere, these are the ones written. */
  lemma PutPrepares(m: Mem, root: nat, chain: seq<nat>, bep: nat, d: nat, key: nat, buf: seq<Byte>, k: nat)
    requires Consistent(m, root, chain) && Fresh(m, root, chain, bep, d) && k <= 8
    ensures var m' := After(m, PutStores(m, root, bep, d, key, buf), k);
      && m'.Word(bep, Data) == (if k < 1 then m.Word(bep, Data) else d)
      && m'.Buffer(d) == (if k < 2 then m.Buffer(d) else buf)
      && m'.Word(bep, Next) == (if k < 3 then m.Word(bep, Next) else 0)
      && m'.Word(bep, Key) == (if k < 4 then m.Word(bep, Key) else key)
      && m'.Word(bep, Size) == (if k < 5 then m.Word(bep, Size) else |buf|)
    decreases k
  {
    var s := PutStores(m, root, bep, d, key, buf);
    if k > 0 {
      PutPrepares(m, root, chain, bep, d, key, buf, k - 1);
      assert After(m, s, k) == Apply(After(m, s, k - 1), s[k - 1]);
      TailIsOther(m, root, chain, bep);
      hide After, Consistent;
    }
  }

  lemma TailIsOther(m: Mem, root: nat, chain: seq<nat>, bep: nat)
    requires Consistent(m, root, chain) && bep !in chain && bep != 0
    ensures m.Word(root, Tail) != bep
  {
  }

  /** Cut put's stores anywhere: the walk from head sees the old log until the sixth store and the
      old log with the whole new entry from then on; tail lags by one store, bytes_written by two. */
  lemma PutSurvivesCrash(m: Mem, root: nat, chain: seq<nat>, bep: nat, d: nat, key: nat, buf: seq<Byte>, k: nat)
    requires Consistent(m, root, chain) && Fresh(m, root, chain, bep, d) && k <= 8
    ensures var m' := After(m, PutStores(m, root, bep, d, key, buf), k);
      var visited := if k < 6 then chain else chain + [bep];
      && Walks(m', m'.Word(root, Head), visited)
      && LogOf(m', visited) == LogOf(m, chain) + (if k < 6 then [] else [Entry(key, d, buf)])
      && m'.Word(root, Tail) == (if k < 7 then Last(chain) else bep)
      && m'.Word(root, BytesWritten) == Wrap64(TotalSize(LogOf(m, chain)) + (if k < 8 then 0 else |buf|))
  {
    hide Wrap64, After, PutStores, Walks, LogOf, TotalSize, Fresh;
    if k < 6 {
      Preparing(m, root, chain, bep, d, key, buf, k);
      assert LogOf(m, chain) + [] == LogOf(m, chain);
    } else {
      Linked(m, root, chain, bep, d, key, buf, k);
      WrapAgain(TotalSize(LogOf(m, chain)), |buf|);
    }
  }

  /** From the sixth store on only the root's tail and bytes_written still change. */
  lemma Linked(m: Mem, root: nat, chain: seq<nat>, bep: nat, d: nat, key: nat, buf: seq<Byte>, k: nat)
    requires Consistent(m, root, chain) && Fresh(m, root, chain, bep, d) && 6 <= k <= 8
    ensures var m' := After(m, PutStores(m, root, bep, d, key, buf), k);
      && Walks(m', m'.Word(root, Head), chain + [bep])
      && LogOf(m', chain + [bep]) == LogOf(m, chain) + [Entry(key, d, buf)]
      && m'.Word(root, Tail) == (if k < 7 then m.Word(root, Tail) else bep)
      && m'.Word(root, BytesWritten) == (
        if k < 8 then m.Word(root, BytesWritten) else Wrap64(m.Word(root, BytesWritten) + |buf|))
    decreases k
  {
    if k == 6 {
      EntryLinked(m, root, chain, bep, d, key, buf);
    } else {
      var s := PutStores(m, root, bep, d, key, buf);
      Linked(m, root, chain, bep, d, key, buf, k - 1);
      var m1 := After(m, s, k - 1);
      MissKeepsWalk(m1, s[k - 1], m1.Word(root, Head), chain + [bep]);
    }
  }

  /** Before the entry is linked, no store touches what the walk reads. */
  lemma {:induction false} Preparing(m: Mem, root: nat, chain: seq<nat>, bep: nat, d: nat, key: nat,
        buf: seq<Byte>, k: nat)
    requires Consistent(m, root, chain) && Fresh(m, root, chain, bep, d) && k <= 5
    ensures var m' := After(m, PutStores(m, root, bep, d, key, buf), k);
      && Walks(m', m.Word(root, Head), chain) && LogOf(m', chain) == LogOf(m, chain)
      && (forall f: Field :: m'.Word(root, f) == m.Word(root, f))
      && (k < 2 ==> m'.buffers == m.buffers)
    decreases k
  {
    if k > 0 {
      var s := PutStores(m, root, bep, d, key, buf);
      Preparing(m, root, chain, bep, d, key, buf, k - 1);
      MissKeepsWalk(After(m, s, k - 1), s[k - 1], m.Word(root, Head), chain);
    }
  }

  lemma EntryPrepared(m: Mem, root: nat, chain: seq<nat>, bep: nat, d: nat, key: nat, buf: seq<Byte>)
    requires Fresh(m, root, chain, bep, d)
    ensures var m' := After(m, PutStores(m, root, bep, d, key, buf), 5);
      Initialised(m', bep) && EntryOf(m', bep) == Entry(key, d, buf) && m'.Word(bep, Next) == 0
  {
    var s := PutStores(m, root, bep, d, key, buf);
    assert After(m, s, 1) == Apply(After(m, s, 0), s[0]);
    assert After(m, s, 2) == Apply(After(m, s, 1), s[1]);
    assert After(m, s, 3) == Apply(After(m, s, 2), s[2]);
    assert After(m, s, 4) == Apply(After(m, s, 3), s[3]);
    assert After(m, s, 5) == Apply(After(m, s, 4), s[4]);
  }

  /** The sixth store makes the walk go on to the new entry. */
  lemma EntryLinked(m: Mem, root: nat, chain: seq<nat>, bep: nat, d: nat, key: nat, buf: seq<Byte>)
    requires Consistent(m, root, chain) && Fresh(m, root, chain, bep, d)
    ensures var m' := After(m, PutStores(m, root, bep, d, key, buf), 6);
      && Walks(m', m'.Word(root, Head), chain + [bep])
      && LogOf(m', chain + [bep]) == LogOf(m, chain) + [Entry(key, d, buf)]
      && m'.Word(root, Tail) == m.Word(root, Tail) && m'.Word(root, BytesWritten) == m.Word(root, BytesWritten)
  {
    var s := PutStores(m, root, bep, d, key, buf);
    var ready := After(m, s, 5);
    Preparing(m, root, chain, bep, d, key, buf, 5);
    EntryPrepared(m, root, chain, bep, d, key, buf);
    LinkNonNull(m, root, chain);
    LinkAppends(ready, root, chain, bep);
    assert After(m, s, 6) == Apply(ready, s[5]);
  }

  lemma LinkNonNull(m: Mem, root: nat, chain: seq<nat>)
    requires Walks(m, m.Word(root, Head), chain)
    ensures Last(chain) == 0 <==> chain == []
  {
    if chain != [] {
      assert Step(m, chain, |chain| - 1);
    }
  }

  /** The store put makes to link `bep` behind the chain. */
  function LinkStore(root: nat, chain: seq<nat>, bep: nat): Store {
    if chain == [] then StoreWord(Loc(root, Head), bep) else StoreWord(Loc(Last(chain), Next), bep)
  }

  lemma LinkAppends(m: Mem, root: nat, chain: seq<nat>, bep: nat)
    requires Walks(m, m.Word(root, Head), chain) && root !in chain && bep !in chain && bep != root
    requires Initialised(m, bep) && m.Word(bep, Next) == 0
    ensures var m' := Apply(m, LinkStore(root, chain, bep));
      && Walks(m', m'.Word(root, Head), chain + [bep])
      && LogOf(m', chain + [bep]) == LogOf(m, chain) + [EntryOf(m, bep)]
      && m'.Word(root, Tail) == m.Word(root, Tail) && m'.Word(root, BytesWritten) == m.Word(root, BytesWritten)
  {
    var m' := Apply(m, LinkStore(root, chain, bep));
    var longer := chain + [bep];
    forall i | 0 <= i < |longer|
      ensures Step(m', longer, i) && EntryOf(m', longer[i]) == EntryOf(m, longer[i])
    {
      if i < |chain| {
        assert Step(m, chain, i);
        if i + 1 < |chain| {
          WalkDistinct(m, First(chain), chain, i, |chain| - 1);
        }
      }
    }
  }

  /** The memory after five and after all eight stores. */
  lemma AllStores(m: Mem, s: seq<Store>)
    requires |s| == 8
    ensures After(m, s, 5) == Apply(Apply(Apply(Apply(Apply(m, s[0]), s[1]), s[2]), s[3]), s[4])
    ensures After(m, s, 8) == Apply(Apply(Apply(After(m, s, 5), s[5]), s[6]), s[7])
  {
    assert After(m, s, 1) == Apply(After(m, s, 0), s[0]);
    assert After(m, s, 2) == Apply(After(m, s, 1), s[1]);
    assert After(m, s, 3) == Apply(After(m, s, 2), s[2]);
    assert After(m, s, 4) == Apply(After(m, s, 3), s[3]);
    assert After(m, s, 5) == Apply(After(m, s, 4), s[4]);
    assert After(m, s, 6) == Apply(After(m, s, 5), s[5]);
    assert After(m, s, 7) == Apply(After(m, s, 6), s[6]);
    assert After(m, s, 8) == Apply(After(m, s, 7), s[7]);
  }

  /** A completed put leaves the root consistent with the longer log. */
  lemma PutCommits(m: Mem, root: nat, chain: seq<nat>, bep: nat, d: nat, key: nat, buf: seq<Byte>)
    requires Consistent(m, root, chain) && Fresh(m, root, chain, bep, d)
    ensures var m' := After(m, PutStores(m, root, bep, d, key, buf), 8);
      && Consistent(m', root, chain + [bep])
      && LogOf(m', chain + [bep]) == LogOf(m, chain) + [Entry(key, d, buf)]
      && m'.buffers == m.buffers[d := buf]
  {
    hide Wrap64, After, PutStores, Walks, LogOf, TotalSize, Fresh;
    PutSurvivesCrash(m, root, chain, bep, d, key, buf, 8);
    PutDefines(m, root, bep, d, key, buf);
    TotalSizeSnoc(LogOf(m, chain), Entry(key, d, buf));
  }

  lemma PutDefines(m: Mem, root: nat, bep: nat, d: nat, key: nat, buf: seq<Byte>)
    requires m.Defined(root, Head) && m.Defined(root, Tail) && m.Defined(root, BytesWritten)
    ensures var m' := After(m, PutStores(m, root, bep, d, key, buf), 8);
      && m'.Defined(root, Head) && m'.Defined(root, Tail) && m'.Defined(root, BytesWritten)
      && m'.buffers == m.buffers[d := buf]
  {
    AllStores(m, PutStores(m, root, bep, d, key, buf));
  }

  /** Where put stands before it links the entry. */
  lemma ReadyToLink(m: Mem, root: nat, chain: seq<nat>, bep: nat, d: nat, key: nat, buf: seq<Byte>)
    requires Consistent(m, root, chain) && Fresh(m, root, chain, bep, d)
    ensures var m' := After(m, PutStores(m, root, bep, d, key, buf), 5);
      && m'.Defined(root, Tail) && m'.Defined(root, BytesWritten)
      && m'.Word(root, Tail) == m.Word(root, Tail) && m'.Word(root, BytesWritten) == m.Word(root, BytesWritten)
      && (m.Word(root, Tail) == root ==> root == 0)
  {
    AllStores(m, PutStores(m, root, bep, d, key, buf));
  }

  /** The last entry of a log, read back from its address. */
  lemma LastEntry(m: Mem, p: nat, chain: seq<nat>, bep: nat)
    requires Walks(m, p, chain + [bep])
    ensures Initialised(m, bep) && EntryOf(m, bep) == LogOf(m, chain + [bep])[|chain|]
  {
    assert Step(m, chain + [bep], |chain|);
  }

  /** The entries stored under one key, in log order. */
  function OfKey(log: seq<Entry>, key: nat): seq<Entry> {
    if log == [] then []
    else
      var last := log[|log| - 1];
      var before := OfKey(log[..|log| - 1], key);
      if last.key == key then before + [last] else before
  }

  lemma OfKeySnoc(log: seq<Entry>, e: Entry, key: nat)
    ensures OfKey(log + [e], key) == if e.key == key then OfKey(log, key) + [e] else OfKey(log, key)
  {
    assert (log + [e])[..|log|] == log;
  }

  lemma {:induction false} OfKeyIn(log: seq<Entry>, key: nat, i: nat)
    requires i < |OfKey(log, key)|
    ensures exists j :: 0 <= j < |log| && log[j] == OfKey(log, key)[i] && log[j].key == key
  {
    var n := |log| - 1;
    if i < |OfKey(log[..n], key)| {
      OfKeyIn(log[..n], key, i);
      var j :| 0 <= j < n && log[..n][j] == OfKey(log[..n], key)[i] && log[..n][j].key == key;
      assert log[j] == OfKey(log, key)[i];
    } else {
      assert log[n] == OfKey(log, key)[i];
    }
  }

  function Blocks(es: seq<Entry>): (r: seq<seq<Byte>>)
    ensures |r| == |es| && forall i :: 0 <= i < |r| ==> r[i] == es[i].bytes
  {
    seq(|es|, i requires 0 <= i < |es| => es[i].bytes)
  }
}
