/** The keys of the store: xxh::xxhash<64> of the block id with seed 0, in native/src/pmemkv.h. */
module KeyHashes {
  import opened Bytes
  import opened XxHash
  import opened XxHashLaws
  import opened Pmem
  import opened PmemKv
  import opened RecordStreams
  import XxHash64
  import XxHash64Answers

  function KeyHash(key: seq<Byte>): nat { Hash(XxHash64.WORD, 0, key) as nat }

  /** The key of the first block of the first shuffle. */
  lemma KeyOfFirstBlock()
    ensures KeyHash(XxHash64Answers.FIRST_BLOCK) == 0x3d4e_7efa_ebc2_a367
  {
    XxHash64Answers.HashOfFirstBlock();
  }

  /** A store as the source makes it. */
  method OpenStore(dev: Device) returns (kv: Kv)
    requires dev.frontier > 0 && forall a :: a in dev.mem.buffers ==> a < dev.frontier
    modifies dev
    ensures kv.Valid() && kv.hash == KeyHash && kv.Log() == []
  {
    kv := new Kv(dev, KeyHash);
  }

  /** The word in which the tail loop reads byte k. */
  lemma {:induction false} WordAround<W>(w: Word<W>, len: nat, k: nat) returns (i: nat, n: nat)
    requires w.Valid() && k < len
    ensures ReadsInTail(w, len, i, n) && i <= k < i + n <= len
    decreases len
  {
    var c := ChunkLen(w, len);
    if k < c {
      i, n := 0, c;
    } else {
      i, n := WordAround(w, len - c, k - c);
      i := i + c;
    }
  }

  /** Ids of one length that differ in a single byte behind the last whole 32 have different keys. */
  lemma OneByteApart(a: seq<Byte>, b: seq<Byte>, k: nat)
    requires DifferAt(a, b, k, 1) && k >= Whole(XxHash64.WORD, |a|)
    ensures KeyHash(a) != KeyHash(b)
  {
    var p := Whole(XxHash64.WORD, |a|);
    var i, n := WordAround(XxHash64.WORD, |a| - p, k - p);
    assert DifferAt(a, b, p + i, n);
    hide Hash;
    XxHash64.TailChangesNeverCollide(0, a, b, p + i, n);
  }

  /** The name of a block up to its last number, and that number when it is a single digit. */
  function DigitId(prefix: seq<Byte>, p: nat): seq<Byte>
    requires p < 10
  {
    prefix + [(48 + p) as Byte]
  }

  lemma LastBehind(n: nat)
    requires !IsWhole(XxHash64.WORD, n)
    ensures Whole(XxHash64.WORD, n) < n
  {
    hide *;
  }

  lemma DigitsApart(prefix: seq<Byte>, p: nat, q: nat)
    requires p < 10 && q < 10 && p != q && !IsWhole(XxHash64.WORD, |prefix| + 1)
    ensures KeyHash(DigitId(prefix, p)) != KeyHash(DigitId(prefix, q))
  {
    var a, b := DigitId(prefix, p), DigitId(prefix, q);
    hide KeyHash, IsWhole;
    assert a[|prefix|] != b[|prefix|];
    LastBehind(|prefix| + 1);
    hide Whole;
    OneByteApart(a, b, |prefix|);
  }

  /** So with up to ten partitions, or spilled streams, their keys never collide. */
  lemma DigitIdsDistinct<O>(on: Setup<O>, prefix: seq<Byte>, n: nat)
    requires on.kv.hash == KeyHash && n <= 10 && !IsWhole(XxHash64.WORD, |prefix| + 1)
    requires forall p :: 0 <= p < n ==> on.idOf(p) == DigitId(prefix, p)
    ensures DistinctIds(on, n)
  {
    hide KeyHash, DigitId;
    forall p, q | 0 <= p < q < n ensures on.KeyOf(p) != on.KeyOf(q) {
      DigitsApart(prefix, p, q);
    }
  }
}
