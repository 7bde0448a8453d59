/** Bytes, block sequences and the C library copy used by every other module. */
module Bytes {
  newtype Byte = b: int | 0 <= b < 256

  const TWO_64: nat := 0x1_0000_0000_0000_0000

  /** Addition of uint64_t. */
  function Add64(a: nat, b: nat): (r: nat)
    requires a < TWO_64 && b < TWO_64
    ensures r < TWO_64
  {
    if a + b < TWO_64 then a + b else a + b - TWO_64
  }

  /** The value of a uint64_t after it has wrapped around. */
  function Wrap64(x: int): (r: nat)
    ensures r < TWO_64 && (0 <= x < TWO_64 ==> r == x)
  {
    x % TWO_64
  }

  lemma WrapAgain(a: int, b: int)
    ensures Wrap64(Wrap64(a) + b) == Wrap64(a + b)
  {
  }

  const INT_MAX: nat := 0x7fff_ffff

  /** The value of an int after it has wrapped around. */
  function Wrap32(x: int): (r: int)
    ensures -0x8000_0000 <= r < 0x8000_0000
    ensures -0x8000_0000 <= x < 0x8000_0000 ==> r == x
    ensures 0x8000_0000 <= x < 0x1_8000_0000 ==> r == x - 0x1_0000_0000
  {
    (x + 0x8000_0000) % 0x1_0000_0000 - 0x8000_0000
  }

  lemma WrapTwice(a: int, b: int)
    ensures Wrap32(Wrap32(a) + b) == Wrap32(a + b)
  {
  }

  function Min(a: nat, b: nat): nat { if a > b then b else a }

  lemma ConcatAssociates(a: seq<Byte>, b: seq<Byte>, c: seq<Byte>)
    ensures a + b + c == a + (b + c)
  {
  }

  /** The concatenation of a sequence of blocks. */
  function Flatten(blocks: seq<seq<Byte>>): seq<Byte> {
    if blocks == [] then [] else blocks[0] + Flatten(blocks[1..])
  }

  lemma {:induction false} FlattenAppend(a: seq<seq<Byte>>, b: seq<seq<Byte>>)
    ensures Flatten(a + b) == Flatten(a) + Flatten(b)
  {
    hide Flatten;
    if a == [] {
      FlattenNone();
      assert a == [] && a + b == b;
    } else {
      var x, y, z := a[0], Flatten(a[1..]), Flatten(b);
      FlattenAppend(a[1..], b);
      assert (a + b)[1..] == a[1..] + b;
      FlattenCons(a);
      FlattenCons(a + b);
      ConcatAssociates(x, y, z);
    }
  }

  lemma FlattenNone()
    ensures Flatten([]) == []
  {
  }

  lemma FlattenCons(a: seq<seq<Byte>>)
    requires a != []
    ensures Flatten(a) == a[0] + Flatten(a[1..])
  {
  }

  lemma FlattenSnoc(a: seq<seq<Byte>>, block: seq<Byte>)
    ensures Flatten(a + [block]) == Flatten(a) + block
  {
    FlattenAppend(a, [block]);
    assert Flatten([block]) == block + Flatten([]);
  }

  /** `s` with the bytes from position `at` on replaced by `piece`. */
  function Overlay(s: seq<Byte>, at: nat, piece: seq<Byte>): (r: seq<Byte>)
    requires at + |piece| <= |s|
    ensures |r| == |s|
  {
    s[..at] + piece + s[at + |piece|..]
  }

  /** memcpy between two different buffers. */
  method MemCpy(dst: array<Byte>, at: nat, src: seq<Byte>)
    requires at + |src| <= dst.Length
    modifies dst
    ensures dst[..] == Overlay(old(dst[..]), at, src)
    ensures dst[..at + |src|] == old(dst[..at]) + src
  {
    for i := 0 to |src|
      invariant forall k :: 0 <= k < dst.Length ==>
        dst[k] == if at <= k < at + i then src[k - at] else old(dst[k])
    {
      dst[at + i] := src[i];
    }
  }
}
