/** The 32-bit instance: uint32_t arithmetic and what follows for XXH32. */
module XxHash32 {
  import opened Bytes
  import opened Words
  import opened XxHash
  import opened HashStream
  import opened XxHashLaws

  const M: nat := 0x1_0000_0000
  newtype U32 = x: int | 0 <= x < M

  function Prime(n: nat): U32 {
    if n == 1 then 2654435761
    else if n == 2 then 2246822519
    else if n == 3 then 3266489917
    else if n == 4 then 668265263
    else 374761393
  }

  function Mul(x: U32, n: nat): U32 {
    if n == 1 then ((x as nat * 2654435761) % M) as U32
    else if n == 2 then ((x as nat * 2246822519) % M) as U32
    else if n == 3 then ((x as nat * 3266489917) % M) as U32
    else if n == 4 then ((x as nat * 668265263) % M) as U32
    else ((x as nat * 374761393) % M) as U32
  }

  /** Multiplication by the inverse of the prime modulo 2^32. */
  function Unmul(x: U32, n: nat): U32 {
    if n == 1 then ((x as nat * 244002641) % M) as U32
    else if n == 2 then ((x as nat * 3066638151) % M) as U32
    else if n == 3 then ((x as nat * 2828982549) % M) as U32
    else if n == 4 then ((x as nat * 2701016015) % M) as U32
    else ((x as nat * 2923004241) % M) as U32
  }

  /** rotl32. */
  function RotlWord(x: U32, r: nat): U32 { Rotl(0x8000_0000, x as nat, r) as U32 }
  function RotrWord(x: U32, r: nat): U32 { Rotr(0x8000_0000, x as nat, r) as U32 }

  function Add(a: U32, b: U32): U32 {
    var s := a as nat + b as nat;
    (if s < M then s else s - M) as U32
  }

  function Sub(a: U32, b: U32): U32 {
    var d := a as int - b as int;
    (if d >= 0 then d else d + M) as U32
  }

  function XorWord(a: U32, b: U32): U32 {
    WordBound();
    XorBound(a as nat, b as nat, 32);
    Xor(a as nat, b as nat) as U32
  }

  /** readLE_align; nothing longer than a word is ever read. */
  function Read(s: seq<Byte>): U32 {
    if |s| <= 4 then ReadFits(s); ReadLE(s) as U32 else 0
  }

  function ShrWord(x: U32, r: nat): U32 { Shr(x as nat, r) as U32 }

  function UnshiftWord(y: U32, r: nat): U32 {
    var x := Unshift(y as nat, r);
    if x < M then x as U32 else 0
  }

  lemma WordBound()
    ensures M == Pow2(32)
  {
    PowByte(0);
    PowByte(8);
    PowByte(16);
    PowByte(24);
  }

  lemma ReadFits(s: seq<Byte>)
    requires |s| <= 4
    ensures ReadLE(s) < M
  {
    WordBound();
    ReadBound(s);
    PowMonotone(8 * |s|, 32);
  }

  const WORD: Word<U32> := Word(
    4, (a: U32, b: U32) => Add(a, b), (a: U32, b: U32) => Sub(a, b), (a: U32, b: U32) => XorWord(a, b),
    (n: nat) => Prime(n), (x: U32, n: nat) => Mul(x, n), (x: U32, r: nat) => RotlWord(x, r),
    (x: U32, r: nat) => ShrWord(x, r), (n: nat) => (n % M) as U32, (s: seq<Byte>) => Read(s))

  const UNDO: Undo<U32> := Undo(
    (c: U32, a: U32) => Sub(c, a), (c: U32, a: U32) => XorWord(c, a), (x: U32, n: nat) => Unmul(x, n),
    (x: U32, r: nat) => RotrWord(x, r), (x: U32, r: nat) => UnshiftWord(x, r),
    (x: U32, n: nat) => Unread(x as nat, n))

  lemma ModOf(x: nat, z: int)
    requires x < M
    ensures (x + M * z) % M == x
  {
  }

  lemma Inverse1(x: nat)
    requires x < M
    ensures ((x * 2654435761) % M * 244002641) % M == x
  {
    var y, t := (x * 2654435761) % M, (x * 2654435761) / M;
    assert y == x * 2654435761 - M * t;
    assert y * 244002641 == x + M * (150801925 * x - 244002641 * t);
    ModOf(x, 150801925 * x - 244002641 * t);
  }

  lemma Inverse2(x: nat)
    requires x < M
    ensures ((x * 2246822519) % M * 3066638151) % M == x
  {
    var y, t := (x * 2246822519) % M, (x * 2246822519) / M;
    assert y == x * 2246822519 - M * t;
    assert y * 3066638151 == x + M * (1604247758 * x - 3066638151 * t);
    ModOf(x, 1604247758 * x - 3066638151 * t);
  }

  lemma Inverse3(x: nat)
    requires x < M
    ensures ((x * 3266489917) % M * 2828982549) % M == x
  {
    var y, t := (x * 3266489917) % M, (x * 3266489917) / M;
    assert y == x * 3266489917 - M * t;
    assert y * 2828982549 == x + M * (2151551417 * x - 2828982549 * t);
    ModOf(x, 2151551417 * x - 2828982549 * t);
  }

  lemma Inverse4(x: nat)
    requires x < M
    ensures ((x * 668265263) % M * 2701016015) % M == x
  {
    var y, t := (x * 668265263) % M, (x * 668265263) / M;
    assert y == x * 668265263 - M * t;
    assert y * 2701016015 == x + M * (420258189 * x - 2701016015 * t);
    ModOf(x, 420258189 * x - 2701016015 * t);
  }

  lemma Inverse5(x: nat)
    requires x < M
    ensures ((x * 374761393) % M * 2923004241) % M == x
  {
    var y, t := (x * 374761393) % M, (x * 374761393) / M;
    assert y == x * 374761393 - M * t;
    assert y * 2923004241 == x + M * (255049472 * x - 2923004241 * t);
    ModOf(x, 255049472 * x - 2923004241 * t);
  }

  lemma MulUndone(x: U32, n: nat)
    requires 1 <= n <= 5
    ensures Unmul(Mul(x, n), n) == x
  {
    if n == 1 { Inverse1(x as nat); }
    else if n == 2 { Inverse2(x as nat); }
    else if n == 3 { Inverse3(x as nat); }
    else if n == 4 { Inverse4(x as nat); }
    else { Inverse5(x as nat); }
  }

  lemma ShiftLaw(r: nat)
    requires r > 0
    ensures forall x: U32 :: UNDO.shift(XorShift(WORD, x, r), r) == x
  {
    forall x: U32
      ensures UnshiftWord(XorWord(x, ShrWord(x, r)), r) == x
    {
      ShiftUndone(x as nat, r);
    }
  }

  lemma ReadLaw()
    ensures forall s: seq<Byte> :: |s| <= 4 ==> UNDO.read(WORD.readLE(s), |s|) == s
  {
    forall s: seq<Byte> | |s| <= 4
      ensures Unread(Read(s) as nat, |s|) == s
    {
      ReadUndone(s);
    }
  }

  lemma XorLaw()
    ensures forall a: U32, b: U32 :: UNDO.xor(WORD.xor(a, b), b) == a && UNDO.xor(WORD.xor(a, b), a) == b
  {
    forall a: U32, b: U32
      ensures XorWord(XorWord(a, b), b) == a && XorWord(XorWord(a, b), a) == b
    {
      XorUndone(a as nat, b as nat);
    }
  }

  lemma MulLaw()
    ensures forall a: U32, n: nat :: 1 <= n <= 5 ==> UNDO.mul(WORD.mul(a, n), n) == a
  {
    forall a: U32, n: nat | 1 <= n <= 5
      ensures Unmul(Mul(a, n), n) == a
    {
      MulUndone(a, n);
    }
  }

  lemma RotlLaw()
    ensures forall a: U32, r: nat :: UNDO.rotl(WORD.rotl(a, r), r) == a
  {
    forall a: U32, r: nat
      ensures RotrWord(RotlWord(a, r), r) == a
    {
      RotlUndone(0x8000_0000, a as nat, r);
    }
  }

  lemma AddLaw()
    ensures forall a: U32 :: WORD.add(a, WORD.ofNat(0)) == a
    ensures forall a: U32, b: U32 :: UNDO.add(WORD.add(a, b), b) == a && UNDO.add(WORD.add(a, b), a) == b
  {
  }

  /** The laws hold for uint32_t. */
  lemma WordLawful()
    ensures Lawful(WORD, UNDO)
  {
    AddLaw();
    XorLaw();
    MulLaw();
    RotlLaw();
    ReadLaw();
    forall a: U32, r: nat | Shift(WORD, r)
      ensures UNDO.shift(XorShift(WORD, a, r), r) == a
    {
      ShiftLaw(r);
    }
  }

  /** Round in plain arithmetic. */
  lemma RoundIs(x: U32, k: U32)
    ensures Round(WORD, x, k) == Mul(RotlWord(Add(x, Mul(k, 2)), 13), 1)
  {
  }

  /** Streaming and one-shot XXH32 agree exactly off inputs of 16 bytes, and on those just when
      the mixed lanes equal the start of a short input. */
  lemma StreamMeetsOneShot(seed: U32, data: seq<Byte>)
    ensures StreamHash(WORD, seed, data) == Hash(WORD, seed, data)
      <==> (|data| != 16 || Converge(WORD, Absorbed(WORD, seed, data)) == Add(Absorbed(WORD, seed, data).v3, Prime(5)))
  {
    WordLawful();
    StreamIsOneShot(WORD, UNDO, seed, data);
  }

  /** No two inputs of one length that differ inside one aligned word, or inside one of the last
      `len % 4` bytes, have the same XXH32. */
  lemma SingleWordChangesNeverCollide(seed: U32, a: seq<Byte>, b: seq<Byte>, i: nat, n: nat)
    requires DifferAt(a, b, i, n)
    requires (n == 4 && i % 4 == 0) || (n == 1 && i >= |a| - |a| % 4)
    ensures Hash(WORD, seed, a) != Hash(WORD, seed, b)
  {
    WordLawful();
    SingleWordChangeChangesHash32(WORD, UNDO, seed, a, b, i, n);
  }

  lemma AddZero(x: U32)
    ensures Add(x, Mul(0, 2)) == x
  {
  }

  /** A zero word only turns a lane. */
  lemma Turn(x: U32, y: U32, z: U32)
    requires RotlWord(x, 13) == y && Mul(y, 1) == z
    ensures Round(WORD, x, 0) == z
  {
    RoundIs(x, 0);
    AddZero(x);
  }

  /** The four lanes of seed 0 after a stripe of zeros. */
  lemma TurnedLane1()
    ensures Round(WORD, 606290984, 0) == 2474017604
  {
    Turn(606290984, 1753547908, 2474017604);
  }

  lemma TurnedLane2()
    ensures Round(WORD, 2246822519, 0) == 2381891501
  {
    Turn(2246822519, 2035216573, 2381891501);
  }

  lemma TurnedLane3()
    ensures Round(WORD, 0, 0) == 0
  {
    Turn(0, 0, 0);
  }

  lemma TurnedLane4()
    ensures Round(WORD, 1640531535, 0) == 4202841193
  {
    Turn(1640531535, 281668665, 4202841193);
  }

  /** A stripe of zeros on the lanes of seed 0. */
  lemma ZeroStripe(zeros: seq<Byte>)
    requires |zeros| == 16 && forall k :: 0 <= k < 16 ==> zeros[k] == 0
    ensures Absorbed(WORD, 0, zeros) == Lanes(2474017604, 2381891501, 0, 4202841193)
  {
    hide Absorbed, Start, Absorb, Round;
    ZeroStart();
    AbsorbZeros(zeros);
    OneStripe(WORD, 0, zeros);
  }

  lemma ZeroStart()
    ensures Start(WORD, 0) == Lanes(606290984, 2246822519, 0, 1640531535)
  {
  }

  lemma AbsorbZeros(zeros: seq<Byte>)
    requires |zeros| == 16 && forall k :: 0 <= k < 16 ==> zeros[k] == 0
    ensures Absorb(WORD, Lanes(606290984, 2246822519, 0, 1640531535), zeros)
      == Lanes(2474017604, 2381891501, 0, 4202841193)
  {
    hide Round, Read;
    ReadZeroWord(zeros[..4]);
    ReadZeroWord(zeros[4..8]);
    ReadZeroWord(zeros[8..12]);
    ReadZeroWord(zeros[12..]);
    TurnedLane1();
    TurnedLane2();
    TurnedLane3();
    TurnedLane4();
  }

  lemma ReadZeroWord(s: seq<Byte>)
    requires |s| == 4 && forall k :: 0 <= k < |s| ==> s[k] == 0
    ensures Read(s) == 0
  {
    ReadZeros(s);
  }

  lemma ZeroMix()
    ensures Converge(WORD, Lanes(2474017604, 2381891501, 0, 4202841193)) == 888719192
  {
    assert RotlWord(2474017604, 1) == 653067913 && RotlWord(2381891501, 7) == 4234401478;
    assert RotlWord(0, 12) == 0;
    RotlAdd(0x8000_0000, 4202841193, 9, 9);
    assert RotlWord(4202841193, 9) == 76076021 && RotlWord(76076021, 9) == 296217097;
  }

  /** Hence streaming and one-shot really differ: on sixteen zero bytes. */
  lemma OneStripeDiffers(zeros: seq<Byte>)
    requires |zeros| == 16 && forall k :: 0 <= k < 16 ==> zeros[k] == 0
    ensures StreamHash(WORD, 0, zeros) != Hash(WORD, 0, zeros)
  {
    hide Converge, Absorbed, StreamHash, Hash, RotlWord, Rotl;
    ZeroStripe(zeros);
    ZeroMix();
    StreamMeetsOneShot(0, zeros);
  }
}
