/** The 64-bit instance: uint64_t arithmetic and what follows for XXH64. */
module XxHash64 {
  import opened Bytes
  import opened Words
  import opened XxHash
  import opened HashStream
  import opened XxHashLaws

  const M: nat := 0x1_0000_0000_0000_0000
  newtype U64 = x: int | 0 <= x < M

  function Prime(n: nat): U64 {
    if n == 1 then 11400714785074694791
    else if n == 2 then 14029467366897019727
    else if n == 3 then 1609587929392839161
    else if n == 4 then 9650029242287828579
    else 2870177450012600261
  }

  function Mul(x: U64, n: nat): U64 {
    if n == 1 then ((x as nat * 11400714785074694791) % M) as U64
    else if n == 2 then ((x as nat * 14029467366897019727) % M) as U64
    else if n == 3 then ((x as nat * 1609587929392839161) % M) as U64
    else if n == 4 then ((x as nat * 9650029242287828579) % M) as U64
    else ((x as nat * 2870177450012600261) % M) as U64
  }

  /** Multiplication by the inverse of the prime modulo 2^64. */
  function Unmul(x: U64, n: nat): U64 {
    if n == 1 then ((x as nat * 614540362697595703) % M) as U64
    else if n == 2 then ((x as nat * 839798700976720815) % M) as U64
    else if n == 3 then ((x as nat * 16855272203555305545) % M) as U64
    else if n == 4 then ((x as nat * 15596783062780822347) % M) as U64
    else ((x as nat * 14236653164957433613) % M) as U64
  }

  /** rotl64. */
  function RotlWord(x: U64, r: nat): U64 { Rotl(0x8000_0000_0000_0000, x as nat, r) as U64 }
  function RotrWord(x: U64, r: nat): U64 { Rotr(0x8000_0000_0000_0000, x as nat, r) as U64 }

  function Add(a: U64, b: U64): U64 {
    var s := a as nat + b as nat;
    (if s < M then s else s - M) as U64
  }

  function Sub(a: U64, b: U64): U64 {
    var d := a as int - b as int;
    (if d >= 0 then d else d + M) as U64
  }

  function XorWord(a: U64, b: U64): U64 {
    WordBound();
    XorBound(a as nat, b as nat, 64);
    Xor(a as nat, b as nat) as U64
  }

  /** readLE_align; nothing longer than a word is ever read. */
  function Read(s: seq<Byte>): U64 {
    if |s| <= 8 then ReadFits(s); ReadLE(s) as U64 else 0
  }

  function ShrWord(x: U64, r: nat): U64 { Shr(x as nat, r) as U64 }

  function UnshiftWord(y: U64, r: nat): U64 {
    var x := Unshift(y as nat, r);
    if x < M then x as U64 else 0
  }

  lemma WordBound()
    ensures M == Pow2(64)
  {
    PowByte(0);
    PowByte(8);
    PowByte(16);
    PowByte(24);
    PowByte(32);
    PowByte(40);
    PowByte(48);
    PowByte(56);
  }

  lemma ReadFits(s: seq<Byte>)
    requires |s| <= 8
    ensures ReadLE(s) < M
  {
    WordBound();
    ReadBound(s);
    PowMonotone(8 * |s|, 64);
  }

  const WORD: Word<U64> := Word(
    8, (a: U64, b: U64) => Add(a, b), (a: U64, b: U64) => Sub(a, b), (a: U64, b: U64) => XorWord(a, b),
    (n: nat) => Prime(n), (x: U64, n: nat) => Mul(x, n), (x: U64, r: nat) => RotlWord(x, r),
    (x: U64, r: nat) => ShrWord(x, r), (n: nat) => (n % M) as U64, (s: seq<Byte>) => Read(s))

  const UNDO: Undo<U64> := Undo(
    (c: U64, a: U64) => Sub(c, a), (c: U64, a: U64) => XorWord(c, a), (x: U64, n: nat) => Unmul(x, n),
    (x: U64, r: nat) => RotrWord(x, r), (x: U64, r: nat) => UnshiftWord(x, r),
    (x: U64, n: nat) => Unread(x as nat, n))

  lemma ModOf(x: nat, z: int)
    requires x < M
    ensures (x + M * z) % M == x
  {
  }

  lemma Inverse1(x: nat)
    requires x < M
    ensures ((x * 11400714785074694791) % M * 614540362697595703) % M == x
  {
    var y, t := (x * 11400714785074694791) % M, (x * 11400714785074694791) / M;
    assert y == x * 11400714785074694791 - M * t;
    assert y * 614540362697595703 == x + M * (379806830464837242 * x - 614540362697595703 * t);
    ModOf(x, 379806830464837242 * x - 614540362697595703 * t);
  }

  lemma Inverse2(x: nat)
    requires x < M
    ensures ((x * 14029467366897019727) % M * 839798700976720815) % M == x
  {
    var y, t := (x * 14029467366897019727) % M, (x * 14029467366897019727) / M;
    assert y == x * 14029467366897019727 - M * t;
    assert y * 839798700976720815 == x + M * (638699622168397319 * x - 839798700976720815 * t);
    ModOf(x, 638699622168397319 * x - 839798700976720815 * t);
  }

  lemma Inverse3(x: nat)
    requires x < M
    ensures ((x * 1609587929392839161) % M * 16855272203555305545) % M == x
  {
    var y, t := (x * 1609587929392839161) % M, (x * 1609587929392839161) / M;
    assert y == x * 1609587929392839161 - M * t;
    assert y * 16855272203555305545 == x + M * (1470722560960728959 * x - 16855272203555305545 * t);
    ModOf(x, 1470722560960728959 * x - 16855272203555305545 * t);
  }

  lemma Inverse4(x: nat)
    requires x < M
    ensures ((x * 9650029242287828579) % M * 15596783062780822347) % M == x
  {
    var y, t := (x * 9650029242287828579) % M, (x * 9650029242287828579) / M;
    assert y == x * 9650029242287828579 - M * t;
    assert y * 15596783062780822347 == x + M * (8159131608269108357 * x - 15596783062780822347 * t);
    ModOf(x, 8159131608269108357 * x - 15596783062780822347 * t);
  }

  lemma Inverse5(x: nat)
    requires x < M
    ensures ((x * 2870177450012600261) % M * 14236653164957433613) % M == x
  {
    var y, t := (x * 2870177450012600261) % M, (x * 2870177450012600261) / M;
    assert y == x * 2870177450012600261 - M * t;
    assert y * 14236653164957433613 == x + M * (2215118327355546487 * x - 14236653164957433613 * t);
    ModOf(x, 2215118327355546487 * x - 14236653164957433613 * t);
  }

  lemma MulUndone(x: U64, n: nat)
    requires 1 <= n <= 5
    ensures Unmul(Mul(x, n), n) == x
  {
    if n == 1 { Inverse1(x as nat); }
    else if n == 2 { Inverse2(x as nat); }
    else if n == 3 { Inverse3(x as nat); }
    else if n == 4 { Inverse4(x as nat); }
    else { Inverse5(x as nat); }
  }

  lemma ShiftLaw(r: nat)
    requires r > 0
    ensures forall x: U64 :: UNDO.shift(XorShift(WORD, x, r), r) == x
  {
    forall x: U64
      ensures UnshiftWord(XorWord(x, ShrWord(x, r)), r) == x
    {
      ShiftUndone(x as nat, r);
    }
  }

  lemma ReadLaw()
    ensures forall s: seq<Byte> :: |s| <= 8 ==> UNDO.read(WORD.readLE(s), |s|) == s
  {
    forall s: seq<Byte> | |s| <= 8
      ensures Unread(Read(s) as nat, |s|) == s
    {
      ReadUndone(s);
    }
  }

  lemma XorLaw()
    ensures forall a: U64, b: U64 :: UNDO.xor(WORD.xor(a, b), b) == a && UNDO.xor(WORD.xor(a, b), a) == b
  {
    forall a: U64, b: U64
      ensures XorWord(XorWord(a, b), b) == a && XorWord(XorWord(a, b), a) == b
    {
      XorUndone(a as nat, b as nat);
    }
  }

  lemma MulLaw()
    ensures forall a: U64, n: nat :: 1 <= n <= 5 ==> UNDO.mul(WORD.mul(a, n), n) == a
  {
    forall a: U64, n: nat | 1 <= n <= 5
      ensures Unmul(Mul(a, n), n) == a
    {
      MulUndone(a, n);
    }
  }

  lemma RotlLaw()
    ensures forall a: U64, r: nat :: UNDO.rotl(WORD.rotl(a, r), r) == a
  {
    forall a: U64, r: nat
      ensures RotrWord(RotlWord(a, r), r) == a
    {
      RotlUndone(0x8000_0000_0000_0000, a as nat, r);
    }
  }

  lemma AddLaw()
    ensures forall a: U64 :: WORD.add(a, WORD.ofNat(0)) == a
    ensures forall a: U64, b: U64 :: UNDO.add(WORD.add(a, b), b) == a && UNDO.add(WORD.add(a, b), a) == b
  {
  }

  /** The laws hold for uint64_t. */
  lemma WordLawful()
    ensures Lawful(WORD, UNDO)
  {
    AddLaw();
    XorLaw();
    MulLaw();
    RotlLaw();
    ReadLaw();
    forall a: U64, r: nat | Shift(WORD, r)
      ensures UNDO.shift(XorShift(WORD, a, r), r) == a
    {
      ShiftLaw(r);
    }
  }

  /** Streaming and one-shot XXH64 agree exactly off inputs of 32 bytes, and on those just when
      the mixed lanes equal the start of a short input. */
  lemma StreamMeetsOneShot(seed: U64, data: seq<Byte>)
    ensures StreamHash(WORD, seed, data) == Hash(WORD, seed, data)
      <==> (|data| != 32 || Converge(WORD, Absorbed(WORD, seed, data)) == Add(Absorbed(WORD, seed, data).v3, Prime(5)))
  {
    WordLawful();
    StreamIsOneShot(WORD, UNDO, seed, data);
  }

  /** Two inputs of one length that differ inside one word of the tail have different XXH64. */
  lemma TailChangesNeverCollide(seed: U64, a: seq<Byte>, b: seq<Byte>, i: nat, n: nat)
    requires DifferAt(a, b, i, n) && i >= Whole(WORD, |a|)
    requires ReadsInTail(WORD, |a| - Whole(WORD, |a|), i - Whole(WORD, |a|), n)
    ensures Hash(WORD, seed, a) != Hash(WORD, seed, b)
  {
    WordLawful();
    TailChangeChangesHash(WORD, UNDO, seed, a, b, i, n);
  }

  // ---- a whole stripe on which the two differ ----

  lemma Powers()
    ensures Pow2(1) == 2 && Pow2(7) == 0x80 && Pow2(18) == 0x4_0000 && Pow2(31) == 0x8000_0000
  {
    PowByte(0);
    PowByte(8);
    PowByte(16);
  }

  lemma Rotated(x: U64, r: nat, hi: nat, lo: nat, q: nat, y: U64)
    requires Pow2(r) * q == M && hi < Pow2(r) && lo < q && x as nat == hi * q + lo && y as nat == lo * Pow2(r) + hi
    ensures RotlWord(x, r) == y
  {
    RotlSplits(0x8000_0000_0000_0000, hi, lo, q, r);
  }

  lemma LaneIs(x: U64, k: U64, hi: nat, lo: nat, y: U64, z: U64)
    requires Add(x, Mul(k, 2)) as nat == hi * 0x2_0000_0000 + lo && hi < 0x8000_0000 && lo < 0x2_0000_0000
    requires y as nat == lo * 0x8000_0000 + hi && Mul(y, 1) == z
    ensures Round(WORD, x, k) == z
  {
    Powers();
    hide Rotl, Pow2;
    Rotated(Add(x, Mul(k, 2)), 31, hi, lo, 0x2_0000_0000, y);
  }

  lemma Lane1()
    ensures Round(WORD, 6983438078262162902, 0) == 1266463546032221505
  {
    assert Add(6983438078262162902, Mul(0, 2)) == 6983438078262162902;
    LaneIs(6983438078262162902, 0, 812979191, 2915087830, 6260103448221783031, 1266463546032221505);
  }

  lemma Lane2()
    ensures Round(WORD, 14029467366897019727, 0) == 9155312661752487122
  {
    assert Add(14029467366897019727, Mul(0, 2)) == 14029467366897019727;
    LaneIs(14029467366897019727, 0, 1633244958, 4963232591, 10658460832026416926, 9155312661752487122);
  }

  lemma Lane3()
    ensures Round(WORD, 0, 0) == 0
  {
    assert Add(0, Mul(0, 2)) == 0;
    LaneIs(0, 0, 0, 0, 0, 0);
  }

  lemma Lane4()
    ensures Round(WORD, 7046029288634856825, 1) == 2995775086747569251
  {
    assert Add(7046029288634856825, Mul(1, 2)) == 2628752581822324936;
    LaneIs(7046029288634856825, 1, 306027077, 7011377352, 15056818213683567173, 2995775086747569251);
  }

  lemma Merged1()
    ensures Round(WORD, 0, 1266463546032221505) == 12656904524356910746
  {
    assert Add(0, Mul(1266463546032221505, 2)) == 13077013152174268943;
    LaneIs(0, 1266463546032221505, 1522364694, 5544174095, 11906023212200063254, 12656904524356910746);
  }

  lemma Merged2()
    ensures Round(WORD, 0, 9155312661752487122) == 1230685245718457268
  {
    assert Add(0, Mul(9155312661752487122, 2)) == 6540140732737989326;
    LaneIs(0, 9155312661752487122, 761372588, 1676225230, 3599666272551411628, 1230685245718457268);
  }

  lemma Merged4()
    ensures Round(WORD, 0, 2995775086747569251) == 3163129119906649889
  {
    assert Add(0, Mul(2995775086747569251, 2)) == 8669119422228394893;
    LaneIs(0, 2995775086747569251, 1009218327, 4250727309, 9128367389193761559, 3163129119906649889);
  }

  lemma RotSumIs()
    ensures RotSum(WORD, Lanes(1266463546032221505, 9155312661752487122, 0, 2995775086747569251)) == 3496961470733871629
  {
    Powers();
    assert RotlWord(0, 12) == 0;
    hide Rotl, Pow2, RotlWord;
    Rotated(1266463546032221505, 1, 0, 1266463546032221505, 0x8000000000000000, 2532927092064443010);
    Rotated(9155312661752487122, 7, 63, 76055812973567186, 0x200000000000000, 9735144060616599871);
    Rotated(2995775086747569251, 18, 42572, 36909616057443, 0x400000000000, 9675634391762380364);
  }

  lemma XorBit(a: nat, b: nat)
    ensures Xor(a, b) % 2 == (a + b) % 2
  {
    XorOf(a, b);
    hide Xor;
  }

  lemma SameBit(x: int, y: int, z: int)
    requires y == x + 2 * z
    ensures y % 2 == x % 2
  {
  }

  lemma MulBit(x: U64)
    ensures Mul(x, 1) as nat % 2 == x as nat % 2
  {
    var n: nat := x as nat;
    var y, t := (n * 11400714785074694791) % M, (n * 11400714785074694791) / M;
    assert Mul(x, 1) as nat == y;
    assert y == n * 11400714785074694791 - M * t;
    hide Mul;
    SameBit(n, y, 5700357392537347395 * n - 0x8000_0000_0000_0000 * t);
  }

  lemma AddBit(x: U64)
    ensures Add(x, Prime(4)) as nat % 2 == (x as nat + 1) % 2
  {
  }

  lemma XorWordIs(a: U64, b: U64)
    ensures XorWord(a, b) as nat == Xor(a as nat, b as nat)
  {
    hide Xor;
  }

  /** Merging a lane into a hash, seen in the lowest bit. */
  lemma MergedBit(acc: U64, val: U64, z: U64)
    requires Round(WORD, 0, val) == z
    ensures MergeRound(WORD, acc, val) as nat % 2 == (acc as nat + z as nat + 1) % 2
  {
    hide Mul, Add, Prime, Xor, Round, XorWord;
    var x := XorWord(acc, z);
    assert MergeRound(WORD, acc, val) == Add(Mul(x, 1), Prime(4));
    hide MergeRound;
    XorWordIs(acc, z);
    XorBit(acc as nat, z as nat);
    MulBit(x);
    AddBit(Mul(x, 1));
  }

  /** The mixed lanes are even. */
  lemma MixIsEven()
    ensures Converge(WORD, Lanes(1266463546032221505, 9155312661752487122, 0, 2995775086747569251)) as nat % 2 == 0
  {
    RotSumIs();
    Merged1();
    Merged2();
    Lane3();
    Merged4();
    hide RotSum, Round, MergeRound;
    var h1 := MergeRound(WORD, 3496961470733871629, 1266463546032221505);
    var h2 := MergeRound(WORD, h1, 9155312661752487122);
    var h3 := MergeRound(WORD, h2, 0);
    MergedBit(3496961470733871629, 1266463546032221505, 12656904524356910746);
    MergedBit(h1, 9155312661752487122, 1230685245718457268);
    MergedBit(h2, 0, 0);
    MergedBit(h3, 2995775086747569251, 3163129119906649889);
    var v := Lanes(1266463546032221505, 9155312661752487122, 0, 2995775086747569251);
    assert Converge(WORD, v) == MergeRound(WORD, h3, 2995775086747569251);
  }

  /** Zeros, but for a 1 at the start of the last word. */
  predicate Single(data: seq<Byte>) {
    |data| == 32 && forall k :: 0 <= k < 32 ==> data[k] == if k == 24 then 1 else 0
  }

  lemma ReadSingle(s: seq<Byte>, x: Byte)
    requires |s| == 8 && s[0] == x && forall k :: 1 <= k < 8 ==> s[k] == 0
    ensures Read(s) == x as U64
  {
    ReadZeros(s[1..]);
  }

  lemma StartIs()
    ensures Start(WORD, 0) == Lanes(6983438078262162902, 14029467366897019727, 0, 7046029288634856825)
  {
  }

  lemma AbsorbSingle(data: seq<Byte>)
    requires Single(data)
    ensures Absorb(WORD, Lanes(6983438078262162902, 14029467366897019727, 0, 7046029288634856825), data)
      == Lanes(1266463546032221505, 9155312661752487122, 0, 2995775086747569251)
  {
    hide Round, Read;
    ReadSingle(data[..8], 0);
    ReadSingle(data[8..16], 0);
    ReadSingle(data[16..24], 0);
    ReadSingle(data[24..], 1);
    Lane1();
    Lane2();
    Lane3();
    Lane4();
  }

  /** Hence streaming and one-shot differ in 64 bits as well: on 31 zero bytes and a 1. */
  lemma OneStripeDiffers(data: seq<Byte>)
    requires Single(data)
    ensures StreamHash(WORD, 0, data) != Hash(WORD, 0, data)
  {
    hide Converge, Absorbed, StreamHash, Hash, RotlWord, Rotl, Start, Absorb;
    OneStripe(WORD, 0, data);
    StartIs();
    AbsorbSingle(data);
    MixIsEven();
    StreamMeetsOneShot(0, data);
  }
}
