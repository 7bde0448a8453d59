/** XXH64 by example: what its operations give on given numbers, and inputs whose hashes are known. */
module XxHash64Answers {
  import opened Bytes
  import opened Words
  import opened XxHash
  import opened XxHash64

  /** Multiplication is by the prime of that number, and wraps around. */
  lemma MulIs(x: U64, n: nat)
    ensures Mul(x, n) as nat == x as nat * Prime(n) as nat % M
  {
  }

  lemma Xored(a: U64, b: U64, c: U64, a1: Quad, a0: Quad, b1: Quad, b0: Quad)
    requires a as nat == 0x1_0000_0000 * a1.Value() + a0.Value()
    requires b as nat == 0x1_0000_0000 * b1.Value() + b0.Value()
    requires c as nat == 0x1_0000_0000 * a1.Xored(b1) + a0.Xored(b0)
    ensures XorWord(a, b) == c
  {
    hide Xor, Quad.Value, Quad.Xored;
    XorQuads(a1.Value(), b1.Value(), a0, b0);
    XorQuads(0, 0, a1, b1);
    XorNone();
  }

  /** The low bits of a word go up by r, and the high ones come in below. */
  lemma Turned(x: U64, r: nat, p: nat, q: nat, hi: nat, lo: nat, y: U64)
    requires p == Pow2(r) && p * q == M && hi < p && lo < q && x as nat == hi * q + lo && y as nat == lo * p + hi
    ensures RotlWord(x, r) == y
  {
    RotlSplits(0x8000_0000_0000_0000, hi, lo, q, r);
  }

  lemma Shifted(x: U64, r: nat, p: nat, y: U64, rest: nat)
    requires p == Pow2(r) && x as nat == y as nat * p + rest && rest < p
    ensures ShrWord(x, r) == y
  {
    ShrIs(x as nat, r);
    DividedBy(x as nat, p, y as nat, rest);
  }

  lemma Powers()
    ensures Pow2(1) == 0x2 && Pow2(7) == 0x80 && Pow2(11) == 0x800 && Pow2(12) == 0x1000
    ensures Pow2(18) == 0x4_0000 && Pow2(23) == 0x80_0000 && Pow2(27) == 0x800_0000 && Pow2(29) == 0x2000_0000
    ensures Pow2(31) == 0x8000_0000 && Pow2(32) == 0x1_0000_0000 && Pow2(33) == 0x2_0000_0000
  {
    PowByte(0);
    PowByte(8);
    PowByte(16);
    PowByte(24);
  }

  lemma Rounded(x: U64, k: U64, s: U64, y: U64, z: U64)
    requires Add(x, Mul(k, 2)) == s && RotlWord(s, 31) == y && Mul(y, 1) == z
    ensures Round(WORD, x, k) == z
  {
  }

  lemma Avalanched(h: U64, a: U64, a': U64, b: U64, b': U64, c: U64)
    requires XorWord(h, ShrWord(h, 33)) == a && Mul(a, 2) == a' && XorWord(a', ShrWord(a', 29)) == b
    requires Mul(b, 3) == b' && XorWord(b', ShrWord(b', 32)) == c
    ensures Avalanche(WORD, h) == c
  {
    hide XorWord, ShrWord, Mul;
  }

  lemma Merged(h: U64, v: U64, m: U64, x: U64, z: U64)
    requires Round(WORD, 0, v) == m && XorWord(h, m) == x && Add(Mul(x, 1), Prime(4)) == z
    ensures MergeRound(WORD, h, v) == z
  {
    hide Round, XorWord, Add, Mul, Prime;
  }

  lemma Tailed8(h: U64, s: seq<Byte>, k: U64, m: U64, x: U64, y: U64, z: U64)
    requires |s| == 8 && Read(s) == k && Round(WORD, 0, k) == m && XorWord(h, m) == x
    requires RotlWord(x, 27) == y && Add(Mul(y, 1), Prime(4)) == z
    ensures TailStep(WORD, h, s) == z
  {
    hide Read, Round, XorWord, RotlWord, Add, Mul, Prime;
  }

  lemma Tailed4(h: U64, s: seq<Byte>, k: U64, m: U64, x: U64, y: U64, z: U64)
    requires |s| == 4 && Read(s) == k && Mul(k, 1) == m && XorWord(h, m) == x
    requires RotlWord(x, 23) == y && Add(Mul(y, 2), Prime(3)) == z
    ensures TailStep(WORD, h, s) == z
  {
    hide Read, XorWord, RotlWord, Add, Mul, Prime;
  }

  lemma Tailed1(h: U64, s: seq<Byte>, k: U64, m: U64, x: U64, y: U64, z: U64)
    requires |s| == 1 && Read(s) == k && Mul(k, 5) == m && XorWord(h, m) == x
    requires RotlWord(x, 11) == y && Mul(y, 1) == z
    ensures TailStep(WORD, h, s) == z
  {
    hide Read, XorWord, RotlWord, Mul;
  }

  /** A tail of thirteen bytes goes through each of the three loops. */
  lemma TailOf13(h: U64, t: seq<Byte>)
    requires |t| == 13
    ensures TailFold(WORD, h, t)
      == TailStep(WORD, TailStep(WORD, TailStep(WORD, h, t[..8]), t[8..12]), t[12..])
  {
    hide TailStep;
    var u, v := t[8..], t[12..];
    assert u[..4] == t[8..12] && u[4..] == v && v[..1] == v && v[1..] == [];
    var a := TailStep(WORD, h, t[..8]);
    var b := TailStep(WORD, a, t[8..12]);
    assert TailFold(WORD, TailStep(WORD, b, v), v[1..]) == TailStep(WORD, b, v);
    assert TailFold(WORD, b, v) == TailStep(WORD, b, v);
    assert TailFold(WORD, a, u) == TailFold(WORD, b, v);
  }

  /** Bytes that count up from some number. */
  predicate Counting(s: seq<Byte>, from: nat, len: nat) {
    |s| == len && from + len <= 256 && forall i :: 0 <= i < len ==> s[i] as nat == from + i
  }

  lemma ReadCounting(s: seq<Byte>, from: nat)
    requires Counting(s, from, 8)
    ensures Read(s) as nat == 0x101_0101_0101_0101 * from + 0x706_0504_0302_0100
  {
    hide ReadLE;
    ReadFour(s);
    ReadFour(s[4..]);
    ReadNothing();
    assert s[4..][4..] == [];
  }

  lemma ReadHalf(s: seq<Byte>, from: nat)
    requires Counting(s, from, 4)
    ensures Read(s) as nat == 0x101_0101 * from + 0x302_0100
  {
    hide ReadLE;
    ReadFour(s);
    ReadNothing();
    assert s[4..] == [];
  }

  lemma ReadNothing()
    ensures ReadLE([]) == 0
  {
  }

  lemma ReadOne(s: seq<Byte>)
    requires |s| == 1
    ensures Read(s) as nat == s[0] as nat
  {
    hide ReadLE;
    ReadNext(s, 0);
    ReadNothing();
    assert s[0..] == s && s[1..] == [];
  }

  lemma TwoStripes(seed: U64, data: seq<Byte>)
    requires 64 <= |data| < 96
    ensures Whole(WORD, |data|) == 64
    ensures Absorbed(WORD, seed, data) == Absorb(WORD, Absorb(WORD, Start(WORD, seed), data[..32]), data[32..64])
  {
    hide Absorb, Start;
    WholeIs(WORD, 64, |data|);
    assert data[0..32] == data[..32];
    assert Stripes(WORD, Start(WORD, seed), data, 32) == Absorb(WORD, Start(WORD, seed), data[..32]);
  }

  lemma Ended(h: U64, t: U64, c: U64, tail: seq<Byte>)
    requires TailFold(WORD, h, tail) == t && Avalanche(WORD, t) == c
    ensures Ending(WORD, h, tail) == c
  {
    hide TailFold, Avalanche;
  }

  // ---- no bytes ----

  lemma NothingEnds1()
    ensures XorWord(2870177450012600261, ShrWord(2870177450012600261, 33)) == 2870177449734050386
  {
    Powers();
    hide Pow2, ShrWord, XorWord;
    Shifted(2870177450012600261, 33, 0x2_0000_0000, 334132631, 4669728709);
    Xored(2870177450012600261, 334132631, 2870177449734050386,
          Quad(0x27, 0xd4, 0xeb, 0x2f), Quad(0x16, 0x56, 0x67, 0xc5),
          Quad(0x0, 0x0, 0x0, 0x0), Quad(0x13, 0xea, 0x75, 0x97));
  }

  lemma NothingEnds2()
    ensures XorWord(13740831944927800654, ShrWord(13740831944927800654, 29)) == 13740831969934771102
  {
    Powers();
    hide Pow2, ShrWord, XorWord;
    Shifted(13740831944927800654, 29, 0x2000_0000, 25594293968, 331541838);
    Xored(13740831944927800654, 25594293968, 13740831969934771102,
          Quad(0xbe, 0xb1, 0x3d, 0xda), Quad(0x13, 0xc2, 0xed, 0x4e),
          Quad(0x0, 0x0, 0x0, 0x5), Quad(0xf5, 0x89, 0xee, 0xd0));
  }

  lemma NothingEnds3()
    ensures XorWord(17241709255902245550, ShrWord(17241709255902245550, 32)) == 17241709254077376921
  {
    Powers();
    hide Pow2, ShrWord, XorWord;
    Shifted(17241709255902245550, 32, 0x1_0000_0000, 4014398263, 3198038702);
    Xored(17241709255902245550, 4014398263, 17241709254077376921,
          Quad(0xef, 0x46, 0xdb, 0x37), Quad(0xbe, 0x9e, 0x32, 0xae),
          Quad(0x0, 0x0, 0x0, 0x0), Quad(0xef, 0x46, 0xdb, 0x37));
  }

  lemma NothingEnds()
    ensures Avalanche(WORD, 2870177450012600261) == 0xef46_db37_51d8_e999
  {
    hide ShrWord, XorWord, Avalanche;
    NothingEnds1();
    NothingEnds2();
    NothingEnds3();
    Avalanched(2870177450012600261, 2870177449734050386, 13740831944927800654,
               13740831969934771102, 17241709255902245550, 17241709254077376921);
  }

  /** The hash of no bytes. */
  lemma HashOfNothing()
    ensures Hash(WORD, 0, []) == 0xef46_db37_51d8_e999
  {
    NothingEnds();
    assert TailFold(WORD, 2870177450012600261, []) == 2870177450012600261;
    Ended(2870177450012600261, 2870177450012600261, 17241709254077376921, []);
    hide Ending;
    assert BeforeTail(WORD, 0, []) == 2870177450012600261;
  }

  // ---- two stripes and a tail ----

  lemma LanesStart()
    ensures Start(WORD, 1)
      == Lanes(6983438078262162903, 14029467366897019728, 1, 7046029288634856826)
  {
  }

  lemma Lane11()
    ensures Round(WORD, 6983438078262162903, 506097522914230528) == 13234707778983648921
  {
    Powers();
    hide Pow2, RotlWord, Round;
    Turned(11263621133020824791, 31, 0x8000_0000, 0x2_0000_0000, 1311258079, 1179256023, 2532433027509269983);
    Rounded(6983438078262162903, 506097522914230528, 11263621133020824791, 2532433027509269983,
            13234707778983648921);
  }

  lemma Lane12()
    ensures Round(WORD, 14029467366897019728, 1084818905618843912) == 9712347486294844769
  {
    Powers();
    hide Pow2, RotlWord, Round;
    Turned(13601440071522192584, 31, 0x8000_0000, 0x2_0000_0000, 1583416023, 2027424968, 4353861967910339287);
    Rounded(14029467366897019728, 1084818905618843912, 13601440071522192584, 4353861967910339287,
            9712347486294844769);
  }

  lemma Lane13()
    ensures Round(WORD, 1, 1663540288323457296) == 10240241395493328191
  {
    Powers();
    hide Pow2, RotlWord, Round;
    Turned(13310506428201235441, 31, 0x8000_0000, 0x2_0000_0000, 1549546889, 4454151153, 9565216768337393033);
    Rounded(1, 1663540288323457296, 13310506428201235441, 9565216768337393033, 10240241395493328191);
  }

  lemma Lane14()
    ensures Round(WORD, 7046029288634856826, 2242261671028070680) == 6717881102804524039
  {
    Powers();
    hide Pow2, RotlWord, Round;
    Turned(15648325366702603234, 31, 0x8000_0000, 0x2_0000_0000, 1821704833, 5302320098, 11386645708738462337);
    Rounded(7046029288634856826, 2242261671028070680, 15648325366702603234, 11386645708738462337,
            6717881102804524039);
  }

  lemma Stripe1(s: seq<Byte>)
    requires Counting(s, 0, 32)
    ensures Absorb(WORD, Lanes(6983438078262162903, 14029467366897019728, 1, 7046029288634856826), s)
      == Lanes(13234707778983648921, 9712347486294844769, 10240241395493328191, 6717881102804524039)
  {
    hide Round, Read;
    ReadCounting(s[..8], 0);
    Lane11();
    ReadCounting(s[8..16], 8);
    Lane12();
    ReadCounting(s[16..24], 16);
    Lane13();
    ReadCounting(s[24..], 24);
    Lane14();
  }

  lemma Lane21()
    ensures Round(WORD, 13234707778983648921, 2820983053732684064) == 17814900129739136584
  {
    Powers();
    hide Pow2, RotlWord, Round;
    Turned(17128793506917906297, 31, 0x8000_0000, 0x2_0000_0000, 1994054008, 5282461561, 11343999825430108536);
    Rounded(13234707778983648921, 2820983053732684064, 17128793506917906297, 11343999825430108536,
            17814900129739136584);
  }

  lemma Lane22()
    ensures Round(WORD, 9712347486294844769, 3399704436437297448) == 10662610278414405098
  {
    Powers();
    hide Pow2, RotlWord, Round;
    Turned(8898222864095613113, 31, 0x8000_0000, 0x2_0000_0000, 1035889478, 3534590137, 7590474522625469254);
    Rounded(9712347486294844769, 3399704436437297448, 8898222864095613113, 7590474522625469254,
            10662610278414405098);
  }

  lemma Lane23()
    ensures Round(WORD, 10240241395493328191, 3978425819141910832) == 4566667098634746142
  {
    Powers();
    hide Pow2, RotlWord, Round;
    Turned(4717906423160607503, 31, 0x8000_0000, 0x2_0000_0000, 549236594, 5167747855, 11097654016148811634);
    Rounded(10240241395493328191, 3978425819141910832, 4717906423160607503, 11097654016148811634,
            4566667098634746142);
  }

  lemma Lane24()
    ensures Round(WORD, 6717881102804524039, 4557147201846524216) == 11462763938035198144
  {
    Powers();
    hide Pow2, RotlWord, Round;
    Turned(14934079854047865935, 31, 0x8000_0000, 0x2_0000_0000, 1738555712, 3419876431, 7344128715491656000);
    Rounded(6717881102804524039, 4557147201846524216, 14934079854047865935, 7344128715491656000,
            11462763938035198144);
  }

  lemma Stripe2(s: seq<Byte>)
    requires Counting(s, 32, 32)
    ensures Absorb(WORD, Lanes(13234707778983648921, 9712347486294844769, 10240241395493328191, 6717881102804524039), s)
      == Lanes(17814900129739136584, 10662610278414405098, 4566667098634746142, 11462763938035198144)
  {
    hide Round, Read;
    ReadCounting(s[..8], 32);
    Lane21();
    ReadCounting(s[8..16], 40);
    Lane22();
    ReadCounting(s[16..24], 48);
    Lane23();
    ReadCounting(s[24..], 56);
    Lane24();
  }

  lemma LanesTurned()
    ensures RotSum(WORD, Lanes(17814900129739136584, 10662610278414405098, 4566667098634746142, 11462763938035198144))
      == 10975196942602998303
  {
    Powers();
    hide Pow2, RotlWord;
    Turned(17814900129739136584, 1, 0x2, 0x8000_0000_0000_0000, 1, 8591528092884360776, 17183056185768721553);
    Turned(10662610278414405098, 7, 0x80, 0x200_0000_0000_0000, 73, 142201548876926442, 18201798256246584649);
    Turned(4566667098634746142, 12, 0x1000, 0x10_0000_0000_0000, 1014, 17076481063198, 69945266434860022);
    Turned(11462763938035198144, 18, 0x4_0000, 0x4000_0000_0000, 162895, 47355214620864, 12413885381571935311);
  }

  lemma LaneTurned1()
    ensures Round(WORD, 0, 17814900129739136584) == 8759208465898735075
  {
    Powers();
    hide Pow2, RotlWord, Round;
    Turned(11648254265623851064, 31, 0x8000_0000, 0x2_0000_0000, 1356035269, 468725816, 1006581026611492037);
    Rounded(0, 17814900129739136584, 11648254265623851064, 1006581026611492037, 8759208465898735075);
  }

  lemma LaneMixed1()
    ensures XorWord(10975196942602998303, 8759208465898735075) == 16267369955789576188
  {
    hide XorWord;
    Xored(10975196942602998303, 8759208465898735075, 16267369955789576188,
          Quad(0x98, 0x4f, 0xbb, 0x78), Quad(0x5f, 0xce, 0x12, 0x1f),
          Quad(0x79, 0x8e, 0xf5, 0xb1), Quad(0x3, 0x7d, 0x5, 0xe3));
  }

  lemma LaneMerged1()
    ensures MergeRound(WORD, 10975196942602998303, 17814900129739136584) == 8671134513124158535
  {
    hide XorWord, Round, MergeRound;
    LaneTurned1();
    LaneMixed1();
    Merged(10975196942602998303, 17814900129739136584, 8759208465898735075, 16267369955789576188,
           8671134513124158535);
  }

  lemma LaneTurned2()
    ensures Round(WORD, 0, 10662610278414405098) == 7726276004836244326
  {
    Powers();
    hide Pow2, RotlWord, Round;
    Turned(4546253898486929718, 31, 0x8000_0000, 0x2_0000_0000, 529253610, 6007052598, 12900047227410171114);
    Rounded(0, 10662610278414405098, 4546253898486929718, 12900047227410171114, 7726276004836244326);
  }

  lemma LaneMixed2()
    ensures XorWord(8671134513124158535, 7726276004836244326) == 1400392927381182241
  {
    hide XorWord;
    Xored(8671134513124158535, 7726276004836244326, 1400392927381182241,
          Quad(0x78, 0x56, 0xe, 0xe5), Quad(0xe6, 0x65, 0x2c, 0x47),
          Quad(0x6b, 0x39, 0x3f, 0x17), Quad(0x40, 0xe3, 0x7b, 0x66));
  }

  lemma LaneMerged2()
    ensures MergeRound(WORD, 8671134513124158535, 10662610278414405098) == 2694023642514565834
  {
    hide XorWord, Round, MergeRound;
    LaneTurned2();
    LaneMixed2();
    Merged(8671134513124158535, 10662610278414405098, 7726276004836244326, 1400392927381182241,
           2694023642514565834);
  }

  lemma LaneTurned3()
    ensures Round(WORD, 0, 4566667098634746142) == 18306904365071650144
  {
    Powers();
    hide Pow2, RotlWord, Round;
    Turned(2644315849736186434, 31, 0x8000_0000, 0x2_0000_0000, 307838880, 5661649474, 12158299666430640032);
    Rounded(0, 4566667098634746142, 2644315849736186434, 12158299666430640032, 18306904365071650144);
  }

  lemma LaneMixed3()
    ensures XorWord(2694023642514565834, 18306904365071650144) == 15811057180073879466
  {
    hide XorWord;
    Xored(2694023642514565834, 18306904365071650144, 15811057180073879466,
          Quad(0x25, 0x63, 0x18, 0x3a), Quad(0xb4, 0x95, 0xaa, 0xca),
          Quad(0xfe, 0xf, 0x30, 0x86), Quad(0xa1, 0x24, 0xcd, 0x60));
  }

  lemma LaneMerged3()
    ensures MergeRound(WORD, 2694023642514565834, 4566667098634746142) == 13489628905264020745
  {
    hide XorWord, Round, MergeRound;
    LaneTurned3();
    LaneMixed3();
    Merged(2694023642514565834, 4566667098634746142, 18306904365071650144, 15811057180073879466,
           13489628905264020745);
  }

  lemma LaneTurned4()
    ensures Round(WORD, 0, 11462763938035198144) == 17963695441907696784
  {
    Powers();
    hide Pow2, RotlWord, Round;
    Turned(5323208447382131520, 31, 0x8000_0000, 0x2_0000_0000, 619703024, 4757525312, 10216707813085801200);
    Rounded(0, 11462763938035198144, 5323208447382131520, 10216707813085801200, 17963695441907696784);
  }

  lemma LaneMixed4()
    ensures XorWord(13489628905264020745, 17963695441907696784) == 4791574713051396505
  {
    hide XorWord;
    Xored(13489628905264020745, 17963695441907696784, 4791574713051396505,
          Quad(0xbb, 0x34, 0xca, 0x4), Quad(0xaa, 0x1a, 0x7d, 0x9),
          Quad(0xf9, 0x4b, 0xdd, 0xd4), Quad(0x24, 0x36, 0x44, 0x90));
  }

  lemma LaneMerged4()
    ensures MergeRound(WORD, 13489628905264020745, 11462763938035198144) == 1708986247460603922
  {
    hide XorWord, Round, MergeRound;
    LaneTurned4();
    LaneMixed4();
    Merged(13489628905264020745, 11462763938035198144, 17963695441907696784, 4791574713051396505,
           1708986247460603922);
  }

  lemma LanesMixed()
    ensures Converge(WORD, Lanes(17814900129739136584, 10662610278414405098, 4566667098634746142, 11462763938035198144))
      == 1708986247460603922
  {
    hide RotSum, MergeRound;
    LanesTurned();
    LaneMerged1();
    LaneMerged2();
    LaneMerged3();
    LaneMerged4();
  }

  lemma CountingTail8Mixed()
    ensures XorWord(1708986247460603999, 4159246454802421250) == 3318895033291628125
  {
    hide XorWord;
    Xored(1708986247460603999, 4159246454802421250, 3318895033291628125,
          Quad(0x17, 0xb7, 0x89, 0xef), Quad(0xfd, 0xea, 0xc8, 0x5f),
          Quad(0x39, 0xb8, 0x9c, 0x9d), Quad(0x2f, 0xcd, 0x16, 0x2));
  }

  lemma CountingTail8Word()
    ensures Round(WORD, 0, 5135868584551137600) == 4159246454802421250
  {
    Powers();
    hide Pow2, RotlWord, Round;
    Turned(3507988401109852864, 31, 0x8000_0000, 0x2_0000_0000, 408383598, 5844230848, 12550390181625557102);
    Rounded(0, 5135868584551137600, 3507988401109852864, 12550390181625557102, 4159246454802421250);
  }

  lemma CountingTail8(s: seq<Byte>)
    requires |s| == 8 && Read(s) == 5135868584551137600
    ensures TailStep(WORD, 1708986247460603999, s) == 10015058815393873552
  {
    Powers();
    hide Pow2, RotlWord, XorWord, Read, TailStep, Round;
    CountingTail8Word();
    CountingTail8Mixed();
    Turned(3318895033291628125, 27, 0x800_0000, 0x20_0000_0000, 24148139, 80835239517, 10849522190331705515);
    Tailed8(1708986247460603999, s, 5135868584551137600, 4159246454802421250, 3318895033291628125,
            10849522190331705515, 10015058815393873552);
  }

  lemma CountingTail4Mixed()
    ensures XorWord(10015058815393873552, 9284913472172684536) == 731273594858195560
  {
    hide XorWord;
    Xored(10015058815393873552, 9284913472172684536, 731273594858195560,
          Quad(0x8a, 0xfc, 0xa2, 0xee), Quad(0x38, 0x32, 0x3e, 0x90),
          Quad(0x80, 0xda, 0xa3, 0x9b), Quad(0xff, 0x17, 0x74, 0xf8));
  }

  lemma CountingTail4(s: seq<Byte>)
    requires |s| == 4 && Read(s) == 1263159624
    ensures TailStep(WORD, 10015058815393873552, s) == 6055565263820642041
  {
    Powers();
    hide Pow2, RotlWord, XorWord, Read, TailStep;
    CountingTail4Mixed();
    Turned(731273594858195560, 23, 0x80_0000, 0x200_0000_0000, 332544, 1605363911272, 13466768549007921920);
    Tailed4(10015058815393873552, s, 1263159624, 9284913472172684536, 731273594858195560,
            13466768549007921920, 6055565263820642041);
  }

  lemma CountingTail1Mixed()
    ensures XorWord(6055565263820642041, 15219301390152552060) == 9744770881906776197
  {
    hide XorWord;
    Xored(6055565263820642041, 15219301390152552060, 9744770881906776197,
          Quad(0x54, 0x9, 0xb0, 0x86), Quad(0x10, 0x39, 0x56, 0xf9),
          Quad(0xd3, 0x35, 0xd1, 0xfa), Quad(0xa1, 0xa6, 0xce, 0x7c));
  }

  lemma CountingTail1(s: seq<Byte>)
    requires |s| == 1 && Read(s) == 76
    ensures TailStep(WORD, 6055565263820642041, s) == 4678611381219183631
  {
    Powers();
    hide Pow2, RotlWord, XorWord, Read, TailStep;
    CountingTail1Mixed();
    Turned(9744770881906776197, 11, 0x800, 0x20_0000_0000_0000, 1081, 7988487531763845, 16360422465052355641);
    Tailed1(6055565263820642041, s, 76, 15219301390152552060, 9744770881906776197,
            16360422465052355641, 4678611381219183631);
  }

  lemma CountingTail(t: seq<Byte>)
    requires Counting(t, 64, 13)
    ensures TailFold(WORD, 1708986247460603999, t) == 4678611381219183631
  {
    hide TailFold, TailStep, Read;
    TailOf13(1708986247460603999, t);
    ReadCounting(t[..8], 64);
    CountingTail8(t[..8]);
    ReadHalf(t[8..12], 72);
    CountingTail4(t[8..12]);
    ReadOne(t[12..]);
    CountingTail1(t[12..]);
  }

  lemma CountingEnds1()
    ensures XorWord(4678611381219183631, ShrWord(4678611381219183631, 33)) == 4678611381759356462
  {
    Powers();
    hide Pow2, ShrWord, XorWord;
    Shifted(4678611381219183631, 33, 0x2_0000_0000, 544662049, 5564484623);
    Xored(4678611381219183631, 544662049, 4678611381759356462,
          Quad(0x40, 0xed, 0xc4, 0x43), Quad(0x4b, 0xab, 0x4c, 0xf),
          Quad(0x0, 0x0, 0x0, 0x0), Quad(0x20, 0x76, 0xe2, 0x21));
  }

  lemma CountingEnds2()
    ensures XorWord(8214375393283865138, ShrWord(8214375393283865138, 29)) == 8214375391123369218
  {
    Powers();
    hide Pow2, ShrWord, XorWord;
    Shifted(8214375393283865138, 29, 0x2000_0000, 15300466480, 140835378);
    Xored(8214375393283865138, 15300466480, 8214375391123369218,
          Quad(0x71, 0xff, 0x52, 0xe6), Quad(0x8, 0x64, 0xfa, 0x32),
          Quad(0x0, 0x0, 0x0, 0x3), Quad(0x8f, 0xfa, 0x97, 0x30));
  }

  lemma CountingEnds3()
    ensures XorWord(6168582446478260466, ShrWord(6168582446478260466, 32)) == 6168582445228674559
  {
    Powers();
    hide Pow2, ShrWord, XorWord;
    Shifted(6168582446478260466, 32, 0x1_0000_0000, 1436235021, 1913387250);
    Xored(6168582446478260466, 1436235021, 6168582445228674559,
          Quad(0x55, 0x9b, 0x35, 0xd), Quad(0x72, 0xb, 0xf8, 0xf2),
          Quad(0x0, 0x0, 0x0, 0x0), Quad(0x55, 0x9b, 0x35, 0xd));
  }

  lemma CountingEnds()
    ensures Avalanche(WORD, 4678611381219183631) == 0x559b_350d_2790_cdff
  {
    hide ShrWord, XorWord, Avalanche;
    CountingEnds1();
    CountingEnds2();
    CountingEnds3();
    Avalanched(4678611381219183631, 4678611381759356462, 8214375393283865138, 8214375391123369218,
               6168582446478260466, 6168582445228674559);
  }

  /** The hash of the bytes 0 to 76 with seed 1: two stripes, and a tail that goes through every loop. */
  lemma HashOfCounting(data: seq<Byte>)
    requires Counting(data, 0, 77)
    ensures Hash(WORD, 1, data) == 0x559b_350d_2790_cdff
  {
    hide Absorb, Start, Stripes, Converge, Ending, TailFold, Whole, Avalanche, Absorbed;
    TwoStripes(1, data);
    LanesStart();
    Stripe1(data[..32]);
    Stripe2(data[32..64]);
    LanesMixed();
    assert BeforeTail(WORD, 1, data) == 1708986247460603999;
    CountingTail(data[64..]);
    CountingEnds();
    Ended(1708986247460603999, 4678611381219183631, 6168582445228674559, data[64..]);
  }

  // ---- the id of a block ----

  /** "shuffle_0_0_0" is the name of the first block of the first shuffle. */
  const FIRST_BLOCK: seq<Byte> := [115, 104, 117, 102, 102, 108, 101, 95, 48, 95, 48, 95, 48]

  lemma BlockTail8Mixed()
    ensures XorWord(2870177450012600274, 13645447571213737135) == 11135912503639227261
  {
    hide XorWord;
    Xored(2870177450012600274, 13645447571213737135, 11135912503639227261,
          Quad(0x27, 0xd4, 0xeb, 0x2f), Quad(0x16, 0x56, 0x67, 0xd2),
          Quad(0xbd, 0x5e, 0x5e, 0x44), Quad(0xf3, 0x69, 0x5c, 0xaf));
  }

  lemma BlockTail8Word()
    ensures Round(WORD, 0, 6874019593312364659) == 13645447571213737135
  {
    Powers();
    hide Pow2, RotlWord, Round;
    Turned(16583728489586805885, 31, 0x8000_0000, 0x2_0000_0000, 1930600089, 1767427197, 3795521006518574745);
    Rounded(0, 6874019593312364659, 16583728489586805885, 3795521006518574745, 13645447571213737135);
  }

  lemma BlockTail8(s: seq<Byte>)
    requires |s| == 8 && Read(s) == 6874019593312364659
    ensures TailStep(WORD, 2870177450012600274, s) == 9235998796934924688
  {
    Powers();
    hide Pow2, RotlWord, XorWord, Read, TailStep, Round;
    BlockTail8Word();
    BlockTail8Mixed();
    Turned(11135912503639227261, 27, 0x800_0000, 0x20_0000_0000, 81024427, 51090766717, 6857286630614783403);
    Tailed8(2870177450012600274, s, 6874019593312364659, 13645447571213737135,
            11135912503639227261, 6857286630614783403, 9235998796934924688);
  }

  lemma BlockTail4Mixed()
    ensures XorWord(9235998796934924688, 17477148926031041104) == 8261736560216759232
  {
    hide XorWord;
    Xored(9235998796934924688, 17477148926031041104, 8261736560216759232,
          Quad(0x80, 0x2c, 0xdb, 0xf8), Quad(0xad, 0x3d, 0xc9, 0x90),
          Quad(0xf2, 0x8b, 0x4e, 0x59), Quad(0xae, 0xae, 0x12, 0x50));
  }

  lemma BlockTail4(s: seq<Byte>)
    requires |s| == 4 && Read(s) == 1597005616
    ensures TailStep(WORD, 9235998796934924688, s) == 14120969894692045647
  {
    Powers();
    hide Pow2, RotlWord, XorWord, Read, TailStep;
    BlockTail4Mixed();
    Turned(8261736560216759232, 23, 0x80_0000, 0x200_0000_0000, 3757002, 1791061384128, 15024511855390970826);
    Tailed4(9235998796934924688, s, 1597005616, 17477148926031041104, 8261736560216759232,
            15024511855390970826, 14120969894692045647);
  }

  lemma BlockTail1Mixed()
    ensures XorWord(14120969894692045647, 8641309084637951216) == 12978208204212778943
  {
    hide XorWord;
    Xored(14120969894692045647, 8641309084637951216, 12978208204212778943,
          Quad(0xc3, 0xf7, 0xc3, 0x4d), Quad(0x99, 0x1a, 0xc3, 0x4f),
          Quad(0x77, 0xec, 0x18, 0xd4), Quad(0x30, 0x33, 0x74, 0xf0));
  }

  lemma BlockTail1(s: seq<Byte>)
    requires |s| == 1 && Read(s) == 48
    ensures TailStep(WORD, 14120969894692045647, s) == 1348589270418390880
  {
    Powers();
    hide Pow2, RotlWord, XorWord, Read, TailStep;
    BlockTail1Mixed();
    Turned(12978208204212778943, 11, 0x800, 0x20_0000_0000_0000, 1440, 7841277385750463, 16058936086016949664);
    Tailed1(14120969894692045647, s, 48, 8641309084637951216, 12978208204212778943,
            16058936086016949664, 1348589270418390880);
  }

  lemma BlockTail(t: seq<Byte>)
    requires t == FIRST_BLOCK
    ensures TailFold(WORD, 2870177450012600274, t) == 1348589270418390880
  {
    hide TailFold, TailStep, Read;
    TailOf13(2870177450012600274, t);
    BlockRead8(t[..8]);
    BlockTail8(t[..8]);
    BlockRead4(t[8..12]);
    BlockTail4(t[8..12]);
    BlockRead1(t[12..]);
    BlockTail1(t[12..]);
  }

  lemma BlockRead8(s: seq<Byte>)
    requires s == [115, 104, 117, 102, 102, 108, 101, 95]
    ensures Read(s) == 6874019593312364659
  {
    hide ReadLE;
    ReadFour(s);
    ReadFour(s[4..]);
    ReadNothing();
    assert s[4..][4..] == [];
  }

  lemma BlockRead4(s: seq<Byte>)
    requires s == [48, 95, 48, 95]
    ensures Read(s) == 1597005616
  {
    hide ReadLE;
    ReadFour(s);
    ReadNothing();
    assert s[4..] == [];
  }

  lemma BlockRead1(s: seq<Byte>)
    requires s == [48]
    ensures Read(s) == 48
  {
    hide ReadLE;
    ReadOne(s);
  }

  lemma BlockEnds1()
    ensures XorWord(1348589270418390880, ShrWord(1348589270418390880, 33)) == 1348589270271224837
  {
    Powers();
    hide Pow2, ShrWord, XorWord;
    Shifted(1348589270418390880, 33, 0x2_0000_0000, 156996453, 7972388704);
    Xored(1348589270418390880, 156996453, 1348589270271224837,
          Quad(0x12, 0xb7, 0x26, 0xcb), Quad(0xdb, 0x30, 0xff, 0x60),
          Quad(0x0, 0x0, 0x0, 0x0), Quad(0x9, 0x5b, 0x93, 0x65));
  }

  lemma BlockEnds2()
    ensures XorWord(2411911426033773707, ShrWord(2411911426033773707, 29)) == 2411911421860530629
  {
    Powers();
    hide Pow2, ShrWord, XorWord;
    Shifted(2411911426033773707, 29, 0x2000_0000, 4492535118, 41086091);
    Xored(2411911426033773707, 4492535118, 2411911421860530629,
          Quad(0x21, 0x78, 0xd4, 0xa9), Quad(0xc2, 0x72, 0xec, 0x8b),
          Quad(0x0, 0x0, 0x0, 0x1), Quad(0xb, 0xc6, 0xa5, 0x4e));
  }

  lemma BlockEnds3()
    ensures XorWord(4417607900303515037, ShrWord(4417607900303515037, 32)) == 4417607900659360615
  {
    Powers();
    hide Pow2, ShrWord, XorWord;
    Shifted(4417607900303515037, 32, 0x1_0000_0000, 1028554490, 3599555997);
    Xored(4417607900303515037, 1028554490, 4417607900659360615,
          Quad(0x3d, 0x4e, 0x7e, 0xfa), Quad(0xd6, 0x8c, 0xdd, 0x9d),
          Quad(0x0, 0x0, 0x0, 0x0), Quad(0x3d, 0x4e, 0x7e, 0xfa));
  }

  lemma BlockEnds()
    ensures Avalanche(WORD, 1348589270418390880) == 0x3d4e_7efa_ebc2_a367
  {
    hide ShrWord, XorWord, Avalanche;
    BlockEnds1();
    BlockEnds2();
    BlockEnds3();
    Avalanched(1348589270418390880, 1348589270271224837, 2411911426033773707, 2411911421860530629,
               4417607900303515037, 4417607900659360615);
  }

  lemma HashOfFirstBlock()
    ensures Hash(WORD, 0, FIRST_BLOCK) == 0x3d4e_7efa_ebc2_a367
  {
    var t := FIRST_BLOCK;
    assert BeforeTail(WORD, 0, t) == 2870177450012600274 && t[0..] == t && Whole(WORD, |t|) == 0;
    hide TailFold, Ending, Avalanche, BeforeTail, Whole;
    BlockTail(t);
    BlockEnds();
    Ended(2870177450012600274, 1348589270418390880, 4417607900659360615, t);
  }
}
