/** XXH32 by example: what its operations give on given numbers, and inputs whose hashes are known. */
module XxHash32Answers {
  import opened Bytes
  import opened Words
  import opened XxHash
  import opened XxHash32

  /** Multiplication is by the prime of that number, and wraps around. */
  lemma MulIs(x: U32, n: nat)
    ensures Mul(x, n) as nat == x as nat * Prime(n) as nat % M
  {
  }

  lemma Xored(a: U32, b: U32, c: U32, a0: Quad, b0: Quad)
    requires a as nat == a0.Value() && b as nat == b0.Value() && c as nat == a0.Xored(b0)
    ensures XorWord(a, b) == c
  {
    hide Xor, Quad.Value, Quad.Xored;
    XorQuads(0, 0, a0, b0);
    XorNone();
  }

  /** The low bits of a word go up by r, and the high ones come in below. */
  lemma Turned(x: U32, r: nat, p: nat, q: nat, hi: nat, lo: nat, y: U32)
    requires p == Pow2(r) && p * q == M && hi < p && lo < q && x as nat == hi * q + lo && y as nat == lo * p + hi
    ensures RotlWord(x, r) == y
  {
    RotlSplits(0x8000_0000, hi, lo, q, r);
  }

  lemma Shifted(x: U32, r: nat, p: nat, y: U32, rest: nat)
    requires p == Pow2(r) && x as nat == y as nat * p + rest && rest < p
    ensures ShrWord(x, r) == y
  {
    ShrIs(x as nat, r);
    DividedBy(x as nat, p, y as nat, rest);
  }

  lemma Powers()
    ensures Pow2(1) == 0x2 && Pow2(7) == 0x80 && Pow2(11) == 0x800 && Pow2(12) == 0x1000
    ensures Pow2(13) == 0x2000 && Pow2(15) == 0x8000 && Pow2(16) == 0x1_0000 && Pow2(17) == 0x2_0000
    ensures Pow2(18) == 0x4_0000
  {
    PowByte(0);
    PowByte(8);
    PowByte(16);
  }

  lemma Rounded(x: U32, k: U32, s: U32, y: U32, z: U32)
    requires Add(x, Mul(k, 2)) == s && RotlWord(s, 13) == y && Mul(y, 1) == z
    ensures Round(WORD, x, k) == z
  {
  }

  lemma Avalanched(h: U32, a: U32, a': U32, b: U32, b': U32, c: U32)
    requires XorWord(h, ShrWord(h, 15)) == a && Mul(a, 2) == a' && XorWord(a', ShrWord(a', 13)) == b
    requires Mul(b, 3) == b' && XorWord(b', ShrWord(b', 16)) == c
    ensures Avalanche(WORD, h) == c
  {
    hide XorWord, ShrWord, Mul;
  }

  lemma Tailed4(h: U32, s: seq<Byte>, k: U32, x: U32, y: U32, z: U32)
    requires |s| == 4 && Read(s) == k && Add(h, Mul(k, 3)) == x && RotlWord(x, 17) == y && Mul(y, 4) == z
    ensures TailStep(WORD, h, s) == z
  {
    hide Read, RotlWord, Add, Mul;
  }

  lemma Tailed1(h: U32, s: seq<Byte>, k: U32, x: U32, y: U32, z: U32)
    requires |s| == 1 && Read(s) == k && Add(h, Mul(k, 5)) == x && RotlWord(x, 11) == y && Mul(y, 1) == z
    ensures TailStep(WORD, h, s) == z
  {
    hide Read, RotlWord, Add, Mul;
  }

  /** A tail of five bytes goes through both loops. */
  lemma TailOf5(h: U32, t: seq<Byte>)
    requires |t| == 5
    ensures TailFold(WORD, h, t) == TailStep(WORD, TailStep(WORD, h, t[..4]), t[4..])
  {
    hide TailStep;
    var u := t[4..];
    assert u[..1] == u && u[1..] == [];
    var a := TailStep(WORD, h, t[..4]);
    assert TailFold(WORD, TailStep(WORD, a, u), u[1..]) == TailStep(WORD, a, u);
    assert TailFold(WORD, a, u) == TailStep(WORD, a, u);
  }

  /** Bytes that count up from some number. */
  predicate Counting(s: seq<Byte>, from: nat, len: nat) {
    |s| == len && from + len <= 256 && forall i :: 0 <= i < len ==> s[i] as nat == from + i
  }

  lemma ReadCounting(s: seq<Byte>, from: nat)
    requires Counting(s, from, 4)
    ensures Read(s) as nat == 0x101_0101 * from + 0x302_0100
  {
    hide ReadLE;
    ReadFour(s);
    ReadNothing();
    assert s[4..] == [];
  }

  lemma ReadNothing()
    ensures ReadLE([]) == 0
  {
  }

  lemma ReadOne(s: seq<Byte>)
    requires |s| == 1
    ensures Read(s) as nat == s[0] as nat
  {
    hide ReadLE;
    ReadNext(s, 0);
    ReadNothing();
    assert s[0..] == s && s[1..] == [];
  }

  lemma TwoStripes(seed: U32, data: seq<Byte>)
    requires 32 <= |data| < 48
    ensures Whole(WORD, |data|) == 32
    ensures Absorbed(WORD, seed, data) == Absorb(WORD, Absorb(WORD, Start(WORD, seed), data[..16]), data[16..32])
  {
    hide Absorb, Start;
    WholeIs(WORD, 32, |data|);
    assert data[0..16] == data[..16];
    assert Stripes(WORD, Start(WORD, seed), data, 16) == Absorb(WORD, Start(WORD, seed), data[..16]);
  }

  lemma Ended(h: U32, t: U32, c: U32, tail: seq<Byte>)
    requires TailFold(WORD, h, tail) == t && Avalanche(WORD, t) == c
    ensures Ending(WORD, h, tail) == c
  {
    hide TailFold, Avalanche;
  }

  // ---- no bytes ----

  lemma NothingEnds1()
    ensures XorWord(374761393, ShrWord(374761393, 15)) == 374754077
  {
    Powers();
    hide Pow2, ShrWord, XorWord;
    Shifted(374761393, 15, 0x8000, 11436, 26545);
    Xored(374761393, 11436, 374754077,
          Quad(0x16, 0x56, 0x67, 0xb1),
          Quad(0x0, 0x0, 0x2c, 0xac));
  }

  lemma NothingEnds2()
    ensures XorWord(2113981563, ShrWord(2113981563, 13)) == 2114141309
  {
    Powers();
    hide Pow2, ShrWord, XorWord;
    Shifted(2113981563, 13, 0x2000, 258054, 3195);
    Xored(2113981563, 258054, 2114141309,
          Quad(0x7e, 0x0, 0xcc, 0x7b),
          Quad(0x0, 0x3, 0xf0, 0x6));
  }

  lemma NothingEnds3()
    ensures XorWord(46948297, ShrWord(46948297, 16)) == 46947589
  {
    Powers();
    hide Pow2, ShrWord, XorWord;
    Shifted(46948297, 16, 0x1_0000, 716, 24521);
    Xored(46948297, 716, 46947589,
          Quad(0x2, 0xcc, 0x5f, 0xc9),
          Quad(0x0, 0x0, 0x2, 0xcc));
  }

  lemma NothingEnds()
    ensures Avalanche(WORD, 374761393) == 0x2cc_5d05
  {
    hide ShrWord, XorWord, Avalanche;
    NothingEnds1();
    NothingEnds2();
    NothingEnds3();
    Avalanched(374761393, 374754077, 2113981563, 2114141309, 46948297, 46947589);
  }

  /** The hash of no bytes. */
  lemma HashOfNothing()
    ensures Hash(WORD, 0, []) == 0x2cc_5d05
  {
    NothingEnds();
    assert TailFold(WORD, 374761393, []) == 374761393;
    Ended(374761393, 374761393, 46947589, []);
    hide Ending;
    assert BeforeTail(WORD, 0, []) == 374761393;
  }

  // ---- two stripes and a tail ----

  lemma LanesStart()
    ensures Start(WORD, 1)
      == Lanes(606290985, 2246822520, 1, 1640531536)
  {
  }

  lemma Lane11()
    ensures Round(WORD, 606290985, 50462976) == 3880639691
  {
    Powers();
    hide Pow2, RotlWord, Round;
    Turned(165395241, 13, 0x2000, 0x8_0000, 315, 244521, 2003116347);
    Rounded(606290985, 50462976, 165395241, 2003116347, 3880639691);
  }

  lemma Lane12()
    ensures Round(WORD, 2246822520, 117835012) == 4049113499
  {
    Powers();
    hide Pow2, RotlWord, Round;
    Turned(945375060, 13, 0x2000, 0x8_0000, 1803, 83796, 686458635);
    Rounded(2246822520, 117835012, 945375060, 686458635, 4049113499);
  }

  lemma Lane13()
    ensures Round(WORD, 1, 185207048) == 3286687908
  {
    Powers();
    hide Pow2, RotlWord, Round;
    Turned(2132968121, 13, 0x2000, 0x8_0000, 4068, 164537, 1347891172);
    Rounded(1, 185207048, 2132968121, 1347891172, 3286687908);
  }

  lemma Lane14()
    ensures Round(WORD, 1640531536, 252579084) == 3455161716
  {
    Powers();
    hide Pow2, RotlWord, Round;
    Turned(2912947940, 13, 0x2000, 0x8_0000, 5556, 3812, 31233460);
    Rounded(1640531536, 252579084, 2912947940, 31233460, 3455161716);
  }

  lemma Stripe1(s: seq<Byte>)
    requires Counting(s, 0, 16)
    ensures Absorb(WORD, Lanes(606290985, 2246822520, 1, 1640531536), s)
      == Lanes(3880639691, 4049113499, 3286687908, 3455161716)
  {
    hide Round, Read;
    ReadCounting(s[..4], 0);
    Lane11();
    ReadCounting(s[4..8], 4);
    Lane12();
    ReadCounting(s[8..12], 8);
    Lane13();
    ReadCounting(s[12..], 12);
    Lane14();
  }

  lemma Lane21()
    ensures Round(WORD, 3880639691, 319951120) == 3640270731
  {
    Powers();
    hide Pow2, RotlWord, Round;
    Turned(4292504379, 13, 0x2000, 0x8_0000, 8187, 158523, 1298628603);
    Rounded(3880639691, 319951120, 4292504379, 1298628603, 3640270731);
  }

  lemma Lane22()
    ensures Round(WORD, 4049113499, 387323156) == 4136380131
  {
    Powers();
    hide Pow2, RotlWord, Round;
    Turned(3600426471, 13, 0x2000, 0x8_0000, 6867, 140775, 1153235667);
    Rounded(4049113499, 387323156, 3600426471, 1153235667, 4136380131);
  }

  lemma Lane23()
    ensures Round(WORD, 3286687908, 454695192) == 2777616971
  {
    Powers();
    hide Pow2, RotlWord, Round;
    Turned(1977449164, 13, 0x2000, 0x8_0000, 3771, 359116, 2941882043);
    Rounded(3286687908, 454695192, 1977449164, 2941882043, 2777616971);
  }

  lemma Lane24()
    ensures Round(WORD, 3455161716, 522067228) == 3273726371
  {
    Powers();
    hide Pow2, RotlWord, Round;
    Turned(1285371256, 13, 0x2000, 0x8_0000, 2451, 341368, 2796489107);
    Rounded(3455161716, 522067228, 1285371256, 2796489107, 3273726371);
  }

  lemma Stripe2(s: seq<Byte>)
    requires Counting(s, 16, 16)
    ensures Absorb(WORD, Lanes(3880639691, 4049113499, 3286687908, 3455161716), s)
      == Lanes(3640270731, 4136380131, 2777616971, 3273726371)
  {
    hide Round, Read;
    ReadCounting(s[..4], 16);
    Lane21();
    ReadCounting(s[4..8], 20);
    Lane22();
    ReadCounting(s[8..12], 24);
    Lane23();
    ReadCounting(s[12..], 28);
    Lane24();
  }

  lemma LanesTurned()
    ensures RotSum(WORD, Lanes(3640270731, 4136380131, 2777616971, 3273726371))
      == 1337685998
  {
    Powers();
    hide Pow2, RotlWord;
    Turned(3640270731, 1, 0x2, 0x8000_0000, 1, 1492787083, 2985574167);
    Turned(4136380131, 7, 0x80, 0x200_0000, 123, 9184995, 1175679483);
    Turned(2777616971, 12, 0x1000, 0x10_0000, 2648, 987723, 4045716056);
    Turned(3273726371, 18, 0x4_0000, 0x4000, 199812, 6563, 1720650884);
  }

  lemma LanesMixed()
    ensures Converge(WORD, Lanes(3640270731, 4136380131, 2777616971, 3273726371))
      == 1337685998
  {
    hide RotSum;
    LanesTurned();
  }

  lemma CountingTail4(s: seq<Byte>)
    requires |s| == 4 && Read(s) == 589439264
    ensures TailStep(WORD, 1337686035, s) == 2027872030
  {
    Powers();
    hide Pow2, RotlWord, Read, TailStep;
    Turned(698424499, 17, 0x2_0000, 0x8000, 21314, 7347, 963007298);
    Tailed4(1337686035, s, 589439264, 698424499, 963007298, 2027872030);
  }

  lemma CountingTail1(s: seq<Byte>)
    requires |s| == 1 && Read(s) == 36
    ensures TailStep(WORD, 2027872030, s) == 2171083880
  {
    Powers();
    hide Pow2, RotlWord, Read, TailStep;
    Turned(2634380290, 11, 0x800, 0x20_0000, 1256, 357378, 731911400);
    Tailed1(2027872030, s, 36, 2634380290, 731911400, 2171083880);
  }

  lemma CountingTail(t: seq<Byte>)
    requires Counting(t, 32, 5)
    ensures TailFold(WORD, 1337686035, t) == 2171083880
  {
    hide TailFold, TailStep, Read;
    TailOf5(1337686035, t);
    ReadCounting(t[..4], 32);
    CountingTail4(t[..4]);
    ReadOne(t[4..]);
    CountingTail1(t[4..]);
  }

  lemma CountingEnds1()
    ensures XorWord(2171083880, ShrWord(2171083880, 15)) == 2171150008
  {
    Powers();
    hide Pow2, ShrWord, XorWord;
    Shifted(2171083880, 15, 0x8000, 66256, 7272);
    Xored(2171083880, 66256, 2171150008,
          Quad(0x81, 0x68, 0x1c, 0x68),
          Quad(0x0, 0x1, 0x2, 0xd0));
  }

  lemma CountingEnds2()
    ensures XorWord(3842144136, ShrWord(3842144136, 13)) == 3842334619
  {
    Powers();
    hide Pow2, ShrWord, XorWord;
    Shifted(3842144136, 13, 0x2000, 469011, 6024);
    Xored(3842144136, 469011, 3842334619,
          Quad(0xe5, 0x2, 0x77, 0x88),
          Quad(0x0, 0x7, 0x28, 0x13));
  }

  lemma CountingEnds3()
    ensures XorWord(688464367, ShrWord(688464367, 16)) == 688457958
  {
    Powers();
    hide Pow2, ShrWord, XorWord;
    Shifted(688464367, 16, 0x1_0000, 10505, 8687);
    Xored(688464367, 10505, 688457958,
          Quad(0x29, 0x9, 0x21, 0xef),
          Quad(0x0, 0x0, 0x29, 0x9));
  }

  lemma CountingEnds()
    ensures Avalanche(WORD, 2171083880) == 0x2909_08e6
  {
    hide ShrWord, XorWord, Avalanche;
    CountingEnds1();
    CountingEnds2();
    CountingEnds3();
    Avalanched(2171083880, 2171150008, 3842144136, 3842334619, 688464367, 688457958);
  }

  /** The hash of the bytes 0 to 36 with seed 1: two stripes, and a tail that goes through every loop. */
  lemma HashOfCounting(data: seq<Byte>)
    requires Counting(data, 0, 37)
    ensures Hash(WORD, 1, data) == 0x2909_08e6
  {
    hide Absorb, Start, Stripes, Converge, Ending, TailFold, Whole, Avalanche, Absorbed;
    TwoStripes(1, data);
    LanesStart();
    Stripe1(data[..16]);
    Stripe2(data[16..32]);
    LanesMixed();
    assert BeforeTail(WORD, 1, data) == 1337686035;
    CountingTail(data[32..]);
    CountingEnds();
    Ended(1337686035, 2171083880, 688457958, data[32..]);
  }
}
