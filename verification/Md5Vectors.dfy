/** Digests of the messages that appendix A.5 of RFC 1321 lists first. */
module Md5Vectors {
  import opened Md5Spec
  import opened Md5

  // ----- Steps on known bits

  function Rotated(v: bv32, s: nat): bv32
    requires s < 32
  {
    (v << s) | (v >> (32 - s))
  }

  lemma RotateBits(w: word, s: nat)
    requires s < 32
    ensures RotateLeft(w, s) == OfBits(Rotated(ToBits(w), s))
  {
    hide ToBits, OfBits;
  }

  lemma RotateOf(v: bv32, s: nat)
    requires s < 32
    ensures RotateLeft(OfBits(v), s) == OfBits(Rotated(v, s))
  {
    hide *;
    RotateBits(OfBits(v), s);
    BitsBack(v);
  }

  function AuxBits(i: nat, x: bv32, y: bv32, z: bv32): bv32 {
    if i < 16 then (x & y) | (!x & z)
    else if i < 32 then (x & z) | (y & !z)
    else if i < 48 then (x ^ y) ^ z
    else y ^ (x | !z)
  }

  lemma FBits(x: word, y: word, z: word)
    ensures F(x, y, z) == OfBits((ToBits(x) & ToBits(y)) | (!ToBits(x) & ToBits(z)))
  {
    hide And, Or, Not, ToBits, OfBits;
    OnBits(x, y);
    OnBits(Not(x), z);
    FromBits(And(x, y), And(Not(x), z));
  }

  lemma GBits(x: word, y: word, z: word)
    ensures G(x, y, z) == OfBits((ToBits(x) & ToBits(z)) | (ToBits(y) & !ToBits(z)))
  {
    hide And, Or, Not, ToBits, OfBits;
    OnBits(x, z);
    OnBits(z, y);
    OnBits(y, Not(z));
    FromBits(And(x, z), And(y, Not(z)));
  }

  lemma HBits(x: word, y: word, z: word)
    ensures H(x, y, z) == OfBits((ToBits(x) ^ ToBits(y)) ^ ToBits(z))
  {
    hide Xor, ToBits, OfBits;
    OnBits(x, y);
    FromBits(Xor(x, y), z);
  }

  lemma IBits(x: word, y: word, z: word)
    ensures I(x, y, z) == OfBits(ToBits(y) ^ (ToBits(x) | !ToBits(z)))
  {
    hide Xor, Or, Not, ToBits, OfBits;
    OnBits(z, x);
    OnBits(x, Not(z));
    FromBits(y, Or(x, Not(z)));
  }

  lemma AuxUnfold(i: nat, x: word, y: word, z: word)
    ensures Auxiliary(i, x, y, z) == OfBits(AuxBits(i, ToBits(x), ToBits(y), ToBits(z)))
  {
    hide F, G, H, I, ToBits, OfBits;
    FBits(x, y, z);
    GBits(x, y, z);
    HBits(x, y, z);
    IBits(x, y, z);
  }

  lemma AuxOf(i: nat, x: bv32, y: bv32, z: bv32)
    ensures Auxiliary(i, OfBits(x), OfBits(y), OfBits(z)) == OfBits(AuxBits(i, x, y, z))
  {
    hide *;
    AuxUnfold(i, OfBits(x), OfBits(y), OfBits(z));
    BitsBack(x);
    BitsBack(y);
    BitsBack(z);
  }

  function At(a: bv32, b: bv32, c: bv32, d: bv32): Regs {
    Regs(OfBits(a), OfBits(b), OfBits(c), OfBits(d))
  }

  lemma SumOf(x: word, y: word)
    ensures Add(x, y) == (x + y) % 0x1_0000_0000
  {
  }

  lemma SumsOf(a: word, f: word, k: word, t: word)
    ensures Add(Add(Add(a, f), k), t) == (a + f + k + t) % 0x1_0000_0000
  {
  }

  lemma StepOf(i: nat, a: bv32, b: bv32, c: bv32, d: bv32, k: word, t: word, s: nat, sum: bv32, e: bv32)
    requires s < 32
    requires OfBits(sum) == (OfBits(a) + OfBits(AuxBits(i, b, c, d)) + k + t) % 0x1_0000_0000
    requires OfBits(e) == (OfBits(b) + OfBits(Rotated(sum, s))) % 0x1_0000_0000
    ensures var f := Auxiliary(i, OfBits(b), OfBits(c), OfBits(d));
            OfBits(e) == Add(OfBits(b), RotateLeft(Add(Add(Add(OfBits(a), f), k), t), s))
  {
    hide *;
    AuxOf(i, b, c, d);
    RotateOf(sum, s);
    SumsOf(OfBits(a), OfBits(AuxBits(i, b, c, d)), k, t);
    SumOf(OfBits(b), OfBits(Rotated(sum, s)));
  }

  /** One step, given the sum before the rotation and the new register. */
  lemma Turn(x: seq<word>, i: nat, a: bv32, b: bv32, c: bv32, d: bv32, j: nat, k: word, s: nat, t: word, sum: bv32,
             e: bv32)
    requires |x| == 16 && Steps(INITIAL, x, i) == At(a, b, c, d) && Uses(i, j, s, t) && x[j] == k
    requires OfBits(sum) == (OfBits(a) + OfBits(AuxBits(i, b, c, d)) + k + t) % 0x1_0000_0000
    requires OfBits(e) == (OfBits(b) + OfBits(Rotated(sum, s))) % 0x1_0000_0000
    ensures Steps(INITIAL, x, i + 1) == At(d, e, b, c)
  {
    hide OfBits, Add, AuxBits, Rotated, RotateLeft, Auxiliary, WordIndex, ShiftAmount, SineWord, Steps;
    StepOf(i, a, b, c, d, k, t, s, sum, e);
    StepsNext(INITIAL, x, i);
    var f := Auxiliary(i, OfBits(b), OfBits(c), OfBits(d));
    OneStepIs(Regs(OfBits(a), OfBits(b), OfBits(c), OfBits(d)), x, i, f, j, s, t);
  }

  lemma Start(x: seq<word>)
    requires |x| == 16
    ensures Steps(INITIAL, x, 0) == At(0x67452301, 0xefcdab89, 0x98badcfe, 0x10325476)
  {
  }

  lemma OneBlock(m: seq<byte>)
    requires |m| == BLOCK_SIZE
    ensures Blocks(INITIAL, m) == Compress(INITIAL, BlockWords(m))
  {
    hide Compress, BlockWords;
    assert m[..BLOCK_SIZE] == m;
    assert Blocks(Compress(INITIAL, BlockWords(m)), m[BLOCK_SIZE..]) == Compress(INITIAL, BlockWords(m));
  }

  lemma Added(a: bv32, b: bv32, c: bv32, d: bv32)
    ensures Regs(Add(OfBits(a), INITIAL.a), Add(OfBits(b), INITIAL.b), Add(OfBits(c), INITIAL.c), Add(OfBits(d), INITIAL.d))
         == Regs((a as int + 0x67452301) % 0x1_0000_0000, (b as int + 0xefcdab89) % 0x1_0000_0000,
                 (c as int + 0x98badcfe) % 0x1_0000_0000, (d as int + 0x10325476) % 0x1_0000_0000)
  {
    SumOf(OfBits(a), INITIAL.a);
    SumOf(OfBits(b), INITIAL.b);
    SumOf(OfBits(c), INITIAL.c);
    SumOf(OfBits(d), INITIAL.d);
  }

  // ----- The empty message

  function Empty(): (x: seq<word>)
    ensures |x| == 16
  {
    [0x80, 0, 0, 0, 0, 0, 0, 0, 0, 0, 0, 0, 0, 0, 0, 0]
  }

  lemma EmptyWordsAre()
    ensures Empty()[0] == 0x80
    ensures forall k :: 0 <= k < 16 && k != 0 ==> Empty()[k] == 0
  {
  }

  lemma Empty0()
    ensures Steps(INITIAL, Empty(), 4) == At(0xa5202774, 0x1b163203, 0xe7f06b23, 0xf59592dd)
  {
    hide Steps, OneStep, At, Uses, Empty, WordIndex, ShiftAmount, SineWord;
    EmptyWordsAre();
    Constants1();
    Start(Empty());
    Turn(Empty(), 0, 0x67452301, 0xefcdab89, 0x98badcfe, 0x10325476, 0, 0x80, 7, 0xd76aa478, 0xd76aa4f7, 0xa5202774);
    Turn(Empty(), 1, 0x10325476, 0xa5202774, 0xefcdab89, 0x98badcfe, 1, 0, 12, 0xe8c7b756, 0xb6950756, 0xf59592dd);
    Turn(Empty(), 2, 0x98badcfe, 0xf59592dd, 0xa5202774, 0xefcdab89, 2, 0, 17, 0x242070db, 0x6c23792d, 0xe7f06b23);
    Turn(Empty(), 3, 0xefcdab89, 0xe7f06b23, 0xf59592dd, 0xa5202774, 3, 0, 22, 0xc1bdceee, 0x971b80cc, 0x1b163203);
  }

  lemma Empty4()
    requires Steps(INITIAL, Empty(), 4) == At(0xa5202774, 0x1b163203, 0xe7f06b23, 0xf59592dd)
    ensures Steps(INITIAL, Empty(), 8) == At(0x32033344, 0x9bc13ce9, 0xf5b158db, 0x2f35d494)
  {
    hide Steps, OneStep, At, Uses, Empty, WordIndex, ShiftAmount, SineWord;
    EmptyWordsAre();
    Constants1();
    Turn(Empty(), 4, 0xa5202774, 0x1b163203, 0xe7f06b23, 0xf59592dd, 4, 0, 7, 0xf57c0faf, 0x822dda02, 0x32033344);
    Turn(Empty(), 5, 0xf59592dd, 0x32033344, 0x1b163203, 0xe7f06b23, 5, 0, 12, 0x4787c62a, 0x150fd32a, 0x2f35d494);
    Turn(Empty(), 6, 0xe7f06b23, 0x2f35d494, 0x32033344, 0x1b163203, 6, 0, 17, 0xa8304613, 0xc223e33d, 0xf5b158db);
    Turn(Empty(), 7, 0x1b163203, 0xf5b158db, 0x2f35d494, 0x32033344, 7, 0, 22, 0xfd469501, 0x3f903a98, 0x9bc13ce9);
  }

  lemma Empty8()
    requires Steps(INITIAL, Empty(), 8) == At(0x32033344, 0x9bc13ce9, 0xf5b158db, 0x2f35d494)
    ensures Steps(INITIAL, Empty(), 12) == At(0x3893b991, 0x70768a29, 0xe1ef0576, 0xfce4a312)
  {
    hide Steps, OneStep, At, Uses, Empty, WordIndex, ShiftAmount, SineWord;
    EmptyWordsAre();
    Constants1();
    Turn(Empty(), 8, 0x32033344, 0x9bc13ce9, 0xf5b158db, 0x2f35d494, 8, 0, 7, 0x698098d8, 0x5139a4f9, 0x3893b991);
    Turn(Empty(), 9, 0x2f35d494, 0x3893b991, 0x9bc13ce9, 0xf5b158db, 9, 0, 12, 0x8b44f7af, 0x981c450e, 0xfce4a312);
    Turn(Empty(), 10, 0xf5b158db, 0xfce4a312, 0x3893b991, 0x9bc13ce9, 10, 0, 17, 0xffff5bb1, 0x31327285, 0xe1ef0576);
    Turn(Empty(), 11, 0x9bc13ce9, 0xe1ef0576, 0xfce4a312, 0x3893b991, 11, 0, 22, 0x895cd7be, 0x1e12ce3a, 0x70768a29);
  }

  lemma Empty12()
    requires Steps(INITIAL, Empty(), 12) == At(0x3893b991, 0x70768a29, 0xe1ef0576, 0xfce4a312)
    ensures Steps(INITIAL, Empty(), 16) == At(0xf56c7cf1, 0xd6819c6a, 0x5aa53f75, 0x374943a7)
  {
    hide Steps, OneStep, At, Uses, Empty, WordIndex, ShiftAmount, SineWord;
    EmptyWordsAre();
    Constants1();
    Turn(Empty(), 12, 0x3893b991, 0x70768a29, 0xe1ef0576, 0xfce4a312, 12, 0, 7, 0x6b901122, 0x9109ebe5, 0xf56c7cf1);
    Turn(Empty(), 13, 0xfce4a312, 0xf56c7cf1, 0x70768a29, 0xe1ef0576, 13, 0, 12, 0xfd987193, 0x6b641dcc, 0x374943a7);
    Turn(Empty(), 14, 0xe1ef0576, 0x374943a7, 0xf56c7cf1, 0x70768a29, 14, 0, 17, 0xa679438e, 0xfde711ad, 0x5aa53f75);
    Turn(Empty(), 15, 0x70768a29, 0x5aa53f75, 0x374943a7, 0xf56c7cf1, 15, 0, 22, 0x49b40821, 0x7173d5ef, 0xd6819c6a);
  }

  lemma Empty16()
    requires Steps(INITIAL, Empty(), 16) == At(0xf56c7cf1, 0xd6819c6a, 0x5aa53f75, 0x374943a7)
    ensures Steps(INITIAL, Empty(), 20) == At(0x1c7d7513, 0xbd782e17, 0xc095f13a, 0x7bd57a3a)
  {
    hide Steps, OneStep, At, Uses, Empty, WordIndex, ShiftAmount, SineWord;
    EmptyWordsAre();
    Constants2();
    Turn(Empty(), 16, 0xf56c7cf1, 0xd6819c6a, 0x5aa53f75, 0x374943a7, 1, 0, 5, 0xf61e2562, 0x4a2fdec5, 0x1c7d7513);
    Turn(Empty(), 17, 0x374943a7, 0x1c7d7513, 0xd6819c6a, 0x5aa53f75, 6, 0, 9, 0xc040b340, 0x93afac02, 0x7bd57a3a);
    Turn(Empty(), 18, 0x5aa53f75, 0x7bd57a3a, 0x1c7d7513, 0xd6819c6a, 11, 0, 14, 0x265e5a51, 0xdc011301, 0xc095f13a);
    Turn(Empty(), 19, 0xd6819c6a, 0xc095f13a, 0x7bd57a3a, 0x1c7d7513, 0, 0x80, 20, 0xe9b6c7aa, 0x23cddfce, 0xbd782e17);
  }

  lemma Empty20()
    requires Steps(INITIAL, Empty(), 20) == At(0x1c7d7513, 0xbd782e17, 0xc095f13a, 0x7bd57a3a)
    ensures Steps(INITIAL, Empty(), 24) == At(0x3d1e3e6c, 0xe422531a, 0xeb41643e, 0x68b7b3e3)
  {
    hide Steps, OneStep, At, Uses, Empty, WordIndex, ShiftAmount, SineWord;
    EmptyWordsAre();
    Constants2();
    Turn(Empty(), 20, 0x1c7d7513, 0xbd782e17, 0xc095f13a, 0x7bd57a3a, 5, 0, 5, 0xd62f105d, 0xabfd3082, 0x3d1e3e6c);
    Turn(Empty(), 21, 0x7bd57a3a, 0x3d1e3e6c, 0xbd782e17, 0xc095f13a, 10, 0, 9, 0x02441453, 0xbb95ccba, 0x68b7b3e3);
    Turn(Empty(), 22, 0xc095f13a, 0x68b7b3e3, 0x3d1e3e6c, 0xbd782e17, 15, 0, 14, 0xd8a1e681, 0xc16e0a26, 0xeb41643e);
    Turn(Empty(), 23, 0xbd782e17, 0xeb41643e, 0x68b7b3e3, 0x3d1e3e6c, 4, 0, 20, 0xe7d3fbc8, 0x0eedcf8e, 0xe422531a);
  }

  lemma Empty24()
    requires Steps(INITIAL, Empty(), 24) == At(0x3d1e3e6c, 0xe422531a, 0xeb41643e, 0x68b7b3e3)
    ensures Steps(INITIAL, Empty(), 28) == At(0x306ec122, 0xa0572807, 0xa3c663da, 0xd28c77c2)
  {
    hide Steps, OneStep, At, Uses, Empty, WordIndex, ShiftAmount, SineWord;
    EmptyWordsAre();
    Constants2();
    Turn(Empty(), 24, 0x3d1e3e6c, 0xe422531a, 0xeb41643e, 0x68b7b3e3, 9, 0, 5, 0x21e1cde6, 0x42626370, 0x306ec122);
    Turn(Empty(), 25, 0x68b7b3e3, 0x306ec122, 0xe422531a, 0xeb41643e, 14, 0, 9, 0xc33707d6, 0x50510edb, 0xd28c77c2);
    Turn(Empty(), 26, 0xeb41643e, 0xd28c77c2, 0x306ec122, 0xe422531a, 3, 0, 14, 0xf4d50d87, 0xb06344e7, 0xa3c663da);
    Turn(Empty(), 27, 0xe422531a, 0xa3c663da, 0xd28c77c2, 0x306ec122, 8, 0, 20, 0x455a14ed, 0x0c42dfc9, 0xa0572807);
  }

  lemma Empty28()
    requires Steps(INITIAL, Empty(), 28) == At(0x306ec122, 0xa0572807, 0xa3c663da, 0xd28c77c2)
    ensures Steps(INITIAL, Empty(), 32) == At(0x13707036, 0xa2205f1f, 0x1c31c384, 0xae7813db)
  {
    hide Steps, OneStep, At, Uses, Empty, WordIndex, ShiftAmount, SineWord;
    EmptyWordsAre();
    Constants2();
    Turn(Empty(), 28, 0x306ec122, 0xa0572807, 0xa3c663da, 0xd28c77c2, 13, 0, 5, 0xa9e3e905, 0x7b98ca41, 0x13707036);
    Turn(Empty(), 29, 0xd28c77c2, 0x13707036, 0xa0572807, 0xa3c663da, 2, 0, 9, 0xfcefa3f8, 0xd2cd83d1, 0xae7813db);
    Turn(Empty(), 30, 0xa3c663da, 0xae7813db, 0x13707036, 0xa0572807, 7, 0, 14, 0x676f02d9, 0xbea5b6e6, 0x1c31c384);
    Turn(Empty(), 31, 0xa0572807, 0x1c31c384, 0xae7813db, 0x13707036, 12, 0, 20, 0x8d2a4c8a, 0xe9b9b85e, 0xa2205f1f);
  }

  lemma Empty32()
    requires Steps(INITIAL, Empty(), 32) == At(0x13707036, 0xa2205f1f, 0x1c31c384, 0xae7813db)
    ensures Steps(INITIAL, Empty(), 36) == At(0xdf63eaa1, 0x004b6669, 0x12f3e755, 0xc3689f5b)
  {
    hide Steps, OneStep, At, Uses, Empty, WordIndex, ShiftAmount, SineWord;
    EmptyWordsAre();
    Constants3();
    Turn(Empty(), 32, 0x13707036, 0xa2205f1f, 0x1c31c384, 0xae7813db, 5, 0, 4, 0xfffa3942, 0x23d438b8, 0xdf63eaa1);
    Turn(Empty(), 33, 0xae7813db, 0xdf63eaa1, 0xa2205f1f, 0x1c31c384, 8, 0, 11, 0x8771f681, 0x975c8096, 0xc3689f5b);
    Turn(Empty(), 34, 0x1c31c384, 0xc3689f5b, 0xdf63eaa1, 0xa2205f1f, 11, 0, 16, 0x6d9d6122, 0x47fa4f8b, 0x12f3e755);
    Turn(Empty(), 35, 0xa2205f1f, 0x12f3e755, 0xc3689f5b, 0xdf63eaa1, 14, 0, 23, 0xfde5380c, 0xaefe29da, 0x004b6669);
  }

  lemma Empty36()
    requires Steps(INITIAL, Empty(), 36) == At(0xdf63eaa1, 0x004b6669, 0x12f3e755, 0xc3689f5b)
    ensures Steps(INITIAL, Empty(), 40) == At(0x5f7a9b2e, 0xc5dc8c15, 0x91ca4cb7, 0xabc34e16)
  {
    hide Steps, OneStep, At, Uses, Empty, WordIndex, ShiftAmount, SineWord;
    EmptyWordsAre();
    Constants3();
    Turn(Empty(), 36, 0xdf63eaa1, 0x004b6669, 0x12f3e755, 0xc3689f5b, 1, 0, 4, 0xa4beea44, 0x55f2f34c, 0x5f7a9b2e);
    Turn(Empty(), 37, 0xc3689f5b, 0x5f7a9b2e, 0x004b6669, 0x12f3e755, 4, 0, 11, 0x4bdecfa9, 0x5d098916, 0xabc34e16);
    Turn(Empty(), 38, 0x12f3e755, 0xabc34e16, 0x5f7a9b2e, 0x004b6669, 7, 0, 16, 0xf6bb4b60, 0xfea1e606, 0x91ca4cb7);
    Turn(Empty(), 39, 0x004b6669, 0x91ca4cb7, 0xabc34e16, 0x5f7a9b2e, 10, 0, 23, 0xbebfbc70, 0x247ebc68, 0xc5dc8c15);
  }

  lemma Empty40()
    requires Steps(INITIAL, Empty(), 40) == At(0x5f7a9b2e, 0xc5dc8c15, 0x91ca4cb7, 0xabc34e16)
    ensures Steps(INITIAL, Empty(), 44) == At(0x4497169d, 0x0fe32453, 0xfd95f243, 0x76fd93d4)
  {
    hide Steps, OneStep, At, Uses, Empty, WordIndex, ShiftAmount, SineWord;
    EmptyWordsAre();
    Constants3();
    Turn(Empty(), 40, 0x5f7a9b2e, 0xc5dc8c15, 0x91ca4cb7, 0xabc34e16, 13, 0, 4, 0x289b7ec6, 0x87eba8a8, 0x4497169d);
    Turn(Empty(), 41, 0xabc34e16, 0x4497169d, 0xc5dc8c15, 0x91ca4cb7, 0, 0x80, 11, 0xeaa127fa, 0xa6e64ccf, 0x76fd93d4);
    Turn(Empty(), 42, 0x91ca4cb7, 0x76fd93d4, 0x4497169d, 0xc5dc8c15, 3, 0, 16, 0xd4ef3085, 0x5e6f8698, 0xfd95f243);
    Turn(Empty(), 43, 0xc5dc8c15, 0xfd95f243, 0x76fd93d4, 0x4497169d, 6, 0, 23, 0x04881d05, 0x9a642024, 0x0fe32453);
  }

  lemma Empty44()
    requires Steps(INITIAL, Empty(), 44) == At(0x4497169d, 0x0fe32453, 0xfd95f243, 0x76fd93d4)
    ensures Steps(INITIAL, Empty(), 48) == At(0x3f55edfd, 0xca7d2dbd, 0x68d84ea2, 0x22a31f54)
  {
    hide Steps, OneStep, At, Uses, Empty, WordIndex, ShiftAmount, SineWord;
    EmptyWordsAre();
    Constants3();
    Turn(Empty(), 44, 0x4497169d, 0x0fe32453, 0xfd95f243, 0x76fd93d4, 9, 0, 4, 0xd9d4d039, 0xa2f72c9a, 0x3f55edfd);
    Turn(Empty(), 45, 0x76fd93d4, 0x3f55edfd, 0x0fe32453, 0xfd95f243, 12, 0, 11, 0xe6db99e5, 0x2afc69a6, 0x22a31f54);
    Turn(Empty(), 46, 0xfd95f243, 0x22a31f54, 0x3f55edfd, 0x0fe32453, 15, 0, 16, 0x1fa27cf8, 0x2f4e4635, 0x68d84ea2);
    Turn(Empty(), 47, 0x0fe32453, 0x68d84ea2, 0x22a31f54, 0x3f55edfd, 2, 0, 23, 0xc4ac5665, 0x49be36c3, 0xca7d2dbd);
  }

  lemma Empty48()
    requires Steps(INITIAL, Empty(), 48) == At(0x3f55edfd, 0xca7d2dbd, 0x68d84ea2, 0x22a31f54)
    ensures Steps(INITIAL, Empty(), 52) == At(0x93aa2577, 0x561e0689, 0xcd85b8cb, 0x1688dc85)
  {
    hide Steps, OneStep, At, Uses, Empty, WordIndex, ShiftAmount, SineWord;
    EmptyWordsAre();
    Constants4();
    Turn(Empty(), 48, 0x3f55edfd, 0xca7d2dbd, 0x68d84ea2, 0x22a31f54, 0, 0x80, 6, 0xf4292244, 0xeb24b3de, 0x93aa2577);
    Turn(Empty(), 49, 0x22a31f54, 0x93aa2577, 0xca7d2dbd, 0x68d84ea2, 7, 0, 10, 0x432aff97, 0xc3a0b7ad, 0x1688dc85);
    Turn(Empty(), 50, 0x68d84ea2, 0x1688dc85, 0x93aa2577, 0xca7d2dbd, 14, 0, 15, 0xab9423a7, 0xb88d6df9, 0xcd85b8cb);
    Turn(Empty(), 51, 0xca7d2dbd, 0xcd85b8cb, 0x1688dc85, 0x93aa2577, 5, 0, 21, 0xfc93a039, 0xc26df444, 0x561e0689);
  }

  lemma Empty52()
    requires Steps(INITIAL, Empty(), 52) == At(0x93aa2577, 0x561e0689, 0xcd85b8cb, 0x1688dc85)
    ensures Steps(INITIAL, Empty(), 56) == At(0x5625a114, 0x1e77fa61, 0x392ad0d0, 0x3450f42b)
  {
    hide Steps, OneStep, At, Uses, Empty, WordIndex, ShiftAmount, SineWord;
    EmptyWordsAre();
    Constants4();
    Turn(Empty(), 52, 0x93aa2577, 0x561e0689, 0xcd85b8cb, 0x1688dc85, 12, 0, 6, 0x655b59c3, 0x2c001e6a, 0x5625a114);
    Turn(Empty(), 53, 0x1688dc85, 0x5625a114, 0x561e0689, 0xcd85b8cb, 3, 0, 10, 0x8f0ccc92, 0xc5f78ad4, 0x3450f42b);
    Turn(Empty(), 54, 0xcd85b8cb, 0x3450f42b, 0x5625a114, 0x561e0689, 10, 0, 15, 0xffeff47d, 0xb94a09b3, 0x392ad0d0);
    Turn(Empty(), 55, 0x561e0689, 0x392ad0d0, 0x3450f42b, 0x5625a114, 1, 0, 21, 0x85845dd1, 0x694c8f2a, 0x1e77fa61);
  }

  lemma Empty56()
    requires Steps(INITIAL, Empty(), 56) == At(0x5625a114, 0x1e77fa61, 0x392ad0d0, 0x3450f42b)
    ensures Steps(INITIAL, Empty(), 60) == At(0x474a9c8c, 0x30130182, 0x36594b14, 0xdfce00bc)
  {
    hide Steps, OneStep, At, Uses, Empty, WordIndex, ShiftAmount, SineWord;
    EmptyWordsAre();
    Constants4();
    Turn(Empty(), 56, 0x5625a114, 0x1e77fa61, 0x392ad0d0, 0x3450f42b, 8, 0, 6, 0x6fa87e4f, 0xaca34a88, 0x474a9c8c);
    Turn(Empty(), 57, 0x3450f42b, 0x474a9c8c, 0x1e77fa61, 0x392ad0d0, 15, 0, 10, 0xfe2ce6e0, 0x0c2620d9, 0xdfce00bc);
    Turn(Empty(), 58, 0x392ad0d0, 0xdfce00bc, 0x474a9c8c, 0x1e77fa61, 6, 0, 15, 0xa3014314, 0x94b0ad16, 0x36594b14);
    Turn(Empty(), 59, 0x1e77fa61, 0x36594b14, 0xdfce00bc, 0x474a9c8c, 13, 0, 21, 0x4e0811a1, 0xcdb377cd, 0x30130182);
  }

  lemma Empty60()
    requires Steps(INITIAL, Empty(), 60) == At(0x474a9c8c, 0x30130182, 0x36594b14, 0xdfce00bc)
    ensures Steps(INITIAL, Empty(), 64) == At(0x7246fad3, 0x14e45506, 0xff4ea3eb, 0x6e10a476)
  {
    hide Steps, OneStep, At, Uses, Empty, WordIndex, ShiftAmount, SineWord;
    EmptyWordsAre();
    Constants4();
    Turn(Empty(), 60, 0x474a9c8c, 0x30130182, 0x36594b14, 0xdfce00bc, 4, 0, 6, 0xf7537e82, 0x4508cfe5, 0x7246fad3);
    Turn(Empty(), 61, 0xdfce00bc, 0x7246fad3, 0x30130182, 0x36594b14, 11, 0, 10, 0xbd3af235, 0x68fef26a, 0x6e10a476);
    Turn(Empty(), 62, 0x36594b14, 0x6e10a476, 0x7246fad3, 0x30130182, 2, 0, 15, 0x2ad7d2bb, 0xfeeb227b, 0xff4ea3eb);
    Turn(Empty(), 63, 0x30130182, 0xff4ea3eb, 0x6e10a476, 0x7246fad3, 9, 0, 21, 0xeb86d391, 0xad88d8ac, 0x14e45506);
  }

  lemma EmptyBlock(b: seq<byte>, k: nat)
    requires b == Padded([]) && k < 16
    ensures |b| == BLOCK_SIZE && Word(b, 4 * k) == Empty()[k]
  {
    hide LengthBytes;
    EmptyLength();
  }

  lemma EmptyLength()
    ensures PadLength(0) == 56 && LengthBytes(0) == [0x0, 0, 0, 0, 0, 0, 0, 0]
  {
  }

  lemma EmptyPadded()
    ensures |Padded([])| == BLOCK_SIZE && BlockWords(Padded([])) == Empty()
  {
    hide Padded, Word;
    EmptyBlock(Padded([]), 0);
    forall k: nat | k < 16
      ensures Word(Padded([]), 4 * k) == Empty()[k]
    {
      EmptyBlock(Padded([]), k);
    }
  }

  lemma EmptyCompressed()
    ensures Compress(INITIAL, Empty()) == Regs(0xd98c1dd4, 0x04b2008f, 0x980980e9, 0x7e42f8ec)
  {
    hide Steps, Add;
    Empty0();
    Empty4();
    Empty8();
    Empty12();
    Empty16();
    Empty20();
    Empty24();
    Empty28();
    Empty32();
    Empty36();
    Empty40();
    Empty44();
    Empty48();
    Empty52();
    Empty56();
    Empty60();
    Added(0x7246fad3, 0x14e45506, 0xff4ea3eb, 0x6e10a476);
  }

  lemma EmptySignature()
    ensures Signature(Regs(0xd98c1dd4, 0x04b2008f, 0x980980e9, 0x7e42f8ec))
         == [0xd4, 0x1d, 0x8c, 0xd9, 0x8f, 0x00, 0xb2, 0x04, 0xe9, 0x80, 0x09, 0x98, 0xec, 0xf8, 0x42, 0x7e]
  {
    hide LittleEndian;
    BytesOf(0xd98c1dd4, 0xd4, 0x1d, 0x8c, 0xd9);
    BytesOf(0x04b2008f, 0x8f, 0x00, 0xb2, 0x04);
    BytesOf(0x980980e9, 0xe9, 0x80, 0x09, 0x98);
    BytesOf(0x7e42f8ec, 0xec, 0xf8, 0x42, 0x7e);
  }

  /** The digest that the standard gives. */
  lemma DigestEmpty()
    ensures Digest([]) == [0xd4, 0x1d, 0x8c, 0xd9, 0x8f, 0x00, 0xb2, 0x04, 0xe9, 0x80, 0x09, 0x98, 0xec, 0xf8, 0x42, 0x7e]
  {
    hide Compress, Padded, BlockWords, Signature;
    EmptySignature();
    EmptyPadded();
    EmptyCompressed();
    OneBlock(Padded([]));
  }

  // ----- The message "abc"

  function Abc(): (x: seq<word>)
    ensures |x| == 16
  {
    [0x80636261, 0, 0, 0, 0, 0, 0, 0, 0, 0, 0, 0, 0, 0, 0x18, 0]
  }

  lemma AbcWordsAre()
    ensures Abc()[0] == 0x80636261 && Abc()[14] == 0x18
    ensures forall k :: 0 <= k < 16 && k != 0 && k != 14 ==> Abc()[k] == 0
  {
  }

  lemma Abc0()
    ensures Steps(INITIAL, Abc(), 4) == At(0xd6d117b4, 0x7ad956f2, 0x2f6fbd72, 0x344a8432)
  {
    hide Steps, OneStep, At, Uses, Abc, WordIndex, ShiftAmount, SineWord;
    AbcWordsAre();
    Constants1();
    Start(Abc());
    Turn(Abc(), 0, 0x67452301, 0xefcdab89, 0x98badcfe, 0x10325476, 0, 0x80636261, 7, 0xd76aa478, 0x57ce06d8, 0xd6d117b4);
    Turn(Abc(), 1, 0x10325476, 0xd6d117b4, 0xefcdab89, 0x98badcfe, 1, 0, 12, 0xe8c7b756, 0xc7e5d796, 0x344a8432);
    Turn(Abc(), 2, 0x98badcfe, 0x344a8432, 0xd6d117b4, 0xefcdab89, 2, 0, 17, 0x242070db, 0x9ca07d92, 0x2f6fbd72);
    Turn(Abc(), 3, 0xefcdab89, 0x2f6fbd72, 0x344a8432, 0xd6d117b4, 3, 0, 22, 0xc1bdceee, 0xa666012d, 0x7ad956f2);
  }

  lemma Abc4()
    requires Steps(INITIAL, Abc(), 4) == At(0xd6d117b4, 0x7ad956f2, 0x2f6fbd72, 0x344a8432)
    ensures Steps(INITIAL, Abc(), 8) == At(0xc73741ef, 0x928d99f6, 0x207dc67b, 0x8bac3051)
  {
    hide Steps, OneStep, At, Uses, Abc, WordIndex, ShiftAmount, SineWord;
    AbcWordsAre();
    Constants1();
    Turn(Abc(), 4, 0xd6d117b4, 0x7ad956f2, 0x2f6fbd72, 0x344a8432, 4, 0, 7, 0xf57c0faf, 0xfa98bbd5, 0xc73741ef);
    Turn(Abc(), 5, 0x344a8432, 0xc73741ef, 0x7ad956f2, 0x2f6fbd72, 5, 0, 12, 0x4787c62a, 0xe62c474e, 0x8bac3051);
    Turn(Abc(), 6, 0x2f6fbd72, 0x8bac3051, 0xc73741ef, 0x7ad956f2, 6, 0, 17, 0xa8304613, 0xcb154a68, 0x207dc67b);
    Turn(Abc(), 7, 0x7ad956f2, 0x207dc67b, 0x8bac3051, 0xc73741ef, 7, 0, 22, 0xfd469501, 0x3f4dedc8, 0x928d99f6);
  }

  lemma Abc8()
    requires Steps(INITIAL, Abc(), 8) == At(0xc73741ef, 0x928d99f6, 0x207dc67b, 0x8bac3051)
    ensures Steps(INITIAL, Abc(), 12) == At(0x854b3712, 0x5ed49596, 0x3020401c, 0x74e2f284)
  {
    hide Steps, OneStep, At, Uses, Abc, WordIndex, ShiftAmount, SineWord;
    AbcWordsAre();
    Constants1();
    Turn(Abc(), 8, 0xc73741ef, 0x928d99f6, 0x207dc67b, 0x8bac3051, 8, 0, 7, 0x698098d8, 0x39e57b3a, 0x854b3712);
    Turn(Abc(), 9, 0x8bac3051, 0x854b3712, 0x928d99f6, 0x207dc67b, 9, 0, 12, 0x8b44f7af, 0xb72ef97b, 0x74e2f284);
    Turn(Abc(), 10, 0x207dc67b, 0x74e2f284, 0x854b3712, 0x928d99f6, 10, 0, 17, 0xffff5bb1, 0xa6cc5d9e, 0x3020401c);
    Turn(Abc(), 11, 0x928d99f6, 0x3020401c, 0x74e2f284, 0x854b3712, 11, 0, 22, 0x895cd7be, 0xd155e8ba, 0x5ed49596);
  }

  lemma Abc12()
    requires Steps(INITIAL, Abc(), 12) == At(0x854b3712, 0x5ed49596, 0x3020401c, 0x74e2f284)
    ensures Steps(INITIAL, Abc(), 16) == At(0xdda9b9a6, 0x72aff2e0, 0xe396856b, 0xa1051895)
  {
    hide Steps, OneStep, At, Uses, Abc, WordIndex, ShiftAmount, SineWord;
    AbcWordsAre();
    Constants1();
    Turn(Abc(), 12, 0x854b3712, 0x5ed49596, 0x3020401c, 0x74e2f284, 12, 0, 7, 0x6b901122, 0x20fdaa48, 0xdda9b9a6);
    Turn(Abc(), 13, 0x74e2f284, 0xdda9b9a6, 0x5ed49596, 0x3020401c, 13, 0, 12, 0xfd987193, 0xeefc35b5, 0xa1051895);
    Turn(Abc(), 14, 0x3020401c, 0xa1051895, 0xdda9b9a6, 0x5ed49596, 14, 0x18, 17, 0xa679438e, 0xb66b2148, 0xe396856b);
    Turn(Abc(), 15, 0x5ed49596, 0xe396856b, 0xa1051895, 0xdda9b9a6, 15, 0, 22, 0x49b40821, 0x65b5d63c, 0x72aff2e0);
  }

  lemma Abc16()
    requires Steps(INITIAL, Abc(), 16) == At(0xdda9b9a6, 0x72aff2e0, 0xe396856b, 0xa1051895)
    ensures Steps(INITIAL, Abc(), 20) == At(0x3e9e9126, 0xb5b204e4, 0xe25e1652, 0x4a1d804e)
  {
    hide Steps, OneStep, At, Uses, Abc, WordIndex, ShiftAmount, SineWord;
    AbcWordsAre();
    Constants2();
    Turn(Abc(), 16, 0xdda9b9a6, 0x72aff2e0, 0xe396856b, 0xa1051895, 1, 0, 5, 0xf61e2562, 0x365f74f2, 0x3e9e9126);
    Turn(Abc(), 17, 0xa1051895, 0x3e9e9126, 0x72aff2e0, 0xe396856b, 6, 0, 9, 0xc040b340, 0x9405bf77, 0x4a1d804e);
    Turn(Abc(), 18, 0xe396856b, 0x4a1d804e, 0x3e9e9126, 0x72aff2e0, 11, 0, 14, 0x265e5a51, 0x58126102, 0xe25e1652);
    Turn(Abc(), 19, 0x72aff2e0, 0xe25e1652, 0x4a1d804e, 0x3e9e9126, 0, 0x80636261, 20, 0xe9b6c7aa, 0x3ee92d35, 0xb5b204e4);
  }

  lemma Abc20()
    requires Steps(INITIAL, Abc(), 20) == At(0x3e9e9126, 0xb5b204e4, 0xe25e1652, 0x4a1d804e)
    ensures Steps(INITIAL, Abc(), 24) == At(0x59a8ffda, 0x47092c07, 0xabfc7920, 0x6d002f1e)
  {
    hide Steps, OneStep, At, Uses, Abc, WordIndex, ShiftAmount, SineWord;
    AbcWordsAre();
    Constants2();
    Turn(Abc(), 20, 0x3e9e9126, 0xb5b204e4, 0xe25e1652, 0x4a1d804e, 5, 0, 5, 0xd62f105d, 0xb51fb7d7, 0x59a8ffda);
    Turn(Abc(), 21, 0x4a1d804e, 0x59a8ffda, 0xb5b204e4, 0xe25e1652, 10, 0, 9, 0x02441453, 0xa209ab97, 0x6d002f1e);
    Turn(Abc(), 22, 0xe25e1652, 0x6d002f1e, 0x59a8ffda, 0xb5b204e4, 15, 0, 14, 0xd8a1e681, 0x2808fbf1, 0xabfc7920);
    Turn(Abc(), 23, 0xb5b204e4, 0xabfc7920, 0x6d002f1e, 0x59a8ffda, 4, 0, 20, 0xe7d3fbc8, 0xcb2e79b0, 0x47092c07);
  }

  lemma Abc24()
    requires Steps(INITIAL, Abc(), 24) == At(0x59a8ffda, 0x47092c07, 0xabfc7920, 0x6d002f1e)
    ensures Steps(INITIAL, Abc(), 28) == At(0xb7f268cf, 0x786acb8f, 0xfe1623b1, 0x09388eff)
  {
    hide Steps, OneStep, At, Uses, Abc, WordIndex, ShiftAmount, SineWord;
    AbcWordsAre();
    Constants2();
    Turn(Abc(), 24, 0x59a8ffda, 0x47092c07, 0xabfc7920, 0x6d002f1e, 9, 0, 5, 0x21e1cde6, 0x438749e6, 0xb7f268cf);
    Turn(Abc(), 25, 0x6d002f1e, 0xb7f268cf, 0x47092c07, 0xabfc7920, 14, 0x18, 9, 0xc33707d6, 0x1828a313, 0x09388eff);
    Turn(Abc(), 26, 0xabfc7920, 0x09388eff, 0xb7f268cf, 0x47092c07, 3, 0, 14, 0xf4d50d87, 0x52cbd376, 0xfe1623b1);
    Turn(Abc(), 27, 0x47092c07, 0xfe1623b1, 0x09388eff, 0xb7f268cf, 8, 0, 20, 0x455a14ed, 0x4a7de7a5, 0x786acb8f);
  }

  lemma Abc28()
    requires Steps(INITIAL, Abc(), 28) == At(0xb7f268cf, 0x786acb8f, 0xfe1623b1, 0x09388eff)
    ensures Steps(INITIAL, Abc(), 32) == At(0x790a77fb, 0x726342d3, 0xa62884aa, 0x9f47e4f8)
  {
    hide Steps, OneStep, At, Uses, Abc, WordIndex, ShiftAmount, SineWord;
    AbcWordsAre();
    Constants2();
    Turn(Abc(), 28, 0xb7f268cf, 0x786acb8f, 0xfe1623b1, 0x09388eff, 13, 0, 5, 0xa9e3e905, 0x6004fd63, 0x790a77fb);
    Turn(Abc(), 29, 0x09388eff, 0x790a77fb, 0x786acb8f, 0xfe1623b1, 2, 0, 9, 0xfcefa3f8, 0x7e931eb6, 0x9f47e4f8);
    Turn(Abc(), 30, 0xfe1623b1, 0x9f47e4f8, 0x790a77fb, 0x786acb8f, 7, 0, 14, 0x676f02d9, 0x7ec81b82, 0xa62884aa);
    Turn(Abc(), 31, 0x786acb8f, 0xa62884aa, 0x9f47e4f8, 0x790a77fb, 12, 0, 20, 0x8d2a4c8a, 0xabe29cc3, 0x726342d3);
  }

  lemma Abc32()
    requires Steps(INITIAL, Abc(), 32) == At(0x790a77fb, 0x726342d3, 0xa62884aa, 0x9f47e4f8)
    ensures Steps(INITIAL, Abc(), 36) == At(0xb3707ebf, 0x3b0875c7, 0x8d212ff5, 0x60127b2e)
  {
    hide Steps, OneStep, At, Uses, Abc, WordIndex, ShiftAmount, SineWord;
    AbcWordsAre();
    Constants3();
    Turn(Abc(), 32, 0x790a77fb, 0x726342d3, 0xa62884aa, 0x9f47e4f8, 5, 0, 4, 0xfffa3942, 0xc410d3be, 0xb3707ebf);
    Turn(Abc(), 33, 0x9f47e4f8, 0xb3707ebf, 0x726342d3, 0xa62884aa, 8, 0, 11, 0x8771f681, 0x8df5943f, 0x60127b2e);
    Turn(Abc(), 34, 0xa62884aa, 0x60127b2e, 0xb3707ebf, 0x726342d3, 11, 0, 16, 0x6d9d6122, 0xb4c72d0e, 0x8d212ff5);
    Turn(Abc(), 35, 0x726342d3, 0x8d212ff5, 0x60127b2e, 0xb3707ebf, 14, 0x18, 23, 0xfde5380c, 0xce8ba55b, 0x3b0875c7);
  }

  lemma Abc36()
    requires Steps(INITIAL, Abc(), 36) == At(0xb3707ebf, 0x3b0875c7, 0x8d212ff5, 0x60127b2e)
    ensures Steps(INITIAL, Abc(), 40) == At(0x21b117b9, 0x5a2f5ea5, 0x3575227e, 0x6e7429d5)
  {
    hide Steps, OneStep, At, Uses, Abc, WordIndex, ShiftAmount, SineWord;
    AbcWordsAre();
    Constants3();
    Turn(Abc(), 36, 0xb3707ebf, 0x3b0875c7, 0x8d212ff5, 0x60127b2e, 1, 0, 4, 0xa4beea44, 0x2e6a8a1f, 0x21b117b9);
    Turn(Abc(), 37, 0x60127b2e, 0x21b117b9, 0x3b0875c7, 0x8d212ff5, 4, 0, 11, 0x4bdecfa9, 0x43899862, 0x6e7429d5);
    Turn(Abc(), 38, 0x8d212ff5, 0x6e7429d5, 0x21b117b9, 0x3b0875c7, 7, 0, 16, 0xf6bb4b60, 0xf8a9c700, 0x3575227e);
    Turn(Abc(), 39, 0x3b0875c7, 0x3575227e, 0x6e7429d5, 0x21b117b9, 10, 0, 23, 0xbebfbc70, 0x74784e49, 0x5a2f5ea5);
  }

  lemma Abc40()
    requires Steps(INITIAL, Abc(), 40) == At(0x21b117b9, 0x5a2f5ea5, 0x3575227e, 0x6e7429d5)
    ensures Steps(INITIAL, Abc(), 44) == At(0x11de1779, 0x4c6124f4, 0x31c465ca, 0xfadcaa38)
  {
    hide Steps, OneStep, At, Uses, Abc, WordIndex, ShiftAmount, SineWord;
    AbcWordsAre();
    Constants3();
    Turn(Abc(), 40, 0x21b117b9, 0x5a2f5ea5, 0x3575227e, 0x6e7429d5, 13, 0, 4, 0x289b7ec6, 0x4b7aeb8d, 0x11de1779);
    Turn(Abc(), 41, 0x6e7429d5, 0x11de1779, 0x5a2f5ea5, 0x3575227e, 0, 0x80636261, 11, 0xeaa127fa, 0x57fd1fd2, 0xfadcaa38);
    Turn(Abc(), 42, 0x3575227e, 0xfadcaa38, 0x11de1779, 0x5a2f5ea5, 3, 0, 16, 0xd4ef3085, 0xbb9236e7, 0x31c465ca);
    Turn(Abc(), 43, 0x5a2f5ea5, 0x31c465ca, 0xfadcaa38, 0x11de1779, 6, 0, 23, 0x04881d05, 0x397e5435, 0x4c6124f4);
  }

  lemma Abc44()
    requires Steps(INITIAL, Abc(), 44) == At(0x11de1779, 0x4c6124f4, 0x31c465ca, 0xfadcaa38)
    ensures Steps(INITIAL, Abc(), 48) == At(0x7f2e507b, 0x7beb9700, 0x8fae6399, 0x99d9679d)
  {
    hide Steps, OneStep, At, Uses, Abc, WordIndex, ShiftAmount, SineWord;
    AbcWordsAre();
    Constants3();
    Turn(Abc(), 44, 0x11de1779, 0x4c6124f4, 0x31c465ca, 0xfadcaa38, 9, 0, 4, 0xd9d4d039, 0x732cd2b8, 0x7f2e507b);
    Turn(Abc(), 45, 0xfadcaa38, 0x7f2e507b, 0x4c6124f4, 0x31c465ca, 12, 0, 11, 0xe6db99e5, 0xe4435562, 0x99d9679d);
    Turn(Abc(), 46, 0x31c465ca, 0x99d9679d, 0x7f2e507b, 0x4c6124f4, 15, 0, 16, 0x1fa27cf8, 0xfbfcf5d4, 0x8fae6399);
    Turn(Abc(), 47, 0x4c6124f4, 0x8fae6399, 0x99d9679d, 0x7f2e507b, 2, 0, 23, 0xc4ac5665, 0x7a66cfd8, 0x7beb9700);
  }

  lemma Abc48()
    requires Steps(INITIAL, Abc(), 48) == At(0x7f2e507b, 0x7beb9700, 0x8fae6399, 0x99d9679d)
    ensures Steps(INITIAL, Abc(), 52) == At(0x7b201df8, 0x8bf025c4, 0xb298cefd, 0xf4e8e96e)
  {
    hide Steps, OneStep, At, Uses, Abc, WordIndex, ShiftAmount, SineWord;
    AbcWordsAre();
    Constants4();
    Turn(Abc(), 48, 0x7f2e507b, 0x7beb9700, 0x8fae6399, 0x99d9679d, 0, 0x80636261, 6, 0xf4292244, 0xe3fcd21b, 0x7b201df8);
    Turn(Abc(), 49, 0x99d9679d, 0x7b201df8, 0x7beb9700, 0x8fae6399, 7, 0, 10, 0x432aff97, 0xdd9e7232, 0xf4e8e96e);
    Turn(Abc(), 50, 0x8fae6399, 0xf4e8e96e, 0x7b201df8, 0x7beb9700, 14, 0x18, 15, 0xab9423a7, 0xcb1f7b5f, 0xb298cefd);
    Turn(Abc(), 51, 0x7beb9700, 0xb298cefd, 0xf4e8e96e, 0x7b201df8, 5, 0, 21, 0xfc93a039, 0xbab63eca, 0x8bf025c4);
  }

  lemma Abc52()
    requires Steps(INITIAL, Abc(), 52) == At(0x7b201df8, 0x8bf025c4, 0xb298cefd, 0xf4e8e96e)
    ensures Steps(INITIAL, Abc(), 56) == At(0x06cc5e8a, 0x3bfa2c27, 0x7d632dd0, 0x5b0d97aa)
  {
    hide Steps, OneStep, At, Uses, Abc, WordIndex, ShiftAmount, SineWord;
    AbcWordsAre();
    Constants4();
    Turn(Abc(), 52, 0x7b201df8, 0x8bf025c4, 0xb298cefd, 0xf4e8e96e, 12, 0, 6, 0x655b59c3, 0x19eb70e3, 0x06cc5e8a);
    Turn(Abc(), 53, 0xf4e8e96e, 0x06cc5e8a, 0x8bf025c4, 0xb298cefd, 3, 0, 10, 0x8f0ccc92, 0x4815104e, 0x5b0d97aa);
    Turn(Abc(), 54, 0xb298cefd, 0x5b0d97aa, 0x06cc5e8a, 0x8bf025c4, 10, 0, 15, 0xffeff47d, 0x2c4c44ab, 0x7d632dd0);
    Turn(Abc(), 55, 0x8bf025c4, 0x7d632dd0, 0x5b0d97aa, 0x06cc5e8a, 1, 0, 21, 0x85845dd1, 0xb7f2bdf4, 0x3bfa2c27);
  }

  lemma Abc56()
    requires Steps(INITIAL, Abc(), 56) == At(0x06cc5e8a, 0x3bfa2c27, 0x7d632dd0, 0x5b0d97aa)
    ensures Steps(INITIAL, Abc(), 60) == At(0x7f81cc35, 0x7327d604, 0x4f9dbe3f, 0x094454ab)
  {
    hide Steps, OneStep, At, Uses, Abc, WordIndex, ShiftAmount, SineWord;
    AbcWordsAre();
    Constants4();
    Turn(Abc(), 56, 0x06cc5e8a, 0x3bfa2c27, 0x7d632dd0, 0x5b0d97aa, 8, 0, 6, 0x6fa87e4f, 0x390e1e80, 0x7f81cc35);
    Turn(Abc(), 57, 0x5b0d97aa, 0x7f81cc35, 0x3bfa2c27, 0x7d632dd0, 15, 0, 10, 0xfe2ce6e0, 0x1da270a2, 0x094454ab);
    Turn(Abc(), 58, 0x7d632dd0, 0x094454ab, 0x7f81cc35, 0x3bfa2c27, 6, 0, 15, 0xa3014314, 0xd3288cb2, 0x4f9dbe3f);
    Turn(Abc(), 59, 0x3bfa2c27, 0x4f9dbe3f, 0x094454ab, 0x7f81cc35, 13, 0, 21, 0x4e0811a1, 0x50be291c, 0x7327d604);
  }

  lemma Abc60()
    requires Steps(INITIAL, Abc(), 60) == At(0x7f81cc35, 0x7327d604, 0x4f9dbe3f, 0x094454ab)
    ensures Steps(INITIAL, Abc(), 64) == At(0x310ade8f, 0xc08226b3, 0xe484b9d8, 0x624d8cb2)
  {
    hide Steps, OneStep, At, Uses, Abc, WordIndex, ShiftAmount, SineWord;
    AbcWordsAre();
    Constants4();
    Turn(Abc(), 60, 0x7f81cc35, 0x7327d604, 0x4f9dbe3f, 0x094454ab, 4, 0, 6, 0xf7537e82, 0x2ef78c22, 0x310ade8f);
    Turn(Abc(), 61, 0x094454ab, 0x310ade8f, 0x7327d604, 0x4f9dbe3f, 11, 0, 10, 0xbd3af235, 0x88cc50ab, 0x624d8cb2);
    Turn(Abc(), 62, 0x4f9dbe3f, 0x624d8cb2, 0x310ade8f, 0x7327d604, 2, 0, 15, 0x2ad7d2bb, 0x5a4d046e, 0xe484b9d8);
    Turn(Abc(), 63, 0x7327d604, 0xe484b9d8, 0x624d8cb2, 0x310ade8f, 9, 0, 21, 0xeb86d391, 0xeb66dedf, 0xc08226b3);
  }

  lemma AbcBlock(b: seq<byte>, k: nat)
    requires b == Padded([0x61, 0x62, 0x63]) && k < 16
    ensures |b| == BLOCK_SIZE && Word(b, 4 * k) == Abc()[k]
  {
    hide LengthBytes;
    AbcLength();
  }

  lemma AbcLength()
    ensures PadLength(3) == 53 && LengthBytes(3) == [0x18, 0, 0, 0, 0, 0, 0, 0]
  {
  }

  lemma AbcPadded()
    ensures |Padded([0x61, 0x62, 0x63])| == BLOCK_SIZE && BlockWords(Padded([0x61, 0x62, 0x63])) == Abc()
  {
    hide Padded, Word;
    AbcBlock(Padded([0x61, 0x62, 0x63]), 0);
    forall k: nat | k < 16
      ensures Word(Padded([0x61, 0x62, 0x63]), 4 * k) == Abc()[k]
    {
      AbcBlock(Padded([0x61, 0x62, 0x63]), k);
    }
  }

  lemma AbcCompressed()
    ensures Compress(INITIAL, Abc()) == Regs(0x98500190, 0xb04fd23c, 0x7d3f96d6, 0x727fe128)
  {
    hide Steps, Add;
    Abc0();
    Abc4();
    Abc8();
    Abc12();
    Abc16();
    Abc20();
    Abc24();
    Abc28();
    Abc32();
    Abc36();
    Abc40();
    Abc44();
    Abc48();
    Abc52();
    Abc56();
    Abc60();
    Added(0x310ade8f, 0xc08226b3, 0xe484b9d8, 0x624d8cb2);
  }

  lemma AbcSignature()
    ensures Signature(Regs(0x98500190, 0xb04fd23c, 0x7d3f96d6, 0x727fe128))
        
         == [0x90, 0x01, 0x50, 0x98, 0x3c, 0xd2, 0x4f, 0xb0, 0xd6, 0x96, 0x3f, 0x7d, 0x28, 0xe1, 0x7f, 0x72]
  {
    hide LittleEndian;
    BytesOf(0x98500190, 0x90, 0x01, 0x50, 0x98);
    BytesOf(0xb04fd23c, 0x3c, 0xd2, 0x4f, 0xb0);
    BytesOf(0x7d3f96d6, 0xd6, 0x96, 0x3f, 0x7d);
    BytesOf(0x727fe128, 0x28, 0xe1, 0x7f, 0x72);
  }

  /** The digest that the standard gives. */
  lemma DigestAbc()
    ensures Digest([0x61, 0x62, 0x63])
         == [0x90, 0x01, 0x50, 0x98, 0x3c, 0xd2, 0x4f, 0xb0, 0xd6, 0x96, 0x3f, 0x7d, 0x28, 0xe1, 0x7f, 0x72]
  {
    hide Compress, Padded, BlockWords, Signature;
    AbcSignature();
    AbcPadded();
    AbcCompressed();
    OneBlock(Padded([0x61, 0x62, 0x63]));
  }
}
