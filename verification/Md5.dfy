/** The MD5 macros and the four unrolled rounds against the steps of the standard. */
module Md5 {
  import opened Md5Spec

  // ----- The macros of md5_loc.h

  lemma Select(b: bv32, c: bv32, d: bv32)
    ensures d ^ (b & (c ^ d)) == (b & c) | (!b & d)
  {
  }

  /** Going through words between operations on bits changes nothing. */
  lemma BitsBack(v: bv32)
    ensures ToBits(OfBits(v)) == v
  {
  }

  lemma OnBits(x: word, y: word)
    ensures ToBits(And(x, y)) == ToBits(x) & ToBits(y)
    ensures ToBits(Or(x, y)) == ToBits(x) | ToBits(y)
    ensures ToBits(Xor(x, y)) == ToBits(x) ^ ToBits(y)
    ensures ToBits(Not(x)) == !ToBits(x)
  {
    hide ToBits, OfBits;
    BitsBack(ToBits(x) & ToBits(y));
    BitsBack(ToBits(x) | ToBits(y));
    BitsBack(ToBits(x) ^ ToBits(y));
    BitsBack(!ToBits(x));
  }

  lemma FromBits(x: word, y: word)
    ensures Or(x, y) == OfBits(ToBits(x) | ToBits(y))
    ensures Xor(x, y) == OfBits(ToBits(x) ^ ToBits(y))
    ensures And(x, y) == And(y, x)
  {
    hide ToBits, OfBits;
  }

  lemma SelectF(b: word, c: word, d: word)
    ensures Xor(d, And(b, Xor(c, d))) == Or(And(b, c), And(Not(b), d))
  {
    hide *;
    OnBits(c, d);
    OnBits(b, Xor(c, d));
    OnBits(d, And(b, Xor(c, d)));
    OnBits(b, c);
    OnBits(Not(b), d);
    OnBits(And(b, c), And(Not(b), d));
    Select(ToBits(b), ToBits(c), ToBits(d));
    FromBits(d, And(b, Xor(c, d)));
    FromBits(And(b, c), And(Not(b), d));
  }

  lemma SelectG(b: word, c: word, d: word)
    ensures Xor(c, And(d, Xor(b, c))) == Or(And(b, d), And(c, Not(d)))
  {
    hide *;
    SelectF(d, b, c);
    FromBits(d, b);
    FromBits(Not(d), c);
  }

  /** The first auxiliary function with one operation saved. */
  function FF(b: word, c: word, d: word): (w: word)
    ensures w == F(b, c, d)
  {
    SelectF(b, c, d);
    Xor(d, And(b, Xor(c, d)))
  }

  function FG(b: word, c: word, d: word): (w: word)
    ensures w == G(b, c, d)
  {
    SelectG(b, c, d);
    FF(d, b, c)
  }

  function FH(b: word, c: word, d: word): (w: word)
    ensures w == H(b, c, d)
  {
    Xor(Xor(b, c), d)
  }

  function FI(b: word, c: word, d: word): (w: word)
    ensures w == I(b, c, d)
  {
    Xor(c, Or(b, Not(d)))
  }

  lemma AddAssociates(a: word, b: word, c: word)
    ensures Add(Add(a, b), c) == Add(a, Add(b, c)) && Add(a, b) == Add(b, a)
  {
  }

  /** The order of the additions does not matter. */
  lemma Sums(a: word, b: word, f: word, k: word, t: word, s: nat)
    requires s < 32
    ensures Add(RotateLeft(Add(a, Add(Add(f, k), t)), s), b) == Add(b, RotateLeft(Add(Add(Add(a, f), k), t), s))
  {
    hide *;
    AddAssociates(a, Add(f, k), t);
    AddAssociates(a, f, k);
    AddAssociates(RotateLeft(Add(Add(Add(a, f), k), t), s), b, 0);
  }

  /** What the standard says of step i: the word, the shift and the constant it uses. */
  predicate Uses(i: nat, k: nat, s: nat, t: word) {
    k < 16 && k == WordIndex(i) && s < 32 && s == ShiftAmount(i) && t == SineWord(i)
  }

  lemma StepsNext(r: Regs, x: seq<word>, i: nat)
    requires |x| == 16
    ensures Steps(r, x, i + 1) == OneStep(Steps(r, x, i), x, i)
  {
    hide OneStep;
  }

  lemma OneStepIs(q: Regs, x: seq<word>, i: nat, f: word, k: nat, s: nat, t: word)
    requires |x| == 16 && f == Auxiliary(i, q.b, q.c, q.d) && Uses(i, k, s, t)
    ensures OneStep(q, x, i) == Regs(q.d, Add(q.b, RotateLeft(Add(Add(Add(q.a, f), x[k]), t), s)), q.b, q.c)
  {
    hide RotateLeft, Auxiliary, WordIndex, SineWord, ShiftAmount, Add;
  }

  /** One register changes, and the four change roles for the next step. */
  lemma OneOp(r: Regs, x: seq<word>, i: nat, f: word, a: word, b: word, c: word, d: word, k: nat, s: nat, t: word)
    requires |x| == 16 && Steps(r, x, i) == Regs(a, b, c, d)
    requires k < 16 && s < 32 && f == Auxiliary(i, b, c, d) && Uses(i, k, s, t)
    ensures Steps(r, x, i + 1) == Regs(d, Add(RotateLeft(Add(a, Add(Add(f, x[k]), t)), s), b), b, c)
  {
    hide *;
    StepsNext(r, x, i);
    OneStepIs(Regs(a, b, c, d), x, i, f, k, s, t);
    Sums(a, b, f, x[k], t, s);
  }

  method OpFF(ghost r: Regs, x: seq<word>, ghost i: nat, a: word, b: word, c: word, d: word, k: nat, s: nat, t: word)
    returns (a2: word)
    requires |x| == 16 && 0 <= i < 16 && Steps(r, x, i) == Regs(a, b, c, d) && Uses(i, k, s, t)
    ensures Steps(r, x, i + 1) == Regs(d, a2, b, c)
  {
    hide F, G, H, I, FF, FG, FH, FI, RotateLeft, Add, Steps, OneStep, WordIndex, SineWord, ShiftAmount;
    a2 := Add(RotateLeft(Add(a, Add(Add(FF(b, c, d), x[k]), t)), s), b);
    OneOp(r, x, i, FF(b, c, d), a, b, c, d, k, s, t);
  }

  method OpFG(ghost r: Regs, x: seq<word>, ghost i: nat, a: word, b: word, c: word, d: word, k: nat, s: nat, t: word)
    returns (a2: word)
    requires |x| == 16 && 16 <= i < 32 && Steps(r, x, i) == Regs(a, b, c, d) && Uses(i, k, s, t)
    ensures Steps(r, x, i + 1) == Regs(d, a2, b, c)
  {
    hide F, G, H, I, FF, FG, FH, FI, RotateLeft, Add, Steps, OneStep, WordIndex, SineWord, ShiftAmount;
    a2 := Add(RotateLeft(Add(a, Add(Add(FG(b, c, d), x[k]), t)), s), b);
    OneOp(r, x, i, FG(b, c, d), a, b, c, d, k, s, t);
  }

  method OpFH(ghost r: Regs, x: seq<word>, ghost i: nat, a: word, b: word, c: word, d: word, k: nat, s: nat, t: word)
    returns (a2: word)
    requires |x| == 16 && 32 <= i < 48 && Steps(r, x, i) == Regs(a, b, c, d) && Uses(i, k, s, t)
    ensures Steps(r, x, i + 1) == Regs(d, a2, b, c)
  {
    hide F, G, H, I, FF, FG, FH, FI, RotateLeft, Add, Steps, OneStep, WordIndex, SineWord, ShiftAmount;
    a2 := Add(RotateLeft(Add(a, Add(Add(FH(b, c, d), x[k]), t)), s), b);
    OneOp(r, x, i, FH(b, c, d), a, b, c, d, k, s, t);
  }

  method OpFI(ghost r: Regs, x: seq<word>, ghost i: nat, a: word, b: word, c: word, d: word, k: nat, s: nat, t: word)
    returns (a2: word)
    requires |x| == 16 && 48 <= i < 64 && Steps(r, x, i) == Regs(a, b, c, d) && Uses(i, k, s, t)
    ensures Steps(r, x, i + 1) == Regs(d, a2, b, c)
  {
    hide F, G, H, I, FF, FG, FH, FI, RotateLeft, Add, Steps, OneStep, WordIndex, SineWord, ShiftAmount;
    a2 := Add(RotateLeft(Add(a, Add(Add(FI(b, c, d), x[k]), t)), s), b);
    OneOp(r, x, i, FI(b, c, d), a, b, c, d, k, s, t);
  }

  lemma Schedule1()
    ensures WordIndex(0) == 0 && ShiftAmount(0) == 7
    ensures WordIndex(1) == 1 && ShiftAmount(1) == 12
    ensures WordIndex(2) == 2 && ShiftAmount(2) == 17
    ensures WordIndex(3) == 3 && ShiftAmount(3) == 22
    ensures WordIndex(4) == 4 && ShiftAmount(4) == 7
    ensures WordIndex(5) == 5 && ShiftAmount(5) == 12
    ensures WordIndex(6) == 6 && ShiftAmount(6) == 17
    ensures WordIndex(7) == 7 && ShiftAmount(7) == 22
    ensures WordIndex(8) == 8 && ShiftAmount(8) == 7
    ensures WordIndex(9) == 9 && ShiftAmount(9) == 12
    ensures WordIndex(10) == 10 && ShiftAmount(10) == 17
    ensures WordIndex(11) == 11 && ShiftAmount(11) == 22
    ensures WordIndex(12) == 12 && ShiftAmount(12) == 7
    ensures WordIndex(13) == 13 && ShiftAmount(13) == 12
    ensures WordIndex(14) == 14 && ShiftAmount(14) == 17
    ensures WordIndex(15) == 15 && ShiftAmount(15) == 22
  {
  }

  lemma Sines1()
    ensures SineWord(0) == 0xd76aa478
    ensures SineWord(1) == 0xe8c7b756
    ensures SineWord(2) == 0x242070db
    ensures SineWord(3) == 0xc1bdceee
    ensures SineWord(4) == 0xf57c0faf
    ensures SineWord(5) == 0x4787c62a
    ensures SineWord(6) == 0xa8304613
    ensures SineWord(7) == 0xfd469501
    ensures SineWord(8) == 0x698098d8
    ensures SineWord(9) == 0x8b44f7af
    ensures SineWord(10) == 0xffff5bb1
    ensures SineWord(11) == 0x895cd7be
    ensures SineWord(12) == 0x6b901122
    ensures SineWord(13) == 0xfd987193
    ensures SineWord(14) == 0xa679438e
    ensures SineWord(15) == 0x49b40821
  {
  }

  lemma Constants1()
    ensures Uses(0, 0, 7, 0xd76aa478)
    ensures Uses(1, 1, 12, 0xe8c7b756)
    ensures Uses(2, 2, 17, 0x242070db)
    ensures Uses(3, 3, 22, 0xc1bdceee)
    ensures Uses(4, 4, 7, 0xf57c0faf)
    ensures Uses(5, 5, 12, 0x4787c62a)
    ensures Uses(6, 6, 17, 0xa8304613)
    ensures Uses(7, 7, 22, 0xfd469501)
    ensures Uses(8, 8, 7, 0x698098d8)
    ensures Uses(9, 9, 12, 0x8b44f7af)
    ensures Uses(10, 10, 17, 0xffff5bb1)
    ensures Uses(11, 11, 22, 0x895cd7be)
    ensures Uses(12, 12, 7, 0x6b901122)
    ensures Uses(13, 13, 12, 0xfd987193)
    ensures Uses(14, 14, 17, 0xa679438e)
    ensures Uses(15, 15, 22, 0x49b40821)
  {
    hide WordIndex, ShiftAmount, SineWord;
    Schedule1();
    Sines1();
  }

  /** Round 1 of a block: the registers take turns instead of moving. */
  method Round1(ghost r: Regs, x: seq<word>, a0: word, b0: word, c0: word, d0: word)
    returns (a: word, b: word, c: word, d: word)
    requires |x| == 16 && Steps(r, x, 0) == Regs(a0, b0, c0, d0)
    ensures Steps(r, x, 16) == Regs(a, b, c, d)
  {
    hide *;
    Constants1();
    a, b, c, d := a0, b0, c0, d0;
    a := OpFF(r, x, 0, a, b, c, d, 0, 7, 0xd76aa478);
    d := OpFF(r, x, 1, d, a, b, c, 1, 12, 0xe8c7b756);
    c := OpFF(r, x, 2, c, d, a, b, 2, 17, 0x242070db);
    b := OpFF(r, x, 3, b, c, d, a, 3, 22, 0xc1bdceee);
    a := OpFF(r, x, 4, a, b, c, d, 4, 7, 0xf57c0faf);
    d := OpFF(r, x, 5, d, a, b, c, 5, 12, 0x4787c62a);
    c := OpFF(r, x, 6, c, d, a, b, 6, 17, 0xa8304613);
    b := OpFF(r, x, 7, b, c, d, a, 7, 22, 0xfd469501);
    a := OpFF(r, x, 8, a, b, c, d, 8, 7, 0x698098d8);
    d := OpFF(r, x, 9, d, a, b, c, 9, 12, 0x8b44f7af);
    c := OpFF(r, x, 10, c, d, a, b, 10, 17, 0xffff5bb1);
    b := OpFF(r, x, 11, b, c, d, a, 11, 22, 0x895cd7be);
    a := OpFF(r, x, 12, a, b, c, d, 12, 7, 0x6b901122);
    d := OpFF(r, x, 13, d, a, b, c, 13, 12, 0xfd987193);
    c := OpFF(r, x, 14, c, d, a, b, 14, 17, 0xa679438e);
    b := OpFF(r, x, 15, b, c, d, a, 15, 22, 0x49b40821);
  }

  lemma Schedule2()
    ensures WordIndex(16) == 1 && ShiftAmount(16) == 5
    ensures WordIndex(17) == 6 && ShiftAmount(17) == 9
    ensures WordIndex(18) == 11 && ShiftAmount(18) == 14
    ensures WordIndex(19) == 0 && ShiftAmount(19) == 20
    ensures WordIndex(20) == 5 && ShiftAmount(20) == 5
    ensures WordIndex(21) == 10 && ShiftAmount(21) == 9
    ensures WordIndex(22) == 15 && ShiftAmount(22) == 14
    ensures WordIndex(23) == 4 && ShiftAmount(23) == 20
    ensures WordIndex(24) == 9 && ShiftAmount(24) == 5
    ensures WordIndex(25) == 14 && ShiftAmount(25) == 9
    ensures WordIndex(26) == 3 && ShiftAmount(26) == 14
    ensures WordIndex(27) == 8 && ShiftAmount(27) == 20
    ensures WordIndex(28) == 13 && ShiftAmount(28) == 5
    ensures WordIndex(29) == 2 && ShiftAmount(29) == 9
    ensures WordIndex(30) == 7 && ShiftAmount(30) == 14
    ensures WordIndex(31) == 12 && ShiftAmount(31) == 20
  {
  }

  lemma Sines2()
    ensures SineWord(16) == 0xf61e2562
    ensures SineWord(17) == 0xc040b340
    ensures SineWord(18) == 0x265e5a51
    ensures SineWord(19) == 0xe9b6c7aa
    ensures SineWord(20) == 0xd62f105d
    ensures SineWord(21) == 0x02441453
    ensures SineWord(22) == 0xd8a1e681
    ensures SineWord(23) == 0xe7d3fbc8
    ensures SineWord(24) == 0x21e1cde6
    ensures SineWord(25) == 0xc33707d6
    ensures SineWord(26) == 0xf4d50d87
    ensures SineWord(27) == 0x455a14ed
    ensures SineWord(28) == 0xa9e3e905
    ensures SineWord(29) == 0xfcefa3f8
    ensures SineWord(30) == 0x676f02d9
    ensures SineWord(31) == 0x8d2a4c8a
  {
  }

  lemma Constants2()
    ensures Uses(16, 1, 5, 0xf61e2562)
    ensures Uses(17, 6, 9, 0xc040b340)
    ensures Uses(18, 11, 14, 0x265e5a51)
    ensures Uses(19, 0, 20, 0xe9b6c7aa)
    ensures Uses(20, 5, 5, 0xd62f105d)
    ensures Uses(21, 10, 9, 0x02441453)
    ensures Uses(22, 15, 14, 0xd8a1e681)
    ensures Uses(23, 4, 20, 0xe7d3fbc8)
    ensures Uses(24, 9, 5, 0x21e1cde6)
    ensures Uses(25, 14, 9, 0xc33707d6)
    ensures Uses(26, 3, 14, 0xf4d50d87)
    ensures Uses(27, 8, 20, 0x455a14ed)
    ensures Uses(28, 13, 5, 0xa9e3e905)
    ensures Uses(29, 2, 9, 0xfcefa3f8)
    ensures Uses(30, 7, 14, 0x676f02d9)
    ensures Uses(31, 12, 20, 0x8d2a4c8a)
  {
    hide WordIndex, ShiftAmount, SineWord;
    Schedule2();
    Sines2();
  }

  /** Round 2 of a block: the registers take turns instead of moving. */
  method Round2(ghost r: Regs, x: seq<word>, a0: word, b0: word, c0: word, d0: word)
    returns (a: word, b: word, c: word, d: word)
    requires |x| == 16 && Steps(r, x, 16) == Regs(a0, b0, c0, d0)
    ensures Steps(r, x, 32) == Regs(a, b, c, d)
  {
    hide *;
    Constants2();
    a, b, c, d := a0, b0, c0, d0;
    a := OpFG(r, x, 16, a, b, c, d, 1, 5, 0xf61e2562);
    d := OpFG(r, x, 17, d, a, b, c, 6, 9, 0xc040b340);
    c := OpFG(r, x, 18, c, d, a, b, 11, 14, 0x265e5a51);
    b := OpFG(r, x, 19, b, c, d, a, 0, 20, 0xe9b6c7aa);
    a := OpFG(r, x, 20, a, b, c, d, 5, 5, 0xd62f105d);
    d := OpFG(r, x, 21, d, a, b, c, 10, 9, 0x02441453);
    c := OpFG(r, x, 22, c, d, a, b, 15, 14, 0xd8a1e681);
    b := OpFG(r, x, 23, b, c, d, a, 4, 20, 0xe7d3fbc8);
    a := OpFG(r, x, 24, a, b, c, d, 9, 5, 0x21e1cde6);
    d := OpFG(r, x, 25, d, a, b, c, 14, 9, 0xc33707d6);
    c := OpFG(r, x, 26, c, d, a, b, 3, 14, 0xf4d50d87);
    b := OpFG(r, x, 27, b, c, d, a, 8, 20, 0x455a14ed);
    a := OpFG(r, x, 28, a, b, c, d, 13, 5, 0xa9e3e905);
    d := OpFG(r, x, 29, d, a, b, c, 2, 9, 0xfcefa3f8);
    c := OpFG(r, x, 30, c, d, a, b, 7, 14, 0x676f02d9);
    b := OpFG(r, x, 31, b, c, d, a, 12, 20, 0x8d2a4c8a);
  }

  lemma Schedule3()
    ensures WordIndex(32) == 5 && ShiftAmount(32) == 4
    ensures WordIndex(33) == 8 && ShiftAmount(33) == 11
    ensures WordIndex(34) == 11 && ShiftAmount(34) == 16
    ensures WordIndex(35) == 14 && ShiftAmount(35) == 23
    ensures WordIndex(36) == 1 && ShiftAmount(36) == 4
    ensures WordIndex(37) == 4 && ShiftAmount(37) == 11
    ensures WordIndex(38) == 7 && ShiftAmount(38) == 16
    ensures WordIndex(39) == 10 && ShiftAmount(39) == 23
    ensures WordIndex(40) == 13 && ShiftAmount(40) == 4
    ensures WordIndex(41) == 0 && ShiftAmount(41) == 11
    ensures WordIndex(42) == 3 && ShiftAmount(42) == 16
    ensures WordIndex(43) == 6 && ShiftAmount(43) == 23
    ensures WordIndex(44) == 9 && ShiftAmount(44) == 4
    ensures WordIndex(45) == 12 && ShiftAmount(45) == 11
    ensures WordIndex(46) == 15 && ShiftAmount(46) == 16
    ensures WordIndex(47) == 2 && ShiftAmount(47) == 23
  {
  }

  lemma Sines3()
    ensures SineWord(32) == 0xfffa3942
    ensures SineWord(33) == 0x8771f681
    ensures SineWord(34) == 0x6d9d6122
    ensures SineWord(35) == 0xfde5380c
    ensures SineWord(36) == 0xa4beea44
    ensures SineWord(37) == 0x4bdecfa9
    ensures SineWord(38) == 0xf6bb4b60
    ensures SineWord(39) == 0xbebfbc70
    ensures SineWord(40) == 0x289b7ec6
    ensures SineWord(41) == 0xeaa127fa
    ensures SineWord(42) == 0xd4ef3085
    ensures SineWord(43) == 0x04881d05
    ensures SineWord(44) == 0xd9d4d039
    ensures SineWord(45) == 0xe6db99e5
    ensures SineWord(46) == 0x1fa27cf8
    ensures SineWord(47) == 0xc4ac5665
  {
  }

  lemma Constants3()
    ensures Uses(32, 5, 4, 0xfffa3942)
    ensures Uses(33, 8, 11, 0x8771f681)
    ensures Uses(34, 11, 16, 0x6d9d6122)
    ensures Uses(35, 14, 23, 0xfde5380c)
    ensures Uses(36, 1, 4, 0xa4beea44)
    ensures Uses(37, 4, 11, 0x4bdecfa9)
    ensures Uses(38, 7, 16, 0xf6bb4b60)
    ensures Uses(39, 10, 23, 0xbebfbc70)
    ensures Uses(40, 13, 4, 0x289b7ec6)
    ensures Uses(41, 0, 11, 0xeaa127fa)
    ensures Uses(42, 3, 16, 0xd4ef3085)
    ensures Uses(43, 6, 23, 0x04881d05)
    ensures Uses(44, 9, 4, 0xd9d4d039)
    ensures Uses(45, 12, 11, 0xe6db99e5)
    ensures Uses(46, 15, 16, 0x1fa27cf8)
    ensures Uses(47, 2, 23, 0xc4ac5665)
  {
    hide WordIndex, ShiftAmount, SineWord;
    Schedule3();
    Sines3();
  }

  /** Round 3 of a block: the registers take turns instead of moving. */
  method Round3(ghost r: Regs, x: seq<word>, a0: word, b0: word, c0: word, d0: word)
    returns (a: word, b: word, c: word, d: word)
    requires |x| == 16 && Steps(r, x, 32) == Regs(a0, b0, c0, d0)
    ensures Steps(r, x, 48) == Regs(a, b, c, d)
  {
    hide *;
    Constants3();
    a, b, c, d := a0, b0, c0, d0;
    a := OpFH(r, x, 32, a, b, c, d, 5, 4, 0xfffa3942);
    d := OpFH(r, x, 33, d, a, b, c, 8, 11, 0x8771f681);
    c := OpFH(r, x, 34, c, d, a, b, 11, 16, 0x6d9d6122);
    b := OpFH(r, x, 35, b, c, d, a, 14, 23, 0xfde5380c);
    a := OpFH(r, x, 36, a, b, c, d, 1, 4, 0xa4beea44);
    d := OpFH(r, x, 37, d, a, b, c, 4, 11, 0x4bdecfa9);
    c := OpFH(r, x, 38, c, d, a, b, 7, 16, 0xf6bb4b60);
    b := OpFH(r, x, 39, b, c, d, a, 10, 23, 0xbebfbc70);
    a := OpFH(r, x, 40, a, b, c, d, 13, 4, 0x289b7ec6);
    d := OpFH(r, x, 41, d, a, b, c, 0, 11, 0xeaa127fa);
    c := OpFH(r, x, 42, c, d, a, b, 3, 16, 0xd4ef3085);
    b := OpFH(r, x, 43, b, c, d, a, 6, 23, 0x04881d05);
    a := OpFH(r, x, 44, a, b, c, d, 9, 4, 0xd9d4d039);
    d := OpFH(r, x, 45, d, a, b, c, 12, 11, 0xe6db99e5);
    c := OpFH(r, x, 46, c, d, a, b, 15, 16, 0x1fa27cf8);
    b := OpFH(r, x, 47, b, c, d, a, 2, 23, 0xc4ac5665);
  }

  lemma Schedule4()
    ensures WordIndex(48) == 0 && ShiftAmount(48) == 6
    ensures WordIndex(49) == 7 && ShiftAmount(49) == 10
    ensures WordIndex(50) == 14 && ShiftAmount(50) == 15
    ensures WordIndex(51) == 5 && ShiftAmount(51) == 21
    ensures WordIndex(52) == 12 && ShiftAmount(52) == 6
    ensures WordIndex(53) == 3 && ShiftAmount(53) == 10
    ensures WordIndex(54) == 10 && ShiftAmount(54) == 15
    ensures WordIndex(55) == 1 && ShiftAmount(55) == 21
    ensures WordIndex(56) == 8 && ShiftAmount(56) == 6
    ensures WordIndex(57) == 15 && ShiftAmount(57) == 10
    ensures WordIndex(58) == 6 && ShiftAmount(58) == 15
    ensures WordIndex(59) == 13 && ShiftAmount(59) == 21
    ensures WordIndex(60) == 4 && ShiftAmount(60) == 6
    ensures WordIndex(61) == 11 && ShiftAmount(61) == 10
    ensures WordIndex(62) == 2 && ShiftAmount(62) == 15
    ensures WordIndex(63) == 9 && ShiftAmount(63) == 21
  {
  }

  lemma Sines4()
    ensures SineWord(48) == 0xf4292244
    ensures SineWord(49) == 0x432aff97
    ensures SineWord(50) == 0xab9423a7
    ensures SineWord(51) == 0xfc93a039
    ensures SineWord(52) == 0x655b59c3
    ensures SineWord(53) == 0x8f0ccc92
    ensures SineWord(54) == 0xffeff47d
    ensures SineWord(55) == 0x85845dd1
    ensures SineWord(56) == 0x6fa87e4f
    ensures SineWord(57) == 0xfe2ce6e0
    ensures SineWord(58) == 0xa3014314
    ensures SineWord(59) == 0x4e0811a1
    ensures SineWord(60) == 0xf7537e82
    ensures SineWord(61) == 0xbd3af235
    ensures SineWord(62) == 0x2ad7d2bb
    ensures SineWord(63) == 0xeb86d391
  {
  }

  lemma Constants4()
    ensures Uses(48, 0, 6, 0xf4292244)
    ensures Uses(49, 7, 10, 0x432aff97)
    ensures Uses(50, 14, 15, 0xab9423a7)
    ensures Uses(51, 5, 21, 0xfc93a039)
    ensures Uses(52, 12, 6, 0x655b59c3)
    ensures Uses(53, 3, 10, 0x8f0ccc92)
    ensures Uses(54, 10, 15, 0xffeff47d)
    ensures Uses(55, 1, 21, 0x85845dd1)
    ensures Uses(56, 8, 6, 0x6fa87e4f)
    ensures Uses(57, 15, 10, 0xfe2ce6e0)
    ensures Uses(58, 6, 15, 0xa3014314)
    ensures Uses(59, 13, 21, 0x4e0811a1)
    ensures Uses(60, 4, 6, 0xf7537e82)
    ensures Uses(61, 11, 10, 0xbd3af235)
    ensures Uses(62, 2, 15, 0x2ad7d2bb)
    ensures Uses(63, 9, 21, 0xeb86d391)
  {
    hide WordIndex, ShiftAmount, SineWord;
    Schedule4();
    Sines4();
  }

  /** Round 4 of a block: the registers take turns instead of moving. */
  method Round4(ghost r: Regs, x: seq<word>, a0: word, b0: word, c0: word, d0: word)
    returns (a: word, b: word, c: word, d: word)
    requires |x| == 16 && Steps(r, x, 48) == Regs(a0, b0, c0, d0)
    ensures Steps(r, x, 64) == Regs(a, b, c, d)
  {
    hide *;
    Constants4();
    a, b, c, d := a0, b0, c0, d0;
    a := OpFI(r, x, 48, a, b, c, d, 0, 6, 0xf4292244);
    d := OpFI(r, x, 49, d, a, b, c, 7, 10, 0x432aff97);
    c := OpFI(r, x, 50, c, d, a, b, 14, 15, 0xab9423a7);
    b := OpFI(r, x, 51, b, c, d, a, 5, 21, 0xfc93a039);
    a := OpFI(r, x, 52, a, b, c, d, 12, 6, 0x655b59c3);
    d := OpFI(r, x, 53, d, a, b, c, 3, 10, 0x8f0ccc92);
    c := OpFI(r, x, 54, c, d, a, b, 10, 15, 0xffeff47d);
    b := OpFI(r, x, 55, b, c, d, a, 1, 21, 0x85845dd1);
    a := OpFI(r, x, 56, a, b, c, d, 8, 6, 0x6fa87e4f);
    d := OpFI(r, x, 57, d, a, b, c, 15, 10, 0xfe2ce6e0);
    c := OpFI(r, x, 58, c, d, a, b, 6, 15, 0xa3014314);
    b := OpFI(r, x, 59, b, c, d, a, 13, 21, 0x4e0811a1);
    a := OpFI(r, x, 60, a, b, c, d, 4, 6, 0xf7537e82);
    d := OpFI(r, x, 61, d, a, b, c, 11, 10, 0xbd3af235);
    c := OpFI(r, x, 62, c, d, a, b, 2, 15, 0x2ad7d2bb);
    b := OpFI(r, x, 63, b, c, d, a, 9, 21, 0xeb86d391);
  }
}
