/** MD5 on one block and on blocks one after another, and the byte and bit counts in two words. */
module Md5Stream {
  import opened Md5Spec
  import opened Md5

  const WORD_LIMIT := 0x1_0000_0000
  const TOTAL_LIMIT := 0x1_0000_0000_0000_0000

  // ----- Blocks one after another

  lemma {:induction false} BlocksAppend(r: Regs, a: seq<byte>, b: seq<byte>)
    requires |a| % BLOCK_SIZE == 0
    ensures Blocks(r, a + b) == Blocks(Blocks(r, a), b)
    decreases |a|
  {
    hide Compress, BlockWords;
    if a == [] {
      assert a + b == b;
    } else {
      assert (a + b)[..BLOCK_SIZE] == a[..BLOCK_SIZE];
      assert (a + b)[BLOCK_SIZE..] == a[BLOCK_SIZE..] + b;
      BlocksAppend(Compress(r, BlockWords(a[..BLOCK_SIZE])), a[BLOCK_SIZE..], b);
    }
  }

  lemma BlocksNext(r: Regs, m: seq<byte>, i: nat)
    requires i + BLOCK_SIZE <= |m| && i % BLOCK_SIZE == 0
    ensures Blocks(r, m[..i + BLOCK_SIZE]) == Compress(Blocks(r, m[..i]), BlockWords(m[i..i + BLOCK_SIZE]))
  {
    hide Compress, BlockWords;
    var block := m[i..i + BLOCK_SIZE];
    assert m[..i + BLOCK_SIZE] == m[..i] + block;
    BlocksAppend(r, m[..i], block);
    assert block[..BLOCK_SIZE] == block;
  }

  method OneBlock(a0: word, b0: word, c0: word, d0: word, x: seq<word>)
    returns (a: word, b: word, c: word, d: word)
    requires |x| == 16
    ensures Regs(a, b, c, d) == Compress(Regs(a0, b0, c0, d0), x)
  {
    hide Add, OneStep;
    ghost var r := Regs(a0, b0, c0, d0);
    a, b, c, d := Round1(r, x, a0, b0, c0, d0);
    a, b, c, d := Round2(r, x, a, b, c, d);
    a, b, c, d := Round3(r, x, a, b, c, d);
    a, b, c, d := Round4(r, x, a, b, c, d);
    a, b, c, d := Add(a, a0), Add(b, b0), Add(c, c0), Add(d, d0);
  }

  // ----- The byte count in two words

  function Total(low: word, high: word): nat {
    low + WORD_LIMIT * high
  }

  /** The carry into the high word. */
  method AddLength(low0: word, high0: word, n: nat) returns (low: word, high: word)
    requires n < WORD_LIMIT
    ensures Total(low, high) == (Total(low0, high0) + n) % TOTAL_LIMIT
  {
    low, high := low0, high0;
    if low > WORD_LIMIT - 1 - n {
      high := Add(high, 1);
      low := low - (WORD_LIMIT - n);
    } else {
      low := low + n;
    }
  }

  lemma Doubled(v: bv32)
    ensures OfBits((v & 0x7fff_ffff) << 1) == 2 * OfBits(v & 0x7fff_ffff)
  {
  }

  lemma DoubledAndOne(v: bv32)
    ensures OfBits(((v & 0x7fff_ffff) << 1) | 1) == 2 * OfBits(v & 0x7fff_ffff) + 1
  {
  }

  lemma TopBitClear(v: bv32)
    requires OfBits(v) < 0x8000_0000
    ensures v & 0x7fff_ffff == v
  {
  }

  lemma {:induction false} BitsOf(x: word) returns (v: bv32)
    ensures OfBits(v) == x
    decreases x
  {
    if x == 0 {
      v := 0;
    } else {
      v := BitsOfHalves(x);
    }
  }

  lemma {:induction false} BitsOfHalves(x: word) returns (v: bv32)
    requires x != 0
    ensures OfBits(v) == x
    decreases x, 0
  {
    hide *;
    var u := BitsOf(x / 2);
    TopBitClear(u);
    Doubled(u);
    DoubledAndOne(u);
    v := if x % 2 == 0 then (u & 0x7fff_ffff) << 1 else ((u & 0x7fff_ffff) << 1) | 1;
  }

  /** Every word has bits, so going through them changes nothing. */
  lemma WordBack(x: word)
    ensures OfBits(ToBits(x)) == x
  {
    hide *;
    var v := BitsOf(x);
    BitsBack(v);
  }

  lemma ShiftedOut(v: bv32)
    ensures OfBits((v & 0x1FFF_FFFF) << 3) == 8 * OfBits(v & 0x1FFF_FFFF)
  {
  }

  lemma SplitAt29(v: bv32)
    ensures OfBits(v) == 0x2000_0000 * OfBits(v >> 29) + OfBits(v & 0x1FFF_FFFF)
  {
  }

  lemma ShiftedIn(v: bv32, u: bv32)
    ensures OfBits((v << 3) | ((u & 0xE000_0000) >> 29)) == 8 * OfBits(v & 0x1FFF_FFFF) + OfBits(u >> 29)
  {
  }

  function LowBits(low: word): word { OfBits((ToBits(low) & 0x1FFF_FFFF) << 3) }
  function HighBits(low: word, high: word): word {
    OfBits((ToBits(high) << 3) | ((ToBits(low) & 0xE000_0000) >> 29))
  }

  /** The two shifted words hold eight times the byte count, modulo 2 to the 64th. */
  lemma BitCount(low: word, high: word, n: nat)
    requires Total(low, high) == n % TOTAL_LIMIT
    ensures Total(LowBits(low), HighBits(low, high)) == 8 * n % TOTAL_LIMIT
  {
    hide ToBits, OfBits, Total;
    var u, v := ToBits(low), ToBits(high);
    WordBack(low);
    WordBack(high);
    ShiftedOut(u);
    ShiftedIn(v, u);
    SplitAt29(u);
    SplitAt29(v);
    EightTimes(low, high, OfBits(u >> 29), OfBits(v >> 29), LowBits(low), HighBits(low, high), n);
  }

  lemma EightTimes(low: word, high: word, a: nat, b: nat, l: word, h: word, n: nat)
    requires Total(low, high) == n % TOTAL_LIMIT
    requires l == 8 * (low - 0x2000_0000 * a) && h == 8 * (high - 0x2000_0000 * b) + a
    ensures Total(l, h) == 8 * n % TOTAL_LIMIT
  {
    assert Total(l, h) == 8 * Total(low, high) - TOTAL_LIMIT * b;
    assert 8 * n == 8 * Total(low, high) + TOTAL_LIMIT * (8 * (n / TOTAL_LIMIT));
    assert 8 * n == Total(l, h) + TOTAL_LIMIT * (b + 8 * (n / TOTAL_LIMIT));
    Remainder(Total(l, h), b + 8 * (n / TOTAL_LIMIT));
  }

  lemma Remainder(r: nat, q: nat)
    requires r < TOTAL_LIMIT
    ensures (r + TOTAL_LIMIT * q) % TOTAL_LIMIT == r
  {
  }
}
