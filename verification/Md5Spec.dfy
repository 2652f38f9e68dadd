/** MD5 as RFC 1321 defines it, on bytes and 32-bit words. */
module Md5Spec {
  type byte = x: int | 0 <= x < 0x100
  type word = x: int | 0 <= x < 0x1_0000_0000

  const BLOCK_SIZE := 64

  // ----- Section 2: operations on words

  function Add(x: word, y: word): word {
    if x as int + y as int < 0x1_0000_0000 then x + y else x as int + y as int - 0x1_0000_0000
  }

  function ToBits(x: word): bv32 { x as bv32 }
  function OfBits(v: bv32): word { v as int }

  function And(x: word, y: word): word { OfBits(ToBits(x) & ToBits(y)) }
  function Or(x: word, y: word): word { OfBits(ToBits(x) | ToBits(y)) }
  function Xor(x: word, y: word): word { OfBits(ToBits(x) ^ ToBits(y)) }
  function Not(x: word): word { OfBits(!ToBits(x)) }

  function RotateLeft(w: word, s: nat): word
    requires s < 32
  {
    OfBits((ToBits(w) << s) | (ToBits(w) >> (32 - s)))
  }

  // ----- Section 3.4: the four auxiliary functions

  function F(x: word, y: word, z: word): word { Or(And(x, y), And(Not(x), z)) }
  function G(x: word, y: word, z: word): word { Or(And(x, z), And(y, Not(z))) }
  function H(x: word, y: word, z: word): word { Xor(Xor(x, y), z) }
  function I(x: word, y: word, z: word): word { Xor(y, Or(x, Not(z))) }

  function Auxiliary(i: nat, x: word, y: word, z: word): word {
    if i < 16 then F(x, y, z) else if i < 32 then G(x, y, z) else if i < 48 then H(x, y, z) else I(x, y, z)
  }

  /** Which word of the block step i uses. */
  function WordIndex(i: nat): (k: nat)
    ensures k < 16
  {
    if i < 16 then i % 16
    else if i < 32 then (5 * i + 1) % 16
    else if i < 48 then (3 * i + 5) % 16
    else 7 * i % 16
  }

  function ShiftAmount(i: nat): (s: nat)
    ensures s < 32
  {
    var k := i % 4;
    if i < 16 then if k == 0 then 7 else if k == 1 then 12 else if k == 2 then 17 else 22
    else if i < 32 then if k == 0 then 5 else if k == 1 then 9 else if k == 2 then 14 else 20
    else if i < 48 then if k == 0 then 4 else if k == 1 then 11 else if k == 2 then 16 else 23
    else if k == 0 then 6 else if k == 1 then 10 else if k == 2 then 15 else 21
  }

  /** The table constructed from the sine function. */
  function SineWord(i: nat): word {
    if i < 16 then Sine1(i) else if i < 32 then Sine2(i) else if i < 48 then Sine3(i) else Sine4(i)
  }

  function Sine1(i: nat): word {
    match i
    case 0 => 0xd76aa478
    case 1 => 0xe8c7b756
    case 2 => 0x242070db
    case 3 => 0xc1bdceee
    case 4 => 0xf57c0faf
    case 5 => 0x4787c62a
    case 6 => 0xa8304613
    case 7 => 0xfd469501
    case 8 => 0x698098d8
    case 9 => 0x8b44f7af
    case 10 => 0xffff5bb1
    case 11 => 0x895cd7be
    case 12 => 0x6b901122
    case 13 => 0xfd987193
    case 14 => 0xa679438e
    case _ => 0x49b40821
  }

  function Sine2(i: nat): word {
    match i
    case 16 => 0xf61e2562
    case 17 => 0xc040b340
    case 18 => 0x265e5a51
    case 19 => 0xe9b6c7aa
    case 20 => 0xd62f105d
    case 21 => 0x02441453
    case 22 => 0xd8a1e681
    case 23 => 0xe7d3fbc8
    case 24 => 0x21e1cde6
    case 25 => 0xc33707d6
    case 26 => 0xf4d50d87
    case 27 => 0x455a14ed
    case 28 => 0xa9e3e905
    case 29 => 0xfcefa3f8
    case 30 => 0x676f02d9
    case _ => 0x8d2a4c8a
  }

  function Sine3(i: nat): word {
    match i
    case 32 => 0xfffa3942
    case 33 => 0x8771f681
    case 34 => 0x6d9d6122
    case 35 => 0xfde5380c
    case 36 => 0xa4beea44
    case 37 => 0x4bdecfa9
    case 38 => 0xf6bb4b60
    case 39 => 0xbebfbc70
    case 40 => 0x289b7ec6
    case 41 => 0xeaa127fa
    case 42 => 0xd4ef3085
    case 43 => 0x04881d05
    case 44 => 0xd9d4d039
    case 45 => 0xe6db99e5
    case 46 => 0x1fa27cf8
    case _ => 0xc4ac5665
  }

  function Sine4(i: nat): word {
    match i
    case 48 => 0xf4292244
    case 49 => 0x432aff97
    case 50 => 0xab9423a7
    case 51 => 0xfc93a039
    case 52 => 0x655b59c3
    case 53 => 0x8f0ccc92
    case 54 => 0xffeff47d
    case 55 => 0x85845dd1
    case 56 => 0x6fa87e4f
    case 57 => 0xfe2ce6e0
    case 58 => 0xa3014314
    case 59 => 0x4e0811a1
    case 60 => 0xf7537e82
    case 61 => 0xbd3af235
    case 62 => 0x2ad7d2bb
    case _ => 0xeb86d391
  }

  /** The four registers in the order in which the next step reads them. */
  datatype Regs = Regs(a: word, b: word, c: word, d: word)

  function OneStep(r: Regs, x: seq<word>, i: nat): Regs
    requires |x| == 16
  {
    Regs(r.d,
         Add(r.b, RotateLeft(Add(Add(Add(r.a, Auxiliary(i, r.b, r.c, r.d)), x[WordIndex(i)]), SineWord(i)),
                             ShiftAmount(i))),
         r.b, r.c)
  }

  function Steps(r: Regs, x: seq<word>, n: nat): Regs
    requires |x| == 16
  {
    if n == 0 then r else OneStep(Steps(r, x, n - 1), x, n - 1)
  }

  function Compress(r: Regs, x: seq<word>): Regs
    requires |x| == 16
  {
    var s := Steps(r, x, 64);
    Regs(Add(s.a, r.a), Add(s.b, r.b), Add(s.c, r.c), Add(s.d, r.d))
  }

  // ----- Words are little-endian groups of four bytes

  function Word(b: seq<byte>, k: nat): word
    requires k + 4 <= |b|
  {
    var low: int := b[k] as int + 0x100 * (b[k + 1] as int);
    low + 0x1_0000 * (b[k + 2] as int) + 0x100_0000 * (b[k + 3] as int)
  }

  function BlockWords(b: seq<byte>): (x: seq<word>)
    requires |b| == BLOCK_SIZE
    ensures |x| == 16
  {
    seq(16, j requires 0 <= j < 16 => Word(b, 4 * j))
  }

  function LittleEndian(n: int): (b: seq<byte>)
    ensures |b| == 4
  {
    [n % 0x100, n / 0x100 % 0x100, n / 0x1_0000 % 0x100, n / 0x100_0000 % 0x100]
  }

  /** The bytes of a word, low-order byte first, and back. */
  lemma LittleEndianOf(b: seq<byte>)
    requires |b| == 4
    ensures LittleEndian(Word(b, 0)) == b
  {
    BytesOf(Word(b, 0), b[0], b[1], b[2], b[3]);
  }

  lemma BytesOf(n: int, b0: byte, b1: byte, b2: byte, b3: byte)
    requires n == b0 + 0x100 * b1 + 0x1_0000 * b2 + 0x100_0000 * b3
    ensures LittleEndian(n) == [b0, b1, b2, b3]
  {
    assert n / 0x100 == b1 + 0x100 * b2 + 0x1_0000 * b3;
    assert n / 0x1_0000 == b2 + 0x100 * b3;
    assert n / 0x100_0000 == b3;
  }

  lemma WordOfBytes(n: word)
    ensures Word(LittleEndian(n), 0) == n
  {
    assert n / 0x1_0000 == n / 0x100 / 0x100 && n / 0x100_0000 == n / 0x1_0000 / 0x100;
  }

  /** Blocks one after another; bytes after the last whole block are not looked at. */
  function Blocks(r: Regs, m: seq<byte>): Regs
    decreases |m|
  {
    if |m| < BLOCK_SIZE then r
    else Blocks(Compress(r, BlockWords(m[..BLOCK_SIZE])), m[BLOCK_SIZE..])
  }

  // ----- Sections 3.1 to 3.3 and 3.5

  const INITIAL := Regs(0x67452301, 0xefcdab89, 0x98badcfe, 0x10325476)

  /** At least one byte, so that the length becomes 56 modulo 64. */
  function PadLength(n: nat): (p: nat)
    ensures 1 <= p <= 64 && (n + p) % 64 == 56
  {
    if n % 64 < 56 then 56 - n % 64 else 120 - n % 64
  }

  /** No shorter padding reaches that length. */
  lemma PadLengthIsLeast(n: nat, q: nat)
    requires 1 <= q && (n + q) % 64 == 56
    ensures PadLength(n) <= q
  {
  }

  function Zeros(k: nat): (z: seq<byte>)
    ensures |z| == k
  {
    seq(k, _ => 0)
  }

  function Padding(n: nat): seq<byte> {
    [0x80] + Zeros(PadLength(n) - 1)
  }

  /** The bit count modulo 2 to the 64th, low-order word first. */
  function LengthBytes(n: nat): seq<byte> {
    var bits := 8 * n % 0x1_0000_0000_0000_0000;
    LittleEndian(bits % 0x1_0000_0000) + LittleEndian(bits / 0x1_0000_0000)
  }

  /** As one number, the eight bytes are eight times the byte count, modulo 2 to the 64th. */
  lemma LengthBytesCount(n: nat)
    ensures |LengthBytes(n)| == 8
    ensures Word(LengthBytes(n), 0) + 0x1_0000_0000 * Word(LengthBytes(n), 4) == 8 * n % 0x1_0000_0000_0000_0000
  {
    hide LittleEndian, Word;
    var bits := 8 * n % 0x1_0000_0000_0000_0000;
    var low, high := LittleEndian(bits % 0x1_0000_0000), LittleEndian(bits / 0x1_0000_0000);
    WordOfBytes(bits % 0x1_0000_0000);
    WordOfBytes(bits / 0x1_0000_0000);
    WordsOfBoth(low, high);
  }

  lemma WordsOfBoth(low: seq<byte>, high: seq<byte>)
    requires |low| == 4 && |high| == 4
    ensures Word(low + high, 0) == Word(low, 0) && Word(low + high, 4) == Word(high, 0)
  {
  }

  function Padded(m: seq<byte>): seq<byte> {
    m + Padding(|m|) + LengthBytes(|m|)
  }

  function Signature(r: Regs): seq<byte> {
    LittleEndian(r.a) + LittleEndian(r.b) + LittleEndian(r.c) + LittleEndian(r.d)
  }

  function Digest(m: seq<byte>): seq<byte> {
    Signature(Blocks(INITIAL, Padded(m)))
  }
}
