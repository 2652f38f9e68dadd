/** The streaming interface: a context is fed chunk by chunk and then finished. */
module Md5Context {
  import opened Common
  import opened Md5Spec
  import opened Md5Stream

  const BUFFER_SIZE := 128

  function RoundDown(n: nat): (r: nat)
    ensures r <= n < r + BLOCK_SIZE && r % BLOCK_SIZE == 0
  {
    n - n % BLOCK_SIZE
  }

  /** What md5_finish leaves in the buffer. */
  function LastBytes(n: nat, rest: seq<byte>): seq<byte> {
    rest + Padding(n) + LengthBytes(n)
  }

  lemma PaddedSplits(done: seq<byte>, rest: seq<byte>)
    requires |done| % BLOCK_SIZE == 0 && |rest| <= BLOCK_SIZE
    ensures Padded(done + rest) == done + LastBytes(|done| + |rest|, rest)
    ensures |LastBytes(|done| + |rest|, rest)| == |rest| + PadLength(|rest|) + 8
    ensures |LastBytes(|done| + |rest|, rest)| % BLOCK_SIZE == 0
  {
    hide LengthBytes, Zeros, LittleEndian;
    var n := |done| + |rest|;
    PaddingLength(n, |rest|);
    assert (done + rest) + Padding(n) + LengthBytes(n) == done + (rest + Padding(n) + LengthBytes(n));
  }

  lemma PaddingLength(n: nat, k: nat)
    requires n % BLOCK_SIZE == k % BLOCK_SIZE
    ensures PadLength(n) == PadLength(k) && Padding(n) == Padding(k) && |Padding(n)| == PadLength(k) && |LengthBytes(n)| == 8
  {
    hide LittleEndian;
    assert |Zeros(PadLength(n) - 1)| == PadLength(n) - 1;
  }

  lemma PaddingParts(x: seq<byte>, n: nat, p: nat)
    requires p == PadLength(n)
    ensures (x + [0x80]) + Zeros(p - 1) == x + Padding(n)
    ensures p == 1 ==> x + [0x80] == x + Padding(n)
  {
    hide PadLength;
  }

  lemma LastBytesAre(n: nat, rest: seq<byte>)
    ensures LastBytes(n, rest) == rest + Padding(n) + LengthBytes(n)
  {
  }

  lemma AddRemainder(m: nat, k: nat)
    ensures (m % TOTAL_LIMIT + k) % TOTAL_LIMIT == (m + k) % TOTAL_LIMIT
  {
  }

  lemma CountedOn(total: nat, n: nat, more: nat, k: nat)
    requires more == (total + k) % TOTAL_LIMIT
    ensures total == n % TOTAL_LIMIT ==> more == (n + k) % TOTAL_LIMIT
  {
    AddRemainder(n, k);
  }

  lemma MultipleOn(n: nat, k: nat)
    requires n % BLOCK_SIZE == 0 && k % BLOCK_SIZE == 0
    ensures (n + k) % BLOCK_SIZE == 0
  {
  }

  lemma LengthWords(low: word, high: word, n: nat)
    requires Total(low, high) == n % TOTAL_LIMIT
    ensures LengthBytes(n) == LittleEndian(LowBits(low)) + LittleEndian(HighBits(low, high))
  {
    hide LittleEndian, LowBits, HighBits;
    BitCount(low, high, n);
    Halves(LowBits(low), HighBits(low, high));
  }

  lemma Halves(l: word, h: word)
    ensures Total(l, h) % WORD_LIMIT == l && Total(l, h) / WORD_LIMIT == h
  {
  }

  /** The loop over whole blocks. */
  method HashBlocks(a0: word, b0: word, c0: word, d0: word, bytes: seq<byte>)
    returns (a: word, b: word, c: word, d: word)
    requires |bytes| % BLOCK_SIZE == 0
    ensures Regs(a, b, c, d) == Blocks(Regs(a0, b0, c0, d0), bytes)
  {
    hide Compress, BlockWords;
    ghost var r := Regs(a0, b0, c0, d0);
    a, b, c, d := a0, b0, c0, d0;
    var i := 0;
    while i < |bytes|
      invariant 0 <= i <= |bytes| && i % BLOCK_SIZE == 0
      invariant Regs(a, b, c, d) == Blocks(r, bytes[..i])
    {
      BlocksNext(r, bytes, i);
      var correct := BlockWords(bytes[i..i + BLOCK_SIZE]);
      a, b, c, d := OneBlock(a, b, c, d, correct);
      i := i + BLOCK_SIZE;
    }
    assert bytes[..i] == bytes;
  }

  class Context {
    var a: word
    var b: word
    var c: word
    var d: word
    var low: word
    var high: word
    var bufLen: nat
    const buffer: array<byte>

    /** The input that has gone through whole blocks. */
    ghost var done: seq<byte>

    ghost predicate Valid()
      reads this, buffer
    {
      && buffer.Length == BUFFER_SIZE
      && bufLen <= BLOCK_SIZE
      && Hashed()
      && Counted()
    }

    ghost predicate Hashed()
      reads `a, `b, `c, `d, `done
    {
      |done| % BLOCK_SIZE == 0 && Regs(a, b, c, d) == Blocks(INITIAL, done)
    }

    ghost predicate Counted()
      reads `low, `high, `done
    {
      Total(low, high) == |done| % TOTAL_LIMIT
    }

    /** Everything fed in so far. */
    ghost function Data(): seq<byte>
      requires Valid()
      reads this, buffer
    {
      done + buffer[..bufLen]
    }

    constructor ()
      ensures Valid() && Data() == [] && fresh(buffer)
    {
      a, b, c, d := 0x67452301, 0xefcdab89, 0x98badcfe, 0x10325476;
      low, high := 0, 0;
      bufLen := 0;
      buffer := new byte[BUFFER_SIZE];
      done := [];
    }

    /** Whole blocks only; the byte count grows with them. */
    method ProcessBlock(bytes: seq<byte>)
      requires Hashed() && |bytes| % BLOCK_SIZE == 0 && |bytes| < WORD_LIMIT
      modifies `a, `b, `c, `d, `low, `high, `done
      ensures Hashed() && done == old(done) + bytes
      ensures old(Counted()) ==> Counted()
    {
      hide Compress, BlockWords, Total, Blocks, INITIAL;
      ghost var total := Total(low, high);
      low, high := AddLength(low, high, |bytes|);
      a, b, c, d := HashBlocks(a, b, c, d, bytes);
      CountedOn(total, |done|, Total(low, high), |bytes|);
      BlocksAppend(INITIAL, done, bytes);
      MultipleOn(|done|, |bytes|);
      done := done + bytes;
    }

    method CopyIn(at: nat, bytes: seq<byte>)
      requires at + |bytes| <= buffer.Length
      modifies buffer
      ensures buffer[at..at + |bytes|] == bytes
      ensures buffer[..at] == old(buffer[..at]) && buffer[at + |bytes|..] == old(buffer[at + |bytes|..])
    {
      forall j | 0 <= j < |bytes| {
        buffer[at + j] := bytes[j];
      }
    }

    /** Feed in one chunk. A longer chunk would overflow the sum that TopUp computes. */
    method Process(chunk: seq<byte>)
      requires Valid() && |chunk| < WORD_LIMIT && (bufLen > 0 ==> bufLen + |chunk| < WORD_LIMIT)
      modifies this, buffer
      ensures Valid() && Data() == old(Data()) + chunk
    {
      hide *;
      var used := 0;
      assert chunk[..0] == [] && Data() + [] == Data();
      if bufLen > 0 {
        used := TopUp(chunk);
      }
      Absorb(chunk[used..]);
      Regroup(old(Data()), chunk, used);
    }

    /** Pad, append the bit count, hash what is left, and give the registers as bytes. */
    method Finish() returns (signature: seq<byte>)
      requires Valid()
      modifies this, buffer
      ensures signature == Digest(old(Data()))
    {
      hide Counted, Blocks, Padded, Signature, LittleEndian;
      var bytes := FinishBuffer();
      ProcessBlock(buffer[..bytes]);
      signature := GetResult();
    }

    /** What is left, the padding and the bit count: one or two whole blocks. */
    method FinishBuffer() returns (bytes: nat)
      requires Valid()
      modifies `low, `high, buffer
      ensures Hashed() && done == old(done)
      ensures bytes <= buffer.Length == BUFFER_SIZE && bytes % BLOCK_SIZE == 0
      ensures done + buffer[..bytes] == Padded(old(Data()))
    {
      hide Blocks, Counted, Total, Padding, LengthBytes, LastBytes, Padded, LittleEndian, LowBits, HighBits, PadLength;
      ghost var n, rest := |done| + bufLen, buffer[..bufLen];
      bytes := bufLen;
      CountRest();
      bytes := PadBuffer();
      PaddingLength(n, bufLen);
      bytes := AppendCount(bytes);
      LengthWords(low, high, n);
      Assoc(rest + Padding(n), LittleEndian(LowBits(low)), LittleEndian(HighBits(low, high)));
      LastBytesAre(n, rest);
      PaddedSplits(done, rest);
    }

    method CountRest()
      requires Valid()
      modifies `low, `high
      ensures Total(low, high) == (|done| + bufLen) % TOTAL_LIMIT
    {
      hide Total, Hashed;
      low, high := AddLength(low, high, bufLen);
      AddRemainder(|done|, bufLen);
    }

    method PadBuffer() returns (bytes: nat)
      requires bufLen <= BLOCK_SIZE && buffer.Length == BUFFER_SIZE
      modifies buffer
      ensures bytes == bufLen + PadLength(bufLen) <= 120
      ensures buffer[..bytes] == old(buffer[..bufLen]) + Padding(bufLen)
    {
      hide Zeros;
      bytes := bufLen;
      var pad: int := BLOCK_SIZE - 8 - bytes;
      if pad <= 0 {
        pad := pad + BLOCK_SIZE;
      }
      if pad > 0 {
        Append(bytes, [0x80]);
        if pad > 1 {
          Append(bytes + 1, Zeros(pad - 1));
        }
        bytes := bytes + pad;
        PaddingParts(old(buffer[..bufLen]), bufLen, pad);
      }
    }

    /** The low word of the bit count before the high one. */
    method AppendCount(at: nat) returns (bytes: nat)
      requires at + 8 <= buffer.Length
      modifies buffer
      ensures bytes == at + 8
      ensures buffer[..bytes] == old(buffer[..at]) + LittleEndian(LowBits(low)) + LittleEndian(HighBits(low, high))
    {
      hide LittleEndian, LowBits, HighBits;
      bytes := at;
      var hold := LowBits(low);
      Append(bytes, LittleEndian(hold));
      bytes := bytes + 4;
      hold := HighBits(low, high);
      Append(bytes, LittleEndian(hold));
      bytes := bytes + 4;
    }

    method Append(at: nat, bytes: seq<byte>)
      requires at + |bytes| <= buffer.Length
      modifies buffer
      ensures buffer[..at + |bytes|] == old(buffer[..at]) + bytes
    {
      CopyIn(at, bytes);
      Prefix(buffer[..], at, at + |bytes|);
    }

    method GetResult() returns (signature: seq<byte>)
      ensures signature == Signature(Regs(a, b, c, d))
    {
      signature := LittleEndian(a) + LittleEndian(b) + LittleEndian(c) + LittleEndian(d);
    }

    /** Fill the buffer from the chunk; whatever of the chunk is left over goes around it. */
    method TopUp(chunk: seq<byte>) returns (used: nat)
      requires Valid() && 0 < bufLen && bufLen + |chunk| < WORD_LIMIT
      modifies this, buffer
      ensures Valid() && used <= |chunk|
      ensures Data() == old(Data()) + chunk[..used]
      ensures used < |chunk| ==> bufLen == 0
    {
      hide Hashed, Counted;
      var inBlock := bufLen;
      used := if inBlock + |chunk| > BUFFER_SIZE then BUFFER_SIZE - inBlock else |chunk|;
      CopyIn(inBlock, chunk[..used]);
      inBlock := inBlock + used;
      Prefix(buffer[..], inBlock - used, inBlock);
      Assoc(done, old(buffer[..bufLen]), chunk[..used]);
      bufLen := inBlock;
      if inBlock > BLOCK_SIZE {
        Drain();
      }
    }

    /** Whole blocks leave the buffer and the rest moves to its front. */
    method Drain()
      requires Hashed() && Counted() && buffer.Length == BUFFER_SIZE && BLOCK_SIZE < bufLen <= BUFFER_SIZE
      modifies this, buffer
      ensures Valid() && Data() == old(done + buffer[..bufLen])
      ensures bufLen == old(bufLen) % BLOCK_SIZE
    {
      hide Hashed, Counted;
      var whole := RoundDown(bufLen);
      Prefix(buffer[..], whole, bufLen);
      Assoc(done, buffer[..whole], buffer[whole..bufLen]);
      ProcessBlock(buffer[..whole]);
      CopyIn(0, buffer[whole..bufLen]);
      bufLen := bufLen - whole;
    }

    /** Whole blocks straight from the chunk, then the rest into the empty buffer. */
    method Absorb(chunk: seq<byte>)
      requires Valid() && |chunk| < WORD_LIMIT && (chunk != [] ==> bufLen == 0)
      modifies this, buffer
      ensures Valid() && Data() == old(Data()) + chunk
    {
      hide Hashed, Counted;
      var rest := chunk;
      if |rest| > BLOCK_SIZE {
        var whole := RoundDown(|rest|);
        ProcessBlock(rest[..whole]);
        rest := rest[whole..];
        Direct(old(done), buffer[..bufLen], chunk, whole);
      }
      if |rest| > 0 {
        Keep(rest);
      } else {
        NoRest(Data(), rest);
      }
    }

    method Keep(rest: seq<byte>)
      requires Valid() && bufLen == 0 && |rest| <= BLOCK_SIZE
      modifies `bufLen, buffer
      ensures Valid() && Data() == old(Data()) + rest
    {
      hide Hashed, Counted;
      NoRest(done, buffer[..bufLen]);
      CopyIn(0, rest);
      bufLen := |rest|;
    }
  }

  lemma NoRest(x: seq<byte>, y: seq<byte>)
    requires y == []
    ensures x + y == x
  {
  }

  lemma Direct(done: seq<byte>, kept: seq<byte>, chunk: seq<byte>, k: nat)
    requires kept == [] && k <= |chunk|
    ensures ((done + chunk[..k]) + kept) + chunk[k..] == (done + kept) + chunk
  {
    NoRest(done, kept);
    NoRest(done + chunk[..k], kept);
    Regroup(done, chunk, k);
  }

  lemma Regroup(x: seq<byte>, y: seq<byte>, k: nat)
    requires k <= |y|
    ensures (x + y[..k]) + y[k..] == x + y
  {
  }

  lemma Prefix(x: seq<byte>, i: nat, j: nat)
    requires i <= j <= |x|
    ensures x[..j] == x[..i] + x[i..j]
  {
  }
}
