/** Hashing whole messages and chunked ones, and signatures as text. */
module Md5Text {
  import opened Common
  import opened Md5Spec
  import opened Md5Stream
  import opened Md5Context

  const HEX_STRING: string := "0123456789abcdef"
  const MD5_SIZE := 16

  method Md5Buffer(message: seq<byte>) returns (signature: seq<byte>)
    requires |message| < WORD_LIMIT
    ensures signature == Digest(message)
  {
    hide Digest;
    var md5 := new Context();
    md5.Process(message);
    signature := md5.Finish();
    assert [] + message == message;
  }

  function Flatten(chunks: seq<seq<byte>>): seq<byte> {
    if chunks == [] then [] else Flatten(chunks[..|chunks| - 1]) + chunks[|chunks| - 1]
  }

  lemma FlattenNext(chunks: seq<seq<byte>>, i: nat)
    requires i < |chunks|
    ensures Flatten(chunks[..i + 1]) == Flatten(chunks[..i]) + chunks[i]
  {
    assert chunks[..i + 1][..i] == chunks[..i];
  }

  /** However a message is cut into chunks, the digest is that of the whole. */
  method HashChunks(chunks: seq<seq<byte>>) returns (signature: seq<byte>)
    requires forall c :: c in chunks ==> |c| < WORD_LIMIT - BLOCK_SIZE
    ensures signature == Digest(Flatten(chunks))
  {
    hide Digest, Flatten, Context.Data, Context.Hashed, Context.Counted;
    var md5 := new Context();
    var i := 0;
    NoChunks(chunks);
    while i < |chunks|
      invariant 0 <= i <= |chunks|
      invariant fresh(md5) && fresh(md5.buffer) && md5.Valid() && md5.Data() == Flatten(chunks[..i])
      decreases |chunks| - i
    {
      FlattenNext(chunks, i);
      md5.Process(chunks[i]);
      i := i + 1;
    }
    assert chunks[..i] == chunks;
    signature := md5.Finish();
  }

  lemma NoChunks(chunks: seq<seq<byte>>)
    ensures Flatten(chunks[..0]) == []
  {
  }

  // ----- Signatures as text

  function HexPair(b: byte): (s: string)
    ensures |s| == 2
  {
    [HEX_STRING[b / 16], HEX_STRING[b % 16]]
  }

  function HexText(sig: seq<byte>): (s: string)
    ensures |s| == 2 * |sig|
  {
    if sig == [] then "" else HexText(sig[..|sig| - 1]) + HexPair(sig[|sig| - 1])
  }

  lemma HexTextNext(sig: seq<byte>, i: nat)
    requires i < |sig|
    ensures HexText(sig[..i + 1]) == HexText(sig[..i]) + HexPair(sig[i])
  {
    assert sig[..i + 1][..i] == sig[..i];
  }

  /** As many whole bytes as fit, and a NUL only when there is room left for it. */
  method SigToString(sig: seq<byte>, strLen: int) returns (str: string)
    requires |sig| == MD5_SIZE
    ensures str == HexText(sig[..Max(0, Min(MD5_SIZE, strLen / 2))])
                   + (if strLen > 0 && (strLen % 2 == 1 || strLen > 2 * MD5_SIZE) then [NUL] else [])
  {
    hide HexText;
    str := "";
    var i := 0;
    NoText(sig);
    while i < MD5_SIZE
      invariant 0 <= i <= MD5_SIZE && str == HexText(sig[..i]) && (i > 0 ==> 2 * i <= strLen)
      invariant |str| == 2 * i
    {
      var high, low := sig[i] / 16, sig[i] % 16;
      if |str| + 1 >= strLen {
        break;
      }
      HexTextNext(sig, i);
      Pairs(str, HEX_STRING[high], HEX_STRING[low]);
      str := str + [HEX_STRING[high]];
      str := str + [HEX_STRING[low]];
      i := i + 1;
    }
    if |str| < strLen {
      str := str + [NUL];
    }
  }

  /** The input: a buffer of 32 characters is filled with digits, and no NUL follows them. */
  method Unterminated(sig: seq<byte>) returns (str: string)
    requires |sig| == MD5_SIZE
    ensures str == HexText(sig) && |str| == 2 * MD5_SIZE && NUL !in str
  {
    hide HexText;
    str := SigToString(sig, 2 * MD5_SIZE);
    TextOfWhole(sig);
  }

  lemma NoText(sig: seq<byte>)
    ensures HexText(sig[..0]) == ""
  {
  }

  lemma Pairs(s: string, x: char, y: char)
    ensures (s + [x]) + [y] == s + [x, y]
  {
  }

  /** Where strchr finds a digit of the table. */
  function HexIndex(c: char): (k: nat)
    requires c in HEX_STRING
    ensures k < 16 && HEX_STRING[k] == c
  {
    if c <= '9' then c as int - '0' as int else c as int - 'a' as int + 10
  }

  predicate HexSignature(str: string) {
    |str| == 2 * MD5_SIZE && forall c :: c in str ==> c in HEX_STRING
  }

  lemma DigitAt(str: string, i: nat)
    requires HexSignature(str) && i < |str|
    ensures str[i] in HEX_STRING
  {
  }

  lemma PairOf(x: char, y: char)
    requires x in HEX_STRING && y in HEX_STRING
    ensures HexPair(HexIndex(x) * 16 + HexIndex(y)) == [x, y]
  {
    hide HexIndex, HEX_STRING;
  }

  lemma TextOfMore(sig: seq<byte>, b: byte)
    ensures HexText(sig + [b]) == HexText(sig) + HexPair(b)
  {
    hide HexPair;
    assert (sig + [b])[..|sig|] == sig;
  }

  lemma TwoMore(str: string, at: nat)
    requires at + 2 <= |str|
    ensures str[..at + 2] == str[..at] + [str[at], str[at + 1]]
  {
  }

  method SigFromString(str: string) returns (sig: seq<byte>)
    requires 2 * MD5_SIZE <= |str| && HexSignature(str[..2 * MD5_SIZE])
    ensures |sig| == MD5_SIZE && HexText(sig) == str[..2 * MD5_SIZE]
  {
    hide HexText, HexIndex, HexPair, HexSignature, HEX_STRING;
    sig := [];
    var at := 0;
    NoText(sig);
    while at < 2 * MD5_SIZE
      invariant 0 <= at <= 2 * MD5_SIZE && at == 2 * |sig|
      invariant HexText(sig) == str[..at]
    {
      DigitAt(str[..2 * MD5_SIZE], at);
      DigitAt(str[..2 * MD5_SIZE], at + 1);
      var high := HexIndex(str[at]);
      var low := HexIndex(str[at + 1]);
      var val: byte := high * 16 + low;
      PairOf(str[at], str[at + 1]);
      TextOfMore(sig, val);
      TwoMore(str, at);
      sig := sig + [val];
      at := at + 2;
    }
  }

  /** Distinct signatures have distinct texts, so reading a text back gives the signature it was made from. */
  lemma {:induction false} HexTextInjective(x: seq<byte>, y: seq<byte>)
    requires |x| == |y| && HexText(x) == HexText(y)
    ensures x == y
  {
    if x != [] {
      var k := |x| - 1;
      var p, q := HexText(x[..k]), HexText(y[..k]);
      assert HexText(x) == p + HexPair(x[k]) && HexText(y) == q + HexPair(y[k]);
      assert (p + HexPair(x[k]))[..2 * k] == p && (q + HexPair(y[k]))[..2 * k] == q;
      assert (p + HexPair(x[k]))[2 * k..] == HexPair(x[k]) && (q + HexPair(y[k]))[2 * k..] == HexPair(y[k]);
      HexTextInjective(x[..k], y[..k]);
      PairInjective(x[k], y[k]);
      assert x == x[..k] + [x[k]] && y == y[..k] + [y[k]];
    }
  }

  lemma PairInjective(x: byte, y: byte)
    requires HexPair(x) == HexPair(y)
    ensures x == y
  {
    assert HexPair(x)[0] == HEX_STRING[x / 16] && HexPair(x)[1] == HEX_STRING[x % 16];
    assert HexPair(y)[0] == HEX_STRING[y / 16] && HexPair(y)[1] == HEX_STRING[y % 16];
    TableInjective(x / 16, y / 16);
    TableInjective(x % 16, y % 16);
  }

  lemma TableInjective(i: nat, j: nat)
    requires i < 16 && j < 16 && HEX_STRING[i] == HEX_STRING[j]
    ensures i == j
  {
  }

  /** Text and back. */
  method SigRoundTrip(sig: seq<byte>) returns (back: seq<byte>)
    requires |sig| == MD5_SIZE
    ensures back == sig
  {
    var str := SigToString(sig, 33);
    TextOfWhole(sig);
    back := SigFromString(str);
    assert str[..32] == HexText(sig);
    HexTextInjective(back, sig);
  }

  lemma TextOfWhole(sig: seq<byte>)
    requires |sig| == MD5_SIZE
    ensures sig[..MD5_SIZE] == sig && HexSignature(HexText(sig))
  {
    HexTextDigits(sig);
  }

  lemma {:induction false} HexTextDigits(sig: seq<byte>)
    ensures forall c :: c in HexText(sig) ==> c in HEX_STRING
  {
    if sig != [] {
      HexTextDigits(sig[..|sig| - 1]);
      PairDigits(sig[|sig| - 1]);
    }
  }

  lemma PairDigits(b: byte)
    ensures forall c :: c in HexPair(b) ==> c in HEX_STRING
  {
    assert HEX_STRING[b / 16] in HEX_STRING && HEX_STRING[b % 16] in HEX_STRING;
  }

  /** What the node uses for ids: the digest of a name as 32 digits and a NUL. */
  method Hash(message: seq<byte>) returns (str: string, signature: seq<byte>)
    requires |message| < WORD_LIMIT
    ensures signature == Digest(message) && str == HexText(signature) + [NUL]
    ensures |str| == 33 && HexSignature(str[..32])
  {
    hide Digest, HexText;
    signature := Md5Buffer(message);
    DigestSize(message);
    str := SigToString(signature, 33);
    TextOfWhole(signature);
    assert str[..32] == HexText(signature);
  }

  lemma DigestSize(message: seq<byte>)
    ensures |Digest(message)| == MD5_SIZE
  {
    hide Blocks, Padded, LittleEndian;
  }
}
