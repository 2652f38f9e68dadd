/** The texts of signatures as the ids whose distances the node compares. */
module Md5Ids {
  import opened Common
  import opened Md5Spec
  import opened Md5Text
  import opened XorMetrics

  /** The number that the bytes stand for, high-order byte first. */
  function BigEndian(sig: seq<byte>): nat {
    if sig == [] then 0 else 0x100 * BigEndian(sig[..|sig| - 1]) + sig[|sig| - 1]
  }

  lemma DigitOfTable(d: nat)
    requires d < 16
    ensures IsHexDigit(HEX_STRING[d]) && DigitValue(HEX_STRING[d]) == d && !('A' <= HEX_STRING[d] <= 'F')
  {
  }

  lemma PairOfByte(b: byte)
    ensures IsHexDigit(HexPair(b)[0]) && IsHexDigit(HexPair(b)[1])
    ensures 16 * DigitValue(HexPair(b)[0]) + DigitValue(HexPair(b)[1]) == b
  {
    hide DigitValue, IsHexDigit;
    DigitOfTable(b / 16);
    DigitOfTable(b % 16);
  }

  lemma TwoMore(s: string, c: char, d: char)
    requires HexId(s) && IsHexDigit(c) && IsHexDigit(d)
    ensures HexId(s + [c, d]) && HexValue(s + [c, d]) == 0x100 * HexValue(s) + 16 * DigitValue(c) + DigitValue(d)
  {
    hide DigitValue, IsHexDigit;
    var t := s + [c, d];
    ValueNext(t, |s|);
    ValueNext(t, |s| + 1);
    assert t[..|s|] == s && t[..|s| + 2] == t;
  }

  /** The text of a signature is the id with the signature's number. */
  lemma {:induction false} TextNumber(sig: seq<byte>)
    ensures HexId(HexText(sig)) && HexValue(HexText(sig)) == BigEndian(sig)
  {
    hide DigitValue, IsHexDigit, HexPair;
    if sig != [] {
      var front, b := sig[..|sig| - 1], sig[|sig| - 1];
      TextNumber(front);
      PairOfByte(b);
      TwoMore(HexText(front), HexPair(b)[0], HexPair(b)[1]);
      assert HexPair(b) == [HexPair(b)[0], HexPair(b)[1]];
    }
  }
}
