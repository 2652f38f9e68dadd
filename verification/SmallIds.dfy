/** Ids of 32 digits of which only the last two are not zero, and contacts that have them. */
module SmallIds {
  import opened Common
  import opened Xor
  import opened XorMetrics
  import opened Node
  import opened Routing

  function Zeros(n: nat): (s: string)
    ensures |s| == n && forall i :: 0 <= i < n ==> s[i] == '0'
  {
    seq(n, _ => '0')
  }

  function Id(c: char, d: char): (s: string)
    ensures |s| == 32
  {
    Zeros(30) + [c, d]
  }

  const SELF: string := Id('0', '0')

  lemma {:induction false} ZerosValue(n: nat)
    ensures HexValue(Zeros(n)) == 0
  {
    if n > 0 {
      ZerosValue(n - 1);
      assert Zeros(n)[..n - 1] == Zeros(n - 1);
    }
  }

  lemma MoreValue(s: string, c: char)
    requires HexId(s) && IsHexDigit(c)
    ensures HexId(s + [c]) && HexValue(s + [c]) == 16 * HexValue(s) + DigitValue(c)
  {
    assert (s + [c])[..|s|] == s;
  }

  lemma IdValue(c: char, d: char)
    requires IsHexDigit(c) && IsHexDigit(d)
    ensures HexId(Id(c, d)) && HexValue(Id(c, d)) == 16 * DigitValue(c) + DigitValue(d)
  {
    hide DigitValue, HexValue, IsHexDigit, Zeros;
    ZerosAreDigits(30);
    ZerosValue(30);
    MoreValue(Zeros(30), c);
    MoreValue(Zeros(30) + [c], d);
    assert Zeros(30) + [c, d] == (Zeros(30) + [c]) + [d];
  }

  lemma ZerosAreDigits(n: nat)
    ensures HexId(Zeros(n))
  {
  }

  lemma IdsDiffer(c: char, d: char, e: char, f: char)
    ensures Id(c, d) == Id(e, f) <==> c == e && d == f
  {
    assert Id(c, d)[30] == c && Id(c, d)[31] == d && Id(e, f)[30] == e && Id(e, f)[31] == f;
  }

  /** Seen from the id zero, distances are the numbers themselves. */
  lemma FromSelf(c: char, d: char)
    requires IsHexDigit(c) && IsHexDigit(d)
    ensures PeerId(SELF, Id(c, d)) && HexValue(SELF) == 0
    ensures Distance(SELF, Id(c, d)) == 16 * DigitValue(c) + DigitValue(d)
  {
    hide DigitValue, HexValue, Xor.Xor, IsHexDigit, HexId, Id;
    ZeroIsADigit();
    IdValue('0', '0');
    IdValue(c, d);
    ZeroChangesNothing(HexValue(Id(c, d)));
  }

  lemma ZeroIsADigit()
    ensures IsHexDigit('0') && DigitValue('0') == 0
  {
  }

  /** The ids that end in 8 to F are in bucket 3. */
  lemma InThree(d: char)
    requires d in "89ABCDEF"
    ensures IsHexDigit(d) && 8 <= DigitValue(d) < 16 && Belongs(SELF, Id('0', d), 3)
    ensures HexValue(SELF) != HexValue(Id('0', d))
  {
    hide HexValue, Log2, Id, HexId;
    FromSelf('0', d);
    LogOfDigit(DigitValue(d));
    ZeroOnlyWhenEqual(HexValue(SELF), HexValue(Id('0', d)));
  }

  // ----- Contacts with such ids

  function Met(d: char, time: int): Contact {
    Contact("", 0, 0, Id('0', d), time)
  }

  /** Contacts met at time 0. */
  function AllMet(ds: string): (bucket: seq<Contact>)
    ensures |bucket| == |ds|
  {
    seq(|ds|, i requires 0 <= i < |ds| => Met(ds[i], 0))
  }

  lemma NotMet(ds: string, d: char)
    requires d !in ds
    ensures FirstWith(AllMet(ds), Id('0', d)) == None
  {
    hide Id;
    var bucket := AllMet(ds);
    forall i | 0 <= i < |bucket|
      ensures bucket[i].nodeID != Id('0', d)
    {
      IdsDiffer('0', ds[i], '0', d);
    }
    FirstWithIs(bucket, Id('0', d), |bucket|);
  }

  lemma GreetedBucket(ds: string, d: char)
    requires d !in ds && |ds| < BUCKET_LENGTH
    ensures MoveNodeDetails(AllMet(ds), Id('0', d), "", 0, 0) == AllMet(ds + [d])
  {
    hide FirstWith, Id;
    NotMet(ds, d);
  }
}
