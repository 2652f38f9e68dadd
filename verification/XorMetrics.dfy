/** Distances between ids written in hexadecimal, and the bucket an id belongs to. */
module XorMetrics {
  import opened Common
  import opened Xor

  predicate IsHexDigit(c: char) {
    '0' <= c <= '9' || 'A' <= c <= 'F' || 'a' <= c <= 'f'
  }

  predicate HexId(s: string) {
    forall i :: 0 <= i < |s| ==> IsHexDigit(s[i])
  }

  function DigitValue(c: char): (d: nat)
    requires IsHexDigit(c)
    ensures d < 16
  {
    if c <= '9' then c as int - '0' as int
    else if c <= 'F' then c as int - 'A' as int + 10
    else c as int - 'a' as int + 10
  }

  function HexValue(s: string): nat
    requires HexId(s)
  {
    if s == "" then 0 else 16 * HexValue(s[..|s| - 1]) + DigitValue(s[|s| - 1])
  }

  /** The number that two ids of equal length are apart. */
  function Distance(x: string, y: string): nat
    requires HexId(x) && HexId(y)
  {
    Xor.Xor(HexValue(x), HexValue(y))
  }

  /** The distance is a metric on the numbers that ids stand for. */
  lemma DistanceIsMetric(x: string, y: string, z: string)
    requires HexId(x) && HexId(y) && HexId(z)
    ensures Distance(x, y) == Distance(y, x)
    ensures Distance(x, y) == 0 <==> HexValue(x) == HexValue(y)
    ensures Distance(x, z) <= Distance(x, y) + Distance(y, z)
  {
    Commutes(HexValue(x), HexValue(y));
    ZeroOnlyWhenEqual(HexValue(x), HexValue(y));
    Triangle(HexValue(x), HexValue(y), HexValue(z));
  }

  /** Ids of equal length at distance zero have the same digits. */
  lemma {:induction false} SameValueSameDigits(x: string, y: string)
    requires HexId(x) && HexId(y) && |x| == |y| && HexValue(x) == HexValue(y)
    ensures forall i :: 0 <= i < |x| ==> DigitValue(x[i]) == DigitValue(y[i])
    decreases |x|
  {
    hide DigitValue;
    if x != "" {
      var k := |x| - 1;
      SameQuotient(HexValue(x[..k]), HexValue(y[..k]), DigitValue(x[k]), DigitValue(y[k]));
      SameValueSameDigits(x[..k], y[..k]);
      forall i | 0 <= i < |x|
        ensures DigitValue(x[i]) == DigitValue(y[i])
      {
        if i < k {
          assert x[i] == x[..k][i] && y[i] == y[..k][i];
        }
      }
    }
  }

  lemma SameQuotient(p: nat, q: nat, d: nat, e: nat)
    requires d < 16 && e < 16 && 16 * p + d == 16 * q + e
    ensures p == q && d == e
  {
  }

  // ----- XORmetrics: through arrays of bits and back

  predicate IsBit(b: int) { b == 0 || b == 1 }

  function Nibble(n3: int, n2: int, n1: int, n0: int): int { 8 * n3 + 4 * n2 + 2 * n1 + n0 }

  method DigitBits(c: char) returns (n3: int, n2: int, n1: int, n0: int)
    requires IsHexDigit(c)
    ensures IsBit(n3) && IsBit(n2) && IsBit(n1) && IsBit(n0)
    ensures Nibble(n3, n2, n1, n0) == DigitValue(c)
  {
    match c
    case '0' => return 0, 0, 0, 0;
    case '1' => return 0, 0, 0, 1;
    case '2' => return 0, 0, 1, 0;
    case '3' => return 0, 0, 1, 1;
    case '4' => return 0, 1, 0, 0;
    case '5' => return 0, 1, 0, 1;
    case '6' => return 0, 1, 1, 0;
    case '7' => return 0, 1, 1, 1;
    case '8' => return 1, 0, 0, 0;
    case '9' => return 1, 0, 0, 1;
    case 'A' => return 1, 0, 1, 0;
    case 'B' => return 1, 0, 1, 1;
    case 'C' => return 1, 1, 0, 0;
    case 'D' => return 1, 1, 0, 1;
    case 'E' => return 1, 1, 1, 0;
    case 'F' => return 1, 1, 1, 1;
    case 'a' => return 1, 0, 1, 0;
    case 'b' => return 1, 0, 1, 1;
    case 'c' => return 1, 1, 0, 0;
    case 'd' => return 1, 1, 0, 1;
    case 'e' => return 1, 1, 1, 0;
    case _ => return 1, 1, 1, 1;
  }

  method BitsDigit(n: int) returns (c: char)
    requires 0 <= n < 16
    ensures IsHexDigit(c) && DigitValue(c) == n && !('a' <= c <= 'f')
  {
    match n
    case 0 => c := '0';
    case 1 => c := '1';
    case 2 => c := '2';
    case 3 => c := '3';
    case 4 => c := '4';
    case 5 => c := '5';
    case 6 => c := '6';
    case 7 => c := '7';
    case 8 => c := '8';
    case 9 => c := '9';
    case 10 => c := 'A';
    case 11 => c := 'B';
    case 12 => c := 'C';
    case 13 => c := 'D';
    case 14 => c := 'E';
    case _ => c := 'F';
  }

  /** Four bits per digit, the lowest first. */
  ghost predicate HoldsDigit(bits: seq<int>, i: nat, d: nat)
    requires 4 * i + 3 < |bits|
  {
    && IsBit(bits[4 * i]) && IsBit(bits[4 * i + 1]) && IsBit(bits[4 * i + 2]) && IsBit(bits[4 * i + 3])
    && Nibble(bits[4 * i + 3], bits[4 * i + 2], bits[4 * i + 1], bits[4 * i]) == d
  }

  ghost predicate Holds(bits: seq<int>, s: string, n: nat)
    requires HexId(s) && n <= |s| && |bits| == 4 * |s|
  {
    forall i :: 0 <= i < n ==> HoldsDigit(bits, i, DigitValue(s[i]))
  }

  lemma SameAt(was: seq<int>, now: seq<int>, lo: nat, hi: nat, k: nat)
    requires lo <= k < hi <= |was| && hi <= |now| && was[lo..hi] == now[lo..hi]
    ensures was[k] == now[k]
  {
    assert was[lo..hi][k - lo] == now[lo..hi][k - lo];
  }

  lemma HoldsDigitStill(was: seq<int>, now: seq<int>, i: nat, d: nat)
    requires 4 * i + 4 <= |was| && 4 * i + 4 <= |now| && HoldsDigit(was, i, d)
    requires was[4 * i..4 * i + 4] == now[4 * i..4 * i + 4]
    ensures HoldsDigit(now, i, d)
  {
    hide Nibble, IsBit;
    SameAt(was, now, 4 * i, 4 * i + 4, 4 * i);
    SameAt(was, now, 4 * i, 4 * i + 4, 4 * i + 1);
    SameAt(was, now, 4 * i, 4 * i + 4, 4 * i + 2);
    SameAt(was, now, 4 * i, 4 * i + 4, 4 * i + 3);
  }

  lemma HoldsStill(was: seq<int>, now: seq<int>, s: string, n: nat)
    requires HexId(s) && n <= |s| && |was| == |now| == 4 * |s| && Holds(was, s, n)
    requires was[..4 * n] == now[..4 * n]
    ensures Holds(now, s, n)
  {
    forall i | 0 <= i < n
      ensures HoldsDigit(now, i, DigitValue(s[i]))
    {
      hide DigitValue, HoldsDigit;
      assert was[4 * i..4 * i + 4] == was[..4 * n][4 * i..4 * i + 4];
      assert now[4 * i..4 * i + 4] == now[..4 * n][4 * i..4 * i + 4];
      assert HoldsDigit(was, i, DigitValue(s[i]));
      HoldsDigitStill(was, now, i, DigitValue(s[i]));
    }
  }

  lemma HoldsMore(bits: seq<int>, s: string, n: nat)
    requires HexId(s) && n < |s| && |bits| == 4 * |s| && Holds(bits, s, n)
    requires HoldsDigit(bits, n, DigitValue(s[n]))
    ensures Holds(bits, s, n + 1)
  {
    hide DigitValue, HoldsDigit;
  }

  method StoreDigit(temp: array<int>, i: nat, c: char)
    requires IsHexDigit(c) && 4 * i + 4 <= temp.Length
    modifies temp
    ensures HoldsDigit(temp[..], i, DigitValue(c))
    ensures temp[..][..4 * i] == old(temp[..][..4 * i])
  {
    hide DigitValue, IsHexDigit, HoldsDigit;
    var n3, n2, n1, n0 := DigitBits(c);
    temp[4 * i] := n0;
    temp[4 * i + 1] := n1;
    temp[4 * i + 2] := n2;
    temp[4 * i + 3] := n3;
    FourBits(temp[..], i, n3, n2, n1, n0);
  }

  lemma FourBits(bits: seq<int>, i: nat, n3: int, n2: int, n1: int, n0: int)
    requires 4 * i + 4 <= |bits| && IsBit(n3) && IsBit(n2) && IsBit(n1) && IsBit(n0)
    requires bits[4 * i + 3] == n3 && bits[4 * i + 2] == n2 && bits[4 * i + 1] == n1 && bits[4 * i] == n0
    ensures HoldsDigit(bits, i, Nibble(n3, n2, n1, n0))
  {
  }

  method ToBits(hash: string) returns (temp: array<int>)
    requires HexId(hash)
    ensures fresh(temp) && temp.Length == 4 * |hash| && Holds(temp[..], hash, |hash|)
  {
    hide DigitValue, HoldsDigit;
    temp := new int[4 * |hash|];
    var i := 0;
    while i < |hash|
      invariant 0 <= i <= |hash| && Holds(temp[..], hash, i)
    {
      ghost var was := temp[..];
      StoreDigit(temp, i, hash[i]);
      HoldsStill(was, temp[..], hash, i);
      HoldsMore(temp[..], hash, i);
      i := i + 1;
    }
  }

  lemma XorOfPairs(a1: int, a0: int, b1: int, b0: int)
    requires IsBit(a1) && IsBit(a0) && IsBit(b1) && IsBit(b0)
    ensures 2 * BitXor(a1, b1) + BitXor(a0, b0) == Xor.Xor(2 * a1 + a0, 2 * b1 + b0)
  {
    hide Xor.Xor, BitXor;
    ZeroOnlyWhenEqual(0, 0);
    NextBit(0, 0, a1, b1);
    NextBit(a1, b1, a0, b0);
  }

  lemma XorOfNibbles(a3: int, a2: int, a1: int, a0: int, b3: int, b2: int, b1: int, b0: int)
    requires IsBit(a3) && IsBit(a2) && IsBit(a1) && IsBit(a0) && IsBit(b3) && IsBit(b2) && IsBit(b1) && IsBit(b0)
    ensures Nibble(BitXor(a3, b3), BitXor(a2, b2), BitXor(a1, b1), BitXor(a0, b0))
         == Xor.Xor(Nibble(a3, a2, a1, a0), Nibble(b3, b2, b1, b0))
  {
    hide Xor.Xor, BitXor;
    XorOfPairs(a3, a2, b3, b2);
    XorOfPairs(a1, a0, b1, b0);
    NextTwoBits(2 * a3 + a2, 2 * b3 + b2, 2 * a1 + a0, 2 * b1 + b0);
  }

  lemma XorOfStoredBits(z: seq<int>, i: nat, a3: int, a2: int, a1: int, a0: int, b3: int, b2: int, b1: int, b0: int)
    requires IsBit(a3) && IsBit(a2) && IsBit(a1) && IsBit(a0) && IsBit(b3) && IsBit(b2) && IsBit(b1) && IsBit(b0)
    requires 4 * i + 4 <= |z|
    requires z[4 * i + 3] == BitXor(a3, b3) && z[4 * i + 2] == BitXor(a2, b2)
    requires z[4 * i + 1] == BitXor(a1, b1) && z[4 * i] == BitXor(a0, b0)
    ensures HoldsDigit(z, i, Xor.Xor(Nibble(a3, a2, a1, a0), Nibble(b3, b2, b1, b0)))
  {
    hide Xor.Xor, Nibble, HoldsDigit;
    XorOfNibbles(a3, a2, a1, a0, b3, b2, b1, b0);
    FourBits(z, i, BitXor(a3, b3), BitXor(a2, b2), BitXor(a1, b1), BitXor(a0, b0));
  }

  lemma StoredBits(x: seq<int>, i: nat, d: nat)
    requires 4 * i + 4 <= |x| && HoldsDigit(x, i, d)
    ensures IsBit(x[4 * i]) && IsBit(x[4 * i + 1]) && IsBit(x[4 * i + 2]) && IsBit(x[4 * i + 3])
    ensures d == Nibble(x[4 * i + 3], x[4 * i + 2], x[4 * i + 1], x[4 * i])
  {
  }

  lemma XorOfStored(x: seq<int>, y: seq<int>, z: seq<int>, i: nat, d: nat, e: nat)
    requires XorBits(x, y, z) && 4 * i + 4 <= |z| && HoldsDigit(x, i, d) && HoldsDigit(y, i, e)
    ensures HoldsDigit(z, i, Xor.Xor(d, e))
  {
    hide Xor.Xor, Nibble, HoldsDigit, BitXor, IsBit;
    StoredBits(x, i, d);
    StoredBits(y, i, e);
    XorOfStoredBits(z, i, x[4 * i + 3], x[4 * i + 2], x[4 * i + 1], x[4 * i],
                    y[4 * i + 3], y[4 * i + 2], y[4 * i + 1], y[4 * i]);
  }

  ghost predicate XorBits(x: seq<int>, y: seq<int>, z: seq<int>) {
    |x| == |y| == |z| && forall i :: 0 <= i < |z| ==> z[i] == BitXor(x[i], y[i])
  }

  ghost predicate HoldsXor(bits: seq<int>, x: string, y: string, n: nat)
    requires HexId(x) && HexId(y) && n <= |x| == |y| && |bits| == 4 * |x|
  {
    forall i :: 0 <= i < n ==> HoldsDigit(bits, i, Xor.Xor(DigitValue(x[i]), DigitValue(y[i])))
  }

  lemma XorOfAll(x: seq<int>, y: seq<int>, z: seq<int>, s: string, t: string)
    requires HexId(s) && HexId(t) && |s| == |t| && |x| == 4 * |s|
    requires XorBits(x, y, z) && Holds(x, s, |s|) && Holds(y, t, |t|)
    ensures HoldsXor(z, s, t, |s|)
  {
    hide DigitValue, HoldsDigit, BitXor, Xor.Xor;
    forall i | 0 <= i < |s|
      ensures HoldsDigit(z, i, Xor.Xor(DigitValue(s[i]), DigitValue(t[i])))
    {
      assert HoldsDigit(x, i, DigitValue(s[i])) && HoldsDigit(y, i, DigitValue(t[i]));
      XorOfStored(x, y, z, i, DigitValue(s[i]), DigitValue(t[i]));
    }
  }

  /** Digit by digit, r is the XOR of x and y. */
  ghost predicate XorDigits(r: string, x: string, y: string, n: nat)
    requires HexId(x) && HexId(y) && n <= |x| == |y|
  {
    |r| == n && HexId(r) && forall i :: 0 <= i < n ==> XorDigit(r[i], x[i], y[i])
  }

  ghost predicate XorDigit(r: char, x: char, y: char) {
    && IsHexDigit(r) && IsHexDigit(x) && IsHexDigit(y)
    && DigitValue(r) == Xor.Xor(DigitValue(x), DigitValue(y))
  }

  method XorMetrics(hash1: string, hash2: string) returns (distance: string)
    requires HexId(hash1) && HexId(hash2) && |hash1| == |hash2|
    ensures XorDigits(distance, hash1, hash2, |hash1|)
  {
    hide DigitValue, HoldsDigit, BitXor, Xor.Xor, Holds, HoldsXor;
    var temp1 := ToBits(hash1);
    var temp2 := ToBits(hash2);
    var bits := XorArrays(temp1, temp2);
    XorOfAll(temp1[..], temp2[..], bits[..], hash1, hash2);
    distance := FromBits(bits, hash1, hash2);
  }

  method XorArrays(temp1: array<int>, temp2: array<int>) returns (bits: array<int>)
    requires temp1.Length == temp2.Length
    ensures fresh(bits) && XorBits(temp1[..], temp2[..], bits[..])
  {
    hide BitXor;
    bits := new int[temp1.Length];
    var i := 0;
    while i < temp1.Length
      invariant 0 <= i <= temp1.Length
      invariant forall k :: 0 <= k < i ==> bits[k] == BitXor(temp1[k], temp2[k])
      invariant temp1[..] == old(temp1[..]) && temp2[..] == old(temp2[..])
    {
      bits[i] := BitXor(temp1[i], temp2[i]);
      i := i + 1;
    }
  }

  method FromBits(bits: array<int>, ghost x: string, ghost y: string) returns (distance: string)
    requires HexId(x) && HexId(y) && |x| == |y| && bits.Length == 4 * |x|
    requires HoldsXor(bits[..], x, y, |x|)
    ensures XorDigits(distance, x, y, |x|)
  {
    hide DigitValue, HoldsDigit, Xor.Xor;
    distance := "";
    var i := 0;
    while i < bits.Length / 4
      invariant 0 <= i <= |x| && XorDigits(distance, x, y, i)
    {
      ghost var d := Xor.Xor(DigitValue(x[i]), DigitValue(y[i]));
      assert HoldsDigit(bits[..], i, d);
      StoredNibble(bits[..], i, d);
      var n := 8 * bits[4 * i + 3] + 4 * bits[4 * i + 2] + 2 * bits[4 * i + 1] + bits[4 * i];
      var c := BitsDigit(n);
      distance := distance + [c];
      i := i + 1;
    }
  }

  lemma StoredNibble(bits: seq<int>, i: nat, d: nat)
    requires 4 * i + 4 <= |bits| && HoldsDigit(bits, i, d)
    ensures 0 <= Nibble(bits[4 * i + 3], bits[4 * i + 2], bits[4 * i + 1], bits[4 * i]) == d < 16
  {
  }

  // ----- The text of the distance stands for the distance

  lemma {:induction false} DistanceText(r: string, x: string, y: string)
    requires HexId(x) && HexId(y) && |x| == |y| && XorDigits(r, x, y, |x|)
    ensures HexValue(r) == Distance(x, y)
    decreases |x|
  {
    hide DigitValue, Xor.Xor;
    if x == "" {
      ZeroOnlyWhenEqual(0, 0);
    } else {
      var k := |x| - 1;
      assert XorDigit(r[k], x[k], y[k]);
      DistanceText(r[..k], x[..k], y[..k]);
      NextDigit(HexValue(x[..k]), HexValue(y[..k]), DigitValue(x[k]), DigitValue(y[k]));
    }
  }

  // ----- find_node_details

  /** Minus one for zero, otherwise the floor of the base-two logarithm. */
  function Log2(x: nat): (b: int)
    ensures b >= -1
  {
    if x == 0 then -1 else 1 + Log2(x / 2)
  }

  lemma {:induction false} LogIsTop(x: nat)
    requires x > 0
    ensures Log2(x) >= 0 && Top(x, Log2(x))
  {
    if x == 1 {
      assert Log2(1) == 1 + Log2(0) && Pow2(1) == 2 * Pow2(0);
    } else {
      LogIsTop(x / 2);
      Doubled(x, Log2(x / 2));
    }
  }

  lemma Doubled(x: nat, b: nat)
    requires Top(x / 2, b)
    ensures Top(x, b + 1)
  {
    assert Pow2(b + 1) == 2 * Pow2(b) && Pow2(b + 2) == 2 * Pow2(b + 1);
  }

  /** The bucket of an id in the table of a node. */
  function BucketOf(self: string, id: string): int
    requires HexId(self) && HexId(id)
  {
    Log2(Distance(self, id))
  }

  lemma LogOfDigit(v: nat)
    requires v < 16
    ensures Log2(v) == if v == 0 then -1 else if v == 1 then 0 else if v < 4 then 1 else if v < 8 then 2 else 3
  {
    LogOfTwoBits(v / 4);
    LogOfTwoBits(v);
    assert v > 0 ==> Log2(v) == 1 + Log2(v / 2);
    assert v > 1 ==> Log2(v / 2) == 1 + Log2(v / 4);
  }

  lemma LogOfTwoBits(v: nat)
    ensures v == 0 ==> Log2(v) == -1
    ensures v == 1 ==> Log2(v) == 0
    ensures 2 <= v < 4 ==> Log2(v) == 1
  {
    assert v > 0 ==> Log2(v) == 1 + Log2(v / 2);
    assert v > 1 ==> Log2(v / 2) == 1 + Log2(v / 4);
    assert Log2(0) == -1;
  }

  lemma LogOfMoreDigits(x: nat, d: nat)
    requires x > 0 && d < 16
    ensures Log2(16 * x + d) == Log2(x) + 4
  {
    hide Log2;
    LogOfTwoMoreBits(x, d / 4);
    LogOfTwoMoreBits(4 * x + d / 4, d % 4);
  }

  lemma LogOfTwoMoreBits(x: nat, d: nat)
    requires x > 0 && d < 4
    ensures Log2(4 * x + d) == Log2(x) + 2
  {
    hide Log2;
    LogOfOneMoreBit(x, d / 2);
    LogOfOneMoreBit(2 * x + d / 2, d % 2);
  }

  lemma LogOfOneMoreBit(x: nat, b: nat)
    requires x > 0 && b < 2
    ensures Log2(2 * x + b) == Log2(x) + 1
  {
    assert (2 * x + b) / 2 == x;
  }

  lemma {:induction false} LogOfText(s: string, i: nat)
    requires HexId(s) && i <= |s| && HexValue(s[..i]) > 0
    ensures Log2(HexValue(s)) == Log2(HexValue(s[..i])) + 4 * (|s| - i)
    decreases |s|
  {
    hide Log2, DigitValue;
    if i == |s| {
      assert s[..i] == s;
    } else {
      var t := s[..|s| - 1];
      assert t[..i] == s[..i];
      LogOfText(t, i);
      Positive(s, i);
      LogOfMoreDigits(HexValue(t), DigitValue(s[|s| - 1]));
    }
  }

  lemma {:induction false} Positive(s: string, i: nat)
    requires HexId(s) && i < |s| && HexValue(s[..i]) > 0
    ensures HexValue(s[..|s| - 1]) > 0
    decreases |s|
  {
    if i < |s| - 1 {
      assert s[..|s| - 1][..i] == s[..i];
      Positive(s[..|s| - 1], i);
    }
  }

  lemma ValueNext(s: string, i: nat)
    requires HexId(s) && i < |s|
    ensures HexId(s[..i]) && HexId(s[..i + 1])
    ensures HexValue(s[..i + 1]) == 16 * HexValue(s[..i]) + DigitValue(s[i])
  {
    assert s[..i + 1][..i] == s[..i];
  }

  /** The bucket number is the floor of the logarithm of the distance; it is -1 exactly for the same id. */
  method FindNodeDetails(thisNode: string, otherNode: string) returns (res: int)
    requires HexId(thisNode) && HexId(otherNode) && |thisNode| == |otherNode|
    ensures res == BucketOf(thisNode, otherNode) < 4 * |thisNode|
  {
    hide Log2, DigitValue, XorDigit;
    var distance := XorMetrics(thisNode, otherNode);
    DistanceText(distance, thisNode, otherNode);
    res := FirstBit(distance);
  }

  lemma FirstDigit(distance: string, i: nat, alpha: char)
    requires HexId(distance) && i < |distance| && HexValue(distance[..i]) == 0
    requires alpha == distance[i] != '0'
    ensures Log2(HexValue(distance)) == 4 * (|distance| - 1 - i)
            + (if alpha == '1' then 0 else if alpha in "23" then 1 else if alpha in "4567" then 2 else 3)
  {
    hide Log2, HexValue;
    ValueNext(distance, i);
    LogOfDigit(DigitValue(alpha));
    LogOfText(distance, i + 1);
  }

  lemma LogOfZero()
    ensures Log2(0) == -1
  {
  }

  method FirstBit(distance: string) returns (res: int)
    requires HexId(distance)
    ensures res == Log2(HexValue(distance)) < 4 * |distance|
  {
    hide Log2, HexValue;
    var text := distance + [NUL];
    var length := |distance|;
    var i := 0;
    LogOfZero();
    NoDigits(distance);
    while text[i] == '0'
      invariant 0 <= i <= length && HexValue(distance[..i]) == 0
      decreases length - i
    {
      ValueNext(distance, i);
      i := i + 1;
    }
    var alpha := text[i];
    var len := length - 1 - i;
    if alpha == '1' {
      res := 4 * len;
    } else if alpha == '2' || alpha == '3' {
      res := 4 * len + 1;
    } else if alpha == '4' || alpha == '5' || alpha == '6' || alpha == '7' {
      res := 4 * len + 2;
    } else {
      res := 4 * len + 3;
    }
    if i < length {
      FirstDigit(distance, i, alpha);
    } else {
      assert distance[..i] == distance;
    }
  }

  lemma NoDigits(s: string)
    ensures HexId(s[..0]) && HexValue(s[..0]) == 0
  {
  }
}
