/** The XOR metric on naturals. */
module Xor {

  function BitXor(a: int, b: int): int { if a == b then 0 else 1 }

  function Xor(x: nat, y: nat): nat
    decreases x + y
  {
    if x == 0 && y == 0 then 0 else 2 * Xor(x / 2, y / 2) + BitXor(x % 2, y % 2)
  }

  lemma Halves(x: nat, y: nat)
    ensures Xor(x, y) / 2 == Xor(x / 2, y / 2) && Xor(x, y) % 2 == BitXor(x % 2, y % 2)
  {
  }

  lemma {:induction false} Commutes(x: nat, y: nat)
    ensures Xor(x, y) == Xor(y, x)
    decreases x + y
  {
    if x != 0 || y != 0 {
      Commutes(x / 2, y / 2);
    }
  }

  lemma {:induction false} ZeroOnlyWhenEqual(x: nat, y: nat)
    ensures Xor(x, y) == 0 <==> x == y
    decreases x + y
  {
    if x != 0 || y != 0 {
      ZeroOnlyWhenEqual(x / 2, y / 2);
    }
  }

  lemma {:induction false} Associates(x: nat, y: nat, z: nat)
    ensures Xor(Xor(x, y), z) == Xor(x, Xor(y, z))
    decreases x + y + z
  {
    if x != 0 || y != 0 || z != 0 {
      Halves(x, y);
      Halves(y, z);
      Halves(Xor(x, y), z);
      Halves(x, Xor(y, z));
      Associates(x / 2, y / 2, z / 2);
      SameHalves(Xor(Xor(x, y), z), Xor(x, Xor(y, z)));
    }
  }

  lemma SameHalves(x: nat, y: nat)
    requires x / 2 == y / 2 && x % 2 == y % 2
    ensures x == y
  {
  }

  lemma {:induction false} ZeroChangesNothing(x: nat)
    ensures Xor(x, 0) == x && Xor(0, x) == x
  {
    if x != 0 {
      ZeroChangesNothing(x / 2);
    }
  }

  lemma {:induction false} AtMostTheSum(x: nat, y: nat)
    ensures Xor(x, y) <= x + y
    decreases x + y
  {
    if x != 0 || y != 0 {
      AtMostTheSum(x / 2, y / 2);
    }
  }

  /** A middle point cancels. */
  lemma Cancels(x: nat, y: nat, z: nat)
    ensures Xor(Xor(x, y), Xor(y, z)) == Xor(x, z)
  {
    Associates(Xor(x, y), y, z);
    Associates(x, y, y);
    ZeroOnlyWhenEqual(y, y);
    ZeroChangesNothing(x);
  }

  lemma {:induction false} Triangle(x: nat, y: nat, z: nat)
    ensures Xor(x, z) <= Xor(x, y) + Xor(y, z)
  {
    Cancels(x, y, z);
    AtMostTheSum(Xor(x, y), Xor(y, z));
  }

  // ----- The most significant bit

  function Pow2(b: nat): (p: nat)
    ensures p >= 1
  {
    if b == 0 then 1 else 2 * Pow2(b - 1)
  }

  /** b is the floor of the base-two logarithm of x. */
  predicate Top(x: nat, b: nat) {
    Pow2(b) <= x < Pow2(b + 1)
  }

  lemma {:induction false} Pow2Grows(a: nat, b: nat)
    requires a <= b
    ensures Pow2(a) <= Pow2(b)
  {
    if a < b {
      Pow2Grows(a, b - 1);
    }
  }

  lemma TopIsUnique(x: nat, a: nat, b: nat)
    requires Top(x, a) && Top(x, b)
    ensures a == b
  {
    if a < b {
      Pow2Grows(a + 1, b);
    } else if b < a {
      Pow2Grows(b + 1, a);
    }
  }

  /** Numbers with the same top bit are closer to each other than that bit. */
  lemma {:induction false} SameTop(x: nat, y: nat, b: nat)
    requires Top(x, b) && Top(y, b)
    ensures Xor(x, y) < Pow2(b)
    decreases b
  {
    if b == 0 {
      assert Pow2(1) == 2;
      ZeroOnlyWhenEqual(x, y);
    } else {
      SameTop(x / 2, y / 2, b - 1);
    }
  }

  /** A number without that bit is about as far away as the bit is worth. */
  lemma {:induction false} LowerTop(x: nat, y: nat, b: nat)
    requires x < Pow2(b) && Top(y, b)
    ensures Top(Xor(x, y), b)
    decreases b
  {
    if b == 0 {
      ZeroChangesNothing(y);
    } else {
      LowerTop(x / 2, y / 2, b - 1);
    }
  }

  /** Bit r of x is set. */
  predicate Bit(x: nat, r: nat) {
    if r == 0 then x % 2 == 1 else Bit(x / 2, r - 1)
  }

  /** Of a number with its top bit at r and a smaller one, which is closer to x is decided by bit r of x. */
  lemma {:induction false} BitDecides(x: nat, y: nat, z: nat, r: nat)
    requires Top(y, r) && z < Pow2(r)
    ensures Xor(x, y) != Xor(x, z)
    ensures Xor(x, y) < Xor(x, z) <==> Bit(x, r)
    decreases r
  {
    hide Xor, BitXor;
    Halves(x, y);
    Halves(x, z);
    if r == 0 {
      Digits(x, y, z);
    } else {
      BitDecides(x / 2, y / 2, z / 2, r - 1);
    }
  }

  lemma Digits(x: nat, y: nat, z: nat)
    requires Top(y, 0) && z < Pow2(0)
    ensures Xor(x, y) != Xor(x, z) && (Xor(x, y) < Xor(x, z) <==> Bit(x, 0))
  {
    hide Xor;
    assert Pow2(1) == 2;
    Halves(x, 1);
    Halves(x, 0);
  }

  lemma NextBit(p: nat, q: nat, a: int, b: int)
    requires 0 <= a < 2 && 0 <= b < 2
    ensures Xor(2 * p + a, 2 * q + b) == 2 * Xor(p, q) + BitXor(a, b)
  {
    if 2 * p + a == 0 && 2 * q + b == 0 {
    } else {
      assert (2 * p + a) / 2 == p && (2 * q + b) / 2 == q;
    }
  }

  lemma NextTwoBits(p: nat, q: nat, d: nat, e: nat)
    requires d < 4 && e < 4
    ensures Xor(4 * p + d, 4 * q + e) == 4 * Xor(p, q) + Xor(d, e)
  {
    hide Xor, BitXor;
    NextBit(2 * p + d / 2, 2 * q + e / 2, d % 2, e % 2);
    NextBit(p, q, d / 2, e / 2);
    NextBit(d / 2, e / 2, d % 2, e % 2);
    NextBit(0, 0, d / 2, e / 2);
    ZeroOnlyWhenEqual(0, 0);
  }

  /** Four bits at a time. */
  lemma NextDigit(p: nat, q: nat, d: nat, e: nat)
    requires d < 16 && e < 16
    ensures Xor(16 * p + d, 16 * q + e) == 16 * Xor(p, q) + Xor(d, e)
  {
    hide Xor, BitXor;
    NextTwoBits(4 * p + d / 4, 4 * q + e / 4, d % 4, e % 4);
    NextTwoBits(p, q, d / 4, e / 4);
    NextTwoBits(d / 4, e / 4, d % 4, e % 4);
  }
}
