/** The int by which a lookup compares distances, and what becomes of its lists because of that int. */
module DistanceKey {
  import opened Common
  import opened Lists
  import opened Xor
  import opened XorMetrics
  import opened Node
  import opened Routing
  import opened Lookup
  import opened SmallIds

  const LONG_LIMIT := 0x1_0000_0000_0000_0000
  const INT_LIMIT := 0x8000_0000

  /** The int that `%x` stores: the C library clamps to 64 bits, and the low 32 are read with a sign. */
  function StoreHex(n: nat): int {
    var long := Min(n, LONG_LIMIT - 1);
    (long + INT_LIMIT) % (2 * INT_LIMIT) - INT_LIMIT
  }

  function Key(target: string): string -> int {
    id => if PeerId(target, id) then StoreHex(Distance(target, id)) else 0
  }

  /** The text of the distance, scanned. */
  method DistanceAsInt(target: string, id: string) returns (k: int)
    requires PeerId(target, id) && target != ""
    ensures k == Key(target)(id)
  {
    hide DigitValue, HexValue, Distance;
    var text := XorMetrics.XorMetrics(target, id);
    DistanceText(text, target, id);
    k := StoreHex(HexValue(text));
  }

  // ----- When the int orders as the distance does

  /** Below n, the ints are in the order of the distances. */
  ghost predicate OrderKept(n: nat) {
    forall x: nat, y: nat :: x < n && y < n ==> (StoreHex(x) < StoreHex(y) <==> x < y)
  }

  /** The input: two neighbouring distances. */
  lemma OrderLost()
    ensures StoreHex(INT_LIMIT) < StoreHex(INT_LIMIT - 1)
  {
  }

  lemma OrderKeptIff(n: nat)
    ensures OrderKept(n) <==> n <= INT_LIMIT
  {
    if n > INT_LIMIT {
      OrderLost();
    }
  }

  function NearBy(target: string, n: nat): Contact -> bool {
    (c: Contact) => PeerId(target, c.nodeID) && Distance(target, c.nodeID) < n
  }

  function Far(target: string): Contact -> bool {
    (c: Contact) => PeerId(target, c.nodeID) && Distance(target, c.nodeID) >= LONG_LIMIT
  }

  function NoFarther(target: string): (Contact, Contact) -> bool {
    (c: Contact, d: Contact) =>
      PeerId(target, c.nodeID) && PeerId(target, d.nodeID) && Distance(target, c.nodeID) <= Distance(target, d.nodeID)
  }

  /** A list of contacts nearer than 2 to the 31 is in order of the int exactly when it is in order of distance. */
  lemma SortedByDistance(l: seq<Contact>, target: string)
    requires All(l, NearBy(target, INT_LIMIT))
    ensures Sorted(l, Key(target)) <==> Pairwise(l, NoFarther(target))
  {
    hide NearBy, Nearer, NoFarther, Key;
    forall i, j | 0 <= i < j < |l|
      ensures Nearer(Key(target))(l[i], l[j]) <==> NoFarther(target)(l[i], l[j])
    {
      SameOrder(target, l[i], l[j]);
    }
  }

  lemma SameOrder(target: string, c: Contact, d: Contact)
    requires NearBy(target, INT_LIMIT)(c) && NearBy(target, INT_LIMIT)(d)
    ensures Nearer(Key(target))(c, d) <==> NoFarther(target)(c, d)
  {
    hide Distance, HexId;
  }

  // ----- No distance key three times

  ghost predicate NoThree(l: seq<Contact>, key: string -> int) {
    forall i, j, k :: 0 <= i < j < k < |l| ==> !(key(l[i].nodeID) == key(l[j].nodeID) == key(l[k].nodeID))
  }

  /** Inserting never makes three contacts of one key. */
  lemma InsertAccNoThree(bucket: seq<Contact>, node: Contact, key: string -> int)
    requires Sorted(bucket, key) && NoThree(bucket, key)
    ensures NoThree(InsertAcc(bucket, node, key), key)
  {
    hide InsertAcc;
    InsertedIff(bucket, node, key);
    InsertAccPlace(bucket, node, key);
    var r := InsertAcc(bucket, node, key);
    if r != bucket {
      var at :| 0 <= at <= |bucket| && r == bucket[..at] + [node] + bucket[at..];
      forall i | 0 < i < |bucket|
        ensures key(bucket[i].nodeID) != key(node.nodeID)
      {
        assert OtherKey(key, key(node.nodeID))(bucket[1..][i - 1]);
      }
      PlacedNoThree(bucket, node, at, key);
    }
  }

  lemma PlacedNoThree(bucket: seq<Contact>, node: Contact, at: nat, key: string -> int)
    requires NoThree(bucket, key) && at <= |bucket|
    requires forall i :: 0 < i < |bucket| ==> key(bucket[i].nodeID) != key(node.nodeID)
    ensures NoThree(bucket[..at] + [node] + bucket[at..], key)
  {
    var r := bucket[..at] + [node] + bucket[at..];
    forall i, j, k | 0 <= i < j < k < |r|
      ensures !(key(r[i].nodeID) == key(r[j].nodeID) == key(r[k].nodeID))
    {
      var was := (n: int) => if n < at then n else n - 1;
      assert i != at ==> r[i] == bucket[was(i)];
      assert j != at ==> r[j] == bucket[was(j)];
      assert k != at ==> r[k] == bucket[was(k)];
    }
  }

  // ----- What that does to a lookup among far contacts

  /** The confirmed contacts after these have answered, one after the other. */
  function Confirmed(answering: seq<Contact>, key: string -> int): seq<Contact> {
    if answering == [] then []
    else InsertAcc(Confirmed(answering[..|answering| - 1], key), answering[|answering| - 1], key)
  }

  lemma {:induction false} ConfirmedNoThree(answering: seq<Contact>, key: string -> int)
    ensures Sorted(Confirmed(answering, key), key) && NoThree(Confirmed(answering, key), key)
  {
    if answering != [] {
      hide InsertAcc;
      var front, c := answering[..|answering| - 1], answering[|answering| - 1];
      ConfirmedNoThree(front, key);
      InsertAccKeeps(Confirmed(front, key), c, key);
      InsertAccNoThree(Confirmed(front, key), c, key);
    }
  }

  lemma {:induction false} AtMostTwoFar(l: seq<Contact>, target: string)
    requires NoThree(l, Key(target))
    ensures |Filter(l, Far(target))| <= 2
  {
    hide PeerId, Distance;
    if |Filter(l, Far(target))| > 2 {
      var i, j, k := ThreeHits(l, Far(target));
      FarKeys(target, l[i]);
      FarKeys(target, l[j]);
      FarKeys(target, l[k]);
    }
  }

  /** Everything from 2 to the 64 on is stored as -1. */
  lemma FarKeys(target: string, c: Contact)
    requires Far(target)(c)
    ensures Key(target)(c.nodeID) == -1
  {
    hide Distance;
  }

  lemma {:induction false} ThreeHits(l: seq<Contact>, hit: Contact -> bool) returns (i: nat, j: nat, k: nat)
    requires |Filter(l, hit)| > 2
    ensures i < j < k < |l| && hit(l[i]) && hit(l[j]) && hit(l[k])
  {
    if hit(l[0]) {
      j, k := TwoHits(l[1..], hit);
      i, j, k := 0, j + 1, k + 1;
    } else {
      i, j, k := ThreeHits(l[1..], hit);
      i, j, k := i + 1, j + 1, k + 1;
    }
  }

  lemma {:induction false} TwoHits(l: seq<Contact>, hit: Contact -> bool) returns (i: nat, j: nat)
    requires |Filter(l, hit)| > 1
    ensures i < j < |l| && hit(l[i]) && hit(l[j])
  {
    if hit(l[0]) {
      j := OneHit(l[1..], hit);
      i, j := 0, j + 1;
    } else {
      i, j := TwoHits(l[1..], hit);
      i, j := i + 1, j + 1;
    }
  }

  lemma {:induction false} OneHit(l: seq<Contact>, hit: Contact -> bool) returns (i: nat)
    requires |Filter(l, hit)| > 0
    ensures i < |l| && hit(l[i])
  {
    if hit(l[0]) {
      i := 0;
    } else {
      i := OneHit(l[1..], hit);
      i := i + 1;
    }
  }

  /** However many contacts answer, no more than two at a distance of 2 to the 64 or more are confirmed. */
  lemma FewFarConfirmed(answering: seq<Contact>, target: string)
    ensures |Filter(Confirmed(answering, Key(target)), Far(target))| <= 2
  {
    ConfirmedNoThree(answering, Key(target));
    AtMostTwoFar(Confirmed(answering, Key(target)), target);
  }

  /** Among far contacts only, the first two to answer are confirmed and all others are dropped. */
  lemma {:induction false} FirstTwoConfirmed(answering: seq<Contact>, target: string)
    requires All(answering, Far(target))
    ensures Confirmed(answering, Key(target)) == answering[..Min(2, |answering|)]
  {
    hide Distance, PeerId, Far;
    if answering != [] {
      var front, c := answering[..|answering| - 1], answering[|answering| - 1];
      FrontFar(answering, target);
      FirstTwoConfirmed(front, target);
      var was := Confirmed(front, Key(target));
      if |front| > 0 {
        FarKeys(target, answering[0]);
      }
      if |front| > 1 {
        FarKeys(target, answering[1]);
      }
      FarKeys(target, c);
      FarInserted(was, c, Key(target));
      assert answering == front + [c];
    }
  }

  lemma FrontFar(l: seq<Contact>, target: string)
    requires l != [] && All(l, Far(target))
    ensures All(l[..|l| - 1], Far(target)) && Far(target)(l[|l| - 1]) && Far(target)(l[0])
    ensures |l| > 1 ==> Far(target)(l[1])
  {
    hide Far;
  }

  lemma FarInserted(l: seq<Contact>, c: Contact, key: string -> int)
    requires |l| <= 2 && forall i :: 0 <= i < |l| ==> key(l[i].nodeID) == key(c.nodeID)
    ensures InsertAcc(l, c, key) == if |l| < 2 then l + [c] else l
  {
  }

  // ----- Three contacts for which it matters

  function BigId(d: char): (s: string)
    ensures |s| == 32
  {
    [d] + Zeros(31)
  }

  function Answering(d: char): Contact {
    Responder("", 0, BigId(d), 0)
  }

  lemma {:induction false} BigValue(d: char, n: nat)
    requires IsHexDigit(d)
    ensures HexId([d] + Zeros(n)) && HexValue([d] + Zeros(n)) == DigitValue(d) * Pow2(4 * n)
  {
    hide DigitValue, IsHexDigit;
    if n == 0 {
      assert [d] + Zeros(0) == "" + [d];
      MoreValue("", d);
    } else {
      BigValue(d, n - 1);
      ZeroIsADigit();
      MoreValue([d] + Zeros(n - 1), '0');
      assert [d] + Zeros(n) == ([d] + Zeros(n - 1)) + ['0'];
      FourMore(4 * (n - 1));
    }
  }

  lemma FourMore(n: nat)
    ensures Pow2(n + 4) == 16 * Pow2(n)
  {
    assert Pow2(n + 4) == 2 * Pow2(n + 3) == 4 * Pow2(n + 2) == 8 * Pow2(n + 1);
  }

  lemma SixteenMore(n: nat)
    ensures Pow2(n + 16) == 0x1_0000 * Pow2(n)
  {
    FourMore(n);
    FourMore(n + 4);
    FourMore(n + 8);
    FourMore(n + 12);
  }

  /** Seen from the id zero, these are at different distances, all of them 2 to the 124 or more. */
  lemma BigDistance(d: char)
    requires IsHexDigit(d)
    ensures PeerId(SELF, BigId(d)) && Distance(SELF, BigId(d)) == DigitValue(d) * Pow2(124)
  {
    hide DigitValue, HexValue, HexId, Xor.Xor, IsHexDigit, Pow2;
    ZeroIsADigit();
    IdValue('0', '0');
    BigValue(d, 31);
    ZeroChangesNothing(HexValue(BigId(d)));
  }

  lemma One()
    ensures Pow2(0) == 1
  {
  }

  lemma Pow2Of64()
    ensures Pow2(124) >= LONG_LIMIT
  {
    hide Pow2;
    One();
    SixteenMore(0);
    SixteenMore(16);
    SixteenMore(32);
    SixteenMore(48);
    Pow2Grows(64, 124);
  }

  lemma IsFar(d: char)
    requires d in "123"
    ensures IsHexDigit(d) && DigitValue(d) == d as int - '0' as int && Far(SELF)(Answering(d))
  {
    hide Pow2, Distance, HexId;
    BigDistance(d);
    Pow2Of64();
  }

  /** Three contacts answer, the nearest one last: it is dropped, and the two farther ones are confirmed. */
  lemma NearestDropped()
    ensures Confirmed([Answering('3'), Answering('2'), Answering('1')], Key(SELF)) == [Answering('3'), Answering('2')]
    ensures Distance(SELF, BigId('1')) < Distance(SELF, BigId('2')) < Distance(SELF, BigId('3'))
  {
    hide Pow2, Distance, HexId, Answering, Far, Key, Confirmed, SELF, BigId;
    var all := [Answering('3'), Answering('2'), Answering('1')];
    IsFar('1');
    IsFar('2');
    IsFar('3');
    BigDistance('1');
    BigDistance('2');
    BigDistance('3');
    FirstTwoConfirmed(all, SELF);
  }

  /** So it goes in a lookup for the id zero, whatever contacts it starts from and whatever the three name. */
  method NearestNotFound(self: string, nearest: seq<Contact>, named: seq<seq<Address>>) returns (q: FindQuery)
    requires |nearest| <= BUCKET_LENGTH && All(nearest, Open()) && |named| == 3
    ensures ResultPart(q.value) == [Answering('3'), Answering('2')]
    ensures Distance(SELF, BigId('1')) < Distance(SELF, BigId('2')) < Distance(SELF, BigId('3'))
  {
    hide TwoParts, Lead, Distance, HexId, Key, SELF, BigId, InsertAcc, DeleteNode, Added, Asked, NotAsked, Responder;
    NothingConfirmed(nearest, Key(SELF));
    NearestDropped();
    ThreeConfirmed(Answering('3'), Answering('2'), Answering('1'), Key(SELF));
    q := new FindQuery(SELF, Key(SELF), nearest);
    var ret, sent := q.LookUpRound(self, BigId('3'), "", 0, named[0], 0);
    ret, sent := q.LookUpRound(self, BigId('2'), "", 0, named[1], 0);
    ret, sent := q.LookUpRound(self, BigId('1'), "", 0, named[2], 0);
  }

  lemma NothingConfirmed(nearest: seq<Contact>, key: string -> int)
    requires |nearest| <= BUCKET_LENGTH && All(nearest, Open())
    ensures Partitioned(nearest, key) && ResultPart(nearest) == []
  {
    LeadOfJoin(nearest, []);
    assert nearest + [] == nearest;
  }

  lemma ThreeConfirmed(a: Contact, b: Contact, c: Contact, key: string -> int)
    ensures Confirmed([a, b, c], key) == InsertAcc(InsertAcc(InsertAcc([], a, key), b, key), c, key)
  {
    hide InsertAcc;
    assert [a, b, c][..2] == [a, b] && [a, b][..1] == [a] && [a][..0] == [];
    assert Confirmed([], key) == [];
    assert Confirmed([a], key) == InsertAcc([], a, key);
    assert Confirmed([a, b], key) == InsertAcc(Confirmed([a], key), b, key);
  }
}
