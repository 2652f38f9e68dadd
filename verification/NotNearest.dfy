/** A table on which the six contacts returned are not the nearest ones. */
module NotNearest {
  import opened Common
  import opened Lists
  import opened Xor
  import opened XorMetrics
  import opened Node
  import opened Routing
  import opened Nearest
  import opened SmallIds

  const TARGET: string := Id('1', '0')

  const DIGITS: string := "89ABCD"

  function Holding(zero: seq<Contact>, three: seq<Contact>): (t: seq<seq<Contact>>)
    ensures |t| == NUMBER_OF_BUCKETS
  {
    seq(NUMBER_OF_BUCKETS, r => if r == 3 then three else if r == 0 then zero else [])
  }

  /** Six contacts in bucket 3 and one in bucket 0. */
  function Lopsided(): (t: seq<seq<Contact>>)
    ensures |t| == NUMBER_OF_BUCKETS
  {
    Holding([Met('1', 0)], AllMet(DIGITS))
  }

  lemma {:induction false} NothingUp(table: seq<seq<Contact>>, k: nat)
    requires k <= |table| && forall r :: k <= r < |table| ==> table[r] == []
    ensures Up(table, k) == []
    decreases |table| - k
  {
    if k < |table| {
      NothingUp(table, k + 1);
    }
  }

  lemma OneDown(table: seq<seq<Contact>>, k: nat)
    requires k < |table|
    ensures Down(table, k) == table[k] + Down(table, k - 1)
    ensures table[k] == [] ==> Down(table, k) == Down(table, k - 1)
    ensures k == 0 ==> Down(table, k) == table[0]
  {
  }

  lemma WalkIs()
    ensures Outwards(Lopsided(), 4) == AllMet(DIGITS) + [Met('1', 0)]
  {
    hide AllMet, Down, Up, Met;
    var t := Lopsided();
    NothingUp(t, 5);
    OneDown(t, 0);
    OneDown(t, 1);
    OneDown(t, 2);
    OneDown(t, 3);
    OneDown(t, 4);
  }

  lemma SixAre(i: nat)
    requires i < 6
    ensures |AllMet(DIGITS)| == 6 && AllMet(DIGITS)[i] == Met(DIGITS[i], 0) && DIGITS[i] in "89ABCDEF"
  {
    hide Met;
  }

  lemma SixGood()
    ensures GoodBucket(SELF, AllMet(DIGITS), 3) && UniqueIds(AllMet(DIGITS))
  {
    hide AllMet, BucketOf, HexId, Id, SELF;
    SixAre(0);
    forall i | 0 <= i < 6
      ensures InBucket(SELF, 3)(AllMet(DIGITS)[i])
    {
      SixAre(i);
      InThree(DIGITS[i]);
    }
    forall i, j | 0 <= i < j < 6
      ensures OtherIds()(AllMet(DIGITS)[i], AllMet(DIGITS)[j])
    {
      SixAre(i);
      SixAre(j);
      IdsDiffer('0', DIGITS[i], '0', DIGITS[j]);
    }
  }

  lemma SmallDigits()
    ensures IsHexDigit('0') && IsHexDigit('1') && DigitValue('0') == 0 && DigitValue('1') == 1
  {
  }

  lemma OneGood()
    ensures GoodBucket(SELF, [Met('1', 0)], 0) && UniqueIds([Met('1', 0)])
  {
    hide HexValue, Log2, Id, HexId, SELF;
    SmallDigits();
    FromSelf('0', '1');
    LogOfDigit(1);
  }

  lemma TargetBucket()
    ensures PeerId(SELF, TARGET) && BucketOf(SELF, TARGET) == 4
  {
    hide HexValue, Log2, Id, HexId, SELF;
    SmallDigits();
    FromSelf('1', '0');
    LogOfDigit(1);
    LogOfMoreDigits(1, 0);
  }

  /** Sixteen and a smaller number have no bit in common. */
  lemma FromTarget(d: char)
    requires IsHexDigit(d)
    ensures HexId(TARGET) && HexId(Id('0', d)) && Distance(TARGET, Id('0', d)) == 16 + DigitValue(d)
  {
    hide HexValue, Id, HexId, Xor.Xor, DigitValue, IsHexDigit;
    SmallDigits();
    IdValue('1', '0');
    IdValue('0', d);
    NextDigit(1, 0, 0, DigitValue(d));
    ZeroChangesNothing(1);
    ZeroChangesNothing(DigitValue(d));
  }

  lemma AllGood()
    ensures GoodTable(SELF, Lopsided()) && forall r :: 0 <= r < NUMBER_OF_BUCKETS ==> UniqueIds(Lopsided()[r])
  {
    hide AllMet, BucketOf, HexId, Met, Id, SELF;
    SmallDigits();
    IdValue('0', '0');
    SelfIsHex();
    SixGood();
    OneGood();
  }

  lemma SelfIsHex()
    ensures HexId(SELF)
  {
    SmallDigits();
    IdValue('0', '0');
  }

  lemma OneIsNearer()
    ensures forall i :: 0 <= i < 6 ==> CloserThan(TARGET, Met('1', 0), AllMet(DIGITS)[i])
  {
    hide AllMet, DigitValue, IsHexDigit, Id, HexId, Distance, TARGET;
    SmallDigits();
    FromTarget('1');
    forall i | 0 <= i < 6
      ensures CloserThan(TARGET, Met('1', 0), AllMet(DIGITS)[i])
    {
      SixAre(0);
      SixAre(i);
      InThree(DIGITS[i]);
      FromTarget(DIGITS[i]);
    }
  }

  /** Every bucket is as it should be and no id repeats, and yet the one contact left out is nearer to the target
      than all six returned: its bucket comes later in the same tier. */
  lemma NotAlwaysNearest()
    ensures GoodTable(SELF, Lopsided()) && |SELF| == 32 && PeerId(SELF, TARGET) && BucketOf(SELF, TARGET) == 4
    ensures forall r :: 0 <= r < NUMBER_OF_BUCKETS ==> UniqueIds(Lopsided()[r])
    ensures var w := Outwards(Lopsided(), 4);
            |w| == BUCKET_LENGTH + 1 && forall i :: 0 <= i < BUCKET_LENGTH ==> CloserThan(TARGET, w[BUCKET_LENGTH], w[i])
  {
    hide AllMet, BucketOf, HexId, Met, Id, GoodTable, UniqueIds, Lopsided, Outwards, CloserThan, PeerId, TARGET;
    AllGood();
    TargetBucket();
    WalkIs();
    SixAre(0);
    OneIsNearer();
  }

  // ----- Such a table comes about, and the walk over it returns the six

  lemma HoldingWith(zero: seq<Contact>, three: seq<Contact>, other: seq<Contact>)
    ensures Holding(zero, three)[0] == zero && Holding(zero, three)[3] == three && Holding(zero, three)[4] == []
    ensures Holding(zero, three)[0 := other] == Holding(other, three)
    ensures Holding(zero, three)[3 := other] == Holding(zero, other)
  {
  }

  lemma OneBelongs()
    ensures Belongs(SELF, Id('0', '1'), 0) && HexValue(SELF) != HexValue(Id('0', '1'))
  {
    hide HexValue, Log2, Id, HexId, SELF;
    SmallDigits();
    FromSelf('0', '1');
    LogOfDigit(1);
    ZeroOnlyWhenEqual(HexValue(SELF), HexValue(Id('0', '1')));
  }

  lemma FirstOne()
    ensures MoveNodeDetails([], Id('0', '1'), "", 0, 0) == [Met('1', 0)] && AllMet(DIGITS[..0]) == []
  {
  }

  lemma NextOne(i: nat)
    requires i < 6
    ensures DIGITS[i] in "89ABCDEF"
    ensures MoveNodeDetails(AllMet(DIGITS[..i]), Id('0', DIGITS[i]), "", 0, 0) == AllMet(DIGITS[..i + 1])
  {
    hide AllMet, Id, MoveNodeDetails;
    assert DIGITS[..i + 1] == DIGITS[..i] + [DIGITS[i]];
    GreetedBucket(DIGITS[..i], DIGITS[i]);
  }

  lemma FoundSix()
    ensures Copies(First(Outwards(Lopsided(), 4), BUCKET_LENGTH), 0) == AllMet(DIGITS)
    ensures FirstWith(Lopsided()[4], TARGET) == None && DIGITS[..6] == DIGITS
  {
    hide Outwards, Id;
    WalkIs();
    assert First(AllMet(DIGITS) + [Met('1', 0)], BUCKET_LENGTH) == AllMet(DIGITS);
  }

  lemma SameElsewhere(t: seq<seq<Contact>>, was: seq<seq<Contact>>, b: nat)
    requires |t| == |was| && b < |t| && forall r :: 0 <= r < |t| && r != b ==> t[r] == was[r]
    ensures t == was[b := t[b]]
  {
  }

  /** From an empty table, by seven insertions, to an answer that misses the contact nearest to the target. */
  method MissesTheNearest() returns (routes: RoutingTable, result: seq<Contact>)
    ensures routes.Valid() && routes.self == SELF && routes.table[..] == Lopsided() && Met('1', 0) in routes.table[0]
    ensures |result| == BUCKET_LENGTH && forall i :: 0 <= i < BUCKET_LENGTH ==> CloserThan(TARGET, Met('1', 0), result[i])
  {
    hide AllMet, BucketOf, HexId, HexValue, Met, Id, GoodBucket, Holding, Outwards, Copies, First, CloserThan, TARGET, SELF,
      MoveNodeDetails, FirstWith;
    SelfIsHex();
    OneBelongs();
    FirstOne();
    routes := new RoutingTable(SELF);
    EmptyHolding(routes.table[..]);
    HoldingWith([], [], [Met('1', 0)]);
    var at := routes.InsertIntoContactTable(Id('0', '1'), "", 0, 0);
    SameElsewhere(routes.table[..], Holding([], []), 0);
    var i := 0;
    while i < 6
      invariant 0 <= i <= 6 && fresh(routes) && fresh(routes.table) && routes.Valid() && routes.self == SELF
      invariant routes.table[..] == Holding([Met('1', 0)], AllMet(DIGITS[..i]))
    {
      NextOne(i);
      InThree(DIGITS[i]);
      HoldingWith([Met('1', 0)], AllMet(DIGITS[..i]), AllMet(DIGITS[..i + 1]));
      ghost var was := routes.table[..];
      at := routes.InsertIntoContactTable(Id('0', DIGITS[i]), "", 0, 0);
      SameElsewhere(routes.table[..], was, 3);
      i := i + 1;
    }
    FoundSix();
    TargetBucket();
    HoldingWith([Met('1', 0)], AllMet(DIGITS), []);
    result := KNearestNodes(routes, TARGET, 0);
    SixAre(0);
    OneIsNearer();
  }

  lemma EmptyHolding(t: seq<seq<Contact>>)
    requires |t| == NUMBER_OF_BUCKETS && forall r :: 0 <= r < |t| ==> t[r] == []
    ensures t == Holding([], [])
  {
  }

  // ----- The same for a target that is itself a contact

  const THREE: string := "98C"

  lemma NextOfThree(i: nat)
    requires i < 3
    ensures THREE[i] in "89ABCDEF" && AllMet(THREE[..0]) == []
    ensures MoveNodeDetails(AllMet(THREE[..i]), Id('0', THREE[i]), "", 0, 0) == AllMet(THREE[..i + 1])
  {
    hide Id, MoveNodeDetails;
    assert THREE[..i + 1] == THREE[..i] + [THREE[i]];
    GreetedBucket(THREE[..i], THREE[i]);
  }

  lemma SecondIsTarget()
    ensures FirstWith(AllMet(THREE), Id('0', '8')) == Some(1) && THREE[..3] == THREE
    ensures AllMet(THREE)[1..] == [Met('8', 0), Met('C', 0)] && AllMet(THREE)[0] == Met('9', 0)
  {
    hide Id, FirstWith;
    IdsDiffer('0', '9', '0', '8');
    FirstWithIs(AllMet(THREE), Id('0', '8'), 1);
  }

  /** In binary, 8, 9 and 12 are 1000, 1001 and 1100. */
  lemma NineIsNearer()
    ensures CloserThan(Id('0', '8'), Met('9', 0), Met('C', 0))
  {
    hide HexValue, HexId, Id;
    SmallDigits();
    assert IsHexDigit('8') && IsHexDigit('9') && IsHexDigit('C');
    IdValue('0', '8');
    IdValue('0', '9');
    IdValue('0', 'C');
    assert Xor.Xor(8, 9) == 1 && Xor.Xor(8, 12) == 4;
  }

  /** Three contacts of one bucket; the target is the second, and the first, which is nearer to it than the third,
      is left out. */
  method MissesBesideTheTarget() returns (routes: RoutingTable, result: seq<Contact>)
    ensures routes.Valid() && routes.self == SELF && routes.table[3] == [Met('9', 0), Met('8', 0), Met('C', 0)]
    ensures result == [Met('8', 0), Met('C', 0)] && CloserThan(Id('0', '8'), Met('9', 0), Met('C', 0))
  {
    hide AllMet, HexId, HexValue, Met, Id, GoodBucket, Holding, Outwards, Copies, First, CloserThan, SELF,
      MoveNodeDetails, FirstWith, Log2;
    SelfIsHex();
    NextOfThree(0);
    routes := new RoutingTable(SELF);
    EmptyHolding(routes.table[..]);
    var i := 0;
    while i < 3
      invariant 0 <= i <= 3 && fresh(routes) && fresh(routes.table) && routes.Valid() && routes.self == SELF
      invariant routes.table[..] == Holding([], AllMet(THREE[..i]))
    {
      NextOfThree(i);
      InThree(THREE[i]);
      HoldingWith([], AllMet(THREE[..i]), AllMet(THREE[..i + 1]));
      ghost var was := routes.table[..];
      var at := routes.InsertIntoContactTable(Id('0', THREE[i]), "", 0, 0);
      SameElsewhere(routes.table[..], was, 3);
      i := i + 1;
    }
    SecondIsTarget();
    InThree('8');
    HoldingWith([], AllMet(THREE), []);
    result := KNearestNodes(routes, Id('0', '8'), 0);
    assert AllMet(THREE) == [AllMet(THREE)[0]] + AllMet(THREE)[1..];
    NineIsNearer();
  }
}
