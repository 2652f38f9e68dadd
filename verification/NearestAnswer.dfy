/** When the contacts given for a target are the nearest ones of the table. */
module NearestAnswer {
  import opened Common
  import opened Lists
  import opened Xor
  import opened XorMetrics
  import opened Node
  import opened Routing
  import opened Nearest

  ghost predicate AllCloser(target: string, s: seq<Contact>, t: seq<Contact>) {
    forall i, j :: 0 <= i < |s| && 0 <= j < |t| ==> CloserThan(target, s[i], t[j])
  }

  /** Given or left out: every contact of the table, once. */
  lemma GivenOrLeftOut(table: seq<seq<Contact>>, b: nat, target: string)
    requires b < |table|
    ensures multiset(Answer(table, b, target) + LeftOut(table, b, target)) == multiset(Up(table, 0))
  {
    hide FirstWith;
    MeetsAll(table, b);
    var w := Outwards(table, b);
    match FirstWith(table[b], target)
    case Some(at) =>
      Rotated(table[b][..at], table[b][at..], Down(table, b - 1) + Up(table, b + 1));
      assert table[b][..at] + table[b][at..] == table[b];
      WalkFromBucket(table, b);
    case None =>
      FirstAndRest(w, BUCKET_LENGTH);
  }

  lemma Rotated(x: seq<Contact>, y: seq<Contact>, z: seq<Contact>)
    ensures multiset(y + (x + z)) == multiset((x + y) + z)
  {
    assert multiset(y + (x + z)) == multiset(y) + (multiset(x) + multiset(z));
    assert multiset((x + y) + z) == multiset(x) + multiset(y) + multiset(z);
  }

  lemma WalkFromBucket(table: seq<seq<Contact>>, b: nat)
    requires b < |table|
    ensures Outwards(table, b) == table[b] + (Down(table, b - 1) + Up(table, b + 1))
  {
    assert Down(table, b) == table[b] + Down(table, b - 1);
    assert (table[b] + Down(table, b - 1)) + Up(table, b + 1) == table[b] + (Down(table, b - 1) + Up(table, b + 1));
  }

  lemma FirstAndRest(w: seq<Contact>, n: nat)
    ensures First(w, n) + w[|First(w, n)|..] == w
  {
  }

  // ----- Within the lower buckets a bit of the target decides

  /** Of two contacts in different buckets below the target's, the one in the higher bucket is closer if and only
      if the target has that bucket's bit. */
  lemma BitOfBucket(self: string, target: string, c: Contact, d: Contact, r: nat, q: nat)
    requires PeerId(self, target) && Belongs(self, c.nodeID, r) && Belongs(self, d.nodeID, q) && q < r
    ensures CloserThan(target, c, d) <==> Bit(Distance(self, target), r)
  {
    hide HexId, HexValue, BucketOf, Bit, Top;
    BelongsByDistance(self, c.nodeID, r);
    BelongsByDistance(self, d.nodeID, q);
    ThroughSelf(self, target, c.nodeID);
    ThroughSelf(self, target, d.nodeID);
    BelowTop(Distance(self, d.nodeID), q, r);
    BitDecides(Distance(self, target), Distance(self, c.nodeID), Distance(self, d.nodeID), r);
  }

  lemma BelowTop(x: nat, q: nat, r: nat)
    requires Top(x, q) && q < r
    ensures x < Pow2(r)
  {
    Pow2Grows(q + 1, r);
  }

  /** For two contacts met one after the other: what is left to check when their buckets do not settle it. */
  ghost predicate InPlace(self: string, b: int, target: string, c: Contact, d: Contact) {
    && PeerId(self, target) && PeerId(self, c.nodeID) && PeerId(self, d.nodeID)
    && var r, q := BucketOf(self, c.nodeID), BucketOf(self, d.nodeID);
    && (r == q ==> CloserThan(target, c, d))
    && (0 <= q < r < b ==> Bit(Distance(self, target), r))
  }

  ghost predicate AllInPlace(self: string, b: int, target: string, s: seq<Contact>, t: seq<Contact>) {
    forall i, j :: 0 <= i < |s| && 0 <= j < |t| ==> InPlace(self, b, target, s[i], t[j])
  }

  lemma EarlierIff(self: string, table: seq<seq<Contact>>, target: string, i: nat, j: nat)
    requires GoodTable(self, table) && PeerId(self, target) && 0 <= BucketOf(self, target) < |table|
    requires i < j < |Outwards(table, BucketOf(self, target))|
    ensures var b := BucketOf(self, target);
            var w := Outwards(table, b);
            CloserThan(target, w[i], w[j]) <==> InPlace(self, b, target, w[i], w[j])
  {
    hide BucketOf, GoodBucket, GoodTable, HexId, Outwards, Up, Distance, Bit;
    var b := BucketOf(self, target);
    var w := Outwards(table, b);
    EarlierIsCloser(self, table, target, i, j);
    MetInBuckets(self, table, b, i);
    MetInBuckets(self, table, b, j);
    OutwardsPlaces(self, table, b);
    assert PlaceOrder(self, b)(w[i], w[j]);
    var r, q := BucketOf(self, w[i].nodeID), BucketOf(self, w[j].nodeID);
    PlacesAreTiers(b, r, q);
    TiersAside(b, r, q);
    if q < r < b {
      BitOfBucket(self, target, w[i], w[j], r, q);
    }
  }

  /** Different buckets that are not both lower ones are in different tiers. */
  lemma TiersAside(b: int, r: int, q: int)
    requires 0 <= r && 0 <= q && PlaceOf(b, r) <= PlaceOf(b, q) && 0 <= b
    ensures TierOf(b, r) < TierOf(b, q) || r == q || q < r < b
    ensures TierOf(b, r) < TierOf(b, q) ==> r != q && !(q < r < b)
  {
  }

  lemma MetInBuckets(self: string, table: seq<seq<Contact>>, b: nat, i: nat)
    requires GoodTable(self, table) && b < |table| && i < |Outwards(table, b)|
    ensures PeerId(self, Outwards(table, b)[i].nodeID) && 0 <= BucketOf(self, Outwards(table, b)[i].nodeID)
  {
    hide BucketOf, GoodTable, HexId, Outwards, Up;
    MeetsAll(table, b);
    MetArePeers(self, table, 0);
    InBoth(Outwards(table, b), Up(table, 0), i);
  }

  // ----- The two kinds of answer

  /** Unknown target: the six given are the nearest if and only if, of every two contacts on either side of the cut,
      those in one bucket are in order, and those in two lower buckets find the bit of the higher one set. */
  lemma UnknownNearestIff(self: string, table: seq<seq<Contact>>, target: string)
    requires GoodTable(self, table) && PeerId(self, target) && 0 <= BucketOf(self, target) < |table|
    requires FirstWith(table[BucketOf(self, target)], target).None?
    ensures var b := BucketOf(self, target);
            AllCloser(target, Answer(table, b, target), LeftOut(table, b, target))
            <==> AllInPlace(self, b, target, Answer(table, b, target), LeftOut(table, b, target))
  {
    hide BucketOf, GoodTable, HexId, Outwards, InPlace, CloserThan, FirstWith;
    var b := BucketOf(self, target);
    var w := Outwards(table, b);
    var s, t := Answer(table, b, target), LeftOut(table, b, target);
    FirstAndRest(w, BUCKET_LENGTH);
    forall i, j | 0 <= i < |s| && 0 <= j < |t|
      ensures CloserThan(target, s[i], t[j]) <==> InPlace(self, b, target, s[i], t[j])
    {
      AtTheCut(s, t, w, i, j);
      EarlierIff(self, table, target, i, |s| + j);
    }
  }

  lemma AtTheCut(s: seq<Contact>, t: seq<Contact>, w: seq<Contact>, i: nat, j: nat)
    requires s + t == w && i < |s| && j < |t|
    ensures i < |s| + j < |w| && w[i] == s[i] && w[|s| + j] == t[j]
  {
  }

  /** From the target on, the contacts of its bucket are closer than the ones before it. */
  ghost predicate BehindCloser(bucket: seq<Contact>, at: nat, target: string)
    requires at <= |bucket|
  {
    AllCloser(target, bucket[at..], bucket[..at])
  }

  /** Known target: what is given is nearest if and only if, in its bucket, the contacts from it on are closer than
      the ones before it. */
  lemma KnownNearestIff(self: string, table: seq<seq<Contact>>, target: string)
    requires GoodTable(self, table) && PeerId(self, target) && 0 <= BucketOf(self, target) < |table|
    requires FirstWith(table[BucketOf(self, target)], target).Some?
    ensures var b := BucketOf(self, target);
            AllCloser(target, Answer(table, b, target), LeftOut(table, b, target))
            <==> BehindCloser(table[b], FirstWith(table[b], target).value, target)
  {
    hide BucketOf, GoodTable, HexId, Outwards, CloserThan, FirstWith, Down, Up;
    var b := BucketOf(self, target);
    var at := FirstWith(table[b], target).value;
    var rest := Down(table, b - 1) + Up(table, b + 1);
    WalkFromBucket(table, b);
    forall i, j | 0 <= i < |table[b][at..]| && 0 <= j < |rest|
      ensures CloserThan(target, table[b][at..][i], rest[j])
    {
      AtTheCut(table[b], rest, Outwards(table, b), at + i, j);
      OwnBucketFirst(self, table, target, at + i, |table[b]| + j);
    }
    CloserThanBoth(target, table[b][at..], table[b][..at], rest);
  }

  lemma CloserThanBoth(target: string, s: seq<Contact>, t: seq<Contact>, rest: seq<Contact>)
    requires AllCloser(target, s, rest)
    ensures AllCloser(target, s, t + rest) <==> AllCloser(target, s, t)
  {
    hide CloserThan;
    if AllCloser(target, s, t + rest) {
      forall i, j | 0 <= i < |s| && 0 <= j < |t|
        ensures CloserThan(target, s[i], t[j])
      {
        assert (t + rest)[j] == t[j];
      }
    }
  }

  /** The target's own bucket is nearer than every other. */
  lemma OwnBucketFirst(self: string, table: seq<seq<Contact>>, target: string, i: nat, j: nat)
    requires GoodTable(self, table) && PeerId(self, target) && 0 <= BucketOf(self, target) < |table|
    requires i < |table[BucketOf(self, target)]| <= j < |Outwards(table, BucketOf(self, target))|
    ensures CloserThan(target, Outwards(table, BucketOf(self, target))[i], Outwards(table, BucketOf(self, target))[j])
  {
    hide BucketOf, HexId, Distance, Bit, Down, Up, Outwards;
    var b := BucketOf(self, target);
    var w := Outwards(table, b);
    WalkFromBucket(table, b);
    EarlierIff(self, table, target, i, j);
    assert w[i] == table[b][i];
    assert InBucket(self, b)(table[b][i]);
    OtherBuckets(self, table, b, j);
  }

  lemma OtherBuckets(self: string, table: seq<seq<Contact>>, b: nat, j: nat)
    requires GoodTable(self, table) && b < |table| && |table[b]| <= j < |Outwards(table, b)|
    ensures PeerId(self, Outwards(table, b)[j].nodeID) && BucketOf(self, Outwards(table, b)[j].nodeID) != b
  {
    hide BucketOf, HexId, Down, Up, Outwards, GoodBucket;
    WalkFromBucket(table, b);
    var below, above := Down(table, b - 1), Up(table, b + 1);
    DownPlaces(self, table, b, b - 1);
    UpPlaces(self, table, b, b + 1);
    var k := j - |table[b]|;
    if k < |below| {
      assert Outwards(table, b)[j] == below[k];
      assert PlaceBetween(self, b, 1, b)(below[k]);
    } else {
      assert Outwards(table, b)[j] == above[k - |below|];
      assert PlaceBetween(self, b, b + 1, |table|)(above[k - |below|]);
    }
  }

  /** In either case: what is given is closer than what is left out in other tiers. */
  lemma ReturnedAreCloser(self: string, table: seq<seq<Contact>>, target: string, i: nat, j: nat)
    requires GoodTable(self, table) && PeerId(self, target) && 0 <= BucketOf(self, target) < |table|
    requires i < |Answer(table, BucketOf(self, target), target)| && j < |LeftOut(table, BucketOf(self, target), target)|
    ensures var b := BucketOf(self, target);
            var c, d := Answer(table, b, target)[i], LeftOut(table, b, target)[j];
            SameTier(self, b, c, d) || CloserThan(target, c, d)
  {
    hide BucketOf, GoodTable, HexId, Outwards, CloserThan, FirstWith, Down, Up, Distance;
    var b := BucketOf(self, target);
    var w := Outwards(table, b);
    match FirstWith(table[b], target)
    case None =>
      FirstAndRest(w, BUCKET_LENGTH);
      var s := First(w, BUCKET_LENGTH);
      AtTheCut(s, LeftOut(table, b, target), w, i, j);
      TierOrCloser(self, table, target, i, |s| + j);
    case Some(at) =>
      WalkFromBucket(table, b);
      var rest := Down(table, b - 1) + Up(table, b + 1);
      if j < at {
        BothInBucket(self, table, b, at + i, j);
      } else {
        AtTheCut(table[b], rest, w, at + i, j - at);
        OwnBucketFirst(self, table, target, at + i, |table[b]| + (j - at));
      }
  }

  lemma TierOrCloser(self: string, table: seq<seq<Contact>>, target: string, i: nat, j: nat)
    requires GoodTable(self, table) && PeerId(self, target) && 0 <= BucketOf(self, target) < |table|
    requires i < j < |Outwards(table, BucketOf(self, target))|
    ensures var b := BucketOf(self, target);
            var w := Outwards(table, b);
            SameTier(self, b, w[i], w[j]) || CloserThan(target, w[i], w[j])
  {
    hide BucketOf, GoodTable, HexId, Outwards, Distance;
    EarlierIsCloser(self, table, target, i, j);
  }

  lemma BothInBucket(self: string, table: seq<seq<Contact>>, b: nat, i: nat, j: nat)
    requires GoodTable(self, table) && b < |table| && i < |table[b]| && j < |table[b]|
    ensures SameTier(self, b, table[b][i], table[b][j])
  {
    hide BucketOf, HexId;
    assert InBucket(self, b)(table[b][i]) && InBucket(self, b)(table[b][j]);
  }
}
