/** k_nearest_nodes: walking the buckets outwards, and what that means for distances. */
module Nearest {
  import opened Common
  import opened Lists
  import opened Xor
  import opened XorMetrics
  import opened Node
  import opened Routing

  // ----- The order in which contacts are met

  /** Bucket k, then the ones below it. */
  function Down(table: seq<seq<Contact>>, k: int): seq<Contact>
    requires k < |table|
  {
    if k < 0 then [] else table[k] + Down(table, k - 1)
  }

  /** Bucket k, then the ones above it. */
  function Up(table: seq<seq<Contact>>, k: nat): seq<Contact>
    decreases |table| - k
  {
    if k >= |table| then [] else table[k] + Up(table, k + 1)
  }

  function Outwards(table: seq<seq<Contact>>, b: nat): seq<Contact>
    requires b < |table|
  {
    Down(table, b) + Up(table, b + 1)
  }

  /** Contacts still to be met after the current bucket. */
  function Ahead(table: seq<seq<Contact>>, b: nat, minus: nat, goBack: bool): seq<Contact>
    requires b < |table| && minus >= 1
  {
    if goBack then Down(table, b - minus) + Up(table, b + 1) else Up(table, b + minus)
  }

  function Copied(c: Contact, now: int): Contact {
    Stamped(CreateNodeDetails(c.ip, c.port, c.nodeID, now), now)
  }

  function Copies(s: seq<Contact>, now: int): seq<Contact> {
    seq(|s|, i requires 0 <= i < |s| => Copied(s[i], now))
  }

  function First(s: seq<Contact>, n: nat): seq<Contact> {
    if |s| <= n then s else s[..n]
  }

  /** The contacts that are given for a target, in the table's own form. */
  function Answer(table: seq<seq<Contact>>, b: nat, target: string): seq<Contact>
    requires b < |table|
  {
    match FirstWith(table[b], target)
    case Some(at) => table[b][at..]
    case None => First(Outwards(table, b), BUCKET_LENGTH)
  }

  /** The other contacts of the table. */
  function LeftOut(table: seq<seq<Contact>>, b: nat, target: string): seq<Contact>
    requires b < |table|
  {
    match FirstWith(table[b], target)
    case Some(at) => table[b][..at] + (Down(table, b - 1) + Up(table, b + 1))
    case None => Outwards(table, b)[|First(Outwards(table, b), BUCKET_LENGTH)|..]
  }

  lemma AheadAgain(table: seq<seq<Contact>>, b: nat, minus: nat)
    requires b < |table| && minus >= 1
    ensures b - minus >= 0 ==> Ahead(table, b, minus, true) == table[b - minus] + Ahead(table, b, minus + 1, true)
    ensures b - minus < 0 ==> Ahead(table, b, minus, true) == Ahead(table, b, 1, false)
    ensures b + minus < |table| ==> Ahead(table, b, minus, false) == table[b + minus] + Ahead(table, b, minus + 1, false)
    ensures b + minus >= |table| ==> Ahead(table, b, minus, false) == []
  {
    if b - minus >= 0 {
      assert (table[b - minus] + Down(table, b - minus - 1)) + Up(table, b + 1)
          == table[b - minus] + (Down(table, b - minus - 1) + Up(table, b + 1));
    }
  }

  lemma AheadStart(table: seq<seq<Contact>>, b: nat)
    requires b < |table|
    ensures table[b] + Ahead(table, b, 1, true) == Outwards(table, b)
  {
    assert (table[b] + Down(table, b - 1)) + Up(table, b + 1) == table[b] + (Down(table, b - 1) + Up(table, b + 1));
  }

  lemma CopiesNext(done: seq<Contact>, c: Contact, now: int)
    ensures Copies(done + [c], now) == Copies(done, now) + [Copied(c, now)]
  {
  }

  /** The contacts collected, the rest of the current bucket, and what lies ahead make up the whole. */
  ghost predicate Collecting(done: seq<Contact>, rest: seq<Contact>, ahead: seq<Contact>, all: seq<Contact>) {
    done + rest + ahead == all
  }

  lemma CollectOne(done: seq<Contact>, rest: seq<Contact>, ahead: seq<Contact>, all: seq<Contact>)
    requires Collecting(done, rest, ahead, all) && rest != []
    ensures Collecting(done + [rest[0]], rest[1..], ahead, all)
  {
    assert done + rest == (done + [rest[0]]) + rest[1..];
  }

  lemma CollectBucket(done: seq<Contact>, bucket: seq<Contact>, ahead: seq<Contact>, all: seq<Contact>)
    requires Collecting(done, [], bucket + ahead, all)
    ensures Collecting(done, bucket, ahead, all)
  {
    assert done + [] + (bucket + ahead) == done + bucket + ahead;
  }

  lemma CollectedAll(done: seq<Contact>, rest: seq<Contact>, ahead: seq<Contact>, all: seq<Contact>)
    requires Collecting(done, rest, ahead, all) && |done| <= BUCKET_LENGTH
    requires |done| == BUCKET_LENGTH || (rest == [] && ahead == [])
    ensures First(all, BUCKET_LENGTH) == done
  {
    assert done + rest + ahead == done + (rest + ahead);
  }

  /** A known target: the rest of its bucket from it on. Otherwise the first six contacts outwards, copied. */
  method KNearestNodes(routes: RoutingTable, nodeToFind: string, now: int) returns (result: seq<Contact>)
    requires routes.Valid() && PeerId(routes.self, nodeToFind)
    requires 0 <= BucketOf(routes.self, nodeToFind) < NUMBER_OF_BUCKETS
    ensures var b := BucketOf(routes.self, nodeToFind);
            var table := routes.table[..];
            result == match FirstWith(table[b], nodeToFind)
                      case Some(at) => table[b][at..]
                      case None => Copies(First(Outwards(table, b), BUCKET_LENGTH), now)
    ensures SamePeers(result, Answer(routes.table[..], BucketOf(routes.self, nodeToFind), nodeToFind))
  {
    hide BucketOf, HexId, FirstWith, Outwards, Copies, First;
    var bucketNo := FindNodeDetails(routes.self, nodeToFind);
    var find := LookForIP(routes.table[bucketNo], nodeToFind);
    if find.Some? {
      return routes.table[bucketNo][find.value..];
    }
    result := Collect(routes, bucketNo, now);
    CopiesSame(First(Outwards(routes.table[..], bucketNo), BUCKET_LENGTH), now);
  }

  /** The same ids at the same addresses. */
  ghost predicate SamePeers(s: seq<Contact>, t: seq<Contact>) {
    |s| == |t| && forall i :: 0 <= i < |s| ==> s[i].nodeID == t[i].nodeID && s[i].ip == t[i].ip && s[i].port == t[i].port
  }

  lemma CopiesSame(s: seq<Contact>, now: int)
    ensures SamePeers(Copies(s, now), s)
    ensures forall i :: 0 <= i < |s| ==> Copies(s, now)[i] == Contact(s[i].ip, s[i].port, 0, s[i].nodeID, now)
  {
  }

  method Collect(routes: RoutingTable, bucketNo: nat, now: int) returns (result: seq<Contact>)
    requires routes.Valid() && bucketNo < NUMBER_OF_BUCKETS
    ensures result == Copies(First(Outwards(routes.table[..], bucketNo), BUCKET_LENGTH), now)
  {
    hide Outwards, Ahead, Copies, Collecting, First, GoodBucket;
    ghost var table := routes.table[..];
    ghost var all := Outwards(table, bucketNo);
    ghost var done := [];
    NoCopies(now);
    result := [];
    var numNodesFound := 0;
    var minus := 1;
    var goBack := true;
    var lookInto := routes.table[bucketNo];
    AheadStart(table, bucketNo);
    CollectStart(lookInto, Ahead(table, bucketNo, 1, true), all);
    while numNodesFound < BUCKET_LENGTH
      invariant minus >= 1 && numNodesFound == |result| == |done| <= BUCKET_LENGTH
      invariant result == Copies(done, now)
      invariant Collecting(done, lookInto, Ahead(table, bucketNo, minus, goBack), all)
      invariant if goBack then minus <= bucketNo + 1 else bucketNo + minus <= NUMBER_OF_BUCKETS
      decreases if goBack then NUMBER_OF_BUCKETS - minus else NUMBER_OF_BUCKETS - bucketNo - minus, |lookInto|
    {
      if lookInto != [] {
        CollectOne(done, lookInto, Ahead(table, bucketNo, minus, goBack), all);
        CopiesNext(done, lookInto[0], now);
        var temp := CreateNodeDetails(lookInto[0].ip, lookInto[0].port, lookInto[0].nodeID, now);
        done := done + [lookInto[0]];
        result := InsertToTail(result, temp, now);
        lookInto := lookInto[1..];
        numNodesFound := numNodesFound + 1;
      }
      if lookInto == [] {
        AheadAgain(table, bucketNo, minus);
        if bucketNo - minus < 0 && goBack {
          goBack := false;
          minus := 1;
          AheadAgain(table, bucketNo, 1);
        }
        if bucketNo + minus > NUMBER_OF_BUCKETS - 1 && !goBack {
          CollectedAll(done, [], [], all);
          return;
        }
        var next := if goBack then bucketNo - minus else bucketNo + minus;
        lookInto := routes.table[next];
        minus := minus + 1;
        CollectBucket(done, lookInto, Ahead(table, bucketNo, minus, goBack), all);
      }
    }
    CollectedAll(done, lookInto, Ahead(table, bucketNo, minus, goBack), all);
  }

  lemma NoCopies(now: int)
    ensures Copies([], now) == []
  {
  }

  lemma CollectStart(bucket: seq<Contact>, ahead: seq<Contact>, all: seq<Contact>)
    requires bucket + ahead == all
    ensures Collecting([], bucket, ahead, all)
  {
    assert [] + bucket == bucket;
  }

  // ----- Everything in the table is met exactly once

  lemma Swapped(x: seq<Contact>, y: seq<Contact>, z: seq<Contact>)
    ensures multiset((x + y) + z) == multiset(y + (x + z))
  {
    assert multiset((x + y) + z) == multiset(x) + multiset(y) + multiset(z);
    assert multiset(y + (x + z)) == multiset(y) + (multiset(x) + multiset(z));
  }

  lemma {:induction false} DownAndUp(table: seq<seq<Contact>>, k: int)
    requires -1 <= k < |table|
    ensures multiset(Down(table, k) + Up(table, k + 1)) == multiset(Up(table, 0))
    decreases k + 1
  {
    if k >= 0 {
      DownAndUp(table, k - 1);
      Swapped(table[k], Down(table, k - 1), Up(table, k + 1));
    } else {
      assert Down(table, k) + Up(table, 0) == Up(table, 0);
    }
  }

  lemma MeetsAll(table: seq<seq<Contact>>, b: nat)
    requires b < |table|
    ensures multiset(Outwards(table, b)) == multiset(Up(table, 0))
  {
    DownAndUp(table, b);
  }

  // ----- Tiers of distance

  ghost predicate GoodTable(self: string, table: seq<seq<Contact>>) {
    HexId(self) && forall r :: 0 <= r < |table| ==> GoodBucket(self, table[r], r)
  }

  /** Contacts of the target's own bucket, then all lower buckets together, then each higher bucket. */
  function TierOf(b: int, r: int): int {
    if r == b then 0 else if r < b then 1 else r - b + 1
  }

  function Tier(self: string, b: int, c: Contact): int
    requires PeerId(self, c.nodeID)
  {
    TierOf(b, BucketOf(self, c.nodeID))
  }

  predicate NearerTier(d: nat, b: nat, tier: int) {
    if tier == 0 then d < Pow2(b)
    else if tier == 1 then Top(d, b)
    else tier > 1 && Top(d, b + tier - 1)
  }

  /** The distance from the target of a contact in bucket r. */
  lemma TierDistance(self: string, target: string, id: string, b: nat, r: nat)
    requires Belongs(self, target, b) && Belongs(self, id, r)
    ensures NearerTier(Distance(target, id), b, TierOf(b, r))
  {
    hide HexId, HexValue, BucketOf;
    BelongsByDistance(self, target, b);
    BelongsByDistance(self, id, r);
    ThroughSelf(self, target, id);
    TopOfXor(Distance(self, target), Distance(self, id), b, r);
  }

  lemma ThroughSelf(self: string, target: string, id: string)
    requires HexId(self) && HexId(target) && HexId(id)
    ensures Distance(target, id) == Xor.Xor(Distance(self, target), Distance(self, id))
  {
    hide HexId, HexValue;
    Cancels(HexValue(target), HexValue(self), HexValue(id));
    Commutes(HexValue(target), HexValue(self));
  }

  lemma TopOfXor(x: nat, y: nat, b: nat, r: nat)
    requires Top(x, b) && Top(y, r)
    ensures NearerTier(Xor.Xor(x, y), b, TierOf(b, r))
  {
    if r == b {
      SameTop(x, y, b);
    } else if r < b {
      Pow2Grows(r + 1, b);
      LowerTop(y, x, b);
      Commutes(x, y);
    } else {
      Pow2Grows(b + 1, r);
      LowerTop(x, y, r);
    }
  }

  lemma LowerTierCloser(d: nat, e: nat, b: nat, s: int, t: int)
    requires NearerTier(d, b, s) && NearerTier(e, b, t) && s < t
    ensures d < e
  {
    if s == 0 {
      if t > 1 {
        Pow2Grows(b, b + t - 1);
      }
    } else if s == 1 {
      Pow2Grows(b + 1, b + t - 1);
    } else {
      Pow2Grows(b + s, b + t - 1);
    }
  }

  // ----- The walk goes from bucket to bucket

  /** When a bucket's turn comes: the target's own, then the lower ones downwards, then the higher ones upwards. */
  function PlaceOf(b: int, r: int): int {
    if r == b then 0 else if r < b then b - r else r
  }

  function Place(self: string, b: int, c: Contact): int
    requires PeerId(self, c.nodeID)
  {
    PlaceOf(b, BucketOf(self, c.nodeID))
  }

  function PlaceBetween(self: string, b: int, lo: int, hi: int): Contact -> bool {
    (c: Contact) => PeerId(self, c.nodeID) && lo <= Place(self, b, c) <= hi
  }

  function PlaceOrder(self: string, b: int): (Contact, Contact) -> bool {
    (c: Contact, d: Contact) =>
      PeerId(self, c.nodeID) && PeerId(self, d.nodeID) && Place(self, b, c) <= Place(self, b, d)
  }

  lemma BucketPlace(self: string, bucket: seq<Contact>, b: int, r: int)
    requires GoodBucket(self, bucket, r)
    ensures All(bucket, PlaceBetween(self, b, PlaceOf(b, r), PlaceOf(b, r)))
  {
    forall i | 0 <= i < |bucket|
      ensures PlaceBetween(self, b, PlaceOf(b, r), PlaceOf(b, r))(bucket[i])
    {
      assert InBucket(self, r)(bucket[i]);
    }
  }

  lemma ConcatAll(s: seq<Contact>, t: seq<Contact>, p: Contact -> bool)
    requires All(s, p) && All(t, p)
    ensures All(s + t, p)
  {
    forall i | 0 <= i < |s + t|
      ensures p((s + t)[i])
    {
      if i < |s| {
        assert p(s[i]);
      } else {
        assert p(t[i - |s|]);
      }
    }
  }

  lemma WidenPlace(self: string, s: seq<Contact>, b: int, lo: int, hi: int, lo2: int, hi2: int)
    requires All(s, PlaceBetween(self, b, lo, hi)) && lo2 <= lo && hi <= hi2
    ensures All(s, PlaceBetween(self, b, lo2, hi2))
  {
    hide PeerId, Place;
    forall i | 0 <= i < |s|
      ensures PlaceBetween(self, b, lo2, hi2)(s[i])
    {
      assert PlaceBetween(self, b, lo, hi)(s[i]);
    }
  }

  lemma OnePlace(self: string, s: seq<Contact>, b: int, t: int)
    requires All(s, PlaceBetween(self, b, t, t))
    ensures Pairwise(s, PlaceOrder(self, b))
  {
    hide PeerId, Place;
    forall i, j | 0 <= i < j < |s|
      ensures PlaceOrder(self, b)(s[i], s[j])
    {
      assert PlaceBetween(self, b, t, t)(s[i]) && PlaceBetween(self, b, t, t)(s[j]);
    }
  }

  lemma ConcatPlaces(self: string, s: seq<Contact>, t: seq<Contact>, b: int, lo: int, mid: int, hi: int)
    requires Pairwise(s, PlaceOrder(self, b)) && Pairwise(t, PlaceOrder(self, b))
    requires All(s, PlaceBetween(self, b, lo, mid)) && All(t, PlaceBetween(self, b, mid, hi))
    ensures Pairwise(s + t, PlaceOrder(self, b))
  {
    hide PeerId, Place;
    var w := s + t;
    forall i, j | 0 <= i < j < |w|
      ensures PlaceOrder(self, b)(w[i], w[j])
    {
      if j < |s| {
        assert PlaceOrder(self, b)(s[i], s[j]);
      } else if i >= |s| {
        assert PlaceOrder(self, b)(t[i - |s|], t[j - |s|]);
      } else {
        assert PlaceBetween(self, b, lo, mid)(s[i]) && PlaceBetween(self, b, mid, hi)(t[j - |s|]);
      }
    }
  }

  lemma {:induction false} DownPlaces(self: string, table: seq<seq<Contact>>, b: nat, k: int)
    requires GoodTable(self, table) && k < b && k < |table|
    ensures All(Down(table, k), PlaceBetween(self, b, b - k, b))
    ensures Pairwise(Down(table, k), PlaceOrder(self, b))
    decreases k + 1
  {
    hide GoodBucket;
    if k >= 0 {
      DownPlaces(self, table, b, k - 1);
      BucketPlace(self, table[k], b, k);
      OnePlace(self, table[k], b, b - k);
      WidenPlace(self, table[k], b, b - k, b - k, b - k, b);
      WidenPlace(self, table[k], b, b - k, b - k, b - k, b - k + 1);
      WidenPlace(self, Down(table, k - 1), b, b - k + 1, b, b - k, b);
      ConcatAll(table[k], Down(table, k - 1), PlaceBetween(self, b, b - k, b));
      ConcatPlaces(self, table[k], Down(table, k - 1), b, b - k, b - k + 1, b);
    }
  }

  lemma {:induction false} UpPlaces(self: string, table: seq<seq<Contact>>, b: nat, k: nat)
    requires GoodTable(self, table) && b < k
    ensures All(Up(table, k), PlaceBetween(self, b, k, |table|))
    ensures Pairwise(Up(table, k), PlaceOrder(self, b))
    decreases |table| - k
  {
    hide GoodBucket;
    if k < |table| {
      UpPlaces(self, table, b, k + 1);
      BucketPlace(self, table[k], b, k);
      OnePlace(self, table[k], b, k);
      WidenPlace(self, table[k], b, k, k, k, |table|);
      WidenPlace(self, table[k], b, k, k, k, k + 1);
      WidenPlace(self, Up(table, k + 1), b, k + 1, |table|, k, |table|);
      ConcatAll(table[k], Up(table, k + 1), PlaceBetween(self, b, k, |table|));
      ConcatPlaces(self, table[k], Up(table, k + 1), b, k, k + 1, |table|);
    }
  }

  lemma OutwardsPlaces(self: string, table: seq<seq<Contact>>, b: nat)
    requires GoodTable(self, table) && b < |table|
    ensures Pairwise(Outwards(table, b), PlaceOrder(self, b))
  {
    hide GoodBucket;
    var below, above := Down(table, b - 1), Up(table, b + 1);
    BucketPlace(self, table[b], b, b);
    OnePlace(self, table[b], b, 0);
    DownPlaces(self, table, b, b - 1);
    WidenPlace(self, table[b], b, 0, 0, 0, 1);
    ConcatPlaces(self, table[b], below, b, 0, 1, b);
    WidenPlace(self, table[b], b, 0, 0, 0, b + 1);
    WidenPlace(self, below, b, 1, b, 0, b + 1);
    ConcatAll(table[b], below, PlaceBetween(self, b, 0, b + 1));
    UpPlaces(self, table, b, b + 1);
    ConcatPlaces(self, table[b] + below, above, b, 0, b + 1, |table|);
    assert Outwards(table, b) == (table[b] + below) + above;
  }

  function TierOrder(self: string, b: int): (Contact, Contact) -> bool {
    (c: Contact, d: Contact) =>
      PeerId(self, c.nodeID) && PeerId(self, d.nodeID) && Tier(self, b, c) <= Tier(self, b, d)
  }

  /** An earlier place is in the same tier or in a nearer one. */
  lemma PlacesAreTiers(b: int, r: int, q: int)
    requires 0 <= r && 0 <= q && 0 <= b && PlaceOf(b, r) <= PlaceOf(b, q)
    ensures TierOf(b, r) <= TierOf(b, q)
    ensures r < b && q < b ==> q <= r
  {
  }

  lemma OutwardsTiers(self: string, table: seq<seq<Contact>>, b: nat)
    requires GoodTable(self, table) && b < |table|
    ensures Pairwise(Outwards(table, b), TierOrder(self, b))
  {
    hide GoodBucket, Outwards, BucketOf, HexId;
    var w := Outwards(table, b);
    OutwardsPlaces(self, table, b);
    MeetsAll(table, b);
    MetArePeers(self, table, 0);
    forall i, j | 0 <= i < j < |w|
      ensures TierOrder(self, b)(w[i], w[j])
    {
      assert PlaceOrder(self, b)(w[i], w[j]);
      InBoth(w, Up(table, 0), i);
      InBoth(w, Up(table, 0), j);
      PlacesAreTiers(b, BucketOf(self, w[i].nodeID), BucketOf(self, w[j].nodeID));
    }
  }

  // ----- What the first six are

  lemma {:induction false} MetArePeers(self: string, table: seq<seq<Contact>>, k: nat)
    requires GoodTable(self, table)
    ensures forall c :: c in Up(table, k) ==> PeerId(self, c.nodeID) && 0 <= BucketOf(self, c.nodeID) < |table|
    decreases |table| - k
  {
    hide BucketOf;
    if k < |table| {
      MetArePeers(self, table, k + 1);
      forall c | c in table[k]
        ensures PeerId(self, c.nodeID) && BucketOf(self, c.nodeID) == k
      {
        var i :| 0 <= i < |table[k]| && table[k][i] == c;
        assert InBucket(self, k)(table[k][i]);
      }
    }
  }

  /** A contact met earlier, in another tier, is strictly closer to the target. */
  lemma EarlierIsCloser(self: string, table: seq<seq<Contact>>, target: string, i: nat, j: nat)
    requires GoodTable(self, table) && PeerId(self, target) && 0 <= BucketOf(self, target) < |table|
    requires i < j < |Outwards(table, BucketOf(self, target))|
    ensures var b := BucketOf(self, target);
            var w := Outwards(table, b);
            && PeerId(self, w[i].nodeID) && PeerId(self, w[j].nodeID)
            && Tier(self, b, w[i]) <= Tier(self, b, w[j])
            && (Tier(self, b, w[i]) < Tier(self, b, w[j])
                ==> Distance(target, w[i].nodeID) < Distance(target, w[j].nodeID))
  {
    hide BucketOf, GoodBucket, HexId, Outwards, Up, Distance;
    var b := BucketOf(self, target);
    var w := Outwards(table, b);
    OutwardsTiers(self, table, b);
    assert TierOrder(self, b)(w[i], w[j]);
    MeetsAll(table, b);
    MetArePeers(self, table, 0);
    InBoth(w, Up(table, 0), i);
    InBoth(w, Up(table, 0), j);
    var r, q := BucketOf(self, w[i].nodeID), BucketOf(self, w[j].nodeID);
    TierDistance(self, target, w[i].nodeID, b, r);
    TierDistance(self, target, w[j].nodeID, b, q);
    if Tier(self, b, w[i]) < Tier(self, b, w[j]) {
      LowerTierCloser(Distance(target, w[i].nodeID), Distance(target, w[j].nodeID), b, TierOf(b, r), TierOf(b, q));
    }
  }

  lemma InBoth(s: seq<Contact>, t: seq<Contact>, i: nat)
    requires multiset(s) == multiset(t) && i < |s|
    ensures s[i] in t
  {
    assert s[i] in multiset(s);
  }

  ghost predicate CloserThan(target: string, c: Contact, d: Contact) {
    HexId(target) && HexId(c.nodeID) && HexId(d.nodeID) && Distance(target, c.nodeID) < Distance(target, d.nodeID)
  }

  ghost predicate SameTier(self: string, b: int, c: Contact, d: Contact) {
    PeerId(self, c.nodeID) && PeerId(self, d.nodeID) && Tier(self, b, c) == Tier(self, b, d)
  }

  /** The first six met are strictly closer than whatever is met after them in another tier. */
  lemma FirstMetAreCloser(self: string, table: seq<seq<Contact>>, target: string)
    requires GoodTable(self, table) && PeerId(self, target) && 0 <= BucketOf(self, target) < |table|
    ensures var w := Outwards(table, BucketOf(self, target));
            forall i, j :: 0 <= i < BUCKET_LENGTH <= j < |w| && !SameTier(self, BucketOf(self, target), w[i], w[j])
              ==> CloserThan(target, w[i], w[j])
  {
    hide BucketOf, GoodBucket, HexId, Outwards, Distance, GoodTable;
    var w := Outwards(table, BucketOf(self, target));
    forall i, j | 0 <= i < BUCKET_LENGTH <= j < |w| && !SameTier(self, BucketOf(self, target), w[i], w[j])
      ensures CloserThan(target, w[i], w[j])
    {
      EarlierIsCloser(self, table, target, i, j);
    }
  }

  /** The six nearest, none of those left out being as near. */
  ghost predicate SixNearest(target: string, w: seq<Contact>) {
    forall i, j :: 0 <= i < BUCKET_LENGTH <= j < |w| ==> CloserThan(target, w[i], w[j])
  }

  /** The same, for those contacts only that are in the tier of the sixth. */
  ghost predicate NearestInCut(self: string, b: int, target: string, w: seq<Contact>) {
    forall i, j :: 0 <= i < BUCKET_LENGTH <= j < |w|
                   && SameTier(self, b, w[i], w[BUCKET_LENGTH - 1]) && SameTier(self, b, w[j], w[BUCKET_LENGTH - 1])
      ==> CloserThan(target, w[i], w[j])
  }

  /** The contacts returned are the nearest if and only if they are among those of one tier, the one the walk
      stopped in. */
  lemma NearestIffInCut(self: string, table: seq<seq<Contact>>, target: string)
    requires GoodTable(self, table) && PeerId(self, target) && 0 <= BucketOf(self, target) < |table|
    ensures var b := BucketOf(self, target);
            var w := Outwards(table, b);
            SixNearest(target, w) <==> NearestInCut(self, b, target, w)
  {
    hide BucketOf, GoodBucket, HexId, Outwards, Distance, GoodTable;
    var b := BucketOf(self, target);
    var w := Outwards(table, b);
    if NearestInCut(self, b, target, w) {
      forall i, j | 0 <= i < BUCKET_LENGTH <= j < |w|
        ensures CloserThan(target, w[i], w[j])
      {
        AroundTheCut(self, table, target, i, j);
      }
    }
  }

  /** Two contacts on either side of the cut are in different tiers or both in the tier of the cut. */
  lemma AroundTheCut(self: string, table: seq<seq<Contact>>, target: string, i: nat, j: nat)
    requires GoodTable(self, table) && PeerId(self, target) && 0 <= BucketOf(self, target) < |table|
    requires i < BUCKET_LENGTH <= j < |Outwards(table, BucketOf(self, target))|
    ensures var b := BucketOf(self, target);
            var w := Outwards(table, b);
            || CloserThan(target, w[i], w[j])
            || (SameTier(self, b, w[i], w[BUCKET_LENGTH - 1]) && SameTier(self, b, w[j], w[BUCKET_LENGTH - 1]))
  {
    hide BucketOf, GoodBucket, HexId, Outwards, Distance, GoodTable;
    if i < BUCKET_LENGTH - 1 {
      EarlierIsCloser(self, table, target, i, BUCKET_LENGTH - 1);
    }
    EarlierIsCloser(self, table, target, BUCKET_LENGTH - 1, j);
    EarlierIsCloser(self, table, target, i, j);
  }

  /** In particular when the sixth and the seventh contact met are in different tiers. */
  lemma NearestAtTierEnd(self: string, table: seq<seq<Contact>>, target: string)
    requires GoodTable(self, table) && PeerId(self, target) && 0 <= BucketOf(self, target) < |table|
    requires var w := Outwards(table, BucketOf(self, target));
             |w| > BUCKET_LENGTH ==> !SameTier(self, BucketOf(self, target), w[BUCKET_LENGTH - 1], w[BUCKET_LENGTH])
    ensures SixNearest(target, Outwards(table, BucketOf(self, target)))
  {
    hide BucketOf, GoodBucket, HexId, Outwards, Distance, GoodTable;
    var b := BucketOf(self, target);
    var w := Outwards(table, b);
    forall i, j | 0 <= i < BUCKET_LENGTH <= j < |w|
      ensures CloserThan(target, w[i], w[j])
    {
      EarlierIsCloser(self, table, target, BUCKET_LENGTH - 1, BUCKET_LENGTH);
      if i < BUCKET_LENGTH - 1 {
        EarlierIsCloser(self, table, target, i, BUCKET_LENGTH - 1);
      }
      if BUCKET_LENGTH < j {
        EarlierIsCloser(self, table, target, BUCKET_LENGTH, j);
      }
      EarlierIsCloser(self, table, target, i, j);
    }
  }
}
