/** The routing table: bucket r holds contacts whose distance has its top bit at r. */
module Routing {
  import opened Common
  import opened Lists
  import opened Xor
  import opened XorMetrics
  import opened Node

  const NUMBER_OF_BUCKETS := 128
  const TIMEOUT_REFRESH_DATA := 300

  /** Ids are compared only with ids of the same length. */
  predicate PeerId(self: string, id: string) {
    HexId(id) && HexId(self) && |id| == |self|
  }

  predicate Belongs(self: string, id: string, r: int) {
    PeerId(self, id) && BucketOf(self, id) == r
  }

  function InBucket(self: string, r: int): Contact -> bool {
    (c: Contact) => Belongs(self, c.nodeID, r)
  }

  /** A bucket never holds more than six contacts, and only its own. */
  ghost predicate GoodBucket(self: string, bucket: seq<Contact>, r: int) {
    |bucket| <= BUCKET_LENGTH && All(bucket, InBucket(self, r))
  }

  /** What belonging to a bucket means for the distance. */
  lemma BelongsByDistance(self: string, id: string, r: int)
    requires PeerId(self, id)
    ensures r >= 0 ==> (Belongs(self, id, r) <==> Top(Distance(self, id), r))
    ensures Belongs(self, id, -1) <==> HexValue(self) == HexValue(id)
  {
    var d := Distance(self, id);
    ZeroOnlyWhenEqual(HexValue(self), HexValue(id));
    if d > 0 {
      LogIsTop(d);
      if r >= 0 && Top(d, r) {
        TopIsUnique(d, r, Log2(d));
      }
    }
  }

  lemma InsertedGood(self: string, bucket: seq<Contact>, node: Contact, now: int, r: int)
    requires GoodBucket(self, bucket, r) && Belongs(self, node.nodeID, r)
    ensures GoodBucket(self, InsertToTail(bucket, node, now), r)
  {
  }

  lemma MovedGood(self: string, bucket: seq<Contact>, nodeID: string, ip: string, port: int, now: int, r: int)
    requires GoodBucket(self, bucket, r) && Belongs(self, nodeID, r)
    ensures GoodBucket(self, MoveNodeDetails(bucket, nodeID, ip, port, now), r)
  {
    hide Belongs;
    match FirstWith(bucket, nodeID)
    case Some(at) =>
      assert InBucket(self, r)(bucket[at]);
      CutGood(self, bucket, at, r);
      InsertedGood(self, bucket[..at] + bucket[at + 1..], bucket[at], now, r);
    case None =>
      InsertedGood(self, bucket, CreateNodeDetails(ip, port, nodeID, now), now, r);
  }

  lemma CutGood(self: string, bucket: seq<Contact>, at: nat, r: int)
    requires GoodBucket(self, bucket, r) && at < |bucket|
    ensures GoodBucket(self, bucket[..at] + bucket[at + 1..], r)
  {
    hide Belongs;
    var rest := bucket[..at] + bucket[at + 1..];
    forall i | 0 <= i < |rest|
      ensures InBucket(self, r)(rest[i])
    {
      assert rest[i] == if i < at then bucket[i] else bucket[i + 1];
    }
  }

  lemma WithinGood(self: string, s: seq<Contact>, bucket: seq<Contact>, r: int)
    requires GoodBucket(self, bucket, r) && Within(s, bucket)
    ensures GoodBucket(self, s, r)
  {
    WithinLength(s, bucket);
    WithinAll(s, bucket, InBucket(self, r));
  }

  lemma ReplacedGood(self: string, bucket: seq<Contact>, node: Contact, now: int, r: int)
    requires GoodBucket(self, bucket, r) && Belongs(self, node.nodeID, r)
    ensures GoodBucket(self, DeleteHeadInsertTail(bucket, node, now), r)
  {
    hide Belongs;
    if bucket != [] {
      CutGood(self, bucket, 0, r);
      assert bucket[..0] + bucket[1..] == DeleteHead(bucket);
    }
    InsertedGood(self, DeleteHead(bucket), node, now, r);
  }

  function Ids(bucket: seq<Contact>): (ids: seq<string>)
    ensures |ids| == |bucket|
  {
    seq(|bucket|, i requires 0 <= i < |bucket| => bucket[i].nodeID)
  }

  /** Where the successor of position at ends up when delete_node removes its id. */
  function NextAfterDelete(bucket: seq<Contact>, at: nat): nat
    requires at < |bucket|
  {
    if |bucket| == 1 then 0 else 1 + |SkipRemove(bucket[1..at + 1], HasId(bucket[at].nodeID))|
  }

  lemma {:induction false} SkipRemoveCut<T>(rest: seq<T>, hit: T -> bool, k: nat)
    requires k <= |rest|
    ensures SkipRemove(rest[..k], hit) <= SkipRemove(rest, hit)
    ensures |SkipRemove(rest, hit)| - |SkipRemove(rest[..k], hit)| <= |rest| - k
    decreases |rest|
  {
    if k == 0 {
      SkipRemoveWithin(rest, hit);
      WithinLength(SkipRemove(rest, hit), rest);
    } else if !hit(rest[0]) {
      assert rest[..k][0] == rest[0] && rest[..k][1..] == rest[1..][..k - 1];
      SkipRemoveCut(rest[1..], hit, k - 1);
    } else if k > 1 {
      assert rest[..k][0] == rest[0] && rest[..k][1] == rest[1] && rest[..k][2..] == rest[2..][..k - 2];
      SkipRemoveCut(rest[2..], hit, k - 2);
    } else {
      if |rest| > 1 {
        SkipRemoveWithin(rest[2..], hit);
        WithinLength(SkipRemove(rest[2..], hit), rest[2..]);
      }
    }
  }

  lemma NextIsThere(bucket: seq<Contact>, at: nat)
    requires at < |bucket|
    ensures var l := DeleteNode(bucket, bucket[at].nodeID);
            NextAfterDelete(bucket, at) <= |l| && |l| - NextAfterDelete(bucket, at) < |bucket| - at
  {
    if |bucket| > 1 {
      var hit := HasId(bucket[at].nodeID);
      SkipRemoveCut(bucket[1..], hit, at);
      assert bucket[1..][..at] == bucket[1..at + 1];
    }
  }

  // ----- The refresh of a bucket

  predicate Stale(c: Contact, now: int) {
    now - c.timestamp > TIMEOUT_REFRESH_DATA
  }

  /** Pinged again: two seconds until the next look. */
  function Touched(c: Contact): Contact {
    c.(count := c.count + 1, timestamp := c.timestamp + 2)
  }

  /** The walk over a bucket from position at, its list changing under it. */
  function Walked(bucket: seq<Contact>, at: nat, now: int): seq<Contact>
    decreases |bucket| - at
  {
    if at >= |bucket| || !Stale(bucket[at], now) then bucket
    else if bucket[at].count == 2 then
      NextIsThere(bucket, at);
      Walked(DeleteNode(bucket, bucket[at].nodeID), NextAfterDelete(bucket, at), now)
    else Walked(bucket[at := Touched(bucket[at])], at + 1, now)
  }

  /** Whom that walk pings. */
  function WalkPings(bucket: seq<Contact>, at: nat, now: int): seq<(string, int)>
    decreases |bucket| - at
  {
    if at >= |bucket| || !Stale(bucket[at], now) then []
    else if bucket[at].count == 2 then
      NextIsThere(bucket, at);
      WalkPings(DeleteNode(bucket, bucket[at].nodeID), NextAfterDelete(bucket, at), now)
    else [(bucket[at].ip, bucket[at].port)] + WalkPings(bucket[at := Touched(bucket[at])], at + 1, now)
  }

  /** A refresh leaves a good bucket good and brings in no id. */
  lemma {:induction false} WalkedGood(self: string, bucket: seq<Contact>, at: nat, now: int, b: int)
    requires GoodBucket(self, bucket, b)
    ensures GoodBucket(self, Walked(bucket, at, now), b)
    ensures Within(Ids(Walked(bucket, at, now)), Ids(bucket))
    decreases |bucket| - at
  {
    hide GoodBucket, DeleteNode, NextAfterDelete, Ids, Within, Stale, Touched;
    if at >= |bucket| || !Stale(bucket[at], now) {
      WithinSelf(Ids(bucket));
    } else if bucket[at].count == 2 {
      NextIsThere(bucket, at);
      var l := DeleteNode(bucket, bucket[at].nodeID);
      DeletedGood(self, bucket, bucket[at].nodeID, b);
      DeletedIds(bucket, bucket[at].nodeID);
      WalkedGood(self, l, NextAfterDelete(bucket, at), now, b);
      WithinTransitive(Ids(Walked(l, NextAfterDelete(bucket, at), now)), Ids(l), Ids(bucket));
    } else {
      TouchedGood(self, bucket, at, b);
      WalkedGood(self, bucket[at := Touched(bucket[at])], at + 1, now, b);
    }
  }

  // ----- The refresh of a bucket without repeated ids

  function OtherIds(): (Contact, Contact) -> bool {
    (c: Contact, d: Contact) => c.nodeID != d.nodeID
  }

  ghost predicate UniqueIds(bucket: seq<Contact>) {
    Pairwise(bucket, OtherIds())
  }

  /** The stale front loses the contacts that were pinged twice; its others are pinged once more. */
  function RefreshTail(rest: seq<Contact>, now: int): seq<Contact> {
    if rest == [] || !Stale(rest[0], now) then rest
    else if rest[0].count == 2 then RefreshTail(rest[1..], now)
    else [Touched(rest[0])] + RefreshTail(rest[1..], now)
  }

  /** The head cannot be deleted from a longer bucket. */
  function Refreshed(bucket: seq<Contact>, now: int): seq<Contact> {
    if bucket == [] || !Stale(bucket[0], now) then bucket
    else if bucket[0].count != 2 then [Touched(bucket[0])] + RefreshTail(bucket[1..], now)
    else if |bucket| == 1 then []
    else [bucket[0]] + RefreshTail(bucket[1..], now)
  }

  function PingsOf(bucket: seq<Contact>, now: int): seq<(string, int)> {
    if bucket == [] || !Stale(bucket[0], now) then []
    else if bucket[0].count == 2 then PingsOf(bucket[1..], now)
    else [(bucket[0].ip, bucket[0].port)] + PingsOf(bucket[1..], now)
  }

  /** In the middle of the walk over a bucket that was `was`. */
  ghost predicate Midway(was: seq<Contact>, cur: seq<Contact>, at: nat, pings: seq<(string, int)>, now: int) {
    && at <= |cur| && UniqueIds(cur)
    && PingsOf(was, now) == pings + PingsOf(cur[at..], now)
    && if at == 0 && cur != [] then cur == was else Refreshed(was, now) == cur[..at] + RefreshTail(cur[at..], now)
  }

  lemma MidwayStart(was: seq<Contact>, now: int)
    requires UniqueIds(was)
    ensures Midway(was, was, 0, [], now)
  {
    assert was[0..] == was;
  }

  lemma MidwayEnd(was: seq<Contact>, cur: seq<Contact>, at: nat, pings: seq<(string, int)>, now: int)
    requires Midway(was, cur, at, pings, now) && (at < |cur| ==> !Stale(cur[at], now))
    ensures cur == Refreshed(was, now) && pings == PingsOf(was, now)
  {
    assert cur[..at] + cur[at..] == cur;
    assert PingsOf(cur[at..], now) == [];
  }

  lemma UniqueHit(bucket: seq<Contact>, at: nat)
    requires UniqueIds(bucket) && at < |bucket|
    ensures AtMostOne(bucket, HasId(bucket[at].nodeID))
    ensures forall i :: 0 <= i < |bucket| && i != at ==> bucket[i].nodeID != bucket[at].nodeID
  {
    forall i, j | 0 <= i < j < |bucket|
      ensures bucket[i].nodeID != bucket[j].nodeID
    {
      assert OtherIds()(bucket[i], bucket[j]);
    }
  }

  lemma DeletedHead(cur: seq<Contact>)
    requires UniqueIds(cur) && |cur| > 1
    ensures DeleteNode(cur, cur[0].nodeID) == cur && NextAfterDelete(cur, 0) == 1
  {
    UniqueHit(cur, 0);
    var hit := HasId(cur[0].nodeID);
    NoMore(cur, hit);
    SkipRemoveNone(cur[1..], hit);
    assert cur[1..1] == [];
  }

  lemma DeletedLater(cur: seq<Contact>, at: nat)
    requires UniqueIds(cur) && 0 < at < |cur|
    ensures DeleteNode(cur, cur[at].nodeID) == cur[..at] + cur[at + 1..] && NextAfterDelete(cur, at) == at
  {
    hide UniqueIds, SkipRemove;
    UniqueHit(cur, at);
    var hit := HasId(cur[at].nodeID);
    SkipRemoveOne(cur[1..], hit, at - 1);
    SkipRemoveLast(cur[1..at + 1], hit);
    assert cur[1..][..at - 1] == cur[1..at] && cur[1..][at..] == cur[at + 1..];
    assert [cur[0]] + (cur[1..at] + cur[at + 1..]) == cur[..at] + cur[at + 1..];
  }

  /** With unique ids, delete_node removes the contact looked at, and the walk goes on behind it. */
  lemma DeletedHere(cur: seq<Contact>, at: nat)
    requires UniqueIds(cur) && at < |cur|
    ensures |cur| == 1 ==> DeleteNode(cur, cur[at].nodeID) == [] && NextAfterDelete(cur, at) == 0
    ensures |cur| > 1 && at == 0 ==> DeleteNode(cur, cur[at].nodeID) == cur && NextAfterDelete(cur, at) == 1
    ensures at > 0 ==> DeleteNode(cur, cur[at].nodeID) == cur[..at] + cur[at + 1..] && NextAfterDelete(cur, at) == at
  {
    hide UniqueIds, SkipRemove;
    if at > 0 {
      DeletedLater(cur, at);
    } else if |cur| > 1 {
      DeletedHead(cur);
    }
  }

  lemma {:induction false} SkipRemoveOne<T>(s: seq<T>, hit: T -> bool, k: nat)
    requires k < |s| && hit(s[k]) && forall i :: 0 <= i < |s| && i != k ==> !hit(s[i])
    ensures SkipRemove(s, hit) == s[..k] + s[k + 1..]
  {
    if k == 0 {
      forall i | 0 <= i < |s[1..]|
        ensures Misses(hit)(s[1..][i])
      {
        assert s[1..][i] == s[i + 1];
      }
      SkipRemoveNone(s[1..], hit);
      if |s| > 1 {
        assert s[1..][0] == s[1] && s[1..][1..] == s[2..];
      }
    } else {
      forall i | 0 <= i < |s[1..]| && i != k - 1
        ensures !hit(s[1..][i])
      {
        assert s[1..][i] == s[i + 1];
      }
      SkipRemoveOne(s[1..], hit, k - 1);
      assert s[..k] + s[k + 1..] == [s[0]] + (s[1..][..k - 1] + s[1..][k..]);
    }
  }

  lemma SkipRemoveLast<T>(s: seq<T>, hit: T -> bool)
    requires s != [] && hit(s[|s| - 1]) && forall i :: 0 <= i < |s| - 1 ==> !hit(s[i])
    ensures |SkipRemove(s, hit)| == |s| - 1
  {
    SkipRemoveOne(s, hit, |s| - 1);
  }

  lemma PingedTwiceFirst(c: Contact, rest: seq<Contact>, now: int)
    requires Stale(c, now) && c.count == 2
    ensures RefreshTail([c] + rest, now) == RefreshTail(rest, now) && PingsOf([c] + rest, now) == PingsOf(rest, now)
    ensures Refreshed([c] + rest, now) == if rest == [] then [] else [c] + RefreshTail(rest, now)
  {
    hide Stale;
    assert ([c] + rest)[0] == c && ([c] + rest)[1..] == rest;
  }

  lemma CutParts(cur: seq<Contact>, at: nat)
    requires at < |cur|
    ensures var l := cur[..at] + cur[at + 1..]; l[..at] == cur[..at] && l[at..] == cur[at + 1..]
    ensures cur[at..] == [cur[at]] + cur[at + 1..]
    ensures at == 0 ==> cur == [cur[0]] + cur[1..] && cur[..1] == [cur[0]]
  {
  }

  lemma StepDelete(was: seq<Contact>, cur: seq<Contact>, at: nat, pings: seq<(string, int)>, now: int)
    requires Midway(was, cur, at, pings, now) && at < |cur| && Stale(cur[at], now) && cur[at].count == 2
    ensures Midway(was, DeleteNode(cur, cur[at].nodeID), NextAfterDelete(cur, at), pings, now)
  {
    hide DeleteNode, NextAfterDelete, Stale, UniqueIds, RefreshTail, Refreshed, PingsOf;
    DeletedHere(cur, at);
    KeptUnique(cur, cur[at].nodeID);
    CutParts(cur, at);
    PingedTwiceFirst(cur[at], cur[at + 1..], now);
    NothingLeft(now);
  }

  lemma NothingLeft(now: int)
    ensures RefreshTail([], now) == [] && PingsOf([], now) == []
  {
  }

  lemma KeptUnique(cur: seq<Contact>, nodeID: string)
    requires UniqueIds(cur)
    ensures UniqueIds(DeleteNode(cur, nodeID))
  {
    DeleteNodeWithin(cur, nodeID);
    WithinPairwise(DeleteNode(cur, nodeID), cur, OtherIds());
  }

  lemma TouchedUnique(cur: seq<Contact>, at: nat)
    requires UniqueIds(cur) && at < |cur|
    ensures UniqueIds(cur[at := Touched(cur[at])])
  {
    var t := cur[at := Touched(cur[at])];
    forall i, j | 0 <= i < j < |t|
      ensures OtherIds()(t[i], t[j])
    {
      assert OtherIds()(cur[i], cur[j]);
      assert t[i].nodeID == cur[i].nodeID && t[j].nodeID == cur[j].nodeID;
    }
  }

  lemma TouchedParts(cur: seq<Contact>, at: nat, t: Contact)
    requires at < |cur|
    ensures cur[at := t][..at + 1] == cur[..at] + [t] && cur[at := t][at + 1..] == cur[at + 1..]
    ensures cur[at..] == [cur[at]] + cur[at + 1..]
  {
  }

  lemma StaleFirst(c: Contact, rest: seq<Contact>, now: int)
    requires Stale(c, now) && c.count != 2
    ensures RefreshTail([c] + rest, now) == [Touched(c)] + RefreshTail(rest, now)
    ensures Refreshed([c] + rest, now) == [Touched(c)] + RefreshTail(rest, now)
    ensures PingsOf([c] + rest, now) == [(c.ip, c.port)] + PingsOf(rest, now)
  {
    hide Stale, Touched;
    assert ([c] + rest)[0] == c && ([c] + rest)[1..] == rest;
  }

  lemma StepTouch(was: seq<Contact>, cur: seq<Contact>, at: nat, pings: seq<(string, int)>, now: int)
    requires Midway(was, cur, at, pings, now) && at < |cur| && Stale(cur[at], now) && cur[at].count != 2
    ensures Midway(was, cur[at := Touched(cur[at])], at + 1, pings + [(cur[at].ip, cur[at].port)], now)
  {
    hide Stale, UniqueIds, Touched, RefreshTail, Refreshed, PingsOf;
    TouchedUnique(cur, at);
    TouchedParts(cur, at, Touched(cur[at]));
    StaleFirst(cur[at], cur[at + 1..], now);
    Assoc(pings, [(cur[at].ip, cur[at].port)], PingsOf(cur[at + 1..], now));
    Assoc(cur[..at], [Touched(cur[at])], RefreshTail(cur[at + 1..], now));
    if at == 0 {
      assert cur[0..] == cur && cur[..0] + [Touched(cur[0])] == [Touched(cur[0])];
    }
  }

  lemma {:induction false} WalkedMidway(was: seq<Contact>, cur: seq<Contact>, at: nat, pings: seq<(string, int)>, now: int)
    requires Midway(was, cur, at, pings, now)
    ensures Walked(cur, at, now) == Refreshed(was, now) && pings + WalkPings(cur, at, now) == PingsOf(was, now)
    decreases |cur| - at
  {
    hide Midway, Stale, Touched, DeleteNode, NextAfterDelete, Refreshed, PingsOf;
    MidwayInside(was, cur, at, pings, now);
    if at >= |cur| || !Stale(cur[at], now) {
      MidwayEnd(was, cur, at, pings, now);
    } else if cur[at].count == 2 {
      NextIsThere(cur, at);
      StepDelete(was, cur, at, pings, now);
      WalkedMidway(was, DeleteNode(cur, cur[at].nodeID), NextAfterDelete(cur, at), pings, now);
    } else {
      var ping := [(cur[at].ip, cur[at].port)];
      StepTouch(was, cur, at, pings, now);
      WalkedMidway(was, cur[at := Touched(cur[at])], at + 1, pings + ping, now);
      Assoc(pings, ping, WalkPings(cur[at := Touched(cur[at])], at + 1, now));
    }
  }

  lemma MidwayInside(was: seq<Contact>, cur: seq<Contact>, at: nat, pings: seq<(string, int)>, now: int)
    requires Midway(was, cur, at, pings, now)
    ensures at <= |cur|
  {
  }

  /** Without repeated ids the walk loses the contacts pinged twice from its stale front, except the head of a
      longer bucket, and pings the others of that front once more. */
  lemma WalkedUnique(bucket: seq<Contact>, now: int)
    requires UniqueIds(bucket)
    ensures Walked(bucket, 0, now) == Refreshed(bucket, now) && WalkPings(bucket, 0, now) == PingsOf(bucket, now)
  {
    hide Walked, WalkPings, Refreshed, PingsOf;
    MidwayStart(bucket, now);
    WalkedMidway(bucket, bucket, 0, [], now);
  }

  /** Ids that do not repeat do not repeat after the walk. */
  lemma {:induction false} WalkedStaysUnique(bucket: seq<Contact>, at: nat, now: int)
    requires UniqueIds(bucket)
    ensures UniqueIds(Walked(bucket, at, now))
    decreases |bucket| - at
  {
    hide UniqueIds, DeleteNode, NextAfterDelete, Stale, Touched;
    if at < |bucket| && Stale(bucket[at], now) {
      if bucket[at].count == 2 {
        NextIsThere(bucket, at);
        KeptUnique(bucket, bucket[at].nodeID);
        WalkedStaysUnique(DeleteNode(bucket, bucket[at].nodeID), NextAfterDelete(bucket, at), now);
      } else {
        TouchedUnique(bucket, at);
        WalkedStaysUnique(bucket[at := Touched(bucket[at])], at + 1, now);
      }
    }
  }

  class RoutingTable {
    const self: string
    const table: array<seq<Contact>>

    ghost predicate Valid()
      reads table
    {
      && table.Length == NUMBER_OF_BUCKETS && HexId(self)
      && forall r :: 0 <= r < table.Length ==> GoodBucket(self, table[r], r)
    }

    constructor (id: string)
      requires HexId(id)
      ensures Valid() && self == id && fresh(table)
      ensures forall r :: 0 <= r < table.Length ==> table[r] == []
    {
      self := id;
      table := new seq<Contact>[NUMBER_OF_BUCKETS](_ => []);
    }

    ghost predicate OthersSame(was: seq<seq<Contact>>, b: int)
      reads table
    {
      |was| == table.Length && forall r :: 0 <= r < table.Length && r != b ==> table[r] == was[r]
    }

    /** insert_into_contact_table: a full bucket refuses even a contact that it holds already. */
    method InsertIntoContactTable(nodeID: string, ip: string, port: int, now: int) returns (res: int)
      requires Valid() && PeerId(self, nodeID) && HexValue(self) != HexValue(nodeID)
      modifies table
      ensures Valid() && OthersSame(old(table[..]), BucketOf(self, nodeID))
      ensures var b := BucketOf(self, nodeID);
              && b >= 0
              && res == (if b >= NUMBER_OF_BUCKETS then -2 else if |old(table[..])[b]| < BUCKET_LENGTH then b else -1)
              && (res == b ==> table[b] == MoveNodeDetails(old(table[..])[b], nodeID, ip, port, now))
              && (res == -1 ==> table[b] == old(table[..])[b])
    {
      hide HexId, BucketOf, HexValue, MoveNodeDetails, GoodBucket, Belongs;
      var bucketNo := FindNodeDetails(self, nodeID);
      OwnBucket(self, nodeID, bucketNo);
      if bucketNo > 127 {
        return -2;
      }
      if |table[bucketNo]| < 6 {
        MovedGood(self, table[bucketNo], nodeID, ip, port, now, bucketNo);
        table[bucketNo] := MoveNodeDetails(table[bucketNo], nodeID, ip, port, now);
        res := bucketNo;
      } else {
        res := -1;
      }
    }

    /** What the maintenance does with a waiting contact whose time is up. */
    method ReplaceHead(b: int, node: Contact, now: int)
      requires Valid() && 0 <= b < table.Length && Belongs(self, node.nodeID, b)
      modifies table
      ensures Valid() && OthersSame(old(table[..]), b)
      ensures table[b] == DeleteHeadInsertTail(old(table[..])[b], node, now)
    {
      hide GoodBucket, Belongs, DeleteHeadInsertTail;
      ReplacedGood(self, table[b], node, now, b);
      table[b] := DeleteHeadInsertTail(table[b], node, now);
    }

    /** The refresh of one bucket: stale contacts at its front are pinged twice and then deleted. */
    method RefreshBucket(b: int, now: int) returns (pings: seq<(string, int)>)
      requires Valid() && 0 <= b < table.Length
      modifies table
      ensures Valid() && OthersSame(old(table[..]), b)
      ensures table[b] == Walked(old(table[..])[b], 0, now) && pings == WalkPings(old(table[..])[b], 0, now)
    {
      hide GoodBucket, DeleteNode, NextAfterDelete, Ids, Within, Walked, WalkPings;
      ghost var was := table[b];
      pings := [];
      var at := 0;
      WalkedGood(self, was, 0, now, b);
      while at < |table[b]| && now - table[b][at].timestamp > TIMEOUT_REFRESH_DATA
        invariant 0 <= at <= |table[b]| && OthersSame(old(table[..]), b)
        invariant Walked(table[b], at, now) == Walked(was, 0, now)
        invariant pings + WalkPings(table[b], at, now) == WalkPings(was, 0, now)
        decreases |table[b]| - at
      {
        var bucket := table[b][at];
        WalkOne(table[b], at, now);
        if bucket.count == 2 {
          at := NextAfterDelete(table[b], at);
          table[b] := DeleteNodeInPlace(table[b], bucket.nodeID);
        } else {
          Assoc(pings, [(bucket.ip, bucket.port)], WalkPings(table[b][at := Touched(bucket)], at + 1, now));
          pings := pings + [(bucket.ip, bucket.port)];
          table[b] := table[b][at := Touched(bucket)];
          at := at + 1;
        }
      }
      WalkEnd(table[b], at, now);
    }
  }

  lemma WalkOne(bucket: seq<Contact>, at: nat, now: int)
    requires at < |bucket| && Stale(bucket[at], now)
    ensures bucket[at].count == 2 ==>
              var l := DeleteNode(bucket, bucket[at].nodeID);
              && NextAfterDelete(bucket, at) <= |l| && |l| - NextAfterDelete(bucket, at) < |bucket| - at
              && Walked(bucket, at, now) == Walked(l, NextAfterDelete(bucket, at), now)
              && WalkPings(bucket, at, now) == WalkPings(l, NextAfterDelete(bucket, at), now)
    ensures bucket[at].count != 2 ==>
              var l := bucket[at := Touched(bucket[at])];
              && Walked(bucket, at, now) == Walked(l, at + 1, now)
              && WalkPings(bucket, at, now) == [(bucket[at].ip, bucket[at].port)] + WalkPings(l, at + 1, now)
  {
    hide DeleteNode, NextAfterDelete, Touched;
    NextIsThere(bucket, at);
  }

  lemma WalkEnd(bucket: seq<Contact>, at: nat, now: int)
    requires at >= |bucket| || !Stale(bucket[at], now)
    ensures Walked(bucket, at, now) == bucket && WalkPings(bucket, at, now) == []
  {
  }

  lemma OwnBucket(self: string, id: string, b: int)
    requires PeerId(self, id) && HexValue(self) != HexValue(id) && b == BucketOf(self, id)
    ensures Belongs(self, id, b) && b >= 0
  {
    hide BucketOf, HexValue;
    BelongsByDistance(self, id, -1);
    NotBelow(self, id);
  }

  lemma NotBelow(self: string, id: string)
    requires PeerId(self, id)
    ensures BucketOf(self, id) >= -1
  {
  }

  lemma DeletedGood(self: string, bucket: seq<Contact>, nodeID: string, b: int)
    requires GoodBucket(self, bucket, b)
    ensures GoodBucket(self, DeleteNode(bucket, nodeID), b)
  {
    hide *;
    DeleteNodeWithin(bucket, nodeID);
    WithinGood(self, DeleteNode(bucket, nodeID), bucket, b);
  }

  lemma TouchedGood(self: string, bucket: seq<Contact>, at: nat, b: int)
    requires at < |bucket| && GoodBucket(self, bucket, b)
    ensures GoodBucket(self, bucket[at := Touched(bucket[at])], b)
    ensures Ids(bucket[at := Touched(bucket[at])]) == Ids(bucket)
  {
    hide Belongs;
    var t := bucket[at := Touched(bucket[at])];
    forall i | 0 <= i < |t|
      ensures InBucket(self, b)(t[i])
    {
      assert InBucket(self, b)(bucket[i]);
      assert t[i].nodeID == bucket[i].nodeID;
    }
  }

  lemma {:induction false} IdsWithin(s: seq<Contact>, t: seq<Contact>)
    requires Within(s, t)
    ensures Within(Ids(s), Ids(t))
    decreases |t|
  {
    if s != [] {
      assert Ids(t)[1..] == Ids(t[1..]) && Ids(s)[1..] == Ids(s[1..]);
      if s[0] == t[0] && Within(s[1..], t[1..]) {
        IdsWithin(s[1..], t[1..]);
      } else {
        IdsWithin(s, t[1..]);
      }
    }
  }

  lemma DeletedIds(bucket: seq<Contact>, nodeID: string)
    ensures Within(Ids(DeleteNode(bucket, nodeID)), Ids(bucket))
  {
    hide *;
    DeleteNodeWithin(bucket, nodeID);
    IdsWithin(DeleteNode(bucket, nodeID), bucket);
  }
}
