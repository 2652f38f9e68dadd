/** What a maintenance step does to the table and to the waiting list, and when ids stay distinct. */
module Maintenance {
  import opened Common
  import opened Lists
  import opened XorMetrics
  import opened Node
  import opened Routing
  import opened StoreFile

  const TIMEOUT_PING := 2

  /** The candidate that waits while the head of its bucket is pinged. */
  datatype Candidate = Candidate(ip: string, port: int, nodeID: string)

  /** Whom a message is from; answers to pings and error messages do not count. */
  datatype Sender = Nobody | Peer(nodeID: string, ip: string, port: int)

  predicate IsPeer(self: string, id: string) {
    PeerId(self, id) && HexValue(self) != HexValue(id)
  }

  // ----- The waiting list

  /** The contact being pinged and the candidate belong to the same bucket. */
  predicate SameBucket(self: string, pinged: string, candidate: string) {
    && PeerId(self, pinged) && PeerId(self, candidate)
    && BucketOf(self, pinged) == BucketOf(self, candidate) && 0 <= BucketOf(self, pinged) < NUMBER_OF_BUCKETS
  }

  ghost predicate WaitingOk(self: string, files: seq<Entry<Candidate>>) {
    forall e :: e in files ==> SameBucket(self, e.key, e.value.nodeID)
  }

  function WaitingNode(c: Candidate, now: int): Contact {
    CreateNodeDetails(c.ip, c.port, c.nodeID, now)
  }

  /** Each candidate whose time is up takes the place of the head of its bucket. */
  function ReplacedTable(self: string, table: seq<seq<Contact>>, files: seq<Entry<Candidate>>, now: int)
    : (r: seq<seq<Contact>>)
    ensures |r| == |table|
  {
    if files == [] then table
    else
      var before := ReplacedTable(self, table, files[..|files| - 1], now);
      var e := files[|files| - 1];
      if now - e.timestamp > TIMEOUT_PING && SameBucket(self, e.key, e.value.nodeID)
         && BucketOf(self, e.key) < |table|
      then
        var b := BucketOf(self, e.key);
        before[b := DeleteHeadInsertTail(before[b], WaitingNode(e.value, now), now)]
      else before
  }

  function RefreshedTable(table: seq<seq<Contact>>, now: int): seq<seq<Contact>> {
    seq(|table|, i requires 0 <= i < |table| => Walked(table[i], 0, now))
  }

  function BucketNo(self: string, id: string): int {
    if PeerId(self, id) then BucketOf(self, id) else -1
  }

  /** The table after meeting a sender. */
  function MetTable(self: string, table: seq<seq<Contact>>, sender: Sender, now: int): (r: seq<seq<Contact>>)
    ensures |r| == |table|
  {
    if sender == Nobody then table
    else
      var b := BucketNo(self, sender.nodeID);
      if 0 <= b < |table| && |table[b]| < BUCKET_LENGTH
      then table[b := MoveNodeDetails(table[b], sender.nodeID, sender.ip, sender.port, now)]
      else table
  }

  /** A stranger whose bucket is full waits for the head of the bucket. */
  function MetWaiting(self: string, table: seq<seq<Contact>>, files: seq<Entry<Candidate>>, sender: Sender, now: int)
    : seq<Entry<Candidate>>
  {
    if sender == Nobody then files
    else
      var b := BucketNo(self, sender.nodeID);
      if 0 <= b < |table| && |table[b]| >= BUCKET_LENGTH && FirstWith(table[b], sender.nodeID).None?
      then Filter(files, Misses(HasKey(table[b][0].nodeID)))
           + [Entry(table[b][0].nodeID, Candidate(sender.ip, sender.port, sender.nodeID), now)]
      else files
  }

  function RefreshPings(table: seq<seq<Contact>>, n: nat, now: int): seq<(string, int)>
    requires n <= |table|
  {
    if n == 0 then [] else RefreshPings(table, n - 1, now) + WalkPings(table[n - 1], 0, now)
  }

  /** The head of a full bucket is pinged for a stranger. */
  function MetPings(self: string, table: seq<seq<Contact>>, sender: Sender): seq<(string, int)> {
    if sender == Nobody then []
    else
      var b := BucketNo(self, sender.nodeID);
      if 0 <= b < |table| && |table[b]| >= BUCKET_LENGTH && FirstWith(table[b], sender.nodeID).None?
      then [(table[b][0].ip, table[b][0].port)] else []
  }

  // ----- One maintenance step

  /** The table after the refresh and the sender. */
  function Prepared(self: string, table: seq<seq<Contact>>, sender: Sender, now: int): (r: seq<seq<Contact>>)
    ensures |r| == |table|
  {
    MetTable(self, RefreshedTable(table, now), sender, now)
  }

  function MaintainedWaiting(self: string, table: seq<seq<Contact>>, files: seq<Entry<Candidate>>, sender: Sender,
                             now: int): seq<Entry<Candidate>> {
    MetWaiting(self, RefreshedTable(table, now), files, sender, now)
  }

  function MaintainedTable(self: string, table: seq<seq<Contact>>, files: seq<Entry<Candidate>>, sender: Sender,
                           now: int): (r: seq<seq<Contact>>)
    ensures |r| == |table|
  {
    ReplacedTable(self, Prepared(self, table, sender, now), MaintainedWaiting(self, table, files, sender, now), now)
  }

  function MaintainedPings(self: string, table: seq<seq<Contact>>, sender: Sender, now: int): seq<(string, int)> {
    RefreshPings(table, |table|, now) + MetPings(self, RefreshedTable(table, now), sender)
  }

  ghost predicate AllUnique(table: seq<seq<Contact>>) {
    forall r :: 0 <= r < |table| ==> UniqueIds(table[r])
  }

  lemma ReplacedNone(self: string, table: seq<seq<Contact>>, files: seq<Entry<Candidate>>, now: int)
    ensures ReplacedTable(self, table, files[..0], now) == table
  {
  }

  lemma ReplacedNext(self: string, table: seq<seq<Contact>>, files: seq<Entry<Candidate>>, i: nat, now: int)
    requires i < |files| && WaitingOk(self, files) && |table| == NUMBER_OF_BUCKETS
    ensures var e := files[i];
            var b := BucketNo(self, e.key);
            var before := ReplacedTable(self, table, files[..i], now);
            && PeerId(self, e.key) && 0 <= b < NUMBER_OF_BUCKETS && Belongs(self, e.value.nodeID, b)
            && ReplacedTable(self, table, files[..i + 1], now)
               == if now - e.timestamp > TIMEOUT_PING
                  then before[b := DeleteHeadInsertTail(before[b], WaitingNode(e.value, now), now)] else before
  {
    hide HexId, BucketOf, DeleteHeadInsertTail;
    assert files[..i + 1][..i] == files[..i];
    assert files[i] in files;
  }

  lemma ReplacedOne(self: string, table: seq<seq<Contact>>, e: Entry<Candidate>, now: int)
    requires SameBucket(self, e.key, e.value.nodeID) && |table| == NUMBER_OF_BUCKETS
    ensures var b := BucketOf(self, e.key);
            ReplacedTable(self, table, [e], now)
            == if now - e.timestamp > TIMEOUT_PING
               then table[b := DeleteHeadInsertTail(table[b], WaitingNode(e.value, now), now)] else table
  {
    hide BucketOf, HexId, DeleteHeadInsertTail;
    assert [e][..0] == [];
    assert ReplacedTable(self, table, [], now) == table;
  }

  lemma FilteredOk(self: string, files: seq<Entry<Candidate>>, keep: Entry<Candidate> -> bool)
    requires WaitingOk(self, files)
    ensures WaitingOk(self, Filter(files, keep))
  {
    hide SameBucket;
    FilterMembers(files, keep);
  }

  lemma AppendedOk(self: string, files: seq<Entry<Candidate>>, e: Entry<Candidate>)
    requires WaitingOk(self, files) && SameBucket(self, e.key, e.value.nodeID)
    ensures WaitingOk(self, files + [e])
  {
    hide SameBucket;
  }

  lemma HeadShares(self: string, bucket: seq<Contact>, nodeID: string, b: int)
    requires GoodBucket(self, bucket, b) && bucket != [] && Belongs(self, nodeID, b) && 0 <= b < NUMBER_OF_BUCKETS
    ensures SameBucket(self, bucket[0].nodeID, nodeID)
  {
    hide BucketOf, HexId;
    assert InBucket(self, b)(bucket[0]);
  }

  /** A candidate that takes over stands last, under its own id and address, as just seen. */
  lemma CandidateTakesOver(bucket: seq<Contact>, c: Candidate, now: int)
    requires |bucket| <= BUCKET_LENGTH
    ensures ReplacedBucket(bucket, [c], now)
         == (if bucket == [] then [] else bucket[1..]) + [Contact(c.ip, c.port, 0, c.nodeID, now)]
  {
    hide DeleteHeadInsertTail;
    HeadReplaced(bucket, WaitingNode(c, now), now);
    assert [c][..0] == [];
    assert ReplacedBucket(bucket, [], now) == bucket;
  }

  // ----- When do the ids of a bucket stay distinct?

  lemma UniqueByIds(bucket: seq<Contact>)
    ensures UniqueIds(bucket) <==> Distinct(Ids(bucket))
  {
    if Distinct(Ids(bucket)) {
      forall i, j | 0 <= i < j < |bucket|
        ensures OtherIds()(bucket[i], bucket[j])
      {
        assert Ids(bucket)[i] != Ids(bucket)[j];
      }
    }
    if UniqueIds(bucket) {
      forall i, j | 0 <= i < j < |bucket|
        ensures Ids(bucket)[i] != Ids(bucket)[j]
      {
        assert OtherIds()(bucket[i], bucket[j]);
      }
    }
  }

  /** One replacement keeps them distinct exactly when the newcomer is not among the contacts that stay. */
  lemma OneReplacement(bucket: seq<Contact>, c: Contact, now: int)
    requires UniqueIds(bucket) && |bucket| <= BUCKET_LENGTH
    ensures UniqueIds(DeleteHeadInsertTail(bucket, c, now)) <==> c.nodeID !in Ids(DeleteHead(bucket))
  {
    hide UniqueIds;
    var stay := DeleteHead(bucket);
    UniqueByIds(bucket);
    UniqueByIds(DeleteHeadInsertTail(bucket, c, now));
    assert Ids(stay) == if bucket == [] then [] else Ids(bucket)[1..];
    assert Ids(DeleteHeadInsertTail(bucket, c, now)) == Ids(stay) + [c.nodeID];
    DistinctMore(Ids(stay), c.nodeID);
  }

  lemma DistinctMore(s: seq<string>, x: string)
    requires Distinct(s)
    ensures Distinct(s + [x]) <==> x !in s
  {
    if x in s {
      var i :| 0 <= i < |s| && s[i] == x;
      assert (s + [x])[i] == (s + [x])[|s|];
    }
  }

  function Due(e: Entry<Candidate>, now: int): bool {
    now - e.timestamp > TIMEOUT_PING
  }

  /** The candidates for bucket b whose time is up, in the order of the list. */
  function Matured(self: string, files: seq<Entry<Candidate>>, b: int, now: int): seq<Candidate> {
    if files == [] then []
    else
      var e := files[|files| - 1];
      Matured(self, files[..|files| - 1], b, now) + (if Due(e, now) && BucketNo(self, e.key) == b then [e.value] else [])
  }

  function ReplacedBucket(bucket: seq<Contact>, cs: seq<Candidate>, now: int): (r: seq<Contact>)
    ensures |bucket| <= BUCKET_LENGTH ==> |r| <= BUCKET_LENGTH
  {
    if cs == [] then bucket
    else DeleteHeadInsertTail(ReplacedBucket(bucket, cs[..|cs| - 1], now), WaitingNode(cs[|cs| - 1], now), now)
  }

  lemma ReplacedMore(bucket: seq<Contact>, cs: seq<Candidate>, c: Candidate, now: int)
    ensures ReplacedBucket(bucket, cs + [c], now)
         == DeleteHeadInsertTail(ReplacedBucket(bucket, cs, now), WaitingNode(c, now), now)
  {
    hide DeleteHeadInsertTail;
    assert (cs + [c])[..|cs|] == cs;
  }

  lemma {:induction false} ReplacedAt(self: string, table: seq<seq<Contact>>, files: seq<Entry<Candidate>>, b: int, now: int)
    requires WaitingOk(self, files) && |table| == NUMBER_OF_BUCKETS && 0 <= b < NUMBER_OF_BUCKETS
    ensures ReplacedTable(self, table, files, now)[b] == ReplacedBucket(table[b], Matured(self, files, b, now), now)
  {
    hide WaitingOk, ReplacedBucket, ReplacedTable, BucketNo, DeleteHeadInsertTail, Belongs, PeerId;
    if files == [] {
      NoneReplaced(self, table, table[b], now);
    } else {
      var front, e := files[..|files| - 1], files[|files| - 1];
      FrontOk(self, files);
      ReplacedAt(self, table, front, b, now);
      ReplacedNext(self, table, files, |front|, now);
      assert files[..|front| + 1] == files;
      ReplacedMore(table[b], Matured(self, front, b, now), e.value, now);
      assert Matured(self, front, b, now) + [] == Matured(self, front, b, now);
    }
  }

  lemma FrontOk(self: string, files: seq<Entry<Candidate>>)
    requires WaitingOk(self, files) && files != []
    ensures WaitingOk(self, files[..|files| - 1])
  {
    hide SameBucket;
  }

  lemma NoneReplaced(self: string, table: seq<seq<Contact>>, bucket: seq<Contact>, now: int)
    ensures ReplacedTable(self, table, [], now) == table && ReplacedBucket(bucket, [], now) == bucket
  {
  }

  function CandidateIds(cs: seq<Candidate>): (ids: seq<string>)
    ensures |ids| == |cs|
  {
    seq(|cs|, i requires 0 <= i < |cs| => cs[i].nodeID)
  }

  function Last<T>(s: seq<T>, n: nat): (r: seq<T>)
    ensures |r| == Min(n, |s|)
  {
    if |s| <= n then s else s[|s| - n..]
  }

  /** How many contacts a bucket holds while candidates come in. */
  function Held(bucket: seq<Contact>): nat {
    if bucket == [] then 1 else |bucket|
  }

  lemma LastMore<T>(s: seq<T>, x: T, n: nat)
    requires n > 0
    ensures Last(s + [x], n) == (if |s| < n then s else Last(s, n)[1..]) + [x]
  {
  }

  /** Contacts leave at the front as candidates come in at the back. */
  lemma {:induction false} ReplacedIds(bucket: seq<Contact>, cs: seq<Candidate>, now: int)
    requires |bucket| <= BUCKET_LENGTH
    ensures Ids(ReplacedBucket(bucket, cs, now)) == Last(Ids(bucket) + CandidateIds(cs), Held(bucket))
  {
    if cs == [] {
      assert Ids(bucket) + CandidateIds(cs) == Ids(bucket);
    } else {
      hide ReplacedBucket, Last, Held;
      var front, c := cs[..|cs| - 1], cs[|cs| - 1];
      assert cs == front + [c];
      ReplacedMore(bucket, front, c, now);
      ReplacedIds(bucket, front, now);
      IdsMore(bucket, front, c);
      ReplacedLength(bucket, front, now);
      LastMore(Ids(bucket) + CandidateIds(front), c.nodeID, Held(bucket));
      IdsReplaced(ReplacedBucket(bucket, front, now), WaitingNode(c, now), now);
    }
  }

  lemma IdsMore(bucket: seq<Contact>, front: seq<Candidate>, c: Candidate)
    ensures Ids(bucket) + CandidateIds(front + [c]) == (Ids(bucket) + CandidateIds(front)) + [c.nodeID]
  {
    assert CandidateIds(front + [c]) == CandidateIds(front) + [c.nodeID];
  }

  lemma {:induction false} ReplacedLength(bucket: seq<Contact>, cs: seq<Candidate>, now: int)
    requires |bucket| <= BUCKET_LENGTH
    ensures |ReplacedBucket(bucket, cs, now)| == if cs == [] then |bucket| else Held(bucket)
    ensures Held(bucket) > 0
  {
    if cs != [] {
      ReplacedLength(bucket, cs[..|cs| - 1], now);
    }
  }

  lemma IdsReplaced(bucket: seq<Contact>, c: Contact, now: int)
    requires |bucket| <= BUCKET_LENGTH
    ensures Ids(DeleteHeadInsertTail(bucket, c, now)) == (if bucket == [] then [] else Ids(bucket)[1..]) + [c.nodeID]
  {
  }

  /** The ids of the contacts that are still there after the candidates came in. */
  function Staying(bucket: seq<Contact>, cs: seq<Candidate>): seq<string> {
    Ids(bucket)[Min(|cs|, |bucket|)..]
  }

  /** The ids of the candidates that are still there. */
  function Coming(bucket: seq<Contact>, cs: seq<Candidate>): seq<string> {
    Last(CandidateIds(cs), Held(bucket))
  }

  /** The candidates differ from each other and from the contacts that stay. */
  ghost predicate Newcomers(bucket: seq<Contact>, cs: seq<Candidate>) {
    && Distinct(Coming(bucket, cs))
    && forall i, j :: 0 <= i < |Staying(bucket, cs)| && 0 <= j < |Coming(bucket, cs)|
                 ==> Staying(bucket, cs)[i] != Coming(bucket, cs)[j]
  }

  lemma LastOfBoth<T>(s: seq<T>, t: seq<T>, n: nat)
    requires n == if s == [] then 1 else |s|
    ensures Last(s + t, n) == s[Min(|t|, |s|)..] + Last(t, n)
  {
  }

  lemma DistinctBoth(s: seq<string>, t: seq<string>)
    requires Distinct(s)
    ensures Distinct(s + t)
       <==> Distinct(t) && forall i, j :: 0 <= i < |s| && 0 <= j < |t| ==> s[i] != t[j]
  {
    if Distinct(s + t) {
      forall i, j | 0 <= i < |s| && 0 <= j < |t|
        ensures s[i] != t[j]
      {
        assert (s + t)[i] != (s + t)[|s| + j];
      }
      forall i, j | 0 <= i < j < |t|
        ensures t[i] != t[j]
      {
        assert (s + t)[|s| + i] != (s + t)[|s| + j];
      }
    }
  }

  lemma DistinctRest(s: seq<string>, k: nat)
    requires Distinct(s) && k <= |s|
    ensures Distinct(s[k..])
  {
  }

  /** Any number of replacements in a bucket without repeated ids. */
  lemma BucketStaysUnique(bucket: seq<Contact>, cs: seq<Candidate>, now: int)
    requires UniqueIds(bucket) && |bucket| <= BUCKET_LENGTH
    ensures UniqueIds(ReplacedBucket(bucket, cs, now)) <==> Newcomers(bucket, cs)
  {
    hide UniqueIds, Distinct, ReplacedBucket, Last, Ids, CandidateIds;
    UniqueByIds(bucket);
    UniqueByIds(ReplacedBucket(bucket, cs, now));
    ReplacedIds(bucket, cs, now);
    LastOfBoth(Ids(bucket), CandidateIds(cs), Held(bucket));
    DistinctRest(Ids(bucket), Min(|cs|, |bucket|));
    DistinctBoth(Staying(bucket, cs), Coming(bucket, cs));
  }

  /** In every bucket the matured candidates are newcomers. */
  ghost predicate AllNewcomers(self: string, table: seq<seq<Contact>>, files: seq<Entry<Candidate>>, now: int) {
    forall b :: 0 <= b < |table| ==> Newcomers(table[b], Matured(self, files, b, now))
  }

  ghost predicate AllFit(table: seq<seq<Contact>>) {
    forall r :: 0 <= r < |table| ==> |table[r]| <= BUCKET_LENGTH
  }

  lemma ReplacedStaysUnique(self: string, table: seq<seq<Contact>>, files: seq<Entry<Candidate>>, now: int)
    requires AllUnique(table) && AllFit(table) && |table| == NUMBER_OF_BUCKETS && WaitingOk(self, files)
    ensures AllUnique(ReplacedTable(self, table, files, now)) <==> AllNewcomers(self, table, files, now)
  {
    hide UniqueIds, ReplacedTable, ReplacedBucket, Matured, Newcomers, WaitingOk;
    var after := ReplacedTable(self, table, files, now);
    forall b | 0 <= b < |table|
      ensures UniqueIds(after[b]) <==> Newcomers(table[b], Matured(self, files, b, now))
    {
      ReplacedAt(self, table, files, b, now);
      BucketStaysUnique(table[b], Matured(self, files, b, now), now);
    }
  }

  lemma MovedStaysUnique(bucket: seq<Contact>, nodeID: string, ip: string, port: int, now: int)
    requires UniqueIds(bucket) && |bucket| < BUCKET_LENGTH
    ensures UniqueIds(MoveNodeDetails(bucket, nodeID, ip, port, now))
  {
    hide MoveNodeDetails;
    var r := MoveNodeDetails(bucket, nodeID, ip, port, now);
    IdAtMostOnce(bucket, nodeID);
    MovedIsLast(bucket, nodeID, ip, port, now);
    OthersFiltered(bucket, nodeID);
    var front := Filter(bucket, Misses(HasId(nodeID)));
    FilterWithin(bucket, Misses(HasId(nodeID)));
    WithinPairwise(front, bucket, OtherIds());
    FilterMembers(bucket, Misses(HasId(nodeID)));
    UniqueAppend(front, r, nodeID);
  }

  lemma IdAtMostOnce(bucket: seq<Contact>, nodeID: string)
    requires UniqueIds(bucket)
    ensures AtMostOne(bucket, HasId(nodeID))
  {
    forall i, j | 0 <= i < j < |bucket|
      ensures !(HasId(nodeID)(bucket[i]) && HasId(nodeID)(bucket[j]))
    {
      assert OtherIds()(bucket[i], bucket[j]);
    }
  }

  lemma UniqueAppend(front: seq<Contact>, r: seq<Contact>, nodeID: string)
    requires UniqueIds(front) && r != [] && r[..|r| - 1] == front && r[|r| - 1].nodeID == nodeID
    requires forall c :: c in front ==> c.nodeID != nodeID
    ensures UniqueIds(r)
  {
    forall i, j | 0 <= i < j < |r|
      ensures OtherIds()(r[i], r[j])
    {
      assert r[i] == front[i] && front[i] in front;
      if j < |front| {
        assert OtherIds()(front[i], front[j]);
      }
    }
  }

  /** The refresh and the sender never repeat an id. */
  lemma PreparedStaysUnique(self: string, table: seq<seq<Contact>>, sender: Sender, now: int)
    requires AllUnique(table)
    ensures AllUnique(Prepared(self, table, sender, now))
  {
    hide UniqueIds, Walked, MoveNodeDetails, BucketNo;
    var t := RefreshedTable(table, now);
    forall b | 0 <= b < |t|
      ensures UniqueIds(t[b])
    {
      WalkedStaysUnique(table[b], 0, now);
    }
    if sender.Peer? {
      var b := BucketNo(self, sender.nodeID);
      if 0 <= b < |t| && |t[b]| < BUCKET_LENGTH {
        MovedStaysUnique(t[b], sender.nodeID, sender.ip, sender.port, now);
      }
    }
  }

  /** After a maintenance step the ids of every bucket are distinct if and only if, of the candidates whose time
      is up, those that stay in their bucket are distinct and new to the contacts that stay there. */
  lemma MaintainedStaysUnique(self: string, table: seq<seq<Contact>>, files: seq<Entry<Candidate>>, sender: Sender,
                              now: int)
    requires AllUnique(table) && |table| == NUMBER_OF_BUCKETS && AllFit(Prepared(self, table, sender, now))
    requires WaitingOk(self, MaintainedWaiting(self, table, files, sender, now))
    ensures AllUnique(MaintainedTable(self, table, files, sender, now))
       <==> AllNewcomers(self, Prepared(self, table, sender, now), MaintainedWaiting(self, table, files, sender, now), now)
  {
    hide AllUnique, AllNewcomers, AllFit, WaitingOk, Prepared, MaintainedWaiting, ReplacedTable;
    PreparedStaysUnique(self, table, sender, now);
    ReplacedStaysUnique(self, Prepared(self, table, sender, now), MaintainedWaiting(self, table, files, sender, now), now);
  }

  /** A waiting entry is not used up: a later maintenance step inserts its candidate once more, and when the bucket
      has not been refreshed in between the candidate is there twice. */
  lemma WaitingIsNotConsumed(self: string, table: seq<seq<Contact>>, e: Entry<Candidate>, now: int, later: int)
    requires SameBucket(self, e.key, e.value.nodeID) && |table| == NUMBER_OF_BUCKETS
    requires GoodBucket(self, table[BucketOf(self, e.key)], BucketOf(self, e.key)) && Due(e, now) && now <= later
    requires var once := MaintainedTable(self, table, [e], Nobody, now)[BucketOf(self, e.key)];
             |once| >= 2 && !Stale(once[0], later)
    ensures var once := MaintainedTable(self, table, [e], Nobody, now);
            var twice := MaintainedTable(self, once, [e], Nobody, later);
            !UniqueIds(twice[BucketOf(self, e.key)])
  {
    hide BucketOf, HexId, ReplacedTable, Walked, GoodBucket, Stale;
    var b := BucketOf(self, e.key);
    var once := MaintainedTable(self, table, [e], Nobody, now);
    WalkedGood(self, table[b], 0, now, b);
    ReplacedOne(self, RefreshedTable(table, now), e, now);
    WalkEnd(once[b], 0, later);
    ReplacedOne(self, RefreshedTable(once, later), e, later);
    TwiceAtTheEnd(self, Walked(table[b], 0, now), once[b], e.value, b, now, later);
  }

  lemma TwiceAtTheEnd(self: string, first: seq<Contact>, once: seq<Contact>, c: Candidate, b: int, now: int, later: int)
    requires GoodBucket(self, first, b) && once == DeleteHeadInsertTail(first, WaitingNode(c, now), now) && |once| >= 2
    ensures !UniqueIds(DeleteHeadInsertTail(once, WaitingNode(c, later), later))
  {
    var twice := DeleteHeadInsertTail(once, WaitingNode(c, later), later);
    var n := |twice|;
    assert !OtherIds()(twice[n - 2], twice[n - 1]);
  }
}
