/** Runs from a new node that show what the invariants do not promise. */
module Runs {
  import opened Common
  import opened Lists
  import opened XorMetrics
  import opened Node
  import opened Routing
  import opened StoreFile
  import opened Maintenance
  import opened Machine
  import opened SmallIds

  /** A table with nothing outside bucket 3. */
  function Only(bucket: seq<Contact>): (t: seq<seq<Contact>>)
    ensures |t| == NUMBER_OF_BUCKETS
  {
    seq(NUMBER_OF_BUCKETS, r => if r == 3 then bucket else [])
  }

  predicate Young(bucket: seq<Contact>, now: int) {
    bucket == [] || !Stale(bucket[0], now)
  }

  /** Nothing is old enough to be refreshed. */
  lemma NothingRefreshed(bucket: seq<Contact>, now: int)
    requires Young(bucket, now)
    ensures RefreshedTable(Only(bucket), now) == Only(bucket)
  {
    var t := Only(bucket);
    forall r | 0 <= r < |t|
      ensures Walked(t[r], 0, now) == t[r]
    {
      WalkEnd(t[r], 0, now);
    }
  }

  function Greeting(d: char): Sender {
    Peer(Id('0', d), "", 0)
  }

  lemma OnlyWith(bucket: seq<Contact>, other: seq<Contact>)
    ensures Only(bucket)[3] == bucket && Only(bucket)[3 := other] == Only(other)
  {
  }

  /** A newcomer with room. */
  lemma Greeted(ds: string, d: char)
    requires d !in ds && |ds| < BUCKET_LENGTH && d in "89ABCDEF"
    ensures MaintainedTable(SELF, Only(AllMet(ds)), [], Greeting(d), 0) == Only(AllMet(ds + [d]))
    ensures MaintainedWaiting(SELF, Only(AllMet(ds)), [], Greeting(d), 0) == []
  {
    hide Id, SELF, BucketOf, HexId, AllMet, MoveNodeDetails, RefreshedTable, Only, FirstWith;
    assert Young(AllMet(ds), 0) by { MetYoung(ds, 0); }
    NothingRefreshed(AllMet(ds), 0);
    InThree(d);
    GreetedBucket(ds, d);
    OnlyWith(AllMet(ds), AllMet(ds + [d]));
    ReplacedNone(SELF, Only(AllMet(ds + [d])), [], 0);
  }

  lemma MetYoung(ds: string, now: int)
    requires now <= TIMEOUT_REFRESH_DATA
    ensures Young(AllMet(ds), now)
  {
  }

  /** Who waits for the contact that was met first. */
  function Waits(d: char, head: char): Entry<Candidate> {
    Entry(Id('0', head), Candidate("", 0, Id('0', d)), 0)
  }

  lemma WaitsInBucket(d: char, head: char)
    requires d in "89ABCDEF" && head in "89ABCDEF"
    ensures SameBucket(SELF, Waits(d, head).key, Waits(d, head).value.nodeID) && BucketOf(SELF, Waits(d, head).key) == 3
  {
    hide Id, SELF, BucketOf, HexId;
    InThree(d);
    InThree(head);
  }

  /** A newcomer without room. */
  lemma TurnedAway(ds: string, d: char)
    requires d !in ds && |ds| == BUCKET_LENGTH && d in "89ABCDEF" && ds[0] in "89ABCDEF"
    ensures MaintainedTable(SELF, Only(AllMet(ds)), [], Greeting(d), 0) == Only(AllMet(ds))
    ensures MaintainedWaiting(SELF, Only(AllMet(ds)), [], Greeting(d), 0) == [Waits(d, ds[0])]
  {
    hide Id, SELF, BucketOf, HexId, MoveNodeDetails, RefreshedTable, Only, FirstWith, ReplacedTable;
    MetYoung(ds, 0);
    NothingRefreshed(AllMet(ds), 0);
    InThree(d);
    NotMet(ds, d);
    OnlyWith(AllMet(ds), AllMet(ds));
    WaitsInBucket(d, ds[0]);
    NoneFiltered(AllMet(ds)[0].nodeID, Waits(d, ds[0]));
    ReplacedOne(SELF, Only(AllMet(ds)), Waits(d, ds[0]), 0);
  }

  lemma NoneFiltered(key: string, e: Entry<Candidate>)
    ensures Filter([], Misses(HasKey(key))) + [e] == [e]
  {
  }

  /** Nobody new, and the time of the waiting contact is up. */
  lemma TakenIn(bucket: seq<Contact>, d: char, head: char, now: int)
    requires bucket != [] && |bucket| <= BUCKET_LENGTH && Young(bucket, now) && now > TIMEOUT_PING
    requires d in "89ABCDEF" && head in "89ABCDEF"
    ensures MaintainedTable(SELF, Only(bucket), [Waits(d, head)], Nobody, now) == Only(bucket[1..] + [Met(d, now)])
    ensures MaintainedWaiting(SELF, Only(bucket), [Waits(d, head)], Nobody, now) == [Waits(d, head)]
  {
    hide Id, SELF, BucketOf, HexId, RefreshedTable, Only, ReplacedTable;
    NothingRefreshed(bucket, now);
    WaitsInBucket(d, head);
    ReplacedOne(SELF, Only(bucket), Waits(d, head), now);
    OnlyWith(bucket, bucket[1..] + [Met(d, now)]);
  }

  /** Six contacts fill a bucket, a seventh waits, and two maintenance steps after its time is up the seventh is
      in the bucket twice: one waiting entry is enough, because it is never used up. */
  method RepeatedContact() returns (m: Machine)
    ensures m.Valid() && !AllUnique(m.routes.table[..])
  {
    hide Machine.RoutesOk, Machine.ListsOk, Machine.TokensOk, MaintainedTable, MaintainedWaiting, MaintainedPings, AllUnique,
      AllNewcomers, Prepared, Only, AllMet, Id, SELF, HexId, HexValue, Greeting, Waits;
    var ds := "89ABCD";
    SelfId();
    m := new Machine(SELF, 0);
    EmptyTable(m.routes.table[..]);
    var i := 0;
    while i < |ds|
      invariant 0 <= i <= |ds| && fresh(m) && fresh(m.routes) && fresh(m.routes.table)
      invariant fresh(m.waiting) && fresh(m.tokenRec) && fresh(m.values)
      invariant m.Valid() && m.self == SELF && m.clock == 0
      invariant m.routes.table[..] == Only(AllMet(ds[..i])) && m.waiting.files == []
    {
      GreetedNext(ds, i);
      var pings := m.Maintenance(Greeting(ds[i]), 0);
      i := i + 1;
    }
    assert ds[..i] == ds;
    IsPeerGreeting('E');
    TurnedAway(ds, 'E');
    var p := m.Maintenance(Greeting('E'), 0);
    FirstTime();
    p := m.Maintenance(Nobody, 3);
    SecondTime();
    p := m.Maintenance(Nobody, 4);
  }

  lemma SelfId()
    ensures HexId(SELF) && |SELF| == 32
  {
    ZeroIsADigit();
    IdValue('0', '0');
  }

  lemma EmptyTable(t: seq<seq<Contact>>)
    requires |t| == NUMBER_OF_BUCKETS && forall r :: 0 <= r < |t| ==> t[r] == []
    ensures t == Only(AllMet("89ABCD"[..0]))
  {
  }

  lemma IsPeerGreeting(d: char)
    requires d in "89ABCDEF"
    ensures Greeting(d).Peer? && IsPeer(SELF, Greeting(d).nodeID)
  {
    hide HexValue, HexId, Id, SELF, BucketOf;
    InThree(d);
  }

  lemma GreetedNext(ds: string, i: nat)
    requires ds == "89ABCD" && i < |ds|
    ensures Greeting(ds[i]).Peer? && IsPeer(SELF, Greeting(ds[i]).nodeID)
    ensures MaintainedTable(SELF, Only(AllMet(ds[..i])), [], Greeting(ds[i]), 0) == Only(AllMet(ds[..i + 1]))
    ensures MaintainedWaiting(SELF, Only(AllMet(ds[..i])), [], Greeting(ds[i]), 0) == []
  {
    hide MaintainedTable, MaintainedWaiting, Only, AllMet, Id, SELF, Greeting, HexId, HexValue;
    assert ds[..i + 1] == ds[..i] + [ds[i]];
    IsPeerGreeting(ds[i]);
    Greeted(ds[..i], ds[i]);
  }

  lemma FirstTime()
    ensures MaintainedTable(SELF, Only(AllMet("89ABCD")), [Waits('E', '8')], Nobody, 3)
         == Only(AllMet("9ABCD") + [Met('E', 3)])
    ensures MaintainedWaiting(SELF, Only(AllMet("89ABCD")), [Waits('E', '8')], Nobody, 3) == [Waits('E', '8')]
  {
    hide MaintainedTable, MaintainedWaiting, Only, Id, SELF, Waits;
    MetYoung("89ABCD", 3);
    TakenIn(AllMet("89ABCD"), 'E', '8', 3);
    assert AllMet("89ABCD")[1..] == AllMet("9ABCD");
  }

  lemma SecondTime()
    ensures !AllUnique(MaintainedTable(SELF, Only(AllMet("9ABCD") + [Met('E', 3)]), [Waits('E', '8')], Nobody, 4))
  {
    hide MaintainedTable, MaintainedWaiting, Only, Id, SELF, Waits;
    var bucket := AllMet("9ABCD") + [Met('E', 3)];
    assert bucket[0] == Met('9', 0);
    TakenIn(bucket, 'E', '8', 4);
    var after := bucket[1..] + [Met('E', 4)];
    assert after[4] == Met('E', 3) && after[5] == Met('E', 4);
    assert !OtherIds()(after[4], after[5]);
    OnlyWith(after, after);
  }
}
