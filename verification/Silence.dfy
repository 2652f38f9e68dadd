/** A run in which the only contact never answers. */
module Silence {
  import opened Common
  import opened Lists
  import opened XorMetrics
  import opened Node
  import opened Routing
  import opened StoreFile
  import opened Maintenance
  import opened Machine
  import opened SmallIds
  import opened Runs

  function Visitor(): Sender {
    Peer(Id('0', '8'), "10.0.0.1", 4000)
  }

  /** The visitor, pinged so many times without an answer. */
  function Pinged(count: int, time: int): Contact {
    Contact("10.0.0.1", 4000, count, Id('0', '8'), time)
  }

  lemma WalkedEmpty(now: int)
    ensures Walked([], 0, now) == [] && WalkPings([], 0, now) == []
  {
    WalkEnd([], 0, now);
  }

  /** With nobody else there, maintenance is the refresh of that bucket. */
  lemma OnlyRefreshed(bucket: seq<Contact>, now: int)
    ensures MaintainedTable(SELF, Only(bucket), [], Nobody, now) == Only(Walked(bucket, 0, now))
    ensures MaintainedWaiting(SELF, Only(bucket), [], Nobody, now) == []
    ensures MaintainedPings(SELF, Only(bucket), Nobody, now) == WalkPings(bucket, 0, now)
  {
    hide Walked, WalkPings;
    WalkedEmpty(now);
    assert RefreshedTable(Only(bucket), now) == Only(Walked(bucket, 0, now));
    OnlyPings(bucket, NUMBER_OF_BUCKETS, now);
  }

  lemma {:induction false} OnlyPings(bucket: seq<Contact>, n: nat, now: int)
    requires n <= NUMBER_OF_BUCKETS
    ensures RefreshPings(Only(bucket), n, now) == if n <= 3 then [] else WalkPings(bucket, 0, now)
  {
    hide WalkPings, Walked;
    if n > 0 {
      WalkedEmpty(now);
      OnlyPings(bucket, n - 1, now);
      assert Only(bucket)[n - 1] == if n - 1 == 3 then bucket else [];
    }
  }

  /** One look at the visitor. */
  lemma Look(count: int, time: int, now: int)
    ensures now - time <= 300 ==>
              && Walked([Pinged(count, time)], 0, now) == [Pinged(count, time)]
              && WalkPings([Pinged(count, time)], 0, now) == []
    ensures now - time > 300 && count != 2 ==>
              && Walked([Pinged(count, time)], 0, now) == [Pinged(count + 1, time + 2)]
              && WalkPings([Pinged(count, time)], 0, now) == [("10.0.0.1", 4000)]
    ensures now - time > 300 && count == 2 ==>
              Walked([Pinged(count, time)], 0, now) == [] && WalkPings([Pinged(count, time)], 0, now) == []
  {
    hide Id;
    var b := [Pinged(count, time)];
    if now - time <= 300 {
      WalkEnd(b, 0, now);
    } else {
      WalkOne(b, 0, now);
      if count == 2 {
        WalkedEmpty(now);
      } else {
        assert b[0 := Touched(b[0])] == [Pinged(count + 1, time + 2)];
        WalkEnd([Pinged(count + 1, time + 2)], 1, now);
      }
    }
  }

  lemma VisitorEnters()
    ensures Visitor().Peer? && IsPeer(SELF, Visitor().nodeID)
    ensures MaintainedTable(SELF, Only([]), [], Visitor(), 0) == Only([Pinged(0, 0)])
    ensures MaintainedWaiting(SELF, Only([]), [], Visitor(), 0) == []
  {
    hide Id, SELF, BucketOf, HexId, HexValue, RefreshedTable, Only;
    NothingRefreshed([], 0);
    InThree('8');
    OnlyWith([], [Pinged(0, 0)]);
    ReplacedNone(SELF, Only([Pinged(0, 0)]), [], 0);
    assert MoveNodeDetails([], Id('0', '8'), "10.0.0.1", 4000, 0) == [Pinged(0, 0)];
  }

  lemma NobodyThere(t: seq<seq<Contact>>)
    requires |t| == NUMBER_OF_BUCKETS
    ensures (forall r :: 0 <= r < |t| ==> t[r] == []) <==> t == Only([])
  {
    if t == Only([]) {
      forall r | 0 <= r < |t|
        ensures t[r] == []
      {
        assert Only([])[r] == [];
      }
    }
  }

  /** A contact that was met at time 0 and never answers is pinged when 300 seconds are over, once more two seconds
      later, and is gone another two seconds later, without a ping. */
  method SilentContact() returns (m: Machine, pings: seq<seq<(string, int)>>)
    ensures m.Valid() && forall r :: 0 <= r < NUMBER_OF_BUCKETS ==> m.routes.table[r] == []
    ensures pings == [[], [("10.0.0.1", 4000)], [], [("10.0.0.1", 4000)], [], []]
  {
    hide Machine.RoutesOk, Machine.ListsOk, Machine.TokensOk, ValuesFollow, MaintainedTable, MaintainedWaiting,
      MaintainedPings, AllUnique, AllNewcomers, Prepared, Only, Id, SELF, HexId, HexValue, Visitor, Pinged, Walked, WalkPings;
    SelfId();
    VisitorEnters();
    m := new Machine(SELF, 0);
    NobodyThere(m.routes.table[..]);
    var p := m.Maintenance(Visitor(), 0);
    OnlyRefreshed([Pinged(0, 0)], 300);
    OnlyRefreshed([Pinged(0, 0)], 301);
    OnlyRefreshed([Pinged(1, 2)], 302);
    OnlyRefreshed([Pinged(1, 2)], 303);
    OnlyRefreshed([Pinged(2, 4)], 304);
    OnlyRefreshed([Pinged(2, 4)], 305);
    Look(0, 0, 300);
    Look(0, 0, 301);
    Look(1, 2, 302);
    Look(1, 2, 303);
    Look(2, 4, 304);
    Look(2, 4, 305);
    var p0 := m.Maintenance(Nobody, 300);
    var p1 := m.Maintenance(Nobody, 301);
    var p2 := m.Maintenance(Nobody, 302);
    var p3 := m.Maintenance(Nobody, 303);
    var p4 := m.Maintenance(Nobody, 304);
    var p5 := m.Maintenance(Nobody, 305);
    pings := [p0, p1, p2, p3, p4, p5];
    NobodyThere(m.routes.table[..]);
  }
}
