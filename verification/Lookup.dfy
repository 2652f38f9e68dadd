/** Iterative lookups: lists ordered by distance key, and one round on an answer. */
module Lookup {
  import opened Common
  import opened Lists
  import opened Node

  const ALPHA := 2

  // ----- insert_acc_distance

  /** The part of the list behind an element that goes before the new one. */
  function InsertAfter(rest: seq<Contact>, node: Contact, key: string -> int): seq<Contact> {
    if rest == [] then [node]
    else if key(node.nodeID) < key(rest[0].nodeID) then [node] + rest
    else if key(node.nodeID) == key(rest[0].nodeID) then rest
    else [rest[0]] + InsertAfter(rest[1..], node, key)
  }

  function InsertAcc(bucket: seq<Contact>, node: Contact, key: string -> int): seq<Contact> {
    if |bucket| > 5 then bucket
    else if bucket == [] || key(node.nodeID) < key(bucket[0].nodeID) then [node] + bucket
    else [bucket[0]] + InsertAfter(bucket[1..], node, key)
  }

  /** The loop goes on after inserting; it stops because the next comparison is with the new node itself. */
  method InsertAccDistance(bucket: seq<Contact>, node: Contact, key: string -> int) returns (l: seq<Contact>)
    ensures l == InsertAcc(bucket, node, key)
  {
    l := bucket;
    var toInsert := key(node.nodeID);
    if |bucket| > 5 {
      return;
    }
    if bucket == [] || toInsert < key(bucket[0].nodeID) {
      return [node] + bucket;
    }
    var temp := 0;
    ghost var inserted := false;
    while temp + 1 < |l|
      invariant 0 <= temp < |l|
      invariant inserted ==> l == InsertAcc(bucket, node, key) && temp + 1 < |l| && l[temp + 1] == node
      invariant !inserted ==> l == bucket && InsertAcc(bucket, node, key) == l[..temp + 1] + InsertAfter(l[temp + 1..], node, key)
      decreases !inserted, |l| - temp
    {
      var toCompare := key(l[temp + 1].nodeID);
      if toInsert <= toCompare {
        if toInsert == toCompare {
          FoundSame(l, temp, node, key);
          return;
        } else {
          InsertHere(l, temp, node, key);
          l := l[..temp + 1] + [node] + l[temp + 1..];
          inserted := true;
        }
      } else {
        GoOn(l, temp, node, key);
        temp := temp + 1;
      }
    }
    assert l[..temp + 1] == l && l[temp + 1..] == [];
    l := l + [node];
  }

  lemma FoundSame(l: seq<Contact>, k: nat, node: Contact, key: string -> int)
    requires k + 1 < |l| && key(node.nodeID) == key(l[k + 1].nodeID)
    ensures l[..k + 1] + InsertAfter(l[k + 1..], node, key) == l
  {
    assert l[k + 1..][0] == l[k + 1];
  }

  lemma InsertHere(l: seq<Contact>, k: nat, node: Contact, key: string -> int)
    requires k + 1 < |l| && key(node.nodeID) < key(l[k + 1].nodeID)
    ensures l[..k + 1] + InsertAfter(l[k + 1..], node, key) == l[..k + 1] + [node] + l[k + 1..]
  {
    assert l[k + 1..][0] == l[k + 1];
  }

  lemma GoOn(l: seq<Contact>, k: nat, node: Contact, key: string -> int)
    requires k + 1 < |l| && key(l[k + 1].nodeID) < key(node.nodeID)
    ensures l[..k + 1] + InsertAfter(l[k + 1..], node, key) == l[..k + 2] + InsertAfter(l[k + 2..], node, key)
  {
    var rest := l[k + 1..];
    assert rest[0] == l[k + 1] && rest[1..] == l[k + 2..];
    assert l[..k + 2] == l[..k + 1] + [l[k + 1]];
  }

  function Nearer(key: string -> int): (Contact, Contact) -> bool {
    (c: Contact, d: Contact) => key(c.nodeID) <= key(d.nodeID)
  }

  ghost predicate Sorted(l: seq<Contact>, key: string -> int) {
    Pairwise(l, Nearer(key))
  }

  /** The new node goes in, or the list stays as it is: no other change. */
  ghost predicate OneMore(l: seq<Contact>, r: seq<Contact>, node: Contact) {
    r == l || exists k :: 0 <= k <= |l| && r == l[..k] + [node] + l[k..]
  }

  function AtLeast(key: string -> int, bound: int): Contact -> bool {
    (c: Contact) => bound <= key(c.nodeID)
  }

  lemma {:induction false} InsertAfterPlace(rest: seq<Contact>, node: Contact, key: string -> int) returns (k: nat)
    ensures k <= |rest|
    ensures InsertAfter(rest, node, key) == rest || InsertAfter(rest, node, key) == rest[..k] + [node] + rest[k..]
  {
    if rest == [] || key(node.nodeID) <= key(rest[0].nodeID) {
      k := 0;
      assert rest[..0] + [node] + rest[0..] == [node] + rest;
    } else {
      var j := InsertAfterPlace(rest[1..], node, key);
      k := j + 1;
      assert [rest[0]] + (rest[1..][..j] + [node] + rest[1..][j..]) == rest[..k] + [node] + rest[k..];
    }
  }

  lemma InsertAccPlace(bucket: seq<Contact>, node: Contact, key: string -> int)
    ensures OneMore(bucket, InsertAcc(bucket, node, key), node)
  {
    var r := InsertAcc(bucket, node, key);
    if |bucket| <= 5 {
      if bucket == [] || key(node.nodeID) < key(bucket[0].nodeID) {
        assert r == bucket[..0] + [node] + bucket[0..];
      } else {
        var j := InsertAfterPlace(bucket[1..], node, key);
        if r != bucket {
          assert r == bucket[..j + 1] + [node] + bucket[j + 1..] by {
            assert [bucket[0]] + (bucket[1..][..j] + [node] + bucket[1..][j..])
                == bucket[..j + 1] + [node] + bucket[j + 1..];
          }
        }
      }
    }
  }

  lemma OneMoreAll(l: seq<Contact>, r: seq<Contact>, node: Contact, p: Contact -> bool)
    requires OneMore(l, r, node) && All(l, p) && p(node)
    ensures All(r, p)
  {
    if r != l {
      var k :| 0 <= k <= |l| && r == l[..k] + [node] + l[k..];
      forall i | 0 <= i < |r|
        ensures p(r[i])
      {
        assert r[i] == if i < k then l[i] else if i == k then node else l[i - 1];
      }
    }
  }

  lemma {:induction false} InsertAfterSorted(rest: seq<Contact>, node: Contact, key: string -> int, bound: int)
    requires Sorted(rest, key) && All(rest, AtLeast(key, bound)) && bound <= key(node.nodeID)
    ensures Sorted(InsertAfter(rest, node, key), key) && All(InsertAfter(rest, node, key), AtLeast(key, bound))
  {
    if rest != [] {
      HeadPairs(rest, Nearer(key));
      TailPairwise(rest, Nearer(key));
      var k, h := key(node.nodeID), key(rest[0].nodeID);
      AllSame(rest[1..], x => Nearer(key)(rest[0], x), AtLeast(key, h));
      if k < h {
        HeadLeast(rest, key);
        Higher(rest, key, h, k);
        AllSame(rest, AtLeast(key, k), x => Nearer(key)(node, x));
        assert ([node] + rest)[1..] == rest;
        ConsPairwise([node] + rest, Nearer(key));
        ConsAll([node] + rest, AtLeast(key, bound));
      } else if k > h {
        InsertAfterSorted(rest[1..], node, key, h);
        var r := [rest[0]] + InsertAfter(rest[1..], node, key);
        assert r[1..] == InsertAfter(rest[1..], node, key) && r[0] == rest[0];
        AllSame(r[1..], AtLeast(key, h), x => Nearer(key)(r[0], x));
        ConsPairwise(r, Nearer(key));
        assert AtLeast(key, bound)(rest[0]);
        Higher(r[1..], key, h, bound);
        ConsAll(r, AtLeast(key, bound));
      }
    }
  }

  lemma AllSame(s: seq<Contact>, p: Contact -> bool, q: Contact -> bool)
    requires All(s, p) && forall x :: p(x) ==> q(x)
    ensures All(s, q)
  {
  }

  lemma Higher(s: seq<Contact>, key: string -> int, h: int, bound: int)
    requires All(s, AtLeast(key, h)) && bound <= h
    ensures All(s, AtLeast(key, bound))
  {
    AllSame(s, AtLeast(key, h), AtLeast(key, bound));
  }

  lemma HeadLeast(s: seq<Contact>, key: string -> int)
    requires s != [] && Sorted(s, key)
    ensures All(s, AtLeast(key, key(s[0].nodeID)))
  {
    forall i | 0 <= i < |s|
      ensures AtLeast(key, key(s[0].nodeID))(s[i])
    {
      if i > 0 {
        assert Nearer(key)(s[0], s[i]);
      }
    }
  }

  lemma InsertAccLength(bucket: seq<Contact>, node: Contact, key: string -> int)
    requires |bucket| <= BUCKET_LENGTH
    ensures |InsertAcc(bucket, node, key)| <= BUCKET_LENGTH
  {
    InsertAccPlace(bucket, node, key);
  }

  /** Order is kept. */
  lemma InsertAccKeeps(bucket: seq<Contact>, node: Contact, key: string -> int)
    requires Sorted(bucket, key)
    ensures Sorted(InsertAcc(bucket, node, key), key)
  {
    if |bucket| <= 5 && bucket != [] {
      HeadLeast(bucket, key);
      var k, h := key(node.nodeID), key(bucket[0].nodeID);
      if k < h {
        Higher(bucket, key, h, k);
        AllSame(bucket, AtLeast(key, k), x => Nearer(key)(node, x));
        assert ([node] + bucket)[1..] == bucket;
        ConsPairwise([node] + bucket, Nearer(key));
      } else {
        TailPairwise(bucket, Nearer(key));
        WithinAll(bucket[1..], bucket, AtLeast(key, h)) by { TailWithin(bucket); }
        InsertAfterSorted(bucket[1..], node, key, h);
        var r := [bucket[0]] + InsertAfter(bucket[1..], node, key);
        assert r[1..] == InsertAfter(bucket[1..], node, key) && r[0] == bucket[0];
        AllSame(r[1..], AtLeast(key, h), x => Nearer(key)(r[0], x));
        ConsPairwise(r, Nearer(key));
      }
    }
  }

  lemma TailWithin(s: seq<Contact>)
    requires s != []
    ensures Within(s[1..], s)
  {
    WithinSelf(s[1..]);
  }

  function OtherKey(key: string -> int, k: int): Contact -> bool {
    (c: Contact) => key(c.nodeID) != k
  }

  lemma TailAll(s: seq<Contact>, p: Contact -> bool)
    requires s != []
    ensures All(s, p) ==> All(s[1..], p)
  {
  }

  lemma {:induction false} InsertAfterIff(rest: seq<Contact>, node: Contact, key: string -> int)
    requires Sorted(rest, key)
    ensures All(rest, OtherKey(key, key(node.nodeID))) ==> |InsertAfter(rest, node, key)| == |rest| + 1
    ensures !All(rest, OtherKey(key, key(node.nodeID))) ==> InsertAfter(rest, node, key) == rest
  {
    if rest != [] {
      var k, h := key(node.nodeID), key(rest[0].nodeID);
      if k < h {
        HeadLeast(rest, key);
        AllSame(rest, AtLeast(key, h), OtherKey(key, k));
      } else if k == h {
        assert !OtherKey(key, k)(rest[0]);
      } else {
        TailPairwise(rest, Nearer(key));
        InsertAfterIff(rest[1..], node, key);
        if All(rest[1..], OtherKey(key, k)) {
          ConsAll(rest, OtherKey(key, k));
        }
        TailAll(rest, OtherKey(key, k));
      }
    }
  }

  /** The node goes in exactly when there is room and no element behind the head has its distance key. */
  lemma InsertedIff(bucket: seq<Contact>, node: Contact, key: string -> int)
    requires Sorted(bucket, key)
    ensures InsertAcc(bucket, node, key) != bucket
            <==> |bucket| < BUCKET_LENGTH && (bucket != [] ==> All(bucket[1..], OtherKey(key, key(node.nodeID))))
  {
    if bucket != [] {
      var k, h := key(node.nodeID), key(bucket[0].nodeID);
      TailPairwise(bucket, Nearer(key));
      InsertAfterIff(bucket[1..], node, key);
      HeadLeast(bucket, key);
      WithinSelf(bucket[1..]);
      WithinAll(bucket[1..], bucket, AtLeast(key, h));
      if k < h {
        AllSame(bucket[1..], AtLeast(key, h), OtherKey(key, k));
      }
      assert bucket == [bucket[0]] + bucket[1..];
    }
  }

  function Below(key: string -> int, k: int): Contact -> bool {
    (c: Contact) => key(c.nodeID) < k
  }

  lemma {:induction false} InsertAfterWhere(front: seq<Contact>, back: seq<Contact>, node: Contact, key: string -> int)
    requires All(front, Below(key, key(node.nodeID))) && (back != [] ==> key(back[0].nodeID) >= key(node.nodeID))
    ensures InsertAfter(front + back, node, key)
         == front + (if back != [] && key(back[0].nodeID) == key(node.nodeID) then back else [node] + back)
    decreases |front|
  {
    var l := front + back;
    if front == [] {
      assert l == back;
    } else {
      assert Below(key, key(node.nodeID))(front[0]);
      assert l[0] == front[0] && l[1..] == front[1..] + back;
      TailAll(front, Below(key, key(node.nodeID)));
      InsertAfterWhere(front[1..], back, node, key);
    }
  }

  /** In any list, ordered or not: before the head if the key is less than the head's, and otherwise before the first
      later element whose key is not less, or last; an equal key there leaves the list as it is. */
  lemma InsertAccWhere(head: Contact, front: seq<Contact>, back: seq<Contact>, node: Contact, key: string -> int)
    requires |front| + |back| < BUCKET_LENGTH - 1
    requires All(front, Below(key, key(node.nodeID))) && (back != [] ==> key(back[0].nodeID) >= key(node.nodeID))
    ensures InsertAcc([head] + (front + back), node, key)
         == if key(node.nodeID) < key(head.nodeID) then [node] + ([head] + (front + back))
            else [head] + (front + (if back != [] && key(back[0].nodeID) == key(node.nodeID) then back else [node] + back))
  {
    hide InsertAfter;
    var l := [head] + (front + back);
    assert l[0] == head && l[1..] == front + back;
    InsertAfterWhere(front, back, node, key);
  }

  // ----- The two parts of a query list

  function Open(): Contact -> bool { (c: Contact) => c.count < 2 }
  function Done(): Contact -> bool { (c: Contact) => c.count == 2 }

  /** How many unconfirmed contacts lead the list. */
  function Lead(l: seq<Contact>): (n: nat)
    ensures n <= |l|
  {
    if l == [] || l[0].count >= 2 then 0 else 1 + Lead(l[1..])
  }

  function CurrentPart(l: seq<Contact>): seq<Contact> { l[..Lead(l)] }
  function ResultPart(l: seq<Contact>): seq<Contact> { l[Lead(l)..] }

  ghost predicate TwoParts(cur: seq<Contact>, res: seq<Contact>, key: string -> int) {
    && |cur| <= BUCKET_LENGTH && |res| <= BUCKET_LENGTH
    && All(cur, Open()) && All(res, Done()) && Sorted(res, key)
  }

  /** At most six unconfirmed contacts, then at most six confirmed ones in order of distance. */
  ghost predicate Partitioned(l: seq<Contact>, key: string -> int) {
    TwoParts(CurrentPart(l), ResultPart(l), key)
  }

  lemma {:induction false} LeadOfJoin(cur: seq<Contact>, res: seq<Contact>)
    requires All(cur, Open()) && All(res, Done())
    ensures Lead(cur + res) == |cur|
    ensures CurrentPart(cur + res) == cur && ResultPart(cur + res) == res
  {
    if cur == [] {
      assert cur + res == res;
      if res != [] {
        assert Done()(res[0]);
      }
    } else {
      assert Open()(cur[0]);
      assert (cur + res)[1..] == cur[1..] + res;
      forall i | 0 <= i < |cur[1..]|
        ensures Open()(cur[1..][i])
      {
        assert Open()(cur[i + 1]);
      }
      LeadOfJoin(cur[1..], res);
    }
  }

  /** The walk that looks one element ahead. */
  method SplitList(l: seq<Contact>) returns (cur: seq<Contact>, res: seq<Contact>)
    ensures cur + res == l
    ensures All(ResultPart(l), Done()) ==> cur == CurrentPart(l) && res == ResultPart(l)
  {
    cur, res := l, [];
    if l != [] {
      var loopNode := 0;
      while loopNode + 1 < |l| && l[loopNode + 1].count < 2
        invariant 0 <= loopNode < |l|
        invariant forall i :: 0 < i <= loopNode ==> l[i].count < 2
      {
        loopNode := loopNode + 1;
      }
      if l[loopNode].count < 2 {
        cur, res := l[..loopNode + 1], l[loopNode + 1..];
        LeadIs(l, loopNode + 1);
      } else {
        cur, res := [], l;
        assert loopNode == 0;
      }
    }
  }

  lemma {:induction false} LeadExactly(l: seq<Contact>, n: nat)
    requires n <= |l| && (forall i :: 0 <= i < n ==> l[i].count < 2) && (n < |l| ==> l[n].count >= 2)
    ensures Lead(l) == n
  {
    if n > 0 {
      LeadExactly(l[1..], n - 1);
    }
  }

  lemma NothingOpen(l: seq<Contact>, k: nat)
    requires k < |l|
    ensures l[0].count >= 2 && All(ResultPart(l), Done()) ==> l[k].count == 2
  {
    if l[0].count >= 2 && All(ResultPart(l), Done()) {
      assert ResultPart(l) == l;
      assert Done()(l[k]);
    }
  }

  lemma LeadIs(l: seq<Contact>, n: nat)
    requires 0 < n <= |l| && (forall i :: 0 < i < n ==> l[i].count < 2) && l[n - 1].count < 2
    requires n < |l| ==> l[n].count >= 2
    ensures All(ResultPart(l), Done()) ==> Lead(l) == n
  {
    NothingOpen(l, n - 1);
    if l[0].count < 2 {
      LeadExactly(l, n);
    }
  }

  // ----- One round

  /** A contact as an answer names it. */
  datatype Address = Address(ip: string, port: int, nodeID: string)

  function Unasked(a: Address, now: int): Contact {
    CreateNodeDetails(a.ip, a.port, a.nodeID, now)
  }

  /** Answered contacts that are neither known nor the node itself go into the unconfirmed part. */
  function Added(cur: seq<Contact>, res: seq<Contact>, answered: seq<Address>, self: string, now: int, key: string -> int)
    : seq<Contact>
  {
    if answered == [] then cur
    else
      var before := Added(cur, res, answered[..|answered| - 1], self, now, key);
      var node := Unasked(answered[|answered| - 1], now);
      if FirstWith(before, node.nodeID).None? && FirstWith(res, node.nodeID).None? && node.nodeID != self
      then InsertAcc(before, node, key) else before
  }

  /** The first n contacts that were not asked yet are asked now. */
  function Asked(cur: seq<Contact>, n: nat): seq<Contact> {
    if cur == [] || n == 0 then cur
    else if cur[0].count < 1 then [cur[0].(count := 1)] + Asked(cur[1..], n - 1)
    else [cur[0]] + Asked(cur[1..], n)
  }

  function NotAsked(cur: seq<Contact>): nat {
    if cur == [] then 0 else (if cur[0].count < 1 then 1 else 0) + NotAsked(cur[1..])
  }

  function Responder(ip: string, port: int, nodeID: string, now: int): Contact {
    CreateNodeDetails(ip, port, nodeID, now).(count := 2)
  }

  predicate AtMostAsked(c: Contact, d: Contact) {
    d == c || (c.count < 1 && d == c.(count := 1))
  }

  /** The number of contacts asked. */
  lemma {:induction false} AskedMoves(cur: seq<Contact>, n: nat)
    ensures NotAsked(Asked(cur, n)) == NotAsked(cur) - Min(n, NotAsked(cur))
    ensures |Asked(cur, n)| == |cur|
    ensures forall i :: 0 <= i < |cur| ==> AtMostAsked(cur[i], Asked(cur, n)[i])
  {
    if cur != [] && n > 0 {
      var r := Asked(cur, n);
      if cur[0].count < 1 {
        AskedMoves(cur[1..], n - 1);
        assert r[1..] == Asked(cur[1..], n - 1);
      } else {
        AskedMoves(cur[1..], n);
        assert r[1..] == Asked(cur[1..], n);
      }
    }
  }

  lemma AskedKeeps(cur: seq<Contact>, res: seq<Contact>, n: nat, key: string -> int)
    requires TwoParts(cur, res, key)
    ensures TwoParts(Asked(cur, n), res, key)
  {
    AskedMoves(cur, n);
    var r := Asked(cur, n);
    forall i | 0 <= i < |r|
      ensures Open()(r[i])
    {
      assert Open()(cur[i]);
    }
  }

  lemma AskedSorted(cur: seq<Contact>, n: nat, key: string -> int)
    requires Sorted(cur, key)
    ensures Sorted(Asked(cur, n), key)
  {
    AskedMoves(cur, n);
    var r := Asked(cur, n);
    forall i, j | 0 <= i < j < |r|
      ensures Nearer(key)(r[i], r[j])
    {
      assert Nearer(key)(cur[i], cur[j]);
    }
  }

  lemma DeletedKeeps(cur: seq<Contact>, res: seq<Contact>, nodeID: string, key: string -> int)
    requires TwoParts(cur, res, key)
    ensures TwoParts(DeleteNode(cur, nodeID), res, key)
  {
    var r := DeleteNode(cur, nodeID);
    DeleteNodeWithin(cur, nodeID);
    WithinLength(r, cur);
    WithinAll(r, cur, Open());
  }

  lemma DeletedSorted(cur: seq<Contact>, nodeID: string, key: string -> int)
    requires Sorted(cur, key)
    ensures Sorted(DeleteNode(cur, nodeID), key)
  {
    DeleteNodeWithin(cur, nodeID);
    WithinPairwise(DeleteNode(cur, nodeID), cur, Nearer(key));
  }

  lemma ConfirmedKeeps(cur: seq<Contact>, res: seq<Contact>, node: Contact, key: string -> int)
    requires TwoParts(cur, res, key) && node.count == 2
    ensures TwoParts(cur, InsertAcc(res, node, key), key)
  {
    InsertAccKeeps(res, node, key);
    InsertAccLength(res, node, key);
    InsertAccPlace(res, node, key);
    OneMoreAll(res, InsertAcc(res, node, key), node, Done());
  }

  lemma {:induction false} AddedKeeps(cur: seq<Contact>, res: seq<Contact>, answered: seq<Address>, self: string,
                                     now: int, key: string -> int)
    requires TwoParts(cur, res, key)
    ensures TwoParts(Added(cur, res, answered, self, now, key), res, key)
  {
    if answered != [] {
      var front, node := answered[..|answered| - 1], Unasked(answered[|answered| - 1], now);
      AddedKeeps(cur, res, front, self, now, key);
      var before := Added(cur, res, front, self, now, key);
      InsertAccLength(before, node, key);
      InsertAccPlace(before, node, key);
      OneMoreAll(before, InsertAcc(before, node, key), node, Open());
    }
  }

  lemma {:induction false} AddedSorted(cur: seq<Contact>, res: seq<Contact>, answered: seq<Address>, self: string,
                                      now: int, key: string -> int)
    requires Sorted(cur, key)
    ensures Sorted(Added(cur, res, answered, self, now, key), key)
  {
    if answered != [] {
      var front, node := answered[..|answered| - 1], Unasked(answered[|answered| - 1], now);
      AddedSorted(cur, res, front, self, now, key);
      InsertAccKeeps(Added(cur, res, front, self, now, key), node, key);
    }
  }

  /** A round keeps an ordered unconfirmed part ordered. */
  lemma RoundSorted(cur: seq<Contact>, res: seq<Contact>, nodeID: string, answered: seq<Address>, self: string,
                    now: int, key: string -> int)
    requires Sorted(cur, key)
    ensures Sorted(Asked(Added(DeleteNode(cur, nodeID), res, answered, self, now, key), ALPHA), key)
  {
    DeletedSorted(cur, nodeID, key);
    AddedSorted(DeleteNode(cur, nodeID), res, answered, self, now, key);
    AskedSorted(Added(DeleteNode(cur, nodeID), res, answered, self, now, key), ALPHA, key);
  }

  class FindQuery {
    const key: string
    const distance: string -> int
    var value: seq<Contact>
    /** Answers still to come. */
    var count: int

    constructor (key: string, distance: string -> int, nearest: seq<Contact>)
      ensures this.key == key && this.distance == distance && value == nearest && count == 0
    {
      this.key, this.distance, value, count := key, distance, nearest, 0;
    }

    /** An answer from nodeID at ip and port, naming some contacts. */
    method LookUpRound(self: string, nodeID: string, ip: string, port: int, answered: seq<Address>, now: int)
      returns (ret: int, sent: seq<(string, int)>)
      requires Partitioned(value, distance)
      modifies this
      ensures Partitioned(value, distance)
      ensures var cur := DeleteNode(CurrentPart(old(value)), nodeID);
              var res := InsertAcc(ResultPart(old(value)), Responder(ip, port, nodeID, now), distance);
              var all := Added(cur, res, answered, self, now, distance);
              && CurrentPart(value) == Asked(all, ALPHA) && ResultPart(value) == res
              && |sent| == Min(ALPHA, NotAsked(all))
              && count == old(count) - 1 + |sent|
              && (forall s :: s in sent ==> all != [] && s == (all[0].ip, all[0].port))
              && ret == (if all == [] && old(count) <= 1 then 0 else 1)
    {
      hide TwoParts, Lead, InsertAcc, DeleteNode, Added, Asked, NotAsked, Responder;
      var current, result := SplitList(value);
      DonePart(value, distance);
      DeletedKeeps(current, result, nodeID, distance);
      current := DeleteNodeInPlace(current, nodeID);
      var loopNode := Responder(ip, port, nodeID, now);
      ConfirmedNode(ip, port, nodeID, now);
      ConfirmedKeeps(current, result, loopNode, distance);
      result := InsertAccDistance(result, loopNode, distance);
      AddedKeeps(current, result, answered, self, now, distance);
      current := AddAnswered(current, result, answered, self, now, distance);
      count := count - 1;
      ghost var all := current;
      sent := [];
      NothingToAsk(all, ALPHA);
      if current != [] || count > 0 {
        current, sent := AskNearest(current);
        count := count + |sent|;
        ret := 1;
      } else {
        ret := 0;
      }
      AskedKeeps(all, result, ALPHA, distance);
      JoinedParts(current, result, distance);
      value := current + result;
    }
  }

  lemma ConfirmedNode(ip: string, port: int, nodeID: string, now: int)
    ensures Responder(ip, port, nodeID, now).count == 2
  {
  }

  lemma DonePart(l: seq<Contact>, key: string -> int)
    requires Partitioned(l, key)
    ensures All(ResultPart(l), Done())
  {
  }

  lemma JoinedParts(cur: seq<Contact>, res: seq<Contact>, key: string -> int)
    requires TwoParts(cur, res, key)
    ensures CurrentPart(cur + res) == cur && ResultPart(cur + res) == res
  {
    LeadOfJoin(cur, res);
  }

  lemma NothingToAsk(cur: seq<Contact>, n: nat)
    ensures cur == [] ==> Asked(cur, n) == [] && NotAsked(cur) == 0
  {
  }

  method AddAnswered(cur: seq<Contact>, res: seq<Contact>, answered: seq<Address>, self: string, now: int,
                     key: string -> int)
    returns (current: seq<Contact>)
    ensures current == Added(cur, res, answered, self, now, key)
  {
    hide InsertAcc, FirstWith;
    current := cur;
    var i := 0;
    while i < |answered|
      invariant 0 <= i <= |answered| && current == Added(cur, res, answered[..i], self, now, key)
    {
      assert answered[..i + 1][..i] == answered[..i];
      var loopNode := Unasked(answered[i], now);
      var inCurrent := LookForIP(current, loopNode.nodeID);
      var inResult := LookForIP(res, loopNode.nodeID);
      if inCurrent.None? && inResult.None? && loopNode.nodeID != self {
        current := InsertAccDistance(current, loopNode, key);
      }
      i := i + 1;
    }
    assert answered[..i] == answered;
  }

  /** Every request of the round goes to the head of the list. */
  method AskNearest(cur: seq<Contact>) returns (current: seq<Contact>, sent: seq<(string, int)>)
    ensures current == Asked(cur, ALPHA)
    ensures |sent| == Min(ALPHA, NotAsked(cur))
    ensures forall s :: s in sent ==> cur != [] && s == (cur[0].ip, cur[0].port)
  {
    hide Asked, NotAsked;
    current, sent := cur, [];
    var i, loopNode := 0, 0;
    assert current[..0] == [] && current[0..] == current;
    while i < ALPHA && loopNode < |current|
      invariant 0 <= i == |sent| <= ALPHA && 0 <= loopNode <= |current| == |cur|
      invariant current[..loopNode] + Asked(current[loopNode..], ALPHA - i) == Asked(cur, ALPHA)
      invariant i + Min(ALPHA - i, NotAsked(current[loopNode..])) == Min(ALPHA, NotAsked(cur))
      invariant |current| > 0 ==> current[0].ip == cur[0].ip && current[0].port == cur[0].port
      invariant forall s :: s in sent ==> cur != [] && s == (cur[0].ip, cur[0].port)
      decreases |current| - loopNode
    {
      var node := current[loopNode];
      AskStep(current, loopNode, ALPHA - i);
      if node.count < 1 {
        sent := sent + [(current[0].ip, current[0].port)];
        i := i + 1;
        current := current[loopNode := node.(count := 1)];
      }
      loopNode := loopNode + 1;
    }
    AskEnd(current[loopNode..], ALPHA - i);
    assert current[..loopNode] + current[loopNode..] == current;
  }

  lemma AskEnd(rest: seq<Contact>, n: nat)
    requires rest == [] || n == 0
    ensures Asked(rest, n) == rest && Min(n, NotAsked(rest)) == 0
  {
  }

  lemma AskStep(current: seq<Contact>, k: nat, n: nat)
    requires k < |current| && n > 0
    ensures var next := if current[k].count < 1 then current[k := current[k].(count := 1)] else current;
            var m := if current[k].count < 1 then n - 1 else n;
            && current[..k] + Asked(current[k..], n) == next[..k + 1] + Asked(next[k + 1..], m)
            && Min(n, NotAsked(current[k..])) == n - m + Min(m, NotAsked(next[k + 1..]))
  {
    var rest := current[k..];
    var next := if current[k].count < 1 then current[k := current[k].(count := 1)] else current;
    assert rest[0] == current[k] && rest[1..] == current[k + 1..] == next[k + 1..];
    assert next[..k + 1] == current[..k] + [next[k]];
  }

  // ----- What a round does for the responder

  /** Confirmed unless that part was full or held an equal distance key behind its head. */
  lemma ResponderConfirmed(res: seq<Contact>, ip: string, port: int, nodeID: string, now: int, key: string -> int)
    requires Sorted(res, key)
    requires |res| < BUCKET_LENGTH && (res != [] ==> All(res[1..], OtherKey(key, key(nodeID))))
    ensures Contact(ip, port, 2, nodeID, now) in InsertAcc(res, Responder(ip, port, nodeID, now), key)
  {
    var node := Responder(ip, port, nodeID, now);
    InsertedIff(res, node, key);
    InsertAccPlace(res, node, key);
    var r := InsertAcc(res, node, key);
    var k :| 0 <= k <= |res| && r == res[..k] + [node] + res[k..];
    assert r[k] == node;
  }

  /** And otherwise the confirmed part stays as it was. */
  lemma ResponderDropped(res: seq<Contact>, ip: string, port: int, nodeID: string, now: int, key: string -> int)
    requires Sorted(res, key)
    requires !(|res| < BUCKET_LENGTH && (res != [] ==> All(res[1..], OtherKey(key, key(nodeID)))))
    ensures InsertAcc(res, Responder(ip, port, nodeID, now), key) == res
  {
    InsertedIff(res, Responder(ip, port, nodeID, now), key);
  }

  /** The inputs: of two confirmed contacts the second answers again and is not added, while the only one is. */
  lemma AnsweredAgain(first: Contact, second: Contact, now: int, key: string -> int)
    requires key(first.nodeID) < key(second.nodeID)
    ensures InsertAcc([first, second], Responder(second.ip, second.port, second.nodeID, now), key) == [first, second]
    ensures InsertAcc([second], Responder(second.ip, second.port, second.nodeID, now), key)
         == [second, Contact(second.ip, second.port, 2, second.nodeID, now)]
  {
  }
}
