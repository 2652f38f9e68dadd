/** What a lookup learns from an answer, and whom it asks next. */
module Learning {
  import opened Common
  import opened Lists
  import opened Node
  import opened Lookup

  /** The contact that an answer names, not asked yet. */
  function Named(a: Address, now: int): Contact {
    Contact(a.ip, a.port, 0, a.nodeID, now)
  }

  ghost predicate NobodyWith(l: seq<Contact>, id: string) {
    forall i :: 0 <= i < |l| ==> l[i].nodeID != id
  }

  /** The node can be inserted: there is room, and nobody behind the head is at its distance. */
  ghost predicate Room(l: seq<Contact>, id: string, key: string -> int) {
    |l| < 6 && forall i :: 0 < i < |l| ==> key(l[i].nodeID) != key(id)
  }

  /** Neither this node, nor confirmed, nor unconfirmed. */
  ghost predicate Stranger(cur: seq<Contact>, res: seq<Contact>, self: string, id: string) {
    id != self && NobodyWith(cur, id) && NobodyWith(res, id)
  }

  lemma NoneFound(l: seq<Contact>, id: string)
    ensures FirstWith(l, id).None? <==> NobodyWith(l, id)
  {
  }

  lemma RoomToInsert(l: seq<Contact>, node: Contact, key: string -> int)
    requires Sorted(l, key)
    ensures InsertAcc(l, node, key) != l <==> Room(l, node.nodeID, key)
  {
    hide InsertAcc, Sorted;
    InsertedIff(l, node, key);
    if l != [] && All(l[1..], OtherKey(key, key(node.nodeID))) {
      forall i | 0 < i < |l|
        ensures key(l[i].nodeID) != key(node.nodeID)
      {
        assert OtherKey(key, key(node.nodeID))(l[1..][i - 1]);
      }
    }
  }

  /** The new node stands somewhere among the old ones. */
  ghost predicate Grown(l: seq<Contact>, r: seq<Contact>, node: Contact) {
    exists k :: 0 <= k <= |l| && r == l[..k] + [node] + l[k..]
  }

  // ----- Each contact of an answer

  /** The i-th contact that an answer names is inserted if and only if it is a stranger and there is room for it. */
  lemma EntersIff(cur: seq<Contact>, res: seq<Contact>, answered: seq<Address>, self: string, now: int,
                  key: string -> int, i: nat)
    requires Sorted(cur, key) && i < |answered|
    ensures var before := Added(cur, res, answered[..i], self, now, key);
            var after := Added(cur, res, answered[..i + 1], self, now, key);
            if Stranger(before, res, self, answered[i].nodeID) && Room(before, answered[i].nodeID, key)
            then Grown(before, after, Named(answered[i], now))
            else after == before
  {
    hide InsertAcc, FirstWith, Sorted, NobodyWith;
    var before := Added(cur, res, answered[..i], self, now, key);
    var node := Named(answered[i], now);
    assert answered[..i + 1][..i] == answered[..i];
    assert Unasked(answered[i], now) == node;
    AddedSorted(cur, res, answered[..i], self, now, key);
    RoomToInsert(before, node, key);
    InsertAccPlace(before, node, key);
    NoneFound(before, node.nodeID);
    NoneFound(res, node.nodeID);
  }

  lemma GrownHas(l: seq<Contact>, r: seq<Contact>, node: Contact)
    requires Grown(l, r, node)
    ensures node in r && (forall c :: c in l ==> c in r) && forall c :: c in r ==> c == node || c in l
  {
    var k :| 0 <= k <= |l| && r == l[..k] + [node] + l[k..];
    assert l == l[..k] + l[k..];
  }

  /** Whoever is in the unconfirmed part stays while the contacts of an answer are inserted. */
  lemma {:induction false} NobodyLeaves(cur: seq<Contact>, res: seq<Contact>, answered: seq<Address>, self: string,
                                        now: int, key: string -> int, i: nat, j: nat)
    requires Sorted(cur, key) && i <= j <= |answered|
    ensures forall c :: c in Added(cur, res, answered[..i], self, now, key)
                    ==> c in Added(cur, res, answered[..j], self, now, key)
    decreases j - i
  {
    hide Added, Sorted, Grown, NobodyWith;
    if i < j {
      NobodyLeaves(cur, res, answered, self, now, key, i, j - 1);
      EntersIff(cur, res, answered, self, now, key, j - 1);
      var before := Added(cur, res, answered[..j - 1], self, now, key);
      var after := Added(cur, res, answered[..j], self, now, key);
      if after != before {
        GrownHas(before, after, Named(answered[j - 1], now));
      }
    }
  }

  /** c was there, or the answer names it and it is neither this node nor known. */
  ghost predicate ThereOrNamed(c: Contact, cur: seq<Contact>, res: seq<Contact>, answered: seq<Address>, self: string,
                               now: int) {
    c in cur || exists i :: 0 <= i < |answered| && c == Named(answered[i], now) && Stranger(cur, res, self, c.nodeID)
  }

  /** Nobody else enters: neither a known id nor the node's own. */
  lemma {:induction false} OnlyStrangersEnter(cur: seq<Contact>, res: seq<Contact>, answered: seq<Address>,
                                              self: string, now: int, key: string -> int, n: nat)
    requires Sorted(cur, key) && n <= |answered|
    ensures forall c :: c in Added(cur, res, answered[..n], self, now, key)
                    ==> ThereOrNamed(c, cur, res, answered, self, now)
  {
    hide Added, Sorted, Grown;
    if n == 0 {
      NoneAdded(cur, res, self, now, key);
      assert answered[..0] == [];
    } else {
      OnlyStrangersEnter(cur, res, answered, self, now, key, n - 1);
      NobodyLeaves(cur, res, answered, self, now, key, 0, n - 1);
      EntersIff(cur, res, answered, self, now, key, n - 1);
      NoneAdded(cur, res, self, now, key);
      assert answered[..0] == [];
      var before := Added(cur, res, answered[..n - 1], self, now, key);
      var after := Added(cur, res, answered[..n], self, now, key);
      if after != before {
        GrownHas(before, after, Named(answered[n - 1], now));
        NobodyBefore(cur, before, answered[n - 1].nodeID);
      }
    }
  }

  lemma NobodyBefore(l: seq<Contact>, r: seq<Contact>, id: string)
    requires NobodyWith(r, id) && forall c :: c in l ==> c in r
    ensures NobodyWith(l, id)
  {
    forall i | 0 <= i < |l|
      ensures l[i].nodeID != id
    {
      assert l[i] in r;
    }
  }

  lemma NoneAdded(cur: seq<Contact>, res: seq<Contact>, self: string, now: int, key: string -> int)
    ensures Added(cur, res, [], self, now, key) == cur
  {
  }

  // ----- Who is asked

  /** A contact not asked before is asked now exactly when fewer than n such contacts stand before it. */
  lemma {:induction false} FirstAreAsked(cur: seq<Contact>, n: nat, i: nat)
    requires i < |cur|
    ensures |Asked(cur, n)| == |cur|
    ensures Asked(cur, n)[i]
         == if cur[i].count < 1 && NotAsked(cur[..i]) < n then cur[i].(count := 1) else cur[i]
  {
    AskedMoves(cur, n);
    if n > 0 && i > 0 {
      assert cur[..i][0] == cur[0] && cur[..i][1..] == cur[1..][..i - 1];
      FirstAreAsked(cur[1..], if cur[0].count < 1 then n - 1 else n, i - 1);
    }
  }

  /** A lookup with nobody left to ask, whose answer names one stranger, goes on and asks the stranger. */
  method StrangerIsAsked(q: FindQuery, self: string, nodeID: string, ip: string, port: int, a: Address, now: int)
    returns (ret: int, sent: seq<(string, int)>)
    requires Partitioned(q.value, q.distance) && CurrentPart(q.value) == []
    requires a.nodeID != self && a.nodeID != nodeID && NobodyWith(ResultPart(q.value), a.nodeID)
    modifies q
    ensures ret == 1 && sent == [(a.ip, a.port)]
    ensures CurrentPart(q.value) == [Contact(a.ip, a.port, 1, a.nodeID, now)]
  {
    hide TwoParts, Lead, InsertAcc, Responder, FirstWith;
    ghost var res := InsertAcc(ResultPart(q.value), Responder(ip, port, nodeID, now), q.distance);
    StillNobody(ResultPart(q.value), ip, port, nodeID, now, q.distance, a.nodeID);
    OneStranger(res, a, self, now, q.distance);
    ret, sent := q.LookUpRound(self, nodeID, ip, port, [a], now);
    NothingDeleted(nodeID);
    assert sent[0] in sent;
  }

  lemma NothingDeleted(nodeID: string)
    ensures DeleteNode([], nodeID) == []
  {
  }

  lemma StillNobody(res: seq<Contact>, ip: string, port: int, nodeID: string, now: int, key: string -> int, id: string)
    requires NobodyWith(res, id) && id != nodeID
    ensures NobodyWith(InsertAcc(res, Responder(ip, port, nodeID, now), key), id)
  {
    hide InsertAcc;
    var node := Responder(ip, port, nodeID, now);
    InsertAccPlace(res, node, key);
    var r := InsertAcc(res, node, key);
    if r != res {
      GrownHas(res, r, node);
      assert forall c :: c in r ==> c.nodeID != id;
      forall i | 0 <= i < |r|
        ensures r[i].nodeID != id
      {
        assert r[i] in r;
      }
    }
  }

  lemma OneStranger(res: seq<Contact>, a: Address, self: string, now: int, key: string -> int)
    requires a.nodeID != self && NobodyWith(res, a.nodeID)
    ensures Added([], res, [a], self, now, key) == [Named(a, now)]
    ensures NotAsked([Named(a, now)]) == 1 && Asked([Named(a, now)], ALPHA) == [Contact(a.ip, a.port, 1, a.nodeID, now)]
  {
    hide FirstWith;
    NoneFound(res, a.nodeID);
    NoneFound([], a.nodeID);
    assert [a][..0] == [];
    NoneAdded([], res, self, now, key);
    assert Asked([], ALPHA - 1) == [];
  }
}
