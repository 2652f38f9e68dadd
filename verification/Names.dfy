/** Where the ids in the table come from: a condition on the inputs alone under which no local command names a
    contact. */
module Names {
  import opened Common
  import opened Lists
  import opened XorMetrics
  import opened Node
  import opened Routing
  import opened StoreFile
  import opened Maintenance
  import opened Machine

  function KnownId(known: set<string>): Contact -> bool {
    (c: Contact) => c.nodeID in known
  }

  ghost predicate KnownTable(table: seq<seq<Contact>>, known: set<string>) {
    forall r :: 0 <= r < |table| ==> All(table[r], KnownId(known))
  }

  ghost predicate KnownFiles(files: seq<Entry<Candidate>>, known: set<string>) {
    forall e :: e in files ==> e.value.nodeID in known
  }

  ghost predicate KnownRoutes(r: Routes, known: set<string>) {
    KnownTable(r.table, known) && KnownFiles(r.files, known)
  }

  /** The ids that an input brings. */
  function Sent(input: Input): set<string> {
    if !input.FromPeer? then {}
    else
      (if input.m.sender.Peer? then {input.m.sender.nodeID} else {})
      + (if input.m.content.Pong? then {input.m.content.nodeID} else {})
  }

  ghost predicate AllSent(inputs: seq<Input>, known: set<string>) {
    forall i :: 0 <= i < |inputs| ==> Sent(inputs[i]) <= known
  }

  /** Local commands name other nodes, and none that is known. */
  ghost predicate Strangers(self: string, inputs: seq<Input>, known: set<string>) {
    forall i :: 0 <= i < |inputs| && Named(inputs[i]).Some?
      ==> IsPeer(self, Named(inputs[i]).value) && Named(inputs[i]).value !in known
  }

  // ----- What the steps do to a bucket brings in no id but the newcomer's

  lemma {:induction false} WalkedKnown(bucket: seq<Contact>, at: nat, now: int, known: set<string>)
    requires All(bucket, KnownId(known))
    ensures All(Walked(bucket, at, now), KnownId(known))
    decreases |bucket| - at
  {
    hide DeleteNode, NextAfterDelete, Stale;
    if at < |bucket| && Stale(bucket[at], now) {
      if bucket[at].count == 2 {
        NextIsThere(bucket, at);
        var l := DeleteNode(bucket, bucket[at].nodeID);
        DeletedKnown(bucket, bucket[at].nodeID, known);
        WalkedKnown(l, NextAfterDelete(bucket, at), now, known);
      } else {
        TouchedKnown(bucket, at, known);
        WalkedKnown(bucket[at := Touched(bucket[at])], at + 1, now, known);
      }
    }
  }

  lemma DeletedKnown(bucket: seq<Contact>, nodeID: string, known: set<string>)
    requires All(bucket, KnownId(known))
    ensures All(DeleteNode(bucket, nodeID), KnownId(known))
  {
    hide DeleteNode, KnownId;
    DeleteNodeWithin(bucket, nodeID);
    WithinAll(DeleteNode(bucket, nodeID), bucket, KnownId(known));
  }

  lemma TouchedKnown(bucket: seq<Contact>, at: nat, known: set<string>)
    requires All(bucket, KnownId(known)) && at < |bucket|
    ensures All(bucket[at := Touched(bucket[at])], KnownId(known))
  {
    assert KnownId(known)(bucket[at]);
  }

  lemma MovedKnown(bucket: seq<Contact>, nodeID: string, ip: string, port: int, now: int, known: set<string>)
    requires All(bucket, KnownId(known)) && nodeID in known
    ensures All(MoveNodeDetails(bucket, nodeID, ip, port, now), KnownId(known))
  {
  }

  lemma ReplacedKnown(bucket: seq<Contact>, c: Candidate, now: int, known: set<string>)
    requires All(bucket, KnownId(known)) && c.nodeID in known
    ensures All(DeleteHeadInsertTail(bucket, WaitingNode(c, now), now), KnownId(known))
  {
  }

  // ----- The steps

  lemma RefreshedTableKnown(table: seq<seq<Contact>>, now: int, known: set<string>)
    requires KnownTable(table, known)
    ensures KnownTable(RefreshedTable(table, now), known)
  {
    hide Walked, KnownId;
    forall r | 0 <= r < |table|
      ensures All(RefreshedTable(table, now)[r], KnownId(known))
    {
      WalkedKnown(table[r], 0, now, known);
    }
  }

  lemma MetTableKnown(self: string, table: seq<seq<Contact>>, sender: Sender, now: int, known: set<string>)
    requires KnownTable(table, known) && (sender.Peer? ==> sender.nodeID in known)
    ensures KnownTable(MetTable(self, table, sender, now), known)
  {
    hide MoveNodeDetails, BucketNo, KnownId;
    if sender.Peer? {
      var b := BucketNo(self, sender.nodeID);
      if 0 <= b < |table| {
        MovedKnown(table[b], sender.nodeID, sender.ip, sender.port, now, known);
      }
    }
  }

  lemma MetWaitingKnown(self: string, table: seq<seq<Contact>>, files: seq<Entry<Candidate>>, sender: Sender, now: int,
                        known: set<string>)
    requires KnownFiles(files, known) && (sender.Peer? ==> sender.nodeID in known)
    ensures KnownFiles(MetWaiting(self, table, files, sender, now), known)
  {
    hide BucketNo, FirstWith;
    if sender.Peer? {
      var b := BucketNo(self, sender.nodeID);
      if 0 <= b < |table| && |table[b]| >= BUCKET_LENGTH {
        FilterMembers(files, Misses(HasKey(table[b][0].nodeID)));
      }
    }
  }

  lemma {:induction false} ReplacedTableKnown(self: string, table: seq<seq<Contact>>, files: seq<Entry<Candidate>>,
                                              now: int, known: set<string>)
    requires KnownTable(table, known) && KnownFiles(files, known)
    ensures KnownTable(ReplacedTable(self, table, files, now), known)
    decreases |files|
  {
    hide DeleteHeadInsertTail, SameBucket, BucketOf, KnownId, WaitingNode;
    if files != [] {
      var front, e := files[..|files| - 1], files[|files| - 1];
      ReplacedTableKnown(self, table, front, now, known);
      var before := ReplacedTable(self, table, front, now);
      assert e in files;
      forall r | 0 <= r < |before|
        ensures All(DeleteHeadInsertTail(before[r], WaitingNode(e.value, now), now), KnownId(known))
      {
        ReplacedKnown(before[r], e.value, now, known);
      }
    }
  }

  lemma RoutedKnown(self: string, r: Routes, input: Input, known: set<string>)
    requires KnownRoutes(r, known) && Sent(input) <= known
    ensures KnownRoutes(RoutedInput(self, r, input), known)
  {
    hide MetTable, MetWaiting, RefreshedTable, ReplacedTable, KnownTable;
    if input.FromPeer? {
      var m := input.m;
      var table := RefreshedTable(r.table, m.arrived);
      RefreshedTableKnown(r.table, m.arrived, known);
      MetTableKnown(self, table, m.sender, m.arrived, known);
      MetWaitingKnown(self, table, r.files, m.sender, m.arrived, known);
      var files := MetWaiting(self, table, r.files, m.sender, m.arrived);
      var t := MetTable(self, table, m.sender, m.arrived);
      ReplacedTableKnown(self, t, files, m.arrived, known);
      if m.content.Pong? {
        var id := m.content.nodeID;
        MetTableKnown(self, ReplacedTable(self, t, files, m.arrived), Peer(id, m.ip, m.port), m.handled, known);
        FilterMembers(files, Misses(HasKey(id)));
      }
    }
  }

  lemma NotInTable(table: seq<seq<Contact>>, known: set<string>, id: string)
    requires KnownTable(table, known) && id !in known
    ensures !InTable(table, id)
  {
    forall r, i | 0 <= r < |table| && 0 <= i < |table[r]|
      ensures table[r][i].nodeID != id
    {
      assert KnownId(known)(table[r][i]);
    }
  }

  /** If every id at hand and every id sent is known, and local commands name unknown nodes only, then no local
      command ever names a contact. */
  lemma {:induction false} StrangersAreNoContacts(self: string, r: Routes, inputs: seq<Input>, known: set<string>)
    requires KnownRoutes(r, known) && AllSent(inputs, known) && Strangers(self, inputs, known)
    ensures NoneNamed(self, r, inputs)
    decreases |inputs|
  {
    hide RoutedInput, IsPeer, KnownTable, KnownFiles, InTable;
    if inputs != [] {
      RoutedKnown(self, r, inputs[0], known);
      if Named(inputs[0]).Some? {
        NotInTable(r.table, known, Named(inputs[0]).value);
      }
      TailOfInputs(self, inputs, known);
      StrangersAreNoContacts(self, RoutedInput(self, r, inputs[0]), inputs[1..], known);
    }
  }

  lemma TailOfInputs(self: string, inputs: seq<Input>, known: set<string>)
    requires inputs != [] && AllSent(inputs, known) && Strangers(self, inputs, known)
    ensures AllSent(inputs[1..], known) && Strangers(self, inputs[1..], known)
  {
    hide IsPeer, Named, Sent;
  }
}
