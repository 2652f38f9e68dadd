/** The node as a state machine: maintenance, pongs, gets and puts. */
module Machine {
  import opened Common
  import opened Lists
  import opened XorMetrics
  import opened Node
  import opened Routing
  import opened StoreFile
  import opened Maintenance

  const TOKEN_AGE := 10
  const ID_LENGTH := 32

  /** What a message asks or answers, as far as it changes the node. */
  datatype Content =
    | Get(token: string, key: string)
    | Put(token: string, key: string, data: string)
    | Pong(nodeID: string)
    | Value(key: string, data: string)
    | Other

  /** A message with its sender, and the times of its maintenance and of its handling. */
  datatype Message = Message(sender: Sender, ip: string, port: int, content: Content, arrived: int, handled: int)

  /** What the loop waits for: a peer's message, or a local command, which no maintenance precedes. Most commands
      name a key or a node id. */
  datatype Input =
    | FromPeer(m: Message)
    | LocalPut(key: string, data: string, now: int)
    | LocalOther(names: Option<string>, now: int)
  {
    function Begun(): int {
      if FromPeer? then m.arrived else now
    }

    function Over(): int {
      if FromPeer? then m.handled else now
    }
  }

  /** A message from a peer whose id is not the node's own. */
  predicate WellSent(self: string, m: Message) {
    && m.arrived <= m.handled
    && (m.sender.Peer? ==> IsPeer(self, m.sender.nodeID))
    && (m.content.Pong? ==> IsPeer(self, m.content.nodeID))
  }

  /** Inputs come in the order of time. */
  ghost predicate InOrder(self: string, inputs: seq<Input>, clock: int) {
    inputs != [] ==>
      && clock <= inputs[0].Begun()
      && (inputs[0].FromPeer? ==> WellSent(self, inputs[0].m))
      && InOrder(self, inputs[1..], inputs[0].Over())
  }

  // ----- The table and the waiting list in a run

  datatype Routes = Routes(table: seq<seq<Contact>>, files: seq<Entry<Candidate>>)

  /** Maintenance, and after it the bucket and the waiting list if the message is a pong. */
  function Routed(self: string, r: Routes, m: Message): Routes {
    var t := MaintainedTable(self, r.table, r.files, m.sender, m.arrived);
    var f := MaintainedWaiting(self, r.table, r.files, m.sender, m.arrived);
    match m.content
    case Pong(nodeID) =>
      Routes(MetTable(self, t, Peer(nodeID, m.ip, m.port), m.handled), Filter(f, Misses(HasKey(nodeID))))
    case _ => Routes(t, f)
  }

  function RoutedInput(self: string, r: Routes, input: Input): Routes {
    if input.FromPeer? then Routed(self, r, input.m) else r
  }

  function RoutedAll(self: string, r: Routes, inputs: seq<Input>): Routes
    decreases |inputs|
  {
    if inputs == [] then r else RoutedAll(self, RoutedInput(self, r, inputs[0]), inputs[1..])
  }

  function Named(input: Input): Option<string> {
    match input
    case FromPeer(_) => None
    case LocalPut(key, _, _) => Some(key)
    case LocalOther(names, _) => names
  }

  predicate InTable(table: seq<seq<Contact>>, id: string) {
    exists r, i :: 0 <= r < |table| && 0 <= i < |table[r]| && table[r][i].nodeID == id
  }

  /** What a local command names is not the id of a contact: for those the lookup is given copies of contacts, while
      for a contact it is given the bucket's own chain, which it goes on to change. */
  predicate NamesNoContact(self: string, table: seq<seq<Contact>>, input: Input) {
    Named(input).Some? ==> IsPeer(self, Named(input).value) && !InTable(table, Named(input).value)
  }

  /** So it is for every local command, when its turn comes. */
  ghost predicate NoneNamed(self: string, r: Routes, inputs: seq<Input>)
    decreases |inputs|
  {
    inputs != [] ==>
      && NamesNoContact(self, r.table, inputs[0])
      && NoneNamed(self, RoutedInput(self, r, inputs[0]), inputs[1..])
  }

  // ----- What is recorded of a run

  datatype Event =
    | Maintained(time: int)
    | Missed(token: string, key: string, time: int)
    | Answered(token: string, key: string, data: string)
    | Stored(token: string, key: string, data: string)
    | Refused(token: string)
    | Kept(key: string, data: string)

  /** When the token last came with a get that found nothing. */
  function LastMiss(log: seq<Event>, token: string): Option<int> {
    if log == [] then None
    else
      var e := log[|log| - 1];
      if e.Missed? && e.token == token then Some(e.time) else LastMiss(log[..|log| - 1], token)
  }

  /** The data that was stored under the key last, with a token or without. */
  function LastStored(log: seq<Event>, key: string): Option<string> {
    if log == [] then None
    else
      var e := log[|log| - 1];
      if (e.Stored? || e.Kept?) && e.key == key then Some(e.data) else LastStored(log[..|log| - 1], key)
  }

  function LastMaintained(log: seq<Event>): Option<int> {
    if log == [] then None
    else
      var e := log[|log| - 1];
      if e.Maintained? then Some(e.time) else LastMaintained(log[..|log| - 1])
  }

  /** The last miss with the token is at most ten seconds older than the last maintenance. */
  predicate Granted(log: seq<Event>, token: string) {
    var miss := LastMiss(log, token);
    miss.Some? && (LastMaintained(log).Some? ==> miss.value >= LastMaintained(log).value - TOKEN_AGE)
  }

  /** Every put so far was stored if its token was granted and refused if not; every get was answered with what was
      stored under its key last, and missed if nothing was. */
  ghost predicate Gated(log: seq<Event>) {
    forall n :: 0 <= n < |log| ==> GatedAt(log, n)
  }

  ghost predicate GatedAt(log: seq<Event>, n: nat)
    requires n < |log|
  {
    && (log[n].Stored? ==> Granted(log[..n], log[n].token))
    && (log[n].Refused? ==> !Granted(log[..n], log[n].token))
    && (log[n].Answered? ==> LastStored(log[..n], log[n].key) == Some(log[n].data))
    && (log[n].Missed? ==> LastStored(log[..n], log[n].key) == None)
  }

  lemma GatedMore(log: seq<Event>, e: Event)
    requires Gated(log)
    requires e.Stored? ==> Granted(log, e.token)
    requires e.Refused? ==> !Granted(log, e.token)
    requires e.Answered? ==> LastStored(log, e.key) == Some(e.data)
    requires e.Missed? ==> LastStored(log, e.key) == None
    ensures Gated(log + [e])
  {
    hide Granted, LastStored;
    var more := log + [e];
    forall n | 0 <= n < |more|
      ensures GatedAt(more, n)
    {
      if n < |log| {
        assert GatedAt(log, n) && more[..n] == log[..n];
      } else {
        assert more[..n] == log;
      }
    }
  }

  lemma LogMore(log: seq<Event>, e: Event, token: string)
    ensures LastMiss(log + [e], token) == if e.Missed? && e.token == token then Some(e.time) else LastMiss(log, token)
    ensures LastMaintained(log + [e]) == if e.Maintained? then Some(e.time) else LastMaintained(log)
  {
    assert (log + [e])[..|log|] == log;
  }

  lemma StoredMore(log: seq<Event>, e: Event, key: string)
    ensures LastStored(log + [e], key)
         == if (e.Stored? || e.Kept?) && e.key == key then Some(e.data) else LastStored(log, key)
  {
    assert (log + [e])[..|log|] == log;
  }

  /** A granted token came with a get that missed, and with no later one. */
  lemma {:induction false} GrantedByMiss(log: seq<Event>, token: string) returns (i: nat)
    requires LastMiss(log, token).Some?
    ensures i < |log| && log[i].Missed? && log[i].token == token && Some(log[i].time) == LastMiss(log, token)
    ensures forall j :: i < j < |log| && log[j].Missed? ==> log[j].token != token
  {
    var e := log[|log| - 1];
    if e.Missed? && e.token == token {
      i := |log| - 1;
    } else {
      i := GrantedByMiss(log[..|log| - 1], token);
    }
  }

  // ----- A run without lists: from the messages and their times alone

  /** What one message adds to what happened before. */
  function Recorded(was: seq<Event>, m: Message): seq<Event> {
    var log := was + [Maintained(m.arrived)];
    match m.content
    case Get(token, key) =>
      (match LastStored(log, key)
       case Some(data) => log + [Answered(token, key, data)]
       case None => log + [Missed(token, key, m.handled)])
    case Put(token, key, data) => log + [if Granted(log, token) then Stored(token, key, data) else Refused(token)]
    case Value(key, data) => log + [Kept(key, data)]
    case _ => log
  }

  function RecordedInput(log: seq<Event>, input: Input): seq<Event> {
    match input
    case FromPeer(m) => Recorded(log, m)
    case LocalPut(key, data, _) => log + [Kept(key, data)]
    case LocalOther(_, _) => log
  }

  function RecordedAll(log: seq<Event>, inputs: seq<Input>): seq<Event> {
    if inputs == [] then log else RecordedInput(RecordedAll(log, inputs[..|inputs| - 1]), inputs[|inputs| - 1])
  }

  lemma NothingRecorded(log: seq<Event>)
    ensures RecordedAll(log, []) == log
  {
  }

  lemma RecordedNext(log: seq<Event>, inputs: seq<Input>, i: nat)
    requires i < |inputs|
    ensures RecordedAll(log, inputs[..i + 1]) == RecordedInput(RecordedAll(log, inputs[..i]), inputs[i])
  {
    hide RecordedInput;
    assert inputs[..i + 1][..i] == inputs[..i];
  }

  /** What the values list becomes with a message, handled after what happened before. */
  function Written(written: map<string, (string, int)>, was: seq<Event>, m: Message): map<string, (string, int)> {
    match m.content
    case Put(token, key, data) =>
      if Granted(was + [Maintained(m.arrived)], token) then written[key := (data, m.handled)] else written
    case Value(key, data) => written[key := (data, m.handled)]
    case _ => written
  }

  function WrittenInput(written: map<string, (string, int)>, was: seq<Event>, input: Input): map<string, (string, int)> {
    match input
    case FromPeer(m) => Written(written, was, m)
    case LocalPut(key, data, now) => written[key := (data, now)]
    case LocalOther(_, _) => written
  }

  /** The invariant between the values list and the log. */
  ghost predicate ValuesFollow(written: map<string, (string, int)>, log: seq<Event>) {
    forall key :: LastStored(log, key) == if key in written then Some(written[key].0) else None
  }

  lemma ValuesOther(written: map<string, (string, int)>, log: seq<Event>, e: Event)
    requires ValuesFollow(written, log) && !e.Stored? && !e.Kept?
    ensures ValuesFollow(written, log + [e])
  {
    hide LastStored;
    forall key ensures LastStored(log + [e], key) == LastStored(log, key) {
      StoredMore(log, e, key);
    }
  }

  lemma ValuesStore(written: map<string, (string, int)>, log: seq<Event>, e: Event, now: int)
    requires ValuesFollow(written, log) && (e.Stored? || e.Kept?)
    ensures ValuesFollow(written[e.key := (e.data, now)], log + [e])
  {
    hide LastStored;
    forall key ensures LastStored(log + [e], key) == if key == e.key then Some(e.data) else LastStored(log, key) {
      StoredMore(log, e, key);
    }
  }

  /** The invariant between the token list and the log. */
  ghost predicate TokensFollow(written: map<string, (string, int)>, horizon: Option<int>, log: seq<Event>) {
    && horizon == (match LastMaintained(log) case None => None case Some(t) => Some(t - TOKEN_AGE))
    && forall token :: LastMiss(log, token) == if token in written then Some(written[token].1) else None
  }

  lemma GrantedInList(written: map<string, (string, int)>, horizon: Option<int>, log: seq<Event>, token: string)
    requires TokensFollow(written, horizon, log)
    ensures Granted(log, token) <==> token in written && Live(written[token].1, horizon)
  {
  }

  lemma FollowOther(written: map<string, (string, int)>, horizon: Option<int>, log: seq<Event>, e: Event)
    requires TokensFollow(written, horizon, log) && !e.Missed? && !e.Maintained?
    ensures TokensFollow(written, horizon, log + [e])
  {
    hide LastMiss, LastMaintained;
    forall token ensures LastMiss(log + [e], token) == LastMiss(log, token) {
      LogMore(log, e, token);
    }
    LogMore(log, e, "");
  }

  lemma FollowMiss(written: map<string, (string, int)>, horizon: Option<int>, log: seq<Event>, token: string,
                   key: string, now: int)
    requires TokensFollow(written, horizon, log)
    ensures TokensFollow(written[token := ("", now)], horizon, log + [Missed(token, key, now)])
  {
    hide LastMiss, LastMaintained;
    var e := Missed(token, key, now);
    forall t: string ensures LastMiss(log + [e], t) == if t == token then Some(now) else LastMiss(log, t) {
      LogMore(log, e, t);
    }
    LogMore(log, e, "");
  }

  lemma FollowMaintained(written: map<string, (string, int)>, horizon: Option<int>, log: seq<Event>, now: int)
    requires TokensFollow(written, horizon, log) && (horizon.Some? ==> horizon.value <= now - TOKEN_AGE)
    ensures TokensFollow(written, Later(horizon, now - TOKEN_AGE), log + [Maintained(now)])
  {
    hide LastMiss, LastMaintained;
    var e := Maintained(now);
    forall t ensures LastMiss(log + [e], t) == LastMiss(log, t) {
      LogMore(log, e, t);
    }
    LogMore(log, e, "");
  }

  class Machine {
    const self: string
    const routes: RoutingTable
    const waiting: TimedList<Candidate>
    const tokenRec: TimedList<string>
    const values: TimedList<string>
    ghost var log: seq<Event>
    ghost var clock: int

    ghost predicate Valid()
      reads this, routes.table, waiting, tokenRec, values
    {
      RoutesOk() && ListsOk() && TokensOk() && ValuesFollow(values.written, log)
    }

    /** Every contact is in the bucket of its distance and no bucket holds more than six. */
    ghost predicate RoutesOk()
      reads routes.table
    {
      && routes.self == self && HexId(self) && |self| == ID_LENGTH
      && routes.Valid()
    }

    /** Whoever waits for a pinged contact belongs to the same bucket. */
    ghost predicate ListsOk()
      reads `clock, waiting, values
    {
      && waiting.Valid() && waiting.clock <= clock && WaitingOk(self, waiting.files)
      && values.Valid() && values.clock <= clock && values.horizon == None
    }

    /** The token list and the run agree. */
    ghost predicate TokensOk()
      reads `clock, `log, tokenRec
    {
      && tokenRec != values
      && tokenRec.Valid() && tokenRec.clock <= clock && Live(clock - TOKEN_AGE, tokenRec.horizon)
      && TokensFollow(tokenRec.written, tokenRec.horizon, log)
      && Gated(log)
    }

    constructor (id: string, now: int)
      requires HexId(id) && |id| == ID_LENGTH
      ensures Valid() && self == id && log == [] && clock == now
      ensures waiting.files == [] && routes.table.Length == NUMBER_OF_BUCKETS
      ensures forall r :: 0 <= r < NUMBER_OF_BUCKETS ==> routes.table[r] == []
      ensures fresh(routes) && fresh(routes.table) && fresh(waiting) && fresh(tokenRec) && fresh(values)
    {
      self := id;
      routes := new RoutingTable(id);
      waiting := new TimedList<Candidate>(now);
      tokenRec := new TimedList<string>(now);
      values := new TimedList<string>(now);
      log := [];
      clock := now;
    }

    // ----- The steps of kademMaintenance

    method RefreshAll(now: int) returns (pings: seq<(string, int)>)
      requires RoutesOk()
      modifies routes.table
      ensures RoutesOk()
      ensures routes.table[..] == RefreshedTable(old(routes.table[..]), now)
      ensures forall r :: 0 <= r < NUMBER_OF_BUCKETS ==> routes.table[r] == Walked(old(routes.table[..])[r], 0, now)
      ensures pings == RefreshPings(old(routes.table[..]), NUMBER_OF_BUCKETS, now)
    {
      hide GoodBucket, Walked, WalkPings, HexId;
      pings := [];
      var i := 0;
      while i < NUMBER_OF_BUCKETS
        invariant 0 <= i <= NUMBER_OF_BUCKETS && RoutesOk()
        invariant forall r :: i <= r < NUMBER_OF_BUCKETS ==> routes.table[r] == old(routes.table[..])[r]
        invariant forall r :: 0 <= r < i ==> routes.table[r] == Walked(old(routes.table[..])[r], 0, now)
        invariant pings == RefreshPings(old(routes.table[..]), i, now)
      {
        var more := routes.RefreshBucket(i, now);
        pings := pings + more;
        i := i + 1;
      }
    }

    /** The sender is put into its bucket; if that is full, it waits for the head to answer a ping. */
    method Meet(nodeID: string, ip: string, port: int, now: int) returns (pings: seq<(string, int)>)
      requires RoutesOk() && ListsOk() && clock <= now && IsPeer(self, nodeID)
      modifies routes.table, waiting, `clock
      ensures RoutesOk() && ListsOk() && clock == now
      ensures var b := BucketOf(self, nodeID);
              && 0 <= b < NUMBER_OF_BUCKETS && routes.OthersSame(old(routes.table[..]), b)
              && var was := old(routes.table[..])[b];
              var refused := |was| == BUCKET_LENGTH && FirstWith(was, nodeID).None?;
              && routes.table[b] == (if |was| < BUCKET_LENGTH then MoveNodeDetails(was, nodeID, ip, port, now) else was)
              && waiting.files == (if refused
                                   then Filter(old(waiting.files), Misses(HasKey(was[0].nodeID)))
                                        + [Entry(was[0].nodeID, Candidate(ip, port, nodeID), now)]
                                   else old(waiting.files))
              && pings == (if refused then [(was[0].ip, was[0].port)] else [])
      ensures routes.table[..] == MetTable(self, old(routes.table[..]), Peer(nodeID, ip, port), now)
      ensures waiting.files
           == MetWaiting(self, old(routes.table[..]), old(waiting.files), Peer(nodeID, ip, port), now)
      ensures pings == MetPings(self, old(routes.table[..]), Peer(nodeID, ip, port))
    {
      hide BucketOf, HexId, HexValue, MoveNodeDetails, FirstWith, SameBucket, Belongs;
      pings := [];
      var bucketVal := FindNodeDetails(self, nodeID);
      OwnBucket(self, nodeID, bucketVal);
      var kbucket := routes.table[bucketVal];
      var found := LookForIP(kbucket, nodeID);
      var j := routes.InsertIntoContactTable(nodeID, ip, port, now);
      clock := now;
      if found.None? && j < 0 {
        HeadShares(self, kbucket, nodeID, bucketVal);
        Wait(kbucket[0].nodeID, Candidate(ip, port, nodeID), now);
        pings := [(kbucket[0].ip, kbucket[0].port)];
      }
    }

    method Wait(pinged: string, candidate: Candidate, now: int)
      requires ListsOk() && clock == now && SameBucket(self, pinged, candidate.nodeID)
      modifies waiting
      ensures ListsOk()
      ensures waiting.files == Filter(old(waiting.files), Misses(HasKey(pinged))) + [Entry(pinged, candidate, now)]
    {
      hide SameBucket;
      FilteredOk(self, waiting.files, Misses(HasKey(pinged)));
      AppendedOk(self, Filter(waiting.files, Misses(HasKey(pinged))), Entry(pinged, candidate, now));
      waiting.Insert(pinged, candidate, now);
    }

    method ReplaceWaiting(now: int)
      requires RoutesOk() && ListsOk()
      modifies routes.table
      ensures RoutesOk()
      ensures routes.table[..] == ReplacedTable(self, old(routes.table[..]), waiting.files, now)
    {
      hide GoodBucket, HexId, BucketOf, DeleteHeadInsertTail, ReplacedTable, WaitingOk, SameBucket, TokensFollow, Gated;
      ghost var was := routes.table[..];
      var i := 0;
      ReplacedNone(self, was, waiting.files, now);
      while i < |waiting.files|
        invariant 0 <= i <= |waiting.files| && RoutesOk()
        invariant routes.table[..] == ReplacedTable(self, was, waiting.files[..i], now)
      {
        var temp := waiting.files[i];
        ReplacedNext(self, was, waiting.files, i, now);
        if now - temp.timestamp > TIMEOUT_PING {
          var bucketNumber := FindNodeDetails(self, temp.key);
          routes.ReplaceHead(bucketNumber, WaitingNode(temp.value, now), now);
        }
        i := i + 1;
      }
      assert waiting.files[..i] == waiting.files;
    }

    method CleanTokens(now: int)
      requires ListsOk() && TokensOk() && clock <= now && ValuesFollow(values.written, log)
      modifies tokenRec, `log, `clock
      ensures ListsOk() && TokensOk() && clock == now && ValuesFollow(values.written, log)
      ensures log == old(log) + [Maintained(now)] && tokenRec.written == old(tokenRec.written)
    {
      hide TokensFollow, Gated, WaitingOk, ValuesFollow;
      ValuesOther(values.written, log, Maintained(now));
      CleanedLog(tokenRec.written, tokenRec.horizon, log, clock, now);
      tokenRec.CleanOlder(TOKEN_AGE, now);
      log := log + [Maintained(now)];
      clock := now;
    }

    /** kademMaintenance: refresh, the sender, the waiting list, the tokens. */
    method Maintenance(sender: Sender, now: int) returns (pings: seq<(string, int)>)
      requires Valid() && clock <= now && (sender.Peer? ==> IsPeer(self, sender.nodeID))
      modifies this, routes.table, waiting, tokenRec
      ensures Valid() && clock == now
      ensures log == old(log) + [Maintained(now)] && unchanged(values)
      ensures routes.table[..] == MaintainedTable(self, old(routes.table[..]), old(waiting.files), sender, now)
      ensures waiting.files == MaintainedWaiting(self, old(routes.table[..]), old(waiting.files), sender, now)
      ensures pings == MaintainedPings(self, old(routes.table[..]), sender, now)
      ensures AllUnique(old(routes.table[..]))
              ==> (AllUnique(routes.table[..])
                   <==> AllNewcomers(self, Prepared(self, old(routes.table[..]), sender, now), waiting.files, now))
    {
      hide TokensFollow, Gated, WaitingOk, GoodBucket, IsPeer, HexId, AllUnique, AllNewcomers, AllFit, RefreshedTable,
        RefreshPings, ReplacedTable, BucketNo;
      ghost var table, files := routes.table[..], waiting.files;
      pings := RefreshAll(now);
      if sender.Peer? {
        var more := Meet(sender.nodeID, sender.ip, sender.port, now);
        pings := pings + more;
      }
      FitsWhenGood(self, routes.table[..]);
      ReplaceWaiting(now);
      if AllUnique(table) {
        MaintainedStaysUnique(self, table, files, sender, now);
      }
      CleanTokens(now);
    }

    // ----- Handlers

    /** kademHandlePong: the contact that answered stays, and its candidate stops waiting. */
    method HandlePong(nodeID: string, ip: string, port: int, now: int)
      requires Valid() && clock <= now && IsPeer(self, nodeID)
      modifies routes.table, waiting, `clock
      ensures Valid() && clock == now
      ensures waiting.files == Filter(old(waiting.files), Misses(HasKey(nodeID)))
      ensures var b := BucketOf(self, nodeID);
              && 0 <= b < NUMBER_OF_BUCKETS && routes.OthersSame(old(routes.table[..]), b)
              && routes.table[b] == (if |old(routes.table[..])[b]| < BUCKET_LENGTH
                                     then MoveNodeDetails(old(routes.table[..])[b], nodeID, ip, port, now)
                                     else old(routes.table[..])[b])
      ensures routes.table[..] == MetTable(self, old(routes.table[..]), Peer(nodeID, ip, port), now)
    {
      hide TokensFollow, Gated, GoodBucket, HexValue, HexId, BucketOf, MoveNodeDetails, SameBucket, Belongs;
      var bucketVal := FindNodeDetails(self, nodeID);
      var res := routes.InsertIntoContactTable(nodeID, ip, port, now);
      clock := now;
      FilteredOk(self, waiting.files, Misses(HasKey(nodeID)));
      waiting.Delete(nodeID);
    }

    /** kademHandleFindValue, as far as values and tokens go: a miss grants the token, a hit grants nothing. */
    method HandleFindValue(token: string, key: string, now: int) returns (found: Option<string>)
      requires Valid() && clock <= now
      modifies tokenRec, `log, `clock
      ensures Valid() && clock == now
      ensures found == if key in values.written then Some(values.written[key].0) else None
      ensures found == LastStored(old(log), key) && unchanged(values)
      ensures log == old(log) + [if found.Some? then Answered(token, key, found.value) else Missed(token, key, now)]
    {
      hide TokensFollow, Gated, WaitingOk, GoodBucket, HexId, ValuesFollow, LastStored;
      ValueFound(values.written, log, key);
      var find := values.FindKey(key);
      ghost var e;
      if find.Some? {
        found := Some(find.value.value);
        e := Answered(token, key, found.value);
        FollowOther(tokenRec.written, tokenRec.horizon, log, e);
      } else {
        found := None;
        e := Missed(token, key, now);
        FollowMiss(tokenRec.written, tokenRec.horizon, log, token, key, now);
        tokenRec.Insert(token, "", now);
      }
      GatedMore(log, e);
      ValuesOther(values.written, log, e);
      log := log + [e];
      clock := now;
    }

    /** kademHandleStoreValue: stored if and only if the token is granted. */
    method HandleStoreValue(token: string, key: string, data: string, now: int) returns (stored: bool)
      requires Valid() && clock <= now
      modifies values, `log, `clock
      ensures Valid() && clock == now
      ensures stored <==> Granted(old(log), token)
      ensures log == old(log) + [if stored then Stored(token, key, data) else Refused(token)]
      ensures values.written == if stored then old(values.written)[key := (data, now)] else old(values.written)
    {
      hide TokensFollow, Gated, WaitingOk, GoodBucket, HexId, Granted, ValuesFollow;
      var file := tokenRec.FindKey(token);
      GrantedInList(tokenRec.written, tokenRec.horizon, log, token);
      stored := file.Some?;
      ghost var e := if stored then Stored(token, key, data) else Refused(token);
      FollowOther(tokenRec.written, tokenRec.horizon, log, e);
      GatedMore(log, e);
      if stored {
        ValuesStore(values.written, log, e, now);
        values.Insert(key, data, now);
      } else {
        ValuesOther(values.written, log, e);
      }
      log := log + [e];
      clock := now;
    }

    /** A value that another node answered with, or that a local command puts, is stored without any token. */
    method StoreFreely(key: string, data: string, now: int)
      requires Valid() && clock <= now
      modifies values, `log, `clock
      ensures Valid() && clock == now
      ensures values.written == old(values.written)[key := (data, now)]
      ensures log == old(log) + [Kept(key, data)]
    {
      hide TokensFollow, Gated, WaitingOk, GoodBucket, HexId, ValuesFollow;
      ghost var e := Kept(key, data);
      FollowOther(tokenRec.written, tokenRec.horizon, log, e);
      GatedMore(log, e);
      ValuesStore(values.written, log, e, now);
      values.Insert(key, data, now);
      log := log + [e];
      clock := now;
    }

    /** One message of the loop that asks to store: the maintenance comes first. */
    method ReceivePut(sender: Sender, token: string, key: string, data: string, arrived: int, now: int)
      returns (stored: bool)
      requires Valid() && clock <= arrived <= now && (sender.Peer? ==> IsPeer(self, sender.nodeID))
      modifies this, routes.table, waiting, tokenRec, values
      ensures Valid() && clock == now
      ensures stored <==> LastMiss(old(log), token).Some? && LastMiss(old(log), token).value >= arrived - TOKEN_AGE
      ensures values.written == if stored then old(values.written)[key := (data, now)] else old(values.written)
      ensures log == old(log) + [Maintained(arrived), if stored then Stored(token, key, data) else Refused(token)]
    {
      hide TokensFollow, Gated, WaitingOk, GoodBucket, HexId, IsPeer, LastMiss, LastMaintained, ValuesFollow;
      LogMore(log, Maintained(arrived), token);
      var pings := Maintenance(sender, arrived);
      stored := HandleStoreValue(token, key, data, now);
    }

    /** One message of the loop. */
    method Receive(m: Message)
      requires Valid() && WellSent(self, m) && clock <= m.arrived
      modifies this, routes.table, waiting, tokenRec, values
      ensures Valid() && clock == m.handled
      ensures log == Recorded(old(log), m)
      ensures values.written == Written(old(values.written), old(log), m)
      ensures Routes(routes.table[..], waiting.files)
           == Routed(self, Routes(old(routes.table[..]), old(waiting.files)), m)
    {
      hide RoutesOk, ListsOk, TokensOk, ValuesFollow, LastStored, IsPeer, Granted, BucketOf, HexValue, HexId,
        MaintainedTable, MaintainedWaiting,
        MetTable, AllUnique, AllNewcomers, Prepared, MaintainedPings;
      var pings := Maintenance(m.sender, m.arrived);
      match m.content
      case Get(token, key) =>
        var found := HandleFindValue(token, key, m.handled);
      case Put(token, key, data) =>
        var stored := HandleStoreValue(token, key, data, m.handled);
      case Pong(nodeID) =>
        HandlePong(nodeID, m.ip, m.port, m.handled);
      case Value(key, data) =>
        StoreFreely(key, data, m.handled);
      case Other =>
        PassTime(m.handled);
    }

    /** Handlers that change nothing here only let time pass. */
    method PassTime(now: int)
      requires Valid() && clock <= now
      modifies `clock
      ensures Valid() && clock == now
    {
      clock := now;
    }

    method Take(input: Input)
      requires Valid() && clock <= input.Begun() && (input.FromPeer? ==> WellSent(self, input.m))
      requires NamesNoContact(self, routes.table[..], input)
      modifies this, routes.table, waiting, tokenRec, values
      ensures Valid() && clock == input.Over()
      ensures log == RecordedInput(old(log), input)
      ensures values.written == WrittenInput(old(values.written), old(log), input)
      ensures Routes(routes.table[..], waiting.files)
           == RoutedInput(self, Routes(old(routes.table[..]), old(waiting.files)), input)
    {
      hide RoutesOk, ListsOk, TokensOk, ValuesFollow, IsPeer, Recorded, Written, Routed, NamesNoContact;
      match input
      case FromPeer(m) => Receive(m);
      case LocalPut(key, data, now) => StoreFreely(key, data, now);
      case LocalOther(_, now) => PassTime(now);
    }

    /** startKademlia on inputs whose local commands name no contact: after every one the table and the lists are as
        Valid says, what was answered, granted, stored and refused is what the inputs and their times alone
        determine, and table and waiting list are those of the inputs taken one by one. */
    method Serve(inputs: seq<Input>)
      requires Valid() && InOrder(self, inputs, clock)
      requires NoneNamed(self, Routes(routes.table[..], waiting.files), inputs)
      modifies this, routes.table, waiting, tokenRec, values
      ensures Valid()
      ensures Routes(routes.table[..], waiting.files)
           == RoutedAll(self, Routes(old(routes.table[..]), old(waiting.files)), inputs)
      ensures log == RecordedAll(old(log), inputs) && Gated(log) && ValuesFollow(values.written, log)
    {
      hide RoutesOk, ListsOk, TokensOk, ValuesFollow, Gated, IsPeer, WrittenInput, RecordedInput, RecordedAll, WellSent,
        InOrder, RoutedInput, RoutedAll,
        NamesNoContact, NoneNamed;
      var i := 0;
      ghost var start := log;
      ghost var from := Routes(routes.table[..], waiting.files);
      assert inputs[..0] == [] && inputs[0..] == inputs;
      NothingRecorded(start);
      while i < |inputs|
        invariant 0 <= i <= |inputs| && Valid() && InOrder(self, inputs[i..], clock)
        invariant NoneNamed(self, Routes(routes.table[..], waiting.files), inputs[i..])
        invariant RoutedAll(self, Routes(routes.table[..], waiting.files), inputs[i..]) == RoutedAll(self, from, inputs)
        invariant log == RecordedAll(start, inputs[..i])
      {
        RecordedNext(start, inputs, i);
        assert inputs[i..][0] == inputs[i] && inputs[i..][1..] == inputs[i + 1..];
        NextInOrder(self, inputs[i..], clock);
        NextNoneNamed(self, Routes(routes.table[..], waiting.files), inputs[i..]);
        Take(inputs[i]);
        i := i + 1;
      }
      assert inputs[..i] == inputs;
      assert inputs[i..] == [];
      NothingRouted(self, Routes(routes.table[..], waiting.files));
      assert Gated(log) by { GatedNow(); }
    }

    lemma GatedNow()
      requires TokensOk()
      ensures Gated(log)
    {
    }
  }

  lemma NextNoneNamed(self: string, r: Routes, inputs: seq<Input>)
    requires inputs != [] && NoneNamed(self, r, inputs)
    ensures NamesNoContact(self, r.table, inputs[0])
    ensures NoneNamed(self, RoutedInput(self, r, inputs[0]), inputs[1..])
    ensures RoutedAll(self, r, inputs) == RoutedAll(self, RoutedInput(self, r, inputs[0]), inputs[1..])
  {
    hide NamesNoContact, RoutedInput;
  }

  lemma NothingRouted(self: string, r: Routes)
    ensures RoutedAll(self, r, []) == r
  {
  }

  lemma ValueFound(written: map<string, (string, int)>, log: seq<Event>, key: string)
    requires ValuesFollow(written, log)
    ensures LastStored(log, key) == if key in written then Some(written[key].0) else None
  {
  }

  lemma NextInOrder(self: string, inputs: seq<Input>, clock: int)
    requires inputs != [] && InOrder(self, inputs, clock)
    ensures clock <= inputs[0].Begun() && (inputs[0].FromPeer? ==> WellSent(self, inputs[0].m))
    ensures InOrder(self, inputs[1..], inputs[0].Over())
  {
  }

  lemma FitsWhenGood(self: string, table: seq<seq<Contact>>)
    requires forall r :: 0 <= r < |table| ==> GoodBucket(self, table[r], r)
    ensures AllFit(table)
  {
  }

  lemma CleanedLog(written: map<string, (string, int)>, horizon: Option<int>, log: seq<Event>, clock: int, now: int)
    requires TokensFollow(written, horizon, log) && Gated(log) && Live(clock - TOKEN_AGE, horizon) && clock <= now
    ensures TokensFollow(written, Later(horizon, now - TOKEN_AGE), log + [Maintained(now)])
    ensures Gated(log + [Maintained(now)])
  {
    hide TokensFollow, Gated;
    FollowMaintained(written, horizon, log, now);
    GatedMore(log, Maintained(now));
  }
}
