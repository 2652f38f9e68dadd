/** What a caller sees of gets and puts in a run, told from the inputs. */
module Puts {
  import opened Common
  import opened Machine

  /** A get from a peer. */
  predicate Asks(input: Input, key: string) {
    input.FromPeer? && input.m.content.Get? && input.m.content.key == key
  }

  /** An input that stores the data under the key whatever tokens there are. */
  predicate Keeps(input: Input, key: string, data: string) {
    || (input.LocalPut? && input.key == key && input.data == data)
    || (input.FromPeer? && input.m.content == Value(key, data))
  }

  /** An input that may store something under the key. */
  predicate Writes(input: Input, key: string) {
    || (input.LocalPut? && input.key == key)
    || (input.FromPeer? && (input.m.content.Put? || input.m.content.Value?) && input.m.content.key == key)
  }

  // ----- The last write is what a get is answered with

  lemma KeptByInput(log: seq<Event>, input: Input, key: string)
    ensures !Writes(input, key) ==> LastStored(RecordedInput(log, input), key) == LastStored(log, key)
    ensures forall data :: Keeps(input, key, data) ==> LastStored(RecordedInput(log, input), key) == Some(data)
  {
    hide LastStored, Granted;
    match input
    case FromPeer(m) =>
      var begun := log + [Maintained(m.arrived)];
      StoredMore(log, Maintained(m.arrived), key);
      match m.content {
        case Get(token, k) =>
          if LastStored(begun, k).Some? {
            StoredMore(begun, Answered(token, k, LastStored(begun, k).value), key);
          } else {
            StoredMore(begun, Missed(token, k, m.handled), key);
          }
        case Put(token, k, data) =>
          StoredMore(begun, if Granted(begun, token) then Stored(token, k, data) else Refused(token), key);
        case Value(k, data) =>
          StoredMore(begun, Kept(k, data), key);
        case _ =>
      }
    case LocalPut(k, data, _) =>
      StoredMore(log, Kept(k, data), key);
    case LocalOther(_, _) =>
  }

  lemma {:induction false} KeptByAll(log: seq<Event>, inputs: seq<Input>, key: string)
    requires forall i :: 0 <= i < |inputs| ==> !Writes(inputs[i], key)
    ensures LastStored(RecordedAll(log, inputs), key) == LastStored(log, key)
  {
    hide RecordedInput, LastStored, Writes;
    if inputs != [] {
      var front := inputs[..|inputs| - 1];
      KeptByAll(log, front, key);
      KeptByInput(RecordedAll(log, front), inputs[|inputs| - 1], key);
    }
  }

  lemma {:induction false} RecordedBoth(log: seq<Event>, a: seq<Input>, b: seq<Input>)
    ensures RecordedAll(log, a + b) == RecordedAll(RecordedAll(log, a), b)
    decreases |b|
  {
    hide RecordedInput;
    if b == [] {
      assert a + b == a;
    } else {
      assert (a + b)[..|a + b| - 1] == a + b[..|b| - 1];
      RecordedBoth(log, a, b[..|b| - 1]);
    }
  }

  lemma RecordedTwo(log: seq<Event>, a: Input, b: Input)
    ensures RecordedAll(log, [a]) == RecordedInput(log, a)
    ensures RecordedAll(log, [a, b]) == RecordedInput(RecordedInput(log, a), b)
  {
    hide RecordedInput;
    NothingRecorded(log);
    assert [a][..0] == [] && [a, b][..1] == [a];
  }

  /** In every run: data that a local put or a peer's answer left under a key, and that no later input may have
      overwritten, is what a get of the key is answered with. */
  lemma LastWriteIsAnswered(log: seq<Event>, before: seq<Input>, write: Input, since: seq<Input>, get: Input,
                            key: string, data: string)
    requires Keeps(write, key, data) && Asks(get, key)
    requires forall i :: 0 <= i < |since| ==> !Writes(since[i], key)
    ensures var after := RecordedAll(log, before + [write] + since + [get]);
            after != [] && after[|after| - 1] == Answered(get.m.content.token, key, data)
  {
    hide RecordedAll, Recorded, LastStored, Writes, Keeps;
    var l0 := RecordedAll(log, before);
    RecordedBoth(log, before, [write]);
    RecordedBoth(log, before + [write], since);
    RecordedBoth(log, before + [write] + since, [get]);
    RecordedTwo(l0, write, write);
    KeptByInput(l0, write, key);
    KeptByAll(RecordedInput(l0, write), since, key);
    var l1 := RecordedAll(log, before + [write] + since);
    RecordedTwo(l1, get, get);
    GetAnswers(l1, get.m, data);
  }

  lemma GetAnswers(log: seq<Event>, m: Message, data: string)
    requires m.content.Get? && LastStored(log, m.content.key) == Some(data)
    ensures Recorded(log, m) == log + [Maintained(m.arrived), Answered(m.content.token, m.content.key, data)]
  {
    hide LastStored, Granted;
    StoredMore(log, Maintained(m.arrived), m.content.key);
  }

  lemma GetMisses(log: seq<Event>, m: Message)
    requires m.content.Get? && LastStored(log, m.content.key) == None
    ensures Recorded(log, m)
         == log + [Maintained(m.arrived), Missed(m.content.token, m.content.key, m.handled)]
  {
    hide LastStored, Granted;
    StoredMore(log, Maintained(m.arrived), m.content.key);
  }

  /** The whole exchange: a get that misses, a put with the same token, and another get. Up to ten seconds may pass
      between the miss and the put; then the second get is answered with the data, and otherwise it misses too. */
  lemma PutBetweenGets(log: seq<Event>, first: Message, put: Message, second: Message, token: string, other: string,
                       key: string, data: string)
    requires first.content == Get(token, key) && put.content == Put(token, key, data)
    requires second.content == Get(other, key) && LastStored(log, key) == None
    ensures RecordedAll(log, [FromPeer(first), FromPeer(put)] + [FromPeer(second)])
         == log + [Maintained(first.arrived), Missed(token, key, first.handled), Maintained(put.arrived)]
            + (if put.arrived - first.handled <= 10
               then [Stored(token, key, data), Maintained(second.arrived), Answered(other, key, data)]
               else [Refused(token), Maintained(second.arrived), Missed(other, key, second.handled)])
  {
    hide RecordedAll, Recorded, LastStored, LastMiss, LastMaintained;
    var l0 := log + [Maintained(first.arrived)];
    var l1 := l0 + [Missed(token, key, first.handled)];
    GetMisses(log, first);
    assert Recorded(log, first) == l1;
    StoredMore(log, Maintained(first.arrived), key);
    StoredMore(l0, Missed(token, key, first.handled), key);
    LogMore(l0, Missed(token, key, first.handled), token);
    RecordedTwo(log, FromPeer(first), FromPeer(put));
    PutAfterMiss(l1, put, token, key, data, first.handled);
    var l2 := Recorded(l1, put);
    RecordedBoth(log, [FromPeer(first), FromPeer(put)], [FromPeer(second)]);
    RecordedTwo(l2, FromPeer(second), FromPeer(second));
    if put.arrived - first.handled <= 10 {
      GetAnswers(l2, second, data);
    } else {
      GetMisses(l2, second);
    }
  }

  lemma PutAfterMiss(log: seq<Event>, m: Message, token: string, key: string, data: string, missed: int)
    requires m.content == Put(token, key, data) && LastMiss(log, token) == Some(missed)
    ensures Recorded(log, m)
         == log + [Maintained(m.arrived), if m.arrived - missed <= 10 then Stored(token, key, data) else Refused(token)]
    ensures LastStored(Recorded(log, m), key) == if m.arrived - missed <= 10 then Some(data) else LastStored(log, key)
  {
    hide LastStored, LastMiss, LastMaintained;
    var begun := log + [Maintained(m.arrived)];
    LogMore(log, Maintained(m.arrived), token);
    StoredMore(log, Maintained(m.arrived), key);
    StoredMore(begun, if m.arrived - missed <= 10 then Stored(token, key, data) else Refused(token), key);
  }
}
