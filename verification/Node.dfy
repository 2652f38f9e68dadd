/** Contacts, and the operations on lists of them. */
module Node {
  import opened Common
  import opened Lists

  const BUCKET_LENGTH := 6

  datatype Contact = Contact(ip: string, port: int, count: int, nodeID: string, timestamp: int)

  function CreateNodeDetails(ip: string, port: int, nodeID: string, now: int): Contact {
    Contact(ip, port, 0, nodeID, now)
  }

  function HasId(nodeID: string): Contact -> bool {
    (c: Contact) => c.nodeID == nodeID
  }

  /** The contact as it stands in a list after insert_to_tail. */
  function Stamped(c: Contact, now: int): Contact {
    c.(count := 0, timestamp := now)
  }

  /** A full list stays as it is. */
  function InsertToTail(bucket: seq<Contact>, node: Contact, now: int): (r: seq<Contact>)
    ensures |bucket| <= BUCKET_LENGTH ==> |r| <= BUCKET_LENGTH
  {
    if |bucket| < BUCKET_LENGTH then bucket + [Stamped(node, now)] else bucket
  }

  function DeleteHead(bucket: seq<Contact>): seq<Contact> {
    if bucket != [] then bucket[1..] else []
  }

  function DeleteHeadInsertTail(bucket: seq<Contact>, node: Contact, now: int): (r: seq<Contact>)
    ensures |bucket| <= BUCKET_LENGTH ==> |r| <= BUCKET_LENGTH
  {
    InsertToTail(DeleteHead(bucket), node, now)
  }

  /** The position of the first contact with the id, if there is one. */
  method LookForIP(bucket: seq<Contact>, nodeID: string) returns (at: Option<nat>)
    ensures at.Some? ==> at.value < |bucket| && bucket[at.value].nodeID == nodeID
    ensures at.Some? ==> forall i :: 0 <= i < at.value ==> bucket[i].nodeID != nodeID
    ensures at.None? ==> forall i :: 0 <= i < |bucket| ==> bucket[i].nodeID != nodeID
    ensures at == FirstWith(bucket, nodeID)
  {
    var temp := 0;
    while temp < |bucket|
      invariant 0 <= temp <= |bucket|
      invariant forall i :: 0 <= i < temp ==> bucket[i].nodeID != nodeID
    {
      if bucket[temp].nodeID == nodeID {
        FirstWithIs(bucket, nodeID, temp);
        return Some(temp);
      }
      temp := temp + 1;
    }
    FirstWithIs(bucket, nodeID, temp);
    at := None;
  }

  function FirstWith(bucket: seq<Contact>, nodeID: string): (at: Option<nat>)
    ensures at.Some? ==> at.value < |bucket| && bucket[at.value].nodeID == nodeID
  {
    if bucket == [] then None
    else if bucket[0].nodeID == nodeID then Some(0)
    else match FirstWith(bucket[1..], nodeID)
      case None => None
      case Some(i) => Some(i + 1)
  }

  lemma {:induction false} FirstWithIs(bucket: seq<Contact>, nodeID: string, at: nat)
    requires at <= |bucket| && forall i :: 0 <= i < at ==> bucket[i].nodeID != nodeID
    requires at < |bucket| ==> bucket[at].nodeID == nodeID
    ensures FirstWith(bucket, nodeID) == if at < |bucket| then Some(at) else None
  {
    if bucket != [] && at > 0 {
      FirstWithIs(bucket[1..], nodeID, at - 1);
    }
  }

  /** The contact at the position goes to the tail, stamped; the others keep their order. */
  function MoveToTail(bucket: seq<Contact>, at: nat, now: int): (r: seq<Contact>)
    requires at < |bucket|
    ensures |bucket| <= BUCKET_LENGTH ==> |r| == |bucket|
  {
    InsertToTail(bucket[..at] + bucket[at + 1..], bucket[at], now)
  }

  /** Known contacts move to the tail, new ones are added while there is room. */
  function MoveNodeDetails(bucket: seq<Contact>, nodeID: string, ip: string, port: int, now: int): (r: seq<Contact>)
    ensures |bucket| <= BUCKET_LENGTH ==> |r| <= BUCKET_LENGTH
  {
    match FirstWith(bucket, nodeID)
    case Some(at) => MoveToTail(bucket, at, now)
    case None =>
      if |bucket| < BUCKET_LENGTH then InsertToTail(bucket, CreateNodeDetails(ip, port, nodeID, now), now) else bucket
  }

  /** A full bucket moves a known contact to its tail, with its own address, and is left alone by a new one. */
  lemma MovedWhenFull(bucket: seq<Contact>, nodeID: string, ip: string, port: int, now: int)
    requires |bucket| == BUCKET_LENGTH
    ensures var r := MoveNodeDetails(bucket, nodeID, ip, port, now);
            match FirstWith(bucket, nodeID)
            case Some(at) =>
              r == bucket[..at] + bucket[at + 1..] + [Contact(bucket[at].ip, bucket[at].port, 0, nodeID, now)]
            case None => r == bucket
  {
  }

  /** The head gives way to the other contact, which comes last under its own address. */
  lemma HeadReplaced(bucket: seq<Contact>, node: Contact, now: int)
    requires |bucket| <= BUCKET_LENGTH
    ensures DeleteHeadInsertTail(bucket, node, now)
         == (if bucket == [] then [] else bucket[1..]) + [Contact(node.ip, node.port, 0, node.nodeID, now)]
  {
  }

  /** The others, when the first contact with the id is left out. */
  function Others(bucket: seq<Contact>, nodeID: string): seq<Contact> {
    match FirstWith(bucket, nodeID)
    case Some(at) => bucket[..at] + bucket[at + 1..]
    case None => bucket
  }

  /** After an insertion with room the contact is the most recently seen one, and the others are unchanged. A new
      contact has the address that was given; a known one keeps its own. */
  lemma MovedIsLast(bucket: seq<Contact>, nodeID: string, ip: string, port: int, now: int)
    requires |bucket| < BUCKET_LENGTH
    ensures var r := MoveNodeDetails(bucket, nodeID, ip, port, now);
            match FirstWith(bucket, nodeID)
            case Some(at) =>
              r == bucket[..at] + bucket[at + 1..] + [Contact(bucket[at].ip, bucket[at].port, 0, nodeID, now)]
            case None => r == bucket + [Contact(ip, port, 0, nodeID, now)]
  {
  }

  /** Without repeated ids the others are those with other ids. */
  lemma OthersFiltered(bucket: seq<Contact>, nodeID: string)
    requires AtMostOne(bucket, HasId(nodeID))
    ensures Others(bucket, nodeID) == Filter(bucket, Misses(HasId(nodeID)))
  {
    match FirstWith(bucket, nodeID)
    case Some(at) =>
      WithoutOne(bucket, nodeID, at);
    case None =>
      NoneWith(bucket, nodeID);
      FilterAll(bucket, Misses(HasId(nodeID)));
  }

  lemma {:induction false} NoneWith(bucket: seq<Contact>, nodeID: string)
    requires FirstWith(bucket, nodeID) == None
    ensures All(bucket, Misses(HasId(nodeID)))
  {
    if bucket != [] {
      NoneWith(bucket[1..], nodeID);
      ConsAll(bucket, Misses(HasId(nodeID)));
    }
  }

  lemma CutBehindHead(bucket: seq<Contact>, at: nat)
    requires 0 < at < |bucket|
    ensures bucket[..at] + bucket[at + 1..] == [bucket[0]] + (bucket[1..][..at - 1] + bucket[1..][at..])
  {
  }

  lemma {:induction false} WithoutOne(bucket: seq<Contact>, nodeID: string, at: nat)
    requires AtMostOne(bucket, HasId(nodeID)) && FirstWith(bucket, nodeID) == Some(at)
    ensures bucket[..at] + bucket[at + 1..] == Filter(bucket, Misses(HasId(nodeID)))
  {
    if at == 0 {
      NoMore(bucket, HasId(nodeID));
      FilterAll(bucket[1..], Misses(HasId(nodeID)));
    } else {
      hide AtMostOne;
      TailAtMostOne(bucket, HasId(nodeID));
      WithoutOne(bucket[1..], nodeID, at - 1);
      CutBehindHead(bucket, at);
    }
  }

  // ----- delete_node

  function DeleteNode(node: seq<Contact>, nodeID: string): seq<Contact> {
    if node == [] then []
    else if |node| == 1 then if node[0].nodeID == nodeID then [] else node
    else [node[0]] + SkipRemove(node[1..], HasId(nodeID))
  }

  method DeleteNodeInPlace(node: seq<Contact>, nodeID: string) returns (l: seq<Contact>)
    ensures l == DeleteNode(node, nodeID)
  {
    if node == [] {
      return [];
    }
    if |node| == 1 {
      if node[0].nodeID == nodeID {
        return [];
      } else {
        return node;
      }
    }
    l := RemoveAfterHead(node, HasId(nodeID));
  }

  /** delete_node removes its id, and nothing else, if and only if the list has at most one element, or the id
      neither heads it nor belongs to two neighbours behind the head. */
  lemma DeleteNodeRemoves(node: seq<Contact>, nodeID: string)
    ensures DeleteNode(node, nodeID) == Filter(node, Misses(HasId(nodeID)))
       <==> |node| <= 1 || (node[0].nodeID != nodeID && NoNeighbours(node[1..], HasId(nodeID)))
  {
    if |node| > 1 {
      SkipRemoveIff(node[1..], HasId(nodeID));
      if node[0].nodeID == nodeID {
        FilterMembers(node, Misses(HasId(nodeID)));
        assert node[0] in DeleteNode(node, nodeID);
      } else {
        SameTails(node[0], SkipRemove(node[1..], HasId(nodeID)), Filter(node[1..], Misses(HasId(nodeID))));
      }
    } else if |node| == 1 {
      assert node[1..] == [];
    }
  }

  /** For an id that does not repeat, only the head matters. */
  lemma DeleteNodeOnce(node: seq<Contact>, nodeID: string)
    requires AtMostOne(node, HasId(nodeID))
    ensures DeleteNode(node, nodeID) == Filter(node, Misses(HasId(nodeID)))
       <==> |node| <= 1 || node[0].nodeID != nodeID
  {
    hide Filter, DeleteNode;
    DeleteNodeRemoves(node, nodeID);
    if |node| > 1 {
      TailAtMostOne(node, HasId(nodeID));
      OnceNoNeighbours(node[1..], nodeID);
    }
  }

  lemma OnceNoNeighbours(rest: seq<Contact>, nodeID: string)
    requires AtMostOne(rest, HasId(nodeID))
    ensures NoNeighbours(rest, HasId(nodeID))
  {
  }

  /** The input: two neighbours behind the head; one of them stays. */
  lemma TwinStays(c: Contact, d: Contact)
    requires c.nodeID != d.nodeID
    ensures DeleteNode([c, d, d], d.nodeID) == [c, d]
  {
    assert [c, d, d][1..] == [d, d];
    assert [d, d][2..] == [];
    assert SkipRemove([d, d], HasId(d.nodeID)) == [d] + SkipRemove([], HasId(d.nodeID));
  }

  /** The input: the head of a list of two. */
  lemma HeadStays(c: Contact, d: Contact)
    requires c.nodeID != d.nodeID
    ensures DeleteNode([c, d], c.nodeID) == [c, d]
  {
    assert [c, d][1..] == [d];
    assert SkipRemove([d], HasId(c.nodeID)) == [d] + SkipRemove([], HasId(c.nodeID));
  }

  /** It never adds anything. */
  lemma DeleteNodeWithin(node: seq<Contact>, nodeID: string)
    ensures Within(DeleteNode(node, nodeID), node)
  {
    if |node| > 1 {
      SkipRemoveWithin(node[1..], HasId(nodeID));
      assert DeleteNode(node, nodeID)[1..] == SkipRemove(node[1..], HasId(nodeID));
    } else {
      WithinSelf(node);
    }
  }
}
