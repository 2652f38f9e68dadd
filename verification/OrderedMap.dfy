/** A map that remembers insertion order, as a sequence of bindings: what a hash
    table with a list through its entries stands for. */
module OrderedMap {
  import opened Common
  import Json

  datatype Binding<+K, +V> = Binding(key: K, val: V)

  predicate DistinctKeys<K(==), V>(ms: seq<Binding<K, V>>) {
    forall i, j :: 0 <= i < j < |ms| ==> ms[i].key != ms[j].key
  }

  function Remove<K(==), V>(ms: seq<Binding<K, V>>, key: K): seq<Binding<K, V>> {
    if ms == [] then []
    else if ms[0].key == key then Remove(ms[1..], key)
    else [ms[0]] + Remove(ms[1..], key)
  }

  /** Delete the key if present, then insert at the tail. */
  function Put<K(==), V>(ms: seq<Binding<K, V>>, key: K, val: V): seq<Binding<K, V>> {
    Remove(ms, key) + [Binding(key, val)]
  }

  function Get<K(==), V>(ms: seq<Binding<K, V>>, key: K): Option<V> {
    if ms == [] then None
    else if ms[0].key == key then Some(ms[0].val)
    else Get(ms[1..], key)
  }

  lemma {:induction false} GetAppend<K, V>(ms: seq<Binding<K, V>>, b: Binding<K, V>, q: K)
    ensures Get(ms + [b], q) == if Get(ms, q).Some? then Get(ms, q) else if b.key == q then Some(b.val) else None
    decreases |ms|
  {
    if ms == [] {
      assert ms + [b] == [b];
      assert [b][1..] == [];
    } else {
      assert (ms + [b])[1..] == ms[1..] + [b];
      GetAppend(ms[1..], b, q);
    }
  }

  lemma {:induction false} GetRemove<K, V>(ms: seq<Binding<K, V>>, key: K, q: K)
    ensures Get(Remove(ms, key), q) == if q == key then None else Get(ms, q)
    decreases |ms|
  {
    if ms != [] {
      GetRemove(ms[1..], key, q);
      if ms[0].key != key {
        assert ([ms[0]] + Remove(ms[1..], key))[1..] == Remove(ms[1..], key);
      }
    }
  }

  /** The last value put under a key is the one found, and no other key is affected. */
  lemma GetPut<K, V>(ms: seq<Binding<K, V>>, key: K, val: V, q: K)
    ensures Get(Put(ms, key, val), q) == if q == key then Some(val) else Get(ms, q)
  {
    GetRemove(ms, key, q);
    GetAppend(Remove(ms, key), Binding(key, val), q);
  }

  /** Where the only binding of a key stands, Remove takes exactly it out. */
  lemma {:induction false} RemoveAt<K, V>(ms: seq<Binding<K, V>>, i: nat)
    requires i < |ms| && DistinctKeys(ms)
    ensures Remove(ms, ms[i].key) == ms[..i] + ms[i + 1..]
    decreases |ms|
  {
    var key := ms[i].key;
    if i == 0 {
      RemoveAbsent(ms[1..], key);
      assert ms[..0] + ms[1..] == ms[1..];
    } else {
      RemoveAt(ms[1..], i - 1);
      assert ms[..i] + ms[i + 1..] == [ms[0]] + (ms[1..][..i - 1] + ms[1..][i..]);
    }
  }

  lemma {:induction false} RemoveAbsent<K, V>(ms: seq<Binding<K, V>>, key: K)
    requires forall i :: 0 <= i < |ms| ==> ms[i].key != key
    ensures Remove(ms, key) == ms && Get(ms, key) == None
    decreases |ms|
  {
    if ms != [] {
      assert ms[0].key != key;
      RemoveAbsent(ms[1..], key);
    }
  }

  lemma {:induction false} GetAt<K, V>(ms: seq<Binding<K, V>>, i: nat)
    requires i < |ms| && DistinctKeys(ms)
    ensures Get(ms, ms[i].key) == Some(ms[i].val)
    decreases |ms|
  {
    if i > 0 {
      assert ms[0].key != ms[i].key;
      GetAt(ms[1..], i - 1);
    }
  }

  // ----- The members of a JSON object are such a map

  function Bindings(ms: seq<Json.Member>): seq<Binding<string, Json.Json>> {
    seq(|ms|, i requires 0 <= i < |ms| => Binding(ms[i].key, ms[i].val))
  }

  lemma {:induction false} BindingsRemove(ms: seq<Json.Member>, key: string)
    ensures Bindings(Json.RemoveKey(ms, key)) == Remove(Bindings(ms), key)
    decreases |ms|
  {
    if ms != [] {
      assert Bindings(ms)[1..] == Bindings(ms[1..]);
      BindingsRemove(ms[1..], key);
      var rest := Json.RemoveKey(ms[1..], key);
      assert Bindings([ms[0]] + rest) == [Bindings(ms)[0]] + Bindings(rest);
    } else {
      assert Bindings(ms) == [];
    }
  }

  /** What the parser does to the members of an object is what the table does to its entries. */
  lemma MembersArePut(ms: seq<Json.Member>, key: string, val: Json.Json)
    ensures Bindings(Json.AddMember(ms, key, val)) == Put(Bindings(ms), key, val)
  {
    BindingsRemove(ms, key);
  }
}
