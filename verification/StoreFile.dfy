/** Lists of stored files: keys are replaced, entries carry the time they were put in, old ones are cleaned. */
module StoreFile {
  import opened Common
  import opened Lists

  datatype Entry<V> = Entry(key: string, value: V, timestamp: int)

  function HasKey<V>(key: string): Entry<V> -> bool {
    (e: Entry<V>) => e.key == key
  }

  function NotOlder<V>(limit: int): Entry<V> -> bool {
    (e: Entry<V>) => limit <= e.timestamp
  }

  function DeleteKey<V>(values: seq<Entry<V>>, key: string): seq<Entry<V>> {
    if values == [] then []
    else if values[0].key == key then values[1..]
    else [values[0]] + SkipRemove(values[1..], HasKey(key))
  }

  function Clean<V>(values: seq<Entry<V>>, limit: int): seq<Entry<V>> {
    if values != [] && values[0].timestamp < limit then Clean(values[1..], limit) else values
  }

  function OtherKeys<V>(): (Entry<V>, Entry<V>) -> bool {
    (d: Entry<V>, e: Entry<V>) => d.key != e.key
  }

  function NotLater<V>(): (Entry<V>, Entry<V>) -> bool {
    (d: Entry<V>, e: Entry<V>) => d.timestamp <= e.timestamp
  }

  ghost predicate UniqueKeys<V>(values: seq<Entry<V>>) {
    Pairwise(values, OtherKeys())
  }

  ghost predicate InTimeOrder<V>(values: seq<Entry<V>>) {
    Pairwise(values, NotLater())
  }

  // ----- What the two walks amount to

  lemma UniqueAtMostOne<V>(values: seq<Entry<V>>, key: string)
    requires UniqueKeys(values)
    ensures AtMostOne(values, HasKey(key))
  {
    forall i, j | 0 <= i < j < |values|
      ensures !(HasKey(key)(values[i]) && HasKey(key)(values[j]))
    {
      assert OtherKeys()(values[i], values[j]);
    }
  }

  /** With unique keys delete_key removes its key and nothing else. */
  lemma DeleteKeyFilters<V>(values: seq<Entry<V>>, key: string)
    requires UniqueKeys(values)
    ensures DeleteKey(values, key) == Filter(values, Misses(HasKey(key)))
  {
    UniqueAtMostOne(values, key);
    if values != [] {
      if values[0].key == key {
        NoMore(values, HasKey(key));
        FilterAll(values[1..], Misses(HasKey(key)));
      } else {
        TailAtMostOne(values, HasKey(key));
        SkipRemoveFilters(values[1..], HasKey(key));
      }
    }
  }

  /** In time order, dropping a stale prefix is dropping everything stale. */
  lemma {:induction false} CleanFilters<V>(values: seq<Entry<V>>, limit: int)
    requires InTimeOrder(values)
    ensures Clean(values, limit) == Filter(values, NotOlder(limit))
  {
    if values != [] {
      if values[0].timestamp < limit {
        TailPairwise(values, NotLater());
        CleanFilters(values[1..], limit);
      } else {
        forall i | 0 <= i < |values|
          ensures NotOlder(limit)(values[i])
        {
          if i > 0 {
            assert NotLater()(values[0], values[i]);
          }
        }
        FilterAll(values, NotOlder(limit));
      }
    }
  }

  /** Out of time order it is not: the second entry hides behind the first. */
  lemma CleanNeedsOrder()
    ensures var values := [Entry("a", 0, 5), Entry("b", 0, 1)];
            Clean(values, 3) == values && Filter(values, NotOlder(3)) != values
  {
    var values := [Entry("a", 0, 5), Entry("b", 0, 1)];
    FilterHas(values, NotOlder(3), values[1]);
    assert values[1] in values;
  }

  // ----- A list against a map of last writes

  /** Not cleaned away: at or after the horizon. */
  predicate Live(t: int, horizon: Option<int>) {
    horizon.Some? ==> horizon.value <= t
  }

  ghost predicate Kept<V>(k: string, written: map<string, (V, int)>, horizon: Option<int>) {
    k in written && Live(written[k].1, horizon)
  }

  /** The list holds exactly the last writes that are not older than the horizon. */
  ghost predicate Mirrors<V>(files: seq<Entry<V>>, written: map<string, (V, int)>, horizon: Option<int>) {
    && (forall e :: e in files ==> Kept(e.key, written, horizon) && written[e.key] == (e.value, e.timestamp))
    && (forall k :: k in written && Live(written[k].1, horizon) ==> Entry(k, written[k].0, written[k].1) in files)
  }

  ghost predicate UpTo<V>(files: seq<Entry<V>>, clock: int) {
    forall e :: e in files ==> e.timestamp <= clock
  }

  ghost predicate Ordered<V>(files: seq<Entry<V>>, clock: int) {
    UniqueKeys(files) && InTimeOrder(files) && UpTo(files, clock)
  }

  lemma WithinUpTo<V>(s: seq<Entry<V>>, t: seq<Entry<V>>, clock: int)
    requires (forall e :: e in s ==> e in t) && UpTo(t, clock)
    ensures UpTo(s, clock)
  {
  }

  lemma FilteredOrdered<V>(files: seq<Entry<V>>, keep: Entry<V> -> bool, clock: int)
    requires Ordered(files, clock)
    ensures Ordered(Filter(files, keep), clock)
  {
    FilterWithin(files, keep);
    WithinPairwise(Filter(files, keep), files, OtherKeys());
    WithinPairwise(Filter(files, keep), files, NotLater());
    FilterMembers(files, keep);
    WithinUpTo(Filter(files, keep), files, clock);
  }

  lemma DeletedMirrors<V>(files: seq<Entry<V>>, written: map<string, (V, int)>, horizon: Option<int>, key: string)
    requires Mirrors(files, written, horizon)
    ensures Mirrors(Filter(files, Misses(HasKey(key))), written - {key}, horizon)
  {
    FilterMembers(files, Misses(HasKey(key)));
  }

  lemma CleanedMirrors<V>(files: seq<Entry<V>>, written: map<string, (V, int)>, horizon: Option<int>, limit: int)
    requires Mirrors(files, written, horizon)
    ensures Mirrors(Filter(files, NotOlder(limit)), written, Later(horizon, limit))
  {
    FilterMembers(files, NotOlder(limit));
  }

  function Later(horizon: Option<int>, limit: int): Option<int> {
    Some(if horizon.Some? then Max(horizon.value, limit) else limit)
  }

  lemma AppendedMirrors<V>(files: seq<Entry<V>>, written: map<string, (V, int)>, horizon: Option<int>, e: Entry<V>)
    requires Mirrors(files, written, horizon) && e.key !in written && Live(e.timestamp, horizon)
    ensures Mirrors(files + [e], written[e.key := (e.value, e.timestamp)], horizon)
  {
  }

  lemma AppendedOrdered<V>(files: seq<Entry<V>>, clock: int, e: Entry<V>)
    requires Ordered(files, clock) && clock <= e.timestamp && forall d :: d in files ==> d.key != e.key
    ensures Ordered(files + [e], e.timestamp)
  {
    var more := files + [e];
    forall i, j | 0 <= i < j < |more|
      ensures OtherKeys()(more[i], more[j]) && NotLater()(more[i], more[j])
    {
      if j < |files| {
        assert OtherKeys()(files[i], files[j]) && NotLater()(files[i], files[j]);
      } else {
        assert more[i] in files;
      }
    }
  }

  // ----- The list

  class TimedList<V> {
    var files: seq<Entry<V>>

    /** The last value written under each key that was not deleted since, and when. */
    ghost var written: map<string, (V, int)>
    /** The time of the last operation. */
    ghost var clock: int
    /** Everything older has been cleaned away. */
    ghost var horizon: Option<int>

    ghost predicate Valid()
      reads this
    {
      Ordered(files, clock) && Live(clock, horizon) && Mirrors(files, written, horizon)
    }

    constructor (now: int)
      ensures Valid() && files == [] && written == map[] && clock == now && horizon == None
    {
      files, written, clock, horizon := [], map[], now, None;
    }

    /** delete_key: the key is gone, whatever else is there stays. */
    method Delete(key: string)
      requires Valid()
      modifies `files, `written
      ensures Valid() && written == old(written) - {key}
      ensures files == Filter(old(files), Misses(HasKey(key)))
    {
      hide Ordered, Mirrors, UniqueKeys, Live;
      OrderedUnique(files, clock);
      DeleteKeyFilters(files, key);
      FilteredOrdered(files, Misses(HasKey(key)), clock);
      DeletedMirrors(files, written, horizon, key);
      if files != [] {
        if files[0].key == key {
          files := files[1..];
        } else {
          files := RemoveAfterHead(files, HasKey(key));
        }
      }
      written := written - {key};
    }

    /** insert_to_tail_file: a key that is there moves to the tail with its new value. */
    method Insert(key: string, value: V, now: int)
      requires Valid() && clock <= now
      modifies this
      ensures Valid() && clock == now && horizon == old(horizon)
      ensures written == old(written)[key := (value, now)]
      ensures files == Filter(old(files), Misses(HasKey(key))) + [Entry(key, value, now)]
    {
      hide Ordered, Mirrors, UniqueKeys, Live;
      Delete(key);
      LiveLater(clock, now, horizon);
      var file := Entry(key, value, now);
      Absent(files, written, horizon, key);
      AppendedOrdered(files, clock, file);
      AppendedMirrors(files, written, horizon, file);
      files := files + [file];
      written := written[key := (value, now)];
      clock := now;
    }

    /** clean: the same as keeping whatever is not older than the age. */
    method CleanOlder(age: nat, now: int)
      requires Valid() && clock <= now
      modifies this
      ensures Valid() && clock == now && written == old(written)
      ensures horizon == Later(old(horizon), now - age)
      ensures files == Filter(old(files), NotOlder(now - age))
    {
      hide Ordered, Mirrors, InTimeOrder, Live;
      var limit := now - age;
      OrderedInTime(files, clock);
      CleanFilters(files, limit);
      FilteredOrdered(files, NotOlder(limit), clock);
      CleanedMirrors(files, written, horizon, limit);
      LaterLive(clock, now, horizon, limit);
      OrderedLater(Filter(files, NotOlder(limit)), clock, now);
      ghost var whole := files;
      while files != [] && files[0].timestamp < limit
        invariant Clean(files, limit) == Clean(whole, limit)
        decreases |files|
        modifies `files
      {
        files := files[1..];
      }
      clock := now;
      horizon := Later(horizon, limit);
    }

    /** find_key: the last write under the key, unless it was deleted or has expired. */
    method FindKey(key: string) returns (found: Option<Entry<V>>)
      requires Valid()
      ensures found == if key in written && Live(written[key].1, horizon)
                       then Some(Entry(key, written[key].0, written[key].1)) else None
    {
      hide Ordered, Live;
      var temp := 0;
      while temp < |files|
        invariant 0 <= temp <= |files| && forall i :: 0 <= i < temp ==> files[i].key != key
      {
        if files[temp].key == key {
          assert files[temp] in files;
          return Some(files[temp]);
        }
        temp := temp + 1;
      }
      found := None;
    }
  }

  lemma OrderedUnique<V>(files: seq<Entry<V>>, clock: int)
    requires Ordered(files, clock)
    ensures UniqueKeys(files)
  {
  }

  lemma OrderedInTime<V>(files: seq<Entry<V>>, clock: int)
    requires Ordered(files, clock)
    ensures InTimeOrder(files)
  {
  }

  lemma OrderedLater<V>(files: seq<Entry<V>>, clock: int, now: int)
    requires Ordered(files, clock) && clock <= now
    ensures Ordered(files, now)
  {
    hide UniqueKeys, InTimeOrder;
  }

  lemma LiveLater(clock: int, now: int, horizon: Option<int>)
    requires Live(clock, horizon) && clock <= now
    ensures Live(now, horizon)
  {
  }

  lemma LaterLive(clock: int, now: int, horizon: Option<int>, limit: int)
    requires Live(clock, horizon) && clock <= now && limit <= now
    ensures Live(now, Later(horizon, limit))
  {
  }

  lemma Absent<V>(files: seq<Entry<V>>, written: map<string, (V, int)>, horizon: Option<int>, key: string)
    requires Mirrors(files, written, horizon) && key !in written
    ensures forall d :: d in files ==> d.key != key
  {
  }
}
