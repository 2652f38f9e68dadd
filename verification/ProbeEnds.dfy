/** When the lookup loop of the hash table ends, and how a table comes to be in which it does not. */
module ProbeEnds {
  import opened Common
  import opened OrderedMap
  import opened LinkHash

  /** The slot that the loop looks at after k steps. */
  function Probed(size: nat, home: nat, k: nat): (n: nat)
    requires home < size
    ensures n < size
  {
    if k == 0 then home
    else
      var n := Probed(size, home, k - 1);
      if n + 1 == size then 0 else n + 1
  }

  /** The loop ends at an EMPTY slot or at the key. */
  ghost predicate Exit<K, V>(t: seq<Entry<K, V>>, key: K, n: int)
    requires 0 <= n < |t|
  {
    t[n].slot.Empty? || (t[n].slot.Live? && t[n].slot.key == key)
  }

  ghost predicate LoopEnds<K, V>(t: seq<Entry<K, V>>, hash: K -> nat, key: K)
    requires |t| > 0
  {
    exists k: nat :: Exit(t, key, Probed(|t|, Home(hash, |t|, key), k))
  }

  /** The loop comes to every slot. */
  lemma {:induction false} ComesTo(size: nat, home: nat, k: nat)
    requires home < size && k < size
    ensures Probed(size, home, k) == if home + k < size then home + k else home + k - size
  {
    if k > 0 {
      ComesTo(size, home, k - 1);
    }
  }

  /** It ends, from the home of the key on, if and only if some slot is EMPTY or holds the key. */
  lemma LoopEndsIff<K, V>(t: seq<Entry<K, V>>, hash: K -> nat, key: K)
    requires |t| > 0
    ensures LoopEnds(t, hash, key) <==> HasEmpty(t) || HoldsKey(t, key)
  {
    var home := Home(hash, |t|, key);
    if HasEmpty(t) || HoldsKey(t, key) {
      var n := ExitThere(t, key);
      var k := if home <= n then n - home else n - home + |t|;
      ComesTo(|t|, home, k);
      assert Probed(|t|, home, k) == n;
    }
  }

  lemma ExitThere<K, V>(t: seq<Entry<K, V>>, key: K) returns (n: int)
    requires HasEmpty(t) || HoldsKey(t, key)
    ensures 0 <= n < |t| && Exit(t, key, n)
  {
    if HasEmpty(t) {
      n :| 0 <= n < |t| && t[n].slot.Empty?;
    } else {
      n :| 0 <= n < |t| && t[n].slot.Live? && t[n].slot.key == key;
    }
  }

  /** As many slots as there have been keys are FREED, and the others are EMPTY. */
  ghost predicate WornTo<K, V>(t: seq<Entry<K, V>>, n: nat) {
    && n <= |t|
    && (forall m :: 0 <= m < n ==> t[m].slot.Freed?)
    && (forall m :: n <= m < |t| ==> t[m].slot.Empty?)
  }

  /** Each key in turn is added and deleted. The table is empty then, and no lookup of any key ends. */
  method WornOut(size: nat) returns (t: Table<nat, string>)
    requires size > 0
    ensures t.Valid() && t.size == size && t.View() == []
    ensures forall key :: !LoopEnds(t.table[..], t.hash, key)
  {
    hide Home, ProbeOk, Chained, InOrder, BindingsOf, TakenOut, HoldsKey, HasEmpty, FirstFree, SlotsAfter, FreedAt, LoopEnds;
    t := new Table<nat, string>(size, (key: nat) => key);
    var k: nat := 0;
    while k < size
      invariant 0 <= k <= size && fresh(t) && fresh(t.table)
      invariant t.Valid() && t.size == size && t.hash == ((key: nat) => key) && t.View() == []
      invariant WornTo(t.table[..], k)
    {
      ghost var before := t.table[..];
      NothingHeld(t);
      t.Insert(k, "");
      ghost var held, one := t.table[..], t.View();
      HeldThere(before, held, t.hash, k);
      var r := t.Delete(k);
      OneTakenOut(one, t.View(), k);
      WornMore(before, held, t.table[..], k);
      k := k + 1;
    }
    forall key
      ensures !LoopEnds(t.table[..], t.hash, key)
    {
      AllFreed(t.table[..], key);
      LoopEndsIff(t.table[..], t.hash, key);
    }
  }

  lemma NothingHeld<K, V>(t: Table<K, V>)
    requires t.Valid() && t.View() == []
    ensures !t.Crowded() && t.View() + [] == t.View()
  {
    assert |t.View()| == |t.order|;
  }

  lemma HeldThere(t: seq<Entry<nat, string>>, t2: seq<Entry<nat, string>>, hash: nat -> nat, k: nat)
    requires WornTo(t, k) && k < |t| && hash(k) == k
    requires exists n :: FirstFree(t, hash, k, n) && SlotsAfter(t, t2, n, k, "")
    ensures SlotsAfter(t, t2, k, k, "") && HoldsKey(t2, k)
  {
    var n :| FirstFree(t, hash, k, n) && SlotsAfter(t, t2, n, k, "");
    SmallMod(k, |t|);
    assert !t[k].slot.Live?;
  }

  lemma SmallMod(k: nat, size: nat)
    requires k < size
    ensures k % size == k
  {
  }

  lemma OneTakenOut<K, V>(v: seq<Binding<K, V>>, v2: seq<Binding<K, V>>, key: K)
    requires |v| == 1 && TakenOut(v, v2, key)
    ensures v2 == []
  {
  }

  lemma WornMore(t: seq<Entry<nat, string>>, t2: seq<Entry<nat, string>>, t3: seq<Entry<nat, string>>, k: nat)
    requires WornTo(t, k) && k < |t| && SlotsAfter(t, t2, k, k, "")
    requires exists n :: FreedAt(t2, t3, n) && t2[n].slot.Live? && t2[n].slot.key == k
    ensures WornTo(t3, k + 1)
  {
  }

  lemma AllFreed<K, V>(t: seq<Entry<K, V>>, key: K)
    requires WornTo(t, |t|)
    ensures !HasEmpty(t) && !HoldsKey(t, key)
  {
  }
}
