/** The open-addressing hash table with a doubly linked list through its entries. */
module LinkHash {
  import opened Common
  import opened OrderedMap

  /** LH_EMPTY, LH_FREED, or a key with its value. */
  datatype Slot<K, V> = Empty | Freed | Live(key: K, val: V)

  /** An entry; next and prev are positions in the table, NIL for the null pointer. */
  datatype Entry<K, V> = Entry(slot: Slot<K, V>, next: int, prev: int)

  const NIL := -1

  // ----- Probing

  /** How many probes lead from home to n. */
  function Dist(size: int, home: int, n: int): int {
    if home <= n then n - home else n - home + size
  }

  lemma FirstProbe(size: int, home: int)
    requires 0 <= home < size
    ensures Dist(size, home, home) == 0 && forall m :: 0 <= m < size ==> Dist(size, home, m) >= 0
  {
  }

  lemma NextProbe(size: int, home: int, n: int, stop: int)
    requires 0 <= home < size && 0 <= n < size && 0 <= stop < size && n != stop
    requires Dist(size, home, n) <= Dist(size, home, stop)
    ensures var next := if n + 1 == size then 0 else n + 1;
            Dist(size, home, n) < Dist(size, home, next) <= Dist(size, home, stop)
    ensures var next := if n + 1 == size then 0 else n + 1;
            forall m :: 0 <= m < size && Dist(size, home, m) < Dist(size, home, next)
                   ==> Dist(size, home, m) < Dist(size, home, n) || m == n
  {
  }

  function Home<K>(hash: K -> nat, size: nat, key: K): nat
    requires size > 0
  {
    hash(key) % size
  }

  /** No EMPTY slot lies on the probe path before a live key. */
  ghost predicate ProbeOk<K, V>(t: seq<Entry<K, V>>, hash: K -> nat) {
    forall n, m :: 0 <= n < |t| && 0 <= m < |t| && t[n].slot.Live?
      && Dist(|t|, Home(hash, |t|, t[n].slot.key), m) < Dist(|t|, Home(hash, |t|, t[n].slot.key), n)
      ==> !t[m].slot.Empty?
  }

  /** n is the first slot on the probe path of the key that is not taken. */
  ghost predicate FirstFree<K, V>(t: seq<Entry<K, V>>, hash: K -> nat, key: K, n: int) {
    && 0 <= n < |t| && !t[n].slot.Live?
    && forall m :: 0 <= m < |t| && Dist(|t|, Home(hash, |t|, key), m) < Dist(|t|, Home(hash, |t|, key), n)
         ==> t[m].slot.Live?
  }

  ghost predicate HoldsKey<K, V>(t: seq<Entry<K, V>>, key: K) {
    exists n :: 0 <= n < |t| && t[n].slot.Live? && t[n].slot.key == key
  }

  ghost predicate HasEmpty<K, V>(t: seq<Entry<K, V>>) {
    exists n :: 0 <= n < |t| && t[n].slot.Empty?
  }

  ghost predicate NoFreed<K, V>(t: seq<Entry<K, V>>) {
    forall n :: 0 <= n < |t| ==> !t[n].slot.Freed?
  }

  // ----- The list through the entries

  ghost predicate InOrder<K, V>(t: seq<Entry<K, V>>, order: seq<int>) {
    && Distinct(order)
    && (forall i :: 0 <= i < |order| ==> 0 <= order[i] < |t| && t[order[i]].slot.Live?)
    && (forall n :: 0 <= n < |t| && t[n].slot.Live? ==> n in order)
  }

  /** The list from head to tail visits exactly the live slots, in the given order, both ways. */
  ghost predicate Chained<K, V>(t: seq<Entry<K, V>>, order: seq<int>, head: int, tail: int) {
    && InOrder(t, order)
    && head == (if order == [] then NIL else order[0])
    && tail == (if order == [] then NIL else order[|order| - 1])
    && (order != [] ==> t[head].prev == NIL && t[tail].next == NIL)
    && (forall i, j :: 0 <= i && j == i + 1 && j < |order| ==>
          t[order[i]].next == order[j] && t[order[j]].prev == order[i])
  }

  ghost function BindingsOf<K, V>(t: seq<Entry<K, V>>, order: seq<int>): (r: seq<Binding<K, V>>)
    requires forall i :: 0 <= i < |order| ==> 0 <= order[i] < |t| && t[order[i]].slot.Live?
    ensures |r| == |order|
  {
    seq(|order|, i requires 0 <= i < |order| => Binding(t[order[i]].slot.key, t[order[i]].slot.val))
  }

  /** Fewer entries than slots: some slot is not taken. */
  lemma FreeSlotExists<K, V>(t: seq<Entry<K, V>>, order: seq<int>)
    requires InOrder(t, order) && |order| < |t|
    ensures exists n :: 0 <= n < |t| && !t[n].slot.Live?
  {
    var taken := set n | n in order;
    var all := UpTo(|t|);
    Cardinality(order);
    if all <= taken {
      SubsetSize(all, taken);
    }
    var n :| n in all && n !in taken;
  }

  /** No more entries than slots. */
  lemma AtMostSize<K, V>(t: seq<Entry<K, V>>, order: seq<int>)
    requires InOrder(t, order)
    ensures |order| <= |t|
  {
    var taken := set n | n in order;
    var all := UpTo(|t|);
    DistinctSize(order);
    SubsetSize(taken, all);
  }

  lemma {:induction false} Cardinality(s: seq<int>)
    ensures |set n | n in s| <= |s|
    decreases |s|
  {
    if s == [] {
      assert (set n | n in s) == {};
    } else {
      Cardinality(s[1..]);
      assert (set n | n in s) == {s[0]} + set n | n in s[1..];
    }
  }

  lemma {:induction false} DistinctSize(s: seq<int>)
    requires Distinct(s)
    ensures |set n | n in s| == |s|
    decreases |s|
  {
    if s == [] {
      assert (set n | n in s) == {};
    } else {
      DistinctSize(s[1..]);
      assert (set n | n in s) == {s[0]} + set n | n in s[1..];
    }
  }

  ghost function UpTo(k: nat): (r: set<int>)
    ensures forall n :: n in r <==> 0 <= n < k
    ensures |r| == k
  {
    if k == 0 then {} else UpTo(k - 1) + {k - 1}
  }

  lemma SubsetSize(a: set<int>, b: set<int>)
    requires a <= b
    ensures |a| <= |b|
  {
    assert a + (b - a) == b;
    assert a * (b - a) == {};
  }

  // ----- Changing one slot

  /** What an insertion at the first free slot leaves. */
  ghost predicate Inserted<K, V>(t: seq<Entry<K, V>>, t2: seq<Entry<K, V>>, order: seq<int>, n: int, key: K, val: V)
    requires order != [] ==> 0 <= order[|order| - 1] < |t|
  {
    && |t2| == |t| && 0 <= n < |t|
    && t2[n] == Entry(Live(key, val), NIL, if order == [] then NIL else order[|order| - 1])
    && (forall m :: 0 <= m < |t| && m != n ==>
          t2[m] == if order != [] && m == order[|order| - 1] then t[m].(next := n) else t[m])
  }

  lemma InsertedOrder<K, V>(t: seq<Entry<K, V>>, t2: seq<Entry<K, V>>, order: seq<int>, n: int, key: K, val: V)
    requires InOrder(t, order) && 0 <= n < |t| && !t[n].slot.Live?
    requires Inserted(t, t2, order, n, key, val)
    ensures InOrder(t2, order + [n])
    ensures BindingsOf(t2, order + [n]) == BindingsOf(t, order) + [Binding(key, val)]
  {
    var o2 := order + [n];
    forall m | 0 <= m < |t2| && t2[m].slot.Live?
      ensures m in o2
    {
      if m != n {
        assert m in order;
      } else {
        assert o2[|order|] == n;
      }
    }
    forall i | 0 <= i < |order|
      ensures order[i] != n && t2[order[i]].slot == t[order[i]].slot
    {
    }
  }

  lemma InsertedChain<K, V>(t: seq<Entry<K, V>>, t2: seq<Entry<K, V>>, order: seq<int>, head: int, tail: int,
                            n: int, key: K, val: V)
    requires Chained(t, order, head, tail) && 0 <= n < |t| && !t[n].slot.Live?
    requires Inserted(t, t2, order, n, key, val)
    ensures Chained(t2, order + [n], if order == [] then n else head, n)
    ensures BindingsOf(t2, order + [n]) == BindingsOf(t, order) + [Binding(key, val)]
  {
    InsertedOrder(t, t2, order, n, key, val);
    hide InOrder, BindingsOf;
    var o2 := order + [n];
    forall i, j | 0 <= i && j == i + 1 && j < |o2|
      ensures t2[o2[i]].next == o2[j] && t2[o2[j]].prev == o2[i]
    {
      InsertedLink(t, order, n, i);
      if j < |order| { InsertedLink(t, order, n, j); }
    }
    if order != [] { InsertedLink(t, order, n, 0); }
  }

  lemma InsertedLink<K, V>(t: seq<Entry<K, V>>, order: seq<int>, n: int, i: nat)
    requires InOrder(t, order) && 0 <= n < |t| && !t[n].slot.Live? && i < |order|
    ensures 0 <= order[i] < |t| && order[i] != n
    ensures order[i] == order[|order| - 1] <==> i == |order| - 1
  {
  }

  lemma InsertedProbe<K, V>(t: seq<Entry<K, V>>, t2: seq<Entry<K, V>>, hash: K -> nat, order: seq<int>, n: int,
                            key: K, val: V)
    requires ProbeOk(t, hash) && FirstFree(t, hash, key, n)
    requires order != [] ==> 0 <= order[|order| - 1] < |t|
    requires Inserted(t, t2, order, n, key, val)
    ensures ProbeOk(t2, hash)
  {
  }

  function Without<T>(s: seq<T>, i: nat): seq<T>
    requires i < |s|
  {
    s[..i] + s[i + 1..]
  }

  /** What unlinking the i-th entry leaves. */
  ghost predicate Unlinked<K, V>(t: seq<Entry<K, V>>, t2: seq<Entry<K, V>>, order: seq<int>, i: nat)
    requires InOrder(t, order) && i < |order|
  {
    && |t2| == |t|
    && t2[order[i]] == Entry(Freed, NIL, NIL)
    && (forall m :: 0 <= m < |t| && m != order[i] ==> t2[m].slot == t[m].slot)
    && (forall m :: 0 <= m < |t| && m != order[i] && (i + 1 < |order| ==> m != order[i + 1])
          ==> t2[m].prev == t[m].prev)
    && (forall m :: 0 <= m < |t| && m != order[i] && (i > 0 ==> m != order[i - 1])
          ==> t2[m].next == t[m].next)
    && (i > 0 ==> t2[order[i - 1]].next == if i + 1 < |order| then order[i + 1] else NIL)
    && (i + 1 < |order| ==> t2[order[i + 1]].prev == if i > 0 then order[i - 1] else NIL)
  }

  /** The two neighbours are linked to each other. */
  ghost function Unlinking<K, V>(t: seq<Entry<K, V>>, n: int, p: int, q: int): seq<Entry<K, V>>
    requires 0 <= n < |t| && p < |t| && q < |t| && NIL <= p && NIL <= q
  {
    var t1 := if p != NIL then t[p := t[p].(next := q)] else t;
    var t2 := if q != NIL then t1[q := t1[q].(prev := p)] else t1;
    t2[n := Entry(Freed, NIL, NIL)]
  }

  lemma UnlinkingIs<K, V>(t: seq<Entry<K, V>>, order: seq<int>, i: nat)
    requires InOrder(t, order) && i < |order|
    ensures var p := if i > 0 then order[i - 1] else NIL;
            var q := if i + 1 < |order| then order[i + 1] else NIL;
            NIL <= p < |t| && NIL <= q < |t| && Unlinked(t, Unlinking(t, order[i], p, q), order, i)
  {
  }

  /** Every slot that is probed before n is taken. */
  ghost predicate TakenBefore<K, V>(t: seq<Entry<K, V>>, home: int, n: int) {
    forall m :: 0 <= m < |t| && Dist(|t|, home, m) < Dist(|t|, home, n) ==> t[m].slot.Live?
  }

  lemma TakenFirst<K, V>(t: seq<Entry<K, V>>, home: int)
    requires 0 <= home < |t|
    ensures TakenBefore(t, home, home)
  {
    FirstProbe(|t|, home);
  }

  lemma TakenNext<K, V>(t: seq<Entry<K, V>>, home: int, n: int, stop: int)
    requires 0 <= home < |t| && 0 <= n < |t| && 0 <= stop < |t| && TakenBefore(t, home, n)
    requires t[n].slot.Live? && !t[stop].slot.Live? && Dist(|t|, home, n) <= Dist(|t|, home, stop)
    ensures var next := if n + 1 == |t| then 0 else n + 1;
            TakenBefore(t, home, next) && Dist(|t|, home, n) < Dist(|t|, home, next) <= Dist(|t|, home, stop)
  {
    hide Dist;
    NextProbe(|t|, home, n, stop);
  }

  lemma TakenIs<K, V>(t: seq<Entry<K, V>>, home: int, n: int)
    requires TakenBefore(t, home, n)
    ensures forall m :: 0 <= m < |t| && Dist(|t|, home, m) < Dist(|t|, home, n) ==> t[m].slot.Live?
  {
    hide Dist;
  }

  lemma EndsOf<K, V>(t: seq<Entry<K, V>>, order: seq<int>, head: int, tail: int)
    requires Chained(t, order, head, tail)
    ensures head == NIL <==> order == []
    ensures order != [] ==> 0 <= order[|order| - 1] < |t| && tail == order[|order| - 1] && t[tail].slot.Live?
  {
  }

  lemma FreeHere<K, V>(t: seq<Entry<K, V>>, hash: K -> nat, key: K, n: int)
    requires FirstFree(t, hash, key, n)
    ensures 0 <= n < |t| && !t[n].slot.Live?
  {
  }

  lemma TailIs<K, V>(t: seq<Entry<K, V>>, order: seq<int>, head: int, tail: int)
    requires Chained(t, order, head, tail) && order != []
    ensures head == order[0] && tail == order[|order| - 1]
  {
  }

  lemma WithoutAt(order: seq<int>, i: nat)
    requires Distinct(order) && i < |order|
    ensures |Without(order, i)| == |order| - 1 && Distinct(Without(order, i))
    ensures forall a :: 0 <= a < |order| - 1
              ==> Without(order, i)[a] == order[if a < i then a else a + 1] && Without(order, i)[a] != order[i]
    ensures forall m :: m in order && m != order[i] ==> m in Without(order, i)
  {
    forall m | m in order && m != order[i]
      ensures m in Without(order, i)
    {
      var a :| 0 <= a < |order| && order[a] == m;
      assert Without(order, i)[if a < i then a else a - 1] == m;
    }
  }

  lemma UnlinkedOrder<K, V>(t: seq<Entry<K, V>>, t2: seq<Entry<K, V>>, order: seq<int>, i: nat)
    requires InOrder(t, order) && i < |order| && Unlinked(t, t2, order, i)
    ensures InOrder(t2, Without(order, i))
  {
    hide Without, Distinct;
    WithoutAt(order, i);
  }

  lemma UnlinkedBindings<K, V>(t: seq<Entry<K, V>>, t2: seq<Entry<K, V>>, order: seq<int>, i: nat)
    requires InOrder(t, order) && i < |order| && Unlinked(t, t2, order, i) && InOrder(t2, Without(order, i))
    ensures BindingsOf(t2, Without(order, i)) == Without(BindingsOf(t, order), i)
  {
    hide Distinct;
    WithoutAt(order, i);
  }

  lemma UnlinkedChain<K, V>(t: seq<Entry<K, V>>, t2: seq<Entry<K, V>>, order: seq<int>, head: int, tail: int, i: nat)
    requires Chained(t, order, head, tail) && i < |order| && Unlinked(t, t2, order, i)
    ensures
      var o2 := Without(order, i);
      Chained(t2, o2, if o2 == [] then NIL else o2[0], if o2 == [] then NIL else o2[|o2| - 1])
  {
    UnlinkedOrder(t, t2, order, i);
    hide BindingsOf;
    var o2 := Without(order, i);
    forall a, b | 0 <= a && b == a + 1 && b < |o2|
      ensures t2[o2[a]].next == o2[b] && t2[o2[b]].prev == o2[a]
    {
      UnlinkedLink(t, t2, order, head, tail, i, a);
    }
  }

  lemma UnlinkedLink<K, V>(t: seq<Entry<K, V>>, t2: seq<Entry<K, V>>, order: seq<int>, head: int, tail: int,
                           i: nat, a: nat)
    requires Chained(t, order, head, tail) && i < |order| && Unlinked(t, t2, order, i)
    requires a + 1 < |order| - 1
    ensures
      var o2 := Without(order, i);
      0 <= o2[a] < |t2| && 0 <= o2[a + 1] < |t2| && t2[o2[a]].next == o2[a + 1] && t2[o2[a + 1]].prev == o2[a]
  {
    var x, y := if a < i then a else a + 1, if a + 1 < i then a + 1 else a + 2;
    assert Without(order, i)[a] == order[x] && Without(order, i)[a + 1] == order[y];
    if a + 1 != i {
      assert y == x + 1;
    }
  }

  lemma UnlinkedProbe<K, V>(t: seq<Entry<K, V>>, t2: seq<Entry<K, V>>, hash: K -> nat, order: seq<int>, i: nat)
    requires ProbeOk(t, hash) && InOrder(t, order) && i < |order| && Unlinked(t, t2, order, i)
    ensures ProbeOk(t2, hash)
  {
  }

  // ----- The table

  class Table<K(==), V> {
    const hash: K -> nat
    var size: int
    var count: int
    var head: int
    var tail: int
    var table: array<Entry<K, V>>
    ghost var order: seq<int>

    ghost predicate Valid()
      reads this, table
    {
      && 0 < size == table.Length && count == |order|
      && Chained(table[..], order, head, tail)
      && ProbeOk(table[..], hash)
    }

    /** The entries in insertion order. */
    ghost function View(): seq<Binding<K, V>>
      requires Valid()
      reads this, table
    {
      BindingsOf(table[..], order)
    }

    /** `count > size * 0.66`, the test that makes an insertion grow the table first. */
    ghost predicate Crowded()
      reads this
    {
      100 * count > 66 * size
    }

    /** `lh_table_new`. */
    constructor (size: int, hash: K -> nat)
      requires size > 0
      ensures Valid() && View() == [] && this.size == size && this.hash == hash && fresh(table)
      ensures forall n :: 0 <= n < size ==> table[n].slot.Empty?
    {
      this.hash := hash;
      this.size := size;
      count, head, tail := 0, NIL, NIL;
      table := new Entry<K, V>[size](_ => Entry(Empty, NIL, NIL));
      order := [];
    }

    /** `lh_table_lookup_entry`. The loop has no other exit than an EMPTY slot or the key, so one of them
        must be there. NIL stands for the null pointer. */
    method LookupEntry(key: K) returns (n: int)
      requires Valid()
      requires HasEmpty(table[..]) || HoldsKey(table[..], key)
      ensures n == NIL <==> !HoldsKey(table[..], key)
      ensures n != NIL ==> 0 <= n < size && table[n].slot.Live? && table[n].slot.key == key
    {
      hide Home, Chained, ProbeOk, BindingsOf;
      ghost var home := Home(hash, size, key);
      HomeInRange(hash, size, key);
      ghost var stop :| 0 <= stop < size && (table[stop].slot.Empty? || (table[stop].slot.Live? && table[stop].slot.key == key));
      n := hash(key) % size;
      while true
        invariant 0 <= n < size && Dist(size, home, n) <= Dist(size, home, stop)
        invariant forall m :: 0 <= m < size && Dist(size, home, m) < Dist(size, home, n) ==>
          !table[m].slot.Empty? && !(table[m].slot.Live? && table[m].slot.key == key)
        decreases Dist(size, home, stop) - Dist(size, home, n)
      {
        if table[n].slot.Empty? {
          NotBeyondEmpty(table[..], hash, key, n);
          return NIL;
        }
        if table[n].slot.Live? && table[n].slot.key == key {
          return;
        }
        n := n + 1;
        if n == size {
          n := 0;
        }
      }
    }

    /** `lh_table_insert`. Nothing stops a caller from inserting a key twice. */
    method Insert(key: K, val: V)
      requires Valid()
      modifies this, table
      ensures Valid() && View() == old(View()) + [Binding(key, val)]
      ensures table == old(table) || fresh(table)
      ensures size == if old(Crowded()) then 2 * old(size) else old(size)
      ensures old(Crowded()) ==> NoFreed(table[..])
      ensures !old(Crowded()) ==>
        exists n :: FirstFree(old(table[..]), hash, key, n) && SlotsAfter(old(table[..]), table[..], n, key, val)
      decreases if Crowded() then 2 else 0
    {
      if 100 * count > 66 * size {
        AtMostSize(table[..], order);
        Resize(2 * size);
      }
      ghost var t := table[..];
      FreeSlotExists(t, order);
      var n := FindFree(key);
      Link(n, key, val);
      assert FirstFree(t, hash, key, n) && SlotsAfter(t, table[..], n, key, val);
    }

    /** The probe loop of an insertion: the first slot that is EMPTY or FREED. */
    method FindFree(key: K) returns (n: int)
      requires Valid() && exists m :: 0 <= m < size && !table[m].slot.Live?
      ensures FirstFree(table[..], hash, key, n)
    {
      hide Home, Chained, ProbeOk, BindingsOf, Dist, TakenBefore;
      ghost var home := Home(hash, size, key);
      HomeInRange(hash, size, key);
      FirstProbe(size, home);
      ghost var stop :| 0 <= stop < size && !table[stop].slot.Live?;
      TakenFirst(table[..], home);
      n := hash(key) % size;
      while table[n].slot.Live?
        invariant 0 <= n < size && Dist(size, home, n) <= Dist(size, home, stop) && TakenBefore(table[..], home, n)
        decreases Dist(size, home, stop) - Dist(size, home, n)
      {
        TakenNext(table[..], home, n, stop);
        n := n + 1;
        if n == size {
          n := 0;
        }
      }
      TakenIs(table[..], home, n);
    }

    /** Fill slot n and append it to the list. */
    method Link(n: int, key: K, val: V)
      requires Valid() && FirstFree(table[..], hash, key, n)
      modifies this, table
      ensures Valid() && View() == old(View()) + [Binding(key, val)]
      ensures table == old(table) && size == old(size)
      ensures SlotsAfter(old(table[..]), table[..], n, key, val)
    {
      hide Chained, InOrder, ProbeOk, BindingsOf, FirstFree, Home;
      FreeHere(table[..], hash, key, n);
      EndsOf(table[..], order, head, tail);
      ghost var t, o := table[..], order;
      count := count + 1;
      if head == NIL {
        head, tail := n, n;
        table[n] := Entry(Live(key, val), NIL, NIL);
      } else {
        table[tail] := table[tail].(next := n);
        table[n] := Entry(Live(key, val), NIL, tail);
        tail := n;
      }
      order := order + [n];
      InsertedChain(t, table[..], o, old(head), old(tail), n, key, val);
      InsertedProbe(t, table[..], hash, o, n, key, val);
    }

    /** `lh_table_resize`: insert every entry, in order, into a new table and take it over. The new size must
        let the entries in without making the new table grow in its turn, as doubling always does. */
    method Resize(newSize: int)
      requires Valid() && 0 < newSize && 100 * (count - 1) <= 66 * newSize
      modifies this
      ensures Valid() && View() == old(View()) && size == newSize && count == old(count)
      ensures fresh(table) && NoFreed(table[..])
      decreases 1
    {
      hide Home, ProbeOk, Chained, InOrder, BindingsOf;
      Following(table[..], order, head, tail, 0);
      var t := new Table<K, V>(newSize, hash);
      var ent := head;
      ghost var i := 0;
      while ent != NIL
        invariant unchanged(this) && unchanged(table)
        invariant 0 <= i <= |order| && (ent == NIL <==> i == |order|)
        invariant i < |order| ==> ent == order[i]
        invariant fresh(t) && t.Valid() && fresh(t.table) && t.size == newSize && t.hash == hash
        invariant t.View() == View()[..i] && NoFreed(t.table[..])
        decreases |order| - i
      {
        TakeNext(View(), i);
        Following(table[..], order, head, tail, i);
        t.Insert(table[ent].slot.key, table[ent].slot.val);
        ent := table[ent].next;
        i := i + 1;
      }
      assert View()[..i] == View();
      table := t.table;
      size := newSize;
      head := t.head;
      tail := t.tail;
      order := t.order;
    }

    /** Mark slot n FREED and take it out of the list. */
    method Unlink(n: int, ghost i: nat)
      requires table.Length == size && Chained(table[..], order, head, tail) && i < |order| && order[i] == n
      modifies `head, `tail, table
      ensures InOrder(old(table[..]), order) && Unlinked(old(table[..]), table[..], order, i)
      ensures head == (if i > 0 then order[0] else if |order| > 1 then order[1] else NIL)
      ensures tail == (if i < |order| - 1 then order[|order| - 1] else if i > 0 then order[i - 1] else NIL)
    {
      hide Chained, InOrder, Unlinked, Unlinking;
      Neighbours(table[..], order, head, tail, i);
      Following(table[..], order, head, tail, 0);
      Following(table[..], order, head, tail, i);
      ghost var p := if i > 0 then order[i - 1] else NIL;
      ghost var q := if i + 1 < |order| then order[i + 1] else NIL;
      UnlinkingIs(table[..], order, i);
      TailIs(table[..], order, head, tail);
      Splice(n, p, q);
    }

    /** The four cases of taking an entry out of the list. */
    method Splice(n: int, ghost p: int, ghost q: int)
      requires 0 <= n < table.Length && NIL <= p < table.Length && NIL <= q < table.Length
      requires p != n && q != n && (p == q ==> p == NIL)
      requires p != NIL ==> table[n].prev == p
      requires table[n].next == q
      requires (head == n <==> p == NIL) && (tail == n <==> q == NIL)
      modifies `head, `tail, table
      ensures table[..] == Unlinking(old(table[..]), n, p, q)
      ensures head == (if p == NIL then q else old(head)) && tail == (if q == NIL then p else old(tail))
    {
      table[n] := table[n].(slot := Freed);
      if tail == n && head == n {
        head, tail := NIL, NIL;
      } else if head == n {
        table[table[head].next] := table[table[head].next].(prev := NIL);
        head := table[head].next;
      } else if tail == n {
        table[table[tail].prev] := table[table[tail].prev].(next := NIL);
        tail := table[tail].prev;
      } else {
        table[table[n].prev] := table[table[n].prev].(next := table[n].next);
        table[table[n].next] := table[table[n].next].(prev := table[n].prev);
      }
      table[n] := table[n].(next := NIL, prev := NIL);
    }

    /** `lh_table_delete_entry`: -1 when the slot holds no key. */
    method DeleteEntry(n: int) returns (r: int)
      requires Valid() && 0 <= n < size
      modifies this, table
      ensures Valid() && table == old(table) && size == old(size)
      ensures r == (if old(table[n].slot.Live?) then 0 else -1)
      ensures r == -1 ==> View() == old(View()) && table[..] == old(table[..])
      ensures r == 0 ==> TakenOut(old(View()), View(), old(table[n].slot.key))
      ensures r == 0 ==> FreedAt(old(table[..]), table[..], n)
    {
      hide Home, ProbeOk, Chained, InOrder, BindingsOf, TakenOut, FreedAt;
      if !table[n].slot.Live? {
        return -1;
      }
      DeleteLive(n);
      r := 0;
    }

    method DeleteLive(n: int)
      requires Valid() && 0 <= n < size && table[n].slot.Live?
      modifies this, table
      ensures Valid() && table == old(table) && size == old(size)
      ensures TakenOut(old(View()), View(), old(table[n].slot.key))
      ensures FreedAt(old(table[..]), table[..], n)
    {
      hide Home, ProbeOk, Chained, InOrder, BindingsOf, Unlinked, TakenOut, FreedAt, Without;
      ghost var t, o := table[..], order;
      ghost var i := Position(t, order, head, tail, n);
      Unlink(n, i);
      DeletedOk(t, table[..], hash, o, old(head), old(tail), i);
      count := count - 1;
      order := Without(o, i);
    }

    /** `lh_table_delete`. */
    method Delete(key: K) returns (r: int)
      requires Valid()
      requires HasEmpty(table[..]) || HoldsKey(table[..], key)
      modifies this, table
      ensures Valid() && table == old(table) && size == old(size)
      ensures r == (if old(HoldsKey(table[..], key)) then 0 else -1)
      ensures r == -1 ==> View() == old(View()) && table[..] == old(table[..])
      ensures r == 0 ==> TakenOut(old(View()), View(), key)
      ensures r == 0 ==> exists n :: FreedAt(old(table[..]), table[..], n) && old(table[..])[n].slot.Live?
                                  && old(table[..])[n].slot.key == key
    {
      hide Home, ProbeOk, Chained, InOrder, BindingsOf, TakenOut, HoldsKey, HasEmpty;
      var n := LookupEntry(key);
      if n == NIL {
        return -1;
      }
      r := DeleteEntry(n);
    }

    /** What holds between the calls on a table that only `json_object_object_add` changes. */
    ghost predicate Tidy()
      reads this, table
    {
      Valid() && size >= 3 && NoFreed(table[..]) && 100 * (count - 1) <= 66 * size && DistinctKeys(View())
    }

    /** `json_object_object_get` by way of `lh_table_lookup`. */
    method Lookup(key: K) returns (r: Option<V>)
      requires Tidy()
      ensures r == Get(View(), key)
    {
      InOrderOf(table[..], order, head, tail);
      SomeEmpty(table[..], order);
      var n := LookupEntry(key);
      LookedUp(table[..], order, key, n);
      r := if n == NIL then None else Some(table[n].slot.val);
    }

    /** `json_object_object_add`: the slot that the deletion frees is the one that the insertion fills,
        unless the table is rebuilt in between, so that no FREED slot stays behind. */
    method ObjectAdd(key: K, val: V)
      requires Tidy()
      modifies this, table
      ensures Tidy() && View() == Put(old(View()), key, val)
      ensures table == old(table) || fresh(table)
    {
      hide Home, ProbeOk, Chained, InOrder, BindingsOf, TakenOut, HoldsKey, HasEmpty, NoFreed, FirstFree, SlotsAfter,
        FreedAt, DistinctKeys, Remove;
      ghost var t, v, o := table[..], View(), order;
      InOrderOf(t, order, head, tail);
      SomeEmpty(t, order);
      AtMostSize(t, order);
      var r := Delete(key);
      ghost var t1, v1, crowded := table[..], View(), Crowded();
      AfterDelete(t, o, key, v, v1, r);
      Insert(key, val);
      DistinctAppend(v1, key, val);
      if !crowded {
        ghost var m :| FirstFree(t1, hash, key, m) && SlotsAfter(t1, table[..], m, key, val);
        NoFreedLeft(t, t1, table[..], hash, key, val, r, m);
      }
    }
  }

  lemma InOrderOf<K, V>(t: seq<Entry<K, V>>, order: seq<int>, head: int, tail: int)
    requires Chained(t, order, head, tail)
    ensures InOrder(t, order)
  {
  }

  lemma DistinctAppend<K, V>(v: seq<Binding<K, V>>, key: K, val: V)
    requires DistinctKeys(v) && forall i :: 0 <= i < |v| ==> v[i].key != key
    ensures DistinctKeys(v + [Binding(key, val)])
  {
  }

  /** An entry count below the size and no FREED slot leave an EMPTY one. */
  lemma SomeEmpty<K, V>(t: seq<Entry<K, V>>, order: seq<int>)
    requires InOrder(t, order) && NoFreed(t) && |t| >= 3 && 100 * (|order| - 1) <= 66 * |t|
    ensures HasEmpty(t)
  {
    FreeSlotExists(t, order);
  }

  lemma HoldsKeyInView<K, V>(t: seq<Entry<K, V>>, order: seq<int>, key: K)
    requires InOrder(t, order)
    ensures HoldsKey(t, key) <==> exists i :: 0 <= i < |order| && BindingsOf(t, order)[i].key == key
  {
    if HoldsKey(t, key) {
      var n :| 0 <= n < |t| && t[n].slot.Live? && t[n].slot.key == key;
      var i :| 0 <= i < |order| && order[i] == n;
      assert BindingsOf(t, order)[i].key == key;
    }
  }

  /** The slot found holds the value that the ordered map has for the key. */
  lemma LookedUp<K, V>(t: seq<Entry<K, V>>, order: seq<int>, key: K, n: int)
    requires InOrder(t, order) && DistinctKeys(BindingsOf(t, order))
    requires n == NIL <==> !HoldsKey(t, key)
    requires n != NIL ==> 0 <= n < |t| && t[n].slot.Live? && t[n].slot.key == key
    ensures Get(BindingsOf(t, order), key) == if n == NIL then None else Some(t[n].slot.val)
  {
    var v := BindingsOf(t, order);
    HoldsKeyInView(t, order, key);
    if n == NIL {
      RemoveAbsent(v, key);
    } else {
      var i :| 0 <= i < |order| && order[i] == n;
      GetAt(v, i);
    }
  }

  /** A deletion leaves the map without the key, whether the key was there or not. */
  lemma AfterDelete<K, V>(t: seq<Entry<K, V>>, order: seq<int>, key: K, v: seq<Binding<K, V>>,
                          v2: seq<Binding<K, V>>, r: int)
    requires InOrder(t, order) && v == BindingsOf(t, order) && DistinctKeys(v)
    requires r == (if HoldsKey(t, key) then 0 else -1)
    requires if r == 0 then TakenOut(v, v2, key) else v2 == v
    ensures v2 == Remove(v, key) && |v2| <= |v|
    ensures DistinctKeys(v2) && forall i :: 0 <= i < |v2| ==> v2[i].key != key
  {
    hide InOrder, Chained, ProbeOk, HoldsKey, BindingsOf, Remove;
    HoldsKeyInView(t, order, key);
    if r == 0 {
      var i :| 0 <= i < |v| && v[i].key == key && v2 == Without(v, i);
      RemoveAt(v, i);
      DistinctWithout(v, i);
    } else {
      RemoveAbsent(v, key);
    }
  }

  lemma DistinctWithout<K, V>(v: seq<Binding<K, V>>, i: nat)
    requires i < |v| && DistinctKeys(v)
    ensures DistinctKeys(Without(v, i)) && |Without(v, i)| == |v| - 1
    ensures forall j :: 0 <= j < |v| - 1 ==> Without(v, i)[j].key != v[i].key
  {
    forall j | 0 <= j < |v| - 1
      ensures Without(v, i)[j] == v[if j < i then j else j + 1]
    {
    }
  }

  /** The first free slot for a key just deleted is the slot that it left; for a key that was not
      there, no slot had been freed. */
  lemma NoFreedLeft<K, V>(t: seq<Entry<K, V>>, t1: seq<Entry<K, V>>, t2: seq<Entry<K, V>>, hash: K -> nat,
                          key: K, val: V, r: int, m: int)
    requires ProbeOk(t, hash) && NoFreed(t)
    requires if r == 0
             then exists n :: FreedAt(t, t1, n) && t[n].slot.Live? && t[n].slot.key == key
             else t1 == t
    requires FirstFree(t1, hash, key, m) && SlotsAfter(t1, t2, m, key, val)
    ensures NoFreed(t2)
  {
    if r == 0 {
      var n :| FreedAt(t, t1, n) && t[n].slot.Live? && t[n].slot.key == key;
      RefillsFreed(t, t1, hash, key, n, m);
    }
  }

  lemma RefillsFreed<K, V>(t: seq<Entry<K, V>>, t1: seq<Entry<K, V>>, hash: K -> nat, key: K, n: int, m: int)
    requires ProbeOk(t, hash) && NoFreed(t)
    requires FreedAt(t, t1, n) && t[n].slot.Live? && t[n].slot.key == key
    requires FirstFree(t1, hash, key, m)
    ensures m == n
  {
  }

  lemma Position<K, V>(t: seq<Entry<K, V>>, order: seq<int>, head: int, tail: int, n: int) returns (i: nat)
    requires Chained(t, order, head, tail) && 0 <= n < |t| && t[n].slot.Live?
    ensures i < |order| && order[i] == n
  {
    i :| 0 <= i < |order| && order[i] == n;
  }

  /** One binding of the key has been removed, and nothing else. */
  ghost predicate TakenOut<K, V>(v: seq<Binding<K, V>>, v2: seq<Binding<K, V>>, key: K) {
    exists i :: 0 <= i < |v| && v[i].key == key && v2 == Without(v, i)
  }

  ghost predicate FreedAt<K, V>(t: seq<Entry<K, V>>, t2: seq<Entry<K, V>>, n: int) {
    && |t2| == |t| && 0 <= n < |t| && t2[n].slot == Freed
    && forall m :: 0 <= m < |t| && m != n ==> t2[m].slot == t[m].slot
  }

  /** Where the i-th entry and its neighbours are. */
  lemma Neighbours<K, V>(t: seq<Entry<K, V>>, order: seq<int>, head: int, tail: int, i: nat)
    requires Chained(t, order, head, tail) && i < |order|
    ensures InOrder(t, order) && 0 <= order[i] < |t|
    ensures head == order[i] <==> i == 0
    ensures tail == order[i] <==> i == |order| - 1
    ensures i > 0 ==> t[order[i]].prev == order[i - 1] && 0 <= order[i - 1] < |t| && order[i - 1] != order[i]
    ensures i + 1 < |order| ==> t[order[i]].next == order[i + 1] && 0 <= order[i + 1] < |t| && order[i + 1] != order[i]
    ensures 0 < i && i + 1 < |order| ==> order[i - 1] != order[i + 1]
  {
  }

  lemma DeletedOk<K, V>(t: seq<Entry<K, V>>, t2: seq<Entry<K, V>>, hash: K -> nat, order: seq<int>,
                        head: int, tail: int, i: nat)
    requires Chained(t, order, head, tail) && ProbeOk(t, hash) && InOrder(t, order) && i < |order|
    requires Unlinked(t, t2, order, i)
    ensures |order| == |Without(order, i)| + 1 && ProbeOk(t2, hash)
    ensures Chained(t2, Without(order, i),
                    if i > 0 then order[0] else if |order| > 1 then order[1] else NIL,
                    if i < |order| - 1 then order[|order| - 1] else if i > 0 then order[i - 1] else NIL)
    ensures TakenOut(BindingsOf(t, order), BindingsOf(t2, Without(order, i)), t[order[i]].slot.key)
    ensures FreedAt(t, t2, order[i])
  {
    hide InOrder, Chained, ProbeOk, BindingsOf, Unlinked, TakenOut, FreedAt, Without;
    UnlinkedChain(t, t2, order, head, tail, i);
    EndsWithout(order, i);
    UnlinkedTaken(t, t2, order, i);
    UnlinkedProbe(t, t2, hash, order, i);
    UnlinkedFreed(t, t2, order, i);
  }

  lemma EndsWithout(order: seq<int>, i: nat)
    requires i < |order|
    ensures var o2 := Without(order, i);
            && |order| == |o2| + 1
            && (if o2 == [] then NIL else o2[0]) == (if i > 0 then order[0] else if |order| > 1 then order[1] else NIL)
            && (if o2 == [] then NIL else o2[|o2| - 1])
               == (if i < |order| - 1 then order[|order| - 1] else if i > 0 then order[i - 1] else NIL)
  {
  }

  lemma UnlinkedTaken<K, V>(t: seq<Entry<K, V>>, t2: seq<Entry<K, V>>, order: seq<int>, i: nat)
    requires InOrder(t, order) && i < |order| && Unlinked(t, t2, order, i)
    ensures InOrder(t2, Without(order, i))
    ensures TakenOut(BindingsOf(t, order), BindingsOf(t2, Without(order, i)), t[order[i]].slot.key)
  {
    hide Unlinked, Without;
    UnlinkedOrder(t, t2, order, i);
    UnlinkedBindings(t, t2, order, i);
    assert BindingsOf(t, order)[i].key == t[order[i]].slot.key;
  }

  lemma UnlinkedFreed<K, V>(t: seq<Entry<K, V>>, t2: seq<Entry<K, V>>, order: seq<int>, i: nat)
    requires InOrder(t, order) && i < |order| && Unlinked(t, t2, order, i)
    ensures FreedAt(t, t2, order[i])
  {
  }

  lemma TakeNext<T>(s: seq<T>, i: nat)
    requires i < |s|
    ensures s[..i + 1] == s[..i] + [s[i]]
  {
  }

  /** The list from its i-th entry on. */
  lemma Following<K, V>(t: seq<Entry<K, V>>, order: seq<int>, head: int, tail: int, i: nat)
    requires Chained(t, order, head, tail)
    ensures head == if order == [] then NIL else order[0]
    ensures i < |order| ==>
      && 0 <= order[i] < |t| && t[order[i]].slot.Live?
      && t[order[i]].next == (if i + 1 < |order| then order[i + 1] else NIL)
      && BindingsOf(t, order)[i] == Binding(t[order[i]].slot.key, t[order[i]].slot.val)
    ensures i + 1 < |order| ==> 0 <= order[i + 1]
    ensures |BindingsOf(t, order)| == |order|
  {
  }

  lemma HomeInRange<K>(hash: K -> nat, size: nat, key: K)
    requires size > 0
    ensures 0 <= Home(hash, size, key) < size && Home(hash, size, key) == hash(key) % size
  {
  }

  /** A live key would have been met before the EMPTY slot. */
  lemma NotBeyondEmpty<K, V>(t: seq<Entry<K, V>>, hash: K -> nat, key: K, n: int)
    requires ProbeOk(t, hash) && 0 <= n < |t| && t[n].slot.Empty?
    requires forall m :: 0 <= m < |t| && Dist(|t|, Home(hash, |t|, key), m) < Dist(|t|, Home(hash, |t|, key), n) ==>
      !(t[m].slot.Live? && t[m].slot.key == key)
    ensures !HoldsKey(t, key)
  {
  }

  /** Only slot n changes what it holds. */
  ghost predicate SlotsAfter<K, V>(t: seq<Entry<K, V>>, t2: seq<Entry<K, V>>, n: int, key: K, val: V) {
    && |t2| == |t| && 0 <= n < |t| && t2[n].slot == Live(key, val)
    && forall m :: 0 <= m < |t| && m != n ==> t2[m].slot == t[m].slot
  }
}
