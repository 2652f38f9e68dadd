/** The loop with which both delete_node and delete_key walk a list. */
module Lists {

  /** Every hit is dropped except one that directly follows a dropped one. */
  function SkipRemove<T>(rest: seq<T>, hit: T -> bool): seq<T> {
    if rest == [] then []
    else if !hit(rest[0]) then [rest[0]] + SkipRemove(rest[1..], hit)
    else if |rest| == 1 then []
    else [rest[1]] + SkipRemove(rest[2..], hit)
  }

  function Filter<T>(s: seq<T>, keep: T -> bool): seq<T> {
    if s == [] then []
    else if keep(s[0]) then [s[0]] + Filter(s[1..], keep)
    else Filter(s[1..], keep)
  }

  function Misses<T>(hit: T -> bool): T -> bool {
    t => !hit(t)
  }

  ghost predicate AtMostOne<T>(s: seq<T>, hit: T -> bool) {
    forall i, j :: 0 <= i < j < |s| ==> !(hit(s[i]) && hit(s[j]))
  }

  ghost predicate All<T>(s: seq<T>, p: T -> bool) {
    forall i :: 0 <= i < |s| ==> p(s[i])
  }

  ghost predicate Pairwise<T>(s: seq<T>, r: (T, T) -> bool) {
    forall i, j :: 0 <= i < j < |s| ==> r(s[i], s[j])
  }

  lemma {:induction false} FilterAll<T>(s: seq<T>, keep: T -> bool)
    requires All(s, keep)
    ensures Filter(s, keep) == s
  {
    if s != [] {
      assert All(s[1..], keep);
      FilterAll(s[1..], keep);
    }
  }

  lemma {:induction false} FilterHas<T>(s: seq<T>, keep: T -> bool, x: T)
    ensures x in Filter(s, keep) <==> x in s && keep(x)
  {
    if s != [] {
      FilterHas(s[1..], keep, x);
      assert x in s <==> x == s[0] || x in s[1..];
    }
  }

  lemma FilterMembers<T>(s: seq<T>, keep: T -> bool)
    ensures forall x :: x in Filter(s, keep) ==> x in s && keep(x)
    ensures forall x :: x in s && keep(x) ==> x in Filter(s, keep)
  {
    forall x | x in Filter(s, keep)
      ensures x in s && keep(x)
    {
      FilterHas(s, keep, x);
    }
    forall x | x in s && keep(x)
      ensures x in Filter(s, keep)
    {
      FilterHas(s, keep, x);
    }
  }

  /** Without repeated hits the skipping does no harm. */
  lemma {:induction false} SkipRemoveFilters<T>(s: seq<T>, hit: T -> bool)
    requires AtMostOne(s, hit)
    ensures SkipRemove(s, hit) == Filter(s, Misses(hit))
  {
    if s != [] {
      if !hit(s[0]) {
        TailAtMostOne(s, hit);
        SkipRemoveFilters(s[1..], hit);
      } else {
        NoMore(s, hit);
        FilterAll(s[1..], Misses(hit));
        SkipRemoveNone(s[1..], hit);
        if |s| > 1 {
          assert s[1..][0] == s[1] && s[1..][1..] == s[2..];
        }
      }
    }
  }

  ghost predicate NoNeighbours<T>(s: seq<T>, hit: T -> bool) {
    forall i, j :: 0 <= i && j == i + 1 && j < |s| ==> !(hit(s[i]) && hit(s[j]))
  }

  /** The walk removes every hit exactly when no two of them are neighbours. */
  lemma {:induction false} SkipRemoveIff<T>(s: seq<T>, hit: T -> bool)
    ensures SkipRemove(s, hit) == Filter(s, Misses(hit)) <==> NoNeighbours(s, hit)
  {
    if |s| >= 2 {
      SkipRemoveIff(s[1..], hit);
      SkipRemoveIff(s[2..], hit);
      TailNoNeighbours(s, hit);
      TailNoNeighbours(s[1..], hit);
      assert s[1..][0] == s[1] && s[1..][1..] == s[2..];
      if hit(s[0]) && hit(s[1]) {
        FilterMembers(s, Misses(hit));
        assert s[1] in SkipRemove(s, hit);
      } else if hit(s[0]) {
        SameTails(s[1], SkipRemove(s[2..], hit), Filter(s[2..], Misses(hit)));
      } else {
        SameTails(s[0], SkipRemove(s[1..], hit), Filter(s[1..], Misses(hit)));
      }
    } else if |s| == 1 {
      assert s[1..] == [];
    }
  }

  lemma SameTails<T>(x: T, s: seq<T>, t: seq<T>)
    ensures [x] + s == [x] + t <==> s == t
  {
    assert ([x] + s)[1..] == s && ([x] + t)[1..] == t;
  }

  lemma TailNoNeighbours<T>(s: seq<T>, hit: T -> bool)
    requires s != []
    ensures NoNeighbours(s, hit) <==> NoNeighbours(s[1..], hit) && (|s| > 1 ==> !(hit(s[0]) && hit(s[1])))
  {
    var t := s[1..];
    if NoNeighbours(t, hit) && (|s| > 1 ==> !(hit(s[0]) && hit(s[1]))) {
      forall i, j | 0 <= i && j == i + 1 && j < |s|
        ensures !(hit(s[i]) && hit(s[j]))
      {
        if i > 0 {
          assert s[i] == t[i - 1] && s[j] == t[j - 1];
        }
      }
    }
    if NoNeighbours(s, hit) {
      forall i, j | 0 <= i && j == i + 1 && j < |t|
        ensures !(hit(t[i]) && hit(t[j]))
      {
        assert t[i] == s[i + 1] && t[j] == s[j + 1];
      }
    }
  }

  lemma TailAtMostOne<T>(s: seq<T>, hit: T -> bool)
    requires s != [] && AtMostOne(s, hit)
    ensures AtMostOne(s[1..], hit)
  {
    forall i, j | 0 <= i < j < |s[1..]|
      ensures !(hit(s[1..][i]) && hit(s[1..][j]))
    {
      assert s[1..][i] == s[i + 1] && s[1..][j] == s[j + 1];
    }
  }

  lemma NoMore<T>(s: seq<T>, hit: T -> bool)
    requires s != [] && AtMostOne(s, hit) && hit(s[0])
    ensures All(s[1..], Misses(hit))
  {
    forall i | 0 <= i < |s[1..]|
      ensures Misses(hit)(s[1..][i])
    {
      assert s[1..][i] == s[i + 1];
      assert !(hit(s[0]) && hit(s[i + 1]));
    }
  }

  lemma {:induction false} SkipRemoveNone<T>(s: seq<T>, hit: T -> bool)
    requires All(s, Misses(hit))
    ensures SkipRemove(s, hit) == s
  {
    if s != [] {
      assert Misses(hit)(s[0]);
      forall i | 0 <= i < |s[1..]|
        ensures Misses(hit)(s[1..][i])
      {
        assert Misses(hit)(s[i + 1]);
      }
      SkipRemoveNone(s[1..], hit);
    }
  }

  // ----- What any filtering keeps

  /** s comes from t by leaving elements out. */
  ghost predicate Within<T>(s: seq<T>, t: seq<T>) {
    if s == [] then true
    else if t == [] then false
    else (s[0] == t[0] && Within(s[1..], t[1..])) || Within(s, t[1..])
  }

  lemma {:induction false} WithinSelf<T>(s: seq<T>)
    ensures Within(s, s)
  {
    if s != [] {
      WithinSelf(s[1..]);
    }
  }

  lemma {:induction false} WithinTransitive<T>(s: seq<T>, t: seq<T>, u: seq<T>)
    requires Within(s, t) && Within(t, u)
    ensures Within(s, u)
    decreases |t| + |u|
  {
    if s != [] {
      if t[0] == u[0] && Within(t[1..], u[1..]) {
        if s[0] == t[0] && Within(s[1..], t[1..]) {
          WithinTransitive(s[1..], t[1..], u[1..]);
        } else {
          WithinTransitive(s, t[1..], u[1..]);
        }
      } else {
        WithinTransitive(s, t, u[1..]);
      }
    }
  }

  lemma {:induction false} SkipRemoveWithin<T>(s: seq<T>, hit: T -> bool)
    ensures Within(SkipRemove(s, hit), s)
    decreases |s|
  {
    if s != [] {
      if !hit(s[0]) {
        SkipRemoveWithin(s[1..], hit);
        assert SkipRemove(s, hit)[1..] == SkipRemove(s[1..], hit);
      } else if |s| > 1 {
        SkipRemoveWithin(s[2..], hit);
        assert SkipRemove(s, hit)[1..] == SkipRemove(s[2..], hit);
        assert s[1..][0] == s[1] && s[1..][1..] == s[2..];
      }
    }
  }

  lemma {:induction false} FilterWithin<T>(s: seq<T>, keep: T -> bool)
    ensures Within(Filter(s, keep), s)
  {
    if s != [] {
      FilterWithin(s[1..], keep);
      if keep(s[0]) {
        assert Filter(s, keep)[1..] == Filter(s[1..], keep);
      }
    }
  }

  lemma {:induction false} WithinLength<T>(s: seq<T>, t: seq<T>)
    requires Within(s, t)
    ensures |s| <= |t|
    decreases |t|
  {
    if s != [] {
      if s[0] == t[0] && Within(s[1..], t[1..]) {
        WithinLength(s[1..], t[1..]);
      } else {
        WithinLength(s, t[1..]);
      }
    }
  }

  lemma {:induction false} WithinAll<T>(s: seq<T>, t: seq<T>, p: T -> bool)
    requires Within(s, t) && All(t, p)
    ensures All(s, p)
    decreases |t|
  {
    if s != [] {
      assert All(t[1..], p);
      if s[0] == t[0] && Within(s[1..], t[1..]) {
        WithinAll(s[1..], t[1..], p);
        ConsAll(s, p);
      } else {
        WithinAll(s, t[1..], p);
      }
    }
  }

  lemma ConsAll<T>(s: seq<T>, p: T -> bool)
    requires s != [] && p(s[0]) && All(s[1..], p)
    ensures All(s, p)
  {
    forall i | 0 <= i < |s|
      ensures p(s[i])
    {
      if i > 0 {
        assert p(s[1..][i - 1]);
      }
    }
  }

  lemma {:induction false} WithinPairwise<T>(s: seq<T>, t: seq<T>, r: (T, T) -> bool)
    requires Within(s, t) && Pairwise(t, r)
    ensures Pairwise(s, r)
    decreases |t|
  {
    if s != [] {
      TailPairwise(t, r);
      if s[0] == t[0] && Within(s[1..], t[1..]) {
        WithinPairwise(s[1..], t[1..], r);
        HeadPairs(t, r);
        WithinAll(s[1..], t[1..], x => r(t[0], x));
        ConsPairwise(s, r);
      } else {
        WithinPairwise(s, t[1..], r);
      }
    }
  }

  lemma TailPairwise<T>(s: seq<T>, r: (T, T) -> bool)
    requires s != [] && Pairwise(s, r)
    ensures Pairwise(s[1..], r)
  {
    forall i, j | 0 <= i < j < |s[1..]|
      ensures r(s[1..][i], s[1..][j])
    {
      assert s[1..][i] == s[i + 1] && s[1..][j] == s[j + 1];
    }
  }

  lemma HeadPairs<T>(s: seq<T>, r: (T, T) -> bool)
    requires s != [] && Pairwise(s, r)
    ensures All(s[1..], x => r(s[0], x))
  {
    forall i | 0 <= i < |s[1..]|
      ensures r(s[0], s[1..][i])
    {
      assert s[1..][i] == s[i + 1];
    }
  }

  lemma ConsPairwise<T>(s: seq<T>, r: (T, T) -> bool)
    requires s != [] && All(s[1..], x => r(s[0], x)) && Pairwise(s[1..], r)
    ensures Pairwise(s, r)
  {
    forall i, j | 0 <= i < j < |s|
      ensures r(s[i], s[j])
    {
      assert s[j] == s[1..][j - 1];
      if i > 0 {
        assert s[i] == s[1..][i - 1];
      } else {
        assert (x => r(s[0], x))(s[1..][j - 1]);
      }
    }
  }

  // ----- The walk itself

  /** From the head on: look at the next element, drop it on a hit, then step. */
  method RemoveAfterHead<T>(list: seq<T>, hit: T -> bool) returns (l: seq<T>)
    requires list != []
    ensures l == [list[0]] + SkipRemove(list[1..], hit)
  {
    l := list;
    var temp := 0;
    while temp + 1 < |l|
      invariant 0 <= temp <= |l| && l != []
      invariant temp == |l| ==> l == [list[0]] + SkipRemove(list[1..], hit)
      invariant temp < |l| ==> l[..temp + 1] + SkipRemove(l[temp + 1..], hit) == [list[0]] + SkipRemove(list[1..], hit)
      decreases |l| - temp
    {
      if hit(l[temp + 1]) {
        DropNext(l, temp, hit);
        l := l[..temp + 1] + l[temp + 2..];
      } else {
        PassNext(l, temp, hit);
      }
      temp := temp + 1;
    }
  }

  lemma DropNext<T>(l: seq<T>, k: nat, hit: T -> bool)
    requires k + 1 < |l| && hit(l[k + 1])
    ensures var m := l[..k + 1] + l[k + 2..];
            l[..k + 1] + SkipRemove(l[k + 1..], hit)
            == if k + 1 < |m| then m[..k + 2] + SkipRemove(m[k + 2..], hit) else m
  {
    var m := l[..k + 1] + l[k + 2..];
    var rest := l[k + 1..];
    if k + 1 < |m| {
      assert rest[1] == m[k + 1] && rest[2..] == m[k + 2..];
      assert m[..k + 2] == l[..k + 1] + [m[k + 1]];
    }
  }

  lemma PassNext<T>(l: seq<T>, k: nat, hit: T -> bool)
    requires k + 1 < |l| && !hit(l[k + 1])
    ensures l[..k + 1] + SkipRemove(l[k + 1..], hit) == l[..k + 2] + SkipRemove(l[k + 2..], hit)
  {
    var rest := l[k + 1..];
    assert rest[0] == l[k + 1] && rest[1..] == l[k + 2..];
    assert l[..k + 2] == l[..k + 1] + [l[k + 1]];
  }
}
