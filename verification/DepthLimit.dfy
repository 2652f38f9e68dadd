/** The depth limit: a printable value parses back exactly when it fits the stack. */
module DepthLimit {
  import opened Common
  import opened Json
  import opened TokenerSpec
  import opened Eating
  import opened RoundTrip

  /** The text t stands in s at offset i. */
  ghost predicate At(s: string, i: nat, t: string) {
    i + |t| <= |s| && s[i..i + |t|] == t
  }

  lemma AtSplit(s: string, i: nat, a: string, b: string)
    requires At(s, i, a + b)
    ensures At(s, i, a) && At(s, i + |a|, b)
  {
    assert s[i..i + |a|] == s[i..i + |a + b|][..|a|];
    assert s[i + |a|..i + |a + b|] == s[i..i + |a + b|][|a|..];
  }

  lemma RunOver(g: Config, s: string, i: nat, t: string, h: Config)
    requires At(s, i, t) && Eats(g, t, h)
    ensures Run(g, s, i) == Run(h, s, i + |t|)
  {
    hide Run, Eat;
    RunAfterEating(g, s, i, i + |t|, h);
  }

  lemma RunSameFirst(g: Config, k: Config, s: string, i: nat)
    requires Wf(g) && Wf(k) && i < |s| && Feed(g, s[i]) == Feed(k, s[i])
    ensures Run(g, s, i) == Run(k, s, i)
  {
    hide Feed;
  }

  ghost predicate FailsDeep(g: Config, s: string, i: nat)
    requires Wf(g) && i <= |s|
  {
    Run(g, s, i).err.DepthError?
  }

  /** A child that does not fit, read by the level that waits for it. */
  lemma {:induction false} ChildTooDeep(k: Config, x: Json, s: string, i: nat)
    requires BeforeChild(k) && Printable(x) && |k.lower| + 1 + Levels(x) >= MAX_DEPTH
    requires At(s, i, Print(x))
    ensures FailsDeep(k, s, i)
    decreases x, 1
  {
    FirstOfValue(x);
    var c := Print(x)[0];
    assert s[i] == s[i..i + |Print(x)|][0] == c;
    if |k.lower| + 1 >= MAX_DEPTH {
      hide Feed;
      OpenChildTooDeep(k, c);
    } else {
      hide Feed, Step, Print, Run;
      var p := OpenChild(k, c);
      ValueTooDeep(p, x, s, i);
      RunSameFirst(k, p, s, i);
    }
  }

  lemma {:induction false} ValueTooDeep(g: Config, v: Json, s: string, i: nat)
    requires AtValue(g) && Printable(v) && |g.lower| + Levels(v) >= MAX_DEPTH
    requires At(s, i, Print(v))
    ensures FailsDeep(g, s, i)
    decreases v, 0
  {
    hide Run, Feed, Step;
    match v
    case Arr(items) => ArrayTooDeep(g, items, s, i);
    case Obj(ms) => ObjectTooDeep(g, ms, s, i);
    case _ =>
  }

  lemma {:induction false} ArrayTooDeep(g: Config, items: seq<Json>, s: string, i: nat)
    requires Wf(g) && AtValue(g) && items != [] && |g.lower| + LevelsItems(items) >= MAX_DEPTH
    requires forall j :: 0 <= j < |items| ==> Printable(items[j])
    requires At(s, i, "[" + PrintItems(items, true))
    ensures FailsDeep(g, s, i)
    decreases items, 1
  {
    hide *;
    ItemsText(items, true);
    var t := Print(items[0]) + PrintItems(items[1..], false);
    AtSplit(s, i, "[", " " + t);
    AtSplit(s, i + 1, " ", t);
    var k := EatOpen(g, '[');
    EatBlank(k);
    RunOver(g, s, i, "[", k);
    RunOver(k, s, i + 1, " ", k);
    ItemsTooDeep(k, [], items, s, i + 2);
    RunDeep(g, s, i, k, i + 2);
  }

  lemma RunDeep(g: Config, s: string, i: nat, k: Config, j: nat)
    requires Wf(g) && Wf(k) && i <= |s| && j <= |s| && Run(g, s, i) == Run(k, s, j) && FailsDeep(k, s, j)
    ensures FailsDeep(g, s, i)
  {
    hide Run;
  }

  lemma {:induction false} ObjectTooDeep(g: Config, ms: seq<Member>, s: string, i: nat)
    requires Wf(g) && AtValue(g) && ms != [] && DistinctKeys(ms) && |g.lower| + LevelsMembers(ms) >= MAX_DEPTH
    requires forall j :: 0 <= j < |ms| ==> NUL !in ms[j].key && Printable(ms[j].val)
    requires At(s, i, "{" + PrintMembers(ms, true))
    ensures FailsDeep(g, s, i)
    decreases ms, 1
  {
    hide *;
    assert [] + ms == ms;
    MembersText(ms, true);
    var t := PrintName(ms[0].key) + (Print(ms[0].val) + PrintMembers(ms[1..], false));
    AtSplit(s, i, "{", " " + t);
    AtSplit(s, i + 1, " ", t);
    var k := EatOpen(g, '{');
    EatBlank(k);
    RunOver(g, s, i, "{", k);
    RunOver(k, s, i + 1, " ", k);
    MembersTooDeep(k, [], ms, s, i + 2);
    RunDeep(g, s, i, k, i + 2);
  }

  lemma {:induction false} ItemsTooDeep(k: Config, done: seq<Json>, rest: seq<Json>, s: string, i: nat)
    requires Wf(k) && k.top == Frame(Eatws, Array, Arr(done), None)
    requires rest != [] && |k.lower| + LevelsItems(rest) >= MAX_DEPTH
    requires forall j :: 0 <= j < |rest| ==> Printable(rest[j])
    requires At(s, i, Print(rest[0]) + PrintItems(rest[1..], false))
    ensures FailsDeep(k, s, i)
    decreases rest, 0
  {
    hide *;
    var x, more := rest[0], rest[1..];
    AtSplit(s, i, Print(x), PrintItems(more, false));
    var f := ElementFrame(k, done, x);
    if |k.lower| + 1 + Levels(x) >= MAX_DEPTH {
      ChildTooDeep(k, x, s, i);
    } else {
      DeepLater(rest, MAX_DEPTH - |k.lower|);
      ItemsText(more, false);
      var u := Print(more[0]) + PrintItems(more[1..], false);
      AtSplit(s, i + |Print(x)|, ",", " " + u);
      AtSplit(s, i + |Print(x)| + 1, " ", u);
      var n, h := EatChild(k, x, ',');
      var e := EatComma(h, k.lower, f, x);
      RunToSecond(k, Print(x), n, h, e, s, i);
      ItemsTooDeep(e, done + [x], more, s, i + |Print(x)| + 2);
      RunDeep(k, s, i, e, i + |Print(x)| + 2);
    }
  }

  lemma DeepLater(rest: seq<Json>, room: nat)
    requires rest != [] && 1 + Levels(rest[0]) < room <= LevelsItems(rest)
    ensures rest[1..] != [] && LevelsItems(rest[1..]) >= room
  {
  }

  lemma DeepLaterMember(rest: seq<Member>, room: nat)
    requires rest != [] && 1 + Levels(rest[0].val) < room <= LevelsMembers(rest)
    ensures rest[1..] != [] && LevelsMembers(rest[1..]) >= room
  {
  }

  /** Over one child, the comma and the blank. */
  lemma RunToSecond(k: Config, t: string, n: Config, h: Config, e: Config, s: string, i: nat)
    requires Eats(k, t, n) && Wf(n) && Wf(h) && Feed(n, ',') == Feed(h, ',') && Eats(h, ",", e)
    requires Wf(e) && e.top.state.Eatws?
    requires At(s, i, t) && At(s, i + |t|, ",") && At(s, i + |t| + 1, " ")
    ensures Run(k, s, i) == Run(e, s, i + |t| + 2)
  {
    hide *;
    EatBlank(e);
    EatsSameFirst(n, h, ',', ",", e);
    RunOver(k, s, i, t, n);
    RunOver(n, s, i + |t|, ",", e);
    RunOver(e, s, i + |t| + 1, " ", e);
  }

  lemma {:induction false} MembersTooDeep(k: Config, done: seq<Member>, rest: seq<Member>, s: string, i: nat)
    requires Wf(k) && k.top == Frame(Eatws, FieldStart, Obj(done), None)
    requires rest != [] && |k.lower| + LevelsMembers(rest) >= MAX_DEPTH
    requires DistinctKeys(done + rest)
    requires forall j :: 0 <= j < |rest| ==> NUL !in rest[j].key && Printable(rest[j].val)
    requires At(s, i, PrintName(rest[0].key) + (Print(rest[0].val) + PrintMembers(rest[1..], false)))
    ensures FailsDeep(k, s, i)
    decreases rest, 0
  {
    hide *;
    var e, more := rest[0], rest[1..];
    var name, text, tail := PrintName(e.key), Print(e.val), PrintMembers(more, false);
    AtSplit(s, i, name, text + tail);
    NewKey(done, rest);
    if |k.lower| + 1 + Levels(e.val) >= MAX_DEPTH {
      AtSplit(s, i + |name|, text, tail);
      var q := EatKey(k, e.key);
      MemberFrame(q);
      RunOver(k, s, i, name, q);
      ChildTooDeep(q, e.val, s, i + |name|);
      RunDeep(k, s, i, q, i + |name|);
    } else {
      DeepLaterMember(rest, MAX_DEPTH - |k.lower|);
      MembersText(more, false);
      HeadTail(rest);
      Assoc(done, [e], more);
      Assoc(name, text, tail);
      var u := PrintName(more[0].key) + (Print(more[0].val) + PrintMembers(more[1..], false));
      var j := i + |name + text|;
      AtSplit(s, i, name + text, tail);
      AtSplit(s, j, ",", " " + u);
      AtSplit(s, j + 1, " ", u);
      var n, h, f := EatMember(k, done, e, ',');
      var r := EatComma(h, k.lower, f, e.val);
      RunToSecond(k, name + text, n, h, r, s, i);
      MembersTooDeep(r, done + [e], more, s, j + 2);
      RunDeep(k, s, i, r, j + 2);
    }
  }

  lemma MemberFrame(q: Config)
    requires Wf(q) && q.top.state.Eatws? && q.top.saved.Value?
    ensures BeforeChild(q)
  {
  }

  /** A printable value parses back if and only if it needs at most 31 levels below its own;
      otherwise the parser reports `nesting to deep`. */
  lemma ParsesIffFits(v: Json)
    requires Printable(v)
    ensures Parse(Print(v) + [NUL]) == if Levels(v) < MAX_DEPTH then Ok(v) else Failed(DepthError)
  {
    hide Feed, Step, Print;
    if Levels(v) < MAX_DEPTH {
      ParsePrinted(v);
    } else {
      var s := Print(v) + [NUL];
      assert s[0..|Print(v)|] == Print(v);
      ValueTooDeep(Init(), v, s, 0);
    }
  }

  function Nested(n: nat): Json {
    if n == 0 then Null else Arr([Nested(n - 1)])
  }

  lemma {:induction false} NestedIs(n: nat)
    ensures Printable(Nested(n)) && Levels(Nested(n)) == n
  {
    if n > 0 {
      NestedIs(n - 1);
      var items := [Nested(n - 1)];
      assert items[1..] == [];
      assert LevelsItems(items) == Max(1 + Levels(items[0]), LevelsItems([]));
      assert Levels(Arr(items)) == LevelsItems(items);
    }
  }

  /** The input: null inside as many arrays as there are levels. One array less is read back. */
  lemma NestedArrays(n: nat)
    ensures Parse(Print(Nested(n)) + [NUL]) == if n < MAX_DEPTH then Ok(Nested(n)) else Failed(DepthError)
  {
    hide Parse, Print, Nested, Printable, Levels;
    NestedIs(n);
    ParsesIffFits(Nested(n));
  }
}
