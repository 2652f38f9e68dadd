/** Parsing undoes printing, for every printable value that fits the stack. */
module RoundTrip {
  import opened Common
  import opened Json
  import opened TokenerSpec
  import opened Eating

  // ----- Brackets, separators and blanks

  lemma EatBlank(g: Config)
    requires Wf(g) && g.top.state.Eatws?
    ensures Eats(g, " ", g)
  {
    hide Feed, Eat;
    FeedTake(g, ' ');
    EatsOne(g, ' ', g);
  }

  lemma EatOpen(g: Config, c: char) returns (k: Config)
    requires AtValue(g) && (c == '[' || c == '{')
    ensures k == g.(top := if c == '[' then Frame(Eatws, Array, Arr([]), None)
                                      else Frame(Eatws, FieldStart, Obj([]), None))
    ensures Wf(k) && Eats(g, [c], k)
  {
    hide Feed, Eat;
    k := g.(top := if c == '[' then Frame(Eatws, Array, Arr([]), None)
                               else Frame(Eatws, FieldStart, Obj([]), None));
    FreshStart(g, c);
    FeedTake(g.Goto(Start), c);
    EatsOne(g, c, k);
  }

  /** A level that skips white space before an element or a member's value. */
  ghost predicate BeforeChild(g: Config) {
    && Wf(g) && g.top.state.Eatws? && (g.top.saved.Array? || g.top.saved.Value?)
  }

  function WaitingFrame(f: Frame): Frame {
    f.(state := if f.saved.Array? then ArrayAdd else ValueAdd)
  }

  predicate OpensValue(c: char) {
    !IsSpace(c) && c != '/' && c != ']' && c != NUL
  }

  lemma OpenChild(g: Config, c: char) returns (k: Config)
    requires BeforeChild(g) && OpensValue(c) && |g.lower| + 1 < MAX_DEPTH
    ensures k == g.(lower := g.lower + [WaitingFrame(g.top)], top := FRESH)
    ensures AtValue(k) && Feed(g, c) == Feed(k, c)
  {
    hide Feed;
    k := g.(lower := g.lower + [WaitingFrame(g.top)], top := FRESH);
    FeedRedo(g, c);
    FeedRedo(g.Goto(g.top.saved), c);
  }

  lemma OpenChildTooDeep(g: Config, c: char)
    requires BeforeChild(g) && OpensValue(c) && |g.lower| + 1 >= MAX_DEPTH
    ensures Feed(g, c).Halt? && Feed(g, c).err.DepthError?
  {
    hide Feed;
    FeedRedo(g, c);
    FeedTake(g.Goto(g.top.saved), c);
  }

  /** The child on top is complete; f waits for it below. */
  ghost predicate ChildDone(h: Config, lower: seq<Frame>, f: Frame, v: Json) {
    Wf(h) && h.lower == lower + [f] && Waiting(f) && h.top == Frame(Eatws, Finish, v, None)
  }

  /** The first character after a complete child that is not blank reaches the level below. */
  lemma CloseChild(h: Config, c: char, lower: seq<Frame>, f: Frame, v: Json) returns (k: Config)
    requires ChildDone(h, lower, f, v) && (c == ',' || c == ']' || c == '}')
    ensures k == h.(lower := lower, top := Receive(f, v)) && Wf(k) && Feed(h, c) == Feed(k, c)
  {
    hide Feed;
    k := h.(lower := lower, top := Receive(f, v));
    assert h.lower[|h.lower| - 1] == f && h.lower[..|h.lower| - 1] == lower;
    FeedRedo(h, c);
    FeedRedo(h.Goto(Finish), c);
  }

  /** A comma after a child: the level is ready for the next element or member. */
  lemma EatComma(h: Config, lower: seq<Frame>, f: Frame, v: Json) returns (k: Config)
    requires ChildDone(h, lower, f, v)
    ensures k.lower == lower && Wf(k)
    ensures k.top == Receive(f, v).(saved := if f.state.ArrayAdd? then Array else FieldStart)
    ensures k.top.state.Eatws?
    ensures Eats(h, ",", k)
  {
    hide Feed, Eat;
    var r := CloseChild(h, ',', lower, f, v);
    k := r.(top := Receive(f, v).(saved := if f.state.ArrayAdd? then Array else FieldStart));
    FeedRedo(r, ',');
    FeedTake(r.Goto(r.top.saved), ',');
    EatsOne(h, ',', k);
  }

  /** The blank and the closing bracket after the last child. */
  lemma EatClose(h: Config, lower: seq<Frame>, f: Frame, v: Json) returns (k: Config)
    requires ChildDone(h, lower, f, v)
    ensures k.lower == lower && Wf(k) && k.top == Receive(f, v).(saved := Finish)
    ensures Eats(h, if f.state.ArrayAdd? then " ]" else " }", k)
  {
    hide Feed, Eat;
    var c := if f.state.ArrayAdd? then ']' else '}';
    EatBlank(h);
    var r := CloseChild(h, c, lower, f, v);
    k := r.(top := Receive(f, v).(saved := Finish));
    FeedRedo(r, c);
    FeedTake(r.Goto(r.top.saved), c);
    EatsOne(h, c, k);
    EatsThen(h, " ", h, [c], k);
    assert " " + [c] == if f.state.ArrayAdd? then " ]" else " }";
  }

  /** The blank and the closing bracket of an empty container. */
  lemma EatCloseEmpty(g: Config, c: char) returns (k: Config)
    requires Wf(g) && g.top.state.Eatws?
    requires (g.top.saved.Array? && c == ']') || (g.top.saved.FieldStart? && c == '}')
    ensures k == g.(top := g.top.(saved := Finish)) && Wf(k) && Eats(g, [' ', c], k)
  {
    hide Feed, Eat;
    EatBlank(g);
    k := g.(top := g.top.(saved := Finish));
    FeedRedo(g, c);
    FeedTake(g.Goto(g.top.saved), c);
    EatsOne(g, c, k);
    EatsThen(g, " ", g, [c], k);
    assert " " + [c] == [' ', c];
  }

  /** A member's name, from its opening quote to the blank after the colon. */
  lemma EatKey(g: Config, key: string) returns (k: Config)
    requires Wf(g) && g.top.state.Eatws? && g.top.saved.FieldStart? && NUL !in key
    ensures k.lower == g.lower && Wf(k)
    ensures k.top == Frame(Eatws, Value, g.top.current, Some(key))
    ensures Eats(g, PrintName(key), k)
  {
    var f := g.Goto(Field).(pb := "", quote := '"');
    EatKeyOpen(g, f);
    hide Feed, Step, Eat;
    var t := EatEscape(f, key);
    assert "" + key == key;
    k := EatKeyClose(t, key);
    EatsThen(g, "\"", f, Escape(key), t);
    EatsThen(g, "\"" + Escape(key), t, "\": ", k);
  }

  lemma EatKeyOpen(g: Config, f: Config)
    requires Wf(g) && g.top.state.Eatws? && g.top.saved.FieldStart?
    requires f == g.Goto(Field).(pb := "", quote := '"')
    ensures Wf(f) && Eats(g, "\"", f)
  {
    hide Feed, Eat;
    FeedRedo(g, '"');
    FeedTake(g.Goto(FieldStart), '"');
    EatsOne(g, '"', f);
  }

  lemma EatKeyClose(t: Config, key: string) returns (k: Config)
    requires InText(t) && t.top.state.Field? && t.pb == key && NUL !in key
    ensures k == t.(top := Frame(Eatws, Value, t.top.current, Some(key))) && Wf(k)
    ensures Eats(t, "\": ", k)
  {
    hide Feed, Eat;
    k := t.(top := Frame(Eatws, Value, t.top.current, Some(key)));
    var e := t.(top := t.top.(state := Eatws, saved := FieldEnd, field := Some(key)));
    FeedTake(t, '"');
    EatsOne(t, '"', e);
    FeedRedo(e, ':');
    FeedTake(e.Goto(FieldEnd), ':');
    EatsOne(e, ':', k);
    EatBlank(k);
    EatsThen(t, "\"", e, ":", k);
    EatsThen(t, "\"" + ":", k, " ", k);
    assert "\"" + ":" + " " == "\": ";
  }

  // ----- Values, by structure

  lemma FirstOfValue(v: Json)
    requires Printable(v)
    ensures Print(v) != "" && OpensValue(Print(v)[0])
  {
    match v
    case Int(n) => ScanPrinted(n);
    case _ =>
  }

  lemma {:induction false} LevelsOfItem(items: seq<Json>)
    requires items != []
    ensures 1 + Levels(items[0]) <= LevelsItems(items) && LevelsItems(items[1..]) <= LevelsItems(items)
  {
  }

  /** Reading the printed text of v on a fresh level completes v there, in the eyes of any
      character c that does not continue a number. */
  lemma {:induction false} EatValue(g: Config, v: Json, c: char) returns (m: Config, h: Config)
    requires AtValue(g) && Printable(v) && |g.lower| + Levels(v) < MAX_DEPTH && !IsNumberChar(c)
    ensures Eats(g, Print(v), m) && Done(m, c, g.lower, v, h)
    decreases v, 0
  {
    match v
    case Null => m, h := EatLiteral(g, "null", NullLiteral, v, c);
    case Bool(b) => m, h := EatLiteral(g, if b then "true" else "false", Boolean, v, c);
    case Int(n) => m, h := EatInt(g, n, c);
    case Str(s) => m := EatString(g, s, c); h := m;
    case Arr(items) => m := EatArray(g, items); h := m;
    case Obj(ms) => m := EatObject(g, ms); h := m;
  }

  /** A child value read by the level that waits for it. */
  lemma {:induction false} EatChild(k: Config, x: Json, c: char) returns (n: Config, h: Config)
    requires BeforeChild(k) && Printable(x) && |k.lower| + 1 + Levels(x) < MAX_DEPTH && (c == ',' || c == ' ')
    ensures Eats(k, Print(x), n) && Wf(n) && Wf(h)
    ensures ChildDone(h, k.lower, WaitingFrame(k.top), x) && Feed(n, c) == Feed(h, c)
    decreases x, 1
  {
    hide Feed, Step, Print;
    FirstOfValue(x);
    var p := OpenChild(k, Print(x)[0]);
    n, h := EatValue(p, x, c);
    EatSameFirst(k, p, Print(x));
  }

  lemma EatsSameFirst(n: Config, h: Config, c: char, s: string, e: Config)
    requires Wf(n) && Wf(h) && Feed(n, c) == Feed(h, c)
    requires s != "" && s[0] == c && Eats(h, s, e)
    ensures Eats(n, s, e)
  {
    EatSameFirst(n, h, s);
  }

  lemma ItemsText(items: seq<Json>, first: bool)
    requires items != []
    ensures
      var t := " " + (Print(items[0]) + PrintItems(items[1..], false));
      PrintItems(items, first) == if first then t else "," + t
  {
    var t := " " + (Print(items[0]) + PrintItems(items[1..], false));
    assert PrintItems(items, first) == Comma(first) + t;
    assert "" + t == t;
  }

  lemma MembersText(ms: seq<Member>, first: bool)
    requires ms != []
    ensures
      var t := " " + (PrintName(ms[0].key) + (Print(ms[0].val) + PrintMembers(ms[1..], false)));
      PrintMembers(ms, first) == if first then t else "," + t
  {
    var t := " " + (PrintName(ms[0].key) + (Print(ms[0].val) + PrintMembers(ms[1..], false)));
    assert PrintMembers(ms, first) == Comma(first) + t;
    assert "" + t == t;
  }

  /** From the comma after one child to the end of the rest. */
  lemma SeparatorThen(n: Config, h: Config, r: Config, u: string, m: Config)
    requires Wf(n) && Wf(h) && Feed(n, ',') == Feed(h, ',')
    requires Eats(h, ",", r) && r.top.state.Eatws? && Eats(r, u, m)
    ensures Eats(n, "," + (" " + u), m)
  {
    EatBlank(r);
    EatsSameFirst(n, h, ',', ",", r);
    hide *;
    EatsThen(r, " ", r, u, m);
    EatsThen(n, ",", r, " " + u, m);
  }

  /** What a level with an open array does for the element x. */
  lemma ElementFrame(k: Config, done: seq<Json>, x: Json) returns (f: Frame)
    requires Wf(k) && k.top == Frame(Eatws, Array, Arr(done), None)
    ensures BeforeChild(k) && f == WaitingFrame(k.top) && f.state.ArrayAdd?
    ensures Receive(f, x) == Frame(Eatws, ArraySep, Arr(done + [x]), None)
  {
    f := k.top.(state := ArrayAdd);
  }

  lemma LastItem(rest: seq<Json>)
    requires rest != [] && rest[1..] == []
    ensures rest == [rest[0]] && PrintItems(rest[1..], false) == " ]"
  {
  }

  lemma LastMember(rest: seq<Member>)
    requires rest != [] && rest[1..] == []
    ensures rest == [rest[0]] && PrintMembers(rest[1..], false) == " }"
  {
  }

  lemma HeadTail<T>(s: seq<T>)
    requires s != []
    ensures [s[0]] + s[1..] == s
  {
  }

  lemma {:induction false} EatArray(g: Config, items: seq<Json>) returns (m: Config)
    requires AtValue(g) && Printable(Arr(items)) && |g.lower| + LevelsItems(items) < MAX_DEPTH
    ensures Eats(g, Print(Arr(items)), m) && Wf(m)
    ensures m.lower == g.lower && m.top == Frame(Eatws, Finish, Arr(items), None)
    decreases items, 1
  {
    assert Print(Arr(items)) == "[" + PrintItems(items, true);
    var k := EatOpen(g, '[');
    if items == [] {
      assert PrintItems(items, true) == " ]";
      hide *;
      m := EatCloseEmpty(k, ']');
      EatsThen(g, "[", k, " ]", m);
    } else {
      assert [] + items == items;
      ItemsText(items, true);
      hide *;
      var t := Print(items[0]) + PrintItems(items[1..], false);
      m := EatItems(k, [], items);
      EatBlank(k);
      EatsThen(k, " ", k, t, m);
      EatsThen(g, "[", k, " " + t, m);
    }
  }

  /** From before an element to the closing bracket. */
  lemma {:induction false} EatItems(k: Config, done: seq<Json>, rest: seq<Json>) returns (m: Config)
    requires Wf(k) && k.top == Frame(Eatws, Array, Arr(done), None)
    requires rest != [] && |k.lower| + LevelsItems(rest) < MAX_DEPTH
    requires forall i :: 0 <= i < |rest| ==> Printable(rest[i])
    ensures Eats(k, Print(rest[0]) + PrintItems(rest[1..], false), m) && Wf(m)
    ensures m.lower == k.lower && m.top == Frame(Eatws, Finish, Arr(done + rest), None)
    decreases rest, 0
  {
    hide *;
    var x, more := rest[0], rest[1..];
    LevelsOfItem(rest);
    var f := ElementFrame(k, done, x);
    if more == [] {
      LastItem(rest);
      var n, h := EatChild(k, x, ' ');
      m := EatClose(h, k.lower, f, x);
      EatsSameFirst(n, h, ' ', " ]", m);
      EatsThen(k, Print(x), n, " ]", m);
    } else {
      ItemsText(more, false);
      HeadTail(rest);
      Assoc(done, [x], more);
      var n, h := EatChild(k, x, ',');
      var e := EatComma(h, k.lower, f, x);
      m := EatItems(e, done + [x], more);
      var u := Print(more[0]) + PrintItems(more[1..], false);
      SeparatorThen(n, h, e, u, m);
      EatsThen(k, Print(x), n, "," + (" " + u), m);
    }
  }

  lemma {:induction false} EatObject(g: Config, ms: seq<Member>) returns (m: Config)
    requires AtValue(g) && Printable(Obj(ms)) && |g.lower| + LevelsMembers(ms) < MAX_DEPTH
    ensures Eats(g, Print(Obj(ms)), m) && Wf(m)
    ensures m.lower == g.lower && m.top == Frame(Eatws, Finish, Obj(ms), None)
    decreases ms, 1
  {
    assert Print(Obj(ms)) == "{" + PrintMembers(ms, true);
    var k := EatOpen(g, '{');
    if ms == [] {
      assert PrintMembers(ms, true) == " }";
      hide *;
      m := EatCloseEmpty(k, '}');
      EatsThen(g, "{", k, " }", m);
    } else {
      assert [] + ms == ms;
      MembersText(ms, true);
      hide *;
      var t := PrintName(ms[0].key) + (Print(ms[0].val) + PrintMembers(ms[1..], false));
      m := EatMembers(k, [], ms);
      EatBlank(k);
      EatsThen(k, " ", k, t, m);
      EatsThen(g, "{", k, " " + t, m);
    }
  }

  /** One member: its name, then its value in the eyes of the next character c. */
  lemma {:induction false} EatMember(k: Config, done: seq<Member>, e: Member, c: char)
    returns (n: Config, h: Config, f: Frame)
    requires Wf(k) && k.top == Frame(Eatws, FieldStart, Obj(done), None)
    requires NUL !in e.key && Printable(e.val) && |k.lower| + 1 + Levels(e.val) < MAX_DEPTH && (c == ',' || c == ' ')
    requires AddMember(done, e.key, e.val) == done + [e]
    ensures Eats(k, PrintName(e.key) + Print(e.val), n) && Wf(n) && Wf(h)
    ensures ChildDone(h, k.lower, f, e.val) && Feed(n, c) == Feed(h, c) && f.state.ValueAdd?
    ensures Receive(f, e.val) == Frame(Eatws, ObjectSep, Obj(done + [e]), None)
    decreases e, 1
  {
    var q := EatKey(k, e.key);
    f := q.top.(state := ValueAdd);
    assert BeforeChild(q) && f == WaitingFrame(q.top);
    assert Receive(f, e.val) == Frame(Eatws, ObjectSep, Obj(done + [e]), None);
    hide *;
    n, h := EatChild(q, e.val, c);
    EatsThen(k, PrintName(e.key), q, Print(e.val), n);
  }

  /** From before a member to the closing brace. */
  lemma {:induction false} EatMembers(k: Config, done: seq<Member>, rest: seq<Member>) returns (m: Config)
    requires Wf(k) && k.top == Frame(Eatws, FieldStart, Obj(done), None)
    requires rest != [] && |k.lower| + LevelsMembers(rest) < MAX_DEPTH
    requires DistinctKeys(done + rest)
    requires forall i :: 0 <= i < |rest| ==> NUL !in rest[i].key && Printable(rest[i].val)
    ensures Eats(k, PrintName(rest[0].key) + (Print(rest[0].val) + PrintMembers(rest[1..], false)), m) && Wf(m)
    ensures m.lower == k.lower && m.top == Frame(Eatws, Finish, Obj(done + rest), None)
    decreases rest, 0
  {
    hide *;
    var e, more := rest[0], rest[1..];
    var name, text := PrintName(e.key), Print(e.val);
    NewKey(done, rest);
    if more == [] {
      LastMember(rest);
      Assoc(name, text, " }");
      var n, h, f := EatMember(k, done, e, ' ');
      m := EatClose(h, k.lower, f, e.val);
      EatsSameFirst(n, h, ' ', " }", m);
      EatsThen(k, name + text, n, " }", m);
    } else {
      MembersText(more, false);
      HeadTail(rest);
      Assoc(done, [e], more);
      var n, h, f := EatMember(k, done, e, ',');
      var r := EatComma(h, k.lower, f, e.val);
      m := EatMembers(r, done + [e], more);
      var u := PrintName(more[0].key) + (Print(more[0].val) + PrintMembers(more[1..], false));
      SeparatorThen(n, h, r, u, m);
      Assoc(name, text, "," + (" " + u));
      EatsThen(k, name + text, n, "," + (" " + u), m);
    }
  }

  lemma {:induction false} NewKeyAppends(ms: seq<Member>, key: string, val: Json)
    requires !HasKey(ms, key)
    ensures RemoveKey(ms, key) == ms && AddMember(ms, key, val) == ms + [Member(key, val)]
    decreases |ms|
  {
    if ms != [] {
      assert ms[0].key != key;
      forall i | 0 <= i < |ms[1..]|
        ensures ms[1..][i].key != key
      {
        assert ms[1..][i] == ms[i + 1];
      }
      NewKeyAppends(ms[1..], key, val);
    }
  }

  lemma NewKey(done: seq<Member>, rest: seq<Member>)
    requires rest != [] && DistinctKeys(done + rest)
    ensures AddMember(done, rest[0].key, rest[0].val) == done + [rest[0]]
    ensures 1 + Levels(rest[0].val) <= LevelsMembers(rest) && LevelsMembers(rest[1..]) <= LevelsMembers(rest)
  {
    forall i | 0 <= i < |done|
      ensures done[i].key != rest[0].key
    {
      assert (done + rest)[i] == done[i] && (done + rest)[|done|] == rest[0];
    }
    NewKeyAppends(done, rest[0].key, rest[0].val);
  }

  // ----- The theorem

  /** The printed text of a value that fits the stack, followed by any character that does not
      continue a number, is read up to that character. */
  lemma RunPrinted(v: Json, s: string) returns (h: Config)
    requires Printable(v) && Levels(v) < MAX_DEPTH
    requires |Print(v)| < |s| && s[..|Print(v)|] == Print(v) && !IsNumberChar(s[|Print(v)|])
    ensures h.lower == [] && h.top == Frame(Eatws, Finish, v, None) && Wf(h)
    ensures Run(Init(), s, 0) == Run(h, s, |Print(v)|)
  {
    hide Feed, Step, Print, Eat;
    var n := |Print(v)|;
    var m;
    m, h := EatValue(Init(), v, s[n]);
    assert s[0..n] == Print(v);
    RunAfterEating(Init(), s, 0, n, m);
  }

  /** A complete value at the bottom of the stack ends the run at the next character that is
      neither white space nor the start of a comment. */
  lemma RunStops(h: Config, s: string, i: nat)
    requires Wf(h) && h.lower == [] && h.top.state.Eatws? && h.top.saved.Finish?
    requires i < |s| && !IsSpace(s[i]) && s[i] != '/'
    ensures Run(h, s, i) == Outcome(h.Goto(Finish), Success, i)
  {
    hide Feed;
    FeedRedo(h, s[i]);
    FeedTake(h.Goto(Finish), s[i]);
  }

  /** Parsing undoes printing. */
  lemma ParsePrinted(v: Json)
    requires Printable(v) && Levels(v) < MAX_DEPTH
    ensures Parse(Print(v) + [NUL]) == Ok(v)
  {
    hide Feed, Step, Print;
    var s := Print(v) + [NUL];
    var h := RunPrinted(v, s);
    RunStops(h, s, |Print(v)|);
  }
}
