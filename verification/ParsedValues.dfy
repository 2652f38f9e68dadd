/** What the parser can build: well-formed values that fit the stack, so what it
    returns can be printed and parsed again. */
module ParsedValues {
  import opened Common
  import opened Json
  import opened TokenerSpec
  import opened RoundTrip

  /** The value of a level with room for so many levels above it. */
  ghost predicate FrameKept(f: Frame, room: int) {
    && WellFormed(f.current) && Levels(f.current) <= room
    && (f.field.Some? ==> NUL !in f.field.value)
  }

  ghost predicate Kept(g: Config) {
    && FrameKept(g.top, MAX_DEPTH - 1 - |g.lower|)
    && (forall i :: 0 <= i < |g.lower| ==> FrameKept(g.lower[i], MAX_DEPTH - 1 - i))
  }

  // ----- Adding to containers

  lemma {:induction false} LevelsAppend(items: seq<Json>, v: Json)
    ensures LevelsItems(items + [v]) == Max(LevelsItems(items), 1 + Levels(v))
    decreases |items|
  {
    if items == [] {
      assert items + [v] == [v];
    } else {
      assert (items + [v])[1..] == items[1..] + [v];
      LevelsAppend(items[1..], v);
    }
  }

  lemma {:induction false} LevelsAppendMember(ms: seq<Member>, m: Member)
    ensures LevelsMembers(ms + [m]) == Max(LevelsMembers(ms), 1 + Levels(m.val))
    decreases |ms|
  {
    if ms == [] {
      assert ms + [m] == [m];
    } else {
      assert (ms + [m])[1..] == ms[1..] + [m];
      LevelsAppendMember(ms[1..], m);
    }
  }

  lemma {:induction false} RemoveKeyLevels(ms: seq<Member>, key: string)
    ensures LevelsMembers(RemoveKey(ms, key)) <= LevelsMembers(ms)
    decreases |ms|
  {
    hide Levels;
    if ms != [] {
      RemoveKeyLevels(ms[1..], key);
      assert ms[0].key != key ==> RemoveKey(ms, key)[1..] == RemoveKey(ms[1..], key);
    }
  }

  lemma {:induction false} RemoveKeyDistinct(ms: seq<Member>, key: string)
    requires DistinctKeys(ms)
    ensures DistinctKeys(RemoveKey(ms, key))
    decreases |ms|
  {
    if ms != [] {
      var rest := RemoveKey(ms[1..], key);
      RemoveKeyDistinct(ms[1..], key);
      forall j | 0 <= j < |rest|
        ensures rest[j].key != ms[0].key
      {
        assert rest[j] in ms[1..];
      }
    }
  }

  lemma ArrayAppendKept(items: seq<Json>, v: Json, room: nat)
    requires WellFormed(Arr(items)) && Levels(Arr(items)) <= room
    requires WellFormed(v) && Levels(v) + 1 <= room
    ensures WellFormed(Arr(items + [v])) && Levels(Arr(items + [v])) <= room
  {
    LevelsAppend(items, v);
  }

  lemma ObjectAddLevels(ms: seq<Member>, key: string, v: Json)
    ensures Levels(Obj(AddMember(ms, key, v))) <= Max(Levels(Obj(ms)), 1 + Levels(v))
  {
    hide RemoveKey, LevelsMembers;
    RemoveKeyLevels(ms, key);
    LevelsAppendMember(RemoveKey(ms, key), Member(key, v));
  }

  ghost predicate GoodMembers(ms: seq<Member>) {
    forall i :: 0 <= i < |ms| ==> NUL !in ms[i].key && WellFormed(ms[i].val)
  }

  lemma WellFormedMembers(ms: seq<Member>)
    ensures WellFormed(Obj(ms)) <==> DistinctKeys(ms) && GoodMembers(ms)
  {
    hide DistinctKeys;
  }

  lemma RemoveKeyGood(ms: seq<Member>, key: string)
    requires GoodMembers(ms)
    ensures GoodMembers(RemoveKey(ms, key))
  {
    hide WellFormed;
    var kept := RemoveKey(ms, key);
    forall i | 0 <= i < |kept|
      ensures NUL !in kept[i].key && WellFormed(kept[i].val)
    {
      assert kept[i] in ms;
    }
  }

  lemma AppendDistinct(ms: seq<Member>, key: string, v: Json)
    requires DistinctKeys(ms)
    ensures DistinctKeys(AddMember(ms, key, v))
  {
    var kept := RemoveKey(ms, key);
    RemoveKeyDistinct(ms, key);
    forall i | 0 <= i < |kept|
      ensures kept[i].key != key
    {
      assert kept[i] in kept;
    }
  }

  lemma ObjectAddKept(ms: seq<Member>, key: string, v: Json, room: nat)
    requires WellFormed(Obj(ms)) && Levels(Obj(ms)) <= room
    requires WellFormed(v) && Levels(v) + 1 <= room && NUL !in key
    ensures WellFormed(Obj(AddMember(ms, key, v))) && Levels(Obj(AddMember(ms, key, v))) <= room
  {
    hide WellFormed, Levels, DistinctKeys, RemoveKey;
    ObjectAddLevels(ms, key, v);
    WellFormedMembers(ms);
    AppendDistinct(ms, key, v);
    RemoveKeyGood(ms, key);
    WellFormedMembers(AddMember(ms, key, v));
  }

  lemma ReceiveKept(f: Frame, v: Json, room: nat)
    requires Waiting(f) && FrameKept(f, room) && WellFormed(v) && Levels(v) + 1 <= room
    ensures FrameKept(Receive(f, v), room)
  {
    if f.state.ArrayAdd? {
      ArrayAppendKept(f.current.items, v, room);
    } else {
      ObjectAddKept(f.current.members, f.field.value, v, room);
    }
  }

  // ----- Steps and runs

  lemma PopKept(g: Config)
    requires Wf(g) && Kept(g) && g.lower != []
    ensures Kept(Pop(g))
  {
    hide WellFormed, Levels, Receive;
    var n := |g.lower| - 1;
    ReceiveKept(g.lower[n], g.top.current, MAX_DEPTH - 1 - n);
  }

  lemma FreshKept(room: nat)
    ensures FrameKept(FRESH, room)
  {
  }

  lemma ScalarKept(v: Json, room: nat)
    requires v.Null? || v.Bool? || v.Int? || v.Double? || v == Arr([]) || v == Obj([]) || (v.Str? && NUL !in v.s)
    ensures WellFormed(v) && Levels(v) <= room
  {
  }

  /** h keeps the levels of g, but for a new value or name of its own on top. */
  ghost predicate TopChange(g: Config, h: Config) {
    && h.lower == g.lower
    && (h.top.current == g.top.current || h.top.current.Null? || h.top.current.Bool? || h.top.current.Int?
        || h.top.current.Double? || h.top.current == Arr([]) || h.top.current == Obj([])
        || (h.top.current.Str? && NUL !in h.top.current.s))
    && (h.top.field == g.top.field || (h.top.field.Some? && NUL !in h.top.field.value))
  }

  lemma TopChangeKept(g: Config, h: Config)
    requires Wf(g) && Kept(g) && TopChange(g, h)
    ensures Kept(h)
  {
    hide WellFormed, Levels, Wf;
    assert |g.lower| < MAX_DEPTH by { WfRoom(g); }
    if h.top.current != g.top.current {
      ScalarKept(h.top.current, MAX_DEPTH - 1 - |g.lower|);
    }
  }

  lemma WfRoom(g: Config)
    requires Wf(g)
    ensures |g.lower| < MAX_DEPTH
  {
  }

  lemma StartChangesTop(g: Config, c: char)
    requires Wf(g) && g.top.state.Start?
    ensures TopChange(g, StepStart(g, c).cfg)
  {
    hide Wf;
  }

  lemma ScalarChangesTop(g: Config, c: char)
    requires Wf(g)
    ensures g.top.state.NullLiteral? ==> TopChange(g, StepNull(g, c).cfg)
    ensures g.top.state.Boolean? ==> TopChange(g, StepBoolean(g, c).cfg)
    ensures g.top.state.Number? ==> TopChange(g, StepNumber(g, c).cfg)
  {
    hide SameNoCase, ScanInt, ScansDouble, Wf;
  }

  lemma BodyChangesTop(g: Config, c: char)
    requires Wf(g) && (g.top.state.StringBody? || g.top.state.Field?)
    ensures TopChange(g, StepText(g, c).cfg)
  {
  }

  lemma EscapeChangesTop(g: Config, c: char)
    requires Wf(g)
    ensures g.top.state.StringEscape? ==> TopChange(g, StepEscape(g, c).cfg)
    ensures g.top.state.EscapeUnicode? ==> TopChange(g, StepUnicode(g, c).cfg)
  {
    hide InHexChars, Utf8, AddHexDigit;
  }

  lemma TextChangesTop(g: Config, c: char)
    requires Wf(g)
    ensures g.top.state.StringBody? || g.top.state.Field? ==> TopChange(g, StepText(g, c).cfg)
    ensures g.top.state.StringEscape? ==> TopChange(g, StepEscape(g, c).cfg)
    ensures g.top.state.EscapeUnicode? ==> TopChange(g, StepUnicode(g, c).cfg)
  {
    hide StepText, StepEscape, StepUnicode, TopChange, Wf;
    EscapeChangesTop(g, c);
    if g.top.state.StringBody? || g.top.state.Field? { BodyChangesTop(g, c); }
  }

  lemma StepChangesTop(g: Config, c: char)
    requires Wf(g) && !g.top.state.Finish? && !g.top.state.Array? && !g.top.state.Value?
    ensures TopChange(g, Step(g, c).cfg)
  {
    hide StepStart, StepNull, StepBoolean, StepNumber, StepText, StepEscape, StepUnicode, Push, Wf;
    ScalarChangesTop(g, c);
    TextChangesTop(g, c);
    if g.top.state.Start? { StartChangesTop(g, c); }
  }

  lemma PushKept(g: Config, waiting: State, c: char)
    requires Wf(g) && Kept(g) && Waiting(g.top.(state := waiting)) && Rank(g.top) == 9
    ensures Kept(Push(g, waiting, c).cfg)
  {
    hide WellFormed, Levels;
    if |g.lower| + 1 < MAX_DEPTH {
      FreshKept(MAX_DEPTH - 2 - |g.lower|);
    }
  }

  lemma StepKept(g: Config, c: char)
    requires Wf(g) && Kept(g)
    ensures Kept(Step(g, c).cfg)
  {
    if g.top.state.Finish? {
      if g.lower != [] { PopKept(g); }
    } else if g.top.state.Array? {
      hide Kept, WellFormed, Levels;
      if c == ']' {
        TopChangeKept(g, g.Then(Finish));
      } else {
        PushKept(g, ArrayAdd, c);
      }
    } else if g.top.state.Value? {
      PushKept(g, ValueAdd, c);
    } else {
      StepChangesTop(g, c);
      TopChangeKept(g, Step(g, c).cfg);
    }
  }

  lemma {:induction false} FeedKept(g: Config, c: char)
    requires Wf(g) && Kept(g)
    ensures Kept(Feed(g, c).cfg)
    decreases Rank(g.top)
  {
    hide Step, Kept, Wf;
    StepKept(g, c);
    if Step(g, c).Redo? {
      FeedKept(Step(g, c).cfg, c);
    }
  }

  lemma {:induction false} RunKept(g: Config, s: string, i: nat)
    requires Wf(g) && Kept(g) && i <= |s|
    ensures Kept(Run(g, s, i).cfg)
    decreases |s| - i
  {
    hide Feed, Kept, Wf;
    if i < |s| {
      FeedKept(g, s[i]);
      var f := Feed(g, s[i]);
      if f.Take? && s[i] != NUL {
        RunKept(f.cfg, s, i + 1);
      }
    }
  }

  /** Whatever text it was read from, a parsed value is well formed and fits the stack. */
  lemma ParsedIsKept(s: string)
    requires Parse(s).Ok?
    ensures WellFormed(Parse(s).v) && Levels(Parse(s).v) < MAX_DEPTH
  {
    hide Run;
    RunKept(Init(), s, 0);
  }

  /** Printing a parsed value and parsing it again gives the same value: one pass of the printer normalizes. */
  lemma ReparseSame(s: string)
    requires Parse(s).Ok? && !HasDouble(Parse(s).v)
    ensures Parse(Print(Parse(s).v) + [NUL]) == Parse(s)
  {
    hide Run, Print;
    ParsedIsKept(s);
    ParsePrinted(Parse(s).v);
  }
}
