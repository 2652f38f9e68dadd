/** Every text is read as the grammar says: values, containers, whole texts. */
module GrammarValues {
  import opened Common
  import opened Json
  import opened TokenerSpec
  import opened Eating
  import opened Grammar
  import opened GrammarRuns
  import opened GrammarTokens

  /** White space has been passed. */
  predicate Starts(t: string) {
    t == "" || (!IsSpace(t[0]) && t[0] != '/')
  }

  /** White space is skipped before state s, on a level with this value. */
  ghost predicate Level(g: Config, s: State, v: Json, field: Option<string>) {
    Wf(g) && g.top == Frame(Eatws, s, v, field)
  }

  lemma LevelEnds(g: Config, s: State, v: Json, field: Option<string>)
    requires Level(g, s, v, field) && (s.Finish? ==> g.lower != [])
    ensures Gives(RunOn(g, ""), Short())
  {
    OnEnd(g);
  }

  /** The character after white space is looked at in the saved state. */
  lemma Resume(g: Config, t: string) returns (k: Config)
    requires Wf(g) && g.top.state.Eatws? && t != "" && Starts(t)
    ensures k == g.Goto(g.top.saved) && Wf(k) && RunOn(g, t) == RunOn(k, t)
  {
    hide Feed, RunOn;
    k := g.Goto(g.top.saved);
    OnRedo(g, k, t);
  }

  /** What a fresh level does with the first character of a value. */
  lemma {:induction false} RunBare(g: Config, t: string) returns (h: Config)
    requires AtValue(g) && Starts(t)
    ensures Reads(RunOn(g, t), ReadBare(t, |g.lower|), g.lower, h)
    decreases |t|, 1
  {
    hide Feed, RunOn, Step, ReadText, ReadLiteral, ReadNumber, ReadFields, ReadItems, CString, Lower, IsDigit;
    h := g;
    if t == "" {
      LevelEnds(g, Start, Null, None);
      return;
    }
    var k := Resume(g, t);
    if t[0] == '{' {
      var o := OpenContainer(k, t);
      h := RunFields(o, t[1..], []);
    } else if t[0] == '[' {
      var o := OpenContainer(k, t);
      h := RunItems(o, t[1..], []);
    } else if t[0] == '"' || t[0] == '\'' {
      var o := OpenQuote(k, t);
      h := RunText(o, t[1..]);
    } else {
      h := RunScalar(k, t);
    }
  }

  ghost predicate AtStart(k: Config) {
    Wf(k) && k.top == FRESH.(state := Start)
  }

  lemma OpenContainer(k: Config, t: string) returns (o: Config)
    requires AtStart(k) && t != "" && (t[0] == '{' || t[0] == '[')
    ensures Wf(o) && o.lower == k.lower && RunOn(k, t) == RunOn(o, t[1..])
    ensures if t[0] == '{' then Level(o, FieldStart, Obj([]), None) else Level(o, Array, Arr([]), None)
  {
    hide Feed, RunOn;
    o := k.(top := if t[0] == '{' then Frame(Eatws, FieldStart, Obj([]), None) else Frame(Eatws, Array, Arr([]), None));
    OnTake(k, o, t);
  }

  lemma OpenQuote(k: Config, t: string) returns (o: Config)
    requires AtStart(k) && t != "" && (t[0] == '"' || t[0] == '\'')
    ensures Reading(o) && o == k.Goto(StringBody).(pb := "", quote := t[0]) && RunOn(k, t) == RunOn(o, t[1..])
  {
    hide Feed, RunOn;
    o := k.Goto(StringBody).(pb := "", quote := t[0]);
    OnTake(k, o, t);
  }

  lemma RunScalar(k: Config, t: string) returns (h: Config)
    requires AtStart(k) && t != "" && t[0] !in "{[\"'"
    ensures Reads(RunOn(k, t), ReadBare(t, |k.lower|), k.lower, h)
  {
    hide Feed, RunOn, Step, ReadLiteral, NumberLength, NumberOf, CString, Lower, IsDigit, ReadFields, ReadItems, ReadText;
    var l := Lower(t[0]);
    if l == 'n' {
      var w := StartWord(k, t, "null", NullLiteral, Null);
      h := RunLiteral(w, t, "null", NullLiteral, Null, 0);
      assert "null"[0..] == "null";
    } else if l == 't' {
      var w := StartWord(k, t, "true", Boolean, Bool(true));
      h := RunLiteral(w, t, "true", Boolean, Bool(true), 0);
      assert "true"[0..] == "true";
    } else if l == 'f' {
      var w := StartWord(k, t, "false", Boolean, Bool(false));
      h := RunLiteral(w, t, "false", Boolean, Bool(false), 0);
      assert "false"[0..] == "false";
    } else if IsDigit(t[0]) || t[0] == '-' {
      IsNumberStart(t[0]);
      var d := StartNumber(k, t);
      h := RunDigits(d, t, "");
      assert "" + t[..NumberLength(t)] == t[..NumberLength(t)];
    } else {
      h := k;
      NoStart(k, t);
    }
  }

  lemma StartWord(k: Config, t: string, lit: string, s: State, v: Json) returns (w: Config)
    requires AtStart(k) && t != "" && IsLiteral(lit, s, v) && Lower(t[0]) == lit[0]
    ensures InWord(w, lit, s, v, 0) && w.lower == k.lower && RunOn(k, t) == RunOn(w, t)
  {
    hide Feed, RunOn;
    w := k.Goto(s).(pb := "", stPos := 0);
    OnRedo(k, w, t);
  }

  lemma StartNumber(k: Config, t: string) returns (d: Config)
    requires AtStart(k) && t != "" && (IsDigit(t[0]) || t[0] == '-')
    ensures InNumber(d, "") && d.lower == k.lower && RunOn(k, t) == RunOn(d, t)
  {
    hide Feed, RunOn;
    d := k.Goto(Number).(pb := "", isDouble := false);
    OnRedo(k, d, t);
  }

  lemma NoStart(k: Config, t: string)
    requires AtStart(k) && t != "" && t[0] !in "{[\"'" && Lower(t[0]) !in "ntf" && !IsDigit(t[0]) && t[0] != '-'
    ensures Gives(RunOn(k, t), Wrong(UnexpectedError, t))
  {
    hide Feed, RunOn;
    OnWrong(k, k, UnexpectedError, t);
  }

  // ----- Children

  /** The two places where a child value begins, and how the level waits for it. */
  ghost predicate Awaits(g: Config, s: State, w: State, t: string) {
    && Wf(g) && g.top.state.Eatws? && g.top.saved == s
    && ((s == Array && w == ArrayAdd && (t != "" ==> t[0] != ']')) || (s == Value && w == ValueAdd))
  }

  lemma {:induction false} RunChild(g: Config, s: State, w: State, t: string) returns (h: Config)
    requires Awaits(g, s, w, t) && Starts(t)
    ensures Reads(RunOn(g, t), ReadChild(t, |g.lower|), g.lower + [g.top.(state := w)], h)
    decreases |t|, 2
  {
    hide Feed, RunOn, Step, ReadBare;
    h := g;
    if t == "" {
      LevelEnds(g, s, g.top.current, g.top.field);
      return;
    }
    var k := Resume(g, t);
    if |g.lower| + 1 >= MAX_DEPTH {
      TooDeep(k, s, w, t);
    } else {
      var c := OneDeeper(k, s, w, t);
      assert k.top.(state := w) == g.top.(state := w);
      h := RunBare(c, t);
    }
  }

  ghost predicate Pushes(k: Config, s: State, w: State, t: string) {
    && Wf(k) && k.top.state == s && k.top.saved == s && t != ""
    && ((s == Array && w == ArrayAdd && t[0] != ']') || (s == Value && w == ValueAdd))
  }

  lemma TooDeep(k: Config, s: State, w: State, t: string)
    requires Pushes(k, s, w, t) && |k.lower| + 1 >= MAX_DEPTH
    ensures Gives(RunOn(k, t), Wrong(DepthError, t))
  {
    hide Feed, RunOn;
    OnWrong(k, k, DepthError, t);
  }

  lemma OneDeeper(k: Config, s: State, w: State, t: string) returns (c: Config)
    requires Pushes(k, s, w, t) && |k.lower| + 1 < MAX_DEPTH
    ensures AtValue(c) && c.lower == k.lower + [k.top.(state := w)] && RunOn(k, t) == RunOn(c, t)
  {
    hide Feed, RunOn;
    c := k.(lower := k.lower + [k.top.(state := w)], top := FRESH);
    OnRedo(k, c, t);
  }

  /** A finished child hands its value down. */
  lemma HandDown(c: Config, lower: seq<Frame>, f: Frame, v: Json, t: string) returns (p: Config)
    requires Complete(c, lower + [f], v) && Waiting(f) && t != "" && Starts(t)
    ensures Wf(p) && p == c.(lower := lower, top := TokenerSpec.Receive(f, v)).Goto(p.top.state)
    ensures p.top.state == TokenerSpec.Receive(f, v).saved && RunOn(c, t) == RunOn(p, t)
  {
    hide Feed, RunOn, AddMember;
    var k := Resume(c, t);
    var q := c.(lower := lower, top := TokenerSpec.Receive(f, v));
    assert (lower + [f])[..|lower|] == lower;
    OnRedo(k, q, t);
    p := Resume(q, t);
  }

  // ----- Arrays

  lemma {:induction false} RunItems(g: Config, t: string, items: seq<Json>) returns (h: Config)
    requires Level(g, Array, Arr(items), None)
    ensures Reads(RunOn(g, t), ReadItems(t, items, |g.lower|), g.lower, h)
    decreases |t|, 3
  {
    hide Feed, RunOn, Step, ReadChild, ReadItemsEnd, Blanks;
    h := RunBlanks(g, t);
    if Blanks(t).Past? {
      var u := Blanks(t).rest;
      if u != "" && u[0] == ']' {
        h := CloseItems(h, u, items);
      } else {
        var d := |g.lower|;
        var f := Frame(ArrayAdd, Array, Arr(items), None);
        var r := ReadChild(u, d);
        h := RunChild(h, Array, ArrayAdd, u);
        if r.Got? {
          h := RunItemsEnd(h, g.lower, r.rest, r.v, items);
        }
      }
    }
  }

  lemma CloseItems(g: Config, u: string, items: seq<Json>) returns (h: Config)
    requires Level(g, Array, Arr(items), None) && u != "" && u[0] == ']'
    ensures Complete(h, g.lower, Arr(items)) && RunOn(g, u) == RunOn(h, u[1..])
  {
    hide Feed, RunOn;
    var k := Resume(g, u);
    h := k.Then(Finish);
    OnTake(k, h, u);
  }

  lemma {:induction false} RunItemsEnd(c: Config, lower: seq<Frame>, t: string, v: Json, front: seq<Json>)
    returns (h: Config)
    requires Complete(c, lower + [Frame(ArrayAdd, Array, Arr(front), None)], v)
    ensures Reads(RunOn(c, t), ReadItemsEnd(t, v, front + [v], |lower|), lower, h)
    decreases |t|, 2
  {
    hide Feed, RunOn, Step, Blanks, ReadItems;
    h := RunBlanks(c, t);
    if Blanks(t).Past? {
      var u := Blanks(t).rest;
      if u == "" {
        LevelEnds(h, Finish, v, None);
      } else {
        var p := HandDown(h, lower, Frame(ArrayAdd, Array, Arr(front), None), v, u);
        h := AfterItem(p, u, front + [v]);
        if u[0] == ',' {
          h := RunItems(h, u[1..], front + [v]);
        }
      }
    }
  }

  lemma AfterItem(p: Config, u: string, items: seq<Json>) returns (h: Config)
    requires Wf(p) && p.top == Frame(ArraySep, ArraySep, Arr(items), None) && u != ""
    ensures if u[0] == ']' then Complete(h, p.lower, Arr(items)) && RunOn(p, u) == RunOn(h, u[1..])
            else if u[0] == ',' then
              Level(h, Array, Arr(items), None) && h.lower == p.lower && RunOn(p, u) == RunOn(h, u[1..])
            else Gives(RunOn(p, u), Wrong(ArrayError, u))
  {
    hide Feed, RunOn;
    h := p.Then(if u[0] == ']' then Finish else Array);
    if u[0] == ']' || u[0] == ',' {
      OnTake(p, h, u);
    } else {
      OnWrong(p, p, ArrayError, u);
    }
  }

  // ----- Objects

  lemma {:induction false} RunFields(g: Config, t: string, ms: seq<Member>) returns (h: Config)
    requires Level(g, FieldStart, Obj(ms), None)
    ensures Reads(RunOn(g, t), ReadFields(t, ms, |g.lower|), g.lower, h)
    decreases |t|, 4
  {
    hide Feed, RunOn, Step, ReadText, ReadColon, Blanks, CString;
    h := RunBlanks(g, t);
    if Blanks(t).Past? {
      var u := Blanks(t).rest;
      if u == "" {
        LevelEnds(h, FieldStart, Obj(ms), None);
      } else {
        h := AfterBrace(h, u, ms);
        if u[0] == '"' || u[0] == '\'' {
          var r := ReadText(u[1..], u[0], "");
          h := RunText(h, u[1..]);
          if r.Said? {
            h := RunColon(h, r.rest, ms, CString(r.s));
          }
        }
      }
    }
  }

  lemma AfterBrace(g: Config, u: string, ms: seq<Member>) returns (h: Config)
    requires Level(g, FieldStart, Obj(ms), None) && u != "" && Starts(u)
    ensures if u[0] == '}' then Complete(h, g.lower, Obj(ms)) && RunOn(g, u) == RunOn(h, u[1..])
            else if u[0] == '"' || u[0] == '\'' then
              && Reading(h) && h.pb == "" && h.quote == u[0] && h.lower == g.lower && RunOn(g, u) == RunOn(h, u[1..])
              && h.top == Frame(Field, FieldStart, Obj(ms), None)
            else Gives(RunOn(g, u), Wrong(KeyNameError, u))
  {
    hide Feed, RunOn;
    var k := Resume(g, u);
    h := k;
    if u[0] == '}' {
      h := k.Then(Finish);
      OnTake(k, h, u);
    } else if u[0] == '"' || u[0] == '\'' {
      h := k.Goto(Field).(pb := "", quote := u[0]);
      OnTake(k, h, u);
    } else {
      OnWrong(k, k, KeyNameError, u);
    }
  }

  lemma {:induction false} RunColon(g: Config, t: string, ms: seq<Member>, key: string) returns (h: Config)
    requires Level(g, FieldEnd, Obj(ms), Some(key))
    ensures Reads(RunOn(g, t), ReadColon(t, ms, key, |g.lower|), g.lower, h)
    decreases |t|, 3
  {
    hide Feed, RunOn, Step, ReadFieldValue, Blanks;
    h := RunBlanks(g, t);
    if Blanks(t).Past? {
      var u := Blanks(t).rest;
      if u == "" {
        LevelEnds(h, FieldEnd, Obj(ms), Some(key));
      } else {
        h := AfterName(h, u, ms, key);
        if u[0] == ':' {
          h := RunFieldValue(h, u[1..], ms, key);
        }
      }
    }
  }

  lemma AfterName(g: Config, u: string, ms: seq<Member>, key: string) returns (h: Config)
    requires Level(g, FieldEnd, Obj(ms), Some(key)) && u != "" && Starts(u)
    ensures if u[0] == ':' then
              Level(h, Value, Obj(ms), Some(key)) && h.lower == g.lower && RunOn(g, u) == RunOn(h, u[1..])
            else Gives(RunOn(g, u), Wrong(KeySepError, u))
  {
    hide Feed, RunOn;
    var k := Resume(g, u);
    h := k.Then(Value);
    if u[0] == ':' {
      OnTake(k, h, u);
    } else {
      OnWrong(k, k, KeySepError, u);
    }
  }

  lemma {:induction false} RunFieldValue(g: Config, t: string, ms: seq<Member>, key: string) returns (h: Config)
    requires Level(g, Value, Obj(ms), Some(key))
    ensures Reads(RunOn(g, t), ReadFieldValue(t, ms, key, |g.lower|), g.lower, h)
    decreases |t|, 3
  {
    hide Feed, RunOn, Step, ReadChild, ReadFieldsEnd, Blanks;
    h := RunBlanks(g, t);
    if Blanks(t).Past? {
      var u := Blanks(t).rest;
      var r := ReadChild(u, |g.lower|);
      h := RunChild(h, Value, ValueAdd, u);
      if r.Got? {
        h := RunFieldsEnd(h, g.lower, r.rest, r.v, ms, key);
      }
    }
  }

  lemma {:induction false} RunFieldsEnd(c: Config, lower: seq<Frame>, t: string, v: Json, ms: seq<Member>, key: string)
    returns (h: Config)
    requires Complete(c, lower + [Frame(ValueAdd, Value, Obj(ms), Some(key))], v)
    ensures Reads(RunOn(c, t), ReadFieldsEnd(t, v, AddMember(ms, key, v), |lower|), lower, h)
    decreases |t|, 2
  {
    hide Feed, RunOn, Step, Blanks, ReadFields, AddMember;
    h := RunBlanks(c, t);
    if Blanks(t).Past? {
      var u := Blanks(t).rest;
      if u == "" {
        LevelEnds(h, Finish, v, None);
      } else {
        var all := AddMember(ms, key, v);
        var p := HandDown(h, lower, Frame(ValueAdd, Value, Obj(ms), Some(key)), v, u);
        h := AfterMember(p, u, all);
        if u[0] == ',' {
          h := RunFields(h, u[1..], all);
        }
      }
    }
  }

  lemma AfterMember(p: Config, u: string, ms: seq<Member>) returns (h: Config)
    requires Wf(p) && p.top == Frame(ObjectSep, ObjectSep, Obj(ms), None) && u != ""
    ensures if u[0] == '}' then Complete(h, p.lower, Obj(ms)) && RunOn(p, u) == RunOn(h, u[1..])
            else if u[0] == ',' then
              Level(h, FieldStart, Obj(ms), None) && h.lower == p.lower && RunOn(p, u) == RunOn(h, u[1..])
            else Gives(RunOn(p, u), Wrong(ValueSepError, u))
  {
    hide Feed, RunOn;
    h := p.Then(if u[0] == '}' then Finish else FieldStart);
    if u[0] == '}' || u[0] == ',' {
      OnTake(p, h, u);
    } else {
      OnWrong(p, p, ValueSepError, u);
    }
  }

  // ----- Whole texts

  /** Behind the value at the bottom: the run stops at the first character that is neither blank nor comment. */
  lemma RunBottom(h: Config, v: Json, t: string)
    requires Complete(h, [], v)
    ensures Gives(RunOn(h, t), match Blanks(t) case Past(u) => Ending(Ok(v), u) case gap => UnendedAfter(gap, v))
  {
    hide Feed, RunOn, Step, Blanks;
    var k := RunBlanks(h, t);
    if Blanks(t).Past? {
      var u := Blanks(t).rest;
      if u == "" {
        OnEnd(k);
      } else {
        var f := Resume(k, u);
        Bottom(f, u);
      }
    }
  }

  lemma Bottom(f: Config, u: string)
    requires Wf(f) && f.lower == [] && f.top.state.Finish? && u != ""
    ensures RunOn(f, u) == Stop(f, Success, u)
  {
    hide Feed, RunOn;
    OnHalt(f, f, Success, u);
  }

  lemma RunWhole(t: string)
    ensures Gives(RunOn(Init(), t), ReadWhole(t))
  {
    hide Feed, RunOn, Step, Blanks, ReadBare;
    var h := RunBlanks(Init(), t);
    if Blanks(t).Past? {
      var u := Blanks(t).rest;
      h := RunBare(h, u);
      var r := ReadBare(u, 0);
      if r.Got? {
        RunBottom(h, r.v, r.rest);
      }
    }
  }

  /** On every text, complete or not, right or wrong: a call of a new tokener gives the value or the error that the
      grammar gives, and stops where the grammar stops. */
  lemma RunIsRead(s: string)
    ensures var o, e := Run(Init(), s, 0), ReadWhole(s);
            && o.offset == |s| - |e.rest|
            && match e.res
               case Ok(v) => o.err.Success? && Returned(o) == v
               case Failed(err) => o.err == err && !err.Success? && Returned(o) == Null
  {
    hide Feed, RunOn, ReadWhole, Run;
    RunWhole(s);
    assert s[0..] == s;
    RunIsRunOn(Init(), s, 0);
  }

  /** `json_tokener_parse` is that reading. */
  lemma ParseIsRead(s: string)
    ensures Parse(s) == ReadWhole(s).res
  {
    hide Feed, ReadWhole, Run;
    RunIsRead(s);
  }
}
