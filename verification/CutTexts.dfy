/** Printed texts that are cut short. */
module CutTexts {
  import opened Common
  import opened Json
  import opened TokenerSpec
  import opened Eating
  import opened RoundTrip
  import opened Grammar
  import opened GrammarRuns
  import opened GrammarTokens
  import opened GrammarValues
  import opened Unfinished

  /** A literal that has been begun is spelled right so far. */
  ghost predicate Spelling(g: Config) {
    && (g.top.state.NullLiteral? ==> Spelled(g.pb, "null", g.stPos))
    && (g.top.state.Boolean? ==> Spelled(g.pb, "true", g.stPos) || Spelled(g.pb, "false", g.stPos))
  }

  /** The next letter keeps the spelling, and a backslash is no letter. */
  ghost predicate SpellsOn(g: Config, c: char)
    requires Wf(g)
  {
    && (!Step(g, c).Halt? ==> Spelling(Step(g, c).cfg))
    && (c == '\\' ==> !Step(g, c).Take?)
  }

  lemma SpellsNull(g: Config, c: char)
    requires Wf(g) && g.top.state.NullLiteral? && Spelled(g.pb, "null", g.stPos)
    ensures SpellsOn(g, c)
  {
    hide CString, SameNoCase, StepBlank, StepText, StepEscape, StepUnicode, StepFinish, StepStart, StepNumber, StepBoolean,
      StepArray, StepObject;
    Agrees("null", g.pb, c, g.stPos);
  }

  lemma SpellsTrue(g: Config, c: char)
    requires Wf(g) && g.top.state.Boolean? && Spelled(g.pb, "true", g.stPos) && g.stPos > 0
    ensures SpellsOn(g, c)
  {
    hide CString, SameNoCase, StepBlank, StepText, StepEscape, StepUnicode, StepFinish, StepStart, StepNumber, StepNull,
      StepArray, StepObject;
    Agrees("true", g.pb, c, g.stPos);
    OtherWord(g.pb + [c], g.stPos);
    assert (g.pb + [c])[0] == g.pb[0];
  }

  lemma SpellsFalse(g: Config, c: char)
    requires Wf(g) && g.top.state.Boolean? && Spelled(g.pb, "false", g.stPos) && g.stPos > 0
    ensures SpellsOn(g, c)
  {
    hide CString, SameNoCase, StepBlank, StepText, StepEscape, StepUnicode, StepFinish, StepStart, StepNumber, StepNull,
      StepArray, StepObject;
    Agrees("false", g.pb, c, g.stPos);
    OtherWord(g.pb + [c], g.stPos);
    assert (g.pb + [c])[0] == g.pb[0];
  }

  lemma SpellsFirst(g: Config, c: char)
    requires Wf(g) && g.top.state.Boolean? && g.pb == "" && g.stPos == 0
    ensures SpellsOn(g, c)
  {
    hide CString, SameNoCase, StepBlank, StepText, StepEscape, StepUnicode, StepFinish, StepStart, StepNumber, StepNull,
      StepArray, StepObject;
    Agrees("true", g.pb, c, 0);
    Agrees("false", g.pb, c, 0);
  }

  lemma SpellsNumber(g: Config, c: char)
    requires Wf(g) && g.top.state.Number?
    ensures SpellsOn(g, c)
  {
    hide CString, NumberValue, StepBlank, StepText, StepEscape, StepUnicode, StepFinish, StepStart, StepNull, StepBoolean,
      StepArray, StepObject;
  }

  lemma SpellingKept(g: Config, c: char)
    requires Wf(g) && Spelling(g) && IsScalarState(g.top.state)
    ensures SpellsOn(g, c)
  {
    hide SpellsOn, Wf;
    if g.top.state.NullLiteral? {
      SpellsNull(g, c);
    } else if g.top.state.Number? {
      SpellsNumber(g, c);
    } else if g.stPos == 0 {
      SpellsFirst(g, c);
    } else if Spelled(g.pb, "true", g.stPos) {
      SpellsTrue(g, c);
    } else {
      SpellsFalse(g, c);
    }
  }

  /** Within a value whose end is still to come. */
  ghost predicate Within(g: Config) {
    && Settled(g) && Spelling(g) && !IsCommentState(g.top.state)
    && (g.lower == [] ==> !IsScalarState(Goal(g.top)) && !Goal(g.top).Start? && !Goal(g.top).Finish?)
  }

  lemma WithinGoesOn(g: Config)
    requires Within(g)
    ensures !Completed(g) && !CommentBehind(g) && Exhausted(g).Continue?
  {
    hide Step;
  }

  /** The value at the bottom has just been completed. */
  predicate Closed(g: Config) {
    Wf(g) && g.lower == [] && g.top.saved.Finish? && (g.top.state.Eatws? || IsCommentState(g.top.state))
  }

  /** What one look at a character of a printed text does: no slash begins a comment there. */
  ghost predicate StaysWithin(g: Config, c: char)
    requires Wf(g)
  {
    var a := Step(g, c);
    && (a.Redo? ==> Within(a.cfg))
    && (a.Take? ==> Within(a.cfg) || Closed(a.cfg))
    && (a.Take? && c == '\\' ==> IsTextState(a.cfg.top.state))
  }

  lemma WithinText(g: Config, c: char)
    requires Within(g) && IsTextState(g.top.state)
    ensures StaysWithin(g, c) && !Step(g, c).Redo?
  {
    hide CString, InHexChars, AddHexDigit, Utf8, StepBlank, StepStart, StepFinish, StepNull, StepBoolean, StepNumber,
      StepArray, StepObject, Spelled;
    SettledInText(g, c);
  }

  lemma WithinScalar(g: Config, c: char)
    requires Within(g) && (IsScalarState(g.top.state) || g.top.state.Start?) && c != '/'
    ensures StaysWithin(g, c)
  {
    hide CString, SameNoCase, NumberValue, StepBlank, StepText, StepEscape, StepUnicode, StepFinish, StepArray,
      StepObject;
    SettledInScalar(g, c);
    if IsScalarState(g.top.state) {
      SpellingKept(g, c);
    }
  }

  lemma WithinBlanks(g: Config, c: char)
    requires Within(g) && g.top.state.Eatws? && c != '/'
    ensures StaysWithin(g, c)
  {
    hide StepText, StepEscape, StepUnicode, StepStart, StepFinish, StepNull, StepBoolean, StepNumber, StepArray, StepObject;
    SettledInBlanks(g, c);
  }

  lemma WithinContainer(g: Config, c: char)
    requires Within(g) && !IsTextState(g.top.state) && !IsScalarState(g.top.state) && !g.top.state.Start?
    requires !g.top.state.Eatws? && c != '/'
    ensures StaysWithin(g, c)
  {
    hide AddMember, StepBlank, StepText, StepEscape, StepUnicode, StepStart, StepNull, StepBoolean, StepNumber;
    SettledElsewhere(g, c);
  }

  lemma {:induction false} FeedWithin(g: Config, c: char)
    requires Within(g) && (c == '/' ==> IsTextState(g.top.state)) && Feed(g, c).Take?
    ensures var h := Feed(g, c).cfg;
            && (Within(h) || Closed(h))
            && (c == '\\' ==> IsTextState(h.top.state))
    decreases Rank(g.top)
  {
    hide Step, Settled;
    IsWf(g);
    if IsTextState(g.top.state) {
      WithinText(g, c);
    } else if IsScalarState(g.top.state) || g.top.state.Start? {
      WithinScalar(g, c);
    } else if g.top.state.Eatws? {
      WithinBlanks(g, c);
    } else {
      WithinContainer(g, c);
    }
    if Step(g, c).Redo? {
      FeedRedo(g, c);
      FeedWithin(Step(g, c).cfg, c);
    } else {
      FeedTake(g, c);
    }
  }

  /** Behind a complete value only blanks and comments are taken. */
  lemma ClosedStep(g: Config, c: char)
    requires Closed(g) && Feed(g, c).Take?
    ensures var h := Feed(g, c).cfg;
            Closed(h) && (h.top.state.Eatws? ==> IsSpace(c) || c == '/')
  {
    hide Feed, StepStart, StepNull, StepBoolean, StepNumber, StepText, StepEscape, StepUnicode, StepArray, StepObject;
    if Step(g, c).Redo? {
      FeedRedo(g, c);
      FeedTake(g.Goto(Finish), c);
    } else {
      FeedTake(g, c);
    }
  }

  /** A text taken behind a complete value that ends neither in a blank nor in a slash ends in a comment. */
  lemma {:induction false} EndsInComment(g: Config, u: string, h: Config)
    requires Closed(g) && u != "" && Eats(g, u, h) && !IsSpace(u[|u| - 1]) && u[|u| - 1] != '/'
    ensures !h.top.state.Eatws?
    decreases |u|
  {
    hide Feed, Step;
    ClosedStep(g, u[0]);
    if |u| > 1 {
      EndsInComment(Feed(g, u[0]).cfg, u[1..], h);
    } else {
      assert u[1..] == "";
    }
  }

  /** Every slash comes behind a backslash. */
  ghost predicate SlashesEscaped(s: string) {
    forall i :: 0 <= i < |s| && s[i] == '/' ==> i > 0 && s[i - 1] == '\\'
  }

  /** The same for the rest of a text, of which the first slash may be escaped by what came before. */
  ghost predicate RestEscaped(s: string, escaped: bool) {
    && (s != "" && s[0] == '/' ==> escaped)
    && forall i, j :: 0 <= i && j == i + 1 && j < |s| && s[j] == '/' ==> s[i] == '\\'
  }

  lemma RestOfRest(s: string, escaped: bool)
    requires s != "" && RestEscaped(s, escaped)
    ensures RestEscaped(s[1..], s[0] == '\\')
  {
    var t := s[1..];
    if t != "" && t[0] == '/' {
      assert s[1] == '/' && s[0] == '\\';
    }
    forall i, j | 0 <= i && j == i + 1 && j < |t| && t[j] == '/'
      ensures t[i] == '\\'
    {
      assert s[j + 1] == '/' && s[i + 1] == '\\';
    }
  }

  /** Every strict prefix of a text that leads to a complete value stays within the value. */
  lemma {:induction false} PrefixWithin(g: Config, s: string, k: nat, h: Config) returns (m: Config)
    requires Within(g) && Eats(g, s, h) && h.top.state.Eatws? && k < |s|
    requires RestEscaped(s, IsTextState(g.top.state))
    requires !IsSpace(s[|s| - 1]) && s[|s| - 1] != '/'
    ensures Eats(g, s[..k], m) && Within(m)
    decreases k
  {
    hide Feed, Step, Within, RestEscaped;
    m := g;
    if k == 0 {
      EatNothing(g);
      assert s[..0] == "";
    } else {
      var c, n := s[0], Feed(g, s[0]).cfg;
      FirstSlash(s, IsTextState(g.top.state));
      FeedWithin(g, c);
      if Closed(n) {
        EndsInComment(n, s[1..], h);
      }
      RestOfRest(s, IsTextState(g.top.state));
      if c == '\\' { assert IsTextState(n.top.state); }
      RestWeaker(s[1..], c == '\\', IsTextState(n.top.state));
      m := PrefixWithin(n, s[1..], k - 1, h);
      assert s[..k][0] == c && s[..k][1..] == s[1..][..k - 1];
    }
  }

  lemma FirstSlash(s: string, escaped: bool)
    requires s != "" && RestEscaped(s, escaped)
    ensures s[0] == '/' ==> escaped
  {
  }

  lemma RestWeaker(s: string, a: bool, b: bool)
    requires RestEscaped(s, a) && (a ==> b)
    ensures RestEscaped(s, b)
  {
  }

  // ----- Printed texts escape every slash

  lemma EscapedBoth(a: string, b: string)
    requires SlashesEscaped(a) && SlashesEscaped(b)
    ensures SlashesEscaped(a + b)
  {
    var s := a + b;
    forall i | 0 <= i < |s| && s[i] == '/'
      ensures i > 0 && s[i - 1] == '\\'
    {
      if i < |a| {
        assert a[i] == '/' && s[i - 1] == a[i - 1];
      } else {
        assert b[i - |a|] == '/' && s[i - 1] == b[i - |a| - 1];
      }
    }
  }

  lemma EscapedChar(c: char)
    ensures SlashesEscaped(EscapeChar(c))
  {
    hide SlashesEscaped;
    if c == '/' {
      EscapedSlash();
    } else if c < ' ' {
      EscapedControl(c);
    } else {
      NoSlash(EscapeChar(c));
    }
  }

  lemma EscapedSlash()
    ensures SlashesEscaped(EscapeChar('/'))
  {
  }

  lemma EscapedControl(c: char)
    requires c < ' '
    ensures SlashesEscaped(EscapeChar(c))
  {
    hide SlashesEscaped;
    HexIsNoSlash(c as int / 16);
    HexIsNoSlash(c as int % 16);
    NoSlash(EscapeChar(c));
  }

  lemma HexIsNoSlash(d: nat)
    requires d < 16
    ensures HEX[d] != '/'
  {
  }

  lemma {:induction false} EscapedText(s: string)
    ensures SlashesEscaped(Escape(s))
  {
    hide EscapeChar, SlashesEscaped;
    if s == "" {
      NoSlash("");
    } else {
      EscapedChar(s[0]);
      EscapedText(s[1..]);
      EscapedBoth(EscapeChar(s[0]), Escape(s[1..]));
    }
  }

  lemma NoSlash(s: string)
    requires '/' !in s
    ensures SlashesEscaped(s)
  {
  }

  lemma NumberNoSlash(n: int32)
    ensures '/' !in PrintInt(n)
  {
    hide PrintInt;
    ScanPrinted(n);
    PrintedDigits(n);
  }

  lemma QuotedText(s: string, end: string)
    requires '/' !in end
    ensures SlashesEscaped("\"" + Escape(s) + end)
  {
    hide SlashesEscaped, Escape;
    NoSlash("\"");
    NoSlash(end);
    EscapedText(s);
    EscapedBoth("\"", Escape(s));
    EscapedBoth("\"" + Escape(s), end);
  }

  lemma {:induction false} PrintEscapes(v: Json)
    requires !HasDouble(v)
    ensures SlashesEscaped(Print(v))
    decreases v, 0
  {
    hide SlashesEscaped, Escape, PrintInt;
    match v
    case Null => NoSlash("null");
    case Bool(b) => NoSlash(if b then "true" else "false");
    case Int(n) =>
      NumberNoSlash(n);
      NoSlash(PrintInt(n));
    case Double(_) =>
    case Str(s) => QuotedText(s, "\"");
    case Arr(items) =>
      NoSlash("[");
      ItemsEscape(items, true);
      EscapedBoth("[", PrintItems(items, true));
    case Obj(ms) =>
      NoSlash("{");
      MembersEscape(ms, true);
      EscapedBoth("{", PrintMembers(ms, true));
  }

  lemma {:induction false} ItemsEscape(items: seq<Json>, first: bool)
    requires forall i :: 0 <= i < |items| ==> !HasDouble(items[i])
    ensures SlashesEscaped(PrintItems(items, first))
    decreases items, 1
  {
    hide SlashesEscaped, Print, HasDouble;
    if items == [] {
      NoSlash(" ]");
    } else {
      NoSlash(Comma(first));
      NoSlash(" ");
      PrintEscapes(items[0]);
      ItemsEscape(items[1..], false);
      EscapedBoth(Print(items[0]), PrintItems(items[1..], false));
      EscapedBoth(" ", Print(items[0]) + PrintItems(items[1..], false));
      EscapedBoth(Comma(first), " " + (Print(items[0]) + PrintItems(items[1..], false)));
    }
  }

  lemma {:induction false} MembersEscape(ms: seq<Member>, first: bool)
    requires forall i :: 0 <= i < |ms| ==> !HasDouble(ms[i].val)
    ensures SlashesEscaped(PrintMembers(ms, first))
    decreases ms, 1
  {
    hide SlashesEscaped, Print, HasDouble, Escape;
    if ms == [] {
      NoSlash(" }");
    } else {
      var rest := PrintMembers(ms[1..], false);
      NoSlash(Comma(first));
      NoSlash(" ");
      QuotedText(ms[0].key, "\": ");
      assert PrintName(ms[0].key) == "\"" + Escape(ms[0].key) + "\": ";
      PrintEscapes(ms[0].val);
      MembersEscape(ms[1..], false);
      EscapedBoth(Print(ms[0].val), rest);
      EscapedBoth(PrintName(ms[0].key), Print(ms[0].val) + rest);
      EscapedBoth(" ", PrintName(ms[0].key) + (Print(ms[0].val) + rest));
      EscapedBoth(Comma(first), " " + (PrintName(ms[0].key) + (Print(ms[0].val) + rest)));
    }
  }

  // ----- The theorem

  /** Strings, arrays and objects: values whose text shows its own end. */
  predicate Bracketed(v: Json) {
    v.Str? || v.Arr? || v.Obj?
  }

  lemma Brackets(v: Json)
    requires Bracketed(v)
    ensures var s := Print(v);
            s != "" && s[0] in "\"[{" && s[|s| - 1] in "\"]}"
  {
    match v
    case Str(_) =>
    case Arr(items) => ItemsEnd(items, true);
    case Obj(ms) => MembersEnd(ms, true);
  }

  lemma {:induction false} ItemsEnd(items: seq<Json>, first: bool)
    ensures var s := PrintItems(items, first);
            s != "" && s[|s| - 1] == ']'
  {
    hide Print;
    if items != [] {
      ItemsEnd(items[1..], false);
    }
  }

  lemma {:induction false} MembersEnd(ms: seq<Member>, first: bool)
    ensures var s := PrintMembers(ms, first);
            s != "" && s[|s| - 1] == '}'
  {
    hide Print, PrintName;
    if ms != [] {
      MembersEnd(ms[1..], false);
    }
  }

  lemma {:induction false} EatsNoNul(g: Config, s: string, h: Config)
    requires Eats(g, s, h)
    ensures NUL !in s
    decreases |s|
  {
    hide Feed;
    if s != "" {
      EatsNoNul(Feed(g, s[0]).cfg, s[1..], h);
    }
  }

  /** The whole text is taken, and leaves the value at the bottom. */
  lemma EatsWhole(v: Json) returns (h: Config)
    requires Bracketed(v) && Printable(v) && Levels(v) < MAX_DEPTH
    ensures Eats(Init(), Print(v), h) && h.top.state.Eatws?
  {
    hide Feed, Step, Eat, Print;
    h := Init();
    match v
    case Str(s) =>
      h := EatString(Init(), s, '}');
      StrText(s);
    case Arr(items) => h := EatArray(Init(), items);
    case Obj(ms) => h := EatObject(Init(), ms);
    case _ =>
  }

  lemma StrText(s: string)
    ensures Print(Str(s)) == "\"" + Escape(s) + "\""
  {
  }

  /** The first character leads into the value. */
  lemma FirstWithin(c: char)
    requires c in "\"[{"
    ensures Feed(Init(), c).Take? && Within(Feed(Init(), c).cfg)
  {
    hide Feed, CString;
    FreshStart(Init(), c);
    FeedTake(Init().Goto(Start), c);
  }

  lemma RestOfEscaped(s: string)
    requires SlashesEscaped(s) && s != "" && s[0] != '\\'
    ensures RestEscaped(s[1..], false)
  {
    var t := s[1..];
    forall j | 0 <= j < |t| && t[j] == '/'
      ensures j > 0 && t[j - 1] == '\\'
    {
      assert s[j + 1] == '/' && s[j] == '\\';
    }
  }

  /** Wherever a printed string, array or object is cut short, the tokener asks for more, and if there is a NUL
      instead, it reports the end of the text. */
  lemma CutShort(v: Json, k: nat)
    requires Bracketed(v) && Printable(v) && Levels(v) < MAX_DEPTH && k < |Print(v)|
    ensures Run(Init(), Print(v)[..k], 0).err == Continue
    ensures Parse(Print(v)[..k] + [NUL]) == Failed(EofError)
  {
    hide Feed, Step, Print, Within, RestEscaped, Completed, Parse;
    var s := Print(v);
    var h := EatsWhole(v);
    Brackets(v);
    var p := s[..k];
    if k == 0 {
      NothingRead();
      assert p == "" && p + [NUL] == [NUL];
    } else {
      FirstWithin(s[0]);
      var g := Feed(Init(), s[0]).cfg;
      PrintEscapes(v);
      RestOfEscaped(s);
      RestWeaker(s[1..], false, IsTextState(g.top.state));
      var m := PrefixWithin(g, s[1..], k - 1, h);
      assert p[0] == s[0] && p[1..] == s[1..][..k - 1];
      assert Eats(Init(), p, m);
      EatsNoNul(Init(), p, m);
      assert p[0..k] == p;
      RunAfterEating(Init(), p, 0, k, m);
      WithinGoesOn(m);
      UnfinishedIff(p);
    }
  }

  lemma NothingRead()
    ensures Run(Init(), "", 0).err == Continue && Parse([NUL]) == Failed(EofError)
  {
    hide Feed;
    FreshStart(Init(), NUL);
    FeedTake(Init().Goto(Start), NUL);
  }
}
