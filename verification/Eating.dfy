/** How the tokener reads the text of scalars: strings with their escapes, integers, literals. */
module Eating {
  import opened Common
  import opened Json
  import opened TokenerSpec

  // ----- Eating text that contains no NUL and stops no one

  function Eat(g: Config, s: string): (o: Option<Config>)
    requires Wf(g)
    ensures o.Some? ==> Wf(o.value)
    decreases |s|
  {
    if s == "" then Some(g)
    else if s[0] == NUL then None
    else
      match Feed(g, s[0])
      case Take(h) => Eat(h, s[1..])
      case _ => None
  }

  ghost predicate Eats(g: Config, s: string, h: Config) {
    Wf(g) && Eat(g, s) == Some(h)
  }

  lemma {:induction false} EatsThen(g: Config, a: string, m: Config, b: string, h: Config)
    requires Eats(g, a, m) && Eats(m, b, h)
    ensures Eats(g, a + b, h)
    decreases |a|
  {
    hide Feed;
    if a == "" {
      assert a + b == b;
    } else {
      assert (a + b)[1..] == a[1..] + b;
      EatsThen(Feed(g, a[0]).cfg, a[1..], m, b, h);
    }
  }

  lemma {:induction false} RunAfterEating(g: Config, s: string, i: nat, j: nat, h: Config)
    requires i <= j <= |s| && Eats(g, s[i..j], h)
    ensures Run(g, s, i) == Run(h, s, j)
    decreases j - i
  {
    hide Feed;
    if i < j {
      assert s[i..j][0] == s[i];
      assert s[i..j][1..] == s[i + 1..j];
      RunAfterEating(Feed(g, s[i]).cfg, s, i + 1, j, h);
    }
  }

  /** One character that its state takes at once. */
  lemma EatsOne(g: Config, c: char, h: Config)
    requires Wf(g) && c != NUL && Feed(g, c) == Take(h)
    ensures Eats(g, [c], h)
  {
    hide Feed;
    assert [c][1..] == "";
    assert Eat(h, "") == Some(h);
  }

  lemma FeedTake(g: Config, c: char)
    requires Wf(g) && !Step(g, c).Redo?
    ensures Feed(g, c) == Step(g, c)
  {
    hide Step;
  }

  lemma FeedRedo(g: Config, c: char)
    requires Wf(g) && Step(g, c).Redo?
    ensures Feed(g, c) == Feed(Step(g, c).cfg, c)
  {
    hide Step;
  }

  // ----- One step of a run

  lemma RunTake(h: Config, k: Config, s: string, i: nat)
    requires Wf(h) && i < |s| && Step(h, s[i]) == Take(k)
    ensures Wf(k)
    ensures Run(h, s, i) == if s[i] == NUL then Outcome(k, AtEof(k, Success), i + 1) else Run(k, s, i + 1)
  {
    hide Feed, Step;
    FeedTake(h, s[i]);
  }

  lemma RunRedo(h: Config, k: Config, s: string, i: nat)
    requires Wf(h) && i < |s| && Step(h, s[i]) == Redo(k)
    ensures Wf(k) && Run(h, s, i) == Run(k, s, i)
  {
    hide Feed, Step;
    FeedRedo(h, s[i]);
  }

  lemma RunHalt(h: Config, k: Config, e: Error, s: string, i: nat)
    requires Wf(h) && i < |s| && Step(h, s[i]) == Halt(k, e)
    ensures Wf(k) && Run(h, s, i) == Outcome(k, if s[i] == NUL then AtEof(k, e) else e, i)
  {
    hide Feed, Step;
    FeedTake(h, s[i]);
  }

  // ----- Strings

  ghost predicate InText(g: Config) {
    Wf(g) && (g.top.state.StringBody? || g.top.state.Field?) && g.quote == '"'
  }

  /** h is g after the text t, up to the scratch that escapes use. */
  ghost predicate AfterText(g: Config, t: string, h: Config) {
    && InText(h) && h.lower == g.lower && h.pb == g.pb + t
    && h.top == g.top.(saved := h.top.saved)
  }

  lemma EatPlain(g: Config, c: char) returns (h: Config)
    requires InText(g) && c != NUL && c != '"' && c != '\\'
    ensures Eats(g, [c], h) && AfterText(g, [c], h)
  {
    hide Feed, Eat;
    h := g.(pb := g.pb + [c]);
    FeedTake(g, c);
    EatsOne(g, c, h);
  }

  lemma EatBackslash(g: Config) returns (h: Config)
    requires InText(g)
    ensures Eats(g, "\\", h) && h == g.(top := g.top.(state := StringEscape, saved := g.top.state))
  {
    hide Feed, Eat;
    h := g.(top := g.top.(state := StringEscape, saved := g.top.state));
    FeedTake(g, '\\');
    EatsOne(g, '\\', h);
  }

  /** The two-character escapes. */
  lemma EatShortEscape(g: Config, e: char, c: char) returns (h: Config)
    requires InText(g)
    requires (e == c && c in "\"\\/") || (e == 'b' && c == '\U{0008}') || (e == 'n' && c == '\n')
          || (e == 'r' && c == '\r') || (e == 't' && c == '\t')
    ensures Eats(g, ['\\', e], h) && AfterText(g, [c], h)
  {
    hide Feed, Eat;
    var m := EatBackslash(g);
    h := m.Goto(g.top.state).(pb := g.pb + [c]);
    FeedTake(m, e);
    EatsOne(m, e, h);
    EatsThen(g, "\\", m, [e], h);
    assert "\\" + [e] == ['\\', e];
  }

  lemma HexDigitRead(d: nat)
    requires d < 16
    ensures InHexChars(HEX[d]) && HEX[d] != NUL && HexDigitValue(HEX[d]) == d
  {
    assert HEX[d] in HEX;
  }

  lemma SmallSum(ucs: nat, d: nat, c: char, stPos: nat)
    requires d < 16 && HexDigitValue(c) == d && ucs <= 0xffff
    ensures AddHexDigit(ucs, c, stPos) == ucs + d * DigitWeight(stPos)
  {
  }

  /** The digits of a unicode escape before the last. */
  lemma EatHexDigit(g: Config, d: nat) returns (h: Config)
    requires Wf(g) && g.top.state.EscapeUnicode? && g.stPos < 3 && d < 16 && g.ucs <= 0xffff
    ensures h == g.(ucs := g.ucs + d * DigitWeight(g.stPos), stPos := g.stPos + 1)
    ensures Wf(h) && Eats(g, [HEX[d]], h)
  {
    hide Feed, Eat, InHexChars, HexDigitValue, Utf8, DigitWeight,
      StepBlank, StepStart, StepFinish, StepNull, StepBoolean, StepNumber, StepText, StepEscape, StepArray, StepObject;
    HexDigitRead(d);
    SmallSum(g.ucs, d, HEX[d], g.stPos);
    h := g.(ucs := g.ucs + d * DigitWeight(g.stPos), stPos := g.stPos + 1);
    FeedTake(g, HEX[d]);
    EatsOne(g, HEX[d], h);
  }

  lemma EatTwoZeros(g: Config) returns (h: Config)
    requires Wf(g) && g.top.state.EscapeUnicode? && g.stPos == 0 && g.ucs == 0
    ensures h == g.(stPos := 2) && Wf(h) && Eats(g, "00", h)
  {
    hide Feed, Step, Eat;
    assert HEX[0] == '0';
    var m := EatHexDigit(g, 0);
    h := EatHexDigit(m, 0);
    EatsThen(g, "0", m, "0", h);
    assert "0" + "0" == "00";
  }

  lemma OneByte(u: nat)
    requires u < 0x80
    ensures Utf8(u) == [u as char] && DigitWeight(3) == 1
  {
  }

  lemma EatLastHexDigit(g: Config, d: nat) returns (h: Config)
    requires Wf(g) && g.top.state.EscapeUnicode? && g.stPos == 3 && d < 16
    requires g.ucs + d < 0x80
    ensures h == g.(top := g.top.(state := g.top.saved), ucs := g.ucs + d, stPos := 4,
                    pb := g.pb + [(g.ucs + d) as char])
    ensures Eats(g, [HEX[d]], h)
  {
    hide Feed, Eat, InHexChars, HexDigitValue, Utf8, DigitWeight, AddHexDigit,
      StepBlank, StepStart, StepFinish, StepNull, StepBoolean, StepNumber, StepText, StepEscape, StepArray, StepObject;
    HexDigitRead(d);
    OneByte(g.ucs + d);
    SmallSum(g.ucs, d, HEX[d], g.stPos);
    h := g.Goto(g.top.saved).(ucs := g.ucs + d, stPos := 4, pb := g.pb + [(g.ucs + d) as char]);
    FeedTake(g, HEX[d]);
    EatsOne(g, HEX[d], h);
  }

  /** The four digits the printer writes for a control character. */
  lemma EatFourDigits(u: Config, d1: nat, d0: nat) returns (h: Config)
    requires Wf(u) && u.top.state.EscapeUnicode? && u.stPos == 0 && u.ucs == 0
    requires d1 < 2 && d0 < 16
    ensures Eats(u, "00" + [HEX[d1], HEX[d0]], h)
    ensures h == u.(top := u.top.(state := u.top.saved), ucs := 16 * d1 + d0, stPos := 4,
                    pb := u.pb + [(16 * d1 + d0) as char])
  {
    var x1, x0 := HEX[d1], HEX[d0];
    hide Feed, Step, Eat, HEX;
    var m := EatTwoZeros(u);
    var k := EatHexDigit(m, d1);
    h := EatLastHexDigit(k, d0);
    EatsThen(m, [x1], k, [x0], h);
    EatsThen(u, "00", m, [x1] + [x0], h);
    assert "00" + ([x1] + [x0]) == "00" + [x1, x0];
  }

  /** The escape the printer uses for the other control characters. */
  lemma EatUnicodeEscape(g: Config, c: char) returns (h: Config)
    requires InText(g) && NUL < c < ' '
    ensures Eats(g, "\\u00" + [HEX[c as int / 16], HEX[c as int % 16]], h) && AfterText(g, [c], h)
  {
    var d1, d0 := c as int / 16, c as int % 16;
    var x1, x0 := HEX[d1], HEX[d0];
    hide Feed, Step, HEX, Eat;
    var m := EatBackslash(g);
    var u := EatU(m);
    h := EatFourDigits(u, d1, d0);
    EatsThen(g, "\\", m, "u", u);
    EatsThen(g, "\\" + "u", u, "00" + [x1, x0], h);
    assert "\\" + "u" + ("00" + [x1, x0]) == "\\u00" + [x1, x0];
  }

  lemma EatU(m: Config) returns (u: Config)
    requires Wf(m) && m.top.state.StringEscape?
    ensures u == m.Goto(EscapeUnicode).(ucs := 0, stPos := 0) && Eats(m, "u", u)
  {
    hide Feed, Eat;
    u := m.Goto(EscapeUnicode).(ucs := 0, stPos := 0);
    FeedTake(m, 'u');
    EatsOne(m, 'u', u);
  }

  lemma EatEscapeChar(g: Config, c: char) returns (h: Config)
    requires InText(g) && c != NUL
    ensures Eats(g, EscapeChar(c), h) && AfterText(g, [c], h)
  {
    hide Feed, Step, Eats;
    if c == '\U{0008}' { h := EatShortEscape(g, 'b', c); }
    else if c == '\n' { h := EatShortEscape(g, 'n', c); }
    else if c == '\r' { h := EatShortEscape(g, 'r', c); }
    else if c == '\t' { h := EatShortEscape(g, 't', c); }
    else if c in "\"\\/" { h := EatShortEscape(g, c, c); }
    else if c < ' ' { h := EatUnicodeEscape(g, c); }
    else { h := EatPlain(g, c); }
  }

  /** Reading escaped text appends exactly the text. */
  lemma {:induction false} EatEscape(g: Config, s: string) returns (h: Config)
    requires InText(g) && NUL !in s
    ensures Eats(g, Escape(s), h) && AfterText(g, s, h)
    decreases |s|
  {
    hide Feed, Step, EscapeChar;
    if s == "" {
      h := g;
      assert g.pb + "" == g.pb;
    } else {
      var m := EatEscapeChar(g, s[0]);
      h := EatEscape(m, s[1..]);
      EatsThen(g, EscapeChar(s[0]), m, Escape(s[1..]), h);
      assert g.pb + s == g.pb + [s[0]] + s[1..];
    }
  }

  // ----- Integers

  lemma {:induction false} AllDigits(s: string)
    requires forall i :: 0 <= i < |s| ==> IsDigit(s[i])
    ensures DigitCount(s) == |s|
    decreases |s|
  {
    if s != "" {
      assert IsDigit(s[0]);
      AllDigits(s[1..]);
    }
  }

  lemma {:induction false} DecimalRead(n: nat)
    ensures forall i :: 0 <= i < |Decimal(n)| ==> IsDigit(Decimal(n)[i])
    ensures NatOf(Decimal(n)) == n
  {
    if n < 10 {
      DigitRead(n);
      assert NatOf([Digit(n)][..0]) == 0;
    } else {
      DecimalRead(n / 10);
      DigitRead(n % 10);
      assert Decimal(n)[..|Decimal(n)| - 1] == Decimal(n / 10);
    }
  }

  lemma DigitRead(d: nat)
    requires d < 10
    ensures IsDigit(Digit(d)) && Digit(d) as int - '0' as int == d
  {
  }

  /** `%d` reads back what `%d` wrote. */
  lemma ScanPrinted(n: int32)
    ensures ScanInt(PrintInt(n)) == Some(n)
    ensures PrintInt(n)[0] == '-' || IsDigit(PrintInt(n)[0])
    ensures forall i :: 1 <= i < |PrintInt(n)| ==> IsDigit(PrintInt(n)[i])
  {
    var m: nat := if n < 0 then -(n as int) else n;
    DecimalRead(m);
    AllDigits(Decimal(m));
    assert Unsigned(PrintInt(n)) == Decimal(m);
    assert Decimal(m)[..|Decimal(m)|] == Decimal(m);
    StoreExact(n);
  }

  lemma StoreExact(n: int32)
    ensures StoreInt(n) == n
  {
  }

  lemma EatNothing(g: Config)
    requires Wf(g)
    ensures Eats(g, "", g) && g.pb + "" == g.pb
  {
  }

  lemma {:induction false} EatDigits(g: Config, s: string) returns (h: Config)
    requires Wf(g) && g.top.state.Number?
    requires forall i :: 0 <= i < |s| ==> IsDigit(s[i])
    ensures h == g.(pb := g.pb + s) && Wf(h) && Eats(g, s, h)
    decreases |s|
  {
    hide *;
    if s == "" {
      h := g;
      EatNothing(g);
    } else {
      var c, t := s[0], s[1..];
      assert s == [c] + t;
      var m := EatDigit(g, c);
      h := EatDigits(m, t);
      EatsThen(g, [c], m, t, h);
      assert g.pb + [c] + t == g.pb + s;
    }
  }

  lemma EatDigit(g: Config, c: char) returns (h: Config)
    requires Wf(g) && g.top.state.Number? && IsDigit(c)
    ensures h == g.(pb := g.pb + [c]) && Wf(h) && Eats(g, [c], h)
  {
    hide Feed, Eat;
    DigitIsNumberChar(c);
    h := g.(pb := g.pb + [c]);
    FeedTake(g, c);
    EatsOne(g, c, h);
  }

  lemma DigitIsNumberChar(c: char)
    requires IsDigit(c) || c == '-'
    ensures IsNumberChar(c)
  {
    var k := if c == '-' then 12 else c as int - '0' as int;
    assert NUMBER_CHARS[k] == c;
  }

  // ----- Values

  /** The value v is complete at the level on top, as seen by the next character c. */
  ghost predicate Done(g: Config, c: char, lower: seq<Frame>, v: Json, h: Config) {
    && Wf(g) && Wf(h) && Feed(g, c) == Feed(h, c)
    && h.lower == lower && h.top == Frame(Eatws, Finish, v, None)
  }

  ghost predicate AtValue(g: Config) {
    Wf(g) && g.top == FRESH
  }

  /** A fresh level comes to its start state at the first character of a value. */
  lemma FreshStart(g: Config, c: char)
    requires AtValue(g) && !IsSpace(c) && c != '/'
    ensures Wf(g.Goto(Start)) && Feed(g, c) == Feed(g.Goto(Start), c)
  {
    hide Feed;
    FeedRedo(g, c);
  }

  lemma EatInt(g: Config, n: int32, c: char) returns (m: Config, h: Config)
    requires AtValue(g) && !IsNumberChar(c)
    ensures Eats(g, PrintInt(n), m) && Done(m, c, g.lower, Int(n), h)
  {
    hide Feed, Eat, Step, ScanInt, PrintInt, IsNumberChar, IsDigit, CString;
    ScanPrinted(n);
    PrintedDigits(n);
    var s := PrintInt(n);
    var k := g.Goto(Number).(pb := [s[0]], isDouble := false);
    EatFirstOfNumber(g, s[0], k);
    m := EatDigits(k, s[1..]);
    assert [s[0]] + s[1..] == s;
    EatsThen(g, [s[0]], k, s[1..], m);
    NoNul(s);
    h := m.Deliver(Int(n));
    NumberDone(m, n, c);
  }

  lemma PrintedDigits(n: int32)
    ensures PrintInt(n) != ""
  {
  }

  lemma NumberDone(m: Config, n: int32, c: char)
    requires Wf(m) && m.top.state.Number? && !m.isDouble && ScanInt(CString(m.pb)) == Some(n) && !IsNumberChar(c)
    ensures Wf(m.Deliver(Int(n))) && Feed(m, c) == Feed(m.Deliver(Int(n)), c)
  {
    hide Feed, ScanInt, IsNumberChar, CString,
      StepBlank, StepStart, StepFinish, StepNull, StepBoolean, StepText, StepEscape, StepUnicode, StepArray, StepObject;
    FeedRedo(m, c);
  }

  lemma NoNul(s: string)
    requires s != "" && (s[0] == '-' || IsDigit(s[0]))
    requires forall i :: 1 <= i < |s| ==> IsDigit(s[i])
    ensures CString(s) == s
  {
    assert NUL !in s;
  }

  lemma EatFirstOfNumber(g: Config, c: char, k: Config)
    requires AtValue(g) && (IsDigit(c) || c == '-')
    requires k == g.Goto(Number).(pb := [c], isDouble := false)
    ensures Eats(g, [c], k)
  {
    hide Feed, Eat;
    DigitIsNumberChar(c);
    FreshStart(g, c);
    var s := g.Goto(Start);
    FeedRedo(s, c);
    var t := g.Goto(Number).(pb := "", isDouble := false);
    FeedTake(t, c);
    assert "" + [c] == [c];
    EatsOne(g, c, k);
  }

  lemma EatSameFirst(g: Config, k: Config, s: string)
    requires Wf(g) && Wf(k) && s != "" && Feed(g, s[0]) == Feed(k, s[0])
    ensures Eat(g, s) == Eat(k, s)
  {
    hide Feed;
  }

  // ----- Literals

  lemma {:induction false} SamePrefix(a: string, b: string, n: nat)
    requires n <= |a| && n <= |b| && a[..n] == b[..n]
    ensures SameNoCase(a, b, n)
    decreases n
  {
    if n > 0 {
      assert a[0] == a[..n][0] == b[..n][0] == b[0];
      assert a[1..][..n - 1] == a[..n][1..] == b[..n][1..] == b[1..][..n - 1];
      SamePrefix(a[1..], b[1..], n - 1);
    }
  }

  predicate IsLiteral(lit: string, s: State, v: Json) {
    || (lit == "null" && s == NullLiteral && v == Null)
    || (lit == "true" && s == Boolean && v == Bool(true))
    || (lit == "false" && s == Boolean && v == Bool(false))
  }

  /** k characters of the literal have been read. */
  ghost predicate InLiteral(g: Config, lit: string, s: State, k: nat) {
    Wf(g) && g.top.state == s && k <= |lit| && g.stPos == k && g.pb == lit[..k]
  }

  /** What has been read of a literal agrees with it, and false does not agree with true. */
  lemma SameSoFar(lit: string, s: State, v: Json, k: nat)
    requires IsLiteral(lit, s, v) && k < |lit|
    ensures SameNoCase(lit, lit[..k + 1], k + 1) && |lit| == (if lit == "false" then 5 else 4)
    ensures lit == "false" ==> !SameNoCase("true", lit[..k + 1], Min(k + 1, 4))
  {
    hide SameNoCase;
    SamePrefix(lit, lit[..k + 1], k + 1);
    if lit == "false" { NotTrue(lit[..k + 1], k); }
  }

  lemma LiteralStep(g: Config, lit: string, s: State, v: Json, k: nat) returns (h: Config)
    requires IsLiteral(lit, s, v) && InLiteral(g, lit, s, k) && k < |lit|
    ensures h == g.(pb := lit[..k + 1], stPos := k + 1) && Wf(h) && Eats(g, [lit[k]], h)
  {
    hide Feed, Eat, SameNoCase, StepBlank, StepStart, StepFinish, StepNumber, StepText, StepEscape, StepUnicode,
      StepArray, StepObject;
    h := g.(pb := lit[..k + 1], stPos := k + 1);
    assert g.pb + [lit[k]] == lit[..k + 1];
    SameSoFar(lit, s, v, k);
    FeedTake(g, lit[k]);
    EatsOne(g, lit[k], h);
  }

  lemma NotTrue(s: string, k: nat)
    requires s != "" && s[0] == 'f'
    ensures !SameNoCase("true", s, Min(k + 1, 4))
  {
  }

  lemma {:induction false} EatRestOfLiteral(g: Config, lit: string, s: State, v: Json, k: nat) returns (h: Config)
    requires IsLiteral(lit, s, v) && InLiteral(g, lit, s, k)
    ensures h == g.(pb := lit, stPos := |lit|) && Wf(h) && Eats(g, lit[k..], h)
    decreases |lit| - k
  {
    hide Feed, Step, Eat, Eats, SameNoCase, Wf, IsLiteral;
    if k == |lit| {
      h := g;
      EatNothing(g);
      assert lit[k..] == "" && lit[..k] == lit;
    } else {
      var m := LiteralStep(g, lit, s, v, k);
      h := EatRestOfLiteral(m, lit, s, v, k + 1);
      EatsThen(g, [lit[k]], m, lit[k + 1..], h);
      assert [lit[k]] + lit[k + 1..] == lit[k..];
    }
  }

  /** The character after a literal completes it. */
  lemma CompleteLiteral(g: Config, lit: string, s: State, v: Json, c: char) returns (h: Config)
    requires IsLiteral(lit, s, v) && InLiteral(g, lit, s, |lit|)
    ensures h == g.(pb := lit + [c]).Deliver(v) && Wf(h) && Feed(g, c) == Feed(h, c)
  {
    hide Feed;
    h := g.(pb := lit + [c]).Deliver(v);
    assert lit[..|lit|] == lit;
    assert (lit + [c])[..|lit|] == lit;
    SamePrefix(lit, lit + [c], |lit|);
    FeedRedo(g, c);
  }

  lemma LiteralFirst(lit: string, s: State, v: Json)
    requires IsLiteral(lit, s, v)
    ensures lit != "" && lit[0..] == lit && !IsSpace(lit[0]) && lit[0] != '/'
  {
  }

  /** The first character of a literal selects its state and is looked at again there. */
  lemma StartLiteral(g: Config, lit: string, s: State, v: Json) returns (k: Config)
    requires AtValue(g) && IsLiteral(lit, s, v)
    ensures lit != "" && k == g.Goto(s).(pb := "", stPos := 0) && Wf(k) && Feed(g, lit[0]) == Feed(k, lit[0])
  {
    hide Feed;
    LiteralFirst(lit, s, v);
    FreshStart(g, lit[0]);
    FeedRedo(g.Goto(Start), lit[0]);
    k := g.Goto(s).(pb := "", stPos := 0);
  }

  lemma EatLiteral(g: Config, lit: string, s: State, v: Json, c: char) returns (m: Config, h: Config)
    requires AtValue(g) && IsLiteral(lit, s, v)
    ensures Eats(g, lit, m) && Done(m, c, g.lower, v, h)
  {
    hide Feed, Step, Eat, IsLiteral, Wf;
    LiteralFirst(lit, s, v);
    var k := StartLiteral(g, lit, s, v);
    EatSameFirst(g, k, lit);
    m := EatRestOfLiteral(k, lit, s, v, 0);
    assert lit[..|lit|] == lit;
    h := CompleteLiteral(m, lit, s, v, c);
  }

  // ----- Strings as values

  lemma EatString(g: Config, s: string, c: char) returns (m: Config)
    requires AtValue(g) && NUL !in s
    ensures Eats(g, "\"" + Escape(s) + "\"", m) && Done(m, c, g.lower, Str(s), m)
  {
    var k := g.Goto(StringBody).(pb := "", quote := '"');
    EatOpenQuote(g, k);
    hide Feed, Step, Eat;
    var t := EatEscape(k, s);
    assert "" + s == s;
    m := t.Deliver(Str(s));
    EatCloseQuote(t, s, m);
    EatsThen(g, "\"", k, Escape(s), t);
    EatsThen(g, "\"" + Escape(s), t, "\"", m);
  }

  lemma EatOpenQuote(g: Config, k: Config)
    requires AtValue(g) && k == g.Goto(StringBody).(pb := "", quote := '"')
    ensures Eats(g, "\"", k) && Wf(k)
  {
    hide Feed, Eat;
    FreshStart(g, '"');
    FeedTake(g.Goto(Start), '"');
    EatsOne(g, '"', k);
  }

  lemma EatCloseQuote(t: Config, s: string, m: Config)
    requires InText(t) && t.top.state.StringBody? && t.pb == s && NUL !in s && m == t.Deliver(Str(s))
    ensures Eats(t, "\"", m) && Wf(m)
  {
    hide Feed, Eat;
    FeedTake(t, '"');
    EatsOne(t, '"', m);
  }
}
