/** Strings, names, literals and numbers as the machine reads them. */
module GrammarTokens {
  import opened Common
  import opened Json
  import opened TokenerSpec
  import opened Eating
  import opened Grammar
  import opened GrammarRuns

  // ----- Strings and names

  /** Inside the text of a string or of a name. */
  ghost predicate Reading(g: Config) {
    && Wf(g) && (g.top.state.StringBody? || g.top.state.Field?) && !g.top.saved.Finish?
    && (g.quote == '"' || g.quote == '\'')
  }

  /** The same place with other text and scratch. */
  ghost predicate SamePlace(g: Config, h: Config, s: string) {
    && Reading(h) && h.lower == g.lower && h.quote == g.quote && h.pb == s
    && h.top == g.top.(saved := h.top.saved)
  }

  /** How a level goes on when its text is complete. */
  function Closed(f: Frame, s: string): Frame {
    if f.state.Field? then f.(state := Eatws, saved := FieldEnd, field := Some(CString(s)))
    else f.(state := Eatws, saved := Finish, current := Str(CString(s)))
  }

  ghost predicate ReadsText(g: Config, p: Stop, r: Text, h: Config) {
    match r
    case Said(s, rest) => Wf(h) && h.lower == g.lower && h.top == Closed(g.top, s) && p == RunOn(h, rest)
    case Broken(end) => Gives(p, end)
  }

  lemma {:induction false} RunText(g: Config, t: string) returns (h: Config)
    requires Reading(g)
    ensures ReadsText(g, RunOn(g, t), ReadText(t, g.quote, g.pb), h)
    decreases |t|
  {
    hide Feed, RunOn, Step, CString, ReadCode, Escaped, Utf8;
    h := g;
    if t == "" {
      OnEnd(g);
    } else if t[0] == g.quote {
      h := CloseText(g, t);
    } else if t[0] != '\\' {
      var k := PlainText(g, t);
      if t[0] != NUL {
        h := RunText(k, t[1..]);
      }
    } else {
      var e := Backslash(g, t);
      if |t| == 1 {
        OnEnd(e);
      } else if t[1] == 'u' {
        var r := ReadCode(t[2..], 0, 0);
        var k := UnicodeEscape(g, e, t);
        if r.Code? {
          h := RunText(k, r.rest);
        }
      } else {
        var k := ShortEscape(g, e, t);
        if Escaped(t[1]).Some? {
          h := RunText(k, t[2..]);
        }
      }
    }
  }

  lemma CloseText(g: Config, t: string) returns (h: Config)
    requires Reading(g) && t != "" && t[0] == g.quote
    ensures Wf(h) && h.lower == g.lower && h.top == Closed(g.top, g.pb) && RunOn(g, t) == RunOn(h, t[1..])
  {
    hide Feed, RunOn, CString;
    h := g.(top := Closed(g.top, g.pb));
    OnTake(g, h, t);
  }

  lemma PlainText(g: Config, t: string) returns (k: Config)
    requires Reading(g) && t != "" && t[0] != g.quote && t[0] != '\\'
    ensures SamePlace(g, k, g.pb + [t[0]])
    ensures t[0] != NUL ==> RunOn(g, t) == RunOn(k, t[1..])
    ensures t[0] == NUL ==> Gives(RunOn(g, t), Fails(EofError, t[1..]))
  {
    hide Feed, RunOn, CString;
    k := g.(pb := g.pb + [t[0]]);
    OnTake(g, k, t);
  }

  /** Behind a backslash. */
  ghost predicate InEscape(g: Config, e: Config) {
    && Reading(g) && Wf(e)
    && e == g.(top := g.top.(state := StringEscape, saved := g.top.state))
  }

  lemma Backslash(g: Config, t: string) returns (e: Config)
    requires Reading(g) && t != "" && t[0] == '\\'
    ensures InEscape(g, e) && RunOn(g, t) == RunOn(e, t[1..])
  {
    hide Feed, RunOn, CString;
    e := g.(top := g.top.(state := StringEscape, saved := g.top.state));
    OnTake(g, e, t);
  }

  lemma ShortEscape(g: Config, e: Config, t: string) returns (k: Config)
    requires InEscape(g, e) && |t| > 1 && t[1] != 'u'
    ensures match Escaped(t[1])
            case Some(c) => SamePlace(g, k, g.pb + [c]) && RunOn(e, t[1..]) == RunOn(k, t[2..])
            case None => Gives(RunOn(e, t[1..]), Wrong(StringError, t[1..]))
  {
    hide Feed, RunOn;
    k := e;
    match Escaped(t[1])
    case Some(c) =>
      k := e.Goto(g.top.state).(pb := e.pb + [c]);
      OnTake(e, k, t[1..]);
      assert t[1..][1..] == t[2..];
    case None =>
      OnWrong(e, e, StringError, t[1..]);
  }

  // ----- Unicode escapes

  /** 16 to the n. */
  function Sixteens(n: nat): nat {
    if n == 0 then 1 else 16 * Sixteens(n - 1)
  }

  lemma Powers()
    ensures Sixteens(0) == 1 && Sixteens(1) == 16 && Sixteens(2) == 256 && Sixteens(3) == 4096 && Sixteens(4) == 65536
  {
  }

  lemma HexRead(c: char, k: nat, n: nat)
    requires c in HEX && k < 4 && n < Sixteens(k)
    ensures HexIndex(c) < 16 && 16 * n + HexIndex(c) < Sixteens(k + 1) && InHexChars(c)
    ensures AddHexDigit(n * Sixteens(4 - k), c, k) == (16 * n + HexIndex(c)) * Sixteens(3 - k)
  {
    hide HexIndex, HexDigitValue, Sixteens, AddHexDigit;
    HexValueIs(c);
    Powers();
    Weighed(n, HexIndex(c), k, Sixteens(4 - k), Sixteens(3 - k));
    SmallSum(n * Sixteens(4 - k), HexIndex(c), c, k);
  }

  /** Shifting what has been read and adding a digit, or adding the digit at its place: the same number. */
  lemma Weighed(n: nat, d: nat, k: nat, w: nat, v: nat)
    requires k < 4 && d < 16
    requires k == 0 ==> n == 0 && v == 4096
    requires k == 1 ==> n < 16 && w == 4096 && v == 256
    requires k == 2 ==> n < 256 && w == 256 && v == 16
    requires k == 3 ==> n < 4096 && w == 16 && v == 1
    ensures n * w <= 0xffff && n * w + d * DigitWeight(k) == (16 * n + d) * v
  {
  }

  lemma HexValueIs(c: char)
    requires c in HEX
    ensures HexIndex(c) == HexDigitValue(c) < 16
  {
    var i :| 0 <= i < |HEX| && HEX[i] == c;
  }

  /** k digits of an escape have been read, and their number is n. */
  ghost predicate InCode(g: Config, u: Config, k: nat, n: nat) {
    && Reading(g) && Wf(u) && k < 4 && n < Sixteens(k)
    && u == g.(top := g.top.(state := EscapeUnicode, saved := g.top.state), ucs := n * Sixteens(4 - k), stPos := k)
  }

  ghost predicate ReadsCode(g: Config, p: Stop, r: Code, k: Config) {
    match r
    case Code(n, rest) => SamePlace(g, k, g.pb + Utf8(n)) && p == RunOn(k, rest)
    case NoCode(end) => Gives(p, end)
  }

  lemma {:induction false} RunCode(g: Config, u: Config, t: string, k: nat, n: nat) returns (h: Config)
    requires InCode(g, u, k, n)
    ensures ReadsCode(g, RunOn(u, t), ReadCode(t, k, n), h)
    decreases |t|
  {
    hide Feed, RunOn, Step, Utf8, Sixteens, InHexChars, AddHexDigit;
    h := g;
    if t == "" {
      OnEnd(u);
    } else if t[0] == NUL {
      NulDigit(u, t);
    } else if t[0] in HEX {
      HexRead(t[0], k, n);
      var m := 16 * n + HexIndex(t[0]);
      if k < 3 {
        var v := OneDigit(g, u, t, k, n);
        h := RunCode(g, v, t[1..], k + 1, m);
      } else {
        h := LastDigit(g, u, t, n);
        OneCode(t, m);
      }
    } else {
      NoDigit(u, t);
    }
  }

  lemma OneCode(t: string, m: nat)
    requires t != ""
    ensures ReadCode(t[1..], 4, m) == Code(m, t[1..])
  {
  }

  lemma NulDigit(u: Config, t: string)
    requires Wf(u) && u.top.state.EscapeUnicode? && t != "" && t[0] == NUL
    ensures Gives(RunOn(u, t), Fails(EofError, t[1..]))
  {
    hide Feed, RunOn, Utf8, AddHexDigit;
    assert InHexChars(NUL);
    var h := u.(ucs := AddHexDigit(u.ucs, NUL, u.stPos), stPos := u.stPos + 1);
    OnTake(u, if h.stPos == 4 then h.Goto(u.top.saved).(pb := u.pb + Utf8(h.ucs)) else h, t);
  }

  lemma NoDigit(u: Config, t: string)
    requires Wf(u) && u.top.state.EscapeUnicode? && t != "" && t[0] != NUL && t[0] !in HEX
    ensures Gives(RunOn(u, t), Wrong(StringError, t))
  {
    hide Feed, RunOn, Utf8, AddHexDigit;
    OnWrong(u, u, StringError, t);
  }

  lemma OneDigit(g: Config, u: Config, t: string, k: nat, n: nat) returns (v: Config)
    requires InCode(g, u, k, n) && k < 3 && t != "" && t[0] != NUL && t[0] in HEX
    ensures InCode(g, v, k + 1, 16 * n + HexIndex(t[0])) && RunOn(u, t) == RunOn(v, t[1..])
  {
    hide Feed, RunOn, Utf8, AddHexDigit, Sixteens, HexIndex, InHexChars;
    HexRead(t[0], k, n);
    v := u.(ucs := AddHexDigit(u.ucs, t[0], k), stPos := k + 1);
    OnTake(u, v, t);
  }

  lemma LastDigit(g: Config, u: Config, t: string, n: nat) returns (h: Config)
    requires InCode(g, u, 3, n) && t != "" && t[0] != NUL && t[0] in HEX
    ensures SamePlace(g, h, g.pb + Utf8(16 * n + HexIndex(t[0]))) && RunOn(u, t) == RunOn(h, t[1..])
  {
    hide Feed, RunOn, Utf8, AddHexDigit, HexIndex, InHexChars;
    HexRead(t[0], 3, n);
    var m := AddHexDigit(u.ucs, t[0], 3);
    h := u.Goto(u.top.saved).(ucs := m, stPos := 4, pb := u.pb + Utf8(m));
    OnTake(u, h, t);
    assert Sixteens(0) == 1;
  }

  lemma UnicodeEscape(g: Config, e: Config, t: string) returns (k: Config)
    requires InEscape(g, e) && |t| > 1 && t[1] == 'u'
    ensures ReadsCode(g, RunOn(e, t[1..]), ReadCode(t[2..], 0, 0), k)
  {
    hide Feed, RunOn, Utf8, ReadCode;
    var u := e.Goto(EscapeUnicode).(ucs := 0, stPos := 0);
    OnTake(e, u, t[1..]);
    assert t[1..][1..] == t[2..];
    assert Sixteens(0) == 1;
    k := RunCode(g, u, t[2..], 0, 0);
  }

  // ----- Literals

  /** The level is complete with the value v. */
  ghost predicate Complete(h: Config, lower: seq<Frame>, v: Json) {
    Wf(h) && h.lower == lower && h.top == Frame(Eatws, Finish, v, None)
  }

  ghost predicate Reads(p: Stop, r: Read, lower: seq<Frame>, h: Config) {
    match r
    case Got(v, rest) => Complete(h, lower, v) && p == RunOn(h, rest)
    case Over(end) => Gives(p, end)
  }

  function LiteralError(s: State): Error {
    if s == NullLiteral then NullError else BooleanError
  }

  /** What has been read agrees with the literal up to the case of letters. */
  ghost predicate Spelled(pb: string, lit: string, k: nat) {
    |pb| == k <= |lit| && forall i :: 0 <= i < k ==> Lower(pb[i]) == lit[i]
  }

  lemma {:induction false} SameLetters(a: string, b: string, n: nat)
    requires n <= |a| && n <= |b| && (forall i :: 0 <= i < |a| ==> Lower(a[i]) == a[i] && a[i] != NUL)
    ensures SameNoCase(a, b, n) <==> forall i :: 0 <= i < n ==> Lower(b[i]) == a[i]
    decreases n
  {
    if n > 0 {
      SameLetters(a[1..], b[1..], n - 1);
      if forall i :: 0 <= i < n - 1 ==> Lower(b[1..][i]) == a[1..][i] {
        forall i | 0 < i < n
          ensures Lower(b[i]) == a[i]
        {
          assert Lower(b[1..][i - 1]) == a[1..][i - 1];
        }
      }
      if forall i :: 0 <= i < n ==> Lower(b[i]) == a[i] {
        forall i | 0 <= i < n - 1
          ensures Lower(b[1..][i]) == a[1..][i]
        {
          assert Lower(b[i + 1]) == a[i + 1];
        }
      }
    }
  }

  /** Whether the next letter still agrees. */
  lemma Agrees(lit: string, pb: string, c: char, k: nat)
    requires Spelled(pb, lit, k) && lit in {"null", "true", "false"}
    ensures SameNoCase(lit, pb + [c], Min(k + 1, |lit|)) <==> k == |lit| || Lower(c) == lit[k]
    ensures k < |lit| && Lower(c) == lit[k] ==> Spelled(pb + [c], lit, k + 1)
  {
    hide SameNoCase;
    var n := Min(k + 1, |lit|);
    assert forall i :: 0 <= i < k ==> (pb + [c])[i] == pb[i];
    assert (pb + [c])[k] == c;
    SameLetters(lit, pb + [c], n);
  }

  /** The first letter tells the two words apart. */
  lemma OtherWord(pb: string, k: nat)
    requires pb != ""
    ensures Lower(pb[0]) == 'f' ==> !SameNoCase("true", pb, Min(k + 1, 4))
    ensures Lower(pb[0]) == 't' ==> !SameNoCase("false", pb, Min(k + 1, 5))
  {
  }

  /** k letters of the literal have been read. */
  ghost predicate InWord(g: Config, lit: string, s: State, v: Json, k: nat) {
    && IsLiteral(lit, s, v) && Wf(g) && g.top == FRESH.(state := s) && g.stPos == k && Spelled(g.pb, lit, k)
  }

  lemma {:induction false} RunLiteral(g: Config, t: string, lit: string, s: State, v: Json, k: nat) returns (h: Config)
    requires InWord(g, lit, s, v, k)
    requires k == 0 && t != "" ==> Lower(t[0]) == lit[0]
    ensures Reads(RunOn(g, t), ReadLiteral(t, lit[k..], v, LiteralError(s)), g.lower, h)
    decreases |t|
  {
    hide Feed, RunOn, Step, SameNoCase;
    h := g;
    if t == "" {
      OnEnd(g);
    } else if k == |lit| {
      h := WordEnds(g, t, lit, s, v);
    } else if Lower(t[0]) == lit[k] {
      var m := NextLetter(g, t, lit, s, v, k);
      h := RunLiteral(m, t[1..], lit, s, v, k + 1);
      assert lit[k..][0] == lit[k] && lit[k..][1..] == lit[k + 1..];
    } else {
      WrongLetter(g, t, lit, s, v, k);
      assert lit[k..][0] == lit[k];
    }
  }

  lemma NextLetter(g: Config, t: string, lit: string, s: State, v: Json, k: nat) returns (m: Config)
    requires InWord(g, lit, s, v, k) && k < |lit| && t != "" && Lower(t[0]) == lit[k]
    ensures InWord(m, lit, s, v, k + 1) && m.lower == g.lower && t[0] != NUL && RunOn(g, t) == RunOn(m, t[1..])
  {
    hide Feed, RunOn, SameNoCase;
    m := g.(pb := g.pb + [t[0]], stPos := k + 1);
    Agrees(lit, g.pb, t[0], k);
    OtherWord(m.pb, k);
    assert m.pb[0] == if k == 0 then t[0] else g.pb[0];
    OnTake(g, m, t);
  }

  lemma WordEnds(g: Config, t: string, lit: string, s: State, v: Json) returns (h: Config)
    requires InWord(g, lit, s, v, |lit|) && t != ""
    ensures Complete(h, g.lower, v) && RunOn(g, t) == RunOn(h, t)
  {
    hide Feed, RunOn, SameNoCase;
    h := g.(pb := g.pb + [t[0]]).Deliver(v);
    Agrees(lit, g.pb, t[0], |lit|);
    OtherWord(h.pb, |lit|);
    assert h.pb[0] == g.pb[0];
    OnRedo(g, h, t);
  }

  lemma WrongLetter(g: Config, t: string, lit: string, s: State, v: Json, k: nat)
    requires InWord(g, lit, s, v, k) && 0 < k < |lit| && t != "" && Lower(t[0]) != lit[k]
    ensures Gives(RunOn(g, t), Wrong(LiteralError(s), t))
  {
    hide Feed, RunOn, SameNoCase;
    var m := g.(pb := g.pb + [t[0]]);
    Agrees(lit, g.pb, t[0], k);
    OtherWord(m.pb, k);
    assert m.pb[0] == g.pb[0];
    OnWrong(g, m, LiteralError(s), t);
  }

  // ----- Numbers

  /** Whether the token so far is to be a double. */
  ghost predicate InNumber(g: Config, token: string) {
    && Wf(g) && g.top == FRESH.(state := Number) && g.pb == token && NUL !in token
    && (g.isDouble <==> '.' in token || 'e' in token)
  }

  lemma {:induction false} RunDigits(g: Config, t: string, token: string) returns (h: Config)
    requires InNumber(g, token)
    ensures var n := NumberLength(t);
            if n == |t| then Gives(RunOn(g, t), Short())
            else match NumberOf(token + t[..n])
                 case Some(v) => Complete(h, g.lower, v) && RunOn(g, t) == RunOn(h, t[n..])
                 case None => Gives(RunOn(g, t), Wrong(NumberError, t[n..]))
    decreases |t|
  {
    hide Feed, RunOn, Step, NumberOf, IsNumberChar;
    h := g;
    if t == "" {
      OnEnd(g);
    } else if IsNumberChar(t[0]) {
      var k := OneMoreDigit(g, t, token);
      h := RunDigits(k, t[1..], token + [t[0]]);
      var n := NumberLength(t[1..]);
      assert t[1..][..n] == t[1..n + 1] && t[1..][n..] == t[n + 1..];
      assert token + [t[0]] + t[1..n + 1] == token + t[..n + 1];
    } else {
      h := NumberEnds(g, t, token);
      assert token + t[..0] == token && t[0..] == t;
    }
  }

  lemma OneMoreDigit(g: Config, t: string, token: string) returns (k: Config)
    requires InNumber(g, token) && t != "" && IsNumberChar(t[0])
    ensures InNumber(k, token + [t[0]]) && k.lower == g.lower && RunOn(g, t) == RunOn(k, t[1..])
  {
    hide Feed, RunOn;
    k := g.(pb := g.pb + [t[0]], isDouble := g.isDouble || t[0] == '.' || t[0] == 'e');
    OnTake(g, k, t);
  }

  lemma NumberEnds(g: Config, t: string, token: string) returns (h: Config)
    requires InNumber(g, token) && t != "" && !IsNumberChar(t[0])
    ensures match NumberOf(token)
            case Some(v) => Complete(h, g.lower, v) && RunOn(g, t) == RunOn(h, t)
            case None => Gives(RunOn(g, t), Wrong(NumberError, t))
  {
    hide Feed, RunOn, ScanInt, ScansDouble, IsNumberChar;
    h := g;
    match NumberOf(token)
    case Some(v) =>
      h := g.Deliver(v);
      OnRedo(g, h, t);
    case None =>
      OnWrong(g, g, NumberError, t);
  }
}
