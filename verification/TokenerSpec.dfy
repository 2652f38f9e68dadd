/** The tokener as a machine that takes one character at a time: the meaning
    that the hand-tightened loops of `json_tokener_parse_ex` must keep. */
module TokenerSpec {
  import opened Common
  import opened Json

  const MAX_DEPTH := 32
  const NUMBER_CHARS: string := "0123456789.+-eE"

  datatype Error =
    | Success | Continue | DepthError | EofError | UnexpectedError | NullError | BooleanError
    | NumberError | ArrayError | KeyNameError | KeySepError | ValueSepError | StringError | CommentError

  datatype State =
    | Eatws | Start | Finish | NullLiteral | CommentStart | Comment | CommentEol | CommentEnd
    | StringBody | StringEscape | EscapeUnicode | Boolean | Number
    | Array | ArrayAdd | ArraySep
    | FieldStart | Field | FieldEnd | Value | ValueAdd | ObjectSep

  /** One level of the explicit stack (`json_tokener_srec`). */
  datatype Frame = Frame(state: State, saved: State, current: Json, field: Option<string>)

  /** `json_tokener_reset_level`. */
  const FRESH := Frame(Eatws, Start, Null, None)

  /** The tokener between characters: the levels below `depth` and the one at
      `depth`, the string buffer and the scratch fields. */
  datatype Config = Config(
    lower: seq<Frame>, top: Frame, pb: string, stPos: nat, quote: char, isDouble: bool, ucs: nat)
  {
    function Goto(s: State): Config {
      this.(top := top.(state := s))
    }

    /** Leave the token: skip white space, then resume in state s. */
    function Then(s: State): Config {
      this.(top := top.(state := Eatws, saved := s))
    }

    /** The token is complete and v is the value of this level. */
    function Deliver(v: Json): Config {
      this.(top := top.(state := Eatws, saved := Finish, current := v))
    }
  }

  /** A newly allocated tokener. */
  function Init(): Config {
    Config([], FRESH, "", 0, NUL, false, 0)
  }

  // ----- Well-formed configurations

  predicate IsCommentState(s: State) {
    s.CommentStart? || s.Comment? || s.CommentEol? || s.CommentEnd?
  }

  predicate IsEscapeState(s: State) {
    s.StringEscape? || s.EscapeUnicode?
  }

  /** The states that skipping white space can lead to. */
  predicate Resumes(s: State) {
    s.Start? || s.Finish? || s.Array? || s.ArraySep? || s.FieldStart? || s.FieldEnd? || s.Value? || s.ObjectSep?
  }

  /** The state that decides what kind of value the level is building. */
  function Goal(f: Frame): State {
    if f.state.Eatws? || IsCommentState(f.state) || IsEscapeState(f.state) then f.saved else f.state
  }

  predicate TopOk(f: Frame) {
    && (f.state.Eatws? || IsCommentState(f.state) ==> Resumes(f.saved))
    && (IsEscapeState(f.state) ==> f.saved.StringBody? || f.saved.Field?)
    && !f.state.ArrayAdd? && !f.state.ValueAdd?
    && (Goal(f).Array? || Goal(f).ArraySep? ==> f.current.Arr?)
    && (Goal(f).FieldStart? || Goal(f).Field? || Goal(f).FieldEnd? || Goal(f).Value? || Goal(f).ObjectSep?
        ==> f.current.Obj?)
    && (Goal(f).FieldEnd? || Goal(f).Value? ==> f.field.Some?)
  }

  /** A level that waits for the value being parsed above it. */
  predicate Waiting(f: Frame) {
    || (f.state.ArrayAdd? && f.current.Arr?)
    || (f.state.ValueAdd? && f.current.Obj? && f.field.Some?)
  }

  predicate Wf(g: Config) {
    && |g.lower| < MAX_DEPTH
    && TopOk(g.top)
    && (forall i :: 0 <= i < |g.lower| ==> Waiting(g.lower[i]))
    && (g.top.state.EscapeUnicode? ==> g.stPos < 4)
  }

  // ----- Library calls

  predicate IsSpace(c: char) {
    c == ' ' || '\t' <= c <= '\r'
  }

  function Lower(c: char): char {
    if 'A' <= c <= 'Z' then (c as int + 32) as char else c
  }

  /** `strncasecmp(a, b, n) == 0`, reading the end of a sequence as the terminating NUL. */
  predicate SameNoCase(a: string, b: string, n: nat) {
    if n == 0 then true
    else
      var ca := if a == "" then NUL else a[0];
      var cb := if b == "" then NUL else b[0];
      Lower(ca) == Lower(cb) && (ca == NUL || SameNoCase(if a == "" then "" else a[1..], if b == "" then "" else b[1..], n - 1))
  }

  predicate IsDigit(c: char) {
    '0' <= c <= '9'
  }

  function DigitCount(s: string): (n: nat)
    ensures n <= |s|
    ensures forall i :: 0 <= i < n ==> IsDigit(s[i])
  {
    if s == "" || !IsDigit(s[0]) then 0 else 1 + DigitCount(s[1..])
  }

  function NatOf(s: string): nat
    requires forall i :: 0 <= i < |s| ==> IsDigit(s[i])
  {
    if s == "" then 0
    else
      var d := s[|s| - 1];
      assert IsDigit(d);
      10 * NatOf(s[..|s| - 1]) + (d as int - '0' as int)
  }

  function Unsigned(s: string): string {
    if s != "" && (s[0] == '-' || s[0] == '+') then s[1..] else s
  }

  /** The int that `%d` stores: the C library clamps to 64 bits and the store keeps the low 32. */
  function StoreInt(n: int): int32 {
    var long := Max(-0x8000_0000_0000_0000, Min(n, 0x7fff_ffff_ffff_ffff));
    (long + 0x8000_0000) % 0x1_0000_0000 - 0x8000_0000
  }

  /** `sscanf(s, "%d", &i)`. */
  function ScanInt(s: string): Option<int32> {
    var body := Unsigned(s);
    var n := DigitCount(body);
    if n == 0 then None
    else
      var sign := if s[0] == '-' then -1 else 1;
      Some(StoreInt(sign * NatOf(body[..n])))
  }

  /** Whether `sscanf(s, "%lf", &d)` converts: a digit follows the sign, or a point and a digit do. */
  predicate ScansDouble(s: string) {
    var body := Unsigned(s);
    body != "" && (IsDigit(body[0]) || (body[0] == '.' && |body| > 1 && IsDigit(body[1])))
  }

  /** `strchr` also finds the terminating NUL of its table. */
  predicate InHexChars(c: char) {
    c in HEX || c == NUL
  }

  /** The `hexdigit` macro on the characters it is applied to. */
  function HexDigitValue(c: char): int {
    if c <= '9' then c as int - '0' as int else c as int % 8 + 9
  }

  /** The weight of the digit at position stPos: 1 shifted left by 4 * (3 - stPos) bits. */
  function DigitWeight(stPos: nat): nat {
    if stPos == 0 then 4096 else if stPos == 1 then 256 else if stPos == 2 then 16 else 1
  }

  /** One digit of a unicode escape, in 32-bit unsigned arithmetic. */
  function AddHexDigit(ucs: nat, c: char, stPos: nat): nat {
    (ucs + HexDigitValue(c) * DigitWeight(stPos)) % 0x1_0000_0000
  }

  /** The bytes written for an escaped code point; each is an `unsigned char`. */
  function Utf8(u: nat): string {
    if u < 0x80 then [u as char]
    else if u < 0x800 then [(0xc0 + u / 64) as char, (0x80 + u % 64) as char]
    else [(0xe0 + u / 4096 % 32) as char, (0x80 + u / 64 % 64) as char, (0x80 + u % 64) as char]
  }

  // ----- One character

  /** What a state does with the current character: look at it again in another
      configuration, take it, or leave the function. */
  datatype Act = Redo(cfg: Config) | Take(cfg: Config) | Halt(cfg: Config, err: Error)

  /** How many more times a character can be looked at again. */
  function Rank(f: Frame): nat {
    if f.state.Eatws? then 1 + StateRank(f.saved) else StateRank(f.state)
  }

  function StateRank(s: State): nat {
    match s
    case Array => 9
    case Value => 9
    case Start => 7
    case NullLiteral => 6
    case Boolean => 6
    case Number => 6
    case Finish => 4
    case _ => 1
  }

  /** What every step promises: a well-formed configuration, and progress when it looks again. */
  ghost predicate Sound(g: Config, a: Act) {
    && Wf(a.cfg)
    && (a.Redo? ==> Rank(a.cfg.top) < Rank(g.top))
    && (a.Halt? ==> !a.err.Continue?)
  }

  /** The brackets that begin a container. */
  function StartContainer(g: Config, c: char): (a: Act)
    requires Wf(g) && g.top.state.Start? && (c == '{' || c == '[')
    ensures Sound(g, a) && a.Take?
  {
    if c == '{' then Take(g.(top := g.top.(state := Eatws, saved := FieldStart, current := Obj([]))))
    else Take(g.(top := g.top.(state := Eatws, saved := Array, current := Arr([]))))
  }

  function StepStart(g: Config, c: char): (a: Act)
    requires Wf(g) && g.top.state.Start?
    ensures Sound(g, a)
  {
    if c == '{' || c == '[' then StartContainer(g, c)
    else if c == 'N' || c == 'n' then Redo(g.Goto(NullLiteral).(pb := "", stPos := 0))
    else if c == '"' || c == '\'' then Take(g.Goto(StringBody).(pb := "", quote := c))
    else if c == 'T' || c == 't' || c == 'F' || c == 'f' then Redo(g.Goto(Boolean).(pb := "", stPos := 0))
    else if IsDigit(c) || c == '-' then Redo(g.Goto(Number).(pb := "", isDouble := false))
    else Halt(g, UnexpectedError)
  }

  function StepNull(g: Config, c: char): (a: Act)
    requires Wf(g) && g.top.state.NullLiteral?
    ensures Sound(g, a)
  {
    var h := g.(pb := g.pb + [c]);
    if !SameNoCase("null", h.pb, Min(g.stPos + 1, 4)) then Halt(h, NullError)
    else if g.stPos == 4 then Redo(h.Deliver(Null))
    else Take(h.(stPos := g.stPos + 1))
  }

  function StepBoolean(g: Config, c: char): (a: Act)
    requires Wf(g) && g.top.state.Boolean?
    ensures Sound(g, a)
  {
    var h := g.(pb := g.pb + [c]);
    if SameNoCase("true", h.pb, Min(g.stPos + 1, 4)) then
      if g.stPos == 4 then Redo(h.Deliver(Bool(true))) else Take(h.(stPos := g.stPos + 1))
    else if SameNoCase("false", h.pb, Min(g.stPos + 1, 5)) then
      if g.stPos == 5 then Redo(h.Deliver(Bool(false))) else Take(h.(stPos := g.stPos + 1))
    else Halt(h, BooleanError)
  }

  predicate IsNumberChar(c: char) {
    c != NUL && c in NUMBER_CHARS
  }

  function NumberValue(g: Config): Option<Json> {
    if !g.isDouble then
      match ScanInt(CString(g.pb)) case Some(n) => Some(Int(n)) case None => None
    else if ScansDouble(CString(g.pb)) then Some(Double(CString(g.pb)))
    else None
  }

  function StepNumber(g: Config, c: char): (a: Act)
    requires Wf(g) && g.top.state.Number?
    ensures Sound(g, a)
  {
    if IsNumberChar(c) then Take(g.(pb := g.pb + [c], isDouble := g.isDouble || c == '.' || c == 'e'))
    else match NumberValue(g)
      case Some(v) => Redo(g.Deliver(v))
      case None => Halt(g, NumberError)
  }

  /** The body of a string or of a field name, up to the closing quote. */
  function StepText(g: Config, c: char): (a: Act)
    requires Wf(g) && (g.top.state.StringBody? || g.top.state.Field?)
    ensures Sound(g, a)
  {
    if c == g.quote then
      if g.top.state.Field?
      then Take(g.(top := g.top.(state := Eatws, saved := FieldEnd, field := Some(CString(g.pb)))))
      else Take(g.Deliver(Str(CString(g.pb))))
    else if c == '\\' then Take(g.(top := g.top.(state := StringEscape, saved := g.top.state)))
    else Take(g.(pb := g.pb + [c]))
  }

  function StepEscape(g: Config, c: char): (a: Act)
    requires Wf(g) && g.top.state.StringEscape?
    ensures Sound(g, a)
  {
    var back := g.Goto(g.top.saved);
    if c == '"' || c == '\\' || c == '/' then Take(back.(pb := g.pb + [c]))
    else if c == 'b' then Take(back.(pb := g.pb + "\U{0008}"))
    else if c == 'n' then Take(back.(pb := g.pb + "\n"))
    else if c == 'r' then Take(back.(pb := g.pb + "\r"))
    else if c == 't' then Take(back.(pb := g.pb + "\t"))
    else if c == 'u' then Take(g.Goto(EscapeUnicode).(ucs := 0, stPos := 0))
    else Halt(g, StringError)
  }

  function StepUnicode(g: Config, c: char): (a: Act)
    requires Wf(g) && g.top.state.EscapeUnicode?
    ensures Sound(g, a)
  {
    if !InHexChars(c) then Halt(g, StringError)
    else
      var h := g.(ucs := AddHexDigit(g.ucs, c, g.stPos), stPos := g.stPos + 1);
      if h.stPos == 4 then Take(h.Goto(g.top.saved).(pb := g.pb + Utf8(h.ucs)))
      else Take(h)
  }

  /** Open a level for a child value. */
  function Push(g: Config, waiting: State, c: char): (a: Act)
    requires Wf(g) && Waiting(g.top.(state := waiting)) && Rank(g.top) == 9
    ensures Sound(g, a)
  {
    if |g.lower| + 1 >= MAX_DEPTH then Halt(g, DepthError)
    else Redo(g.(lower := g.lower + [g.top.(state := waiting)], top := FRESH))
  }

  /** Close the level on top and hand its value to the level below. */
  function Pop(g: Config): Config
    requires g.lower != [] && Waiting(g.lower[|g.lower| - 1])
  {
    var n := |g.lower| - 1;
    g.(lower := g.lower[..n], top := Receive(g.lower[n], g.top.current))
  }

  function Receive(f: Frame, v: Json): Frame
    requires Waiting(f)
  {
    if f.state.ArrayAdd? then Frame(Eatws, ArraySep, Arr(f.current.items + [v]), f.field)
    else Frame(Eatws, ObjectSep, Obj(AddMember(f.current.members, f.field.value, v)), None)
  }

  /** White space between tokens. */
  function StepEatws(g: Config, c: char): (a: Act)
    requires Wf(g) && g.top.state.Eatws?
    ensures Sound(g, a)
  {
    if IsSpace(c) then Take(g)
    else if c == '/' then Take(g.Goto(CommentStart).(pb := [c]))
    else Redo(g.Goto(g.top.saved))
  }

  /** White space and comments between tokens. */
  function StepBlank(g: Config, c: char): (a: Act)
    requires Wf(g) && (g.top.state.Eatws? || IsCommentState(g.top.state))
    ensures Sound(g, a)
  {
    match g.top.state
    case Eatws => StepEatws(g, c)
    case CommentStart =>
      if c == '*' then Take(g.Goto(Comment).(pb := g.pb + [c]))
      else if c == '/' then Take(g.Goto(CommentEol).(pb := g.pb + [c]))
      else Halt(g, CommentError)
    case Comment =>
      if c == '*' then Take(g.Goto(CommentEnd).(pb := g.pb + [c])) else Take(g.(pb := g.pb + [c]))
    case CommentEol => if c == '\n' then Take(g.Goto(Eatws)) else Take(g.(pb := g.pb + [c]))
    case _ => Take(g.Goto(if c == '/' then Eatws else Comment).(pb := g.pb + [c]))
  }

  function StepArray(g: Config, c: char): (a: Act)
    requires Wf(g) && (g.top.state.Array? || g.top.state.ArraySep?)
    ensures Sound(g, a)
  {
    if c == ']' then Take(g.Then(Finish))
    else if g.top.state.Array? then Push(g, ArrayAdd, c)
    else if c == ',' then Take(g.Then(Array))
    else Halt(g, ArrayError)
  }

  function StepObject(g: Config, c: char): (a: Act)
    requires Wf(g) && g.top.state in {FieldStart, FieldEnd, Value, ObjectSep}
    ensures Sound(g, a)
  {
    match g.top.state
    case FieldStart =>
      if c == '}' then Take(g.Then(Finish))
      else if c == '"' || c == '\'' then Take(g.Goto(Field).(pb := "", quote := c))
      else Halt(g, KeyNameError)
    case FieldEnd => if c == ':' then Take(g.Then(Value)) else Halt(g, KeySepError)
    case Value => Push(g, ValueAdd, c)
    case _ =>
      if c == '}' then Take(g.Then(Finish))
      else if c == ',' then Take(g.Then(FieldStart))
      else Halt(g, ValueSepError)
  }

  function StepFinish(g: Config, c: char): (a: Act)
    requires Wf(g) && g.top.state.Finish?
    ensures Sound(g, a)
  {
    if g.lower == [] then Halt(g, Success) else Redo(Pop(g))
  }

  function Step(g: Config, c: char): (a: Act)
    requires Wf(g)
    ensures Sound(g, a)
  {
    match g.top.state
    case Eatws => StepBlank(g, c)
    case CommentStart => StepBlank(g, c)
    case Comment => StepBlank(g, c)
    case CommentEol => StepBlank(g, c)
    case CommentEnd => StepBlank(g, c)
    case Start => StepStart(g, c)
    case Finish => StepFinish(g, c)
    case NullLiteral => StepNull(g, c)
    case Boolean => StepBoolean(g, c)
    case Number => StepNumber(g, c)
    case StringBody => StepText(g, c)
    case Field => StepText(g, c)
    case StringEscape => StepEscape(g, c)
    case EscapeUnicode => StepUnicode(g, c)
    case Array => StepArray(g, c)
    case ArraySep => StepArray(g, c)
    case FieldStart => StepObject(g, c)
    case FieldEnd => StepObject(g, c)
    case Value => StepObject(g, c)
    case ObjectSep => StepObject(g, c)
    case ArrayAdd => Halt(g, Success)  // never on top
    case ValueAdd => Halt(g, Success)  // never on top
  }

  /** What becomes of one character, `redo_char` jumps included. */
  function Feed(g: Config, c: char): (a: Act)
    requires Wf(g)
    ensures Wf(a.cfg) && !a.Redo? && (a.Halt? ==> !a.err.Continue?)
    decreases Rank(g.top)
  {
    var a := Step(g, c);
    if a.Redo? then Feed(a.cfg, c) else a
  }

  // ----- Whole calls

  /** What a call leaves behind: the tokener, `err`, and `char_offset`. */
  datatype Outcome = Outcome(cfg: Config, err: Error, offset: nat)

  /** POP_CHAR at the end of the input. */
  function Exhausted(g: Config): Error
  {
    if g.lower == [] && g.top.state.Eatws? && g.top.saved.Finish? then Success else Continue
  }

  /** The check made after `out:` when the last character was the NUL. */
  function AtEof(g: Config, err: Error): Error
  {
    if !g.top.state.Finish? && !g.top.saved.Finish? then EofError else err
  }

  /** `json_tokener_parse_ex` from offset i of its input. */
  function Run(g: Config, s: string, i: nat): (o: Outcome)
    requires Wf(g) && i <= |s|
    ensures Wf(o.cfg) && i <= o.offset <= |s|
    decreases |s| - i
  {
    if i == |s| then Outcome(g, Exhausted(g), i)
    else
      match Feed(g, s[i])
      case Take(h) => if s[i] == NUL then Outcome(h, AtEof(h, Success), i + 1) else Run(h, s, i + 1)
      case Halt(h, e) => Outcome(h, if s[i] == NUL then AtEof(h, e) else e, i)
  }

  /** The value a call returns: the current value of the level on top, or NULL on error. */
  function Returned(o: Outcome): Json
  {
    if o.err.Success? then o.cfg.top.current else Null
  }

  datatype Parsed = Ok(v: Json) | Failed(err: Error)

  /** `json_tokener_parse` on a NUL-terminated string. */
  function Parse(s: string): Parsed {
    var o := Run(Init(), s, 0);
    if o.err.Success? then Ok(Returned(o)) else Failed(o.err)
  }
}
