/** A recursive-descent reading of JSON texts: what the tokener accepts, which value it gives, which error it
    reports and where it stops, without states or a stack. */
module Grammar {
  import opened Common
  import opened Json
  import opened TokenerSpec

  /** The call ends here with this result; rest is what it has not consumed. */
  datatype Ending = Ending(res: Parsed, rest: string)

  /** A value is complete before rest, or the call ends. */
  datatype Read = Got(v: Json, rest: string) | Over(end: Ending)

  function Fails(err: Error, rest: string): Ending {
    Ending(Failed(err), rest)
  }

  /** For want of characters. */
  function Short(): Ending {
    Fails(Continue, "")
  }

  /** The first character of t is wrong; if it is the NUL, the text ends too soon. */
  function Wrong(err: Error, t: string): Ending
    requires t != ""
  {
    Fails(if t[0] == NUL then EofError else err, t)
  }

  // ----- White space and comments

  /** What lies before the next token: nothing more, or a comment that runs out, or a slash that opens none, or
      a NUL in a comment. */
  datatype Gap = Past(rest: string) | RunsOut | NoComment(rest: string) | NulInside(rest: string)

  function Blanks(t: string): (g: Gap)
    ensures g.Past? ==> |g.rest| <= |t| && (g.rest != "" ==> !IsSpace(g.rest[0]) && g.rest[0] != '/')
    ensures g.NoComment? ==> g.rest != ""
    decreases |t|
  {
    if t == "" then Past("")
    else if IsSpace(t[0]) then Blanks(t[1..])
    else if t[0] != '/' then Past(t)
    else if |t| == 1 then RunsOut
    else if t[1] == '*' then InBlock(t[2..], false)
    else if t[1] == '/' then InLine(t[2..])
    else NoComment(t[1..])
  }

  function InLine(t: string): (g: Gap)
    ensures g.Past? ==> |g.rest| <= |t| && (g.rest != "" ==> !IsSpace(g.rest[0]) && g.rest[0] != '/')
    ensures g.NoComment? ==> g.rest != ""
    decreases |t|
  {
    if t == "" then RunsOut
    else if t[0] == NUL then NulInside(t[1..])
    else if t[0] == '\n' then Blanks(t[1..])
    else InLine(t[1..])
  }

  /** star: an odd run of stars has just been read. */
  function InBlock(t: string, star: bool): (g: Gap)
    ensures g.Past? ==> |g.rest| <= |t| && (g.rest != "" ==> !IsSpace(g.rest[0]) && g.rest[0] != '/')
    ensures g.NoComment? ==> g.rest != ""
    decreases |t|
  {
    if t == "" then RunsOut
    else if t[0] == NUL then NulInside(t[1..])
    else if star && t[0] == '/' then Blanks(t[1..])
    else InBlock(t[1..], !star && t[0] == '*')
  }

  /** A gap that does not end, before a token that is needed. */
  function Unended(g: Gap): Ending
    requires !g.Past? && (g.NoComment? ==> g.rest != "")
  {
    match g
    case RunsOut => Short()
    case NoComment(rest) => Wrong(CommentError, rest)
    case NulInside(rest) => Fails(EofError, rest)
  }

  /** And behind the value v: the tokener takes the level for finished, and the NUL for its end. */
  function UnendedAfter(g: Gap, v: Json): Ending
    requires !g.Past? && (g.NoComment? ==> g.rest != "")
  {
    match g
    case RunsOut => Short()
    case NoComment(rest) => Fails(CommentError, rest)
    case NulInside(rest) => Ending(Ok(v), rest)
  }

  // ----- Strings and names

  datatype Text = Said(s: string, rest: string) | Broken(end: Ending)

  /** The four digits of an escape, k of them read with the number n. */
  datatype Code = Code(n: nat, rest: string) | NoCode(end: Ending)

  function HexIndex(c: char): nat
    requires c in HEX
  {
    if c <= '9' then c as int - '0' as int else c as int - 'a' as int + 10
  }

  function ReadCode(t: string, k: nat, n: nat): (r: Code)
    requires k <= 4
    ensures r.Code? ==> |r.rest| <= |t|
    decreases |t|
  {
    if k == 4 then Code(n, t)
    else if t == "" then NoCode(Short())
    else if t[0] == NUL then NoCode(Fails(EofError, t[1..]))
    else if t[0] in HEX then ReadCode(t[1..], k + 1, 16 * n + HexIndex(t[0]))
    else NoCode(Wrong(StringError, t))
  }

  /** What a two-character escape stands for. */
  function Escaped(e: char): Option<char> {
    if e == '"' || e == '\\' || e == '/' then Some(e)
    else if e == 'b' then Some('\U{0008}')
    else if e == 'n' then Some('\n')
    else if e == 'r' then Some('\r')
    else if e == 't' then Some('\t')
    else None
  }

  /** The rest of a string that has begun with s and ends at quote. */
  function ReadText(t: string, quote: char, s: string): (r: Text)
    ensures r.Said? ==> |r.rest| < |t|
    decreases |t|
  {
    if t == "" then Broken(Short())
    else if t[0] == quote then Said(s, t[1..])
    else if t[0] == NUL then Broken(Fails(EofError, t[1..]))
    else if t[0] != '\\' then ReadText(t[1..], quote, s + [t[0]])
    else if |t| == 1 then Broken(Short())
    else if t[1] == 'u' then
      match ReadCode(t[2..], 0, 0)
      case Code(n, rest) => ReadText(rest, quote, s + Utf8(n))
      case NoCode(end) => Broken(end)
    else
      match Escaped(t[1])
      case Some(c) => ReadText(t[2..], quote, s + [c])
      case None => Broken(Wrong(StringError, t[1..]))
  }

  // ----- Literals and numbers

  /** The letters of a literal in either case, and one more character to end it. */
  function ReadLiteral(t: string, lit: string, v: Json, err: Error): (r: Read)
    ensures r.Got? ==> r.v == v && |r.rest| + |lit| == |t|
    decreases |lit|
  {
    if t == "" then Over(Short())
    else if lit == "" then Got(v, t)
    else if Lower(t[0]) == lit[0] then ReadLiteral(t[1..], lit[1..], v, err)
    else Over(Wrong(err, t))
  }

  function NumberLength(t: string): (n: nat)
    ensures n <= |t|
  {
    if t != "" && IsNumberChar(t[0]) then 1 + NumberLength(t[1..]) else 0
  }

  /** An int, or a double if there is a point or a small e in it. */
  function NumberOf(token: string): Option<Json> {
    if '.' in token || 'e' in token then if ScansDouble(token) then Some(Double(token)) else None
    else match ScanInt(token) case Some(n) => Some(Int(n)) case None => None
  }

  function ReadNumber(t: string): (r: Read)
    requires t != "" && IsNumberChar(t[0])
    ensures r.Got? ==> |r.rest| < |t|
  {
    var n := NumberLength(t);
    if n == |t| then Over(Short())
    else
      match NumberOf(t[..n])
      case Some(v) => Got(v, t[n..])
      case None => Over(Wrong(NumberError, t[n..]))
  }

  // ----- Values

  /** A value behind white space, d levels deep. */
  function ReadValue(t: string, d: nat): (r: Read)
    ensures r.Got? ==> |r.rest| < |t|
    decreases |t|, 2
  {
    match Blanks(t)
    case Past(u) => ReadBare(u, d)
    case gap => Over(Unended(gap))
  }

  function ReadBare(t: string, d: nat): (r: Read)
    ensures r.Got? ==> |r.rest| < |t|
    decreases |t|, 1
  {
    if t == "" then Over(Short())
    else if t[0] == '{' then ReadFields(t[1..], [], d)
    else if t[0] == '[' then ReadItems(t[1..], [], d)
    else if t[0] == '"' || t[0] == '\'' then
      match ReadText(t[1..], t[0], "")
      case Said(s, rest) => Got(Str(CString(s)), rest)
      case Broken(end) => Over(end)
    else if Lower(t[0]) == 'n' then ReadLiteral(t, "null", Null, NullError)
    else if Lower(t[0]) == 't' then ReadLiteral(t, "true", Bool(true), BooleanError)
    else if Lower(t[0]) == 'f' then ReadLiteral(t, "false", Bool(false), BooleanError)
    else if IsDigit(t[0]) || t[0] == '-' then
      IsNumberStart(t[0]);
      ReadNumber(t)
    else Over(Wrong(UnexpectedError, t))
  }

  lemma IsNumberStart(c: char)
    requires IsDigit(c) || c == '-'
    ensures IsNumberChar(c)
  {
    var k := if c == '-' then 12 else c as int - '0' as int;
    assert NUMBER_CHARS[k] == c;
  }

  /** A value inside a container: one level deeper, if there is one. */
  function ReadChild(t: string, d: nat): (r: Read)
    ensures r.Got? ==> |r.rest| < |t|
    decreases |t|, 2
  {
    if t == "" then Over(Short())
    else if d + 1 >= MAX_DEPTH then Over(Wrong(DepthError, t))
    else ReadBare(t, d + 1)
  }

  /** The rest of an array that has begun with items: an element or the end. */
  function ReadItems(t: string, items: seq<Json>, d: nat): (r: Read)
    ensures r.Got? ==> |r.rest| < |t|
    decreases |t|, 3
  {
    match Blanks(t)
    case Past(u) =>
      if u != "" && u[0] == ']' then Got(Arr(items), u[1..])
      else
        (match ReadChild(u, d)
         case Got(v, w) => ReadItemsEnd(w, v, items + [v], d)
         case Over(end) => Over(end))
    case gap => Over(Unended(gap))
  }

  /** Behind the element v: a comma or the end. */
  function ReadItemsEnd(t: string, v: Json, items: seq<Json>, d: nat): (r: Read)
    ensures r.Got? ==> |r.rest| < |t|
    decreases |t|, 2
  {
    match Blanks(t)
    case Past(u) =>
      if u == "" then Over(Short())
      else if u[0] == ']' then Got(Arr(items), u[1..])
      else if u[0] == ',' then ReadItems(u[1..], items, d)
      else Over(Wrong(ArrayError, u))
    case gap => Over(UnendedAfter(gap, v))
  }

  /** The rest of an object that has begun with ms: a name or the end. */
  function ReadFields(t: string, ms: seq<Member>, d: nat): (r: Read)
    ensures r.Got? ==> |r.rest| < |t|
    decreases |t|, 4
  {
    match Blanks(t)
    case Past(u) =>
      if u == "" then Over(Short())
      else if u[0] == '}' then Got(Obj(ms), u[1..])
      else if u[0] == '"' || u[0] == '\'' then
        (match ReadText(u[1..], u[0], "")
         case Said(key, w) => ReadColon(w, ms, CString(key), d)
         case Broken(end) => Over(end))
      else Over(Wrong(KeyNameError, u))
    case gap => Over(Unended(gap))
  }

  function ReadColon(t: string, ms: seq<Member>, key: string, d: nat): (r: Read)
    ensures r.Got? ==> |r.rest| < |t|
    decreases |t|, 3
  {
    match Blanks(t)
    case Past(u) =>
      if u == "" then Over(Short())
      else if u[0] == ':' then ReadFieldValue(u[1..], ms, key, d)
      else Over(Wrong(KeySepError, u))
    case gap => Over(Unended(gap))
  }

  function ReadFieldValue(t: string, ms: seq<Member>, key: string, d: nat): (r: Read)
    ensures r.Got? ==> |r.rest| < |t|
    decreases |t|, 3
  {
    match Blanks(t)
    case Past(u) =>
      (match ReadChild(u, d)
       case Got(v, w) => ReadFieldsEnd(w, v, AddMember(ms, key, v), d)
       case Over(end) => Over(end))
    case gap => Over(Unended(gap))
  }

  /** Behind the member value v: a comma or the end. */
  function ReadFieldsEnd(t: string, v: Json, ms: seq<Member>, d: nat): (r: Read)
    ensures r.Got? ==> |r.rest| < |t|
    decreases |t|, 2
  {
    match Blanks(t)
    case Past(u) =>
      if u == "" then Over(Short())
      else if u[0] == '}' then Got(Obj(ms), u[1..])
      else if u[0] == ',' then ReadFields(u[1..], ms, d)
      else Over(Wrong(ValueSepError, u))
    case gap => Over(UnendedAfter(gap, v))
  }

  /** A whole text: a value, and whatever follows it from the first character that is neither blank nor comment. */
  function ReadWhole(t: string): Ending {
    match ReadValue(t, 0)
    case Over(end) => end
    case Got(v, rest) =>
      match Blanks(rest)
      case Past(u) => Ending(Ok(v), u)
      case gap => UnendedAfter(gap, v)
  }
}
