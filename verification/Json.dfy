/** JSON values as the library builds them, and the text its printers produce. */
module Json {
  import opened Common

  type int32 = x: int | -0x8000_0000 <= x < 0x8000_0000

  /** A NULL `json_object` pointer is the value Null. A double keeps the text it was read from. */
  datatype Json =
    | Null
    | Bool(b: bool)
    | Int(n: int32)
    | Double(text: string)
    | Str(s: string)
    | Arr(items: seq<Json>)
    | Obj(members: seq<Member>)

  datatype Member = Member(key: string, val: Json)

  /** `json_object_object_add`: delete the key if present, then insert at the tail. */
  function RemoveKey(ms: seq<Member>, key: string): (r: seq<Member>)
    ensures |r| <= |ms|
    ensures forall m :: m in r <==> m in ms && m.key != key
  {
    if ms == [] then []
    else if ms[0].key == key then RemoveKey(ms[1..], key)
    else [ms[0]] + RemoveKey(ms[1..], key)
  }

  function AddMember(ms: seq<Member>, key: string, val: Json): seq<Member> {
    RemoveKey(ms, key) + [Member(key, val)]
  }

  predicate HasKey(ms: seq<Member>, key: string) {
    exists i :: 0 <= i < |ms| && ms[i].key == key
  }

  predicate DistinctKeys(ms: seq<Member>) {
    forall i, j :: 0 <= i < j < |ms| ==> ms[i].key != ms[j].key
  }

  /** The values the C interface can build: C strings hold no NUL, and a table never repeats a key. */
  predicate WellFormed(v: Json) {
    match v
    case Str(s) => NUL !in s
    case Arr(items) => forall i :: 0 <= i < |items| ==> WellFormed(items[i])
    case Obj(ms) =>
      && DistinctKeys(ms)
      && (forall i :: 0 <= i < |ms| ==> NUL !in ms[i].key && WellFormed(ms[i].val))
    case _ => true
  }

  predicate HasDouble(v: Json) {
    match v
    case Double(_) => true
    case Arr(items) => exists i :: 0 <= i < |items| && HasDouble(items[i])
    case Obj(ms) => exists i :: 0 <= i < |ms| && HasDouble(ms[i].val)
    case _ => false
  }

  /** Well formed and free of doubles: the values whose printed text is exact. */
  predicate Printable(v: Json) {
    WellFormed(v) && !HasDouble(v)
  }

  /** How many parser levels a value needs below its own: none for a scalar or
      an empty container, one more than its deepest child otherwise. */
  function Levels(v: Json): nat {
    match v
    case Arr(items) => LevelsItems(items)
    case Obj(ms) => LevelsMembers(ms)
    case _ => 0
  }

  function LevelsItems(items: seq<Json>): nat {
    if items == [] then 0
    else Max(1 + Levels(items[0]), LevelsItems(items[1..]))
  }

  function LevelsMembers(ms: seq<Member>): nat {
    if ms == [] then 0
    else Max(1 + Levels(ms[0].val), LevelsMembers(ms[1..]))
  }

  // ----- Printing

  const HEX: string := "0123456789abcdef"

  /** `json_escape_str`, one character. */
  function EscapeChar(c: char): string {
    if c == '\U{0008}' then "\\b"
    else if c == '\n' then "\\n"
    else if c == '\r' then "\\r"
    else if c == '\t' then "\\t"
    else if c == '"' then "\\\""
    else if c == '\\' then "\\\\"
    else if c == '/' then "\\/"
    else if c < ' ' then "\\u00" + [HEX[c as int / 16], HEX[c as int % 16]]
    else [c]
  }

  function Escape(s: string): string {
    if s == "" then "" else EscapeChar(s[0]) + Escape(s[1..])
  }

  function Digit(d: int): char
    requires 0 <= d < 10
  {
    HEX[d]
  }

  /** Decimal digits of a natural number, most significant first. */
  function Decimal(n: nat): (s: string)
    ensures |s| >= 1
  {
    if n < 10 then [Digit(n)] else Decimal(n / 10) + [Digit(n % 10)]
  }

  /** printf's "%d". */
  function PrintInt(n: int): string {
    if n < 0 then "-" + Decimal(-n) else Decimal(n)
  }

  function Print(v: Json): string {
    match v
    case Null => "null"
    case Bool(b) => if b then "true" else "false"
    case Int(n) => PrintInt(n)
    case Double(text) => text
    case Str(s) => "\"" + Escape(s) + "\""
    case Arr(items) => "[" + PrintItems(items, true)
    case Obj(ms) => "{" + PrintMembers(ms, true)
  }

  /** A comma before every child but the first. */
  function Comma(first: bool): string {
    if first then "" else ","
  }

  /** The elements of an array, to the closing bracket. */
  function PrintItems(items: seq<Json>, first: bool): string {
    if items == [] then " ]"
    else Comma(first) + (" " + (Print(items[0]) + PrintItems(items[1..], false)))
  }

  /** The members of an object, to the closing brace. */
  function PrintMembers(ms: seq<Member>, first: bool): string {
    if ms == [] then " }"
    else Comma(first) + (" " + (PrintName(ms[0].key) + (Print(ms[0].val) + PrintMembers(ms[1..], false))))
  }

  function PrintName(key: string): string {
    "\"" + Escape(key) + "\": "
  }
}
