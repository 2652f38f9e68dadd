/** What single characters, numbers and texts mean, against UTF-8, the ranges of C and texts spelled out. */
module Examples {
  import opened Common
  import opened Json
  import opened TokenerSpec
  import opened Eating
  import opened Grammar
  import opened GrammarValues

  // ----- UTF-8 (RFC 3629, section 3)

  predicate Leads(c: char, low: int, high: int) {
    low <= c as int < high
  }

  predicate Continues(c: char) {
    0x80 <= c as int < 0xc0
  }

  /** The number that a sequence of one, two or three bytes encodes, if it is in the shortest form. */
  function Decoded(b: string): Option<nat> {
    if |b| == 1 && Leads(b[0], 0, 0x80) then Some(b[0] as int)
    else if |b| == 2 && Leads(b[0], 0xc2, 0xe0) && Continues(b[1]) then
      Some(0x40 * (b[0] as int - 0xc0) + (b[1] as int - 0x80))
    else if |b| == 3 && Leads(b[0], 0xe0, 0xf0) && Continues(b[1]) && Continues(b[2]) then
      var n := 0x1000 * (b[0] as int - 0xe0) + 0x40 * (b[1] as int - 0x80) + (b[2] as int - 0x80);
      if n >= 0x800 then Some(n) else None
    else None
  }

  /** What an escape of four digits leaves decodes to their number. */
  lemma Utf8Decodes(u: nat)
    requires u < 0x1_0000
    ensures Decoded(Utf8(u)) == Some(u)
  {
  }

  lemma DigitIndex(d: nat)
    requires d < 16
    ensures HEX[d] in HEX && HEX[d] != NUL && HexIndex(HEX[d]) == d
  {
  }

  lemma OneDigit(c: char, t: string, k: nat, n: nat, d: nat)
    requires c in HEX && c != NUL && HexIndex(c) == d && k < 4
    ensures ReadCode([c] + t, k, n) == ReadCode(t, k + 1, 16 * n + d)
  {
    hide HexIndex;
    assert ([c] + t)[0] == c && ([c] + t)[1..] == t;
  }

  function Digits(t: string): string {
    ['0'] + (['0'] + (['e'] + (['9'] + t)))
  }

  lemma FourDigits(t: string)
    ensures ReadCode(Digits(t), 0, 0) == Code(0xe9, t)
  {
    hide ReadCode, HexIndex;
    DigitIndex(0);
    DigitIndex(14);
    DigitIndex(9);
    OneDigit('0', ['0'] + (['e'] + (['9'] + t)), 0, 0, 0);
    OneDigit('0', ['e'] + (['9'] + t), 1, 0, 0);
    OneDigit('e', ['9'] + t, 2, 0, 14);
    OneDigit('9', t, 3, 14, 9);
    FourRead(t, 0xe9);
  }

  lemma FourRead(t: string, n: nat)
    ensures ReadCode(t, 4, n) == Code(n, t)
  {
  }

  /** One escape, and the closing quote behind it. */
  lemma OneEscape(t: string, bytes: string)
    requires bytes == Utf8(0xe9)
    ensures ReadText("\\u" + Digits(['"'] + t), '"', "") == Said(bytes, t)
  {
    hide ReadCode, Utf8, Digits;
    var u := "\\u" + Digits(['"'] + t);
    FourDigits(['"'] + t);
    assert u[2..] == Digits(['"'] + t) && (['"'] + t)[1..] == t;
    assert "" + bytes == bytes;
    assert ReadText(['"'] + t, '"', bytes) == Said(bytes, t);
  }

  lemma QuotedValue(t: string, bytes: string)
    requires t != "" && t[0] == '"' && ReadText(t[1..], '"', "") == Said(bytes, [NUL]) && NUL !in bytes
    ensures ReadWhole(t).res == Ok(Str(bytes))
  {
    hide ReadText, ReadFields, ReadItems, ReadLiteral, ReadNumber;
    assert Blanks(t) == Past(t);
    assert Blanks([NUL]) == Past([NUL]);
  }

  /** The text of an escaped letter, from the quote to the NUL. */
  lemma EscapedLetter()
    ensures Parse("\"\\u00e9\"" + [NUL]) == Ok(Str([0xc3 as char, 0xa9 as char]))
  {
    hide Parse, ReadText, ReadWhole;
    var s := "\"\\u00e9\"" + [NUL];
    ParseIsRead(s);
    OneEscape([NUL], Utf8(0xe9));
    assert s[1..] == "\\u" + Digits(['"'] + [NUL]);
    QuotedValue(s, Utf8(0xe9));
  }

  // ----- Numbers

  /** An int that fits 64 bits keeps its low 32; beyond them, all of a positive one is -1 and of a negative one 0. */
  lemma StoredInt(n: int)
    ensures -0x8000_0000_0000_0000 <= n < 0x8000_0000_0000_0000 ==> (StoreInt(n) - n) % 0x1_0000_0000 == 0
    ensures n >= 0x8000_0000_0000_0000 ==> StoreInt(n) == -1
    ensures n < -0x8000_0000_0000_0000 ==> StoreInt(n) == 0
  {
  }

  lemma {:induction false} DigitsBefore(s: string, rest: string)
    requires (forall i :: 0 <= i < |s| ==> IsDigit(s[i])) && (rest != "" ==> !IsDigit(rest[0]))
    ensures DigitCount(s + rest) == |s|
  {
    if s == "" {
      assert s + rest == rest;
    } else {
      assert (s + rest)[1..] == s[1..] + rest && IsDigit(s[0]);
      DigitsBefore(s[1..], rest);
    }
  }

  lemma UnsignedScan(body: string, n: nat, rest: string)
    requires body == Decimal(n) + rest && (rest != "" ==> !IsDigit(rest[0]))
    ensures Unsigned(body) == body && Unsigned("-" + body) == body && body != "" && body[0] != '-'
    ensures DigitCount(body) > 0 && body[..DigitCount(body)] == Decimal(n) && NatOf(Decimal(n)) == n
  {
    hide DigitCount;
    DecimalRead(n);
    DigitsBefore(Decimal(n), rest);
    assert body[..|Decimal(n)|] == Decimal(n) && body[0] == Decimal(n)[0];
  }

  /** Scanning stops at the first character that is no digit. */
  lemma ScanStops(n: nat, rest: string)
    requires rest != "" ==> !IsDigit(rest[0])
    ensures ScanInt(Decimal(n) + rest) == Some(StoreInt(n))
    ensures ScanInt("-" + (Decimal(n) + rest)) == Some(StoreInt(-(n as int)))
  {
    hide StoreInt, DigitCount, Unsigned, Decimal, NatOf;
    UnsignedScan(Decimal(n) + rest, n, rest);
  }

  /** A sign alone is no number, a double needs a digit behind the sign or behind the point, and an e does not. */
  lemma NoNumbers()
    ensures ScanInt("-") == None && !ScansDouble("-.") && !ScansDouble("-e5") && !ScansDouble("")
    ensures ScansDouble("-.5") && ScansDouble("1.") && ScansDouble("1e")
  {
  }

  // ----- Characters and whole texts

  const UPPER: string := "ABCDEFGHIJKLMNOPQRSTUVWXYZ"
  const LOWER: string := "abcdefghijklmnopqrstuvwxyz"

  lemma Letters(i: nat)
    requires i < 26
    ensures Lower(UPPER[i]) == LOWER[i] == Lower(LOWER[i])
  {
  }

  lemma Spaces(c: char)
    ensures IsSpace(c) <==> c in " \t\n\U{000B}\U{000C}\r"
  {
  }

  lemma EscapeTwo(c: char, d: char)
    ensures Escape([c, d]) == EscapeChar(c) + EscapeChar(d)
  {
    hide EscapeChar;
    assert [c, d][1..] == [d] && [d][1..] == "" && Escape("") == "";
    assert Escape([d]) == EscapeChar(d) + "";
  }

  lemma TwoItems(v: Json, w: Json)
    ensures Print(Arr([v, w])) == "[ " + Print(v) + ", " + Print(w) + " ]"
  {
    hide Print;
    assert Print(Arr([v, w])) == "[" + PrintItems([v, w], true) by { ArrText([v, w]); }
    assert [v, w][1..] == [w] && [w][1..] == [];
    assert PrintItems([w], false) == ", " + Print(w) + " ]" by { assert PrintItems([], false) == " ]"; }
  }

  lemma ArrText(items: seq<Json>)
    ensures Print(Arr(items)) == "[" + PrintItems(items, true)
  {
  }

  lemma ObjText(ms: seq<Member>)
    ensures Print(Obj(ms)) == "{" + PrintMembers(ms, true)
  {
  }

  lemma MoreMembers(m: Member, ms: seq<Member>, first: bool)
    ensures PrintMembers([m] + ms, first)
         == (if first then " " else ", ") + ("\"" + Escape(m.key) + "\": " + (Print(m.val) + PrintMembers(ms, false)))
    ensures PrintMembers([], first) == " }"
  {
    hide Print, Escape;
    assert ([m] + ms)[0] == m && ([m] + ms)[1..] == ms;
  }

  /** How the printer lays out a value: blanks inside the brackets and behind commas and colons, slashes and control
      characters escaped. */
  lemma PrintedExample()
    ensures Print(Arr([Null, Bool(true)])) == "[ null, true ]"
    ensures Print(Obj([Member("a/", Int(-10))])) == "{ \"a\\/\": -10 }"
    ensures Print(Obj([Member("x", Null), Member("y", Null)])) == "{ \"x\": null, \"y\": null }"
    ensures Escape("\U{0001}\n") == "\\u0001\\n"
  {
    hide Print, Escape, PrintMembers;
    Scalars();
    TwoItems(Null, Bool(true));
    SlashAndControl();
    OneField();
    TwoFields();
  }

  lemma SlashAndControl()
    ensures Escape("a/") == "a\\/" && Escape("\U{0001}\n") == "\\u0001\\n"
  {
    hide Escape;
    EscapeTwo('a', '/');
    EscapeTwo('\U{0001}', '\n');
    assert "a/" == ['a', '/'] && "\U{0001}\n" == ['\U{0001}', '\n'];
  }

  lemma OneField()
    ensures Print(Obj([Member("a/", Int(-10))])) == "{ \"a\\/\": -10 }"
  {
    hide Print, Escape, PrintMembers;
    var m := Member("a/", Int(-10));
    Scalars();
    SlashAndControl();
    ObjText([m]);
    MoreMembers(m, [], true);
    assert [m] + [] == [m];
    assert PrintMembers([], false) == " }" by { MoreMembers(m, [], false); }
  }

  lemma OneLetter(c: char)
    requires c in "xy"
    ensures Escape([c]) == [c]
  {
    assert [c][1..] == "" && Escape("") == "";
  }

  lemma LastField()
    ensures PrintMembers([Member("y", Null)], false) == ", \"y\": null }"
  {
    hide Print, Escape, PrintMembers;
    var n := Member("y", Null);
    Scalars();
    OneLetter('y');
    assert [n] == [n] + [];
    MoreMembers(n, [], false);
  }

  lemma TwoFields()
    ensures Print(Obj([Member("x", Null), Member("y", Null)])) == "{ \"x\": null, \"y\": null }"
  {
    hide Print, Escape, PrintMembers;
    var m, n := Member("x", Null), Member("y", Null);
    Scalars();
    OneLetter('x');
    LastField();
    ObjText([m, n]);
    assert [m, n] == [m] + [n];
    MoreMembers(m, [n], true);
  }

  lemma Scalars()
    ensures Print(Null) == "null" && Print(Bool(true)) == "true" && Print(Int(-10)) == "-10"
  {
    assert Decimal(10) == Decimal(1) + [Digit(0)];
    assert Decimal(1) == [Digit(1)];
  }
}
