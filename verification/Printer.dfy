/** The printers: each appends to a string buffer exactly the text that Print defines. */
module Printer {
  import opened Common
  import opened Json
  import opened Printbuf

  /** `json_escape_str`: unescaped stretches are appended in one call each. */
  method EscapeStr(pb: Printbuf, str: string)
    requires pb.Valid() && NUL !in str
    modifies pb, pb.buf
    ensures pb.Valid() && pb.Text() == old(pb.Text()) + Escape(str)
    ensures pb.buf == old(pb.buf) || fresh(pb.buf)
  {
    hide Escape, EscapeChar;
    var pos, start := 0, 0;
    assert str[0..0] == "" && str[0..] == str && "" + Escape(str) == Escape(str);
    while pos < |str|
      invariant 0 <= start <= pos <= |str|
      invariant pb.Valid() && (pb.buf == old(pb.buf) || fresh(pb.buf))
      invariant pb.Text() + (str[start..pos] + Escape(str[pos..])) == old(pb.Text()) + Escape(str)
    {
      var c := str[pos];
      ghost var rest := Escape(str[pos + 1..]);
      EscapeAt(str, pos);
      ghost var before, chunk := pb.Text(), str[start..pos];
      if IsEscaped(c) {
        if pos - start > 0 {
          pb.MemAppend(str[start..pos]);
        }
        assert pb.Text() == before + chunk;
        AppendEscape(pb, c);
        pos := pos + 1;
        start := pos;
        Regroup(before, chunk, EscapeChar(c), rest);
        assert str[start..pos] == "";
      } else {
        PlainChar(c);
        pos := pos + 1;
        assert str[start..pos] == chunk + [c];
        Regroup3(chunk, [c], rest);
      }
    }
    EscapeEnd(str);
    if pos - start > 0 {
      pb.MemAppend(str[start..pos]);
    }
  }

  lemma EscapeAt(str: string, pos: nat)
    requires pos < |str|
    ensures Escape(str[pos..]) == EscapeChar(str[pos]) + Escape(str[pos + 1..])
  {
    hide EscapeChar;
    assert str[pos..][0] == str[pos] && str[pos..][1..] == str[pos + 1..];
  }

  lemma EscapeEnd(str: string)
    ensures Escape(str[|str|..]) == ""
  {
  }

  predicate IsEscaped(c: char) {
    c < ' ' || c == '"' || c == '\\' || c == '/'
  }

  lemma PlainChar(c: char)
    requires !IsEscaped(c)
    ensures EscapeChar(c) == [c]
  {
  }

  lemma Regroup(a: string, b: string, c: string, d: string)
    ensures a + (b + (c + d)) == a + b + c + ("" + d)
  {
  }

  lemma Regroup3(a: string, b: string, c: string)
    ensures a + (b + c) == a + b + c
  {
  }

  /** The escape of one character: short forms by name, other control characters in hexadecimal. */
  method AppendEscape(pb: Printbuf, c: char)
    requires pb.Valid() && IsEscaped(c)
    modifies pb, pb.buf
    ensures pb.Valid() && pb.Text() == old(pb.Text()) + EscapeChar(c)
    ensures pb.buf == old(pb.buf) || fresh(pb.buf)
  {
    if c == '\U{0008}' { pb.MemAppend("\\b"); }
    else if c == '\n' { pb.MemAppend("\\n"); }
    else if c == '\r' { pb.MemAppend("\\r"); }
    else if c == '\t' { pb.MemAppend("\\t"); }
    else if c == '"' { pb.MemAppend("\\\""); }
    else if c == '\\' { pb.MemAppend("\\\\"); }
    else if c == '/' { pb.MemAppend("\\/"); }
    else { pb.MemAppend("\\u00" + [HEX[c as int / 16], HEX[c as int % 16]]); }
  }

  /** The `_to_json_string` functions, by type of value. */
  method PrintTo(pb: Printbuf, v: Json)
    requires pb.Valid() && Printable(v)
    modifies pb, pb.buf
    ensures pb.Valid() && pb.Text() == old(pb.Text()) + Print(v) && pb.Terminated()
    ensures pb.buf == old(pb.buf) || fresh(pb.buf)
    decreases v, 0
  {
    match v
    case Null => pb.MemAppend("null");
    case Bool(b) => if b { pb.MemAppend("true"); } else { pb.MemAppend("false"); }
    case Int(n) => pb.MemAppend(PrintInt(n));
    case Str(s) => PrintString(pb, s);
    case Arr(items) => PrintArray(pb, items);
    case Obj(ms) => PrintObject(pb, ms);
  }

  method PrintString(pb: Printbuf, s: string)
    requires pb.Valid() && NUL !in s
    modifies pb, pb.buf
    ensures pb.Valid() && pb.Text() == old(pb.Text()) + Print(Str(s)) && pb.Terminated()
    ensures pb.buf == old(pb.buf) || fresh(pb.buf)
  {
    hide Escape;
    pb.MemAppend("\"");
    EscapeStr(pb, s);
    pb.MemAppend("\"");
    Regroup3(old(pb.Text()), "\"", Escape(s));
    Regroup3(old(pb.Text()), "\"" + Escape(s), "\"");
  }

  method PrintArray(pb: Printbuf, items: seq<Json>)
    requires pb.Valid() && Printable(Arr(items))
    modifies pb, pb.buf
    ensures pb.Valid() && pb.Text() == old(pb.Text()) + Print(Arr(items)) && pb.Terminated()
    ensures pb.buf == old(pb.buf) || fresh(pb.buf)
    decreases items, 1
  {
    pb.MemAppend("[");
    ghost var goal := old(pb.Text()) + Print(Arr(items));
    assert items[0..] == items;
    assert pb.Text() + PrintItems(items, true) == goal;
    var i := 0;
    while i < |items|
      invariant 0 <= i <= |items|
      invariant pb.Valid() && (pb.buf == old(pb.buf) || fresh(pb.buf))
      invariant pb.Text() + PrintItems(items[i..], i == 0) == goal
    {
      hide Print, Printable, Comma;
      assert items[i..][0] == items[i] && items[i..][1..] == items[i + 1..];
      ghost var before, rest := pb.Text(), PrintItems(items[i + 1..], false);
      PrintableItem(items, i);
      AppendComma(pb, i == 0);
      pb.MemAppend(" ");
      PrintTo(pb, items[i]);
      Regroup4(before, Comma(i == 0), " ", Print(items[i]), rest);
      i := i + 1;
    }
    assert PrintItems(items[i..], i == 0) == " ]";
    pb.MemAppend(" ]");
  }

  lemma PrintableItem(items: seq<Json>, i: nat)
    requires i < |items| && Printable(Arr(items))
    ensures Printable(items[i])
  {
  }

  lemma PrintableMember(ms: seq<Member>, i: nat)
    requires i < |ms| && Printable(Obj(ms))
    ensures NUL !in ms[i].key && Printable(ms[i].val)
  {
  }

  lemma Regroup4(a: string, b: string, c: string, d: string, e: string)
    ensures a + (b + (c + (d + e))) == a + b + c + d + e
  {
  }

  /** `if(i) sprintbuf(pb, ",")` */
  method AppendComma(pb: Printbuf, first: bool)
    requires pb.Valid()
    modifies pb, pb.buf
    ensures pb.Valid() && pb.Text() == old(pb.Text()) + Comma(first)
    ensures pb.buf == old(pb.buf) || fresh(pb.buf)
  {
    if !first { pb.MemAppend(","); }
  }

  method PrintObject(pb: Printbuf, ms: seq<Member>)
    requires pb.Valid() && Printable(Obj(ms))
    modifies pb, pb.buf
    ensures pb.Valid() && pb.Text() == old(pb.Text()) + Print(Obj(ms)) && pb.Terminated()
    ensures pb.buf == old(pb.buf) || fresh(pb.buf)
    decreases ms, 1
  {
    hide Print, Printable, Comma, PrintName;
    ghost var goal := old(pb.Text()) + Print(Obj(ms));
    OpenObject(old(pb.Text()), ms);
    pb.MemAppend("{");
    var i := 0;
    assert ms[0..] == ms;
    while i < |ms|
      invariant 0 <= i <= |ms|
      invariant pb.Valid() && (pb.buf == old(pb.buf) || fresh(pb.buf))
      invariant pb.Text() + PrintMembers(ms[i..], i == 0) == goal
    {
      assert ms[i..][0] == ms[i] && ms[i..][1..] == ms[i + 1..];
      ghost var before, rest := pb.Text(), PrintMembers(ms[i + 1..], false);
      PrintableMember(ms, i);
      PrintMemberTo(pb, ms[i], i == 0);
      MemberText(before, ms[i], i == 0, rest);
      i := i + 1;
    }
    assert PrintMembers(ms[i..], i == 0) == " }";
    pb.MemAppend(" }");
  }

  lemma OpenObject(a: string, ms: seq<Member>)
    ensures a + Print(Obj(ms)) == a + "{" + PrintMembers(ms, true)
  {
    Regroup3(a, "{", PrintMembers(ms, true));
  }

  lemma MemberText(a: string, m: Member, first: bool, rest: string)
    ensures a + (Comma(first) + (" " + (PrintName(m.key) + (Print(m.val) + rest))))
         == a + Comma(first) + " " + PrintName(m.key) + Print(m.val) + rest
  {
    hide *;
    Regroup4(a, Comma(first), " ", PrintName(m.key), Print(m.val) + rest);
    Regroup3(a + Comma(first) + " " + PrintName(m.key), Print(m.val), rest);
  }

  method PrintMemberTo(pb: Printbuf, m: Member, first: bool)
    requires pb.Valid() && NUL !in m.key && Printable(m.val)
    modifies pb, pb.buf
    ensures pb.Valid() && pb.Text() == old(pb.Text()) + Comma(first) + " " + PrintName(m.key) + Print(m.val)
    ensures pb.buf == old(pb.buf) || fresh(pb.buf)
    decreases m, 1
  {
    hide Print, PrintName, Comma, Printable;
    AppendComma(pb, first);
    pb.MemAppend(" ");
    PrintNameTo(pb, m.key);
    PrintTo(pb, m.val);
  }

  method PrintNameTo(pb: Printbuf, key: string)
    requires pb.Valid() && NUL !in key
    modifies pb, pb.buf
    ensures pb.Valid() && pb.Text() == old(pb.Text()) + PrintName(key)
    ensures pb.buf == old(pb.buf) || fresh(pb.buf)
  {
    hide Escape;
    pb.MemAppend("\"");
    EscapeStr(pb, key);
    pb.MemAppend("\": ");
    Regroup3(old(pb.Text()), "\"", Escape(key));
    Regroup3(old(pb.Text()), "\"" + Escape(key), "\": ");
  }

  /** `json_object_to_json_string`: the text of v alone, as a C string. */
  method ToJsonString(pb: Printbuf, v: Json)
    requires pb.Valid() && Printable(v)
    modifies pb, pb.buf
    ensures pb.Valid() && pb.Text() == Print(v) && pb.Terminated()
    ensures pb.buf == old(pb.buf) || fresh(pb.buf)
  {
    pb.Reset();
    PrintTo(pb, v);
    assert "" + Print(v) == Print(v);
  }
}
