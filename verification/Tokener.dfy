/** `json_tokener_parse_ex`: the tokener that updates its stack and its buffer in place and reads
    whole tokens in tight loops. Every call leaves what the machine of TokenerSpec leaves. */
module Tokener {
  import opened Common
  import opened Json
  import opened Printbuf
  import opened TokenerSpec
  import opened Eating

  /** Where control goes after a state has handled the current character. */
  datatype Jump = RedoChar | Break | Out

  /** The step that a jump stands for. */
  function Did(j: Jump, g: Config, err: Error): Act {
    match j
    case RedoChar => Redo(g)
    case Break => Take(g)
    case Out => Halt(g, err)
  }

  /** The input still to come: `len` bounds it, or a NUL does when `len` is negative. */
  ghost predicate More(w: string, len: int, k: int) {
    0 <= k <= |w| && (len == |w| || (len < 0 && k < |w| && NUL in w[k..]))
  }

  lemma MoreAfter(w: string, len: int, k: nat)
    requires More(w, len, k) && k < |w| && w[k] != NUL
    ensures More(w, len, k + 1)
  {
    assert w[k..] == [w[k]] + w[k + 1..];
  }

  /** What remains of a run at offset k after a jump, c being the character last looked at. */
  ghost function Rest(j: Jump, h: Config, w: string, k: nat, c: char, err: Error): Outcome
    requires Wf(h) && k <= |w| && (j.Break? ==> k < |w|)
  {
    match j
    case RedoChar => Run(h, w, k)
    case Break => if c == NUL then Outcome(h, AtEof(h, Success), k + 1) else Run(h, w, k + 1)
    case Out => Outcome(h, if c == NUL then AtEof(h, err) else err, k)
  }

  /** The configuration after n characters from offset i went to the buffer one at a time. */
  function Fed(g: Config, w: string, i: nat, k: nat): (h: Config)
    requires i <= k <= |w|
    ensures Wf(g) ==> Wf(h)
  {
    g.(pb := g.pb + w[i..k])
  }

  lemma FedNone(g: Config, w: string, i: nat)
    requires i <= |w|
    ensures Fed(g, w, i, i) == g
  {
    assert g.pb + w[i..i] == g.pb;
  }

  lemma FedNext(g: Config, w: string, i: nat, k: nat)
    requires i <= k < |w|
    ensures Fed(g, w, i, k + 1) == Fed(g, w, i, k).(pb := Fed(g, w, i, k).pb + [w[k]])
  {
    assert w[i..k + 1] == w[i..k] + [w[k]];
    assert g.pb + w[i..k + 1] == g.pb + w[i..k] + [w[k]];
  }

  class Tokener {
    const pb: Printbuf
    const stack: array<Frame>
    var depth: int
    var isDouble: bool
    var stPos: nat
    var charOffset: int
    var err: Error
    var ucsChar: nat
    var quoteChar: char

    ghost predicate Allocated()
      reads this, pb, pb.buf, stack
    {
      pb.Valid() && stack.Length == MAX_DEPTH && 0 <= depth < MAX_DEPTH
    }

    /** The levels above `depth` are stale and not part of the abstract state. */
    ghost function Abs(): Config
      requires Allocated()
      reads this, pb, pb.buf, stack
    {
      Config(stack[..depth], stack[depth], pb.Text(), stPos, quoteChar, isDouble, ucsChar)
    }

    ghost predicate Valid()
      reads this, pb, pb.buf, stack
    {
      Allocated() && Wf(Abs())
    }

    /** `json_tokener_new`. */
    constructor ()
      ensures Valid() && Abs() == Init() && err == Success
      ensures fresh(this.pb) && fresh(this.pb.buf) && fresh(this.stack)
    {
      pb := new Printbuf();
      stack := new Frame[MAX_DEPTH](_ => FRESH);
      depth, isDouble, stPos, charOffset, err, ucsChar, quoteChar := 0, false, 0, 0, Success, 0, NUL;
    }

    // ----- The assignments of the switch

    /** `state = s` */
    method SetState(s: State)
      requires Allocated()
      modifies stack
      ensures Allocated() && Abs() == old(Abs()).Goto(s)
    {
      stack[depth] := stack[depth].(state := s);
    }

    /** `saved_state = s; state = json_tokener_state_eatws` */
    method SetThen(s: State)
      requires Allocated()
      modifies stack
      ensures Allocated() && Abs() == old(Abs()).Then(s)
    {
      stack[depth] := stack[depth].(state := Eatws, saved := s);
    }

    /** `current = v; saved_state = json_tokener_state_finish; state = json_tokener_state_eatws` */
    method SetDeliver(v: Json)
      requires Allocated()
      modifies stack
      ensures Allocated() && Abs() == old(Abs()).Deliver(v)
    {
      stack[depth] := stack[depth].(state := Eatws, saved := Finish, current := v);
    }

    method SetTop(f: Frame)
      requires Allocated()
      modifies stack
      ensures Allocated() && Abs() == old(Abs()).(top := f)
    {
      stack[depth] := f;
    }

    method ResetBuf()
      requires Allocated()
      modifies pb, pb.buf
      ensures Allocated() && Abs() == old(Abs()).(pb := "")
      ensures pb.buf == old(pb.buf)
    {
      pb.Reset();
    }

    method Append(s: string)
      requires Allocated()
      modifies pb, pb.buf
      ensures Allocated() && Abs() == old(Abs()).(pb := old(Abs()).pb + s)
      ensures pb.buf == old(pb.buf) || fresh(pb.buf)
    {
      pb.MemAppendFast(s);
    }

    // ----- States that handle one character

    method DoStart(c: char) returns (j: Jump)
      requires Valid() && stack[depth].state.Start?
      modifies `stPos, `quoteChar, `isDouble, `err, stack, pb, pb.buf
      ensures Allocated() && Step(old(Abs()), c) == Did(j, Abs(), err)
      ensures (pb.buf == old(pb.buf) || fresh(pb.buf)) && (j.Out? || err == old(err))
    {
      hide StepBlank, StepFinish, StepNull, StepBoolean, StepNumber, StepText, StepEscape, StepUnicode, StepArray,
        StepObject, TopOk, Goal;
      j := Break;
      if c == '{' {
        SetTop(stack[depth].(state := Eatws, saved := FieldStart, current := Obj([])));
      } else if c == '[' {
        SetTop(stack[depth].(state := Eatws, saved := Array, current := Arr([])));
      } else if c == 'N' || c == 'n' {
        SetState(NullLiteral);
        ResetBuf();
        stPos := 0;
        j := RedoChar;
      } else if c == '"' || c == '\'' {
        SetState(StringBody);
        ResetBuf();
        quoteChar := c;
      } else if c == 'T' || c == 't' || c == 'F' || c == 'f' {
        SetState(Boolean);
        ResetBuf();
        stPos := 0;
        j := RedoChar;
      } else if IsDigit(c) || c == '-' {
        SetState(Number);
        ResetBuf();
        isDouble := false;
        j := RedoChar;
      } else {
        err := UnexpectedError;
        j := Out;
      }
    }

    method DoNull(c: char) returns (j: Jump)
      requires Valid() && stack[depth].state.NullLiteral?
      modifies `stPos, `err, stack, pb, pb.buf
      ensures Allocated() && Step(old(Abs()), c) == Did(j, Abs(), err)
      ensures (pb.buf == old(pb.buf) || fresh(pb.buf)) && (j.Out? || err == old(err))
    {
      hide StepBlank, StepStart, StepFinish, StepBoolean, StepNumber, StepText, StepEscape, StepUnicode, StepArray,
        StepObject, TopOk, Goal, SameNoCase;
      Append([c]);
      if SameNoCase("null", pb.buf[..pb.bpos], Min(stPos + 1, 4)) {
        if stPos == 4 {
          SetDeliver(Null);
          return RedoChar;
        }
      } else {
        err := NullError;
        return Out;
      }
      stPos := stPos + 1;
      j := Break;
    }

    method DoBoolean(c: char) returns (j: Jump)
      requires Valid() && stack[depth].state.Boolean?
      modifies `stPos, `err, stack, pb, pb.buf
      ensures Allocated() && Step(old(Abs()), c) == Did(j, Abs(), err)
      ensures (pb.buf == old(pb.buf) || fresh(pb.buf)) && (j.Out? || err == old(err))
    {
      hide StepBlank, StepStart, StepFinish, StepNull, StepNumber, StepText, StepEscape, StepUnicode, StepArray,
        StepObject, TopOk, Goal, SameNoCase;
      Append([c]);
      if SameNoCase("true", pb.buf[..pb.bpos], Min(stPos + 1, 4)) {
        if stPos == 4 {
          SetDeliver(Bool(true));
          return RedoChar;
        }
      } else if SameNoCase("false", pb.buf[..pb.bpos], Min(stPos + 1, 5)) {
        if stPos == 5 {
          SetDeliver(Bool(false));
          return RedoChar;
        }
      } else {
        err := BooleanError;
        return Out;
      }
      stPos := stPos + 1;
      j := Break;
    }

    method DoCommentEdge(c: char) returns (j: Jump)
      requires Valid() && (stack[depth].state.CommentStart? || stack[depth].state.CommentEnd?)
      modifies `err, stack, pb, pb.buf
      ensures Allocated() && Step(old(Abs()), c) == Did(j, Abs(), err)
      ensures (pb.buf == old(pb.buf) || fresh(pb.buf)) && (j.Out? || err == old(err))
    {
      hide StepStart, StepFinish, StepNull, StepBoolean, StepNumber, StepText, StepEscape, StepUnicode, StepArray,
        StepObject, TopOk, Goal;
      if stack[depth].state.CommentEnd? {
        Append([c]);
        SetState(if c == '/' then Eatws else Comment);
        return Break;
      }
      if c == '*' {
        SetState(Comment);
      } else if c == '/' {
        SetState(CommentEol);
      } else {
        err := CommentError;
        return Out;
      }
      Append([c]);
      j := Break;
    }

    method DoEscape(c: char) returns (j: Jump)
      requires Valid() && stack[depth].state.StringEscape?
      modifies `stPos, `ucsChar, `err, stack, pb, pb.buf
      ensures Allocated() && Step(old(Abs()), c) == Did(j, Abs(), err)
      ensures (pb.buf == old(pb.buf) || fresh(pb.buf)) && (j.Out? || err == old(err))
    {
      hide StepBlank, StepStart, StepFinish, StepNull, StepBoolean, StepNumber, StepText, StepUnicode, StepArray,
        StepObject, TopOk, Goal;
      j := Break;
      if c == '"' || c == '\\' || c == '/' {
        Append([c]);
        SetState(stack[depth].saved);
      } else if c == 'b' || c == 'n' || c == 'r' || c == 't' {
        Append(if c == 'b' then "\U{0008}" else if c == 'n' then "\n" else if c == 'r' then "\r" else "\t");
        SetState(stack[depth].saved);
      } else if c == 'u' {
        ucsChar := 0;
        stPos := 0;
        SetState(EscapeUnicode);
      } else {
        err := StringError;
        j := Out;
      }
    }

    /** `state = waiting; depth++; reset_level(depth)` */
    method Open(waiting: State) returns (j: Jump)
      requires Allocated()
      modifies `depth, `err, stack
      ensures Allocated()
      ensures if old(depth) + 1 >= MAX_DEPTH
              then j == Out && err == DepthError && Abs() == old(Abs())
              else j == RedoChar && err == old(err) &&
                   Abs() == old(Abs()).(lower := old(Abs()).lower + [old(Abs()).top.(state := waiting)], top := FRESH)
    {
      if depth >= MAX_DEPTH - 1 {
        err := DepthError;
        return Out;
      }
      stack[depth] := stack[depth].(state := waiting);
      depth := depth + 1;
      stack[depth] := FRESH;
      j := RedoChar;
    }

    method DoArray(c: char) returns (j: Jump)
      requires Valid() && (stack[depth].state.Array? || stack[depth].state.ArraySep?)
      modifies `depth, `err, stack
      ensures Allocated() && Step(old(Abs()), c) == Did(j, Abs(), err)
      ensures j.Out? || err == old(err)
    {
      hide StepBlank, StepStart, StepFinish, StepNull, StepBoolean, StepNumber, StepText, StepEscape, StepUnicode,
        StepObject, TopOk, Goal;
      j := Break;
      if c == ']' {
        SetThen(Finish);
      } else if stack[depth].state.Array? {
        j := Open(ArrayAdd);
      } else if c == ',' {
        SetThen(Array);
      } else {
        err := ArrayError;
        j := Out;
      }
    }

    method DoObject(c: char) returns (j: Jump)
      requires Valid() && stack[depth].state in {FieldStart, FieldEnd, Value, ObjectSep}
      modifies `depth, `quoteChar, `err, stack, pb, pb.buf
      ensures Allocated() && Step(old(Abs()), c) == Did(j, Abs(), err)
      ensures pb.buf == old(pb.buf) && (j.Out? || err == old(err))
    {
      hide StepBlank, StepStart, StepFinish, StepNull, StepBoolean, StepNumber, StepText, StepEscape, StepUnicode,
        StepArray, TopOk, Goal;
      j := Break;
      var state := stack[depth].state;
      if state.FieldStart? {
        if c == '}' {
          SetThen(Finish);
        } else if c == '"' || c == '\'' {
          quoteChar := c;
          ResetBuf();
          SetState(Field);
        } else {
          err := KeyNameError;
          j := Out;
        }
      } else if state.FieldEnd? {
        if c == ':' {
          SetThen(Value);
        } else {
          err := KeySepError;
          j := Out;
        }
      } else if state.Value? {
        j := Open(ValueAdd);
      } else if c == '}' {
        SetThen(Finish);
      } else if c == ',' {
        SetThen(FieldStart);
      } else {
        err := ValueSepError;
        j := Out;
      }
    }

    /** `finish`, and the `array_add` or `object_value_add` that the jump to redo_char then always
        meets: the level below is waiting for this value, which the local variable obj carries. */
    method DoFinish(c: char) returns (j: Jump)
      requires Valid() && stack[depth].state.Finish?
      modifies `depth, stack
      ensures Allocated() && Step(old(Abs()), c) == Did(j, Abs(), Success)
    {
      hide StepBlank, StepStart, StepNull, StepBoolean, StepNumber, StepText, StepEscape, StepUnicode, StepArray,
        StepObject, TopOk, Goal;
      if depth == 0 {
        return Out;
      }
      assert Waiting(Abs().lower[depth - 1]);
      var obj := stack[depth].current;
      stack[depth] := FRESH;
      depth := depth - 1;
      var f := stack[depth];
      if f.state.ArrayAdd? {
        stack[depth] := f.(current := Arr(f.current.items + [obj]), saved := ArraySep, state := Eatws);
      } else {
        stack[depth] := f.(current := Obj(AddMember(f.current.members, f.field.value, obj)), field := None,
                           saved := ObjectSep, state := Eatws);
      }
      j := RedoChar;
    }

    // ----- States that read on in a loop of their own

    /** POP_CHAR: look at the current character, or say why there is none. */
    method PopChar(w: string, len: int, c0: char) returns (ok: bool, c: char)
      requires Allocated() && More(w, len, charOffset)
      modifies `err
      ensures ok <==> charOffset < |w|
      ensures if ok then c == w[charOffset] && err == old(err) else c == c0 && err == Exhausted(Abs())
    {
      if charOffset == len {
        err := if depth == 0 && stack[depth].state.Eatws? && stack[depth].saved.Finish? then Success else Continue;
        return false, c0;
      }
      return true, w[charOffset];
    }

    /** Where a state with a loop of its own starts: at the character c of the input. */
    ghost predicate At(w: string, len: int, c: char)
      reads this, pb, pb.buf, stack
    {
      Valid() && More(w, len, charOffset) && charOffset < |w| && w[charOffset] == c && err == Success
    }

    /** Where it leaves off, for a run that it took up in configuration g at offset i. */
    ghost predicate LeftOff(j: Jump, g: Config, w: string, i: nat, len: int, c: char)
      reads this, pb, pb.buf, stack
    {
      && Valid() && Wf(g) && i <= charOffset <= |w|
      && (!j.Out? ==> At(w, len, c))
      && Run(g, w, i) == Rest(j, Abs(), w, charOffset, c, err)
    }

    /** The loop over white space; not ok: the input ended in it. */
    method SkipBlanks(w: string, len: int, c0: char) returns (ok: bool, c: char)
      requires At(w, len, c0) && stack[depth].state.Eatws?
      modifies `charOffset, `err
      ensures Valid() && Abs() == old(Abs()) && old(charOffset) <= charOffset <= |w|
      ensures ok ==> At(w, len, c) && !IsSpace(c)
      ensures !ok ==> charOffset == |w| && c != NUL && err == Exhausted(Abs())
      ensures Run(Abs(), w, old(charOffset)) == Run(Abs(), w, charOffset)
    {
      hide Run, Step, AtEof, Exhausted;
      c := c0;
      while IsSpace(c)
        invariant At(w, len, c) && Abs() == old(Abs()) && old(charOffset) <= charOffset
        invariant Run(Abs(), w, old(charOffset)) == Run(Abs(), w, charOffset)
        decreases |w| - charOffset
      {
        BlankStep(Abs(), w, charOffset);
        MoreAfter(w, len, charOffset);
        charOffset := charOffset + 1;
        ok, c := PopChar(w, len, c);
        if !ok {
          return;
        }
      }
      ok := true;
    }

    method DoEatws(w: string, len: int, c0: char) returns (j: Jump, c: char)
      requires At(w, len, c0) && stack[depth].state.Eatws?
      modifies `charOffset, `err, stack, pb, pb.buf
      ensures LeftOff(j, old(Abs()), w, old(charOffset), len, c)
      ensures j.RedoChar? ==> charOffset > old(charOffset) || Rank(Abs().top) < Rank(old(Abs()).top)
      ensures pb.buf == old(pb.buf) || fresh(pb.buf)
    {
      hide Run, Step, AtEof, Exhausted, Rank;
      ghost var g := Abs();
      var ok;
      ok, c := SkipBlanks(w, len, c0);
      if !ok {
        RunEnd(g, w);
        j := Out;
      } else if c == '/' {
        ResetBuf();
        Append([c]);
        SetState(CommentStart);
        SlashStep(g, Abs(), w, charOffset);
        j := Break;
      } else {
        SetState(stack[depth].saved);
        TokenStep(g, Abs(), w, charOffset);
        j := RedoChar;
      }
    }

    /** The loops over comments, strings and field names: up to one of two characters that mean
        something, with one append when the input or the string ends first. */
    method ScanPlain(w: string, len: int, c0: char, a: char, b: char) returns (ok: bool, c: char)
      requires At(w, len, c0) && Plain(Abs(), a, b)
      modifies `charOffset, `err, pb, pb.buf
      ensures Valid() && old(charOffset) <= charOffset <= |w|
      ensures ok ==> At(w, len, c) && (c == a || c == b) && Abs() == old(Abs())
      ensures ok ==>
        Run(old(Abs()), w, old(charOffset)) == Run(Fed(old(Abs()), w, old(charOffset), charOffset), w, charOffset)
      ensures !ok ==> Run(old(Abs()), w, old(charOffset)) == Rest(Out, Abs(), w, charOffset, c, err)
      ensures pb.buf == old(pb.buf) || fresh(pb.buf)
    {
      hide Run, Step, AtEof, Exhausted, Fed;
      ghost var g := Abs();
      var caseStart := charOffset;
      FedNone(g, w, caseStart);
      c := c0;
      while c != a && c != b
        invariant At(w, len, c) && Abs() == g && caseStart <= charOffset && pb.buf == old(pb.buf)
        invariant Run(g, w, caseStart) == Run(Fed(g, w, caseStart, charOffset), w, charOffset)
        decreases |w| - charOffset
      {
        PlainStep(g, a, b, w, caseStart, charOffset);
        if c != NUL {
          MoreAfter(w, len, charOffset);
        }
        charOffset := charOffset + 1;
        ok := c != NUL;
        if ok {
          ok, c := PopChar(w, len, c);
        }
        if !ok {
          AppendSlice(w, caseStart, charOffset);
          PlainEnd(g, w, caseStart, charOffset);
          return;
        }
      }
      ok := true;
    }

    method AppendSlice(w: string, i: int, k: int)
      requires Allocated() && 0 <= i <= k <= |w|
      modifies pb, pb.buf
      ensures Allocated() && Abs() == Fed(old(Abs()), w, i, k)
      ensures pb.buf == old(pb.buf) || fresh(pb.buf)
    {
      Append(w[i..k]);
    }

    method DoComment(w: string, len: int, c0: char) returns (j: Jump, c: char)
      requires At(w, len, c0) && stack[depth].state.Comment?
      modifies `charOffset, `err, stack, pb, pb.buf
      ensures !j.RedoChar? && LeftOff(j, old(Abs()), w, old(charOffset), len, c)
      ensures pb.buf == old(pb.buf) || fresh(pb.buf)
    {
      hide Run, Step, AtEof, Exhausted, Fed, TopOk, Waiting;
      ghost var g := Abs();
      var caseStart := charOffset;
      var ok;
      ok, c := ScanPlain(w, len, c0, '*', '*');
      if !ok {
        return Out, c;
      }
      AppendSlice(w, caseStart, charOffset + 1);
      SetState(CommentEnd);
      StarStep(g, Abs(), w, caseStart, charOffset);
      j := Break;
    }

    method DoCommentEol(w: string, len: int, c0: char) returns (j: Jump, c: char)
      requires At(w, len, c0) && stack[depth].state.CommentEol?
      modifies `charOffset, `err, stack, pb, pb.buf
      ensures !j.RedoChar? && LeftOff(j, old(Abs()), w, old(charOffset), len, c)
      ensures pb.buf == old(pb.buf) || fresh(pb.buf)
    {
      hide Run, Step, AtEof, Exhausted, Fed, TopOk, Waiting;
      ghost var g := Abs();
      var caseStart := charOffset;
      var ok;
      ok, c := ScanPlain(w, len, c0, '\n', '\n');
      if !ok {
        return Out, c;
      }
      AppendSlice(w, caseStart, charOffset);
      SetState(Eatws);
      NewlineStep(g, Abs(), w, caseStart, charOffset);
      j := Break;
    }

    /** At the closing quote the text becomes a value or a name; at a backslash an escape begins. */
    method EndText(c: char)
      requires Allocated()
      modifies stack
      ensures Allocated() && Abs() == TextEnded(old(Abs()), c)
    {
      var state := stack[depth].state;
      if c != quoteChar {
        SetTop(stack[depth].(saved := state, state := StringEscape));
      } else if state.StringBody? {
        SetDeliver(Str(CString(pb.buf[..pb.bpos])));
      } else {
        SetTop(stack[depth].(field := Some(CString(pb.buf[..pb.bpos])), saved := FieldEnd, state := Eatws));
      }
    }

    /** The bodies of strings and of field names, which differ only in where the text goes. */
    method DoText(w: string, len: int, c0: char) returns (j: Jump, c: char)
      requires At(w, len, c0) && (stack[depth].state.StringBody? || stack[depth].state.Field?)
      modifies `charOffset, `err, stack, pb, pb.buf
      ensures !j.RedoChar? && LeftOff(j, old(Abs()), w, old(charOffset), len, c)
      ensures pb.buf == old(pb.buf) || fresh(pb.buf)
    {
      hide Run, Step, AtEof, Exhausted, TopOk, Waiting, Fed, TextEnded;
      ghost var g := Abs();
      var caseStart := charOffset;
      var ok;
      ok, c := ScanPlain(w, len, c0, quoteChar, '\\');
      if !ok {
        return Out, c;
      }
      AppendSlice(w, caseStart, charOffset);
      EndText(c);
      TextStep(g, Abs(), w, caseStart, charOffset);
      j := Break;
    }

    /** One digit of a unicode escape. */
    method DoHexDigit(c: char) returns (j: Jump)
      requires Valid() && stack[depth].state.EscapeUnicode?
      modifies `stPos, `ucsChar, `err, stack, pb, pb.buf
      ensures Allocated() && Step(old(Abs()), c) == Did(j, Abs(), err) && !j.RedoChar?
      ensures (pb.buf == old(pb.buf) || fresh(pb.buf)) && (j.Out? || err == old(err))
    {
      hide StepBlank, StepStart, StepFinish, StepNull, StepBoolean, StepNumber, StepText, StepEscape, StepArray,
        StepObject, TopOk, Goal;
      if !InHexChars(c) {
        err := StringError;
        return Out;
      }
      ucsChar := AddHexDigit(ucsChar, c, stPos);
      stPos := stPos + 1;
      if stPos == 4 {
        Append(Utf8(ucsChar));
        SetState(stack[depth].saved);
      }
      j := Break;
    }

    /** One digit and the step behind it; not going: the escape is complete, or wrong, or the input ended in it. */
    method UnicodeStep(w: string, len: int, c0: char) returns (going: bool, j: Jump, c: char)
      requires At(w, len, c0) && stack[depth].state.EscapeUnicode?
      modifies `charOffset, `stPos, `ucsChar, `err, stack, pb, pb.buf
      ensures going ==> At(w, len, c) && stack[depth].state.EscapeUnicode? && charOffset > old(charOffset)
                        && Run(old(Abs()), w, old(charOffset)) == Run(Abs(), w, charOffset)
      ensures !going ==> !j.RedoChar? && LeftOff(j, old(Abs()), w, old(charOffset), len, c)
      ensures pb.buf == old(pb.buf) || fresh(pb.buf)
    {
      hide Run, Step, AtEof, Exhausted, TopOk, Waiting, Wf, Rank;
      ghost var h := Abs();
      c := c0;
      j := DoHexDigit(c);
      if j.Out? {
        RunHalt(h, Abs(), err, w, charOffset);
        return false, j, c;
      }
      RunTake(h, Abs(), w, charOffset);
      if !stack[depth].state.EscapeUnicode? {
        return false, j, c;
      }
      if c == NUL {
        charOffset := charOffset + 1;
        return false, Out, c;
      }
      MoreAfter(w, len, charOffset);
      charOffset := charOffset + 1;
      going, c := PopChar(w, len, c);
      if !going {
        RunEnd(Abs(), w);
        j := Out;
      }
    }

    method DoUnicode(w: string, len: int, c0: char) returns (j: Jump, c: char)
      requires At(w, len, c0) && stack[depth].state.EscapeUnicode?
      modifies `charOffset, `stPos, `ucsChar, `err, stack, pb, pb.buf
      ensures !j.RedoChar? && LeftOff(j, old(Abs()), w, old(charOffset), len, c)
      ensures pb.buf == old(pb.buf) || fresh(pb.buf)
    {
      hide Run, Step, AtEof, Exhausted, TopOk, Waiting, Wf, Rank;
      ghost var g, i := Abs(), charOffset;
      var going := true;
      j, c := Break, c0;
      while going
        invariant pb.buf == old(pb.buf) || fresh(pb.buf)
        invariant going ==> At(w, len, c) && i <= charOffset && stack[depth].state.EscapeUnicode?
                            && Run(g, w, i) == Run(Abs(), w, charOffset)
        invariant !going ==> !j.RedoChar? && LeftOff(j, g, w, i, len, c)
        decreases going, |w| - charOffset
      {
        going, j, c := UnicodeStep(w, len, c);
      }
    }

    /** One character of a number, which stays in the input until the batch is appended. */
    method TakeNumberChar(w: string, len: int, c0: char, caseStart: nat) returns (ok: bool, c: char)
      requires At(w, len, c0) && stack[depth].state.Number? && IsNumberChar(c0) && caseStart <= charOffset
      modifies `charOffset, `isDouble, `err
      ensures Valid() && old(charOffset) < charOffset <= |w| && stack[depth].state.Number?
      ensures ok ==> At(w, len, c)
      ensures !ok ==> charOffset == |w| && c != NUL && err == Exhausted(Abs())
      ensures Run(Fed(old(Abs()), w, caseStart, old(charOffset)), w, old(charOffset))
           == Run(Fed(Abs(), w, caseStart, charOffset), w, charOffset)
    {
      hide Run, Step, AtEof, Exhausted, Fed, TopOk, Waiting, Wf, Rank;
      NumberStep(Abs(), w, caseStart, charOffset);
      c := c0;
      if c == '.' || c == 'e' {
        FlagKeepsWf(Abs(), true);
        isDouble := true;
      }
      MoreAfter(w, len, charOffset);
      charOffset := charOffset + 1;
      ok, c := PopChar(w, len, c);
    }

    /** The loop over the characters of a number; not ok: the input ended in it. */
    method ScanNumber(w: string, len: int, c0: char) returns (ok: bool, c: char)
      requires At(w, len, c0) && stack[depth].state.Number?
      modifies `charOffset, `isDouble, `err, pb, pb.buf
      ensures Valid() && old(charOffset) <= charOffset <= |w| && stack[depth].state.Number?
      ensures ok ==> At(w, len, c) && !IsNumberChar(c)
      ensures !ok ==> charOffset == |w| && c != NUL && err == Exhausted(Abs())
      ensures Run(old(Abs()), w, old(charOffset)) == Run(Abs(), w, charOffset)
      ensures pb.buf == old(pb.buf) || fresh(pb.buf)
    {
      hide Run, Step, AtEof, Exhausted, Fed, TopOk, Waiting, Rank;
      ghost var g := Abs();
      var caseStart := charOffset;
      FedNone(g, w, caseStart);
      ok, c := true, c0;
      while ok && IsNumberChar(c)
        invariant Valid() && caseStart <= charOffset <= |w| && stack[depth].state.Number? && pb.buf == old(pb.buf)
        invariant ok ==> At(w, len, c)
        invariant !ok ==> charOffset == |w| && c != NUL && err == Exhausted(Abs())
        invariant Run(g, w, caseStart) == Run(Fed(Abs(), w, caseStart, charOffset), w, charOffset)
        decreases |w| - charOffset
      {
        ok, c := TakeNumberChar(w, len, c, caseStart);
      }
      ExhaustedFed(Abs(), w, caseStart, charOffset);
      if charOffset > caseStart {
        AppendSlice(w, caseStart, charOffset);
      } else {
        FedNone(Abs(), w, caseStart);
      }
    }

    /** `sscanf` on the text of the number, by its kind. */
    method ConvertNumber() returns (j: Jump)
      requires Allocated()
      modifies `err, stack
      ensures Allocated()
      ensures match NumberValue(old(Abs()))
              case Some(v) => j == RedoChar && Abs() == old(Abs()).Deliver(v) && err == old(err)
              case None => j == Out && Abs() == old(Abs()) && err == NumberError
    {
      var text := CString(pb.buf[..pb.bpos]);
      var i := ScanInt(text);
      if !isDouble && i.Some? {
        SetDeliver(Int(i.value));
      } else if isDouble && ScansDouble(text) {
        SetDeliver(Double(text));
      } else {
        err := NumberError;
        return Out;
      }
      j := RedoChar;
    }

    method DoNumber(w: string, len: int, c0: char) returns (j: Jump, c: char)
      requires At(w, len, c0) && stack[depth].state.Number?
      modifies `charOffset, `isDouble, `err, stack, pb, pb.buf
      ensures LeftOff(j, old(Abs()), w, old(charOffset), len, c)
      ensures j.RedoChar? ==> charOffset > old(charOffset) || Rank(Abs().top) < Rank(old(Abs()).top)
      ensures pb.buf == old(pb.buf) || fresh(pb.buf)
    {
      hide Run, Step, AtEof, Exhausted, TopOk, Waiting, NumberValue;
      var ok;
      ok, c := ScanNumber(w, len, c0);
      ghost var h := Abs();
      if !ok {
        RunEnd(h, w);
        return Out, c;
      }
      NumberEnds(h, w, charOffset);
      j := ConvertNumber();
    }

    /** The states without a loop of their own. */
    method DoOne(c: char) returns (j: Jump)
      requires Valid() && !HasLoop(stack[depth].state)
      modifies `depth, `stPos, `ucsChar, `quoteChar, `isDouble, `err, stack, pb, pb.buf
      ensures Allocated() && Step(old(Abs()), c) == Did(j, Abs(), err)
      ensures (pb.buf == old(pb.buf) || fresh(pb.buf)) && (j.Out? || err == old(err))
    {
      hide Step;
      match stack[depth].state {
        case Start => j := DoStart(c);
        case NullLiteral => j := DoNull(c);
        case Boolean => j := DoBoolean(c);
        case CommentStart => j := DoCommentEdge(c);
        case CommentEnd => j := DoCommentEdge(c);
        case StringEscape => j := DoEscape(c);
        case Array => j := DoArray(c);
        case ArraySep => j := DoArray(c);
        case FieldStart => j := DoObject(c);
        case FieldEnd => j := DoObject(c);
        case Value => j := DoObject(c);
        case ObjectSep => j := DoObject(c);
        case Finish =>
          j := DoFinish(c);
          if j.Out? { err := Success; }
        case _ => assert false;
      }
    }

    /** The states that scan plain text. */
    method DoScan(w: string, len: int, c0: char) returns (j: Jump, c: char)
      requires At(w, len, c0)
      requires stack[depth].state in {Comment, CommentEol, StringBody, Field, EscapeUnicode}
      modifies `charOffset, `stPos, `ucsChar, `err, stack, pb, pb.buf
      ensures !j.RedoChar? && LeftOff(j, old(Abs()), w, old(charOffset), len, c)
      ensures pb.buf == old(pb.buf) || fresh(pb.buf)
    {
      hide Run, Step, AtEof, Exhausted, TopOk, Waiting, Rank;
      var state := stack[depth].state;
      if state.Comment? {
        j, c := DoComment(w, len, c0);
      } else if state.CommentEol? {
        j, c := DoCommentEol(w, len, c0);
      } else if state.EscapeUnicode? {
        j, c := DoUnicode(w, len, c0);
      } else {
        j, c := DoText(w, len, c0);
      }
    }

    /** The switch, on any state. */
    method DoState(w: string, len: int, c0: char) returns (j: Jump, c: char)
      requires At(w, len, c0)
      modifies `charOffset, `depth, `stPos, `ucsChar, `quoteChar, `isDouble, `err, stack, pb, pb.buf
      ensures LeftOff(j, old(Abs()), w, old(charOffset), len, c)
      ensures j.RedoChar? ==> charOffset > old(charOffset) || Rank(Abs().top) < Rank(old(Abs()).top)
      ensures pb.buf == old(pb.buf) || fresh(pb.buf)
    {
      hide Run, Step, AtEof, Exhausted, TopOk, Waiting, Rank;
      var state := stack[depth].state;
      if state.Eatws? {
        j, c := DoEatws(w, len, c0);
      } else if state.Number? {
        j, c := DoNumber(w, len, c0);
      } else if HasLoop(state) {
        j, c := DoScan(w, len, c0);
      } else {
        ghost var g := Abs();
        j := DoOne(c0);
        c := c0;
        DidOne(j, g, Abs(), err, w, charOffset);
      }
    }

    /** One character, `redo_char` jumps included. */
    method DoChar(w: string, len: int, c0: char) returns (j: Jump, c: char)
      requires At(w, len, c0)
      modifies `charOffset, `depth, `stPos, `ucsChar, `quoteChar, `isDouble, `err, stack, pb, pb.buf
      ensures !j.RedoChar? && LeftOff(j, old(Abs()), w, old(charOffset), len, c)
      ensures pb.buf == old(pb.buf) || fresh(pb.buf)
    {
      hide Run, Step, AtEof, Exhausted, TopOk, Waiting, Rank;
      j, c := RedoChar, c0;
      while j.RedoChar?
        invariant LeftOff(j, old(Abs()), w, old(charOffset), len, c)
        invariant pb.buf == old(pb.buf) || fresh(pb.buf)
        decreases j.RedoChar?, |w| - charOffset, Rank(Abs().top)
      {
        j, c := DoState(w, len, c);
      }
    }

    /** The label `out`: the check for a NUL in the middle of a value, and the value to return. */
    method LeaveWith(c: char) returns (obj: Json)
      requires Allocated()
      modifies `err
      ensures err == if c == NUL then AtEof(Abs(), old(err)) else old(err)
      ensures obj == if err == Success then Abs().top.current else Null
    {
      if c == NUL && !stack[depth].state.Finish? && !stack[depth].saved.Finish? {
        err := EofError;
      }
      obj := if err == Success then stack[depth].current else Null;
    }

    /** The head of the main loop and its foot: one character, if there is one, and the step behind it. */
    method DoNext(w: string, len: int, c0: char) returns (more: bool, c: char)
      requires Valid() && More(w, len, charOffset) && err == Success && c0 != NUL
      modifies `charOffset, `depth, `stPos, `ucsChar, `quoteChar, `isDouble, `err, stack, pb, pb.buf
      ensures Valid() && old(charOffset) <= charOffset <= |w|
      ensures more ==> More(w, len, charOffset) && charOffset > old(charOffset) && err == Success && c != NUL
                       && Run(old(Abs()), w, old(charOffset)) == Run(Abs(), w, charOffset)
      ensures !more ==> Run(old(Abs()), w, old(charOffset))
                        == Outcome(Abs(), if c == NUL then AtEof(Abs(), err) else err, charOffset)
      ensures pb.buf == old(pb.buf) || fresh(pb.buf)
    {
      hide Run, Step, AtEof, Exhausted, TopOk, Waiting, Rank, Wf;
      var ok;
      ok, c := PopChar(w, len, c0);
      if !ok {
        RunEnd(Abs(), w);
        return false, c;
      }
      var j;
      j, c := DoChar(w, len, c);
      if j.Out? {
        return false, c;
      }
      charOffset := charOffset + 1;
      if c != NUL {
        MoreAfter(w, len, charOffset - 1);
      }
      more := c != NUL;
    }

    /** `json_tokener_parse_ex`: take up where the last call left off, on the next piece of input. The
        input is w up to `len`, or up to its NUL when `len` is negative. */
    method ParseEx(w: string, len: int) returns (obj: Json)
      requires Valid() && More(w, len, 0)
      modifies this, stack, pb, pb.buf
      ensures Valid() && 0 <= charOffset && Outcome(Abs(), err, charOffset) == Run(old(Abs()), w, 0)
      ensures obj == Returned(Run(old(Abs()), w, 0))
      ensures pb.buf == old(pb.buf) || fresh(pb.buf)
    {
      hide Run, Step, AtEof, Exhausted, TopOk, Waiting, Rank, Wf;
      ghost var g := Abs();
      charOffset := 0;
      err := Success;
      var c := '\U{0001}';
      var more := true;
      while more
        invariant Valid() && 0 <= charOffset <= |w| && (pb.buf == old(pb.buf) || fresh(pb.buf))
        invariant more ==> More(w, len, charOffset) && err == Success && c != NUL
                           && Run(g, w, 0) == Run(Abs(), w, charOffset)
        invariant !more ==> Run(g, w, 0) == Outcome(Abs(), if c == NUL then AtEof(Abs(), err) else err, charOffset)
        decreases more, |w| - charOffset
      {
        more, c := DoNext(w, len, c);
      }
      obj := LeaveWith(c);
    }
  }

  /** `json_tokener_parse` on a C string. */
  method ParseString(str: string) returns (p: Parsed)
    requires NUL in str
    ensures p == Parse(str)
  {
    hide Run;
    var tok := new Tokener();
    assert str[0..] == str;
    var obj := tok.ParseEx(str, -1);
    p := if tok.err == Success then Ok(obj) else Failed(tok.err);
  }

  predicate HasLoop(s: State) {
    s.Eatws? || s.Comment? || s.CommentEol? || s.StringBody? || s.Field? || s.EscapeUnicode? || s.Number?
  }

  /** One step and its jump, within a run. */
  lemma DidOne(j: Jump, g: Config, h: Config, err: Error, w: string, k: nat)
    requires Wf(g) && k < |w| && Step(g, w[k]) == Did(j, h, err)
    ensures Wf(h) && Run(g, w, k) == Rest(j, h, w, k, w[k], err)
    ensures j.RedoChar? ==> Rank(h.top) < Rank(g.top)
  {
    hide Run;
    match j
    case RedoChar => RunRedo(g, h, w, k);
    case Break => RunTake(g, h, w, k);
    case Out => RunHalt(g, h, err, w, k);
  }

  /** A state that appends every character but a and b. */
  ghost predicate Plain(g: Config, a: char, b: char) {
    || (g.top.state.Comment? && a == b == '*')
    || (g.top.state.CommentEol? && a == b == '\n')
    || ((g.top.state.StringBody? || g.top.state.Field?) && a == g.quote && b == '\\')
  }

  lemma PlainStep(g: Config, a: char, b: char, w: string, i: nat, k: nat)
    requires Wf(g) && Plain(g, a, b) && i <= k < |w| && w[k] != a && w[k] != b
    ensures
      var h := Fed(g, w, i, k + 1);
      Run(Fed(g, w, i, k), w, k)
        == if w[k] == NUL then Outcome(h, AtEof(h, Success), k + 1) else Run(h, w, k + 1)
  {
    hide Run;
    FedNext(g, w, i, k);
    RunTake(Fed(g, w, i, k), Fed(g, w, i, k + 1), w, k);
  }

  lemma StarStep(g: Config, h: Config, w: string, i: nat, k: nat)
    requires Wf(g) && g.top.state.Comment? && i <= k < |w| && w[k] == '*'
    requires h == Fed(g, w, i, k + 1).Goto(CommentEnd)
    ensures Wf(h) && Run(Fed(g, w, i, k), w, k) == Run(h, w, k + 1)
  {
    hide Run;
    FedNext(g, w, i, k);
    RunTake(Fed(g, w, i, k), h, w, k);
  }

  lemma NewlineStep(g: Config, h: Config, w: string, i: nat, k: nat)
    requires Wf(g) && g.top.state.CommentEol? && i <= k < |w| && w[k] == '\n'
    requires h == Fed(g, w, i, k).Goto(Eatws)
    ensures Wf(h) && Run(Fed(g, w, i, k), w, k) == Run(h, w, k + 1)
  {
    hide Run;
    RunTake(Fed(g, w, i, k), h, w, k);
  }

  ghost function TextEnded(f: Config, c: char): Config {
    if c != f.quote then f.(top := f.top.(saved := f.top.state, state := StringEscape))
    else if f.top.state.StringBody? then f.Deliver(Str(CString(f.pb)))
    else f.(top := f.top.(field := Some(CString(f.pb)), saved := FieldEnd, state := Eatws))
  }

  lemma TextStep(g: Config, h: Config, w: string, i: nat, k: nat)
    requires Wf(g) && (g.top.state.StringBody? || g.top.state.Field?) && i <= k < |w|
    requires w[k] == g.quote || w[k] == '\\'
    requires h == TextEnded(Fed(g, w, i, k), w[k])
    ensures Wf(h)
    ensures Run(Fed(g, w, i, k), w, k)
         == if w[k] == NUL then Outcome(h, AtEof(h, Success), k + 1) else Run(h, w, k + 1)
  {
    hide Run;
    RunTake(Fed(g, w, i, k), h, w, k);
  }

  lemma NumberStep(g: Config, w: string, i: nat, k: nat)
    requires Wf(g) && g.top.state.Number? && i <= k < |w| && IsNumberChar(w[k])
    ensures Run(Fed(g, w, i, k), w, k)
         == Run(Fed(g.(isDouble := g.isDouble || w[k] == '.' || w[k] == 'e'), w, i, k + 1), w, k + 1)
  {
    hide Run;
    FedNext(g, w, i, k);
    RunTake(Fed(g, w, i, k), Fed(g.(isDouble := g.isDouble || w[k] == '.' || w[k] == 'e'), w, i, k + 1), w, k);
  }

  lemma FlagKeepsWf(g: Config, flag: bool)
    requires Wf(g)
    ensures Wf(g.(isDouble := flag))
  {
  }

  lemma ExhaustedFed(g: Config, w: string, i: nat, k: nat)
    requires i <= k <= |w|
    ensures Exhausted(Fed(g, w, i, k)) == Exhausted(g)
  {
  }

  /** A character that is not part of the number ends it. */
  lemma NumberEnds(h: Config, w: string, k: nat)
    requires Wf(h) && h.top.state.Number? && k < |w| && !IsNumberChar(w[k])
    ensures match NumberValue(h)
            case Some(v) => Wf(h.Deliver(v)) && Run(h, w, k) == Run(h.Deliver(v), w, k)
                            && Rank(h.Deliver(v).top) < Rank(h.top)
            case None => Run(h, w, k) == Outcome(h, if w[k] == NUL then AtEof(h, NumberError) else NumberError, k)
  {
    hide Run;
    match NumberValue(h)
    case Some(v) => RunRedo(h, h.Deliver(v), w, k);
    case None => RunHalt(h, h, NumberError, w, k);
  }

  /** At the end of the input the batch has been appended, and POP_CHAR has set the error. */
  lemma PlainEnd(g: Config, w: string, i: nat, k: nat)
    requires Wf(g) && i <= k <= |w|
    ensures k == |w| ==> Run(Fed(g, w, i, k), w, k) == Outcome(Fed(g, w, i, k), Exhausted(g), k)
    ensures Wf(Fed(g, w, i, k))
  {
    if k == |w| {
      RunEnd(Fed(g, w, i, k), w);
    }
  }

  lemma BlankStep(g: Config, w: string, k: nat)
    requires Wf(g) && g.top.state.Eatws? && k < |w| && IsSpace(w[k])
    ensures Run(g, w, k) == Run(g, w, k + 1)
  {
    hide Run;
    RunTake(g, g, w, k);
  }

  lemma RunEnd(g: Config, w: string)
    requires Wf(g)
    ensures Run(g, w, |w|) == Outcome(g, Exhausted(g), |w|)
  {
  }

  lemma SlashStep(g: Config, h: Config, w: string, k: nat)
    requires Wf(g) && g.top.state.Eatws? && k < |w| && w[k] == '/'
    requires h == g.(pb := "" + [w[k]]).Goto(CommentStart)
    ensures Wf(h) && Run(g, w, k) == Run(h, w, k + 1)
  {
    hide Run;
    assert "" + [w[k]] == [w[k]];
    RunTake(g, h, w, k);
  }

  lemma TokenStep(g: Config, h: Config, w: string, k: nat)
    requires Wf(g) && g.top.state.Eatws? && k < |w| && !IsSpace(w[k]) && w[k] != '/'
    requires h == g.Goto(g.top.saved)
    ensures Wf(h) && Run(g, w, k) == Run(h, w, k) && Rank(h.top) < Rank(g.top)
  {
    hide Run;
    RunRedo(g, h, w, k);
  }
}
