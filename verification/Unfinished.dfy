/** Texts that end too soon. */
module Unfinished {
  import opened Common
  import opened Json
  import opened TokenerSpec
  import opened Eating
  import opened TokenerRuns
  import opened Grammar
  import opened GrammarValues

  // ----- What a NUL does to a text that is not finished

  /** The mark of a finished level is there only behind its value, and a text has its quote. */
  predicate Settled(g: Config) {
    && Wf(g)
    && (g.top.saved.Finish? ==> g.top.state.Eatws? || g.top.state.Finish? || IsCommentState(g.top.state))
    && (Goal(g.top).StringBody? || Goal(g.top).Field? ==> g.quote == '"' || g.quote == '\'')
  }

  predicate IsTextState(s: State) {
    s.StringBody? || s.Field? || IsEscapeState(s)
  }

  lemma SettledInText(g: Config, c: char)
    requires Settled(g) && IsTextState(g.top.state)
    ensures Settled(Step(g, c).cfg)
  {
    hide CString, InHexChars, AddHexDigit, Utf8, StepBlank, StepStart, StepFinish, StepNull, StepBoolean, StepNumber,
      StepArray, StepObject;
  }

  predicate IsScalarState(s: State) {
    s.NullLiteral? || s.Boolean? || s.Number?
  }

  predicate IsBlankState(s: State) {
    s.Eatws? || IsCommentState(s)
  }

  lemma SettledInBlanks(g: Config, c: char)
    requires Settled(g) && IsBlankState(g.top.state)
    ensures Settled(Step(g, c).cfg)
  {
    hide StepText, StepEscape, StepUnicode, StepStart, StepFinish, StepNull, StepBoolean, StepNumber, StepArray, StepObject;
  }

  lemma SettledInLiteral(g: Config, c: char)
    requires Settled(g) && (g.top.state.NullLiteral? || g.top.state.Boolean?)
    ensures Settled(Step(g, c).cfg)
  {
    hide CString, SameNoCase, StepBlank, StepText, StepEscape, StepUnicode, StepFinish, StepStart, StepNumber, StepArray,
      StepObject;
  }

  lemma SettledInNumber(g: Config, c: char)
    requires Settled(g) && (g.top.state.Number? || g.top.state.Start?)
    ensures Settled(Step(g, c).cfg)
  {
    hide CString, NumberValue, IsNumberChar, StepBlank, StepText, StepEscape, StepUnicode, StepFinish, StepNull,
      StepBoolean, StepArray, StepObject;
  }

  lemma SettledInScalar(g: Config, c: char)
    requires Settled(g) && (IsScalarState(g.top.state) || g.top.state.Start?)
    ensures Settled(Step(g, c).cfg)
  {
    hide Step, Settled;
    if g.top.state.Number? || g.top.state.Start? {
      SettledInNumber(g, c);
    } else {
      SettledInLiteral(g, c);
    }
  }

  lemma SettledElsewhere(g: Config, c: char)
    requires Settled(g) && !IsTextState(g.top.state) && !IsBlankState(g.top.state)
    requires !IsScalarState(g.top.state) && !g.top.state.Start?
    ensures Settled(Step(g, c).cfg)
  {
    hide AddMember, StepBlank, StepText, StepEscape, StepUnicode, StepStart, StepNull, StepBoolean, StepNumber;
  }

  lemma StepSettled(g: Config, c: char)
    requires Settled(g)
    ensures Settled(Step(g, c).cfg)
  {
    hide Step;
    if IsTextState(g.top.state) {
      SettledInText(g, c);
    } else if IsBlankState(g.top.state) {
      SettledInBlanks(g, c);
    } else if IsScalarState(g.top.state) || g.top.state.Start? {
      SettledInScalar(g, c);
    } else {
      SettledElsewhere(g, c);
    }
  }

  /** The value at the bottom is complete, or the NUL completes it. */
  predicate Completed(g: Config)
    requires Wf(g)
  {
    g.lower == [] && (Goal(g.top).Finish? || (IsScalarState(g.top.state) && Step(g, NUL).Redo?))
  }

  /** A comment behind a value that is complete: the level counts as finished. */
  predicate CommentBehind(g: Config) {
    IsCommentState(g.top.state) && g.top.saved.Finish?
  }

  predicate Marked(g: Config) {
    g.top.state.Finish? || g.top.saved.Finish?
  }

  /** One look at the NUL: a text that is not complete does not become complete, and is not marked as finished. */
  lemma NulStep(g: Config)
    requires Settled(g) && !Completed(g) && !CommentBehind(g)
    ensures var a := Step(g, NUL);
            && Settled(a.cfg)
            && (a.Redo? ==> !Completed(a.cfg) && !CommentBehind(a.cfg))
            && (!a.Redo? ==> !Marked(a.cfg))
  {
    hide Step, Completed;
    StepSettled(g, NUL);
    if IsTextState(g.top.state) {
      NulInText(g);
    } else if IsBlankState(g.top.state) {
      NulInBlanks(g);
    } else if IsScalarState(g.top.state) || g.top.state.Start? {
      NulInScalar(g);
    } else {
      NulElsewhere(g);
    }
  }

  lemma NulInText(g: Config)
    requires Settled(g) && IsTextState(g.top.state)
    ensures !Step(g, NUL).Redo? && !Marked(Step(g, NUL).cfg)
  {
    hide CString, InHexChars, AddHexDigit, Utf8, StepBlank, StepStart, StepFinish, StepNull, StepBoolean, StepNumber,
      StepArray, StepObject;
  }

  /** What NulStep says, for some of the states. */
  ghost predicate NulGoesOn(g: Config)
    requires Wf(g)
  {
    var a := Step(g, NUL);
    && (a.Redo? ==> Wf(a.cfg) && !Completed(a.cfg) && !CommentBehind(a.cfg))
    && (!a.Redo? ==> !Marked(a.cfg))
  }

  lemma NulInBlanks(g: Config)
    requires Settled(g) && !Completed(g) && !CommentBehind(g) && IsBlankState(g.top.state)
    ensures NulGoesOn(g)
  {
    hide StepText, StepEscape, StepUnicode, StepStart, StepFinish, StepNull, StepBoolean, StepNumber, StepArray, StepObject;
  }

  lemma NulInScalar(g: Config)
    requires Settled(g) && !Completed(g) && (IsScalarState(g.top.state) || g.top.state.Start?)
    ensures NulGoesOn(g)
  {
    hide CString, SameNoCase, NumberValue, StepBlank, StepText, StepEscape, StepUnicode, StepFinish, StepArray, StepObject;
    NulIsNoNumberChar();
  }

  lemma NulElsewhere(g: Config)
    requires Settled(g) && !Completed(g) && !IsTextState(g.top.state) && !IsBlankState(g.top.state)
    requires !IsScalarState(g.top.state) && !g.top.state.Start?
    ensures NulGoesOn(g)
  {
    hide AddMember, StepBlank, StepText, StepEscape, StepUnicode, StepStart, StepNull, StepBoolean, StepNumber;
  }

  lemma NulIsNoNumberChar()
    ensures !IsNumberChar(NUL)
  {
  }

  lemma {:induction false} NulRefused(g: Config)
    requires Settled(g) && !Completed(g) && !CommentBehind(g)
    ensures !Feed(g, NUL).Redo? && !Marked(Feed(g, NUL).cfg)
    decreases Rank(g.top)
  {
    hide Step, Completed;
    NulStep(g);
    if Step(g, NUL).Redo? {
      FeedRedo(g, NUL);
      NulRefused(Step(g, NUL).cfg);
    } else {
      FeedTake(g, NUL);
    }
  }

  lemma {:induction false} FeedSettled(g: Config, c: char)
    requires Settled(g)
    ensures Settled(Feed(g, c).cfg)
    decreases Rank(g.top)
  {
    hide Step, Settled;
    assert Wf(g) by { IsWf(g); }
    StepSettled(g, c);
    if Step(g, c).Redo? {
      FeedRedo(g, c);
      FeedSettled(Step(g, c).cfg, c);
    } else {
      FeedTake(g, c);
    }
  }

  lemma IsWf(g: Config)
    requires Settled(g)
    ensures Wf(g)
  {
  }

  lemma {:induction false} RunSettled(g: Config, s: string, i: nat)
    requires Settled(g) && i <= |s|
    ensures Settled(Run(g, s, i).cfg)
    decreases |s| - i
  {
    hide Feed;
    if i < |s| {
      FeedSettled(g, s[i]);
      if Feed(g, s[i]).Take? && s[i] != NUL {
        RunSettled(Feed(g, s[i]).cfg, s, i + 1);
      }
    }
  }

  /** The other half: a complete value is returned, and a slash behind it is an error of its own. */
  lemma NulAccepted(g: Config)
    requires Settled(g) && Exhausted(g).Continue? && (Completed(g) || CommentBehind(g))
    ensures !Run(g, [NUL], 0).err.EofError?
  {
    hide Feed, CString, SameNoCase, NumberValue, StepText, StepEscape, StepUnicode, StepArray, StepObject;
    if CommentBehind(g) {
      FeedTake(g, NUL);
    } else if g.top.state.Finish? {
      FeedTake(g, NUL);
    } else {
      ScalarDone(g);
    }
  }

  lemma ScalarDelivers(g: Config)
    requires Settled(g) && IsScalarState(g.top.state) && Step(g, NUL).Redo?
    ensures var h := Step(g, NUL).cfg;
            Wf(h) && h.lower == g.lower && h.top.state.Eatws? && h.top.saved.Finish?
  {
    hide CString, SameNoCase, NumberValue, IsNumberChar, StepBlank, StepStart, StepFinish, StepText, StepEscape,
      StepUnicode, StepArray, StepObject;
  }

  lemma DoneAtNul(h: Config)
    requires Wf(h) && h.lower == [] && h.top.state.Eatws? && h.top.saved.Finish?
    ensures Feed(h, NUL) == Halt(h.Goto(Finish), Success)
  {
    hide Feed, StepStart, StepNull, StepBoolean, StepNumber, StepText, StepEscape, StepUnicode, StepArray, StepObject;
    FeedRedo(h, NUL);
    FeedTake(h.Goto(Finish), NUL);
  }

  lemma ScalarDone(g: Config)
    requires Settled(g) && g.lower == [] && IsScalarState(g.top.state) && Step(g, NUL).Redo?
    ensures !Run(g, [NUL], 0).err.EofError?
  {
    hide Feed, Step;
    ScalarDelivers(g);
    FeedRedo(g, NUL);
    DoneAtNul(Step(g, NUL).cfg);
  }

  /** A text that the tokener would go on reading, ended by the NUL: it is refused as unfinished exactly when its
      value at the bottom is not complete and it does not end in a comment behind a complete value. */
  lemma UnfinishedIff(s: string)
    requires NUL !in s && Run(Init(), s, 0).err.Continue?
    ensures var m := Run(Init(), s, 0).cfg;
            Parse(s + [NUL]) == Failed(EofError) <==> !Completed(m) && !CommentBehind(m)
  {
    hide Feed, Step, Completed;
    var m := Run(Init(), s, 0).cfg;
    RunSettled(Init(), s, 0);
    ChunkedIsWhole(Init(), s, [NUL], 0);
    RanOutThere(Init(), s, 0);
    if !Completed(m) && !CommentBehind(m) {
      NulRefused(m);
    } else {
      NulAccepted(m);
    }
  }

  lemma {:induction false} RanOutThere(g: Config, s: string, i: nat)
    requires Wf(g) && i <= |s| && NUL !in s && Run(g, s, i).err.Continue?
    ensures Run(g, s, i).offset == |s| && Exhausted(Run(g, s, i).cfg).Continue?
    decreases |s| - i
  {
    hide Feed;
    if i < |s| {
      assert s[i] in s;
      RanOutThere(Feed(g, s[i]).cfg, s, i + 1);
    }
  }

  /** The input of the other kind: a comment behind the element hides that the array has no end, and the element is
      returned. */
  lemma CommentHidesTheEnd()
    ensures Parse("[[]/*" + [NUL]) == Ok(Arr([]))
  {
    hide Parse, Run;
    var s := "[[]/*" + [NUL];
    ParseIsRead(s);
    assert s[1..] == "[]/*" + [NUL] && s[2..] == "]/*" + [NUL] && s[3..] == "/*" + [NUL] && s[5..] == [NUL];
    assert s[1..][1..] == s[2..] && s[2..][1..] == s[3..] && s[3..][2..] == s[5..];
    assert Grammar.InBlock(s[5..], false) == NulInside([NUL][1..]);
    assert Blanks(s[3..]) == NulInside([NUL][1..]);
    assert ReadItemsEnd(s[3..], Arr([]), [Arr([])], 0) == Over(Ending(Ok(Arr([])), [NUL][1..]));
    assert ReadItems(s[2..], [], 1) == Got(Arr([]), s[3..]);
    assert ReadBare(s[1..], 1) == Got(Arr([]), s[3..]);
    assert [] + [Arr([])] == [Arr([])];
    assert ReadItems(s[1..], [], 0) == Over(Ending(Ok(Arr([])), [NUL][1..]));
    assert Blanks(s) == Past(s);
  }
}
