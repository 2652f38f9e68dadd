/** The machine reads every text as the grammar says. */
module GrammarRuns {
  import opened Common
  import opened Json
  import opened TokenerSpec
  import opened Eating
  import opened Grammar

  // ----- Runs on what is left of the input

  /** How a run ends: its tokener, its error, and what it has not consumed. */
  datatype Stop = Stop(cfg: Config, err: Error, rest: string)

  function RunOn(g: Config, t: string): (p: Stop)
    requires Wf(g)
    ensures Wf(p.cfg) && |p.rest| <= |t|
    decreases |t|
  {
    if t == "" then Stop(g, Exhausted(g), "")
    else
      match Feed(g, t[0])
      case Take(h) => if t[0] == NUL then Stop(h, AtEof(h, Success), t[1..]) else RunOn(h, t[1..])
      case Halt(h, e) => Stop(h, if t[0] == NUL then AtEof(h, e) else e, t)
  }

  lemma {:induction false} RunIsRunOn(g: Config, s: string, i: nat)
    requires Wf(g) && i <= |s|
    ensures var p := RunOn(g, s[i..]);
            Run(g, s, i) == Outcome(p.cfg, p.err, |s| - |p.rest|)
    decreases |s| - i
  {
    hide Feed;
    if i < |s| {
      assert s[i..][0] == s[i] && s[i..][1..] == s[i + 1..];
      var f := Feed(g, s[i]);
      if f.Take? && s[i] != NUL {
        RunIsRunOn(f.cfg, s, i + 1);
      }
    }
  }

  /** The run gives the result of this ending and stops where it does. */
  ghost predicate Gives(p: Stop, e: Ending) {
    && p.rest == e.rest
    && match e.res
       case Ok(v) => p.err.Success? && p.cfg.top.current == v
       case Failed(err) => p.err == err && !err.Success?
  }

  lemma OnTake(g: Config, k: Config, t: string)
    requires Wf(g) && t != "" && Step(g, t[0]) == Take(k)
    ensures Wf(k)
    ensures RunOn(g, t) == if t[0] == NUL then Stop(k, AtEof(k, Success), t[1..]) else RunOn(k, t[1..])
  {
    hide Feed, Step;
    FeedTake(g, t[0]);
  }

  lemma OnRedo(g: Config, k: Config, t: string)
    requires Wf(g) && t != "" && Step(g, t[0]) == Redo(k)
    ensures Wf(k) && RunOn(g, t) == RunOn(k, t)
  {
    hide Feed, Step;
    FeedRedo(g, t[0]);
  }

  lemma OnHalt(g: Config, k: Config, e: Error, t: string)
    requires Wf(g) && t != "" && Step(g, t[0]) == Halt(k, e)
    ensures Wf(k) && RunOn(g, t) == Stop(k, if t[0] == NUL then AtEof(k, e) else e, t)
  {
    hide Feed, Step;
    FeedTake(g, t[0]);
  }

  /** A state that waits for more is left where it is when the input ends. */
  lemma OnEnd(g: Config)
    requires Wf(g)
    ensures RunOn(g, "") == Stop(g, Exhausted(g), "")
  {
  }

  /** A halt on a wrong character. */
  lemma OnWrong(g: Config, k: Config, e: Error, t: string)
    requires Wf(g) && t != "" && Step(g, t[0]) == Halt(k, e) && !e.Success?
    requires !k.top.state.Finish? && !k.top.saved.Finish?
    ensures Gives(RunOn(g, t), Wrong(e, t))
  {
    hide Step, Feed, RunOn;
    OnHalt(g, k, e, t);
  }

  // ----- White space and comments

  /** How the call ends in a gap that does not end, with v as the value so far. */
  function GapEnd(gap: Gap, saved: State, v: Json): Ending
    requires !gap.Past? && (gap.NoComment? ==> gap.rest != "")
  {
    if saved.Finish? then UnendedAfter(gap, v) else Unended(gap)
  }

  /** The gap is passed with nothing changed but the buffer, or the call ends in it. */
  ghost predicate Passes(g: Config, p: Stop, gap: Gap, h: Config)
    requires gap.NoComment? ==> gap.rest != ""
  {
    match gap
    case Past(u) => Wf(h) && h == g.(pb := h.pb) && p == RunOn(h, u)
    case _ => Gives(p, GapEnd(gap, g.top.saved, g.top.current))
  }

  lemma {:induction false} RunBlanks(g: Config, t: string) returns (h: Config)
    requires Wf(g) && g.top.state.Eatws?
    ensures Passes(g, RunOn(g, t), Blanks(t), h)
    decreases |t|, 1
  {
    hide Feed, RunOn;
    h := g;
    if t == "" {
      return;
    } else if IsSpace(t[0]) {
      OnTake(g, g, t);
      h := RunBlanks(g, t[1..]);
    } else if t[0] == '/' {
      var k := g.Goto(CommentStart).(pb := "/");
      OnTake(g, k, t);
      h := RunSlash(g, k, t);
    }
  }

  /** Behind the slash. */
  lemma {:induction false} RunSlash(g: Config, k: Config, t: string) returns (h: Config)
    requires Wf(g) && g.top.state.Eatws? && t != "" && t[0] == '/' && !IsSpace(t[0])
    requires Wf(k) && k == g.Goto(CommentStart).(pb := k.pb)
    ensures Passes(g, RunOn(k, t[1..]), Blanks(t), h)
    decreases |t|, 0
  {
    hide Feed, RunOn;
    h := g;
    var u := t[1..];
    if u == "" {
      OnEnd(k);
    } else if u[0] == '*' {
      var b := k.Goto(Comment).(pb := k.pb + [u[0]]);
      OnTake(k, b, u);
      assert u[1..] == t[2..];
      h := RunBlock(g, b, t[2..], false);
    } else if u[0] == '/' {
      var b := k.Goto(CommentEol).(pb := k.pb + [u[0]]);
      OnTake(k, b, u);
      assert u[1..] == t[2..];
      h := RunLine(g, b, t[2..]);
    } else {
      OnHalt(k, k, CommentError, u);
    }
  }

  lemma {:induction false} RunLine(g: Config, k: Config, t: string) returns (h: Config)
    requires Wf(g) && g.top.state.Eatws? && Wf(k) && k == g.Goto(CommentEol).(pb := k.pb)
    ensures Passes(g, RunOn(k, t), Grammar.InLine(t), h)
    decreases |t|, 0
  {
    hide Feed, RunOn;
    h := g;
    if t == "" {
      OnEnd(k);
    } else if t[0] == '\n' {
      OnTake(k, k.Goto(Eatws), t);
      h := RunBlanks(k.Goto(Eatws), t[1..]);
    } else {
      var n := k.(pb := k.pb + [t[0]]);
      OnTake(k, n, t);
      if t[0] != NUL {
        h := RunLine(g, n, t[1..]);
      }
    }
  }

  lemma {:induction false} RunBlock(g: Config, k: Config, t: string, star: bool) returns (h: Config)
    requires Wf(g) && g.top.state.Eatws?
    requires Wf(k) && k == g.Goto(if star then CommentEnd else Comment).(pb := k.pb)
    ensures Passes(g, RunOn(k, t), Grammar.InBlock(t, star), h)
    decreases |t|, 0
  {
    hide Feed, RunOn;
    h := g;
    if t == "" {
      OnEnd(k);
    } else {
      var closes := star && t[0] == '/';
      var opens := !star && t[0] == '*';
      var n := k.Goto(if closes then Eatws else if opens then CommentEnd else Comment).(pb := k.pb + [t[0]]);
      OnTake(k, n, t);
      if t[0] == NUL {
      } else if closes {
        h := RunBlanks(n, t[1..]);
      } else {
        h := RunBlock(g, n, t[1..], opens);
      }
    }
  }
}
