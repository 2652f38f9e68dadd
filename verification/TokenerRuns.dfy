/** Whole runs of the tokener: resuming after any cut of the input. */
module TokenerRuns {
  import opened Common
  import opened Json
  import opened TokenerSpec

  /** The call consumed its whole input and met no NUL: it stopped for want of characters. */
  ghost predicate RanOut(o: Outcome, s: string, i: nat) {
    o.err.Continue? || (o.offset == |s| && forall k :: i <= k < |s| ==> s[k] != NUL)
  }

  /** A run that ran out, followed by a run on more input, is one run on both inputs. */
  lemma {:induction false} ChunkedIsWhole(g: Config, a: string, b: string, i: nat)
    requires Wf(g) && i <= |a|
    requires RanOut(Run(g, a, i), a, i)
    ensures
      var first := Run(g, a, i);
      var second := Run(first.cfg, b, 0);
      Run(g, a + b, i) == Outcome(second.cfg, second.err, |a| + second.offset)
    decreases |a| - i
  {
    hide Feed;
    if i == |a| {
      ShiftInput(g, a, b, 0);
    } else {
      assert (a + b)[i] == a[i];
      assert Feed(g, a[i]).Take? && a[i] != NUL;
      ChunkedIsWhole(Feed(g, a[i]).cfg, a, b, i + 1);
    }
  }

  /** Only the characters still to come matter to a run. */
  lemma {:induction false} ShiftInput(g: Config, a: string, b: string, j: nat)
    requires Wf(g) && j <= |b|
    ensures
      var o := Run(g, b, j);
      Run(g, a + b, |a| + j) == Outcome(o.cfg, o.err, |a| + o.offset)
    decreases |b| - j
  {
    hide Feed;
    if j < |b| {
      assert (a + b)[|a| + j] == b[j];
      var f := Feed(g, b[j]);
      if f.Take? && b[j] != NUL {
        ShiftInput(f.cfg, a, b, j + 1);
      }
    }
  }

  /** A run that stopped before the end of its input is not changed by more input. */
  lemma {:induction false} MoreInputIgnored(g: Config, a: string, b: string, i: nat)
    requires Wf(g) && i <= |a|
    requires !RanOut(Run(g, a, i), a, i)
    ensures Run(g, a + b, i) == Run(g, a, i)
    decreases |a| - i
  {
    hide Feed;
    assert (a + b)[i] == a[i];
    var f := Feed(g, a[i]);
    if f.Take? && a[i] != NUL {
      MoreInputIgnored(f.cfg, a, b, i + 1);
    }
  }

  // ----- Any number of calls

  function Concat(chunks: seq<string>): string {
    if chunks == [] then "" else chunks[0] + Concat(chunks[1..])
  }

  /** The caller's protocol: hand over the chunks one by one for as long as the answer is `continue`. */
  function Calls(g: Config, chunks: seq<string>): (o: Outcome)
    requires Wf(g)
    ensures Wf(o.cfg)
    decreases |chunks|
  {
    if chunks == [] then Outcome(g, Continue, 0)
    else
      var o := Run(g, chunks[0], 0);
      if o.err.Continue? && |chunks| > 1 then
        var rest := Calls(o.cfg, chunks[1..]);
        Outcome(rest.cfg, rest.err, |chunks[0]| + rest.offset)
      else o
  }

  /** No call but the last reports success: the caller goes on exactly while there is more to parse. */
  ghost predicate Pursued(g: Config, chunks: seq<string>)
    requires Wf(g)
    decreases |chunks|
  {
    && chunks != []
    && (|chunks| > 1 ==>
          var o := Run(g, chunks[0], 0);
          && !o.err.Success?
          && (o.err.Continue? ==> Pursued(o.cfg, chunks[1..])))
  }

  lemma {:induction false} RanOutError(g: Config, s: string, i: nat)
    requires Wf(g) && i <= |s| && RanOut(Run(g, s, i), s, i)
    ensures Run(g, s, i).err.Continue? || Run(g, s, i).err.Success?
    decreases |s| - i
  {
    hide Feed;
    if i < |s| {
      assert Feed(g, s[i]).Take? && s[i] != NUL;
      RanOutError(Feed(g, s[i]).cfg, s, i + 1);
    }
  }

  /** Wherever the input is cut, the calls leave exactly what one call on the whole input leaves. */
  lemma {:induction false} AnyCutIsWhole(g: Config, chunks: seq<string>)
    requires Wf(g) && Pursued(g, chunks)
    ensures Run(g, Concat(chunks), 0) == Calls(g, chunks)
    decreases |chunks|
  {
    hide Run;
    var first, rest := chunks[0], chunks[1..];
    if rest == [] {
      assert first + "" == first;
    } else {
      var o := Run(g, first, 0);
      if o.err.Continue? {
        AnyCutIsWhole(o.cfg, rest);
        ChunkedIsWhole(g, first, Concat(rest), 0);
      } else {
        if RanOut(o, first, 0) { RanOutError(g, first, 0); }
        MoreInputIgnored(g, first, Concat(rest), 0);
      }
    }
  }
}
