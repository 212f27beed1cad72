/**
 * Exactly when a Send may take an identifier: what goes wrong when something is still on the way under it, which
 * happens between the two halves of Close.
 */
module AppLateSends {
  import opened Base
  import opened AppProtocol

  lemma RunExtended(states: seq<State>, steps: seq<Step>, e: Step)
    requires Run(states, steps) && Enabled(states[|steps|], e)
    ensures Run(states + [Apply(states[|steps|], e)], steps + [e])
  {
    hide Enabled, Apply;
    var more, taken := states + [Apply(states[|steps|], e)], steps + [e];
    forall i | 0 <= i < |taken|
      ensures Enabled(more[i], taken[i]) && more[i + 1] == Apply(more[i], taken[i])
    {
      if i < |steps| {
        assert Enabled(states[i], steps[i]) && states[i + 1] == Apply(states[i], steps[i]);
      }
    }
  }

  /** A longer run that begins no further Send. */
  ghost predicate Continues(states: seq<State>, steps: seq<Step>, more: seq<State>, taken: seq<Step>) {
    && Run(states, steps) && Run(more, taken) && states <= more && steps <= taken
    && forall k :: |steps| <= k < |taken| ==> !taken[k].Add?
  }

  /** Send `n` has an answer, though nothing was computed for it. */
  ghost predicate Misled(s: State, first: bool, n: nat) {
    n in s.At(first).got && s.At(first).got[n].Answered? && n !in s.At(!first).computed
  }

  /** Send `n` waits on the identifier, and nothing was computed for it. */
  ghost predicate Exposed(s: State, first: bool, id: Byte, n: nat) {
    id in s.At(first).chans && s.At(first).chans[id] == n && n !in s.At(!first).computed
  }

  /** Reading on delivers a response under the identifier to whoever waits on it. */
  lemma {:induction false} ResponseMisleads(states: seq<State>, steps: seq<Step>, first: bool, id: Byte, n: nat,
                                            r: Reply)
    returns (more: seq<State>, taken: seq<Step>)
    requires Run(states, steps) && Exposed(states[|steps|], first, id, n)
    requires r.id == id && Response(r) in states[|steps|].At(!first).out
    ensures Continues(states, steps, more, taken) && Misled(more[|taken|], first, n)
    decreases |states[|steps|].At(!first).out|
  {
    var s := states[|steps|];
    var x, f := s.At(first), s.At(!first).out[0];
    var e := if f.Request? then TakeRequest(first) else TakeResponse(first);
    RunExtended(states, steps, e);
    more, taken := states + [Apply(s, e)], steps + [e];
    if f.Response? && f.reply.id in x.chans && x.chans[f.reply.id] == n {
      return;
    }
    assert f != Response(r);
    var m, t := ResponseMisleads(more, taken, first, id, n, r);
    more, taken := m, t;
  }

  /** A handler of another Send under the identifier can answer, and the answer goes to whoever waits. */
  lemma HandlerMisleads(states: seq<State>, steps: seq<Step>, first: bool, id: Byte, n: nat, k: nat)
    returns (more: seq<State>, taken: seq<Step>)
    requires Run(states, steps) && Exposed(states[|steps|], first, id, n)
    requires var y := states[|steps|].At(!first); k < |y.handlers| && y.handlers[k].id == id && y.handlers[k].uid != n
    ensures Continues(states, steps, more, taken) && Misled(more[|taken|], first, n)
  {
    var s := states[|steps|];
    var h, answer := s.At(!first).handlers[k], Answer(true, []);
    var e := Finish(!first, k, answer);
    RunExtended(states, steps, e);
    assert Response(Reply(id, answer, h.uid)) in Apply(s, e).At(!first).out;
    more, taken := ResponseMisleads(states + [Apply(s, e)], steps + [e], first, id, n, Reply(id, answer, h.uid));
  }

  /** A written request of another Send under the identifier reaches a handler. */
  lemma {:induction false} RequestMisleads(states: seq<State>, steps: seq<Step>, first: bool, id: Byte, n: nat, c: Call)
    returns (more: seq<State>, taken: seq<Step>)
    requires Run(states, steps) && Exposed(states[|steps|], first, id, n)
    requires c.id == id && c.uid != n && Request(c) in states[|steps|].At(first).out
    ensures Continues(states, steps, more, taken) && Misled(more[|taken|], first, n)
    decreases |states[|steps|].At(first).out|
  {
    var s := states[|steps|];
    var y, f := s.At(!first), s.At(first).out[0];
    var e := if f.Request? then TakeRequest(!first) else TakeResponse(!first);
    RunExtended(states, steps, e);
    if f == Request(c) {
      more, taken := HandlerMisleads(states + [Apply(s, e)], steps + [e], first, id, n, |y.handlers|);
    } else {
      more, taken := RequestMisleads(states + [Apply(s, e)], steps + [e], first, id, n, c);
    }
  }

  /** A draft of another Send under the identifier gets written. */
  lemma DraftMisleads(states: seq<State>, steps: seq<Step>, first: bool, id: Byte, n: nat, k: nat)
    returns (more: seq<State>, taken: seq<Step>)
    requires Run(states, steps) && Exposed(states[|steps|], first, id, n)
    requires var x := states[|steps|].At(first); k < |x.drafts| && x.drafts[k].id == id && x.drafts[k].uid != n
    ensures Continues(states, steps, more, taken) && Misled(more[|taken|], first, n)
  {
    var s := states[|steps|];
    var e := Write(first, k);
    RunExtended(states, steps, e);
    var c := s.At(first).drafts[k];
    assert Request(c) in Apply(s, e).At(first).out;
    more, taken := RequestMisleads(states + [Apply(s, e)], steps + [e], first, id, n, c);
  }

  /** Something other than Send `n` is on the way under the identifier. */
  ghost predicate OtherOnWay(x: End, y: End, id: Byte, n: nat) {
    || (exists k :: 0 <= k < |x.drafts| && x.drafts[k].id == id && x.drafts[k].uid != n)
    || (exists c :: Request(c) in x.out && c.id == id && c.uid != n)
    || (exists k :: 0 <= k < |y.handlers| && y.handlers[k].id == id && y.handlers[k].uid != n)
    || (exists r :: Response(r) in y.out && r.id == id)
  }

  lemma OtherMisleads(states: seq<State>, steps: seq<Step>, first: bool, id: Byte, n: nat)
    returns (more: seq<State>, taken: seq<Step>)
    requires Run(states, steps) && Exposed(states[|steps|], first, id, n)
    requires OtherOnWay(states[|steps|].At(first), states[|steps|].At(!first), id, n)
    ensures Continues(states, steps, more, taken) && Misled(more[|taken|], first, n)
  {
    var x, y := states[|steps|].At(first), states[|steps|].At(!first);
    hide Run, Exposed, Misled, Continues;
    if c :| Request(c) in x.out && c.id == id && c.uid != n {
      more, taken := RequestMisleads(states, steps, first, id, n, c);
    } else if r :| Response(r) in y.out && r.id == id {
      more, taken := ResponseMisleads(states, steps, first, id, n, r);
    } else if k :| 0 <= k < |y.handlers| && y.handlers[k].id == id && y.handlers[k].uid != n {
      more, taken := HandlerMisleads(states, steps, first, id, n, k);
    } else {
      var k :| 0 <= k < |x.drafts| && x.drafts[k].id == id && x.drafts[k].uid != n;
      more, taken := DraftMisleads(states, steps, first, id, n, k);
    }
  }

  /** The Send has taken the identifier and written its request. */
  lemma Begun(s: State, first: bool, payload: seq<Byte>) returns (t: State)
    requires Enabled(s, Add(first, payload)) && ViewOf(s, first).Known()
    ensures var x, y, n := s.At(first), s.At(!first), |s.At(first).sent|;
            var s1, id := Apply(s, Add(first, payload)), FirstFree(x.chans, 0).value;
            && Enabled(s1, Write(first, |x.drafts|)) && t == Apply(s1, Write(first, |x.drafts|))
            && Exposed(t, first, id, n)
            && t.At(!first) == y && t.At(first).drafts == x.drafts
            && t.At(first).out == x.out + [Request(Call(id, payload, n))]
  {
    hide FirstFree, Calls, Replies;
    var x := s.At(first);
    var c := Call(FirstFree(x.chans, 0).value, payload, |x.sent|);
    assert (x.drafts + [c])[..|x.drafts|] + (x.drafts + [c])[|x.drafts| + 1..] == x.drafts;
    t := Apply(Apply(s, Add(first, payload)), Write(first, |x.drafts|));
  }

  /** Whatever is on the way belongs to an earlier Send. */
  lemma EarlierUids(x: End, y: End)
    requires View(x, y).Known()
    ensures forall c :: c in x.drafts || Request(c) in x.out || c in y.handlers ==> c.uid < |x.sent|
  {
    FrameMembers(x.out);
    EarlyMembers(x, y);
    hide Calls, Replies;
  }

  lemma UnsafeMeansOther(x: End, y: End, x': End, id: Byte)
    requires View(x, y).Known() && !NothingOnWay(x, y, id)
    requires x'.drafts == x.drafts && forall f :: f in x.out ==> f in x'.out
    ensures OtherOnWay(x', y, id, |x.sent|)
  {
    EarlierUids(x, y);
    hide View;
    if f :| f in x.out && f.Request? && f.call.id == id {
      assert f == Request(f.call);
    } else if f :| f in y.out && f.Response? && f.reply.id == id {
      assert f == Response(f.reply);
    } else if h :| h in y.handlers && h.id == id {
      var k :| 0 <= k < |y.handlers| && y.handlers[k] == h;
    } else {
      var c :| c in x.drafts && c.id == id;
      var k :| 0 <= k < |x.drafts| && x.drafts[k] == c;
    }
  }

  /**
   * In any state of any run, a Send that takes an identifier under which something is on the way may be given an
   * answer that was computed for another: a continuation leads there, in which no other Send begins.
   */
  lemma UnsafeSendIsMisled(states: seq<State>, steps: seq<Step>, first: bool, payload: seq<Byte>)
    returns (more: seq<State>, taken: seq<Step>)
    requires Run(states, steps) && states[0] == INITIAL && Enabled(states[|steps|], Add(first, payload))
    requires !Safe(states[|steps|], Add(first, payload))
    ensures var s, e := states[|steps|], Add(first, payload);
            Continues(states + [Apply(s, e)], steps + [e], more, taken)
    ensures Misled(more[|taken|], first, |states[|steps|].At(first).sent|)
  {
    var s, add := states[|steps|], Add(first, payload);
    var x, id, write := s.At(first), FirstFree(s.At(first).chans, 0).value, Write(first, |s.At(first).drafts|);
    RunKnown(states, steps, |steps|, first);
    var t := Begun(s, first, payload);
    UnsafeMeansOther(x, s.At(!first), t.At(first), id);
    var s1 := Apply(s, add);
    hide Run, Enabled, Apply, FirstFree, Exposed, Misled, OtherOnWay, NothingOnWay, Exchange.Known;
    RunExtended(states, steps, add);
    RunExtended(states + [s1], steps + [add], write);
    more, taken := OtherMisleads(states + [s1] + [t], steps + [add] + [write], first, id, |x.sent|);
  }

  /** Every answer returned so far, at either end, was computed for the Send that returned it. */
  ghost predicate AllOwn(s: State) {
    forall first: bool :: ViewOf(s, first).Correlated()
  }

  lemma MisledIsNotOwn(s: State, first: bool, n: nat)
    requires Misled(s, first, n)
    ensures !AllOwn(s)
  {
    assert !ViewOf(s, first).Correlated();
  }

  lemma SafeContinuation(states: seq<State>, steps: seq<Step>, more: seq<State>, taken: seq<Step>)
    requires Continues(states, steps, more, taken) && states[0] == INITIAL && SafeUpTo(states, steps, |steps|)
    ensures AllOwn(more[|taken|])
  {
    hide Enabled, Apply;
    forall k | 0 <= k < |taken|
      ensures Safe(more[k], taken[k])
    {
      if k < |steps| {
        assert more[k] == states[k] && taken[k] == steps[k] && Safe(states[k], steps[k]);
      } else {
        assert !taken[k].Add?;
      }
    }
    RunGood(more, taken, |taken|, true);
    RunGood(more, taken, |taken|, false);
    hide ViewOf, Exchange.Correlated;
    forall first: bool
      ensures ViewOf(more[|taken|], first).Correlated()
    {
      if first {
      } else {
      }
    }
  }

  /**
   * Exactly when a Send is safe: after a run of safe Sends, whether or not its end has begun to close, every
   * continuation of the next one without another Send is correlated if and only if nothing is on the way under the
   * identifier it takes.
   */
  lemma SendSafeIff(states: seq<State>, steps: seq<Step>, first: bool, payload: seq<Byte>)
    requires Run(states, steps) && states[0] == INITIAL && SafeUpTo(states, steps, |steps|)
    requires Enabled(states[|steps|], Add(first, payload))
    ensures var s, e := states[|steps|], Add(first, payload);
            NothingOnWay(s.At(first), s.At(!first), FirstFree(s.At(first).chans, 0).value)
            <==> forall more, taken :: Continues(states + [Apply(s, e)], steps + [e], more, taken) ==>
                   AllOwn(more[|taken|])
  {
    var s, e := states[|steps|], Add(first, payload);
    var begun, with := states + [Apply(s, e)], steps + [e];
    RunExtended(states, steps, e);
    if Safe(s, e) {
      forall k | 0 <= k < |with|
        ensures Safe(begun[k], with[k])
      {
        if k < |steps| {
          assert begun[k] == states[k] && with[k] == steps[k] && Safe(states[k], steps[k]);
        }
      }
      forall more, taken | Continues(begun, with, more, taken)
        ensures AllOwn(more[|taken|])
      {
        SafeContinuation(begun, with, more, taken);
      }
    } else {
      var more, taken := UnsafeSendIsMisled(states, steps, first, payload);
      MisledIsNotOwn(more[|taken|], first, |s.At(first).sent|);
      assert Continues(begun, with, more, taken);
    }
  }

  // Close comes in two halves, and a Send in between need not be safe.

  /** A run in which one request is in its handler when its end begins to close. */
  function ClosingSteps(p: seq<Byte>): seq<Step> {
    [Add(true, p), Write(true, 0), TakeRequest(false), CloseAll(true)]
  }

  function ClosingStates(p: seq<Byte>): seq<State> {
    var c := Call(0, p, 0);
    var waiting := IDLE.(chans := map[0 := 0], sent := [p]);
    var handling := IDLE.(handlers := [c]);
    [INITIAL, State(waiting.(drafts := [c]), IDLE), State(waiting.(out := [Request(c)]), IDLE),
     State(waiting, handling), State(IDLE.(sent := [p], got := map[0 := EOF], closing := true), handling)]
  }

  lemma ClosingRun(p: seq<Byte>)
    ensures Run(ClosingStates(p), ClosingSteps(p)) && SafeUpTo(ClosingStates(p), ClosingSteps(p), 4)
  {
    var states, steps := ClosingStates(p), ClosingSteps(p);
    assert Apply(states[0], steps[0]) == states[1];
    assert Apply(states[1], steps[1]) == states[2];
    assert Apply(states[2], steps[2]) == states[3];
    assert map[0 := 0].Values == {0};
    assert Apply(states[3], steps[3]) == states[4];
  }

  /**
   * Close empties the channel list before it closes the stream. A Send in between takes identifier 0 again while the
   * request that Close ended is still in its handler, and can be given that request's answer.
   */
  lemma SendAfterCloseMiscorrelates(p: seq<Byte>, q: seq<Byte>) returns (more: seq<State>, taken: seq<Step>)
    ensures Run(more, taken) && more[0] == INITIAL
    ensures |taken| > 4 && taken[3] == CloseAll(true) && taken[4] == Add(true, q)
    ensures Misled(more[|taken|], true, 1)
  {
    ClosingRun(p);
    var states, steps := ClosingStates(p), ClosingSteps(p);
    assert Call(0, p, 0) in states[4].b.handlers;
    more, taken := UnsafeSendIsMisled(states, steps, true, q);
    assert (steps + [Add(true, q)])[3] == CloseAll(true) && (steps + [Add(true, q)])[4] == Add(true, q);
  }
}
