/** What two creations that join the same two addresses do to each other: each may rewrite the other's App rule. */
module SetupRedial {
  import opened Base
  import opened RoutingTable
  import opened IdReservoir
  import opened RouteManager
  import opened Delivery
  import opened SetupRun
  import opened SetupProgress

  /** The App rule of an attempt at one of its ends is bound there with another route ID than it was set with. */
  ghost predicate Rewritten(s: State, x: Attempt, side: Side) {
    var at := x.LoopAt(side).local.pk;
    exists k :: 0 <= k < x.Done(at) && k < |x.Rules(at)| && Matches(x.Rules(at)[k], x.LoopAt(side))
                && Bound(s.TableOf(at), x.Rules(at)[k]) && s.TableOf(at).rules[x.Rules(at)[k].reqID] != x.Rules(at)[k]
  }

  /** Two attempts never have the same first identifier at a visor: both are keys of rules there. */
  lemma FirstsApart(s: State, a: nat, at: Side, b: nat, other: Side)
    requires AttemptsFine(s) && IdsApart(s) && a < |s.attempts| && b < |s.attempts| && a != b
    requires s.attempts[a].code.Some? && s.attempts[b].code.Some?
    requires s.attempts[a].LoopAt(at) == s.attempts[b].LoopAt(other)
    ensures s.attempts[a].FirstAt(at) != s.attempts[b].FirstAt(other)
  {
    AttemptFine(s, a);
    AttemptFine(s, b);
    hide AttemptsFine, Ordered, IdsApart;
    var k := EndHasFirstRule(s.attempts[a], at);
    var l := EndHasFirstRule(s.attempts[b], other);
    KeysApart(s, a, b, s.attempts[a].LoopAt(at).local.pk, k, l);
  }

  lemma ReadOther(s: State, b: nat, side: Side, id: RouteID)
    requires Enabled(s, Read(b, side, id))
    ensures var t := Apply(s, Read(b, side, id));
            && t.tables == s.tables && |t.attempts| == |s.attempts| && b < |s.attempts|
            && (forall a :: 0 <= a < |s.attempts| && a != b ==> t.attempts[a] == s.attempts[a])
            && var x, y := s.attempts[b], t.attempts[b];
            && y.code == x.code && y.ld == x.ld && y.At(side).written == x.At(side).written
            && id in s.TableOf(x.LoopAt(side).local.pk).rules
            && y.At(side).read == Some((id, s.TableOf(x.LoopAt(side).local.pk).rules[id]))
  {
    hide Generate, JoinsEnds, Matches;
  }

  lemma CanWriteBack(s: State, b: nat, side: Side)
    requires b < |s.attempts| && s.attempts[b].code.Some? && FirstBound(s, s.attempts[b], side)
    requires s.attempts[b].At(side).read.Some? && s.attempts[b].At(side).read.value.1.App?
    requires !s.attempts[b].At(side).written
    ensures Enabled(s, WriteBack(b, side))
  {
    hide Generate, JoinsEnds, Matches;
  }

  /** A state in which one attempt, `b`, is about to read and finds the App rule of another, `a`, for the same loop. */
  ghost predicate MayRewrite(s: State, a: nat, at: Side, b: nat, side: Side) {
    && a < |s.attempts| && b < |s.attempts| && a != b
    && s.attempts[a].code.Some? && Complete(s.attempts[a]) && s.attempts[a].LoopAt(at) == s.attempts[b].LoopAt(side)
    && s.attempts[b].At(side).asked && s.attempts[b].At(side).read.None?
  }

  /** The identifier under which the other rule is found; its own route ID is not the one that will be written. */
  lemma RuleToRead(s: State, a: nat, at: Side, b: nat, side: Side) returns (k: nat)
    requires Inv(s) && MayRewrite(s, a, at, b, side)
    ensures Enabled(s, Read(b, side, OwnRule(s, a, at, k).reqID))
    ensures var pk := s.attempts[a].LoopAt(at).local.pk;
            && k < s.attempts[a].Done(pk) && k < |s.attempts[a].Rules(pk)| && s.attempts[b].code.Some?
            && Bound(s.TableOf(pk), OwnRule(s, a, at, k)) && Matches(OwnRule(s, a, at, k), s.attempts[a].LoopAt(at))
            && OwnRule(s, a, at, k).respID != s.attempts[b].FirstAt(side)
  {
    AttemptFine(s, a);
    AttemptFine(s, b);
    AskedWhenComplete(s.attempts[b]);
    FirstsApart(s, a, at, b, side);
    k := EndHasAppRule(s.attempts[a], at);
    var x, pk := s.attempts[a], s.attempts[a].LoopAt(at).local.pk;
    hide AttemptsFine, ReadsFine, IdsApart, Accounted, Named, TablesFine, Ordered;
    assert x.Done(pk) == |x.Rules(pk)|;
    assert Bound(s.TableOf(pk), x.Rules(pk)[k]);
    hide Undisturbed, Complete;
    CanRead(s, b, side, x.Rules(pk)[k].reqID);
  }

  function OwnRule(s: State, a: nat, at: Side, k: nat): Rule
    requires a < |s.attempts|
  {
    var rules := s.attempts[a].Rules(s.attempts[a].LoopAt(at).local.pk);
    if k < |rules| then rules[k] else PLACEHOLDER
  }

  lemma ReadThenWrite(s: State, b: nat, side: Side, id: RouteID)
    requires Inv(s) && Enabled(s, Read(b, side, id)) && b < |s.attempts|
    requires s.attempts[b].At(side).asked && s.attempts[b].At(side).read.None?
    ensures Enabled(Apply(s, Read(b, side, id)), WriteBack(b, side))
  {
    hide Inv, Apply, Enabled;
    ReadyToWrite(s, b, side);
    ReadOther(s, b, side, id);
    ReadMatches(s, b, side, id);
    CanWriteBack(Apply(s, Read(b, side, id)), b, side);
  }

  lemma ReadyToWrite(s: State, b: nat, side: Side)
    requires Inv(s) && b < |s.attempts| && s.attempts[b].At(side).asked && s.attempts[b].At(side).read.None?
    ensures s.attempts[b].code.Some? && !s.attempts[b].At(side).written && FirstBound(s, s.attempts[b], side)
  {
    hide Ordered, AttemptsFine, ReadsFine, IdsApart, Accounted, Named, TablesFine, Undisturbed, Complete;
    AttemptFine(s, b);
    AskedWhenComplete(s.attempts[b]);
    UnreadUnwritten(s.attempts[b], side);
    FirstIsBound(s, b, side);
  }

  lemma ReadMatches(s: State, b: nat, side: Side, id: RouteID)
    requires Enabled(s, Read(b, side, id))
    ensures var t := s.TableOf(s.attempts[b].LoopAt(side).local.pk); id in t.rules && t.rules[id].App?
  {
  }

  lemma NowRewritten(s: State, a: nat, at: Side, b: nat, side: Side, k: nat, t: State)
    requires MayRewrite(s, a, at, b, side) && s.attempts[b].code.Some?
    requires var pk := s.attempts[a].LoopAt(at).local.pk;
             && k < s.attempts[a].Done(pk) && k < |s.attempts[a].Rules(pk)|
             && Bound(s.TableOf(pk), OwnRule(s, a, at, k)) && Matches(OwnRule(s, a, at, k), s.attempts[a].LoopAt(at))
             && OwnRule(s, a, at, k).respID != s.attempts[b].FirstAt(side)
             && t.TableOf(pk).rules
                == Rebound(s.TableOf(pk).rules, OwnRule(s, a, at, k).reqID, s.attempts[b].FirstAt(side))
    ensures Rewritten(t, s.attempts[a], at)
  {
    var x, pk := s.attempts[a], s.attempts[a].LoopAt(at).local.pk;
    var own := x.Rules(pk)[k];
    assert t.TableOf(pk).rules[own.reqID].respID == s.attempts[b].FirstAt(side);
    assert Bound(t.TableOf(pk), own);
  }

  lemma OnlyWriterMoves(s: State, b: nat, side: Side)
    requires Enabled(s, WriteBack(b, side))
    ensures b < |s.attempts| && OnlyOwn(s, Apply(s, WriteBack(b, side)), b)
  {
    hide Generate, JoinsEnds, Matches;
  }

  lemma RewriteInTwo(s: State, a: nat, at: Side, b: nat, side: Side) returns (read: Step)
    requires Inv(s) && MayRewrite(s, a, at, b, side)
    ensures Enabled(s, read) && Enabled(Apply(s, read), WriteBack(b, side))
    ensures var t := Apply(Apply(s, read), WriteBack(b, side));
            a < |s.attempts| && b < |s.attempts| && OnlyOwn(s, t, b) && Rewritten(t, s.attempts[a], at)
  {
    var k := RuleToRead(s, a, at, b, side);
    ReadThenWrite(s, b, side, OwnRule(s, a, at, k).reqID);
    read := Read(b, side, OwnRule(s, a, at, k).reqID);
    var s1, write := Apply(s, read), WriteBack(b, side);
    StepInv(s, read);
    assert a != b && s.attempts[a].LoopAt(at) == s.attempts[b].LoopAt(side);
    ReadOther(s, b, side, OwnRule(s, a, at, k).reqID);
    hide Inv, Enabled, Apply, MayRewrite, Matches, Bound, Rewritten, OwnRule;
    WriteBackRebinds(s1, write);
    OnlyWriterMoves(s1, b, side);
    NowRewritten(s, a, at, b, side, k, Apply(s1, write));
  }

  /**
   * Two more steps are enough, wherever a run has got to: a confirmation that has not read yet may find the rule of
   * another attempt for the same loop, and then writes its own first identifier there.
   */
  lemma OtherRewritten(states: seq<State>, steps: seq<Step>, a: nat, at: Side, b: nat, side: Side)
    returns (states': seq<State>, steps': seq<Step>)
    requires Run(states, steps) && states[0] == INITIAL && MayRewrite(states[|steps|], a, at, b, side)
    ensures Run(states', steps') && states <= states' && steps <= steps' && |steps'| == |steps| + 2
    ensures OnlyOwn(states[|steps|], states'[|steps'|], b)
    ensures Rewritten(states'[|steps'|], states[|steps|].attempts[a], at)
  {
    InitialInv();
    RunInv(states, steps, |steps|);
    hide Run, Inv, Enabled, Apply, MayRewrite, Rewritten;
    var s := states[|steps|];
    var read := RewriteInTwo(s, a, at, b, side);
    RunExtended(states, steps, read);
    var s1, write := Apply(s, read), WriteBack(b, side);
    RunExtended(states + [s1], steps + [read], write);
    states', steps' := states + [s1] + [Apply(s1, write)], steps + [read] + [write];
  }

  lemma CanRead(s: State, b: nat, side: Side, id: RouteID)
    requires b < |s.attempts| && s.attempts[b].At(side).asked && s.attempts[b].At(side).read.None?
    requires var t := s.TableOf(s.attempts[b].LoopAt(side).local.pk);
             id in t.rules && Matches(t.rules[id], s.attempts[b].LoopAt(side))
    ensures Enabled(s, Read(b, side, id))
  {
  }

  lemma UnreadUnwritten(x: Attempt, side: Side)
    requires Ordered(x) && x.At(side).read.None?
    ensures !x.At(side).written
  {
    hide Generate, JoinsEnds, Complete;
  }

  // Such states come about: any loop can be dialled, and then dialled again.

  lemma StartEnabled(s: State, ld: LoopDescriptor)
    requires JoinsEnds(ld) && (forall pk :: Uses(LoopPops(ld), pk) <= 255)
    requires forall pk :: s.TableOf(pk).nextID <= 255
    ensures Enabled(s, Start(ld))
    ensures var t := Apply(s, Start(ld));
            && |t.attempts| == |s.attempts| + 1 && t.attempts[..|s.attempts|] == s.attempts
            && t.attempts[|s.attempts|].ld == ld && t.attempts[|s.attempts|].phase == Reserving
            && Completable(t, |s.attempts|)
            && forall pk :: t.TableOf(pk).nextID + Missing(t.attempts[|s.attempts|], pk) <= s.TableOf(pk).nextID + 255
  {
    hide LoopPops, Uses;
    var t := Apply(s, Start(ld));
    var x := t.attempts[|s.attempts|];
    assert forall pk :: x.Asked(pk) <= 255;
    assert forall pk :: t.TableOf(pk) == s.TableOf(pk);
  }

  lemma Extend(states: seq<State>, steps: seq<Step>, ld: LoopDescriptor)
    returns (states': seq<State>, steps': seq<Step>)
    requires Run(states, steps) && JoinsEnds(ld) && forall pk :: Uses(LoopPops(ld), pk) <= 255
    requires forall pk :: states[|steps|].TableOf(pk).nextID <= 255
    ensures Run(states', steps') && states' == states + [states'[|steps'|]]
    ensures var s, t := states[|steps|], states'[|steps'|];
            && |t.attempts| == |s.attempts| + 1 && t.attempts[..|s.attempts|] == s.attempts
            && t.attempts[|s.attempts|].ld == ld && t.attempts[|s.attempts|].phase == Reserving
            && Completable(t, |s.attempts|)
            && forall pk :: t.TableOf(pk).nextID + Missing(t.attempts[|s.attempts|], pk) <= s.TableOf(pk).nextID + 255
  {
    StartEnabled(states[|steps|], ld);
    hide JoinsEnds, LoopPops, Uses, Run, Enabled, Apply, Completable, Missing;
    RunExtended(states, steps, Start(ld));
    states', steps' := states + [Apply(states[|steps|], Start(ld))], steps + [Start(ld)];
  }

  /** The loop is created, and created again up to the point where its far end is asked to confirm. */
  lemma DialledTwice(ld: LoopDescriptor) returns (states: seq<State>, steps: seq<Step>)
    requires JoinsEnds(ld) && forall pk :: Uses(LoopPops(ld), pk) <= 255
    ensures Run(states, steps) && states[0] == INITIAL && |states[|steps|].attempts| == 2
    ensures states[|steps|].attempts[0].ld == ld && states[|steps|].attempts[1].ld == ld
    ensures states[|steps|].attempts[0].phase == Created && MayRewrite(states[|steps|], 0, Dst, 1, Dst)
  {
    assert Run([INITIAL], []);
    states, steps := Extend([INITIAL], [], ld);
    hide JoinsEnds, LoopPops, Uses, Run, Enabled, Apply, Completable, Missing, Rank;
    var s1 := states[|steps|];
    RanksDiffer(Reserving, Created);
    states, steps := CanReach(states, steps, 0, Created);
    var s2 := states[|steps|];
    forall pk
      ensures s2.TableOf(pk).nextID <= 255
    {
      assert s2.TableOf(pk).nextID + Missing(s2.attempts[0], pk) <= s1.TableOf(pk).nextID + Missing(s1.attempts[0], pk);
    }
    states, steps := Extend(states, steps, ld);
    assert states[|steps|].attempts[0] == states[|steps|].attempts[..1][0];
    ConfirmingRank();
    states, steps := CanReach(states, steps, 1, ConfirmingDst);
    InitialInv();
    RunInv(states, steps, |steps|);
    CreatedAndAsked(states[|steps|]);
  }

  lemma ConfirmingRank()
    ensures Rank(ConfirmingDst) <= Rank(Reserving)
  {
  }

  lemma CreatedAndAsked(s: State)
    requires Inv(s) && |s.attempts| == 2 && s.attempts[0].ld == s.attempts[1].ld
    requires s.attempts[0].phase == Created && s.attempts[1].phase == ConfirmingDst && s.attempts[1].dst.read.None?
    ensures MayRewrite(s, 0, Dst, 1, Dst)
  {
    AttemptFine(s, 0);
    AttemptFine(s, 1);
    hide Inv, AttemptsFine, Complete, JoinsEnds, Generate;
    AskedWhenComplete(s.attempts[0]);
  }

  /**
   * Dialling the same loop twice: for every loop whose routes take at most 255 identifiers of any visor there is a run
   * in which it is created, dialled again, and the second confirmation at the far end rewrites the App rule of the
   * first, finished, creation.
   */
  lemma RedialRewrites(ld: LoopDescriptor) returns (states: seq<State>, steps: seq<Step>)
    requires JoinsEnds(ld) && forall pk :: Uses(LoopPops(ld), pk) <= 255
    ensures Run(states, steps) && states[0] == INITIAL && |states[|steps|].attempts| == 2
    ensures states[|steps|].attempts[0].ld == ld && states[|steps|].attempts[1].ld == ld
    ensures states[|steps|].attempts[0].phase == Created && Rewritten(states[|steps|], states[|steps|].attempts[0], Dst)
  {
    states, steps := DialledTwice(ld);
    hide JoinsEnds, Run, Inv, Rewritten, Complete;
    states, steps := OtherRewritten(states, steps, 0, Dst, 1, Dst);
  }
}
