/** Nothing in the order of the setup, and nothing other setups do, keeps a loop creation from being completed. */
module SetupProgress {
  import opened Base
  import opened RoutingTable
  import opened IdReservoir
  import opened RouteManager
  import opened Delivery
  import opened SetupRun

  /** No visor is ever asked for more identifiers than the routes take from it. */
  ghost predicate WithinAsked(s: State) {
    forall a, pk :: 0 <= a < |s.attempts| ==> |IdsOf(s.attempts[a].ids, pk)| <= s.attempts[a].Asked(pk)
  }

  lemma GiveBelowAsked(s: State, e: Step)
    requires Enabled(s, e) && e.Give?
    ensures e.a < |s.attempts| && |IdsOf(s.attempts[e.a].ids, e.pk)| < s.attempts[e.a].Asked(e.pk)
  {
  }

  lemma SameLoop(s: State, e: Step, a: nat)
    requires Enabled(s, e) && a < |s.attempts|
    ensures a < |Apply(s, e).attempts| && Apply(s, e).attempts[a].ld == s.attempts[a].ld
  {
    hide Generate, JoinsEnds, Matches, LoopPops, Uses;
    if e.Start? || a != e.a {
      OthersUnchanged(s, e, a);
    }
  }

  lemma StepWithinAsked(s: State, e: Step)
    requires Enabled(s, e) && WithinAsked(s)
    ensures WithinAsked(Apply(s, e))
  {
    hide Enabled, Apply, LoopPops, Uses;
    var t := Apply(s, e);
    forall a, pk | 0 <= a < |t.attempts|
      ensures |IdsOf(t.attempts[a].ids, pk)| <= t.attempts[a].Asked(pk)
    {
      if a < |s.attempts| {
        IdsAfter(s, e, a, pk);
        SameLoop(s, e, a);
        assert |IdsOf(s.attempts[a].ids, pk)| <= s.attempts[a].Asked(pk);
        if e.Give? {
          GiveBelowAsked(s, e);
        }
      } else {
        NewAttemptHasNoIds(s, e, a, pk);
      }
    }
  }

  lemma {:induction false} RunWithinAsked(states: seq<State>, steps: seq<Step>, i: nat)
    requires Run(states, steps) && states[0] == INITIAL && i < |states|
    ensures WithinAsked(states[i])
  {
    hide Enabled, Apply;
    if i > 0 {
      RunWithinAsked(states, steps, i - 1);
      assert Enabled(states[i - 1], steps[i - 1]);
      StepWithinAsked(states[i - 1], steps[i - 1]);
    }
  }

  // How much of an attempt is still to be done.

  ghost function Sum(s: set<PubKey>, f: PubKey -> nat): nat {
    if s == {} then 0
    else
      var p :| p in s;
      f(p) + Sum(s - {p}, f)
  }

  lemma {:induction false} SumSplit(s: set<PubKey>, f: PubKey -> nat, q: PubKey)
    requires q in s
    ensures Sum(s, f) == f(q) + Sum(s - {q}, f)
    decreases |s|
  {
    var p :| p in s && Sum(s, f) == f(p) + Sum(s - {p}, f);
    if p != q {
      SumSplit(s - {p}, f, q);
      SumSplit(s - {q}, f, p);
      assert s - {p} - {q} == s - {q} - {p};
    }
  }

  lemma {:induction false} SumAtMost(s: set<PubKey>, f: PubKey -> nat, g: PubKey -> nat)
    requires forall p :: p in s ==> g(p) <= f(p)
    ensures Sum(s, g) <= Sum(s, f)
    decreases |s|
  {
    if s != {} {
      var p :| p in s;
      SumSplit(s, f, p);
      SumSplit(s, g, p);
      SumAtMost(s - {p}, f, g);
    }
  }

  lemma SumBelow(s: set<PubKey>, f: PubKey -> nat, g: PubKey -> nat, q: PubKey)
    requires q in s && g(q) < f(q) && forall p :: p in s ==> g(p) <= f(p)
    ensures Sum(s, g) < Sum(s, f)
  {
    SumSplit(s, f, q);
    SumSplit(s, g, q);
    SumAtMost(s - {q}, f, g);
  }

  function Missing(x: Attempt, pk: PubKey): nat {
    if |IdsOf(x.ids, pk)| < x.Asked(pk) then x.Asked(pk) - |IdsOf(x.ids, pk)| else 0
  }

  function Unset(x: Attempt, pk: PubKey): nat {
    (if x.Done(pk) < |x.Rules(pk)| then |x.Rules(pk)| - x.Done(pk) else 0) + (if pk in x.acked then 0 else 1)
  }

  function Unconfirmed(c: Confirmation): nat {
    (if c.read.Some? then 0 else 1) + (if c.written then 0 else 1)
  }

  function Rank(p: Phase): nat {
    match p
    case Reserving => 4
    case Installing => 3
    case ConfirmingDst => 2
    case ConfirmingSrc => 1
    case Created => 0
    case Aborted => 0
  }

  ghost function Left(x: Attempt): nat {
    match x.phase
    case Reserving =>
      if x.ld.forward == [] || x.ld.reverse == [] then 0
      else Sum((set p | p in LoopPops(x.ld)), pk => Missing(x, pk))
    case Installing => if x.code.None? then 0 else Sum(x.code.value.rules.Keys, pk => Unset(x, pk))
    case ConfirmingDst => Unconfirmed(x.dst)
    case ConfirmingSrc => Unconfirmed(x.src)
    case Created => 0
    case Aborted => 0
  }

  ghost predicate Closer(y: Attempt, x: Attempt) {
    Rank(y.phase) < Rank(x.phase) || (y.phase == x.phase && Left(y) < Left(x))
  }

  /** A step of this attempt that does not fail it. */
  ghost predicate Goes(s: State, e: Step, a: nat) {
    && !e.Start? && e.a == a && a < |s.attempts| && Enabled(s, e) && a < |Apply(s, e).attempts|
    && Apply(s, e).attempts[a].phase != Aborted && Apply(s, e).attempts[a].refused == {}
  }

  /** A step that also brings the attempt nearer to its end. */
  ghost predicate Proceeds(s: State, e: Step, a: nat) {
    Goes(s, e, a) && Closer(Apply(s, e).attempts[a], s.attempts[a])
  }

  ghost predicate CanProceed(s: State, a: nat) {
    exists e :: Proceeds(s, e, a)
  }

  lemma GiveProceeds(s: State, a: nat, pk: PubKey)
    requires a < |s.attempts| && s.attempts[a].code.None? && s.attempts[a].phase == Reserving
    requires s.attempts[a].refused == {}
    requires |IdsOf(s.attempts[a].ids, pk)| < s.attempts[a].Asked(pk) && Room(s.TableOf(pk))
    ensures Proceeds(s, Give(a, pk), a)
  {
    assert Goes(s, Give(a, pk), a) by {
      hide Generate, LoopPops, Uses, JoinsEnds, Matches;
    }
    var x, y := s.attempts[a], Apply(s, Give(a, pk)).attempts[a];
    assert y == x.(ids := x.ids[pk := IdsOf(x.ids, pk) + [s.TableOf(pk).NextID()]]);
    hide Enabled, Apply;
    GivenLess(x, y, pk);
  }

  lemma GivenLess(x: Attempt, y: Attempt, pk: PubKey)
    requires x.phase == Reserving && |IdsOf(x.ids, pk)| < x.Asked(pk)
    requires exists id :: y == x.(ids := x.ids[pk := IdsOf(x.ids, pk) + [id]])
    ensures Closer(y, x)
  {
    var pops := set p | p in LoopPops(x.ld);
    assert pk in pops by {
      assert Uses(LoopPops(x.ld), pk) > 0;
    }
    hide LoopPops, Uses;
    assert forall p :: p != pk ==> IdsOf(y.ids, p) == IdsOf(x.ids, p);
    assert |IdsOf(y.ids, pk)| == |IdsOf(x.ids, pk)| + 1;
    SumBelow(pops, p => Missing(x, p), p => Missing(y, p), pk);
  }

  lemma CompileProceeds(s: State, a: nat)
    requires a < |s.attempts| && s.attempts[a].phase == Reserving && s.attempts[a].refused == {}
    requires forall pk :: |IdsOf(s.attempts[a].ids, pk)| == s.attempts[a].Asked(pk)
    requires s.attempts[a].ld.forward != [] && s.attempts[a].ld.reverse != []
    requires Generate(s.attempts[a].ids, s.attempts[a].ld).Some?
    ensures Proceeds(s, Compile(a), a)
  {
    hide Generate, LoopPops, Uses, JoinsEnds, Matches;
  }

  /** With all identifiers given that were asked for, compilation succeeds exactly when no counter wrapped. */
  lemma CompiledIff(x: Attempt)
    requires x.ld.forward != [] && x.ld.reverse != [] && forall pk :: |IdsOf(x.ids, pk)| == x.Asked(pk)
    ensures Generate(x.ids, x.ld).Some? <==> forall pk :: Uses(LoopPops(x.ld), pk) <= 255
  {
    hide Generate, LoopPops, Uses;
    GenerateSucceeds(x.ids, x.ld);
    forall pk
      ensures Uses(LoopPops(x.ld), pk) <= 255 <==> Uses(LoopPops(x.ld), pk) <= |IdsOf(x.ids, pk)|
    {
      assert |IdsOf(x.ids, pk)| == x.Asked(pk);
    }
  }

  lemma ReservingProceeds(s: State, a: nat)
    requires a < |s.attempts| && s.attempts[a].code.None? && WithinAsked(s)
    requires s.attempts[a].phase == Reserving && s.attempts[a].refused == {}
    requires forall pk :: Room(s.TableOf(pk))
    requires s.attempts[a].ld.forward != [] && s.attempts[a].ld.reverse != []
    requires forall pk :: Uses(LoopPops(s.attempts[a].ld), pk) <= 255
    ensures CanProceed(s, a)
  {
    hide Proceeds, Generate, LoopPops, Uses, Attempt.Asked, Room;
    var x := s.attempts[a];
    if pk :| |IdsOf(x.ids, pk)| != x.Asked(pk) {
      GiveProceeds(s, a, pk);
    } else {
      CompiledIff(x);
      CompileProceeds(s, a);
    }
  }

  lemma InstallProceeds(s: State, a: nat, pk: PubKey)
    requires a < |s.attempts| && s.attempts[a].phase == Installing && s.attempts[a].refused == {}
    requires s.attempts[a].Done(pk) < |s.attempts[a].Rules(pk)|
    ensures Proceeds(s, Install(a, pk), a)
  {
    assert Goes(s, Install(a, pk), a) by {
      hide Generate, JoinsEnds, Matches;
    }
    var x, y := s.attempts[a], Apply(s, Install(a, pk)).attempts[a];
    assert y == x.(done := x.done[pk := x.Done(pk) + 1]);
    hide Enabled, Apply;
    SumBelow(x.code.value.rules.Keys, p => Unset(x, p), p => Unset(y, p), pk);
  }

  lemma AckProceeds(s: State, a: nat, pk: PubKey)
    requires a < |s.attempts| && s.attempts[a].phase == Installing && s.attempts[a].refused == {}
    requires 0 < s.attempts[a].Done(pk) == |s.attempts[a].Rules(pk)| && pk !in s.attempts[a].acked
    ensures Proceeds(s, Ack(a, pk), a)
  {
    assert Goes(s, Ack(a, pk), a) by {
      hide Generate, JoinsEnds, Matches;
    }
    var x, y := s.attempts[a], Apply(s, Ack(a, pk)).attempts[a];
    assert y == x.(acked := x.acked + {pk});
    hide Enabled, Apply;
    SumBelow(x.code.value.rules.Keys, p => Unset(x, p), p => Unset(y, p), pk);
  }

  lemma JoinProceeds(s: State, a: nat)
    requires a < |s.attempts| && s.attempts[a].phase == Installing && s.attempts[a].refused == {}
    requires forall pk :: s.attempts[a].Rules(pk) != [] ==> pk in s.attempts[a].acked
    ensures Proceeds(s, Join(a), a)
  {
    hide Generate, JoinsEnds, Matches;
  }

  lemma InstallingProceeds(s: State, a: nat)
    requires a < |s.attempts| && forall pk :: s.attempts[a].Done(pk) <= |s.attempts[a].Rules(pk)|
    requires s.attempts[a].phase == Installing && s.attempts[a].refused == {}
    ensures CanProceed(s, a)
  {
    hide Proceeds, Attempt.Done, Attempt.Rules;
    var x := s.attempts[a];
    if pk :| x.Done(pk) != |x.Rules(pk)| {
      InstallProceeds(s, a, pk);
    } else if pk :| x.Rules(pk) != [] && pk !in x.acked {
      assert x.Done(pk) == |x.Rules(pk)|;
      AckProceeds(s, a, pk);
    } else {
      JoinProceeds(s, a);
    }
  }

  /** The App rule of an end is in that end's list, and is what its confirmation looks for. */
  lemma EndHasAppRule(x: Attempt, side: Side) returns (k: nat)
    requires Ordered(x) && x.code.Some?
    ensures var at := x.LoopAt(side).local.pk;
            && k < |x.Rules(at)| && Matches(x.Rules(at)[k], x.LoopAt(side))
            && x.Rules(at)[k].respID == x.FirstAt(side)
  {
    var f := SaveForward(map[], x.ids, x.ld.keepAlive, x.ld.forward).value;
    var r := SaveForward(f.rules, f.ids, x.ld.keepAlive, x.ld.reverse).value;
    var src, dst := SrcAppRule(x.ld, r.last, f.first), DstAppRule(x.ld, f.last, r.first);
    var at, rule := x.LoopAt(side).local.pk, if side.Dst? then dst else src;
    CloseGrows(r.rules, x.ld.loop.local.pk, src, x.ld.loop.remote.pk, dst);
    hide SaveForward, Chained;
    assert rule in x.Rules(at);
    k :| 0 <= k < |x.Rules(at)| && x.Rules(at)[k] == rule;
  }

  lemma WriteBackProceeds(s: State, a: nat, side: Side)
    requires a < |s.attempts| && s.attempts[a].refused == {} && s.attempts[a].code.Some?
    requires s.attempts[a].At(side).read.Some? && s.attempts[a].At(side).read.value.1.App?
    requires !s.attempts[a].At(side).written
    requires s.attempts[a].phase == (if side.Dst? then ConfirmingDst else ConfirmingSrc)
    requires FirstBound(s, s.attempts[a], side)
    ensures Proceeds(s, WriteBack(a, side), a)
  {
    hide Generate, JoinsEnds, Matches;
  }

  /** The lookup a confirmation makes with the identifier it is told succeeds, and finds a forwarding rule. */
  ghost predicate FirstBound(s: State, x: Attempt, side: Side)
    requires x.code.Some?
  {
    var t := s.TableOf(x.LoopAt(side).local.pk);
    x.FirstAt(side) in t.rules && t.rules[x.FirstAt(side)].Forward?
  }

  /** The first rule of the route that leaves an end is a forwarding rule in that end's list. */
  lemma EndHasFirstRule(x: Attempt, side: Side) returns (k: nat)
    requires Ordered(x) && x.code.Some?
    ensures var at := x.LoopAt(side).local.pk;
            k < |x.Rules(at)| && x.Rules(at)[k].Forward? && x.Rules(at)[k].reqID == x.FirstAt(side)
  {
    var ld, at := x.ld, x.LoopAt(side).local.pk;
    var f := SaveForward(map[], x.ids, ld.keepAlive, ld.forward).value;
    var r := SaveForward(f.rules, f.ids, ld.keepAlive, ld.reverse).value;
    var src, dst := SrcAppRule(ld, r.last, f.first), DstAppRule(ld, f.last, r.first);
    CloseGrows(r.rules, ld.loop.local.pk, src, ld.loop.remote.pk, dst);
    assert Within(r.rules, x.code.value.rules);
    var rule;
    if side.Dst? {
      rule := SavedFirst(f.rules, f.ids, ld.keepAlive, ld.reverse);
    } else {
      rule := SavedFirst(map[], x.ids, ld.keepAlive, ld.forward);
      SaveGrows(f.rules, f.ids, ld.keepAlive, ld.reverse);
      assert rule in RulesOf(r.rules, at);
    }
    hide SaveForward, Chained;
    assert RulesOf(r.rules, at) <= x.Rules(at);
    k :| 0 <= k < |x.Rules(at)| && x.Rules(at)[k] == rule;
  }

  lemma SavedFirst(rules: RuleLists, ids: Ids, keepAlive: int, route: Route) returns (rule: Rule)
    requires route != [] && SaveForward(rules, ids, keepAlive, route).Some?
    ensures var saved := SaveForward(rules, ids, keepAlive, route).value;
            rule.Forward? && rule.reqID == saved.first && rule in RulesOf(saved.rules, route[0].from)
  {
    var (first, ids') := PopFrom(ids, route[0].from).value;
    var w := TakeHop(Walked(rules, ids', first), keepAlive, route[0]).value;
    rule := Forward(Clamp(keepAlive), first, w.rid, route[0].transport);
    assert rule == RulesOf(w.rules, route[0].from)[|RulesOf(rules, route[0].from)|];
    WalkGrows(w, keepAlive, route[1..], route[0].from);
  }

  lemma FirstIsBound(s: State, a: nat, side: Side)
    requires Undisturbed(s) && a < |s.attempts| && Ordered(s.attempts[a])
    requires s.attempts[a].code.Some? && Complete(s.attempts[a])
    ensures FirstBound(s, s.attempts[a], side)
  {
    var x := s.attempts[a];
    var k := EndHasFirstRule(x, side);
    hide Ordered;
    var at := x.LoopAt(side).local.pk;
    assert x.Done(at) == |x.Rules(at)|;
    assert Bound(s.TableOf(at), x.Rules(at)[k]);
  }

  lemma ConfirmedProceeds(s: State, a: nat, side: Side)
    requires a < |s.attempts| && s.attempts[a].refused == {} && s.attempts[a].At(side).written
    requires s.attempts[a].phase == (if side.Dst? then ConfirmingDst else ConfirmingSrc)
    ensures Proceeds(s, Confirmed(a, side), a)
  {
    hide Generate, JoinsEnds, Matches;
  }

  lemma ReadProceeds(s: State, a: nat, side: Side, id: RouteID)
    requires a < |s.attempts| && s.attempts[a].refused == {}
    requires s.attempts[a].phase == (if side.Dst? then ConfirmingDst else ConfirmingSrc)
    requires s.attempts[a].At(side).asked && s.attempts[a].At(side).read.None?
    requires var t := s.TableOf(s.attempts[a].LoopAt(side).local.pk);
             id in t.rules && Matches(t.rules[id], s.attempts[a].LoopAt(side))
    ensures Proceeds(s, Read(a, side, id), a)
  {
    hide Generate, JoinsEnds, Matches;
  }

  /** The rule a confirmation looks for is bound at its end. */
  lemma EndRuleBound(s: State, a: nat, side: Side) returns (id: RouteID)
    requires Undisturbed(s) && a < |s.attempts| && Ordered(s.attempts[a])
    requires s.attempts[a].code.Some? && Complete(s.attempts[a])
    ensures var t := s.TableOf(s.attempts[a].LoopAt(side).local.pk);
            id in t.rules && Matches(t.rules[id], s.attempts[a].LoopAt(side))
  {
    var x := s.attempts[a];
    var k := EndHasAppRule(x, side);
    hide Ordered, Matches;
    var at := x.LoopAt(side).local.pk;
    assert x.Done(at) == |x.Rules(at)|;
    assert Bound(s.TableOf(at), x.Rules(at)[k]);
    id := x.Rules(at)[k].reqID;
  }

  lemma AskedWhenComplete(x: Attempt)
    requires Ordered(x) && (x.dst.asked || x.src.asked)
    ensures x.code.Some? && Complete(x)
  {
    hide Generate, JoinsEnds, Complete;
  }

  lemma ConfirmingProceeds(s: State, a: nat, side: Side)
    requires Inv(s) && a < |s.attempts| && s.attempts[a].At(side).asked && s.attempts[a].refused == {}
    requires s.attempts[a].phase == (if side.Dst? then ConfirmingDst else ConfirmingSrc)
    ensures CanProceed(s, a)
  {
    hide AttemptsFine, IdsApart, Accounted, Named, TablesFine, Undisturbed, Ordered, Complete, Proceeds, FirstBound;
    var x := s.attempts[a];
    AttemptFine(s, a);
    AskedWhenComplete(x);
    if x.At(side).written {
      ConfirmedProceeds(s, a, side);
    } else if x.At(side).read.Some? {
      assert ReadsSet(s, x, side);
      hide ReadsFine, Owned;
      FirstIsBound(s, a, side);
      WriteBackProceeds(s, a, side);
    } else {
      hide ReadsFine, Matches;
      var id := EndRuleBound(s, a, side);
      ReadProceeds(s, a, side, id);
    }
  }

  lemma PhaseFacts(x: Attempt)
    requires Ordered(x)
    ensures x.phase == Reserving ==> x.code.None?
    ensures forall pk :: x.Done(pk) <= |x.Rules(pk)|
    ensures x.phase == ConfirmingDst ==> x.dst.asked
    ensures x.phase == ConfirmingSrc ==> x.src.asked
  {
    hide Generate, JoinsEnds, Complete;
  }

  /** What completing an attempt takes of the rest: routes, no wrapped counter, and identifiers left in the tables. */
  ghost predicate Completable(s: State, a: nat)
    requires a < |s.attempts|
  {
    && s.attempts[a].phase != Aborted && s.attempts[a].refused == {}
    && s.attempts[a].ld.forward != [] && s.attempts[a].ld.reverse != []
    && (forall pk :: Uses(LoopPops(s.attempts[a].ld), pk) <= 255)
    && (forall pk :: s.TableOf(pk).nextID + Missing(s.attempts[a], pk) < UINT32 - 1)
  }

  lemma NextStep(s: State, a: nat)
    requires Inv(s) && WithinAsked(s) && a < |s.attempts| && Completable(s, a) && s.attempts[a].phase != Created
    ensures CanProceed(s, a)
  {
    var x := s.attempts[a];
    AttemptFine(s, a);
    PhaseFacts(x);
    forall pk
      ensures Room(s.TableOf(pk))
    {
      assert s.TableOf(pk).nextID + Missing(x, pk) < UINT32 - 1;
    }
    hide Inv, AttemptsFine, CanProceed, WithinAsked, LoopPops, Uses, Ordered, Missing;
    match x.phase {
      case Reserving => ReservingProceeds(s, a);
      case Installing => InstallingProceeds(s, a);
      case ConfirmingDst => ConfirmingProceeds(s, a, Dst);
      case ConfirmingSrc => ConfirmingProceeds(s, a, Src);
      case _ =>
    }
  }

  lemma RoomKept(s: State, e: Step, a: nat, pk: PubKey)
    requires Inv(s) && Goes(s, e, a)
    ensures Apply(s, e).TableOf(pk).nextID + Missing(Apply(s, e).attempts[a], pk)
            <= s.TableOf(pk).nextID + Missing(s.attempts[a], pk)
  {
    hide Inv, Enabled, Apply, LoopPops, Uses;
    CounterGrows(s, e, pk);
    IdsAfter(s, e, a, pk);
    SameLoop(s, e, a);
    if e.Give? {
      GiveBelowAsked(s, e);
    }
  }

  lemma StaysCompletable(s: State, e: Step, a: nat)
    requires Inv(s) && Goes(s, e, a) && Completable(s, a)
    ensures a < |Apply(s, e).attempts| && Completable(Apply(s, e), a)
  {
    hide Inv, Enabled, Apply, LoopPops, Uses, Missing;
    SameLoop(s, e, a);
    forall pk
      ensures Apply(s, e).TableOf(pk).nextID + Missing(Apply(s, e).attempts[a], pk) < UINT32 - 1
    {
      RoomKept(s, e, a, pk);
      assert s.TableOf(pk).nextID + Missing(s.attempts[a], pk) < UINT32 - 1;
    }
  }

  /** An attempt goes through its phases one by one, and reads nothing before it may. */
  lemma OnePhaseOn(s: State, e: Step, a: nat)
    requires Goes(s, e, a) && Ordered(s.attempts[a])
    ensures |Apply(s, e).attempts| == |s.attempts|
    ensures var x, y := s.attempts[a], Apply(s, e).attempts[a];
            && Rank(x.phase) <= Rank(y.phase) + 1
            && (x.phase in {Reserving, Installing} ==> y.dst.read.None?)
  {
    hide Generate, JoinsEnds, LoopPops, Uses, Matches, Complete;
  }

  /** Every counter stays below what the identifiers still missing may take it to. */
  ghost predicate Bounded(t: State, s: State, a: nat)
    requires a < |s.attempts| && a < |t.attempts|
  {
    forall pk :: t.TableOf(pk).nextID + Missing(t.attempts[a], pk) <= s.TableOf(pk).nextID + Missing(s.attempts[a], pk)
  }

  lemma GoodStep(states: seq<State>, steps: seq<Step>, a: nat) returns (e: Step)
    requires Run(states, steps) && states[0] == INITIAL && a < |states[|steps|].attempts|
    requires Completable(states[|steps|], a) && states[|steps|].attempts[a].phase != Created
    ensures var s := states[|steps|];
            && Enabled(s, e) && OnlyOwn(s, Apply(s, e), a) && Completable(Apply(s, e), a)
            && Bounded(Apply(s, e), s, a)
            && var x, y := s.attempts[a], Apply(s, e).attempts[a];
            && Closer(y, x) && Rank(x.phase) <= Rank(y.phase) + 1
            && (x.phase in {Reserving, Installing} ==> y.dst.read.None?)
  {
    InitialInv();
    RunInv(states, steps, |steps|);
    RunWithinAsked(states, steps, |steps|);
    AttemptFine(states[|steps|], a);
    var s := states[|steps|];
    hide Run, Inv, AttemptsFine, Ordered, Enabled, Apply, WithinAsked, Completable, Closer, Missing;
    NextStep(s, a);
    e :| Proceeds(s, e, a);
    OnePhaseOn(s, e, a);
    StaysCompletable(s, e, a);
    forall pk { RoomKept(s, e, a, pk); }
    SameLoop(s, e, a);
    forall b | 0 <= b < |s.attempts| && b != a
      ensures Apply(s, e).attempts[b] == s.attempts[b]
    {
      OthersUnchanged(s, e, b);
    }
  }

  /** Only this attempt has moved, and it is for the same loop still. */
  ghost predicate OnlyOwn(s: State, t: State, a: nat)
    requires a < |s.attempts|
  {
    && |t.attempts| == |s.attempts| && t.attempts[a].ld == s.attempts[a].ld
    && forall b :: 0 <= b < |s.attempts| && b != a ==> t.attempts[b] == s.attempts[b]
  }

  lemma RunExtended(states: seq<State>, steps: seq<Step>, e: Step)
    requires Run(states, steps) && Enabled(states[|steps|], e)
    ensures Run(states + [Apply(states[|steps|], e)], steps + [e])
  {
    hide Enabled, Apply;
    var more, taken := states + [Apply(states[|steps|], e)], steps + [e];
    forall i | 0 <= i < |taken|
      ensures Enabled(more[i], taken[i]) && more[i + 1] == Apply(more[i], taken[i])
    {
      if i < |steps| {
        assert Enabled(states[i], steps[i]) && states[i + 1] == Apply(states[i], steps[i]);
      }
    }
  }

  lemma {:induction false} CanReach(states: seq<State>, steps: seq<Step>, a: nat, goal: Phase)
    returns (states': seq<State>, steps': seq<Step>)
    requires Run(states, steps) && states[0] == INITIAL && a < |states[|steps|].attempts|
    requires Completable(states[|steps|], a) && goal != Aborted && Rank(goal) <= Rank(states[|steps|].attempts[a].phase)
    ensures Run(states', steps') && states <= states' && steps <= steps'
    ensures var s, t := states[|steps|], states'[|steps'|];
            && OnlyOwn(s, t, a) && t.attempts[a].phase == goal && Completable(t, a) && Bounded(t, s, a)
            && (goal == ConfirmingDst && s.attempts[a].phase in {Reserving, Installing} ==>
                  t.attempts[a].dst.read.None?)
    ensures states[|steps|].attempts[a].phase == goal ==> states' == states && steps' == steps
    decreases Rank(states[|steps|].attempts[a].phase), Left(states[|steps|].attempts[a])
  {
    var s := states[|steps|];
    NotAborted(s, a);
    hide Run, Enabled, Apply, Completable, Left, Missing, Rank, Bounded;
    if s.attempts[a].phase == goal {
      BoundedSelf(s, a);
      return states, steps;
    }
    RanksDiffer(s.attempts[a].phase, goal);
    var e := GoodStep(states, steps, a);
    RunExtended(states, steps, e);
    if s.attempts[a].phase in {Reserving, Installing} {
      NextPhase(s.attempts[a].phase, Apply(s, e).attempts[a].phase);
    }
    states', steps' := CanReach(states + [Apply(s, e)], steps + [e], a, goal);
    BoundedTwice(states'[|steps'|], Apply(s, e), s, a);
  }

  lemma NotAborted(s: State, a: nat)
    requires a < |s.attempts| && Completable(s, a)
    ensures s.attempts[a].phase != Aborted
  {
    hide LoopPops, Uses, Missing;
  }

  lemma RanksDiffer(p: Phase, q: Phase)
    requires p != Aborted && q != Aborted
    ensures Rank(p) == Rank(q) <==> p == q
    ensures q == Created ==> Rank(q) == 0
  {
  }

  lemma NextPhase(p: Phase, q: Phase)
    requires p in {Reserving, Installing} && Rank(p) <= Rank(q) + 1
    ensures q in {Reserving, Installing, ConfirmingDst}
  {
  }

  lemma BoundedSelf(s: State, a: nat)
    requires a < |s.attempts|
    ensures Bounded(s, s, a)
  {
  }

  lemma BoundedTwice(u: State, t: State, s: State, a: nat)
    requires a < |s.attempts| && a < |t.attempts| && a < |u.attempts| && Bounded(u, t, a) && Bounded(t, s, a)
    ensures Bounded(u, s, a)
  {
    hide Missing;
    forall pk
      ensures u.TableOf(pk).nextID + Missing(u.attempts[a], pk) <= s.TableOf(pk).nextID + Missing(s.attempts[a], pk)
    {
      assert t.TableOf(pk).nextID + Missing(t.attempts[a], pk) <= s.TableOf(pk).nextID + Missing(s.attempts[a], pk);
    }
  }

  /**
   * Every loop creation that has not failed can still be completed: each run that leaves it unfailed, whatever the
   * other attempts have done in it, extends to a run at whose end the loop is created. The compiler does not run out,
   * no confirmation meets an unknown loop, and no step waits for another attempt.
   */
  lemma CanComplete(states: seq<State>, steps: seq<Step>, a: nat) returns (states': seq<State>, steps': seq<Step>)
    requires Run(states, steps) && states[0] == INITIAL && a < |states[|steps|].attempts|
    requires Completable(states[|steps|], a)
    ensures Run(states', steps') && states <= states' && steps <= steps'
    ensures a < |states'[|steps'|].attempts| && states'[|steps'|].attempts[a].phase == Created
  {
    states', steps' := CanReach(states, steps, a, Created);
  }
}
