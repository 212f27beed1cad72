/**
 * Many loop creations running at once over shared visors. A step is one table operation of a visor, one
 * reply, or one move of the setup node; steps of different attempts interleave in any order, and requests,
 * replies and whole attempts may fail at any point.
 */
module SetupRun {
  import opened Base
  import opened RoutingTable
  import opened IdReservoir
  import opened RouteManager
  import opened Delivery

  datatype Phase = Reserving | Installing | ConfirmingDst | ConfirmingSrc | Created | Aborted

  datatype Side = Dst | Src

  /** A loop confirmation in progress at one end: what was asked, read, and written back. */
  datatype Confirmation = Confirmation(asked: bool, read: Option<(RouteID, Rule)>, written: bool)

  const UNASKED := Confirmation(false, None, false)

  /** One run of handleCreateLoop. `done` counts how much of its rule list each visor has set. */
  datatype Attempt = Attempt(ld: LoopDescriptor, phase: Phase, ids: Ids, code: Option<Compiled>, done: map<PubKey, nat>,
                             acked: set<PubKey>, refused: set<PubKey>, dst: Confirmation, src: Confirmation) {

    function Rules(pk: PubKey): seq<Rule> {
      if code.Some? then RulesOf(code.value.rules, pk) else []
    }

    function Done(pk: PubKey): nat {
      if pk in done then done[pk] else 0
    }

    function At(side: Side): Confirmation {
      if side.Dst? then dst else src
    }

    function With(side: Side, c: Confirmation): Attempt {
      if side.Dst? then this.(dst := c) else this.(src := c)
    }

    /** The loop as the confirmed end is told it: its own address first. */
    function LoopAt(side: Side): Loop {
      if side.Dst? then Loop(ld.loop.remote, ld.loop.local) else ld.loop
    }

    function FirstAt(side: Side): RouteID
      requires code.Some?
    {
      if side.Dst? then code.value.dstFwdRID else code.value.srcFwdRID
    }

    /** How many identifiers the (wrapped) counter asks of a visor. */
    function Asked(pk: PubKey): nat {
      if ld.forward == [] || ld.reverse == [] then 0 else Uses(LoopPops(ld), pk) % 256
    }
  }

  datatype State = State(tables: map<PubKey, Table>, attempts: seq<Attempt>) {

    function TableOf(pk: PubKey): Table {
      if pk in tables then tables[pk] else EMPTY
    }

    function Put(a: nat, x: Attempt): State
      requires a < |attempts|
    {
      this.(attempts := attempts[a := x])
    }

    function Write(pk: PubKey, t: Table): State {
      this.(tables := tables[pk := t])
    }
  }

  datatype Step =
    | Start(ld: LoopDescriptor)
    | Give(a: nat, pk: PubKey)
    | Compile(a: nat)
    | Install(a: nat, pk: PubKey)
    | Ack(a: nat, pk: PubKey)
    | Refuse(a: nat, pk: PubKey)
    | Join(a: nat)
    | Read(a: nat, side: Side, id: RouteID)
    | WriteBack(a: nat, side: Side)
    | Confirmed(a: nat, side: Side)
    | GiveUp(a: nat)

  /** The identifiers never run out during the run: no counter reaches its wrap. */
  predicate Room(t: Table) {
    t.nextID < UINT32 - 1
  }

  ghost predicate Enabled(s: State, e: Step) {
    match e
    // A route finder's answer. Other attempts, finished or not, may join the same ends.
    case Start(ld) => JoinsEnds(ld)
    // A visor may still be working on a request whose attempt was given up.
    case Give(a, pk) => a < |s.attempts| && s.attempts[a].code.None? && s.attempts[a].phase in {Reserving, Aborted}
                        && |IdsOf(s.attempts[a].ids, pk)| < s.attempts[a].Asked(pk) && Room(s.TableOf(pk))
    case Compile(a) => a < |s.attempts| && s.attempts[a].phase == Reserving
                       && forall pk :: |IdsOf(s.attempts[a].ids, pk)| == s.attempts[a].Asked(pk)
    case Install(a, pk) => a < |s.attempts| && s.attempts[a].phase in {Installing, Aborted}
                           && s.attempts[a].Done(pk) < |s.attempts[a].Rules(pk)|
    // Replies are truthful: success is reported for a list that was set in full.
    case Ack(a, pk) => a < |s.attempts| && s.attempts[a].phase == Installing
                       && pk !in s.attempts[a].acked + s.attempts[a].refused
                       && s.attempts[a].Done(pk) == |s.attempts[a].Rules(pk)|
    case Refuse(a, pk) => a < |s.attempts| && s.attempts[a].phase == Installing
                          && pk !in s.attempts[a].acked + s.attempts[a].refused
    // finalError reads one reply per visor before it looks at the outcome.
    case Join(a) => a < |s.attempts| && s.attempts[a].phase == Installing
                    && forall pk :: s.attempts[a].Rules(pk) != [] ==> pk in s.attempts[a].acked + s.attempts[a].refused
    case Read(a, side, id) => a < |s.attempts| && s.attempts[a].At(side).asked && s.attempts[a].At(side).read.None?
                              && var t := s.TableOf(s.attempts[a].LoopAt(side).local.pk);
                                 id in t.rules && Matches(t.rules[id], s.attempts[a].LoopAt(side))
    // The first identifier must be bound to a forwarding rule, and the router's callback must accept. No step changes
    // that binding, so it is looked up here. The callback's refusal is the step GiveUp.
    case WriteBack(a, side) => a < |s.attempts| && s.attempts[a].At(side).read.Some?
                               && s.attempts[a].At(side).read.value.1.App?
                               && !s.attempts[a].At(side).written && s.attempts[a].code.Some?
                               && var rules := s.TableOf(s.attempts[a].LoopAt(side).local.pk).rules;
                                  var first := s.attempts[a].FirstAt(side);
                                  first in rules && rules[first].Forward?
    case Confirmed(a, side) => a < |s.attempts| && s.attempts[a].At(side).written
                               && s.attempts[a].phase == (if side.Dst? then ConfirmingDst else ConfirmingSrc)
    case GiveUp(a) => a < |s.attempts| && s.attempts[a].phase !in {Created, Installing}
  }

  ghost function Apply(s: State, e: Step): State
    requires Enabled(s, e)
  {
    match e
    case Start(ld) =>
      s.(attempts := s.attempts + [Attempt(ld, Reserving, map[], None, map[], {}, {}, UNASKED, UNASKED)])
    case Give(a, pk) =>
      var t, x := s.TableOf(pk), s.attempts[a];
      s.Write(pk, t.Add(PLACEHOLDER)).Put(a, x.(ids := x.ids[pk := IdsOf(x.ids, pk) + [t.NextID()]]))
    case Compile(a) =>
      var x := s.attempts[a];
      if x.ld.forward == [] || x.ld.reverse == [] || Generate(x.ids, x.ld).None? then s.Put(a, x.(phase := Aborted))
      else s.Put(a, x.(phase := Installing, code := Generate(x.ids, x.ld)))
    case Install(a, pk) =>
      var x := s.attempts[a];
      var rule := x.Rules(pk)[x.Done(pk)];
      s.Write(pk, s.TableOf(pk).Set(rule.reqID, rule)).Put(a, x.(done := x.done[pk := x.Done(pk) + 1]))
    case Ack(a, pk) => s.Put(a, s.attempts[a].(acked := s.attempts[a].acked + {pk}))
    case Refuse(a, pk) => s.Put(a, s.attempts[a].(refused := s.attempts[a].refused + {pk}))
    case Join(a) =>
      var x := s.attempts[a];
      s.Put(a, if x.refused != {} then x.(phase := Aborted)
               else x.(phase := ConfirmingDst, dst := x.dst.(asked := true)))
    case Read(a, side, id) =>
      var x := s.attempts[a];
      s.Put(a, x.With(side, x.At(side).(read := Some((id, s.TableOf(x.LoopAt(side).local.pk).rules[id])))))
    case WriteBack(a, side) =>
      var x, pk := s.attempts[a], s.attempts[a].LoopAt(side).local.pk;
      var (id, rule) := x.At(side).read.value;
      s.Write(pk, s.TableOf(pk).Set(id, rule.(respID := x.FirstAt(side))))
       .Put(a, x.With(side, x.At(side).(written := true)))
    case Confirmed(a, side) =>
      var x := s.attempts[a];
      s.Put(a, if side.Dst? then x.(phase := ConfirmingSrc, src := x.src.(asked := true)) else x.(phase := Created))
    case GiveUp(a) => s.Put(a, s.attempts[a].(phase := Aborted))
  }

  // Invariants.

  ghost predicate Complete(x: Attempt) {
    forall pk :: x.Done(pk) == |x.Rules(pk)|
  }

  /** The setup node's own order of business, attempt by attempt. */
  ghost predicate Ordered(x: Attempt) {
    && JoinsEnds(x.ld)
    && (x.code.Some? ==> Generate(x.ids, x.ld) == x.code)
    && (x.phase == Reserving ==> x.code.None?) && (x.code.None? ==> x.phase in {Reserving, Aborted} && x.acked == {})
    && (forall pk :: x.Done(pk) <= |x.Rules(pk)|)
    && (forall pk :: pk in x.acked ==> x.Done(pk) == |x.Rules(pk)|)
    && (x.dst.asked ==> x.code.Some? && Complete(x) && x.refused == {} && x.phase != Installing)
    && (x.phase in {ConfirmingDst, ConfirmingSrc, Created} ==> x.dst.asked)
    && (x.phase in {ConfirmingSrc, Created} ==> x.src.asked)
    && (x.src.asked ==> x.dst.written)
    && (x.phase == Created ==> x.src.written)
    && InOrder(x.dst) && InOrder(x.src)
  }

  predicate InOrder(c: Confirmation) {
    (c.written ==> c.read.Some?) && (c.read.Some? ==> c.asked)
  }

  /** Identifiers given are bound, and given once. */
  ghost predicate IdsApart(s: State) {
    && (forall a, pk, i :: 0 <= a < |s.attempts| && 0 <= i < |IdsOf(s.attempts[a].ids, pk)| ==>
          0 < IdsOf(s.attempts[a].ids, pk)[i] <= s.TableOf(pk).nextID)
    && (forall a, b, pk, i, j ::
          (0 <= a < |s.attempts| && 0 <= i < |IdsOf(s.attempts[a].ids, pk)| && 0 <= b < |s.attempts|
           && 0 <= j < |IdsOf(s.attempts[b].ids, pk)| && (a != b || i != j))
          ==> IdsOf(s.attempts[a].ids, pk)[i] != IdsOf(s.attempts[b].ids, pk)[j])
  }

  /** The rule is bound under its own identifier; an App rule may have been given another route ID since. */
  ghost predicate Bound(t: Table, rule: Rule) {
    rule.reqID in t.rules && Alike(t.rules[rule.reqID], rule)
  }

  /** Every rule set so far is still bound. */
  ghost predicate Undisturbed(s: State) {
    forall a, pk, k :: 0 <= a < |s.attempts| && 0 <= k < s.attempts[a].Done(pk) && k < |s.attempts[a].Rules(pk)| ==>
      Bound(s.TableOf(pk), s.attempts[a].Rules(pk)[k])
  }

  ghost predicate SetBy(x: Attempt, pk: PubKey, rule: Rule) {
    exists k :: 0 <= k < x.Done(pk) && k < |x.Rules(pk)| && Alike(x.Rules(pk)[k], rule)
  }

  ghost predicate Owned(s: State, pk: PubKey, rule: Rule) {
    exists a :: 0 <= a < |s.attempts| && SetBy(s.attempts[a], pk, rule)
  }

  ghost predicate AccountedAt(s: State, pk: PubKey, id: RouteID) {
    var rules := s.TableOf(pk).rules;
    id in rules ==> rules[id] == PLACEHOLDER || (rules[id].reqID == id && Owned(s, pk, rules[id]))
  }

  /** Nothing else is in the tables: a rule is a placeholder, or some attempt set it. */
  ghost predicate Accounted(s: State) {
    forall pk, id :: AccountedAt(s, pk, id)
  }

  /** A confirmation holds a rule for its loop that some attempt, this one or another, has set. */
  ghost predicate ReadsSet(s: State, x: Attempt, side: Side) {
    x.At(side).read.Some? ==>
      var (id, rule) := x.At(side).read.value;
      id == rule.reqID && Matches(rule, x.LoopAt(side)) && Owned(s, x.LoopAt(side).local.pk, rule)
  }

  /** The rule is for one end of the attempt's loop and names the attempt's first identifier there. */
  ghost predicate NamesFirst(x: Attempt, side: Side, pk: PubKey, rule: Rule) {
    && x.code.Some? && pk == x.LoopAt(side).local.pk
    && Matches(rule, x.LoopAt(side)) && rule.respID == x.FirstAt(side)
  }

  ghost predicate NamedBySome(s: State, pk: PubKey, rule: Rule) {
    exists b, side :: 0 <= b < |s.attempts| && NamesFirst(s.attempts[b], side, pk, rule)
  }

  ghost predicate NamedAt(s: State, pk: PubKey, id: RouteID) {
    id in s.TableOf(pk).rules && s.TableOf(pk).rules[id].App? ==> NamedBySome(s, pk, s.TableOf(pk).rules[id])
  }

  /** Every App rule names the first identifier of an attempt that joins the ends it is for. */
  ghost predicate Named(s: State) {
    forall pk, id :: NamedAt(s, pk, id)
  }

  ghost predicate TablesFine(s: State) {
    forall pk :: Allocated(s.TableOf(pk))
  }

  ghost predicate AttemptsFine(s: State) {
    forall a :: 0 <= a < |s.attempts| ==> Ordered(s.attempts[a])
  }

  ghost predicate ReadsFine(s: State) {
    forall a, side :: 0 <= a < |s.attempts| ==> ReadsSet(s, s.attempts[a], side)
  }

  ghost predicate Inv(s: State) {
    AttemptsFine(s) && ReadsFine(s) && IdsApart(s) && Undisturbed(s) && Accounted(s) && Named(s) && TablesFine(s)
  }

  // Facts about compiled lists.

  /** The rules of a visor are keyed by identifiers it gave to this attempt, each by a different one. */
  lemma KeysAreOwn(x: Attempt, pk: PubKey)
    requires JoinsEnds(x.ld) && x.code.Some? && Generate(x.ids, x.ld) == x.code && Distinct(IdsOf(x.ids, pk))
    ensures forall k :: 0 <= k < |x.Rules(pk)| ==> x.Rules(pk)[k].reqID in IdsOf(x.ids, pk)
    ensures Distinct(ReqIDs(x.Rules(pk)))
  {
    hide Generate, JoinsEnds;
    GenerateConserves(x.ids, x.ld, pk);
    var left, keys := IdsOf(x.code.value.ids, pk), ReqIDs(x.Rules(pk));
    assert multiset(left + keys) == multiset(IdsOf(x.ids, pk));
    SameMultisetDistinct(left + keys, IdsOf(x.ids, pk));
    forall k | 0 <= k < |keys|
      ensures x.Rules(pk)[k].reqID == keys[k] && keys[k] in IdsOf(x.ids, pk)
    {
      assert keys[k] in multiset(keys);
      assert keys[k] in multiset(IdsOf(x.ids, pk));
    }
    forall i, j | 0 <= i < j < |keys|
      ensures keys[i] != keys[j]
    {
      assert (left + keys)[|left| + i] == keys[i] && (left + keys)[|left| + j] == keys[j];
    }
  }

  ghost predicate OnlyForwards(rules: RuleLists) {
    forall pk, rule :: rule in RulesOf(rules, pk) ==> rule.Forward?
  }

  lemma {:induction false} WalkOnlyForwards(w: Walked, keepAlive: int, hops: Route)
    requires OnlyForwards(w.rules) && Walk(w, keepAlive, hops).Some?
    ensures OnlyForwards(Walk(w, keepAlive, hops).value.rules)
    decreases |hops|
  {
    if hops != [] {
      var w' := TakeHop(w, keepAlive, hops[0]).value;
      forall pk, rule | rule in RulesOf(w'.rules, pk)
        ensures rule.Forward?
      {
        assert rule in RulesOf(w.rules, pk) || rule == w'.rules[hops[0].from][|RulesOf(w.rules, hops[0].from)|];
      }
      hide OnlyForwards;
      WalkOnlyForwards(w', keepAlive, hops[1..]);
    }
  }

  /** The only App rules compiled are the two at the ends, each naming the end's own first identifier. */
  lemma AppRulesAtEnds(ids: Ids, ld: LoopDescriptor, pk: PubKey, rule: Rule)
    requires ld.forward != [] && ld.reverse != [] && Generate(ids, ld).Some?
    requires rule in RulesOf(Generate(ids, ld).value.rules, pk) && rule.App?
    ensures var c, src, dst := Generate(ids, ld).value, ld.loop.local, ld.loop.remote;
            || (pk == src.pk && rule.remotePK == dst.pk && rule.remotePort == dst.port && rule.localPort == src.port
                && rule.respID == c.srcFwdRID)
            || (pk == dst.pk && rule.remotePK == src.pk && rule.remotePort == src.port && rule.localPort == dst.port
                && rule.respID == c.dstFwdRID)
  {
    var f := SaveForward(map[], ids, ld.keepAlive, ld.forward).value;
    var r := SaveForward(f.rules, f.ids, ld.keepAlive, ld.reverse).value;
    var (first, ids') := PopFrom(ids, ld.forward[0].from).value;
    WalkOnlyForwards(Walked(map[], ids', first), ld.keepAlive, ld.forward);
    var (firstRev, ids'') := PopFrom(f.ids, ld.reverse[0].from).value;
    WalkOnlyForwards(Walked(f.rules, ids'', firstRev), ld.keepAlive, ld.reverse);
    assert OnlyForwards(r.rules);
    var srcRule, dstRule := SrcAppRule(ld, r.last, f.first), DstAppRule(ld, f.last, r.first);
    AppendMember(r.rules, ld.loop.local.pk, srcRule, pk, rule);
    AppendMember(AppendRule(r.rules, ld.loop.local.pk, srcRule), ld.loop.remote.pk, dstRule, pk, rule);
    var withSrc := AppendRule(r.rules, ld.loop.local.pk, srcRule);
    assert Generate(ids, ld).value.rules == AppendRule(withSrc, ld.loop.remote.pk, dstRule);
    OnlyForwardsMember(r.rules, pk, rule);
  }

  lemma OnlyForwardsMember(rules: RuleLists, pk: PubKey, rule: Rule)
    requires OnlyForwards(rules)
    ensures rule in RulesOf(rules, pk) ==> rule.Forward?
  {
  }

  lemma AppendMember(rules: RuleLists, at: PubKey, rule: Rule, pk: PubKey, x: Rule)
    ensures x in RulesOf(AppendRule(rules, at, rule), pk) ==> x in RulesOf(rules, pk) || (pk == at && x == rule)
  {
  }

  // Every step keeps the invariant.

  /** What a step may change in an attempt: its list only gets longer, and nothing done is undone. */
  ghost predicate Advances(x: Attempt, y: Attempt) {
    && y.ld == x.ld
    && (x.code.Some? ==> y.code == x.code && y.ids == x.ids)
    && (forall pk :: x.Done(pk) <= y.Done(pk))
    && Persists(x.dst, y.dst) && Persists(x.src, y.src)
  }

  predicate Persists(c: Confirmation, d: Confirmation) {
    (c.asked ==> d.asked) && (c.written ==> d.written)
  }

  lemma OthersUnchanged(s: State, e: Step, a: nat)
    requires Enabled(s, e) && a < |s.attempts| && (e.Start? || a != e.a)
    ensures a < |Apply(s, e).attempts| && Apply(s, e).attempts[a] == s.attempts[a]
  {
  }

  lemma DoneAfterInstall(x: Attempt, pk: PubKey, q: PubKey)
    ensures x.(done := x.done[pk := x.Done(pk) + 1]).Done(q) == x.Done(q) + (if q == pk then 1 else 0)
    ensures x.(done := x.done[pk := x.Done(pk) + 1]).Rules(q) == x.Rules(q)
  {
  }

  lemma AttemptFine(s: State, a: nat)
    requires AttemptsFine(s) && a < |s.attempts|
    ensures Ordered(s.attempts[a])
  {
    hide Ordered;
  }

  lemma InvAt(s: State, pk: PubKey, id: RouteID)
    requires Inv(s)
    ensures AttemptsFine(s) && IdsApart(s) && Allocated(s.TableOf(pk)) && AccountedAt(s, pk, id) && NamedAt(s, pk, id)
  {
    hide AttemptsFine, ReadsFine, IdsApart, Undisturbed, AccountedAt, NamedAt, Allocated;
  }

  lemma ConfirmationAdvances(s: State, e: Step)
    requires Enabled(s, e) && (e.Read? || e.WriteBack? || e.Confirmed?)
    ensures e.a < |Apply(s, e).attempts| && Advances(s.attempts[e.a], Apply(s, e).attempts[e.a])
  {
    hide Generate, JoinsEnds, Matches;
    var x, y := s.attempts[e.a], Apply(s, e).attempts[e.a];
    assert y.ld == x.ld && y.code == x.code && y.ids == x.ids && y.done == x.done;
  }

  lemma MoveAdvances(s: State, e: Step)
    requires Enabled(s, e) && !e.Start? && !e.Read? && !e.WriteBack? && !e.Confirmed?
    requires e.a < |s.attempts| && Ordered(s.attempts[e.a])
    ensures e.a < |Apply(s, e).attempts| && Advances(s.attempts[e.a], Apply(s, e).attempts[e.a])
  {
    hide Generate, JoinsEnds, Complete, LoopPops, Uses, Matches, InOrder;
    if e.Install? {
      forall q { DoneAfterInstall(s.attempts[e.a], e.pk, q); }
    }
  }

  lemma StepAdvances(s: State, e: Step, a: nat)
    requires Enabled(s, e) && a < |s.attempts| && Ordered(s.attempts[a])
    ensures a < |Apply(s, e).attempts| && Advances(s.attempts[a], Apply(s, e).attempts[a])
  {
    hide Ordered;
    if e.Start? || a != e.a {
      OthersUnchanged(s, e, a);
    } else {
      hide Enabled, Apply, Advances;
      if e.Read? || e.WriteBack? || e.Confirmed? {
        ConfirmationAdvances(s, e);
      } else {
        MoveAdvances(s, e);
      }
    }
  }

  lemma InstallOrdered(s: State, e: Step)
    requires Enabled(s, e) && e.Install? && Ordered(s.attempts[e.a])
    ensures e.a < |Apply(s, e).attempts| && Ordered(Apply(s, e).attempts[e.a])
  {
    hide Generate, JoinsEnds;
    var x := s.attempts[e.a];
    assert x.Done(e.pk) < |x.Rules(e.pk)|;
    assert e.pk !in x.acked && !Complete(x);
    var y := Apply(s, e).attempts[e.a];
    assert y == x.(done := x.done[e.pk := x.Done(e.pk) + 1]);
    forall q
      ensures y.Done(q) == x.Done(q) + (if q == e.pk then 1 else 0) && y.Rules(q) == x.Rules(q)
    {
      DoneAfterInstall(x, e.pk, q);
    }
    assert forall q :: y.Done(q) <= |y.Rules(q)|;
  }

  lemma JoinOrdered(s: State, e: Step)
    requires Enabled(s, e) && e.Join? && Ordered(s.attempts[e.a])
    ensures e.a < |Apply(s, e).attempts| && Ordered(Apply(s, e).attempts[e.a])
  {
    hide Generate, JoinsEnds;
    var x, y := s.attempts[e.a], Apply(s, e).attempts[e.a];
    forall pk
      ensures x.Done(pk) == |x.Rules(pk)| || x.refused != {}
      ensures y.Done(pk) == x.Done(pk) && y.Rules(pk) == x.Rules(pk)
    {
      assert x.Rules(pk) == [] || pk in x.acked + x.refused;
    }
  }

  lemma ConfirmationOrdered(s: State, e: Step)
    requires Enabled(s, e) && (e.Read? || e.WriteBack?) && Ordered(s.attempts[e.a])
    ensures e.a < |Apply(s, e).attempts| && Ordered(Apply(s, e).attempts[e.a])
  {
    hide Generate, JoinsEnds, Matches;
    var x, y := s.attempts[e.a], Apply(s, e).attempts[e.a];
    assert forall pk :: y.Done(pk) == x.Done(pk);
  }

  lemma MoveOrdered(s: State, e: Step)
    requires Enabled(s, e) && !e.Start? && !e.Install? && !e.Join? && !e.Read? && !e.WriteBack?
    requires e.a < |s.attempts| && Ordered(s.attempts[e.a])
    ensures e.a < |Apply(s, e).attempts| && Ordered(Apply(s, e).attempts[e.a])
  {
    hide Generate, JoinsEnds, LoopPops, Uses, Matches;
    var x, y := s.attempts[e.a], Apply(s, e).attempts[e.a];
    assert forall pk :: y.Done(pk) == x.Done(pk);
    match e {
      case Ack(_, _) => assert Ordered(y);
      case Confirmed(_, _) => assert Ordered(y);
      case Compile(_) => assert Ordered(y);
      case _ =>
    }
  }

  lemma StepOrdered(s: State, e: Step, a: nat)
    requires AttemptsFine(s) && Enabled(s, e) && a < |Apply(s, e).attempts|
    ensures Ordered(Apply(s, e).attempts[a])
  {
    if a < |s.attempts| {
      AttemptFine(s, a);
      hide Ordered, AttemptsFine;
      if e.Start? || a != e.a {
        OthersUnchanged(s, e, a);
      } else {
        hide Enabled, Apply;
        if e.Install? {
          InstallOrdered(s, e);
        } else if e.Join? {
          JoinOrdered(s, e);
        } else if e.Read? || e.WriteBack? {
          ConfirmationOrdered(s, e);
        } else {
          MoveOrdered(s, e);
        }
      }
    } else {
      hide AttemptsFine, JoinsEnds, Generate;
    }
  }

  lemma TablesAfter(s: State, e: Step, pk: PubKey)
    requires Enabled(s, e)
    ensures e.Give? && e.pk == pk ==> Apply(s, e).TableOf(pk) == s.TableOf(pk).Add(PLACEHOLDER)
    ensures e.Install? && e.pk == pk ==>
              var rule := s.attempts[e.a].Rules(pk)[s.attempts[e.a].Done(pk)];
              Apply(s, e).TableOf(pk) == s.TableOf(pk).Set(rule.reqID, rule)
    ensures (e.Give? || e.Install?) && e.pk != pk ==> Apply(s, e).TableOf(pk) == s.TableOf(pk)
    ensures !e.Give? && !e.Install? && !e.WriteBack? ==> Apply(s, e).TableOf(pk) == s.TableOf(pk)
  {
  }

  lemma OwnedBound(s: State, pk: PubKey, rule: Rule)
    requires Undisturbed(s) && Owned(s, pk, rule)
    ensures Bound(s.TableOf(pk), rule)
  {
    var a :| 0 <= a < |s.attempts| && SetBy(s.attempts[a], pk, rule);
    var x := s.attempts[a];
    var k :| 0 <= k < x.Done(pk) && k < |x.Rules(pk)| && Alike(x.Rules(pk)[k], rule);
    assert Bound(s.TableOf(pk), s.attempts[a].Rules(pk)[k]);
  }

  /** A confirmation changes the route ID of one App rule for its loop to its own first identifier, and nothing else. */
  lemma WriteBackRebinds(s: State, e: Step)
    requires Inv(s) && Enabled(s, e) && e.WriteBack?
    ensures var x, at := s.attempts[e.a], s.attempts[e.a].LoopAt(e.side).local.pk;
            var before, id := s.TableOf(at).rules, x.At(e.side).read.value.0;
            && id in before && Matches(before[id], x.LoopAt(e.side)) && Alike(before[id], x.At(e.side).read.value.1)
            && Apply(s, e).TableOf(at) == Table(s.TableOf(at).nextID, Rebound(before, id, x.FirstAt(e.side)))
            && forall pk :: pk != at ==> Apply(s, e).TableOf(pk) == s.TableOf(pk)
  {
    var x, at := s.attempts[e.a], s.attempts[e.a].LoopAt(e.side).local.pk;
    assert ReadsSet(s, x, e.side);
    hide AttemptsFine, ReadsFine, IdsApart, Accounted, Named, TablesFine, Generate;
    OwnedBound(s, at, x.At(e.side).read.value.1);
    hide Undisturbed, Owned;
  }

  lemma WriteBackKeeps(s: State, e: Step, pk: PubKey)
    requires Inv(s) && Enabled(s, e) && e.WriteBack?
    ensures Apply(s, e).TableOf(pk).nextID == s.TableOf(pk).nextID
    ensures Apply(s, e).TableOf(pk).rules.Keys == s.TableOf(pk).rules.Keys
    ensures forall id :: id in s.TableOf(pk).rules ==> Alike(Apply(s, e).TableOf(pk).rules[id], s.TableOf(pk).rules[id])
  {
    WriteBackRebinds(s, e);
    hide Inv, Enabled, Apply;
    if pk == s.attempts[e.a].LoopAt(e.side).local.pk {
      var id := s.attempts[e.a].At(e.side).read.value.0;
      RebindChangesOneField(s.TableOf(pk).rules, id, s.attempts[e.a].FirstAt(e.side));
    }
  }

  lemma IdsAfter(s: State, e: Step, b: nat, pk: PubKey)
    requires Enabled(s, e) && b < |s.attempts|
    ensures b < |Apply(s, e).attempts|
    ensures IdsOf(Apply(s, e).attempts[b].ids, pk)
         == IdsOf(s.attempts[b].ids, pk) + (if e.Give? && e.a == b && e.pk == pk then [s.TableOf(pk).NextID()] else [])
  {
    hide Generate, JoinsEnds, Matches, LoopPops, Uses;
    if e.Start? || b != e.a {
      OthersUnchanged(s, e, b);
    }
  }

  lemma CounterGrows(s: State, e: Step, pk: PubKey)
    requires Inv(s) && Enabled(s, e)
    ensures Apply(s, e).TableOf(pk).nextID == s.TableOf(pk).nextID + (if e.Give? && e.pk == pk then 1 else 0)
  {
    hide Inv, Apply, Enabled;
    if e.WriteBack? {
      WriteBackKeeps(s, e, pk);
    } else {
      TablesAfter(s, e, pk);
      if e.Give? {
        GiveNeedsRoom(s, e);
      }
    }
  }

  lemma NewAttemptHasNoIds(s: State, e: Step, a: nat, pk: PubKey)
    requires Enabled(s, e) && |s.attempts| <= a < |Apply(s, e).attempts|
    ensures IdsOf(Apply(s, e).attempts[a].ids, pk) == []
  {
    hide Generate, JoinsEnds;
  }

  lemma IdStaysAllocated(s: State, e: Step, a: nat, pk: PubKey, i: nat)
    requires Inv(s) && Enabled(s, e) && a < |Apply(s, e).attempts| && i < |IdsOf(Apply(s, e).attempts[a].ids, pk)|
    ensures a < |s.attempts|
    ensures 0 < IdsOf(Apply(s, e).attempts[a].ids, pk)[i] <= Apply(s, e).TableOf(pk).nextID
  {
    if a < |s.attempts| {
      hide Apply, Enabled, Undisturbed, Accounted, TablesFine, AttemptsFine;
      CounterGrows(s, e, pk);
      IdsAfter(s, e, a, pk);
      if e.Give? {
        GiveNeedsRoom(s, e);
      }
    } else {
      NewAttemptHasNoIds(s, e, a, pk);
    }
  }

  lemma ExtendedApart(xs: seq<RouteID>, ys: seq<RouteID>, moreX: seq<RouteID>, moreY: seq<RouteID>, next: RouteID,
                      i: nat, j: nat)
    requires (moreX == [] || moreX == [next]) && (moreY == [] || moreY == [next])
    requires moreX + moreY != [] ==> next !in xs && next !in ys
    requires i < |xs| && j < |ys| ==> xs[i] != ys[j]
    requires i < |xs + moreX| && j < |ys + moreY| && (i < |xs| || j < |ys|)
    ensures (xs + moreX)[i] != (ys + moreY)[j]
  {
  }

  lemma NextNotGiven(s: State, a: nat, pk: PubKey)
    requires IdsApart(s) && a < |s.attempts| && Room(s.TableOf(pk))
    ensures s.TableOf(pk).NextID() !in IdsOf(s.attempts[a].ids, pk)
  {
    forall i | 0 <= i < |IdsOf(s.attempts[a].ids, pk)|
      ensures IdsOf(s.attempts[a].ids, pk)[i] != s.TableOf(pk).NextID()
    {
      assert IdsOf(s.attempts[a].ids, pk)[i] <= s.TableOf(pk).nextID;
    }
  }

  lemma IdsStayApart(s: State, e: Step, a: nat, b: nat, pk: PubKey, i: nat, j: nat)
    requires IdsApart(s) && Enabled(s, e) && a < |s.attempts| && b < |s.attempts| && (a != b || i != j)
    requires a < |Apply(s, e).attempts| && b < |Apply(s, e).attempts|
    requires i < |IdsOf(Apply(s, e).attempts[a].ids, pk)| && j < |IdsOf(Apply(s, e).attempts[b].ids, pk)|
    ensures IdsOf(Apply(s, e).attempts[a].ids, pk)[i] != IdsOf(Apply(s, e).attempts[b].ids, pk)[j]
  {
    IdsAfter(s, e, a, pk);
    IdsAfter(s, e, b, pk);
    var xs, ys := IdsOf(s.attempts[a].ids, pk), IdsOf(s.attempts[b].ids, pk);
    assert i < |xs| && j < |ys| ==> xs[i] != ys[j];
    if e.Give? && e.pk == pk {
      GiveNeedsRoom(s, e);
      NextNotGiven(s, a, pk);
      NextNotGiven(s, b, pk);
    }
    hide *;
    var next := s.TableOf(pk).NextID();
    ExtendedApart(xs, ys, if e.Give? && e.a == a && e.pk == pk then [next] else [],
                  if e.Give? && e.a == b && e.pk == pk then [next] else [], next, i, j);
  }

  lemma StepIdsApart(s: State, e: Step)
    requires Inv(s) && Enabled(s, e)
    ensures IdsApart(Apply(s, e))
  {
    hide Inv, Enabled, Apply;
    var t := Apply(s, e);
    forall a, pk, i | 0 <= a < |t.attempts| && 0 <= i < |IdsOf(t.attempts[a].ids, pk)|
      ensures 0 < IdsOf(t.attempts[a].ids, pk)[i] <= t.TableOf(pk).nextID
    {
      IdStaysAllocated(s, e, a, pk, i);
    }
    forall a, b, pk, i, j | 0 <= a < |t.attempts| && 0 <= i < |IdsOf(t.attempts[a].ids, pk)| && 0 <= b < |t.attempts|
                            && 0 <= j < |IdsOf(t.attempts[b].ids, pk)| && (a != b || i != j)
      ensures IdsOf(t.attempts[a].ids, pk)[i] != IdsOf(t.attempts[b].ids, pk)[j]
    {
      GivenStayApart(s, e, a, b, pk, i, j);
    }
  }

  lemma GivenStayApart(s: State, e: Step, a: nat, b: nat, pk: PubKey, i: nat, j: nat)
    requires Inv(s) && Enabled(s, e) && a < |Apply(s, e).attempts| && b < |Apply(s, e).attempts| && (a != b || i != j)
    requires i < |IdsOf(Apply(s, e).attempts[a].ids, pk)| && j < |IdsOf(Apply(s, e).attempts[b].ids, pk)|
    ensures IdsOf(Apply(s, e).attempts[a].ids, pk)[i] != IdsOf(Apply(s, e).attempts[b].ids, pk)[j]
  {
    hide Enabled, Apply, AttemptsFine, IdsApart, Undisturbed, Accounted, TablesFine;
    IdStaysAllocated(s, e, a, pk, i);
    IdStaysAllocated(s, e, b, pk, j);
    IdsStayApart(s, e, a, b, pk, i, j);
  }

  lemma IdsDistinct(s: State, a: nat, pk: PubKey)
    requires IdsApart(s) && a < |s.attempts|
    ensures Distinct(IdsOf(s.attempts[a].ids, pk))
  {
  }

  /** Rules set by different attempts, or by different entries of one list, have different keys. */
  lemma KeysApart(s: State, a: nat, b: nat, pk: PubKey, k: nat, l: nat)
    requires AttemptsFine(s) && IdsApart(s) && a < |s.attempts| && b < |s.attempts|
    requires k < |s.attempts[a].Rules(pk)| && l < |s.attempts[b].Rules(pk)| && (a != b || k != l)
    ensures s.attempts[a].Rules(pk)[k].reqID != s.attempts[b].Rules(pk)[l].reqID
  {
    var x, y := s.attempts[a], s.attempts[b];
    KeyGiven(s, a, pk, k);
    KeyGiven(s, b, pk, l);
    hide AttemptsFine;
    if a != b {
      var i :| 0 <= i < |IdsOf(x.ids, pk)| && IdsOf(x.ids, pk)[i] == x.Rules(pk)[k].reqID;
      var j :| 0 <= j < |IdsOf(y.ids, pk)| && IdsOf(y.ids, pk)[j] == y.Rules(pk)[l].reqID;
      assert IdsOf(x.ids, pk)[i] != IdsOf(y.ids, pk)[j];
    } else {
      hide IdsApart;
      assert ReqIDs(x.Rules(pk))[k] != ReqIDs(x.Rules(pk))[l];
    }
  }

  lemma KeyGiven(s: State, a: nat, pk: PubKey, k: nat)
    requires AttemptsFine(s) && IdsApart(s) && a < |s.attempts| && k < |s.attempts[a].Rules(pk)|
    ensures s.attempts[a].Rules(pk)[k].reqID in IdsOf(s.attempts[a].ids, pk)
    ensures Distinct(ReqIDs(s.attempts[a].Rules(pk)))
  {
    AttemptFine(s, a);
    hide AttemptsFine, Generate, JoinsEnds, Complete;
    IdsDistinct(s, a, pk);
    hide IdsApart;
    KeysAreOwn(s.attempts[a], pk);
  }

  lemma KeysAllocated(s: State, a: nat, pk: PubKey, k: nat)
    requires AttemptsFine(s) && IdsApart(s) && a < |s.attempts| && k < |s.attempts[a].Rules(pk)|
    ensures 0 < s.attempts[a].Rules(pk)[k].reqID <= s.TableOf(pk).nextID
  {
    var x := s.attempts[a];
    KeyGiven(s, a, pk, k);
    hide AttemptsFine;
    var i :| 0 <= i < |IdsOf(x.ids, pk)| && IdsOf(x.ids, pk)[i] == x.Rules(pk)[k].reqID;
  }

  lemma StaysAllocated(s: State, e: Step, pk: PubKey)
    requires Inv(s) && Enabled(s, e)
    ensures Allocated(Apply(s, e).TableOf(pk))
  {
    InvAt(s, pk, 0);
    hide Inv, Apply, Enabled, AttemptsFine, IdsApart;
    if e.WriteBack? {
      WriteBackKeeps(s, e, pk);
    } else {
      TablesAfter(s, e, pk);
      if e.Install? && e.pk == pk {
        InstallEnabled(s, e);
        KeysAllocated(s, e.a, pk, s.attempts[e.a].Done(pk));
      } else if e.Give? && e.pk == pk {
        GiveNeedsRoom(s, e);
        AddRuleFresh(s.TableOf(pk), PLACEHOLDER);
      }
    }
  }

  lemma StepTablesFine(s: State, e: Step)
    requires Inv(s) && Enabled(s, e)
    ensures TablesFine(Apply(s, e))
  {
    forall pk { StaysAllocated(s, e, pk); }
  }

  lemma StepUndisturbed(s: State, e: Step)
    requires Inv(s) && Enabled(s, e)
    ensures Undisturbed(Apply(s, e))
  {
    var t := Apply(s, e);
    forall a, pk, k | 0 <= a < |t.attempts| && 0 <= k < t.attempts[a].Done(pk) && k < |t.attempts[a].Rules(pk)|
      ensures Bound(t.TableOf(pk), t.attempts[a].Rules(pk)[k])
    {
      if a < |s.attempts| {
        StillBound(s, e, a, pk, k);
      }
    }
  }

  /** A list is only ever replaced before anything of it was set. */
  lemma ListsAfter(s: State, e: Step, a: nat, pk: PubKey)
    requires Enabled(s, e) && a < |s.attempts| && Ordered(s.attempts[a])
    ensures a < |Apply(s, e).attempts|
    ensures Apply(s, e).attempts[a].Done(pk)
            == s.attempts[a].Done(pk) + (if e.Install? && e.a == a && e.pk == pk then 1 else 0)
    ensures Apply(s, e).attempts[a].Rules(pk) == s.attempts[a].Rules(pk) || Apply(s, e).attempts[a].Done(pk) == 0
  {
    if e.Start? || a != e.a {
      OthersUnchanged(s, e, a);
    } else if e.Install? {
      DoneAfterInstall(s.attempts[a], e.pk, pk);
    }
  }

  lemma StillBound(s: State, e: Step, a: nat, pk: PubKey, k: nat)
    requires Inv(s) && Enabled(s, e) && a < |s.attempts| && a < |Apply(s, e).attempts|
    requires k < Apply(s, e).attempts[a].Done(pk) && k < |Apply(s, e).attempts[a].Rules(pk)|
    ensures Bound(Apply(s, e).TableOf(pk), Apply(s, e).attempts[a].Rules(pk)[k])
  {
    hide Apply, Enabled, Ordered;
    assert Ordered(s.attempts[a]);
    assert Allocated(s.TableOf(pk));
    ListsAfter(s, e, a, pk);
    if e.WriteBack? {
      WriteBackKeeps(s, e, pk);
    } else if e.Install? {
      InstallLeavesBound(s, e, a, pk, k);
    } else {
      TablesAfter(s, e, pk);
      if e.Give? && e.pk == pk {
        GiveNeedsRoom(s, e);
        AddRuleFresh(s.TableOf(pk), PLACEHOLDER);
      }
    }
  }

  lemma GiveNeedsRoom(s: State, e: Step)
    requires Enabled(s, e) && e.Give?
    ensures Room(s.TableOf(e.pk))
  {
  }

  lemma InstallEnabled(s: State, e: Step)
    requires Enabled(s, e) && e.Install?
    ensures e.a < |s.attempts| && s.attempts[e.a].Done(e.pk) < |s.attempts[e.a].Rules(e.pk)|
  {
  }

  lemma InstallLeavesBound(s: State, e: Step, a: nat, pk: PubKey, k: nat)
    requires AttemptsFine(s) && IdsApart(s) && Undisturbed(s) && Enabled(s, e) && e.Install?
    requires a < |s.attempts| && k < |s.attempts[a].Rules(pk)|
    requires k < s.attempts[a].Done(pk) || (a == e.a && pk == e.pk && k == s.attempts[a].Done(pk))
    ensures Bound(Apply(s, e).TableOf(pk), s.attempts[a].Rules(pk)[k])
  {
    hide Apply, Enabled, AttemptsFine, IdsApart;
    InstallEnabled(s, e);
    TablesAfter(s, e, pk);
    if pk == e.pk && (a != e.a || k != s.attempts[a].Done(pk)) {
      KeysApart(s, a, e.a, pk, k, s.attempts[e.a].Done(pk));
    }
  }

  lemma SetByPersists(s: State, e: Step, a: nat, pk: PubKey, rule: Rule)
    requires Enabled(s, e) && a < |s.attempts| && Ordered(s.attempts[a]) && SetBy(s.attempts[a], pk, rule)
    ensures a < |Apply(s, e).attempts| && SetBy(Apply(s, e).attempts[a], pk, rule)
  {
    var x := s.attempts[a];
    var k :| 0 <= k < x.Done(pk) && k < |x.Rules(pk)| && Alike(x.Rules(pk)[k], rule);
    ListsAfter(s, e, a, pk);
    hide Apply, Enabled, Ordered;
    assert Alike(Apply(s, e).attempts[a].Rules(pk)[k], rule);
  }

  lemma OwnedPersists(s: State, e: Step, pk: PubKey, rule: Rule)
    requires AttemptsFine(s) && Enabled(s, e) && Owned(s, pk, rule)
    ensures Owned(Apply(s, e), pk, rule)
  {
    var a :| 0 <= a < |s.attempts| && SetBy(s.attempts[a], pk, rule);
    assert Ordered(s.attempts[a]);
    SetByPersists(s, e, a, pk, rule);
  }

  lemma JustSet(s: State, e: Step)
    requires AttemptsFine(s) && Enabled(s, e) && e.Install?
    ensures e.a < |s.attempts| && s.attempts[e.a].Done(e.pk) < |s.attempts[e.a].Rules(e.pk)|
    ensures Owned(Apply(s, e), e.pk, s.attempts[e.a].Rules(e.pk)[s.attempts[e.a].Done(e.pk)])
  {
    var k := s.attempts[e.a].Done(e.pk);
    assert Ordered(s.attempts[e.a]);
    ListsAfter(s, e, e.a, e.pk);
    hide Apply, Ordered;
    assert Apply(s, e).attempts[e.a].Rules(e.pk)[k] == s.attempts[e.a].Rules(e.pk)[k];
    assert SetBy(Apply(s, e).attempts[e.a], e.pk, s.attempts[e.a].Rules(e.pk)[k]);
  }

  lemma OwnedAlike(s: State, pk: PubKey, rule: Rule, other: Rule)
    requires Owned(s, pk, rule) && Alike(rule, other)
    ensures Owned(s, pk, other)
  {
    var a :| 0 <= a < |s.attempts| && SetBy(s.attempts[a], pk, rule);
    var x := s.attempts[a];
    var k :| 0 <= k < x.Done(pk) && k < |x.Rules(pk)| && Alike(x.Rules(pk)[k], rule);
    assert Alike(s.attempts[a].Rules(pk)[k], other);
    assert SetBy(s.attempts[a], pk, other);
  }

  /** A binding that a step leaves alone, or changes in its route ID only, stays accounted for. */
  lemma KeptAccounted(s: State, e: Step, pk: PubKey, id: RouteID)
    requires AttemptsFine(s) && Enabled(s, e) && AccountedAt(s, pk, id)
    requires id in Apply(s, e).TableOf(pk).rules ==>
               id in s.TableOf(pk).rules && Alike(Apply(s, e).TableOf(pk).rules[id], s.TableOf(pk).rules[id])
    ensures AccountedAt(Apply(s, e), pk, id)
  {
    hide Apply, Enabled, Owned, AttemptsFine;
    var rules, after := s.TableOf(pk).rules, Apply(s, e).TableOf(pk).rules;
    if id in after && Owned(s, pk, rules[id]) {
      OwnedPersists(s, e, pk, rules[id]);
      OwnedAlike(Apply(s, e), pk, rules[id], after[id]);
    }
  }

  lemma InstallAccounted(s: State, e: Step, pk: PubKey, id: RouteID)
    requires AttemptsFine(s) && Enabled(s, e) && e.Install? && AccountedAt(s, pk, id)
    ensures AccountedAt(Apply(s, e), pk, id)
  {
    JustSet(s, e);
    TablesAfter(s, e, pk);
    var rule := s.attempts[e.a].Rules(e.pk)[s.attempts[e.a].Done(e.pk)];
    if e.pk == pk && id == rule.reqID {
      hide Apply, Enabled, Owned, AttemptsFine;
    } else {
      hide AccountedAt, Apply, Enabled, Owned, AttemptsFine;
      KeptAccounted(s, e, pk, id);
    }
  }

  lemma StaysAccounted(s: State, e: Step, pk: PubKey, id: RouteID)
    requires Inv(s) && Enabled(s, e)
    ensures AccountedAt(Apply(s, e), pk, id)
  {
    InvAt(s, pk, id);
    hide Inv, Apply, Enabled, Owned, AttemptsFine, IdsApart;
    if e.Install? {
      InstallAccounted(s, e, pk, id);
    } else if e.WriteBack? {
      hide AccountedAt;
      WriteBackKeeps(s, e, pk);
      KeptAccounted(s, e, pk, id);
    } else {
      TablesAfter(s, e, pk);
      if e.Give? && e.pk == pk && id == s.TableOf(pk).NextID() {
        GiveNeedsRoom(s, e);
      } else {
        hide AccountedAt;
        KeptAccounted(s, e, pk, id);
      }
    }
  }

  lemma StepAccounted(s: State, e: Step)
    requires Inv(s) && Enabled(s, e)
    ensures Accounted(Apply(s, e))
  {
    forall pk, id { StaysAccounted(s, e, pk, id); }
  }

  /** An attempt's App rules are the ones at its two ends. */
  lemma OwnAppRule(x: Attempt, at: PubKey, rule: Rule) returns (side: Side)
    requires Ordered(x) && x.code.Some? && rule in x.Rules(at) && rule.App?
    ensures at == x.LoopAt(side).local.pk && Matches(rule, x.LoopAt(side)) && rule.respID == x.FirstAt(side)
  {
    hide Generate;
    AppRulesAtEnds(x.ids, x.ld, at, rule);
    side := if at == x.ld.loop.local.pk && Matches(rule, x.ld.loop) && rule.respID == x.FirstAt(Src) then Src else Dst;
  }

  predicate SameEnds(l: Loop, m: Loop) {
    (l.local == m.local && l.remote == m.remote) || (l.local == m.remote && l.remote == m.local)
  }

  /** A rule for an end of one attempt's loop, in another's list, means that both join the same ends. */
  lemma OneLoopMatches(x: Attempt, side: Side, y: Attempt, at: PubKey, rule: Rule)
    requires Ordered(y) && rule in y.Rules(at)
    requires at == x.LoopAt(side).local.pk && Matches(rule, x.LoopAt(side))
    ensures SameEnds(x.ld.loop, y.ld.loop)
  {
    var side' := OwnAppRule(y, at, rule);
    hide Generate, JoinsEnds;
    assert x.LoopAt(side) == y.LoopAt(side');
  }

  /** A table's rule that matches an end of a loop was set by an attempt that joins the same two ends. */
  lemma MatchIsSameLoop(s: State, a: nat, side: Side, id: RouteID)
    requires AttemptsFine(s) && a < |s.attempts| && AccountedAt(s, s.attempts[a].LoopAt(side).local.pk, id)
    requires var at := s.attempts[a].LoopAt(side).local.pk;
             id in s.TableOf(at).rules && Matches(s.TableOf(at).rules[id], s.attempts[a].LoopAt(side))
    ensures var at := s.attempts[a].LoopAt(side).local.pk;
            var rule := s.TableOf(at).rules[id];
            && id == rule.reqID
            && exists b :: 0 <= b < |s.attempts| && SetBy(s.attempts[b], at, rule)
                           && SameEnds(s.attempts[a].ld.loop, s.attempts[b].ld.loop)
  {
    var at := s.attempts[a].LoopAt(side).local.pk;
    var rule := s.TableOf(at).rules[id];
    var b :| 0 <= b < |s.attempts| && SetBy(s.attempts[b], at, rule);
    AttemptFine(s, b);
    hide AttemptsFine, AccountedAt, Owned, Ordered, SameEnds, SetBy, Matches;
    SetByMatches(s.attempts[a], side, s.attempts[b], rule);
  }

  lemma SetByMatches(x: Attempt, side: Side, y: Attempt, rule: Rule)
    requires Ordered(y) && SetBy(y, x.LoopAt(side).local.pk, rule) && Matches(rule, x.LoopAt(side))
    ensures SameEnds(x.ld.loop, y.ld.loop)
  {
    hide Ordered, SameEnds;
    var at := x.LoopAt(side).local.pk;
    var k :| 0 <= k < y.Done(at) && k < |y.Rules(at)| && Alike(y.Rules(at)[k], rule);
    OneLoopMatches(x, side, y, at, y.Rules(at)[k]);
  }

  lemma StepReadsSet(s: State, e: Step, a: nat, side: Side)
    requires Inv(s) && Enabled(s, e) && a < |Apply(s, e).attempts|
    ensures ReadsSet(Apply(s, e), Apply(s, e).attempts[a], side)
  {
    if a < |s.attempts| {
      ReadAfter(s, e, a, side);
      var x, y := s.attempts[a], Apply(s, e).attempts[a];
      var at := x.LoopAt(side).local.pk;
      assert ReadsSet(s, x, side);
      hide Apply, Enabled, AttemptsFine, ReadsFine, IdsApart, Undisturbed, Named, TablesFine, Owned, Matches;
      if y.At(side).read.Some? {
        var (id, rule) := y.At(side).read.value;
        assert AccountedAt(s, at, id);
        OwnedPersists(s, e, at, rule);
      }
    } else {
      hide Inv, JoinsEnds;
    }
  }

  lemma ReadAfter(s: State, e: Step, a: nat, side: Side)
    requires Enabled(s, e) && a < |s.attempts|
    ensures a < |Apply(s, e).attempts| && Apply(s, e).attempts[a].ld == s.attempts[a].ld
    ensures var x, y := s.attempts[a], Apply(s, e).attempts[a];
            if e.Read? && e.a == a && e.side == side then
              var t := s.TableOf(x.LoopAt(side).local.pk);
              && e.id in t.rules && Matches(t.rules[e.id], x.LoopAt(side))
              && y.At(side).read == Some((e.id, t.rules[e.id]))
            else y.At(side).read == x.At(side).read
  {
    hide Generate, JoinsEnds, LoopPops, Uses, Matches;
    if e.Start? || a != e.a {
      OthersUnchanged(s, e, a);
    }
  }

  /** What an attempt's code says about a rule stays so. */
  lemma NamedPersists(s: State, e: Step, pk: PubKey, rule: Rule)
    requires AttemptsFine(s) && Enabled(s, e) && NamedBySome(s, pk, rule)
    ensures NamedBySome(Apply(s, e), pk, rule)
  {
    var b, side :| 0 <= b < |s.attempts| && NamesFirst(s.attempts[b], side, pk, rule);
    AttemptFine(s, b);
    StepAdvances(s, e, b);
    hide Apply, Enabled, AttemptsFine, Matches;
    assert NamesFirst(Apply(s, e).attempts[b], side, pk, rule);
  }

  lemma InstallNamed(s: State, e: Step)
    requires AttemptsFine(s) && Enabled(s, e) && e.Install?
    ensures e.a < |s.attempts| && s.attempts[e.a].Done(e.pk) < |s.attempts[e.a].Rules(e.pk)|
    ensures var rule := s.attempts[e.a].Rules(e.pk)[s.attempts[e.a].Done(e.pk)];
            rule.App? ==> NamedBySome(s, e.pk, rule)
  {
    InstallEnabled(s, e);
    AttemptFine(s, e.a);
    var x := s.attempts[e.a];
    var rule := x.Rules(e.pk)[x.Done(e.pk)];
    if rule.App? {
      var side := OwnAppRule(x, e.pk, rule);
      hide Enabled, AttemptsFine, Ordered;
      assert NamesFirst(x, side, e.pk, rule);
    }
  }

  lemma StaysNamed(s: State, e: Step, pk: PubKey, id: RouteID)
    requires Inv(s) && Enabled(s, e)
    ensures NamedAt(Apply(s, e), pk, id)
  {
    InvAt(s, pk, id);
    var t := Apply(s, e);
    hide Inv, Apply, Enabled, AttemptsFine, IdsApart, AccountedAt, NamedBySome;
    var rules, after := s.TableOf(pk).rules, t.TableOf(pk).rules;
    if id in after && after[id].App? {
      if id in rules && after[id] == rules[id] {
        NamedPersists(s, e, pk, rules[id]);
      } else if e.WriteBack? {
        WriteBackNames(s, e, pk, id);
      } else {
        TablesAfter(s, e, pk);
        if e.Give? {
          GiveNeedsRoom(s, e);
        }
        InstallNamed(s, e);
        NamedPersists(s, e, pk, after[id]);
      }
    }
  }

  lemma WriteBackNames(s: State, e: Step, pk: PubKey, id: RouteID)
    requires Inv(s) && Enabled(s, e) && e.WriteBack? && id in Apply(s, e).TableOf(pk).rules
    requires id !in s.TableOf(pk).rules || Apply(s, e).TableOf(pk).rules[id] != s.TableOf(pk).rules[id]
    ensures NamedBySome(Apply(s, e), pk, Apply(s, e).TableOf(pk).rules[id])
  {
    WriteBackRebinds(s, e);
    WriteBackEnabled(s, e);
    var x := s.attempts[e.a];
    hide Inv, Apply, Enabled;
    InvAt(s, pk, id);
    assert NamesFirst(x, e.side, pk, Apply(s, e).TableOf(pk).rules[id]);
    hide NamesFirst, NamedAt, AccountedAt, IdsApart, AttemptsFine;
    NamedPersists(s, e, pk, Apply(s, e).TableOf(pk).rules[id]);
  }

  lemma WriteBackEnabled(s: State, e: Step)
    requires Enabled(s, e) && e.WriteBack?
    ensures e.a < |s.attempts| && s.attempts[e.a].code.Some?
  {
  }

  lemma StepInv(s: State, e: Step)
    requires Inv(s) && Enabled(s, e)
    ensures Inv(Apply(s, e))
  {
    hide Apply, Ordered, ReadsSet;
    forall a | 0 <= a < |Apply(s, e).attempts|
      ensures Ordered(Apply(s, e).attempts[a])
    {
      StepOrdered(s, e, a);
    }
    forall a, side | 0 <= a < |Apply(s, e).attempts|
      ensures ReadsSet(Apply(s, e), Apply(s, e).attempts[a], side)
    {
      StepReadsSet(s, e, a, side);
    }
    forall pk, id { StaysNamed(s, e, pk, id); }
    StepIdsApart(s, e);
    StepUndisturbed(s, e);
    StepAccounted(s, e);
    StepTablesFine(s, e);
  }

  // Runs.

  const INITIAL := State(map[], [])

  /** The states a run of steps goes through; consecutive ones are joined by an enabled step. */
  ghost predicate Run(states: seq<State>, steps: seq<Step>) {
    && |states| == |steps| + 1
    && forall i :: 0 <= i < |steps| ==> Enabled(states[i], steps[i]) && states[i + 1] == Apply(states[i], steps[i])
  }

  lemma InitialInv()
    ensures Inv(INITIAL)
  {
    forall pk, id
      ensures AccountedAt(INITIAL, pk, id) && NamedAt(INITIAL, pk, id)
    {
    }
  }

  lemma {:induction false} RunInv(states: seq<State>, steps: seq<Step>, i: nat)
    requires Run(states, steps) && Inv(states[0]) && i < |states|
    ensures Inv(states[i])
  {
    hide Inv, Enabled, Apply;
    if i > 0 {
      RunInv(states, steps, i - 1);
      assert Enabled(states[i - 1], steps[i - 1]);
      StepInv(states[i - 1], steps[i - 1]);
    }
  }

  lemma AdvancesTransitive(x: Attempt, y: Attempt, z: Attempt)
    requires Advances(x, y) && Advances(y, z)
    ensures Advances(x, z)
  {
    forall pk
      ensures x.Done(pk) <= z.Done(pk)
    {
      assert x.Done(pk) <= y.Done(pk) <= z.Done(pk);
    }
  }

  lemma {:induction false} RunAdvances(states: seq<State>, steps: seq<Step>, i: nat, j: nat, a: nat)
    requires Run(states, steps) && Inv(states[0]) && i <= j < |states| && a < |states[i].attempts|
    ensures a < |states[j].attempts| && Advances(states[i].attempts[a], states[j].attempts[a])
  {
    hide Enabled, Apply, Ordered;
    if i < j {
      RunAdvances(states, steps, i, j - 1, a);
      RunInv(states, steps, j - 1);
      assert Enabled(states[j - 1], steps[j - 1]);
      assert Ordered(states[j - 1].attempts[a]);
      StepAdvances(states[j - 1], steps[j - 1], a);
      AdvancesTransitive(states[i].attempts[a], states[j - 1].attempts[a], states[j].attempts[a]);
    }
  }

  /**
   * Non-interference: a rule set for one loop at any time of any interleaving is bound in every later state,
   * whatever the other attempts do: a forwarding rule as it was set, an App rule up to its route ID.
   */
  lemma SetRulesStay(states: seq<State>, steps: seq<Step>, i: nat, j: nat, a: nat, pk: PubKey, k: nat)
    requires Run(states, steps) && states[0] == INITIAL && i <= j < |states| && a < |states[i].attempts|
    requires k < states[i].attempts[a].Done(pk)
    ensures k < |states[i].attempts[a].Rules(pk)|
    ensures Bound(states[j].TableOf(pk), states[i].attempts[a].Rules(pk)[k])
  {
    InitialInv();
    RunInv(states, steps, i);
    RunInv(states, steps, j);
    RunAdvances(states, steps, i, j, a);
    var x, y := states[i].attempts[a], states[j].attempts[a];
    assert Ordered(x);
    hide Run, Generate, JoinsEnds;
    assert x.Done(pk) <= |x.Rules(pk)| && x.Done(pk) <= y.Done(pk);
    assert y.Rules(pk) == x.Rules(pk);
    assert Bound(states[j].TableOf(pk), y.Rules(pk)[k]);
  }

  /** No other attempt joins the same two addresses, and the two are different. */
  ghost predicate Alone(s: State, a: nat)
    requires a < |s.attempts|
  {
    && s.attempts[a].ld.loop.local != s.attempts[a].ld.loop.remote
    && forall b :: 0 <= b < |s.attempts| && SameEnds(s.attempts[a].ld.loop, s.attempts[b].ld.loop) ==> b == a
  }

  lemma ExactWhenNamed(x: Attempt, y: Attempt, side: Side, pk: PubKey, own: Rule, rule: Rule)
    requires Ordered(x) && own in x.Rules(pk) && own.App? && Alike(rule, own) && NamesFirst(y, side, pk, rule)
    requires x.ld.loop.local != x.ld.loop.remote && (SameEnds(x.ld.loop, y.ld.loop) ==> y == x)
    ensures rule == own
  {
    OneLoopMatches(y, side, x, pk, own);
    var side' := OwnAppRule(x, pk, own);
    hide Ordered;
    assert x.LoopAt(side) == x.LoopAt(side');
  }

  lemma BoundExactly(s: State, a: nat, pk: PubKey, k: nat)
    requires Inv(s) && a < |s.attempts| && Alone(s, a)
    requires k < s.attempts[a].Done(pk) && k < |s.attempts[a].Rules(pk)|
    ensures var rule := s.attempts[a].Rules(pk)[k];
            rule.reqID in s.TableOf(pk).rules && s.TableOf(pk).rules[rule.reqID] == rule
  {
    var x := s.attempts[a];
    var own := x.Rules(pk)[k];
    assert Bound(s.TableOf(pk), own);
    InvAt(s, pk, own.reqID);
    AttemptFine(s, a);
    hide Inv, Ordered, AttemptsFine, IdsApart, AccountedAt, NamesFirst, SameEnds, Attempt.Rules;
    if own.App? {
      var rule := s.TableOf(pk).rules[own.reqID];
      var b, side :| 0 <= b < |s.attempts| && NamesFirst(s.attempts[b], side, pk, rule);
      ExactWhenNamed(x, s.attempts[b], side, pk, own, rule);
    }
  }

  /** As long as an attempt is the only one for its two ends, its App rules too stay exactly as they were set. */
  lemma SetRulesStayExactly(states: seq<State>, steps: seq<Step>, i: nat, j: nat, a: nat, pk: PubKey, k: nat)
    requires Run(states, steps) && states[0] == INITIAL && i <= j < |states| && a < |states[i].attempts|
    requires k < states[i].attempts[a].Done(pk)
    requires a < |states[j].attempts| && Alone(states[j], a)
    ensures k < |states[i].attempts[a].Rules(pk)|
    ensures var rule := states[i].attempts[a].Rules(pk)[k];
            rule.reqID in states[j].TableOf(pk).rules && states[j].TableOf(pk).rules[rule.reqID] == rule
  {
    SetRulesStay(states, steps, i, j, a, pk, k);
    InitialInv();
    RunInv(states, steps, i);
    RunInv(states, steps, j);
    RunAdvances(states, steps, i, j, a);
    var x, y := states[i].attempts[a], states[j].attempts[a];
    CodeWhenDone(states[i], a, pk);
    hide Run, Inv, Ordered, AttemptsFine, Alone;
    assert x.Done(pk) <= y.Done(pk) && y.Rules(pk) == x.Rules(pk);
    BoundExactly(states[j], a, pk, k);
  }

  lemma CodeWhenDone(s: State, a: nat, pk: PubKey)
    requires Inv(s) && a < |s.attempts| && 0 < s.attempts[a].Done(pk)
    ensures s.attempts[a].code.Some?
  {
    AttemptFine(s, a);
    hide Inv, AttemptsFine, Generate, JoinsEnds;
    assert s.attempts[a].Done(pk) <= |s.attempts[a].Rules(pk)|;
  }

  /**
   * Ordering: once either end has carried out its confirmation, every visor of both routes holds its whole
   * rule list; the initiator is confirmed only after the responder; after a refused list neither end is.
   */
  lemma ConfirmedAfterInstalled(states: seq<State>, steps: seq<Step>, i: nat, a: nat)
    requires Run(states, steps) && states[0] == INITIAL && i < |states| && a < |states[i].attempts|
    ensures var x := states[i].attempts[a];
            && (x.dst.written || x.src.written ==>
                  && x.code.Some?
                  && forall pk, k :: 0 <= k < |x.Rules(pk)| ==> Bound(states[i].TableOf(pk), x.Rules(pk)[k]))
            && (x.src.written ==> x.dst.written)
            && (x.refused != {} ==> !x.dst.written && !x.src.written)
            && (x.phase == Created ==> x.dst.written && x.src.written)
  {
    InitialInv();
    RunInv(states, steps, i);
    var x := states[i].attempts[a];
    assert Ordered(x);
    hide Run, Generate, JoinsEnds, Accounted, IdsApart, TablesFine;
    if x.dst.asked {
      forall pk, k | 0 <= k < |x.Rules(pk)|
        ensures Bound(states[i].TableOf(pk), x.Rules(pk)[k])
      {
        assert x.Done(pk) == |x.Rules(pk)|;
      }
    }
  }

  ghost function Tables(s: State): map<PubKey, map<RouteID, Rule>> {
    map pk | pk in s.tables :: s.tables[pk].rules
  }

  /**
   * The setup protocol delivers: from the moment the responder is asked to confirm, and for the rest of every
   * run, packets travel both routes of the loop to their ends, while any number of other loops are set up.
   */
  lemma ConfirmedLoopsDeliver(states: seq<State>, steps: seq<Step>, i: nat, j: nat, a: nat,
                             links: map<(PubKey, UUID), PubKey>, payload: seq<Byte>)
    requires Run(states, steps) && states[0] == INITIAL && i <= j < |states| && a < |states[i].attempts|
    requires states[i].attempts[a].dst.asked && |payload| < UINT16
    requires var net, ld := Network(Tables(states[j]), links), states[i].attempts[a].ld;
             Linked(net, ld.forward) && Linked(net, ld.reverse)
    ensures var net, x := Network(Tables(states[j]), links), states[i].attempts[a];
            && x.ld.forward != [] && x.ld.reverse != [] && x.code.Some?
            && Delivers(net, x.ld.forward, x.code.value.srcFwdRID, payload, x.ld.loop.remote, x.ld.loop.local)
            && Delivers(net, x.ld.reverse, x.code.value.dstFwdRID, payload, x.ld.loop.local, x.ld.loop.remote)
  {
    InitialInv();
    RunInv(states, steps, i);
    var net, x := Network(Tables(states[j]), links), states[i].attempts[a];
    assert Ordered(x);
    assert Complete(x);
    forall pk, k | 0 <= k < |RulesOf(x.code.value.rules, pk)|
      ensures HoldsAt(net, pk, RulesOf(x.code.value.rules, pk)[k])
    {
      assert x.Done(pk) == |x.Rules(pk)|;
      SetRulesStay(states, steps, i, j, a, pk, k);
    }
    hide Run, Inv, Delivers, Linked;
    GenerateDelivers(net, x.ids, x.ld, payload);
  }
}
