/**
 * The route-to-rules compiler of the setup node: counting the route IDs a loop needs, reserving them
 * on every visor, and turning the two routes into one rule list per visor.
 */
module IdReservoir {
  import opened Base

  type Counts = map<PubKey, nat>
  type Ids = map<PubKey, seq<RouteID>>
  type RuleLists = map<PubKey, seq<Rule>>

  /** A missing map entry reads as the empty slice. */
  function IdsOf(ids: Ids, pk: PubKey): seq<RouteID> {
    if pk in ids then ids[pk] else []
  }

  function RulesOf(rules: RuleLists, pk: PubKey): seq<Rule> {
    if pk in rules then rules[pk] else []
  }

  function Tos(hops: Route): seq<PubKey> {
    seq(|hops|, i requires 0 <= i < |hops| => hops[i].to)
  }

  /** The visors a route takes an identifier from, in the order it takes them. */
  function Pops(route: Route): seq<PubKey>
    requires route != []
  {
    [route[0].from] + Tos(route)
  }

  function AllPops(routes: seq<Route>): seq<PubKey> {
    if routes == [] then []
    else
      var last := routes[|routes| - 1];
      AllPops(routes[..|routes| - 1]) + (if last == [] then [] else Pops(last))
  }

  /** A uint8 counter is incremented: it wraps at 256. */
  function Bump(rec: Counts, pk: PubKey): Counts {
    rec[pk := ((if pk in rec then rec[pk] else 0) + 1) % 256]
  }

  /** How often the visor occurs among those an identifier is taken from. */
  function Uses(pops: seq<PubKey>, pk: PubKey): nat {
    multiset(pops)[pk]
  }

  function CountAll(pops: seq<PubKey>): Counts {
    if pops == [] then map[] else Bump(CountAll(pops[..|pops| - 1]), pops[|pops| - 1])
  }

  ghost predicate Counted(rec: Counts, pops: seq<PubKey>) {
    forall pk :: (pk in rec <==> Uses(pops, pk) > 0) && (pk in rec ==> rec[pk] == Uses(pops, pk) % 256)
  }

  /** Counting one by one yields every visor's uses, modulo 256. */
  lemma {:induction false} CountAllCounted(pops: seq<PubKey>)
    ensures Counted(CountAll(pops), pops)
  {
    if pops != [] {
      var front, last := pops[..|pops| - 1], pops[|pops| - 1];
      CountAllCounted(front);
      assert pops == front + [last];
      forall pk
        ensures pk in CountAll(pops) <==> Uses(pops, pk) > 0
        ensures pk in CountAll(pops) ==> CountAll(pops)[pk] == Uses(pops, pk) % 256
      {
        hide CountAll, Uses;
        assert Uses(pops, pk) == Uses(front, pk) + (if pk == last then 1 else 0) by {
          UsesOneMore(front, last, pk);
        }
        assert CountAll(pops) == Bump(CountAll(front), last) by {
          CountOneMore(front, last);
        }
        WrapStep(Uses(front, pk));
      }
    }
  }

  lemma UsesOneMore(pops: seq<PubKey>, last: PubKey, pk: PubKey)
    ensures Uses(pops + [last], pk) == Uses(pops, pk) + (if pk == last then 1 else 0)
  {
    assert multiset(pops + [last]) == multiset(pops) + multiset{last};
  }

  lemma WrapStep(n: nat)
    ensures (n % 256 + 1) % 256 == (n + 1) % 256
  {
  }

  lemma CountOneMore(pops: seq<PubKey>, pk: PubKey)
    ensures CountAll(pops + [pk]) == Bump(CountAll(pops), pk)
  {
    assert (pops + [pk])[..|pops|] == pops;
  }

  class IDReservoir {
    var rec: Counts
    var ids: Ids

    constructor (rec: Counts)
      ensures this.rec == rec && ids == map[]
    {
      this.rec := rec;
      ids := map[];
    }

    /**
     * Collects the visors' replies, `order` being the order in which they come in.
     * The error channel is read once per visor, so one failure fails the reservation.
     */
    method ReserveIDs(order: seq<PubKey>, replies: map<PubKey, Result<seq<RouteID>>>) returns (res: Result<()>)
      requires forall pk :: pk in order <==> pk in rec
      requires rec.Keys <= replies.Keys
      modifies this
      ensures rec == old(rec)
      ensures res.Ok? <==> forall pk :: pk in rec ==> replies[pk].Ok?
      ensures res.Ok? && old(ids) == map[] ==> ids == map pk | pk in rec :: replies[pk].value
    {
      res := Ok(());
      for i := 0 to |order|
        invariant rec == old(rec)
        invariant res.Ok? <==> forall pk :: pk in order[..i] ==> replies[pk].Ok?
        invariant forall pk :: pk in ids <==> pk in old(ids) || (pk in order[..i] && replies[pk].Ok?)
        invariant forall pk :: pk in order[..i] && replies[pk].Ok? ==> ids[pk] == replies[pk].value
      {
        var pk := order[i];
        if replies[pk].Err? {
          res := Err(replies[pk].error);
        } else {
          ids := ids[pk := replies[pk].value];
        }
      }
      assert order[..|order|] == order;
    }

    method PopID(pk: PubKey) returns (res: Option<RouteID>)
      modifies this`ids
      ensures res.Some? <==> IdsOf(old(ids), pk) != []
      ensures res.Some? ==> old(ids)[pk] == [res.value] + IdsOf(ids, pk) && ids == old(ids)[pk := IdsOf(ids, pk)]
      ensures res.None? ==> ids == old(ids)
      ensures PopFrom(old(ids), pk) == if res.None? then None else Some((res.value, ids))
    {
      if pk !in ids || ids[pk] == [] {
        return None;
      }
      var head := ids[pk][0];
      ids := ids[pk := ids[pk][1..]];
      return Some(head);
    }
  }

  lemma PopsPrefix(route: Route, j: nat)
    requires j < |route|
    ensures |Pops(route)| == |route| + 1
    ensures Pops(route)[..j + 2] == Pops(route)[..j + 1] + [route[j].to]
    ensures Pops(route)[..1] == [route[0].from]
  {
  }

  lemma AllPopsPrefix(routes: seq<Route>, i: nat)
    requires i < |routes|
    ensures AllPops(routes[..i + 1]) == AllPops(routes[..i]) + (if routes[i] == [] then [] else Pops(routes[i]))
  {
    assert routes[..i + 1][..i] == routes[..i];
  }

  /** Counts the identifiers every visor has to give; empty routes are skipped. */
  method NewIDReservoir(routes: seq<Route>) returns (r: IDReservoir, total: nat)
    ensures fresh(r) && r.ids == map[]
    ensures total == |AllPops(routes)| && Counted(r.rec, AllPops(routes))
  {
    var rec: Counts := map[];
    total := 0;
    for i := 0 to |routes|
      invariant total == |AllPops(routes[..i])| && rec == CountAll(AllPops(routes[..i]))
    {
      hide CountAll, Bump, AllPops, Counted, Pops;
      var route := routes[i];
      ghost var before := AllPops(routes[..i]);
      AllPopsPrefix(routes, i);
      if route != [] {
        PopsPrefix(route, 0);
        CountOneMore(before, route[0].from);
        rec := Bump(rec, route[0].from);
        for j := 0 to |route|
          invariant rec == CountAll(before + Pops(route)[..j + 1])
        {
          PopsPrefix(route, j);
          ghost var so := before + Pops(route)[..j + 1];
          CountOneMore(so, route[j].to);
          rec := Bump(rec, route[j].to);
          assert before + Pops(route)[..j + 2] == so + [route[j].to];
        }
        assert Pops(route)[..|route| + 1] == Pops(route);
        total := total + |route| + 1;
      } else {
        assert before + [] == before;
      }
    }
    assert routes[..|routes|] == routes;
    CountAllCounted(AllPops(routes));
    r := new IDReservoir(rec);
  }

  // The counters against the total.

  ghost function SumCounts(rec: Counts): nat
    decreases |rec|
  {
    if rec == map[] then 0
    else
      var pk :| pk in rec;
      rec[pk] + SumCounts(rec - {pk})
  }

  /** A wrapped counter loses a multiple of 256, so the sum falls short by all of them. */
  lemma {:induction false} SumAgainstTotal(rec: Counts, ms: multiset<PubKey>)
    requires forall pk :: pk in rec <==> pk in ms
    requires forall pk :: pk in rec ==> rec[pk] <= ms[pk]
    ensures SumCounts(rec) <= |ms|
    ensures SumCounts(rec) == |ms| <==> forall pk :: pk in rec ==> rec[pk] == ms[pk]
    decreases |rec|
  {
    if rec == map[] {
      assert ms == multiset{};
    } else {
      var pk :| pk in rec && SumCounts(rec) == rec[pk] + SumCounts(rec - {pk});
      var ms' := ms[pk := 0];
      SumAgainstTotal(rec - {pk}, ms');
      assert |ms| == |ms'| + ms[pk];
      assert forall x :: x in rec - {pk} ==> x in rec && (rec - {pk})[x] == rec[x] && ms'[x] == ms[x];
      if forall x :: x in rec - {pk} ==> (rec - {pk})[x] == ms'[x] {
        assert forall x :: x in rec ==> x == pk || x in rec - {pk};
      }
    }
  }

  /** The counters add up to the announced total exactly when no visor is needed more than 255 times. */
  lemma CountsSumToTotal(rec: Counts, pops: seq<PubKey>)
    requires Counted(rec, pops)
    ensures SumCounts(rec) == |pops| <==> forall pk :: Uses(pops, pk) <= 255
  {
    forall pk
      ensures pk in rec <==> pk in multiset(pops)
    {
      assert Uses(pops, pk) == multiset(pops)[pk];
    }
    forall pk | pk in rec
      ensures rec[pk] <= multiset(pops)[pk]
      ensures rec[pk] == multiset(pops)[pk] <==> Uses(pops, pk) <= 255
    {
      assert rec[pk] == Uses(pops, pk) % 256;
    }
    SumAgainstTotal(rec, multiset(pops));
  }

  /** Routes within the finder's 50-hop limit need at most 102 identifiers of one visor. */
  lemma MaxHopsNeverWrap(forward: Route, reverse: Route, pk: PubKey)
    requires 0 < |forward| <= 50 && 0 < |reverse| <= 50
    ensures Uses(AllPops([forward, reverse]), pk) <= 102
  {
    TwoRoutes(forward, reverse);
    MultisetBound(Pops(forward) + Pops(reverse), pk);
  }

  lemma {:induction false} MultisetBound<T>(s: seq<T>, x: T)
    ensures multiset(s)[x] <= |s|
  {
    if s != [] {
      assert s == s[..|s| - 1] + [s[|s| - 1]];
      MultisetBound(s[..|s| - 1], x);
    }
  }

  lemma TwoRoutes(forward: Route, reverse: Route)
    requires forward != [] && reverse != []
    ensures AllPops([forward, reverse]) == Pops(forward) + Pops(reverse)
  {
    assert [forward, reverse][..1] == [forward] && [forward][..0] == [];
    assert AllPops([forward]) == AllPops([]) + Pops(forward);
  }

  /** The visors a loop takes identifiers from. */
  function LoopPops(ld: LoopDescriptor): seq<PubKey>
    requires ld.forward != [] && ld.reverse != []
  {
    Pops(ld.forward) + Pops(ld.reverse)
  }

  // The compiler as a function of the reserved identifiers.

  function PopFrom(ids: Ids, pk: PubKey): Option<(RouteID, Ids)> {
    if IdsOf(ids, pk) == [] then None else Some((ids[pk][0], ids[pk := ids[pk][1..]]))
  }

  function AppendRule(rules: RuleLists, pk: PubKey, rule: Rule): RuleLists {
    rules[pk := RulesOf(rules, pk) + [rule]]
  }

  /** The compiler's state along a route: what is written, what is left, and the last identifier taken. */
  datatype Walked = Walked(rules: RuleLists, ids: Ids, rid: RouteID)

  /** A forwarding rule keyed by the last identifier taken, naming the next one. */
  function TakeHop(w: Walked, keepAlive: int, hop: Hop): Option<Walked> {
    match PopFrom(w.ids, hop.to)
    case None => None
    case Some((next, ids')) =>
      Some(Walked(AppendRule(w.rules, hop.from, Forward(Clamp(keepAlive), w.rid, next, hop.transport)), ids', next))
  }

  function Walk(w: Walked, keepAlive: int, hops: Route): Option<Walked>
    decreases |hops|
  {
    if hops == [] then Some(w)
    else
      match TakeHop(w, keepAlive, hops[0])
      case None => None
      case Some(w') => Walk(w', keepAlive, hops[1..])
  }

  /** How far a walk gets: to its end, or to the first hop whose far visor has no identifier left. */
  function WalkFar(w: Walked, keepAlive: int, hops: Route): (far: Walked)
    ensures Walk(w, keepAlive, hops).Some? ==> far == Walk(w, keepAlive, hops).value
    decreases |hops|
  {
    if hops == [] then w
    else
      match TakeHop(w, keepAlive, hops[0])
      case None => w
      case Some(w') => WalkFar(w', keepAlive, hops[1..])
  }

  datatype Saved = Saved(rules: RuleLists, ids: Ids, first: RouteID, last: RouteID)

  function SaveForward(rules: RuleLists, ids: Ids, keepAlive: int, route: Route): Option<Saved>
    requires route != []
  {
    match PopFrom(ids, route[0].from)
    case None => None
    case Some((first, ids')) =>
      match Walk(Walked(rules, ids', first), keepAlive, route)
      case None => None
      case Some(w) => Some(Saved(w.rules, w.ids, first, w.rid))
  }

  datatype Compiled = Compiled(rules: RuleLists, ids: Ids, srcFwdRID: RouteID, dstFwdRID: RouteID)

  function SrcAppRule(ld: LoopDescriptor, lastRev: RouteID, firstFwd: RouteID): Rule {
    App(Clamp(ld.keepAlive), lastRev, firstFwd, ld.loop.remote.pk, ld.loop.local.port, ld.loop.remote.port)
  }

  function DstAppRule(ld: LoopDescriptor, lastFwd: RouteID, firstRev: RouteID): Rule {
    App(Clamp(ld.keepAlive), lastFwd, firstRev, ld.loop.local.pk, ld.loop.remote.port, ld.loop.local.port)
  }

  function Generate(ids: Ids, ld: LoopDescriptor): Option<Compiled>
    requires ld.forward != [] && ld.reverse != []
  {
    match SaveForward(map[], ids, ld.keepAlive, ld.forward)
    case None => None
    case Some(f) =>
      match SaveForward(f.rules, f.ids, ld.keepAlive, ld.reverse)
      case None => None
      case Some(r) =>
        var withSrc := AppendRule(r.rules, ld.loop.local.pk, SrcAppRule(ld, r.last, f.first));
        var withDst := AppendRule(withSrc, ld.loop.remote.pk, DstAppRule(ld, f.last, r.first));
        Some(Compiled(withDst, r.ids, f.first, r.first))
  }

  // The compiler as the source runs it.

  class RulesMap {
    var lists: RuleLists

    constructor ()
      ensures lists == map[]
    {
      lists := map[];
    }

    method Append(pk: PubKey, rule: Rule)
      modifies this
      ensures lists == AppendRule(old(lists), pk, rule)
    {
      lists := lists[pk := (if pk in lists then lists[pk] else []) + [rule]];
    }
  }

  method SaveForwardRules(rules: RulesMap, idc: IDReservoir, keepAlive: int, route: Route)
    returns (res: Result<(RouteID, RouteID)>)
    requires route != []
    modifies rules, idc`ids
    ensures var spec := SaveForward(old(rules.lists), old(idc.ids), keepAlive, route);
            && (res.Ok? <==> spec.Some?)
            && (res.Ok? ==> spec.value == Saved(rules.lists, idc.ids, res.value.0, res.value.1))
    // A failure leaves behind what was written and taken up to it.
    ensures res.Err? ==>
              var popped := PopFrom(old(idc.ids), route[0].from);
              if popped.None? then rules.lists == old(rules.lists) && idc.ids == old(idc.ids)
              else
                var far := WalkFar(Walked(old(rules.lists), popped.value.1, popped.value.0), keepAlive, route);
                rules.lists == far.rules && idc.ids == far.ids
  {
    var popped := idc.PopID(route[0].from);
    if popped.None? {
      return Err("no route ID left");
    }
    var firstRID := popped.value;
    var rID := firstRID;
    ghost var target := Walk(Walked(rules.lists, idc.ids, firstRID), keepAlive, route);
    ghost var far := WalkFar(Walked(rules.lists, idc.ids, firstRID), keepAlive, route);
    assert route[0..] == route;
    for i := 0 to |route|
      invariant Walk(Walked(rules.lists, idc.ids, rID), keepAlive, route[i..]) == target
      invariant WalkFar(Walked(rules.lists, idc.ids, rID), keepAlive, route[i..]) == far
    {
      var hop := route[i];
      assert route[i..][0] == hop && route[i..][1..] == route[i + 1..];
      var next := idc.PopID(hop.to);
      if next.None? {
        return Err("no route ID left");
      }
      rules.Append(hop.from, Forward(Clamp(keepAlive), rID, next.value, hop.transport));
      rID := next.value;
    }
    return Ok((firstRID, rID));
  }

  method GenerateRules(idc: IDReservoir, ld: LoopDescriptor) returns (res: Result<(RulesMap, RouteID, RouteID)>)
    requires ld.forward != [] && ld.reverse != []
    modifies idc`ids
    ensures res.Ok? <==> Generate(old(idc.ids), ld).Some?
    ensures res.Ok? ==>
              Generate(old(idc.ids), ld).value == Compiled(res.value.0.lists, idc.ids, res.value.1, res.value.2)
  {
    var rules := new RulesMap();
    var src, dst := ld.loop.local, ld.loop.remote;
    var fwd := SaveForwardRules(rules, idc, ld.keepAlive, ld.forward);
    if fwd.Err? {
      return Err(fwd.error);
    }
    var rev := SaveForwardRules(rules, idc, ld.keepAlive, ld.reverse);
    if rev.Err? {
      return Err(rev.error);
    }
    var (firstFwd, lastFwd) := fwd.value;
    var (firstRev, lastRev) := rev.value;
    rules.Append(src.pk, App(Clamp(ld.keepAlive), lastRev, firstFwd, dst.pk, src.port, dst.port));
    rules.Append(dst.pk, App(Clamp(ld.keepAlive), lastFwd, firstRev, src.pk, dst.port, src.port));
    return Ok((rules, firstFwd, firstRev));
  }

  // When the identifiers suffice.

  ghost predicate HasIds(ids: Ids, pops: seq<PubKey>) {
    forall pk :: Uses(pops, pk) <= |IdsOf(ids, pk)|
  }

  lemma PopHasIds(ids: Ids, pk: PubKey, pops: seq<PubKey>)
    ensures HasIds(ids, [pk] + pops) <==> PopFrom(ids, pk).Some? && HasIds(PopFrom(ids, pk).value.1, pops)
  {
    assert multiset([pk] + pops) == multiset{pk} + multiset(pops);
    if PopFrom(ids, pk).Some? {
      var ids' := PopFrom(ids, pk).value.1;
      assert forall x :: |IdsOf(ids', x)| == |IdsOf(ids, x)| - (if x == pk then 1 else 0);
      if HasIds(ids', pops) {
        forall x
          ensures Uses([pk] + pops, x) <= |IdsOf(ids, x)|
        {
          assert Uses(pops, x) <= |IdsOf(ids', x)|;
        }
      }
      if HasIds(ids, [pk] + pops) {
        forall x
          ensures Uses(pops, x) <= |IdsOf(ids', x)|
        {
          assert Uses([pk] + pops, x) <= |IdsOf(ids, x)|;
        }
      }
    } else {
      assert Uses([pk] + pops, pk) > |IdsOf(ids, pk)|;
    }
  }

  lemma {:induction false} WalkSucceeds(w: Walked, keepAlive: int, hops: Route, later: seq<PubKey>)
    ensures HasIds(w.ids, Tos(hops) + later)
       <==> (Walk(w, keepAlive, hops).Some? && HasIds(Walk(w, keepAlive, hops).value.ids, later))
    decreases |hops|
  {
    hide HasIds;
    if hops == [] {
      assert Tos(hops) + later == later;
    } else {
      assert Tos(hops) + later == [hops[0].to] + (Tos(hops[1..]) + later);
      PopHasIds(w.ids, hops[0].to, Tos(hops[1..]) + later);
      var w' := TakeHop(w, keepAlive, hops[0]);
      if w'.Some? {
        WalkSucceeds(w'.value, keepAlive, hops[1..], later);
      }
    }
  }

  lemma SaveSucceeds(rules: RuleLists, ids: Ids, keepAlive: int, route: Route, later: seq<PubKey>)
    requires route != []
    ensures HasIds(ids, Pops(route) + later)
       <==> (&& SaveForward(rules, ids, keepAlive, route).Some?
             && HasIds(SaveForward(rules, ids, keepAlive, route).value.ids, later))
  {
    hide HasIds;
    assert Pops(route) + later == [route[0].from] + (Tos(route) + later);
    PopHasIds(ids, route[0].from, Tos(route) + later);
    if PopFrom(ids, route[0].from).Some? {
      var (first, ids') := PopFrom(ids, route[0].from).value;
      WalkSucceeds(Walked(rules, ids', first), keepAlive, route, later);
    }
  }

  /** Compilation succeeds exactly when every visor gave as many identifiers as the routes take from it. */
  lemma GenerateSucceeds(ids: Ids, ld: LoopDescriptor)
    requires ld.forward != [] && ld.reverse != []
    ensures Generate(ids, ld).Some? <==> HasIds(ids, LoopPops(ld))
  {
    SaveSucceeds(map[], ids, ld.keepAlive, ld.forward, Pops(ld.reverse));
    var f := SaveForward(map[], ids, ld.keepAlive, ld.forward);
    if f.Some? {
      SaveSucceeds(f.value.rules, f.value.ids, ld.keepAlive, ld.reverse, []);
      assert Pops(ld.reverse) + [] == Pops(ld.reverse);
    }
  }

  /** Each visor answered with exactly the number of identifiers it was asked for. */
  ghost predicate Reserved(ids: Ids, rec: Counts) {
    ids.Keys == rec.Keys && forall pk :: pk in rec ==> |ids[pk]| == rec[pk]
  }

  lemma ReservedCount(ids: Ids, rec: Counts, pops: seq<PubKey>, pk: PubKey)
    requires Counted(rec, pops) && Reserved(ids, rec)
    ensures |IdsOf(ids, pk)| == Uses(pops, pk) % 256
  {
    assert pk in rec <==> Uses(pops, pk) > 0;
  }

  /** After a complete reservation, compilation runs out exactly when a counter wrapped. */
  lemma ReservationSuffices(ids: Ids, rec: Counts, ld: LoopDescriptor)
    requires ld.forward != [] && ld.reverse != []
    requires Counted(rec, LoopPops(ld)) && Reserved(ids, rec)
    ensures Generate(ids, ld).Some? <==> forall pk :: Uses(LoopPops(ld), pk) <= 255
  {
    GenerateSucceeds(ids, ld);
    HasIdsWhenReserved(ids, rec, LoopPops(ld));
  }

  lemma HasIdsWhenReserved(ids: Ids, rec: Counts, pops: seq<PubKey>)
    requires Counted(rec, pops) && Reserved(ids, rec)
    ensures HasIds(ids, pops) <==> forall pk :: Uses(pops, pk) <= 255
  {
    if HasIds(ids, pops) {
      forall pk
        ensures Uses(pops, pk) <= 255
      {
        ReservedCount(ids, rec, pops, pk);
      }
    } else {
      var pk :| Uses(pops, pk) > |IdsOf(ids, pk)|;
      ReservedCount(ids, rec, pops, pk);
    }
  }

  // Which keep-alive the rules carry.

  ghost predicate AllKeep(rules: RuleLists, keep: nat) {
    forall pk, i :: 0 <= i < |RulesOf(rules, pk)| ==> RulesOf(rules, pk)[i].keepAlive == keep
  }

  lemma AppendKeeps(rules: RuleLists, at: PubKey, rule: Rule, keep: nat)
    requires AllKeep(rules, keep) && rule.keepAlive == keep
    ensures AllKeep(AppendRule(rules, at, rule), keep)
  {
    var more := AppendRule(rules, at, rule);
    forall pk, i | 0 <= i < |RulesOf(more, pk)|
      ensures RulesOf(more, pk)[i].keepAlive == keep
    {
      if pk != at || i < |RulesOf(rules, pk)| {
        assert RulesOf(more, pk)[i] == RulesOf(rules, pk)[i];
      }
    }
  }

  lemma {:induction false} WalkKeeps(w: Walked, keepAlive: int, hops: Route, keep: nat)
    requires Walk(w, keepAlive, hops).Some? && AllKeep(w.rules, keep)
    requires keep == if keepAlive < 0 then 0 else keepAlive
    ensures AllKeep(Walk(w, keepAlive, hops).value.rules, keep)
    decreases |hops|
  {
    if hops != [] {
      var w' := TakeHop(w, keepAlive, hops[0]).value;
      AppendKeeps(w.rules, hops[0].from, Forward(keep, w.rid, w'.rid, hops[0].transport), keep);
      WalkKeeps(w', keepAlive, hops[1..], keep);
    }
  }

  /** Every rule compiled for a loop carries the loop's keep-alive; a negative one counts as none. */
  lemma CompiledKeepAlive(ids: Ids, ld: LoopDescriptor)
    requires ld.forward != [] && ld.reverse != [] && Generate(ids, ld).Some?
    ensures AllKeep(Generate(ids, ld).value.rules, if ld.keepAlive < 0 then 0 else ld.keepAlive)
  {
    var keep := if ld.keepAlive < 0 then 0 else ld.keepAlive;
    var f := SaveForward(map[], ids, ld.keepAlive, ld.forward).value;
    var r := SaveForward(f.rules, f.ids, ld.keepAlive, ld.reverse).value;
    var (x, ids') := PopFrom(ids, ld.forward[0].from).value;
    var (y, ids'') := PopFrom(f.ids, ld.reverse[0].from).value;
    WalkKeeps(Walked(map[], ids', x), ld.keepAlive, ld.forward, keep);
    WalkKeeps(Walked(f.rules, ids'', y), ld.keepAlive, ld.reverse, keep);
    AppendKeeps(r.rules, ld.loop.local.pk, SrcAppRule(ld, r.last, f.first), keep);
    AppendKeeps(AppendRule(r.rules, ld.loop.local.pk, SrcAppRule(ld, r.last, f.first)), ld.loop.remote.pk,
                DstAppRule(ld, f.last, r.first), keep);
  }

  // Where the identifiers go.

  ghost predicate Chained(route: Route) {
    forall i :: 0 < i < |route| ==> route[i - 1].to == route[i].from
  }

  /** Both routes are chains and each joins the loop's ends. */
  ghost predicate JoinsEnds(ld: LoopDescriptor) {
    && ld.forward != [] && ld.reverse != [] && Chained(ld.forward) && Chained(ld.reverse)
    && ld.forward[0].from == ld.loop.local.pk && ld.forward[|ld.forward| - 1].to == ld.loop.remote.pk
    && ld.reverse[0].from == ld.loop.remote.pk && ld.reverse[|ld.reverse| - 1].to == ld.loop.local.pk
  }

  function ReqIDs(rules: seq<Rule>): seq<RouteID> {
    seq(|rules|, i requires 0 <= i < |rules| => rules[i].reqID)
  }

  ghost function Pending(at: PubKey, pk: PubKey, rid: RouteID): multiset<RouteID> {
    if at == pk then multiset{rid} else multiset{}
  }

  /** Identifiers at `pk`: still in the reservoir, or the key of a rule already written. */
  ghost function Held(rules: RuleLists, ids: Ids, pk: PubKey): multiset<RouteID> {
    multiset(IdsOf(ids, pk)) + multiset(ReqIDs(RulesOf(rules, pk)))
  }

  lemma AppendHeld(rules: RuleLists, ids: Ids, at: PubKey, rule: Rule, pk: PubKey)
    ensures Held(AppendRule(rules, at, rule), ids, pk) == Held(rules, ids, pk) + Pending(at, pk, rule.reqID)
  {
    if at == pk {
      assert ReqIDs(RulesOf(AppendRule(rules, at, rule), pk)) == ReqIDs(RulesOf(rules, pk)) + [rule.reqID];
    }
  }

  lemma PopHeld(rules: RuleLists, ids: Ids, at: PubKey, pk: PubKey)
    requires PopFrom(ids, at).Some?
    ensures var (rid, ids') := PopFrom(ids, at).value;
            Held(rules, ids, pk) == Held(rules, ids', pk) + Pending(at, pk, rid)
  {
    if at == pk {
      assert ids[at] == [ids[at][0]] + ids[at][1..];
    }
  }

  lemma HopConserves(w: Walked, keepAlive: int, hop: Hop, pk: PubKey)
    requires TakeHop(w, keepAlive, hop).Some?
    ensures var w' := TakeHop(w, keepAlive, hop).value;
            Held(w.rules, w.ids, pk) + Pending(hop.from, pk, w.rid)
            == Held(w'.rules, w'.ids, pk) + Pending(hop.to, pk, w'.rid)
  {
    var (next, ids') := PopFrom(w.ids, hop.to).value;
    PopHeld(w.rules, w.ids, hop.to, pk);
    AppendHeld(w.rules, ids', hop.from, Forward(Clamp(keepAlive), w.rid, next, hop.transport), pk);
  }

  /** No identifier is lost or duplicated along a route, whichever visors it revisits. */
  lemma {:induction false} WalkConserves(w: Walked, keepAlive: int, hops: Route, at: PubKey, pk: PubKey)
    requires Chained(hops) && (hops != [] ==> hops[0].from == at)
    requires Walk(w, keepAlive, hops).Some?
    ensures var end, w' := if hops == [] then at else hops[|hops| - 1].to, Walk(w, keepAlive, hops).value;
            Held(w.rules, w.ids, pk) + Pending(at, pk, w.rid) == Held(w'.rules, w'.ids, pk) + Pending(end, pk, w'.rid)
    decreases |hops|
  {
    hide Held, Pending, TakeHop;
    if hops != [] {
      HopConserves(w, keepAlive, hops[0], pk);
      WalkConserves(TakeHop(w, keepAlive, hops[0]).value, keepAlive, hops[1..], hops[0].to, pk);
    }
  }

  lemma SaveConserves(rules: RuleLists, ids: Ids, keepAlive: int, route: Route, pk: PubKey)
    requires route != [] && Chained(route) && SaveForward(rules, ids, keepAlive, route).Some?
    ensures var s := SaveForward(rules, ids, keepAlive, route).value;
            Held(rules, ids, pk) == Held(s.rules, s.ids, pk) + Pending(route[|route| - 1].to, pk, s.last)
  {
    hide Held, Pending;
    var (first, ids') := PopFrom(ids, route[0].from).value;
    PopHeld(rules, ids, route[0].from, pk);
    WalkConserves(Walked(rules, ids', first), keepAlive, route, route[0].from, pk);
  }

  /** What a visor gave is what is left in the reservoir together with the keys of its rules. */
  lemma GenerateConserves(ids: Ids, ld: LoopDescriptor, pk: PubKey)
    requires JoinsEnds(ld) && Generate(ids, ld).Some?
    ensures var c := Generate(ids, ld).value;
            multiset(IdsOf(ids, pk)) == multiset(IdsOf(c.ids, pk)) + multiset(ReqIDs(RulesOf(c.rules, pk)))
  {
    var src, dst := ld.loop.local.pk, ld.loop.remote.pk;
    var f := SaveForward(map[], ids, ld.keepAlive, ld.forward).value;
    var r := SaveForward(f.rules, f.ids, ld.keepAlive, ld.reverse).value;
    SaveConserves(map[], ids, ld.keepAlive, ld.forward, pk);
    SaveConserves(f.rules, f.ids, ld.keepAlive, ld.reverse, pk);
    AppendHeld(r.rules, r.ids, src, SrcAppRule(ld, r.last, f.first), pk);
    var withSrc := AppendRule(r.rules, src, SrcAppRule(ld, r.last, f.first));
    AppendHeld(withSrc, r.ids, dst, DstAppRule(ld, f.last, r.first), pk);
    assert Held(map[], ids, pk) == multiset(IdsOf(ids, pk));
  }

  lemma {:induction false} WalkTakes(w: Walked, keepAlive: int, hops: Route, pk: PubKey)
    requires Walk(w, keepAlive, hops).Some?
    ensures |IdsOf(w.ids, pk)| == |IdsOf(Walk(w, keepAlive, hops).value.ids, pk)| + Uses(Tos(hops), pk)
    decreases |hops|
  {
    if hops != [] {
      assert Tos(hops) == [hops[0].to] + Tos(hops[1..]);
      WalkTakes(TakeHop(w, keepAlive, hops[0]).value, keepAlive, hops[1..], pk);
    }
  }

  lemma SaveTakes(rules: RuleLists, ids: Ids, keepAlive: int, route: Route, pk: PubKey)
    requires route != [] && SaveForward(rules, ids, keepAlive, route).Some?
    ensures |IdsOf(ids, pk)| == |IdsOf(SaveForward(rules, ids, keepAlive, route).value.ids, pk)| + Uses(Pops(route), pk)
  {
    var (first, ids') := PopFrom(ids, route[0].from).value;
    WalkTakes(Walked(rules, ids', first), keepAlive, route, pk);
  }

  lemma GenerateTakes(ids: Ids, ld: LoopDescriptor, pk: PubKey)
    requires ld.forward != [] && ld.reverse != [] && Generate(ids, ld).Some?
    ensures |IdsOf(ids, pk)| == |IdsOf(Generate(ids, ld).value.ids, pk)| + Uses(LoopPops(ld), pk)
  {
    var f := SaveForward(map[], ids, ld.keepAlive, ld.forward).value;
    SaveTakes(map[], ids, ld.keepAlive, ld.forward, pk);
    SaveTakes(f.rules, f.ids, ld.keepAlive, ld.reverse, pk);
  }

  ghost predicate Distinct<T>(s: seq<T>) {
    forall i, j :: 0 <= i < j < |s| ==> s[i] != s[j]
  }

  /**
   * Exact accounting: with complete replies and no wrapped counter the compiler never runs out, leaves the
   * reservoir empty, and every visor's rules are keyed by exactly the identifiers it gave, each once.
   */
  lemma ExactAccounting(ids: Ids, rec: Counts, ld: LoopDescriptor, pk: PubKey)
    requires JoinsEnds(ld)
    requires Counted(rec, LoopPops(ld)) && Reserved(ids, rec)
    requires forall x :: Uses(LoopPops(ld), x) <= 255
    ensures Generate(ids, ld).Some?
    ensures IdsOf(Generate(ids, ld).value.ids, pk) == []
    ensures multiset(ReqIDs(RulesOf(Generate(ids, ld).value.rules, pk))) == multiset(IdsOf(ids, pk))
  {
    hide Generate, Uses, LoopPops;
    ReservationSuffices(ids, rec, ld);
    ReservedCount(ids, rec, LoopPops(ld), pk);
    assert Uses(LoopPops(ld), pk) <= 255;
    GenerateTakes(ids, ld, pk);
    GenerateConserves(ids, ld, pk);
  }

  lemma {:induction false} SameMultisetDistinct<T>(s: seq<T>, t: seq<T>)
    requires multiset(s) == multiset(t) && Distinct(t)
    ensures Distinct(s)
  {
    forall i, j | 0 <= i < j < |s|
      ensures s[i] != s[j]
    {
      if s[i] == s[j] {
        assert s == s[..i] + [s[i]] + s[i + 1..j] + [s[j]] + s[j + 1..];
        assert multiset(s)[s[i]] >= 2;
        DistinctOnce(t, s[i]);
      }
    }
  }

  lemma {:induction false} DistinctOnce<T>(t: seq<T>, x: T)
    requires Distinct(t)
    ensures multiset(t)[x] <= 1
  {
    if t != [] {
      var front := t[..|t| - 1];
      assert t == front + [t[|t| - 1]];
      DistinctOnce(front, x);
      assert x in multiset(front) <==> x in front;
    }
  }
}
