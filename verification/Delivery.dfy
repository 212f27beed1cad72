/** How visors forward packets, and that compiled rules carry a packet from one end of a loop to the other. */
module Delivery {
  import opened Base
  import opened RoutingTable
  import opened ManagedTable
  import opened IdReservoir
  import opened RouteManager

  /** Every visor's rules, and which visor the transport a visor holds leads to. */
  datatype Network = Network(tables: map<PubKey, map<RouteID, Rule>>, links: map<(PubKey, UUID), PubKey>)

  datatype Outcome =
    | Sent(transport: UUID, packet: Packet)
    | Consumed(port: Port, loop: Loop, payload: seq<Byte>)
    | Failed(error: string)

  /** A transport writes a packet under a route ID; a payload over 16 bits of length makes MakePacket panic. */
  function WritePacket(net: Network, at: PubKey, transport: UUID, id: RouteID, payload: seq<Byte>): Outcome {
    if (at, transport) !in net.links then Failed("unknown transport")
    else if |payload| >= UINT16 then Failed("packet size exceeded")
    else Sent(transport, Packet(id, payload))
  }

  function HandlePacket(net: Network, at: PubKey, p: Packet): Outcome {
    if at !in net.tables || p.id !in net.tables[at] then Failed("unknown RouteID")
    else
      match net.tables[at][p.id]
      case Forward(_, _, nextID, transport) => WritePacket(net, at, transport, nextID, p.payload)
      case App(_, _, _, remotePK, localPort, remotePort) =>
        Consumed(localPort, Loop(Addr(NO_KEY, localPort), Addr(remotePK, remotePort)), p.payload)
  }

  /** Which packets a visor forwards, hands to an app and drops, by what its table and its transports are. */
  lemma HandlePacketIff(net: Network, at: PubKey, p: Packet, transport: UUID, q: Packet, port: Port, loop: Loop,
                        payload: seq<Byte>)
    ensures var bound := at in net.tables && p.id in net.tables[at];
      && (HandlePacket(net, at, p) == Sent(transport, q)
          <==> (bound && |p.payload| < UINT16 && (at, transport) in net.links && net.tables[at][p.id].Forward?
                && net.tables[at][p.id].transport == transport && q == Packet(net.tables[at][p.id].nextID, p.payload)))
      && (HandlePacket(net, at, p) == Consumed(port, loop, payload)
          <==> (bound && net.tables[at][p.id].App? && payload == p.payload && port == net.tables[at][p.id].localPort
                && loop.local == Addr(NO_KEY, port) && loop.remote.pk == net.tables[at][p.id].remotePK
                && loop.remote.port == net.tables[at][p.id].remotePort))
      && (HandlePacket(net, at, p).Failed?
          <==> (!bound || (net.tables[at][p.id].Forward?
                           && (|p.payload| >= UINT16 || (at, net.tables[at][p.id].transport) !in net.links))))
  {
  }

  datatype Journey = Journey(at: PubKey, packet: Packet, crossed: seq<UUID>)

  /** Where a packet is after exactly `n` forwardings, if each of them happens. */
  function Travel(net: Network, at: PubKey, p: Packet, n: nat): Option<Journey>
    decreases n
  {
    if n == 0 then Some(Journey(at, p, []))
    else
      match HandlePacket(net, at, p)
      case Sent(transport, q) =>
        if (at, transport) !in net.links then None else
        (match Travel(net, net.links[(at, transport)], q, n - 1)
         case None => None
         case Some(j) => Some(j.(crossed := [transport] + j.crossed)))
      case _ => None
  }

  function Transports(hops: Route): seq<UUID> {
    seq(|hops|, i requires 0 <= i < |hops| => hops[i].transport)
  }

  /** Each hop's transport exists at its near end and leads to its far end. */
  ghost predicate Linked(net: Network, hops: Route) {
    forall i :: 0 <= i < |hops| ==> (hops[i].from, hops[i].transport) in net.links
                                    && net.links[(hops[i].from, hops[i].transport)] == hops[i].to
  }

  ghost predicate HoldsAt(net: Network, pk: PubKey, rule: Rule) {
    pk in net.tables && rule.reqID in net.tables[pk] && Alike(net.tables[pk][rule.reqID], rule)
  }

  /** Every listed rule is bound under its own identifier at its visor; an App rule may name another route ID. */
  ghost predicate Holds(net: Network, rules: RuleLists) {
    forall pk, i :: 0 <= i < |RulesOf(rules, pk)| ==> HoldsAt(net, pk, RulesOf(rules, pk)[i])
  }

  lemma {:induction false} WalkGrows(w: Walked, keepAlive: int, hops: Route, pk: PubKey)
    requires Walk(w, keepAlive, hops).Some?
    ensures RulesOf(w.rules, pk) <= RulesOf(Walk(w, keepAlive, hops).value.rules, pk)
    decreases |hops|
  {
    if hops != [] {
      WalkGrows(TakeHop(w, keepAlive, hops[0]).value, keepAlive, hops[1..], pk);
    }
  }

  /** Where the rules of a walk hold, its first rule forwards a packet over the first hop. */
  lemma FirstHop(net: Network, w: Walked, keepAlive: int, hops: Route, payload: seq<Byte>)
    requires hops != [] && Linked(net, hops) && |payload| < UINT16
    requires Walk(w, keepAlive, hops).Some? && Holds(net, Walk(w, keepAlive, hops).value.rules)
    ensures var hop, w' := hops[0], TakeHop(w, keepAlive, hops[0]).value;
            && HandlePacket(net, hop.from, Packet(w.rid, payload)) == Sent(hop.transport, Packet(w'.rid, payload))
            && (hop.from, hop.transport) in net.links && net.links[(hop.from, hop.transport)] == hop.to
  {
    var hop, w' := hops[0], TakeHop(w, keepAlive, hops[0]).value;
    var rule := Forward(Clamp(keepAlive), w.rid, w'.rid, hop.transport);
    var all := Walk(w, keepAlive, hops).value.rules;
    WalkGrows(w', keepAlive, hops[1..], hop.from);
    var k := |RulesOf(w.rules, hop.from)|;
    assert rule == RulesOf(w'.rules, hop.from)[k] == RulesOf(all, hop.from)[k];
    assert HoldsAt(net, hop.from, rule);
    assert (hops[0].from, hops[0].transport) in net.links;
  }

  /** The forwarding rules of a route take a packet hop by hop to its end, over the route's transports in order. */
  lemma {:induction false} WalkDelivers(net: Network, w: Walked, keepAlive: int, hops: Route, at: PubKey,
                                        payload: seq<Byte>)
    requires Chained(hops) && (hops != [] ==> hops[0].from == at) && Linked(net, hops) && |payload| < UINT16
    requires Walk(w, keepAlive, hops).Some? && Holds(net, Walk(w, keepAlive, hops).value.rules)
    ensures var end := if hops == [] then at else hops[|hops| - 1].to;
            Travel(net, at, Packet(w.rid, payload), |hops|)
            == Some(Journey(end, Packet(Walk(w, keepAlive, hops).value.rid, payload), Transports(hops)))
    decreases |hops|
  {
    if hops != [] {
      var hop, rest := hops[0], hops[1..];
      FirstHop(net, w, keepAlive, hops, payload);
      assert Linked(net, rest);
      hide HandlePacket, Linked, Holds, TakeHop;
      WalkDelivers(net, TakeHop(w, keepAlive, hop).value, keepAlive, rest, hop.to, payload);
      assert Transports(hops) == [hop.transport] + Transports(rest);
    }
  }

  /** The packet reaches `to` after exactly the route's forwardings, and is consumed there on this port and loop. */
  ghost predicate Delivers(net: Network, route: Route, first: RouteID, payload: seq<Byte>, to: Addr, from: Addr)
    requires route != []
  {
    var j := Travel(net, route[0].from, Packet(first, payload), |route|);
    && j.Some? && j.value.at == to.pk && j.value.crossed == Transports(route)
    && HandlePacket(net, to.pk, j.value.packet) == Consumed(to.port, Loop(Addr(NO_KEY, to.port), from), payload)
  }

  lemma HoldsMonotone(net: Network, rules: RuleLists, more: RuleLists)
    requires Holds(net, more) && forall pk :: RulesOf(rules, pk) <= RulesOf(more, pk)
    ensures Holds(net, rules)
  {
    forall pk, i | 0 <= i < |RulesOf(rules, pk)|
      ensures HoldsAt(net, pk, RulesOf(rules, pk)[i])
    {
      assert RulesOf(rules, pk)[i] == RulesOf(more, pk)[i];
    }
  }

  lemma AppendGrows(rules: RuleLists, at: PubKey, rule: Rule, pk: PubKey)
    ensures RulesOf(rules, pk) <= RulesOf(AppendRule(rules, at, rule), pk)
  {
  }

  ghost predicate Within(rules: RuleLists, more: RuleLists) {
    forall pk :: RulesOf(rules, pk) <= RulesOf(more, pk)
  }

  lemma WithinTransitive(a: RuleLists, b: RuleLists, c: RuleLists)
    requires Within(a, b) && Within(b, c)
    ensures Within(a, c)
  {
    forall pk
      ensures RulesOf(a, pk) <= RulesOf(c, pk)
    {
      assert RulesOf(a, pk) <= RulesOf(b, pk) <= RulesOf(c, pk);
    }
  }

  lemma SaveGrows(rules: RuleLists, ids: Ids, keepAlive: int, route: Route)
    requires route != [] && SaveForward(rules, ids, keepAlive, route).Some?
    ensures Within(rules, SaveForward(rules, ids, keepAlive, route).value.rules)
  {
    var (first, ids') := PopFrom(ids, route[0].from).value;
    forall pk
      ensures RulesOf(rules, pk) <= RulesOf(SaveForward(rules, ids, keepAlive, route).value.rules, pk)
    {
      WalkGrows(Walked(rules, ids', first), keepAlive, route, pk);
    }
  }

  /** One route delivers when its rules and the App rule at its end are part of what is installed. */
  lemma SaveDelivers(net: Network, rules: RuleLists, ids: Ids, keepAlive: int, route: Route,
                     all: RuleLists, app: Rule, to: Addr, payload: seq<Byte>)
    requires route != [] && Chained(route) && Linked(net, route) && |payload| < UINT16 && route[|route| - 1].to == to.pk
    requires SaveForward(rules, ids, keepAlive, route).Some?
    requires Within(SaveForward(rules, ids, keepAlive, route).value.rules, all) && Holds(net, all)
    requires app in RulesOf(all, to.pk) && app.App? && app.localPort == to.port
    requires app.reqID == SaveForward(rules, ids, keepAlive, route).value.last
    ensures Delivers(net, route, SaveForward(rules, ids, keepAlive, route).value.first, payload, to,
                     Addr(app.remotePK, app.remotePort))
  {
    var s := SaveForward(rules, ids, keepAlive, route).value;
    var (first, ids') := PopFrom(ids, route[0].from).value;
    HoldsMonotone(net, s.rules, all);
    WalkDelivers(net, Walked(rules, ids', first), keepAlive, route, route[0].from, payload);
    var i :| 0 <= i < |RulesOf(all, to.pk)| && RulesOf(all, to.pk)[i] == app;
    assert HoldsAt(net, to.pk, app);
  }

  /** The App rules close the two lists without disturbing what the routes wrote. */
  lemma CloseGrows(rules: RuleLists, src: PubKey, srcRule: Rule, dst: PubKey, dstRule: Rule)
    ensures var all := AppendRule(AppendRule(rules, src, srcRule), dst, dstRule);
            Within(rules, all) && srcRule in RulesOf(all, src) && dstRule in RulesOf(all, dst)
  {
    var withSrc := AppendRule(rules, src, srcRule);
    forall pk
      ensures RulesOf(rules, pk) <= RulesOf(AppendRule(withSrc, dst, dstRule), pk)
    {
      AppendGrows(rules, src, srcRule, pk);
      AppendGrows(withSrc, dst, dstRule, pk);
    }
    AppendGrows(withSrc, dst, dstRule, src);
    assert srcRule in RulesOf(withSrc, src);
  }

  /**
   * End-to-end delivery, both ways: where every compiled rule is installed, a packet entering at the first
   * identifier crosses the route's transports in order, arrives after |route| forwardings with its payload
   * unchanged, and the App rule there names the local port and the remote address.
   */
  lemma GenerateDelivers(net: Network, ids: Ids, ld: LoopDescriptor, payload: seq<Byte>)
    requires JoinsEnds(ld) && Generate(ids, ld).Some? && Holds(net, Generate(ids, ld).value.rules)
    requires Linked(net, ld.forward) && Linked(net, ld.reverse) && |payload| < UINT16
    ensures Delivers(net, ld.forward, Generate(ids, ld).value.srcFwdRID, payload, ld.loop.remote, ld.loop.local)
    ensures Delivers(net, ld.reverse, Generate(ids, ld).value.dstFwdRID, payload, ld.loop.local, ld.loop.remote)
  {
    var src, dst := ld.loop.local, ld.loop.remote;
    var c := Generate(ids, ld).value;
    var f := SaveForward(map[], ids, ld.keepAlive, ld.forward).value;
    var r := SaveForward(f.rules, f.ids, ld.keepAlive, ld.reverse).value;
    var srcRule, dstRule := SrcAppRule(ld, r.last, f.first), DstAppRule(ld, f.last, r.first);
    hide SaveForward, Delivers, Linked, Chained, Holds, AppendRule, RulesOf, Within;
    SaveGrows(f.rules, f.ids, ld.keepAlive, ld.reverse);
    CloseGrows(r.rules, src.pk, srcRule, dst.pk, dstRule);
    WithinTransitive(f.rules, r.rules, c.rules);
    SaveDelivers(net, map[], ids, ld.keepAlive, ld.forward, c.rules, dstRule, dst, payload);
    SaveDelivers(net, f.rules, f.ids, ld.keepAlive, ld.reverse, c.rules, srcRule, src, payload);
  }

  // From reserved identifiers to installed tables.

  /** Every visor has run setRoutingRules on its list. */
  ghost predicate InstalledAll(net: Network, before: map<PubKey, Table>, rules: RuleLists) {
    forall pk :: pk in rules ==>
      pk in before && pk in net.tables && net.tables[pk] == InstallAll(before[pk], rules[pk]).rules
  }

  lemma InstalledHolds(net: Network, before: map<PubKey, Table>, ids: Ids, rec: Counts, ld: LoopDescriptor)
    requires JoinsEnds(ld) && Counted(rec, LoopPops(ld)) && Reserved(ids, rec)
    requires forall pk :: Uses(LoopPops(ld), pk) <= 255
    requires forall pk :: pk in ids ==> Distinct(ids[pk])
    requires Generate(ids, ld).Some? ==> InstalledAll(net, before, Generate(ids, ld).value.rules)
    ensures Generate(ids, ld).Some? && Holds(net, Generate(ids, ld).value.rules)
    ensures forall pk :: pk in Generate(ids, ld).value.rules ==>
              var keys := ReqIDs(Generate(ids, ld).value.rules[pk]);
              Distinct(keys) && forall id :: id in keys <==> id in IdsOf(ids, pk)
  {
    hide Generate;
    ReservationSuffices(ids, rec, ld);
    var rules := Generate(ids, ld).value.rules;
    forall pk | pk in rules
      ensures var keys := ReqIDs(rules[pk]); Distinct(keys) && forall id :: id in keys <==> id in IdsOf(ids, pk)
    {
      ExactAccounting(ids, rec, ld, pk);
      SameMultisetDistinct(ReqIDs(rules[pk]), IdsOf(ids, pk));
      forall id
        ensures id in ReqIDs(rules[pk]) <==> id in IdsOf(ids, pk)
      {
        assert id in multiset(ReqIDs(rules[pk])) <==> id in multiset(IdsOf(ids, pk));
      }
    }
    forall pk, i | 0 <= i < |RulesOf(rules, pk)|
      ensures HoldsAt(net, pk, RulesOf(rules, pk)[i])
    {
      InstallAllHolds(before[pk], rules[pk]);
    }
  }

  /**
   * The compiler is correct: with complete, distinct reservations and no wrapped counter, installing what it
   * emits over any tables makes the loop deliver in both directions.
   */
  lemma CompiledLoopDelivers(net: Network, before: map<PubKey, Table>, ids: Ids, rec: Counts, ld: LoopDescriptor,
                             payload: seq<Byte>)
    requires JoinsEnds(ld) && Counted(rec, LoopPops(ld)) && Reserved(ids, rec)
    requires forall pk :: Uses(LoopPops(ld), pk) <= 255
    requires forall pk :: pk in ids ==> Distinct(ids[pk])
    requires Generate(ids, ld).Some? ==> InstalledAll(net, before, Generate(ids, ld).value.rules)
    requires Linked(net, ld.forward) && Linked(net, ld.reverse) && |payload| < UINT16
    ensures Generate(ids, ld).Some?
    ensures Delivers(net, ld.forward, Generate(ids, ld).value.srcFwdRID, payload, ld.loop.remote, ld.loop.local)
    ensures Delivers(net, ld.reverse, Generate(ids, ld).value.dstFwdRID, payload, ld.loop.local, ld.loop.remote)
  {
    hide Generate, Holds, Delivers;
    InstalledHolds(net, before, ids, rec, ld);
    GenerateDelivers(net, ids, ld, payload);
  }

  // With keep-alives, while the visors' tables live on: packets of any loop, collections and setup messages between.

  type Key = (PubKey, RouteID)

  /** The rules a packet is handled by on its way: one at each forwarding, and one where it arrives. */
  function Visits(net: Network, at: PubKey, p: Packet, n: nat): seq<Key>
    decreases n
  {
    [(at, p.id)] +
    if n == 0 then []
    else
      match HandlePacket(net, at, p)
      case Sent(transport, q) =>
        if (at, transport) !in net.links then [] else Visits(net, net.links[(at, transport)], q, n - 1)
      case _ => []
  }

  lemma VisitsOnward(net: Network, at: PubKey, p: Packet, n: nat)
    requires n > 0 && HandlePacket(net, at, p).Sent? && (at, HandlePacket(net, at, p).transport) in net.links
    ensures var o := HandlePacket(net, at, p);
            Visits(net, at, p, n) == [(at, p.id)] + Visits(net, net.links[(at, o.transport)], o.packet, n - 1)
  {
  }

  lemma {:induction false} VisitsAll(net: Network, at: PubKey, p: Packet, n: nat)
    requires Travel(net, at, p, n).Some?
    ensures |Visits(net, at, p, n)| == n + 1
    ensures Visits(net, at, p, n)[n]
         == (Travel(net, at, p, n).value.at, Travel(net, at, p, n).value.packet.id)
    decreases n
  {
    if n > 0 {
      var o := HandlePacket(net, at, p);
      VisitsAll(net, net.links[(at, o.transport)], o.packet, n - 1);
    }
  }

  /** What happens at every visor from some moment on. */
  datatype LiveNetwork = LiveNetwork(visors: map<PubKey, History>, links: map<(PubKey, UUID), PubKey>) {
    /** The rules at that moment, as if none ever timed out. */
    function Static(): Network {
      Network(map pk | pk in visors :: visors[pk].start.table.rules, links)
    }

    /** What the visor answers at event `i` of its run. */
    function Now(at: PubKey, i: nat): Network {
      if at !in visors || i >= |visors[at].run| then Network(map[], links)
      else
        var m, now := visors[at].At(i), visors[at].run[i].at;
        Network(map[at := map id | id in m.table.rules && m.Answer(id, now).Some? :: m.table.rules[id]], links)
    }

    /** Event `i` is the lookup of this key, whose rule the run leaves alone. */
    predicate LooksUp(key: Key, i: nat) {
      && key.0 in visors && visors[key.0].Keeps(key.1)
      && i < |visors[key.0].run| && Looks(visors[key.0].run[i], key.1)
    }

    predicate InTime(key: Key, i: nat)
      requires LooksUp(key, i)
    {
      visors[key.0].InTime(key.1, i)
    }
  }

  /** Where a packet is after being handled at these events, one visor after the other, if each handling forwards it. */
  function TravelIn(live: LiveNetwork, at: PubKey, p: Packet, steps: seq<nat>): Option<Journey>
    decreases |steps|
  {
    if steps == [] then Some(Journey(at, p, []))
    else
      match HandlePacket(live.Now(at, steps[0]), at, p)
      case Sent(transport, q) =>
        if (at, transport) !in live.links then None else
        (match TravelIn(live, live.links[(at, transport)], q, steps[1..])
         case None => None
         case Some(j) => Some(j.(crossed := [transport] + j.crossed)))
      case _ => None
  }

  /** A lookup in time is answered as if nothing ever timed out, and a late one drops the packet. */
  lemma HandledIff(live: LiveNetwork, at: PubKey, p: Packet, i: nat)
    requires live.LooksUp((at, p.id), i)
    ensures var o := HandlePacket(live.Now(at, i), at, p);
            if live.InTime((at, p.id), i) then o == HandlePacket(live.Static(), at, p) else o.Failed?
  {
    hide History.InTime, History.At, Ordered, LeavesAlone;
    InTimeIff(live.visors[at], p.id, i);
  }

  ghost predicate LooksUpAll(live: LiveNetwork, keys: seq<Key>, steps: seq<nat>) {
    |keys| >= |steps| && forall j :: 0 <= j < |steps| ==> live.LooksUp(keys[j], steps[j])
  }

  ghost predicate AllInTime(live: LiveNetwork, keys: seq<Key>, steps: seq<nat>)
    requires LooksUpAll(live, keys, steps)
  {
    forall j :: 0 <= j < |steps| ==> live.InTime(keys[j], steps[j])
  }

  /** A packet travels as if nothing ever timed out exactly when every lookup on its way is in time. */
  lemma {:induction false} AliveTravels(live: LiveNetwork, at: PubKey, p: Packet, steps: seq<nat>)
    requires Travel(live.Static(), at, p, |steps|).Some?
    requires LooksUpAll(live, Visits(live.Static(), at, p, |steps|), steps)
    ensures TravelIn(live, at, p, steps)
         == if AllInTime(live, Visits(live.Static(), at, p, |steps|), steps) then Travel(live.Static(), at, p, |steps|)
            else None
    decreases |steps|
  {
    hide *;
    if steps == [] {
      NotTravelling(live, at, p);
    } else {
      var net := live.Static();
      TravelOnward(net, at, p, |steps|);
      VisitsOnward(net, at, p, |steps|);
      TravelInOnward(live, at, p, steps);
      var keys, o := Visits(net, at, p, |steps|), HandlePacket(net, at, p);
      var next := net.links[(at, o.transport)];
      assert keys[0] == (at, p.id) && keys[1..] == Visits(net, next, o.packet, |steps| - 1);
      LooksUpTail(live, keys, steps);
      HandledIff(live, at, p, steps[0]);
      AliveTravels(live, next, o.packet, steps[1..]);
      InTimeSplit(live, keys, steps);
    }
  }

  lemma TravelOnward(net: Network, at: PubKey, p: Packet, n: nat)
    requires n > 0 && Travel(net, at, p, n).Some?
    ensures var o := HandlePacket(net, at, p);
      && o.Sent? && (at, o.transport) in net.links
      && var onward := Travel(net, net.links[(at, o.transport)], o.packet, n - 1);
         && onward.Some?
         && Travel(net, at, p, n) == Some(onward.value.(crossed := [o.transport] + onward.value.crossed))
  {
  }

  lemma NotTravelling(live: LiveNetwork, at: PubKey, p: Packet)
    ensures TravelIn(live, at, p, []) == Travel(live.Static(), at, p, 0)
    ensures forall keys :: LooksUpAll(live, keys, []) && AllInTime(live, keys, [])
  {
  }

  lemma TravelInOnward(live: LiveNetwork, at: PubKey, p: Packet, steps: seq<nat>)
    requires steps != []
    ensures live.Static().links == live.links
    ensures var o := HandlePacket(live.Now(at, steps[0]), at, p);
            TravelIn(live, at, p, steps)
            == if o.Sent? && (at, o.transport) in live.links then
                 match TravelIn(live, live.links[(at, o.transport)], o.packet, steps[1..])
                 case None => None
                 case Some(j) => Some(j.(crossed := [o.transport] + j.crossed))
               else None
  {
  }

  lemma LooksUpTail(live: LiveNetwork, keys: seq<Key>, steps: seq<nat>)
    requires steps != [] && LooksUpAll(live, keys, steps)
    ensures live.LooksUp(keys[0], steps[0]) && LooksUpAll(live, keys[1..], steps[1..])
  {
    hide LiveNetwork.LooksUp;
    forall j | 0 <= j < |steps| - 1
      ensures live.LooksUp(keys[1..][j], steps[1..][j])
    {
      assert live.LooksUp(keys[j + 1], steps[j + 1]);
    }
  }

  lemma InTimeSplit(live: LiveNetwork, keys: seq<Key>, steps: seq<nat>)
    requires steps != [] && LooksUpAll(live, keys, steps) && LooksUpAll(live, keys[1..], steps[1..])
    ensures AllInTime(live, keys, steps)
       <==> live.InTime(keys[0], steps[0]) && AllInTime(live, keys[1..], steps[1..])
  {
    hide LiveNetwork.LooksUp, LiveNetwork.InTime;
    if live.InTime(keys[0], steps[0]) && AllInTime(live, keys[1..], steps[1..]) {
      forall j | 0 <= j < |steps|
        ensures live.InTime(keys[j], steps[j])
      {
        if j > 0 {
          assert live.InTime(keys[1..][j - 1], steps[1..][j - 1]);
        }
      }
    }
    if AllInTime(live, keys, steps) {
      forall j | 0 <= j < |steps| - 1
        ensures live.InTime(keys[1..][j], steps[1..][j])
      {
        assert live.InTime(keys[j + 1], steps[j + 1]);
      }
    }
  }

  /** Delivers, in the living tables: the packet is handled at these events, the last of them at the far end. */
  ghost predicate DeliversIn(live: LiveNetwork, route: Route, first: RouteID, payload: seq<Byte>, to: Addr, from: Addr,
                             steps: seq<nat>)
    requires route != [] && |steps| == |route| + 1
  {
    var j := TravelIn(live, route[0].from, Packet(first, payload), steps[..|route|]);
    && j.Some? && j.value.at == to.pk && j.value.crossed == Transports(route)
    && HandlePacket(live.Now(to.pk, steps[|route|]), to.pk, j.value.packet)
       == Consumed(to.port, Loop(Addr(NO_KEY, to.port), from), payload)
  }

  /** The keys a packet's handling looks up, in order. */
  function KeysOf(live: LiveNetwork, route: Route, first: RouteID, payload: seq<Byte>): seq<Key>
    requires route != []
  {
    Visits(live.Static(), route[0].from, Packet(first, payload), |route|)
  }

  /**
   * Delivery with keep-alives: a packet that rules without keep-alives would deliver is delivered exactly when each of
   * its lookups comes within the rule's keep-alive of the renewal before it. Whatever else the visors do in between.
   */
  lemma DeliversWhileAlive(live: LiveNetwork, route: Route, first: RouteID, payload: seq<Byte>, to: Addr, from: Addr,
                           steps: seq<nat>)
    requires route != [] && |steps| == |route| + 1 && Delivers(live.Static(), route, first, payload, to, from)
    requires LooksUpAll(live, KeysOf(live, route, first, payload), steps)
    ensures DeliversIn(live, route, first, payload, to, from, steps)
       <==> AllInTime(live, KeysOf(live, route, first, payload), steps)
  {
    hide LiveNetwork.LooksUp, LiveNetwork.InTime, LiveNetwork.Now, HandlePacket, Travel, TravelIn, Visits;
    var net, at, p, n := live.Static(), route[0].from, Packet(first, payload), |route|;
    var keys, front := KeysOf(live, route, first, payload), steps[..n];
    VisitsAll(net, at, p, n);
    assert forall j :: 0 <= j < n ==> front[j] == steps[j];
    AliveTravels(live, at, p, front);
    var j := Travel(net, at, p, n).value;
    assert live.LooksUp(keys[n], steps[n]);
    HandledIff(live, to.pk, j.packet, steps[n]);
    assert AllInTime(live, keys, steps) <==> AllInTime(live, keys, front) && live.InTime(keys[n], steps[n]) by {
      if AllInTime(live, keys, steps) {
        forall j | 0 <= j < n
          ensures live.InTime(keys[j], front[j])
        {
          assert live.InTime(keys[j], steps[j]);
        }
      }
      if AllInTime(live, keys, front) && live.InTime(keys[n], steps[n]) {
        forall j | 0 <= j <= n
          ensures live.InTime(keys[j], steps[j])
        {
          if j < n {
            assert live.InTime(keys[j], front[j]);
          }
        }
      }
    }
  }

  // The whole way of a loop: identifiers reserved, rules compiled and set, packets handled from then on.

  ghost predicate KeysIn(keys: seq<Key>, rules: RuleLists) {
    forall j :: 0 <= j < |keys| ==> keys[j].1 in ReqIDs(RulesOf(rules, keys[j].0))
  }

  lemma RuleKey(rules: RuleLists, pk: PubKey, i: nat)
    requires i < |RulesOf(rules, pk)|
    ensures RulesOf(rules, pk)[i].reqID in ReqIDs(RulesOf(rules, pk))
  {
    assert ReqIDs(RulesOf(rules, pk))[i] == RulesOf(rules, pk)[i].reqID;
  }

  /** A packet on a route looks up the rules compiled for it, and the last identifier taken where it arrives. */
  lemma {:induction false} WalkVisits(net: Network, w: Walked, keepAlive: int, hops: Route, at: PubKey,
                                      payload: seq<Byte>)
    requires Chained(hops) && (hops != [] ==> hops[0].from == at) && Linked(net, hops) && |payload| < UINT16
    requires Walk(w, keepAlive, hops).Some? && Holds(net, Walk(w, keepAlive, hops).value.rules)
    ensures var keys, end := Visits(net, at, Packet(w.rid, payload), |hops|),
                             if hops == [] then at else hops[|hops| - 1].to;
      && |keys| == |hops| + 1 && keys[|hops|] == (end, Walk(w, keepAlive, hops).value.rid)
      && KeysIn(keys[..|hops|], Walk(w, keepAlive, hops).value.rules)
    decreases |hops|
  {
    if hops != [] {
      var hop, rest, w' := hops[0], hops[1..], TakeHop(w, keepAlive, hops[0]).value;
      FirstHop(net, w, keepAlive, hops, payload);
      FirstKey(w, keepAlive, hops);
      assert Linked(net, rest);
      VisitsOnward(net, at, Packet(w.rid, payload), |hops|);
      hide HandlePacket, Linked, Holds, TakeHop, RulesOf, ReqIDs, KeysIn, Visits;
      WalkVisits(net, w', keepAlive, rest, hop.to, payload);
      var later := Visits(net, hop.to, Packet(w'.rid, payload), |rest|);
      assert Visits(net, at, Packet(w.rid, payload), |hops|)[..|hops|] == [(at, w.rid)] + later[..|rest|];
      KeysInCons((at, w.rid), later[..|rest|], Walk(w, keepAlive, hops).value.rules);
    }
  }

  lemma FirstKey(w: Walked, keepAlive: int, hops: Route)
    requires hops != [] && Walk(w, keepAlive, hops).Some?
    ensures w.rid in ReqIDs(RulesOf(Walk(w, keepAlive, hops).value.rules, hops[0].from))
  {
    var hop, w' := hops[0], TakeHop(w, keepAlive, hops[0]).value;
    var all := Walk(w, keepAlive, hops).value.rules;
    WalkGrows(w', keepAlive, hops[1..], hop.from);
    var k := |RulesOf(w.rules, hop.from)|;
    assert RulesOf(all, hop.from)[k] == RulesOf(w'.rules, hop.from)[k];
    RuleKey(all, hop.from, k);
  }

  lemma KeysInCons(key: Key, keys: seq<Key>, rules: RuleLists)
    requires key.1 in ReqIDs(RulesOf(rules, key.0)) && KeysIn(keys, rules)
    ensures KeysIn([key] + keys, rules)
  {
    hide RulesOf, ReqIDs;
    forall j | 0 <= j < |[key] + keys|
      ensures ([key] + keys)[j].1 in ReqIDs(RulesOf(rules, ([key] + keys)[j].0))
    {
      if j > 0 {
        assert ([key] + keys)[j] == keys[j - 1];
      }
    }
  }

  lemma KeysInMore(keys: seq<Key>, rules: RuleLists, more: RuleLists)
    requires KeysIn(keys, rules) && Within(rules, more)
    ensures KeysIn(keys, more)
  {
    forall j | 0 <= j < |keys|
      ensures keys[j].1 in ReqIDs(RulesOf(more, keys[j].0))
    {
      var pk := keys[j].0;
      var i :| 0 <= i < |ReqIDs(RulesOf(rules, pk))| && ReqIDs(RulesOf(rules, pk))[i] == keys[j].1;
      assert RulesOf(more, pk)[i] == RulesOf(rules, pk)[i];
      RuleKey(more, pk, i);
    }
  }

  lemma SaveVisits(net: Network, rules: RuleLists, ids: Ids, keepAlive: int, route: Route,
                   all: RuleLists, app: Rule, to: PubKey, payload: seq<Byte>)
    requires route != [] && Chained(route) && Linked(net, route) && |payload| < UINT16 && route[|route| - 1].to == to
    requires SaveForward(rules, ids, keepAlive, route).Some?
    requires Within(SaveForward(rules, ids, keepAlive, route).value.rules, all) && Holds(net, all)
    requires app in RulesOf(all, to) && app.reqID == SaveForward(rules, ids, keepAlive, route).value.last
    ensures var first := SaveForward(rules, ids, keepAlive, route).value.first;
            KeysIn(Visits(net, route[0].from, Packet(first, payload), |route|), all)
  {
    var s := SaveForward(rules, ids, keepAlive, route).value;
    var (first, ids') := PopFrom(ids, route[0].from).value;
    var keys := Visits(net, route[0].from, Packet(first, payload), |route|);
    hide Visits, RulesOf, ReqIDs, Linked, Holds, KeysIn, HandlePacket;
    HoldsMonotone(net, s.rules, all);
    WalkVisits(net, Walked(rules, ids', first), keepAlive, route, route[0].from, payload);
    KeysInMore(keys[..|route|], s.rules, all);
    AppKey(all, to, app);
    KeysInSnoc(keys, all);
  }

  lemma AppKey(all: RuleLists, to: PubKey, app: Rule)
    requires app in RulesOf(all, to)
    ensures app.reqID in ReqIDs(RulesOf(all, to))
  {
    var i :| 0 <= i < |RulesOf(all, to)| && RulesOf(all, to)[i] == app;
    RuleKey(all, to, i);
  }

  lemma KeysInSnoc(keys: seq<Key>, rules: RuleLists)
    requires keys != [] && KeysIn(keys[..|keys| - 1], rules)
    requires var (pk, id) := keys[|keys| - 1]; id in ReqIDs(RulesOf(rules, pk))
    ensures KeysIn(keys, rules)
  {
    hide RulesOf, ReqIDs;
    forall j | 0 <= j < |keys|
      ensures keys[j].1 in ReqIDs(RulesOf(rules, keys[j].0))
    {
      if j < |keys| - 1 {
        assert keys[j] == keys[..|keys| - 1][j];
      }
    }
  }

  /** Packets of a loop look up no rules but the loop's own. */
  lemma GenerateVisits(net: Network, ids: Ids, ld: LoopDescriptor, payload: seq<Byte>)
    requires JoinsEnds(ld) && Generate(ids, ld).Some? && Holds(net, Generate(ids, ld).value.rules)
    requires Linked(net, ld.forward) && Linked(net, ld.reverse) && |payload| < UINT16
    ensures var c := Generate(ids, ld).value;
      && KeysIn(Visits(net, ld.forward[0].from, Packet(c.srcFwdRID, payload), |ld.forward|), c.rules)
      && KeysIn(Visits(net, ld.reverse[0].from, Packet(c.dstFwdRID, payload), |ld.reverse|), c.rules)
  {
    var src, dst := ld.loop.local, ld.loop.remote;
    var c := Generate(ids, ld).value;
    var f := SaveForward(map[], ids, ld.keepAlive, ld.forward).value;
    var r := SaveForward(f.rules, f.ids, ld.keepAlive, ld.reverse).value;
    var srcRule, dstRule := SrcAppRule(ld, r.last, f.first), DstAppRule(ld, f.last, r.first);
    hide SaveForward, Visits, Linked, Chained, Holds, AppendRule, RulesOf, Within, KeysIn;
    SaveGrows(f.rules, f.ids, ld.keepAlive, ld.reverse);
    CloseGrows(r.rules, src.pk, srcRule, dst.pk, dstRule);
    WithinTransitive(f.rules, r.rules, c.rules);
    SaveVisits(net, map[], ids, ld.keepAlive, ld.forward, c.rules, dstRule, dst.pk, payload);
    SaveVisits(net, f.rules, f.ids, ld.keepAlive, ld.reverse, c.rules, srcRule, src.pk, payload);
  }

  /** Every visor's history begins when it has set its list over whatever its table held. */
  ghost predicate BeginsInstalled(live: LiveNetwork, before: map<PubKey, Managed>, rules: RuleLists) {
    forall pk :: pk in rules ==>
      pk in before && pk in live.visors && live.visors[pk].start == Installed(before[pk], rules[pk])
  }

  /** The identifiers a visor gave are active since it gave them. */
  ghost predicate ActiveSince(before: map<PubKey, Managed>, ids: Ids, reserved: PubKey -> int) {
    forall pk, i :: 0 <= i < |IdsOf(ids, pk)| ==>
      pk in before && ids[pk][i] in before[pk].activity && before[pk].activity[ids[pk][i]] == reserved(pk)
  }

  /** Every lookup up to this one comes within the keep-alive of the one before, the first of the reservation. */
  predicate Timely(live: LiveNetwork, key: Key, i: nat, since: int, keep: nat)
    requires live.LooksUp(key, i)
  {
    var run := live.visors[key.0].run;
    KeptUp(run[..i], key.1, since, keep) && run[i].at - LastRenewal(run[..i], key.1, since) <= keep
  }

  lemma InstalledInTime(live: LiveNetwork, before: map<PubKey, Managed>, rules: RuleLists, key: Key, i: nat,
                        since: int, keep: nat)
    requires BeginsInstalled(live, before, rules) && live.LooksUp(key, i) && AllKeep(rules, keep)
    requires key.1 in ReqIDs(RulesOf(rules, key.0)) && Distinct(ReqIDs(RulesOf(rules, key.0)))
    requires key.0 in before && key.1 in before[key.0].activity && before[key.0].activity[key.1] == since
    ensures live.InTime(key, i) <==> Timely(live, key, i, since, keep)
  {
    var (pk, id) := key;
    var k :| 0 <= k < |ReqIDs(rules[pk])| && ReqIDs(rules[pk])[k] == id;
    InstallAllHolds(before[pk].table, rules[pk]);
    assert RulesOf(rules, pk)[k].keepAlive == keep;
  }

  /** One route of an installed loop. */
  lemma RouteDeliversIff(live: LiveNetwork, before: map<PubKey, Managed>, rules: RuleLists, reserved: PubKey -> int,
                         keep: nat, ids: Ids, route: Route, first: RouteID, payload: seq<Byte>, to: Addr, from: Addr,
                         steps: seq<nat>)
    requires BeginsInstalled(live, before, rules) && AllKeep(rules, keep) && ActiveSince(before, ids, reserved)
    requires forall pk :: pk in rules ==> Distinct(ReqIDs(rules[pk]))
    requires forall pk, id :: pk in rules ==> (id in ReqIDs(rules[pk]) <==> id in IdsOf(ids, pk))
    requires route != [] && |steps| == |route| + 1 && Delivers(live.Static(), route, first, payload, to, from)
    requires LooksUpAll(live, KeysOf(live, route, first, payload), steps)
    requires KeysIn(KeysOf(live, route, first, payload), rules)
    ensures var keys := KeysOf(live, route, first, payload);
            DeliversIn(live, route, first, payload, to, from, steps)
            <==> forall j :: 0 <= j < |steps| ==> Timely(live, keys[j], steps[j], reserved(keys[j].0), keep)
  {
    hide Timely, LiveNetwork.LooksUp, LiveNetwork.InTime, DeliversIn, Delivers, KeysOf, BeginsInstalled, AllKeep;
    var keys := KeysOf(live, route, first, payload);
    DeliversWhileAlive(live, route, first, payload, to, from, steps);
    forall j | 0 <= j < |steps|
      ensures live.InTime(keys[j], steps[j]) <==> Timely(live, keys[j], steps[j], reserved(keys[j].0), keep)
    {
      var (pk, id) := keys[j];
      assert id in ReqIDs(RulesOf(rules, pk));
      assert id in IdsOf(ids, pk);
      InstalledInTime(live, before, rules, keys[j], steps[j], reserved(pk), keep);
    }
  }

  /**
   * A loop from its reservation to its traffic. The identifiers are reserved, the compiled rules are set over whatever
   * the tables hold, and from then on each visor runs as it will, as long as it leaves the loop's rules alone. Then a
   * packet of the loop, in either direction, is delivered exactly when each of its lookups comes within the loop's
   * keep-alive of the one before it, or of the reservation. However many packets went before.
   */
  lemma InstalledLoopDelivers(live: LiveNetwork, before: map<PubKey, Managed>, ids: Ids, rec: Counts,
                              ld: LoopDescriptor, reserved: PubKey -> int, payload: seq<Byte>, there: seq<nat>,
                              back: seq<nat>)
    requires JoinsEnds(ld) && Counted(rec, LoopPops(ld)) && Reserved(ids, rec)
    requires forall pk :: Uses(LoopPops(ld), pk) <= 255
    requires forall pk :: pk in ids ==> Distinct(ids[pk])
    requires Generate(ids, ld).Some? ==> BeginsInstalled(live, before, Generate(ids, ld).value.rules)
    requires ActiveSince(before, ids, reserved)
    requires Linked(live.Static(), ld.forward) && Linked(live.Static(), ld.reverse) && |payload| < UINT16
    requires |there| == |ld.forward| + 1 && |back| == |ld.reverse| + 1
    ensures Generate(ids, ld).Some?
    ensures var keep := if ld.keepAlive < 0 then 0 else ld.keepAlive;
            var first := Generate(ids, ld).value.srcFwdRID;
            var keys := KeysOf(live, ld.forward, first, payload);
            LooksUpAll(live, keys, there) ==>
              (DeliversIn(live, ld.forward, first, payload, ld.loop.remote, ld.loop.local, there)
               <==> forall j :: 0 <= j < |there| ==> Timely(live, keys[j], there[j], reserved(keys[j].0), keep))
    ensures var keep := if ld.keepAlive < 0 then 0 else ld.keepAlive;
            var first := Generate(ids, ld).value.dstFwdRID;
            var keys := KeysOf(live, ld.reverse, first, payload);
            LooksUpAll(live, keys, back) ==>
              (DeliversIn(live, ld.reverse, first, payload, ld.loop.local, ld.loop.remote, back)
               <==> forall j :: 0 <= j < |back| ==> Timely(live, keys[j], back[j], reserved(keys[j].0), keep))
  {
    hide Generate, Holds, Delivers, DeliversIn, LooksUpAll, Timely, KeysIn, AllKeep, Linked, ActiveSince, Visits,
      Reserved, Counted, LoopPops, Uses, Distinct;
    var net, keep := live.Static(), if ld.keepAlive < 0 then 0 else ld.keepAlive;
    var tables := map pk | pk in before :: before[pk].table;
    if Generate(ids, ld).Some? {
      BeginsInstalledAll(live, before, Generate(ids, ld).value.rules);
    }
    InstalledHolds(net, tables, ids, rec, ld);
    var c := Generate(ids, ld).value;
    GenerateDelivers(net, ids, ld, payload);
    GenerateVisits(net, ids, ld, payload);
    CompiledKeepAlive(ids, ld);
    if LooksUpAll(live, KeysOf(live, ld.forward, c.srcFwdRID, payload), there) {
      RouteDeliversIff(live, before, c.rules, reserved, keep, ids, ld.forward, c.srcFwdRID, payload, ld.loop.remote,
                       ld.loop.local, there);
    }
    if LooksUpAll(live, KeysOf(live, ld.reverse, c.dstFwdRID, payload), back) {
      RouteDeliversIff(live, before, c.rules, reserved, keep, ids, ld.reverse, c.dstFwdRID, payload, ld.loop.local,
                       ld.loop.remote, back);
    }
  }

  /** The traffic keeps the loop up: no rule of it waits longer than the keep-alive for its next packet. */
  ghost predicate KeptUpAll(live: LiveNetwork, ids: Ids, reserved: PubKey -> int, keep: nat) {
    forall pk, i :: 0 <= i < |IdsOf(ids, pk)| && pk in live.visors ==>
      KeptUp(live.visors[pk].run, ids[pk][i], reserved(pk), keep)
  }

  lemma KeptUpTimely(live: LiveNetwork, ids: Ids, reserved: PubKey -> int, keep: nat, keys: seq<Key>, steps: seq<nat>)
    requires KeptUpAll(live, ids, reserved, keep) && LooksUpAll(live, keys, steps)
    requires forall j :: 0 <= j < |keys| ==> keys[j].1 in IdsOf(ids, keys[j].0)
    ensures forall j :: 0 <= j < |steps| ==> Timely(live, keys[j], steps[j], reserved(keys[j].0), keep)
  {
    hide KeptUp, LastRenewal;
    forall j | 0 <= j < |steps|
      ensures Timely(live, keys[j], steps[j], reserved(keys[j].0), keep)
    {
      var (pk, id) := keys[j];
      var k :| 0 <= k < |IdsOf(ids, pk)| && IdsOf(ids, pk)[k] == id;
      assert live.LooksUp(keys[j], steps[j]);
      KeptUpMeans(live.visors[pk].run, ids[pk][k], reserved(pk), keep, steps[j]);
    }
  }

  /** Then every packet of the stream is delivered, however long the stream. */
  lemma StreamDelivers(live: LiveNetwork, before: map<PubKey, Managed>, ids: Ids, rec: Counts, ld: LoopDescriptor,
                       reserved: PubKey -> int)
    requires JoinsEnds(ld) && Counted(rec, LoopPops(ld)) && Reserved(ids, rec)
    requires forall pk :: Uses(LoopPops(ld), pk) <= 255
    requires forall pk :: pk in ids ==> Distinct(ids[pk])
    requires Generate(ids, ld).Some? ==> BeginsInstalled(live, before, Generate(ids, ld).value.rules)
    requires ActiveSince(before, ids, reserved)
    requires Linked(live.Static(), ld.forward) && Linked(live.Static(), ld.reverse)
    requires KeptUpAll(live, ids, reserved, if ld.keepAlive < 0 then 0 else ld.keepAlive)
    ensures Generate(ids, ld).Some?
    ensures var first := Generate(ids, ld).value.srcFwdRID;
            forall payload, steps: seq<nat> ::
              |payload| < UINT16 && |steps| == |ld.forward| + 1
              && LooksUpAll(live, KeysOf(live, ld.forward, first, payload), steps)
              ==> DeliversIn(live, ld.forward, first, payload, ld.loop.remote, ld.loop.local, steps)
    ensures var first := Generate(ids, ld).value.dstFwdRID;
            forall payload, steps: seq<nat> ::
              |payload| < UINT16 && |steps| == |ld.reverse| + 1
              && LooksUpAll(live, KeysOf(live, ld.reverse, first, payload), steps)
              ==> DeliversIn(live, ld.reverse, first, payload, ld.loop.local, ld.loop.remote, steps)
  {
    hide Generate, Holds, DeliversIn, LooksUpAll, Timely, KeysIn, KeptUpAll, Linked, ActiveSince, Visits, KeysOf,
      BeginsInstalled, Reserved, Counted, LoopPops, Uses, Distinct;
    var net, keep := live.Static(), if ld.keepAlive < 0 then 0 else ld.keepAlive;
    if Generate(ids, ld).Some? {
      BeginsInstalledAll(live, before, Generate(ids, ld).value.rules);
    }
    InstalledHolds(net, map pk | pk in before :: before[pk].table, ids, rec, ld);
    var c := Generate(ids, ld).value;
    var front, rear := seq(|ld.forward| + 1, _ => 0), seq(|ld.reverse| + 1, _ => 0);
    forall payload, steps: seq<nat> | |payload| < UINT16 && |steps| == |ld.forward| + 1
                                      && LooksUpAll(live, KeysOf(live, ld.forward, c.srcFwdRID, payload), steps)
      ensures DeliversIn(live, ld.forward, c.srcFwdRID, payload, ld.loop.remote, ld.loop.local, steps)
    {
      LoopKeys(live, ids, c.rules, ld, payload);
      KeptUpTimely(live, ids, reserved, keep, KeysOf(live, ld.forward, c.srcFwdRID, payload), steps);
      InstalledLoopDelivers(live, before, ids, rec, ld, reserved, payload, steps, rear);
    }
    forall payload, steps: seq<nat> | |payload| < UINT16 && |steps| == |ld.reverse| + 1
                                      && LooksUpAll(live, KeysOf(live, ld.reverse, c.dstFwdRID, payload), steps)
      ensures DeliversIn(live, ld.reverse, c.dstFwdRID, payload, ld.loop.local, ld.loop.remote, steps)
    {
      LoopKeys(live, ids, c.rules, ld, payload);
      KeptUpTimely(live, ids, reserved, keep, KeysOf(live, ld.reverse, c.dstFwdRID, payload), steps);
      InstalledLoopDelivers(live, before, ids, rec, ld, reserved, payload, front, steps);
    }
  }

  /** The loop's packets look up identifiers given for the loop. */
  lemma LoopKeys(live: LiveNetwork, ids: Ids, rules: RuleLists, ld: LoopDescriptor, payload: seq<Byte>)
    requires JoinsEnds(ld) && Generate(ids, ld).Some? && rules == Generate(ids, ld).value.rules
    requires Holds(live.Static(), rules) && |payload| < UINT16
    requires Linked(live.Static(), ld.forward) && Linked(live.Static(), ld.reverse)
    requires forall pk, id :: pk in rules ==> (id in ReqIDs(rules[pk]) <==> id in IdsOf(ids, pk))
    ensures var keys := KeysOf(live, ld.forward, Generate(ids, ld).value.srcFwdRID, payload);
            forall j :: 0 <= j < |keys| ==> keys[j].1 in IdsOf(ids, keys[j].0)
    ensures var keys := KeysOf(live, ld.reverse, Generate(ids, ld).value.dstFwdRID, payload);
            forall j :: 0 <= j < |keys| ==> keys[j].1 in IdsOf(ids, keys[j].0)
  {
    GenerateVisits(live.Static(), ids, ld, payload);
    hide Generate, Visits, Holds, Linked;
  }

  lemma BeginsInstalledAll(live: LiveNetwork, before: map<PubKey, Managed>, rules: RuleLists)
    requires BeginsInstalled(live, before, rules)
    ensures InstalledAll(live.Static(), map pk | pk in before :: before[pk].table, rules)
  {
  }
}
