/** Ports, the loops on them, and what happens to both when an app's connection ends. */
module Ports {
  import opened Base
  import opened RoutingTable
  import opened ManagedTable
  import opened RouteManager

  /** The identity of an app's protocol connection. */
  type AppConn = nat

  datatype LoopEntry = LoopEntry(transport: UUID, routeID: RouteID)

  datatype PortBind = PortBind(conn: AppConn, loops: map<Addr, LoopEntry>)

  type PortMap = map<Port, PortBind>

  const LAST_PORT: Port := UINT16 - 1

  class PortManager {
    const minPort: Port
    var ports: PortMap

    constructor (minPort: Port)
      ensures this.minPort == minPort && ports == map[]
    {
      this.minPort := minPort;
      ports := map[];
    }

    /**
     * Binds the lowest free port from the minimum up to, and never including, 65535.
     * No result stands for the panic when there is none.
     */
    method Alloc(conn: AppConn) returns (port: Option<Port>)
      modifies this
      ensures port.Some? <==> exists p :: minPort <= p < LAST_PORT && p !in old(ports)
      ensures port.Some? ==> minPort <= port.value < LAST_PORT && port.value !in old(ports)
      ensures port.Some? ==> forall p: Port :: minPort <= p < port.value ==> p in old(ports)
      ensures ports == if port.Some? then old(ports)[port.value := PortBind(conn, map[])] else old(ports)
    {
      var i: int := minPort;
      while i < LAST_PORT
        invariant minPort <= i && (i <= LAST_PORT || i == minPort)
        invariant forall p: Port :: minPort <= p < i ==> p in ports
        invariant ports == old(ports)
      {
        if i !in ports {
          ports := ports[i := PortBind(conn, map[])];
          return Some(i);
        }
        i := i + 1;
      }
      return None;
    }

    method Open(port: Port, conn: AppConn) returns (res: Result<()>)
      modifies this
      ensures res.Err? <==> port in old(ports)
      ensures ports == if res.Ok? then old(ports)[port := PortBind(conn, map[])] else old(ports)
    {
      if port in ports {
        return Err("port is already bound");
      }
      ports := ports[port := PortBind(conn, map[])];
      return Ok(());
    }

    method SetLoop(port: Port, raddr: Addr, l: LoopEntry) returns (res: Result<()>)
      modifies this
      ensures res.Ok? <==> port in old(ports)
      ensures ports == if res.Err? then old(ports)
                       else old(ports)[port := old(ports)[port].(loops := old(ports)[port].loops[raddr := l])]
    {
      if port !in ports {
        return Err("port is not bound");
      }
      ports := ports[port := ports[port].(loops := ports[port].loops[raddr := l])];
      return Ok(());
    }

    method GetLoop(port: Port, raddr: Addr) returns (res: Result<LoopEntry>)
      ensures res.Ok? <==> port in ports && raddr in ports[port].loops
      ensures res.Ok? ==> res.value == ports[port].loops[raddr]
    {
      if port !in ports {
        return Err("port is not bound");
      }
      if raddr !in ports[port].loops {
        return Err("unknown loop");
      }
      return Ok(ports[port].loops[raddr]);
    }

    method RemoveLoop(port: Port, raddr: Addr) returns (res: Result<()>)
      modifies this
      ensures res.Ok? <==> port in old(ports)
      ensures ports == if res.Err? then old(ports)
                       else old(ports)[port := old(ports)[port].(loops := old(ports)[port].loops - {raddr})]
    {
      if port !in ports {
        return Err("port is not bound");
      }
      ports := ports[port := ports[port].(loops := ports[port].loops - {raddr})];
      return Ok(());
    }

    /** Unbinds the port; the remote addresses of its loops come in no particular order. */
    method Close(port: Port) returns (addrs: seq<Addr>)
      modifies this
      ensures ports == old(ports) - {port}
      ensures NoRepeats(addrs)
      ensures forall a :: a in addrs <==> port in old(ports) && a in old(ports)[port].loops
    {
      addrs := [];
      if port !in ports {
        return;
      }
      var rest := ports[port].loops.Keys;
      ports := ports - {port};
      while rest != {}
        invariant ports == old(ports) - {port}
        invariant NoRepeats(addrs) && forall a :: a in rest ==> a !in addrs
        invariant forall a :: a in addrs || a in rest <==> a in old(ports)[port].loops
        decreases |rest|
      {
        var a :| a in rest;
        addrs, rest := addrs + [a], rest - {a};
      }
    }

    method AppPorts(conn: AppConn) returns (res: seq<Port>)
      ensures NoRepeats(res)
      ensures forall p :: p in res <==> p in ports && ports[p].conn == conn
    {
      res := [];
      var rest := ports.Keys;
      while rest != {}
        invariant rest <= ports.Keys && NoRepeats(res) && forall p :: p in rest ==> p !in res
        invariant forall p :: p in res ==> p in ports && ports[p].conn == conn
        invariant forall p :: p in ports && ports[p].conn == conn ==> p in res || p in rest
        decreases |rest|
      {
        var p :| p in rest;
        if ports[p].conn == conn {
          res := res + [p];
        }
        rest := rest - {p};
      }
    }
  }

  predicate NoRepeats<T(==)>(s: seq<T>) {
    forall i, j :: 0 <= i < j < |s| ==> s[i] != s[j]
  }

  function Pairs(p: Port, addrs: seq<Addr>): seq<(Port, Addr)> {
    seq(|addrs|, i requires 0 <= i < |addrs| => (p, addrs[i]))
  }

  lemma PairsJoin(s: seq<(Port, Addr)>, p: Port, addrs: seq<Addr>)
    requires NoRepeats(s) && NoRepeats(addrs) && forall a :: (p, a) !in s
    ensures NoRepeats(s + Pairs(p, addrs))
    ensures forall q: Port, a :: (q, a) in s + Pairs(p, addrs) <==> (q, a) in s || (q == p && a in addrs)
  {
    forall a | a in addrs
      ensures (p, a) in Pairs(p, addrs)
    {
      var i :| 0 <= i < |addrs| && addrs[i] == a;
      assert Pairs(p, addrs)[i] == (p, a);
    }
  }

  /** The loops an app has, as (port, remote address) pairs. */
  ghost predicate HasLoop(ports: PortMap, app: AppConn, port: Port, addr: Addr) {
    port in ports && ports[port].conn == app && addr in ports[port].loops
  }

  /** The loop by which closeLoop asks for a rule: the local address has no key. */
  function LoopKey(port: Port, addr: Addr): Loop {
    Loop(Addr(NO_KEY, port), addr)
  }

  /** The rules that name a loop. */
  function Naming(rules: map<RouteID, Rule>, port: Port, addr: Addr): set<RouteID> {
    set id | id in rules && Matches(rules[id], LoopKey(port, addr))
  }

  /** For each of these loops one rule that names it is gone, if there was any, and nothing else has changed. */
  ghost predicate LosesEach(before: map<RouteID, Rule>, after: map<RouteID, Rule>, loops: seq<(Port, Addr)>) {
    && after.Keys <= before.Keys && (forall id :: id in after ==> after[id] == before[id])
    && (forall id :: id in before && before[id].Forward? ==> id in after)
    && forall p: Port, a: Addr ::
         |Naming(after, p, a)| == |Naming(before, p, a)|
                                  - (if (p, a) in loops && Naming(before, p, a) != {} then 1 else 0)
  }

  lemma LosesOne(before: map<RouteID, Rule>, port: Port, addr: Addr, id: RouteID)
    requires id in before && Matches(before[id], LoopKey(port, addr))
    ensures LosesEach(before, before - {id}, [(port, addr)])
  {
    var after := before - {id};
    forall p: Port, a: Addr
      ensures |Naming(after, p, a)| == |Naming(before, p, a)|
              - (if (p, a) in [(port, addr)] && Naming(before, p, a) != {} then 1 else 0)
    {
      if p == port && a == addr {
        assert id in Naming(before, p, a);
        assert Naming(after, p, a) == Naming(before, p, a) - {id};
      } else {
        assert !Matches(before[id], LoopKey(p, a));
        assert Naming(after, p, a) == Naming(before, p, a);
      }
    }
  }

  lemma LosesNone(rules: map<RouteID, Rule>, port: Port, addr: Addr)
    requires forall id :: id in rules ==> !Matches(rules[id], LoopKey(port, addr))
    ensures LosesEach(rules, rules, [(port, addr)])
  {
    assert Naming(rules, port, addr) == {};
  }

  lemma LosesTwice(a: map<RouteID, Rule>, b: map<RouteID, Rule>, c: map<RouteID, Rule>, some: seq<(Port, Addr)>,
                   more: seq<(Port, Addr)>)
    requires LosesEach(a, b, some) && LosesEach(b, c, more) && forall x :: x in some ==> x !in more
    ensures LosesEach(a, c, some + more)
  {
    hide Naming;
    forall p: Port, d: Addr
      ensures |Naming(c, p, d)| == |Naming(a, p, d)| - (if (p, d) in some + more && Naming(a, p, d) != {} then 1 else 0)
    {
      assert |Naming(b, p, d)| == |Naming(a, p, d)| - (if (p, d) in some && Naming(a, p, d) != {} then 1 else 0);
      assert |Naming(c, p, d)| == |Naming(b, p, d)| - (if (p, d) in more && Naming(b, p, d) != {} then 1 else 0);
      assert (p, d) in some + more <==> (p, d) in some || (p, d) in more;
    }
  }

  /** A rule that is gone named one of the loops; a loop that one rule named is named by none. */
  lemma LosesOnlyThose(before: map<RouteID, Rule>, after: map<RouteID, Rule>, loops: seq<(Port, Addr)>)
    requires LosesEach(before, after, loops)
    ensures forall id :: id in before && id !in after ==>
              exists p: Port, a: Addr :: (p, a) in loops && Matches(before[id], LoopKey(p, a))
    ensures forall p: Port, a: Addr :: (p, a) in loops && |Naming(before, p, a)| <= 1 ==> Naming(after, p, a) == {}
  {
    forall id | id in before && id !in after
      ensures exists p: Port, a: Addr :: (p, a) in loops && Matches(before[id], LoopKey(p, a))
    {
      var rule := before[id];
      var p, a := rule.localPort, Addr(rule.remotePK, rule.remotePort);
      assert Matches(rule, LoopKey(p, a)) && id in Naming(before, p, a) && id !in Naming(after, p, a);
      assert Naming(after, p, a) <= Naming(before, p, a);
      if (p, a) !in loops {
        SmallerSet(Naming(after, p, a), Naming(before, p, a));
      }
    }
  }

  lemma SmallerSet(a: set<RouteID>, b: set<RouteID>)
    requires a <= b && |a| == |b|
    ensures a == b
  {
    assert b == a + (b - a);
  }

  lemma HasLoops(ports: PortMap, app: AppConn, p: Port)
    requires p in ports && ports[p].conn == app
    ensures forall a :: HasLoop(ports, app, p, a) <==> a in ports[p].loops
  {
  }

  function Without(ports: PortMap, gone: seq<Port>): PortMap {
    map p | p in ports && p !in gone :: ports[p]
  }

  lemma AppGone(ports: PortMap, mine: seq<Port>, app: AppConn)
    requires forall p :: p in mine <==> p in ports && ports[p].conn == app
    ensures Without(ports, mine) == map p | p in ports && ports[p].conn != app :: ports[p]
    ensures forall p: Port, a :: HasLoop(ports, app, p, a) ==> p in mine
  {
  }

  lemma NextPort(ports: PortMap, mine: seq<Port>, i: nat)
    requires i < |mine| && NoRepeats(mine) && mine[i] in ports
    ensures mine[..i + 1] == mine[..i] + [mine[i]]
    ensures mine[i] in Without(ports, mine[..i]) && Without(ports, mine[..i])[mine[i]] == ports[mine[i]]
    ensures Without(ports, mine[..i]) - {mine[i]} == Without(ports, mine[..i + 1])
    ensures mine[i] !in mine[..i]
  {
    assert mine[..i + 1] == mine[..i] + [mine[i]];
    WithoutOneMore(ports, mine[..i], mine[i]);
  }

  lemma WithoutOneMore(ports: PortMap, gone: seq<Port>, p: Port)
    ensures Without(ports, gone) - {p} == Without(ports, gone + [p])
    ensures Without(ports, gone + [p]) - {p} == Without(ports, gone + [p])
  {
  }

  lemma TornDown(before: map<RouteID, Rule>, after: map<RouteID, Rule>, loops: seq<(Port, Addr)>, ports: PortMap,
                 app: AppConn)
    requires LosesEach(before, after, loops)
    requires forall p: Port, a :: (p, a) in loops <==> HasLoop(ports, app, p, a)
    ensures forall p: Port, a :: HasLoop(ports, app, p, a) && |Naming(before, p, a)| <= 1 ==> Naming(after, p, a) == {}
    ensures forall id :: id in before && id !in after ==>
              exists p: Port, a :: HasLoop(ports, app, p, a) && Matches(before[id], LoopKey(p, a))
  {
    LosesOnlyThose(before, after, loops);
    hide LosesEach, HasLoop, Naming, Matches;
  }

  class Router {
    const pm: PortManager
    const rm: RouteManager
    var staticPorts: set<Port>
    /** The calls of closeLoop so far, and the loops the setup node was told of. */
    var closed: seq<(Port, Addr)>
    var told: seq<(Port, Addr)>

    constructor (pm: PortManager, rm: RouteManager)
      ensures this.pm == pm && this.rm == rm && staticPorts == {} && closed == [] && told == []
    {
      this.pm, this.rm := pm, rm;
      staticPorts, closed, told := {}, [], [];
    }

    ghost function Rules(): map<RouteID, Rule>
      reads rm.rt.table
    {
      rm.rt.table.rules
    }

    /** On a static port the loop goes; on any other the whole port, with every loop on it. One rule goes either way. */
    method DestroyLoop(port: Port, addr: Addr)
      modifies rm.rt.table, pm
      ensures pm.ports == if port !in staticPorts then old(pm.ports) - {port}
                          else if port in old(pm.ports) then
                            old(pm.ports)[port := old(pm.ports)[port].(loops := old(pm.ports)[port].loops - {addr})]
                          else old(pm.ports)
      ensures LosesEach(old(Rules()), Rules(), [(port, addr)])
    {
      if port in staticPorts {
        var _ := pm.RemoveLoop(port, addr);
      } else {
        var _ := pm.Close(port);
      }
      ghost var before := rm.rt.table.rules;
      var order := rm.Visit();
      FirstMatchFound(before, order, LoopKey(port, addr));
      rm.RemoveLoopRule(LoopKey(port, addr), order);
      ghost var app := FirstMatch(before, order, LoopKey(port, addr));
      hide LosesEach;
      if app.Some? {
        LosesOne(before, port, addr, app.value);
        assert (set id | id in [app.value]) == {app.value};
        assert Rules() == before - {app.value};
      } else {
        LosesNone(before, port, addr);
      }
    }

    /** The loop is destroyed here first; whether the setup node can be told does not matter to that. */
    method CloseLoop(port: Port, addr: Addr, dialed: bool, accepted: bool) returns (res: Result<()>)
      modifies rm.rt.table, this`closed, this`told, pm
      ensures res.Ok? <==> dialed && accepted
      ensures closed == old(closed) + [(port, addr)]
      ensures told == if dialed then old(told) + [(port, addr)] else old(told)
      ensures pm.ports == if port !in staticPorts then old(pm.ports) - {port}
                          else if port in old(pm.ports) then
                            old(pm.ports)[port := old(pm.ports)[port].(loops := old(pm.ports)[port].loops - {addr})]
                          else old(pm.ports)
      ensures LosesEach(old(Rules()), Rules(), [(port, addr)])
    {
      closed := closed + [(port, addr)];
      DestroyLoop(port, addr);
      if !dialed {
        return Err("failed to dial to a setup node");
      }
      told := told + [(port, addr)];
      if !accepted {
        return Err("route setup");
      }
      return Ok(());
    }

    /** The inner loop of the teardown: the loops of one port that was unbound just before. */
    method CloseLoops(port: Port, addrs: seq<Addr>)
      requires port !in pm.ports && NoRepeats(addrs)
      modifies rm.rt.table, this`closed, this`told, pm
      ensures pm.ports == old(pm.ports)
      ensures closed == old(closed) + Pairs(port, addrs)
      ensures LosesEach(old(Rules()), Rules(), Pairs(port, addrs))
    {
      for k := 0 to |addrs|
        invariant pm.ports == old(pm.ports)
        invariant closed == old(closed) + Pairs(port, addrs[..k])
        invariant LosesEach(old(Rules()), Rules(), Pairs(port, addrs[..k]))
      {
        hide LosesEach;
        assert Pairs(port, addrs[..k + 1]) == Pairs(port, addrs[..k]) + [(port, addrs[k])];
        ghost var before := Rules();
        var dialed: bool, accepted: bool := *, *;
        var _ := CloseLoop(port, addrs[k], dialed, accepted);
        LosesTwice(old(Rules()), before, Rules(), Pairs(port, addrs[..k]), [(port, addrs[k])]);
      }
      assert addrs[..|addrs|] == addrs;
    }

    /** The outer loop's body: the port is unbound, and each of its loops closed. */
    method ClosePort(port: Port) returns (ghost addrs: seq<Addr>)
      modifies rm.rt.table, this`closed, this`told, pm
      ensures pm.ports == old(pm.ports) - {port} && NoRepeats(addrs)
      ensures forall a :: a in addrs <==> port in old(pm.ports) && a in old(pm.ports)[port].loops
      ensures closed == old(closed) + Pairs(port, addrs)
      ensures LosesEach(old(Rules()), Rules(), Pairs(port, addrs))
    {
      var closedAddrs := pm.Close(port);
      CloseLoops(port, closedAddrs);
      addrs := closedAddrs;
    }

    /**
     * The end of ServeApp: every port of the app is unbound, closeLoop runs exactly once for each loop the app
     * had, whatever the setup node answers, and nothing of any other app changes. Of the visor's rules exactly one goes
     * for each loop that had any: a loop that one rule named is named by none afterwards.
     */
    method TearDown(app: AppConn, port: Port)
      modifies this, pm, rm.rt.table
      ensures pm.ports == map p | p in old(pm.ports) && old(pm.ports)[p].conn != app :: old(pm.ports)[p]
      ensures |closed| >= |old(closed)| && closed[..|old(closed)|] == old(closed)
      ensures NoRepeats(closed[|old(closed)|..])
      ensures forall p: Port, a :: (p, a) in closed[|old(closed)|..] <==> HasLoop(old(pm.ports), app, p, a)
      ensures LosesEach(old(Rules()), Rules(), closed[|old(closed)|..])
      ensures forall p: Port, a :: HasLoop(old(pm.ports), app, p, a) && |Naming(old(Rules()), p, a)| <= 1 ==>
                Naming(Rules(), p, a) == {}
      ensures forall id :: id in old(Rules()) && id !in Rules() ==>
                exists p: Port, a :: HasLoop(old(pm.ports), app, p, a) && Matches(old(Rules())[id], LoopKey(p, a))
      ensures staticPorts == old(staticPorts) - {port}
    {
      ghost var before := pm.ports;
      ghost var calls := closed;
      var mine := pm.AppPorts(app);
      for i := 0 to |mine|
        invariant pm.ports == Without(before, mine[..i])
        invariant |closed| >= |calls| && closed[..|calls|] == calls && NoRepeats(closed[|calls|..])
        invariant forall p: Port, a :: (p, a) in closed[|calls|..] <==> HasLoop(before, app, p, a) && p in mine[..i]
        invariant LosesEach(old(Rules()), Rules(), closed[|calls|..])
        invariant staticPorts == old(staticPorts)
      {
        hide Without, LosesEach, HasLoop, Naming, Matches, NoRepeats, Pairs;
        var p := mine[i];
        NextPort(before, mine, i);
        HasLoops(before, app, p);
        ghost var prefix, rules0 := closed[|calls|..], Rules();
        ghost var addrs := ClosePort(p);
        assert closed[|calls|..] == prefix + Pairs(p, addrs);
        PairsJoin(prefix, p, addrs);
        LosesTwice(old(Rules()), rules0, Rules(), prefix, Pairs(p, addrs));
      }
      staticPorts := staticPorts - {port};
      assert mine[..|mine|] == mine;
      AppGone(before, mine, app);
      hide LosesEach, HasLoop, Naming, Matches, Without, NoRepeats;
      TornDown(old(Rules()), Rules(), closed[|calls|..], before, app);
    }
  }
}
