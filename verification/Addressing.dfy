/** Under which key an app keeps a loop's connection, and which key the packets and notices that reach it carry. */
module Addressing {
  import opened Base
  import opened IdReservoir
  import opened RouteManager
  import opened Delivery
  import opened Ports

  /** The key Accept and Dial store a connection under: the local address without its public key. */
  function StoredKey(laddr: Addr, raddr: Addr): Loop {
    Loop(Addr(NO_KEY, laddr.port), raddr)
  }

  class App {
    /** The write ends of the loops' pipes, by number. */
    var conns: map<Loop, nat>
    var nextConn: nat

    ghost predicate Valid()
      reads this
    {
      forall l :: l in conns ==> l.local.pk == NO_KEY
    }

    constructor ()
      ensures Valid() && conns == map[]
    {
      conns, nextConn := map[], 0;
    }

    /** `addrs` is what the visor sent with the confirmation. */
    method Accept(addrs: (Addr, Addr)) returns (conn: nat)
      requires Valid()
      modifies this
      ensures Valid() && conns == old(conns)[StoredKey(addrs.0, addrs.1) := conn]
    {
      conn := nextConn;
      conns := conns[Loop(Addr(NO_KEY, addrs.0.port), addrs.1) := conn];
      nextConn := nextConn + 1;
    }

    /** `laddr` is the visor's answer to the request for a loop to `raddr`, if it agreed. */
    method Dial(raddr: Addr, laddr: Result<Addr>) returns (res: Result<nat>)
      requires Valid()
      modifies this
      ensures Valid() && (res.Ok? <==> laddr.Ok?)
      ensures conns == if res.Ok? then old(conns)[StoredKey(laddr.value, raddr) := res.value] else old(conns)
    {
      if laddr.Err? {
        return Err(laddr.error);
      }
      var conn := nextConn;
      conns := conns[Loop(Addr(NO_KEY, laddr.value.port), raddr) := conn];
      nextConn := nextConn + 1;
      return Ok(conn);
    }

    method ForwardPacket(loop: Loop) returns (res: Result<nat>)
      ensures if loop in conns then res == Ok(conns[loop]) else res.Err?
    {
      if loop !in conns {
        return Err("no listeners");
      }
      return Ok(conns[loop]);
    }

    method CloseConn(loop: Loop) returns (closed: Option<nat>)
      requires Valid()
      modifies this
      ensures Valid() && conns == old(conns) - {loop}
      ensures closed == if loop in old(conns) then Some(old(conns)[loop]) else None
    {
      closed := if loop in conns then Some(conns[loop]) else None;
      conns := conns - {loop};
    }

    /**
     * A confirmation is handed to an Accept that waits, and dropped if none does. The check for an existing
     * loop compares the full local address, while stored keys have none: it fires for the zero key only.
     */
    method ConfirmLoop(addrs: (Addr, Addr), waiting: bool) returns (res: Result<Option<(Addr, Addr)>>)
      requires Valid()
      ensures res.Err? <==> addrs.0.pk == NO_KEY && StoredKey(addrs.0, addrs.1) in conns
      ensures res.Ok? ==> res.value == if waiting then Some(addrs) else None
    {
      if Loop(addrs.0, addrs.1) in conns {
        return Err("loop is already created");
      }
      return Ok(if waiting then Some(addrs) else None);
    }
  }

  // What the visor's router sends on behalf of an app, and to it.

  /** The loop entry the router sets when it confirms a loop: where the initial forwarding rule leads. */
  function EntryOf(rule: Rule): LoopEntry
    requires rule.Forward?
  {
    LoopEntry(rule.transport, rule.nextID)
  }

  /** The addresses the router tells the app about a confirmed loop. */
  function ConfirmAddrs(own: PubKey, loop: Loop): (Addr, Addr) {
    (Addr(own, loop.local.port), loop.remote)
  }

  /** What becomes of a packet an app writes, or a visor consumes: it goes out, to an app, nowhere, or is refused. */
  datatype Passed =
    | Out(outcome: Outcome)
    | ToApp(conn: AppConn, loop: Loop, payload: seq<Byte>)
    | Dropped
    | Refused(error: string)

  /**
   * forwardLocalAppPacket: the other app gets the loop with the addresses swapped; an unbound port drops the packet.
   */
  function ForwardLocal(ports: PortMap, loop: Loop, payload: seq<Byte>): Passed {
    if loop.remote.port !in ports then Dropped
    else
      ToApp(ports[loop.remote.port].conn,
            Loop(Addr(NO_KEY, loop.remote.port), Addr(loop.remote.pk, loop.local.port)), payload)
  }

  /** forwardAppPacket: a loop to the visor itself stays local; any other is one write on the entry's transport. */
  function ForwardAppPacket(net: Network, at: PubKey, ports: PortMap, loop: Loop, payload: seq<Byte>): Passed {
    if loop.remote.pk == at then ForwardLocal(ports, loop, payload)
    else if loop.local.port !in ports then Refused("port is not bound")
    else if loop.remote !in ports[loop.local.port].loops then Refused("unknown loop")
    else
      var l := ports[loop.local.port].loops[loop.remote];
      Out(WritePacket(net, at, l.transport, l.routeID, payload))
  }

  /** consumePacket: what an App rule consumes goes to the app on the port, if it is bound. */
  function Consume(ports: PortMap, o: Outcome): Passed {
    match o
    case Consumed(port, loop, payload) =>
      if port in ports then ToApp(ports[port].conn, loop, payload) else Refused("port is not bound")
    case _ => Out(o)
  }

  /** When what an app writes is refused, and what an unbound port does: a remote loop refuses, a local one drops. */
  lemma RefusedIff(net: Network, at: PubKey, ports: PortMap, loop: Loop, payload: seq<Byte>)
    ensures var passed := ForwardAppPacket(net, at, ports, loop, payload);
      && (passed.Refused?
          <==> (loop.remote.pk != at
                && (loop.local.port !in ports || loop.remote !in ports[loop.local.port].loops)))
      && (passed.Dropped? <==> loop.remote.pk == at && loop.remote.port !in ports)
      && (passed.Out? ==> loop.remote.pk != at)
    ensures forall port, from: Loop ::
      Consume(ports, Consumed(port, from, payload))
      == if port in ports then ToApp(ports[port].conn, from, payload) else Refused("port is not bound")
  {
  }

  /** The loop entry does at the source what the initial rule does to a packet with the first identifier. */
  lemma EntryActsAsFirstStep(net: Network, at: PubKey, first: RouteID, ports: PortMap, loop: Loop, payload: seq<Byte>)
    requires loop.remote.pk != at && at in net.tables && first in net.tables[at] && net.tables[at][first].Forward?
    requires loop.local.port in ports && loop.remote in ports[loop.local.port].loops
    requires ports[loop.local.port].loops[loop.remote] == EntryOf(net.tables[at][first])
    ensures ForwardAppPacket(net, at, ports, loop, payload) == Out(HandlePacket(net, at, Packet(first, payload)))
  {
  }

  /**
   * A packet of an app travels: the entry's write, then the forwardings, then the consumption at the far end, where
   * the app bound to the port gets it under this key.
   */
  ghost predicate ReachesApp(net: Network, at: PubKey, ports: PortMap, loop: Loop, payload: seq<Byte>, hops: nat,
                             to: PubKey, toPorts: PortMap, port: Port, key: Loop)
    requires hops > 0 && port in toPorts
  {
    var o := ForwardAppPacket(net, at, ports, loop, payload);
    && o.Out? && o.outcome.Sent? && (at, o.outcome.transport) in net.links
    && var j := Travel(net, net.links[(at, o.outcome.transport)], o.outcome.packet, hops - 1);
       && j.Some? && j.value.at == to
       && Consume(toPorts, HandlePacket(net, to, j.value.packet)) == ToApp(toPorts[port].conn, key, payload)
  }

  lemma DeliversFromApp(net: Network, route: Route, first: RouteID, payload: seq<Byte>, to: Addr, from: Addr,
                        ports: PortMap, loop: Loop, toPorts: PortMap)
    requires route != [] && Delivers(net, route, first, payload, to, from) && to.port in toPorts
    requires loop.remote.pk != route[0].from
    requires route[0].from in net.tables && first in net.tables[route[0].from]
    requires net.tables[route[0].from][first].Forward?
    requires loop.local.port in ports && loop.remote in ports[loop.local.port].loops
    requires ports[loop.local.port].loops[loop.remote] == EntryOf(net.tables[route[0].from][first])
    ensures ReachesApp(net, route[0].from, ports, loop, payload, |route|, to.pk, toPorts, to.port,
                       Loop(Addr(NO_KEY, to.port), from))
  {
    EntryActsAsFirstStep(net, route[0].from, first, ports, loop, payload);
  }

  /**
   * App to app over a remote loop: once both ends are confirmed, what one app writes under the key of its
   * connection reaches the app on the peer's port at the other visor, under the key the peer's connection is stored
   * under. `ports` and `peerPorts` are the two visors' bindings, with the entries confirmLoop has set.
   */
  lemma RemoteLoopAddressing(net: Network, ids: Ids, ld: LoopDescriptor, payload: seq<Byte>, ports: PortMap,
                             peerPorts: PortMap)
    requires JoinsEnds(ld) && Generate(ids, ld).Some? && Holds(net, Generate(ids, ld).value.rules)
    requires Linked(net, ld.forward) && Linked(net, ld.reverse) && |payload| < UINT16
    requires ld.loop.local.pk != ld.loop.remote.pk
    requires var c, src, dst := Generate(ids, ld).value, ld.loop.local, ld.loop.remote;
             && Confirmed(net, src.pk, c.srcFwdRID, ports, src.port, dst)
             && Confirmed(net, dst.pk, c.dstFwdRID, peerPorts, dst.port, src)
    ensures var src, dst := ld.loop.local, ld.loop.remote;
            var dialed, accepted := ConfirmAddrs(src.pk, Loop(src, dst)), ConfirmAddrs(dst.pk, Loop(dst, src));
            var key, peerKey := StoredKey(dialed.0, dialed.1), StoredKey(accepted.0, accepted.1);
            && src.port in ports && dst.port in peerPorts
            && ReachesApp(net, src.pk, ports, key, payload, |ld.forward|, dst.pk, peerPorts, dst.port, peerKey)
            && ReachesApp(net, dst.pk, peerPorts, peerKey, payload, |ld.reverse|, src.pk, ports, src.port, key)
  {
    var c, src, dst := Generate(ids, ld).value, ld.loop.local, ld.loop.remote;
    GenerateDelivers(net, ids, ld, payload);
    hide Generate, Delivers, ReachesApp, Holds, Linked;
    DeliversFromApp(net, ld.forward, c.srcFwdRID, payload, dst, src, ports, StoredKey(src, dst), peerPorts);
    DeliversFromApp(net, ld.reverse, c.dstFwdRID, payload, src, dst, peerPorts, StoredKey(dst, src), ports);
  }

  /** The visor has set the loop entry from its initial forwarding rule. */
  ghost predicate Confirmed(net: Network, at: PubKey, first: RouteID, ports: PortMap, port: Port, remote: Addr) {
    && at in net.tables && first in net.tables[at] && net.tables[at][first].Forward?
    && port in ports && remote in ports[port].loops && ports[port].loops[remote] == EntryOf(net.tables[at][first])
  }

  /**
   * The router's own part of a confirmation: the entry is set from the initial forwarding rule, and the app on the
   * port, if it is bound, is told the addresses. This is what makes a loop Confirmed.
   */
  method ConfirmLoop(pm: PortManager, own: PubKey, loop: Loop, rule: Rule) returns (told: Result<(Addr, Addr)>)
    requires rule.Forward?
    modifies pm
    ensures told == if loop.local.port in old(pm.ports) then Ok(ConfirmAddrs(own, loop)) else Err("port is not bound")
    ensures told.Err? ==> pm.ports == old(pm.ports)
    ensures told.Ok? ==> pm.ports - {loop.local.port} == old(pm.ports) - {loop.local.port}
    ensures told.Ok? ==> forall net: Network, first: RouteID ::
      own in net.tables && first in net.tables[own] && net.tables[own][first] == rule
      ==> Confirmed(net, own, first, pm.ports, loop.local.port, loop.remote)
  {
    if loop.local.port !in pm.ports {
      return Err("port is not bound");
    }
    var _ := pm.SetLoop(loop.local.port, loop.remote, EntryOf(rule));
    return Ok(ConfirmAddrs(own, loop));
  }

  // Loops between two apps of one visor.

  /** confirmLocalLoop: the app on the dialed port is told that address as its own; no app there refuses the dial. */
  function ConfirmLocal(ports: PortMap, laddr: Addr, raddr: Addr): Result<(AppConn, (Addr, Addr))> {
    if raddr.port !in ports then Err("port is not bound") else Ok((ports[raddr.port].conn, (raddr, laddr)))
  }

  /**
   * App to app on one visor: a dial is agreed exactly when the dialed port is bound. From then on what either app
   * writes goes to whatever app is bound to the other's port at that time, under the key the other's connection is
   * stored under, and is dropped without an error when none is.
   */
  lemma LocalLoopAddressing(net: Network, own: PubKey, lport: Port, rport: Port, ports: PortMap, later: PortMap,
                            payload: seq<Byte>)
    ensures var laddr, raddr := Addr(own, lport), Addr(own, rport);
            var accepted := ConfirmLocal(ports, laddr, raddr);
            && (accepted.Ok? <==> rport in ports)
            && (accepted.Ok? ==>
                  var key, peerKey := StoredKey(laddr, raddr), StoredKey(accepted.value.1.0, accepted.value.1.1);
                  && ForwardAppPacket(net, own, later, key, payload)
                     == (if rport in later then ToApp(later[rport].conn, peerKey, payload) else Dropped)
                  && ForwardAppPacket(net, own, later, peerKey, payload)
                     == (if lport in later then ToApp(later[lport].conn, key, payload) else Dropped))
  {
  }

  // Closing.

  /** The loop the peer is told is closed: the setup node swaps the two addresses of the app's key. */
  function CloseNotice(key: Loop): Loop {
    Loop(key.remote, key.local)
  }

  /**
   * The key an app closes a loop by has no local public key, so the notice has no remote one. It names the
   * peer's connection, or the peer's App rule, exactly when the keys concerned are the zero key: for real
   * visors the peer's connection and rule both stay.
   */
  lemma CloseNoticeMatchesIff(src: Addr, dst: Addr, app: Rule)
    requires app.App? && app.remotePK == src.pk && app.remotePort == src.port && app.localPort == dst.port
    ensures var notice := CloseNotice(StoredKey(src, dst));
            && (notice == StoredKey(dst, src) <==> src.pk == NO_KEY && dst.pk == NO_KEY)
            && (Matches(app, notice) <==> src.pk == NO_KEY)
  {
  }
}
