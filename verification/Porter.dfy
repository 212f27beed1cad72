/** The stcp port reservations and the wrapping search for an ephemeral port (pkg/snet/stcp/porter.go). */
module Porter {
  import opened Base

  /** The ephemeral ports `minEph..65535`, read as a ring. */
  datatype Ring = Ring(minEph: Port) {
    function Lap(): (n: nat)
      ensures 0 < n <= UINT16
    {
      UINT16 - minEph
    }

    predicate On(p: Port) {
      minEph <= p
    }

    /** How many steps the cursor takes from `from` to reach `p`: a whole lap when they are equal. */
    function Gap(from: Port, p: Port): (k: nat)
      requires On(from) && On(p)
      ensures 1 <= k <= Lap()
    {
      if from < p then p - from else p - from + Lap()
    }

    function Free(ports: set<Port>): (free: set<Port>)
      ensures forall p :: p in free ==> On(p)
    {
      set p: Port | minEph <= p && p !in ports
    }

    /** `p` is the free port the cursor meets first after `from`. */
    predicate First(from: Port, ports: set<Port>, p: Port)
      requires On(from)
    {
      && p in Free(ports)
      && forall q: Port :: q in Free(ports) ==> Gap(from, p) <= Gap(from, q)
    }

    /** The search has a result, and only one, as soon as some port of the ring is free. */
    lemma FirstIsUnique(from: Port, ports: set<Port>, p: Port, q: Port)
      requires On(from) && First(from, ports, p) && First(from, ports, q)
      ensures p == q
    {
      assert Gap(from, p) == Gap(from, q);
    }

    /** One turn of the search: the cursor wraps at 2^16 and is lifted to the first ephemeral port. */
    function Next(cur: Port): Port {
      var n := (cur + 1) % UINT16;
      if n < minEph then minEph else n
    }

    /** After `steps` turns from `from` the cursor is on `cur`, and no free port has been met. */
    ghost predicate Searched(from: Port, ports: set<Port>, steps: nat, cur: Port)
      requires On(from)
    {
      && On(cur)
      && (Free(ports) != {} ==> if steps == 0 then cur == from else steps == Gap(from, cur))
      && forall q: Port :: q in Free(ports) ==> steps < Gap(from, q)
    }

    lemma NextSearched(from: Port, ports: set<Port>, steps: nat, cur: Port)
      requires On(from) && Searched(from, ports, steps, cur)
      ensures On(Next(cur))
      ensures Next(cur) in ports ==> Searched(from, ports, steps + 1, Next(cur))
      ensures Next(cur) !in ports ==>
        Next(cur) in Free(ports) && First(from, ports, Next(cur)) && Gap(from, Next(cur)) == steps + 1
    {
      if Free(ports) != {} {
        var q: Port :| q in Free(ports);
        assert steps < Gap(from, q);
        assert Gap(from, Next(cur)) == steps + 1;
        forall p: Port | p in Free(ports) && Next(cur) in ports
          ensures steps + 1 < Gap(from, p)
        {
          assert p != Next(cur);
        }
      } else {
        assert Next(cur) in Free(ports) || Next(cur) in ports;
      }
    }

    /** What successive searches return while nothing else is reserved or freed. */
    predicate Grants(from: Port, ports: set<Port>, gs: seq<Port>)
      requires On(from)
      decreases |gs|
    {
      gs != [] ==> First(from, ports, gs[0]) && Grants(gs[0], ports, gs[1..])
    }

    /** The port the cursor stands on after those grants. */
    function Cursor(from: Port, gs: seq<Port>): Port {
      if gs == [] then from else gs[|gs| - 1]
    }

    /** `seen` holds the free ports met on the way from `from` to `cur`, and no others. */
    ghost predicate Swept(from: Port, ports: set<Port>, seen: set<Port>, cur: Port)
      requires On(from)
    {
      && On(cur)
      && seen <= Free(ports)
      && forall q: Port :: q in Free(ports) ==> (q in seen <==> Gap(from, q) <= Gap(from, cur))
    }
  }

  predicate Distinct(gs: seq<Port>) {
    forall i, j :: 0 <= i < j < |gs| ==> gs[i] != gs[j]
  }

  function Elements(gs: seq<Port>): set<Port> {
    set g | g in gs
  }

  lemma {:induction false} DistinctSize(gs: seq<Port>)
    ensures |Elements(gs)| <= |gs|
    ensures Distinct(gs) <==> |Elements(gs)| == |gs|
  {
    if gs != [] {
      var rest, g := gs[1..], gs[0];
      DistinctSize(rest);
      assert Elements(gs) == Elements(rest) + {g};
      assert Distinct(gs) <==> Distinct(rest) && g !in Elements(rest) by {
        assert forall i :: 0 < i < |gs| ==> gs[i] == rest[i - 1];
        if Distinct(rest) && g !in Elements(rest) {
          forall i, j | 0 <= i < j < |gs| ensures gs[i] != gs[j] {
            assert gs[j] == rest[j - 1] && gs[j] in Elements(rest);
          }
        }
        if Distinct(gs) {
          assert g !in rest;
          assert forall i :: 0 <= i < |rest| ==> rest[i] == gs[i + 1];
        }
      }
    }
  }

  lemma {:induction false} GrantsSplit(r: Ring, from: Port, ports: set<Port>, gs: seq<Port>, g: Port)
    requires r.On(from) && r.Grants(from, ports, gs + [g])
    ensures r.Grants(from, ports, gs) && r.On(r.Cursor(from, gs))
    ensures r.First(r.Cursor(from, gs), ports, g)
    decreases |gs|
  {
    if gs != [] {
      assert (gs + [g])[1..] == gs[1..] + [g];
      GrantsSplit(r, gs[0], ports, gs[1..], g);
    }
  }

  lemma {:induction false} GrantsAreFree(r: Ring, from: Port, ports: set<Port>, gs: seq<Port>)
    requires r.On(from) && r.Grants(from, ports, gs)
    ensures Elements(gs) <= r.Free(ports)
    decreases |gs|
  {
    if gs != [] {
      GrantsAreFree(r, gs[0], ports, gs[1..]);
    }
  }

  lemma SweepStep(r: Ring, from: Port, ports: set<Port>, seen: set<Port>, cur: Port, g: Port)
    requires r.On(from) && r.Swept(from, ports, seen, cur) && r.First(cur, ports, g)
    requires seen < r.Free(ports)
    ensures g !in seen && r.Swept(from, ports, seen + {g}, g)
  {
    var q: Port :| q in r.Free(ports) && q !in seen;
    assert r.Gap(cur, g) <= r.Gap(cur, q);
    assert r.Gap(from, cur) < r.Gap(from, q);
    assert r.Gap(from, cur) < r.Gap(from, g);
    forall p: Port | p in r.Free(ports)
      ensures p in seen + {g} <==> r.Gap(from, p) <= r.Gap(from, g)
    {
      assert r.Gap(cur, g) <= r.Gap(cur, p);
    }
  }

  lemma SweepFirst(r: Ring, from: Port, ports: set<Port>, g: Port)
    requires r.On(from) && r.First(from, ports, g)
    ensures r.Swept(from, ports, {g}, g)
  {
    forall p: Port | p in r.Free(ports)
      ensures p in {g} <==> r.Gap(from, p) <= r.Gap(from, g)
    {
      assert r.Gap(from, g) <= r.Gap(from, p);
    }
  }

  /** While the grants are no more than the free ports, they are the free ports nearest to the start. */
  lemma {:induction false} GrantsSweep(r: Ring, from: Port, ports: set<Port>, gs: seq<Port>)
    requires r.On(from) && r.Grants(from, ports, gs)
    requires |gs| <= |r.Free(ports)|
    ensures |Elements(gs)| == |gs|
    ensures gs != [] ==> r.Swept(from, ports, Elements(gs), gs[|gs| - 1])
    decreases |gs|
  {
    hide Ring.Swept, Ring.First, Ring.Grants, Ring.Free, Ring.Gap, Ring.Lap;
    if gs == [] {
      assert Elements(gs) == {};
    } else {
      var before, g := gs[..|gs| - 1], gs[|gs| - 1];
      assert gs == before + [g];
      GrantsSplit(r, from, ports, before, g);
      GrantsSweep(r, from, ports, before);
      assert Elements(gs) == Elements(before) + {g};
      GrantsAreFree(r, from, ports, before);
      assert Elements(before) != r.Free(ports);
      if before == [] {
        SweepFirst(r, from, ports, g);
      } else {
        SweepStep(r, from, ports, Elements(before), before[|before| - 1], g);
      }
    }
  }

  /**
   * With F free ports and no other change, successive grants are pairwise distinct exactly as long as there are
   * at most F of them: the search never hands out a port twice before it has handed out every one.
   */
  lemma GrantsDistinctIff(r: Ring, from: Port, ports: set<Port>, gs: seq<Port>)
    requires r.On(from) && r.Grants(from, ports, gs)
    ensures Distinct(gs) <==> |gs| <= |r.Free(ports)|
    ensures |gs| == |r.Free(ports)| ==> Elements(gs) == r.Free(ports)
  {
    DistinctSize(gs);
    GrantsAreFree(r, from, ports, gs);
    Fits(Elements(gs), r.Free(ports));
    if |gs| <= |r.Free(ports)| {
      GrantsSweep(r, from, ports, gs);
    }
  }

  lemma Fits(a: set<Port>, b: set<Port>)
    requires a <= b
    ensures |a| <= |b|
    ensures |a| == |b| ==> a == b
  {
    assert b == a + (b - a);
    assert |b| == |a| + |b - a|;
  }

  /** A free port `gap` steps away is found before the context has been seen done. */
  predicate Within(patience: Option<nat>, gap: nat) {
    patience.Some? ==> gap <= patience.value + 1
  }

  class Porter {
    const ring: Ring
    var eph: Port
    var ports: set<Port>

    ghost predicate Valid()
      reads this
    {
      ring.On(eph)
    }

    constructor (minEph: Port)
      ensures Valid() && ring == Ring(minEph) && eph == minEph && ports == {0}
    {
      ring := Ring(minEph);
      eph := minEph;
      ports := {0};
    }

    method Reserve(port: Port) returns (freer: Option<PortFreer>)
      modifies this`ports
      ensures freer.Some? <==> port !in old(ports)
      ensures ports == old(ports) + {port}
      ensures freer.Some? ==>
        fresh(freer.value) && freer.value.porter == this && freer.value.port == port && !freer.value.done
    {
      if port in ports {
        return None;
      }
      ports := ports + {port};
      var f := new PortFreer(this, port);
      return Some(f);
    }

    /**
     * `patience` says how often the context is found not yet done; None is a context that never is. The call
     * returns in all cases but one: a context that never ends and no free port. The search leaves `ports` alone:
     * the port it grants is not recorded, though the closure that comes with it would delete it.
     */
    method ReserveEphemeral(patience: Option<nat>) returns (res: Result<PortFreer>)
      requires Valid()
      requires patience.None? ==> ring.Free(ports) != {}
      modifies this`eph
      ensures Valid()
      ensures res.Ok? <==> (exists p: Port :: p in ring.Free(ports) && Within(patience, ring.Gap(old(eph), p)))
      ensures res.Ok? ==> fresh(res.value) && res.value.porter == this && !res.value.done
      ensures res.Ok? ==> res.value.port == eph && ring.First(old(eph), ports, eph)
    {
      hide Ring.First, Ring.Gap, Ring.Free, Ring.Lap;
      ghost var free: Port :| patience.None? ==> free in ring.Free(ports);
      var polls := 0;
      while true
        invariant ring.On(eph) && ring.Searched(old(eph), ports, polls, eph)
        invariant if patience.Some? then polls <= patience.value else polls < ring.Gap(old(eph), free) <= ring.Lap()
        decreases if patience.Some? then patience.value - polls else ring.Lap() - polls
      {
        ring.NextSearched(old(eph), ports, polls, eph);
        var next := (eph + 1) % UINT16;
        if next < ring.minEph {
          next := ring.minEph;
        }
        eph := next;
        if eph in ports {
          if patience.Some? && polls == patience.value {
            return Err("context done");
          }
          polls := polls + 1;
          continue;
        }
        assert Within(patience, ring.Gap(old(eph), eph));
        var freer := new PortFreer(this, eph);
        return Ok(freer);
      }
    }
  }

  /** The closure handed out with a reservation: it releases the port the first time it is called. */
  class PortFreer {
    const porter: Porter
    const port: Port
    var done: bool

    constructor (porter: Porter, port: Port)
      ensures this.porter == porter && this.port == port && !done
    {
      this.porter := porter;
      this.port := port;
      done := false;
    }

    method Free()
      modifies this`done, porter`ports
      ensures done
      ensures porter.ports == if old(done) then old(porter.ports) else old(porter.ports) - {port}
    {
      if !done {
        done := true;
        porter.ports := porter.ports - {port};
      }
    }
  }
}
