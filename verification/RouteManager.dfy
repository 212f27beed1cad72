/** What a visor does with the setup node's requests: give identifiers, set rules, confirm and remove loops. */
module RouteManager {
  import opened Base
  import opened RoutingTable
  import opened ManagedTable
  import opened IdReservoir

  const DEFAULT_KEEP_ALIVE: nat := 7200000000000

  /** What AddRule stores when an identifier is reserved: a forwarding rule to nowhere. */
  const PLACEHOLDER := Forward(DEFAULT_KEEP_ALIVE, 0, 0, NO_UUID)

  function AddPlaceholders(m: Managed, n: nat, now: int): Managed {
    if n == 0 then m else AddPlaceholders(m, n - 1, now).Add(PLACEHOLDER, now)
  }

  lemma WrapStep32(x: nat)
    ensures (x % UINT32 + 1) % UINT32 == (x + 1) % UINT32
  {
  }

  lemma {:induction false} CounterAfter(m: Managed, n: nat, now: int)
    ensures AddPlaceholders(m, n, now).table.nextID == (m.table.nextID + n) % UINT32
  {
    if n > 0 {
      CounterAfter(m, n - 1, now);
      WrapStep32(m.table.nextID + n - 1);
    }
  }

  function InstallAll(t: Table, rules: seq<Rule>): Table {
    if rules == [] then t
    else
      var last := rules[|rules| - 1];
      InstallAll(t, rules[..|rules| - 1]).Set(last.reqID, last)
  }

  /** The App rule a loop's confirmation or removal looks for. */
  predicate Matches(rule: Rule, loop: Loop) {
    && rule.App? && rule.remotePK == loop.remote.pk && rule.remotePort == loop.remote.port
    && rule.localPort == loop.local.port
  }

  /** RangeRules stops at the first match in the order it happens to visit the table. */
  function FirstMatch(rules: map<RouteID, Rule>, order: seq<RouteID>, loop: Loop): Option<RouteID> {
    if order == [] then None
    else if order[0] in rules && Matches(rules[order[0]], loop) then Some(order[0])
    else FirstMatch(rules, order[1..], loop)
  }

  ghost predicate Lists(order: seq<RouteID>, rules: map<RouteID, Rule>) {
    forall id :: id in order <==> id in rules
  }

  lemma {:induction false} FirstMatchFound(rules: map<RouteID, Rule>, order: seq<RouteID>, loop: Loop)
    ensures FirstMatch(rules, order, loop).Some? ==>
              var id := FirstMatch(rules, order, loop).value;
              id in order && id in rules && Matches(rules[id], loop)
    ensures FirstMatch(rules, order, loop).None? ==>
              forall id :: id in order && id in rules ==> !Matches(rules[id], loop)
  {
    if order != [] {
      FirstMatchFound(rules, order[1..], loop);
      assert forall id :: id in order <==> id == order[0] || id in order[1..];
    }
  }

  function Rebound(rules: map<RouteID, Rule>, id: RouteID, routeID: RouteID): map<RouteID, Rule>
    requires id in rules && rules[id].App?
  {
    rules[id := rules[id].(respID := routeID)]
  }

  class RouteManager {
    const rt: ManagedRoutingTable

    constructor (rt: ManagedRoutingTable)
      ensures this.rt == rt
    {
      this.rt := rt;
    }

    /** The identifiers given are the ones that follow the counter. */
    method OccupyRouteID(n: nat, now: int) returns (ids: seq<RouteID>)
      requires n < 256
      modifies rt, rt.table
      ensures rt.State() == AddPlaceholders(old(rt.State()), n, now)
      ensures |ids| == n && forall i :: 0 <= i < n ==> ids[i] == (old(rt.State()).table.nextID + 1 + i) % UINT32
    {
      ids := [];
      for i := 0 to n
        invariant rt.State() == AddPlaceholders(old(rt.State()), i, now)
        invariant |ids| == i
        invariant forall k :: 0 <= k < i ==> ids[k] == AddPlaceholders(old(rt.State()), k + 1, now).table.nextID
      {
        var res := rt.AddRule(PLACEHOLDER, now);
        ids := ids + [res.value];
      }
      forall k | 0 <= k < n
        ensures ids[k] == (old(rt.State()).table.nextID + 1 + k) % UINT32
      {
        CounterAfter(old(rt.State()), k + 1, now);
      }
    }

    method SetRoutingRules(rules: seq<Rule>)
      modifies rt.table
      ensures rt.table.State() == InstallAll(old(rt.table.State()), rules)
    {
      for i := 0 to |rules|
        invariant rt.table.State() == InstallAll(old(rt.table.State()), rules[..i])
      {
        assert rules[..i + 1][..i] == rules[..i];
        rt.table.SetRule(rules[i].reqID, rules[i]);
      }
      assert rules[..|rules|] == rules;
    }

    /** The order in which RangeRules visits the table: a Go map is listed in any order. */
    method Visit() returns (order: seq<RouteID>)
      ensures Lists(order, rt.table.rules)
    {
      order := [];
      var rest := rt.table.rules.Keys;
      while rest != {}
        invariant rest <= rt.table.rules.Keys
        invariant forall id :: id in rt.table.rules <==> id in order || id in rest
        decreases |rest|
      {
        var id :| id in rest;
        order, rest := order + [id], rest - {id};
      }
    }

    method FindApp(loop: Loop, order: seq<RouteID>) returns (found: Option<RouteID>)
      requires Lists(order, rt.table.rules)
      ensures found == FirstMatch(rt.table.rules, order, loop)
    {
      assert order[0..] == order;
      for i := 0 to |order|
        invariant FirstMatch(rt.table.rules, order, loop) == FirstMatch(rt.table.rules, order[i..], loop)
      {
        if Matches(rt.table.rules[order[i]], loop) {
          return Some(order[i]);
        }
        assert order[i..][1..] == order[i + 1..];
      }
      return None;
    }

    /** `accepted` is the outcome of the router's own confirmation callback. */
    method ConfirmLoop(loop: Loop, routeID: RouteID, now: int, renewal: int, order: seq<RouteID>,
                       accepted: bool) returns (res: Result<Rule>)
      requires Lists(order, rt.table.rules)
      modifies rt, rt.table
      ensures var m, app := old(rt.State()), FirstMatch(old(rt.table.rules), order, loop);
              var fwd := m.Answer(routeID, now);
              && (res.Ok? <==> app.Some? && fwd.Some? && fwd.value.Forward? && accepted)
              && (res.Ok? ==> res.value == fwd.value && app.value in m.table.rules && m.table.rules[app.value].App?
                              && rt.State() == m.Look(routeID, now, renewal)
                                               .Set(app.value, m.table.rules[app.value].(respID := routeID)))
              && (res.Err? ==> rt.State() == if app.None? then m else m.Look(routeID, now, renewal))
    {
      FirstMatchFound(rt.table.rules, order, loop);
      var appRouteID := FindApp(loop, order);
      if appRouteID.None? {
        return Err("unknown loop");
      }
      var appRule := rt.table.rules[appRouteID.value];
      var rule := rt.Rule(routeID, now, renewal);
      if rule.Err? {
        return Err("routing table");
      }
      if !rule.value.Forward? {
        return Err("reverse rule is not forward");
      }
      if !accepted {
        return Err("confirm");
      }
      rt.table.SetRule(appRouteID.value, appRule.(respID := routeID));
      return Ok(rule.value);
    }

    method RemoveLoopRule(loop: Loop, order: seq<RouteID>)
      requires Lists(order, rt.table.rules)
      modifies rt.table
      ensures var app := FirstMatch(old(rt.table.rules), order, loop);
              rt.table.State() == if app.None? then old(rt.table.State()) else old(rt.table.State()).Delete([app.value])
    {
      var appRouteID := FindApp(loop, order);
      if appRouteID.Some? {
        rt.table.DeleteRules([appRouteID.value]);
      }
    }
  }

  // Fresh identifiers.

  lemma {:induction false} PlaceholdersAreFresh(m: Managed, n: nat, now: int)
    requires Allocated(m.table) && m.table.nextID + n < UINT32
    ensures var t := AddPlaceholders(m, n, now).table;
            && t.nextID == m.table.nextID + n && Allocated(t)
            && (forall id :: id in m.table.rules ==> id in t.rules && t.rules[id] == m.table.rules[id])
            && (forall id :: m.table.nextID < id <= m.table.nextID + n ==>
                  id !in m.table.rules && id in t.rules && t.rules[id] == PLACEHOLDER)
  {
    if n > 0 {
      PlaceholdersAreFresh(m, n - 1, now);
    }
  }

  // Installed rules.

  /**
   * Under distinct keys no write undoes another: every rule of the list ends up in the table, and other keys are left
   * alone.
   */
  lemma {:induction false} InstallAllHolds(t: Table, rules: seq<Rule>)
    requires Distinct(ReqIDs(rules))
    ensures InstallAll(t, rules).nextID == t.nextID
    ensures forall i :: 0 <= i < |rules| ==> rules[i].reqID in InstallAll(t, rules).rules
                                             && InstallAll(t, rules).rules[rules[i].reqID] == rules[i]
    ensures forall id :: id in t.rules && id !in ReqIDs(rules) ==>
              id in InstallAll(t, rules).rules && InstallAll(t, rules).rules[id] == t.rules[id]
  {
    if rules != [] {
      var front, last := rules[..|rules| - 1], rules[|rules| - 1];
      assert ReqIDs(rules)[|rules| - 1] == last.reqID;
      assert forall i :: 0 <= i < |front| ==> ReqIDs(front)[i] == ReqIDs(rules)[i];
      InstallAllHolds(t, front);
      forall i | 0 <= i < |front|
        ensures front[i].reqID != last.reqID && rules[i] == front[i]
      {
        assert ReqIDs(rules)[i] != ReqIDs(rules)[|rules| - 1];
      }
      assert forall id :: id !in ReqIDs(rules) ==> id !in ReqIDs(front);
    }
  }

  // How long what is installed is answered.

  /** Reserved identifiers are active from the moment of the reservation, whatever the counter. */
  lemma {:induction false} ReservedActive(m: Managed, n: nat, now: int, k: nat)
    requires k < n
    ensures var id := (m.table.nextID + 1 + k) % UINT32;
            id in AddPlaceholders(m, n, now).activity && AddPlaceholders(m, n, now).activity[id] == now
  {
    if k == n - 1 {
      CounterAfter(m, n - 1, now);
      WrapStep32(m.table.nextID + n - 1);
    } else {
      ReservedActive(m, n - 1, now, k);
    }
  }

  /** What setRoutingRules does to a visor's managed table: the activity index is left as the reservation made it. */
  function Installed(m: Managed, rules: seq<Rule>): Managed {
    Managed(InstallAll(m.table, rules), m.activity)
  }

  /** An installed rule is answered from its identifier's last activity on, up to its own keep-alive. */
  lemma InstalledAnsweredIff(m: Managed, rules: seq<Rule>, i: nat, at: int)
    requires Distinct(ReqIDs(rules)) && i < |rules|
    ensures var id := rules[i].reqID;
            Installed(m, rules).Answer(id, at)
            == if id in m.activity && at - m.activity[id] <= rules[i].keepAlive then Some(rules[i]) else None
  {
    InstallAllHolds(m.table, rules);
  }

  /** Identifiers reserved at one time and set afterwards are answered exactly until that time plus the keep-alive. */
  lemma ReservedAnsweredIff(m: Managed, n: nat, now: int, rules: seq<Rule>, i: nat, k: nat, at: int)
    requires Distinct(ReqIDs(rules)) && i < |rules|
    requires k < n && rules[i].reqID == (m.table.nextID + 1 + k) % UINT32
    ensures Installed(AddPlaceholders(m, n, now), rules).Answer(rules[i].reqID, at)
            == if at - now <= rules[i].keepAlive then Some(rules[i]) else None
  {
    ReservedActive(m, n, now, k);
    InstalledAnsweredIff(AddPlaceholders(m, n, now), rules, i, at);
  }

  /**
   * The whole life of one identifier: reserved at `from`, set within the placeholder's keep-alive of that, then looked
   * up. The rule's time counts from the reservation until the first lookup, and from the latest lookup after that.
   */
  lemma ReservedLifetime(s: Managed, id: RouteID, from: int, before: seq<Event>, setAt: int, rule: Rule,
                         after: seq<Event>, at: int)
    requires id in s.table.rules && s.table.rules[id] == PLACEHOLDER && id in s.activity && s.activity[id] == from
    requires Ordered(before, from) && LeavesAlone(s, before, id) && forall e :: e in before ==> !Looks(e, id)
    requires EndOf(before, from) <= setAt <= from + DEFAULT_KEEP_ALIVE
    requires Ordered(after, setAt) && EndOf(after, setAt) <= at
    requires LeavesAlone(Final(s, before).Set(id, rule), after, id)
    ensures Final(Final(s, before).Set(id, rule), after).Answer(id, at).Some?
       <==> KeptUp(after, id, from, rule.keepAlive) && at - LastRenewal(after, id, from) <= rule.keepAlive
    ensures Final(Final(s, before).Set(id, rule), after).Answer(id, at).Some? ==>
              Alike(Final(Final(s, before).Set(id, rule), after).Answer(id, at).value, rule)
  {
    NotLookedUp(before, id, from, PLACEHOLDER.keepAlive);
    AnsweredIff(s, before, from, id, setAt);
    AnsweredIff(Final(s, before).Set(id, rule), after, setAt, id, at);
  }

  lemma {:induction false} NotLookedUp(run: seq<Event>, id: RouteID, last: int, keep: nat)
    requires forall e :: e in run ==> !Looks(e, id)
    ensures KeptUp(run, id, last, keep) && LastRenewal(run, id, last) == last
    decreases |run|
  {
    if run != [] {
      NotLookedUp(run[1..], id, last, keep);
    }
  }

  // Which rule a confirmation writes to.

  /** The rules after a successful confirmation that visited the table in this order. */
  function AfterConfirm(rules: map<RouteID, Rule>, order: seq<RouteID>, loop: Loop, routeID: RouteID): map<RouteID,
                        Rule> {
    match FirstMatch(rules, order, loop)
    case None => rules
    case Some(id) => if id in rules && rules[id].App? then Rebound(rules, id, routeID) else rules
  }

  ghost predicate OrderIrrelevant(rules: map<RouteID, Rule>, loop: Loop, routeID: RouteID) {
    forall a, b :: Lists(a, rules) && Lists(b, rules) ==>
      AfterConfirm(rules, a, loop, routeID) == AfterConfirm(rules, b, loop, routeID)
  }

  lemma {:induction false} AsList(keys: set<RouteID>) returns (order: seq<RouteID>)
    ensures forall id :: id in order <==> id in keys
    decreases |keys|
  {
    if keys == {} {
      order := [];
    } else {
      var k :| k in keys;
      var rest := AsList(keys - {k});
      order := [k] + rest;
    }
  }

  /**
   * The visiting order does not matter exactly when one rule matches the loop, or every rule that
   * matches names the confirmed identifier already.
   */
  lemma OrderIrrelevantIff(rules: map<RouteID, Rule>, loop: Loop, routeID: RouteID)
    ensures OrderIrrelevant(rules, loop, routeID)
       <==> forall x, y :: x in rules && y in rules && Matches(rules[x], loop) && Matches(rules[y], loop)
                           ==> x == y || (rules[x].respID == routeID && rules[y].respID == routeID)
  {
    if OrderIrrelevant(rules, loop, routeID) {
      forall x, y | x in rules && y in rules && Matches(rules[x], loop) && Matches(rules[y], loop) && x != y
        ensures rules[x].respID == routeID && rules[y].respID == routeID
      {
        var rest := AsList(rules.Keys);
        var a, b := [x] + rest, [y] + rest;
        assert Lists(a, rules) && Lists(b, rules);
        assert FirstMatch(rules, a, loop) == Some(x) && FirstMatch(rules, b, loop) == Some(y);
        assert Rebound(rules, x, routeID) == Rebound(rules, y, routeID);
        assert Rebound(rules, x, routeID)[x] == Rebound(rules, y, routeID)[x];
        assert Rebound(rules, x, routeID)[y] == Rebound(rules, y, routeID)[y];
      }
    }
    if forall x, y :: x in rules && y in rules && Matches(rules[x], loop) && Matches(rules[y], loop)
                      ==> x == y || (rules[x].respID == routeID && rules[y].respID == routeID) {
      forall a, b | Lists(a, rules) && Lists(b, rules)
        ensures AfterConfirm(rules, a, loop, routeID) == AfterConfirm(rules, b, loop, routeID)
      {
        FirstMatchFound(rules, a, loop);
        FirstMatchFound(rules, b, loop);
      }
    }
  }

  /** A confirmation changes at most the response identifier of one App rule. */
  lemma RebindChangesOneField(rules: map<RouteID, Rule>, id: RouteID, routeID: RouteID)
    requires id in rules && rules[id].App?
    ensures var r := Rebound(rules, id, routeID);
            && r.Keys == rules.Keys
            && (forall x :: x in rules && x != id ==> r[x] == rules[x])
            && r[id] == rules[id].(respID := routeID)
            && (rules[id].respID == routeID <==> r == rules)
  {
    var r := Rebound(rules, id, routeID);
    if r == rules {
      assert r[id] == rules[id];
    }
  }
}
