/**
 * The routing table with keep-alive timeouts: an activity index beside the rules and a collector.
 * The clock reading is a parameter of every operation; a collection reads the clock anew for each rule.
 */
module ManagedTable {
  import opened Base
  import opened RoutingTable

  /** The readings of one collection: the one made for a rule, or the time the collection began. */
  datatype Clock = Clock(start: int, readings: map<RouteID, int>) {
    function At(id: RouteID): int {
      if id in readings then readings[id] else start
    }

    /** The readings are made one after the other, until this time. */
    predicate Within(until: int) {
      start <= until && forall id :: id in readings ==> start <= readings[id] <= until
    }
  }

  datatype Managed = Managed(table: Table, activity: map<RouteID, int>) {

    predicate TimedOut(id: RouteID, rule: Rule, now: int) {
      id !in activity || now - activity[id] > rule.keepAlive
    }

    function Add(rule: Rule, now: int): Managed {
      Managed(table.Add(rule), activity[table.NextID() := now])
    }

    /** SetRule and DeleteRules are the plain table's: neither touches the activity index. */
    function Set(id: RouteID, rule: Rule): Managed {
      Managed(table.Set(id, rule), activity)
    }

    function Delete(ids: seq<RouteID>): Managed {
      Managed(table.Delete(ids), activity)
    }

    function Answer(id: RouteID, now: int): Option<Rule> {
      if id in table.rules && !TimedOut(id, table.rules[id], now) then Some(table.rules[id]) else None
    }

    /** The check reads the clock, and so does the renewal after it. */
    function Look(id: RouteID, now: int, renewal: int): Managed {
      if Answer(id, now).Some? then Managed(table, activity[id := renewal]) else this
    }

    function Expired(now: int): set<RouteID> {
      set id | id in table.rules && TimedOut(id, table.rules[id], now)
    }

    function Collected(clock: Clock): set<RouteID> {
      set id | id in table.rules && TimedOut(id, table.rules[id], clock.At(id))
    }

    function Cleanup(clock: Clock): Managed {
      Managed(table.(rules := table.rules - Collected(clock)), activity - Collected(clock))
    }
  }

  class ManagedRoutingTable {
    const table: InMemoryTable
    var activity: map<RouteID, int>

    ghost function State(): Managed
      reads this, table
    {
      Managed(table.State(), activity)
    }

    constructor (table: InMemoryTable)
      ensures this.table == table && activity == map[]
    {
      this.table := table;
      activity := map[];
    }

    method AddRule(rule: Rule, now: int) returns (res: Result<RouteID>)
      modifies this, table
      ensures res == Ok(old(State()).table.NextID()) && State() == old(State()).Add(rule, now)
    {
      res := table.AddRule(rule);
      activity := activity[res.value := now];
    }

    method Rule(id: RouteID, now: int, renewal: int) returns (res: Result<Rule>)
      modifies this
      ensures State() == old(State()).Look(id, now, renewal)
      ensures var answer := old(State()).Answer(id, now);
              if answer.Some? then res == Ok(answer.value) else res.Err?
    {
      res := table.Rule(id);
      if res.Err? {
        return;
      }
      if RuleIsTimedOut(id, res.value, now) {
        return Err("rule keep-alive timeout exceeded");
      }
      activity := activity[id := renewal];
    }

    predicate RuleIsTimedOut(id: RouteID, rule: Rule, now: int)
      reads this
    {
      id !in activity || now - activity[id] > rule.keepAlive
    }

    /** `order` is the order in which RangeRules visits the table: any listing of its keys. */
    method Cleanup(clock: Clock, order: seq<RouteID>)
      requires forall id :: id in order <==> id in table.rules
      modifies this, table
      ensures State() == old(State()).Cleanup(clock)
    {
      var expired: seq<RouteID> := [];
      for i := 0 to |order|
        invariant forall id :: id in expired <==> id in order[..i] && id in old(State()).Collected(clock)
      {
        if RuleIsTimedOut(order[i], table.rules[order[i]], clock.At(order[i])) {
          expired := expired + [order[i]];
        }
      }
      assert forall id :: id in expired <==> id in old(State()).Collected(clock);
      table.DeleteRules(expired);
      assert (set id | id in expired) == old(State()).Collected(clock);
      for i := 0 to |expired|
        invariant table.State() == old(State()).Delete(expired).table
        invariant forall id :: id in activity <==> id in old(activity) && id !in expired[..i]
        invariant forall id :: id in activity ==> activity[id] == old(activity[id])
      {
        activity := activity - {expired[i]};
      }
      assert activity == old(activity) - old(State()).Collected(clock);
    }
  }

  // Runs: timed operations, with collections anywhere among them.

  datatype Op =
    | AddOp(rule: Rule)
    | SetOp(id: RouteID, rule: Rule)
    | DeleteOp(ids: seq<RouteID>)
    | LookOp(id: RouteID, renewal: int)
    | CleanOp(readings: map<RouteID, int>, until: int)

  datatype Event = Event(at: int, op: Op)

  datatype Reply = Added(id: RouteID) | Looked(answer: Option<Rule>) | Done

  function Apply(s: Managed, e: Event): Managed {
    match e.op
    case AddOp(rule) => s.Add(rule, e.at)
    case SetOp(id, rule) => s.Set(id, rule)
    case DeleteOp(ids) => s.Delete(ids)
    case LookOp(id, renewal) => s.Look(id, e.at, renewal)
    case CleanOp(readings, _) => s.Cleanup(Clock(e.at, readings))
  }

  function ReplyTo(s: Managed, e: Event): Reply {
    match e.op
    case AddOp(_) => Added(s.table.NextID())
    case LookOp(id, _) => Looked(s.Answer(id, e.at))
    case _ => Done
  }

  /** What the callers of a run see; nobody waits for a collection. */
  function Replies(s: Managed, run: seq<Event>): seq<Reply>
    decreases |run|
  {
    if run == [] then []
    else (if run[0].op.CleanOp? then [] else [ReplyTo(s, run[0])]) + Replies(Apply(s, run[0]), run[1..])
  }

  /** When the event is over. */
  function Until(e: Event): int {
    match e.op
    case CleanOp(_, until) => until
    case LookOp(_, renewal) => renewal
    case _ => e.at
  }

  /** The clock never goes back, within an event or between events. */
  predicate Ordered(run: seq<Event>, from: int) {
    run == [] ||
    (&& from <= run[0].at && (run[0].op.CleanOp? ==> Clock(run[0].at, run[0].op.readings).Within(run[0].op.until))
     && run[0].at <= Until(run[0]) && Ordered(run[1..], Until(run[0])))
  }

  /** The run without its collections. */
  function Uncollected(run: seq<Event>): (r: seq<Event>)
    ensures |r| <= |run|
    ensures forall e :: e in r ==> !e.op.CleanOp?
  {
    if run == [] then []
    else (if run[0].op.CleanOp? then [] else [run[0]]) + Uncollected(run[1..])
  }

  /**
   * No lookup succeeds on a rule that was, at some operation since its identifier was allocated,
   * bound and timed out. `dead` collects those identifiers along the run.
   */
  predicate NoRevival(s: Managed, dead: set<RouteID>, run: seq<Event>)
    decreases |run|
  {
    run == [] ||
    var e := run[0];
    var dead' := dead + s.Expired(e.at);
    && (e.op.LookOp? && s.Answer(e.op.id, e.at).Some? ==> e.op.id !in dead')
    && NoRevival(Apply(s, e), Remaining(s, dead', e), run[1..])
  }

  function Remaining(s: Managed, dead: set<RouteID>, e: Event): set<RouteID> {
    if e.op.AddOp? then dead - {s.table.NextID()} else dead
  }

  // Sufficiency: a simulation between the collected table `c` and the uncollected one `u`.

  ghost predicate Simulates(c: Managed, u: Managed, dead: set<RouteID>, now: int) {
    && c.table.nextID == u.table.nextID
    && (forall id :: id in c.table.rules ==> id in u.table.rules && c.table.rules[id] == u.table.rules[id])
    && (forall id :: id in c.activity ==> id in u.activity && c.activity[id] == u.activity[id])
    && (forall id :: id in u.table.rules && id !in c.table.rules ==> id !in c.activity)
    && (forall id :: id in u.activity && id !in c.activity ==> id in dead || id in u.Expired(now))
  }

  lemma SimulationClean(c: Managed, u: Managed, dead: set<RouteID>, from: int, clock: Clock, until: int)
    requires Simulates(c, u, dead, from) && from <= clock.start && clock.Within(until)
    ensures Simulates(c.Cleanup(clock), u, dead, until)
  {
    assert forall id :: id in c.activity && id in c.Collected(clock) ==> id in u.Expired(until);
  }

  lemma SimulationStep(c: Managed, u: Managed, dead: set<RouteID>, from: int, e: Event)
    requires Simulates(c, u, dead, from) && from <= e.at && !e.op.CleanOp?
    requires e.op.LookOp? && u.Answer(e.op.id, e.at).Some? ==> e.op.id !in dead + u.Expired(e.at)
    requires e.at <= Until(e)
    ensures Simulates(Apply(c, e), Apply(u, e), Remaining(u, dead + u.Expired(e.at), e), Until(e))
    ensures ReplyTo(c, e) == ReplyTo(u, e)
  {
    var dead' := dead + u.Expired(e.at);
    assert forall id :: id in u.Expired(from) ==> id in u.Expired(e.at) && id in u.Expired(Until(e));
    if e.op.LookOp? {
      var id := e.op.id;
      if u.Answer(id, e.at).Some? {
        assert id in c.activity;
      }
    }
  }

  lemma {:induction false} Simulation(c: Managed, u: Managed, dead: set<RouteID>, from: int, run: seq<Event>)
    requires Simulates(c, u, dead, from) && Ordered(run, from) && NoRevival(u, dead, Uncollected(run))
    ensures Replies(c, run) == Replies(u, Uncollected(run))
    decreases |run|
  {
    if run != [] {
      var e, rest := run[0], run[1..];
      if e.op.CleanOp? {
        assert Uncollected(run) == Uncollected(rest);
        SimulationClean(c, u, dead, from, Clock(e.at, e.op.readings), e.op.until);
        Simulation(Apply(c, e), u, dead, e.op.until, rest);
      } else {
        assert Uncollected(run)[0] == e && Uncollected(run)[1..] == Uncollected(rest);
        SimulationStep(c, u, dead, from, e);
        Simulation(Apply(c, e), Apply(u, e), Remaining(u, dead + u.Expired(e.at), e), Until(e), rest);
      }
    }
  }

  // Necessity: a revived rule is lost for good once a collection runs while it is timed out.

  function StateAt(s: Managed, run: seq<Event>, j: nat): Managed
    requires j <= |run|
    decreases j
  {
    if j == 0 then s else StateAt(Apply(s, run[0]), run[1..], j - 1)
  }

  /** The run looks `id` up with success before allocating it anew. */
  predicate Finds(s: Managed, run: seq<Event>, id: RouteID)
    decreases |run|
  {
    run != [] &&
    var e := run[0];
    if e.op.LookOp? && e.op.id == id && s.Answer(id, e.at).Some? then true
    else if e.op.AddOp? && s.table.NextID() == id then false
    else Finds(Apply(s, e), run[1..], id)
  }

  lemma {:induction false} LostIsNoticed(c: Managed, u: Managed, run: seq<Event>, id: RouteID)
    requires c.table.nextID == u.table.nextID && id !in c.activity
    requires Finds(u, run, id) && forall e :: e in run ==> !e.op.CleanOp?
    ensures Replies(c, run) != Replies(u, run)
    decreases |run|
  {
    var e := run[0];
    var c', u' := Apply(c, e), Apply(u, e);
    if e.op.LookOp? && e.op.id == id && u.Answer(id, e.at).Some? {
      assert Replies(c, run)[0] != Replies(u, run)[0];
    } else {
      LostIsNoticed(c', u', run[1..], id);
      assert Replies(c, run)[1..] == Replies(c', run[1..]);
      assert Replies(u, run)[1..] == Replies(u', run[1..]);
    }
  }

  /** Where a revival comes from: an identifier dead from the start, or one that died at operation `j`. */
  lemma {:induction false} RevivalOrigin(s: Managed, dead: set<RouteID>, run: seq<Event>) returns (j: nat, id: RouteID)
    requires !NoRevival(s, dead, run)
    ensures j < |run|
    ensures (j == 0 && id in dead && Finds(s, run, id))
         || (id in StateAt(s, run, j).Expired(run[j].at) && Finds(StateAt(s, run, j), run[j..], id))
    decreases |run|
  {
    var e := run[0];
    var dead' := dead + s.Expired(e.at);
    if e.op.LookOp? && s.Answer(e.op.id, e.at).Some? && e.op.id in dead' {
      j, id := 0, e.op.id;
    } else {
      var k, x := RevivalOrigin(Apply(s, e), Remaining(s, dead', e), run[1..]);
      id := x;
      if k == 0 && x in Remaining(s, dead', e) && Finds(Apply(s, e), run[1..], x) {
        j := 0;
        assert run[0..] == run;
      } else {
        j := k + 1;
        assert run[j..] == run[1..][k..];
      }
    }
  }

  function WithCollection(run: seq<Event>, j: nat): seq<Event>
    requires j < |run|
  {
    run[..j] + [Event(run[j].at, CleanOp(map[], run[j].at))] + run[j..]
  }

  lemma {:induction false} InsertedInOrder(run: seq<Event>, from: int, j: nat)
    requires j < |run| && Ordered(run, from) && forall e :: e in run ==> !e.op.CleanOp?
    ensures Ordered(WithCollection(run, j), from) && Uncollected(WithCollection(run, j)) == run
    decreases j
  {
    var more := WithCollection(run, j);
    if j == 0 {
      assert more[1..] == run && run[0..] == run;
      NothingToRemove(run);
    } else {
      assert more[0] == run[0] && more[1..] == WithCollection(run[1..], j - 1);
      InsertedInOrder(run[1..], Until(run[0]), j - 1);
    }
  }

  lemma {:induction false} CollectionInserted(s: Managed, run: seq<Event>, j: nat)
    requires j < |run| && forall e :: e in run ==> !e.op.CleanOp?
    ensures var t := StateAt(s, run, j);
            Replies(t.Cleanup(Clock(run[j].at, map[])), run[j..]) != Replies(t, run[j..])
            ==> Replies(s, WithCollection(run, j)) != Replies(s, run)
    decreases j
  {
    var more := WithCollection(run, j);
    if j == 0 {
      assert more[1..] == run && run[0..] == run;
    } else {
      var s', rest := Apply(s, run[0]), run[1..];
      assert more[0] == run[0] && more[1..] == WithCollection(rest, j - 1) && run[j..] == rest[j - 1..];
      assert Replies(s, more)[1..] == Replies(s', more[1..]);
      assert Replies(s, run)[1..] == Replies(s', rest);
      hide Apply, WithCollection, Managed.Cleanup, ReplyTo, Replies;
      CollectionInserted(s', rest, j - 1);
    }
  }

  lemma {:induction false} NothingToRemove(run: seq<Event>)
    requires forall e :: e in run ==> !e.op.CleanOp?
    ensures Uncollected(run) == run
  {
    if run != [] {
      NothingToRemove(run[1..]);
    }
  }

  /** Every way of placing collections in the run leaves all replies as they were. */
  ghost predicate CollectorInvisible(s: Managed, run: seq<Event>, from: int) {
    forall collected :: Ordered(collected, from) && Uncollected(collected) == run
                        ==> Replies(s, collected) == Replies(s, run)
  }

  /** The collector is invisible to the run's callers exactly when the run revives no rule. */
  lemma CollectorInvisibleIff(s: Managed, run: seq<Event>, from: int)
    requires Ordered(run, from) && forall e :: e in run ==> !e.op.CleanOp?
    ensures CollectorInvisible(s, run, from) <==> NoRevival(s, {}, run)
  {
    if NoRevival(s, {}, run) {
      forall collected | Ordered(collected, from) && Uncollected(collected) == run
        ensures Replies(s, collected) == Replies(s, run)
      {
        Simulation(s, s, {}, from, collected);
      }
    } else {
      var j, id := RevivalOrigin(s, {}, run);
      var t := StateAt(s, run, j);
      assert forall e :: e in run[j..] ==> e in run;
      LostIsNoticed(t.Cleanup(Clock(run[j].at, map[])), t, run[j..], id);
      InsertedInOrder(run, from, j);
      CollectionInserted(s, run, j);
    }
  }

  // How long a rule is answered: lookups renew it, and nothing else does.

  /** An allocation is active from the moment it is made. */
  lemma AddedAnsweredIff(s: Managed, rule: Rule, now: int, at: int)
    ensures s.Add(rule, now).Answer(s.table.NextID(), at) == if at - now <= rule.keepAlive then Some(rule) else None
  {
  }

  /** Setting a rule renews nothing: the identifier's activity is what it was. */
  lemma SetAnsweredIff(s: Managed, id: RouteID, rule: Rule, at: int)
    ensures s.Set(id, rule).Answer(id, at)
            == if id in s.activity && at - s.activity[id] <= rule.keepAlive then Some(rule) else None
  {
  }

  /** Nor does deleting one end its activity: a rule set again has the time that was left. */
  lemma DeletedThenSetAnsweredIff(s: Managed, ids: seq<RouteID>, id: RouteID, rule: Rule, at: int)
    requires id in ids
    ensures s.Delete(ids).Answer(id, at).None?
    ensures s.Delete(ids).Set(id, rule).Answer(id, at)
            == if id in s.activity && at - s.activity[id] <= rule.keepAlive then Some(rule) else None
  {
  }

  /**
   * The run does not allocate the identifier anew, delete it, or set another rule under it. A confirmation may rewrite
   * the route ID of an App rule.
   */
  predicate LeavesAlone(s: Managed, run: seq<Event>, id: RouteID)
    decreases |run|
  {
    run == [] ||
    (&& (match run[0].op
         case AddOp(_) => s.table.NextID() != id
         case SetOp(x, rule) => x != id || (id in s.table.rules && Alike(rule, s.table.rules[id]))
         case DeleteOp(ids) => id !in ids
         case _ => true)
     && LeavesAlone(Apply(s, run[0]), run[1..], id))
  }

  predicate Looks(e: Event, id: RouteID) {
    e.op.LookOp? && e.op.id == id
  }

  /** Every lookup of the identifier comes within the keep-alive of the renewal before it; the first was at `last`. */
  predicate KeptUp(run: seq<Event>, id: RouteID, last: int, keep: nat)
    decreases |run|
  {
    run == [] ||
    if Looks(run[0], id) then run[0].at - last <= keep && KeptUp(run[1..], id, run[0].op.renewal, keep)
    else KeptUp(run[1..], id, last, keep)
  }

  /** When the run last looked the identifier up. */
  function LastRenewal(run: seq<Event>, id: RouteID, last: int): int
    decreases |run|
  {
    if run == [] then last
    else LastRenewal(run[1..], id, if Looks(run[0], id) then run[0].op.renewal else last)
  }

  /** When the run is over. */
  function EndOf(run: seq<Event>, from: int): int {
    if run == [] then from else EndOf(run[1..], Until(run[0]))
  }

  function Final(s: Managed, run: seq<Event>): Managed {
    StateAt(s, run, |run|)
  }

  lemma {:induction false} TimedOutForGood(s: Managed, run: seq<Event>, from: int, id: RouteID, at: int)
    requires Ordered(run, from) && EndOf(run, from) <= at && LeavesAlone(s, run, id) && s.Answer(id, from).None?
    ensures Final(s, run).Answer(id, at).None?
    decreases |run|
  {
    if run != [] {
      TimedOutForGood(Apply(s, run[0]), run[1..], Until(run[0]), id, at);
    }
  }

  lemma {:induction false} TooLate(run: seq<Event>, from: int, id: RouteID, last: int, keep: nat, at: int)
    requires Ordered(run, from) && EndOf(run, from) <= at && from - last > keep
    ensures !(KeptUp(run, id, last, keep) && at - LastRenewal(run, id, last) <= keep)
    decreases |run|
  {
    if run != [] && !Looks(run[0], id) {
      TooLate(run[1..], Until(run[0]), id, last, keep, at);
    }
  }

  /**
   * A rule is answered after a run exactly when each lookup of it came within its keep-alive of the one before, and so
   * does this one: however long the run, whatever else it does, and wherever its collections fall.
   */
  lemma {:induction false} AnsweredIff(s: Managed, run: seq<Event>, from: int, id: RouteID, at: int)
    requires Ordered(run, from) && EndOf(run, from) <= at && LeavesAlone(s, run, id)
    requires id in s.table.rules && id in s.activity
    ensures var rule, last := s.table.rules[id], s.activity[id];
            Final(s, run).Answer(id, at).Some?
            <==> KeptUp(run, id, last, rule.keepAlive) && at - LastRenewal(run, id, last) <= rule.keepAlive
    ensures Final(s, run).Answer(id, at).Some? ==>
              && Alike(Final(s, run).Answer(id, at).value, s.table.rules[id])
              && Final(s, run).activity[id] == LastRenewal(run, id, s.activity[id])
    decreases |run|
  {
    if run != [] {
      var e, s', last, keep := run[0], Apply(s, run[0]), s.activity[id], s.table.rules[id].keepAlive;
      if id in s'.table.rules && id in s'.activity && (Looks(e, id) ==> e.at - last <= keep) {
        AnsweredIff(s', run[1..], Until(e), id, at);
      } else {
        TimedOutForGood(s', run[1..], Until(e), id, at);
        if !Looks(e, id) {
          TooLate(run[1..], Until(e), id, last, keep, at);
        }
      }
    }
  }

  /** By position: each lookup comes within the keep-alive of the last renewal before it. */
  lemma {:induction false} KeptUpByPosition(run: seq<Event>, id: RouteID, last: int, keep: nat)
    ensures KeptUp(run, id, last, keep)
       <==> forall i :: 0 <= i < |run| && Looks(run[i], id) ==> run[i].at - LastRenewal(run[..i], id, last) <= keep
    decreases |run|
  {
    if run != [] {
      var rest, last' := run[1..], if Looks(run[0], id) then run[0].op.renewal else last;
      KeptUpByPosition(rest, id, last', keep);
      assert run[..0] == [];
      forall i | 0 < i < |run|
        ensures run[i] == rest[i - 1] && LastRenewal(run[..i], id, last) == LastRenewal(rest[..i - 1], id, last')
      {
        assert run[..i][1..] == rest[..i - 1];
      }
      if KeptUp(run, id, last, keep) {
        assert forall i :: 0 < i < |run| && Looks(run[i], id) ==>
            run[i].at - LastRenewal(rest[..i - 1], id, last') <= keep;
      } else if KeptUp(rest, id, last', keep) {
        assert run[0].at - LastRenewal(run[..0], id, last) > keep;
      } else {
        var k :| 0 <= k < |rest| && Looks(rest[k], id) && rest[k].at - LastRenewal(rest[..k], id, last') > keep;
        assert run[k + 1] == rest[k];
      }
    }
  }

  lemma {:induction false} BeforePosition(s: Managed, run: seq<Event>, from: int, id: RouteID, i: nat)
    requires Ordered(run, from) && LeavesAlone(s, run, id) && i < |run|
    ensures Ordered(run[..i], from) && EndOf(run[..i], from) <= run[i].at
    ensures LeavesAlone(s, run[..i], id) && Final(s, run[..i]) == StateAt(s, run, i)
    decreases i
  {
    if i > 0 {
      BeforePosition(Apply(s, run[0]), run[1..], Until(run[0]), id, i - 1);
      assert run[..i][1..] == run[1..][..i - 1];
    }
  }

  /** One visor's table from a moment on: how it was then, and everything done to it since. */
  datatype History = History(start: Managed, from: int, run: seq<Event>) {
    function At(i: nat): Managed
      requires i <= |run|
    {
      StateAt(start, run, i)
    }

    /** The rule stays the one it was, up to its route ID, as long as it is there. */
    predicate Keeps(id: RouteID) {
      Ordered(run, from) && LeavesAlone(start, run, id) && id in start.table.rules && id in start.activity
    }

    /** The lookup at this position comes in time, and so did all those before it. */
    predicate InTime(id: RouteID, i: nat)
      requires id in start.table.rules && id in start.activity && i < |run|
    {
      var last, keep := start.activity[id], start.table.rules[id].keepAlive;
      KeptUp(run[..i], id, last, keep) && run[i].at - LastRenewal(run[..i], id, last) <= keep
    }

    predicate AlwaysInTime(id: RouteID)
      requires id in start.table.rules && id in start.activity
    {
      KeptUp(run, id, start.activity[id], start.table.rules[id].keepAlive)
    }
  }

  /** A lookup anywhere in a run is answered exactly when it is in time. */
  lemma InTimeIff(h: History, id: RouteID, i: nat)
    requires h.Keeps(id) && i < |h.run|
    ensures h.At(i).Answer(id, h.run[i].at).Some? <==> h.InTime(id, i)
    ensures h.InTime(id, i) ==> Alike(h.At(i).Answer(id, h.run[i].at).value, h.start.table.rules[id])
  {
    hide KeptUp, LastRenewal, Ordered, LeavesAlone, StateAt, Final, Managed.Answer;
    BeforePosition(h.start, h.run, h.from, id, i);
    AnsweredIff(h.start, h.run[..i], h.from, id, h.run[i].at);
  }

  lemma KeptUpMeans(run: seq<Event>, id: RouteID, last: int, keep: nat, i: nat)
    requires KeptUp(run, id, last, keep) && i < |run| && Looks(run[i], id)
    ensures KeptUp(run[..i], id, last, keep) && run[i].at - LastRenewal(run[..i], id, last) <= keep
  {
    hide LastRenewal, KeptUp;
    KeptUpByPosition(run, id, last, keep);
    KeptUpByPosition(run[..i], id, last, keep);
    forall k | 0 <= k < i && Looks(run[..i][k], id)
      ensures run[..i][k].at - LastRenewal(run[..i][..k], id, last) <= keep
    {
      assert run[..i][..k] == run[..k];
      assert Looks(run[k], id);
    }
  }

  /** No lookup of a run fails exactly when each comes within the keep-alive of the one before. */
  lemma LookupsAnsweredIff(h: History, id: RouteID)
    requires h.Keeps(id)
    ensures (forall i :: 0 <= i < |h.run| && Looks(h.run[i], id) ==> h.At(i).Answer(id, h.run[i].at).Some?)
       <==> h.AlwaysInTime(id)
  {
    KeptUpByPosition(h.run, id, h.start.activity[id], h.start.table.rules[id].keepAlive);
    hide KeptUp, LastRenewal, Ordered, LeavesAlone, StateAt, Managed.Answer;
    forall i | 0 <= i < |h.run| && Looks(h.run[i], id)
      ensures h.At(i).Answer(id, h.run[i].at).Some? <==> h.InTime(id, i)
      ensures h.AlwaysInTime(id) ==> h.InTime(id, i)
    {
      InTimeIff(h, id, i);
      if h.AlwaysInTime(id) {
        KeptUpMeans(h.run, id, h.start.activity[id], h.start.table.rules[id].keepAlive, i);
      }
    }
  }

  // The condition callers meet: one keep-alive per identifier.

  ghost predicate FixedKeepAlive(s: Managed, keep: RouteID -> nat, run: seq<Event>)
    decreases |run|
  {
    && (forall id :: id in s.table.rules ==> s.table.rules[id].keepAlive == keep(id))
    && (run != [] ==>
          && (run[0].op.SetOp? ==> run[0].op.rule.keepAlive == keep(run[0].op.id))
          && (run[0].op.AddOp? ==> run[0].op.rule.keepAlive == keep(s.table.NextID()))
          && FixedKeepAlive(Apply(s, run[0]), keep, run[1..]))
  }

  lemma {:induction false} FixedKeepAliveNeverRevives(s: Managed, keep: RouteID -> nat, dead: set<RouteID>,
                                                      run: seq<Event>, from: int)
    requires Ordered(run, from) && FixedKeepAlive(s, keep, run)
    requires forall id :: id in dead && id in s.activity ==> from - s.activity[id] > keep(id)
    ensures NoRevival(s, dead, run)
    decreases |run|
  {
    if run != [] {
      var e := run[0];
      var dead' := dead + s.Expired(e.at);
      FixedKeepAliveNeverRevives(Apply(s, e), keep, Remaining(s, dead', e), run[1..], Until(e));
    }
  }

  /** With one keep-alive per identifier the collector changes nothing a caller can see. */
  lemma CollectorInvisibleWithFixedKeepAlive(s: Managed, keep: RouteID -> nat, run: seq<Event>, from: int)
    requires Ordered(run, from) && FixedKeepAlive(s, keep, run) && forall e :: e in run ==> !e.op.CleanOp?
    ensures CollectorInvisible(s, run, from)
  {
    FixedKeepAliveNeverRevives(s, keep, {}, run, from);
    CollectorInvisibleIff(s, run, from);
  }

  /** Without it the collector shows: a longer keep-alive set late revives only the uncollected rule. */
  lemma LateExtensionIsVisible(short: Rule, long: Rule)
    requires short.keepAlive == 1 && long.keepAlive == 100
    ensures var run := [Event(0, AddOp(short)), Event(10, SetOp(1, long)), Event(11, LookOp(1, 11))];
            !CollectorInvisible(Managed(EMPTY, map[]), run, 0)
  {
    var run := [Event(0, AddOp(short)), Event(10, SetOp(1, long)), Event(11, LookOp(1, 11))];
    var s0 := Managed(EMPTY, map[]);
    var s1 := Apply(s0, run[0]);
    var s2 := Apply(s1, run[1]);
    assert run[1..] == [run[1], run[2]] && run[1..][1..] == [run[2]] && [run[2]][1..] == [];
    assert 1 in s1.Expired(10) && s2.Answer(1, 11).Some?;
    var d2 := Remaining(s1, Remaining(s0, {} + s0.Expired(0), run[0]) + s1.Expired(10), run[1]);
    assert 1 in d2;
    assert !NoRevival(s2, d2, [run[2]]);
    assert !NoRevival(s1, Remaining(s0, {} + s0.Expired(0), run[0]), run[1..]);
    assert Ordered([run[2]], 10) && Ordered(run[1..], 0);
    CollectorInvisibleIff(s0, run, 0);
  }
}
