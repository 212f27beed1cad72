/** The routing table and its two implementations: in memory, and on an ordered key-value bucket. */
module RoutingTable {
  import opened Base
  import opened Bytes

  /** What a table holds: the allocation counter and the rules by route ID. */
  datatype Table = Table(nextID: RouteID, rules: map<RouteID, Rule>) {

    /** The counter is a uint32: it wraps. */
    function NextID(): RouteID {
      (nextID + 1) % UINT32
    }

    function Add(rule: Rule): Table {
      Table(NextID(), rules[NextID() := rule])
    }

    function Set(id: RouteID, rule: Rule): Table {
      this.(rules := rules[id := rule])
    }

    function Delete(ids: seq<RouteID>): Table {
      this.(rules := rules - (set id | id in ids))
    }
  }

  const EMPTY := Table(0, map[])

  /** Equal up to the route ID of an App rule, the one field a confirmation writes. */
  predicate Alike(r: Rule, q: Rule) {
    r == if r.App? && q.App? then q.(respID := r.respID) else q
  }

  lemma DeleteOneMore(t: Table, ids: seq<RouteID>, i: nat)
    requires i < |ids|
    ensures t.Delete(ids[..i + 1]).rules == t.Delete(ids[..i]).rules - {ids[i]}
  {
    var more, fewer := t.Delete(ids[..i + 1]).rules, t.Delete(ids[..i]).rules - {ids[i]};
    assert forall id: RouteID :: id in ids[..i + 1] <==> id in ids[..i] || id == ids[i];
    assert forall id :: id in more <==> id in fewer;
  }

  /** Every bound identifier was allocated: it is at most the counter, and not zero. */
  predicate Allocated(t: Table) {
    forall id :: id in t.rules ==> 0 < id <= t.nextID
  }

  /**
   * Allocation keeps every bound rule exactly when the next identifier is not bound to another rule.
   * The check in the in-memory AddRule tests the still-zero result, so nothing stops the wrap.
   */
  lemma AddRuleKeepsRules(t: Table, rule: Rule)
    ensures (forall id :: id in t.rules ==> t.Add(rule).rules[id] == t.rules[id])
       <==> (t.NextID() in t.rules ==> t.rules[t.NextID()] == rule)
  {
  }

  /** Before the counter wraps, an allocation is fresh and keeps the table invariant. */
  lemma AddRuleFresh(t: Table, rule: Rule)
    requires Allocated(t) && t.nextID < UINT32 - 1
    ensures t.NextID() == t.nextID + 1 && t.NextID() !in t.rules && Allocated(t.Add(rule))
  {
  }

  /** At the bound it is not: the in-memory table hands out identifiers it has handed out before. */
  lemma AddRuleWraps(rule: Rule, other: Rule)
    requires rule != other
    ensures var t := Table(UINT32 - 1, map[0 := other, 1 := rule]);
            t.NextID() == 0 && t.Add(rule).rules[0] != t.rules[0]
  {
  }

  // Runs of allocations, writes and deletions.

  datatype Change = Allocate(rule: Rule) | Write(id: RouteID, rule: Rule) | Drop(ids: seq<RouteID>)

  function Changed(t: Table, c: Change): Table {
    match c
    case Allocate(rule) => t.Add(rule)
    case Write(id, rule) => t.Set(id, rule)
    case Drop(ids) => t.Delete(ids)
  }

  function ChangedBy(t: Table, run: seq<Change>): Table
    decreases |run|
  {
    if run == [] then t else ChangedBy(Changed(t, run[0]), run[1..])
  }

  /** The identifiers handed out along a run. */
  function Given(t: Table, run: seq<Change>): seq<RouteID>
    decreases |run|
  {
    if run == [] then []
    else (if run[0].Allocate? then [t.NextID()] else []) + Given(Changed(t, run[0]), run[1..])
  }

  lemma WrapStep(x: int, y: int)
    ensures ((x + 1) % UINT32 + y) % UINT32 == (x + 1 + y) % UINT32
  {
  }

  /** Writes and deletions leave the counter alone: a run hands out the identifiers that follow it, around the wrap. */
  lemma {:induction false} GivenInOrder(t: Table, run: seq<Change>)
    ensures forall i :: 0 <= i < |Given(t, run)| ==> Given(t, run)[i] == (t.nextID + 1 + i) % UINT32
    ensures ChangedBy(t, run).nextID == (t.nextID + |Given(t, run)|) % UINT32
    decreases |run|
  {
    if run != [] {
      var c, rest := run[0], run[1..];
      var t' := Changed(t, c);
      GivenInOrder(t', rest);
      if c.Allocate? {
        WrapStep(t.nextID, |Given(t', rest)|);
        forall i | 0 < i < |Given(t, run)|
          ensures Given(t, run)[i] == (t.nextID + 1 + i) % UINT32
        {
          assert Given(t, run)[i] == Given(t', rest)[i - 1] == (t'.nextID + 1 + (i - 1)) % UINT32;
          WrapStep(t.nextID, i);
        }
      }
    }
  }

  /** However rules are set and deleted in between, no identifier is handed out twice until all 2^32 have been. */
  lemma GivenDistinctIff(t: Table, run: seq<Change>)
    ensures (forall i, j :: 0 <= i < j < |Given(t, run)| ==> Given(t, run)[i] != Given(t, run)[j])
       <==> |Given(t, run)| <= UINT32
  {
    GivenInOrder(t, run);
    var given := Given(t, run);
    if |given| > UINT32 {
      assert given[0] == given[UINT32];
    } else {
      forall i, j | 0 <= i < j < |given|
        ensures given[i] != given[j]
      {
        assert (t.nextID + 1 + i) % UINT32 != (t.nextID + 1 + j) % UINT32;
      }
    }
  }

  /** Rules are set only under identifiers given before, as the setup node does. */
  predicate WritesGiven(t: Table, run: seq<Change>)
    decreases |run|
  {
    run == [] || ((run[0].Write? ==> 0 < run[0].id <= t.nextID) && WritesGiven(Changed(t, run[0]), run[1..]))
  }

  /** No allocation of the run overwrites a rule. */
  predicate AllocatesFresh(t: Table, run: seq<Change>)
    decreases |run|
  {
    run == [] || ((run[0].Allocate? ==> t.NextID() !in t.rules) && AllocatesFresh(Changed(t, run[0]), run[1..]))
  }

  /** Before the counter wraps every allocation of a run is fresh, deletions or not. */
  lemma {:induction false} RunAllocatesFresh(t: Table, run: seq<Change>)
    requires Allocated(t) && WritesGiven(t, run) && t.nextID + |Given(t, run)| < UINT32
    ensures AllocatesFresh(t, run) && Allocated(ChangedBy(t, run))
    decreases |run|
  {
    if run != [] {
      RunAllocatesFresh(Changed(t, run[0]), run[1..]);
    }
  }

  class InMemoryTable {
    var nextID: RouteID
    var rules: map<RouteID, Rule>

    ghost function State(): Table
      reads this
    {
      Table(nextID, rules)
    }

    constructor ()
      ensures State() == EMPTY
    {
      nextID := 0;
      rules := map[];
    }

    method AddRule(rule: Rule) returns (res: Result<RouteID>)
      modifies this
      ensures res == Ok(old(State()).NextID())
      ensures State() == old(State()).Add(rule)
    {
      var routeID: RouteID := 0;
      if routeID == UINT32 - 1 {
        return Err("no available routeIDs");
      }
      nextID := (nextID + 1) % UINT32;
      routeID := nextID;
      rules := rules[routeID := rule];
      return Ok(routeID);
    }

    method SetRule(id: RouteID, rule: Rule)
      modifies this
      ensures State() == old(State()).Set(id, rule)
    {
      rules := rules[id := rule];
    }

    method Rule(id: RouteID) returns (res: Result<Rule>)
      ensures res.Ok? <==> id in State().rules
      ensures res.Ok? ==> res.value == State().rules[id]
    {
      if id in rules {
        return Ok(rules[id]);
      }
      return Err("rule not found");
    }

    method DeleteRules(ids: seq<RouteID>)
      modifies this
      ensures State() == old(State()).Delete(ids)
    {
      for i := 0 to |ids|
        invariant State() == old(State()).Delete(ids[..i])
      {
        rules := rules - {ids[i]};
        DeleteOneMore(old(State()), ids, i);
      }
      assert ids[..|ids|] == ids;
    }
  }

  // The bucket-backed table.

  type Key = s: seq<Byte> | |s| == 4 witness [0, 0, 0, 0]

  function BinaryID(id: RouteID): (k: Key)
    ensures Value(k) == id
  {
    Pow256Values();
    ValueOfBE(id, 4);
    BE(id, 4)
  }

  function KeyID(k: Key): (id: RouteID)
    ensures BinaryID(id) == k
  {
    Pow256Values();
    ValueBound(k);
    BEOfValue(k);
    Value(k)
  }

  /** The bucket's contents as a table indexed by number. */
  function Decoded(bucket: map<Key, Rule>): (m: map<RouteID, Rule>)
    ensures forall id: RouteID :: id in m <==> BinaryID(id) in bucket
    ensures forall id: RouteID :: id in m ==> m[id] == bucket[BinaryID(id)]
  {
    var ids := set k | k in bucket :: KeyID(k);
    assert forall k: Key :: k in bucket ==> KeyID(BinaryID(KeyID(k))) == KeyID(k);
    assert forall id: RouteID :: KeyID(BinaryID(id)) == id;
    map id | id in ids :: bucket[BinaryID(id)]
  }

  /** Distinct identifiers have distinct keys, so a put under one key changes one rule. */
  lemma PutDecoded(bucket: map<Key, Rule>, id: RouteID, rule: Rule)
    ensures Decoded(bucket[BinaryID(id) := rule]) == Decoded(bucket)[id := rule]
  {
    hide BinaryID, KeyID, Decoded;
    var m, n := Decoded(bucket[BinaryID(id) := rule]), Decoded(bucket)[id := rule];
    forall x: RouteID
      ensures x in m <==> x in n
      ensures x in m ==> m[x] == n[x]
    {
      assert BinaryID(x) == BinaryID(id) ==> x == id;
    }
  }

  lemma RemoveDecoded(bucket: map<Key, Rule>, id: RouteID)
    ensures Decoded(bucket - {BinaryID(id)}) == Decoded(bucket) - {id}
  {
    hide BinaryID, KeyID, Decoded;
    var m, n := Decoded(bucket - {BinaryID(id)}), Decoded(bucket) - {id};
    forall x: RouteID
      ensures x in m <==> x in n
      ensures x in m ==> m[x] == n[x]
    {
      assert BinaryID(x) == BinaryID(id) ==> x == id;
    }
  }

  class BoltTable {
    var sequence: nat
    var bucket: map<Key, Rule>

    ghost predicate Valid()
      reads this
    {
      sequence < UINT32
    }

    ghost function State(): Table
      reads this
      requires Valid()
    {
      Table(sequence, Decoded(bucket))
    }

    constructor ()
      ensures Valid() && State() == EMPTY
    {
      sequence := 0;
      bucket := map[];
    }

    /** Same effect as the in-memory table until the identifiers run out; then an error and a rollback. */
    method AddRule(rule: Rule) returns (res: Result<RouteID>)
      requires Valid()
      modifies this
      ensures Valid()
      ensures res.Ok? <==> old(sequence) < UINT32 - 1
      ensures res.Ok? ==> res.value == old(State()).NextID() && State() == old(State()).Add(rule)
      ensures res.Err? ==> State() == old(State())
    {
      hide BinaryID, KeyID, Decoded;
      var nextID := sequence + 1;
      if nextID > UINT32 - 1 {
        return Err("no available routeIDs");
      }
      PutDecoded(bucket, nextID, rule);
      sequence := nextID;
      bucket := bucket[BinaryID(nextID) := rule];
      return Ok(nextID);
    }

    method SetRule(id: RouteID, rule: Rule)
      requires Valid()
      modifies this
      ensures Valid() && State() == old(State()).Set(id, rule)
    {
      hide BinaryID, KeyID, Decoded;
      PutDecoded(bucket, id, rule);
      bucket := bucket[BinaryID(id) := rule];
    }

    method Rule(id: RouteID) returns (res: Result<Rule>)
      requires Valid()
      ensures res.Ok? <==> id in State().rules
      ensures res.Ok? ==> res.value == State().rules[id]
    {
      hide BinaryID, KeyID, Decoded;
      if BinaryID(id) in bucket {
        return Ok(bucket[BinaryID(id)]);
      }
      return Err("rule does not exist");
    }

    method DeleteRules(ids: seq<RouteID>)
      requires Valid()
      modifies this
      ensures Valid() && State() == old(State()).Delete(ids)
    {
      hide BinaryID, KeyID, Decoded;
      for i := 0 to |ids|
        invariant Valid() && State() == old(State()).Delete(ids[..i])
      {
        RemoveDecoded(bucket, ids[i]);
        bucket := bucket - {BinaryID(ids[i])};
        DeleteOneMore(old(State()), ids, i);
      }
      assert ids[..|ids|] == ids;
    }
  }
}
