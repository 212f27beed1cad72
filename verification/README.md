# Skywire visor and setup node: a verified model

This project models the core of the Skywire node software (`github.com/SkycoinProject/skywire-mainnet`, written in Go)
in Dafny and proves what its parts promise one another: that a route compiled by the setup node really carries packets
from one app to another, that setups running at the same time do not disturb each other, that the expiring routing table
hides its collector, that requests get their own answers, and that transports, ports, sessions, framings, handshakes and
logs keep their books. `dafny verify dfyconfig.toml` checks everything.

## How it is organised

| file | part of the system |
|---|---|
| `Base`, `Bytes` | machine-width integers, keys, addresses, loops; big-endian integers in buffers |
| `RuleCodec` | the 54-byte routing rule, its accessors, setters and summaries |
| `RoutingTable`, `ManagedTable` | the table in memory and on a bucket; keep-alive timeouts and the collector |
| `IdReservoir` | reservation of route IDs and the compiler from routes to rule lists |
| `RouteManager` | what a visor does with the setup node's requests |
| `Delivery` | packet handling as an operational semantics, the correctness of the compiler against it, and delivery over tables that time out |
| `SetupRun` | many loop creations at once, as a state machine over shared visors |
| `SetupProgress` | no loop creation is ever stuck: from every reachable state it can be completed |
| `SetupFailure` | what makes a loop creation fail, and that a failure is final |
| `SetupRedial` | what two creations of the same loop do to each other's rules |
| `Ports`, `Addressing` | ports, loops and app teardown; which key a loop's connection is kept under |
| `AppProtocol` | the request protocol between app and visor, two ends and two streams |
| `AppLateSends` | exactly when a Send may take an identifier |
| `ManagedTransport` | the life of a transport over all interleavings of its goroutines |
| `Framing` | the three length-prefixed framings on a stream, and the byte counters |
| `Settlement` | transport entries and the signing handshake |
| `Sessions` | hypervisor accounts and logins against their history |
| `Porter` | the cyclic search for an ephemeral port |
| `LogStore` | app logs under formatted times, and the two ways of reading them |

Code that changes state is a class or a method with its loops, proved against a function of the old state; the theorems
are about those functions. Concurrency is a step machine: one critical section, one message or one network operation is
one step, and a run is any sequence of enabled steps. Clock readings, random identifiers, replies of other machines, the
order in which a Go map is visited, and the outcome of network operations are parameters or free choices. The steps of
a setup run apply the same table functions that the methods of `RoutingTable` and `RouteManager` are proved against.

## Assumptions

- Setup runs start with empty tables. A loop creation starts with two chained, non-empty routes that join its ends. No
  table allocates 2^32 - 1 identifiers during the run, nothing expires or is deleted during it, and a success reply is
  sent only for a list set in full. Whether the router's own callback accepts a confirmation is a free choice.
- Hop transports exist and lead where the route says. A payload has at most 65535 bytes; above that `MakePacket` panics.
- Streams are FIFO and lossless.
- JSON and gob are injective, signatures are ideal, and a hash is collision-free on the two inputs compared.
- Handlers are atomic, the clock does not go back, and session identifiers are new at every login where a theorem says by which login a session was opened.

## Where the code does not do what one expects

Each of these is a theorem with its exact condition or a concrete run.

- `CloseLoop` sends a loop whose local address has no public key (app/app.go:153-183), so the notice the peer gets never
  names the peer's connection or its App rule: `Addressing.CloseNoticeMatchesIff`.
- The "loop is already created" check of an app (app/app.go:279-304) looks up a key that is never stored:
  `Addressing.App.ConfirmLoop`.
- The in-memory table's guard against running out of identifiers tests a variable that is still zero, so the counter
  wraps over bound rules: `RoutingTable.AddRuleWraps`. The bucket-backed table has a working guard.
- A keep-alive made longer after a rule has timed out revives the rule only if the collector has not run:
  `ManagedTable.LateExtensionIsVisible`.
- When two App rules match a loop, which one `confirmLoop` rewrites depends on the map order:
  `RouteManager.OrderIrrelevantIff`.
- `Protocol.Close` empties the channel list before it closes the stream; a `Send` in between can get another request's
  answer, exactly when something is still on the way under the identifier it takes: `AppLateSends.SendSafeIff`,
  `AppLateSends.SendAfterCloseMiscorrelates`.
- When a loop is dialled again, the confirmation of one creation may rewrite the App rule of the other:
  `SetupRedial.RedialRewrites`. Packets are delivered all the same: `SetupRun.ConfirmedLoopsDeliver`.
- A read that fails late closes the connection that has replaced the one it read from:
  `ManagedTransport.LateClearIff` says exactly when.
- Closing one loop on a dynamic port unbinds the port with every other loop on it: `Ports.Router.DestroyLoop`.
- Setup and app messages longer than their 16-bit length are written cut and put the stream out of step:
  `Framing.Format.UnlayLay`, `Framing.AppDataLimit`.
- A transport between a visor and itself leaves the second signature slot empty: `Settlement.HonestRun`.
- Log keys drop the zeros at the end of the fraction, so in UTC byte order is not time order and `LogsSince` can miss
  later lines, although its documentation promises the logs since a time: `LogStore.KeyOrderIff`,
  `LogStore.HalfSecondIsLost`.
- An ephemeral port is granted but not recorded, so an explicit `Reserve` of it succeeds: `Porter.Porter.ReserveEphemeral`.

## Model

| member | source | states |
|---|---|---|
| `SetupRun.SetRulesStay` | pkg/router/route_manager.go:227-246 | Non-interference: in every interleaving of any number of loop creations, same ends included, with failures at any point, a rule set for one loop is bound in every later state: a forwarding rule exactly, an App rule up to its route ID |
| `SetupRun.SetRulesStayExactly` | pkg/router/route_manager.go:227-246 | While no other creation joins the same two, different, addresses, the App rules too stay exactly as they were set |
| `SetupRun.ConfirmedAfterInstalled` | pkg/setup/node.go:163-222 | Ordering: once either end has carried out its confirmation, every visor of both routes holds its whole rule list; the initiator is confirmed only after the responder; after one refused list neither end is confirmed |
| `SetupRun.ConfirmedLoopsDeliver` | pkg/setup/node.go:145-223 | From the moment the responder is asked to confirm, and in every later state of the run, packets travel both routes of the loop to their ends, whatever other loops are being set up |
| `SetupRun.StepInv` | pkg/setup/node.go:145-243 | Every step of every attempt keeps the joint invariant of tables, reservations, rule lists and confirmations |
| `SetupRun.RunInv` | pkg/setup/node.go:145-243 | The invariant holds in every state of every run |
| `SetupRun.WriteBackRebinds` | pkg/router/route_manager.go:263-311 | A confirmation changes the route ID of one App rule that matches its loop to its own first identifier, and no other field, rule, counter or table |
| `SetupRun.StaysNamed` | pkg/router/route_manager.go:305-308 | Over every step each App rule names the first identifier of a creation that joins the ends it is for |
| `SetupRun.MatchIsSameLoop` | pkg/router/route_manager.go:271-290 | A rule of a table that matches an end of a loop was set by a creation that joins the same two addresses |
| `SetupRedial.RedialRewrites` | pkg/router/route_manager.go:263-311 | For every loop: a run in which it is created, dialled again, and the second confirmation at the far end rewrites the route ID of the first, finished, creation |
| `SetupRedial.OtherRewritten` | pkg/router/route_manager.go:263-311 | In any reachable state a confirmation that has not read yet may find the App rule of another creation for the same loop; two more steps rewrite it |
| `SetupRedial.FirstsApart` | pkg/setup/idreservoir.go:113-161 | Two creations never have the same first identifier at a visor |
| `SetupRun.KeysApart` | pkg/router/route_manager.go:227-246 | Rules of different attempts, or of different positions in one list, never share a key at a visor |
| `SetupRun.AppRulesAtEnds` | pkg/setup/idreservoir.go:126-131 | The only App rules compiled are the two at the ends, each naming the other end and its own first identifier |
| `SetupRun.KeysAreOwn` | pkg/setup/idreservoir.go:113-161 | The keys of a visor's compiled rules are identifiers that visor gave to this attempt, each used once |
| `SetupRun.StepIdsApart` | pkg/router/route_manager.go:322-338 | Over every step, identifiers given are bound and never given twice, across all attempts |
| `SetupRun.StepAccounted` | pkg/router/route_manager.go:227-246 | Nothing else gets into a table: each binding is a placeholder or was set by some attempt under the rule's own identifier |
| `SetupProgress.CanComplete` | pkg/setup/node.go:145-223 | Every loop creation that has not failed can still be completed: each run, whatever the other attempts did in it, extends to one at whose end the loop is created, provided no visor is needed more than 255 times and the tables have identifiers left |
| `SetupProgress.NextStep` | pkg/setup/node.go:145-223 | In every reachable state an unfailed creation has a step of its own that brings it nearer to its end: the compiler does not run out, no confirmation meets an unknown loop, and the identifier it is told is bound to a forwarding rule |
| `SetupProgress.FirstIsBound` | pkg/router/route_manager.go:292-300 | The lookup a confirmation makes with the identifier it is told succeeds and passes the type check |
| `SetupProgress.CanReach` | pkg/setup/node.go:145-223 | The same up to any phase: the attempt gets there, no other attempt moves, and the tables give no more identifiers than were missing |
| `SetupProgress.EndHasAppRule` | pkg/router/route_manager.go:271-290 | The rule a confirmation looks for is in the list of the visor that is asked to confirm, and names its own first identifier |
| `SetupProgress.EndHasFirstRule` | pkg/setup/idreservoir.go:140-161 | The first identifier of the route that leaves an end is the key of a forwarding rule in that end's list |
| `SetupProgress.RunWithinAsked` | pkg/setup/protocol.go:116-129 | In every run no visor gives more identifiers than it was asked for |
| `SetupFailure.AbortsIff` | pkg/setup/node.go:145-243 | A step ends a creation without a loop exactly when it is given up, when a visor refused its list, or when a visor is needed more than 255 times |
| `SetupFailure.AbortedForGood` | pkg/setup/node.go:145-223 | A creation that has failed stays failed, and neither end is asked any more to confirm it |
| `SetupFailure.RefusalIsFinal` | pkg/setup/node.go:163-190 | After one refused list, in every later state of the run, neither end is asked to confirm the loop and it is never created |
| `Delivery.CompiledLoopDelivers` | pkg/setup/idreservoir.go:113-161 | The compiler is correct: with complete, distinct reservations and no wrapped counter, installing what it emits over any tables makes the loop deliver both ways |
| `Delivery.GenerateDelivers` | pkg/router/router.go:135-145 | With the compiled rules in place a packet entering at the first identifier crosses exactly the route's transports in order, arrives after as many forwardings as hops with its payload unchanged, and the App rule names the right port and remote address; both directions, visors may be revisited |
| `Delivery.WalkDelivers` | pkg/router/router.go:210-220 | The forwarding rules of a chained route take a packet hop by hop to its end |
| `Delivery.InstalledLoopDelivers` | pkg/setup/idreservoir.go:113-161 | A loop from its reservation to its traffic: identifiers reserved at some time, the compiled lists set over whatever the managed tables hold, and each visor running as it will from then on, with other loops' packets, confirmations, allocations, writes, deletions and collections. A packet of the loop, either way, is delivered exactly when each of its lookups comes within the loop's keep-alive of the one before it, or of the reservation |
| `Delivery.StreamDelivers` | pkg/router/managed_routing_table.go:45-61 | While the traffic leaves none of the loop's rules unused for longer than the keep-alive, every packet of the stream is delivered, however long the stream and whatever happens in between |
| `Delivery.DeliversWhileAlive` | pkg/router/route_manager.go:177-195 | With keep-alives: in any histories of the visors' tables, a packet that rules without keep-alives would deliver is delivered exactly when each of its lookups is in time |
| `Delivery.AliveTravels` | pkg/router/managed_routing_table.go:45-61 | A packet travels as if nothing ever timed out exactly when every lookup on its way comes within the rule's keep-alive of the last renewal of that rule, by this packet's predecessors or by the reservation; otherwise it is dropped |
| `Delivery.HandlePacketIff` | pkg/router/router.go:135-145 | From what the table holds and which transports exist: exactly which packets are sent on, over which transport and under which identifier; which are consumed, on which port and loop; and which fail, an unknown identifier and a payload of 2^16 bytes among them |
| `Delivery.GenerateVisits` | pkg/router/router.go:210-220 | The packets of a loop look up no rules but those compiled for it |
| `Delivery.FirstHop` | pkg/setup/idreservoir.go:148-159 | The rule compiled for a hop forwards over that hop's transport under the identifier the next visor's rule is keyed by |
| `IdReservoir.ExactAccounting` | pkg/setup/idreservoir.go:68-79 | With complete replies and no wrapped counter, compilation never runs out, leaves the reservoir empty, and each visor's rules are keyed by exactly the identifiers it gave, each once |
| `IdReservoir.GenerateSucceeds` | pkg/setup/idreservoir.go:113-161 | Compilation succeeds exactly when every visor gave at least as many identifiers as the routes take from it |
| `IdReservoir.ReservationSuffices` | pkg/setup/node.go:225-243 | After a complete reservation compilation succeeds exactly when no visor is needed more than 255 times |
| `IdReservoir.CountsSumToTotal` | pkg/setup/idreservoir.go:22-41 | The uint8 counters add up to the announced total exactly when no visor is needed more than 255 times |
| `IdReservoir.MaxHopsNeverWrap` | pkg/router/router.go:31-32 | Two routes within the 50-hop limit need at most 102 identifiers of one visor |
| `IdReservoir.CountAllCounted` | pkg/setup/idreservoir.go:22-41 | Counting one by one yields each visor's number of uses modulo 256 |
| `IdReservoir.NewIDReservoir` | pkg/setup/idreservoir.go:22-41 | The two nested counting loops: the returned total is the number of identifiers the routes take, the counters are each visor's uses modulo 256, empty routes are skipped |
| `IdReservoir.IDReservoir.ReserveIDs` | pkg/setup/idreservoir.go:43-66 | In whatever order the visors reply: success exactly when every visor replied with identifiers, and then the reservoir holds exactly those |
| `IdReservoir.IDReservoir.PopID` | pkg/setup/idreservoir.go:68-79 | Takes the first identifier of that visor and leaves every other one; none when the visor has none left |
| `IdReservoir.SaveForwardRules` | pkg/setup/idreservoir.go:140-161 | The loop over the hops refines the recursive route walk: same rules, keep-alive included, same remaining identifiers, same first and last identifier, fails on the same inputs, and on failure leaves exactly what was written and taken up to it; what the walk's rules are is the subject of CompiledKeepAlive, FirstHop and WalkConserves |
| `IdReservoir.GenerateRules` | pkg/setup/idreservoir.go:113-132 | Refines the compiler function: same rule lists, reservoir and first identifiers, fails on the same inputs; what the lists are is the subject of CompiledKeepAlive, GenerateDelivers and GenerateConserves |
| `IdReservoir.WalkConserves` | pkg/setup/idreservoir.go:140-161 | Along any chained route, revisits included, the identifiers of each visor are conserved between reservoir, written rules and the one in hand |
| `IdReservoir.GenerateConserves` | pkg/setup/idreservoir.go:113-161 | What a visor gave is, as a multiset, what is left in the reservoir together with the keys of its rules |
| `IdReservoir.GenerateTakes` | pkg/setup/idreservoir.go:113-161 | The reservoir shrinks by exactly the number of times the routes use the visor |
| `IdReservoir.CompiledKeepAlive` | pkg/setup/idreservoir.go:113-161 | Every rule compiled for a loop, forwarding or App, at every visor, carries the loop's keep-alive; a negative one becomes 0 |
| `RouteManager.RouteManager.OccupyRouteID` | pkg/router/route_manager.go:322-338 | Gives the n identifiers after the counter, modulo 2^32, and binds each to a placeholder |
| `RouteManager.PlaceholdersAreFresh` | pkg/router/route_manager.go:322-338 | Before the counter wraps, reserved identifiers were unbound, every earlier rule stays, and all keys stay at most the counter |
| `RouteManager.CounterAfter` | pkg/router/route_manager.go:322-338 | n reservations advance the counter by n modulo 2^32 |
| `RouteManager.RouteManager.SetRoutingRules` | pkg/router/route_manager.go:227-246 | Writes the list in order, each rule under its own request identifier |
| `RouteManager.InstallAllHolds` | pkg/router/route_manager.go:227-246 | With distinct identifiers every rule of the list ends up bound as listed, and every other key keeps its rule |
| `RouteManager.ReservedActive` | pkg/router/route_manager.go:322-338 | Every reserved identifier is active from the moment of the reservation, around the wrap of the counter too |
| `RouteManager.InstalledAnsweredIff` | pkg/router/route_manager.go:227-246 | A rule of an installed list is answered exactly while its identifier's last activity is no longer ago than the rule's own keep-alive: setting a rule renews nothing |
| `RouteManager.ReservedAnsweredIff` | pkg/router/route_manager.go:227-246 | Identifiers reserved at one time and set afterwards are answered exactly until that time plus the keep-alive of the rule set |
| `RouteManager.ReservedLifetime` | pkg/router/managed_routing_table.go:30-61 | The whole life of an identifier, with any other traffic and collections around it: reserved, set within the placeholder's keep-alive, and then answered exactly as long as no lookup comes later than the keep-alive after the reservation or the lookup before |
| `RouteManager.RouteManager.Visit` | pkg/routing/routing_table.go:84-94 | A visiting order lists exactly the bound identifiers, in any order |
| `RouteManager.RouteManager.FindApp` | pkg/router/route_manager.go:271-285 | The range closure finds the first rule, in the visiting order, with the loop's remote key, remote port and local port |
| `RouteManager.FirstMatchFound` | pkg/router/route_manager.go:271-285 | What is found matches; nothing is found exactly when nothing matches |
| `RouteManager.RouteManager.ConfirmLoop` | pkg/router/route_manager.go:263-311 | Exactly which confirmations succeed, and the whole new state in every case, error paths included |
| `RouteManager.OrderIrrelevantIff` | pkg/router/route_manager.go:263-311 | The order in which the table is visited makes no difference exactly when one rule matches, or every matching rule names the identifier already |
| `RouteManager.RebindChangesOneField` | pkg/router/route_manager.go:305-308 | A confirmation changes at most one App rule's route ID, and nothing at all exactly when it is there already |
| `RouteManager.RouteManager.RemoveLoopRule` | pkg/router/route_manager.go:197-225 | Deletes the first matching rule and nothing else |
| `ManagedTable.CollectorInvisibleIff` | pkg/router/managed_routing_table.go:30-100 | Placing collections anywhere in a run changes no reply exactly when the run revives no rule that has timed out |
| `ManagedTable.CollectorInvisibleWithFixedKeepAlive` | pkg/router/managed_routing_table.go:30-100 | With one keep-alive per identifier and a clock that does not go back, the collector is invisible to every lookup and allocation |
| `ManagedTable.Simulation` | pkg/router/managed_routing_table.go:30-100 | A collected table answers every operation as the uncollected one does, over whole runs |
| `ManagedTable.SimulationStep` | pkg/router/managed_routing_table.go:30-62 | One operation keeps the simulation between the two tables and gets the same reply from both |
| `ManagedTable.RevivalOrigin` | pkg/router/managed_routing_table.go:45-62 | A run that revives a rule has an operation at which a collection would have removed what a later lookup finds |
| `ManagedTable.LateExtensionIsVisible` | pkg/routing/routing_table.go:66-72 | A longer keep-alive set after a timeout revives the rule only if no collection came between: a concrete run |
| `ManagedTable.ManagedRoutingTable.AddRule` | pkg/router/managed_routing_table.go:30-43 | Allocates, and marks the identifier active now |
| `ManagedTable.AnsweredIff` | pkg/router/managed_routing_table.go:45-61 | Over whole runs of any other operations and collections: a lookup is answered exactly when each lookup of the identifier came within the keep-alive of the renewal before it, and so does this one; the activity is then the time of the latest renewal |
| `ManagedTable.LookupsAnsweredIff` | pkg/router/managed_routing_table.go:45-61 | No lookup of a run fails exactly when each comes within the keep-alive of the one before, however long the run |
| `ManagedTable.InTimeIff` | pkg/router/managed_routing_table.go:45-61 | A lookup at any position of a run is answered exactly when it and all before it are in time |
| `ManagedTable.KeptUpByPosition` | pkg/router/managed_routing_table.go:45-61 | In time means, position by position: within the keep-alive of the last renewal before it |
| `ManagedTable.AddedAnsweredIff` | pkg/router/managed_routing_table.go:30-43 | A rule just allocated is answered exactly until its keep-alive has passed |
| `ManagedTable.SetAnsweredIff` | pkg/routing/routing_table.go:66-72 | Setting a rule renews nothing: it has the time its identifier's activity leaves |
| `ManagedTable.DeletedThenSetAnsweredIff` | pkg/routing/routing_table.go:96-104 | A deleted rule is not answered; one set again in its place has the time that was left |
| `ManagedTable.ManagedRoutingTable.Rule` | pkg/router/managed_routing_table.go:45-61 | Answers exactly the bound rules that are not timed out; the new state is that of Look, whose renewal AnsweredIff and LookupsAnsweredIff are about |
| `ManagedTable.ManagedRoutingTable.Cleanup` | pkg/router/managed_routing_table.go:63-100 | In any visiting order, with a clock reading of its own for each rule, removes exactly the rules timed out at their reading, and their activity |
| `RoutingTable.AddRuleKeepsRules` | pkg/routing/routing_table.go:52-64 | An allocation keeps every bound rule exactly when the next identifier is not bound to a different rule |
| `RoutingTable.AddRuleFresh` | pkg/routing/routing_table.go:52-64 | Before the wrap an allocation is fresh and keeps every key between 1 and the counter |
| `RoutingTable.AddRuleWraps` | pkg/routing/routing_table.go:53-55 | The guard tests the result variable, which is still zero: at the bound identifier 0 is handed out again over a bound rule |
| `RoutingTable.GivenInOrder` | pkg/routing/routing_table.go:52-104 | Over every run of allocations, writes and deletions the identifiers handed out are the ones after the counter, in order, modulo 2^32: writes and deletions leave the counter alone |
| `RoutingTable.GivenDistinctIff` | pkg/routing/routing_table.go:52-104 | Over such a run no identifier is handed out twice exactly as long as at most 2^32 are |
| `RoutingTable.RunAllocatesFresh` | pkg/routing/routing_table.go:52-104 | Before the counter wraps no allocation of a run overwrites a rule, when rules are set under identifiers given before |
| `RoutingTable.InMemoryTable.AddRule` | pkg/routing/routing_table.go:52-64 | Advances the counter modulo 2^32 and binds the rule there; never fails |
| `RoutingTable.InMemoryTable.SetRule` | pkg/routing/routing_table.go:66-72 | Replaces one binding |
| `RoutingTable.InMemoryTable.Rule` | pkg/routing/routing_table.go:74-82 | Succeeds exactly on bound identifiers, with their rule |
| `RoutingTable.InMemoryTable.DeleteRules` | pkg/routing/routing_table.go:96-104 | Removes exactly the listed identifiers and leaves the counter alone |
| `RoutingTable.BoltTable.AddRule` | pkg/routing/boltdb_routing_table.go:43-61 | The same effect as in memory while identifiers last; then an error and no change |
| `RoutingTable.BoltTable.SetRule` | pkg/routing/boltdb_routing_table.go:63-70 | The same effect as in memory, through the four-byte key |
| `RoutingTable.BoltTable.Rule` | pkg/routing/boltdb_routing_table.go:72-84 | The same answers as in memory |
| `RoutingTable.BoltTable.DeleteRules` | pkg/routing/boltdb_routing_table.go:122-136 | The same effect as in memory |
| `RoutingTable.BinaryID` | pkg/routing/boltdb_routing_table.go:161-165 | The big-endian key reads back as the identifier |
| `RoutingTable.KeyID` | pkg/routing/boltdb_routing_table.go:86-102 | Every four-byte key is the key of exactly one identifier |
| `RoutingTable.PutDecoded` | pkg/routing/boltdb_routing_table.go:63-70 | A put under one key changes the rule of one identifier |
| `RoutingTable.RemoveDecoded` | pkg/routing/boltdb_routing_table.go:122-136 | A delete under one key removes the rule of one identifier |
| `RuleCodec.AppAccessors` | pkg/routing/rule.go:46-110 | Every accessor of a built App rule returns what went in |
| `RuleCodec.ForwardAccessors` | pkg/routing/rule.go:46-110 | Every accessor of a built forwarding rule returns what went in |
| `RuleCodec.EncodeInjective` | pkg/routing/rule.go:193-228 | 54 bytes denote one rule only |
| `RuleCodec.AppSlices` | pkg/routing/rule.go:193-211 | The bytes of an App rule by index: keep-alive 0-7, type 8, route ID 9-12, key 13-45, remote port 46-47, local port 48-49, request ID 50-53 |
| `RuleCodec.ForwardSlices` | pkg/routing/rule.go:213-228 | The bytes of a forwarding rule by index: keep-alive 0-7, type 8, next ID 9-12, transport 13-28, zeros 29-49, request ID 50-53 |
| `RuleCodec.KeepAliveWraps` | pkg/routing/rule.go:46-49 | Whatever the eight bytes, the keep-alive read is the int64 that agrees with them modulo 2^64 |
| `RuleCodec.AppRule` | pkg/routing/rule.go:193-211 | Filling header and tail in place yields the rule's encoding; a negative keep-alive becomes 0 |
| `RuleCodec.ForwardRule` | pkg/routing/rule.go:213-228 | Filling header and tail in place yields the rule's encoding; a negative keep-alive becomes 0 |
| `RuleCodec.SetRouteID` | pkg/routing/rule.go:63-65 | In place: the bytes then denote the same rule with that one field replaced |
| `RuleCodec.SetRequestRouteID` | pkg/routing/rule.go:112-114 | In place: the bytes then denote the same rule with that one field replaced |
| `RuleCodec.SummaryThenToRule` | pkg/routing/rule.go:157-191 | A built rule survives the trip through its summary |
| `RuleCodec.ToRuleThenSummary` | pkg/routing/rule.go:157-191 | A summary survives the trip through the rule exactly when it is accepted and its keep-alive is not negative |
| `Bytes.PutUint` | pkg/routing/rule.go:193-228 | Writes an integer big-endian into a buffer and leaves the other bytes |
| `Bytes.ValueOfBE` | pkg/routing/rule.go:57-59 | Reading back a big-endian integer that fits gives it |
| `Bytes.BEOfValue` | pkg/routing/boltdb_routing_table.go:161-165 | Writing back the number read from bytes gives the bytes |
| `AppLateSends.SendSafeIff` | pkg/app/protocol.go:62-140 | Exactly when a Send is safe: after a run of safe Sends, open or closing, every continuation without another Send is correlated if and only if no draft, request, handler or response carries the identifier it takes |
| `AppLateSends.UnsafeSendIsMisled` | pkg/app/protocol.go:134-140 | In any state of any run, from a Send that takes an identifier under which something is on the way, a continuation leads to that Send returning an answer although none was computed for it |
| `AppLateSends.SendAfterCloseMiscorrelates` | pkg/app/protocol.go:134-140 | Such a Send is possible between the two halves of Close, for all payloads |
| `AppLateSends.ResponseMisleads` | pkg/app/protocol.go:86-110 | Reading on delivers a response on the way to whoever waits on its identifier, behind any number of other frames |
| `AppLateSends.RequestMisleads` | pkg/app/protocol.go:86-131 | A request on the way reaches a handler, behind any number of other frames, and its answer whoever waits on the identifier |
| `AppProtocol.SendGetsItsOwnAnswer` | pkg/app/protocol.go:62-131 | Over all interleavings of both ends, with taking an identifier and writing the frame apart: in every run of safe Sends every answer a Send returns was computed by the peer's handler from that Send's own payload |
| `AppProtocol.OpenSendsAreSafe` | pkg/app/protocol.go:62-83 | A Send on an end that has not begun to close is always safe |
| `AppProtocol.OneInFlight` | pkg/app/protocol.go:62-131 | For each end and identifier, drafts, requests, running handlers and responses on the way total at most one, and on an open end only while a Send waits on it |
| `AppProtocol.RoomBelow255` | pkg/app/protocol.go:180-193 | In every run a free identifier exists exactly while fewer than 255 requests are pending |
| `AppProtocol.StepMoves` | pkg/app/protocol.go:62-140 | Every step of either end is, in each direction, one move of what is on the way, or none |
| `AppProtocol.StepGood` | pkg/app/protocol.go:62-140 | Every step that takes no unsafe identifier keeps the correlation invariant in both directions |
| `AppProtocol.RunGood` | pkg/app/protocol.go:62-140 | The correlation invariant holds in every state of every run of safe Sends |
| `AppProtocol.RunKnown` | pkg/app/protocol.go:62-140 | What is on the way, computed or returned belongs to a Send that has begun, in every run |
| `AppProtocol.EverySendAccounted` | pkg/app/protocol.go:62-140 | In every run, safe or not, each Send that has begun either has returned or is the one that waits on its identifier, never both: a write that fails, a response that is dropped or a close in between forgets none |
| `AppProtocol.CloseEndsAll` | pkg/app/protocol.go:204-217 | CloseAll ends every Send that still waits with EOF and leaves what the others returned |
| `AppProtocol.SendReturnsOnce` | pkg/app/protocol.go:62-83 | What a Send returned stays what it returned |
| `AppProtocol.StreamsKeepOrder` | pkg/app/protocol.go:86-172 | The frames an end has written and the other has not read are the last ones written, in order: frames are read once, in the order of writing |
| `AppProtocol.FirstFreeIsLowest` | pkg/app/protocol.go:184-190 | The identifier taken is the lowest free one up to 254; none when all are taken |
| `AppProtocol.ChanList.Add` | pkg/app/protocol.go:180-193 | The search loop takes the first free identifier, or changes nothing |
| `AppProtocol.ChanList.Pull` | pkg/app/protocol.go:195-202 | Returns and removes the waiting channel |
| `AppProtocol.ChanList.CloseAll` | pkg/app/protocol.go:204-217 | Ends every waiting request and empties the list |
| `ManagedTransport.NeverPanics` | pkg/transport/managed_transport.go:92-160 | Over all interleavings: each channel is closed at most once, nothing is sent on a closed one, no write meets a nil or closed connection |
| `ManagedTransport.SettlingStores` | pkg/transport/managed_transport.go:192-279 | In every reachable state, for Accept, Dial, the ticker and the dial inside a write: a connection that settles becomes the current one and stays open exactly when the slot is empty, and is closed exactly when it is full; a read loop that waits can then go on; only an accepted connection can find the slot full |
| `ManagedTransport.StepEffects` | pkg/transport/managed_transport.go:92-318 | Exactly which steps settle a connection, store one, close one and empty the slot: one that settles on a full slot or is accepted after Close is closed; a failed write, the cleanup and a failed read close the current one; no other step closes anything |
| `ManagedTransport.CanConnect` | pkg/transport/managed_transport.go:132-244 | From every reachable open state without a connection and with the mutex free, accepting, dialling, the ticker and a write each get the transport an open connection |
| `ManagedTransport.WaitingReaderReads` | pkg/transport/managed_transport.go:246-279 | A read loop that waits while a connection is in the slot consumes the wake-up and reads from it |
| `ManagedTransport.ReadsOn` | pkg/transport/managed_transport.go:107-130 | After a packet the read loop reads on, from the connection that is then current |
| `ManagedTransport.WritesOnCurrent` | pkg/transport/managed_transport.go:295-318 | A write on an open transport goes to the current connection; exactly a failed one closes it |
| `ManagedTransport.WritesOnDialled` | pkg/transport/managed_transport.go:295-318 | A write without a connection dials one and then writes on it |
| `ManagedTransport.CloseIsFinal` | pkg/transport/managed_transport.go:163-229 | After Close the transport never serves again: dials and writes do nothing, and an accepted connection is closed |
| `ManagedTransport.ChannelsClosedBy` | pkg/transport/managed_transport.go:92-106 | The done signal is closed by the first Close and the wake-up channel by the cleanup, and by nothing else |
| `ManagedTransport.CanShutDown` | pkg/transport/managed_transport.go:77-190 | From every reachable state there is a way for the transport to be cleaned up, its read loop to end and every settled connection to be closed: whoever holds the mutex can let go of it |
| `ManagedTransport.SettledIsCurrentOrClosed` | pkg/transport/managed_transport.go:192-293 | In every reachable state a connection that completed settlement is the current one exactly when it is not closed: none leaks; SettlingStores says which of the two it is |
| `ManagedTransport.EmptyAfterCleanup` | pkg/transport/managed_transport.go:92-106 | After the serve loop's cleanup the slot stays empty for good and every settled connection is closed |
| `ManagedTransport.NoLostWakeup` | pkg/transport/managed_transport.go:255-279 | A read loop that waits while a connection is in the slot, or after done, can go on |
| `ManagedTransport.StepInv` | pkg/transport/managed_transport.go:92-318 | Every step keeps the invariant of slot, channels, lock and read loop |
| `ManagedTransport.RunInv` | pkg/transport/managed_transport.go:92-318 | The invariant holds in every state of every run |
| `ManagedTransport.LateClearIff` | pkg/transport/managed_transport.go:107-130 | A failed read of one connection closes another exactly when the slot is full when the failure is dealt with and was empty at some time since the read began |
| `ManagedTransport.ReadGoesOn` | pkg/transport/managed_transport.go:321-340 | While a read goes on its connection is the current one as long as the slot has not been empty, and closed once it has |
| `ManagedTransport.LateReadClosesSuccessor` | pkg/transport/managed_transport.go:107-130 | Such runs exist |
| `ManagedTransport.ConnSlot.SetIfConnNil` | pkg/transport/managed_transport.go:255-279 | An empty slot takes the connection and wakes the reader; a full one closes it and fails |
| `ManagedTransport.ConnSlot.ClearConn` | pkg/transport/managed_transport.go:281-293 | Closes and forgets the current connection, if any |
| `ManagedTransport.ConnSlot.EndConnection` | pkg/transport/managed_transport.go:92-106 | Closes the wake-up channel and the current connection |
| `Ports.Router.TearDown` | pkg/router/router.go:171-181 | When an app ends: no port stays bound to it, closeLoop runs exactly once for each loop it had whatever the setup node answers, all other apps' ports and loops are unchanged, and of the rules exactly one goes for each of its loops that had any: a loop named by one rule is named by none |
| `Ports.Router.ClosePort` | pkg/router/router.go:172-177 | The outer loop's body: the port is unbound and each of its loops closed once |
| `Ports.LosesOnlyThose` | pkg/router/route_manager.go:197-225 | A rule that is gone named one of the closed loops; a closed loop that one rule named is named by none |
| `Ports.LosesTwice` | pkg/router/route_manager.go:197-225 | Closing some loops and then others takes one rule for each |
| `Ports.Router.CloseLoops` | pkg/router/router.go:172-175 | The inner loop: one closeLoop and one rule less for each address, ports untouched |
| `Ports.Router.CloseLoop` | pkg/router/router.go:356-375 | The loop is destroyed first, with one rule that names it if there is any; success exactly when the setup node could be dialled and agreed |
| `Ports.Router.DestroyLoop` | pkg/router/router.go:395-409 | On a static port the one loop goes, on any other port the whole port with all its loops; of the rules one that names the loop goes, if there is any, and no other |
| `Ports.PortManager.Alloc` | pkg/router/port_list.go:38-50 | The lowest free port from the minimum below 65535; the panic exactly when there is none |
| `Ports.PortManager.Open` | pkg/router/port_manager.go:24-31 | Binds a port exactly when it is free |
| `Ports.PortManager.SetLoop` | pkg/router/port_manager.go:33-41 | Sets one loop entry of a bound port, changes nothing else |
| `Ports.PortManager.GetLoop` | pkg/router/port_manager.go:97-109 | Finds exactly the entries of bound ports |
| `Ports.PortManager.RemoveLoop` | pkg/router/port_manager.go:78-86 | Removes one loop entry of a bound port, changes nothing else |
| `Ports.PortManager.Close` | pkg/router/port_manager.go:65-76 | Unbinds the port and returns each remote address of its loops once |
| `Ports.PortManager.AppPorts` | pkg/router/port_manager.go:55-63 | Returns exactly the ports bound to that connection, each once |
| `Addressing.RemoteLoopAddressing` | pkg/app/app.go:153-183 | App to app over the network: what one app writes on a confirmed loop reaches the app bound to the peer's port, under exactly the key the peer's connection is stored under, both ways |
| `Addressing.LocalLoopAddressing` | pkg/router/router.go:261-275 | App to app on one visor: a dial is agreed exactly when the port is bound; what either app writes goes to the app bound to the other's port at that time under the key its connection is stored under, and is silently dropped when none is |
| `Addressing.RefusedIff` | pkg/router/router.go:222-275 | Exactly which writes of an app are refused, and what an unbound port does: a write to another visor is refused when the port or the loop is unknown, one to an app of the same visor is dropped, a packet from the network is refused |
| `Addressing.EntryActsAsFirstStep` | pkg/router/router.go:242-259 | A write to another visor through the loop entry is what handling a packet with the initial identifier would do |
| `Addressing.DeliversFromApp` | pkg/router/router.go:222-259 | A delivering route delivers what an app writes through the entry made from its initial rule |
| `Addressing.ConfirmLoop` | pkg/router/router.go:338-354 | Sets the entry from the initial forwarding rule exactly when the port is bound, leaves every other port, and makes the loop confirmed in the sense the delivery theorem needs |
| `Addressing.CloseNoticeMatchesIff` | pkg/app/app.go:262-277 | The close notice names the peer's connection, or its App rule, exactly for zero keys: the local public key has been dropped |
| `Addressing.App.Accept` | pkg/app/app.go:153-168 | Stores the connection under the local port without a key and the remote address |
| `Addressing.App.Dial` | pkg/app/app.go:170-184 | Stores the connection under the local port without a key exactly when the visor agreed |
| `Addressing.App.ForwardPacket` | pkg/app/app.go:242-260 | Delivers to the connection stored under the packet's loop, or fails |
| `Addressing.App.CloseConn` | pkg/app/app.go:262-277 | Removes and closes the connection stored under the loop |
| `Addressing.App.ConfirmLoop` | pkg/app/app.go:279-304 | The duplicate check fires exactly for the zero key |
| `Sessions.LoginByHistory` | pkg/hypervisor/user_manager.go:68-94 | After every run, by position in it: a login is answered with a session exactly when its cookie names no accepted session and some request of the run set this password for this user, by creating the account or changing the password, and no later one set another. What a request brings about is read off the requests, not off the store |
| `Sessions.LoginIff` | pkg/hypervisor/user_manager.go:68-94 | Every answer to a login, from the history: a session exactly with the latest password and no accepted session, forbidden exactly with one, a bad request exactly without a body, unauthorized otherwise |
| `Sessions.ChangePasswordIff` | pkg/hypervisor/user_manager.go:108-151 | A password is changed exactly with an accepted session, its user's latest password and a new one of 6 to 64 characters; each refusal is characterised, and the one for users other than the admitted one never happens |
| `Sessions.CreateAccountIff` | pkg/hypervisor/user_manager.go:154-179 | An account is made exactly once, for the admitted name, with a name and a password of the admitted form; each refusal is characterised |
| `Sessions.AuthorizeIff` | pkg/hypervisor/user_manager.go:97-120 | Authorized exactly with an accepted session; a logout is refused exactly without a usable cookie |
| `Sessions.AcceptedByHistory` | pkg/hypervisor/user_manager.go:68-286 | A session is accepted at a time exactly when some login of the run opened it, the time is not past its expiry, and no later request logged it out or changed its user's password |
| `Sessions.AcceptedIff` | pkg/hypervisor/user_manager.go:259-286 | What the store accepts is what the history leaves open and unexpired: deleting expired sessions early or late makes no difference |
| `Sessions.PasswordsByHistory` | pkg/hypervisor/user_manager.go:68-179 | After every run the store has exactly the users the history created, each with the password its history set last |
| `Sessions.RunRefines` | pkg/hypervisor/user_manager.go:68-286 | Over every run the stored users and sessions are those of the history, but for expired sessions |
| `Sessions.StepRefines` | pkg/hypervisor/user_manager.go:68-286 | One request keeps that refinement |
| `Sessions.OpenInByPosition` | pkg/hypervisor/user_manager.go:208-257 | A session is open in the history exactly when a fact opened it and no later fact ended it |
| `Sessions.PasswordInByPosition` | pkg/hypervisor/user_manager.go:123-179 | A user's password in the history is the one a creation or change set and none after it |
| `Sessions.ExpiredIsDeleted` | pkg/hypervisor/user_manager.go:259-286 | A request that presents an expired session deletes that session and no other |
| `Sessions.UserManager.LookUp` | pkg/hypervisor/user_manager.go:259-286 | Finds exactly unexpired sessions of existing users; an expired one is deleted |
| `Sessions.UserManager.DelAllSessionsOfUser` | pkg/hypervisor/user_manager.go:249-257 | Removes exactly the sessions of that user, in any visiting order |
| `Sessions.UserManager.Login` | pkg/hypervisor/user_manager.go:68-94 | Response and new state in every case, as functions that LoginIff and RunRefines prove right against the history: the password included |
| `Sessions.UserManager.Logout` | pkg/hypervisor/user_manager.go:97-105 | Response and new state in every case; an unknown session logs out with success |
| `Sessions.UserManager.Authorize` | pkg/hypervisor/user_manager.go:108-120 | Response and new state in every case |
| `Sessions.UserManager.ChangePassword` | pkg/hypervisor/user_manager.go:123-151 | Response and new state in every case; success ends every session of the user |
| `Sessions.UserManager.CreateAccount` | pkg/hypervisor/user_manager.go:154-179 | Response and new state in every case |
| `Porter.Porter.ReserveEphemeral` | pkg/snet/stcp/porter.go:47-66 | The search ends within one lap with the free port nearest after the cursor; it fails exactly when the context ends before that port is reached; the grant is not recorded |
| `Porter.GrantsDistinctIff` | pkg/snet/stcp/porter.go:47-66 | With F free ports and no other change, successive grants are pairwise distinct exactly as long as there are at most F; F of them are all the free ports |
| `Porter.GrantsSweep` | pkg/snet/stcp/porter.go:47-66 | Up to F grants are the free ports nearest to the starting cursor |
| `Porter.Ring.NextSearched` | pkg/snet/stcp/porter.go:51-56 | One turn with the wrap at 2^16 and the lift to the minimum advances the cyclic distance by one and skips no free port |
| `Porter.Ring.FirstIsUnique` | pkg/snet/stcp/porter.go:47-66 | There is only one nearest free port |
| `Porter.Porter.Reserve` | pkg/snet/stcp/porter.go:34-43 | Succeeds exactly on a free port and records it |
| `Porter.PortFreer.Free` | pkg/snet/stcp/porter.go:68-76 | Releases the port the first time it is called and does nothing after |
| `Framing.Format.StreamRoundTripIff` | pkg/setup/protocol.go:75-105 | A list of frames is read back as written, with nothing left over, exactly when each body is below 2^16 bytes, and not empty for setup messages |
| `Framing.Format.RoundTripIff` | pkg/setup/protocol.go:75-105 | One frame comes back whole and the stream stays in step exactly when the format carries it |
| `Framing.Format.UnlayLay` | pkg/app/protocol.go:142-172 | What a reader makes of any frame: the length is taken modulo 2^16, the rest of a longer body is read as the next frame |
| `Framing.Format.PartialStream` | pkg/transport/managed_transport.go:334-342 | Of a stream of which only a part has arrived, exactly the frames that have arrived whole are read |
| `Framing.Format.LayUnlay` | pkg/transport/managed_transport.go:334-342 | Whatever is read off a stream is what writing that frame puts there |
| `Framing.BytesConserved` | pkg/transport/managed_transport.go:309-347 | However writes and reads interleave on a lossless stream: packets read are the first ones written, counters advance by the payload bytes that passed, and when nothing is under way SentBytes and RecvBytes have advanced equally modulo 2^64 |
| `Framing.PacketAccessors` | pkg/routing/packet.go:32-45 | Size, RouteID and Payload return what MakePacket was given |
| `Framing.AppDataLimit` | pkg/app/protocol.go:142-158 | An app frame comes back exactly for data of at most 65533 bytes: type and identifier count towards the length |
| `Framing.SetupBodyLimit` | pkg/setup/protocol.go:74-105 | A setup message comes back exactly with a body of 1 to 65535 bytes |
| `Framing.PacketBytes` | pkg/routing/packet.go:19-30 | The bytes of a packet by index: payload length in 0 and 1, route ID in 2 to 5, each most significant first, then the payload |
| `Framing.SetupBytes` | pkg/setup/protocol.go:92-105 | The bytes of a setup message by index: type in 0, body length in 1 and 2, then the body |
| `Framing.AppBytes` | pkg/app/protocol.go:142-158 | The bytes of an app frame by index: length of the rest in 0 and 1, type in 2, request ID in 3, then the data |
| `Framing.MakePacket` | pkg/routing/packet.go:19-30 | Builds the 6-byte header in place; refuses exactly payloads over 65535 bytes |
| `Framing.ReadPacket` | pkg/transport/managed_transport.go:334-347 | Takes one whole packet off the stream and counts its payload modulo 2^64; fails when the stream ends first |
| `Framing.WritePacket` | pkg/transport/managed_transport.go:309-317 | Puts one packet on the stream and counts its payload modulo 2^64 |
| `Framing.WriteSetup` | pkg/setup/protocol.go:92-105 | Puts type, 16-bit length and body on the stream |
| `Framing.ReadSetup` | pkg/setup/protocol.go:74-90 | Takes one message off the stream; an empty body is an error that has used up the header |
| `Framing.WriteApp` | pkg/app/protocol.go:142-158 | Puts length, type, identifier and data on the stream |
| `Framing.ReadApp` | pkg/app/protocol.go:160-172 | Takes one frame off the stream |
| `Framing.ReadFrame` | pkg/setup/protocol.go:75-84 | The common reader: header, then as many bytes as it announces; an early end uses the stream up |
| `Framing.LogEntry.AddRecv` | pkg/transport/log.go:25-28 | Adds modulo 2^64 |
| `Framing.LogEntry.AddSent` | pkg/transport/log.go:30-33 | Adds modulo 2^64 |
| `Settlement.Settle` | pkg/transport/handshake.go:83-144 | An honest handshake succeeds and registers the entry both ends expect, public, under the ID that hashes the two sorted keys and the network; it carries both valid signatures, each in its edge's slot, exactly when the two keys differ |
| `Settlement.HonestRun` | pkg/transport/handshake.go:85-138 | The honest initiator's message is always accepted, and countersigning completes it exactly for distinct keys |
| `Settlement.RegisteredEntry` | pkg/transport/handshake.go:115-138 | Whatever message is accepted, the registered entry is the one both ends expect, signed by both in their own slots for distinct keys |
| `Settlement.Respond` | pkg/transport/handshake.go:115-138 | Accepts exactly messages with the expected entry and a valid signature of the remote key in its slot, and registers them countersigned |
| `Settlement.Propose` | pkg/transport/handshake.go:94-101 | The message is the expected entry with the initiator's signature in its own slot |
| `Settlement.Await` | pkg/transport/handshake.go:103-111 | Success exactly on a non-zero answer; the reported status agrees with the error |
| `Settlement.CompareEntries` | pkg/transport/handshake.go:28-42 | No error exactly when the two entries are equal |
| `Settlement.EndsAgree` | pkg/transport/handshake.go:15-26 | Both ends make the same entry, each is on it, each finds the other as remote edge, and their slots differ exactly when the keys do; which connections share an entry is EntryIDIff |
| `Settlement.SortEdgesIff` | pkg/transport/transport.go:30-37 | Two pairs of keys have the same edges exactly when they are the same pair in either order; the less significant comes first |
| `Settlement.TransportIDIff` | pkg/transport/transport.go:16-28 | Without a hash collision, IDs agree exactly for the same pair of keys in either order and the same type |
| `Settlement.EntryIDIff` | pkg/transport/handshake.go:15-22 | Without a hash collision two entries have the same ID exactly for the same pair of keys in either order and the same type, and are then equal |
| `Settlement.EntryOfSorted` | pkg/transport/handshake.go:15-22 | The whole entry, whichever way round the keys are named: the hash of the less significant key, the other key and the type, these edges in this order, the type, and the public flag set |
| `Settlement.RegisteredIDIff` | pkg/transport/handshake.go:115-138 | Whatever messages two responders accepted over two connections, what they register has one ID exactly when the connections join the same two visors over the same network; all registered entries are public |
| `Settlement.NewEntry` | pkg/transport/handshake.go:15-22 | Builds the entry with the ID that MakeTransportID returns for the two keys and the type |
| `Settlement.ToBinaryBytes` | pkg/transport/entry.go:91-98 | The signed bytes by index: ID, the two edges in order, type |
| `Settlement.MakeTransportID` | pkg/transport/transport.go:20-28 | The copies with the moving index fill the buffer with sorted keys and type; the ID is that of the entry made for these keys and this type |
| `Settlement.ToBinaryIff` | pkg/transport/entry.go:91-98 | The signed bytes fix every field of the entry but the public flag |
| `Settlement.SignedEntry.Sign` | pkg/transport/entry.go:118-127 | Puts the signature in the slot of that key and nowhere else; refuses exactly keys that are no edge |
| `Settlement.SignedEntry.Signature` | pkg/transport/entry.go:129-136 | Returns the signature in the slot of that key; none for a key that is no edge |
| `LogStore.BoltAppLogs.LogsSince` | pkg/app/log_store.go:119-147 | By the seek path or by the scan path: exactly the entries with a strictly greater key, in key order |
| `LogStore.KeyOrderIff` | pkg/app/log_store.go:111-115 | Keys of one zone are in time order except, in UTC, for two instants of one second less than one unit of the earlier one's last written digit apart |
| `LogStore.StoredLaterIsReturned` | pkg/app/log_store.go:100-147 | A line stored for a later time is among the logs since an earlier one exactly when the two keys are in time order |
| `LogStore.HalfSecondIsLost` | pkg/app/log_store.go:111-115 | What is stored half a second after a whole second of UTC is not among the logs since that second |
| `LogStore.TrimmedIsTrimmed` | pkg/app/log_store.go:111-111 | The written fraction is the nine digits without the zeros at their end |
| `LogStore.LaterIsSuffix` | pkg/app/log_store.go:141-157 | Behind a key of a sorted bucket come exactly the later entries |
| `LogStore.IterateFromKey` | pkg/app/log_store.go:149-155 | The cursor loop returns the entries behind the cursor |
| `LogStore.IterateFromBeginning` | pkg/app/log_store.go:157-167 | The scan returns exactly the entries with a greater key when the key is absent |
| `LogStore.BoltAppLogs.Store` | pkg/app/log_store.go:101-116 | One put under the formatted time; the bucket stays sorted |
| `LogStore.BoltAppLogs.Write` | pkg/app/log_store.go:68-98 | A line of at least 37 bytes is put under its bytes 1 to 35; a shorter one is refused |
| `LogStore.PutLaws` | pkg/app/log_store.go:112-115 | A put keeps the bucket sorted and changes one key only |
| `LogStore.LaterAll` | pkg/app/log_store.go:119-147 | A text is among the later ones exactly when some entry with a strictly greater key has it |

## Left out

- SetupRun.StepInv: the lookup of the first identifier and the write of a confirmation are one step; no step changes what the lookup reads.
- SetupRun.SetRulesStay: deletions, timeouts and garbage collection are not steps of a setup run; the theorem is about the rules between installation and any later removal. How long an installed loop lives is the subject of Delivery.InstalledLoopDelivers.
- Delivery.InstalledLoopDelivers: no visor deletes or replaces a rule of the loop in its history, but for the route IDs that confirmations write; what a removal does to a loop is in Ports.
- SetupRun.ConfirmedLoopsDeliver: assumes truthful replies; the source also takes a closed pipe for success (pkg/setup/protocol.go:200-202), and its read timeout is not a step.
- IdReservoir.SaveForwardRules: an empty route, on which the source panics, is excluded.
- AppProtocol.StepMoves: a handler's computation and the writing of its response are one step.
- Ports.PortManager.Close: port bindings are values, not shared pointers, so a caller that still holds a binding after `Close` is not modelled.
- Ports.Router.TearDown: no port is allocated or confirmed while an app is being torn down.
- ManagedTransport.SettledIsCurrentOrClosed: a connection dropped before its settlement completes is not closed by the source and is not claimed to be.
- Porter.Porter.ReserveEphemeral: the call that never returns, with no free port and a context that never ends, is the one excluded input.
- Settlement.Settle: a handshake goroutine that finishes after its context has ended, and a failing transport discovery, are not modelled; the source only logs the latter.
- LogStore.KeyOrderIff: compares times written with the same zone suffix; times of one bucket written in different zones are not compared.
- LogStore.BoltAppLogs.Write: the time inside the line is not parsed, as in the source.
- Rules shorter than 54 bytes and the corrupted-rule checks: tables hold rule values, and the codec shows that these and the bytes are the same thing.
- The fetching of routes, its retries and its ten-second limit (pkg/router/router.go:411-431).
- The initial empty loop entry that a dial sets before the loop is confirmed (pkg/router/router.go:277-281).
- Sessions: user information and cookie attributes are left out, and the user store is a map; the salted hash of a password is the password.
- The table statistics of the bucket-backed implementation, and its transaction errors other than the exhausted sequence.
- Fairness, and the transport manager's shutdown; ManagedTransport and SetupProgress show that a way on exists from every reachable state, not that it is taken. Channel safety of the stcp listener.
- Dialing, listeners, HTTP and RPC handlers, command lines, configuration, processes, terminals, retries and metrics.
- The libraries dmsg, bbolt, noise, yamux, socks5 and securecookie, which are not part of this model.
