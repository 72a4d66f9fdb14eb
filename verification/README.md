# YAPR: a verified model of the client-side router

YAPR routes a request to one endpoint of a service on the client side. For keyed ("direct") routing a Redis
table names the owner of every selector and header value. Owners change by compare-and-set, the change is
broadcast to the servers, and every server and every client keeps its own copy of what it believes. The other
strategies choose among a snapshot of a versioned service registry. This project models these parts in Dafny and
proves what they promise, over every run, every table, every interleaving and every message.

| file | models |
|---|---|
| `Base.dfy`, `Text.dfy` | integer widths, splitting and joining text, decimal numbers |
| `Endpoints.dfy` | endpoints, their text form, the migration message |
| `RouteStore.dfy` | the compare-and-set script and its two tables |
| `Serving.dfy` | the services a server registers, and the endpoints it serves for them |
| `RoutingTable.dfy`, `Server.dfy` | a server's routing table, migrations, accepting and rejecting requests |
| `Protocol.dfy` | the whole system as steps, and exactly when a server is right |
| `Agreement.dfy`, `ProtocolLimits.dfy` | orderly runs, after which servers agree with the store, and runs that show why |
| `Recency.dfy`, `LruCache.dfy` | the client's LRU cache, as a sequence and as a linked list in the heap |
| `Direct.dfy`, `Client.dfy`, `EndToEnd.dfy` | the direct strategy, the retry loop, servers and client together |
| `TreeMap.dfy`, `Weighted.dfy`, `HashRing.dfy` | selection by weight, round robin, the consistent-hash ring |
| `Overlap.dfy` | round robin with many callers |
| `Registry.dfy`, `Selector.dfy` | the service registry, selector snapshots and the version protocol |
| `Reporter.dfy` | the in-flight counter and its debounced reports |
| `Router.dfy` | rule matching, error handlers and retries |
| `EchoWire.dfy` | the binary message of the TCP example |

Each operation that changes state is a method, most of them on a class, proved equal to a function of the
old state; the properties are proved about those functions. The step systems use the same functions.

## Main results

* **Keyed routing.** Steps are single accesses to shared state: a migration deletes, looks and adds under separate
  locks, a refresh reads the store in one step and writes the table in another, and messages may be lost. At any
  moment of any run a server is right about a key exactly when it has no entry or the value last written there looks
  to it like the one last stored. A run is orderly for a server and a key when every write over an earlier route presents
  its endpoint, as permanent routes force it to, the key's messages are published in the order of its compare-and-sets,
  the server loses none of them, and it writes no store answer after it has read a later message. After an orderly run
  a settled server accepts exactly what the store names, at most one endpoint accepts each key, and a request is served
  at the first or second attempt whatever the client had cached. Four concrete runs show what goes wrong without each of
  the four conditions.
* **Compare-and-set history.** Successive writes to a key form a chain, the tables show the last write, and a call
  reports success exactly when it wrote.
* **LRU.** The linked list refines a recency sequence; a key is cached exactly when fewer than `capacity` different
  keys were asked for since, with the endpoint the store gave last; a rule for each single key covers refreshes, clears
  and store errors too.
* **Load reports.** In every interleaving, unless a report is owed, the store holds the number of requests in flight
  exactly when the value sent last is the value loaded last.
* **Selection.** Weighted round robin and weighted random are exact; with many callers, a round of round robin selects
  every endpoint once exactly when no two calls overlap. The hash ring does not depend on the map's visiting order, and
  moves keys only to a newcomer whatever the orders, exactly when no point belongs to two endpoints.
* **Registry, snapshots, rules, codec.** See the table.

## Where the code does less than its intent

* After `RemoveCustomRoute` of a permanent route, every later `SetCustomRoute` on that key reports success and writes
  nothing (`RouteStore.RemovedPermanentRouteStaysGone`).
* The sets and publications of two setters may interleave so that a server keeps accepting a key it no longer owns
  (`ProtocolLimits.OutOfOrderPublishingDisagrees`).
* A refresh reads the store without holding the table's lock. When a migration is read before the answer is written,
  the old owner accepts the key for good (`ProtocolLimits.LateAnswerDisagrees`); so it does when it misses the message
  (`ProtocolLimits.LostMessageDisagrees`), as it may before its subscription stands.
* The retry loop can give up; `Clients.RetriesRunOutIff` says exactly when, and `EndToEnd.RetriesRunOutWhileMoveWaits`
  gives a run that leads there.
* With colliding points, an update of the hash ring may move keys between endpoints that did not change
  (`HashRing.CollisionMovesElsewhere`).
* When a route's deadline has passed, a set that presents nothing replaces it without telling anyone, and the old owner
  keeps accepting the key (`ProtocolLimits.PassedDeadlineDisagrees`).
* Unregistering a service takes away endpoints that another service still lists (`Servings.SharedEndpointIsLost`).
* Once the keep-alive channel of a registration closes, the caller is told to register again, but the store refuses until
  the service is unregistered; so it does after a registration that failed behind its lease
  (`Servings.LeasedServiceStaysAsItIs`).
* Two callers of a round robin may get one index and skip another (`Overlaps.TwoCallersGetOneIndex`).
* Under a request limit every newly registered endpoint makes `Select` panic until its first attribute arrives
  (`Selectors.NewEndpointPanicsUntilAttributed`).
* An LRU cache of capacity 2^32 - 1 never evicts (`Recency.SizeBoundIff`).
* A pod that registers again without an endpoint it had leaves that endpoint listed with no attributes
  (`Registries.RegisterKeepsAgreementIff`).
* An endpoint that its pod dropped when it registered again comes back, available, with the next attribute set for it
  (`Registries.DroppedEndpointComesBack`).
* The fuse filter admits an endpoint whose request rate equals the maximum and the check in `Select` then refuses it
  (`Selectors.FuseAndCheckDisagreeAtLimit`).
* Two load reports sent in the other order leave a wrong count in the store (`Reporter.OvertakenReportIsWrong`).
* `Route` may return success for a failed selection (`Routers.RoutedDespiteErrorIff`).
* An error with an empty text is read back as no error (`EchoWire.RoundTripIff`).
* A request whose endpoint header does not parse is accepted when the store has no route for its key, since both
  sides are then nil (`Servers.UnreadableEndpointAcceptedIff`).

## Model

| member | source | states |
|---|---|---|
| `Protocol.RightIffLastWrittenIsCurrent` | pkg/yapr/core/sdk/server/sdk.go:68-146 | at any moment of any run, however messages and store answers were ordered, delayed or lost, a server accepts exactly what the store names among its own endpoints if and only if it has no entry or the last value written there looks to it like the last value stored |
| `Protocol.EntryIsLastWritten` | pkg/yapr/core/sdk/server/routing_table.go:22-60 | in every run a table entry is the value at the recorded place of the key's history that was written last and not removed since |
| `Protocol.StepKeepsSound` | pkg/yapr/core/sdk/server/sdk.go:68-240 | every step (join, set, part of the own migration, publish, part of a delivery, loss, store read, late write) keeps store, histories, messages, answers and tables consistent |
| `Protocol.RunKeepsSound` | pkg/yapr/core/sdk/server/sdk.go:68-240 | the same over whole runs from the empty system |
| `Protocol.DeliveredIsMigration` | pkg/yapr/core/store/impl/impl.go:557-591 | what a listener parses is the migration that was set |
| `Protocol.ServerCallIsItsSteps` | pkg/yapr/core/sdk/server/sdk.go:227-240 | nothing coming in between, the set, the parts of the own migration and the publication do what one server call does, and are due exactly when it reports success with an old endpoint |
| `Protocol.RequestIsItsSteps` | pkg/yapr/core/sdk/server/routing_table.go:52-60 | nothing coming in between, the store read and the table write do what one refresh does |
| `Protocol.JoinerHearsOnlyWhatFollows` | pkg/yapr/core/store/impl/impl.go:557-565 | a server that joins knows no route and hears only what is published from then on |
| `Servers.PartsAreTheWhole` | pkg/yapr/core/sdk/server/sdk.go:68-90 | nothing coming in between, the delete, the look and the add of a migration are one `onMigration` |
| `Agreement.SettledAcceptsOwner` | pkg/yapr/core/sdk/server/sdk.go:68-146 | after a run orderly for a server and a key, once nothing about the key is unpublished or queued there, the server accepts one of its own endpoints if and only if the store names it |
| `Agreement.AtMostOneEndpointAccepts` | pkg/yapr/core/sdk/server/sdk.go:114-146 | across such servers at most one endpoint is accepted for a key |
| `Agreement.AcceptedWasStored` | pkg/yapr/core/sdk/server/sdk.go:131-146 | at any moment of an orderly run a server accepts one of its own endpoints only if the store named it no earlier than where the server's queue stands |
| `Agreement.EntriesFollowTheStore` | pkg/yapr/core/sdk/server/sdk.go:68-90 | at any moment of an orderly run an entry is the value at the server's queue position or a later one, or else neither the entry nor the value at that position is local |
| `Agreement.PermanentRunIsOrderlyIff` | pkg/yapr/core/store/impl/impl.go:493-504 | for a key with permanent routes only the order and loss of messages and answers decide whether a run is orderly |
| `Agreement.StepKeepsOrdered` | pkg/yapr/core/sdk/server/sdk.go:68-240 | every orderly step keeps the messages of a key contiguous and the entry backed by a value stored at the queue position or later |
| `Agreement.CompletingKeepsBacked` | pkg/yapr/core/sdk/server/sdk.go:68-90 | when the last part of a migration is done the entry is backed at the new queue position, whatever came in between the parts |
| `Agreement.OwnKeepsEntryOk` | pkg/yapr/core/sdk/server/sdk.go:233-234 | each part of the setter's own migration, ahead of the messages it has yet to read, keeps its entry backed |
| `Agreement.PublishKeepsOrdered` | pkg/yapr/core/store/impl/impl.go:588-591 | publishing a key's moves in the order of its history keeps its messages contiguous |
| `ProtocolLimits.OutOfOrderPublishingDisagrees` | pkg/yapr/core/sdk/server/sdk.go:229-236 | a run that publishes two sets in the other order: everything is settled, yet a server accepts an endpoint the store does not name |
| `ProtocolLimits.LateAnswerDisagrees` | pkg/yapr/core/sdk/server/routing_table.go:52-60 | a run that writes a store answer after the migration outdating it was read: settled, yet two servers accept one key |
| `ProtocolLimits.LostMessageDisagrees` | pkg/yapr/core/store/impl/impl.go:557-586 | a run in which the message that takes a key away is lost: settled, yet the old server keeps accepting |
| `ProtocolLimits.PassedDeadlineDisagrees` | pkg/yapr/core/sdk/server/sdk.go:227-240 | a run that is orderly but for writing over a route whose deadline has passed: success is reported, nothing published, and the old server keeps accepting |
| `RouteStore.RedisStore.SetCustomRoute` | pkg/yapr/core/store/impl/impl.go:475-535 | the script and the decoding of its reply equal the table function `AfterCall` and the report `ReportedOld`, for absent, expired and mismatching entries |
| `RouteStore.RedisStore.GetCustomRoute` | pkg/yapr/core/store/impl/impl.go:538-550 | the stored endpoint, whatever its deadline; absent or empty is no route |
| `RouteStore.RedisStore.RemoveCustomRoute` | pkg/yapr/core/store/impl/impl.go:552-555 | removes the endpoint and leaves the deadline |
| `RouteStore.SuccessIffWritten` | pkg/yapr/core/store/impl/impl.go:502-535 | success is reported exactly when the call wrote, unless the key is misreported: in force without an endpoint, or holding text that does not parse |
| `RouteStore.ReportsAreTruthful` | pkg/yapr/core/store/impl/impl.go:475-535 | in every run of calls with plain endpoints and a clock past its first millisecond, a call reports success if and only if it wrote |
| `RouteStore.RunStaysHealthy` | pkg/yapr/core/store/impl/impl.go:507-509 | in every such run both tables have the same keys and every stored text parses |
| `RouteStore.RunShowsLastWrite` | pkg/yapr/core/store/impl/impl.go:507-509 | in every such run the tables show exactly the last write to each key |
| `RouteStore.WritesFormAChain` | pkg/yapr/core/store/impl/impl.go:493-509 | in every such run each write presents the endpoint of the write before it, unless that one's deadline had passed |
| `RouteStore.PermanentWritesFormAChain` | pkg/yapr/core/store/impl/impl.go:493-509 | in every such run with permanent routes every `from` is the previous `to` |
| `RouteStore.GetReturnsLastWrite` | pkg/yapr/core/store/impl/impl.go:538-550 | in every such run a key is read as the endpoint of its last write, or as no route |
| `RouteStore.WritesIff` | pkg/yapr/core/store/impl/impl.go:493-509 | in every such run a call writes if and only if its key was never written, or it presents the endpoint written last, or that write had a timeout that has passed |
| `RouteStore.RefusalNamesOwner` | pkg/yapr/core/store/impl/impl.go:502-535 | in every such run a refusal names the endpoint of the key's last write |
| `RouteStore.PresentingTheReportedWrites` | pkg/yapr/core/store/impl/impl.go:502-509 | a caller that presents what a refusal named writes, nothing coming in between |
| `RouteStore.RemovalLeavesOthers` | pkg/yapr/core/store/impl/impl.go:552-555 | removing a route leaves reads, writes and refusals of every other key as they were |
| `RouteStore.RemovedPermanentRouteStaysGone` | pkg/yapr/core/store/impl/impl.go:493-504 | once a permanent route is removed, every later set on its key reports success and none writes |
| `RoutingTables.RoutingTable.AddRoute` | pkg/yapr/core/sdk/server/routing_table.go:22-30 | the view gains the route, or loses the key when the endpoint is nil; nothing else changes |
| `RoutingTables.RoutingTable.GetRoute` | pkg/yapr/core/sdk/server/routing_table.go:32-40 | the view's endpoint; an absent selector, an absent key and a stored nil are alike |
| `RoutingTables.RoutingTable.DeleteRoute` | pkg/yapr/core/sdk/server/routing_table.go:42-50 | the view loses that key only |
| `RoutingTables.RoutingTable.Refresh` | pkg/yapr/core/sdk/server/routing_table.go:52-60 | the key takes the store's answer; a store error returns nil and changes nothing |
| `Servers.YaprServer.OnMigration` | pkg/yapr/core/sdk/server/sdk.go:68-90 | deletes when `from` is local, then adds when `to` is local and differs, and tells the listener exactly then; equal endpoints change nothing |
| `Servers.MigrationAppliedTwice` | pkg/yapr/core/sdk/server/sdk.go:68-90 | applying a migration again changes nothing more, and the listener is told again if and only if `from` is local |
| `Servers.YaprServer.OnRequestReceived` | pkg/yapr/core/sdk/server/sdk.go:114-178 | response, new table and counter key in each case: missing strategy, unknown selector, other strategy, own table trusted or refreshed |
| `Servers.YaprServer.RegisterService` | pkg/yapr/core/sdk/server/sdk.go:182-193 | the server's endpoints and lists change exactly when the store accepts the registration |
| `Servers.YaprServer.UnregisterService` | pkg/yapr/core/sdk/server/sdk.go:195-207 | removes the endpoints remembered for the service, the list and the lease |
| `Servings.ServiceStore.RegisterService` | pkg/yapr/core/store/impl/impl.go:264-311 | refuses a service it holds a lease for; a failure after the lease is remembered leaves the lease |
| `Servings.ServiceStore.UnregisterService` | pkg/yapr/core/store/impl/impl.go:313-335 | forgets the lease |
| `Servings.ServesExactlyListedIff` | pkg/yapr/core/sdk/server/sdk.go:182-207 | over all operations and store failures every endpoint served is listed for a service, and every one listed is served if and only if none was unregistered with another list and not registered since |
| `Servings.StepKeepsExactIff` | pkg/yapr/core/sdk/server/sdk.go:195-207 | an operation keeps served and listed endpoints equal if and only if it unregisters no list that shares an endpoint with a remaining one |
| `Servings.AlwaysExactIff` | pkg/yapr/core/sdk/server/sdk.go:182-207 | all along a run served and listed endpoints are equal if and only if no unregistered list shares an endpoint with a remaining one |
| `Servings.SharedEndpointIsLost` | pkg/yapr/core/sdk/server/sdk.go:199-204 | a concrete run: two services with one endpoint, of which unregistering one takes it from the other |
| `Servings.UnregisterUndoesRegister` | pkg/yapr/core/sdk/server/sdk.go:182-207 | unregistering takes back an accepted registration exactly, in all three collections, if and only if none of its endpoints was served before |
| `Servings.LeasedServiceStaysAsItIs` | pkg/yapr/core/store/impl/impl.go:265-268 | until it is unregistered, a service with a remembered lease is never registered again, whatever became of the lease or of the rest of its registration |
| `Servers.RequestDecidedBy` | pkg/yapr/core/sdk/server/sdk.go:131-146 | a request is decided by the entry, or by the store if there is none or the client was rejected there, comparing addresses and ports and not pods; a store answer becomes the entry |
| `Servers.UnreadableEndpointAcceptedIff` | pkg/yapr/core/sdk/server/sdk.go:131-146 | exactly when a request whose endpoint header does not parse is accepted |
| `Servers.YaprServer.SetCustomRoute` | pkg/yapr/core/sdk/server/sdk.go:227-240 | store, reply, own table and published text, the last two only on reported success with an old endpoint |
| `Servers.AgreementAcceptsOwner` | pkg/yapr/core/sdk/server/sdk.go:131-146 | a table that agrees with the store seen through the server's own endpoints accepts exactly the owner, whatever rejection the client reports |
| `Clients.Invoke` | pkg/yapr/core/sdk/client/sdk.go:96-134 | the loop equals a recursive specification of three attempts with a refresh and a first-rejection note between them |
| `Clients.ThreeAttempts` | pkg/yapr/core/sdk/client/sdk.go:96-134 | three attempts in all, each but the first after a refresh of the cache and a note of the first rejection only |
| `Clients.SetCustomRoute` | pkg/yapr/core/sdk/client/sdk.go:160-172 | store, reply and published text; the client has no table of its own to migrate |
| `Clients.AgreeingServersAcceptWithinTwo` | pkg/yapr/core/sdk/client/sdk.go:96-134 | with agreeing servers the request is served by the owner, at attempt 1 if it was picked first and at attempt 2 otherwise |
| `Clients.OwnerFirstAcceptedWithinTwo` | pkg/yapr/core/sdk/client/sdk.go:96-134 | with arbitrarily stale tables a client whose first pick is the owner is served within two attempts |
| `Clients.RetriesRunOutIff` | pkg/yapr/core/sdk/client/sdk.go:78-134 | exactly when all attempts are rejected, in terms of the two servers' entries before the call |
| `EndToEnd.SettledRequestReachesOwner` | pkg/yapr/core/sdk/client/sdk.go:70-134 | after a run orderly for the key, a request for a settled key reaches the store's endpoint at the first or second attempt, whatever registered endpoint was cached |
| `EndToEnd.RetriesRunOutWhileMoveWaits` | pkg/yapr/core/sdk/client/sdk.go:96-134 | a concrete orderly run, with a published move still queued, after which all three attempts of a client are rejected |
| `LruCaches.LruCache.constructor` | pkg/yapr/core/strategy/impl/cache/impl/lru.go:30-39 | an empty valid cache |
| `LruCaches.LruCache.Remove` | pkg/yapr/core/strategy/impl/cache/impl/lru.go:41-54 | unlinks one node: following either direction visits the other nodes in their order |
| `LruCaches.LruCache.MoveToHead` | pkg/yapr/core/strategy/impl/cache/impl/lru.go:56-74 | the node comes first, the others keep their order, whether or not it was listed |
| `LruCaches.LruCache.Resize` | pkg/yapr/core/strategy/impl/cache/impl/lru.go:76-81 | terminates without touching a nil tail and leaves what the eviction policy leaves |
| `LruCaches.LruCache.Get` | pkg/yapr/core/strategy/impl/cache/impl/lru.go:83-103 | list, links and map refine `AfterGet`: a hit moves to front, a miss inserts and evicts from the end, a store error changes nothing |
| `LruCaches.LruCache.Clear` | pkg/yapr/core/strategy/impl/cache/impl/lru.go:105-112 | an empty valid cache |
| `LruCaches.LruCache.Refresh` | pkg/yapr/core/strategy/impl/cache/impl/lru.go:114-127 | the key's pair takes the store's answer in place; a store error removes only that key |
| `Recency.SizeBoundIff` | pkg/yapr/core/strategy/impl/cache/impl/lru.go:76-81 | the size never exceeds the capacity, whatever is asked, if and only if the capacity is below 2^32 - 1 |
| `Recency.LargestCapacityNeverEvicts` | pkg/yapr/core/strategy/impl/cache/impl/lru.go:76-81 | with capacity 2^32 - 1 a cache of any size can be built |
| `Recency.CachedIffFront` | pkg/yapr/core/strategy/impl/cache/impl/lru.go:83-127 | after any gets, refreshes and clears with any store answers, which keys are cached, and behind which, is what a rule for each single key says: a hit or stored miss uses a key, a failed refresh or a clear removes it, and `capacity` keys in front evict it |
| `Recency.GetReturnsHeld` | pkg/yapr/core/strategy/impl/cache/impl/lru.go:83-127 | after any gets, refreshes and clears with any store answers, asking for a cached key returns the endpoint the store gave at the miss that cached it or at the last answered refresh since, and for any other key what the store answers now |
| `Recency.CacheHoldsMostRecent` | pkg/yapr/core/strategy/impl/cache/impl/lru.go:83-103 | after gets that the store answers, the cache holds the `capacity` most recently requested keys, in order of recency |
| `Recency.CachedIffUsedRecently` | pkg/yapr/core/strategy/impl/cache/impl/lru.go:83-103 | after gets that the store answers, a key is cached if and only if it was requested and fewer than `capacity` different keys were requested since |
| `Recency.MoreRecentIsSince` | pkg/yapr/core/strategy/impl/cache/impl/lru.go:56-74 | the keys in front of a key are exactly those requested since its last request |
| `Directs.DirectStrategy.Build` | pkg/yapr/core/strategy/impl/direct.go:13-32 | LRU with the given size, 4096 when it is absent or zero, otherwise the cache that always asks |
| `Directs.DirectStrategy.Select` | pkg/yapr/core/strategy/impl/direct.go:40-73 | each error in the order the code tests for it, and the pick and new cache otherwise |
| `Directs.DirectStrategy.Update` | pkg/yapr/core/strategy/impl/direct.go:79-81 | replaces the endpoints and leaves the cache alone |
| `Directs.DirectStrategy.NotifyRetry` | pkg/yapr/core/strategy/impl/direct.go:83-87 | refreshes the key in the cache |
| `Directs.PickIs` | pkg/yapr/core/strategy/impl/direct.go:60-72 | whatever the cache has served, the pick is decided by the endpoint it holds, or by the store: no route, no endpoint, registered or not |
| `Directs.PicksAndRetriesAreOps` | pkg/yapr/core/strategy/impl/direct.go:60-87 | a pick is a get of the cache and a retry notification a refresh |
| `Directs.RetryPicksStored` | pkg/yapr/core/strategy/impl/direct.go:40-87 | after a pick and a retry notification the next pick is the store's answer, whatever was cached |
| `Weighted.WeightedRoundRobin.Update` | pkg/yapr/core/strategy/impl/weighted_round_robin.go:44-55 | the loop builds the interval starts and the 32-bit total of the visited endpoints |
| `Weighted.WeightedRoundRobin.Select` | pkg/yapr/core/strategy/impl/weighted_round_robin.go:26-35 | advances the wrapping counter and returns the owner of the counter's residue; never misses |
| `Weighted.LookupNeverMisses` | pkg/yapr/core/strategy/impl/weighted_round_robin.go:31-33 | `Floor` finds an interval for every counter, even when the total weight wrapped, unless the total reads as zero |
| `Weighted.FloorFindsOwner` | pkg/yapr/core/strategy/impl/weighted_round_robin.go:44-55 | for every position `Floor` gives the endpoint whose interval holds it, zero weights included |
| `Weighted.MassIsWeight` | pkg/yapr/core/strategy/impl/weighted_random.go:42-53 | an endpoint owns exactly as many positions as it has weight |
| `Weighted.FullRoundIsFair` | pkg/yapr/core/strategy/impl/weighted_round_robin.go:31-32 | any full round of residues reaches each endpoint exactly its weight times, from any start |
| `Weighted.WeightedRoundRobinIsFair` | pkg/yapr/core/strategy/impl/weighted_round_robin.go:26-55 | any `totalWeight` consecutive choices without counter wrap contain each endpoint exactly its weight times and never fail |
| `Weighted.WeightedRoundRobin.SelectTimes` | pkg/yapr/core/strategy/impl/weighted_round_robin.go:26-35 | consecutive calls of `Select` return the consecutive choices |
| `Weighted.WeightedRoundRobin.FairRound` | pkg/yapr/core/strategy/impl/weighted_round_robin.go:26-55 | an update followed by `totalWeight` calls of `Select` returns each endpoint exactly its weight times |
| `Weighted.WeightedRandom.Update` | pkg/yapr/core/strategy/impl/weighted_random.go:42-53 | the loop builds the interval starts and the total |
| `Weighted.WeightedRandom.Select` | pkg/yapr/core/strategy/impl/weighted_random.go:22-33 | the owner of the random number's residue |
| `Weighted.WeightedRandomHasExactMass` | pkg/yapr/core/strategy/impl/weighted_random.go:22-53 | the residues sent to an endpoint number exactly its weight |
| `Weighted.RoundRobin.Update` | pkg/yapr/core/strategy/impl/round_robin.go:37-43 | the endpoints in the order the map is visited |
| `Weighted.RoundRobin.Select` | pkg/yapr/core/strategy/impl/round_robin.go:21-28 | the endpoint at the advanced wrapping counter |
| `Weighted.InTurnIsUnitWeight` | pkg/yapr/core/strategy/impl/round_robin.go:21-28 | round robin is weighted round robin with every weight one |
| `Weighted.RoundRobin.SelectTimes` | pkg/yapr/core/strategy/impl/round_robin.go:21-28 | consecutive calls of `Select` return the consecutive turns |
| `Weighted.RoundRobinVisitsEachOnce` | pkg/yapr/core/strategy/impl/round_robin.go:21-43 | any `n` consecutive turns without counter wrap visit each of `n` endpoints exactly once |
| `Overlaps.RoundIsFairIff` | pkg/yapr/core/strategy/impl/round_robin.go:26-27 | with many callers that add and read separately, as many calls as there are endpoints select each exactly once if and only if no two calls overlap |
| `Overlaps.EveryValueReadIff` | pkg/yapr/core/strategy/impl/weighted_round_robin.go:31-32 | with any weights, every counter value of a round is read if and only if no two calls overlap |
| `Overlaps.WithoutOverlapWeightedIsFair` | pkg/yapr/core/strategy/impl/weighted_round_robin.go:26-35 | weighted round robin stays exactly fair with many callers whose calls do not overlap |
| `Overlaps.TwoCallersGetOneIndex` | pkg/yapr/core/strategy/impl/round_robin.go:26-27 | a concrete run in which two callers read one counter value and another is skipped |
| `HashRing.HashRingStrategy.Update` | pkg/yapr/core/strategy/impl/hash_ring.go:49-62 | the nested loops build the ring in which a later placement wins a point |
| `HashRing.HashRingStrategy.Select` | pkg/yapr/core/strategy/impl/hash_ring.go:22-43 | each error in turn, otherwise the ring's choice for the hashed header value |
| `HashRing.HasIff` | pkg/yapr/core/strategy/impl/hash_ring.go:52-59 | an endpoint's points are the hashes of its text followed by a number, eight for each unit of weight |
| `HashRing.ChoiceIsNearest` | pkg/yapr/core/strategy/impl/hash_ring.go:32-42 | the choice is the owner of the point nearest to the hash going up and around, or none on an empty ring |
| `HashRing.OnlyMovesToIff` | pkg/yapr/core/strategy/impl/hash_ring.go:49-62 | whatever the orders in which the map is visited before and after an endpoint comes or gains weight, keys move only to it if and only if no point belonged to two endpoints before |
| `HashRing.CollisionMovesElsewhere` | pkg/yapr/core/strategy/impl/hash_ring.go:51-61 | when two endpoints share a point, some pair of visiting orders moves its key between endpoints that did not change |
| `HashRing.NewcomerTakesOnlyItsKeysIff` | pkg/yapr/core/strategy/impl/hash_ring.go:49-62 | the same for an endpoint that comes |
| `HashRing.RaisedWeightTakesOnlyItsKeysIff` | pkg/yapr/core/strategy/impl/hash_ring.go:52-60 | the same for a weight that is raised |
| `HashRing.InsertingMovesKeysOnlyToNewcomer` | pkg/yapr/core/strategy/impl/hash_ring.go:49-62 | when the others are visited in one order, inserting an endpoint anywhere moves keys only to it, and removing it only the keys it had, even with collisions |
| `HashRing.RaisingWeightMovesKeysOnlyToIt` | pkg/yapr/core/strategy/impl/hash_ring.go:52-60 | in one visiting order, raising an endpoint's weight moves keys only to it, even with collisions |
| `HashRing.OrderIndependentIff` | pkg/yapr/core/strategy/impl/hash_ring.go:51-61 | the ring is the same for every visiting order if and only if no point belongs to two endpoints |
| `HashRing.RingPoints` | pkg/yapr/core/strategy/impl/hash_ring.go:51-61 | the ring's points are exactly those of the endpoints, each owned by the last visited that has it |
| `Registries.Service.Update` | pkg/yapr/core/types/service.go:40-53 | clears the dirty mark and advances the version, once per mark |
| `Registries.Service.RegisterPod` | pkg/yapr/core/types/service.go:150-171 | the whole new registry, including what a re-registration leaves behind |
| `Registries.Service.RemovePod` | pkg/yapr/core/types/service.go:173-190 | the whole new registry, for every order in which the remaining set is visited |
| `Registries.Service.HangPod` | pkg/yapr/core/types/service.go:192-204 | exactly the pod's endpoints that have attributes become unavailable |
| `Registries.Service.SetAttributeInSelector` | pkg/yapr/core/types/service.go:122-141 | ignored for unknown endpoints; otherwise one selector's attributes are replaced and the registry is marked dirty |
| `Registries.Service.Version` | pkg/yapr/core/types/service.go:143-148 | brings the version up to date and returns it |
| `Registries.Service.AttributesFor` | pkg/yapr/core/types/service.go:92-119 | every listed endpoint with its attributes, defaults where it has none and unavailable where it is unknown |
| `Registries.RunsStayConsistent` | pkg/yapr/core/types/service.go:122-190 | over all operation sequences the list and the set name the same endpoints and attributes exist only for those |
| `Registries.RegisterKeepsAgreementIff` | pkg/yapr/core/types/service.go:150-171 | registering keeps all four collections in agreement if and only if the new list covers the old one |
| `Registries.RunsStayAgreeing` | pkg/yapr/core/types/service.go:122-190 | with disjoint pods and covering re-registrations the set equals the attribute keys and the disjoint union of the pods' lists, over all sequences |
| `Registries.AttributesAre` | pkg/yapr/core/types/service.go:92-204 | over all operation sequences an endpoint's attribute for a selector is the last one set since it was registered, or weight 1, no rate and deadline 0, and its availability is given by registrations, removals, hangs and revivals |
| `Registries.MembersAre` | pkg/yapr/core/types/service.go:122-190 | over all operation sequences an endpoint is in the set if and only if it was registered and no pod that named it was removed since |
| `Registries.AvailableIffNotHung` | pkg/yapr/core/types/service.go:150-204 | with disjoint pods, an endpoint on a pod's list is available if and only if the pod has not hung since it last registered |
| `Registries.DroppedEndpointComesBack` | pkg/yapr/core/types/service.go:126-139 | a concrete run: an endpoint its pod dropped when registering again comes back available with the next attribute set for it |
| `Registries.VersionAdvances` | pkg/yapr/core/types/service.go:40-53 | every change of the pods advances the version by one, and so does a reader that finds the mark |
| `Registries.HungPodStaysOut` | pkg/yapr/core/types/service.go:192-204 | from a hang until the pod registers again its endpoints stay known and unavailable, whatever else happens |
| `Selectors.Selector.EndpointsWithAttribute` | pkg/yapr/core/selector.go:79-92 | the nested loops compute the freshly filtered snapshot |
| `Selectors.SnapshotIff` | pkg/yapr/core/types/types.go:58-64 | an endpoint is in the snapshot if and only if it is listed, has attributes and is available where the good filter applies, and has no rate, no maximum or a rate at most the maximum where the fuse applies; it comes with its attribute or the default one |
| `Selectors.AdmissibleIsInSnapshot` | pkg/yapr/core/selector.go:79-92 | every listed endpoint a selection would accept is in the snapshot |
| `Selectors.Selector.Renew` | pkg/yapr/core/selector.go:113-128 | the snapshot and recorded version change exactly when the registry's version is greater |
| `Selectors.Selector.Select` | pkg/yapr/core/selector.go:94-147 | renewal, the strategy's answer on the resulting snapshot, the availability and rate checks against the registry as it is now, and the merged headers |
| `Selectors.SelectionIs` | pkg/yapr/core/selector.go:130-147 | the endpoint, headers and error of a selection, case by case |
| `Selectors.HeadersAre` | pkg/yapr/core/selector.go:142-160 | a header is the strategy's own, else the configured one, else one of the three of every selection |
| `Selectors.ErrorFreeIff` | pkg/yapr/core/selector.go:130-141 | a selection names an endpoint without error if and only if the strategy did and the registry now has it available and below the limit |
| `Selectors.PanicsIff` | pkg/yapr/core/selector.go:130-137 | a selection panics if and only if the strategy named an endpoint the registry no longer knows, or an available one without attributes for the selector while requests are limited |
| `Selectors.NewEndpointPanicsUntilAttributed` | pkg/yapr/core/selector.go:130-137 | from its registration until the selector's first attribute for it, every choice of an endpoint under a request limit panics, or is refused while its pod hangs |
| `Selectors.HungPodIsNeverSelected` | pkg/yapr/core/selector.go:130-141 | while a pod hangs no good-endpoint snapshot contains its endpoints and no selection of one is free of error, however stale the snapshot |
| `Selectors.FuseAndCheckDisagreeAtLimit` | pkg/yapr/core/types/types.go:62-64 | an available endpoint passes the fuse filter and fails the final check if and only if its rate equals the maximum |
| `Selectors.ChangedThenUpdated` | pkg/yapr/core/types/service.go:150-204 | a registry operation is its change, followed by the update it defers where it defers one, which the step system keeps apart |
| `Selectors.StepKeepsInv` | pkg/yapr/core/selector.go:113-128 | every step of concurrent selectors, registry operations and the separate, possibly repeated `update` keeps snapshot and versions in agreement |
| `Selectors.RecordedVersionMeansCurrentSnapshot` | pkg/yapr/core/selector.go:113-128 | in every interleaving, when the recorded version is the one `Version` would return, the snapshot is a fresh computation |
| `Selectors.RecordedVersionNeverDecreases` | pkg/yapr/core/selector.go:113-128 | in every interleaving the recorded version never goes back |
| `Reporter.Counter.Add` | pkg/yapr/core/sdk/server/sdk.go:155-172 | a wrapping add that matches the receive and respond steps |
| `Reporter.Counter.Check` | pkg/yapr/core/sdk/server/sdk.go:157-168 | starts a reporter if and only if the mark was clear, and matches the check of the step system |
| `Reporter.Counter.ClearMark` | pkg/yapr/core/sdk/server/sdk.go:162 | clears the mark, matching the delete of the step system |
| `Reporter.Counter.LoadCounter` | pkg/yapr/core/sdk/server/sdk.go:163 | the counter as a `uint32`, which is what the step system loads |
| `Reporter.StepKeepsInv` | pkg/yapr/core/sdk/server/sdk.go:152-176 | every step, sends in any order included, keeps counter, mark, reporters and the value loaded last in agreement |
| `Reporter.CounterCountsOpenRequests` | pkg/yapr/core/sdk/server/sdk.go:153-173 | in every interleaving the counter is the wrapped number of requests received and not yet responded to, and one reporter sleeps exactly while the mark is set |
| `Reporter.StoreIsRightIff` | pkg/yapr/core/sdk/server/sdk.go:157-173 | in every interleaving, unless a report is owed, the value loaded last is the number in flight, and the store holds it if and only if the value sent last is the value loaded last |
| `Reporter.NoUpdateIsLost` | pkg/yapr/core/sdk/server/sdk.go:157-173 | with sends in the order of the loads, once nothing is owed or waiting the store holds the number of requests in flight |
| `Reporter.ReportsCatchUp` | pkg/yapr/core/sdk/server/sdk.go:157-169 | once requests pause, a bounded number of steps remains in any order, after which everything is sent and the value loaded last is the number in flight |
| `Reporter.CaughtUpIff` | pkg/yapr/core/sdk/server/sdk.go:157-169 | the store then holds that number if and only if the value loaded last was sent last |
| `Reporter.OvertakenReportIsWrong` | pkg/yapr/core/sdk/server/sdk.go:161-164 | a concrete run in which two reports are sent in the other order and the store keeps a wrong count with nothing owed |
| `Routers.Match` | pkg/yapr/core/router.go:40-61 | every part of the matcher holds, for every visiting order of the header map |
| `Routers.MatchRule` | pkg/yapr/core/router.go:63-70 | some matcher matches |
| `Routers.RetrySelection` | pkg/yapr/core/router.go:168-176 | the loop ends with the first success or the last of the allowed selections, and makes that many |
| `Routers.WaitForUpdate` | pkg/yapr/core/router.go:194-210 | released, canceled or timed out, by the first event that decides |
| `Routers.TryRule` | pkg/yapr/core/router.go:89-222 | one turn of the rule loop equals the verdict specification and makes exactly its selections |
| `Routers.Route` | pkg/yapr/core/router.go:87-225 | the answer is that of the first-match specification; only rules up to the deciding one make selections |
| `Routers.MatchingRuleAnswers` | pkg/yapr/core/router.go:89-222 | the answer when a rule matches, written out by error code, handler and solution: which `catch` entry applies, thrown codes and messages, three retries by default, the outcome of a block, and the service, port and headers of a success |
| `Routers.OtherRulesAnswer` | pkg/yapr/core/router.go:89-96 | no rule matched, a rule that does not match, and a rule whose selector is unknown |
| `Routers.FirstDecidingRuleAnswers` | pkg/yapr/core/router.go:87-225 | the first rule that decides gives the answer whatever follows it; if none does, no rule matched |
| `Routers.SkippedRuleContributesNothing` | pkg/yapr/core/router.go:89-128 | removing a rule that is skipped, wherever it stands, leaves the answer unchanged |
| `Routers.SkippedIffPassedOver` | pkg/yapr/core/router.go:89-182 | a rule is skipped if and only if it does not match, or its selection fails and its handler passes or blocks on an unknown service |
| `Routers.RoutedAnswerComesFrom` | pkg/yapr/core/router.go:87-225 | a routed answer carries the endpoint of the last selection of some matching rule, and every matching rule before it failed and was passed over |
| `Routers.RetryBound` | pkg/yapr/core/router.go:155-176 | a rule makes at most `1 + times` selections, all but the last failed, and the last failed only if none was left |
| `Routers.ReleasedIff` | pkg/yapr/core/router.go:194-210 | a blocked request is released if and only if an update registers its endpoint before any cancellation |
| `Routers.RoutedDespiteErrorIff` | pkg/yapr/core/router.go:125-222 | exactly when a success carries the endpoint of a failed selection: all `1 + times` selections failed, or the handler has no case, or a block was released before any cancellation, and that selection still named an endpoint |
| `Routers.TargetRoundTrip` | pkg/yapr/core/router.go:72-85 | `name:port` and `name` are read back if and only if the name has no colon |
| `Routers.TargetErrors` | pkg/yapr/core/router.go:72-85 | more than one colon, or a port that is no decimal number below 2^32, is refused |
| `EchoWire.Marshal` | cmd/example/echo-tcp/common.go:16-47 | the loops write the specified bytes, for every visiting order of the headers |
| `EchoWire.UnmarshalData` | cmd/example/echo-tcp/common.go:49-88 | the loops read what the decoding specification reads, short and negative lengths included |
| `EchoWire.Int32RoundTrip` | cmd/example/echo-tcp/common.go:20-21 | little-endian encoding and decoding of every `int32` are inverse |
| `EchoWire.LittleEndian` | cmd/example/echo-tcp/common.go:20-21 | a number is written in four bytes, the low one first |
| `EchoWire.EncodedParts` | cmd/example/echo-tcp/common.go:20-44 | a message is its header count, headers, data and error, in this order |
| `EchoWire.ReadInt32Is` | cmd/example/echo-tcp/common.go:54-55 | four bytes are read as a signed number; fewer are consumed and read as zero |
| `EchoWire.ReadBytesIs` | cmd/example/echo-tcp/common.go:57-63 | a text has the length that was read, with zeros for what is missing |
| `EchoWire.ReadTextPanicsIff` | cmd/example/echo-tcp/common.go:57-63 | reading a text panics if and only if its length is present and negative |
| `EchoWire.CutOffAfterCount` | cmd/example/echo-tcp/common.go:53-66 | a message cut off after its header count decodes to at most one empty header |
| `EchoWire.ReadWrittenHeaders` | cmd/example/echo-tcp/common.go:22-29 | reading written headers consumes exactly their bytes and gives back the map, for every order |
| `EchoWire.DecodedFits` | cmd/example/echo-tcp/common.go:49-88 | whatever decodes from any bytes would survive the round trip |
| `EchoWire.RoundTripIff` | cmd/example/echo-tcp/common.go:16-88 | a message is read back unchanged if and only if all lengths fit and its error text, if any, is not empty; nothing is then left unread |
| `Endpoints.TextRoundTrip` | pkg/yapr/core/types/types.go:24-43 | an endpoint's text parses back to it, for every port, exactly when address and pod hold no `#`, and does not parse otherwise |
| `Endpoints.ToTextIs` | pkg/yapr/core/types/types.go:24-26 | address, pod and decimal port, in this order, with `#` between them |
| `Text.ItoaIsDecimal` | pkg/yapr/core/types/types.go:25 | a number is printed in decimal, the most significant digit first |
| `Text.AtoiOfSigned` | pkg/yapr/core/types/types.go:33 | decimal numbers are read with or without a sign, and refused when they do not fit in 64 bits |
| `Text.AtoiNeedsDigits` | pkg/yapr/core/types/types.go:33 | nothing but digits after at most one sign is a number |
| `Endpoints.FromFields` | pkg/yapr/core/types/types.go:28-43 | three fields are read in that order, the port signed, within 64 bits, and modulo 2^32 |
| `Endpoints.EqualIff` | pkg/yapr/core/types/types.go:45-53 | endpoints are taken for equal if and only if address and port are, whatever the pods |
| `Endpoints.ParsedIsCanonical` | pkg/yapr/core/types/types.go:28-43 | whatever parses has a text form that parses to the same endpoint |
| `Endpoints.ToTextInjective` | pkg/yapr/core/types/types.go:24-26 | plain endpoints with the same text are the same |
| `Endpoints.MigrationRoundTrip` | pkg/yapr/core/store/impl/impl.go:572-591 | a published migration is dropped exactly when a field holds a space, and otherwise read back |
| `Endpoints.MigrationTextIs` | pkg/yapr/core/store/impl/impl.go:588-591 | selector, header value, old and new endpoint, in this order, with single spaces |
| `Endpoints.MigrationFields` | pkg/yapr/core/store/impl/impl.go:572-582 | the four fields are selector, header value, old and new endpoint, in this order |

## Left out

- Orderly runs: the agreement theorems assume, for one server and one key, the four conditions above; `Protocol.RightIffLastWrittenIsCurrent` assumes none of them. That each server reads the channel in order is part of the steps.
- Removal in the protocol: the step system has deadlines but no removal of routes; the store itself is modelled with both.
- The clock of the store: calls are taken to come after its first millisecond, without which a first set would report success and write nothing; and the runs of store calls have plain endpoints.
- Endpoint identity: theorems that compare endpoints assume one pod per address, because `EqualEndpoints` ignores the pod; the endpoints of a server are fixed once it has joined.
- Text on the wire: the step system assumes keys without spaces and endpoints without spaces or `#`; `Endpoints.MigrationRoundTrip` says what happens otherwise.
- Clients.Invoke: nothing else runs during one call and the store's answer is fixed, the selector's attribute checks and the pauses between attempts are left out, and only the gRPC path is modelled; the other `Invoke` routes once.
- Servers.YaprServer.OnRequestReceived: what happens to the counter it names is modelled in `Reporter.dfy`; store failures other than a missing route are treated as a missing route.
- Servings.ServiceStore.RegisterService: what the store writes to etcd is left out; where a failure strikes is a parameter. A failure between the lease and its list leaves the service refused with nothing served.
- Reporter.StoreIsRightIff: each key's counter is modelled on its own, and a report that fails to be sent is not retried by the code nor modelled.
- Weighted.WeightedRoundRobin.Select: one caller at a time; the separate add and read of many callers are in `Overlap.dfy`. With weights above one, overlapping calls may still be fair when the value read twice and the value skipped belong to one endpoint.
- Weighted.RoundRobin.Select: likewise.
- Weighted.WeightedRandom.Update: the total is unbounded; in the code it is a 64-bit integer.
- Selectors.Selector.Select: whether the 50 ms throttle holds a renewal back is a parameter; building the strategy on first use, and its failure, are left out.
- Registries.Service.HangPod: snapshots copy attributes; in the code they share the availability flag with the registry, so a hang also shows in older snapshots.
- Registries.Service.Update: one caller at a time; that two callers may both advance the version for one mark is part of the steps in `Selector.dfy`. The version is unbounded and the notification channel is left out.
- Routers.Route: what a selection answers and what happens during a block are arbitrary; a selection that itself panics, nil matchers and the pauses between retries are left out.
- EchoWire.RoundTripIff: about the text of the error; the error value built from it (through JSON or `fmt.Errorf`, which treats `%` specially) may print differently.
- Metrics, logging, configuration files, etcd leases and watches, gRPC and TCP connections: input and output.
- CRC-32 and regular expressions: the hash is any function to 32-bit numbers, matchers are any predicates.
- The random, least-request, least-cost and Lua strategies: a single comparison or foreign code.
- The gRPC balancer, resolver and picker: wiring around a library's state machine.
- The client's order of attribute notifications: each is handled on its own, so there is no order to state.
