# dxgate, modelled and verified

dxgate is a gateway proxy whose configuration arrives over an aggregated xDS stream. This project models the
pipeline from the discovery stream to the request that leaves the proxy, and proves what the whole of it keeps:

- `Text`, `Config`: string order and name lists; the runtime configuration, its validation loops and route selection.
- `Messages`, `Endpoints`, `Translation`: decoded xDS messages and their translation into the runtime configuration.
- `Discovery`, `DiscoveryRuns`: the client's five maps, requests and publications as values, and what every run keeps.
- `AdsClient`: the same client as it runs, with maps updated in place and a receive loop, proved to follow `Discovery`.
- `ConfigMeaning`: what a built configuration holds, entry by entry, in the client's maps and the server's messages.
- `Convergence`, `ServerSync`: a server's tables, the join they describe, and convergence of the client to it.
- `Tickets`, `Picker`, `Forwarding`, `Shares`, `Proxy`: the two pickers on one wrapping counter, the forwarding decision,
  and the shares that requests give.
- `Mtls`: the cache of mutual-TLS clients.
- `Gateway`, `GatewayRuns`, `ApplyOrder`, `EndToEnd`: start-up, stream, watch cell, apply task, readers and requests as
  interleaved steps; invariants of every run; the order in which configurations are applied; the theorem that joins all.

`dafny verify dfyconfig.toml` checks everything.

## Main results

1. `EndToEnd.ServerTablesReachTheProxy` and `EndToEnd.NineTurnsReachTheProxy`: take any reachable state of the whole
   gateway with an open stream that holds no unasked listener, and a server whose join validates. The server answers the
   four subscriptions in turn, with any turns of the apply task, readers and requests before, between and after the
   answers. Once the apply task rests, or has had nine turns after the last answer, and something has been published (as
   it is unless the last answer's version is the bootstrap's), the proxy is ready and decides every request as the join
   of the server's tables would.
2. `ServerSync.FreshConnectionConverges`: on a fresh connection the configuration is literally the join, for every
   server, answers in any order and with any repetition; it validates if and only if every cluster the routes lead to is
   reached by route discovery and the server has it.
3. `GatewayRuns.EveryReplyIsSafe`: over all interleavings, each reply is 404, 503 without a healthy endpoint, 502 from
   outside, or comes from a healthy endpoint of a cluster listed in the first matching route, under the configuration
   stored at one moment after the request arrived.
4. `DiscoveryRuns.EveryRunKeepsInv` and `DiscoveryRuns.EveryRunIncompleteOnlyByClusters`: discovery closure, request
   log, and missing clusters as the only way to be incomplete, over every run.
5. `Shares.SharesExactIff` and `Shares.AlwaysSharesExactlyIff`: over as many requests as the total weight, shares are
   exact without a crossing of 2^32 if and only if the total is odd or all weights are even; from every counter value if
   and only if one cluster has all the weight, or that holds and the total also divides 2^32.
6. `Mtls.FreshIffNoBar`: a request gets the client a fresh build would give, after every history of other requests, if
   and only if no bar occurs in its server name, providers or protocols.
7. `Translation.TranslationPreservesMeaning`: the translated routes select as the supported xDS routes do.

## Where a natural claim is false

- Applied configurations are not a subsequence of the published ones: `borrow` may take a newer value than the one
  `changed` announced, and that value is then applied again. `ApplyOrder.SameConfigCanBeAppliedTwice` gives the run,
  `ApplyOrder.IncreasingIffNoRace` says over the events of a run exactly when it happens, and the order never goes back
  (`ApplyOrder.AppliedFollowPublished`).
- Weighted shares per request are not exact in general, because a request takes two tickets:
  `Shares.EqualWeightsCanStarveOne` gives the requests, `Shares.SharesExactIff` the exact condition.
- Weighted round robin is not exact across a multiple of 2^32: `Picker.CrossingBreaksExactness` gives the calls,
  `Picker.AlwaysExactIff` the exact condition on the weights.
- A round of answers after an arbitrary history need not give the join: the client keeps listeners and clusters it did not
  ask for. `ServerSync.UnaskedListenerIsAccepted` and `ServerSync.UnaskedClusterStays` give the responses,
  `ServerSync.ConvergesIffNothingStray` the exact conditions for the join's listeners and for the whole join.
- The mTLS cache can return another identity's client: `Mtls.DoubleShadows` for a bar in the identity,
  `Mtls.ShiftedShadows` for a bar in a protocol, `Mtls.FreshIffNoBar` the exact condition.

## Reading notes

Type URLs are a datatype with the four known ones and any other. A resource is a record of what each of the four
decoders yields on its bytes, so a payload that decodes as several types is covered. Strings are ordered by code point,
which is the order of their UTF-8 bytes. Weight sums and the picker's cursor wrap at 32 bits, as in the release build of
`Dockerfile`; the counter wraps at 64 bits. `Rem` is the remainder by repeated subtraction, equal to `%`
(`Tickets.RemIsMod`). The certificate files and the bootstrap providers are fixed while a client pool lives.

## Model

| member | source | states |
|---|---|---|
| `Text.SortedCanonical` | crates/xds/src/client.rs:765-771 | a strictly increasing name list is determined by its members, so `sorted_unique` has one possible result |
| `Text.LessIsLexicographic` | crates/xds/src/client.rs:765-771 | the order of names is lexicographic: a text goes on after another, or is greater where they first differ |
| `Text.ParseU16Exact` | crates/xds/src/client.rs:721-730 | a text parses as a port if and only if it is the decimal numeral of one, with leading zeros and a plus sign allowed |
| `Config.ListenerConflictsExact` | crates/core/src/config.rs:36-59 | comparing each listener only with the previous one on its bind decides uniqueness and pairwise agreement |
| `Config.ListenerConflictsName` | crates/core/src/config.rs:36-59 | a listener conflict is reported if and only if some listener is at fault that way, with the names and the bind it has; a bind conflict is with the last earlier listener on the bind |
| `Config.ClusterConflictsExact` | crates/core/src/config.rs:61-69 | duplicate-cluster conflicts are absent exactly when cluster names are unique |
| `Config.ClusterConflictsName` | crates/core/src/config.rs:61-69 | a cluster name is reported if and only if it occurs twice |
| `Config.DestinationConflictsExact` | crates/core/src/config.rs:71-96 | a destination conflict is reported exactly when some route of some listener is at fault that way |
| `Config.ConflictsExact` | crates/core/src/config.rs:31-103 | no conflict is reported exactly for well-formed configurations |
| `Config.ListenerPass` | crates/core/src/config.rs:33-59 | the loop with its name set and bind map reports exactly the listener conflicts, in order |
| `Config.ClusterPass` | crates/core/src/config.rs:61-69 | the loop reports exactly the cluster conflicts and collects the cluster names |
| `Config.DestinationPass` | crates/core/src/config.rs:71-96 | the nested loops report exactly the destination conflicts, in order |
| `Config.Validate` | crates/core/src/config.rs:31-103 | Ok exactly for well-formed configurations, else the full ordered conflict list |
| `Config.FoundListener` | crates/core/src/config.rs:105-107 | the listener for a port is the first bound to it, and none only when none is |
| `Config.FoundCluster` | crates/core/src/config.rs:109-111 | the cluster for a name is the first of that name, and none only when none has it |
| `Config.DomainMatchesExact` | crates/core/src/config.rs:162-171 | a domain matches a host if and only if it is `*`, or is the host but for ASCII case, or is `*.` and a text the host ends with |
| `Config.RouteMatchesExact` | crates/core/src/config.rs:184-238 | a route matches if and only if it has no matcher, or one whose path is the exact path or a prefix of it and whose headers are all carried, names in any case, values exact |
| `Config.FindInHostsIsFirst` | crates/core/src/config.rs:113-131 | route selection is the first match in host order then route order, in terms of texts put together; none only when nothing matches |
| `Config.RouteForIsFirst` | crates/core/src/config.rs:113-131 | the route is the first match on the first listener of the port, and none only without a listener or a match |
| `Endpoints.StableSortCorrect` | crates/xds/src/client.rs:708-709 | sorted by address and port, equal keys in original order, nothing lost or added |
| `Endpoints.StableSortUnique` | crates/xds/src/client.rs:708-709 | sortedness and stability determine the result |
| `Endpoints.AssignmentMeaning` | crates/xds/src/client.rs:686-719 | the endpoints are what stands at the usable places of all localities, each place once, with its own address and port and no node name, unhealthy exactly for UNHEALTHY, DRAINING and TIMEOUT, ordered by address, port and place |
| `Endpoints.EndpointsFromAssignment` | crates/xds/src/client.rs:686-710 | the loops and the sort yield that list |
| `Translation.ConvertRouteMatchLoop` | crates/xds/src/client.rs:657-684 | the loop with early return computes the translated matcher or fails on a regular expression |
| `Translation.WeightsAreNamedClusters` | crates/xds/src/client.rs:644-652 | weighted destinations are all named clusters in order, each with its own name and weight, or weight 1 where none is given |
| `Translation.RouteMeaning` | crates/xds/src/client.rs:615-655 | a route is translated exactly if supported, matches the same requests, keeps its name, and leads to its single cluster with weight 100 or to its named clusters with their weights |
| `Translation.TranslationPreservesMeaning` | crates/xds/src/client.rs:604-684 | first match on translated hosts is the first supported xDS route that matches directly, with its destinations |
| `Translation.SelectsUnique` | crates/core/src/config.rs:121-126 | the selected host and route position is unique |
| `Translation.HostsKept` | crates/xds/src/client.rs:604-613 | translated hosts keep order, names and domains |
| `Translation.ManagersAreDecodedCandidates` | crates/xds/src/client.rs:566-602 | the managers are the API listener's and the matching filters' in order, all decoded, or failure |
| `Translation.CandidatesInOrder` | crates/xds/src/client.rs:566-591 | the candidates are the API listener's and then those of all manager filters, in chain and filter order |
| `Translation.ManagerFilterExact` | crates/xds/src/client.rs:593-598 | a filter holds a manager if and only if it has a configuration and its name contains, or its type ends with, the manager's |
| `Translation.HttpConnectionManagers` | crates/xds/src/client.rs:566-591 | the nested loops with early return compute those managers |
| `Translation.SnapshotNamesRoutes` | crates/xds/src/client.rs:530-564 | a snapshot exists exactly if all managers decode, and names exactly the route configurations they ask for |
| `Translation.SnapshotHostsJoined` | crates/xds/src/client.rs:538-547 | the inline virtual hosts are those of the decoded candidates, one after the other |
| `Translation.SnapshotPort` | crates/xds/src/client.rs:549-560 | a snapshot's listener keeps the name, binds all addresses, is HTTPS exactly on 443, without TLS secret; its port is the socket address's, else the number after the name's last colon, else 80 |
| `Translation.ListenerSnapshotLoop` | crates/xds/src/client.rs:530-564 | the loop over managers computes that snapshot |
| `Translation.AuthorityIsFourthField` | crates/xds/src/client.rs:515-520 | the authority is the text between the third bar of the name and the next one or the end, if it is not empty |
| `Translation.UpstreamTlsMeaning` | crates/xds/src/client.rs:464-513 | upstream TLS exactly for decodable TLS sockets: the given server name or the fourth field of the name, each provider from its own instance, empty names as none, the protocols |
| `Translation.EdsServiceNameMeaning` | crates/xds/src/client.rs:288-293 | the EDS name is the configured one if not empty, else the name of the cluster |
| `Discovery.OverlayLastWins` | crates/xds/src/client.rs:245-250 | a name is present exactly when some resource carries it, and the last such resource gives its value |
| `ConfigMeaning.ListenersBrought` | crates/xds/src/client.rs:245-250 | a response brings under each name the snapshot of the last listener with it |
| `ConfigMeaning.RoutesBrought` | crates/xds/src/client.rs:264-270 | the translated hosts of the last route configuration with the name |
| `ConfigMeaning.ClustersBrought` | crates/xds/src/client.rs:284-310 | EDS name and TLS of the last cluster with the name; unnamed clusters are skipped |
| `ConfigMeaning.InlineBrought` | crates/xds/src/client.rs:294-300 | the inline endpoints of the last named cluster that carries some, under its EDS name |
| `ConfigMeaning.EndpointsBrought` | crates/xds/src/client.rs:325-335 | the endpoints of the last assignment with the name; unnamed ones are skipped |
| `ConfigMeaning.OneResponseUpdates` | crates/xds/src/client.rs:239-337 | state of the world: what arrived replaces what was asked for in the map of its type, everything under an empty subscription; a cluster response also adds its inline endpoints; all else stays |
| `AdsClient.PruneRequested` | crates/xds/src/client.rs:755-763 | the empty request clears the map, any other removes exactly the requested names |
| `AdsClient.AdsState.SetSubscription` | crates/xds/src/client.rs:388-395 | stores the sorted names and reports whether they changed |
| `AdsClient.AdsState.ApplyListeners` | crates/xds/src/client.rs:239-256 | state-of-the-world update of the listeners alone, up to the first decode error; names the routes needed |
| `AdsClient.AdsState.ApplyRoutes` | crates/xds/src/client.rs:258-276 | state-of-the-world update of the routes alone, up to the first decode error; names the clusters needed |
| `AdsClient.AdsState.ApplyClusters` | crates/xds/src/client.rs:278-317 | state-of-the-world update of the clusters plus inline endpoints, up to the first decode error; names the endpoints needed |
| `AdsClient.AdsState.ApplyEndpoints` | crates/xds/src/client.rs:319-337 | state-of-the-world update of the endpoints alone, up to the first decode error |
| `AdsClient.AdsState.ApplyResponse` | crates/xds/src/client.rs:229-237 | succeeds exactly on decodable responses, applies the whole update, wants at most one subscription |
| `AdsClient.AdsState.BuildConfig` | crates/xds/src/client.rs:339-379 | listeners and clusters in key order with attached hosts and endpoints |
| `ConfigMeaning.ClusterEntry` | crates/xds/src/client.rs:355-366 | every cluster held has exactly one entry, with its TLS settings and the endpoints held under its EDS name, or none |
| `ConfigMeaning.ListenerEntry` | crates/xds/src/client.rs:340-353 | every listener held has exactly one entry: its inline hosts, then those of each named route configuration held, in name order, block by block |
| `ConfigMeaning.ConfigShape` | crates/xds/src/client.rs:339-379 | one entry per key in name order, no secrets, the version, `ads` when empty |
| `ConfigMeaning.EveryRunShows` | crates/xds/src/client.rs:339-379 | the entries of every reachable state of the stream |
| `AdsClient.SendSubscriptions` | crates/xds/src/client.rs:147-151 | resubscribes and sends a request exactly when the needed names are new |
| `AdsClient.HandleResponse` | crates/xds/src/client.rs:136-167 | one turn of the loop is one step of the stream; a decode error sends and publishes nothing |
| `AdsClient.RunOnce` | crates/xds/src/client.rs:110-171 | a connection runs the stream over the responses before the first undecodable one |
| `DiscoveryRuns.ConnectionStarts` | crates/xds/src/client.rs:116-120 | a connection starts with nothing held and one request, for the sorted listener names, with empty version and nonce |
| `DiscoveryRuns.RequestsOfOneResponse` | crates/xds/src/client.rs:136-151 | one acknowledgement with the type, version and nonce of the response, then at most one new subscription, only for changed names |
| `DiscoveryRuns.ClosedStep` | crates/xds/src/client.rs:147-151 | every response keeps the chain of subscriptions closed |
| `DiscoveryRuns.LogStep` | crates/xds/src/client.rs:118-151 | the last request for each type carries its current subscription |
| `DiscoveryRuns.EveryRunKeepsInv` | crates/xds/src/client.rs:110-171 | over every run maps are keyed by name, discovery is closed and the request log is current |
| `DiscoveryRuns.RedeliveryOnlyAcknowledges` | crates/xds/src/client.rs:136-167 | a redelivered response leaves the state, is acknowledged again and publishes nothing |
| `DiscoveryRuns.IndependentResponsesCommute` | crates/xds/src/client.rs:229-337 | LDS/CDS, LDS/EDS and RDS/EDS steps commute |
| `DiscoveryRuns.ValidatesIffComplete` | crates/xds/src/client.rs:339-379 | the configuration validates exactly when every attached destination is a known cluster |
| `DiscoveryRuns.OnlyClustersCanBeMissing` | crates/core/src/config.rs:31-103 | every conflict of a keyed state is a missing cluster |
| `DiscoveryRuns.EveryRunIncompleteOnlyByClusters` | crates/xds/src/client.rs:153-167 | both facts over every run |
| `Convergence.SyncedAgrees` | crates/xds/src/client.rs:229-337 | after any history each stage agrees with the server on every name the stage before needs |
| `Convergence.FreshStreamReachesJoin` | crates/xds/src/client.rs:339-379 | from a fresh stream the configuration equals the direct join |
| `Convergence.SyncedLooksLikeJoin` | crates/xds/src/client.rs:339-379 | after any history the listeners are the join's and reachable clusters are looked up alike |
| `Convergence.InScopeIffOnlyAsked` | crates/xds/src/client.rs:239-256 | the client holds only asked listeners if and only if no response ever brought another |
| `Convergence.ListenersMatchIffInScope` | crates/xds/src/client.rs:339-379 | the listeners reached are the join's if and only if no unasked listener was held |
| `Convergence.JoinValidates` | crates/core/src/config.rs:31-103 | the join validates exactly when every cluster led to is reached by route discovery and the server has it |
| `Convergence.RdsOnlyLeadsToReach` | crates/xds/src/client.rs:405-416 | listeners with route discovery only lead to exactly the clusters reached |
| `Convergence.SyncedValidates` | crates/xds/src/client.rs:153-167 | the configuration reached after any history validates exactly like the join, if route discovery reaches every cluster led to |
| `Convergence.ConfigIsJoinIff` | crates/xds/src/client.rs:339-379 | the configuration reached is the join if and only if no stray listener or cluster is held |
| `ServerSync.AnswerActs` | crates/xds/src/client.rs:239-337 | an answer acts as the asked part of the server's table, whatever its order and repetition |
| `ServerSync.FreshConnectionConverges` | crates/xds/src/client.rs:135-168 | a round of answers on a fresh connection leaves the join, in the watch cell if valid, and exactly when it is valid |
| `ConfigMeaning.JoinShowsCluster` | crates/xds/src/client.rs:355-366 | the join has every reached cluster of the server exactly once, with its TLS settings and the usable endpoints of the assignment under its EDS name |
| `ConfigMeaning.JoinShowsListener` | crates/xds/src/client.rs:340-353 | the join has every asked listener exactly once, with its blocks of virtual hosts |
| `ConfigMeaning.FreshConnectionShowsServer` | crates/xds/src/client.rs:135-168 | a round of answers on a fresh connection leaves a configuration that shows every reached cluster with the endpoints of its assignment |
| `ServerSync.AnyHistoryConverges` | crates/xds/src/client.rs:135-168 | if no unasked listener ever came, a round of answers after any history gives the join's listeners, shows the configuration if the join validates, and decides and validates like the join unless inline routes lead beyond route discovery |
| `ServerSync.ConvergesIffNothingStray` | crates/xds/src/client.rs:755-763 | a round of answers gives the join's listeners if and only if no unasked listener ever came, and the join if and only if also no cluster beyond the reached ones is held or asked for |
| `ServerSync.UnaskedListenerIsAccepted` | crates/xds/src/client.rs:245-250 | a response with an unasked listener is accepted and breaks the first condition |
| `ServerSync.UnaskedClusterStays` | crates/xds/src/client.rs:278-317 | a cluster nobody asked for stays through the answers of an empty server and breaks the second condition |
| `Tickets.OddPeriod` | crates/proxy/src/state.rs:77 | an odd number of tickets two apart meets each residue once |
| `Tickets.EvenPeriodSingle` | crates/proxy/src/state.rs:94-96 | an even number of tickets two apart meets one parity twice and the other never |
| `Picker.PickIsTotal` | crates/proxy/src/state.rs:69-83 | nothing is picked from an empty list; the first without a ticket if the wrapped total is zero; else the first whose wrapped running sum exceeds the ticket modulo the wrapped total, and it has a weight; overflow included |
| `Picker.ExactRoundRobin` | crates/proxy/src/state.rs:69-83 | total-many calls choose each cluster exactly its weight's number of times |
| `Picker.FairShare` | crates/proxy/src/state.rs:69-83 | any number of calls stays between the floor and the ceiling of the share |
| `Picker.CrossingBreaksExactness` | crates/proxy/src/state.rs:77 | weights 2 and 1 give 3 and 0 across a multiple of 2^32 |
| `Picker.AlwaysExactIff` | crates/proxy/src/state.rs:69-83 | round robin is exact from every counter value if and only if the total divides 2^32 or one cluster has all the weight |
| `Picker.EndpointsVisitedOnce` | crates/proxy/src/state.rs:85-97 | as many calls as healthy endpoints visit each once |
| `Picker.HealthyAt` | crates/proxy/src/state.rs:90-96 | a slot holds the healthy endpoint with exactly that many healthy ones before it |
| `Picker.FlattenThenPick` | crates/xds/src/client.rs:686-719 | the endpoints picked for an assignment are what stands at its usable places that are not UNHEALTHY, DRAINING or TIMEOUT, each once, and a turn of calls meets each once |
| `Forwarding.InputMeaning` | crates/proxy/src/server.rs:66-77 | a request is matched by the first Host header up to its colon or `*`, the path with its query or `/`, and exactly the headers that are text, in order |
| `Forwarding.ChoiceIsSafe` | crates/proxy/src/server.rs:82-107 | whatever the counter, a well-formed configuration yields a configured destination of the selected route |
| `Forwarding.ChosenEndpoint` | crates/proxy/src/state.rs:85-97 | the endpoint sent to is the healthy one with exactly as many healthy ones before it as the counter modulo their number |
| `Forwarding.DecisionIsSafe` | crates/proxy/src/server.rs:109-113 | whatever the counter then is, a healthy endpoint of that cluster, or there is none |
| `Forwarding.ReplyIsSafe` | crates/proxy/src/server.rs:63-140 | 404 exactly without a route, 503 exactly without a healthy endpoint, 502 exactly when the outside fails, else the answer of the endpoint in its slot |
| `Shares.RequestTakesTwoTickets` | crates/proxy/src/server.rs:88-113 | a served request takes two consecutive tickets: the first falls into the share of its cluster, the second numbers the healthy endpoint it is sent to |
| `Shares.SharesExactIff` | crates/proxy/src/server.rs:88-113 | over total-many requests without a crossing of 2^32, shares are exact if and only if the total is odd or all weights are even |
| `Shares.AlwaysSharesExactlyIff` | crates/proxy/src/server.rs:88-113 | from every counter value, shares are exact if and only if one cluster has all the weight, or the total divides 2^32 and is odd or has only even parts |
| `Shares.EqualWeightsCanStarveOne` | crates/proxy/src/server.rs:88-113 | two requests from counter zero both go to the first of two clusters of weight one |
| `Shares.EndpointVisits` | crates/proxy/src/server.rs:109-113 | of n requests on a lone cluster the endpoint at each healthy position is sent one if n is odd, else two or none by its parity |
| `Proxy.ProxyState.constructor` | crates/proxy/src/state.rs:27-36 | starts with the initial configuration, not ready, counter at zero |
| `Proxy.ProxyState.ApplyConfig` | crates/proxy/src/state.rs:38-55 | well-formed configurations replace the current one and make it ready; others keep it and clear readiness |
| `Proxy.ProxyState.ChooseWeighted` | crates/proxy/src/state.rs:69-83 | the wrapping sum and cursor loops compute the pick and advance the counter |
| `Proxy.ProxyState.ChooseHealthy` | crates/proxy/src/state.rs:85-97 | the pick among healthy endpoints and the advanced counter |
| `Proxy.Forward` | crates/proxy/src/server.rs:63-113 | the stateful path computes the decision, safe for well-formed configurations |
| `Mtls.BuildMeaning` | crates/proxy/src/server.rs:292-335 | a client is built if and only if the files of both providers, `default` where none is given, are named and load, and from these and the server name |
| `Mtls.KeySpelled` | crates/proxy/src/server.rs:357-365 | the key is server name, both provider names and the joined protocols, with bars between |
| `Mtls.KeyNamesBarFree` | crates/proxy/src/server.rs:357-365 | a key determines a bar-free identity and its protocol list |
| `Mtls.KeyRebuilds` | crates/proxy/src/server.rs:357-365 | every key is also the key of some bar-free identity |
| `Mtls.CachedIsFresh` | crates/proxy/src/server.rs:269-291 | over any bar-free history the cached client equals a fresh build |
| `Mtls.DoubleShadows` | crates/proxy/src/server.rs:269-291 | an identity with a bar can be answered with another identity's client |
| `Mtls.ShiftedShadows` | crates/proxy/src/server.rs:357-365 | so can a request with a bar in a protocol, whatever its identity |
| `Mtls.NoBarIsFresh` | crates/proxy/src/server.rs:269-291 | a request without any bar gets a fresh client after every history, bars in other requests included |
| `Mtls.FreshIffNoBar` | crates/proxy/src/server.rs:269-314 | for every set-up and history cached equals fresh, if and only if the request has no bar in server name, providers or protocols |
| `Mtls.MtlsClientPool.GetClient` | crates/proxy/src/server.rs:269-291 | returns the cached client or builds and caches one, failures uncached |
| `Gateway.ReceiveStepDelivers` | crates/xds/src/client.rs:135-168 | the gateway's receive step is the stream's turn |
| `GatewayRuns.ApplyStepKeeps` | crates/proxy/src/state.rs:42-54 | each separate write keeps the stored configuration well formed and readiness in step with acceptance |
| `GatewayRuns.WritesTogether` | crates/proxy/src/state.rs:38-55 | the separate writes together store a well-formed configuration ready and without conflicts, and of any other only its conflicts |
| `GatewayRuns.StaticAccepted` | crates/app/src/main.rs:98-103 | start-up stores an accepted static configuration |
| `GatewayRuns.StaticIsSent` | crates/app/src/main.rs:101-104 | and then publishes it |
| `GatewayRuns.StaticRejected` | crates/app/src/main.rs:98-101 | a rejected one is not published |
| `GatewayRuns.UndecodableEndsStream` | crates/xds/src/client.rs:135-137 | a response that does not decode ends the stream and changes nothing else |
| `GatewayRuns.EveryRunKeepsInv` | crates/app/src/main.rs:84-123 | the invariant of cell, tasks, proxy, readers and requests over all interleavings |
| `GatewayRuns.ReadinessIsMonotone` | crates/proxy/src/state.rs:38-67 | the stored configuration always validates, readiness is never lost and means an accepted configuration |
| `GatewayRuns.ReadersSeeAcceptedVersions` | crates/proxy/src/state.rs:61-67 | a reader that saw readiness reports an accepted version and no conflicts |
| `GatewayRuns.ReportWasRead` | crates/proxy/src/state.rs:61-67 | a report is readiness, version and conflicts as stored at three successive moments |
| `GatewayRuns.UndisturbedRequest` | crates/proxy/src/server.rs:63-113 | a request whose steps run undisturbed is decided, and moves the counter, as the forwarding path does |
| `GatewayRuns.EveryRequestIsSafe` | crates/proxy/src/server.rs:63-113 | each request is decided safely under the configuration stored at one moment after its arrival |
| `GatewayRuns.EveryReplyIsSafe` | crates/proxy/src/server.rs:63-140 | the same for replies, over all interleavings |
| `GatewayRuns.QuiescentProxyServesLatest` | crates/app/src/main.rs:89-96 | at rest after a publication the proxy serves the last one |
| `ApplyOrder.AppliedFollowPublished` | crates/app/src/main.rs:89-96 | the versions applied are publications and never go back |
| `ApplyOrder.RoundAppliesItsPublication` | crates/app/src/main.rs:90-95 | a round applies the publication it borrowed and is never rejected |
| `ApplyOrder.IncreasingIffNoRace` | crates/app/src/main.rs:89-96 | the applied versions strictly increase if and only if no configuration is sent between wake-up and borrow and is still the latest at the borrow of a later round |
| `ApplyOrder.SameConfigCanBeAppliedTwice` | crates/app/src/main.rs:90-91 | a run in which that happens |
| `GatewayRuns.PublishedFromDecodedOnly` | crates/xds/src/client.rs:99-171 | what the stream publishes comes from fully decoded responses of one connection only |
| `EndToEnd.ScheduleMirrors` | crates/xds/src/client.rs:135-168 | whatever the apply task, readers and requests do before, between and after the answers, the stream goes the way of the answers alone |
| `EndToEnd.ServerTablesReachTheProxy` | crates/app/src/main.rs:84-123 | server tables, stream, watch cell and apply task together make the proxy decide as the join, under any interleaving with task turns, readers and requests |
| `EndToEnd.NineTurnsServeLatest` | crates/app/src/main.rs:89-96 | nine turns of the apply task, however interleaved with readers and requests, make the proxy serve the last publication |
| `EndToEnd.NineTurnsReachTheProxy` | crates/app/src/main.rs:84-123 | so nine turns after the last of four interleaved answers the proxy decides as the join |
| `EndToEnd.TheoremApplies` | crates/app/src/main.rs:84-123 | a run, a server and a schedule that meet the hypotheses of the theorem |

## Left out

- Connecting, back-pressure, sleeping and retry timing: a stream opens, ends at any time, and starts afresh.
- Wire decoding: a partial function, given by what each decoder yields.
- TLS handshakes, certificate parsing and HTTP clients: foreign code, represented by what they answer.
- The end of the apply task when the discovery client exits for an invalid endpoint: nothing is published afterwards.
- Poisoning of the client cache's lock.
- The upstream URI and the removed Host header: whether the URI parses is an input, what it says is not modelled.
- Admin endpoints, command line and bootstrap overrides, file parsing, node identity, logs, message texts: plumbing.
- Secrets, delta discovery and TLS listeners: declared in the protocol files but not used by the client.
- EndToEnd.NineTurnsReachTheProxy: asks for something published, or a last answer whose version is not "bootstrap"; a configuration equal to the bootstrap one is never sent.
