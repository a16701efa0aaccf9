# Routers and a reliable file transfer, verified

The repository holds three course projects on computer networks. This project models the hard parts of two of
them in Dafny and proves what they are for:

* **A router** (`project3`) that finds routes either by link state (flooded LSPs and Dijkstra's search) or by distance
  vector (asynchronous Bellman-Ford with poison reverse, triggered updates and timers), and the discrete-event loop
  that runs a network of such routers.
* **A file transfer over UDP** (`project2`): stop-and-wait with sequence numbers modulo 128, guarded by a CRC-32.

The handlers are methods, with the loops of the source, proved against functions on tables; network theorems are
about all runs of these functions. In `flooding`, `flood_cost`, `flood_ends`, `dv_async` and `dv_ordered` packets are in
flight: `dv_async` lets them be late, lost, repeated and reordered, `dv_ordered` late and lost. In `dv_convergence` and
`dv_schedules` a packet is delivered as soon as it is built. Loops over `unordered_map` pick their entries in any order,
so every result holds whatever the order. Numbers of 16 bits are a subset type, and every place where the program
truncates says so.

| files | content |
|---|---|
| `options`, `collections`, `words`, `sums`, `walks` | options, sequences and sets, 16-bit numbers, sums over maps, walks and distances in weighted graphs |
| `router_tables`, `contacts` | the tables all routers keep, and what they all do with pongs and silent neighbours |
| `dijkstra`, `search_runs`, `link_state` | the steps of the search, its whole runs, and its loops |
| `ls_router`, `ls_forwarding` | the link-state router, and forwarding in a converged network |
| `flooding`, `flood_cost`, `flood_ends` | what a flood reaches, what it costs, and that it ends |
| `dv_tables`, `dv_handlers`, `dv_router`, `dv_packet` | the distance-vector router and its packets as bytes |
| `dv_effects` | what its handlers and packets mean, entry by entry and in plain numbers |
| `dv_static`, `dv_convergence`, `dv_schedules` | networks of distance-vector routers: what every reception keeps, where deliveries end, and how soon |
| `dv_async`, `dv_ordered`, `dv_overtaking` | the same networks with packets in flight, reordered or in order, and what goes wrong when one overtakes another |
| `dv_timing`, `dv_undershoots`, `dv_simulated` | one distance-vector router in time, alone and in the event loop |
| `event_queue`, `simulation` | the priority queue and the event loop |
| `folding`, `crc32` | checksums in the abstract, and the CRC-32 of the transfer |
| `octets`, `transfer_packet`, `transfer_ends`, `stop_and_wait` | bytes, packets, the two ends, and runs of the protocol |

## Where the program departs from what one would expect

The model follows the program, and these are results, not repairs:

* A sum that does not fit 16 bits is stored truncated by the search (project3/LSImpl.cc:112-113). The table is right if
  and only if no stored sum was truncated, for every graph. With positive costs that is the case if and only if
  `Dijkstra.Exceeds` does not hold, a condition on true distances that a caller can check; with free links there is one
  condition for each direction (`LinkState.SearchFinds`).
* `del_node` drops edges whose *cost* equals the node's number (project3/LSImpl.cc:139); `LsRouter.DelNodeIsRight` says
  when these are the right ones, and `LsRouter.WrongEdgeGoes` is an input where they are not.
* The body of an LSP names one neighbour in every slot (project3/LSImpl.cc:68-75). It is complete if and only if there is
  at most one (`LsRouter.BodyIsComplete`), and `LsRouter.OrderMatters` is a row of three routers in which the order of
  the LSPs decides whether one end can reach the other.
* The LSP number is kept in 64 bits and sent in 16: knowledge of the newest LSP lasts exactly as long as a source has
  sent at most 65536 of them (`Flooding.QuietMeansKnown`). Once the last number has spread, nobody accepts an LSP of this
  source again (`Flooding.NothingLearntAgain`).
* Link-state mode does not compute the routing table anew on a pong or a timeout, and a pong from a known neighbour
  without a route leaves a route over router 0 (project3/RoutingProtocolImpl.cc:142).
* The route to a neighbour is adjusted twice when its round-trip time changes; `DvHandlers.OwnRouteOvershoots` says
  for every pong exactly when it ends up right. A time that falls, but not to less than half, leaves it wrong in runs
  that do occur (`DvUndershoots.TwoPongs`).
* The event queue compares times only (project3/Simulator.h:9-13), so two DV packets sent over one link in the same
  millisecond may change places. Then two routers can end up sending data to each other
  (`DvOvertaking.OvertakingLoops`); in order, they cannot (`DvOrdered.NoLoopInFlight`).
* The end marker of a transfer is looked for before the checksum is (project2/recvfile.c:94-117), so one damaged byte
  can end a transfer early for the receiver (`StopAndWait.ForgedEnd`), but never for the sender
  (`StopAndWait.WholeFile`). An empty file leaves an older file of its name in place.
* The README of `project2` gives 64 bytes for the header and 40 for the directory name, and says that the receiver
  gives up after 100 seconds. The code has 74 and 50 bytes, and it starts to wait again.

## Model

| member | source | states |
|---|---|---|
| LinkState.ShortestPaths | project3/LSImpl.cc:80-132 | the routing table is what a whole run of the search leaves, whose every pop, edge and sum is recorded; there is a route to exactly the other reachable nodes, and the costs are the true distances if and only if no sum of that run was truncated; exactly the rows of the nodes found are looked up |
| LinkState.Start | project3/LSImpl.cc:92-103 | one queue entry for each neighbour, at the cost of the link, with the neighbour as first hop |
| LinkState.Expand | project3/LSImpl.cc:111-118 | the edges of a row are followed, each once, in any order, and their ends are found |
| LinkState.Visit | project3/LSImpl.cc:106-119 | an unvisited node on top of the queue is marked, its row looked up and all its edges followed |
| LinkState.Pop | project3/LSImpl.cc:106-120 | a least key is popped, and the run is one turn longer; each turn visits a new node or shortens the queue, in spite of stale entries |
| LinkState.MainLoop | project3/LSImpl.cc:105-120 | the loop ends with an empty queue, its turns replay as a run of the search, and it has found exactly what is reachable |
| LinkState.FillRoutes | project3/LSImpl.cc:122-130 | the routing table is what the search found, without the router itself |
| LinkState.SearchFinds | project3/LSImpl.cc:105-130 | every run that empties the queue, in whatever order it follows the edges, covers exactly what is reachable and expands each node once; its costs are the true distances if and only if none of its sums was truncated, and then nodes are expanded at their final costs, nearest first; none is truncated if simple walks fit 16 bits, with positive costs exactly when no edge exceeds them, and with any costs none if all nearest nodes that lead to a node are near enough and some if all of them are too far |
| LinkState.FinishedEnd | project3/LSImpl.cc:105-130 | the same of the search invariant with an empty queue |
| SearchRuns.FollowKeeps | project3/LSImpl.cc:111-118 | following the edges of a node keeps the search invariant, which stays exact exactly while no stored sum is truncated |
| SearchRuns.RunKeeps | project3/LSImpl.cc:105-120 | so does every run |
| SearchRuns.ExpansionsKept | project3/LSImpl.cc:106-119 | while no sum is truncated a node keeps the distance at which it was expanded |
| SearchRuns.BoundedEdgesNeverTruncate | project3/LSImpl.cc:81-84 | if edges cost at most w and (n - 1) * w fits 16 bits, no sum that any run stores is truncated |
| LinkState.FinishedWithin | project3/LSImpl.cc:112-113 | a search that truncated nothing has met no edge that exceeds 16 bits |
| LinkState.TwoLongLinks | project3/LSImpl.cc:112-113 | two links of 40000 in a row exceed 16 bits |
| Dijkstra.OverrunDooms | project3/LSImpl.cc:112-113 | the first truncated sum is less than any walk to its node costs |
| Dijkstra.OverrunExceeds | project3/LSImpl.cc:112-113 | with positive costs the first truncation shows an edge that exceeds 16 bits |
| Dijkstra.OverrunOvershoots | project3/LSImpl.cc:112-113 | with any costs the first truncation shows a node too far from one that it leads to, though nothing nearer does |
| Dijkstra.FitsOneMore | project3/LSImpl.cc:106-118 | while nothing is truncated, some nearest visited node that leads to a node is near enough |
| LinkState.FinishedFits | project3/LSImpl.cc:105-120 | a finished search that truncated nothing has, for every node, a nearest node leading to it that is near enough |
| Dijkstra.ExpandingStep | project3/LSImpl.cc:111-118 | one relaxation keeps the search invariant, truncated or not |
| Dijkstra.PopLeast | project3/LSImpl.cc:106-107 | the top of the queue, if unvisited, carries its node's current distance, which is least |
| Dijkstra.ClosedReaches | project3/LSImpl.cc:105-120 | a finished search has found wherever a walk leads |
| Dijkstra.RelaxedBelow | project3/LSImpl.cc:111-113 | finished distances are no longer than any walk |
| Dijkstra.BoundedEdgesFit | project3/LSImpl.cc:81-84 | if edges cost at most w and (n - 1) * w fits 16 bits, every simple walk fits |
| LsForwarding.SearchedConverges | project3/LSImpl.cc:80-132 | routers that have run the search on the same symmetric costs hold shortest routes to all that is reachable if and only if no edge exceeds 16 bits for any of them |
| LsForwarding.HopGetsCloser | project3/RoutingProtocolImpl.cc:184-193 | a hop lowers the remaining distance by exactly the cost of the link taken |
| LsForwarding.Journey | project3/RoutingProtocolImpl.cc:175-195 | hop by hop a data packet reaches its destination over a shortest walk |
| LsForwarding.DeliveredOrDropped | project3/RoutingProtocolImpl.cc:175-195 | in a converged network every packet for a reachable router arrives over a shortest walk, and every other one is dropped at once |
| RouterTables.SentToHop | project3/RoutingProtocolImpl.cc:175-195 | with consistent tables a data packet leaves on a port if and only if it is for somebody else, there is a route, and the port leads to its hop |
| LsRouter.Router.constructor | project3/RoutingProtocolImpl.cc:13-36 | a router starts with empty, consistent tables |
| LsRouter.Router.UpdateForwardingTable | project3/LSImpl.cc:80-132 | the routing table is the outcome of a run of the search over the tables; looked-up rows are left in the graph |
| LsRouter.OutcomeFinds | project3/LSImpl.cc:80-132 | every such outcome has exactly the reachable routers, at true distances if and only if no sum was truncated |
| LsRouter.Router.DelNode | project3/LSImpl.cc:134-146 | the row of the node goes, and all edges whose cost equals its number |
| LsRouter.DelNodeIsRight | project3/LSImpl.cc:139 | these are the edges to the node if and only if exactly the edges to it cost its number |
| LsRouter.WrongEdgeGoes | project3/LSImpl.cc:139 | removing node 2 keeps the edge to it and drops an edge that costs 2 |
| LsRouter.Router.AddEdge | project3/LSImpl.cc:148-152 | looked up in either direction, the edge is there with a new deadline; every other look-up is as before |
| LsRouter.Router.EnterLinks | project3/LSImpl.cc:23-29 | the links of an LSP are entered in turn |
| LsRouter.Router.SendLs | project3/LSImpl.cc:36-47 | one copy goes to every neighbour except the one behind the port of arrival |
| LsRouter.FloodReaches | project3/LSImpl.cc:36-47 | the copies of a flood leave on the ports that lead to all neighbours but the one it came from, and on no others |
| LsRouter.FloodSkipsIngress | project3/LSImpl.cc:36-47 | a flood skips exactly the neighbour it came from, and nobody when it starts here |
| LsRouter.Router.RecvLs | project3/LSImpl.cc:6-34 | a stale LSP changes nothing; a fresh one is recorded, entered, searched with and passed on |
| LsRouter.LearntLooksUp | project3/LSImpl.cc:23-29 | for every pair of nodes, what an LSP leaves of the edge: the last entry about it, or, without one, what is left when the row of the source and the edges that cost its number are gone |
| LsRouter.Router.UpdateLs | project3/LSImpl.cc:49-78 | the own links are entered anew, everything learnt about other links stays but for edges that cost the own number, and an LSP with the next number, in 16 bits, goes to every neighbour; its body names one neighbour in every slot |
| LsRouter.OwnLinksLookUp | project3/LSImpl.cc:49-56 | for every pair of nodes, what is left of the edge when the own links are entered anew |
| LsRouter.Body | project3/LSImpl.cc:68-75 | the nested loop leaves the neighbour iterated last in every slot |
| LsRouter.BodyIsComplete | project3/LSImpl.cc:68-75 | such a body names every neighbour if and only if there is at most one |
| LsRouter.OrderMatters | project3/LSImpl.cc:6-34 | in a row of three routers, one end reaches the other or not depending on the order in which it takes two LSPs that the program may send |
| LsRouter.Router.RecvPong | project3/RoutingProtocolImpl.cc:125-173 | in link-state mode: a pong for another router is ignored; otherwise neighbour and port table stay inverse, a new cost is announced, learnt links stay, the routing table is not computed anew but may get an entry for the neighbour |
| LsRouter.LookedUpRouteMisleads | project3/RoutingProtocolImpl.cc:142 | such an entry sends data the right way only if the neighbour is router 0 |
| LsRouter.Router.Expire | project3/RoutingProtocolImpl.cc:223-233 | exactly the timed-out edges go |
| LsRouter.UnexpiredLooksUp | project3/RoutingProtocolImpl.cc:223-233 | an edge is left if and only if its time has not come, and is unchanged then |
| LsRouter.Router.UpdateTimeout | project3/RoutingProtocolImpl.cc:197-238 | in link-state mode: exactly the silent neighbours, their ports and the timed-out edges go, and any loss is announced |
| Flooding.RunCovers | project3/LSImpl.cc:11-19 | in every run of at most 65536 LSPs of a source, a neighbour that lags behind has a copy of the newest one coming |
| Flooding.QuietMeansKnown | project3/LSImpl.cc:8-19 | when nothing of a source is in flight, routers linked to it hold the highest number it has sent if and only if it has sent at most 65536 |
| Flooding.NothingLearntAgain | project3/LSImpl.cc:8-19 | once a source has sent 65536 LSPs and they have spread, no router linked to it accepts one of its LSPs in any continuation |
| FloodEnds.DeliveriesEnd | project3/LSImpl.cc:8-47 | from any state, a run of deliveries alone is no longer than the packets in flight and the numbers still to be accepted allow |
| FloodEnds.QuietRun | project3/LSImpl.cc:8-47 | from any state, however many LSPs a source sends, there is a run after which nothing is in flight |
| FloodCost.AcceptsOnce | project3/LSImpl.cc:11-19 | a router accepts a given LSP at most once |
| FloodCost.RunBalances | project3/LSImpl.cc:36-47 | copies delivered, in flight and still to come add up, in every run |
| FloodCost.Handshake | project3/LSImpl.cc:36-47 | the copies still to come of a new LSP, less those of its source, are 2 * links - routers |
| FloodCost.FloodIsBounded | project3/LSImpl.cc:36-47 | in every run one LSP is transmitted at most deg(source) + 2 * links - (routers with a link) times; each time its number is used again adds at most deg(source) |
| DvTables.MergeOne | project3/DVProImp.cc:47-78 | one entry of a packet changes one entry of the table, so the order of the entries does not matter |
| DvEffects.PacketSays | project3/DVProImp.cc:110-122 | a packet offers every destination at its own cost, but as out of reach to the router that it is reached over |
| DvEffects.NeverGivenBack | project3/DVProImp.cc:115-118 | what a router sends changes nothing at its receiver about a destination that it reaches over the receiver |
| DvTiming.LostStaysLost | project3/DVProImp.cc:115-118 | in every run a lost destination is not restored by routers that reach it over this router, whatever they send and whatever else happens |
| DvRouter.BuildVector | project3/DVProImp.cc:110-122 | the loop builds this packet, in any order of the routes |
| DvEffects.PacketTakes | project3/DVProImp.cc:47-78 | an offer is taken if there is no route, one over the sender, or a dearer one; it becomes the route at the sum in 16 bits, dated anew; every other entry stays |
| DvEffects.PacketDirects | project3/DVProImp.cc:40-46 | a dearer route to the sender over somebody else becomes the direct one at the cost the sender gives |
| DvRouter.Merge | project3/DVProImp.cc:47-78 | the loop installs the picked routes, stamps the confirmed ones, and reports a change exactly when the table has changed |
| DvRouter.ReceiveVector | project3/DVProImp.cc:40-78 | both updates of a reception together |
| DvRouter.HandleDv | project3/DVProImp.cc:20-78 | a packet from no neighbour changes nothing; a change of the table is noticed exactly |
| DvRouter.AdjustAll | project3/DVProImp.cc:145-159 | the loop adjusts every route once, in any order |
| DvRouter.UpdateRoutes | project3/DVProImp.cc:126-162 | what a new cost of a link does to the routes and their stamps |
| DvRouter.HandlePong | project3/RoutingProtocolImpl.cc:125-173 | the neighbour is entered; the routes are touched only when the cost of the link has changed |
| Contacts.Bury | project3/RoutingProtocolImpl.cc:203-214 | exactly the silent neighbours and their ports go |
| Contacts.RttIsRight | project3/RoutingProtocolImpl.cc:133 | the time between ping and pong is right if and only if it fits 16 bits |
| Contacts.MetWired | project3/RoutingProtocolImpl.cc:125-155 | a pong keeps neighbour and port table inverse to each other and true to the wiring |
| Contacts.BuriedWired | project3/RoutingProtocolImpl.cc:203-214 | so does the removal of silent neighbours |
| DvRouter.EraseDv | project3/DVProImp.cc:192-212 | the loop withdraws the routes over dead neighbours, in any order |
| DvEffects.CheckKeepsNeighbors | project3/RoutingProtocolImpl.cc:203-214 | a check leaves exactly the neighbours that have answered lately |
| DvEffects.CheckKeepsRoutes | project3/DVProImp.cc:164-212 | a route over a neighbour that has answered lately, direct or confirmed lately, stays; every other one becomes the direct link to a living neighbour, or goes |
| DvEffects.CheckStamps | project3/DVProImp.cc:164-212 | after a check direct routes are dated anew and the others keep their dates |
| DvEffects.CheckTells | project3/DVProImp.cc:164-212 | a check is made known if and only if some route does not last |
| DvRouter.RefreshAll | project3/DVProImp.cc:164-184 | direct routes are renewed, expired ones become direct links or go |
| DvRouter.HandleTimeout | project3/RoutingProtocolImpl.cc:197-221 | the passes of the check in turn, and whether it has lost a route |
| DvRouter.LosesOrKeeps | project3/DVProImp.cc:164-212 | a check that loses no route changes none |
| DvRouter.BuildPackets | project3/DVProImp.cc:89-94 | one packet for each neighbour, all from the same table |
| DvEffects.BroadcastReaches | project3/DVProImp.cc:89-94 | every neighbour, and nobody else, gets its packet, on the port that leads to it |
| DvRouter.Router.constructor | project3/RoutingProtocolImpl.cc:13-19 | a router starts with empty, consistent tables |
| DvRouter.Router.Send | project3/DVProImp.cc:89-94 | a broadcast goes out |
| DvRouter.Router.RecvDv | project3/DVProImp.cc:20-87 | all tables stay consistent, and the final table is sent to every neighbour exactly when the packet has changed it |
| DvRouter.Router.RecvPong | project3/RoutingProtocolImpl.cc:125-173 | all tables stay consistent; a pong for another router is ignored; a new cost is followed by a broadcast of the final table |
| DvRouter.Router.UpdateTimeout | project3/RoutingProtocolImpl.cc:197-221 | all tables stay consistent, and a lost route is made known at once |
| DvRouter.Router.ForwardData | project3/RoutingProtocolImpl.cc:175-195 | a data packet is sent on exactly when there is a route, to the router that is the next hop |
| DvHandlers.DvKeeps | project3/DVProImp.cc:20-87 | a DV packet keeps neighbour and port table inverse, every neighbour routed, every route stamped and its hop alive |
| DvHandlers.PongKeeps | project3/RoutingProtocolImpl.cc:125-173 | so does a pong |
| DvHandlers.TimeoutKeeps | project3/RoutingProtocolImpl.cc:197-221 | so does the check of the timeouts |
| DvHandlers.FoundIsSent | project3/RoutingProtocolImpl.cc:184-193 | in a consistent state a route that is found can be sent on |
| DvHandlers.AdjustOne | project3/DVProImp.cc:147-158 | one turn of the loop changes one route, so the order does not matter |
| DvHandlers.PongAdjusts | project3/DVProImp.cc:126-162 | every route is visited once, the neighbour's own with the new cost already in |
| DvEffects.PongEnters | project3/RoutingProtocolImpl.cc:125-155 | a pong enters its sender, with its time and for 15 seconds, and no other neighbour |
| DvEffects.PongMoves | project3/DVProImp.cc:145-159 | a new time moves routes over the neighbour by the difference, in 16 bits, and cheaper direct links take over |
| DvEffects.PongMovesOwn | project3/DVProImp.cc:134-157 | the neighbour's own route moves once more from the new time on, unless that makes it dearer |
| DvEffects.PongStamps | project3/DVProImp.cc:134-157 | exactly the routes that have moved are dated anew |
| DvHandlers.RiseShifts | project3/DVProImp.cc:145-159 | when a round-trip time rises without wrapping, the neighbour's route is the new time, routes over it shift by exactly the rise, and neighbours with a cheaper direct link fall back to it |
| DvHandlers.OwnRouteOvershoots | project3/DVProImp.cc:126-162 | for every pong: if the loop runs, the neighbour's own route ends at the new time if and only if the old and new times satisfy a given inequality; otherwise a missing route is entered and no other changes |
| DvHandlers.FallUndershoots | project3/DVProImp.cc:134-157 | a link of 20 ms that becomes one of 10 ms leaves a route of cost 0 |
| DvHandlers.UndercutUndershoots | project3/DVProImp.cc:134-157 | a neighbour reached at 30 over another one gets a route of cost 10 when its own link falls to 20 ms |
| DvUndershoots.TwoPongs | project3/DVProImp.cc:126-162 | legal runs with two pongs, of any times up to a second, ten seconds apart: the route is right if and only if the time has not fallen, or has fallen to less than half |
| DvUndershoots.CheckIsSteady | project3/RoutingProtocolImpl.cc:197-221 | a check at which nothing is over changes nothing but the stamps of direct routes |
| DvStatic.AcceptCases | project3/DVProImp.cc:40-76 | what an entry can be after a packet that says what its sender once knew, and that no cost rises |
| DvStatic.AcceptInv | project3/DVProImp.cc:20-87 | such a packet, if no older than the routes over its sender, keeps costs that are lengths of walks and fall along the hops, and neither loses a route nor raises a cost |
| DvStatic.FreshIsAcceptable | project3/DVProImp.cc:110-122 | a packet just built is of this kind |
| DvStatic.DeliverInv | project3/DVProImp.cc:20-87 | so every delivery of a packet just built keeps all this |
| DvConvergence.Way | project3/RoutingProtocolImpl.cc:184-193 | the hops lead to the destination, with the stored cost falling at each |
| DvConvergence.NoForwardingLoop | project3/DVProImp.cc:115-118 | after any schedule of packets delivered as soon as they are built, following next hops to a known destination passes no router twice and gets there |
| DvConvergence.StableIsShortest | project3/DVProImp.cc:40-76 | a state that no delivery changes has exactly the shortest distances, although poisoned entries are skipped |
| DvConvergence.ShortestIsStable | project3/DVProImp.cc:40-76 | shortest tables are changed by no delivery |
| DvConvergence.StableIffShortest | project3/DVProImp.cc:20-87 | both directions, after any schedule of packets delivered as soon as they are built |
| DvConvergence.AbsorbedIsShortest | project3/DVProImp.cc:40-76 | where every router knows what its neighbours know, all tables are shortest |
| DvConvergence.DeliverProgresses | project3/DVProImp.cc:65-77 | a delivery that changes something finds a missing route or lowers the sum of the costs |
| DvSchedules.EffectiveBelow | project3/DVProImp.cc:65-77 | in any schedule of deliveries, those with an effect are paid for by the potential of the tables |
| DvSchedules.FewAreEffective | project3/DVProImp.cc:20-87 | of any schedule, however long, at most n * n * 65535 deliveries have an effect |
| DvSchedules.Settles | project3/DVProImp.cc:20-87 | from any state of the invariant a schedule of deliveries, each with an effect in its turn, leads to shortest tables |
| DvSchedules.RoundsExtend | project3/DVProImp.cc:40-76 | once every link has been used in each of k rounds, in whatever order, all walks over at most k + 2 routers are accounted for |
| DvSchedules.RoundsSuffice | project3/DVProImp.cc:20-87 | after n - 2 such rounds all tables are shortest, and no delivery changes them |
| DvOrdered.RunInv | project3/DVProImp.cc:20-94 | with packets in flight, late and lost but in order on each link, every run keeps what `DvStatic.AcceptInv` does: no cost ever rises, and the cost at the hop plus the link is at most the own cost |
| DvOrdered.NoLoopInFlight | project3/DVProImp.cc:115-118 | so at any time following next hops to a known destination passes no router twice and gets there |
| DvOrdered.RunTells | project3/DVProImp.cc:80-94 | while nothing is lost, every router knows what its neighbours know, or a packet that says so is on its way |
| DvOrdered.QuietIsShortest | project3/DVProImp.cc:80-94 | when nothing has been lost and nothing is on its way, all tables are shortest |
| DvOrdered.RunsEnd | project3/DVProImp.cc:80-94 | broadcasts that follow changes die out: a run is no longer than the first packets, n * n * n * 65535 and twice the periodic packets allow |
| DvOrdered.RunsConverge | project3/DVProImp.cc:20-94 | from every state of a run without losses the packets can arrive, and all tables are shortest then |
| DvOvertaking.OvertakingLoops | project3/Simulator.h:9-13 | a run with a packet overtaken on its link after which two routers send data to each other |
| DvAsync.CostsAreWalks | project3/DVProImp.cc:31-76 | with packets lost, repeated and reordered, stored and advertised costs are lengths of real walks, modulo 65536 in any run and exactly in one where no sum wraps |
| DvAsync.NeverBelowDistance | project3/DVProImp.cc:31-76 | while no sum wraps, none of them is below the true distance |
| DvPacket.Pack | project3/DVProImp.cc:99-124 | up to 16381 entries, byte by byte: type, size, source and destination, then id and cost of every route, high bytes first, with the infinite cost where the route goes over the receiver |
| DvPacket.Parse | project3/DVProImp.cc:31-35 | the parse reads every entry, later ones replacing earlier |
| DvPacket.RoundTrip | project3/DVProImp.cc:99-124 | the receiver's parse is exactly the advertised table |
| DvTiming.RunInv | project3/RoutingProtocolImpl.cc:62-65 | at no time has a deadline been over at the last check |
| DvSimulated.TimelineIsLegal | project3/Simulator.cc:312-333 | what any history of the event loop brings a router is a legal run: time never passes the pending check, and checks take place exactly when their alarm goes off |
| DvSimulated.SimulatedIsFresh | project3/RoutingProtocolImpl.cc:62-65 | at every loop head of the event loop the next check of every router is the alarm that waits in the queue, and nothing in its tables is too old |
| DvTiming.NothingIsOld | project3/RoutingProtocolImpl.cc:197-221 | no neighbour is 16000 ms past its last pong, and no route 46000 ms past the last event that confirmed it |
| DvTiming.AnsweredStays | project3/RoutingProtocolImpl.cc:197-221 | a neighbour that at every check has answered within 15000 ms is never dropped nor left without a route |
| DvTiming.SilenceBoundIsExact | project3/RoutingProtocolImpl.cc:206-214 | 15999 ms of silence are possible |
| EventQueue.SiftUp | project3/Simulator.h:9-13 | the heap is restored with the event in it, and one that is no earlier than the root does not get above it |
| EventQueue.Push | project3/Simulator.cc:28-32 | exactly the event is added, and the root stays if the event is no earlier |
| EventQueue.Pop | project3/Simulator.cc:324 | exactly the root is removed |
| EventQueue.RootIsLeast | project3/Simulator.cc:318 | the root is an earliest event |
| Simulation.Simulator.constructor | project3/Simulator.cc:34-44 | the events of the configuration and the first packets of all routers are waiting, and every router starts with one alarm of each of its three kinds pending |
| Simulation.Simulator.RingAlarm | project3/RoutingProtocolImpl.cc:39-66 | an alarm that goes off sends its packets and is set again, a period later |
| Simulation.Simulator.Spawn | project3/Event.cc:9-68 | what each kind of event adds to the queue, while it is still in the queue itself |
| Simulation.PacketArrives | project3/Event.cc:22-38 | in every run a packet put on a link is received exactly once, when the delay that the link had then is over, if the link was up then and did not lose it, and never otherwise; both as the dispatched events tell |
| Simulation.RouterSends | project3/Event.cc:18-68 | in every run whatever a router answers to an event is put on its link at the same time |
| Simulation.Simulator.Turn | project3/Simulator.cc:316-330 | the earliest event is dispatched, what it leads to enters the queue, and then it, and no other, leaves |
| Simulation.Simulator.Run | project3/Simulator.cc:312-333 | at every loop head: dispatched in the order of time, none twice, every event made either waiting or dispatched, and one alarm of each kind pending for every router; the loop ends when nothing is left or the stop time has passed |
| Simulation.AlarmKept | project3/RoutingProtocolImpl.cc:39-66 | an alarm stays pending exactly once through any dispatch |
| Simulation.PunctualKept | project3/Simulator.cc:316-330 | no event is dispatched after an alarm that was due before it |
| Simulation.NextAlarm | project3/Simulator.cc:28-32 | the next alarm of a kind is due within a period, at a multiple of the period that counts how often it has gone off |
| Folding.WindowDifference | project2/recvfile.c:22-30 | states that agree after a window differ before it by exactly what the windows differ by |
| Folding.FoldInjective | project2/recvfile.c:22-30 | feeding the same symbols keeps different states apart |
| Crc32.MaskSelects | project2/recvfile.c:27-28 | the mask selects the polynomial exactly when the lowest bit is set |
| Crc32.EightSteps | project2/recvfile.c:25-29 | the inner loop is eight steps |
| Crc32.Compute | project2/recvfile.c:17-32 | the loop computes the checksum of the buffer |
| Crc32.Residue | project2/recvfile.c:17-32 | any buffer followed by its checksum, lowest byte first, has the checksum 0x2144DF1C: it is CRC-32 |
| Crc32.NothingIsZero | project2/recvfile.c:17-32 | the checksum of nothing is 0 |
| Crc32.StepAbsorbs | project2/recvfile.c:28 | a step is linear: a difference above the lowest bit moves down by one place |
| Crc32.StepInjective | project2/recvfile.c:28 | a step loses nothing |
| Crc32.WindowDetected | project2/recvfile.c:22-30 | from one state, windows of up to four bytes lead to one state exactly when they are equal |
| Crc32.BurstDetected | project2/sendfile.c:15-30 | buffers of any equal length that differ at most within four consecutive bytes have one checksum exactly when they are equal |
| TransferPacket.FrameParts | project2/sendfile.c:103-116 | where in the 20078 bytes of a packet its fields are |
| TransferPacket.Big32IsReversed | project2/sendfile.c:115-116 | the checksum is sent with its highest byte first |
| TransferPacket.FrameRoundTrip | project2/sendfile.c:103-116 | a frame is read back as the end marker or as the block with its number, names and data |
| TransferPacket.DamageDetected | project2/recvfile.c:91-121 | a packet damaged within four consecutive bytes is dropped if and only if it does not carry the end marker |
| TransferPacket.EndIsForged | project2/recvfile.c:91-102 | one byte makes any packet an end marker |
| TransferPacket.BuildPacket | project2/sendfile.c:103-116 | the packet buffer holds the frame of the block |
| TransferEnds.FrameAtReads | project2/sendfile.c:95-116 | the packet of a block says its number modulo 128 and its data, the one after the last block says end |
| TransferEnds.BlocksMeet | project2/sendfile.c:95 | the blocks in turn are the file, with nothing left out, each of 20000 bytes but the last |
| TransferEnds.Sender.constructor | project2/sendfile.c:81-95 | the first packet is ready |
| TransferEnds.Sender.NextBlock | project2/sendfile.c:95-116 | the next block is read and its packet built; at the end of the file it is the end marker |
| TransferEnds.Sender.TakeAck | project2/sendfile.c:131-155 | only the answer to the current number moves the sender on, to the next block or out |
| TransferEnds.Receiver.Keep | project2/recvfile.c:133-149 | the first block replaces an older file, later ones are appended |
| TransferEnds.Receiver.Receive | project2/recvfile.c:91-157 | only the expected block is kept; everything but a corrupt packet is answered under its own number |
| StopAndWait.Transfer | project2/sendfile.c:95-116 | whatever the file, its packets pass the checksum and say what is meant |
| StopAndWait.RunInv | project2/recvfile.c:82-158 | every run, with or without forged end markers, keeps the receiver at the sender's block or one further |
| StopAndWait.PrefixWritten | project2/recvfile.c:123-150 | at any time, whatever the damage, exactly a prefix of the file is written: as many blocks as the sender's index, or one more; other files are untouched |
| StopAndWait.WholeFile | project2/recvfile.c:94-102 | when the sender leaves, the whole file is written, whatever the damage; when the receiver leaves it is, unless an end marker was forged; an older file stays exactly when the file is empty |
| StopAndWait.ForgedEnd | project2/recvfile.c:94-102 | for every number of blocks short of all there is a run with one damaged byte in which the receiver leaves with just these |
| StopAndWait.CanComplete | project2/sendfile.c:95-156 | every transfer has a run that ends |
| StopAndWait.DataBoundIsExact | project2/recvfile.c:123-134 | a packet 127 blocks behind is taken for a new one |
| StopAndWait.AckBoundIsExact | project2/sendfile.c:131-141 | an answer 128 blocks behind makes the sender skip a block |

## Left out

- Sockets, files, configuration parsing and printing; all of `project1`.
- Memory management (`malloc`, `free`, raw pointers): packets are values, and bytes only where a packet is packed and parsed.
- The clock is unbounded; the program keeps it in 32 bits of milliseconds, which last 49 days.
- Random loss: a link may lose any packet (`Losses`), and what routers send in a simulation is arbitrary (`Reactions`).
- Simulation.Simulator.Run: takes the number of turns as a parameter, because the loop of the program may have no end.
- The heap of the standard library is not part of the repository; the model uses its published algorithm, a sift-up that moves only strictly later events.
- Pings and pongs as packets: a pong enters a handler as the time its ping was sent, or as the round-trip time.
- LSPs in `Flooding` and `FloodCost` are a source and a number over fixed links; their bodies are in `LsRouter`.
- Flooding.RunCovers: holds up to 65536 LSPs of a source, because the number then repeats; `QuietMeansKnown` shows that the bound is exact.
- LinkState.SearchFinds: that truncation is one condition on true distances (`Exceeds`) is for positive costs; with free links the order of expansion among equal distances depends on the order of discovery, and there is a condition for each direction (`AllOvershoot`, `SomeOvershoots`). That the table is right if and only if nothing is truncated is for all costs.
- LsForwarding.DeliveredOrDropped: needs link costs that are equal both ways and positive, and routers that all know the same costs; `OrderMatters` shows routers that do not, because of the bodies of their LSPs.
- DvConvergence.NoForwardingLoop: packets are delivered as soon as they are built. `DvOrdered.NoLoopInFlight` is the theorem for packets in flight, and needs them in order on each link.
- DvOrdered.RunsConverge: starts when every router knows its neighbours and has told them; the pongs that lead there are in `DvHandlers`, one router at a time.
- DvStatic.AcceptInv: needs costs at which a link and a simple walk stay below 65535, the infinite cost.
- DvAsync.NeverBelowDistance: needs runs without wrapping sums; `CostsAreWalks` says what remains without that.
- DvHandlers.RiseShifts: needs sums that fit 16 bits.
- Timers and changing link costs in the convergence theorems: links are fixed there and nothing expires.
- DvPacket.Pack: with more than 16381 entries the 16-bit size of the packet wraps.
- TransferPacket.DamageDetected: damage across the border between data and checksum, or in several places, is not covered; nor are damaged answers, which carry no checksum.
- The receiver copies the data out before it tests the checksum; packets whose damaged length field points outside the packet are not part of the model (`TransferPacket.Readable`).
- File names are the 70 bytes of the packet; that several of them can name one path is not modelled.
- The adaptive timeout of the sender: a packet may be sent again at any time.
- Stop-and-wait does not always finish: the receiver answers the end marker once and leaves. `StopAndWait.CanComplete` gives one run that does.
