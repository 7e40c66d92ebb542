# Verification of the software-defined sensor network

This project models the routing and forwarding logic of the repository in Dafny and proves properties of it.
A controller on a PC keeps a weighted digraph of the network, computes routes, caches one forwarding entry per
source and target, and pushes setup packets to the nodes.  The nodes discover the controller, forward,
retransmit, recognise duplicates, and talk to the controller over a framed serial link.

Most parts come in two layers: specification functions on values, about which the theorems are proved, and
classes and methods with loops, arrays and in-place updates that are proved equal to those functions.

| file | contents |
|---|---|
| `Options.dfy`, `Bytes.dfy`, `Graphs.dfy` | stock types; the digraph as a value, paths, reachability |
| `ShortestPath.dfy`, `SearchInvariant.dfy`, `SearchTree.dfy` | the search, what every step keeps, the tree it leaves |
| `ShortestLabels.dfy`, `EqualWeights.dfy` | when labels are shortest; on digraphs with one weight they always are |
| `Routes.dfy`, `StaleQueue.dfy` | the returned route; a digraph where labels are not shortest |
| `RepairedRelax.dfy`, `RepairedSearch.dfy` | a repair of the relaxation, proved optimal (not the code) |
| `NeighborReports.dfy`, `ReportNotice.dfy` | what a neighbour report does to the digraph, and whether the controller notices |
| `Digraph.dfy` | the digraph and the search with their in-place updates |
| `FlowTables.dfy`, `LoopFreedom.dfy` | the flow cache as a value; chains of next hops |
| `RouteUpdates.dfy`, `TableSafety.dfy` | rebuilding, configuring and choosing routes; what every step keeps |
| `SetupPushes.dfy`, `UnsentSetup.dfy` | pushing entries to the nodes, and a push that is never sent |
| `SetupDelivery.dfy`, `SetupContents.dfy` | a push that is sent, from the route to the packet at its node and the bytes the node reads |
| `RequestAnswers.dfy`, `Reliability.dfy` | what a request is answered with; which entries count as confirmed and when the others are pushed again |
| `ControllerRuns.dfy`, `RunSafety.dfy` | the controller as a state machine; every run is loop free and in step with what was pushed |
| `PairDigraphs.dfy`, `TwoTargets.dfy` | flows loop exactly when they have two targets |
| `Operations.dfy`, `Energies.dfy` | whole requests, registrations and reports; they are lists of steps and change no energy |
| `HeaderReads.dfy`, `ReportSafety.dfy` | when the check of a route reads a NULL header, on any table and in runs |
| `EmptyReport.dfy`, `LaterCheck.dfy`, `ControllerFlow.dfy` | three cases in which it does |
| `UpdatePass.dfy`, `Hysteresis.dfy` | a complete update pass; the bound on kept routes; install and rebuild |
| `RouteReplacement.dfy` | exactly when a route is kept or replaced, in plain weights |
| `ConsistentRuns.dfy`, `OverlookedReport.dfy` | after which operations the table agrees with the digraph, and one after which it does not |
| `PassBound.dfy`, `LaterReroute.dfy` | the bound at the end of a pass, and a case in which it is lost |
| `Controller.dfy` | the cache and the request and update code with their in-place changes |
| `Discovery.dfy`, `DiscoveryRuns.dfy` | controller discovery on one node, and as a protocol with lossy, delayed, duplicated and reordered beacons |
| `RetransmissionWindow.dfy`, `WindowContents.dfy` | the four-buffer retransmission window with stale contents, as a map and in bytes |
| `SerialFraming.dfy`, `SerialRoundTrip.dfy` | the encoder and both decoders of the serial link (section 4.2 of RFC 1662), round trips and synchronisation |
| `DuplicateDetection.dfy` | the shifted array of senders and sequence numbers |
| `SourceRouting.dfy` | source-routed packets byte by byte, from the controller to the last hop |
| `FuzzyMetric.dfy`, `FuzzyShapes.dfy`, `DummyMetric.dfy` | the fuzzy link metric, what its centres mean, and the metric of the configured build, over the reals |
| `PacketBuffers.dfy` | who owns each packet buffer of a node |
| `SendPath.dfy`, `SendOrder.dfy` | which packets are queued, stored or dropped, and in what order they leave |

Conventions: an address is two bytes; `int` in C is unbounded here unless a width is written out; the table by
address and the table by flow id share one model, a `Kind` telling them apart; inputs from timers, radio and
other modules are parameters or events.  The steps of the controller's state machine are single requests,
single iterations of a pass and single pushes, so its runs contain every whole and partial pass and every
interleaving.

Where the code does not do what one would hope, the code is modelled as it is and the exact condition is
proved:

- Relaxing a queued vertex does not move it in the queue, so labels need not be shortest.  They are exactly
  when no visited vertex was denied a lower label; pops of least label are enough.
- A flow is free of loops in every run exactly when it has at most one registered target.
- A push finds no route to its node, or no room, and the mark of the entry is cleared all the same.  A setup is
  sent exactly when the controller can reach the node and there is room.
- The check of a route reads the header edge of every vertex but the last without testing it.  A pass reads a NULL
  header exactly when one of its iterations, with the table as it then is, finds a fresh route while the current
  route comes over existing edges to a vertex without out-edge.  In the states that operations lead to, the pass
  over the table by address does so only after an empty report, whose sender is that vertex; a report that names a
  neighbour, or whose sender forwards nothing, is safe there.  The pass over the table by flow also does so after
  others: the flow to the controller is never dropped, so its entries outlive their links.
- The bound on kept routes holds at the end of a pass when the searches find shortest routes, as they do on equal
  weights; with a stale queue a later iteration can reroute a vertex on the way and break it.
- The controller notices the loss of the header edge of a sender only when another change comes with it or the edge was
  alone.  After a report the table by address therefore agrees with the digraph exactly unless the report goes
  unnoticed and an entry of its sender forwards over the lost edge; a run of three operations shows the case.
- Right after an install the rebuilt route is discarded exactly when the destination has an entry of its own.
- A management request for metrics of which the node has none takes a packet buffer, if there is one, and never
  gives it back.  Nothing else in the model loses one.  (A request to a destination other than 1 or 2, which no
  caller passes, would do the same.)
- An acknowledgement releases a packet exactly when no lower buffer of the window matches it too.
- A packet with a null source address and number 0 is taken for a duplicate until the table has filled up.
- The decoder on the PC stays out of step after two flags in one state, which it never reaches.

## Model

| member | source | states |
|---|---|---|
| `SearchTree.SettledIsReachable` | controller-server/digraph/dijkstra.c:184-235 | a finished search has visited exactly the vertices reachable from the source |
| `SearchInvariant.PopKeepsPaused` | controller-server/digraph/dijkstra.c:190-235 | one pop with its scan keeps the invariant: every vertex is queued at most once and never after its visit, every parent is visited before its child, every label is the exact sum along its parent link, every scanned edge leads to a visited or queued vertex |
| `SearchInvariant.PopSettlesOneMore` | controller-server/digraph/dijkstra.c:184-235 | each round visits one vertex more and none twice, so the search ends |
| `Routes.FindRoute` | controller-server/digraph/dijkstra.c:172-294 | a route comes back exactly when the target is reachable and is not the source; it is a simple path over real edges, and its first node carries the label of the target |
| `Routes.ChainGivesRoute` | controller-server/digraph/dijkstra.c:243-290 | walking up the parent links gives distinct vertices, hop counts 0, 1, 2, ... and remaining weights that are exact sums of edge weights |
| `ShortestLabels.ShortestIffNoneSuppressed` | controller-server/digraph/dijkstra.c:198-227 | all labels are shortest distances if and only if no visited vertex was denied a lower label by the visited flag |
| `ShortestLabels.LeastPopsGiveShortest` | controller-server/digraph/dijkstra.c:71-235 | with positive weights and pops of least label every label is a shortest distance |
| `EqualWeights.EqualWeightsGiveShortest` | controller-server/digraph/dijkstra.c:71-235 | when all edges have one positive weight the queue stays sorted, every pop takes a least label and all labels are shortest distances |
| `Routes.RoutesShortestIffNoneSuppressed` | controller-server/digraph/dijkstra.c:172-294 | the totals of all returned routes are shortest distances under exactly the same condition |
| `StaleQueue.StaleQueueExample` | controller-server/digraph/dijkstra.c:215-217 | with edges A-B 10, A-C 11, A-D 1, D-C 1, C-B 1 vertex B is settled at 10 although a path of weight 3 exists, and the pops are not least |
| `RepairedSearch.RepairedIsShortest` | controller-server/digraph/dijkstra.c:214-219 | a repair, not the code: with queued vertices pushed again when their label falls, every label is a shortest distance on every digraph with positive weights |
| `Digraphs.Digraph.QueuePush` | controller-server/digraph/dijkstra.c:71-136 | the queue afterwards is the old one with the vertex before the first larger label |
| `Digraphs.Digraph.QueuePop` | controller-server/digraph/dijkstra.c:138-158 | the head leaves the queue; NULL from an empty one |
| `Digraphs.Digraph.RelaxEdge` | controller-server/digraph/dijkstra.c:198-227 | one edge: a new vertex is labelled and queued, a queued one is relabelled where it stands, a visited one is left alone |
| `Digraphs.Digraph.ScanVertex` | controller-server/digraph/dijkstra.c:190-231 | the vertex is visited and all its edges are relaxed in list order |
| `Digraphs.Digraph.RunSearch` | controller-server/digraph/dijkstra.c:184-235 | the scratch fields hold the finished search |
| `Digraphs.Digraph.WalkUp` | controller-server/digraph/dijkstra.c:249-290 | the list built along route_root is the route of the parent chain |
| `Digraphs.Digraph.CleanAttributes` | controller-server/digraph/dijkstra.c:295-308 | all scratch fields are clean again, so one query does not affect the next |
| `Digraphs.Digraph.ShortestRoute` | controller-server/digraph/dijkstra.c:172-312 | the route of the search, missing end points added to the digraph, everything else unchanged, scratch clean |
| `Digraphs.Digraph.CheckRoute` | controller-server/digraph/dijkstra.c:526-578 | a weight comes back exactly when every hop of the route is still an edge, and it is the sum of the current weights; a NULL header is read exactly when the hops exist up to a vertex before the last that has no out-edge |
| `Graphs.FindEdge` | controller-server/digraph/digraph.c:564-587 | the first edge to the target, or none when no edge leads there |
| `Digraphs.Digraph.FindVertex` | controller-server/digraph/digraph.c:155-189 | found exactly when the vertex is in the digraph |
| `Digraphs.Digraph.AddVertex` | controller-server/digraph/digraph.c:71-117 | one isolated vertex more, with full battery |
| `Digraphs.Digraph.GetVertex` | controller-server/digraph/digraph.c:119-129 | the vertex is there afterwards, nothing else has changed |
| `Digraphs.Digraph.FindEdgeIndex` | controller-server/digraph/digraph.c:564-587 | the index of the first edge to the target, or NULL |
| `Digraphs.Digraph.AddEdgeBetween` | controller-server/digraph/digraph.c:289-362 | at most one edge per ordered pair; the status that comes back is new, static or updated; the weight comes from the lower energy of the two ends |
| `Digraphs.Digraph.MarkEdgesFrom` | controller-server/digraph/digraph.c:419-437 | every out-edge is marked, nothing else changes |
| `Digraphs.Digraph.DelEdge` | controller-server/digraph/digraph.c:364-399 | the first edge to the target is gone; the header moves on when it is the header |
| `Digraphs.Digraph.DelMarked` | controller-server/digraph/digraph.c:472-506 | the sweep that looks at the header last leaves exactly the unmarked edges in order, and says whether it counted a deletion |
| `Digraphs.Digraph.DelMarkedFrom` | controller-server/digraph/digraph.c:472-506 | the vertex keeps exactly its unmarked edges; a header that does not go alone is not counted |
| `Digraphs.Digraph.ReportEntry` | controller-server/sdn-process-packets-controller.c:167-203 | one reported neighbour: its vertex, the edge to it, and the edge back when that was missing; whether it counts as a change |
| `Digraphs.Digraph.ProcessNeighborReport` | controller-server/sdn-process-packets-controller.c:121-252 | the digraph afterwards is the one the report describes, and the flag at the end is the specified one |
| `NeighborReports.ReportIsExact` | controller-server/sdn-process-packets-controller.c:121-252 | after a report the sender has exactly the reported neighbours as targets, with the weight of the last reported metric; every other vertex keeps its edges except for one missing reverse edge |
| `NeighborReports.ReportKeepsGood` | controller-server/sdn-process-packets-controller.c:121-252 | a report keeps one edge per ordered pair, edges inside the digraph, positive weights and all energies, and adds just the missing vertices |
| `NeighborReports.ReportedWeights` | controller-server/sdn-process-packets-controller.c:121-252 | after a report the edge to a neighbour has the weight of the metric in its last entry and of the weaker of the two ends, a new edge back that of its first entry |
| `NeighborReports.AddedEdgePlace` | controller-server/digraph/digraph.c:289-362 | a new edge stands behind the header, an existing one stays where it is; its status says new, static or updated |
| `ReportNotice.NoticedExactly` | controller-server/sdn-process-packets-controller.c:121-252 | a report goes unnoticed exactly when it comes from a known sender, names only existing two-way links without changing their weights, and leaves out at most the header edge of the sender, not alone |
| `ReportNotice.UnnoticedKeepsEdges` | controller-server/digraph/digraph.c:472-506 | an unnoticed report leaves all edges and weights as they were, except that it removes the header edge of the sender when it does not name it |
| `ReportNotice.UnnoticedKeepsHeaders` | controller-server/digraph/digraph.c:472-506 | an unnoticed report takes no vertex its last out-edge |
| `FlowTables.PutLookup` | controller-server/sdn-flow-table-cache.c:247-316 | adding an entry changes the lookup of its own source and target and of nothing else |
| `FlowTables.PutKeepsUnique` | controller-server/sdn-flow-table-cache.c:247-316 | a source and target have at most one entry |
| `FlowTables.InstallLookup` | controller-server/sdn-process-packets-controller.c:478-488 | after installing a route every hop of it has its entry towards the next hop, and all other lookups are unchanged |
| `Controllers.Controller.FindEntry` | controller-server/sdn-flow-table-cache.c:336-352 | the first matching entry |
| `Controllers.Controller.Add` | controller-server/sdn-flow-table-cache.c:221-316 | new at the tail, or overwritten in place and marked only when next hop or action differ |
| `Controllers.Controller.SetEntryOnline` | controller-server/sdn-flow-table-cache.c:318-334 | online exactly when next hop and action still match; the table stays safe |
| `LoopFreedom.NoChainReturns` | controller-server/sdn-process-packets-controller.c:484-488 | in a loop-free table no chain of FORWARD entries comes back to where it started |
| `LoopFreedom.InstallKeepsLoopfree` | controller-server/sdn-process-packets-controller.c:480-488 | installing any simple route to the destination over a loop-free key keeps it loop free, whatever entries were there |
| `LoopFreedom.DropKeepsLoopfree` | controller-server/sdn-process-packets-controller.c:350-354 | setting an entry to DROP keeps its key loop free |
| `LoopFreedom.ChangeKeepsLoopfree` | controller-server/sdn-process-packets-controller.c:480-488 | a table change keeps a key loop free when the chains from all changed vertices end |
| `TableSafety.ConfigureKeepsTableOk` | controller-server/sdn-process-packets-controller.c:444-491 | configuring a route, replaced or kept, keeps every key safe: one target loop free, no target nothing forwarded, DROP entries with the largest hop count |
| `TableSafety.HopsFit` | controller-server/sdn-process-packets-controller.c:600-610 | two-byte addresses keep every hop count of a route below that of a DROP entry |
| `TableSafety.ServeKeepsTableOk` | controller-server/sdn-process-packets-controller.c:326-364 | a request or one iteration of a pass keeps the whole table safe |
| `TableSafety.FreshRoute` | controller-server/sdn-process-packets-controller.c:366-384 | the route found for a key exists exactly when some target other than the source is reachable, and leads to one of the targets |
| `RouteUpdates.BestRouteIsBest` | controller-server/sdn-process-packets-controller.c:493-518 | no target of the key offers a lower total than the route chosen |
| `RouteUpdates.RebuildFollowsTable` | controller-server/sdn-process-packets-controller.c:576-630 | a rebuilt route follows the next hops and stops at a vertex without any entry; a chain that meets a DROP entry is discarded |
| `RouteReplacement.RebuildIsExact` | controller-server/sdn-process-packets-controller.c:576-630 | a route is rebuilt exactly when the next hops from the entry, with falling hop counts, lead to a vertex without entry, and it is that chain |
| `RouteReplacement.BestRouteChoice` | controller-server/sdn-process-packets-controller.c:366-384 | the route chosen leads to the last of the targets with the least total, and has that total; nothing is chosen exactly when no target can be reached |
| `RouteReplacement.TargetsOfBoth` | controller-server/sdn-flow-table-cache.c:412-442 | the targets of a key come in the order of their registrations |
| `RunSafety.StepIsSafe` | controller-server/sdn-process-packets-controller.c:281-364 | every request, table check, push, report, registration, acknowledgement and retransmission keeps the table safe and its unmarked entries in step with what was pushed last |
| `RunSafety.EveryRunIsLoopFree` | controller-server/sdn-process-packets-controller.c:326-364 | in every state of every run, for every key with one target: the target forwards nothing, every chain ends at the target or at a DROP entry, no chain returns |
| `SetupPushes.PushIsExact` | controller-server/sdn-process-packets-controller.c:929-1006 | a setup is sent exactly when the controller can reach the node in the digraph and finds a packet buffer and a place in the send queue |
| `SetupPushes.FlushPushesMarked` | controller-server/sdn-process-packets-controller.c:690-704 | the entries pushed are exactly the marked ones |
| `SetupPushes.FlushPushesInOrder` | controller-server/sdn-process-packets-controller.c:690-704 | every marked entry is pushed once, in the order of the list, with its source, target, next hop and action |
| `RequestAnswers.KnownRequest` | controller-server/sdn-process-packets-controller.c:326-346 | a request for an entry that is there: exactly one push of it, with its source, target, next hop and action, when it is online, and none when it is not; the table stays as it is |
| `RequestAnswers.FirstRequest` | controller-server/sdn-process-packets-controller.c:343-364 | a request for a missing entry: one is made exactly when a target other than the source can be reached or the key is not the flow to the controller; it is pushed last and as it is; in the first case its next hops lead over links to a target, otherwise it says DROP |
| `SetupContents.SentInforms` | sdn-common/sdn-process-packets.c:234-300 | a setup that was sent travels over links and brings, at the offsets the node reads, target, action and next hop of the entry: to the node itself over up to 49 intermediate nodes, to a vertex that passes it on by address over a longer route |
| `SetupContents.NodeIsTold` | sdn-common/sdn-process-packets.c:234-300 | in every state of every run: the last push of an unmarked entry carries its fields, a FORWARD one the next hop of the table, and if it was sent its packet has informed the node of exactly that |
| `RunSafety.UnmarkedWasPushed` | controller-server/sdn-process-packets-controller.c:690-704 | in every state of every run an entry not marked as changed is what was pushed last for its source and target, and that push was sent exactly when the controller could reach the node at that moment and there was room |
| `RunSafety.PushesAreExact` | controller-server/sdn-process-packets-controller.c:929-1006 | the same for every single push of a run |
| `UnsentSetup.UnreachableNodeIsNotTold` | controller-server/sdn-process-packets-controller.c:942-949 | two reports and a request, from the empty controller on, after which a FORWARD entry is not marked and its node was never told: the controller cannot reach it |
| `SetupDelivery.SentSetupArrives` | controller-server/sdn-process-packets-controller.c:929-1006 | a setup that was sent to another node travels over existing edges; up to 49 intermediate nodes the node gets exactly the setup, over a longer route the setup goes on by flow table from the last node that fits |
| `RunSafety.RegisterKeepsTableOk` | controller-server/sdn-process-packets-controller.c:789-793 | a new target for a flow keeps the table safe |
| `RunSafety.TickKeepsSafe` | controller-server/sdn-reliability.c:46-72 | the retransmission timer pushes what the table says and changes no route of any target |
| `Reliability.ConfirmIsExact` | controller-server/sdn-flow-table-cache.c:318-334 | an acknowledgement makes exactly the entry online that has the source, target, next hop and action it names |
| `Reliability.OnlineWasConfirmed` | controller-server/sdn-flow-table-cache.c:221-334 | in every state of every run an entry of another node is online only if an acknowledgement has named the source, target, next hop and action it has now; those of the controller always are; the timer of the others stands between 1 and 60 |
| `Reliability.TickIsExact` | controller-server/sdn-reliability.c:46-72 | one second of one entry: pushed and set to 60 exactly when it is not online and the timer would reach zero, else only counted down |
| `Reliability.PushedAgain` | controller-server/sdn-reliability.c:46-72 | an entry that is not online and whose timer stands at n is pushed with the n-th second and not before |
| `TwoTargets.AnyTwoTargetsLoop` | controller-server/sdn-process-packets-controller.c:366-384 | for any flow and any two of its targets there is a list of requests, registrations and one report, from the empty controller on and without a NULL header read, after which the two are routed to each other and no chain from either ends; except for the flow to the controller all requests come before the first registration |
| `TwoTargets.LoopsExactlyWithTwoTargets` | controller-server/sdn-process-packets-controller.c:366-384 | some list of requests, registrations and reports with given targets routes a flow in a circle exactly when the flow has at least two targets |
| `TwoTargets.OneTargetNeverLoops` | controller-server/sdn-process-packets-controller.c:366-384 | with at most one target no run of single steps in any order routes the flow in a circle |
| `TwoTargets.RegisteredOnce` | controller-server/sdn-flow-table-cache.c:412-442 | no run registers a pair of flow and target twice |
| `UpdatePass.Walk` | controller-server/sdn-process-packets-controller.c:666-688 | the pass ends although it walks a list that grows: unchanged entries left, then list left; it keeps the table safe and every entry in its place, and whatever it leaves unmarked was unmarked and is unchanged |
| `UpdatePass.PassMakesConsistent` | controller-server/sdn-process-packets-controller.c:643-704 | after a pass that starts without marks nothing is marked, an entry forwards exactly when its target is another reachable vertex, its next hops follow existing edges all the way to the target, and an entry pushed by the pass was sent exactly when the controller can reach its node and there was room |
| `ConsistentRuns.TableAgreesWithDigraph` | controller-server/sdn-process-packets-controller.c:121-364 | after every list of requests, registrations and reports from the empty controller on, none of them overlooked, for every entry of the table by address: it was pushed as it is, it forwards exactly when its target is another reachable vertex, and then its next hops lead over links all the way to the target |
| `ConsistentRuns.ReportConsistentExactly` | controller-server/sdn-process-packets-controller.c:121-252 | from such a state, a report leaves one exactly unless it is overlooked: not noticed, without the header edge of its sender, and an entry of the sender forwards over that edge |
| `ConsistentRuns.OperationPasses` | controller-server/sdn-process-packets-controller.c:121-268 | a report starts a pass exactly when it is noticed; a registration starts one over the table by flow with the new target at the end of the list |
| `OverlookedReport.OverlookedReportIsFollowed` | controller-server/digraph/digraph.c:472-506 | for any three nodes two operations from the empty controller on and then a report that is overlooked: an entry goes on forwarding over a link that is gone |
| `UpdatePass.PassIsSteps` | controller-server/sdn-process-packets-controller.c:643-704 | every pass is a list of single steps of the controller, so what holds in every state of every run holds before and after passes |
| `Operations.OperationsAreSteps` | controller-server/sdn-process-packets-controller.c:121-364 | so is every list of requests, registrations and neighbour reports with the pushes and passes they start |
| `Operations.RestingPass` | controller-server/sdn-process-packets-controller.c:643-704 | while nothing is linked a pass over pushed DROP entries, like the one after a registration, changes no entry and pushes nothing |
| `Energies.OperateSameEnergies` | controller-server/sdn-process-packets-controller.c:121-364 | no request, registration or neighbour report changes the energy of a vertex |
| `UpdatePass.ConfigureSettles` | controller-server/sdn-process-packets-controller.c:444-491 | a configured entry agrees with the digraph and unsettles no entry that agreed before |
| `UpdatePass.KeptRouteDelivers` | controller-server/sdn-process-packets-controller.c:456-475 | a current route that survives the check leads to the destination |
| `SetupPushes.FlushClears` | controller-server/sdn-process-packets-controller.c:690-704 | the pushes clear every mark, sent or not, and change no route |
| `Hysteresis.HysteresisBound` | controller-server/sdn-process-packets-controller.c:444-491 | after configuring, the installed path from the source exists edge by edge and its true weight is at most (1 + sensibility) times that of the fresh route; with one target it ends there |
| `RouteReplacement.ReplacedExactly` | controller-server/sdn-process-packets-controller.c:456-488 | when the current route of the entry still exists in table and digraph: if it costs at most one and a half times the fresh route, nothing but the weight of the entry changes, no next hop and no mark; if it costs more, the fresh route is installed hop by hop, each entry marked exactly when it is new or says something else, and nothing else changes |
| `RouteReplacement.InstalledWithoutCurrent` | controller-server/sdn-process-packets-controller.c:456-488 | when there is no such current route, the fresh one is installed in the same way |
| `RouteReplacement.IterationReplacesExactly` | controller-server/sdn-process-packets-controller.c:643-688 | an iteration of a pass replaces an existing current route exactly when some target offers a total that it exceeds by more than half, and then by a route to the last target of least total |
| `RouteReplacement.IterationDrops` | controller-server/sdn-process-packets-controller.c:643-688 | an iteration for an entry with no target to reach makes it DROP, marked exactly when that is a change, and leaves the flow to the controller alone |
| `PassBound.PassIsNear` | controller-server/sdn-process-packets-controller.c:643-688 | if the searches find shortest routes, then at the end of a pass, after later iterations have rerouted vertices on the way, the next hops of every FORWARD entry still cost at most (1 + sensibility) times as much as any path |
| `PassBound.EqualWeightsAreOptimal` | controller-server/digraph/dijkstra.c:172-294 | they do when all edges have the same weight |
| `LaterReroute.BoundIsLost` | controller-server/sdn-process-packets-controller.c:643-688 | without that the bound of one configuration need not survive the pass: a table and a digraph on which an entry kept at 4 costs 11 in the end |
| `Hysteresis.RoundTrip` | controller-server/sdn-process-packets-controller.c:576-630 | installing and rebuilding gives the reversed route with the same hops exactly when the destination has no entry of its own; otherwise the rebuilt route is discarded |
| `Hysteresis.RouteWeightIsPathWeight` | controller-server/digraph/dijkstra.c:279-284 | the weight stored at a hop is the true weight of the path from it to the target |
| `HeaderReads.ReportKeepsHeaded` | controller-server/sdn-process-packets-controller.c:121-252 | if every forwarding vertex has an out-edge, a report keeps that exactly when it names a neighbour or its sender forwards nothing |
| `HeaderReads.HeadedPassIsSafe` | controller-server/sdn-process-packets-controller.c:643-688 | a pass that starts with an out-edge at every forwarding vertex reads no NULL header and ends with one |
| `HeaderReads.IterationFailsExactly` | controller-server/digraph/dijkstra.c:526-578 | on any table one iteration of a pass reads a NULL header exactly when some other target is reachable and the current route of the entry comes over existing edges to a vertex without out-edge |
| `HeaderReads.PassFailsExactly` | controller-server/sdn-process-packets-controller.c:643-688 | on any table a pass reads a NULL header exactly when one of its iterations, with the table as it then is, meets a vertex without out-edge in that way |
| `HeaderReads.IterationFailsAfterReport` | controller-server/digraph/dijkstra.c:539-541 | after a report the vertices without out-edge are the sender of an empty report and those that had none and are not named; one iteration reads a NULL header exactly when it meets one of these |
| `HeaderReads.PassFailsAfterReport` | controller-server/sdn-process-packets-controller.c:643-688 | the same for the whole pass after a report, on any table |
| `HeaderReads.OwnEntryIsNotChecked` | controller-server/sdn-process-packets-controller.c:343-361 | an entry of a vertex without out-edge is never checked, in any table |
| `HeaderReads.OwnEntriesDoNotFail` | controller-server/sdn-process-packets-controller.c:643-688 | so a pass over entries of one such vertex reads no NULL header, whatever they forward |
| `ReportSafety.OperationsEndOrderly` | controller-server/sdn-process-packets-controller.c:643-704 | after any list of requests, registrations and reports no entry is marked, and every entry that may be dropped has an out-edge if it forwards |
| `ReportSafety.AddressReportCrashesInRuns` | controller-server/sdn-process-packets-controller.c:121-268 | for the table by address, after any list of operations from the empty controller: a report makes its pass read a NULL header exactly when it is empty and the pass meets its sender on the way; the sender then forwards something |
| `ReportSafety.ReportCrashesInRuns` | controller-server/sdn-process-packets-controller.c:121-268 | for either table: a noticed report exactly in that case, or when the pass meets a vertex without out-edge on the way of the flow to the controller; one that is not noticed starts no pass |
| `ControllerFlow.NamingReportFails` | controller-server/sdn-process-packets-controller.c:730-741 | for any four nodes four operations from the empty controller on, after which a report that names two neighbours, from a node that forwards nothing, makes the pass read a NULL header: the flow to the controller is never dropped |
| `LaterCheck.NoneFailsAtFirst` | controller-server/sdn-process-packets-controller.c:576-630 | a table and an empty report after which no iteration would fail on the table as the report finds it |
| `LaterCheck.SecondIterationFails` | controller-server/sdn-process-packets-controller.c:643-688 | the pass over that table reads a NULL header all the same, in its second iteration |
| `HeaderReads.ServeFailsExactly` | controller-server/sdn-process-packets-controller.c:444-491 | one iteration of a pass reads a NULL header exactly when some other target is reachable and the check of the entry does |
| `EmptyReport.EmptyReportFails` | controller-server/digraph/dijkstra.c:539-541 | for any four nodes a request and two neighbour reports, from the empty controller on, after which every forwarding vertex has an out-edge and an empty report makes the pass read a NULL header |
| `HeaderReads.RebuiltHeaded` | controller-server/sdn-process-packets-controller.c:576-630 | if every forwarding vertex has an out-edge, so has every vertex but the last of a rebuilt route |
| `Controllers.Controller.BetterRoute` | controller-server/sdn-process-packets-controller.c:493-518 | the found route replaces the best one unless it weighs more |
| `Controllers.Controller.KeyRoute` | controller-server/sdn-process-packets-controller.c:366-384 | the best route over all targets of the key in list order |
| `Controllers.Controller.CurrentRoute` | controller-server/sdn-process-packets-controller.c:576-630 | the loop gives the rebuilt route of the entry, NULL when hops stop falling |
| `Controllers.Controller.InstallRoute` | controller-server/sdn-process-packets-controller.c:480-488 | one entry per hop, target side first |
| `Controllers.Controller.CurrentWeight` | controller-server/sdn-process-packets-controller.c:459-469 | NULL exactly when the table or the digraph has lost the current route, otherwise its true weight; says exactly when a NULL header is read |
| `Controllers.Controller.ConfigureRoute` | controller-server/sdn-process-packets-controller.c:444-491 | the table afterwards is the configured one, which RouteReplacement.ReplacedExactly and InstalledWithoutCurrent describe in plain weights, unless the check reads a NULL header |
| `Controllers.Controller.ServeEntry` | controller-server/sdn-process-packets-controller.c:343-361 | better route configured, or DROP; everything the cache relies on is kept |
| `Controllers.Controller.PushEntry` | controller-server/sdn-process-packets-controller.c:929-1006 | one push more, which carries source, target, next hop and action of the entry and is sent exactly when the controller can reach the node and there is room |
| `Controllers.Controller.ProcessTableChanges` | controller-server/sdn-process-packets-controller.c:690-704 | every marked entry is pushed once, in list order, and unmarked whether or not the push is sent |
| `Controllers.Controller.CheckTableChanges` | controller-server/sdn-process-packets-controller.c:643-688 | the whole pass over the growing table, and exactly when it reads a NULL header |
| `Controllers.Controller.ProcessRequest` | controller-server/sdn-process-packets-controller.c:326-364 | the request as specified, which RequestAnswers.KnownRequest and FirstRequest describe: an existing entry is resent exactly when online, a missing one is made and pushed, and no header is read |
| `Controllers.Controller.RegisterTarget` | controller-server/sdn-process-packets-controller.c:789-793 | the registration as specified: the target is added once and a pass follows, which reads a NULL header exactly as specified |
| `Controllers.Controller.ProcessReport` | controller-server/sdn-process-packets-controller.c:121-268 | the report as specified: the new digraph for any report, empty ones included, then a pass exactly when the report is noticed; all invariants kept unless the pass reads a NULL header, and exactly when it does |
| `Discovery.ReceiveIsPlain` | contiki-sdn/sdn-cd/symmcheck-cd.c:150-188 | a beacon is adopted exactly when the node is listed and the metric plus one is smaller; for 16-bit and wider int alike no wrapped metric is adopted and the clamp never fires |
| `DiscoveryRuns.StepKeepsInv` | contiki-sdn/sdn-cd/symmcheck-cd.c:150-207 | sending, delivering, losing, duplicating and reordering beacons and any neighbour change keep: beacons never promise less than the sender has, next hops are two-way neighbours of smaller metric, finite metrics are backed by a path; and no metric rises |
| `DiscoveryRuns.MetricsNeverIncrease` | contiki-sdn/sdn-cd/symmcheck-cd.c:168-177 | between any two states of a run |
| `DiscoveryRuns.AdoptionsAreBounded` | contiki-sdn/sdn-cd/symmcheck-cd.c:168-177 | a node adopts fewer than 65535 times in any run, every adoption being paid for with metric |
| `DiscoveryRuns.NextHopsReachController` | contiki-sdn/sdn-cd/symmcheck-cd.c:146-148 | in every state of every run, from any node with finite metric the next hops reach a controller in at most metric hops and never return to the node |
| `DiscoveryRuns.MetricIsHopDistance` | contiki-sdn/sdn-cd/symmcheck-cd.c:156-177 | a finite metric is never below the hop distance over two-way links; in a quiet state it is exactly that distance |
| `DiscoveryRuns.DistanceIsReached` | contiki-sdn/sdn-cd/symmcheck-cd.c:150-207 | from every sound state, whatever was lost before, there are meetings, beacons and deliveries after which a node has its exact distance |
| `Discovery.SymmcheckNode.constructor` | contiki-sdn/sdn-cd/symmcheck-cd.c:88-105 | metric 0 at a controller and the maximum elsewhere, first interval from the address, between 10 and 19 seconds |
| `Discovery.SymmcheckNode.Input` | contiki-sdn/sdn-cd/symmcheck-cd.c:150-188 | the new metric and next hop, an immediate beacon exactly on adoption, a reset exactly when the sender needs help |
| `Discovery.SymmcheckNode.Wake` | contiki-sdn/sdn-cd/symmcheck-cd.c:107-144 | which beacons leave on timer and posted events; the interval doubles up to 600 seconds, and after a reset, which writes its low byte only, is between 10 and 19 |
| `RetransmissionWindow.LiveIsFirst` | contiki-sdn/sdn-send.c:416-451 | at most one buffer is in use for a key, and it is the first that carries the key at all, stale ones included |
| `RetransmissionWindow.RemoveKeyIsExact` | contiki-sdn/sdn-send.c:416-451 | removal by key, which ignores occupancy, releases exactly the waiting packet of that key and changes nothing when there is none |
| `RetransmissionWindow.AwaitIsExact` | contiki-sdn/sdn-send.c:453-535 | the window behaves like a map from keys to packets with four places: a new or newer packet waits afterwards, all others are kept, full is reported exactly when the key is new and all four buffers are in use |
| `RetransmissionWindow.RemovedKeepsOk` | contiki-sdn/sdn-send.c:384-394 | removing any buffer keeps the window well formed and lowers the hint to it |
| `RetransmissionWindow.FireKeepsOk` | contiki-sdn/sdn-send.c:358-382 | a timer keeps the window well formed, with or without a free packet buffer |
| `RetransmissionWindow.EveryStateIsOk` | contiki-sdn/sdn-send.c:384-535 | in every run: all buffers below the hint are in use and no buffer below one in use carries its key |
| `RetransmissionWindow.AckReleases` | contiki-sdn/sdn-send.c:396-404 | an acknowledgement by type and number releases a waiting packet exactly when no buffer below it matches too |
| `WindowContents.AwaitInBytes` | contiki-sdn/sdn-send.c:453-535 | only own packets of the four reliable types count; one with the type of a waiting packet and, but for reports, the same bytes 8 and 9 is not kept beside it: a newer report takes its place, a repeated request changes nothing; any other is kept in a buffer not in use, or refused when there is none |
| `WindowContents.RemovalInBytes` | contiki-sdn/sdn-send.c:396-451 | acknowledgement, purge and the arrival of a setup free the first buffer whose type and number, type, or type and bytes 8 and 9 match, in use or not, and change nothing else |
| `WindowContents.FireReleases` | contiki-sdn/sdn-send.c:358-382 | the timer takes the packet out of the window, an own one with a new number in byte 3, and every other packet waits on; without packet buffer nothing changes |
| `RetransmissionWindow.SendWindow.RemoveElement` | contiki-sdn/sdn-send.c:384-394 | length cleared, timer stopped, hint lowered |
| `RetransmissionWindow.SendWindow.RemoveFirstMatch` | contiki-sdn/sdn-send.c:396-451 | the first match, in use or not, is removed |
| `RetransmissionWindow.SendWindow.HasRetransmission` | contiki-sdn/sdn-send.c:325-355 | true exactly when a packet waits under the key |
| `RetransmissionWindow.SendWindow.ReplaceReports` | contiki-sdn/sdn-send.c:474-482 | the waiting report is replaced where it is |
| `RetransmissionWindow.SendWindow.AwaitAck` | contiki-sdn/sdn-send.c:453-535 | the window afterwards and the result are the specified ones; a timer runs exactly for the buffers in use |
| `RetransmissionWindow.SendWindow.TimerExpired` | contiki-sdn/sdn-send.c:358-382 | the packet leaves the window unless the pool is empty |
| `SerialFraming.Stuff` | contiki-sdn/sdn-serial.c:189-200 | no flag octet occurs inside a frame |
| `SerialFraming.FrameEncode` | contiki-sdn/sdn-serial.c:183-203 | the encoder writes flag, stuffed octets, flag |
| `SerialFraming.FrameInOctets` | contiki-sdn/sdn-serial.c:183-203 | a frame is 0x7E, the octets, 0x7E; 0x7E and 0x7D are sent as 0x7D 0x5E and 0x7D 0x5D, all others as they are |
| `SerialRoundTrip.FrameRoundTrip` | contiki-sdn/sdn-serial.c:110-172 | a single frame of any length: exact between header and buffer size, dropped when shorter, dropped by the node and cut by the PC when longer |
| `SerialRoundTrip.LegalStreamRoundTrip` | controller-server/controller-pc/serializer.cpp:56-131 | from a clean decoder the encodings of any packets between header and maximum size decode to exactly those packets |
| `SerialRoundTrip.StreamRoundTrip` | contiki-sdn/sdn-serial.c:110-203 | the same for packets of any lengths, with what happens to each |
| `SerialRoundTrip.TwoFlagsClean` | controller-server/controller-pc/serializer.cpp:86-113 | two flags in a row clean the decoder from any state at the node, and at the PC from any state that does not both escape and overflow |
| `SerialRoundTrip.PcNeverOverflows` | controller-server/controller-pc/serializer.cpp:124-128 | the PC decoder never notes an overflow, so the exception is not reached |
| `SerialRoundTrip.ResynchronisesAfterNoise` | contiki-sdn/sdn-serial.c:110-172 | after any bytes whatever and one sacrificed frame every later frame arrives as from a clean decoder |
| `SerialFraming.NodeDecoder.ByteReceived` | contiki-sdn/sdn-serial.c:110-172 | one byte; a frame no longer than a packet is handed on complete, and the structure delivered last stays untouched as long as the current frame fits its own |
| `SerialFraming.Serializer.ProcessByte` | controller-server/controller-pc/serializer.cpp:86-131 | one byte; the emitted buffer begins with the frame |
| `SerialFraming.Serializer.ProcessBytes` | controller-server/controller-pc/serializer.cpp:139-146 | every frame of the stream is emitted at the head of a full buffer |
| `DuplicateDetection.TableIsLatest` | contiki-sdn/sdn-receive.c:175-193 | for any history of non-null senders the array is the list of the most recently registered distinct senders, newest first, each with its latest number |
| `DuplicateDetection.DuplicateIsExact` | contiki-sdn/sdn-receive.c:150-173 | the test answers exactly from that list or the own address; a null source with number 0 counts as duplicate while a place is unused |
| `DuplicateDetection.RegisterOnPadded` | contiki-sdn/sdn-receive.c:175-193 | shifting the bounded array is moving to the front of the unbounded list |
| `DuplicateDetection.SeqnoTable.CheckDuplicate` | contiki-sdn/sdn-receive.c:150-173 | the loop with its early break computes the test |
| `DuplicateDetection.SeqnoTable.Register` | contiki-sdn/sdn-receive.c:175-193 | the shift in place |
| `SourceRouting.RouteIsFollowed` | controller-server/sdn-process-packets-controller.c:929-1006 | a built packet visits the nodes of the route in order; up to 49 intermediate nodes it ends at the real destination, otherwise the setup goes on by flow table to it from the last node that fits and an acknowledgement is dropped; length checks and hop limit never stop it |
| `SourceRouting.PassesOn` | sdn-common/sdn-process-packets.c:327-337 | a node takes its successor from the end of the path and the packet gets shorter by one address |
| `SourceRouting.PathUsedUp` | sdn-common/sdn-process-packets.c:308-325 | with no path left the real destination takes the packet and anyone else turns a setup into one routed by address |
| `SourceRouting.TreatInBytes` | sdn-common/sdn-process-packets.c:308-400 | in offsets and sizes: malformed exactly when fixed part or path do not fit; sent on when another node is the destination; else the last address of the path becomes the destination and leaves the packet, or the packet arrives, is lost, or becomes one of 13 bytes routed by address; all other bytes stay |
| `SourceRouting.BuiltInBytes` | controller-server/sdn-process-packets-controller.c:929-1006 | in offsets: type, hop limit 60, number, source, first node, fields, real destination, the number of addresses, and the route behind them from the target side on, at most 49 addresses |
| `SourceRouting.Packet` | sdn-common/sdn-process-packets.c:761-780 | at every hop the length is header plus one address per remaining path element and fits the maximum size |
| `SourceRouting.BuildPacket` | controller-server/sdn-process-packets-controller.c:968-1003 | the bytes written are the specified packet, cut at the target end when the route is too long |
| `SourceRouting.PopAddress` | sdn-common/sdn-process-packets.c:327-337 | path length, destination and packet length in place |
| `SourceRouting.StripRoute` | sdn-common/sdn-process-packets.c:317-325 | type and destination in place |
| `SourceRouting.TreatPacket` | sdn-common/sdn-process-packets.c:969-1070 | the dispatch of a source-routed packet as specified, malformed ones included |
| `FuzzyMetric.MembershipsSumToOne` | controller-server/digraph/mamdani-fuzzy-model-metric.c:688-769 | memberships are split between at most two neighbours and sum to one |
| `FuzzyMetric.SomeRuleFires` | controller-server/digraph/mamdani-fuzzy-model-metric.c:201-217 | some rule fires with at least one half, so the mean of maxima never divides by zero |
| `FuzzyMetric.MeanIsClosed` | controller-server/digraph/mamdani-fuzzy-model-metric.c:264-311 | the mean of maxima in closed form, across all ties and region borders; FuzzyShapes.CentreIsMidpoint says what the centres in it are |
| `FuzzyShapes.CentreIsMidpoint` | controller-server/digraph/mamdani-fuzzy-model-metric.c:771-823 | for every output shape, given as a membership function over 0 to 100, and every strength in (0, 1] the centre the code computes is the midpoint of the scores at which the shape reaches that strength |
| `FuzzyShapes.StrongestRuleCounts` | controller-server/digraph/mamdani-fuzzy-model-metric.c:201-217 | level i of the transmission metric and level j of energy vote for shape 2 + j - i; the strength of a shape is the largest of the smaller degrees of its rules |
| `FuzzyShapes.MeanIsMeanOfMidpoints` | controller-server/digraph/mamdani-fuzzy-model-metric.c:264-311 | the mean of maxima is the mean of the midpoints of the strongest shapes |
| `FuzzyShapes.WeightIsMeanOfMidpoints` | controller-server/digraph/mamdani-fuzzy-model-metric.c:155-199 | below energy 12 the weight is 100, otherwise the mean of those midpoints, at least 1, without its fraction |
| `FuzzyShapes.WeightAtLevels` | controller-server/digraph/mamdani-fuzzy-model-metric.c:155-199 | inputs that belong to one level each have weight 100, 75, 50, 25 or 1 |
| `FuzzyMetric.WeightIsMonotone` | controller-server/digraph/mamdani-fuzzy-model-metric.c:155-199 | the weight never falls as the transmission metric grows and never rises as energy grows |
| `FuzzyMetric.FuzzyIsGoodMetric` | controller-server/digraph/mamdani-fuzzy-model-metric.c:155-199 | every weight lies between 1 and 100 |
| `FuzzyMetric.FuzzyModel.Fuzzify` | controller-server/digraph/mamdani-fuzzy-model-metric.c:688-769 | the three memberships |
| `FuzzyMetric.FuzzyModel.EvalRules` | controller-server/digraph/mamdani-fuzzy-model-metric.c:201-217 | the five strengths |
| `FuzzyMetric.FuzzyModel.MeanOfMaximum` | controller-server/digraph/mamdani-fuzzy-model-metric.c:264-311 | the mean over the strongest shapes, which is that of their midpoints by FuzzyShapes.MeanIsMeanOfMidpoints |
| `FuzzyMetric.FuzzyModel.GetWeight` | controller-server/digraph/mamdani-fuzzy-model-metric.c:155-199 | the weight of the model, which FuzzyShapes.WeightIsMeanOfMidpoints states in midpoints |
| `DummyMetric.DummyIsGoodMetric` | controller-server/digraph/dummy-metric.c:42-83 | the metric of the configured build also lies between 1 and 100; below the energy threshold it is 100, above it the transmission metric itself, cut to that range |
| `PacketBuffers.StepKeepsOk` | sdn-common/sdn-unknown-route.c:132-199 | every step of reception, dispatch, sending, retransmission timing and table change keeps one owner per buffer |
| `PacketBuffers.EveryBufferHasOneOwner` | sdn-common/sdn-unknown-route.c:132-199 | in every state of every run each buffer is in exactly one of free pool, receive queue, send queue, waiting room and the lost ones, no packet waits for a flow or destination the tables know, and the sender is idle unless the send queue holds something |
| `PacketBuffers.StepLosesExactly` | sdn-common/sdn-send-packet.c:374-493 | a step loses a buffer exactly when it performs a management request that the node cannot answer while the pool has a buffer; a lost buffer never comes back |
| `PacketBuffers.NothingIsLost` | sdn-common/sdn-send-packet.c:374-493 | a run has lost no buffer exactly when no step of it has performed such a request |
| `PacketBuffers.RequestsExhaustPool` | sdn-common/sdn-send-packet.c:374-493 | as many unanswerable requests as there are buffers leave a fresh node with an empty pool and nothing in its queues |
| `PacketBuffers.TreatedGrows` | contiki-sdn/sdn-send.c:122-199 | treating the packet at the head of the send queue leaves it at the head, so the right packet is dequeued |
| `PacketBuffers.SolvedKeepsOk` | sdn-common/sdn-unknown-route.c:132-183 | solving an unknown route empties the waiting room of its packets without losing a buffer |
| `SendPath.EmitAppends` | sdn-common/sdn-common-send.h:13-27 | an emitted packet comes to the end of the send queue exactly when there is a buffer and the queue is not full; all other packets stay where they are |
| `SendPath.ReportRenews` | sdn-common/sdn-send-packet.c:155-231 | a neighbour report takes the place of the first own one that is still in the send queue and keeps its number; otherwise it is emitted |
| `SendPath.LearnReleases` | sdn-common/sdn-unknown-route.c:132-183 | when a flow or destination gets known, exactly the packets that wait for it leave the waiting room and come into the send queue in the order of their places until it is full; a buffer goes back to the pool only then |
| `SendPath.RadioAppends` | contiki-sdn/sdn-receive.c:63-109 | a received packet is queued with its hop limit lowered by one exactly when there is a buffer, the limit is not zero and the queue is not full; otherwise nothing changes |
| `SendPath.ForwardAppends` | contiki-sdn/sdn-core.c:203-227 | a packet to be forwarded comes to the end of the send queue, if there is a buffer and room, and is off the receive queue |
| `SendPath.UnknownWaits` | sdn-common/sdn-unknown-route.c:186-199 | a packet for an unknown flow or destination is put into the first empty place of the waiting room, if there is one and a buffer |
| `SendPath.KnownDecides` | sdn-common/sdn-process-packets.c:867-967 | a packet can go on exactly from the moment its flow or destination is learnt until it is forgotten |
| `SendPath.MalformedIsDropped` | sdn-common/sdn-process-packets.c:969-1070 | a malformed packet is dropped and changes no other |
| `SendOrder.StepIsFifo` | contiki-sdn/sdn-send.c:122-321 | every step takes at most the head out of the send queue, and only when it has been sent or is not for sending; the others stay in their order, own reports perhaps renewed |
| `SendOrder.RunIsFifo` | contiki-sdn/sdn-send.c:122-321 | in every run packets leave the send queue in the order in which they came into it, and none is overtaken or taken out |
| `SendOrder.SenderIsAwake` | contiki-sdn/sdn-send.c:103-111 | in every state of every run the sender is idle exactly when the send queue is empty |
| `SendOrder.QueueDrains` | contiki-sdn/sdn-send.c:122-301 | turn by turn the radio gets exactly the queued packets in their order, and the sender ends idle |
| `PacketBuffers.RingQueue.Enqueue` | sdn-common/sdn-queue.c:117-149 | the contents grow at the end unless the queue is full |
| `PacketBuffers.RingQueue.Dequeue` | sdn-common/sdn-queue.c:99-115 | the contents lose their first element; an empty queue stays as it is and hands out its stale head place |
| `PacketBuffers.NodeBuffers.GetCopy` | sdn-common/sdn-packetbuf.c:41-47 | the first free buffer, or NULL |
| `PacketBuffers.NodeBuffers.StorePacket` | sdn-common/sdn-unknown-route.c:186-199 | a copy in the first empty place, if there is one and the pool has a buffer |
| `PacketBuffers.NodeBuffers.SolveUnknown` | sdn-common/sdn-unknown-route.c:132-183 | all packets of the key move to the send queue, or back to the pool when it is full; SendPath.LearnReleases says which and in what order |
| `PacketBuffers.NodeBuffers.FindOwnReport` | sdn-common/sdn-queue.c:151-169 | the place of the first own report in the send queue |
| `PacketBuffers.NodeBuffers.SendReport` | sdn-common/sdn-send-packet.c:155-231 | the queued report is written over, or the new one emitted |
| `PacketBuffers.NodeBuffers.Receive` | contiki-sdn/sdn-receive.c:63-109 | hop limit tested and lowered, queued or given back |
| `PacketBuffers.NodeBuffers.CoreTurn` | contiki-sdn/sdn-core.c:203-227 | one received packet is treated and its buffer given back; SendPath.ForwardAppends, UnknownWaits and MalformedIsDropped say what becomes of it |
| `PacketBuffers.NodeBuffers.SendTurn` | contiki-sdn/sdn-send.c:129-198 | the head is sent or treated and retired |
| `PacketBuffers.NodeBuffers.Retire` | contiki-sdn/sdn-send.c:288-300 | the head leaves, its buffer goes back, the next packet is started |

## Left out

- 32-bit arithmetic on route weights: weights are at most 100 per edge, sums are unbounded here.
- The widest-path variants of the search and of the route check, which the build does not select.
- Removing edges towards a vertex and the `*_remove_source` functions of the cache, which the build does not use.
- Energy reports: energies are arbitrary and change only between reports; weights stored before stay as they are.
- Controllers.Controller.ProcessReport: runs the pass of its own table; the code runs those of both tables one after the other.
- ConsistentRuns.TableAgreesWithDigraph: the table by address only, and as far as no pass of the list reads a NULL header.
- What happens after a NULL header has been read: the methods return `crashed`; the runs of `ControllerRuns` go on as if the route were lost, so they contain all runs of the code up to such a read.
- UpdatePass.PassMakesConsistent: the table by address only; flow ids may have several targets and the controller flow is never dropped.
- RunSafety.EveryRunIsLoopFree: keys with one target; with two the claim is false.
- SetupContents.NodeIsTold: the packet travels over the links of the moment and none is lost on the way; a setup of the controller for itself takes no route.
- The re-entrancy of the controller's send path into packet treatment: a push is a record in `pushes`.
- Node restarts in discovery: a restarted node raises its metric, which no running node does.
- RetransmissionWindow.AckReleases: which packet an acknowledgement by 8-bit sequence number was meant for is not modelled, because numbers wrap.
- Whether a retransmission is lost when the send queue is full but the pool is not: the packet then leaves the window unsent.
- SerialFraming.NodeDecoder.ByteReceived: what lies behind the packet structures in memory, which the two octets accepted beyond a packet overwrite.
- Printing over the serial link, which writes the packet header without stuffing.
- Setups for several nodes in one packet, and the contents of management packets.
- The sequence number an own packet gets when it is sent: it is part of the packet that is emitted here.
- The freeing of flow-table entries by next hop without unlinking them; forgetting an entry is a plain removal here.
- Floats: the link metrics are over the reals.
- The centroid alternative of the fuzzy metric, which the code does not call.
- The loss history of neighbour discovery, the security modules, Qt windows, sockets, radio, process scheduling, malloc failure and printing.
