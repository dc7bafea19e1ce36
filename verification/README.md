# A model of the many-core platform's circuit manager, kernel messaging and applications

The platform is a grid of processors joined by one packet-switched and several circuit-switched networks. This project models,
and proves properties of, four parts of its software. Everything is in Dafny, one module a file; `dafny verify dfyconfig.toml`
checks the whole.

**Circuit search and reservation** (`applications/MAN_app/SDN_includes/noc_manager.h`). A cluster's controller keeps, for every
router, subnet and input port, the output port it leads to. `Search` is the search by detour numbers on values: a list of popped
and a list of waiting routers, and what every step of the search keeps. `Circuits` says what it means for the port table to be
exactly a disjoint union of live circuits and faulty ports, with the utilisation counters their sum. `Walks` is the walk backwards
that writes a route, over whatever ports it finds, and `Plans` says when it keeps to the route that was searched. `NocManager` is the
controller itself: a class over arrays whose methods are the source's functions, loop by loop, proved against those four. Grid size,
number of subnets and cluster grid are arbitrary.

- A search that succeeds pops its target last, and the router that the retrace finds first as a neighbour is the one that
  discovered the current one; so a retrace right after the search follows the discovery tree, meets each router once and writes free
  ports only.
- A retrace tests every hop again. One that comes later keeps to the route exactly when each hop of it is still free, or leads, before
  the last router, from the router popped right before, which is taken without a test. Other faults do not matter. Otherwise it goes
  astray: with its only hop lost, a two-router route gets an entry at the target's south port and one for the lost port that leads
  north. The fault handler does not look at what is held, so this can happen.
- Labels are set once and never lowered. That makes the search sound, and complete without the minimal-path flag; with the flag a
  found route has Manhattan length, but a failure only means that the search ran into a detour. It does not where going nearer hop by
  hop never comes to a dead end, as when every router of the rectangle has a usable hop nearer to the target: then the search goes
  straight there, since nothing nearer than the last popped router is labelled yet and ties go to the latest.
- `ConnectionSetup` fails exactly when every subnet has a busy port at the source or the target, or no free path, and opens a circuit
  without a detour if one of them has free local ports and no dead end on the way. After any
  sequence of setups and releases, in any order, the table and the counters depend on the set of live circuits alone.

**The protocol between controllers** (`applications/MAN_app/noc_manager.c`, `SDN_includes/token_queue.h`). `Protocol` is a
transition system over any number N >= 2 of controllers and a bag of messages: token, border collection, detailed routing,
release. `ProtocolInvariant` is its invariant, step by step, and `ProtocolSafety`, `ProtocolRetries` and `ProtocolProgress` the results over whole runs: one master, no error
loop entered, tokens granted in order of arrival, a global path written everywhere or nowhere. `ClusterManager` is the same as a
class whose handlers change the controller's own fields; each does exactly what the step of the protocol says. `TokenQueue` is the
ring buffer. `GlobalRouting` is the master's choice of a subnet and the retries after a refusal, and `Borders` (with `Bits`) the
border words and the rule by which two clusters pick the same crossing without talking to each other.

- Between its yes and its commit every cluster of the path keeps the route it answered for. It finds the ports of that route free
  exactly when none of them was reported faulty since the cluster described its borders, and then a commit writes just that route;
  otherwise what it writes is left open. `ProtocolExample` is a run in which a held port turned faulty. The count starts at the border
  description as the port by which a route enters a cluster is chosen from it and not tested again.
- A no costs the pair of its own cluster and the subnet, and the target's where the source says it, and no more. So the retries cannot
  miss a path whose clusters never say no: `GlobalRouting` proves that they end with success if there is one at the start, and
  `ProtocolRetries` that in every run such a path stays enabled from attempt to attempt, and that the answers decide: unanimity commits.
- While the token is held, what its holder waits for is on its way, and every delivery brings the token nearer to its return: by phase,
  then by attempts left, as each no costs a pair of a cluster and a subnet, then by answers outstanding (`ProtocolProgress`).

**Kernel messaging** (`software/kernel/modules`). `RequestTable`, `TaskLocation` and `CtpTable` are the kernel's arrays as classes.
`Processor` is blocking Send and Receive on one processor, `Messages` any number of processors, tasks and applications exchanging
requests and deliveries, `Whereabouts` the location entries that follow a moving task, `Mobility` the same system with tasks that
move and take their pending requests along, and `MessageSafety` and `MessageProgress` the results over all its runs. `Migration` is the kernels' own
move of requests and locations in place. `Switching` is a task pair that changes between packets and circuits, on the same or
different subnets, while it runs, and `Enforcer` the kernel's handlers for that change in place, on subnets that the managers' circuits
keep apart.

- A consumer waits exactly when exactly one request or delivery for it exists somewhere, what it has received is a prefix of what
  was sent, at most one message short, and no request ever meets a full table, however the tasks move.
- From every such state the run can go on so that the message comes, through all moves that are under way, unless the producer waits
  for a message itself or finds no room for its location where it is going.
- The code does not look at whether an insertion into the request table succeeded. It need not: a table has a slot for every pair of
  a task with a control block there and another task of its application, an arriving task has its control block already, and pairs
  are entered once. So a migration keeps every pending request.
- A task that leaves always finds the location entry its host has to replace. But entries stay behind when tasks move on, and a table
  has a slot only for every local task and task of its application: `MobilityExample` is a run in which a task's new host has no room
  for its location, where the kernel spins. It does exactly when what it knows and is told together is more than the table, so never
  where the table has room for all tasks there are.
- An order to change mode is kept in a word of the task control block that is tested against zero. The word holds the producer's
  number, which is never zero, as applications are numbered from 1; the results on switching are for such producers.

**Four algorithms.** `Dijkstra` (shortest paths with 9999 as infinity), `Dtw` (time warping with two rolling columns), `AesTables`,
`AesField`, `Aes` and `AesCipher` (the block cipher of FIPS 197 with its tables, sections 4.2, 5.1 and 5.3), `Adpcm` (the adaptive
state of the decoder of ITU-T Recommendation G.722, section 6.2.1, blocks 3L and 4L).

- On a disconnected graph the loop relaxes an old node again, which changes nothing.
- The substitution box is the affine image of the inverse in the field and each step of a round is, byte by byte, that of FIPS 197, so
  the rounds are the standard's and not just some that can be undone.
- Encryption makes 14 rounds for every key size but 128 and 192, and decryption 14 only above 192 and 12 only above 128. The round
  trip holds exactly for key sizes 128, 192 and everything above 192; for others some key schedule breaks it.
- The delay line of the zero section never writes its third tap, so the sections predict from two difference signals, not six.

## Model

| member | source | states |
|---|---|---|
| Search.StartFrontier | applications/MAN_app/SDN_includes/noc_manager.h:525-539 | a search that has only its source popped is a frontier: labelled routers are the popped and the waiting ones, each discovered by the earliest popped neighbour with a usable hop |
| Search.LabelStep | applications/MAN_app/SDN_includes/noc_manager.h:551-581 | labelling one free neighbour of the last popped router keeps the frontier, labels monotone along the lists, and the Manhattan accounting of detours |
| Search.LastLinksFirst | applications/MAN_app/SDN_includes/noc_manager.h:551-581 | an unlabelled neighbour cannot have a hop from any router popped earlier, so the router that labels it is its first finder |
| Search.PopStep | applications/MAN_app/SDN_includes/noc_manager.h:253-283 | popping a waiting router of least label keeps the frontier and never lets popped labels decrease |
| Search.BestIsTarget | applications/MAN_app/SDN_includes/noc_manager.h:264-274 | a target that was labelled last is the router popped next, since ties take the latest entry |
| Search.FrontierIsDiscoveryList | applications/MAN_app/SDN_includes/noc_manager.h:527-601 | the popped routers form a discovery list: every one but the source was first touched by one popped before it |
| Search.RouteIsSimplePath | applications/MAN_app/SDN_includes/noc_manager.h:400-476 | following the finders back from any popped router gives a path over usable hops that visits each router once, at strictly rising list positions |
| Search.ExhaustedIsUnreachable | applications/MAN_app/SDN_includes/noc_manager.h:544-603 | when nothing is waiting and the target has no label, no path over usable hops exists |
| Search.RouteLength | applications/MAN_app/SDN_includes/noc_manager.h:573-580 | the branch to a router has Manhattan length plus twice its detour label, minus the distance still to go |
| Search.FinishedSearch | applications/MAN_app/SDN_includes/noc_manager.h:573-603 | a search that popped its target last has a route to it of exactly Manhattan length plus two hops per unit of detour |
| Search.StepsDown | applications/MAN_app/SDN_includes/noc_manager.h:253-283 | while the search has come down to a router without a detour and no labelled router is nearer to the target, the router popped next is again a nearer neighbour without a detour, if there is a usable one: earlier labels are at least 0 and their routers wait before the new ones |
| Search.RectangleHasNoDeadEnd | applications/MAN_app/SDN_includes/noc_manager.h:573-580 | a path each of whose hops comes nearer stays in the rectangle that source and target span, so there is no dead end where every other router of the rectangle has a usable hop nearer to the target |
| Search.FrontierFits | applications/MAN_app/SDN_includes/noc_manager.h:583-601 | popped and waiting routers together are different routers of the grid, so neither list overruns its array |
| Search.RoomForOneMore | applications/MAN_app/SDN_includes/noc_manager.h:582-584 | an unlabelled router of the grid means a free place in the waiting list |
| Search.LabelBound | applications/MAN_app/SDN_includes/noc_manager.h:575-580 | twice any label is at most w*h+w+h-3, which keeps labels within a signed char on grids up to 15 by 15 |
| NocManager.Controller.constructor | applications/MAN_app/SDN_includes/noc_manager.h:189-208 | all ports free, counters zero, local mode: the books hold with no live circuit |
| NocManager.Controller.ClearSearch | applications/MAN_app/SDN_includes/noc_manager.h:156-167 | both lists empty and no router labelled |
| NocManager.Controller.RemoveMinDetour | applications/MAN_app/SDN_includes/noc_manager.h:253-283 | takes the latest waiting router of least label and keeps the others in order |
| NocManager.Controller.ExpandVertex | applications/MAN_app/SDN_includes/noc_manager.h:559-591 | labels exactly the free unlabelled neighbours in the order east, west, north, south, stopping at the target, and says whether the target was labelled |
| NocManager.Controller.Hadlock | applications/MAN_app/SDN_includes/noc_manager.h:519-607 | stays within the arrays and ends; success means the target is labelled, popped last and reached by a route of Manhattan length plus two per detour; without the minimal-path flag failure means no path exists; with it success means no detour; with or without it the search succeeds without a detour wherever going nearer hop by hop never comes to a dead end |
| NocManager.Controller.ReachableIsUsable | applications/MAN_app/SDN_includes/noc_manager.h:127-153 | the reachability test is membership in the set of usable hops, of free input ports locally and of enabled clusters with an open border globally |
| Walks.EntriesInstall | applications/MAN_app/SDN_includes/noc_manager.h:337-512 | marking the target and writing a circuit's own routers from the target back installs the circuit, whatever its entries held, and changes nothing else |
| Walks.EntriesCount | applications/MAN_app/SDN_includes/noc_manager.h:445-500 | the routers counted on the way are those that the circuit passes |
| Walks.LostHopGoesAstray | applications/MAN_app/SDN_includes/noc_manager.h:400-476 | on any table in which the only hop of a two-router route is not free, a retrace writes the target's south port, then the lost port towards the north, then the source |
| Plans.FindsParent | applications/MAN_app/SDN_includes/noc_manager.h:402-424 | a step back, on ports some of which were lost since the search, comes to the router that discovered the current one exactly when the hop between them is not lost, or that router was popped right before and the current one is not the target |
| Plans.RetraceFollowsRoute | applications/MAN_app/SDN_includes/noc_manager.h:337-512 | with any ports lost since the search, a retrace passes the routers of the found route by the ports of the route exactly when every hop of the route survives in that sense; in a global search it always does |
| Plans.OthersDoNotMatter | applications/MAN_app/SDN_includes/noc_manager.h:402-424 | every hop survives the loss of ports that the circuit does not use |
| NocManager.Controller.FindPrevious | applications/MAN_app/SDN_includes/noc_manager.h:402-424 | the first listed router that is adjacent with a hop usable now into the current one, or the last position, which is not tested |
| NocManager.Controller.Retrace | applications/MAN_app/SDN_includes/noc_manager.h:337-512 | from any list of popped routers and on any ports, writes exactly the walk back over them and adds the routers passed to the counter in local mode; in global mode lists the clusters with their sides and changes no table |
| NocManager.Controller.DetailedRouting | applications/MAN_app/noc_manager.c:870-903 | answers yes exactly when the local end ports are free and a path over free input ports exists, and then holds, in local mode, a route from entry to exit; a border port is not tested |
| NocManager.Controller.FaultsAreRemembered | applications/MAN_app/SDN_includes/noc_manager.h:215-226 | reports after a search leave the held route's plan in place, with the reported ports lost |
| NocManager.Controller.HeldRouteSurvives | applications/MAN_app/SDN_includes/noc_manager.h:337-512 | a retrace of a held route, after any reports, writes the routers of that route exactly when its hops survive, and then installs the circuit and counts its routers |
| NocManager.Controller.CommitHeldRoute | applications/MAN_app/SDN_includes/noc_manager.h:337-512 | a held route between free ports becomes one more live circuit on the books, whatever other ports were reported faulty since the search |
| Circuits.FollowEntry | applications/MAN_app/SDN_includes/noc_manager.h:693-735 | the stored output port of a live circuit leads to its next router, or out of the cluster behind its last one |
| Circuits.ClearUndoesInstall | applications/MAN_app/SDN_includes/noc_manager.h:337-752 | clearing a circuit just installed on free ports restores the table |
| Circuits.CommitKeepsBooks | applications/MAN_app/SDN_includes/noc_manager.h:337-512 | installing on free ports and counting its routers keeps the table a disjoint union of live circuits and faults and each counter the sum of routers passed |
| Circuits.ReleaseKeepsBooks | applications/MAN_app/SDN_includes/noc_manager.h:672-752 | clearing any live circuit and uncounting its routers keeps the books of the others |
| Circuits.InstallKeepsPartition | applications/MAN_app/SDN_includes/noc_manager.h:337-512 | a circuit on free ports is disjoint from all live ones |
| Circuits.ClearKeepsPartition | applications/MAN_app/SDN_includes/noc_manager.h:672-752 | clearing one circuit frees exactly its own entries |
| Circuits.FaultKeepsPartition | applications/MAN_app/SDN_includes/noc_manager.h:215-246 | blocking ports keeps the partition exactly when no live circuit uses one of them |
| Circuits.PartitionDeterminesTable | applications/MAN_app/SDN_includes/noc_manager.h:337-752 | the same live circuits in any order, with the same faults, mean the same table and counters, so opening and closing in any order leaves no trace |
| Circuits.SourceNamesCircuit | applications/MAN_app/SDN_includes/noc_manager.h:672-676 | source router and subnet name at most one live circuit |
| Circuits.TargetNamesCircuit | applications/MAN_app/SDN_includes/noc_manager.h:348-350 | target router and subnet name at most one live circuit |
| NocManager.Controller.TrySubnet | applications/MAN_app/SDN_includes/noc_manager.h:617-670 | opens a circuit on one subnet only where both local ports are free and a free path exists, and changes nothing otherwise; the minimal round opens one wherever both local ports are free and going nearer over free ports never comes to a dead end |
| NocManager.Controller.ConnectionSetup | applications/MAN_app/SDN_includes/noc_manager.h:617-670 | fails exactly when every subnet has a busy source port, a busy target port or no free path, and then changes nothing; otherwise adds one live circuit from source to target, which has no detour if some subnet has free local ports and no dead end on the way, and comes no later in the round than such a subnet; a circuit with a detour is on the first subnet, going round from the one after the last tried, that can connect the two |
| Circuits.FreeRectangleConnects | applications/MAN_app/SDN_includes/noc_manager.h:617-670 | such a subnet is any with both local ports free and, at every router of the rectangle between the two but the target, a free port to go on by that is nearer to the target |
| NocManager.Controller.ConnectionRelease | applications/MAN_app/SDN_includes/noc_manager.h:672-752 | frees exactly the named live circuit and gives back its routers, ending at the target or where the circuit leaves the cluster |
| NocManager.Controller.SetFault | applications/MAN_app/SDN_includes/noc_manager.h:215-226 | blocks the port a report names, or every port of the router for code 6, whatever uses it, and refuses any other code; the books stay right exactly when no live circuit uses a blocked port |
| TokenQueue.Queue.AddTokenRequest | applications/MAN_app/SDN_includes/token_queue.h:26-47 | appends to the queue; refused exactly when it is full |
| TokenQueue.Queue.GetNextTokenRequest | applications/MAN_app/SDN_includes/token_queue.h:53-72 | takes the oldest entry; -1 exactly when the queue is empty |
| ProtocolInvariant.InitHolds | applications/MAN_app/noc_manager.c:1817-1843 | the start of the main loop satisfies the invariant |
| ProtocolInvariant.BorderRequestKeeps | applications/MAN_app/noc_manager.c:1435-1448 | UPDATE_BORDER_REQUEST finds its receiver IDLE, and handling it keeps the invariant |
| ProtocolInvariant.DetailRequestKeeps | applications/MAN_app/noc_manager.c:870-903 | DETAILED_ROUTING_REQUEST finds a GLOBAL_SLAVE, and a yes leaves it holding, in local mode, the route it answered for, on ports that are free but for those reported faulty since it described its borders |
| ProtocolInvariant.ModeReleaseFinds | applications/MAN_app/noc_manager.c:1458-1471 | GLOBAL_MODE_RELEASE finds a GLOBAL_SLAVE, and one that configures finds it still holding the route it answered for in this attempt, of whose ports exactly those are occupied that were reported faulty since it described its borders |
| ProtocolInvariant.ModeReleaseKeeps | applications/MAN_app/noc_manager.c:1218-1269 | committing or not, the answer keeps the invariant |
| ProtocolInvariant.BorderAckKeeps | applications/MAN_app/noc_manager.c:1309-1334 | the last border answer starts global routing with everyone else a GLOBAL_SLAVE |
| ProtocolInvariant.DetailResponseKeeps | applications/MAN_app/noc_manager.c:585-673 | the last answer of a path commits if all said yes and starts the next attempt otherwise, and keeps the invariant |
| ProtocolInvariant.AllAnswered | applications/MAN_app/noc_manager.c:629-656 | when the counter reaches the path length every cluster of the path has answered, and if all said yes each holds the route it answered for |
| ProtocolInvariant.GlobalRoutingKeeps | applications/MAN_app/noc_manager.c:935-1125 | one attempt sends exactly one request to every other cluster of the path |
| ProtocolInvariant.SendModeReleaseKeeps | applications/MAN_app/noc_manager.c:464-563 | a release reaches every other controller and configures exactly the clusters of the path |
| ProtocolInvariant.ModeReleaseAckKeeps | applications/MAN_app/noc_manager.c:410-446 | the last acknowledgement gives the token back while everyone is IDLE |
| ProtocolInvariant.TokenGrantKeeps | applications/MAN_app/noc_manager.c:141-171 | TOKEN_GRANT finds its receiver IDLE with a request pending |
| ProtocolInvariant.TokenReleaseKeeps | applications/MAN_app/noc_manager.c:106-117 | a returned token goes to the head of the queue |
| ProtocolInvariant.TokenRequestKeeps | applications/MAN_app/noc_manager.c:122-138 | a request takes the free token or joins the queue |
| ProtocolInvariant.QueueHasRoom | applications/MAN_app/SDN_includes/token_queue.h:26-34 | the queue holds different controllers and not the one that asks, so it never overflows |
| ProtocolInvariant.StartKeeps | applications/MAN_app/noc_manager.c:40-57 | a controller that starts a global request keeps the invariant |
| ProtocolInvariant.FaultKeeps | applications/MAN_app/noc_manager.c:1478-1480 | a fault report at any time keeps the invariant |
| ProtocolSafety.AtMostOneMaster | applications/MAN_app/noc_manager.c:141-156 | in every run at most one controller is GLOBAL_MASTER, and it holds the token |
| ProtocolSafety.NoErrorLoop | applications/MAN_app/noc_manager.c:1402-1489 | in every run no controller enters an error loop, and each request, grant and release finds its receiver in the mode it needs |
| ProtocolSafety.GrantsFollowArrivals | applications/MAN_app/noc_manager.c:106-138 | in every run the requests arrived are the tokens granted followed by the queue, in that order, and the queue has room for each request that can still come |
| ProtocolSafety.AllOrNothing | applications/MAN_app/noc_manager.c:464-563 | nothing is written before every cluster of the path said yes in the current attempt, and once all have handled the release exactly the clusters of the path have written, or none |
| ProtocolSafety.CommitsOnlyFreePorts | applications/MAN_app/noc_manager.c:1218-1246 | in every run a delivery writes ports only where it commits, with the route in hand that the controller answered for in the attempt; its ports are all free exactly when none was reported faulty since the controller described its borders, and then exactly that route is written |
| ProtocolSafety.ReleaseCommits | applications/MAN_app/noc_manager.c:1218-1246 | a configuring release commits its receiver when it is handled |
| ProtocolSafety.RoutesAreHeld | applications/MAN_app/noc_manager.c:870-904 | from its yes until it commits every cluster of the current path still holds the route it answered for, and no cluster is taken to have said yes before it was asked in this attempt |
| ProtocolProgress.TokenAdvances | applications/MAN_app/noc_manager.c:40-171 | while the token is held a message other than a token request is on its way, and every delivery of such a message, whatever it finds, returns the token or lowers the measure of phase, attempts left and answers outstanding |
| ProtocolProgress.TokenIsNeverSetBack | applications/MAN_app/noc_manager.c:1402-1489 | no step of any run raises that measure while the token is held |
| ProtocolProgress.NoLosesOne | applications/MAN_app/noc_manager.c:594-628 | a no from any cluster of a path disables at least one enabled pair of a cluster and a subnet |
| ProtocolProgress.TokenComesBack | applications/MAN_app/noc_manager.c:80-117 | from every state of every run in which the token is held it can come back |
| ProtocolRetries.AnswerCosts | applications/MAN_app/noc_manager.c:595-627 | a pair stays enabled after an answer unless that is a no to its subnet from its own cluster, or from the master's where the pair is the target's |
| ProtocolRetries.AllAreTried | applications/MAN_app/noc_manager.c:1309-1334 | in every run the first attempt starts with all pairs enabled but for what the master's own cluster says no to |
| ProtocolRetries.PairStaysEnabled | applications/MAN_app/noc_manager.c:585-673 | in every run an enabled pair stays enabled through all further attempts of the master as long as its own cluster does not say no to the subnet and, where the target lies in it, the master's does not |
| ProtocolRetries.SteadyPathStays | applications/MAN_app/noc_manager.c:585-673 | in every run a path that a search of the master could have taken is there to be taken in all its later attempts as long as none of its clusters says no to its subnet |
| ProtocolRetries.AnswersDecide | applications/MAN_app/noc_manager.c:629-671 | in every run the master waits until the last cluster of the path has answered; then it commits exactly if all said yes, and otherwise tries again exactly if its search finds another path over enabled pairs |
| ProtocolRetries.ReleasesFollow | applications/MAN_app/noc_manager.c:464-563 | a master that has made up its mind sends each other controller one release, which configures exactly the clusters of a path that is committed |
| ProtocolExample.FaultMeetsCommit | applications/MAN_app/noc_manager.c:1218-1246 | a run of two controllers in which a held port turns faulty between the answer and the commit, so the commit does not find it free |
| ClusterManager.Manager.SendTokenRequest | applications/MAN_app/noc_manager.c:40-57 | in place, what the step that starts a global request does to this controller, the token and the messages |
| ClusterManager.Manager.SendUpdateBorderRequest | applications/MAN_app/noc_manager.c:371-404 | one request to every other cluster, and the counter at one |
| ClusterManager.Manager.EnableAll | applications/MAN_app/noc_manager.c:1323-1329 | every cluster is enabled on every subnet before the first attempt |
| ClusterManager.Manager.SendReleases | applications/MAN_app/noc_manager.c:475-536 | one release to every other cluster, configuring exactly those found on the path, and whether this one is on it |
| ClusterManager.Manager.SendDetailedRoutingRequests | applications/MAN_app/noc_manager.c:1059-1114 | one request to every other cluster of the path |
| ClusterManager.Manager.GlobalRouting | applications/MAN_app/noc_manager.c:935-1124 | one attempt in place: no path releases everyone, a path is tried; the mutual recursion with the answer handler ends |
| ClusterManager.Manager.TryPath | applications/MAN_app/noc_manager.c:1053-1124 | asks the other clusters and routes the own one last, which together is the attempt the protocol describes |
| ClusterManager.Manager.SetFault | applications/MAN_app/noc_manager.c:1478-1480 | a fault report in any mode, in place |
| ClusterManager.Manager.ServeLocalRequest | applications/MAN_app/noc_manager.c:1871-1876 | an idle controller serves a local request, in place |
| ClusterManager.Manager.HandleDetailedRoutingResponse | applications/MAN_app/noc_manager.c:585-673 | in place, what the protocol says about an answer, including the next attempt |
| ClusterManager.Manager.DisableAfterNo | applications/MAN_app/noc_manager.c:595-627 | in place, a no disables its own cluster on the subnet, and the target's where the master itself says it, and exactly these |
| ClusterManager.Manager.HandlePacket | applications/MAN_app/noc_manager.c:1402-1489 | every message handled in place is the delivery step of the protocol, as far as this controller, the token and the messages go |
| ClusterManager.DeliverIsLocal | applications/MAN_app/noc_manager.c:1402-1489 | a delivery changes no controller but its receiver, and the token and queue only at the coordinator |
| GlobalRouting.FoundIsClusterPath | applications/MAN_app/SDN_includes/noc_manager.h:458-476 | the recorded cluster path runs from target to source over usable crossings and visits different clusters |
| GlobalRouting.SearchSubnet | applications/MAN_app/noc_manager.c:1008-1012 | success lists a cluster path of that subnet; without the minimal-path flag failure means there is none; with it the path has Manhattan length, and so it has on any subnet without a dead end between the clusters |
| GlobalRouting.ComputeSubnetUtilizationOfPath | applications/MAN_app/noc_manager.c:918-933 | the sum over the clusters of the path found |
| GlobalRouting.EachCountsOnce | applications/MAN_app/noc_manager.c:918-933 | in that sum each cluster of the path counts once with its utilisation of the subnet, and nothing else counts |
| GlobalRouting.ChooseSubnet | applications/MAN_app/noc_manager.c:985-1042 | no subnet is chosen exactly when no subnet has a path between the clusters; otherwise the path found on the chosen one is least utilised among those the deciding round found and, among these, shortest; a general round finds one wherever there is one, and in the first attempt the minimal round, which finds only paths of Manhattan length, decides if a subnet has no dead end between the clusters |
| GlobalRouting.SearchRound | applications/MAN_app/noc_manager.c:1000-1034 | one round over all subnets keeps the least utilised and then shortest of the paths found; in the minimal round all of them have Manhattan length, and a subnet without a dead end is enough for success |
| GlobalRouting.HandleDetailedRoutingResponse | applications/MAN_app/noc_manager.c:595-627 | a no disables its own cluster on the subnet, and the target's where the source says it, and exactly these; a yes disables nothing |
| GlobalRouting.LostExactly | applications/MAN_app/noc_manager.c:595-627 | over all answers of an attempt a pair is lost exactly when its subnet is the one tried and its own cluster is on the path and said no, or it is the target's and the source said no |
| GlobalRouting.FailureLosesOne | applications/MAN_app/noc_manager.c:595-671 | a failed attempt takes at least one enabled (cluster, subnet) pair away, even when the source's own cluster failed |
| GlobalRouting.AskClusters | applications/MAN_app/noc_manager.c:585-673 | all clusters say yes and nothing is disabled, or at least one enabled pair is lost; the pairs lost are exactly those of the clusters of the path that said no, and the target's where the source did |
| GlobalRouting.EstablishGlobalPath | applications/MAN_app/noc_manager.c:585-673 | for arbitrary answers the retries stop, within one attempt more than there are enabled pairs; they end with a path on which all said yes or with no path left on any subnet, and with success whenever some subnet has at the start a path of clusters that say yes in every attempt |
| Bits.BitOfOr | applications/MAN_app/SDN_includes/noc_manager.h:142-148 | a bit of two border words joined is set when it is set in either |
| Bits.FreeBitExists | applications/MAN_app/SDN_includes/noc_manager.h:142-148 | a word of n bits is below the largest exactly when it has a clear bit |
| Borders.BuildSide | applications/MAN_app/noc_manager.c:1176-1212 | bit i of the input word is clear exactly when, at the router of the i-th coordinate from the top, the border port is free and a hop to a neighbour is usable; of the output word, exactly when a hop from a neighbour is |
| Borders.TestsFindTheWayOn | applications/MAN_app/noc_manager.c:263-289 | the four tests of neighbouring ports and the test of the border port amount to this: the border port is free in the table and some usable hop leads on from the router |
| Borders.TestsFindTheWayIn | applications/MAN_app/noc_manager.c:291-306 | the tests of the router's own ports amount to this: some usable hop leads to it |
| Borders.BuildBorderStatus | applications/MAN_app/noc_manager.c:1163-1216 | all words of the own cluster say of its port table where the border port is free with a usable hop on, and where a usable hop leads to the border, and no other cluster's words change |
| Borders.Heuristic | applications/MAN_app/noc_manager.c:676-703 | the free position nearest to the axis, the larger coordinate on a tie, or -1 when none is free |
| Borders.PickIsUnique | applications/MAN_app/noc_manager.c:676-703 | whoever picks from the same word picks the same position |
| Borders.Endpoints | applications/MAN_app/noc_manager.c:759-858 | entry and exit are the source, the target, or the router picked from the joined words of the two clusters |
| Borders.CrossableHasRoom | applications/MAN_app/SDN_includes/noc_manager.h:127-153 | a crossing the global search accepts has a free position |
| Borders.BordersMeet | applications/MAN_app/noc_manager.c:759-858 | the exit and the entry of a crossing, computed from one set of words, face each other, each inside its own cluster, at a position free in both words |
| Borders.MeetingPointIsFree | applications/MAN_app/noc_manager.c:263-306 | at that position a usable hop leads to the exit in the one port table, and in the other the entry port is free and a usable hop leads on |
| Borders.SeparateClustersMeet | applications/MAN_app/noc_manager.c:710-870 | two controllers that took over the same message compute the exit and the entry of a crossing separately, and these face each other, each inside its own cluster; with words that describe the two port tables a usable hop leads to the exit in the one, and in the other the entry port is free and a usable hop leads on |
| Borders.UpdateClusterBorder | applications/MAN_app/noc_manager.c:1127-1153 | the receiver holds exactly the words the message carries, and all words the message does not carry are as before |
| Borders.SameWords | applications/MAN_app/noc_manager.c:1084-1095 | controllers that took over the same message see the same word at every crossing it lists |
| RequestTable.Table.InsertMessageRequest | software/kernel/modules/task_communication.c:49-69 | adds the request; refused exactly when the table is full |
| RequestTable.Table.SearchMessageRequest | software/kernel/modules/task_communication.c:75-84 | found exactly when the table holds a request of the pair |
| RequestTable.Table.RemoveMessageRequest | software/kernel/modules/task_communication.c:91-109 | takes one request of the pair out and leaves its processor in the slot; -1 exactly when there is none |
| RequestTable.Table.RestoreMessageRequest | software/kernel/modules/task_communication.c:433-438 | puts the removed request back |
| RequestTable.Table.RemoveAllRequestedMsgs | software/kernel/modules/task_communication.c:116-139 | takes out all requests for one producer, counted with multiplicity, and no other |
| Processor.Slave.SendMessage | software/kernel/modules/task_communication.c:366-462 | nothing happens without a request or with the sender busy; otherwise the request is answered at once, locally into the buffer or by a delivery to the asker's processor |
| Processor.Slave.ReceiveMessage | software/kernel/modules/task_communication.c:465-543 | with the sender free and a location known the task waits, and the request is in the local table or goes to the producer's processor as one packet; a task that waits already makes the kernel spin, and otherwise nothing happens |
| Processor.Slave.HandleMessageRequest | software/kernel/modules/task_communication.c:246-274 | a request is entered if the producer runs here and passed on otherwise |
| Processor.Slave.HandleMessageDelivery | software/kernel/modules/task_communication.c:282-364 | the waiting consumer is released; without one the kernel spins |
| Messages.SendKeeps | software/kernel/modules/task_communication.c:376-462 | every attempt at Send keeps the invariant |
| Messages.ReceiveKeeps | software/kernel/modules/task_communication.c:465-540 | every Receive keeps the invariant |
| Messages.RequestKeeps | software/kernel/modules/task_communication.c:246-274 | a request that reaches a processor with a control block of the producer enters the table there and keeps the invariant, if there is room |
| Messages.PassKeeps | software/kernel/modules/task_communication.c:262-274 | a request that reaches a processor the producer has left is passed on and keeps the invariant |
| Messages.DeferKeeps | software/kernel/kernel.c:461-463 | deferring a request while the sender is busy keeps the invariant |
| Messages.DeliveryKeeps | software/kernel/modules/task_communication.c:284-360 | a delivery finds its consumer waiting for that producer |
| Mobility.FewPairs | software/kernel/modules/task_communication.h:27 | the pairs of a producer among the tasks with a control block at a processor and another task of its application are no more than those tasks times the tasks of an application less one |
| Mobility.TableHasRoom | software/kernel/modules/task_communication.h:27 | entries are different such pairs of producers with a control block here, so the table has room whenever a request is about to enter, while tasks come and go |
| Mobility.RoomForCarried | software/kernel/modules/enforcer_migration.c:405-439 | the table of the new host has room for all requests that come with an arriving task |
| Mobility.RoomAtNewHost | software/kernel/modules/enforcer_migration.c:184-206 | before a task leaves, the table of its new host has room for all requests pending at the old one |
| Mobility.OrderKeeps | software/kernel/modules/enforcer_migration.c:493-528 | an order to move keeps the invariant |
| Mobility.LeaveKeeps | software/kernel/modules/enforcer_migration.c:152-206 | a task that leaves, with its requests and its location entries, keeps the invariant, in which the host of every task that runs has an entry for it |
| Mobility.ArriveKeeps | software/kernel/modules/enforcer_migration.c:405-480 | a task that arrives with its requests, after the locations that came with it, keeps the invariant |
| Mobility.LearnKeeps | software/kernel/modules/enforcer_migration.c:355-398 | a processor that takes over a location it did not have and has room for keeps the invariant |
| MessageSafety.ReceivedIsPrefix | software/kernel/modules/task_communication.c:179-543 | in every run, with tasks moving, what a consumer received from a producer is a prefix of what was sent, at most one message short |
| MessageSafety.WaitsForExactlyOne | software/kernel/modules/task_communication.c:179-543 | in every run, with tasks moving, a task waits exactly when there is exactly one of a request in flight, a deferred request, a table entry, a request carried along with a moving producer and a delivery for it, naming the producer it waits for |
| MessageSafety.NothingIsLost | software/kernel/modules/task_communication.c:49-69 | in every run no kernel spins in message handling, no request meets a full table, and every delivery finds its consumer waiting |
| MessageProgress.ReceiveStarts | software/kernel/modules/task_communication.c:465-540 | a Receive that finds the sender free and a location for the producer makes its task wait, with its request entered at once where the producer is believed to be here and on its way to the recorded processor otherwise |
| MessageProgress.MessageAdvances | software/kernel/modules/task_communication.c:179-462 | while the producer does not wait itself and has room for its location where it runs or is going to, some step brings the awaited message or brings it nearer: the request is entered or goes to a later host, the producer completes its move, it answers, and the delivery is made |
| MessageProgress.MessageComes | software/kernel/modules/task_communication.c:179-543 | so in every run, from every state in which a task waits for such a producer, the run can go on until all that the producer sent has been received, one message more than before |
| CtpTable.AlwaysRoom | software/kernel/modules/enforcer_sdn.c:23-25 | two slots a subnet are enough: one is free while a subnet is not served in some direction |
| CtpTable.Table.GetCtp | software/kernel/modules/enforcer_sdn.c:35-46 | the slot serving a subnet in a direction; the error loop exactly when there is none |
| CtpTable.Table.AddCtp | software/kernel/modules/enforcer_sdn.c:48-68 | takes the first free slot, not yet enabled, and changes no other; the error loop exactly when there is none, which a valid table always has for a subnet not yet served |
| CtpTable.Table.RemoveCtp | software/kernel/modules/enforcer_sdn.c:70-88 | frees the serving slot and no other; the error loop exactly when there is none |
| CtpTable.Table.GetSubnet | software/kernel/modules/enforcer_sdn.c:91-101 | the subnet of the pair's first slot if that is enabled, -1 otherwise |
| Switching.OrderKeeps | software/kernel/modules/enforcer_sdn.c:308-336 | an order, for a circuit on whatever subnet it names or for packets, is acted on at once or kept as a flag while the task waits |
| Switching.ProducerKeeps | software/kernel/modules/enforcer_sdn.c:338-355 | the producer changes mode when told, and acknowledges |
| Switching.ConsumerKeeps | software/kernel/modules/enforcer_sdn.c:357-385 | deliveries and acknowledgements keep the invariant in every phase of a change |
| Switching.DeliverKeeps | software/kernel/modules/enforcer_sdn.c:194-199 | a pending change starts when the awaited message has arrived |
| Switching.NothingIsStranded | software/kernel/modules/enforcer_sdn.c:108-199 | in every run, whatever subnets the orders name, data on a subnet finds a receiving pair for that subnet and a waiting consumer, a request wire on a subnet finds a sending pair for it, and at most one message is under way |
| Switching.KernelsAgree | software/kernel/modules/enforcer_sdn.c:299-391 | once a change is concluded both kernels have the pair on the subnet last ordered, or neither has one |
| Switching.ReceiveTakesTheCircuit | software/kernel/modules/task_communication.c:179-206 | in every run, from when a change to a circuit is concluded until the kernel acts on the next order, a Receive raises the request wire of exactly the subnet last ordered and sends no packet; at all other times it sends exactly one packet and raises no wire |
| Switching.SendTakesTheCircuit | software/kernel/modules/task_communication.c:215-241 | in every run, from when the producer has taken the circuit over until it has given it up, the message goes by exactly the subnet last ordered and by no packet; at all other times by exactly one packet |
| Switching.RequestIsTaken | software/kernel/modules/task_communication.c:246-262 | in every run the request that arrives is entered at once, or is the only one deferred where the sender is busy |
| Switching.StepKeeps | software/kernel/modules/enforcer_sdn.c:299-391 | every step keeps the invariant, and only an order changes the mode and the subnet that are being set |
| Switching.MessageAdvances | software/kernel/modules/enforcer_sdn.c:108-199 | a waiting consumer's message can always be brought nearer by some step |
| Switching.OrderTakesEffect | software/kernel/modules/enforcer_sdn.c:193-198 | an order takes effect exactly when its flag word is not zero |
| Switching.TaskNumber | applications/MAN_app/global_mapper.c:370-421 | applications are numbered from 1, so the number of a user task fits its half of the flag word and is never zero |
| Enforcer.RunsMeetDemands | software/kernel/modules/enforcer_sdn.c:299-391 | in every run the states in which the handlers below are called are those they ask for |
| Enforcer.SubnetServesOnePair | software/kernel/modules/enforcer_sdn.c:108-144 | at a processor that a pair's live circuit begins or ends at, the circuit's subnet serves no other pair in that direction |
| Enforcer.Kernel.OrderIsFree | software/kernel/modules/enforcer_sdn.c:299-336 | an order for a live circuit of the pair finds its subnet free at the pair's kernel, which is what the handlers ask for |
| Enforcer.Kernel.AddCtpOnline | software/kernel/modules/enforcer_sdn.c:108-144 | takes a slot for the pair on the subnet of the flag word, not yet enabled, tells the producer that subnet and clears the word, and so is the step that takes a circuit over |
| Enforcer.Kernel.RemoveCtpOnline | software/kernel/modules/enforcer_sdn.c:152-192 | spins exactly where the pair's circuit is not enabled; otherwise frees its slot, tells the producer the subnet given up and clears the word, and so is the step that gives a circuit up |
| Enforcer.Kernel.SetNocSwitchingConsumer | software/kernel/modules/enforcer_sdn.c:308-336 | while the task waits the order is kept as a flag word; otherwise the circuit is taken over, on any subnet free for the pair, or given up at once and the producer told, spinning exactly where none is enabled |
| Enforcer.Kernel.SetNocSwitchingProducer | software/kernel/modules/enforcer_sdn.c:338-355 | the pair's slot is taken and enabled on the subnet told, or freed, and acknowledged with that subnet or with none; spins exactly where the subnet to give up is not served |
| Enforcer.Kernel.NocSwitchingProducerAck | software/kernel/modules/enforcer_sdn.c:357-366 | the circuit the acknowledgement names is enabled and the change confirmed to the manager; spins exactly where that subnet is not served |
| Enforcer.Kernel.HandleMessageDelivery | software/kernel/modules/task_communication.c:340-350 | the task is released and a pending change is made, of which the producer is told; spins where the task does not wait, or where there is no circuit to give up |
| Enforcer.Kernel.SendMessageRequest | software/kernel/modules/task_communication.c:179-206 | answers the subnet of the pair's slot if that is enabled, whose request wire rises, and none otherwise; sends exactly one packet then and none in the first case |
| Enforcer.Kernel.SendMessageDelivery | software/kernel/modules/task_communication.c:215-241 | answers the subnet of the producer's slot, on which the message goes, and none otherwise; sends exactly one packet then and none in the first case |
| TaskLocation.Locations.GetTaskLocation | software/kernel/modules/enforcer_mapping.c:37-45 | the recorded processor, or -1 |
| TaskLocation.Locations.AddTaskLocation | software/kernel/modules/enforcer_mapping.c:51-73 | replaces the entry of one task and no other; the error loop exactly when there is no room |
| TaskLocation.RoomIsCounted | software/kernel/modules/enforcer_mapping.c:54-73 | there is room for a task exactly when the tasks known, with it, are no more than the table has entries |
| TaskLocation.Locations.RemoveTaskLocation | software/kernel/modules/enforcer_mapping.c:79-100 | drops the entry of one task; the error loop exactly when there is none |
| Migration.WordsAt | software/kernel/modules/enforcer_migration.c:184-206 | the three words of each request sit where the receiver reads them |
| Migration.HandleMigrationRequestMsg | software/kernel/modules/enforcer_migration.c:405-439 | the new host takes over the requests of a message that name the task, as many as its table has room for, in order, and skips all others |
| Migration.MigrateRequests | software/kernel/modules/enforcer_migration.c:184-206 | after a migration the old host holds no request for the task, other requests are untouched, and the two tables together hold what they held exactly when the new one has room |
| Migration.LeaveLocations | software/kernel/modules/enforcer_migration.c:152-166 | the old host records where the task went and passes on what it knows of the application |
| Migration.HandleMigrationTaskLocation | software/kernel/modules/enforcer_migration.c:355-398 | the new host fills in only what it did not know; it spins exactly when what it knew and is told together is more than its table |
| MessageSafety.LeaveHost | software/kernel/modules/enforcer_migration.c:152-177 | in every state of every run in which a task can leave, its kernel's own work on the location table meets no error loop, is the departure of the model, and tells the new host what the old one then knows |
| MessageSafety.TakeLocations | software/kernel/modules/enforcer_migration.c:355-398 | the new host's own work on the location table is learning all it is told, and it spins exactly when that is more than the table has room for |
| MessageSafety.LearnsOneByOne | software/kernel/modules/enforcer_migration.c:371-388 | taking the locations over one by one is a series of learning steps |
| MessageSafety.SpinsExactlyWhenFull | software/kernel/modules/enforcer_mapping.c:51-100 | in every run a processor spins over its location table exactly when it was told of a task for which there was no room; a departing task's entry is always found |
| MessageSafety.EnoughLocations | software/kernel/modules/enforcer_mapping.c:51-73 | no processor ever spins where the location tables have room for all tasks there are |
| MobilityExample.NoRoomForSecond | software/kernel/modules/enforcer_mapping.c:51-73 | a run in which an entry left behind takes the room that an arriving task of another application needs |
| MessageSafety.MoveRequests | software/kernel/modules/enforcer_migration.c:184-206 | in every state of every run in which a task can leave, the kernels' own move of its pending requests keeps every one of them: the two tables together hold what they held |
| MessageSafety.MovesKeepRequests | software/kernel/modules/enforcer_migration.c:152-206 | in every run each order, departure, arrival and exchange of locations leaves the requests in the tables and those that travel, taken together, and all packets as they were |
| Whereabouts.MoveKeepsSound | software/kernel/modules/enforcer_migration.c:152-156 | after a move every entry still names a host, and a former host's entry one from after the task last left it |
| Whereabouts.FormerHostKnows | software/kernel/modules/task_communication.c:264-274 | a former host has a location that is not itself and names a host from after the task last left it |
| MessageSafety.LateRequestsAdvance | software/kernel/modules/task_communication.c:264-274 | in every run a request that reaches a processor its producer has left is passed on to strictly later hosts, so the error loop is not entered |
| MessageSafety.RequestsReachTheHost | software/kernel/modules/task_communication.c:264-274 | in every run, from any processor that knows the task, following the entries ends at the current host |
| Dijkstra.FindNearest | applications/dijkstra/dijkstra_0.c:43-49 | the first of the nearest nodes left, or the old node when all are at infinity |
| Dijkstra.Relax | applications/dijkstra/dijkstra_0.c:52-60 | the distances and predecessors of the nodes left are lowered through u, and nothing else |
| Dijkstra.NothingToRelax | applications/dijkstra/dijkstra_0.c:42-61 | relaxing an old node again, as happens on disconnected graphs, changes nothing |
| Dijkstra.NoShorterPath | applications/dijkstra/dijkstra_0.c:42-61 | at the end no path weighs less than the distance found |
| Dijkstra.ShortestPaths | applications/dijkstra/dijkstra_0.c:34-61 | every distance is the smaller of 9999 and the least path weight, and predecessors lead back to the source along a path of that weight |
| Dtw.EuclideanDistance | applications/dtw/dtw.h:14-23 | the sum of squared differences |
| Dtw.LeastIsLowerBound | applications/dtw/dtw.h:31-60 | the recurrence is at most the total of every warping path |
| Dtw.LeastIsAchieved | applications/dtw/dtw.h:31-60 | and is the total of one |
| Dtw.DynamicTimeWarping | applications/dtw/dtw.h:31-60 | two rolling columns compute the least total over all monotone warping paths |
| Dtw.WarpingIsSymmetric | applications/dtw/dtw.h:31-60 | the result is symmetric in its arguments and 0 on equal ones |
| AesField.SboxIsInverted | applications/aes/aes.h:59-95 | the two substitution boxes undo each other on all 256 bytes |
| AesField.SboxIsAffineInverse | applications/aes/aes.h:59-76 | the substitution box takes each byte to the affine image of its multiplicative inverse in the field, and of 0 for 0, as in section 5.1.1 of FIPS 197 |
| AesField.MultiplesAreProducts | applications/aes/aes.h:97-232 | the multiples by sums of shifts are products in the field with 02, 03, 09, 0b, 0d and 0e |
| AesField.PowersOfX | applications/aes/aes.h:97-232 | multiplication by 02, 04 and 08 is doubling in the field of FIPS 197 once, twice and three times |
| AesField.GfMul2IsProduct | applications/aes/aes.h:97-232 | column 0 of the product table is multiplication by 02 |
| AesField.GfMul3IsProduct | applications/aes/aes.h:97-232 | column 1 is multiplication by 03 |
| AesField.GfMul9IsProduct | applications/aes/aes.h:97-232 | column 2 is multiplication by 09 |
| AesField.GfMulBIsProduct | applications/aes/aes.h:97-232 | column 3 is multiplication by 0b |
| AesField.GfMulDIsProduct | applications/aes/aes.h:97-232 | column 4 is multiplication by 0d |
| AesField.GfMulEIsProduct | applications/aes/aes.h:97-232 | column 5 is multiplication by 0e |
| AesField.RowUndone | applications/aes/aes.h:546-751 | a row of the inverse matrix applied to a mixed column gives the byte back |
| AesField.RowRedone | applications/aes/aes.h:546-751 | and the other way round |
| Aes.MixIsInverted | applications/aes/aes.h:546-751 | mixing and unmixing columns undo each other |
| Aes.SubIsInverted | applications/aes/aes.h:382-450 | substituting and its inverse undo each other |
| Aes.ShiftIsInverted | applications/aes/aes.h:457-536 | shifting rows and its inverse undo each other |
| Aes.AddKeyTwice | applications/aes/aes.h:303-374 | adding a round key is its own inverse |
| Aes.SubstitutesInverses | applications/aes/aes.h:382-415 | every byte of the state becomes the affine image of its inverse in the field (section 5.1.1 of FIPS 197) |
| Aes.ShiftsRows | applications/aes/aes.h:457-496 | the byte in row i and column j comes from column j + i, around the end (section 5.1.2) |
| Aes.MixesColumns | applications/aes/aes.h:546-648 | every byte becomes 02 times itself plus 03 times the next in its column plus the other two, as products in the field (section 5.1.3) |
| Aes.AddsRoundKey | applications/aes/aes.h:303-374 | byte i, from the top, of word j of the round key is added to row i of column j (section 5.1.4) |
| Aes.WordOfBytes | applications/aes/aes.h:303-374 | the four bytes taken out of a key word, highest first, make up the word |
| Aes.DecryptUndoesEncrypt | applications/aes/aes.h:757-943 | with equally many rounds decryption undoes encryption for every block and every word sequence as key schedule |
| Aes.FewerRoundsFail | applications/aes/aes.h:757-943 | with fewer rounds back than forth some key schedule breaks the round trip |
| Aes.DecryptionUndoesEncryption | applications/aes/aes.h:757-943 | decryption undoes encryption on all blocks and schedules exactly for key sizes 128, 192 and above 192 |
| AesCipher.AddRoundKey | applications/aes/aes.h:303-374 | the step in place is the key addition |
| AesCipher.SubBytes | applications/aes/aes.h:382-415 | the step in place is the substitution, which `Aes.SubstitutesInverses` describes byte by byte |
| AesCipher.InvSubBytes | applications/aes/aes.h:417-450 | the step in place is the inverse substitution |
| AesCipher.ShiftRows | applications/aes/aes.h:457-496 | the swaps in place shift row r left by r |
| AesCipher.InvShiftRows | applications/aes/aes.h:499-536 | the swaps in place shift row r right by r |
| AesCipher.MixColumns | applications/aes/aes.h:546-648 | the step in place is the matrix product |
| AesCipher.InvMixColumns | applications/aes/aes.h:650-751 | the step in place is the inverse matrix product |
| AesCipher.Encrypt | applications/aes/aes.h:757-869 | the rounds the program makes for a key size, out of the steps that FIPS 197 gives byte by byte |
| AesCipher.Decrypt | applications/aes/aes.h:872-943 | the rounds back the program makes for a key size |
| AesCipher.RoundTrip | applications/aes/aes.h:757-943 | for the three key sizes the program decrypts what it encrypted |
| Adpcm.ScaleInRange | applications/audio_video/adpcm_dec.c:370-378 | the shift is never negative and the scale factor stays in 32..16384 in the low and 8..16384 in the high band |
| Adpcm.ScaleIsMonotone | applications/audio_video/adpcm_dec.c:370-378 | a larger logarithm never means a smaller scale factor |
| Adpcm.CoefficientInRange | applications/audio_video/adpcm_dec.c:66-81 | a zero coefficient stays in -32768..32767 |
| Adpcm.SecondCoefficientMoves | applications/audio_video/adpcm_dec.c:386-406 | while the signal keeps its sign a larger first coefficient pulls the second down, by 1 for 32, and otherwise up; agreement with the signal before last lifts it by 256 against disagreement; it keeps 127/128 of its value and stops at 12288 |
| Adpcm.FirstCoefficientMoves | applications/audio_video/adpcm_dec.c:410-431 | agreement with the last signal lifts the first coefficient by 384 against disagreement; it keeps 255/256 of its value and stops where both together come to 15360 |
| Adpcm.ZeroCoefficientMoves | applications/audio_video/adpcm_dec.c:66-81 | a zero coefficient keeps 255/256 of its value and moves by 128 with the sign of the correlation, unless the difference signal is 0 |
| Adpcm.LogarithmMoves | applications/audio_video/adpcm_dec.c:358-366 | the logarithm keeps 127/128 of its value and moves by the weight of the code, between 0 and its limit |
| Adpcm.PoleSectionWeighs | applications/audio_video/adpcm_dec.c:316-324 | the pole section weighs the last output by the first coefficient and the one before by the second |
| Adpcm.NextKeepsBounds | applications/audio_video/adpcm_dec.c:452-547 | one step keeps all bounds, whatever was received |
| Adpcm.AlwaysBounded | applications/audio_video/adpcm_dec.c:452-547 | after reset and any bytes all bounds hold in both bands |
| Adpcm.ZeroSectionSeesTwo | applications/audio_video/adpcm_dec.c:82-88 | the delay line never fills its third tap, so the zero sections predict from two difference signals only |
| Adpcm.Decoder.Reset | applications/audio_video/adpcm_dec.c:266-297 | the state before anything is received |
| Adpcm.Decoder.Upzero | applications/audio_video/adpcm_dec.c:66-88 | coefficients adapted and delay line moved as the program does it, in place |
| Adpcm.Decoder.Filtez | applications/audio_video/adpcm_dec.c:302-312 | the sum of the products of six taps |
| Adpcm.Decoder.DecodeLow | applications/audio_video/adpcm_dec.c:462-506 | the low band's state after one byte |
| Adpcm.Decoder.DecodeHigh | applications/audio_video/adpcm_dec.c:508-547 | the high band's state after one byte |
| Adpcm.Decoder.Decode | applications/audio_video/adpcm_dec.c:452-547 | the state after one more byte, within all bounds |

## Left out

Circuit search and the protocol:

- Packed addresses (`x << 8 | y`), packed border and path words: modelled as pairs and records, so nothing about more than 256 routers a side.
- The `char` type of labels: labels are integers; `Search.LabelBound` says how large they get.
- `unsigned short` wrap-around of `subnet_utilization` and of `global_subnet_utilization`, and `unsigned char` wrap-around of the attempt counter.
- What searches and releases do after a port of a live circuit was reported faulty: the report overwrites the chain that release follows, and the books no longer hold.
- NocManager.Controller.ConnectionSetup: where going nearer can come to a dead end, does not say on which subnets the first round succeeds, since after turning back a label that was set early can hide a direct route.
- What a commit does to the books of live circuits when its walk has gone astray: `Walks` says what is written, and `Protocol` leaves it open.
- Global path release, whose "last controller" flag is written but not sent.
- `Puts`, `Echo`, tick counters, path printing, router configuration packets and acknowledgements to the requester.
- Oracle: in `Protocol` the cluster path and the routes found are arbitrary, any path over enabled clusters from the target's to the
  master's, and any set of ports that are free but for those reported faulty since the borders were described; `GlobalRouting`, `Borders`
  and `NocManager` say how they are computed.
- The coordinator is the controller of cluster 0, and a request is handled by the controller of its source's cluster.
- Clusters: in global mode the cluster grid is no larger than a cluster, as `clear_search` only clears that much.
- GlobalRouting.EstablishGlobalPath: the other controllers' answers are an arbitrary function of the attempt and the cluster.
- ClusterManager.Manager.HandlePacket: connection requests and releases from other managers and the contents of border messages are not among its messages; fault reports and local requests have methods of their own.
- ClusterManager.Manager.GlobalRouting: the cluster path and the local search result are given; `GlobalRouting` and `NocManager` compute them.
- Choosing among pending local and global connection requests, and everything of the manager's other tasks.

Kernel:

- Task exit, scheduling, the mapper, reclustering, and a task's late TASK_RELEASE or UPDATE_TASK_LOCATION, which nothing sends.
- Payloads on circuit-switched subnets: after a send the kernel waits for the packet network only, so in `Switching` a message is a count.
- When a sender is busy: any of the two at any time. The pending-service queue of the kernel has no bound in the model.
- Processor.Slave.SendMessage: the migration that a delivery may start is not part of it; in `Mobility` it is a step of its own.
- Enforcer.Kernel.SetNocSwitchingProducer: the routing of the acknowledgement and of the confirmation to the quality-of-service manager.
- Enforcer.Kernel.OrderIsFree: that a slot in use belongs to a live circuit of its pair is a premise; the quality-of-service manager orders a change on the subnet that a path acknowledgement names, and releases no path.
- Migration of registers, stack, code and real-time parameters; deadline and execution time share one word of the packet.
- Mobility.OrderKeeps: a task that is still arriving is not ordered to move again, the new host has a free control block, and the task's code reaches the new host before it leaves the old one, as packets between the two arrive in order.
- Switching and migration of the same pair at the same time.

Algorithms:

- Dijkstra: the loop that receives matrices and sends results; the number of nodes is arbitrary.
- 32-bit overflow of the sums in Dijkstra, time warping and the G.722 decoder.
- The AES key setup and the CBC, CTR and CCM modes. Tables are held as rows of sixteen bytes, and states as arrays of bytes.
- G.722 sample values: the output of the low band is computed with the code of another variable (`il`), and the mirror filter adds nothing to the adaptive state.
- The other Dijkstra tasks and the second copy of the cipher, which are the same code.
