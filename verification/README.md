# Verified models of ns-2.35 protocol code

Dafny models of the stateful algorithms in this copy of ns-2.35, with proofs of
the properties they are built for. `dafny verify dfyconfig.toml` checks
everything.

- **AODV and AOMDV** (`Aodv*.dfy`, `Aomdv*.dfy`, `Freshness.dfy`). The handlers of
  one node are functions from state and message to new state and messages sent
  (`AodvSpec`, `AomdvSpec`); the agent classes (`AodvAgent`, `AomdvAgent`,
  `AomdvRtable`) do the same by updating fields, with the assertions of the
  source in place. `AodvNetwork` and `AomdvNetwork` put nodes into a step system
  in which messages, once sent, may be delivered late, repeatedly, in any order
  or never. Both protocols are shown loop free in every reachable state; section
  6 of RFC 3561 describes the order on route information that this rests on. The
  odd/even use of sequence numbers is the code's own. Runs of AODV come in three
  kinds: without local repair, with repair timers that find nothing under repair,
  and with local repair as it is (`AodvNetwork.Repair`). `AodvHandlers` and
  `AomdvHandlers` say what every handler stores and sends, in the fields of
  messages and entries; `AodvDiscovery` and `AomdvDiscovery` show that both
  protocols find routes along paths of every length and give them up when they
  break, and that AOMDV finds two paths where there are two.
- **Bottleneck rate allocation** (`LinkLoads.dfy`, `MaxMinFairness.dfy`,
  `Asim.dfy`). The water-filling loop of asim on arrays, in real arithmetic; its
  result is weighted max-min fair.
- **Token bucket** (`TokenBucket.dfy`, `TokenBucketService.dfy`,
  `TokenBucketFilter.dfy`): it never sends too much and never too late.
- **Reservation protocol** (`SignallingLink.dfy`, `SaLink.dfy`, `Reservation.dfy`,
  `ReservationProgress.dfy`, `SaAgent.dfy`).
- **Linked structures**: the TCP reassembly queue (`Reassembly.dfy`,
  `ReassemblyQueue.dfy`; SEGMENT ARRIVES in section 3.9 of RFC 793), the send
  buffer of both routing agents, which is one algorithm in two files
  (`SendBuffer.dfy`, `SendQueue.dfy`), the slot table with multipath round robin
  (`Slots.dfy`, `SlotTable.dfy`), and the multicast hash index
  (`McastIndex.dfy`, `McastClassifier.dfy`). In each pair the first file holds
  the algorithm on values and its theorems, the second the class with the
  pointers, arrays and loops, proved to do what the first says.
- **Fat-tree construction** (`FatTree.dfy`, `FatTreeGenerator.dfy`) for every even
  k of at least 2.

Some promises do not hold of the code without a condition. For each the
condition is stated and proved:

- the token bucket keeps all schedules of packets of at most m bytes to bucket +
  rate * length in every interval if and only if such a packet fits the bucket or
  nothing is ever queued (`TokenBucket.ConformsIffPacketsFit`);
- the rates of the water-filling loop are feasible if and only if every link that
  long flows use has room left by the short flows
  (`Asim.Allocator.NewUpdate`; `MaxMinFairness.OverbookedStaysInfeasible` is an
  instance without room);
- the reassembly queue stays sorted and beyond a hole if and only if the new
  segment is disjoint from or identical to every queued one
  (`Reassembly.QueueSurvivesIff`, over runs `Reassembly.RunSurvivesIff`);
- the scanning purge of the send buffer equals the head-only purge it replaced if
  and only if the packets are in time order
  (`SendBuffer.PurgesAgreeIffInOrder`), which a clock that does not run backwards
  gives;
- the assertions of AODV that a route is up (aodv/aodv.cc:357, 918, 955) hold if
  and only if the route met is not under repair (`AodvAgent.Agent.HandleLinkFailure`,
  `AodvAgent.Agent.RecvReply`, `AodvAgent.Agent.RecvError`). Without local repair
  they never fail (`AodvNetwork.HandlersMayRun`); with it they can
  (`AodvRepair.RepairIsMet`);
- the timer of AODV local repair keeps the order of route information if and only
  if it does not find a route under repair (`AodvRepair.TimerKeepsOrderIff`). As
  long as no timer does, AODV with local repair is loop free
  (`AodvNetwork.LoopFreedom`); when one does, a run can end in a loop
  (`AodvRepair.LocalRepairLoops`). The raise of the sequence number that is
  commented out at aodv/aodv.cc:204 would be safe on a route under repair but not
  on a dead one (`AodvRepair.RaisingTimerIff`, `AodvRepair.GuardedTimerIsSound`).

The comment at aodv/aodv.cc:916 says that a reply is forwarded if the route is
up; the code tests the hop count instead, and so does the model. Without
local repair the two agree in every reachable state, by the parity and flag
discipline; a route under repair has a hop count and is not up.

## Model

| member | source | states |
|---|---|---|
| AodvNetwork.LoopFreedom | aodv/aodv.cc:690-980 | In every reachable network state (messages lost, delayed, repeated or reordered; neighbours lost; routes expired; broken links), following the next hops of live routes towards a destination never visits a node twice: without local repair, and with it as long as no repair timer finds a route still under repair. |
| AodvNetwork.StepKeepsInv | aodv/aodv.cc:653-997 | Every step keeps the joint invariant: entries obey the parity discipline, and whatever a message or a stored route promises is not fresher than what its sender knows now. |
| AodvNetwork.RunKeepsInv | aodv/aodv.cc:138-160 | The joint invariant holds in every state of every run from the initial network. |
| AodvNetwork.HopClimbs | aodv/aodv.cc:690-716 | The next hop of a live route is the destination or holds strictly fresher (sequence number, hops) information than the node itself. |
| AodvNetwork.ParityDiscipline | aodv/aodv.cc:947-964 | In every such state a live entry has an even number and a usable hop count, and so has one under repair; a dead one has number 0 or odd and none; own numbers are even, and errors name only dead numbers. |
| AodvNetwork.KnowledgeOnlyImproves | aodv/aodv.cc:690-716 | Over a whole run own numbers never fall and (sequence number, hops) for any destination never gets staler at any node. |
| AodvNetwork.InvalidationRaisesSeqno | aodv/aodv.cc:355-372 | Any step that takes down an entry that was not down strictly raises its sequence number. |
| AodvNetwork.RecvRequestSound | aodv/aodv.cc:653-820 | Handling any request keeps the node well formed, makes nothing staler, and every message sent is vouched for by the state after it. |
| AodvNetwork.RecvReplySound | aodv/aodv.cc:823-935 | The same for replies. |
| AodvNetwork.RecvErrorSound | aodv/aodv.cc:938-997 | The same for route errors; the `<=` on numbers becomes a strict rise because the error carries a dead number. |
| AodvNetwork.NeighborLostSound | aodv/aodv.cc:1353-1376 | The same for the loss of a neighbour. |
| AodvNetwork.PurgeAllSound | aodv/aodv.cc:503-553 | The same for route expiry over the whole table. |
| AodvNetwork.ResolveSound | aodv/aodv.cc:436-501 | The same for a data packet that looks for a route. |
| AodvNetwork.HandlersMayRun | aodv/aodv.cc:618-650 | Without local repair every node and every message in flight meet what the agent methods require, and no reply, error or lost neighbour meets a route under repair: no assertion of the handlers fails. |
| AodvNetwork.LinkLayerFailedSound | aodv/aodv.cc:293-345 | The soundness statement holds of a broken link, whether it starts a repair or gives the neighbour up. |
| AodvNetwork.RepairTimerSound | aodv/aodv.cc:187-212 | It holds of a repair timer that finds no route under repair. |
| AodvNetwork.OffRunIsSettled | aodv/aodv.cc:319-331 | Without local repair no route is ever under repair. |
| Freshness.ClimbingWalkIsSimple | aodv/aodv.cc:690-696 | A walk on which every hop reaches strictly fresher information has no repeated node; the order both protocols rely on. |
| AodvDiscovery.DiscoveryWorks | aodv/aodv.cc:436-935 | Along every path of distinct nodes, of any length, there is a run from the initial network after which its first node, and every other but the last, has a live route to the last one: of as many hops as are left, over the next node of the path. |
| AodvDiscovery.BreaksAreWithdrawn | aodv/aodv.cc:347-997 | After such a discovery there is a run in which the last link is lost and at whose end every node of the path has taken its route down, under a higher number. |
| AodvHandlers.RequestIsNoted | aodv/aodv.cc:653-716 | A request is ignored if it is the own one or its id is known; otherwise the id is cached and the offered route back is taken exactly if it is fresher than the known one. No other route changes. |
| AodvHandlers.TargetReplies | aodv/aodv.cc:744-764 | A new request for this node is answered along the route back, as one hop, under the least even number above the own and the requested one. |
| AodvHandlers.NodeRepliesFromTable | aodv/aodv.cc:768-807 | A new request for a destination with a known route under at least the requested number is answered with that route, one hop longer, and the next hops on both sides become precursors. |
| AodvHandlers.NodePassesRequestOn | aodv/aodv.cc:808-820 | Every other new request is passed on: one hop longer, under the own address, for the highest number known. |
| AodvHandlers.ReplyIsTakenAndPassedOn | aodv/aodv.cc:823-935 | The offered route is taken exactly if it is fresher; then the reply is passed on along the route to the node that asked, one hop longer, exactly if it is for another node and there is such a route. |
| AodvHandlers.ErrorWithdraws | aodv/aodv.cc:938-997 | An error takes down exactly the routes over its sender that are not newer than one of its items, under the number of the first such item, and is passed on for exactly those of them that have precursors. |
| AodvHandlers.LossWithdraws | aodv/aodv.cc:347-383 | The loss of a neighbour takes down exactly the routes over it, under the next number, and reports exactly these; the neighbour leaves every precursor list. |
| AodvHandlers.ExpiryIs | aodv/aodv.cc:503-553 | Exactly the live routes past their time are taken down, under the next number, and exactly for the dead ones with waiting packets a request goes out, each under a new id. |
| AodvHandlers.DataNeedsRoute | aodv/aodv.cc:436-501 | A data packet without a route makes its source ask for one and any other node report it, unless it is under repair. |
| AodvHandlers.HellosKeepNeighbours | aodv/aodv.cc:1271-1335 | A hello carries the own number; one from a new neighbour enters it and raises the own number by 2. |
| AodvHandlers.BrokenLinkIs | aodv/aodv.cc:293-345 | A broken link starts a repair exactly where the packet had been forwarded more often than the route has hops; elsewhere the neighbour is lost, and without an entry nothing happens. |
| AodvAnswers.AnswersAreFresher | aodv/aodv.cc:744-807 | Without local repair, for every reply in flight there is the original request it answers and an earlier state in which that was asked; there the entry of the requester is down with a number strictly below the live number of the reply. |
| AodvAnswers.ReplyTravelsUnchanged | aodv/aodv.cc:911-926 | A relayed reply keeps destination, number and addressee and counts one hop more. |
| AodvAnswers.ReplyIsInstalledOrDominated | aodv/aodv.cc:860-871 | On receipt any node either installs a reply or already holds an entry at least as good. |
| AodvAnswers.AnswersSettleTheQuestion | aodv/aodv.cc:860-871 | When a reply reaches the node that asked, it is installed or the node already holds an entry at least as good, and what the node holds then is strictly newer than what it held in the state in which it asked. |
| AodvAnswers.OriginalsWereAsked | aodv/aodv.cc:1062-1183 | Every original request in flight was sent in an earlier state in which the entry of its source is down with the number the request carries. |
| AodvAnswers.RunKeepsRequests | aodv/aodv.cc:1062-1183 | In every run without local repair originals carry dead numbers, two originals with one source and broadcast id are one message, every request is a copy of an original that asks for no less, and every reply answers a request with a live number. |
| AodvAgent.Agent.constructor | aodv/aodv.cc:138-160 | A new agent is the initial node: number 2, broadcast id 1, empty tables. |
| AodvAgent.Agent.RtUpdate | aodv/aodv.cc:402-411 | Sets number, hops, next hop and the up flag of one entry and nothing else. |
| AodvAgent.Agent.RtDown | aodv/aodv.cc:413-430 | Takes an entry down once; a dead entry is left alone. |
| AodvAgent.Agent.PcInsert | aodv/aodv_rtable.cc:115-124 | Adds one precursor to one entry, at most once. |
| AodvAgent.Agent.PutReverseRoute | aodv/aodv.cc:679-716 | Caches the broadcast id and installs the reverse route exactly if the request is fresher than the entry. |
| AodvAgent.Agent.RecvRequest | aodv/aodv.cc:653-820 | State and message sent are those of the specified handler, on every branch: own, duplicate, answered as destination, answered from the table, relayed. What that is, in the fields of messages and entries, is in the rows of `AodvHandlers`. |
| AodvAgent.Agent.RecvReply | aodv/aodv.cc:823-935 | The assertion that the route back is up fails exactly if the reply is new, is for somebody else and meets a route under repair; otherwise state and message sent are those of the specified handler. |
| AodvAgent.Agent.UnreachableDst | aodv/aodv.cc:955-980 | One unreachable destination: the assertion that the route is up fails exactly if the item applies to a route under repair; otherwise it is applied exactly when the route goes over the sender and is not newer, and the parity assertion holds. |
| AodvAgent.Agent.RecvError | aodv/aodv.cc:938-997 | An assertion fails exactly if some item applies to a route that is under repair when the error arrives; otherwise all items are applied in order, and the error passed on lists exactly those with precursors. |
| AodvAgent.Agent.HandleLinkFailure | aodv/aodv.cc:347-383 | The assertion that the route is up fails exactly if a route over the lost neighbour is under repair; otherwise exactly the routes over it are taken down with a raised number and reported, and it leaves every precursor list. |
| AodvAgent.Agent.NbDelete | aodv/aodv.cc:1353-1376 | Own number up by 2, neighbour removed, then the link failure handled; an assertion fails exactly if a route over the neighbour is under repair. |
| AodvAgent.Agent.RtPurge | aodv/aodv.cc:503-553 | Every expired live entry is taken down with an odd number; dead ones with waiting packets ask again. |
| AodvAgent.Agent.RtResolve | aodv/aodv.cc:436-501 | Up: forward; down and own packet: request; down and foreign packet: error with the entry number. |
| AodvAgent.Agent.SendRequest | aodv/aodv.cc:1062-1183 | Nothing for a live route; else one request with a new broadcast id and an own number raised by 2. |
| AodvAgent.Agent.RecvHello | aodv/aodv.cc:1307-1335 | A new neighbour is entered and the own number rises by 2; a known one changes nothing. |
| AodvAgent.Agent.LocalRtRepair | aodv/aodv.cc:385-400 | Marks the route, keeps its number and hops, and asks again. |
| AodvAgent.Agent.RtLlFailed | aodv/aodv.cc:293-345 | Repairs a route that is closer to the destination than to the source, gives the neighbour up otherwise, and does nothing without an entry; an assertion fails exactly if the neighbour is given up while a route over it is under repair. |
| AodvAgent.Agent.RepairTimeout | aodv/aodv.cc:187-212 | Takes down a route that is not up; the agent stays well formed if and only if the timer finds no route under repair. |
| AodvRepair.TimerKeepsOrderIff | aodv/aodv.cc:187-212 | The repair timer keeps the order of route information at its node if and only if it does not find a route under repair that has a hop count. |
| AodvRepair.RaisingTimerIff | aodv/aodv.cc:195-205 | With the raise that is commented out there, the timer keeps what the network relies on if and only if it does not find a dead route with an odd number, which it would give an even one. |
| AodvRepair.GuardedTimerIsSound | aodv/aodv.cc:195-205 | With the raise for routes under repair only, the timer keeps what the network relies on, whatever it finds. |
| AodvRepair.LocalRepairLoops | aodv/aodv.cc:187-212 | A run of the network from its initial state, with a repair started by a packet forwarded more often than the route has hops, that ends with two nodes routing over each other. |
| AodvRepair.RepairIsMet | aodv/aodv.cc:355-358 | A run of the network from its initial state, in which no repair timer finds a route under repair, after which the loss of a neighbour and a route error each meet a route under repair: the assertions on routes being up can fail. |
| AomdvTheorems.LoopFreedom | aomdv/aomdv.cc:833-907 | In every reachable state and for every destination the graph of all next hops of all stored paths at all nodes has no cycle. |
| AomdvTheorems.EdgeClimbs | aomdv/aomdv.cc:1096-1143 | Every stored path leads to the destination or to a node with a larger number, or an equal one and fewer advertised hops. |
| AomdvTheorems.EntriesWellFormed | aomdv/aomdv_rtable.cc:180-406 | In every reachable state: next hops and last hops of an entry are pairwise distinct, no path is longer than the advertised hops, the path counter is the list length and within the bound, up exactly when there is a path, numbers even when up and 0 or odd when down. |
| AomdvTheorems.OneAdvertisementPerSeqno | aomdv/aomdv.cc:1031-1052 | All requests, replies and hellos a node ever sends about one destination under one number carry the same hop count. |
| AomdvTheorems.DuplicatePathsAgree | aomdv/aomdv.cc:858-863 | A message that repeats an offer under the stored number meets an up entry whose paths over its sender have exactly the hop count it implies: the assertions on duplicate paths never fail. |
| AomdvTheorems.AdvertisedHopsAreStable | aomdv/aomdv.cc:1041-1046 | Over a whole run numbers never fall, and between two rises the advertised hop count, once set, never changes. |
| AomdvTheorems.InvalidationRaisesSeqno | aomdv/aomdv.cc:647-655 | Any step that takes an entry down strictly raises its number. |
| AomdvTheorems.HandlersMayRun | aomdv/aomdv.cc:746-778 | In a reachable state every message in flight meets the preconditions of the agent methods at every node. |
| AomdvNetwork.StepKeepsInv | aomdv/aomdv.cc:783-1337 | Every step keeps the joint invariant of nodes, messages, hop counts and stored paths. |
| AomdvNetwork.RunKeepsInv | aomdv/aomdv.cc:202-240 | The joint invariant holds in every state of every run from the initial network. |
| AomdvNetwork.StepKeepsOneHopCount | aomdv/aomdv.cc:1041-1052 | Every step keeps: offers with the same sender, destination and number have the same hop count. |
| AomdvNetwork.RecvRequestSound | aomdv/aomdv.cc:783-1055 | Handling a request keeps entries well formed, moves numbers and advertisements only as allowed, stores only paths that were offered, and sends only what the node vouches for. |
| AomdvNetwork.RecvReplySound | aomdv/aomdv.cc:1057-1220 | The same for replies. |
| AomdvNetwork.RecvErrorSound | aomdv/aomdv.cc:1272-1337 | The same for errors. |
| AomdvNetwork.NeighborLostSound | aomdv/aomdv.cc:1727-1746 | The same for the loss of a neighbour. |
| AomdvNetwork.PurgeAllSound | aomdv/aomdv.cc:634-680 | The same for path expiry over the whole table. |
| AomdvDiscovery.DiscoveryWorks | aomdv/aomdv.cc:568-1220 | Along every way from a source over distinct intermediate nodes to a target, of any length, there is a run from the initial network after which the source and every intermediate node has exactly one live path to the target: over the next node, of as many hops as are left. |
| AomdvDiscovery.BothPathsAreFound | aomdv/aomdv.cc:833-1131 | Over any two ways that share no intermediate node there is a run from the initial network that ends with both paths stored, in order, at the source and at the target, whenever their configurations leave room for the second path next to the first. |
| AomdvDiscovery.BreaksAreWithdrawn | aomdv/aomdv.cc:473-1337 | After a discovery along any way there is a run in which its last link is lost and at whose end the source and every intermediate node have closed their entries, under a higher number. |
| AomdvHandlers.ForwardOfferIs | aomdv/aomdv.cc:1096-1143 | The exact path list after a reply: a newer number leaves just the offered path; under the same number it is appended exactly if it is shorter than advertised, no stored path shares its next or last hop, and there is room and it is not too much longer than any stored path. The exact condition under which the reply goes on. |
| AomdvHandlers.ReverseOfferIs | aomdv/aomdv.cc:833-907 | The same path list for a request, and the exact conditions under which it is dropped there and under which it gives a way back to answer along. |
| AomdvHandlers.RequestIsDropped | aomdv/aomdv.cc:833-907 | A request that is dropped there sends nothing; its id is cached and the offered path weighed. |
| AomdvHandlers.TargetReplies | aomdv/aomdv.cc:930-953 | The destination answers every kept request, copies included, back to the node it came from, under its own number or the least even one above the requested one. |
| AomdvHandlers.NodeRepliesFromTable | aomdv/aomdv.cc:955-983 | A kept request for a destination known under at least the requested number is answered exactly if it gives a way back and its id has not been used, with the fixed advertised hop count and the last hop of the first path; the id is then used. |
| AomdvHandlers.NodePassesRequestOn | aomdv/aomdv.cc:1020-1055 | Every other kept request is passed on once per id, with the fixed advertised hop count of the way back, its first relay, and the highest number known. |
| AomdvHandlers.ReplyIsTakenAndPassedOn | aomdv/aomdv.cc:1057-1220 | The offered path is taken as above; a reply that goes on is passed back once per id over the first path to the node that asked, with the fixed advertised hop count and the last hop of the first path. |
| AomdvHandlers.HellosOfferNeighbours | aomdv/aomdv.cc:1629-1690 | Hellos go out exactly while some route is live; one that arrives enters its sender as a neighbour and offers a path of one hop to it. |
| AomdvHandlers.ErrorWithdraws | aomdv/aomdv.cc:1272-1337 | An error takes the path over its sender out of exactly the live entries that are not newer than one of its items; entries left without a path close under the highest number heard, and are reported exactly if others use them. |
| AomdvHandlers.LossWithdraws | aomdv/aomdv.cc:472-520 | The loss of a neighbour takes the path over it out of every live entry; entries left without a path close under a higher number, and are reported exactly if others use them. |
| AomdvHandlers.ExpiryIs | aomdv/aomdv.cc:634-682 | Exactly the paths past their time leave the live entries; entries left without one close under the next odd number, and exactly for the dead ones with waiting packets a request goes out. |
| AomdvHandlers.DataNeedsRoute | aomdv/aomdv.cc:567-632 | A data packet without a route makes its source ask and any other node report; one of another node marks a live route as used by others. |
| AomdvDisjoint.OneReplyPerIntermediate | aomdv/aomdv.cc:962-983 | Between two purges of a broadcast id at an intermediate node, whatever other nodes purge, that node emits at most one reply for the discovery. |
| AomdvDisjoint.DiscoveredPathsAreNodeDisjoint | aomdv/aomdv.cc:1185-1214 | Two replies of one discovery that reach the source and share an intermediate node are the same reply, if the intermediate nodes on their own trails keep the id meanwhile. |
| AomdvDisjoint.RelaysExtendTrails | aomdv/aomdv.cc:1185-1214 | A relayed reply comes from the next hop of the one before, for the same discovery, by a node other than source and destination. |
| AomdvDisjoint.RepliesHaveTrails | aomdv/aomdv.cc:1185-1214 | In every reachable state each reply in flight ends a trail of replies: the first answers a request of the discovery, and every later one is sent by the next hop of the one before, an intermediate node. |
| AomdvDisjoint.DiscoveryIsNodeDisjoint | aomdv/aomdv.cc:962-1214 | Two different replies of one discovery that reach the source came over trails, each from an answer to a request, that share no intermediate node, if the intermediate nodes that replied keep the id meanwhile. |
| AomdvRtable.RtEntry.PathInsert | aomdv/aomdv_rtable.cc:180-204 | Appends one path and counts it. |
| AomdvRtable.RtEntry.PathLookup | aomdv/aomdv_rtable.cc:206-217 | The first path over a next hop, exactly if there is one. |
| AomdvRtable.RtEntry.DisjointPathLookup | aomdv/aomdv_rtable.cc:219-230 | A path with both hops, exactly if there is one. |
| AomdvRtable.RtEntry.NewDisjointPath | aomdv/aomdv_rtable.cc:232-244 | True exactly if no path shares its next hop or its last hop. |
| AomdvRtable.RtEntry.PathLookupLasthop | aomdv/aomdv_rtable.cc:247-258 | The first path with a last hop, if any. |
| AomdvRtable.RtEntry.PathDelete | aomdv/aomdv_rtable.cc:261-273 | Removes the first path over a next hop and counts it down; otherwise nothing. |
| AomdvRtable.RtEntry.PathDeleteAll | aomdv/aomdv_rtable.cc:276-284 | Empties the list and the counter. |
| AomdvRtable.RtEntry.PathEmpty | aomdv/aomdv_rtable.cc:308-320 | Tells emptiness; the assertions on the counter hold. |
| AomdvRtable.RtEntry.PathFindLasthop | aomdv/aomdv_rtable.cc:339-344 | The last hop of the first path. |
| AomdvRtable.RtEntry.PathGetMaxHopcount | aomdv/aomdv_rtable.cc:346-359 | The largest hop count; no value for an empty list. |
| AomdvRtable.RtEntry.PathGetMinHopcount | aomdv/aomdv_rtable.cc:361-373 | The smallest hop count, starting from 255. |
| AomdvRtable.RtEntry.PathPurge | aomdv/aomdv_rtable.cc:388-406 | The restarting scan leaves exactly the paths that are not expired, in order, with the right counter. |
| AomdvRtable.WithoutNexthopAt | aomdv/aomdv_rtable.cc:261-273 | Deleting over a next hop cuts out exactly the first path over it. |
| AomdvRtable.WithoutAllCut | aomdv/aomdv_rtable.cc:388-406 | Cutting one expired path does not change what the purge leaves in the end. |
| AomdvRtable.MinHopsIsMinimum | aomdv/aomdv_rtable.cc:361-373 | The result bounds every path from below and is reached, as long as it is below 255. |
| AomdvEntries.OfferReverseOk | aomdv/aomdv.cc:833-907 | However the case analysis on a reverse path ends, the entry stays well formed and gains at most the offered path. |
| AomdvEntries.OfferForwardOk | aomdv/aomdv.cc:1096-1143 | The same for a forward path. |
| AomdvEntries.HearErrorOk | aomdv/aomdv.cc:1290-1318 | Losing a path to an error keeps the entry well formed; the last path takes it down with a higher, dead number. |
| AomdvEntries.FailEntryOk | aomdv/aomdv.cc:485-507 | The same for a broken link. |
| AomdvEntries.ExpireEntryOk | aomdv/aomdv.cc:644-657 | The same for expired paths. |
| AomdvAgent.Agent.constructor | aomdv/aomdv.cc:202-240 | A new agent is the initial node. |
| AomdvAgent.Agent.RtDown | aomdv/aomdv.cc:538-561 | Takes an entry down once: no paths, no advertisement. |
| AomdvAgent.Agent.ReversePathInto | aomdv/aomdv.cc:833-907 | The case analysis of recvRequest on the entry object for the source, with its assertions. |
| AomdvAgent.Agent.AlternatePathInto | aomdv/aomdv.cc:873-890 | A disjoint path is inserted if there is room and it is not too long; the request is dropped exactly if it is too long for the entry after that. |
| AomdvAgent.Agent.RecvRequest | aomdv/aomdv.cc:783-1055 | State and message sent are those of the specified handler on every branch. |
| AomdvAgent.Agent.ReplyAsDestination | aomdv/aomdv.cc:931-953 | The destination answers with an even number not below the requested one. |
| AomdvAgent.Agent.ReplyFromTable | aomdv/aomdv.cc:956-983 | Answers from the table once per broadcast id, with the fixed advertised hops and the last hop of the first path. |
| AomdvAgent.Agent.Propagate | aomdv/aomdv.cc:1029-1052 | Passes a request on with the highest number seen and the fixed advertised hops. |
| AomdvAgent.Agent.ForwardPathInto | aomdv/aomdv.cc:1096-1143 | The case analysis of recvReply on the entry for the destination, with its assertions. |
| AomdvAgent.Agent.RecvReply | aomdv/aomdv.cc:1057-1220 | State and message sent are those of the specified handler on every branch. |
| AomdvAgent.Agent.ForwardReply | aomdv/aomdv.cc:1185-1216 | Passes a reply on over the first reverse path, marking the broadcast id as used. |
| AomdvAgent.Agent.RecvHello | aomdv/aomdv.cc:1666-1690 | The sender becomes a neighbour, and the hello is handled as a reply of its sender about itself. |
| AomdvAgent.Agent.LosePath | aomdv/aomdv.cc:1296-1325 | One entry loses its path over the sender of an error; with the last path it goes down with the highest number heard and is reported if others used it. |
| AomdvAgent.Agent.UnreachableDst | aomdv/aomdv.cc:1290-1325 | One unreachable destination of an error, with the parity assertion. |
| AomdvAgent.Agent.RecvError | aomdv/aomdv.cc:1272-1337 | All items in order; the error passed on lists exactly the entries taken down that had been used. |
| AomdvAgent.Agent.HandleLinkFailure | aomdv/aomdv.cc:472-519 | Every path over the lost neighbour goes; entries left without a path go down and are reported if used. |
| AomdvAgent.Agent.NbDelete | aomdv/aomdv.cc:1727-1746 | Own number up by 2, neighbour removed, then the link failure handled. |
| AomdvAgent.Agent.RtPurge | aomdv/aomdv.cc:634-680 | Expired paths go; entries left without a path go down with an odd number. |
| AomdvAgent.Agent.RtResolve | aomdv/aomdv.cc:567-630 | Up: forward, noting that others use the route; down: request or error. |
| AomdvAgent.Agent.SendRequest | aomdv/aomdv.cc:1412-1528 | Nothing for a live route; else one request with a new broadcast id and an own number raised by 2. |
| MaxMinFairness.BottleneckedIsFair | asim/asim.cc:849-958 | If every long flow crosses a saturated link on which no long flow has a larger ratio, the rates are weighted max-min fair among all feasible rates. |
| MaxMinFairness.FinishedIsFair | asim/asim.cc:903-958 | When the loop ends with its invariant, every long flow is scaled and bottlenecked, and the rates are weighted max-min fair. |
| MaxMinFairness.FairIsUnique | asim/asim.cc:849-958 | There is only one weighted max-min fair allocation, so with room at the start the rates computed are the only fair ones. |
| MaxMinFairness.StartInv | asim/asim.cc:853-876 | The initialisation establishes the accounting part of the invariant, and all of it if every used link has room. |
| MaxMinFairness.RoundInv | asim/asim.cc:909-945 | One round keeps the whole invariant: demand and residual accounts, non-negative residuals, and settled ratios. |
| MaxMinFairness.RoundLoads | asim/asim.cc:915-928 | A round moves exactly the scaled rates from demand to allocated capacity on every link. |
| MaxMinFairness.BottleneckIsFull | asim/asim.cc:932-935 | The residual capacity of the bottleneck is already 0 when the code sets it to 0. |
| MaxMinFairness.RatioNeverRises | asim/asim.cc:936-945 | The ratio of the next bottleneck is at most that of the one before. |
| MaxMinFairness.FinishedIsFeasible | asim/asim.cc:853-958 | At the end no used link carries more than its capacity. |
| MaxMinFairness.NoRoomNoFeasibleRates | asim/asim.cc:853-876 | If some used link has no room after the short flows, no positive rates for the long flows are feasible. |
| MaxMinFairness.OverbookedStaysInfeasible | asim/asim.cc:849-898 | An instance without room: a short flow that fills a link and a long flow across it; the loop ends before its first round and the rates stay infeasible. |
| Asim.RoundScalesSome | asim/asim.cc:909-930 | Every round scales at least one new flow: the loop ends. |
| Asim.MoveOneLoads | asim/asim.cc:915-928 | What scaling one flow does to demand and residual capacity of every link, counting repeated links. |
| Asim.RoundOverAll | asim/asim.cc:909-930 | Scaling the flows stored at the link one after the other is the simultaneous round of the specification. |
| Asim.Allocator.StoreFlows | asim/asim.cc:492-526 | Every link stores exactly the flows whose route crosses it. |
| Asim.Allocator.InitLinks | asim/asim.cc:853-876 | Residual capacity and demand of every link start as 1.05 mu less the short flows, and the load of the long flows. |
| Asim.Allocator.FindBottleneck | asim/asim.cc:886-898 | The link found is the first with the largest positive ratio of demand to residual capacity among all links whose residual capacity is not 0; none is found exactly if no ratio is positive. |
| Asim.Allocator.ScaleFlow | asim/asim.cc:915-928 | Divides one flow and updates its links, as the specified move. |
| Asim.Allocator.ScaleLink | asim/asim.cc:909-930 | One round over the flows of the bottleneck, as the specified round. |
| Asim.Allocator.RunRounds | asim/asim.cc:903-958 | The loop ends, with the accounts right and no bottleneck left. |
| Asim.Allocator.NewUpdate | asim/asim.cc:849-958 | With room at the start the rates are weighted max-min fair and every long flow is scaled and bottlenecked; they are feasible if and only if there was room. With or without room they come about round by round, each dividing by the largest ratio the unscaled flows on the first link that has it, until no ratio is positive. |
| TokenBucket.ConformsIffPacketsFit | adc/tbf.cc:74-149 | All schedules of packets of at most m bytes conform (at most bucket + rate * length bits in every interval) if and only if a packet of m bytes fits the bucket or the queue limit is 0. |
| TokenBucket.ConformsExactly | adc/tbf.cc:74-149 | A single run conforms if and only if no packet it sends is larger than the bucket. |
| TokenBucket.FittingArrivalsConform | adc/tbf.cc:74-149 | If no arriving packet is larger than the bucket, every run conforms in every interval. |
| TokenBucket.WindowBound | adc/tbf.cc:74-149 | If no packet a run sends is larger than the bucket, the bits sent in any interval are at most bucket + rate * length. |
| TokenBucket.TimerCoversHead | adc/tbf.cc:103-149 | When the timer fires the tokens cover the head packet exactly if it fits the bucket, which justifies sending unchecked. |
| TokenBucket.TimerPendingIffQueued | adc/tbf.cc:103-149 | After any events the queue is nonempty exactly when the timer is pending, and when the timer is due the refilled tokens cover the head exactly if the head fits the bucket. |
| TokenBucket.RunKeepsOrder | adc/tbf.cc:86-149 | In every run the accepted packets are, in order, those sent and then those queued, and the queue is within its limit. |
| TokenBucketService.ForwardedExactly | adc/tbf.cc:74-113 | In every schedule of fitting packets a packet that meets an empty queue is sent at once if and only if, for every earlier moment, what was sent since then plus its own bits is at most bucket + rate * length. |
| TokenBucketService.FirstPacketIsSent | adc/tbf.cc:76-102 | The first packet of all is sent at once if and only if it fits the bucket: the bucket starts full. |
| TokenBucketService.QueuedOrDropped | adc/tbf.cc:84-112 | A packet that meets a nonempty queue is dropped if and only if the queue is at its limit, and one that meets an empty queue and is not sent if and only if the limit is 0; otherwise it becomes the last of the queue. |
| TokenBucketService.HeadGoesAsSoonAsItMay | adc/tbf.cc:126-149 | When the timer is due, sending the head of the queue conforms, and at no earlier moment since the last packet would it have. |
| TokenBucketFilter.Tbf.Recv | adc/tbf.cc:74-113 | Forwards, queues or drops as specified, with the new tokens, queue and timer. |
| TokenBucketFilter.Tbf.GetUpdatedTokens | adc/tbf.cc:115-124 | Adds the tokens of the time since the last update, up to the bucket. |
| TokenBucketFilter.Tbf.Timeout | adc/tbf.cc:126-149 | Sends the head, pays for it, and sets the timer for the next. |
| Reservation.ReservedRateIsAccounted | adc/salink.cc:86-132 | For any interleaving of any flows over shared links, with teardowns right behind confirmations and flows that start again, the reserved rate of a link is the sum of the rates of the flows that hold it and within utilization * bandwidth, and the counter is their number less one. |
| Reservation.AllOrNothing | adc/salink.cc:100-132 | The reserved rate of any link is a sum to which every flow that is not signalling adds its rate if it is established and crosses the link and nothing otherwise, and every other flow its rate or nothing; a flow that is not signalling occupies no slot. |
| Reservation.QuietLinksHoldEstablished | adc/salink.cc:100-132 | When nothing is being signalled the reserved rate of every link is the sum of the rates of the established flows that cross it. |
| Reservation.DecisionIsUnanimous | adc/sa.cc:175-205 | A flow is established only if every link admitted it and refused only if some link did not. |
| Reservation.RunKeepsInv | adc/salink.cc:74-140 | The joint invariant of packets, flows and links holds in every run. |
| ReservationProgress.SetupIsDecided | adc/salink.cc:86-132 | From every reachable state, on links with a free slot, a flow that starts can be brought to a decision by steps of its own: established, with its rate reserved on every link of its path, if and only if all of them had room, and otherwise refused with every link exactly as it was. |
| ReservationProgress.StopGivesBack | adc/salink.cc:86-132 | From every reachable state steps of its own bring an established flow that stops to an end, and its rate and count leave exactly the links of its path. |
| Reservation.HopAtLink | adc/salink.cc:86-132 | What one packet does at one link: rate, counter and slot change exactly as the flow starts or stops holding. |
| Reservation.SlotTaken | adc/salink.cc:194-205 | A new id takes a free slot and touches no other. |
| Reservation.SlotFreed | adc/salink.cc:185-192 | A confirmation frees exactly the slot of its flow. |
| SaLink.ParamAdc.AdmitFlow | adc/param-adc.cc:89-96 | Admits exactly if the reserved rate stays within the limit, and then reserves it. |
| SaLink.ParamAdc.RejAction | adc/param-adc.cc:78-81 | Gives the rate back. |
| SaLink.ParamAdc.TeardownAction | adc/param-adc.cc:84-87 | Gives the rate back. |
| SaLink.SaLink.Find | adc/salink.cc:185-205 | The first slot that holds an id, or the number of slots. |
| SaLink.SaLink.Recv | adc/salink.cc:74-140 | State and packet are those of the specified link for every packet kind; no result when the slots run out. |
| SaAgent.Source.SendReq | adc/sa.cc:146-158 | The request starts as granted, with flow id and rate. |
| SaAgent.Source.Recv | adc/sa.cc:175-205 | An echoed decision is turned around into a confirmation; the source runs exactly if it was granted. |
| SaAgent.Source.StopFlow | adc/sa.cc:136-143 | Sends the teardown and stops. |
| Reassembly.AddIsCorrect | baytcp/tcp-full-bay.cc:1314-1404 | For a nonempty segment at or after the expected number, disjoint from or identical to those queued: the queue is sorted and beyond a hole again, the expected number moves to exactly the first byte not received, exactly the segments beyond it stay, and the flags of the drained ones are returned. |
| Reassembly.NextIsContiguousPrefix | baytcp/tcp-full-bay.cc:1314-1404 | Over any run of such segments the expected number is exactly the end of the contiguous prefix of all that arrived, and the queue covers exactly what is beyond. |
| Reassembly.InsertKeepsSorted | baytcp/tcp-full-bay.cc:1323-1371 | Insertion keeps the queue sorted. |
| Reassembly.InsertContents | baytcp/tcp-full-bay.cc:1323-1371 | Insertion adds the segment and loses none. |
| Reassembly.DrainIs | baytcp/tcp-full-bay.cc:1373-1402 | Draining takes the longest gap-free front, moves the expected number to its end and collects its flags. |
| Reassembly.QueueSurvivesIff | baytcp/tcp-full-bay.cc:1314-1404 | After any nonempty segment at or after the expected number the queue is sorted and beyond a hole if and only if the segment is disjoint from or identical to every queued one. |
| Reassembly.RunSurvivesIff | baytcp/tcp-full-bay.cc:1314-1404 | Over any run of such segments the queue is in order after every call if and only if every segment was disjoint from or identical to those queued then. |
| Reassembly.OverlapBreaksReassembly | baytcp/tcp-full-bay.cc:1381-1384 | A queue left out of order can take the expected number back behind bytes that have arrived: one such run. |
| ReassemblyQueue.Queue.FindPlace | baytcp/tcp-full-bay.cc:1337-1353 | The pointer walk finds the specified place. |
| ReassemblyQueue.Queue.SpliceHead | baytcp/tcp-full-bay.cc:1355-1360 | Splicing at the head keeps both directions of the list well formed. |
| ReassemblyQueue.Queue.SpliceAfter | baytcp/tcp-full-bay.cc:1362-1370 | Splicing in the middle or at the end keeps both directions of the list well formed. |
| ReassemblyQueue.Queue.InsertSegment | baytcp/tcp-full-bay.cc:1323-1371 | The list holds the specified queue after the insertion. |
| ReassemblyQueue.Queue.Unlink | baytcp/tcp-full-bay.cc:1386-1394 | Unlinking a node keeps the rest well formed and in order. |
| ReassemblyQueue.Queue.DrainQueue | baytcp/tcp-full-bay.cc:1379-1403 | The loop leaves queue, expected number and flags as specified. |
| ReassemblyQueue.Queue.Add | baytcp/tcp-full-bay.cc:1314-1404 | The whole operation on the doubly linked list is the specified one. |
| ReassemblyQueue.Queue.Clear | baytcp/tcp-full-bay.cc:1297-1307 | Empties the list. |
| SendBuffer.RunKeepsFifo | aodv/aodv_rqueue.cc:50-138 | Under a clock that does not run backwards: within the limit, in time order, and per destination what came in is what left, in order, and then what is queued; a packet leaves by timing out exactly when its time is over. |
| SendBuffer.RunConserves | aodv/aodv_rqueue.cc:50-138 | Every packet that entered is queued or left exactly once, whatever the clock does. |
| SendBuffer.PurgesAgreeIffInOrder | aodv/aodv_rqueue.cc:205-257 | The scanning purge and the commented-out head-only purge agree at every time if and only if the packets are in time order. |
| SendBuffer.AgedArePrefix | aodv/aodv_rqueue.cc:205-257 | In time order the aged packets are a prefix, and both purges remove exactly it. |
| SendBuffer.OutcomeShape | aodv/aodv_rqueue.cc:50-138 | Every operation purges, takes at most one packet, the first for its destination, and appends at most one; the limit holds. |
| SendBuffer.TakeForIs | aodv/aodv_rqueue.cc:106-138 | A packet is handed out for a destination if and only if an unexpired one for it is queued, and then it is the first such one; besides it exactly the expired ones leave, in order. |
| SendBuffer.TakeIs | aodv/aodv_rqueue.cc:84-103 | A packet is handed out if and only if an unexpired one is queued, and then it is the first such one; besides it exactly the expired ones leave. |
| SendBuffer.EnterIs | aodv/aodv_rqueue.cc:50-82 | A packet that enters pushes one out if and only if 64 unexpired ones are queued, and then the first of these, counted as lack of room exactly if its time was still to come; the new one is last. |
| SendBuffer.ArrivalWaits30 | aodv/aodv_rqueue.cc:50-82 | A packet that enters may wait for 30 seconds. |
| SendQueue.RQueue.VerifyQueue | aomdv/aomdv_rqueue.cc:242-256 | The two self-check assertions never fail. |
| SendQueue.RQueue.Enque | aodv/aodv_rqueue.cc:50-85 | The linked queue after enque is the specified one, and the packet dropped, if any, with its reason. |
| SendQueue.RQueue.Deque | aodv/aodv_rqueue.cc:88-103 | The same for deque. |
| SendQueue.RQueue.DequeDst | aodv/aodv_rqueue.cc:106-138 | The same for deque of a destination, on all three unlinking branches. |
| SendQueue.RQueue.Find | aodv/aodv_rqueue.cc:140-151 | True exactly if a packet for the destination is queued. |
| SendQueue.RQueue.RemoveHead | aodv/aodv_rqueue.cc:159-174 | Removes the first packet, or nothing from an empty queue. |
| SendQueue.RQueue.FindPacketWithDst | aodv/aodv_rqueue.cc:176-187 | The first packet for a destination and the one before it. |
| SendQueue.RQueue.FindAgedPacket | aodv/aodv_rqueue.cc:219-230 | The first aged packet and the one before it, exactly if there is one. |
| SendQueue.RQueue.Purge | aodv/aodv_rqueue.cc:232-260 | Scanning again and again leaves exactly the packets that are not aged, in order. |
| SendQueue.RQueue.Unlink | aodv/aodv_rqueue.cc:240-250 | Each of the three unlinking branches removes exactly that packet. |
| Slots.RoundRobinIsFair | classifier/classifier-mpath.cc:165-172 | Over any run of calls on a fixed table, from any pointer, the use counts of any two filled slots differ by at most one. |
| Slots.UsesInRounds | classifier/classifier-mpath.cc:165-172 | Every filled slot is used once a round, up to where the pointer was and is. |
| Slots.UsesWrap | classifier/classifier-mpath.cc:165-172 | A pointer left beyond the last slot by a clear behaves as the slot it wraps to. |
| Slots.HashIsNumber | classifier/classifier-mpath.cc:192-203 | The 32-bit hash is the base-9 number of its bytes modulo 2^32. |
| SlotTable.Classifier.Alloc | classifier/classifier.cc:79-101 | Grows by doubling beyond the slot, keeps the contents and clears the rest. |
| SlotTable.Classifier.Install | classifier/classifier.cc:104-111 | Fills one slot, keeps the others; a non-null install keeps maxslot_ the largest occupied slot. |
| SlotTable.Classifier.Clear | classifier/classifier.cc:113-120 | Empties one slot and keeps maxslot_ the largest occupied slot. |
| SlotTable.Classifier.GetNxt | classifier/classifier.cc:127-136 | The first slot that is empty or holds the null agent; a new one exactly if there is none. |
| SlotTable.Classifier.InstallNext | classifier/classifier.cc:185-189 | Installs just above the largest slot. |
| SlotTable.InstallKeepsLargest | classifier/classifier.cc:104-111 | A non-null install keeps maxslot_ the largest occupied slot. |
| SlotTable.ClearKeepsLargest | classifier/classifier.cc:113-120 | A clear keeps maxslot_ the largest occupied slot. |
| SlotTable.MultiPathForwarder.Classify | classifier/classifier-mpath.cc:106-179 | Ends on the first filled slot from where the search starts: in round robin at the pointer, wrapped after one step if it was left beyond the last slot, and the pointer moves behind it; in the hashed modes at the base-9 number of the key, plus the priority if that is checked, modulo 2^32 and then modulo the number of slots. |
| SlotTable.MultiPathForwarder.Search | classifier/classifier-mpath.cc:156-172 | With one slot filled the loop ends at the next filled slot from the pointer and moves the pointer past it. |
| SlotTable.MultiPathForwarder.HashString | classifier/classifier-mpath.cc:192-203 | The base-9 number of the bytes modulo 2^32. |
| McastIndex.BucketAnswers | classifier/classifier-mcast.cc:87-100 | A search of the one hash bucket finds the entry that a newest-first search of the flat list finds. |
| McastIndex.BucketChanges | classifier/classifier-mcast.cc:259-270 | Changing an interface in the one bucket is changing it in the flat list, and leaves the other buckets. |
| McastIndex.GroupIsSourceZero | classifier/classifier-mcast.cc:102-113 | In the shared-tree table a search by group alone is a search for source 0. |
| McastIndex.HashFoldsBytes | classifier/classifier-mcast.h:73-78 | The two folding steps leave the exclusive or of the four bytes of source xor group. |
| McastIndex.PositionFinds | classifier/classifier-mcast.cc:87-100 | Search and change concern the first matching entry of the list. |
| McastIndex.LookupFindsIff | classifier/classifier-mcast.cc:87-100 | A search finds an entry exactly if one matches, the wildcard interface matching any. |
| McastIndex.ClassifyIsRight | classifier/classifier-mcast.cc:115-155 | The verdict is that of the newest own entry for the interface, else the newest shared one for it, else the newest own and then shared one on any interface, whose slot counts only if it is a wildcard entry; a packet misses exactly when there is no entry for it at all. |
| McastClassifier.HashTable.Clear | classifier/classifier-mcast.cc:68-79 | Walks and empties all chains. |
| McastClassifier.HashTable.Set | classifier/classifier-mcast.cc:166-177 | The new entry becomes the newest of the flat list. |
| McastClassifier.HashTable.HashOf | classifier/classifier-mcast.h:73-78 | The folded hash of source and group. |
| McastClassifier.HashTable.Lookup | classifier/classifier-mcast.cc:87-100 | The chain search returns the entry of the flat list. |
| McastClassifier.HashTable.LookupStar | classifier/classifier-mcast.cc:102-113 | The chain search by group returns the entry of the flat list. |
| McastClassifier.HashTable.ChangeIface | classifier/classifier-mcast.cc:259-264 | Edits exactly the entry found, in place. |
| McastClassifier.HashTable.ChangeIfaceStar | classifier/classifier-mcast.cc:266-270 | The same in the shared-tree table. |
| McastClassifier.MCastClassifier.SetHash | classifier/classifier-mcast.cc:181-203 | Shared-tree entries go to their own table with source 0. |
| McastClassifier.MCastClassifier.ChangeIface | classifier/classifier-mcast.cc:204-216 | Edits one of the two tables and leaves the other. |
| McastClassifier.MCastClassifier.ClearAll | classifier/classifier-mcast.cc:81-85 | Empties both tables. |
| McastClassifier.MCastClassifier.Classify | classifier/classifier-mcast.cc:115-155 | The fallback order: own entry, shared entry, either on any interface. |
| FatTree.DegreesAreK | FatTreeGenerator/FatTreeGenerator.py:84-147 | In the generated links every host has degree 1 and every edge, aggregation and core switch degree exactly k. |
| FatTree.OneAggPerPod | FatTreeGenerator/FatTreeGenerator.py:126-147 | Each core switch is linked to exactly one aggregation switch of every pod. |
| FatTree.LinkIff | FatTreeGenerator/FatTreeGenerator.py:84-147 | Exactly which links the three loops generate. |
| FatTree.OnePathPerCore | FatTreeGenerator/FatTreeGenerator.py:84-147 | A path up and down between two hosts exists through a core switch exactly in one way. |
| FatTree.PathsBetweenPods | FatTreeGenerator/FatTreeGenerator.py:84-147 | Any two hosts have exactly (k/2)^2 up-down paths, one per core switch; for hosts of different pods the edge and aggregation switches of the two ends differ. |
| FatTreeGenerator.SizesFromK | FatTreeGenerator/FatTreeGenerator.py:22-39 | The counts computed from k are those of the tree, for every even k. |
| FatTreeGenerator.Split | FatTreeGenerator/FatTreeGenerator.py:98-115 | The counting loop cuts a switch list into pods. |
| FatTreeGenerator.Generator.GenerateNodes | FatTreeGenerator/FatTreeGenerator.py:54-80 | The four node lists have their full lengths. |
| FatTreeGenerator.Generator.GenerateEndHostToEdgesSwitchLinks | FatTreeGenerator/FatTreeGenerator.py:84-92 | The counter-driven loop links each host to its edge switch. |
| FatTreeGenerator.Generator.GenerateEdgesSwitchToAggregatorLinks | FatTreeGenerator/FatTreeGenerator.py:95-123 | The nested loops link every edge switch to every aggregation switch of its pod. |
| FatTreeGenerator.Generator.GenerateAggregatorSwitchToCoreSwitchLinks | FatTreeGenerator/FatTreeGenerator.py:126-147 | The while loop links each pod to all core switches, in rows. |

## Left out

- AodvNetwork.LoopFreedom: with local repair (aodv/aodv.h:49) it is claimed only for runs in which no repair timer finds a route still under repair, because `AodvRepair.LocalRepairLoops` shows it false otherwise. How often a packet was forwarded is a parameter of the step that starts a repair, because data packets are not modelled.
- AodvAgent.Agent.RecvReply, AodvAgent.Agent.UnreachableDst, AodvAgent.Agent.RecvError, AodvAgent.Agent.HandleLinkFailure, AodvAgent.Agent.NbDelete, AodvAgent.Agent.RtLlFailed: the state after a failed assertion is not promised, because the program stops there; the step system of `AodvNetwork` goes on with the specified handler.
- AodvAnswers.AnswersAreFresher: without local repair, because a repair asks with a live number, which an answer may only equal.
- AOMDV field rt_hops (aomdv/aomdv_rtable.h:222): it is never assigned, and the assertions that read it (aomdv/aomdv.cc:589, 663, 1428) say nothing about the advertised hop count, which is a field of its own.
- AOMDV link-disjoint mode, link-layer detection and local repair: not in the configuration of aomdv/aomdv.h:105-118.
- Clocks in AODV and AOMDV: which routes, paths, broadcast ids and neighbours are past their time is a parameter of a step, so every timing is covered; lifetimes in messages are not modelled.
- Rate limits, retries, TTLs and the expanding ring of requests (rt_req_* fields), jitter, latency history and packet salvaging: they only suppress or delay messages, which the step system allows anyway.
- Forwarding of data packets and the send buffer inside the routing agents: the buffer is modelled on its own, and whether packets wait for a destination is a parameter of route expiry.
- Gratuitous replies of AODV: RREQ_GRAT_RREP is commented out at aodv/aodv_packet.h:90.
- Field widths (8-bit hop counts, 32-bit sequence numbers, 100 items in an error): naturals and unbounded sequences. The value INFINITY of AOMDV, not defined in the repository files, is a separate "no advertisement" value.
- AodvAgent.Agent.RecvHello: lifetime of the neighbour entry is left out, because time is a parameter.
- AomdvAgent.Agent.RecvHello: the lifetime of the neighbour entry is left out, because time is a parameter; the loss of any address as a neighbour is a possible step.
- AomdvAgent.Agent.RtPurge: the expiry time of an entry as a whole, which only guards the search for expired paths, is left out; an empty set of expired paths covers it.
- Aliasing of path pointers, and of route entries in AODV: the AOMDV agent works on entry objects in place, their path lists are sequence fields, and the AODV table is a map of values that the methods reassign.
- asim queueing formulas, link delays, RED, and the update of link rates after the loop of newupdate (asim/asim.cc:958); asim/asimstd.cc repeats the same loop.
- Asim.Allocator.NewUpdate: long flows have positive offered rates and every flow a nonempty route over existing links; a long flow without a link would never be scaled.
- TokenBucket.ConformsIffPacketsFit: the token rate is positive and the bucket not negative, without which the timer interval has no meaning.
- Double rounding in asim, the token bucket and the accountant: reals.
- Reservation.AllOrNothing: assumes distinct non-negative flow ids, no loss and no reordering of the signalling packets of one flow, a receiver that echoes the decision, and teardown of accepted flows only; a flow starts again only after its last packet has crossed the path. A run stops when the 500 pending slots of a link run out, where the program exits.
- SaAgent.Source.Recv: the traffic generator and the scheduling of the stop time are left out.
- SaLink.SaLink.Recv: class and bucket arguments are left out, because the rate-based accountant ignores them; the other admission controllers and load estimators are not modelled.
- Reassembly.AddIsCorrect: the guarantee of the caller (disjoint or identical segments at or after the expected number) is a precondition; the code does not check it, and `Reassembly.QueueSurvivesIff` shows that it is exact. Flag words are sets of bits. The rest of the BayTCP agent, whose base class is not part of this model, is left out.
- ReassemblyQueue.Queue.Add: the expected number is a field; in the source it is a reference into the agent. Freed nodes are just unreachable.
- SendQueue.RQueue.Enque: tracing of drops is left out; the limit is 64 packets and the timeout 30 seconds, as both routing agents set them.
- SlotTable.MultiPathForwarder.Classify: the byte layout of the hash key is a parameter, and the table must have a filled slot (with none the program divides by zero or does not end).
- SlotTable.Classifier.Clear: clearing a slot outside the table is excluded; the code would write out of bounds.
- McastClassifier.MCastClassifier.Classify: misses and wrong interfaces are results; the Tcl upcall that answers them is left out. Addresses are 32-bit values as naturals.
- Fat-tree host mapping (generateMapping), reverse links, bandwidths, node names and the file writers: the mapping shuffles and deletes by shifting positions, the rest is plumbing.
- Tcl linkage, command parsing, tracing, logging and packet memory.
