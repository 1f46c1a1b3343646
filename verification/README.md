# Verified model of the AODV-UU agent with path costs, and of its 802.11 sender

The repository extends AODV-UU 0.9.6 (RFC 3561) with a path-cost metric, three channels and a
modified 802.11 MAC for ns-2. This project models its route discovery, its routing table and its
MAC sender, and proves what they are for.

**Route discovery as a distributed protocol.** `Aodv` gives the request and reply handlers as
functions of a node's state; `Network` lets any number of such nodes exchange packets that may be
delivered in any order, lost or duplicated, while routes expire and records time out at any moment.
Over all runs of that network:

- forwarding is free of loops if and only if no link cost is negative (`LoopFreedom`, `NegativeCost`);
- every route and every message carries the weight and hop count of a real walk along links (`Realizability`);
- a search that starts with nothing in the air, and whose requests carry a number nobody holds yet, leaves
  every node with a route no dearer than any walk around the nodes that answered from their tables; if nobody
  but the destination answers, with the cheapest route to the originator (`Optimality`), in networks of up to 33
  nodes and not beyond. Where other nodes answer too, three nodes are too many, and where somebody holds the
  number already, two (`NetworkSize`, `IntermediateAnswers`, `Resends`);
- a search ends after a computable number of deliveries (`Termination`, `Convergence`);
- such a search leaves the originator with a valid route if a walk leads to the destination and every reply
  goes to a node that hears its channel (`Replies`). So it does over two-way links: an ordinary search if links
  are alike on every channel, one that only the destination may answer if nobody holds a number ahead of the
  destination's own. These conditions, with the one on the originator's number, are exact (`LostAnswers`);
- in every run, whenever nothing is in the air, a number that nobody holds is all that an ordinary search needs
  of the nodes' state over such links (`LaterSearches`);
- a run in which every record of requests seen is forgotten at once goes through the same routes, counters
  and packets (`RecordFilter`);
- every answer carries at least the number its flood asked for, no node's own number falls, and nobody is
  ahead of it by more than one (`Freshness`).

Every broadcast leaves on all three interfaces, whatever channel it was made for (`ns-2/aodv-uu.cc:471-483`),
so one flood puts nine packets in the air for a neighbour that hears every channel. `Schedules` puts single
runs together, for the results that something can happen.

**The agent in place.** `RoutingTable` is the hash table with entries changed in place, counters,
precursor lists, and timers with the time they are due. `Agent` runs the handlers on it and is proved to
do, to the routes and to the messages sent, exactly what `Aodv` says, so the protocol theorems are about
the code that runs; beyond the routes it is proved what each handler does to timers and precursors.
`Rerr` adds error propagation, `ErrorsReach` shows that whoever a route was handed to hears of its loss,
`Neighbours` the neighbour bookkeeping, `HelloRing` the ring of hello acknowledgements, `RateLimiter` the
send limiter, `SeekTimer` the retries and `ExtensionChain` the chain of extensions written by a repair.
Operations specified by functions have their effect stated field by field as well, in lemmas whose names
end in `Means`.

**The MAC sender.** `Dcf` gives the handlers of the sender as functions, `MacSender` the same handlers
in place with the assertions of the original, and `FrameQueue` the linked list of management frames.

Findings about the original, each stated as a theorem with its exact condition:

- Loop freedom fails for every negative link cost. `getCost` returns `-log` of an estimated link
  quality, which is negative as soon as the estimate exceeds one (`ns-2/aodv-uu.h:292`).
- A unicast frame of exactly the RTS threshold's size is retransmitted without bound, because it is
  sent with RTS (`size >= threshold`) while its failures count in the counter that every CTS resets
  (`size <= threshold`).
- A data frame is left without any timer exactly when a CTS falls due on a busy medium while no
  back-off runs.
- A node that repeats a request sends its host number plus one without counting up (`aodv_timeout.c:107-110`), so
  its next request, a second repetition or a discovery of any destination, carries the same number. Every
  neighbour that took the repeated one refuses it, unless it is cheaper (`aodv_rreq.c:828-841`), and an ordinary
  search fails although nothing is lost and links are two-way and alike. In every run at rest, nobody's number is
  behind by more than that one.
- A node that answers a request from its table sends the answer on the channel of the route it offers
  (`aodv_rreq.c:999`), not on the one the request came by. Where links differ between channels the answer is
  lost and the search fails, although the destination can be reached over two-way links.
- Whoever has taken a number of a repeated request also refuses the node's own later answer, because it carries the
  same number at no lower cost. This concerns searches that only the destination may answer. No discovery asks for
  that: the flag comes from a local repair (`aodv_rreq.c:1142,1244`), and an unanswered repair is repeated with it
  as an ordinary request (`aodv_timeout.c:103-110`).
- A node that answers from its table does not send the request on, so a cheaper copy that comes after the first
  answer stops there and the nodes behind it keep a dearer route, even in the first search after power-up.
- The hello acknowledgement of a node that is not listed goes into the first free row (`aodv_rrep.c:162-173`) and
  counts as that of the neighbour listed there next.

Where the code and its comments or documents differ, the model follows the code:

- A comment in `rreq_create_with_cost` (`aodv_rreq.c:162-164`) says that the host number goes up before a
  flood. The request carries the number plus one, the host counts up once after the three requests of a
  discovery, and a resend does not count up at all.
- The time-to-live that `rreq_route_discovery` computes for an expanding ring is overwritten by 32
  (`aodv_rreq.c:1106`).
- The notes on the seek list (`md/aodv-uu.md:162`) say that each firing raises both the count and the
  time-to-live; the code raises one or the other (`aodv_timeout.c:69-87`).
- The rate limits are named ten (`params.h:59-62`); the arrays hold nine times, so nine sends pass per second.
- Freshness is decided by cost, not by the hop count of RFC 3561, sections 6.2, 6.5 and 6.7.

## Model

| member | source | states |
|---|---|---|
| `LoopFreedom.RunIsLoopFree` | code/aodv-uu-0.96/aodv_rreq.c:755-857 | in every state of every run over links of non-negative cost, the next-hop graph of each destination has no cycle, invalid routes included |
| `LoopFreedom.StepOrdered` | code/aodv-uu-0.96/aodv_rrep.c:807-900 | every step keeps the order that excludes loops: towards the destination (net sequence number, cost) never gets worse, and equal pairs get older |
| `LoopFreedom.PairNeverWorse` | code/aodv-uu-0.96/routing_table.c:631-665 | a step keeps a node's pair (net sequence number, cost), even when it invalidates the route, or replaces it by a strictly better one |
| `LoopFreedom.OrderedIsLoopFree` | code/aodv-uu-0.96/aodv_rreq.c:828-837 | the order over all routes excludes cycles, over links of cost zero too |
| `NegativeCost.LoopFreeIffNonNegative` | code/aodv-uu-0.96/ns-2/aodv-uu.h:278-299 | all runs with link costs from a set are loop-free if and only if the set has no negative cost |
| `NegativeCost.NegativeCostLoops` | code/aodv-uu-0.96/aodv_rreq.c:828-837 | for any negative cost there is a run, a search in a line of nodes with three deliveries, that ends with two nodes pointing at each other |
| `Network.StepGood` | code/aodv-uu-0.96/aodv_rreq.c:674-1045 | steps keep routes and packets well formed: next hops and addressees are other nodes of the network, numbers positive, channels known |
| `Network.StepShape` | code/aodv-uu-0.96/aodv_rrep.c:746-979 | a step only keeps or invalidates routes or takes the one a delivered packet offers, and new packets offer what their sender holds |
| `Realizability.RunIsRealized` | code/aodv-uu-0.96/aodv_rreq.c:995-1000 | with static link costs every route and message carries the weight and the length (modulo the byte) of a walk, each hop over a link of its channel, from the node it names |
| `Realizability.NeverTooCheap` | code/aodv-uu-0.96/aodv_rrep.c:384-391 | no route is cheaper than the true distance along links |
| `Optimality.SearchIsOptimal` | code/aodv-uu-0.96/aodv_rreq.c:785-844 | once no request of a first or repeated search is in the air, if nobody held its number before and nobody but the destination has answered, a node has a route to the originator exactly if a walk not passing through the destination leads to it, and its cost is the least weight of such walks, in networks no larger than the time-to-live allows |
| `Optimality.SearchIsOptimalAround` | code/aodv-uu-0.96/aodv_rreq.c:922-1040 | whoever answers: a route has the weight of some walk, and every walk that does not go on from a node that answered for its present route leads to a node with a route no dearer than that walk |
| `Optimality.StepSearching` | code/aodv-uu-0.96/aodv_rreq.c:1026-1039 | every delivery, of requests that other nodes may answer too, keeps: what a node holds comes from a simple walk, and each neighbour of a node that has not answered knows of it or has a packet under way |
| `Optimality.LastHop` | code/aodv-uu-0.96/aodv_rreq.c:1026-1040 | where the time-to-live of 32 runs out in a network of 33 nodes, all nodes are served already |
| `Optimality.DestOnlyIsDirect` | code/aodv-uu-0.96/aodv_rreq.c:943 | in a search with the destination-only flag no delivery makes a node other than the destination answer |
| `Optimality.UnknownIsDirect` | code/aodv-uu-0.96/aodv_rreq.c:943-960 | in a search for a node that is not there and that nobody has a route to, no delivery makes anybody answer |
| `Optimality.PairIsOptimal` | code/aodv-uu-0.96/aodv_rreq.c:785-844 | in networks of two nodes searches are optimal whoever answers |
| `IntermediateAnswers.FirstSearchIsNotOptimal` | code/aodv-uu-0.96/aodv_rreq.c:943-1000 | a run from power-up, its first search, on three nodes: the middle node answers the cheaper copy, and the destination keeps a dearer route to the originator |
| `NetworkSize.OptimalExactly` | code/aodv-uu-0.96/aodv_rreq.c:1106 | searches of time-to-live 32 in networks of up to a given size are all optimal if and only if that size is at most one or, nobody holding the number of their requests before, at most 33 and, unless only the destination answers, at most two |
| `Resends.BehindIsNotOptimal` | code/aodv-uu-0.96/aodv_timeout.c:107-110 | on two nodes: where the neighbour's route with the number of a repeated request has expired, the next search leaves it without a route, though nobody answers |
| `Resends.RefusedRun` | code/aodv-uu-0.96/aodv_rreq.c:828-841 | whatever a node looks for after a repetition that its neighbour took, first or repeated request, the neighbour refuses it and no route changes |
| `Resends.ResendLagsBehind` | code/aodv-uu-0.96/aodv_timeout.c:107-110 | a run from power-up that leads to the states in which those searches start |
| `Convergence.SearchConverges` | code/aodv-uu-0.96/aodv_rreq.c:1106-1119 | a search from power-up, whoever answers, ends within a computable number of deliveries; with nothing left in the air it is optimal if nobody but the destination has answered |
| `Convergence.FirstSearchSucceeds` | code/aodv-uu-0.96/aodv_rrep.c:746-979 | after the first search over two-way links, answered by the destination alone or over links alike on every channel, the originator has a valid route to the destination exactly if a walk leads there; in the first case over symmetric costs of least weight |
| `Convergence.RouteMeansWalk` | code/aodv-uu-0.96/aodv_rrep.c:807-900 | in every state of every run with static costs over two-way links, whoever holds a route to a destination can reach it by a walk |
| `Replies.SearchSucceeds` | code/aodv-uu-0.96/aodv_rreq.c:900-1045 | with nothing left in the air the originator has a valid route to the destination, no older than what it held, if a walk leads there and every reply sent went to a node that hears its channel: for ordinary searches, and for those only the destination answers if nobody is ahead of it; nobody holding the number of the requests before |
| `Replies.TwoWayIsHeard` | code/aodv-uu-0.96/aodv_rreq.c:995-1000 | over two-way links every reply of a search goes to a node that hears its channel, if links are alike on every channel or only the destination answers |
| `Replies.SearchFindsDestination` | code/aodv-uu-0.96/aodv_rrep.c:384-391 | if only the destination answers and every reply goes to a node that hears its channel, the originator holds a newer valid route exactly if a walk leads to the destination, and over symmetric costs its cost is the least weight |
| `Replies.StepReturning` | code/aodv-uu-0.96/aodv_rreq.c:900-1028 | every step keeps, whoever answers: a request asks for all its sender needs, whoever took an answer has told its next hop, and a node that answered offered at least what was asked |
| `Replies.HopHome` | code/aodv-uu-0.96/aodv_rrep.c:875-892 | at rest, if no node closer to the originator has answered, the next hop of a node on the way back holds its answer too, one hop closer |
| `LaterSearches.RestIsReady` | code/aodv-uu-0.96/aodv_rreq.c:147-232 | in every run with nothing in the air, records and numbers allow a search of a node exactly if nobody holds the node's number plus one, and they always do if its number may be one behind |
| `LaterSearches.LaterSearchFinds` | code/aodv-uu-0.96/aodv_rreq.c:1049-1126 | every discovery in a run that starts with nothing in the air meets the hypotheses of the theorems on searches, with a number one behind or, if it is free, none, and the destination's number at most one behind |
| `LaterSearches.LaterSearchSucceeds` | code/aodv-uu-0.96/aodv_rreq.c:1049-1126 | in every run over two-way links alike on every channel, an ordinary discovery that starts with nothing in the air by a node whose number is free ends with a valid route if a walk leads to the destination |
| `LostAnswers.FindsExactly` | code/aodv-uu-0.96/aodv_rreq.c:995-1000 | in networks that the time-to-live crosses, searches always leave a valid route where a walk leads to the destination if and only if nobody holds the number of their requests before, links are two-way and, for ordinary searches, alike on every channel, for those with the destination-only flag, no number for the destination is ahead of the destination's own |
| `LostAnswers.BehindFails` | code/aodv-uu-0.96/aodv_rreq.c:828-841 | the search of a node whose number is behind, over two-way links alike on every channel and with nobody ahead of the destination: the destination refuses the request, and no route is found |
| `LostAnswers.UnlikeFails` | code/aodv-uu-0.96/aodv_rreq.c:999 | the ordinary search whose answer leaves on a channel the asking node does not hear: whatever the bound on numbers, it ends without a route |
| `LostAnswers.SearchLeads` | code/aodv-uu-0.96/aodv_rreq.c:900-915 | a run from power-up that leads to the state in which that search starts |
| `LostAnswers.RepairFails` | code/aodv-uu-0.96/aodv_timeout.c:103-110 | the repeated request of a local repair, made with the counters and the broken route that the repair left, is answered by its destination with a number the relay has taken already, and no route is found |
| `LostAnswers.ResendLeads` | code/aodv-uu-0.96/aodv_timeout.c:107-110 | a run from power-up in which a repeated request leaves a number behind that is ahead of its owner's |
| `Termination.DeliveriesAreBounded` | code/aodv-uu-0.96/aodv_rreq.c:1026-1040 | the deliveries of a run, of requests and replies, are bounded by the times-to-live of its floods and the fan-out of three broadcasts on every channel, whatever is lost or expires |
| `Termination.DiscoveryIsBounded` | code/aodv-uu-0.96/aodv_timeout.c:67-126 | one discovery with all its retries causes at most fan-out times (f^32 + 2 f^35) deliveries |
| `Termination.StepWeight` | code/aodv-uu-0.96/aodv_rrep.c:384-391 | every delivery lowers the weight in the air by at least one, a reply by the nodes that would still take it |
| `Termination.RunConserves` | code/aodv-uu-0.96/aodv_rreq.c:643-671 | hops travelled plus time-to-live of every request equal the time-to-live its flood started with |
| `Termination.LifeNeverWraps` | code/aodv-uu-0.96/aodv_rreq.c:802 | no reverse-route lifetime wraps while floods start with a time-to-live of at most 35 |
| `Termination.LifeWrapsBeyondDiameter` | code/aodv-uu-0.96/params.h:53-57 | the lifetime subtraction stays in range exactly up to 35 hops |
| `SeekTimer.ResendCount` | code/aodv-uu-0.96/aodv_timeout.c:67-104 | how many requests a discovery sends again from any state of its seek entry, and that none exceeds the network diameter |
| `SeekTimer.ResendTtls` | code/aodv-uu-0.96/aodv_timeout.c:69-87 | the time-to-live of each of them: two more each time up to the threshold, then the network diameter; without the expanding ring always the same |
| `SeekTimer.SeekEntry.Timeout` | code/aodv-uu-0.96/aodv_timeout.c:50-126 | each firing sends the next of the announced requests, or gives up when there is none |
| `RecordFilter.FilterIsRedundant` | code/aodv-uu-0.96/aodv_rreq.c:1326-1339 | in every run a request the record drops is one the cost guard refuses, though the record keeps the first cost and whether or not the entry is valid |
| `RecordFilter.SameWithoutRecords` | code/aodv-uu-0.96/aodv_rreq.c:785-844 | a run goes through the same routes, counters and packets, state by state, if all records are erased after each event |
| `RecordFilter.CostsDecrease` | code/aodv-uu-0.96/aodv_rreq.c:828-837 | of offers with one sequence number a node takes strictly cheaper ones each time |
| `RecordFilter.CopiesDecrease` | code/aodv-uu-0.96/aodv_rreq.c:785-844 | the copies of one request that a node takes, and so the copies it sends on, get strictly cheaper |
| `RecordFilter.StepKeepsRecords` | code/aodv-uu-0.96/aodv_rreq.c:1292-1324 | steps keep: each identifier belongs to one sequence number, and what is recorded is refused at the recorded cost |
| `Freshness.NoStaleAnswer` | code/aodv-uu-0.96/aodv_rreq.c:900-1028 | in every run, an answer to a request is about the node its flood sought, carries at least the number the flood asked for, and comes from another node only if that is allowed |
| `Freshness.RunAsks` | code/aodv-uu-0.96/aodv_rreq.c:1026-1039 | in every state of every run each request in the air asks for at least what its flood asked for, and for the same node |
| `Freshness.RunAttributed` | code/aodv-uu-0.96/aodv_rreq.c:147-232 | in every state of every run no route, and no message, about a node is ahead of that node's own number by more than one |
| `Freshness.OwnNumberNeverFalls` | code/aodv-uu-0.96/aodv_rreq.c:901-906 | over any stretch of a run no node's own number falls |
| `Agent.Agent.RreqProcess` | code/aodv-uu-0.96/aodv_rreq.c:674-1045 | the handler on the real table, counters and record list does what the protocol function says, messages included; a route it takes is due after the lifetime computed from its hops, an answer from the table links both routes' precursors, no other precursors or timers change, and no timer is left stopped unless that lifetime is zero |
| `Agent.Agent.RrepProcess` | code/aodv-uu-0.96/aodv_rrep.c:746-979 | the same for replies, the reverse route being found before and judged after the table changes; a reply that goes on makes its receiver a precursor of the forward route and its sender one of the reverse route, whose timeout is put off |
| `Agent.Agent.Receive` | code/aodv-uu-0.96/aodv_socket.c:211-250 | a received packet is handled as the protocol says, and the agent's own packets are ignored |
| `Agent.Agent.TakeRoute` | code/aodv-uu-0.96/aodv_rreq.c:792-844 | the entry is inserted, updated or left alone exactly as the guard decides, the table as a map is the one with the offer adopted, and every other field of every entry is as stated: a new timer runs for the lifetime, an old one is put off unless it is later, and entries that go down with a lost neighbour are kept for their period |
| `Agent.Agent.AnswerAsIntermediate` | code/aodv-uu-0.96/aodv_rreq.c:922-1044 | an answer from the table, a request forwarded on every channel, or silence, as the protocol says; the two routes of an answer get each other's next hop as a precursor and nothing else changes |
| `Aodv.IntermediateMeans` | code/aodv-uu-0.96/aodv_rreq.c:925-1003 | a node other than the destination answers exactly if it has a valid route with a channel and a known number no older than wanted and the flag is clear, and offers that very route; a route without a channel is dropped |
| `Agent.Agent.RrepForward` | code/aodv-uu-0.96/aodv_rrep.c:344-397 | the reply goes on along the reverse route with the hop count of the forward route; each of the two routes gets the other's next hop as a precursor, and only the reverse route is put off |
| `ErrorsReach.ReplyThenError` | code/aodv-uu-0.96/aodv_rrep.c:391-392 | after a reply has gone on, an error about its destination from the node it came from names that destination to the node the reply went to, unless the route was under repair |
| `ErrorsReach.AnswerThenError` | code/aodv-uu-0.96/aodv_rrep.c:334-338 | the same for a request answered from the table and the node that was answered |
| `Agent.Agent.RouteDiscovery` | code/aodv-uu-0.96/aodv_rreq.c:1049-1126 | three requests with identifiers of their own carry the host number plus one, and then the host counts up once; the destination's entry is kept at least until a reply could come back, and no other entry changes |
| `Agent.Agent.SendRequests` | code/aodv-uu-0.96/aodv_rreq.c:147-232 | a resend takes new identifiers and leaves the host number alone |
| `Agent.Agent.Expire` | code/aodv-uu-0.96/aodv_timeout.c:187-210 | an expiring route changes the map of routes as the protocol's local expiry does |
| `Agent.Agent.RecordFindLessCost` | code/aodv-uu-0.96/aodv_rreq.c:1326-1339 | finds a cheaper record exactly if the record map has one |
| `Agent.Agent.RecordInsert` | code/aodv-uu-0.96/aodv_rreq.c:1292-1324 | the first cost recorded for a request stays |
| `Agent.Agent.RecordTimeout` | code/aodv-uu-0.96/aodv_rreq.c:1357-1363 | a timeout forgets that request and no other |
| `RoutingTable.RoutingTable.Find` | code/aodv-uu-0.96/routing_table.c:559-584 | finds an entry for a destination exactly if the table has one, the early exit on the counter included |
| `RoutingTable.RoutingTable.Insert` | code/aodv-uu-0.96/routing_table.c:86-197 | adds one entry exactly if the destination has none, and changes no other |
| `RoutingTable.RoutingTable.InsertWithChannel` | code/aodv-uu-0.96/routing_table.c:200-311 | refuses the own address and an entry on the same channel; destinations stay unique exactly if there was no entry before |
| `RoutingTable.RoutingTable.UpdateWithChannel` | code/aodv-uu-0.96/routing_table.c:313-396 | the new value of the entry and of every other entry; the active count goes wrong by one exactly when a valid one-hop entry is demoted |
| `RoutingTable.RoutingTable.Update` | code/aodv-uu-0.96/routing_table.c:399-480 | the same without touching channel and cost |
| `RoutingTable.RoutingTable.Invalidate` | code/aodv-uu-0.96/routing_table.c:631-737 | an entry goes down once, gets a higher number and a timer that is due after the period that fits its repair flag; counters stay right |
| `RoutingTable.RoutingTable.LinkBreak` | md/aodv-uu.md:173-181 | afterwards the valid entries are exactly the other ones that do not lead through the neighbour; each entry that goes down gets the next number, is marked for repair exactly if it or the neighbour's was, and is kept for its period; all others stay as they are |
| `Aodv.LinkBreakMeans` | md/aodv-uu.md:173-181 | the same of the map of routes: exactly the valid routes that do not lead through the neighbour are left |
| `Aodv.ExpiryMeans` | code/aodv-uu-0.96/aodv_timeout.c:187-210 | after the expiry of a one-hop route no valid route leads through that neighbour; the expiry of another route changes that route alone |
| `Aodv.AdoptMeans` | code/aodv-uu-0.96/routing_table.c:313-396 | a route is taken as offered, keeping its flags but for a finished repair, and takes down exactly the routes through a neighbour that is none any more |
| `RoutingTable.RoutingTable.Delete` | code/aodv-uu-0.96/routing_table.c:739-767 | exactly this entry leaves its bucket; counters stay right |
| `RoutingTable.RoutingTable.Destroy` | code/aodv-uu-0.96/routing_table.c:61-73 | every bucket is empty and the entry count is zero |
| `RoutingTable.RoutingTable.Fire` | code/aodv-uu-0.96/aodv_timeout.c:129-227 | what each of the three handlers leaves of the entry and of the others, and to whom a failed repair is reported |
| `RoutingTable.RoutingTable.HelloTimeout` | code/aodv-uu-0.96/aodv_timeout.c:231-263 | a lost neighbour goes down with the routes through it and waits for repair exactly if repair is possible or under way |
| `RoutingTable.RoutingTable.CountersExact` | code/aodv-uu-0.96/routing_table.c:641-659 | the entry count is exact, and the active count is the number of valid entries less the demotions, exactly that number without any |
| `RoutingTable.GoneAfterStage` | code/aodv-uu-0.96/routing_table.c:708-734 | an entry with a running timer is gone after exactly one, two or three firings, each when due, until then its timer runs again, and the last firing is due after the periods for repair and deletion |
| `RoutingTable.RoutingTable.InsertRefines` | code/aodv-uu-0.96/routing_table.c:218-311 | an insertion after a failed search is an insertion into the map of routes |
| `RoutingTable.RoutingTable.UpdateRefines` | code/aodv-uu-0.96/routing_table.c:322-382 | an update is the protocol's update of the map of routes |
| `RoutingTable.RoutingTable.LinkBreakRefines` | md/aodv-uu.md:173-181 | a link break is the protocol's link break of the map of routes |
| `RoutingTable.RoutingTable.DeleteRefines` | code/aodv-uu-0.96/routing_table.c:739-767 | a deletion removes the destination from the map of routes |
| `RoutingTable.BucketIsLowBits` | code/aodv-uu-0.96/routing_table.c:75-84 | the bucket is the address modulo 64 |
| `RoutingTable.Entry.PrecursorAdd` | code/aodv-uu-0.96/routing_table.c:772-806 | a precursor is listed once and the count is the length of the list |
| `RoutingTable.Entry.PrecursorRemove` | code/aodv-uu-0.96/routing_table.c:811-831 | exactly that precursor goes, and the count follows |
| `RoutingTable.Entry.PrecursorListDestroy` | code/aodv-uu-0.96/routing_table.c:836-851 | no precursor is left and the count is zero |
| `Rerr.Receiver.RerrProcess` | code/aodv-uu-0.96/aodv_rerr.c:142-315 | a repeated error does nothing; otherwise table and new error are those of the specification |
| `Rerr.ExactlyThoseRouted` | code/aodv-uu-0.96/aodv_rerr.c:184-229 | exactly the valid routes via the sender that the error names go down: they take the first number the error gives, have no precursors, are kept for repair or deletion by their flag, and keep cost, hops, next hop and channel; all other entries are untouched |
| `Rerr.ExactlyThoseReported` | code/aodv-uu-0.96/aodv_rerr.c:234-262 | the new error names once each destination that had a valid route via the sender, is named in the error, has precursors and is not under repair, with the first number given |
| `Rerr.NoticeNames` | code/aodv-uu-0.96/aodv_rerr.c:264-315 | the error sent on names exactly these destinations, and without any none is sent |
| `Rerr.EveryPrecursorIsTold` | code/aodv-uu-0.96/aodv_rerr.c:264-315 | every former precursor of every reported destination is addressed |
| `Rerr.UnicastExactly` | code/aodv-uu-0.96/aodv_rerr.c:288-299 | the error is unicast exactly for one destination with one precursor that is non-zero and in the table |
| `Neighbours.Host.UpdateStaInfo` | code/aodv-uu-0.96/aodv_hello.c:478-540 | the change count is the size of the symmetric difference of active and present neighbours |
| `Neighbours.Host.UpdateNeighborInfo` | code/aodv-uu-0.96/aodv_hello.c:568-614 | afterwards present neighbours are the active ones, addresses have one row each, no row has moved, and the change count would be zero |
| `HelloRing.Ring.Advance` | code/aodv-uu-0.96/aodv_hello.c:214-224 | the window is the last ten hellos; the log of acknowledgements, by address, stays, and each slot of the window still tells what it told |
| `HelloRing.Ring.HelloAck` | code/aodv-uu-0.96/aodv_rrep.c:157-177 | an acknowledgement sets the slot of its own hello or, once the index exceeds its byte, none; a listed neighbour's enters the log under its address, a stranger's counts for the row that is listed next |
| `HelloRing.Ring.TellsExactly` | code/aodv-uu-0.96/aodv_rrep.c:162-173 | the slot of a listed neighbour tells whether it has acknowledged that hello if and only if no stranger's acknowledgement of it was written there without one of its own |
| `HelloRing.Ring.AddNeighbour` | code/aodv-uu-0.96/aodv_hello.c:577-591 | a new neighbour is listed in the first free row and takes over what that row holds |
| `HelloRing.StrangerIsCredited` | code/aodv-uu-0.96/aodv_rrep.c:162-173 | from start-up: a stranger's acknowledgement is counted as that of the neighbour listed next |
| `RateLimiter.Window.Pass` | code/aodv-uu-0.96/aodv_socket.c:461-479 | a send passes if and only if fewer than nine of its kind passed within the second before; the array holds the last nine times, and sends nine apart are a full second apart |
| `RateLimiter.Limiter.Gate` | code/aodv-uu-0.96/aodv_socket.c:455-501 | requests and errors are limited apart, other messages not at all |
| `RateLimiter.PassingIsSpaced` | code/aodv-uu-0.96/aodv_socket.c:461-479 | of any requests in order of time, those that pass are a full second from the ninth before them |
| `RateLimiter.RecentByOldest` | code/aodv-uu-0.96/aodv_socket.c:461-462 | looking at the oldest slot alone decides how many sends were recent |
| `ExtensionChain.RoundTrip` | code/aodv-uu-0.96/aodv_rreq.c:111-144 | the receive loop visits exactly the destinations added, in order and with equal bytes |
| `ExtensionChain.Message.AddUdest` | code/aodv-uu-0.96/aodv_rrep.c:191-224 | one more destination becomes the last extension of the chain |
| `ExtensionChain.Message.Walk` | code/aodv-uu-0.96/aodv_rreq.c:421-469 | the loop visits the chain that the length fields describe and stops at its end |
| `ExtensionChain.OffsetGrows` | code/aodv-uu-0.96/aodv_rreq.h:89-96 | the offset computed from the counter is the end of the chain so far |
| `ExtensionChain.Capacity` | code/aodv-uu-0.96/aodv_rrep.h:84-89 | a request has room for 56 destinations and a reply for 79 |
| `Dcf.RunIsSafe` | code/mac/mac-802_11.cc:639-691 | in every run the packet slots fit the transmit state, retry counters stay below their limits and the contention window in its range |
| `Dcf.StepIsSafe` | code/mac/mac-802_11.cc:706-743 | every event keeps the relation of slots, transmit state and timers |
| `Dcf.StepTallies` | code/mac/mac-802_11.cc:1317-1441 | every event keeps counters and window in range, and the transmissions of a frame within what its counter says |
| `Dcf.DataMeans` | code/mac/mac-802_11.cc:2014-2061 | an acknowledgement is queued exactly for unicast frames, below the RTS threshold if the control slot is free, from it on if a CTS has been sent; a transmission under way goes on, and nothing else changes |
| `Dcf.AckIsKept` | code/mac/mac-802_11.cc:706-743 | no event takes a queued acknowledgement away before it has been sent |
| `Dcf.AckGoesOut` | code/mac/mac-802_11.cc:813-824 | it is transmitted when the defer ends, which runs at once or from the end of the transmission under way |
| `Dcf.BoundedExactly` | code/mac/mac-802_11.cc:1988-2008 | the transmissions of a unicast frame are bounded if and only if its size differs from the RTS threshold or the short limit is one |
| `Dcf.TriesAreBounded` | code/mac/mac-802_11.cc:1387-1424 | and then by the retry limit of its size |
| `Dcf.ThresholdFramesAreUnbounded` | code/mac/mac-802_11.cc:1119-1127 | a frame of the threshold's size exceeds any number of transmissions in some run |
| `Dcf.StrandsExactly` | code/mac/mac-802_11.cc:972-994 | a waiting frame loses its last timer exactly when a CTS is dropped for a busy medium and no back-off runs |
| `Dcf.StrandingIsReachable` | code/mac/mac-802_11.cc:813-824 | three events from power-up reach that state, whatever the configuration |
| `MacSender.Sender.SendTimer` | code/mac/mac-802_11.cc:861-965 | the handler in place does what the function says and none of its assertions fails |
| `MacSender.Sender.DeferHandler` | code/mac/mac-802_11.cc:813-824 | the same for the defer timer |
| `MacSender.Sender.BackoffHandler` | code/mac/mac-802_11.cc:706-743 | the same for the back-off timer |
| `MacSender.Sender.TxResume` | code/mac/mac-802_11.cc:640-691 | resuming starts no timer that runs already, even when the layer above sends from inside its callback |
| `MacSender.Sender.RetransmitRTS` | code/mac/mac-802_11.cc:1317-1355 | a lost RTS counts as a short failure, and at the limit the frame goes with it |
| `MacSender.Sender.RetransmitDATA` | code/mac/mac-802_11.cc:1358-1441 | a lost data frame counts by its size, and a broadcast is never sent again |
| `MacSender.Sender.RecvRTS` | code/mac/mac-802_11.cc:1925-1949 | the handler in place does what the function says and keeps the slots in step |
| `MacSender.Sender.RecvCTS` | code/mac/mac-802_11.cc:1988-2011 | the same for a CTS |
| `MacSender.Sender.RecvDATA` | code/mac/mac-802_11.cc:2014-2061 | the same for a data frame |
| `MacSender.Sender.RecvACK` | code/mac/mac-802_11.cc:2162-2219 | the same for an acknowledgement |
| `MacSender.Sender.Send` | code/mac/mac-802_11.cc:1557-1609 | a frame from above fills an empty slot and starts at most one timer |
| `Dcf.RunBacksOffByDoubling` | code/mac/mac-802_11.h:547-553 | in every run one more than the contention window is one more than the smallest, doubled some number of times, unless that exceeds the maximum; then the window is the maximum |
| `FrameQueue.ListIsFifo` | code/mac/mac-802_11.cc:3279-3347 | over any operations with non-zero priorities the list is a first-in first-out queue |
| `FrameQueue.AddAppends` | code/mac/mac-802_11.cc:3279-3303 | adding appends exactly unless a zero enters an empty queue |
| `FrameQueue.ShiftRemoves` | code/mac/mac-802_11.cc:3324-3347 | shifting removes the front exactly unless it leaves a lone zero |
| `FrameQueue.PriorityQueue.AddPriorityQueue` | code/mac/mac-802_11.cc:3279-3292 | the linked nodes hold the specified list afterwards |
| `FrameQueue.PriorityQueue.PushPriority` | code/mac/mac-802_11.cc:3294-3303 | a new last node |
| `FrameQueue.PriorityQueue.DeleteLastNode` | code/mac/mac-802_11.cc:3305-3322 | the last of two or more nodes is cut off and no value changes |
| `FrameQueue.PriorityQueue.ShiftPriorityQueue` | code/mac/mac-802_11.cc:3324-3347 | copying forward and cutting off removes the front value |

## Left out

- HELLO messages, the neighbour insertion on every received packet (`aodv_socket.c:226`), gratuitous replies, received errors and the deletion of routes are not events of the network in `Network`: they overwrite numbers or next hops, or forget them, without the cost guard, and the protocol theorems are about discovery and local expiry. Deletion and errors are modelled on the table.
- LoopFreedom.RunIsLoopFree: holds while sequence numbers stay below 2^31 - 1 and fewer than 2^32 - 3 requests were numbered, because the comparisons are signed; the loop after a negative cost is the exact limit in the other direction.
- Replies.SearchFindsDestination: is about searches that only the destination answers; for the others it cannot promise a newer route or the cheapest one, and `Replies.SearchSucceeds` promises a valid route no older than before.
- Replies.SearchSucceeds: is about one search that starts with nothing in the air and in which nothing is lost and no route expires; searches that overlap are part of the other theorems only. A first request asks for at least the number its originator stores, as every discovery does; a repeated one that asks for less is not covered.
- Optimality.SearchIsOptimal: needs a search that starts with nothing in the air and a number nobody holds, that nobody but the destination answers, no losses and no expiry; `Optimality.SearchIsOptimalAround` does without the condition on answers.
- Convergence.SearchConverges: is about the first search from power-up; for later ones the bound of `Termination.DeliveriesAreBounded` counts all floods of the run.
- Termination.DeliveriesAreBounded: excludes duplication, which creates deliveries at will.
- Realizability.RunIsRealized: the hop count is known modulo 256, as it is one byte.
- Link costs are parameters of a delivery; the estimation behind them (ARMA, SVM, logarithm, SNR) is not modelled, and costs are real numbers.
- `neighbor_link_break`, the timer queue and the seek list: their files are not part of the repository; the link break follows its description in `md/aodv-uu.md:173-181` (errors it sends are not part of this model), a timer is a handler, a running flag and the time it is due, and the periods for active and deleted routes, which the agent configures, are parameters.
- RoutingTable.RoutingTable.UpdateWithChannel: has no state parameter, because every caller asks for a valid route.
- RoutingTable.RoutingTable.LinkBreak: the errors that the description sends to precursors are not part of this model.
- Rerr.Receiver.RerrProcess: plain errors only, with neither the no-delete nor the repair flag.
- SeekTimer.SeekEntry.Timeout: the time-out of a failed repair when the search is given up is modelled as a handler of the table (`RoutingTable.Fire`), not as a consequence of the last firing.
- Agent.Agent.RreqProcess: no gratuitous replies and no acknowledgement request for unidirectional links.
- Agent.Agent.RrepProcess: no reply acknowledgements and no error after a repair; the lifetime that a reply carries is a parameter, and the one a reply is sent with is not modelled.
- Agent.Agent.AnswerAsIntermediate: no gratuitous reply to the destination.
- Agent.Agent.Receive: no neighbour insertion on every received packet.
- Agent.Agent.RouteDiscovery: does not look into the seek list; the network model allows a discovery at any time instead.
- HelloRing.Ring.HelloAck: requires that the row found lies inside the array of neighbours, which the original does not check.
- HelloRing.Ring.Advance: slot zero of the rows beyond the tenth is unknown until hello ten, because the start-up loop clears only ten of the twenty rows (`ns-2/aodv-uu.cc:177-191`).
- Neighbours.Host.UpdateNeighborInfo: requires that the neighbours fit the arrays of twenty, which the original does not check.
- Neighbours.Host.UpdateStaInfo: requires that the neighbours fit the arrays of twenty, which the original does not check.
- ExtensionChain.Message.Walk: requires that the length fields lead exactly to the end of the message, which holds for every message the writers produce; the original does not check it.
- Dcf.StepIsSafe: assumes that a running defer expires before the reception of a data frame completes and that the layer above waits for its callback.
- Request flags other than destination-only, RREP acknowledgement requests and the unidirectional-link hack are not modelled.
- Local repair decisions, multi-destination RERR layout, gateway code, the infrastructure mode of the MAC, energy and noise models.
- The destination's blacklist is consulted but nothing in the model adds to it.
