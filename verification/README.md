# GPSR: geographic forwarding, recovery and deferral, verified

GPSR (Greedy Perimeter Stateless Routing, Karp and Kung, MobiCom 2000) forwards a packet by positions
alone. Every node announces its position in HELLO messages and keeps an expiring table of its neighbours'
positions. A packet goes greedily to the neighbour closest to the destination; where no neighbour is closer
it enters recovery and follows the right-hand rule on a planarised neighbour graph until it meets a node
closer than the one where recovery began. Mode and positions travel in the packet's position header. Packets
for which there is no next hop yet wait in a bounded, expiring queue that a timer revisits.

This project models the ns-3 implementation of it and proves what that implementation keeps and achieves.
`dafny verify dfyconfig.toml` checks everything.

## Main results

1. **Delivery.** In every static unit-disc network that recovers on the Gabriel graph, with everyone agreeing
   where the destination is, a packet is delivered, within `n (e + 1)` hops for `n` nodes and `e` directed kept
   links, if and only if its destination can be reached (`Delivery.DeliveredIffReachable`); otherwise it ends
   up circulating (`Delivery.CirculatesIffUnreachable`). The code changes no faces and keeps no record of a
   walk's first link; for Gabriel graphs it needs neither, because a kept link that crosses the segment from a
   local minimum to the destination has an end closer to the destination (`Exits.CrossedLinkHasCloserEnd`), so a
   recovery walk either meets a way out or goes round with the destination on its other side
   (`WaysOut.RecoveryFindsWayOut`). This holds although kept links may cross: they do if and only if four nodes
   form a rectangle with both diagonals in range and an empty circle (`Delivery.PlanarIffNoEmptyRectangle`).
2. **The run in between.** From any state of recovery, every run delivers or ends, within the same bound,
   circulating for ever on one cycle of directed links (`Fates.DeliveredOrTrapped`), with the exact condition for
   being trapped (`Fates.TrappedIff`). The walk is a permutation of the directed links
   (`FaceWalk.WalkIsPermutation`), and one packet enters recovery at most `n` times (`Runs.EpisodesAreBounded`).
3. **The graph.** Although each node looks only at its own table, kept Gabriel links are symmetric and empty
   of all nodes of the network, cross only in rectangles, and connect whatever was connected (`UnitDisc`).
4. **The node.** Over every interleaving of arrivals, HELLOs, expiry and timer firings no packet is stranded
   in the queue (`NodeRuns.NoPacketIsStranded`), and every packet is accounted for exactly as often as it
   arrived, payload unchanged (`NodeRuns.EveryPacketIsAccountedFor`); what becomes of a packet taken from the
   queue, and when it is lost without a callback, is exact (`NodeRuns.DequeuedFate`), and so is what one
   CheckQueue leaves, unknown packet types included (`NodeDrain.CheckLeavesToward`), and what it puts in the log
   (`Dispatch.CheckLog`). What every action does is spelled out in times, addresses and header fields
   (`Routing.ForwardingAims`, `NodeEffects`). The protocol, table, queue
   and codec are classes whose in-place methods are proved to do what these results are about.
5. **Assumptions discharged or bounded.** All tables are exact in every run precisely when the entry lifetime
   exceeds one and a half HELLO intervals (`Beacons.TablesAreExactIff`); the tolerance of 1e-6 changes a
   planarisation test exactly when a witness's margin is too small for the distance, never up to an edge length
   of 10^6 for one test and distances of 5 * 10^5 for the other (`Planarization.GabrielToleranceIsExactIff`,
   `Planarization.RngToleranceIsExactIff`); the first header is exact precisely when the coordinates fit 16 bits
   (`NodeModel.FirstHeaderIsExactIff`).

How the delivery proof goes: a closed walk in the plane is looked at modulo two. From a node, in the direction
of some point, an odd or an even number of the walk's links lies straight above. Moving along a segment that
keeps clear of the walk does not change this (`ClosedWalks.MovingKeepsParity`); turning at a node changes it
exactly as often as one passes from inside to outside a sector that the walk sweeps over there
(`ClosedWalks.TurningFollowsSectors`). By the right-hand rule a kept link is in as many sectors at one end as
at the other, so both ends of an uncrossed kept link are on one side of a walk (`PlaneGraphs.LinkKeepsSide`); a
crossed or a pruned link is replaced by two shorter ones, so whole components are on one side
(`WaysOut.LinkedOnOneSide`, `WaysOut.ComponentOnOneSide`). The direction of the destination, from which the walk
started turning, is in exactly one sector (`PlaneGraphs.GoalIsAcross`).

## Modules

| module | of the program |
|---|---|
| `Types`, `Veils`, `Geometry`, `Directions` | 64-bit coordinates, exact distances, circles and angles |
| `Neighbors`, `Planarization` | what the neighbour table's choices compute; the code's tests with square roots and tolerance |
| `PositionTable` | the neighbour table, changed in place (class `NeighborTable`) |
| `Packets` | header codecs over a buffer iterator (class `BufferIterator`) |
| `RequestQueue` | the queue of deferred packets, changed in place (class `PacketQueue`) |
| `Routing`, `NodeModel` | one forwarding decision; one node's transitions as functions |
| `RoutingProtocol` | the protocol object, changed in place (class `Protocol`), shown to do what `NodeModel` says |
| `NodeEffects`, `Dispatch` | what each action does, spelled out; what leaves the queue and where to |
| `NodeRuns`, `NodeDrain` | all reachable states of a node |
| `UnitDisc`, `Cycles`, `FaceWalk` | the planarised network and the recovery walk on it |
| `Runs`, `Fates` | one packet's whole run over the network |
| `Sweep`, `ClosedWalks`, `Exits`, `PlaneGraphs`, `WaysOut`, `Delivery` | the delivery theorem |
| `Beacons` | HELLOs as timed steps |
| `Journeys`, `Resumption` | the node's steps make the network's hops, from the queue too; the bytes on the way |

Angles are exact: a direction is an integer vector, turns are compared by half-plane and cross product, and a
co-located point lies in direction +x, as `atan2(0, 0) = 0` has it. Distances are compared squared. Addresses
are 32-bit numbers, and a table is listed in ascending address order, as a `std::map` is walked. A "network" is
a map from addresses to distinct positions with a range; a node's view in it is exactly the true positions of
the nodes in range, which is what `Beacons` establishes.

Where comments and code differ, the code is followed: `BestAngle`'s second argument is documented as the
destination's position and is this node's (model/gpsr-ptable.h:103); `GetPosition` is documented to return NULL
for an unknown node and returns a fixed invalid position (model/gpsr-ptable.h:54); graph type 2 is documented as
the relative neighbourhood graph (README.md:84) and prunes more than that (`Planarization.RngBeyondTextbook`),
even all of a node's links (`Planarization.RngStrandsIff`); the queue's comment speaks of the same packet
(model/gpsr-rqueue.h:124) and the code compares packet identities.

## Model

| member | source | states |
|---|---|---|
| Delivery.DeliveredIffReachable | model/gpsr.cc:898-1012 | on the Gabriel graph of any static network a packet sent greedily from any node is delivered within n laps of e + 1 hops if its destination is reachable over unit-disc links, and never arrives otherwise |
| Delivery.CirculatesIffUnreachable | model/gpsr.cc:898-1012 | a packet that starts greedily at a node with a neighbour ends up on an endless recovery cycle exactly when its destination is unreachable |
| Delivery.PlanarIffNoEmptyRectangle | model/gpsr-ptable.cc:202-245 | the kept graph has no crossing links exactly when no four nodes form a rectangle with diagonals in range and no node inside its circle |
| Delivery.ReachableIsNotTrapped | model/gpsr.cc:428-487 | a packet whose destination is reachable from where it started is never on an endless recovery cycle |
| Delivery.EnteringIsAtMinimum | model/gpsr.cc:965-1011 | recovery is entered only at a node with no neighbour closer to the destination, along the first link counter-clockwise from the destination's direction |
| Delivery.TrackedForever | model/gpsr.cc:939-953 | at every moment of a run a packet in recovery is on the face walk that began, towards the destination, at a reachable local minimum recorded in its header |
| Delivery.UnreachableNeverArrives | model/gpsr.cc:898-1012 | no run reaches a destination outside the component it started in |
| WaysOut.RecoveryFindsWayOut | model/gpsr-ptable.cc:298-342 | the right-hand walk from a local minimum meets, within one round, the destination or a node closer to it, if some node can reach both the minimum and the destination |
| WaysOut.NoWayOutMeansAcross | model/gpsr-ptable.cc:298-342 | a round without a way out has its start and the destination on different sides, whether kept links cross or not |
| WaysOut.NobodyAhead | model/gpsr-ptable.cc:202-245 | at a local minimum no kept neighbour lies in the direction of the destination |
| WaysOut.SectorHoldsExit | model/gpsr-ptable.cc:298-342 | of all kept neighbours, only the chosen next hop is in the sector turned over, taken with its right edge |
| WaysOut.SectorHoldsEntry | model/gpsr-ptable.cc:298-342 | of all kept neighbours, only the previous hop is in that sector, taken with its left edge |
| WaysOut.SectorHoldsGoal | model/gpsr-ptable.cc:298-342 | a direction without neighbours is in the sector of just the passage that leaves where the right-hand rule leads from that direction |
| WaysOut.GabrielIsWellDrawn | model/gpsr-ptable.cc:202-245 | the kept links of any network, drawn as segments, turn and obey the sector rules at every node; crossings are allowed |
| PlaneGraphs.LinkKeepsSide | model/gpsr-ptable.cc:298-342 | both ends of a link that no other crosses are on the same side of every closed face walk |
| WaysOut.CrossingLinkSplits | model/gpsr-ptable.cc:216-241 | of two crossing kept links, an end of one splits the other into two strictly shorter links in range |
| WaysOut.LinkedOnOneSide | model/gpsr-ptable.cc:202-245 | both ends of every unit-disc link, kept, crossed or pruned, are on the same side of every closed face walk |
| WaysOut.ComponentOnOneSide | model/gpsr-ptable.cc:298-342 | all nodes of one unit-disc component are on the same side of every closed face walk |
| PlaneGraphs.GoalIsAcross | model/gpsr.cc:999-1003 | a goal from whose direction a face walk started turning is across that walk unless a link or stop of it comes in between, crossings among the links or not |
| Exits.CrossedLinkHasCloserEnd | model/gpsr-ptable.cc:216-241 | a link whose circle does not hold x, crossed by the segment from x to d, has an end strictly closer to d than x |
| Exits.AheadButFarIsBeyond | model/gpsr-ptable.cc:216-241 | a node in the direction of d but not closer to it has d strictly inside the circle of its link |
| Fates.DeliveredOrTrapped | model/gpsr.cc:898-1012 | every run from a node with a neighbour delivers or is circulating for ever inside one recovery episode after at most n laps |
| Fates.TrappedIff | model/gpsr.cc:939-953 | a recovery walk is endless exactly when no stop of its cycle is the destination or closer to it than the recorded recovery position |
| Fates.RunFollowsWalk | model/gpsr.cc:466-485 | as long as it does not end, recovery is the iterated face walk, header and all |
| Fates.GoodMovesOn | model/gpsr.cc:898-1012 | from a node with a neighbour a packet is never deferred, and the next holder has a neighbour too |
| Fates.Settles | model/gpsr.cc:898-1012 | the fate is decided within the hop budget from any recovery or greedy state |
| Fates.StaysReachable | model/gpsr.cc:898-1012 | a packet never leaves the connected component where it started |
| Fates.UnreachableCirculates | model/gpsr.cc:898-1012 | a packet for an unreachable destination is transmitted at every hop and ends up circulating |
| Runs.HopAndPotential | model/gpsr.cc:939-1003 | what one hop does to the distance to beat: never up; strictly down at non-delivering greedy hops, at exits and at re-entries; unchanged within an episode |
| Runs.PotentialNeverRises | model/gpsr.cc:939-1003 | the potential is non-increasing between any two moments of a run |
| Runs.EpisodesAreBounded | model/gpsr.cc:999-1003 | one packet enters recovery at most as often as there are nodes |
| Runs.GreedyIsLoopFree | model/gpsr.cc:965-996 | a chain of greedy hops visits no node twice and is no longer than the number of nodes |
| Runs.AgreementLasts | model/gpsr.cc:955-961 | the header keeps naming the agreed destination position along the whole run |
| Runs.GreedyHopInforms | model/gpsr.cc:955-977 | one greedy hop at a node with a newer true position brings the packet into agreement, wherever its header pointed |
| Runs.RecoveryDoesNotInform | model/gpsr.cc:999-1008 | a hop in recovery, entered or continued, carries on the position and time the packet came with |
| Routing.ForwardingAims | model/gpsr.cc:898-1012 | Forwarding from its inputs to its header: it stays in recovery unless closer than where that began; else it aims at the location service's position if that is newer and at the header's if not: straight to a neighbouring destination, else to the lowest-address closest neighbour if closer than this node, else into recovery from here turning from that position; every header field is given |
| Routing.TransmitCases | model/gpsr.cc:898-1012 | a transmitted packet goes to a live neighbour; sent greedily it carries the newer position and its time, and goes to the destination or strictly closer to that position; in recovery only the previous hop changes; on entering, this node is recorded |
| Routing.BestAngleRule | model/gpsr-ptable.cc:298-342 | for every graph type the recovery hop is a live neighbour that survives planarisation, with none strictly inside the sector turned over and none of a lower address in its own direction |
| Routing.RecoverGoesToNeighbor | model/gpsr.cc:428-487 | recovery defers exactly when the planarised list is empty |
| FaceWalk.WalkIsPermutation | model/gpsr-ptable.cc:298-342 | the right-hand walk maps the directed kept links injectively into themselves |
| FaceWalk.WalkIsPeriodic | model/gpsr-ptable.cc:298-342 | every walk returns to its first real link and repeats itself from there |
| FaceWalk.RightHandIsInjectiveIff | model/gpsr-ptable.cc:298-342 | for any planarised list, incoming links leave by different links exactly when no two neighbours share a direction |
| FaceWalk.GabrielHeadingsDiffer | model/gpsr-ptable.cc:202-245 | kept Gabriel neighbours at different places lie in different directions |
| FaceWalk.GabrielEmptyIffCoLocated | model/gpsr-ptable.cc:208-241 | the Gabriel list is empty exactly when every live neighbour is co-located |
| FaceWalk.NextEdgeIsEdge | model/gpsr-ptable.cc:298-342 | a recovery hop never runs into a dead end |
| FaceWalk.DegreeOneBounces | model/gpsr-ptable.cc:338-339 | the fallback to the first neighbour sends the packet back where it came from |
| UnitDisc.KeptIsGloballyEmpty | model/gpsr-ptable.cc:208-241 | a link is kept by a local test exactly when its open disc holds no node of the whole network |
| UnitDisc.GabrielIsSymmetric | model/gpsr-ptable.cc:208-241 | each end keeps the link exactly when the other does |
| UnitDisc.CrossingKeptLinksAreRectangles | model/gpsr-ptable.cc:216-241 | two kept links cross exactly when their ends are the corners of a rectangle with an empty disc |
| UnitDisc.PowersCancel | model/gpsr-ptable.cc:216-241 | the powers of four points with respect to each other's circles, weighted by orientations, cancel |
| UnitDisc.GabrielIsPlanar | model/gpsr-ptable.cc:202-245 | without four nodes in a rectangle no two kept links cross |
| UnitDisc.LinkBecomesKeptPath | model/gpsr-ptable.cc:202-245 | every pruned link is replaced by a path of kept ones |
| UnitDisc.GabrielPreservesConnectivity | model/gpsr-ptable.cc:202-245 | Gabriel connectivity is unit-disc connectivity |
| Planarization.GabrielToleranceIsExactIff | model/gpsr-ptable.cc:213-241 | for edges of any length the test with square roots and tolerance is the exact circle test unless, and only unless, the witness is inside by no more than 2e-6 times the radius less 1e-12 |
| Planarization.GabrielToleranceIsExact | model/gpsr-ptable.cc:213-241 | so with edges up to 10^6 it always is |
| Planarization.GabrielToleranceHidesWitness | model/gpsr-ptable.cc:213-241 | an instance beyond: on an edge of length 4000002 the tolerance keeps a link that the exact test prunes |
| Planarization.RngToleranceIsExactIff | model/gpsr-ptable.cc:261-281 | for any distances the other test with its tolerance is exact unless, and only unless, the squared distance falls short of the longer one by no more than 2e-6 times that distance less 1e-12 |
| Planarization.RngToleranceIsExact | model/gpsr-ptable.cc:261-281 | so with distances up to 5 * 10^5 it always is |
| Planarization.RngToleranceHidesWitness | model/gpsr-ptable.cc:261-281 | an instance just beyond: at distance 500001 the tolerance keeps a link that the exact test prunes |
| Planarization.RngWithinTextbookWithinGabriel | model/gpsr-ptable.cc:255-286 | what the code's relative-neighbourhood test keeps, the textbook test keeps, and what that keeps the Gabriel test keeps |
| Planarization.RngBeyondTextbook | model/gpsr-ptable.cc:277-281 | exactly what the code's test asks for on top of the textbook test |
| Planarization.RngWitnessIsMutual | model/gpsr-ptable.cc:277-281 | a neighbour witnesses against another exactly when the other witnesses against it |
| Planarization.RngPruningIsMutual | model/gpsr-ptable.cc:255-286 | of two neighbours either both are pruned on account of each other or neither; if either is kept they are at least as far from each other as each is from the node |
| Planarization.RngPrunesInPairs | model/gpsr-ptable.cc:255-286 | every pruned neighbour elsewhere has a witness that is elsewhere and pruned too |
| Planarization.RngStrandsIff | model/gpsr-ptable.cc:255-286 | for every list, recovery is left without a next hop exactly when each neighbour elsewhere has another one closer to it than the farther of the two is to the node |
| Planarization.RngCanStrand | model/gpsr-ptable.cc:277-281 | an instance: two neighbours one of which is inside the other's circle are both pruned, while the Gabriel test keeps one |
| Neighbors.BestNeighborIsArgmin | model/gpsr-ptable.cc:144-173 | the lowest-address neighbour among the closest, if strictly closer than this node, else no address, in both directions |
| Neighbors.ClosestIsLeastMinimiser | model/gpsr-ptable.cc:157-167 | ties go to the lowest address |
| Neighbors.PlanarNeighborsAreTheKept | model/gpsr-ptable.cc:202-289 | the filter loops keep exactly the neighbours without a witness, in address order |
| Neighbors.FirstTurnIsLeast | model/gpsr-ptable.cc:328-336 | the smallest non-zero turn; none only if all turns are zero |
| Neighbors.FirstTurnIsFirst | model/gpsr-ptable.cc:328-336 | of the neighbours at that turn, the one of the lowest address |
| Neighbors.RightHandRule | model/gpsr-ptable.cc:298-342 | no neighbour lies strictly inside the counter-clockwise sector up to the chosen one, and none of a lower address in its own direction; the fallback to the first is taken only if all lie along the incoming direction |
| Neighbors.GraphTypes | model/gpsr-ptable.cc:313-320 | graph type 0 keeps everyone, 1 those elsewhere with an empty circle, 2 those elsewhere at least as far from every other as both are from the node, any other number nobody |
| Neighbors.CoLocatedIsEast | model/gpsr-ptable.cc:344-358 | a co-located point is seen in exactly the direction of the points due east |
| Directions.TurnLessTransitive | model/gpsr-ptable.cc:344-358 | the order of angles is transitive |
| Directions.TurnLessTotal | model/gpsr-ptable.cc:344-358 | two directions are comparable unless they are the same |
| Directions.TurnLessIsCcw | model/gpsr-ptable.cc:344-358 | a smaller angle from r is being met first when turning from r, whatever r |
| Directions.SameHeadingSameSigns | model/gpsr-ptable.cc:344-358 | points in the same direction are at the same angle from everything |
| PositionTable.NeighborTable.AddEntry | model/gpsr-ptable.cc:34-48 | the sender's entry, new or old, now holds its position and the time, and no other entry changes |
| PositionTable.HelloLivesExactly | model/gpsr-ptable.cc:98-127 | an entry is live strictly less long than its lifetime, from its last HELLO; the zero address counts from time 0 |
| PositionTable.NeighborTable.IsNeighbor | model/gpsr-ptable.cc:82-93 | true exactly for the table's keys, expired or not |
| PositionTable.NeighborTable.Purge | model/gpsr-ptable.cc:98-127 | exactly the entries whose lifetime has run out go |
| PositionTable.NeighborTable.BestNeighbor | model/gpsr-ptable.cc:144-173 | the in-place purge and minimisation loop compute the greedy choice of BestNeighborIsArgmin on the live entries |
| PositionTable.NeighborTable.GetNeighbors | model/gpsr-ptable.cc:175-200 | the live entries in address order; the expired are erased |
| PositionTable.NeighborTable.GetGabrielNeighbors | model/gpsr-ptable.cc:202-245 | the nested loops compute the Gabriel list of the live entries |
| PositionTable.NeighborTable.GetRngNeighbors | model/gpsr-ptable.cc:249-289 | the nested loops compute the code's relative-neighbourhood list |
| PositionTable.NeighborTable.BestAngle | model/gpsr-ptable.cc:298-342 | the angle loop and its fallback compute the right-hand choice, ties included, that BestAngleRule describes on the planarised live entries |
| PositionTable.FindClosest | model/gpsr-ptable.cc:157-167 | the running minimum ends at the lowest-address closest neighbour |
| PositionTable.EdgeIsValid | model/gpsr-ptable.cc:216-236 | the early-exit loop finds a witness exactly when there is one |
| PositionTable.ScanTurns | model/gpsr-ptable.cc:328-336 | the running best angle ends at the smallest non-zero turn, of the lowest address among equal ones |
| PositionTable.ErasingLeavesLive | model/gpsr-ptable.cc:106-126 | collecting expired keys and erasing them one by one leaves the live entries |
| Packets.PositionRoundTrip | model/gpsr-packet.cc:224-253 | decoding the 53 bytes of any position header gives it back |
| Packets.PositionBytesRoundTrip | model/gpsr-packet.cc:224-253 | encoding what any 53 bytes decode to gives them back |
| Packets.HelloRoundTrip | model/gpsr-packet.cc:141-163 | both directions for the 16 bytes of a HELLO |
| Packets.PositionLayout | model/gpsr-packet.cc:224-235 | which bytes of the position header hold which field |
| Packets.FrameLayout | model/gpsr-packet.cc:42-46 | a data packet is type byte 2, position header, payload; HELLO is type 1 with its coordinates in order |
| Packets.FirstCountsMost | model/gpsr-packet.cc:227-234 | of a number's bytes the first counts most; with the round trip this fixes every byte |
| Packets.TypeRoundTrip | model/gpsr-packet.cc:42-71 | a valid type byte decodes and encodes back; any other is marked invalid and keeps the previous type |
| Packets.FrameRoundTrip | model/gpsr.cc:914-936 | taking the headers off what was framed gives header and payload back |
| Packets.ParseRoundTrip | model/gpsr.cc:914-944 | putting the same headers back gives the same bytes |
| Packets.SerializePosition | model/gpsr-packet.cc:224-235 | overwrites exactly 53 bytes at the iterator with the header's encoding |
| Packets.DeserializePosition | model/gpsr-packet.cc:237-253 | reads exactly 53 bytes and returns what they encode |
| Packets.SerializeHello | model/gpsr-packet.cc:141-148 | overwrites exactly 16 bytes with the encoding |
| Packets.DeserializeHello | model/gpsr-packet.cc:150-163 | reads exactly 16 bytes and returns what they encode |
| Packets.SerializeType | model/gpsr-packet.cc:42-46 | overwrites one byte with the type code |
| Packets.DeserializeType | model/gpsr-packet.cc:48-71 | reads one byte; an unknown code clears the valid flag only |
| RequestQueue.PacketQueue.Enqueue | model/gpsr-rqueue.cc:22-46 | rejects a live duplicate, stamps the expiry, evicts the front when full, reporting every expired and evicted entry in order |
| RequestQueue.PacketQueue.Dequeue | model/gpsr-rqueue.cc:66-81 | takes out the first live entry for the destination, if any, and nothing else |
| RequestQueue.PacketQueue.DropPacketWithDst | model/gpsr-rqueue.cc:48-64 | reports and removes exactly the entries for the destination, the two passes agreeing |
| RequestQueue.PacketQueue.Purge | model/gpsr-rqueue.cc:107-122 | reports and removes exactly the expired entries |
| RequestQueue.PacketQueue.GetSize | model/gpsr-rqueue.cc:15-20 | counts after purging |
| RequestQueue.PacketQueue.Find | model/gpsr-rqueue.cc:83-96 | true exactly when an entry for the destination is queued |
| RequestQueue.EnqueueExactly | model/gpsr-rqueue.cc:22-46 | refused if and only if an entry still in time has the same packet identity and destination; else behind those in time, expiring a timeout from now, the first of a full queue giving way; the reports in either case |
| RequestQueue.FreshAndStale | model/gpsr-rqueue.cc:98-122 | an entry is purged if and only if its time is before now |
| RequestQueue.EnqueueConserves | model/gpsr-rqueue.cc:22-46 | queued plus reported after is queued before plus the accepted entry, as multisets |
| RequestQueue.DequeueConserves | model/gpsr-rqueue.cc:66-81 | queued plus reported plus handed out after is queued before |
| RequestQueue.DropConserves | model/gpsr-rqueue.cc:48-64 | queued plus reported after is queued before |
| RequestQueue.EnqueueKeepsOrdered | model/gpsr-rqueue.cc:22-46 | the queue stays sorted by expiry, free of duplicates and within its bound |
| RequestQueue.DequeueKeepsOrdered | model/gpsr-rqueue.cc:48-81 | so it does when entries are taken out or dropped |
| RequestQueue.ClockKeepsOrdered | model/gpsr-rqueue.h:85-93 | and when time passes |
| RequestQueue.ExpiredArePrefix | model/gpsr-rqueue.cc:98-122 | the expired entries are a prefix, so purging cuts the front off |
| RequestQueue.EvictionIsOldest | model/gpsr-rqueue.cc:38-42 | the evicted entry expires no later than any that stays |
| RequestQueue.AcceptedLivesExactly | model/gpsr-rqueue.h:85-93 | an accepted entry is in time up to and including its timeout, and expired after |
| RequestQueue.DrainTakesAllInOrder | model/gpsr.cc:374-423 | dequeuing until nothing is found yields the live entries for the destination in acceptance order and leaves the others in theirs |
| NodeModel.FirstHeaderIsExactIff | model/gpsr.cc:877-890 | whatever the conversion to 16 bits makes of values that do not fit, a new packet's header names the known destination position exactly when both coordinates are below 65536 |
| NodeRuns.StepKeepsInv | model/gpsr.cc:228-279 | every action keeps: queued destinations are listed, the timer is armed exactly when an address is listed and for at most half a second ahead, the queue is ordered, queued packets are readable |
| NodeRuns.CheckKeepsInv | model/gpsr.cc:253-279 | CheckQueue strikes off only addresses with no packet left and re-arms exactly when needed |
| NodeRuns.DeferKeepsInv | model/gpsr.cc:228-251 | deferral lists the destination and has the timer armed, although only adjacent duplicates are removed |
| NodeRuns.InvAlways | model/gpsr.cc:228-279 | the invariant holds in every reachable state at every later time |
| NodeRuns.NoPacketIsStranded | model/gpsr.cc:228-279 | while a packet is queued the timer is armed, for at most half a second after the last event, and its destination will be looked at |
| NodeRuns.PumpOnlyRemoves | model/gpsr.cc:374-423 | a sending loop that reports success leaves nothing for its destination and disturbs nothing else |
| NodeRuns.EveryPacketIsAccountedFor | model/gpsr.cc:166-426 | over every run each packet is, exactly as often as it arrived and with its payload, queued, forwarded, delivered, reported, a refused duplicate, stranded in recovery, discarded or refused |
| NodeRuns.DequeuedFate | model/gpsr.cc:281-426 | a dequeued packet is discarded exactly if its type is unknown, lost without a callback exactly if it is not, its destination is not in the table, no live neighbour is closer to the service's position and the planarised list is empty, and handed to the unicast callback exactly otherwise |
| NodeRuns.RecoveryKeepsTicket | model/gpsr.cc:321-358 | whichever of these happens in recovery, it is the same packet with the same payload |
| Resumption.LostOnGabrielIff | model/gpsr.cc:321-358 | with the Gabriel graph, packets for a destination are lost exactly when it is not in the table and every live neighbour is co-located |
| NodeDrain.PumpStopsAtUnknown | model/gpsr.cc:374-423 | the sending loop deals with the live packets for its destination in acceptance order up to and including the first of unknown type, leaves the later ones and all others in order, and succeeds exactly if there is none of unknown type |
| NodeDrain.PumpDealsWithAllInOrder | model/gpsr.cc:374-423 | with known types only, it deals with every live packet for its destination once, in acceptance order |
| NodeDrain.CheckLeavesToward | model/gpsr.cc:253-426 | for every destination, what a CheckQueue leaves waiting, and whether it stays listed: each packet of unknown type ends one attempt, and there are as many attempts as listings |
| NodeDrain.CheckLeavesExactlyTheSearching | model/gpsr.cc:253-279 | after a CheckQueue exactly the packets and addresses whose destination is being searched for remain, and the timer is armed exactly if there are such addresses |
| NodeDrain.CheckDrainsFully | model/gpsr.cc:253-426 | if no listed destination is in search and all packet types are known, one CheckQueue leaves queue and list empty and the timer off |
| Dispatch.DealingDealsWith | model/gpsr.cc:308-423 | a packet taken from the queue goes straight to its destination if that is in the table, else to the live neighbour closest to the service's position if closer than the node, else into recovery; with which header, and when it is lost or thrown away |
| Dispatch.AttemptLog | model/gpsr.cc:281-426 | sending to one destination logs the expired reports and then, for each packet taken, in acceptance order, the one event that deals with it; when it succeeds; what it does to the table |
| Dispatch.AttemptWithoutPosition | model/gpsr.cc:287-297 | nothing changes while the destination is in search; without a position the waiting packets are reported in order and the destination is done with |
| Dispatch.TakenIsPrefix | model/gpsr.cc:374-389 | what is taken is what waits, in order, up to and including the first packet of unknown type |
| Dispatch.CheckLog | model/gpsr.cc:253-426 | after a CheckQueue the log holds, for every listed destination with a position and not in search, the events that deal with its waiting packets, one for one, in order and next to one another |
| Dispatch.EventOfTaken | model/gpsr.cc:253-426 | every packet that a CheckQueue takes has its event in the new part of the log |
| NodeEffects.HelloEffect | model/gpsr.cc:534-564 | a HELLO makes its sender known at exactly the advertised coordinates until the lifetime ends, and changes nothing else |
| NodeEffects.HelloIsBeacon | model/gpsr.cc:738-775 | the node's HELLO step is the one that the runs of beacons are made of |
| NodeEffects.DeferralEffect | model/gpsr.cc:228-251 | the queue and the log after a deferral, duplicate, full queue and expired entries included |
| NodeEffects.DeferralSetsTimer | model/gpsr.cc:235-239 | deferral sets the timer to half a second from now if nothing in time was queued, and does not touch it otherwise |
| NodeEffects.DeferralLists | model/gpsr.cc:244-245 | deferral puts the destination first on the list of addresses, adds no other, and leaves no adjacent duplicates |
| NodeEffects.ReceptionEffect | model/gpsr.cc:166-222 | which packets are refused, deferred without their tag, or delivered without headers |
| NodeEffects.PassingEffect | model/gpsr.cc:222-225 | a packet for elsewhere is handed on once, or deferred, in the header that Forwarding decides |
| NodeEffects.TimerEffect | model/gpsr.cc:253-279 | the timer does nothing before its time, and a check sets it to half a second from now exactly if addresses are left |
| NodeEffects.NewPacketEffect | model/gpsr.cc:857-896 | every field of a new packet's header, broadcast included, and exactly which entries the table keeps |
| NodeEffects.UniqueOfParts | model/gpsr.cc:244-245 | unique() joins two lists with one element less exactly where they meet in a duplicate |
| NodeEffects.UniqueHasNoneDoubled | model/gpsr.cc:244-245 | and leaves no adjacent duplicate |
| NodeEffects.RemoveOfParts | model/gpsr.cc:269-273 | remove() keeps the order of what it leaves |
| NodeEffects.RemoveOfOne | model/gpsr.cc:269-273 | of one address remove() leaves nothing exactly if that address is to go |
| RoutingProtocol.Protocol.constructor | model/gpsr.cc:87-93 | a new protocol object is in the initial state |
| RoutingProtocol.Protocol.DeferredRouteOutput | model/gpsr.cc:228-251 | the in-place deferral is the transition the invariants are proved of; a duplicate is refused silently |
| RoutingProtocol.Protocol.RecoveryMode | model/gpsr.cc:428-487 | returns true exactly when it did not call the unicast callback, with the packet reheadered either way |
| RoutingProtocol.Protocol.Forwarding | model/gpsr.cc:898-1012 | purge, leave recovery, recover, forward greedily or enter recovery: the transition of the model, the packet handled unless its type is unknown |
| RoutingProtocol.Protocol.ForwardAfresh | model/gpsr.cc:955-1011 | the part outside recovery decides as the function whose hops the network runs are made of |
| RoutingProtocol.Protocol.RouteInput | model/gpsr.cc:166-225 | deferred if tagged by this node, delivered without headers if local, else forwarded; refused without addresses or with an unknown type |
| RoutingProtocol.Protocol.SendPacketFromQueue | model/gpsr.cc:281-426 | waits, drops or sends everything for a destination as the model says, and says whether it is done with |
| RoutingProtocol.Protocol.SendGreedily | model/gpsr.cc:366-426 | the loop with a next hop is the model's sending recursion |
| RoutingProtocol.Protocol.SendInRecovery | model/gpsr.cc:321-360 | the loop into recovery is the same recursion with the packets that find no neighbour lost |
| RoutingProtocol.Protocol.CheckQueue | model/gpsr.cc:253-279 | both loops and the timer, set half a second ahead if addresses are left, are together the model's check |
| RoutingProtocol.Protocol.RecvGpsr | model/gpsr.cc:534-564 | a HELLO changes the table and nothing else |
| RoutingProtocol.Protocol.AddHeaders | model/gpsr.cc:857-896 | a new packet is handed down, once, with a position header naming the narrowed destination in front of its payload; consulting the table may purge it |
| Beacons.TickKeepsInTime | model/gpsr.cc:724-737 | every entry of a heard neighbour will be refreshed before it expires |
| Beacons.InTimeIsExact | model/gpsr.cc:738-775 | after the first half interval the live entries are exactly the nodes in range |
| Beacons.SilenceLosesNeighbor | model/gpsr.cc:76-80 | with a lifetime of at most one and a half intervals some allowed run loses a neighbour that is in range |
| Beacons.TablesAreExactIff | model/gpsr.cc:724-775 | all tables are exact in all runs exactly when three intervals are less than two lifetimes |
| Journeys.NodeMakesSceneHop | model/gpsr.cc:166-225 | a node with an exact table hands the packet to the neighbour and in the frame that the network run prescribes, once, and does nothing else |
| Journeys.DestinationStripsHeaders | model/gpsr.cc:197-221 | the destination's application gets exactly the payload |
| Journeys.WireKeepsPayload | model/gpsr.cc:914-1006 | over any number of hops the bytes are one type byte and one position header in front of the unchanged payload |
| Journeys.NewPacketAgreesIff | model/gpsr.cc:877-890 | a new packet starts in agreement exactly when the destination's coordinates fit 16 bits, and no node with the same knowledge corrects it later |
| Resumption.SendingIsForwarding | model/gpsr.cc:281-426 | where queue and Forwarding aim at the same position, the service's being the newer or the header naming it too, and the destination's entry is not stale, dealing with a queued packet is what Forwarding would do with it outside recovery: same next hop, same header up to the recovery position, stranded where it would be deferred |
| Resumption.SameNextHopIff | model/gpsr.cc:308-320 | where both aim at the same position, the next hop is the one Forwarding would choose exactly when the table holds no expired entry of the destination |
| Resumption.StaleEntryMisleads | model/gpsr.cc:308-320 | a table with such an entry: Forwarding would go to a live neighbour on the way, the queued packet goes to the silent destination |
| Resumption.RecIsIgnored | model/gpsr.cc:939-953 | the recovery position of a packet outside recovery has no influence |
| Resumption.DeferredArrives | model/gpsr.cc:281-426 | on the Gabriel graph a packet taken from the queue for a reachable destination is handed on and arrives within n laps |
| Resumption.DeferredArrivesFromCheck | model/gpsr.cc:253-426 | on the Gabriel graph every packet that a CheckQueue takes for a reachable destination has an event in its log that hands it, payload unchanged, to a neighbour from where it arrives within n laps |
| Journeys.DeliveredIntactOrTrapped | model/gpsr.cc:166-225 | within n laps the payload is delivered unchanged or the packet circulates |
| Journeys.ReachableIsDeliveredIntact | model/gpsr.cc:166-225 | on the Gabriel graph, if the destination is reachable the payload is delivered unchanged within n laps |

## Left out

- Fractional coordinates: HELLO and position headers carry truncated 64-bit coordinates, and a node's own position is taken at integer coordinates here, where truncation agrees with it.
- Floating point: square roots and `atan2` are replaced by exact comparisons; the tolerance of 1e-6 is treated over the reals, rounding of doubles is not.
- Delivery.DeliveredIffReachable: ignores the IP time-to-live, which would cut long walks short, and is about networks in which nodes keep still at distinct positions.
- FaceWalk.WalkIsPermutation: for the Gabriel graph; for the other graph types `FaceWalk.RightHandIsInjectiveIff` says exactly when it holds at a node, and connectivity, symmetry or delivery are not claimed for them.
- Runs.PotentialNeverRises: for directly forwarded packets; sending from the queue restarts greedily and discards the recovery position, so the potential may rise across a deferral; delivery after one is `Resumption.DeferredArrives`.
- NodeRuns.InvAlways: packets are as the protocol's headers allow; a data packet whose type byte says HELLO, for which the original reads variables that were never set, and one shorter than its headers are excluded by `Readable`.
- RequestQueue.PacketQueue.Enqueue: needs a queue length above 0, since the original erases the front of an empty queue otherwise; the setters of length and timeout are not called during a run.
- PositionTable.NeighborTable.IsNeighbor: plain membership; the original compares the entry behind an iterator that may be past the end. AddEntry likewise.
- Recovery modes above 1: the mode byte of a header is kept as it is; the network runs assume 0 or 1, which is what the protocol writes.
- RoutingProtocol.Protocol.AddHeaders: the route that it passes on to the IP layer unchanged is not represented.
- RouteOutput, LoopbackRoute, interface and address notifications, sockets and the start-up of the protocol: not modelled; the addresses of a node are parameters.
- The location service, mobility, the clock and random jitter: parameters of a step, or any value in the allowed range.
- NodeModel.FirstHeaderIsExactIff: converting a double outside 0..65535 to a 16-bit integer is undefined in C++; the model takes any function that is right where the value fits.
- Resumption.SendingIsForwarding: where the location service's position is older than the header's, the queue aims at it all the same while Forwarding does not; what then differs is not described further.
- Dispatch.CheckLog: a live neighbour at the zero address, which the source cannot tell from there being none, is excluded here and wherever a next hop is described.
- The callbacks are entries of a log and do not call back into the protocol.
- The IP routes handed to the callbacks: only gateway, header and packet are kept.
- `std::list::unique` and `remove`, removal of packet headers and byte-order helpers of the library: modelled by what they are documented to do.
- `PositionTable::GetPosition`, `DeleteEntry`, `Clear`, `IsInSearch`, `HasPosition`, `ProcessTxError` and the `PerimeterMode` attribute: unused by the modelled paths or constant.
- Printing, attributes, helper classes and example scenarios.
