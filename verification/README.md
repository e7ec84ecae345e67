# Verified models of Tellegen

This project models the parts of Tellegen whose correctness is hardest to see
from the code, and proves what they promise: the graph building and demand
allocation of the synthetic grid generator (`crates/tellegen-synth`), its
calibration search and staged session, the server's rate limiter and solver
permits (`crates/tellegen-server`), and the benchmark feeder generator and
counting allocator (`crates/benchmarks`).

Check everything with `dafny verify dfyconfig.toml`.

## How it is modelled

* Floating point numbers are reals. A distance or label that the program keeps
  as infinity is `None`.
* A random draw is any value in its range: an oracle function, or a value chosen
  with `:|`. A shuffle is any permutation. Every result therefore holds for all
  seeds. Solver answers, clocks and network failures are parameters.
* `hypot` is a function with the one property that defines it (its square is the
  sum of the squares); symmetry, convexity and the bound by a coordinate
  difference are derived in `Geometry`.
* Vectors, maps and edge sets that a function updates step by step are `seq`,
  `map` and `set` variables of methods with loops; objects with methods
  (`UnionFind`, `Calibrator`, `Generator`, the limiter, the feeder `Builder`) are
  classes; slices updated in place are arrays. A method is proved against a
  specification function or predicate, and the theorems are about that.
* Concurrent code is a step system: a state, the steps that are enabled, and
  theorems over every interleaving.
* A panic or failed assertion of the program is an absent result.

| Area | Modules |
|---|---|
| Shared definitions | `Options`, `Sums`, `ShortestPaths`, `Geometry`, `Forests`, `Quotas` |
| Level design | `Pockets`, `PocketSplitting`, `TapRewrites`, `Taps`, `TapPlaces`, `PocketTrees`, `Catchment`, `LevelCounts`, `Siting` |
| Connectivity | `UnionFind`, `SpanningForest`, `LightestForests`, `Topology` |
| Regulation and demand | `Roads`, `Regulation`, `PlaceDemand`, `SiteLoads`, `NationalDemand` |
| Session | `Calibration`, `CalibrationMoves`, `CalibrationRuns`, `Session`, `Islands` |
| Server | `RateLimiter`, `SolvePermits` |
| Benchmarks | `PrimaryTrees`, `FeederNetworks`, `Feeder`, `HeapCounter` |

## Where the code and its documentation differ

The model follows the code. Two properties turn out false of it, and each has a
concrete counterexample and the exact condition under which it does hold.

* `Calibrator::iterate` documents that a rejected step is undone and that the
  network leaves the call at the accepted parameters. `choose_step` writes the
  move before the snapshot for undoing is taken, so a rejected move stays:
  `CalibrationRuns.DivergenceExample` is an input. It also writes capacity scales
  that move too little to be reported: `CalibrationRuns.UnreportedWriteExample`.
  `CalibrationRuns.ReportedIffImproved` is the exact condition for one iteration and
  `CalibrationRuns.ReportAgreesIff` for whole searches.
  `CalibrationRuns.EarlySnapshotAgrees` says what a snapshot taken before the move
  would mend over a whole search: network and objective always, the parameters
  unless a scale was written without a reported move.
* A solve abandoned because its handler was dropped (the client of a sensitivity
  request disconnected) is not told to stop. `SolvePermits.DroppedRunsOn` is a run
  that reaches it, `SolvePermits.AbandonedIsCancelled` the exact condition.

Smaller observations: the load multiplier of the calibration is never moved by any
step; with `min_tie_distance` zero the feeder generator may tie a bus to itself
(the tie contract asks for at least `minTieDistance` lines, no more); and
`blend_place_loads` would lose load if no bus could host any, an input that the
siting before it never produces.

## Model

| member | source | states |
|---|---|---|
| `Pockets.PocketsWithDistance` | crates/tellegen-synth/src/hierarchy.rs:838-880 | distances are exact (no walk from a source is shorter and every finite one is attained); a reached member has a shortest walk to its owner's source wholly inside its own pocket; an unreached one joins pocket 0 |
| `Pockets.SweptIsExact` | crates/tellegen-synth/src/hierarchy.rs:860-879 | once the lazy-deletion queue is empty the labels bound every walk and are attained, and exactly the owned members have one |
| `ShortestPaths.PopLeast` | crates/tellegen-synth/src/hierarchy.rs:595-615 | the queue hands out the least entry by distance, node, origin |
| `ShortestPaths.ExactIsUnique` | crates/tellegen-synth/src/hierarchy.rs:838-880 | exact distances are determined by graph and source set, so both shortest-path routines agree |
| `ShortestPaths.MoreSourcesNeverFarther` | crates/tellegen-synth/src/hierarchy.rs:431-453 | adding sources never lengthens a distance or loses a reached node |
| `PocketSplitting.Splitter.constructor` | crates/tellegen-synth/src/hierarchy.rs:1029-1047 | the fed members are the first sources, each once |
| `PocketSplitting.HeavyPockets` | crates/tellegen-synth/src/hierarchy.rs:1058-1082 | exactly the pockets heavier than their feeders, or else with a member beyond reach, in order |
| `PocketSplitting.PickMember` | crates/tellegen-synth/src/hierarchy.rs:1084-1097 | the unfed member of the pocket with the largest load moment (or distance), lowest index on ties; none only if all are fed |
| `PocketSplitting.Splitter.Feed` | crates/tellegen-synth/src/hierarchy.rs:1098-1129 | one bus, one transformer and one line per added source, tapped off the nearest upper bus; buses, points and marks keep one length; sources stay distinct members and are exactly the fed members |
| `PocketSplitting.Splitter.Round` | crates/tellegen-synth/src/hierarchy.rs:1057-1130 | every pocket over its limits that has an unfed member is split once, at its best member, and no other pocket is; stopping means all are within limits or there is no upper level |
| `PocketSplitting.RoundSplitsAt` | crates/tellegen-synth/src/hierarchy.rs:1083-1130 | a pocket too heavy is split at the unfed member with the most load times straight distance, one only too long at the member farthest along the graph, the first of equals; and that member becomes the next source |
| `PocketSplitting.RoundPassesOver` | crates/tellegen-synth/src/hierarchy.rs:1083-1097 | a pocket over its limits with an unfed member is never passed over |
| `PocketSplitting.Splitter.Carve` | crates/tellegen-synth/src/hierarchy.rs:1056-1131 | after every round owners and distances are exact for the present sources, and every owner is one of them |
| `PocketSplitting.Splitter.Run` | crates/tellegen-synth/src/hierarchy.rs:1047-1134 | returns the history of its rounds, at most 24: each splits, at its best member, every pocket over its limits that has an unfed member, and no other; each is made because some pocket is not served; owners and distances are exact after each; the last state is the one left; an early stop means every pocket is served or there is no upper level; no member ends farther from a source than it began |
| `PocketSplitting.Splitter.Protected` | crates/tellegen-synth/src/hierarchy.rs:1135 | the sources taken again after splitting are exactly the grown ones |
| `PocketSplitting.LoadConserved` | crates/tellegen-synth/src/hierarchy.rs:1098-1129 | splitting leaves the total load unchanged |
| `PocketSplitting.AddedSourceIsJoined` | crates/tellegen-synth/src/hierarchy.rs:1120-1129 | every added source is connected, through its new bus, to the nearest bus of the level above; the new bus is of that level, at the source's site, a little north of it, without load |
| `Taps.Steinerize` | crates/tellegen-synth/src/hierarchy.rs:645-721 | two passes of visits, each as `TapBend` says; still a forest, same components, one node and one edge per tap, tap `k` at index `points + k`, and total length never grows |
| `Taps.TapBend` | crates/tellegen-synth/src/hierarchy.rs:660-717 | without a sharp bend nothing changes, with one a draw decides, and then a bend of largest saving is tapped at its junction; the forest is kept, its length does not grow, and the adjacency stays equal to the edges |
| `Taps.Rewire` | crates/tellegen-synth/src/hierarchy.rs:705-714 | the edges become exactly the tapped ones and the adjacency still mirrors them |
| `Taps.JunctionNeverLonger` | crates/tellegen-synth/src/hierarchy.rs:684-703 | at the junction or any share of the way to it, three sections are no longer than the two replaced |
| `Taps.LengthTapped` | crates/tellegen-synth/src/hierarchy.rs:703-715 | a rewrite changes total length by exactly the two sections removed and the three added |
| `Taps.StraightTaps` | crates/tellegen-synth/src/hierarchy.rs:917-967 | one pass of visits, each as `TapStraight` says; still a forest, same components, one node and one edge per tap, and no protected member is tapped |
| `Taps.TapStraight` | crates/tellegen-synth/src/hierarchy.rs:931-964 | an unprotected member with exactly two neighbours is tapped beside its line if the draw says so, any other is left alone; the neighbour lists stay those of the edges |
| `TapPlaces.SharpIsWorthTapping` | crates/tellegen-synth/src/hierarchy.rs:665-691 | a bend is sharp exactly if its angle is below 120 degrees and the three sections save more than the least saving |
| `TapPlaces.VisitReplacesBend` | crates/tellegen-synth/src/hierarchy.rs:660-717 | whatever a visit taps is the bend that saves most, the first of equals; with the second draw below the site share the tap stands at the fence (on the way to the meeting point, the spur length off or at the point if that is nearer), else at the meeting point |
| `TapPlaces.VisitPasses` | crates/tellegen-synth/src/hierarchy.rs:692-697 | a visit leaves a sharp bend alone only if the first draw was against it |
| `TapPlaces.VisitReplacesPass` | crates/tellegen-synth/src/hierarchy.rs:931-964 | whatever a straight visit taps has exactly two neighbours and is not protected, and its tap stands the spur length off, square to the line between them, on the side drawn |
| `Taps.TapsCompose` | crates/tellegen-synth/src/hierarchy.rs:1148-1167 | bends, then straight taps, on one forest: together again a tapped forest, so tap indices equal the bus indices pushed |
| `Forests.RenamedForest` | crates/tellegen-synth/src/hierarchy.rs:1144-1147 | naming the nodes of a forest by distinct buses keeps it a forest |
| `PocketTrees.PocketJoined` | crates/tellegen-synth/src/hierarchy.rs:1137-1147 | members of one pocket reached from its source are joined by candidate corridors inside it |
| `PocketTrees.PocketTree` | crates/tellegen-synth/src/hierarchy.rs:1136-1147 | on bus indices, a forest that connects two members exactly if candidate corridors inside pockets do, and no spanning forest of those weighs less at the noisy lengths |
| `PocketTrees.LayLevel` | crates/tellegen-synth/src/hierarchy.rs:1131-1167 | pockets, trees and taps of a level that is not meshed, together: exact distances, a lightest tree per pocket, two passes for bends and one for straight taps; in the end reached members are connected if and only if they are in one pocket |
| `TapRewrites.TapKeepsForest` | crates/tellegen-synth/src/hierarchy.rs:703-715 | the rewrite keeps the graph acyclic |
| `TapRewrites.TapKeepsComponents` | crates/tellegen-synth/src/hierarchy.rs:703-715 | two old nodes are connected after the rewrite if and only if they were before; the junction joins the member's component |
| `TapRewrites.TapAddsOneEdge` | crates/tellegen-synth/src/hierarchy.rs:703-715 | exactly one more edge |
| `Geometry.DistConvex` | crates/tellegen-synth/src/hierarchy.rs:637-639 | the distance to a fixed point is convex along a segment |
| `Catchment.CatchmentLoads` | crates/tellegen-synth/src/hierarchy.rs:750-822 | every eligible bus goes to the member a full scan would choose (nearest, lowest index), each member hosts exactly those loads, and the hosted total is the eligible load |
| `Catchment.RingSearch` | crates/tellegen-synth/src/hierarchy.rs:794-816 | the ring-by-ring search returns the nearest member, lowest index on ties, also for points outside the grid |
| `Catchment.RingBoundsDistance` | crates/tellegen-synth/src/hierarchy.rs:797-815 | a member more than `ring` cells off is farther than `ring` cell widths, so the search may stop |
| `Catchment.NearestIsUnique` | crates/tellegen-synth/src/hierarchy.rs:803-808 | nearest with this tie break is one member, however it is found |
| `UnionFind.Sets.Find` | crates/tellegen-synth/src/geom/delaunay.rs:138-145 | path halving returns the canonical root and changes no class |
| `UnionFind.Sets.Union` | crates/tellegen-synth/src/geom/delaunay.rs:147-154 | merges exactly the two classes under the second root and reports whether they differed |
| `UnionFind.Sets.Components` | crates/tellegen-synth/src/geom/delaunay.rs:156-158 | counts the classes |
| `UnionFind.MergeTracks` | crates/tellegen-synth/src/geom/delaunay.rs:147-154 | classes that equal the connected components still do after a union and the edge it stands for |
| `SpanningForest.MinimumSpanningForest` | crates/tellegen-synth/src/geom/delaunay.rs:161-184 | acyclic, connects exactly what the candidates connect, and every candidate is bridged by picks no heavier than itself, also when the scan stops early |
| `LightestForests.LightestForest` | crates/tellegen-synth/src/geom/delaunay.rs:161-184 | no spanning forest of the candidates weighs less than the picks |
| `LightestForests.Exchange` | crates/tellegen-synth/src/geom/delaunay.rs:161-184 | replacing a forest edge by one across the gap it leaves gives a forest with the same components |
| `Forests.AddEdge` | crates/tellegen-synth/src/geom/delaunay.rs:10-22 | what one more undirected edge connects, exactly |
| `Forests.AddBridge` | crates/tellegen-synth/src/geom/delaunay.rs:161-184 | an edge between two components keeps a forest a forest |
| `Topology.IslandTopology` | crates/tellegen-synth/src/topology.rs:134-287 | a lightest spanning forest of the triangulation, then edges of the second tree, mesh and loops, each taken in order exactly while edges are wanted and the degree cap allows; then one component by one edge per extra component; a triangulation that connects the island leaves nothing to repair |
| `Topology.Repair` | crates/tellegen-synth/src/topology.rs:258-282 | bus by bus, one not connected to bus 0 is tied to the nearest that is (the first of equals); ends in one component, with exactly one new edge per extra component |
| `Topology.RepairJoinsAll` | crates/tellegen-synth/src/topology.rs:264-281 | over the whole loop, whichever root every union keeps and although `root0` is read once, the island ends in one component |
| `Topology.RootGoesStale` | crates/tellegen-synth/src/topology.rs:266-281 | what the quantifier over kept roots covers: with a union that keeps the first root, unlike the program's own, the root read once stops being a root and the second round falls back on bus 0 |
| `Topology.Add` | crates/tellegen-synth/src/topology.rs:160-167 | adds neither loops nor duplicates and keeps every degree equal to the number of its edges |
| `Topology.AddMesh` | crates/tellegen-synth/src/topology.rs:206-225 | only mesh candidates, none past the target, no degree raised past the cap; below the target every candidate left out was refused |
| `Topology.AddLoops` | crates/tellegen-synth/src/topology.rs:227-256 | at most `cap` loops, under target and degree cap; with room left, every bus got one or had its three candidates refused |
| `Topology.JoinIslands` | crates/tellegen-synth/src/hierarchy.rs:1252-1297 | every island ends in one component, by edges inside islands, each of which joins two components over the nearest pair of a bus not connected to the head and one that is, the first of equals |
| `Topology.JoinIsland` | crates/tellegen-synth/src/hierarchy.rs:1264-1297 | line by line over the nearest such pair; the loop ends because every round merges two sets, with the island in one |
| `Topology.NearestStray` | crates/tellegen-synth/src/hierarchy.rs:1273-1292 | the closest pair of a stray and a main member, the first of equals in scan order |
| `Roads.DistanceToSources` | crates/tellegen-synth/src/electrical/reactive.rs:145-197 | exact corridor distances, and the recorded source is the start of a shortest walk |
| `Regulation.Secondaries` | crates/tellegen-synth/src/hierarchy.rs:411-427 | exactly the lower buses of site transformers below the bulk levels, each once |
| `Regulation.Farthest` | crates/tellegen-synth/src/hierarchy.rs:436-448 | the out-of-reach bus with the largest relative distance, lowest index on ties; none only if every promised bus is within reach |
| `Regulation.ExtendReach` | crates/tellegen-synth/src/hierarchy.rs:431-453 | the loop ends; every bus added was the farthest out of reach of those before it; every loaded, reached bus below 200 kV is then within its reach |
| `Regulation.RegulateSecondaries` | crates/tellegen-synth/src/hierarchy.rs:405-480 | the regulated buses are exactly the secondaries, followed on a mapped network by those `ExtendReach` adds; one condenser per regulated bus that serves load, of half the load nearest it or 5 MVAr if that is more; on a mapped network every loaded bus below 200 kV that a secondary feeds has a condenser within its reach along corridors |
| `LevelCounts.LevelShares` | crates/tellegen-synth/src/tuning.rs:159-183 | shares are in the proportions of the tuned profile of the depth, highest level first (deeper ladders extend it by half again per level, what is negative counts as nothing), or equal if it is too short or has nothing positive; not negative and summing to one |
| `LevelCounts.Apportion` | crates/tellegen-synth/src/hierarchy.rs:85-108 | counts sum to `n`, each is its share of `n` rounded down or up, and of two shares the one with the larger remainder (deeper level on ties) is rounded up first |
| `LevelCounts.LevelCounts` | crates/tellegen-synth/src/hierarchy.rs:85-119 | the largest-remainder counts, then level by level an empty one given a bus by the fullest (the last of equals) while that has two; they sum to `n`, and no level is empty when `n` is at least the depth |
| `Siting.PlanSteps` | crates/tellegen-synth/src/hierarchy.rs:164-183 | every level steps down its share of its buses (the last of the list beyond it), rounded half up, as far as it has buses and the levels below have room; no level receives more than it wants, and what it receives is what the two above it send |
| `Siting.AssignLevels` | crates/tellegen-synth/src/hierarchy.rs:214-255 | every level gets exactly its number of standalone sites; the top ones in turn by two passes over what is left, the first taking sites in order that keep the spacing, the second any; the pool never runs short |
| `Siting.StepLevel` | crates/tellegen-synth/src/hierarchy.rs:270-298 | exactly `step_down` slots one level below and `step_skip` two below are added, at the sites of as many different slots of the level, and no site gets two buses of one level |
| `Siting.SiteHierarchical` | crates/tellegen-synth/src/hierarchy.rs:153-298 | every level ends with exactly the buses it wants, and no site with two buses of one level; the plan returned says how: step-downs by tuned shares, standalone sites for the rest, and each level's turn |
| `Siting.SiteBuses` | crates/tellegen-synth/src/hierarchy.rs:153-298 | from the tuned profile to slots: level `k` gets the largest-remainder count of its share, evened out; exactly `n` buses in all, every level present when there are enough |
| `PlaceDemand.NearPoints` | crates/tellegen-synth/src/places.rs:424-450 | exactly the points of the nine cells around a place that are within the radius, each once |
| `PlaceDemand.Distribute` | crates/tellegen-synth/src/places.rs:462-465 | near points get the demand in proportion to `1 / (1 + d)`, no other point changes, and nothing is lost |
| `PlaceDemand.DemandPartition` | crates/tellegen-synth/src/places.rs:418-468 | the points together get what the places have; each place lands on its near points by weight, or on the closest point when none is near |
| `SiteLoads.BlendPlaceLoads` | crates/tellegen-synth/src/hierarchy.rs:363-384 | every bus keeps one part and takes the other from the places nearest it; a total equal to the peak stays so if and only if nothing is blended, some bus hosts load, or the peak is zero |
| `SiteLoads.SettleSiteLoads` | crates/tellegen-synth/src/hierarchy.rs:569-593 | each site's load, reactive load and weight end, whole, on its lowest-level bus and nowhere else; totals are unchanged |
| `NationalDemand.SizeDemand` | crates/tellegen-synth/src/context.rs:596-758 | the three bases; the peak is the sum of the weights; under the national basis every place draws its people times the peak per person of its group, every group's peak is as in the next row, and the sum is that of the peaks reported |
| `NationalDemand.PeakIs` | crates/tellegen-synth/src/context.rs:643-731 | a subdivision's peak by the share of its listed people held, at the factor stated, measured or 1.55; a country's by the share of people held for what the listed explain, and by area covered (95 percent is all), never beyond that share, for the rest; the world average without an entry |
| `NationalDemand.WeightsAddUp` | crates/tellegen-synth/src/context.rs:732-758 | summing weights place by place gives the same as summing peaks group by group |
| `NationalDemand.PeakWithinShare` | crates/tellegen-synth/src/context.rs:704-731 | a region never takes more of a country's peak than its share of the listed people |
| `NationalDemand.RegionsWithinNational` | crates/tellegen-synth/src/context.rs:704-731 | any number of regions that share no place together stay within the national peak |
| `NationalDemand.RegionsWithinSubdivision` | crates/tellegen-synth/src/context.rs:643-681 | the same for a subdivision's own peak |
| `NationalDemand.ReportedIsRegional` | crates/tellegen-synth/src/context.rs:643-731 | what sizing reports for a region's group is the term the two bounds add up |
| `Calibration.Calibrator.constructor` | crates/tellegen-synth/src/calibrate.rs:73-157 | the search starts at unit scales with the objective of the first run |
| `Calibration.Calibrator.Iterate` | crates/tellegen-synth/src/calibrate.rs:281-337 | the program's order of effects: move, snapshot, apply, re-solve, judge; what these are is in the next rows |
| `Calibration.Calibrator.Judge` | crates/tellegen-synth/src/calibrate.rs:306-337 | records the step, keeps it or applies the snapshot again, and decides whether to go on |
| `CalibrationMoves.ChooseIsMove` | crates/tellegen-synth/src/calibrate.rs:367-511 | the move: infeasible, every rating up by a tenth, capped; else overloaded, one notch per named row loaded above the target and nothing else; else short of reserve, capacities by the ratio wanted, capped; else loadings low, the class of lowest peak that can be tightened (first of equals) down by a tenth; else none |
| `CalibrationMoves.IterationIs` | crates/tellegen-synth/src/calibrate.rs:281-337 | one iteration in terms of that move: what is recorded, when it is accepted, what is kept, and when the search goes on |
| `CalibrationMoves.AppliedIs` | crates/tellegen-synth/src/calibrate.rs:230-277 | what the parameters put on a network: ratings by class, capacity and reactive limits by fuel with output held below, loads by one factor |
| `CalibrationMoves.NotchRaises` | crates/tellegen-synth/src/calibrate.rs:230-248 | one more notch raises the ratings of that branch, and no other, by 15 percent |
| `CalibrationMoves.ObjectiveLeastIff` | crates/tellegen-synth/src/calibrate.rs:171-228 | the objective is what the structure costs if and only if every target is met, and more otherwise |
| `CalibrationMoves.ObjectiveIs` | crates/tellegen-synth/src/calibrate.rs:171-228 | each term is the square of what its target is missed by, and the objective their weighted sum |
| `CalibrationMoves.FinalStatusIs` | crates/tellegen-synth/src/calibrate.rs:339-363 | converged when the terms the search can move are within tolerance, else infeasible, improved or unchanged |
| `CalibrationRuns.AlwaysOk` | crates/tellegen-synth/src/calibrate.rs:281-363 | over every run scales stay in [0.8, 1.5], records chain on the objective before, and only the last may be rejected |
| `CalibrationRuns.AcceptedDecrease` | crates/tellegen-synth/src/calibrate.rs:304-327 | accepted objectives strictly decrease, each by more than the tolerance |
| `CalibrationRuns.ObjectiveTellsAcceptance` | crates/tellegen-synth/src/calibrate.rs:304-327 | the final objective is the first one exactly when nothing was accepted, else lower by more than the tolerance |
| `CalibrationRuns.UnchangedMeansNone` | crates/tellegen-synth/src/calibrate.rs:351-363 | status unchanged means that no step was accepted |
| `CalibrationRuns.ChooseKeepsBounds` | crates/tellegen-synth/src/calibrate.rs:367-511 | every move keeps every scale in bounds and lowers no capacity |
| `CalibrationRuns.MoveChanges` | crates/tellegen-synth/src/calibrate.rs:367-511 | a reported move really changes the parameters |
| `CalibrationRuns.ReportedIffImproved` | crates/tellegen-synth/src/calibrate.rs:281-327 | the parameters an iteration ends on, and with them the network it started from agreement with, are those of the last accepted point if and only if the move improved the objective or, without a move, capacity was not short with a scale left to raise |
| `CalibrationRuns.IterationLands` | crates/tellegen-synth/src/calibrate.rs:281-327 | the same for either snapshot, and when it holds, or always with the early one, network and objective are those of the last accepted point |
| `CalibrationRuns.StartsAtPoint` | crates/tellegen-synth/src/calibrate.rs:73-157 | on a network whose generators keep their limits a search begins in agreement: the network is at the unit scales and the objective is its own |
| `CalibrationRuns.ReportAgreesIff` | crates/tellegen-synth/src/calibrate.rs:281-363 | after any number of iterations parameters and network are those of the last accepted point if and only if every iteration landed there; then the objective is that of this network and its run too |
| `CalibrationRuns.UnreportedWrite` | crates/tellegen-synth/src/calibrate.rs:438-466 | without a reported move the parameters are written exactly if the network is feasible, not overloaded, short of capacity and some capacity scale can move |
| `CalibrationRuns.UnreportedWriteExample` | crates/tellegen-synth/src/calibrate.rs:438-466 | a concrete network whose capacity scale leaves the starting point without any recorded step |
| `CalibrationRuns.RejectedStepStays` | crates/tellegen-synth/src/calibrate.rs:294-327 | a rejected move leaves parameters and network at the rejected point while the objective reported is the accepted one |
| `CalibrationRuns.DivergenceExample` | crates/tellegen-synth/src/calibrate.rs:294-327 | a concrete run that reports the starting objective with a scale of 1.1 and a branch left at 110 MVA |
| `CalibrationRuns.EarlySnapshotAgrees` | crates/tellegen-synth/src/calibrate.rs:279-327 | over every search with the snapshot before the move: the network is at the last accepted point, the objective is that of this network and its run, and the parameters are those of that point if and only if no iteration wrote a scale without a reported move |
| `CalibrationRuns.UndoRestores` | crates/tellegen-synth/src/calibrate.rs:230-277 | applying the old parameters again undoes a move exactly |
| `Session.Generator.Step` | crates/tellegen-synth/src/session.rs:196-282 | a step brings the end strictly nearer, in stage order, and reports no less progress; it fails exactly if its stage does or its re-solve; only visits of the calibration stage calibrate, and it is left exactly when there is nothing to calibrate or the search is finished |
| `Session.Generator.RunCalibrate` | crates/tellegen-synth/src/session.rs:848-927 | no calibration without a first run; the first visit starts one on the network built, and every visit of an unfinished one makes exactly one iteration, after which network, state and, at the end, the run kept are those the iterations led to |
| `Session.Generate` | crates/tellegen-synth/src/session.rs:1276-1286 | the session ends within 7 + max(1, max_iterations) steps and progress never goes back; done means that the iterations, answered in turn, led from the network built and the first run to a finished search whose run and network are left; not done, that a stage or a re-solve failed |
| `Islands.FindIslands` | crates/tellegen-synth/src/validate.rs:94-115 | the connected components of the in-service branches, each bus in one, larger ones first and equal ones by their first bus |
| `Islands.IslandNetwork` | crates/tellegen-synth/src/validate.rs:128-209 | none without in-service generation; else exactly one reference bus, the declared one if it is the only one and else that of a largest generator, the in-service generators on its buses and the branches between them, in service or not, with their rows |
| `Islands.IdInOnePart` | crates/tellegen-synth/src/validate.rs:94-115 | every bus, and so every generator, lies in exactly one island |
| `Islands.BranchInOnePart` | crates/tellegen-synth/src/validate.rs:94-115 | every in-service branch lies wholly in exactly one island |
| `Islands.IslandsDisjoint` | crates/tellegen-synth/src/validate.rs:128-209 | islands of one network share no generator row |
| `Islands.Aggregate` | crates/tellegen-synth/src/validate.rs:296-304 | aggregated rows are distinct, each is a reported one below the number of original generators, and none of those is lost |
| `Islands.ValidationCopy` | crates/tellegen-synth/src/validate.rs:49-90 | every in-service HVDC link becomes one withdrawal of what it takes at its sending end and one fixed injection of what arrives (never less than nothing) at the other, appended after the original rows, which all stay in place |
| `Islands.RunDcOpf` | crates/tellegen-synth/src/validate.rs:216-312 | over copy, islands and solves together: every island with generation is solved and exactly its reports of original generators are gathered; no row is dispatched twice, and every row is an original generator in service, never a substituted one |
| `Islands.ApplyDispatch` | crates/tellegen-synth/src/validate.rs:564-571 | every row named gets the last value given for it, or the limit that is beyond; nothing else changes |
| `Islands.EveryEntryCounts` | crates/tellegen-synth/src/validate.rs:564-571 | with distinct rows every entry of the dispatch is the one that counts |
| `RateLimiter.PruneRateBucket` | crates/tellegen-server/src/lib.rs:1828-1836 | drops exactly the expired prefix |
| `RateLimiter.Limiter.CheckExpensiveRateLimit` | crates/tellegen-server/src/lib.rs:533-568 | the decision and the whole new bucket map, with eviction of empty buckets |
| `RateLimiter.CallDecided` | crates/tellegen-server/src/lib.rs:533-568 | a call is let in exactly if its own bucket, without leading entries as old as the window, holds fewer than its endpoint's limit; no other bucket changes until there are more than 8192 |
| `RateLimiter.KeysDiffer` | crates/tellegen-server/src/lib.rs:533-568 | different endpoints or clients never share a bucket |
| `RateLimiter.BucketIsSuffix` | crates/tellegen-server/src/lib.rs:543-568 | in every run a bucket is the key's admission log without expired entries |
| `RateLimiter.NeverTooMany` | crates/tellegen-server/src/lib.rs:533-568 | with clock readings lagging by at most `lag`, no client is admitted more than `events` times in an interval shorter than `window - lag` |
| `RateLimiter.UnlimitedNeverRefuses` | crates/tellegen-server/src/lib.rs:533-542 | an endpoint with limit zero never refuses, in any run, and its calls change no bucket |
| `RateLimiter.DecidesAsFullLog` | crates/tellegen-server/src/lib.rs:533-568 | without lag every call is decided exactly as by the full admission log |
| `RateLimiter.LagIsPaidFor` | crates/tellegen-server/src/lib.rs:543-548 | the bound cannot be improved: a run that admits one more within `window - lag` |
| `SolvePermits.StepKeepsSafe` | crates/tellegen-server/src/lib.rs:986-1025 | every step keeps the permit count and the flag discipline |
| `SolvePermits.AlwaysSafe` | crates/tellegen-server/src/lib.rs:986-1025 | in every interleaving the permits free, assigned to a waiting request and held by a live solve are together the configured permits |
| `SolvePermits.AbandonedIsCancelled` | crates/tellegen-server/src/lib.rs:892-911 | an abandoned solve has its cancel flag set if and only if its handler was not simply dropped, which happens to sensitivity requests only |
| `SolvePermits.DroppedRunsOn` | crates/tellegen-server/src/lib.rs:820-861 | a run in which a dropped sensitivity request holds its permit and is not told to stop |
| `SolvePermits.IdleMeansFree` | crates/tellegen-server/src/lib.rs:986-1025 | with no permit assigned and no solve live, all permits are free |
| `SolvePermits.SolvesEndPermitsReturn` | crates/tellegen-server/src/lib.rs:986-1025 | from every safe state, ending the live solves and the waits that were assigned a permit returns every permit |
| `PrimaryTrees.Distance` | crates/benchmarks/src/mc_feeder.rs:491-516 | ends without a missing parent, with lines and metres of the way between the buses |
| `PrimaryTrees.OnlyWay` | crates/benchmarks/src/mc_feeder.rs:491-516 | every walk has at least as many lines, and the way is the only walk with no more |
| `PrimaryTrees.ShortestWay` | crates/benchmarks/src/mc_feeder.rs:491-516 | with no negative length it is also the shortest in metres |
| `PrimaryTrees.WayIsPath` | crates/benchmarks/src/mc_feeder.rs:491-516 | the way is a walk along lines of the tree |
| `PrimaryTrees.WaySymmetric` | crates/benchmarks/src/mc_feeder.rs:491-516 | the distance is symmetric |
| `PrimaryTrees.AcrossFeeders` | crates/benchmarks/src/mc_feeder.rs:505-513 | for different feeders it is the two depths, through the source bus |
| `PrimaryTrees.WalkInFeeder` | crates/benchmarks/src/mc_feeder.rs:583-608 | a walk that avoids the source bus stays in its feeder |
| `Quotas.Shuffle` | crates/benchmarks/src/mc_feeder.rs:79-84 | the same values in some order |
| `Quotas.SplitSizes` | crates/benchmarks/src/mc_feeder.rs:428-437 | near-equal parts that sum to the total, none empty when there are enough |
| `Quotas.QuotasFit` | crates/benchmarks/src/mc_feeder.rs:450-473 | the voltage-model quotas never exceed the loads, so the assertion cannot fail |
| `Quotas.ModelKinds` | crates/benchmarks/src/mc_feeder.rs:450-476 | one kind per load; the four voltage-dependent kinds as often as 10, 10, 5 and 5 percent of the loads rounded, each at least once from ten loads on |
| `Feeder.GrowPrimary` | crates/benchmarks/src/mc_feeder.rs:573-608 | the source bus and exactly the primary buses, whose lines are those of the tree returned, with lengths in range, grouped by feeder with one bus of each at the source; every `groundEvery`th bus is grounded |
| `Feeder.FindTie` | crates/benchmarks/src/mc_feeder.rs:628-642 | a pair found is of one feeder, at least `min_tie_distance` lines apart, and not tied yet |
| `Feeder.AddTies` | crates/benchmarks/src/mc_feeder.rs:624-652 | the ties asked for, over pairwise different pairs, each half to all as long as the way it closes |
| `Feeder.TiesAreLong` | crates/benchmarks/src/mc_feeder.rs:624-652 | in the network built, every walk along its radial primary between the ends of a tie takes at least `min_tie_distance` lines |
| `Feeder.AddClusters` | crates/benchmarks/src/mc_feeder.rs:655-733 | one transformer per primary bus, and one line less than buses in every cluster because none is empty |
| `Feeder.PlaceLoads` | crates/benchmarks/src/mc_feeder.rs:742-864 | exactly the loads and branches asked for, on pairwise different buses, with every two-wire bus loaded; every branch draws power of its range, on the three phases or on one, in turn or that of the tap or drop |
| `Feeder.GenerateSpec` | crates/benchmarks/src/mc_feeder.rs:558-894 | a finished network has exactly the predicted buses, terminals, lines, transformers, loads and branches; lines stay at their voltage level and in their cluster and use conductors both ends have; its primary is the tree whose distances the ties keep; it is refused only by the assertions or by ties that find no place |
| `FeederNetworks.AllSupplied` | crates/benchmarks/src/mc_feeder.rs:558-734 | every bus of a sound network is supplied from the source bus |
| `FeederNetworks.GrowByLine` | crates/benchmarks/src/mc_feeder.rs:519-549 | adding a bus on a line keeps names distinct, conductors present at both ends, lines at their voltage level and in their cluster, and every bus supplied |
| `HeapCounter.StepKeepsSafe` | crates/benchmarks/src/heap.rs:16-60 | every atomic step keeps the counter equal to the block sizes, less what is still to be added and plus what is still to be taken away |
| `HeapCounter.AlwaysSafe` | crates/benchmarks/src/heap.rs:16-60 | so in every interleaving, and the counter equals the bytes outstanding whenever no call is in flight |
| `HeapCounter.CallsFinish` | crates/benchmarks/src/heap.rs:16-60 | from every safe state the steps the calls in flight still have to make are enabled in turn and lead to a quiet moment with the exact counter |
| `HeapCounter.NeverUnderflows` | crates/benchmarks/src/heap.rs:21-23 | what a step subtracts, the counter holds |
| `HeapCounter.MeasureIsExact` | crates/benchmarks/src/heap.rs:72-86 | between quiet moments the reported peak is the maximum live value above the start, attained, and the retained bytes are the change in bytes outstanding |

## Left out

- Rounding of floating point numbers, NaN, and overflow of machine integers.
- The solver engine, PowerIO, the HTTP layer, event streams, the command line, and the wasm and Python bindings: a solve is an arbitrary answer.
- Delaunay triangulation, the Gabriel test, blue-noise fill, projection and haversine: their results are inputs. Siting takes the candidate positions from a function that returns as many as it is asked for.
- Sorting by the standard library in `minimum_spanning_forest` and in the mesh and loop candidates: the sorted order is an input with the contract of a sort. Sorting in `level_counts` and `islands` is modelled.
- `hierarchical_topology` as one function: `PocketTrees.LayLevel` takes a level from its sources through pockets and trees to taps; splitting before it and joining after it are modelled on their own; the extra corridors per pocket, the ties between pockets, `relieve_mapped` and the corridor records are not modelled.
- PocketTrees.LayLevel: takes the candidate corridors and their noisy lengths as given, of which it asks that they include the corridors of the level's graph.
- The Weiszfeld iteration of the Fermat point (any point is accepted, and only one that saves length is used), and names, annotations, coordinates and polygons of buses.
- Parsing and reading of tables, and how a region's covered area per country is sampled: both are inputs of demand sizing.
- Siting.StepLevel: takes any order of the slots of a level, of which the rank jitter is one.
- Session.Generator.Step: does not model what the other stages compute, nor the dispatch written back after a solve; a stage is any success or failure.
- Calibration.Calibrator.Iterate: does not model the before and after values and the reason of a recorded step, the emergency ratings (fixed multiples of the rating), nor the failure on a network without generators.
- Topology.IslandTopology: takes the second tree, the mesh and the loop candidates as lists of edges in the order the program tries them.
- Feeder.GenerateSpec: does not model power factors, line codes, voltage-model parameters or the loads without a nominal voltage; it says nothing of the lengths and phases of taps and secondary lines, of which secondary buses are grounded, nor of when ties can be placed.
- Feeder.FindTie: says nothing when no tie is found, since the draws are arbitrary.
- Islands.RunDcOpf: takes solves that report a generator once; cancellation, solver errors, flows and prices are not modelled.
- SolvePermits.AlwaysSafe: the semaphore assigns a free permit to any waiting request; the order among waiters is not modelled.
- Payload mapping of solutions and sensitivities, reports, previews, exports and benchmark tables: easy or input and output only.
