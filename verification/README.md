# The match engine, verified

This project models the simulation core of the match engine in Dafny and proves what it promises:
the A* router and the motion of units along its routes, the event loop and its handlers, combat,
capture and victory, diplomacy and coalitions, the players' commands, and the fog of war.

Run `dafny verify dfyconfig.toml` to check everything.

## How it is laid out

| files | what they hold |
|---|---|
| `Clock`, `Strings`, `Geometry`, `Economy` | time, Go's string order, the plane, stockpiles and catalogues |
| `Heap`, `Timelines` | `container/heap` with its index fields, and the event queue that runs on it; how much work a queue can still cause |
| `Maps`, `Astar`, `Router`, `Routes`, `Snaps` | the movement graph, the search and its invariant, the router, the legs of a route, snapping a point to the graph |
| `Goals` | in which province a route ends |
| `Units`, `Motions`, `Maneuvers` | the motion equation and schedules; the laws of motion; what the movement code decides and keeps |
| `Shortcuts`, `Detours` | where routes leave the map's edges; why they go around nobody |
| `Diplomacy`, `DiplomacyRuns`, `Treaties`, `Coalitions` | the registry, what holds over every run of requests, when requests are heard and what stays on record, coalitions and the two leader computations |
| `Fights`, `Bouts` | the fight loop on values and on units |
| `Colours`, `Pooling`, `Perils` | whose colours a pooled champion shows; pooling one unit after the other; a whole garrison in every order, and which garrisons may fight for ever |
| `MatchState`, `Agendas` | the invariants of a match; the match as a state machine and what every run keeps |
| `Revenues`, `Chronicles`, `Histories`, `Matches` | income and orders, order of events, what each event makes of a match, and the class `Match` with its handlers and event loop |
| `Setups`, `Openings` | how a match begins, from the definition of a map |
| `Aftermaths` | what battles, captures, the ends of legs and the end of a match come to |
| `Spatial`, `Visibility`, `Sightings` | the grid index, visibility and its cache; who sees what, through whom |
| `Commands`, `Turns`, `Mishaps` | the commands and their dispatch; the loop of a match and what holds over its runs; two matches in which a queued move does harm |
| `Travels`, `Borders`, `Accounts` | what becomes of moves, of diplomatic commands and of orders, told without the rules that decide it |
| `Books`, `Pulses`, `Verdicts` | over whole runs: the books balance, every hour has its pulse, a verdict is final |

Code that changes things step by step is a method or a class here: `IndexedHeap`, `Timeline`, `Registry`,
`SpatialIndex` and `Match` have the fields of the originals and modify them in place. Each is proved
against functions and predicates on values, and the laws are proved about those.

`Match.Core()` says that the present state of a match is *attainable*: some run of the steps in
`Agendas.Step` leads to it. Every handler and every command re-establishes `Core()`, so a theorem about
all attainable agendas is a theorem about every state of every match.

`Match.Snap()` is the whole match at one moment. `Histories.Handles` says what each kind of event makes of
such a moment and `Commands.Dispatched` what each command does; nothing else changes. The event loop returns
the moments it went through, each of which is what handling the earliest event made of the one before, and the
loop of a match returns its turns, each of which is what an input made of the turn before (`Turns.Runs`). What
holds over whole matches is proved about these runs.

The methods are proved against specification functions such as `Captured`, `PositionAt` or `SeesThrough`. That
these functions are the right ones is proved apart from them: `Motions`, `Goals`, `Aftermaths`, `Borders`,
`Sightings`, `Treaties`, `Accounts`, `Books`, `Travels`, `Pulses` and `Verdicts` say what a player finds, in terms of
positions, owners, stockpiles, reports and chains of alliances, from one request or event to the next and over
whole runs.

Game time is an integer number of nanoseconds, coordinates, hit points and stockpiles are reals.
`math.Hypot` and `math.Sqrt` are function values of which only their defining equation is assumed;
the metric laws are proved from it. Go's map iteration order is an arbitrary choice everywhere.
UUIDs are ids not handed out before.

## What came out

* **A fight can fail to end.** `fightUntilOneStands` files champions under their coalition's id but
  deletes the dead by their owner's slot. On the pooled champions, the fight is over after a bounded number
  of rounds, however ties fall, if and only if every champion that is not filed under its own owner's name is
  stronger than all the others (`Fights.FightEndsIffSettles`). On the garrison, before any pooling:
  whatever the order in which units are met and however ties fall, the fight is bounded if and only if the
  garrison is not *perilous* (`Perils.FightsEndIffNotPerilous`). It is perilous if some unit of a slot that
  does not lead its coalition may lend its side's champion its colours, and its side's total is no larger than
  another side's. `Perils.AnAllianceHangs` is a concrete garrison on which every fight is stuck after one
  round; without alliances no garrison is perilous. The methods report `hung` where the original would
  loop for ever, and every one of them proves that this takes a perilous garrison: up to `Turns.Play`, a match
  hangs only after handling, one by one, exactly the events that were due, and then at a moment whose earliest
  event is the arrival of a unit whose leg ends in such a garrison. Without alliances, nothing hangs
  (`Turns.OnlyAlliancesHang`).
* **Who gets a province within a coalition can be left to chance.** The comment on `resolveProvince` gives it to
  the member with the strongest stack, and the one on `collapseChampions` makes the champion the leader's. In
  the code, a unit shows its owner and type in some iteration order if and only if no stronger unit of its
  side *outweighs* the weaker ones, that is, has more hit points than all weaker units of the side together
  (`Colours.LendersAreNotOutweighed`). So one slot gets the province in every order if and only if some unit
  outweighs the weaker ones, and it and all units at least as strong are that slot's
  (`Colours.OneSlotShows`, `Perils.ChampionsColours`). A single unit shows in every order if and only if it
  has more than half of its side's hit points (`Colours.ColoursNeedAMajority`); a slot needs no such unit
  (`Colours.NoMajorityIsNeeded`). `Perils.OrderDecidesWhoShows` is a concrete garrison in which the strongest
  stack shows in one order and not in another.
* **A queued move can teleport a unit.** If a unit's leg has ended but its arrival is still in the queue,
  a queued move makes it set out from the start of that leg. Commands are dispatched before due events are
  drained, so this can happen: `Mishaps.QueueingTeleports` is about a small map and two orders, the second of
  which puts the unit back in every run of the match; `Mishaps.PlayOut` plays it. A queued move can displace a
  unit if and only if the unit has come to the end of a leg between different points and a shortest way to its
  first waypoint is permitted (`Commands.QueueingDisplacesIff`).
* **A queued move can strand a unit.** If the move is refused at that moment, the unit's version has grown
  already, so that its arrival will never be acted on: "a unit with a leg to complete has its arrival in the
  queue" is false of the code (`Mishaps.QueueingStrands`). A queued move can strand a unit if and only if the
  unit has come to the end of a leg and there is no way to its first waypoint, or a shortest one is barred
  (`Commands.QueueingStrandsIff`). `Agendas.ArrivesUnlessStranded` says for every attainable state that a unit
  with a leg has its arrival if and only if no such refusal has stranded it since it last set out;
  `Agendas.NobodyIsStranded` is the law for runs without such a refusal.
* **Nobody goes around.** The router plans without looking at diplomacy, and its answer is then refused if
  territory on it is barred. So a move can be refused though there is a permitted way: `Detours.NoWayAround` is a
  map on which that happens whatever the router answers.
* **Accepting an offer checks no cooldown.** Two changes of a pair's stance are still at least an hour apart,
  whatever the clock does, so long as no offer is accepted at a time before it was made
  (`DiplomacyRuns.ChangesAreSpaced`). That guard, which the code lacks, is exactly what is needed
  (`DiplomacyRuns.SpacingNeedsTimeliness`); a clock that never runs backwards implies it.
* **The first leg of a route can leave the map's edges.** Routes follow edges from province to province, but the
  first leg runs straight from where the unit is to the next stop. For a unit under way on an edge, the first
  leg of every route that the router may answer stays on that edge if and only if on every shortest path from
  the route's start, the first stop lies on it (`Shortcuts.FirstLegsStayOnEdge`). `Shortcuts.CornersAreCut` is
  a map of two edges and a unit whose only route leaves both.
* **The books balance.** Over every run of a match, what a slot has and what its orders have cost are together
  what it began with and what pulses and refunds have brought it (`Books.BooksBalance`); as many pulses come as
  hours pass (`Pulses.EveryHourHasItsPulse`); who has won never changes (`Verdicts.VerdictsAreFinal`).
* Some branches of the original are never taken: an arrival for a unit without a path, a completion
  without an order, a second cleanup, a move of a unit without speed. The methods prove this where they would take them.

Where comments in the original and its code differ, the model follows the code. Besides the above:
`StartingResources` is documented as enough for one unit of infantry with a small buffer, but it pays for six
(`Openings.TheOpeningBuys`); `MacroPulseInterval` is documented as one pulse per slot, but one event pays all slots; `MayMoveThrough` is
documented as true whenever a right of way was granted, but a grant counts only at peace.

## Model

| member | source | states |
|---|---|---|
| ContainerHeap.IndexedHeap.Push | internal/domain/timeline/timeline.go:35-66 | adds exactly one element; order and all index fields are right afterwards |
| ContainerHeap.IndexedHeap.Pop | internal/domain/timeline/timeline.go:49-82 | removes exactly one element, one of least key, and marks it with index -1 |
| ContainerHeap.IndexedHeap.Fix | internal/domain/pathdom/route.go:175-182 | after any change of a stored key, the same elements are in order again and every index is right |
| ContainerHeap.IndexedHeap.RootIsLeastOfAll | internal/domain/timeline/timeline.go:69-74 | the root of a valid heap is a least element of it |
| HeapOrder.SwapUp | internal/domain/timeline/timeline.go:39-43 | a sift-up swap moves the only violation of heap order one level up |
| HeapOrder.SwapDown | internal/domain/timeline/timeline.go:39-43 | a sift-down swap with the smaller child moves the only violations one level down |
| Timelines.Timeline.Push | internal/domain/timeline/timeline.go:66 | the queue gains exactly the new event, which is distinct from all pending ones |
| Timelines.Timeline.Peek | internal/domain/timeline/timeline.go:69-74 | returns an event that no pending one precedes, or nothing exactly when none is pending |
| Timelines.Timeline.Pop | internal/domain/timeline/timeline.go:77-82 | takes off exactly one earliest event |
| Maps.Neighbors | pkg/shared/maps/maps.go:90-106 | the ids that share an edge with a province, once each, in Go's string order |
| Maps.Graph.DistLaws | internal/domain/pathdom/graph.go:56-63 | straight-line distance is a metric, also when a province has no coordinates |
| AstarSearch.Query.ClosedIsFinal | internal/domain/pathdom/route.go:163-174 | no edge out of the node just closed shortens the way to a closed node: its cost is final |
| AstarSearch.Query.GoalIsOptimal | internal/domain/pathdom/route.go:153-161 | when the goal is closed its cost is a lower bound on the length of every walk to it |
| AstarSearch.Query.ExhaustedMeansUnreachable | internal/domain/pathdom/route.go:146-186 | when the open set runs empty, no walk leads to the goal |
| Router.RelaxEdge | internal/domain/pathdom/route.go:163-182 | looking at one neighbour keeps the search invariant and the queue in step with the table |
| Router.CloseLeast | internal/domain/pathdom/route.go:153-161 | the node taken off the queue is never closed already, and closing it keeps the search invariant |
| Router.Reconstruct | internal/domain/pathdom/route.go:188-202 | following parents ends, and gives a simple path from start to goal along map edges whose length is the goal's cost |
| Router.AStar | internal/domain/pathdom/route.go:146-186 | always terminates, pops each node at most once, succeeds exactly when the goal is reachable, and then returns a simple path that no walk is shorter than |
| Routes.RouteFromProvince | internal/domain/pathdom/route.go:54-102 | a route exists exactly when the goal province is reachable; its legs chain end to start from the position to the exact target, their province ids form an unbroken line of map edges, and they follow a shortest path |
| Routes.ResolveStartOnEdge | internal/domain/pathdom/route.go:22-37 | the start province is the nearer end of the unit's own edge if that is a real one, else a nearest province |
| Routes.RouteFromEdge | internal/domain/pathdom/route.go:43-46 | both of the above together |
| Goals.RoutesEndAtTheNearerEnd | internal/domain/pathdom/route.go:87-112 | a route to the point of an edge ends exactly there, in the province of the end of that edge that the point is no further from than from the other; on a tie it is the first end |
| Goals.RoutesEndInTheProvince | internal/domain/pathdom/route.go:54-112 | a route to a province ends in that province, at the exact point given, and there is none exactly if the province cannot be reached |
| Shortcuts.FirstLegsStayOnEdge | internal/domain/pathdom/route.go:22-102 | for a unit under way on an edge, the first leg of every route that the router may answer stays on that edge if and only if on every shortest path from the start it chooses, the first stop lies on it |
| Shortcuts.CornersAreCut | internal/domain/pathdom/route.go:22-102 | on a map of two edges that meet at a corner, every answer to a unit on the first edge that is sent to the end of the second has a first leg that is on neither edge halfway |
| Detours.NoWayAround | internal/domain/cmddom/move.go:50-59 | on a concrete map under a concrete treaty, every route that the router may answer is barred, so that every move is refused, though another unbroken line of edges to the target is permitted |
| Routes.NearestProvinceID | internal/domain/pathdom/snap.go:65-76 | a province whose centre no other is closer to |
| Snaps.ProjectionIsClosest | internal/domain/pathdom/snap.go:78-94 | no point of the segment is closer than the projected one |
| Snaps.SnapTarget | internal/domain/pathdom/snap.go:24-63 | snaps to a nearest province in range, else to the nearest point of any edge in range, else to a nearest province |
| Units.TravelTime | internal/domain/matchdom/movement.go:39-43 | whole seconds, never more than the exact time, but at least a millisecond |
| Units.ScheduleIsSound | internal/domain/matchdom/movement.go:31-54 | scheduled legs chain in space and arrive at least a millisecond after one another, and the last ends at the target |
| Units.LayOut | internal/domain/matchdom/movement.go:36-53 | the loop computes that schedule |
| Units.LegSwitchIsContinuous | internal/domain/matchdom/movement.go:57-71 | at the switch time the position is the same on both legs |
| Motions.MotionIsUniform | internal/domain/matchdom/state.go:42-58 | in flight, the part of the way behind a unit is to the whole way as the time passed is to the whole time; before, it is where the leg starts, and afterwards where it ends |
| Motions.MotionWithoutLegs | internal/domain/matchdom/state.go:59-75 | the same for a unit that has only a record of where it comes from and goes to |
| Motions.SpeedIsConstant | internal/domain/matchdom/state.go:42-58 | the distance covered between any two moments of a leg is in proportion to the time between them, so that a unit neither jumps nor changes its speed |
| Motions.MovingIsNotThereYet | internal/domain/matchdom/state.go:77-83 | a unit on a leg between different points counts as moving exactly as long as it has not come to its end |
| Motions.GoingIsNotThereYet | internal/domain/matchdom/state.go:77-83 | the same without legs |
| Motions.RestingIsStaying | internal/domain/matchdom/state.go:42-83 | a unit that does not count as moving never changes its place again by itself |
| Motions.LegsAreOnTime | internal/domain/matchdom/movement.go:36-53 | every leg of the route is a leg of the schedule, and takes less than a second less than the exact time, and never more but to make up a millisecond |
| Maneuvers.DeparturesAreContinuous | internal/domain/matchdom/movement.go:31-71 | a unit given a route is, at that moment, where the route starts, and its last leg ends at the target |
| Diplomacy.Registry.DeclareWar | internal/domain/diplomacydom/transitions.go:9-23 | does exactly what the specification of the transition says, or refuses for exactly its reasons |
| Diplomacy.Registry.Propose | internal/domain/diplomacydom/transitions.go:82-96 | likewise |
| Diplomacy.Registry.Accept | internal/domain/diplomacydom/transitions.go:99-106 | likewise |
| Diplomacy.Registry.GrantPact | internal/domain/diplomacydom/transitions.go:52-63 | likewise |
| Diplomacy.Registry.RevokePact | internal/domain/diplomacydom/transitions.go:67-78 | likewise |
| Diplomacy.Registry.RevokeAllBetween | internal/domain/diplomacydom/transitions.go:130-141 | the pacts of the pair are gone in both directions, no other pact is, and the version tells |
| Diplomacy.WarIsSurgical | internal/domain/diplomacydom/transitions.go:9-23 | war cancels the pair's pacts and offer, and touches no other pair |
| Diplomacy.VersionWitnessesChange | internal/domain/diplomacydom/registry.go:36-47 | the version never falls, and stays the same exactly when nothing changed, which is exactly when the request was refused |
| Diplomacy.StepKeepsWellFormed | internal/domain/diplomacydom/transitions.go:110-125 | records stay filed under their own sorted pair, and offers stay offers to the other side for something new |
| Treaties.PairsRestForAnHour | internal/domain/diplomacydom/transitions.go:9-106 | after a declaration of war, an offer or an acceptance between two slots, neither of them may declare war or make an offer for exactly an hour, nor ever for what they are already |
| Treaties.StrangersMayOffer | internal/domain/diplomacydom/transitions.go:82-106 | slots without a record are at war and may make any offer at once, which only the other one can take up, at any time, and which changes nothing before |
| Treaties.PactsComeAndGo | internal/domain/diplomacydom/transitions.go:49-78 | a pact can be given at any stance, not twice, and be taken back at any time, which undoes it but for the version, and be given again |
| Treaties.NobodyTreatsWithThemselves | internal/domain/diplomacydom/transitions.go:9-106 | a slot is at peace with itself, sees its own map and may cross its own land, and whatever it asks of itself is refused |
| Treaties.ChangesAreSigned | internal/domain/diplomacydom/transitions.go:108-125 | over every run of requests, the record of a pair names whoever last declared war in it or took up an offer |
| Treaties.PactsAreDated | internal/domain/diplomacydom/transitions.go:52-78 | over every run, a pact in force carries the time at which it was last given |
| DiplomacyRuns.ChangesAreSpaced | internal/domain/diplomacydom/transitions.go:82-125 | over every run in which no offer is accepted at a time before it was made, two changes of a pair's stance are at least an hour apart |
| DiplomacyRuns.ForwardClocksAreTimely | internal/domain/diplomacydom/transitions.go:82-125 | runs under a clock that never runs backwards are such runs |
| DiplomacyRuns.SpacingNeedsTimeliness | internal/domain/diplomacydom/transitions.go:99-106 | over all runs that end by accepting an offer made at one time at another, all earlier ones having been accepted in time: changes are always spaced if and only if the acceptance is not before the offer |
| DiplomacyRuns.BackwardClockBreaksSpacing | internal/domain/diplomacydom/transitions.go:99-106 | for every two times in the wrong order, a run of four requests that breaks only that guard, only at its last acceptance, and whose changes are not spaced |
| DiplomacyRuns.ConsentIsMutual | internal/domain/diplomacydom/transitions.go:82-125 | over every run, a pair reaches peace or alliance only when one side accepts an offer of the other that no transition of the pair has overtaken |
| Coalitions.Coalition | internal/domain/diplomacydom/registry.go:176-193 | the worklist computes exactly the component of the slot in the alliance graph |
| Coalitions.CoalitionsPartition | internal/domain/diplomacydom/registry.go:172-193 | being in one coalition is an equivalence on the slots, and coalitions are equal or disjoint |
| Coalitions.CoalitionID | internal/domain/diplomacydom/registry.go:198-207 | the least slot of the coalition |
| Coalitions.SameIdIffLinked | internal/domain/diplomacydom/registry.go:195-207 | two slots have the same coalition id exactly when they are in the same component |
| Coalitions.CoalitionLeaderFor | internal/gateway/chat.go:159-190 | the search over the wire's edge list finds the least slot of the engine's coalition |
| Coalitions.LeadersAgree | internal/gateway/chat.go:159-190 | when the wire lists exactly the players and all treaties, gateway and engine name the same leader |
| StringOrder.LessIff | internal/domain/diplomacydom/registry.go:198-207 | slots are ordered as Go orders strings: by the first character that differs, a beginning before what continues it |
| Fights.FightEndsIffSettles | internal/domain/matchdom/combat.go:67-92 | the fight ends within a bound, however ties fall, if and only if every champion not filed under its owner is stronger than all others |
| Fights.SettledFightsEnd | internal/domain/matchdom/combat.go:67-92 | such a fight takes at most as many rounds as its losers' hit points need |
| Fights.SettledFightsCrownTheStrongest | internal/domain/matchdom/combat.go:67-92 | the last one standing is unhurt and was a strongest champion from the start |
| Fights.StuckForever | internal/domain/matchdom/combat.go:79-84 | once the weakest is misfiled and strictly weakest, every later round strikes it again and nobody is ever removed |
| Aftermaths.BlowsFollowTheTable | internal/domain/unitdom/kind.go:24-44 | a blow takes 38 from a victim whose type the attacker's beats, 22 from one whose type beats it, and else 30; infantry beats armor, armor beats cavalry, cavalry beats infantry; nobody else is touched |
| Matches.Match.PickPair | internal/domain/matchdom/combat.go:70-71 | the weakest champion and a strongest of the others |
| Matches.Match.FightUntilOneStands | internal/domain/matchdom/combat.go:67-92 | one unhurt champion is left, nobody was stronger, all others are dead, nobody else was touched, in at most the losers' number of rounds, each reported; the units reported destroyed are exactly those that are gone; it hangs only on a misfiled weakest champion, and only if the fight does not settle |
| Pooling.JoinKeepsPooled | internal/domain/matchdom/combat.go:46-63 | taking in one more unit keeps each coalition's total hit points with its champion, under the colours of one of its side that can lend them |
| Colours.MergedIsLent | internal/domain/matchdom/combat.go:51-60 | a champion holds the total of the units met so far and shows the owner and type of the last of them that brought more than half of the total so far |
| Perils.ChampionIsMerged | internal/domain/matchdom/combat.go:46-63 | the champion of a coalition is what its units merge into, in the order in which they are met among all others |
| Colours.LendersAreNotOutweighed | internal/domain/matchdom/combat.go:46-63 | a unit shows its colours in some order of meeting if and only if no stronger unit of its side has more hit points than all weaker ones together |
| Colours.OneSlotShows | internal/domain/matchdom/combat.go:46-63 | a side's champion shows one slot in every order of meeting if and only if some unit outweighs all weaker ones, and it and all units at least as strong are that slot's |
| Perils.ChampionsColours | internal/domain/matchdom/combat.go:46-63 | the same over all orders in which a whole garrison of several coalitions can be met |
| Colours.ColoursNeedAMajority | internal/domain/matchdom/combat.go:46-63 | a unit lends the champion its colours in every order of meeting if and only if it has more than half of its side's hit points |
| Colours.NoMajorityIsNeeded | internal/domain/matchdom/combat.go:46-63 | a concrete side without a majority on which one slot is sure to show |
| Perils.OrderDecidesWhoShows | internal/domain/matchdom/combat.go:46-63 | a concrete garrison whose champion shows different slots in two orders, in one of them not that of its strongest unit |
| Perils.FightsEndIffNotPerilous | internal/domain/matchdom/combat.go:46-92 | over all orders of meeting and all ways that ties can fall, the fight over a garrison is over within a bound if and only if the garrison is not perilous |
| Perils.AnAllianceHangs | internal/domain/matchdom/combat.go:67-92 | a concrete garrison of two units, made perilous by an alliance, on which every fight is stuck for ever after one round |
| Perils.WithoutAlliancesNoPeril | internal/domain/matchdom/combat.go:46-92 | without alliances no garrison is perilous |
| Matches.Match.CollapseChampions | internal/domain/matchdom/combat.go:46-63 | units and champions are exactly what joining the units one after the other in the order in which they are met gives; so each coalition has one champion that holds its total |
| Matches.Match.CaptureIfOwnerChanged | internal/domain/matchdom/combat.go:98-119 | the survivor's owner takes the province unless a slot of its coalition holds it, and a report says so exactly then |
| Matches.Match.ResolveProvince | internal/domain/matchdom/combat.go:17-27 | pooling, fight and capture end to end: one unit is left with the largest coalition total, and the province is its side's; a capture is reported, last, exactly if the province changes hands; it hangs only if the garrison was perilous |
| Maneuvers.TheStrongestSlotHolds | internal/domain/matchdom/combat.go:17-119 | without alliances, exactly one live unit is left at rest, with the largest total of any slot, and the province is owned by that slot |
| Maneuvers.TheSureSlotCaptures | internal/domain/matchdom/combat.go:46-119 | whichever side survives, if one slot is sure to show among its units, that slot takes the province |
| Aftermaths.OneIsLeft | internal/domain/matchdom/combat.go:17-92 | combat touches nobody but the live units at rest in the province, leaves exactly one of these, and changes nothing if there are none |
| Aftermaths.AlliesLeaveItAlone | internal/domain/matchdom/combat.go:94-119 | the survivor's slot owns the province afterwards, unless a chain of alliances joins that slot to the owner: then nothing changes; no other province does, nor anything else about this one |
| Matches.Match.Winner | internal/domain/matchdom/victory.go:22-68 | a winner is found exactly when some capital is owned and all capital owners are of one coalition; the winners are the sorted list of all of them |
| Matches.Match.EndMatch | internal/domain/matchdom/victory.go:56-80 | the match is over, announced, and its cleanup is scheduled five minutes later |
| Matches.Match.CheckVictory | internal/domain/matchdom/victory.go:18-80 | an active match ends exactly when the above holds, with these winners, announced last and with its cleanup scheduled; otherwise nothing changes |
| Aftermaths.MatchesEndIffConquered | internal/domain/matchdom/victory.go:18-81 | a match that is on ends at a check exactly if somebody owns a capital and chains of alliances join all who do; just these have won, under the least name of their coalition; that is reported last, and cleaned up five minutes later |
| Matches.Match.Combat | internal/domain/matchdom/combat.go:17-27 | combat is a step of the match: it keeps every invariant, or hangs on a perilous garrison |
| Matches.Match.SetUnitPath | internal/domain/matchdom/movement.go:31-55 | the unit gets exactly the scheduled path, its old arrival is superseded and exactly one new one is scheduled |
| Matches.Match.FindRoute | internal/domain/pathdom/diplomacy.go:11-49 | a shortest way that is permitted; or there is no way at all; or a shortest one is barred; and which of these |
| Matches.Match.StartNextWaypoint | internal/domain/matchdom/movement.go:86-103 | an idle unit sets out for its next waypoint on a shortest way, which is permitted, or there is none or it is barred, and the waypoint is used up |
| Matches.Match.HostileUnitOnLeg | internal/domain/matchdom/movement.go:169-196 | an enemy is met exactly when some live one at war is on the same edge within the collision radius |
| Matches.Match.Clash | internal/domain/matchdom/movement.go:125-147 | the unit drops its path and waypoints where it stands, there is combat over the province, and victory is judged; it hangs only if the garrison is perilous once the unit has stopped there |
| Matches.Match.Proceed | internal/domain/matchdom/movement.go:149-155 | the unit is on its next leg, with one new arrival scheduled, without a jump |
| Matches.Match.ReachGoal | internal/domain/matchdom/movement.go:157-167 | at the end of its path the unit sets out for its next waypoint, or stays and fights for the province; it hangs only if it stays and the garrison is then perilous |
| Matches.Match.CompleteUnitLeg | internal/domain/matchdom/movement.go:106-167 | the arrival is reported first; then exactly one of the above happens, decided by whether an enemy is met and whether legs are left; nobody is teleported; it hangs only if the leg ends in peril |
| Aftermaths.FoesAreMet | internal/domain/matchdom/movement.go:124-196 | the code stops a unit exactly if its leg ends in the province of a slot that it is at war with, or a live unit of such a slot is at most 30 away on an edge with the same two ends, in whatever direction |
| Aftermaths.FriendsAreNoFoes | internal/domain/matchdom/movement.go:169-196 | nobody and nothing of its own slot, or of slots that it is not at war with, stops a unit |
| Aftermaths.FoesAreFought | internal/domain/matchdom/movement.go:126-146 | a live unit that meets a foe fights for the province it has come to: one unit is left there, and if it is this one, it has no plans left |
| Aftermaths.UnopposedUnitsGoOn | internal/domain/matchdom/movement.go:148-154 | a unit that meets no foe and has legs left is on the next one, at the same place, with the same plans, and nothing else has changed |
| Aftermaths.PassingUnitsDoNotFight | internal/domain/matchdom/movement.go:156-161 | a unit that meets no foe and can go on to its next waypoint does so without a fight, will end there, and keeps its other waypoints |
| Aftermaths.ArrivedUnitsFight | internal/domain/matchdom/movement.go:156-166 | a live unit at the end of its path and without waypoints fights for the province it has come to |
| Aftermaths.StuckUnitsLoseAWaypoint | internal/domain/matchdom/movement.go:84-103 | a unit at the end of its path that has no permitted way to its next waypoint gives that one up and keeps the others, if it survives |
| Matches.Match.Arrive | internal/domain/matchdom/event_arrival.go:9-38 | a stale arrival changes nothing; any other one ends the unit's current leg; the branch for a unit without a path is never taken; it hangs only if that leg ends in peril |
| Matches.Match.PulseNow | internal/domain/matchdom/event_macro_pulse.go:12-30 | every slot is paid its revenue once and reported once, the next pulse comes exactly an interval later, and nothing else changes |
| Revenues.MacroPulseRevenue | internal/domain/matchdom/economy.go:13-31 | one share per province owned plus what the slot's buildings produce, for every iteration order |
| Accounts.PulsesPay | internal/domain/matchdom/economy.go:13-31 | a pulse brings every slot 4 manpower, 5 food and 1 iron for each of its provinces, and 2 manpower and 4 iron for each of its factories |
| Books.BooksBalance | internal/domain/matchdom/event_macro_pulse.go:12-30 | over every run of a match, for every slot and every resource: what it has and what its accepted orders have cost are together what it began with and what pulses and refunds have brought it |
| Pulses.EveryHourHasItsPulse | internal/domain/matchdom/event_macro_pulse.go:12-30 | over every run of a match, when everything due has been handled, exactly as many pulses have been as hours have passed since its start |
| Matches.Match.CompleteRecruit | internal/domain/matchdom/event_recruit_complete.go:14-66 | the order is taken off the books and becomes exactly one new unit under an unused id, which is reported, if its owner still holds the province, and exactly half its price otherwise; nothing else changes |
| Accounts.TwiceTheRefundIsThePrice | internal/domain/matchdom/event_recruit_complete.go:27-43 | from the payment of an order to its completion: if its owner has lost the province, what it gets back is, taken twice, what it has paid, of every resource, and nobody else gains; otherwise nobody does, and there is one more unit |
| Accounts.TwoRefundsPayForOne | internal/domain/economydom/resources.go:33-37 | a slot that had nothing has, after two refunds of a kind, exactly what one new order of that kind costs, and after it nothing again |
| Accounts.RecruitsStandReady | internal/domain/matchdom/event_recruit_complete.go:39-65 | the new unit is of the type ordered, at full strength, at rest in the middle of the province for good, and its owner's; nobody else is touched |
| Matches.Match.CompleteConstruct | internal/domain/matchdom/event_construct_complete.go:9-36 | the order is taken off the books, and the building stands, which is reported, exactly if its owner still holds the province; nothing else changes |
| Accounts.FactoriesStand | internal/domain/matchdom/event_construct_complete.go:22-35 | afterwards there is a factory in the province if and only if there was one or the order's owner still holds the province; other provinces are as before |
| Matches.Match.CleanUpMatch | internal/domain/matchdom/event_match_cleanup.go:11-21 | runs only after the match has ended, and only once; it is reported, and nothing else changes |
| Verdicts.CleanupsComeInTime | internal/domain/matchdom/victory.go:53-60 | over every run, every cleanup, scheduled or reported, is five minutes after the reported end of the match |
| Verdicts.VerdictsAreFinal | internal/domain/matchdom/victory.go:16-21 | over every run, once a match is over, who has won it never changes |
| Workloads.HandlingLightens | internal/domain/matchdom/events.go:25-36 | replacing a due event by at most two that are at least a millisecond later makes the remaining work smaller |
| Matches.Match.HandleEvent | internal/domain/matchdom/events.go:41-47 | the new state of the whole match is what the event's kind means for the old one: the end of a leg, a stale arrival without effect, a pulse, an order completed or refunded, a victory check, a cleanup, or nothing; every invariant is kept, at most two later events are added, nobody is teleported; it hangs only on the current arrival of a unit whose leg ends in peril |
| Matches.Match.ProcessNext | internal/domain/matchdom/events.go:25-36 | from the present state on, handles the earliest event again and again, each state being what its event makes of the one before, until nothing due is left; terminates for every queue and every time; the reports are in order of time and numbered on from the last one; it hangs only when the state it has so come to has, as its earliest event, a due arrival of a unit whose leg ends in peril |
| Histories.CoursesAreInOrder | internal/domain/matchdom/events.go:25-36 | over every such course, events are handled and reported in order of time, none is from after the deadline, and there are no more of them than the workload at the start |
| Histories.CoursesKeep | internal/domain/matchdom/events.go:25-36 | no course of events changes the ledger, the clock or the slots, strands a unit, or leaves the attainable states |
| Agendas.EveryStepKeepsOk | internal/domain/matchdom/events.go:25-47 | no step of a match breaks any of its invariants |
| Agendas.AttainableIsOk | internal/domain/matchdom/events.go:25-47 | so they hold in every state that any run leads to |
| Agendas.OneArrivalEach | internal/domain/matchdom/event_arrival.go:9-16 | in every such state a unit has at most one arrival that will be acted on, and it is due when the unit's current leg ends |
| Agendas.ArrivesUnlessStranded | internal/domain/cmddom/move.go:38-48 | in every such state between events, a unit with a leg to complete has its arrival in the queue if and only if no refused order has stranded it, and no unit in flight is stranded |
| Agendas.NobodyIsStranded | internal/domain/matchdom/movement.go:73-83 | over every run in which no refused order strands a unit, every unit with a leg to complete, in flight or not, has its arrival in the queue |
| Agendas.OrdersAreConserved | internal/domain/cmddom/recruit.go:34-60 | in every such state each order ever paid is in the books, delivered or refunded, exactly one of these, and in the books exactly if its completion is in the queue |
| Agendas.DecidedOnce | internal/domain/matchdom/victory.go:18-80 | over every run at most one match end and at most one cleanup are reported, the cleanup never before the end, and at most one cleanup is ever in the queue |
| Agendas.NewerOrdersSupersede | internal/domain/matchdom/event_arrival.go:12-15 | once a unit's version has grown, no pending arrival will be acted on |
| Setups.NewMatch | internal/domain/matchdom/match.go:19-101 | a match exists exactly if every starting unit is somewhere on the map; it opens with each province its capital's slot's or its home slot's, the last entry counting, each starting unit one unit at rest with an id of its own, the same stockpile for everyone, only the first pulse scheduled, and nothing ordered, reported or agreed; every invariant holds |
| Openings.TheOpeningBuys | internal/domain/balance/balance.go:13-17 | at first every slot can pay for six units of infantry, or three of cavalry, or two of armor, or a factory and four of infantry, and no more |
| Openings.ProvincesStartAsTheMapSays | internal/domain/matchdom/match.go:45-66 | every province is where its last entry in the map puts it; it is a capital exactly if a slot names it as one, and then belongs to the last slot that does, else to whoever is at home there |
| Openings.UnitsStartAsTheMapSays | internal/domain/matchdom/match.go:73-99 | every entry of the map is a unit of its slot and type, with its hit points or 100, at rest in its province and as fast as its type, or as infantry if the type is unknown |
| Borders.AllBeginAtWar | internal/domain/diplomacydom/registry.go:143-171 | when a match begins, every province of another slot is hostile, none is barred, and every slot sees with its own eyes only |
| Commands.ParseMoveTarget | internal/domain/cmddom/move.go:67-117 | a target is accepted exactly when it is well formed and, if given by names, adjacent; which target it then is |
| Commands.DirectMove | internal/domain/cmddom/move.go:50-64 | the unit sets out at once from where it is, on a shortest way, which is permitted, without a jump; refused because there is no way or because it is barred, as the reply says, a move changes nothing |
| Commands.QueuedMove | internal/domain/cmddom/move.go:38-48 | what becomes of the unit in all cases; where no refusal is possible, it keeps its place if and only if it was in flight, at rest or on a leg between equal points; where no acceptance is, it keeps its place; which units are stranded afterwards |
| Commands.QueueingDisplacesIff | internal/domain/cmddom/move.go:38-48 | some outcome displaces the unit if and only if it has come to the end of a leg between different points and a shortest way to its first waypoint is permitted |
| Commands.QueueingStrandsIff | internal/domain/cmddom/move.go:38-48 | some outcome strands the unit if and only if it has come to the end of a leg and there is no way to its first waypoint, or a shortest one is barred |
| Commands.DepartFromRecord | internal/domain/cmddom/move.go:43-47 | the case of a unit not in flight: it departs from the start of its record, or loses its waypoint and any arrival still to come, and is stranded exactly then if it has a leg |
| Commands.DepartureKeepsPlacesIff | internal/domain/cmddom/move.go:38-48 | departing from where the record starts keeps the place exactly when the unit is at rest or on a leg between equal points |
| Mishaps.QueueingTeleports | internal/domain/cmddom/move.go:38-48 | on a concrete map, in every run of a match that is given two orders, the second is accepted and puts the unit back to where its leg began |
| Mishaps.QueueingStrands | internal/domain/cmddom/move.go:38-48 | in every such run with another second order, that one is refused and leaves the unit with a leg but no arrival to wait for |
| Mishaps.PlayOut | internal/service/enginesvc/runner.go:166-189 | there are such runs: a match on the map, hosted and given both orders, takes both turns |
| Commands.ApplyMove | internal/domain/cmddom/move.go:15-64 | to whom a move is refused, and otherwise that the unit named, and no other, becomes what a direct or queued move to what the destination means makes of it, with at most its new arrival scheduled; refused, a direct move changes nothing; nobody jumps, and nobody is stranded, except as above |
| Travels.MovingIsAllowedIff | internal/domain/cmddom/move.go:15-37 | only the owner of a unit may move it, to a well-formed destination, which if given by names is adjacent; what is said to whoever may not; no other unit changes |
| Travels.DirectMovesAreObeyed | internal/domain/cmddom/move.go:50-64 | an accepted direct move leads at once from where the unit is, in flight as far along its leg as time has passed, to exactly the point named, and everything planned before is forgotten |
| Travels.OrdersAreObeyedAtOnce | internal/service/enginesvc/runner.go:169-182 | in every turn of a run, a direct move that is accepted was its owner's and starts at the time of the input, from where the unit is then, before anything due is handled |
| Travels.DirectMovesLeadThere | internal/domain/cmddom/move.go:67-117 | and it ends in the province named, at the nearer end of the edge named, or for a bare point in a nearest province within 24, else at the first end of a nearest edge within 20, else in a nearest province |
| Travels.QueuedMovesWaitInLine | internal/domain/cmddom/move.go:38-42 | moves queued for a unit in flight are kept in the order given, after those it had, and change nothing else |
| Travels.TheFirstInLineIsNext | internal/domain/cmddom/move.go:43-46 | a unit not in flight sets out for the first waypoint in line, counting the new one last |
| Travels.DeparturesAreOnTime | internal/domain/matchdom/movement.go:31-55 | a unit that sets out takes its exact time on every leg, to within a second |
| Travels.HourlyMarches | internal/domain/unitdom/registry.go:5-16 | in an hour infantry covers 50, cavalry 100 and armor 80, and there are no other types |
| Commands.ApplyRecruit | internal/domain/cmddom/recruit.go:15-61 | accepted exactly under the stated conditions, then paid in full by the issuer alone, filed under an id never used before and due after the building time; refused, it changes nothing; nobody goes into debt |
| Accounts.RecruitingIsAllowedIff | internal/domain/cmddom/recruit.go:15-42 | accepted exactly if the slot owns the province, the type exists, armor has its factory there, nothing else is in training there and every resource suffices; what is said otherwise |
| Accounts.OrdersArePaid | internal/domain/cmddom/recruit.go:38-43 | the slot has less by the price, of every resource, and is not in debt; nobody else has more or less |
| Accounts.OrdersAreDue | internal/domain/cmddom/recruit.go:45-60 | the order is in the books of the province, and its completion is due in 5, 10 or 20 minutes |
| Commands.ApplyConstruct | internal/domain/cmddom/construct.go:15-59 | the same for buildings |
| Accounts.ConstructingIsAllowedIff | internal/domain/cmddom/construct.go:15-41 | the same for buildings, of which there is one kind and one to a province |
| Accounts.BuildingsArePaid | internal/domain/cmddom/construct.go:37-42 | the same |
| Accounts.BuildingsAreDue | internal/domain/cmddom/construct.go:44-58 | the same, in half an hour |
| Commands.ApplyDiplomacy | internal/domain/cmddom/diplomacy_helpers.go:13-63 | the ledger changes exactly as the registry's specification says when the target is another player, and exactly then one report is made, of the kind of that action |
| Borders.DealingIsAllowedIff | internal/domain/cmddom/diplomacy_helpers.go:13-47 | only other players of the match can be dealt with; what is said otherwise; whatever is refused changes nothing at all, and whatever is accepted changes the ledger |
| Borders.CommandsDoWhatTheySay | internal/domain/cmddom/diplomacy_helpers.go:49-63 | what each accepted command has done, told by what slots then see, where their units may go and whom they fight; and how it is reported |
| Borders.SharingOpensOneMap | internal/domain/diplomacydom/registry.go:143-154 | after a slot has shared its map, the other one sees with its eyes too, and nobody else's eyes change |
| Borders.UnsharingClosesOneMap | internal/domain/diplomacydom/registry.go:143-154 | taken back, the other one no longer does, unless a chain of alliances joins them, and nobody else's eyes change |
| Borders.WaysShowNothing | internal/domain/diplomacydom/registry.go:143-171 | rights of way, given or taken back, change nobody's eyes |
| Borders.OffersShowNothing | internal/domain/diplomacydom/transitions.go:82-96 | nor do offers |
| Borders.WarClosesMaps | internal/domain/diplomacydom/transitions.go:9-23 | after a declaration of war, neither side sees with the other's eyes, unless a chain of other alliances joins them |
| Borders.AlliesSeeTogether | internal/domain/diplomacydom/registry.go:143-193 | after an alliance, both sides are of one coalition and each sees with the other's eyes |
| Borders.GrantingOpensTheWay | internal/domain/pathdom/diplomacy.go:10-29 | a right of way opens the giver's provinces to the other slot, and nothing else to anybody |
| Borders.RevokingBarsTheWay | internal/domain/pathdom/diplomacy.go:10-29 | taken back, it bars them to the other slot exactly if the two are at peace, and nothing else to anybody |
| Borders.WarMakesHostile | internal/domain/pathdom/diplomacy.go:10-29 | after a declaration of war, each side's provinces are hostile to the other and barred to neither; all else is as before |
| Borders.PeaceBarsTheWay | internal/domain/pathdom/diplomacy.go:10-29 | after peace, they are no longer hostile, and barred but for a right of way from their owner; all else is as before |
| Borders.AlliancesOpenTheWay | internal/domain/pathdom/diplomacy.go:10-29 | after an alliance, they are neither hostile nor barred; all else is as before |
| Commands.Dispatch | internal/domain/cmddom/registry.go:34-54 | commands act only on an active match and for a slot, and then the new state of the whole match is what is stated for their kind |
| Turns.TakeTurn | internal/service/enginesvc/runner.go:166-189 | clock, then command, then due events: the turn is exactly that, from the state before it to the state after it; a refused command, and a resync, handle no event; otherwise nothing due is left; the slots are told what they see exactly after an accepted command, a resync, or news; it hangs only as ProcessNext does |
| Verdicts.DueEventsAreHandled | internal/service/enginesvc/runner.go:166-192 | a refused command and a resync handle no event, a resync does nothing but advance the clock, and after every other turn nothing due is left |
| Verdicts.TheEndIsDeaf | internal/domain/cmddom/registry.go:34-37 | once a match is over, every command of anybody is refused, and only the clock advances |
| Verdicts.TheLoopStopsIff | internal/service/enginesvc/runner.go:193-198 | the loop stops by itself exactly after a turn, other than a refused command, by whose end a cleanup has been reported |
| Turns.RunMatch | internal/service/enginesvc/runner.go:158-200 | over any sequence of inputs with a forward clock, there is a turn for every input, each made of the state the one before has left, unless one hangs, or the match was cleaned up after it was decided, exactly when the loop stops by itself |
| Turns.RunsKeep | internal/service/enginesvc/runner.go:158-200 | over every such run all states are attainable, so that every invariant holds in them, reports are only added, and without queued moves nobody is stranded |
| Turns.RunsAreExplained | internal/domain/cmddom/diplomacy_helpers.go:13-63 | over every such run the requests that its commands make of the registry, in order of time, explain the ledger |
| Turns.RunsAreSpaced | internal/domain/diplomacydom/transitions.go:82-125 | so over every such run two changes of a pair's stance are at least an hour apart |
| Turns.OnlyAlliancesHang | internal/domain/matchdom/combat.go:46-92 | a run hangs only while some slots are allied |
| Turns.Play | internal/service/enginesvc/runner.go:60-78 | a match can be hosted from its map on: its run starts from the opening that the map prescribes, with everything above |
| Spatial.NewSpatialIndex | internal/domain/visibility/spatial.go:21-116 | every disc is filed in every cell its bounding box touches, with all cell indices in bounds; there is no index only without discs or without points |
| Spatial.SpatialIndex.OwnCellLists | internal/domain/visibility/spatial.go:85-114 | a disc that contains a point is filed in the point's own cell |
| Spatial.SpatialIndex.Within | internal/domain/visibility/spatial.go:118-142 | true exactly when some disc contains the point, for every point |
| Visibility.ComputeViewerContributors | internal/domain/visibility/visibility.go:118-133 | the coalition of the slot and everyone it sees through |
| Visibility.CacheStaysOk | internal/domain/visibility/visibility.go:99-116 | whatever is asked of the registry, accepted or refused, a good cache stays good |
| Visibility.ViewerContributors | internal/domain/visibility/visibility.go:99-116 | whatever the cache holds, the answer is the one for the present ledger |
| Visibility.CoveredIsLit | internal/domain/visibility/visibility_legacy_test.go:41-70 | a point is in some disc exactly when a contributor's province or unit is within its view radius |
| Visibility.For | internal/domain/visibility/visibility.go:24-93 | the sets seen are exactly those of the brute-force definition, which is what the legacy scan computes |
| Sightings.WhoShows | internal/domain/visibility/visibility.go:118-133 | a slot sees with another one's eyes exactly if a chain of alliances joins them or the other has shared its map with it |
| Sightings.UnitsAreSeenIff | internal/domain/visibility/visibility.go:44-91 | a unit is seen exactly if it is such a slot's, or within 180 of such a slot's province, or within reach of such a slot's unit: 2200 for infantry, 280 for cavalry, 260 for armor, else 200 |
| Sightings.ProvincesAreSeenIff | internal/domain/visibility/visibility.go:32-81 | a province is seen exactly if it is such a slot's, or next to one, or in sight as above |
| Sightings.BroadcastsTellWhatIsSeen | internal/service/enginesvc/runner.go:189-191 | a broadcast tells every slot exactly the units that it sees so at that moment |

## Left out

- Floating point: all arithmetic is over the reals, so rounding, overflow and the conversion of huge floats to integers are not modelled.
- Integer widths: sequence numbers, versions and durations are unbounded.
- Matches.Match.CompleteUnitLeg: the reports of blows, deaths and captures are stated for the battle itself; of those of a whole leg only the first, their time, their numbers and the end of the match are stated.
- Router.AStar: which of several equally short paths is returned is open, so a unit is sent on a shortest way, and if they differ in whether they are barred, acceptance and refusal are both possible in the model.
- Matches.Match.FightUntilOneStands: a fight that would never end is reported as `hung` and left at that point, because a method that does not terminate has no final state to describe.
- Routes.NearestProvinceID: which of several equally near provinces is returned is open, as Go's map iteration order is.
- Snaps.SnapTarget: the same for equally near provinces.
- Maps with an empty id, or with centres further apart than a float can say: `Maps.Graph.Sound` excludes them wherever routes are planned.
- Aliasing: units, orders and provinces are records in tables; a method takes a record and stores it back where the original changes it through a pointer. Search nodes are kept in a table by province id, with the heap holding the ids.
- The slices of reports that handlers return: reports go to one log, in the order they are numbered, and ProcessNext returns the part it added. The `Extra` payload of reports is not modelled.
- Event identity: each scheduled event carries a number that stands for its address, so that equal events are still different.
- The setup of a match: reading the map file, colours and names, user ids, and finding a slot by user id.
- Setups.NewMatch: maps in which a home slot or the owner of a starting unit is no slot of the map, or something has no name, are excluded by `Setups.Sensible`; the program accepts them unchecked.
- Parsing of command arguments from strings: commands carry parsed values.
- The wall clock: game time is given with each input and must not run backwards.
- ForceEnd, goroutines, channels, metrics and publishing; the loop's order of advance, dispatch, drain and broadcast is kept.
- Wire snapshots: a broadcast works out who sees which units and no more.
- A nil registry, and helpers with a single lookup in them (`Treaty`, `PactsFrom`, `IsHostile`, `LegLength`, `Route`, `RouteAttackTerminus`).
- HTTP, NATS, databases, lobby, chat storage, bots and the web client.
