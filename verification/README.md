# Verification of the CreatorOS workflow backend

This project models the stateful cores of the CreatorOS backend in Dafny 4.11 and proves what each of them keeps over
whole runs. `dafny verify dfyconfig.toml` checks everything; no file needs another tool.

## What is modelled

**Graph algorithms** (`Decimal`, `Digraph`, `Cycles`, `Reachability`, `Ordering`, `Validation`). The functions of
`graph.py` as methods with their own loops: the three-colour depth-first search, Kahn's algorithm by node and by layer,
breadth-first reachability, validation with and without loop edges. `Digraph` is the reference they are proved against:
walks, reachability, acyclicity. `Collections` holds what is not about graphs. `Decimal` spells integers out, because
cycle signatures and orderings compare ids as text.

**The first scheduler** (`Outcomes`, `SchedulerV1`). `run_execution` over its node sets, with the environment choosing
which tasks finish next. The fate of a node is defined without any schedule; a valid workflow ends with exactly
those fates, whatever the interleaving.

**The second scheduler** (`Control`, `SchedulerV2`, `SchedulerV2Safety`, `SchedulerV2Termination`, `SchedulerV2Gating`,
`SchedulerV2Loops`, `SchedulerV2Cascade`, `SchedulerV2Races`, `SchedulerV2Refinement`, `SchedulerV2Forecast`,
`SchedulerV2Independence`, `SchedulerV2Requests`, `SchedulerV2Steps`, `EngineV2`). `run_execution_v2` as a state machine
whose steps are the stretches between two points where other threads can interfere; control requests may fall between
any two steps. `EngineV2` is the loop itself over mutable fields: it keeps a ghost trace and is proved to produce runs
of the state machine only, so every theorem about runs holds of it.

**The execution queue** (`WaitingLine`, `QueueOrder`, `BinaryHeap`, `ExecutionQueue`). An array heap with sift-up,
sift-down and heapify, refined to a sorted line of entries and to the history of who was admitted and how they left;
`QueueOrder` says who is served next from the operations alone.

**The rate limiter** (`RateLimiter`). The pruned deques against the full history of accepted requests, and the calls
that are counted together.

**Refresh-token sessions** (`Sessions`). Logins, rotations, logouts, revocations and purges interleaved at the
granularity of single SQL statements.

**Live events** (`Streaming`, `Broker`). Bounded drop-oldest inboxes, the replay ring, fan-out to subscribers, and the
client that switches from replay to live.

**Editor and backend graphs** (`GraphAdapter`). Serialize, store under fresh ids, fetch, deserialize.

The environment is a parameter or a nondeterministic choice throughout: task outcomes and their order, control requests,
clocks, chosen branch labels, database ids, token ids, client identities.

## What the proofs show about the code

Where the code does not do what its documentation or names suggest, the model follows the code, and lemmas give the
exact condition and a concrete input:

- `is_paused` is read at the head of the loop and again before tasks are created. A pause between the two makes the
  stall branch skip nodes that could run, and the run reports COMPLETED (`SweepHitsReadyIffPaused`, `SweepFollowsPause`,
  `PauseRaceSkipsEverything`).
- The cascade after a branch decision visits descendants in set order, once below each newly gated node. It reaches all
  it should in every order exactly when no chain of nodes waiting for each other is longer than the number of newly
  gated nodes above its first; with nothing newly gated it does not run, and what it missed before stays missed
  (`CascadeIsCompleteIff`). Otherwise the order decides (`CascadeOrderDecides`).
- With branch choices the order in which tasks finish can decide which nodes run (`CompletionOrderDecides`). It decides
  nothing where plan and script have a certain forecast: then every run meets the forecast (`RunMeetsForecast`,
  `OrderIsImmaterial`). A forecast is one pass over the plan (`ForecastExists`, `ForecastIsUnique`); it is certain where
  choices change nothing (`AgreeableIsCertain`) and where suppression reaches one level at most (`TameIsCertain`).
- The sets of the first scheduler are reached exactly when every node a choice turns away would have been skipped anyway
  (`V2MeetsFatesIff`).
- A back-edge that resets a node with a dependent outside the loop body leaves that dependent running or finished on
  what is about to run again (`FiringBreaksGate`). A firing does harm exactly when some dependent outside the body has
  started or is suppressed (`FiringIsSafeIff`). No firing does where no edge leaves a loop body (`SealedIsGuarded`), or
  where edges leave it from its exit only, without labels, and the exit's last output decides whether to go on
  (`ExitOnlyIsGuarded`).
- With a label on an edge that leaves the exit the last condition fails: a node suppressed while the loop goes on stays
  suppressed when the loop ends by choosing it, and the run reports COMPLETED without it (`FiringLosesChosenNode`).
- A cancel leaves the open pause interval open, so a pause it cuts short is missing from the paused seconds reported
  (`ReportIsTimeParked`).
- `put` checks capacity before it looks for the id, so a second `put` of a waiting id fails on a full queue
  (`PutTwice`).
- Eviction of idle buckets uses the window of the current request. With unequal windows it reopens a saturated bucket of
  the longer window (`RunIsExactIff`, `EvictionForgets`); with equal windows it never does.
- A limiter without any budget does not answer 429: it reads the front of an empty deque (`DecisionIsExact`).
- Identities that end in the suffix of credential buckets share those buckets (`SameKeyIff`,
  `ForwardedAddressShares`).
- Revoking all sessions on a replay misses a rotation that has claimed its session and not yet issued the next one
  (`RevokeAllMissesOnlyWinners`, `ReplayOutrunsTheWinner`), although the comment there speaks of dropping every session.
- Replacing a graph is called atomic. A payload without node ids whose edge names no position is refused after the old
  graph was deleted (`StrandedIff`, `LoneNodeIsStranded`); the editor never sends one (`EditorIsNeverStranded`).
- In a payload where only some nodes carry ids, the position of a node without one can overwrite an id, and an edge is
  stored between other nodes than it names (`EdgesJoinIff`, `PositionOverwritesId`).
- An event published between subscribing and replaying reaches the client twice, and a client that resumes past the last
  number drawn hears older events (`StreamIsSeamlessIff`, `BetweenIsSentTwice`); the synthetic terminal frame takes a
  sequence number that no published event carries (`NumbersAreDrawnOnce`).
- Repeated node ids never yield a topological order, whatever the graph (`TopologicalOrder`, `ExecutionLayers`).

## Model

| member | source | states |
|---|---|---|
| Cycles.SignatureIsRotationClass | backend/app/services/workflow/graph.py:117-124 | two cycles of distinct integer ids share a signature exactly when one is a rotation of the other |
| Decimal.StrReads | backend/app/services/workflow/graph.py:121 | the text that orders node ids is the decimal one: digits that stand for the integer, no leading zero, a minus for negative ones |
| Decimal.BeforeIff | backend/app/services/workflow/graph.py:122 | one text is before another exactly when, at the first place where they differ, it ends or has the smaller character |
| Cycles.FindCycles | backend/app/services/workflow/graph.py:61-114 | the search ends; every reported list is a genuine cycle of distinct nodes between known ones, no two are rotations of each other, and every cycle of the known-node subgraph, whatever it is, shares an arc with a reported one; so the list is empty iff that subgraph is acyclic |
| Cycles.ExploreFrom | backend/app/services/workflow/graph.py:83-112 | the search below one root finishes that root and leaves nothing grey; without the arcs of the cycles reported so far, the finished nodes are numbered against the arcs |
| Reachability.Descendants | backend/app/services/workflow/graph.py:339-355 | exactly the nodes reachable over at least one arc, minus the start, on any input |
| Reachability.LoopBody | backend/app/services/workflow/graph.py:265-292 | exactly the nodes on walks from entry to exit, or entry and exit alone when there is none |
| Ordering.BuildAdjacency | backend/app/services/workflow/graph.py:36-58 | both maps hold exactly the arcs between known nodes, in either direction |
| Ordering.TopologicalOrder | backend/app/services/workflow/graph.py:127-147 | on any ids: a topological order is returned iff no id is repeated and the known-node subgraph is acyclic; without repetitions it succeeds iff acyclic, and the nodes come as they become ready, those that do so together by their text |
| Ordering.OrderIsUnique | backend/app/services/workflow/graph.py:134-143 | there is one such order, so it depends on nothing but the nodes and the arcs |
| Ordering.ExecutionLayers | backend/app/services/workflow/graph.py:204-228 | the same conditions; each node has all its dependencies in earlier layers and one in the layer just before; the concatenation is a topological order |
| Ordering.LayerIsLongestWalk | backend/app/services/workflow/graph.py:204-228 | a node is in layer k exactly when the longest walk ending at it has k arcs |
| Validation.ValidateGraph | backend/app/services/workflow/graph.py:150-201 | valid iff non-empty, within the cap, distinct ids, known ends, no self edge and no cycle; each error is reported exactly when what it says is so; every cycle shares an arc with a reported one, and orphans are as described |
| Validation.LoopLabelIff | backend/app/services/workflow/graph.py:240-244 | a label marks a back-edge exactly when it spells loop, in small or large letters, from its first character that is not blank; a blank one or none does not |
| Validation.StripLeavesCore | backend/app/services/workflow/graph.py:244 | stripping leaves a text from its first to its last character that is not blank |
| Validation.SplitKeepsOrder | backend/app/services/workflow/graph.py:240-262 | every edge lands on exactly one side of the split, decided by its label, and each side keeps the order |
| Validation.ValidateGraphWithLoops | backend/app/services/workflow/graph.py:295-336 | valid iff the forward half is a valid DAG and every loop edge joins two different known nodes; each error, those of loop edges included, is reported exactly when what it says is so |
| Outcomes.FateFollowsDependencies | backend/app/services/workflow/engine.py:588-681 | the fates obey the recursive rule: skipped iff some dependency is failed or skipped, otherwise decided by the node and its policy |
| Outcomes.FateIsUnique | backend/app/services/workflow/engine.py:588-681 | on an acyclic graph that rule has no other solution |
| SchedulerV1.BranchIsFree | backend/app/services/workflow/engine.py:667-678 | nothing downstream of a running node that turns out bad has started, completed or failed, so skipping a branch hits only unstarted nodes |
| SchedulerV1.FinishKeeps | backend/app/services/workflow/engine.py:632-681 | settling one finished task, under any policy, keeps the sets disjoint, within the nodes and true to the fates |
| SchedulerV1.NeverStalls | backend/app/services/workflow/engine.py:608-626 | with nothing in flight, no fatal failure and a node unsettled, some node is ready |
| SchedulerV1.SettledIsFate | backend/app/services/workflow/engine.py:588-744 | once all nodes are settled the three sets are the three fates |
| SchedulerV1.Schedule | backend/app/services/workflow/engine.py:587-744 | the loop ends; the stall branch never fires, each node starts at most once, and whatever the interleaving the final sets, the starts and the status are the ones the fates dictate |
| SchedulerV1.RunsAgree | backend/app/services/workflow/engine.py:587-744 | any two schedules of a workflow agree on status and fail-fast, and without a fatal failure on all three sets and on what started; the sets then partition the nodes |
| SchedulerV1.RunExecution | backend/app/services/workflow/engine.py:529-744 | invalid workflows are rejected with empty sets; valid ones end as the fates dictate |
| Control.ApplyKeepsConsistent | backend/app/services/workflow/control.py:142-200 | no request makes a halting run pause, undoes a stop or a cancel, or is accepted without effect |
| Control.HistoryDecides | backend/app/services/workflow/control.py:142-200 | after any history: stopping iff a stop or cancel is in it; paused iff none is and the last pause or resume was a pause |
| Control.ReportIsTimeParked | backend/app/services/workflow/control.py:103-203 | after any history the paused seconds reported are the time spent paused, unless a cancel cut a pause short, and then they miss exactly that pause |
| Control.ControlHandle.RequestStop | backend/app/services/workflow/control.py:168-185 | the new flags and the answer, pause interval closed |
| Control.ControlHandle.RequestPause | backend/app/services/workflow/control.py:142-152 | the new flags and the answer |
| Control.ControlHandle.RequestResume | backend/app/services/workflow/control.py:154-166 | the new flags and the answer |
| Control.ControlHandle.RequestCancel | backend/app/services/workflow/control.py:187-203 | the new flags and the answer, pause interval left open |
| SchedulerV2Termination.LoopLimitIsFair | backend/app/services/workflow/engine.py:1499-1511 | the number asked for when it lies between one and the global cap, one when less was asked for, never above the cap, zero only with it, and below it exactly when a smaller non-zero number was asked for and the cap leaves room |
| SchedulerV2Safety.AllSettledBySize | backend/app/services/workflow/engine.py:1188-1190 | comparing sizes decides whether every node is settled |
| SchedulerV2Safety.RunIsBasic | backend/app/services/workflow/engine.py:1155-1397 | in every state of every run, loops included, overlapping ones too: sets within the nodes, running, completed and failed pairwise disjoint, choices only of completed nodes, starts within the cap, failure flags and phases justified |
| SchedulerV2Safety.StartsOnlyWhenAllowed | backend/app/services/workflow/engine.py:1192-1223 | a node starts only while neither paused, stopping nor failing, unsettled, with settled dependencies none of which chose against it |
| SchedulerV2Steps.StartsExactly | backend/app/services/workflow/engine.py:1192-1223 | the step that creates tasks, told from edges and labels: it starts all idle nodes whose inbound edges are settled and not refused, or the first of them that the cap leaves room for, and then aborts; none while paused, stopping or failing |
| SchedulerV2.RejectsIff | backend/app/services/workflow/engine.py:1105-1114 | a decider turns a target away exactly when the label between them, without the blanks around it, is not empty and not among the chosen ones |
| SchedulerV2Safety.NoStartAfterHalt | backend/app/services/workflow/engine.py:1185-1192 | over any run: stopping and a fatal failure are never undone, and once the loop has seen either, no node starts again |
| SchedulerV2Safety.LeavesIdle | backend/app/services/workflow/engine.py:1225-1376 | the loop is left with nothing in flight unless a fatal failure cut it off |
| SchedulerV2Safety.StatusIsTrue | backend/app/services/workflow/engine.py:1389-1397 | FAILED exactly when a node failed or the engine aborted, cancellation aside; COMPLETED implies that completed, skipped and suppressed cover every node and failed is empty |
| SchedulerV2Requests.ParkedRunWaits | backend/app/services/workflow/engine.py:1157-1180 | over every run: paused at the head with nothing in flight, nothing but the flags of a deadline changes until a request other than a pause arrives |
| SchedulerV2Requests.DeadlineIsFatal | backend/app/services/workflow/engine.py:1157-1163 | over every run: once the head finds the deadline past, tasks in flight or not, nothing starts any more, and the run ends FAILED, cancellation aside |
| SchedulerV2Requests.FatalFailureEndsWaiting | backend/app/services/workflow/engine.py:1278-1376 | over every run: after a fatal failure only those that finished with it are looked at, and what is in flight on leaving the loop is cut off |
| SchedulerV2Requests.CancelEndsTheRun | backend/app/services/workflow/engine.py:1182-1183 | the head that finds a cancel ends the run CANCELLED, cutting off what is in flight and changing nothing else but the flags of a deadline |
| SchedulerV2Requests.StopIsNoted | backend/app/services/workflow/engine.py:1185-1186 | over every run: a stop is noted exactly by a head of the loop that finds it, uncancelled, before any fatal failure, and never forgotten |
| SchedulerV2Requests.StoppedRunNeverCompletes | backend/app/services/workflow/engine.py:1389-1397 | a run told to stop before it returns ends FAILED or CANCELLED, FAILED exactly when a node failed or the engine aborted |
| SchedulerV2Termination.StartsAreBounded | backend/app/services/workflow/engine.py:1206-1223 | in every run each back-edge fires at most its limit, and starts are at most nodes times one plus the sum of limits, and at most the cap |
| SchedulerV2Steps.FiresExactly | backend/app/services/workflow/engine.py:1333-1362 | a back-edge fires exactly when both ends have completed, its limit is not used up and the loop is to go on; it is then counted once more and exactly the nodes on walks from its target to its source, and those two, are reset |
| SchedulerV2Termination.WorkNeverRises | backend/app/services/workflow/engine.py:1155-1362 | a numeric measure falls whenever a task finishes and never rises |
| SchedulerV2Termination.FinishesAreBounded | backend/app/services/workflow/engine.py:1155-1362 | however the environment behaves, the number of finished tasks is bounded by the measure at the start |
| SchedulerV2Termination.InitialWork | backend/app/services/workflow/engine.py:1333-1362 | that measure in terms of nodes and limits |
| SchedulerV2Termination.ProductiveStepsEnd | backend/app/services/workflow/engine.py:1155-1362 | every step that is not a request, an empty wait or a parked turn lowers a measure |
| SchedulerV2Termination.RunLengthIsBounded | backend/app/services/workflow/engine.py:1155-1362 | every run, whatever the environment does, is no longer than its initial measure and three steps for each request, empty wait or parked turn in it |
| SchedulerV2Termination.UndisturbedRunIsShort | backend/app/services/workflow/engine.py:1155-1362 | in particular a run without such steps is no longer than its initial measure |
| SchedulerV2Termination.NeverStuck | backend/app/services/workflow/engine.py:1155-1362 | a run that has neither ended nor parked can always take a productive step, at most waiting for a task in flight |
| SchedulerV2Gating.AncestorsAreReady | backend/app/services/workflow/engine.py:1194-1205 | every transitive ancestor of a started node is completed or suppressed, and none is skipped |
| SchedulerV2Gating.SuppressKeepsGate | backend/app/services/workflow/engine.py:1119-1153 | suppression keeps every invariant for any order of deciders and of the cascade |
| SchedulerV2Gating.SkipKeepsGate | backend/app/services/workflow/engine.py:1304-1314 | skip_branch never skips a running, completed or failed node and leaves skipping closed under successors |
| SchedulerV2Gating.ResetKeepsGateIff | backend/app/services/workflow/engine.py:1344-1351 | resetting a loop body keeps the invariants exactly when no dependent of the body is running, no dependent outside it is started or suppressed, and nothing outside holds a node of the body back |
| SchedulerV2Gating.RunIsGatedIff | backend/app/services/workflow/engine.py:1155-1362 | a run, loops included, keeps the invariants throughout exactly when all its firings meet that condition |
| SchedulerV2Gating.ReachableStatesAreSound | backend/app/services/workflow/engine.py:1105-1153 | over every such run: ancestors of started nodes are ready, skipping is closed downstream and apart from started nodes, no suppressed node has completed or is running, no node whose dependency chose against it has started, and every inbound edge of a suppressed node is refused or comes from a suppressed or skipped source |
| SchedulerV2Loops.FiringIsSafeIff | backend/app/services/workflow/engine.py:1333-1362 | at a firing the condition comes down to one: no dependent outside the body has started or is suppressed |
| SchedulerV2Loops.SealedIsGated | backend/app/services/workflow/engine.py:1333-1362 | where no forward edge leaves a loop body, every run keeps the invariants in every state |
| SchedulerV2Loops.SealedIsGuarded | backend/app/services/workflow/engine.py:1333-1362 | and all its firings are safe |
| SchedulerV2Loops.ExitOnlyIsGuarded | backend/app/services/workflow/engine.py:1333-1362 | so it is where edges leave a loop body from its exit only and carry no label, and whether to go on depends on what the exit last produced |
| SchedulerV2Gating.UnsettledIsGated | backend/app/services/workflow/engine.py:1225-1253 | with nothing in flight, every unsettled node is, or is downstream of, an unsettled node that is ready or refused by a dependency |
| SchedulerV2Gating.SweepIsGated | backend/app/services/workflow/engine.py:1225-1253 | over every such run the stall sweep skips only nodes at or below a refused node, or, after a pause, a ready one |
| SchedulerV2Gating.SweepHitsReadyIffPaused | backend/app/services/workflow/engine.py:1166-1253 | the sweep skips a node that could run exactly when the run is paused and idle when tasks are to be created, and some node is ready |
| SchedulerV2Requests.SweepFollowsPause | backend/app/services/workflow/engine.py:1166-1253 | over every run: where the sweep takes a node that could run, a pause came after the head of the loop had seen the run not paused and before task creation |
| SchedulerV2Races.PauseRaceSkipsEverything | backend/app/services/workflow/engine.py:1166-1253 | a concrete run: one node, one pause, COMPLETED with nothing completed |
| SchedulerV2Cascade.CascadeIsSound | backend/app/services/workflow/engine.py:1139-1153 | in every order the cascade suppresses the newly gated nodes and nothing beyond the least set closed under being cut off; it is closed exactly when it is that set |
| SchedulerV2Cascade.CascadeIsCompleteIff | backend/app/services/workflow/engine.py:1139-1153 | in every state: all orders reach that whole set exactly when no chain of nodes waiting for each other is longer than the number of newly gated nodes above its first, or, where nothing is newly gated, when nothing had been missed before |
| SchedulerV2Races.CascadeOrderDecides | backend/app/services/workflow/engine.py:1144-1153 | two runs with the same actions: visiting the parent first suppresses the last node of a chain, visiting it second leaves that node ready |
| SchedulerV2Races.CompletionOrderDecides | backend/app/services/workflow/engine.py:1116-1153 | two runs in which the same tasks end the same way in another order: a node is skipped in the one and started in the other |
| SchedulerV2Races.FiringBreaksGate | backend/app/services/workflow/engine.py:1333-1362 | a run whose back-edge resets a node while a dependent outside the loop is running |
| SchedulerV2Races.FiringLosesChosenNode | backend/app/services/workflow/engine.py:1333-1362 | a run whose loop first turns a node away and then ends by choosing it: COMPLETED with that node still suppressed |
| SchedulerV2Refinement.V2RefinesV1 | backend/app/services/workflow/engine.py:1188-1397 | without back-edges, requests, timeout or a tight cap, and where every node turned away by a choice would have been skipped all the same, labels or none: the sets and the status are the ones the first scheduler must end with |
| SchedulerV2Refinement.V2MeetsFatesIff | backend/app/services/workflow/engine.py:1188-1397 | a calm run without a fatal failure ends with the fates exactly when that condition on choices holds, so all schedules do or none does |
| SchedulerV2Refinement.UnlabelledNeverSuppresses | backend/app/services/workflow/engine.py:1119-1137 | without labels nothing is ever suppressed, over every run, loops and requests included |
| SchedulerV2Forecast.ForecastExists | backend/app/services/workflow/engine.py:1105-1205 | every plan with a script has a forecast of the nodes that may run and those that choices may suppress |
| SchedulerV2Forecast.ForecastIsUnique | backend/app/services/workflow/engine.py:1105-1205 | and only one |
| SchedulerV2Forecast.AgreeableIsCertain | backend/app/services/workflow/engine.py:1119-1153 | where every node turned away would have been skipped all the same, the forecast is certain and holds exactly the nodes below no bad node |
| SchedulerV2Forecast.TameIsCertain | backend/app/services/workflow/engine.py:1119-1153 | so it is where no node turned away depends on a dead one and death does not spread beyond the dependents of nodes turned away |
| SchedulerV2Independence.RunMeetsForecast | backend/app/services/workflow/engine.py:1155-1397 | with a certain forecast every calm run starts forecast nodes only, and one that ends without a fatal failure has run all of them, split into completed and failed by their behaviour, with the status that follows |
| SchedulerV2Independence.OrderIsImmaterial | backend/app/services/workflow/engine.py:1155-1397 | if one calm run then ends without a fatal failure, no other calm run has one, and all that end do so with the same completed and failed sets and the same status |
| EngineV2.PreparePlan | backend/app/services/workflow/engine.py:999-1020 | a plan is made exactly from the workflows that pass validation |
| EngineV2.ExecutionRun.GatedOut | backend/app/services/workflow/engine.py:1105-1114 | exactly the targets whose label the decider did not choose |
| EngineV2.ExecutionRun.RecomputeSuppressed | backend/app/services/workflow/engine.py:1119-1153 | the new suppressed set is one the relation of the state machine allows, for any iteration order |
| EngineV2.ExecutionRun.StartReady | backend/app/services/workflow/engine.py:1192-1223 | the ready nodes get tasks, or as many as the execution cap leaves room for, and exceeding it aborts |
| EngineV2.ExecutionRun.FinishTask | backend/app/services/workflow/engine.py:1261-1324 | one finished task does to the fields what the state machine says |
| EngineV2.ExecutionRun.FireBackEdge | backend/app/services/workflow/engine.py:1333-1351 | a back-edge fires exactly under its conditions and then resets exactly its loop body |
| EngineV2.ExecutionRun.RunExecutionV2 | backend/app/services/workflow/engine.py:1155-1397 | whatever the environment does, the states the loop passes through form a run of the state machine; every turn is accounted for |
| BinaryHeap.RootIsLeast | backend/app/services/workflow/queue.py:131-135 | in a heap no entry comes before the root |
| BinaryHeap.SiftUp | backend/app/services/workflow/queue.py:106 | restores the heap above a risen entry and only rearranges |
| BinaryHeap.SiftDown | backend/app/services/workflow/queue.py:131-135 | restores the heap below a sunk entry and only rearranges |
| BinaryHeap.Heapify | backend/app/services/workflow/queue.py:180 | makes any entries a heap and only rearranges |
| WaitingLine.EveryRunIsSound | backend/app/services/workflow/queue.py:81-223 | over every run: the line is sorted, within the cap and holds one entry an id; each admission is waiting, dequeued, cancelled or cleared, exactly once; none is overtaken by a later one of equal or larger priority value |
| QueueOrder.PutLetsInIff | backend/app/services/workflow/queue.py:88-106 | over every run: a put of an id that is not waiting lets it in exactly when fewer than the maximum are waiting |
| QueueOrder.LengthIsHowManyWait | backend/app/services/workflow/queue.py:88-106 | the line is as long as the operations say there are ids waiting |
| QueueOrder.PopServesWhoAskedFirst | backend/app/services/workflow/queue.py:131-146 | over every run: a pop returns the id with the least requested priority among those waiting, and of those the one whose put came first |
| WaitingLine.PutTwice | backend/app/services/workflow/queue.py:88-99 | a second put of a waiting id changes nothing and returns the same entry exactly when the queue is below capacity |
| WaitingLine.LineIsUnique | backend/app/services/workflow/queue.py:190-197 | the entries of the heap have one sorted order |
| WaitingLine.PositionCountsPops | backend/app/services/workflow/queue.py:190-197 | position is k exactly when k pops on the unchanged queue return the id last |
| ExecutionQueue.ExecutionQueue.constructor | backend/app/services/workflow/queue.py:65-71 | an empty queue whose cap is at least one |
| ExecutionQueue.ExecutionQueue.Put | backend/app/services/workflow/queue.py:81-112 | full, the waiting entry, or a new entry behind everything before it; the heap, the id index and the counter stay in step with the line |
| ExecutionQueue.ExecutionQueue.PopReady | backend/app/services/workflow/queue.py:131-146 | takes the least entry, or none from an empty queue; marked entries would be passed over |
| ExecutionQueue.ExecutionQueue.Cancel | backend/app/services/workflow/queue.py:172-184 | removes exactly the entry of the id and makes a heap again, or answers false; no mark is left behind |
| ExecutionQueue.ExecutionQueue.Position | backend/app/services/workflow/queue.py:190-197 | the place in the sorted line, or none |
| ExecutionQueue.ExecutionQueue.Contains | backend/app/services/workflow/queue.py:186-188 | whether the id is in the line |
| ExecutionQueue.ExecutionQueue.Clear | backend/app/services/workflow/queue.py:217-223 | everything waiting is cleared and nothing else changes |
| RateLimiter.RateLimit.Dispatch | backend/app/core/middleware.py:412-474 | exempt paths change nothing; otherwise buckets and outcome are those of the step function, the identity chosen by path and the key built as text; above its room the table keeps no bucket idle for the current window |
| RateLimiter.DecisionIsExact | backend/app/core/middleware.py:436-443 | accepted iff the closed window of the full history holds fewer than the budget; a crash exactly without a budget and without hits |
| RateLimiter.ServeKeepsExactIff | backend/app/core/middleware.py:438-468 | a request keeps a bucket exact for a window iff it neither prunes nor evicts a hit still in that window |
| RateLimiter.RunIsExactIff | backend/app/core/middleware.py:438-468 | over every run and for any window: a bucket is exact after every request iff no request pruned or evicted a hit the window still needed |
| RateLimiter.EveryRunIsExact | backend/app/core/middleware.py:438-468 | under a monotone clock every bucket knows all that a window no longer than either budget's needs, eviction included |
| RateLimiter.DequeIsTheWindow | backend/app/core/middleware.py:436-464 | after a request its deque is the accepted history filtered to the closed window |
| RateLimiter.NoWindowOverflows | backend/app/core/middleware.py:436-468 | no closed window of the whole run, wherever it starts, holds more accepted requests of a bucket than the largest budget of those that share it |
| RateLimiter.EvictionForgets | backend/app/core/middleware.py:465-468 | 1026 calls on their paths from the empty table: with unequal windows two logins of one address are let in where the window has room for one, because 1024 visits from other addresses came between them |
| RateLimiter.SameKeyIff | backend/app/core/middleware.py:412-435 | exactly which clients share a bucket |
| RateLimiter.CountedTogetherIff | backend/app/core/middleware.py:412-435 | calls to credential paths are counted together by address, whatever they present, other calls by credential, from wherever they come, and across the two only where a credential spells the suffix out |
| RateLimiter.StrictIff | backend/app/core/middleware.py:412-419 | a credential path is one of those listed with anything behind it |
| RateLimiter.LoginsAreBounded | backend/app/core/middleware.py:428-464 | over every run of calls: no closed window lets in more logins from one address than the credential budget, however many credentials they try, nor more other calls with one credential than the general budget |
| RateLimiter.ForwardedAddressShares | backend/app/core/middleware.py:352-367 | an address that spells the suffix out shares its general bucket with the logins of the address without it |
| Sessions.EveryHistoryIsSafe | backend/app/services/security/auth_service.py:288-458 | in every interleaving: claims are of issued sessions, dead ever since and never repeated, and each login has at most one live session or unfinished winner |
| Sessions.LineageHoldsOne | backend/app/services/security/auth_service.py:361-410 | the number of live sessions plus claimed-but-not-reissued winners of a login is at most one |
| Sessions.RotatedAtMostOnce | backend/app/services/security/auth_service.py:377-388 | no two steps of any interleaving win the same session |
| Sessions.RevocationIsFinal | backend/app/services/security/auth_service.py:412-458 | a session that is revoked or purged is never live again |
| Sessions.RotationEndsAs | backend/app/services/security/auth_service.py:337-410 | in every interleaving: a rotation that finds its session used leaves the owner without a live one; one that issues or finds its owner inactive has read the session unexpired and spent it, and what it issues is one live session more of the same owner and login; any other ending changes no row |
| Sessions.LogoutEndsTheSession | backend/app/services/security/auth_service.py:412-433 | in every interleaving: after a logout ends, its session is dead for good, no other is touched, and it revokes only a session it met live |
| Sessions.EverythingStaysRevoked | backend/app/services/security/auth_service.py:435-447 | in every interleaving: revoking everything ends every session of the user and no other's, and with no winner under way only a login gives the user one again |
| Sessions.PurgeTakesTheOld | backend/app/services/security/auth_service.py:449-458 | in every interleaving: a purge takes exactly the sessions that expired more than a day before |
| Sessions.DormantUntilLogin | backend/app/services/security/auth_service.py:435-447 | with no live session and no winner under way, only a new login gives a user a live session |
| Sessions.RevokeAllMissesOnlyWinners | backend/app/services/security/auth_service.py:390-410 | right after revoking all, a statement other than a login can bring a session to life iff a winner is under way |
| Sessions.ReplayOutrunsTheWinner | backend/app/services/security/auth_service.py:390-410 | a concrete interleaving of two rotations in which the replay revokes everything and the winner's session survives |
| Sessions.RotationIsItsStatements | backend/app/services/security/auth_service.py:337-410 | a rotation nobody interrupts does what its statements do in sequence, in every outcome |
| Sessions.AuthService.RotateRefreshToken | backend/app/services/security/auth_service.py:337-410 | the table and the outcome of one rotation: unrecognised, expired, used, inactive and issued exactly as the row, the clock and the account say; after a replay the user has no live session, otherwise all other rows are as they were |
| Sessions.AuthService.RevokeRefreshToken | backend/app/services/security/auth_service.py:412-433 | true iff the session was live; afterwards it is not, and every other row is as it was |
| Sessions.AuthService.RevokeAllSessions | backend/app/services/security/auth_service.py:435-447 | exactly the live sessions of the user stop being live, the count is how many fewer are live, and every other row is as it was |
| Sessions.AuthService.PurgeExpiredSessions | backend/app/services/security/auth_service.py:449-458 | exactly the sessions expired for more than a day go, and the count is how many fewer there are |
| Streaming.EveryFeedIsConserved | backend/app/services/workflow/streaming.py:86-103 | over every run the queue is a suffix of what was offered, consumed plus dropped plus queued is what was offered, and consumed events come in order |
| Streaming.RingReplaysAllIff | backend/app/services/workflow/streaming.py:226-234 | the ring replays every newer event exactly when none of them had left it |
| Streaming.EveryRunIsTracked | backend/app/api/routers/execution_router.py:312-351 | over every run, what a client received and has queued is its replay followed by all that was published while it listened |
| Streaming.StreamIsSeamlessIff | backend/app/api/routers/execution_router.py:312-351 | with nothing dropped, a client gets every newer event once and in order iff nothing was published between subscribing and replaying, the ring covered its position, and the first event heard live was newer |
| Streaming.BetweenIsSentTwice | backend/app/api/routers/execution_router.py:312-351 | subscribing, one event, replaying: that event has been sent and waits in the queue again |
| Streaming.ReceivesConsecutiveNumbers | backend/app/api/routers/execution_router.py:312-351 | a client resuming after k then receives k+1, k+2, ... through the switch from replay to live |
| Streaming.NumbersAreDrawnOnce | backend/app/services/workflow/streaming.py:177-180 | the last number drawn is the number of events published plus that of synthetic frames |
| Streaming.EveryStreamEndsProperly | backend/app/api/routers/execution_router.py:314-351 | an open client has not been shown the end; a client that got the synthetic frame was never shown the real one |
| Streaming.EndIsQueuedIff | backend/app/api/routers/execution_router.py:341-351 | an open client whose stream is seamless has the end in its queue exactly when the end was published after its position |
| Streaming.ReadingEnds | backend/app/api/routers/execution_router.py:341-351 | a client with the end in its queue closes by reading what it has |
| Streaming.ReplayClosesIff | backend/app/api/routers/execution_router.py:314-339 | the replay closes the stream exactly when the end was published after the client's position or the execution is already over |
| Streaming.DisconnectIsFinal | backend/app/api/routers/execution_router.py:341-356 | a client that disconnects while it listens has heard all it ever will |
| Broker.Subscription.Offer | backend/app/services/workflow/streaming.py:86-103 | the newest event goes in, the oldest goes out when full, and the drop is counted |
| Broker.ExecutionBroker.Announce | backend/app/services/workflow/streaming.py:182-224 | taken as one step: the next number, the ring with the event, and every follower offered it once |
| Broker.ExecutionBroker.ReplayEvents | backend/app/services/workflow/streaming.py:226-234 | exactly the buffered events newer than the given number |
| Broker.ExecutionBroker.Subscribe | backend/app/services/workflow/streaming.py:141-153 | one more follower, with an empty inbox of the asked or configured size |
| Broker.ExecutionBroker.Unsubscribe | backend/app/services/workflow/streaming.py:155-164 | that follower alone is gone |
| Broker.ExecutionBroker.Cleanup | backend/app/services/workflow/streaming.py:347-356 | ring and numbering are dropped exactly when nobody follows the execution |
| Broker.EventStream.Subscribe | backend/app/api/routers/execution_router.py:312 | the class keeps showing the state of the machine after one more action, subscribing |
| Broker.EventStream.Announce | backend/app/services/workflow/streaming.py:182-224 | so it does when the execution publishes, the client listening or not |
| Broker.EventStream.Backfill | backend/app/api/routers/execution_router.py:314-356 | so it does after replay, terminal check and synthetic frame; if that ends the stream, it unsubscribes and cleans up |
| Broker.EventStream.Next | backend/app/api/routers/execution_router.py:341-356 | so it does after one live frame; the terminal one unsubscribes and cleans up |
| Broker.EventStream.Close | backend/app/api/routers/execution_router.py:354-356 | the follower is gone, and ring and numbering with it exactly when it was the last |
| GraphAdapter.SerializeGraph | frontend/src/stores/graphAdapter.ts:50-84 | ordinals, nodes with their gaps filled, and exactly the attached edges in order |
| GraphAdapter.ResolveIds | frontend/src/stores/graphAdapter.ts:92-102 | each editor id goes to the database's id for its ordinal, or stays with the ordinal where the database gives none |
| GraphAdapter.GraphStore.ReplaceGraph | backend/app/api/routers/workflow_router.py:178-265 | too many nodes, unknown types and invalid graphs are refused in that order and leave the store alone; accepted payloads replace it whole, or stop at the first edge that names no node |
| GraphAdapter.StrandedIff | backend/app/api/routers/workflow_router.py:201-265 | an accepted payload stops half-way iff no node carries an id and some edge names neither a position nor a drawn id |
| GraphAdapter.LoneNodeIsStranded | backend/app/api/routers/workflow_router.py:201-265 | such a payload: one node without an id and an edge from 5 to 6 |
| GraphAdapter.EdgesJoinIff | backend/app/api/routers/workflow_router.py:221-247 | where some nodes carry ids, every stored edge joins the rows of the nodes it names iff no named id is the position of a later node without one |
| GraphAdapter.PositionOverwritesId | backend/app/api/routers/workflow_router.py:221-247 | an accepted payload whose edge is stored between other nodes than it names |
| GraphAdapter.EditorIsNeverStranded | backend/app/api/routers/workflow_router.py:201-265 | what the editor sends never stops half-way |
| GraphAdapter.EditorIsAcceptedIff | backend/app/api/routers/workflow_router.py:187-216 | what the editor sends is accepted exactly when its nodes are few enough and of known types and, numbered from one, make a plan with the attached edges |
| GraphAdapter.RenamingIsInjective | frontend/src/stores/graphAdapter.ts:92-102 | different nodes get different new ids |
| GraphAdapter.RenamedAt | frontend/src/stores/graphAdapter.ts:92-102 | every node is renamed to the id the database drew for it |
| GraphAdapter.NodeComesBack | frontend/src/stores/graphAdapter.ts:50-126 | after saving and fetching, each node comes back in its place and renamed, with its own label, or else its type, or else its number; a position or configuration that was there is kept, and nothing else changed |
| GraphAdapter.EdgesComeBack | frontend/src/stores/graphAdapter.ts:68-134 | edges between known nodes come back in order with renamed ends; every branch handle comes back as it was, and none exactly when it was missing or empty |
| GraphAdapter.OnlyDanglingEdgesAreLost | frontend/src/stores/graphAdapter.ts:68-83 | an edge is kept iff both its ends are ids of nodes in the graph; nothing is lost iff no edge dangles |
| GraphAdapter.FilledIffComplete | frontend/src/stores/graphAdapter.ts:59-67 | filling gaps changes a node exactly when it had any |
| GraphAdapter.SecondTripOnlyRenames | frontend/src/stores/graphAdapter.ts:50-134 | nodes that went through once change nothing but their ids the next time |
| GraphAdapter.SecondTripKeepsEdges | frontend/src/stores/graphAdapter.ts:50-134 | the second trip keeps every edge and its handle, and renames its ends with the nodes |

## Left out

- Persistence, event-bus publishing and logging inside the schedulers: they mirror the node sets.
- Hard cancellation inside a task, engine exceptions, retries, the parallelism semaphore and node timeouts: folded into
  the outcome of a node, the timeout flag and the cancelled exit.
- SchedulerV2Independence.OrderIsImmaterial: a certain forecast is enough, not necessary. A node that is turned away by
  one dependency and waits for another to be suppressed makes a forecast uncertain even where it can never go.
- SchedulerV2Safety.StartsOnlyWhenAllowed: the head of the loop reads timeout, pause, cancel and stop in one step, and
  task creation reads the pause flag in another. The source reads the flags of the head one after the other, so a
  request between two of those reads falls before or after all of them here.
- Control.ControlHandle.TotalPausedSeconds: the rounding to milliseconds.
- The `iteration` number passed to nodes.
- EngineV2.ExecutionRun.RunExecutionV2: takes a number of turns, because a parked or waiting loop need not end; bounds
  on productive steps are in `SchedulerV2Termination`.
- ExecutionQueue.ExecutionQueue.PopReady: the exact array layout of the library heap is not modelled, only that it is a
  heap; entries carry no metadata and no waiting time, and the wake-up event is left out.
- The worker pool's counters of active, completed and failed executions, and its shutdown.
- RateLimiter.RateLimit.Dispatch: canonical paths and the credential and address identities are inputs; the
  Retry-After value and the response headers are left out.
- RateLimiter.EveryRunIsExact: longer windows than either budget's are not exact on every run; `RunIsExactIff` has the
  condition.
- Password hashing, token encoding, user lookup and the access token: a token is its id hash or does not decode, and
  whether the account is active is an input.
- Sessions.AuthService.RotateRefreshToken: one clock reading and a fresh token id are inputs; the interleaved form reads
  the clock at every statement.
- Broker.ExecutionBroker.Announce: drawing the number, buffering and offering are one step, and delivery from other
  threads is not delayed.
- Streaming.StreamIsSeamlessIff: between cleanups; a cleanup between reading that an execution is over and subscribing
  to it is outside the machine.
- Heartbeats, log buffers, log sequence numbers and log persistence.
- GraphAdapter.EdgesComeBack: edge ids are replaced by the database's, blank handles are dropped and target handles are
  not carried, as in the code.
- GraphAdapter.GraphStore.ReplaceGraph: node and edge ids are the database's choice; rows are listed in the order they
  were created, which is the order of their ids. Configurations and retry policies are opaque texts.
- GraphAdapter.SerializeGraph: ids that name inherited members of a JavaScript object are not treated specially.
- HTTP routing, access control, settings, migrations, metrics, node executors and user interface components.
