# PDES-MAS: a verified model

PDES-MAS is an optimistic distributed simulator. Agents live on agent processes (ALPs) and read and write shared
state variables (SSVs). The variables are held by communication processes (CLPs) that form a binary tree numbered like
a heap; ALPs hang off the tree. Agents run ahead speculatively. A write that arrives late invalidates reads, the readers
are rolled back, they take their own requests back with anti-messages, and global virtual time (GVT) tells everybody
what can no longer be undone.

This project models that machinery in Dafny and proves what it is for. `dafny verify dfyconfig.toml` checks it.

## How it is laid out

The classes of the program are classes here, with the same fields changed in place and the same branches. Each of their
methods is proved against a function on values; the theorems are then about those functions, over all inputs, all runs
and all message orders.

* **Variables in time.** `LpIds`, `WritePeriods`, `Timelines`, `StateVariables`, `SharedStates` are the data structures
  (`Filters` holds sequence lemmas). `ReadLedger` accounts for every read, `Histories` shows that the list of periods
  refines a map from time to write, `SameTimeWrites` and `FossilCollection` treat contested times and truncation,
  `Migration` the rebuilding of a variable elsewhere.
* **Routing.** `Trees` has distance, next hop and path; `ForwardingTables`, `RouteTables` and `Routers` build the tables
  and deliver messages by them. `Arrows` is the state machine of variables moving over edges, `Requests` follows a request
  while they move, `Clps` has the handlers that carry out the moves.
* **Range queries.** `RangeTrackers` and `RangeQueries` are the bookkeeping and the handler, `RangeEcho` and
  `RangeAnswers` the echo over the whole tree under every interleaving. `Ranges` is the geometry that prunes it.
* **Global virtual time.** `Gvt` counts white messages, `GvtRounds` is a round up to the first cut, `GvtCounters` decides
  what makes it safe, `GvtExamples` has two runs that are not, `GvtCalculators` is the class. `EndFlood` is the flood of end messages.
* **Rollback at the ALP.** `AlpRollbacks` has the classes, `AlpLedgers` the balance of requests and anti-messages.
* **Load.** `AccessCosts` decides which variables move where.

## What the proofs found

Where the code does not do what its purpose asks for, the model keeps the code, a lemma names an input, and another
states for all inputs when the code is right.

* Comparison of process identifiers requires id *and* rank to differ the same way, so two agents of one process are one
  key (`LpIds.ChainIsExactlyWhatMapsNeed`). A rollback list therefore forgets readers
  (`WritePeriods.EveryReaderIsChargedIff`). Simultaneous writes of one process depend on arrival order
  (`SameTimeWrites.SameProcessWritesDoNotConverge`); writes at one time converge exactly if one agent exceeds all others
  (`SameTimeWrites.SameTimeWritesConvergeIff`).
* A write rollback looks only at the first period of its time, so the winner of a contested time cannot take its write
  back, and another agent that shares just the writer's id or rank can (`Histories.AntiWriteCancelsExactly`).
* After a migration rollbacks are stamped one later than the entry. A read is lost exactly if no period that starts before
  it has served its reader (`Migration.MigrationRollbackReachesReadIff`).
* While a variable moves, requests for it bounce on that edge (`Arrows.RequestWaitsOnTheEdge`); none is lost, and all are
  processed once it rests (`Requests.RequestArrivesThroughMoves`).
* A range query hangs exactly if some visited CLP lacks a range period on a target port
  (`RangeAnswers.QueryIsAnswered`).
* Handlers only queue their messages; colour and counters follow when the send thread takes them, and a cut may come in
  between and see neither. An absent message counter reads as -1, and the starter of a round only looks at ranks it has
  counters for. Announced times are safe exactly if every LP starts the round with a counter for every rank *and* cuts
  wait for empty send queues (`GvtCounters.SafeIffEnoughCounters`). The program does neither: a calculator begins without
  counters and gains them only for itself and for ranks it sends to (`GvtExamples.MissingCounterBreaksSafety`), and a cut
  does not look at the queue (`GvtExamples.QueuedRollbackBreaksSafety`).
* End messages and range queries take every CLP below N/2 for one with two children, which is right exactly for odd N
  (`EndFlood.StaysAmongClpsIff`, `RangeEcho.TargetsAreClpsIff`).
* The leaf test rounds a logarithm; it is right exactly if N+1 or N+2 is a power of two
  (`AccessCosts.LeafTestIsRightIff`).
* The overlap test misses boxes that cross (`Ranges.OverlapTestFailsIff`). The running maximum can turn into its own "no
  point" sentinel; the box is tight in every order exactly if an axis stays below the maximum or there are two points at
  most (`Ranges.TightInEveryOrderIff`).

## What the theorems assume

* Times of requests lie below `LONG_MAX`. A period is open if it ends at `ULONG_MAX` or `LONG_MAX`; the code uses both.
* The map from time to write needs distinct write times after the first period; contested times are treated apart.
* A CLP's children and attached ALPs number at most two, as there are four ports. The number of CLPs is at most 2^31 - 1
  for the route table, odd for the range-query echo and the flood of end messages, 2^k - 1 for the migration map, and
  arbitrary elsewhere. For the flood the ALPs are at CLPs without children.
* A GVT round starts with all LPs white, no red message under way and no time of an earlier round still to arrive; the
  send queues may hold messages. A handler neither queues nor falls below the lesser of the LP's time and the time of the
  message it consumes. Taking a message from the queue, stamping it and handing it over is one step; in between it counts
  as queued. An LP's count for itself is never positive, as the code asserts. The safety of an announced time needs
  counters for every rank and cuts that find the queues empty; the code ensures neither.
* Agents' identifiers form a chain where a lemma speaks of the one entry of a reader in a rollback list.
* An access is counted for the port through which the ALP of its agent is reached.

## Model

| member | source | states |
|---|---|---|
| `LpIds.ChainIsExactlyWhatMapsNeed` | src/lp/LpId.cpp:32-54 | A set of identifiers is told apart by a map keyed with `<` if and only if id and rank increase together on it; on such a set `!=`, `<` and `>` mean what they say |
| `LpIds.OperatorsNeedBothFields` | src/lp/LpId.cpp:32-54 | `>` is `<` turned round, and where id or rank agree none of `<`, `>` and `!=` holds |
| `LpIds.SameRankIsOneKey` | src/lp/LpId.cpp:36-46 | Two agents of one process are one map key, are not `!=` and neither is `>` the other |
| `WritePeriods.RollbackList.AddLp` | src/lp/RollbackList.cpp:24-39 | After charging a reader, the entry found for it is at most its time, is the time of something charged, and no other entry changed |
| `WritePeriods.RollbackList.SendRollbacks` | src/lp/RollbackList.cpp:41-61 | One message for each entry, from here to the process of its agent, stamped with its time; the list is empty afterwards |
| `WritePeriods.RollbackList.SendRollbacksAfterStateMigration` | src/lp/RollbackList.cpp:63-83 | The same with every message stamped one later |
| `WritePeriods.ChargedOnAChain` | src/lp/RollbackList.cpp:24-39 | On a chain of identifiers, after any sequence of charges an agent has an entry exactly if it had one or was charged, and it is the minimum of the old entry and the charged times |
| `WritePeriods.ChargedTransitive` | src/lp/RollbackList.cpp:24-39 | Charging in two rounds is charging with both rounds together, whatever the identifiers |
| `WritePeriods.EveryReaderIsChargedIff` | src/lp/RollbackList.cpp:24-39 | Every invalidated reader has an entry under its own name if and only if no two of the readers are the same map key |
| `WritePeriods.SecondReaderOfAProcessIsNotCharged` | src/lp/RollbackList.cpp:24-39 | Counterexample: of two readers of one process one never gets a rollback message |
| `WritePeriods.WritePeriod.constructor` | src/state/WritePeriod.cpp:13-19 | A new period is open-ended at the greatest unsigned number and has served no read |
| `WritePeriods.WritePeriod.Copy` | src/state/WritePeriod.cpp:21-30 | A copied period equals the one it is copied from |
| `WritePeriods.WritePeriod.Read` | src/state/WritePeriod.cpp:76-79 | The value is returned and the read added to those served; nothing else changes |
| `WritePeriods.WritePeriod.RemoveReadsBefore` | src/state/WritePeriod.cpp:81-87 | Exactly the reads at or after the time stay recorded, in order |
| `WritePeriods.WritePeriod.RemoveReadsAfterInclusive` | src/state/WritePeriod.cpp:89-97 | Exactly the reads before the time stay recorded and exactly the others are charged, at their own times |
| `WritePeriods.WritePeriod.RemoveReadsByAgent` | src/state/WritePeriod.cpp:99-106 | All copies of the named read go, nothing else |
| `WritePeriods.WritePeriod.RemoveAllReads` | src/state/WritePeriod.cpp:108-114 | No read stays recorded and every reader is charged at the given time |
| `Timelines.Find` | src/state/StateVariable.cpp:78-101 | The last period that starts at or before the time, or none |
| `Timelines.FindExact` | src/state/StateVariable.cpp:197-207 | The first period that starts at the time, or none |
| `Timelines.StartsAreOrdered` | src/state/StateVariable.cpp:117-186 | Under the invariant periods are ordered and do not overlap |
| `Timelines.RecordedReadIsCurrent` | src/state/StateVariable.cpp:78-115 | Under the invariant the period holding a recorded read is the one a lookup at its time finds |
| `Timelines.ReadKeepsGood` | src/state/StateVariable.cpp:78-101 | A read keeps the invariant (contiguous ordered periods, reads inside their period, the last period open) |
| `Timelines.WriteKeepsGood` | src/state/StateVariable.cpp:117-186 | So does a write, whether appended, spliced in, made at a contested time or refused |
| `Timelines.ReadRollbackKeepsGood` | src/state/StateVariable.cpp:188-195 | So does a read rollback |
| `Timelines.WriteRollbackKeepsGood` | src/state/StateVariable.cpp:197-293 | So does a write rollback at any place of the list, with the signed or the unsigned sentinel at its end |
| `Timelines.TruncateKeepsGood` | src/state/StateVariable.cpp:38-68 | So does fossil collection |
| `ReadLedger.NoStaleRead` | src/state/StateVariable.cpp:38-293 | In every state that reads, writes, read rollbacks, write rollbacks and truncations reach, the invariant holds and every recorded read is held by the period a lookup at its time finds |
| `ReadLedger.AntiReadFindsItsRead` | src/state/StateVariable.cpp:188-195 | After an anti-read no copy of the read it names is recorded anywhere |
| `ReadLedger.AntiReadTakesNoOther` | src/state/StateVariable.cpp:188-195 | And no copy of any other read goes |
| `ReadLedger.ReadAccounting` | src/state/WritePeriod.cpp:76-114 | Over every run the reads issued are, as a multiset, those still recorded, charged, undone by an anti-read and cut off by truncation |
| `ReadLedger.LedgerClasses` | src/state/WritePeriod.cpp:76-114 | A read is charged to its reader by a write or an anti-write of the run that is no later than the read: at its own time for a write, at the time of the anti-write otherwise; an undone read was named by an anti-read of the run; a cut-off one lies before the time of a truncation of the run |
| `ReadLedger.TruncateDropsThePast` | src/state/StateVariable.cpp:38-68 | Truncation drops only reads from before its time |
| `ReadLedger.InvalidatedReadsAreRolledBack` | src/lp/RollbackList.cpp:24-39 | After any run, the rollback list that a request leaves has, for every read it invalidates, an entry of the reader no later than the read, if the readers form a chain |
| `Histories.LookupAnswersHistory` | src/state/StateVariable.cpp:103-115 | A lookup at every time returns the latest live write at or before it, with the time of the next live write as its end |
| `Histories.AnswersAreUnique` | src/state/StateVariable.cpp:103-115 | A history determines the answer of every lookup |
| `Histories.SameHistorySameLookups` | src/state/StateVariable.cpp:103-115 | Two lists with one history answer every lookup alike |
| `Histories.WriteAddsToHistory` | src/state/StateVariable.cpp:117-186 | A write that is not refused adds or replaces just its own time in the history |
| `Histories.RunRefinesHistory` | src/state/StateVariable.cpp:78-293 | Any run of reads, writes and anti-messages with fresh write times changes the list as it changes the map from time to write, and lookups answer that map |
| `Histories.UndoneWriteLeavesNoTrace` | src/state/StateVariable.cpp:197-293 | A write taken back by its anti-message is as if never made, for every lookup and whatever came before, between and after |
| `Histories.ArrivalOrderIsIrrelevant` | src/state/StateVariable.cpp:117-186 | Writes at distinct times give the same lookups in whatever order they arrive |
| `Histories.AntiWriteCancelsExactly` | src/state/StateVariable.cpp:197-293 | A write rollback removes exactly its time from the history if and only if the time has one period and its writer does not differ from the sender in both id and rank; otherwise the history is unchanged |
| `Histories.RelativeCancelsTheWrite` | src/lp/LpId.cpp:36-38 | Counterexample: an agent that shares just the rank, or just the id, with the writer takes the write back |
| `Histories.ContestedWriteCannotBeTakenBack` | src/state/StateVariable.cpp:197-207 | Counterexample: with two writes at one time the winner's anti-message changes nothing |
| `SameTimeWrites.WriteAtContestedTime` | src/state/StateVariable.cpp:148-185 | A write at an occupied time keeps the greater agent's write current |
| `SameTimeWrites.GreatestAgentWins` | src/state/StateVariable.cpp:148-185 | If one of the writes at a time comes from an agent greater than all others, the history holds that write at the time and nothing else changed, in whatever order they came |
| `SameTimeWrites.SameTimeWritesConverge` | src/state/StateVariable.cpp:148-185 | Then all arrival orders agree on every lookup, and no zero-length period keeps a read |
| `SameTimeWrites.SameTimeWritesConvergeIff` | src/state/StateVariable.cpp:148-185 | All arrival orders of writes at one time agree on every lookup if and only if one of them comes from an agent greater than all others, by the operator of the code |
| `SameTimeWrites.ChainHasGreatest` | src/lp/LpId.cpp:40-46 | Distinct agents on a chain always have a greatest one |
| `SameTimeWrites.SameProcessWritesDoNotConverge` | src/lp/LpId.cpp:40-46 | Counterexample: two agents of one process are unordered and the last arrival wins |
| `FossilCollection.TruncationKeepsLookups` | src/state/StateVariable.cpp:38-68 | Cutting at a time changes no lookup at or after it |
| `FossilCollection.TruncationKeepsReads` | src/state/StateVariable.cpp:38-68 | Nor the number of copies of any recorded read at or after it |
| `FossilCollection.TruncationCommutesWithWrite` | src/state/StateVariable.cpp:38-186 | Cutting and then writing later than the cut gives the same list, and invalidates the same reads, as writing and then cutting |
| `FossilCollection.TruncationCommutesWithWriteRollback` | src/state/StateVariable.cpp:38-293 | The same for write rollbacks later than the cut |
| `Migration.ReplayRebuildsIff` | src/state/SharedState.cpp:48-99 | Replaying the periods of an ordered list rebuilds it without its reads if and only if no write at a contested time is followed by one of a lesser agent; then nobody is charged |
| `Migration.ReachableTiesAreOrdered` | src/state/StateVariable.cpp:148-185 | Every list that a run by agents on a chain reaches meets that condition |
| `Migration.RollbackEmptiesTheSource` | src/state/SharedState.cpp:285-330 | Rolling back the copied periods in order empties the source, whatever the list |
| `Migration.EveryReadIsCharged` | src/state/SharedState.cpp:285-330 | Every recorded read is charged to its reader at a time no later than the read |
| `Migration.MigrationPreservesHistory` | src/lp/Clp.cpp:637-693 | Source empty, all readers charged in time, and at the destination every lookup answers as before and no read is recorded |
| `Migration.MigrationRollbackReachesReadIff` | src/lp/RollbackList.cpp:63-83 | For readers on a chain: the rollbacks a migration sends take the reader of a recorded read back far enough if and only if some period that starts before that read has served this reader |
| `Migration.ChargesAreStarts` | src/state/SharedState.cpp:285-330 | A reader is charged with exactly the start times of the periods that served it |
| `Migration.MigrationLosesReadAtWriteTime` | src/lp/RollbackList.cpp:63-83 | Counterexample: a read at the very time of the write is not rolled back by the migration, and no later write rollback charges it either |
| `StateVariables.StateVariable.AddWritePeriod` | src/state/StateVariable.cpp:34-36 | The list grows by one open period at its end |
| `StateVariables.StateVariable.Locate` | src/state/StateVariable.cpp:78-92 | The backward search ends at the period that is current at the time |
| `StateVariables.StateVariable.LocateExact` | src/state/StateVariable.cpp:197-207 | The forward search ends at the first period of exactly that time |
| `StateVariables.StateVariable.Read` | src/state/StateVariable.cpp:78-101 | The value current at the time, with the read recorded in that one period; none where the process exits |
| `StateVariables.StateVariable.ReadWithoutRecord` | src/state/StateVariable.cpp:103-115 | The same value and the end of its period, without changing anything |
| `StateVariables.StateVariable.WriteWithRollback` | src/state/StateVariable.cpp:117-186 | The in-place list becomes the list the specification gives, the status says whether the write was refused, and exactly the readers it lists are charged |
| `StateVariables.StateVariable.PerformReadRollback` | src/state/StateVariable.cpp:188-195 | The read is removed from the period current at its time |
| `StateVariables.StateVariable.PerformWriteRollback` | src/state/StateVariable.cpp:197-293 | The named period is merged into the one before it (or dropped from the front) and its readers charged; another agent's period or no period changes nothing |
| `StateVariables.StateVariable.RemoveWritePeriods` | src/state/StateVariable.cpp:38-68 | The list is cut at the time, by the two-stage erase of the code |
| `StateVariables.StateVariable.GetCopy` | src/state/StateVariable.cpp:15-20 | The copy carried by a message is the list as a value |
| `SharedStates.SharedState.Add` | src/state/SharedState.cpp:33-46 | A new variable gets one period; an existing one makes the process exit and nothing changes |
| `SharedStates.SharedState.Insert` | src/state/SharedState.cpp:48-99 | An incoming variable becomes the replay of its periods, with the charges of that replay, and no other variable changes |
| `SharedStates.SharedState.Replay` | src/state/SharedState.cpp:48-99 | The replay loop performs the writes of the copy in order and charges what they charge |
| `SharedStates.SharedState.GetCopy` | src/state/SharedState.cpp:114-120 | The list of the variable; none where the process exits |
| `SharedStates.SharedState.Delete` | src/state/SharedState.cpp:101-112 | Just this variable goes |
| `SharedStates.SharedState.RemoveWritePeriodList` | src/state/SharedState.cpp:285-330 | The variable is left without periods, every reader is charged, no other variable changes |
| `SharedStates.SharedState.RemoveWritePeriods` | src/state/SharedState.cpp:277-283 | Every variable is cut at the time, in whatever order they are visited |
| `Trees.WalksAreNoShorter` | src/routing/ForwardingTable.cpp:31-41 | No walk along tree edges is shorter than the distance, and one of that length starts with the next hop |
| `Trees.PathIsShortestWalk` | src/routing/ForwardingTable.cpp:31-41 | The tree path is a walk of exactly the distance |
| `Trees.NextHopIsCloser` | src/routing/ForwardingTable.cpp:31-41 | The next hop is a neighbour one step closer |
| `Trees.OtherNeighboursAreFurther` | src/routing/ForwardingTable.cpp:31-41 | Every other neighbour is one step further away, so the path is unique |
| `Trees.EdgeSplits` | src/routing/ForwardingTable.cpp:31-41 | Every rank lies behind exactly one of the two ends of an edge |
| `Trees.PathStaysInTree` | src/routing/ForwardingTable.cpp:31-41 | Paths between ranks below N stay below N, for every N |
| `ForwardingTables.ForwardingTable.constructor` | src/routing/ForwardingTable.cpp:13-18 | For every rank and every N the table has an entry for exactly the ranks below N, with the tree distance and the first rank of the path |
| `ForwardingTables.ForwardingTable.WalkTree` | src/routing/ForwardingTable.cpp:31-41 | The recursive walk terminates and enters exactly what lies beyond the edge it crosses, keeping the other entries |
| `ForwardingTables.ForwardingTable.GetRoutingInfo` | src/routing/ForwardingTable.cpp:24-29 | The entry of a rank if there is one |
| `ForwardingTables.AllWalked` | src/routing/ForwardingTable.cpp:13-41 | A completed walk from a CLP has exact distances and next hops for all ranks |
| `RouteTables.RouteTable.constructor` | src/routing/RouteTable.cpp:19-85 | Every CLP and ALP rank and every placed variable has the port of the tree path to it, and behind every port is the neighbour of that path, provided children and attached ALPs fit the four ports |
| `RouteTables.RouteTable.AddVariables` | src/routing/RouteTable.cpp:22-45 | Every placed variable gets the port towards the CLP that lists it first |
| `RouteTables.RouteTable.FindPort` | src/routing/RouteTable.cpp:28-42 | The comparison of the next rank with parent and children, in unsigned arithmetic at the root, always finds the port towards the host |
| `RouteTables.RouteTable.AddNeighbours` | src/routing/RouteTable.cpp:47-61 | The running direction gives every neighbour the port of its place in the tree, and ends at the first free port |
| `RouteTables.RouteTable.AddFarClps` | src/routing/RouteTable.cpp:62-72 | Every other CLP gets the port of the neighbour its path starts with |
| `RouteTables.RouteTable.AddAlps` | src/routing/RouteTable.cpp:73-84 | Attached ALPs get the free ports, one each; other ALPs get the port of their CLP |
| `RouteTables.RunningStep` | src/routing/RouteTable.cpp:47-61 | The running direction is the port of the neighbour it is given to, for every N and rank |
| `RouteTables.RouteTable.GetDirectionFromSsvId` | src/routing/RouteTable.cpp:87-92 | The port of a variable; DIRECTION_SIZE if unknown |
| `RouteTables.RouteTable.GetDirectionFromRank` | src/routing/RouteTable.cpp:94-99 | The port of a rank; none where the process exits |
| `RouteTables.RouteTable.GetRankFromDirection` | src/routing/RouteTable.cpp:101-106 | The rank behind a port; none where the process exits |
| `RouteTables.RouteTable.SetSsvIdHost` | src/routing/RouteTable.cpp:108-110 | Just the entry of this variable changes |
| `Routers.Router.RouteToVariable` | src/routing/Router.cpp:26-46 | The message stays if the variable is here, and otherwise gets the rank behind the variable's port as destination |
| `Routers.Router.RouteToAgent` | src/routing/Router.cpp:19-24 | A response or rollback gets the rank behind the port of the agent's ALP |
| `Routers.Router.RouteMigration` | src/routing/Router.cpp:55-58 | A migration message stops at the CLP it was sent to |
| `Routers.TripFollowsThePath` | src/routing/Router.cpp:19-88 | Hop by hop a message is, after k hops, at the k-th rank of the tree path |
| `Routers.VariableRequestArrives` | src/routing/Router.cpp:26-81 | A variable request is at its host after exactly the tree distance and is processed there and not before |
| `Routers.AgentMessageArrives` | src/routing/Router.cpp:19-88 | A response or rollback reaches its ALP after the tree distance plus one, and no CLP on the way takes it |
| `Arrows.InitiallyLocated` | src/routing/RouteTable.cpp:25-45 | The tables as built locate every placed variable |
| `Arrows.MoveSends` | src/lp/Clp.cpp:637-693 | A sent-off variable is in one message whose receiver still points back to the sender, and all other CLPs point towards the receiver |
| `Arrows.ArriveDelivers` | src/lp/Clp.cpp:607-635 | On arrival every CLP points towards the receiver, which holds the variable |
| `Arrows.OthersStayLocated` | src/lp/Clp.cpp:607-693 | A step leaves the location of every variable it does not move |
| `Arrows.ArrowsOverRuns` | src/lp/Clp.cpp:607-693 | After any number of moves every variable is at exactly one CLP or in exactly one message, and every arrow but the receiver's points one step closer to it |
| `Arrows.RequestReachesVariable` | src/routing/Router.cpp:26-81 | With no move between its hops, a request reaches a settled variable in exactly the tree distance, wherever earlier moves have put it |
| `Arrows.RequestWaitsOnTheEdge` | src/routing/Router.cpp:26-81 | As long as the variable stays under way a request reaches the receiver and then goes back and forth over that edge; it is neither lost nor processed elsewhere |
| `Requests.HopFits` | src/routing/Router.cpp:26-81 | Wherever the variable is, a hop leads to a CLP of the tree, and a CLP processes the request if and only if it holds the variable |
| `Requests.RequestIsNeverLost` | src/routing/Router.cpp:26-81 | However hops and moves alternate, the request is at one CLP until a CLP that holds the variable at that moment processes it |
| `Requests.RequestArrivesThroughMoves` | src/routing/Router.cpp:26-81 | And from any state so reached, once the variable has come to rest the request is processed there after its tree distance |
| `Arrows.ReplayKeepsHistory` | src/state/SharedState.cpp:48-99 | The replay at the destination keeps the lookups of a list with ordered ties |
| `Arrows.MovesKeepHistory` | src/lp/Clp.cpp:607-693 | However often a variable has moved it answers every lookup as before the first move |
| `Clps.Clp.constructor` | src/lp/Clp.cpp:19-87 | A CLP starts with exactly the variables placed at it, each with one open period of its value by agent (0, 0), and with exact tables |
| `Clps.Clp.MigrateStateVariables` | src/lp/Clp.cpp:637-693 | One message per port, to the CLP behind it, with the periods of exactly the variables listed for it; their entries are turned to the port and they are gone, all others stay as they were; every reader of a variable given away is sent back to one after the start of the period it read, and nobody else is sent anything |
| `Clps.Clp.MigrateTo` | src/lp/Clp.cpp:640-692 | The same for one port; nothing changes where the process exits because nothing is behind the port |
| `Clps.Clp.SendAllOff` | src/lp/Clp.cpp:650-680 | The variables listed for one port are copied, removed, turned and their readers rolled back, the others untouched |
| `Clps.Clp.SendOff` | src/lp/Clp.cpp:650-680 | The same for one variable |
| `Clps.Clp.SendRollbacks` | src/lp/Clp.cpp:637-693 | Every charged reader is sent a rollback no later than its charge, or one later from the side that gives the variable away, and every message has the time of a charge and goes to the process of its agent |
| `Clps.Clp.ProcessMigration` | src/lp/Clp.cpp:607-635 | Every variable of a message is replayed and points here, all others stay as they were, and exactly the readers that a replay charges are rolled back; the process exits exactly if one of the variables is here already |
| `Clps.Clp.TakeIn` | src/lp/Clp.cpp:612-633 | The same for one variable |
| `RangeTrackers.RQPortScanStatus.constructor` | src/lp/RQPortScanStatus.cpp:6-12 | All ports are open except the origin, which is avoided |
| `RangeTrackers.RQPortScanStatus.SetScanStatus` | src/lp/RQPortScanStatus.cpp:19-21 | Just this port changes |
| `RangeTrackers.RQPortScanStatus.AddToSSVValueMap` | src/lp/RQPortScanStatus.cpp:29-35 | Collected values stay; only new variables are added |
| `RangeTrackers.RQPortScanStatus.IncreaseNumberOfHops` | src/lp/RQPortScanStatus.cpp:53-55 | Hops add up |
| `RangeTrackers.RangeTracker.HasEntry` | src/rangequery/RangeTracker.cpp:15-20 | Whether the query has an entry |
| `RangeTrackers.RangeTracker.CreateEntry` | src/rangequery/RangeTracker.cpp:22-25 | A fresh entry; a query that has one keeps it |
| `RangeTrackers.RangeTracker.DeleteEntry` | src/rangequery/RangeTracker.cpp:27-35 | The entry goes and its origin port is returned, HERE without an entry |
| `RangeTrackers.RangeTracker.IncreaseNumberOfHops` | src/rangequery/RangeTracker.cpp:37-42 | Adds hops to the entry of this query and to no other |
| `RangeTrackers.RangeTracker.SetPortToScanned` | src/rangequery/RangeTracker.cpp:64-69 | Closes this port of this query, nothing else |
| `RangeTrackers.RangeTracker.AddToSSVValueMap` | src/rangequery/RangeTracker.cpp:71-76 | Adds values to this query, nothing else |
| `RangeTrackers.RangeTracker.GetOutstandingPorts` | src/rangequery/RangeTracker.cpp:52-62 | The open ports in port order; none without an entry |
| `RangeTrackers.OutstandingPorts` | src/rangequery/RangeTracker.cpp:52-62 | A port is listed if and only if its status is NOT_SCANNED |
| `RangeTrackers.RangeTracker.GetNumberOfHops` | src/rangequery/RangeTracker.cpp:44-50 | The hops gathered; 0 without an entry |
| `RangeTrackers.RangeTracker.GetCollectedSSVValueMap` | src/rangequery/RangeTracker.cpp:78-86 | The values gathered; none without an entry |
| `RangeQueries.RangeQueryHandler.ProcessRangeQuery` | src/lp/Clp.cpp:699-848 | The handler changes the tracker and sends messages exactly as the step of the echo machine says, for first arrivals and replies, with and without open ports left |
| `RangeQueries.RangeQueryHandler.FirstSight` | src/lp/Clp.cpp:709-814 | On first arrival the entry holds what came with the query and, exactly if the range of this CLP overlaps, its own variables; a port stays open exactly if it is a target without a range period or with an overlapping range beyond this CLP; and the query goes on exactly through those that overlap |
| `RangeQueries.RangeQueryHandler.ScanPort` | src/lp/Clp.cpp:744-812 | One port: closed if it is no target, blocked or HERE; only an overlapping HERE adds the local variables; only an overlapping other port gets the query |
| `RangeQueries.RangeQueryHandler.Reply` | src/lp/Clp.cpp:815-825 | A reply closes the port it came through and adds its hops and values |
| `RangeEcho.TargetsAreClpsIff` | src/lp/Clp.cpp:744-750 | Every target port but HERE has the place of a CLP if and only if the number of CLPs is odd; otherwise the CLP with a single child waits for two |
| `RangeEcho.TargetPort` | src/lp/Clp.cpp:746-750 | With an odd number of CLPs every target port but HERE leads to a CLP further from the ALP |
| `RangeEcho.ChildPort` | src/lp/Clp.cpp:746-750 | And every CLP whose path to the ALP starts here is behind a target port |
| `RangeEcho.OriginPorts` | src/lp/Clp.cpp:724-731 | The incoming port is the one towards the ALP, and replies through it go one step back |
| `RangeEcho.StepIsSound` | src/lp/Clp.cpp:699-848 | Any message under way may arrive next; its arrival keeps the echo invariant and comes closer to the end, and it is a first arrival exactly if its CLP was not visited |
| `RangeAnswers.RunIsSound` | src/lp/Clp.cpp:699-848 | Over every interleaving the invariant holds, no CLP sees the query as new twice, the number of arrivals is bounded, and each arrival adds one to the hops held by entries, replies and answer |
| `RangeAnswers.NobodyWaits` | src/lp/Clp.cpp:826-848 | With no message under way and a range period on every target port of the visited CLPs, no CLP waits |
| `RangeAnswers.QueryIsAnswered` | src/lp/Clp.cpp:699-848 | Under every interleaving: at most one answer; when nothing is under way there is one if and only if every visited CLP had a range period for itself and on each port further from the ALP; an answer leaves no tracker entry and no message; the visited CLPs are then exactly those reached through overlapping ports, a variable is in the answer if and only if a visited CLP whose own range overlaps found it, with a value found at one such CLP, and the hops are the number of arrivals |
| `RangeAnswers.RunCanGoOn` | src/lp/Clp.cpp:699-848 | While a message is under way the run can go on, whatever its CLP finds |
| `Gvt.StepCounted` | src/lp/Lp.cpp:28-45 | Each step keeps, for every rank, the sum of all counters equal to the white messages sent to it and not consumed |
| `Gvt.WhiteMessagesStayCounted` | src/lp/Lp.cpp:28-45 | The same over all runs and colour changes |
| `GvtRounds.WorkFits` | src/lp/Lp.cpp:28-45 | What handlers and send threads do while the control message goes round keeps the meaning of its vector |
| `GvtRounds.WorkStaysAbove` | src/lp/Lp.cpp:28-45 | It keeps everything behind the cut, the queues of the LPs included, at or above the minimum as long as no red LP consumes a white message |
| `GvtRounds.CutStaysAbove` | src/lp/GvtCalculator.cpp:118-123 | So does a cut that finds the queue of its LP empty |
| `GvtRounds.CutFits` | src/lp/GvtCalculator.cpp:101-142 | A cut keeps the meaning of the vector |
| `GvtRounds.FirstCutVector` | src/lp/GvtCalculator.cpp:125-142 | When the ring is complete the vector counts, for every rank, white messages under way or consumed behind a cut, less the LPs without a counter for it (-1 each) |
| `GvtRounds.EndsAtFirstCutIff` | src/lp/GvtCalculator.cpp:142-165 | The round ends at the first cut if and only if for no rank among the starter's own counters these white messages outnumber the missing counters |
| `GvtRounds.NoWhiteCrossesTheCut` | src/lp/GvtCalculator.cpp:142-165 | With a counter for every rank, which is exactly what safety needs, no white message is then under way and none was consumed by a red LP |
| `GvtRounds.AnnouncedIsSafe` | src/lp/GvtCalculator.cpp:213-221 | If the cuts found the queues empty, the announced time is then at most every local virtual time and every message queued or under way |
| `GvtRounds.AnnouncedTimeStaysSafe` | src/lp/GvtCalculator.cpp:101-165 | And in every later state, for every run of the round and of the LPs after it |
| `GvtRounds.AnnouncedIsTheLeastFound` | src/lp/GvtCalculator.cpp:118-165 | A round that ends at the first cut announces the least local virtual time its cuts found, or the greatest signed number; every LP is cut once, the starter last |
| `GvtCounters.SafeIffEnoughCounters` | src/lp/GvtCalculator.cpp:85-165 | For given key sets of the counter maps of at least two LPs: every time announced at the first cut, in every round that starts with them and every run, is safe then and ever after if and only if every LP has a counter for every rank (of two LPs each needs one for itself only) and cuts wait until the send queue of their LP is empty |
| `GvtCounters.WorkKeepsOwnCounts` | src/lp/Lp.cpp:28-45 | No step makes an LP's count for itself positive, as every white send asserts |
| `GvtExamples.MissingCounterBreaksSafety` | src/lp/GvtCalculator.cpp:11-15 | Counterexample: from the program as it starts, a CLP and two ALPs without counters, a late write leads to a round that announces 10 or more while a rollback to 5 is under way, although every cut finds an empty queue |
| `GvtExamples.QueuedRollbackBreaksSafety` | src/lp/Clp.cpp:121-178 | Counterexample: with a counter for every rank, the cut passes a CLP that has sent the response to a write at 5 and still has the rollback queued; it leaves in red, and the round announces 10 or more |
| `GvtCalculators.GvtCalculator.constructor` | src/lp/GvtCalculator.cpp:11-15 | A calculator starts white, with no counters and the greatest red time |
| `GvtCalculators.GvtCalculator.GetWhiteTransientMessageCounter` | src/lp/GvtCalculator.cpp:85-91 | The counter, -1 if there is none |
| `GvtCalculators.GvtCalculator.PreProcessSendMessage` | src/lp/Lp.cpp:28-38 | The message gets the LP's colour; a white one is counted for its destination, a red one lowers the red time to its own if that is less |
| `GvtCalculators.GvtCalculator.PreProcessReceiveMessage` | src/lp/Lp.cpp:40-45 | A white message is counted off at its receiver, a red one changes nothing |
| `GvtCalculators.GvtCalculator.ProcessRequest` | src/lp/GvtCalculator.cpp:21-44 | Only LP 0, and only outside a round, starts one, with an empty vector and itself white |
| `GvtCalculators.GvtCalculator.ProcessValue` | src/lp/GvtCalculator.cpp:46-60 | Every LP but the starter takes the time and turns white |
| `GvtCalculators.GvtCalculator.ProcessFirstCut` | src/lp/GvtCalculator.cpp:101-165 | Minimum, counts and colour after the cut; then pass on, start the second cut, or announce the lesser of minimum and red minimum to all and become ready for a new round |
| `GvtCalculators.GvtCalculator.UpdateCounts` | src/lp/GvtCalculator.cpp:125-142 | Every rank's entry grows by this LP's counter, absent ones counting as the code does |
| `GvtCalculators.GvtCalculator.HasTransients` | src/lp/GvtCalculator.cpp:142-152 | Whether a rank among the starter's counters has a positive entry |
| `GvtCalculators.GvtCalculator.SendAndSetGvt` | src/lp/GvtCalculator.cpp:213-246 | The smaller of minimum and red minimum becomes the global time and is sent once to every other LP |
| `EndFlood.EndHandler.ProcessEnd` | src/lp/Clp.cpp:510-574 | The message goes to the neighbours it did not come from; the root marks its sender and asks for a round exactly once all are marked |
| `EndFlood.EndHandler.AllEndMessagesReceived` | src/lp/Lp.cpp:88-93 | True exactly if every ALP is marked |
| `EndFlood.EndHandler.constructor` | src/lp/Clp.cpp:19-76 | No ALP is marked at the start |
| `EndFlood.RootFlagsStep` | src/lp/Clp.cpp:549-562 | The marks of the root follow from the receipts: one more receipt at rank 0 sets its sender's mark, one elsewhere none |
| `EndFlood.StaysAmongClpsIff` | src/lp/Clp.cpp:510-574 | The messages between CLPs stay among the CLPs if and only if their number is odd; otherwise the CLP with a single child sends to the first ALP |
| `EndFlood.StartsEverywhereIff` | src/lp/Clp.cpp:510-574 | The message of an ALP goes on to all neighbours of its CLP if and only if that has no children |
| `EndFlood.PassedOnFits` | src/lp/Clp.cpp:510-560 | A message is passed on once to every CLP behind this one, seen from its ALP, and to nobody else |
| `EndFlood.AtMostOnce` | src/lp/Clp.cpp:510-574 | At every moment a CLP has got or is being sent the message of an ALP at most once, and none before that ALP has ended |
| `EndFlood.ReachesAll` | src/lp/Clp.cpp:510-574 | When nothing is under way every CLP has got the message of every ended ALP |
| `EndFlood.FloodReachesEveryClpOnce` | src/lp/Clp.cpp:510-574 | Over every run: no message is received twice, the flood takes at most CLPs times ALPs receipts, ends with exactly one per CLP and ended ALP, and the root's marks are set only for ended ALPs and for all of them when the flood is over |
| `AlpRollbacks.HasSendList.AddToSendList` | src/interface/HasSendList.cpp:80-96 | Sent requests are appended |
| `AlpRollbacks.HasSendList.RollbackSendList` | src/interface/HasSendList.cpp:15-66 | The undone requests of the agent are returned and the others kept, both in order |
| `AlpRollbacks.HasSendList.ClearSendList` | src/interface/HasSendList.cpp:68-78 | Exactly the requests at or after the time stay, in order |
| `AlpRollbacks.HasSendList.RemoveFromSendList` | src/interface/HasSendList.cpp:98-108 | The first request with the identifier goes; nothing changes and false is returned if there is none |
| `AlpRollbacks.MessageQueue.QueueMessage` | src/lp/MessageQueue.cpp:24-28 | First in, first out: the new message is last |
| `AlpRollbacks.MessageQueue.DequeueMessage` | src/lp/MessageQueue.cpp:30-36 | The first message leaves |
| `AlpRollbacks.MessageQueue.RemoveMessages` | src/lp/MessageQueue.cpp:38-85 | Exactly the requests a rollback undoes leave the queue; the order of the others stays |
| `AlpRollbacks.Alp.AddAgent` | src/lp/Alp.cpp:87-99 | A new agent starts at 0 with that history; a known one changes nothing |
| `AlpRollbacks.Alp.SetAgentLvt` | src/lp/Alp.cpp:494-506 | Time and history advance together, never back |
| `AlpRollbacks.Alp.GetLvt` | src/lp/Alp.cpp:458-467 | The least time of all agents, the greatest number without any |
| `AlpRollbacks.Alp.SetGvt` | src/lp/Alp.cpp:469-475 | The global time is set and exactly the requests at or after it stay |
| `AlpRollbacks.Alp.Send` | src/lp/Alp.cpp:101-159 | The next message leaves and is remembered exactly if it is a request |
| `AlpRollbacks.Alp.ProcessRollback` | src/lp/Alp.cpp:289-452 | The whole effect of a rollback on time, history, send list and queue, and no effect when it is known or later than the agent's time |
| `AlpRollbacks.UpperBound` | src/lp/Alp.cpp:347-349 | The first history entry after the time |
| `AlpLedgers.RollbackSplitsTheSendList` | src/lp/Alp.cpp:366-442 | For a rollback not before the global time: the reads and range queries of the agent from the time on and its writes after it leave the send list and the queue, everything else stays; and the k-th anti-message is the one for the k-th request undone, read for read, write for write, range for range, with its agent, time and variable or range |
| `AlpLedgers.AntiMessageUndoesTheRead` | src/lp/Alp.cpp:384-398 | The anti-message of an undone read, carried out at its variable, removes exactly the copies of that read |
| `AlpLedgers.AntiMessageUndoesTheWrite` | src/lp/Alp.cpp:399-412 | With the anti-message of an undone write every lookup of its variable answers as if the write had never been made |
| `AlpLedgers.TakenBackToTheGreatest` | src/lp/Alp.cpp:343-355 | The agent ends at the greatest history entry at or before the time; the history stays sorted, non-empty and ends at the agent's time |
| `AlpLedgers.StepBalanced` | src/lp/Alp.cpp:101-452 | Sending, queueing, rollback and forgetting keep the balance of requests and anti-messages of every kind |
| `AlpLedgers.AntisNeverOutrunRequests` | src/lp/Alp.cpp:101-452 | Over every run no more anti-messages than requests of a kind have left, and with an empty queue their difference is what is remembered or forgotten |
| `AccessCosts.CeilLog2From` | src/lp/AccessCostCalculator.cpp:6-8 | The least exponent whose power of two is not below the argument |
| `AccessCosts.IsParentIff` | src/lp/AccessCostCalculator.cpp:6-8 | The test compares the rank with half the next power of two |
| `AccessCosts.LeafTestIsRightIff` | src/lp/AccessCostCalculator.cpp:6-8 | It finds exactly the CLPs without children, for all ranks, if and only if N+1 or N+2 is a power of two |
| `AccessCosts.LeafTestInPerfectTree` | src/lp/AccessCostCalculator.cpp:6-8 | For N = 2^k - 1 it agrees with 2*rank+1 >= N |
| `AccessCosts.AccessCostCalculator.InitialiseCounters` | src/lp/AccessCostCalculator.cpp:19-30 | The variable is listed once with zero counters |
| `AccessCosts.AccessCostCalculator.UpdateAccessCount` | src/lp/AccessCostCalculator.cpp:32-47 | Just this counter grows, the count before is returned, an unlisted variable changes nothing |
| `AccessCosts.AccessCostCalculator.GetMigrationMap` | src/lp/AccessCostCalculator.cpp:111-144 | A variable is listed under a port if and only if three times its accesses there exceed twice those through UP, LEFT and RIGHT together, the sum of accesses times hops over these ports exceeds the threshold, and the leaf test allows the port; lists keep their order and none is empty |
| `AccessCosts.ListedIff` | src/lp/AccessCostCalculator.cpp:111-144 | The same for one variable and port of any map that fits the counters |
| `AccessCosts.AccessCostCalculator.GetCount` | src/lp/AccessCostCalculator.cpp:157-173 | The counter, 0 if there is none |
| `AccessCosts.MovesOneWay` | src/lp/AccessCostCalculator.cpp:111-144 | Two ports never both have more than two thirds |
| `AccessCosts.RootNeverCountsUp` | src/state/SharedState.cpp:22-27 | Over every history of arrivals, departures and accesses through the ports of ALPs, the root counts no access through UP |
| `AccessCosts.EveryMoveLeadsToAClp` | src/lp/AccessCostCalculator.cpp:111-144 | In a perfect tree, whatever the history of accesses, every port of the map leads to a neighbouring CLP |
| `AccessCosts.MigrationMapIsValid` | src/lp/AccessCostCalculator.cpp:111-144 | For every access history the map of a perfect tree lists each variable at most once, under a port with a CLP behind it, so the migration handler can carry it out |
| `Ranges.OverlapTestFailsIff` | src/types/Range.cpp:44-61 | On boxes the corner test is false if and only if the boxes are disjoint or cross without a corner inside |
| `Ranges.Corner.Min` | src/types/Point.cpp:30-39 | The lesser on each axis, a point at INT_MAX on both axes counting as none |
| `Ranges.Corner.Max` | src/types/Point.cpp:41-51 | The greater on each axis, with the same sentinel |
| `Ranges.RecalculateRange` | src/state/SharedState.cpp:202-227 | The fold of the code over all points held at the time |
| `Ranges.RangeRead` | src/state/SharedState.cpp:172-200 | Exactly the variables holding a point in the range, each with that point |
| `Ranges.CornersOfTheBox` | src/state/SharedState.cpp:202-227 | The low corner is tight for all points; the high one lies on points and is tight for all of them if one axis stays below INT_MAX |
| `Ranges.TightInEveryOrderIff` | src/state/SharedState.cpp:202-227 | For points of which some is real: the box is tight in every order of the points if and only if they leave one axis below INT_MAX or are two at most |
| `Ranges.HighOfFew` | src/types/Point.cpp:41-51 | For two real points at most the high corner is theirs, the maximum on both axes included |
| `Ranges.HighCornerIsLost` | src/types/Point.cpp:41-51 | Counterexample: two ordinary points make the running corner the sentinel and the next point replaces it |
| `Ranges.PrunedQueryFindsNothing` | src/types/Range.cpp:44-61 | A query turned away by the box of points that leave an axis below INT_MAX or are two at most, other than by crossing it, would have found nothing |
| `Ranges.PruningLosesAPointIff` | src/types/Range.cpp:44-61 | A box that turns a query away can lose a point if and only if the two cross |

## Left out

- Mutexes, semaphores, MPI and message serialisation. A handler is one step. The main thread and the send thread are told
  apart for GVT only; elsewhere a send puts the message under way at once. Races inside the stamping of one message and
  on the counter maps are not modelled.
- The second cut of a GVT round: it adds a local counter to a vector that contains it already. Only the exit at the
  first cut is claimed.
- GVT through the ALP: an agent can be taken back below the time of its rollback message, so the LP of the GVT
  theorem is abstract.
- Range periods: `RangeRoutingTable`, its updates and `RangePeriod`. Whether a port has a period and overlaps, and what
  is read locally, is given to the range-query handler as an arbitrary "sight" for each arrival.
- Range-query anti-messages at the CLP, and their missing case in `Clp::Send`.
- `MinMaxofTwoRanges`, private variables, and getters and setters that only return or store a field.
- Rollback tags: their comparison includes wall-clock time. `Alp.ProcessRollback` takes a flag that says whether the
  tag is known.
- The load of a CLP (`UpdateLoad`, `CheckClpLoad`) and the hop counters' own updates, which repeat those of the access
  counters. The port threshold is a natural-number parameter.
- The floating-point logarithm of the leaf test: `AccessCosts.CeilLog2` is exact.
- Integer widths, except where they decide a branch: the unsigned parent of rank 0, the bound on ranks it needs, and the
  sentinels `ULONG_MAX`, `LONG_MAX` and `INT_MAX`.
- Process exits are results (`None` or `false`). Logging is left out.
- Missing values: every write carries a value.
- The order of reads within one period: they are kept in order of arrival, where the code orders them by agent.
- SharedStates.SharedState.Insert: does not model the range-table updates made for each replayed write, nor the readers of range queries they charge.
- SharedStates.SharedState.Replay: does not model these range-table updates either.
- SharedStates.SharedState.RemoveWritePeriodList: does not model the range-table updates made while rolling back.
- SharedStates.SharedState.Delete: does not model that the variable's access records go too; they are `AccessCosts.Goes` in the history of a calculator.
- Clps.Clp.constructor: does not build the range tables, the range tracker, the queues and the GVT calculator, which are modelled apart or left out.
- Clps.Clp.MigrateStateVariables: does not model the range-table updates of the handler.
- Clps.Clp.MigrateTo: does not model the range-table updates of the handler.
- Clps.Clp.SendAllOff: does not model the range-table updates of the handler.
- Clps.Clp.SendOff: does not model the range-table updates of the handler.
- Clps.Clp.ProcessMigration: does not model the range-table updates on arrival.
- Clps.Clp.TakeIn: does not model the range-table updates on arrival.
- RangeQueries.RangeQueryHandler.ProcessRangeQuery: does not record the query in the range tables; what its port look-ups find is the given sight.
- RangeQueries.RangeQueryHandler.FirstSight: does not record the query in the range tables; what its port look-ups find is the given sight.
- RangeQueries.RangeQueryHandler.ScanPort: takes the period and the overlap of a port from the given sight.
- Arrows.RequestReachesVariable: keeps the network still between the hops; `Requests.RequestArrivesThroughMoves` does not.
- Arrows.RequestWaitsOnTheEdge: keeps the network still between the hops; `Requests.RequestArrivesThroughMoves` does not.
- GvtCalculators.GvtCalculator.ProcessValue: does not model what the LP does with the new time, nor the stop at the end time.
- GvtCalculators.GvtCalculator.ProcessFirstCut: does not model the stop at the end time after an announcement.
- GvtCalculators.GvtCalculator.SendAndSetGvt: does not model what the LP does with the new time, nor the stop at the end time.
- AlpRollbacks.Alp.SetGvt: does not model the list of rollback tags it clears.
- AlpRollbacks.Alp.Send: does not model the queue of control messages, which it serves first, nor the stamping of messages for GVT.
- AlpRollbacks.Alp.ProcessRollback: does not model the stopping, resetting and restarting of the agent.
- AccessCosts.AccessCostCalculator.InitialiseCounters: does not model the load threshold.
- AccessCosts.AccessCostCalculator.GetMigrationMap: does not model the load of the CLP.
- Ranges.RangeRead: does not model the access counts of the variables it finds.
- `Initialisor`: the placement of variables and ALPs is a parameter, listed in order of rank.
- The handlers of single reads and writes at the CLP beyond routing and the change of the variable, the responses they
  send, and `SharedState`'s look-up of the variable a request names.
- The loops of `RouteTable`'s and `Clp`'s long members are methods of their own.
