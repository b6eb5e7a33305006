# bigworlds, modelled and proved

`bigworlds` simulates entities that are spread over workers, under one leader, with servers in front of them
for clients. This project models the protocols between those participants, the algorithms inside a worker and
the text algorithms around them, and proves what they keep, for every input, every run and every interleaving
of the steps that the original leaves unordered. `dafny verify dfyconfig.toml` checks the whole project.

| module | what it is about |
|---|---|
| `Common` | options, results, sequences as sets |
| `Rpc` | the context of a call: hops, their times, merging hop lists |
| `Network` | local links: what is reached, forks, circles, and when there is one way to everybody |
| `Flood` | a global `Invoke` re-broadcast by workers and leader over any graph of local links; delivery limits |
| `Entity`, `Query` | the filter, mapping and description loops over one partition, and merging products |
| `Scatter` | a global query through the leader of a star |
| `Partition` | memory, archive and behavior handles of one worker |
| `Placement` | migration of entities between workers and the leader's pass over all of them |
| `Barrier` | the two-phase step as interleaved atomic steps |
| `Turn` | the counter of blocking clients, advance requests, and what the worker is told |
| `Includes` | the include stack against a recursive traversal |
| `Replication` | merging models, and the copies the leader keeps on its workers |
| `CommandSearch` | finding the end and the branches of a script block |
| `PrintFmt` | cutting out placeholders and putting values back |
| `Address`, `NetAddress` | printing and reading addresses and type names |
| `Truncate` | cutting a text without splitting a character |

A handler is one synchronous call or one atomic step. The clock, the order in which a hash map is walked, the
worker that is picked for a migration and, in `Barrier` and `Replication`, whether a call to a worker fails are
left open: every choice is covered. The file system and the path operations are a parameter of `Includes`;
how the platform resolves, recognises and shows inner network addresses and what a printed address evaluates
to are parameters of `NetAddress` and `PrintFmt`. A panic (`unimplemented!`, `todo!`, an index out of range) is a
failure value.
Ghost fields record the history that the statements are about: `Star.evaluated`, `failures` of `Replication.Manager`,
and `world`, `lost`, `history` and `moves` of `Placement.Cluster`; `Flood.Cluster.log` likewise only observes.

## Where the code differs from what is said of it

- A `NetworkHop`'s delta is documented as the time since the call was issued (bigworlds/src/rpc/mod.rs:145-157).
  The code stores the elapsed time minus the previous delta: `Rpc.RegisteredDelta`.
- A delivery limit is kept only if it is one or is never reached, because the count of a seen signal is not
  increased: `Flood.LimitIsKeptIff`.
- A signal runs twice somewhere unless there is one way to everybody: no circle of workers is reached, and at most
  one of the workers tied to the entry without the leader is linked to the leader:
  `Flood.Cluster.InvokeFromHandle`, `Network.ForkIffCircle`, `Flood.RingForks`.
- The order of a query's filters does not change what it selects, but can decide whether it fails:
  `Query.OrderMattersIff`.
- `remove_entity` is documented to fail on an unknown name; with an archive it never fails, and a name kept in
  both places survives its removal: `Partition.RemoveFailsIff`, `Partition.RemoveForgetsIff`.
- A worker with neither a linked worker nor a leader loses the entities it migrates:
  `Placement.Cluster.MigrateOne`. Where everybody can store what is sent to them, a migration succeeds if and only
  if nothing is archived: `Placement.Cluster.MigrateEntities`, `Placement.Cluster.Reorganize`.
- A worker blocked again after it answered the leader is stepped regardless, and only such a worker is stepped
  while blocked: `Barrier.BlockedAgainIsStepped`, `Barrier.BlockedWhenSteppedIff`. A step that fails
  still advances the leader, and the worker lags behind if its clock was not written:
  `Barrier.AgreesIffNothingMissed`.
- The counter of blocking clients goes wrong after an overshoot or a disconnect while waiting, and the monitor
  uses up a change that comes before its worker or whose call fails: `Turn.StaysAccurateIff`,
  `Turn.OvershootWraps`, `Turn.LeavingRaisesCounter`, `Turn.WorkerIsRightIff`, `Turn.FirstClientIsMissed`. Two such
  mistakes can cancel out: `Turn.AccurateAfterIff`, `Turn.OvershootMakesUp`.
- Includes that lead back to themselves are read for ever: `Includes.EndsIffRanked`, `Includes.CycleNeverEnds`.
- `procedure` counts `else` as an opener and does not know `loop`, `while` and the blocks of machines and states,
  so a procedure holding a branch overruns its own end and one holding a loop ends early:
  `CommandSearch.ProcedureEndIff`. The other tables do not know every block either:
  `CommandSearch.FindsOwnEndIff`.
- A template with exactly three dots is read as an address, placeholders and all, and panics if no type has that
  name. So does an argument with three dots that belongs to a placeholder: `PrintFmt.PrintsInterpolated`.
  Placeholders that arise from cutting others are cut too, and values may then be put past the end of the text:
  `PrintFmt.InterpolatesIff`, `PrintFmt.DoubledBraces`.
- Three type names and some addresses cannot be read back, though no two print alike: `Address.TypeNameReadBackIff`,
  `Address.PrintInjective`, `NetAddress.CompositeReadBackIff`.

## Model

| member | source | states |
|---|---|---|
| `Rpc.MergeHopsUnique` | bigworlds/src/rpc/mod.rs:254-264 | The nested loops append, in order, the hops whose observer is not listed yet. |
| `Rpc.MergedUniqueMeaning` | bigworlds/src/rpc/mod.rs:254-264 | The merge keeps the own hops as a prefix, lists exactly the union of the observers, adds only hops of the other list and introduces no duplicate. |
| `Rpc.ApplyLists` | bigworlds/src/rpc/mod.rs:235-264 | Registering lists whom it registers, a merge lists whom either context lists or goes on where the own list stops, and nothing listed is ever forgotten. |
| `Rpc.WentThroughIff` | bigworlds/src/rpc/mod.rs:302-325 | A context went through a participant if and only if that made the call or is listed. |
| `Rpc.ApplyKeepsWellTimed` | bigworlds/src/rpc/mod.rs:235-264 | Registering, merging either way, cloning and the passing of time keep every hop's delta within the time since the call began. |
| `Rpc.NoUnderflowOverRuns` | bigworlds/src/rpc/mod.rs:235-264 | Over every sequence of such operations within 2^32 microseconds no delta exceeds the elapsed time, so neither 32-bit subtraction of the next registration underflows. |
| `Rpc.RegisteredDelta` | bigworlds/src/rpc/mod.rs:235-247 | The registered delta and the previous last delta add up to the elapsed time; the documented time since the call is stored if and only if none was recorded before. |
| `Flood.Cluster.Invoke` | bigworlds/src/worker/mod.rs:1190-1220 | A global invoke at a worker over any graph of local links terminates and delivers to exactly what the worker reaches without entering participants already passed; the returned hops extend the given ones by exactly the delivered participants, without new duplicates. Over links made both ways everybody runs it once if and only if there is one way to everybody not passed yet: no circle among the workers reached, and at most one worker tied to this one without the leader linked to the leader. |
| `Flood.Cluster.WorkerBroadcast` | bigworlds/src/leader/mod.rs:578-605 | The same guarantee for the leader, which hands every next worker the hops gathered so far: from the leader only circles among the workers matter. |
| `Flood.Cluster.InvokeFromHandle` | bigworlds/src/worker/mod.rs:1587-1664 | From a fresh context: delivery to exactly the participants linked to the entry worker, each listed once; over links made both ways each runs it once if and only if no circle of workers is reached and at most one worker tied to the entry without the leader is linked to the leader. In a star that holds, and the returned hops count one per worker and one for the leader. |
| `Network.ReachLeast` | bigworlds/src/worker/mod.rs:1587-1664 | The reached set is the least one that holds the start and is closed under the links not avoided. |
| `Network.ForkIffCircle` | bigworlds/src/worker/mod.rs:610-650 | Over links made both ways two links of a participant lead to a common one without coming back if and only if a circle of three or more runs through it. |
| `Network.ForkElsewhere` | bigworlds/src/worker/mod.rs:610-650 | A fork that needs another participant makes that one fork as well, so circles can be looked for one participant at a time. |
| `Network.SingleGoesOnward` | bigworlds/src/worker/mod.rs:1587-1664 | If there is one way to everybody, the worker does not fork and there is one way to everybody behind each of its links. |
| `Network.OnwardIsSingle` | bigworlds/src/worker/mod.rs:1587-1664 | And the other way round: what holds behind each link holds for the whole if the worker does not fork. |
| `Network.TreelikeAfter` | bigworlds/src/leader/mod.rs:578-605 | What the leader has served so far is cut off from the rest: passing it neither opens nor closes a circle. |
| `Network.OneWayIsSingle` | bigworlds/src/worker/mod.rs:1587-1664 | The condition of the flood said of circles and links to the leader alone. |
| `Network.StarReachesAll` | bigworlds/src/sim.rs:86-98 | In the star every participant is reached from every worker. |
| `Flood.CountHops` | bigworlds/src/rpc/mod.rs:346-372 | A list naming every participant once counts as many worker hops as there are workers, and one more in all. |
| `Flood.RingForks` | bigworlds/src/worker/mod.rs:1587-1664 | A ring of three workers closed by the leader forks where the signal enters. |
| `Flood.LimitIsKeptIff` | bigworlds/src/worker/mod.rs:244-256 | However often a signal arrives, a limit of one runs it once; another limit is kept if and only if it is not exceeded. |
| `Query.AliveMeaning` | bigworlds/src/query/process.rs:35-291 | An entity is selected if and only if it passes every filter from the last Component filter onward. |
| `Query.SelectionCommutes` | bigworlds/src/query/process.rs:35-291 | Any two filters other than Component select the same in either order, whatever follows them. |
| `Query.FailureCommutesIff` | bigworlds/src/query/process.rs:35-291 | On one entity their order decides whether the filters fail if and only if one of them cannot be evaluated there, the other rejects the entity first, and no other filter fails on it anyway. |
| `Query.OrderMattersIff` | bigworlds/src/query/process.rs:35-291 | Swapping them never changes what a query selects; it changes whether the query runs if and only if all else is supported, no entity fails either way, and entities on which one filter fails are sorted out by the other in exactly one of the orders. |
| `Query.ByRange` | bigworlds/src/query/process.rs:238-275 | The range filter keeps exactly the selected entities whose value lies strictly inside, and fails if and only if some selected value has the wrong type. |
| `Query.ApplyFilter` | bigworlds/src/query/process.rs:39-291 | One round of the filter loop, in memory and in the archive, keeps only what passes, no more than the limit, and everything that passes if that is fewer than the limit; it repeats nothing if no filter does, and fails on exactly the unsupported and ill-typed cases. |
| `Query.SelectEntities` | bigworlds/src/query/process.rs:17-291 | The filter loop selects only what the filters say. If no filter repeats a name it has, after each filter, as many of those that pass as the limit allows; without a limit, or with one that everything fits into, it succeeds exactly when every filter is supported and none fails on an entity still selected, and selects all of it. |
| `Query.AddMapping` | bigworlds/src/query/process.rs:302-409 | One mapping adds exactly the triples of the selected entities that it asks for, overriding earlier ones. |
| `Query.MapData` | bigworlds/src/query/process.rs:302-409 | The mapping loop collects exactly the requested (entity, component, variable) triples, archived ones only where memory has none; it fails exactly at an unsupported mapping that is reached. |
| `Query.Describe` | bigworlds/src/query/process.rs:416-521 | The product lists each triple once, keeps one entry per triple, per entity, or all values per entity, or splits numbers and truth values by type, as description and layout say; it fails exactly for unsupported descriptions and layouts. |
| `Query.DescribeTyped` | bigworlds/src/query/process.rs:486-511 | The typed layout files each float, truth value and integer under its address in the map of its type, and drops every other value; its map of texts stays empty. |
| `Query.ProcessQuery` | bigworlds/src/query/process.rs:11-527 | A query that can run without a limit succeeds under any. Without one, or with one that memory and archive each fit into and no name repeated, it succeeds if and only if it can run, and answers it in full; with a smaller limit it answers from a selection that is as large as the limit allows after each filter. No data changes, only access times. |
| `Query.ChoosableIfAmple` | bigworlds/src/query/process.rs:279-287 | What may be left selected under a limit that everything fits into is everything that passes, and nothing else. |
| `Query.OneFilterFillsLimit` | bigworlds/src/query/process.rs:279-287 | With a single filter the number selected is the smaller of the limit and of how many pass. |
| `Query.RangeMeans` | bigworlds/src/query/process.rs:238-275 | A range leaves out both its bounds; only texts, integers and floats have one, and the last two must be of that type. |
| `Query.WantsMeans` | bigworlds/src/query/process.rs:302-409 | How the mappings relate: one component is a list of one, an address is one name in one component, and a list asks for what its parts ask for. |
| `Query.MergeProducts` | bigworlds/src/query.rs:125-165 | Products over data without a common entity merge to a product of all the data; the merge is defined for every description and layout but the native and the typed one. |
| `Query.AnswersAgree` | bigworlds/src/query/process.rs:416-521 | Two answers to one query are the same product: equal maps for addressed variables, equal multisets for lists and for the values of each entity. |
| `Query.ManyConserves` | bigworlds/src/query/process.rs:460-472 | The per-entity lists hold exactly as many values as there are data. |
| `Query.DescribesUnion` | bigworlds/src/query/process.rs:35-409 | What a query describes on two disjoint partitions is what it describes on their union. |
| `Query.RunsUnion` | bigworlds/src/query/process.rs:35-409 | It can run on the union if and only if it can run on both. |
| `Query.MergeAnswers` | bigworlds/src/query.rs:125-165 | An answer for some partitions merged with one for another answers for all of them. |
| `Scatter.Star.WorkerQuery` | bigworlds/src/worker/mod.rs:1666-1776 | A global query at a worker of a star succeeds if and only if the query runs on the union of the partitions in scope (and, for the native description, there is one); its answer answers the query on that union, so it is the product one partition holding everything would give; each partition runs it at most once, on success exactly once; no data changes. |
| `Scatter.Star.LeaderQuery` | bigworlds/src/leader/mod.rs:606-638 | The leader's loop gathers the answer over exactly the workers the context does not list. |
| `Scatter.Star.ScopeIsAllIff` | bigworlds/src/worker/mod.rs:1673-1733 | The scope is the whole cluster if and only if the context lists neither the leader nor another worker and the worker is connected to a leader that knows all of them. |
| `Scatter.GatherOne` | bigworlds/src/query.rs:125-165 | One more partition's answer: when the merge is defined, and that it keeps the answer right. |
| `Partition.Partition.AddEntity` | bigworlds/src/worker/part.rs:222-261 | Adding an entity binds exactly the synced behaviors of the model that apply to it, in order, and stores it in memory or archive as configured. |
| `Partition.BoundToMeans` | bigworlds/src/worker/part.rs:222-261 | A behavior is bound by a target all of whose components the entity has, or one that asks for any and of which it has one. |
| `Partition.Partition.GetEntity` | bigworlds/src/worker/part.rs:189-196 | Only memory is looked at, and the access is stamped. |
| `Partition.Partition.RemoveEntity` | bigworlds/src/worker/part.rs:291-314 | Drops the entity's handles, then the entity from memory or else from the archive. |
| `Partition.Partition.ArchiveEntities` | bigworlds/src/worker/part.rs:329-363 | The chore moves exactly the idle entities and reports their number; without an archive it fails and has dropped one idle entity. |
| `Partition.ChoreMovesIdle` | bigworlds/src/worker/part.rs:329-363 | The chore changes no stored data and archives exactly the entities idle longer than the threshold. |
| `Partition.StaysInMemoryIff` | bigworlds/src/worker/part.rs:329-363 | An entity looked up at one time is still in memory after a chore at another if and only if the chore is off or comes no later than the threshold after it. |
| `Partition.SpawnKeepsSound` | bigworlds/src/worker/part.rs:222-261 | A spawn under a fresh name keeps memory and archive disjoint and every handle owed by a stored entity. |
| `Partition.StepKeepsSound` | bigworlds/src/worker/part.rs:189-363 | Every operation does, and does to the stored data what it does to a plain map. |
| `Partition.RunsRefineSimpleMap` | bigworlds/src/worker/part.rs:189-363 | Over every run with fresh spawns the partition refines a plain map from names to data, nothing is stored twice, and each entity's handles are exactly those its components call for. |
| `Partition.RemoveFailsIff` | bigworlds/src/worker/part.rs:288-314 | Removal fails if and only if there is no archive and the name is not stored. |
| `Partition.RemoveForgetsIff` | bigworlds/src/worker/part.rs:291-314 | A removed name is gone if and only if it was not kept in both places. |
| `Partition.RespawnedNameComesBack` | bigworlds/src/worker/part.rs:222-314 | Spawning an archived name and removing it brings the archived entity back. |
| `Placement.Cluster.Take` | bigworlds/src/worker/mod.rs:1147-1164 | Taking an entity stores a stamped copy; meanwhile it is on two workers and missing nowhere. A failure stores nothing. |
| `Placement.Cluster.Proxy` | bigworlds/src/leader/mod.rs:662-687 | The leader hands the entity to a worker the context does not list, so never back to its sender. |
| `Placement.Cluster.Drop` | bigworlds/src/worker/mod.rs:1460-1464 | Removing the source's copy loses the entity exactly if no other worker holds it. |
| `Placement.Cluster.MigrateOne` | bigworlds/src/worker/mod.rs:1412-1471 | Before and after its turn an entity is on exactly one worker with unchanged data; it is lost if and only if it leaves a worker with neither linked worker nor leader. It stays if it was moved no longer ago than the cooldown when its turn ends, and does not stay if it was moved longer ago when its turn begins, was never moved, or there is no cooldown. |
| `Placement.Cluster.Leave` | bigworlds/src/worker/mod.rs:1428-1464 | An entity that does not rest is copied to one other worker, if there is any to send it to, and removed at the source; it keeps its data, and its name is new among the moves of a pass the cooldown covers. |
| `Placement.Cluster.MigrateEntities` | bigworlds/src/worker/mod.rs:1408-1472 | If every worker has a model, none stores new entities in an archive and this one has somewhere to send to, its migration succeeds if and only if it keeps nothing archived; on success every entity has left, to a move or to loss, unless its last move plus the cooldown was not past when the migration began; nothing is lost if it is linked; only its own entities are touched. |
| `Placement.Cluster.Reorganize` | bigworlds/src/leader/mod.rs:689-705 | Under the same conditions on all workers the leader's pass succeeds if and only if no registered worker keeps an archived entity; on success every entity of theirs has left its worker unless its last move plus that worker's cooldown was not past when the pass began. No entity is missing from any moment, each is on exactly one worker between moves, data never changes, nothing is lost if all workers are linked, and each entity moves at most once if the pass fits in the cooldown. |
| `Placement.Cluster.OnExactlyOneWorker` | bigworlds/src/worker/mod.rs:1408-1472 | Between moves every entity that is not lost is on exactly one worker, with its data. |
| `Barrier.ApplyKeepsInv` | bigworlds/src/leader/mod.rs:717-784 | Every atomic step of leader and workers keeps each clock and its missed steps at the rounds the worker is through. |
| `Barrier.ClocksStayTogether` | bigworlds/src/leader/mod.rs:717-784 | In every interleaving a worker none of whose steps failed before writing its clock is at the leader's clock or one more, and at the leader's between rounds. |
| `Barrier.AgreesIffNothingMissed` | bigworlds/src/leader/mod.rs:757-781 | Between rounds a worker agrees with the leader if and only if no step of its failed before it had written its clock; a step that fails after that does no harm to the clocks. |
| `Barrier.NobodyRunsAhead` | bigworlds/src/worker/mod.rs:883-888 | No worker starts its next step before every other is through with the current one. |
| `Barrier.StepsWaitForAnswers` | bigworlds/src/leader/mod.rs:730-757 | No step is sent before, in that round, every worker answered while it was not blocked or the call that asked it failed. |
| `Barrier.AnswersOnce` | bigworlds/src/leader/mod.rs:730-757 | In every run each worker's question is ended at most once a round, and exactly once before steps are sent. |
| `Barrier.BlockedSinceAnswerIff` | bigworlds/src/worker/mod.rs:864-882 | From its answer to the end of the round a worker whose calls do not fail is blocked if and only if it was blocked again after the answer. |
| `Barrier.BlockedWhenSteppedIff` | bigworlds/src/leader/mod.rs:730-757 | In every run and cluster, a worker about to step is blocked if and only if the last change since its answer in that round blocked it. |
| `Barrier.BlockedWorkerHoldsAll` | bigworlds/src/worker/mod.rs:864-882 | While one asked worker stays blocked and reachable no clock anywhere changes. |
| `Barrier.RoundCanComplete` | bigworlds/src/leader/mod.rs:717-784 | From any point of the asking phase where nobody asked is blocked the round can be completed, with every clock advanced. |
| `Barrier.RoundCanRun` | bigworlds/src/leader/mod.rs:717-784 | From between rounds, where there are workers and none is blocked, a whole round can be run, which advances every clock by one. |
| `Barrier.NoWorkersNoRound` | bigworlds/src/leader/mod.rs:723-728 | Without workers nothing ever happens. |
| `Barrier.FailedStepIsPassed` | bigworlds/src/leader/mod.rs:757-781 | A worker may fail at any point of its step without holding up the round; it misses the step exactly if it had not written its clock. |
| `Barrier.FailedAskIsPassed` | bigworlds/src/leader/mod.rs:730-757 | A worker may become unreachable while it is asked, blocked or not, without holding up the round. |
| `Barrier.BlockedAgainIsStepped` | bigworlds/src/leader/mod.rs:730-757 | In any cluster whose asked workers are not blocked, blocking a worker that has answered does not keep the round from completing and that worker from stepping. |
| `Turn.StaysAccurateIff` | bigworlds/src/server/turn.rs:40-85 | From an accurate counter every step keeps it accurate if and only if it is not an observed overshoot, a disconnect while waiting with others blocking, or a step of a request whose client left. |
| `Turn.TameRunsCount` | bigworlds/src/server/mod.rs:588-648 | Over every run without these and with at most 255 blocking clients the counter is the number of blocking clients that do not wait plus any excess it began with, and never wraps. |
| `Turn.StepStaysInRange` | bigworlds/src/server/turn.rs:54-75 | Along such runs the counter is positive before it is lowered and below 255 before it is raised. |
| `Turn.AnswersAreDue` | bigworlds/src/server/turn.rs:13-98 | Over every run from a server without clients the answers are, in order, those that the events alone call for: refused for a client that does not block, refused for less than one step, success when the clock is seen at exactly the clock read at the start plus the steps, failure when it is seen beyond, none before. |
| `Turn.EachIsAnswered` | bigworlds/src/server/turn.rs:13-98 | Counted per client: the requests taken up are as many as its successes and failures and the one under way; the failures are as many as the times it was seen past its target, so without any each is a success; the two kinds of refusals are as many as the requests that call for them. |
| `Turn.AdvancesExactly` | bigworlds/src/server/turn.rs:13-98 | In every run, from any state, a request succeeds only at exactly its start clock plus its steps, is refused for non-positive steps, and reports an overshoot only beyond the target. |
| `Turn.OvershootWraps` | bigworlds/src/server/turn.rs:54-85 | After an overshoot the next request of the same client wraps the 8-bit counter. |
| `Turn.CounterDrifts` | bigworlds/src/server/turn.rs:54-85 | A conservation law over every run, tame or not: in 8 bits, the counter is what it began with, plus the change in the clients that hold the worker back, plus the sum of what each step makes it drift. |
| `Turn.AccurateAfterIff` | bigworlds/src/server/turn.rs:54-85 | So after any run from an accurate counter it is accurate if and only if the drift adds up to a multiple of 256. |
| `Turn.LeavingRaisesCounter` | bigworlds/src/server/mod.rs:635-648 | A client that leaves while it waits alone leaves the counter raised with no client. After any later run the counter is one more than the clients that hold the worker back, plus the drift of that run; without overshoots and disconnects with a request under way it is never zero again. |
| `Turn.OvershootMakesUp` | bigworlds/src/server/turn.rs:54-85 | Such a later run with an overshoot of another client brings it back to zero. |
| `Turn.ToldIsHeardLast` | bigworlds/src/server/mod.rs:161-195 | What the worker believes is what the last call that reached it carried, which the monitor read when it sent it. |
| `Turn.WorkerIsRightIff` | bigworlds/src/server/mod.rs:161-195 | The worker is right about being held back if and only if the last call that reached it said what the counter says now. Once no change is unseen and no call under way that is so if the monitor's last call was made with a handle and heard, and otherwise only if the counter has come back to what was heard before. |
| `Turn.MonitorWakesIff` | bigworlds/src/server/mod.rs:161-195 | Over every run the monitor wakes exactly when the counter has changed since it woke last and its call is through; it then calls with what the counter says exactly if it has found the worker, by waking before while the server had one and was not busy. |
| `Turn.ChangeCanBeTold` | bigworlds/src/server/mod.rs:161-195 | Once it has found the worker, an unseen change can always be told to it. |
| `Turn.FirstClientIsMissed` | bigworlds/src/server/mod.rs:161-195 | A server that got its worker late leaves it unaware of the first blocking client. |
| `Includes.FromFiles` | bigworlds/src/model/intermediate.rs:53-168 | The include stack succeeds if and only if everything reachable from the manifest's includes is readable, where a directory leads to its entries and a file to what it includes joined to its parent; it reads exactly the reachable files and builds what they declare, in the order of the recursive traversal that takes the last include first. Otherwise the include it names is a reachable unreadable one. |
| `Includes.TraversalMeets` | bigworlds/src/model/intermediate.rs:69-168 | The traversal breaks if and only if something reachable is unreadable, and otherwise meets exactly the reachable files. |
| `Includes.DirPathMeans` | bigworlds/src/model/intermediate.rs:76-90 | A path ending in a wildcard stands for its directory, any other for itself. |
| `Includes.BuildsFrom` | bigworlds/src/model/intermediate.rs:118-204 | What is built, in terms of the file system alone: meta fields first defined, lists one after the other, behaviors located from their own file, data entries last defined, dependencies and data files of the manifest. |
| `Includes.LocatedMeans` | bigworlds/src/model/intermediate.rs:118-161 | An included behavior's path and library lie below the directory of the file that declares it; one without a path is in the file itself; the library of a rust one is a build result. |
| `Includes.PopStep` | bigworlds/src/model/intermediate.rs:72-164 | Replacing the top of the stack by what it leads to takes exactly one step off the traversal. |
| `Includes.EndsIffShallow` | bigworlds/src/model/intermediate.rs:69-168 | The loop ends if and only if the traversal, up to its first unreadable include, stays within some depth. |
| `Includes.EndsIffRanked` | bigworlds/src/model/intermediate.rs:69-168 | If every file reachable from the stack is readable, the loop ends if and only if the reachable includes admit a rank that falls along every include. |
| `Includes.CycleNeverEnds` | bigworlds/src/model/intermediate.rs:69-168 | A reachable chain of includes of any length that comes back to its start is read for ever. |
| `Includes.MetaIsFirstDefined` | bigworlds/src/model/intermediate.rs:191-204 | Name, description and author are the first ones defined in traversal order, the manifest first. |
| `Includes.ListsAreConcatenated` | bigworlds/src/model/intermediate.rs:170-178 | All lists of the model are the lists of the files in traversal order. |
| `Includes.LastDataCounts` | bigworlds/src/model/intermediate.rs:170-178 | Of a data entry the last definition counts. |
| `Includes.ManifestOnly` | bigworlds/src/model/intermediate.rs:170-178 | Dependencies and data files of included files are not taken over. |
| `Replication.Merge` | bigworlds/src/model/mod.rs:173-193 | The merge loop adds the prefabs whose name is not there yet and extends the rest. |
| `Replication.LookupsFindFirst` | bigworlds/src/model/mod.rs:173-228 | After any number of merges a prefab or component is looked up as first defined, and prefab names stay unique. |
| `Replication.ListsAreJoined` | bigworlds/src/model/mod.rs:173-193 | After any number of merges events, components, services and entities are those of all models in order; behaviors and scenarios stay those of the first. |
| `Replication.LastDataCounts` | bigworlds/src/model/mod.rs:173-193 | Of a data entry or a data file the last definition counts. |
| `Replication.ModelSinceSet` | bigworlds/src/leader/manager.rs:179-248 | Once a model is set or pulled the leader has it with what is merged afterwards, whatever came before. |
| `Replication.FindMeaning` | bigworlds/src/model/mod.rs:215-228 | A lookup returns the first item of that name, if there is one. |
| `Replication.Manager.Handle` | bigworlds/src/leader/manager.rs:179-248 | One request: the leader's next model, its next workers; it succeeds if and only if no call to a worker fails; success brings all registered workers in sync, a failure midway leaves each with the old or the new model. |
| `Replication.Manager.Propagate` | bigworlds/src/leader/manager.rs:216-221 | Sending the model worker by worker: it succeeds if and only if no call fails; all hold it on success, each holds the old or the new one otherwise. |
| `Replication.Manager.HandleAll` | bigworlds/src/leader/manager.rs:179-248 | Over every run of requests the leader's model is the one they describe, and it succeeds if and only if no call to a worker fails, in which case every registered worker holds exactly it. |
| `CommandSearch.Search` | bigworlds/src/machine/mod.rs:626-719 | The search returns exactly the first end line at depth zero of one depth counter, fails exactly when there is none or nesting is refused, and lists in increasing order exactly the middle lines outside nested own-kind blocks. |
| `CommandSearch.InnerEndFirst` | bigworlds/src/machine/mod.rs:679-707 | A nested block's own search ends before the outer one does. |
| `CommandSearch.NestedClosed` | bigworlds/src/machine/mod.rs:679-707 | Every opener before the end has its own end before it. |
| `CommandSearch.FirstEndIff` | bigworlds/src/machine/mod.rs:655-678 | An end line is the one found if and only if openers and ends before it balance and no prefix ends more than it opens. |
| `CommandSearch.BalanceRendered` | bigworlds/src/machine/mod.rs:655-678 | A rendered body is out of balance by its marks mistaken for openers minus its blocks whose opener the table does not list. |
| `CommandSearch.RenderedDepth` | bigworlds/src/machine/mod.rs:655-678 | Passing a rendered body of known blocks leaves the counter as it was, plus one per mark mistaken for an opener. |
| `CommandSearch.FindsOwnEndIff` | bigworlds/src/machine/mod.rs:626-719 | A search finds the closer of the body it starts in if and only if the body holds as many marks mistaken for openers as blocks the table does not know, and at no point more of the latter; a body without the one kind must be without the other. |
| `CommandSearch.RecoversRenderedBlock` | bigworlds/src/machine/mod.rs:626-719 | Searching a rendered block recovers its end and exactly its own branches. |
| `CommandSearch.FoundIsRendered` | bigworlds/src/machine/mod.rs:626-719 | Whatever the search finds the end of is the rendering of a body all of whose blocks it knows and none of whose marks it mistakes: the statements about rendered bodies speak of every block that is found. |
| `CommandSearch.ProcedureEndIff` | bigworlds/src/machine/cmd/flow/procedure.rs:38-64 | With the table of procedure the own end is found if and only if branch marks and unknown blocks, such as loops, balance and never end too much; without the one kind, if and only if there is none of the other. |
| `CommandSearch.TablesWellNamed` | bigworlds/src/machine/cmd/flow/forin.rs:64-77 | The tables of all seven commands keep own openers, openers, branch and end names apart, once a begin name that is also listed as an opener counts as an opener. |
| `CommandSearch.KnownBlocks` | bigworlds/src/machine/cmd/flow/ifelse.rs:81-107 | Which blocks each of the seven commands knows: a body holds none that ends it early if and only if it is made of those. |
| `PrintFmt.FromArgs` | bigworlds/src/machine/cmd/print.rs:41-96 | A template that is an address is recorded as its value alone, the panic of a type name without a reader included; of any other the loop cuts the placeholders one by one and records the offsets of the readable arguments. |
| `PrintFmt.Execute` | bigworlds/src/machine/cmd/print.rs:99-125 | Values are inserted at recorded offsets plus what was added so far; values that fail are skipped. |
| `PrintFmt.Print` | bigworlds/src/machine/cmd/print.rs:41-125 | Reading the arguments and executing, end to end. |
| `PrintFmt.AddressPrintsValue` | bigworlds/src/machine/cmd/print.rs:44-49 | A template that is an address prints the value it stands for, or nothing if there is none, whatever else is passed. |
| `PrintFmt.StripTemplate` | bigworlds/src/machine/cmd/print.rs:41-96 | Stripping a template whose joined pieces hold no placeholder leaves exactly the joined pieces, and records each value where its pieces meet. |
| `PrintFmt.PrintsInterpolated` | bigworlds/src/machine/cmd/print.rs:41-125 | If moreover the template does not have exactly four parts at its dots, printing, end to end, equals direct left-to-right interpolation if and only if no argument that belongs to a placeholder panics, which one of four parts does whose type name has no reader. |
| `PrintFmt.InterpolatesIff` | bigworlds/src/machine/cmd/print.rs:41-125 | Printing equals interpolation for exactly the arguments that do not panic, whatever the values, if and only if the joined pieces hold no placeholder and the template does not have exactly four parts at its dots. |
| `PrintFmt.DoubledBraces` | bigworlds/src/machine/cmd/print.rs:41-125 | For doubled braces and two values printing fails: an offset lies past the end of the text. |
| `Address.SplitJoin` | bigworlds/src/address.rs:29-48 | Splitting a joined text gives back parts that do not hold the separator. |
| `Address.TypeNameReadBackIff` | bigworlds/src/var.rs:97-189 | A printed type name is read back if and only if the type is none of StringGrid, List and Grid. |
| `Address.TypeIsReadIff` | bigworlds/src/var.rs:97-189 | A text is read as a type if and only if it is the name the type prints, unless that is one of the three, or one of the three aliases. |
| `Address.AddressReadBackIff` | bigworlds/src/address.rs:207-239 | An address is read back if and only if no name holds the separator and its type name is read back. |
| `Address.AddressIsReadIff` | bigworlds/src/address.rs:207-239 | A text is read as an address if and only if it consists of its names and of a name its type is read by, separated by dots and holding none. |
| `Address.LocalReadBackIff` | bigworlds/src/address.rs:153-191 | The same for local addresses. |
| `Address.ShortReadBackIff` | bigworlds/src/address.rs:26-134 | The same for short local addresses of two and three parts. |
| `Address.PrintInjective` | bigworlds/src/address.rs:207-239 | Two addresses whose names hold no separator print alike if and only if they are equal, whatever their types. |
| `Address.LocalPrintInjective` | bigworlds/src/address.rs:153-191 | The same for local addresses. |
| `Address.ShortPrintInjective` | bigworlds/src/address.rs:26-134 | The same for short local addresses; the two forms never print alike. |
| `NetAddress.CompositeReadBackIff` | bigworlds/src/net/mod.rs:28-75 | Encoding, transport and inner address (socket, URL or file) are read back in all four combinations if and only if what remains of the inner text reads as the inner address and no separator in that text is taken for one further out. |
| `NetAddress.PlainReadBackIff` | bigworlds/src/net/mod.rs:28-75 | Unless a socket prints with separators: if and only if the inner text reads as the inner address and holds no `://`, and no `@` unless a transport is given. |
| `NetAddress.TransportReadBack` | bigworlds/src/net/mod.rs:192-222 | Every printed transport name is read back and holds no separator. |
| `NetAddress.ReadTransportIff` | bigworlds/src/net/mod.rs:192-222 | A text is read as a transport if and only if, in lower case, it is one of its names. |
| `NetAddress.ReadEncodingIff` | bigworlds/src/net/mod.rs:259-285 | The same for encodings. |
| `NetAddress.EncodingReadBack` | bigworlds/src/net/mod.rs:259-285 | Every printed encoding name is read back and holds no separator. |
| `Truncate.TruncateStr` | bigworlds/src/string.rs:47-59 | Returns the longest prefix within the size that ends on a boundary, the whole text if it fits, and of UTF-8 the longest run of whole characters that fits. |
| `Truncate.BoundaryIff` | bigworlds/src/string.rs:47-59 | The boundaries of an encoded text are exactly where its characters end. |
| `Truncate.DecodesBack` | bigworlds/src/string.rs:47-59 | The octets of a character are those of section 3 of RFC 3629: it is recovered from them. |

## Left out

- Scatter.Star.WorkerQuery: stated for queries without limit that ignore the archive, because a limit applies to each partition by itself, and in the star only, because linked workers re-broadcast queries without remembering who ran them.
- Query.ProcessQuery: with a limit, how many entities are chosen is said and not which, because the original takes them in hash map order; with a filter that repeats a name, only that they are within the limit; only the entity limit is modelled.
- Query.ByRange: a value is known by its type, its text and its numbers, and the bounds by theirs; how other types are coerced is not part of this model.
- Flood.Cluster.Invoke: requests that arrive over the network or from a behavior register no hop, so the guarantees do not hold there; calls between participants succeed, and parallel branches are taken one after the other, which a delivery limit could tell apart.
- Flood.Cluster.InvokeFromHandle: over links made one way only, which no caller in the repository sets up, running everyone once has a sufficient condition (no worker forks) and a defeating one (the entry forks).
- Flood.LimitIsKeptIff: looks at one worker's record of one signal, not at a whole flood under a limit.
- Placement.Cluster.Reorganize: assumes that nobody else writes during the pass, that names are unique across the cluster and that clocks agree.
- Partition.Partition.ArchiveEntities: assumes that no access lies after the clock reading; seconds do not wrap around.
- Turn.TameRunsCount: one request under way per client; a closed clock channel is not modelled, and the monitor reads the counter in the step in which it sees the change.
- Barrier.ClocksStayTogether: one round at a time over a fixed set of workers; of what a worker does in a step only its clock is modelled.
- Includes.FromFiles: paths are joined and split by given operations, and behaviors are located as on Linux.
- Replication.Manager.Handle: restarting changed behaviors before a worker takes a model is only a way for the call to fail.
- NetAddress.CompositeReadBackIff: lower-casing covers ASCII letters; which texts resolve to sockets or are URLs, and how those are shown, is given by the platform.
- PrintFmt.FromArgs: option parsing of the arguments before the template is left out.
- Filters and layouts without an implementation (ids, distances, attribute ranges) are one unsupported case each; the merges of native and of typed products are the failure they panic with.
- Transports, servers and executors: calls are synchronous or interleaved steps.
- Leader election, forking and reconnection of orphaned workers.
- Storage and wire formats: the archive is a map, snapshots are not modelled.
- The script interpreter, its parser and the other commands.
- Removal of an entity through the leader, detached entities, lua and library behaviors, services, the command line.
