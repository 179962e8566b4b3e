# DistCompile in Dafny

DistCompile spreads a build over workers: a client preprocesses sources, keys them and submits a graph of compiles,
archives and links; a coordinator keeps builds, tasks and an action cache in a database, hands ready tasks to workers,
and counts them down as results arrive. This project models the coordinator's state machine, the graph algorithms it
relies on, the client's keys, state file and task graph, and the small codecs between them, and proves what they are for.

## How it is laid out

| modules | content |
|---|---|
| `Tables`, `Steps` | rows of the tables; every request as a relation between two snapshots of tables, cache and blob store |
| `Cascade`, `Submission`, `CoordinatorService` | the mutually recursive count-down, the walk over a new build, and the class whose methods change the tables in place, each proved against its step |
| `Effects` | the same steps again, column by column: which rows a request changes, and to what |
| `Invariant`, `Lifecycle`, `Runs`, `Leases` | what every step keeps, what a row may become, and what follows for whole runs |
| `Meaning` | from-scratch evaluation of a build, and why caching, retries and late results never show |
| `Transactions`, `Locks`, `BuildMarks`, `TwoSinks`, `Isolation` | a finer model: overlapping transactions with row locks that see only what is committed |
| `WakeUp` | another: long-polling claims that pass over held rows, and the generation they wait for |
| `Graphs`, `TopoOrder`, `UpwardRank`, `Balance`, `Lpt`, `Partitioning` | topological order, critical-path ranks, largest-first partitioning |
| `HashInput`, `Lines`, `PgArray`, `Preprocess`, `CompileKeys`, `BlobStore` | what is hashed, text columns, array literals, compile keys, the blob store |
| `TextStream`, `StateFile`, `StateReads`, `StateLines`, `StateLimits`, `StateGaps`, `StatePads`, `Reuse`, `ClientGraph`, `ClientTasks` | the client's incremental state, what survives it and what does not, and its task graph |
| `Witnesses` | inputs at which a promise meets its limit |

The coordinator is a class with fields for the builds and the cache. `Finished` and `MakeReady` call each other as in
the source, while a ghost set of owed edges (dependency finished, dependent not yet counted down) says how far the rows are
from being settled. Where they end up is fixed by an equation between the rows before and after (`Tables.Cascaded`), which
has one solution on an acyclic graph (`Cascade.CascadeIsUnique`). Runs are sequences of steps from the empty store: any
number of builds share one cache, and claims, retries, expiries and late results interleave freely.

## What is assumed

- A transaction is one atomic step, and steps are serialised, except in `Transactions`. There completions overlap, each
  statement sees its own transaction's changes and what others committed (`src/db.h:89` is a plain `BEGIN`), changed rows
  stay locked to the end, and transactions cascade, fail tasks, commit or abort. The counts come out right under any overlap;
  the check for a finished build, made only by sinks, turns out to be complete for exactly the graphs with one sink.
- Reaping expired leases and ending the builds that gave up is one step; the source commits them separately.
- Runs are calm for most theorems: no submission enters a compile as cached while it has a dependency without output
  (`Steps.IsPremature`). The coordinator does not check it. `Runs.CountsAreExact` says that this is exactly what exact counts
  need, and after such an entry the steps no longer follow the code, on which nothing rests. A compile that waits for
  nothing is never entered so; one turns a preprocessed source into an object (`proto/distcompile.proto:39`), and the
  client's compiles are like that (`ClientGraph.SubmissionIsCalm`).
- `NamesAreValid`: the hash function yields 64 lower-case hexadecimal digits. It is otherwise uninterpreted; that keys
  identify results is assumed only for the builds of the run (`KeysAgree`), and follows when no two inputs hashed for them
  collide and the client keys its compiles honestly (`Meaning.NoCollisionMeansKeysAgree`).
- For what outputs mean: a worker that reports success reports what running some earlier assignment of that task produces
  (`Honest`). The job of a task is taken as its arguments and names read after being stored one per line, which is the job
  as specified exactly when they survive that (`Meaning.JobIsAsSpecified`). A task whose only dependency has an empty name
  is excluded (`Steady`), and so is a compile with dependencies, as what these are handed depends on when they became ready
  (`Meaning.SteadyNames`, `Runs.DependentCompileSays`).
- Time is a parameter of the requests; nothing says that it advances.
- For reuse: a file with the same stamp has the same content, preprocessing depends only on the files it names, all of them
  have stamps, and no file changes during a build (`Reuse.WellBehaved`). The configuration word stands for the flags. A
  source is one word, or two or three when keys and digests look like hashes (`Reuse.SourceOk`), and no two differ only by
  white space around one of them; `Witnesses.UnseenWhenNoneShadowed` says that this is exact for sources of one word.

Documentation and code disagree nowhere that matters here, but a comment at `src/coordinator.cpp:459-461` claims that only
sinks need the count; `Isolation.NoticedWhenOneSink` gives its exact scope. The source does not remove repeated
libraries of a program although it removes repeated objects; `ClientGraph.AdmittedWhenLibsDistinct` and
`ClientGraph.RepeatedLibIsUnavailable` say what that costs.

## Model

| member | source | states |
|---|---|---|
| Meaning.RunMeans | src/coordinator.cpp:277-505 | in every state of every run, each done or cached task has the output that evaluating its build from scratch gives, and so has every cache entry |
| Meaning.OutputsMean | src/coordinator.cpp:277-505 | what a client is given for a task is its from-scratch output |
| Meaning.RunsAgree | src/coordinator.cpp:277-505 | two runs with different histories give the same output to the same task of the same specification |
| Meaning.ResubmissionIsImmediate | src/coordinator.cpp:347-397 | once a build is done, submitting its specification again at any later time caches every task and ends the build inside the submission |
| Meaning.NoCollisionMeansKeysAgree | src/coordinator.cpp:60-69 | without collisions among what is hashed, and with honest compile keys, tasks that share a key share their meaning |
| Meaning.ClaimedJob | src/coordinator.cpp:540-551 | running a claimed assignment yields the from-scratch output of its task |
| Meaning.JobIsAsSpecified | src/coordinator.cpp:378-380 | an archive or link is run with exactly the specified arguments and names if and only if these survive being stored one per line |
| Meaning.SteadyNames | src/coordinator.cpp:485-488 | names entered with a build and names entered when a task becomes ready read back alike if and only if they are not a single empty one |
| Runs.BuildStateIsVerdict | src/coordinator.cpp:459-505 | at every step boundary a build is failed if and only if some task failed, and done if and only if all have outputs |
| Runs.CountsAreExact | src/coordinator.cpp:373-490 | in every state of a run the pending count of each task is the number of its dependencies without output, and it waits exactly while that is positive, if and only if no submission in the run entered a compile as cached that had dependencies without output |
| Runs.BuildEndsOnce | src/coordinator.cpp:499-504 | a build that left running never changes state again |
| Runs.FinalStatesStay | src/coordinator.cpp:288-321 | rows that are done, cached or failed never change again |
| Runs.RedeliveryIsHarmless | src/coordinator.cpp:284-321 | an accepted result delivered again is accepted if and only if it was a success whose output was missing then, is there now, and the task is still unfinished; otherwise it changes nothing |
| Witnesses.SecondDeliveryIsAccepted | src/coordinator.cpp:284-297 | a run of five requests in which one success is accepted twice |
| Runs.StaleReportIsRefused | src/coordinator.cpp:302-313 | a transient failure of an older attempt is refused once a newer attempt was claimed |
| Runs.ClaimsAreNumbered | src/coordinator.cpp:522-528 | the attempt of an assignment is the number of claims of that task so far, at most the limit |
| Runs.BuildsTerminate | src/coordinator.cpp:277-328 | steps that change a task of a build, plus the work left, never exceed n * (2 * limit + 2), where the limit of attempts counts as at least one |
| Runs.NoBuildIsStuck | src/coordinator.cpp:360-397 | a build in progress always has a ready or a running task |
| Runs.AssignmentSays | src/coordinator.cpp:540-551 | the inputs of an archive or link decode to the outputs of its dependencies in order, and the names do if and only if they survive being stored line by line; without dependencies it is handed the lines of its own input |
| Runs.CompileAssignmentSays | src/coordinator.cpp:373-376 | the assignment of a compile without dependencies is its one input under the fixed name |
| Runs.DependentCompileSays | src/coordinator.cpp:465-490 | a compile with dependencies is handed its source, or, once it had to wait, their outputs like an archive |
| Runs.NothingDangles | src/coordinator.cpp:284-297 | every input of a claimed assignment is in the blob store, then and at any later time, unless the task brought its own input as an archive or link without dependencies |
| Runs.AssignmentsAgree | src/coordinator.cpp:468-489 | two claims of a task hand out the same work and differ in the attempt only |
| Runs.AssignmentIsFor | src/coordinator.cpp:540-551 | an assignment bears the build, id, attempt, kind and name of its task, and its arguments if and only if none holds a newline and they are not a single empty one |
| Runs.RunGrows | src/coordinator.cpp:295-297 | cache entries and blobs are never changed or lost |
| Invariant.StepKeeps | src/coordinator.cpp:134-556 | every request keeps the invariant that the theorems on runs rest on, a submission that enters a compile as cached too early excepted |
| Lifecycle.StepMoves | src/coordinator.cpp:277-574 | the only transitions between the six states, and for each which request may make it, on which row and under which guard |
| Effects.SubmitAnswers | src/coordinator.cpp:153-177 | a submission is invalid if and only if a compile's key or input is not 64 hexadecimal digits or the graph is no graph without cycles; it is told to upload only if a compile has neither result nor source; only an acceptance changes the tables |
| Effects.SubmitEnters | src/coordinator.cpp:340-442 | the columns of each new row: rank, part and count of dependencies not known, the key hashed from the outputs of its dependencies, cached with the cache's output if that key is there, ready with its source uploaded, or waiting |
| Effects.ClaimTakes | src/coordinator.cpp:507-553 | a claim leases, for the full length from now, the ready task of highest priority in the worker's part, or in any part when its own has none, that did not fail on this worker within three seconds; no other row changes |
| Effects.HeartbeatRenews | src/coordinator.cpp:247-255 | a heartbeat makes the leases of what the worker runs end a full length from now, and does nothing else |
| Effects.ReapTakes | src/coordinator.cpp:555-576 | the reaper changes a row if and only if it is running and its lease ended before now; it then has no owner, remembers whom it failed on, and is failed at the limit of attempts, ready below it |
| Effects.ResultIsAccepted | src/coordinator.cpp:277-323 | successes with their output stored and fatal failures are accepted while the task is ready or running, other reports only for the running attempt; a refused one changes nothing |
| Effects.RetryLeadsBack | src/coordinator.cpp:301-311 | an accepted transient failure, or success without its output, makes the task ready below the limit of attempts and fails it and its build at the limit |
| Effects.FailureIsNotClaimedBack | src/coordinator.cpp:522-528 | a task made ready again is withheld for three seconds from the worker it failed on, and offered to any other at once |
| Effects.FailureEnds | src/coordinator.cpp:312-318 | an accepted fatal failure fails the task and the build, and changes no other row |
| Effects.SuccessFinishes | src/coordinator.cpp:288-299 | an accepted success finishes its task, fills the cache unless the key is there, leaves rows that did not wait alone, and ends the build exactly when every task is finished |
| Effects.WaitingIsResolved | src/coordinator.cpp:446-490 | after an accepted success a waiting task still waits, counting its unfinished dependencies, or all are finished and it has the key hashed from kind, toolchain, arguments, names and outputs; with that key in the cache it is cached with that output, and only without is it ready |
| Leases.ReapedWhenSilent | src/coordinator.cpp:555-576 | over runs, a running task last claimed or renewed at some time is taken by a reaper if and only if it comes more than the length of a lease later |
| Leases.LeaseProtects | src/coordinator.cpp:247-255 | a task claimed or renewed at some time is not touched by any reaper within the length of a lease, whatever happens between |
| Cascade.CascadeIsUnique | src/coordinator.cpp:446-490 | rows after a cascade are determined by the rows before, whatever the order of visits |
| Cascade.CountedDown | src/coordinator.cpp:453-457 | one count-down pays one owed edge and keeps the mid-cascade counts |
| Cascade.BecameCached | src/coordinator.cpp:478-483 | a task found in the cache mid-cascade owes all its dependents and keeps the mid-cascade counts |
| Cascade.GainedOutput | src/coordinator.cpp:288-298 | a finished task owes its dependents and keeps the mid-cascade counts |
| Cascade.AdvancedTransitive | src/coordinator.cpp:446-490 | parts of a cascade compose: a task made ready early keeps inputs that are still right at the end |
| Submission.Walk | src/coordinator.cpp:350-397 | for any graph, the walk fails exactly when a compile that could run at once has no source in the store, and otherwise yields the rows that the equation for a new build asks for |
| Submission.OnlyCachedCompilesMiscount | src/coordinator.cpp:373-396 | in any new build, whatever its graph, waiting goes with a positive count in exactly those rows that are not compiles found in the cache with dependencies the cache does not tell |
| Witnesses.CachedCompileStillCounts | src/coordinator.cpp:373-396 | a build of two compiles whose second row is cached and still counts its dependency |
| Witnesses.CachedCompileIsReopened | src/coordinator.cpp:465-490 | once that dependency has its output, the cached row is made ready under another key |
| CoordinatorService.Coordinator.constructor | src/coordinator.cpp:77-87 | starts empty, with the invariant |
| CoordinatorService.Coordinator.Resume | src/coordinator.cpp:77-81 | starts on what an earlier coordinator left, with the invariant |
| CoordinatorService.Coordinator.PutBlobs | src/coordinator.cpp:134-143 | stores a batch up to the first blob whose bytes do not match its name |
| CoordinatorService.Coordinator.SubmitBuild | src/coordinator.cpp:153-177 | for any specification: refuses what is unkeyed or cyclic, else ranks, partitions and enters the build; ranks are longest chains, and parts are in range, keep groups together and balance the costs |
| CoordinatorService.Coordinator.Enter | src/coordinator.cpp:339-442 | enters the rows of a build all or none, and ends it if everything was cached |
| CoordinatorService.Coordinator.Finished | src/coordinator.cpp:446-463 | pays all edges out of a finished task, through any depth of cached dependents, and leaves the build's state right |
| CoordinatorService.Coordinator.MakeReady | src/coordinator.cpp:465-490 | a task with all its inputs is cached, and cascades, or becomes claimable |
| CoordinatorService.Coordinator.MaybeFinish | src/coordinator.cpp:492-505 | ends a build in progress exactly when its tasks say so |
| CoordinatorService.Coordinator.Choose | src/coordinator.cpp:525-538 | the best task of the worker's own part, else the best of any; none exactly when none is eligible |
| CoordinatorService.Coordinator.TryClaim | src/coordinator.cpp:507-553 | leases the chosen task and returns the assignment read off its row |
| CoordinatorService.Coordinator.KeepAlive | src/coordinator.cpp:247-255 | renews the leases of the worker's running tasks and nothing else |
| CoordinatorService.Coordinator.ReapExpired | src/coordinator.cpp:555-576 | requeues or fails exactly the running tasks whose lease ran out, and ends the builds that gave up |
| CoordinatorService.Coordinator.CompleteTask | src/coordinator.cpp:277-337 | success, missing output, transient and fatal results, accepted or refused by the state of the row alone |
| Isolation.NoticedWhenOneSink | src/coordinator.cpp:459-504 | under every overlap of transactions, with row locks, cascades, failures and aborts, the mark that a build is done is exact at every commit if and only if its graph has one sink |
| TwoSinks.Overlooked | src/coordinator.cpp:494-504 | for any graph with two sinks, a history in which everything finishes and nobody marks the build done |
| Isolation.CountsComeOut | src/coordinator.cpp:446-458 | under every overlap, committed counts are exact: each dependent was counted down once for each finished dependency, and waits exactly while it has others |
| Isolation.ReadyWithInputs | src/coordinator.cpp:465-490 | a count-down that makes a task ready, or finds it in the cache, sees the outputs of all its dependencies |
| Isolation.LeavesWaitingOnce | src/coordinator.cpp:446-490 | under every overlap a task leaves waiting at most once, and what is finished stays as it is |
| BuildMarks.MarksAreTrue | src/coordinator.cpp:492-505 | under every overlap a build marked done is done, and it is marked failed if and only if a task has failed |
| WakeUp.NoLostWakeUp | src/coordinator.cpp:259-275 | a claimer that sleeps with its generation current misses only tasks whose producer has yet to bump it, tasks it failed itself that were still cooling down when it looked, and tasks it passed over whose row is still held or whose holder has aborted |
| WakeUp.SleepersAreWoken | src/coordinator.cpp:600-606 | once all bumps are made, a claimer asleep beside a task that nothing holds and that did not fail on its worker has an outdated generation, unless it passed over the task for a transaction that then aborted |
| Witnesses.AbortIsNotHeard | src/coordinator.cpp:320-326 | a history in which a claimer passes over a task for a transaction that aborts, and sleeps on beside it |
| WakeUp.NothingToSkip | src/coordinator.cpp:522-533 | while nothing is held, a claim that passes over held rows is the claim of the serialised steps |
| WakeUp.SilentOffersNothing | src/coordinator.cpp:571-571 | a request that wakes nobody offers no worker a task that was not offered before |
| TopoOrder.TopologicalOrder | src/graph.cpp:8-36 | succeeds if and only if ids and dependencies are well formed and a ranking exists, with a permutation that lists dependencies first; an error is given if and only if it is what the first faulty task is rejected for, or tells of a cycle in a well-formed graph |
| Graphs.TopologicalMeansAcyclic | src/graph.cpp:26-35 | a graph with a topological order has a ranking |
| Graphs.StuckSetHasNoRanking | src/graph.cpp:28-33 | tasks that all wait for one another admit no ranking |
| UpwardRank.UpwardRanks | src/graph.cpp:38-51 | each rank is the cost of the costliest chain of dependents that starts there: an upper bound for all, attained by one |
| UpwardRank.DependencyRanksHigher | src/graph.cpp:38-51 | a task ranks above whatever waits for it by at least its own cost |
| UpwardRank.RankIs | src/graph.cpp:38-51 | a rank is the task's cost, or that plus the rank of the dependent that ranks highest |
| Partitioning.Partition | src/graph.cpp:53-92 | parts are in range, groups stay together, and over the tasks' own costs, of which one below one counts as one, no load exceeds 4/3 - 1/(3 parts) of any other split of the same groups, nor the average by more than (1 - 1/parts) of the costliest group |
| Partitioning.Group | src/graph.cpp:60-74 | two tasks share a unit exactly when they have the same home: the first archive, else the first link, that uses the compile, else the task itself |
| Partitioning.HomeIs | src/graph.cpp:60-74 | the home of a compile is the first archive that lists it, else the first link that does, else itself; anything else is its own home |
| Partitioning.SameLoad | src/graph.cpp:76-90 | a part carries the same load counted by units or by tasks |
| Lpt.Schedule | src/graph.cpp:78-89 | largest first onto the lightest obeys both bounds for any costs |
| Balance.GrahamStep | src/graph.cpp:82-89 | placing the next largest unit on the lightest part keeps the 4/3 bound against any assignment |
| Balance.LargeUnitFits | src/graph.cpp:82-89 | a unit above a third of the limit still fits, by counting parts that hold a single unit |
| Balance.LoadsConserve | src/graph.cpp:82-89 | the loads add up to the total cost |
| HashInput.EncodeInjective | src/util.cpp:43-57 | length-prefixed lists of parts hash equal bytes only if they are equal |
| HashInput.PrefixDigit | src/util.cpp:43-57 | each byte of a length prefix is the digit of its place in base 256, lowest first |
| HashInput.HashParts | src/util.cpp:43-57 | feeds the hash the prefixed parts in order |
| HashInput.ActionPartsInjective | src/coordinator.cpp:60-69 | equal key parts mean the same kind, toolchain, arguments, names and digests |
| HashInput.BuildActionKey | src/coordinator.cpp:60-69 | the key of an action from names and digests in turn |
| Lines.SplitOfJoin | src/coordinator.cpp:33-50 | splitting undoes joining for exactly the lists without newlines, a single empty item excepted |
| Lines.SplitLines | src/coordinator.cpp:39-50 | the loop computes the fields |
| PgArray.RoundTrip | src/db.cpp:84-126 | parsing undoes printing if and only if no empty item was printed as NULL |
| PgArray.ParseOfPrint | src/db.cpp:84-126 | what parsing gives in every case |
| PgArray.PrintIs | src/db.cpp:84-100 | what is printed: braces around comma-separated items, each in quotes with a backslash before its own quotes and backslashes, or NULL |
| PgArray.ParseOfDenoted | src/db.cpp:102-126 | any literal of items quoted that way, or bare ones without quote and comma, parses as the items it denotes |
| PgArray.PrintArray | src/db.cpp:84-100 | the loop prints the quoted items |
| PgArray.ParseArray | src/db.cpp:102-126 | the loop parses as the recursive reader does |
| Preprocess.KeysEqualWhen | src/preprocess.cpp:77-85 | two compiles hash the same bytes if and only if toolchain, language, compiler flags and text agree, where C without debug information looks at source lines only |
| CompileKeys.InsertedLine | src/preprocess.cpp:34-85 | putting a line into a text leaves the hashed bytes alone if and only if it is C without debug information and the line holds only blanks, tabs and carriage returns, or starts with a number sign, a blank and a digit |
| Preprocess.MakeConfig | src/preprocess.cpp:10-32 | the shares of preprocessor and compiler, and a debug flag determined by the compiler's share |
| CompileKeys.FlagGoes | src/preprocess.cpp:16-30 | which flags the preprocessor gets, by their characters, and which take the next word with them |
| Preprocess.StripLineMarkers | src/preprocess.cpp:39-56 | the loop over positions keeps exactly the lines that are neither blank nor markers |
| Preprocess.CompileKey | src/preprocess.cpp:77-85 | hashes the parts that the theorem is about |
| Preprocess.MarkerFiles | src/preprocess.cpp:58-75 | the files of the marker lines in order of first mention |
| Preprocess.FilesOfAreThose | src/preprocess.cpp:58-75 | every file that a marker names is listed, no other, and none twice |
| CompileKeys.LineNames | src/preprocess.cpp:34-70 | a line names a file if and only if it starts like a marker and its first two quotes enclose that name, which is not empty and does not start with an angle bracket |
| BlobStore.PutAllKeeps | src/cas.cpp:26-32 | the store only grows, stays content-addressed, and takes a batch exactly when all names match |
| BlobStore.PutsCommute | src/cas.cpp:26-32 | the order of two writers, whatever names they expect, matters neither to the store nor to what either is told |
| BlobStore.PutAllStores | src/coordinator.cpp:134-143 | a batch leaves exactly the names that were there and those of its blobs in front of the first whose bytes do not match its name |
| BlobStore.Cas.PutBlob | src/cas.cpp:26-32 | stores under the hash unless another name was expected |
| BlobStore.Cas.Get | src/cas.cpp:40-46 | the bytes filed under the name, which hash to it, or nothing |
| StateFile.LoadOfSave | src/dcc.cpp:67-97 | loading what was saved of good units gives the remembered ones with all their stamps under the same configuration, and nothing under another |
| StateLimits.ComesBackWhen | src/dcc.cpp:67-97 | for any units of different sources, what was saved comes back if and only if nothing was to be kept, or the configuration is a word and each kept unit survives: words for source, key and digest, 64-bit numbers, and paths that are not empty, start with no white space and hold no newline; only the last path of the file may be empty |
| StateReads.LoadUnitsAre | src/dcc.cpp:67-86 | whatever a file holds, sources and keys that are loaded are words, and paths hold no newline and start with no white space |
| StateGaps.LoadsUpToGap | src/dcc.cpp:67-97 | a source of two or three words ends the loading: the units before it come back, and one more without stamps |
| StatePads.PadsMislead | src/dcc.cpp:67-97 | a source with white space around it is loaded in the place of the source without it |
| StatePads.LoadsTrimmed | src/dcc.cpp:67-97 | units load as if white space around their sources had been removed before they were saved |
| Witnesses.GapInSourceIsLost | src/dcc.cpp:88-97 | a source with a blank in its name does not come back |
| Witnesses.LastPathMayBeEmpty | src/dcc.cpp:67-97 | the corner of the exact condition: an empty path at the very end comes back |
| StateFile.RememberedAre | src/dcc.cpp:88-97 | with distinct sources the remembered units are exactly the keyed ones without error |
| StateFile.LoadState | src/dcc.cpp:67-86 | the stream-driven loop computes what the theorem is about, for any file |
| StateFile.SaveState | src/dcc.cpp:88-97 | the loop prints what the theorem is about |
| Reuse.ReuseIsInvisible | src/dcc.cpp:176-187 | after any history of edits and builds, at any point of it, a build gets the units it would get without a state file, unless white space around another source of the history is all that tells the two apart |
| Reuse.NotPreprocessedAgain | src/dcc.cpp:88-106 | a unit that a completed build wrote down is taken over as it is, whatever the preprocessor would now say, while each of its files keeps time and size |
| Witnesses.BlankMisleadsReuse | src/dcc.cpp:88-97 | two sources told apart by a leading blank: the next build takes the key of one for the other |
| Witnesses.ShadowMisleadsReuse | src/dcc.cpp:88-97 | the same for any source of one word with any white space around it |
| Witnesses.UnseenWhenNoneShadowed | src/dcc.cpp:67-187 | for sources of one word each, reuse can never be seen if and only if no two of them differ by white space around one of them only |
| Reuse.ValidMeansFresh | src/dcc.cpp:99-124 | a remembered unit whose stamps have not moved is what preprocessing would give now |
| Reuse.HistoryKeepsFile | src/dcc.cpp:88-97 | what is loaded from the state file is what preprocessing gave on some earlier disk, or can never be reused |
| Reuse.CheckStamps | src/dcc.cpp:99-106 | valid exactly when there are stamps and none has moved |
| Reuse.GetKeys | src/dcc.cpp:176-187 | the loop reuses or preprocesses each unit |
| Reuse.GetTexts | src/dcc.cpp:206-213 | reused units without a cached result are preprocessed after all |
| Reuse.UncachedIsPreprocessed | src/dcc.cpp:205-213 | once texts are fetched, every unit whose result is not cached is what the preprocessor says of its source now |
| Reuse.RunPreprocess | src/dcc.cpp:108-124 | fills the unit, with a stamp for every file that has one, or notes the error |
| ClientGraph.BuildGraph | src/dcc.cpp:245-308 | compiles, then archives, then links, with the dependencies each target asks for |
| ClientGraph.DistinctSources | src/dcc.cpp:159-172 | one unit for each distinct source of the targets |
| ClientGraph.Compiles | src/dcc.cpp:249-270 | one compile for each distinct key, made from the first unit that has it; every unit is served by the compile of its key |
| ClientTasks.CompileIs | src/dcc.cpp:250-270 | a compile bears the name, key, input, cost and arguments of the first unit with its key |
| ClientTasks.UnitIsCompiled | src/dcc.cpp:250-270 | exactly one task compiles a unit's key |
| ClientTasks.LibraryIs | src/dcc.cpp:273-285 | the task of a library waits for exactly the compiles of its sources' keys, once each, in order of first appearance |
| ClientTasks.ProgramIs | src/dcc.cpp:286-308 | the link of a program waits for exactly the compiles of its sources' keys, once each, in order of first appearance, and then for the archives of its libraries as it names them; its arguments are the driver for its language and the linker's flags |
| ClientTasks.NoOtherTasks | src/dcc.cpp:245-308 | every archive is named after a library and every link after a program |
| ClientGraph.GraphIsSound | src/dcc.cpp:245-308 | ids are positions, compiles wait for nothing, everything else for something, and there is no cycle |
| ClientGraph.SubmissionIsCalm | src/dcc.cpp:249-270 | no submission of the client's graph enters a compile as cached too early |
| ClientGraph.AdmittedWhenLibsDistinct | src/dcc.cpp:299-300 | the coordinator can admit the graph if and only if no program names a library twice |
| ClientGraph.RepeatedLibIsUnavailable | sql/schema.sql:44-50 | a program that names a library twice is turned away on every submission and leaves no trace, as unavailable once its sources are uploaded |
| ClientGraph.LinkDriver | src/dcc.cpp:293-305 | a program is linked by the C++ driver exactly when a source of its own or of one of its libraries is C++ |

## Left out

- RPC plumbing, connection pool, query layer, statistics and timers: wrappers around libraries.
- Progress of overlapping transactions: which waiting transaction gets a lock, deadlocks and retries are choices of the history; each transaction completes one task with its cascade, and submissions, claims and the reaper do not take part.
- The gap between the two statements of the reaper, lost commits, coordinator crashes and database errors: committed steps persist, and reaping is one step.
- Deadlock freedom of cascades over several levels: recovery is by retrying the transaction.
- WakeUp.NoLostWakeUp: that a row is held is a choice of the history, and only requests that wake the workers release rows by committing; a sleeper looks again by itself after a quarter of a second, which is not timed here.
- Wall-clock claims: poll intervals, the reaper's period and the length of the cooldown are constants or parameters.
- Worker registration and partition lookup, build reports, cache checks and manifest parsing: queries that add easy members. Manifests are taken as the parser leaves them: distinct target names, at least one source, known libraries.
- Row ids are pairs of build and position; log, execution time and hit-count columns are not kept.
- Task kinds outside the three known ones, which the wire format allows: not representable.
- 64-bit overflow of costs, ranks and loads: costs are unbounded integers.
- Write failures of the blob store: a put succeeds when the name matches.
- Runs.FinalStatesStay: for calm runs, as the other theorems on runs; `Witnesses.CachedCompileIsReopened` is where it fails without, and what else cascades make of such rows is not followed.
- CoordinatorService.Coordinator.SubmitBuild: a submission that enters a compile as cached too early ends the invariant, and the other methods are not proved for what follows.
- Leases.LeaseProtects: where later claims and heartbeats of the task bear no earlier time; `Leases.ReapedWhenSilent` asks nothing of the clock.
- Meaning.RunMeans: for builds without a lone unnamed dependency and without dependencies of compiles, and for runs of honest workers whose keys agree.
- Runs.BuildStateIsVerdict: for serialised transactions; `Isolation.NoticedWhenOneSink` says what is left without that.
- Reuse.ReuseIsInvisible: for the sources of `Reuse.SourceOk`; parallel preprocessing is taken one unit after the other, as units do not share state; path resolution against the root is not modelled.
- StateFile.LoadOfSave: for good units; `StateLimits.ComesBackWhen` gives the exact condition.
- Reuse.HistoryKeepsFile: for sources of up to three words; what a load makes of one with four or more depends on whether the fourth word and the leading digits of the key parse as numbers, and is not followed.
- Worker execution, temporary directories, file reads and glob expansion: the tool is a function of the assignment.
