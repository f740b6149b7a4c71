# ForgeBoss control plane: a Dafny model

ForgeBoss lets several workers change one repository without colliding and without overspending. This project models
the code that is responsible for that and proves what it guarantees, and where it does not. `dafny verify dfyconfig.toml`
checks the whole project.

| File | Models |
|---|---|
| `Paths.dfy`, `Scheduler.dfy` | path canonicalisation, the conflict test, greedy batching |
| `Authority.dfy` | identities, writable scopes and budget requests of the store |
| `Store.dfy`, `StoreProofs.dfy`, `StoreHistories.dfy` | the lease store as a transactional state machine over tasks, leases, runs and events: one step, what the event log says about the tables, and whole histories |
| `StoreEffects.dfy`, `StoreLaws.dfy` | what each transaction needs and writes, field by field, and what requests are worth over whole histories: tasks stay as asked for, leases last as long as granted |
| `ControlStore.dfy` | the store as an object whose methods update the tables row by row, each one proved to be one step of that machine |
| `SingleFlight.dfy`, `LateWaiter.dfy` | keyed single-flight requests of the daemon, as interleaved lock regions, and a run in which a waiter comes too late |
| `GovernedLaunch.dfy`, `WorkspaceExclusion.dfy`, `LaunchTraces.dfy` | governed launches, interleaved with each other and with other traffic on the store; no two of their workers share a worktree while their leases are live; what has to come before a worker and before a release |
| `ExecutorGuard.dfy` | the one-shot paid authority under the workspace fence, and postflight |
| `HostLauncher.dfy`, `LaunchLaws.dfy` | the host launcher's exits, quarantine, and the daemon's release of the lease; exactly when a launch spawns, marks and releases |
| `NodePaths.dfy`, `ImportClosure.dfy`, `Selection.dfy`, `Scope.dfy`, `ScopeFacts.dfy`, `ScopeBuilder.dfy`, `ScopeLaws.dfy`, `CrowdedScope.dfy` | the scope builder: import resolution, the bounded import search, evidence and scores, what decides a scope, the builder itself, evidence and scores in plain terms, and a scope that is refused |
| `CostLedger.dfy` | the reservation ledger |
| `WriteGate.dfy` | spacing, rolling window and de-duplication of GitHub writes |
| `Common.dfy` | options, results, amounts, code-point order and a stable sort |

Conventions. A store transaction is one atomic step that commits or changes nothing; its clock reading is an input, and
clocks never go back. Code that runs concurrently is a state machine whose steps are the regions between lock
operations or observable actions, and the theorems quantify over every interleaving. Classes follow the objects of the
source; their methods are proved against functions on the state, and the theorems are about those functions. Money and
time are exact reals (milliseconds are integers in the write gate). Docker, Git, file trees, HTTP answers and the clock
are arbitrary inputs.

Findings. In five places a property one would expect does not hold of the code; each has a concrete counterexample and
an exact condition.

- A waiter of a keyed request gets the awaited outcome exactly when nothing evicts the key between the end of that
  execution and the waking (`SingleFlight.WaiterGetsAwaitedIff`). It reads an entry without a result exactly when the
  same request is running again at that moment (`SingleFlight.UnfinishedIff`); a run in which this happens is
  `LateWaiter.WaiterCanFindUnfinished`.
- The daemon releases a lease although a container may be left on the workspace exactly when the launcher's cleanup
  after the worker ends with an exception that is not its own, as when resolving the workspace raises
  (`HostLauncher.Host.RunAndRelease`, `HostLauncher.ReleasedInDoubt`).
- A must-write path with room for it can still be crowded out, by a file of the diff that seven seeds import
  (`CrowdedScope.MustWriteCanBeDropped`, `CrowdedScope.BuildCrowded`). A scope is refused
  exactly when some must-write candidate has as many rivals as there is room: must-write ones that beat it, and others
  that beat it in spite of its bonus (`ScopeBuilder.BuildScope`). With room for all configured must-write paths and no
  other candidate ahead by the bonus it is never refused (`ScopeFacts.EnoughRoom`).
- A ledger scope stays within its cap exactly as long as no accepted cap undercuts what is committed
  (`CostLedger.CapCanBeExceeded`, `CostLedger.WithinThroughoutIff`).
- In every history the write gate keeps two successes under one key five minutes apart exactly for keys that are neither
  empty nor `__proto__`, which is not remembered (`WriteGate.RepeatLaw`, `WriteGate.TwiceLawful`). These histories are
  exactly those that calls record (`WriteGate.Gate.GithubWrite`, `WriteGate.RecordAll`).

Moreover, lines of `git grep` are evidence only if they are paths under src/ or tests/. The repository passes a commit to
`git grep`, which then puts the commit in front of every path; such lines are all ignored
(`ScopeEvidence.PrefixedLinesIgnored`). And the thirty-per-minute limit of the write gate already follows from its two-second spacing
(`WriteGate.WindowBound`); the throttle only ever adds a delay.

## Model

| member | source | states |
|---|---|---|
| Paths.CanonicalPath | forgeboss/control/scheduler.py:14-27 | the component loop returns the canonical path |
| Paths.ComponentsCanonical | forgeboss/control/scheduler.py:14-27 | canonical components are leading ".." parts followed by folded, slash-free names that do not end in a dot or space |
| Paths.CanonicalIdempotent | forgeboss/control/scheduler.py:14-27 | canonicalising twice changes nothing |
| Paths.CanonicalInjective | forgeboss/control/scheduler.py:14-27 | equal canonical strings mean equal components |
| Paths.CanonicalChild | forgeboss/control/scheduler.py:14-27 | the canonical form of p/q depends only on the canonical form of p, so equal parents have equal children |
| Paths.ContainsIsTree | forgeboss/control/scheduler.py:29-30 | the string-prefix test holds exactly when the components of the root are a prefix of those of the path; siblings such as src/a and src/ab are apart |
| Paths.SpellingIrrelevant | forgeboss/control/scheduler.py:14-27 | paths that differ only in the case of ASCII letters and in the kind of slash have the same canonical form |
| Paths.ChildDescends | forgeboss/control/scheduler.py:14-27 | a plain name leads exactly one level down from any path, to a component with the same letters |
| Paths.ParentReturns | forgeboss/control/scheduler.py:20-23 | after a plain name ".." leads back to where one was |
| Paths.ClimbsOut | forgeboss/control/scheduler.py:20-23 | ".." on a path without names is kept as one more component |
| Paths.DotStays | forgeboss/control/scheduler.py:18-19 | "." and empty components lead nowhere |
| Paths.PaddingIgnored | forgeboss/control/scheduler.py:18-26 | dots and spaces behind a name make no difference |
| Scheduler.ConflictsIffShare | forgeboss/control/scheduler.py:32-47 | two items conflict exactly when some path is writable by both, files and everything at or under roots included |
| Scheduler.ConflictsSymmetric | forgeboss/control/scheduler.py:32-47 | conflict is symmetric |
| Scheduler.SmartParallelBatches | forgeboss/control/scheduler.py:49-58 | the queue behind the batches holds the given items by priority, then cost, then task id, all ascending, in the given order where these agree; the batches are the items of the queue in this order, each non-empty, at most max(1, workers) wide and free of conflicts; an item in a later batch than k conflicts with a member of batch k that precedes it, or batch k holds max(1, workers) members that do |
| Scheduler.BatchesOfItems | forgeboss/control/scheduler.py:49-58 | the batches are a permutation of the items; each is non-empty, at most max(1, workers) wide, in queue order and pairwise free of conflicts |
| Scheduler.QueueStable | forgeboss/control/scheduler.py:50 | the queue keeps items that agree in priority, cost and task id in the order they were given |
| Scheduler.PriorityInversion | forgeboss/control/scheduler.py:52-57 | an item lands in a later batch than one behind it only because it conflicts with a member of that batch that precedes it |
| Scheduler.ScheduleFills | forgeboss/control/scheduler.py:49-58 | for every number of workers: an item is kept out of an earlier batch only by a conflicting member of it that precedes the item in the queue, or by max(1, workers) members that do |
| Scheduler.ColouringBound | forgeboss/control/scheduler.py:52-57 | with enough workers there are at most one batch more than the largest number of conflicts of an item |
| Greedy.BlockerPerBatch | forgeboss/control/scheduler.py:52-57 | an item in batch k has a conflicting item in each of the k batches before, all different |
| Greedy.LaterWhy | forgeboss/control/scheduler.py:52-57 | cutting a queue into batches passes an item over only for a preceding member that conflicts, or because the batch is full |
| Authority.ScopeAuthorities | forgeboss/control/store.py:56-68 | the loop rejects exactly the scopes with a blank or root path and otherwise collects the canonical authorities |
| Authority.AuthoritiesExact | forgeboss/control/store.py:56-68 | the authorities are exactly the canonical forms of the paths |
| Authority.OverlapIffCommonPath | forgeboss/control/store.py:70-71 | two scopes overlap exactly when some path lies at or under a path of each |
| Tables.NextAttemptIsEpoch | forgeboss/control/store.py:212-224 | the next attempt number is the next owner epoch |
| Tables.RunsKept | forgeboss/control/store.py:171-302 | every transaction keeps runs numbered by epoch, epochs 1..n covered once, and owners running |
| EventLog.ReplayKept | forgeboss/control/store.py:163-302 | a committed transaction keeps the replay of a task's events equal to the tables' view of it |
| EventLog.CustodyKept | forgeboss/control/store.py:216-231 | a committed transaction keeps head custody |
| EventLog.LogKept | forgeboss/control/store.py:163-302 | every transaction keeps the log consistent with the tables |
| Histories.NoTwoWriters | forgeboss/control/store.py:194-238 | in every history, live leases of different tasks never share a worktree identity, and at the same repository and base no path is in both scopes |
| Histories.AuthorityNeverReturns | forgeboss/control/store.py:246-302 | a run and epoch that lost a task by release, expiry or takeover never pass the writer test again, and no later heartbeat or release of theirs commits |
| Histories.OneWriter | forgeboss/control/store.py:246-252 | at any moment at most one run and epoch hold a task |
| Histories.AttemptIsEpoch | forgeboss/control/store.py:212-229 | in every history each run carries attempt = owner epoch, one of the epochs reached |
| Histories.EpochHasOneRun | forgeboss/control/store.py:212-229 | in every history each epoch of a task belongs to exactly one run |
| Histories.EventsReproduceTables | forgeboss/control/store.py:163-302 | in every history the events of a task alone reproduce its status, revision, charge and result head, and its lease |
| Histories.VersionsCount | forgeboss/control/store.py:160-166 | state versions are 1, 2, 3 and so on |
| Histories.CustodyOfHeads | forgeboss/control/store.py:216-231 | every claim took over the head of the task's previous lease event, or the base for a first claim, unless the recorded head was empty |
| Histories.BudgetConserved | forgeboss/control/store.py:83-92 | in every history the charge on a task is the sum of all reservations ever granted to it and lies between zero and its budget |
| StoreEffects.SameRepository | forgeboss/control/store.py:34-49 | two valid repositories are the same exactly when their texts agree up to the case of ASCII letters and the kind of slash |
| StoreEffects.BaseNamed | forgeboss/control/store.py:51-54 | a base is accepted exactly when it is 40 or 64 hexadecimal digits, and is kept in lower case |
| StoreEffects.CreateCommitsIff | forgeboss/control/store.py:171-177 | a task is created exactly when no path is blank or names the whole tree, repository, base and budget make sense, and its id is new |
| StoreEffects.CreateWrites | forgeboss/control/store.py:178-189 | the created task holds the given repository, paths, budget and governance, the base in lower case, status queued and no charge; other tasks, leases and runs are unchanged and one event is appended |
| StoreEffects.BlockedMeans | forgeboss/control/store.py:194-203 | a claim collides exactly when a live lease of another task is on the same worktree, or its task names the same repository and base and shares a writable path |
| StoreEffects.ClaimCommitsIff | forgeboss/control/store.py:205-238 | a claim commits exactly when it is for a positive time, on an existing task without a live lease, with the last recorded head, in a worktree that nothing live blocks, for money that is left, by a new run |
| StoreEffects.ClaimWrites | forgeboss/control/store.py:222-238 | the lease is the claimant's under the next epoch until now plus the time asked for, run and charge are recorded, and nothing else changes |
| StoreEffects.HolderCommitsIff | forgeboss/control/store.py:254-290 | a heartbeat or a release commits exactly for the run and epoch of the unreleased, unexpired lease, with its head if one is expected, a heartbeat only for a positive time |
| StoreEffects.BeatWrites | forgeboss/control/store.py:262-276 | the lease runs until now plus the time asked for, with the new head if there is one; nothing else changes |
| StoreEffects.ReleaseWrites | forgeboss/control/store.py:286-302 | lease, run and task end with the outcome and head; nothing else changes, the charge included |
| StoreLaws.TaskAsAsked | forgeboss/control/store.py:171-302 | in every history a task keeps the repository, base, paths, budget and governance of the one request that created it |
| StoreLaws.NoTwoWritersAsked | forgeboss/control/store.py:194-238 | in every history two live leases are never on one worktree, and if the requests for their tasks named the same repository and base, the paths asked for have none in common |
| StoreLaws.HoldsUntilExpiry | forgeboss/control/store.py:205-276 | in every history, after a claim or heartbeat at t for d the pair holds its task at every moment before t + d, unless a heartbeat or release of its own comes in between |
| StoreLaws.FreeAfterExpiry | forgeboss/control/store.py:210-276 | in every history the expiry stays t + d until the lease is renewed; from then on a claim is not refused as active |
| ControlStores.ControlStore.StateVersion | forgeboss/control/store.py:160-161 | the maximum over the log is its length |
| ControlStores.ControlStore.CreateTask | forgeboss/control/store.py:171-189 | succeeds exactly for valid paths, repository, base and budget and a new id; the task then holds what was given, and nothing else changes but for one event; a failure changes nothing and its refusal is true |
| ControlStores.ControlStore.LiveCrossTaskConflicts | forgeboss/control/store.py:194-203 | finds a collision exactly when a live lease of another task collides, and names a true one |
| ControlStores.ControlStore.ValidatedBudgetRequest | forgeboss/control/store.py:83-92 | accepts exactly the requests that sound books can cover, and explains every refusal |
| ControlStores.ControlStore.WriteClaim | forgeboss/control/store.py:222-233 | a used run id found after the lease was written undoes lease and charge; the row-count guards never fire |
| ControlStores.ControlStore.CheckClaim | forgeboss/control/store.py:205-221 | the checks pass exactly when the claim may commit up to the freshness of its run id; every refusal is true |
| ControlStores.ControlStore.ClaimWorkspace | forgeboss/control/store.py:205-238 | succeeds exactly when the task exists, is not leased, the head matches, nothing live blocks it, the money is left and the run is new; then lease, run, charge and event are written as asked; a failure changes nothing, and a refusal as active means a live lease |
| ControlStores.ControlStore.AssertWriter | forgeboss/control/store.py:246-252 | passes exactly for the run and epoch of the unreleased, unexpired lease, with its head if a non-empty one is expected |
| ControlStores.ControlStore.Heartbeat | forgeboss/control/store.py:254-276 | succeeds exactly for the holder with the expected head; the lease then runs until now plus the time asked for, with the new head, and nothing else changes but for one event; a failure changes nothing; the row-count guard never fires |
| ControlStores.ControlStore.Release | forgeboss/control/store.py:278-302 | succeeds exactly for the holder with the expected head; lease, run and task then end with outcome and head; a failure changes nothing; none of the three row-count guards ever fires |
| SingleFlight.NoOverlap | forgeboss/control/daemon.py:41-80 | two executions under one key never overlap, and the running one owns a pending entry |
| SingleFlight.PendingNeverEvicted | forgeboss/control/daemon.py:73-79 | a pending entry is changed by nothing but the end of its own execution |
| SingleFlight.SharedAnswersAreExecutions | forgeboss/control/daemon.py:46-66 | a call answered from an entry gets the outcome of an execution of the very same request |
| SingleFlight.ConflictExactly | forgeboss/control/daemon.py:46-57 | a call runs the request exactly when the key is free, conflicts exactly when the key stands for another request, and otherwise shares the outcome of the entry or waits for its owner; only a call that runs enters the table |
| SingleFlight.FinishExactly | forgeboss/control/daemon.py:67-79 | the end of an execution stores its outcome; if it returned and the table has more than 2000 entries, the 500 oldest finished ones go, or all there are; no other entry changes |
| SingleFlight.WakeExactly | forgeboss/control/daemon.py:58-65 | a waiter that wakes finds nothing when its key is gone or stands for another request, an unfinished entry, or the outcome in the entry; the table stays as it is |
| SingleFlight.ConflictHarmless | forgeboss/control/daemon.py:46-57 | over an interleaving, a call that reuses a key for another request leaves the table alone and is never executed later, and the request of the entry it met is the one that is being executed or has been |
| SingleFlight.WaiterGetsAwaited | forgeboss/control/daemon.py:58-65 | on waking, a waiter gets the outcome it waited for exactly when the entry is still that of the execution |
| SingleFlight.WaiterGetsAwaitedIff | forgeboss/control/daemon.py:58-79 | over a whole interleaving a waiter gets the outcome it waited for exactly when no step from the end of that execution to the waking evicts the key |
| SingleFlight.KeptUntilEvicted | forgeboss/control/daemon.py:67-79 | from the end of an execution on, its entry is kept unchanged exactly until a step evicts the key |
| SingleFlight.UnfinishedIff | forgeboss/control/daemon.py:58-65 | a waiter reads an entry without a result exactly when the same request is running again at that moment |
| SingleFlight.Idempotency.Close | forgeboss/control/daemon.py:67-79 | the closing region, including eviction after a result in a full table |
| SingleFlight.Idempotency.EvictOldest | forgeboss/control/daemon.py:76-79 | drops the 500 oldest finished entries, or all finished ones if there are fewer |
| LateWaiter.WaiterCanFindUnfinished | forgeboss/control/daemon.py:58-79 | a run in which a waiter of a finished execution finds an entry without a result |
| GovernedLaunch.WorkerOncePerRun | forgeboss/control/daemon.py:139-279 | in every interleaving the worker is started at most once per run id |
| GovernedLaunch.WorkersWithinBudget | forgeboss/control/daemon.py:139-279 | the budgets handed to all workers of a task sum to at most its charge, hence at most its budget |
| GovernedLaunch.LaunchesApart | forgeboss/control/daemon.py:149-168 | over every interleaving two launches never have one run id registered, and no launch waits for the internal claim of another one |
| GovernedLaunch.SpentWithinReserved | forgeboss/control/daemon.py:236-250 | workers with distinct runs, each backed by a claim, spend no more than the log reserves |
| WorkspaceExclusion.WorkersApart | forgeboss/control/daemon.py:225-250 | under a clock that never goes back, two launches in the worker with live leases run in different physical worktrees, those their leases name |
| WorkspaceExclusion.TimelyWorkersApart | forgeboss/control/daemon.py:225-269 | if launches return before their leases expire, two launches in the worker never share a physical worktree |
| WorkspaceExclusion.TimelyCurrent | forgeboss/control/daemon.py:225-346 | in such a run the lease of every launch that goes by one stands in the tables exactly as its claim wrote it |
| WorkspaceExclusion.LaunchesDoNotOverlap | forgeboss/control/daemon.py:225-269 | in such a run the launches on one physical worktree come one after the other: before the second worker is spawned the first launch has returned |
| WorkspaceExclusion.StoreFollows | forgeboss/control/daemon.py:139-279 | in every interleaving the store is the outcome of the transactions made so far, and every launch that goes by a lease row has held that lease |
| LaunchTraces.WorkerClaimed | forgeboss/control/daemon.py:225-250 | in every interleaving each worker was started by a launch whose own claim had committed before, with the task, run, worktree and budget of that claim |
| LaunchTraces.ReleasesOwnLease | forgeboss/control/daemon.py:264-269 | in every interleaving each release comes after a safe return of the same launch, and is for the task, run and epoch of the lease that the launch's own claim was given |
| LaunchTraces.UnsafeNeverReleases | forgeboss/control/daemon.py:258-269 | in every interleaving a launch that returned unsafely never releases its lease |
| LaunchTraces.ReleasesIffSafe | forgeboss/control/daemon.py:258-279 | in every interleaving a launch asks for the release of its lease between its return and its end exactly when it returned safely |
| ExecutorGuard.NoDifferences | forgeboss/security/executor_guard.py:426 | no changed key means equal trees |
| ExecutorGuard.Changed | forgeboss/security/executor_guard.py:426 | the changed keys are those whose values differ, each once, in order |
| ExecutorGuard.FencesHold | forgeboss/security/executor_guard.py:462-481 | over every interleaving two jobs are never inside the fence of one workspace, and two that have read the same lease are never both inside a fence |
| ExecutorGuard.PaidAuthorityOnce | forgeboss/security/executor_guard.py:542-552 | over every interleaving a lease file grants paid authority at most once |
| ExecutorGuard.GrantNeedsPapers | forgeboss/security/executor_guard.py:520-552 | over every interleaving each paid authority was granted to a job that had presented before, in its fence, the executor, packet and token of the lease on the workspace that the lease names, not after its expiry; the lease had not been consumed, and the files and Git metadata seen were the recorded ones |
| ExecutorGuard.AcceptanceNeedsPapers | forgeboss/security/executor_guard.py:520-564 | over every interleaving each acceptance was of a job that had presented the same before |
| ExecutorGuard.HolderPresented | forgeboss/security/executor_guard.py:520-526 | over every interleaving whoever goes by a lease has presented its executor, packet and token on its workspace in time |
| ExecutorGuard.ReadsExactly | forgeboss/security/executor_guard.py:520-526 | the lease is accepted exactly when it has not expired and executor, workspace, packet and token agree |
| ExecutorGuard.VerifiesExactly | forgeboss/security/executor_guard.py:527-538 | verification passes exactly when the files, unless this is a postflight, and the Git metadata are the recorded ones |
| ExecutorGuard.EndsExactly | forgeboss/security/executor_guard.py:542-564 | a verified job consumes the lease exactly when it is a paid start of an unconsumed lease with unchanged Git metadata; postflight accepts exactly when every changed path is allowed up to case and no link |
| ExecutorGuard.PostflightConfinesPaidRun | forgeboss/security/executor_guard.py:520-564 | if postflight accepts after a paid start, every path that differs from the tree that the verification of the paid start saw is allowed, none is a link, and the Git metadata is what it was then; a change between that verification and the grant counts as a difference |
| HostLauncher.Host.WorkspaceContainers | forgeboss/control/governed_host_launcher.py:299-313 | the hits are exactly the named containers that mount the workspace |
| HostLauncher.Host.EnsureAbsent | forgeboss/control/governed_host_launcher.py:316-346 | clear exactly when an inventory proves the workspace free, at once or after forced removal, and then the last inventory was clean; lost exactly when another exception escapes |
| HostLauncher.Host.Settle | forgeboss/control/governed_host_launcher.py:429-505 | after the worker the lease is withheld exactly after a timeout, unproven cleanup or a marker that could not be written, and the workspace is marked exactly after an uncertain run, if it can be; unless another exception ends the cleanup, which is exactly when a lease may be released in doubt |
| HostLauncher.Host.RunGovernedWorker | forgeboss/control/governed_host_launcher.py:349-505 | exactly when a worker is spawned, the lease withheld, the workspace marked, a result reported, and another exception let through; when the lease may be released a container may be left exactly after an abandoned cleanup |
| HostLauncher.Host.RunAndRelease | forgeboss/control/daemon.py:230-269 | adds exactly its effects to the log and its marker to the markers; a release is tried exactly unless the launcher's own error keeps the lease, with the outcome and head of the worker, and takes effect exactly when the store accepts it; a container may be left at the release exactly after an abandoned cleanup |
| HostLauncher.RunAll | forgeboss/control/daemon.py:230-269 | launches run one after the other leave behind exactly the log and the markers of that sequence |
| HostLauncher.ReleasedInDoubt | forgeboss/control/daemon.py:234-269 | the worker ends well, resolving its workspace raises, and the lease is released with no proof that no container is left |
| HostLauncher.NothingAfterMark | forgeboss/control/governed_host_launcher.py:137-170 | after every sequence of launches, nothing was spawned on a workspace after it was marked, and no further launch spawns there |
| HostLauncher.ReleaseAfterProof | forgeboss/control/daemon.py:264-269 | in every sequence of launches, between a spawn and the release of its launch the workspace was seen free of containers, unless the cleanup was abandoned |
| HostLauncher.WorkersSeparated | forgeboss/control/governed_host_launcher.py:392-428 | in every sequence of launches two workers on one workspace are separated by a clean inventory |
| LaunchLaws.SpawnsExactly | forgeboss/control/governed_host_launcher.py:349-428 | a worker is spawned exactly in an unmarked workspace that passes all checks and that no named container mounts |
| LaunchLaws.CleansExactly | forgeboss/control/governed_host_launcher.py:316-346 | after the spawn the workspace is seen free exactly when the first inventory shows that, or one after a forced removal does; the cleanup is abandoned exactly when one of them goes astray |
| LaunchLaws.QuarantineLaw | forgeboss/control/governed_host_launcher.py:429-505 | after a worker that timed out, exited non-zero or was not followed by a clean inventory the workspace is marked whenever the marker can be written, unless the cleanup was abandoned; if it is not marked, the lease is not released or the cleanup was abandoned; a worker that ended well leaves no mark |
| LaunchLaws.ReleasesExactly | forgeboss/control/daemon.py:230-269 | exactly when a lease is released: after a spawn when the cleanup was abandoned, or the worker ended in time, was seen to be gone, and was quarantined if it failed; without one unless an inventory before it failed or showed a container |
| LaunchLaws.OutcomeExactly | forgeboss/control/daemon.py:230-269 | the lease is released as worker-complete exactly when the worker exited with 0, was seen to be gone, and the head could be read, else as worker-failed |
| LaunchLaws.SucceedsExactly | forgeboss/control/daemon.py:230-279 | a launch succeeds exactly when the worker ended by itself, quarantined if it failed, was seen to be gone, the head could be read, and the store accepted the release |
| LaunchLaws.StraysExactly | forgeboss/control/governed_host_launcher.py:349-505 | exactly when an exception other than the launcher's own ends the launch |
| NodePaths.NormalizeIdempotent | controller/lib/scope.js:18 | normalising an already joined path changes nothing |
| NodePaths.ImportWalks | controller/lib/scope.js:16-19 | an import is looked up where walking its components from the importing file's directory leads |
| NodePaths.FirstIn | controller/lib/scope.js:19-20 | the first candidate of the inventory, none exactly when no candidate is in it |
| NodePaths.ResolveOrder | controller/lib/scope.js:16-21 | an import with a leading dot resolves to the first of base, base.js, base.mjs, base.cjs and base/index.js in the inventory, any other to nothing |
| NodePaths.IndexUnder | controller/lib/scope.js:19 | the index is index.js under the directory, however that is spelled |
| NodePaths.RelativeImports | controller/lib/scope.js:16-19 | "./x" is looked up next to the importing file, "../x" one directory higher |
| ImportClosure.ReachIffWalk | controller/lib/scope.js:51-59 | what is within n steps are the ends of walks along at most n imports |
| ImportClosure.FrontierSuffices | controller/lib/scope.js:51-59 | following only the newly found files is enough |
| ImportClosure.Evidence.Add | controller/lib/scope.js:31 | a reason is recorded exactly for inventory files under src/ or tests/ |
| ImportClosure.Evidence.Expand | controller/lib/scope.js:55-57 | the imports of one file |
| ImportClosure.StopsIffFollowsAll | controller/lib/scope.js:51-59 | some round adds nothing exactly when the imports of every file that can be reached, over any number of steps, are followed |
| ImportClosure.Evidence.Close | controller/lib/scope.js:51-59 | the frontier loop visits exactly the files within the depth and records exactly the imports of the files within one step less; it stops early exactly when some round adds nothing, and exactly when the imports of everything reachable were followed |
| Selection.RankIsPosition | controller/lib/scope.js:118-121 | in the ranking exactly the better paths precede a path |
| Selection.BestExact | controller/lib/scope.js:118-123 | a path is selected exactly when fewer paths than the cap are better; the selection is sorted, without duplicates and as large as the cap allows |
| Selection.BestOutranks | controller/lib/scope.js:118-123 | every selected path ranks strictly above every dropped one |
| ScopeEvidence.Gather | controller/lib/scope.js:31-63 | the evidence is exactly the seeds, what they import within the depth, and what mentions any of these; whether the search was exhaustive |
| ScopeEvidence.EveryImportGathered | controller/lib/scope.js:51-59 | after an exhaustive search every import at the end of a walk from a seed is evidence, however long the walk |
| ScopeEvidence.PrefixedLinesIgnored | controller/lib/scope.js:8-31 | if every line of git grep has something in front of its path, neither searched terms nor stems are evidence for any file |
| ScopeEvidence.WriteScore | controller/lib/scope.js:84-116 | the score is the standing of the file plus the weight of every reason, each counted once |
| ScopeLaws.GatheredExactly | controller/lib/scope.js:30-63 | a file has a reason exactly when it is a file of the commit under src/ or tests/ and is configured, a listed regression test, changed, found for a searched term, imported by a file that fewer than the depth (4 unless configured) imports from a seed lead to, or found for a stem of at least five characters of a file found so far |
| ScopeLaws.StemOf | controller/lib/scope.js:61 | the stem of name.js, name.test.js and name.integration.test.js is name |
| ScopeLaws.WeightByKind | controller/lib/scope.js:84-116 | the evidence for writing weighs 250 for changed, 240 for regression, 200 for configured, 180, 140 and 100 for each term of the three classes, 70 for each import and 50 for each mention |
| ScopeLaws.SourceMeritExactly | controller/lib/scope.js:64-75 | the evidence for reading weighs 6 for changed, 21 for regression, 11 for configured, one for each term, import and mention, and one or two for the tree |
| ScopeLaws.WritableExactly | controller/lib/scope.js:77-80 | writable are src/*.js, src/*.mjs, src/*.cjs and tests/*.test.js, at any depth |
| ScopeLaws.SizesExactly | controller/lib/scope.js:64-123 | as many files are read and written as there are, up to the limits, 48 and 24 unless configured |
| ScopeFacts.ScoresAgree | controller/lib/scope.js:66-116 | both scores are sums over the set of facts, whatever order they were found in |
| ScopeFacts.MustWriteDroppedIff | controller/lib/scope.js:118-129 | a must-write candidate is dropped exactly when must-write rivals that beat it and others that beat it in spite of its bonus leave no room |
| ScopeFacts.RefusesIffDropped | controller/lib/scope.js:118-129 | some must-write candidate is dropped exactly when one has as many rivals as there is room |
| ScopeFacts.EnoughRoom | controller/lib/scope.js:118-129 | with room for all configured must-write paths and no other candidate ahead by the bonus, nothing is refused |
| ScopeBuilder.Select | controller/lib/scope.js:64-131 | draws the bounded lists, and fails exactly when a must-write candidate is not among the writable files |
| ScopeBuilder.BuildScope | controller/lib/scope.js:31-143 | refused exactly when the evidence leaves some must-write candidate no room; otherwise the files to read and to write are the top ones by the evidence, and the scope is safe |
| ScopeBuilder.DrawnFromFacts | controller/lib/scope.js:64-123 | the lists of a scope are determined by the evidence as a set |
| CrowdedScope.CrowdedOut | controller/lib/scope.js:22-129 | one must-write path, a seed, and room for one file: another file of the diff that seven seeds import has the scope refused; git grep finds nothing |
| CrowdedScope.BuildCrowded | controller/lib/scope.js:22-129 | building the scope of that repository fails and names the must-write path |
| CrowdedScope.MustWriteCanBeDropped | controller/lib/scope.js:22-129 | in every scope drawn from that repository the must-write path is a candidate and is not written |
| ScopeBuilder.DrawnSafe | controller/lib/scope.js:64-131 | write is within source, source within the inventory under src/ or tests/, the caps hold, and every source file has a reason |
| ScopeBuilder.WriteOutranks | controller/lib/scope.js:118-123 | every dropped candidate ranks below every kept one |
| CostLedger.CommitmentsMove | forgeboss/safety/cost_ledger.py:7-28 | an accepted reservation adds its amount to its scope, a settlement puts the actual amount in place of the reserved one, and nothing else moves |
| CostLedger.SetBudgetExactly | forgeboss/safety/cost_ledger.py:7 | a cap is in force exactly when it is a finite sum of at least zero |
| CostLedger.ReserveExactly | forgeboss/safety/cost_ledger.py:8-14 | a reservation is refused exactly when it is no sum of money, exceeds the cap of its scope by more than 1e-12, or repeats an identifier; otherwise its row is appended |
| CostLedger.SettleExactly | forgeboss/safety/cost_ledger.py:15-28 | a settlement is refused exactly when it is no sum of money, unknown, settled already, or would exceed the cap of its scope by more than 1e-12 with the reserved amount taken out; otherwise its row gets the actual amount |
| CostLedger.WithinThroughoutIff | forgeboss/safety/cost_ledger.py:7-28 | a scope stays within its cap throughout a history exactly when no accepted cap undercuts its commitments |
| CostLedger.CapHolds | forgeboss/safety/cost_ledger.py:7-28 | if the cap is set before the first reservation and never lowered, commitments never exceed it by more than 1e-12 in all |
| CostLedger.CapCanBeExceeded | forgeboss/safety/cost_ledger.py:7-14 | a lowered cap or a late one is exceeded |
| CostLedger.SettledOnce | forgeboss/safety/cost_ledger.py:15-28 | no reservation is settled twice |
| CostLedger.ReservedOnce | forgeboss/safety/cost_ledger.py:8-14 | no reservation id is given out twice |
| CostLedger.CostLedger.SetBudget | forgeboss/safety/cost_ledger.py:7 | sets a finite non-negative cap and leaves reservations alone |
| CostLedger.CostLedger.Reserve | forgeboss/safety/cost_ledger.py:8-14 | a refusal changes nothing, and a scope within its cap stays within it |
| CostLedger.CostLedger.Settle | forgeboss/safety/cost_ledger.py:15-28 | a refusal changes nothing, and scopes within their caps stay within them |
| WriteGate.WindowBound | forgeboss/github/write-gate.js:18-24 | at most thirty recorded writes fall into any minute |
| WriteGate.YoungBound | forgeboss/github/write-gate.js:18-20 | when a call starts, at most thirty recorded writes are younger than a minute |
| WriteGate.RepeatLaw | forgeboss/github/write-gate.js:16-30 | in every recorded history two successes under a key are five minutes apart exactly for keys other than the empty one and __proto__ |
| WriteGate.LawfulExactly | forgeboss/github/write-gate.js:16-30 | the recorded histories are exactly those in which each call starts no earlier than the last success, with no success under its key in the last five minutes unless that key is empty or __proto__, and each success comes two seconds after the last one and, when the thirtieth last is younger than a minute at the start of the call, 60250 ms after that one |
| WriteGate.FullExactly | forgeboss/github/write-gate.js:18-20 | the window is full exactly when the thirtieth last success is younger than a minute, and the wait counts from that one |
| WriteGate.TwiceLawful | forgeboss/github/write-gate.js:19-24 | a recorded history of two successes, two seconds apart, under the empty key and under __proto__ |
| WriteGate.RecordAll | forgeboss/github/write-gate.js:16-30 | calls can record every lawful history |
| WriteGate.HistorySpaced | forgeboss/github/write-gate.js:18-24 | in every recorded history successes are two seconds apart and any minute holds at most thirty |
| WriteGate.LinkedNext | forgeboss/github/write-gate.js:18-24 | a success keeps writes two seconds apart, rememberable keys five minutes apart, and the saved state in step with the history |
| WriteGate.Gate.GithubWrite | forgeboss/github/write-gate.js:16-30 | a key that succeeded in the last five minutes is answered without a request; otherwise requests are repeated after 403, 429, 500, 502, 503 and 504 only, at most six times, none sooner than the answer before it allows; exactly a success extends the recorded history, by a step that is allowed, at the time that the waits, requests and back-offs add up to |
| WriteGate.AdmitsIffAwaited | forgeboss/github/write-gate.js:18-24 | a success is lawful exactly when its key is not recent and it is no earlier than the first request can be sent |

## Left out

- Paths.CanonicalIdempotent: case folding is modelled for ASCII letters; default case folding (section 3.13 of the Unicode Standard) of other characters is not.
- Histories.NoTwoWriters: a worktree is the path that the claim hands over; resolving it in the file system is not modelled.
- ControlStores.ControlStore.CreateTask: governance fields, purpose, branch and required tests are reduced to whether the task is governed.
- ControlStores.ControlStore.ClaimWorkspace: the worktree is already resolved and inside its root; refusing others before the transaction (store.py:14-24) is not modelled.
- WorkspaceExclusion.LaunchesDoNotOverlap: that a launch returns before its lease expires is an assumption; the durations of the timeouts (1200 s) and of the lease (1800 s) are not added up.
- GovernedLaunch.WorkerOncePerRun: one daemon process with its in-memory tables; attestations, signatures and request checks may fail at any point but their contents are not modelled. Request-level idempotency only removes launches, so the model lets every launch body run.
- ExecutorGuard.PaidAuthorityOnce: the lease file and the fence are exclusive storage and an exclusive lock; tokens and packet hashes are compared as values, and the control envelope is a check that may fail.
- ExecutorGuard.PostflightConfinesPaidRun: the tree at a paid start is the one its verification saw, as the source looks no more after that; trees and Git metadata are read in one step each, so races inside one snapshot are not modelled.
- HostLauncher.RunAll: launches on one workspace one after the other, as `WorkspaceExclusion.LaunchesDoNotOverlap` provides if they return before their leases expire.
- HostLauncher.Host.RunGovernedWorker: container mounts are already normalised, and as in the source only a mount of the workspace itself is seen, so a container that mounts a parent directory counts as absent. Removal and inventory results are inputs, and the workspace HEAD reads the same each time after the run.
- CrowdedScope.CrowdedOut: what `git grep` finds is arbitrary in the general results and nothing in this example.
- ScopeBuilder.BuildScope: `localeCompare` is code-point order; the scores beside the ranked candidates, the digest and the commit identities are not part of the result; import specifiers are an input, as the pattern matching that finds them is not modelled.
- CostLedger.CapHolds: amounts are exact, so rounding of floating-point sums is not modelled.
- WriteGate.Gate.GithubWrite: calls are serialised and the state file reads back as saved; stealing a stale lock (write-gate.js:11) and a corrupted file (write-gate.js:13), which resets the memory, are not modelled. How long an answer asks to wait (write-gate.js:15) is an input.
- Budgets and money in the store are exact decimals; conversion to binary floating point is not modelled.
- The timestamps of rows and the `worker_instances`, `validation_receipts`, `artefacts` and `provider_usage` tables: nothing decides on them.
- `ControlStore.event` as a public entry, schema migration, SQLite itself, file permissions and JSON encoding.
- HMAC, nonces, connection authentication and the receipt and exemption checks: comparisons field by field.
- `controller/lib/lock.js`: its check and unlock are not atomic, so no mutual exclusion is claimed for it.
- The dashboard, HTTP and TCP handlers, specialist routing, reports, league, tournament and learning store: fixed tables, scores or input and output, with easy properties only.
