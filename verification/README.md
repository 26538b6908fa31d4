# Verification of the local MCP server's safety machinery

The repository lets an MCP client work on a Windows workspace: it stages Git repositories for a sandboxed
broker, runs approved programs under an independently privileged service, audits every operation, and reads
and edits files within limits. This project models the parts whose correctness spans many steps or many
functions, in Dafny 4.11, and proves what they are for. `dafny verify dfyconfig.toml` checks all of it.

Code that works step by step is modelled by methods and classes, each proved against a specification function
or a state machine; the main results are lemmas about those. Paths below are relative to the repository root.

## What is modelled

**Git projection** (`git_broker_sandbox.py`).

- `GitIndex`, `GitIndexFormat`, `GitIndexRebase`: the parser of index versions 2 and 3 (gitformat-index), the files
  that the format lays out, and the rewriter that patches the cached stat fields in place and re-seals the checksum.
  A file built from any entries is parsed as exactly these. The rewriting keeps length, header, flags, paths and
  extensions, both parsers see the same tracked paths, and rewriting again is a fixed point exactly when every
  path absent from the source is settled in the projection.
- `ProjectionPaths`, `ProjectionPlan`, `ProjectionHead`: which reference metadata may be dropped, and the planner
  that follows HEAD. String prefix tests on folded paths are proved to mean component prefixes. HEAD resolves in
  the projection to what it resolved to while planning, for any number of hops.
- `ProjectionPrune`, `ProjectionCopy`, `Projection`, `ProjectionCopier`: pruning of ignored root directories, the
  decision for every entry, and the stack-driven copier with its limits.
- `ProjectionTracked`, `ProjectionIndex`: the results. Tracked files survive, protected files are never staged, the
  projection carries one index, which tracks what the source index tracks, and nothing that it tracks is pruned.
- `ProjectionMetadata`: the rest of `.git`. What no rule leaves out or rewrites is staged as it is, the object store in
  particular, and where all refs are kept HEAD resolves as in the repository that was copied.

**Approved Host latch** (`approved_host_*.py`). `AuthorityDisk` has the durable files with one function for each
change; `AuthorityProtocol` is the state machine of service, watchers, SYSTEM workers and operator, with a crash
possible between any two steps; `AuthorityStore` has the store and the lease as classes, and their trails of disks,
also where a file operation fails on the way; `AuthorityRefinement` proves these trails to be those of runs of the
protocol, and the lease's methods are tied to its steps by their contracts. An exclusive write is three steps: the
creation of an empty file, its completion, and the sync behind which it counts as written. A latch that could not be
completed or synced is taken back by `arm` itself; no worker was launched under it. Where that fails, too, the latch
stays: whole, it is left to the operator; torn, it reads as unreadable, never as a mismatch, and stops every launch.

**Control-plane guard** (`control_plane_guard.py`). `AuditMirror` replays the traced SQL on the mirror;
`ControlPlane` is the state machine of guard and markers; `ControlPlaneStore` has both as classes. If the identity of
a freshly written marker cannot be captured, or the cleanup of a failed arming fails as well, nothing removes it: the
plane stays unhealthy until the operator acts. So it does where a postflight can write no tamper marker.

**Audit lifecycle** (`audit.py`, `executor.py`). `AuditLifecycle` has each call as a step on the table of
operations, and the runs of all of them, in which terminal rows may be deleted at any time; `AuditStore` is the class
whose methods take these steps, with the two ways in which rows are deleted to make room; `Executor` has the two retry
loops with arbitrary calls of other processes in between.

**Reading the workspace** (`high_level_read.py`). `Walks` and `Reachability` relate any worklist traversal to the
plain recursion and to looking paths up; `Holds`, `TreeListing` and `TreeWalk` are `workspace_tree` with its held
directories; `Texts`, `WorkspaceSearch` and `SearchWalk` are `workspace_search`, with its held directories and files.
`Sequences` and `Budgets` hold what several of them need about permutations and running totals.

**Paging and planning.** `DiffPaging` is `_diff_page` and the pages of changed paths (`operation_changes.py`);
`StagedChanges` and `StagedScan` are the delta of a sandboxed run and the bounded scan it starts from (`approval.py`,
`resources.py`), with entries and directories that vanish meanwhile; `TextEdits` is the planner of exact replacements
(`high_level_mutation.py`).

## What is assumed

- SHA-1 and SHA-256 are function parameters, collision-free only where a lemma says so. `fnmatch`, UTF-8 decoding,
  `casefold` and the parsing of the repository configuration are function parameters as well. Of `casefold` the
  projection uses `ProjectionPaths.CaseFold`: it works on parts between slashes, makes no slash and no leading dot,
  keeps nonempty text nonempty and lowers ASCII. `ProjectionPaths.LowerCaseIsCaseFold` gives such a function.
- Index paths are byte strings; decoding them with `surrogateescape` is injective. UTF-8, where it encodes at all, and base64
  lose nothing.
- Service epochs, nonces and operation identifiers are drawn fresh and never repeat.
- In the projection a held file stays present with the bytes that were read. Names in a directory are distinct.
- SQLite: a comparison with NULL is never true, a transaction that raises is rolled back unless it was committed.
- In the audit mirror a statement is an arbitrary partial function on tables, and the keyword filter lowers ASCII.
- Instants are integers. No clock order is assumed.

## Where code and text disagree

- `high_level_mutation.py` promises that `old_text` "must occur exactly once"; `str.count` skips overlaps, so "aa"
  passes in "aaa". `TextEdits.UniqueExactlyWhen` gives the words for which the promise holds: those that cannot
  overlap themselves.

## Model

| member | source | states |
|---|---|---|
| GitIndexFormat.EntryAtMeans | src/windows_local_mcp/git_broker_sandbox.py:556-582 | an entry is read exactly where a fixed part, a nonempty path ending at its first zero byte and the padding to eight bytes lie inside the entry area, and refused exactly where none does |
| GitIndexFormat.ParsesWhatIsEncoded | src/windows_local_mcp/git_broker_sandbox.py:543-598 | round trip: a sealed file of any version 2 or 3 entries and extensions is parsed as exactly their paths, unless an extension is a split-index link |
| GitIndex.ReadExtensions | src/windows_local_mcp/git_broker_sandbox.py:584-596 | the extension loop accepts exactly fully contained extensions none of which is a split index |
| GitIndex.ReadPaths | src/windows_local_mcp/git_broker_sandbox.py:556-582 | the entry loop returns the paths of the whole chain of entries, or fails as the recursion does |
| GitIndex.ParseIndexTrackedPaths | src/windows_local_mcp/git_broker_sandbox.py:543-598 | the parser returns the tracked paths of the parsed layout, or nothing where pruning cannot be proven |
| GitIndex.LayoutChained | src/windows_local_mcp/git_broker_sandbox.py:558-582 | accepted entries lie one behind the other without overlap between header and trailer |
| GitIndexRebase.StampEntry | src/windows_local_mcp/git_broker_sandbox.py:764-768 | patching an entry in the buffer changes exactly the windows of ctime, mtime and size |
| GitIndexRebase.RebindEntries | src/windows_local_mcp/git_broker_sandbox.py:642-778 | the in-place loop over the bytearray refines the recursive rewriting, entry by entry |
| GitIndexRebase.RebaseIndex | src/windows_local_mcp/git_broker_sandbox.py:616-795 | the whole rewriter equals its specification, errors included |
| GitIndexRebase.RebasedMeaning | src/windows_local_mcp/git_broker_sandbox.py:616-795 | it succeeds exactly when the index parses and no entry is refused, and then patches every entry and re-seals |
| GitIndexRebase.RebasePreserves | src/windows_local_mcp/git_broker_sandbox.py:616-795 | length, header, flags, paths and extensions stay; only stat windows and trailer differ; the checksum is valid; the tracked paths are the same |
| GitIndexRebase.RebaseBinds | src/windows_local_mcp/git_broker_sandbox.py:696-773 | each rewritten entry caches the destination's stat, and only entries current in the source are rewritten |
| GitIndexRebase.PatchedOnce | src/windows_local_mcp/git_broker_sandbox.py:642-778 | patching all entries leaves at each entry what patching it alone gives |
| GitIndexRebase.RebaseIdempotent | src/windows_local_mcp/git_broker_sandbox.py:610-795 | a second pass on the projection returns the same bytes or fails, and succeeds exactly when absent paths are settled |
| ProjectionPaths.PosixPrefix | src/windows_local_mcp/git_broker_sandbox.py:525-540 | string equality and `startswith(a + "/")` are equality and proper prefix of components |
| ProjectionPaths.UnobservedMeans | src/windows_local_mcp/git_broker_sandbox.py:518-540 | an entry is left out exactly when at or below the logs, or below the refs without being a replace ref, required, or on the way to a required ref |
| ProjectionPlan.BuildMetadataPolicy | src/windows_local_mcp/git_broker_sandbox.py:445-515 | the planner's loop along the symref chain equals its specification, errors, cycles and depth limit included |
| ProjectionPlan.PlanIsSound | src/windows_local_mcp/git_broker_sandbox.py:431-515 | a plan pins what was read, notes what was absent, requires only valid refs, and covers the whole chain from HEAD |
| ProjectionPlan.PlanFixesHead | src/windows_local_mcp/git_broker_sandbox.py:418-515 | every repository that agrees with the plan resolves HEAD as the planned one did, for any number of hops |
| ProjectionHead.RefPathParts | src/windows_local_mcp/git_broker_sandbox.py:390-415 | a validated target names a path of proper components below the refs |
| ProjectionHead.GateOnTheWay | src/windows_local_mcp/git_broker_sandbox.py:1123-1170 | no entry on the way to a pinned file is skipped by any rule of the copier |
| ProjectionHead.PinsAreCopied | src/windows_local_mcp/git_broker_sandbox.py:1176-1252 | where something was pinned, the pinned bytes are written and nothing else |
| ProjectionHead.AbsentIsNotCopied | src/windows_local_mcp/git_broker_sandbox.py:1124-1127 | nothing is ever written under a path that was planned absent |
| ProjectionHead.HeadSurvives | src/windows_local_mcp/git_broker_sandbox.py:445-540 | where only planned refs are kept, HEAD resolves in a staged projection as it did for the planner, if held files are still present |
| ProjectionPrune.PruningIsProven | src/windows_local_mcp/git_broker_sandbox.py:798-939 | a pruned directory is in the root, named by an ignore line with no negation beside it, and the pinned index tracks nothing at or below it in any case |
| ProjectionCopy.FitsWithin | src/windows_local_mcp/git_broker_sandbox.py:1187-1277 | what the checks at each file let pass keeps the written bytes within the byte limit |
| Projection.CopyPutsOut | src/windows_local_mcp/git_broker_sandbox.py:1103-1277 | a copy that ends has put out exactly what the entries it visited yield and raised at none |
| Projection.ProjectionWithinLimits | src/windows_local_mcp/git_broker_sandbox.py:1116-1119 | total bytes, index included, and entries looked at are within their limits |
| Projection.FilesMean | src/windows_local_mcp/git_broker_sandbox.py:1278-1292 | the files of a projection are the written ones and the deferred index |
| Projection.IndexKeepsTracked | src/windows_local_mcp/git_broker_sandbox.py:1278-1287 | whether rebased or not, the written index tracks the paths of the index it was made from |
| ProjectionTracked.ProtectedNeverStaged | src/windows_local_mcp/git_broker_sandbox.py:211-219 | no staged worktree file is protected or lies below a protected entry |
| ProjectionTracked.TrackedNotPruned | src/windows_local_mcp/git_broker_sandbox.py:920-939 | nothing prunes a directory on the way to a tracked file |
| ProjectionTracked.TrackedFilesSurvive | src/windows_local_mcp/git_broker_sandbox.py:848-939 | under planned policies, in an unchanged source, every tracked, unprotected file is staged with its bytes or as the attributes placeholder |
| ProjectionTracked.PinsAreMetadata | src/windows_local_mcp/git_broker_sandbox.py:445-515 | whatever the planner of the refs pins lies below `.git` |
| ProjectionMetadata.MetadataSurvives | src/windows_local_mcp/git_broker_sandbox.py:1123-1277 | of the metadata that no rule leaves out or rewrites, exactly the regular files are staged, each under its path with its bytes, if what is pinned of them has not changed |
| ProjectionMetadata.ObjectsSurvive | src/windows_local_mcp/git_broker_sandbox.py:518-540 | whatever of the refs a plan leaves out, exactly the regular files of the object store are staged, each with its bytes, alternates and files named like attributes apart |
| ProjectionMetadata.HeadSurvivesWhole | src/windows_local_mcp/git_broker_sandbox.py:445-540 | where all refs are kept, HEAD resolves in the projection, through any number of hops, to what it resolves to in the repository that was copied, if no two files of that differ in case only |
| ProjectionIndex.IndexSurvives | src/windows_local_mcp/git_broker_sandbox.py:1197-1287 | the projection of a repository with an index carries exactly one file of that name, at its path, which tracks the paths that the source index tracks |
| ProjectionIndex.PrunedIsUntracked | src/windows_local_mcp/git_broker_sandbox.py:848-939 | of a directory that the plan prunes, the index of the projection tracks nothing, the directory itself included, in any case |
| ProjectionCopier.ReplayMeans | src/windows_local_mcp/git_broker_sandbox.py:1187-1277 | the running counters get through exactly the events that are within the limits, and then tell the files written, their bytes, the index and the attributes mark |
| ProjectionCopier.CopyDirectory | src/windows_local_mcp/git_broker_sandbox.py:1114-1277 | the loop over one directory raises exactly when an entry is refused or over a limit, and otherwise leaves the counters and the stack of the whole directory |
| ProjectionCopier.CopyRepositoryTree | src/windows_local_mcp/git_broker_sandbox.py:1076-1297 | the stack loop and the index written last give exactly the specified projection or error |
| AuthorityProtocol.StepKeeps | src/windows_local_mcp/approved_host_service.py:497-656 | every step of service, watcher, worker, operator or crash keeps the protocol's invariant |
| AuthorityProtocol.LatchClearedOnlyAfterProof | src/windows_local_mcp/approved_host_security.py:516-552 | a readable latch goes in three ways only: after a proof of the same operation, epoch and nonce with normal return and, if a child started, a verified postflight was archived; taken back by the thread that flushed it and could not sync it, with no worker alive; or by the operator |
| AuthorityProtocol.HalfWrittenLatch | src/windows_local_mcp/approved_host_authority.py:243-254 | a half-written latch is only completed or taken back, by the thread that created it, with no worker alive |
| AuthorityProtocol.UnremovedLatchIsAbandoned | src/windows_local_mcp/approved_host_authority.py:243-254 | a flushed latch that could neither be synced nor removed is abandoned at once |
| AuthorityProtocol.TornLatchStays | src/windows_local_mcp/approved_host_authority.py:243-254 | a torn latch that nobody is about to complete stays in every run, and no worker is ever alive beside it |
| AuthorityProtocol.LatchUnmoved | src/windows_local_mcp/approved_host_security.py:438-552 | no other step touches the latch |
| AuthorityProtocol.OneWorkerOwnsTheLatch | src/windows_local_mcp/approved_host_service.py:543-656 | a live worker always has its binding in the latch, so two workers are never alive at once |
| AuthorityProtocol.ReadingNeverTorn | src/windows_local_mcp/approved_host_security.py:438-478 | a status file always has its latch beside it with the same binding, so reading never reports a mismatch |
| AuthorityProtocol.CurrentMeans | src/windows_local_mcp/approved_host_authority.py:164-174 | in every reachable state, the latch returned as current is the one on disk, complete and armed by the asking instance, and none is returned otherwise |
| AuthorityProtocol.OrphanedLatchStays | src/windows_local_mcp/approved_host_service_entry.py:35-57 | the service never clears a latch armed in an earlier epoch |
| AuthorityProtocol.AbandonedLatchStays | src/windows_local_mcp/approved_host_worker.py:151-154 | without a complete proof the latch stays, whatever run follows without the operator |
| AuthorityProtocol.UnverifiedChildAbandonsLatch | src/windows_local_mcp/approved_host_worker_lease.py:17-31 | a worker whose child started and is not verified has no proof on disk and cannot begin one, and if it ends now its latch stays for good |
| AuthorityProtocol.ClearedLatchNeverReturns | src/windows_local_mcp/approved_host_authority.py:105-137 | a cleared binding is never latched again |
| AuthorityStore.AuthorityStateStore.Arm | src/windows_local_mcp/approved_host_authority.py:105-137 | refused while anything is latched; otherwise every durable state it passes through, wherever creation, write or sync fails, and whether or not the file can then be removed |
| AuthorityStore.AuthorityStateStore.MarkRunning | src/windows_local_mcp/approved_host_security.py:480-493 | refused without a latch of this instance; otherwise one atomic replacement of the status, or none where it fails |
| AuthorityStore.AuthorityStateStore.MarkRecoveryRequired | src/windows_local_mcp/approved_host_security.py:495-514 | the same note beside a latch of any epoch, and nothing without a readable latch |
| AuthorityStore.AuthorityStateStore.ConsumeCompletion | src/windows_local_mcp/approved_host_security.py:516-552 | nothing is written before every check; then archive, proof, status, latch, in this order, however far it gets, and whether or not an unfinished archive record can be removed |
| AuthorityStore.WorkerLease.MarkChildStarted | src/windows_local_mcp/approved_host_worker.py:63 | the hook of the created process is the worker's step of the protocol |
| AuthorityStore.WorkerLease.ObserveCapture | src/windows_local_mcp/approved_host_worker.py:76-85 | only a capture equal to the expected state after the child started verifies the postflight |
| AuthorityStore.WorkerLease.ObserveExpected | src/windows_local_mcp/approved_host_worker.py:69-74 | the expected state of the worker's own operation is remembered |
| AuthorityStore.WorkerLease.Finalize | src/windows_local_mcp/approved_host_worker_lease.py:17-31 | a proof exists exactly unless a started child was not verified, and says what the lease saw |
| AuthorityRefinement.ArmIsRun | src/windows_local_mcp/approved_host_authority.py:105-137 | wherever `arm` and its cleanup fail, its disks are those of a run of the launching thread that begins with the check; where it is refused, the thread cannot pass this check |
| AuthorityRefinement.MarkRunningIsRun | src/windows_local_mcp/approved_host_security.py:480-493 | the disks of `mark_running` are those of a run, too, refused or failed or not |
| AuthorityRefinement.MarkRecoveryIsRun | src/windows_local_mcp/approved_host_security.py:495-514 | and those of `mark_recovery_required`, for each of its three callers |
| AuthorityRefinement.ConsumptionIsWatcherRun | src/windows_local_mcp/approved_host_service.py:633-656 | wherever a consumption and its cleanup fail, its disks are those of the watcher's run: the check, a step for each file operation, and the failure |
| AuthorityRefinement.RefusalIsWatcherRun | src/windows_local_mcp/approved_host_service.py:633-656 | a consumption refused by its checks is the watcher turning to recovery with the disk untouched |
| AuditMirror.VerifiedMeansReplayed | src/windows_local_mcp/control_plane_guard.py:336-347 | the postflight verifies exactly when tracking did not fail, the base is unchanged and the tables are the preflight tables with the traced statements applied in order |
| AuditMirror.TrustedRunVerifies | src/windows_local_mcp/control_plane_guard.py:591-625 | when only the trusted worker wrote, whether or not its statements succeed, tracking fails exactly when a traced statement failed or a snapshot outgrew its bound, and the postflight verifies exactly when tracking did not fail, the base is unchanged and no visible transaction is open |
| ControlPlane.StepKeeps | src/windows_local_mcp/control_plane_guard.py:218-386 | every step keeps: an active guard has its marker on disk, and the tamper marker precedes the removal of the pending one |
| ControlPlane.UnhealthyUntilVerified | src/windows_local_mcp/control_plane_guard.py:110-120 | after the preflight returned, the plane stays unhealthy through every crash until a postflight verifies |
| ControlPlane.ActivationIsWatched | src/windows_local_mcp/control_plane_guard.py:349-371 | the guard becomes active only with its marker on disk and the mirror of the preflight tables |
| ControlPlane.PendingRemovedOnlyWhen | src/windows_local_mcp/control_plane_guard.py:90-107 | the four ways in which the pending marker goes |
| ControlPlane.ClearedMeansReplayed | src/windows_local_mcp/control_plane_guard.py:336-372 | a marker about to be cleared proves base and tables of the whole interval |
| ControlPlaneStore.AuditMutationGuard.RecordStatement | src/windows_local_mcp/control_plane_guard.py:591-625 | the guard's fields after a statement are those of the specification |
| ControlPlaneStore.MarkerStore.Arm | src/windows_local_mcp/control_plane_guard.py:49-87 | exclusive creation of the marker, undone if the write, the sync or the hold fails, unless this fails, too, and left in place if its identity cannot be captured |
| ControlPlaneStore.MarkerStore.Clear | src/windows_local_mcp/control_plane_guard.py:90-107 | only the marker of the same operation is removed, and every state of the disk is told, the failure of the removal included |
| ControlPlaneStore.MarkerStore.MarkTamper | src/windows_local_mcp/control_plane_guard.py:665-702 | the tamper marker is durable before the pending one may go; where it cannot be written nothing is touched, and that the pending one stays is no failure |
| ControlPlaneStore.MarkerStore.ConcludePostflight | src/windows_local_mcp/worker.py:885-909 | no healthy state along the way unless the capture verified, and then only at the end; and exactly when it ends verified, marked, or raising with the markers untouched |
| ControlPlaneStore.ArmIsRun | src/windows_local_mcp/control_plane_guard.py:49-87 | whatever fails, the markers that arming passes through are those of a run of the protocol |
| ControlPlaneStore.MarkTamperIsRun | src/windows_local_mcp/control_plane_guard.py:665-702 | so are those of the tamper mark, the tamper marker first, whichever of its operations fails |
| AuditLifecycle.StepKeeps | src/windows_local_mcp/audit.py:491-512 | every call keeps the invariant of the table and moves no operation backwards |
| AuditLifecycle.TerminalStaysTerminal | src/windows_local_mcp/audit.py:491-512 | a terminal operation stays terminal in every run |
| AuditLifecycle.ClaimedAtMostOnce | src/windows_local_mcp/audit.py:902-985 | behind a claim no run leads to another claim of the same operation |
| AuditLifecycle.ClaimIsAuthorised | src/windows_local_mcp/audit.py:847-985 | a claim comes before the deadline with the created hash, or before the end of a grant that an earlier approval within the deadline gave |
| AuditLifecycle.ClaimSucceedsWhen | src/windows_local_mcp/audit.py:957-985 | in a reachable table a claim succeeds exactly when the operation is approved, its grant unexpired and a slot free |
| AuditLifecycle.AdmissionNeedsSlot | src/windows_local_mcp/audit.py:562-568 | only a call that found a free slot admits an operation |
| AuditLifecycle.JobLimitHolds | src/windows_local_mcp/audit.py:428-462 | apart from operations created directly as running, at most the configured number is queued or running, in every run |
| AuditStore.AuditStore.CreateOperation | src/windows_local_mcp/audit.py:428-474 | the row, or the refusal for want of a slot |
| AuditStore.AuditStore.TransitionOperation | src/windows_local_mcp/audit.py:504-512 | the compare-and-set, its result and the new table |
| AuditStore.AuditStore.UpdateOperation | src/windows_local_mcp/audit.py:482-487 | an unconditional final status, or an error for a missing row |
| AuditStore.AuditStore.ExpirePending | src/windows_local_mcp/audit.py:819-845 | all due requests expire, and how many |
| AuditStore.AuditStore.DecideApproval | src/windows_local_mcp/audit.py:847-899 | a decision within the deadline, or a committed expiry |
| AuditStore.AuditStore.ApproveAndClaim | src/windows_local_mcp/audit.py:902-952 | approval and claim in one, a committed expiry, or nothing at all without a slot |
| AuditStore.AuditStore.ClaimApproved | src/windows_local_mcp/audit.py:955-985 | the claim, the expiry of a stale grant, or nothing |
| AuditStore.AuditStore.ReconcileTransaction | src/windows_local_mcp/audit.py:344-376 | the final status that the journal's outcome calls for |
| AuditStore.AuditStore.StaleRows | src/windows_local_mcp/audit.py:219-231 | exactly the oldest terminal rows beyond the retained number |
| AuditStore.AuditStore.PruneDatabase | src/windows_local_mcp/audit.py:219-234 | they and no others are deleted |
| AuditStore.AuditStore.EnsureAuditCapacity | src/windows_local_mcp/audit.py:648-679 | only terminal rows are deleted, oldest first, in at most twenty-one rounds, until a look finds room, also the one behind a round that found nothing to delete; it fails only when no look did, with nothing terminal left or all rounds made |
| AuditStore.AuditStore.StoreWithin | src/windows_local_mcp/audit.py:402-512 | a storing call behind that check takes effect on what the deletions have left, or has no effect beside them |
| Executor.Stop | src/windows_local_mcp/executor.py:197-253 | the loop ends under any interference with at most two lost races, the last read tells the operation as it is or that it is gone, and what was done before it holds for good |
| Executor.ReconcileOne | src/windows_local_mcp/executor.py:257-287 | the inner loop ends with at most two lost races, its operation gone, settled, kept or reconciled |
| Executor.ReconcileStaleJobs | src/windows_local_mcp/executor.py:255-287 | every operation active at the start is kept by its owner or no longer active for good, unless one vanished |
| Executor.ListActive | src/windows_local_mcp/audit.py:784-798 | every queued or running operation once |
| Walks.RunCollects | src/windows_local_mcp/high_level_read.py:245-322 | a queue or stack traversal puts out what the recursion does, everything once, and meets as many entries |
| Walks.RunSucceeds | src/windows_local_mcp/high_level_read.py:149-167 | it fails exactly when something is refused or the whole exceeds a bound |
| Reachability.CollectedTimes | src/windows_local_mcp/high_level_read.py:255-310 | each output comes as often as the node at its path yields it, if that node is visited |
| Reachability.AcceptedMeans | src/windows_local_mcp/high_level_read.py:255-310 | a traversal is accepted exactly when every visited node is |
| Reachability.CountMeans | src/windows_local_mcp/high_level_read.py:149-167 | the entry limit holds exactly when no more nodes than that are visited |
| TreeListing.TreeIsReachable | src/windows_local_mcp/high_level_read.py:235-322 | exactly the entries reachable through directories not hidden, within the depth, each once; it raises exactly for a visited node that is neither file nor directory, or more visited nodes than allowed |
| TreeWalk.Visit | src/windows_local_mcp/high_level_read.py:260-308 | one entry: its hold is released or goes on the queue, also when it vanishes |
| TreeWalk.WorkspaceTree | src/windows_local_mcp/high_level_read.py:235-322 | the listing, and every hold released exactly once on every way out |
| Holds.ReleaseAll | src/windows_local_mcp/high_level_read.py:311-314 | the cleanup releases what still waits, each once |
| Texts.ResplitLines | src/windows_local_mcp/high_level_read.py:203-221 | joining and splitting lines again loses nothing but an empty last line |
| WorkspaceSearch.ShownLinesMatch | src/windows_local_mcp/high_level_read.py:428-450 | exactly the matching lines of a file are hit, with their numbers |
| WorkspaceSearch.SearchFindsLines | src/windows_local_mcp/high_level_read.py:372-470 | exactly the matching lines of the selected files visited, each once, within the limits on files, bytes and results; it raises exactly for a refused visited node, too many of them, or more than the limits allow |
| WorkspaceSearch.MatchLines | src/windows_local_mcp/high_level_read.py:436-450 | the line loop returns all hits, or raises when there are more than the room left |
| SearchWalk.SearchFile | src/windows_local_mcp/high_level_read.py:399-450 | one file against the counters, which follow; both holds on it are released on every way out |
| SearchWalk.Search | src/windows_local_mcp/high_level_read.py:372-470 | without faults of the file system the loop with its early exits equals the specified search, and with or without them every hold is released exactly once |
| DiffPaging.DiffPage | src/windows_local_mcp/operation_changes.py:245-274 | the page is the window of the concatenated lines, as text where it is UTF-8 and in base64 otherwise, with its own digest and total and digest of the whole; an offset too large is refused |
| DiffPaging.ListPage | src/windows_local_mcp/operation_changes.py:324-334 | the same for the list of changed paths |
| DiffPaging.PagesCover | src/windows_local_mcp/operation_changes.py:245-274 | following the offsets ends for any sizes, the pages concatenate to the rest, only the last says so, none is empty |
| DiffPaging.ReadDiff | src/windows_local_mcp/operation_changes.py:341-352 | a client that follows the pages and decodes each as it is marked gets the whole diff and its digest, in at most one request a byte |
| StagedScan.ScanMeans | src/windows_local_mcp/resources.py:322-374 | the scan of a run tree, in which entries and directories may vanish, succeeds exactly when what it looks at are files and directories without alternate streams, within the limits on entries and bytes, and then finds every file that is there when it looks, once |
| StagedScan.ScanRunTree | src/windows_local_mcp/resources.py:322-374 | the stack loop with its early exits equals that scan |
| StagedChanges.CollectChanges | src/windows_local_mcp/approval.py:552-584 | it returns exactly when every output is allowed and the tree is within its limit, and then the changed and the vanished files |
| StagedScan.CollectStaged | src/windows_local_mcp/approval.py:521-584 | the scan and the collection behind it, with all their refusals |
| StagedChanges.DeltaIsExact | src/windows_local_mcp/approval.py:521-584 | the delta makes the run tree of the snapshot if and only if no output collides with its snapshot, leaves everything else alone and lists nothing unchanged |
| StagedScan.TreeDeltaIsExact | src/windows_local_mcp/approval.py:521-584 | applied to a workspace that holds the snapshot, the delta makes it hold every regular file that the scan found, however deep, and nothing that the tree has lost, if and only if no file collides |
| TextEdits.CountedOnce | src/windows_local_mcp/high_level_mutation.py:80-86 | counted once means: it occurs, and no two occurrences are disjoint |
| TextEdits.CountedOnceNotUnique | src/windows_local_mcp/high_level_mutation.py:80-86 | an edit whose text occurs twice is accepted and replaces the first |
| TextEdits.UniqueExactlyWhen | src/windows_local_mcp/high_level_mutation.py:80-86 | counting once is occurring once exactly for words that cannot overlap themselves |
| TextEdits.ReplaceOnceMeans | src/windows_local_mcp/high_level_mutation.py:80-86 | when a replacement is made, and that it splices at the leftmost occurrence |
| TextEdits.ReplacedIsSpliced | src/windows_local_mcp/high_level_mutation.py:69-86 | an edit is a chain of splices whose growth is the sum of theirs |
| TextEdits.ReplaceAll | src/windows_local_mcp/high_level_mutation.py:69-86 | the inner loop applies the replacements in sequence |
| TextEdits.PlanEdits | src/windows_local_mcp/high_level_mutation.py:39-106 | the planner succeeds exactly for a bounded number of plannable edits to distinct paths within the byte total, with one plan for each; an edited text that cannot be encoded is not plannable |
| TextEdits.PlanIsSplice | src/windows_local_mcp/high_level_mutation.py:57-105 | a plan's text is the file's, spliced, with the digest expected and within the limits |

## Left out

- Win32, pipes, ACL and SID checks, process creation and inspection: results of such calls are parameters or arbitrary
  steps.
- Path resolution, reparse and hard-link checks of `paths.py`: a resolved file is held with its bytes, or resolution
  fails.
- Git command grammar, which decides whether full refs are needed or ignored files observed: both are parameters.
- The text of the sanitized repository configuration, stat copying, the snapshot digest and path length limits on
  Windows.
- The recovery script: an operator step, possible only while the service is stopped and no worker is alive.
- The content of audit events, request redaction, timings, the size limit of a record, and the size accounting behind
  the storage budget: whether a look finds room is a parameter.
- What a power failure takes from a file that was written but not synced: a crash leaves the disk as the last step
  left it.
- The journal behind `_reconcile_workspace_transactions`: only its outcome, and whether a row is touched at all is
  arbitrary.
- The sort order of names within a directory and of listed operations: listings come in any fixed order.
- Validation of argument types and configured limits; limits in force are parameters.
- The check of storage in front of the storing calls of the audit is no part of `CreateOperation`, `TransitionOperation`
  and `UpdateOperation`: it is `EnsureAuditCapacity`, and both together are `StoreWithin`.
- Of a run tree, only what vanishes while it is scanned: between the scan and the reading of its files nothing changes.
