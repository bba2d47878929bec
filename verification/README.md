# Superkick, verified

Superkick runs coding agents on issues. This project models its protocols and algorithms in Dafny and proves what
they are for:

- the desktop shell's **boot supervisor**, in which any number of boot threads, crash watchers and `stop_all` calls
  race over an atomic epoch counter, a shutdown flag, a mutex-guarded server slot and a mutex-guarded boot machine
  (`lifecycle`, `supervisor`, `supervisor_invariant`, `supervisor_safety`, `supervisor_shutdown`,
  `supervisor_progress`, `supervisor_promise`, `supervisor_object`, `supervisor_program`);
- **comment search** on UTF-8 bytes: the case-insensitive find, the snippet window, the percent-encoder
  (`utf8`, `search`, `urlencode`);
- the **config checker** and the **role router** it speaks for (`text`, `role_router`, `config`);
- the **agent service**, whose catalog must follow its repository through failing stores (`agent_service`);
- the **operator queue** and the **launch queue**, and what a series of dispatches does to them
  (`sequences`, `sorting`, `queue`, `launch_queue`, `dispatch`);
- the **file index walk** (`file_walk`), the step rows of a **launch task** (`launch_task`), the **recovery
  scheduler** and its audit table (`recovery`), the **handoff** lifecycle (`handoff`) and the **attach command** as a
  POSIX shell reads it (`attach`).

## How the supervisor is modelled

Each atomic access is a step of its own: a load or store of the flag, a load or fetch-and-add of the counter, the
acquisition of the slot mutex, one action on the slot, one call of the boot machine, one spawn, one shutdown. A boot
thread releases the mutex with its action on the slot. `stop_all` keeps it until the child it took is shut down, because
the guard in the scrutinee of its `if let` lives as long as the body. `is_stale` is therefore two steps, and other threads may move between them and between the check
and the slot action, as far as the mutex lets them. A schedule is any sequence of events; an event that is not enabled
changes nothing, so `Run(INIT, schedule)` ranges over every interleaving. `SupervisorInvariant.Inv` is inductive; it
is proved thread by thread: what a boot's step guarantees to the others (`Guarantee`), and that a guaranteed step
breaks no other thread's facts. The object in `supervisor_object` overwrites real fields, one atomic action
at a time, and is proved equal to the step functions. In `supervisor_program` the methods `run_boot` and
`watch_for_crash` run on that object with their own control flow, branching on what they read, while other threads do
anything before each action: whatever happens is a schedule of the step system.

## Where the code and its comments part

- `stop_all` is documented to stop the child "before the process dies so it is never orphaned". It does not wait for
  boot threads, so when it returns a child may still be alive; `StopAllMayLeaveAChild` gives a schedule. Whether that
  can happen is decided by the state in which `stop_all` is called: `OrphanIff` proves that some continuation leaves a
  child exactly when some boot thread satisfies `MayHold`, a test on its program counter, the child in its hand, the
  flag, the counter and the machine's epoch; further boots may be requested once the flag is up, while one requested
  between the call and its raising of the flag can always leave a child (`EarlyBootBreaks`). `NoOrphanAtTheEnd` with `ShutdownRunsOut` says what always holds: the
  threads run out in a bounded number of steps and then no child is left.
- `validate` does not look at runner modes, so an accepted config may name an agent the router refuses:
  `AcceptedButUnresolvable` is such a config, `WorkflowResolves` the exact condition.
- The recovery scheduler is documented to write one row per stall. `latest_for_run` orders by detection time, so a clock
  that steps back can make it write the same kind of row again, as far as the unique key of the table lets it:
  `AlternationNeedsTheClock` is the exact condition. After a step back the dashboard can also go on showing a stall that
  the last visit found recovered: `DashboardNeedsTheClock` is the exact condition. `SmallClocks` gives instances.
- A deleted built-in is documented to be removed and tombstoned. `DeleteHalfDone` says exactly which failing store call
  leaves it removed only; asking again is then answered with "not found".
- "Older than the threshold" means at least one whole second older: `CeilingRoundsToSeconds` is the exact condition,
  `OverdueButHealthy` an instance.
- The fallback threshold is documented as longer than every default; it equals the one for a waiting human
  (`DefaultsCoverLiveStates`).
- `classify_launch_queue` picks the first live run of an issue. Its verdicts do not depend on the order of the runs
  exactly when the live runs of each issue agree (`OrderIndependentIff`), which one live run per issue ensures;
  `OrderMayMatter` is a board that changes with the order.

## Model

| member | source | states |
|---|---|---|
| Lifecycle.BootMachine.Start | apps/desktop/src/lifecycle.rs:46-55 | a boot is accepted from every phase unless a newer epoch was; a refused call changes nothing |
| Lifecycle.BootMachine.MarkRunning | apps/desktop/src/lifecycle.rs:57-71 | accepted exactly in Starting with this very project and epoch, and then Running on that port; a refused call changes nothing |
| Lifecycle.BootMachine.MarkFailed | apps/desktop/src/lifecycle.rs:73-96 | accepted exactly in Starting or Running with this project and epoch, and then Failed with that message and tail; a refused call changes nothing |
| SupervisorInvariant.StepKeepsInv | apps/desktop/src/supervisor.rs:158-332 | every step of every thread, new calls included, keeps the inductive invariant |
| SupervisorInvariant.RunKeepsInv | apps/desktop/src/supervisor.rs:158-332 | every schedule keeps the invariant |
| SupervisorInvariant.BootStepOk | apps/desktop/src/supervisor.rs:183-332 | a boot thread's step keeps its own facts and gives every other thread the guarantee they rely on |
| SupervisorSafety.OneOwner | apps/desktop/src/supervisor.rs:158-236 | in every reachable state a child is alive exactly when the slot or one thread's local holds it, and it never has two owners |
| SupervisorSafety.SpawnIsFresh | apps/desktop/src/supervisor.rs:207-213 | a boot spawns at most one child, under a name nobody has or had; no child is both alive and shut down |
| SupervisorSafety.EndedForGood | apps/desktop/src/supervisor.rs:343-347 | a child that was shut down is never alive again, over every continuation of every schedule |
| SupervisorSafety.NothingDisplaced | apps/desktop/src/supervisor.rs:305-316 | whenever `store_server` passes the check the slot is empty, so the displaced server is always none |
| SupervisorSafety.TakesItsOwn | apps/desktop/src/supervisor.rs:318-332 | `take_server(e)`, when not stale, yields a child and it is the one boot `e` stored: a late watcher never reaps a newer boot's child |
| SupervisorSafety.TakesOverOlder | apps/desktop/src/supervisor.rs:190-201 | the first block of a boot only takes over the child of an older boot |
| SupervisorSafety.SlotFollowsMachine | apps/desktop/src/supervisor.rs:190-225 | the server in the slot is always the one of the machine's epoch |
| SupervisorSafety.RunningIsServed | apps/desktop/src/supervisor.rs:222-273 | when the machine shows the newest epoch as running, the slot holds that epoch's child or its own watcher is between reaping it and `mark_failed` |
| SupervisorSafety.NoSilentExit | apps/desktop/src/supervisor.rs:183-290 | if the newest boot's thread has returned and no shutdown began, the machine is failed at that epoch and project, and its child is gone |
| SupervisorSafety.OldBootsChangeNothing | apps/desktop/src/lifecycle.rs:48-96 | once a boot has started, no later step of an older boot thread changes the machine, whatever other threads do in between |
| SupervisorSafety.MachineEpochGrows | apps/desktop/src/lifecycle.rs:29-33 | the machine's epoch never goes back, over every continuation of every schedule |
| SupervisorProgress.AlwaysTold | apps/desktop/src/supervisor.rs:207-272 | in every reachable state the thread and the machine show what the boot was told: its port while running, its failure once it met one |
| SupervisorProgress.BootSucceeds | apps/desktop/src/supervisor.rs:183-230 | the newest boot, met with no failure and no shutdown, never reaps, fails or returns; once it has stored its child the child is alive in the slot, and past `mark_running` the machine shows it running on the port it was answered |
| SupervisorProgress.GoodAnswers | apps/desktop/src/supervisor.rs:207-223 | if the spawn, the port wait and every probe go well the boot meets no failure |
| SupervisorProgress.FailureEndsBoot | apps/desktop/src/supervisor.rs:207-272 | a failed spawn or port wait or a child found dead sends the boot to `fail`, with that message and the tail of the reaped child, whoever is newest, shutdown or not |
| SupervisorProgress.FailureIsShown | apps/desktop/src/supervisor.rs:275-290 | while the machine shows a returned boot it shows it failed exactly with the message and tail of its failure, and not failed if there was none; it never shows another port than the one answered |
| SupervisorProgress.ReachesRunning | apps/desktop/src/supervisor.rs:183-230 | from any line before `mark_running` returns, with the mutex free, at most 13 steps of its own bring the newest boot with good answers to Running, its child in the slot |
| SupervisorProgress.GoesHome | apps/desktop/src/supervisor.rs:241-260 | a watcher that sees the flag, a newer epoch or an empty slot, and a boot the machine refuses, return with that step and change nothing else |
| SupervisorShutdown.SlotStaysEmpty | apps/desktop/src/supervisor.rs:158-165 | once a `stop_all` has taken the slot it is empty in every later state |
| SupervisorShutdown.LateBootsDoNothing | apps/desktop/src/supervisor.rs:190-198 | a boot requested after the shutdown's counter bump never touches the slot, the machine or a child |
| SupervisorShutdown.LiveAfterStop | apps/desktop/src/supervisor.rs:158-165 | once some `stop_all` has returned no child is alive if and only if no boot thread's local variable holds one; neither the slot nor another `stop_all` does |
| SupervisorPromise.PromiseKept | apps/desktop/src/supervisor.rs:158-165 | if no thread may hold a child when `stop_all` is called, then no child is alive once it has returned, in every continuation in which boots are requested only once the flag is up |
| SupervisorPromise.PromiseBroken | apps/desktop/src/supervisor.rs:158-165 | if some thread may, the threads there are can bring the call to its return with a child alive |
| SupervisorPromise.OrphanIff | apps/desktop/src/supervisor.rs:158-236 | for every reachable state: `stop_all` called in it can return with a child alive, new boots being requested at most once the flag is up, if and only if some boot thread may hold one, a condition on the state of the call alone |
| SupervisorPromise.EarlyBootBreaks | apps/desktop/src/supervisor.rs:159-177 | whatever happened before, a boot requested after the call and before the flag is up can leave a child: the restriction on new boots is needed |
| SupervisorShutdown.StopAllMayLeaveAChild | apps/desktop/src/supervisor.rs:158-165 | a schedule after which `stop_all` has returned and a child is alive |
| SupervisorShutdown.ShutdownRunsOut | apps/desktop/src/supervisor.rs:158-273 | from any reachable state with the flag up, the threads take at most a fixed number of further steps in any order |
| SupervisorShutdown.NoDeadlock | apps/desktop/src/supervisor.rs:183-332 | some thread can move if and only if some thread is unfinished |
| SupervisorShutdown.NoOrphanAtTheEnd | apps/desktop/src/supervisor.rs:158-236 | under shutdown, when no thread can move, every thread has returned, the slot is empty and no child is alive |
| SupervisorObject.BootSupervisor.AskStale | apps/desktop/src/supervisor.rs:299-301 | the in-place load of the flag, then of the counter, is the step of the protocol; a stale thread leaves with the mutex released |
| SupervisorObject.BootSupervisor.ActOnSlot | apps/desktop/src/supervisor.rs:303-324 | the in-place take or store on the slot is the step of the protocol |
| SupervisorObject.BootSupervisor.WatchForCrash | apps/desktop/src/supervisor.rs:244-259 | each atomic action of the polling loop on the object is the step of the protocol |
| SupervisorObject.BootSupervisor.AdvanceStop | apps/desktop/src/supervisor.rs:159-165 | the actions of `stop_all` on the object are the steps of the protocol, the mutex being held until the child is shut down |
| SupervisorObject.BootSupervisor.Execute | apps/desktop/src/supervisor.rs:158-332 | any schedule played on the object ends in the state the step system gives, and keeps the invariant |
| SupervisorProgram.BootWorker.LockAndAsk | apps/desktop/src/supervisor.rs:299-301 | acquiring the mutex and asking `is_stale`, with other threads moving before every access, ends past the check or, mutex released, at the exit of its caller |
| SupervisorProgram.BootWorker.ReapAndFail | apps/desktop/src/supervisor.rs:318-332 | reaping with its check, take and shutdown, then `fail`, under arbitrary interference ends with the thread returned and nothing in hand |
| SupervisorProgram.BootWorker.WatchForCrash | apps/desktop/src/supervisor.rs:241-273 | the polling loop with its own control flow follows the program counters of the protocol under arbitrary interference and returns with nothing in hand |
| SupervisorProgram.BootWorker.RunBoot | apps/desktop/src/supervisor.rs:183-236 | a whole boot attempt with its own control flow, other threads moving before every action, is a schedule of the step system and ends returned with no child in hand |
| Utf8.ValidSplit | crates/superkick-core/src/search.rs:190-203 | cutting a valid UTF-8 string at a character boundary leaves two valid strings (section 4 of RFC 3629) |
| Utf8.ShortTails | crates/superkick-core/src/search.rs:190-203 | four bytes in a row of a valid string always contain a character's first byte |
| Search.FindsFirst | crates/superkick-core/src/search.rs:205-218 | the range found is the first place where every byte equals the needle's or is the same ASCII letter in the other case, and no other pair of bytes matches; none is reported only if the needle is empty or absent |
| Search.FindsOnBoundaries | crates/superkick-core/src/search.rs:209-218 | on valid UTF-8 both ends of the range are character boundaries |
| Search.FloorCharBoundary | crates/superkick-core/src/search.rs:190-195 | the loop ends at the greatest boundary at or below the index |
| Search.CeilCharBoundary | crates/superkick-core/src/search.rs:197-203 | the loop ends at the least boundary at or above the index, or leaves an index past the end alone |
| Search.CommentSnippet | crates/superkick-core/src/search.rs:152-181 | the pushes and offset arithmetic give the window of 40 bytes snapped outward, with its ellipses and adjusted offsets, for every range not reversed after clamping; a reversed one fails, at the slice exactly when the windows cross |
| Search.SnippetIsValid | crates/superkick-core/src/search.rs:144-151 | the snippet of a valid body is valid UTF-8, whatever the range |
| Search.SnippetIsShort | crates/superkick-core/src/search.rs:152-181 | the snippet has at most 92 bytes more than the range |
| Search.SnippetMarksMatch | crates/superkick-core/src/search.rs:146-151 | the marked slice of the snippet is the ranged slice of the body |
| Search.SnippetShowsMatch | crates/superkick-core/src/search.rs:144-181 | a range on boundaries gives a valid, short snippet whose marks are boundaries around the same bytes |
| Search.SnippetShowsContext | crates/superkick-core/src/search.rs:141-151 | the text is the body from the last boundary not after the 40th byte before the range to the first boundary not before the 40th after it, or as far as the body goes, with U+2026 exactly on each side where it is cut, and the marks placed accordingly |
| Search.SearchMarksFirstMatch | crates/superkick-core/src/search.rs:152-218 | find and snippet together: what is marked equals the needle byte by byte up to the case of ASCII letters, and no earlier place does |
| UrlEncoding.EncodingIsInjective | crates/superkick-core/src/search.rs:286-301 | different texts have different UTF-8 bytes (section 3 of RFC 3629) |
| UrlEncoding.EncodingTable | crates/superkick-core/src/search.rs:291-293 | how many octets a character takes and which bits they carry (section 3 of RFC 3629) |
| UrlEncoding.ValidIsEncoded | crates/superkick-core/src/search.rs:291-293 | the byte strings valid by the syntax (section 4 of RFC 3629) are exactly the encodings of characters (section 3) |
| UrlEncoding.CharByChar | crates/superkick-core/src/search.rs:287-299 | letters, digits and "-", ".", "_", "~" stand for themselves; of every other character each octet becomes a percent sign and its two upper-case digits |
| UrlEncoding.UrlEncodeOfConcat | crates/superkick-core/src/search.rs:286-301 | a text is encoded character by character, whatever stands beside |
| UrlEncoding.UrlEncodeRoundTrip | crates/superkick-core/src/search.rs:286-301 | the output has only unreserved characters and uppercase triplets, and percent-decoding it gives the input's UTF-8 bytes (sections 2.1 and 2.3 of RFC 3986) |
| UrlEncoding.UrlEncodeIsInjective | crates/superkick-core/src/search.rs:286-301 | different queries never share an encoding |
| RoleRouter.ResolvesExactly | crates/superkick-core/src/role_router.rs:525-569 | a role resolves if and only if it is in the catalog, allowed and has no explicit mode without a runner for its provider; each error says which of these fails first, about which role, mode and provider |
| RoleRouter.RecipeExactly | crates/superkick-core/src/role_router.rs:525-579 | the launch recipe field by field from the catalog entry: program and arguments per provider, the role or else the name, the explicit mode and billing or the defaults written out |
| RoleRouter.BillingExactly | crates/superkick-core/src/runner_mode.rs:131-152 | an explicit billing profile wins; otherwise a pair with a runner is on subscription and any other unknown |
| RoleRouter.RepointExactly | crates/superkick-core/src/role_router.rs:474-484 | re-pointing any recipe changes its mode and billing only, and refuses exactly the modes without a runner |
| RoleRouter.ValidatesExactly | crates/superkick-core/src/role_router.rs:164-200 | an agent validates if and only if its name and skills are slugs and its mode has a runner; each error says which check failed first |
| RoleRouter.ShippedAgents | crates/superkick-core/src/role_router.rs:208-222 | the six shipped agents in order: name, provider, role and skill of each, and nothing else set |
| Text.SlugIsPattern | crates/superkick-core/src/slug.rs:8-22 | a slug is exactly what the documented pattern matches |
| Text.BlankIsTrimmedAway | crates/superkick-core/src/role_router.rs:169 | a name counts as empty if and only if trimming leaves nothing |
| RoleRouter.RepointingIsResolving | crates/superkick-core/src/role_router.rs:474-484 | re-pointing a resolved agent at another runner mode gives what resolving its definition with that mode gives, or both refuse, over the same mode and provider |
| RoleRouter.BuiltinsValidate | crates/superkick-core/src/role_router.rs:208-222 | every shipped agent passes validation |
| RoleRouter.FromDefinitionsIndexes | crates/superkick-core/src/role_router.rs:354-358 | a catalog built from definitions has exactly their names, each with a definition of that name |
| RoleRouter.LastDefinitionWins | crates/superkick-core/src/role_router.rs:354-358 | of several definitions with one name the last is in the catalog |
| Config.AgentCatalog | crates/superkick-config/src/model.rs:379-412 | in whatever order the map yields its entries, the catalog is the shipped agents overridden by the config's |
| Config.ValidateStep | crates/superkick-config/src/validate.rs:102-138 | a step is accepted if and only if it is sound; otherwise the error is the first defect it has |
| Config.Validate | crates/superkick-config/src/validate.rs:10-69 | a config is accepted if and only if it is sound; otherwise the error names a defect and every earlier check passes |
| Config.SoundExactly | crates/superkick-config/src/validate.rs:10-138 | what an accepted config is, condition by condition, with the shipped names, the limits and the step kinds written out |
| Config.CatalogEntryExactly | crates/superkick-config/src/model.rs:384-412 | the catalog entry of a configured agent field by field; every other name is a shipped agent |
| Config.PolicyExactly | crates/superkick-config/src/model.rs:439-444 | a role is allowed if and only if there is no allowlist or it is on it |
| Config.AtMostFiveSteps | crates/superkick-config/src/validate.rs:56-81 | an accepted workflow has at most five steps |
| Config.AcceptedAgentsResolve | crates/superkick-config/src/validate.rs:83-138 | an agent an accepted workflow names is never unknown or disallowed at run time; it resolves if and only if its explicit runner mode fits its provider, and never gives a Claude backend to another provider |
| Config.WorkflowResolves | crates/superkick-config/src/model.rs:379-444 | all agents of an accepted workflow resolve if and only if no explicit runner mode among them is incompatible |
| Config.AcceptedButUnresolvable | crates/superkick-config/src/validate.rs:10-69 | a config that is accepted although the router refuses its only agent |
| AgentService.AlwaysOk | crates/superkick-runtime/src/agent_service.rs:61-135 | over every sequence of operations, each failing at any store call before or after its effect, no built-in row is tombstoned and rows and catalog stay valid and indexed by name |
| AgentService.CatalogFollowsRows | crates/superkick-runtime/src/agent_service.rs:131-135 | over every sequence of operations and faults the catalog is the name index of the repository as the last successful write left it |
| AgentService.CatalogAlwaysResolves | crates/superkick-core/src/role_router.rs:164-200 | over every such sequence, every catalog entry resolves under the allow-all policy |
| AgentService.AnswersWithoutFault | crates/superkick-runtime/src/agent_service.rs:59-129 | when the stores work, each operation's outcome for each state of the rows, forced origins and names included |
| AgentService.CreateWrites | crates/superkick-runtime/src/agent_service.rs:61-73 | create succeeds exactly for a valid free name without a fault, and then rows and catalog hold the agent as a custom one; after an error the row is stored exactly under the faults listed |
| AgentService.UpdateWrites | crates/superkick-runtime/src/agent_service.rs:77-93 | update succeeds exactly for a known name and a valid agent, and then rows and catalog hold it under that name with the old origin; after an error the row is stored exactly under the faults listed |
| AgentService.DeleteCustomWrites | crates/superkick-runtime/src/agent_service.rs:98-109 | deleting a custom agent removes its row, tombstones nothing, and rebuilds the catalog; after an error the row is gone exactly under the faults listed |
| AgentService.DeleteBuiltinWrites | crates/superkick-runtime/src/agent_service.rs:98-109 | deleting a built-in removes its row, tombstones its name, and rebuilds the catalog; what each fault leaves |
| AgentService.RestoreWrites | crates/superkick-runtime/src/agent_service.rs:117-129 | restoring clears the tombstone, stores the shipped row and rebuilds the catalog; what each fault leaves |
| AgentService.OthersUntouched | crates/superkick-runtime/src/agent_service.rs:61-129 | an operation touches no row and no tombstone of another name, even when it fails half way |
| AgentService.DeleteHalfDone | crates/superkick-runtime/src/agent_service.rs:95-109 | deleting a built-in leaves neither row nor tombstone if and only if the removal fails after its effect or the record without one; the caller gets an error, and deleting again changes nothing and answers not found |
| AgentService.RestoreUndoesDelete | crates/superkick-runtime/src/agent_service.rs:95-129 | deleting a built-in removes and tombstones it; restoring brings the shipped row back and clears the tombstone |
| AgentService.Service.List | crates/superkick-runtime/src/agent_service.rs:131-135 | the catalog built from any listing of the rows is the rows themselves |
| AgentService.Service.Create | crates/superkick-runtime/src/agent_service.rs:61-73 | the in-place operation does what its specification says, under every fault |
| AgentService.Service.Update | crates/superkick-runtime/src/agent_service.rs:77-93 | the in-place operation does what its specification says, under every fault |
| AgentService.Service.Delete | crates/superkick-runtime/src/agent_service.rs:98-109 | the in-place operation does what its specification says, under every fault |
| AgentService.Service.RestoreDefault | crates/superkick-runtime/src/agent_service.rs:117-129 | the in-place operation does what its specification says, under every fault |
| AgentService.Service.RebuildCatalog | crates/superkick-runtime/src/agent_service.rs:131-135 | when the listing works the shared catalog becomes the name index of the rows; otherwise nothing changes |
| Sorting.StableSortSorts | crates/superkick-core/src/queue.rs:179-183 | the reference sort is sorted, stable and a permutation |
| Sorting.StableSortIsUnique | crates/superkick-core/src/queue.rs:179-183 | there is only one stably sorted arrangement, so the library's sort gives the same |
| Queue.TrimForQueue | crates/superkick-core/src/queue.rs:173-187 | the in-place partition, sort and truncation give the live runs in order and then the shown ones |
| Queue.TrimKeepsExactly | crates/superkick-core/src/queue.rs:168-187 | every live run stays in its place, every cancelled run is gone, and behind the live ones stand, newest first, the first min(15, n) runs of any stable sort of the completed ones |
| Queue.NothingNewerDropped | crates/superkick-core/src/queue.rs:163-187 | occurrence by occurrence, kept and dropped completed runs are all of them, and none dropped is newer than one kept |
| Queue.FinishExactly | crates/superkick-core/src/queue.rs:173-183 | a run is as new as its finish, or its last update if it has none |
| Queue.SurvivorsClassify | crates/superkick-core/src/queue.rs:189-225 | whatever the signals, every survivor has a bucket, and it is Done exactly for completed runs |
| Queue.ClassifiesExactly | crates/superkick-core/src/queue.rs:194-225 | each bucket as a condition on the state, the pending signals, the handoffs and the pull request |
| LaunchQueue.BucketsExactly | crates/superkick-core/src/launch_queue.rs:266-340 | the bucket of an issue without a live run, as a condition on its state, blockers, parent, priority and the cap |
| LaunchQueue.ReasonsExactly | crates/superkick-core/src/launch_queue.rs:283-340 | the reason of an issue without a live run: the status, the unfinished blockers in order, the parent's run, the priority, or the counters |
| LaunchQueue.RunBucketExactly | crates/superkick-core/src/launch_queue.rs:376-389 | queued and executing runs share the active column, the other buckets keep their names |
| LaunchQueue.CapacityExactly | crates/superkick-core/src/launch_queue.rs:235-264 | the counters are the number of runs not completed, failed or cancelled, saturating at 32 bits, and the cap; every issue and run is classified in its place |
| LaunchQueue.VerdictUnderPermutation | crates/superkick-core/src/launch_queue.rs:266-376 | permuting the runs leaves bucket, reason and linked run of every issue unchanged when live runs of an issue agree |
| LaunchQueue.OneLiveAgrees | crates/superkick-core/src/launch_queue.rs:361-367 | at most one live run per issue suffices for that |
| LaunchQueue.OrderIndependentIff | crates/superkick-core/src/launch_queue.rs:266-376 | verdicts are independent of the order of the runs if and only if live runs of an issue agree |
| LaunchQueue.OrderMayMatter | crates/superkick-core/src/launch_queue.rs:361-367 | two live runs of one issue whose order decides the issue's bucket |
| LaunchQueue.BoardUnderPermutation | crates/superkick-core/src/launch_queue.rs:232-264 | permuting issues and runs permutes the classification and keeps the counters |
| LaunchQueue.SharesBucketWithRun | crates/superkick-core/src/launch_queue.rs:273-281 | an issue with a live run shows that run's bucket and reason and links to it |
| LaunchQueue.LiveCountUnderPermutation | crates/superkick-core/src/launch_queue.rs:369-374 | the capacity count does not depend on the order of the runs |
| Dispatch.DispatchedIsActive | crates/superkick-core/src/launch_queue.rs:266-281 | a dispatched launchable issue becomes active and linked to its run |
| Dispatch.NewRunIsWaiting | crates/superkick-core/src/queue.rs:220-222 | a fresh run without signals is in the bucket the dispatch gives it |
| Dispatch.OthersAfterDispatch | crates/superkick-core/src/launch_queue.rs:283-340 | a dispatch changes another issue only from launchable to waiting, by refreshing a capacity reason, or by blocking a child; none becomes launchable |
| Dispatch.CapHolds | crates/superkick-core/src/launch_queue.rs:240-241 | over any series of tries the live runs grow by exactly the dispatches made and never exceed the cap, and one live run per issue is kept |
| Dispatch.NothingOpensUp | crates/superkick-core/src/launch_queue.rs:266-340 | no series of dispatches makes an issue launchable that was not |
| Dispatch.RunningStays | crates/superkick-core/src/launch_queue.rs:273-281 | once an issue has a live run no later dispatch changes its verdict |
| FileWalk.ReadDir | crates/superkick-api/src/search_state.rs:140-184 | one directory's pass accounts for every file: indexed, below the stack, or still ahead, until the cap is met |
| FileWalk.WalkRepo | crates/superkick-api/src/search_state.rs:132-190 | the walk ends, sorted by path, with exactly the files of the recursive definition, or 50,000 of them when there are more |
| FileWalk.EachOnce | crates/superkick-api/src/search_state.rs:132-190 | on a well-named tree no path is listed twice |
| FileWalk.IndexIsStrict | crates/superkick-api/src/search_state.rs:188 | on a well-named tree the index is strictly increasing |
| FileWalk.StringLeMeans | crates/superkick-api/src/search_state.rs:188 | the order of the index is the lexicographic one |
| FileWalk.IndexedExactly | crates/superkick-api/src/search_state.rs:154-182 | the recursive definition lists a path if and only if the tree has a file there, no directory on the way is skipped and the name is no dotfile |
| FileWalk.PathIsSlashed | crates/superkick-api/src/search_state.rs:168-172 | an indexed path is the names on the way with a slash between each two |
| LaunchTask.Dedup | crates/superkick-core/src/launch_profile.rs:143-145 | on a sorted list, removing adjacent duplicates leaves the same elements in strictly increasing order, and keeps the length if and only if they were pairwise distinct |
| LaunchTask.ValidateProfile | crates/superkick-core/src/launch_profile.rs:131-151 | a profile is accepted if and only if id and name are not blank and the orderings are pairwise distinct |
| LaunchTask.NewDynamic | crates/superkick-core/src/launch_task.rs:526-590 | errors for a blank issue and for no enabled step; otherwise a pending dynamic task with nothing overridden that stores the snapshot as it is, and the sorted step rows |
| LaunchTask.RowTags | crates/superkick-core/src/launch_task.rs:548-571 | the row of a step field by field, with the stored names of its provider and of its executor's runner mode |
| LaunchTask.RowReadsBack | crates/superkick-core/src/launch_task.rs:548-571 | each row carries every field of its step, belongs to the task and has not run yet: pending, no links, no result, no resume |
| LaunchTask.RowsPermuteSteps | crates/superkick-core/src/launch_task.rs:545-571 | reading the rows back gives a permutation of the snapshot's steps, every field kept |
| LaunchTask.RowsInSequence | crates/superkick-core/src/launch_task.rs:522-546 | the rows come in increasing sequence, strictly if and only if the orderings are pairwise distinct |
| Recovery.FlipsExactly | crates/superkick-core/src/recovery.rs:207-231 | a live run is stalled exactly from one whole second past its ceiling on, measured from its newest signal |
| Recovery.VerdictExactly | crates/superkick-core/src/recovery.rs:207-244 | the whole verdict from update, heartbeat, clock and ceiling: stalled from one whole second past the ceiling, since the later of the two signals, for as many whole seconds, and for which reason |
| Recovery.StaysStalled | crates/superkick-core/src/recovery.rs:207-243 | without a new signal a stalled run stays stalled, since the same moment, for the same kind of reason |
| Recovery.CeilingRoundsToSeconds | crates/superkick-core/src/recovery.rs:65-70 | "older than the threshold" is met except within the second after the threshold |
| Recovery.OverdueButHealthy | crates/superkick-core/src/recovery.rs:226-231 | a queued run half a second over its two minutes that is healthy |
| Recovery.DefaultsCoverLiveStates | crates/superkick-core/src/recovery.rs:73-107 | the default map covers exactly the live states; the fallback is longer than every default but the waiting human's, which it equals |
| Recovery.DefaultsExactly | crates/superkick-core/src/recovery.rs:83-107 | the default ceilings in minutes |
| Recovery.Scheduler.Tick | crates/superkick-runtime/src/recovery_scheduler.rs:65-137 | a tick appends what the decision says for each candidate, a failing access skips that candidate only, and exactly the rows added are published |
| Recovery.Scheduler.Insert | crates/superkick-storage/migrations/016_run_heartbeat_recovery.sql:25-37 | a row is inserted exactly when the table works and no row has its run, kind and time |
| Recovery.EveryRowHasItsVisit | crates/superkick-runtime/src/recovery_scheduler.rs:87-131 | every row of the table stands for a visit that worked, at its time, and tells its verdict |
| Recovery.RowsAlternate | crates/superkick-core/src/recovery.rs:276-285 | over any series of visits to any runs, with a clock that stands still once it has stepped back, the rows of each run alternate Stalled and Recovered, starting with Stalled |
| Recovery.CurrentStallIsLastSeen | crates/superkick-storage/src/sqlite/recovery.rs:112-139 | with a clock that never steps back, the dashboard shows a stall exactly when the last visit at which nothing failed found the run stalled |
| Recovery.AlternationNeedsTheClock | crates/superkick-storage/src/sqlite/recovery.rs:115-128 | for given times, the rows alternate whatever the visits find if and only if the clock, once it has stepped back, stands still |
| Recovery.DashboardNeedsTheClock | crates/superkick-storage/src/sqlite/recovery.rs:133-139 | for given times, the dashboard agrees with the last successful visit of every run whatever the visits find if and only if the times are in order |
| Recovery.SmallClocks | crates/superkick-storage/src/sqlite/recovery.rs:115-139 | instances: times 2, 1 mislead the dashboard, times 2, 1, 3 break the alternation, times 2, 1, 1 do not |
| Handoffs.Handoff.Create | crates/superkick-core/src/handoff.rs:234-265 | a handoff is created if and only if role and payload are valid, pending and with the payload's kind |
| Handoffs.Handoff.Transition | crates/superkick-core/src/handoff.rs:267-276 | the status moves only along the table; otherwise the error names both ends and nothing changes |
| Handoffs.MovesExactly | crates/superkick-core/src/handoff.rs:81-97 | the nine moves of the lifecycle and no other; the four terminal statuses |
| Handoffs.CallsExactly | crates/superkick-core/src/handoff.rs:278-329 | which call is accepted in which status, and every field it changes or leaves |
| Handoffs.PayloadsExactly | crates/superkick-core/src/handoff.rs:332-377 | what a payload of each kind must carry, and its kind |
| Handoffs.Handoff.Deliver | crates/superkick-core/src/handoff.rs:279-284 | accepted: delivered to that session at that time; rejected: nothing changes |
| Handoffs.Handoff.Finish | crates/superkick-core/src/handoff.rs:292-297 | accepted: the result and the time are recorded; rejected: nothing changes |
| Handoffs.Handoff.GiveUp | crates/superkick-core/src/handoff.rs:301-306 | accepted: the failure and the time are recorded; rejected: nothing changes |
| Handoffs.Handoff.AskOperator | crates/superkick-core/src/handoff.rs:311-321 | accepted: the attention id is added to the failure, with the default failure if there is none; rejected: nothing changes |
| Handoffs.RejectedCallsDoNotMatter | crates/superkick-core/src/handoff.rs:88-97 | over every sequence of calls at most four are accepted, and replaying only those gives the same record |
| Handoffs.AlwaysConsistent | crates/superkick-core/src/handoff.rs:230-330 | over every sequence of calls, completion time, result, failure and delivery are filled in exactly in the statuses they belong to |
| Handoffs.FieldsComeFromCalls | crates/superkick-core/src/handoff.rs:278-329 | every filled field is what an accepted call brought; the default failure of an escalation is never used |
| Handoffs.TerminalIsFinal | crates/superkick-core/src/handoff.rs:81-97 | over every sequence of calls a terminal handoff stays as it is, except that the first escalation of a failed one is recorded |
| Attach.ReadEscaped | crates/superkick-core/src/attach.rs:139-142 | within single quotes an escaped value is read back as the value, every character literal |
| Attach.CommandReadsBack | crates/superkick-core/src/attach.rs:144-167 | a POSIX shell reads the command as exactly the intended words, each value equal to the original string, for all strings (section 2.2.2 of POSIX.1-2017, Shell Command Language) |
| Attach.WordsInOrder | crates/superkick-core/src/attach.rs:144-167 | the words one by one: into the worktree, the six variables each with its own value, and the shell |
| Attach.CommandIsInjective | crates/superkick-core/src/attach.rs:144-167 | different arguments never give the same command |

## Left out

- Project registry, navigation, event emission and spawn configuration of the desktop shell: plumbing around the boot
  protocol. Whether a spawn succeeds, the port answers or the child is alive is chosen freely at each step, and so are
  the port, the error texts of the first two and the lines of a child's log tail. A boot thread that finds the supervisor unregistered ends at once
  and is not modelled.
- The counters are unbounded (64 bits in the program). Memory order is sequentially consistent, as every access in the
  program asks for. A poisoned lock is recovered by the program and does not occur in the model.
- Search.CommentSnippet: the failures of a reversed range are those of a build with overflow checks; without them the
  subtraction wraps and the snippet's end lies before its start. `find_ascii_ci` never gives such a range.
- SupervisorPromise.OrphanIff: a child is alive until it is shut down, so a server that exited by itself counts until it
  is reaped.
- SupervisorProgram: a thread's wait is bounded by a script of the others' moves; when the script ends the thread is
  suspended, so nothing is said of endless executions beyond their finite parts.
- `str::find`, `str::replace`, `char::encode_utf8` and the standard sorts are modelled by their specifications; the
  sorts by the unique arrangement that meets it. Path order is by code point, which is the byte order of UTF-8.
- RoleRouter: Linear context, MCP and tool policies, default reasoning, the enabled flag, avatars and descriptions of an
  agent are copied through the program without being looked at and have no field in the model.
- Config: the sections of the YAML file that `validate`, `agent_catalog` and `base_run_policy` do not read;
  `effective_mcp_servers`.
- AgentService: operations run one at a time, as overlapping rebuilds may race between listing and replacing; the
  stores are maps whose calls may fail; seeding at boot is not modelled. A snapshot is a value, so sharing it between
  readers is not captured.
- Queue: `queue_card_reason` and all other operator copy; reasons are cases of a datatype.
- Dispatch: the endpoint does not ask whether an issue is launchable. The model dispatches what the board shows as
  launchable, which is what the board offers; it is a modelling decision that no other run is started meanwhile.
- FileWalk: the tree does not change during a walk; symbolic links are neither files nor directories, as in the program.
- LaunchTask: enumerations that are only copied are tags; the fresh identifiers of step rows; later status changes and
  overrides of a task.
- Recovery: the candidate query itself (a series of visits may contain any candidates), the tick interval, and the
  removal of a run's rows when the run is purged. An insert refused by the unique key counts as a visit that failed.
- Handoffs: identifiers and clock readings are inputs; the artifact lists of payloads and results have no rule of their
  own.
- Attach: what the shell does after token recognition and quoting (expansion of `$SHELL`, running the commands), and the
  rest of the attach payload.
- Redaction, transcripts, HTTP routing, event streams, the command line, the dashboard and the SQLite layer beyond the
  two queries named above.
