# Power control: a verified model

This project models the parts of the power control service (PCS) in which
mistakes are hard to see: the engine that carries out a power transition, the
protocols by which several service instances share one stored record, the etcd
storage layer that truncates, pages and reassembles large records, and the
selection, compression and payload code around them. To check the whole project,
run `dafny verify dfyconfig.toml` in this directory.

The main results, in the system's own terms:

- **A transition run** (`Engine`, `RunInvariant`, `Fallout`, `Blame`, `Planner`,
  `PowerSequence`).
  For every set of requested components, every order of hardware answers,
  timeouts, lost reservations and aborts, a waiting-mode run keeps one
  invariant: a live component's action count is the number of times it occurs
  in the phases still ahead. So a task that ends succeeded had every planned
  action confirmed (a timed-out shutdown by its force-off), a completed run
  leaves a task unfinished exactly when an action planned for it has no phase
  in the sequence, offs go out leaves first and ons supplies first, every command
  goes to a component that is reserved, and every failure has a cause. A force-off
  goes out only where it was asked for or after a graceful shutdown timed out, and a
  node whose graceful shutdown failed keeps a supply that is on, and its module: that
  one fails with it and, if no module had been commanded yet, is sent no off for the
  rest of the run.
- **The record protocol** (`RecordProtocol`). Over every interleaving of any
  number of workers, abort requests, keep-alives and reapers, a successful
  test-and-set never replaces `abort-signaled`, a renewal keeps reapers off the
  record for 30 seconds, a finished record with no worker left stays so, and an
  abandoned version is taken over once as long as no finished version is put back.
  With one live worker per record, finished records stay finished, an accepted abort stays until the final store, and the
  final status is `aborted` exactly when the finishing worker looked after the
  acceptance.
- **Mastership** (`MasterLease`). Over every run of any number of instances the
  stored timestamp never falls and keeps pace with its holder's timer, at most
  one instance remembers it, and a displaced master steps down at the first
  keep-alive that reaches the store, without touching it; one whose refreshes reach
  the store while its timestamp is younger than 45 seconds stays master. While
  masters read the clock within an interval of their ticks, every write is strictly
  later.
- **Storage** (`KeySpace`, `Paging`, `Truncation`, `EtcdStore`, `EtcdStorage`).
  Every range scan returns exactly its own family of records. Reading back a
  stored transition gives its locations and task ids exactly for any number of
  pages, and its task reports exactly unless the halved window loses some; what is
  written is below the size limit or no longer than a page.
- **Compression, reaping, capabilities, power caps, status cache**
  (`Compression`, `Reaper`, `Capabilities`, `PowerCapPatch`, `StatusCache`).

Where the code does not do what its comments or tests suggest, the model
follows the code, gives a concrete case and says when the property does hold:

- The ancestor walk of the soft-restart planner advances only past ancestors
  that were not requested. It ends exactly when no ancestor was requested
  (`Planner.WalkHaltsExactly`), and then never finds a reason for an off-on; a
  node requested with its module hangs the planner (`Planner.WalkNeverEnds`,
  `EngineCases.RestartWithModuleHangs`).
- An action for which the sequence has no phase is planned and never carried
  out, so its task is left unfinished by a completed run, and no other task is
  (`Engine.EndFacts`); turning on a management switch is such a case
  (`EngineCases.SwitchStaysUnfinished`).
- A node whose reservation is lost in the shutdown phase of the chassis or of the
  connectors is failed with its module although modules have been commanded by then,
  so its module may be off already; the promise that the module was sent no off is
  made for the failures before that (`Blame.FailedNodeKeepsPower`).
- A paged record whose tasks and locations are both fewer than the page size is
  cut with a halved window but the full stride, so only the first half of its
  reports is stored (`EtcdStore.RoundTrip` says exactly when,
  `StoreCases.HalvedWindowLosesReport` shows one).
- A test-and-set that fails still writes the later pages, and a reader gets them
  (`EtcdStore.TestAndSetExactly` says when the answer stays the same,
  `StoreCases.FailedSwapShowsNewPage` shows one that does not). The record
  protocol is stated for the first page.
- Pages left over from a longer version of a record are read as part of the new
  one (`EtcdStore.StoreThenRead` says exactly which,
  `StoreCases.LeftoverPageIsRead` shows one).
- The hierarchy scan goes by text (`KeySpace.ScanIsFilter`): below `x1` it finds
  `x10` (`KeySpace.HierarchyTakesNeighbours`).
- A worker that dies between failing its tasks for an accepted abort and its
  final store is succeeded by one that stores `completed`
  (`RecordCases.AcceptedAbortLostInCrash`); `RecordProtocol.FinalStatusExactly`
  says what decides it.
- Two live workers can put a completed record back in progress
  (`RecordCases.CompletedIsOverwritten`); with none left it stays
  (`RecordProtocol.RestIsAbsorbing`).
- A version taken over can come back and be taken over again when a second final
  store puts a finished version back under a worker that is about to write over it
  (`RecordCases.TakenOverAgain`); without either it cannot
  (`RecordProtocol.TakenOverOnce`).
- A master that handles a tick a whole interval late can refresh the timestamp
  to itself (`MasterLease.LateRefreshStandsStill`); one that does not makes every
  write later (`MasterLease.EveryWriteIsLater`).
- Soft restart is advertised for a node that only allows a forced restart, and
  then its plan cannot be sent (`Capabilities.ForceRestartOnly`);
  `Capabilities.SoftRestartExactly` says when it can.
- Expired records count among the oldest, so a sweep can leave more finished
  records than the limit (`Reaper.ExpiredTakesPlace`), by exactly their number
  (`Reaper.SweepLeaves`).
- A refresh of the component map does not rewrite stored records, so their
  supported transitions can lag behind (`StatusCache.RecordsLagBehind`);
  `StatusCache.RecordsAgreeExactly` says when they do not.

## Layout

| file | holds |
|---|---|
| `Wrappers.dfy`, `PowerTypes.dfy`, `Records.dfy` | shared data types |
| `PowerSequence.dfy`, `Planner.dfy`, `Payloads.dfy` | the phase table, the plan, the planner, reset types |
| `RunInvariant.dfy`, `Fallout.dfy`, `Blame.dfy`, `Engine.dfy` | the run invariant and its step lemmas; what fails together; the causes of failures; the class that runs a transition |
| `RecordProtocol.dfy`, `MasterLease.dfy` | the two test-and-set protocols as step relations |
| `KeySpace.dfy`, `Truncation.dfy`, `Paging.dfy`, `EtcdStore.dfy`, `EtcdStorage.dfy` | keys and scans, truncation, paging, what the store holds, the storage class |
| `Compression.dfy`, `Reaper.dfy` | reports, compression and removal; the sweep of the reapers |
| `EngineCases.dfy`, `RecordCases.dfy`, `StoreCases.dfy` | concrete runs and stores that show the deviations listed above |
| `Capabilities.dfy`, `PowerCapPatch.dfy`, `StatusCache.dfy` | advertised operations, power cap patches, the status monitor's map |

## Model

| member | source | states |
|---|---|---|
| PowerSequence.PhaseOfIsUnique | internal/domain/transitions.go:65-114 | each (action, type) pair has at most one phase of the sequence, and it is the one a closed formula names |
| PowerSequence.PhaseListMembers | internal/domain/transitions.go:685-701 | the component list of a phase holds, without repetition, exactly the components planned for its action whose type the phase covers |
| PowerSequence.AheadIsOccurrences | internal/domain/transitions.go:685-701 | counting plan entries whose phase is still ahead is the same as counting occurrences in the lists of those phases one by one |
| PowerSequence.SequenceOrder | internal/domain/transitions.go:65-114 | offs go node, module, chassis, connector, each force-off right behind its shutdown, and ons the other way round; nothing else is turned off or on; restarts lie between all offs and all ons, every controllable type has one, and controllers come after all others |
| Planner.DecisionShape | internal/domain/transitions.go:1304-1553 | a decision finishes the task or plans distinct actions of the operation, never both, never shutdown together with force-off, and keeps the task resumable |
| Planner.DecisionReachesTarget | internal/domain/transitions.go:1304-1553 | planned actions lead to the power state the operation is for; a task succeeds without any only where that state is reached, fails only as a restart of a component not on, and is unsupported exactly when not advertised; a fresh restart really interrupts the component |
| Planner.GentleFirst | internal/domain/transitions.go:1304-1553 | a force-off is planned only for a force-off or for an init whose earlier run had come to one; a fresh off, soft off, hard restart or init of a component that is on is planned as a graceful shutdown first, and a fresh soft restart as the restart where there is one |
| Planner.NothingIdle | internal/domain/transitions.go:1304-1553 | no planned action is idle when its turn comes, and a restart or init turns nothing off that is not on |
| Planner.ResumesWhereItLeftOff | internal/domain/transitions.go:1384-1530 | a resumed restart or init does not repeat what was under way: done when its on or restart has taken effect, the on alone when its off has |
| Planner.StrandedExactly | internal/domain/transitions.go:1464-1490 | a task is neither finished nor planned exactly in the hard-restart branch without a final else, for a component not on whose earlier run sent something other than on, off or force-off |
| Planner.PlanningIsTotal | internal/domain/transitions.go:1304-1553 | a task that carries the operation of an action really sent is never stranded |
| Planner.StrandedHardRestart | internal/domain/transitions.go:1464-1490 | without that, a concrete hard restart is stranded |
| Planner.WalkHaltsExactly | internal/domain/transitions.go:1421-1436 | the ancestor walk ends exactly when no ancestor was requested, and then its verdict is what it started with |
| Planner.ParentSupportsRestart | internal/domain/transitions.go:1411-1436 | the walk as run: it answers exactly when it ends, and then with what it ends with, which is that the parents allow a restart |
| Planner.WalkNeverEnds | internal/domain/transitions.go:1421-1436 | a node requested together with its module: the walk stays at the module for ever |
| Payloads.ResetFor | internal/domain/transitions.go:1558-1577 | a reset type is found exactly when the action or its fallback is allowed; it is one the component allows, the action itself when that is allowed, has the same effect on power, and is never a force-off in place of a gentler action |
| Engine.PlanMatchesCount | internal/domain/transitions.go:1304-1553 | after planning, the action count is the number of plan lists the component is in, and it is zero exactly when the task is finished |
| Engine.Transition.SequenceComponents | internal/domain/transitions.go:1304-1553 | planning hangs exactly when it walks up from a component with a requested ancestor; otherwise it establishes the run invariant, files each component under exactly its decided actions and lists every unfinished one for reservation |
| Fallout.SupplyToFail | internal/domain/transitions.go:1640-1654 | reports a supply outside the request that is on if there is one, and otherwise names the last supply that is on |
| Fallout.WaveHit | internal/domain/transitions.go:592-658 | in a round of failures, failing one more component with its fallout, unless it has failed already, keeps exactly the hit components and the fallout of the nodes among them failed |
| Engine.Transition.FailTask | internal/domain/transitions.go:1626-1670 | exactly the task and its fallout fail: the module of a node being shut down and, if no supply outside the request is on, its last supply that is; such a node is cut off, and in time for its module exactly when no module has been commanded |
| Engine.Transition.FailDependents | internal/domain/transitions.go:1626-1670 | exactly the module and the chosen supply fail, which keeps the run invariant and adds the node to those that keep their power |
| Engine.NodeKeepsPower | internal/domain/transitions.go:1626-1670 | before the connector phases, a node with a supply on still has one that this run has not switched off and never will |
| Engine.Transition.AcquireReservations | internal/domain/transitions.go:568-658 | exactly the unfinished components not granted fail, with the fallout of the nodes among them that are to be shut down, which are cut off in time for their modules; exactly the granted ones get their key, nothing else changes and nothing is sent |
| Engine.Transition.CheckReservations | internal/domain/transitions.go:715-741 | exactly the unfinished components whose reservation is lost fail, with the fallout of the nodes among them in a shutdown phase, before the phase sends anything |
| Engine.Transition.SendOne | internal/domain/transitions.go:754-800 | a command is sent exactly to a live component that is not already waiting for this action and has a payload; a waiting one is taken up without sending again |
| Engine.Transition.SendCommands | internal/domain/transitions.go:750-802 | after sending, what is pending is exactly what is in flight, and everything in flight is planned for this phase |
| Engine.Transition.ProcessReplies | internal/domain/transitions.go:804-883 | in any order of answers, exactly the refused commands fail their tasks and everything else is waited for |
| Engine.Transition.PollOne | internal/domain/transitions.go:914-950 | what is read is acted on: a missing record fails the task, the wanted state confirms one action and with the last finishes the task, any other state changes nothing |
| Engine.Transition.Poll | internal/domain/transitions.go:905-955 | one look at every component waited for acts on each reading, and exactly those read in another state are still waited for, unchanged |
| Engine.Transition.Confirm | internal/domain/transitions.go:885-997 | the first reading of a component that is not of another state settles it: confirmed if it is the wanted one, failed if there is no record; one without such a reading is waited for unchanged, until the deadline if there is one |
| Engine.Transition.TimeOut | internal/domain/transitions.go:956-977 | each component still waiting moves to the force-off list when it was to be shut down gracefully, may be forced off and the operation is no soft off, and fails otherwise |
| Engine.Transition.RunPhase | internal/domain/transitions.go:684-999 | one phase takes the invariant from its boundary to the next, and the plan only gains force-offs of planned shutdowns |
| Engine.Transition.Run | internal/domain/transitions.go:555-1016 | a whole run, over its input: it hangs exactly when planning does, with nothing sent; commands are ordered, planned, payable and went only to components reserved and still held when their phase began; every force-off was asked for, taken up again by an init, or follows the timed-out shutdown of its component; at the end the outcome of every task and a cause with its reason for every failure; every reserved node that was to be shut down is confirmed off, timed out and on to a force-off, or protected, also while a later phase waits; a node denied its reservation before its shutdown, or failed during it before modules were commanded, is protected: it keeps a supply on, and its module was sent no off and has failed if requested |
| Blame.AccountedStrike | internal/domain/transitions.go:1626-1670 | a node failed in its shutdown takes its module with it: its module and supplies fail on its account, the module is sent no off from then on, and every failure, command and force-off stays accounted for |
| Blame.AccountedFail | internal/domain/transitions.go:592-655 | failing a task for a valid cause other than a node's shutdown keeps everything accounted for: at planning, not granted, expired, without a payload, refused, without a record, or timed out where no force-off is possible |
| Blame.FailedNodeKeepsPower | internal/domain/transitions.go:1626-1670 | a failed node has a valid cause; if that arose while it was to be shut down gracefully, a supply it had on stays on and its module has failed if requested; if it arose before modules were commanded, the module was sent no off |
| Blame.EarlyIsProtected | internal/domain/transitions.go:1626-1670 | a node cut off in time keeps a supply on if it had one, and its module was sent no off and has failed if requested |
| Blame.GentleStep | internal/domain/transitions.go:956-963 | a force-off planning did not ask for is in the plan, and was sent, only after its component's graceful shutdown had timed out |
| Engine.SentFromPlan | internal/domain/transitions.go:754-800 | every command went to a requested component, for an action planned for it or the force-off of its planned shutdown, with a payload for it |
| Engine.SentWhenDue | internal/domain/transitions.go:956-963 | every force-off sent was planned for a force-off, taken up again by an init whose earlier run had come to one, or follows the timed-out shutdown of its component |
| Engine.FirstActionExactly | internal/domain/transitions.go:611-640 | the action a denied task says comes first is the one planned first if no run has touched it, and otherwise the one its last command was for |
| Engine.EntersShutdown | internal/domain/transitions.go:685-701 | a reserved node that is to be shut down gracefully enters the first phase |
| Engine.BeyondExactly | internal/domain/transitions.go:684-701 | whether the plan after the run holds entries no phase visits can be told from the component before it: an action planned for it has no phase |
| Engine.EndFacts | internal/domain/transitions.go:684-1016 | at the end a live task is unfinished exactly when an action planned for it has no phase, and a task finished by the run had every decided action confirmed, a shutdown possibly by its force-off |
| EngineCases.SwitchStaysUnfinished | internal/domain/transitions.go:65-114 | a transition that turns on a management switch, reserved throughout, completes with its task unfinished |
| EngineCases.RestartWithModuleHangs | internal/domain/transitions.go:1421-1436 | a soft restart of a node together with its module hangs in planning |
| Engine.Transition.DoAbort | internal/domain/transitions.go:1077-1091 | every new or in-progress task fails and every other task is unchanged |
| RunInvariant.CountAtBoundary | internal/domain/transitions.go:684-999 | between phases the action count of a live component is its number of occurrences in the phases ahead plus the entries no phase visits |
| RunInvariant.ForceOffStep | internal/domain/transitions.go:956-963 | the appended force-off lands in the very next phase, ahead of the cursor, and keeps the counts right |
| RunInvariant.ConfirmStep | internal/domain/transitions.go:934-950 | confirming decrements the count and finishes the task exactly at zero, keeping the invariant |
| RunInvariant.FailStep | internal/domain/transitions.go:1655-1668 | failing tasks that are not in flight, succeeded ones included, keeps the invariant |
| RunInvariant.EndOfRun | internal/domain/transitions.go:684-1016 | at the end every planned action of a live, covered component was confirmed |
| RunInvariant.OffsBottomUp | internal/domain/transitions.go:65-114 | an off to a lower level is sent and resolved before any off to a higher level is sent |
| RunInvariant.OnsTopDown | internal/domain/transitions.go:65-114 | an on to a higher level is sent and resolved before any on to a lower level is sent |
| RecordProtocol.SignalSurvivesTas | internal/domain/transitions.go:1022-1056 | for any number of workers, no successful test-and-set replaces a stored abort-signaled |
| RecordProtocol.RenewalIsStored | internal/domain/transitions.go:1095-1138 | a passing keep-alive leaves the record as it was but for the time, which is its own; a worker's passing store puts its copy there with its time |
| RecordProtocol.RenewalHoldsReapersOff | internal/domain/transitions.go:1692-1734 | after a renewal no takeover happens within 30 seconds of its time, unless a final store or compression comes between, and not even then if no worker was about to write over a finished version |
| RecordProtocol.AbortIsAccepted | internal/domain/transitions.go:184-228 | an abort request that passes changes nothing but the status, to abort-signaled, and is accepted |
| RecordProtocol.TakeoverStartsWorker | internal/domain/transitions.go:1692-1734 | a takeover leaves the record as it was but for the time and, for an expired one, the signal; it was silent for more than 30 seconds, and a new worker is live for it |
| RecordProtocol.FinalStoreEnds | internal/domain/transitions.go:1857-1883 | a final store leaves a finished, compressed record and ends its worker; a deletion leaves no record |
| RecordProtocol.SingleRun | internal/domain/transitions.go:184-228 | with one live worker per record, the protocol invariant holds in every reachable state |
| RecordProtocol.RestIsAbsorbing | internal/domain/transitions.go:1095-1138 | in any run, once no worker is live and the reapers' finished copies agree with the finished record, its status stays until deletion and no worker is started for it again |
| RecordProtocol.FinishedIsAbsorbing | internal/domain/transitions.go:1095-1138 | with one live worker per record, completed and aborted stay until the record is deleted |
| RecordProtocol.AcceptedAbortStays | internal/domain/transitions.go:184-228 | an accepted abort stays stored until a worker's final store |
| RecordProtocol.LaunchAfterAcceptance | internal/domain/transitions.go:709-713 | a command launched after the acceptance belongs to a phase whose abort check came before it |
| RecordProtocol.FinalStatusExactly | internal/domain/transitions.go:1060-1091 | the final status is aborted exactly when the finishing worker looked at the record after the acceptance |
| RecordProtocol.TakenOverOnce | internal/domain/transitions.go:1692-1734 | with any number of workers alive, of any number of reapers holding the same abandoned version at most one takes it over: until a final store or compression, and for good when no worker was about to write over a finished version |
| RecordCases.TakenOverAgain | internal/domain/transitions.go:1692-1734 | a run of four workers in which both conditions fail: two final stores of the same version, and the version between them is taken over twice |
| RecordCases.CompletedIsOverwritten | internal/domain/transitions.go:1022-1056 | with two live workers, a run in which one completes the record and the other's late store puts it back in progress |
| RecordCases.AcceptedAbortLostInCrash | internal/domain/transitions.go:1077-1091 | with one worker at a time, a run in which a worker sees the abort, fails its tasks and dies, and its successor finds none open and stores completed |
| MasterLease.StepKeepsInv | internal/domain/power-status.go:1038-1112 | every step keeps the lease invariant and never lowers the stored timestamp |
| MasterLease.StoredNeverFalls | internal/domain/power-status.go:1038-1112 | over any run the stored timestamp never goes back |
| MasterLease.TimestampKeepsPace | internal/domain/power-status.go:1086-1112 | a holder elected with timestamp e that has refreshed n times has stored one no earlier than e plus n intervals |
| MasterLease.EveryWriteIsLater | internal/domain/power-status.go:1086-1112 | while masters read the clock within an interval of their ticks, every election and every refresh stores a strictly later timestamp |
| MasterLease.LateRefreshStandsStill | internal/domain/power-status.go:1086-1112 | a run in which a tick handled a whole interval late makes the next refresh store the timestamp that is there |
| MasterLease.OneHolder | internal/domain/power-status.go:1086-1112 | at most one instance remembers the stored timestamp |
| MasterLease.TakeoverNeedsSilence | internal/domain/power-status.go:1052-1080 | a takeover needs 45 seconds of silence, raises the timestamp by at least as much, and makes its author the holder |
| MasterLease.FreshMasterStays | internal/domain/power-status.go:1052-1112 | a master whose refreshes reach the store before its timestamp is 45 seconds old is never displaced |
| MasterLease.SilenceElects | internal/domain/power-status.go:1052-1080 | after 45 seconds of silence, or before any master, an idle instance that finds the lock free is elected with its own time and frees the lock |
| MasterLease.HolderOrDisplaced | internal/domain/power-status.go:1086-1112 | a master either remembers the stored timestamp or an older one, never anything else |
| MasterLease.DisplacedStepsDown | internal/domain/power-status.go:1096-1108 | a displaced master stays displaced through any number of ticks and failed attempts, and its first keep-alive that reaches the store changes nothing and demotes it |
| KeySpace.FixUpTwice | internal/storage/storage_etcd_impl.go:79-90 | every key ends up under the root, and fixing it again changes nothing |
| KeySpace.RangeIsExtension | internal/storage/storage_etcd_impl.go:304-307 | the range from k and a space to k and a tilde takes exactly the keys that go on after k |
| KeySpace.RangeIsPrefix | internal/storage/storage_etcd_impl.go:324-331 | the range from k to k and a tilde takes exactly the keys that start with k |
| KeySpace.ScanIsFilter | internal/storage/storage_etcd_impl.go:304-346 | each of the seven scans takes exactly the records of its family, id or prefix, whether or not its upper end is included |
| KeySpace.TextIsInjective | internal/storage/storage_etcd_impl.go:471-493 | no two records share a key |
| KeySpace.PageNumber | internal/storage/storage_etcd_impl.go:120-136 | the number the page sort reads off a page key is the page's index |
| KeySpace.HierarchyTakesNeighbours | internal/storage/storage_etcd_impl.go:324-346 | the hierarchy scan of x1 takes x10 |
| Truncation.Shortened | internal/storage/storage_etcd_impl.go:563-611 | name and status are kept, error plus description is bounded by the limit plus six, messages that fit are untouched, and what is cut is a prefix with dots |
| Truncation.TruncateTaskMessages | internal/storage/storage_etcd_impl.go:563-611 | the in-place loop shortens every task and counts the cuts, exactly when the record is over the limit |
| Truncation.ShorteningIsIdempotent | internal/storage/storage_etcd_impl.go:563-611 | truncating a truncated list changes nothing |
| Truncation.ListUntouchedExactly | internal/storage/storage_etcd_impl.go:563-611 | a list is left alone exactly when every message fits or is cut already |
| Paging.CutPages | internal/storage/storage_etcd_impl.go:692-747 | the cutting loop of the three page functions yields the windows of its stride |
| Paging.CutCoversList | internal/storage/storage_etcd_impl.go:711-747 | pages cut with stride and window alike put together are the list |
| Paging.CutStopsAtWindow | internal/storage/storage_etcd_impl.go:692-709 | a list no longer than the stride gives one page that ends at the window |
| Paging.FillPages | internal/storage/storage_etcd_impl.go:659-689 | page i holds part i + 1 of each list that has one |
| Paging.BreakIntoPages | internal/storage/storage_etcd_impl.go:613-690 | the first page and the later pages are the parts of the cut |
| Paging.BrokenReassembles | internal/storage/storage_etcd_impl.go:613-747 | put together again, locations and task ids are exact; tasks are when window and stride agree or they fit, and else only the first windowful is there |
| EtcdStore.TruncateAndPage | internal/storage/storage_etcd_impl.go:495-548 | the decision between storing whole, truncated or paged, with the caller's task list truncated along |
| EtcdStore.EntriesAreAcceptable | internal/storage/storage_etcd_impl.go:495-548 | with size checks on, the entry written first is below the size limit or has no list longer than a page, and no later page has one; a record below the limit is written as it is, one that shortened messages bring below it whole with those, neither with later pages; any other is cut to pages, or to half pages and one |
| EtcdStore.UncheckedIsWhole | internal/storage/storage_etcd_impl.go:495-548 | with size checks off a record is written as it is |
| EtcdStore.ListingInOrder | internal/storage/storage_etcd_impl.go:787-812 | a listing is in text order |
| EtcdStore.ScanListsFamily | internal/storage/storage_etcd_impl.go:787-869 | a scan of a well-formed store lists the records it is for, each once, and no others |
| EtcdStore.ScanYieldsPages | internal/storage/storage_etcd_impl.go:787-812 | the scanned page keys, sorted by number, yield all stored pages in index order |
| EtcdStore.StoreThenRead | internal/storage/storage_etcd_impl.go:471-493 | on any store, reading back a stored transition gives every field and the kept lists, followed by the pages of an earlier version beyond the new ones |
| EtcdStore.RoundTrip | internal/storage/storage_etcd_impl.go:529-547 | on fresh keys everything comes back exactly, the reports exactly unless the halved window loses some, and then precisely its first windowful |
| EtcdStore.DefaultsLoseReports | internal/storage/storage_etcd_impl.go:529-532 | with the default numbers, every record of 2502 to 4999 tasks that has to be paged keeps its first 2501 reports |
| StoreCases.HalvedWindowLosesReport | internal/storage/storage_etcd_impl.go:529-532 | a small store on which a fourth report is lost |
| StoreCases.LeftoverPageIsRead | internal/storage/storage_etcd_impl.go:471-493 | a small store on which a page of an earlier version is read with a later one |
| EtcdStore.TestAndSetExactly | internal/storage/storage_etcd_impl.go:906-925 | a passing test-and-set is a store; after a failing one a reader gets the first page with the refused version's later pages in place of the stored ones below their count, so the same answer exactly when those hold the same lists |
| StoreCases.FailedSwapShowsNewPage | internal/storage/storage_etcd_impl.go:906-925 | a small store on which a refused version's page is read |
| EtcdStorage.Storage.StoreTransition | internal/storage/storage_etcd_impl.go:471-493 | the store afterwards is the specified one: with size checks on, what was written first and every page is acceptable in size, and every record of another identity is as before |
| EtcdStorage.Storage.GetTransitionPages | internal/storage/storage_etcd_impl.go:787-812 | returns all stored pages of the transition in index order |
| EtcdStorage.Storage.GetTransition | internal/storage/storage_etcd_impl.go:760-785 | returns the first page with every stored page appended, and the first page itself, or nothing when there is none |
| EtcdStorage.Storage.TASTransition | internal/storage/storage_etcd_impl.go:906-925 | passes exactly when the stored first page is the expected one, writes the later pages either way, and truncates the caller's task list as a store does |
| EtcdStorage.Storage.StoreTransitionTask | internal/storage/storage_etcd_impl.go:749-758 | the task is then listed with its transition in place of an earlier version, the transition's other tasks stay listed, and other transitions' tasks are listed as before |
| EtcdStorage.Storage.GetAllTasks | internal/storage/storage_etcd_impl.go:829-848 | returns the stored tasks of the transition in key order |
| EtcdStorage.Storage.DeleteTransition | internal/storage/storage_etcd_impl.go:871-895 | removes the first page and, with size checks on, every later page, and nothing else |
| Compression.CountsAddUp | internal/model/transitions.go:258-287 | the total is the number of tasks, and the five counts add up to it exactly when every task has one of the five statuses |
| Compression.CountsAreHowMany | internal/model/transitions.go:258-287 | each count is the number of tasks with that status text |
| Compression.ToTransitionResp | internal/model/transitions.go:240-288 | the counting loop yields the counts and the reports in order, or the compressed record's own |
| Compression.GetTransitionResponse | internal/domain/transitions.go:116-147 | the answer to a request is the report on the reassembled record and its stored tasks |
| Compression.CompressAndComplete | internal/domain/transitions.go:1857-1883 | the store after the summary and after each task deletion |
| Compression.CompressionKeepsAnswer | internal/domain/transitions.go:1857-1883 | whichever tasks are already deleted, the answer differs from the earlier one in status and in the reports that writing shortened or lost; in status alone exactly when the summary is written whole |
| Compression.UncompressedStoreKeepsPagesPlain | internal/domain/transitions.go:1022-1056 | storing a transition without reports leaves its pages without reports |
| Compression.RemoveTransition | internal/domain/transitions.go:1789-1809 | no task and no part of the transition is left, and no other record is touched |
| Reaper.OldestFirstSorts | internal/domain/transitions.go:1756-1785 | the simple form is the stable sort by creation time of exactly the finished records |
| Reaper.TakeInsert | internal/domain/transitions.go:1758-1781 | inserting into the k oldest and shortening is the same as shortening after inserting into all |
| Reaper.InsertBounded | internal/domain/transitions.go:1758-1781 | the array insertion with its shifting is that insertion |
| Reaper.SelectOldest | internal/domain/transitions.go:1756-1782 | the array holds the first k of the sorted finished records, and nothing behind them |
| Reaper.EnoughFinished | internal/domain/transitions.go:1752-1785 | every place of the array is filled when it is read |
| Reaper.Sweep | internal/domain/power-cap.go:1023-1088 | a sweep removes the expired records and the oldest finished ones over the limit |
| Reaper.OverflowIsOldest | internal/domain/transitions.go:1752-1785 | every record the limit removes is finished and older than every finished record it leaves |
| Reaper.SweepLeaves | internal/domain/transitions.go:1691-1785 | over the limit a sweep leaves the limit plus the expired records among the oldest; exactly the limit when there are none, and only then |
| Reaper.LimitIsKept | internal/domain/transitions.go:1691-1785 | said of the records alone: with no limit, or no more unexpired finished records than it, all of these are left; with more, the limit and as many more as there are expired records among those it removes |
| Reaper.ExpiredTakesPlace | internal/domain/transitions.go:1691-1785 | three finished records, the oldest expired, and a limit of one: two are left |
| Capabilities.ToPowerActions | internal/domain/power-status.go:975-1033 | the list holds exactly the advertised operations, each once |
| Capabilities.AdvertisedIsSound | internal/domain/transitions.go:1558-1591 | for every advertised operation but soft restart, every action ever planned, force-off included, has a payload exactly when the component can be addressed, a power connector by its outlet |
| Capabilities.SoundIsAdvertised | internal/domain/power-status.go:975-1033 | an operation that can always be carried out is advertised, unless it is the soft restart of a controller |
| Capabilities.SoftRestartExactly | internal/domain/transitions.go:1411-1462 | for soft restart that holds exactly when the restart is sent and the component can be addressed, or it is a controller that goes down with its parent, or it can be addressed and turned off and on |
| Capabilities.ForceRestartOnly | internal/domain/power-status.go:985-992 | a node that only allows a forced restart advertises soft restart without being able to carry it out |
| Capabilities.PlausibleIsKept | internal/domain/transitions.go:1304-1553 | a task resumed after any planned action stays within the states these results cover |
| PowerCapPatch.ExtractPowerCaps | internal/hsm/state_manager.go:522-587 | each control is found under its name at its own position, and of equal names the last one counts |
| PowerCapPatch.PowerCtlDescribed | internal/hsm/state_manager.go:551-584 | a control made from an inventory entry carries the entry's own bounds and the path of its identifier up to the fragment |
| PowerCapPatch.PositionsAreDistinct | internal/hsm/state_manager.go:531-584 | controls of different names have different positions |
| PowerCapPatch.Validate | internal/domain/power-cap.go:592-635 | in any order, exactly the requested values that are allowed are kept, each once; it is an error exactly when none is |
| PowerCapPatch.LimitsAreInRange | internal/domain/power-cap.go:600-616 | every limit is zero or at least its known minimum, and at most its known maximum |
| PowerCapPatch.GeneratePayload | internal/domain/power-cap.go:823-874 | every index is in bounds and the payload carries each limit at its own position |
| PowerCapPatch.ApolloHasOneLimit | internal/domain/power-cap.go:848-858 | for an Apollo 6500 there is never more than one limit, so sending the first loses none |
| PowerCapPatch.Patch | internal/domain/power-cap.go:566-651 | from inventory and request to payload: one is sent exactly when the component is eligible and a requested value is allowed |
| PowerCapPatch.GenericSendsExactly | internal/domain/power-cap.go:859-873 | in the generic schema a control is sent a value exactly when it was requested and allowed, and none is overwritten |
| StatusCache.Monitor.UpdateComponentMap | internal/domain/power-status.go:307-388 | entries the inventory no longer lists go with their records, new ones start undefined, known ones keep their state |
| StatusCache.Monitor.UpdateHWState | internal/domain/power-status.go:927-972 | a changed state goes to map and store alike; an unknown component or an unchanged state changes nothing |
| StatusCache.StepShows | internal/domain/power-status.go:927-972 | an update that changes a component's state puts that very state and its time into map and record; any other step keeps what is there, and a new entry is undefined and unavailable |
| StatusCache.MapShowsLastSeen | internal/domain/power-status.go:307-394 | over every run the map and its record say of a component what the last update that changed it said, or undefined and unavailable if there was none since its entry was made |
| StatusCache.AlwaysInStep | internal/domain/power-status.go:307-394 | after any mix of refreshes and updates every record agrees with its map entry, a component without one is undefined and unavailable, and no record outlives its entry |
| StatusCache.AgreementStep | internal/domain/power-status.go:307-394 | after a refresh that renews a component, record and entry agree exactly when the record has the renewed transitions; after an update that changes its state they agree; any other step keeps what was |
| StatusCache.RecordsAgreeExactly | internal/domain/power-status.go:307-394 | over every run a record is the same as its map entry exactly when the last refresh that renewed the component supports what the one in force at its last change of state did |
| StatusCache.RecordsLagBehind | internal/domain/power-status.go:364-374 | a run after which a record lacks a transition its map entry supports |

## Left out

- Transitions without waiting (`TaskDeadline` 0): the confirmation loop is entered for them too and their count goes down twice, so the counting results are stated for waiting mode.
- The Rosetta add-on branch of `doTransition`, gathering of hardware data, credentials, `waitForBMC`, error and status texts, HTTP, Redfish and inventory transport.
- Storage errors: every store, read and deletion is taken to succeed; the Postgres storage is not part of this model.
- The encoding of records: a record's encoded length is an arbitrary function of it, comparison is by value, and a nil list counts as an empty one. Cutting a message inside a multi-byte character is not modelled.
- The etcd store is keyed by the identity of a record instead of its text; `KeySpace.TextIsInjective` is why that is the same. UUIDs are 36 characters of lower-case hexadecimal digits and dashes, xnames are letters and digits.
- Crash points inside the writing of one paged record, between its first page and its later ones.
- Engine.Transition.Run: the unbounded confirmation loop is cut off after an arbitrary number of polls, with the run still waiting; that it ever ends is not claimed.
- Engine.Transition.SequenceComponents: takes power supplies to be power connectors and a node's grandparent to be a compute module; a planner that hangs is modelled as an outcome, and what the keep-alive and the reaper do with such a run is in the record protocol only.
- RecordProtocol.SingleRun: one live worker per record is an assumption about clocks and keep-alives; `RecordCases.CompletedIsOverwritten` shows what happens without it.
- RecordProtocol.SignalSurvivesTas: the fields of a record other than status, time and compression are one value that never changes, although a worker appends task ids when it sets up its tasks and compression writes reports and counts; of the tasks only whether a starting worker finds one open is kept.
- RecordProtocol.TakenOverOnce: test-and-set compares records by value, so a final store between two takeovers can put a finished version back, over which a worker that read the same version earlier brings back the one taken over; then the result holds only if no worker was about to do that, as `RecordCases.TakenOverAgain` shows. Timestamps are taken not to run ahead of a shared clock.
- MasterLease.StoredNeverFalls: takes the distributed lock as exclusive, the clock as shared and never going back, and the test-and-set as atomic; a test-and-set that reports an error is taken to have had no effect.
- EtcdStorage.Storage.TASTransition: the record protocol uses it for the first page only.
- Reaper.Sweep: the reaper's test-and-sets on unfinished transitions are in `RecordProtocol`; here only what is deleted is modelled, by position in the list.
- The compression of power cap tasks, `buildPowerCapResponse` and the parsing of power readings, which repeat what is shown for transitions.
- Reservations as a protocol (`ReserveComponents`, `ReleaseComponents`) and the task launcher of `internal/taskrun`: a reservation is granted or lost arbitrarily, and every launched command is answered once.
