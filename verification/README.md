# Verification of the GPU cell pool operator

This project models the operator that keeps a pool of GPU cells: virtual machines created in an
infrastructure cluster that join a workload cluster as GPU Nodes. The hard guarantees of that operator
are about whole runs of its reconcile loop, so the model is a state machine. One reconcile pass is a
step (`Passes.Pass`), a run is a sequence of passes from the empty status on a clock that never runs
back (`Runs.Run`), and nothing is assumed of what the two clusters answer, except that observing a
listed cell finds the guest its index names, with a UID. The class `Reconciler.Pool` carries the passes
out in the order the reconciler does and keeps the record of them a legal run, so every theorem about
runs is a theorem about the class; and any run goes on, whatever is read next (`Scenarios.Extended`).
Runs that show something are built in `Scenarios`, `OneCellRuns` and `TwoCellRuns`.

What a pass does is stated twice: in the planner's own vocabulary, and from what it reads and the fields
of its rows, in phases and numbers, as if-and-only-ifs (`PlanByPhase`, `ExactPasses`, `ScaleRuns`).

Around the loop stand the other cores: the interleaving of one drain's API calls with a scheduler that
never stops (`DrainRace`), the Node operations (`Nodes`, and over runs `NodePasses`), the accounting of
GPU shares in both modes (`Shares`, `Capacity`, `Dra`, with the annotation parser in `AllocationText`)
and of free GPUs (`Inventory`), and cell identity (`CellId`).

## Findings

Where a promise is false of the code, the code is kept, a lemma shows a failing input, and the exact
condition under which the promise holds is proved.

- Cordon before count. A drain of a cell can destroy work if and only if the kubelet of this very guest
  had not registered when the drain began (`DrainRace.SafeExactlyWhenRegistered`): the cordon of an
  absent Node succeeds without cordoning anything, and the kubelet may register, and work be placed,
  before the guest is deleted (`DrainRace.LostRace`). Names are reused, so a predecessor's registration
  does not help (`DrainRace.ReusedNameLoses`); while nobody deletes Nodes of live guests the condition
  is a Node of this guest at the cordon (`DrainRace.SafeExactlyWhenNodeIsThere`). In DRA mode the gate
  sees only claims on devices published now, and a held device whose slice has been withdrawn reads as
  empty (`Dra.WithdrawnSliceHidesHold`, `Dra.DraEmptyExactly`, `DrainRace.BlindGateLosesExactly`).
- Deletion goes by index. A guest listed under a padded name, such as `p-07` beside `p-7`, gets a row
  whose Node never comes; when that row is replaced the code deletes `p-7`, whose own row may be Ready
  (`Scenarios.PaddedRowDeletesNeighbour`). A deletion is for the guest's own row if and only if the
  row's name is the one the operator writes (`RunTheorems.DeletionsAreClassified`), which is the one
  without a leading zero (`CellId.CanonicalExactly`); decoding is injective exactly within one length
  (`CellId.DecodedTwins`). Two rows that share an index are also drained together
  (`MembershipProofs.SharedIndexOvershoots`); a drain takes more than asked for if and only if the last
  batch of rows at one index is larger than what is still wanted (`MembershipProofs.DrainIsExact`).
- A tombstone written back without a UID lends `Failed`, with its old transition time, to the guest
  created for its index (`Discovery.SuccessorStartsClean` has the exact condition); if the backoff is
  over, the same pass that created the guest deletes it (`RunLimits.TombstoneCondemnsSuccessor`), and
  such runs exist (`Scenarios.CreatedAndCondemned`). A tombstone survives only for an index below
  `spec.replicas` (`Discovery.FailureCountConserved`).
- Replacement asks nobody. A scale-down or a rollout deletes a cell only when nothing holds its GPU, but
  a Failed row is replaced without reading allocations, and a cell whose Node stopped being Ready fails
  by the bootstrap budget with its pods still there (`OneCellRuns.ReplacedUnderWork`). The cell had been
  in service if and only if its row's Ready latch is set (`RunTheorems.ReplacementIsUngated`), a latch
  that is exactly the row's history (`RunTheorems.LatchIsHistory`).
- Unknown does not authorise a delete, but a Lease without a renewal does: it counts as dead at once,
  the Ready condition is not looked at, and a Node that has just reported itself Ready is reaped
  (`OneCellRuns.NeverRenewedIsReaped`). The grace was waited out if and only if the Lease is not one
  that was never renewed (`NodePasses.PassReapsOnlySilent`).
- A tombstone keeps its Node flag and loses its device count, so the tombstone of a cell that did
  advertise its GPU bars creation with "its Node joined and advertises no GPU" while the provider is not
  usable (`ExactPasses.RowsTellReadings`, `ExactPasses.FaultBarsCreation`, and the run
  `OneCellRuns.TombstoneTakesBlame`).
- The 30-minute cap on the replacement delay is never reached: the fifth failure ends replacement, so the
  longest wait is 240 s (`Membership.BackoffTable`, `ExactPasses.PassReplacesExactly`).
- A deleted pool is let go once nothing is listed, and deletion goes by index, so a listed name that is
  not the operator's own (padded, or not decodable) keeps its finalizer for ever
  (`RunTheorems.OverdueEnds` has the exact condition).
- An outage washes diagnoses away. An unreachable pass overwrites a failed row's reason, and no later
  pass restores it (`Diagnosis.ReasonKeptExactly`, `Diagnosis.DiagnosisSurvives`); so one outage pass
  disarms the guard that bars creation while the bootstrap credential is suspect
  (`Diagnosis.OutageDisarmsGuard`, `Scenarios.GuardDisarmedByOutage`).
- The pool's held figure in device-plugin mode leaves out Nodes without a device registration, which the
  drain gate does read (`Capacity.UnregisteredNodeIsSkipped`; `Capacity.ViewsAgree` has the exact gap),
  and in DRA mode a pool of several models publishes no compute (`Dra.PublishedAgrees`).
- Per-model allocations depend on the order of the Nodes, because a share is dropped when its model has
  no row yet (`Capacity.OrderDecidesRows`, `Capacity.AttributedExactly`); the totals do not
  (`Capacity.TotalsIgnoreOrder`).
- A device published twice is counted as one more free GPU, even while it is held
  (`Inventory.RepublishedDeviceLooksFree`); the count is the set difference exactly when no usable
  device is published twice (`Inventory.FreeIsSetDifference`).
- A steady pass writes no taints if and only if declared taints with one key and effect have one value
  (`Nodes.SecondMergeIsSilent`); clashing ones are rewritten in every pass
  (`Nodes.ClashingTaintsNeverSettle`).
- A negative index would be read by the pool whose name has one more dash, without its sign
  (`CellId.NameRoundTrip`).
- In the allocation annotation the container separator `;` and the record separator `:` mean the same
  (`AllocationText.ColonComposes`).
- Comments that the code does not bear out: `claims` in `internal/capacity/hami_dra.go:164` is the
  number of allocation results, not of distinct claims; the fourth replacement delay is 4 minutes, not 5
  (`internal/controller/membership.go:45`); `idleCells` lists cells in row order, not
  emptiest first (`internal/controller/idle.go:10-11`).

## Model

| member | source | states |
|---|---|---|
| `DrainRace.DrainDestroysNoWork` | internal/controller/controller.go:753-814 | in every interleaving of the operator's cordon, count and delete calls with scheduler, kubelets, other guests and others, a drain of a guest whose own kubelet had registered deletes it only when nothing holds or is binding a share of its GPU, in device-plugin mode and, while held devices stay published, in DRA mode |
| `DrainRace.LostRace` | internal/workload/node.go:219-235 | constructs, from any start with a live guest whose kubelet has not registered, an execution in which the guest is deleted under placed work |
| `DrainRace.SafeExactlyWhenRegistered` | internal/controller/controller.go:753-814 | an execution that destroys work exists if and only if the guest is there and the kubelet of this incarnation had not registered when the drain began |
| `DrainRace.ReusedNameLoses` | internal/controller/controller.go:407-419 | a guest created under a used name can lose work to a drain however often its predecessors registered |
| `DrainRace.SafeExactlyWhenNodeIsThere` | internal/workload/node.go:219-235 | while nobody has deleted Nodes of live guests, a drain is safe if and only if the Node found at the cordon was registered by this guest |
| `DrainRace.UndisturbedStays` | internal/workload/node.go:243-249 | every step but the deletion of a live guest's Node keeps that condition on Nodes true |
| `DrainRace.GroundedStays` | internal/controller/controller.go:407-419 | what a start is assumed to satisfy, UIDs unique and given out, Nodes registered by the kubelet they name, holds after every step |
| `DrainRace.BlindGateLosesExactly` | internal/controller/controller.go:791-814 | where the gate cannot see the guest's Node (DRA slices withdrawn, or a row whose name is not the one its index names) work can be destroyed if and only if the guest has work, can get some, or has yet to register |
| `RunTheorems.DeletionsAreClassified` | internal/controller/controller.go:280-313 | over all runs, a guest is deleted only for a row whose index names it, because that row is Draining and its allocations were read with no consumer and no binding in flight in that pass, or because it failed in an earlier pass, has been Failed in every pass since, has failed one to four times, the last time 30, 60, 120 or 240 s ago by that count, and the provider is usable or the row shows no Ready Node or some device; the row is the guest's own if and only if its name is the operator's for that index |
| `RunTheorems.Teardown` | internal/controller/controller.go:834-867 | the loop over a deleted pool's guests publishes one row for each cell in order and deletes exactly the guests that the indexes of the cells with an open gate name |
| `RunTheorems.TeardownRowExactly` | internal/controller/controller.go:839-862 | the row published for a cell is the one that was there, Draining since then or since now, or a new one with its name and index, and its reason says whether it goes, has timed out or waits |
| `RunTheorems.ReadyIsJustified` | internal/controller/fsm.go:67-155 | a row that is Ready after any pass names a guest that a pass with no reachable pass since read as up: present and provisioned with a device, a Ready Node that is alive or does not name another guest, a healthy provider, and at least the expected devices |
| `RunTheorems.OwnDeletions` | internal/controller/controller.go:791-814 | while all rows have the operator's own names every deletion of a guest has such a cause in the guest's own row |
| `RunTheorems.OverdueEnds` | internal/controller/controller.go:816-868 | at the end of a deleted pool, once a pass is past the drain timeout and deletions land, every later pass lists exactly the names that are not the operator's own; so the pool is let go on the next pass if and only if there are none |
| `RunTheorems.LatchIsHistory` | internal/controller/controller.go:643-643 | over all runs a row's Ready latch is set if and only if some pass found the cell Ready and no pass since has dropped the row or seen another guest behind it |
| `RunTheorems.ReplacementIsUngated` | internal/controller/controller.go:280-286 | over all runs a failed row is replaced whatever the drain gate would read, and its cell had been Ready before, with no other guest seen since, if and only if the latch of the row the pass found is set |
| `Scenarios.Extended` | internal/controller/controller.go:91-329 | any run goes on by a legal pass whatever the next pass reads |
| `Scenarios.CreatedAndCondemned` | internal/controller/controller.go:280-286 | a run of three passes whose last one creates a guest for a tombstone, sees it and deletes it again |
| `Scenarios.PaddedRowDeletesNeighbour` | internal/controller/controller.go:791-814 | a run of three passes in which replacing a failed row under a padded name deletes the guest of a row that is Ready in the same status |
| `Scenarios.GuardDisarmedByOutage` | internal/controller/membership.go:362-374 | a run in which two cells that never registered bar creation, one unreachable pass follows, and the next pass creates a cell |
| `OneCellRuns.TemplateChangeRollsOut` | internal/controller/rollout.go:63-143 | a run in which the template of a pool with a Ready cell changes: the cell is drained once, which is the bound, deleted and created anew, and is Ready from the new template with no stale row left |
| `OneCellRuns.ReplacedUnderWork` | internal/controller/controller.go:280-286 | a run in which a cell that was Ready is failed by its Node and then deleted while a pod holds a share of its GPU |
| `OneCellRuns.NeverRenewedIsReaped` | internal/workload/node.go:132-134 | a run whose pass reaps a Node that reported itself Ready at the time of that pass, under a running guest, because its Lease was never renewed |
| `OneCellRuns.TombstoneTakesBlame` | internal/controller/controller.go:508-522 | a run in which the tombstone of a cell whose GPU was advertised to the last bars creation, for a Node said to have joined without one |
| `Runs.PhaseHistory` | internal/controller/controller.go:599-621 | every row's transition time is the time of the pass that moved it into its phase, and every pass since has written that phase |
| `RunLimits.OutageFreezes` | internal/controller/membership.go:153-159 | an unreachable pass creates no cell, starts and completes no drain, deletes no Node, and deletes a guest only if its row was Failed before the pass |
| `RunLimits.OutageKeepsRows` | internal/controller/fsm.go:76-85 | across any stretch of unreachable passes the row of a guest that stays listed and does not itself fail keeps phase, transition time, Ready latch, UID and failure count |
| `RunLimits.TimeoutIsEarned` | internal/controller/fsm.go:97-180 | a healthy guest is failed only by a positive budget (900 s to come up, 300 s to advertise unless the spec says otherwise), and only if every pass since the one that moved it wrote the phase of the first thing missing and more than the budget has passed since then |
| `RunLimits.TimeoutFires` | internal/controller/controller.go:421-430 | a cell held in a timed stage since pass j and still seen there is failed by the first pass more than the budget after pass j and by no earlier one |
| `RunLimits.ExhaustionIsAbsorbing` | internal/controller/membership.go:204-220 | once a Failed row with a listed guest has five failures, in every later pass it is Failed with that guest, is neither replaced nor removed, its guest is not deleted while rows have the operator's own names, and no cell is created in the pool |
| `RunLimits.TombstoneCondemnsSuccessor` | internal/controller/controller.go:280-286 | in any run, the guest seen behind a persisted tombstone without UID whose backoff is over is shown Failed and deleted by that same pass |
| `Diagnosis.FailureIsExplained` | internal/controller/controller.go:601-612 | over all runs, the reason a Failed row shows was written by a pass that saw its cause (a guest past the budget of its stage, at the layer the reason names; a guest reporting its own failure; or an unreachable workload cluster) and has been shown in every pass since |
| `Diagnosis.SuspectIsEvidence` | internal/controller/membership.go:362-374 | a row that makes the bootstrap credential suspect goes back to a pass in which the guest said so itself, or its VM was up with a GPU, the workload cluster was readable and no Node had registered |
| `Diagnosis.DiagnosisSurvives` | internal/controller/controller.go:601-612 | over any stretch of any run a failed row shows its reason throughout if and only if every pass of the stretch reads what keeps it |
| `Diagnosis.ReasonKeptExactly` | internal/controller/fsm.go:76-95 | a pass keeps a failed row's reason if and only if it reads a tombstone below the replica count, a guest reporting that same failure, or the same guest with the workload cluster readable or the reason already Unreachable |
| `Diagnosis.OutageClearsSuspects` | internal/controller/fsm.go:80-84 | after an unreachable pass the only suspect rows are suspect tombstones |
| `Diagnosis.OutageDisarmsGuard` | internal/controller/membership.go:362-374 | one unreachable pass with a suspect's guest still listed strictly lowers the number of suspects, to none if all are listed |
| `Diagnosis.SuspectsCounted` | internal/controller/membership.go:362-374 | the planner's suspect count is the number of suspect rows |
| `ScaleRuns.ActionsAreApart` | internal/controller/scaling.go:174-219 | over all runs, two scale-ups are at least the stabilization window apart and a scale-down comes at least the scale-down window after any earlier action |
| `ScaleRuns.TargetsStayBounded` | internal/controller/scaling.go:77-150 | the target lies between the floor and the ceiling in every pass of every run |
| `ScaleRuns.ScaleUpRate` | internal/controller/controller.go:234-243 | over any stretch of any run with one stabilization window, whatever it is before and after, there are at most T/window + 1 scale-ups in the time T the stretch takes |
| `ScaleRuns.ShrinkFollowsQuiet` | internal/controller/controller.go:222-233 | a pass scales down only if some pass at least the window earlier read demand as absent and every successful reading since, its own included, did too |
| `ScaleRuns.ShrinkDrainsOneIdle` | internal/controller/scaling.go:156-197 | in any run a pass that scales down a pool not above its ceiling creates nothing and starts exactly one drain, of a Ready cell whose allocations it read as empty |
| `ScaleRuns.ScalesUpExactly` | internal/controller/scaling.go:77-150 | over all runs, a pass scales up if and only if it read satisfiable demand, the rows it found leave room below the upper bound, free GPUs are unknown or some, and no earlier pass scaled up within the stabilization window (600 s by default) |
| `ScaleRuns.ScalesDownExactly` | internal/controller/scaling.go:156-197 | over all runs, a pass scales down if and only if shrinking is automatic, it read demand as absent, an earlier pass at least the window ago (1800 s by default) did and none since read any, no earlier pass scaled either way within the window, more rows stand than the lower bound, and it read some Ready cell as empty |
| `ScaleRuns.TargetsExactly` | internal/controller/scaling.go:77-150 | over all runs, the target is the replica count, or with autoscaling the rows that stand, clamped to the bounds, one more or one less |
| `TwoCellRuns.GrowsAndShrinks` | internal/controller/scaling.go:77-197 | a run that grows by one cell for demand, holds, and half an hour after demand has gone drains an idle cell and deletes its guest |
| `RolloutRuns.RolloutTerminates` | internal/controller/rollout.go:63-143 | over any stretch of any run in which the template is fixed, whatever it was before, the rollout drains started and the stale guests still waiting at the end are together at most the stale guests that nothing was replacing at the beginning |
| `RolloutRuns.StaleRowsNeverGrow` | internal/controller/controller.go:288-302 | over any such stretch the set of stale rows never grows from pass to pass, and the first pass finds them among the waiting stale guests and the rows that were stale already |
| `NodePasses.PassReapsOnlySilent` | internal/controller/controller.go:438-479 | in any run a Node that a pass reaps was silent for at least the grace of its heartbeat's source if and only if its Lease is not one that was never renewed |
| `NodePasses.AdoptedNodeSurvives` | internal/controller/controller.go:438-456 | in any run, once a pass finds a cell's Node alive under whatever label, that pass and every later one spare it and leave it labelled with the cell's guest, however silent it becomes, while that guest stays and nobody but the operator writes the label |
| `NodePasses.OrphanIsGone` | internal/controller/controller.go:530-538 | in any run a reachable pass takes away every Node with the pool's label and no row whose kubelet counts as dead |
| `NodePasses.ClaimedIsSwept` | internal/cellid/cellid.go:142-155 | in any run, a Node that some pass claimed for a cell is gone after the first reachable pass that finds its kubelet dead and no row for it, while nobody else writes its pool label |
| `NodePasses.ReadyNodeSaidSo` | internal/workload/node.go:148-157 | in any run, a row that is Ready goes back to a pass at which the first Ready condition of its Node was true |
| `Passes.RolloutShape` | internal/controller/controller.go:288-302 | a rollout drain starts only in a reachable pass that creates nothing and drains nothing else, when every row is settled, on a stale Ready cell whose allocations were read as empty |
| `Passes.OneKindOfChange` | internal/controller/controller.go:257-302 | no pass does more than one of creating, draining for size and draining for a rollout, and a rollout drains one cell |
| `Passes.DrainsAreRemovable` | internal/controller/controller.go:274-278 | a membership drain starts only in a reachable pass that creates nothing, on cells neither failed nor leaving |
| `Passes.RowsAreWritten` | internal/controller/controller.go:274-313 | between discovery and the status write a row changes only by a started drain and by a draining row's reason |
| `ExactPasses.PassCreatesExactly` | internal/controller/controller.go:246-262 | over all runs, a pass creates cells if and only if the workload cluster answers, the pool is below its target, fewer than two cells are on their way up, free GPUs are unknown or some, a cell has been Ready or fewer than three have failed, fewer than two failed without registering, and no failed row is past help; then as many as fit, at the first indexes no row takes |
| `ExactPasses.PassDrainsExactly` | internal/controller/membership.go:152-200 | over all runs, a pass drains for size if and only if the workload cluster answers and more rows stand than the target, with one that may leave; preferred cells first, then the highest indexes |
| `ExactPasses.RowsTellReadings` | internal/controller/controller.go:582-600 | over all runs, a row's Node flag is what the last pass that listed the cell read, and its device count what this pass read of a listed cell, and zero for a tombstone |
| `ExactPasses.PassReplacesExactly` | internal/controller/membership.go:313-346 | over all runs, a pass replaces a row if and only if it is Failed with one to four failures, 30, 60, 120 or 240 s after the last, and not: provider unusable, Node Ready when last listed, and no device read now |
| `ExactPasses.FaultBarsCreation` | internal/controller/membership.go:204-214 | a failed cell read with a Ready Node and no device, or a tombstone whose Node was Ready when last listed, bars every creation while the provider is not usable |
| `ExactPasses.PassRollsOutExactly` | internal/controller/controller.go:288-302 | over all runs, a pass starts a rollout drain if and only if updates are rolled out, the workload cluster answers, nothing is created or drained for size, every row is Ready or Failed, the rows with a guest are as many as the target, and a Ready cell of another template was read as empty; it drains the one with the lowest index |
| `ExactPasses.PassRemovesExactly` | internal/controller/controller.go:753-785 | over all runs, a pass removes a row if and only if it is Draining, the workload cluster answers and nothing was read to hold its Node; otherwise its reason says that it waits |
| `ExactPasses.PassFindsReadyExactly` | internal/controller/controller.go:421-480 | over all runs, a pass finds a listed cell Ready if and only if it read everything Ready promises of a cell on its way up, or cannot reach the workload cluster and the row of the same guest was Ready |
| `ExactPasses.PassReapsExactly` | internal/controller/controller.go:447-479 | over all runs, a pass deletes a Node if and only if the workload cluster answers and a discovery of it finds the Node of a cell on its way up, with its guest up, silent and naming another guest, or lists it as a silent Node of the pool that no row accounts for |
| `Reconciler.Pool.constructor` | internal/controller/controller.go:91-120 | a new pool has the empty status and an empty record |
| `Reconciler.Pool.Reconcile` | internal/controller/controller.go:91-329 | one pass moves the status exactly as a legal pass from the recorded status on this input says, reports its creations, the guests its deletions by index name and the Nodes it deletes, and keeps the record a run |
| `Reconciler.Pool.StampScale` | internal/controller/controller.go:222-243 | the stamps and the demand-free mark after the decision, from those before |
| `Reconciler.Pool.Decide` | internal/controller/controller.go:195-255 | the rows seen list the discovered rows in index order, and the decisions are those of the planners on them and on the recorded status |
| `Reconciler.DiscoverCells` | internal/controller/controller.go:373-541 | the discovery loops produce, sorted by index, exactly the row of each listed cell, observed by its index, and each kept tombstone, and name exactly the stale and orphaned Nodes |
| `Reconciler.FindIdle` | internal/controller/idle.go:17-37 | the idle loop lists exactly the Ready cells with a Node whose allocations were read as empty, in row order |
| `Reconciler.ProgressDrains` | internal/controller/controller.go:304-313 | the drain loop removes exactly the draining cells whose gate opens, the Node by row name and the guest by row index, and writes the gate's reason back to every draining row |
| `Reconciler.ReplaceFailed` | internal/controller/controller.go:280-286 | the replacement loop deletes exactly the guests named by the indexes of the rows that pass the replacement test |
| `Reconciler.MarkAll` | internal/controller/controller.go:1124-1132 | marking the drains in place changes exactly the named rows |
| `Discovery.DiscoveryKeepsRowsOk` | internal/controller/controller.go:582-645 | discovery keeps every remembered row well formed: named, timed, counted when Failed, with a UID unless Failed |
| `Discovery.FailureCountConserved` | internal/controller/controller.go:616-621 | the failure count of a surviving row rises by exactly one on entering Failed and otherwise stands, whatever guest is behind the name; a row is dropped exactly when its guest is gone and it is not a Failed row below `spec.replicas` |
| `Discovery.SuccessorStartsClean` | internal/controller/controller.go:415-419 | the guest created for a failed index starts clean if and only if the row still records the UID of the one it replaces |
| `Discovery.DiscoveredMovesOrHolds` | internal/controller/controller.go:599-621 | a discovered row keeps phase and time, or enters its phase now because the phase or the guest changed |
| `Fsm.FirstUnmet` | internal/controller/fsm.go:97-155 | the stage found is unmet and every earlier one is met; none is found exactly when all are met |
| `Fsm.LadderDecides` | internal/controller/fsm.go:67-180 | an advancing cell is Ready exactly when all four milestones are met, and otherwise shows the first unmet one, or Failed once it has shown that stage for longer than its budget |
| `Membership.Backoff` | internal/controller/membership.go:46-58 | the doubling loop with its early exit computes min(30 s times 2 to the n-1, 30 min) |
| `Membership.BackoffTable` | internal/controller/membership.go:46-58 | the delays are 30, 60, 120, 240, 480 and 960 s and 1800 s from the seventh failure on |
| `Membership.LiveCells` | internal/controller/helpers.go:165-179 | the counter loop agrees with the planner's own live count |
| `Membership.SuspectCredentialFailures` | internal/controller/membership.go:362-374 | counts the rows that failed to register without ever having been Ready |
| `Membership.CountPhase` | internal/controller/membership.go:116-150 | the accumulating loop yields the occupied indexes, the in-flight and live counts, the failed rows and the failure total |
| `Membership.SelectByIndex` | internal/controller/membership.go:185-198 | the in-place selection by descending index equals its recursive specification |
| `Membership.SelectPreferred` | internal/controller/membership.go:175-184 | the preference loop takes removable preferred names in order while any are wanted, and leaves the rest removable |
| `Membership.ReviewLoop` | internal/controller/membership.go:204-227 | the review of failed rows stops at the first row past help and otherwise yields the soonest wake-up |
| `Membership.PlanMembership` | internal/controller/membership.go:111-305 | the planner's loops and guards compute the plan that the theorems below are about |
| `MembershipProofs.CreationIsExact` | internal/controller/membership.go:229-303 | nothing is created if and only if one of the guards holds, and otherwise exactly the tightest of the three budgets, being the smallest unoccupied indexes in increasing order |
| `MembershipProofs.StallsAreExplained` | internal/controller/membership.go:153-303 | a stalled plan does nothing and gives a reason that is true of its input, and a pool below its size that neither creates nor stalls has its full number of cells in flight |
| `MembershipProofs.FreshIndexesAreSmallest` | internal/controller/membership.go:299-303 | repeated allocation gives n distinct increasing free indexes that skip no free one |
| `MembershipProofs.RequeueIsSoonestExpiry` | internal/controller/membership.go:204-227 | the wake-up is no later than any running backoff and is one of them |
| `MembershipProofs.DrainIsExact` | internal/controller/membership.go:153-200 | on any rows with unique names a shrinking pool drains removable cells only, each once, no fewer than it is over its size while there are any, past the preference always a higher index than any removable cell spared, and more than asked for if and only if the names at one index, added to those above it, pass what is still wanted |
| `MembershipProofs.PreferredDrainExact` | internal/controller/membership.go:175-184 | the preferred part of a drain has no repeats, only removable preferred names, and all of them if there is room |
| `MembershipProofs.SharedIndexOvershoots` | internal/controller/membership.go:185-198 | two removable rows with one index are both drained when one is wanted |
| `MembershipProofs.UniqueIndexesNeverOvershoot` | internal/controller/membership.go:185-198 | with one removable row per index that never happens |
| `PlanByPhase.CountsByPhase` | internal/controller/membership.go:124-150 | in flight are the rows in the seven phases before Ready, live those neither leaving nor failed without a guest, taken the indexes of all but the latter, suspect the failed ones that never registered and were never Ready |
| `PlanByPhase.CreationByPhase` | internal/controller/membership.go:224-306 | cells are created if and only if there is room and nothing is in the way, by phases and by the numbers 2, 3, 2 and 5; then as many as fit and not one more |
| `PlanByPhase.StallsByPhase` | internal/controller/membership.go:152-296 | a plan stalls if and only if the pool is too large out of reach, a failed row is past help, or it is too small with a guard in the way |
| `PlanByPhase.ReasonByPhase` | internal/controller/membership.go:152-303 | of all reasons that apply the plan gives the first, row by row and guard by guard |
| `PlanByPhase.WakesByPhase` | internal/controller/membership.go:204-227 | a pool wakes when the first of its failed rows may be replaced, and one that is too large sets no alarm |
| `PlanByPhase.DrainByPhase` | internal/controller/membership.go:152-200 | cells are drained if and only if the workload cluster answers, more rows stand than wanted and one may leave; no fewer than the excess while there are any |
| `Scaling.AutomaticShrinkIsIdleOnly` | internal/controller/scaling.go:156-197 | an automatic shrink of a pool not above its ceiling drains exactly the first idle cell and creates nothing |
| `Scaling.ScalesExactly` | internal/controller/scaling.go:77-219 | the decision grows, shrinks or holds exactly under the conditions of each, in terms of the spec's own fields and the defaults 600 and 1800 |
| `Rollout.PlanRollout` | internal/controller/rollout.go:63-109 | the gates and loops compute the rollout decision |
| `Rollout.RolloutStartsExactlyWhen` | internal/controller/rollout.go:63-109 | a drain starts if and only if it was asked for, the workload cluster answers, the pool is at its size, every cell is settled and some stale cell is idle; it names such a cell |
| `Rollout.StaleNamesExact` | internal/controller/rollout.go:117-129 | the stale names are exactly those of rows that are not leaving and record another template |
| `Rollout.ChoosesFirst` | internal/controller/rollout.go:96-108 | the cell chosen is the first stale idle one of the list |
| `Rollout.ReportsExactly` | internal/controller/rollout.go:63-109 | the decision reports the number of rows of another template, and gives each reason exactly where it applies |
| `Rollout.FindMidFlight` | internal/controller/rollout.go:132-143 | the search finds a row in flight if and only if there is one |
| `CellId.NameRoundTrip` | internal/cellid/cellid.go:43-87 | over the int32 range a pool decodes a generated name exactly when it is its own and non-negative, and gets the index back |
| `CellId.NamesInjective` | internal/cellid/cellid.go:43-45 | two cells of any pools never share a name |
| `CellId.PaddedNamesCollide` | internal/cellid/cellid.go:73-87 | every index has a second name, its digits behind a zero, that decodes to it and is not the operator's |
| `CellId.HostnamesFit` | internal/cellid/cellid.go:34-68 | pool validation accepts a length if and only if every name with up to five index digits fits the 63-octet label of section 2.3.4 of RFC 1035 |
| `CellId.LowestFreeIndex` | internal/cellid/cellid.go:92-102 | the probe ends within one more step than there are used indexes, at the lowest free one |
| `CellId.LowestFrom` | internal/cellid/cellid.go:92-102 | pigeonhole: the lowest free index is at most the number of used ones |
| `CellId.SortDown` | internal/cellid/cellid.go:107-118 | the sorted copy is a descending permutation |
| `CellId.HighestAreHighest` | internal/cellid/cellid.go:107-118 | the chosen indexes and the rest are all that were used, and none of the rest is higher |
| `CellId.StreamInjective` | internal/cellid/cellid.go:175-184 | different part lists never feed the template hasher the same bytes |
| `CellId.CanonicalExactly` | internal/cellid/cellid.go:43-87 | a name is the operator's for the index it decodes to if and only if its digits have no leading zero, and if and only if it is the shortest |
| `CellId.DecodedTwins` | internal/cellid/cellid.go:73-87 | two names that decode to one index are one name if and only if they are equally long |
| `Nodes.KubeletLive` | internal/workload/node.go:127-146 | a kubelet counts as dead exactly when its Lease was last renewed at least 90 s ago, or no Lease can be read and the first heartbeat of a Ready condition is at least 360 s old, or its Lease was never renewed; no evidence counts as live |
| `Nodes.FillMissing` | internal/workload/node.go:252-260 | collects exactly the wanted labels the Node lacks or has with another value |
| `Nodes.MergeTaints` | internal/workload/node.go:264-288 | the nested loops compute the merge and report a change exactly when some wanted taint had to be written |
| `Nodes.MergeKeepsForeign` | internal/workload/node.go:264-288 | a taint that shares key and effect with no wanted one is kept in place, whatever is wanted |
| `Nodes.ClashingTaintsNeverSettle` | internal/workload/node.go:264-288 | wanted taints that clash are written again by every later merge |
| `Nodes.WorkloadCluster.EnsureNodeMetadata` | internal/workload/node.go:167-214 | patches exactly the labels, annotations and taints that are missing or wrong, reports whether it wrote, leaves a matching Node untouched, and fails exactly on a missing Node |
| `Nodes.WorkloadCluster.Cordon` | internal/workload/node.go:219-235 | cordons the Node if there is one and changes nothing else |
| `Nodes.WorkloadCluster.TendNode` | internal/controller/controller.go:432-479 | one cell's Node is claimed unless stale, and deleted exactly when the cell's own decision reaps it |
| `Nodes.WorkloadCluster.SweepOrphans` | internal/controller/controller.go:557-580 | deletes exactly the silent Nodes of the pool that no row accounts for |
| `Nodes.ClaimIsNotStale` | internal/cellid/cellid.go:142-169 | a claimed Node carries the guest's UID whatever was there before and whatever the user asked for |
| `Nodes.ClaimReads` | internal/cellid/cellid.go:142-155 | a claimed Node reads the pool, the cell's own name and its index in decimal, whatever the user declared there; other declared labels and annotations read as declared, undeclared ones as before |
| `Nodes.ReadReady` | internal/workload/node.go:148-157 | a Node is Ready if and only if it has a Ready condition and the first one says so |
| `Nodes.LastWordStands` | internal/workload/node.go:264-288 | for every key and effect the last wanted value is the one declared |
| `Nodes.DeclaresAllExactly` | internal/workload/node.go:264-288 | every wanted taint is declared if and only if wanted taints with one key and effect have one value |
| `Nodes.SecondMergeIsSilent` | internal/workload/node.go:264-288 | for any taints a second merge writes nothing if and only if wanted taints with one key and effect have one value |
| `Nodes.WorkloadCluster.ListPoolNodes` | internal/workload/node.go:97-118 | lists exactly the Nodes with the pool's label, with their liveness |
| `Nodes.WorkloadCluster.Discover` | internal/controller/controller.go:389-541 | the Node operations of one discovery, in its order, leave each cell's Node claimed, reaped or alone as its decision says, and sweep the orphans |
| `Nodes.Orphans` | internal/controller/controller.go:568-578 | the sweep loop names exactly the listed Nodes that are neither kept nor alive |
| `Nodes.ReapedAreGone` | internal/controller/controller.go:473-479 | the Nodes a discovery reports as reaped are exactly those its operations take away |
| `Shares.NodeAllocations` | internal/capacity/hami_provider.go:214-268 | the reading fails exactly when a live pod of the Node cannot be parsed, and otherwise is the number of unfinished pods that hold or bind something, the memory and compute they hold and bind, in total and per device, and whether a binding is in flight |
| `Shares.BreakdownConserves` | internal/capacity/hami_provider.go:256-265 | the per-device breakdown adds up to the flat sums |
| `Shares.EmptyMeansIdle` | internal/capacity/hami_provider.go:229-255 | the reading succeeds and is empty if and only if no pod on the Node holds or is binding a share |
| `Shares.ReadingAddsUp` | internal/capacity/hami_provider.go:214-268 | consumers, memory, compute and the binding flag of the reading are those of the unfinished pods on the Node |
| `Shares.SumsAdd` | internal/capacity/hami.go:197-203 | sums of allocations are additive |
| `AllocationText.ParseAllocations` | internal/capacity/hami.go:156-194 | the parser with its early exits and trimming returns what the untrimmed meaning says and fails exactly when that does |
| `AllocationText.ValuesCompose` | internal/capacity/hami.go:156-194 | parsing two values joined by a semicolon is parsing both, and fails exactly when one fails |
| `AllocationText.ColonComposes` | internal/capacity/hami.go:163-168 | the colon composes in the same way as the semicolon |
| `AllocationText.ExtraFieldsIgnored` | internal/capacity/hami.go:172-192 | fields after the fourth do not change what a record means |
| `AllocationText.NumbersRead` | internal/capacity/hami.go:175-182 | digits with a sign or without read as their value where it fits 64 bits |
| `AllocationText.OnlyNumbersRead` | internal/capacity/hami.go:175-182 | nothing else reads as a number |
| `AllocationText.ParsedIsWellFormed` | internal/capacity/hami.go:156-194 | everything read has trimmed names without separators and 64-bit numbers |
| `AllocationText.PrintRoundTrip` | internal/capacity/hami.go:147-194 | printing any containers in the measured format and parsing gives their records back in order if and only if every record is well formed |
| `AllocationText.ReadsAsNothing` | internal/capacity/hami.go:147-170 | a value reads as no allocation if and only if it is only white space and separators |
| `AllocationText.GateOnText` | internal/capacity/hami_provider.go:225-255 | a Node reads as empty if and only if both annotations of each of its unfinished pods are only white space and separators |
| `AllocationText.SumAllocations` | internal/capacity/hami.go:197-203 | the loop totals held memory and compute |
| `Capacity.PoolCapacity` | internal/capacity/hami_provider.go:132-201 | fails exactly when a listed Node cannot be read; otherwise devices, memory and compute are the number and the sums of the healthy devices registered on the listed Nodes, each row is that of its own model, there is a row for exactly the models with such a device, and the held totals are all shares of registered Nodes |
| `Capacity.Attribute` | internal/capacity/hami_provider.go:178-191 | in whatever order the map is visited, each row grows by exactly the shares of its model's devices and shares without a row are dropped |
| `Capacity.RowsConserve` | internal/capacity/hami_provider.go:194-196 | the rows together are all contributions |
| `Capacity.CapacityConserves` | internal/capacity/hami_provider.go:137-200 | devices and totals are the sums over the rows, and the held amounts exceed the rows by exactly the unattributed shares |
| `Capacity.ViewsAgree` | internal/capacity/hami_provider.go:149-176 | the drain gate's readings over all listed Nodes are the pool's held amounts and what is held on Nodes without a registration, so the two views agree if and only if that is nothing |
| `Capacity.AttributedExactly` | internal/capacity/hami_provider.go:180-191 | every share is attributed if and only if at each Node the models held have a healthy device there or on a Node listed earlier |
| `Capacity.ModelIsLast` | internal/capacity/hami_provider.go:178-184 | a share belongs to the model registered last under its device, and to none if there is none |
| `Capacity.TotalsIgnoreOrder` | internal/capacity/hami_provider.go:140-176 | the totals do not depend on the order of the Nodes |
| `Capacity.OrderDecidesRows` | internal/capacity/hami_provider.go:184-188 | two orders of the same Nodes give the same totals and different rows |
| `Capacity.UnregisteredNodeIsSkipped` | internal/capacity/hami_provider.go:149-154 | a pod on an unregistered Node holds the gate and is missing from the pool's figure |
| `Dra.AllocatedOf` | internal/capacity/hami_dra.go:171-207 | the map holds exactly the devices some result names, with everything taken of each |
| `Dra.DraAllocations` | internal/capacity/hami_dra.go:268-294 | the reading is, over the devices the Node publishes, the number, the compute and the whole MiB of the allocation results that name them, and whether one of their claims is unreserved |
| `Dra.DraCapacity` | internal/capacity/hami_dra.go:210-265 | devices and memory in whole MiB are those of all published devices, each row is that of its own model, and the compute total is theirs for at most one model and zero otherwise |
| `Dra.DraViewsAgree` | internal/capacity/hami_dra.go:210-294 | the contributions of the published devices hold what the drain gate's readings add up to |
| `Dra.DraEmptyExactly` | internal/capacity/hami_dra.go:268-294 | the reading is empty if and only if no allocation result names a device the Node publishes now |
| `Dra.WithdrawnSliceHidesHold` | internal/capacity/hami_dra.go:278-284 | a claim that holds the gate while its slice is published leaves it open once the slice is withdrawn |
| `Dra.RoundingIsBounded` | internal/capacity/hami_dra.go:198-203 | rounding never over-reports a Node's memory and under-reports it by less than one MiB per result |
| `Dra.PublishedAgrees` | internal/capacity/hami_dra.go:249-264 | the published held memory is the sum of the gate's readings, and the published held compute is if and only if there is at most one model or nothing holds compute |
| `Dra.EmptyMeansFree` | internal/capacity/hami_dra.go:268-294 | while every held device is published an empty reading means that no claim holds a device of the Node |
| `Inventory.FreeGPUs` | internal/inventory/inventory.go:58-118 | fails exactly when a list cannot be read; published counts the driver's devices and ready those whose attribute is absent or true, allocated is at most ready, free is their difference without the floor ever deciding, and the count is known exactly when the driver publishes a device |
| `Inventory.FreeIsSetDifference` | internal/inventory/inventory.go:68-115 | free is the number of usable devices no claim names if and only if no usable device is published twice, and never less |
| `Inventory.KeysExactly` | internal/inventory/inventory.go:66-108 | a key is ready if and only if a slice of the driver publishes its device with the attribute absent or true, and held if and only if an allocated claim names it |
| `Inventory.WithdrawingNeverAdds` | internal/inventory/inventory.go:79-87 | saying of a device that it is unusable raises no count |
| `Inventory.RepublishedDeviceLooksFree` | internal/inventory/inventory.go:76-87 | a held device published twice leaves one free GPU |
| `Inventory.CountsIgnoreOrder` | internal/inventory/inventory.go:58-118 | all counts are the same for reordered slices and for reordered or repeated claims |
| `Inventory.KeysIdentify` | internal/inventory/inventory.go:78-78 | a key names one device of one pool, since device names hold no slash |
| `Inventory.FreeGPUsNative` | internal/inventory/inventory.go:158-217 | published, ready and free count the ledger's devices that match the model, those on Nodes whose flag is absent or true, and of these the unallocated ones; a ledger that is not installed is unknown, and one that publishes anything is known |
| `Inventory.NodeFlagNeverAdds` | internal/inventory/inventory.go:177-201 | saying of a Node that it cannot pass devices through raises no count |
| `Inventory.FilterNeverAdds` | internal/inventory/inventory.go:194-199 | a narrower model filter never raises the free count |
| `Inventory.NoneAvailable` | internal/inventory/inventory.go:200-217 | the free count is zero if and only if every matching usable device is allocated |
| `Diagnosis.FailureNamesCause` | internal/controller/fsm.go:67-188 | a decision to fail carries the guest's own reason, or the reason of the furthest layer that is not up |
| `Fsm.ReadyExactly` | internal/controller/fsm.go:67-155 | Ready is shown if and only if the cell is fully up, or was Ready and the workload cluster cannot be reached |
| `Fsm.ReapsExactly` | internal/controller/fsm.go:119-131 | a stale Node is reaped if and only if the workload cluster is readable, the cell is on its way up and its guest is up with a device |
| `Scaling.TargetIsBounded` | internal/controller/scaling.go:77-150 | the target is the clamped live count moved by at most one, and moves only with the evidence and quiet time its direction demands |
| `Nodes.PatchConverges` | internal/workload/node.go:252-260 | after the patch every wanted label reads as wanted, every other as before, and nothing is left to patch |
| `RunTheorems.EndingIsBounded` | internal/controller/controller.go:816-868 | over the whole end of a deleted pool a guest goes only by policy Force, an empty reading, or strictly more than the drain timeout after the deletion request; a pass past that time deletes the guest of every name it lists, and a later phase change does not restart the wait |
| `Diagnosis.WaitNamesCause` | internal/controller/fsm.go:67-155 | a cell that is not failed says what it waits for: the unreachable cluster, a Node that names another guest, or the layer that is not up |
| `Scaling.ReasonsExactly` | internal/controller/scaling.go:77-197 | each scaling reason is given exactly where it applies |

## Left out

- Client plumbing, object rendering and the provisioners (`internal/provisioner`): creating a guest is a new UID in what the next read lists.
- Admission rules, bootstrap rendering, credentials, CRD checks, the client cache and metrics authentication.
- Messages, events, metrics and the status condition table; a reason is kept wherever a decision reads it.
- A pass that stops half-way on an API error, and a status write that fails: every modelled pass completes and its status lands. `DrainRace` does let a drain stop after any call.
- A guest that observing creates because only a padded name is listed: it is in what the pass reads, and is not a creation of the plan.
- The clock is read once per pass, in whole seconds; a zero time is an absent time.
- Integers are unbounded except where the width decides an outcome (index range, 64-bit annotation numbers).
- What a pass reads (guests, Nodes, demand, free GPUs, allocations, whether a cell shape is known) is an input of that pass; runs do not tie the readings of one pass to those of another, except where a theorem says so (`RolloutRuns`: stale guests change only by deletion; `NodePasses.AdoptedNodeSurvives`: nobody else writes the guest label).
- Demand reading (`internal/capacity/hami_demand.go`, `internal/capacity/hami_dra.go:296-365`) and shape memory (`internal/controller/scaling.go:227-274`): short case tables without cross-call state.
- JSON decoding of the device registration and provider health: registrations arrive decoded or unreadable.
- SHA-256 behind the template hash: only the byte stream fed to it is modelled.
- The order of per-model rows in the published capacity list.
- DrainRace.DrainDestroysNoWork: assumes of a kubelet that it registers its Node once and does not come back when the Node is deleted, as `internal/controller/controller.go:442-443` does; a kubelet that restarts is not modelled.
- RolloutRuns.RolloutTerminates: counts drains, not time; a rollout that waits for an idle cell may wait forever.
