# A verified model of the Proxmox VM control plane

The control plane keeps what users want in SQL (`vms`, `vm_tasks`, `security_groups`) and lets one worker bring a Proxmox
cluster in line with it. An API request checks, rewrites a row and appends tasks in one transaction; the worker wakes up,
recovers, scans, queues what has expired, selects at most one task of at most twenty VMs, runs them, and purges. Nothing
but a handful of SQL predicates that have to agree with each other keeps this safe. The project models that machinery and
proves what it is for; every statement below is about all inputs, all fault patterns and all runs unless a condition is
named, and the condition is then part of the result.

## How it is put together

| files | what they hold |
|---|---|
| `Records`, `Sets`, `Strings` | rows, configuration, finite sets, name lists |
| `TaskQueue`, `Machine` | every SQL statement on `vm_tasks` as a function; API transactions, the worker and crashes as a step system with one step per transaction |
| `QueueOrder`, `Retries` | results at the finest grain, where any API transaction may fall between any two statements of the worker |
| `Handlers`, `Serial` | the API handlers as decisions; runs in which requests fall between whole worker cycles, and the proof that these are runs of the finer system |
| `DeleteProtocol`, `Restore`, `Expiry`, `Draining`, `Tenancy`, `Quotas`, `Overdraft` | results over serial runs |
| `Statements` | what every SQL statement on the queue and every task body does, read off the tables before and after |
| `Acceptance`, `Effects` | exactly when each request is accepted, and what it has done, in terms of rows, open tasks and deadlines |
| `Shortfalls` | concrete runs from a new installation to the states in which the code falls short |
| `Cycle`, `Store`, `Worker`, `Server` | the stages of a cycle, and the two programs as classes over one shared database object. The database carries the history of its events, and its invariant says that this history is a serial run ending in the present tables. So each method is proved against the step system, and each theorem about runs holds of the tables at every moment |
| `Inventory`, `Allocation`, `Placement`, `Addressing` | the inventory scan, VMIDs and quota sums, node choice, IPv4 arithmetic |
| `Provisioning`, `Firewall`, `Net0` | the compensating transaction, the IP set and rule reconcilers, the `net0` option string |
| `Timestamps`, `Cutoffs` | text comparison of RFC 3339 timestamps (equal fraction widths are what section 5.1 of RFC 3339 asks for, and the code trims them) |
| `TableSort` | the table header sort of the web page |

Time is a number of nanoseconds. PVE is a map from VMIDs to nodes, an IP set or a rule list; an arbitrary fault pattern or
oracle decides every call. Floating point is modelled over the reals.

## Where the code falls short of its promise

Unless the entry says otherwise, each of these is proved as a condition that holds if and only if the code keeps the
promise, and the failing side is shown at a concrete input or run.

- A restore cancels pending and running delete tasks but not a failed one, and the worker neither re-reads a selected row
  nor looks at a task's status before it starts or closes it. Committed between any two steps of the worker, where a task
  body is one step and all other requests fall between cycles, a restore is safe exactly when the VM, if not deleted yet, has no failed delete task with a deadline of its own
  and the worker holds no delete task of it (selected, running, or run but not closed). Otherwise a run exists in which
  DeleteVM is issued for the restored VM.
- Adoption looks the security group up under `security_group_owner` and stores only the name. The reference is sound
  exactly when the new owner has a group of that name.
- An owner transfer replaces the owner before the quota test compares it, so the old row is subtracted from a sum that
  never held it. All quotas survive exactly when the new owner's usage and the patched row fit together.
- A patch may set cores or memory below zero, which any owner can do, and the row then lends its owner room in every later
  quota test: after one more creation and the deletion of the patched VM the user is over quota. From any state, no run of
  deletions, restores, exemptions, scans and worker steps leads over quota exactly when the sums with negative amounts
  counted as zero are within quota; and a run, with whatever transfers, negative patches and exemptions taken back, is safe
  in this sense at every moment exactly when each of its requests fitted those sums when it came.
- Taking an exemption back is not checked at all. All quotas survive exactly when the row fits beside what its owner
  already uses.
- A failed provisioning leaves its clone behind in exactly three situations.
- The IP set reconciler is right exactly when no unwanted entry is listed in two spellings.
- The bridge of a rewritten `net0` is the wanted one unless an option that becomes `bridge=` only after trimming precedes it.
- Text order of timestamps differs from time order exactly inside a second, when one written fraction continues the other.
- The tolerant node comparison is exact while 20 * CPU limit * memory limit stays below 10^9. This one is sufficient, not
  necessary: beyond the bound the choice can depend on the order of the node list, and an instance where it does is given.

## Model

| member | source | states |
|---|---|---|
| QueueOrder.VmTasksRunInOrder | internal/worker/worker.go:430-457 | in every reachable state, with API transactions, crashes, recoveries and purges between any two worker statements, each VM has at most one running task, everything queued before it is done or canceled, and seq numbers are unique |
| QueueOrder.StepKeepsQueueInv | internal/worker/worker.go:224-293 | every single statement of the API and the worker, and a crash, keeps the ordering invariant |
| QueueOrder.StartIsAlwaysSafe | internal/worker/worker.go:267-272 | when a selected task is started, whatever the API did since the select, its row still exists, everything before it has settled and nothing else of its VM runs |
| QueueOrder.CanceledBatchTaskIsRevived | internal/worker/worker.go:700-713 | a task canceled after it was selected is run all the same, and the order survives it |
| QueueOrder.SelectClaims | internal/worker/worker.go:430-511 | a batch holds at most one task per VM and each is the VM's first open task |
| TaskQueue.NextSeq | internal/api/common.go:406-422 | the new seq is above every existing one of the VM |
| Statements.CancelAllMeans | internal/api/common.go:424-433 | exactly the open tasks of the VM are canceled, and keep everything else |
| Statements.CancelDeletesMeans | internal/api/vm_handlers.go:1217-1221 | exactly the pending and running delete tasks of the VM are canceled |
| Statements.CancelSupersededMeans | internal/worker/worker.go:579-594 | exactly the open tasks, other than delete tasks, of active VMs with a requested deletion are canceled; delete tasks, settled tasks and other VMs' tasks are as they were |
| Statements.RecoverMeans | internal/worker/worker.go:190-215 | exactly the stale running tasks are pending again, with kind, place and attempts kept |
| Statements.PurgeFinishedMeans | internal/worker/worker.go:408-416 | exactly the done, canceled and failed tasks finished before the cutoff go |
| Statements.MarkRunningMeans | internal/worker/worker.go:700-713 | one row is running with one more attempt, and keeps its place, kind and payload |
| Statements.EnqueueMeans | internal/worker/worker.go:596-623 | one pending task is appended; the first of a VM has number 1, later ones follow the greatest number in use |
| Statements.ReadyHeadMeans | internal/worker/worker.go:430-533 | a task may be taken if and only if its VM is active, managed and not paused, everything before it is done or canceled, and it is pending or failed one to five times and waited 1, 2, 4, 8 or 16 minutes since |
| Statements.ExpiredMeans | internal/worker/worker.go:535-560 | a row of the expiry query is exactly an active, managed, unpaused VM with a passed deadline and no open delete task |
| Statements.BodyMeans | internal/worker/worker.go:625-698 | each task body on the tables: a successful provision or apply leaves the row synced with the reported power and node, a power task likewise, a reboot writes nothing, a deletion does what its deadline says, a failure leaves at most the node |
| Statements.DeleteMeans | internal/worker/worker.go:1417-1463 | a deletion marks an absent VM deleted, shows an early one as deleting, calls DeleteVM for a due one, and deletes the row and cancels the VM's open tasks on success; a failure writes nothing |
| Statements.DeadlineMeans | internal/worker/worker.go:821-832 | whose deadline counts: the task's own unless it is flagged or has none, then the row's, then the prefer document's |
| Retries.AttemptsAreBounded | internal/worker/worker.go:267-285 | over whole runs attempt_count is at most 6 plus the number of manual retries and recoveries of that task |
| Retries.OnlyRetryOrRecoveryPutsBack | internal/api/vm_handlers.go:1441-1471 | a task leaves a non-pending status for pending only by a retry of a failed task or a recovery of a running one |
| Retries.AttemptsBackOff | internal/worker/worker.go:513-533 | without those, attempt n+1 starts at least 2^n - 1 minutes after the first failure |
| Retries.VmFailsExactlyWhenRetriesEnd | internal/worker/worker.go:273-284 | recording a failure marks the VM failed if and only if no later select will ever pick the task up by itself |
| Serial.HistoryIsRun | internal/worker/worker.go:224-293 | every serial run is a run of the fine-grained system, so its invariants carry over |
| DeleteProtocol.DeletesAreRequestedAndDue | internal/worker/worker.go:1417-1463 | in every serial run without a leaking restore, DeleteVM is called only while a deletion is requested and at or after the row's present deadline |
| DeleteProtocol.NothingElseRunsWhileDeleting | internal/worker/worker.go:579-594 | while a deletion is pending the worker runs only delete tasks of that VM, and at most one task of it is open |
| DeleteProtocol.EventKeeps | internal/api/vm_handlers.go:1077-1313 | every request, scan and worker step keeps rows, tasks and batch in agreement, except a restore over a leaking task |
| DeleteProtocol.BodyIsSound | internal/worker/worker.go:821-832 | whatever kind of live task runs, DeleteVM is issued only by a delete task, for a requested and due deletion |
| Restore.RestoreSafeExactlyWithoutLeak | internal/api/vm_handlers.go:1155-1234 | committed between cycles, a restore is safe in all continuations if and only if the VM is deleted already or has no failed delete task with its own deadline |
| Restore.RestoreSafeExactlyAnytime | internal/worker/worker.go:263-293 | committed between any two steps of the worker, with a task body as one step and all other requests between cycles, a restore is safe in all continuations if and only if there is no such failed task and the worker holds no delete task of the VM |
| Restore.LeakIsUnsafe | internal/api/vm_handlers.go:1217-1221 | with such a task, and the worker anywhere in its cycle, a concrete run of requests and worker steps issues DeleteVM for the restored VM |
| Restore.RestoreDuringTheTaskIsTooLate | internal/worker/worker.go:263-293 | if the worker holds a delete task of the VM at any place of its batch, started or not, a run after the restore issues DeleteVM without a request |
| Restore.ClosingIsUnsafe | internal/worker/worker.go:273-289 | a restore between the body of an unflagged delete task and its closing update is unsafe as well: the update may record a failure, which can be retried |
| Shortfalls.UnsafeRestoreIsReachable | internal/api/vm_handlers.go:1217-1221 | from a new installation: create, delete, one attempt PVE does not answer; a restore is then accepted and not safe |
| Expiry.AtMostOneLiveDelete | internal/worker/worker.go:535-577 | in every serial run no VM ever has two pending, running or failed delete tasks |
| Expiry.ExpiryCoversEveryDueVm | internal/worker/worker.go:535-577 | right after the expiry query every due, active, managed, unpaused VM has exactly one, and nothing else was queued |
| Expiry.EarlyDeleteIsQueuedAgain | internal/worker/worker.go:1440-1449 | a delete task that runs before the deadline completes without touching the request, and through any continuation that leaves the VM alone no delete task of it is live and it is listed exactly when eligible and due |
| Expiry.DormantUntilExpired | internal/worker/worker.go:535-577 | a VM whose deletion waits without an open task keeps its row and is listed exactly when eligible and due, in every state of any run that neither asks anything of it nor queues its expiry |
| Expiry.DueDeleteFinishes | internal/worker/worker.go:1450-1463 | at or after the deadline with PVE healthy the VM is deleted for good and none of its tasks stays open or is selected again |
| Expiry.HandlersAreDisciplined | internal/api/common.go:424-433 | every handler queues a delete task only right after canceling everything of the VM |
| Draining.QueueDrains | internal/worker/worker.go:224-293 | in any healthy run of the whole cycle without new requests, K open tasks of VMs the worker may touch are gone after at most K selects, exactly the completed ones go, and each VM's complete in the order of its queue; other VMs may be in any state |
| Draining.CycleCompletesBatch | internal/worker/worker.go:224-293 | a healthy run with one select, whatever its recoveries, scans, expiries, cancellations and purges, completes exactly min(20, busy VMs) tasks |
| Draining.SmoothRun | internal/worker/worker.go:224-293 | the same from any point inside a cycle: order of completion per VM, conservation of open tasks, and the claim of each select |
| Draining.SweepKeepsWork | internal/worker/worker.go:190-222 | recovery, scan, expiry, cancellation and purge leave the open work of a quiet database as it is, task by task |
| Cutoffs.ExpiryIsWithinASecond | internal/worker/worker.go:535-545 | the textual cutoff lists a VM no later than a second after its deadline and no earlier than a second before |
| Cutoffs.RecoveryIsWithinASecond | internal/worker/worker.go:190-215 | stale recovery is off by less than a second from half an hour |
| Cutoffs.PurgeIsWithinASecond | internal/worker/worker.go:408-416 | the purge is off by less than a second from a day |
| Cutoffs.TextIsReadable | internal/worker/worker.go:2234-2246 | a comparison of instants that agrees with the stored texts exists, since different valid instants are different times |
| Timestamps.TextOrderIsTimeOrderExceptPrefixes | internal/worker/worker.go:2234-2246 | exactly when the text order of two timestamps is their time order |
| Timestamps.TextCutoffsAreWithinOneSecond | internal/worker/worker.go:2244-2246 | instants a second apart are ordered right, and a textual "not after" is wrong by less than a second |
| Timestamps.TextOrderCanBeWrong | internal/worker/worker.go:2244-2246 | two instants whose texts are in the wrong order |
| Store.ValidIsSound | internal/db/migrate.go:144-146 | a database whose history is a serial run has unique (cluster, vmid), unique seq, ordered queues and at most one live delete per VM |
| Store.Database.QueueVmTask | internal/worker/worker.go:596-623 | one pending task is appended with the next seq and a fresh id, and nothing else changes |
| WorkerLoop.Worker.SyncOnce | internal/worker/worker.go:224-293 | whatever fails, a cycle is part of a serial run, ends idle, and its stages come in order; a stale recovery is its first step if the statement is accepted; a cycle that succeeds has queued a delete for exactly the overdue VMs without one, canceled, selected, and given every selected task its turn; if no statement after the recovery is refused it succeeds, has scanned every listing, started and closed every task and purged; when all is well and the queue is quiet it completes exactly min(20, busy VMs) tasks |
| WorkerLoop.Worker.PrepareQueue | internal/worker/worker.go:224-262 | a preparation that succeeds has queued exactly the overdue deletes, and afterwards the one open task of every VM whose deletion is due is a delete task |
| WorkerLoop.Worker.SyncUnmanagedVms | internal/worker/worker.go:790-819 | without a failure every listing is scanned to its end, one after another; otherwise up to the first failure; managed VMs and the queue stay as they are |
| WorkerLoop.Worker.WorkOffHead | internal/worker/worker.go:263-289 | a task is passed over only if it could not be marked running; otherwise its body runs once and how it ended is recorded |
| Cycle.SweepLeavesTheDelete | internal/worker/worker.go:579-594 | the cancellation keeps the delete task the expiry query has made sure of and leaves nothing else open |
| WorkerLoop.Worker.PendingTasks | internal/worker/worker.go:430-511 | the batch is exactly the first twenty tasks that may be taken, in order of VM, as the tables show them |
| WorkerLoop.Worker.QueryHeads | internal/worker/worker.go:431-457 | the query yields every head exactly once, in order of VM |
| WorkerLoop.Worker.EnsureExpiredDeleteTasks | internal/worker/worker.go:535-577 | when it succeeds, a delete was queued once for each overdue VM without one and for no other, and every due VM has exactly one live delete task; no row of `vms` changes |
| WorkerLoop.Worker.QueryExpired | internal/worker/worker.go:535-567 | the ids listed are exactly the due VMs without a live delete task |
| WorkerLoop.Worker.CancelSupersededTasks | internal/worker/worker.go:579-594 | of the active VMs with a requested deletion no task but delete tasks stays open; delete tasks, settled tasks and other VMs' tasks are unchanged |
| WorkerLoop.Worker.RecoverStaleRunningTasks | internal/worker/worker.go:190-222 | running rows at or below the cutoff become pending, nothing else |
| WorkerLoop.Worker.PurgeOldTasks | internal/worker/worker.go:408-428 | two statements with one cutoff, the second only after the first |
| WorkerLoop.Worker.MarkTaskRunning | internal/worker/worker.go:700-713 | the selected row becomes running with one more attempt, whatever its status was |
| WorkerLoop.Worker.FinishTask | internal/worker/worker.go:273-289 | the task is recorded as done exactly if its body succeeded and the closing update was accepted, otherwise as failed, and if that update is refused too the task stays running |
| WorkerLoop.Worker.MarkTaskFailed | internal/worker/worker.go:725-733 | the row becomes failed and, past the retry limit, the VM is marked failed; either update may be refused |
| WorkerLoop.Worker.RunTask | internal/worker/worker.go:625-655 | each kind of task does on the tables what Statements.BodyDone writes out: sync state, real power, node, deletion and cancellation, and nothing else |
| WorkerLoop.Worker.DeleteOnPve | internal/worker/worker.go:1417-1463 | absent, too early, blocked and completed deletions each write what they should, and PVE is told to delete only past the deadline |
| WorkerLoop.Worker.ScanCluster | internal/worker/worker.go:790-819 | without a failure the rows of the cluster are reconciled, otherwise in part, and the step is one of a serial run |
| WorkerLoop.Worker.MarkMissingUnmanagedVmsDeleted | internal/worker/worker.go:1817-1876 | exactly the active unmanaged rows of the cluster that were not seen are marked deleted |
| WorkerLoop.Worker.UpsertResources | internal/worker/worker.go:797-808 | the rows after n resources are the upsert of the first n, and the seen VMIDs are theirs |
| ApiServer.Server.HandleCreateVm | internal/api/vm_handlers.go:255-537 | accepted exactly under Acceptance.MayCreate; commits one row with the least free VMID, its address, and the least loaded node as target, and one provision task, its owner within quota; a refusal leaves no trace |
| ApiServer.Server.AllocateVm | internal/api/vm_handlers.go:435-449 | the VMID is the least free one of the window, the address is derived from it, the node is the least loaded one |
| ApiServer.Server.HandlePatchVm | internal/api/vm_handlers.go:579-999 | exactly the requested fields change, only an administrator changes the owner, the disk never shrinks, the owner has the group, and a reboot follows the apply task only if needed and running; a power field is a power action, and only alone |
| ApiServer.Server.CheckPatchedQuota | internal/api/vm_handlers.go:902-954 | the subtract-old, add-new total decides as the sum over the updated rows would, for a counted row that keeps its owner |
| ApiServer.Server.HandlePowerVm | internal/api/vm_handlers.go:1011-1075 | the power wish changes and one pending power task joins the end of the VM's queue, nothing else; or a refusal without a trace |
| ApiServer.Server.HandleDeleteVm | internal/api/vm_handlers.go:1077-1153 | accepted exactly if the actor controls the managed VM and it is not leaving; afterwards exactly one task of the VM is open, a delete due in 24 hours at the end of its queue; what it had is canceled and kept; the request is dated and the old power wish kept; no other VM or task changes |
| ApiServer.Server.HandleRestoreVm | internal/api/vm_handlers.go:1155-1234 | the request is gone and the old power wish back, pending and running deletes are canceled, failed deletes and everything else stay, one apply task follows; no other VM or task changes |
| ApiServer.Server.HandleDeleteNowVm | internal/api/vm_handlers.go:1236-1313 | the deadline becomes now, the first request time is kept, exactly one delete task of the VM is open |
| ApiServer.Server.SetPaused | internal/api/vm_handlers.go:1315-1397 | only the pause flag of a managed VM changes, nothing else |
| ApiServer.Server.HandleRetryVmTask | internal/api/vm_handlers.go:1399-1480 | only a failed task of that VM becomes pending again, with its place, attempts and payload kept |
| ApiServer.Server.HandleAdminAdoptVm | internal/api/vm_handlers.go:1482-1749 | an unmanaged row becomes a managed one of its new owner, within quota and with a clear delete state, and an apply task follows |
| ApiServer.Server.HandleAdminPatchVm | internal/api/template_handlers.go:311-428 | afterwards no other active VM of the cluster has the address, and an apply task follows, with a reboot exactly if the VM runs |
| ApiServer.Server.HandleAdminSetQuotaExempt | internal/api/template_handlers.go:430-503 | the flag is as asked, without a quota test, and an apply task follows unless it was so before |
| ApiServer.Server.HandleCreateSecurityGroup | internal/api/security_handlers.go:93-141 | the user has one group more, a new one, within the group quota; rows and tasks are unchanged |
| ApiServer.Server.HandlePatchSecurityGroup | internal/api/security_handlers.go:143-211 | exactly the active managed VMs using the group become pending, and nothing is queued |
| ApiServer.Server.HandleDeleteSecurityGroup | internal/api/security_handlers.go:213-246 | the group goes, and no active row names it; rows and tasks are unchanged |
| Acceptance.DeleteIsAllowed | internal/api/vm_handlers.go:1077-1313 | delete is accepted if and only if the actor owns the managed VM or is an administrator and it is not leaving; restore and delete-now if and only if it is |
| Acceptance.QueueControlIsAllowed | internal/api/vm_handlers.go:1315-1480 | pausing and resuming need control of a managed VM, a retry also a failed task of it, and nothing more |
| Acceptance.PowerIsAllowed | internal/api/vm_handlers.go:1011-1075 | exactly when a power action is accepted |
| Acceptance.CreateIsAllowed | internal/api/vm_handlers.go:255-537 | a creation is accepted if and only if its form is right, the cluster offers the amounts, the group is the user's, the quota has room, and there is a free VMID with an address |
| Acceptance.PatchIsAllowed | internal/api/vm_handlers.go:579-999 | a patch is accepted if and only if access, the requested fields, the group, the storage, the disk and the tested totals allow it |
| Acceptance.AdoptIsAllowed | internal/api/vm_handlers.go:1482-1749 | exactly when an adoption is accepted |
| Acceptance.AdminIsAllowed | internal/api/template_handlers.go:311-503 | exactly when an address edit and an exemption are accepted |
| Acceptance.GroupIsAllowed | internal/api/security_handlers.go:93-246 | exactly when creating, patching and deleting a group are accepted |
| Effects.DeleteEffect | internal/api/vm_handlers.go:1077-1153 | an accepted delete leaves exactly one open task of the VM, due in 24 hours, and touches no other VM or task |
| Effects.DeleteNowEffect | internal/api/vm_handlers.go:1236-1313 | an accepted delete-now makes the deadline now, keeps the first request time and leaves exactly one open task of the VM |
| Effects.RestoreEffect | internal/api/vm_handlers.go:1155-1234 | an accepted restore clears the request, cancels pending and running deletes and leaves every other task as it is |
| Effects.RestoreUndoesDelete | internal/api/vm_handlers.go:1077-1234 | a restore of a deleted VM gives back the row as it was, but for its sync state, with one open task, an apply |
| Effects.PowerEffect | internal/api/vm_handlers.go:1011-1075 | an accepted power action changes the wish and the sync state and appends one task |
| Effects.PatchEffect | internal/api/vm_handlers.go:579-999 | an accepted patch changes exactly the requested fields and appends apply, and a reboot exactly if the VM runs and one is needed |
| Effects.AdoptEffect | internal/api/vm_handlers.go:1482-1749 | an accepted adoption hands the VM to its new owner, whose usage grows by exactly the VM and stays within quota |
| Effects.CreateEffect | internal/api/vm_handlers.go:255-537 | an accepted creation adds one row with the least free VMID of the window, its derived address and a group of its owner, whose usage grows by exactly the VM and stays within quota |
| Effects.RetryEffect | internal/api/vm_handlers.go:1399-1480 | an accepted retry makes one failed task pending and sets the sync state by the request |
| Provisioning.ProvisioningIsAllOrNothing | internal/worker/worker.go:834-897 | a failed provisioning has left PVE as it was if and only if none of three named situations occurred |
| Provisioning.CloneIsLeftBehind | internal/worker/worker.go:917-982 | a failing lookup right after the clone is enough: the provisioning fails and the clone stays |
| Provisioning.ExistingVmsSurvive | internal/worker/worker.go:834-897 | a VM present before is never deleted or moved and no other VM is touched, under any faults |
| Provisioning.FailedProvisioningLeavesNoTrace | internal/worker/worker.go:907-915 | with lookup and compensation working, any other faults leave no trace |
| Provisioning.SuccessMeansPresent | internal/worker/worker.go:917-982 | success means the VM is there: one that was created is on the target node, else on the preferred one, else on the row's node, else on the template's; one that was there has not moved |
| Provisioning.CreationSucceedsExactly | internal/worker/worker.go:834-1007 | a new VM is provisioned if and only if the job names what it needs and no call it has to make fails, call by call |
| Provisioning.ReconfigurationSucceedsExactly | internal/worker/worker.go:834-897 | a VM that is there is brought in line if and only if no call that is made for it fails |
| Provisioning.AttemptsConserve | internal/worker/worker.go:834-915 | over any number of retries under any faults no other VM is touched, a VM that has appeared stays where it is, and it has appeared exactly if some attempt succeeded or left its clone |
| Provisioning.SyncOnPve | internal/worker/worker.go:834-897 | the imperative code, deferred rollback included, computes the specified outcome |
| Provisioning.CreateOnPve | internal/worker/worker.go:917-982 | clone, migrate, clean up after a failed migration, look up; a created VM is on the node that was asked for |
| Provisioning.ConfigureOnPve | internal/worker/worker.go:984-1007 | the later steps succeed exactly when the bridge is known and none of the calls that are needed fails |
| Inventory.ScanReconciles | internal/worker/worker.go:790-819 | after a scan the active VMIDs are the scanned and the managed ones, each scanned VMID has exactly one active row, no unmanaged row went unseen, managed rows and other clusters are unchanged |
| Inventory.ScanShowsReports | internal/worker/worker.go:1750-1876 | after a scan every active unmanaged row shows node, address, sizes and power of the last report about its VMID; an unreported one is deleted at the time of the scan; new rows are nobody's |
| Inventory.ScanPartChange | internal/worker/worker.go:1750-1876 | even a scan cut short leaves managed rows alone and adds only unmanaged ones |
| Inventory.UpsertUnmanagedVm | internal/worker/worker.go:1750-1815 | refresh, insert or leave alone, as the active row of the VMID demands |
| Tenancy.VmidsStayUnique | internal/api/vm_handlers.go:435-525 | in every serial run (cluster, vmid) is unique among active rows, without leaning on the index |
| Tenancy.DerivedAddressesNeverCollide | internal/api/common.go:796-811 | in every serial run two active VMs it created on one bridge, whose address no administrator set, have different addresses |
| Tenancy.CreatedKeepsDerivedIp | internal/api/vm_handlers.go:440-525 | a VM the run created keeps its derived address through patches, transfers, deletes, restores, scans and worker steps until an administrator sets another |
| Tenancy.CreatedVmHasDerivedIp | internal/api/vm_handlers.go:440-444 | a created VM has the address derived from its VMID |
| Tenancy.GroupsNeverDangle | internal/worker/worker.go:1705-1713 | over every serial run without borrowed groups, the group of each active managed VM exists |
| Tenancy.AdoptionIsSoundExactlyWhenOwned | internal/api/vm_handlers.go:1633-1644 | an adoption keeps the references sound if and only if the new owner has a group of that name |
| Shortfalls.AdoptionBorrowsGroup | internal/api/vm_handlers.go:1633-1644 | from a new installation: a discovered machine is adopted under another user's group, which the new owner does not have |
| Quotas.UsersStayWithinQuota | internal/api/common.go:695-733 | over every serial run without an owner change, a negative amount or a revoked exemption, each user's sums stay within the quota; Overdraft has the exact condition for runs with them |
| Overdraft.NeverExceedsExactlyWhenCovered | internal/api/common.go:695-733 | in any state, no run of deletions, restores, exemptions, scans and worker steps brings a user over quota if and only if the sums with negative amounts counted as zero are within quota |
| Overdraft.SafeExactlyWhenAffordable | internal/api/vm_handlers.go:867-954 | a serial run with any accepted requests is safe in this sense at every moment if and only if each request, when it came, fitted its owner's quota by those sums |
| Overdraft.EventKeepsCoveredExactly | internal/api/vm_handlers.go:902-954 | the same for one event: from sums within quota it leads to sums within quota if and only if it is affordable |
| Overdraft.PatchIsSafeExactly | internal/api/vm_handlers.go:867-876 | for an accepted patch that keeps the owner: safe afterwards if and only if the other rows and the patched one fit, negative amounts counted as zero |
| Overdraft.CheckedIsAffordable | internal/api/vm_handlers.go:902-954 | while no amount is negative, every accepted request but a transfer, a negative patch and an exemption taken back is affordable |
| Shortfalls.NegativePatchGoesOverQuota | internal/api/vm_handlers.go:867-876 | from a new installation: one user who is no administrator creates, patches to -7 cores, creates again and deletes the first VM, and holds eight cores of four |
| Quotas.PatchTotalIsExact | internal/api/vm_handlers.go:902-954 | the subtract-old, add-new total is the sum over the updated rows |
| Quotas.TransferTotal | internal/api/vm_handlers.go:702-712 | after an owner change the new owner's usage is the tested total plus the old row, which is the usage before plus the patched row |
| Quotas.TransferKeepsQuotaExactly | internal/api/vm_handlers.go:931-954 | an accepted transfer of a counted VM keeps all quotas if and only if the new owner's usage and the patched row fit together |
| Quotas.TransferToFullUserExceeds | internal/api/vm_handlers.go:931-954 | the quota test never refuses an unchanged VM, and handed to a user with a full quota it leaves that user over quota |
| Shortfalls.TransferGoesOverQuota | internal/api/vm_handlers.go:931-954 | from a new installation: a transfer is accepted and gives a user two VMs of one |
| Quotas.UnexemptTotal | internal/api/template_handlers.go:430-503 | a revoked exemption adds the row to the owner's usage without a test |
| Quotas.UnexemptKeepsQuotaExactly | internal/api/template_handlers.go:430-503 | taking an exemption back keeps all quotas if and only if the row fits beside what its owner uses |
| Shortfalls.UnexemptGoesOverQuota | internal/api/template_handlers.go:430-503 | from a new installation: an exemption taken back leaves the owner with two VMs of one |
| Allocation.NextClusterVmid | internal/api/common.go:763-790 | the least VMID of the window that no active VM of the cluster has, and failure exactly when there is none |
| Allocation.RoomMeansVmid | internal/api/common.go:763-790 | fewer active rows than the window is wide always leave a free VMID |
| Allocation.ListUserVmUsage | internal/api/common.go:695-733 | the four sums over the active, managed, non-exempt rows of the user |
| Quotas.NewRowCountsForItsOwner | internal/api/common.go:695-733 | a new row adds its amounts to its owner's sums exactly if it is active, managed and not exempt |
| Allocation.NodeStaticAllocation | internal/api/common.go:866-896 | the sums of AllocationBelow, which NewRowLoadsItsHost and LoadAfterUpdate determine |
| Allocation.NewRowLoadsItsHost | internal/api/common.go:866-896 | a new managed, active row of the cluster adds its cores and memory to the node it is on, or is bound for, and to no other; other rows add nothing; without rows nothing is allocated |
| Allocation.LoadAfterUpdate | internal/api/common.go:866-896 | rewriting a row takes its old share from its old node and adds the new one to its new node |
| Effects.CreationLoadsItsNode | internal/api/vm_handlers.go:435-449 | a created VM raises the load of the node chosen for it by its cores and memory, and of no other node or cluster |
| Allocation.LowestStaticAllocationNode | internal/api/common.go:841-864 | the loop returns the winner of the tolerant comparison |
| Allocation.ChoosePlacementNode | internal/api/common.go:817-839 | the winner among the normalised node names, the template's node if there are none |
| Allocation.PlacementIsLeastLoaded | internal/api/common.go:817-864 | the node chosen is named by the class and, with the request added, weighs less than every other named node: 7 parts CPU and 13 parts memory against the class's limits, then less memory, then the preferred node, then the name |
| Placement.BetterIsExact | internal/api/common.go:898-945 | under the bound the tolerant comparison is the exact lexicographic one |
| Placement.ExactlyIsLighter | internal/api/common.go:898-945 | the exact order in whole numbers; the CPU ratio never decides |
| Placement.BestIsLeast | internal/api/common.go:841-864 | the fold returns the unique minimum |
| Placement.PlacementIgnoresOrder | internal/api/common.go:841-864 | the winner does not depend on the order of the candidates |
| Placement.BestIsNearlyLeast | internal/api/common.go:898-926 | without the bound no candidate scores better than the winner by more than n * 1e-9 |
| Placement.ToleranceCanDecideByOrder | internal/api/common.go:898-926 | without the bound two orders of one list can give two winners |
| Strings.NormalizeStringList | internal/api/common.go:453-469 | the loop computes the normal form of the list |
| Strings.NormalizedExactly | internal/api/common.go:453-469 | the normal form holds exactly the trimmed non-empty values, each once, ascending |
| Strings.TrimTakesBlanks | internal/api/common.go:453-469 | trimming leaves the part between the first and the last character that is not blank |
| Strings.NormalizeIgnoresSpelling | internal/api/common.go:453-469 | order, repetition and surrounding blanks do not matter |
| Strings.NormalizeIsIdempotent | internal/api/common.go:453-469 | a normal form is its own normal form |
| Addressing.AddIPv4 | internal/api/helpers.go:98-115 | exact signed addition on 32-bit addresses, failing exactly outside the address space |
| Addressing.DeriveIsInjective | internal/api/common.go:796-811 | on one bridge different VMIDs get different addresses |
| Addressing.DerivedAddressIs | internal/api/common.go:796-811 | the first VMID gets the start address and every other one the address as far from it as the VMID is; there is none exactly if bridge, start address or address do not exist |
| Addressing.ValueMeans | internal/api/helpers.go:98-115 | the number of an address is its four bytes read as an unsigned big-endian number |
| Addressing.TailIsInjective | internal/api/helpers.go:98-115 | the number of an address determines its bytes |
| Firewall.InSyncExactlyWithoutTwins | internal/pve/firewall.go:108-167 | the reconciled set says exactly what is wanted if and only if no unwanted entry is listed in two spellings |
| Firewall.TwinsExist | internal/pve/firewall.go:108-167 | one address with and without its prefix length is enough: a listed spelling survives a run without refusals |
| Firewall.CorrectEntriesStay | internal/pve/firewall.go:108-167 | right entries are left untouched |
| Firewall.InSyncNeedsNothing | internal/pve/firewall.go:108-167 | a set in sync is not changed, so a second run does nothing |
| Firewall.EnsureIpSet | internal/pve/firewall.go:108-167 | right entries stay and only wanted forms are added under any refusals; when nothing is refused it succeeds; on success the set is reconciled; a set in sync costs no call |
| Firewall.RuleList.Clear | internal/pve/firewall.go:253-265 | deleting from the last position empties the list; cut short, a prefix is left |
| Firewall.RuleList.Apply | internal/pve/firewall.go:214-251 | after a full run each wanted rule is there as often as wanted and no other; cut short after any number of calls, what is left of the old or there of the new rules is exactly known |
| Net0.RewriteNet0 | internal/worker/worker.go:2069-2096 | the in-place edit of the split string is the specified rewrite |
| Net0.RewriteKeepsTheRest | internal/worker/worker.go:2069-2096 | every other option is kept, in order |
| Net0.RewriteIsIdempotent | internal/worker/worker.go:2069-2096 | rewriting twice is rewriting once |
| Net0.RewriteSetsBridgeUnlessHidden | internal/worker/worker.go:2198-2206 | reading the bridge back gives the wanted one if and only if no untrimmed option hides it |
| Net0.HiddenExists | internal/worker/worker.go:2198-2206 | a blank in front of the bridge option is enough: the old bridge is read back |
| Net0.OptionsOfRewrite | internal/worker/worker.go:2069-2096 | splitting the result gives back the rewritten options |
| Net0.SplitOfJoin | internal/worker/worker.go:2076-2094 | splitting undoes joining for comma-free options |
| TableSort.ClicksAreStableSorts | frontend/src/main.ts:1886-1896 | after any run of header clicks the one multi-key sort shows what a sequence of single-key stable sorts of the screen would show |
| TableSort.ClickIsStableSortOfScreen | frontend/src/main.ts:1886-1896 | each click's full re-sort is a stable sort of what was on screen by the clicked key in its new direction |
| TableSort.ClickKeepsKeys | frontend/src/main.ts:1955-1965 | a click keeps keys distinct, drops none and makes the clicked one leading |
| TableSort.StableSortIsUnique | frontend/src/main.ts:1888-1888 | there is only one stable sort, so the engine's algorithm does not matter |
| TableSort.CompareChains | frontend/src/main.ts:1942-1949 | within one column the comparison is transitive, missing values last |
| TableSort.ScreenIsOrdered | frontend/src/main.ts:1886-1896 | the column clicked last runs upwards or downwards over the whole table: missing values last going up, smaller numbers first, No before Yes; rows that tie everywhere stand by VMID |
| TableSort.UnsortedIsNewestFirst | frontend/src/main.ts:1887-1887 | without a click the latest update comes first |
| TableSort.ClickMeans | frontend/src/main.ts:1951-1965 | a new column starts downwards if it shows times or loads, the leading one turns round, another keeps its direction, and the rest keep their order |
| TableSort.ValueMeans | frontend/src/main.ts:1906-1940 | what each column shows, and which may be missing |
| TableSort.CompareRows | frontend/src/main.ts:1888-1895 | the comparison loop computes the combined comparator |
| TableSort.PageState.ClickVmHeader | frontend/src/main.ts:3469-3472 | a click changes its own table's sort state only |
| TableSort.PageState.ClickAdminVmHeader | frontend/src/main.ts:3454-3457 | the same for the admin table |

## Left out

- HTTP, JSON, SQL drivers, sessions and logging: rows are datatypes holding the keys the code reads, and unreadable JSON in a row is not modelled.
- Checks that only look at syntax or identity (names, keys, SSH keys, CIDR text, sharing lists, UESTC flags): they enter a request as one flag, or as `visible`.
- `maintenance_tasks`: their rows; when an inventory scan is due is an input of the cycle. Template, node metric and VM metric scans touch none of the rows modelled here.
- More than one worker: stale recovery after half an hour assumes a single loop.
- The clock is monotone and shared by server and worker, and one timestamp stands for all statements of a transaction or a task body.
- Two transactions that compute the same MAX(seq) + 1: the unique index refuses the second; a transaction is one step here.
- Handlers read before they write in several statements; in the model one request is one step.
- DeleteProtocol.DeletesAreRequestedAndDue: over serial runs only, because the property is false at the finer grain (Restore.RestoreSafeExactlyAnytime says exactly when).
- WorkerLoop.Worker.SyncOnce: whether an inventory scan is due, and what PVE lists, are inputs; the rows of `maintenance_tasks` are not modelled, only that filling or reading them may fail and end the cycle.
- ApiServer.Server.HandlePatchVm: name, SSH keys and the other fields that only travel to PVE are one flag, and their syntax checks another.
- ApiServer.Server.HandleAdminPatchVm: addresses are compared as numbers, while the code compares their text.
- Provisioning.CreateOnPve: a clone that fails midway is not modelled as half done.
- Provisioning.MigrateVm: a migration that reports failure may have arrived; it is not modelled as half done.
- Firewall.EnsureIpSet: canonicalIPSetCIDR rests on Go's address parser and is an arbitrary function that is idempotent on the wanted entries.
- Firewall.RuleList.Apply: the order of rules after a POST is decided by PVE, so only their multiset is stated.
- Addressing.AddIPv4: 16-byte mapped addresses are converted before the loop in the code and are not modelled.
- Placement.BetterIsExact: reals instead of floating point, so rounding of the scores is not modelled.
- TableSort.ClicksAreStableSorts: localeCompare is an arbitrary total preorder on strings, and Date.parse has already turned the update time into a number.
- Claims the code does not support and that are therefore not made: a pending VM has a live task (a patched security group sets pending and queues nothing), a synced VM has an empty queue, a requested deletion always shows as deleting, addresses are globally unique after an admin edit.
