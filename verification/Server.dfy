/** The API handlers as the server runs them: checks in order, a local copy of the row edited field by field, and one
    transaction at the end. Each is proved to do to the tables exactly what `Handlers.Handle` decides. */
module ApiServer {
  import opened Records
  import opened TaskQueue
  import opened Machine
  import opened Handlers
  import opened Serial
  import opened Store
  import opened Allocation
  import Addressing
  import DeleteProtocol
  import Sets
  import Effects
  import Acceptance
  import Quotas

  datatype Answer = Accepted | Refused(reason: string)

  /** An accepted request commits its transaction and enters the history; a refused one changes nothing. */
  ghost predicate Answered(before: World, history: seq<Event>, db: Database, r: Request, now: Time, answer: Answer)
    reads db
  {
    match Handle(db.cfg, before.db, r, now)
    case Ok(tx) => answer == Accepted && db.Contents() == Commit(before.db, tx, now) && db.history == history + [Req(r, now)]
    case Err(reason) => answer == Refused(reason) && db.State() == before && db.history == history
  }

  class Server {
    const db: Database

    ghost predicate Ready(now: Time)
      reads this, db
    {
      db.Valid() && db.phase == Idle && db.clock <= now
    }

    constructor (db: Database)
      ensures this.db == db
    {
      this.db := db;
    }

    // ---- statements ----

    /** cancelVMTasksTx */
    method CancelVmTasks(id: int, now: Time)
      modifies db`rows
      ensures db.Contents() == old(db.Contents()).(queue := ApplyOp(old(db.Contents()).queue, OpCancelAll(id), now))
    {
      db.rows := CancelAll(db.rows, id, now);
    }

    method QueueTask(id: int, kind: Kind, payload: Payload, now: Time)
      modifies db`rows, db`nextTask
      ensures db.Contents() == old(db.Contents()).(queue := ApplyOp(old(db.Contents()).queue, OpEnqueue(id, kind, payload), now))
    {
      db.QueueVmTask(id, kind, payload, now);
    }

    /** UPDATE vms ... WHERE id, and one task after it, or two. */
    method UpdateAndQueue(id: int, vm: Vm, kind: Kind, payload: Payload, reboot: bool, now: Time)
      modifies db`vms, db`rows, db`nextTask
      ensures db.Contents() == Commit(old(db.Contents()),
                UpdateRow(old(db.Contents()), id, vm, [OpEnqueue(id, kind, payload)] + (if reboot then [OpEnqueue(id, Reboot, NoPayload)] else [])), now)
    {
      ghost var q := db.Contents().queue;
      db.vms := db.vms[id := vm];
      QueueTask(id, kind, payload, now);
      DeleteProtocol.OneOp(q, OpEnqueue(id, kind, payload), now);
      DeleteProtocol.TwoOps(q, OpEnqueue(id, kind, payload), OpEnqueue(id, Reboot, NoPayload), now);
      assert [OpEnqueue(id, kind, payload)] + [] == [OpEnqueue(id, kind, payload)];
      assert [OpEnqueue(id, kind, payload)] + [OpEnqueue(id, Reboot, NoPayload)] == [OpEnqueue(id, kind, payload), OpEnqueue(id, Reboot, NoPayload)];
      if reboot {
        QueueTask(id, Reboot, NoPayload, now);
      }
    }

    // ---- the delete protocol ----

    /** The row with the request and its deadline cleared and the old power wish back. */
    method WithoutDeletion(vm: Vm) returns (newRow: Vm)
      ensures newRow == vm.(sync := SyncPending, requestedAt := None, executeAfter := None, intent := IntentPresent,
                            power := OrElse(vm.powerBefore, PowerOn), powerBefore := None, preferAfter := None)
    {
      var restorePower := PowerOn;
      if vm.powerBefore.Some? {
        restorePower := vm.powerBefore.value;
      }
      newRow := vm.(intent := IntentPresent, power := restorePower, preferAfter := None, powerBefore := None);
      newRow := newRow.(sync := SyncPending, requestedAt := None, executeAfter := None);
    }

    /** The row with its deletion due now. */
    method WithDeletion(vm: Vm, now: Time) returns (newRow: Vm)
      ensures newRow == vm.(sync := SyncDeleting, requestedAt := Some(OrElse(vm.requestedAt, now)), executeAfter := Some(now),
                            intent := IntentDeletePending, power := PowerOff, powerBefore := Some(OrElse(vm.powerBefore, PowerOn)),
                            preferAfter := Some(now))
    {
      var prevPower := PowerOn;
      if vm.powerBefore.Some? {
        prevPower := vm.powerBefore.value;
      }
      var requestedAt := Coalesce(vm.requestedAt, now);
      newRow := vm.(intent := IntentDeletePending, power := PowerOff, powerBefore := Some(prevPower), preferAfter := Some(now),
                    sync := SyncDeleting, requestedAt := requestedAt, executeAfter := Some(now));
    }

    method HandleDeleteVm(actor: Actor, id: int, now: Time) returns (answer: Answer)
      requires Ready(now)
      modifies db
      ensures db.Valid() && db.phase == Idle
      ensures answer == Accepted <==> Acceptance.MayDelete(old(db.Contents()), actor, id)
      ensures Answered(old(db.State()), old(db.history), db, DeleteVm(actor, id), now, answer)
      ensures answer == Accepted ==> Effects.DeletionRequested(old(db.Contents()), db.Contents(), id, now)
    {
      hide History, ValidHistory, Effects.DeletionRequested, HandleCreate, HandlePatch, HandleAdopt, HandleSetIp;
      ghost var before := db.State();
      Acceptance.DeleteIsAllowed(before.db, actor, id, now);
      ValidIdsBelow(db);
      if id !in db.vms {
        return Refused("vm not found");
      }
      var vm := db.vms[id];
      if !actor.admin && actor.name != vm.owner {
        return Refused("permission denied");
      }
      if !vm.managed {
        return Refused("unmanaged vm cannot be deleted");
      }
      if vm.sync == SyncDeleting || vm.requestedAt.Some? {
        return Refused("vm is already pending deletion");
      }
      var execAt := now + DAY;
      vm := vm.(intent := IntentDeletePending, powerBefore := Some(vm.power), power := PowerOff, preferAfter := Some(execAt));
      vm := vm.(sync := SyncDeleting, requestedAt := Some(now), executeAfter := Some(execAt));
      db.vms := db.vms[id := vm];
      CancelVmTasks(id, now);
      QueueTask(id, Delete, DeletePayload(Some(execAt), false, false), now);
      DeleteProtocol.TwoOps(before.db.queue, OpCancelAll(id), OpEnqueue(id, Delete, DeletePayload(Some(execAt), false, false)), now);
      Effects.DeleteEffect(before.db, DeleteVm(actor, id), now);
      db.Record(before, Req(DeleteVm(actor, id), now));
      return Accepted;
    }

    method HandleRestoreVm(actor: Actor, id: int, now: Time) returns (answer: Answer)
      requires Ready(now)
      modifies db
      ensures db.Valid() && db.phase == Idle
      ensures answer == Accepted <==> Acceptance.MayUndelete(old(db.Contents()), actor, id)
      ensures Answered(old(db.State()), old(db.history), db, RestoreVm(actor, id), now, answer)
      ensures answer == Accepted ==> Effects.DeletionUndone(old(db.Contents()), db.Contents(), id)
    {
      hide History, ValidHistory, Effects.DeletionUndone, HandleCreate, HandlePatch, HandleAdopt, HandleSetIp;
      ghost var before := db.State();
      Acceptance.DeleteIsAllowed(before.db, actor, id, now);
      ValidIdsBelow(db);
      if id !in db.vms {
        return Refused("vm not found");
      }
      var vm := db.vms[id];
      if !actor.admin && actor.name != vm.owner {
        return Refused("permission denied");
      }
      if !vm.managed {
        return Refused("unmanaged vm cannot be restored");
      }
      if vm.sync != SyncDeleting && vm.requestedAt.None? {
        return Refused("vm is not pending deletion");
      }
      vm := WithoutDeletion(vm);
      db.vms := db.vms[id := vm];
      db.rows := CancelDeletes(db.rows, id, now);
      QueueTask(id, Apply, NoPayload, now);
      DeleteProtocol.TwoOps(before.db.queue, OpCancelDeletes(id), OpEnqueue(id, Apply, NoPayload), now);
      Effects.RestoreEffect(before.db, RestoreVm(actor, id), now);
      db.Record(before, Req(RestoreVm(actor, id), now));
      return Accepted;
    }

    method HandleDeleteNowVm(actor: Actor, id: int, now: Time) returns (answer: Answer)
      requires Ready(now)
      modifies db
      ensures db.Valid() && db.phase == Idle
      ensures answer == Accepted <==> Acceptance.MayUndelete(old(db.Contents()), actor, id)
      ensures Answered(old(db.State()), old(db.history), db, DeleteNowVm(actor, id), now, answer)
      ensures answer == Accepted ==> Effects.DeletionHastened(old(db.Contents()), db.Contents(), id, now)
    {
      hide History, ValidHistory, Effects.DeletionHastened, HandleCreate, HandlePatch, HandleAdopt, HandleSetIp;
      ghost var before := db.State();
      Acceptance.DeleteIsAllowed(before.db, actor, id, now);
      ValidIdsBelow(db);
      if id !in db.vms {
        return Refused("vm not found");
      }
      var vm := db.vms[id];
      if !actor.admin && actor.name != vm.owner {
        return Refused("permission denied");
      }
      if !vm.managed {
        return Refused("unmanaged vm cannot be deleted");
      }
      if vm.sync != SyncDeleting && vm.requestedAt.None? {
        return Refused("vm is not pending deletion");
      }
      vm := WithDeletion(vm, now);
      db.vms := db.vms[id := vm];
      CancelVmTasks(id, now);
      QueueTask(id, Delete, DeletePayload(Some(now), true, false), now);
      DeleteProtocol.TwoOps(before.db.queue, OpCancelAll(id), OpEnqueue(id, Delete, DeletePayload(Some(now), true, false)), now);
      Effects.DeleteNowEffect(before.db, DeleteNowVm(actor, id), now);
      db.Record(before, Req(DeleteNowVm(actor, id), now));
      return Accepted;
    }

    // ---- the queue ----

    method SetPaused(actor: Actor, id: int, paused: bool, now: Time) returns (answer: Answer)
      requires Ready(now)
      modifies db
      ensures db.Valid() && db.phase == Idle
      ensures answer == Accepted <==> Acceptance.Controls(old(db.Contents()), actor, id)
      ensures Answered(old(db.State()), old(db.history), db, if paused then PauseTasks(actor, id) else ResumeTasks(actor, id), now, answer)
      ensures answer == Accepted ==> Effects.PauseSet(old(db.Contents()), db.Contents(), id, paused)
    {
      hide History, ValidHistory, Effects.PauseSet, HandleCreate, HandlePatch, HandleAdopt, HandleSetIp;
      ghost var before := db.State();
      Acceptance.QueueControlIsAllowed(before.db, actor, id, paused, 0);
      if id !in db.vms {
        return Refused("vm not found");
      }
      var vm := db.vms[id];
      if !actor.admin && actor.name != vm.owner {
        return Refused("permission denied");
      }
      if !vm.managed {
        return Refused("unmanaged vm cannot pause or resume tasks");
      }
      db.vms := db.vms[id := vm.(paused := paused)];
      Effects.PauseEffect(before.db, actor, id, paused, now);
      db.Record(before, Req(if paused then PauseTasks(actor, id) else ResumeTasks(actor, id), now));
      return Accepted;
    }

    method HandleRetryVmTask(actor: Actor, id: int, task: int, now: Time) returns (answer: Answer)
      requires Ready(now)
      modifies db
      ensures db.Valid() && db.phase == Idle
      ensures answer == Accepted <==> Acceptance.MayRetry(old(db.Contents()), actor, id, task)
      ensures Answered(old(db.State()), old(db.history), db, RetryVmTask(actor, id, task), now, answer)
      ensures answer == Accepted ==> Effects.Retried(old(db.Contents()), db.Contents(), id, task)
    {
      hide History, ValidHistory, Effects.Retried, HandleCreate, HandlePatch, HandleAdopt, HandleSetIp;
      ghost var before := db.State();
      Acceptance.QueueControlIsAllowed(before.db, actor, id, true, task);
      ValidIdsBelow(db);
      if id !in db.vms {
        return Refused("vm not found");
      }
      var vm := db.vms[id];
      if !actor.admin && actor.name != vm.owner {
        return Refused("permission denied");
      }
      if !vm.managed {
        return Refused("unmanaged vm cannot retry tasks");
      }
      if task !in db.rows || db.rows[task].vm != id {
        return Refused("task not found");
      }
      if db.rows[task].status != Failed {
        return Refused("only failed tasks can be retried");
      }
      db.rows := RetryTask(db.rows, task, id, now);
      db.vms := db.vms[id := vm.(sync := if vm.requestedAt.Some? then SyncDeleting else SyncPending)];
      DeleteProtocol.OneOp(before.db.queue, OpRetry(task, id), now);
      Effects.RetryEffect(before.db, RetryVmTask(actor, id, task), now);
      db.Record(before, Req(RetryVmTask(actor, id, task), now));
      return Accepted;
    }

    method HandlePowerVm(visible: bool, id: int, power: Power, now: Time) returns (answer: Answer)
      requires Ready(now)
      modifies db
      ensures db.Valid() && db.phase == Idle
      ensures answer == Accepted <==> Acceptance.MayPower(old(db.Contents()), visible, id, power)
      ensures Answered(old(db.State()), old(db.history), db, PowerVm(visible, id, power), now, answer)
      ensures answer == Accepted ==> Effects.PowerRequested(old(db.Contents()), db.Contents(), id, power)
    {
      hide History, ValidHistory, Effects.PowerRequested, HandleCreate, HandlePatch, HandleAdopt, HandleSetIp;
      ghost var before := db.State();
      Acceptance.PowerIsAllowed(before.db, visible, id, power);
      ValidIdsBelow(db);
      if id !in db.vms {
        return Refused("vm not found");
      }
      var vm := db.vms[id];
      if !visible {
        return Refused("permission denied");
      }
      if !vm.managed {
        return Refused("unmanaged vm cannot be modified");
      }
      if vm.sync == SyncDeleting || vm.requestedAt.Some? {
        return Refused("vm is pending deletion");
      }
      if power != PowerOn && power != PowerOff && power != PowerReboot {
        return Refused("invalid power");
      }
      vm := vm.(power := power, sync := SyncPending);
      db.vms := db.vms[id := vm];
      QueueTask(id, PowerChange, PowerPayload(power), now);
      DeleteProtocol.OneOp(before.db.queue, OpEnqueue(id, PowerChange, PowerPayload(power)), now);
      Effects.PowerEffect(before.db, PowerVm(visible, id, power), now);
      db.Record(before, Req(PowerVm(visible, id, power), now));
      return Accepted;
    }

    // ---- creating, patching and adopting ----

    method CheckCreateForm(r: Request) returns (refusal: Option<string>)
      requires r.CreateVm?
      ensures refusal == CreateForm(db.cfg, r)
    {
      if !r.formOk {
        return Some("invalid request");
      }
      if r.cores <= 0 || r.memory <= 0 || r.disk <= 0 {
        return Some("cpu_cores, memory_gb and disk_gb must be positive");
      }
      if r.disk < 20 {
        return Some("disk_gb must be at least 20");
      }
      if r.power != PowerOn && r.power != PowerOff {
        return Some("power must be running or stopped");
      }
      if r.cluster !in db.cfg.clusters {
        return Some("unknown cluster");
      }
      var cluster := db.cfg.clusters[r.cluster];
      if r.cpuKey !in cluster.cpus {
        return Some("unknown cpu_key");
      }
      if r.storageKey !in cluster.storages {
        return Some("unknown storage_key");
      }
      if r.bridgeKey !in cluster.bridges {
        return Some("unknown bridge_key");
      }
      if r.cores > cluster.cpus[r.cpuKey].limit || r.memory > cluster.cpus[r.cpuKey].memoryLimit || r.disk > cluster.storages[r.storageKey] {
        return Some("requested resources exceed selected cluster option limit");
      }
      return None;
    }

    method CheckCreateClaim(r: Request) returns (refusal: Option<string>)
      requires r.CreateVm?
      ensures refusal == CreateClaim(db.cfg, db.Contents(), r)
    {
      hide UsageBelow;
      if r.template == None {
        return Some("template not found");
      }
      if Group(r.user, r.group) !in db.groups {
        return Some("security group not found or not owned by user");
      }
      var quota := QuotaOf(db.cfg, r.user);
      if quota.number <= 0 || quota.cpu <= 0 || quota.memory <= 0 || quota.storage <= 0 || quota.groups <= 0 {
        return Some("user quota is not configured");
      }
      var count, usedCpu, usedMemory, usedStorage := ListUserVmUsage(db.Contents(), r.user);
      if count + 1 > quota.number || usedCpu + r.cores > quota.cpu || usedMemory + r.memory > quota.memory || usedStorage + r.disk > quota.storage {
        return Some("quota exceeded");
      }
      return None;
    }

    /** The checks of handleCreateVM up to the quota test. */
    method CheckCreate(r: Request) returns (refusal: Option<string>)
      requires r.CreateVm?
      ensures refusal == CreateRefusal(db.cfg, db.Contents(), r)
    {
      refusal := CheckCreateForm(r);
      if refusal == None {
        refusal := CheckCreateClaim(r);
      }
    }

    /** The allocations of handleCreateVM: VMID, address, node. */
    method AllocateVm(r: Request) returns (d: Result<Vm>)
      requires r.CreateVm? && CreateRefusal(db.cfg, db.Contents(), r) == None
      ensures d == CreatedRow(db.cfg, db.Contents(), r)
      ensures d.Ok? ==>
                && r.bridgeKey in db.cfg.clusters[r.cluster].bridges
                && Acceptance.Allocatable(db.cfg, db.Contents(), r.cluster, r.bridgeKey, d.value.vmid)
                && d.value.ip == Acceptance.AddressOf(db.cfg.clusters[r.cluster], r.bridgeKey, d.value.vmid)
    {
      var cluster := db.cfg.clusters[r.cluster];
      var vmid := NextClusterVmid(db.Contents(), r.cluster, cluster.startVmid, cluster.limit);
      if vmid.Err? {
        return Err(vmid.reason);
      }
      var ip := Addressing.DeriveAddress(cluster, r.bridgeKey, vmid.value);
      if ip.Err? {
        return Err(ip.reason);
      }
      var target := ChoosePlacementNode(db.Contents(), r.cluster, cluster.cpus[r.cpuKey], r.cores, r.memory, r.template.value);
      return Ok(Vm(r.user, r.cluster, vmid.value, "", target, ip.value, r.group, r.cpuKey, r.storageKey, r.bridgeKey,
                   r.cores, r.memory, r.disk, false, true, false, SyncPending, IntentPresent, r.power, None, None,
                   PowerUnknown, None, None, None));
    }

    method HandleCreateVm(r: Request, now: Time) returns (answer: Answer)
      requires Ready(now) && r.CreateVm?
      modifies db
      ensures db.Valid() && db.phase == Idle
      ensures answer == Accepted <==> Acceptance.MayCreate(db.cfg, old(db.Contents()), r)
      ensures Answered(old(db.State()), old(db.history), db, r, now, answer)
      ensures answer == Accepted ==> Effects.CreatedVm(db.cfg, old(db.Contents()), db.Contents(), r)
    {
      hide History, ValidHistory, CreateRefusal, CreatedRow, Effects.CreatedVm, HandlePatch, HandleAdopt, HandleSetIp;
      ghost var before := db.State();
      Acceptance.CreateIsAllowed(db.cfg, before.db, r);
      ValidIdsBelow(db);
      ValidRows(db);
      var refusal := CheckCreate(r);
      if refusal.Some? {
        return Refused(refusal.value);
      }
      var vm := AllocateVm(r);
      if vm.Err? {
        return Refused(vm.reason);
      }
      var id := db.nextVm;
      db.vms := db.vms[id := vm.value];
      db.nextVm := id + 1;
      QueueTask(id, Provision, NoPayload, now);
      DeleteProtocol.OneOp(before.db.queue, OpEnqueue(id, Provision, NoPayload), now);
      Effects.CreateEffect(db.cfg, before.db, r, now);
      db.Record(before, Req(r, now));
      return Accepted;
    }

    /** The quota test of handlePatchVM: the new owner's sums, less the old row, plus the new one. */
    method CheckPatchedQuota(vm: Vm, newRow: Vm) returns (refusal: Option<string>)
      ensures refusal == QuotaRefusal(db.cfg, db.Contents(), vm, newRow)
      ensures forall id :: 0 <= id < db.nextVm && id in db.vms && db.vms[id] == vm && CountsFor(vm, newRow.owner) && CountsFor(newRow, newRow.owner) ==>
                var over := Over(UsageBelow(db.vms[id := newRow], newRow.owner, db.nextVm), QuotaOf(db.cfg, newRow.owner));
                (refusal == None ==> !over) && (refusal == Some("quota exceeded") ==> over)
    {
      forall id | 0 <= id < db.nextVm && id in db.vms && db.vms[id] == vm
        ensures CountsFor(vm, newRow.owner) && CountsFor(newRow, newRow.owner) ==>
                  UsageBelow(db.vms[id := newRow], newRow.owner, db.nextVm) == PatchedUsage(db.Contents(), vm, newRow)
      {
        Quotas.UsageAfterUpdate(db.vms, newRow.owner, id, newRow, db.nextVm);
      }
      hide UsageBelow;
      if vm.cluster !in db.cfg.clusters {
        return Some("unknown cluster");
      }
      var cluster := db.cfg.clusters[vm.cluster];
      if vm.cpuKey in cluster.cpus && newRow.cores > cluster.cpus[vm.cpuKey].limit {
        return Some("cpu_cores exceed cluster option limit");
      }
      if vm.cpuKey in cluster.cpus && newRow.memory > cluster.cpus[vm.cpuKey].memoryLimit {
        return Some("memory_gb exceed cluster option limit");
      }
      if newRow.storageKey in cluster.storages && newRow.disk > cluster.storages[newRow.storageKey] {
        return Some("disk_gb exceed cluster option limit");
      }
      var quota := QuotaOf(db.cfg, newRow.owner);
      var count, usedCpu, usedMemory, usedStorage := ListUserVmUsage(db.Contents(), newRow.owner);
      count := count - 1;
      usedCpu := usedCpu - vm.cores;
      usedMemory := usedMemory - vm.memory;
      usedStorage := usedStorage - vm.disk;
      count := count + 1;
      usedCpu := usedCpu + newRow.cores;
      usedMemory := usedMemory + newRow.memory;
      usedStorage := usedStorage + newRow.disk;
      if count > quota.number || usedCpu > quota.cpu || usedMemory > quota.memory || usedStorage > quota.storage {
        return Some("quota exceeded");
      }
      return None;
    }

    /** The copy of the row that handlePatchVM edits field by field, and whether it needs a reboot. */
    method EditRow(r: Request, vm: Vm) returns (newRow: Vm, reboot: bool)
      requires r.PatchVm?
      ensures newRow == PatchedRow(r, vm) && reboot == PatchReboots(r, vm)
    {
      var owner, group, storageKey := vm.owner, vm.group, vm.storageKey;
      var cores, memory, disk := vm.cores, vm.memory, vm.disk;
      var rebootNeeded := r.reboot;
      if r.newOwner.Some? {
        owner := r.newOwner.value;
      }
      if r.newGroup.Some? {
        group := r.newGroup.value;
      }
      if r.newStorage.Some? {
        storageKey := r.newStorage.value;
      }
      if r.newCores.Some? {
        cores := r.newCores.value;
        rebootNeeded := true;
      }
      if r.newMemory.Some? {
        memory := r.newMemory.value;
        rebootNeeded := true;
      }
      if r.newDisk.Some? {
        disk := r.newDisk.value;
        rebootNeeded := true;
      }
      newRow := vm.(owner := owner, group := group, storageKey := storageKey, cores := cores, memory := memory, disk := disk, sync := SyncPending);
      reboot := rebootNeeded && vm.realPower == PowerOn;
    }

    method CheckPatchAccess(r: Request) returns (refusal: Option<string>)
      requires r.PatchVm?
      ensures refusal == Handlers.PatchAccess(db.cfg, db.Contents(), r)
    {
      if r.vm !in db.vms {
        return Some("vm not found");
      }
      var vm := db.vms[r.vm];
      if !r.actor.admin && r.actor.name != vm.owner {
        return Some("permission denied");
      }
      if !vm.managed {
        return Some("unmanaged vm cannot be modified");
      }
      if vm.sync == SyncDeleting || vm.requestedAt.Some? {
        return Some("vm is pending deletion");
      }
      if !r.formOk {
        return Some("invalid request");
      }
      if r.newOwner.Some? {
        if !r.actor.admin {
          return Some("permission denied");
        }
        if r.newOwner.value !in db.cfg.quotas {
          return Some("owner user not found");
        }
      }
      return None;
    }

    method CheckPatchFields(r: Request, vm: Vm) returns (refusal: Option<string>)
      requires r.PatchVm?
      ensures refusal == Handlers.PatchFields(db.cfg, db.Contents(), r, vm)
    {
      hide QuotaRefusal, PatchReboots;
      var changed := r.other;
      var newRow, _ := EditRow(r, vm);
      if r.newOwner.Some? {
        if r.newGroup == None && Group(newRow.owner, vm.group) !in db.groups {
          return Some("current security group not found for new owner");
        }
        changed := true;
      }
      if r.newGroup.Some? {
        if Group(newRow.owner, newRow.group) !in db.groups {
          return Some("security group not found or not owned by owner");
        }
        changed := true;
      }
      var resizes := r.newStorage.Some? || r.newCores.Some? || r.newMemory.Some? || r.newDisk.Some?;
      if !changed && !resizes {
        return Some("no changes requested");
      }
      if resizes {
        if vm.cluster !in db.cfg.clusters {
          return Some("unknown cluster");
        }
        if r.newStorage.Some? && r.newStorage.value !in db.cfg.clusters[vm.cluster].storages {
          return Some("unknown storage_key");
        }
        if r.newDisk.Some? && r.newDisk.value < vm.disk {
          return Some("disk_gb can only increase");
        }
      }
      if !vm.exempt && (resizes || r.newOwner.Some?) {
        refusal := CheckPatchedQuota(vm, newRow);
        return;
      }
      return None;
    }

    method CheckPatch(r: Request) returns (refusal: Option<string>)
      requires r.PatchVm?
      ensures refusal == PatchRefusal(db.cfg, db.Contents(), r)
    {
      refusal := CheckPatchAccess(r);
      if refusal == None {
        refusal := CheckPatchFields(r, db.vms[r.vm]);
      }
    }

    method EditVm(r: Request, now: Time) returns (answer: Answer)
      requires Ready(now) && r.PatchVm?
      modifies db
      ensures db.Valid() && db.phase == Idle
      ensures answer == Accepted <==> Acceptance.MayPatch(db.cfg, old(db.Contents()), r)
      ensures Answered(old(db.State()), old(db.history), db, r, now, answer)
      ensures answer == Accepted ==> Effects.Patched(old(db.Contents()), db.Contents(), r)
    {
      hide History, ValidHistory, PatchRefusal, PatchedRow, PatchReboots, Effects.Patched, HandleCreate, HandleAdopt,
           HandleSetIp;
      ghost var before := db.State();
      Acceptance.PatchIsAllowed(db.cfg, before.db, r);
      ValidIdsBelow(db);
      var refusal := CheckPatch(r);
      if refusal.Some? {
        return Refused(refusal.value);
      }
      var newRow, reboot := EditRow(r, db.vms[r.vm]);
      UpdateAndQueue(r.vm, newRow, Apply, NoPayload, reboot, now);
      Effects.PatchEffect(db.cfg, before.db, r, now);
      db.Record(before, Req(r, now));
      return Accepted;
    }

    predicate Changes(r: Request)
      requires r.PatchVm?
    {
      r.other || r.newOwner.Some? || r.newGroup.Some? || Resizes(r)
    }

    /** handlePatchVM. A power field goes the way of the power action, and only alone. */
    method HandlePatchVm(r: Request, power: Option<Power>, visible: bool, now: Time) returns (answer: Answer)
      requires Ready(now) && r.PatchVm?
      modifies db
      ensures db.Valid() && db.phase == Idle
      ensures power == None ==> (answer == Accepted <==> Acceptance.MayPatch(db.cfg, old(db.Contents()), r))
      ensures power.Some? ==> (answer == Accepted <==> !Changes(r) && Acceptance.MayPower(old(db.Contents()), visible, r.vm, power.value))
      ensures power == None ==> Answered(old(db.State()), old(db.history), db, r, now, answer)
      ensures power == None && answer == Accepted ==> Effects.Patched(old(db.Contents()), db.Contents(), r)
      ensures power.Some? && Changes(r) ==> answer.Refused? && db.State() == old(db.State())
      ensures power.Some? && !Changes(r) ==> Answered(old(db.State()), old(db.history), db, PowerVm(visible, r.vm, power.value), now, answer)
    {
      hide History, ValidHistory, Handle, Effects.Patched, Effects.PowerRequested;
      if power.None? {
        answer := EditVm(r, now);
      } else if Changes(r) {
        if r.vm !in db.vms {
          return Refused("vm not found");
        }
        if !visible {
          return Refused("permission denied");
        }
        return Refused("power changes must use the dedicated power actions");
      } else {
        answer := HandlePowerVm(visible, r.vm, power.value, now);
      }
    }

    method CheckAdopt(r: Request) returns (refusal: Option<string>)
      requires r.AdoptVm?
      ensures refusal == AdoptRefusal(db.cfg, db.Contents(), r)
    {
      hide UsageBelow;
      if r.vm !in db.vms {
        return Some("vm not found");
      }
      var vm := db.vms[r.vm];
      if vm.managed {
        return Some("vm is already managed");
      }
      if vm.sync == SyncDeleting || vm.requestedAt.Some? {
        return Some("vm is pending deletion");
      }
      if !r.formOk {
        return Some("invalid request");
      }
      if r.user !in db.cfg.quotas {
        return Some("owner user not found");
      }
      if r.cores <= 0 || r.memory <= 0 || r.disk <= 0 {
        return Some("cpu_cores, memory_gb and disk_gb must be positive");
      }
      if r.disk < 20 {
        return Some("disk_gb must be at least 20");
      }
      if vm.cluster !in db.cfg.clusters {
        return Some("unknown cluster");
      }
      var cluster := db.cfg.clusters[vm.cluster];
      if r.cpuKey !in cluster.cpus {
        return Some("unknown cpu_key");
      }
      if r.storageKey !in cluster.storages {
        return Some("unknown storage_key");
      }
      if r.bridgeKey !in cluster.bridges {
        return Some("unknown bridge_key");
      }
      if r.cores > cluster.cpus[r.cpuKey].limit || r.memory > cluster.cpus[r.cpuKey].memoryLimit || r.disk > cluster.storages[r.storageKey] {
        return Some("requested resources exceed selected cluster option limit");
      }
      var quota := db.cfg.quotas[r.user];
      var count, usedCpu, usedMemory, usedStorage := ListUserVmUsage(db.Contents(), r.user);
      count := count + 1;
      usedCpu := usedCpu + r.cores;
      usedMemory := usedMemory + r.memory;
      usedStorage := usedStorage + r.disk;
      if count > quota.number || usedCpu > quota.cpu || usedMemory > quota.memory || usedStorage > quota.storage {
        return Some("quota exceeded");
      }
      if r.power != PowerOn && r.power != PowerOff && r.power != PowerReboot {
        return Some("invalid power");
      }
      var sgOwner := r.groupOwner;
      if sgOwner == "" {
        sgOwner := r.user;
      }
      if Group(sgOwner, r.group) !in db.groups {
        return Some("security group not found or not owned by owner");
      }
      return None;
    }

    method HandleAdminAdoptVm(r: Request, now: Time) returns (answer: Answer)
      requires Ready(now) && r.AdoptVm?
      modifies db
      ensures db.Valid() && db.phase == Idle
      ensures answer == Accepted <==> Acceptance.MayAdopt(db.cfg, old(db.Contents()), r)
      ensures Answered(old(db.State()), old(db.history), db, r, now, answer)
      ensures answer == Accepted ==> Effects.Adopted(db.cfg, old(db.Contents()), db.Contents(), r)
    {
      hide History, ValidHistory, AdoptRefusal, Effects.Adopted, HandleCreate, HandlePatch, HandleSetIp;
      ghost var before := db.State();
      Acceptance.AdoptIsAllowed(db.cfg, before.db, r);
      ValidIdsBelow(db);
      ValidRows(db);
      var refusal := CheckAdopt(r);
      if refusal.Some? {
        return Refused(refusal.value);
      }
      var vm := db.vms[r.vm];
      var rebootNeeded := vm.realPower == PowerOn && r.power == PowerOn;
      vm := vm.(owner := r.user, ip := r.ip, group := r.group, cpuKey := r.cpuKey, storageKey := r.storageKey, bridgeKey := r.bridgeKey,
                cores := r.cores, memory := r.memory, disk := r.disk, exempt := false);
      vm := vm.(managed := true, sync := SyncPending, requestedAt := None, executeAfter := None,
                intent := IntentPresent, power := r.power, powerBefore := None, preferAfter := None);
      UpdateAndQueue(r.vm, vm, Apply, NoPayload, rebootNeeded, now);
      Effects.AdoptEffect(db.cfg, before.db, r, now);
      db.Record(before, Req(r, now));
      return Accepted;
    }

    // ---- admin ----

    /** handleAdminPatchVM */
    method HandleAdminPatchVm(id: int, ip: Cidr, now: Time) returns (answer: Answer)
      requires Ready(now)
      modifies db
      ensures db.Valid() && db.phase == Idle
      ensures answer == Accepted <==> Acceptance.MaySetIp(db.cfg, old(db.Contents()), id, ip)
      ensures Answered(old(db.State()), old(db.history), db, AdminSetIp(id, ip), now, answer)
      ensures answer == Accepted ==> Effects.AddressSet(old(db.Contents()), db.Contents(), id, ip)
    {
      hide History, ValidHistory, Effects.AddressSet, HandleCreate, HandlePatch, HandleAdopt;
      ghost var before := db.State();
      Acceptance.AdminIsAllowed(db.cfg, before.db, id, ip, true);
      ValidIdsBelow(db);
      if id !in db.vms {
        return Refused("vm not found");
      }
      var vm := db.vms[id];
      if !vm.managed {
        return Refused("unmanaged vm ip cannot be modified");
      }
      if vm.sync == SyncDeleting || vm.requestedAt.Some? {
        return Refused("vm is pending deletion");
      }
      if vm.cluster !in db.cfg.clusters {
        return Refused("unknown cluster");
      }
      if db.cfg.clusters[vm.cluster].bridges == map[] {
        return Refused("cluster has no bridge");
      }
      if exists other :: other in db.vms && other != id && Active(db.vms[other]) && db.vms[other].cluster == vm.cluster && db.vms[other].ip == ip {
        return Refused("ip already used");
      }
      var reboot := vm.realPower == PowerOn;
      vm := vm.(ip := ip);
      vm := vm.(sync := SyncPending);
      UpdateAndQueue(id, vm, Apply, NoPayload, reboot, now);
      Effects.AddressEffect(db.cfg, before.db, AdminSetIp(id, ip), now);
      db.Record(before, Req(AdminSetIp(id, ip), now));
      return Accepted;
    }

    method HandleAdminSetQuotaExempt(id: int, exempt: bool, now: Time) returns (answer: Answer)
      requires Ready(now)
      modifies db
      ensures db.Valid() && db.phase == Idle
      ensures answer == Accepted <==> Acceptance.MayExempt(old(db.Contents()), id)
      ensures Answered(old(db.State()), old(db.history), db, AdminSetExempt(id, exempt), now, answer)
      ensures answer == Accepted ==> Effects.ExemptionSet(old(db.Contents()), db.Contents(), id, exempt)
    {
      hide History, ValidHistory, Effects.ExemptionSet, HandleCreate, HandlePatch, HandleAdopt, HandleSetIp;
      ghost var before := db.State();
      Acceptance.AdminIsAllowed(db.cfg, before.db, id, Cidr(0, 0), exempt);
      ValidIdsBelow(db);
      if id !in db.vms {
        return Refused("vm not found");
      }
      var vm := db.vms[id];
      if vm.sync == SyncDeleting || vm.requestedAt.Some? {
        return Refused("vm is pending deletion");
      }
      if vm.exempt == exempt {
        assert db.vms[id := vm] == db.vms;
        Effects.ExemptionEffect(before.db, AdminSetExempt(id, exempt), now);
        db.Record(before, Req(AdminSetExempt(id, exempt), now));
        return Accepted;
      }
      vm := vm.(exempt := exempt);
      if vm.managed {
        vm := vm.(sync := SyncPending);
      }
      db.vms := db.vms[id := vm];
      if vm.managed {
        QueueTask(id, Apply, NoPayload, now);
        DeleteProtocol.OneOp(before.db.queue, OpEnqueue(id, Apply, NoPayload), now);
      }
      Effects.ExemptionEffect(before.db, AdminSetExempt(id, exempt), now);
      db.Record(before, Req(AdminSetExempt(id, exempt), now));
      return Accepted;
    }

    // ---- security groups ----

    method HandleCreateSecurityGroup(user: string, name: string, now: Time) returns (answer: Answer)
      requires Ready(now)
      modifies db
      ensures db.Valid() && db.phase == Idle
      ensures answer == Accepted <==> Acceptance.MayCreateGroup(db.cfg, old(db.Contents()), user, name)
      ensures Answered(old(db.State()), old(db.history), db, CreateGroup(user, name), now, answer)
      ensures answer == Accepted ==> Effects.GroupCreated(db.cfg, old(db.Contents()), db.Contents(), user, name)
    {
      hide History, ValidHistory, Effects.GroupCreated, HandleCreate, HandlePatch, HandleAdopt, HandleSetIp;
      ghost var before := db.State();
      Acceptance.GroupIsAllowed(db.cfg, before.db, user, name);
      var quota := QuotaOf(db.cfg, user);
      if quota.groups <= 0 {
        return Refused("security group quota not configured");
      }
      var owned := OwnedGroups(db.Contents(), user);
      if |owned| + 1 > quota.groups {
        return Refused("security group quota exceeded");
      }
      if Group(user, name) in db.groups {
        return Refused("duplicate key");
      }
      db.groups := db.groups + {Group(user, name)};
      Effects.GroupCreateEffect(db.cfg, before.db, CreateGroup(user, name), now);
      db.Record(before, Req(CreateGroup(user, name), now));
      return Accepted;
    }

    method HandlePatchSecurityGroup(user: string, name: string, now: Time) returns (answer: Answer)
      requires Ready(now)
      modifies db
      ensures db.Valid() && db.phase == Idle
      ensures answer == Accepted <==> Group(user, name) in old(db.groups)
      ensures Answered(old(db.State()), old(db.history), db, PatchGroup(user, name), now, answer)
      ensures answer == Accepted ==> Effects.GroupPatched(old(db.Contents()), db.Contents(), user, name)
    {
      hide History, ValidHistory, Effects.GroupPatched, HandleCreate, HandlePatch, HandleAdopt, HandleSetIp;
      ghost var before := db.State();
      Acceptance.GroupIsAllowed(db.cfg, before.db, user, name);
      if Group(user, name) !in db.groups {
        return Refused("security group not found");
      }
      db.vms := map id | id in db.vms :: if UsesGroup(db.vms[id], user, name) then db.vms[id].(sync := SyncPending) else db.vms[id];
      Effects.GroupPatchEffect(before.db, PatchGroup(user, name), now);
      db.Record(before, Req(PatchGroup(user, name), now));
      return Accepted;
    }

    /** The reference count of handleDeleteSecurityGroup. */
    method InUse(user: string, name: string) returns (used: bool)
      ensures used <==> exists id :: id in db.vms && db.vms[id].owner == user && db.vms[id].group == name && Active(db.vms[id])
    {
      var users := set id | id in db.vms && db.vms[id].owner == user && db.vms[id].group == name && Active(db.vms[id]);
      used := |users| > 0;
      if used {
        ghost var one := Sets.Pick(users);
        assert one in db.vms && db.vms[one].owner == user;
      } else {
        assert forall id :: id in db.vms && db.vms[id].owner == user && db.vms[id].group == name && Active(db.vms[id]) ==> id in users;
      }
    }

    method HandleDeleteSecurityGroup(user: string, name: string, now: Time) returns (answer: Answer)
      requires Ready(now)
      modifies db
      ensures db.Valid() && db.phase == Idle
      ensures answer == Accepted <==> Acceptance.MayDeleteGroup(old(db.Contents()), user, name)
      ensures Answered(old(db.State()), old(db.history), db, DeleteGroup(user, name), now, answer)
      ensures answer == Accepted ==> Effects.GroupDeleted(old(db.Contents()), db.Contents(), user, name)
    {
      hide History, ValidHistory, Effects.GroupDeleted, HandleCreate, HandlePatch, HandleAdopt, HandleSetIp;
      ghost var before := db.State();
      Acceptance.GroupIsAllowed(db.cfg, before.db, user, name);
      var used := InUse(user, name);
      if used {
        return Refused("security group is still in use");
      }
      if Group(user, name) !in db.groups {
        return Refused("security group not found");
      }
      db.groups := db.groups - {Group(user, name)};
      Effects.GroupDeleteEffect(before.db, DeleteGroup(user, name), now);
      db.Record(before, Req(DeleteGroup(user, name), now));
      return Accepted;
    }
  }
}
