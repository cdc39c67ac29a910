/** What an accepted request has done, in terms of what a user of the API sees: rows, open tasks, deadlines. */
module Effects {
  import opened Records
  import opened TaskQueue
  import opened Machine
  import opened Handlers
  import opened Allocation
  import Acceptance
  import Addressing
  import DeleteProtocol
  import QueueOrder
  import Quotas
  import Statements
  import Tenancy

  /** Nothing but one VM and its tasks has changed. */
  ghost predicate OnlyConcerns(a: Db, b: Db, vm: int) {
    && b.groups == a.groups
    && (forall id :: id in a.vms && id != vm ==> id in b.vms && b.vms[id] == a.vms[id])
    && (forall id :: id in b.vms && id != vm ==> id in a.vms)
    && (forall t :: t in a.queue.rows && a.queue.rows[t].vm != vm ==> t in b.queue.rows && b.queue.rows[t] == a.queue.rows[t])
    && (forall t :: t in b.queue.rows && b.queue.rows[t].vm != vm ==> t in a.queue.rows)
  }

  /** Every known task is as it was, and one pending task of each kind has joined the end of the VM's queue, in order. */
  ghost predicate Joins(a: Queue, b: Queue, vm: int, kinds: seq<Kind>) {
    && (forall t :: t in a.rows ==> t in b.rows && b.rows[t] == a.rows[t])
    && (forall t :: t in b.rows && t !in a.rows ==> a.nextId <= t < a.nextId + |kinds|)
    && (forall k :: 0 <= k < |kinds| ==> JoinsAt(a, b, vm, kinds[k], a.nextId + k))
  }

  ghost predicate JoinsAt(a: Queue, b: Queue, vm: int, kind: Kind, t: int) {
    && t in b.rows && b.rows[t].vm == vm && b.rows[t].kind == kind && b.rows[t].status == Pending && b.rows[t].attempts == 0
    && forall j :: j in b.rows && j < t && b.rows[j].vm == vm ==> b.rows[j].seqNo < b.rows[t].seqNo
  }

  /** `t` is the only open task of the VM, a pending delete that comes last in its queue. */
  ghost predicate OnlyDelete(q: Queue, vm: int, t: int, payload: Payload) {
    && t in q.rows && q.rows[t].vm == vm && q.rows[t].kind == Delete && q.rows[t].status == Pending && q.rows[t].payload == payload
    && (forall j :: j in q.rows && j != t && q.rows[j].vm == vm ==> Settled(q.rows[j]) && q.rows[j].seqNo < q.rows[t].seqNo)
  }

  /** What the VM had in its queue is still there: open tasks canceled, settled ones as they were. */
  ghost predicate AllCanceled(a: Queue, b: Queue, vm: int) {
    forall t :: t in a.rows && a.rows[t].vm == vm ==>
      t in b.rows && if Statements.OpenStatus(a.rows[t].status) then Statements.CanceledCopy(a.rows[t], b.rows[t]) else b.rows[t] == a.rows[t]
  }

  // ---- deleting and restoring ----

  /** Of a row nothing but what belongs to its deletion has changed. */
  predicate SameButDeletion(v: Vm, v': Vm) {
    v' == v.(sync := v'.sync, intent := v'.intent, power := v'.power, powerBefore := v'.powerBefore, preferAfter := v'.preferAfter,
             requestedAt := v'.requestedAt, executeAfter := v'.executeAfter)
  }

  /** The deletion is due in 24 hours, exactly one task of the VM is open, and the wish it had before is remembered. */
  ghost predicate DeletionRequested(a: Db, b: Db, vm: int, now: Time) {
    && OnlyConcerns(a, b, vm) && vm in a.vms && vm in b.vms
    && b.vms[vm].requestedAt == Some(now) && b.vms[vm].executeAfter == Some(now + DAY)
    && b.vms[vm].sync == SyncDeleting && SameButDeletion(a.vms[vm], b.vms[vm])
    && b.vms[vm].powerBefore == Some(a.vms[vm].power) && b.vms[vm].power == PowerOff
    && b.vms[vm].intent == IntentDeletePending && b.vms[vm].preferAfter == Some(now + DAY)
    && AllCanceled(a.queue, b.queue, vm)
    && OnlyDelete(b.queue, vm, a.queue.nextId, DeletePayload(Some(now + DAY), false, false))
  }

  lemma DeleteEffect(db: Db, r: Request, now: Time)
    requires QueueOrder.IdsBelow(db.queue) && r.DeleteVm? && HandleDelete(db, r, now).Ok?
    ensures DeletionRequested(db, Commit(db, HandleDelete(db, r, now).value, now), r.vm, now)
  {
    DeleteProtocol.TwoOps(db.queue, OpCancelAll(r.vm), OpEnqueue(r.vm, Delete, DeletePayload(Some(now + DAY), false, false)), now);
  }

  /** The deadline is now, the time of the first request stays. */
  ghost predicate DeletionHastened(a: Db, b: Db, vm: int, now: Time) {
    && OnlyConcerns(a, b, vm) && vm in a.vms && vm in b.vms
    && b.vms[vm].requestedAt == Coalesce(a.vms[vm].requestedAt, now) && b.vms[vm].executeAfter == Some(now)
    && b.vms[vm].sync == SyncDeleting && SameButDeletion(a.vms[vm], b.vms[vm])
    && b.vms[vm].powerBefore == Some(if a.vms[vm].powerBefore.Some? then a.vms[vm].powerBefore.value else PowerOn) && b.vms[vm].power == PowerOff
    && b.vms[vm].intent == IntentDeletePending && b.vms[vm].preferAfter == Some(now)
    && AllCanceled(a.queue, b.queue, vm)
    && OnlyDelete(b.queue, vm, a.queue.nextId, DeletePayload(Some(now), true, false))
  }

  lemma DeleteNowEffect(db: Db, r: Request, now: Time)
    requires QueueOrder.IdsBelow(db.queue) && r.DeleteNowVm? && HandleDeleteNow(db, r, now).Ok?
    ensures DeletionHastened(db, Commit(db, HandleDeleteNow(db, r, now).value, now), r.vm, now)
  {
    DeleteProtocol.TwoOps(db.queue, OpCancelAll(r.vm), OpEnqueue(r.vm, Delete, DeletePayload(Some(now), true, false)), now);
  }

  /** The request is gone and the old power wish is back; pending and running deletes are canceled, everything else that was
      queued, failed deletes included, is left as it is; one apply task follows. */
  ghost predicate DeletionUndone(a: Db, b: Db, vm: int) {
    && OnlyConcerns(a, b, vm) && vm in a.vms && vm in b.vms
    && b.vms[vm].requestedAt == None && b.vms[vm].executeAfter == None && b.vms[vm].preferAfter == None
    && b.vms[vm].powerBefore == None && b.vms[vm].intent == IntentPresent && b.vms[vm].sync == SyncPending && SameButDeletion(a.vms[vm], b.vms[vm])
    && b.vms[vm].power == OrElse(a.vms[vm].powerBefore, PowerOn)
    && (forall t :: t in a.queue.rows && a.queue.rows[t].vm == vm ==>
          && t in b.queue.rows
          && if a.queue.rows[t].kind == Delete && (a.queue.rows[t].status == Pending || a.queue.rows[t].status == Running)
             then Statements.CanceledCopy(a.queue.rows[t], b.queue.rows[t]) else b.queue.rows[t] == a.queue.rows[t])
    && (forall t :: t in b.queue.rows && t !in a.queue.rows ==> t == a.queue.nextId)
    && JoinsAt(a.queue, b.queue, vm, Apply, a.queue.nextId)
  }

  lemma RestoreEffect(db: Db, r: Request, now: Time)
    requires QueueOrder.IdsBelow(db.queue) && r.RestoreVm? && HandleRestore(db, r).Ok?
    ensures DeletionUndone(db, Commit(db, HandleRestore(db, r).value, now), r.vm)
  {
    DeleteProtocol.TwoOps(db.queue, OpCancelDeletes(r.vm), OpEnqueue(r.vm, Apply, NoPayload), now);
  }

  /** A restore undoes a delete: the row is as before but for its sync state, and the one open task of the VM is an apply.
      What was queued before the delete stays canceled. */
  lemma RestoreUndoesDelete(db: Db, actor: Actor, vm: int, now: Time, later: Time)
    requires QueueOrder.IdsBelow(db.queue) && HandleDelete(db, DeleteVm(actor, vm), now).Ok?
    requires DeleteProtocol.RowOk(db.vms[vm]) && db.vms[vm].intent == IntentPresent && db.vms[vm].powerBefore == None
    ensures var db1 := Commit(db, HandleDelete(db, DeleteVm(actor, vm), now).value, now);
            && HandleRestore(db1, RestoreVm(actor, vm)).Ok?
            && var db2 := Commit(db1, HandleRestore(db1, RestoreVm(actor, vm)).value, later);
            && db2.vms == db.vms[vm := db.vms[vm].(sync := SyncPending)]
            && forall t :: t in db2.queue.rows && DeleteProtocol.Open(db2.queue.rows[t], vm) ==> db2.queue.rows[t].kind == Apply && t !in db.queue.rows
  {
    hide AllCanceled;
    var db1 := Commit(db, HandleDelete(db, DeleteVm(actor, vm), now).value, now);
    DeleteEffect(db, DeleteVm(actor, vm), now);
    DeleteProtocol.TwoOps(db.queue, OpCancelAll(vm), OpEnqueue(vm, Delete, DeletePayload(Some(now + DAY), false, false)), now);
    RestoreEffect(db1, RestoreVm(actor, vm), later);
  }

  // ---- tasks that join the queue ----

  lemma OneJoins(q: Queue, vm: int, kind: Kind, payload: Payload, now: Time)
    requires QueueOrder.IdsBelow(q)
    ensures Joins(q, ApplyOps(q, [OpEnqueue(vm, kind, payload)], now), vm, [kind])
  {
    DeleteProtocol.OneOp(q, OpEnqueue(vm, kind, payload), now);
  }

  lemma TwoJoin(q: Queue, vm: int, kind: Kind, payload: Payload, now: Time)
    requires QueueOrder.IdsBelow(q)
    ensures Joins(q, ApplyOps(q, [OpEnqueue(vm, kind, payload), OpEnqueue(vm, Reboot, NoPayload)], now), vm, [kind, Reboot])
  {
    DeleteProtocol.TwoOps(q, OpEnqueue(vm, kind, payload), OpEnqueue(vm, Reboot, NoPayload), now);
  }

  /** UPDATE of one row and one task after it, or two. */
  lemma UpdateJoins(db: Db, vm: int, newRow: Vm, kind: Kind, payload: Payload, reboot: bool, now: Time)
    requires QueueOrder.IdsBelow(db.queue) && vm in db.vms
    ensures var b := Commit(db, UpdateRow(db, vm, newRow, [OpEnqueue(vm, kind, payload)] + (if reboot then [OpEnqueue(vm, Reboot, NoPayload)] else [])), now);
            && Joins(db.queue, b.queue, vm, [kind] + (if reboot then [Reboot] else []))
            && OnlyConcerns(db, b, vm) && b.vms == db.vms[vm := newRow]
  {
    var ops := [OpEnqueue(vm, kind, payload)] + (if reboot then [OpEnqueue(vm, Reboot, NoPayload)] else []);
    var kinds := [kind] + (if reboot then [Reboot] else []);
    if reboot {
      TwoJoin(db.queue, vm, kind, payload, now);
      assert ops == [OpEnqueue(vm, kind, payload), OpEnqueue(vm, Reboot, NoPayload)] && kinds == [kind, Reboot];
    } else {
      OneJoins(db.queue, vm, kind, payload, now);
      assert ops == [OpEnqueue(vm, kind, payload)] && kinds == [kind];
    }
    JoinsConcerns(db.queue, ApplyOps(db.queue, ops, now), vm, kinds);
  }

  lemma JoinsConcerns(a: Queue, b: Queue, vm: int, kinds: seq<Kind>)
    requires Joins(a, b, vm, kinds)
    ensures forall t :: t in b.rows && b.rows[t].vm != vm ==> t in a.rows
  {
    forall t | t in b.rows && t !in a.rows
      ensures b.rows[t].vm == vm
    {
      var k := t - a.nextId;
      assert 0 <= k < |kinds| && JoinsAt(a, b, vm, kinds[k], a.nextId + k);
    }
  }

  /** The power wish and one power task. */
  ghost predicate PowerRequested(a: Db, b: Db, vm: int, power: Power) {
    && OnlyConcerns(a, b, vm) && vm in a.vms
    && b.vms == a.vms[vm := a.vms[vm].(power := power, sync := SyncPending)]
    && Joins(a.queue, b.queue, vm, [PowerChange])
    && a.queue.nextId in b.queue.rows && b.queue.rows[a.queue.nextId].payload == PowerPayload(power)
  }

  lemma PowerEffect(db: Db, r: Request, now: Time)
    requires QueueOrder.IdsBelow(db.queue) && r.PowerVm? && HandlePower(db, r).Ok?
    ensures PowerRequested(db, Commit(db, HandlePower(db, r).value, now), r.vm, r.power)
  {
    var tx := HandlePower(db, r).value;
    UpdateJoins(db, r.vm, tx.vms[r.vm], PowerChange, PowerPayload(r.power), false, now);
    DeleteProtocol.OneOp(db.queue, OpEnqueue(r.vm, PowerChange, PowerPayload(r.power)), now);
    assert tx.ops == tx.ops + [] && [PowerChange] + [] == [PowerChange];
  }

  // ---- resources ----

  /** Exactly the requested fields have changed, to what was requested; an owner change was an administrator's; the disk has
      not shrunk; the owner has the group; and a reboot follows the apply task exactly if the VM runs and one is needed. */
  ghost predicate Patched(a: Db, b: Db, r: Request)
    requires r.PatchVm?
  {
    && OnlyConcerns(a, b, r.vm) && r.vm in a.vms && r.vm in b.vms
    && var v, v' := a.vms[r.vm], b.vms[r.vm];
    && v' == v.(owner := v'.owner, group := v'.group, storageKey := v'.storageKey, cores := v'.cores, memory := v'.memory, disk := v'.disk, sync := SyncPending)
    && (if r.newOwner == None then v'.owner == v.owner else r.actor.admin && Some(v'.owner) == r.newOwner)
    && (if r.newGroup == None then v'.group == v.group else Some(v'.group) == r.newGroup)
    && (if r.newStorage == None then v'.storageKey == v.storageKey else Some(v'.storageKey) == r.newStorage)
    && (if r.newCores == None then v'.cores == v.cores else Some(v'.cores) == r.newCores)
    && (if r.newMemory == None then v'.memory == v.memory else Some(v'.memory) == r.newMemory)
    && (if r.newDisk == None then v'.disk == v.disk else Some(v'.disk) == r.newDisk)
    && v'.disk >= v.disk
    && (r.newOwner.Some? || r.newGroup.Some? ==> Group(v'.owner, v'.group) in b.groups)
    && Joins(a.queue, b.queue, r.vm,
             [Apply] + (if v.realPower == PowerOn && (r.reboot || r.newCores.Some? || r.newMemory.Some? || r.newDisk.Some?) then [Reboot] else []))
  }

  lemma PatchEffect(cfg: Config, db: Db, r: Request, now: Time)
    requires QueueOrder.IdsBelow(db.queue) && r.PatchVm? && HandlePatch(cfg, db, r).Ok?
    ensures Patched(db, Commit(db, HandlePatch(cfg, db, r).value, now), r)
  {
    hide Joins, OnlyConcerns;
    PatchChecks(cfg, db, r);
    UpdateJoins(db, r.vm, PatchedRow(r, db.vms[r.vm]), Apply, NoPayload, PatchReboots(r, db.vms[r.vm]), now);
  }

  lemma PatchChecks(cfg: Config, db: Db, r: Request)
    requires r.PatchVm? && PatchRefusal(cfg, db, r) == None
    ensures r.vm in db.vms
    ensures r.newOwner.Some? ==> r.actor.admin
    ensures r.newDisk.Some? ==> r.newDisk.value >= db.vms[r.vm].disk
    ensures var v' := PatchedRow(r, db.vms[r.vm]); r.newOwner.Some? || r.newGroup.Some? ==> Group(v'.owner, v'.group) in db.groups
  {
    hide QuotaRefusal;
  }

  /** The VM is managed for its new owner with the requested resources, who stays within quota; any trace of a deletion is
      gone; apply, and a reboot if it runs and shall run. */
  ghost predicate Adopted(cfg: Config, a: Db, b: Db, r: Request)
    requires r.AdoptVm?
  {
    && OnlyConcerns(a, b, r.vm) && r.vm in a.vms && r.vm in b.vms && r.user in cfg.quotas
    && var v, v' := a.vms[r.vm], b.vms[r.vm];
    && v' == v.(owner := v'.owner, ip := v'.ip, group := v'.group, cpuKey := v'.cpuKey, storageKey := v'.storageKey, bridgeKey := v'.bridgeKey,
                cores := v'.cores, memory := v'.memory, disk := v'.disk, exempt := v'.exempt, managed := v'.managed, sync := v'.sync,
                intent := v'.intent, power := v'.power, powerBefore := v'.powerBefore, preferAfter := v'.preferAfter,
                requestedAt := v'.requestedAt, executeAfter := v'.executeAfter)
    && v'.sync == SyncPending && !v.managed && v'.managed && v'.owner == r.user && v'.group == r.group && v'.ip == r.ip && !v'.exempt
    && v'.cores == r.cores > 0 && v'.memory == r.memory > 0 && v'.disk == r.disk > 0
    && v'.cpuKey == r.cpuKey && v'.storageKey == r.storageKey && v'.bridgeKey == r.bridgeKey && v'.power == r.power && v'.powerBefore == None
    && v'.cluster == v.cluster && v'.vmid == v.vmid && v'.node == v.node && v'.deletedAt == v.deletedAt
    && v'.requestedAt == None && v'.executeAfter == None && v'.preferAfter == None && v'.intent == IntentPresent
    && (Active(v) ==> UserUsage(b, r.user) == Plus(UserUsage(a, r.user), Usage(1, r.cores, r.memory, r.disk)) && !Over(UserUsage(b, r.user), cfg.quotas[r.user]))
    && Joins(a.queue, b.queue, r.vm, [Apply] + (if v.realPower == PowerOn && r.power == PowerOn then [Reboot] else []))
  }

  lemma AdoptEffect(cfg: Config, db: Db, r: Request, now: Time)
    requires QueueOrder.IdsBelow(db.queue) && Tenancy.RowsInv(db) && r.AdoptVm? && HandleAdopt(cfg, db, r).Ok?
    ensures Adopted(cfg, db, Commit(db, HandleAdopt(cfg, db, r).value, now), r)
  {
    hide Joins, OnlyConcerns, AdoptRefusal;
    UpdateJoins(db, r.vm, AdoptedRow(r, db.vms[r.vm]), Apply, NoPayload, db.vms[r.vm].realPower == PowerOn && r.power == PowerOn, now);
    Quotas.UsageAfterUpdate(db.vms, r.user, r.vm, AdoptedRow(r, db.vms[r.vm]), db.nextVm);
  }

  /** One new row and one provision task for it; the VMID is the least free one of the cluster's window, the
      address is derived from it, the owner has the group and is within quota with the VM. */
  ghost predicate CreatedVm(cfg: Config, a: Db, b: Db, r: Request)
    requires r.CreateVm?
  {
    && OnlyConcerns(a, b, a.nextVm) && b.nextVm == a.nextVm + 1 && a.nextVm in b.vms && r.cluster in cfg.clusters
    && var v, cluster := b.vms[a.nextVm], cfg.clusters[r.cluster];
    && v.owner == r.user && v.cluster == r.cluster && v.group == r.group && Group(r.user, r.group) in b.groups
    && v.cores == r.cores > 0 && v.memory == r.memory > 0 && v.disk == r.disk >= 20 && v.power == r.power
    && Active(v) && v.managed && !v.exempt && !v.paused && v.requestedAt == None && v.sync == SyncPending
    && v.cpuKey == r.cpuKey && v.storageKey == r.storageKey && v.bridgeKey == r.bridgeKey
    && r.bridgeKey in cluster.bridges && Acceptance.Allocatable(cfg, a, r.cluster, r.bridgeKey, v.vmid)
    && v.ip == Acceptance.AddressOf(cluster, r.bridgeKey, v.vmid)
    && r.cpuKey in cluster.cpus && r.template.Some? && v.node == ""
    && v.targetNode == PlacementNode(a, r.cluster, cluster.cpus[r.cpuKey], r.cores, r.memory, r.template.value)
    && v.intent == IntentPresent && v.powerBefore == None && v.executeAfter == None && v.preferAfter == None && v.realPower == PowerUnknown
    && UserUsage(b, r.user) == Plus(UserUsage(a, r.user), Usage(1, r.cores, r.memory, r.disk)) && !Over(UserUsage(b, r.user), QuotaOf(cfg, r.user))
    && Joins(a.queue, b.queue, a.nextVm, [Provision])
  }

  lemma CreateEffect(cfg: Config, db: Db, r: Request, now: Time)
    requires QueueOrder.IdsBelow(db.queue) && Tenancy.RowsInv(db) && r.CreateVm? && HandleCreate(cfg, db, r).Ok?
    ensures CreatedVm(cfg, db, Commit(db, HandleCreate(cfg, db, r).value, now), r)
  {
    hide Joins, OnlyConcerns, PlacementNode, JoinsAt, NextVmid, Acceptance.Allocatable, Addressing.DeriveIPv4;
    CreateChecks(cfg, db, r);
    CreationAllocates(cfg, db, r);
    var tx := HandleCreate(cfg, db, r).value;
    CreateConcerns(cfg, db, r, now);
    Quotas.UsageIgnoresAbove(db.vms, r.user, db.nextVm, tx.vms[db.nextVm], db.nextVm);
  }

  lemma CreationAllocates(cfg: Config, db: Db, r: Request)
    requires r.CreateVm? && CreateRefusal(cfg, db, r) == None && CreatedRow(cfg, db, r).Ok?
    ensures var v, cluster := CreatedRow(cfg, db, r).value, cfg.clusters[r.cluster];
            && r.bridgeKey in cluster.bridges && Acceptance.Allocatable(cfg, db, r.cluster, r.bridgeKey, v.vmid)
            && v.ip == Acceptance.AddressOf(cluster, r.bridgeKey, v.vmid)
  {
    hide CreateRefusal, PlacementNode, Taken;
    var cluster := cfg.clusters[r.cluster];
    UsedIsTaken(db, r.cluster);
    FirstFreeIsLeast(UsedVmids(db, r.cluster), cluster.startVmid, cluster.startVmid + cluster.limit);
  }

  /** The created VM weighs on the node chosen for it and on no other, in its own cluster only. */
  lemma CreationLoadsItsNode(cfg: Config, db: Db, r: Request, now: Time, cluster: string, node: string)
    requires r.CreateVm? && HandleCreate(cfg, db, r).Ok? && node != ""
    ensures r.cluster in cfg.clusters && r.cpuKey in cfg.clusters[r.cluster].cpus && r.template.Some?
    ensures var b := Commit(db, HandleCreate(cfg, db, r).value, now);
            var chosen := PlacementNode(db, r.cluster, cfg.clusters[r.cluster].cpus[r.cpuKey], r.cores, r.memory, r.template.value);
            var was := NodeLoad(db, cluster, node);
            NodeLoad(b, cluster, node) == if cluster == r.cluster && node == chosen then (was.0 + r.cores, was.1 + r.memory) else was
  {
    hide PlacementNode, NextVmid, AllocationBelow;
    var b := Commit(db, HandleCreate(cfg, db, r).value, now);
    NewRowLoadsItsHost(db, b.vms[db.nextVm], cluster, node);
  }

  lemma CreateChecks(cfg: Config, db: Db, r: Request)
    requires r.CreateVm? && CreateRefusal(cfg, db, r) == None
    ensures r.cores > 0 && r.memory > 0 && r.disk >= 20
  {
  }

  lemma CreateConcerns(cfg: Config, db: Db, r: Request, now: Time)
    requires QueueOrder.IdsBelow(db.queue) && Tenancy.RowsInv(db) && r.CreateVm? && HandleCreate(cfg, db, r).Ok?
    ensures var b := Commit(db, HandleCreate(cfg, db, r).value, now);
            OnlyConcerns(db, b, db.nextVm) && Joins(db.queue, b.queue, db.nextVm, [Provision])
  {
    hide CreateRefusal, CreatedRow, Joins;
    OneJoins(db.queue, db.nextVm, Provision, NoPayload, now);
    JoinsConcerns(db.queue, ApplyOps(db.queue, [OpEnqueue(db.nextVm, Provision, NoPayload)], now), db.nextVm, [Provision]);
    KeepsOld(db.queue, ApplyOps(db.queue, [OpEnqueue(db.nextVm, Provision, NoPayload)], now), db.nextVm, [Provision]);
  }

  lemma KeepsOld(a: Queue, b: Queue, vm: int, kinds: seq<Kind>)
    requires Joins(a, b, vm, kinds)
    ensures forall t :: t in a.rows ==> t in b.rows && b.rows[t] == a.rows[t]
  {
  }

  /** Only the retried task and the sync state of its VM have changed. */
  ghost predicate Retried(a: Db, b: Db, vm: int, task: int) {
    && OnlyConcerns(a, b, vm) && vm in a.vms && task in a.queue.rows && a.queue.rows[task].vm == vm && a.queue.rows[task].status == Failed
    && b.vms == a.vms[vm := a.vms[vm].(sync := if a.vms[vm].requestedAt.Some? then SyncDeleting else SyncPending)]
    && b.queue.rows.Keys == a.queue.rows.Keys
    && (forall t :: t in a.queue.rows && t != task ==> b.queue.rows[t] == a.queue.rows[t])
    && b.queue.rows[task] == a.queue.rows[task].(status := Pending, startedAt := None, finishedAt := None, updatedAt := b.queue.rows[task].updatedAt)
  }

  lemma RetryEffect(db: Db, r: Request, now: Time)
    requires r.RetryVmTask? && HandleRetry(db, r).Ok?
    ensures Retried(db, Commit(db, HandleRetry(db, r).value, now), r.vm, r.task)
  {
    DeleteProtocol.OneOp(db.queue, OpRetry(r.task, r.vm), now);
  }

  // ---- flags, addresses and groups ----

  /** Only the pause flag of the VM has changed. */
  ghost predicate PauseSet(a: Db, b: Db, vm: int, paused: bool) {
    vm in a.vms && a.vms[vm].managed && b == a.(vms := a.vms[vm := a.vms[vm].(paused := paused)])
  }

  lemma PauseEffect(db: Db, actor: Actor, vm: int, paused: bool, now: Time)
    requires HandlePaused(db, actor, vm, paused).Ok?
    ensures PauseSet(db, Commit(db, HandlePaused(db, actor, vm, paused).value, now), vm, paused)
  {
  }

  /** The VM has the address, which no other active VM of its cluster has; it is applied, with a reboot if the VM runs. */
  ghost predicate AddressSet(a: Db, b: Db, vm: int, ip: Cidr) {
    && OnlyConcerns(a, b, vm) && vm in a.vms && a.vms[vm].managed
    && b.vms == a.vms[vm := a.vms[vm].(ip := ip, sync := SyncPending)]
    && (forall id :: id in b.vms && id != vm && Active(b.vms[id]) && b.vms[id].cluster == b.vms[vm].cluster ==> b.vms[id].ip != ip)
    && Joins(a.queue, b.queue, vm, [Apply] + (if a.vms[vm].realPower == PowerOn then [Reboot] else []))
  }

  lemma AddressEffect(cfg: Config, db: Db, r: Request, now: Time)
    requires QueueOrder.IdsBelow(db.queue) && r.AdminSetIp? && HandleSetIp(cfg, db, r).Ok?
    ensures AddressSet(db, Commit(db, HandleSetIp(cfg, db, r).value, now), r.vm, r.ip)
  {
    hide Joins, OnlyConcerns;
    UpdateJoins(db, r.vm, db.vms[r.vm].(ip := r.ip, sync := SyncPending), Apply, NoPayload, db.vms[r.vm].realPower == PowerOn, now);
  }

  /** The flag is as asked. Unless it was so before, a managed VM is applied; nothing is tested against the quota. */
  ghost predicate ExemptionSet(a: Db, b: Db, vm: int, exempt: bool) {
    && OnlyConcerns(a, b, vm) && vm in a.vms && vm in b.vms && b.vms[vm].exempt == exempt && b.vms.Keys == a.vms.Keys
    && b.vms[vm] == a.vms[vm].(exempt := exempt, sync := b.vms[vm].sync)
    && if a.vms[vm].managed && a.vms[vm].exempt != exempt then b.vms[vm].sync == SyncPending && Joins(a.queue, b.queue, vm, [Apply])
       else b.vms[vm].sync == a.vms[vm].sync && b.queue == a.queue
  }

  lemma ExemptionEffect(db: Db, r: Request, now: Time)
    requires QueueOrder.IdsBelow(db.queue) && r.AdminSetExempt? && HandleExempt(db, r).Ok?
    ensures ExemptionSet(db, Commit(db, HandleExempt(db, r).value, now), r.vm, r.exempt)
  {
    hide Joins;
    var vm := db.vms[r.vm];
    if vm.managed && vm.exempt != r.exempt {
      UpdateJoins(db, r.vm, vm.(exempt := r.exempt, sync := SyncPending), Apply, NoPayload, false, now);
      assert [OpEnqueue(r.vm, Apply, NoPayload)] + [] == [OpEnqueue(r.vm, Apply, NoPayload)] && [Apply] + [] == [Apply];
    }
  }

  /** The user has one group more, and no more than the quota allows. */
  ghost predicate GroupCreated(cfg: Config, a: Db, b: Db, user: string, name: string) {
    && Group(user, name) !in a.groups && b == a.(groups := a.groups + {Group(user, name)})
    && |OwnedGroups(b, user)| == |OwnedGroups(a, user)| + 1 <= QuotaOf(cfg, user).groups
  }

  lemma GroupCreateEffect(cfg: Config, db: Db, r: Request, now: Time)
    requires r.CreateGroup? && HandleCreateGroup(cfg, db, r).Ok?
    ensures GroupCreated(cfg, db, Commit(db, HandleCreateGroup(cfg, db, r).value, now), r.user, r.name)
  {
    var b := Commit(db, HandleCreateGroup(cfg, db, r).value, now);
    assert OwnedGroups(b, r.user) == OwnedGroups(db, r.user) + {Group(r.user, r.name)};
  }

  /** The active managed VMs that use the group, and only they, await an apply task, which nothing has queued. */
  ghost predicate GroupPatched(a: Db, b: Db, user: string, name: string) {
    && Group(user, name) in a.groups && b.groups == a.groups && b.queue == a.queue && b.nextVm == a.nextVm && b.vms.Keys == a.vms.Keys
    && forall id :: id in a.vms ==>
         var v := a.vms[id];
         var uses := v.owner == user && v.group == name && v.deletedAt.None? && v.managed && v.sync != SyncDeleting;
         b.vms[id] == if uses then v.(sync := SyncPending) else v
  }

  lemma GroupPatchEffect(db: Db, r: Request, now: Time)
    requires r.PatchGroup? && HandlePatchGroup(db, r).Ok?
    ensures GroupPatched(db, Commit(db, HandlePatchGroup(db, r).value, now), r.user, r.name)
  {
  }

  /** The group is gone and no active VM is left that names it. */
  ghost predicate GroupDeleted(a: Db, b: Db, user: string, name: string) {
    && Group(user, name) in a.groups && b == a.(groups := a.groups - {Group(user, name)})
    && forall id :: id in b.vms && Active(b.vms[id]) && b.vms[id].owner == user ==> b.vms[id].group != name
  }

  lemma GroupDeleteEffect(db: Db, r: Request, now: Time)
    requires r.DeleteGroup? && HandleDeleteGroup(db, r).Ok?
    ensures GroupDeleted(db, Commit(db, HandleDeleteGroup(db, r).value, now), r.user, r.name)
  {
  }
}
