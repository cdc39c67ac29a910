/** The API handlers. Each one reads the database, refuses or decides, and commits one transaction; `Handle` is that
    decision. What is syntax (names, keys, CIDR text) or identity (cookies, sharing lists) comes in with the request. */
module Handlers {
  import opened Records
  import opened TaskQueue
  import opened Machine
  import opened Allocation
  import Addressing

  datatype Actor = Actor(name: string, admin: bool)

  datatype Request =
    | CreateVm(user: string, cluster: string, cpuKey: string, storageKey: string, bridgeKey: string, group: string,
               cores: int, memory: int, disk: int, power: Power, template: Option<string>, formOk: bool)
    | PatchVm(actor: Actor, vm: int, newOwner: Option<string>, newCores: Option<int>, newMemory: Option<int>, newDisk: Option<int>,
              newStorage: Option<string>, newGroup: Option<string>, other: bool, reboot: bool, formOk: bool)
    | PowerVm(visible: bool, vm: int, power: Power)
    | DeleteVm(actor: Actor, vm: int)
    | RestoreVm(actor: Actor, vm: int)
    | DeleteNowVm(actor: Actor, vm: int)
    | PauseTasks(actor: Actor, vm: int)
    | ResumeTasks(actor: Actor, vm: int)
    | RetryVmTask(actor: Actor, vm: int, task: int)
    | AdoptVm(vm: int, user: string, cpuKey: string, storageKey: string, bridgeKey: string, ip: Cidr,
              group: string, groupOwner: string, cores: int, memory: int, disk: int, power: Power, formOk: bool)
    | AdminSetIp(vm: int, ip: Cidr)
    | AdminSetExempt(vm: int, exempt: bool)
    | CreateGroup(user: string, name: string)
    | PatchGroup(user: string, name: string)
    | DeleteGroup(user: string, name: string)

  predicate MayManage(actor: Actor, vm: Vm) {
    actor.admin || actor.name == vm.owner
  }

  /** A transaction that rewrites one row. */
  function UpdateRow(db: Db, id: int, vm: Vm, ops: seq<TaskOp>): Tx {
    Tx(db.vms[id := vm], db.nextVm, db.groups, ops)
  }

  function OrElse<T>(o: Option<T>, default_: T): T {
    if o.Some? then o.value else default_
  }

  function QuotaOf(cfg: Config, user: string): Quota {
    if user in cfg.quotas then cfg.quotas[user] else Quota(0, 0, 0, 0, 0)
  }

  predicate Over(u: Usage, q: Quota) {
    u.count > q.number || u.cpu > q.cpu || u.memory > q.memory || u.storage > q.storage
  }

  /** Whether the request fits the cluster's options. */
  function CreateForm(cfg: Config, r: Request): (refusal: Option<string>)
    requires r.CreateVm?
    ensures refusal == None ==> r.cluster in cfg.clusters && r.cpuKey in cfg.clusters[r.cluster].cpus && r.cores > 0 && r.memory > 0 && r.disk >= 20
  {
    if !r.formOk then Some("invalid request")
    else if r.cores <= 0 || r.memory <= 0 || r.disk <= 0 then Some("cpu_cores, memory_gb and disk_gb must be positive")
    else if r.disk < 20 then Some("disk_gb must be at least 20")
    else if r.power != PowerOn && r.power != PowerOff then Some("power must be running or stopped")
    else if r.cluster !in cfg.clusters then Some("unknown cluster")
    else
      var cluster := cfg.clusters[r.cluster];
      if r.cpuKey !in cluster.cpus then Some("unknown cpu_key")
      else if r.storageKey !in cluster.storages then Some("unknown storage_key")
      else if r.bridgeKey !in cluster.bridges then Some("unknown bridge_key")
      else if r.cores > cluster.cpus[r.cpuKey].limit || r.memory > cluster.cpus[r.cpuKey].memoryLimit || r.disk > cluster.storages[r.storageKey]
      then Some("requested resources exceed selected cluster option limit")
      else None
  }

  /** Whether the user may have it. */
  function CreateClaim(cfg: Config, db: Db, r: Request): (refusal: Option<string>)
    requires r.CreateVm?
    ensures refusal == None ==>
              && r.template.Some? && Group(r.user, r.group) in db.groups
              && !Over(Plus(UserUsage(db, r.user), Usage(1, r.cores, r.memory, r.disk)), QuotaOf(cfg, r.user))
  {
    var quota := QuotaOf(cfg, r.user);
    if r.template == None then Some("template not found")
    else if Group(r.user, r.group) !in db.groups then Some("security group not found or not owned by user")
    else if quota.number <= 0 || quota.cpu <= 0 || quota.memory <= 0 || quota.storage <= 0 || quota.groups <= 0
    then Some("user quota is not configured")
    else if Over(Plus(UserUsage(db, r.user), Usage(1, r.cores, r.memory, r.disk)), quota) then Some("quota exceeded")
    else None
  }

  /** What handleCreateVM refuses before it allocates anything. */
  function CreateRefusal(cfg: Config, db: Db, r: Request): (refusal: Option<string>)
    requires r.CreateVm?
    ensures refusal == None ==>
              && r.cluster in cfg.clusters && r.cpuKey in cfg.clusters[r.cluster].cpus && r.template.Some?
              && Group(r.user, r.group) in db.groups
              && !Over(Plus(UserUsage(db, r.user), Usage(1, r.cores, r.memory, r.disk)), QuotaOf(cfg, r.user))
  {
    var refusal := CreateForm(cfg, r);
    if refusal.Some? then refusal else CreateClaim(cfg, db, r)
  }

  /** The row it inserts, with its VMID, address and node allocated. */
  function CreatedRow(cfg: Config, db: Db, r: Request): Result<Vm>
    requires r.CreateVm? && r.cluster in cfg.clusters && r.cpuKey in cfg.clusters[r.cluster].cpus && r.template.Some?
  {
    var cluster := cfg.clusters[r.cluster];
    var vmid := NextVmid(db, r.cluster, cluster.startVmid, cluster.limit);
    if vmid.Err? then Err(vmid.reason)
    else
      var ip := Addressing.DeriveIPv4(cluster, r.bridgeKey, vmid.value);
      if ip.Err? then Err(ip.reason)
      else
        var target := PlacementNode(db, r.cluster, cluster.cpus[r.cpuKey], r.cores, r.memory, r.template.value);
        Ok(Vm(r.user, r.cluster, vmid.value, "", target, ip.value, r.group, r.cpuKey, r.storageKey, r.bridgeKey,
              r.cores, r.memory, r.disk, false, true, false, SyncPending, IntentPresent, r.power, None, None,
              PowerUnknown, None, None, None))
  }

  /** handleCreateVM */
  function HandleCreate(cfg: Config, db: Db, r: Request): Result<Tx>
    requires r.CreateVm?
  {
    var refusal := CreateRefusal(cfg, db, r);
    if refusal.Some? then Err(refusal.value)
    else
      var vm := CreatedRow(cfg, db, r);
      if vm.Err? then Err(vm.reason)
      else Ok(Tx(db.vms[db.nextVm := vm.value], db.nextVm + 1, db.groups, [OpEnqueue(db.nextVm, Provision, NoPayload)]))
  }

  /** The resource part of handlePatchVM: the quota test subtracts the old row and adds the new one. The row's owner has
      already been replaced when the test compares it with the quota owner, so the subtraction always happens. */
  function PatchedUsage(db: Db, vm: Vm, newRow: Vm): Usage {
    Plus(Minus(UserUsage(db, newRow.owner), RowUsage(vm)), RowUsage(newRow))
  }

  predicate TouchesQuota(r: Request)
    requires r.PatchVm?
  {
    r.newCores.Some? || r.newMemory.Some? || r.newDisk.Some? || r.newStorage.Some? || r.newOwner.Some?
  }

  function PatchedRow(r: Request, vm: Vm): Vm
    requires r.PatchVm?
  {
    vm.(owner := OrElse(r.newOwner, vm.owner), cores := OrElse(r.newCores, vm.cores), memory := OrElse(r.newMemory, vm.memory),
        disk := OrElse(r.newDisk, vm.disk), storageKey := OrElse(r.newStorage, vm.storageKey), group := OrElse(r.newGroup, vm.group),
        sync := SyncPending)
  }

  /** Who may patch what, and to which owner. */
  function PatchAccess(cfg: Config, db: Db, r: Request): (refusal: Option<string>)
    requires r.PatchVm?
    ensures refusal == None ==> r.vm in db.vms && db.vms[r.vm].managed && !PendingDeletion(db.vms[r.vm])
  {
    if r.vm !in db.vms then Some("vm not found")
    else
      var vm := db.vms[r.vm];
      if !MayManage(r.actor, vm) then Some("permission denied")
      else if !vm.managed then Some("unmanaged vm cannot be modified")
      else if PendingDeletion(vm) then Some("vm is pending deletion")
      else if !r.formOk then Some("invalid request")
      else if r.newOwner.Some? && !r.actor.admin then Some("permission denied")
      else if r.newOwner.Some? && r.newOwner.value !in cfg.quotas then Some("owner user not found")
      else None
  }

  /** Whether the requested fields fit together. */
  function PatchFields(cfg: Config, db: Db, r: Request, vm: Vm): Option<string>
    requires r.PatchVm?
  {
    var newRow := PatchedRow(r, vm);
    if r.newOwner.Some? && r.newGroup == None && Group(newRow.owner, vm.group) !in db.groups
    then Some("current security group not found for new owner")
    else if r.newGroup.Some? && Group(newRow.owner, newRow.group) !in db.groups
    then Some("security group not found or not owned by owner")
    else if !TouchesQuota(r) && r.newGroup == None && !r.other then Some("no changes requested")
    else if Resizes(r) && vm.cluster !in cfg.clusters then Some("unknown cluster")
    else if r.newStorage.Some? && r.newStorage.value !in cfg.clusters[vm.cluster].storages then Some("unknown storage_key")
    else if r.newDisk.Some? && r.newDisk.value < vm.disk then Some("disk_gb can only increase")
    else if !vm.exempt && TouchesQuota(r) then QuotaRefusal(cfg, db, vm, newRow)
    else None
  }

  /** What handlePatchVM refuses. */
  function PatchRefusal(cfg: Config, db: Db, r: Request): (refusal: Option<string>)
    requires r.PatchVm?
    ensures refusal == None ==> r.vm in db.vms && db.vms[r.vm].managed && !PendingDeletion(db.vms[r.vm])
  {
    var refusal := PatchAccess(cfg, db, r);
    if refusal.Some? then refusal else PatchFields(cfg, db, r, db.vms[r.vm])
  }

  predicate Resizes(r: Request)
    requires r.PatchVm?
  {
    r.newCores.Some? || r.newMemory.Some? || r.newDisk.Some? || r.newStorage.Some?
  }

  predicate PatchReboots(r: Request, vm: Vm)
    requires r.PatchVm?
  {
    (r.reboot || r.newCores.Some? || r.newMemory.Some? || r.newDisk.Some?) && vm.realPower == PowerOn
  }

  /** handlePatchVM, without the power field, which goes the way of PowerVm. */
  function HandlePatch(cfg: Config, db: Db, r: Request): Result<Tx>
    requires r.PatchVm?
  {
    var refusal := PatchRefusal(cfg, db, r);
    if refusal.Some? then Err(refusal.value)
    else
      var vm := db.vms[r.vm];
      var again := if PatchReboots(r, vm) then [OpEnqueue(r.vm, Reboot, NoPayload)] else [];
      Ok(UpdateRow(db, r.vm, PatchedRow(r, vm), [OpEnqueue(r.vm, Apply, NoPayload)] + again))
  }

  function QuotaRefusal(cfg: Config, db: Db, vm: Vm, newRow: Vm): Option<string> {
    if vm.cluster !in cfg.clusters then Some("unknown cluster")
    else
      var cluster := cfg.clusters[vm.cluster];
      if vm.cpuKey in cluster.cpus && newRow.cores > cluster.cpus[vm.cpuKey].limit then Some("cpu_cores exceed cluster option limit")
      else if vm.cpuKey in cluster.cpus && newRow.memory > cluster.cpus[vm.cpuKey].memoryLimit then Some("memory_gb exceed cluster option limit")
      else if newRow.storageKey in cluster.storages && newRow.disk > cluster.storages[newRow.storageKey] then Some("disk_gb exceed cluster option limit")
      else if Over(PatchedUsage(db, vm, newRow), QuotaOf(cfg, newRow.owner)) then Some("quota exceeded")
      else None
  }

  /** handlePowerVM */
  function HandlePower(db: Db, r: Request): Result<Tx>
    requires r.PowerVm?
  {
    if r.vm !in db.vms then Err("vm not found")
    else
      var vm := db.vms[r.vm];
      if !r.visible then Err("permission denied")
      else if !vm.managed then Err("unmanaged vm cannot be modified")
      else if PendingDeletion(vm) then Err("vm is pending deletion")
      else if r.power != PowerOn && r.power != PowerOff && r.power != PowerReboot then Err("invalid power")
      else Ok(UpdateRow(db, r.vm, vm.(power := r.power, sync := SyncPending), [OpEnqueue(r.vm, PowerChange, PowerPayload(r.power))]))
  }

  /** handleDeleteVM: everything queued is canceled and one delete task with the 24-hour deadline is queued. */
  function HandleDelete(db: Db, r: Request, now: Time): Result<Tx>
    requires r.DeleteVm?
  {
    if r.vm !in db.vms then Err("vm not found")
    else
      var vm := db.vms[r.vm];
      if !MayManage(r.actor, vm) then Err("permission denied")
      else if !vm.managed then Err("unmanaged vm cannot be deleted")
      else if PendingDeletion(vm) then Err("vm is already pending deletion")
      else
        var at := now + DAY;
        var newRow := vm.(sync := SyncDeleting, requestedAt := Some(now), executeAfter := Some(at), intent := IntentDeletePending,
                          power := PowerOff, powerBefore := Some(vm.power), preferAfter := Some(at));
        Ok(UpdateRow(db, r.vm, newRow, [OpCancelAll(r.vm), OpEnqueue(r.vm, Delete, DeletePayload(Some(at), false, false))]))
  }

  /** handleRestoreVM: only pending and running delete tasks are canceled; a failed one stays. */
  function HandleRestore(db: Db, r: Request): Result<Tx>
    requires r.RestoreVm?
  {
    if r.vm !in db.vms then Err("vm not found")
    else
      var vm := db.vms[r.vm];
      if !MayManage(r.actor, vm) then Err("permission denied")
      else if !vm.managed then Err("unmanaged vm cannot be restored")
      else if !PendingDeletion(vm) then Err("vm is not pending deletion")
      else
        var newRow := vm.(sync := SyncPending, requestedAt := None, executeAfter := None, intent := IntentPresent,
                          power := OrElse(vm.powerBefore, PowerOn), powerBefore := None, preferAfter := None);
        Ok(UpdateRow(db, r.vm, newRow, [OpCancelDeletes(r.vm), OpEnqueue(r.vm, Apply, NoPayload)]))
  }

  /** handleDeleteNowVM */
  function HandleDeleteNow(db: Db, r: Request, now: Time): Result<Tx>
    requires r.DeleteNowVm?
  {
    if r.vm !in db.vms then Err("vm not found")
    else
      var vm := db.vms[r.vm];
      if !MayManage(r.actor, vm) then Err("permission denied")
      else if !vm.managed then Err("unmanaged vm cannot be deleted")
      else if !PendingDeletion(vm) then Err("vm is not pending deletion")
      else
        var newRow := vm.(sync := SyncDeleting, requestedAt := Some(OrElse(vm.requestedAt, now)), executeAfter := Some(now),
                          intent := IntentDeletePending, power := PowerOff, powerBefore := Some(OrElse(vm.powerBefore, PowerOn)),
                          preferAfter := Some(now));
        Ok(UpdateRow(db, r.vm, newRow, [OpCancelAll(r.vm), OpEnqueue(r.vm, Delete, DeletePayload(Some(now), true, false))]))
  }

  /** handlePauseVMTasks and handleResumeVMTasks */
  function HandlePaused(db: Db, actor: Actor, id: int, paused: bool): Result<Tx> {
    if id !in db.vms then Err("vm not found")
    else
      var vm := db.vms[id];
      if !MayManage(actor, vm) then Err("permission denied")
      else if !vm.managed then Err("unmanaged vm cannot pause or resume tasks")
      else Ok(UpdateRow(db, id, vm.(paused := paused), []))
  }

  /** handleRetryVMTask */
  function HandleRetry(db: Db, r: Request): Result<Tx>
    requires r.RetryVmTask?
  {
    if r.vm !in db.vms then Err("vm not found")
    else
      var vm := db.vms[r.vm];
      if !MayManage(r.actor, vm) then Err("permission denied")
      else if !vm.managed then Err("unmanaged vm cannot retry tasks")
      else if r.task !in db.queue.rows || db.queue.rows[r.task].vm != r.vm then Err("task not found")
      else if db.queue.rows[r.task].status != Failed then Err("only failed tasks can be retried")
      else Ok(UpdateRow(db, r.vm, vm.(sync := if vm.requestedAt.Some? then SyncDeleting else SyncPending), [OpRetry(r.task, r.vm)]))
  }

  /** What handleAdminAdoptVM refuses. */
  function AdoptRefusal(cfg: Config, db: Db, r: Request): (refusal: Option<string>)
    requires r.AdoptVm?
    ensures refusal == None ==>
              && r.vm in db.vms && !db.vms[r.vm].managed && !PendingDeletion(db.vms[r.vm]) && r.user in cfg.quotas
              && r.cores > 0 && r.memory > 0 && r.disk > 0
              && !Over(Plus(UserUsage(db, r.user), Usage(1, r.cores, r.memory, r.disk)), cfg.quotas[r.user])
              && Group(GroupOwner(r), r.group) in db.groups
  {
    if r.vm !in db.vms then Some("vm not found")
    else
      var vm := db.vms[r.vm];
      if vm.managed then Some("vm is already managed")
      else if PendingDeletion(vm) then Some("vm is pending deletion")
      else if !r.formOk then Some("invalid request")
      else if r.user !in cfg.quotas then Some("owner user not found")
      else if r.cores <= 0 || r.memory <= 0 || r.disk <= 0 then Some("cpu_cores, memory_gb and disk_gb must be positive")
      else if r.disk < 20 then Some("disk_gb must be at least 20")
      else if vm.cluster !in cfg.clusters then Some("unknown cluster")
      else
        var cluster := cfg.clusters[vm.cluster];
        if r.cpuKey !in cluster.cpus then Some("unknown cpu_key")
        else if r.storageKey !in cluster.storages then Some("unknown storage_key")
        else if r.bridgeKey !in cluster.bridges then Some("unknown bridge_key")
        else if r.cores > cluster.cpus[r.cpuKey].limit || r.memory > cluster.cpus[r.cpuKey].memoryLimit || r.disk > cluster.storages[r.storageKey]
        then Some("requested resources exceed selected cluster option limit")
        else if Over(Plus(UserUsage(db, r.user), Usage(1, r.cores, r.memory, r.disk)), cfg.quotas[r.user]) then Some("quota exceeded")
        else if r.power != PowerOn && r.power != PowerOff && r.power != PowerReboot then Some("invalid power")
        else if Group(GroupOwner(r), r.group) !in db.groups then Some("security group not found or not owned by owner")
        else None
  }

  /** security_group_owner, the new owner unless given. */
  function GroupOwner(r: Request): string
    requires r.AdoptVm?
  {
    if r.groupOwner == "" then r.user else r.groupOwner
  }

  function AdoptedRow(r: Request, vm: Vm): Vm
    requires r.AdoptVm?
  {
    vm.(owner := r.user, ip := r.ip, group := r.group, cpuKey := r.cpuKey, storageKey := r.storageKey,
        bridgeKey := r.bridgeKey, cores := r.cores, memory := r.memory, disk := r.disk, exempt := false,
        managed := true, sync := SyncPending, intent := IntentPresent, power := r.power, powerBefore := None,
        preferAfter := None, requestedAt := None, executeAfter := None)
  }

  /** handleAdminAdoptVM */
  function HandleAdopt(cfg: Config, db: Db, r: Request): Result<Tx>
    requires r.AdoptVm?
  {
    var refusal := AdoptRefusal(cfg, db, r);
    if refusal.Some? then Err(refusal.value)
    else
      var vm := db.vms[r.vm];
      var again := if vm.realPower == PowerOn && r.power == PowerOn then [OpEnqueue(r.vm, Reboot, NoPayload)] else [];
      Ok(UpdateRow(db, r.vm, AdoptedRow(r, vm), [OpEnqueue(r.vm, Apply, NoPayload)] + again))
  }

  /** handleAdminPatchVM */
  function HandleSetIp(cfg: Config, db: Db, r: Request): Result<Tx>
    requires r.AdminSetIp?
  {
    if r.vm !in db.vms then Err("vm not found")
    else
      var vm := db.vms[r.vm];
      if !vm.managed then Err("unmanaged vm ip cannot be modified")
      else if PendingDeletion(vm) then Err("vm is pending deletion")
      else if vm.cluster !in cfg.clusters then Err("unknown cluster")
      else if cfg.clusters[vm.cluster].bridges == map[] then Err("cluster has no bridge")
      else if exists id :: id in db.vms && id != r.vm && Active(db.vms[id]) && db.vms[id].cluster == vm.cluster && db.vms[id].ip == r.ip
      then Err("ip already used")
      else
        var again := if vm.realPower == PowerOn then [OpEnqueue(r.vm, Reboot, NoPayload)] else [];
        Ok(UpdateRow(db, r.vm, vm.(ip := r.ip, sync := SyncPending), [OpEnqueue(r.vm, Apply, NoPayload)] + again))
  }

  /** handleAdminSetQuotaExempt */
  function HandleExempt(db: Db, r: Request): Result<Tx>
    requires r.AdminSetExempt?
  {
    if r.vm !in db.vms then Err("vm not found")
    else
      var vm := db.vms[r.vm];
      if PendingDeletion(vm) then Err("vm is pending deletion")
      else if vm.exempt == r.exempt then Ok(UpdateRow(db, r.vm, vm, []))
      else
        var newRow := vm.(exempt := r.exempt, sync := if vm.managed then SyncPending else vm.sync);
        Ok(UpdateRow(db, r.vm, newRow, if vm.managed then [OpEnqueue(r.vm, Apply, NoPayload)] else []))
  }

  function OwnedGroups(db: Db, user: string): set<Group> {
    set g | g in db.groups && g.owner == user
  }

  /** handleCreateSecurityGroup; the INSERT fails on an existing name. */
  function HandleCreateGroup(cfg: Config, db: Db, r: Request): Result<Tx>
    requires r.CreateGroup?
  {
    var quota := QuotaOf(cfg, r.user);
    if quota.groups <= 0 then Err("security group quota not configured")
    else if |OwnedGroups(db, r.user)| + 1 > quota.groups then Err("security group quota exceeded")
    else if Group(r.user, r.name) in db.groups then Err("duplicate key")
    else Ok(Tx(db.vms, db.nextVm, db.groups + {Group(r.user, r.name)}, []))
  }

  predicate UsesGroup(vm: Vm, user: string, name: string) {
    vm.owner == user && vm.group == name && Active(vm) && vm.managed && vm.sync != SyncDeleting
  }

  /** handlePatchSecurityGroup: marks the rows that use the group pending and queues nothing. */
  function HandlePatchGroup(db: Db, r: Request): Result<Tx>
    requires r.PatchGroup?
  {
    if Group(r.user, r.name) !in db.groups then Err("security group not found")
    else
      var vms := map id | id in db.vms ::
        if UsesGroup(db.vms[id], r.user, r.name) then db.vms[id].(sync := SyncPending) else db.vms[id];
      Ok(Tx(vms, db.nextVm, db.groups, []))
  }

  /** handleDeleteSecurityGroup: the reference count is over active rows, managed or not. */
  function HandleDeleteGroup(db: Db, r: Request): Result<Tx>
    requires r.DeleteGroup?
  {
    if exists id :: id in db.vms && db.vms[id].owner == r.user && db.vms[id].group == r.name && Active(db.vms[id])
    then Err("security group is still in use")
    else if Group(r.user, r.name) !in db.groups then Err("security group not found")
    else Ok(Tx(db.vms, db.nextVm, db.groups - {Group(r.user, r.name)}, []))
  }

  function Handle(cfg: Config, db: Db, r: Request, now: Time): Result<Tx> {
    if r.CreateVm? then HandleCreate(cfg, db, r)
    else if r.PatchVm? then HandlePatch(cfg, db, r)
    else if r.PowerVm? then HandlePower(db, r)
    else if r.DeleteVm? then HandleDelete(db, r, now)
    else if r.RestoreVm? then HandleRestore(db, r)
    else if r.DeleteNowVm? then HandleDeleteNow(db, r, now)
    else if r.PauseTasks? then HandlePaused(db, r.actor, r.vm, true)
    else if r.ResumeTasks? then HandlePaused(db, r.actor, r.vm, false)
    else if r.RetryVmTask? then HandleRetry(db, r)
    else if r.AdoptVm? then HandleAdopt(cfg, db, r)
    else if r.AdminSetIp? then HandleSetIp(cfg, db, r)
    else if r.AdminSetExempt? then HandleExempt(db, r)
    else if r.CreateGroup? then HandleCreateGroup(cfg, db, r)
    else if r.PatchGroup? then HandlePatchGroup(db, r)
    else HandleDeleteGroup(db, r)
  }
}
