/** Exactly when each request is accepted, in terms of the rows it meets. */
module Acceptance {
  import opened Records
  import opened TaskQueue
  import opened Machine
  import opened Handlers
  import opened Allocation
  import Addressing

  /** The VM is there and managed, and the actor is its owner or an administrator. */
  predicate Controls(db: Db, actor: Actor, vm: int) {
    vm in db.vms && db.vms[vm].managed && (actor.admin || actor.name == db.vms[vm].owner)
  }

  /** Its deletion has been requested, or the worker shows it as being deleted. */
  predicate Leaving(v: Vm) {
    v.requestedAt.Some? || v.sync == SyncDeleting
  }

  predicate MayDelete(db: Db, actor: Actor, vm: int) {
    Controls(db, actor, vm) && !Leaving(db.vms[vm])
  }

  /** The same for a restore and for a deletion right now. */
  predicate MayUndelete(db: Db, actor: Actor, vm: int) {
    Controls(db, actor, vm) && Leaving(db.vms[vm])
  }

  predicate MayRetry(db: Db, actor: Actor, vm: int, task: int) {
    Controls(db, actor, vm) && task in db.queue.rows && db.queue.rows[task].vm == vm && db.queue.rows[task].status == Failed
  }

  lemma DeleteIsAllowed(db: Db, actor: Actor, vm: int, now: Time)
    ensures HandleDelete(db, DeleteVm(actor, vm), now).Ok? <==> MayDelete(db, actor, vm)
    ensures HandleRestore(db, RestoreVm(actor, vm)).Ok? <==> MayUndelete(db, actor, vm)
    ensures HandleDeleteNow(db, DeleteNowVm(actor, vm), now).Ok? <==> MayUndelete(db, actor, vm)
  {
  }

  lemma QueueControlIsAllowed(db: Db, actor: Actor, vm: int, paused: bool, task: int)
    ensures HandlePaused(db, actor, vm, paused).Ok? <==> Controls(db, actor, vm)
    ensures HandleRetry(db, RetryVmTask(actor, vm, task)).Ok? <==> MayRetry(db, actor, vm, task)
  {
  }

  predicate MayPower(db: Db, visible: bool, vm: int, power: Power) {
    visible && vm in db.vms && db.vms[vm].managed && !Leaving(db.vms[vm]) && (power == PowerOn || power == PowerOff || power == PowerReboot)
  }

  lemma PowerIsAllowed(db: Db, visible: bool, vm: int, power: Power)
    ensures HandlePower(db, PowerVm(visible, vm, power)).Ok? <==> MayPower(db, visible, vm, power)
  {
  }

  predicate MayExempt(db: Db, vm: int) {
    vm in db.vms && !Leaving(db.vms[vm])
  }

  /** The cluster has a bridge, and no other VM that is not deleted has the address. */
  ghost predicate MaySetIp(cfg: Config, db: Db, vm: int, ip: Cidr) {
    && vm in db.vms && db.vms[vm].managed && !Leaving(db.vms[vm])
    && db.vms[vm].cluster in cfg.clusters && |cfg.clusters[db.vms[vm].cluster].bridges| > 0
    && forall id :: id in db.vms && id != vm && db.vms[id].deletedAt.None? && db.vms[id].cluster == db.vms[vm].cluster ==> db.vms[id].ip != ip
  }

  lemma AdminIsAllowed(cfg: Config, db: Db, vm: int, ip: Cidr, exempt: bool)
    ensures HandleSetIp(cfg, db, AdminSetIp(vm, ip)).Ok? <==> MaySetIp(cfg, db, vm, ip)
    ensures HandleExempt(db, AdminSetExempt(vm, exempt)).Ok? <==> MayExempt(db, vm)
  {
  }

  ghost predicate MayCreateGroup(cfg: Config, db: Db, user: string, name: string) {
    user in cfg.quotas && Group(user, name) !in db.groups && 0 < cfg.quotas[user].groups
    && |set g | g in db.groups && g.owner == user| < cfg.quotas[user].groups
  }

  ghost predicate MayDeleteGroup(db: Db, user: string, name: string) {
    && Group(user, name) in db.groups
    && forall id :: id in db.vms && db.vms[id].deletedAt.None? && db.vms[id].owner == user ==> db.vms[id].group != name
  }

  lemma OwnedMeans(db: Db, user: string)
    ensures OwnedGroups(db, user) == set g | g in db.groups && g.owner == user
  {
  }

  lemma GroupIsAllowed(cfg: Config, db: Db, user: string, name: string)
    ensures HandleCreateGroup(cfg, db, CreateGroup(user, name)).Ok? <==> MayCreateGroup(cfg, db, user, name)
    ensures HandlePatchGroup(db, PatchGroup(user, name)).Ok? <==> Group(user, name) in db.groups
    ensures HandleDeleteGroup(db, DeleteGroup(user, name)).Ok? <==> MayDeleteGroup(db, user, name)
  {
    OwnedMeans(db, user);
  }

  // ---- resources ----

  /** The amounts are within the options the cluster offers under these keys. */
  predicate Offered(cfg: Config, clusterKey: string, cpuKey: string, storageKey: string, bridgeKey: string, cores: int, memory: int, disk: int) {
    && clusterKey in cfg.clusters
    && var cluster := cfg.clusters[clusterKey];
    && cpuKey in cluster.cpus && storageKey in cluster.storages && bridgeKey in cluster.bridges
    && 0 < cores <= cluster.cpus[cpuKey].limit && 0 < memory <= cluster.cpus[cpuKey].memoryLimit && 20 <= disk <= cluster.storages[storageKey]
  }

  /** The user has a quota and one more VM of this size fits. */
  predicate Affords(cfg: Config, db: Db, user: string, cores: int, memory: int, disk: int) {
    && user in cfg.quotas
    && var q, u := cfg.quotas[user], UserUsage(db, user);
    u.count + 1 <= q.number && u.cpu + cores <= q.cpu && u.memory + memory <= q.memory && u.storage + disk <= q.storage
  }

  /** The least free VMID of the window, which the bridge has an address for. */
  ghost predicate Allocatable(cfg: Config, db: Db, clusterKey: string, bridgeKey: string, vmid: int)
    requires clusterKey in cfg.clusters && bridgeKey in cfg.clusters[clusterKey].bridges
  {
    var cluster := cfg.clusters[clusterKey];
    && cluster.startVmid <= vmid < cluster.startVmid + cluster.limit && !Taken(db, clusterKey, vmid)
    && (forall n :: cluster.startVmid <= n < vmid ==> Taken(db, clusterKey, n))
    && cluster.bridges[bridgeKey].base.Some?
    && 0 <= Addressing.Value(cluster.bridges[bridgeKey].base.value) + vmid - cluster.startVmid < 0x1_0000_0000
  }

  /** As far from the bridge's start address as the VMID is from the first one of the cluster. */
  function AddressOf(cluster: Cluster, bridgeKey: string, vmid: int): Cidr
    requires bridgeKey in cluster.bridges && cluster.bridges[bridgeKey].base.Some?
  {
    Cidr(Addressing.Value(cluster.bridges[bridgeKey].base.value) + vmid - cluster.startVmid, cluster.bridges[bridgeKey].prefix)
  }

  ghost predicate MayCreate(cfg: Config, db: Db, r: Request)
    requires r.CreateVm?
  {
    && r.formOk && (r.power == PowerOn || r.power == PowerOff) && r.template.Some?
    && Offered(cfg, r.cluster, r.cpuKey, r.storageKey, r.bridgeKey, r.cores, r.memory, r.disk)
    && Group(r.user, r.group) in db.groups
    && Affords(cfg, db, r.user, r.cores, r.memory, r.disk)
    && (var q := cfg.quotas[r.user]; q.number > 0 && q.cpu > 0 && q.memory > 0 && q.storage > 0 && q.groups > 0)
    && exists vmid :: Allocatable(cfg, db, r.cluster, r.bridgeKey, vmid)
  }

  lemma AllocationSucceeds(cfg: Config, db: Db, r: Request)
    requires r.CreateVm? && r.template.Some? && r.cluster in cfg.clusters && r.cpuKey in cfg.clusters[r.cluster].cpus
    requires r.bridgeKey in cfg.clusters[r.cluster].bridges
    ensures CreatedRow(cfg, db, r).Ok? <==> exists vmid :: Allocatable(cfg, db, r.cluster, r.bridgeKey, vmid)
  {
    hide PlacementNode, Taken;
    var cluster := cfg.clusters[r.cluster];
    UsedIsTaken(db, r.cluster);
    FirstFreeIsLeast(UsedVmids(db, r.cluster), cluster.startVmid, cluster.startVmid + cluster.limit);
    if CreatedRow(cfg, db, r).Ok? {
      assert Allocatable(cfg, db, r.cluster, r.bridgeKey, NextVmid(db, r.cluster, cluster.startVmid, cluster.limit).value);
    }
    if vmid :| Allocatable(cfg, db, r.cluster, r.bridgeKey, vmid) {
      assert NextVmid(db, r.cluster, cluster.startVmid, cluster.limit) == Ok(vmid);
    }
  }

  lemma CreateChecks(cfg: Config, db: Db, r: Request)
    requires r.CreateVm?
    ensures CreateRefusal(cfg, db, r) == None <==>
              && r.formOk && (r.power == PowerOn || r.power == PowerOff) && r.template.Some?
              && Offered(cfg, r.cluster, r.cpuKey, r.storageKey, r.bridgeKey, r.cores, r.memory, r.disk)
              && Group(r.user, r.group) in db.groups
              && Affords(cfg, db, r.user, r.cores, r.memory, r.disk)
              && (var q := cfg.quotas[r.user]; q.number > 0 && q.cpu > 0 && q.memory > 0 && q.storage > 0 && q.groups > 0)
  {
    hide UsageBelow;
  }

  lemma CreateIsAllowed(cfg: Config, db: Db, r: Request)
    requires r.CreateVm?
    ensures HandleCreate(cfg, db, r).Ok? <==> MayCreate(cfg, db, r)
  {
    hide CreateRefusal, CreatedRow, Affords, Allocatable;
    CreateChecks(cfg, db, r);
    if CreateRefusal(cfg, db, r) == None {
      AllocationSucceeds(cfg, db, r);
    }
  }

  predicate MayAdopt(cfg: Config, db: Db, r: Request)
    requires r.AdoptVm?
  {
    && r.formOk && (r.power == PowerOn || r.power == PowerOff || r.power == PowerReboot)
    && r.vm in db.vms && !db.vms[r.vm].managed && !Leaving(db.vms[r.vm])
    && Offered(cfg, db.vms[r.vm].cluster, r.cpuKey, r.storageKey, r.bridgeKey, r.cores, r.memory, r.disk)
    && Affords(cfg, db, r.user, r.cores, r.memory, r.disk)
    && Group(if r.groupOwner == "" then r.user else r.groupOwner, r.group) in db.groups
  }

  lemma AdoptIsAllowed(cfg: Config, db: Db, r: Request)
    requires r.AdoptVm?
    ensures HandleAdopt(cfg, db, r).Ok? <==> MayAdopt(cfg, db, r)
  {
    hide UsageBelow;
  }

  /** What the handler tests of a patched row that is not exempt: the amounts against the class the VM has and the storage it
      will be on, where these are known, and the owner's sums with the new row in place of the old one against the quota. */
  predicate PatchFits(cfg: Config, db: Db, v: Vm, user: string, cores: int, memory: int, disk: int, storageKey: string) {
    && v.cluster in cfg.clusters
    && var cluster, u := cfg.clusters[v.cluster], UserUsage(db, user);
    && var q := if user in cfg.quotas then cfg.quotas[user] else Quota(0, 0, 0, 0, 0);
    && (v.cpuKey in cluster.cpus ==> cores <= cluster.cpus[v.cpuKey].limit && memory <= cluster.cpus[v.cpuKey].memoryLimit)
    && (storageKey in cluster.storages ==> disk <= cluster.storages[storageKey])
    && u.count <= q.number && u.cpu - v.cores + cores <= q.cpu && u.memory - v.memory + memory <= q.memory && u.storage - v.disk + disk <= q.storage
  }

  /** `user`, `cores` and so on are what the row will hold. */
  predicate PatchFields(cfg: Config, db: Db, r: Request, user: string, group: string, cores: int, memory: int, disk: int, storageKey: string)
    requires r.PatchVm? && r.vm in db.vms
  {
    var v := db.vms[r.vm];
    var resizes := r.newCores.Some? || r.newMemory.Some? || r.newDisk.Some? || r.newStorage.Some?;
    && (r.newOwner.Some? || r.newGroup.Some? ==> Group(user, group) in db.groups)
    && (r.newOwner.Some? || r.newGroup.Some? || resizes || r.other)
    && (resizes ==> v.cluster in cfg.clusters && disk >= v.disk && (r.newStorage.Some? ==> storageKey in cfg.clusters[v.cluster].storages))
    && (!v.exempt && (resizes || r.newOwner.Some?) ==> PatchFits(cfg, db, v, user, cores, memory, disk, storageKey))
  }

  predicate MayPatch(cfg: Config, db: Db, r: Request)
    requires r.PatchVm?
  {
    && r.formOk && Controls(db, r.actor, r.vm) && !Leaving(db.vms[r.vm])
    && (r.newOwner.Some? ==> r.actor.admin && r.newOwner.value in cfg.quotas)
    && var v := db.vms[r.vm];
    PatchFields(cfg, db, r,
                if r.newOwner.Some? then r.newOwner.value else v.owner, if r.newGroup.Some? then r.newGroup.value else v.group,
                if r.newCores.Some? then r.newCores.value else v.cores, if r.newMemory.Some? then r.newMemory.value else v.memory,
                if r.newDisk.Some? then r.newDisk.value else v.disk, if r.newStorage.Some? then r.newStorage.value else v.storageKey)
  }

  lemma QuotaTestMeans(cfg: Config, db: Db, vm: Vm, newRow: Vm)
    ensures QuotaRefusal(cfg, db, vm, newRow) == None <==>
              PatchFits(cfg, db, vm, newRow.owner, newRow.cores, newRow.memory, newRow.disk, newRow.storageKey)
  {
    hide UsageBelow;
  }

  lemma PatchIsAllowed(cfg: Config, db: Db, r: Request)
    requires r.PatchVm?
    ensures HandlePatch(cfg, db, r).Ok? <==> MayPatch(cfg, db, r)
  {
    hide UsageBelow, QuotaRefusal, PatchFits;
    if PatchAccess(cfg, db, r) == None {
      QuotaTestMeans(cfg, db, db.vms[r.vm], PatchedRow(r, db.vms[r.vm]));
    }
  }
}
