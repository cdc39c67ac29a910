/** What every serial run keeps about ownership: VMIDs are unique among active rows, derived addresses never collide,
    security groups in use exist, and users stay within their quotas. */
module Tenancy {
  import opened Records
  import opened TaskQueue
  import opened Machine
  import opened Handlers
  import opened Serial
  import opened Allocation
  import Addressing
  import Inventory
  import DeleteProtocol

  const NEW_INSTALLATION := DeleteProtocol.NEW_INSTALLATION

  // ---- how events change rows ----

  /** The row keeps everything ownership depends on, and is not brought back to life. */
  predicate SameTenant(v: Vm, v': Vm) {
    && v'.owner == v.owner && v'.cluster == v.cluster && v'.vmid == v.vmid && v'.group == v.group && v'.managed == v.managed
    && v'.exempt == v.exempt && v'.cores == v.cores && v'.memory == v.memory && v'.disk == v.disk
    && v'.ip == v.ip && v'.bridgeKey == v.bridgeKey
    && (Active(v') ==> Active(v))
  }

  ghost predicate SameTenants(a: map<int, Vm>, b: map<int, Vm>) {
    b.Keys == a.Keys && forall id :: id in a ==> SameTenant(a[id], b[id])
  }

  lemma {:induction false} WritesKeepTenants(db: Db, vm: int, xs: seq<Write>, now: Time)
    ensures var db' := ApplyWrites(db, vm, xs, now);
            SameTenants(db.vms, db'.vms) && db'.groups == db.groups && db'.nextVm == db.nextVm
    decreases |xs|
  {
    if xs != [] {
      WritesKeepTenants(ApplyWrite(db, vm, xs[0], now), vm, xs[1..], now);
    }
  }

  /** No worker step but the scan touches ownership. */
  lemma WorkKeepsTenants(cfg: Config, c: Clockwork, w: World, a: Action)
    requires MayHappen(cfg, c, w, Work(a))
    ensures var db := Step(c, w, a).db;
            SameTenants(w.db.vms, db.vms) && db.groups == w.db.groups && db.nextVm == w.db.nextVm
  {
    if a.Exec? {
      WritesKeepTenants(w.db, w.phase.item.vmId, Body(w.phase.item, a.outcome, a.now).writes, a.now);
    }
  }

  predicate SameIdentity(v: Vm, v': Vm) {
    v'.cluster == v.cluster && v'.vmid == v.vmid && v'.deletedAt == v.deletedAt
  }

  /** The row a request is about. */
  function Target(r: Request): Option<int> {
    if r.PatchVm? || r.AdoptVm? || r.AdminSetIp? || r.AdminSetExempt? then Some(r.vm) else None
  }

  ghost predicate Shaped(db: Db, r: Request, tx: Tx) {
    && tx.nextVm == db.nextVm && tx.vms.Keys == db.vms.Keys
    && (forall id :: id in db.vms ==> SameIdentity(db.vms[id], tx.vms[id]))
    && (forall id :: id in db.vms && Target(r) != Some(id) ==> SameTenant(db.vms[id], tx.vms[id]))
    && (Target(r).Some? ==> Target(r).value in db.vms)
    && (!r.CreateGroup? && !r.DeleteGroup? ==> tx.groups == db.groups)
  }

  lemma RowUpdateShape(db: Db, r: Request, id: int, newRow: Vm, ops: seq<TaskOp>)
    requires id in db.vms && SameIdentity(db.vms[id], newRow)
    requires Target(r) == Some(id) || (Target(r) == None && SameTenant(db.vms[id], newRow))
    ensures Shaped(db, r, UpdateRow(db, id, newRow, ops))
  {
  }

  lemma ResourceRequestShape(cfg: Config, db: Db, r: Request, now: Time)
    requires Handle(cfg, db, r, now).Ok? && (r.PatchVm? || r.AdoptVm?)
    ensures Shaped(db, r, Handle(cfg, db, r, now).value)
  {
    var tx := Handle(cfg, db, r, now).value;
    RowUpdateShape(db, r, r.vm, tx.vms[r.vm], tx.ops);
  }

  lemma AdminRequestShape(cfg: Config, db: Db, r: Request, now: Time)
    requires Handle(cfg, db, r, now).Ok? && (r.AdminSetIp? || r.AdminSetExempt? || r.RetryVmTask? || r.PowerVm?)
    ensures Shaped(db, r, Handle(cfg, db, r, now).value)
  {
    var tx := Handle(cfg, db, r, now).value;
    RowUpdateShape(db, r, r.vm, tx.vms[r.vm], tx.ops);
  }

  lemma DeletionRequestShape(cfg: Config, db: Db, r: Request, now: Time)
    requires Handle(cfg, db, r, now).Ok? && (r.DeleteVm? || r.DeleteNowVm? || r.RestoreVm? || r.PauseTasks? || r.ResumeTasks?)
    ensures Shaped(db, r, Handle(cfg, db, r, now).value)
  {
    var tx := Handle(cfg, db, r, now).value;
    RowUpdateShape(db, r, r.vm, tx.vms[r.vm], tx.ops);
  }

  lemma GroupRequestShape(cfg: Config, db: Db, r: Request, now: Time)
    requires Handle(cfg, db, r, now).Ok? && (r.CreateGroup? || r.PatchGroup? || r.DeleteGroup?)
    ensures Shaped(db, r, Handle(cfg, db, r, now).value)
  {
  }

  /** Apart from creation, a request rewrites rows in place, and only the listed kinds touch ownership. */
  lemma RequestShape(cfg: Config, db: Db, r: Request, now: Time)
    requires Handle(cfg, db, r, now).Ok? && !r.CreateVm?
    ensures Shaped(db, r, Handle(cfg, db, r, now).value)
  {
    if r.PatchVm? || r.AdoptVm? { ResourceRequestShape(cfg, db, r, now); }
    else if r.AdminSetIp? || r.AdminSetExempt? || r.RetryVmTask? || r.PowerVm? { AdminRequestShape(cfg, db, r, now); }
    else if r.CreateGroup? || r.PatchGroup? || r.DeleteGroup? { GroupRequestShape(cfg, db, r, now); }
    else { DeletionRequestShape(cfg, db, r, now); }
  }

  // ---- VMIDs and addresses ----

  ghost predicate RowsInv(db: Db) {
    Inventory.RowIdsBelow(RowsOf(db)) && Inventory.UniqueActive(db.vms)
  }

  lemma CreateKeepsRows(cfg: Config, db: Db, r: Request)
    requires RowsInv(db) && r.CreateVm? && HandleCreate(cfg, db, r).Ok?
    ensures var tx := HandleCreate(cfg, db, r).value; RowsInv(Db(tx.vms, tx.nextVm, db.queue, tx.groups))
  {
    hide HandleCreate;
    DeleteProtocol.CreateKeepsUnique(cfg, db, r);
  }

  lemma EventKeepsRows(cfg: Config, c: Clockwork, w: World, e: Event)
    requires RowsInv(w.db) && MayHappen(cfg, c, w, e)
    ensures RowsInv(React(cfg, c, w, e).db)
  {
    match e
    case Req(r, now) => if r.CreateVm? { CreateKeepsRows(cfg, w.db, r); } else { RequestShape(cfg, w.db, r, now); }
    case ScanOf(cluster, found, swept, now) => Inventory.ScanPartChange(RowsOf(w.db), cluster, found, swept, now);
    case Work(a) => WorkKeepsTenants(cfg, c, w, a);
  }

  /** (cluster, vmid) is unique among active rows in every reachable state, without leaning on the database index. */
  lemma {:induction false} VmidsStayUnique(cfg: Config, c: Clockwork, es: seq<Event>)
    requires ValidHistory(cfg, c, NEW_INSTALLATION, es)
    ensures RowsInv(History(cfg, c, NEW_INSTALLATION, es).db)
    decreases |es|
  {
    if es != [] {
      VmidsStayUnique(cfg, c, es[..|es| - 1]);
      EventKeepsRows(cfg, c, History(cfg, c, NEW_INSTALLATION, es[..|es| - 1]), es[|es| - 1]);
    }
  }

  predicate HasDerivedIp(cfg: Config, vm: Vm) {
    vm.cluster in cfg.clusters && Addressing.DeriveIPv4(cfg.clusters[vm.cluster], vm.bridgeKey, vm.vmid) == Ok(vm.ip)
  }

  /** A created VM has its derived address. */
  lemma CreatedVmHasDerivedIp(cfg: Config, db: Db, r: Request)
    requires r.CreateVm? && HandleCreate(cfg, db, r).Ok?
    ensures HasDerivedIp(cfg, HandleCreate(cfg, db, r).value.vms[db.nextVm]) && HandleCreate(cfg, db, r).value.vms[db.nextVm].managed
  {
    hide CreateRefusal, NextVmid, PlacementNode;
  }

  predicate Creates(db: Db, e: Event, id: int) {
    e.Req? && e.request.CreateVm? && db.nextVm == id
  }

  /** The administrator's address edit, the only request that patches the address of a managed VM. */
  predicate SetsIp(e: Event, id: int) {
    e.Req? && e.request.AdminSetIp? && e.request.vm == id
  }

  /** The run created the row. */
  ghost predicate Created(cfg: Config, c: Clockwork, es: seq<Event>, id: int)
    requires ValidHistory(cfg, c, NEW_INSTALLATION, es)
    decreases |es|
  {
    es != [] &&
    var before := es[..|es| - 1];
    Created(cfg, c, before, id) || Creates(History(cfg, c, NEW_INSTALLATION, before).db, es[|es| - 1], id)
  }

  ghost predicate NeverSetsIp(es: seq<Event>, id: int) {
    forall k :: 0 <= k < |es| ==> !SetsIp(es[k], id)
  }

  ghost predicate Derived(cfg: Config, db: Db, id: int) {
    id in db.vms && db.vms[id].managed && HasDerivedIp(cfg, db.vms[id])
  }

  lemma ResourceRequestKeepsDerived(cfg: Config, db: Db, r: Request, now: Time, id: int)
    requires Derived(cfg, db, id) && Handle(cfg, db, r, now).Ok? && (r.PatchVm? || r.AdoptVm? || r.AdminSetExempt?)
    ensures Derived(cfg, Commit(db, Handle(cfg, db, r, now).value, now), id)
  {
    hide QuotaRefusal;
  }

  lemma RequestKeepsDerived(cfg: Config, db: Db, r: Request, now: Time, id: int)
    requires RowsInv(db) && Derived(cfg, db, id) && Handle(cfg, db, r, now).Ok? && !(r.AdminSetIp? && r.vm == id)
    ensures Derived(cfg, Commit(db, Handle(cfg, db, r, now).value, now), id)
  {
    hide HandleCreate, HandlePatch, HandleAdopt, HandleExempt, HandleSetIp, HasDerivedIp;
    if r.CreateVm? {
      CreateKeepsOthers(cfg, db, r);
    } else if r.PatchVm? || r.AdoptVm? || r.AdminSetExempt? {
      ResourceRequestKeepsDerived(cfg, db, r, now, id);
    } else {
      RequestShape(cfg, db, r, now);
      SameTenantKeepsDerived(cfg, db.vms[id], Handle(cfg, db, r, now).value.vms[id]);
    }
  }

  lemma SameTenantKeepsDerived(cfg: Config, v: Vm, v': Vm)
    requires SameTenant(v, v')
    ensures HasDerivedIp(cfg, v') == HasDerivedIp(cfg, v) && v'.managed == v.managed
  {
  }

  lemma CreateKeepsOthers(cfg: Config, db: Db, r: Request)
    requires RowsInv(db) && r.CreateVm? && HandleCreate(cfg, db, r).Ok?
    ensures var tx := HandleCreate(cfg, db, r).value; forall id :: id in db.vms ==> id in tx.vms && tx.vms[id] == db.vms[id]
  {
    hide CreateRefusal, CreatedRow;
  }

  lemma EventKeepsDerived(cfg: Config, c: Clockwork, w: World, e: Event, id: int)
    requires RowsInv(w.db) && Derived(cfg, w.db, id) && MayHappen(cfg, c, w, e) && !SetsIp(e, id)
    ensures Derived(cfg, React(cfg, c, w, e).db, id)
  {
    hide HasDerivedIp, Handle;
    match e
    case Req(r, now) => RequestKeepsDerived(cfg, w.db, r, now, id);
    case ScanOf(cluster, found, swept, now) => Inventory.ScanPartChange(RowsOf(w.db), cluster, found, swept, now);
    case Work(a) =>
      WorkKeepsTenants(cfg, c, w, a);
      SameTenantKeepsDerived(cfg, w.db.vms[id], Step(c, w, a).db.vms[id]);
  }

  /** A VM the run created keeps its derived address through patches, transfers, deletes, restores, scans and worker steps,
      until an administrator sets another. */
  lemma {:induction false} CreatedKeepsDerivedIp(cfg: Config, c: Clockwork, es: seq<Event>, id: int)
    requires ValidHistory(cfg, c, NEW_INSTALLATION, es) && Created(cfg, c, es, id) && NeverSetsIp(es, id)
    ensures Derived(cfg, History(cfg, c, NEW_INSTALLATION, es).db, id)
    decreases |es|
  {
    hide HasDerivedIp, HandleCreate, Step, MayHappen;
    var before, e := es[..|es| - 1], es[|es| - 1];
    var w := History(cfg, c, NEW_INSTALLATION, before);
    if Created(cfg, c, before, id) {
      CreatedKeepsDerivedIp(cfg, c, before, id);
      VmidsStayUnique(cfg, c, before);
      EventKeepsDerived(cfg, c, w, e, id);
    } else {
      CreationDerives(cfg, c, w, e, id);
    }
  }

  lemma CreationDerives(cfg: Config, c: Clockwork, w: World, e: Event, id: int)
    requires MayHappen(cfg, c, w, e) && Creates(w.db, e, id)
    ensures Derived(cfg, React(cfg, c, w, e).db, id)
  {
    hide HasDerivedIp;
    CreatedVmHasDerivedIp(cfg, w.db, e.request);
  }

  /** Created VMs whose address was never set by an administrator do not share one on a bridge. */
  lemma DerivedAddressesNeverCollide(cfg: Config, c: Clockwork, es: seq<Event>, i: int, j: int)
    requires ValidHistory(cfg, c, NEW_INSTALLATION, es) && i != j
    requires Created(cfg, c, es, i) && NeverSetsIp(es, i) && Created(cfg, c, es, j) && NeverSetsIp(es, j)
    ensures var vms := History(cfg, c, NEW_INSTALLATION, es).db.vms;
            && i in vms && j in vms
            && (Active(vms[i]) && Active(vms[j]) && vms[i].cluster == vms[j].cluster && vms[i].bridgeKey == vms[j].bridgeKey ==> vms[i].ip != vms[j].ip)
  {
    hide HasDerivedIp, Created, History, ValidHistory, NeverSetsIp;
    CreatedKeepsDerivedIp(cfg, c, es, i);
    CreatedKeepsDerivedIp(cfg, c, es, j);
    VmidsStayUnique(cfg, c, es);
    var vms := History(cfg, c, NEW_INSTALLATION, es).db.vms;
    if Active(vms[i]) && Active(vms[j]) && vms[i].cluster == vms[j].cluster && vms[i].bridgeKey == vms[j].bridgeKey {
      DerivedDiffer(cfg, vms[i], vms[j]);
    }
  }

  lemma DerivedDiffer(cfg: Config, v: Vm, v': Vm)
    requires HasDerivedIp(cfg, v) && HasDerivedIp(cfg, v') && v.cluster == v'.cluster && v.bridgeKey == v'.bridgeKey && v.vmid != v'.vmid
    ensures v.ip != v'.ip
  {
    if v.ip == v'.ip {
      Addressing.DeriveIsInjective(cfg.clusters[v.cluster], v.bridgeKey, v.vmid, v'.vmid);
    }
  }

  // ---- security groups ----

  predicate GroupExists(db: Db, vm: Vm) {
    Active(vm) && vm.managed ==> Group(vm.owner, vm.group) in db.groups
  }

  /** loadSecurityGroupConfig finds the group of every active managed VM. */
  ghost predicate GroupsInv(db: Db) {
    forall id :: id in db.vms ==> GroupExists(db, db.vms[id])
  }

  /** An adoption that names a group its new owner does not have. */
  predicate BorrowsGroup(db: Db, e: Event) {
    e.Req? && e.request.AdoptVm? && Group(e.request.user, e.request.group) !in db.groups
  }

  lemma PatchKeepsGroups(cfg: Config, db: Db, r: Request, now: Time)
    requires GroupsInv(db) && r.PatchVm? && HandlePatch(cfg, db, r).Ok?
    ensures GroupsInv(Commit(db, HandlePatch(cfg, db, r).value, now))
  {
    OneRowKeepsGroups(db, r.vm, HandlePatch(cfg, db, r).value, now);
  }

  lemma AdoptKeepsGroups(cfg: Config, db: Db, r: Request, now: Time)
    requires GroupsInv(db) && r.AdoptVm? && HandleAdopt(cfg, db, r).Ok? && Group(r.user, r.group) in db.groups
    ensures GroupsInv(Commit(db, HandleAdopt(cfg, db, r).value, now))
  {
    OneRowKeepsGroups(db, r.vm, HandleAdopt(cfg, db, r).value, now);
  }

  lemma AdminKeepsGroups(cfg: Config, db: Db, r: Request, now: Time)
    requires GroupsInv(db) && (r.AdminSetIp? || r.AdminSetExempt?) && Handle(cfg, db, r, now).Ok?
    ensures GroupsInv(Commit(db, Handle(cfg, db, r, now).value, now))
  {
    hide HandlePatch, HandleAdopt, HandleCreate;
    OneRowKeepsGroups(db, r.vm, Handle(cfg, db, r, now).value, now);
  }

  lemma OneRowKeepsGroups(db: Db, id: int, tx: Tx, now: Time)
    requires GroupsInv(db) && id in db.vms && id in tx.vms && tx.groups == db.groups && tx.vms == db.vms[id := tx.vms[id]]
    requires GroupExists(db, db.vms[id]) ==> GroupExists(db, tx.vms[id])
    ensures GroupsInv(Commit(db, tx, now))
  {
  }

  lemma DeleteGroupKeepsGroups(db: Db, r: Request, now: Time)
    requires GroupsInv(db) && r.DeleteGroup? && HandleDeleteGroup(db, r).Ok?
    ensures GroupsInv(Commit(db, HandleDeleteGroup(db, r).value, now))
  {
  }

  lemma ShapedKeepsGroups(db: Db, r: Request, tx: Tx, now: Time)
    requires GroupsInv(db) && Shaped(db, r, tx) && Target(r) == None && db.groups <= tx.groups
    ensures GroupsInv(Commit(db, tx, now))
  {
    forall id | id in tx.vms
      ensures GroupExists(Commit(db, tx, now), tx.vms[id])
    {
      assert GroupExists(db, db.vms[id]);
    }
  }

  lemma CreateKeepsGroups(cfg: Config, db: Db, r: Request, now: Time)
    requires GroupsInv(db) && r.CreateVm? && HandleCreate(cfg, db, r).Ok?
    ensures GroupsInv(Commit(db, HandleCreate(cfg, db, r).value, now))
  {
  }

  lemma RequestKeepsGroups(cfg: Config, db: Db, r: Request, now: Time)
    requires GroupsInv(db) && RowsInv(db) && Handle(cfg, db, r, now).Ok? && !BorrowsGroup(db, Req(r, now))
    ensures GroupsInv(Commit(db, Handle(cfg, db, r, now).value, now))
  {
    hide HandleCreate, HandlePatch, HandleAdopt, HandleSetIp, HandleExempt;
    if r.CreateVm? {
      CreateKeepsGroups(cfg, db, r, now);
    } else if r.PatchVm? {
      PatchKeepsGroups(cfg, db, r, now);
    } else if r.AdoptVm? {
      AdoptKeepsGroups(cfg, db, r, now);
    } else if r.AdminSetIp? || r.AdminSetExempt? {
      AdminKeepsGroups(cfg, db, r, now);
    } else if r.DeleteGroup? {
      DeleteGroupKeepsGroups(db, r, now);
    } else {
      RequestShape(cfg, db, r, now);
      ShapedKeepsGroups(db, r, Handle(cfg, db, r, now).value, now);
    }
  }

  lemma EventKeepsGroups(cfg: Config, c: Clockwork, w: World, e: Event)
    requires GroupsInv(w.db) && RowsInv(w.db) && MayHappen(cfg, c, w, e) && !BorrowsGroup(w.db, e)
    ensures GroupsInv(React(cfg, c, w, e).db)
  {
    match e
    case Req(r, now) => RequestKeepsGroups(cfg, w.db, r, now);
    case ScanOf(cluster, found, swept, now) => Inventory.ScanPartChange(RowsOf(w.db), cluster, found, swept, now);
    case Work(a) => WorkKeepsTenants(cfg, c, w, a);
  }

  ghost predicate NoBorrowing(cfg: Config, c: Clockwork, es: seq<Event>)
    requires ValidHistory(cfg, c, NEW_INSTALLATION, es)
    decreases |es|
  {
    es == [] ||
    (NoBorrowing(cfg, c, es[..|es| - 1]) && !BorrowsGroup(History(cfg, c, NEW_INSTALLATION, es[..|es| - 1]).db, es[|es| - 1]))
  }

  /** Group references never dangle, although nothing but the handlers' checks and the reference count protects them. */
  lemma {:induction false} GroupsNeverDangle(cfg: Config, c: Clockwork, es: seq<Event>)
    requires ValidHistory(cfg, c, NEW_INSTALLATION, es) && NoBorrowing(cfg, c, es)
    ensures GroupsInv(History(cfg, c, NEW_INSTALLATION, es).db)
    decreases |es|
  {
    if es != [] {
      var before := es[..|es| - 1];
      GroupsNeverDangle(cfg, c, before);
      VmidsStayUnique(cfg, c, before);
      EventKeepsGroups(cfg, c, History(cfg, c, NEW_INSTALLATION, before), es[|es| - 1]);
    }
  }

  /** Adoption looks the group up under security_group_owner but stores only the name. An accepted adoption of an active
      VM keeps the references sound exactly when the new owner has a group of that name. */
  lemma AdoptionIsSoundExactlyWhenOwned(cfg: Config, db: Db, r: Request, now: Time)
    requires GroupsInv(db) && RowsInv(db) && r.AdoptVm? && Handle(cfg, db, r, now).Ok? && Active(db.vms[r.vm])
    ensures GroupsInv(Commit(db, Handle(cfg, db, r, now).value, now)) <==> Group(r.user, r.group) in db.groups
    ensures r.groupOwner == "" || r.groupOwner == r.user ==> Group(r.user, r.group) in db.groups
  {
    if Group(r.user, r.group) in db.groups {
      RequestKeepsGroups(cfg, db, r, now);
    } else {
      var tx := Handle(cfg, db, r, now).value;
      assert !GroupExists(Commit(db, tx, now), tx.vms[r.vm]);
    }
  }
}
