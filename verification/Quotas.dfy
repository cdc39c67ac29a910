/** Quota accounting over serial runs: which requests keep every user within the limit, and by how much a transfer and an
    exemption taken back can miss. What a patch to a negative amount does is in Overdraft. */
module Quotas {
  import opened Records
  import opened TaskQueue
  import opened Machine
  import opened Handlers
  import opened Serial
  import opened Allocation
  import opened Tenancy
  import Inventory

  // ---- sums under row updates ----

  /** What a row adds to a user's usage. */
  function Share(vm: Vm, user: string): Usage {
    if CountsFor(vm, user) then RowUsage(vm) else NO_USAGE
  }

  lemma {:induction false} UsageAfterUpdate(vms: map<int, Vm>, user: string, id: int, v: Vm, n: nat)
    requires id in vms
    ensures UsageBelow(vms[id := v], user, n)
         == if 0 <= id < n then Plus(Minus(UsageBelow(vms, user, n), Share(vms[id], user)), Share(v, user)) else UsageBelow(vms, user, n)
  {
    if n > 0 {
      UsageAfterUpdate(vms, user, id, v, n - 1);
    }
  }

  lemma {:induction false} UsageIgnoresAbove(vms: map<int, Vm>, user: string, id: int, v: Vm, n: nat)
    requires id >= n
    ensures UsageBelow(vms[id := v], user, n) == UsageBelow(vms, user, n)
  {
    if n > 0 {
      UsageIgnoresAbove(vms, user, id, v, n - 1);
    }
  }

  /** Nobody uses anything without rows, and a new row counts for its owner, and only if it is managed and not exempt. With
      UsageAfterUpdate this determines the usage of every user. */
  lemma NewRowCountsForItsOwner(db: Db, v: Vm, user: string)
    ensures UsageBelow(map[], user, 1) == Usage(0, 0, 0, 0)
    ensures var u := UserUsage(db, user);
            UserUsage(db.(vms := db.vms[db.nextVm := v], nextVm := db.nextVm + 1), user)
            == if v.owner == user && v.deletedAt.None? && v.managed && !v.exempt
               then Usage(u.count + 1, u.cpu + v.cores, u.memory + v.memory, u.storage + v.disk) else u
  {
    UsageIgnoresAbove(db.vms, user, db.nextVm, v, db.nextVm);
    assert UsageBelow(map[], user, 0) == NO_USAGE;
  }

  predicate AtMost(a: Usage, b: Usage) {
    a.count <= b.count && a.cpu <= b.cpu && a.memory <= b.memory && a.storage <= b.storage
  }

  predicate NonNegative(vm: Vm) {
    vm.managed ==> vm.cores >= 0 && vm.memory >= 0 && vm.disk >= 0
  }

  lemma {:induction false} UsageShrinks(a: map<int, Vm>, b: map<int, Vm>, user: string, n: nat)
    requires SameTenants(a, b) && forall id :: id in a ==> NonNegative(a[id])
    ensures AtMost(UsageBelow(b, user, n), UsageBelow(a, user, n))
  {
    if n > 0 {
      UsageShrinks(a, b, user, n - 1);
    }
  }

  /** The inventory scan adds and changes only rows that count for nobody. */
  lemma {:induction false} UsageIgnoresScan(a: Inventory.Rows, b: Inventory.Rows, user: string, n: nat)
    requires Inventory.ScanChange(a, b)
    ensures UsageBelow(b.vms, user, n) == UsageBelow(a.vms, user, n)
  {
    if n > 0 {
      UsageIgnoresScan(a, b, user, n - 1);
    }
  }

  lemma {:induction false} UsageStops(rows: Inventory.Rows, user: string, n: nat)
    requires Inventory.RowIdsBelow(rows) && n >= rows.next
    ensures UsageBelow(rows.vms, user, n) == UsageBelow(rows.vms, user, rows.next)
    decreases n
  {
    if n > rows.next {
      UsageStops(rows, user, n - 1);
    }
  }

  // ---- the invariant ----

  ghost predicate QuotaInv(cfg: Config, db: Db) {
    && (forall user :: user in cfg.quotas ==> !Over(UserUsage(db, user), cfg.quotas[user]))
    && (forall id :: id in db.vms ==> NonNegative(db.vms[id]))
  }

  /** A change of owner: the quota test then compares the wrong total, see TransferTotal. */
  predicate Transfers(db: Db, r: Request) {
    r.PatchVm? && r.vm in db.vms && OrElse(r.newOwner, db.vms[r.vm].owner) != db.vms[r.vm].owner
  }

  /** A patch to a negative amount, which the handler does not refuse; see Overdraft. */
  predicate AsksNegative(r: Request) {
    r.PatchVm? && (OrElse(r.newCores, 0) < 0 || OrElse(r.newMemory, 0) < 0)
  }

  /** An exemption taken back, which the handler does not check. */
  predicate Unexempts(db: Db, r: Request) {
    r.AdminSetExempt? && !r.exempt && r.vm in db.vms && db.vms[r.vm].exempt
  }

  predicate Unchecked(db: Db, e: Event) {
    e.Req? && (Transfers(db, e.request) || AsksNegative(e.request) || Unexempts(db, e.request))
  }

  lemma CreateKeepsQuota(cfg: Config, db: Db, r: Request)
    requires QuotaInv(cfg, db) && RowsInv(db) && r.CreateVm? && HandleCreate(cfg, db, r).Ok?
    ensures var tx := HandleCreate(cfg, db, r).value; QuotaInv(cfg, Db(tx.vms, tx.nextVm, db.queue, tx.groups))
  {
    var tx := HandleCreate(cfg, db, r).value;
    forall user | user in cfg.quotas
      ensures !Over(UsageBelow(tx.vms, user, tx.nextVm), cfg.quotas[user])
    {
      UsageIgnoresAbove(db.vms, user, db.nextVm, tx.vms[db.nextVm], db.nextVm);
      assert !Over(UserUsage(db, user), cfg.quotas[user]);
    }
  }

  /** The patch's subtract-the-old, add-the-new total is the sum over the updated rows. */
  lemma PatchTotalIsExact(cfg: Config, db: Db, r: Request)
    requires RowsInv(db) && r.PatchVm? && HandlePatch(cfg, db, r).Ok? && !Transfers(db, r)
    requires var vm := db.vms[r.vm]; Active(vm) && !vm.exempt
    ensures var tx := HandlePatch(cfg, db, r).value;
            UsageBelow(tx.vms, db.vms[r.vm].owner, db.nextVm) == PatchedUsage(db, db.vms[r.vm], PatchedRow(r, db.vms[r.vm]))
  {
    UsageAfterUpdate(db.vms, db.vms[r.vm].owner, r.vm, PatchedRow(r, db.vms[r.vm]), db.nextVm);
  }

  lemma PatchKeepsQuota(cfg: Config, db: Db, r: Request)
    requires QuotaInv(cfg, db) && RowsInv(db) && r.PatchVm? && HandlePatch(cfg, db, r).Ok? && !Transfers(db, r) && !AsksNegative(r)
    ensures var tx := HandlePatch(cfg, db, r).value; QuotaInv(cfg, Db(tx.vms, tx.nextVm, db.queue, tx.groups))
  {
    var tx := HandlePatch(cfg, db, r).value;
    var vm := db.vms[r.vm];
    var newRow := PatchedRow(r, vm);
    forall user | user in cfg.quotas
      ensures !Over(UsageBelow(tx.vms, user, tx.nextVm), cfg.quotas[user])
    {
      UsageAfterUpdate(db.vms, user, r.vm, newRow, db.nextVm);
      assert !Over(UserUsage(db, user), cfg.quotas[user]);
    }
    assert NonNegative(vm);
  }

  lemma AdoptKeepsQuota(cfg: Config, db: Db, r: Request)
    requires QuotaInv(cfg, db) && RowsInv(db) && r.AdoptVm? && HandleAdopt(cfg, db, r).Ok?
    ensures var tx := HandleAdopt(cfg, db, r).value; QuotaInv(cfg, Db(tx.vms, tx.nextVm, db.queue, tx.groups))
  {
    var tx := HandleAdopt(cfg, db, r).value;
    forall user | user in cfg.quotas
      ensures !Over(UsageBelow(tx.vms, user, tx.nextVm), cfg.quotas[user])
    {
      UsageAfterUpdate(db.vms, user, r.vm, tx.vms[r.vm], db.nextVm);
      assert !Over(UserUsage(db, user), cfg.quotas[user]);
    }
  }

  lemma AdminKeepsQuota(cfg: Config, db: Db, r: Request, now: Time)
    requires QuotaInv(cfg, db) && RowsInv(db) && (r.AdminSetIp? || r.AdminSetExempt?) && Handle(cfg, db, r, now).Ok? && !Unexempts(db, r)
    ensures var tx := Handle(cfg, db, r, now).value; QuotaInv(cfg, Db(tx.vms, tx.nextVm, db.queue, tx.groups))
  {
    var tx := Handle(cfg, db, r, now).value;
    forall user | user in cfg.quotas
      ensures !Over(UsageBelow(tx.vms, user, tx.nextVm), cfg.quotas[user])
    {
      UsageAfterUpdate(db.vms, user, r.vm, tx.vms[r.vm], db.nextVm);
      assert tx.vms == db.vms[r.vm := tx.vms[r.vm]];
      assert !Over(UserUsage(db, user), cfg.quotas[user]) && NonNegative(db.vms[r.vm]);
    }
    assert NonNegative(db.vms[r.vm]);
  }

  lemma TenantsKeepQuota(cfg: Config, db: Db, db': Db)
    requires QuotaInv(cfg, db) && SameTenants(db.vms, db'.vms) && db'.nextVm == db.nextVm
    ensures QuotaInv(cfg, db')
  {
    forall user | user in cfg.quotas
      ensures !Over(UserUsage(db', user), cfg.quotas[user])
    {
      UsageShrinks(db.vms, db'.vms, user, db.nextVm);
      assert !Over(UserUsage(db, user), cfg.quotas[user]);
    }
    forall id | id in db'.vms
      ensures NonNegative(db'.vms[id])
    {
      assert NonNegative(db.vms[id]);
    }
  }

  lemma ScanKeepsQuota(cfg: Config, db: Db, cluster: string, found: seq<Inventory.Resource>, swept: set<int>, now: Time)
    requires QuotaInv(cfg, db) && RowsInv(db)
    ensures var rows := Inventory.ScanPart(RowsOf(db), cluster, found, swept, now); QuotaInv(cfg, db.(vms := rows.vms, nextVm := rows.next))
  {
    var rows := Inventory.ScanPart(RowsOf(db), cluster, found, swept, now);
    Inventory.ScanPartChange(RowsOf(db), cluster, found, swept, now);
    forall user | user in cfg.quotas
      ensures !Over(UsageBelow(rows.vms, user, rows.next), cfg.quotas[user])
    {
      UsageIgnoresScan(RowsOf(db), rows, user, rows.next);
      UsageStops(RowsOf(db), user, rows.next);
      assert !Over(UserUsage(db, user), cfg.quotas[user]);
    }
    forall id | id in rows.vms
      ensures NonNegative(rows.vms[id])
    {
      if id in db.vms { assert NonNegative(db.vms[id]); }
    }
  }

  lemma EventKeepsQuota(cfg: Config, c: Clockwork, w: World, e: Event)
    requires QuotaInv(cfg, w.db) && RowsInv(w.db) && MayHappen(cfg, c, w, e) && !Unchecked(w.db, e)
    ensures QuotaInv(cfg, React(cfg, c, w, e).db)
  {
    match e
    case Req(r, now) =>
      if r.CreateVm? { CreateKeepsQuota(cfg, w.db, r); }
      else if r.PatchVm? { PatchKeepsQuota(cfg, w.db, r); }
      else if r.AdoptVm? { AdoptKeepsQuota(cfg, w.db, r); }
      else if r.AdminSetIp? || r.AdminSetExempt? { AdminKeepsQuota(cfg, w.db, r, now); }
      else {
        RequestShape(cfg, w.db, r, now);
        TenantsKeepQuota(cfg, w.db, React(cfg, c, w, e).db);
      }
    case ScanOf(cluster, found, swept, now) => ScanKeepsQuota(cfg, w.db, cluster, found, swept, now);
    case Work(a) =>
      WorkKeepsTenants(cfg, c, w, a);
      TenantsKeepQuota(cfg, w.db, Step(c, w, a).db);
  }

  ghost predicate AllChecked(cfg: Config, c: Clockwork, es: seq<Event>)
    requires ValidHistory(cfg, c, NEW_INSTALLATION, es)
    decreases |es|
  {
    es == [] ||
    (AllChecked(cfg, c, es[..|es| - 1]) && !Unchecked(History(cfg, c, NEW_INSTALLATION, es[..|es| - 1]).db, es[|es| - 1]))
  }

  /** Over every serial run of checked requests, each user's active managed non-exempt VMs stay within the quota. */
  lemma {:induction false} UsersStayWithinQuota(cfg: Config, c: Clockwork, es: seq<Event>)
    requires ValidHistory(cfg, c, NEW_INSTALLATION, es) && AllChecked(cfg, c, es)
    requires forall user :: user in cfg.quotas ==> !Over(NO_USAGE, cfg.quotas[user])
    ensures QuotaInv(cfg, History(cfg, c, NEW_INSTALLATION, es).db)
    decreases |es|
  {
    if es == [] {
      forall user | user in cfg.quotas
        ensures !Over(UsageBelow(map[], user, 1), cfg.quotas[user])
      {
        assert UsageBelow(map[], user, 0) == NO_USAGE;
      }
    } else {
      var before := es[..|es| - 1];
      UsersStayWithinQuota(cfg, c, before);
      VmidsStayUnique(cfg, c, before);
      EventKeepsQuota(cfg, c, History(cfg, c, NEW_INSTALLATION, before), es[|es| - 1]);
    }
  }

  // ---- the unchecked requests ----

  /** Handing an active, counted VM to another user: the handler has already overwritten the owner when it decides to
      subtract the old row, so the total it tests is short of the new owner's real usage by exactly that row. The new
      owner ends up within quota if and only if the tested total plus the old row is. */
  lemma TransferTotal(cfg: Config, db: Db, r: Request)
    requires RowsInv(db) && r.PatchVm? && HandlePatch(cfg, db, r).Ok? && Transfers(db, r)
    requires var vm := db.vms[r.vm]; Active(vm) && !vm.exempt
    ensures var vm := db.vms[r.vm];
            var user := r.newOwner.value;
            var tested := PatchedUsage(db, vm, PatchedRow(r, vm));
            var after := UsageBelow(HandlePatch(cfg, db, r).value.vms, user, db.nextVm);
            && after == Plus(tested, RowUsage(vm)) == Plus(UserUsage(db, user), RowUsage(PatchedRow(r, vm)))
            && !Over(tested, QuotaOf(cfg, user))
  {
    UsageAfterUpdate(db.vms, r.newOwner.value, r.vm, PatchedRow(r, db.vms[r.vm]), db.nextVm);
  }

  /** Rewriting one row leaves every other user's usage within what it was. */
  lemma OthersStayWithin(cfg: Config, db: Db, id: int, v: Vm, user: string)
    requires QuotaInv(cfg, db) && RowsInv(db) && id in db.vms && user in cfg.quotas && !CountsFor(v, user)
    ensures !Over(UsageBelow(db.vms[id := v], user, db.nextVm), cfg.quotas[user])
  {
    UsageAfterUpdate(db.vms, user, id, v, db.nextVm);
    assert !Over(UserUsage(db, user), cfg.quotas[user]) && NonNegative(db.vms[id]);
  }

  /** A row rewritten in place keeps all quotas exactly if its owner's usage afterwards is within quota. */
  lemma OneRowKeepsQuotaExactly(cfg: Config, db: Db, b: Db, id: int, v: Vm)
    requires QuotaInv(cfg, db) && RowsInv(db) && id in db.vms && NonNegative(v) && v.owner in cfg.quotas
    requires b.vms == db.vms[id := v] && b.nextVm == db.nextVm
    ensures QuotaInv(cfg, b) <==> !Over(UserUsage(b, v.owner), cfg.quotas[v.owner])
  {
    forall user | user in cfg.quotas && user != v.owner
      ensures !Over(UserUsage(b, user), cfg.quotas[user])
    {
      OthersStayWithin(cfg, db, id, v, user);
    }
  }

  /** An accepted transfer of an active, counted VM keeps all quotas if and only if the new owner's present usage and the
      patched row fit the quota together. */
  lemma TransferKeepsQuotaExactly(cfg: Config, db: Db, r: Request, now: Time)
    requires QuotaInv(cfg, db) && RowsInv(db) && r.PatchVm? && HandlePatch(cfg, db, r).Ok? && Transfers(db, r) && !AsksNegative(r)
    requires var vm := db.vms[r.vm]; Active(vm) && !vm.exempt
    ensures r.newOwner.value in cfg.quotas
    ensures QuotaInv(cfg, Commit(db, HandlePatch(cfg, db, r).value, now)) <==>
              !Over(Plus(UserUsage(db, r.newOwner.value), RowUsage(PatchedRow(r, db.vms[r.vm]))), cfg.quotas[r.newOwner.value])
  {
    TransferTotal(cfg, db, r);
    assert NonNegative(db.vms[r.vm]);
    OneRowKeepsQuotaExactly(cfg, db, Commit(db, HandlePatch(cfg, db, r).value, now), r.vm, PatchedRow(r, db.vms[r.vm]));
  }

  /** Taking an exemption back adds the row without a test. */
  lemma UnexemptTotal(db: Db, r: Request)
    requires RowsInv(db) && Unexempts(db, r) && HandleExempt(db, r).Ok? && Active(db.vms[r.vm]) && db.vms[r.vm].managed
    ensures var vm := db.vms[r.vm];
            UsageBelow(HandleExempt(db, r).value.vms, vm.owner, db.nextVm) == Plus(UserUsage(db, vm.owner), RowUsage(vm))
  {
    UsageAfterUpdate(db.vms, db.vms[r.vm].owner, r.vm, HandleExempt(db, r).value.vms[r.vm], db.nextVm);
  }

  /** It keeps all quotas if and only if the row fits its owner's quota beside what the owner already uses. */
  lemma UnexemptKeepsQuotaExactly(cfg: Config, db: Db, r: Request, now: Time)
    requires QuotaInv(cfg, db) && RowsInv(db) && Unexempts(db, r) && HandleExempt(db, r).Ok?
    requires var vm := db.vms[r.vm]; Active(vm) && vm.managed && vm.owner in cfg.quotas
    ensures var vm := db.vms[r.vm];
            QuotaInv(cfg, Commit(db, HandleExempt(db, r).value, now)) <==> !Over(Plus(UserUsage(db, vm.owner), RowUsage(vm)), cfg.quotas[vm.owner])
  {
    UnexemptTotal(db, r);
    assert NonNegative(db.vms[r.vm]);
    OneRowKeepsQuotaExactly(cfg, db, Commit(db, HandleExempt(db, r).value, now), r.vm, HandleExempt(db, r).value.vms[r.vm]);
  }

  /** So handing a VM over unchanged never fails the quota test, even when the new owner has no room: a transfer to a
      user who already has as many VMs as allowed is accepted and leaves that user over quota. */
  lemma TransferToFullUserExceeds(cfg: Config, db: Db, r: Request, now: Time)
    requires QuotaInv(cfg, db) && RowsInv(db) && Transfers(db, r) && Active(db.vms[r.vm]) && db.vms[r.vm].managed && !db.vms[r.vm].exempt
    requires r.newCores.None? && r.newMemory.None? && r.newDisk.None? && r.newOwner.value in cfg.quotas
    requires UserUsage(db, r.newOwner.value).count == cfg.quotas[r.newOwner.value].number
    ensures QuotaRefusal(cfg, db, db.vms[r.vm], PatchedRow(r, db.vms[r.vm])) != Some("quota exceeded")
    ensures Handle(cfg, db, r, now).Ok? ==> !QuotaInv(cfg, Commit(db, Handle(cfg, db, r, now).value, now))
  {
    var vm, user := db.vms[r.vm], r.newOwner.value;
    assert !Over(UserUsage(db, user), cfg.quotas[user]);
    assert PatchedUsage(db, vm, PatchedRow(r, vm)) == UserUsage(db, user);
    UsageAfterUpdate(db.vms, user, r.vm, PatchedRow(r, vm), db.nextVm);
    if Handle(cfg, db, r, now).Ok? {
      var after := Commit(db, Handle(cfg, db, r, now).value, now);
      assert Over(UserUsage(after, user), cfg.quotas[user]);
    }
  }
}
