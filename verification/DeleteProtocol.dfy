/** The delete protocol over serial runs: a 24-hour window with restore, delete-now and re-queue on expiry. */
module DeleteProtocol {
  import opened Records
  import opened TaskQueue
  import opened Machine
  import opened Handlers
  import opened Serial
  import Inventory
  import opened Allocation

  /** A payload that makes syncDelete look at the row instead of the payload. */
  predicate Flagged(p: Payload) {
    p.DeletePayload? && (p.immediate || p.expired)
  }

  /** A restore in this state leaves an active VM with a failed delete task that carries its own, no longer wanted, deadline. */
  ghost predicate Leaks(db: Db, vm: int) {
    vm in db.vms && Active(db.vms[vm]) && exists id :: id in db.queue.rows && Leaking(db.queue.rows[id], vm)
  }

  predicate Leaking(t: Task, vm: int) {
    t.vm == vm && t.kind == Delete && t.status == Failed && !Flagged(t.payload)
  }

  // ---- the invariant ----

  /** The delete fields of a row without an outstanding request are all clear. */
  predicate RowOk(vm: Vm) {
    && (vm.requestedAt.Some? ==> vm.executeAfter.Some?)
    && (vm.requestedAt.None? ==> vm.executeAfter.None? && vm.preferAfter.None? && vm.intent != IntentDeletePending && vm.sync != SyncDeleting)
  }

  /** A live task matches the row it belongs to; the deadline of a deleted VM no longer matters. */
  predicate TaskOk(t: Task, vm: Vm) {
    !Settled(t) ==>
      && (vm.requestedAt.Some? ==> t.kind == Delete)
      && (t.kind == Delete ==>
            && t.payload.DeletePayload?
            && (Active(vm) ==> Flagged(t.payload) || (vm.requestedAt.Some? && t.payload.executeAfter == vm.executeAfter)))
  }

  ghost predicate RowsOk(db: Db) {
    && (forall id :: id in db.vms ==> RowOk(db.vms[id]))
    && Inventory.RowIdsBelow(RowsOf(db)) && Inventory.UniqueActive(db.vms)
  }

  ghost predicate TasksOk(db: Db) {
    forall id :: id in db.queue.rows ==>
      id < db.queue.nextId && db.queue.rows[id].vm in db.vms && TaskOk(db.queue.rows[id], db.vms[db.queue.rows[id].vm])
  }

  ghost predicate OneLiveDelete(rows: map<int, Task>) {
    forall i, j :: i in rows && j in rows && i != j && rows[i].vm == rows[j].vm && LiveDelete(rows[i], rows[i].vm)
      ==> !LiveDelete(rows[j], rows[j].vm)
  }

  /** Batch entries mirror the database. */
  ghost predicate ItemCurrent(db: Db, i: Item) {
    && i.id in db.queue.rows && i.vmId in db.vms
    && var t := db.queue.rows[i.id];
    && t.vm == i.vmId && t.kind == i.kind && t.payload == i.payload && !Settled(t) && db.vms[i.vmId] == i.vm && Eligible(i.vm)
  }

  ghost predicate PhaseOk(db: Db, p: Phase) {
    match p
    case Idle => true
    case Selected(batch) => BatchOk(db, batch)
    case Working(item, rest) => ItemCurrent(db, item) && db.queue.rows[item.id].status == Running && BatchOk(db, rest)
      && (forall k :: 0 <= k < |rest| ==> rest[k].vmId != item.vmId)
    case Executed(item, rest, ok) =>
      && BatchOk(db, rest) && item.id in db.queue.rows && db.queue.rows[item.id].vm == item.vmId && item.vmId in db.vms
      && TaskOk(db.queue.rows[item.id].(status := Failed), db.vms[item.vmId]) && AloneIfDelete(db.queue.rows, item.id)
      && (forall k :: 0 <= k < |rest| ==> rest[k].vmId != item.vmId)
  }

  /** A body that succeeded may still end as a failed task, when markTaskDone fails. This makes that harmless even for a
      task that its own body canceled: no other delete task of the VM is live. */
  ghost predicate AloneIfDelete(rows: map<int, Task>, id: int)
    requires id in rows
  {
    rows[id].kind == Delete ==> forall j :: j in rows && j != id && rows[j].vm == rows[id].vm ==> !LiveDelete(rows[j], rows[j].vm)
  }

  ghost predicate BatchOk(db: Db, batch: seq<Item>) {
    && (forall k :: 0 <= k < |batch| ==> ItemCurrent(db, batch[k]))
    && (forall j, k :: 0 <= j < k < |batch| ==> batch[j].vmId != batch[k].vmId)
  }

  ghost predicate ProtocolInv(w: World) {
    RowsOk(w.db) && TasksOk(w.db) && OneLiveDelete(w.db.queue.rows) && PhaseOk(w.db, w.phase)
  }

  // ---- what the statements keep ----

  ghost predicate DbOk(db: Db) {
    RowsOk(db) && TasksOk(db) && OneLiveDelete(db.queue.rows)
  }

  /** Rows keep kind, payload and VM, and settled rows stay settled. */
  ghost predicate Narrows(a: map<int, Task>, b: map<int, Task>) {
    forall id :: id in b ==>
      && id in a && b[id].vm == a[id].vm && b[id].kind == a[id].kind && b[id].payload == a[id].payload
      && (Settled(a[id]) ==> Settled(b[id]))
  }

  lemma NarrowsKeeps(db: Db, rows: map<int, Task>)
    requires DbOk(db) && Narrows(db.queue.rows, rows)
    ensures DbOk(Machine.Rows(db, rows))
  {
  }

  ghost predicate SameDeadlines(a: map<int, Vm>, b: map<int, Vm>) {
    forall id :: id in a ==>
      id in b && b[id].requestedAt == a[id].requestedAt && b[id].executeAfter == a[id].executeAfter && (Active(b[id]) ==> Active(a[id]))
  }

  /** New rows that change no delete request. */
  lemma RowsKeep(db: Db, vms: map<int, Vm>, nextVm: nat, groups: set<Group>)
    requires DbOk(db) && SameDeadlines(db.vms, vms) && RowsOk(Db(vms, nextVm, db.queue, groups))
    ensures DbOk(Db(vms, nextVm, db.queue, groups))
  {
  }

  lemma EnqueueKeeps(db: Db, vm: int, kind: Kind, payload: Payload, now: Time)
    requires DbOk(db) && vm in db.vms
    requires kind != Delete ==> db.vms[vm].requestedAt.None?
    requires kind == Delete ==>
               && payload.DeletePayload? && !HasLiveDelete(db.queue.rows, vm)
               && (Flagged(payload) || (db.vms[vm].requestedAt.Some? && payload.executeAfter == db.vms[vm].executeAfter))
    ensures DbOk(db.(queue := Enqueue(db.queue, vm, kind, payload, now)))
  {
  }

  lemma OneOp(q: Queue, op: TaskOp, now: Time)
    ensures ApplyOps(q, [op], now) == ApplyOp(q, op, now)
  {
    assert [op][1..] == [];
  }

  lemma TwoOps(q: Queue, a: TaskOp, b: TaskOp, now: Time)
    ensures ApplyOps(q, [a, b], now) == ApplyOp(ApplyOp(q, a, now), b, now)
  {
    assert [a, b][1..] == [b];
    OneOp(ApplyOp(q, a, now), b, now);
  }

  // ---- requests ----

  /** A transaction that leaves every delete request alone and queues only non-delete work on a VM without one. */
  lemma PlainTxKeeps(db: Db, tx: Tx, vm: int, now: Time)
    requires DbOk(db) && SameDeadlines(db.vms, tx.vms) && RowsOk(Db(tx.vms, tx.nextVm, db.queue, tx.groups))
    requires tx.ops == []
             || (vm in tx.vms && tx.vms[vm].requestedAt.None?
                 && exists k, p :: k != Delete && (tx.ops == [OpEnqueue(vm, k, p)] || tx.ops == [OpEnqueue(vm, k, p), OpEnqueue(vm, Reboot, NoPayload)]))
    ensures DbOk(Commit(db, tx, now))
  {
    var mid := Db(tx.vms, tx.nextVm, db.queue, tx.groups);
    RowsKeep(db, tx.vms, tx.nextVm, tx.groups);
    if tx.ops != [] {
      var k, p :| k != Delete && (tx.ops == [OpEnqueue(vm, k, p)] || tx.ops == [OpEnqueue(vm, k, p), OpEnqueue(vm, Reboot, NoPayload)]);
      EnqueueKeeps(mid, vm, k, p, now);
      var mid1 := mid.(queue := Enqueue(mid.queue, vm, k, p, now));
      EnqueueKeeps(mid1, vm, Reboot, NoPayload, now);
      OneOp(db.queue, OpEnqueue(vm, k, p), now);
      TwoOps(db.queue, OpEnqueue(vm, k, p), OpEnqueue(vm, Reboot, NoPayload), now);
    }
  }

  /** Delete and delete-now: everything of the VM is canceled, then one delete task for the row's deadline is queued. */
  lemma DeleteTxKeeps(db: Db, vm: int, newRow: Vm, payload: Payload, now: Time)
    requires DbOk(db) && vm in db.vms && RowsOk(db.(vms := db.vms[vm := newRow]))
    requires newRow.requestedAt.Some? && payload.DeletePayload? && payload.executeAfter == newRow.executeAfter
    ensures DbOk(Commit(db, UpdateRow(db, vm, newRow, [OpCancelAll(vm), OpEnqueue(vm, Delete, payload)]), now))
  {
    TwoOps(db.queue, OpCancelAll(vm), OpEnqueue(vm, Delete, payload), now);
    var mid := db.(vms := db.vms[vm := newRow], queue := ApplyOp(db.queue, OpCancelAll(vm), now));
    assert DbOk(mid);
    EnqueueKeeps(mid, vm, Delete, payload, now);
  }

  lemma RestoreTxKeeps(db: Db, r: Request, now: Time)
    requires DbOk(db) && r.RestoreVm? && HandleRestore(db, r).Ok? && !Leaks(db, r.vm)
    ensures DbOk(Commit(db, HandleRestore(db, r).value, now))
  {
    var tx := HandleRestore(db, r).value;
    TwoOps(db.queue, OpCancelDeletes(r.vm), OpEnqueue(r.vm, Apply, NoPayload), now);
    var mid := db.(vms := tx.vms, queue := ApplyOp(db.queue, OpCancelDeletes(r.vm), now));
    forall id | id in mid.queue.rows
      ensures TaskOk(mid.queue.rows[id], mid.vms[mid.queue.rows[id].vm])
    {
      assert TaskOk(db.queue.rows[id], db.vms[db.queue.rows[id].vm]);
      assert Active(db.vms[r.vm]) ==> !Leaking(db.queue.rows[id], r.vm);
    }
    assert DbOk(mid);
    EnqueueKeeps(mid, r.vm, Apply, NoPayload, now);
  }

  lemma RetryRowKeeps(db: Db, r: Request)
    requires RowsOk(db) && r.RetryVmTask? && HandleRetry(db, r).Ok?
    ensures var tx := HandleRetry(db, r).value;
            && tx.ops == [OpRetry(r.task, r.vm)] && SameDeadlines(db.vms, tx.vms) && RowsOk(Db(tx.vms, tx.nextVm, db.queue, tx.groups))
  {
  }

  lemma RetryTxKeeps(db: Db, r: Request, now: Time)
    requires DbOk(db) && r.RetryVmTask? && HandleRetry(db, r).Ok?
    ensures DbOk(Commit(db, HandleRetry(db, r).value, now))
  {
    hide RowsOk, TasksOk, OneLiveDelete, SameDeadlines, HandleRetry;
    var tx := HandleRetry(db, r).value;
    OneOp(db.queue, OpRetry(r.task, r.vm), now);
    RetryRowKeeps(db, r);
    RowsKeep(db, tx.vms, tx.nextVm, tx.groups);
    NarrowsKeeps(Db(tx.vms, tx.nextVm, db.queue, tx.groups), RetryTask(db.queue.rows, r.task, r.vm, now));
  }

  /** nextClusterVMID keeps (cluster, vmid) unique among active rows. */
  lemma CreateKeepsUnique(cfg: Config, db: Db, r: Request)
    requires Inventory.RowIdsBelow(RowsOf(db)) && Inventory.UniqueActive(db.vms) && r.CreateVm? && HandleCreate(cfg, db, r).Ok?
    ensures var tx := HandleCreate(cfg, db, r).value;
            Inventory.RowIdsBelow(Inventory.Rows(tx.vms, tx.nextVm)) && Inventory.UniqueActive(tx.vms)
  {
    hide UserUsage, Over, QuotaOf, PlacementNode;
    var tx := HandleCreate(cfg, db, r).value;
    var cluster := cfg.clusters[r.cluster];
    var used := UsedVmids(db, r.cluster);
    FirstFreeIsLeast(used, cluster.startVmid, cluster.startVmid + cluster.limit);
    forall i | i in db.vms && Active(db.vms[i]) && db.vms[i].cluster == r.cluster
      ensures db.vms[i].vmid != tx.vms[db.nextVm].vmid
    {
      assert db.vms[i].vmid in used;
    }
  }

  lemma CreatedRowIsSound(cfg: Config, db: Db, r: Request)
    requires RowsOk(db) && r.CreateVm? && HandleCreate(cfg, db, r).Ok?
    ensures var tx := HandleCreate(cfg, db, r).value;
            && RowsOk(Db(tx.vms, tx.nextVm, db.queue, tx.groups)) && SameDeadlines(db.vms, tx.vms)
            && db.nextVm in tx.vms && tx.vms[db.nextVm].requestedAt.None?
            && tx.ops == [OpEnqueue(db.nextVm, Provision, NoPayload)]
  {
    hide UserUsage, Over, QuotaOf, PlacementNode, NextVmid;
    CreateKeepsUnique(cfg, db, r);
  }

  lemma CreateTxKeeps(cfg: Config, db: Db, r: Request, now: Time)
    requires DbOk(db) && r.CreateVm? && HandleCreate(cfg, db, r).Ok?
    ensures DbOk(Commit(db, HandleCreate(cfg, db, r).value, now))
  {
    hide HandleCreate;
    CreatedRowIsSound(cfg, db, r);
    PlainTxKeeps(db, HandleCreate(cfg, db, r).value, db.nextVm, now);
  }

  /** Requests that rewrite one row of a VM without a deletion pending. */
  lemma UpdateTxKeeps(db: Db, vm: int, newRow: Vm, kind: Kind, payload: Payload, reboot: bool, now: Time)
    requires DbOk(db) && vm in db.vms && kind != Delete
    requires newRow.requestedAt.None? && db.vms[vm].requestedAt.None? && newRow.executeAfter == db.vms[vm].executeAfter && RowOk(newRow)
    requires newRow.cluster == db.vms[vm].cluster && newRow.vmid == db.vms[vm].vmid && newRow.deletedAt == db.vms[vm].deletedAt
    ensures DbOk(Commit(db, UpdateRow(db, vm, newRow, [OpEnqueue(vm, kind, payload)] + (if reboot then [OpEnqueue(vm, Reboot, NoPayload)] else [])), now))
  {
    var tx := UpdateRow(db, vm, newRow, [OpEnqueue(vm, kind, payload)] + (if reboot then [OpEnqueue(vm, Reboot, NoPayload)] else []));
    assert reboot ==> tx.ops == [OpEnqueue(vm, kind, payload), OpEnqueue(vm, Reboot, NoPayload)];
    assert !reboot ==> tx.ops == [OpEnqueue(vm, kind, payload)];
    PlainTxKeeps(db, tx, vm, now);
  }

  /** The other requests that change a row but queue nothing. */
  lemma QuietTxKeeps(db: Db, tx: Tx, now: Time)
    requires DbOk(db) && tx.ops == [] && SameDeadlines(db.vms, tx.vms) && RowsOk(Db(tx.vms, tx.nextVm, db.queue, tx.groups))
    ensures DbOk(Commit(db, tx, now))
  {
    PlainTxKeeps(db, tx, 0, now);
  }

  lemma PatchTxKeeps(cfg: Config, db: Db, r: Request, now: Time)
    requires DbOk(db) && r.PatchVm? && HandlePatch(cfg, db, r).Ok?
    ensures DbOk(Commit(db, HandlePatch(cfg, db, r).value, now))
  {
    UpdateTxKeeps(db, r.vm, PatchedRow(r, db.vms[r.vm]), Apply, NoPayload, PatchReboots(r, db.vms[r.vm]), now);
  }

  lemma PowerTxKeeps(db: Db, r: Request, now: Time)
    requires DbOk(db) && r.PowerVm? && HandlePower(db, r).Ok?
    ensures DbOk(Commit(db, HandlePower(db, r).value, now))
  {
    var tx := HandlePower(db, r).value;
    UpdateTxKeeps(db, r.vm, tx.vms[r.vm], PowerChange, PowerPayload(r.power), false, now);
    assert tx.ops == tx.ops + [];
  }

  lemma AdoptTxKeeps(cfg: Config, db: Db, r: Request, now: Time)
    requires DbOk(db) && r.AdoptVm? && HandleAdopt(cfg, db, r).Ok?
    ensures DbOk(Commit(db, HandleAdopt(cfg, db, r).value, now))
  {
    var tx := HandleAdopt(cfg, db, r).value;
    UpdateTxKeeps(db, r.vm, tx.vms[r.vm], Apply, NoPayload, db.vms[r.vm].realPower == PowerOn && r.power == PowerOn, now);
  }

  lemma SetIpTxKeeps(cfg: Config, db: Db, r: Request, now: Time)
    requires DbOk(db) && r.AdminSetIp? && HandleSetIp(cfg, db, r).Ok?
    ensures DbOk(Commit(db, HandleSetIp(cfg, db, r).value, now))
  {
    var tx := HandleSetIp(cfg, db, r).value;
    UpdateTxKeeps(db, r.vm, tx.vms[r.vm], Apply, NoPayload, db.vms[r.vm].realPower == PowerOn, now);
  }

  lemma ExemptRowIsSound(db: Db, r: Request)
    requires RowsOk(db) && r.AdminSetExempt? && HandleExempt(db, r).Ok?
    ensures var tx := HandleExempt(db, r).value;
            && SameDeadlines(db.vms, tx.vms) && RowsOk(Db(tx.vms, tx.nextVm, db.queue, tx.groups))
            && db.vms[r.vm].requestedAt.None? && RowOk(tx.vms[r.vm])
  {
    assert RowOk(db.vms[r.vm]);
  }

  lemma ExemptTxKeeps(db: Db, r: Request, now: Time)
    requires DbOk(db) && r.AdminSetExempt? && HandleExempt(db, r).Ok?
    ensures DbOk(Commit(db, HandleExempt(db, r).value, now))
  {
    hide RowsOk, TasksOk, OneLiveDelete;
    var tx := HandleExempt(db, r).value;
    ExemptRowIsSound(db, r);
    if tx.ops == [] {
      QuietTxKeeps(db, tx, now);
    } else {
      UpdateTxKeeps(db, r.vm, tx.vms[r.vm], Apply, NoPayload, false, now);
      assert tx.ops == tx.ops + [];
    }
  }

  lemma PausedTxKeeps(db: Db, actor: Actor, vm: int, paused: bool, now: Time)
    requires DbOk(db) && HandlePaused(db, actor, vm, paused).Ok?
    ensures DbOk(Commit(db, HandlePaused(db, actor, vm, paused).value, now))
  {
    QuietTxKeeps(db, HandlePaused(db, actor, vm, paused).value, now);
  }

  lemma GroupTxKeeps(cfg: Config, db: Db, r: Request, now: Time)
    requires DbOk(db) && (r.CreateGroup? || r.PatchGroup? || r.DeleteGroup?) && Handle(cfg, db, r, now).Ok?
    ensures DbOk(Commit(db, Handle(cfg, db, r, now).value, now))
  {
    QuietTxKeeps(db, Handle(cfg, db, r, now).value, now);
  }

  lemma DeletingTxKeeps(cfg: Config, db: Db, r: Request, now: Time)
    requires DbOk(db) && (r.DeleteVm? || r.DeleteNowVm?) && Handle(cfg, db, r, now).Ok?
    ensures DbOk(Commit(db, Handle(cfg, db, r, now).value, now))
  {
    var tx := Handle(cfg, db, r, now).value;
    var payload := if r.DeleteVm? then DeletePayload(Some(now + DAY), false, false) else DeletePayload(Some(now), true, false);
    DeleteTxKeeps(db, r.vm, tx.vms[r.vm], payload, now);
  }

  lemma RequestKeeps(cfg: Config, db: Db, r: Request, now: Time)
    requires DbOk(db) && Handle(cfg, db, r, now).Ok?
    requires r.RestoreVm? ==> !Leaks(db, r.vm)
    ensures DbOk(Commit(db, Handle(cfg, db, r, now).value, now))
  {
    if r.CreateVm? { CreateTxKeeps(cfg, db, r, now); }
    else if r.RestoreVm? { RestoreTxKeeps(db, r, now); }
    else if r.RetryVmTask? { RetryTxKeeps(db, r, now); }
    else if r.DeleteVm? || r.DeleteNowVm? { DeletingTxKeeps(cfg, db, r, now); }
    else if r.PatchVm? { PatchTxKeeps(cfg, db, r, now); }
    else if r.PowerVm? { PowerTxKeeps(db, r, now); }
    else if r.AdoptVm? { AdoptTxKeeps(cfg, db, r, now); }
    else if r.AdminSetIp? { SetIpTxKeeps(cfg, db, r, now); }
    else if r.AdminSetExempt? { ExemptTxKeeps(db, r, now); }
    else if r.PauseTasks? { PausedTxKeeps(db, r.actor, r.vm, true, now); }
    else if r.ResumeTasks? { PausedTxKeeps(db, r.actor, r.vm, false, now); }
    else { GroupTxKeeps(cfg, db, r, now); }
  }

  // ---- worker steps ----

  lemma ScanKeeps(db: Db, cluster: string, found: seq<Inventory.Resource>, swept: set<int>, now: Time)
    requires DbOk(db)
    ensures var rows := Inventory.ScanPart(RowsOf(db), cluster, found, swept, now);
            DbOk(db.(vms := rows.vms, nextVm := rows.next))
  {
    var rows := Inventory.ScanPart(RowsOf(db), cluster, found, swept, now);
    Inventory.ScanPartChange(RowsOf(db), cluster, found, swept, now);
    RowsKeep(db, rows.vms, rows.next, db.groups);
  }

  /** Whatever a live task's body writes fits the invariant; a delete is issued only for a due, outstanding request. */
  lemma BodyIsSound(db: Db, item: Item, o: Outcome, now: Time)
    requires DbOk(db) && ItemCurrent(db, item)
    ensures var e := Body(item, o, now);
            && (e.issued ==> item.kind == Delete && item.vm.requestedAt.Some? && item.vm.executeAfter.Some? && now >= item.vm.executeAfter.value)
            && (forall x :: x in e.writes && x == WriteDeletePending ==> item.vm.requestedAt.Some?)
            && (forall x :: x in e.writes && x == WriteCancelOutstanding ==> e.ok)
  {
    assert TaskOk(db.queue.rows[item.id], item.vm) && RowOk(item.vm);
  }

  /** One row write of the VM being worked on. */
  lemma WriteKeeps(db: Db, vm: int, x: Write, now: Time)
    requires DbOk(db) && vm in db.vms
    requires x == WriteDeletePending ==> db.vms[vm].requestedAt.Some?
    ensures var db' := ApplyWrite(db, vm, x, now);
            && DbOk(db')
            && SameDeadlines(db.vms, db'.vms)
            && (forall id :: id in db.vms && id != vm ==> db'.vms[id] == db.vms[id])
            && Narrows(db.queue.rows, db'.queue.rows) && db.queue.rows.Keys == db'.queue.rows.Keys
            && (forall id :: id in db.queue.rows && (db.queue.rows[id].vm != vm || x != WriteCancelOutstanding) ==> db'.queue.rows[id] == db.queue.rows[id])
  {
    var mid := db.(vms := db.vms[vm := WriteRow(db.vms[vm], x, now)]);
    RowsKeep(db, mid.vms, mid.nextVm, mid.groups);
    if x == WriteCancelOutstanding {
      NarrowsKeeps(mid, CancelOutstanding(mid.queue.rows, vm, now));
    }
  }

  lemma {:induction false} WritesKeep(db: Db, vm: int, xs: seq<Write>, now: Time)
    requires DbOk(db) && vm in db.vms
    requires forall x :: x in xs && x == WriteDeletePending ==> db.vms[vm].requestedAt.Some?
    ensures var db' := ApplyWrites(db, vm, xs, now);
            && DbOk(db')
            && SameDeadlines(db.vms, db'.vms)
            && (forall id :: id in db.vms && id != vm ==> db'.vms[id] == db.vms[id])
            && Narrows(db.queue.rows, db'.queue.rows) && db.queue.rows.Keys == db'.queue.rows.Keys
            && (forall id :: id in db.queue.rows && (db.queue.rows[id].vm != vm || WriteCancelOutstanding !in xs) ==> db'.queue.rows[id] == db.queue.rows[id])
    decreases |xs|
  {
    if xs != [] {
      assert xs[0] in xs;
      WriteKeeps(db, vm, xs[0], now);
      var rest := xs[1..];
      assert forall x :: x in rest ==> x in xs;
      WritesKeep(ApplyWrite(db, vm, xs[0], now), vm, rest, now);
    }
  }

  lemma ExecKeeps(c: Clockwork, w: World, o: Outcome, now: Time)
    requires ProtocolInv(w) && Enabled(w, Exec(o, now))
    ensures ProtocolInv(Step(c, w, Exec(o, now)))
  {
    hide Body, ApplyWrites;
    var item := w.phase.item;
    BodyIsSound(w.db, item, o, now);
    WritesKeep(w.db, item.vmId, Body(item, o, now).writes, now);
  }

  lemma SelectKeeps(c: Clockwork, w: World, batch: seq<Item>, now: Time)
    requires ProtocolInv(w) && Enabled(w, Select(batch, now))
    ensures ProtocolInv(Step(c, w, Select(batch, now)))
  {
    forall k | 0 <= k < |batch|
      ensures ItemCurrent(w.db, batch[k])
    {
      assert ReadyHead(w.db, batch[k].id, now);
    }
  }

  lemma GiveUpKeeps(db: Db, item: Item, marked: bool)
    requires DbOk(db)
    ensures DbOk(GiveUp(db, item, marked)) && GiveUp(db, item, marked).queue == db.queue
    ensures SameDeadlines(db.vms, GiveUp(db, item, marked).vms)
    ensures forall id :: id in db.vms && id != item.vmId ==> GiveUp(db, item, marked).vms[id] == db.vms[id]
  {
    var mid := GiveUp(db, item, marked);
    RowsKeep(db, mid.vms, mid.nextVm, mid.groups);
  }

  /** A row that becomes failed again, though its own body may have canceled it. */
  lemma FailedRowKeeps(db: Db, id: int, now: Time)
    requires DbOk(db) && id in db.queue.rows && db.queue.rows[id].vm in db.vms
    requires TaskOk(db.queue.rows[id].(status := Failed), db.vms[db.queue.rows[id].vm]) && AloneIfDelete(db.queue.rows, id)
    ensures DbOk(Machine.Rows(db, MarkFailed(db.queue.rows, id, now)))
  {
  }

  /** Whether or not the body succeeded and whichever of the closing updates go through. */
  lemma FinishKeeps(c: Clockwork, w: World, a: Action)
    requires ProtocolInv(w) && Enabled(w, a) && w.phase.Executed? && (a.FinishFailed? || a.FinishLost?)
    ensures ProtocolInv(Step(c, w, a))
  {
    hide GiveUp, RowsOk, TasksOk, OneLiveDelete;
    GiveUpKeeps(w.db, w.phase.item, a.marked);
    if a.FinishFailed? {
      FailedRowKeeps(GiveUp(w.db, w.phase.item, a.marked), w.phase.item.id, a.now);
    }
  }

  /** Statements over many rows while the worker is between cycles. */
  lemma SweepKeeps(c: Clockwork, w: World, a: Action)
    requires ProtocolInv(w) && Enabled(w, a) && (a.RecoverAbandoned? || a.RecoverStale? || a.DropSuperseded? || Purges(a))
    ensures ProtocolInv(Step(c, w, a))
  {
    NarrowsKeeps(w.db, Step(c, w, a).db.queue.rows);
  }

  lemma StartKeeps(c: Clockwork, w: World, now: Time)
    requires ProtocolInv(w) && Enabled(w, Start(now))
    ensures ProtocolInv(Step(c, w, Start(now)))
  {
    NarrowsKeeps(w.db, Step(c, w, Start(now)).db.queue.rows);
  }

  lemma DoneKeeps(c: Clockwork, w: World, a: Action)
    requires ProtocolInv(w) && Enabled(w, a) && ((a.FinishDone? && w.phase.Executed?) || a.SkipHead? || a.Crash?)
    ensures ProtocolInv(Step(c, w, a))
  {
    if a.FinishDone? {
      NarrowsKeeps(w.db, Step(c, w, a).db.queue.rows);
    }
  }

  lemma ExpiryKeeps(c: Clockwork, w: World, a: Action)
    requires ProtocolInv(w) && Enabled(w, a) && a.QueueExpired? && Expired(c, w.db, a.vm, a.asOf)
    ensures ProtocolInv(Step(c, w, a))
  {
    EnqueueKeeps(w.db, a.vm, Delete, DeletePayload(None, false, true), a.now);
  }

  lemma WorkKeeps(cfg: Config, c: Clockwork, w: World, a: Action)
    requires ProtocolInv(w) && MayHappen(cfg, c, w, Work(a))
    ensures ProtocolInv(Step(c, w, a))
  {
    hide Step, ProtocolInv, Expired;
    if a.RecoverAbandoned? || a.RecoverStale? || a.DropSuperseded? || Purges(a) {
      SweepKeeps(c, w, a);
    } else if a.QueueExpired? {
      ExpiryKeeps(c, w, a);
    } else if a.Select? {
      SelectKeeps(c, w, a.batch, a.now);
    } else if a.Start? {
      StartKeeps(c, w, a.now);
    } else if a.Exec? {
      ExecKeeps(c, w, a.outcome, a.now);
    } else if a.FinishFailed? || a.FinishLost? {
      FinishKeeps(c, w, a);
    } else {
      DoneKeeps(c, w, a);
    }
  }

  /** Every event of a serial run keeps the protocol invariant, except a restore over a leaking task. */
  lemma EventKeeps(cfg: Config, c: Clockwork, w: World, e: Event)
    requires ProtocolInv(w) && MayHappen(cfg, c, w, e)
    requires e.Req? && e.request.RestoreVm? ==> !Leaks(w.db, e.request.vm)
    ensures ProtocolInv(React(cfg, c, w, e))
  {
    match e
    case Req(r, now) => RequestKeeps(cfg, w.db, r, now);
    case ScanOf(cluster, found, swept, now) => ScanKeeps(w.db, cluster, found, swept, now);
    case Work(a) => WorkKeeps(cfg, c, w, a);
  }

  /** No restore of the run happens while a failed delete task with its own deadline is there. */
  ghost predicate LeakFree(cfg: Config, c: Clockwork, w: World, es: seq<Event>)
    requires ValidHistory(cfg, c, w, es)
    decreases |es|
  {
    es == [] ||
    (var before := es[..|es| - 1];
     var last := es[|es| - 1];
     && LeakFree(cfg, c, w, before)
     && (last.Req? && last.request.RestoreVm? ==> !Leaks(History(cfg, c, w, before).db, last.request.vm)))
  }

  const NEW_INSTALLATION := World(Db(map[], 1, EMPTY_QUEUE, {}), Idle, 0)

  lemma {:induction false} HistoryKeeps(cfg: Config, c: Clockwork, es: seq<Event>)
    requires ValidHistory(cfg, c, NEW_INSTALLATION, es) && LeakFree(cfg, c, NEW_INSTALLATION, es)
    ensures ProtocolInv(History(cfg, c, NEW_INSTALLATION, es))
    decreases |es|
  {
    if es != [] {
      var before := es[..|es| - 1];
      HistoryKeeps(cfg, c, before);
      EventKeeps(cfg, c, History(cfg, c, NEW_INSTALLATION, before), es[|es| - 1]);
    }
  }

  // ---- main results ----

  /** Whenever the worker calls DeleteVM, the request is outstanding and the row's current deadline has passed. */
  lemma DeletesAreRequestedAndDue(cfg: Config, c: Clockwork, es: seq<Event>, o: Outcome, now: Time)
    requires ValidHistory(cfg, c, NEW_INSTALLATION, es) && LeakFree(cfg, c, NEW_INSTALLATION, es)
    requires var w := History(cfg, c, NEW_INSTALLATION, es);
             MayHappen(cfg, c, w, Work(Exec(o, now))) && Body(w.phase.item, o, now).issued
    ensures var w := History(cfg, c, NEW_INSTALLATION, es);
            && w.phase.item.vmId in w.db.vms
            && var vm := w.db.vms[w.phase.item.vmId];
            vm.requestedAt.Some? && vm.executeAfter.Some? && now >= vm.executeAfter.value
  {
    HistoryKeeps(cfg, c, es);
    var w := History(cfg, c, NEW_INSTALLATION, es);
    BodyIsSound(w.db, w.phase.item, o, now);
  }

  /** While a deletion is pending the worker runs nothing but delete tasks for the VM, and no other task of it is open. */
  lemma NothingElseRunsWhileDeleting(cfg: Config, c: Clockwork, es: seq<Event>, vm: int)
    requires ValidHistory(cfg, c, NEW_INSTALLATION, es) && LeakFree(cfg, c, NEW_INSTALLATION, es)
    requires var w := History(cfg, c, NEW_INSTALLATION, es); vm in w.db.vms && w.db.vms[vm].requestedAt.Some?
    ensures var w := History(cfg, c, NEW_INSTALLATION, es);
            && (w.phase.Working? && w.phase.item.vmId == vm ==> w.phase.item.kind == Delete)
            && (forall i, j :: i in w.db.queue.rows && j in w.db.queue.rows && Open(w.db.queue.rows[i], vm) && Open(w.db.queue.rows[j], vm) ==> i == j)
  {
    HistoryKeeps(cfg, c, es);
    var w := History(cfg, c, NEW_INSTALLATION, es);
    forall i, j | i in w.db.queue.rows && j in w.db.queue.rows && Open(w.db.queue.rows[i], vm) && Open(w.db.queue.rows[j], vm)
      ensures i == j
    {
      assert LiveDelete(w.db.queue.rows[i], vm) && LiveDelete(w.db.queue.rows[j], vm);
    }
  }

  predicate Open(t: Task, vm: int) {
    t.vm == vm && !Settled(t)
  }
}
