/** What the SQL statements of the queue and the task bodies mean, read off the tables before and after, with every status,
    column and number written out. */
module Statements {
  import opened Records
  import opened TaskQueue
  import opened Machine
  import opened Serial

  // ---- rows and statuses ----

  predicate OpenStatus(s: Status) {
    s == Pending || s == Running || s == Failed
  }

  /** The row is the same but for being canceled. */
  predicate CanceledCopy(t: Task, t': Task) {
    t' == t.(status := Canceled, updatedAt := t'.updatedAt, finishedAt := t'.finishedAt)
  }

  /** Exactly the rows that `hit` describes are canceled, everything else is as it was. */
  ghost predicate CancelsExactly(a: map<int, Task>, b: map<int, Task>, hit: Task -> bool) {
    && b.Keys == a.Keys
    && (forall id :: id in a && hit(a[id]) ==> CanceledCopy(a[id], b[id]))
    && (forall id :: id in a && !hit(a[id]) ==> b[id] == a[id])
  }

  /** No row but this one has changed, and this one keeps its VM, place, kind and payload. */
  ghost predicate TouchesOnly(a: map<int, Task>, b: map<int, Task>, id: int) {
    && b.Keys == a.Keys && id in a
    && (forall j :: j in a && j != id ==> b[j] == a[j])
    && b[id].vm == a[id].vm && b[id].seqNo == a[id].seqNo && b[id].kind == a[id].kind && b[id].payload == a[id].payload
  }

  // ---- canceling ----

  /** The VM is there and somebody has asked for its deletion. */
  predicate BeingDeleted(vms: map<int, Vm>, vm: int) {
    vm in vms && vms[vm].deletedAt.None? && vms[vm].requestedAt.Some?
  }

  lemma CancelAllMeans(rows: map<int, Task>, vm: int, now: Time)
    ensures CancelsExactly(rows, CancelAll(rows, vm, now), (t: Task) => t.vm == vm && OpenStatus(t.status))
  {
  }

  /** A restore leaves failed delete tasks and everything that is no delete task. */
  lemma CancelDeletesMeans(rows: map<int, Task>, vm: int, now: Time)
    ensures CancelsExactly(rows, CancelDeletes(rows, vm, now), (t: Task) => t.vm == vm && t.kind == Delete && (t.status == Pending || t.status == Running))
  {
  }

  lemma CancelOutstandingMeans(rows: map<int, Task>, vm: int, now: Time)
    ensures CancelsExactly(rows, CancelOutstanding(rows, vm, now), (t: Task) => t.vm == vm && OpenStatus(t.status))
  {
  }

  /** Of the VMs being deleted no task but delete tasks is open any more; delete tasks, tasks of other VMs and settled tasks
      are as they were. */
  ghost predicate Superseded(vms: map<int, Vm>, a: map<int, Task>, b: map<int, Task>) {
    && CancelsExactly(a, b, (t: Task) => t.kind != Delete && OpenStatus(t.status) && BeingDeleted(vms, t.vm))
    && (forall id :: id in b && BeingDeleted(vms, b[id].vm) && OpenStatus(b[id].status) ==> b[id].kind == Delete)
    && (forall id :: id in a && (a[id].kind == Delete || !BeingDeleted(vms, a[id].vm) || !OpenStatus(a[id].status)) ==> b[id] == a[id])
  }

  lemma CancelSupersededMeans(vms: map<int, Vm>, rows: map<int, Task>, now: Time)
    ensures Superseded(vms, rows, CancelSuperseded(vms, rows, now))
  {
  }

  // ---- recovering, retrying, purging ----

  /** Running rows that `stale` picks are pending again, with attempts, kind and place kept; all others are as they were. */
  ghost predicate Recovered(a: map<int, Task>, b: map<int, Task>, stale: Time -> bool) {
    && b.Keys == a.Keys
    && forall id :: id in a ==>
         if a[id].status == Running && stale(a[id].updatedAt)
         then b[id] == a[id].(status := Pending, startedAt := None, finishedAt := None, updatedAt := b[id].updatedAt)
         else b[id] == a[id]
  }

  lemma RecoverMeans(rows: map<int, Task>, stale: Time -> bool, now: Time)
    ensures Recovered(rows, Recover(rows, stale, now), stale)
  {
  }

  lemma RetryMeans(rows: map<int, Task>, id: int, vm: int, now: Time)
    ensures var b := RetryTask(rows, id, vm, now);
            if id in rows && rows[id].vm == vm && rows[id].status == Failed
            then TouchesOnly(rows, b, id) && b[id].status == Pending && b[id].attempts == rows[id].attempts && b[id].finishedAt.None?
            else b == rows
  {
  }

  /** Of the tasks that are done, canceled or failed, those finished before the cutoff are gone; nothing else is. */
  ghost predicate PurgedFinished(a: map<int, Task>, b: map<int, Task>, old_: Time -> bool) {
    && (forall id :: id in b ==> id in a && b[id] == a[id])
    && (forall id :: id in a ==>
          (id !in b <==> (a[id].status == Done || a[id].status == Canceled || a[id].status == Failed)
                         && a[id].finishedAt.Some? && old_(a[id].finishedAt.value)))
  }

  lemma PurgeFinishedMeans(rows: map<int, Task>, old_: Time -> bool)
    ensures PurgedFinished(rows, PurgeFinished(rows, old_), old_)
  {
  }

  ghost predicate PurgedDeleted(vms: map<int, Vm>, a: map<int, Task>, b: map<int, Task>, old_: Time -> bool) {
    && (forall id :: id in b ==> id in a && b[id] == a[id])
    && (forall id :: id in a ==> (id !in b <==> a[id].vm in vms && vms[a[id].vm].deletedAt.Some? && old_(vms[a[id].vm].deletedAt.value)))
  }

  lemma PurgeDeletedMeans(vms: map<int, Vm>, rows: map<int, Task>, old_: Time -> bool)
    ensures PurgedDeleted(vms, rows, PurgeDeleted(vms, rows, old_), old_)
  {
  }

  // ---- marking ----

  ghost predicate Started(a: map<int, Task>, b: map<int, Task>, id: int, now: Time) {
    && TouchesOnly(a, b, id)
    && b[id].status == Running && b[id].attempts == a[id].attempts + 1 && b[id].updatedAt == now && b[id].finishedAt.None?
    && b[id].startedAt == (if a[id].startedAt.Some? then a[id].startedAt else Some(now))
  }

  lemma MarkRunningMeans(rows: map<int, Task>, id: int, now: Time)
    requires id in rows
    ensures Started(rows, MarkRunning(rows, id, now), id, now)
  {
  }

  ghost predicate Closed(a: map<int, Task>, b: map<int, Task>, id: int, status: Status, now: Time) {
    && TouchesOnly(a, b, id)
    && b[id].status == status && b[id].attempts == a[id].attempts && b[id].updatedAt == now && b[id].startedAt == a[id].startedAt
    && b[id].finishedAt == (if a[id].finishedAt.Some? then a[id].finishedAt else Some(now))
  }

  lemma MarkDoneMeans(rows: map<int, Task>, id: int, now: Time)
    requires id in rows
    ensures Closed(rows, MarkDone(rows, id, now), id, Done, now)
  {
  }

  lemma MarkFailedMeans(rows: map<int, Task>, id: int, now: Time)
    requires id in rows
    ensures Closed(rows, MarkFailed(rows, id, now), id, Failed, now)
  {
  }

  /** A new task is pending, comes after every task of its VM, and nothing else changes. The first one of a VM has number 1,
      later ones follow the greatest number in use. */
  ghost predicate Appended(a: Queue, b: Queue, vm: int, kind: Kind, payload: Payload, now: Time) {
    && b.nextId == a.nextId + 1 && a.nextId in b.rows
    && (forall id :: id in a.rows && id != a.nextId ==> id in b.rows && b.rows[id] == a.rows[id])
    && (forall id :: id in b.rows && id != a.nextId ==> id in a.rows)
    && var t := b.rows[a.nextId];
    && t == Task(vm, t.seqNo, kind, payload, Pending, 0, now, None, None)
    && (forall id :: id in a.rows && a.rows[id].vm == vm ==> a.rows[id].seqNo < t.seqNo)
    && (t.seqNo == 1 || exists id :: id in a.rows && a.rows[id].vm == vm && a.rows[id].seqNo == t.seqNo - 1)
  }

  lemma EnqueueMeans(q: Queue, vm: int, kind: Kind, payload: Payload, now: Time)
    ensures Appended(q, Enqueue(q, vm, kind, payload, now), vm, kind, payload, now)
  {
    if SeqNos(q.rows, vm) != {} {
      assert NextSeq(q.rows, vm) - 1 in SeqNos(q.rows, vm);
    }
  }

  // ---- the queries ----

  /** How long a task waits after its n-th failure. */
  predicate Waits(attempts: int, wait: Time) {
    || (attempts == 1 && wait == 1 * MINUTE) || (attempts == 2 && wait == 2 * MINUTE) || (attempts == 3 && wait == 4 * MINUTE)
    || (attempts == 4 && wait == 8 * MINUTE) || (attempts == 5 && wait == 16 * MINUTE)
  }

  /** The worker may take the task: its VM is there, managed and not paused, nothing queued before it is open, and it is
      pending, or has failed at most five times and waited long enough since. */
  ghost predicate Selectable(db: Db, id: int, now: Time) {
    && id in db.queue.rows
    && var t := db.queue.rows[id];
    && t.vm in db.vms && db.vms[t.vm].deletedAt.None? && db.vms[t.vm].managed && !db.vms[t.vm].paused
    && (forall j :: j in db.queue.rows && db.queue.rows[j].vm == t.vm && db.queue.rows[j].seqNo < t.seqNo ==>
          db.queue.rows[j].status == Done || db.queue.rows[j].status == Canceled)
    && (t.status == Pending || (t.status == Failed && exists wait :: Waits(t.attempts, wait) && now >= t.updatedAt + wait))
  }

  lemma RetryDelayMeans(attempts: int, wait: Time)
    ensures RetryDelay(attempts) == Some(wait) <==> Waits(attempts, wait)
  {
    assert Pow2(0) == 1 && Pow2(1) == 2 && Pow2(2) == 4 && Pow2(3) == 8 && Pow2(4) == 16;
  }

  lemma ReadyHeadMeans(db: Db, id: int, now: Time)
    ensures ReadyHead(db, id, now) <==> Selectable(db, id, now)
  {
    if id in db.queue.rows {
      var t := db.queue.rows[id];
      if RetryDelay(t.attempts).Some? {
        RetryDelayMeans(t.attempts, RetryDelay(t.attempts).value);
      }
      if wait :| Waits(t.attempts, wait) && now >= t.updatedAt + wait {
        RetryDelayMeans(t.attempts, wait);
      }
    }
  }

  /** The VM's deletion is requested and its deadline has passed, the worker may touch it, and no delete task of it is open. */
  ghost predicate Overdue(c: Clockwork, db: Db, id: int, now: Time) {
    && id in db.vms
    && var v := db.vms[id];
    && v.deletedAt.None? && v.managed && !v.paused && v.requestedAt.Some? && v.executeAfter.Some? && c.le(v.executeAfter.value, now)
    && forall t :: t in db.queue.rows && db.queue.rows[t].vm == id && db.queue.rows[t].kind == Delete ==> !OpenStatus(db.queue.rows[t].status)
  }

  lemma ExpiredMeans(c: Clockwork, db: Db, id: int, now: Time)
    ensures Expired(c, db, id, now) <==> Overdue(c, db, id, now)
  {
  }

  // ---- task bodies ----

  /** Nothing but one row of `vms`, and perhaps the queue, has changed. */
  ghost predicate OneRow(a: Db, b: Db, vm: int) {
    && b.vms.Keys == a.vms.Keys && b.nextVm == a.nextVm && b.groups == a.groups && b.queue.nextId == a.queue.nextId
    && forall id :: id in a.vms && id != vm ==> b.vms[id] == a.vms[id]
  }

  /** syncPresent: a success shows in the row as synced with the power PVE reported; the node is there as soon as it was
      written, success or not. */
  ghost predicate PresentDone(vm: int, o: Outcome, a: Db, b: Db, ok: bool) {
    && OneRow(a, b, vm) && b.queue == a.queue && ok == o.presentOk
    && (vm in a.vms ==>
          b.vms[vm] == a.vms[vm].(node := if o.nodeWritten then o.node else a.vms[vm].node,
                                  sync := if ok then Synced else a.vms[vm].sync,
                                  realPower := if ok then o.power else a.vms[vm].realPower))
  }

  /** A power or reboot task. A VM whose node is unknown and that PVE does not have is left alone; otherwise a power task that
      succeeds marks the row synced with the power PVE reported, and a reboot task writes nothing. */
  ghost predicate PowerDone(item: Item, o: Outcome, a: Db, b: Db, ok: bool, marks: bool) {
    var lost := item.vm.node == "" && o.lookup != Found;
    && OneRow(a, b, item.vmId) && b.queue == a.queue
    && (ok <==> if lost then o.lookup == Absent else o.presentOk)
    && (item.vmId in a.vms ==>
          b.vms[item.vmId] == if ok && !lost && marks then a.vms[item.vmId].(sync := Synced, realPower := o.power) else a.vms[item.vmId])
  }

  /** The deadline of a delete task: its own, unless it was queued by delete-now or by the expiry query or has none; then the
      row's, then the one in the prefer document. */
  lemma DeadlineMeans(vm: Vm, payload: Payload)
    ensures payload.DeletePayload? && !payload.immediate && !payload.expired && payload.executeAfter.Some? ==> ExecuteAt(vm, payload) == payload.executeAfter
    ensures (!payload.DeletePayload? || payload.immediate || payload.expired || payload.executeAfter.None?) && vm.executeAfter.Some? ==>
              ExecuteAt(vm, payload) == vm.executeAfter
    ensures (!payload.DeletePayload? || payload.immediate || payload.expired || payload.executeAfter.None?) && vm.executeAfter.None? ==>
              ExecuteAt(vm, payload) == vm.preferAfter
  {
  }

  /** syncDelete. A VM that PVE does not have is deleted; one before its deadline is shown as being deleted; at or after the
      deadline DeleteVM is called once the VM is cleaned up, and success deletes the row and cancels every open task of the VM.
      A failure writes nothing. */
  ghost predicate DeleteDone(item: Item, payload: Payload, o: Outcome, now: Time, a: Db, b: Db, ok: bool, issued: bool) {
    var at := ExecuteAt(item.vm, payload);
    var early := o.lookup == Found && at.Some? && now < at.value;
    var due := o.lookup == Found && at.Some? && now >= at.value && o.cleanupOk;
    && OneRow(a, b, item.vmId)
    && (issued <==> due)
    && (ok <==> o.rowOk && (o.lookup == Absent || early || (due && o.deleteOk)))
    && (!ok ==> b == a)
    && (ok && item.vmId in a.vms ==>
          b.vms[item.vmId] == if early then a.vms[item.vmId].(sync := SyncDeleting, realPower := PowerOff)
                              else a.vms[item.vmId].(sync := Synced, realPower := PowerDeleted, deletedAt := Some(now)))
    && (if ok && due && o.cancelOk then CancelsExactly(a.queue.rows, b.queue.rows, (t: Task) => t.vm == item.vmId && OpenStatus(t.status))
        else b.queue == a.queue)
  }

  /** runTask up to markTaskDone, on the tables. */
  ghost predicate BodyDone(item: Item, o: Outcome, now: Time, a: Db, b: Db, ok: bool, issued: bool) {
    var gone := item.vm.intent == IntentDeletePending || item.vm.sync == SyncDeleting || item.vm.requestedAt.Some?;
    match item.kind
    case PowerChange => !issued && PowerDone(item, o, a, b, ok, true)
    case Reboot => !issued && PowerDone(item, o, a, b, ok, false)
    case Delete => DeleteDone(item, item.payload, o, now, a, b, ok, issued)
    case _ => if gone then DeleteDone(item, NoPayload, o, now, a, b, ok, issued) else !issued && PresentDone(item.vmId, o, a, b, ok)
  }

  lemma OneWrite(db: Db, vm: int, x: Write, now: Time)
    ensures ApplyWrites(db, vm, [x], now) == ApplyWrite(db, vm, x, now)
  {
    assert [x][1..] == [];
  }

  lemma TwoWrites(db: Db, vm: int, x: Write, y: Write, now: Time)
    ensures ApplyWrites(db, vm, [x, y], now) == ApplyWrite(ApplyWrite(db, vm, x, now), vm, y, now)
  {
    assert [x, y][1..] == [y];
    OneWrite(ApplyWrite(db, vm, x, now), vm, y, now);
  }

  lemma PresentMeans(item: Item, o: Outcome, now: Time, db: Db)
    ensures var e := SyncPresent(item.vm, o);
            !e.issued && PresentDone(item.vmId, o, db, ApplyWrites(db, item.vmId, e.writes, now), e.ok)
  {
    var synced := WriteSynced(o.power);
    if o.nodeWritten && o.presentOk {
      TwoWrites(db, item.vmId, WriteNode(o.node), synced, now);
      assert [WriteNode(o.node)] + [synced] == [WriteNode(o.node), synced];
    } else if o.nodeWritten {
      OneWrite(db, item.vmId, WriteNode(o.node), now);
    } else if o.presentOk {
      OneWrite(db, item.vmId, synced, now);
      assert [] + [synced] == [synced];
    }
  }

  lemma PowerMeans(item: Item, o: Outcome, now: Time, marks: bool, db: Db)
    ensures var e := RunPower(item.vm, o, marks);
            !e.issued && PowerDone(item, o, db, ApplyWrites(db, item.vmId, e.writes, now), e.ok, marks)
  {
    OneWrite(db, item.vmId, WriteSynced(o.power), now);
  }

  lemma DeleteMeans(item: Item, payload: Payload, o: Outcome, now: Time, db: Db)
    ensures var e := SyncDelete(item.vm, payload, o, now);
            DeleteDone(item, payload, o, now, db, ApplyWrites(db, item.vmId, e.writes, now), e.ok, e.issued)
  {
    OneWrite(db, item.vmId, WriteDeleted, now);
    OneWrite(db, item.vmId, WriteDeletePending, now);
    TwoWrites(db, item.vmId, WriteDeleted, WriteCancelOutstanding, now);
    CancelOutstandingMeans(db.queue.rows, item.vmId, now);
  }

  /** Every task body does on the tables what is written out above. */
  lemma BodyMeans(item: Item, o: Outcome, now: Time, db: Db)
    ensures var e := Body(item, o, now);
            BodyDone(item, o, now, db, ApplyWrites(db, item.vmId, e.writes, now), e.ok, e.issued)
  {
    hide ApplyWrites, PresentDone, PowerDone, DeleteDone, SyncPresent, RunPower, SyncDelete;
    PresentMeans(item, o, now, db);
    PowerMeans(item, o, now, true, db);
    PowerMeans(item, o, now, false, db);
    DeleteMeans(item, item.payload, o, now, db);
    DeleteMeans(item, NoPayload, o, now, db);
  }
}
