/** Delete tasks never pile up, in any serial run, and the expiry query leaves every due VM with exactly one. */
module Expiry {
  import opened Records
  import opened TaskQueue
  import opened Machine
  import opened Handlers
  import opened Serial
  import opened DeleteProtocol
  import QueueOrder
  import Inventory
  import Tenancy

  // ---- the statements handlers use ----

  /** A delete task is only queued right after everything of its VM was canceled. */
  predicate Disciplined(ops: seq<TaskOp>) {
    || ops == []
    || (|ops| == 1 && (ops[0].OpRetry? || (ops[0].OpEnqueue? && ops[0].kind != Delete)))
    || (|ops| == 2 && ops[1].OpEnqueue? &&
        (if ops[1].kind == Delete then ops[0] == OpCancelAll(ops[1].vm)
         else ops[0].OpCancelDeletes? || (ops[0].OpEnqueue? && ops[0].kind != Delete)))
  }

  lemma CreateIsDisciplined(cfg: Config, db: Db, r: Request)
    requires r.CreateVm? && HandleCreate(cfg, db, r).Ok?
    ensures Disciplined(HandleCreate(cfg, db, r).value.ops)
  {
  }

  lemma PatchIsDisciplined(cfg: Config, db: Db, r: Request)
    requires r.PatchVm? && HandlePatch(cfg, db, r).Ok?
    ensures Disciplined(HandlePatch(cfg, db, r).value.ops)
  {
  }

  lemma AdoptIsDisciplined(cfg: Config, db: Db, r: Request)
    requires r.AdoptVm? && HandleAdopt(cfg, db, r).Ok?
    ensures Disciplined(HandleAdopt(cfg, db, r).value.ops)
  {
  }

  lemma HandlersAreDisciplined(cfg: Config, db: Db, r: Request, now: Time)
    requires Handle(cfg, db, r, now).Ok?
    ensures Disciplined(Handle(cfg, db, r, now).value.ops)
  {
    hide HandleCreate, HandlePatch, HandleAdopt;
    if r.CreateVm? {
      CreateIsDisciplined(cfg, db, r);
    } else if r.PatchVm? {
      PatchIsDisciplined(cfg, db, r);
    } else if r.AdoptVm? {
      AdoptIsDisciplined(cfg, db, r);
    }
  }

  ghost predicate QueueLive(q: Queue) {
    QueueOrder.IdsBelow(q) && OneLiveDelete(q.rows)
  }

  lemma EnqueueStaysLive(q: Queue, vm: int, kind: Kind, payload: Payload, now: Time)
    requires QueueLive(q) && (kind == Delete ==> !HasLiveDelete(q.rows, vm))
    ensures QueueLive(Enqueue(q, vm, kind, payload, now))
  {
  }

  lemma NarrowStaysLive(q: Queue, rows: map<int, Task>)
    requires QueueLive(q) && Narrows(q.rows, rows)
    ensures QueueLive(q.(rows := rows))
  {
  }

  lemma OpsStayLive(q: Queue, ops: seq<TaskOp>, now: Time)
    requires QueueLive(q) && Disciplined(ops)
    ensures QueueLive(ApplyOps(q, ops, now))
  {
    if |ops| == 1 {
      OneOp(q, ops[0], now);
      assert ops == [ops[0]];
      if ops[0].OpRetry? {
        NarrowStaysLive(q, RetryTask(q.rows, ops[0].task, ops[0].vm, now));
      } else {
        EnqueueStaysLive(q, ops[0].vm, ops[0].kind, ops[0].payload, now);
      }
    } else if |ops| == 2 {
      TwoOps(q, ops[0], ops[1], now);
      assert ops == [ops[0], ops[1]];
      var q1 := ApplyOp(q, ops[0], now);
      if ops[0].OpEnqueue? {
        EnqueueStaysLive(q, ops[0].vm, ops[0].kind, ops[0].payload, now);
      } else {
        NarrowStaysLive(q, q1.rows);
      }
      EnqueueStaysLive(q1, ops[1].vm, ops[1].kind, ops[1].payload, now);
    }
  }

  // ---- the worker ----

  ghost predicate ItemLive(rows: map<int, Task>, i: Item) {
    i.id in rows && rows[i.id].vm == i.vmId && !Settled(rows[i.id])
  }

  ghost predicate RestLive(rows: map<int, Task>, rest: seq<Item>) {
    && (forall k :: 0 <= k < |rest| ==> ItemLive(rows, rest[k]))
    && (forall j, k :: 0 <= j < k < |rest| ==> rest[j].vmId != rest[k].vmId)
  }

  ghost predicate LiveInv(w: World) {
    && QueueLive(w.db.queue)
    && match w.phase {
       case Idle => true
       case Selected(batch) => RestLive(w.db.queue.rows, batch)
       case Working(item, rest) => RestLive(w.db.queue.rows, [item] + rest)
       case Executed(item, rest, ok) =>
         && RestLive(w.db.queue.rows, rest)
         && (forall k :: 0 <= k < |rest| ==> rest[k].vmId != item.vmId)
         && item.id in w.db.queue.rows && w.db.queue.rows[item.id].vm == item.vmId
         && AloneIfDelete(w.db.queue.rows, item.id)
       }
  }

  lemma {:induction false} WritesStayLive(db: Db, vm: int, xs: seq<Write>, now: Time)
    requires QueueLive(db.queue)
    ensures var q := ApplyWrites(db, vm, xs, now).queue;
            && QueueLive(q)
            && Narrows(db.queue.rows, q.rows) && q.rows.Keys == db.queue.rows.Keys
            && (forall id :: id in db.queue.rows && (db.queue.rows[id].vm != vm || WriteCancelOutstanding !in xs) ==> q.rows[id] == db.queue.rows[id])
    decreases |xs|
  {
    if xs != [] {
      var db1 := ApplyWrite(db, vm, xs[0], now);
      NarrowStaysLive(db.queue, db1.queue.rows);
      assert xs[0] in xs && forall x :: x in xs[1..] ==> x in xs;
      WritesStayLive(db1, vm, xs[1..], now);
    }
  }

  lemma ExecStaysLive(c: Clockwork, w: World, o: Outcome, now: Time)
    requires LiveInv(w) && Enabled(w, Exec(o, now))
    ensures LiveInv(Step(c, w, Exec(o, now)))
  {
    hide Body;
    var item, rest := w.phase.item, w.phase.rest;
    var e := Body(item, o, now);
    WritesStayLive(w.db, item.vmId, e.writes, now);
    assert ([item] + rest)[0] == item;
    forall k | 0 <= k < |rest|
      ensures rest[k].vmId != item.vmId && ItemLive(w.db.queue.rows, rest[k])
    {
      assert ([item] + rest)[k + 1] == rest[k];
    }
    forall j, k | 0 <= j < k < |rest|
      ensures rest[j].vmId != rest[k].vmId
    {
      assert ([item] + rest)[j + 1] == rest[j] && ([item] + rest)[k + 1] == rest[k];
    }
  }

  lemma StartStaysLive(c: Clockwork, w: World, now: Time)
    requires LiveInv(w) && Enabled(w, Start(now))
    ensures LiveInv(Step(c, w, Start(now)))
  {
    var w' := Step(c, w, Start(now));
    var batch := w.phase.batch;
    NarrowStaysLive(w.db.queue, w'.db.queue.rows);
    var todo := [w'.phase.item] + w'.phase.rest;
    forall k | 0 <= k < |todo|
      ensures todo[k].vmId == batch[k].vmId && ItemLive(w'.db.queue.rows, todo[k])
    {
      assert ItemLive(w.db.queue.rows, batch[k]);
    }
  }

  lemma SelectStaysLive(c: Clockwork, w: World, batch: seq<Item>, now: Time)
    requires LiveInv(w) && Enabled(w, Select(batch, now))
    ensures LiveInv(Step(c, w, Select(batch, now)))
  {
    forall k | 0 <= k < |batch|
      ensures ItemLive(w.db.queue.rows, batch[k])
    {
      assert ReadyHead(w.db, batch[k].id, now);
    }
  }

  lemma LostStaysLive(w: World)
    requires LiveInv(w) && InBody(w.phase)
    ensures LiveInv(w.(phase := Next(w.phase.rest)))
  {
    if w.phase.Working? {
      var todo := [w.phase.item] + w.phase.rest;
      assert todo[1..] == w.phase.rest;
      forall k | 0 <= k < |w.phase.rest|
        ensures todo[k + 1] == w.phase.rest[k] && ItemLive(w.db.queue.rows, w.phase.rest[k])
      {
      }
    }
  }

  lemma SweepStaysLive(c: Clockwork, w: World, a: Action)
    requires LiveInv(w) && Enabled(w, a)
    requires a.RecoverAbandoned? || a.RecoverStale? || a.DropSuperseded? || Purges(a) || a.Crash?
    ensures LiveInv(Step(c, w, a))
  {
    NarrowStaysLive(w.db.queue, Step(c, w, a).db.queue.rows);
  }

  lemma ExpiredStaysLive(c: Clockwork, w: World, a: Action)
    requires LiveInv(w) && Enabled(w, a) && a.QueueExpired? && Expired(c, w.db, a.vm, a.asOf)
    ensures LiveInv(Step(c, w, a))
  {
    EnqueueStaysLive(w.db.queue, a.vm, Delete, DeletePayload(None, false, true), a.now);
  }

  lemma FinishStaysLive(c: Clockwork, w: World, a: Action)
    requires LiveInv(w) && Enabled(w, a) && (a.FinishLost? || a.FinishFailed? || a.FinishDone? || a.SkipHead?)
    requires !a.SkipHead? ==> w.phase.Executed?
    ensures LiveInv(Step(c, w, a))
  {
    if a.FinishLost? {
      LostStaysLive(w);
    }
  }

  lemma RequestStaysLive(cfg: Config, c: Clockwork, w: World, r: Request, now: Time)
    requires LiveInv(w) && w.phase == Idle && w.clock <= now && Handle(cfg, w.db, r, now).Ok?
    ensures LiveInv(Step(c, w, Api(Handle(cfg, w.db, r, now).value, now)))
  {
    HandlersAreDisciplined(cfg, w.db, r, now);
    OpsStayLive(w.db.queue, Handle(cfg, w.db, r, now).value.ops, now);
    hide Handle;
  }

  lemma ScanStaysLive(c: Clockwork, w: World, vms: map<int, Vm>, nextVm: nat, now: Time)
    requires LiveInv(w) && w.phase == Idle && w.clock <= now
    ensures LiveInv(Step(c, w, Scan(vms, nextVm, now)))
  {
  }

  lemma EventStaysLive(cfg: Config, c: Clockwork, w: World, e: Event)
    requires LiveInv(w) && MayHappen(cfg, c, w, e)
    ensures LiveInv(React(cfg, c, w, e))
  {
    hide LiveInv, Step, Handle, Expired;
    match e
    case Req(r, now) => RequestStaysLive(cfg, c, w, r, now);
    case ScanOf(cluster, found, swept, now) =>
      var rows := Inventory.ScanPart(RowsOf(w.db), cluster, found, swept, now);
      ScanStaysLive(c, w, rows.vms, rows.next, now);
    case Work(a) =>
      if a.QueueExpired? {
        ExpiredStaysLive(c, w, a);
      } else if a.Select? {
        SelectStaysLive(c, w, a.batch, a.now);
      } else if a.Start? {
        StartStaysLive(c, w, a.now);
      } else if a.Exec? {
        ExecStaysLive(c, w, a.outcome, a.now);
      } else if a.FinishLost? || a.FinishFailed? || a.FinishDone? || a.SkipHead? {
        FinishStaysLive(c, w, a);
      } else {
        SweepStaysLive(c, w, a);
      }
  }

  /** In every serial run, leaking restores included, no VM ever has two live delete tasks. */
  lemma {:induction false} AtMostOneLiveDelete(cfg: Config, c: Clockwork, es: seq<Event>)
    requires ValidHistory(cfg, c, NEW_INSTALLATION, es)
    ensures LiveInv(History(cfg, c, NEW_INSTALLATION, es))
    ensures OneLiveDelete(History(cfg, c, NEW_INSTALLATION, es).db.queue.rows)
    decreases |es|
  {
    if es != [] {
      var before := es[..|es| - 1];
      AtMostOneLiveDelete(cfg, c, before);
      EventStaysLive(cfg, c, History(cfg, c, NEW_INSTALLATION, before), es[|es| - 1]);
    }
  }

  // ---- the expiry query ----

  /** A VM whose deletion is due and may be worked on. */
  predicate Due(c: Clockwork, db: Db, id: int, now: Time) {
    && id in db.vms
    && var vm := db.vms[id];
    Eligible(vm) && vm.requestedAt.Some? && vm.executeAfter.Some? && c.le(vm.executeAfter.value, now)
  }

  /** ensureExpiredDeleteTasks: one queueVMTask transaction per row of the query, the i-th at time `at(i)`. */
  function QueueEach(q: Queue, ids: seq<int>, at: nat -> Time): Queue
    decreases |ids|
  {
    if ids == [] then q
    else
      var n := |ids| - 1;
      Enqueue(QueueEach(q, ids[..n], at), ids[n], Delete, DeletePayload(None, false, true), at(n))
  }

  ghost predicate ExactlyOneLiveDelete(rows: map<int, Task>, vm: int) {
    exists id :: id in rows && LiveDelete(rows[id], vm) && forall j :: j in rows && LiveDelete(rows[j], vm) ==> j == id
  }

  lemma {:induction false} QueueEachAdds(q: Queue, ids: seq<int>, at: nat -> Time)
    requires QueueLive(q) && (forall i, j :: 0 <= i < j < |ids| ==> ids[i] != ids[j])
    requires forall i :: 0 <= i < |ids| ==> !HasLiveDelete(q.rows, ids[i])
    ensures var q' := QueueEach(q, ids, at);
            && QueueLive(q')
            && (forall id :: id in q.rows ==> id in q'.rows && q'.rows[id] == q.rows[id])
            && (forall vm :: HasLiveDelete(q'.rows, vm) <==> HasLiveDelete(q.rows, vm) || vm in ids)
    decreases |ids|
  {
    if ids != [] {
      var init, last := ids[..|ids| - 1], ids[|ids| - 1];
      QueueEachAdds(q, init, at);
      var q1 := QueueEach(q, init, at);
      var q' := QueueEach(q, ids, at);
      assert ids == init + [last];
      assert !HasLiveDelete(q1.rows, last);
      EnqueueStaysLive(q1, last, Delete, DeletePayload(None, false, true), at(|ids| - 1));
      forall vm
        ensures HasLiveDelete(q'.rows, vm) <==> HasLiveDelete(q1.rows, vm) || vm == last
      {
        if HasLiveDelete(q1.rows, vm) {
          var id :| id in q1.rows && LiveDelete(q1.rows[id], vm);
          assert id in q'.rows && LiveDelete(q'.rows[id], vm);
        }
        if vm == last {
          assert LiveDelete(q'.rows[q1.nextId], vm);
        }
      }
    }
  }

  /** Right after the expiry query every due VM has exactly one live delete task; nothing else was queued. */
  lemma ExpiryCoversEveryDueVm(c: Clockwork, db: Db, ids: seq<int>, now: Time, at: nat -> Time)
    requires QueueLive(db.queue) && (forall i, j :: 0 <= i < j < |ids| ==> ids[i] != ids[j])
    requires forall id :: id in ids <==> Expired(c, db, id, now)
    ensures var q' := QueueEach(db.queue, ids, at);
            && (forall id :: Due(c, db, id, now) ==> ExactlyOneLiveDelete(q'.rows, id))
            && (forall id :: HasLiveDelete(q'.rows, id) ==> HasLiveDelete(db.queue.rows, id) || Due(c, db, id, now))
  {
    forall i | 0 <= i < |ids|
      ensures !HasLiveDelete(db.queue.rows, ids[i])
    {
      assert ids[i] in ids;
    }
    QueueEachAdds(db.queue, ids, at);
    var q' := QueueEach(db.queue, ids, at);
    forall id | Due(c, db, id, now)
      ensures ExactlyOneLiveDelete(q'.rows, id)
    {
      assert HasLiveDelete(q'.rows, id);
      var t :| t in q'.rows && LiveDelete(q'.rows[t], id);
      assert forall j :: j in q'.rows && LiveDelete(q'.rows[j], id) ==> j == t;
    }
  }

  // ---- waiting for the deadline ----

  /** The deletion is requested, no task of the VM is open and the worker holds none. */
  ghost predicate Dormant(w: World, vm: int, row: Vm) {
    && vm in w.db.vms && w.db.vms[vm] == row && vm < w.db.nextVm
    && row.managed && row.sync == SyncDeleting && row.requestedAt.Some? && row.executeAfter.Some?
    && (forall id :: id in w.db.queue.rows ==> !Open(w.db.queue.rows[id], vm))
    && (forall k :: 0 <= k < |QueueOrder.Todo(w.phase)| ==> QueueOrder.Todo(w.phase)[k].vmId != vm)
  }

  /** The VM a request is about. */
  function About(db: Db, r: Request): Option<int> {
    if r.CreateVm? then Some(db.nextVm)
    else if r.CreateGroup? || r.PatchGroup? || r.DeleteGroup? then None
    else Some(r.vm)
  }

  ghost predicate Minds(db: Db, tx: Tx, about: Option<int>, vm: int) {
    && (forall op :: op in tx.ops ==> about == Some(op.vm))
    && (vm in db.vms && db.vms[vm].sync == SyncDeleting && about != Some(vm) ==>
          vm in tx.vms && tx.vms[vm] == db.vms[vm] && tx.nextVm >= db.nextVm)
  }

  lemma CreateMinds(cfg: Config, db: Db, r: Request, vm: int)
    requires r.CreateVm? && HandleCreate(cfg, db, r).Ok?
    ensures Minds(db, HandleCreate(cfg, db, r).value, Some(db.nextVm), vm)
  {
    hide CreateRefusal, CreatedRow;
  }

  lemma PatchMinds(cfg: Config, db: Db, r: Request, vm: int)
    requires r.PatchVm? && HandlePatch(cfg, db, r).Ok?
    ensures Minds(db, HandlePatch(cfg, db, r).value, Some(r.vm), vm)
  {
    hide PatchRefusal, PatchedRow, PatchReboots;
  }

  lemma AdoptMinds(cfg: Config, db: Db, r: Request, vm: int)
    requires r.AdoptVm? && HandleAdopt(cfg, db, r).Ok?
    ensures Minds(db, HandleAdopt(cfg, db, r).value, Some(r.vm), vm)
  {
    hide AdoptRefusal, AdoptedRow;
  }

  lemma DeletionMinds(db: Db, r: Request, now: Time, vm: int)
    requires r.DeleteVm? || r.DeleteNowVm? || r.RestoreVm?
    ensures r.DeleteVm? && HandleDelete(db, r, now).Ok? ==> Minds(db, HandleDelete(db, r, now).value, Some(r.vm), vm)
    ensures r.DeleteNowVm? && HandleDeleteNow(db, r, now).Ok? ==> Minds(db, HandleDeleteNow(db, r, now).value, Some(r.vm), vm)
    ensures r.RestoreVm? && HandleRestore(db, r).Ok? ==> Minds(db, HandleRestore(db, r).value, Some(r.vm), vm)
  {
  }

  /** A request touches the tasks of the VM it is about and leaves the rows of other VMs that are being deleted alone. */
  lemma RequestMinds(cfg: Config, db: Db, r: Request, now: Time, vm: int)
    requires Handle(cfg, db, r, now).Ok?
    ensures Minds(db, Handle(cfg, db, r, now).value, About(db, r), vm)
  {
    hide HandleCreate, HandlePatch, HandleAdopt, HandleDelete, HandleDeleteNow, HandleRestore;
    if r.CreateVm? {
      CreateMinds(cfg, db, r, vm);
    } else if r.PatchVm? {
      PatchMinds(cfg, db, r, vm);
    } else if r.AdoptVm? {
      AdoptMinds(cfg, db, r, vm);
    } else if r.DeleteVm? || r.DeleteNowVm? || r.RestoreVm? {
      DeletionMinds(db, r, now, vm);
    }
  }

  lemma {:induction false} OpsLeaveAlone(q: Queue, ops: seq<TaskOp>, now: Time, vm: int)
    requires forall op :: op in ops ==> op.vm != vm
    requires forall id :: id in q.rows ==> !Open(q.rows[id], vm)
    ensures forall id :: id in ApplyOps(q, ops, now).rows ==> !Open(ApplyOps(q, ops, now).rows[id], vm)
    decreases |ops|
  {
    if ops != [] {
      assert ops[0] in ops && forall op :: op in ops[1..] ==> op in ops;
      OpsLeaveAlone(ApplyOp(q, ops[0], now), ops[1..], now, vm);
    }
  }

  lemma {:induction false} WritesLeaveAlone(db: Db, other: int, xs: seq<Write>, now: Time, vm: int)
    requires other != vm && vm in db.vms && forall id :: id in db.queue.rows ==> !Open(db.queue.rows[id], vm)
    ensures var db' := ApplyWrites(db, other, xs, now);
            vm in db'.vms && db'.vms[vm] == db.vms[vm] && db'.nextVm == db.nextVm
            && forall id :: id in db'.queue.rows ==> !Open(db'.queue.rows[id], vm)
    decreases |xs|
  {
    if xs != [] {
      WritesLeaveAlone(ApplyWrite(db, other, xs[0], now), other, xs[1..], now, vm);
    }
  }

  /** Nobody asks anything about the VM, and the expiry query has not taken it up. */
  predicate Disturbs(db: Db, e: Event, vm: int) {
    (e.Req? && About(db, e.request) == Some(vm)) || (e.Work? && e.action.QueueExpired? && e.action.vm == vm)
  }

  lemma RequestLeavesDormant(cfg: Config, c: Clockwork, w: World, e: Event, vm: int, row: Vm)
    requires Dormant(w, vm, row) && MayHappen(cfg, c, w, e) && e.Req? && About(w.db, e.request) != Some(vm)
    ensures Dormant(React(cfg, c, w, e), vm, row)
  {
    hide Handle;
    RequestMinds(cfg, w.db, e.request, e.now, vm);
    OpsLeaveAlone(w.db.queue, Handle(cfg, w.db, e.request, e.now).value.ops, e.now, vm);
  }

  lemma BodyLeavesDormant(c: Clockwork, w: World, a: Action, vm: int, row: Vm)
    requires Dormant(w, vm, row) && LiveInv(w) && Enabled(w, a) && (a.Exec? || a.Start? || a.Select?)
    ensures Dormant(Step(c, w, a), vm, row)
  {
    hide Body;
    if a.Exec? {
      assert QueueOrder.Todo(w.phase)[0] == w.phase.item;
      WritesLeaveAlone(w.db, w.phase.item.vmId, Body(w.phase.item, a.outcome, a.now).writes, a.now, vm);
    } else if a.Start? {
      assert ItemLive(w.db.queue.rows, w.phase.batch[0]);
      assert QueueOrder.Todo(w.phase)[0] == w.phase.batch[0];
      assert forall k :: 0 <= k < |QueueOrder.Todo(Step(c, w, a).phase)| ==> QueueOrder.Todo(Step(c, w, a).phase)[k].vmId == w.phase.batch[k].vmId;
    } else {
      forall k | 0 <= k < |a.batch|
        ensures a.batch[k].vmId != vm
      {
        assert ReadyHead(w.db, a.batch[k].id, a.now);
      }
    }
  }

  lemma FinishLeavesDormant(c: Clockwork, w: World, a: Action, vm: int, row: Vm)
    requires Dormant(w, vm, row) && LiveInv(w) && Enabled(w, a) && (a.FinishDone? || a.FinishFailed? || a.FinishLost? || a.SkipHead?)
    requires !a.SkipHead? ==> w.phase.Executed?
    ensures Dormant(Step(c, w, a), vm, row)
  {
    assert QueueOrder.Todo(w.phase)[0].vmId != vm;
    assert QueueOrder.Todo(Step(c, w, a).phase) == QueueOrder.Todo(w.phase)[1..];
  }

  lemma SweepLeavesDormant(cfg: Config, c: Clockwork, w: World, e: Event, vm: int, row: Vm)
    requires Dormant(w, vm, row) && MayHappen(cfg, c, w, e) && !Disturbs(w.db, e, vm)
    requires Inventory.RowIdsBelow(RowsOf(w.db)) && Inventory.UniqueActive(w.db.vms)
    requires match e
             case Req(_, _) => false
             case ScanOf(_, _, _, _) => true
             case Work(a) => a.RecoverAbandoned? || a.RecoverStale? || a.QueueExpired? || a.DropSuperseded? || Purges(a) || a.Crash?
    ensures Dormant(React(cfg, c, w, e), vm, row)
  {
    if e.ScanOf? {
      Inventory.ScanPartChange(RowsOf(w.db), e.cluster, e.found, e.swept, e.now);
    }
  }

  lemma EventLeavesDormant(cfg: Config, c: Clockwork, w: World, e: Event, vm: int, row: Vm)
    requires Dormant(w, vm, row) && LiveInv(w) && MayHappen(cfg, c, w, e) && !Disturbs(w.db, e, vm)
    requires Inventory.RowIdsBelow(RowsOf(w.db)) && Inventory.UniqueActive(w.db.vms)
    ensures Dormant(React(cfg, c, w, e), vm, row)
  {
    hide Dormant, LiveInv, Step, Handle;
    if e.Req? {
      RequestLeavesDormant(cfg, c, w, e, vm, row);
    } else if e.Work? && (e.action.Exec? || e.action.Start? || e.action.Select?) {
      BodyLeavesDormant(c, w, e.action, vm, row);
    } else if e.Work? && (e.action.FinishDone? || e.action.FinishFailed? || e.action.FinishLost? || e.action.SkipHead?) {
      FinishLeavesDormant(c, w, e.action, vm, row);
    } else {
      SweepLeavesDormant(cfg, c, w, e, vm, row);
    }
  }

  ghost predicate Undisturbed(cfg: Config, c: Clockwork, w: World, es: seq<Event>, vm: int)
    requires ValidHistory(cfg, c, w, es)
    decreases |es|
  {
    es == [] ||
    (Undisturbed(cfg, c, w, es[..|es| - 1], vm) && !Disturbs(History(cfg, c, w, es[..|es| - 1]).db, es[|es| - 1], vm))
  }

  /** From then on, through any continuation that leaves the VM alone, the row stays as it is and the expiry query lists the
      VM exactly when it is eligible and its deadline has passed. */
  lemma {:induction false} DormantUntilExpired(cfg: Config, c: Clockwork, w: World, es: seq<Event>, vm: int, row: Vm, later: Time)
    requires Tenancy.RowsInv(w.db) && LiveInv(w) && Dormant(w, vm, row)
    requires ValidHistory(cfg, c, w, es) && Undisturbed(cfg, c, w, es, vm)
    ensures var w' := History(cfg, c, w, es);
            && Tenancy.RowsInv(w'.db) && LiveInv(w') && Dormant(w', vm, row)
            && (Expired(c, w'.db, vm, later) <==> Eligible(row) && c.le(row.executeAfter.value, later))
    decreases |es|
  {
    if es != [] {
      var before := es[..|es| - 1];
      DormantUntilExpired(cfg, c, w, before, vm, row, later);
      var w1 := History(cfg, c, w, before);
      DormantNext(cfg, c, w1, es[|es| - 1], vm, row);
    }
    DormantIsListed(c, History(cfg, c, w, es), vm, row, later);
  }

  lemma DormantNext(cfg: Config, c: Clockwork, w: World, e: Event, vm: int, row: Vm)
    requires Tenancy.RowsInv(w.db) && LiveInv(w) && Dormant(w, vm, row) && MayHappen(cfg, c, w, e) && !Disturbs(w.db, e, vm)
    ensures var w' := React(cfg, c, w, e); Tenancy.RowsInv(w'.db) && LiveInv(w') && Dormant(w', vm, row)
  {
    hide LiveInv, Dormant, Step, Handle;
    EventLeavesDormant(cfg, c, w, e, vm, row);
    EventStaysLive(cfg, c, w, e);
    Tenancy.EventKeepsRows(cfg, c, w, e);
  }

  lemma DormantIsListed(c: Clockwork, w: World, vm: int, row: Vm, later: Time)
    requires Dormant(w, vm, row)
    ensures Expired(c, w.db, vm, later) <==> Eligible(row) && c.le(row.executeAfter.value, later)
  {
    assert forall id :: id in w.db.queue.rows && LiveDelete(w.db.queue.rows[id], vm) ==> Open(w.db.queue.rows[id], vm);
  }

  // ---- the two ends of the window ----

  predicate TooEarly(i: Item, o: Outcome, now: Time) {
    i.kind == Delete && i.vm.requestedAt.Some? && i.vm.executeAfter.Some? && now < i.vm.executeAfter.value && o.lookup == Found && o.rowOk
  }

  lemma EarlyWrites(w: World, o: Outcome, now: Time)
    requires ProtocolInv(w) && w.phase.Working? && TooEarly(w.phase.item, o, now)
    ensures var i := w.phase.item;
            && Body(i, o, now) == Effect([WriteDeletePending], true, false)
            && ApplyWrites(w.db, i.vmId, [WriteDeletePending], now) == ApplyWrite(w.db, i.vmId, WriteDeletePending, now)
  {
    var i := w.phase.item;
    assert ExecuteAt(i.vm, i.payload) == i.vm.executeAfter by {
      assert TaskOk(w.db.queue.rows[i.id], w.db.vms[i.vmId]);
    }
    assert [WriteDeletePending][1..] == [];
  }

  lemma EarlyDeleteFallsDormant(cfg: Config, c: Clockwork, w: World, o: Outcome, now: Time)
    requires LiveInv(w) && ProtocolInv(w) && MayHappen(cfg, c, w, Work(Exec(o, now))) && TooEarly(w.phase.item, o, now)
    ensures var i := w.phase.item;
            var w1 := React(cfg, c, w, Work(Exec(o, now)));
            && MayHappen(cfg, c, w1, Work(FinishDone(now)))
            && Dormant(React(cfg, c, w1, Work(FinishDone(now))), i.vmId, i.vm.(sync := SyncDeleting, realPower := PowerOff))
  {
    hide Body, ApplyWrites;
    var i := w.phase.item;
    EarlyWrites(w, o, now);
    assert LiveDelete(w.db.queue.rows[i.id], i.vmId);
    forall j | j in w.db.queue.rows && j != i.id
      ensures !Open(w.db.queue.rows[j], i.vmId)
    {
      assert TaskOk(w.db.queue.rows[j], w.db.vms[w.db.queue.rows[j].vm]);
    }
  }

  /** A delete task that runs before the deadline completes without touching the request, and from then on, through any
      continuation that leaves the VM alone, the row stays as it is, no delete task of the VM is live, and the expiry query
      lists the VM exactly when it is eligible and its deadline has passed. */
  lemma EarlyDeleteIsQueuedAgain(cfg: Config, c: Clockwork, w: World, o: Outcome, now: Time, es: seq<Event>, later: Time)
    requires Tenancy.RowsInv(w.db) && LiveInv(w) && ProtocolInv(w) && MayHappen(cfg, c, w, Work(Exec(o, now))) && TooEarly(w.phase.item, o, now)
    requires var w1 := React(cfg, c, w, Work(Exec(o, now)));
             MayHappen(cfg, c, w1, Work(FinishDone(now))) ==>
               var w2 := React(cfg, c, w1, Work(FinishDone(now)));
               ValidHistory(cfg, c, w2, es) && Undisturbed(cfg, c, w2, es, w.phase.item.vmId)
    ensures var i := w.phase.item;
            var row := i.vm.(sync := SyncDeleting, realPower := PowerOff);
            var w1 := React(cfg, c, w, Work(Exec(o, now)));
            && MayHappen(cfg, c, w1, Work(FinishDone(now)))
            && var db := History(cfg, c, React(cfg, c, w1, Work(FinishDone(now))), es).db;
            && i.vmId in db.vms && db.vms[i.vmId] == row
            && !HasLiveDelete(db.queue.rows, i.vmId)
            && (Expired(c, db, i.vmId, later) <==> Eligible(row) && c.le(row.executeAfter.value, later))
  {
    hide LiveInv, ProtocolInv, Step, Dormant, Body;
    var i := w.phase.item;
    var w1 := React(cfg, c, w, Work(Exec(o, now)));
    EarlyDeleteFallsDormant(cfg, c, w, o, now);
    var w2 := React(cfg, c, w1, Work(FinishDone(now)));
    EventStaysLive(cfg, c, w, Work(Exec(o, now)));
    EventStaysLive(cfg, c, w1, Work(FinishDone(now)));
    Tenancy.EventKeepsRows(cfg, c, w, Work(Exec(o, now)));
    Tenancy.EventKeepsRows(cfg, c, w1, Work(FinishDone(now)));
    var row := i.vm.(sync := SyncDeleting, realPower := PowerOff);
    DormantUntilExpired(cfg, c, w2, es, i.vmId, row, later);
    DormantHasNone(History(cfg, c, w2, es), i.vmId, row);
  }

  lemma DormantHasNone(w: World, vm: int, row: Vm)
    requires Dormant(w, vm, row)
    ensures vm in w.db.vms && w.db.vms[vm] == row && !HasLiveDelete(w.db.queue.rows, vm)
  {
    assert forall id :: id in w.db.queue.rows && LiveDelete(w.db.queue.rows[id], vm) ==> Open(w.db.queue.rows[id], vm);
  }

  lemma DueWrites(w: World, o: Outcome, now: Time)
    requires ProtocolInv(w) && w.phase.Working?
    requires var i := w.phase.item;
             && i.kind == Delete && i.vm.requestedAt.Some? && now >= i.vm.executeAfter.value
             && o.lookup == Found && o.cleanupOk && o.deleteOk && o.rowOk && o.cancelOk
    ensures var i := w.phase.item;
            && Body(i, o, now) == Effect([WriteDeleted, WriteCancelOutstanding], true, true)
            && ApplyWrites(w.db, i.vmId, [WriteDeleted, WriteCancelOutstanding], now)
            == ApplyWrite(ApplyWrite(w.db, i.vmId, WriteDeleted, now), i.vmId, WriteCancelOutstanding, now)
  {
    var i := w.phase.item;
    assert ExecuteAt(i.vm, i.payload) == i.vm.executeAfter by {
      assert TaskOk(w.db.queue.rows[i.id], w.db.vms[i.vmId]);
    }
    var writes := [WriteDeleted, WriteCancelOutstanding];
    assert writes[1..] == [WriteCancelOutstanding] && writes[1..][1..] == [];
  }

  /** A delete task that runs at or after the deadline with PVE healthy deletes the VM for good: the call is issued,
      the row is gone from every later select, and none of its tasks is open any more. */
  lemma DueDeleteFinishes(cfg: Config, c: Clockwork, w: World, o: Outcome, now: Time)
    requires LiveInv(w) && ProtocolInv(w) && MayHappen(cfg, c, w, Work(Exec(o, now)))
    requires var i := w.phase.item;
             && i.kind == Delete && i.vm.requestedAt.Some? && now >= i.vm.executeAfter.value
             && o.lookup == Found && o.cleanupOk && o.deleteOk && o.rowOk && o.cancelOk
    ensures var i := w.phase.item;
            var w1 := React(cfg, c, w, Work(Exec(o, now)));
            && Body(i, o, now).issued
            && MayHappen(cfg, c, w1, Work(FinishDone(now)))
            && var db := React(cfg, c, w1, Work(FinishDone(now))).db;
            && i.vmId in db.vms && db.vms[i.vmId].deletedAt == Some(now)
            && (forall id :: id in db.queue.rows ==> !Open(db.queue.rows[id], i.vmId))
            && (forall id, t :: ReadyHead(db, id, t) ==> db.queue.rows[id].vm != i.vmId)
  {
    hide Body, ApplyWrites, LowerSettled, Ready;
    DueWrites(w, o, now);
    assert ItemLive(w.db.queue.rows, w.phase.item);
  }
}
