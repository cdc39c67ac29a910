/** Exactly when a restore is safe, whenever it commits. The handler cancels pending and running delete tasks but not
    failed ones, a failed delete task that was queued by an ordinary delete request carries its own deadline, and the
    worker neither re-reads a selected row nor looks at a task's status before it starts or closes it. */
module Restore {
  import opened Records
  import opened TaskQueue
  import opened Machine
  import opened Handlers
  import opened Serial
  import opened DeleteProtocol
  import Sets

  /** The run leads to a DeleteVM call for a VM whose deletion is not requested, or not due. */
  ghost predicate Unwanted(cfg: Config, c: Clockwork, w: World, es: seq<Event>, o: Outcome, now: Time) {
    && ValidHistory(cfg, c, w, es) && LeakFree(cfg, c, w, es)
    && var w1 := History(cfg, c, w, es);
    && MayHappen(cfg, c, w1, Work(Exec(o, now)))
    && Body(w1.phase.item, o, now).issued
    && !(w1.phase.item.vmId in w1.db.vms && Deletable(w1.db.vms[w1.phase.item.vmId], now))
  }

  predicate Deletable(vm: Vm, now: Time) {
    vm.requestedAt.Some? && vm.executeAfter.Some? && now >= vm.executeAfter.value
  }

  /** The restore is accepted; the worker may be anywhere in its cycle. */
  predicate Restores(w: World, r: Request, now: Time) {
    r.RestoreVm? && w.clock <= now && HandleRestore(w.db, r).Ok?
  }

  function AfterCommit(c: Clockwork, w: World, r: Request, now: Time): World
    requires Restores(w, r, now)
  {
    Step(c, w, Api(HandleRestore(w.db, r).value, now))
  }

  /** No serial continuation of the restore, apart from further leaking restores, issues an unwanted delete. */
  ghost predicate RestoreIsSafe(cfg: Config, c: Clockwork, w: World, r: Request, now: Time)
    requires Restores(w, r, now)
  {
    forall es, o, t :: !Unwanted(cfg, c, AfterCommit(c, w, r, now), es, o, t)
  }

  /** The worker already holds a delete task of the VM: selected, running, or run but not yet closed. In the last case
      the danger is a closing update that records a failure; a flagged task is harmless then, and so is a task whose VM
      it has just deleted. */
  ghost predicate InFlight(w: World, vm: int) {
    match w.phase
    case Idle => false
    case Selected(batch) => HoldsDelete(batch, vm)
    case Working(item, rest) => HoldsDelete([item] + rest, vm)
    case Executed(item, rest, _) =>
      || HoldsDelete(rest, vm)
      || (item.vmId == vm && item.id in w.db.queue.rows && w.db.queue.rows[item.id].kind == Delete
          && !Flagged(w.db.queue.rows[item.id].payload) && vm in w.db.vms && Active(w.db.vms[vm]))
  }

  ghost predicate HoldsDelete(batch: seq<Item>, vm: int) {
    exists k :: 0 <= k < |batch| && batch[k].vmId == vm && batch[k].kind == Delete
  }

  lemma {:induction false} HistoryKeepsFrom(cfg: Config, c: Clockwork, w: World, es: seq<Event>)
    requires ProtocolInv(w) && ValidHistory(cfg, c, w, es) && LeakFree(cfg, c, w, es)
    ensures ProtocolInv(History(cfg, c, w, es))
    decreases |es|
  {
    if es != [] {
      var before := es[..|es| - 1];
      HistoryKeepsFrom(cfg, c, w, before);
      EventKeeps(cfg, c, History(cfg, c, w, before), es[|es| - 1]);
    }
  }

  // ---- when it is safe ----

  /** Nothing the worker holds belongs to the VM, so the batch still mirrors the tables after the restore. */
  lemma BatchSurvives(db: Db, batch: seq<Item>, r: Request, now: Time)
    requires DbOk(db) && BatchOk(db, batch) && r.RestoreVm? && HandleRestore(db, r).Ok? && !HoldsDelete(batch, r.vm)
    ensures BatchOk(Commit(db, HandleRestore(db, r).value, now), batch)
    ensures forall k :: 0 <= k < |batch| ==> batch[k].vmId != r.vm
  {
    TwoOps(db.queue, OpCancelDeletes(r.vm), OpEnqueue(r.vm, Apply, NoPayload), now);
    forall k | 0 <= k < |batch|
      ensures batch[k].vmId != r.vm && ItemCurrent(Commit(db, HandleRestore(db, r).value, now), batch[k])
    {
      assert ItemCurrent(db, batch[k]) && TaskOk(db.queue.rows[batch[k].id], db.vms[batch[k].vmId]);
    }
  }

  lemma ClosingSurvives(c: Clockwork, w: World, r: Request, now: Time)
    requires ProtocolInv(w) && Restores(w, r, now) && !Leaks(w.db, r.vm) && !InFlight(w, r.vm) && w.phase.Executed?
    ensures var w1 := AfterCommit(c, w, r, now);
            var id := w.phase.item.id;
            && id in w1.db.queue.rows && w1.db.queue.rows[id].vm == w.phase.item.vmId && w.phase.item.vmId in w1.db.vms
            && TaskOk(w1.db.queue.rows[id].(status := Failed), w1.db.vms[w.phase.item.vmId]) && AloneIfDelete(w1.db.queue.rows, id)
  {
    TwoOps(w.db.queue, OpCancelDeletes(r.vm), OpEnqueue(r.vm, Apply, NoPayload), now);
    assert RowOk(w.db.vms[r.vm]);
  }

  lemma HeldSurvives(c: Clockwork, w: World, r: Request, now: Time)
    requires ProtocolInv(w) && Restores(w, r, now) && !Leaks(w.db, r.vm) && !InFlight(w, r.vm)
    ensures PhaseOk(AfterCommit(c, w, r, now).db, w.phase)
  {
    hide HandleRestore, BatchOk, RowsOk, TasksOk, ItemCurrent, Leaks;
    match w.phase
    case Idle =>
    case Selected(batch) => BatchSurvives(w.db, batch, r, now);
    case Working(item, rest) => WorkingSurvives(w.db, item, rest, r, now);
    case Executed(item, rest, _) =>
      BatchSurvives(w.db, rest, r, now);
      ClosingSurvives(c, w, r, now);
  }

  lemma WorkingSurvives(db: Db, item: Item, rest: seq<Item>, r: Request, now: Time)
    requires DbOk(db) && r.RestoreVm? && HandleRestore(db, r).Ok? && PhaseOk(db, Working(item, rest)) && !HoldsDelete([item] + rest, r.vm)
    ensures PhaseOk(Commit(db, HandleRestore(db, r).value, now), Working(item, rest))
  {
    hide HandleRestore, RowsOk, OneLiveDelete, Commit;
    var todo := [item] + rest;
    assert forall k :: 0 <= k < |rest| ==> todo[k + 1] == rest[k];
    assert BatchOk(db, todo);
    BatchSurvives(db, todo, r, now);
    assert todo[0] == item;
    WorkingRowStays(db, item, r, now);
  }

  lemma RestoreKeepsProtocol(c: Clockwork, w: World, r: Request, now: Time)
    requires ProtocolInv(w) && Restores(w, r, now) && !Leaks(w.db, r.vm) && !InFlight(w, r.vm)
    ensures ProtocolInv(AfterCommit(c, w, r, now))
  {
    RestoreTxKeeps(w.db, r, now);
    HeldSurvives(c, w, r, now);
    hide HandleRestore, PhaseOk, RowsOk, TasksOk, OneLiveDelete;
  }

  lemma WorkingRowStays(db: Db, item: Item, r: Request, now: Time)
    requires r.RestoreVm? && HandleRestore(db, r).Ok? && (forall id :: id in db.queue.rows ==> id < db.queue.nextId)
    requires item.id in db.queue.rows && db.queue.rows[item.id].vm == item.vmId && item.vmId != r.vm
    ensures var q := Commit(db, HandleRestore(db, r).value, now).queue; item.id in q.rows && q.rows[item.id] == db.queue.rows[item.id]
  {
    TwoOps(db.queue, OpCancelDeletes(r.vm), OpEnqueue(r.vm, Apply, NoPayload), now);
  }

  lemma NoLeakIsSafe(cfg: Config, c: Clockwork, w: World, r: Request, now: Time)
    requires ProtocolInv(w) && Restores(w, r, now) && !Leaks(w.db, r.vm) && !InFlight(w, r.vm)
    ensures RestoreIsSafe(cfg, c, w, r, now)
  {
    var w0 := AfterCommit(c, w, r, now);
    RestoreKeepsProtocol(c, w, r, now);
    forall es, o, t
      ensures !Unwanted(cfg, c, w0, es, o, t)
    {
      if Unwanted(cfg, c, w0, es, o, t) {
        HistoryKeepsFrom(cfg, c, w0, es);
        var w1 := History(cfg, c, w0, es);
        BodyIsSound(w1.db, w1.phase.item, o, t);
        assert false;
      }
    }
  }

  // ---- the other direction: building the run that deletes a restored VM ----

  lemma Extend(cfg: Config, c: Clockwork, w: World, es: seq<Event>, e: Event)
    requires ValidHistory(cfg, c, w, es) && LeakFree(cfg, c, w, es)
    requires MayHappen(cfg, c, History(cfg, c, w, es), e)
    requires !(e.Req? && e.request.RestoreVm?)
    ensures ValidHistory(cfg, c, w, es + [e]) && LeakFree(cfg, c, w, es + [e])
    ensures History(cfg, c, w, es + [e]) == React(cfg, c, History(cfg, c, w, es), e)
  {
    assert (es + [e])[..|es + [e]| - 1] == es;
  }

  const ADMIN := Actor("admin", true)

  function Pause(vms: map<int, Vm>, ids: set<int>): map<int, Vm> {
    map id | id in vms :: if id in ids then vms[id].(paused := true) else vms[id]
  }

  /** Pausing a set of managed VMs one after another. */
  lemma {:induction false} PauseAll(cfg: Config, c: Clockwork, w: World, es: seq<Event>, ids: set<int>, t: Time) returns (es': seq<Event>)
    requires ValidHistory(cfg, c, w, es) && LeakFree(cfg, c, w, es)
    requires var w1 := History(cfg, c, w, es);
             w1.phase == Idle && w1.clock <= t && forall id :: id in ids ==> id in w1.db.vms && w1.db.vms[id].managed
    ensures ValidHistory(cfg, c, w, es') && LeakFree(cfg, c, w, es')
    ensures var w1 := History(cfg, c, w, es);
            var w2 := History(cfg, c, w, es');
            w2.phase == Idle && w2.clock <= t && w2.db == w1.db.(vms := Pause(w1.db.vms, ids))
    decreases |ids|
  {
    var w1 := History(cfg, c, w, es);
    if ids == {} {
      es' := es;
      assert Pause(w1.db.vms, ids) == w1.db.vms;
    } else {
      var id := Sets.Pick(ids);
      var e := Req(PauseTasks(ADMIN, id), t);
      Extend(cfg, c, w, es, e);
      var w2 := History(cfg, c, w, es + [e]);
      assert w2.db == w1.db.(vms := w1.db.vms[id := w1.db.vms[id].(paused := true)]);
      es' := PauseAll(cfg, c, w, es + [e], ids - {id}, t);
      assert Pause(w2.db.vms, ids - {id}) == Pause(w1.db.vms, ids);
    }
  }

  /** The tables after a restore that leaves a failed delete task of the VM behind: it comes before every other open task. */
  ghost predicate LeftBehind(w: World, vm: int, id: int) {
    && vm in w.db.vms && w.db.vms[vm].requestedAt.None? && w.db.vms[vm].managed && Active(w.db.vms[vm])
    && id in w.db.queue.rows && Leaking(w.db.queue.rows[id], vm)
    && w.db.queue.rows[id].payload.DeletePayload? && w.db.queue.rows[id].payload.executeAfter.Some?
    && (forall j :: j in w.db.queue.rows && j != id && Open(w.db.queue.rows[j], vm) ==> w.db.queue.rows[id].seqNo < w.db.queue.rows[j].seqNo)
  }

  /** A task that is the only open one of its VM is followed by the apply task of the restore. */
  lemma OnlyApplyFollows(db: Db, r: Request, now: Time, id: int)
    requires DbOk(db) && r.RestoreVm? && HandleRestore(db, r).Ok? && id in db.queue.rows && db.queue.rows[id].vm == r.vm
    requires forall j :: j in db.queue.rows && j != id && db.queue.rows[j].vm == r.vm ==> !LiveDelete(db.queue.rows[j], r.vm)
    ensures var q := Commit(db, HandleRestore(db, r).value, now).queue;
            && id in q.rows && q.rows[id] == CancelDeletes(db.queue.rows, r.vm, now)[id]
            && forall j :: j in q.rows && j != id && Open(q.rows[j], r.vm) ==> q.rows[id].seqNo < q.rows[j].seqNo
  {
    TwoOps(db.queue, OpCancelDeletes(r.vm), OpEnqueue(r.vm, Apply, NoPayload), now);
    assert RowOk(db.vms[r.vm]);
    var mid := CancelDeletes(db.queue.rows, r.vm, now);
    forall j | j in mid && mid[j].vm == r.vm && j != id
      ensures Settled(mid[j])
    {
      assert TaskOk(db.queue.rows[j], db.vms[r.vm]);
    }
  }

  lemma AfterRestore(c: Clockwork, w: World, r: Request, now: Time, id: int)
    requires ProtocolInv(w) && Restores(w, r, now) && Leaks(w.db, r.vm)
    requires id in w.db.queue.rows && Leaking(w.db.queue.rows[id], r.vm)
    ensures LeftBehind(AfterCommit(c, w, r, now), r.vm, id)
  {
    assert TaskOk(w.db.queue.rows[id], w.db.vms[r.vm]) && RowOk(w.db.vms[r.vm]);
    assert LiveDelete(w.db.queue.rows[id], r.vm);
    OnlyApplyFollows(w.db, r, now, id);
  }

  /** With every other VM paused, this VM unpaused and its first open task pending, the next batch is that task. */
  lemma OnlyBatch(db: Db, vm: int, id: int, t: Time)
    requires id in db.queue.rows && db.queue.rows[id].vm == vm && db.queue.rows[id].status == Pending
    requires vm in db.vms && Eligible(db.vms[vm])
    requires forall j :: j in db.vms && j != vm ==> !Eligible(db.vms[j])
    requires forall j :: j in db.queue.rows && j != id && Open(db.queue.rows[j], vm) ==> db.queue.rows[id].seqNo < db.queue.rows[j].seqNo
    ensures IsBatch(db, [ItemOf(db, id)], t)
  {
    assert ReadyHead(db, id, t);
    var batch := [ItemOf(db, id)];
    forall j | ReadyHead(db, j, t)
      ensures exists k :: 0 <= k < |batch| && batch[k].id == j
    {
      assert j != id ==> Open(db.queue.rows[j], vm);
      assert batch[0].id == j;
    }
  }

  const HEALTHY := Outcome(Found, true, true, true, true, true, "", false, PowerOff)

  /** The leaking task is the first open task of an idle, unpaused VM, and every other VM is paused. */
  ghost predicate Cornered(db: Db, vm: int, id: int) {
    && vm in db.vms && db.vms[vm].managed && Active(db.vms[vm])
    && (forall j :: j in db.vms && j != vm ==> !Eligible(db.vms[j]))
    && id in db.queue.rows && db.queue.rows[id].vm == vm && db.queue.rows[id].kind == Delete
    && (forall j :: j in db.queue.rows && j != id && Open(db.queue.rows[j], vm) ==> db.queue.rows[id].seqNo < db.queue.rows[j].seqNo)
  }

  lemma ResumeStep(cfg: Config, c: Clockwork, w: World, vm: int, id: int, t: Time)
    requires w.phase == Idle && w.clock <= t && Cornered(w.db, vm, id)
    ensures MayHappen(cfg, c, w, Req(ResumeTasks(ADMIN, vm), t))
    ensures var w1 := React(cfg, c, w, Req(ResumeTasks(ADMIN, vm), t));
            && w1 == World(w.db.(vms := w.db.vms[vm := w.db.vms[vm].(paused := false)]), Idle, t)
            && Cornered(w1.db, vm, id) && !w1.db.vms[vm].paused
  {
  }

  lemma RetryStep(cfg: Config, c: Clockwork, w: World, vm: int, id: int, t: Time)
    requires w.phase == Idle && w.clock <= t && Cornered(w.db, vm, id) && !w.db.vms[vm].paused && w.db.queue.rows[id].status == Failed
    ensures MayHappen(cfg, c, w, Req(RetryVmTask(ADMIN, vm, id), t))
    ensures var w1 := React(cfg, c, w, Req(RetryVmTask(ADMIN, vm, id), t));
            && w1.phase == Idle && w1.clock == t && Cornered(w1.db, vm, id) && !w1.db.vms[vm].paused
            && w1.db.queue.rows[id].status == Pending && w1.db.queue.rows[id].payload == w.db.queue.rows[id].payload
            && w1.db.vms[vm].requestedAt == w.db.vms[vm].requestedAt
  {
    OneOp(w.db.queue, OpRetry(id, vm), t);
  }

  lemma SelectStartStep(cfg: Config, c: Clockwork, w: World, vm: int, id: int, t: Time)
    requires w.phase == Idle && w.clock <= t && Cornered(w.db, vm, id) && !w.db.vms[vm].paused && w.db.queue.rows[id].status == Pending
    ensures MayHappen(cfg, c, w, Work(Select([ItemOf(w.db, id)], t)))
    ensures var w1 := React(cfg, c, w, Work(Select([ItemOf(w.db, id)], t)));
            && MayHappen(cfg, c, w1, Work(Start(t)))
            && var w2 := React(cfg, c, w1, Work(Start(t)));
            && w2.clock == t && w2.phase.Working? && w2.phase.item.vmId == vm && w2.phase.item.kind == Delete
            && w2.phase.item.payload == w.db.queue.rows[id].payload && w2.db.vms == w.db.vms
  {
    OnlyBatch(w.db, vm, id, t);
  }

  /** Unpause the VM, retry the failed task, select and start it. */
  lemma RunLeaked(cfg: Config, c: Clockwork, w: World, es: seq<Event>, vm: int, id: int, t: Time) returns (es': seq<Event>)
    requires ValidHistory(cfg, c, w, es) && LeakFree(cfg, c, w, es)
    requires var w1 := History(cfg, c, w, es);
             w1.phase == Idle && w1.clock <= t && Cornered(w1.db, vm, id) && w1.db.queue.rows[id].status == Failed
    ensures ValidHistory(cfg, c, w, es') && LeakFree(cfg, c, w, es')
    ensures var w1 := History(cfg, c, w, es);
            var w2 := History(cfg, c, w, es');
            && w2.clock == t && w2.phase.Working? && w2.phase.item.vmId == vm && w2.phase.item.kind == Delete
            && w2.phase.item.payload == w1.db.queue.rows[id].payload
            && vm in w2.db.vms && w2.db.vms[vm].requestedAt == w1.db.vms[vm].requestedAt
  {
    ResumeStep(cfg, c, History(cfg, c, w, es), vm, id, t);
    Extend(cfg, c, w, es, Req(ResumeTasks(ADMIN, vm), t));
    es' := es + [Req(ResumeTasks(ADMIN, vm), t)];
    RetryStep(cfg, c, History(cfg, c, w, es'), vm, id, t);
    Extend(cfg, c, w, es', Req(RetryVmTask(ADMIN, vm, id), t));
    es' := es' + [Req(RetryVmTask(ADMIN, vm, id), t)];
    var w2 := History(cfg, c, w, es');
    SelectStartStep(cfg, c, w2, vm, id, t);
    Extend(cfg, c, w, es', Work(Select([ItemOf(w2.db, id)], t)));
    es' := es' + [Work(Select([ItemOf(w2.db, id)], t))];
    Extend(cfg, c, w, es', Work(Start(t)));
    es' := es' + [Work(Start(t))];
  }

  lemma PausedIsCornered(db: Db, vms: map<int, Vm>, vm: int, id: int)
    requires vm in vms && vms[vm].managed && Active(vms[vm])
    requires db.vms == Pause(vms, set j | j in vms && j != vm && Eligible(vms[j]))
    requires id in db.queue.rows && db.queue.rows[id].vm == vm && db.queue.rows[id].kind == Delete
    requires forall j :: j in db.queue.rows && j != id && Open(db.queue.rows[j], vm) ==> db.queue.rows[id].seqNo < db.queue.rows[j].seqNo
    ensures Cornered(db, vm, id)
  {
  }

  lemma IssueNow(cfg: Config, c: Clockwork, w: World, es: seq<Event>, t: Time)
    requires ValidHistory(cfg, c, w, es) && LeakFree(cfg, c, w, es)
    requires var w2 := History(cfg, c, w, es);
             && w2.clock == t && w2.phase.Working? && w2.phase.item.kind == Delete && w2.phase.item.vmId in w2.db.vms
             && w2.db.vms[w2.phase.item.vmId].requestedAt.None?
             && var p := w2.phase.item.payload;
             p.DeletePayload? && !Flagged(p) && p.executeAfter.Some? && t >= p.executeAfter.value
    ensures Unwanted(cfg, c, w, es, HEALTHY, t)
  {
    hide History, ValidHistory, LeakFree;
  }

  /** From the tables a leaking restore leaves behind, with the worker idle: pause every other VM, wait for the old
      deadline, retry. */
  lemma LeftBehindIsUnsafe(cfg: Config, c: Clockwork, w: World, es: seq<Event>, vm: int, id: int) returns (es': seq<Event>, t: Time)
    requires ValidHistory(cfg, c, w, es) && LeakFree(cfg, c, w, es)
    requires var w1 := History(cfg, c, w, es); w1.phase == Idle && LeftBehind(w1, vm, id)
    ensures Unwanted(cfg, c, w, es', HEALTHY, t)
  {
    hide Cornered, Body;
    var w1 := History(cfg, c, w, es);
    var due := w1.db.queue.rows[id].payload.executeAfter.value;
    t := if due < w1.clock then w1.clock else due;
    var others := set j | j in w1.db.vms && j != vm && Eligible(w1.db.vms[j]);
    es' := PauseAll(cfg, c, w, es, others, t);
    PausedIsCornered(History(cfg, c, w, es').db, w1.db.vms, vm, id);
    es' := RunLeaked(cfg, c, w, es', vm, id, t);
    IssueNow(cfg, c, w, es', t);
  }

  lemma NoEvents(cfg: Config, c: Clockwork, w: World)
    ensures ValidHistory(cfg, c, w, []) && LeakFree(cfg, c, w, []) && History(cfg, c, w, []) == w
  {
  }

  /** Wherever the worker is, it may crash; that leaves the tables as they are. */
  lemma CrashFirst(cfg: Config, c: Clockwork, w: World, es: seq<Event>) returns (es': seq<Event>)
    requires ValidHistory(cfg, c, w, es) && LeakFree(cfg, c, w, es)
    ensures ValidHistory(cfg, c, w, es') && LeakFree(cfg, c, w, es')
    ensures var w1 := History(cfg, c, w, es); History(cfg, c, w, es') == World(w1.db, Idle, w1.clock)
  {
    var e := Work(Crash(History(cfg, c, w, es).clock));
    Extend(cfg, c, w, es, e);
    es' := es + [e];
  }

  lemma LeakIsUnsafe(cfg: Config, c: Clockwork, w: World, r: Request, now: Time)
    requires ProtocolInv(w) && Restores(w, r, now) && Leaks(w.db, r.vm)
    ensures !RestoreIsSafe(cfg, c, w, r, now)
  {
    hide History, ValidHistory, LeakFree, Unwanted;
    var id :| id in w.db.queue.rows && Leaking(w.db.queue.rows[id], r.vm);
    AfterRestore(c, w, r, now, id);
    var w1 := AfterCommit(c, w, r, now);
    NoEvents(cfg, c, w1);
    var es := CrashFirst(cfg, c, w1, []);
    var es', t := LeftBehindIsUnsafe(cfg, c, w1, es, r.vm, id);
  }

  /** The closing update of a delete task that the restore canceled meanwhile makes it a leaking one. */
  lemma ClosingLeavesBehind(c: Clockwork, w: World, r: Request, now: Time)
    requires ProtocolInv(w) && Restores(w, r, now) && w.phase.Executed? && w.phase.item.vmId == r.vm
    requires var t := w.db.queue.rows[w.phase.item.id]; t.kind == Delete && !Flagged(t.payload) && Active(w.db.vms[r.vm])
    ensures var w1 := Step(c, AfterCommit(c, w, r, now), FinishFailed(false, now)); LeftBehind(w1.(phase := Idle), r.vm, w.phase.item.id)
  {
    var id := w.phase.item.id;
    assert TaskOk(w.db.queue.rows[id].(status := Failed), w.db.vms[r.vm]) && RowOk(w.db.vms[r.vm]);
    OnlyApplyFollows(w.db, r, now, id);
  }

  lemma ClosingIsUnsafe(cfg: Config, c: Clockwork, w: World, r: Request, now: Time)
    requires ProtocolInv(w) && Restores(w, r, now) && w.phase.Executed? && w.phase.item.vmId == r.vm
    requires var t := w.db.queue.rows[w.phase.item.id]; t.kind == Delete && !Flagged(t.payload) && Active(w.db.vms[r.vm])
    ensures !RestoreIsSafe(cfg, c, w, r, now)
  {
    hide History, ValidHistory, LeakFree, Unwanted, LeftBehind, ProtocolInv, HandleRestore;
    var w1 := AfterCommit(c, w, r, now);
    ClosingLeavesBehind(c, w, r, now);
    NoEvents(cfg, c, w1);
    var e := Work(FinishFailed(false, now));
    Extend(cfg, c, w1, [], e);
    var es := CrashFirst(cfg, c, w1, [] + [e]);
    var es', t := LeftBehindIsUnsafe(cfg, c, w1, es, r.vm, w.phase.item.id);
  }

  // ---- a restore that comes too late ----

  /** PVE is down and nothing is written. */
  const DOWN := Outcome(LookupFailed, false, false, false, false, false, "", false, PowerUnknown)

  lemma DownWritesNothing(item: Item, t: Time)
    ensures Body(item, DOWN, t).writes == []
  {
  }

  /** The worker passes over the entries before the k-th and starts that one; no row of `vms` changes. */
  lemma {:induction false} ReachTask(cfg: Config, c: Clockwork, w: World, es: seq<Event>, k: nat, t: Time) returns (es': seq<Event>)
    requires ValidHistory(cfg, c, w, es) && LeakFree(cfg, c, w, es)
    requires var w1 := History(cfg, c, w, es); w1.phase.Selected? && k < |w1.phase.batch| && w1.clock <= t
    ensures ValidHistory(cfg, c, w, es') && LeakFree(cfg, c, w, es')
    ensures var w1, w2 := History(cfg, c, w, es), History(cfg, c, w, es');
            && w2.phase.Working? && w2.clock == t && w2.db.vms == w1.db.vms
            && w2.phase.item == w1.phase.batch[k].(attempts := w1.phase.batch[k].attempts + 1)
    decreases k
  {
    hide History, ValidHistory, LeakFree;
    var w1 := History(cfg, c, w, es);
    if k == 0 {
      Extend(cfg, c, w, es, Work(Start(t)));
      es' := es + [Work(Start(t))];
    } else {
      Extend(cfg, c, w, es, Work(SkipHead(t)));
      es' := ReachTask(cfg, c, w, es + [Work(SkipHead(t))], k - 1, t);
    }
  }

  /** Finishing with the present entry, without writing anything to `vms`. */
  lemma LeaveCurrent(cfg: Config, c: Clockwork, w: World, es: seq<Event>, t: Time) returns (es': seq<Event>)
    requires ValidHistory(cfg, c, w, es) && LeakFree(cfg, c, w, es)
    requires var w1 := History(cfg, c, w, es); InBody(w1.phase) && w1.clock <= t
    ensures ValidHistory(cfg, c, w, es') && LeakFree(cfg, c, w, es')
    ensures var w1, w2 := History(cfg, c, w, es), History(cfg, c, w, es');
            w2.db.vms == w1.db.vms && w2.clock == t && w2.phase == Next(w1.phase.rest)
  {
    hide History, ValidHistory, LeakFree, Body;
    var w1 := History(cfg, c, w, es);
    es' := es;
    if w1.phase.Working? {
      DownWritesNothing(w1.phase.item, t);
      Extend(cfg, c, w, es, Work(Exec(DOWN, t)));
      es' := es + [Work(Exec(DOWN, t))];
    }
    var e := Work(FinishLost(false, t));
    Extend(cfg, c, w, es', e);
    es' := es' + [e];
  }

  /** A running delete task works on the row as it was selected. */
  lemma StaleItemIssues(cfg: Config, c: Clockwork, w: World, es: seq<Event>, t: Time)
    requires ValidHistory(cfg, c, w, es) && LeakFree(cfg, c, w, es)
    requires var w2 := History(cfg, c, w, es);
             && w2.clock <= t && w2.phase.Working? && w2.phase.item.kind == Delete && w2.phase.item.vmId in w2.db.vms
             && w2.db.vms[w2.phase.item.vmId].requestedAt.None?
             && var at := ExecuteAt(w2.phase.item.vm, w2.phase.item.payload); at.Some? && t >= at.value
    ensures Unwanted(cfg, c, w, es, HEALTHY, t)
  {
    hide History, ValidHistory, LeakFree;
  }

  lemma ItemHasDeadline(db: Db, item: Item, vm: int)
    requires DbOk(db) && ItemCurrent(db, item) && item.kind == Delete && item.vm.requestedAt.Some?
    ensures ExecuteAt(item.vm, item.payload) == item.vm.executeAfter && item.vm.executeAfter.Some?
  {
    assert TaskOk(db.queue.rows[item.id], item.vm) && RowOk(item.vm);
  }

  /** The entries whose bodies the worker has yet to run. */
  function Unrun(p: Phase): seq<Item> {
    match p
    case Idle => []
    case Selected(batch) => batch
    case Working(item, rest) => [item] + rest
    case Executed(_, rest, _) => rest
  }

  lemma UnrunIsCurrent(w: World, k: nat)
    requires ProtocolInv(w) && k < |Unrun(w.phase)|
    ensures ItemCurrent(w.db, Unrun(w.phase)[k])
  {
  }

  /** Serialising requests with worker cycles is no idle assumption: once the worker has selected the delete task, a
      restore is accepted and clears the request, and some continuation deletes the VM all the same. */
  lemma RestoreDuringTheTaskIsTooLate(cfg: Config, c: Clockwork, w: World, r: Request, now: Time, k: nat)
    requires ProtocolInv(w) && Restores(w, r, now) && k < |Unrun(w.phase)| && Unrun(w.phase)[k].vmId == r.vm && Unrun(w.phase)[k].kind == Delete
    ensures !RestoreIsSafe(cfg, c, w, r, now)
  {
    hide History, ValidHistory, LeakFree, Unwanted;
    var item := Unrun(w.phase)[k];
    UnrunIsCurrent(w, k);
    assert item.vm.requestedAt.Some? by { assert RowOk(item.vm); }
    ItemHasDeadline(w.db, item, r.vm);
    var due := item.vm.executeAfter.value;
    var t := if due < now then now else due;
    var w1 := AfterCommit(c, w, r, now);
    NoEvents(cfg, c, w1);
    var es: seq<Event> := [];
    if w.phase.Selected? {
      es := ReachTask(cfg, c, w1, [], k, t);
    } else if w.phase.Executed? || k > 0 {
      es := LeaveCurrent(cfg, c, w1, [], t);
      var i := if w.phase.Working? then k - 1 else k;
      es := ReachTask(cfg, c, w1, es, i, t);
    }
    StaleItemIssues(cfg, c, w1, es, t);
  }

  lemma InFlightIsUnsafe(cfg: Config, c: Clockwork, w: World, r: Request, now: Time)
    requires ProtocolInv(w) && Restores(w, r, now) && InFlight(w, r.vm)
    ensures !RestoreIsSafe(cfg, c, w, r, now)
  {
    if HoldsDelete(Unrun(w.phase), r.vm) {
      var k :| 0 <= k < |Unrun(w.phase)| && Unrun(w.phase)[k].vmId == r.vm && Unrun(w.phase)[k].kind == Delete;
      RestoreDuringTheTaskIsTooLate(cfg, c, w, r, now, k);
    } else {
      ClosingIsUnsafe(cfg, c, w, r, now);
    }
  }

  // ---- main results ----

  /** Committed between any two steps of the worker, a task body being one step: a restore is safe if and only if the VM has
      no failed delete task with a deadline of its own and the worker holds no delete task of it. */
  lemma RestoreSafeExactlyAnytime(cfg: Config, c: Clockwork, w: World, r: Request, now: Time)
    requires ProtocolInv(w) && Restores(w, r, now)
    ensures RestoreIsSafe(cfg, c, w, r, now) <==> !Leaks(w.db, r.vm) && !InFlight(w, r.vm)
  {
    if Leaks(w.db, r.vm) {
      LeakIsUnsafe(cfg, c, w, r, now);
    } else if InFlight(w, r.vm) {
      InFlightIsUnsafe(cfg, c, w, r, now);
    } else {
      NoLeakIsSafe(cfg, c, w, r, now);
    }
  }

  /** Between cycles: a restore is safe if and only if the VM is deleted already or has no such failed task. */
  lemma RestoreSafeExactlyWithoutLeak(cfg: Config, c: Clockwork, w: World, r: Request, now: Time)
    requires ProtocolInv(w) && r.RestoreVm? && MayHappen(cfg, c, w, Req(r, now))
    ensures RestoreIsSafe(cfg, c, w, r, now) <==> !Leaks(w.db, r.vm)
  {
    RestoreSafeExactlyAnytime(cfg, c, w, r, now);
  }
}
