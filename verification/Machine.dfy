/** The control plane as a step system: API transactions, one worker going through its select / mark-running / run /
    mark loop, and crashes. `Step` has one case per SQL transaction, so anything the API commits may fall between
    any two statements of the worker. The module `Serial` has the coarser grain. */
module Machine {
  import opened Records
  import opened TaskQueue

  const ABANDONED_AFTER := 30 * MINUTE

  /** `le` is the comparison of stored timestamps: the columns are TEXT, so SQL compares their spelling. */
  datatype Clockwork = Clockwork(le: (Time, Time) -> bool)

  /** What one API transaction commits: new rows elsewhere, and a list of `vm_tasks` statements. */
  datatype Tx = Tx(vms: map<int, Vm>, nextVm: nat, groups: set<Group>, ops: seq<TaskOp>)

  function Commit(db: Db, tx: Tx, now: Time): Db {
    Db(tx.vms, tx.nextVm, ApplyOps(db.queue, tx.ops, now), tx.groups)
  }

  // ---- the worker's writes while it runs a task ----

  datatype Write =
    | WriteSynced(power: Power)
    | WriteNode(node: string)
    | WriteDeletePending
    | WriteDeleted
    | WriteCancelOutstanding

  function WriteRow(vm: Vm, x: Write, now: Time): Vm {
    match x
    case WriteSynced(power) => vm.(sync := Synced, realPower := power)
    case WriteNode(node) => vm.(node := node)
    case WriteDeletePending => vm.(sync := SyncDeleting, realPower := PowerOff)
    case WriteDeleted => vm.(sync := Synced, realPower := PowerDeleted, deletedAt := Some(now))
    case WriteCancelOutstanding => vm
  }

  function ApplyWrite(db: Db, vmId: int, x: Write, now: Time): Db {
    var vms := if vmId in db.vms then db.vms[vmId := WriteRow(db.vms[vmId], x, now)] else db.vms;
    var queue := if x.WriteCancelOutstanding? then db.queue.(rows := CancelOutstanding(db.queue.rows, vmId, now)) else db.queue;
    db.(vms := vms, queue := queue)
  }

  function ApplyWrites(db: Db, vmId: int, xs: seq<Write>, now: Time): Db
    decreases |xs|
  {
    if xs == [] then db else ApplyWrites(ApplyWrite(db, vmId, xs[0], now), vmId, xs[1..], now)
  }

  // ---- task bodies ----

  datatype Lookup = LookupFailed | Absent | Found

  /** What PVE and the database answer while one task runs. */
  datatype Outcome = Outcome(
    lookup: Lookup,
    cleanupOk: bool,       // snapshots and backups removed
    deleteOk: bool,        // PVE accepted and finished the delete
    rowOk: bool,           // the row update at the end of the body went through
    cancelOk: bool,        // cancelOutstandingVMTasks went through
    presentOk: bool,       // every call of syncPresent, or of the power actions, went through
    node: string,
    nodeWritten: bool,     // markNode was reached
    power: Power)

  /** A batch entry keeps the row as it was read by the select. */
  datatype Item = Item(id: int, vmId: int, kind: Kind, payload: Payload, attempts: int, vm: Vm)

  datatype Effect = Effect(writes: seq<Write>, ok: bool, issued: bool)

  /** deleteExecuteAfterForTask; no value means parseTime fails on the empty string. */
  function ExecuteAt(vm: Vm, payload: Payload): Option<Time> {
    if payload.DeletePayload? && !payload.immediate && !payload.expired && payload.executeAfter.Some? then payload.executeAfter
    else if vm.executeAfter.Some? then vm.executeAfter
    else vm.preferAfter
  }

  /** syncDelete; `issued` says that it called DeleteVM. */
  function SyncDelete(vm: Vm, payload: Payload, o: Outcome, now: Time): Effect {
    match o.lookup
    case LookupFailed => Effect([], false, false)
    case Absent => if o.rowOk then Effect([WriteDeleted], true, false) else Effect([], false, false)
    case Found =>
      var at := ExecuteAt(vm, payload);
      if at == None then Effect([], false, false)
      else if now < at.value then
        if o.rowOk then Effect([WriteDeletePending], true, false) else Effect([], false, false)
      else if !o.cleanupOk then Effect([], false, false)
      else if !o.deleteOk || !o.rowOk then Effect([], false, true)
      else Effect(if o.cancelOk then [WriteDeleted, WriteCancelOutstanding] else [WriteDeleted], true, true)
  }

  function SyncPresent(vm: Vm, o: Outcome): Effect {
    var first := if o.nodeWritten then [WriteNode(o.node)] else [];
    if o.presentOk then Effect(first + [WriteSynced(o.power)], true, false) else Effect(first, false, false)
  }

  /** The test at the head of syncVM. */
  predicate WantsDelete(vm: Vm) {
    vm.intent == IntentDeletePending || PendingDeletion(vm)
  }

  /** runPowerTask and runRebootTask; only the first marks the row synced. */
  function RunPower(vm: Vm, o: Outcome, marks: bool): Effect {
    if vm.node == "" && o.lookup == LookupFailed then Effect([], false, false)
    else if vm.node == "" && o.lookup == Absent then Effect([], true, false)
    else if o.presentOk then Effect(if marks then [WriteSynced(o.power)] else [], true, false)
    else Effect([], false, false)
  }

  /** runTask up to markTaskDone. */
  function Body(item: Item, o: Outcome, now: Time): Effect {
    match item.kind
    case Provision => if WantsDelete(item.vm) then SyncDelete(item.vm, NoPayload, o, now) else SyncPresent(item.vm, o)
    case Apply => if WantsDelete(item.vm) then SyncDelete(item.vm, NoPayload, o, now) else SyncPresent(item.vm, o)
    case PowerChange => RunPower(item.vm, o, true)
    case Reboot => RunPower(item.vm, o, false)
    case Delete => SyncDelete(item.vm, item.payload, o, now)
  }

  // ---- the step system ----

  datatype Phase =
    | Idle
    | Selected(batch: seq<Item>)
    | Working(item: Item, rest: seq<Item>)
    | Executed(item: Item, rest: seq<Item>, ok: bool)

  datatype World = World(db: Db, phase: Phase, clock: Time)

  datatype Action =
    | Api(tx: Tx, now: Time)
    | RecoverAbandoned(now: Time)
    | RecoverStale(now: Time)
    | QueueExpired(vm: int, asOf: Time, now: Time) // listed by the query at `asOf`, queued at `now`
    | DropSuperseded(now: Time)
    | Scan(vms: map<int, Vm>, nextVm: nat, now: Time)
    | Select(batch: seq<Item>, now: Time)
    | Start(now: Time)
    | SkipHead(now: Time)                 // markTaskRunning failed
    | RowWrite(x: Write, now: Time)       // one statement of a task body
    | Exec(outcome: Outcome, now: Time)   // a whole task body
    | FinishDone(now: Time)
    | FinishFailed(marked: bool, now: Time) // `marked`: markFailed went through as well
    | FinishLost(marked: bool, now: Time)   // the closing update failed
    | PurgeFinishedTasks(now: Time)
    | PurgeDeletedVms(now: Time)
    | Crash(now: Time)

  /** pendingTasks: the first MAX_BATCH ready heads in order of VM id. */
  ghost predicate IsBatch(db: Db, batch: seq<Item>, now: Time) {
    && |batch| <= MAX_BATCH
    && (forall k :: 0 <= k < |batch| ==> ReadyHead(db, batch[k].id, now) && batch[k] == ItemOf(db, batch[k].id))
    && (forall j, k :: 0 <= j < k < |batch| ==> batch[j].vmId < batch[k].vmId)
    && (forall id :: ReadyHead(db, id, now) ==>
          (exists k :: 0 <= k < |batch| && batch[k].id == id) ||
          (|batch| == MAX_BATCH && batch[|batch| - 1].vmId < db.queue.rows[id].vm))
  }

  function ItemOf(db: Db, id: int): Item
    requires id in db.queue.rows && db.queue.rows[id].vm in db.vms
  {
    var t := db.queue.rows[id];
    Item(id, t.vm, t.kind, t.payload, t.attempts, db.vms[t.vm])
  }

  function Next(rest: seq<Item>): Phase {
    if rest == [] then Idle else Selected(rest)
  }

  predicate Purges(a: Action) {
    a.PurgeFinishedTasks? || a.PurgeDeletedVms?
  }

  predicate InBody(p: Phase) {
    p.Working? || p.Executed?
  }

  ghost predicate Enabled(w: World, a: Action) {
    && w.clock <= a.now
    && match a {
       case Api(_, _) => true
       case Crash(_) => true
       case Select(batch, now) => w.phase.Idle? && IsBatch(w.db, batch, now)
       case Start(_) => w.phase.Selected? && w.phase.batch != []
       case SkipHead(_) => w.phase.Selected? && w.phase.batch != []
       case RowWrite(_, _) => w.phase.Working?
       case Exec(_, _) => w.phase.Working?
       case FinishDone(_) => InBody(w.phase)
       case FinishFailed(_, _) => InBody(w.phase)
       case FinishLost(_, _) => InBody(w.phase)
       case _ => w.phase.Idle?
       }
  }

  /** No cutoff: recoverAbandonedRunningTasks takes every running row. */
  function Anything(): Time -> bool {
    (t: Time) => true
  }

  /** updated_at <= cutoff, half an hour ago */
  function Stale(c: Clockwork, now: Time): Time -> bool {
    (t: Time) => c.le(t, now - ABANDONED_AFTER)
  }

  /** stamp < cutoff, a day ago */
  function Outdated(c: Clockwork, now: Time): Time -> bool {
    (t: Time) => !c.le(now - DAY, t)
  }

  function Rows(db: Db, rows: map<int, Task>): Db {
    db.(queue := db.queue.(rows := rows))
  }

  /** markFailed, reached when the local attempt counter has passed the auto-retry limit. */
  function GiveUp(db: Db, item: Item, marked: bool): Db {
    if marked && item.attempts > MAX_AUTO_RETRIES && item.vmId in db.vms
    then db.(vms := db.vms[item.vmId := db.vms[item.vmId].(sync := SyncFailed)]) else db
  }

  function Step(c: Clockwork, w: World, a: Action): (w': World)
    requires Enabled(w, a)
  {
    var rows := w.db.queue.rows;
    match a
    case Api(tx, now) => World(Commit(w.db, tx, now), w.phase, now)
    case RecoverAbandoned(now) => World(Rows(w.db, Recover(rows, Anything(), now)), w.phase, now)
    case RecoverStale(now) => World(Rows(w.db, Recover(rows, Stale(c, now), now)), w.phase, now)
    case QueueExpired(vm, _, now) => World(w.db.(queue := Enqueue(w.db.queue, vm, Delete, DeletePayload(None, false, true), now)), w.phase, now)
    case DropSuperseded(now) => World(Rows(w.db, CancelSuperseded(w.db.vms, rows, now)), w.phase, now)
    case Scan(vms, nextVm, now) => World(w.db.(vms := vms, nextVm := nextVm), w.phase, now)
    case Select(batch, now) => World(w.db, Next(batch), now)
    case Start(now) =>
      var item := w.phase.batch[0];
      World(Rows(w.db, MarkRunning(rows, item.id, now)), Working(item.(attempts := item.attempts + 1), w.phase.batch[1..]), now)
    case SkipHead(now) => World(w.db, Next(w.phase.batch[1..]), now)
    case RowWrite(x, now) => World(ApplyWrite(w.db, w.phase.item.vmId, x, now), w.phase, now)
    case Exec(o, now) =>
      var e := Body(w.phase.item, o, now);
      World(ApplyWrites(w.db, w.phase.item.vmId, e.writes, now), Executed(w.phase.item, w.phase.rest, e.ok), now)
    case FinishDone(now) => World(Rows(w.db, MarkDone(rows, w.phase.item.id, now)), Next(w.phase.rest), now)
    case FinishFailed(marked, now) =>
      World(Rows(GiveUp(w.db, w.phase.item, marked), MarkFailed(rows, w.phase.item.id, now)), Next(w.phase.rest), now)
    case FinishLost(marked, now) => World(GiveUp(w.db, w.phase.item, marked), Next(w.phase.rest), now)
    case PurgeFinishedTasks(now) => World(Rows(w.db, PurgeFinished(rows, Outdated(c, now))), w.phase, now)
    case PurgeDeletedVms(now) => World(Rows(w.db, PurgeDeleted(w.db.vms, rows, Outdated(c, now))), w.phase, now)
    case Crash(now) => World(w.db, Idle, now)
  }

  ghost predicate ValidRun(c: Clockwork, w: World, run: seq<Action>)
    decreases |run|, 0
  {
    run == [] || (ValidRun(c, w, run[..|run| - 1]) && Enabled(Run(c, w, run[..|run| - 1]), run[|run| - 1]))
  }

  ghost function Run(c: Clockwork, w: World, run: seq<Action>): World
    requires ValidRun(c, w, run)
    decreases |run|, 1
  {
    if run == [] then w else Step(c, Run(c, w, run[..|run| - 1]), run[|run| - 1])
  }

  /** The state of a fresh installation. */
  const EMPTY_QUEUE := Queue(map[], 1)

  ghost predicate Fresh(w: World) {
    w.db.queue == EMPTY_QUEUE && w.phase == Idle
  }
}
