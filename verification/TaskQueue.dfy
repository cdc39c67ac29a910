/** The SQL statements that touch `vm_tasks`, each as a function from the old table to the new one. */
module TaskQueue {
  import opened Records
  import Sets

  const MAX_AUTO_RETRIES := 5
  const MAX_BATCH := 20

  predicate Settled(t: Task) {
    t.status == Done || t.status == Canceled
  }

  // ---- statements issued by API transactions ----

  function Coalesce(t: Option<Time>, now: Time): Option<Time> {
    if t.Some? then t else Some(now)
  }

  function CancelTask(t: Task, now: Time): Task {
    t.(status := Canceled, updatedAt := now, finishedAt := Coalesce(t.finishedAt, now))
  }

  /** cancelVMTasksTx */
  function CancelAll(rows: map<int, Task>, vm: int, now: Time): map<int, Task> {
    map id | id in rows :: if rows[id].vm == vm && !Settled(rows[id]) then CancelTask(rows[id], now) else rows[id]
  }

  /** The restore handler's own UPDATE: only pending and running delete tasks, and finished_at is left alone. */
  function CancelDeletes(rows: map<int, Task>, vm: int, now: Time): map<int, Task> {
    map id | id in rows ::
      var t := rows[id];
      if t.vm == vm && t.kind == Delete && (t.status == Pending || t.status == Running)
      then t.(status := Canceled, updatedAt := now) else t
  }

  /** Pending again with a clean error, start and finish: what a retry and a recovery both write. */
  function Requeue(t: Task, now: Time): Task {
    t.(status := Pending, startedAt := None, finishedAt := None, updatedAt := now)
  }

  /** The retry handler's UPDATE ... WHERE id = $2 AND vm_id = $3 AND status = 'failed'. */
  function RetryTask(rows: map<int, Task>, id: int, vm: int, now: Time): map<int, Task> {
    if id in rows && rows[id].vm == vm && rows[id].status == Failed
    then rows[id := Requeue(rows[id], now)] else rows
  }

  function SeqNos(rows: map<int, Task>, vm: int): set<int> {
    set id | id in rows && rows[id].vm == vm :: rows[id].seqNo
  }

  /** COALESCE(MAX(seq), 0) + 1 */
  function NextSeq(rows: map<int, Task>, vm: int): (n: int)
    ensures forall id :: id in rows && rows[id].vm == vm ==> rows[id].seqNo < n
  {
    var used := SeqNos(rows, vm);
    assert forall id :: id in rows && rows[id].vm == vm ==> rows[id].seqNo in used;
    if used == {} then 1
    else
      assert exists m :: Sets.IsMax(used, m) by { var m := Sets.MaxExists(used); }
      var m :| Sets.IsMax(used, m);
      m + 1
  }

  /** queueVMTaskTx, queueVMTaskConn and the worker's queueVMTask */
  function Enqueue(q: Queue, vm: int, kind: Kind, payload: Payload, now: Time): Queue {
    Queue(q.rows[q.nextId := Task(vm, NextSeq(q.rows, vm), kind, payload, Pending, 0, now, None, None)], q.nextId + 1)
  }

  datatype TaskOp =
    | OpCancelAll(vm: int)
    | OpCancelDeletes(vm: int)
    | OpEnqueue(vm: int, kind: Kind, payload: Payload)
    | OpRetry(task: int, vm: int)

  function ApplyOp(q: Queue, op: TaskOp, now: Time): Queue {
    match op
    case OpCancelAll(vm) => q.(rows := CancelAll(q.rows, vm, now))
    case OpCancelDeletes(vm) => q.(rows := CancelDeletes(q.rows, vm, now))
    case OpEnqueue(vm, kind, payload) => Enqueue(q, vm, kind, payload, now)
    case OpRetry(task, vm) => q.(rows := RetryTask(q.rows, task, vm, now))
  }

  function ApplyOps(q: Queue, ops: seq<TaskOp>, now: Time): Queue
    decreases |ops|
  {
    if ops == [] then q else ApplyOps(ApplyOp(q, ops[0], now), ops[1..], now)
  }

  // ---- statements issued by the worker ----

  /** recoverAbandonedRunningTasks (stale is true of every row) and recoverStaleRunningTasks */
  function Recover(rows: map<int, Task>, stale: Time -> bool, now: Time): map<int, Task> {
    map id | id in rows ::
      if rows[id].status == Running && stale(rows[id].updatedAt) then Requeue(rows[id], now) else rows[id]
  }

  /** cancelSupersededTasksForDeletingVMs */
  function CancelSuperseded(vms: map<int, Vm>, rows: map<int, Task>, now: Time): map<int, Task> {
    map id | id in rows ::
      var t := rows[id];
      if t.kind != Delete && !Settled(t) && t.vm in vms && Active(vms[t.vm]) && vms[t.vm].requestedAt != None
      then CancelTask(t, now) else t
  }

  /** markTaskRunning: WHERE id = $3 and nothing else, so it revives a task canceled after it was selected. */
  function MarkRunning(rows: map<int, Task>, id: int, now: Time): map<int, Task> {
    if id !in rows then rows else
    var t := rows[id];
    rows[id := t.(status := Running, attempts := t.attempts + 1, startedAt := Coalesce(t.startedAt, now),
                  finishedAt := None, updatedAt := now)]
  }

  function MarkDone(rows: map<int, Task>, id: int, now: Time): map<int, Task> {
    if id !in rows then rows else
    var t := rows[id];
    rows[id := t.(status := Done, finishedAt := Coalesce(t.finishedAt, now), updatedAt := now)]
  }

  function MarkFailed(rows: map<int, Task>, id: int, now: Time): map<int, Task> {
    if id !in rows then rows else
    var t := rows[id];
    rows[id := t.(status := Failed, finishedAt := Coalesce(t.finishedAt, now), updatedAt := now)]
  }

  /** cancelOutstandingVMTasks */
  function CancelOutstanding(rows: map<int, Task>, vm: int, now: Time): map<int, Task> {
    map id | id in rows ::
      if rows[id].vm == vm && !Settled(rows[id]) then rows[id].(status := Canceled, updatedAt := now) else rows[id]
  }

  /** The two statements of purgeOldTasks; `old_` is the textual comparison of a stored timestamp with the cutoff. */
  function PurgeFinished(rows: map<int, Task>, old_: Time -> bool): map<int, Task> {
    map id | id in rows && !((Settled(rows[id]) || rows[id].status == Failed) && rows[id].finishedAt.Some? && old_(rows[id].finishedAt.value))
      :: rows[id]
  }

  function PurgeDeleted(vms: map<int, Vm>, rows: map<int, Task>, old_: Time -> bool): map<int, Task> {
    map id | id in rows && !(rows[id].vm in vms && vms[rows[id].vm].deletedAt.Some? && old_(vms[rows[id].vm].deletedAt.value)) :: rows[id]
  }

  // ---- selection ----

  predicate Eligible(vm: Vm) {
    Active(vm) && vm.managed && !vm.paused
  }

  predicate AutoRetry(attempts: int) {
    1 <= attempts <= MAX_AUTO_RETRIES
  }

  function Pow2(n: nat): (p: int)
    ensures 1 <= p
  {
    if n == 0 then 1 else 2 * Pow2(n - 1)
  }

  /** vmTaskRetryDelay */
  function RetryDelay(attempts: int): Option<Time> {
    if AutoRetry(attempts) then Some(MINUTE * Pow2(attempts - 1)) else None
  }

  /** vmTaskReady */
  predicate Ready(t: Task, now: Time) {
    t.status == Pending ||
    (RetryDelay(t.attempts).Some? && now >= t.updatedAt + RetryDelay(t.attempts).value)
  }

  /** NOT EXISTS a row of the same VM with a smaller seq that is neither done nor canceled. */
  predicate LowerSettled(rows: map<int, Task>, id: int)
    requires id in rows
  {
    forall j :: j in rows && rows[j].vm == rows[id].vm && rows[j].seqNo < rows[id].seqNo ==> Settled(rows[j])
  }

  /** A row of pendingTasks' query. */
  predicate Head(db: Db, id: int) {
    && id in db.queue.rows
    && var t := db.queue.rows[id];
    && t.vm in db.vms && Eligible(db.vms[t.vm])
    && (t.status == Pending || (t.status == Failed && AutoRetry(t.attempts)))
    && LowerSettled(db.queue.rows, id)
  }

  predicate ReadyHead(db: Db, id: int, now: Time) {
    Head(db, id) && Ready(db.queue.rows[id], now)
  }
}
