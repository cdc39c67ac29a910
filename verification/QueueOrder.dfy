/** Per-VM ordering, at the finest interleaving: in every reachable state a VM has at most one running task and
    everything queued before that task is done or canceled. */
module QueueOrder {
  import opened Records
  import opened TaskQueue
  import opened Machine

  ghost predicate SeqUnique(rows: map<int, Task>) {
    forall i, j :: i in rows && j in rows && i != j && rows[i].vm == rows[j].vm ==> rows[i].seqNo != rows[j].seqNo
  }

  ghost predicate IdsBelow(q: Queue) {
    forall i :: i in q.rows ==> i < q.nextId
  }

  ghost predicate RunningClear(rows: map<int, Task>) {
    forall i :: i in rows && rows[i].status == Running ==> LowerSettled(rows, i)
  }

  /** The worker may start `id`: nothing of its VM before it is open, and nothing else of its VM is running. */
  ghost predicate Claimed(rows: map<int, Task>, id: int, vm: int) {
    && id in rows
    && rows[id].vm == vm
    && LowerSettled(rows, id)
    && forall j :: j in rows && j != id && rows[j].vm == vm ==> rows[j].status != Running
  }

  function Todo(p: Phase): seq<Item> {
    match p
    case Idle => []
    case Selected(batch) => batch
    case Working(item, rest) => [item] + rest
    case Executed(item, rest, _) => [item] + rest
  }

  ghost predicate TodoClaimed(rows: map<int, Task>, todo: seq<Item>) {
    && (forall k :: 0 <= k < |todo| ==> Claimed(rows, todo[k].id, todo[k].vmId))
    && (forall j, k :: 0 <= j < k < |todo| ==> todo[j].vmId != todo[k].vmId)
  }

  ghost predicate QueueInv(w: World) {
    && IdsBelow(w.db.queue)
    && SeqUnique(w.db.queue.rows)
    && RunningClear(w.db.queue.rows)
    && TodoClaimed(w.db.queue.rows, Todo(w.phase))
  }

  // ---- what every statement except the worker's own marks keeps ----

  /** Known rows keep their place, settle only one way and are not started; new rows are pending and come last. */
  ghost predicate Calm(a: Queue, b: Queue) {
    && a.nextId <= b.nextId
    && (forall i :: i in a.rows && i in b.rows ==>
          && b.rows[i].vm == a.rows[i].vm && b.rows[i].seqNo == a.rows[i].seqNo
          && (Settled(a.rows[i]) ==> Settled(b.rows[i]))
          && (b.rows[i].status == Running ==> a.rows[i].status == Running))
    && (forall i :: i in b.rows && i !in a.rows ==>
          && a.nextId <= i < b.nextId
          && b.rows[i].status == Pending
          && forall j :: j in a.rows && a.rows[j].vm == b.rows[i].vm ==> a.rows[j].seqNo < b.rows[i].seqNo)
    && (forall i, j :: i in b.rows && j in b.rows && i !in a.rows && j !in a.rows ==> i == j)
  }

  lemma CalmKeeps(a: Queue, b: Queue, todo: seq<Item>)
    requires IdsBelow(a) && SeqUnique(a.rows) && RunningClear(a.rows) && TodoClaimed(a.rows, todo)
    requires Calm(a, b)
    requires todo == [] || a.rows.Keys <= b.rows.Keys
    ensures IdsBelow(b) && SeqUnique(b.rows) && RunningClear(b.rows) && TodoClaimed(b.rows, todo)
  {
    forall i | i in b.rows && b.rows[i].status == Running
      ensures LowerSettled(b.rows, i)
    {
      assert i in a.rows && LowerSettled(a.rows, i);
    }
    forall k | 0 <= k < |todo|
      ensures Claimed(b.rows, todo[k].id, todo[k].vmId)
    {
      assert Claimed(a.rows, todo[k].id, todo[k].vmId);
      assert todo[k].id in a.rows.Keys;
    }
  }

  lemma OpIsCalm(q: Queue, op: TaskOp, now: Time)
    requires IdsBelow(q)
    ensures Calm(q, ApplyOp(q, op, now))
    ensures q.rows.Keys <= ApplyOp(q, op, now).rows.Keys
  {
  }

  lemma {:induction false} OpsKeep(q: Queue, ops: seq<TaskOp>, now: Time, todo: seq<Item>)
    requires IdsBelow(q) && SeqUnique(q.rows) && RunningClear(q.rows) && TodoClaimed(q.rows, todo)
    ensures var q' := ApplyOps(q, ops, now);
            IdsBelow(q') && SeqUnique(q'.rows) && RunningClear(q'.rows) && TodoClaimed(q'.rows, todo)
    decreases |ops|
  {
    if ops != [] {
      OpIsCalm(q, ops[0], now);
      var q1 := ApplyOp(q, ops[0], now);
      CalmKeeps(q, q1, todo);
      OpsKeep(q1, ops[1..], now, todo);
    }
  }

  lemma {:induction false} WritesKeep(db: Db, vm: int, xs: seq<Write>, now: Time, todo: seq<Item>)
    requires var q := db.queue; IdsBelow(q) && SeqUnique(q.rows) && RunningClear(q.rows) && TodoClaimed(q.rows, todo)
    ensures var q := ApplyWrites(db, vm, xs, now).queue;
            IdsBelow(q) && SeqUnique(q.rows) && RunningClear(q.rows) && TodoClaimed(q.rows, todo)
    decreases |xs|
  {
    if xs != [] {
      var db1 := ApplyWrite(db, vm, xs[0], now);
      CalmKeeps(db.queue, db1.queue, todo);
      WritesKeep(db1, vm, xs[1..], now, todo);
    }
  }

  // ---- the worker's own marks ----

  /** Starting, finishing or failing the head of the to-do list. */
  lemma MarkKeeps(a: Queue, b: Queue, todo: seq<Item>)
    requires IdsBelow(a) && SeqUnique(a.rows) && RunningClear(a.rows) && TodoClaimed(a.rows, todo)
    requires todo != [] && b.nextId == a.nextId && b.rows.Keys == a.rows.Keys
    requires forall i :: i in a.rows && i != todo[0].id ==> b.rows[i] == a.rows[i]
    requires b.rows[todo[0].id].vm == a.rows[todo[0].id].vm && b.rows[todo[0].id].seqNo == a.rows[todo[0].id].seqNo
    ensures IdsBelow(b) && SeqUnique(b.rows) && RunningClear(b.rows)
    ensures TodoClaimed(b.rows, todo)
    ensures TodoClaimed(b.rows, todo[1..])
  {
    var head := todo[0];
    assert Claimed(a.rows, head.id, head.vmId);
    forall i | i in b.rows && b.rows[i].status == Running
      ensures LowerSettled(b.rows, i)
    {
      if i != head.id {
        assert LowerSettled(a.rows, i);
      }
    }
    forall k | 0 <= k < |todo|
      ensures Claimed(b.rows, todo[k].id, todo[k].vmId)
    {
      assert Claimed(a.rows, todo[k].id, todo[k].vmId);
      assert k != 0 ==> todo[0].vmId != todo[k].vmId;
    }
  }

  lemma SelectClaims(db: Db, batch: seq<Item>, now: Time)
    requires IdsBelow(db.queue) && SeqUnique(db.queue.rows) && RunningClear(db.queue.rows)
    requires IsBatch(db, batch, now)
    ensures TodoClaimed(db.queue.rows, batch)
  {
    var rows := db.queue.rows;
    forall k | 0 <= k < |batch|
      ensures Claimed(rows, batch[k].id, batch[k].vmId)
    {
      var id := batch[k].id;
      assert ReadyHead(db, id, now);
      forall j | j in rows && j != id && rows[j].vm == batch[k].vmId
        ensures rows[j].status != Running
      {
        if rows[j].seqNo < rows[id].seqNo {
          assert Settled(rows[j]);
        } else if rows[j].status == Running {
          assert false;
        }
      }
    }
  }

  lemma SweepKeepsQueueInv(c: Clockwork, w: World, a: Action)
    requires QueueInv(w) && Enabled(w, a)
    requires a.RecoverAbandoned? || a.RecoverStale? || a.QueueExpired? || a.DropSuperseded? || Purges(a)
    ensures QueueInv(Step(c, w, a))
  {
    CalmKeeps(w.db.queue, Step(c, w, a).db.queue, []);
  }

  lemma MarkKeepsQueueInv(c: Clockwork, w: World, a: Action)
    requires QueueInv(w) && Enabled(w, a) && (a.Start? || a.FinishDone? || a.FinishFailed?)
    ensures QueueInv(Step(c, w, a))
  {
    var w', todo := Step(c, w, a), Todo(w.phase);
    MarkKeeps(w.db.queue, w'.db.queue, todo);
    assert if a.Start? then Todo(w'.phase)[1..] == todo[1..] else Todo(w'.phase) == todo[1..];
  }

  lemma DropHeadKeepsQueueInv(c: Clockwork, w: World, a: Action)
    requires QueueInv(w) && Enabled(w, a) && (a.SkipHead? || a.FinishLost? || a.Crash? || a.Scan?)
    ensures QueueInv(Step(c, w, a))
  {
    assert a.SkipHead? || a.FinishLost? ==> Todo(Step(c, w, a).phase) == Todo(w.phase)[1..];
  }

  lemma WritesKeepQueueInv(c: Clockwork, w: World, a: Action)
    requires QueueInv(w) && Enabled(w, a) && (a.RowWrite? || a.Exec?)
    ensures QueueInv(Step(c, w, a))
  {
    var vm, todo := w.phase.item.vmId, Todo(w.phase);
    if a.RowWrite? {
      WritesKeep(w.db, vm, [a.x], a.now, todo);
      assert [a.x][1..] == [];
      assert ApplyWrites(w.db, vm, [a.x], a.now) == ApplyWrite(w.db, vm, a.x, a.now);
    } else {
      WritesKeep(w.db, vm, Body(w.phase.item, a.outcome, a.now).writes, a.now, todo);
    }
  }

  lemma ApiKeepsQueueInv(c: Clockwork, w: World, tx: Tx, now: Time)
    requires QueueInv(w) && Enabled(w, Api(tx, now))
    ensures QueueInv(Step(c, w, Api(tx, now)))
  {
    OpsKeep(w.db.queue, tx.ops, now, Todo(w.phase));
  }

  lemma SelectKeepsQueueInv(c: Clockwork, w: World, batch: seq<Item>, now: Time)
    requires QueueInv(w) && Enabled(w, Select(batch, now))
    ensures QueueInv(Step(c, w, Select(batch, now)))
  {
    SelectClaims(w.db, batch, now);
  }

  /** Every statement of the API, the worker and a crash, at any interleaving. */
  lemma StepKeepsQueueInv(c: Clockwork, w: World, a: Action)
    requires QueueInv(w) && Enabled(w, a)
    ensures QueueInv(Step(c, w, a))
  {
    hide Step, QueueInv;
    if a.Api? {
      ApiKeepsQueueInv(c, w, a.tx, a.now);
    } else if a.Select? {
      SelectKeepsQueueInv(c, w, a.batch, a.now);
    } else if a.Start? || a.FinishDone? || a.FinishFailed? {
      MarkKeepsQueueInv(c, w, a);
    } else if a.RowWrite? || a.Exec? {
      WritesKeepQueueInv(c, w, a);
    } else if a.SkipHead? || a.FinishLost? || a.Crash? || a.Scan? {
      DropHeadKeepsQueueInv(c, w, a);
    } else {
      SweepKeepsQueueInv(c, w, a);
    }
  }

  lemma {:induction false} RunKeepsQueueInv(c: Clockwork, w: World, run: seq<Action>)
    requires QueueInv(w) && ValidRun(c, w, run)
    ensures QueueInv(Run(c, w, run))
    decreases |run|
  {
    if run != [] {
      RunKeepsQueueInv(c, w, run[..|run| - 1]);
      StepKeepsQueueInv(c, Run(c, w, run[..|run| - 1]), run[|run| - 1]);
    }
  }

  // ---- main results ----

  ghost predicate OneRunningPerVm(rows: map<int, Task>) {
    forall i, j :: i in rows && j in rows && rows[i].status == Running && rows[j].status == Running && rows[i].vm == rows[j].vm
      ==> i == j
  }

  /** Safety over every run from a fresh installation: tasks of one VM run one at a time and in seq order. */
  lemma VmTasksRunInOrder(c: Clockwork, w: World, run: seq<Action>)
    requires Fresh(w) && ValidRun(c, w, run)
    ensures var rows := Run(c, w, run).db.queue.rows; OneRunningPerVm(rows) && RunningClear(rows) && SeqUnique(rows)
  {
    RunKeepsQueueInv(c, w, run);
    var rows := Run(c, w, run).db.queue.rows;
    forall i, j | i in rows && j in rows && rows[i].status == Running && rows[j].status == Running && rows[i].vm == rows[j].vm
      ensures i == j
    {
      assert LowerSettled(rows, i) && LowerSettled(rows, j);
    }
  }

  /** The batch is safe to work off whatever the API does meanwhile: when a task is started, everything queued
      before it has settled, no other task of its VM runs, and the row it was selected from still exists. */
  lemma StartIsAlwaysSafe(c: Clockwork, w: World, run: seq<Action>, now: Time)
    requires Fresh(w) && ValidRun(c, w, run) && Enabled(Run(c, w, run), Start(now))
    ensures var w1 := Run(c, w, run);
            Claimed(w1.db.queue.rows, w1.phase.batch[0].id, w1.phase.batch[0].vmId)
  {
    RunKeepsQueueInv(c, w, run);
    assert Todo(Run(c, w, run).phase)[0] == Run(c, w, run).phase.batch[0];
  }

  /** markTaskRunning has no guard on the status: a task that a request canceled after it was selected is run all the
      same. The order of the queue does not suffer from it. */
  lemma CanceledBatchTaskIsRevived(c: Clockwork, w: World, now: Time)
    requires QueueInv(w) && Enabled(w, Start(now))
    requires var id := w.phase.batch[0].id; id in w.db.queue.rows && w.db.queue.rows[id].status == Canceled
    ensures var id := w.phase.batch[0].id;
            var w1 := Step(c, w, Start(now));
            QueueInv(w1) && w1.db.queue.rows[id].status == Running && w1.phase.Working?
  {
    StepKeepsQueueInv(c, w, Start(now));
  }
}
