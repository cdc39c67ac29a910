/** How often and how soon a task is attempted, over whole runs. */
module Retries {
  import opened Records
  import opened TaskQueue
  import opened Machine
  import opened QueueOrder

  // ---- how often ----

  /** The step puts `id` back to pending: a manual retry or a recovery of a running row. */
  ghost predicate PutsBack(c: Clockwork, w: World, a: Action, id: int)
    requires Enabled(w, a)
  {
    var before := w.db.queue.rows;
    var after := Step(c, w, a).db.queue.rows;
    id in before && before[id].status != Pending && id in after && after[id].status == Pending
  }

  /** How many times the run put `id` back to pending. */
  ghost function TimesPutBack(c: Clockwork, w: World, run: seq<Action>, id: int): nat
    requires ValidRun(c, w, run)
    decreases |run|
  {
    if run == [] then 0
    else
      var before := run[..|run| - 1];
      TimesPutBack(c, w, before, id) + (if PutsBack(c, Run(c, w, before), run[|run| - 1], id) then 1 else 0)
  }

  ghost predicate Bounded(t: Task, back: nat) {
    t.attempts <= if t.status == Pending then MAX_AUTO_RETRIES + back else MAX_AUTO_RETRIES + 1 + back
  }

  /** Entries not started yet; the entry being worked on has already been counted. */
  function Unstarted(p: Phase): seq<Item> {
    match p
    case Idle => []
    case Selected(batch) => batch
    case Working(_, rest) => rest
    case Executed(_, rest, _) => rest
  }

  ghost predicate CountsMatch(w: World) {
    && (forall k :: 0 <= k < |Unstarted(w.phase)| ==>
          var i := Unstarted(w.phase)[k]; i.id in w.db.queue.rows && w.db.queue.rows[i.id].attempts == i.attempts)
    && (InBody(w.phase) ==> w.phase.item.id in w.db.queue.rows && w.db.queue.rows[w.phase.item.id].attempts == w.phase.item.attempts)
  }

  ghost predicate BatchBounded(p: Phase, id: int, back: nat) {
    forall k :: 0 <= k < |Unstarted(p)| && Unstarted(p)[k].id == id ==> Unstarted(p)[k].attempts <= MAX_AUTO_RETRIES + back
  }

  ghost predicate AttemptInv(w: World, id: int, back: nat) {
    && QueueInv(w)
    && CountsMatch(w)
    && (id in w.db.queue.rows ==> Bounded(w.db.queue.rows[id], back))
    && BatchBounded(w.phase, id, back)
  }

  /** No statement but markTaskRunning touches attempt_count, and new rows start at zero. */
  ghost predicate KeepsCounts(a: Queue, b: Queue) {
    && (forall i :: i in a.rows && i in b.rows ==> b.rows[i].attempts == a.rows[i].attempts)
    && (forall i :: i in b.rows && i !in a.rows ==> b.rows[i].attempts == 0)
    && a.rows.Keys <= b.rows.Keys
  }

  lemma {:induction false} OpsKeepCounts(q: Queue, ops: seq<TaskOp>, now: Time)
    requires IdsBelow(q)
    ensures KeepsCounts(q, ApplyOps(q, ops, now))
    decreases |ops|
  {
    if ops != [] {
      OpIsCalm(q, ops[0], now);
      OpsKeepCounts(ApplyOp(q, ops[0], now), ops[1..], now);
    }
  }

  lemma {:induction false} WritesKeepCounts(db: Db, vm: int, xs: seq<Write>, now: Time)
    ensures KeepsCounts(db.queue, ApplyWrites(db, vm, xs, now).queue)
    ensures forall i :: i in db.queue.rows && db.queue.rows[i].status != Pending ==> ApplyWrites(db, vm, xs, now).queue.rows[i].status != Pending
    decreases |xs|
  {
    if xs != [] {
      WritesKeepCounts(ApplyWrite(db, vm, xs[0], now), vm, xs[1..], now);
    }
  }

  /** Failed rows are not rewritten, and new rows have not failed. */
  ghost predicate KeepsFailures(a: Queue, b: Queue) {
    && (forall i :: i in a.rows && i in b.rows && b.rows[i].status == Failed ==> b.rows[i] == a.rows[i])
    && (forall i :: i in b.rows && i !in a.rows ==> b.rows[i].status != Failed)
  }

  lemma {:induction false} OpsKeepFailures(q: Queue, ops: seq<TaskOp>, now: Time)
    requires IdsBelow(q)
    ensures KeepsFailures(q, ApplyOps(q, ops, now))
    decreases |ops|
  {
    if ops != [] {
      OpIsCalm(q, ops[0], now);
      OpsKeepCounts(ApplyOp(q, ops[0], now), ops[1..], now);
      OpsKeepFailures(ApplyOp(q, ops[0], now), ops[1..], now);
    }
  }

  lemma {:induction false} WritesKeepFailures(db: Db, vm: int, xs: seq<Write>, now: Time)
    ensures KeepsFailures(db.queue, ApplyWrites(db, vm, xs, now).queue)
    ensures ApplyWrites(db, vm, xs, now).queue.rows.Keys == db.queue.rows.Keys
    decreases |xs|
  {
    if xs != [] {
      WritesKeepFailures(ApplyWrite(db, vm, xs[0], now), vm, xs[1..], now);
    }
  }

  /** The worker's to-do list is unchanged, shorter by its head, or dropped. */
  ghost predicate SameWork(p: Phase, p': Phase) {
    && (Unstarted(p') == Unstarted(p) || p' == Idle || (Unstarted(p) != [] && Unstarted(p') == Unstarted(p)[1..]))
    && (InBody(p') ==> InBody(p) && p'.item == p.item)
  }

  predicate IsCalm(a: Action) {
    !a.Select? && !a.Start? && !Purges(a)
  }

  lemma StepKeepsCounts(c: Clockwork, w: World, a: Action)
    requires QueueInv(w) && Enabled(w, a) && IsCalm(a)
    ensures KeepsCounts(w.db.queue, Step(c, w, a).db.queue)
    ensures !a.FinishFailed? ==> KeepsFailures(w.db.queue, Step(c, w, a).db.queue)
    ensures SameWork(w.phase, Step(c, w, a).phase) && Step(c, w, a).clock == a.now
  {
    match a
    case Api(tx, now) =>
      OpsKeepCounts(w.db.queue, tx.ops, now);
      OpsKeepFailures(w.db.queue, tx.ops, now);
    case Exec(o, now) =>
      WritesKeepCounts(w.db, w.phase.item.vmId, Body(w.phase.item, o, now).writes, now);
      WritesKeepFailures(w.db, w.phase.item.vmId, Body(w.phase.item, o, now).writes, now);
    case _ =>
  }

  ghost function Back(c: Clockwork, w: World, a: Action, id: int): nat
    requires Enabled(w, a)
  {
    if PutsBack(c, w, a, id) then 1 else 0
  }

  lemma CalmKeepsAttempts(c: Clockwork, w: World, a: Action, id: int, back: nat)
    requires AttemptInv(w, id, back) && Enabled(w, a) && IsCalm(a) && QueueInv(Step(c, w, a))
    ensures AttemptInv(Step(c, w, a), id, back + Back(c, w, a, id))
  {
    StepKeepsCounts(c, w, a);
    hide Step, QueueInv;
  }

  lemma SelectKeepsAttempts(c: Clockwork, w: World, a: Action, id: int, back: nat)
    requires AttemptInv(w, id, back) && Enabled(w, a) && a.Select? && QueueInv(Step(c, w, a))
    ensures AttemptInv(Step(c, w, a), id, back)
  {
    hide QueueInv;
    forall k | 0 <= k < |a.batch|
      ensures a.batch[k].id in w.db.queue.rows && w.db.queue.rows[a.batch[k].id].attempts == a.batch[k].attempts
      ensures a.batch[k].id == id ==> a.batch[k].attempts <= MAX_AUTO_RETRIES + back
    {
      assert ReadyHead(w.db, a.batch[k].id, a.now);
    }
  }

  lemma StartKeepsAttempts(c: Clockwork, w: World, a: Action, id: int, back: nat)
    requires AttemptInv(w, id, back) && Enabled(w, a) && (a.Start? || Purges(a)) && QueueInv(Step(c, w, a))
    ensures AttemptInv(Step(c, w, a), id, back + Back(c, w, a, id))
  {
    if a.Start? {
      StartIds(w);
      assert Unstarted(w.phase)[0] == w.phase.batch[0];
    }
  }

  lemma StepKeepsAttempts(c: Clockwork, w: World, a: Action, id: int, back: nat)
    requires AttemptInv(w, id, back) && Enabled(w, a)
    ensures AttemptInv(Step(c, w, a), id, back + Back(c, w, a, id))
  {
    StepKeepsQueueInv(c, w, a);
    if IsCalm(a) {
      CalmKeepsAttempts(c, w, a, id, back);
    } else if a.Select? {
      SelectKeepsAttempts(c, w, a, id, back);
      SelectPutsNothingBack(c, w, a, id);
    } else {
      StartKeepsAttempts(c, w, a, id, back);
    }
    hide Step, QueueInv, AttemptInv;
  }

  lemma SelectPutsNothingBack(c: Clockwork, w: World, a: Action, id: int)
    requires Enabled(w, a) && a.Select?
    ensures Back(c, w, a, id) == 0
  {
  }

  lemma StartIds(w: World)
    requires QueueInv(w) && w.phase.Selected? && w.phase.batch != []
    ensures forall k :: 1 <= k < |w.phase.batch| ==> w.phase.batch[k].id != w.phase.batch[0].id
  {
    var batch := w.phase.batch;
    forall k | 1 <= k < |batch|
      ensures batch[k].id != batch[0].id
    {
      assert Claimed(w.db.queue.rows, batch[k].id, batch[k].vmId);
      assert Claimed(w.db.queue.rows, batch[0].id, batch[0].vmId);
    }
  }

  lemma {:induction false} RunKeepsAttempts(c: Clockwork, w: World, run: seq<Action>, id: int)
    requires Fresh(w) && ValidRun(c, w, run)
    ensures AttemptInv(Run(c, w, run), id, TimesPutBack(c, w, run, id))
    decreases |run|
  {
    if run != [] {
      var before := run[..|run| - 1];
      RunKeepsAttempts(c, w, before, id);
      StepKeepsAttempts(c, Run(c, w, before), run[|run| - 1], id, TimesPutBack(c, w, before, id));
    }
  }

  /** Whatever the interleaving, a task is attempted at most six times plus once for every manual retry or recovery. */
  lemma AttemptsAreBounded(c: Clockwork, w: World, run: seq<Action>, id: int)
    requires Fresh(w) && ValidRun(c, w, run) && id in Run(c, w, run).db.queue.rows
    ensures Run(c, w, run).db.queue.rows[id].attempts <= MAX_AUTO_RETRIES + 1 + TimesPutBack(c, w, run, id)
  {
    RunKeepsAttempts(c, w, run, id);
  }

  /** Only those two things put a task back. */
  lemma OnlyRetryOrRecoveryPutsBack(c: Clockwork, w: World, a: Action, id: int)
    requires QueueInv(w) && Enabled(w, a) && PutsBack(c, w, a, id)
    ensures (a.Api? && (exists vm :: OpRetry(id, vm) in a.tx.ops) && w.db.queue.rows[id].status == Failed)
            || ((a.RecoverAbandoned? || a.RecoverStale?) && w.db.queue.rows[id].status == Running)
  {
    match a
    case Api(tx, now) => OpsPutBack(w.db.queue, tx.ops, now, id);
    case Exec(o, now) => WritesKeepCounts(w.db, w.phase.item.vmId, Body(w.phase.item, o, now).writes, now);
    case _ =>
  }

  lemma {:induction false} OpsPutBack(q: Queue, ops: seq<TaskOp>, now: Time, id: int)
    requires IdsBelow(q) && id in q.rows && q.rows[id].status != Pending
    requires id in ApplyOps(q, ops, now).rows && ApplyOps(q, ops, now).rows[id].status == Pending
    ensures (exists vm :: OpRetry(id, vm) in ops) && q.rows[id].status == Failed
    decreases |ops|
  {
    if ops != [] {
      var q1 := ApplyOp(q, ops[0], now);
      OpIsCalm(q, ops[0], now);
      if q1.rows[id].status == Pending {
        assert ops[0] == OpRetry(id, ops[0].vm) && ops[0] in ops;
      } else {
        OpsPutBack(q1, ops[1..], now, id);
        var vm :| OpRetry(id, vm) in ops[1..];
        assert OpRetry(id, vm) in ops;
      }
    }
  }

  // ---- how soon ----

  /** When the run first recorded a failure of `id`. */
  ghost function FirstFailure(c: Clockwork, w: World, run: seq<Action>, id: int): Option<Time>
    requires ValidRun(c, w, run)
    decreases |run|
  {
    if run == [] then None
    else
      var before := run[..|run| - 1];
      var last := run[|run| - 1];
      if FirstFailure(c, w, before, id).Some? then FirstFailure(c, w, before, id)
      else if last.FinishFailed? && Run(c, w, before).phase.item.id == id then Some(last.now)
      else None
  }

  /** Earliest time of attempt `n` + 1, counted from the first failure. */
  function Backoff(n: nat): Time {
    (Pow2(n) - 1) * MINUTE
  }

  ghost predicate BackoffInv(w: World, id: int, first: Option<Time>) {
    && AttemptInv(w, id, 0)
    && (first.Some? ==> first.value <= w.clock)
    && (id in w.db.queue.rows ==> RowBackoff(w.db.queue.rows[id], first))
    && (forall k :: 0 <= k < |Unstarted(w.phase)| && Unstarted(w.phase)[k].id == id ==>
          Elapsed(Unstarted(w.phase)[k].attempts, first, w.clock))
    && (InBody(w.phase) && w.phase.item.id == id ==> w.phase.item.attempts >= 1 && Elapsed(w.phase.item.attempts - 1, first, w.clock))
  }

  ghost predicate RowBackoff(t: Task, first: Option<Time>) {
    && (t.status == Pending ==> t.attempts == 0)
    && (t.status == Failed ==> t.attempts >= 1 && Elapsed(t.attempts - 1, first, t.updatedAt) && first.Some?)
    && t.attempts >= 0
  }

  /** `n` attempts have failed and the waits after them are over by `now`. */
  ghost predicate Elapsed(n: int, first: Option<Time>, now: Time) {
    n >= 0 && (n >= 1 ==> first.Some? && now >= first.value + Backoff(n))
              && (n == 0 && first.Some? ==> now >= first.value)
  }

  ghost function FirstAfter(w: World, a: Action, id: int, first: Option<Time>): Option<Time>
    requires Enabled(w, a)
  {
    if first == None && a.FinishFailed? && w.phase.item.id == id then Some(a.now) else first
  }

  lemma CalmKeepsBackoff(c: Clockwork, w: World, a: Action, id: int, first: Option<Time>)
    requires BackoffInv(w, id, first) && Enabled(w, a) && !PutsBack(c, w, a, id) && IsCalm(a) && !a.FinishFailed?
    ensures BackoffInv(Step(c, w, a), id, first)
  {
    hide Step, QueueInv, CountsMatch;
    StepKeepsAttempts(c, w, a, id, 0);
    StepKeepsCounts(c, w, a);
  }

  lemma FailureKeepsBackoff(c: Clockwork, w: World, a: Action, id: int, first: Option<Time>)
    requires BackoffInv(w, id, first) && Enabled(w, a) && !PutsBack(c, w, a, id) && a.FinishFailed?
    ensures BackoffInv(Step(c, w, a), id, FirstAfter(w, a, id, first))
  {
    StepKeepsAttempts(c, w, a, id, 0);
    StepKeepsCounts(c, w, a);
  }

  lemma SelectKeepsBackoff(c: Clockwork, w: World, a: Action, id: int, first: Option<Time>)
    requires BackoffInv(w, id, first) && Enabled(w, a) && a.Select?
    ensures BackoffInv(Step(c, w, a), id, first)
  {
    StepKeepsAttempts(c, w, a, id, 0);
    forall k | 0 <= k < |a.batch| && a.batch[k].id == id
      ensures Elapsed(a.batch[k].attempts, first, a.now)
    {
      assert ReadyHead(w.db, id, a.now);
      SelectElapsed(w.db.queue.rows[id], first, a.now);
    }
  }

  lemma StartKeepsBackoff(c: Clockwork, w: World, a: Action, id: int, first: Option<Time>)
    requires BackoffInv(w, id, first) && Enabled(w, a) && !PutsBack(c, w, a, id) && (a.Start? || Purges(a))
    ensures BackoffInv(Step(c, w, a), id, first)
  {
    hide AttemptInv;
    StepKeepsAttempts(c, w, a, id, 0);
    if a.Start? {
      assert Unstarted(w.phase)[0] == w.phase.batch[0];
    }
  }

  lemma StepKeepsBackoff(c: Clockwork, w: World, a: Action, id: int, first: Option<Time>)
    requires BackoffInv(w, id, first) && Enabled(w, a) && !PutsBack(c, w, a, id)
    ensures BackoffInv(Step(c, w, a), id, FirstAfter(w, a, id, first))
  {
    if a.Select? {
      SelectKeepsBackoff(c, w, a, id, first);
    } else if a.Start? || Purges(a) {
      StartKeepsBackoff(c, w, a, id, first);
    } else if a.FinishFailed? {
      FailureKeepsBackoff(c, w, a, id, first);
    } else {
      CalmKeepsBackoff(c, w, a, id, first);
    }
  }

  lemma SelectElapsed(t: Task, first: Option<Time>, now: Time)
    requires RowBackoff(t, first) && Ready(t, now)
    requires t.status == Pending || (t.status == Failed && AutoRetry(t.attempts))
    requires first.Some? ==> first.value <= now
    ensures Elapsed(t.attempts, first, now)
  {
    if t.status == Failed {
      assert Pow2(t.attempts) == 2 * Pow2(t.attempts - 1);
    }
  }

  lemma {:induction false} RunKeepsBackoff(c: Clockwork, w: World, run: seq<Action>, id: int)
    requires Fresh(w) && ValidRun(c, w, run) && TimesPutBack(c, w, run, id) == 0
    ensures BackoffInv(Run(c, w, run), id, FirstFailure(c, w, run, id))
    decreases |run|
  {
    if run != [] {
      var before := run[..|run| - 1];
      RunKeepsBackoff(c, w, before, id);
      StepKeepsBackoff(c, Run(c, w, before), run[|run| - 1], id, FirstFailure(c, w, before, id));
    }
  }

  /** Exponential backoff over the whole run: a task nobody put back starts attempt n + 1 no sooner than
      2^n - 1 minutes after its first failure, even though each wait is only measured from the previous failure. */
  lemma AttemptsBackOff(c: Clockwork, w: World, run: seq<Action>, now: Time)
    requires Fresh(w) && ValidRun(c, w, run) && Enabled(Run(c, w, run), Start(now))
    requires var head := Run(c, w, run).phase.batch[0];
             head.attempts >= 1 && TimesPutBack(c, w, run, head.id) == 0
    ensures var head := Run(c, w, run).phase.batch[0];
            && FirstFailure(c, w, run, head.id).Some?
            && now >= FirstFailure(c, w, run, head.id).value + (Pow2(head.attempts) - 1) * MINUTE
  {
    var head := Run(c, w, run).phase.batch[0];
    RunKeepsBackoff(c, w, run, head.id);
    assert Unstarted(Run(c, w, run).phase)[0] == head;
  }

  // ---- giving up ----

  /** The worker's local counter decides about the VM, the stored one about retries; they agree: recording a failure
      marks the VM failed exactly when no later select will pick the task up by itself. */
  lemma VmFailsExactlyWhenRetriesEnd(c: Clockwork, w: World, run: seq<Action>, now: Time)
    requires Fresh(w) && ValidRun(c, w, run) && Enabled(Run(c, w, run), FinishFailed(true, now))
    ensures var w1 := Run(c, w, run);
            var item := w1.phase.item;
            var w2 := Step(c, w1, FinishFailed(true, now));
            && item.id in w2.db.queue.rows
            && var t := w2.db.queue.rows[item.id];
            var over := forall later: Time :: !(AutoRetry(t.attempts) && Ready(t, later));
            && t.status == Failed
            && w2.db.vms == if over && item.vmId in w1.db.vms then w1.db.vms[item.vmId := w1.db.vms[item.vmId].(sync := SyncFailed)] else w1.db.vms
  {
    var w1 := Run(c, w, run);
    var id := w1.phase.item.id;
    RunKeepsAttempts(c, w, run, id);
    AttemptsPositive(c, w, run);
    var t := Step(c, w1, FinishFailed(true, now)).db.queue.rows[id];
    if t.attempts <= MAX_AUTO_RETRIES {
      var later := t.updatedAt + MINUTE * Pow2(t.attempts - 1);
      assert AutoRetry(t.attempts) && Ready(t, later);
    }
  }

  lemma {:induction false} AttemptsPositive(c: Clockwork, w: World, run: seq<Action>)
    requires Fresh(w) && ValidRun(c, w, run)
    ensures InBody(Run(c, w, run).phase) ==> Run(c, w, run).phase.item.attempts >= 1
    ensures forall k :: 0 <= k < |Unstarted(Run(c, w, run).phase)| ==> Unstarted(Run(c, w, run).phase)[k].attempts >= 0
    ensures forall i :: i in Run(c, w, run).db.queue.rows ==> Run(c, w, run).db.queue.rows[i].attempts >= 0
    decreases |run|
  {
    if run != [] {
      var before := run[..|run| - 1];
      var w1 := Run(c, w, before);
      AttemptsPositive(c, w, before);
      RunKeepsQueueInv(c, w, before);
      var a := run[|run| - 1];
      if IsCalm(a) {
        StepKeepsCounts(c, w1, a);
      } else if a.Select? {
        forall k | 0 <= k < |a.batch|
          ensures a.batch[k].attempts >= 0
        {
          assert ReadyHead(w1.db, a.batch[k].id, a.now);
        }
      } else if a.Start? {
        assert Unstarted(w1.phase)[0] == w1.phase.batch[0];
      }
    }
  }
}
