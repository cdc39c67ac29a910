/** The worker's own loops over the database. The clock, the database's willingness and PVE's answers come from an
    environment, so every contract below holds for every pattern of faults. */
module WorkerLoop {
  import opened Records
  import opened TaskQueue
  import opened Machine
  import opened Serial
  import opened Store
  import Expiry
  import DeleteProtocol
  import Inventory
  import QueueOrder
  import Draining
  import opened Statements
  import opened Cycle

  /** What the n-th statement of the worker meets: the time, whether SQL accepts it, and PVE's answers to a task body. */
  datatype Env = Env(time: nat -> Time, ok: nat -> bool, outcome: nat -> Outcome)

  ghost predicate Monotone(env: Env) {
    forall i: nat, j: nat :: i <= j ==> env.time(i) <= env.time(j)
  }

  /** SQL accepts every statement and PVE answers every call. */
  ghost predicate AllWell(env: Env) {
    (forall n: nat :: env.ok(n)) && (forall n: nat :: Draining.Healthy(env.outcome(n)))
  }

  /** SQL accepts every statement from the n-th on. */
  ghost predicate Steady(env: Env, n: nat) {
    forall k: nat :: n <= k ==> env.ok(k)
  }

  // ---- the order of a cycle ----

  /** The place of an event in syncOnce. */
  function Rank(e: Event): nat {
    match e
    case Req(_, _) => 9
    case ScanOf(_, _, _, _) => 1
    case Work(a) =>
      if a.RecoverStale? then 0
      else if a.QueueExpired? then 2
      else if a.DropSuperseded? then 3
      else if a.Select? then 4
      else if a.Start? || a.SkipHead? || a.Exec? || a.FinishDone? || a.FinishFailed? || a.FinishLost? then 5
      else if a.PurgeFinishedTasks? then 6
      else if a.PurgeDeletedVms? then 7
      else 8
  }

  /** The events come in the order of syncOnce and none is later than `top`. */
  ghost predicate InOrder(es: seq<Event>, top: nat) {
    && (forall i :: 0 <= i < |es| ==> Rank(es[i]) <= top)
    && (forall i, j :: 0 <= i < j < |es| ==> Rank(es[i]) <= Rank(es[j]))
  }

  /** Nothing in the batch is on its way to deletion. */
  ghost predicate Plain(batch: seq<Item>) {
    forall k :: 0 <= k < |batch| ==> batch[k].kind != Delete && !WantsDelete(batch[k].vm)
  }

  /** One entry of a batch: passed over because it could not be marked running, or started, run and closed. */
  ghost predicate IsTurn(es: seq<Event>) {
    || (|es| == 1 && es[0].Work? && es[0].action.SkipHead?)
    || (|es| == 3 && es[0].Work? && es[0].action.Start? && es[1].Work? && es[1].action.Exec? && es[2].Work?
        && (es[2].action.FinishDone? || es[2].action.FinishFailed? || es[2].action.FinishLost?))
  }

  /** `n` turns, one after another. */
  ghost predicate Turns(es: seq<Event>, n: nat)
    decreases n
  {
    if n == 0 then es == [] else exists k :: 0 <= k <= |es| && IsTurn(es[k..]) && Turns(es[..k], n - 1)
  }

  /** Every task of the batch was started, and how it ended is recorded. */
  ghost predicate Untroubled(es: seq<Event>) {
    forall i :: 0 <= i < |es| ==> es[i].Work? && !es[i].action.SkipHead? && !es[i].action.FinishLost?
  }

  lemma OneMoreTurn(es: seq<Event>, fs: seq<Event>, n: nat)
    requires Turns(es, n) && IsTurn(fs)
    ensures Turns(es + fs, n + 1)
  {
    assert (es + fs)[|es|..] == fs && (es + fs)[..|es|] == es;
  }

  /** A select, a turn for each task of its batch, and as much of the purge as went through. */
  ghost predicate BatchRun(selected: seq<Event>, turned: seq<Event>, purged: seq<Event>) {
    && |selected| == 1 && selected[0].Work? && selected[0].action.Select?
    && Turns(turned, |selected[0].action.batch|)
    && |purged| <= 2 && (|purged| > 0 ==> Rank(purged[0]) == 6) && (|purged| > 1 ==> Rank(purged[1]) == 7)
  }

  /** The batch takes the selectable tasks in order of their VMs, twenty at most, as the tables show them. */
  ghost predicate TakesTheFirst(db: Db, batch: seq<Item>, now: Time) {
    && |batch| <= 20
    && (forall k :: 0 <= k < |batch| ==>
          && Selectable(db, batch[k].id, now) && batch[k].vmId == db.queue.rows[batch[k].id].vm
          && batch[k].kind == db.queue.rows[batch[k].id].kind && batch[k].payload == db.queue.rows[batch[k].id].payload
          && batch[k].attempts == db.queue.rows[batch[k].id].attempts && batch[k].vm == db.vms[batch[k].vmId])
    && (forall j, k :: 0 <= j < k < |batch| ==> batch[j].vmId < batch[k].vmId)
    && (forall id :: Selectable(db, id, now) ==>
          (exists k :: 0 <= k < |batch| && batch[k].id == id) ||
          (|batch| == 20 && batch[19].vmId < db.queue.rows[id].vm))
  }

  lemma BatchMeans(db: Db, batch: seq<Item>, now: Time)
    requires IsBatch(db, batch, now)
    ensures TakesTheFirst(db, batch, now)
  {
    hide ReadyHead, Selectable;
    forall id
      ensures ReadyHead(db, id, now) <==> Selectable(db, id, now)
    {
      ReadyHeadMeans(db, id, now);
    }
    forall k | 0 <= k < |batch|
      ensures batch[k].id in db.queue.rows && db.queue.rows[batch[k].id].vm in db.vms
    {
      ReadyHeadHasRow(db, batch[k].id, now);
    }
  }

  lemma ReadyHeadHasRow(db: Db, id: int, now: Time)
    requires ReadyHead(db, id, now)
    ensures id in db.queue.rows && db.queue.rows[id].vm in db.vms
  {
  }

  lemma RecoveredOrNot(a: Db, b: Db, stale: Time -> bool)
    requires b.vms == a.vms && (b.queue.rows == a.queue.rows || Recovered(a.queue.rows, b.queue.rows, stale))
    ensures SameDeletions(a, b)
  {
    if Recovered(a.queue.rows, b.queue.rows, stale) {
      RecoveryKeepsDeletions(a, b, stale);
    }
  }

  /** Up to the select and after the batch, nothing can go wrong that leaves a trace. */
  lemma RankIsSmooth(e: Event)
    ensures Rank(e) <= 4 || Rank(e) == 6 || Rank(e) == 7 ==> Draining.Smooth(e)
    ensures Rank(e) != 4 ==> !Draining.IsSelect(e)
  {
  }

  lemma {:induction false} NoSelects(es: seq<Event>)
    requires forall i :: 0 <= i < |es| ==> Rank(es[i]) != 4
    ensures Draining.Selects(es) == 0
    decreases |es|
  {
    if es != [] {
      RankIsSmooth(es[|es| - 1]);
      NoSelects(es[..|es| - 1]);
    }
  }

  lemma NothingIsSmooth()
    ensures Draining.AllSmooth([])
  {
  }

  lemma SmoothThen(es: seq<Event>, fs: seq<Event>)
    requires Draining.AllSmooth(es) && Draining.AllSmooth(fs)
    ensures Draining.AllSmooth(es + fs)
  {
  }

  lemma InOrderThen(es: seq<Event>, fs: seq<Event>, top: nat, next: nat)
    requires InOrder(es, top) && top <= next && forall i :: 0 <= i < |fs| ==> Rank(fs[i]) == next
    ensures InOrder(es + fs, next)
  {
    var all := es + fs;
    forall i | 0 <= i < |all|
      ensures Rank(all[i]) <= next && (i >= |es| ==> Rank(all[i]) == next)
    {
      assert i >= |es| ==> all[i] == fs[i - |es|];
    }
  }

  lemma InOrderJoin(es: seq<Event>, fs: seq<Event>, top: nat, next: nat)
    requires InOrder(es, top) && InOrder(fs, next) && top <= next && forall i :: 0 <= i < |fs| ==> Rank(fs[i]) >= top
    ensures InOrder(es + fs, next)
  {
    var all := es + fs;
    forall i | 0 <= i < |all|
      ensures Rank(all[i]) <= next && (i < |es| ==> Rank(all[i]) <= top) && (i >= |es| ==> all[i] == fs[i - |es|])
    {
    }
  }

  function Capped(n: nat): nat {
    if n <= MAX_BATCH then n else MAX_BATCH
  }

  /** The second half of a cycle, put together. */
  lemma BatchRunOf(select: seq<Event>, turns: seq<Event>, purges: seq<Event>)
    requires |select| == 1 && select[0].Work? && select[0].action.Select?
    requires Turns(turns, |select[0].action.batch|) && forall i :: 0 <= i < |turns| ==> Rank(turns[i]) == 5
    requires purges == [] || (|purges| == 1 && Rank(purges[0]) == 6) || (|purges| == 2 && Rank(purges[0]) == 6 && Rank(purges[1]) == 7)
    ensures BatchRun(select, turns, purges)
    ensures var es := select + turns + purges;
            && InOrder(es, 7) && (forall i :: 0 <= i < |es| ==> Rank(es[i]) >= 4)
            && Draining.Selects(es) == 1
            && (Draining.AllSmooth(turns) ==> Draining.AllSmooth(es))
  {
    hide Turns, Draining.Selects, Draining.AllSmooth, Rank, InOrder;
    BatchRunInOrder(select, turns, purges);
    BatchRunRanks(select, turns, purges);
    OneSelectOf(select, turns, purges);
    BatchRunSmooth(select, turns, purges);
  }

  lemma BatchRunInOrder(select: seq<Event>, turns: seq<Event>, purges: seq<Event>)
    requires |select| == 1 && select[0].Work? && select[0].action.Select? && forall i :: 0 <= i < |turns| ==> Rank(turns[i]) == 5
    requires purges == [] || (|purges| == 1 && Rank(purges[0]) == 6) || (|purges| == 2 && Rank(purges[0]) == 6 && Rank(purges[1]) == 7)
    ensures InOrder(select + turns + purges, 7)
  {
    InOrderThen(select, turns, 4, 5);
    PurgesInOrder(select + turns, purges);
  }

  lemma BatchRunSmooth(select: seq<Event>, turns: seq<Event>, purges: seq<Event>)
    requires |select| == 1 && select[0].Work? && select[0].action.Select?
    requires forall i :: 0 <= i < |purges| ==> Rank(purges[i]) == 6 || Rank(purges[i]) == 7
    ensures Draining.AllSmooth(turns) ==> Draining.AllSmooth(select + turns + purges)
  {
    forall i | 0 <= i < |purges|
      ensures Draining.Smooth(purges[i])
    {
      RankIsSmooth(purges[i]);
    }
    if Draining.AllSmooth(turns) {
      SmoothThen(select, turns);
      SmoothThen(select + turns, purges);
    }
  }

  lemma BatchRunRanks(select: seq<Event>, turns: seq<Event>, purges: seq<Event>)
    requires |select| == 1 && select[0].Work? && select[0].action.Select?
    requires forall i :: 0 <= i < |turns| ==> Rank(turns[i]) == 5
    requires forall i :: 0 <= i < |purges| ==> Rank(purges[i]) >= 6
    ensures var es := select + turns + purges; forall i :: 0 <= i < |es| ==> Rank(es[i]) >= 4
  {
    hide Rank;
    var es := select + turns + purges;
    var n := 1 + |turns|;
    RankOfSelect(select[0]);
    forall i | 0 <= i < |es|
      ensures Rank(es[i]) >= 4
    {
      assert es[i] == if i == 0 then select[0] else if i < n then turns[i - 1] else purges[i - n];
    }
  }

  lemma RankOfSelect(e: Event)
    requires e.Work? && e.action.Select?
    ensures Rank(e) == 4
  {
  }

  lemma OneSelectOf(select: seq<Event>, turns: seq<Event>, purges: seq<Event>)
    requires |select| == 1 && Draining.IsSelect(select[0])
    requires forall i :: 0 <= i < |turns| ==> Rank(turns[i]) == 5
    requires forall i :: 0 <= i < |purges| ==> Rank(purges[i]) >= 6
    ensures Draining.Selects(select + turns + purges) == 1
  {
    Draining.SelectsAdd(select + turns, purges);
    Draining.SelectsAdd(select, turns);
    NoSelects(turns);
    NoSelects(purges);
    assert select[..0] == [];
  }

  lemma BodyGoesWell(item: Item, o: Outcome, now: Time)
    ensures Draining.Healthy(o) && item.kind != Delete && !WantsDelete(item.vm) ==> Body(item, o, now).ok
  {
    if Draining.Healthy(o) && item.kind != Delete && !WantsDelete(item.vm) {
      Draining.HealthyBody(item, o, now);
    }
  }

  lemma QuietBatch(db: Db, batch: seq<Item>, now: Time)
    requires IsBatch(db, batch, now)
    ensures Draining.Quiet(db) ==> Plain(batch)
  {
    if Draining.Quiet(db) {
      Draining.BatchIsWorkable(db, batch, now);
    }
  }

  lemma PreparationIsSmooth(es: seq<Event>)
    requires InOrder(es, 3)
    ensures Draining.AllSmooth(es) && Draining.Selects(es) == 0
  {
    forall i | 0 <= i < |es|
      ensures Draining.Smooth(es[i]) && Rank(es[i]) != 4
    {
      RankIsSmooth(es[i]);
    }
    NoSelects(es);
  }

  /** The first half of a cycle leaves a quiet database quiet. */
  lemma PreparedIsQuiet(db: Database, before: World, history: seq<Event>, es: seq<Event>)
    requires db.Valid() && db.phase == Idle && db.history == history + es && InOrder(es, 3)
    requires ValidHistory(db.cfg, db.clockwork, NEW_INSTALLATION, history) && History(db.cfg, db.clockwork, NEW_INSTALLATION, history) == before
    requires before.phase == Idle
    ensures Draining.Quiet(before.db) ==> Draining.Quiet(db.Contents())
  {
    if Draining.Quiet(before.db) {
      PreparationIsSmooth(es);
      Draining.HistoryFrom(db.cfg, db.clockwork, NEW_INSTALLATION, history, es);
      HistoryIsSound(db.cfg, db.clockwork, history);
      Draining.QueueDrains(db.cfg, db.clockwork, before, es);
    }
  }

  /** A whole cycle of which nothing failed. */
  lemma CycleDrains(db: Database, before: World, history: seq<Event>, es: seq<Event>, fs: seq<Event>)
    requires db.Valid() && db.phase == Idle && db.history == history + es + fs && InOrder(es, 3)
    requires ValidHistory(db.cfg, db.clockwork, NEW_INSTALLATION, history) && History(db.cfg, db.clockwork, NEW_INSTALLATION, history) == before
    requires before.phase == Idle && Draining.Quiet(before.db) && Draining.AllSmooth(fs) && Draining.Selects(fs) == 1
    ensures Draining.Quiet(db.Contents())
    ensures |Draining.OpenWork(db.Contents())| == |Draining.OpenWork(before.db)| - Capped(|Draining.BusyVms(before.db)|)
  {
    hide History, ValidHistory, InOrder, Draining.Quiet, Draining.OpenWork, Draining.BusyVms, Draining.Selects, Draining.AllSmooth, Sound;
    PreparationIsSmooth(es);
    SmoothThen(es, fs);
    Draining.SelectsAdd(es, fs);
    assert history + es + fs == history + (es + fs);
    SmoothCycle(db.cfg, db.clockwork, history, es + fs);
  }

  lemma SmoothCycle(cfg: Config, c: Clockwork, history: seq<Event>, es: seq<Event>)
    requires ValidHistory(cfg, c, NEW_INSTALLATION, history + es) && ValidHistory(cfg, c, NEW_INSTALLATION, history)
    requires var before := History(cfg, c, NEW_INSTALLATION, history); before.phase == Idle && Draining.Quiet(before.db)
    requires Draining.AllSmooth(es) && Draining.Selects(es) == 1 && History(cfg, c, NEW_INSTALLATION, history + es).phase == Idle
    ensures var before, after := History(cfg, c, NEW_INSTALLATION, history).db, History(cfg, c, NEW_INSTALLATION, history + es).db;
            && Draining.Quiet(after)
            && |Draining.OpenWork(after)| == |Draining.OpenWork(before)| - Capped(|Draining.BusyVms(before)|)
  {
    hide History, ValidHistory, Draining.Quiet, Draining.OpenWork, Draining.BusyVms, Draining.Selects, Draining.AllSmooth;
    Draining.HistoryFrom(cfg, c, NEW_INSTALLATION, history, es);
    HistoryIsSound(cfg, c, history);
    Draining.CycleCompletesBatch(cfg, c, History(cfg, c, NEW_INSTALLATION, history), es);
  }

  lemma PurgesInOrder(es: seq<Event>, fs: seq<Event>)
    requires InOrder(es, 5)
    requires fs == [] || (|fs| == 1 && Rank(fs[0]) == 6) || (|fs| == 2 && Rank(fs[0]) == 6 && Rank(fs[1]) == 7)
    ensures InOrder(es + fs, 7)
  {
    if fs != [] {
      InOrderThen(es, [fs[0]], 5, 6);
      if |fs| == 2 {
        InOrderThen(es + [fs[0]], [fs[1]], 6, 7);
        assert es + fs == es + [fs[0]] + [fs[1]];
      } else {
        assert fs == [fs[0]];
      }
    } else {
      assert es + fs == es;
    }
  }

  function Elements(xs: seq<int>): set<int> {
    set x | x in xs
  }

  method Any<T>(s: set<T>) returns (e: T)
    requires s != {}
    ensures e in s
  {
    e :| e in s;
  }

  class Worker {
    const db: Database
    const env: Env
    var tick: nat

    ghost predicate Valid()
      reads this, db
    {
      db.Valid() && Monotone(env) && db.clock <= env.time(tick)
    }

    constructor (db: Database, env: Env)
      requires db.Valid() && Monotone(env) && db.clock <= env.time(0)
      ensures Valid() && this.db == db && this.env == env && tick == 0
    {
      this.db, this.env, tick := db, env, 0;
    }

    /** The time of the next statement and whether it goes through. */
    method Tick() returns (now: Time, ok: bool)
      modifies this`tick
      ensures tick == old(tick) + 1 && now == env.time(old(tick)) && ok == env.ok(old(tick))
    {
      now, ok := env.time(tick), env.ok(tick);
      tick := tick + 1;
    }

    // ---- statements around the queue ----

    /** recoverStaleRunningTasks */
    method RecoverStaleRunningTasks() returns (ghost es: seq<Event>)
      requires Valid() && db.phase == Idle
      modifies this`tick, db
      ensures Valid() && db.phase == Idle && db.history == old(db.history) + es
      ensures es == if env.ok(old(tick)) then [Work(RecoverStale(env.time(old(tick))))] else []
      ensures db.vms == old(db.vms) && tick == old(tick) + 1
      ensures if env.ok(old(tick)) then Recovered(old(db.rows), db.rows, Stale(db.clockwork, env.time(old(tick)))) else db.rows == old(db.rows)
    {
      hide History, ValidHistory;
      RecoverMeans(db.rows, Stale(db.clockwork, env.time(tick)), env.time(tick));
      es := [];
      var now, ok := Tick();
      if ok {
        ghost var before := db.State();
        db.rows := Recover(db.rows, Stale(db.clockwork, now), now);
        es := [Work(RecoverStale(now))];
        db.Record(before, es[0]);
      }
    }

    /** cancelSupersededTasksForDeletingVMs */
    method CancelSupersededTasks() returns (ok: bool, ghost es: seq<Event>)
      requires Valid() && db.phase == Idle
      modifies this`tick, db
      ensures Valid() && db.phase == Idle && db.history == old(db.history) + es
      ensures ok == env.ok(old(tick)) && tick == old(tick) + 1
      ensures es == if ok then [Work(DropSuperseded(env.time(old(tick))))] else []
      ensures db.vms == old(db.vms)
      ensures if ok then Superseded(old(db.vms), old(db.rows), db.rows) else db.rows == old(db.rows)
    {
      hide History, ValidHistory;
      CancelSupersededMeans(db.vms, db.rows, env.time(tick));
      es := [];
      var now: Time;
      now, ok := Tick();
      if ok {
        ghost var before := db.State();
        db.rows := CancelSuperseded(db.vms, db.rows, now);
        es := [Work(DropSuperseded(now))];
        db.Record(before, es[0]);
      }
    }

    method DeleteFinishedTasks(now: Time)
      requires db.Valid() && db.phase == Idle && db.clock <= now
      modifies db
      ensures db.Valid() && db.phase == Idle && db.clock == now
      ensures db.history == old(db.history) + [Work(PurgeFinishedTasks(now))]
      ensures PurgedFinished(old(db.rows), db.rows, Outdated(db.clockwork, now)) && db.vms == old(db.vms)
    {
      hide History, ValidHistory;
      PurgeFinishedMeans(db.rows, Outdated(db.clockwork, now));
      ghost var before := db.State();
      db.rows := PurgeFinished(db.rows, Outdated(db.clockwork, now));
      db.Record(before, Work(PurgeFinishedTasks(now)));
    }

    method DeleteTasksOfDeletedVms(now: Time)
      requires db.Valid() && db.phase == Idle && db.clock <= now
      modifies db
      ensures db.Valid() && db.phase == Idle && db.clock == now
      ensures db.history == old(db.history) + [Work(PurgeDeletedVms(now))]
      ensures PurgedDeleted(db.vms, old(db.rows), db.rows, Outdated(db.clockwork, now)) && db.vms == old(db.vms)
    {
      hide History, ValidHistory;
      PurgeDeletedMeans(db.vms, db.rows, Outdated(db.clockwork, now));
      ghost var before := db.State();
      db.rows := PurgeDeleted(db.vms, db.rows, Outdated(db.clockwork, now));
      db.Record(before, Work(PurgeDeletedVms(now)));
    }

    /** purgeOldTasks: both statements use one cutoff, and the second is only reached if the first went through. */
    method PurgeOldTasks() returns (ghost es: seq<Event>)
      requires Valid() && db.phase == Idle
      modifies this`tick, db
      ensures Valid() && db.phase == Idle && db.history == old(db.history) + es
      ensures var now := env.time(old(tick));
              es == if !env.ok(old(tick)) then []
                    else if !env.ok(old(tick) + 1) then [Work(PurgeFinishedTasks(now))]
                    else [Work(PurgeFinishedTasks(now)), Work(PurgeDeletedVms(now))]
    {
      hide History, ValidHistory;
      es := [];
      var now, ok := Tick();
      if ok {
        DeleteFinishedTasks(now);
        es := [Work(PurgeFinishedTasks(now))];
        var _, again := Tick();
        if again {
          DeleteTasksOfDeletedVms(now);
          es := es + [Work(PurgeDeletedVms(now))];
        }
      }
    }

    // ---- the expiry query ----

    /** The query of ensureExpiredDeleteTasks. */
    method QueryExpired(now: Time) returns (ids: seq<int>)
      requires db.Valid()
      ensures forall i, j :: 0 <= i < j < |ids| ==> ids[i] < ids[j]
      ensures forall id :: id in ids <==> Expired(db.clockwork, db.Contents(), id, now)
      ensures forall id :: id in ids <==> Overdue(db.clockwork, db.Contents(), id, now)
    {
      hide History, ValidHistory;
      forall id
        ensures Expired(db.clockwork, db.Contents(), id, now) <==> Overdue(db.clockwork, db.Contents(), id, now)
      {
        ExpiredMeans(db.clockwork, db.Contents(), id, now);
      }
      hide Overdue;
      ids := [];
      ValidIdsBelow(db);
      for id := 0 to db.nextVm
        invariant forall i, j :: 0 <= i < j < |ids| ==> ids[i] < ids[j]
        invariant forall i :: 0 <= i < |ids| ==> ids[i] < id
        invariant forall k :: k in ids <==> 0 <= k < id && Expired(db.clockwork, db.Contents(), k, now)
      {
        if Expired(db.clockwork, db.Contents(), id, now) {
          ids := ids + [id];
        }
      }
    }

    /** queueVMTask for one row of that query. */
    method QueueExpiredDelete(vm: int, asOf: Time, now: Time)
      requires db.Valid() && db.phase == Idle && db.clock <= now && asOf <= now
      requires Expired(db.clockwork, db.Contents(), vm, asOf)
      modifies db
      ensures db.Valid() && db.phase == Idle && db.clock == now
      ensures db.history == old(db.history) + [Work(QueueExpired(vm, asOf, now))]
      ensures db.Contents() == old(db.Contents()).(queue := Enqueue(old(db.Contents()).queue, vm, Delete, DeletePayload(None, false, true), now))
    {
      hide History, ValidHistory;
      ghost var before := db.State();
      db.QueueVmTask(vm, Delete, DeletePayload(None, false, true), now);
      db.Record(before, Work(QueueExpired(vm, asOf, now)));
    }

    /** One turn of the queueing loop. */
    method QueueNextExpired(ghost start: Db, ids: seq<int>, i: nat, asOf: Time) returns (ok: bool, ghost es: seq<Event>)
      requires Valid() && db.phase == Idle && asOf <= env.time(tick)
      requires i < |ids| && Listed(db.clockwork, start, db.Contents(), ids, i, asOf)
      modifies this`tick, db
      ensures Valid() && db.phase == Idle && asOf <= env.time(tick) && db.history == old(db.history) + es
      ensures es == if ok then [Work(QueueExpired(ids[i], asOf, env.time(old(tick))))] else []
      ensures ok == env.ok(old(tick)) && tick == old(tick) + 1
      ensures ok ==> Listed(db.clockwork, start, db.Contents(), ids, i + 1, asOf)
      ensures db.vms == old(db.vms)
    {
      hide History, ValidHistory;
      es := [];
      var now: Time;
      now, ok := Tick();
      if ok {
        QueuedNext(db.clockwork, start, db.Contents(), ids, i, asOf, now);
        QueueExpiredDelete(ids[i], asOf, now);
        es := [Work(QueueExpired(ids[i], asOf, now))];
      }
    }

    /** The queueing loop. */
    method QueueListed(ids: seq<int>, asOf: Time) returns (ok: bool, ghost es: seq<Event>)
      requires Valid() && db.phase == Idle && asOf <= env.time(tick)
      requires Listed(db.clockwork, db.Contents(), db.Contents(), ids, 0, asOf)
      modifies this`tick, db
      ensures Valid() && db.phase == Idle && db.history == old(db.history) + es
      ensures Queues(ids, es, asOf) && (ok ==> |es| == |ids|)
      ensures db.vms == old(db.vms) && tick >= old(tick)
      ensures Steady(env, old(tick)) ==> ok
      ensures ok ==> Listed(db.clockwork, old(db.Contents()), db.Contents(), ids, |ids|, asOf)
    {
      hide History, ValidHistory;
      es := [];
      ghost var start := db.Contents();
      for i := 0 to |ids|
        invariant Valid() && db.phase == Idle && db.history == old(db.history) + es && asOf <= env.time(tick)
        invariant |es| == i && Queues(ids, es, asOf)
        invariant db.vms == old(db.vms) && tick >= old(tick)
        invariant Listed(db.clockwork, start, db.Contents(), ids, i, asOf)
      {
        ghost var fs: seq<Event>;
        ok, fs := QueueNextExpired(start, ids, i, asOf);
        es := es + fs;
        if !ok {
          return;
        }
      }
      ok := true;
    }

    /** ensureExpiredDeleteTasks. When it succeeds, a delete was queued for exactly the overdue VMs without one, and every due
        VM has exactly one live delete task. */
    method EnsureExpiredDeleteTasks() returns (ok: bool, ghost es: seq<Event>)
      requires Valid() && db.phase == Idle
      modifies this`tick, db
      ensures Valid() && db.phase == Idle && db.history == old(db.history) + es
      ensures forall i :: 0 <= i < |es| ==> Rank(es[i]) == 2
      ensures db.vms == old(db.vms) && tick >= old(tick)
      ensures Steady(env, old(tick)) ==> ok
      ensures ok ==> QueuesExpired(db.clockwork, old(db.Contents()), es, env.time(old(tick)))
      ensures ok ==> forall id :: Expiry.Due(db.clockwork, db.Contents(), id, env.time(old(tick))) ==> Expiry.ExactlyOneLiveDelete(db.rows, id)
    {
      hide History, ValidHistory;
      es := [];
      var now: Time;
      now, ok := Tick();
      if ok {
        var ids := QueryExpired(now);
        ValidIdsBelow(db);
        ghost var start := db.Contents();
        ok, es := QueueListed(ids, now);
        ValidOneLiveDelete(db);
        QueuesInOrder(ids, es, now);
        if ok {
          DueAreQueued(db.clockwork, start, db.Contents(), ids, now);
          AllAreQueued(db.clockwork, start, ids, es, now);
        }
      }
    }

    // ---- the inventory scan ----

    /** The query of markMissingUnmanagedVMsDeleted, without the VMIDs that were seen. */
    method QueryMissing(cluster: string, seenVmids: seq<int>) returns (missing: seq<int>)
      requires Inventory.RowIdsBelow(RowsOf(db.Contents()))
      ensures forall id :: id in missing <==> id in db.vms && Inventory.Missing(db.vms[id], cluster, Elements(seenVmids))
    {
      var seen: set<int> := {};
      for i := 0 to |seenVmids|
        invariant seen == Elements(seenVmids[..i])
      {
        assert seenVmids[..i + 1] == seenVmids[..i] + [seenVmids[i]];
        seen := seen + {seenVmids[i]};
      }
      assert seenVmids[..|seenVmids|] == seenVmids;
      missing := [];
      for id := 0 to db.nextVm
        invariant forall k :: k in missing <==> 0 <= k < id && k in db.vms && Inventory.Missing(db.vms[k], cluster, seen)
      {
        if id in db.vms && db.vms[id].cluster == cluster && !db.vms[id].managed && Active(db.vms[id]) {
          if db.vms[id].vmid in seen {
            continue;
          }
          missing := missing + [id];
        }
      }
    }

    /** markMissingUnmanagedVMsDeleted */
    method MarkMissingUnmanagedVmsDeleted(cluster: string, seenVmids: seq<int>, now: Time) returns (ok: bool, ghost swept: set<int>)
      requires Inventory.RowIdsBelow(RowsOf(db.Contents()))
      modifies this`tick, db`vms
      ensures tick >= old(tick) && (Steady(env, old(tick)) ==> ok)
      ensures db.vms == Inventory.MarkMissing(old(db.vms), cluster, Elements(seenVmids), swept, now)
      ensures ok ==> db.vms == Inventory.MarkMissing(old(db.vms), cluster, Elements(seenVmids), old(db.vms).Keys, now)
    {
      var missing := QueryMissing(cluster, seenVmids);
      ghost var start := db.vms;
      ghost var seen := Elements(seenVmids);
      swept := {};
      for i := 0 to |missing|
        invariant swept == Elements(missing[..i]) && tick >= old(tick)
        invariant db.vms == Inventory.MarkMissing(start, cluster, seen, swept, now)
      {
        var _, accepted := Tick();
        if !accepted {
          return false, swept;
        }
        var id := missing[i];
        assert id in missing && missing[..i + 1] == missing[..i] + [id];
        Inventory.MarkOneMore(start, cluster, seen, swept, id, now);
        if id in db.vms && !db.vms[id].managed && Active(db.vms[id]) {
          db.vms := db.vms[id := Inventory.MarkRow(db.vms[id], now)];
        }
        swept := swept + {id};
      }
      assert missing[..|missing|] == missing;
      assert forall id :: id in start && Inventory.Missing(start[id], cluster, seen) ==> id in swept;
      return true, swept;
    }

    /** The upsert loop of syncUnmanagedVMs; `n` is how many resources it got through. */
    method UpsertResources(cluster: string, resources: seq<Inventory.Resource>) returns (ok: bool, seenVmids: seq<int>, ghost n: nat)
      modifies this`tick, db`vms, db`nextVm
      ensures tick >= old(tick) && n <= |resources| && (ok ==> n == |resources|) && (Steady(env, old(tick)) ==> ok)
      ensures RowsOf(db.Contents()) == Inventory.UpsertAll(old(RowsOf(db.Contents())), cluster, resources[..n])
      ensures Elements(seenVmids) == Inventory.SeenVmids(resources[..n])
    {
      seenVmids := [];
      ghost var start := RowsOf(db.Contents());
      for i := 0 to |resources|
        invariant tick >= old(tick)
        invariant RowsOf(db.Contents()) == Inventory.UpsertAll(start, cluster, resources[..i])
        invariant Elements(seenVmids) == Inventory.SeenVmids(resources[..i])
      {
        var r := resources[i];
        assert resources[..i + 1] == resources[..i] + [r] && resources[..i + 1][..i] == resources[..i];
        SeenGrows(resources, i, seenVmids);
        if !r.qemu || r.vmid <= 0 {
          continue;
        }
        var _, accepted := Tick();
        if !accepted {
          return false, seenVmids, i;
        }
        seenVmids := seenVmids + [r.vmid];
        var after := Inventory.UpsertUnmanagedVm(Inventory.Rows(db.vms, db.nextVm), cluster, r);
        db.vms, db.nextVm := after.vms, after.next;
      }
      assert resources[..|resources|] == resources;
      return true, seenVmids, |resources|;
    }

    /** One cluster's turn. If nothing fails the rows are reconciled; otherwise they are reconciled in part. */
    method ScanCluster(cluster: string, resources: seq<Inventory.Resource>, now: Time) returns (ok: bool, ghost es: seq<Event>)
      requires Valid() && db.phase == Idle && db.clock <= now <= env.time(tick)
      modifies this`tick, db
      ensures Valid() && db.phase == Idle && db.clock == now <= env.time(tick) && db.history == old(db.history) + es
      ensures |es| == 1 && es[0].ScanOf? && es[0].cluster == cluster && es[0].found <= resources && (ok ==> es[0].found == resources)
      ensures SameDeletions(old(db.Contents()), db.Contents()) && tick >= old(tick) && (Steady(env, old(tick)) ==> ok)
      ensures ok ==> RowsOf(db.Contents()) == Inventory.ScanCluster(old(RowsOf(db.Contents())), cluster, resources, now)
    {
      hide History, ValidHistory;
      ghost var before := db.State();
      ghost var start := RowsOf(before.db);
      ValidIsSound(db);
      var seenVmids: seq<int>;
      ghost var n: nat;
      ghost var swept: set<int> := {};
      ok, seenVmids, n := UpsertResources(cluster, resources);
      Inventory.UpsertAllChange(start, cluster, resources[..n]);
      assert resources[..|resources|] == resources;
      if ok {
        ok, swept := MarkMissingUnmanagedVmsDeleted(cluster, seenVmids, now);
      }
      es := [ScanOf(cluster, resources[..n], swept, now)];
      assert RowsOf(db.Contents()) == Inventory.ScanPart(start, cluster, resources[..n], swept, now);
      Inventory.ScanPartChange(start, cluster, resources[..n], swept, now);
      ScanKeepsDeletions(before.db, db.Contents());
      db.Record(before, es[0]);
    }

    /** syncUnmanagedVMs: the clusters in turn, up to the first failure; one timestamp for all. */
    method SyncUnmanagedVms(listings: seq<Listing>) returns (ok: bool, ghost es: seq<Event>)
      requires Valid() && db.phase == Idle
      modifies this`tick, db
      ensures Valid() && db.phase == Idle && db.history == old(db.history) + es && tick >= old(tick)
      ensures Scans(listings, es) && SameDeletions(old(db.Contents()), db.Contents())
      ensures ok ==> ScansAll(listings, es) && RowsOf(db.Contents()) == ScanEach(old(RowsOf(db.Contents())), listings, env.time(old(tick)))
      ensures Steady(env, old(tick)) && Answered(listings) ==> ok
    {
      hide History, ValidHistory, Inventory.ScanCluster;
      es := [];
      ghost var before := db.Contents();
      var now, _ := Tick();
      for i := 0 to |listings|
        invariant Valid() && db.phase == Idle && db.clock <= now <= env.time(tick) && db.history == old(db.history) + es
        invariant tick >= old(tick) && |es| == i && ScansAll(listings[..i], es) && SameDeletions(before, db.Contents())
        invariant RowsOf(db.Contents()) == ScanEach(RowsOf(before), listings[..i], now)
      {
        if listings[i].resources == None {
          return false, es;
        }
        ghost var mid := db.Contents();
        ghost var fs: seq<Event>;
        ok, fs := ScanCluster(listings[i].cluster, listings[i].resources.value, now);
        SameDeletionsChain(before, mid, db.Contents());
        assert listings[..i + 1][..i] == listings[..i];
        es := es + fs;
        if !ok {
          return;
        }
      }
      assert listings[..|listings|] == listings;
      ok := true;
    }

    // ---- selecting a batch ----

    /** The rows of pendingTasks' query, ORDER BY vm_id: at most one per VM, because seq is unique there. */
    method QueryHeads() returns (ids: seq<int>)
      requires db.Valid()
      ensures HeadsInOrder(db.Contents(), ids)
    {
      hide History, ValidHistory, LowerSettled, Eligible, AutoRetry;
      ids := [];
      ValidIdsBelow(db);
      ValidSeqUnique(db);
      for vm := 0 to db.nextVm
        invariant forall k :: 0 <= k < |ids| ==> Head(db.Contents(), ids[k]) && db.rows[ids[k]].vm < vm
        invariant forall j, k :: 0 <= j < k < |ids| ==> db.rows[ids[j]].vm < db.rows[ids[k]].vm
        invariant forall id :: Head(db.Contents(), id) && db.rows[id].vm < vm ==> id in ids
      {
        var heads := set id | id in db.rows && Head(db.Contents(), id) && db.rows[id].vm == vm;
        assert forall id :: Head(db.Contents(), id) && db.rows[id].vm == vm ==> id in heads;
        ghost var before := ids;
        if heads != {} {
          var head := Any(heads);
          forall id | id in heads
            ensures id == head
          {
            HeadIsUnique(db.Contents(), id, head);
          }
          ids := ids + [head];
        }
        assert forall id :: id in before || id in heads ==> id in ids;
      }
    }

    /** pendingTasks: the first twenty ready rows of the query. */
    method PendingTasks(now: Time) returns (batch: seq<Item>)
      requires db.Valid()
      ensures IsBatch(db.Contents(), batch, now) && TakesTheFirst(db.Contents(), batch, now)
    {
      hide History, ValidHistory, Gathered, HeadsInOrder, IsBatch, Ready, Eligible, LowerSettled;
      var ids := QueryHeads();
      batch := [];
      GatheredNone(db.Contents(), ids, now);
      var i := 0;
      while i < |ids| && |batch| < MAX_BATCH
        invariant 0 <= i <= |ids| && |batch| <= MAX_BATCH
        invariant Gathered(db.Contents(), ids, i, batch, now)
      {
        GatheredNext(db.Contents(), ids, i, batch, now);
        if Ready(db.rows[ids[i]], now) {
          batch := batch + [ItemOf(db.Contents(), ids[i])];
        }
        i := i + 1;
      }
      GatheredIsBatch(db.Contents(), ids, i, batch, now);
      BatchMeans(db.Contents(), batch, now);
    }

    // ---- running a task ----

    /** UPDATE vms ... WHERE id: markSynced, markNode, markDeletePending, markDeleted and markFailed. */
    method UpdateRow(id: int, x: Write, now: Time)
      requires x != WriteCancelOutstanding
      modifies db`vms
      ensures db.Contents() == ApplyWrite(old(db.Contents()), id, x, now)
    {
      if id in db.vms {
        db.vms := db.vms[id := WriteRow(db.vms[id], x, now)];
      }
    }

    method CancelOutstandingVmTasks(id: int, now: Time)
      modifies db`rows
      ensures db.Contents() == ApplyWrite(old(db.Contents()), id, WriteCancelOutstanding, now)
    {
      db.rows := CancelOutstanding(db.rows, id, now);
      assert id in db.vms ==> db.vms[id := db.vms[id]] == db.vms;
    }

    /** syncDelete; `issued` says that PVE was told to delete the VM. */
    method DeleteOnPve(vm: Vm, vmId: int, payload: Payload, o: Outcome, now: Time) returns (ok: bool, issued: bool)
      modifies db`vms, db`rows
      ensures var e := SyncDelete(vm, payload, o, now);
              ok == e.ok && issued == e.issued && db.Contents() == ApplyWrites(old(db.Contents()), vmId, e.writes, now)
    {
      issued := false;
      if o.lookup == LookupFailed {
        return false, issued;
      }
      if o.lookup == Absent {
        if !o.rowOk {
          return false, issued;
        }
        OneWrite(db.Contents(), vmId, WriteDeleted, now);
        UpdateRow(vmId, WriteDeleted, now);
        return true, issued;
      }
      var deleteAt := ExecuteAt(vm, payload);
      if deleteAt == None {
        return false, issued;
      }
      if now < deleteAt.value {
        if !o.rowOk {
          return false, issued;
        }
        OneWrite(db.Contents(), vmId, WriteDeletePending, now);
        UpdateRow(vmId, WriteDeletePending, now);
        return true, issued;
      }
      if !o.cleanupOk {
        return false, issued;
      }
      issued := true;
      if !o.deleteOk || !o.rowOk {
        return false, issued;
      }
      OneWrite(db.Contents(), vmId, WriteDeleted, now);
      TwoWrites(db.Contents(), vmId, WriteDeleted, WriteCancelOutstanding, now);
      UpdateRow(vmId, WriteDeleted, now);
      if o.cancelOk {
        CancelOutstandingVmTasks(vmId, now);
      }
      return true, issued;
    }

    /** syncPresent as the database sees it; Provisioning has the PVE side. */
    method ApplyPresent(vm: Vm, vmId: int, o: Outcome, now: Time) returns (ok: bool)
      modifies db`vms, db`rows
      ensures var e := SyncPresent(vm, o);
              ok == e.ok && db.Contents() == ApplyWrites(old(db.Contents()), vmId, e.writes, now)
    {
      OneWrite(db.Contents(), vmId, WriteNode(o.node), now);
      OneWrite(db.Contents(), vmId, WriteSynced(o.power), now);
      TwoWrites(db.Contents(), vmId, WriteNode(o.node), WriteSynced(o.power), now);
      assert [WriteNode(o.node)] + [WriteSynced(o.power)] == [WriteNode(o.node), WriteSynced(o.power)];
      assert [] + [WriteSynced(o.power)] == [WriteSynced(o.power)];
      if o.nodeWritten {
        UpdateRow(vmId, WriteNode(o.node), now);
      }
      ok := o.presentOk;
      if ok {
        UpdateRow(vmId, WriteSynced(o.power), now);
      }
    }

    /** runPowerTask, and runRebootTask, which does not mark the row. */
    method ChangePower(vm: Vm, vmId: int, o: Outcome, marks: bool, now: Time) returns (ok: bool)
      modifies db`vms, db`rows
      ensures var e := RunPower(vm, o, marks);
              ok == e.ok && db.Contents() == ApplyWrites(old(db.Contents()), vmId, e.writes, now)
    {
      if vm.node == "" {
        if o.lookup == LookupFailed {
          return false;
        }
        if o.lookup == Absent {
          return true;
        }
      }
      ok := o.presentOk;
      if ok && marks {
        OneWrite(db.Contents(), vmId, WriteSynced(o.power), now);
        UpdateRow(vmId, WriteSynced(o.power), now);
      }
    }

    /** runTask up to markTaskDone. */
    method RunTask(item: Item, o: Outcome, now: Time) returns (ok: bool, issued: bool)
      modifies db`vms, db`rows
      ensures var e := Body(item, o, now);
              ok == e.ok && issued == e.issued && db.Contents() == ApplyWrites(old(db.Contents()), item.vmId, e.writes, now)
      ensures BodyDone(item, o, now, old(db.Contents()), db.Contents(), ok, issued)
    {
      hide BodyDone;
      BodyMeans(item, o, now, db.Contents());
      issued := false;
      match item.kind {
        case Provision | Apply =>
          if item.vm.intent == IntentDeletePending || PendingDeletion(item.vm) {
            ok, issued := DeleteOnPve(item.vm, item.vmId, NoPayload, o, now);
          } else {
            ok := ApplyPresent(item.vm, item.vmId, o, now);
          }
        case PowerChange => ok := ChangePower(item.vm, item.vmId, o, true, now);
        case Reboot => ok := ChangePower(item.vm, item.vmId, o, false, now);
        case Delete => ok, issued := DeleteOnPve(item.vm, item.vmId, item.payload, o, now);
      }
    }

    // ---- one task of a batch ----

    method SkipTask(ghost todo: seq<Item>, now: Time) returns (ghost e: Event)
      requires db.Valid() && todo != [] && db.phase == Selected(todo) && db.clock <= now
      modifies db
      ensures db.Valid() && db.phase == Next(todo[1..]) && db.clock == now
      ensures e == Work(SkipHead(now))
      ensures Rank(e) == 5 && db.history == old(db.history) + [e]
    {
      hide History, ValidHistory;
      ghost var before := db.State();
      e := Work(SkipHead(now));
      db.Record(before, e);
    }

    /** markTaskRunning */
    method MarkTaskRunning(todo: seq<Item>, now: Time) returns (item: Item, ghost e: Event)
      requires db.Valid() && todo != [] && db.phase == Selected(todo) && db.clock <= now
      modifies db
      ensures db.Valid() && item == todo[0].(attempts := todo[0].attempts + 1) && db.phase == Working(item, todo[1..]) && db.clock == now
      ensures e == Work(Start(now))
      ensures Rank(e) == 5 && db.history == old(db.history) + [e]
      ensures db.vms == old(db.vms) && (item.id in old(db.rows) ==> Started(old(db.rows), db.rows, item.id, now))
    {
      hide History, ValidHistory;
      if todo[0].id in db.rows {
        MarkRunningMeans(db.rows, todo[0].id, now);
      }
      ghost var before := db.State();
      db.rows := MarkRunning(db.rows, todo[0].id, now);
      item := todo[0].(attempts := todo[0].attempts + 1);
      e := Work(Start(now));
      db.Record(before, e);
    }

    method ExecuteTask(item: Item, ghost rest: seq<Item>, o: Outcome, now: Time) returns (ok: bool, ghost e: Event)
      requires db.Valid() && db.phase == Working(item, rest) && db.clock <= now
      modifies db
      ensures db.Valid() && db.phase == Executed(item, rest, ok) && db.clock == now
      ensures e == Work(Exec(o, now)) && db.history == old(db.history) + [e]
      ensures db.Contents() == ApplyWrites(old(db.Contents()), item.vmId, Body(item, o, now).writes, now) && ok == Body(item, o, now).ok
      ensures exists issued :: BodyDone(item, o, now, old(db.Contents()), db.Contents(), ok, issued)
    {
      hide History, ValidHistory, BodyDone;
      ghost var before := db.State();
      var issued: bool;
      ok, issued := RunTask(item, o, now);
      e := Work(Exec(o, now));
      db.Record(before, e);
    }

    method MarkTaskDone(item: Item, ghost rest: seq<Item>, now: Time) returns (ghost e: Event)
      requires db.Valid() && db.phase == Executed(item, rest, true) && db.clock <= now
      modifies db
      ensures db.Valid() && db.phase == Next(rest) && db.clock == now
      ensures e == Work(FinishDone(now))
      ensures Rank(e) == 5 && db.history == old(db.history) + [e]
      ensures db.vms == old(db.vms) && (item.id in old(db.rows) ==> Closed(old(db.rows), db.rows, item.id, Done, now))
    {
      hide History, ValidHistory;
      if item.id in db.rows {
        MarkDoneMeans(db.rows, item.id, now);
      }
      ghost var before := db.State();
      db.rows := MarkDone(db.rows, item.id, now);
      e := Work(FinishDone(now));
      db.Record(before, e);
    }

    /** markTaskFailed, and markFailed once the retries are used up; either update may be refused. */
    method MarkTaskFailed(item: Item, ghost rest: seq<Item>, ok: bool, marked: bool, now: Time) returns (ghost e: Event)
      requires db.Valid() && db.phase.Executed? && db.phase.item == item && db.phase.rest == rest && db.clock <= now
      modifies db
      ensures db.Valid() && db.phase == Next(rest) && db.clock == now
      ensures e == Work(if ok then FinishFailed(marked, now) else FinishLost(marked, now))
      ensures Rank(e) == 5 && db.history == old(db.history) + [e]
      ensures if ok then item.id in old(db.rows) ==> Closed(old(db.rows), db.rows, item.id, Failed, now) else db.rows == old(db.rows)
      ensures db.vms == if marked && item.attempts > 5 && item.vmId in old(db.vms)
                        then old(db.vms)[item.vmId := old(db.vms)[item.vmId].(sync := SyncFailed)] else old(db.vms)
    {
      hide History, ValidHistory;
      if item.id in db.rows {
        MarkFailedMeans(db.rows, item.id, now);
      }
      ghost var before := db.State();
      if ok {
        db.rows := MarkFailed(db.rows, item.id, now);
      }
      if item.attempts > MAX_AUTO_RETRIES {
        if marked && item.vmId in db.vms {
          db.vms := db.vms[item.vmId := db.vms[item.vmId].(sync := SyncFailed)];
        }
      }
      e := Work(if ok then FinishFailed(marked, now) else FinishLost(marked, now));
      db.Record(before, e);
    }

    /** What follows a task body. A task whose body succeeded but whose markTaskDone failed counts as failed. */
    method FinishTask(item: Item, ghost rest: seq<Item>, ok: bool) returns (ghost e: Event)
      requires Valid() && db.phase == Executed(item, rest, ok)
      modifies this`tick, db
      ensures Valid() && db.phase == Next(rest) && Rank(e) == 5 && db.history == old(db.history) + [e] && tick >= old(tick)
      ensures if ok && env.ok(old(tick)) then e == Work(FinishDone(env.time(old(tick))))
              else e.Work? && (e.action.FinishFailed? || e.action.FinishLost?)
      ensures var n := if ok then old(tick) + 1 else old(tick);
              !(ok && env.ok(old(tick))) ==> (e.action.FinishFailed? <==> env.ok(n)) && e.action.marked == env.ok(n + 1) && e.action.now == env.time(n)
    {
      hide History, ValidHistory;
      var now, accepted;
      if ok {
        now, accepted := Tick();
        if accepted {
          e := MarkTaskDone(item, rest, now);
          return;
        }
      }
      now, accepted := Tick();
      var _, marked := Tick();
      e := MarkTaskFailed(item, rest, accepted, marked, now);
    }

    /** The loop body of syncOnce. */
    method WorkOffHead(todo: seq<Item>) returns (ghost es: seq<Event>)
      requires Valid() && todo != [] && db.phase == Selected(todo)
      modifies this`tick, db
      ensures Valid() && db.phase == Next(todo[1..]) && db.history == old(db.history) + es
      ensures forall i :: 0 <= i < |es| ==> Rank(es[i]) == 5
      ensures IsTurn(es) && tick >= old(tick)
      ensures if env.ok(old(tick)) then |es| == 3 && es[1].action.outcome == env.outcome(old(tick) + 2) else |es| == 1
      ensures Steady(env, old(tick)) ==>
                && Untroubled(es)
                && (es[2].action.FinishDone? <==> Body(todo[0].(attempts := todo[0].attempts + 1), es[1].action.outcome, es[1].action.now).ok)
      ensures AllWell(env) && todo[0].kind != Delete && !WantsDelete(todo[0].vm) ==> Draining.AllSmooth(es)
    {
      hide History, ValidHistory, Body, WantsDelete, Next, ApplyWrites, MarkRunning, BodyDone, Started, Draining.Healthy;
      var now, ok := Tick();
      if !ok {
        ghost var skipped := SkipTask(todo, now);
        return [skipped];
      }
      ghost var started, executed, finished;
      var item: Item;
      item, started := MarkTaskRunning(todo, now);
      now, ok := Tick();
      var outcome := env.outcome(tick);
      ok, executed := ExecuteTask(item, todo[1..], outcome, now);
      BodyGoesWell(item, outcome, now);
      finished := FinishTask(item, todo[1..], ok);
      es := [started, executed, finished];
    }

    // ---- the cycle ----

    method SelectBatch() returns (ok: bool, batch: seq<Item>, ghost es: seq<Event>)
      requires Valid() && db.phase == Idle
      modifies this`tick, db
      ensures Valid() && db.history == old(db.history) + es && db.phase == Next(batch)
      ensures ok == env.ok(old(tick)) && db.Contents() == old(db.Contents()) && tick == old(tick) + 1
      ensures ok ==> |es| == 1 && es[0].Work? && es[0].action.Select? && es[0].action.batch == batch && IsBatch(db.Contents(), batch, es[0].action.now)
      ensures ok ==> TakesTheFirst(db.Contents(), batch, es[0].action.now)
      ensures !ok ==> es == [] && batch == []
    {
      hide History, ValidHistory;
      es, batch := [], [];
      var now: Time;
      now, ok := Tick();
      if ok {
        batch := PendingTasks(now);
        ghost var before := db.State();
        es := [Work(Select(batch, now))];
        db.Record(before, es[0]);
      }
    }

    method WorkOffBatch(batch: seq<Item>) returns (ghost es: seq<Event>)
      requires Valid() && db.phase == Next(batch)
      modifies this`tick, db
      ensures Valid() && db.phase == Idle && db.history == old(db.history) + es
      ensures forall i :: 0 <= i < |es| ==> Rank(es[i]) == 5
      ensures Turns(es, |batch|) && tick >= old(tick)
      ensures Steady(env, old(tick)) ==> Untroubled(es)
      ensures AllWell(env) && Plain(batch) ==> Draining.AllSmooth(es)
    {
      hide History, ValidHistory, Body, IsTurn, Draining.AllSmooth, WantsDelete;
      es := [];
      NothingIsSmooth();
      var i := 0;
      assert batch[0..] == batch;
      while i < |batch|
        invariant 0 <= i <= |batch| && Valid() && db.phase == Next(batch[i..]) && db.history == old(db.history) + es
        invariant forall k :: 0 <= k < |es| ==> Rank(es[k]) == 5
        invariant Turns(es, i) && tick >= old(tick)
        invariant Steady(env, old(tick)) ==> Untroubled(es)
        invariant AllWell(env) && Plain(batch) ==> Draining.AllSmooth(es)
      {
        ghost var fs := WorkOffHead(batch[i..]);
        assert batch[i..][1..] == batch[i + 1..];
        OneMoreTurn(es, fs, i);
        if Draining.AllSmooth(es) && Draining.AllSmooth(fs) {
          SmoothThen(es, fs);
        }
        assert batch[i..][0] == batch[i];
        es := es + fs;
        i := i + 1;
      }
    }

    /** Recovery and the inventory scan. A failure of either is only logged, but the cycle ends when the queue of maintenance
        tasks cannot be filled or read. */
    method RecoverAndScan(listings: seq<Listing>) returns (ok: bool, ghost recovered: seq<Event>, ghost scanned: seq<Event>)
      requires Valid() && db.phase == Idle
      modifies this`tick, db
      ensures Valid() && db.phase == Idle && db.history == old(db.history) + (recovered + scanned) && InOrder(recovered + scanned, 1)
      ensures recovered == if env.ok(old(tick)) then [Work(RecoverStale(env.time(old(tick))))] else []
      ensures Scans(listings, scanned) && SameDeletions(old(db.Contents()), db.Contents()) && tick > old(tick)
      ensures Steady(env, old(tick) + 1) ==> ok && (Answered(listings) ==> ScansAll(listings, scanned))
    {
      hide History, ValidHistory, SameDeletions, Recovered;
      ghost var before := db.Contents();
      recovered := RecoverStaleRunningTasks();
      RecoveredOrNot(before, db.Contents(), Stale(db.clockwork, env.time(tick - 1)));
      ghost var mid := db.Contents();
      scanned := [];
      var _, known := Tick();
      ok := known;
      if ok {
        var complete;
        complete, scanned := SyncUnmanagedVms(listings);
        SameDeletionsChain(before, mid, db.Contents());
      }
      InOrderThen(recovered, scanned, 0, 1);
    }

    /** The expiry query and the cancellation of superseded tasks. */
    method ExpireAndCancel() returns (ok: bool, ghost expired: seq<Event>, ghost canceled: seq<Event>)
      requires Valid() && db.phase == Idle
      modifies this`tick, db
      ensures Valid() && db.phase == Idle && db.history == old(db.history) + (expired + canceled)
      ensures InOrder(expired + canceled, 3) && forall i :: 0 <= i < |expired + canceled| ==> Rank((expired + canceled)[i]) >= 2
      ensures tick >= old(tick) && (Steady(env, old(tick)) ==> ok)
      ensures ok ==> |canceled| == 1 && canceled[0].Work? && canceled[0].action.DropSuperseded?
      ensures ok ==> QueuesExpired(db.clockwork, old(db.Contents()), expired, env.time(old(tick)))
      ensures ok ==> DueAreNext(db.clockwork, db.Contents(), env.time(old(tick)))
    {
      hide History, ValidHistory, QueuesExpired, Superseded, DueAreNext;
      canceled := [];
      ok, expired := EnsureExpiredDeleteTasks();
      ghost var mid := db.Contents();
      if ok {
        ok, canceled := CancelSupersededTasks();
        if ok {
          DueAreNextAfter(db.clockwork, mid, db.Contents(), env.time(old(tick)));
        }
      }
      InOrderThen(expired, canceled, 2, 3);
    }

    /** The first half of syncOnce. */
    method PrepareQueue(listings: seq<Listing>) returns (ok: bool, ghost t: Trace)
      requires Valid() && db.phase == Idle
      modifies this`tick, db
      ensures Valid() && db.phase == Idle && db.history == old(db.history) + Prepared(t) && InOrder(Prepared(t), 3)
      ensures tick > old(tick) && (Steady(env, old(tick) + 1) ==> ok)
      ensures t.recovered == if env.ok(old(tick)) then [Work(RecoverStale(env.time(old(tick))))] else []
      ensures Scans(listings, t.scanned) && (Steady(env, old(tick) + 1) && Answered(listings) ==> ScansAll(listings, t.scanned))
      ensures t.selected == [] && t.turned == [] && t.purged == []
      ensures ok ==> |t.canceled| == 1 && t.canceled[0].Work? && t.canceled[0].action.DropSuperseded?
      ensures ok ==> env.time(old(tick)) <= t.asOf && QueuesExpired(db.clockwork, old(db.Contents()), t.expired, t.asOf)
      ensures ok ==> DueAreNext(db.clockwork, db.Contents(), t.asOf)
    {
      hide History, ValidHistory, SameDeletions, QueuesExpired, DueAreNext, Scans, ScansAll;
      ghost var before := db.Contents();
      ghost var recovered, scanned, expired, canceled := [], [], [], [];
      ok, recovered, scanned := RecoverAndScan(listings);
      ghost var mid, asOf := db.Contents(), env.time(tick);
      if ok {
        ok, expired, canceled := ExpireAndCancel();
        InOrderJoin(recovered + scanned, expired + canceled, 1, 3);
        if ok {
          QueuedThroughout(db.clockwork, before, mid, expired, asOf);
        }
      } else {
        InOrderThen(recovered + scanned, [], 1, 3);
      }
      t := Trace(recovered, scanned, expired, canceled, [], [], [], asOf);
    }

    /** The second half: select a batch, give every task of it its turn, purge. */
    method WorkOffQueue() returns (ok: bool, ghost selected: seq<Event>, ghost turned: seq<Event>, ghost purged: seq<Event>)
      requires Valid() && db.phase == Idle
      modifies this`tick, db
      ensures Valid() && db.phase == Idle && db.history == old(db.history) + (selected + turned + purged)
      ensures var es := selected + turned + purged;
              && InOrder(es, 7) && (forall i :: 0 <= i < |es| ==> Rank(es[i]) >= 4)
              && (ok ==> Draining.Selects(es) == 1)
              && (AllWell(env) && Draining.Quiet(old(db.Contents())) ==> ok && Draining.AllSmooth(es))
      ensures ok ==> BatchRun(selected, turned, purged) && TakesTheFirst(old(db.Contents()), selected[0].action.batch, selected[0].action.now)
      ensures Steady(env, old(tick)) ==> ok && Untroubled(turned) && |purged| == 2
    {
      hide History, ValidHistory, IsBatch, TakesTheFirst, Turns, Draining.Quiet, Draining.OpenWork, Draining.Selects;
      turned, purged := [], [];
      var batch: seq<Item>;
      ok, batch, selected := SelectBatch();
      if ok {
        QuietBatch(db.Contents(), batch, selected[0].action.now);
        turned := WorkOffBatch(batch);
        purged := PurgeOldTasks();
        BatchRunOf(selected, turned, purged);
      }
    }

    /** syncOnce. `listings` are the clusters of an inventory scan if one is due. Whatever fails, the cycle is part of a
        serial run and leaves the worker idle, and its events come in the order scan, expiry, superseded tasks, select,
        work, purge. A cycle that succeeds has queued a delete for exactly the overdue VMs that had none, canceled, selected the
        first selectable tasks, and given every one of them its turn; and it succeeds unless a statement other than the recovery
        is refused. On a good day the cycle completes one task of every busy VM, twenty at most. */
    method SyncOnce(listings: seq<Listing>) returns (ok: bool, ghost t: Trace)
      requires Valid() && db.phase == Idle
      modifies this`tick, db
      ensures Valid() && db.phase == Idle && db.history == old(db.history) + (Prepared(t) + Worked(t))
      ensures InOrder(Prepared(t) + Worked(t), 7)
      ensures t.recovered == if env.ok(old(tick)) then [Work(RecoverStale(env.time(old(tick))))] else []
      ensures Scans(listings, t.scanned)
      ensures ok ==> env.time(old(tick)) <= t.asOf && QueuesExpired(db.clockwork, old(db.Contents()), t.expired, t.asOf)
      ensures ok ==> |t.canceled| == 1 && t.canceled[0].Work? && t.canceled[0].action.DropSuperseded?
      ensures ok ==> BatchRun(t.selected, t.turned, t.purged)
      ensures Steady(env, old(tick) + 1) ==>
                ok && (Answered(listings) ==> ScansAll(listings, t.scanned)) && Untroubled(t.turned) && |t.purged| == 2
      ensures AllWell(env) && Draining.Quiet(old(db.Contents())) ==>
                && ok && Draining.Quiet(db.Contents())
                && |Draining.OpenWork(db.Contents())| == |Draining.OpenWork(old(db.Contents()))| - Capped(|Draining.BusyVms(old(db.Contents()))|)
    {
      hide History, ValidHistory, Draining.OpenWork, Draining.BusyVms, Draining.Quiet, Draining.AllSmooth, Draining.Selects, BatchRun,
           QueuesExpired, Scans, ScansAll, TakesTheFirst, DueAreNext;
      ok, t := PrepareQueue(listings);
      ghost var es := Prepared(t);
      if ok {
        ghost var selected, turned, purged;
        PreparedIsQuiet(db, old(db.State()), old(db.history), es);
        ok, selected, turned, purged := WorkOffQueue();
        t := t.(selected := selected, turned := turned, purged := purged);
        ghost var fs := selected + turned + purged;
        assert Worked(t) == fs && Prepared(t) == es;
        InOrderJoin(es, fs, 3, 7);
        if ok && Draining.AllSmooth(fs) && Draining.Quiet(old(db.Contents())) {
          CycleDrains(db, old(db.State()), old(db.history), es, fs);
        }
      } else {
        assert Worked(t) == [] && es + [] == es;
        InOrderThen(es, [], 3, 7);
      }
    }
  }

  /** The rows after every listing has been scanned to its end. */
  ghost function ScanEach(rows: Inventory.Rows, listings: seq<Listing>, now: Time): Inventory.Rows
    requires Answered(listings)
    decreases |listings|
  {
    if listings == [] then rows
    else
      var n := |listings| - 1;
      Inventory.ScanCluster(ScanEach(rows, listings[..n], now), listings[n].cluster, listings[n].resources.value, now)
  }

  // ---- facts about the selection ----

  ghost predicate HeadsInOrder(db: Db, ids: seq<int>) {
    && (forall k :: 0 <= k < |ids| ==> Head(db, ids[k]))
    && (forall j, k :: 0 <= j < k < |ids| ==> db.queue.rows[ids[j]].vm < db.queue.rows[ids[k]].vm)
    && (forall id :: Head(db, id) ==> id in ids)
  }

  lemma HeadIsUnique(db: Db, a: int, b: int)
    requires QueueOrder.SeqUnique(db.queue.rows) && Head(db, a) && Head(db, b) && db.queue.rows[a].vm == db.queue.rows[b].vm
    ensures a == b
  {
  }

  /** `batch` holds the ready rows among the first `n` of `ids`. */
  ghost predicate Gathered(db: Db, ids: seq<int>, n: nat, batch: seq<Item>, now: Time)
    requires n <= |ids|
  {
    && HeadsInOrder(db, ids)
    && (forall k :: 0 <= k < |batch| ==> ReadyHead(db, batch[k].id, now) && batch[k] == ItemOf(db, batch[k].id))
    && (forall j, k :: 0 <= j < k < |batch| ==> batch[j].vmId < batch[k].vmId)
    && (forall k, i :: 0 <= k < |batch| && n <= i < |ids| ==> batch[k].vmId < db.queue.rows[ids[i]].vm)
    && (forall i :: 0 <= i < n && Ready(db.queue.rows[ids[i]], now) ==> exists k :: 0 <= k < |batch| && batch[k].id == ids[i])
  }

  lemma GatheredNone(db: Db, ids: seq<int>, now: Time)
    requires HeadsInOrder(db, ids)
    ensures Gathered(db, ids, 0, [], now)
  {
  }

  lemma GatheredNext(db: Db, ids: seq<int>, n: nat, batch: seq<Item>, now: Time)
    requires n < |ids| && Gathered(db, ids, n, batch, now)
    ensures Head(db, ids[n])
    ensures Gathered(db, ids, n + 1, if Ready(db.queue.rows[ids[n]], now) then batch + [ItemOf(db, ids[n])] else batch, now)
  {
    assert Head(db, ids[n]);
    if Ready(db.queue.rows[ids[n]], now) {
      GatheredTake(db, ids, n, batch, now);
    }
  }

  lemma GatheredTake(db: Db, ids: seq<int>, n: nat, batch: seq<Item>, now: Time)
    requires n < |ids| && Gathered(db, ids, n, batch, now) && ReadyHead(db, ids[n], now)
    ensures Gathered(db, ids, n + 1, batch + [ItemOf(db, ids[n])], now)
  {
    hide LowerSettled, Eligible, Ready, AutoRetry;
    var more := batch + [ItemOf(db, ids[n])];
    forall i | 0 <= i < n + 1 && Ready(db.queue.rows[ids[i]], now)
      ensures exists k :: 0 <= k < |more| && more[k].id == ids[i]
    {
      if i < n {
        var k :| 0 <= k < |batch| && batch[k].id == ids[i];
        assert more[k].id == ids[i];
      } else {
        assert more[|batch|].id == ids[i];
      }
    }
    forall j, k | 0 <= j < k < |more|
      ensures more[j].vmId < more[k].vmId
    {
      assert more[j] == batch[j];
    }
  }

  lemma GatheredIsBatch(db: Db, ids: seq<int>, n: nat, batch: seq<Item>, now: Time)
    requires n <= |ids| && |batch| <= MAX_BATCH && Gathered(db, ids, n, batch, now)
    requires n == |ids| || |batch| == MAX_BATCH
    ensures IsBatch(db, batch, now)
  {
    forall id | ReadyHead(db, id, now)
      ensures (exists k :: 0 <= k < |batch| && batch[k].id == id) || (|batch| == MAX_BATCH && batch[|batch| - 1].vmId < db.queue.rows[id].vm)
    {
      var i :| 0 <= i < |ids| && ids[i] == id;
      assert i < n ==> exists k :: 0 <= k < |batch| && batch[k].id == ids[i];
    }
  }

  lemma SeenGrows(rs: seq<Inventory.Resource>, i: nat, vmids: seq<int>)
    requires i < |rs|
    ensures Inventory.SeenVmids(rs[..i + 1]) == Inventory.SeenVmids(rs[..i]) + (if Inventory.Scanned(rs[i]) then {rs[i].vmid} else {})
    ensures Elements(vmids + [rs[i].vmid]) == Elements(vmids) + {rs[i].vmid}
  {
    assert rs[..i + 1] == rs[..i] + [rs[i]];
  }

  // ---- facts about the expiry loop ----

  /** The first of `ids` are queued, one event each. */
  ghost predicate Queues(ids: seq<int>, es: seq<Event>, asOf: Time) {
    |es| <= |ids| && forall k :: 0 <= k < |es| ==> es[k].Work? && es[k].action == QueueExpired(ids[k], asOf, es[k].action.now)
  }

  lemma QueuesInOrder(ids: seq<int>, es: seq<Event>, asOf: Time)
    requires Queues(ids, es, asOf)
    ensures forall k :: 0 <= k < |es| ==> Rank(es[k]) == 2
  {
  }

  lemma AllAreQueued(c: Clockwork, db: Db, ids: seq<int>, es: seq<Event>, asOf: Time)
    requires Queues(ids, es, asOf) && |es| == |ids| && (forall i, j :: 0 <= i < j < |ids| ==> ids[i] < ids[j])
    requires forall id :: id in ids <==> Overdue(c, db, id, asOf)
    ensures QueuesExpired(c, db, es, asOf)
  {
    hide Overdue;
    forall id | id in ids
      ensures exists i :: 0 <= i < |es| && es[i].action.vm == id
    {
      var i :| 0 <= i < |ids| && ids[i] == id;
      assert es[i].action.vm == id;
    }
    forall i | 0 <= i < |es|
      ensures es[i].action.vm in ids
    {
    }
  }

  /** The first `n` of `ids` have been queued and the rest are still expired; no task is lost. */
  ghost predicate Listed(c: Clockwork, start: Db, db: Db, ids: seq<int>, n: nat, asOf: Time)
    requires n <= |ids|
  {
    && db.vms == start.vms
    && (forall id :: id in start.queue.rows ==> id in db.queue.rows && db.queue.rows[id] == start.queue.rows[id])
    && (forall i, j :: 0 <= i < j < |ids| ==> ids[i] < ids[j])
    && (forall id :: id in ids <==> Expired(c, start, id, asOf))
    && (forall k :: 0 <= k < n ==> HasLiveDelete(db.queue.rows, ids[k]))
    && (forall k :: n <= k < |ids| ==> Expired(c, db, ids[k], asOf))
    && QueueOrder.IdsBelow(db.queue)
  }

  lemma QueuedNext(c: Clockwork, start: Db, db: Db, ids: seq<int>, n: nat, asOf: Time, now: Time)
    requires n < |ids| && Listed(c, start, db, ids, n, asOf)
    ensures Listed(c, start, db.(queue := Enqueue(db.queue, ids[n], Delete, DeletePayload(None, false, true), now)), ids, n + 1, asOf)
  {
    var q := Enqueue(db.queue, ids[n], Delete, DeletePayload(None, false, true), now);
    assert LiveDelete(q.rows[db.queue.nextId], ids[n]);
    forall k | 0 <= k < n
      ensures HasLiveDelete(q.rows, ids[k])
    {
      var id :| id in db.queue.rows && LiveDelete(db.queue.rows[id], ids[k]);
      assert id in q.rows && LiveDelete(q.rows[id], ids[k]);
    }
    forall k, id | n + 1 <= k < |ids| && id in q.rows
      ensures !LiveDelete(q.rows[id], ids[k])
    {
      assert Expired(c, db, ids[k], asOf);
      assert id in db.queue.rows ==> !LiveDelete(db.queue.rows[id], ids[k]);
    }
  }

  lemma OnlyOne(rows: map<int, Task>, id: int, vm: int)
    requires DeleteProtocol.OneLiveDelete(rows) && id in rows && LiveDelete(rows[id], vm)
    ensures Expiry.ExactlyOneLiveDelete(rows, vm)
  {
    forall j | j in rows && LiveDelete(rows[j], vm)
      ensures j == id
    {
      assert LiveDelete(rows[j], rows[j].vm) && LiveDelete(rows[id], rows[id].vm);
    }
  }

  lemma DueAreQueued(c: Clockwork, start: Db, db: Db, ids: seq<int>, now: Time)
    requires Listed(c, start, db, ids, |ids|, now) && DeleteProtocol.OneLiveDelete(db.queue.rows)
    ensures forall id :: Expiry.Due(c, db, id, now) ==> Expiry.ExactlyOneLiveDelete(db.queue.rows, id)
  {
    var rows := db.queue.rows;
    forall id | Expiry.Due(c, db, id, now)
      ensures Expiry.ExactlyOneLiveDelete(rows, id)
    {
      if id in ids {
        var k :| 0 <= k < |ids| && ids[k] == id;
        assert HasLiveDelete(rows, ids[k]);
        var t :| t in rows && LiveDelete(rows[t], id);
        OnlyOne(rows, t, id);
      } else {
        var t :| t in start.queue.rows && LiveDelete(start.queue.rows[t], id);
        OnlyOne(rows, t, id);
      }
    }
  }
}
