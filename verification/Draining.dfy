/** Liveness on good days. While nobody asks for anything, no VM the worker may touch is being deleted or has anything but
    pending tasks, and SQL and PVE answer, each cycle completes one task of every busy VM, twenty at most, each VM's in
    the order of its queue, and the queue drains. Paused, unmanaged and deleted VMs may be in any state. */
module Draining {
  import opened Records
  import opened TaskQueue
  import opened Machine
  import opened Serial
  import opened DeleteProtocol
  import opened QueueOrder
  import opened Tenancy
  import Inventory
  import Sets

  /** The open tasks of VMs the worker may touch, and those VMs. */
  function OpenWork(db: Db): set<int> {
    set id | id in db.queue.rows && InWork(db, id)
  }

  predicate InWork(db: Db, id: int)
    requires id in db.queue.rows
  {
    !Settled(db.queue.rows[id]) && db.queue.rows[id].vm in db.vms && Eligible(db.vms[db.queue.rows[id].vm])
  }

  function BusyVms(db: Db): set<int> {
    set id | id in OpenWork(db) :: db.queue.rows[id].vm
  }

  /** No eligible VM is being deleted, and its open tasks are pending, `busy` aside. */
  ghost predicate QuietBut(db: Db, busy: set<int>) {
    && (forall id :: id in db.vms && Eligible(db.vms[id]) ==> !WantsDelete(db.vms[id]))
    && (forall id :: id in OpenWork(db) ==> db.queue.rows[id].kind != Delete && (id !in busy ==> db.queue.rows[id].status == Pending))
  }

  ghost predicate Quiet(db: Db) {
    QuietBut(db, {})
  }

  /** PVE answers and every call succeeds. */
  predicate Healthy(o: Outcome) {
    o.lookup != LookupFailed && o.presentOk
  }

  /** The events of cycles in which nothing fails. */
  predicate Smooth(e: Event) {
    match e
    case Req(_, _) => false
    case ScanOf(_, _, _, _) => true
    case Work(a) =>
      || a.RecoverStale? || a.QueueExpired? || a.DropSuperseded? || a.Select? || a.Start? || a.FinishDone? || Purges(a)
      || (a.Exec? && Healthy(a.outcome))
  }

  ghost predicate AllSmooth(es: seq<Event>) {
    forall i :: 0 <= i < |es| ==> Smooth(es[i])
  }

  function Ids(batch: seq<Item>): set<int> {
    set i | i in batch :: i.id
  }

  // ---- what one event does to the open work ----

  ghost predicate Workable(db: Db, todo: seq<Item>) {
    forall k :: 0 <= k < |todo| ==> todo[k].id in OpenWork(db) && todo[k].kind != Delete && !WantsDelete(todo[k].vm)
  }

  function Current(p: Phase): set<int> {
    if InBody(p) then {p.item.id} else {}
  }

  /** The state of an undisturbed worker, anywhere in its cycle. */
  ghost predicate Going(w: World) {
    && QueueInv(w) && RowsInv(w.db)
    && QuietBut(w.db, Current(w.phase))
    && Workable(w.db, Todo(w.phase))
    && (w.phase.Executed? ==> w.phase.ok)
  }

  /** Open work the present batch has not claimed. */
  ghost function Unclaimed(w: World): set<int> {
    OpenWork(w.db) - Ids(Todo(w.phase))
  }

  /** The open work is the same, apart from `done`, and every task keeps its VM and place. */
  ghost predicate SameWorkBut(a: Db, b: Db, done: set<int>) {
    && OpenWork(b) == OpenWork(a) - done
    && (forall id :: id in OpenWork(b) ==> b.queue.rows[id].vm == a.queue.rows[id].vm && b.queue.rows[id].seqNo == a.queue.rows[id].seqNo)
  }

  lemma SameWorkSameBusy(a: Db, b: Db)
    requires SameWorkBut(a, b, {})
    ensures BusyVms(b) == BusyVms(a) && |OpenWork(b)| == |OpenWork(a)|
  {
    assert OpenWork(b) == OpenWork(a);
  }

  /** Recovery, scan, expiry, cancellation and purge leave the open work of a quiet database alone; there is nothing for
      the expiry query to list. */
  ghost predicate IsSweep(e: Event) {
    e.ScanOf? || (e.Work? && (e.action.RecoverStale? || e.action.QueueExpired? || e.action.DropSuperseded? || Purges(e.action)))
  }

  lemma SweepKeepsWork(cfg: Config, c: Clockwork, w: World, e: Event)
    requires Going(w) && MayHappen(cfg, c, w, e) && IsSweep(e)
    ensures var w' := React(cfg, c, w, e);
            w'.phase == Idle == w.phase && Quiet(w'.db) && SameWorkBut(w.db, w'.db, {})
  {
    hide QueueInv, LowerSettled, OpenWork, QuietBut;
    if e.ScanOf? {
      Inventory.ScanPartChange(RowsOf(w.db), e.cluster, e.found, e.swept, e.now);
      ScanKeepsWork(w.db, React(cfg, c, w, e).db);
    } else {
      NothingExpired(c, w.db);
      StatementKeepsWork(c, w, e.action);
    }
  }

  lemma StatementKeepsWork(c: Clockwork, w: World, a: Action)
    requires Quiet(w.db) && Enabled(w, a) && (a.RecoverStale? || a.DropSuperseded? || Purges(a))
    ensures Quiet(Step(c, w, a).db) && SameWorkBut(w.db, Step(c, w, a).db, {})
  {
    SweepRowsKeepWork(w.db, Step(c, w, a).db);
  }

  lemma NothingExpired(c: Clockwork, db: Db)
    requires Quiet(db)
    ensures forall vm, asOf :: !Expired(c, db, vm, asOf)
  {
  }

  lemma ScanKeepsWork(a: Db, b: Db)
    requires Quiet(a) && b.queue == a.queue && Inventory.ScanChange(RowsOf(a), RowsOf(b))
    ensures Quiet(b) && SameWorkBut(a, b, {})
  {
    assert forall id :: id in b.vms && Eligible(b.vms[id]) ==> id in a.vms && b.vms[id] == a.vms[id];
    assert forall id :: id in OpenWork(b) <==> id in OpenWork(a);
  }

  /** Only rows outside the open work were touched, and none was opened. */
  lemma SweepRowsKeepWork(a: Db, b: Db)
    requires Quiet(a) && b.vms == a.vms
    requires forall id :: id in OpenWork(a) ==> id in b.queue.rows && b.queue.rows[id] == a.queue.rows[id]
    requires forall id :: id in b.queue.rows ==> id in a.queue.rows && b.queue.rows[id].vm == a.queue.rows[id].vm
                                                 && (Settled(a.queue.rows[id]) ==> Settled(b.queue.rows[id]))
    ensures Quiet(b) && SameWorkBut(a, b, {})
  {
    assert forall id :: id in OpenWork(b) <==> id in OpenWork(a);
  }

  // ---- the size of a batch ----

  lemma {:induction false} HeadExists(db: Db, vm: int, ids: set<int>) returns (head: int)
    requires ids != {} && forall id :: id in ids ==> id in db.queue.rows && Open(db.queue.rows[id], vm)
    ensures head in ids && forall id :: id in ids ==> db.queue.rows[head].seqNo <= db.queue.rows[id].seqNo
    decreases |ids|
  {
    var one := Sets.Pick(ids);
    var rest := ids - {one};
    head := one;
    if rest != {} {
      var other := HeadExists(db, vm, rest);
      head := if db.queue.rows[other].seqNo < db.queue.rows[one].seqNo then other else one;
    }
    forall id | id in ids
      ensures db.queue.rows[head].seqNo <= db.queue.rows[id].seqNo
    {
      assert id == one || id in rest;
    }
  }

  function VmsOf(batch: seq<Item>): set<int> {
    set i | i in batch :: i.vmId
  }

  lemma {:induction false} VmsOfSize(batch: seq<Item>)
    requires forall j, k :: 0 <= j < k < |batch| ==> batch[j].vmId != batch[k].vmId
    ensures |VmsOf(batch)| == |batch|
    decreases |batch|
  {
    if batch == [] {
      assert VmsOf(batch) == {};
    } else {
      var init, last := batch[..|batch| - 1], batch[|batch| - 1];
      VmsOfSize(init);
      assert batch == init + [last];
      assert VmsOf(batch) == VmsOf(init) + {last.vmId};
      assert last.vmId !in VmsOf(init);
    }
  }

  lemma BusyHasHead(db: Db, vm: int, t: Time) returns (head: int)
    requires Quiet(db) && vm in BusyVms(db)
    ensures ReadyHead(db, head, t) && db.queue.rows[head].vm == vm
  {
    var ids := set id | id in db.queue.rows && Open(db.queue.rows[id], vm);
    var some :| some in OpenWork(db) && db.queue.rows[some].vm == vm;
    assert some in ids;
    head := HeadExists(db, vm, ids);
    forall j | j in db.queue.rows && db.queue.rows[j].vm == vm && db.queue.rows[j].seqNo < db.queue.rows[head].seqNo
      ensures Settled(db.queue.rows[j])
    {
      assert j !in ids;
    }
  }

  /** A batch takes one task of each busy VM, up to twenty. */
  lemma BatchSize(db: Db, batch: seq<Item>, t: Time)
    requires Quiet(db) && IsBatch(db, batch, t)
    ensures |batch| == if |BusyVms(db)| <= MAX_BATCH then |BusyVms(db)| else MAX_BATCH
  {
    hide BusyVms, Quiet, ReadyHead, VmsOf;
    VmsOfSize(batch);
    BatchIsBusy(db, batch, t);
    Sets.SubsetSize(VmsOf(batch), BusyVms(db));
    if |batch| < MAX_BATCH {
      BusyIsInBatch(db, batch, t);
      assert VmsOf(batch) == BusyVms(db);
    }
  }

  lemma BatchIsBusy(db: Db, batch: seq<Item>, t: Time)
    requires Quiet(db) && IsBatch(db, batch, t)
    ensures VmsOf(batch) <= BusyVms(db)
  {
    forall k | 0 <= k < |batch|
      ensures batch[k].vmId in BusyVms(db)
    {
      assert ReadyHead(db, batch[k].id, t);
      assert batch[k].id in OpenWork(db);
    }
  }

  lemma BusyIsInBatch(db: Db, batch: seq<Item>, t: Time)
    requires Quiet(db) && IsBatch(db, batch, t) && |batch| < MAX_BATCH
    ensures BusyVms(db) <= VmsOf(batch)
  {
    hide BusyVms, Quiet, LowerSettled, Ready;
    forall vm | vm in BusyVms(db)
      ensures vm in VmsOf(batch)
    {
      var head := BusyHasHead(db, vm, t);
      var k :| 0 <= k < |batch| && batch[k].id == head;
      assert batch[k] in batch && batch[k] == ItemOf(db, batch[k].id);
    }
  }

  lemma {:induction false} IdsSize(batch: seq<Item>)
    requires forall j, k :: 0 <= j < k < |batch| ==> batch[j].id != batch[k].id
    ensures |Ids(batch)| == |batch|
    decreases |batch|
  {
    if batch == [] {
      assert Ids(batch) == {};
    } else {
      var init, last := batch[..|batch| - 1], batch[|batch| - 1];
      IdsSize(init);
      assert batch == init + [last];
      assert Ids(batch) == Ids(init) + {last.id};
      assert last.id !in Ids(init);
    }
  }

  lemma BatchIsWorkable(db: Db, batch: seq<Item>, t: Time)
    requires Quiet(db) && IsBatch(db, batch, t)
    ensures Workable(db, batch) && Ids(batch) <= OpenWork(db)
    ensures forall j, k :: 0 <= j < k < |batch| ==> batch[j].id != batch[k].id
  {
    forall k | 0 <= k < |batch|
      ensures batch[k].id in OpenWork(db) && batch[k].vmId == db.queue.rows[batch[k].id].vm && batch[k].kind != Delete && !WantsDelete(batch[k].vm)
    {
      assert ReadyHead(db, batch[k].id, t);
    }
  }

  // ---- the steps of a batch ----

  lemma SelectKeepsGoing(c: Clockwork, w: World, batch: seq<Item>, t: Time)
    requires Going(w) && Enabled(w, Select(batch, t))
    ensures var w' := Step(c, w, Select(batch, t));
            && Workable(w'.db, Todo(w'.phase)) && w'.db == w.db && Todo(w'.phase) == batch && !InBody(w'.phase)
            && Ids(batch) <= OpenWork(w.db)
            && |Ids(batch)| == (if |BusyVms(w.db)| <= MAX_BATCH then |BusyVms(w.db)| else MAX_BATCH)
  {
    hide QueueInv;
    BatchIsWorkable(w.db, batch, t);
    BatchSize(w.db, batch, t);
    IdsSize(batch);
  }

  lemma TodoIds(w: World)
    requires QueueInv(w)
    ensures forall j, k :: 0 <= j < k < |Todo(w.phase)| ==> Todo(w.phase)[j].id != Todo(w.phase)[k].id
    ensures forall k :: 0 <= k < |Todo(w.phase)| ==> Todo(w.phase)[k].id in w.db.queue.rows && w.db.queue.rows[Todo(w.phase)[k].id].vm == Todo(w.phase)[k].vmId
  {
    forall k | 0 <= k < |Todo(w.phase)|
      ensures Claimed(w.db.queue.rows, Todo(w.phase)[k].id, Todo(w.phase)[k].vmId)
    {
    }
  }

  /** Marking an open task running changes its status and counters only. */
  lemma StartedWork(db: Db, id: int, t: Time)
    requires id in OpenWork(db)
    ensures SameWorkBut(db, Machine.Rows(db, MarkRunning(db.queue.rows, id, t)), {})
    ensures Quiet(db) ==> QuietBut(Machine.Rows(db, MarkRunning(db.queue.rows, id, t)), {id})
  {
    var b := Machine.Rows(db, MarkRunning(db.queue.rows, id, t));
    assert forall j :: j in OpenWork(b) <==> j in OpenWork(db);
  }

  lemma StartKeepsGoing(c: Clockwork, w: World, t: Time)
    requires Going(w) && Enabled(w, Start(t))
    ensures var w' := Step(c, w, Start(t));
            && QuietBut(w'.db, Current(w'.phase)) && Workable(w'.db, Todo(w'.phase)) && !w'.phase.Executed?
            && SameWorkBut(w.db, w'.db, {}) && Ids(Todo(w'.phase)) == Ids(Todo(w.phase))
  {
    hide LowerSettled, QuietBut, QueueInv, OpenWork, Ids, MarkRunning, RowsInv;
    var w' := Step(c, w, Start(t));
    var todo, todo' := Todo(w.phase), Todo(w'.phase);
    StartedWork(w.db, todo[0].id, t);
    assert forall k :: 0 <= k < |todo| ==> todo'[k].id == todo[k].id && todo'[k].kind == todo[k].kind && todo'[k].vm == todo[k].vm;
    SameIds(todo, todo');
  }

  lemma SameIds(a: seq<Item>, b: seq<Item>)
    requires |a| == |b| && forall k :: 0 <= k < |a| ==> a[k].id == b[k].id
    ensures Ids(a) == Ids(b)
  {
    forall id | id in Ids(a)
      ensures id in Ids(b)
    {
      var k :| 0 <= k < |a| && a[k].id == id;
      assert b[k] in b;
    }
    forall id | id in Ids(b)
      ensures id in Ids(a)
    {
      var k :| 0 <= k < |b| && b[k].id == id;
      assert a[k] in a;
    }
  }

  lemma {:induction false} PlainWrites(db: Db, vm: int, xs: seq<Write>, now: Time)
    requires forall x :: x in xs ==> x.WriteSynced? || x.WriteNode?
    ensures var db' := ApplyWrites(db, vm, xs, now);
            && db'.queue == db.queue && db'.vms.Keys == db.vms.Keys
            && (forall id :: id in db.vms ==> Eligible(db'.vms[id]) == Eligible(db.vms[id]) && (!WantsDelete(db.vms[id]) ==> !WantsDelete(db'.vms[id])))
    decreases |xs|
  {
    if xs != [] {
      assert xs[0] in xs && forall x :: x in xs[1..] ==> x in xs;
      PlainWrites(ApplyWrite(db, vm, xs[0], now), vm, xs[1..], now);
    }
  }

  lemma HealthyBody(item: Item, o: Outcome, t: Time)
    requires Healthy(o) && item.kind != Delete && !WantsDelete(item.vm)
    ensures Body(item, o, t).ok && forall x :: x in Body(item, o, t).writes ==> x.WriteSynced? || x.WriteNode?
  {
  }

  lemma ExecKeepsGoing(c: Clockwork, w: World, o: Outcome, t: Time)
    requires Going(w) && Enabled(w, Exec(o, t)) && Healthy(o)
    ensures var w' := Step(c, w, Exec(o, t));
            && QuietBut(w'.db, Current(w'.phase)) && Workable(w'.db, Todo(w'.phase)) && w'.phase.Executed? && w'.phase.ok
            && SameWorkBut(w.db, w'.db, {}) && Todo(w'.phase) == Todo(w.phase)
  {
    hide QueueInv, Body, ApplyWrites;
    var item := w.phase.item;
    assert Todo(w.phase)[0] == item;
    HealthyBody(item, o, t);
    PlainWrites(w.db, item.vmId, Body(item, o, t).writes, t);
    var w' := Step(c, w, Exec(o, t));
    assert forall id :: id in OpenWork(w'.db) <==> id in OpenWork(w.db);
  }

  lemma DoneKeepsGoing(c: Clockwork, w: World, t: Time)
    requires Going(w) && Enabled(w, FinishDone(t)) && w.phase.Executed?
    ensures var w' := Step(c, w, FinishDone(t));
            && QuietBut(w'.db, Current(w'.phase)) && Workable(w'.db, Todo(w'.phase)) && !InBody(w'.phase)
            && SameWorkBut(w.db, w'.db, {w.phase.item.id}) && w.phase.item.id in OpenWork(w.db)
            && Ids(Todo(w.phase)) == {w.phase.item.id} + Ids(Todo(w'.phase))
  {
    hide LowerSettled, QueueInv, OpenWork, Workable, Ids, QuietBut, SameWorkBut;
    TodoIds(w);
    DoneLeavesRest(w.db, w.phase.item, w.phase.rest);
    DoneDrops(w.db, w.phase.item.id, t);
    RestStaysWorkable(w.db, Step(c, w, FinishDone(t)).db, w.phase.item, w.phase.rest);
    assert Todo(Step(c, w, FinishDone(t)).phase) == w.phase.rest;
  }

  lemma DoneLeavesRest(db: Db, item: Item, rest: seq<Item>)
    requires Workable(db, [item] + rest) && forall j, k :: 0 <= j < k < |[item] + rest| ==> ([item] + rest)[j].id != ([item] + rest)[k].id
    ensures item.id in OpenWork(db) && Workable(db, rest) && Ids([item] + rest) == {item.id} + Ids(rest)
    ensures forall k :: 0 <= k < |rest| ==> rest[k].id != item.id
  {
    var todo := [item] + rest;
    assert todo[0] == item;
    assert forall k :: 0 <= k < |rest| ==> rest[k] == todo[k + 1];
  }

  lemma RestStaysWorkable(a: Db, b: Db, item: Item, rest: seq<Item>)
    requires Workable(a, rest) && SameWorkBut(a, b, {item.id}) && forall k :: 0 <= k < |rest| ==> rest[k].id != item.id
    ensures Workable(b, rest)
  {
  }

  /** A task marked done leaves the open work, and nothing else does. */
  lemma DoneDrops(db: Db, id: int, t: Time)
    requires QuietBut(db, {id}) && id in OpenWork(db)
    ensures var db' := Machine.Rows(db, MarkDone(db.queue.rows, id, t)); Quiet(db') && SameWorkBut(db, db', {id})
  {
    var db' := Machine.Rows(db, MarkDone(db.queue.rows, id, t));
    assert forall j :: j in OpenWork(db') <==> j in OpenWork(db) && j != id;
  }

  // ---- one event ----

  predicate IsSelect(e: Event) {
    e.Work? && e.action.Select?
  }

  predicate IsDone(e: Event) {
    e.Work? && e.action.FinishDone?
  }

  /** The task an event completes. */
  function Completes(w: World, e: Event): set<int> {
    if IsDone(e) && InBody(w.phase) then {w.phase.item.id} else {}
  }

  lemma SmoothIsOneOf(e: Event)
    requires Smooth(e)
    ensures IsSweep(e) || IsSelect(e) || IsDone(e) || (e.Work? && (e.action.Start? || (e.action.Exec? && Healthy(e.action.outcome))))
  {
  }

  /** What the open work loses and what the batch claims, event by event. */
  lemma SmoothStep(cfg: Config, c: Clockwork, w: World, e: Event)
    requires Going(w) && MayHappen(cfg, c, w, e) && Smooth(e)
    ensures var w' := React(cfg, c, w, e);
            && Going(w') && SameWorkBut(w.db, w'.db, Completes(w, e))
            && (!IsSelect(e) ==> Unclaimed(w') == Unclaimed(w))
            && (IsSelect(e) ==>
                  && w.phase == Idle && Unclaimed(w') == OpenWork(w.db) - Ids(e.action.batch) && Ids(e.action.batch) <= OpenWork(w.db)
                  && |Ids(e.action.batch)| == (if |BusyVms(w.db)| <= MAX_BATCH then |BusyVms(w.db)| else MAX_BATCH))
            && (w.phase == Idle && !IsSelect(e) ==> w'.phase == Idle)
  {
    hide QueueInv, RowsInv, QuietBut, Workable, OpenWork, Smooth;
    var w' := React(cfg, c, w, e);
    KeepsShape(cfg, c, w, e);
    SmoothIsOneOf(e);
    if IsSweep(e) {
      SweepKeepsWork(cfg, c, w, e);
      NothingTodo(w');
    } else if e.action.Select? {
      SelectKeepsGoing(c, w, e.action.batch, e.action.now);
    } else if e.action.Start? {
      StartKeepsGoing(c, w, e.action.now);
    } else if e.action.Exec? {
      ExecKeepsGoing(c, w, e.action.outcome, e.action.now);
    } else {
      DoneKeepsGoing(c, w, e.action.now);
    }
  }

  lemma NothingTodo(w: World)
    requires w.phase == Idle
    ensures Workable(w.db, Todo(w.phase)) && Current(w.phase) == {}
  {
  }

  lemma KeepsShape(cfg: Config, c: Clockwork, w: World, e: Event)
    requires QueueInv(w) && RowsInv(w.db) && MayHappen(cfg, c, w, e)
    ensures QueueInv(React(cfg, c, w, e)) && RowsInv(React(cfg, c, w, e).db)
  {
    hide QueueInv, RowsInv, Step;
    EventKeepsRows(cfg, c, w, e);
    StepKeepsQueueInv(c, w, ActionOf(cfg, w.db, e));
  }

  // ---- main results ----

  function Selects(es: seq<Event>): nat
    decreases |es|
  {
    if es == [] then 0 else Selects(es[..|es| - 1]) + (if IsSelect(es[|es| - 1]) then 1 else 0)
  }

  /** The tasks completed, as VM and place in its queue. */
  ghost function Completions(cfg: Config, c: Clockwork, w: World, es: seq<Event>): seq<(int, int)>
    requires ValidHistory(cfg, c, w, es)
    decreases |es|
  {
    if es == [] then []
    else
      var before := es[..|es| - 1];
      var w1 := History(cfg, c, w, before);
      Completions(cfg, c, w, before) +
      (if IsDone(es[|es| - 1]) && w1.phase.item.id in w1.db.queue.rows
       then [(w1.phase.item.vmId, w1.db.queue.rows[w1.phase.item.id].seqNo)] else [])
  }

  ghost predicate Ascending(done: seq<(int, int)>) {
    forall i, j :: 0 <= i < j < |done| && done[i].0 == done[j].0 ==> done[i].1 < done[j].1
  }

  /** Everything open of a VM comes after everything completed of it. */
  ghost predicate AllPast(done: seq<(int, int)>, db: Db) {
    forall i, id :: 0 <= i < |done| && id in OpenWork(db) && db.queue.rows[id].vm == done[i].0 ==> done[i].1 < db.queue.rows[id].seqNo
  }

  lemma CompletionIsNext(w: World, done: seq<(int, int)>)
    requires Going(w) && InBody(w.phase) && Ascending(done) && AllPast(done, w.db)
    ensures var id := w.phase.item.id;
            && id in w.db.queue.rows && w.phase.item.vmId == w.db.queue.rows[id].vm
            && Ascending(done + [(w.phase.item.vmId, w.db.queue.rows[id].seqNo)])
            && forall j :: j in OpenWork(w.db) && j != id && w.db.queue.rows[j].vm == w.phase.item.vmId ==> w.db.queue.rows[id].seqNo < w.db.queue.rows[j].seqNo
  {
    var item := w.phase.item;
    assert Todo(w.phase)[0] == item && Claimed(w.db.queue.rows, item.id, item.vmId);
    assert item.id in OpenWork(w.db);
  }

  /** In an undisturbed, healthy run every VM's tasks complete in the order of its queue, exactly the completed tasks leave
      the open work, and k selects leave at most k tasks fewer than there were. */
  lemma {:induction false} SmoothRun(cfg: Config, c: Clockwork, w: World, es: seq<Event>)
    requires Going(w) && ValidHistory(cfg, c, w, es) && AllSmooth(es)
    ensures var w' := History(cfg, c, w, es);
            var done := Completions(cfg, c, w, es);
            && Going(w') && Ascending(done) && AllPast(done, w'.db)
            && |OpenWork(w'.db)| + |done| == |OpenWork(w.db)|
            && |Unclaimed(w')| <= (if |Unclaimed(w)| <= Selects(es) then 0 else |Unclaimed(w)| - Selects(es))
    decreases |es|
  {
    hide Going, Unclaimed;
    var w' := History(cfg, c, w, es);
    if es != [] {
      var before, e := es[..|es| - 1], es[|es| - 1];
      SmoothRun(cfg, c, w, before);
      var w1 := History(cfg, c, w, before);
      SmoothStep(cfg, c, w1, e);
      StepCompletes(cfg, c, w1, e, Completions(cfg, c, w, before));
      StepClaims(cfg, c, w1, e);
    }
  }

  lemma StepCompletes(cfg: Config, c: Clockwork, w: World, e: Event, done: seq<(int, int)>)
    requires Going(w) && MayHappen(cfg, c, w, e) && Smooth(e) && Ascending(done) && AllPast(done, w.db)
    ensures var w' := React(cfg, c, w, e);
            var next := done + (if IsDone(e) && w.phase.item.id in w.db.queue.rows then [(w.phase.item.vmId, w.db.queue.rows[w.phase.item.id].seqNo)] else []);
            && Ascending(next) && AllPast(next, w'.db) && |OpenWork(w'.db)| + |next| == |OpenWork(w.db)| + |done|
  {
    hide QueueInv, RowsInv, QuietBut, OpenWork, Step, Smooth;
    SmoothStep(cfg, c, w, e);
    var db' := React(cfg, c, w, e).db;
    if IsDone(e) {
      CompletionIsNext(w, done);
      assert Todo(w.phase)[0] == w.phase.item;
      Sets.SubsetSize({w.phase.item.id}, OpenWork(w.db));
      PastGrows(done, w.db, db', w.phase.item.id, w.phase.item.vmId);
    } else {
      assert done + [] == done;
    }
  }

  lemma PastGrows(done: seq<(int, int)>, a: Db, b: Db, id: int, vm: int)
    requires AllPast(done, a) && SameWorkBut(a, b, {id}) && id in a.queue.rows
    requires forall j :: j in OpenWork(a) && j != id && a.queue.rows[j].vm == vm ==> a.queue.rows[id].seqNo < a.queue.rows[j].seqNo
    ensures AllPast(done + [(vm, a.queue.rows[id].seqNo)], b)
  {
  }

  lemma StepClaims(cfg: Config, c: Clockwork, w: World, e: Event)
    requires Going(w) && MayHappen(cfg, c, w, e) && Smooth(e)
    ensures var left := |Unclaimed(w)|;
            |Unclaimed(React(cfg, c, w, e))| <= if !IsSelect(e) then left else if left == 0 then 0 else left - 1
  {
    hide QueueInv, RowsInv, QuietBut, OpenWork, BusyVms, Smooth, Step, Workable;
    SmoothStep(cfg, c, w, e);
    if IsSelect(e) {
      assert Unclaimed(w) == OpenWork(w.db);
      Sets.SubsetSize(Ids(e.action.batch), OpenWork(w.db));
      WorkIsBusy(w.db);
    }
  }

  lemma WorkIsBusy(db: Db)
    ensures OpenWork(db) != {} ==> |BusyVms(db)| >= 1
  {
    if OpenWork(db) != {} {
      var id := Sets.Pick(OpenWork(db));
      assert db.queue.rows[id].vm in BusyVms(db);
      Sets.SubsetSize({db.queue.rows[id].vm}, BusyVms(db));
    }
  }

  /** K open tasks are gone after at most K healthy cycles of the whole of syncOnce, in any mixture of its steps, without
      new requests; each VM's tasks complete in order. */
  lemma QueueDrains(cfg: Config, c: Clockwork, w: World, es: seq<Event>)
    requires QueueInv(w) && RowsInv(w.db) && Quiet(w.db) && w.phase == Idle
    requires ValidHistory(cfg, c, w, es) && AllSmooth(es) && History(cfg, c, w, es).phase == Idle
    ensures var w' := History(cfg, c, w, es);
            && Quiet(w'.db)
            && |OpenWork(w'.db)| <= (if |OpenWork(w.db)| <= Selects(es) then 0 else |OpenWork(w.db)| - Selects(es))
            && |Completions(cfg, c, w, es)| == |OpenWork(w.db)| - |OpenWork(w'.db)|
            && Ascending(Completions(cfg, c, w, es))
  {
    hide Going, Unclaimed, QueueInv, RowsInv, Quiet, OpenWork, Completions;
    IdleIsGoing(w);
    SmoothRun(cfg, c, w, es);
    GoingIsQuiet(History(cfg, c, w, es));
  }

  lemma IdleIsGoing(w: World)
    requires QueueInv(w) && RowsInv(w.db) && Quiet(w.db) && w.phase == Idle
    ensures Going(w) && Unclaimed(w) == OpenWork(w.db)
  {
  }

  lemma GoingIsQuiet(w: World)
    requires Going(w) && w.phase == Idle
    ensures Quiet(w.db) && Unclaimed(w) == OpenWork(w.db)
  {
  }

  /** Until the select the open work is untouched, and it claims one task of every busy VM, twenty at most. */
  lemma {:induction false} OneSelect(cfg: Config, c: Clockwork, w: World, es: seq<Event>)
    requires Going(w) && w.phase == Idle && ValidHistory(cfg, c, w, es) && AllSmooth(es) && Selects(es) <= 1
    ensures var w' := History(cfg, c, w, es);
            && Going(w')
            && (Selects(es) == 0 ==> w'.phase == Idle && SameWorkBut(w.db, w'.db, {}))
            && (Selects(es) == 1 ==>
                  |Unclaimed(w')| == |OpenWork(w.db)| - (if |BusyVms(w.db)| <= MAX_BATCH then |BusyVms(w.db)| else MAX_BATCH))
    decreases |es|
  {
    hide Going, Unclaimed, OpenWork, BusyVms, SameWorkBut, Smooth, Step;
    if es == [] {
      SameWork(w.db);
    } else {
      var before, e := es[..|es| - 1], es[|es| - 1];
      OneSelect(cfg, c, w, before);
      var w1 := History(cfg, c, w, before);
      SmoothStep(cfg, c, w1, e);
      if Selects(before) == 0 {
        SameWorkSameBusy(w.db, w1.db);
        if IsSelect(e) {
          Sets.SubsetSize(Ids(e.action.batch), OpenWork(w1.db));
        } else {
          SweepOnly(cfg, c, w1, e);
          SameWorkAgain(w.db, w1.db, React(cfg, c, w1, e).db);
        }
      }
    }
  }

  lemma SameWork(db: Db)
    ensures SameWorkBut(db, db, {})
  {
  }

  lemma SameWorkAgain(a: Db, b: Db, d: Db)
    requires SameWorkBut(a, b, {}) && SameWorkBut(b, d, {})
    ensures SameWorkBut(a, d, {})
  {
  }

  lemma SweepOnly(cfg: Config, c: Clockwork, w: World, e: Event)
    requires w.phase == Idle && MayHappen(cfg, c, w, e)
    ensures Completes(w, e) == {}
  {
  }

  /** One healthy cycle, whatever its other steps: the state is quiet again, and exactly one task of every busy VM, twenty at
      most, has been completed. */
  lemma CycleCompletesBatch(cfg: Config, c: Clockwork, w: World, es: seq<Event>)
    requires QueueInv(w) && RowsInv(w.db) && Quiet(w.db) && w.phase == Idle
    requires ValidHistory(cfg, c, w, es) && AllSmooth(es) && Selects(es) == 1 && History(cfg, c, w, es).phase == Idle
    ensures var w' := History(cfg, c, w, es);
            var busy := |BusyVms(w.db)|;
            && Quiet(w'.db)
            && |Completions(cfg, c, w, es)| == (if busy <= MAX_BATCH then busy else MAX_BATCH)
            && |OpenWork(w'.db)| == |OpenWork(w.db)| - |Completions(cfg, c, w, es)|
  {
    hide Going, Unclaimed, QueueInv, RowsInv, Quiet, OpenWork, BusyVms, Completions;
    IdleIsGoing(w);
    SmoothRun(cfg, c, w, es);
    OneSelect(cfg, c, w, es);
    GoingIsQuiet(History(cfg, c, w, es));
  }

  // ---- splitting a history ----

  lemma {:induction false} HistoryFrom(cfg: Config, c: Clockwork, w: World, es: seq<Event>, fs: seq<Event>)
    requires ValidHistory(cfg, c, w, es + fs)
    ensures ValidHistory(cfg, c, w, es) && ValidHistory(cfg, c, History(cfg, c, w, es), fs)
    ensures History(cfg, c, History(cfg, c, w, es), fs) == History(cfg, c, w, es + fs)
    decreases |fs|
  {
    if fs == [] {
      assert es + fs == es;
    } else {
      assert (es + fs)[..|es + fs| - 1] == es + fs[..|fs| - 1];
      HistoryFrom(cfg, c, w, es, fs[..|fs| - 1]);
    }
  }

  lemma {:induction false} SelectsAdd(es: seq<Event>, fs: seq<Event>)
    ensures Selects(es + fs) == Selects(es) + Selects(fs)
    decreases |fs|
  {
    if fs == [] {
      assert es + fs == es;
    } else {
      assert (es + fs)[..|es + fs| - 1] == es + fs[..|fs| - 1];
      SelectsAdd(es, fs[..|fs| - 1]);
    }
  }
}
