/** The coarser grain: requests and scans fall between whole worker cycles, and a task body runs in one piece.
    Every serial run is also a run of the fine-grained machine, so its invariants carry over. */
module Serial {
  import opened Records
  import opened TaskQueue
  import opened Machine
  import opened Handlers
  import Inventory

  datatype Event =
    | Req(request: Request, now: Time)
    | ScanOf(cluster: string, found: seq<Inventory.Resource>, swept: set<int>, now: Time)
    | Work(action: Action)

  function RowsOf(db: Db): Inventory.Rows {
    Inventory.Rows(db.vms, db.nextVm)
  }

  /** A row of ensureExpiredDeleteTasks' query. */
  predicate Expired(c: Clockwork, db: Db, id: int, now: Time) {
    && id in db.vms
    && var vm := db.vms[id];
    && Eligible(vm) && vm.requestedAt.Some? && vm.executeAfter.Some? && c.le(vm.executeAfter.value, now)
    && !HasLiveDelete(db.queue.rows, id)
  }

  predicate LiveDelete(t: Task, vm: int) {
    t.vm == vm && t.kind == Delete && (t.status == Pending || t.status == Running || t.status == Failed)
  }

  predicate HasLiveDelete(rows: map<int, Task>, vm: int) {
    exists id :: id in rows && LiveDelete(rows[id], vm)
  }

  ghost predicate MayHappen(cfg: Config, c: Clockwork, w: World, e: Event) {
    match e
    case Req(r, now) => w.phase.Idle? && w.clock <= now && Handle(cfg, w.db, r, now).Ok?
    case ScanOf(_, _, _, now) => w.phase.Idle? && w.clock <= now
    case Work(a) =>
      && Enabled(w, a)
      && !a.Api? && !a.RowWrite? && !a.Scan?
      && (a.QueueExpired? ==> a.asOf <= a.now && Expired(c, w.db, a.vm, a.asOf))
      && (a.FinishDone? ==> w.phase.Executed? && w.phase.ok)
      && (a.FinishFailed? || a.FinishLost? ==> w.phase.Executed?)
  }

  function ActionOf(cfg: Config, db: Db, e: Event): Action
    requires e.Req? ==> Handle(cfg, db, e.request, e.now).Ok?
  {
    match e
    case Req(r, now) => Api(Handle(cfg, db, r, now).value, now)
    case ScanOf(cluster, found, swept, now) =>
      var rows := Inventory.ScanPart(RowsOf(db), cluster, found, swept, now);
      Scan(rows.vms, rows.next, now)
    case Work(a) => a
  }

  function React(cfg: Config, c: Clockwork, w: World, e: Event): World
    requires MayHappen(cfg, c, w, e)
  {
    Step(c, w, ActionOf(cfg, w.db, e))
  }

  ghost predicate ValidHistory(cfg: Config, c: Clockwork, w: World, es: seq<Event>)
    decreases |es|, 0
  {
    es == [] || (ValidHistory(cfg, c, w, es[..|es| - 1]) && MayHappen(cfg, c, History(cfg, c, w, es[..|es| - 1]), es[|es| - 1]))
  }

  ghost function History(cfg: Config, c: Clockwork, w: World, es: seq<Event>): World
    requires ValidHistory(cfg, c, w, es)
    decreases |es|, 1
  {
    if es == [] then w else React(cfg, c, History(cfg, c, w, es[..|es| - 1]), es[|es| - 1])
  }

  ghost function Actions(cfg: Config, c: Clockwork, w: World, es: seq<Event>): seq<Action>
    requires ValidHistory(cfg, c, w, es)
    decreases |es|
  {
    if es == [] then []
    else
      var before := es[..|es| - 1];
      Actions(cfg, c, w, before) + [ActionOf(cfg, History(cfg, c, w, before).db, es[|es| - 1])]
  }

  /** A serial run is a run. */
  lemma {:induction false} HistoryIsRun(cfg: Config, c: Clockwork, w: World, es: seq<Event>)
    requires ValidHistory(cfg, c, w, es)
    ensures ValidRun(c, w, Actions(cfg, c, w, es))
    ensures Run(c, w, Actions(cfg, c, w, es)) == History(cfg, c, w, es)
    decreases |es|
  {
    if es != [] {
      var before := es[..|es| - 1];
      HistoryIsRun(cfg, c, w, before);
      var run := Actions(cfg, c, w, es);
      assert run[..|run| - 1] == Actions(cfg, c, w, before);
    }
  }
}
