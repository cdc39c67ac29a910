/** The database as both programs share it: the tables, and the history of what was done to them. */
module Store {
  import opened Records
  import opened TaskQueue
  import opened Machine
  import opened Handlers
  import opened Serial
  import Inventory
  import DeleteProtocol
  import Tenancy
  import QueueOrder
  import Expiry
  import Statements

  const NEW_INSTALLATION := DeleteProtocol.NEW_INSTALLATION

  lemma Extend(cfg: Config, c: Clockwork, es: seq<Event>, e: Event)
    requires ValidHistory(cfg, c, NEW_INSTALLATION, es) && MayHappen(cfg, c, History(cfg, c, NEW_INSTALLATION, es), e)
    ensures ValidHistory(cfg, c, NEW_INSTALLATION, es + [e])
    ensures History(cfg, c, NEW_INSTALLATION, es + [e]) == React(cfg, c, History(cfg, c, NEW_INSTALLATION, es), e)
  {
    assert (es + [e])[..|es + [e]| - 1] == es;
  }

  /** `vms`, `vm_tasks` and `security_groups` with their id counters. `history` lists every event since the installation;
      `Valid` says that it is a serial run and that it ends in the present state. So whatever is proved of all serial runs
      holds of the tables at every moment, and a method that keeps `Valid` does nothing a serial run may not do. */
  class Database {
    const cfg: Config
    const clockwork: Clockwork
    var vms: map<int, Vm>
    var nextVm: nat
    var rows: map<int, Task>
    var nextTask: int
    var groups: set<Group>
    ghost var phase: Phase
    ghost var clock: Time
    ghost var history: seq<Event>

    function Contents(): Db
      reads this
    {
      Db(vms, nextVm, Queue(rows, nextTask), groups)
    }

    ghost function State(): World
      reads this
    {
      World(Contents(), phase, clock)
    }

    ghost predicate Valid()
      reads this
    {
      ValidHistory(cfg, clockwork, NEW_INSTALLATION, history) && History(cfg, clockwork, NEW_INSTALLATION, history) == State()
    }

    constructor (cfg: Config, clockwork: Clockwork)
      ensures Valid() && history == [] && State() == NEW_INSTALLATION
      ensures this.cfg == cfg && this.clockwork == clockwork
    {
      this.cfg, this.clockwork := cfg, clockwork;
      vms, nextVm, rows, nextTask, groups := map[], 1, map[], 1, {};
      phase, clock, history := Idle, 0, [];
    }

    /** Enters an event into the history, after the tables have been changed accordingly. */
    ghost method Record(before: World, e: Event)
      requires ValidHistory(cfg, clockwork, NEW_INSTALLATION, history) && History(cfg, clockwork, NEW_INSTALLATION, history) == before
      requires MayHappen(cfg, clockwork, before, e) && Contents() == React(cfg, clockwork, before, e).db
      modifies this`phase, this`clock, this`history
      ensures Valid() && history == old(history) + [e] && State() == React(cfg, clockwork, before, e)
    {
      Extend(cfg, clockwork, history, e);
      var after := React(cfg, clockwork, before, e);
      phase, clock, history := after.phase, after.clock, history + [e];
    }

    /** queueVMTaskTx, queueVMTaskConn and queueVMTask */
    method QueueVmTask(vm: int, kind: Kind, payload: Payload, now: Time)
      modifies this`rows, this`nextTask
      ensures Contents() == old(Contents()).(queue := Enqueue(old(Contents()).queue, vm, kind, payload, now))
      ensures Statements.Appended(old(Contents()).queue, Contents().queue, vm, kind, payload, now)
    {
      Statements.EnqueueMeans(Contents().queue, vm, kind, payload, now);
      var nextSeq := NextSeq(rows, vm);
      rows := rows[nextTask := Task(vm, nextSeq, kind, payload, Pending, 0, now, None, None)];
      nextTask := nextTask + 1;
    }
  }

  // ---- what holds of the tables at every moment ----

  /** Row ids come from the counters and the unique indexes hold. */
  ghost predicate Sound(w: World) {
    && Inventory.RowIdsBelow(RowsOf(w.db)) && Inventory.UniqueActive(w.db.vms)
    && QueueOrder.QueueInv(w) && Expiry.LiveInv(w)
  }

  lemma HistoryIsSound(cfg: Config, c: Clockwork, es: seq<Event>)
    requires ValidHistory(cfg, c, NEW_INSTALLATION, es)
    ensures Sound(History(cfg, c, NEW_INSTALLATION, es))
  {
    Tenancy.VmidsStayUnique(cfg, c, es);
    Expiry.AtMostOneLiveDelete(cfg, c, es);
    HistoryIsRun(cfg, c, NEW_INSTALLATION, es);
    QueueOrder.RunKeepsQueueInv(c, NEW_INSTALLATION, Actions(cfg, c, NEW_INSTALLATION, es));
  }

  /** The invariants of all serial runs, for the tables of a valid database. */
  lemma ValidIsSound(db: Database)
    requires db.Valid()
    ensures Sound(db.State())
  {
    HistoryIsSound(db.cfg, db.clockwork, db.history);
  }

  lemma ValidIdsBelow(db: Database)
    requires db.Valid()
    ensures QueueOrder.IdsBelow(db.Contents().queue)
    ensures Inventory.RowIdsBelow(RowsOf(db.Contents()))
  {
    ValidIsSound(db);
  }

  lemma ValidRows(db: Database)
    requires db.Valid()
    ensures Tenancy.RowsInv(db.Contents())
  {
    ValidIsSound(db);
  }

  lemma ValidSeqUnique(db: Database)
    requires db.Valid()
    ensures QueueOrder.SeqUnique(db.Contents().queue.rows)
  {
    ValidIsSound(db);
  }

  lemma ValidOneLiveDelete(db: Database)
    requires db.Valid()
    ensures DeleteProtocol.OneLiveDelete(db.Contents().queue.rows)
  {
    ValidIsSound(db);
  }
}
