/** Each shortfall of the code at a real input: a run from a new installation that gets there. */
module Shortfalls {
  import opened Records
  import opened TaskQueue
  import opened Machine
  import opened Handlers
  import opened Serial
  import opened DeleteProtocol
  import opened Allocation
  import Addressing
  import Effects
  import Inventory
  import QueueOrder
  import Quotas
  import Restore
  import Store
  import Tenancy

  const START_IP: Ip4 := [10, 0, 0, 10]
  const CLUSTER := Cluster(100, 10, map["k" := CpuClass(8, 32, [])], map["s" := 100], map["b" := Bridge(Some(START_IP), 24)])

  /** Two users who may have one VM each, and one who may have two with four cores together. */
  const CFG := Config(map["c" := CLUSTER],
                      map["u" := Quota(1, 8, 32, 100, 1), "v" := Quota(1, 8, 32, 100, 1), "x" := Quota(2, 4, 32, 100, 1)])

  const U := Actor("u", false)

  function Wants(user: string): Request {
    CreateVm(user, "c", "k", "s", "b", "g", 1, 1, 20, PowerOn, Some("n"), true)
  }

  // ---- one accepted request after another ----

  /** A run, where it ends, and what has held of it all along. */
  ghost predicate At(c: Clockwork, es: seq<Event>, w: World) {
    && ValidHistory(CFG, c, NEW_INSTALLATION, es) && LeakFree(CFG, c, NEW_INSTALLATION, es) && Quotas.AllChecked(CFG, c, es)
    && History(CFG, c, NEW_INSTALLATION, es) == w
  }

  lemma Begin(c: Clockwork)
    ensures At(c, [], NEW_INSTALLATION)
  {
  }

  lemma Then(c: Clockwork, es: seq<Event>, w: World, e: Event)
    requires At(c, es, w) && MayHappen(CFG, c, w, e) && !Quotas.Unchecked(w.db, e) && !(e.Req? && e.request.RestoreVm?)
    ensures At(c, es + [e], React(CFG, c, w, e))
  {
    assert (es + [e])[..|es + [e]| - 1] == es;
  }

  /** What every reachable database satisfies. */
  lemma Reached(c: Clockwork, es: seq<Event>, w: World)
    requires At(c, es, w)
    ensures Tenancy.RowsInv(w.db) && QueueOrder.IdsBelow(w.db.queue) && Quotas.QuotaInv(CFG, w.db) && ProtocolInv(w)
  {
    Store.HistoryIsSound(CFG, c, es);
    HistoryKeeps(CFG, c, es);
    Quotas.UsersStayWithinQuota(CFG, c, es);
  }

  // ---- accepted creations ----

  /** `user` has the group "g", uses nothing yet, and the first VMIDs of the window are those in use. */
  ghost predicate RoomFor(db: Db, user: string) {
    && user in CFG.quotas && Group(user, "g") in db.groups && UserUsage(db, user) == NO_USAGE
    && exists n :: 100 <= n < 110 && n !in UsedVmids(db, "c")
  }

  lemma CreationAccepted(db: Db, user: string)
    requires RoomFor(db, user)
    ensures HandleCreate(CFG, db, Wants(user)).Ok?
  {
    RefusesNothing(db, user);
    Allocates(db, Wants(user));
  }

  /** What is not refused is accepted while there is a VMID, since every address of the window exists. */
  lemma Allocates(db: Db, r: Request)
    requires r.CreateVm? && r.cluster == "c" && r.bridgeKey == "b" && CreateRefusal(CFG, db, r) == None
    requires exists n :: 100 <= n < 110 && n !in UsedVmids(db, "c")
    ensures HandleCreate(CFG, db, r).Ok?
  {
    hide CreateRefusal;
    var n :| 100 <= n < 110 && n !in UsedVmids(db, "c");
    FirstFreeIsLeast(UsedVmids(db, "c"), 100, 110);
    var vmid := NextVmid(db, "c", 100, 10);
    AddressFits(vmid.value);
  }

  lemma RefusesNothing(db: Db, user: string)
    requires user in CFG.quotas && Group(user, "g") in db.groups && UserUsage(db, user) == NO_USAGE
    ensures CreateRefusal(CFG, db, Wants(user)) == None
  {
    hide UsageBelow;
  }

  lemma AddressFits(vmid: int)
    requires 100 <= vmid < 110
    ensures Addressing.DeriveIPv4(CLUSTER, "b", vmid).Ok?
  {
    assert Addressing.Value(START_IP) == 0x0A00_000A by {
      assert Addressing.Pow256(1) == 256 && Addressing.Pow256(2) == 0x1_0000 && Addressing.Pow256(3) == 0x100_0000;
      assert Addressing.Tail(START_IP, 3) == 10 && Addressing.Tail(START_IP, 2) == 10 && Addressing.Tail(START_IP, 1) == 10;
    }
  }

  /** The world after an accepted request at time 0. */
  ghost function After(c: Clockwork, w: World, r: Request): World
    requires w.phase == Idle && w.clock <= 0 && Handle(CFG, w.db, r, 0).Ok?
  {
    World(Commit(w.db, Handle(CFG, w.db, r, 0).value, 0), Idle, 0)
  }

  lemma AfterIsReact(c: Clockwork, w: World, r: Request)
    requires w.phase == Idle && w.clock <= 0 && Handle(CFG, w.db, r, 0).Ok?
    ensures MayHappen(CFG, c, w, Req(r, 0)) && React(CFG, c, w, Req(r, 0)) == After(c, w, r)
  {
  }

  /** `user` creates the group "g". */
  lemma WithGroup(c: Clockwork, es: seq<Event>, w: World, user: string) returns (es': seq<Event>, w': World)
    requires At(c, es, w) && w.phase == Idle && w.clock <= 0 && user in CFG.quotas && OwnedGroups(w.db, user) == {}
    ensures At(c, es', w') && w' == World(w.db.(groups := w.db.groups + {Group(user, "g")}), Idle, 0)
  {
    hide At;
    var r := CreateGroup(user, "g");
    assert Group(user, "g") in w.db.groups ==> Group(user, "g") in OwnedGroups(w.db, user);
    AfterIsReact(c, w, r);
    Then(c, es, w, Req(r, 0));
    es', w' := es + [Req(r, 0)], After(c, w, r);
  }

  /** `user` creates a VM. */
  lemma WithVm(c: Clockwork, es: seq<Event>, w: World, user: string) returns (es': seq<Event>, w': World)
    requires At(c, es, w) && w.phase == Idle && w.clock <= 0 && RoomFor(w.db, user)
    ensures At(c, es', w') && w'.phase == Idle && w'.clock == 0
    ensures Effects.CreatedVm(CFG, w.db, w'.db, Wants(user))
  {
    hide At, RoomFor, CreateRefusal, CreatedRow, Effects.CreatedVm;
    var r := Wants(user);
    Reached(c, es, w);
    CreationAccepted(w.db, user);
    AfterIsReact(c, w, r);
    Then(c, es, w, Req(r, 0));
    es', w' := es + [Req(r, 0)], After(c, w, r);
    Effects.CreateEffect(CFG, w.db, r, 0);
  }

  /** A user's first VM, as created. */
  ghost predicate FirstRow(v: Vm, user: string) {
    && v.owner == user && v.cluster == "c" && v.cpuKey == "k" && v.storageKey == "s" && v.group == "g"
    && v.cores == 1 && v.memory == 1 && v.disk == 20 && Eligible(v) && !v.exempt && v.sync == SyncPending && v.requestedAt == None
    && v.vmid == 100
  }

  lemma FirstRowOf(a: Db, b: Db, user: string)
    requires a.vms == map[] && a.nextVm == 1 && Effects.CreatedVm(CFG, a, b, Wants(user))
    ensures b.vms.Keys == {1} && b.nextVm == 2 && b.groups == a.groups && FirstRow(b.vms[1], user)
  {
    hide Effects.Joins, UsageBelow;
    assert UsedVmids(a, "c") == {};
    UsedIsTaken(a, "c");
    assert b.vms[1].vmid > 100 ==> 100 in UsedVmids(a, "c");
    assert forall id :: id in b.vms <==> id == 1;
  }

  /** The first user's group and VM. */
  lemma FirstVm(c: Clockwork) returns (es: seq<Event>, w: World)
    ensures At(c, es, w) && w.phase == Idle && w.clock == 0
    ensures w.db.vms.Keys == {1} && w.db.nextVm == 2 && w.db.groups == {Group("u", "g")} && FirstRow(w.db.vms[1], "u")
  {
    hide At, FirstRow, Effects.CreatedVm, CreateRefusal;
    Begin(c);
    var es0, w0 := WithGroup(c, [], NEW_INSTALLATION, "u");
    assert UsageBelow(map[], "u", 0) == NO_USAGE;
    assert 100 !in UsedVmids(w0.db, "c");
    es, w := WithVm(c, es0, w0, "u");
    FirstRowOf(w0.db, w.db, "u");
  }

  lemma UsesNothing(vms: map<int, Vm>, user: string)
    requires 0 !in vms && 1 in vms && !CountsFor(vms[1], user)
    ensures UsageBelow(vms, user, 2) == NO_USAGE
  {
    assert UsageBelow(vms, user, 0) == NO_USAGE;
    assert UsageBelow(vms, user, 1) == NO_USAGE;
  }

  // ---- a leaking state ----

  ghost predicate DeleteWaits(db: Db, id: int) {
    && 1 in db.vms && Eligible(db.vms[1]) && db.vms.Keys == {1}
    && id in db.queue.rows && db.queue.rows[id].vm == 1 && db.queue.rows[id].kind == Delete && db.queue.rows[id].status == Pending
    && !Flagged(db.queue.rows[id].payload)
    && (forall j :: j in db.queue.rows && j != id ==> !Open(db.queue.rows[j], 1))
  }

  /** Three worker steps after the select: start, a body PVE does not answer, a recorded failure. */
  lemma DeleteFailsSteps(c: Clockwork, w: World, item: Item)
    requires w.phase == Selected([item]) && w.clock == 0 && DeleteWaits(w.db, item.id)
    ensures var w1 := React(CFG, c, w, Work(Start(0)));
            && MayHappen(CFG, c, w1, Work(Exec(Restore.DOWN, 0)))
            && var w2 := React(CFG, c, w1, Work(Exec(Restore.DOWN, 0)));
            && MayHappen(CFG, c, w2, Work(FinishFailed(false, 0)))
            && var w3 := React(CFG, c, w2, Work(FinishFailed(false, 0)));
            w3.phase == Idle && w3.clock == 0 && w3.db.vms == w.db.vms && Leaks(w3.db, 1)
  {
    var w1 := React(CFG, c, w, Work(Start(0)));
    Restore.DownWritesNothing(w1.phase.item, 0);
    var w2 := React(CFG, c, w1, Work(Exec(Restore.DOWN, 0)));
    var w3 := React(CFG, c, w2, Work(FinishFailed(false, 0)));
    assert Leaking(w3.db.queue.rows[item.id], 1);
  }

  /** The worker selects and starts the one delete task, PVE cannot be asked, the failure is recorded. */
  lemma DeleteFails(c: Clockwork, es: seq<Event>, w: World, id: int) returns (es': seq<Event>, w': World)
    requires At(c, es, w) && w.phase == Idle && w.clock == 0 && DeleteWaits(w.db, id)
    ensures At(c, es', w') && w'.phase == Idle && w'.clock == 0 && w'.db.vms == w.db.vms && Leaks(w'.db, 1)
  {
    hide At, Leaks, Body;
    Restore.OnlyBatch(w.db, 1, id, 0);
    var item := ItemOf(w.db, id);
    var e := Work(Select([item], 0));
    Then(c, es, w, e);
    es', w' := es + [e], React(CFG, c, w, e);
    DeleteFailsSteps(c, w', item);
    Then(c, es', w', Work(Start(0)));
    es', w' := es' + [Work(Start(0))], React(CFG, c, w', Work(Start(0)));
    e := Work(Exec(Restore.DOWN, 0));
    Then(c, es', w', e);
    es', w' := es' + [e], React(CFG, c, w', e);
    e := Work(FinishFailed(false, 0));
    Then(c, es', w', e);
    es', w' := es' + [e], React(CFG, c, w', e);
  }

  /** Create and delete. */
  lemma Deleted(c: Clockwork) returns (es: seq<Event>, w: World, id: int)
    ensures At(c, es, w) && w.phase == Idle && w.clock == 0 && DeleteWaits(w.db, id)
    ensures w.db.vms[1].owner == "u" && w.db.vms[1].requestedAt.Some?
  {
    hide At;
    var es0, w0 := FirstVm(c);
    Reached(c, es0, w0);
    var r := DeleteVm(U, 1);
    AfterIsReact(c, w0, r);
    Then(c, es0, w0, Req(r, 0));
    Effects.DeleteEffect(w0.db, r, 0);
    es, w, id := es0 + [Req(r, 0)], After(c, w0, r), w0.db.queue.nextId;
    assert forall v :: v in w.db.vms <==> v == 1;
  }

  /** Create, delete, and one failed attempt: from there a restore is accepted and not safe. */
  lemma UnsafeRestoreIsReachable(c: Clockwork) returns (es: seq<Event>, w: World)
    ensures At(c, es, w) && w.phase == Idle && Leaks(w.db, 1)
    ensures Restore.Restores(w, RestoreVm(U, 1), 0) && !Restore.RestoreIsSafe(CFG, c, w, RestoreVm(U, 1), 0)
  {
    hide At, Leaks, ProtocolInv, Restore.RestoreIsSafe;
    var es0, w0, id := Deleted(c);
    es, w := DeleteFails(c, es0, w0, id);
    Reached(c, es, w);
    Restore.RestoreSafeExactlyAnytime(CFG, c, w, RestoreVm(U, 1), 0);
  }

  // ---- a transfer over quota ----

  const TRANSFER := PatchVm(Restore.ADMIN, 1, Some("v"), None, None, None, None, None, false, false, true)

  /** Both users have their one VM. */
  lemma BothFull(c: Clockwork) returns (es: seq<Event>, w: World)
    ensures At(c, es, w) && w.phase == Idle && w.clock == 0
    ensures 1 in w.db.vms && Group("v", "g") in w.db.groups && UserUsage(w.db, "v") == Usage(1, 1, 1, 20)
    ensures var v := w.db.vms[1];
            && v.owner == "u" && v.cluster == "c" && v.cpuKey == "k" && v.storageKey == "s" && v.group == "g"
            && v.cores == 1 && v.memory == 1 && v.disk == 20 && Eligible(v) && !v.exempt && v.sync == SyncPending && v.requestedAt == None
  {
    hide At;
    var es0, w0 := FirstVm(c);
    var es1, w1 := WithGroup(c, es0, w0, "v");
    assert "u"[0] != "v"[0];
    UsesNothing(w1.db.vms, "v");
    assert 101 !in UsedVmids(w1.db, "c");
    es, w := WithVm(c, es1, w1, "v");
  }

  lemma TransferIsAccepted(db: Db)
    requires 1 in db.vms && Group("v", "g") in db.groups && UserUsage(db, "v") == Usage(1, 1, 1, 20)
    requires var v := db.vms[1];
             && v.cluster == "c" && v.cpuKey == "k" && v.storageKey == "s" && v.group == "g"
             && v.cores == 1 && v.memory == 1 && v.disk == 20 && Eligible(v) && !v.exempt && v.sync == SyncPending && v.requestedAt == None
    ensures HandlePatch(CFG, db, TRANSFER).Ok?
  {
    hide UsageBelow;
  }

  /** A transfer the handler accepts and that leaves the new owner with two VMs of one. */
  lemma TransferGoesOverQuota(c: Clockwork) returns (es: seq<Event>, w: World)
    ensures At(c, es, w) && MayHappen(CFG, c, w, Req(TRANSFER, 0)) && Quotas.QuotaInv(CFG, w.db)
    ensures !Quotas.QuotaInv(CFG, React(CFG, c, w, Req(TRANSFER, 0)).db)
  {
    hide At, UsageBelow, ProtocolInv, HandlePatch, Over;
    es, w := BothFull(c);
    Reached(c, es, w);
    TransferIsAccepted(w.db);
    AfterIsReact(c, w, TRANSFER);
    Quotas.TransferToFullUserExceeds(CFG, w.db, TRANSFER, 0);
  }

  // ---- an exemption taken back ----

  /** The first VM is exempt and the user has created another. */
  lemma ExemptAndFull(c: Clockwork) returns (es: seq<Event>, w: World)
    ensures At(c, es, w) && w.phase == Idle && w.clock == 0
    ensures 1 in w.db.vms && UserUsage(w.db, "u") == Usage(1, 1, 1, 20)
    ensures var v := w.db.vms[1]; v.owner == "u" && v.exempt && Eligible(v) && v.sync == SyncPending && v.requestedAt == None
  {
    hide At;
    var es0, w0 := FirstVm(c);
    var r := AdminSetExempt(1, true);
    AfterIsReact(c, w0, r);
    Then(c, es0, w0, Req(r, 0));
    var w1 := After(c, w0, r);
    UsesNothing(w1.db.vms, "u");
    assert 101 !in UsedVmids(w1.db, "c");
    es, w := WithVm(c, es0 + [Req(r, 0)], w1, "u");
  }

  lemma UnexemptGoesOverQuota(c: Clockwork) returns (es: seq<Event>, w: World)
    ensures At(c, es, w) && MayHappen(CFG, c, w, Req(AdminSetExempt(1, false), 0)) && Quotas.QuotaInv(CFG, w.db)
    ensures !Quotas.QuotaInv(CFG, React(CFG, c, w, Req(AdminSetExempt(1, false), 0)).db)
  {
    hide At, UsageBelow;
    es, w := ExemptAndFull(c);
    Reached(c, es, w);
    AfterIsReact(c, w, AdminSetExempt(1, false));
    Quotas.UnexemptKeepsQuotaExactly(CFG, w.db, AdminSetExempt(1, false), 0);
  }

  // ---- a borrowed group ----

  const FOUND := Inventory.Resource(true, 500, "n", PowerOn, Cidr(0, 24), "s", "b", 1, 1, 20)

  const BORROWING := AdoptVm(1, "v", "k", "s", "b", Cidr(1, 24), "g", "u", 1, 1, 20, PowerOn, true)

  /** The scan discovers a machine. */
  lemma Discovered(c: Clockwork) returns (es: seq<Event>, w: World)
    ensures At(c, es, w) && w.phase == Idle && w.clock == 0
    ensures w.db.vms == map[1 := Inventory.Discovered("c", FOUND)] && w.db.nextVm == 2 && w.db.groups == {Group("u", "g")}
  {
    hide At;
    Begin(c);
    var es0, w0 := WithGroup(c, [], NEW_INSTALLATION, "u");
    var e := ScanOf("c", [FOUND], {}, 0);
    assert [FOUND][..0] == [];
    assert Inventory.UpsertAll(RowsOf(w0.db), "c", [FOUND]) == Inventory.Upsert(RowsOf(w0.db), "c", FOUND);
    Then(c, es0, w0, e);
    es, w := es0 + [e], React(CFG, c, w0, e);
  }

  lemma BorrowingIsAccepted(db: Db)
    requires 1 in db.vms && Group("u", "g") in db.groups && UserUsage(db, "v") == NO_USAGE
    requires var v := db.vms[1]; !v.managed && !PendingDeletion(v) && v.cluster == "c"
    ensures HandleAdopt(CFG, db, BORROWING).Ok?
  {
    hide UsageBelow;
  }

  /** An adoption under another user's group is accepted, and the new owner has no such group. */
  lemma AdoptionBorrowsGroup(c: Clockwork) returns (es: seq<Event>, w: World)
    ensures At(c, es, w) && MayHappen(CFG, c, w, Req(BORROWING, 0)) && Tenancy.GroupsInv(w.db)
    ensures !Tenancy.GroupsInv(React(CFG, c, w, Req(BORROWING, 0)).db)
  {
    hide At, HandleAdopt;
    es, w := Discovered(c);
    Reached(c, es, w);
    UsesNothing(w.db.vms, "v");
    BorrowingIsAccepted(w.db);
    AfterIsReact(c, w, BORROWING);
    assert "u"[0] != "v"[0];
    Tenancy.AdoptionIsSoundExactlyWhenOwned(CFG, w.db, BORROWING, 0);
  }

  // ---- a negative amount ----

  const X := Actor("x", false)

  const LENDING := PatchVm(X, 1, None, Some(-7), None, None, None, None, false, false, true)

  const BIG := CreateVm("x", "c", "k", "s", "b", "g", 8, 1, 20, PowerOn, Some("n"), true)

  /** A request of `user`, who is no administrator. */
  predicate Asks(r: Request, user: string) {
    || ((r.CreateVm? || r.CreateGroup?) && r.user == user)
    || ((r.PatchVm? || r.DeleteVm? || r.DeleteNowVm? || r.PauseTasks?) && r.actor == Actor(user, false))
  }

  /** A run in which only one user asks for anything, and where it ends. */
  ghost predicate Alone(c: Clockwork, es: seq<Event>, w: World) {
    && ValidHistory(CFG, c, NEW_INSTALLATION, es) && History(CFG, c, NEW_INSTALLATION, es) == w
    && forall i :: 0 <= i < |es| && es[i].Req? ==> Asks(es[i].request, "x")
  }

  lemma Next(c: Clockwork, es: seq<Event>, w: World, e: Event)
    requires Alone(c, es, w) && MayHappen(CFG, c, w, e) && (e.Req? ==> Asks(e.request, "x"))
    ensures Alone(c, es + [e], React(CFG, c, w, e))
  {
    assert (es + [e])[..|es + [e]| - 1] == es;
  }

  /** An accepted request. */
  lemma Asked(c: Clockwork, es: seq<Event>, w: World, r: Request) returns (es': seq<Event>)
    requires Alone(c, es, w) && w.phase == Idle && w.clock <= 0 && Handle(CFG, w.db, r, 0).Ok? && Asks(r, "x")
    ensures Alone(c, es', After(c, w, r))
  {
    hide Alone, Handle;
    AfterIsReact(c, w, r);
    Next(c, es, w, Req(r, 0));
    es' := es + [Req(r, 0)];
  }

  lemma AloneIsSound(c: Clockwork, es: seq<Event>, w: World)
    requires Alone(c, es, w)
    ensures Tenancy.RowsInv(w.db) && QueueOrder.IdsBelow(w.db.queue)
  {
    Store.HistoryIsSound(CFG, c, es);
  }

  /** A group and a VM of one core. */
  lemma OwnVm(c: Clockwork) returns (es: seq<Event>, w: World)
    ensures Alone(c, es, w) && w.phase == Idle && w.clock == 0
    ensures w.db.vms.Keys == {1} && w.db.nextVm == 2 && w.db.groups == {Group("x", "g")} && FirstRow(w.db.vms[1], "x")
  {
    hide Alone, FirstRow, Effects.CreatedVm, CreateRefusal, CreatedRow;
    NoneAlone(c);
    var group := CreateGroup("x", "g");
    assert OwnedGroups(NEW_INSTALLATION.db, "x") == {};
    es := Asked(c, [], NEW_INSTALLATION, group);
    w := After(c, NEW_INSTALLATION, group);
    assert UsageBelow(map[], "x", 0) == NO_USAGE && 100 !in UsedVmids(w.db, "c");
    CreationAccepted(w.db, "x");
    AloneIsSound(c, es, w);
    Effects.CreateEffect(CFG, w.db, Wants("x"), 0);
    es := Asked(c, es, w, Wants("x"));
    FirstRowOf(w.db, After(c, w, Wants("x")).db, "x");
    w := After(c, w, Wants("x"));
  }

  lemma NoneAlone(c: Clockwork)
    ensures Alone(c, [], NEW_INSTALLATION)
  {
  }

  lemma LendingIsAccepted(db: Db)
    requires db.vms.Keys == {1} && db.nextVm == 2 && FirstRow(db.vms[1], "x")
    ensures HandlePatch(CFG, db, LENDING).Ok?
    ensures var v := HandlePatch(CFG, db, LENDING).value.vms[1]; v == db.vms[1].(cores := -7, sync := SyncPending)
  {
    assert UsageBelow(db.vms, "x", 0) == NO_USAGE && UsageBelow(db.vms, "x", 1) == NO_USAGE;
  }

  /** The owner sets the cores of the VM to -7. */
  lemma Lent(c: Clockwork) returns (es: seq<Event>, w: World)
    ensures Alone(c, es, w) && w.phase == Idle && w.clock == 0
    ensures w.db.vms.Keys == {1} && w.db.nextVm == 2 && w.db.groups == {Group("x", "g")} && FirstRow(w.db.vms[1].(cores := 1), "x")
    ensures UserUsage(w.db, "x") == Usage(1, -7, 1, 20)
  {
    hide Alone, PatchRefusal;
    var es0, w0 := OwnVm(c);
    LendingIsAccepted(w0.db);
    es := Asked(c, es0, w0, LENDING);
    w := After(c, w0, LENDING);
    assert UsageBelow(w.db.vms, "x", 0) == NO_USAGE && UsageBelow(w.db.vms, "x", 1) == NO_USAGE;
  }

  lemma BigIsAccepted(db: Db)
    requires Group("x", "g") in db.groups && UserUsage(db, "x") == Usage(1, -7, 1, 20) && 101 !in UsedVmids(db, "c")
    ensures HandleCreate(CFG, db, BIG).Ok?
  {
    hide UsageBelow;
    assert CreateRefusal(CFG, db, BIG) == None;
    Allocates(db, BIG);
  }

  /** A second VM has eight cores, twice the quota, and the sum is one. */
  lemma Spent(c: Clockwork) returns (es: seq<Event>, w: World)
    ensures Alone(c, es, w) && w.phase == Idle && w.clock == 0
    ensures 1 in w.db.vms && 2 in w.db.vms && w.db.nextVm == 3 && w.db.vms.Keys == {1, 2}
    ensures w.db.vms[1].owner == "x" && Eligible(w.db.vms[1]) && !PendingDeletion(w.db.vms[1])
    ensures w.db.vms[2].owner == "x" && Eligible(w.db.vms[2]) && !w.db.vms[2].exempt && w.db.vms[2].cores == 8
    ensures UserUsage(w.db, "x") == Usage(2, 1, 2, 40)
  {
    hide Alone, CreateRefusal, CreatedRow, UsageBelow, Effects.Joins;
    var es0, w0 := Lent(c);
    AloneIsSound(c, es0, w0);
    BigIsAccepted(w0.db);
    es := Asked(c, es0, w0, BIG);
    w := After(c, w0, BIG);
    Effects.CreateEffect(CFG, w0.db, BIG, 0);
    assert forall id :: id in w.db.vms <==> id == 1 || id == 2;
  }

  /** The one task the worker may select deletes the first VM, now. */
  ghost predicate DeleteIsNext(db: Db, id: int) {
    && db.vms.Keys == {1, 2} && db.nextVm == 3
    && Eligible(db.vms[1]) && db.vms[1].executeAfter == Some(0)
    && db.vms[2].owner == "x" && Active(db.vms[2]) && db.vms[2].managed && db.vms[2].paused && !db.vms[2].exempt && db.vms[2].cores == 8
    && Effects.OnlyDelete(db.queue, 1, id, DeletePayload(Some(0), true, false))
  }

  /** The owner deletes the first VM at once and pauses the second one, so that only the delete task is selected. */
  lemma Deleting(c: Clockwork) returns (es: seq<Event>, w: World, id: int)
    ensures Alone(c, es, w) && w.phase == Idle && w.clock == 0 && DeleteIsNext(w.db, id)
  {
    hide Alone, UsageBelow, Effects.OnlyDelete;
    var es0, w0 := Spent(c);
    AloneIsSound(c, es0, w0);
    var es1 := Asked(c, es0, w0, DeleteVm(X, 1));
    var w1 := After(c, w0, DeleteVm(X, 1));
    AloneIsSound(c, es1, w1);
    var es2 := Asked(c, es1, w1, DeleteNowVm(X, 1));
    var w2 := After(c, w1, DeleteNowVm(X, 1));
    Effects.DeleteNowEffect(w1.db, DeleteNowVm(X, 1), 0);
    id := w1.db.queue.nextId;
    es := Asked(c, es2, w2, PauseTasks(X, 2));
    w := After(c, w2, PauseTasks(X, 2));
    assert ApplyOps(w2.db.queue, [], 0) == w2.db.queue;
  }

  lemma DeleteStarts(c: Clockwork, w: World, id: int)
    requires w.phase == Idle && w.clock == 0 && DeleteIsNext(w.db, id)
    ensures var e1 := Work(Select([ItemOf(w.db, id)], 0));
            && MayHappen(CFG, c, w, e1)
            && var w1 := React(CFG, c, w, e1);
            && MayHappen(CFG, c, w1, Work(Start(0)))
            && var w2 := React(CFG, c, w1, Work(Start(0)));
            && w2.db.vms == w.db.vms && w2.db.nextVm == w.db.nextVm && w2.clock == 0 && w2.phase.Working?
            && var i := w2.phase.item;
            i.vmId == 1 && i.vm == w.db.vms[1] && i.kind == Delete && i.payload == DeletePayload(Some(0), true, false)
  {
    Restore.OnlyBatch(w.db, 1, id, 0);
  }

  /** PVE answers and the row is marked deleted. */
  lemma DeleteSucceeds(c: Clockwork, w: World)
    requires w.clock == 0 && w.phase.Working? && 1 in w.db.vms
    requires var i := w.phase.item;
             i.vmId == 1 && i.vm.executeAfter == Some(0) && i.kind == Delete && i.payload == DeletePayload(Some(0), true, false)
    ensures MayHappen(CFG, c, w, Work(Exec(Restore.HEALTHY, 0)))
    ensures var db := React(CFG, c, w, Work(Exec(Restore.HEALTHY, 0))).db;
            db.nextVm == w.db.nextVm && db.vms == w.db.vms[1 := WriteRow(w.db.vms[1], WriteDeleted, 0)]
  {
    var xs := [WriteDeleted, WriteCancelOutstanding];
    assert Body(w.phase.item, Restore.HEALTHY, 0).writes == xs;
    var db1 := ApplyWrite(w.db, 1, xs[0], 0);
    assert ApplyWrites(w.db, 1, xs, 0) == ApplyWrites(db1, 1, xs[1..], 0) == ApplyWrite(db1, 1, xs[1], 0);
  }

  /** One user, who is no administrator, can get over the quota: a negative patch, a creation it pays for, and the deletion
      of the patched VM leave eight cores of four. */
  lemma NegativePatchGoesOverQuota(c: Clockwork) returns (es: seq<Event>, w: World)
    ensures Alone(c, es, w) && UserUsage(w.db, "x").cpu == 8 && Over(UserUsage(w.db, "x"), CFG.quotas["x"])
  {
    hide Alone, Body, Effects.OnlyDelete;
    var es0, w0, id := Deleting(c);
    DeleteStarts(c, w0, id);
    es, w := es0, w0;
    var e := Work(Select([ItemOf(w.db, id)], 0));
    Next(c, es, w, e);
    es, w := es + [e], React(CFG, c, w, e);
    e := Work(Start(0));
    Next(c, es, w, e);
    es, w := es + [e], React(CFG, c, w, e);
    e := Work(Exec(Restore.HEALTHY, 0));
    DeleteSucceeds(c, w);
    Next(c, es, w, e);
    es, w := es + [e], React(CFG, c, w, e);
    StillSpent(w0.db, w.db, id);
  }

  lemma StillSpent(a: Db, b: Db, id: int)
    requires DeleteIsNext(a, id)
    requires 1 in b.vms && !Active(b.vms[1]) && 2 in b.vms && b.vms[2] == a.vms[2] && b.nextVm == 3 && 0 !in b.vms
    ensures UserUsage(b, "x").cpu == 8
  {
    assert UsageBelow(b.vms, "x", 0) == NO_USAGE && UsageBelow(b.vms, "x", 1) == NO_USAGE && UsageBelow(b.vms, "x", 2) == NO_USAGE;
  }
}
