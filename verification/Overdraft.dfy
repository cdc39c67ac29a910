/** Negative amounts. A patch may set cores or memory below zero, and such a row lends its owner room in every later quota
    test. The quota is then only safe while nothing is taken away, so this module counts negative amounts as zero: exactly
    these sums decide whether the quota holds for good, and for each request exactly when it keeps it so. */
module Overdraft {
  import opened Records
  import opened TaskQueue
  import opened Machine
  import opened Handlers
  import opened Serial
  import opened Allocation
  import opened Tenancy
  import opened Quotas
  import Inventory
  import Sets

  function AtLeastZero(x: int): int {
    if x < 0 then 0 else x
  }

  function Floored(vm: Vm): Vm {
    vm.(cores := AtLeastZero(vm.cores), memory := AtLeastZero(vm.memory), disk := AtLeastZero(vm.disk))
  }

  function FlooredRows(vms: map<int, Vm>): map<int, Vm> {
    map id | id in vms :: Floored(vms[id])
  }

  /** The same rows without their negative amounts. */
  function Worst(db: Db): Db {
    db.(vms := FlooredRows(db.vms))
  }

  ghost predicate WithinQuota(cfg: Config, db: Db) {
    forall user :: user in cfg.quotas ==> !Over(UserUsage(db, user), cfg.quotas[user])
  }

  /** Every quota covers its user's rows even if no negative amount helps. */
  ghost predicate Covered(cfg: Config, db: Db) {
    WithinQuota(cfg, Worst(db))
  }

  lemma {:induction false} WorstIsMore(vms: map<int, Vm>, user: string, n: nat)
    ensures AtMost(UsageBelow(vms, user, n), UsageBelow(FlooredRows(vms), user, n))
    ensures (forall id :: id in vms ==> NonNegative(vms[id])) ==> UsageBelow(FlooredRows(vms), user, n) == UsageBelow(vms, user, n)
  {
    if n > 0 {
      WorstIsMore(vms, user, n - 1);
    }
  }

  lemma CoveredIsWithin(cfg: Config, db: Db)
    requires Covered(cfg, db)
    ensures WithinQuota(cfg, db)
  {
    forall user | user in cfg.quotas
      ensures !Over(UserUsage(db, user), cfg.quotas[user])
    {
      WorstIsMore(db.vms, user, db.nextVm);
      assert !Over(UserUsage(Worst(db), user), cfg.quotas[user]);
    }
  }

  /** Without negative amounts the two sums are the same. */
  lemma QuotaIsCovered(cfg: Config, db: Db)
    requires QuotaInv(cfg, db)
    ensures Covered(cfg, db)
  {
    forall user | user in cfg.quotas
      ensures !Over(UserUsage(Worst(db), user), cfg.quotas[user])
    {
      WorstIsMore(db.vms, user, db.nextVm);
      assert !Over(UserUsage(db, user), cfg.quotas[user]);
    }
  }

  /** So what is known about rows without negative amounts applies. */
  lemma CoveredIsQuota(cfg: Config, db: Db)
    ensures Covered(cfg, db) <==> QuotaInv(cfg, Worst(db))
    ensures RowsInv(db) ==> RowsInv(Worst(db))
  {
  }

  // ---- what one request does ----

  /** The row a request rewrites, as far as quotas are concerned. */
  function Rewritten(r: Request, vm: Vm): Vm
    requires r.PatchVm? || r.AdoptVm? || r.AdminSetExempt?
  {
    if r.PatchVm? then PatchedRow(r, vm) else if r.AdoptVm? then AdoptedRow(r, vm) else vm.(exempt := r.exempt)
  }

  /** There is room for the row in its owner's quota, beside what the owner has without it. */
  predicate Fits(cfg: Config, db: Db, vm: Vm, v: Vm) {
    CountsFor(v, v.owner) && v.owner in cfg.quotas ==>
      !Over(Plus(Minus(UserUsage(Worst(db), v.owner), Share(Floored(vm), v.owner)), RowUsage(Floored(v))), cfg.quotas[v.owner])
  }

  /** What would have to be checked before a request: for a creation the amounts asked for, otherwise the rewritten row. */
  predicate Affordable(cfg: Config, db: Db, e: Event) {
    e.Req? ==>
      var r := e.request;
      if r.CreateVm? then r.user in cfg.quotas ==> !Over(Plus(UserUsage(Worst(db), r.user), Usage(1, r.cores, r.memory, r.disk)), cfg.quotas[r.user])
      else if r.PatchVm? || r.AdoptVm? || r.AdminSetExempt? then r.vm in db.vms ==> Fits(cfg, db, db.vms[r.vm], Rewritten(r, db.vms[r.vm]))
      else true
  }

  lemma RowKeepsCoveredExactly(cfg: Config, db: Db, b: Db, id: int, v: Vm)
    requires Covered(cfg, db) && RowsInv(db) && id in db.vms && b.vms == db.vms[id := v] && b.nextVm == db.nextVm
    ensures Covered(cfg, b) <==> Fits(cfg, db, db.vms[id], v)
  {
    CoveredIsQuota(cfg, db);
    var a := Worst(db);
    assert Worst(b).vms == a.vms[id := Floored(v)];
    UsageAfterUpdate(a.vms, v.owner, id, Floored(v), db.nextVm);
    assert 0 <= id < db.nextVm;
    forall user | user in cfg.quotas && !CountsFor(Floored(v), user)
      ensures !Over(UserUsage(Worst(b), user), cfg.quotas[user])
    {
      OthersStayWithin(cfg, a, id, Floored(v), user);
    }
  }

  lemma CreateKeepsCoveredExactly(cfg: Config, db: Db, b: Db, v: Vm)
    requires Covered(cfg, db) && CountsFor(v, v.owner) && b.vms == db.vms[db.nextVm := v] && b.nextVm == db.nextVm + 1
    ensures Covered(cfg, b) <==>
              (v.owner in cfg.quotas ==> !Over(Plus(UserUsage(Worst(db), v.owner), RowUsage(Floored(v))), cfg.quotas[v.owner]))
  {
    assert Worst(b).vms == Worst(db).vms[db.nextVm := Floored(v)];
    forall user
      ensures UserUsage(Worst(b), user) == if user == v.owner then Plus(UserUsage(Worst(db), user), RowUsage(Floored(v))) else UserUsage(Worst(db), user)
    {
      UsageIgnoresAbove(Worst(db).vms, user, db.nextVm, Floored(v), db.nextVm);
    }
  }

  lemma TenantsKeepCovered(cfg: Config, db: Db, db': Db)
    requires Covered(cfg, db) && SameTenants(db.vms, db'.vms) && db'.nextVm == db.nextVm
    ensures Covered(cfg, db')
  {
    CoveredIsQuota(cfg, db);
    CoveredIsQuota(cfg, db');
    TenantsKeepQuota(cfg, Worst(db), Worst(db'));
  }

  lemma ScanKeepsCovered(cfg: Config, db: Db, b: Db)
    requires Covered(cfg, db) && RowsInv(db) && Inventory.ScanChange(RowsOf(db), RowsOf(b))
    ensures Covered(cfg, b)
  {
    forall user | user in cfg.quotas
      ensures !Over(UserUsage(Worst(b), user), cfg.quotas[user])
    {
      UsageIgnoresScan(RowsOf(Worst(db)), RowsOf(Worst(b)), user, b.nextVm);
      UsageStops(RowsOf(Worst(db)), user, b.nextVm);
      assert !Over(UserUsage(Worst(db), user), cfg.quotas[user]);
    }
  }

  lemma RequestKeepsCoveredExactly(cfg: Config, db: Db, r: Request, now: Time)
    requires Covered(cfg, db) && RowsInv(db) && Handle(cfg, db, r, now).Ok?
    ensures Covered(cfg, Commit(db, Handle(cfg, db, r, now).value, now)) <==> Affordable(cfg, db, Req(r, now))
  {
    hide Covered, RowsInv, Over, UserUsage, AdoptRefusal, CreateRefusal, PatchRefusal;
    var b := Commit(db, Handle(cfg, db, r, now).value, now);
    if r.CreateVm? {
      CreationIsAsAsked(cfg, db, r);
      CreateKeepsCoveredExactly(cfg, db, b, b.vms[db.nextVm]);
    } else if r.AdminSetIp? {
      RowKeepsCoveredExactly(cfg, db, b, r.vm, b.vms[r.vm]);
      SameAmountsFit(cfg, db, db.vms[r.vm], b.vms[r.vm]);
    } else if r.PatchVm? || r.AdoptVm? || r.AdminSetExempt? {
      RowKeepsCoveredExactly(cfg, db, b, r.vm, b.vms[r.vm]);
    } else {
      RequestShape(cfg, db, r, now);
      TenantsKeepCovered(cfg, db, b);
    }
  }

  lemma SameAmountsFit(cfg: Config, db: Db, vm: Vm, v: Vm)
    requires Covered(cfg, db) && v == vm.(ip := v.ip, sync := v.sync)
    ensures Fits(cfg, db, vm, v)
  {
    if v.owner in cfg.quotas {
      assert !Over(UserUsage(Worst(db), v.owner), cfg.quotas[v.owner]);
    }
  }

  lemma CreationIsAsAsked(cfg: Config, db: Db, r: Request)
    requires r.CreateVm? && HandleCreate(cfg, db, r).Ok?
    ensures var tx := HandleCreate(cfg, db, r).value;
            && tx.nextVm == db.nextVm + 1 && db.nextVm in tx.vms && tx.vms == db.vms[db.nextVm := tx.vms[db.nextVm]]
            && var v := tx.vms[db.nextVm];
            CountsFor(v, r.user) && RowUsage(Floored(v)) == Usage(1, r.cores, r.memory, r.disk)
  {
    hide UsageBelow;
    assert CreateForm(cfg, r) == None;
  }

  /** From rows the quotas cover, a step leads to such rows again if and only if what it asks for is affordable. */
  lemma EventKeepsCoveredExactly(cfg: Config, c: Clockwork, w: World, e: Event)
    requires Covered(cfg, w.db) && RowsInv(w.db) && MayHappen(cfg, c, w, e)
    ensures Covered(cfg, React(cfg, c, w, e).db) <==> Affordable(cfg, w.db, e)
  {
    hide Covered, RowsInv, Handle;
    match e
    case Req(r, now) => RequestKeepsCoveredExactly(cfg, w.db, r, now);
    case ScanOf(cluster, found, swept, now) =>
      hide Inventory.ScanPart;
      ScanIsChange(w.db, cluster, found, swept, now);
      ScanKeepsCovered(cfg, w.db, React(cfg, c, w, e).db);
    case Work(a) =>
      WorkKeepsTenants(cfg, c, w, a);
      TenantsKeepCovered(cfg, w.db, Step(c, w, a).db);
  }

  lemma ScanIsChange(db: Db, cluster: string, found: seq<Inventory.Resource>, swept: set<int>, now: Time)
    requires RowsInv(db)
    ensures Inventory.ScanChange(RowsOf(db), Inventory.ScanPart(RowsOf(db), cluster, found, swept, now))
  {
    Inventory.ScanPartChange(RowsOf(db), cluster, found, swept, now);
  }

  /** The requests the main quota theorem allows are affordable. */
  lemma CheckedIsAffordable(cfg: Config, c: Clockwork, w: World, e: Event)
    requires QuotaInv(cfg, w.db) && RowsInv(w.db) && MayHappen(cfg, c, w, e) && !Unchecked(w.db, e)
    ensures Affordable(cfg, w.db, e)
  {
    hide QuotaInv, RowsInv, Covered, Affordable, Unchecked, MayHappen, Step, ActionOf;
    EventKeepsQuota(cfg, c, w, e);
    QuotaIsCovered(cfg, w.db);
    QuotaIsCovered(cfg, React(cfg, c, w, e).db);
    EventKeepsCoveredExactly(cfg, c, w, e);
  }

  // ---- taking rows away ----

  /** Steps that take nothing from a quota: everything but creations, patches, adoptions and exemptions taken back. */
  predicate Releasing(e: Event) {
    e.Req? ==> !e.request.CreateVm? && !e.request.PatchVm? && !e.request.AdoptVm? && !(e.request.AdminSetExempt? && !e.request.exempt)
  }

  ghost predicate AllReleasing(es: seq<Event>) {
    forall i :: 0 <= i < |es| ==> Releasing(es[i])
  }

  /** Deletions, restores, exemptions, scans and the worker never bring anybody over quota. */
  ghost predicate NeverExceeds(cfg: Config, c: Clockwork, w: World) {
    forall es :: ValidHistory(cfg, c, w, es) && AllReleasing(es) ==> WithinQuota(cfg, History(cfg, c, w, es).db)
  }

  lemma ReleasingIsAffordable(cfg: Config, db: Db, e: Event)
    requires Releasing(e)
    ensures Affordable(cfg, db, e)
  {
  }

  lemma {:induction false} ReleasingKeepsCovered(cfg: Config, c: Clockwork, w: World, es: seq<Event>)
    requires Covered(cfg, w.db) && RowsInv(w.db) && ValidHistory(cfg, c, w, es) && AllReleasing(es)
    ensures var db := History(cfg, c, w, es).db; Covered(cfg, db) && RowsInv(db)
    decreases |es|
  {
    hide Covered, RowsInv, MayHappen, Affordable, Step, ActionOf;
    if es != [] {
      var before, e := es[..|es| - 1], es[|es| - 1];
      ReleasingKeepsCovered(cfg, c, w, before);
      var w1 := History(cfg, c, w, before);
      ReleasingIsAffordable(cfg, w1.db, e);
      EventKeepsCoveredExactly(cfg, c, w1, e);
      EventKeepsRows(cfg, c, w1, e);
    }
  }

  lemma Extend(cfg: Config, c: Clockwork, w: World, es: seq<Event>, e: Event)
    requires ValidHistory(cfg, c, w, es) && AllReleasing(es) && MayHappen(cfg, c, History(cfg, c, w, es), e) && Releasing(e)
    ensures ValidHistory(cfg, c, w, es + [e]) && AllReleasing(es + [e])
    ensures History(cfg, c, w, es + [e]) == React(cfg, c, History(cfg, c, w, es), e)
  {
    assert (es + [e])[..|es + [e]| - 1] == es;
  }

  const ADMIN := Actor("admin", true)

  /** `b` has the rows of `a`, those of `ids` exempt. */
  ghost predicate Exempted(a: Db, b: Db, ids: set<int>) {
    && b.nextVm == a.nextVm && b.vms.Keys == a.vms.Keys
    && forall id :: id in a.vms ==> if id in ids then b.vms[id].exempt else b.vms[id] == a.vms[id]
  }

  /** Restored first if its deletion is pending, a managed VM can be made exempt. */
  lemma ExemptOne(cfg: Config, c: Clockwork, w: World, es: seq<Event>, id: int, t: Time) returns (es': seq<Event>)
    requires ValidHistory(cfg, c, w, es) && AllReleasing(es)
    requires var w1 := History(cfg, c, w, es); w1.phase == Idle && w1.clock <= t && id in w1.db.vms && w1.db.vms[id].managed
    ensures ValidHistory(cfg, c, w, es') && AllReleasing(es')
    ensures var w1 := History(cfg, c, w, es);
            var w2 := History(cfg, c, w, es');
            w2.phase == Idle && w2.clock <= t && Exempted(w1.db, w2.db, {id})
  {
    hide History, ValidHistory, AllReleasing, HandleCreate, HandlePatch, HandleAdopt, HandleSetIp;
    es' := es;
    if PendingDeletion(History(cfg, c, w, es).db.vms[id]) {
      var e := Req(RestoreVm(ADMIN, id), t);
      Extend(cfg, c, w, es, e);
      es' := es + [e];
    }
    var e := Req(AdminSetExempt(id, true), t);
    Extend(cfg, c, w, es', e);
    es' := es' + [e];
  }

  lemma {:induction false} ExemptAll(cfg: Config, c: Clockwork, w: World, es: seq<Event>, ids: set<int>, t: Time) returns (es': seq<Event>)
    requires ValidHistory(cfg, c, w, es) && AllReleasing(es)
    requires var w1 := History(cfg, c, w, es); w1.phase == Idle && w1.clock <= t && forall id :: id in ids ==> id in w1.db.vms && w1.db.vms[id].managed
    ensures ValidHistory(cfg, c, w, es') && AllReleasing(es')
    ensures Exempted(History(cfg, c, w, es).db, History(cfg, c, w, es').db, ids)
    decreases |ids|
  {
    hide History, ValidHistory, AllReleasing;
    es' := es;
    if ids != {} {
      var id := Sets.Pick(ids);
      var es1 := ExemptOne(cfg, c, w, es, id, t);
      es' := ExemptAll(cfg, c, w, es1, ids - {id}, t);
    }
  }

  // ---- one resource at a time ----

  datatype Resource = Cpu | Memory | Storage

  function Of(u: Usage, k: Resource): int {
    match k
    case Cpu => u.cpu
    case Memory => u.memory
    case Storage => u.storage
  }

  function LimitOf(q: Quota, k: Resource): int {
    match k
    case Cpu => q.cpu
    case Memory => q.memory
    case Storage => q.storage
  }

  /** The user's rows that lend the resource. */
  function Lenders(vms: map<int, Vm>, user: string, k: Resource): set<int> {
    set id | id in vms && CountsFor(vms[id], user) && Of(RowUsage(vms[id]), k) < 0
  }

  /** Without the lenders, the sum of the resource is the one that counts negative amounts as zero. */
  lemma {:induction false} WithoutLenders(a: Db, b: Db, user: string, k: Resource, n: nat)
    requires Exempted(a, b, Lenders(a.vms, user, k))
    ensures Of(UsageBelow(b.vms, user, n), k) == Of(UsageBelow(FlooredRows(a.vms), user, n), k)
  {
    if n > 0 {
      WithoutLenders(a, b, user, k, n - 1);
      if n - 1 in a.vms {
        assert n - 1 in Lenders(a.vms, user, k) <==> CountsFor(a.vms[n - 1], user) && Of(RowUsage(a.vms[n - 1]), k) < 0;
      }
    }
  }

  lemma {:induction false} SameCount(vms: map<int, Vm>, user: string, n: nat)
    ensures UsageBelow(vms, user, n).count == UsageBelow(FlooredRows(vms), user, n).count
  {
    if n > 0 {
      SameCount(vms, user, n - 1);
    }
  }

  /** The run that exempts a user's lenders. */
  lemma LendersGone(cfg: Config, c: Clockwork, w: World, user: string, k: Resource) returns (es: seq<Event>)
    ensures ValidHistory(cfg, c, w, es) && AllReleasing(es)
    ensures Of(UserUsage(History(cfg, c, w, es).db, user), k) == Of(UserUsage(Worst(w.db), user), k)
  {
    var crash := Work(Crash(w.clock));
    assert ValidHistory(cfg, c, w, []) && History(cfg, c, w, []) == w;
    Extend(cfg, c, w, [], crash);
    var w1 := History(cfg, c, w, [crash]);
    assert [] + [crash] == [crash] && w1 == World(w.db, Idle, w.clock);
    es := ExemptAll(cfg, c, w, [crash], Lenders(w.db.vms, user, k), w.clock);
    WithoutLenders(w.db, History(cfg, c, w, es).db, user, k, w.db.nextVm);
  }

  // ---- main results ----

  /** In any state of the tables and the worker: no run of deletions, restores, exemptions, scans and worker steps brings a
      user over quota if and only if the quotas cover every user's rows with negative amounts counted as zero. */
  lemma NeverExceedsExactlyWhenCovered(cfg: Config, c: Clockwork, w: World)
    requires RowsInv(w.db)
    ensures NeverExceeds(cfg, c, w) <==> Covered(cfg, w.db)
  {
    hide History, ValidHistory, RowsInv, UserUsage;
    if Covered(cfg, w.db) {
      forall es | ValidHistory(cfg, c, w, es) && AllReleasing(es)
        ensures WithinQuota(cfg, History(cfg, c, w, es).db)
      {
        ReleasingKeepsCovered(cfg, c, w, es);
        CoveredIsWithin(cfg, History(cfg, c, w, es).db);
      }
    } else {
      var user :| user in cfg.quotas && Over(UserUsage(Worst(w.db), user), cfg.quotas[user]);
      Exceeds(cfg, c, w, user);
    }
  }

  lemma Exceeds(cfg: Config, c: Clockwork, w: World, user: string)
    requires user in cfg.quotas && Over(UserUsage(Worst(w.db), user), cfg.quotas[user])
    ensures !NeverExceeds(cfg, c, w)
  {
    hide History, ValidHistory;
    var u, q := UserUsage(Worst(w.db), user), cfg.quotas[user];
    SameCount(w.db.vms, user, w.db.nextVm);
    var k := if u.cpu > q.cpu then Cpu else if u.memory > q.memory then Memory else Storage;
    if u.count > q.number {
      NothingHappens(cfg, c, w);
      assert Over(UserUsage(History(cfg, c, w, []).db, user), q);
    } else {
      assert Of(u, k) > LimitOf(q, k);
      var es := LendersGone(cfg, c, w, user, k);
      assert Over(UserUsage(History(cfg, c, w, es).db, user), q);
    }
  }

  lemma NothingHappens(cfg: Config, c: Clockwork, w: World)
    ensures ValidHistory(cfg, c, w, []) && History(cfg, c, w, []) == w && AllReleasing([])
  {
  }

  /** An accepted patch that keeps the owner of a counted VM is safe in this sense, from a state that is, if and only if the
      owner's other rows and the patched one fit the quota, negative amounts counted as zero. */
  lemma PatchIsSafeExactly(cfg: Config, c: Clockwork, w: World, r: Request, now: Time)
    requires RowsInv(w.db) && NeverExceeds(cfg, c, w) && r.PatchVm? && MayHappen(cfg, c, w, Req(r, now)) && !Transfers(w.db, r)
    requires var vm := w.db.vms[r.vm]; CountsFor(vm, vm.owner) && vm.owner in cfg.quotas
    ensures var vm := w.db.vms[r.vm];
            NeverExceeds(cfg, c, React(cfg, c, w, Req(r, now))) <==>
              !Over(Plus(Minus(UserUsage(Worst(w.db), vm.owner), RowUsage(Floored(vm))), RowUsage(Floored(PatchedRow(r, vm)))), cfg.quotas[vm.owner])
  {
    hide NeverExceeds, Covered, RowsInv, PatchRefusal;
    NeverExceedsExactlyWhenCovered(cfg, c, w);
    EventKeepsCoveredExactly(cfg, c, w, Req(r, now));
    EventKeepsRows(cfg, c, w, Req(r, now));
    NeverExceedsExactlyWhenCovered(cfg, c, React(cfg, c, w, Req(r, now)));
  }

  ghost predicate AllAffordable(cfg: Config, c: Clockwork, es: seq<Event>)
    requires ValidHistory(cfg, c, NEW_INSTALLATION, es)
    decreases |es|
  {
    es == [] ||
    (AllAffordable(cfg, c, es[..|es| - 1]) && Affordable(cfg, History(cfg, c, NEW_INSTALLATION, es[..|es| - 1]).db, es[|es| - 1]))
  }

  /** At no moment of the run could anything be taken away so that a user is over quota. */
  ghost predicate SafeAllAlong(cfg: Config, c: Clockwork, es: seq<Event>)
    requires ValidHistory(cfg, c, NEW_INSTALLATION, es)
    decreases |es|
  {
    NeverExceeds(cfg, c, History(cfg, c, NEW_INSTALLATION, es)) && (es != [] ==> SafeAllAlong(cfg, c, es[..|es| - 1]))
  }

  /** A serial run, with whatever transfers, negative patches and exemptions taken back, is safe at every moment if and only
      if every one of its requests was affordable when it came. */
  lemma {:induction false} SafeExactlyWhenAffordable(cfg: Config, c: Clockwork, es: seq<Event>)
    requires ValidHistory(cfg, c, NEW_INSTALLATION, es)
    requires forall user :: user in cfg.quotas ==> !Over(NO_USAGE, cfg.quotas[user])
    ensures SafeAllAlong(cfg, c, es) <==> AllAffordable(cfg, c, es)
    decreases |es|
  {
    hide NeverExceeds, Covered, RowsInv, MayHappen, Affordable, Step, ActionOf;
    VmidsStayUnique(cfg, c, es);
    NeverExceedsExactlyWhenCovered(cfg, c, History(cfg, c, NEW_INSTALLATION, es));
    if es == [] {
      NothingIsCovered(cfg);
    } else {
      var before, e := es[..|es| - 1], es[|es| - 1];
      SafeExactlyWhenAffordable(cfg, c, before);
      var w := History(cfg, c, NEW_INSTALLATION, before);
      VmidsStayUnique(cfg, c, before);
      NeverExceedsExactlyWhenCovered(cfg, c, w);
      if Covered(cfg, w.db) {
        EventKeepsCoveredExactly(cfg, c, w, e);
      }
    }
  }

  lemma NothingIsCovered(cfg: Config)
    requires forall user :: user in cfg.quotas ==> !Over(NO_USAGE, cfg.quotas[user])
    ensures Covered(cfg, NEW_INSTALLATION.db)
  {
    assert forall user :: UsageBelow(map[], user, 0) == NO_USAGE;
    assert FlooredRows(map[]) == map[];
    forall user | user in cfg.quotas
      ensures UsageBelow(map[], user, 1) == NO_USAGE
    {
      assert UsageBelow(map[], user, 0) == NO_USAGE;
    }
  }
}
