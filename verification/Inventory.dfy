/** The inventory scan: reconciling the rows of a cluster with the machines PVE reports. */
module Inventory {
  import opened Records

  /** A PVE resource, with the part of its configuration the scan keeps. */
  datatype Resource = Resource(qemu: bool, vmid: int, node: string, power: Power, ip: Cidr,
                               storageKey: string, bridgeKey: string, cores: int, memory: int, disk: int)

  predicate Scanned(r: Resource) {
    r.qemu && r.vmid > 0
  }

  predicate Holds(vm: Vm, cluster: string, vmid: int) {
    vm.cluster == cluster && vm.vmid == vmid && Active(vm)
  }

  /** SELECT ... WHERE cluster_key = $1 AND vmid = $2 AND deleted_at IS NULL */
  function Find(vms: map<int, Vm>, cluster: string, vmid: int, below: nat): (r: Option<int>)
    ensures r.Some? ==> 0 <= r.value < below && r.value in vms && Holds(vms[r.value], cluster, vmid)
    ensures r.None? ==> forall id :: 0 <= id < below && id in vms ==> !Holds(vms[id], cluster, vmid)
  {
    if below == 0 then None
    else if below - 1 in vms && Holds(vms[below - 1], cluster, vmid) then Some(below - 1)
    else Find(vms, cluster, vmid, below - 1)
  }

  function Refresh(vm: Vm, r: Resource): Vm {
    vm.(node := r.node, targetNode := r.node, ip := r.ip, storageKey := r.storageKey, bridgeKey := r.bridgeKey,
        cores := r.cores, memory := r.memory, disk := r.disk, realPower := r.power, sync := SyncUnmanaged)
  }

  function Discovered(cluster: string, r: Resource): Vm {
    Vm("__pve_unmanaged__", cluster, r.vmid, r.node, r.node, r.ip, "", "", r.storageKey, r.bridgeKey, r.cores, r.memory, r.disk,
       false, false, false, SyncUnmanaged, IntentUnmanaged, PowerUnknown, None, None, r.power, None, None, None)
  }

  datatype Rows = Rows(vms: map<int, Vm>, next: nat)

  /** upsertUnmanagedVM */
  function Upsert(rows: Rows, cluster: string, r: Resource): Rows {
    match Find(rows.vms, cluster, r.vmid, rows.next)
    case Some(id) => if rows.vms[id].managed then rows else rows.(vms := rows.vms[id := Refresh(rows.vms[id], r)])
    case None => Rows(rows.vms[rows.next := Discovered(cluster, r)], rows.next + 1)
  }

  function UpsertAll(rows: Rows, cluster: string, rs: seq<Resource>): Rows
    decreases |rs|
  {
    if rs == [] then rows
    else
      var last := rs[|rs| - 1];
      var before := UpsertAll(rows, cluster, rs[..|rs| - 1]);
      if Scanned(last) then Upsert(before, cluster, last) else before
  }

  function SeenVmids(rs: seq<Resource>): set<int> {
    set r | r in rs && Scanned(r) :: r.vmid
  }

  predicate Missing(vm: Vm, cluster: string, seen: set<int>) {
    vm.cluster == cluster && !vm.managed && Active(vm) && vm.vmid !in seen
  }

  function MarkRow(vm: Vm, now: Time): Vm {
    vm.(deletedAt := Some(now), sync := Synced, realPower := PowerDeleted)
  }

  /** markMissingUnmanagedVMsDeleted, as far as the rows in `swept`: it updates one row after another and may fail. */
  function MarkMissing(vms: map<int, Vm>, cluster: string, seen: set<int>, swept: set<int>, now: Time): map<int, Vm> {
    map id | id in vms :: if id in swept && Missing(vms[id], cluster, seen) then MarkRow(vms[id], now) else vms[id]
  }

  lemma MarkOneMore(vms: map<int, Vm>, cluster: string, seen: set<int>, swept: set<int>, id: int, now: Time)
    requires id in vms && Missing(vms[id], cluster, seen)
    ensures var before := MarkMissing(vms, cluster, seen, swept, now);
            && id in before
            && MarkMissing(vms, cluster, seen, swept + {id}, now)
            == if !before[id].managed && Active(before[id]) then before[id := MarkRow(before[id], now)] else before
  {
  }

  /** syncUnmanagedVMs for one cluster, cut short: `rs` are the resources it got to and `swept` the rows it marked. */
  function ScanPart(rows: Rows, cluster: string, rs: seq<Resource>, swept: set<int>, now: Time): Rows {
    var after := UpsertAll(rows, cluster, rs);
    after.(vms := MarkMissing(after.vms, cluster, SeenVmids(rs), swept, now))
  }

  /** syncUnmanagedVMs for one cluster when nothing fails. */
  function ScanCluster(rows: Rows, cluster: string, rs: seq<Resource>, now: Time): Rows {
    ScanPart(rows, cluster, rs, UpsertAll(rows, cluster, rs).vms.Keys, now)
  }

  // ---- invariants of the rows ----

  ghost predicate RowIdsBelow(rows: Rows) {
    forall id :: id in rows.vms ==> 0 <= id < rows.next
  }

  /** What the partial unique index on (cluster_key, vmid) WHERE deleted_at IS NULL enforces. */
  ghost predicate UniqueActive(vms: map<int, Vm>) {
    forall i, j :: i in vms && j in vms && i != j && Active(vms[i]) && Active(vms[j]) && vms[i].cluster == vms[j].cluster
      ==> vms[i].vmid != vms[j].vmid
  }

  /** The scan leaves managed rows alone, keeps the identity of the others, and adds only unmanaged rows. */
  ghost predicate ScanChange(a: Rows, b: Rows) {
    && a.next <= b.next
    && (forall id :: id in a.vms ==> id in b.vms && (a.vms[id].managed ==> b.vms[id] == a.vms[id]))
    && (forall id :: id in a.vms && !a.vms[id].managed ==> SameUnmanaged(a.vms[id], b.vms[id]))
    && (forall id :: id in b.vms && id !in a.vms ==> a.next <= id < b.next && FreshUnmanaged(b.vms[id]))
  }

  ghost predicate SameUnmanaged(v: Vm, v': Vm) {
    && !v'.managed && v'.cluster == v.cluster && v'.vmid == v.vmid && v'.owner == v.owner && v'.group == v.group
    && v'.requestedAt == v.requestedAt && v'.executeAfter == v.executeAfter
    && v'.preferAfter == v.preferAfter && v'.intent == v.intent
    && (v' == v || v'.sync == SyncUnmanaged || v'.sync == Synced)
    && (Active(v') ==> Active(v))
  }

  ghost predicate FreshUnmanaged(v: Vm) {
    && !v.managed && v.requestedAt == None && v.executeAfter == None && v.preferAfter == None
    && v.intent == IntentUnmanaged && (v.sync == SyncUnmanaged || v.sync == Synced)
  }

  lemma RefreshChange(rows: Rows, id: int, r: Resource)
    requires RowIdsBelow(rows) && UniqueActive(rows.vms) && id in rows.vms && !rows.vms[id].managed && Active(rows.vms[id])
    ensures var after := rows.(vms := rows.vms[id := Refresh(rows.vms[id], r)]);
            ScanChange(rows, after) && RowIdsBelow(after) && UniqueActive(after.vms)
  {
  }

  lemma InsertChange(rows: Rows, cluster: string, r: Resource)
    requires RowIdsBelow(rows) && UniqueActive(rows.vms)
    requires forall id :: id in rows.vms ==> !Holds(rows.vms[id], cluster, r.vmid)
    ensures var after := Rows(rows.vms[rows.next := Discovered(cluster, r)], rows.next + 1);
            ScanChange(rows, after) && RowIdsBelow(after) && UniqueActive(after.vms)
  {
    var vms := rows.vms[rows.next := Discovered(cluster, r)];
    forall i | i in rows.vms && Active(rows.vms[i]) && rows.vms[i].cluster == cluster
      ensures rows.vms[i].vmid != r.vmid
    {
      assert !Holds(rows.vms[i], cluster, r.vmid);
    }
  }

  lemma UpsertChange(rows: Rows, cluster: string, r: Resource)
    requires RowIdsBelow(rows) && UniqueActive(rows.vms)
    ensures var after := Upsert(rows, cluster, r);
            ScanChange(rows, after) && RowIdsBelow(after) && UniqueActive(after.vms)
  {
    match Find(rows.vms, cluster, r.vmid, rows.next)
    case Some(id) =>
      if !rows.vms[id].managed {
        RefreshChange(rows, id, r);
      }
    case None => InsertChange(rows, cluster, r);
  }

  lemma {:induction false} UpsertAllChange(rows: Rows, cluster: string, rs: seq<Resource>)
    requires RowIdsBelow(rows) && UniqueActive(rows.vms)
    ensures var after := UpsertAll(rows, cluster, rs);
            ScanChange(rows, after) && RowIdsBelow(after) && UniqueActive(after.vms)
    decreases |rs|
  {
    if rs != [] {
      var before := rs[..|rs| - 1];
      UpsertAllChange(rows, cluster, before);
      if Scanned(rs[|rs| - 1]) {
        UpsertChange(UpsertAll(rows, cluster, before), cluster, rs[|rs| - 1]);
      }
    }
  }

  /** Even a scan that fails midway only does these things. */
  lemma ScanPartChange(rows: Rows, cluster: string, rs: seq<Resource>, swept: set<int>, now: Time)
    requires RowIdsBelow(rows) && UniqueActive(rows.vms)
    ensures var after := ScanPart(rows, cluster, rs, swept, now);
            ScanChange(rows, after) && RowIdsBelow(after) && UniqueActive(after.vms)
  {
    UpsertAllChange(rows, cluster, rs);
  }

  // ---- what a successful scan establishes ----

  ghost predicate RowFor(vms: map<int, Vm>, cluster: string, vmid: int) {
    exists id :: id in vms && Holds(vms[id], cluster, vmid)
  }

  lemma UpsertAdds(rows: Rows, cluster: string, r: Resource)
    requires RowIdsBelow(rows)
    ensures RowFor(Upsert(rows, cluster, r).vms, cluster, r.vmid)
    ensures forall v :: RowFor(rows.vms, cluster, v) ==> RowFor(Upsert(rows, cluster, r).vms, cluster, v)
  {
    var after := Upsert(rows, cluster, r).vms;
    match Find(rows.vms, cluster, r.vmid, rows.next) {
      case Some(id) => assert Holds(after[id], cluster, r.vmid);
      case None => assert Holds(after[rows.next], cluster, r.vmid);
    }
    forall v | RowFor(rows.vms, cluster, v)
      ensures RowFor(after, cluster, v)
    {
      var id :| id in rows.vms && Holds(rows.vms[id], cluster, v);
      assert Holds(after[id], cluster, v);
    }
  }

  lemma {:induction false} UpsertAllAdds(rows: Rows, cluster: string, rs: seq<Resource>, v: int)
    requires RowIdsBelow(rows) && UniqueActive(rows.vms)
    requires v in SeenVmids(rs)
    ensures RowFor(UpsertAll(rows, cluster, rs).vms, cluster, v)
    decreases |rs|
  {
    var init, last := rs[..|rs| - 1], rs[|rs| - 1];
    var before := UpsertAll(rows, cluster, init);
    UpsertAllChange(rows, cluster, init);
    if Scanned(last) {
      UpsertAdds(before, cluster, last);
    }
    if !(Scanned(last) && last.vmid == v) {
      var r :| r in rs && Scanned(r) && r.vmid == v;
      assert r in init;
      UpsertAllAdds(rows, cluster, init, v);
    }
  }

  /** The active VMIDs after a scan are the scanned ones and those of active managed rows; a scanned VMID has exactly one
      active row; no active unmanaged row went unseen; managed rows and other clusters are untouched. */
  lemma ScanReconciles(rows: Rows, cluster: string, rs: seq<Resource>, now: Time)
    requires RowIdsBelow(rows) && UniqueActive(rows.vms)
    ensures var after := ScanCluster(rows, cluster, rs, now).vms;
            && (forall v :: RowFor(after, cluster, v) <==>
                  v in SeenVmids(rs) || exists id :: id in rows.vms && rows.vms[id].managed && Holds(rows.vms[id], cluster, v))
            && (forall i, j, v :: i in after && j in after && Holds(after[i], cluster, v) && Holds(after[j], cluster, v) ==> i == j)
            && (forall id :: id in after && !after[id].managed && Active(after[id]) && after[id].cluster == cluster ==> after[id].vmid in SeenVmids(rs))
            && (forall id :: id in rows.vms && rows.vms[id].managed ==> id in after && after[id] == rows.vms[id])
            && (forall id :: id in rows.vms && rows.vms[id].cluster != cluster ==> id in after && after[id] == rows.vms[id])
  {
    var seen := SeenVmids(rs);
    var mid := UpsertAll(rows, cluster, rs);
    var after := ScanCluster(rows, cluster, rs, now).vms;
    UpsertAllChange(rows, cluster, rs);
    ScanPartChange(rows, cluster, rs, mid.vms.Keys, now);
    OtherClusters(rows, cluster, rs);
    forall v | v in seen
      ensures RowFor(after, cluster, v)
    {
      UpsertAllAdds(rows, cluster, rs, v);
      var id :| id in mid.vms && Holds(mid.vms[id], cluster, v);
      assert Holds(after[id], cluster, v);
    }
    forall v, id | id in rows.vms && rows.vms[id].managed && Holds(rows.vms[id], cluster, v)
      ensures RowFor(after, cluster, v)
    {
      assert Holds(after[id], cluster, v);
    }
    forall v | RowFor(after, cluster, v)
      ensures v in seen || exists id :: id in rows.vms && rows.vms[id].managed && Holds(rows.vms[id], cluster, v)
    {
      var id :| id in after && Holds(after[id], cluster, v);
      if after[id].managed {
        assert id in rows.vms && Holds(rows.vms[id], cluster, v);
      }
    }
  }

  lemma {:induction false} OtherClusters(rows: Rows, cluster: string, rs: seq<Resource>)
    requires RowIdsBelow(rows) && UniqueActive(rows.vms)
    ensures forall id :: id in rows.vms && rows.vms[id].cluster != cluster ==>
              id in UpsertAll(rows, cluster, rs).vms && UpsertAll(rows, cluster, rs).vms[id] == rows.vms[id]
    decreases |rs|
  {
    if rs != [] {
      OtherClusters(rows, cluster, rs[..|rs| - 1]);
      UpsertAllChange(rows, cluster, rs[..|rs| - 1]);
    }
  }

  // ---- what the rows show after a scan ----

  /** The row shows what PVE reported. */
  predicate Shows(vm: Vm, r: Resource) {
    && vm.vmid == r.vmid && vm.node == r.node && vm.targetNode == r.node && vm.ip == r.ip && vm.storageKey == r.storageKey
    && vm.bridgeKey == r.bridgeKey && vm.cores == r.cores && vm.memory == r.memory && vm.disk == r.disk && vm.realPower == r.power
    && vm.sync == SyncUnmanaged
  }

  /** `rs[i]` is a virtual machine, and the last thing reported about its VMID. */
  predicate LastReport(rs: seq<Resource>, i: int) {
    && 0 <= i < |rs| && rs[i].qemu && rs[i].vmid > 0
    && forall j :: i < j < |rs| && rs[j].qemu ==> rs[j].vmid != rs[i].vmid
  }

  /** A machine nobody manages. */
  predicate Unowned(vm: Vm, cluster: string) {
    && vm.owner == "__pve_unmanaged__" && vm.cluster == cluster && !vm.managed && !vm.exempt && !vm.paused
    && vm.intent == IntentUnmanaged && vm.requestedAt.None? && vm.executeAfter.None? && vm.deletedAt.None?
  }

  lemma UpsertShows(rows: Rows, cluster: string, r: Resource)
    requires RowIdsBelow(rows) && UniqueActive(rows.vms)
    ensures var after := Upsert(rows, cluster, r).vms;
            && (forall id :: id in after && Holds(after[id], cluster, r.vmid) && !after[id].managed ==> Shows(after[id], r))
            && (forall id :: id in rows.vms && !Holds(rows.vms[id], cluster, r.vmid) ==> id in after && after[id] == rows.vms[id])
            && (forall id :: id in after && id !in rows.vms ==> Unowned(after[id], cluster) && after[id].vmid == r.vmid)
            && (forall id :: id in rows.vms && Unowned(rows.vms[id], cluster) ==> Unowned(after[id], cluster))
            && (forall id :: id in rows.vms ==> id in after && after[id].vmid == rows.vms[id].vmid && after[id].cluster == rows.vms[id].cluster
                                                && after[id].deletedAt == rows.vms[id].deletedAt && after[id].managed == rows.vms[id].managed)
  {
    if Find(rows.vms, cluster, r.vmid, rows.next).Some? {
      var found := Find(rows.vms, cluster, r.vmid, rows.next).value;
      forall id | id in rows.vms && Holds(rows.vms[id], cluster, r.vmid)
        ensures id == found
      {
      }
    }
  }

  lemma {:induction false} UpsertAllShows(rows: Rows, cluster: string, rs: seq<Resource>)
    requires RowIdsBelow(rows) && UniqueActive(rows.vms)
    ensures var after := UpsertAll(rows, cluster, rs).vms;
            && (forall i, id :: LastReport(rs, i) && id in after && Holds(after[id], cluster, rs[i].vmid) && !after[id].managed ==> Shows(after[id], rs[i]))
            && (forall id :: id in rows.vms && (rows.vms[id].vmid !in SeenVmids(rs) || !Active(rows.vms[id])) ==> id in after && after[id] == rows.vms[id])
            && (forall id :: id in after && id !in rows.vms ==> Unowned(after[id], cluster) && after[id].vmid in SeenVmids(rs))
            && (forall id :: id in rows.vms ==> id in after && after[id].vmid == rows.vms[id].vmid && after[id].cluster == rows.vms[id].cluster
                                                && after[id].deletedAt == rows.vms[id].deletedAt && after[id].managed == rows.vms[id].managed)
    decreases |rs|
  {
    hide Shows, Unowned, Upsert;
    if rs != [] {
      var init, last := rs[..|rs| - 1], rs[|rs| - 1];
      var before := UpsertAll(rows, cluster, init);
      UpsertAllShows(rows, cluster, init);
      UpsertAllChange(rows, cluster, init);
      assert rs == init + [last];
      assert forall v :: v in SeenVmids(init) ==> v in SeenVmids(rs);
      forall i | LastReport(rs, i) && i < |init|
        ensures LastReport(init, i) && init[i] == rs[i]
      {
        assert forall j :: i < j < |init| ==> init[j] == rs[j];
      }
      if Scanned(last) {
        assert last.vmid in SeenVmids(rs);
        UpsertShows(before, cluster, last);
        UpsertShowsNext(rows, before, cluster, rs);
      }
    }
  }

  lemma UpsertShowsNext(rows: Rows, before: Rows, cluster: string, rs: seq<Resource>)
    requires rs != [] && Scanned(rs[|rs| - 1]) && RowIdsBelow(before) && UniqueActive(before.vms)
    requires forall i, id :: LastReport(rs, i) && i < |rs| - 1 && id in before.vms && Holds(before.vms[id], cluster, rs[i].vmid) && !before.vms[id].managed
                             ==> Shows(before.vms[id], rs[i])
    requires forall id :: id in before.vms && id !in rows.vms ==> Unowned(before.vms[id], cluster)
    ensures var after := Upsert(before, cluster, rs[|rs| - 1]).vms;
            && (forall i, id :: LastReport(rs, i) && id in after && Holds(after[id], cluster, rs[i].vmid) && !after[id].managed ==> Shows(after[id], rs[i]))
            && (forall id :: id in after && id !in rows.vms ==> Unowned(after[id], cluster))
  {
    hide Shows, Upsert;
    UpsertShows(before, cluster, rs[|rs| - 1]);
  }

  /** After a scan every active unmanaged row of the cluster shows the last report about its VMID; one that was not reported is
      deleted, at the time of the scan, and otherwise as it was; a deleted row stays as it was; and a new row is nobody's. */
  lemma ScanShowsReports(rows: Rows, cluster: string, rs: seq<Resource>, now: Time)
    requires RowIdsBelow(rows) && UniqueActive(rows.vms)
    ensures var after := ScanCluster(rows, cluster, rs, now).vms;
            && (forall i, id :: LastReport(rs, i) && id in after && Holds(after[id], cluster, rs[i].vmid) && !after[id].managed ==> Shows(after[id], rs[i]))
            && (forall id :: id in rows.vms && rows.vms[id].cluster == cluster && !rows.vms[id].managed && Active(rows.vms[id])
                             && rows.vms[id].vmid !in SeenVmids(rs) ==>
                  id in after && after[id] == rows.vms[id].(deletedAt := Some(now), sync := Synced, realPower := PowerDeleted))
            && (forall id :: id in rows.vms && rows.vms[id].deletedAt.Some? ==> id in after && after[id] == rows.vms[id])
            && (forall id :: id in after && id !in rows.vms ==> Unowned(after[id], cluster))
  {
    hide Shows, UpsertAll;
    UpsertAllShows(rows, cluster, rs);
  }

  // ---- the worker's loops ----

  method UpsertUnmanagedVm(rows: Rows, cluster: string, r: Resource) returns (after: Rows)
    ensures after == Upsert(rows, cluster, r)
  {
    var found: Option<int> := None;
    var id := rows.next;
    while id > 0
      invariant found == None && Find(rows.vms, cluster, r.vmid, rows.next) == Find(rows.vms, cluster, r.vmid, id)
    {
      id := id - 1;
      if id in rows.vms && Holds(rows.vms[id], cluster, r.vmid) {
        found := Some(id);
        break;
      }
    }
    if found.Some? {
      if rows.vms[found.value].managed {
        return rows;
      }
      return rows.(vms := rows.vms[found.value := Refresh(rows.vms[found.value], r)]);
    }
    return Rows(rows.vms[rows.next := Discovered(cluster, r)], rows.next + 1);
  }
}
