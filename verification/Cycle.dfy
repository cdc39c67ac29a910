/** What one cycle of the worker has to consist of: its events by stage, and what each stage owes to the tables it found. */
module Cycle {
  import opened Records
  import opened TaskQueue
  import opened Machine
  import opened Serial
  import opened Statements
  import Expiry
  import Inventory

  /** One cluster's turn in an inventory scan; no resources means that PVE could not be asked. */
  datatype Listing = Listing(cluster: string, resources: Option<seq<Inventory.Resource>>)

  /** The events of a cycle in the order of syncOnce; `asOf` is the time of the expiry query. */
  datatype Trace = Trace(
    recovered: seq<Event>,
    scanned: seq<Event>,
    expired: seq<Event>,
    canceled: seq<Event>,
    selected: seq<Event>,
    turned: seq<Event>,
    purged: seq<Event>,
    asOf: Time)

  ghost function Prepared(t: Trace): seq<Event> {
    t.recovered + t.scanned + (t.expired + t.canceled)
  }

  ghost function Worked(t: Trace): seq<Event> {
    t.selected + t.turned + t.purged
  }

  /** Each event scans its listing: all of it but for the last one, which may be cut short. */
  ghost predicate Scans(listings: seq<Listing>, es: seq<Event>) {
    && |es| <= |listings|
    && forall k :: 0 <= k < |es| ==>
         && es[k].ScanOf? && es[k].cluster == listings[k].cluster && listings[k].resources.Some?
         && es[k].found <= listings[k].resources.value
         && (k < |es| - 1 ==> es[k].found == listings[k].resources.value)
  }

  /** Every listing has been scanned to its end. */
  ghost predicate ScansAll(listings: seq<Listing>, es: seq<Event>) {
    Scans(listings, es) && |es| == |listings| && forall k :: 0 <= k < |es| ==> es[k].found == listings[k].resources.value
  }

  ghost predicate Answered(listings: seq<Listing>) {
    forall k :: 0 <= k < |listings| ==> listings[k].resources.Some?
  }

  /** A delete is queued for every overdue VM without one, once each, and for no other. */
  ghost predicate QueuesExpired(c: Clockwork, db: Db, es: seq<Event>, asOf: Time) {
    && (forall i :: 0 <= i < |es| ==> es[i].Work? && es[i].action.QueueExpired? && es[i].action.asOf == asOf)
    && (forall i, j :: 0 <= i < j < |es| ==> es[i].action.vm < es[j].action.vm)
    && (forall id :: Overdue(c, db, id, asOf) <==> exists i :: 0 <= i < |es| && es[i].action.vm == id)
  }

  /** Managed VMs are the same, and the queue differs at most in which open tasks are pending, running or failed. */
  ghost predicate SameDeletions(a: Db, b: Db) {
    && (forall id :: id in a.vms && a.vms[id].managed ==> id in b.vms && b.vms[id] == a.vms[id])
    && (forall id :: id in b.vms && b.vms[id].managed ==> id in a.vms && b.vms[id] == a.vms[id])
    && b.queue.rows.Keys == a.queue.rows.Keys
    && (forall t :: t in a.queue.rows ==>
          && b.queue.rows[t].vm == a.queue.rows[t].vm && b.queue.rows[t].kind == a.queue.rows[t].kind
          && (OpenStatus(b.queue.rows[t].status) <==> OpenStatus(a.queue.rows[t].status)))
  }

  lemma SameDeletionsChain(a: Db, b: Db, d: Db)
    requires SameDeletions(a, b) && SameDeletions(b, d)
    ensures SameDeletions(a, d)
  {
  }

  lemma RecoveryKeepsDeletions(a: Db, b: Db, stale: Time -> bool)
    requires b.vms == a.vms && Recovered(a.queue.rows, b.queue.rows, stale)
    ensures SameDeletions(a, b)
  {
  }

  lemma ScanKeepsDeletions(a: Db, b: Db)
    requires b.queue == a.queue && Inventory.ScanChange(RowsOf(a), RowsOf(b))
    ensures SameDeletions(a, b)
  {
  }

  /** So the same VMs are overdue. */
  lemma OverdueThroughout(c: Clockwork, a: Db, b: Db, asOf: Time)
    requires SameDeletions(a, b)
    ensures forall id :: Overdue(c, a, id, asOf) <==> Overdue(c, b, id, asOf)
  {
  }

  lemma QueuedThroughout(c: Clockwork, a: Db, b: Db, es: seq<Event>, asOf: Time)
    requires SameDeletions(a, b) && QueuesExpired(c, b, es, asOf)
    ensures QueuesExpired(c, a, es, asOf)
  {
    OverdueThroughout(c, a, b, asOf);
  }

  // ---- what the preparation is for ----

  /** The VM's one open task is a delete task. */
  ghost predicate OnlyDeleteIsOpen(rows: map<int, Task>, vm: int) {
    exists id :: id in rows && rows[id].vm == vm && rows[id].kind == Delete && OpenStatus(rows[id].status)
                 && forall j :: j in rows && rows[j].vm == vm && OpenStatus(rows[j].status) ==> j == id
  }

  /** The deletion of a VM the worker may touch is requested and its deadline has passed. */
  predicate Due(c: Clockwork, db: Db, vm: int, asOf: Time) {
    && vm in db.vms
    && var v := db.vms[vm];
    v.deletedAt.None? && v.managed && !v.paused && v.requestedAt.Some? && v.executeAfter.Some? && c.le(v.executeAfter.value, asOf)
  }

  /** Every VM whose deletion is due at `asOf` is about to be deleted. */
  ghost predicate DueAreNext(c: Clockwork, db: Db, asOf: Time) {
    forall vm :: Due(c, db, vm, asOf) ==> OnlyDeleteIsOpen(db.queue.rows, vm)
  }

  /** The cancellation keeps the delete tasks the expiry query has made sure of, and leaves nothing else. */
  lemma SweepLeavesTheDelete(c: Clockwork, vms: map<int, Vm>, a: map<int, Task>, b: map<int, Task>, vm: int)
    requires Superseded(vms, a, b) && BeingDeleted(vms, vm) && Expiry.ExactlyOneLiveDelete(a, vm)
    ensures OnlyDeleteIsOpen(b, vm)
  {
    var id :| id in a && LiveDelete(a[id], vm) && forall j :: j in a && LiveDelete(a[j], vm) ==> j == id;
    forall j | j in b && b[j].vm == vm && OpenStatus(b[j].status)
      ensures j == id
    {
      assert b[j] == a[j];
    }
  }

  lemma DueAreNextAfter(c: Clockwork, db: Db, b: Db, asOf: Time)
    requires b.vms == db.vms && Superseded(db.vms, db.queue.rows, b.queue.rows)
    requires forall id :: Expiry.Due(c, db, id, asOf) ==> Expiry.ExactlyOneLiveDelete(db.queue.rows, id)
    ensures DueAreNext(c, b, asOf)
  {
    forall vm | Due(c, b, vm, asOf)
      ensures OnlyDeleteIsOpen(b.queue.rows, vm)
    {
      assert Expiry.Due(c, db, vm, asOf);
      SweepLeavesTheDelete(c, db.vms, db.queue.rows, b.queue.rows, vm);
    }
  }
}
