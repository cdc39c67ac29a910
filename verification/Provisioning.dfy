/** Provisioning as a compensating transaction: clone, migrate, configure, start, and undo by deleting the clone.
    PVE is the map from VMIDs to the nodes that hold them; an arbitrary fault pattern decides every call. */
module Provisioning {
  import opened Records

  /** Every call a provisioning makes that may fail, by call site. */
  datatype Call =
    | FindVm | ListTemplates | CreatePool | Clone | Migrate | CleanupDelete | FindClone
    | MarkNode | EnsurePool | SetPool | GetConfig | SetConfig | MoveDisk | MoveTpm | Resize | Firewall | ApplyPower | MarkSynced
    | RollbackDelete

  /** A failed call has no effect, except that a migration reported as failed may have arrived all the same. */
  datatype Faults = Faults(fails: Call -> bool, arrivedAnyway: bool)

  type Guests = map<int, string>

  /** ListTemplates drops entries without a node. */
  type NodeName = s: string | s != "" witness "pve"

  /** What createVM and syncPresent read: the row, the prefer document and the configuration, with names trimmed. */
  datatype Job = Job(
    vmid: int,
    node: string,
    targetNode: string,
    preferTarget: string,
    templateVmid: int,
    templates: map<int, NodeName>,
    storage: string,
    nameOk: bool,
    clusterKnown: bool,
    bridgeKnown: bool,
    needs: Call -> bool)     // which of SetConfig, MoveDisk, MoveTpm and Resize the present configuration calls for

  /** No node means the step returned an error. */
  datatype Made = Made(guests: Guests, node: Option<string>)

  datatype Final = Final(guests: Guests, ok: bool)

  // ---- PVE ----

  /** DeleteVM: a VM that is not on the node counts as deleted. */
  function Erase(g: Guests, fails: bool, node: string, vmid: int): Guests {
    if !fails && vmid in g && g[vmid] == node then g - {vmid} else g
  }

  function Target(job: Job, templateNode: string): string {
    if job.targetNode != "" then job.targetNode
    else if job.preferTarget != "" then job.preferTarget
    else if job.node != "" then job.node
    else templateNode
  }

  // ---- the worker's code as functions of the fault pattern ----

  predicate MayClone(f: Faults, job: Job) {
    && job.templateVmid > 0
    && !f.fails(ListTemplates)
    && job.templateVmid in job.templates
    && job.storage != ""
    && job.nameOk
    && !f.fails(CreatePool)
    && !f.fails(Clone)
  }

  /** createVM */
  function CreateVm(g: Guests, f: Faults, job: Job): Made {
    if !MayClone(f, job) then Made(g, None)
    else
      var home := job.templates[job.templateVmid];
      var target := Target(job, home);
      var cloned := g[job.vmid := home];
      if target != home then
        if f.fails(Migrate) then
          var left := if f.arrivedAnyway then g[job.vmid := target] else cloned;
          Made(Erase(left, f.fails(CleanupDelete), home, job.vmid), None)
        else if f.fails(FindClone) then Made(g[job.vmid := target], None)
        else Made(g[job.vmid := target], Some(target))
      else if f.fails(FindClone) then Made(cloned, None)
      else Made(cloned, Some(home))
  }

  /** Everything syncPresent does once the VM exists. */
  predicate Settles(f: Faults, job: Job, node: string) {
    && (node != "" && job.node != node ==> !f.fails(MarkNode))
    && !f.fails(EnsurePool) && !f.fails(SetPool)
    && job.bridgeKnown
    && !f.fails(GetConfig)
    && (forall call :: call in {SetConfig, MoveDisk, MoveTpm, Resize} && job.needs(call) ==> !f.fails(call))
    && !f.fails(Firewall)
    && !f.fails(ApplyPower) && !f.fails(MarkSynced)
  }

  /** syncPresent */
  function SyncPresent(g: Guests, f: Faults, job: Job): Final {
    if !job.clusterKnown || f.fails(FindVm) then Final(g, false)
    else if job.vmid in g then Final(g, Settles(f, job, g[job.vmid]))
    else
      var made := CreateVm(g, f, job);
      if made.node == None then Final(made.guests, false)
      else if Settles(f, job, made.node.value) then Final(made.guests, true)
      else if made.node.value == "" then Final(made.guests, false)
      else Final(Erase(made.guests, f.fails(RollbackDelete), made.node.value, job.vmid), false)
  }

  // ---- main results ----

  /** A VM that was there before is never deleted or moved, and nothing happens to any other VM. */
  lemma ExistingVmsSurvive(g: Guests, f: Faults, job: Job)
    ensures var g' := SyncPresent(g, f, job).guests;
            && (job.vmid in g ==> g' == g)
            && (forall v :: v != job.vmid ==> (v in g' <==> v in g) && (v in g ==> g'[v] == g[v]))
  {
  }

  /** The node that was asked for: the row's target node, else the one in the prefer document, else the row's node, and the
      template's node only if none of them is given. */
  predicate AskedFor(job: Job, home: string, node: string) {
    && (job.targetNode != "" ==> node == job.targetNode)
    && (job.targetNode == "" && job.preferTarget != "" ==> node == job.preferTarget)
    && (job.targetNode == "" && job.preferTarget == "" && job.node != "" ==> node == job.node)
    && (job.targetNode == "" && job.preferTarget == "" && job.node == "" ==> node == home)
  }

  /** Success means the VM is there: on the node that was asked for if it was created, where it was otherwise. */
  lemma SuccessMeansPresent(g: Guests, f: Faults, job: Job)
    requires SyncPresent(g, f, job).ok
    ensures var g' := SyncPresent(g, f, job).guests;
            && job.vmid in g'
            && (if job.vmid in g then g' == g else job.templateVmid in job.templates && AskedFor(job, job.templates[job.templateVmid], g'[job.vmid]))
  {
  }

  /** None of the later calls that are made for a VM on this node fails. */
  predicate LaterCallsWork(f: Faults, job: Job, node: string) {
    && !f.fails(EnsurePool) && !f.fails(SetPool) && !f.fails(GetConfig) && !f.fails(Firewall) && !f.fails(ApplyPower) && !f.fails(MarkSynced)
    && (job.node != node && node != "" ==> !f.fails(MarkNode))
    && (job.needs(SetConfig) ==> !f.fails(SetConfig)) && (job.needs(MoveDisk) ==> !f.fails(MoveDisk))
    && (job.needs(MoveTpm) ==> !f.fails(MoveTpm)) && (job.needs(Resize) ==> !f.fails(Resize))
  }

  /** Exactly when a provisioning of a new VM succeeds: the job names what it needs, and no call it has to make fails. */
  lemma CreationSucceedsExactly(g: Guests, f: Faults, job: Job, node: string)
    requires job.vmid !in g && job.templateVmid in job.templates && AskedFor(job, job.templates[job.templateVmid], node)
    ensures SyncPresent(g, f, job).ok <==>
              && job.clusterKnown && job.templateVmid > 0 && job.storage != "" && job.nameOk && job.bridgeKnown
              && !f.fails(FindVm) && !f.fails(ListTemplates) && !f.fails(CreatePool) && !f.fails(Clone) && !f.fails(FindClone)
              && (node != job.templates[job.templateVmid] ==> !f.fails(Migrate))
              && LaterCallsWork(f, job, node)
  {
  }

  /** And of one that is there: it is only configured. */
  lemma ReconfigurationSucceedsExactly(g: Guests, f: Faults, job: Job)
    requires job.vmid in g
    ensures SyncPresent(g, f, job).ok <==> job.clusterKnown && !f.fails(FindVm) && job.bridgeKnown && LaterCallsWork(f, job, g[job.vmid])
  {
  }

  predicate Migrates(job: Job) {
    job.templateVmid in job.templates &&
    Target(job, job.templates[job.templateVmid]) != job.templates[job.templateVmid]
  }

  /** The three ways a failed provisioning leaves its clone behind: the clean-up after a failed migration fails or misses a
      VM that arrived anyway, the lookup after the clone fails (it returns before the rollback is armed), or the rollback
      itself fails. */
  predicate LeavesClone(f: Faults, job: Job) {
    && job.clusterKnown && !f.fails(FindVm) && MayClone(f, job)
    && if Migrates(job) && f.fails(Migrate) then f.fails(CleanupDelete) || f.arrivedAnyway
       else f.fails(FindClone) || f.fails(RollbackDelete)
  }

  /** All or nothing, exactly: a provisioning that reports failure has left PVE as it was if and only if none of those
      three happened. */
  lemma ProvisioningIsAllOrNothing(g: Guests, f: Faults, job: Job)
    requires job.vmid !in g && !SyncPresent(g, f, job).ok
    ensures SyncPresent(g, f, job).guests == g <==> !LeavesClone(f, job)
    ensures LeavesClone(f, job) <==> job.vmid in SyncPresent(g, f, job).guests
  {
    var g' := SyncPresent(g, f, job).guests;
    if MayClone(f, job) {
      var home := job.templates[job.templateVmid];
      assert g[job.vmid := home] - {job.vmid} == g;
      assert g[job.vmid := Target(job, home)] - {job.vmid} == g;
    }
  }

  /** One failing call is enough: the lookup right after the clone. */
  lemma CloneIsLeftBehind()
    ensures var job := Job(100, "", "", "", 9000, map[9000 := "n"], "s", true, true, true, _ => false);
            var f := Faults(call => call == FindClone, false);
            LeavesClone(f, job) && !SyncPresent(map[], f, job).ok && SyncPresent(map[], f, job).guests == map[100 := "n"]
  {
  }

  /** With the lookup after the clone and the compensating deletes working and migrations atomic, any other faults whatever
      leave no trace, so the next attempt starts from the same PVE state. */
  lemma FailedProvisioningLeavesNoTrace(g: Guests, f: Faults, job: Job)
    requires !f.fails(FindClone) && !f.fails(CleanupDelete) && !f.fails(RollbackDelete) && !f.arrivedAnyway
    requires !SyncPresent(g, f, job).ok
    ensures SyncPresent(g, f, job).guests == g
  {
    if job.vmid !in g {
      ProvisioningIsAllOrNothing(g, f, job);
    }
  }

  // ---- over all retries of a task ----

  /** PVE after one attempt per fault pattern; a task is retried with the same job. */
  function Attempts(g: Guests, fs: seq<Faults>, job: Job): Guests
    decreases |fs|
  {
    if fs == [] then g else SyncPresent(Attempts(g, fs[..|fs| - 1], job), fs[|fs| - 1], job).guests
  }

  /** An attempt that finds the VM absent and brings it into being, by success or by leaving its clone. */
  predicate Appears(g: Guests, f: Faults, job: Job) {
    SyncPresent(g, f, job).ok || LeavesClone(f, job)
  }

  /** Conservation over any number of attempts under any faults: no other VM is ever touched, a VM that has appeared stays
      where it is, and one has appeared exactly if some attempt succeeded or left its clone; until then PVE is as it was. */
  lemma {:induction false} AttemptsConserve(g: Guests, fs: seq<Faults>, job: Job)
    requires job.vmid !in g
    ensures var g' := Attempts(g, fs, job);
            && (forall v :: v != job.vmid ==> (v in g' <==> v in g) && (v in g ==> g'[v] == g[v]))
            && (job.vmid in g' <==> exists i :: 0 <= i < |fs| && Appears(g, fs[i], job))
            && (job.vmid !in g' ==> g' == g)
    ensures forall n :: 0 <= n <= |fs| && job.vmid in Attempts(g, fs[..n], job) ==> Attempts(g, fs, job) == Attempts(g, fs[..n], job)
    decreases |fs|
  {
    if fs == [] {
      assert fs[..0] == fs;
    } else {
      var init, last := fs[..|fs| - 1], fs[|fs| - 1];
      var before := Attempts(g, init, job);
      AttemptsConserve(g, init, job);
      ExistingVmsSurvive(before, last, job);
      if job.vmid !in before {
        AttemptAppears(g, last, job);
      }
      assert fs == init + [last];
      forall n | 0 <= n <= |fs| && job.vmid in Attempts(g, fs[..n], job)
        ensures Attempts(g, fs, job) == Attempts(g, fs[..n], job)
      {
        if n < |fs| {
          assert fs[..n] == init[..n];
        } else {
          assert fs[..n] == fs;
        }
      }
      assert Appears(g, last, job) == Appears(g, fs[|fs| - 1], job);
      forall i | 0 <= i < |fs| - 1
        ensures fs[i] == init[i]
      {
      }
    }
  }

  lemma AttemptAppears(g: Guests, f: Faults, job: Job)
    requires job.vmid !in g
    ensures job.vmid in SyncPresent(g, f, job).guests <==> Appears(g, f, job)
    ensures !Appears(g, f, job) ==> SyncPresent(g, f, job).guests == g
  {
    if SyncPresent(g, f, job).ok {
      SuccessMeansPresent(g, f, job);
    } else {
      ProvisioningIsAllOrNothing(g, f, job);
    }
  }

  // ---- the code ----

  /** A PVE cluster under a fault pattern. */
  class Pve {
    var guests: Guests
    const faults: Faults

    constructor (guests: Guests, faults: Faults)
      ensures this.guests == guests && this.faults == faults
    {
      this.guests := guests;
      this.faults := faults;
    }

    method Ask(call: Call) returns (ok: bool)
      ensures ok == !faults.fails(call)
    {
      ok := !faults.fails(call);
    }

    method FindVmNode(call: Call, vmid: int) returns (ok: bool, node: Option<string>)
      ensures ok == !faults.fails(call)
      ensures ok ==> node == if vmid in guests then Some(guests[vmid]) else None
    {
      ok := !faults.fails(call);
      node := if vmid in guests then Some(guests[vmid]) else None;
    }

    method CloneFull(home: string, vmid: int) returns (ok: bool)
      modifies this`guests
      ensures ok == !faults.fails(Clone)
      ensures guests == if ok then old(guests)[vmid := home] else old(guests)
    {
      ok := !faults.fails(Clone);
      if ok {
        guests := guests[vmid := home];
      }
    }

    method MigrateVm(source: string, vmid: int, target: string) returns (ok: bool)
      modifies this`guests
      ensures source == "" || target == "" || source == target ==> ok && guests == old(guests)
      ensures source != "" && target != "" && source != target ==>
                && ok == !faults.fails(Migrate)
                && guests == if ok || faults.arrivedAnyway then old(guests)[vmid := target] else old(guests)
    {
      if source == "" || target == "" || source == target {
        return true;
      }
      ok := !faults.fails(Migrate);
      if ok || faults.arrivedAnyway {
        guests := guests[vmid := target];
      }
    }

    method DeleteVm(call: Call, node: string, vmid: int) returns (ok: bool)
      modifies this`guests
      ensures ok == !faults.fails(call)
      ensures guests == Erase(old(guests), faults.fails(call), node, vmid)
    {
      ok := !faults.fails(call);
      if ok && vmid in guests && guests[vmid] == node {
        guests := guests - {vmid};
      }
    }
  }

  method CreateOnPve(pve: Pve, job: Job) returns (node: Option<string>)
    modifies pve`guests
    ensures Made(pve.guests, node) == CreateVm(old(pve.guests), pve.faults, job)
    ensures node.Some? ==>
              && job.templateVmid in job.templates && AskedFor(job, job.templates[job.templateVmid], node.value)
              && pve.guests == old(pve.guests)[job.vmid := node.value]
  {
    if job.templateVmid <= 0 {
      return None;
    }
    var ok := pve.Ask(ListTemplates);
    if !ok || job.templateVmid !in job.templates || job.storage == "" || !job.nameOk {
      return None;
    }
    var home := job.templates[job.templateVmid];
    var target := job.targetNode;
    if target == "" {
      target := job.preferTarget;
    }
    if target == "" {
      target := job.node;
    }
    if target == "" {
      target := home;
    }
    ok := pve.Ask(CreatePool);
    if !ok {
      return None;
    }
    ok := pve.CloneFull(home, job.vmid);
    if !ok {
      return None;
    }
    var current := home;
    if target != "" && target != home {
      ok := pve.MigrateVm(home, job.vmid, target);
      if !ok {
        var _ := pve.DeleteVm(CleanupDelete, current, job.vmid);
        return None;
      }
      current := target;
    }
    var found, where_ := pve.FindVmNode(FindClone, job.vmid);
    if !found {
      return None;
    }
    if where_.Some? {
      return where_;
    }
    return Some(current);
  }

  method ConfigureOnPve(pve: Pve, job: Job, node: string) returns (ok: bool)
    ensures ok == Settles(pve.faults, job, node)
    ensures ok <==> job.bridgeKnown && LaterCallsWork(pve.faults, job, node)
  {
    if node != "" && job.node != node {
      ok := pve.Ask(MarkNode);
      if !ok { return false; }
    }
    ok := pve.Ask(EnsurePool);
    if !ok { return false; }
    ok := pve.Ask(SetPool);
    if !ok { return false; }
    if !job.bridgeKnown { return false; }
    ok := pve.Ask(GetConfig);
    if !ok { return false; }
    if job.needs(SetConfig) {
      ok := pve.Ask(SetConfig);
      if !ok { return false; }
    }
    if job.needs(MoveDisk) {
      ok := pve.Ask(MoveDisk);
      if !ok { return false; }
    }
    if job.needs(MoveTpm) {
      ok := pve.Ask(MoveTpm);
      if !ok { return false; }
    }
    if job.needs(Resize) {
      ok := pve.Ask(Resize);
      if !ok { return false; }
    }
    ok := pve.Ask(Firewall);
    if !ok { return false; }
    ok := pve.Ask(ApplyPower);
    if !ok { return false; }
    ok := pve.Ask(MarkSynced);
  }

  /** syncPresent, with its deferred rollback written out at the end. */
  method SyncOnPve(pve: Pve, job: Job) returns (ok: bool)
    modifies pve`guests
    ensures Final(pve.guests, ok) == SyncPresent(old(pve.guests), pve.faults, job)
  {
    if !job.clusterKnown {
      return false;
    }
    var found, node := pve.FindVmNode(FindVm, job.vmid);
    if !found {
      return false;
    }
    var created := false;
    if node.None? {
      node := CreateOnPve(pve, job);
      if node.None? {
        return false;
      }
      created := true;
    }
    ok := ConfigureOnPve(pve, job, node.value);
    if !ok && created && node.value != "" {
      var _ := pve.DeleteVm(RollbackDelete, node.value, job.vmid);
    }
  }
}
