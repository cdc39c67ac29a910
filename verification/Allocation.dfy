/** Sums and searches over the `vms` rows: quota usage, the next free VMID, and the node a new VM is placed on.
    Row ids come from a counter, so a scan over all rows is a scan of the ids below it. */
module Allocation {
  import opened Records
  import opened Sets
  import opened Strings
  import Placement

  datatype Usage = Usage(count: int, cpu: int, memory: int, storage: int)

  const NO_USAGE := Usage(0, 0, 0, 0)

  function Plus(a: Usage, b: Usage): Usage {
    Usage(a.count + b.count, a.cpu + b.cpu, a.memory + b.memory, a.storage + b.storage)
  }

  function Minus(a: Usage, b: Usage): Usage {
    Usage(a.count - b.count, a.cpu - b.cpu, a.memory - b.memory, a.storage - b.storage)
  }

  function RowUsage(vm: Vm): Usage {
    Usage(1, vm.cores, vm.memory, vm.disk)
  }

  // ---- quota usage ----

  predicate CountsFor(vm: Vm, user: string) {
    vm.owner == user && Active(vm) && vm.managed && !vm.exempt
  }

  function UsageBelow(vms: map<int, Vm>, user: string, n: nat): Usage {
    if n == 0 then NO_USAGE
    else
      var rest := UsageBelow(vms, user, n - 1);
      if n - 1 in vms && CountsFor(vms[n - 1], user) then Plus(rest, RowUsage(vms[n - 1])) else rest
  }

  function UserUsage(db: Db, user: string): Usage {
    UsageBelow(db.vms, user, db.nextVm)
  }

  /** listUserVMUsage */
  method ListUserVmUsage(db: Db, user: string) returns (count: int, cpu: int, memory: int, storage: int)
    ensures Usage(count, cpu, memory, storage) == UserUsage(db, user)
  {
    count, cpu, memory, storage := 0, 0, 0, 0;
    var id := 0;
    while id < db.nextVm
      invariant 0 <= id <= db.nextVm
      invariant Usage(count, cpu, memory, storage) == UsageBelow(db.vms, user, id)
    {
      if id in db.vms && CountsFor(db.vms[id], user) {
        count := count + 1;
        cpu := cpu + db.vms[id].cores;
        memory := memory + db.vms[id].memory;
        storage := storage + db.vms[id].disk;
      }
      id := id + 1;
    }
  }

  // ---- VMIDs ----

  function UsedVmids(db: Db, cluster: string): set<int> {
    set id | id in db.vms && db.vms[id].cluster == cluster && Active(db.vms[id]) :: db.vms[id].vmid
  }

  function FirstFree(used: set<int>, from: int, end: int): Result<int>
    decreases end - from
  {
    if from >= end then Err("no vmid available in cluster")
    else if from !in used then Ok(from)
    else FirstFree(used, from + 1, end)
  }

  /** nextClusterVMID */
  function NextVmid(db: Db, cluster: string, start: int, limit: int): Result<int> {
    FirstFree(UsedVmids(db, cluster), start, start + limit)
  }

  /** A VM of the cluster that is not deleted has the VMID. */
  ghost predicate Taken(db: Db, cluster: string, vmid: int) {
    exists id :: id in db.vms && db.vms[id].cluster == cluster && db.vms[id].deletedAt.None? && db.vms[id].vmid == vmid
  }

  lemma UsedIsTaken(db: Db, cluster: string)
    ensures forall v :: v in UsedVmids(db, cluster) <==> Taken(db, cluster, v)
  {
  }

  /** nextClusterVMID returns the least free id of the window and fails exactly when the window is full. */
  method NextClusterVmid(db: Db, cluster: string, start: int, limit: int) returns (r: Result<int>)
    ensures r == NextVmid(db, cluster, start, limit)
    ensures r.Ok? ==> start <= r.value < start + limit && !Taken(db, cluster, r.value)
                      && forall v :: start <= v < r.value ==> Taken(db, cluster, v)
    ensures r.Err? <==> forall v :: start <= v < start + limit ==> Taken(db, cluster, v)
  {
    UsedIsTaken(db, cluster);
    var used := UsedVmids(db, cluster);
    var vmid := start;
    while vmid < start + limit
      invariant start <= vmid
      invariant forall v :: start <= v < vmid ==> v in used
      invariant NextVmid(db, cluster, start, limit) == FirstFree(used, vmid, start + limit)
    {
      if vmid !in used {
        return Ok(vmid);
      }
      vmid := vmid + 1;
    }
    return Err("no vmid available in cluster");
  }

  lemma {:induction false} FirstFreeIsLeast(used: set<int>, from: int, end: int)
    ensures var r := FirstFree(used, from, end);
            && (r.Ok? ==> from <= r.value < end && r.value !in used && forall v :: from <= v < r.value ==> v in used)
            && (r.Err? <==> forall v :: from <= v < end ==> v in used)
    decreases end - from
  {
    if from < end && from in used {
      FirstFreeIsLeast(used, from + 1, end);
    }
  }

  function Window(start: int, limit: nat): (s: set<int>)
    ensures forall v :: v in s <==> start <= v < start + limit
    ensures |s| == limit
    decreases limit
  {
    if limit == 0 then {} else Window(start, limit - 1) + {start + limit - 1}
  }

  function ActiveRows(db: Db, cluster: string): set<int> {
    set id | id in db.vms && db.vms[id].cluster == cluster && Active(db.vms[id])
  }

  lemma {:induction false} ImageIsSmaller(db: Db, ids: set<int>, image: set<int>)
    requires forall id :: id in ids ==> id in db.vms
    requires forall v :: v in image ==> exists id :: id in ids && db.vms[id].vmid == v
    ensures |image| <= |ids|
    decreases |ids|
  {
    if ids == {} {
      if image != {} {
        var v := Pick(image);
        assert false;
      }
    } else {
      var e := Pick(ids);
      ImageIsSmaller(db, ids - {e}, image - {db.vms[e].vmid});
      assert image <= (image - {db.vms[e].vmid}) + {db.vms[e].vmid};
    }
  }

  /** Pigeonhole: a cluster with fewer active rows than its window is wide always has a free VMID. */
  lemma RoomMeansVmid(db: Db, cluster: string, start: int, limit: int)
    requires |ActiveRows(db, cluster)| < limit
    ensures NextVmid(db, cluster, start, limit).Ok?
  {
    var used := UsedVmids(db, cluster);
    FirstFreeIsLeast(used, start, start + limit);
    ImageIsSmaller(db, ActiveRows(db, cluster), used);
    if Window(start, limit) <= used {
      SubsetSize(Window(start, limit), used);
      assert false;
    }
  }

  // ---- placement ----

  /** The rows nodeStaticAllocation counts for a node. */
  predicate AllocatedOn(vm: Vm, cluster: string, node: string) {
    vm.cluster == cluster && Active(vm) && vm.managed && (vm.node == node || (vm.node == "" && vm.targetNode == node))
  }

  function AllocationBelow(vms: map<int, Vm>, cluster: string, node: string, n: nat): (int, int) {
    if n == 0 then (0, 0)
    else
      var rest := AllocationBelow(vms, cluster, node, n - 1);
      if n - 1 in vms && AllocatedOn(vms[n - 1], cluster, node) then (rest.0 + vms[n - 1].cores, rest.1 + vms[n - 1].memory) else rest
  }

  function NodeLoad(db: Db, cluster: string, node: string): (int, int) {
    AllocationBelow(db.vms, cluster, node, db.nextVm)
  }

  /** nodeStaticAllocation */
  method NodeStaticAllocation(db: Db, cluster: string, node: string) returns (cpu: int, memory: int)
    ensures (cpu, memory) == NodeLoad(db, cluster, node)
  {
    cpu, memory := 0, 0;
    var id := 0;
    while id < db.nextVm
      invariant 0 <= id <= db.nextVm
      invariant (cpu, memory) == AllocationBelow(db.vms, cluster, node, id)
    {
      if id in db.vms && AllocatedOn(db.vms[id], cluster, node) {
        cpu := cpu + db.vms[id].cores;
        memory := memory + db.vms[id].memory;
      }
      id := id + 1;
    }
  }

  function CandidateOf(db: Db, cluster: string, node: string, cores: int, memory: int): Placement.Candidate {
    var a := NodeLoad(db, cluster, node);
    Placement.Candidate(node, a.0 + cores, a.1 + memory)
  }

  function Candidates(db: Db, cluster: string, nodes: seq<string>, cores: int, memory: int): seq<Placement.Candidate> {
    seq(|nodes|, i requires 0 <= i < |nodes| => CandidateOf(db, cluster, nodes[i], cores, memory))
  }

  /** What choosePlacementNode decides. */
  function PlacementNode(db: Db, cluster: string, cpu: CpuClass, cores: int, memory: int, templateNode: string): string {
    var nodes := NormalizeList(cpu.nodes);
    if nodes == [] then templateNode
    else Placement.Best(Candidates(db, cluster, nodes, cores, memory), cpu, templateNode).node
  }

  /** lowestStaticAllocationNode */
  method LowestStaticAllocationNode(db: Db, cluster: string, nodes: seq<string>, cpu: CpuClass, cores: int, memory: int, preferred: string)
    returns (best: string, found: bool)
    ensures found <==> nodes != []
    ensures found ==> best == Placement.Best(Candidates(db, cluster, nodes, cores, memory), cpu, preferred).node
  {
    var current := Placement.Candidate("", 0, 0);
    best, found := "", false;
    ghost var cs := Candidates(db, cluster, nodes, cores, memory);
    for i := 0 to |nodes|
      invariant found <==> i > 0
      invariant found ==> current == Placement.Best(cs[..i], cpu, preferred)
    {
      var allocatedCpu, allocatedMem := NodeStaticAllocation(db, cluster, nodes[i]);
      var candidate := Placement.Candidate(nodes[i], allocatedCpu + cores, allocatedMem + memory);
      assert candidate == cs[i];
      assert cs[..i + 1][..i] == cs[..i] && cs[..i + 1][i] == cs[i];
      if !found || Placement.Better(candidate, current, cpu, preferred) {
        current := candidate;
        found := true;
      }
    }
    assert cs[..|nodes|] == cs;
    best := current.node;
  }

  /** choosePlacementNode; its two fallbacks after the search are dead, because a non-empty list always yields a node. */
  method ChoosePlacementNode(db: Db, cluster: string, cpu: CpuClass, cores: int, memory: int, templateNode: string) returns (node: string)
    ensures node == PlacementNode(db, cluster, cpu, cores, memory, templateNode)
  {
    var candidates := NormalizeStringList(cpu.nodes);
    if candidates == [] {
      return templateNode;
    }
    var best, found := LowestStaticAllocationNode(db, cluster, candidates, cpu, cores, memory, templateNode);
    return best;
  }

  // ---- whose load counts for which node ----

  /** Where the row weighs: the node it is on, or the one it is bound for if it is nowhere yet. */
  function Host(vm: Vm): string {
    if vm.node != "" then vm.node else vm.targetNode
  }

  /** What one row adds to the allocation of a node. Deleted and unmanaged rows and those of other clusters add nothing. */
  function LoadOf(vm: Vm, cluster: string, node: string): (int, int) {
    if vm.deletedAt.None? && vm.managed && vm.cluster == cluster && Host(vm) == node then (vm.cores, vm.memory) else (0, 0)
  }

  lemma {:induction false} LoadAfterUpdate(vms: map<int, Vm>, cluster: string, node: string, id: int, v: Vm, n: nat)
    requires id in vms && node != ""
    ensures var a, b := AllocationBelow(vms, cluster, node, n), AllocationBelow(vms[id := v], cluster, node, n);
            var was, is_ := LoadOf(vms[id], cluster, node), LoadOf(v, cluster, node);
            b == if 0 <= id < n then (a.0 - was.0 + is_.0, a.1 - was.1 + is_.1) else a
  {
    if n > 0 {
      LoadAfterUpdate(vms, cluster, node, id, v, n - 1);
    }
  }

  lemma {:induction false} LoadIgnoresAbove(vms: map<int, Vm>, cluster: string, node: string, id: int, v: Vm, n: nat)
    requires id >= n
    ensures AllocationBelow(vms[id := v], cluster, node, n) == AllocationBelow(vms, cluster, node, n)
  {
    if n > 0 {
      LoadIgnoresAbove(vms, cluster, node, id, v, n - 1);
    }
  }

  /** Without rows no node carries anything, and every new row adds its cores and memory to the node it weighs on and to no
      other. With LoadAfterUpdate this determines the allocation of every node. */
  lemma NewRowLoadsItsHost(db: Db, v: Vm, cluster: string, node: string)
    requires node != ""
    ensures AllocationBelow(map[], cluster, node, 1) == (0, 0)
    ensures var a, b := NodeLoad(db, cluster, node), NodeLoad(db.(vms := db.vms[db.nextVm := v], nextVm := db.nextVm + 1), cluster, node);
            b == if v.deletedAt.None? && v.managed && v.cluster == cluster && Host(v) == node then (a.0 + v.cores, a.1 + v.memory) else a
  {
    LoadIgnoresAbove(db.vms, cluster, node, db.nextVm, v, db.nextVm);
    assert AllocationBelow(map[], cluster, node, 0) == (0, 0);
  }

  /** The chosen node is the least loaded one the class names, whatever order and spelling it lists its nodes in. */
  lemma PlacementIsLeastLoaded(db: Db, cluster: string, cpu: CpuClass, cores: int, memory: int, templateNode: string, node: string)
    requires Placement.Resolvable(cpu) && Names(cpu.nodes, node)
    ensures var best := PlacementNode(db, cluster, cpu, cores, memory, templateNode);
            Names(cpu.nodes, best) &&
            (node != best ==>
               var b, a := NodeLoad(db, cluster, best), NodeLoad(db, cluster, node);
               Placement.Lighter(Placement.Candidate(best, b.0 + cores, b.1 + memory), Placement.Candidate(node, a.0 + cores, a.1 + memory), cpu, templateNode))
  {
    hide Placement.Exactly;
    var nodes := NormalizeList(cpu.nodes);
    NormalizedExactly(cpu.nodes);
    var cs := Candidates(db, cluster, nodes, cores, memory);
    forall i, j | 0 <= i < j < |cs|
      ensures cs[i].node != cs[j].node
    {
      LessIsTotal(nodes[i], nodes[j]);
    }
    Placement.BestIsLeast(cs, cpu, templateNode);
    var best := Placement.Best(cs, cpu, templateNode);
    var i :| 0 <= i < |cs| && cs[i] == best;
    assert best.node == nodes[i];
    var j :| 0 <= j < |nodes| && nodes[j] == node;
    assert cs[j] in cs && cs[j].node == node;
    if node != best.node {
      Placement.ExactlyIsLighter(best, cs[j], cpu, templateNode);
    }
  }

  /** A class that names no node leaves the VM on the node of its template. */
  lemma NoNodesMeansTemplate(db: Db, cluster: string, cpu: CpuClass, cores: int, memory: int, templateNode: string)
    requires forall node :: !Names(cpu.nodes, node)
    ensures PlacementNode(db, cluster, cpu, cores, memory, templateNode) == templateNode
  {
    NormalizedExactly(cpu.nodes);
    HasMember(NormalizeList(cpu.nodes));
  }

  lemma HasMember(xs: seq<string>)
    ensures xs != [] ==> exists x :: x in xs
  {
    if xs != [] {
      assert xs[0] in xs;
    }
  }
}
