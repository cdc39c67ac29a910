/** The rows the control plane keeps in SQL, as plain values.

    A `Vm` is a row of `vms` with the JSON documents flattened to the keys the code reads, a `Task` is a row of
    `vm_tasks`, and a `Db` is the whole of the state that API transactions and the worker share. Row ids are the
    map keys. Times are nanoseconds. */
module Records {

  type Time = int

  const MINUTE: Time := 60_000_000_000
  const DAY: Time := 1440 * MINUTE

  datatype Option<+T> = None | Some(value: T)

  /** A handler either refuses with the message it would send, or goes on with a value. */
  datatype Result<+T> = Ok(value: T) | Err(reason: string)

  datatype Power = PowerOn | PowerOff | PowerReboot | PowerUnknown | PowerDeleted

  datatype SyncState = SyncPending | Synced | SyncDeleting | SyncFailed | SyncUnmanaged

  datatype Intent = IntentPresent | IntentDeletePending | IntentUnmanaged

  /** An address, as a number, with its prefix length. */
  datatype Cidr = Cidr(address: int, prefix: int)

  datatype Vm = Vm(
    owner: string,
    cluster: string,
    vmid: int,
    node: string,
    targetNode: string,
    ip: Cidr,
    group: string,            // security_group_name
    cpuKey: string,
    storageKey: string,
    bridgeKey: string,
    cores: int,
    memory: int,
    disk: int,
    exempt: bool,             // quota_exempt
    managed: bool,
    paused: bool,             // task_queue_paused
    sync: SyncState,
    intent: Intent,           // prefer_status_json.intent
    power: Power,             // prefer_status_json.power
    powerBefore: Option<Power>,
    preferAfter: Option<Time>, // prefer_status_json.delete_execute_after
    realPower: Power,         // real_status_json.power
    requestedAt: Option<Time>,
    executeAfter: Option<Time>,
    deletedAt: Option<Time>)

  predicate Active(vm: Vm) {
    vm.deletedAt == None
  }

  /** The guard `sync_state == "deleting" || delete_requested_at != nil` that most handlers share. */
  predicate PendingDeletion(vm: Vm) {
    vm.sync == SyncDeleting || vm.requestedAt != None
  }

  datatype Status = Pending | Running | Failed | Done | Canceled

  datatype Kind = Provision | Apply | PowerChange | Reboot | Delete

  datatype Payload =
    | NoPayload
    | PowerPayload(power: Power)
    | DeletePayload(executeAfter: Option<Time>, immediate: bool, expired: bool)

  datatype Task = Task(
    vm: int,
    seqNo: int,
    kind: Kind,
    payload: Payload,
    status: Status,
    attempts: int,
    updatedAt: Time,
    startedAt: Option<Time>,
    finishedAt: Option<Time>)

  /** `vm_tasks`; `nextId` is the BIGSERIAL counter, so ids are never handed out twice. */
  datatype Queue = Queue(rows: map<int, Task>, nextId: int)

  /** A security group is identified by its owner and its name. */
  datatype Group = Group(owner: string, name: string)

  // ---- configuration ----

  type Byte = b: int | 0 <= b < 256

  type Ip4 = s: seq<Byte> | |s| == 4 witness [0, 0, 0, 0]

  /** `base` is the parsed start_ip, None when it is not an IPv4 address. */
  datatype Bridge = Bridge(base: Option<Ip4>, prefix: int)

  datatype CpuClass = CpuClass(limit: int, memoryLimit: int, nodes: seq<string>)

  datatype Cluster = Cluster(
    startVmid: int,
    limit: int,
    cpus: map<string, CpuClass>,
    storages: map<string, int>,
    bridges: map<string, Bridge>)

  datatype Quota = Quota(number: int, cpu: int, memory: int, storage: int, groups: int)

  /** `quotas` holds the effective limit of every known user. */
  datatype Config = Config(clusters: map<string, Cluster>, quotas: map<string, Quota>)

  datatype Db = Db(vms: map<int, Vm>, nextVm: nat, queue: Queue, groups: set<Group>)
}
