/** The requests the planner works on: a `TwinDeployment` owns a `Deployment`, both updated in place.
    Workloads are never updated by the planner, so they are values. */
module Models {

  datatype Option<+T> = None | Some(value: T)

  datatype Kind =
    | ZMachine | ZMachineLight
    | ZMount | Volume | Qsfs | Zdb
    | Network | NetworkLight
    | Ip | Ipv4
    | GatewayFqdn | GatewayName
    | Zlogs

  datatype ZdbMode = Seq | User

  /** One record stands for every kind of workload; a field that a kind does not have keeps a neutral
      value, as reading an absent property of `workload.data` gives `undefined` in the original. */
  datatype Workload = Workload(
    name: string,
    kind: Kind,
    version: nat,
    size: nat,                   // data["size"]
    memory: nat,                 // data["compute_capacity"].memory
    mounts: seq<string>,         // names in data["mounts"]
    publicIp: string,            // data["network"].public_ip, "" when the machine has none
    logsOf: Option<string>,      // data["zmachine"] of a log stream
    lightLogsOf: Option<string>, // data["zmachine-light"] of a log stream
    mode: ZdbMode,               // data.mode of a zdb
    body: string                 // everything else
  )

  predicate IsNetwork(w: Workload) {
    w.kind == Network || w.kind == NetworkLight
  }

  ghost predicate UniqueNames(ws: seq<Workload>) {
    forall i, j :: 0 <= i < j < |ws| ==> ws[i].name != ws[j].name
  }

  datatype Operation = Deploy | Update | Delete

  /** A contract id of 0 stands for a deployment that has no contract yet. */
  class Deployment {
    var contractId: nat
    var version: nat
    var workloads: seq<Workload>
    const rest: string           // twin, metadata, description, expiration and signature requirement

    constructor (contractId: nat, version: nat, workloads: seq<Workload>, rest: string)
      ensures this.contractId == contractId && this.version == version && this.workloads == workloads
      ensures this.rest == rest
    {
      this.contractId, this.version, this.workloads, this.rest := contractId, version, workloads, rest;
    }
  }

  class TwinDeployment {
    const deployment: Deployment
    var operation: Operation
    var publicIps: nat
    var nodeId: nat
    var network: Option<nat>     // identity of the network object, if any

    constructor (deployment: Deployment, operation: Operation, publicIps: nat, nodeId: nat, network: Option<nat>)
      ensures this.deployment == deployment && this.operation == operation && this.publicIps == publicIps
      ensures this.nodeId == nodeId && this.network == network
    {
      this.deployment, this.operation, this.publicIps := deployment, operation, publicIps;
      this.nodeId, this.network := nodeId, network;
    }
  }

  /** The value of a request at one moment. */
  datatype Request = Request(
    op: Operation,
    contractId: nat,
    version: nat,
    workloads: seq<Workload>,
    publicIps: nat,
    nodeId: nat,
    network: Option<nat>,
    rest: string)

  ghost function Snap(t: TwinDeployment): Request
    reads t, t.deployment
  {
    Request(t.operation, t.deployment.contractId, t.deployment.version, t.deployment.workloads,
            t.publicIps, t.nodeId, t.network, t.deployment.rest)
  }

  ghost function Snaps(ts: seq<TwinDeployment>): (rs: seq<Request>)
    reads ts, set t | t in ts :: t.deployment
    ensures |rs| == |ts|
    ensures forall i :: 0 <= i < |ts| ==> rs[i] == Snap(ts[i])
  {
    seq(|ts|, i requires 0 <= i < |ts| reads ts, set t | t in ts :: t.deployment => Snap(ts[i]))
  }

  /** No request object is listed twice and no two requests share a deployment object. */
  ghost predicate Separate(ts: seq<TwinDeployment>) {
    forall i, j :: 0 <= i < j < |ts| ==> ts[i] != ts[j] && ts[i].deployment != ts[j].deployment
  }
}
