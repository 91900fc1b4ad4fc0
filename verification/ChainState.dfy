/** The contracts on the chain, as far as the planner sees them, and how they are submitted to. */
module ChainState {
  import opened Models
  import opened Sequences
  import opened Batching

  datatype Contract =
    | NodeContract(id: nat, nodeId: nat, hash: string)
    | NameContract(id: nat, name: string)

  datatype Chain = Chain(live: map<nat, Contract>, next: nat)

  /** Ids are handed out once, from 1 up. */
  ghost predicate WellFormed(c: Chain) {
    0 < c.next && forall id :: id in c.live ==> 0 < id < c.next && c.live[id].id == id
  }

  datatype Call =
    | CreateNode(nodeId: nat, hash: string)
    | CreateName(name: string)
    | UpdateNode(id: nat, hash: string)
    | Cancel(id: nat)

  predicate IsNode(c: Chain, id: nat) { id in c.live && c.live[id].NodeContract? }

  /** The contract in the event a call emits. */
  function Reported(c: Chain, call: Call): Contract {
    match call
    case CreateNode(nodeId, hash) => NodeContract(c.next, nodeId, hash)
    case CreateName(name) => NameContract(c.next, name)
    case UpdateNode(id, hash) =>
      if IsNode(c, id) then c.live[id].(hash := hash) else NodeContract(id, 0, hash)
    case Cancel(id) => if id in c.live then c.live[id] else NameContract(id, "")
  }

  function Applied(c: Chain, call: Call): Chain {
    match call
    case CreateNode(_, _) => Chain(c.live[c.next := Reported(c, call)], c.next + 1)
    case CreateName(_) => Chain(c.live[c.next := Reported(c, call)], c.next + 1)
    case UpdateNode(id, _) => if IsNode(c, id) then c.(live := c.live[id := Reported(c, call)]) else c
    case Cancel(id) => c.(live := c.live - {id})
  }

  function ApplyAll(c: Chain, calls: seq<Call>): Chain {
    if calls == [] then c else Applied(ApplyAll(c, calls[..|calls| - 1]), calls[|calls| - 1])
  }

  function Reports(c: Chain, calls: seq<Call>): (rs: seq<Contract>)
    ensures |rs| == |calls|
  {
    if calls == [] then []
    else
      var front := calls[..|calls| - 1];
      Reports(c, front) + [Reported(ApplyAll(c, front), calls[|calls| - 1])]
  }

  /** How many chunks go through before the chain turns one down. */
  function Accepted(accepts: nat -> bool, count: nat): (k: nat)
    ensures k <= count
    ensures forall j :: 0 <= j < k ==> accepts(j)
    ensures k < count ==> !accepts(k)
  {
    if count == 0 then 0
    else
      var k := Accepted(accepts, count - 1);
      if k == count - 1 && accepts(k) then count else k
  }

  /** The calls of a batch that end up on the chain. */
  function Landed(calls: seq<Call>, accepts: nat -> bool): seq<Call> {
    AppliedCalls(calls, Accepted(accepts, ChunkCount(|calls|)))
  }

  predicate AllAccepted(calls: seq<Call>, accepts: nat -> bool) {
    Accepted(accepts, ChunkCount(|calls|)) == ChunkCount(|calls|)
  }

  // ---- Batches ----

  lemma {:induction false} ApplyAppend(c: Chain, a: seq<Call>, b: seq<Call>)
    ensures ApplyAll(c, a + b) == ApplyAll(ApplyAll(c, a), b)
  {
    if b == [] {
      assert a + b == a;
    } else {
      ApplyAppend(c, a, b[..|b| - 1]);
      assert (a + b)[..|a + b| - 1] == a + b[..|b| - 1];
    }
  }

  lemma {:induction false} ReportAt(c: Chain, calls: seq<Call>, i: nat)
    requires i < |calls|
    ensures Reports(c, calls)[i] == Reported(ApplyAll(c, calls[..i]), calls[i])
  {
    var front := calls[..|calls| - 1];
    if i < |front| {
      ReportAt(c, front, i);
      assert front[..i] == calls[..i];
    }
  }

  lemma AppendedReport(c: Chain, a: seq<Call>, b: seq<Call>, i: nat)
    requires i < |a| + |b|
    ensures Reports(c, a + b)[i] == if i < |a| then Reports(c, a)[i] else Reports(ApplyAll(c, a), b)[i - |a|]
  {
    var k := i - |a|;
    ReportAt(c, a + b, i);
    if i < |a| {
      ReportAt(c, a, i);
      assert (a + b)[..i] == a[..i];
    } else {
      ReportAt(ApplyAll(c, a), b, k);
      ApplyAppend(c, a, b[..k]);
      assert (a + b)[..i] == a + b[..k];
    }
  }

  lemma ReportsAppend(c: Chain, a: seq<Call>, b: seq<Call>)
    ensures Reports(c, a + b) == Reports(c, a) + Reports(ApplyAll(c, a), b)
  {
    var xs, ys := Reports(c, a + b), Reports(c, a) + Reports(ApplyAll(c, a), b);
    forall i | 0 <= i < |xs| ensures xs[i] == ys[i] {
      AppendedReport(c, a, b, i);
    }
  }

  function ChunkReports(c: Chain, calls: seq<Call>, accepts: nat -> bool, k: nat): Option<seq<Contract>> {
    if k < ChunkCount(|calls|) && accepts(k)
    then Some(Reports(ApplyAll(c, AppliedCalls(calls, k)), Chunk(calls, k)))
    else None
  }

  lemma ChunkStep(c: Chain, calls: seq<Call>, k: nat)
    requires k < ChunkCount(|calls|)
    ensures Reports(c, AppliedCalls(calls, k + 1)) ==
              Reports(c, AppliedCalls(calls, k)) + Reports(ApplyAll(c, AppliedCalls(calls, k)), Chunk(calls, k))
  {
    ChunkBounds(|calls|, k);
    AppliedStep(calls, k);
    ReportsAppend(c, AppliedCalls(calls, k), Chunk(calls, k));
  }

  lemma ReportsSoFar(c: Chain, calls: seq<Call>, accepts: nat -> bool, outcome: nat -> Option<seq<Contract>>)
    returns (soFar: nat -> seq<Contract>)
    requires AllAccepted(calls, accepts)
    requires forall j: nat :: outcome(j) == ChunkReports(c, calls, accepts, j)
    ensures forall j :: 0 <= j < ChunkCount(|calls|) ==> outcome(j).Some? && soFar(j + 1) == soFar(j) + outcome(j).value
    ensures soFar(0) == [] && soFar(ChunkCount(|calls|)) == Reports(c, calls)
  {
    var count := ChunkCount(|calls|);
    soFar := (k: nat) => Reports(c, AppliedCalls(calls, k));
    forall k | 0 <= k < count ensures outcome(k).Some? && soFar(k + 1) == soFar(k) + outcome(k).value {
      ChunkStep(c, calls, k);
    }
    AllLand(calls, accepts);
  }

  lemma ResultsAreReports(c: Chain, calls: seq<Call>, accepts: nat -> bool, outcome: nat -> Option<seq<Contract>>)
    requires AllAccepted(calls, accepts)
    requires forall j: nat :: outcome(j) == ChunkReports(c, calls, accepts, j)
    ensures var count := ChunkCount(|calls|);
      (forall j :: 0 <= j < count ==> outcome(j).Some?) && Results(outcome, count) == Reports(c, calls)
  {
    var soFar := ReportsSoFar(c, calls, accepts, outcome);
    ResultsFold(outcome, soFar, ChunkCount(|calls|));
  }

  /** Everything that landed is everything there was, when no chunk is turned down. */
  lemma AllLand(calls: seq<Call>, accepts: nat -> bool)
    requires AllAccepted(calls, accepts)
    ensures Landed(calls, accepts) == calls
  {
    LastChunk(|calls|);
  }

  lemma LandedPrefix(calls: seq<Call>, accepts: nat -> bool)
    ensures Landed(calls, accepts) <= calls
    ensures !AllAccepted(calls, accepts) && |calls| <= BATCH_SIZE ==> Landed(calls, accepts) == []
  {
  }

  lemma AcceptedIs(accepts: nat -> bool, count: nat, k: nat)
    requires k <= count && (forall j :: 0 <= j < k ==> accepts(j)) && (k < count ==> !accepts(k))
    ensures Accepted(accepts, count) == k
  {
  }

  /** The calls before the last chunk. */
  function BeforeLast(calls: seq<Call>): seq<Call> {
    AppliedCalls(calls, if |calls| == 0 then 0 else ChunkCount(|calls|) - 1)
  }

  lemma LandsBeforeLast(calls: seq<Call>, accepts: nat -> bool)
    requires !AllAccepted(calls, accepts)
    ensures Landed(calls, accepts) <= BeforeLast(calls)
  {
    var k, last := Accepted(accepts, ChunkCount(|calls|)), ChunkCount(|calls|) - 1;
    assert k * BATCH_SIZE <= last * BATCH_SIZE;
  }

  /** `applyAllExtrinsics`: what the chain becomes, and the events' contracts if every chunk went through. */
  method Submit(c: Chain, extrinsics: seq<Option<Call>>, accepts: nat -> bool)
    returns (after: Chain, r: Option<seq<Contract>>)
    ensures var calls := Present(extrinsics);
      && after == ApplyAll(c, Landed(calls, accepts))
      && r == if AllAccepted(calls, accepts) then Some(Reports(c, calls)) else None
  {
    var ledger := new Ledger<Call>();
    var calls := Compact(extrinsics);
    var outcome := (k: nat) => ChunkReports(c, calls, accepts, k);
    r := BatchAll(ledger, extrinsics, outcome);
    SameChunks(c, calls, accepts, outcome);
    after := ApplyAll(c, ledger.applied);
  }

  lemma SameChunks(c: Chain, calls: seq<Call>, accepts: nat -> bool, outcome: nat -> Option<seq<Contract>>)
    requires outcome == ((k: nat) => ChunkReports(c, calls, accepts, k))
    ensures var count := ChunkCount(|calls|);
      && AppliedChunks(outcome, count) == Accepted(accepts, count)
      && (AllAccepted(calls, accepts) ==> Results(outcome, count) == Reports(c, calls))
      && [] + AppliedCalls(calls, AppliedChunks(outcome, count)) == Landed(calls, accepts)
  {
    var count := ChunkCount(|calls|);
    AppliedUnique(outcome, count, Accepted(accepts, count));
    if AllAccepted(calls, accepts) {
      ResultsAreReports(c, calls, accepts, outcome);
    }
  }

  datatype Deployed = Deployed(version: nat, workloads: seq<Workload>, rest: string)

  /** A deployment lives on a node under a contract id; nothing makes the node the contract's own. */
  datatype Place = Place(node: nat, contract: nat)

  type Nodes = map<Place, Deployed>

  /** The place of a contract on the node the chain gives it. */
  function Own(c: Chain, id: nat): Place
    requires IsNode(c, id)
  {
    Place(c.live[id].nodeId, id)
  }

  /** `getDeployment`: asks the contract's own node. */
  function Running(c: Chain, nodes: Nodes, id: nat): Option<Deployed> {
    if IsNode(c, id) && Own(c, id) in nodes then Some(nodes[Own(c, id)]) else None
  }

  // ---- Which contracts a batch leaves ----

  predicate Creates(call: Call) { call.CreateNode? || call.CreateName? }

  /** The contract an update or a cancel names. */
  predicate Names(call: Call, id: nat) {
    (call.UpdateNode? && call.id == id) || (call.Cancel? && call.id == id)
  }

  ghost function Cancelled(calls: seq<Call>): set<nat> {
    set call | call in calls && call.Cancel? :: call.id
  }

  lemma CancelledSnoc(front: seq<Call>, last: Call)
    ensures Cancelled(front + [last]) == Cancelled(front) + (if last.Cancel? then {last.id} else {})
  {
    forall call ensures call in front + [last] <==> call in front || call == last { }
  }

  /** A batch without creations removes what it cancels and nothing else. */
  lemma {:induction false} WithoutCreates(c: Chain, calls: seq<Call>)
    requires forall call :: call in calls ==> !Creates(call)
    ensures ApplyAll(c, calls).live.Keys == c.live.Keys - Cancelled(calls)
    ensures ApplyAll(c, calls).next == c.next
  {
    if calls != [] {
      var front, last := calls[..|calls| - 1], calls[|calls| - 1];
      assert calls == front + [last] && last in calls;
      CancelledSnoc(front, last);
      WithoutCreates(c, front);
      assert Applied(ApplyAll(c, front), last).live.Keys ==
             ApplyAll(c, front).live.Keys - (if last.Cancel? then {last.id} else {});
    }
  }

  /** A batch without cancels adds fresh contracts and removes none. */
  lemma {:induction false} WithoutCancels(c: Chain, calls: seq<Call>)
    requires WellFormed(c) && forall call :: call in calls ==> !call.Cancel?
    ensures var d := ApplyAll(c, calls);
      && WellFormed(d) && c.next <= d.next
      && (forall id :: id in d.live <==> id in c.live || c.next <= id < d.next)
  {
    if calls != [] {
      WithoutCancels(c, calls[..|calls| - 1]);
      assert calls[|calls| - 1] in calls;
    }
  }

  /** The ids its events report: fresh ones for creations, all the fresh ones. */
  lemma {:induction false} ReportedIds(c: Chain, calls: seq<Call>)
    requires WellFormed(c) && forall call :: call in calls ==> !call.Cancel?
    ensures forall i :: 0 <= i < |calls| ==>
              if Creates(calls[i]) then c.next <= Reports(c, calls)[i].id < ApplyAll(c, calls).next
              else Reports(c, calls)[i].id == calls[i].id
    ensures forall id: nat :: c.next <= id && id !in Ids(Reports(c, calls)) ==> ApplyAll(c, calls).next <= id
  {
    if calls != [] {
      var front, last := calls[..|calls| - 1], calls[|calls| - 1];
      ReportedIds(c, front);
      WithoutCancels(c, front);
      assert last in calls;
      assert Ids(Reports(c, calls)) == Ids(Reports(c, front)) + [Reported(ApplyAll(c, front), last).id];
    }
  }

  function Ids(contracts: seq<Contract>): seq<nat> {
    seq(|contracts|, i requires 0 <= i < |contracts| => contracts[i].id)
  }

  /** A contract no call names keeps its value, whatever the batch does. */
  lemma {:induction false} Unnamed(c: Chain, calls: seq<Call>, id: nat)
    requires id < c.next && forall call :: call in calls ==> !Names(call, id)
    ensures id < ApplyAll(c, calls).next
    ensures id in ApplyAll(c, calls).live <==> id in c.live
    ensures id in c.live ==> ApplyAll(c, calls).live[id] == c.live[id]
  {
    if calls != [] {
      Unnamed(c, calls[..|calls| - 1], id);
      assert calls[|calls| - 1] in calls;
    }
  }
}
