/** What callers of `handle` can and cannot rely on. */
module HandleResults {
  import opened Models
  import opened Sequences
  import opened Batching
  import opened ChainState
  import opened Compensation
  import opened Handle
  import D = DeployMerge
  import P = MergePlan

  // ---- A create batch that fails ----

  /** Nothing undoes a batch that fails half way: the contracts of the chunks that went through stay, all of
      them new. The live contracts are those there were exactly when no creation got through. */
  lemma SubmitFailureLeaves(c: Chain, p: Prepared, accepts: nat -> bool)
    requires WellFormed(c) && Sound(c, p) && !AllAccepted(Creations(p), accepts)
    ensures var landed := Landed(Creations(p), accepts);
      var d := ApplyAll(c, landed);
      && c.live.Keys <= d.live.Keys
      && (d.live.Keys == c.live.Keys <==> forall call :: call in landed ==> !Creates(call))
      && (|Creations(p)| <= BATCH_SIZE || !accepts(0) ==> d == c)
  {
    var landed := Landed(Creations(p), accepts);
    LandedPrefix(Creations(p), accepts);
    forall call | call in landed ensures call in Creations(p) { }
    WithoutCancels(c, landed);
    ReportedIds(c, landed);
    if forall call :: call in landed ==> !Creates(call) {
      WithoutCreates(c, landed);
    } else {
      var call :| call in landed && Creates(call);
      var i :| 0 <= i < |landed| && landed[i] == call;
      assert Reports(c, landed)[i].id in ApplyAll(c, landed).live;
    }
  }

  /** However the batch fails, the live contracts are those there were. */
  ghost predicate FailsClean(c: Chain, calls: seq<Call>) {
    forall accepts: nat -> bool :: !AllAccepted(calls, accepts) ==>
      ApplyAll(c, Landed(calls, accepts)).live.Keys == c.live.Keys
  }

  /** A failing batch is sure to leave the live contracts as they were exactly when no creation stands before its last
      chunk. */
  lemma FailsCleanExactly(c: Chain, p: Prepared)
    requires WellFormed(c) && Sound(c, p)
    ensures FailsClean(c, Creations(p)) <==> forall call :: call in BeforeLast(Creations(p)) ==> !Creates(call)
  {
    var calls := Creations(p);
    if forall call :: call in BeforeLast(calls) ==> !Creates(call) {
      forall accepts: nat -> bool | !AllAccepted(calls, accepts)
        ensures ApplyAll(c, Landed(calls, accepts)).live.Keys == c.live.Keys
      {
        LandsBeforeLast(calls, accepts);
        forall call | call in Landed(calls, accepts) ensures call in BeforeLast(calls) { }
        SubmitFailureLeaves(c, p, accepts);
      }
    } else {
      var last := ChunkCount(|calls|) - 1;
      var accepts := (k: nat) => k < last;
      AcceptedIs(accepts, ChunkCount(|calls|), last);
      SubmitFailureLeaves(c, p, accepts);
    }
  }

  // ---- Finding the contract of a request by its hash ----

  /** A plan as `merge` orders it: `n` deployments, updates up to `m`, then deletes. */
  ghost predicate InOrder(plan: seq<Request>, n: nat, m: nat) {
    && n <= m <= |plan|
    && (forall i :: 0 <= i < n ==> plan[i].op == Deploy)
    && (forall i :: n <= i < m ==> plan[i].op == Update)
    && (forall i :: m <= i < |plan| ==> plan[i].op == Delete)
  }

  ghost predicate NoDeletes(plan: seq<Request>, n: nat) {
    n <= |plan| && forall i :: 0 <= i < n ==> plan[i].op != Delete
  }

  function NodeCall(r: Request, w: World): Call {
    if r.op == Deploy then CreateNode(r.nodeId, Hashed(r, w)) else UpdateNode(r.contractId, Hashed(r, w))
  }

  lemma {:induction false} NodeCallAt(c: Chain, plan: seq<Request>, w: World, i: nat)
    requires NoDeletes(plan, i + 1)
    ensures i < |PreparedAll(c, plan, w).nodeCalls|
    ensures PreparedAll(c, plan, w).nodeCalls[i] == NodeCall(plan[i], w)
  {
    var last := |plan| - 1;
    if i < last {
      NodeCallAt(c, plan[..last], w, i);
    } else {
      NodeCallsCount(c, plan[..last], w);
    }
  }

  lemma {:induction false} NodeCallsCount(c: Chain, plan: seq<Request>, w: World)
    requires NoDeletes(plan, |plan|)
    ensures |PreparedAll(c, plan, w).nodeCalls| == |plan|
  {
    if plan != [] {
      NodeCallsCount(c, plan[..|plan| - 1], w);
    }
  }

  /** The search gives the first report with the hash, when only node contracts come before it. */
  lemma SearchFirst(reports: seq<Contract>, hash: string, j: nat)
    requires j < |reports| && reports[j].NodeContract? && reports[j].hash == hash
    requires forall k :: 0 <= k < j ==> reports[k].NodeContract? && reports[k].hash != hash
    ensures Search(reports, hash) == Hit(reports[j])
  {
    NoMatch(reports[..j], hash);
    assert reports[..j + 1][..j] == reports[..j];
    SearchStops(reports, hash, j + 1);
  }

  lemma {:induction false} NoMatch(reports: seq<Contract>, hash: string)
    requires forall k :: 0 <= k < |reports| ==> reports[k].NodeContract? && reports[k].hash != hash
    ensures Search(reports, hash) == Miss
  {
    if reports != [] {
      NoMatch(reports[..|reports| - 1], hash);
    }
  }

  /** The first request of the plan with the same hash. */
  ghost function FirstAlike(plan: seq<Request>, w: World, i: nat): (j: nat)
    requires i < |plan|
    ensures j <= i && Hashed(plan[j], w) == Hashed(plan[i], w)
    ensures forall k :: 0 <= k < j ==> Hashed(plan[k], w) != Hashed(plan[i], w)
  {
    LeastAlike(plan, w, Hashed(plan[i], w), i)
  }

  ghost function LeastAlike(plan: seq<Request>, w: World, hash: string, i: nat): (j: nat)
    requires i < |plan| && Hashed(plan[i], w) == hash
    ensures j <= i && Hashed(plan[j], w) == hash
    ensures forall k :: 0 <= k < j ==> Hashed(plan[k], w) != hash
  {
    if k :| 0 <= k < i && Hashed(plan[k], w) == hash then LeastAlike(plan, w, hash, k) else i
  }

  lemma {:induction false} CreatesCount(c: Chain, calls: seq<Call>, n: nat)
    requires n <= |calls| && forall i :: 0 <= i < n ==> Creates(calls[i])
    ensures ApplyAll(c, calls[..n]).next == c.next + n
  {
    if n > 0 {
      CreatesCount(c, calls, n - 1);
      assert calls[..n][..n - 1] == calls[..n - 1];
    }
  }

  /** Without cancels a node contract stays where it is; only its hash may change. */
  lemma {:induction false} NodeStays(c: Chain, calls: seq<Call>, id: nat, hash: string)
    requires IsNode(c, id) && id < c.next && forall call :: call in calls ==> !call.Cancel?
    ensures var d := ApplyAll(c, calls);
      id < d.next && IsNode(d, id) && d.live[id].(hash := hash) == c.live[id].(hash := hash)
  {
    if calls != [] {
      var front, last := calls[..|calls| - 1], calls[|calls| - 1];
      assert last in calls;
      NodeStays(c, front, id, hash);
    }
  }

  /** The contract made for a deployment, or the one an update is for, with the hash of the request. */
  function Meant(c: Chain, plan: seq<Request>, w: World, k: nat): (r: Contract)
    requires k < |plan|
    ensures r.NodeContract? && r.hash == Hashed(plan[k], w)
  {
    var r := plan[k];
    if r.op == Update && IsNode(c, r.contractId) then c.live[r.contractId].(hash := Hashed(r, w))
    else NodeContract(c.next + k, r.nodeId, Hashed(r, w))
  }

  lemma ReportMeant(c: Chain, plan: seq<Request>, w: World, n: nat, m: nat, i: nat)
    requires WellFormed(c) && AllPreparable(c, plan, w) && InOrder(plan, n, m) && i < m
    ensures i < |Creations(PreparedAll(c, plan, w))|
    ensures Reports(c, Creations(PreparedAll(c, plan, w)))[i] == Meant(c, plan, w, i)
  {
    var calls := Creations(PreparedAll(c, plan, w));
    NodeCallAt(c, plan, w, i);
    assert calls[i] == NodeCall(plan[i], w);
    ReportAt(c, calls, i);
    if i < n {
      forall k | 0 <= k < i ensures Creates(calls[k]) {
        NodeCallAt(c, plan, w, k);
      }
      CreatesCount(c, calls, i);
    } else {
      assert Preparable(c, plan[i], w);
      PreparedSound(c, plan, w);
      forall call | call in calls[..i] ensures !call.Cancel? {
        assert call in calls;
      }
      NodeStays(c, calls[..i], plan[i].contractId, Hashed(plan[i], w));
    }
  }

  /** The search finds the contract meant for the first request of the plan with the same hash. */
  lemma SearchFindsFirst(c: Chain, plan: seq<Request>, w: World, n: nat, m: nat, k: nat)
    requires WellFormed(c) && AllPreparable(c, plan, w) && InOrder(plan, n, m) && k < m
    ensures var reports := Reports(c, Creations(PreparedAll(c, plan, w)));
      Search(reports, Hashed(plan[k], w)) == Hit(Meant(c, plan, w, FirstAlike(plan, w, k)))
  {
    var reports := Reports(c, Creations(PreparedAll(c, plan, w)));
    var j := FirstAlike(plan, w, k);
    forall i | 0 <= i <= j
      ensures i < |reports| && reports[i].NodeContract? && reports[i].hash == Hashed(plan[i], w)
      ensures reports[i] == Meant(c, plan, w, i)
    {
      ReportMeant(c, plan, w, n, m, i);
      assert Preparable(c, plan[i], w);
    }
    SearchFirst(reports, Hashed(plan[k], w), j);
  }

  /** The place of the contract meant for a request, on the node the chain gives it. */
  function MeantPlace(c: Chain, plan: seq<Request>, w: World, k: nat): Place
    requires k < |plan|
  {
    Place(Meant(c, plan, w, k).nodeId, Meant(c, plan, w, k).id)
  }

  /** A deployment is the first of its hash; an update is of a contract on the node of the contract that the
      first request of its hash is about. */
  ghost predicate Reaches(c: Chain, plan: seq<Request>, w: World, k: nat)
    requires k < |plan|
  {
    var j := FirstAlike(plan, w, k);
    if plan[k].op == Deploy then j == k else Meant(c, plan, w, j).nodeId == Meant(c, plan, w, k).nodeId
  }

  /** The hash finds a contract for every request sent: the one meant for the first request of the plan with the
      same hash. A deployment takes that contract's id and keeps its node, an update takes that contract's node
      and keeps its id. So a deployment gets its own contract exactly when no earlier request hashes alike, and an
      update goes to its contract's node exactly when the contract found lies on the same node. */
  lemma HashFindsFirst(c: Chain, plan: seq<Request>, w: World, n: nat, m: nat, k: nat)
    requires WellFormed(c) && AllPreparable(c, plan, w) && InOrder(plan, n, m) && k < m
    ensures var reports := Reports(c, Creations(PreparedAll(c, plan, w)));
      var found, to := Meant(c, plan, w, FirstAlike(plan, w, k)), Destination(plan[k], reports, w);
      && Search(reports, Hashed(plan[k], w)) == Hit(found)
      && to == (if k < n then Place(plan[k].nodeId, found.id) else Place(found.nodeId, plan[k].contractId))
      && (to == MeantPlace(c, plan, w, k) <==> Reaches(c, plan, w, k))
  {
    SearchFindsFirst(c, plan, w, n, m, k);
    assert Preparable(c, plan[k], w);
  }

  // ---- The originals ----

  predicate IsUpdate(r: Request) { r.op == Update }

  /** The contracts the plan updates, in its order. */
  function UpdateIds(plan: seq<Request>): seq<nat> { P.Ids(Filter(plan, IsUpdate)) }

  function UpdateId(r: Request): seq<nat> { if r.op == Update then [r.contractId] else [] }

  lemma UpdateIdsAppend(a: seq<Request>, b: seq<Request>)
    ensures UpdateIds(a + b) == UpdateIds(a) + UpdateIds(b)
  {
    FilterAppend(a, b, IsUpdate);
  }

  lemma UpdateIdsNext(plan: seq<Request>, i: nat)
    requires i < |plan|
    ensures UpdateIds(plan[..i + 1]) == UpdateIds(plan[..i]) + UpdateId(plan[i])
  {
    PrefixSnoc(plan, i);
    FilterSnoc(plan[..i], plan[i], IsUpdate);
  }

  function SavedIds(saved: seq<Saved>): seq<nat> {
    seq(|saved|, i requires 0 <= i < |saved| => saved[i].contractId)
  }

  lemma {:induction false} UpdatedInOrder(c: Chain, plan: seq<Request>, w: World)
    ensures PreparedAll(c, plan, w).updated == UpdateIds(plan)
  {
    if plan != [] {
      UpdatedInOrder(c, plan[..|plan| - 1], w);
      UpdateIdsNext(plan, |plan| - 1);
      WholePrefix(plan);
    }
  }

  lemma SavedOne(c: Chain, nodes: Nodes, r: Request, reports: seq<Contract>, w: World, i: nat)
    requires Goes(c, nodes, r, reports, w, i) && (r.op == Update ==> r.contractId != 0)
    ensures SavedIds(Saves(c, nodes, r, w, i)) == UpdateId(r)
  {
  }

  lemma SavedAtMost(c: Chain, nodes: Nodes, r: Request, w: World, i: nat)
    ensures SavedIds(Saves(c, nodes, r, w, i)) <= UpdateId(r)
  {
  }

  lemma SavedIdsAppend(a: seq<Saved>, b: seq<Saved>)
    ensures SavedIds(a + b) == SavedIds(a) + SavedIds(b)
  {
  }

  /** The `k`-th request is sent, the ones before it having been. */
  ghost predicate Went(c: Chain, nodes: Nodes, plan: seq<Request>, reports: seq<Contract>, w: World, k: nat)
    requires k < |plan|
  {
    GoesAt(c, nodes, plan, reports, w, k) && (plan[k].op == Update ==> plan[k].contractId != 0)
  }

  ghost predicate AllWent(c: Chain, nodes: Nodes, plan: seq<Request>, reports: seq<Contract>, w: World, n: nat)
    requires n <= |plan|
  {
    forall k :: 0 <= k < n ==> Went(c, nodes, plan, reports, w, k)
  }

  lemma SavedNext(c: Chain, nodes: Nodes, plan: seq<Request>, reports: seq<Contract>, w: World, i: nat,
      ids: seq<nat>, more: seq<nat>)
    requires i < |plan| && ids == SavedIds(SavedBy(c, nodes, plan, reports, w, i))
    requires more == SavedIds(Saves(c, NodesAt(nodes, plan, reports, w, i), plan[i], w, i))
    ensures SavedIds(SavedBy(c, nodes, plan, reports, w, i + 1)) == ids + more
  {
    SavedIdsAppend(SavedBy(c, nodes, plan, reports, w, i),
        Saves(c, NodesAt(nodes, plan, reports, w, i), plan[i], w, i));
  }

  lemma WentNext(c: Chain, nodes: Nodes, plan: seq<Request>, reports: seq<Contract>, w: World, k: nat, ids: seq<nat>)
    requires k < |plan| && Went(c, nodes, plan, reports, w, k)
    requires ids == SavedIds(SavedBy(c, nodes, plan, reports, w, k))
    ensures SavedIds(SavedBy(c, nodes, plan, reports, w, k + 1)) == ids + UpdateId(plan[k])
  {
    SavedOne(c, NodesAt(nodes, plan, reports, w, k), plan[k], reports, w, k);
    SavedNext(c, nodes, plan, reports, w, k, ids, UpdateId(plan[k]));
  }

  /** While requests go through, each update saves the deployment of its contract. */
  lemma {:induction false} SavedInOrder(c: Chain, nodes: Nodes, plan: seq<Request>, reports: seq<Contract>,
      w: World, n: nat)
    requires n <= |plan| && AllWent(c, nodes, plan, reports, w, n)
    ensures SavedIds(SavedBy(c, nodes, plan, reports, w, n)) == UpdateIds(plan[..n])
  {
    if n > 0 {
      var k := n - 1;
      SavedInOrder(c, nodes, plan, reports, w, k);
      UpdateIdsNext(plan, k);
      assert Went(c, nodes, plan, reports, w, k);
      WentNext(c, nodes, plan, reports, w, k, UpdateIds(plan[..k]));
    }
  }

  lemma PrefixGrows(plan: seq<Request>, i: nat, more: seq<nat>)
    requires i < |plan| && more <= UpdateId(plan[i])
    ensures UpdateIds(plan[..i]) + more <= UpdateIds(plan)
  {
    UpdateIdsNext(plan, i);
    TakeDrop(plan, i + 1);
    UpdateIdsAppend(plan[..i + 1], plan[i + 1..]);
  }

  /** What `SendPlan` has pushed when it stops at request `reached - 1`: the originals of the first updates, in
      the order of the plan. */
  lemma SavedPrefix(c: Chain, nodes: Nodes, plan: seq<Request>, reports: seq<Contract>, w: World, reached: nat)
    requires 0 < reached <= |plan| && AllWent(c, nodes, plan, reports, w, reached - 1)
    ensures SavedIds(SavedBy(c, nodes, plan, reports, w, reached)) <= UpdateIds(plan)
  {
    var last := reached - 1;
    var now := NodesAt(nodes, plan, reports, w, last);
    var more := SavedIds(Saves(c, now, plan[last], w, last));
    SavedInOrder(c, nodes, plan, reports, w, last);
    SavedNext(c, nodes, plan, reports, w, last, UpdateIds(plan[..last]), more);
    SavedAtMost(c, now, plan[last], w, last);
    PrefixGrows(plan, last, more);
  }

  // ---- The plans that reach handle ----

  ghost predicate AllOf(rs: seq<Request>, op: Operation) {
    forall i :: 0 <= i < |rs| ==> rs[i].op == op
  }

  lemma ThreeParts(a: seq<Request>, b: seq<Request>, c: seq<Request>)
    requires AllOf(a, Deploy) && AllOf(b, Update) && AllOf(c, Delete)
    ensures InOrder(a + b + c, |a|, |a| + |b|)
  {
  }

  lemma ThreePartIds(a: seq<Request>, b: seq<Request>, c: seq<Request>)
    requires AllOf(a, Deploy) && AllOf(b, Update) && AllOf(c, Delete)
    ensures UpdateIds(a + b + c) == P.Ids(b)
  {
    UpdateIdsAppend(a, b);
    UpdateIdsAppend(a + b, c);
    FilterNone(a, IsUpdate);
    FilterAll(b, IsUpdate);
    FilterNone(c, IsUpdate);
  }

  lemma DeploysOnly(rs: seq<Request>)
    ensures AllOf(D.MergeDeploys(rs), Deploy)
  {
    var deploys := D.MergeDeploys(rs);
    D.AllMergedDeploy(rs);
    forall i | 0 <= i < |deploys| ensures deploys[i].op == Deploy { assert deploys[i] in deploys; }
  }

  lemma UpdatesOnly(rs: seq<Request>, chain: map<nat, nat>)
    ensures AllOf(P.KeptUpdates(rs, chain), Update)
  {
    var updates := P.KeptUpdates(rs, chain);
    forall i | 0 <= i < |updates| ensures updates[i].op == Update {
      P.KeptShape(rs, chain, updates[i]);
    }
  }

  /** What `merge` returns lists deployments, then updates, then deletes, and updates no contract twice, which is
      what the results here ask of a plan. */
  lemma MergedPlans(rs: seq<Request>, chain: map<nat, nat>, deletes: seq<Request>)
    requires AllOf(deletes, Delete)
    ensures var deploys, updates := D.MergeDeploys(rs), P.KeptUpdates(rs, chain);
      var plan := deploys + updates + deletes;
      && InOrder(plan, |deploys|, |deploys| + |updates|)
      && UpdateIds(plan) == P.Ids(updates) && NoDuplicates(UpdateIds(plan))
  {
    DeploysOnly(rs);
    UpdatesOnly(rs, chain);
    ThreeParts(D.MergeDeploys(rs), P.KeptUpdates(rs, chain), deletes);
    ThreePartIds(D.MergeDeploys(rs), P.KeptUpdates(rs, chain), deletes);
    assert NoDuplicates(P.Ids(P.KeptUpdates(rs, chain))) by {
      P.KeptIds(rs, chain);
    }
  }

  /** The originals are pushed in the order of the updates and popped against it: with `stale` left over from
      earlier calls and the originals of the first `m` of the updates on top, the `i`-th update gets back its
      own original exactly when it is the middle one. The updates that pushed none get a stale one, if any. */
  lemma OwnOriginalExactly(updated: seq<nat>, stale: seq<Saved>, saved: seq<Saved>, i: nat)
    requires NoDuplicates(updated) && SavedIds(saved) <= updated && i < |updated|
    ensures var popped := Popped(stale + saved, i);
      if i < |saved| then popped.Some? && (popped.value.contractId == updated[i] <==> 2 * i + 1 == |saved|)
      else popped == Popped(stale, i - |saved|)
  {
    var stack, m := stale + saved, |saved|;
    if i < m {
      assert stack[|stack| - 1 - i] == saved[m - 1 - i];
      assert SavedIds(saved)[m - 1 - i] == updated[m - 1 - i];
    }
  }

  /** The `i`-th update gets its own original from a stack of which the first `skipped` updates take nothing. */
  ghost predicate GetsOwn(updated: seq<nat>, stack: seq<Saved>, i: nat, skipped: nat)
    requires skipped <= i < |updated|
  {
    Popped(stack, i - skipped).Some? && Popped(stack, i - skipped).value.contractId == updated[i]
  }

  /** So all updates get their own originals exactly when at most one was sent and each that was not finds its own
      in what earlier calls left over. */
  lemma AllOwnExactly(updated: seq<nat>, stale: seq<Saved>, saved: seq<Saved>)
    requires NoDuplicates(updated) && SavedIds(saved) <= updated
    ensures (forall i :: 0 <= i < |updated| ==> GetsOwn(updated, stale + saved, i, 0)) <==>
              |saved| <= 1 && forall i :: |saved| <= i < |updated| ==> GetsOwn(updated, stale, i, |saved|)
  {
    var stack, m := stale + saved, |saved|;
    assert |SavedIds(saved)| <= |updated|;
    forall i | 0 <= i < |updated|
      ensures GetsOwn(updated, stack, i, 0) <==> if i < m then 2 * i + 1 == m else GetsOwn(updated, stale, i, m)
    {
      OwnOriginalExactly(updated, stale, saved, i);
    }
    if m > 1 {
      assert !GetsOwn(updated, stack, 0, 0);
    } else if forall i :: m <= i < |updated| ==> GetsOwn(updated, stale, i, m) {
      forall i | 0 <= i < |updated| ensures GetsOwn(updated, stack, i, 0) {
        assert i < m || GetsOwn(updated, stale, i, m);
      }
    } else {
      var i :| m <= i < |updated| && !GetsOwn(updated, stale, i, m);
      assert !GetsOwn(updated, stack, i, 0);
    }
  }

  // ---- What requests leave alone ----

  /** What is on a node at a place no request is sent to stays. */
  lemma {:induction false} Untouched(nodes: Nodes, plan: seq<Request>, reports: seq<Contract>, w: World, n: nat,
      place: Place)
    requires n <= |plan| && forall i :: 0 <= i < n && plan[i].op != Delete ==> Destination(plan[i], reports, w) != place
    ensures Same(nodes, NodesAt(nodes, plan, reports, w, n), place)
  {
    if n > 0 {
      Untouched(nodes, plan, reports, w, n - 1, place);
    }
  }

  ghost predicate Same(nodes: Nodes, after: Nodes, place: Place) {
    (place in after <==> place in nodes) && (place in nodes ==> after[place] == nodes[place])
  }
}
