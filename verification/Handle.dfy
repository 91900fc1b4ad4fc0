/** `TwinDeploymentHandler.handle`, from the merged plan on: prepare the extrinsics, submit, send to the nodes,
    delete, wait, and on a failure roll back. */
module Handle {
  import opened Models
  import opened Sequences
  import opened Batching
  import opened ChainState
  import opened Compensation

  /** What the world answers. `refused`: names held by another twin; `registered`: the contract of a name, 0 for
      none; `creates`, `deletes`: chunks the chain takes; `settles`: waiting for the nodes and saving the
      networks goes well; `back`: the answers during a rollback. */
  datatype World = World(
    refused: string -> bool, registered: string -> nat, nameOf: Workload -> string, hash: Hash,
    creates: nat -> bool, fetches: nat -> bool, sends: nat -> bool, deletes: nat -> bool, settles: bool, back: Answers)

  datatype Prepared = Prepared(nodeCalls: seq<Call>, nameCalls: seq<Call>, deleted: seq<Option<Call>>,
      updated: seq<nat>)

  datatype Outcome =
    | NotSubmitted                // failed while preparing
    | SubmitFailed                // the create and update batch failed
    // failed later, and rolled back; `sent` requests were sent, and `deleting` says whether the delete batch was tried
    | Undone(deleting: bool, sent: nat)
    // failed later, and the rollback failed too, with `restored` deployments sent back
    | UndoFailed(deleting: bool, sent: nat, restored: nat)
    | Handled

  // ---- Preparing ----

  /** The deployment a request carries. */
  function Payload(r: Request): Deployed { Deployed(r.version, r.workloads, r.rest) }

  function Hashed(r: Request, w: World): string { w.hash(Payload(r)) }

  function GatewayNames(ws: seq<Workload>, w: World): seq<string> {
    if ws == [] then []
    else
      GatewayNames(ws[..|ws| - 1], w) +
      (if ws[|ws| - 1].kind == GatewayName then [w.nameOf(ws[|ws| - 1])] else [])
  }

  function CreateNames(names: seq<string>): seq<Call> {
    seq(|names|, i requires 0 <= i < |names| => CreateName(names[i]))
  }

  /** `deleteNameContract` for each name: no extrinsic for a name without a contract. */
  function DropNames(c: Chain, names: seq<string>, w: World): seq<Option<Call>> {
    seq(|names|, i requires 0 <= i < |names| =>
      if w.registered(names[i]) == 0 then None else CancelCall(c, w.registered(names[i])))
  }

  predicate NoneRefused(names: seq<string>, w: World) {
    forall i :: 0 <= i < |names| ==> !w.refused(names[i])
  }

  predicate Preparable(c: Chain, r: Request, w: World) {
    && (r.op != Delete ==> NoneRefused(GatewayNames(r.workloads, w), w))
    && (r.op == Update ==> IsNode(c, r.contractId))
  }

  /** `PrepareExtrinsic`. */
  function PreparedOne(c: Chain, r: Request, w: World): Prepared {
    var names := GatewayNames(r.workloads, w);
    match r.op
    case Deploy => Prepared([CreateNode(r.nodeId, Hashed(r, w))], CreateNames(names), [], [])
    case Update => Prepared([UpdateNode(r.contractId, Hashed(r, w))], CreateNames(names), [], [r.contractId])
    case Delete => Prepared([], [], DropNames(c, names, w) + [CancelCall(c, r.contractId)], [])
  }

  function Joined(p: Prepared, q: Prepared): Prepared {
    Prepared(p.nodeCalls + q.nodeCalls, p.nameCalls + q.nameCalls, p.deleted + q.deleted, p.updated + q.updated)
  }

  function PreparedAll(c: Chain, plan: seq<Request>, w: World): Prepared {
    if plan == [] then Prepared([], [], [], [])
    else Joined(PreparedAll(c, plan[..|plan| - 1], w), PreparedOne(c, plan[|plan| - 1], w))
  }

  ghost predicate AllPreparable(c: Chain, plan: seq<Request>, w: World) {
    forall i :: 0 <= i < |plan| ==> Preparable(c, plan[i], w)
  }

  function Creations(p: Prepared): seq<Call> { p.nodeCalls + p.nameCalls }

  /** No cancels among the creations and updates; updates name contracts listed as updated, which are live;
      deletions cancel live contracts. */
  ghost predicate Sound(c: Chain, p: Prepared) {
    && (forall call :: call in Creations(p) ==> !call.Cancel? && (call.UpdateNode? ==> call.id in p.updated))
    && (forall id :: id in p.updated ==> id in c.live)
    && (forall x: Option<Call> :: x in p.deleted && x.Some? ==> x.value.Cancel? && x.value.id in c.live)
  }

  lemma JoinSound(c: Chain, p: Prepared, q: Prepared)
    requires Sound(c, p) && Sound(c, q)
    ensures Sound(c, Joined(p, q))
  {
    forall call | call in Creations(Joined(p, q)) ensures call in Creations(p) || call in Creations(q) {
    }
  }

  lemma OneSound(c: Chain, r: Request, w: World)
    requires Preparable(c, r, w)
    ensures Sound(c, PreparedOne(c, r, w))
  {
  }

  lemma {:induction false} PreparedSound(c: Chain, plan: seq<Request>, w: World)
    requires AllPreparable(c, plan, w)
    ensures Sound(c, PreparedAll(c, plan, w))
  {
    if plan != [] {
      var last := |plan| - 1;
      PreparedSound(c, plan[..last], w);
      assert Preparable(c, plan[last], w);
      OneSound(c, plan[last], w);
      JoinSound(c, PreparedAll(c, plan[..last], w), PreparedOne(c, plan[last], w));
    }
  }

  method ReadGateways(ws: seq<Workload>, w: World) returns (names: seq<string>)
    ensures names == GatewayNames(ws, w)
  {
    names := [];
    for i := 0 to |ws|
      invariant names == GatewayNames(ws[..i], w)
    {
      assert ws[..i + 1][..i] == ws[..i];
      if ws[i].kind == GatewayName {
        names := names + [w.nameOf(ws[i])];
      }
    }
    assert ws[..|ws|] == ws;
  }

  method PrepareExtrinsic(c: Chain, r: Request, w: World) returns (p: Option<Prepared>)
    ensures p == if Preparable(c, r, w) then Some(PreparedOne(c, r, w)) else None
  {
    var names := ReadGateways(r.workloads, w);
    match r.op
    case Delete =>
      p := Some(Prepared([], [], DropNames(c, names, w) + [CancelCall(c, r.contractId)], []));
    case Deploy =>
      if !NoneRefused(names, w) { return None; }
      p := Some(Prepared([CreateNode(r.nodeId, Hashed(r, w))], CreateNames(names), [], []));
    case Update =>
      if !NoneRefused(names, w) || !IsNode(c, r.contractId) { return None; }
      p := Some(Prepared([UpdateNode(r.contractId, Hashed(r, w))], CreateNames(names), [], [r.contractId]));
  }

  method Prepare(c: Chain, plan: seq<Request>, w: World) returns (p: Option<Prepared>)
    ensures p.Some? <==> AllPreparable(c, plan, w)
    ensures p.Some? ==> p.value == PreparedAll(c, plan, w)
  {
    var all := Prepared([], [], [], []);
    for i := 0 to |plan|
      invariant forall k :: 0 <= k < i ==> Preparable(c, plan[k], w)
      invariant all == PreparedAll(c, plan[..i], w)
    {
      assert plan[..i + 1][..i] == plan[..i];
      var one := PrepareExtrinsic(c, plan[i], w);
      if one.None? {
        return None;
      }
      all := Joined(all, one.value);
    }
    assert plan[..|plan|] == plan;
    p := Some(all);
  }

  // ---- Contracts made, cancelled, given back ----

  /** `contracts.created`: what the batch reported that was not there to be updated. */
  function Created(reports: seq<Contract>, updated: seq<nat>): seq<nat> {
    if reports == [] then []
    else
      Created(reports[..|reports| - 1], updated) +
      (if reports[|reports| - 1].id in updated then [] else [reports[|reports| - 1].id])
  }

  lemma {:induction false} CreatedMembers(reports: seq<Contract>, updated: seq<nat>, id: nat)
    ensures id in Created(reports, updated) <==> id in Ids(reports) && id !in updated
  {
    if reports != [] {
      var front := reports[..|reports| - 1];
      CreatedMembers(front, updated, id);
      assert Ids(reports) == Ids(front) + [reports[|reports| - 1].id];
    }
  }

  method ListCreated(reports: seq<Contract>, updated: seq<nat>) returns (created: seq<nat>)
    ensures created == Created(reports, updated)
  {
    created := [];
    for i := 0 to |reports|
      invariant created == Created(reports[..i], updated)
    {
      assert reports[..i + 1][..i] == reports[..i];
      if reports[i].id !in updated {
        created := created + [reports[i].id];
      }
    }
    assert reports[..|reports|] == reports;
  }

  /** The created contracts are the ones the batch added. */
  lemma CreatedAreNew(c: Chain, p: Prepared)
    requires WellFormed(c) && Sound(c, p)
    ensures var d := ApplyAll(c, Creations(p));
      && WellFormed(d)
      && (forall id :: id in c.live ==> id in d.live)
      && (forall id :: id in Created(Reports(c, Creations(p)), p.updated) <==> id in d.live && id !in c.live)
  {
    var calls := Creations(p);
    var d, reports := ApplyAll(c, calls), Reports(c, calls);
    WithoutCancels(c, calls);
    ReportedIds(c, calls);
    forall id: nat ensures id in Created(reports, p.updated) <==> id in d.live && id !in c.live {
      CreatedMembers(reports, p.updated, id);
      if id in Ids(reports) && id !in p.updated {
        var i :| 0 <= i < |reports| && Ids(reports)[i] == id;
        assert calls[i] in calls;
      }
    }
  }

  /** Deleting part of the requested contracts touches nothing else. */
  lemma DeletesOnly(c: Chain, d: Chain, p: Prepared, accepts: nat -> bool)
    requires Sound(c, p) && WellFormed(d)
    ensures var calls := Landed(Present(p.deleted), accepts);
      var e := ApplyAll(d, calls);
      && WellFormed(e)
      && e.live.Keys == d.live.Keys - Cancelled(calls) && Cancelled(calls) <= c.live.Keys
      && (forall id :: id in d.live && id !in Cancelled(calls) ==> e.live[id] == d.live[id])
  {
    var all := Present(p.deleted);
    var calls := Landed(all, accepts);
    LandedPrefix(all, accepts);
    forall call | call in calls ensures call.Cancel? && call.id in c.live {
      assert call in all;
      PresentMembers(p.deleted, call);
    }
    WithoutCreates(d, calls);
    forall id | id in d.live && id !in Cancelled(calls) ensures ApplyAll(d, calls).live[id] == d.live[id] {
      Unnamed(d, calls, id);
    }
    assert WellFormed(ApplyAll(d, calls));
  }

  /** Nothing but the updated contracts changes value among those that were there. */
  lemma CreationsKeep(c: Chain, p: Prepared, id: nat)
    requires WellFormed(c) && Sound(c, p) && id in c.live && id !in p.updated
    ensures id in ApplyAll(c, Creations(p)).live && ApplyAll(c, Creations(p)).live[id] == c.live[id]
  {
    Unnamed(c, Creations(p), id);
  }

  // ---- Sending to the nodes ----

  datatype Match = Hit(contract: Contract) | Miss | Broken

  /** The first reported contract with the hash; the search breaks on a name contract, which has no hash. */
  function Search(reports: seq<Contract>, hash: string): Match {
    if reports == [] then Miss
    else
      var m, last := Search(reports[..|reports| - 1], hash), reports[|reports| - 1];
      if m != Miss then m
      else if last.NameContract? then Broken
      else if last.hash == hash then Hit(last)
      else Miss
  }

  method FindContract(reports: seq<Contract>, hash: string) returns (m: Match)
    ensures m == Search(reports, hash)
  {
    for i := 0 to |reports|
      invariant Search(reports[..i], hash) == Miss
    {
      assert reports[..i + 1][..i] == reports[..i];
      if reports[i].NameContract? {
        SearchStops(reports, hash, i + 1);
        return Broken;
      }
      if reports[i].hash == hash {
        SearchStops(reports, hash, i + 1);
        return Hit(reports[i]);
      }
    }
    assert reports[..|reports|] == reports;
    m := Miss;
  }

  lemma {:induction false} SearchStops(reports: seq<Contract>, hash: string, n: nat)
    requires n <= |reports| && Search(reports[..n], hash) != Miss
    ensures Search(reports, hash) == Search(reports[..n], hash)
  {
    if n == |reports| {
      assert reports[..n] == reports;
    } else {
      var front := reports[..|reports| - 1];
      assert front[..n] == reports[..n];
      SearchStops(front, hash, n);
    }
  }

  /** A request once its contract is looked up. */
  function Assigned(r: Request, reports: seq<Contract>, w: World): Request {
    match r.op
    case Delete => r
    case Deploy =>
      var m := Search(reports, Hashed(r, w));
      if m.Hit? then r.(contractId := m.contract.id) else r
    case Update =>
      var m := Search(reports, Hashed(r, w));
      if m.Hit? && m.contract.NodeContract? then r.(nodeId := m.contract.nodeId) else r
  }

  predicate Fetches(r: Request) { r.op == Update && r.contractId != 0 }

  predicate Goes(c: Chain, nodes: Nodes, r: Request, reports: seq<Contract>, w: World, i: nat) {
    r.op == Delete ||
    (&& (Fetches(r) ==> w.fetches(i) && Running(c, nodes, r.contractId).Some?)
     && Search(reports, Hashed(r, w)) != Broken && w.sends(i))
  }

  /** Where a request is sent: to the node it names once its contract is looked up, which for an update is the
      node of the contract found by hash. */
  function Destination(r: Request, reports: seq<Contract>, w: World): Place {
    Place(Assigned(r, reports, w).nodeId, Assigned(r, reports, w).contractId)
  }

  /** What sending one request leaves on the nodes, and the original it saves first. */
  function NodesAfter(nodes: Nodes, r: Request, reports: seq<Contract>, w: World): Nodes {
    if r.op == Delete then nodes
    else nodes[Destination(r, reports, w) := Payload(r)]
  }

  function Saves(c: Chain, nodes: Nodes, r: Request, w: World, i: nat): seq<Saved> {
    if Fetches(r) && w.fetches(i) && Running(c, nodes, r.contractId).Some?
    then [Saved(r.contractId, Running(c, nodes, r.contractId).value)]
    else []
  }

  function NodesAt(nodes: Nodes, plan: seq<Request>, reports: seq<Contract>, w: World, n: nat): Nodes
    requires n <= |plan|
  {
    if n == 0 then nodes else NodesAfter(NodesAt(nodes, plan, reports, w, n - 1), plan[n - 1], reports, w)
  }

  /** The originals saved by the first `n` requests. */
  function SavedBy(c: Chain, nodes: Nodes, plan: seq<Request>, reports: seq<Contract>, w: World, n: nat): seq<Saved>
    requires n <= |plan|
  {
    if n == 0 then []
    else
      SavedBy(c, nodes, plan, reports, w, n - 1) +
      Saves(c, NodesAt(nodes, plan, reports, w, n - 1), plan[n - 1], w, n - 1)
  }

  /** `sendToNode` and what leads to it. A request that does not go leaves the nodes as they were. */
  method SendToNode(h: Handler, r: Request, reports: seq<Contract>, w: World, i: nat) returns (ok: bool, sent: Request)
    modifies h`nodes, h`originals
    ensures ok <==> Goes(h.chain, old(h.nodes), r, reports, w, i)
    ensures ok ==> sent == Assigned(r, reports, w)
    ensures h.nodes == if ok then NodesAfter(old(h.nodes), r, reports, w) else old(h.nodes)
    ensures h.originals == old(h.originals) + Saves(h.chain, old(h.nodes), r, w, i)
  {
    ok, sent := true, r;
    if r.op == Delete {
      return;
    }
    if r.op == Update && r.contractId != 0 {
      var original := Running(h.chain, h.nodes, r.contractId);
      if !w.fetches(i) || original.None? {
        return false, r;
      }
      h.originals := h.originals + [Saved(r.contractId, original.value)];
    }
    var m := FindContract(reports, Hashed(r, w));
    if m.Broken? {
      return false, r;
    }
    if m.Hit? {
      if r.op == Deploy {
        sent := r.(contractId := m.contract.id);
      } else if m.contract.NodeContract? {
        sent := r.(nodeId := m.contract.nodeId);
      }
    }
    if !w.sends(i) {
      return false, r;
    }
    h.nodes := h.nodes[Place(sent.nodeId, sent.contractId) := Payload(sent)];
  }

  method SendNext(h: Handler, plan: seq<Request>, reports: seq<Contract>, w: World, i: nat,
      ghost nodes: Nodes, ghost originals: seq<Saved>)
    returns (ok: bool, sent: Request)
    requires i < |plan| && h.nodes == NodesAt(nodes, plan, reports, w, i)
    requires h.originals == originals + SavedBy(h.chain, nodes, plan, reports, w, i)
    modifies h`nodes, h`originals
    ensures ok <==> GoesAt(h.chain, nodes, plan, reports, w, i)
    ensures ok ==> sent == Assigned(plan[i], reports, w)
    ensures h.nodes == NodesAt(nodes, plan, reports, w, if ok then i + 1 else i)
    ensures h.originals == originals + SavedBy(h.chain, nodes, plan, reports, w, i + 1)
  {
    ok, sent := SendToNode(h, plan[i], reports, w, i);
  }

  /** The `i`-th request goes, once the ones before it have. */
  predicate GoesAt(c: Chain, nodes: Nodes, plan: seq<Request>, reports: seq<Contract>, w: World, i: nat)
    requires i < |plan|
  {
    Goes(c, NodesAt(nodes, plan, reports, w, i), plan[i], reports, w, i)
  }

  /** The first `sent` requests go and the next one, if any, does not. */
  ghost predicate GoesUpTo(c: Chain, nodes: Nodes, plan: seq<Request>, reports: seq<Contract>, w: World, sent: nat) {
    && sent <= |plan| && (forall i :: 0 <= i < sent ==> GoesAt(c, nodes, plan, reports, w, i))
    && (sent < |plan| ==> !GoesAt(c, nodes, plan, reports, w, sent))
  }

  /** Requests started when `sent` of them went: the next one failed, unless there is none. */
  function Started(plan: seq<Request>, sent: nat): nat { if sent < |plan| then sent + 1 else |plan| }

  /** Sends until a request fails. */
  method SendPlan(h: Handler, plan: seq<Request>, reports: seq<Contract>, w: World) returns (sent: seq<Request>)
    modifies h`nodes, h`originals
    ensures |sent| <= |plan| && h.nodes == NodesAt(old(h.nodes), plan, reports, w, |sent|)
    ensures h.originals == old(h.originals) + SavedBy(h.chain, old(h.nodes), plan, reports, w, Started(plan, |sent|))
    ensures forall i :: 0 <= i < |sent| ==> sent[i] == Assigned(plan[i], reports, w)
    ensures GoesUpTo(h.chain, old(h.nodes), plan, reports, w, |sent|)
  {
    hide Goes, Assigned, NodesAfter, Saves;
    ghost var nodes, originals := h.nodes, h.originals;
    sent := [];
    while |sent| < |plan|
      invariant |sent| <= |plan| && h.nodes == NodesAt(nodes, plan, reports, w, |sent|)
      invariant h.originals == originals + SavedBy(h.chain, nodes, plan, reports, w, |sent|)
      invariant forall i :: 0 <= i < |sent| ==> sent[i] == Assigned(plan[i], reports, w)
      invariant forall i :: 0 <= i < |sent| ==> GoesAt(h.chain, nodes, plan, reports, w, i)
      decreases |plan| - |sent|
    {
      var went, r := SendNext(h, plan, reports, w, |sent|, nodes, originals);
      if !went {
        return;
      }
      sent := sent + [r];
    }
  }

  // ---- Handling a plan ----

  /** The contracts the delete batch removed, as far as it got. */
  ghost function Gone(p: Prepared, w: World, deleting: bool): set<nat> {
    if deleting then Cancelled(Landed(Present(p.deleted), w.deletes)) else {}
  }

  /** The chain and the nodes in which the `catch` clause runs, and what it restores if nothing stops it. */
  function ChainThen(c: Chain, p: Prepared, w: World, deleting: bool): Chain {
    var d := ApplyAll(c, Creations(p));
    if deleting then ApplyAll(d, Landed(Present(p.deleted), w.deletes)) else d
  }

  function NodesThen(c: Chain, nodes: Nodes, plan: seq<Request>, p: Prepared, w: World, sent: nat): Nodes
    requires sent <= |plan|
  {
    NodesAt(nodes, plan, Reports(c, Creations(p)), w, sent)
  }

  function OriginalsThen(c: Chain, nodes: Nodes, originals: seq<Saved>, plan: seq<Request>, p: Prepared, w: World,
      sent: nat): seq<Saved>
    requires sent <= |plan|
  {
    originals + SavedBy(ApplyAll(c, Creations(p)), nodes, plan, Reports(c, Creations(p)), w, Started(plan, sent))
  }

  function RestoredThen(c: Chain, nodes: Nodes, originals: seq<Saved>, plan: seq<Request>, p: Prepared, w: World,
      deleting: bool, sent: nat): seq<Restoration>
    requires sent <= |plan|
  {
    Restorations(ChainThen(c, p, w, deleting), NodesThen(c, nodes, plan, p, w, sent), p.updated,
                 OriginalsThen(c, nodes, originals, plan, p, w, sent), |p.updated|)
  }

  /** Contracts that were there, and are neither updated nor gone, are as they were. */
  ghost predicate OthersKept(c: Chain, d: Chain, p: Prepared, gone: set<nat>) {
    forall id :: id in c.live && id !in gone && id !in p.updated ==> id in d.live && d.live[id] == c.live[id]
  }

  /** The state in which the `catch` clause runs. */
  ghost predicate Failed(c: Chain, d: Chain, p: Prepared, gone: set<nat>) {
    && WellFormed(d) && gone <= c.live.Keys
    && d.live.Keys == ApplyAll(c, Creations(p)).live.Keys - gone
    && OthersKept(c, d, p, gone)
  }

  lemma FailedBeforeDeleting(c: Chain, p: Prepared)
    requires WellFormed(c) && Sound(c, p)
    ensures Failed(c, ApplyAll(c, Creations(p)), p, {})
  {
    CreatedAreNew(c, p);
    forall id | id in c.live && id !in p.updated ensures ApplyAll(c, Creations(p)).live[id] == c.live[id] {
      CreationsKeep(c, p, id);
    }
  }

  lemma FailedAfterDeleting(c: Chain, p: Prepared, accepts: nat -> bool)
    requires WellFormed(c) && Sound(c, p)
    ensures var calls := Landed(Present(p.deleted), accepts);
      Failed(c, ApplyAll(ApplyAll(c, Creations(p)), calls), p, Cancelled(calls))
  {
    FailedBeforeDeleting(c, p);
    CreatedAreNew(c, p);
    DeletesOnly(c, ApplyAll(c, Creations(p)), p, accepts);
  }

  /** A rollback, whole or in part: it never adds a contract and never cancels one that was there before;
      when it is whole, what was there before is what is left, less what was deleted. */
  lemma RolledBack(c: Chain, d: Chain, p: Prepared, gone: set<nat>, h: seq<Saved>, nodes: Nodes,
      hash: Hash, accepts: nat -> bool)
    requires WellFormed(c) && Sound(c, p) && Failed(c, d, p, gone)
    ensures var created := Created(Reports(c, Creations(p)), p.updated);
      var calls := RollbackCalls(d, nodes, h, created, p.updated, hash);
      var e := ApplyAll(d, Landed(calls, accepts));
      && c.live.Keys - gone <= e.live.Keys <= d.live.Keys
      && (AllAccepted(calls, accepts) ==> e.live.Keys == c.live.Keys - gone)
      && OthersKept(c, e, p, gone)
  {
    var created := Created(Reports(c, Creations(p)), p.updated);
    var rs := Restorations(d, nodes, p.updated, h, |p.updated|);
    var calls := RollbackCalls(d, nodes, h, created, p.updated, hash);
    CreatedAreNew(c, p);
    BatchCompensates(d, created, rs, p.updated, hash);
    LandedPrefix(calls, accepts);
    var landed := Landed(calls, accepts);
    assert Compensates(landed, created, p.updated) by {
      forall call | call in landed ensures call in calls { }
    }
    Compensated(d, landed, created, p.updated);
    if AllAccepted(calls, accepts) {
      AllLand(calls, accepts);
    }
  }

  /** The `catch` clause: `restored` deployments were sent back, all of them when it succeeds. */
  method Undo(h: Handler, p: Prepared, w: World, reports: seq<Contract>, ghost gone: set<nat>, ghost c: Chain)
    returns (ok: bool, restored: nat)
    requires WellFormed(c) && Sound(c, p) && reports == Reports(c, Creations(p)) && Failed(c, h.chain, p, gone)
    modifies h
    ensures c.live.Keys - gone <= h.chain.live.Keys <= old(h.chain).live.Keys
    ensures ok ==> h.chain.live.Keys == c.live.Keys - gone
    ensures var rs := Restorations(old(h.chain), old(h.nodes), p.updated, old(h.originals), |p.updated|);
      restored <= |rs| && h.nodes == SendAll(old(h.nodes), rs[..restored]) && (ok ==> restored == |rs|)
    ensures OthersKept(c, h.chain, p, gone)
  {
    ghost var d, originals, nodes := h.chain, h.originals, h.nodes;
    var created := ListCreated(reports, p.updated);
    RolledBack(c, d, p, gone, originals, nodes, w.hash, w.back.accepts);
    CreatedAreNew(c, p);
    ok, restored := Rollback(h, created, p.updated, w.hash, w.back);
  }

  /** What the nodes are left with: `restored` deployments were sent back. */
  ghost predicate LeftNodes(c: Chain, nodes: Nodes, originals: seq<Saved>, plan: seq<Request>, p: Prepared, w: World,
      deleting: bool, sent: nat, restored: nat, nodesAfter: Nodes)
  {
    && GoesUpTo(ApplyAll(c, Creations(p)), nodes, plan, Reports(c, Creations(p)), w, sent)
    && (deleting ==> sent == |plan|)
    && var rs := RestoredThen(c, nodes, originals, plan, p, w, deleting, sent);
       restored <= |rs| && nodesAfter == SendAll(NodesThen(c, nodes, plan, p, w, sent), rs[..restored])
  }

  /** What is left when a failure after the batch has been rolled back, or not quite. */
  ghost predicate Left(c: Chain, nodes: Nodes, originals: seq<Saved>, plan: seq<Request>, p: Prepared, w: World,
      deleting: bool, sent: nat, restored: nat, after: Chain, nodesAfter: Nodes)
  {
    && c.live.Keys - Gone(p, w, deleting) <= after.live.Keys <= ApplyAll(c, Creations(p)).live.Keys
    && OthersKept(c, after, p, Gone(p, w, deleting))
    && LeftNodes(c, nodes, originals, plan, p, w, deleting, sent, restored, nodesAfter)
  }

  /** After the create and update batch: whatever fails from here on is rolled back. */
  method Carry(h: Handler, plan: seq<Request>, p: Prepared, w: World, reports: seq<Contract>, ghost c: Chain)
    returns (r: Outcome)
    requires WellFormed(c) && Sound(c, p) && reports == Reports(c, Creations(p)) && h.chain == ApplyAll(c, Creations(p))
    modifies h
    ensures r.Handled? || r.Undone? || r.UndoFailed?
    ensures r.Handled? ==> h.chain.live.Keys == old(h.chain).live.Keys - Cancelled(Present(p.deleted))
    ensures r.Handled? ==> OthersKept(c, h.chain, p, Cancelled(Present(p.deleted)))
    ensures r.Handled? ==> GoesUpTo(old(h.chain), old(h.nodes), plan, reports, w, |plan|)
    ensures r.Handled? ==> h.nodes == NodesThen(c, old(h.nodes), plan, p, w, |plan|)
    ensures r.Handled? ==> h.originals == OriginalsThen(c, old(h.nodes), old(h.originals), plan, p, w, |plan|)
    ensures r.Undone? ==>
              && r.sent <= |plan|
              && var all := |RestoredThen(c, old(h.nodes), old(h.originals), plan, p, w, r.deleting, r.sent)|;
                 Left(c, old(h.nodes), old(h.originals), plan, p, w, r.deleting, r.sent, all, h.chain, h.nodes)
    ensures r.Undone? ==> h.chain.live.Keys == c.live.Keys - Gone(p, w, r.deleting)
    ensures r.UndoFailed? ==>
              Left(c, old(h.nodes), old(h.originals), plan, p, w, r.deleting, r.sent, r.restored, h.chain, h.nodes)
  {
    FailedBeforeDeleting(c, p);
    FailedAfterDeleting(c, p, w.deletes);
    var sent := SendPlan(h, plan, reports, w);
    var deleting := false;
    if |sent| == |plan| {
      deleting := true;
      var chain, deletedResult := Submit(h.chain, p.deleted, w.deletes);
      h.chain := chain;
      if deletedResult.Some? && w.settles {
        AllLand(Present(p.deleted), w.deletes);
        return Handled;
      }
    }
    var ok, restored := Undo(h, p, w, reports, Gone(p, w, deleting), c);
    r := if ok then Undone(deleting, |sent|) else UndoFailed(deleting, |sent|, restored);
  }

  /** The whole of `handle` after the merge. Preparing fails before anything is submitted. If the create and
      update batch fails, the chunks that went through stay. After that batch, a failure is rolled back: when
      the rollback succeeds, the live contracts are those there were at the start, less those the delete batch
      had removed, and every restoration is on its node; when it does not, no contract that was there at the
      start is lost beyond those. Contracts that are neither updated nor deleted never change. */
  method Handle(h: Handler, plan: seq<Request>, w: World) returns (r: Outcome)
    requires WellFormed(h.chain)
    modifies h
    ensures r == NotSubmitted <==> !AllPreparable(old(h.chain), plan, w)
    ensures r == NotSubmitted ==> h.chain == old(h.chain) && h.nodes == old(h.nodes)
    ensures var c, p := old(h.chain), PreparedAll(old(h.chain), plan, w);
      var nodes, originals := old(h.nodes), old(h.originals);
      match r
      case NotSubmitted => true
      case SubmitFailed =>
        && !AllAccepted(Creations(p), w.creates)
        && h.chain == ApplyAll(c, Landed(Creations(p), w.creates)) && h.nodes == nodes
      case Undone(deleting, sent) =>
        && h.chain.live.Keys == c.live.Keys - Gone(p, w, deleting)
        && sent <= |plan|
        && var all := |RestoredThen(c, nodes, originals, plan, p, w, deleting, sent)|;
           Left(c, nodes, originals, plan, p, w, deleting, sent, all, h.chain, h.nodes)
      case UndoFailed(deleting, sent, restored) =>
        Left(c, nodes, originals, plan, p, w, deleting, sent, restored, h.chain, h.nodes)
      case Handled =>
        && h.chain.live.Keys == ApplyAll(c, Creations(p)).live.Keys - Cancelled(Present(p.deleted))
        && OthersKept(c, h.chain, p, Cancelled(Present(p.deleted)))
        && GoesUpTo(ApplyAll(c, Creations(p)), nodes, plan, Reports(c, Creations(p)), w, |plan|)
        && h.nodes == NodesThen(c, nodes, plan, p, w, |plan|)
        && h.originals == OriginalsThen(c, nodes, originals, plan, p, w, |plan|)
  {
    ghost var c := h.chain;
    var prepared := Prepare(h.chain, plan, w);
    if prepared.None? {
      return NotSubmitted;
    }
    var p := prepared.value;
    PreparedSound(c, plan, w);
    PresentAll(p.nodeCalls + p.nameCalls);
    var chain, reports := Submit(h.chain, Requested(p.nodeCalls + p.nameCalls), w.creates);
    h.chain := chain;
    if reports.None? {
      return SubmitFailed;
    }
    AllLand(Creations(p), w.creates);
    r := Carry(h, plan, p, w, reports.value, c);
  }

  function Requested(calls: seq<Call>): seq<Option<Call>> {
    seq(|calls|, i requires 0 <= i < |calls| => Some(calls[i]))
  }

  lemma {:induction false} PresentAll(calls: seq<Call>)
    ensures Present(Requested(calls)) == calls
  {
    if calls != [] {
      PresentAll(calls[..|calls| - 1]);
      assert Requested(calls)[..|calls| - 1] == Requested(calls[..|calls| - 1]);
    }
  }
}
