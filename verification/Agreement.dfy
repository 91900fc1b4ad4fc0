/** Whether the hash a contract carries on the chain is the hash of the deployment its own node runs: after a plan is
    carried through, and for what a rollback restores. */
module Agreement {
  import opened Models
  import opened Sequences
  import opened Batching
  import opened ChainState
  import opened Compensation
  import opened Handle
  import opened HandleResults

  /** Every update of a contract in the batch carries the same hash. */
  ghost predicate UpdatesSay(calls: seq<Call>, id: nat, hash: string) {
    forall call :: call in calls && Names(call, id) ==> call == UpdateNode(id, hash)
  }

  /** Then that hash is what the contract ends with, if it is updated at all. */
  lemma {:induction false} UpdatedHash(c: Chain, calls: seq<Call>, id: nat, hash: string)
    requires IsNode(c, id) && id < c.next && UpdatesSay(calls, id, hash)
    ensures var d := ApplyAll(c, calls);
      && IsNode(d, id) && id < d.next && Own(d, id) == Own(c, id)
      && (UpdateNode(id, hash) in calls ==> d.live[id].hash == hash)
  {
    if calls != [] {
      var front, last := calls[..|calls| - 1], calls[|calls| - 1];
      assert calls == front + [last] && last in calls;
      UpdatedHash(c, front, id, hash);
    }
  }

  ghost predicate Holds(d: Chain, r: Contract) { r.id in d.live && d.live[r.id] == r }

  lemma Made(c: Chain, calls: seq<Call>, i: nat)
    requires i < |calls| && Creates(calls[i])
    ensures var r, d := Reports(c, calls)[i], ApplyAll(c, calls[..i + 1]);
      r.id < d.next && Holds(d, r)
  {
    ReportAt(c, calls, i);
    assert calls[..i + 1][..i] == calls[..i];
  }

  /** A created contract keeps the value it was created with while no later call names it. */
  lemma CreatedStays(c: Chain, calls: seq<Call>, i: nat, r: Contract)
    requires i < |calls| && Creates(calls[i]) && r == Reports(c, calls)[i]
    requires forall call :: call in calls ==> !Names(call, r.id)
    ensures Holds(ApplyAll(c, calls), r)
  {
    Made(c, calls, i);
    TakeDrop(calls, i + 1);
    ApplyAppend(c, calls[..i + 1], calls[i + 1..]);
    Unnamed(ApplyAll(c, calls[..i + 1]), calls[i + 1..], r.id);
  }

  // ---- The batch of a plan ----

  ghost predicate IsUpdateOf(r: Request, w: World, call: Call) {
    r.op == Update && call == UpdateNode(r.contractId, Hashed(r, w))
  }

  /** The updates in the batch are those of the plan's update requests. */
  lemma {:induction false} BatchUpdates(c: Chain, plan: seq<Request>, w: World, call: Call)
    requires call.UpdateNode?
    ensures call in Creations(PreparedAll(c, plan, w)) <==> exists k :: 0 <= k < |plan| && IsUpdateOf(plan[k], w, call)
  {
    if plan != [] {
      var front, last := plan[..|plan| - 1], plan[|plan| - 1];
      BatchUpdates(c, front, w, call);
      JoinedMembers(PreparedAll(c, front, w), PreparedOne(c, last, w), call);
      OneUpdate(c, last, w, call);
      if k :| 0 <= k < |front| && IsUpdateOf(front[k], w, call) {
        assert IsUpdateOf(plan[k], w, call);
      }
      if k :| 0 <= k < |plan| && IsUpdateOf(plan[k], w, call) {
        assert k < |front| ==> IsUpdateOf(front[k], w, call);
      }
    }
  }

  lemma JoinedMembers(p: Prepared, q: Prepared, call: Call)
    ensures call in Creations(Joined(p, q)) <==> call in Creations(p) || call in Creations(q)
  {
  }

  lemma OneUpdate(c: Chain, r: Request, w: World, call: Call)
    requires call.UpdateNode?
    ensures call in Creations(PreparedOne(c, r, w)) <==> IsUpdateOf(r, w, call)
  {
    if r.op == Update {
      assert Creations(PreparedOne(c, r, w))[0] == UpdateNode(r.contractId, Hashed(r, w));
    }
  }

  lemma UpdateIdsGrow(plan: seq<Request>, k: nat, m: nat)
    requires k < m <= |plan| && plan[k].op == Update
    ensures |UpdateIds(plan[..k])| < |UpdateIds(plan[..m])|
  {
    assert plan[..m][..k] == plan[..k];
    PrefixGrows(plan[..m], k, UpdateId(plan[k]));
  }

  lemma UpdateIdAt(plan: seq<Request>, k: nat)
    requires k < |plan| && plan[k].op == Update
    ensures var i := |UpdateIds(plan[..k])|; i < |UpdateIds(plan)| && UpdateIds(plan)[i] == plan[k].contractId
  {
    PrefixGrows(plan, k, UpdateId(plan[k]));
  }

  lemma OneUpdateEach(plan: seq<Request>, k: nat, m: nat)
    requires NoDuplicates(UpdateIds(plan)) && k < m < |plan|
    requires plan[k].op == Update && plan[m].op == Update
    ensures plan[k].contractId != plan[m].contractId
  {
    UpdateIdAt(plan, k);
    UpdateIdAt(plan, m);
    UpdateIdsGrow(plan, k, m);
  }

  // ---- After a plan ----

  /** A plan as `merge` returns it: in order, no contract updated twice. */
  ghost predicate Merged(plan: seq<Request>, n: nat, m: nat) {
    InOrder(plan, n, m) && NoDuplicates(UpdateIds(plan))
  }

  /** The batch of a plan, what it leaves and what it reports. */
  ghost predicate Batch(c: Chain, plan: seq<Request>, w: World, p: Prepared, after: Chain, reports: seq<Contract>) {
    p == PreparedAll(c, plan, w) && after == ApplyAll(c, Creations(p)) && reports == Reports(c, Creations(p))
  }

  lemma UpdateSaid(c: Chain, plan: seq<Request>, w: World, k: nat, p: Prepared, after: Chain, reports: seq<Contract>)
    requires WellFormed(c) && AllPreparable(c, plan, w) && NoDuplicates(UpdateIds(plan))
    requires k < |plan| && plan[k].op == Update && Batch(c, plan, w, p, after, reports)
    ensures IsNode(after, plan[k].contractId) && after.live[plan[k].contractId].hash == Hashed(plan[k], w)
  {
    var calls, id := Creations(p), plan[k].contractId;
    assert Preparable(c, plan[k], w);
    PreparedSound(c, plan, w);
    forall call | call in calls && Names(call, id) ensures call == UpdateNode(id, Hashed(plan[k], w)) {
      BatchUpdates(c, plan, w, call);
      var m :| 0 <= m < |plan| && IsUpdateOf(plan[m], w, call);
      if m < k {
        OneUpdateEach(plan, m, k);
      } else if k < m {
        OneUpdateEach(plan, k, m);
      }
    }
    BatchUpdates(c, plan, w, UpdateNode(id, Hashed(plan[k], w)));
    assert IsUpdateOf(plan[k], w, UpdateNode(id, Hashed(plan[k], w)));
    UpdatedHash(c, calls, id, Hashed(plan[k], w));
  }

  /** A contract the batch made is what it was made as: the batch names older contracts only. */
  lemma MadeStays(c: Chain, p: Prepared, j: nat, r: Contract)
    requires WellFormed(c) && Sound(c, p) && j < |p.nodeCalls| && Creates(p.nodeCalls[j])
    requires r == Reports(c, Creations(p))[j] && c.next <= r.id
    ensures Holds(ApplyAll(c, Creations(p)), r)
  {
    NamesNoFresh(c, p, r.id);
    assert Creations(p)[j] == p.nodeCalls[j];
    CreatedStays(c, Creations(p), j, r);
  }

  lemma NamesNoFresh(c: Chain, p: Prepared, id: nat)
    requires WellFormed(c) && Sound(c, p) && c.next <= id
    ensures forall call :: call in Creations(p) ==> !Names(call, id)
  {
  }

  lemma UpdateMeant(c: Chain, plan: seq<Request>, w: World, k: nat, p: Prepared, after: Chain, reports: seq<Contract>)
    requires WellFormed(c) && AllPreparable(c, plan, w) && NoDuplicates(UpdateIds(plan))
    requires k < |plan| && plan[k].op == Update && Batch(c, plan, w, p, after, reports)
    ensures Holds(after, Meant(c, plan, w, k))
  {
    assert Preparable(c, plan[k], w);
    PreparedSound(c, plan, w);
    NodeStays(c, Creations(p), plan[k].contractId, Hashed(plan[k], w));
    UpdateSaid(c, plan, w, k, p, after, reports);
  }

  lemma DeployMeant(c: Chain, plan: seq<Request>, w: World, n: nat, m: nat, k: nat, p: Prepared, after: Chain,
      reports: seq<Contract>)
    requires WellFormed(c) && AllPreparable(c, plan, w) && InOrder(plan, n, m) && k < n
    requires Batch(c, plan, w, p, after, reports)
    ensures Holds(after, Meant(c, plan, w, k))
  {
    PreparedSound(c, plan, w);
    NodeCallAt(c, plan, w, k);
    ReportMeant(c, plan, w, n, m, k);
    MadeStays(c, p, k, Meant(c, plan, w, k));
  }

  /** Once the batch has landed, every contract a plan deploys or updates is what was meant. */
  lemma BatchMeant(c: Chain, plan: seq<Request>, w: World, n: nat, m: nat, k: nat, p: Prepared, after: Chain,
      reports: seq<Contract>)
    requires WellFormed(c) && AllPreparable(c, plan, w) && Merged(plan, n, m) && k < m
    requires Batch(c, plan, w, p, after, reports)
    ensures Holds(after, Meant(c, plan, w, k))
  {
    if k < n {
      DeployMeant(c, plan, w, n, m, k, p, after, reports);
    } else {
      UpdateMeant(c, plan, w, k, p, after, reports);
    }
  }

  lemma FirstAlikeFirst(plan: seq<Request>, w: World, i: nat)
    requires i < |plan|
    ensures FirstAlike(plan, w, FirstAlike(plan, w, i)) == FirstAlike(plan, w, i)
  {
  }

  lemma MeantId(c: Chain, plan: seq<Request>, w: World, n: nat, m: nat, k: nat)
    requires WellFormed(c) && AllPreparable(c, plan, w) && InOrder(plan, n, m) && k < m
    ensures Meant(c, plan, w, k).id == if k < n then c.next + k else plan[k].contractId
    ensures n <= k ==> plan[k].contractId < c.next
  {
    assert Preparable(c, plan[k], w);
  }

  lemma SentId(c: Chain, plan: seq<Request>, w: World, n: nat, m: nat, i: nat, reports: seq<Contract>)
    requires WellFormed(c) && AllPreparable(c, plan, w) && InOrder(plan, n, m) && i < m
    requires reports == Reports(c, Creations(PreparedAll(c, plan, w)))
    ensures Destination(plan[i], reports, w).contract ==
              if i < n then c.next + FirstAlike(plan, w, i) else plan[i].contractId
  {
    HashFindsFirst(c, plan, w, n, m, i);
    MeantId(c, plan, w, n, m, FirstAlike(plan, w, i));
  }

  lemma SameUpdate(plan: seq<Request>, n: nat, m: nat, i: nat, k: nat)
    requires Merged(plan, n, m) && n <= i < m && n <= k < m && plan[i].contractId == plan[k].contractId
    ensures i == k
  {
    if i < k {
      OneUpdateEach(plan, i, k);
    } else if k < i {
      OneUpdateEach(plan, k, i);
    }
  }

  /** A request is sent for the contract meant for the `k`-th one only if it is that one, or a deployment for which
      that one is the first alike. */
  lemma SentForOwn(c: Chain, plan: seq<Request>, w: World, n: nat, m: nat, k: nat, i: nat, reports: seq<Contract>)
    requires WellFormed(c) && AllPreparable(c, plan, w) && Merged(plan, n, m) && k < m && i < m
    requires reports == Reports(c, Creations(PreparedAll(c, plan, w)))
    requires Destination(plan[i], reports, w).contract == Meant(c, plan, w, k).id
    ensures if i < n then k == FirstAlike(plan, w, i) else i == k
  {
    MeantId(c, plan, w, n, m, k);
    MeantId(c, plan, w, n, m, i);
    SentId(c, plan, w, n, m, i, reports);
    if n <= i {
      SameUpdate(plan, n, m, i, k);
    }
  }

  /** What is sent to the place of the contract meant for the `k`-th request hashes like it, and something is only if
      that request reaches it. */
  lemma SentFor(c: Chain, plan: seq<Request>, w: World, n: nat, m: nat, k: nat, i: nat, reports: seq<Contract>)
    requires WellFormed(c) && AllPreparable(c, plan, w) && Merged(plan, n, m) && k < m && i < m
    requires reports == Reports(c, Creations(PreparedAll(c, plan, w)))
    requires Destination(plan[i], reports, w) == MeantPlace(c, plan, w, k)
    ensures Hashed(plan[i], w) == Hashed(plan[k], w) && Reaches(c, plan, w, k)
  {
    SentForOwn(c, plan, w, n, m, k, i, reports);
    if i < n {
      FirstAlikeFirst(plan, w, i);
    } else {
      HashFindsFirst(c, plan, w, n, m, k);
    }
  }

  /** What a node runs at a place some request was sent to is what the last such request carried. */
  lemma {:induction false} SentBy(nodes: Nodes, plan: seq<Request>, reports: seq<Contract>, w: World, n: nat, i: nat)
    returns (k: nat)
    requires i < n <= |plan| && plan[i].op != Delete
    ensures var place, sent := Destination(plan[i], reports, w), NodesAt(nodes, plan, reports, w, n);
      && k < n && plan[k].op != Delete && Destination(plan[k], reports, w) == place
      && place in sent && sent[place] == Payload(plan[k])
  {
    var last := plan[n - 1];
    if last.op != Delete && Destination(last, reports, w) == Destination(plan[i], reports, w) {
      k := n - 1;
    } else {
      k := SentBy(nodes, plan, reports, w, n - 1, i);
    }
  }

  ghost predicate RunsAlike(sent: Nodes, place: Place, w: World, hash: string) {
    place in sent && w.hash(sent[place]) == hash
  }

  lemma Reached(c: Chain, nodes: Nodes, plan: seq<Request>, w: World, n: nat, m: nat, k: nat, reports: seq<Contract>)
    requires WellFormed(c) && AllPreparable(c, plan, w) && Merged(plan, n, m) && k < m && Reaches(c, plan, w, k)
    requires reports == Reports(c, Creations(PreparedAll(c, plan, w)))
    ensures RunsAlike(NodesAt(nodes, plan, reports, w, |plan|), MeantPlace(c, plan, w, k), w, Hashed(plan[k], w))
  {
    HashFindsFirst(c, plan, w, n, m, k);
    var i := SentBy(nodes, plan, reports, w, |plan|, k);
    SentFor(c, plan, w, n, m, k, i, reports);
  }

  lemma NotReached(c: Chain, nodes: Nodes, plan: seq<Request>, w: World, n: nat, m: nat, k: nat, reports: seq<Contract>)
    requires WellFormed(c) && AllPreparable(c, plan, w) && Merged(plan, n, m) && k < m && !Reaches(c, plan, w, k)
    requires reports == Reports(c, Creations(PreparedAll(c, plan, w)))
    ensures Same(nodes, NodesAt(nodes, plan, reports, w, |plan|), MeantPlace(c, plan, w, k))
  {
    forall i | 0 <= i < |plan| && plan[i].op != Delete
      ensures Destination(plan[i], reports, w) != MeantPlace(c, plan, w, k)
    {
      if Destination(plan[i], reports, w) == MeantPlace(c, plan, w, k) {
        SentFor(c, plan, w, n, m, k, i, reports);
      }
    }
    Untouched(nodes, plan, reports, w, |plan|, MeantPlace(c, plan, w, k));
  }

  /** Once the batch has landed and everything is sent, a contract the plan deploys or updates carries the hash of
      what its own node runs for it exactly when its request reaches that node, or the node ran such a deployment
      before. What it does not reach stays as it was: an update that hashes like an earlier one is sent to the
      node of that one's contract, and a deployment that hashes like an earlier one to that one's contract. */
  lemma NodesMatchContracts(c: Chain, nodes: Nodes, plan: seq<Request>, w: World, n: nat, m: nat, k: nat)
    requires WellFormed(c) && AllPreparable(c, plan, w) && Merged(plan, n, m) && k < m
    ensures var p := PreparedAll(c, plan, w);
      var reports, after := Reports(c, Creations(p)), ApplyAll(c, Creations(p));
      var id, sent := Meant(c, plan, w, k).id, NodesAt(nodes, plan, reports, w, |plan|);
      && IsNode(after, id) && after.live[id].hash == Hashed(plan[k], w) && Own(after, id) == MeantPlace(c, plan, w, k)
      && (RunsAlike(sent, Own(after, id), w, after.live[id].hash) <==>
          Reaches(c, plan, w, k) || RunsAlike(nodes, Own(after, id), w, after.live[id].hash))
      && (!Reaches(c, plan, w, k) ==> Same(nodes, sent, Own(after, id)))
  {
    var p := PreparedAll(c, plan, w);
    var reports, after := Reports(c, Creations(p)), ApplyAll(c, Creations(p));
    BatchMeant(c, plan, w, n, m, k, p, after, reports);
    if Reaches(c, plan, w, k) {
      Reached(c, nodes, plan, w, n, m, k, reports);
    } else {
      NotReached(c, nodes, plan, w, n, m, k, reports);
    }
  }

  /** Two updates of contracts on different nodes that hash alike: the second contract carries the new hash, and its
      node runs what it ran before. */
  lemma AlikeUpdateMisses(c: Chain, nodes: Nodes, a: Request, b: Request, w: World)
    requires WellFormed(c) && a.op == b.op == Update && Preparable(c, a, w) && Preparable(c, b, w)
    requires c.live[a.contractId].nodeId != c.live[b.contractId].nodeId && Hashed(a, w) == Hashed(b, w)
    ensures var p := PreparedAll(c, [a, b], w);
      var reports, after := Reports(c, Creations(p)), ApplyAll(c, Creations(p));
      var sent, id := NodesAt(nodes, [a, b], reports, w, 2), b.contractId;
      && IsNode(after, id) && after.live[id].hash == Hashed(b, w) && Own(after, id) == Own(c, id)
      && Same(nodes, sent, Own(c, id)) && Place(c.live[a.contractId].nodeId, id) in sent
  {
    var plan := [a, b];
    assert UpdateIds(plan) == [a.contractId, b.contractId] by {
      FilterAll(plan, IsUpdate);
    }
    assert Hashed(plan[0], w) == Hashed(plan[1], w);
    NodesMatchContracts(c, nodes, plan, w, 0, 2, 1);
    HashFindsFirst(c, plan, w, 0, 2, 1);
  }

  // ---- After a rollback ----

  lemma RollbackSays(c: Chain, created: seq<nat>, rs: seq<Restoration>, hash: Hash, i: nat)
    requires RestoresOnce(rs) && i < |rs| && rs[i].place.contract !in created
    ensures var calls := Present(Cancels(c, created) + UpdateCalls(rs, hash));
      UpdatesSay(calls, rs[i].place.contract, hash(rs[i].deployed)) &&
          UpdateNode(rs[i].place.contract, hash(rs[i].deployed)) in calls
  {
    var xs := Cancels(c, created) + UpdateCalls(rs, hash);
    forall call | call in Present(xs) && Names(call, rs[i].place.contract)
      ensures call == UpdateNode(rs[i].place.contract, hash(rs[i].deployed))
    {
      PresentMembers(xs, call);
      var m :| 0 <= m < |xs| && xs[m] == Some(call);
      assert m >= |created|;
      OneRestoration(rs, i, m - |created|);
    }
    assert xs[|created| + i] == Some(UpdateNode(rs[i].place.contract, hash(rs[i].deployed)));
    PresentMembers(xs, UpdateNode(rs[i].place.contract, hash(rs[i].deployed)));
  }

  /** A successful rollback leaves every contract it restores with the hash of the deployment its own node was
      sent. */
  lemma RestoredMatch(c: Chain, nodes: Nodes, stack: seq<Saved>, created: seq<nat>, updated: seq<nat>,
      hash: Hash, i: nat)
    requires WellFormed(c) && NoDuplicates(updated) && forall id :: id in updated ==> id !in created
    requires i < |Restorations(c, nodes, updated, stack, |updated|)|
    ensures var r := Restorations(c, nodes, updated, stack, |updated|)[i];
      var sent := SendAll(nodes, Restorations(c, nodes, updated, stack, |updated|));
      var after := ApplyAll(c, RollbackCalls(c, nodes, stack, created, updated, hash));
      && r.place in sent && sent[r.place] == r.deployed
      && IsNode(after, r.place.contract) && Own(after, r.place.contract) == r.place
      && after.live[r.place.contract].hash == hash(r.deployed)
  {
    var rs := Restorations(c, nodes, updated, stack, |updated|);
    var calls, id := RollbackCalls(c, nodes, stack, created, updated, hash), rs[i].place.contract;
    assert rs[i] in rs;
    RestoredOnce(c, nodes, updated, stack, |updated|);
    OnOwnNode(c, nodes, updated, stack, |updated|, rs[i]);
    RollbackSays(c, created, rs, hash, i);
    UpdatedHash(c, calls, id, hash(rs[i].deployed));
    SentRestoration(nodes, rs, i);
  }

  ghost predicate RestoresOnce(rs: seq<Restoration>) {
    forall i, j :: 0 <= i < j < |rs| ==> rs[i].place.contract != rs[j].place.contract
  }

  lemma OneRestoration(rs: seq<Restoration>, i: nat, j: nat)
    requires RestoresOnce(rs) && i < |rs| && j < |rs| && rs[i].place.contract == rs[j].place.contract
    ensures i == j
  {
  }

  lemma BackOwn(c: Chain, nodes: Nodes, updated: seq<nat>, stack: seq<Saved>, i: nat, more: seq<Restoration>)
    requires i < |updated| && more == AsSeq(Back(c, nodes, updated, stack, i))
    ensures |more| <= 1
    ensures forall r :: r in more ==> IsNode(c, updated[i]) && r.place == Own(c, updated[i])
  {
  }

  ghost predicate Within(rs: seq<Restoration>, ids: seq<nat>) {
    forall r :: r in rs ==> r.place.contract in ids
  }

  lemma OnceMore(front: seq<Restoration>, more: seq<Restoration>, ids: seq<nat>, id: nat)
    requires RestoresOnce(front) && Within(front, ids) && |more| <= 1 && Within(more, [id]) && id !in ids
    ensures RestoresOnce(front + more) && Within(front + more, ids + [id])
  {
    forall i, j | 0 <= i < j < |front + more|
      ensures (front + more)[i].place.contract != (front + more)[j].place.contract
    {
      assert front[i] in front;
      if j == |front| {
        assert more[0] in more;
      }
    }
  }

  lemma {:induction false} RestoredOnce(c: Chain, nodes: Nodes, updated: seq<nat>, stack: seq<Saved>, count: nat)
    requires count <= |updated| && NoDuplicates(updated)
    ensures RestoresOnce(Restorations(c, nodes, updated, stack, count))
    ensures Within(Restorations(c, nodes, updated, stack, count), updated[..count])
  {
    if count > 0 {
      var i := count - 1;
      var front, more := Restorations(c, nodes, updated, stack, i), AsSeq(Back(c, nodes, updated, stack, i));
      RestoredOnce(c, nodes, updated, stack, i);
      RestorationsStep(c, nodes, updated, stack, i, more);
      BackOwn(c, nodes, updated, stack, i, more);
      PrefixSnoc(updated, i);
      OnceMore(front, more, updated[..i], updated[i]);
    }
  }

  lemma {:induction false} OnOwnNode(c: Chain, nodes: Nodes, updated: seq<nat>, stack: seq<Saved>, count: nat,
      r: Restoration)
    requires count <= |updated| && r in Restorations(c, nodes, updated, stack, count)
    ensures IsNode(c, r.place.contract) && r.place == Own(c, r.place.contract)
  {
    if count > 0 {
      var i := count - 1;
      var more := AsSeq(Back(c, nodes, updated, stack, i));
      RestorationsStep(c, nodes, updated, stack, i, more);
      BackOwn(c, nodes, updated, stack, i, more);
      if r !in more {
        OnOwnNode(c, nodes, updated, stack, i, r);
      }
    }
  }

  lemma {:induction false} SentRestoration(nodes: Nodes, rs: seq<Restoration>, i: nat)
    requires RestoresOnce(rs) && i < |rs|
    ensures rs[i].place in SendAll(nodes, rs) && SendAll(nodes, rs)[rs[i].place] == rs[i].deployed
  {
    if i < |rs| - 1 {
      SentRestoration(nodes, rs[..|rs| - 1], i);
    }
  }
}
