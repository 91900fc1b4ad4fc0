/** `TwinDeploymentHandler.updateMerge`, `mergeDelete` and `merge`: the whole plan for a list of requests. */
module MergePlan {
  import opened Models
  import opened Sequences
  import opened ThreeWayMerge
  import DM = DeployMerge

  datatype Result<+T> = Ok(value: T) | MissingContract(id: nat)

  predicate UpdatesContract(r: Request, contract: nat) { r.op == Update && r.contractId == contract }

  // ---- Specification ----

  function UpdatesOf(rs: seq<Request>, contract: nat): seq<Request> {
    if rs == [] then []
    else UpdatesOf(rs[..|rs| - 1], contract) + (if UpdatesContract(rs[|rs| - 1], contract) then [rs[|rs| - 1]] else [])
  }

  /** The contracts to update, in the order a JavaScript object lists integer keys. */
  function UpdatedContracts(rs: seq<Request>): (ks: seq<nat>)
    ensures Ascending(ks)
  {
    if rs == [] then []
    else
      var front, last := UpdatedContracts(rs[..|rs| - 1]), rs[|rs| - 1];
      if last.op == Update then InsertKey(front, last.contractId) else front
  }

  /** The head of a group learns its node from the chain. */
  function OnChainNode(us: seq<Request>, contract: nat, chain: map<nat, nat>): seq<Request> {
    if us != [] && contract != 0 && contract in chain then [us[0].(nodeId := chain[contract])] + us[1..] else us
  }

  /** The one update of a contract that some request updates. */
  ghost function UpdateOf(rs: seq<Request>, contract: nat, chain: map<nat, nat>): Request {
    var us := UpdatesOf(rs, contract);
    if us == [] then DM.NO_REQUEST else Latest(OnChainNode(us, contract, chain))
  }

  ghost function MergeUpdates(rs: seq<Request>, chain: map<nat, nat>): (out: seq<Request>)
    ensures |out| == |UpdatedContracts(rs)|
    ensures forall i :: 0 <= i < |out| ==> out[i] == UpdateOf(rs, UpdatedContracts(rs)[i], chain)
  {
    seq(|UpdatedContracts(rs)|,
        i requires 0 <= i < |UpdatedContracts(rs)| => UpdateOf(rs, UpdatedContracts(rs)[i], chain))
  }

  function DeletedIds(rs: seq<Request>): seq<nat> {
    if rs == [] then []
    else DeletedIds(rs[..|rs| - 1]) + (if rs[|rs| - 1].op == Delete then [rs[|rs| - 1].contractId] else [])
  }

  /** Each id once, at its first position. */
  function Once(ids: seq<nat>): (out: seq<nat>)
    ensures forall id :: id in out <==> id in ids
    ensures NoDuplicates(out)
  {
    if ids == [] then []
    else
      var front, last := Once(ids[..|ids| - 1]), ids[|ids| - 1];
      assert forall id :: id in ids <==> id in ids[..|ids| - 1] || id == last;
      if last in front then front else front + [last]
  }

  function Undeleted(deleted: seq<nat>): Request -> bool {
    (u: Request) => u.contractId !in deleted
  }

  /** The actions on existing contracts: updates, then deletes. */
  ghost function KeptUpdates(rs: seq<Request>, chain: map<nat, nat>): seq<Request> {
    Filter(MergeUpdates(rs, chain), Undeleted(DeletedIds(rs)))
  }

  lemma {:induction false} UpdatedExact(rs: seq<Request>)
    ensures forall k :: k in UpdatedContracts(rs) <==> UpdatesOf(rs, k) != []
  {
    if rs != [] {
      UpdatedExact(rs[..|rs| - 1]);
    }
  }

  // ---- The plan is consistent ----

  function Ids(rs: seq<Request>): seq<nat> {
    seq(|rs|, i requires 0 <= i < |rs| => rs[i].contractId)
  }

  lemma {:induction false} UpdatesOfMembers(rs: seq<Request>, contract: nat)
    ensures forall u :: u in UpdatesOf(rs, contract) <==> u in rs && UpdatesContract(u, contract)
  {
    if rs != [] {
      UpdatesOfMembers(rs[..|rs| - 1], contract);
      assert rs == rs[..|rs| - 1] + [rs[|rs| - 1]];
    }
  }

  lemma {:induction false} DeletedIdsExact(rs: seq<Request>)
    ensures forall id :: id in DeletedIds(rs) <==>
              exists i :: 0 <= i < |rs| && rs[i].op == Delete && rs[i].contractId == id
  {
    if rs != [] {
      var front := rs[..|rs| - 1];
      DeletedIdsExact(front);
      forall id
        ensures id in DeletedIds(rs) <==> exists i :: 0 <= i < |rs| && rs[i].op == Delete && rs[i].contractId == id
      {
        if i :| 0 <= i < |front| && front[i].op == Delete && front[i].contractId == id {
          assert rs[i].op == Delete;
        }
        if i :| 0 <= i < |rs| && rs[i].op == Delete && rs[i].contractId == id {
          assert i < |front| ==> front[i].op == Delete;
        }
      }
    }
  }

  lemma {:induction false} UndeletedIds(us: seq<Request>, deleted: seq<nat>)
    requires NoDuplicates(Ids(us))
    ensures NoDuplicates(Ids(Filter(us, Undeleted(deleted))))
  {
    if us != [] {
      var front, last := us[..|us| - 1], us[|us| - 1];
      var kept := Filter(front, Undeleted(deleted));
      LastIsNew(Ids(us));
      assert Ids(front) == Ids(us)[..|front|];
      UndeletedIds(front, deleted);
      FilterLast(us, Undeleted(deleted));
      assert Ids(kept + [last]) == Ids(kept) + [last.contractId];
      forall i | 0 <= i < |kept| ensures Ids(kept)[i] != last.contractId {
        FilterMembers(front, Undeleted(deleted), kept[i]);
        assert Ids(front)[IndexOf(front, kept[i])] == kept[i].contractId;
      }
    }
  }

  lemma UpdateOfShape(rs: seq<Request>, contract: nat, chain: map<nat, nat>)
    requires UpdatesOf(rs, contract) != []
    ensures UpdateOf(rs, contract, chain).op == Update
    ensures UpdateOf(rs, contract, chain).contractId == contract
    ensures UpdateOf(rs, contract, chain).version == UpdatesOf(rs, contract)[0].version + 1
    ensures contract != 0 && contract in chain ==> UpdateOf(rs, contract, chain).nodeId == chain[contract]
  {
    UpdatesOfMembers(rs, contract);
    assert UpdatesOf(rs, contract)[0] in UpdatesOf(rs, contract);
  }

  lemma UpdateIds(rs: seq<Request>, chain: map<nat, nat>)
    ensures Ids(MergeUpdates(rs, chain)) == UpdatedContracts(rs)
    ensures NoDuplicates(UpdatedContracts(rs))
  {
    UpdatedExact(rs);
    var out := MergeUpdates(rs, chain);
    forall i | 0 <= i < |out|
      ensures out[i].contractId == UpdatedContracts(rs)[i]
    {
      assert UpdatedContracts(rs)[i] in UpdatedContracts(rs);
      UpdateOfShape(rs, UpdatedContracts(rs)[i], chain);
    }
  }

  lemma KeptIds(rs: seq<Request>, chain: map<nat, nat>)
    ensures NoDuplicates(Ids(KeptUpdates(rs, chain)))
    ensures forall id :: id in Ids(KeptUpdates(rs, chain)) <==> id !in DeletedIds(rs) && UpdatesOf(rs, id) != []
  {
    var merged, kept := MergeUpdates(rs, chain), KeptUpdates(rs, chain);
    UpdatedExact(rs);
    UpdateIds(rs, chain);
    UndeletedIds(merged, DeletedIds(rs));
    FilteredMembers(merged, Undeleted(DeletedIds(rs)));
    forall id
      ensures id in Ids(kept) <==> id !in DeletedIds(rs) && id in Ids(merged)
    {
      if id in Ids(kept) {
        var u := kept[IndexOf(Ids(kept), id)];
        assert u in merged;
        assert Ids(merged)[IndexOf(merged, u)] == id;
      }
      if id !in DeletedIds(rs) && id in Ids(merged) {
        var u := merged[IndexOf(Ids(merged), id)];
        assert u in kept;
        assert Ids(kept)[IndexOf(kept, u)] == id;
      }
    }
  }

  lemma KeptShape(rs: seq<Request>, chain: map<nat, nat>, u: Request)
    requires u in KeptUpdates(rs, chain)
    ensures UpdatesOf(rs, u.contractId) != [] && u == UpdateOf(rs, u.contractId, chain)
    ensures u.op == Update && u.version == UpdatesOf(rs, u.contractId)[0].version + 1
  {
    var merged := MergeUpdates(rs, chain);
    UpdateIds(rs, chain);
    UndeletedIds(merged, DeletedIds(rs));
    FilteredMembers(merged, Undeleted(DeletedIds(rs)));
    UpdatedExact(rs);
    var p := IndexOf(merged, u);
    assert UpdatedContracts(rs)[p] in UpdatedContracts(rs);
    UpdateOfShape(rs, UpdatedContracts(rs)[p], chain);
  }

  /** The plan gives every contract that some request updates or deletes exactly one action. A delete
      wins over any number of updates, repeated deletes collapse, and the update that survives raises
      the version of its first request by exactly one. */
  lemma PlanIsConsistent(rs: seq<Request>, chain: map<nat, nat>)
    ensures NoDuplicates(Ids(KeptUpdates(rs, chain)) + Once(DeletedIds(rs)))
    ensures forall id :: id in Once(DeletedIds(rs)) <==>
              exists i :: 0 <= i < |rs| && rs[i].op == Delete && rs[i].contractId == id
    ensures forall id :: id in Ids(KeptUpdates(rs, chain)) <==> id !in DeletedIds(rs) && UpdatesOf(rs, id) != []
    ensures forall u :: u in KeptUpdates(rs, chain) ==>
              UpdatesOf(rs, u.contractId) != [] && u == UpdateOf(rs, u.contractId, chain) &&
              u.op == Update && u.version == UpdatesOf(rs, u.contractId)[0].version + 1
  {
    KeptIds(rs, chain);
    DeletedIdsExact(rs);
    var a, b := Ids(KeptUpdates(rs, chain)), Once(DeletedIds(rs));
    forall i, j | 0 <= i < j < |a + b|
      ensures (a + b)[i] != (a + b)[j]
    {
      if i < |a| <= j {
        assert a[i] in a && b[j - |a|] in b;
      }
    }
    forall u | u in KeptUpdates(rs, chain) {
      KeptShape(rs, chain, u);
    }
  }

  // ---- The algorithm ----

  /** Two different update requests of the list never share their deployment. */
  ghost predicate OwnsUpdates(ts: seq<TwinDeployment>)
    reads ts
  {
    forall i, j :: 0 <= i < j < |ts| && ts[i].operation == Update && ts[j].operation == Update ==>
                     ts[i] != ts[j] && ts[i].deployment != ts[j].deployment
  }

  ghost predicate Distinct(t: TwinDeployment, u: TwinDeployment) {
    t != u && t.deployment != u.deployment
  }

  ghost function UpdateObjects(ts: seq<TwinDeployment>): set<TwinDeployment>
    reads ts
  {
    set t | t in ts && t.operation == Update
  }

  ghost function UpdateDeployments(ts: seq<TwinDeployment>): set<Deployment>
    reads ts
  {
    set t | t in ts && t.operation == Update :: t.deployment
  }

  /** A group of the table holds the requests for one contract, the head knowing its node. */
  ghost predicate HoldsGroup(ts: seq<TwinDeployment>, group: seq<TwinDeployment>, us: seq<Request>, contract: nat,
      chain: map<nat, nat>)
    reads ts, set t | t in ts :: t.deployment
  {
    && us != []
    && |group| == |us|
    && (forall m :: 0 <= m < |group| ==> group[m] in ts && group[m].operation == Update)
    && (forall m :: 0 < m < |group| ==> Distinct(group[0], group[m]))
    && (forall m :: 0 <= m < |group| ==> group[m] in ts && Snap(group[m]) == OnChainNode(us, contract, chain)[m])
  }

  ghost predicate HoldsGroups(ts: seq<TwinDeployment>, rs: seq<Request>, table: map<nat, seq<TwinDeployment>>,
      chain: map<nat, nat>)
    reads ts, set t | t in ts :: t.deployment
  {
    && (forall c :: c in table <==> UpdatesOf(rs, c) != [])
    && (forall c :: c in table ==> HoldsGroup(ts, table[c], UpdatesOf(rs, c), c, chain))
  }

  lemma GroupContract(ts: seq<TwinDeployment>, group: seq<TwinDeployment>, rs: seq<Request>, contract: nat,
      chain: map<nat, nat>)
    requires HoldsGroup(ts, group, UpdatesOf(rs, contract), contract, chain)
    ensures forall t :: t in group ==> t.deployment.contractId == contract
  {
    UpdatesOfMembers(rs, contract);
    forall t | t in group ensures t.deployment.contractId == contract {
      var m := IndexOf(group, t);
      assert UpdatesOf(rs, contract)[m] in UpdatesOf(rs, contract);
    }
  }

  lemma UpdatesOfSnoc(rs: seq<Request>, r: Request, contract: nat)
    ensures UpdatesOf(rs + [r], contract) ==
              UpdatesOf(rs, contract) + (if UpdatesContract(r, contract) then [r] else [])
  {
    assert (rs + [r])[..|rs|] == rs;
  }

  lemma OwnedUpdatesDiffer(ts: seq<TwinDeployment>, t: TwinDeployment, u: TwinDeployment)
    requires OwnsUpdates(ts) && t in ts && u in ts && t != u && t.operation == Update && u.operation == Update
    ensures Distinct(t, u)
  {
    var i, j := IndexOf(ts, t), IndexOf(ts, u);
    if i < j { assert Distinct(ts[i], ts[j]); } else { assert Distinct(ts[j], ts[i]); }
  }

  lemma OtherGroup(ts: seq<TwinDeployment>, rs: seq<Request>, table: map<nat, seq<TwinDeployment>>,
      chain: map<nat, nat>, c: nat, t: TwinDeployment)
    requires OwnsUpdates(ts) && HoldsGroups(ts, rs, table, chain) && t in ts && t.operation == Update &&
              t.deployment.contractId != c
    requires c in table
    ensures forall u :: u in table[c] ==> Distinct(t, u)
  {
    GroupContract(ts, table[c], rs, c, chain);
    forall u | u in table[c] ensures Distinct(t, u) {
      OwnedUpdatesDiffer(ts, t, u);
    }
  }

  /** The request is new and shares its deployment with no update request of the list. */
  ghost predicate FreshUpdate(ts: seq<TwinDeployment>, t: TwinDeployment)
    reads ts
  {
    forall u :: u in ts && u.operation == Update ==> Distinct(u, t)
  }

  lemma SkipUpdate(ts: seq<TwinDeployment>, rs: seq<Request>, table: map<nat, seq<TwinDeployment>>,
      chain: map<nat, nat>, t: TwinDeployment, r: Request)
    requires HoldsGroups(ts, rs, table, chain) && r.op != Update
    ensures HoldsGroups(ts + [t], rs + [r], table, chain)
    ensures UpdatedContracts(rs + [r]) == UpdatedContracts(rs)
  {
    assert (rs + [r])[..|rs|] == rs;
  }

  lemma GrownGroup(ts: seq<TwinDeployment>, us: seq<Request>, group: seq<TwinDeployment>, chain: map<nat, nat>,
      t: TwinDeployment, r: Request)
    requires r.op == Update && t.operation == Update
    requires HoldsGroup(ts, group, us, r.contractId, chain) && Distinct(group[0], t) && Snap(t) == r
    ensures HoldsGroup(ts + [t], group + [t], us + [r], r.contractId, chain)
  {
    var patched := OnChainNode(us, r.contractId, chain);
    assert OnChainNode(us + [r], r.contractId, chain) == patched + [r];
  }

  lemma NewGroup(ts: seq<TwinDeployment>, chain: map<nat, nat>, t: TwinDeployment, r: Request)
    requires r.op == Update && t.operation == Update && (r.contractId == 0 || r.contractId in chain)
    requires Snap(t) == if r.contractId == 0 then r else r.(nodeId := chain[r.contractId])
    ensures HoldsGroup(ts + [t], [t], [r], r.contractId, chain)
  {
    assert [r][1..] == [];
  }

  lemma FirstOfContract(ts: seq<TwinDeployment>, rs: seq<Request>, chain: map<nat, nat>, t: TwinDeployment, r: Request)
    requires UpdatesOf(rs, r.contractId) == []
    requires r.op == Update && t.operation == Update && (r.contractId == 0 || r.contractId in chain)
    requires Snap(t) == if r.contractId == 0 then r else r.(nodeId := chain[r.contractId])
    ensures HoldsGroup(ts + [t], [t], UpdatesOf(rs + [r], r.contractId), r.contractId, chain)
  {
    UpdatesOfSnoc(rs, r, r.contractId);
    NewGroup(ts, chain, t, r);
  }

  lemma GroupInLonger(ts: seq<TwinDeployment>, t: TwinDeployment, group: seq<TwinDeployment>, us: seq<Request>,
      contract: nat, chain: map<nat, nat>)
    requires HoldsGroup(ts, group, us, contract, chain)
    ensures HoldsGroup(ts + [t], group, us, contract, chain)
  {
  }

  lemma OtherGroups(ts: seq<TwinDeployment>, rs: seq<Request>, table: map<nat, seq<TwinDeployment>>,
      chain: map<nat, nat>, t: TwinDeployment, r: Request, group: seq<TwinDeployment>)
    requires r.op == Update
    requires forall c :: c != r.contractId ==> (c in table <==> UpdatesOf(rs, c) != [])
    requires forall c :: c in table && c != r.contractId ==> HoldsGroup(ts, table[c], UpdatesOf(rs, c), c, chain)
    requires HoldsGroup(ts + [t], group, UpdatesOf(rs + [r], r.contractId), r.contractId, chain)
    ensures HoldsGroups(ts + [t], rs + [r], table[r.contractId := group], chain)
  {
    hide HoldsGroup, UpdatesOf;
    forall c ensures c != r.contractId ==> UpdatesOf(rs + [r], c) == UpdatesOf(rs, c) {
      UpdatesOfSnoc(rs, r, c);
    }
    forall c | c in table && c != r.contractId ensures HoldsGroup(ts + [t], table[c], UpdatesOf(rs, c), c, chain) {
      GroupInLonger(ts, t, table[c], UpdatesOf(rs, c), c, chain);
    }
    assert UpdatesOf(rs + [r], r.contractId) != [] by { UpdatesOfSnoc(rs, r, r.contractId); }
  }

  lemma HeadApart(ts: seq<TwinDeployment>, rs: seq<Request>, table: map<nat, seq<TwinDeployment>>,
      chain: map<nat, nat>, contract: nat)
    requires OwnsUpdates(ts) && HoldsGroups(ts, rs, table, chain) && contract in table
    ensures table[contract][0] in ts && table[contract][0].operation == Update
    ensures forall c, u :: c in table && c != contract && u in table[c] ==> Distinct(table[contract][0], u)
  {
    var head := table[contract][0];
    GroupContract(ts, table[contract], rs, contract, chain);
    forall c, u | c in table && c != contract && u in table[c]
      ensures Distinct(head, u)
    {
      OtherGroup(ts, rs, table, chain, c, head);
    }
  }

  /** A group as recorded values. */
  ghost predicate RecordedGroup(ts: seq<TwinDeployment>, group: seq<TwinDeployment>, us: seq<Request>, contract: nat,
      chain: map<nat, nat>, before: map<TwinDeployment, Request>)
  {
    && us != []
    && |group| == |us|
    && (forall m :: 0 < m < |group| ==> Distinct(group[0], group[m]))
    && (forall m :: 0 <= m < |group| ==>
         group[m] in ts && group[m] in before && before[group[m]].op == Update &&
           before[group[m]] == OnChainNode(us, contract, chain)[m])
  }

  lemma StillPending(ts: seq<TwinDeployment>, group: seq<TwinDeployment>, us: seq<Request>, contract: nat,
      chain: map<nat, nat>, r: TwinDeployment, before: map<TwinDeployment, Request>)
    requires RecordedGroup(ts, group, us, contract, chain, before)
    requires forall u :: u in group ==> Distinct(r, u)
    requires forall t :: t in ts && Distinct(r, t) && t in before ==> Snap(t) == before[t]
    ensures HoldsGroup(ts, group, us, contract, chain)
  {
    forall m | 0 <= m < |group|
      ensures Snap(group[m]) == OnChainNode(us, contract, chain)[m] && group[m].operation == Update
    {
      assert group[m] in group;
      assert Snap(group[m]) == before[group[m]];
    }
  }

  lemma OthersStill(ts: seq<TwinDeployment>, rs: seq<Request>, table: map<nat, seq<TwinDeployment>>,
      chain: map<nat, nat>, contract: nat, head: TwinDeployment, before: map<TwinDeployment, Request>)
    requires forall c :: c in table && c != contract ==> RecordedGroup(ts, table[c], UpdatesOf(rs, c), c, chain, before)
    requires forall c, u :: c in table && c != contract && u in table[c] ==> Distinct(head, u)
    requires forall t :: t in ts && Distinct(head, t) && t in before ==> Snap(t) == before[t]
    ensures forall c :: c in table && c != contract ==> HoldsGroup(ts, table[c], UpdatesOf(rs, c), c, chain)
  {
    forall c | c in table && c != contract
      ensures HoldsGroup(ts, table[c], UpdatesOf(rs, c), c, chain)
    {
      StillPending(ts, table[c], UpdatesOf(rs, c), c, chain, head, before);
    }
  }

  lemma HeadStill(ts: seq<TwinDeployment>, us: seq<Request>, group: seq<TwinDeployment>, contract: nat,
      chain: map<nat, nat>, before: map<TwinDeployment, Request>)
    requires contract != 0 ==> contract in chain
    requires RecordedGroup(ts, group, us, contract, chain, before)
    requires forall t :: t in ts && Distinct(group[0], t) && t in before ==> Snap(t) == before[t]
    requires Snap(group[0]) == before[group[0]]
    ensures HoldsGroup(ts, group, us, contract, chain)
  {
    forall m | 0 <= m < |group|
      ensures Snap(group[m]) == OnChainNode(us, contract, chain)[m] && group[m].operation == Update
    {
      assert Snap(group[m]) == before[group[m]];
    }
  }

  /** `deploymentMap[contract_id][0].nodeId = node_id` */
  method SetNode(ts: seq<TwinDeployment>, head: TwinDeployment, contract: nat, chain: map<nat, nat>)
    requires contract == 0 || contract in chain
    modifies head`nodeId
    ensures forall t :: t in ts && t != head ==> Snap(t) == old(Snap(t))
    ensures Snap(head) == if contract == 0 then old(Snap(head)) else old(Snap(head)).(nodeId := chain[contract])
  {
    if contract != 0 {
      head.nodeId := chain[contract];
    }
  }

  /** One turn of the grouping loop, for a contract met before. */
  method GrowGroup(
    ts: seq<TwinDeployment>, t: TwinDeployment, ghost rs: seq<Request>, ghost r: Request,
    table: map<nat, seq<TwinDeployment>>, chain: map<nat, nat>)
    returns (table': map<nat, seq<TwinDeployment>>)
    requires OwnsUpdates(ts) && HoldsGroups(ts, rs, table, chain)
    requires t.operation == Update && Snap(t) == r && FreshUpdate(ts, t)
    requires t.deployment.contractId in table && (t.deployment.contractId == 0 || t.deployment.contractId in chain)
    modifies (set u | u in ts + [t] && u.operation == Update)`nodeId
    ensures HoldsGroups(ts + [t], rs + [r], table', chain)
  {
    var contract := t.deployment.contractId;
    var group := table[contract];
    HeadApart(ts, rs, table, chain, contract);
    ghost var before := map u | u in ts :: Snap(u);
    assert forall c :: c in table ==> RecordedGroup(ts, table[c], UpdatesOf(rs, c), c, chain, before);
    SetNode(ts + [t], group[0], contract, chain);
    HeadStill(ts, UpdatesOf(rs, contract), group, contract, chain, before);
    OthersStill(ts, rs, table, chain, contract, group[0], before);
    GrownGroup(ts, UpdatesOf(rs, contract), group, chain, t, r);
    table' := table[contract := group + [t]];
    UpdatesOfSnoc(rs, r, contract);
    OtherGroups(ts, rs, table, chain, t, r, group + [t]);
  }

  /** ... and for a new one. */
  method StartGroup(
    ts: seq<TwinDeployment>, t: TwinDeployment, ghost rs: seq<Request>, ghost r: Request,
    table: map<nat, seq<TwinDeployment>>, chain: map<nat, nat>)
    returns (table': map<nat, seq<TwinDeployment>>)
    requires OwnsUpdates(ts) && HoldsGroups(ts, rs, table, chain)
    requires t.operation == Update && Snap(t) == r && FreshUpdate(ts, t)
    requires t.deployment.contractId !in table && (t.deployment.contractId == 0 || t.deployment.contractId in chain)
    modifies (set u | u in ts + [t] && u.operation == Update)`nodeId
    ensures HoldsGroups(ts + [t], rs + [r], table', chain)
  {
    var contract := t.deployment.contractId;
    ghost var before := map u | u in ts :: Snap(u);
    assert forall c :: c in table ==> RecordedGroup(ts, table[c], UpdatesOf(rs, c), c, chain, before);
    SetNode(ts, t, contract, chain);
    OthersStill(ts, rs, table, chain, contract, t, before);
    FirstOfContract(ts, rs, chain, t, r);
    table' := table[contract := [t]];
    OtherGroups(ts, rs, table, chain, t, r, [t]);
  }

  method AddUpdate(
    ts: seq<TwinDeployment>, t: TwinDeployment, ghost rs: seq<Request>, ghost r: Request,
    table: map<nat, seq<TwinDeployment>>, keys: seq<nat>, chain: map<nat, nat>)
    returns (table': map<nat, seq<TwinDeployment>>, keys': seq<nat>)
    requires OwnsUpdates(ts) && HoldsGroups(ts, rs, table, chain) && keys == UpdatedContracts(rs)
    requires t.operation == Update && Snap(t) == r && FreshUpdate(ts, t)
    requires t.deployment.contractId == 0 || t.deployment.contractId in chain
    modifies (set u | u in ts + [t] && u.operation == Update)`nodeId
    ensures HoldsGroups(ts + [t], rs + [r], table', chain) && keys' == UpdatedContracts(rs + [r])
  {
    var contract := t.deployment.contractId;
    assert (rs + [r])[..|rs|] == rs;
    keys' := InsertKey(keys, contract);
    if contract in table {
      table' := GrowGroup(ts, t, rs, r, table, chain);
    } else {
      table' := StartGroup(ts, t, rs, r, table, chain);
    }
  }

  ghost predicate ChainKnows(rs: seq<Request>, chain: map<nat, nat>) {
    forall i :: 0 <= i < |rs| && rs[i].op == Update && rs[i].contractId != 0 ==> rs[i].contractId in chain
  }

  /** Update requests not yet looked at still have the value they came with. */
  ghost predicate PendingUpdates(ts: seq<TwinDeployment>, rs: seq<Request>, i: nat)
    reads ts, set t | t in ts :: t.deployment
  {
    && |ts| == |rs|
    && (forall j :: i <= j < |ts| ==> ts[j].operation == rs[j].op)
    && (forall j :: i <= j < |ts| && ts[j].operation == Update ==> Snap(ts[j]) == rs[j])
  }

  lemma UpdatesApart(ts: seq<TwinDeployment>, i: nat)
    requires OwnsUpdates(ts) && i < |ts|
    ensures OwnsUpdates(ts[..i])
    ensures ts[i].operation == Update ==> FreshUpdate(ts[..i], ts[i])
    ensures forall j, u ::
              i < j < |ts| && ts[j].operation == Update && u in ts[..i] + [ts[i]] && u.operation == Update ==>
              Distinct(u, ts[j])
  {
    forall u | u in ts[..i] && u.operation == Update && ts[i].operation == Update
      ensures Distinct(u, ts[i])
    {
      assert ts[IndexOf(ts[..i], u)] == u;
    }
    forall j, u | i < j < |ts| && ts[j].operation == Update && u in ts[..i] + [ts[i]] && u.operation == Update
      ensures Distinct(u, ts[j])
    {
      assert ts[IndexOf(ts[..i] + [ts[i]], u)] == u;
    }
  }

  lemma UnknownContract(rs: seq<Request>, i: nat, chain: map<nat, nat>)
    requires i < |rs| && rs[i].op == Update && rs[i].contractId != 0 && rs[i].contractId !in chain
    ensures UpdatesOf(rs, rs[i].contractId) != [] && !ChainKnows(rs, chain)
  {
    UpdatesOfMembers(rs, rs[i].contractId);
    assert rs[i] in UpdatesOf(rs, rs[i].contractId);
  }

  /** The first `i` requests are grouped. */
  ghost predicate Grouped(ts: seq<TwinDeployment>, rs: seq<Request>, i: nat, table: map<nat, seq<TwinDeployment>>,
      keys: seq<nat>, chain: map<nat, nat>)
    requires i <= |ts| == |rs|
    reads ts, set t | t in ts :: t.deployment
  {
    && PendingUpdates(ts, rs, i) && ChainKnows(rs[..i], chain)
    && HoldsGroups(ts[..i], rs[..i], table, chain) && keys == UpdatedContracts(rs[..i])
  }

  lemma AllGrouped(ts: seq<TwinDeployment>, rs: seq<Request>, table: map<nat, seq<TwinDeployment>>, keys: seq<nat>,
      chain: map<nat, nat>)
    requires |ts| == |rs| && Grouped(ts, rs, |ts|, table, keys, chain)
    ensures ChainKnows(rs, chain) && HoldsGroups(ts, rs, table, chain) && keys == UpdatedContracts(rs)
  {
    WholePrefix(ts);
    WholePrefix(rs);
  }

  /** One turn of the loop for any request. */
  method Take(
    ts: seq<TwinDeployment>, i: nat, ghost rs: seq<Request>,
    table: map<nat, seq<TwinDeployment>>, keys: seq<nat>, chain: map<nat, nat>)
    returns (table': map<nat, seq<TwinDeployment>>, keys': seq<nat>)
    requires OwnsUpdates(ts) && i < |ts| == |rs| && Grouped(ts, rs, i, table, keys, chain)
    requires ts[i].operation == Update && ts[i].deployment.contractId != 0 ==> ts[i].deployment.contractId in chain
    modifies UpdateObjects(ts)`nodeId
    ensures Grouped(ts, rs, i + 1, table', keys', chain)
  {
    PrefixSnoc(ts, i);
    PrefixSnoc(rs, i);
    if ts[i].operation != Update {
      SkipUpdate(ts[..i], rs[..i], table, chain, ts[i], rs[i]);
      table', keys' := table, keys;
    } else {
      UpdatesApart(ts, i);
      table', keys' := AddUpdate(ts[..i], ts[i], rs[..i], rs[i], table, keys, chain);
    }
  }

  /** The first loop of `updateMerge`: group the updates by contract; the chain is asked for the node of
      each contract, and an unknown contract fails the whole merge. */
  method GroupUpdates(ts: seq<TwinDeployment>, ghost rs: seq<Request>, chain: map<nat, nat>)
    returns (missing: Option<nat>, table: map<nat, seq<TwinDeployment>>, keys: seq<nat>)
    requires OwnsUpdates(ts) && PendingUpdates(ts, rs, 0)
    modifies UpdateObjects(ts)`nodeId
    ensures missing.None? <==> ChainKnows(rs, chain)
    ensures missing.None? ==> HoldsGroups(ts, rs, table, chain) && keys == UpdatedContracts(rs)
    ensures missing.Some? ==> missing.value != 0 && missing.value !in chain && UpdatesOf(rs, missing.value) != []
  {
    table, keys := map[], [];
    for i := 0 to |ts|
      invariant |ts| == |rs| && Grouped(ts, rs, i, table, keys, chain)
    {
      var contract := ts[i].deployment.contractId;
      if ts[i].operation == Update && contract != 0 && contract !in chain {
        UnknownContract(rs, i, chain);
        return Some(contract), table, keys;
      }
      table, keys := Take(ts, i, rs, table, keys, chain);
    }
    AllGrouped(ts, rs, table, keys, chain);
    missing := None;
  }

  /** Different groups share neither requests nor deployments. */
  ghost predicate Apart(groups: seq<seq<TwinDeployment>>) {
    forall i, j, t, u :: 0 <= i < |groups| && 0 <= j < |groups| && i != j && t in groups[i] && u in groups[j] ==>
        Distinct(t, u)
  }

  /** The value of a group once it has become one request. */
  method FinishOne(groups: seq<seq<TwinDeployment>>, n: nat, ghost us: seq<seq<Request>>) returns (r: TwinDeployment)
    requires n < |groups| == |us| && Apart(groups)
    requires forall m :: n <= m < |groups| ==> groups[m] != [] && us[m] != [] && Snaps(groups[m]) == us[m]
    modifies {groups[n][0]}`publicIps, {groups[n][0]}`network
    modifies {groups[n][0].deployment}`workloads, {groups[n][0].deployment}`version
    ensures r == groups[n][0] && Snap(r) == Latest(us[n])
    ensures forall m :: n < m < |groups| ==> Snaps(groups[m]) == us[m]
  {
    assert groups[n][0] in groups[n];
    var latest := UpdateToLatest(groups[n]);
    r := latest.value;
    forall m | n < m < |groups|
      ensures Snaps(groups[m]) == us[m]
    {
      forall i | 0 <= i < |groups[m]|
        ensures Snap(groups[m][i]) == us[m][i]
      {
        assert Distinct(r, groups[m][i]) by { assert groups[m][i] in groups[m]; }
      }
    }
  }

  method FinishAll(ts: seq<TwinDeployment>, groups: seq<seq<TwinDeployment>>, ghost us: seq<seq<Request>>)
    returns (outs: seq<TwinDeployment>)
    requires Apart(groups) && |us| == |groups|
    requires forall m :: 0 <= m < |groups| ==> groups[m] != [] && us[m] != [] && Snaps(groups[m]) == us[m]
    requires forall m, t :: 0 <= m < |groups| && t in groups[m] ==> t in ts && t.operation == Update
    modifies UpdateObjects(ts)`publicIps, UpdateObjects(ts)`network
    modifies UpdateDeployments(ts)`workloads, UpdateDeployments(ts)`version
    ensures |outs| == |groups| && forall m :: 0 <= m < |outs| ==>
              groups[m] != [] && us[m] != [] && outs[m] == groups[m][0] && Snap(outs[m]) == Latest(us[m])
  {
    outs := [];
    for n := 0 to |groups|
      invariant forall m :: n <= m < |groups| ==> Snaps(groups[m]) == us[m]
      invariant |outs| == n && forall m :: 0 <= m < n ==> outs[m] == groups[m][0] && Snap(outs[m]) == Latest(us[m])
    {
      HeadsApart(groups, n, us);
      var latest := FinishOne(groups, n, us);
      outs := outs + [latest];
    }
  }

  lemma HeadsApart(groups: seq<seq<TwinDeployment>>, n: nat, us: seq<seq<Request>>)
    requires n < |groups| && Apart(groups) && forall m :: 0 <= m < |groups| ==> groups[m] != []
    ensures groups[n][0] in groups[n]
    ensures forall m :: 0 <= m < |groups| && m != n ==> Distinct(groups[n][0], groups[m][0])
  {
    forall m | 0 <= m < |groups| ensures groups[m][0] in groups[m] {}
  }

  /** The groups in key order, with the values they hold. */
  ghost predicate ListsGroups(ts: seq<TwinDeployment>, rs: seq<Request>, groups: seq<seq<TwinDeployment>>,
      us: seq<seq<Request>>, chain: map<nat, nat>)
    reads ts, set t | t in ts :: t.deployment
  {
    && |us| == |groups| == |UpdatedContracts(rs)|
    && forall m :: 0 <= m < |groups| ==>
         && UpdatesOf(rs, UpdatedContracts(rs)[m]) != []
         && us[m] == OnChainNode(UpdatesOf(rs, UpdatedContracts(rs)[m]), UpdatedContracts(rs)[m], chain)
         && HoldsGroup(ts, groups[m], UpdatesOf(rs, UpdatedContracts(rs)[m]), UpdatedContracts(rs)[m], chain)
  }

  lemma ListedGroups(ts: seq<TwinDeployment>, rs: seq<Request>, table: map<nat, seq<TwinDeployment>>,
      groups: seq<seq<TwinDeployment>>, chain: map<nat, nat>)
    returns (us: seq<seq<Request>>)
    requires HoldsGroups(ts, rs, table, chain) && |groups| == |UpdatedContracts(rs)|
    requires forall m :: 0 <= m < |groups| ==>
              UpdatedContracts(rs)[m] in table && groups[m] == table[UpdatedContracts(rs)[m]]
    ensures ListsGroups(ts, rs, groups, us, chain)
  {
    var keys := UpdatedContracts(rs);
    us := seq(|keys|, m requires 0 <= m < |keys| => OnChainNode(UpdatesOf(rs, keys[m]), keys[m], chain));
  }

  lemma ListedApart(ts: seq<TwinDeployment>, rs: seq<Request>, groups: seq<seq<TwinDeployment>>,
      us: seq<seq<Request>>, chain: map<nat, nat>)
    requires OwnsUpdates(ts) && ListsGroups(ts, rs, groups, us, chain)
    ensures Apart(groups)
    ensures forall m, t :: 0 <= m < |groups| && t in groups[m] ==> t in ts && t.operation == Update
  {
    var keys := UpdatedContracts(rs);
    forall i, j, t, u | 0 <= i < |groups| && 0 <= j < |groups| && i != j && t in groups[i] && u in groups[j]
      ensures Distinct(t, u)
    {
      GroupContract(ts, groups[i], rs, keys[i], chain);
      GroupContract(ts, groups[j], rs, keys[j], chain);
      assert keys[i] != keys[j] by { if i < j { assert keys[i] < keys[j]; } else { assert keys[j] < keys[i]; } }
      OwnedUpdatesDiffer(ts, t, u);
    }
  }

  lemma ListedValues(ts: seq<TwinDeployment>, rs: seq<Request>, groups: seq<seq<TwinDeployment>>,
      us: seq<seq<Request>>, chain: map<nat, nat>)
    requires ListsGroups(ts, rs, groups, us, chain)
    ensures forall m :: 0 <= m < |groups| ==> groups[m] != [] && us[m] != [] && Snaps(groups[m]) == us[m]
    ensures forall m :: 0 <= m < |groups| ==> Latest(us[m]) == MergeUpdates(rs, chain)[m]
  {
  }

  /** The groups in key order, with what is needed to finish them one by one. */
  method GroupsInOrder(ts: seq<TwinDeployment>, chain: map<nat, nat>, ghost rs: seq<Request>)
    returns (missing: Option<nat>, groups: seq<seq<TwinDeployment>>, ghost us: seq<seq<Request>>)
    requires OwnsUpdates(ts) && rs == Snaps(ts)
    modifies UpdateObjects(ts)`nodeId
    ensures missing.None? <==> ChainKnows(rs, chain)
    ensures missing.None? ==> Apart(groups) && |us| == |groups| == |MergeUpdates(rs, chain)|
    ensures missing.None? ==>
              forall m :: 0 <= m < |groups| ==> groups[m] != [] && us[m] != [] && Snaps(groups[m]) == us[m]
    ensures missing.None? ==>
              forall m :: 0 <= m < |groups| ==> us[m] != [] && Latest(us[m]) == MergeUpdates(rs, chain)[m]
    ensures missing.None? ==> forall m, t :: 0 <= m < |groups| && t in groups[m] ==> t in ts && t.operation == Update
  {
    var table, keys;
    missing, table, keys := GroupUpdates(ts, rs, chain);
    groups, us := [], [];
    if missing.Some? {
      return;
    }
    KeysTabled(rs, keys);
    groups := seq(|keys|, m requires 0 <= m < |keys| && keys[m] in table => table[keys[m]]);
    us := ListedGroups(ts, rs, table, groups, chain);
    ListedApart(ts, rs, groups, us, chain);
    ListedValues(ts, rs, groups, us, chain);
  }

  method UpdateMerge(ts: seq<TwinDeployment>, chain: map<nat, nat>, ghost rs: seq<Request>)
    returns (r: Result<seq<TwinDeployment>>)
    requires OwnsUpdates(ts) && rs == Snaps(ts)
    modifies UpdateObjects(ts)`publicIps, UpdateObjects(ts)`network, UpdateObjects(ts)`nodeId
    modifies UpdateDeployments(ts)`workloads, UpdateDeployments(ts)`version
    ensures r.Ok? <==> ChainKnows(rs, chain)
    ensures r.Ok? ==> Snaps(r.value) == MergeUpdates(rs, chain)
  {
    var missing, groups;
    ghost var us;
    missing, groups, us := GroupsInOrder(ts, chain, rs);
    if missing.Some? {
      return MissingContract(missing.value);
    }
    var deployments := FinishAll(ts, groups, us);
    r := Ok(deployments);
  }

  lemma KeysTabled(rs: seq<Request>, keys: seq<nat>)
    requires keys == UpdatedContracts(rs)
    ensures forall m :: 0 <= m < |keys| ==> UpdatesOf(rs, keys[m]) != []
  {
    UpdatedExact(rs);
    forall m | 0 <= m < |keys| ensures keys[m] in keys {}
  }

  /** The position of the first occurrence of each id. */
  ghost function Firsts(ids: seq<nat>): (at: seq<nat>)
    ensures |at| == |Once(ids)|
    ensures forall m :: 0 <= m < |at| ==> at[m] < |ids| && ids[at[m]] == Once(ids)[m]
  {
    if ids == [] then []
    else
      var front, last := ids[..|ids| - 1], ids[|ids| - 1];
      if last in Once(front) then Firsts(front) else Firsts(front) + [|front|]
  }

  lemma {:induction false} FirstsAreFirst(ids: seq<nat>)
    ensures forall m, i :: 0 <= m < |Firsts(ids)| && 0 <= i < Firsts(ids)[m] ==> ids[i] != ids[Firsts(ids)[m]]
  {
    if ids != [] {
      var front, last := ids[..|ids| - 1], ids[|ids| - 1];
      FirstsAreFirst(front);
      assert forall i :: 0 <= i < |front| ==> front[i] in Once(front);
      forall m, i | 0 <= m < |Firsts(ids)| && 0 <= i < Firsts(ids)[m]
        ensures ids[i] != ids[Firsts(ids)[m]]
      {
        if m < |Firsts(front)| {
          assert front[i] != front[Firsts(front)[m]];
        }
      }
    }
  }

  ghost predicate HaveIds(ts: seq<TwinDeployment>, ids: seq<nat>)
    reads ts, set t | t in ts :: t.deployment
  {
    |ids| == |ts| && forall i :: 0 <= i < |ts| ==> ts[i].deployment.contractId == ids[i]
  }

  /** `mergeDelete` keeps, for every contract, the first delete request. */
  method MergeDelete(deletes: seq<TwinDeployment>, ghost ids: seq<nat>) returns (finals: seq<TwinDeployment>)
    requires HaveIds(deletes, ids)
    ensures HaveIds(finals, Once(ids))
    ensures |finals| == |Firsts(ids)| && forall m :: 0 <= m < |finals| ==> finals[m] == deletes[Firsts(ids)[m]]
  {
    finals := [];
    var contracts: seq<nat> := [];
    for n := 0 to |deletes|
      invariant contracts == Once(ids[..n])
      invariant |finals| == |contracts|
      invariant forall m :: 0 <= m < |finals| ==> finals[m] == deletes[Firsts(ids[..n])[m]]
    {
      var id := deletes[n].deployment.contractId;
      assert ids[..n + 1][..n] == ids[..n];
      if id !in contracts {
        contracts := contracts + [id];
        finals := finals + [deletes[n]];
      }
    }
    assert ids[..|deletes|] == ids;
  }

  /** No deploy or update request shares its deployment with another deploy or update request. */
  ghost predicate OwnsPlanned(ts: seq<TwinDeployment>)
    reads ts
  {
    forall i, j :: 0 <= i < j < |ts| && ts[i].operation != Delete && ts[j].operation != Delete ==>
        Distinct(ts[i], ts[j])
  }

  lemma PlannedOwns(ts: seq<TwinDeployment>)
    requires OwnsPlanned(ts)
    ensures DM.OwnsDeployments(ts) && OwnsUpdates(ts)
    ensures forall t, u :: t in ts && u in ts && t.operation == Deploy && u.operation == Update ==> Distinct(t, u)
  {
    forall t, u | t in ts && u in ts && t.operation == Deploy && u.operation == Update
      ensures Distinct(t, u)
    {
      var i, j := IndexOf(ts, t), IndexOf(ts, u);
      if i < j { assert Distinct(ts[i], ts[j]); } else { assert Distinct(ts[j], ts[i]); }
    }
  }

  /** The delete requests and their contract ids. */
  method Deletes(ts: seq<TwinDeployment>, ghost rs: seq<Request>) returns (deletes: seq<TwinDeployment>, ids: seq<nat>)
    requires rs == Snaps(ts)
    ensures forall i :: 0 <= i < |deletes| ==> deletes[i] in ts && deletes[i].operation == Delete
    ensures HaveIds(deletes, ids) && ids == DeletedIds(rs)
  {
    deletes, ids := [], [];
    for i := 0 to |ts|
      invariant forall j :: 0 <= j < |deletes| ==> deletes[j] in ts && deletes[j].operation == Delete
      invariant HaveIds(deletes, ids) && ids == DeletedIds(rs[..i])
    {
      assert rs[..i + 1][..i] == rs[..i];
      if ts[i].operation == Delete {
        deletes := deletes + [ts[i]];
        ids := ids + [ts[i].deployment.contractId];
      }
    }
    assert rs[..|ts|] == rs;
  }

  lemma SnapsSnoc(ts: seq<TwinDeployment>, t: TwinDeployment)
    ensures Snaps(ts + [t]) == Snaps(ts) + [Snap(t)]
  {
  }

  method WithoutDeleted(us: seq<TwinDeployment>, deleted: seq<nat>) returns (kept: seq<TwinDeployment>)
    ensures Snaps(kept) == Filter(Snaps(us), Undeleted(deleted))
  {
    kept := [];
    ghost var rs, keep := Snaps(us), Undeleted(deleted);
    for i := 0 to |us|
      invariant Snaps(kept) == Filter(rs[..i], keep)
    {
      PrefixSnoc(rs, i);
      FilterSnoc(rs[..i], rs[i], keep);
      SnapsSnoc(kept, us[i]);
      if us[i].deployment.contractId !in deleted {
        kept := kept + [us[i]];
      }
    }
    WholePrefix(rs);
  }

  /** The same requests as far as updates and deletes are concerned. */
  ghost predicate SameUpdates(rs: seq<Request>, qs: seq<Request>) {
    && |rs| == |qs|
    && (forall i :: 0 <= i < |rs| ==> rs[i].op == qs[i].op && rs[i].contractId == qs[i].contractId)
    && (forall i :: 0 <= i < |rs| && rs[i].op == Update ==> rs[i] == qs[i])
  }

  lemma {:induction false} SameContracts(rs: seq<Request>, qs: seq<Request>)
    requires SameUpdates(rs, qs)
    ensures UpdatedContracts(rs) == UpdatedContracts(qs) && DeletedIds(rs) == DeletedIds(qs)
    ensures forall c :: UpdatesOf(rs, c) == UpdatesOf(qs, c)
  {
    if rs != [] {
      SameContracts(rs[..|rs| - 1], qs[..|qs| - 1]);
    }
  }

  lemma SamePlan(rs: seq<Request>, qs: seq<Request>, chain: map<nat, nat>)
    requires SameUpdates(rs, qs)
    ensures MergeUpdates(rs, chain) == MergeUpdates(qs, chain)
    ensures DeletedIds(rs) == DeletedIds(qs)
    ensures ChainKnows(rs, chain) <==> ChainKnows(qs, chain)
  {
    SameContracts(rs, qs);
    assert |MergeUpdates(rs, chain)| == |MergeUpdates(qs, chain)|;
  }

  /** `updateMerge` and the filter that lets deletes win. */
  method MergeKept(ts: seq<TwinDeployment>, chain: map<nat, nat>, deletedContracts: seq<nat>, ghost rs: seq<Request>)
    returns (r: Result<seq<TwinDeployment>>)
    requires OwnsUpdates(ts) && rs == Snaps(ts) && deletedContracts == DeletedIds(rs)
    modifies UpdateObjects(ts)`publicIps, UpdateObjects(ts)`network, UpdateObjects(ts)`nodeId
    modifies UpdateDeployments(ts)`workloads, UpdateDeployments(ts)`version
    ensures r.Ok? <==> ChainKnows(rs, chain)
    ensures r.Ok? ==> Snaps(r.value) == KeptUpdates(rs, chain)
  {
    var updated := UpdateMerge(ts, chain, rs);
    if updated.MissingContract? {
      return updated;
    }
    var kept := WithoutDeleted(updated.value, deletedContracts);
    r := Ok(kept);
  }

  /** The deploy part of the plan and the updates share nothing. */
  lemma DeploysApart(ts: seq<TwinDeployment>, deploys: seq<TwinDeployment>)
    requires OwnsPlanned(ts) && forall t :: t in deploys ==> t in ts && t.operation == Deploy
    ensures forall t :: t in deploys ==> t !in UpdateObjects(ts) && t.deployment !in UpdateDeployments(ts)
  {
    PlannedOwns(ts);
  }

  /** The actions on existing contracts: what the updates become, then one delete a contract. */
  method PlanExisting(ts: seq<TwinDeployment>, chain: map<nat, nat>, ghost rs: seq<Request>)
    returns (r: Result<seq<TwinDeployment>>, deletes: seq<TwinDeployment>)
    requires OwnsUpdates(ts) && rs == Snaps(ts)
    modifies UpdateObjects(ts)`publicIps, UpdateObjects(ts)`network, UpdateObjects(ts)`nodeId
    modifies UpdateDeployments(ts)`workloads, UpdateDeployments(ts)`version
    ensures r.Ok? <==> ChainKnows(rs, chain)
    ensures r.Ok? ==> Snaps(r.value) == KeptUpdates(rs, chain)
    ensures r.Ok? ==> HaveIds(deletes, Once(DeletedIds(rs)))
    ensures r.Ok? ==> forall m :: 0 <= m < |deletes| ==> deletes[m] in ts && deletes[m].operation == Delete
  {
    var deletedDeployments, deletedContracts := Deletes(ts, rs);
    r := MergeKept(ts, chain, deletedContracts, rs);
    deletes := MergeDelete(deletedDeployments, deletedContracts);
  }

  lemma DeploysLeaveUpdates(ts: seq<TwinDeployment>, rs: seq<Request>, qs: seq<Request>)
    requires OwnsPlanned(ts) && qs == Snaps(ts) && |rs| == |ts|
    requires forall i :: 0 <= i < |ts| ==>
              rs[i].op == ts[i].operation && rs[i].contractId == ts[i].deployment.contractId
    requires forall i :: 0 <= i < |ts| && ts[i].operation == Update ==> rs[i] == Snap(ts[i])
    ensures SameUpdates(rs, qs)
  {
  }

  lemma DeploysKeepPlan(ts: seq<TwinDeployment>, rs: seq<Request>, qs: seq<Request>, deploys: seq<TwinDeployment>,
      chain: map<nat, nat>)
    requires OwnsPlanned(ts) && qs == Snaps(ts) && |rs| == |ts|
    requires forall i :: 0 <= i < |ts| ==>
              rs[i].op == ts[i].operation && rs[i].contractId == ts[i].deployment.contractId
    requires forall i :: 0 <= i < |ts| && ts[i].operation == Update ==> rs[i] == Snap(ts[i])
    requires forall t :: t in deploys ==> t in ts && t.operation == Deploy
    ensures KeptUpdates(qs, chain) == KeptUpdates(rs, chain) && DeletedIds(qs) == DeletedIds(rs)
    ensures ChainKnows(qs, chain) <==> ChainKnows(rs, chain)
    ensures forall t :: t in deploys ==> t !in UpdateObjects(ts) && t.deployment !in UpdateDeployments(ts)
    ensures OwnsUpdates(ts)
  {
    DeploysLeaveUpdates(ts, rs, qs);
    SamePlan(rs, qs, chain);
    DeploysApart(ts, deploys);
    PlannedOwns(ts);
  }

  lemma UpdatesOutside(ts: seq<TwinDeployment>)
    requires OwnsPlanned(ts)
    ensures forall i :: 0 <= i < |ts| && ts[i].operation == Update ==>
              ts[i].deployment !in (set t | t in ts && t.operation == Deploy :: t.deployment)
  {
    PlannedOwns(ts);
  }

  /** The deploy part of the plan; it leaves updates and deletes alone. */
  method MergeDeployPart(ts: seq<TwinDeployment>, ghost rs: seq<Request>, ghost chain: map<nat, nat>)
    returns (deployments: seq<TwinDeployment>)
    requires OwnsPlanned(ts) && rs == Snaps(ts)
    modifies (set t | t in ts && t.operation == Deploy :: t.deployment)`workloads
    ensures Snaps(deployments) == DM.MergeDeploys(rs)
    ensures forall t :: t in deployments ==> t !in UpdateObjects(ts) && t.deployment !in UpdateDeployments(ts)
    ensures KeptUpdates(Snaps(ts), chain) == KeptUpdates(rs, chain) && DeletedIds(Snaps(ts)) == DeletedIds(rs)
    ensures ChainKnows(Snaps(ts), chain) <==> ChainKnows(rs, chain)
    ensures OwnsUpdates(ts)
  {
    PlannedOwns(ts);
    UpdatesOutside(ts);
    deployments := DM.DeployMerge(ts);
    DeploysKeepPlan(ts, rs, Snaps(ts), deployments, chain);
  }

  /** The rest of the plan; it leaves the deploy part alone. */
  method PlanBehind(ts: seq<TwinDeployment>, deployments: seq<TwinDeployment>, chain: map<nat, nat>)
    returns (r: Result<seq<TwinDeployment>>, deletes: seq<TwinDeployment>)
    requires OwnsUpdates(ts)
    requires forall t :: t in deployments ==> t !in UpdateObjects(ts) && t.deployment !in UpdateDeployments(ts)
    modifies UpdateObjects(ts)`publicIps, UpdateObjects(ts)`network, UpdateObjects(ts)`nodeId
    modifies UpdateDeployments(ts)`workloads, UpdateDeployments(ts)`version
    ensures Snaps(deployments) == old(Snaps(deployments))
    ensures r.Ok? <==> old(ChainKnows(Snaps(ts), chain))
    ensures r.Ok? ==> Snaps(r.value) == old(KeptUpdates(Snaps(ts), chain))
    ensures r.Ok? ==> HaveIds(deletes, old(Once(DeletedIds(Snaps(ts)))))
    ensures r.Ok? ==> forall m :: 0 <= m < |deletes| ==> deletes[m] in ts && deletes[m].operation == Delete
  {
    r, deletes := PlanExisting(ts, chain, Snaps(ts));
  }

  /** The whole plan: deploys, then updates, then deletes. An update of an unknown contract fails it. */
  method Merge(ts: seq<TwinDeployment>, chain: map<nat, nat>, ghost rs: seq<Request>)
    returns (r: Result<seq<TwinDeployment>>, ghost deploys: seq<TwinDeployment>, ghost updates: seq<TwinDeployment>,
              ghost deletes: seq<TwinDeployment>)
    requires OwnsPlanned(ts) && rs == Snaps(ts)
    modifies (set t | t in ts && t.operation == Deploy :: t.deployment)`workloads
    modifies UpdateObjects(ts)`publicIps, UpdateObjects(ts)`network, UpdateObjects(ts)`nodeId
    modifies UpdateDeployments(ts)`workloads, UpdateDeployments(ts)`version
    ensures r.Ok? <==> ChainKnows(rs, chain)
    ensures r.Ok? ==> r.value == deploys + updates + deletes
    ensures r.Ok? ==> Snaps(deploys) == DM.MergeDeploys(rs)
    ensures r.Ok? ==> Snaps(updates) == KeptUpdates(rs, chain)
    ensures r.Ok? ==> HaveIds(deletes, Once(DeletedIds(rs)))
    ensures r.Ok? ==> forall m :: 0 <= m < |deletes| ==> deletes[m] in ts && deletes[m].operation == Delete
  {
    var deployments := MergeDeployPart(ts, rs, chain);
    var kept, finals := PlanBehind(ts, deployments, chain);
    deploys, updates, deletes := deployments, [], finals;
    if kept.MissingContract? {
      return kept, deploys, updates, deletes;
    }
    updates := kept.value;
    r := Ok(deployments + kept.value + finals);
  }
}
