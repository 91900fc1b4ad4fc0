/** `TwinDeploymentHandler.deployMerge`: requests that deploy plain workloads on the same node become
    one deployment; requests that carry a network or public IPs stay as they are. */
module DeployMerge {
  import opened Models
  import opened Sequences

  predicate IsDeploy(r: Request) { r.op == Deploy }

  predicate HasNetwork(ws: seq<Workload>) {
    exists i :: 0 <= i < |ws| && IsNetwork(ws[i])
  }

  /** Kept on its own: a deployment with a network workload or with public IPs. */
  predicate IsSpecial(r: Request) {
    IsDeploy(r) && (HasNetwork(r.workloads) || r.publicIps > 0)
  }

  predicate IsPlain(r: Request) {
    IsDeploy(r) && !HasNetwork(r.workloads) && r.publicIps == 0
  }

  predicate IsPlainOn(r: Request, node: nat) { IsPlain(r) && r.nodeId == node }

  lemma HasNetworkAppend(a: seq<Workload>, b: seq<Workload>)
    ensures HasNetwork(a + b) <==> HasNetwork(a) || HasNetwork(b)
  {
    if i :| 0 <= i < |a| && IsNetwork(a[i]) {
      assert IsNetwork((a + b)[i]);
    }
    if i :| 0 <= i < |b| && IsNetwork(b[i]) {
      assert IsNetwork((a + b)[|a| + i]);
    }
  }

  // ---- Specification ----

  ghost predicate HasPlainOn(rs: seq<Request>, node: nat) {
    exists i :: 0 <= i < |rs| && IsPlainOn(rs[i], node)
  }

  /** Nodes that receive plain workloads, in the order a JavaScript object lists integer keys. */
  function Nodes(rs: seq<Request>): (ks: seq<nat>)
    ensures Ascending(ks)
  {
    if rs == [] then []
    else
      var front, last := rs[..|rs| - 1], rs[|rs| - 1];
      if IsPlain(last) then InsertKey(Nodes(front), last.nodeId) else Nodes(front)
  }

  /** All plain workloads requested for a node, in request order. */
  function WorkloadsOn(rs: seq<Request>, node: nat): seq<Workload> {
    if rs == [] then []
    else
      WorkloadsOn(rs[..|rs| - 1], node) + (if IsPlainOn(rs[|rs| - 1], node) then rs[|rs| - 1].workloads else [])
  }

  const NO_REQUEST := Request(Delete, 0, 0, [], 0, 0, None, "")

  /** The first plain request for a node that has one. */
  ghost function FirstOn(rs: seq<Request>, node: nat): Request {
    if rs == [] then NO_REQUEST
    else if IsPlainOn(rs[0], node) then rs[0]
    else FirstOn(rs[1..], node)
  }

  lemma {:induction false} FirstOnIs(rs: seq<Request>, node: nat)
    requires HasPlainOn(rs, node)
    ensures FirstOn(rs, node) in rs && IsPlainOn(FirstOn(rs, node), node)
  {
    if !IsPlainOn(rs[0], node) {
      var i :| 0 <= i < |rs| && IsPlainOn(rs[i], node);
      assert IsPlainOn(rs[1..][i - 1], node);
      FirstOnIs(rs[1..], node);
    }
  }

  ghost function MergedOn(rs: seq<Request>, node: nat): Request {
    FirstOn(rs, node).(workloads := WorkloadsOn(rs, node))
  }

  ghost function MergedList(rs: seq<Request>): (out: seq<Request>)
    ensures |out| == |Nodes(rs)|
    ensures forall i :: 0 <= i < |out| ==> out[i] == MergedOn(rs, Nodes(rs)[i])
  {
    seq(|Nodes(rs)|, i requires 0 <= i < |Nodes(rs)| => MergedOn(rs, Nodes(rs)[i]))
  }

  /** What `deployMerge` returns: the special deployments in order, then one deployment per node. */
  ghost function MergeDeploys(rs: seq<Request>): seq<Request> {
    Filter(rs, IsSpecial) + MergedList(rs)
  }

  lemma HasPlainOnSnoc(rs: seq<Request>, node: nat)
    requires rs != []
    ensures HasPlainOn(rs, node) <==> HasPlainOn(rs[..|rs| - 1], node) || IsPlainOn(rs[|rs| - 1], node)
  {
    var front := rs[..|rs| - 1];
    if i :| 0 <= i < |front| && IsPlainOn(front[i], node) {
      assert IsPlainOn(rs[i], node);
    }
    if i :| 0 <= i < |rs| && IsPlainOn(rs[i], node) {
      assert i < |front| ==> IsPlainOn(front[i], node);
    }
  }

  lemma {:induction false} NodesExact(rs: seq<Request>)
    ensures forall k :: k in Nodes(rs) <==> HasPlainOn(rs, k)
  {
    if rs != [] {
      NodesExact(rs[..|rs| - 1]);
      forall k
        ensures k in Nodes(rs) <==> HasPlainOn(rs, k)
      {
        HasPlainOnSnoc(rs, k);
      }
    }
  }

  lemma {:induction false} FirstOnSnoc(rs: seq<Request>, node: nat)
    requires rs != [] && HasPlainOn(rs, node)
    ensures FirstOn(rs, node) ==
      if HasPlainOn(rs[..|rs| - 1], node) then FirstOn(rs[..|rs| - 1], node) else rs[|rs| - 1]
  {
    var front := rs[..|rs| - 1];
    HasPlainOnSnoc(rs, node);
    if front != [] && !IsPlainOn(rs[0], node) {
      assert front[0] == rs[0];
      assert HasPlainOn(rs[1..], node) by {
        var i :| 0 <= i < |rs| && IsPlainOn(rs[i], node);
        assert IsPlainOn(rs[1..][i - 1], node);
      }
      FirstOnSnoc(rs[1..], node);
      assert rs[1..][..|rs[1..]| - 1] == front[1..];
      assert HasPlainOn(front, node) <==> HasPlainOn(front[1..], node) by {
        if i :| 0 <= i < |front| && IsPlainOn(front[i], node) {
          assert IsPlainOn(front[1..][i - 1], node);
        }
        if i :| 0 <= i < |front[1..]| && IsPlainOn(front[1..][i], node) {
          assert IsPlainOn(front[i + 1], node);
        }
      }
    }
  }

  // ---- Workloads of a node stay plain ----

  lemma {:induction false} WorkloadsOnPlain(rs: seq<Request>, node: nat)
    ensures !HasNetwork(WorkloadsOn(rs, node))
  {
    if rs != [] {
      WorkloadsOnPlain(rs[..|rs| - 1], node);
      HasNetworkAppend(WorkloadsOn(rs[..|rs| - 1], node), rs[|rs| - 1].workloads);
    }
  }

  lemma {:induction false} NoPlainNoWorkloads(rs: seq<Request>, node: nat)
    requires !HasPlainOn(rs, node)
    ensures WorkloadsOn(rs, node) == []
  {
    if rs != [] {
      HasPlainOnSnoc(rs, node);
      NoPlainNoWorkloads(rs[..|rs| - 1], node);
    }
  }

  // ---- Normal form ----

  /** Special deployments first, then plain ones, one per node, nodes ascending. */
  ghost predicate IsNormal(rs: seq<Request>, specials: nat) {
    && specials <= |rs|
    && (forall i :: 0 <= i < specials ==> IsSpecial(rs[i]))
    && (forall i :: specials <= i < |rs| ==> IsPlain(rs[i]))
    && (forall i, j :: specials <= i < j < |rs| ==> rs[i].nodeId < rs[j].nodeId)
  }

  lemma MergeIsNormal(rs: seq<Request>)
    ensures IsNormal(MergeDeploys(rs), |Filter(rs, IsSpecial)|)
  {
    var specials, merged := Filter(rs, IsSpecial), MergedList(rs);
    forall i | 0 <= i < |specials|
      ensures IsSpecial(specials[i])
    {
      FilterMembers(rs, IsSpecial, specials[i]);
    }
    NodesExact(rs);
    forall i | 0 <= i < |merged|
      ensures IsPlainOn(merged[i], Nodes(rs)[i])
    {
      assert Nodes(rs)[i] in Nodes(rs);
      MergedIsPlain(rs, Nodes(rs)[i]);
    }
  }

  lemma {:induction false} WorkloadsOnDistinct(rs: seq<Request>, i: nat)
    requires i < |rs| && IsPlain(rs[i])
    requires forall j :: 0 <= j < |rs| && j != i ==> !IsPlainOn(rs[j], rs[i].nodeId)
    ensures WorkloadsOn(rs, rs[i].nodeId) == rs[i].workloads
  {
    var front := rs[..|rs| - 1];
    if i == |rs| - 1 {
      NoPlainNoWorkloads(front, rs[i].nodeId);
    } else {
      WorkloadsOnDistinct(front, i);
    }
  }

  lemma NormalFilter(rs: seq<Request>, specials: nat)
    requires IsNormal(rs, specials)
    ensures Filter(rs, IsSpecial) == rs[..specials]
  {
    assert rs == rs[..specials] + rs[specials..];
    FilterAppend(rs[..specials], rs[specials..], IsSpecial);
    FilterAll(rs[..specials], IsSpecial);
    FilterNone(rs[specials..], IsSpecial);
  }

  ghost function PlainNodes(rs: seq<Request>, specials: nat): (keys: seq<nat>)
    requires IsNormal(rs, specials)
    ensures |keys| == |rs| - specials
    ensures forall i :: specials <= i < |rs| ==> keys[i - specials] == rs[i].nodeId
    ensures Ascending(keys)
  {
    seq(|rs| - specials, i requires 0 <= i < |rs| - specials => rs[specials + i].nodeId)
  }

  lemma NormalNodes(rs: seq<Request>, specials: nat)
    requires IsNormal(rs, specials)
    ensures Nodes(rs) == PlainNodes(rs, specials)
  {
    NodesExact(rs);
    var keys := PlainNodes(rs, specials);
    forall k
      ensures HasPlainOn(rs, k) <==> k in keys
    {
      if k in keys {
        var i := specials + IndexOf(keys, k);
        assert IsPlainOn(rs[i], k);
      }
      if i :| 0 <= i < |rs| && IsPlainOn(rs[i], k) {
        assert keys[i - specials] == k;
      }
    }
    AscendingUnique(Nodes(rs), keys);
  }

  lemma NormalMerged(rs: seq<Request>, specials: nat, i: nat)
    requires IsNormal(rs, specials) && specials <= i < |rs|
    ensures HasPlainOn(rs, rs[i].nodeId) && MergedOn(rs, rs[i].nodeId) == rs[i]
  {
    assert IsPlainOn(rs[i], rs[i].nodeId);
    WorkloadsOnDistinct(rs, i);
    FirstOnIs(rs, rs[i].nodeId);
    var first := FirstOn(rs, rs[i].nodeId);
    var j := IndexOf(rs, first);
    assert j == i;
  }

  lemma NormalEntry(rs: seq<Request>, specials: nat, i: nat)
    requires IsNormal(rs, specials) && specials <= i < |rs|
    ensures |MergedList(rs)| == |rs| - specials && MergedList(rs)[i - specials] == rs[i]
  {
    NormalNodes(rs, specials);
    NormalMerged(rs, specials, i);
  }

  lemma NormalList(rs: seq<Request>, specials: nat)
    requires IsNormal(rs, specials)
    ensures MergedList(rs) == rs[specials..]
  {
    var merged, plain := MergedList(rs), rs[specials..];
    NormalNodes(rs, specials);
    assert |merged| == |plain|;
    forall i | 0 <= i < |plain|
      ensures merged[i] == plain[i]
    {
      NormalEntry(rs, specials, specials + i);
    }
  }

  lemma MergedIsPlain(rs: seq<Request>, node: nat)
    requires HasPlainOn(rs, node)
    ensures IsPlainOn(MergedOn(rs, node), node)
  {
    WorkloadsOnPlain(rs, node);
    FirstOnIs(rs, node);
  }

  /** A list in normal form is a fixed point, so merging twice is merging once. */
  lemma NormalIsFixed(rs: seq<Request>, specials: nat)
    requires IsNormal(rs, specials)
    ensures MergeDeploys(rs) == rs
  {
    NormalFilter(rs, specials);
    NormalList(rs, specials);
  }

  lemma KeepsPresent(rs: seq<Request>, node: nat)
    requires HasPlainOn(rs, node)
    ensures WorkloadsOn(MergeDeploys(rs), node) == WorkloadsOn(rs, node)
  {
    var out, n := MergeDeploys(rs), |Filter(rs, IsSpecial)|;
    MergeIsNormal(rs);
    NodesExact(rs);
    MergedIsPlain(rs, node);
    var i := n + IndexOf(Nodes(rs), node);
    assert out[i] == MergedList(rs)[i - n] == MergedOn(rs, node);
    WorkloadsOnDistinct(out, i);
  }

  lemma KeepsAbsent(rs: seq<Request>, node: nat)
    requires !HasPlainOn(rs, node)
    ensures WorkloadsOn(MergeDeploys(rs), node) == WorkloadsOn(rs, node)
  {
    var out := MergeDeploys(rs);
    if i :| 0 <= i < |out| && IsPlainOn(out[i], node) {
      MergedNodes(rs, i);
      assert false;
    }
    NoPlainNoWorkloads(rs, node);
    NoPlainNoWorkloads(out, node);
  }

  lemma MergeKeepsNode(rs: seq<Request>, node: nat)
    ensures WorkloadsOn(MergeDeploys(rs), node) == WorkloadsOn(rs, node)
  {
    if HasPlainOn(rs, node) {
      KeepsPresent(rs, node);
    } else {
      KeepsAbsent(rs, node);
    }
  }

  lemma MergedNodes(rs: seq<Request>, i: nat)
    requires i < |MergeDeploys(rs)| && IsPlain(MergeDeploys(rs)[i])
    ensures HasPlainOn(rs, MergeDeploys(rs)[i].nodeId)
  {
    var specials := Filter(rs, IsSpecial);
    MergeIsNormal(rs);
    NodesExact(rs);
    var node := Nodes(rs)[i - |specials|];
    assert MergeDeploys(rs)[i] == MergedList(rs)[i - |specials|] == MergedOn(rs, node);
    assert node in Nodes(rs);
    MergedIsPlain(rs, node);
  }

  /** `deployMerge` leaves the special deployments alone and in order, leaves at most one plain
      deployment per node, keeps each node's plain workloads in request order, and changes nothing
      when it runs again. */
  lemma MergeNormalises(rs: seq<Request>)
    ensures Filter(MergeDeploys(rs), IsSpecial) == Filter(rs, IsSpecial)
    ensures forall i, j :: 0 <= i < j < |MergeDeploys(rs)| && IsPlain(MergeDeploys(rs)[i]) &&
              IsPlain(MergeDeploys(rs)[j])
              ==> MergeDeploys(rs)[i].nodeId != MergeDeploys(rs)[j].nodeId
    ensures forall node :: WorkloadsOn(MergeDeploys(rs), node) == WorkloadsOn(rs, node)
    ensures MergeDeploys(MergeDeploys(rs)) == MergeDeploys(rs)
  {
    var out, n := MergeDeploys(rs), |Filter(rs, IsSpecial)|;
    MergeIsNormal(rs);
    NormalIsFixed(out, n);
    NormalFilter(out, n);
    forall node
      ensures WorkloadsOn(out, node) == WorkloadsOn(rs, node)
    {
      MergeKeepsNode(rs, node);
    }
  }

  lemma DeploysNext(rs: seq<Request>)
    requires rs != []
    ensures Filter(rs, IsDeploy) ==
              Filter(rs[..|rs| - 1], IsDeploy) + (if IsDeploy(rs[|rs| - 1]) then [rs[|rs| - 1]] else [])
  {
  }

  lemma NodesNext(front: seq<Request>, last: Request)
    ensures Nodes(front + [last]) == if IsPlain(last) then InsertKey(Nodes(front), last.nodeId) else Nodes(front)
  {
    assert (front + [last])[..|front|] == front;
  }

  lemma WorkloadsOnNext(front: seq<Request>, last: Request, node: nat)
    ensures WorkloadsOn(front + [last], node) ==
              WorkloadsOn(front, node) + (if IsPlainOn(last, node) then last.workloads else [])
  {
    assert (front + [last])[..|front|] == front;
  }

  lemma {:induction false} FirstOnSkips(front: seq<Request>, last: Request, node: nat)
    ensures FirstOn(front + [last], node) ==
              if FirstOn(front, node) == NO_REQUEST && IsPlainOn(last, node) then last else FirstOn(front, node)
  {
    var all := front + [last];
    if front == [] {
      assert all[1..] == [];
      assert FirstOn(all[1..], node) == NO_REQUEST;
    } else if !IsPlainOn(front[0], node) {
      assert all[1..] == front[1..] + [last];
      FirstOnSkips(front[1..], last, node);
    }
  }

  /** The list without its updates and deletes is merged the same way. */
  ghost predicate MergedAlike(rs: seq<Request>, ds: seq<Request>) {
    && Filter(rs, IsSpecial) == Filter(ds, IsSpecial) && Nodes(rs) == Nodes(ds)
    && forall k :: FirstOn(rs, k) == FirstOn(ds, k) && WorkloadsOn(rs, k) == WorkloadsOn(ds, k)
  }

  lemma AlikeSkip(front: seq<Request>, ds: seq<Request>, last: Request)
    requires MergedAlike(front, ds) && !IsDeploy(last)
    ensures MergedAlike(front + [last], ds)
  {
    FilterSnoc(front, last, IsSpecial);
    NodesNext(front, last);
    forall k
      ensures FirstOn(front + [last], k) == FirstOn(ds, k) && WorkloadsOn(front + [last], k) == WorkloadsOn(ds, k)
    {
      FirstOnSkips(front, last, k);
      WorkloadsOnNext(front, last, k);
    }
  }

  lemma AlikeNext(front: seq<Request>, ds: seq<Request>, last: Request)
    requires MergedAlike(front, ds)
    ensures MergedAlike(front + [last], ds + [last])
  {
    FilterSnoc(front, last, IsSpecial);
    FilterSnoc(ds, last, IsSpecial);
    NodesNext(front, last);
    NodesNext(ds, last);
    forall k
      ensures FirstOn(front + [last], k) == FirstOn(ds + [last], k)
      ensures WorkloadsOn(front + [last], k) == WorkloadsOn(ds + [last], k)
    {
      FirstOnSkips(front, last, k);
      FirstOnSkips(ds, last, k);
      WorkloadsOnNext(front, last, k);
      WorkloadsOnNext(ds, last, k);
    }
  }

  lemma {:induction false} DeploysAlike(rs: seq<Request>)
    ensures MergedAlike(rs, Filter(rs, IsDeploy))
  {
    if rs != [] {
      var front, last := rs[..|rs| - 1], rs[|rs| - 1];
      assert rs == front + [last];
      DeploysAlike(front);
      DeploysNext(rs);
      if IsDeploy(last) {
        AlikeNext(front, Filter(front, IsDeploy), last);
      } else {
        assert Filter(rs, IsDeploy) == Filter(front, IsDeploy);
        AlikeSkip(front, Filter(front, IsDeploy), last);
      }
    }
  }

  /** Updates and deletes, wherever they stand in the list, do not change what is deployed. */
  lemma NonDeploysIgnored(rs: seq<Request>)
    ensures MergeDeploys(rs) == MergeDeploys(Filter(rs, IsDeploy))
  {
    DeploysAlike(rs);
    assert MergedList(rs) == MergedList(Filter(rs, IsDeploy));
  }

  /** Normal form stated pairwise, which every sublist inherits. */
  ghost predicate InOrder(r: Request, later: Request) {
    IsPlain(r) ==> IsPlain(later) && r.nodeId < later.nodeId
  }

  ghost predicate PairwiseNormal(rs: seq<Request>) {
    && (forall i :: 0 <= i < |rs| ==> IsDeploy(rs[i]))
    && (forall i, j :: 0 <= i < j < |rs| ==> InOrder(rs[i], rs[j]))
  }

  lemma {:induction false} FilteredPairwise(rs: seq<Request>, keep: Request -> bool)
    requires PairwiseNormal(rs)
    ensures PairwiseNormal(Filter(rs, keep))
  {
    if rs != [] {
      var front, last := rs[..|rs| - 1], rs[|rs| - 1];
      FilteredPairwise(front, keep);
      var kept := Filter(front, keep);
      forall i | 0 <= i < |kept|
        ensures InOrder(kept[i], last)
      {
        FilterMembers(front, keep, kept[i]);
        var p := IndexOf(front, kept[i]);
        assert rs[p] == kept[i];
      }
    }
  }

  lemma {:induction false} PairwiseSplits(rs: seq<Request>) returns (specials: nat)
    requires PairwiseNormal(rs)
    ensures IsNormal(rs, specials)
  {
    if rs == [] {
      specials := 0;
    } else {
      specials := PairwiseSplits(rs[1..]);
      if IsPlain(rs[0]) {
        assert forall j :: 1 <= j < |rs| ==> InOrder(rs[0], rs[j]);
        specials := 0;
      } else {
        specials := specials + 1;
      }
    }
  }

  /** A plan comes out of `deployMerge` with its deployments as they stand exactly when they are in normal form. */
  lemma DeploysKeptExactly(plan: seq<Request>)
    ensures MergeDeploys(plan) == Filter(plan, IsDeploy) <==> PairwiseNormal(Filter(plan, IsDeploy))
  {
    hide MergeDeploys, Filter;
    var deploys := Filter(plan, IsDeploy);
    NonDeploysIgnored(plan);
    if PairwiseNormal(deploys) {
      var n := PairwiseSplits(deploys);
      NormalIsFixed(deploys, n);
    } else if MergeDeploys(plan) == deploys {
      MergeIsNormal(deploys);
      assert false;
    }
  }

  /** `_update` merges the deployments and keeps some of them among updates and deletes; when those are the only
      deployments of the plan it hands to `handle`, which merges again, they come out as `_update` chose them. */
  lemma UpdateThenHandle(rs: seq<Request>, keep: Request -> bool, plan: seq<Request>)
    requires Filter(plan, IsDeploy) == Filter(MergeDeploys(rs), keep)
    ensures MergeDeploys(plan) == Filter(plan, IsDeploy)
  {
    MergeIsNormal(rs);
    FilteredPairwise(MergeDeploys(rs), keep);
    DeploysKeptExactly(plan);
  }

  lemma OnePlain(p: Request, s: Request)
    requires IsPlain(p) && IsSpecial(s)
    ensures Nodes([p, s]) == [p.nodeId]
    ensures MergedOn([p, s], p.nodeId) == p
  {
    var node := p.nodeId;
    assert [] + [p] == [p] && [p] + [s] == [p, s];
    NodesNext([], p);
    NodesNext([p], s);
    WorkloadsOnNext([], p, node);
    WorkloadsOnNext([p], s, node);
    assert WorkloadsOn([p, s], node) == p.workloads;
  }

  /** A deployment with public IPs that `_update` appends behind a plain one is moved in front of it. */
  lemma SpecialMovesUp(p: Request, s: Request)
    requires IsPlain(p) && IsSpecial(s)
    ensures MergeDeploys([p, s]) == [s, p]
  {
    FilterNone([p], IsSpecial);
    FilterSnoc([p], s, IsSpecial);
    assert [p] + [s] == [p, s];
    OnePlain(p, s);
    assert MergedList([p, s]) == [p];
  }

  lemma AllMergedDeploy(rs: seq<Request>)
    ensures forall r :: r in MergeDeploys(rs) ==> r.op == Deploy
  {
    forall r | r in MergeDeploys(rs) ensures r.op == Deploy {
      if r in Filter(rs, IsSpecial) {
        FilterMembers(rs, IsSpecial, r);
      } else {
        var i :| 0 <= i < |MergedList(rs)| && MergedList(rs)[i] == r;
        NodesExact(rs);
        MergedIsPlain(rs, Nodes(rs)[i]);
      }
    }
  }

  // ---- Conservation ----

  function Placed(node: nat, ws: seq<Workload>): seq<(nat, Workload)> {
    seq(|ws|, i requires 0 <= i < |ws| => (node, ws[i]))
  }

  /** Every workload of the deploy requests, with the node it goes to. */
  function Pairs(rs: seq<Request>): seq<(nat, Workload)> {
    if rs == [] then []
    else
      Pairs(rs[..|rs| - 1]) +
      (if IsDeploy(rs[|rs| - 1]) then Placed(rs[|rs| - 1].nodeId, rs[|rs| - 1].workloads) else [])
  }

  function TotalIps(rs: seq<Request>): nat {
    if rs == [] then 0
    else TotalIps(rs[..|rs| - 1]) + (if IsDeploy(rs[|rs| - 1]) then rs[|rs| - 1].publicIps else 0)
  }

  lemma {:induction false} PlacedCount(node: nat, ws: seq<Workload>, k: nat, w: Workload)
    ensures multiset(Placed(node, ws))[(k, w)] == if node == k then multiset(ws)[w] else 0
  {
    if ws != [] {
      var front, last := ws[..|ws| - 1], ws[|ws| - 1];
      PlacedCount(node, front, k, w);
      assert ws == front + [last];
      assert Placed(node, ws) == Placed(node, front) + [(node, last)];
    }
  }

  lemma PairsSnoc(rs: seq<Request>, r: Request)
    requires IsDeploy(r)
    ensures Pairs(rs + [r]) == Pairs(rs) + Placed(r.nodeId, r.workloads)
    ensures TotalIps(rs + [r]) == TotalIps(rs) + r.publicIps
  {
    assert (rs + [r])[..|rs|] == rs;
  }

  lemma {:induction false} PairsSplit(rs: seq<Request>, k: nat, w: Workload)
    ensures multiset(Pairs(rs))[(k, w)]
         == multiset(Pairs(Filter(rs, IsSpecial)))[(k, w)] + multiset(WorkloadsOn(rs, k))[w]
  {
    if rs != [] {
      PairsSplit(rs[..|rs| - 1], k, w);
      PairsSplitStep(rs, k, w);
    }
  }

  lemma PairsSplitStep(rs: seq<Request>, k: nat, w: Workload)
    requires rs != []
    requires var front := rs[..|rs| - 1];
      multiset(Pairs(front))[(k, w)]
        == multiset(Pairs(Filter(front, IsSpecial)))[(k, w)] + multiset(WorkloadsOn(front, k))[w]
    ensures multiset(Pairs(rs))[(k, w)]
         == multiset(Pairs(Filter(rs, IsSpecial)))[(k, w)] + multiset(WorkloadsOn(rs, k))[w]
  {
    var front, last := rs[..|rs| - 1], rs[|rs| - 1];
    var specials := Filter(front, IsSpecial);
    if IsSpecial(last) {
      assert Filter(rs, IsSpecial) == specials + [last];
      PairsSnoc(specials, last);
      assert WorkloadsOn(rs, k) == WorkloadsOn(front, k);
    } else {
      assert Filter(rs, IsSpecial) == specials;
      if IsDeploy(last) {
        PlacedCount(last.nodeId, last.workloads, k, w);
        assert Pairs(rs) == Pairs(front) + Placed(last.nodeId, last.workloads);
      }
    }
  }

  lemma {:induction false} IpsSplit(rs: seq<Request>)
    ensures TotalIps(rs) == TotalIps(Filter(rs, IsSpecial))
  {
    if rs != [] {
      var front, last := rs[..|rs| - 1], rs[|rs| - 1];
      IpsSplit(front);
      if IsSpecial(last) {
        assert Filter(rs, IsSpecial) == Filter(front, IsSpecial) + [last];
        PairsSnoc(Filter(front, IsSpecial), last);
      } else {
        assert Filter(rs, IsSpecial) == Filter(front, IsSpecial);
      }
    }
  }

  /** No workload appears, disappears or changes node, and no public IP is gained or lost. */
  lemma MergeConserves(rs: seq<Request>)
    ensures multiset(Pairs(MergeDeploys(rs))) == multiset(Pairs(rs))
    ensures TotalIps(MergeDeploys(rs)) == TotalIps(rs)
  {
    var out := MergeDeploys(rs);
    MergeNormalises(rs);
    forall p: (nat, Workload)
      ensures multiset(Pairs(out))[p] == multiset(Pairs(rs))[p]
    {
      PairsSplit(rs, p.0, p.1);
      PairsSplit(out, p.0, p.1);
    }
    IpsSplit(rs);
    IpsSplit(out);
  }

  // ---- The algorithm ----

  /** Two different deploy requests of the list never share their deployment. */
  ghost predicate OwnsDeployments(ts: seq<TwinDeployment>)
    reads ts
  {
    forall i, j :: 0 <= i < j < |ts| && ts[i].operation == Deploy && ts[j].operation == Deploy ==>
                     ts[i] != ts[j] && ts[i].deployment != ts[j].deployment
  }

  /** The table `deploymentMap` after some requests, as values. */
  ghost function Table(rs: seq<Request>): map<nat, Request> {
    if rs == [] then map[]
    else
      var table, last := Table(rs[..|rs| - 1]), rs[|rs| - 1];
      if !IsPlain(last) then table
      else if last.nodeId in table then
        table[last.nodeId := table[last.nodeId].(workloads := table[last.nodeId].workloads + last.workloads)]
      else table[last.nodeId := last]
  }

  /** The table holds, for each node, the first plain request with the workloads of all of them. */
  lemma {:induction false} TableExact(rs: seq<Request>)
    ensures forall k :: k in Table(rs) <==> HasPlainOn(rs, k)
    ensures forall k :: k in Table(rs) ==> Table(rs)[k] == MergedOn(rs, k)
  {
    if rs != [] {
      TableExact(rs[..|rs| - 1]);
      forall k: nat
        ensures k in Table(rs) <==> HasPlainOn(rs, k)
        ensures k in Table(rs) ==> Table(rs)[k] == MergedOn(rs, k)
      {
        HasPlainOnSnoc(rs, k);
        if HasPlainOn(rs, k) {
          FirstOnSnoc(rs, k);
          if !HasPlainOn(rs[..|rs| - 1], k) {
            NoPlainNoWorkloads(rs[..|rs| - 1], k);
          }
        }
      }
    }
  }

  method AnyNetwork(ws: seq<Workload>) returns (found: bool)
    ensures found <==> HasNetwork(ws)
  {
    found := false;
    for i := 0 to |ws|
      invariant !found
      invariant forall j :: 0 <= j < i ==> !IsNetwork(ws[j])
    {
      if IsNetwork(ws[i]) {
        return true;
      }
    }
  }

  lemma OwnedDiffer(ts: seq<TwinDeployment>, t: TwinDeployment, u: TwinDeployment)
    requires OwnsDeployments(ts)
    requires t in ts && u in ts && t != u && t.operation == Deploy && u.operation == Deploy
    ensures t.deployment != u.deployment
  {
    var i, j := IndexOf(ts, t), IndexOf(ts, u);
    if i < j { assert ts[i].deployment != ts[j].deployment; } else { assert ts[j].deployment != ts[i].deployment; }
  }

  lemma TableIsPlain(rs: seq<Request>)
    ensures forall k :: k in Table(rs) ==> IsPlainOn(Table(rs)[k], k)
  {
    TableExact(rs);
    forall k | k in Table(rs) ensures IsPlainOn(Table(rs)[k], k) {
      MergedIsPlain(rs, k);
    }
  }

  /** The special requests met so far, in order. */
  ghost predicate ListsSpecials(ts: seq<TwinDeployment>, rs: seq<Request>, specials: seq<TwinDeployment>)
    reads ts, set t | t in ts :: t.deployment
  {
    && (forall t :: t in specials ==> t in ts && t.operation == Deploy)
    && Separate(specials)
    && |specials| == |Filter(rs, IsSpecial)|
    && (forall i :: 0 <= i < |specials| ==> Snap(specials[i]) == Filter(rs, IsSpecial)[i])
  }

  /** The object table holds the table of values. */
  ghost predicate ListsPlain(ts: seq<TwinDeployment>, rs: seq<Request>, table: map<nat, TwinDeployment>, keys: seq<nat>)
    reads ts, set t | t in ts :: t.deployment
  {
    && keys == Nodes(rs)
    && table.Keys == Table(rs).Keys
    && (forall k :: k in table ==> table[k] in ts && table[k].operation == Deploy && Snap(table[k]) == Table(rs)[k])
  }

  /** The request is new and shares its deployment with no deploy request of the list. */
  ghost predicate FreshOwner(ts: seq<TwinDeployment>, t: TwinDeployment)
    reads ts
  {
    forall u :: u in ts && u.operation == Deploy ==> u != t && u.deployment != t.deployment
  }

  lemma PrefixFresh(ts: seq<TwinDeployment>, i: nat)
    requires OwnsDeployments(ts) && i < |ts|
    ensures OwnsDeployments(ts[..i])
    ensures forall j :: i <= j < |ts| && ts[j].operation == Deploy ==> FreshOwner(ts[..i], ts[j])
  {
    forall j, u | i <= j < |ts| && ts[j].operation == Deploy && u in ts[..i] && u.operation == Deploy
      ensures u != ts[j] && u.deployment != ts[j].deployment
    {
      assert ts[IndexOf(ts[..i], u)] == u;
    }
  }

  lemma Skip(
    ts: seq<TwinDeployment>, rs: seq<Request>, specials: seq<TwinDeployment>, table: map<nat, TwinDeployment>,
    keys: seq<nat>, t: TwinDeployment, r: Request)
    requires ListsSpecials(ts, rs, specials) && ListsPlain(ts, rs, table, keys)
    ensures !IsSpecial(r) ==> ListsSpecials(ts + [t], rs + [r], specials)
    ensures !IsPlain(r) ==> ListsPlain(ts + [t], rs + [r], table, keys)
  {
    assert (rs + [r])[..|rs|] == rs;
    FilterSnoc(rs, r, IsSpecial);
  }

  lemma AddSpecial(ts: seq<TwinDeployment>, rs: seq<Request>, specials: seq<TwinDeployment>, t: TwinDeployment)
    requires ListsSpecials(ts, rs, specials) && FreshOwner(ts, t) && IsSpecial(Snap(t))
    ensures ListsSpecials(ts + [t], rs + [Snap(t)], specials + [t])
  {
    FilterSnoc(rs, Snap(t), IsSpecial);
  }

  lemma AddFirst(
    ts: seq<TwinDeployment>, rs: seq<Request>, table: map<nat, TwinDeployment>, keys: seq<nat>, t: TwinDeployment)
    requires ListsPlain(ts, rs, table, keys) && IsPlain(Snap(t)) && t.nodeId !in table
    ensures ListsPlain(ts + [t], rs + [Snap(t)], table[t.nodeId := t], InsertKey(keys, t.nodeId))
  {
    assert (rs + [Snap(t)])[..|rs|] == rs;
  }

  lemma KeyPresent(rs: seq<Request>, node: nat)
    requires node in Table(rs)
    ensures InsertKey(Nodes(rs), node) == Nodes(rs)
  {
    TableExact(rs);
    NodesExact(rs);
    AscendingUnique(InsertKey(Nodes(rs), node), Nodes(rs));
  }

  /** The first plain request of a node shares its deployment with no other listed request. */
  lemma FirstIsAlone(
    ts: seq<TwinDeployment>, rs: seq<Request>, specials: seq<TwinDeployment>, table: map<nat, TwinDeployment>,
    keys: seq<nat>, node: nat)
    requires OwnsDeployments(ts) && node in table
    requires ListsSpecials(ts, rs, specials) && ListsPlain(ts, rs, table, keys)
    ensures forall k :: k in table && k != node ==> table[k].deployment != table[node].deployment
    ensures forall u :: u in specials ==> u.deployment != table[node].deployment
  {
    TableIsPlain(rs);
    forall k | k in table && k != node
      ensures table[k].deployment != table[node].deployment
    {
      assert table[k].nodeId == k && table[node].nodeId == node;
      OwnedDiffer(ts, table[node], table[k]);
    }
    forall u | u in specials
      ensures u.deployment != table[node].deployment
    {
      FilterMembers(rs, IsSpecial, Snap(specials[IndexOf(specials, u)]));
      OwnedDiffer(ts, table[node], u);
    }
  }

  lemma Extended(
    ts: seq<TwinDeployment>, rs: seq<Request>, table: map<nat, TwinDeployment>, t: TwinDeployment, r: Request)
    requires IsPlain(r) && r.nodeId in table && table.Keys == Table(rs).Keys
    requires forall k :: k in table ==> table[k] in ts && table[k].operation == Deploy
    requires forall k :: k in table && k != r.nodeId ==> Snap(table[k]) == Table(rs)[k]
    requires Snap(table[r.nodeId]) == Table(rs)[r.nodeId].(workloads := Table(rs)[r.nodeId].workloads + r.workloads)
    ensures ListsPlain(ts + [t], rs + [r], table, Nodes(rs))
  {
    KeyPresent(rs, r.nodeId);
    assert (rs + [r])[..|rs|] == rs;
  }

  /** Only the first request's workloads change, and no other listed request sees it. */
  method Extend(
    ts: seq<TwinDeployment>, ghost rs: seq<Request>, ghost specials: seq<TwinDeployment>,
    table: map<nat, TwinDeployment>, ghost keys: seq<nat>, t: TwinDeployment)
    requires OwnsDeployments(ts)
    requires ListsSpecials(ts, rs, specials) && ListsPlain(ts, rs, table, keys)
    requires FreshOwner(ts, t) && IsPlain(Snap(t)) && t.nodeId in table
    modifies table[t.nodeId].deployment`workloads
    ensures ListsSpecials(ts + [t], rs + [old(Snap(t))], specials)
    ensures ListsPlain(ts + [t], rs + [old(Snap(t))], table, keys)
  {
    var first := table[t.nodeId];
    ghost var r := Snap(t);
    FirstIsAlone(ts, rs, specials, table, keys, t.nodeId);
    FilterSnoc(rs, r, IsSpecial);
    first.deployment.workloads := first.deployment.workloads + t.deployment.workloads;
    Extended(ts, rs, table, t, r);
  }

  /** Requests not yet looked at still have the value they came with. */
  ghost predicate Pending(ts: seq<TwinDeployment>, rs: seq<Request>, i: nat)
    reads ts, set t | t in ts :: t.deployment
  {
    && |ts| == |rs|
    && (forall j :: i <= j < |ts| ==> ts[j].operation == rs[j].op)
    && (forall j :: i <= j < |ts| && ts[j].operation == Deploy ==> Snap(ts[j]) == rs[j])
  }

  /** One turn of the first loop, after the requests in `done`. */
  method Place(
    done: seq<TwinDeployment>, t: TwinDeployment, ghost rs: seq<Request>, ghost r: Request,
    specials: seq<TwinDeployment>, table: map<nat, TwinDeployment>, keys: seq<nat>)
    returns (specials': seq<TwinDeployment>, table': map<nat, TwinDeployment>, keys': seq<nat>)
    requires OwnsDeployments(done)
    requires t.operation == r.op && (IsDeploy(r) ==> FreshOwner(done, t) && Snap(t) == r)
    requires ListsSpecials(done, rs, specials) && ListsPlain(done, rs, table, keys)
    modifies (set u | u in done && u.operation == Deploy :: u.deployment)`workloads
    ensures ListsSpecials(done + [t], rs + [r], specials') && ListsPlain(done + [t], rs + [r], table', keys')
  {
    specials', table', keys' := specials, table, keys;
    Skip(done, rs, specials, table, keys, t, r);
    if t.operation != Deploy {
      return;
    }
    var network := AnyNetwork(t.deployment.workloads);
    if network || t.publicIps > 0 {
      AddSpecial(done, rs, specials, t);
      specials' := specials + [t];
    } else if t.nodeId in table {
      Extend(done, rs, specials, table, keys, t);
    } else {
      AddFirst(done, rs, table, keys, t);
      table' := table[t.nodeId := t];
      keys' := InsertKey(keys, t.nodeId);
    }
  }

  lemma PlainAlone(ts: seq<TwinDeployment>, rs: seq<Request>, specials: seq<TwinDeployment>,
                   table: map<nat, TwinDeployment>, plain: seq<TwinDeployment>)
    requires OwnsDeployments(ts) && ListsSpecials(ts, rs, specials) && ListsPlain(ts, rs, table, Nodes(rs))
    requires |plain| == |Nodes(rs)|
    requires forall j :: 0 <= j < |plain| ==> Nodes(rs)[j] in table && plain[j] == table[Nodes(rs)[j]]
    ensures Separate(specials + plain)
  {
    forall i, j | 0 <= i < |specials| && 0 <= j < |plain|
      ensures specials[i] != plain[j] && specials[i].deployment != plain[j].deployment
    {
      FirstIsAlone(ts, rs, specials, table, Nodes(rs), Nodes(rs)[j]);
      assert specials[i] in specials;
    }
    forall i, j | 0 <= i < j < |plain|
      ensures plain[i] != plain[j] && plain[i].deployment != plain[j].deployment
    {
      FirstIsAlone(ts, rs, specials, table, Nodes(rs), Nodes(rs)[i]);
      assert Nodes(rs)[j] in table;
    }
  }

  lemma PlainValues(ts: seq<TwinDeployment>, rs: seq<Request>, specials: seq<TwinDeployment>,
                    table: map<nat, TwinDeployment>, plain: seq<TwinDeployment>)
    requires ListsSpecials(ts, rs, specials) && ListsPlain(ts, rs, table, Nodes(rs))
    requires |plain| == |Nodes(rs)|
    requires forall j :: 0 <= j < |plain| ==> Nodes(rs)[j] in table && plain[j] == table[Nodes(rs)[j]]
    ensures Snaps(plain) == MergedList(rs)
  {
    TableExact(rs);
    forall j | 0 <= j < |plain|
      ensures Snap(plain[j]) == MergedList(rs)[j]
    {
      assert Nodes(rs)[j] in table;
    }
  }

  lemma ListedDeploys(ts: seq<TwinDeployment>, rs: seq<Request>, specials: seq<TwinDeployment>,
                      table: map<nat, TwinDeployment>, plain: seq<TwinDeployment>)
    requires ListsSpecials(ts, rs, specials) && ListsPlain(ts, rs, table, Nodes(rs))
    requires forall t :: t in plain ==> exists k :: k in table && table[k] == t
    ensures forall t :: t in specials + plain ==> t in ts && t.operation == Deploy
  {
  }

  lemma JoinedValues(rs: seq<Request>, specials: seq<TwinDeployment>, plain: seq<TwinDeployment>)
    requires Snaps(specials) == Filter(rs, IsSpecial) && Snaps(plain) == MergedList(rs)
    ensures Snaps(specials + plain) == MergeDeploys(rs)
  {
    assert Snaps(specials + plain) == Snaps(specials) + Snaps(plain);
  }

  lemma ListedValues(ts: seq<TwinDeployment>, rs: seq<Request>, specials: seq<TwinDeployment>,
                     table: map<nat, TwinDeployment>, plain: seq<TwinDeployment>)
    requires ListsSpecials(ts, rs, specials) && ListsPlain(ts, rs, table, Nodes(rs))
    requires |plain| == |Nodes(rs)|
    requires forall j :: 0 <= j < |plain| ==> Nodes(rs)[j] in table && plain[j] == table[Nodes(rs)[j]]
    ensures Snaps(specials + plain) == MergeDeploys(rs)
  {
    PlainValues(ts, rs, specials, table, plain);
    JoinedValues(rs, specials, plain);
  }

  lemma ListedAll(ts: seq<TwinDeployment>, rs: seq<Request>, specials: seq<TwinDeployment>,
                  table: map<nat, TwinDeployment>, all: seq<TwinDeployment>)
    requires OwnsDeployments(ts) && ListsSpecials(ts, rs, specials) && ListsPlain(ts, rs, table, Nodes(rs))
    requires (forall k :: k in Nodes(rs) ==> k in table) && all == specials + InKeyOrder(table, Nodes(rs))
    ensures Snaps(all) == MergeDeploys(rs)
    ensures forall t :: t in all ==> t in ts && t.operation == Deploy
    ensures Separate(all)
  {
    var plain := InKeyOrder(table, Nodes(rs));
    PlainAlone(ts, rs, specials, table, plain);
    ListedValues(ts, rs, specials, table, plain);
    ListedDeploys(ts, rs, specials, table, plain);
  }

  lemma KeysListed(rs: seq<Request>)
    ensures forall k :: k in Nodes(rs) <==> k in Table(rs)
  {
    NodesExact(rs);
    TableExact(rs);
  }

  /** Listing the values of a table by a list of its keys; keys it lacks do not occur. */
  ghost function InKeyOrder<T>(table: map<nat, T>, keys: seq<nat>): (list: seq<T>)
    requires forall k :: k in keys ==> k in table
    ensures |list| == |keys|
    ensures forall j :: 0 <= j < |keys| ==> keys[j] in table && list[j] == table[keys[j]]
  {
    if keys == [] then [] else InKeyOrder(table, keys[..|keys| - 1]) + [table[keys[|keys| - 1]]]
  }

  /** The second loop: one deployment per key, in key order, after the special ones. */
  method AppendInKeyOrder(specials: seq<TwinDeployment>, table: map<nat, TwinDeployment>, keys: seq<nat>)
    returns (deployments: seq<TwinDeployment>)
    requires forall k :: k in keys ==> k in table
    ensures deployments == specials + InKeyOrder(table, keys)
  {
    deployments := specials;
    assert keys[..|keys|] == keys;
    for n := 0 to |keys|
      invariant deployments == specials + InKeyOrder(table, keys[..n])
    {
      assert keys[..n + 1][..n] == keys[..n];
      deployments := deployments + [table[keys[n]]];
    }
  }

  /** The first loop. */
  method GroupByNode(ts: seq<TwinDeployment>, ghost rs: seq<Request>)
    returns (specials: seq<TwinDeployment>, deploymentMap: map<nat, TwinDeployment>, keys: seq<nat>)
    requires OwnsDeployments(ts) && Pending(ts, rs, 0)
    modifies (set t | t in ts && t.operation == Deploy :: t.deployment)`workloads
    ensures ListsSpecials(ts, rs, specials) && ListsPlain(ts, rs, deploymentMap, keys)
  {
    specials, deploymentMap, keys := [], map[], [];
    for i := 0 to |ts|
      invariant Pending(ts, rs, i)
      invariant ListsSpecials(ts[..i], rs[..i], specials) && ListsPlain(ts[..i], rs[..i], deploymentMap, keys)
    {
      PrefixFresh(ts, i);
      PrefixSnoc(ts, i);
      PrefixSnoc(rs, i);
      specials, deploymentMap, keys := Place(ts[..i], ts[i], rs[..i], rs[i], specials, deploymentMap, keys);
    }
    WholePrefix(ts);
    WholePrefix(rs);
  }

  method DeployMerge(ts: seq<TwinDeployment>) returns (deployments: seq<TwinDeployment>)
    requires OwnsDeployments(ts)
    modifies (set t | t in ts && t.operation == Deploy :: t.deployment)`workloads
    ensures Snaps(deployments) == MergeDeploys(old(Snaps(ts)))
    ensures forall t :: t in deployments ==> t in ts && t.operation == Deploy
    ensures Separate(deployments)
  {
    hide Filter, Table, InKeyOrder, MergeDeploys;
    ghost var rs := Snaps(ts);
    var specials, deploymentMap, keys := GroupByNode(ts, rs);
    KeysListed(rs);
    deployments := AppendInKeyOrder(specials, deploymentMap, keys);
    ListedAll(ts, rs, specials, deploymentMap, deployments);
  }
}
