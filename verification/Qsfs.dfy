/** `qsfs_zdbs`: the zdbs of a quantum safe file system, dealt round the nodes, and found again. */
module Qsfs {
  import opened Models
  import opened Sequences
  import opened DeployMerge

  datatype Options = Options(name: string, count: nat, nodeIds: seq<nat>, diskSize: nat, secret: string, rest: string)

  /** Four zdbs hold the metadata. */
  const META := 4

  function Digit(d: nat): char
    requires d < 10
  {
    ['0', '1', '2', '3', '4', '5', '6', '7', '8', '9'][d]
  }

  function Decimal(n: nat): string {
    if n < 10 then [Digit(n)] else Decimal(n / 10) + [Digit(n % 10)]
  }

  function ModeOf(o: Options, i: nat): ZdbMode { if i > o.count then User else Seq }

  function NodeOf(o: Options, i: nat): nat
    requires o.nodeIds != [] && i > 0
  {
    o.nodeIds[(i - 1) % |o.nodeIds|]
  }

  function ZdbOf(o: Options, i: nat): Workload {
    Workload(o.name + Decimal(i), Zdb, 0, o.diskSize * 1024 * 1024 * 1024, 0, [], "", None, None, ModeOf(o, i),
        o.secret)
  }

  function RequestOf(o: Options, i: nat): Request
    requires o.nodeIds != [] && i > 0
  {
    Request(Deploy, 0, 0, [ZdbOf(o, i)], 0, NodeOf(o, i), None, o.rest)
  }

  /** The requests for zdbs 1 up to `n`. */
  function Requests(o: Options, n: nat): seq<Request>
    requires o.nodeIds != []
  {
    seq(n, j requires 0 <= j < n => RequestOf(o, j + 1))
  }

  datatype Result<+T> = Ok(value: T) | TooFew | NoRoom(node: nat)

  /** `_createDeployment`; `hasRoom` is the node's answer for the disk. */
  method CreateDeployment(o: Options, hasRoom: nat -> bool) returns (r: Result<seq<TwinDeployment>>)
    requires o.nodeIds != []
    ensures r.TooFew? <==> o.count < 3
    ensures r.NoRoom? ==> exists i :: 1 <= i <= o.count + META && r.node == NodeOf(o, i) && !hasRoom(NodeOf(o, i)) &&
                            forall j :: 1 <= j < i ==> hasRoom(NodeOf(o, j))
    ensures r.Ok? ==> (forall i :: 1 <= i <= o.count + META ==> hasRoom(NodeOf(o, i)))
    ensures r.Ok? ==> Snaps(r.value) == Requests(o, o.count + META) && Separate(r.value)
    ensures r.Ok? ==> forall t :: t in r.value ==> fresh(t) && fresh(t.deployment)
  {
    if o.count < 3 {
      return TooFew;
    }
    var count := o.count + META;
    var twinDeployments: seq<TwinDeployment> := [];
    for i := 1 to count + 1
      invariant |twinDeployments| == i - 1
      invariant forall j :: 1 <= j < i ==> hasRoom(NodeOf(o, j))
      invariant forall t :: t in twinDeployments ==> fresh(t) && fresh(t.deployment)
      invariant Separate(twinDeployments)
      invariant forall j :: 0 <= j < i - 1 ==> Snap(twinDeployments[j]) == RequestOf(o, j + 1)
    {
      var mode := Seq;
      if i > o.count {
        mode := User;
      }
      var nodeId := NodeOf(o, i);
      if !hasRoom(nodeId) {
        return NoRoom(nodeId);
      }
      var d := new Deployment(0, 0, [ZdbOf(o, i).(mode := mode)], o.rest);
      var t := new TwinDeployment(d, Deploy, 0, nodeId, None);
      twinDeployments := twinDeployments + [t];
    }
    r := Ok(twinDeployments);
  }

  // ---- Names ----

  lemma DigitInjective(a: nat, b: nat)
    requires a < 10 && b < 10 && Digit(a) == Digit(b)
    ensures a == b
  {
  }

  lemma {:induction false} DecimalInjective(a: nat, b: nat)
    requires Decimal(a) == Decimal(b)
    ensures a == b
  {
    var x, y := Decimal(a), Decimal(b);
    DecimalNonempty(a / 10);
    DecimalNonempty(b / 10);
    assert x[|x| - 1] == Digit(a % 10) && y[|y| - 1] == Digit(b % 10);
    DigitInjective(a % 10, b % 10);
    if a >= 10 && b >= 10 {
      assert x[..|x| - 1] == Decimal(a / 10) && y[..|y| - 1] == Decimal(b / 10);
      DecimalInjective(a / 10, b / 10);
    }
  }

  lemma {:induction false} DecimalNonempty(n: nat)
    ensures |Decimal(n)| >= 1
  {
  }

  /** No two zdbs share a name. */
  lemma NamesDiffer(o: Options, i: nat, j: nat)
    requires i != j
    ensures ZdbOf(o, i).name != ZdbOf(o, j).name
  {
    var x, y := o.name + Decimal(i), o.name + Decimal(j);
    if x == y {
      assert x[|o.name|..] == Decimal(i) && y[|o.name|..] == Decimal(j);
      DecimalInjective(i, j);
    }
  }

  // ---- Placement ----

  predicate DistinctNodes(o: Options) {
    o.nodeIds != [] && forall i, j :: 0 <= i < j < |o.nodeIds| ==> o.nodeIds[i] != o.nodeIds[j]
  }

  lemma RequestsSnoc(o: Options, n: nat)
    requires o.nodeIds != []
    ensures Requests(o, n + 1) == Requests(o, n) + [RequestOf(o, n + 1)]
  {
  }

  /** How many of the numbers below `n` are `m` modulo `size`. */
  function Share(n: nat, size: nat, m: nat): nat
    requires m < size
  {
    n / size + (if m < n % size then 1 else 0)
  }

  lemma ShareStep(n: nat, size: nat, m: nat)
    requires m < size
    ensures Share(n + 1, size, m) == Share(n, size, m) + (if n % size == m then 1 else 0)
  {
    var q, r := n / size, n % size;
    assert n == q * size + r;
    if r + 1 < size {
      Divides(n + 1, size, q, r + 1);
    } else {
      assert (q + 1) * size == q * size + size;
      Divides(n + 1, size, q + 1, 0);
    }
  }

  lemma Divides(n: nat, size: nat, q: nat, r: nat)
    requires r < size && n == q * size + r
    ensures n / size == q && n % size == r
  {
    var p, s := n / size, n % size;
    assert n == p * size + s;
    if p < q {
      Multiples(p, q, size);
      assert false;
    } else if p > q {
      Multiples(q, p, size);
      assert false;
    }
  }

  lemma {:induction false} Multiples(p: nat, q: nat, size: nat)
    requires p < q
    ensures p * size + size <= q * size
  {
    assert q * size - p * size == (q - p) * size;
    if q > p + 1 {
      Multiples(p, q - 1, size);
    }
  }

  lemma WorkloadsOnSnoc(rs: seq<Request>, r: Request, node: nat)
    ensures WorkloadsOn(rs + [r], node) == WorkloadsOn(rs, node) + (if IsPlainOn(r, node) then r.workloads else [])
  {
    assert (rs + [r])[..|rs|] == rs;
  }

  lemma DealtTo(o: Options, n: nat, m: nat)
    requires DistinctNodes(o) && m < |o.nodeIds|
    ensures RequestOf(o, n + 1).nodeId == o.nodeIds[m] <==> n % |o.nodeIds| == m
  {
  }

  /** Each node receives the floor or the ceiling of the zdbs over the nodes: the first ones of the list one
      more when they do not divide evenly. */
  lemma {:induction false} PlacementIsBalanced(o: Options, n: nat, m: nat)
    requires DistinctNodes(o) && m < |o.nodeIds|
    ensures |WorkloadsOn(Requests(o, n), o.nodeIds[m])| == Share(n, |o.nodeIds|, m)
  {
    if n > 0 {
      PlacementIsBalanced(o, n - 1, m);
      RequestsSnoc(o, n - 1);
      WorkloadsOnSnoc(Requests(o, n - 1), RequestOf(o, n), o.nodeIds[m]);
      ShareStep(n - 1, |o.nodeIds|, m);
      PlainRequest(o, n);
      DealtTo(o, n - 1, m);
    } else {
      Divides(0, |o.nodeIds|, 0, 0);
    }
  }

  lemma PlainRequest(o: Options, i: nat)
    requires o.nodeIds != [] && i > 0
    ensures IsPlain(RequestOf(o, i))
  {
  }

  // ---- Merged and found again ----

  function InMode(mode: ZdbMode): ((nat, Workload)) -> bool {
    (p: (nat, Workload)) => p.1.mode == mode
  }

  lemma PairsNext(o: Options, n: nat)
    requires o.nodeIds != []
    ensures Pairs(Requests(o, n + 1)) == Pairs(Requests(o, n)) + [(NodeOf(o, n + 1), ZdbOf(o, n + 1))]
  {
    var last := RequestOf(o, n + 1);
    RequestsSnoc(o, n);
    PairsSnoc(Requests(o, n), last);
    assert Placed(last.nodeId, last.workloads) == [(last.nodeId, ZdbOf(o, n + 1))];
  }

  predicate Deals(o: Options, ps: seq<(nat, Workload)>)
    requires o.nodeIds != []
  {
    forall j :: 0 <= j < |ps| ==> ps[j] == (NodeOf(o, j + 1), ZdbOf(o, j + 1))
  }

  lemma NoPairs(o: Options)
    requires o.nodeIds != []
    ensures Pairs(Requests(o, 0)) == []
  {
  }

  lemma {:induction false} PairsExact(o: Options, n: nat)
    requires o.nodeIds != []
    ensures |Pairs(Requests(o, n))| == n && Deals(o, Pairs(Requests(o, n)))
  {
    hide Pairs, NodeOf, ZdbOf;
    if n == 0 {
      NoPairs(o);
    } else {
      PairsExact(o, n - 1);
      PairsNext(o, n - 1);
    }
  }

  /** Zdbs numbered from 1: those past the count are the metadata ones. */
  lemma {:induction false} ModesCount(o: Options, ps: seq<(nat, Workload)>)
    requires forall j :: 0 <= j < |ps| ==> ps[j].1 == ZdbOf(o, j + 1)
    ensures |Filter(ps, InMode(User))| == if |ps| > o.count then |ps| - o.count else 0
    ensures |Filter(ps, InMode(Seq))| == if |ps| > o.count then o.count else |ps|
  {
    if ps != [] {
      ModesCount(o, ps[..|ps| - 1]);
      FilterLast(ps, InMode(User));
      FilterLast(ps, InMode(Seq));
    }
  }

  lemma FilterPermuted(xs: seq<(nat, Workload)>, ys: seq<(nat, Workload)>, keep: ((nat, Workload)) -> bool)
    requires multiset(xs) == multiset(ys)
    ensures |Filter(xs, keep)| == |Filter(ys, keep)|
  {
    var a, b := Filter(xs, keep), Filter(ys, keep);
    forall x: (nat, Workload) ensures multiset(a)[x] == multiset(b)[x] {
      FilterMultiplicity(xs, keep, x);
      FilterMultiplicity(ys, keep, x);
    }
    assert multiset(a) == multiset(b);
    PermutationMembers(a, b);
  }

  lemma AllPlain(o: Options, n: nat)
    requires o.nodeIds != []
    ensures Filter(Requests(o, n), IsSpecial) == []
  {
    forall r | r in Requests(o, n) ensures !IsSpecial(r) {
      var j :| 0 <= j < n && r == RequestOf(o, j + 1);
      PlainRequest(o, j + 1);
    }
    FilterNone(Requests(o, n), IsSpecial);
  }

  lemma MergedEntry(o: Options, n: nat, i: nat)
    requires o.nodeIds != [] && i < |MergeDeploys(Requests(o, n))|
    ensures var rs, out := Requests(o, n), MergeDeploys(Requests(o, n));
      && |out| == |Nodes(rs)| && out[i].nodeId == Nodes(rs)[i] && HasPlainOn(rs, Nodes(rs)[i])
      && out[i].op == Deploy && out[i].workloads == WorkloadsOn(rs, Nodes(rs)[i])
  {
    var rs := Requests(o, n);
    AllPlain(o, n);
    assert MergeDeploys(rs) == MergedList(rs);
    NodesExact(rs);
    assert Nodes(rs)[i] in Nodes(rs);
    MergedIsPlain(rs, Nodes(rs)[i]);
  }

  /** The planner leaves one deployment for each node used, holding exactly the zdbs dealt to that node. */
  lemma OneDeploymentPerNode(o: Options, n: nat)
    requires DistinctNodes(o)
    ensures var rs, out := Requests(o, n), MergeDeploys(Requests(o, n));
      && (forall i, j :: 0 <= i < j < |out| ==> out[i].nodeId != out[j].nodeId)
      && (forall i :: 0 <= i < |out| ==> out[i].op == Deploy && out[i].workloads == WorkloadsOn(rs, out[i].nodeId))
      && (forall node :: HasPlainOn(rs, node) <==> exists i :: 0 <= i < |out| && out[i].nodeId == node)
  {
    var rs, out := Requests(o, n), MergeDeploys(Requests(o, n));
    forall i | 0 <= i < |out|
      ensures |out| == |Nodes(rs)| && out[i].nodeId == Nodes(rs)[i] && HasPlainOn(rs, out[i].nodeId)
      ensures out[i].op == Deploy && out[i].workloads == WorkloadsOn(rs, out[i].nodeId)
    {
      MergedEntry(o, n, i);
    }
    forall node | HasPlainOn(rs, node) ensures exists i :: 0 <= i < |out| && out[i].nodeId == node {
      NodesExact(rs);
      var i := IndexOf(Nodes(rs), node);
      assert out[i].nodeId == node;
    }
  }

  // ---- getZdbs ----

  /** What `getZdbs` reads of a deployment. */
  datatype Stored = Stored(contractId: nat, workloads: seq<Workload>)

  datatype Backend = Backend(secret: string, size: nat, contractId: nat, nodeId: nat)

  datatype Zdbs = Zdbs(meta: seq<Backend>, groups: seq<Backend>)

  datatype Found = Found(zdb: Workload, contractId: nat, nodeId: nat)

  function ZdbsIn(d: Stored, nodeOf: nat -> nat, n: nat): seq<Found>
    requires n <= |d.workloads|
  {
    if n == 0 then []
    else
      ZdbsIn(d, nodeOf, n - 1) +
      (if d.workloads[n - 1].kind == Zdb then [Found(d.workloads[n - 1], d.contractId, nodeOf(d.contractId))] else [])
  }

  function AllZdbs(ds: seq<Stored>, nodeOf: nat -> nat): seq<Found> {
    if ds == [] then []
    else AllZdbs(ds[..|ds| - 1], nodeOf) + ZdbsIn(ds[|ds| - 1], nodeOf, |ds[|ds| - 1].workloads|)
  }

  function BackendOf(f: Found): Backend { Backend(f.zdb.body, f.zdb.size, f.contractId, f.nodeId) }

  function Backends(fs: seq<Found>, mode: ZdbMode): seq<Backend> {
    if fs == [] then []
    else Backends(fs[..|fs| - 1], mode) + (if fs[|fs| - 1].zdb.mode == mode then [BackendOf(fs[|fs| - 1])] else [])
  }

  method GetZdbs(deployments: seq<Stored>, nodeOf: nat -> nat) returns (r: Zdbs)
    ensures r == Zdbs(Backends(AllZdbs(deployments, nodeOf), User), Backends(AllZdbs(deployments, nodeOf), Seq))
  {
    var zdbs: seq<Found> := [];
    for i := 0 to |deployments|
      invariant zdbs == AllZdbs(deployments[..i], nodeOf)
    {
      var d := deployments[i];
      assert deployments[..i + 1][..i] == deployments[..i];
      for j := 0 to |d.workloads|
        invariant zdbs == AllZdbs(deployments[..i], nodeOf) + ZdbsIn(d, nodeOf, j)
      {
        if d.workloads[j].kind != Zdb {
          continue;
        }
        zdbs := zdbs + [Found(d.workloads[j], d.contractId, nodeOf(d.contractId))];
      }
    }
    assert deployments[..|deployments|] == deployments;
    var meta: seq<Backend>, groups: seq<Backend> := [], [];
    for i := 0 to |zdbs|
      invariant meta == Backends(zdbs[..i], User) && groups == Backends(zdbs[..i], Seq)
    {
      assert zdbs[..i + 1][..i] == zdbs[..i];
      if zdbs[i].zdb.mode == User {
        meta := meta + [BackendOf(zdbs[i])];
      } else {
        groups := groups + [BackendOf(zdbs[i])];
      }
    }
    assert zdbs[..|zdbs|] == zdbs;
    r := Zdbs(meta, groups);
  }

  /** The merged deployments as the nodes store them, under any contract ids. */
  predicate Stores(ds: seq<Stored>, rs: seq<Request>) {
    |ds| == |rs| && forall i :: 0 <= i < |ds| ==> ds[i].workloads == rs[i].workloads
  }

  lemma {:induction false} BackendsAppend(a: seq<Found>, b: seq<Found>, mode: ZdbMode)
    ensures |Backends(a + b, mode)| == |Backends(a, mode)| + |Backends(b, mode)|
  {
    if b == [] {
      assert a + b == a;
    } else {
      BackendsAppend(a, b[..|b| - 1], mode);
      assert (a + b)[..|a + b| - 1] == a + b[..|b| - 1];
    }
  }

  lemma {:induction false} BackendsIn(d: Stored, nodeOf: nat -> nat, node: nat, n: nat, mode: ZdbMode)
    requires n <= |d.workloads| && forall i :: 0 <= i < n ==> d.workloads[i].kind == Zdb
    ensures |Backends(ZdbsIn(d, nodeOf, n), mode)| == |Filter(Placed(node, d.workloads[..n]), InMode(mode))|
  {
    if n > 0 {
      BackendsIn(d, nodeOf, node, n - 1, mode);
      var before, w := d.workloads[..n - 1], d.workloads[n - 1];
      assert Placed(node, d.workloads[..n]) == Placed(node, before) + [(node, w)];
      FilterSnoc(Placed(node, before), (node, w), InMode(mode));
      var found := ZdbsIn(d, nodeOf, n - 1);
      assert (found + [Found(w, d.contractId, nodeOf(d.contractId))])[..|found|] == found;
    }
  }

  lemma StoredCount(d: Stored, r: Request, nodeOf: nat -> nat, mode: ZdbMode)
    requires d.workloads == r.workloads && IsZdbs(r)
    ensures |Backends(ZdbsIn(d, nodeOf, |d.workloads|), mode)| == |Filter(Placed(r.nodeId, r.workloads), InMode(mode))|
  {
    BackendsIn(d, nodeOf, r.nodeId, |d.workloads|, mode);
    assert d.workloads[..|d.workloads|] == r.workloads;
  }

  lemma PairsLast(rs: seq<Request>, n: nat)
    requires |rs| == n + 1 && rs[n].op == Deploy
    ensures Pairs(rs) == Pairs(rs[..n]) + Placed(rs[n].nodeId, rs[n].workloads)
  {
  }

  predicate IsZdbs(r: Request) { r.op == Deploy && forall w :: w in r.workloads ==> w.kind == Zdb }

  predicate OnlyZdbs(rs: seq<Request>) {
    forall i :: 0 <= i < |rs| ==> IsZdbs(rs[i])
  }

  lemma BackendsStep(a: seq<Found>, b: seq<Found>, ps: seq<(nat, Workload)>, qs: seq<(nat, Workload)>, mode: ZdbMode)
    requires |Backends(a, mode)| == |Filter(ps, InMode(mode))| && |Backends(b, mode)| == |Filter(qs, InMode(mode))|
    ensures |Backends(a + b, mode)| == |Filter(ps + qs, InMode(mode))|
  {
    BackendsAppend(a, b, mode);
    FilterAppend(ps, qs, InMode(mode));
  }

  lemma {:induction false} BackendsCount(ds: seq<Stored>, rs: seq<Request>, nodeOf: nat -> nat, mode: ZdbMode)
    requires Stores(ds, rs) && OnlyZdbs(rs)
    ensures |Backends(AllZdbs(ds, nodeOf), mode)| == |Filter(Pairs(rs), InMode(mode))|
  {
    if ds != [] {
      var n := |ds| - 1;
      BackendsCount(ds[..n], rs[..n], nodeOf, mode);
      StoredCount(ds[n], rs[n], nodeOf, mode);
      PairsLast(rs, n);
      BackendsStep(AllZdbs(ds[..n], nodeOf), ZdbsIn(ds[n], nodeOf, |ds[n].workloads|), Pairs(rs[..n]),
          Placed(rs[n].nodeId, rs[n].workloads), mode);
    }
  }

  lemma AllAreZdbs(o: Options, n: nat)
    requires DistinctNodes(o)
    ensures OnlyZdbs(MergeDeploys(Requests(o, n)))
  {
    var out := MergeDeploys(Requests(o, n));
    forall i | 0 <= i < |out| ensures IsZdbs(out[i]) {
      MergedEntry(o, n, i);
      forall w | w in out[i].workloads ensures w.kind == Zdb {
        ZdbsOn(o, n, out[i].nodeId, w);
      }
    }
  }

  lemma {:induction false} ZdbsOn(o: Options, n: nat, node: nat, w: Workload)
    requires o.nodeIds != [] && w in WorkloadsOn(Requests(o, n), node)
    ensures w.kind == Zdb
  {
    if n > 0 {
      RequestsSnoc(o, n - 1);
      assert Requests(o, n)[..n - 1] == Requests(o, n - 1);
      if w in WorkloadsOn(Requests(o, n - 1), node) {
        ZdbsOn(o, n - 1, node, w);
      }
    }
  }

  /** What was dealt out, merged and stored comes back whole: four metadata backends and `count` for the
      groups. */
  lemma EverythingIsFound(o: Options, ds: seq<Stored>, nodeOf: nat -> nat)
    requires DistinctNodes(o) && Stores(ds, MergeDeploys(Requests(o, o.count + META)))
    ensures |Backends(AllZdbs(ds, nodeOf), User)| == META
    ensures |Backends(AllZdbs(ds, nodeOf), Seq)| == o.count
  {
    var n := o.count + META;
    var rs := Requests(o, n);
    var out := MergeDeploys(rs);
    AllAreZdbs(o, n);
    MergeConserves(rs);
    PairsExact(o, n);
    ModesCount(o, Pairs(rs));
    BackendsCount(ds, out, nodeOf, User);
    BackendsCount(ds, out, nodeOf, Seq);
    FilterPermuted(Pairs(out), Pairs(rs), InMode(User));
    FilterPermuted(Pairs(out), Pairs(rs), InMode(Seq));
  }
}
