/** `checkFarmIps` and `_checkNodeCapacity`: what a plan asks of each farm and each node. */
module ResourceChecks {
  import opened Models
  import opened Sequences
  import opened DeployMerge

  // ---- Public IPs per farm ----

  predicate AsksFarm(r: Request, farmOf: map<nat, nat>, farm: nat) {
    r.op == Deploy && r.publicIps > 0 && r.nodeId in farmOf && farmOf[r.nodeId] == farm
  }

  /** The public IPs a plan asks of a farm. A request for an unknown node asks nothing. */
  function Demand(rs: seq<Request>, farmOf: map<nat, nat>, farm: nat): nat {
    if rs == [] then 0
    else
      Demand(rs[..|rs| - 1], farmOf, farm) +
      (if AsksFarm(rs[|rs| - 1], farmOf, farm) then rs[|rs| - 1].publicIps else 0)
  }

  /** Addresses of a farm that no contract holds. */
  function FreeIps(holders: seq<nat>): nat { |Filter(holders, h => h == 0)| }

  /** The table the first loop fills: the demand of every farm asked for something, in the order asked. */
  ghost predicate Tallies(rs: seq<Request>, farmOf: map<nat, nat>, table: map<nat, nat>, farms: seq<nat>) {
    && (forall f :: f in farms <==> f in table)
    && (forall f :: Demand(rs, farmOf, f) > 0 ==> f in table)
    && (forall f :: f in table ==> table[f] == Demand(rs, farmOf, f))
  }

  lemma DemandSnoc(rs: seq<Request>, r: Request, farmOf: map<nat, nat>, farm: nat)
    ensures Demand(rs + [r], farmOf, farm) ==
              Demand(rs, farmOf, farm) + (if AsksFarm(r, farmOf, farm) then r.publicIps else 0)
  {
    assert (rs + [r])[..|rs|] == rs;
  }

  lemma TallyStep(rs: seq<Request>, r: Request, farmOf: map<nat, nat>, table: map<nat, nat>, farms: seq<nat>)
    requires Tallies(rs, farmOf, table, farms)
    ensures !(r.op == Deploy && r.publicIps > 0 && r.nodeId in farmOf) ==> Tallies(rs + [r], farmOf, table, farms)
    ensures r.op == Deploy && r.publicIps > 0 && r.nodeId in farmOf ==>
              var f := farmOf[r.nodeId];
              var before := if f in table then table[f] else 0;
              Tallies(rs + [r], farmOf, table[f := before + r.publicIps], if f in table then farms else farms + [f])
  {
    forall f
      ensures Demand(rs + [r], farmOf, f) == Demand(rs, farmOf, f) + (if AsksFarm(r, farmOf, f) then r.publicIps else 0)
    {
      DemandSnoc(rs, r, farmOf, f);
    }
  }

  method TallyFarms(rs: seq<Request>, farmOf: map<nat, nat>) returns (farmIPs: map<nat, nat>, farms: seq<nat>)
    ensures Tallies(rs, farmOf, farmIPs, farms)
  {
    farmIPs, farms := map[], [];
    for i := 0 to |rs|
      invariant Tallies(rs[..i], farmOf, farmIPs, farms)
    {
      var r := rs[i];
      assert rs[..i + 1] == rs[..i] + [r];
      TallyStep(rs[..i], r, farmOf, farmIPs, farms);
      if r.op != Deploy || r.publicIps == 0 || r.nodeId !in farmOf {
        continue;
      }
      var farm := farmOf[r.nodeId];
      if farm !in farmIPs {
        farms := farms + [farm];
        farmIPs := farmIPs[farm := r.publicIps];
      } else {
        farmIPs := farmIPs[farm := farmIPs[farm] + r.publicIps];
      }
    }
    assert rs[..|rs|] == rs;
  }

  /** Accepts exactly the plans whose demand fits every farm; otherwise names a farm it does not fit. */
  method CheckFarmIps(rs: seq<Request>, farmOf: map<nat, nat>, holders: nat -> seq<nat>) returns (short: Option<nat>)
    ensures short.None? <==> forall farm :: Demand(rs, farmOf, farm) <= FreeIps(holders(farm))
    ensures short.Some? ==> Demand(rs, farmOf, short.value) > FreeIps(holders(short.value))
  {
    var farmIPs, farms := TallyFarms(rs, farmOf);
    for i := 0 to |farms|
      invariant forall k :: 0 <= k < i ==> Demand(rs, farmOf, farms[k]) <= FreeIps(holders(farms[k]))
    {
      assert farms[i] in farmIPs;
      if FreeIps(holders(farms[i])) < farmIPs[farms[i]] {
        return Some(farms[i]);
      }
    }
    short := None;
  }

  // ---- Resources per node ----

  /** The workloads of a request that count against its node: all of a new deployment, the changed ones of an
      update, none of a deletion. */
  function Counted(r: Request): seq<Workload> {
    match r.op
    case Deploy => r.workloads
    case Update => Filter(r.workloads, (w: Workload) => w.version == r.version)
    case Delete => []
  }

  function CountedOn(rs: seq<Request>, node: nat): seq<Workload> {
    if rs == [] then []
    else CountedOn(rs[..|rs| - 1], node) + (if rs[|rs| - 1].nodeId == node then Counted(rs[|rs| - 1]) else [])
  }

  function SumOf(ws: seq<Workload>, amount: Workload -> nat): nat {
    if ws == [] then 0 else SumOf(ws[..|ws| - 1], amount) + amount(ws[|ws| - 1])
  }

  function OnSsd(w: Workload): nat { if w.kind == ZMachine || w.kind == ZMount || w.kind == Volume then w.size else 0 }

  function OnHdd(w: Workload): nat { if w.kind == Zdb then w.size else 0 }

  function InMemory(w: Workload): nat { if w.kind == ZMachine then w.memory else 0 }

  predicate IsRootfs(w: Workload) { w.kind == ZMachine }

  predicate IsSsd(w: Workload) { w.kind == ZMount || w.kind == Volume }

  predicate IsHdd(w: Workload) { w.kind == Zdb }

  function Sizes(ws: seq<Workload>, wanted: Workload -> bool): seq<nat> {
    var picked := Filter(ws, wanted);
    seq(|picked|, i requires 0 <= i < |picked| => picked[i].size)
  }

  /** Totals, and the disks one by one for the storage pools. */
  datatype Needs = Needs(hru: nat, sru: nat, mru: nat, rootfs: seq<nat>, ssd: seq<nat>, hdd: seq<nat>)

  function NeedsOf(ws: seq<Workload>): Needs {
    Needs(SumOf(ws, OnHdd), SumOf(ws, OnSsd), SumOf(ws, InMemory),
          Sizes(ws, IsRootfs), Sizes(ws, IsSsd), Sizes(ws, IsHdd))
  }

  function Total(xs: seq<nat>): nat {
    if xs == [] then 0 else Total(xs[..|xs| - 1]) + xs[|xs| - 1]
  }

  lemma SizesSnoc(ws: seq<Workload>, w: Workload, wanted: Workload -> bool)
    ensures Sizes(ws + [w], wanted) == if wanted(w) then Sizes(ws, wanted) + [w.size] else Sizes(ws, wanted)
  {
    FilterSnoc(ws, w, wanted);
  }

  lemma SumSnoc(ws: seq<Workload>, w: Workload, amount: Workload -> nat)
    ensures SumOf(ws + [w], amount) == SumOf(ws, amount) + amount(w)
  {
    assert (ws + [w])[..|ws|] == ws;
  }

  lemma NeedsSnoc(ws: seq<Workload>, w: Workload)
    ensures var before, after := NeedsOf(ws), NeedsOf(ws + [w]);
      && after.hru == before.hru + OnHdd(w) && after.sru == before.sru + OnSsd(w) &&
           after.mru == before.mru + InMemory(w)
      && after.rootfs == before.rootfs + (if w.kind == ZMachine then [w.size] else [])
      && after.ssd == before.ssd + (if w.kind == ZMount || w.kind == Volume then [w.size] else [])
      && after.hdd == before.hdd + (if w.kind == Zdb then [w.size] else [])
  {
    SumSnoc(ws, w, OnHdd);
    SumSnoc(ws, w, OnSsd);
    SumSnoc(ws, w, InMemory);
    SizesSnoc(ws, w, IsRootfs);
    SizesSnoc(ws, w, IsSsd);
    SizesSnoc(ws, w, IsHdd);
  }

  method GatherWorkloads(rs: seq<Request>, node: nat) returns (ws: seq<Workload>)
    ensures ws == CountedOn(rs, node)
  {
    ws := [];
    for i := 0 to |rs|
      invariant ws == CountedOn(rs[..i], node)
    {
      assert rs[..i + 1][..i] == rs[..i];
      if rs[i].nodeId == node {
        ws := ws + Counted(rs[i]);
      }
    }
    assert rs[..|rs|] == rs;
  }

  /** The loop over the workloads of a node. */
  method AddUp(ws: seq<Workload>) returns (n: Needs)
    ensures n == NeedsOf(ws)
  {
    var hru: nat, sru: nat, mru: nat := 0, 0, 0;
    var rootfs: seq<nat>, ssd: seq<nat>, hdd: seq<nat> := [], [], [];
    for i := 0 to |ws|
      invariant Needs(hru, sru, mru, rootfs, ssd, hdd) == NeedsOf(ws[..i])
    {
      var w := ws[i];
      assert ws[..i + 1] == ws[..i] + [w];
      NeedsSnoc(ws[..i], w);
      if w.kind == ZMachine {
        rootfs := rootfs + [w.size];
        sru := sru + w.size;
      }
      if w.kind == ZMount || w.kind == Volume {
        ssd := ssd + [w.size];
        sru := sru + w.size;
      }
      if w.kind == Zdb {
        hdd := hdd + [w.size];
        hru := hru + w.size;
      }
      if w.kind == ZMachine {
        mru := mru + w.memory;
      }
    }
    assert ws[..|ws|] == ws;
    n := Needs(hru, sru, mru, rootfs, ssd, hdd);
  }

  datatype Verdict = Fits | TooBig | NoPool

  /** `fits` and `pools` are what the node answers. Nothing is asked for a node without workloads, and the
      pools are asked only when there are disks. */
  method CheckNodeCapacity(rs: seq<Request>, node: nat, fits: Needs -> bool, pools: Needs -> bool) returns (v: Verdict)
    ensures var ws := CountedOn(rs, node);
      var n := NeedsOf(ws);
      && (v == TooBig <==> ws != [] && !fits(n))
      && (v == NoPool <==> ws != [] && fits(n) && n.rootfs + n.ssd + n.hdd != [] && !pools(n))
  {
    var workloads := GatherWorkloads(rs, node);
    var n := AddUp(workloads);
    if workloads != [] && !fits(n) {
      return TooBig;
    }
    if workloads != [] && (|n.rootfs| > 0 || |n.ssd| > 0 || |n.hdd| > 0) && !pools(n) {
      return NoPool;
    }
    v := Fits;
  }

  lemma TotalSnoc(xs: seq<nat>, x: nat)
    ensures Total(xs + [x]) == Total(xs) + x
  {
    assert (xs + [x])[..|xs|] == xs;
  }

  function OnRootfs(w: Workload): nat { if IsRootfs(w) then w.size else 0 }

  function OnMounts(w: Workload): nat { if IsSsd(w) then w.size else 0 }

  lemma {:induction false} SumIsTotal(ws: seq<Workload>, amount: Workload -> nat, wanted: Workload -> bool)
    requires forall w :: amount(w) == if wanted(w) then w.size else 0
    ensures SumOf(ws, amount) == Total(Sizes(ws, wanted))
  {
    if ws != [] {
      var front, w := ws[..|ws| - 1], ws[|ws| - 1];
      SumIsTotal(front, amount, wanted);
      FilterLast(ws, wanted);
      if wanted(w) {
        assert Sizes(ws, wanted) == Sizes(front, wanted) + [w.size];
        TotalSnoc(Sizes(front, wanted), w.size);
      }
    }
  }

  lemma {:induction false} SsdSplits(ws: seq<Workload>)
    ensures SumOf(ws, OnSsd) == SumOf(ws, OnRootfs) + SumOf(ws, OnMounts)
  {
    if ws != [] {
      SsdSplits(ws[..|ws| - 1]);
    }
  }

  /** The totals are the sums of the disks. */
  lemma TotalsAreDisks(ws: seq<Workload>)
    ensures var n := NeedsOf(ws); n.sru == Total(n.rootfs) + Total(n.ssd) && n.hru == Total(n.hdd)
  {
    SumIsTotal(ws, OnRootfs, IsRootfs);
    SumIsTotal(ws, OnMounts, IsSsd);
    SumIsTotal(ws, OnHdd, IsHdd);
    SsdSplits(ws);
  }

  // ---- The checks do not see deployMerge ----

  lemma {:induction false} DemandIsSpecial(rs: seq<Request>, farmOf: map<nat, nat>, farm: nat)
    ensures Demand(rs, farmOf, farm) == Demand(Filter(rs, IsSpecial), farmOf, farm)
  {
    if rs != [] {
      var front, last := rs[..|rs| - 1], rs[|rs| - 1];
      DemandIsSpecial(front, farmOf, farm);
      FilterLast(rs, IsSpecial);
      if IsSpecial(last) {
        DemandSnoc(Filter(front, IsSpecial), last, farmOf, farm);
      }
    }
  }

  /** Merging the deployments asks every farm for the same number of addresses. */
  lemma MergeKeepsDemand(rs: seq<Request>, farmOf: map<nat, nat>, farm: nat)
    ensures Demand(MergeDeploys(rs), farmOf, farm) == Demand(rs, farmOf, farm)
  {
    MergeNormalises(rs);
    DemandIsSpecial(rs, farmOf, farm);
    DemandIsSpecial(MergeDeploys(rs), farmOf, farm);
  }

  /** What a list of deployments puts on a node: that of the special ones, and the plain workloads. */
  lemma {:induction false} CountedSplit(rs: seq<Request>, node: nat, w: Workload)
    requires forall r :: r in rs ==> r.op == Deploy
    ensures multiset(CountedOn(rs, node))[w] ==
              multiset(CountedOn(Filter(rs, IsSpecial), node))[w] + multiset(WorkloadsOn(rs, node))[w]
  {
    if rs != [] {
      var front, last := rs[..|rs| - 1], rs[|rs| - 1];
      CountedSplit(front, node, w);
      assert last in rs;
      FilterLast(rs, IsSpecial);
      if IsSpecial(last) {
        CountedSnoc(Filter(front, IsSpecial), last, node);
        assert WorkloadsOn(rs, node) == WorkloadsOn(front, node);
      } else {
        assert IsPlain(last);
      }
    }
  }

  lemma CountedSnoc(rs: seq<Request>, r: Request, node: nat)
    ensures CountedOn(rs + [r], node) == CountedOn(rs, node) + (if r.nodeId == node then Counted(r) else [])
  {
    assert (rs + [r])[..|rs|] == rs;
  }

  lemma {:induction false} SumWithout(a: seq<Workload>, w: Workload, b: seq<Workload>, amount: Workload -> nat)
    ensures SumOf(a + [w] + b, amount) == SumOf(a + b, amount) + amount(w)
  {
    if b == [] {
      assert a + [w] + b == a + [w] && a + b == a;
      SumSnoc(a, w, amount);
    } else {
      var front, last := b[..|b| - 1], b[|b| - 1];
      SumWithout(a, w, front, amount);
      assert a + [w] + b == (a + [w] + front) + [last] && a + b == (a + front) + [last];
      SumSnoc(a + [w] + front, last, amount);
      SumSnoc(a + front, last, amount);
    }
  }

  lemma {:induction false} SumPermuted(ws: seq<Workload>, vs: seq<Workload>, amount: Workload -> nat)
    requires multiset(ws) == multiset(vs)
    ensures SumOf(ws, amount) == SumOf(vs, amount)
  {
    if ws == [] {
      PermutationMembers(ws, vs);
    } else {
      var front, last := ws[..|ws| - 1], ws[|ws| - 1];
      assert ws == front + [last];
      var a, b := TakenOut(front, last, vs);
      SumPermuted(front, a + b, amount);
      SumWithout(a, last, b, amount);
    }
  }

  /** Merging the deployments puts the same workloads on every node, so the same totals are checked. */
  lemma MergeKeepsNeeds(rs: seq<Request>, node: nat)
    ensures var before, after := CountedOn(Filter(rs, IsDeploy), node), CountedOn(MergeDeploys(rs), node);
      && multiset(after) == multiset(before)
      && NeedsOf(after).hru == NeedsOf(before).hru
      && NeedsOf(after).sru == NeedsOf(before).sru
      && NeedsOf(after).mru == NeedsOf(before).mru
  {
    var deploys, out := Filter(rs, IsDeploy), MergeDeploys(rs);
    MergeNormalises(rs);
    DeploysOnly(rs);
    AllMergedDeploy(rs);
    SpecialDeploys(rs);
    DeploysKeepWorkloads(rs, node);
    var before, after := CountedOn(deploys, node), CountedOn(out, node);
    forall w: Workload ensures multiset(after)[w] == multiset(before)[w] {
      CountedSplit(deploys, node, w);
      CountedSplit(out, node, w);
    }
    SumPermuted(after, before, OnHdd);
    SumPermuted(after, before, OnSsd);
    SumPermuted(after, before, InMemory);
  }

  lemma DeploysOnly(rs: seq<Request>)
    ensures forall r :: r in Filter(rs, IsDeploy) ==> r.op == Deploy
  {
    forall r | r in Filter(rs, IsDeploy) ensures r.op == Deploy {
      FilterMembers(rs, IsDeploy, r);
    }
  }

  lemma {:induction false} SpecialDeploys(rs: seq<Request>)
    ensures Filter(Filter(rs, IsDeploy), IsSpecial) == Filter(rs, IsSpecial)
  {
    if rs != [] {
      var front, last := rs[..|rs| - 1], rs[|rs| - 1];
      SpecialDeploys(front);
      FilterLast(rs, IsDeploy);
      FilterLast(rs, IsSpecial);
      if IsDeploy(last) {
        FilterSnoc(Filter(front, IsDeploy), last, IsSpecial);
      }
    }
  }

  lemma {:induction false} DeploysKeepWorkloads(rs: seq<Request>, node: nat)
    ensures WorkloadsOn(Filter(rs, IsDeploy), node) == WorkloadsOn(rs, node)
  {
    if rs != [] {
      var front, last := rs[..|rs| - 1], rs[|rs| - 1];
      DeploysKeepWorkloads(front, node);
      FilterLast(rs, IsDeploy);
      if IsDeploy(last) {
        assert (Filter(front, IsDeploy) + [last])[..|Filter(front, IsDeploy)|] == Filter(front, IsDeploy);
      }
    }
  }
}
