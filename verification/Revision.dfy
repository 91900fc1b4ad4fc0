/** `DeploymentFactory.UpdateDeployment`: the deployment a node runs is edited into the wanted one. No network
    object is passed, so machine addresses are left alone. */
module Revision {
  import opened Models
  import opened Sequences

  // ---- Specification ----

  function Names(ws: seq<Workload>): seq<string> {
    seq(|ws|, i requires 0 <= i < |ws| => ws[i].name)
  }

  /** The challenges differ once the wanted workload has taken the version of the current one. */
  predicate Changes(o: Workload, w: Workload) {
    w.name == o.name && w.kind != Network && w.(version := o.version) != o
  }

  /** Where the scan of the wanted workloads stops for `o`. */
  function ScanEnd(o: Workload, wanted: seq<Workload>): (e: nat)
    ensures e <= |wanted|
    ensures forall j :: 0 <= j < e ==> !Changes(o, wanted[j])
    ensures e < |wanted| ==> Changes(o, wanted[e])
  {
    if wanted == [] then 0
    else if Changes(o, wanted[0]) then 0
    else 1 + ScanEnd(o, wanted[1..])
  }

  predicate Stays(o: Workload, wanted: seq<Workload>) {
    o.kind == Network || o.name in Names(wanted)
  }

  /** The type of a workload is never replaced. */
  function Edited(o: Workload, wanted: seq<Workload>, version: nat): Workload {
    if o.kind == Network || !Stays(o, wanted) || ScanEnd(o, wanted) == |wanted| then o
    else wanted[ScanEnd(o, wanted)].(kind := o.kind, version := version + 1)
  }

  function EditedAll(current: seq<Workload>, wanted: seq<Workload>, version: nat): seq<Workload> {
    seq(|current|, i requires 0 <= i < |current| => Edited(current[i], wanted, version))
  }

  /** How much of the wanted list is looked at for new workloads: the longest scan of a current workload
      that stays. */
  function Reach(current: seq<Workload>, wanted: seq<Workload>): (e: nat)
    ensures e <= |wanted|
  {
    if current == [] then 0
    else
      var o, before := current[|current| - 1], Reach(current[..|current| - 1], wanted);
      if o.kind != Network && Stays(o, wanted) && ScanEnd(o, wanted) > before then ScanEnd(o, wanted) else before
  }

  /** Workloads of `wanted` whose names are not known yet, each name once. */
  function Added(known: seq<string>, wanted: seq<Workload>, version: nat): seq<Workload> {
    if wanted == [] then []
    else
      var before, w := Added(known, wanted[..|wanted| - 1], version), wanted[|wanted| - 1];
      if w.name in known + Names(before) then before else before + [w.(version := version + 1)]
  }

  function NewOnes(current: seq<Workload>, wanted: seq<Workload>, version: nat): seq<Workload> {
    Added(Names(current), wanted[..Reach(current, wanted)], version)
  }

  /** The workloads after the edit. */
  function Revised(current: seq<Workload>, wanted: seq<Workload>, version: nat): seq<Workload> {
    Filter(EditedAll(current, wanted, version), w => Stays(w, wanted)) + NewOnes(current, wanted, version)
  }

  predicate Touches(o: Workload, wanted: seq<Workload>) {
    !Stays(o, wanted) || (o.kind != Network && ScanEnd(o, wanted) < |wanted|)
  }

  /** Something was removed, changed or added. */
  predicate Found(current: seq<Workload>, wanted: seq<Workload>, version: nat) {
    || NewOnes(current, wanted, version) != []
    || exists i :: 0 <= i < |current| && Touches(current[i], wanted)
  }

  function Revise(current: seq<Workload>, wanted: seq<Workload>, version: nat): Option<seq<Workload>> {
    if Found(current, wanted, version) then Some(Revised(current, wanted, version)) else None
  }

  // ---- What the edit achieves ----

  lemma {:induction false} ReachExact(current: seq<Workload>, wanted: seq<Workload>, j: nat)
    ensures j < Reach(current, wanted) <==>
              exists i :: 0 <= i < |current| && current[i].kind != Network && Stays(current[i], wanted) &&
                  j < ScanEnd(current[i], wanted)
  {
    if current != [] {
      var front := current[..|current| - 1];
      ReachExact(front, wanted, j);
      if j < Reach(front, wanted) {
        var i :| 0 <= i < |front| && front[i].kind != Network && Stays(front[i], wanted) &&
            j < ScanEnd(front[i], wanted);
        assert current[i] == front[i];
      }
      if i :|
        0 <= i < |current| && current[i].kind != Network && Stays(current[i], wanted) && j < ScanEnd(current[i], wanted)
      {
        if i < |front| {
          assert front[i] == current[i];
        }
      }
    }
  }

  lemma NamesMember(ws: seq<Workload>, w: Workload)
    requires w in ws
    ensures w.name in Names(ws)
  {
    var i :| 0 <= i < |ws| && ws[i] == w;
    assert Names(ws)[i] == w.name;
  }

  /** `r` has everything `w` asks for; its version says when. */
  predicate Carries(r: Workload, w: Workload) {
    r.name == w.name && r.(version := w.version) == w
  }

  /** `r` has everything `w` asks for but its type, which an edit never replaces. */
  predicate CarriesData(r: Workload, w: Workload) {
    r.name == w.name && r.(kind := w.kind, version := w.version) == w
  }

  /** Both lists name each workload once. */
  ghost predicate Comparable(current: seq<Workload>, wanted: seq<Workload>) {
    UniqueNames(current) && UniqueNames(wanted)
  }

  /** Some current workload that stays is scanned past index `j` of the wanted list: it is unchanged, or its
      changed form is listed after `j`. */
  ghost predicate Reached(current: seq<Workload>, wanted: seq<Workload>, j: nat) {
    exists i :: 0 <= i < |current| && current[i].kind != Network && Stays(current[i], wanted) &&
        j < ScanEnd(current[i], wanted)
  }

  ghost predicate IsNew(current: seq<Workload>, w: Workload) { w.name !in Names(current) }

  ghost predicate HasKind(current: seq<Workload>, w: Workload) {
    exists o :: o in current && o.name == w.name && o.kind == w.kind
  }

  /** The edit can make the `j`-th wanted workload: a new one is reached, another one is there with its type. */
  ghost predicate Applies(current: seq<Workload>, wanted: seq<Workload>, j: nat)
    requires j < |wanted|
  {
    if IsNew(current, wanted[j]) then Reached(current, wanted, j) else HasKind(current, wanted[j])
  }

  ghost predicate IsCarried(rs: seq<Workload>, w: Workload) {
    exists r :: r in rs && Carries(r, w)
  }

  /** Where a workload of the result comes from: it was there, as a network or under the name of a wanted network,
      or it carries a wanted one, with its type or the one it was there with. */
  ghost predicate Accounted(current: seq<Workload>, wanted: seq<Workload>, r: Workload) {
    || (r in current && (r.kind == Network || exists w :: w in wanted && w.name == r.name && w.kind == Network))
    || (exists w :: w in wanted && CarriesData(r, w) && (r.kind == w.kind || HasKind(current, r)))
  }

  lemma EditedIs(current: seq<Workload>, wanted: seq<Workload>, version: nat, o: Workload, w: Workload)
    requires UniqueNames(wanted) && o in current && w in wanted && o.name == w.name && w.kind != Network
    ensures var r := Edited(o, wanted, version);
      && r in Revised(current, wanted, version)
      && if o.kind == Network then r == o
         else CarriesData(r, w) && r.kind == o.kind && r.version == if Carries(o, w) then o.version else version + 1
  {
    NamesMember(wanted, w);
    var r, all := Edited(o, wanted, version), EditedAll(current, wanted, version);
    var i :| 0 <= i < |current| && current[i] == o;
    assert all[i] == r;
    FilterMembers(all, x => Stays(x, wanted), r);
    var k :| 0 <= k < |wanted| && wanted[k] == w;
    var e := ScanEnd(o, wanted);
    if e < |wanted| {
      assert wanted[e].name == o.name;
      assert e == k;
    }
  }

  lemma {:induction false} AddedExact(known: seq<string>, wanted: seq<Workload>, version: nat)
    requires UniqueNames(wanted)
    ensures forall r :: r in Added(known, wanted, version) <==>
              exists j :: 0 <= j < |wanted| && wanted[j].name !in known && r == wanted[j].(version := version + 1)
  {
    if wanted != [] {
      var last := |wanted| - 1;
      var front, w := wanted[..last], wanted[last];
      AddedExact(known, front, version);
      var before := Added(known, front, version);
      forall r | r in before ensures r.name != w.name {
        var j :| 0 <= j < |front| && front[j].name !in known && r == front[j].(version := version + 1);
        assert wanted[j] == front[j];
      }
      assert w.name !in Names(before);
      forall r
        ensures r in Added(known, wanted, version) <==>
                  exists j :: 0 <= j < |wanted| && wanted[j].name !in known && r == wanted[j].(version := version + 1)
      {
        if r in before {
          var j :| 0 <= j < |front| && front[j].name !in known && r == front[j].(version := version + 1);
          assert wanted[j] == front[j];
        }
        if j :| 0 <= j < |wanted| && wanted[j].name !in known && r == wanted[j].(version := version + 1) {
          if j < last {
            assert front[j] == wanted[j];
          }
        }
      }
    }
  }

  /** A workload of the result is an edited one or a new one. */
  lemma RevisedMembers(current: seq<Workload>, wanted: seq<Workload>, version: nat, r: Workload)
    requires UniqueNames(wanted)
    ensures r in Revised(current, wanted, version) <==>
              || (exists o :: o in current && Stays(o, wanted) && r == Edited(o, wanted, version))
              || (exists j :: 0 <= j < |wanted| && Reached(current, wanted, j) && IsNew(current, wanted[j]) &&
                   r == wanted[j].(version := version + 1))
  {
    hide Added, Reach, Filter, ScanEnd;
    var all, reach := EditedAll(current, wanted, version), Reach(current, wanted);
    FilterMembers(all, x => Stays(x, wanted), r);
    AddedExact(Names(current), wanted[..reach], version);
    if r in all && Stays(r, wanted) {
      var i :| 0 <= i < |all| && all[i] == r;
      assert r == Edited(current[i], wanted, version) && current[i] in current;
    }
    if o :| o in current && Stays(o, wanted) && r == Edited(o, wanted, version) {
      var i :| 0 <= i < |current| && current[i] == o;
      assert all[i] == r;
    }
    if j :|
      && 0 <= j < reach && wanted[..reach][j].name !in Names(current)
      && r == wanted[..reach][j].(version := version + 1)
    {
      ReachExact(current, wanted, j);
      assert Reached(current, wanted, j) && wanted[..reach][j] == wanted[j];
    }
    if j :|
      && 0 <= j < |wanted| && Reached(current, wanted, j) && IsNew(current, wanted[j])
      && r == wanted[j].(version := version + 1)
    {
      ReachExact(current, wanted, j);
      assert wanted[..reach][j] == wanted[j];
    }
  }

  /** The result holds nothing else. */
  lemma NothingElse(current: seq<Workload>, wanted: seq<Workload>, version: nat, r: Workload)
    requires Comparable(current, wanted) && r in Revised(current, wanted, version)
    ensures Accounted(current, wanted, r)
  {
    RevisedMembers(current, wanted, version, r);
    if o :| o in current && Stays(o, wanted) && r == Edited(o, wanted, version) {
      if o.kind != Network {
        var k :| 0 <= k < |wanted| && Names(wanted)[k] == o.name;
        assert wanted[k] in wanted;
        if wanted[k].kind == Network {
          NetworkNamed(o, wanted, k);
        } else {
          EditedIs(current, wanted, version, o, wanted[k]);
        }
      }
    } else {
      var j :| 0 <= j < |wanted| && Reached(current, wanted, j) && IsNew(current, wanted[j]) &&
          r == wanted[j].(version := version + 1);
      assert wanted[j] in wanted && CarriesData(r, wanted[j]);
    }
  }

  lemma NetworkNamed(o: Workload, wanted: seq<Workload>, k: nat)
    requires UniqueNames(wanted) && k < |wanted| && wanted[k].name == o.name && wanted[k].kind == Network
    ensures ScanEnd(o, wanted) == |wanted|
  {
    if ScanEnd(o, wanted) < |wanted| {
      assert false;
    }
  }

  /** Every wanted workload is in the result exactly when each new one is reached and each other one has the type it
      is there with. The first is not always so: the scan for a changed workload stops there, so what is listed after
      it is seen only if another workload needs it seen. */
  lemma AppliesExactly(current: seq<Workload>, wanted: seq<Workload>, version: nat)
    requires Comparable(current, wanted)
    ensures (forall w :: w in wanted && w.kind != Network ==> IsCarried(Revised(current, wanted, version), w)) <==>
              (forall j :: 0 <= j < |wanted| && wanted[j].kind != Network ==> Applies(current, wanted, j))
  {
    forall k | 0 <= k < |wanted| && wanted[k].kind != Network
      ensures IsCarried(Revised(current, wanted, version), wanted[k]) <==> Applies(current, wanted, k)
    {
      CarriedExactly(current, wanted, version, k);
    }
    if forall j :: 0 <= j < |wanted| && wanted[j].kind != Network ==> Applies(current, wanted, j) {
      forall w | w in wanted && w.kind != Network ensures IsCarried(Revised(current, wanted, version), w) {
        var k :| 0 <= k < |wanted| && wanted[k] == w;
        assert Applies(current, wanted, k);
      }
    } else {
      var j :| 0 <= j < |wanted| && wanted[j].kind != Network && !Applies(current, wanted, j);
      assert wanted[j] in wanted;
    }
  }

  lemma CarriedExactly(current: seq<Workload>, wanted: seq<Workload>, version: nat, k: nat)
    requires Comparable(current, wanted) && k < |wanted| && wanted[k].kind != Network
    ensures IsCarried(Revised(current, wanted, version), wanted[k]) <==> Applies(current, wanted, k)
  {
    var w := wanted[k];
    if !IsNew(current, w) {
      OldCarriedExactly(current, wanted, version, w);
    } else {
      if Reached(current, wanted, k) {
        RevisedMembers(current, wanted, version, w.(version := version + 1));
        assert Carries(w.(version := version + 1), w);
      }
      if r :| r in Revised(current, wanted, version) && Carries(r, w) {
        NewNeedsReach(current, wanted, version, k, r);
      }
    }
  }

  lemma OldCarriedExactly(current: seq<Workload>, wanted: seq<Workload>, version: nat, w: Workload)
    requires Comparable(current, wanted) && w in wanted && w.kind != Network && !IsNew(current, w)
    ensures IsCarried(Revised(current, wanted, version), w) <==> HasKind(current, w)
  {
    if o :| o in current && o.name == w.name && o.kind == w.kind {
      EditedIs(current, wanted, version, o, w);
      assert Carries(Edited(o, wanted, version), w);
    }
    if r :| r in Revised(current, wanted, version) && Carries(r, w) {
      RevisedMembers(current, wanted, version, r);
      if o :| o in current && Stays(o, wanted) && r == Edited(o, wanted, version) {
        assert o.name == w.name && o.kind == w.kind;
      }
    }
  }

  lemma NewNeedsReach(current: seq<Workload>, wanted: seq<Workload>, version: nat, k: nat, r: Workload)
    requires UniqueNames(wanted) && k < |wanted| && IsNew(current, wanted[k])
    requires r in Revised(current, wanted, version) && r.name == wanted[k].name
    ensures Reached(current, wanted, k)
  {
    RevisedMembers(current, wanted, version, r);
    if o :| o in current && Stays(o, wanted) && r == Edited(o, wanted, version) {
      NamesMember(current, o);
      assert false;
    }
    var j :| 0 <= j < |wanted| && Reached(current, wanted, j) && IsNew(current, wanted[j]) &&
        r == wanted[j].(version := version + 1);
    assert j == k;
  }

  ghost predicate OtherKindWanted(wanted: seq<Workload>, o: Workload) {
    exists w :: w in wanted && w.name == o.name && w.kind != o.kind
  }

  /** Versions tell what an edit touched: a workload newer than the deployment is one the edit changed or added, or one
      wanted with another type; every other one is as it was. */
  lemma VersionsTellEdits(current: seq<Workload>, wanted: seq<Workload>, version: nat, r: Workload)
    requires Comparable(current, wanted) && (forall o :: o in current ==> o.version <= version)
    requires r in Revised(current, wanted, version)
    ensures r.version <= version ==> r in current
    ensures r.version > version ==> r.version == version + 1
    ensures r.version > version ==> forall o :: o in current && Carries(o, r) ==> OtherKindWanted(wanted, o)
  {
    RevisedMembers(current, wanted, version, r);
    if o :| o in current && Stays(o, wanted) && r == Edited(o, wanted, version) {
      EditTells(current, wanted, version, o);
    } else {
      forall p | p in current ensures p.name != r.name { NamesMember(current, p); }
    }
  }

  lemma EditTells(current: seq<Workload>, wanted: seq<Workload>, version: nat, o: Workload)
    requires Comparable(current, wanted) && o in current && o.version <= version
    ensures var r := Edited(o, wanted, version);
      if r.version <= version then r == o
      else r.version == version + 1 && forall p :: p in current && Carries(p, r) ==> OtherKindWanted(wanted, p)
  {
    var r := Edited(o, wanted, version);
    assert ScanEnd(o, wanted) < |wanted| ==> wanted[ScanEnd(o, wanted)] in wanted;
    forall p | p in current && r.version > version && Carries(p, r) ensures OtherKindWanted(wanted, p) {
      SameName(current, o, p);
      assert wanted[ScanEnd(o, wanted)].name == o.name;
    }
  }

  lemma SameName(ws: seq<Workload>, o: Workload, p: Workload)
    requires UniqueNames(ws) && o in ws && p in ws && o.name == p.name
    ensures o == p
  {
  }

  /** With nothing to edit the workloads are as they were. */
  lemma NotFoundSame(current: seq<Workload>, wanted: seq<Workload>, version: nat)
    requires !Found(current, wanted, version)
    ensures Revised(current, wanted, version) == current
  {
    var all := EditedAll(current, wanted, version);
    forall i | 0 <= i < |current| ensures all[i] == current[i] && Stays(current[i], wanted) {
      assert !Touches(current[i], wanted);
    }
    assert all == current;
    FilterAll(all, w => Stays(w, wanted));
  }

  /** A deployment of one workload. */
  lemma OnlyOne(o: Workload, wanted: seq<Workload>, version: nat)
    requires o.kind != Network
    ensures Revised([o], wanted, version) ==
              if Stays(o, wanted)
              then [Edited(o, wanted, version)] + Added([o.name], wanted[..ScanEnd(o, wanted)], version)
              else []
  {
    var all := EditedAll([o], wanted, version);
    assert all == [Edited(o, wanted, version)] && Names([o]) == [o.name];
    OnlyReach(o, wanted);
    if Stays(o, wanted) {
      FilterAll(all, w => Stays(w, wanted));
    } else {
      FilterNone(all, w => Stays(w, wanted));
      assert wanted[..0] == [];
    }
  }

  lemma OnlyReach(o: Workload, wanted: seq<Workload>)
    requires o.kind != Network
    ensures Reach([o], wanted) == if Stays(o, wanted) then ScanEnd(o, wanted) else 0
  {
    assert [o][..0] == [];
  }

  /** Not every edit is applied: what is listed after the only workload, when that one changes, is lost. */
  lemma AdditionLost(m: Workload, changed: Workload, added: Workload, version: nat)
    requires Changes(m, changed) && m.kind == changed.kind && added.name != m.name
    ensures Comparable([m], [changed, added])
    ensures Revised([m], [changed, added], version) == [changed.(version := version + 1)]
  {
    var wanted := [changed, added];
    assert Names(wanted)[0] == m.name && wanted[0] == changed;
    assert wanted[..0] == [];
    OnlyOne(m, wanted, version);
  }

  /** Replacing the only workload by another one just removes it. */
  lemma ReplacementLost(m: Workload, n: Workload, version: nat)
    requires m.kind != Network && m.name != n.name
    ensures Comparable([m], [n]) && Revised([m], [n], version) == []
  {
    assert Names([n]) == [n.name];
    OnlyOne(m, [n], version);
  }

  // ---- The code ----

  lemma {:induction false} AddedKnows(known: seq<string>, wanted: seq<Workload>, version: nat, j: nat)
    requires j < |wanted|
    ensures wanted[j].name in known + Names(Added(known, wanted, version))
  {
    var last := |wanted| - 1;
    var before := Added(known, wanted[..last], version);
    if j < last {
      AddedKnows(known, wanted[..last], version, j);
      NamesSnoc(before, wanted[last].(version := version + 1));
    } else {
      NamesSnoc(before, wanted[last].(version := version + 1));
    }
  }

  lemma NamesSnoc(ws: seq<Workload>, w: Workload)
    ensures Names(ws + [w]) == Names(ws) + [w.name]
  {
  }

  function Max(a: nat, b: nat): nat { if a < b then b else a }

  function NewsAt(known: seq<string>, wanted: seq<Workload>, version: nat, reach: nat, j: nat): seq<Workload>
    requires reach <= |wanted| && j <= |wanted|
  {
    Added(known, wanted[..Max(reach, j)], version)
  }

  lemma AddedStep(known: seq<string>, wanted: seq<Workload>, version: nat, reach: nat, j: nat)
    requires reach <= |wanted| && j < |wanted|
    ensures var before, w := NewsAt(known, wanted, version, reach, j), wanted[j].(version := version + 1);
      && NewsAt(known, wanted, version, reach, j + 1) ==
           (if w.name in known + Names(before) then before else before + [w])
      && known + Names(before + [w]) == known + Names(before) + [w.name]
  {
    NamesSnoc(NewsAt(known, wanted, version, reach, j), wanted[j].(version := version + 1));
    if j < reach {
      AddedKnows(known, wanted[..reach], version, j);
    } else {
      assert wanted[..j + 1][..j] == wanted[..j];
    }
  }

  lemma ScanStep(o: Workload, wanted: seq<Workload>, j: nat)
    requires j <= ScanEnd(o, wanted) && j < |wanted|
    ensures ScanEnd(o, wanted) == j <==> Changes(o, wanted[j])
  {
  }

  /** The scan of the wanted workloads for one current workload that stays. */
  method Scan(o: Workload, wanted: seq<Workload>, version: nat, oldNames: seq<string>, newWorkloads: seq<Workload>,
              ghost known: seq<string>, ghost reach: nat)
    returns (edited: Workload, names: seq<string>, news: seq<Workload>, found: bool)
    requires o.kind != Network && Stays(o, wanted) && o.name in known && reach <= |wanted|
    requires newWorkloads == NewsAt(known, wanted, version, reach, 0) && oldNames == known + Names(newWorkloads)
    ensures edited == Edited(o, wanted, version)
    ensures news == NewsAt(known, wanted, version, reach, ScanEnd(o, wanted)) && names == known + Names(news)
    ensures |newWorkloads| <= |news| && (found <==> ScanEnd(o, wanted) < |wanted| || |newWorkloads| < |news|)
  {
    edited, names, news, found := o, oldNames, newWorkloads, false;
    for j := 0 to |wanted|
      invariant j <= ScanEnd(o, wanted) && edited == o
      invariant news == NewsAt(known, wanted, version, reach, j) && names == known + Names(news)
      invariant |newWorkloads| <= |news| && (found <==> |newWorkloads| < |news|)
    {
      var w := wanted[j];
      AddedStep(known, wanted, version, reach, j);
      ScanStep(o, wanted, j);
      if w.name !in names {
        news := news + [w.(version := version + 1)];
        names := names + [w.name];
        found := true;
        continue;
      }
      if w.kind == Network || w.name != o.name {
        continue;
      }
      if w.(version := o.version) == o {
        continue;
      }
      edited := w.(kind := o.kind, version := version + 1);
      found := true;
      break;
    }
  }

  lemma {:induction false} AddedFromWanted(known: seq<string>, wanted: seq<Workload>, version: nat)
    ensures forall w :: w in Added(known, wanted, version) ==> w.name in Names(wanted) && w.name !in known
  {
    if wanted != [] {
      var front, w := wanted[..|wanted| - 1], wanted[|wanted| - 1];
      AddedFromWanted(known, front, version);
      assert wanted == front + [w];
      NamesSnoc(front, w);
    }
  }

  lemma NewOnesStay(current: seq<Workload>, wanted: seq<Workload>, version: nat)
    ensures forall w :: w in NewOnes(current, wanted, version) ==> Stays(w, wanted)
  {
    var reach := Reach(current, wanted);
    AddedFromWanted(Names(current), wanted[..reach], version);
    forall w | w in NewOnes(current, wanted, version) ensures Stays(w, wanted) {
      assert w.name in Names(wanted[..reach]);
      var j :| 0 <= j < reach && Names(wanted[..reach])[j] == w.name;
      assert Names(wanted)[j] == w.name;
    }
  }

  /** `deletedWorkloads` lists exactly the workloads seen so far that do not stay. */
  ghost predicate ListsDeleted(deleted: seq<Workload>, seen: seq<Workload>, wanted: seq<Workload>) {
    && (forall w :: w in deleted ==> !Stays(w, wanted))
    && (forall i :: 0 <= i < |seen| && !Stays(seen[i], wanted) ==> seen[i] in deleted)
  }

  method WithoutDeleted(all: seq<Workload>, deleted: seq<Workload>, ghost current: seq<Workload>,
      ghost wanted: seq<Workload>,
                        ghost version: nat)
    returns (kept: seq<Workload>)
    requires all == EditedAll(current, wanted, version) + NewOnes(current, wanted, version)
    requires ListsDeleted(deleted, current, wanted)
    ensures kept == Revised(current, wanted, version)
  {
    kept := [];
    for k := 0 to |all|
      invariant kept == Filter(all[..k], w => Stays(w, wanted))
    {
      assert all[..k + 1] == all[..k] + [all[k]];
      FilterSnoc(all[..k], all[k], w => Stays(w, wanted));
      StaysUnlessDeleted(all, deleted, current, wanted, version, k);
      if all[k] !in deleted {
        kept := kept + [all[k]];
      }
    }
    assert all[..|all|] == all;
    NewOnesStay(current, wanted, version);
    FilterAppend(EditedAll(current, wanted, version), NewOnes(current, wanted, version), w => Stays(w, wanted));
    FilterAll(NewOnes(current, wanted, version), w => Stays(w, wanted));
  }

  lemma StaysUnlessDeleted(all: seq<Workload>, deleted: seq<Workload>, current: seq<Workload>, wanted: seq<Workload>,
                           version: nat, k: nat)
    requires all == EditedAll(current, wanted, version) + NewOnes(current, wanted, version)
    requires ListsDeleted(deleted, current, wanted) && k < |all|
    ensures all[k] !in deleted <==> Stays(all[k], wanted)
  {
    if k < |current| {
      assert all[k] == Edited(current[k], wanted, version);
    } else {
      NewOnesStay(current, wanted, version);
      assert all[k] == NewOnes(current, wanted, version)[k - |current|];
    }
  }

  /** Progress of the outer loop over the workloads, `i` of them done. */
  ghost predicate Progress(current: seq<Workload>, wanted: seq<Workload>, version: nat, i: nat,
                           ws: seq<Workload>, news: seq<Workload>, deleted: seq<Workload>, found: bool)
    requires i <= |current|
  {
    && ws == EditedAll(current[..i], wanted, version) + current[i..]
    && news == Added(Names(current), wanted[..Reach(current[..i], wanted)], version)
    && ListsDeleted(deleted, current[..i], wanted)
    && (found <==> Touched(current[..i], wanted) || news != [])
  }

  /** Some current workload is removed or changed. */
  ghost predicate Touched(current: seq<Workload>, wanted: seq<Workload>) {
    exists i :: 0 <= i < |current| && Touches(current[i], wanted)
  }

  lemma EditedSnoc(current: seq<Workload>, wanted: seq<Workload>, version: nat, i: nat)
    requires i < |current|
    ensures var ws := EditedAll(current[..i], wanted, version) + current[i..];
      && ws[i] == current[i]
      && ws[i := Edited(current[i], wanted, version)] == EditedAll(current[..i + 1], wanted, version) + current[i + 1..]
  {
  }

  lemma TouchedSnoc(current: seq<Workload>, wanted: seq<Workload>, i: nat)
    requires i < |current|
    ensures Touched(current[..i + 1], wanted) <==> Touched(current[..i], wanted) || Touches(current[i], wanted)
  {
    assert current[..i + 1] == current[..i] + [current[i]];
    if Touched(current[..i], wanted) {
      var k :| 0 <= k < i && Touches(current[..i][k], wanted);
      assert current[..i + 1][k] == current[..i][k];
    }
    if Touches(current[i], wanted) {
      assert current[..i + 1][i] == current[i];
    }
  }

  lemma DeletedSnoc(deleted: seq<Workload>, current: seq<Workload>, wanted: seq<Workload>, i: nat)
    requires i < |current| && ListsDeleted(deleted, current[..i], wanted)
    ensures Stays(current[i], wanted) ==> ListsDeleted(deleted, current[..i + 1], wanted)
    ensures !Stays(current[i], wanted) ==> ListsDeleted(deleted + [current[i]], current[..i + 1], wanted)
  {
    assert forall k :: 0 <= k < i ==> current[..i + 1][k] == current[..i][k];
  }

  lemma Skipped(current: seq<Workload>, wanted: seq<Workload>, version: nat, i: nat, news: seq<Workload>,
      deleted: seq<Workload>, found: bool)
    requires i < |current|
    requires var ws := EditedAll(current[..i], wanted, version) + current[i..];
      Progress(current, wanted, version, i, ws, news, deleted, found)
    requires current[i].kind == Network || !Stays(current[i], wanted)
    ensures var ws, gone := EditedAll(current[..i], wanted, version) + current[i..], !Stays(current[i], wanted);
      && ws[i] == current[i]
      && var deleted' := if gone then deleted + [current[i]] else deleted;
         Progress(current, wanted, version, i + 1, ws, news, deleted', found || gone)
  {
    EditedSnoc(current, wanted, version, i);
    var ws := EditedAll(current[..i], wanted, version) + current[i..];
    assert ws[i := current[i]] == ws;
    TouchedSnoc(current, wanted, i);
    DeletedSnoc(deleted, current, wanted, i);
    assert current[..i + 1][..i] == current[..i];
  }

  lemma ScanAt(current: seq<Workload>, wanted: seq<Workload>, version: nat, i: nat, news: seq<Workload>,
      deleted: seq<Workload>, found: bool)
    requires i < |current|
    requires var ws := EditedAll(current[..i], wanted, version) + current[i..];
      Progress(current, wanted, version, i, ws, news, deleted, found)
    ensures news == NewsAt(Names(current), wanted, version, Reach(current[..i], wanted), 0)
    ensures (EditedAll(current[..i], wanted, version) + current[i..])[i] == current[i]
    ensures current[i].name in Names(current)
  {
    assert Names(current)[i] == current[i].name;
  }

  lemma Scanned(current: seq<Workload>, wanted: seq<Workload>, version: nat, i: nat, news: seq<Workload>,
      deleted: seq<Workload>,
                found: bool, more: seq<Workload>, changed: bool)
    requires i < |current|
    requires var ws := EditedAll(current[..i], wanted, version) + current[i..];
      Progress(current, wanted, version, i, ws, news, deleted, found)
    requires current[i].kind != Network && Stays(current[i], wanted)
    requires var reach := Reach(current[..i], wanted);
      && more == NewsAt(Names(current), wanted, version, reach, ScanEnd(current[i], wanted))
      && |news| <= |more|
      && (changed <==> ScanEnd(current[i], wanted) < |wanted| || |news| < |more|)
    ensures var ws := EditedAll(current[..i], wanted, version) + current[i..];
      var edited := ws[i := Edited(current[i], wanted, version)];
      Progress(current, wanted, version, i + 1, edited, more, deleted, found || changed)
  {
    EditedSnoc(current, wanted, version, i);
    TouchedSnoc(current, wanted, i);
    DeletedSnoc(deleted, current, wanted, i);
    assert current[..i + 1][..i] == current[..i];
    assert Reach(current[..i + 1], wanted) == Max(Reach(current[..i], wanted), ScanEnd(current[i], wanted));
  }

  /** One current workload. */
  method Visit(ws: seq<Workload>, i: nat, wanted: seq<Workload>, version: nat, names: seq<string>, news: seq<Workload>,
               deleted: seq<Workload>, found: bool, ghost current: seq<Workload>)
    returns (ws1: seq<Workload>, names1: seq<string>, news1: seq<Workload>, deleted1: seq<Workload>, found1: bool)
    requires i < |current| && Progress(current, wanted, version, i, ws, news, deleted, found)
    requires names == Names(current) + Names(news)
    ensures Progress(current, wanted, version, i + 1, ws1, news1, deleted1, found1)
    ensures names1 == Names(current) + Names(news1)
  {
    ScanAt(current, wanted, version, i, news, deleted, found);
    ws1, names1, news1, deleted1, found1 := ws, names, news, deleted, found;
    var o := ws[i];
    if o.kind == Network {
      Skipped(current, wanted, version, i, news, deleted, found);
    } else if o.name !in Names(wanted) {
      Skipped(current, wanted, version, i, news, deleted, found);
      deleted1 := deleted + [o];
      found1 := true;
    } else {
      var edited, changed;
      edited, names1, news1, changed := Scan(o, wanted, version, names, news, Names(current),
          Reach(current[..i], wanted));
      Scanned(current, wanted, version, i, news, deleted, found, news1, changed);
      ws1 := ws[i := edited];
      found1 := found || changed;
    }
  }

  /** Edits the deployment in place; reports whether there was anything to edit. */
  method UpdateDeployment(d: Deployment, wanted: seq<Workload>) returns (found: bool)
    modifies d`workloads
    ensures found == Found(old(d.workloads), wanted, d.version)
    ensures d.workloads == Revised(old(d.workloads), wanted, d.version)
  {
    ghost var current := d.workloads;
    var names: seq<string>, news: seq<Workload>, deleted: seq<Workload> := Names(d.workloads), [], [];
    found := false;
    Begins(current, wanted, d.version);
    for i := 0 to |d.workloads|
      invariant |d.workloads| == |current| && Progress(current, wanted, d.version, i, d.workloads, news, deleted, found)
      invariant names == Names(current) + Names(news)
    {
      var ws;
      ws, names, news, deleted, found := Visit(d.workloads, i, wanted, d.version, names, news, deleted, found, current);
      d.workloads := ws;
    }
    Ends(current, wanted, d.version, d.workloads, news, deleted, found);
    d.workloads := WithoutDeleted(d.workloads + news, deleted, current, wanted, d.version);
  }

  lemma Begins(current: seq<Workload>, wanted: seq<Workload>, version: nat)
    ensures Progress(current, wanted, version, 0, current, [], [], false)
    ensures Names(current) == Names(current) + Names([])
  {
    assert current[..0] == [] && current[0..] == current;
  }

  lemma Ends(current: seq<Workload>, wanted: seq<Workload>, version: nat, ws: seq<Workload>, news: seq<Workload>,
             deleted: seq<Workload>, found: bool)
    requires Progress(current, wanted, version, |current|, ws, news, deleted, found)
    ensures ws + news == EditedAll(current, wanted, version) + NewOnes(current, wanted, version)
    ensures ListsDeleted(deleted, current, wanted)
    ensures found == Found(current, wanted, version)
  {
    assert current[..|current|] == current;
  }
}
