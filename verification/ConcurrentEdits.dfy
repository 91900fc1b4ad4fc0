/** What the planner is for: several callers fetch one deployment, each edits it with `UpdateDeployment`, and
    `_updateToLatest` puts the edits together. */
module ConcurrentEdits {
  import opened Models
  import opened Sequences
  import opened ThreeWayMerge
  import opened Revision

  /** Every update edits `current`: what is not newer than the base version comes from there. */
  ghost predicate Edits(us: seq<Request>, base: nat, current: seq<Workload>) {
    && CommonBase(us, base) && UniqueNames(current)
    && (forall w :: w in current ==> w.version <= base)
    && forall i, w :: 0 <= i < |us| && w in us[i].workloads && w.version <= base ==> w in current
  }

  ghost predicate Untouched(u: Request, current: seq<Workload>, name: string) {
    Named(u.workloads, name) == Named(current, name)
  }

  /** No two updates touch the same name. */
  ghost predicate Disjoint(us: seq<Request>, current: seq<Workload>) {
    forall i, j, name :: 0 <= i < j < |us| ==> Untouched(us[i], current, name) || Untouched(us[j], current, name)
  }

  ghost predicate OnlyTouchedBy(us: seq<Request>, current: seq<Workload>, name: string, i: nat) {
    i < |us| && forall k :: 0 <= k < |us| && k != i ==> Untouched(us[k], current, name)
  }

  lemma AtMostOne(ws: seq<Workload>, name: string, c: Workload)
    requires UniqueNames(ws) && c in Named(ws, name)
    ensures Named(ws, name) == [c]
  {
    NamedOnce(ws, name);
  }

  lemma Toucher(us: seq<Request>, current: seq<Workload>, name: string) returns (i: nat)
    requires us != [] && Disjoint(us, current)
    ensures OnlyTouchedBy(us, current, name, i)
  {
    if k :| 0 <= k < |us| && !Untouched(us[k], current, name) {
      i := k;
    } else {
      i := 0;
    }
  }

  lemma CopyIsEither(us: seq<Request>, current: seq<Workload>, name: string, i: nat, c: Workload)
    requires OnlyTouchedBy(us, current, name, i) && c in Named(Flat(us), name)
    ensures c in Named(current, name) || c in Named(us[i].workloads, name)
  {
    var k := CopySource(us, name, c);
  }

  lemma {:induction false} InFlat(us: seq<Request>, i: nat, w: Workload)
    requires i < |us| && w in us[i].workloads
    ensures w in Flat(us)
  {
    if i < |us| - 1 {
      InFlat(us[..|us| - 1], i, w);
    }
  }

  lemma EditedCopy(us: seq<Request>, base: nat, current: seq<Workload>, name: string, i: nat, c: Workload, d: Workload)
    requires Edits(us, base, current) && i < |us| && !Untouched(us[i], current, name)
    requires c in Named(current, name) && d in Named(us[i].workloads, name)
    ensures d.version > base >= c.version
  {
    NamedMembers(current, name);
    NamedMembers(us[i].workloads, name);
    AtMostOne(current, name, c);
    AtMostOne(us[i].workloads, name, d);
  }

  /** All copies are the same, or each is the base copy or the edited one and no update lacks the name. */
  lemma FewCopiesAgree(copies: seq<Workload>, updates: nat, base: nat, c: Workload, d: Workload)
    requires forall x :: x in copies ==> x == c || x == d
    requires c == d || (|copies| == updates && c.version <= base < d.version)
    ensures Agree(copies, updates, base)
  {
  }

  lemma Single(xs: seq<Workload>, x: Workload)
    requires |xs| <= 1 && x in xs
    ensures xs == [x]
  {
  }

  lemma DisjointAgree(us: seq<Request>, base: nat, current: seq<Workload>, name: string)
    requires us != [] && Edits(us, base, current) && Disjoint(us, current)
    ensures Agree(Named(Flat(us), name), |us|, base)
  {
    var copies := Named(Flat(us), name);
    var i := Toucher(us, current, name);
    var before, after := Named(current, name), Named(us[i].workloads, name);
    NamedOnce(current, name);
    NamedOnce(us[i].workloads, name);
    if copies != [] {
      forall x | x in copies ensures x in before || x in after {
        CopyIsEither(us, current, name, i, x);
      }
      assert copies[0] in copies;
      var c := if before != [] then before[0] else after[0];
      var d := if after != [] then after[0] else before[0];
      forall x | x in copies ensures x == c || x == d {
        if x in before { Single(before, x); } else { Single(after, x); }
      }
      if c != d {
        EditedCopy(us, base, current, name, i, c, d);
        EveryoneHolds(us, base, current, name, i);
      }
      FewCopiesAgree(copies, |us|, base, c, d);
    }
  }

  lemma EveryoneHolds(us: seq<Request>, base: nat, current: seq<Workload>, name: string, i: nat)
    requires CommonBase(us, base) && OnlyTouchedBy(us, current, name, i)
    requires Named(current, name) != [] && Named(us[i].workloads, name) != []
    ensures |Named(Flat(us), name)| == |us|
  {
    CopyCount(us, base, name);
  }

  lemma DisjointIsConflictFree(us: seq<Request>, base: nat, current: seq<Workload>)
    requires us != [] && Edits(us, base, current) && Disjoint(us, current)
    ensures ConflictFree(us, base) && OrderIndependent(us)
  {
    forall name ensures Agree(Named(Flat(us), name), |us|, base) {
      DisjointAgree(us, base, current, name);
    }
    OrderIndependence(us, base);
  }

  /** Edits to different workloads are all applied, in whatever order they arrive: for a name that one update
      touched, the merge has what that update has; for any other name, what the deployment had. */
  lemma DisjointEditsAllApply(us: seq<Request>, base: nat, current: seq<Workload>, w: Workload, i: nat)
    requires us != [] && Edits(us, base, current) && Disjoint(us, current) && i < |us|
    ensures OrderIndependent(us)
    ensures !Untouched(us[i], current, w.name) ==> (w in Merged(us) <==> w in us[i].workloads)
    ensures (forall k :: 0 <= k < |us| ==> Untouched(us[k], current, w.name)) ==> (w in Merged(us) <==> w in current)
  {
    DisjointIsConflictFree(us, base, current);
    EveryEditApplies(us, base);
    if !Untouched(us[i], current, w.name) {
      TouchedName(us, base, current, w, i);
    } else if forall k :: 0 <= k < |us| ==> Untouched(us[k], current, w.name) {
      UntouchedName(us, base, current, w);
    }
  }

  lemma TouchedName(us: seq<Request>, base: nat, current: seq<Workload>, w: Workload, i: nat)
    requires Edits(us, base, current) && OnlyTouchedBy(us, current, w.name, i) && !Untouched(us[i], current, w.name)
    ensures w in Flat(us) && IsHighest(w, Named(Flat(us), w.name)) && (w.version > base || AllHold(us, w.name)) <==>
              w in us[i].workloads
  {
    var name, copies := w.name, Named(Flat(us), w.name);
    NamedMembers(Flat(us), name);
    NamedMembers(current, name);
    NamedMembers(us[i].workloads, name);
    if w in us[i].workloads {
      InFlat(us, i, w);
      AtMostOne(us[i].workloads, name, w);
      forall c | c in copies ensures c.version <= w.version {
        CopyIsEither(us, current, name, i, c);
        if c in Named(current, name) {
          EditedCopy(us, base, current, name, i, c, w);
        }
      }
      if w in current {
        AtMostOne(current, name, w);
        assert false;
      }
    } else if w in Flat(us) && IsHighest(w, copies) {
      CopyIsEither(us, current, name, i, w);
      if Holds(us[i], name) {
        var d := Named(us[i].workloads, name)[0];
        EditedCopy(us, base, current, name, i, w, d);
        InFlat(us, i, d);
        assert false;
      }
    }
  }

  lemma UntouchedName(us: seq<Request>, base: nat, current: seq<Workload>, w: Workload)
    requires us != [] && Edits(us, base, current)
    requires forall k :: 0 <= k < |us| ==> Untouched(us[k], current, w.name)
    ensures w in Flat(us) && IsHighest(w, Named(Flat(us), w.name)) && (w.version > base || AllHold(us, w.name)) <==>
              w in current
  {
    var name, copies := w.name, Named(Flat(us), w.name);
    NamedMembers(Flat(us), name);
    NamedMembers(current, name);
    NamedMembers(us[0].workloads, name);
    NamedOnce(current, name);
    if w in current {
      InFlat(us, 0, w);
    }
    forall c | c in copies ensures c in Named(current, name) {
      CopyIsEither(us, current, name, 0, c);
    }
  }

  // ---- Edits made by UpdateDeployment ----

  lemma {:induction false} FilterKeepsUnique(ws: seq<Workload>, keep: Workload -> bool)
    requires UniqueNames(ws)
    ensures UniqueNames(Filter(ws, keep))
  {
    if ws != [] {
      var front, last := ws[..|ws| - 1], ws[|ws| - 1];
      FilterKeepsUnique(front, keep);
      forall w | w in Filter(front, keep) ensures w.name != last.name {
        FilterMembers(front, keep, w);
      }
    }
  }

  lemma {:induction false} AddedUnique(known: seq<string>, wanted: seq<Workload>, version: nat)
    ensures UniqueNames(Added(known, wanted, version))
    ensures forall w :: w in Added(known, wanted, version) ==> w.name !in known
  {
    if wanted != [] {
      var before := Added(known, wanted[..|wanted| - 1], version);
      AddedUnique(known, wanted[..|wanted| - 1], version);
      forall w | w in before ensures w.name in Names(before) { NamesMember(before, w); }
    }
  }

  lemma RevisedUnique(current: seq<Workload>, wanted: seq<Workload>, version: nat)
    requires UniqueNames(current)
    ensures UniqueNames(Revised(current, wanted, version))
  {
    var all, stays := EditedAll(current, wanted, version), w => Stays(w, wanted);
    FilterKeepsUnique(all, stays);
    AddedUnique(Names(current), wanted[..Reach(current, wanted)], version);
    forall w | w in Filter(all, stays) ensures w.name in Names(current) {
      FilterMembers(all, stays, w);
      var i :| 0 <= i < |all| && all[i] == w;
      assert Names(current)[i] == w.name;
    }
  }

  /** Requests made by editing one fetched deployment have the version discipline the merge relies on. */
  lemma RevisionsAreEdits(us: seq<Request>, wanteds: seq<seq<Workload>>, base: nat, current: seq<Workload>)
    requires |us| == |wanteds| && UniqueNames(current) && (forall w :: w in current ==> w.version <= base)
    requires forall i :: 0 <= i < |us| ==> Comparable(current, wanteds[i])
    requires forall i :: 0 <= i < |us| ==>
              us[i].version == base && us[i].workloads == Revised(current, wanteds[i], base)
    ensures Edits(us, base, current)
  {
    forall i | 0 <= i < |us| ensures UniqueNames(us[i].workloads) {
      RevisedUnique(current, wanteds[i], base);
    }
    forall i, w | 0 <= i < |us| && w in us[i].workloads && w.version <= base ensures w in current {
      VersionsTellEdits(current, wanteds[i], base, w);
    }
  }
}
