/** What a rollback gives back to the nodes, one updated contract at a time. */
module Undoing {
  import opened Models
  import opened Sequences
  import opened ChainState
  import opened Compensation
  import opened Handle
  import opened HandleResults
  import opened Agreement
  import R = Revision

  // ---- One updated contract ----

  ghost predicate CarriesAll(after: seq<Workload>, before: seq<Workload>) {
    forall x :: x in before && x.kind != Network ==> R.IsCarried(after, x)
  }

  /** What a node runs `after` it ran `now` and was asked to run `before` again: every workload is there again if and
      only if the edit can make each one, and nothing else is there. */
  ghost predicate BackAsFar(now: Deployed, before: Deployed, after: Deployed) {
    && (CarriesAll(after.workloads, before.workloads) <==>
        forall j :: 0 <= j < |before.workloads| && before.workloads[j].kind != Network ==>
          R.Applies(now.workloads, before.workloads, j))
    && forall r :: r in after.workloads ==> R.Accounted(now.workloads, before.workloads, r)
  }

  lemma RevisedBack(now: Deployed, before: Deployed, after: Deployed)
    requires R.Comparable(now.workloads, before.workloads)
    requires after.workloads == R.Revised(now.workloads, before.workloads, now.version)
    ensures BackAsFar(now, before, after)
  {
    R.AppliesExactly(now.workloads, before.workloads, now.version);
    forall r | r in after.workloads ensures R.Accounted(now.workloads, before.workloads, r) {
      R.NothingElse(now.workloads, before.workloads, now.version, r);
    }
  }

  function OrElse<T>(x: Option<T>, otherwise: T): T { if x.Some? then x.value else otherwise }

  lemma RestoredBack(now: Deployed, s: Saved)
    requires R.Comparable(now.workloads, s.deployed.workloads)
    ensures BackAsFar(now, s.deployed, OrElse(Restored(now, Some(s)), now))
  {
    if Restored(now, Some(s)).None? {
      R.NotFoundSame(now.workloads, s.deployed.workloads, now.version);
    }
    RevisedBack(now, s.deployed, OrElse(Restored(now, Some(s)), now));
  }

  ghost predicate IsBack(c: Chain, nodes: Nodes, updated: seq<nat>, stack: seq<Saved>, i: nat, r: Restoration)
    requires i < |updated|
  {
    Back(c, nodes, updated, stack, i) == Some(r)
  }

  lemma {:induction false} RestorationsMembers(c: Chain, nodes: Nodes, updated: seq<nat>, stack: seq<Saved>, count: nat,
      r: Restoration)
    requires count <= |updated|
    ensures r in Restorations(c, nodes, updated, stack, count) <==>
              exists i :: 0 <= i < count && IsBack(c, nodes, updated, stack, i, r)
  {
    hide Restored, Running, Own;
    if count > 0 {
      var i := count - 1;
      var more := AsSeq(Back(c, nodes, updated, stack, i));
      RestorationsMembers(c, nodes, updated, stack, i, r);
      RestorationsStep(c, nodes, updated, stack, i, more);
      assert r in more <==> IsBack(c, nodes, updated, stack, i, r);
    }
  }

  lemma {:induction false} SentElsewhere(nodes: Nodes, rs: seq<Restoration>, place: Place)
    requires forall r :: r in rs ==> r.place != place
    ensures Same(nodes, SendAll(nodes, rs), place)
  {
    if rs != [] {
      assert rs[|rs| - 1] in rs;
      SentElsewhere(nodes, rs[..|rs| - 1], place);
    }
  }

  lemma BackPlace(c: Chain, nodes: Nodes, updated: seq<nat>, stack: seq<Saved>, i: nat, r: Restoration)
    requires i < |updated| && IsBack(c, nodes, updated, stack, i, r)
    ensures IsNode(c, updated[i]) && r.place == Own(c, updated[i]) && r.place.contract == updated[i]
  {
  }

  lemma NothingBack(c: Chain, nodes: Nodes, updated: seq<nat>, stack: seq<Saved>, i: nat)
    requires NoDuplicates(updated) && i < |updated| && Back(c, nodes, updated, stack, i).None?
    ensures forall r :: r in Restorations(c, nodes, updated, stack, |updated|) ==> r.place.contract != updated[i]
  {
    forall r | r in Restorations(c, nodes, updated, stack, |updated|) ensures r.place.contract != updated[i] {
      RestorationsMembers(c, nodes, updated, stack, |updated|, r);
      var k :| 0 <= k < |updated| && IsBack(c, nodes, updated, stack, k, r);
      BackPlace(c, nodes, updated, stack, k, r);
      assert k != i;
    }
  }

  /** What the `i`-th updated contract gets back is on its own node afterwards, or else what was there. */
  lemma GivenBack(c: Chain, nodes: Nodes, updated: seq<nat>, stack: seq<Saved>, i: nat)
    requires NoDuplicates(updated) && i < |updated| && Running(c, nodes, updated[i]).Some?
    ensures var place, now := Own(c, updated[i]), Running(c, nodes, updated[i]).value;
      var after := SendAll(nodes, Restorations(c, nodes, updated, stack, |updated|));
      place in after && after[place] == OrElse(Restored(now, Popped(stack, i)), now)
  {
    var rs, back := Restorations(c, nodes, updated, stack, |updated|), Back(c, nodes, updated, stack, i);
    if back.Some? {
      assert IsBack(c, nodes, updated, stack, i, back.value);
      RestorationsMembers(c, nodes, updated, stack, |updated|, back.value);
      RestoredOnce(c, nodes, updated, stack, |updated|);
      SentRestoration(nodes, rs, IndexOf(rs, back.value));
    } else {
      NothingBack(c, nodes, updated, stack, i);
      SentElsewhere(nodes, rs, Own(c, updated[i]));
    }
  }

  /** After a whole rollback the own node of an updated contract runs the original popped for it, as far as the edit
      from what it ran can make it; with no original left it runs what it ran. */
  lemma OriginalRestored(c: Chain, nodes: Nodes, updated: seq<nat>, stack: seq<Saved>, i: nat)
    requires NoDuplicates(updated) && i < |updated| && Running(c, nodes, updated[i]).Some?
    requires var now, original := Running(c, nodes, updated[i]).value, Popped(stack, i);
      original.Some? ==> R.Comparable(now.workloads, original.value.deployed.workloads)
    ensures var place, now := Own(c, updated[i]), Running(c, nodes, updated[i]).value;
      var after := SendAll(nodes, Restorations(c, nodes, updated, stack, |updated|));
      && place in after
      && (if Popped(stack, i).Some? then BackAsFar(now, Popped(stack, i).value.deployed, after[place])
          else after[place] == now)
  {
    GivenBack(c, nodes, updated, stack, i);
    if Popped(stack, i).Some? {
      RestoredBack(Running(c, nodes, updated[i]).value, Popped(stack, i).value);
    }
  }

  /** A rollback changes nothing at a place that is not an updated contract's own. */
  lemma OtherPlacesStay(c: Chain, nodes: Nodes, updated: seq<nat>, stack: seq<Saved>, place: Place)
    requires !(place.contract in updated && IsNode(c, place.contract) && place == Own(c, place.contract))
    ensures Same(nodes, SendAll(nodes, Restorations(c, nodes, updated, stack, |updated|)), place)
  {
    forall r | r in Restorations(c, nodes, updated, stack, |updated|) ensures r.place != place {
      OnOwnNode(c, nodes, updated, stack, |updated|, r);
    }
    SentElsewhere(nodes, Restorations(c, nodes, updated, stack, |updated|), place);
  }

  // ---- What a run has pushed ----

  lemma {:induction false} SavedGrows(c: Chain, nodes: Nodes, plan: seq<Request>, reports: seq<Contract>, w: World,
      a: nat, b: nat)
    requires a <= b <= |plan|
    ensures SavedBy(c, nodes, plan, reports, w, a) <= SavedBy(c, nodes, plan, reports, w, b)
  {
    if a < b {
      SavedGrows(c, nodes, plan, reports, w, a, b - 1);
    }
  }

  lemma {:induction false} SavedCount(c: Chain, nodes: Nodes, plan: seq<Request>, reports: seq<Contract>, w: World,
      n: nat)
    requires n <= |plan|
    ensures |SavedBy(c, nodes, plan, reports, w, n)| <= |UpdateIds(plan[..n])|
  {
    if n > 0 {
      SavedCount(c, nodes, plan, reports, w, n - 1);
      UpdateIdsNext(plan, n - 1);
      SavedAtMost(c, NodesAt(nodes, plan, reports, w, n - 1), plan[n - 1], w, n - 1);
    }
  }

  lemma {:induction false} UpdateCount(plan: seq<Request>, n: nat, m: nat, t: nat)
    requires InOrder(plan, n, m) && t <= |plan|
    ensures |UpdateIds(plan[..t])| == if t <= n then 0 else if t <= m then t - n else m - n
  {
    if t > 0 {
      UpdateCount(plan, n, m, t - 1);
      UpdateIdsNext(plan, t - 1);
    }
  }

  lemma WentUpTo(c: Chain, d: Chain, nodes: Nodes, plan: seq<Request>, reports: seq<Contract>, w: World, sent: nat)
    requires WellFormed(c) && AllPreparable(c, plan, w) && GoesUpTo(d, nodes, plan, reports, w, sent)
    ensures AllWent(d, nodes, plan, reports, w, sent)
  {
    forall k | 0 <= k < sent ensures Went(d, nodes, plan, reports, w, k) {
      assert Preparable(c, plan[k], w) && GoesAt(d, nodes, plan, reports, w, k);
    }
  }

  lemma SavedAfter(d: Chain, nodes: Nodes, plan: seq<Request>, reports: seq<Contract>, w: World, k: nat, i: nat)
    requires k < |plan| && |SavedBy(d, nodes, plan, reports, w, k)| == i
    requires Saves(d, NodesAt(nodes, plan, reports, w, k), plan[k], w, k) != []
    ensures i < |SavedBy(d, nodes, plan, reports, w, k + 1)|
    ensures SavedBy(d, nodes, plan, reports, w, k + 1)[i] ==
              Saves(d, NodesAt(nodes, plan, reports, w, k), plan[k], w, k)[0]
  {
  }

  lemma PushedBefore(d: Chain, nodes: Nodes, plan: seq<Request>, reports: seq<Contract>, w: World, n: nat, m: nat,
      i: nat, sent: nat)
    requires InOrder(plan, n, m) && sent <= |plan| && AllWent(d, nodes, plan, reports, w, sent)
    requires i < |SavedBy(d, nodes, plan, reports, w, Started(plan, sent))|
    ensures n + i < m && n + i < Started(plan, sent) && |SavedBy(d, nodes, plan, reports, w, n + i)| == i
  {
    hide SavedBy, NodesAt, UpdateIds, Went;
    SavedCount(d, nodes, plan, reports, w, Started(plan, sent));
    UpdateCount(plan, n, m, Started(plan, sent));
    UpdateCount(plan, n, m, n + i);
    SavedInOrder(d, nodes, plan, reports, w, n + i);
  }

  lemma PushesThere(d: Chain, nodes: Nodes, plan: seq<Request>, reports: seq<Contract>, w: World, k: nat, sent: nat)
    requires sent <= |plan| && AllWent(d, nodes, plan, reports, w, sent)
    requires k < Started(plan, sent) && plan[k].op == Update
    requires |SavedBy(d, nodes, plan, reports, w, k)| < |SavedBy(d, nodes, plan, reports, w, Started(plan, sent))|
    ensures Saves(d, NodesAt(nodes, plan, reports, w, k), plan[k], w, k) != []
  {
    hide NodesAt, Saves;
    if k < sent {
      assert Went(d, nodes, plan, reports, w, k);
      SavedOne(d, NodesAt(nodes, plan, reports, w, k), plan[k], reports, w, k);
    }
  }

  /** When more than `i` originals were pushed, the `i`-th is the one the `i`-th update pushed. */
  lemma PushedAt(d: Chain, nodes: Nodes, plan: seq<Request>, reports: seq<Contract>, w: World, n: nat, m: nat, i: nat,
      sent: nat)
    requires InOrder(plan, n, m) && sent <= |plan| && AllWent(d, nodes, plan, reports, w, sent)
    requires i < |SavedBy(d, nodes, plan, reports, w, Started(plan, sent))|
    ensures n + i < m
    ensures var saves := Saves(d, NodesAt(nodes, plan, reports, w, n + i), plan[n + i], w, n + i);
      saves != [] && SavedBy(d, nodes, plan, reports, w, Started(plan, sent))[i] == saves[0]
  {
    var k := n + i;
    PushedBefore(d, nodes, plan, reports, w, n, m, i, sent);
    PushesThere(d, nodes, plan, reports, w, k, sent);
    SavedAfter(d, nodes, plan, reports, w, k, i);
    SavedGrows(d, nodes, plan, reports, w, k + 1, Started(plan, sent));
  }

  /** An update finds its contract's own node as it was at the start. */
  lemma UpdateSaves(c: Chain, nodes: Nodes, plan: seq<Request>, w: World, n: nat, m: nat, k: nat, d: Chain,
      reports: seq<Contract>)
    requires WellFormed(c) && AllPreparable(c, plan, w) && Merged(plan, n, m) && n <= k < m
    requires Batch(c, plan, w, PreparedAll(c, plan, w), d, reports)
    ensures Running(d, NodesAt(nodes, plan, reports, w, k), plan[k].contractId) == Running(c, nodes, plan[k].contractId)
  {
    var u := plan[k].contractId;
    assert Preparable(c, plan[k], w);
    PreparedSound(c, plan, w);
    NodeStays(c, Creations(PreparedAll(c, plan, w)), u, "");
    forall i | 0 <= i < k ensures Destination(plan[i], reports, w) != Own(c, u) {
      if Destination(plan[i], reports, w) == Own(c, u) {
        SentForOwn(c, plan, w, n, m, k, i, reports);
      }
    }
    Untouched(nodes, plan, reports, w, k, Own(c, u));
  }

  // ---- A whole run ----

  lemma {:induction false} NodesGrow(nodes: Nodes, plan: seq<Request>, reports: seq<Contract>, w: World, n: nat,
      place: Place)
    requires n <= |plan| && place in nodes
    ensures place in NodesAt(nodes, plan, reports, w, n)
  {
    if n > 0 {
      NodesGrow(nodes, plan, reports, w, n - 1, place);
    }
  }

  /** The contract of an update that was not deleted is on its node still when the rollback starts. */
  lemma StillThere(c: Chain, plan: seq<Request>, w: World, n: nat, m: nat, k: nat, deleting: bool, p: Prepared,
      e: Chain)
    requires WellFormed(c) && AllPreparable(c, plan, w) && InOrder(plan, n, m) && n <= k < m
    requires p == PreparedAll(c, plan, w) && e == ChainThen(c, p, w, deleting)
    requires plan[k].contractId !in Gone(p, w, deleting)
    ensures IsNode(e, plan[k].contractId) && Own(e, plan[k].contractId) == MeantPlace(c, plan, w, k)
  {
    var u := plan[k].contractId;
    assert Preparable(c, plan[k], w);
    PreparedSound(c, plan, w);
    NodeStays(c, Creations(p), u, "");
    if deleting {
      CreatedAreNew(c, p);
      DeletesOnly(c, ApplyAll(c, Creations(p)), p, w.deletes);
    }
  }

  lemma SavesRunning(d: Chain, now: Nodes, r: Request, w: World, k: nat, before: Option<Deployed>)
    requires Running(d, now, r.contractId) == before && Saves(d, now, r, w, k) != []
    ensures before.Some? && Saves(d, now, r, w, k)[0] == Saved(r.contractId, before.value)
  {
  }

  /** The `i`-th original pushed is what the own node of the `i`-th update's contract ran at the start. */
  lemma PushedIs(c: Chain, nodes: Nodes, plan: seq<Request>, w: World, n: nat, m: nat, i: nat, sent: nat, p: Prepared,
      d: Chain, reports: seq<Contract>, pushed: seq<Saved>, before: Option<Deployed>)
    requires WellFormed(c) && AllPreparable(c, plan, w) && Merged(plan, n, m) && Batch(c, plan, w, p, d, reports)
    requires GoesUpTo(d, nodes, plan, reports, w, sent)
    requires pushed == SavedBy(d, nodes, plan, reports, w, Started(plan, sent)) && i < |pushed|
    requires n + i < m && before == Running(c, nodes, plan[n + i].contractId)
    ensures before.Some? && pushed[i] == Saved(plan[n + i].contractId, before.value)
  {
    hide WellFormed, AllPreparable, AllWent, PreparedAll, SavedBy, NodesAt, Saves;
    WentUpTo(c, d, nodes, plan, reports, w, sent);
    PushedAt(d, nodes, plan, reports, w, n, m, i, sent);
    UpdateSaves(c, nodes, plan, w, n, m, n + i, d, reports);
    SavesRunning(d, NodesAt(nodes, plan, reports, w, n + i), plan[n + i], w, n + i, before);
  }

  /** The middle one of the originals pushed goes back to the contract it was pushed for, whatever lies below. */
  lemma MiddleRestored(e: Chain, now: Nodes, updated: seq<nat>, stale: seq<Saved>, pushed: seq<Saved>, i: nat,
      place: Place, before: Deployed)
    requires NoDuplicates(updated) && i < |updated| && |pushed| == 2 * i + 1 && pushed[i] == Saved(updated[i], before)
    requires IsNode(e, updated[i]) && place == Own(e, updated[i]) && place in now
    requires R.Comparable(now[place].workloads, before.workloads)
    ensures var after := SendAll(now, Restorations(e, now, updated, stale + pushed, |updated|));
      place in after && BackAsFar(now[place], before, after[place])
  {
    assert Popped(stale + pushed, i) == Some(pushed[i]);
    OriginalRestored(e, now, updated, stale + pushed, i);
  }

  lemma UpdatedAt(c: Chain, plan: seq<Request>, w: World, n: nat, m: nat, i: nat, updated: seq<nat>)
    requires InOrder(plan, n, m) && n + i < m && updated == PreparedAll(c, plan, w).updated
    ensures updated == UpdateIds(plan) && i < |updated| && updated[i] == plan[n + i].contractId
  {
    UpdatedInOrder(c, plan, w);
    UpdateCount(plan, n, m, n + i);
    UpdateIdAt(plan, n + i);
  }

  /** The own node of the contract whose original is the middle one of those pushed, after a whole rollback. */
  lemma MiddleBack(c: Chain, nodes: Nodes, plan: seq<Request>, w: World, n: nat, m: nat, i: nat, sent: nat, p: Prepared,
      d: Chain, reports: seq<Contract>, stale: seq<Saved>, pushed: seq<Saved>, e: Chain, now: Nodes)
    requires WellFormed(c) && AllPreparable(c, plan, w) && Merged(plan, n, m) && Batch(c, plan, w, p, d, reports)
    requires GoesUpTo(d, nodes, plan, reports, w, sent) && n + i < m && |pushed| == 2 * i + 1
    requires pushed == SavedBy(d, nodes, plan, reports, w, Started(plan, sent))
    requires now == NodesAt(nodes, plan, reports, w, sent)
    requires IsNode(e, plan[n + i].contractId) && Own(e, plan[n + i].contractId) == MeantPlace(c, plan, w, n + i)
    requires var place := MeantPlace(c, plan, w, n + i);
      place in now && place in nodes ==> R.Comparable(now[place].workloads, nodes[place].workloads)
    ensures var place := MeantPlace(c, plan, w, n + i);
      var after := SendAll(now, Restorations(e, now, p.updated, stale + pushed, |p.updated|));
      && place in nodes && place in now && place in after
      && BackAsFar(now[place], nodes[place], after[place])
  {
    var place := MeantPlace(c, plan, w, n + i);
    var before := Running(c, nodes, plan[n + i].contractId);
    PushedIs(c, nodes, plan, w, n, m, i, sent, p, d, reports, pushed, before);
    assert place in nodes && nodes[place] == before.value;
    NodesGrow(nodes, plan, reports, w, sent, place);
    UpdatedAt(c, plan, w, n, m, i, p.updated);
    MiddleRestored(e, now, p.updated, stale, pushed, i, place, nodes[place]);
  }

  /** A run that failed after its batch, and was rolled back: what the batch left and reported, the originals pushed,
      the chain and the nodes when the rollback began, and the nodes after it. */
  ghost predicate RunUndone(c: Chain, nodes: Nodes, stale: seq<Saved>, plan: seq<Request>, w: World, deleting: bool,
      sent: nat, p: Prepared, d: Chain, reports: seq<Contract>, pushed: seq<Saved>, e: Chain, now: Nodes, after: Nodes)
  {
    && Batch(c, plan, w, p, d, reports) && GoesUpTo(d, nodes, plan, reports, w, sent)
    && pushed == SavedBy(d, nodes, plan, reports, w, Started(plan, sent))
    && now == NodesAt(nodes, plan, reports, w, sent)
    && e == ChainThen(c, p, w, deleting)
    && after == SendAll(now, Restorations(e, now, p.updated, stale + pushed, |p.updated|))
  }

  /** This is what `Handle.Handle` says of the outcome `Undone`. */
  lemma LeftIsUndone(c: Chain, nodes: Nodes, stale: seq<Saved>, plan: seq<Request>, p: Prepared, w: World,
      deleting: bool, sent: nat, chainAfter: Chain, after: Nodes)
    returns (d: Chain, reports: seq<Contract>, pushed: seq<Saved>, e: Chain, now: Nodes)
    requires p == PreparedAll(c, plan, w) && sent <= |plan|
    requires var all := |RestoredThen(c, nodes, stale, plan, p, w, deleting, sent)|;
      Left(c, nodes, stale, plan, p, w, deleting, sent, all, chainAfter, after)
    ensures RunUndone(c, nodes, stale, plan, w, deleting, sent, p, d, reports, pushed, e, now, after)
  {
    d, reports := ApplyAll(c, Creations(p)), Reports(c, Creations(p));
    pushed := SavedBy(d, nodes, plan, reports, w, Started(plan, sent));
    e, now := ChainThen(c, p, w, deleting), NodesAt(nodes, plan, reports, w, sent);
    WholePrefix(RestoredThen(c, nodes, stale, plan, p, w, deleting, sent));
  }

  /** When a run fails with an odd number of originals pushed and is rolled back, the own node of the middle one's
      contract runs what it ran at the start, as far as the edit from what it runs by then can make it, unless the
      contract is deleted. What earlier calls left over makes no difference, nor do the other updates of the plan; with
      a single original pushed it is the first update's. */
  lemma MiddleUpdateUndone(c: Chain, nodes: Nodes, stale: seq<Saved>, plan: seq<Request>, w: World, n: nat, m: nat,
      i: nat, deleting: bool, sent: nat, p: Prepared, d: Chain, reports: seq<Contract>, pushed: seq<Saved>, e: Chain,
      now: Nodes, after: Nodes)
    requires WellFormed(c) && AllPreparable(c, plan, w) && Merged(plan, n, m) && n + i < m
    requires RunUndone(c, nodes, stale, plan, w, deleting, sent, p, d, reports, pushed, e, now, after)
    requires |pushed| == 2 * i + 1 && plan[n + i].contractId !in Gone(p, w, deleting)
    requires var place := MeantPlace(c, plan, w, n + i);
      place in now && place in nodes ==> R.Comparable(now[place].workloads, nodes[place].workloads)
    ensures var place := MeantPlace(c, plan, w, n + i);
      place in nodes && place in now && place in after && BackAsFar(now[place], nodes[place], after[place])
  {
    hide WellFormed, AllPreparable, InOrder, GoesUpTo, PreparedAll, ChainThen, Gone, SavedBy, NodesAt, Restorations;
    StillThere(c, plan, w, n, m, n + i, deleting, p, e);
    MiddleBack(c, nodes, plan, w, n, m, i, sent, p, d, reports, stale, pushed, e, now);
  }

  /** In particular, after a run that has pushed a single original, however many updates its plan has and whatever
      earlier runs left over. */
  lemma SingleUpdateUndone(c: Chain, nodes: Nodes, stale: seq<Saved>, plan: seq<Request>, w: World, n: nat, m: nat,
      deleting: bool, sent: nat, p: Prepared, chainAfter: Chain, after: Nodes)
    requires WellFormed(c) && AllPreparable(c, plan, w) && Merged(plan, n, m) && n < m && sent <= |plan|
    requires p == PreparedAll(c, plan, w) && plan[n].contractId !in Gone(p, w, deleting)
    requires var all := |RestoredThen(c, nodes, stale, plan, p, w, deleting, sent)|;
      Left(c, nodes, stale, plan, p, w, deleting, sent, all, chainAfter, after)
    requires var d, reports := ApplyAll(c, Creations(p)), Reports(c, Creations(p));
      |SavedBy(d, nodes, plan, reports, w, Started(plan, sent))| == 1
    requires var place, now := MeantPlace(c, plan, w, n), NodesThen(c, nodes, plan, p, w, sent);
      place in now && place in nodes ==> R.Comparable(now[place].workloads, nodes[place].workloads)
    ensures var place, now := MeantPlace(c, plan, w, n), NodesThen(c, nodes, plan, p, w, sent);
      place in nodes && place in now && place in after && BackAsFar(now[place], nodes[place], after[place])
  {
    hide WellFormed, AllPreparable, Merged, GoesUpTo, PreparedAll, ChainThen, Gone, SavedBy, NodesAt, Restorations;
    hide Left, BackAsFar, MeantPlace;
    var d, reports, pushed, e, now := LeftIsUndone(c, nodes, stale, plan, p, w, deleting, sent, chainAfter, after);
    MiddleUpdateUndone(c, nodes, stale, plan, w, n, m, 0, deleting, sent, p, d, reports, pushed, e, now, after);
  }
}
