/** `TwinDeploymentHandler.rollback`: compensation for a plan that failed after its contracts were made. */
module Compensation {
  import opened Models
  import opened Sequences
  import opened Batching
  import opened ChainState
  import Revision

  /** A deployment fetched from a node before it was updated. */
  datatype Saved = Saved(contractId: nat, deployed: Deployed)

  /** `challenge_hash`. */
  type Hash = Deployed -> string

  /** What the world answers during a rollback: queries about created contracts, deployments fetched, chunks
      taken by the chain, deployments taken by the nodes. */
  datatype Answers = Answers(queries: nat -> bool, fetches: nat -> bool, accepts: nat -> bool, sends: nat -> bool)

  // ---- Specification ----

  /** `contracts.cancel`: nothing to cancel when the contract is gone. */
  function CancelCall(c: Chain, id: nat): Option<Call> {
    if id in c.live then Some(Cancel(id)) else None
  }

  function Cancels(c: Chain, ids: seq<nat>): seq<Option<Call>> {
    seq(|ids|, i requires 0 <= i < |ids| => CancelCall(c, ids[i]))
  }

  /** The element the `i`-th pop gives. */
  function Popped(stack: seq<Saved>, i: nat): Option<Saved> {
    if i < |stack| then Some(stack[|stack| - 1 - i]) else None
  }

  /** The deployment an updated contract gets back, when there is an original and it differs. */
  function Restored(now: Deployed, original: Option<Saved>): Option<Deployed> {
    if original.None? then None
    else
      match Revision.Revise(now.workloads, original.value.deployed.workloads, now.version)
      case Some(ws) => Some(now.(version := now.version + 1, workloads := ws))
      case None => None
  }

  datatype Restoration = Restoration(place: Place, deployed: Deployed)

  /** What the `i`-th updated contract is given back, on its own node. */
  function Back(c: Chain, nodes: Nodes, updated: seq<nat>, stack: seq<Saved>, i: nat): Option<Restoration>
    requires i < |updated|
  {
    match Running(c, nodes, updated[i])
    case None => None
    case Some(now) => At(Own(c, updated[i]), Restored(now, Popped(stack, i)))
  }

  function At(place: Place, deployed: Option<Deployed>): Option<Restoration> {
    if deployed.Some? then Some(Restoration(place, deployed.value)) else None
  }

  function AsSeq<T>(x: Option<T>): seq<T> { if x.Some? then [x.value] else [] }

  function Restorations(c: Chain, nodes: Nodes, updated: seq<nat>, stack: seq<Saved>, count: nat)
    : (rs: seq<Restoration>)
    requires count <= |updated|
    ensures forall r :: r in rs ==> r.place.contract in updated
  {
    if count == 0 then []
    else Restorations(c, nodes, updated, stack, count - 1) + AsSeq(Back(c, nodes, updated, stack, count - 1))
  }

  lemma RestorationsStep(c: Chain, nodes: Nodes, updated: seq<nat>, stack: seq<Saved>, i: nat, more: seq<Restoration>)
    requires i < |updated| && more == AsSeq(Back(c, nodes, updated, stack, i))
    ensures Restorations(c, nodes, updated, stack, i + 1) == Restorations(c, nodes, updated, stack, i) + more
  {
  }

  function UpdateCalls(rs: seq<Restoration>, hash: Hash): seq<Option<Call>> {
    seq(|rs|, i requires 0 <= i < |rs| => Some(UpdateNode(rs[i].place.contract, hash(rs[i].deployed))))
  }

  function SendAll(nodes: Nodes, rs: seq<Restoration>): Nodes {
    if rs == [] then nodes else SendAll(nodes, rs[..|rs| - 1])[rs[|rs| - 1].place := rs[|rs| - 1].deployed]
  }

  // ---- What the batch does to the contracts ----

  lemma {:induction false} PresentMembers(xs: seq<Option<Call>>, call: Call)
    ensures call in Present(xs) <==> Some(call) in xs
  {
    if xs != [] {
      PresentMembers(xs[..|xs| - 1], call);
      assert xs == xs[..|xs| - 1] + [xs[|xs| - 1]];
    }
  }

  /** Only created contracts are cancelled and only updated ones rewritten. */
  ghost predicate Compensates(calls: seq<Call>, created: seq<nat>, updated: seq<nat>) {
    forall call :: call in calls ==> (call.Cancel? && call.id in created) || (call.UpdateNode? && call.id in updated)
  }

  lemma BatchCompensates(c: Chain, created: seq<nat>, rs: seq<Restoration>, updated: seq<nat>, hash: Hash)
    requires forall r :: r in rs ==> r.place.contract in updated
    ensures var calls := Present(Cancels(c, created) + UpdateCalls(rs, hash));
      && Compensates(calls, created, updated)
      && Cancelled(calls) == (set id | id in created && id in c.live)
  {
    var xs := Cancels(c, created) + UpdateCalls(rs, hash);
    var calls := Present(xs);
    forall call | call in calls
      ensures (call.Cancel? && call.id in created && call.id in c.live) || (call.UpdateNode? && call.id in updated)
    {
      PresentMembers(xs, call);
      var i :| 0 <= i < |xs| && xs[i] == Some(call);
      if i >= |created| {
        assert rs[i - |created|] in rs;
      }
    }
    forall id | id in created && id in c.live ensures id in Cancelled(calls) {
      var i :| 0 <= i < |created| && created[i] == id;
      assert xs[i] == Some(Cancel(id));
      PresentMembers(xs, Cancel(id));
    }
  }

  /** Part of such a batch: it adds nothing, cancels created contracts only, and leaves every contract that is
      neither created nor updated as it was. */
  lemma Compensated(c: Chain, calls: seq<Call>, created: seq<nat>, updated: seq<nat>)
    requires WellFormed(c) && Compensates(calls, created, updated)
    ensures var d := ApplyAll(c, calls);
      && d.live.Keys == c.live.Keys - Cancelled(calls)
      && (forall id :: id in c.live && id !in created ==> id in d.live)
      && (forall id :: id in c.live && id !in created && id !in updated ==> d.live[id] == c.live[id])
  {
    WithoutCreates(c, calls);
    forall id | id in c.live && id !in created && id !in updated ensures ApplyAll(c, calls).live[id] == c.live[id] {
      Unnamed(c, calls, id);
    }
  }

  // ---- The code ----

  /** The state `handle` and `rollback` work on. `originals` is never emptied: it outlives a call. */
  class Handler {
    var chain: Chain
    var nodes: Nodes                // what the nodes run
    var originals: seq<Saved>

    constructor (chain: Chain, nodes: Nodes)
      ensures this.chain == chain && this.nodes == nodes && originals == []
    {
      this.chain, this.nodes, originals := chain, nodes, [];
    }
  }

  ghost predicate QueriesAnswered(created: seq<nat>, a: Answers) {
    forall i :: 0 <= i < |created| ==> a.queries(i)
  }

  /** The `i`-th updated contract can be prepared: its deployment is fetched. The contract is there then, so its
      query succeeds too. */
  predicate Restorable(c: Chain, nodes: Nodes, updated: seq<nat>, a: Answers, i: nat)
    requires i < |updated|
  {
    a.fetches(i) && Running(c, nodes, updated[i]).Some?
  }

  ghost predicate AllRestorable(c: Chain, nodes: Nodes, updated: seq<nat>, a: Answers) {
    forall i :: 0 <= i < |updated| ==> Restorable(c, nodes, updated, a, i)
  }

  method PrepareCancels(h: Handler, created: seq<nat>, a: Answers) returns (extrinsics: Option<seq<Option<Call>>>)
    ensures extrinsics == if QueriesAnswered(created, a) then Some(Cancels(h.chain, created)) else None
  {
    var xs: seq<Option<Call>> := [];
    for i := 0 to |created|
      invariant xs == Cancels(h.chain, created[..i]) && forall k :: 0 <= k < i ==> a.queries(k)
    {
      if !a.queries(i) {
        return None;
      }
      xs := xs + [CancelCall(h.chain, created[i])];
    }
    assert created[..|created|] == created;
    extrinsics := Some(xs);
  }

  method Pop(h: Handler) returns (original: Option<Saved>)
    modifies h`originals
    ensures original == Popped(old(h.originals), 0)
    ensures h.originals == old(h.originals)[..if |old(h.originals)| == 0 then 0 else |old(h.originals)| - 1]
  {
    if |h.originals| == 0 {
      return None;
    }
    original := Some(h.originals[|h.originals| - 1]);
    h.originals := h.originals[..|h.originals| - 1];
  }

  function Less(n: nat, i: nat): nat { if i < n then n - i else 0 }

  /** The first `i` updated contracts are prepared. */
  ghost predicate SoFar(c: Chain, nodes: Nodes, updated: seq<nat>, stack: seq<Saved>, a: Answers, i: nat,
      rs: seq<Restoration>, originals: seq<Saved>)
    requires i <= |updated|
  {
    && (forall k :: 0 <= k < i ==> Restorable(c, nodes, updated, a, k))
    && rs == Restorations(c, nodes, updated, stack, i)
    && originals == stack[..Less(|stack|, i)]
  }

  /** One updated contract: the original popped for it need not be its own. */
  method PrepareRestoration(h: Handler, updated: seq<nat>, i: nat, a: Answers, rs: seq<Restoration>,
      ghost stack: seq<Saved>)
    returns (ok: bool, rs': seq<Restoration>)
    requires i < |updated| && SoFar(h.chain, h.nodes, updated, stack, a, i, rs, h.originals)
    modifies h`originals
    ensures ok <==> Restorable(h.chain, h.nodes, updated, a, i)
    ensures ok ==> SoFar(h.chain, h.nodes, updated, stack, a, i + 1, rs', h.originals)
  {
    var now := Running(h.chain, h.nodes, updated[i]);
    if !a.fetches(i) || now.None? {
      return false, rs;
    }
    var original := Pop(h);
    var more := AsSeq(At(Own(h.chain, updated[i]), Restored(now.value, original)));
    RestorationsStep(h.chain, h.nodes, updated, stack, i, more);
    ok, rs' := true, rs + more;
  }

  method PrepareRestorations(h: Handler, updated: seq<nat>, a: Answers) returns (r: Option<seq<Restoration>>)
    modifies h`originals
    ensures r.Some? <==> AllRestorable(h.chain, h.nodes, updated, a)
    ensures r.Some? ==> r.value == Restorations(h.chain, h.nodes, updated, old(h.originals), |updated|)
    ensures r.Some? ==> h.originals == old(h.originals)[..Less(|old(h.originals)|, |updated|)]
  {
    ghost var stack := h.originals;
    var rs: seq<Restoration> := [];
    for i := 0 to |updated|
      invariant SoFar(h.chain, h.nodes, updated, stack, a, i, rs, h.originals)
    {
      var ok;
      ok, rs := PrepareRestoration(h, updated, i, a, rs, stack);
      if !ok {
        return None;
      }
    }
    r := Some(rs);
  }

  /** Sends until a node refuses; `count` deployments were sent. */
  method SendRestorations(h: Handler, rs: seq<Restoration>, a: Answers) returns (count: nat)
    modifies h`nodes
    ensures count <= |rs| && (count == |rs| <==> forall i :: 0 <= i < |rs| ==> a.sends(i))
    ensures h.nodes == SendAll(old(h.nodes), rs[..count])
  {
    count := 0;
    while count < |rs|
      invariant count <= |rs| && forall k :: 0 <= k < count ==> a.sends(k)
      invariant h.nodes == SendAll(old(h.nodes), rs[..count])
    {
      assert rs[..count + 1][..count] == rs[..count];
      if !a.sends(count) {
        return;
      }
      h.nodes := h.nodes[rs[count].place := rs[count].deployed];
      count := count + 1;
    }
  }

  // ---- Rollback ----

  function RollbackCalls(c: Chain, nodes: Nodes, stack: seq<Saved>, created: seq<nat>, updated: seq<nat>,
      hash: Hash): seq<Call> {
    Present(Cancels(c, created) + UpdateCalls(Restorations(c, nodes, updated, stack, |updated|), hash))
  }

  /** Nothing is submitted unless every query is answered and every deployment fetched; then the chunks of one
      batch, as far as the chain takes them; the nodes get their deployments last, and `count` of them did. */
  method Rollback(h: Handler, created: seq<nat>, updated: seq<nat>, hash: Hash, a: Answers)
    returns (ok: bool, count: nat)
    modifies h
    ensures var calls := RollbackCalls(old(h.chain), old(h.nodes), old(h.originals), created, updated, hash);
      var prepared := QueriesAnswered(created, a) && AllRestorable(old(h.chain), old(h.nodes), updated, a);
      && h.chain == (if prepared then ApplyAll(old(h.chain), Landed(calls, a.accepts)) else old(h.chain))
      && (ok ==> prepared && AllAccepted(calls, a.accepts))
    ensures var rs := Restorations(old(h.chain), old(h.nodes), updated, old(h.originals), |updated|);
      count <= |rs| && h.nodes == SendAll(old(h.nodes), rs[..count]) && (ok ==> count == |rs|)
    ensures ok ==> h.originals == old(h.originals)[..Less(|old(h.originals)|, |updated|)]
  {
    count := 0;
    var cancels := PrepareCancels(h, created, a);
    if cancels.None? {
      return false, count;
    }
    var restorations := PrepareRestorations(h, updated, a);
    if restorations.None? {
      return false, count;
    }
    var chain, taken := Submit(h.chain, cancels.value + UpdateCalls(restorations.value, hash), a.accepts);
    h.chain := chain;
    if taken.None? {
      return false, count;
    }
    count := SendRestorations(h, restorations.value, a);
    ok := count == |restorations.value|;
  }
}
