/** `TwinDeploymentHandler.waitForDeployment`: polls a node until the workloads it runs match the targets. */
module Readiness {
  import opened Models
  import opened Sequences

  datatype ResultState = Okay | Error | Pending

  /** A workload as the node reports it. */
  datatype NodeWorkload = NodeWorkload(name: string, version: nat, state: ResultState)

  datatype Check = IsReady | NotReady | Failed

  // ---- Specification ----

  /** `checkWorkload`: an error is an error whatever the version. */
  function CheckWorkload(n: NodeWorkload, target: Workload): Check {
    if n.state == Error then Failed
    else if n.state == Okay && n.version == target.version then IsReady
    else NotReady
  }

  /** The first target with the name; the number of targets when there is none. */
  function TargetOf(name: string, targets: seq<Workload>): (j: nat)
    ensures j <= |targets|
    ensures forall k :: 0 <= k < j ==> targets[k].name != name
    ensures j < |targets| ==> targets[j].name == name
  {
    if targets == [] then 0
    else if targets[0].name == name then 0
    else 1 + TargetOf(name, targets[1..])
  }

  predicate Ready(n: NodeWorkload, targets: seq<Workload>) {
    TargetOf(n.name, targets) < |targets| && CheckWorkload(n, targets[TargetOf(n.name, targets)]) == IsReady
  }

  predicate Fails(n: NodeWorkload, targets: seq<Workload>) {
    TargetOf(n.name, targets) < |targets| && n.state == Error
  }

  function ReadyCount(ns: seq<NodeWorkload>, targets: seq<Workload>): (c: nat)
    ensures c <= |ns|
  {
    if ns == [] then 0
    else ReadyCount(ns[..|ns| - 1], targets) + (if Ready(ns[|ns| - 1], targets) then 1 else 0)
  }

  ghost predicate AnyFails(ns: seq<NodeWorkload>, targets: seq<Workload>) {
    exists i :: 0 <= i < |ns| && Fails(ns[i], targets)
  }

  // ---- What the count says ----

  lemma {:induction false} FullCount(ns: seq<NodeWorkload>, targets: seq<Workload>)
    ensures ReadyCount(ns, targets) == |ns| <==> forall i :: 0 <= i < |ns| ==> Ready(ns[i], targets)
  {
    if ns != [] {
      FullCount(ns[..|ns| - 1], targets);
    }
  }

  ghost predicate UniqueNodeNames(ns: seq<NodeWorkload>) {
    forall i, j :: 0 <= i < j < |ns| ==> ns[i].name != ns[j].name
  }

  predicate Meets(n: NodeWorkload, target: Workload) {
    n.name == target.name && n.version == target.version && n.state == Okay
  }

  /** Every target is met, each by a workload of its own. */
  ghost predicate Matched(ns: seq<NodeWorkload>, targets: seq<Workload>, partner: seq<nat>) {
    && |partner| == |targets| && NoDuplicates(partner)
    && forall j :: 0 <= j < |targets| ==> partner[j] < |ns| && Meets(ns[partner[j]], targets[j])
  }

  ghost predicate Accepted(ns: seq<NodeWorkload>, targets: seq<Workload>) {
    |ns| == |targets| && ReadyCount(ns, targets) == |targets|
  }

  /** The count is taken over what the node reports, not over the targets; still, when the node's names are
      distinct, a full count means every target is met, one to one. */
  lemma AcceptedIsMatched(ns: seq<NodeWorkload>, targets: seq<Workload>) returns (partner: seq<nat>)
    requires Accepted(ns, targets) && UniqueNodeNames(ns)
    ensures Matched(ns, targets, partner)
  {
    FullCount(ns, targets);
    var slots := seq(|ns|, i requires 0 <= i < |ns| => TargetOf(ns[i].name, targets));
    forall i | 0 <= i < |ns| ensures slots[i] < |ns| {
      assert Ready(ns[i], targets);
    }
    forall i, j | 0 <= i < j < |ns| ensures slots[i] != slots[j] {
      assert Ready(ns[i], targets) && Ready(ns[j], targets);
    }
    InjectionIsOnto(slots, |ns|);
    partner := seq(|targets|, j requires 0 <= j < |targets| => IndexOf(slots, j));
    forall j | 0 <= j < |targets| ensures partner[j] < |ns| && Meets(ns[partner[j]], targets[j]) {
      assert Ready(ns[partner[j]], targets);
    }
  }

  /** When the targets' names are distinct, the count is full as soon as every target is met. */
  lemma MatchedIsAccepted(ns: seq<NodeWorkload>, targets: seq<Workload>, partner: seq<nat>)
    requires |ns| == |targets| && UniqueNames(targets) && Matched(ns, targets, partner)
    ensures Accepted(ns, targets) && !AnyFails(ns, targets)
  {
    InjectionIsOnto(partner, |ns|);
    forall i | 0 <= i < |ns| ensures Ready(ns[i], targets) && !Fails(ns[i], targets) {
      var j := IndexOf(partner, i);
      assert Meets(ns[i], targets[j]);
      assert TargetOf(ns[i].name, targets) == j;
    }
    FullCount(ns, targets);
  }

  /** A match leaves the node no workload to report twice. */
  lemma MatchedHasUniqueNames(ns: seq<NodeWorkload>, targets: seq<Workload>, partner: seq<nat>)
    requires |ns| == |targets| && UniqueNames(targets) && Matched(ns, targets, partner)
    ensures UniqueNodeNames(ns)
  {
    InjectionIsOnto(partner, |ns|);
    forall i, j | 0 <= i < j < |ns| ensures ns[i].name != ns[j].name {
      var k, m := IndexOf(partner, i), IndexOf(partner, j);
      assert Meets(ns[i], targets[k]) && Meets(ns[j], targets[m]);
      assert k < m ==> targets[k].name != targets[m].name;
      assert m < k ==> targets[m].name != targets[k].name;
    }
  }

  /** When the targets' names are distinct, an accepted report is a match exactly when its names are distinct. */
  lemma AcceptedMatchesExactly(ns: seq<NodeWorkload>, targets: seq<Workload>)
    requires Accepted(ns, targets) && UniqueNames(targets)
    ensures (exists partner: seq<nat> :: Matched(ns, targets, partner)) <==> UniqueNodeNames(ns)
  {
    if UniqueNodeNames(ns) {
      var partner := AcceptedIsMatched(ns, targets);
    }
    if partner: seq<nat> :| Matched(ns, targets, partner) {
      MatchedHasUniqueNames(ns, targets, partner);
    }
  }

  /** So a report with distinct names is accepted exactly when it is a match, and no other report is one. */
  lemma AcceptedExactly(ns: seq<NodeWorkload>, targets: seq<Workload>)
    requires |ns| == |targets| && UniqueNames(targets)
    ensures Accepted(ns, targets) && UniqueNodeNames(ns) <==> exists partner: seq<nat> :: Matched(ns, targets, partner)
  {
    if partner: seq<nat> :| Matched(ns, targets, partner) {
      MatchedIsAccepted(ns, targets, partner);
    }
    if Accepted(ns, targets) {
      AcceptedMatchesExactly(ns, targets);
    }
  }

  /** A node that reports one name twice can hide a missing workload. */
  lemma DuplicatesHideMissing(a: Workload, b: Workload)
    requires a.name != b.name
    ensures var n := NodeWorkload(a.name, a.version, Okay);
      Accepted([n, n], [a, b]) && forall m :: m in [n, n] ==> !Meets(m, b)
  {
    var n := NodeWorkload(a.name, a.version, Okay);
    assert Ready(n, [a, b]);
    FullCount([n, n], [a, b]);
  }

  // ---- The code ----

  method CountReady(ns: seq<NodeWorkload>, targets: seq<Workload>) returns (failed: bool, readyWorkloads: nat)
    ensures failed <==> AnyFails(ns, targets)
    ensures !failed ==> readyWorkloads == ReadyCount(ns, targets)
  {
    failed, readyWorkloads := false, 0;
    for i := 0 to |ns|
      invariant readyWorkloads == ReadyCount(ns[..i], targets)
      invariant forall k :: 0 <= k < i ==> !Fails(ns[k], targets)
    {
      assert ns[..i + 1][..i] == ns[..i];
      var check := NotReady;
      for j := 0 to |targets|
        invariant j <= TargetOf(ns[i].name, targets) && check == NotReady
      {
        if targets[j].name == ns[i].name {
          check := CheckWorkload(ns[i], targets[j]);
          break;
        }
      }
      match check
      case Failed => return true, readyWorkloads;
      case IsReady => readyWorkloads := readyWorkloads + 1;
      case NotReady =>
    }
    assert ns[..|ns|] == ns;
  }

  datatype Wait = ReadyAt(poll: nat) | DeployError(poll: nat) | TimedOut

  /** `polls` is what the node reports at each poll until the timeout. Returns at the first poll that is
      accepted or fails; a report of another length is not looked at. */
  method WaitForDeployment(polls: seq<seq<NodeWorkload>>, targets: seq<Workload>) returns (r: Wait)
    ensures r.ReadyAt? ==> r.poll < |polls| && Accepted(polls[r.poll], targets) && !AnyFails(polls[r.poll], targets)
    ensures r.DeployError? ==> r.poll < |polls| && |polls[r.poll]| == |targets| && AnyFails(polls[r.poll], targets)
    ensures forall k :: 0 <= k < (if r.TimedOut? then |polls| else r.poll) ==>
              |polls[k]| != |targets| || (!AnyFails(polls[k], targets) && !Accepted(polls[k], targets))
  {
    for k := 0 to |polls|
      invariant forall m :: 0 <= m < k ==>
                |polls[m]| != |targets| || (!AnyFails(polls[m], targets) && !Accepted(polls[m], targets))
    {
      if |polls[k]| != |targets| {
        continue;
      }
      var failed, readyWorkloads := CountReady(polls[k], targets);
      if failed {
        return DeployError(k);
      }
      if readyWorkloads == |targets| {
        return ReadyAt(k);
      }
    }
    r := TimedOut;
  }
}
