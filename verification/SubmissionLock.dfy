/** The lock around `applyExtrinsic`: any number of callers, steps in any order, every submission ending in
    success or failure. */
module SubmissionLock {
  import opened Models
  import opened Sequences

  type Caller = nat

  /** The lock: callers that find it taken queue up, and a release hands it to the first of them. */
  class AwaitLock {
    var acquired: bool
    var waiting: seq<Caller>

    constructor ()
      ensures !acquired && waiting == []
    {
      acquired, waiting := false, [];
    }

    method Acquire(c: Caller) returns (granted: bool)
      modifies this
      ensures Lock(acquired, waiting) == Lock(old(acquired), old(waiting)).Acquired(c)
      ensures granted <==> !old(acquired)
    {
      granted := !acquired;
      if acquired {
        waiting := waiting + [c];
      } else {
        acquired := true;
      }
    }

    method Release() returns (next: Option<Caller>)
      requires acquired
      modifies this
      ensures Lock(acquired, waiting) == Lock(old(acquired), old(waiting)).Released()
      ensures next == Lock(old(acquired), old(waiting)).Next()
    {
      if |waiting| > 0 {
        next := Some(waiting[0]);
        waiting := waiting[1..];
      } else {
        next := None;
        acquired := false;
      }
    }
  }

  /** The value of the lock. */
  datatype Lock = Lock(acquired: bool, waiting: seq<Caller>)
  {
    function Acquired(c: Caller): Lock {
      if acquired then Lock(true, waiting + [c]) else Lock(true, waiting)
    }

    function Released(): Lock {
      if waiting == [] then Lock(false, []) else Lock(true, waiting[1..])
    }

    function Next(): Option<Caller> {
      if waiting == [] then None else Some(waiting[0])
    }
  }

  /** Where a call to `applyExtrinsic` stands. A settled one has yet to run its `finally`. */
  datatype Phase = Waiting | InFlight | Settled(ok: bool) | Done(ok: bool)

  /** `called`, `started` and `finished` record the order in which that happened. */
  datatype State = State(
    lock: Lock, calls: map<Caller, Phase>,
    called: seq<Caller>, started: seq<Caller>, finished: seq<Caller>)

  const START := State(Lock(false, []), map[], [], [], [])

  datatype Step = Call(c: Caller) | Settle(c: Caller, ok: bool) | Finally(c: Caller)

  predicate Enabled(s: State, step: Step) {
    match step
    case Call(c) => c !in s.calls
    case Settle(c, _) => c in s.calls && s.calls[c] == InFlight
    case Finally(c) => c in s.calls && s.calls[c].Settled?
  }

  function Next(s: State, step: Step): State
    requires Enabled(s, step)
  {
    match step
    case Call(c) =>
      if s.lock.acquired then
        s.(lock := s.lock.Acquired(c), calls := s.calls[c := Waiting], called := s.called + [c])
      else
        s.(lock := s.lock.Acquired(c), calls := s.calls[c := InFlight], called := s.called + [c],
            started := s.started + [c])
    case Settle(c, ok) => s.(calls := s.calls[c := Settled(ok)])
    case Finally(c) =>
      var done := s.(lock := s.lock.Released(), calls := s.calls[c := Done(s.calls[c].ok)],
          finished := s.finished + [c]);
      match s.lock.Next()
      case None => done
      case Some(n) => done.(calls := done.calls[n := InFlight], started := done.started + [n])
  }

  ghost predicate IsRun(steps: seq<Step>) {
    steps == [] || (IsRun(steps[..|steps| - 1]) && Enabled(After(steps[..|steps| - 1]), steps[|steps| - 1]))
  }

  ghost function After(steps: seq<Step>): State {
    if steps == [] then START
    else
      var s, step := After(steps[..|steps| - 1]), steps[|steps| - 1];
      if Enabled(s, step) then Next(s, step) else s
  }

  // ---- Every run ----

  predicate Holds(s: State, c: Caller) {
    c in s.calls && (s.calls[c] == InFlight || s.calls[c].Settled?)
  }

  /** The callers in the order they called: those done, the one holding the lock, those waiting. */
  ghost predicate Inv(s: State) {
    && NoDuplicates(s.called)
    && s.called == s.started + s.lock.waiting
    && (s.started == s.finished ||
         (s.lock.acquired && s.started != [] && s.started == s.finished + [s.started[|s.started| - 1]]))
    && (s.lock.acquired <==> s.started != s.finished)
    && (!s.lock.acquired ==> s.lock.waiting == [])
    && (forall c :: c in s.calls <==> c in s.called)
    && (forall c :: c in s.calls ==> (s.calls[c] == Waiting <==> c in s.lock.waiting))
    && (forall c :: c in s.calls ==> (s.calls[c].Done? <==> c in s.finished))
  }

  lemma CallKeeps(s: State, c: Caller)
    requires Inv(s) && Enabled(s, Call(c))
    ensures Inv(Next(s, Call(c)))
  {
  }

  lemma SettleKeeps(s: State, c: Caller, ok: bool)
    requires Inv(s) && Enabled(s, Settle(c, ok))
    ensures Inv(Next(s, Settle(c, ok)))
  {
  }

  /** Whoever holds the lock is the last one started. */
  lemma HolderIsLast(s: State, c: Caller)
    requires Inv(s) && Holds(s, c)
    ensures s.lock.acquired && s.started == s.finished + [c] && c !in s.lock.waiting && c !in s.finished
  {
  }

  /** The first in the queue starts when the holder is done. */
  lemma HandOverKeeps(s: State, c: Caller)
    requires Inv(s) && Enabled(s, Finally(c)) && s.lock.waiting != []
    ensures Inv(Next(s, Finally(c)))
  {
    HolderIsLast(s, c);
    var n, rest := s.lock.waiting[0], s.lock.waiting[1..];
    assert s.called == s.started + [n] + rest;
    MiddleIsNew(s.started, n, rest);
    assert forall d :: d in s.lock.waiting <==> d == n || d in rest;
    assert forall d :: d in s.finished + [c] <==> d in s.finished || d == c;
  }

  lemma FinallyKeeps(s: State, c: Caller)
    requires Inv(s) && Enabled(s, Finally(c))
    ensures Inv(Next(s, Finally(c)))
  {
    HolderIsLast(s, c);
    if s.lock.waiting != [] {
      HandOverKeeps(s, c);
    }
  }

  lemma {:induction false} RunKeepsInv(steps: seq<Step>)
    requires IsRun(steps)
    ensures Inv(After(steps))
  {
    if steps != [] {
      RunKeepsInv(steps[..|steps| - 1]);
      var s := After(steps[..|steps| - 1]);
      match steps[|steps| - 1]
      case Call(c) => CallKeeps(s, c);
      case Settle(c, ok) => SettleKeeps(s, c, ok);
      case Finally(c) => FinallyKeeps(s, c);
    }
  }

  /** In every run at most one caller is between taking the lock and giving it back, so at most one
      extrinsic is in flight; callers start and finish in the order they called; and the lock is free
      exactly when every caller that called is done, however its submission ended. */
  lemma MutualExclusion(steps: seq<Step>)
    requires IsRun(steps)
    ensures var s := After(steps);
      && (forall c, d :: Holds(s, c) && Holds(s, d) ==> c == d)
      && (exists holder: seq<Caller> :: |holder| <= 1 && s.called == s.finished + holder + s.lock.waiting)
      && (!s.lock.acquired <==> forall c :: c in s.calls ==> s.calls[c].Done?)
  {
    RunKeepsInv(steps);
    var s := After(steps);
    forall c, d | Holds(s, c) && Holds(s, d) ensures c == d {
      HolderIsLast(s, c);
      HolderIsLast(s, d);
    }
    if s.lock.acquired {
      var holder := s.started[|s.started| - 1];
      assert s.called == s.finished + [holder] + s.lock.waiting;
      MiddleIsNew(s.finished, holder, s.lock.waiting);
    } else {
      assert s.called == s.finished + [] + s.lock.waiting;
    }
  }

  /** No caller is stranded: while somebody waits, there is a step that can be taken, and giving the lock
      back starts the one who has waited longest. */
  lemma NobodyStranded(steps: seq<Step>)
    requires IsRun(steps) && After(steps).lock.waiting != []
    ensures var s := After(steps);
      exists c :: Holds(s, c) &&
          (s.calls[c] == InFlight || (Enabled(s, Finally(c)) && Holds(Next(s, Finally(c)), s.lock.waiting[0])))
  {
    RunKeepsInv(steps);
    var s := After(steps);
    var c := s.started[|s.started| - 1];
    assert s.called == s.finished + [c] + s.lock.waiting;
    MiddleIsNew(s.finished, c, s.lock.waiting);
    assert c in s.called;
    assert Holds(s, c);
  }
}
