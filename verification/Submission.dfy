/** `Client._applyExtrinsic` and `applyExtrinsic`: an extrinsic is signed and sent under a process-wide
    lock, and a callback folds the events of its block into the settlement of a promise. */
module Submission {
  import opened Models
  import opened Sequences

  // ---- The event fold ----

  datatype Event<D> = Event(section: string, name: string, data: D)

  const SYSTEM := "system"
  const FAILED := "ExtrinsicFailed"
  const SUCCESS := "ExtrinsicSuccess"

  /** What the caller asked for: sections, event names (none means all), and how an event's data becomes
      a result. */
  datatype Query<!D, T> = Query(sections: seq<string>, events: seq<string>, result: D -> T)
  {
    predicate Wants(e: Event<D>) {
      e.section in sections && (events == [] || e.name in events)
    }

    predicate Fails(e: Event<D>) {
      e.section == SYSTEM && e.name == FAILED
    }

    /** An event is tested in this order: failure, wanted, success. */
    predicate Succeeds(e: Event<D>) {
      e.section == SYSTEM && e.name == SUCCESS && !Wants(e)
    }

    predicate Collects(e: Event<D>) { !Fails(e) && Wants(e) }

    predicate Decides(e: Event<D>) { Fails(e) || Succeeds(e) }
  }

  function Collected<D, T>(q: Query<D, T>, es: seq<Event<D>>): seq<T> {
    if es == [] then []
    else
      Collected(q, es[..|es| - 1]) + (if q.Collects(es[|es| - 1]) then [q.result(es[|es| - 1].data)] else [])
  }

  /** The list that collects results. The promise of a batch is settled with the list itself, not with a
      copy. */
  class Bucket<T> {
    var items: seq<T>

    constructor ()
      ensures items == []
    {
      items := [];
    }
  }

  datatype Settlement<D, T> = Rejected(error: D) | First(value: Option<T>) | Whole(bucket: Bucket<T>)

  /** The first failure or success among the events, if any. */
  function Decider<D, T>(q: Query<D, T>, es: seq<Event<D>>): (i: nat)
    ensures i <= |es|
    ensures i < |es| ==> q.Decides(es[i])
    ensures forall j :: 0 <= j < i ==> !q.Decides(es[j])
  {
    if es == [] then 0
    else
      var i := Decider(q, es[..|es| - 1]);
      assert forall j :: 0 <= j < |es| - 1 ==> es[j] == es[..|es| - 1][j];
      if i == |es| - 1 && !q.Decides(es[i]) then |es| else i
  }

  class Submission<D, T> {
    const own: string            // the section of the extrinsic
    const batch: bool            // `utility.batch` or `utility.batchAll`
    const events: seq<string>
    const result: D -> T
    var sections: seq<string>
    var settled: Option<Settlement<D, T>>

    constructor (own: string, batch: bool, sections: seq<string>, events: seq<string>, result: D -> T)
      ensures this.own == own && this.batch == batch && this.events == events && this.result == result
      ensures this.sections == sections && settled == None
    {
      this.own, this.batch, this.events, this.result := own, batch, events, result;
      this.sections, settled := sections, None;
    }

    ghost function Asks(): Query<D, T>
      reads this
    {
      Query(sections, events, result)
    }

    /** A promise takes the first settlement and ignores the others. */
    method Settle(s: Settlement<D, T>)
      modifies this`settled
      ensures settled == if old(settled).None? then Some(s) else old(settled)
    {
      if settled.None? {
        settled := Some(s);
      }
    }

    /** The value `s` gives for the events `es`, decided by the one at position `i`. */
    ghost predicate IsSettlement(s: Settlement<D, T>, es: seq<Event<D>>, bucket: Bucket<T>)
      reads this
    {
      var q := Asks();
      var i := Decider(q, es);
      && i < |es|
      && s == (if q.Fails(es[i]) then Rejected(es[i].data)
               else if batch then Whole(bucket)
               else First(if Collected(q, es[..i]) == [] then None else Some(Collected(q, es[..i])[0])))
    }

    /** The loop over the events of the block. */
    method Fold(es: seq<Event<D>>) returns (bucket: Bucket<T>)
      modifies this`settled
      ensures fresh(bucket) && bucket.items == Collected(Asks(), es)
      ensures old(settled).Some? ==> settled == old(settled)
      ensures old(settled).None? ==> (settled.Some? <==> Decider(Asks(), es) < |es|)
      ensures old(settled).None? && settled.Some? ==> IsSettlement(settled.value, es, bucket)
    {
      hide Collected, Decider;
      bucket := new Bucket();
      var q := Query(sections, events, result);
      NoEvents(q);
      assert es[..0] == [];
      for n := 0 to |es|
        invariant q == Asks() && fresh(bucket)
        invariant bucket.items == Collected(q, es[..n])
        invariant old(settled).Some? ==> settled == old(settled)
        invariant old(settled).None? ==> (settled.Some? <==> Decider(q, es[..n]) < n)
        invariant old(settled).None? && settled.Some? ==> IsSettlement(settled.value, es[..n], bucket)
      {
        var e := es[n];
        StepDecider(q, es, n);
        if q.Fails(e) {
          Settle(Rejected(e.data));
        } else if q.Wants(e) {
          bucket.items := bucket.items + [q.result(e.data)];
        } else if q.Succeeds(e) {
          if batch {
            Settle(Whole(bucket));
          } else {
            Settle(First(if |bucket.items| > 0 then Some(bucket.items[0]) else None));
          }
        }
      }
      assert es[..|es|] == es;
    }

    /** One status update: an error rejects; an update that is not about a block is ignored. */
    method Callback(u: Update<D>) returns (bucket: Bucket<T>)
      modifies this`settled, this`sections
      ensures sections == old(sections) + (if batch then [] else [own])
      ensures fresh(bucket)
      ensures old(settled).Some? ==> settled == old(settled)
      ensures old(settled).None? && u.Failure? ==> settled == Some(Rejected(u.error))
      ensures old(settled).None? && u.Status? && !u.inBlock ==> settled == None
      ensures old(settled).None? && u.Status? && u.inBlock ==>
                && (settled.Some? <==> Decider(Asks(), u.events) < |u.events|)
                && (settled.Some? ==> IsSettlement(settled.value, u.events, bucket))
                && bucket.items == Collected(Asks(), u.events)
    {
      if u.Failure? {
        Settle(Rejected(u.error));
      }
      if !batch {
        sections := sections + [own];
      }
      if u.Status? && u.inBlock {
        bucket := Fold(u.events);
      } else {
        bucket := new Bucket();
      }
    }
  }

  datatype Update<D> = Failure(error: D) | Status(inBlock: bool, events: seq<Event<D>>)

  lemma NoEvents<D, T>(q: Query<D, T>)
    ensures Decider(q, []) == 0 && Collected(q, []) == []
  {
  }

  lemma StepDecider<D, T>(q: Query<D, T>, es: seq<Event<D>>, n: nat)
    requires n < |es|
    ensures es[..n + 1][..n] == es[..n]
    ensures Decider(q, es[..n + 1]) ==
              if Decider(q, es[..n]) < n then Decider(q, es[..n]) else if q.Decides(es[n]) then n else n + 1
    ensures Collected(q, es[..n + 1]) ==
              Collected(q, es[..n]) + (if q.Collects(es[n]) then [q.result(es[n].data)] else [])
    ensures Decider(q, es[..n]) < n ==> es[..n + 1][..Decider(q, es[..n])] == es[..n][..Decider(q, es[..n])]
  {
    assert es[..n + 1][..n] == es[..n];
  }

  // ---- What the fold means ----

  ghost predicate HasFailure<D, T>(q: Query<D, T>, es: seq<Event<D>>) {
    exists i :: 0 <= i < |es| && q.Fails(es[i])
  }

  ghost predicate HasSuccess<D>(es: seq<Event<D>>) {
    exists i :: 0 <= i < |es| && es[i].section == SYSTEM && es[i].name == SUCCESS
  }

  /** Success itself is asked for as a result. */
  predicate WantsSuccess<D, T>(q: Query<D, T>) {
    SYSTEM in q.sections && (q.events == [] || SUCCESS in q.events)
  }

  lemma DecidesExactly<D, T>(q: Query<D, T>, e: Event<D>)
    ensures q.Decides(e) <==> q.Fails(e) || (e.section == SYSTEM && e.name == SUCCESS && !WantsSuccess(q))
  {
  }

  /** Unless success is asked for as a result, the block settles the promise exactly when it has a failure or a
      success, and rejects it exactly when some failure comes before every success. */
  lemma SettlesExactly<D, T>(q: Query<D, T>, es: seq<Event<D>>)
    requires !WantsSuccess(q)
    ensures var i := Decider(q, es);
      && (i < |es| <==> HasFailure(q, es) || HasSuccess(es))
      && (i < |es| && q.Fails(es[i]) <==> exists f :: 0 <= f < |es| && q.Fails(es[f]) && !HasSuccess(es[..f]))
  {
    var i := Decider(q, es);
    forall j | 0 <= j < |es|
      ensures q.Decides(es[j]) <==> q.Fails(es[j]) || (es[j].section == SYSTEM && es[j].name == SUCCESS)
    {
      DecidesExactly(q, es[j]);
    }
    if i < |es| && q.Fails(es[i]) {
      assert !HasSuccess(es[..i]);
    }
    if f :| 0 <= f < |es| && q.Fails(es[f]) && !HasSuccess(es[..f]) {
      assert q.Decides(es[f]);
      if i < f {
        assert es[..f][i] == es[i];
        assert q.Fails(es[i]);
      }
    }
  }

  /** When success is asked for as a result, only a failure settles the promise. */
  lemma WantedSuccessNeverSettles<D, T>(q: Query<D, T>, es: seq<Event<D>>)
    requires WantsSuccess(q)
    ensures Decider(q, es) < |es| <==> HasFailure(q, es)
  {
    if i :| 0 <= i < |es| && q.Fails(es[i]) {
      assert q.Decides(es[i]);
    }
  }

  /** So a block in which the extrinsic succeeds settles the promise exactly when success is not asked for. */
  lemma SuccessSettlesExactly<D, T>(q: Query<D, T>, es: seq<Event<D>>)
    requires HasSuccess(es) && !HasFailure(q, es)
    ensures Decider(q, es) < |es| <==> !WantsSuccess(q)
  {
    if WantsSuccess(q) {
      WantedSuccessNeverSettles(q, es);
    } else {
      SettlesExactly(q, es);
    }
  }

  lemma {:induction false} CollectedAppend<D, T>(q: Query<D, T>, a: seq<Event<D>>, b: seq<Event<D>>)
    ensures Collected(q, a + b) == Collected(q, a) + Collected(q, b)
  {
    if b == [] {
      assert a + b == a;
    } else {
      CollectedAppend(q, a, b[..|b| - 1]);
      assert (a + b)[..|a + b| - 1] == a + b[..|b| - 1];
    }
  }

  lemma {:induction false} NothingCollected<D, T>(q: Query<D, T>, es: seq<Event<D>>)
    ensures Collected(q, es) == [] <==> forall i :: 0 <= i < |es| ==> !q.Collects(es[i])
  {
    if es != [] {
      NothingCollected(q, es[..|es| - 1]);
    }
  }

  lemma SplitAt<D, T>(q: Query<D, T>, es: seq<Event<D>>, i: nat)
    requires i < |es| && !q.Collects(es[i])
    ensures Collected(q, es) == Collected(q, es[..i]) + Collected(q, es[i + 1..])
  {
    assert es == es[..i + 1] + es[i + 1..];
    CollectedAppend(q, es[..i + 1], es[i + 1..]);
    assert es[..i + 1][..i] == es[..i];
  }

  /** A batch is given the list itself, so it also sees results of events after the one that settled it:
      it gets the results before that event exactly when there are none later. */
  lemma BatchSeesLater<D, T>(q: Query<D, T>, es: seq<Event<D>>, i: nat)
    requires i < |es| && i == Decider(q, es)
    ensures Collected(q, es) == Collected(q, es[..i]) + Collected(q, es[i + 1..])
    ensures Collected(q, es) == Collected(q, es[..i]) <==> forall j :: i < j < |es| ==> !q.Collects(es[j])
  {
    SplitAt(q, es, i);
    var tail := es[i + 1..];
    NothingCollected(q, tail);
    assert forall m :: 0 <= m < |tail| ==> tail[m] == es[i + 1 + m];
    assert forall j :: i < j < |es| ==> es[j] == tail[j - i - 1];
  }
}
