/** `Utility.batchAll`: calls go to the chain in chunks of 400, each chunk in one atomic extrinsic. */
module Batching {
  import opened Models
  import opened Sequences

  const BATCH_SIZE: nat := 400

  /** `filter(Boolean)`: calls that could not be prepared are absent. */
  function Present<C>(extrinsics: seq<Option<C>>): seq<C> {
    if extrinsics == [] then []
    else
      Present(extrinsics[..|extrinsics| - 1]) +
      (if extrinsics[|extrinsics| - 1].Some? then [extrinsics[|extrinsics| - 1].value] else [])
  }

  function ChunkCount(calls: nat): nat { (calls + BATCH_SIZE - 1) / BATCH_SIZE }

  function Min(a: nat, b: nat): nat { if a < b then a else b }

  function Chunk<C>(calls: seq<C>, k: nat): seq<C>
    requires k < ChunkCount(|calls|)
  {
    calls[k * BATCH_SIZE..Min((k + 1) * BATCH_SIZE, |calls|)]
  }

  /** How many chunks were applied: all of them, or those before the first that failed. `outcome(k)` is
      what submitting chunk `k` gives: the results, or nothing when it fails. */
  function AppliedChunks<R>(outcome: nat -> Option<seq<R>>, count: nat): (k: nat)
    ensures k <= count
    ensures forall j :: 0 <= j < k ==> outcome(j).Some?
    ensures k < count ==> outcome(k).None?
  {
    if count == 0 then 0
    else
      var k := AppliedChunks(outcome, count - 1);
      if k == count - 1 && outcome(k).Some? then count else k
  }

  /** The calls on the chain after those chunks. */
  function AppliedCalls<C>(calls: seq<C>, chunks: nat): seq<C> {
    calls[..Min(chunks * BATCH_SIZE, |calls|)]
  }

  function Results<R>(outcome: nat -> Option<seq<R>>, count: nat): seq<R>
    requires forall j :: 0 <= j < count ==> outcome(j).Some?
  {
    if count == 0 then [] else Results(outcome, count - 1) + outcome(count - 1).value
  }

  /** The results accumulated chunk by chunk. */
  lemma {:induction false} ResultsFold<R>(outcome: nat -> Option<seq<R>>, soFar: nat -> seq<R>, count: nat)
    requires forall j :: 0 <= j < count ==> outcome(j).Some?
    requires soFar(0) == [] && forall j :: 0 <= j < count ==> soFar(j + 1) == soFar(j) + outcome(j).value
    ensures Results(outcome, count) == soFar(count)
  {
    if count > 0 {
      ResultsFold(outcome, soFar, count - 1);
    }
  }

  // ---- Chunks ----

  lemma ChunkBounds(n: nat, k: nat)
    requires k < ChunkCount(n)
    ensures k * BATCH_SIZE < n
  {
  }

  lemma LastChunk(n: nat)
    ensures n <= ChunkCount(n) * BATCH_SIZE
  {
  }

  function Chunks<C>(calls: seq<C>, count: nat): seq<C>
    requires count <= ChunkCount(|calls|)
  {
    if count == 0 then [] else Chunks(calls, count - 1) + Chunk(calls, count - 1)
  }

  /** The first chunks are a prefix of the calls; each holds between one and 400 of them. */
  lemma {:induction false} ChunksArePrefix<C>(calls: seq<C>, count: nat)
    requires count <= ChunkCount(|calls|)
    ensures Chunks(calls, count) == AppliedCalls(calls, count)
    ensures forall k :: 0 <= k < count ==> 1 <= |Chunk(calls, k)| <= BATCH_SIZE
  {
    if count > 0 {
      ChunksArePrefix(calls, count - 1);
      ChunkBounds(|calls|, count - 1);
    }
  }

  /** If a chunk fails, the calls on the chain are a proper prefix of the calls, a multiple of 400 long;
      otherwise they are all of them. */
  lemma PrefixAtomic<C, R>(calls: seq<C>, outcome: nat -> Option<seq<R>>)
    ensures var k := AppliedChunks(outcome, ChunkCount(|calls|));
      && Chunks(calls, k) == AppliedCalls(calls, k)
      && (k == ChunkCount(|calls|) ==> AppliedCalls(calls, k) == calls)
      && (k < ChunkCount(|calls|) ==>
           AppliedCalls(calls, k) == calls[..k * BATCH_SIZE] && |AppliedCalls(calls, k)| < |calls|)
  {
    var k := AppliedChunks(outcome, ChunkCount(|calls|));
    ChunksArePrefix(calls, k);
    LastChunk(|calls|);
    if k < ChunkCount(|calls|) {
      ChunkBounds(|calls|, k);
    }
  }

  lemma AppliedStep<C>(calls: seq<C>, k: nat)
    requires k * BATCH_SIZE < |calls|
    ensures k < ChunkCount(|calls|)
    ensures AppliedCalls(calls, k + 1) == AppliedCalls(calls, k) + Chunk(calls, k)
  {
  }

  // ---- The code ----

  method Compact<C>(extrinsics: seq<Option<C>>) returns (calls: seq<C>)
    ensures calls == Present(extrinsics)
  {
    calls := [];
    for i := 0 to |extrinsics|
      invariant calls == Present(extrinsics[..i])
    {
      assert extrinsics[..i + 1][..i] == extrinsics[..i];
      if extrinsics[i].Some? {
        calls := calls + [extrinsics[i].value];
      }
    }
    assert extrinsics[..|extrinsics|] == extrinsics;
  }

  /** The calls the chain has applied, in order. */
  class Ledger<C> {
    var applied: seq<C>

    constructor ()
      ensures applied == []
    {
      applied := [];
    }

    /** One `batchAll` extrinsic: all of its calls or none. */
    method Submit<R>(chunk: seq<C>, outcome: Option<seq<R>>) returns (r: Option<seq<R>>)
      modifies this
      ensures r == outcome
      ensures applied == if outcome.Some? then old(applied) + chunk else old(applied)
    {
      if outcome.Some? {
        applied := applied + chunk;
      }
      r := outcome;
    }
  }

  /** Fails with the first chunk that fails, leaving the earlier ones applied. */
  method BatchAll<C, R>(ledger: Ledger<C>, extrinsics: seq<Option<C>>, outcome: nat -> Option<seq<R>>)
    returns (r: Option<seq<R>>)
    modifies ledger
    ensures var calls := Present(extrinsics);
      var count := ChunkCount(|calls|);
      var k := AppliedChunks(outcome, count);
      && ledger.applied == old(ledger.applied) + AppliedCalls(calls, k)
      && r == (if k == count then Some(Results(outcome, count)) else None)
  {
    var calls := Compact(extrinsics);
    var result: seq<R> := [];
    var k: nat := 0;
    ghost var count := ChunkCount(|calls|);
    LastChunk(|calls|);
    while k * BATCH_SIZE < |calls|
      invariant k <= count
      invariant forall j :: 0 <= j < k ==> outcome(j).Some?
      invariant ledger.applied == old(ledger.applied) + AppliedCalls(calls, k)
      invariant result == Results(outcome, k)
      decreases |calls| - k * BATCH_SIZE
    {
      AppliedStep(calls, k);
      var res := ledger.Submit(Chunk(calls, k), outcome(k));
      if res.None? {
        AppliedUnique(outcome, count, k);
        return None;
      }
      result := result + res.value;
      k := k + 1;
    }
    AppliedUnique(outcome, count, k);
    r := Some(result);
  }

  lemma AppliedUnique<R>(outcome: nat -> Option<seq<R>>, count: nat, k: nat)
    requires k <= count && (forall j :: 0 <= j < k ==> outcome(j).Some?) && (k < count ==> outcome(k).None?)
    ensures AppliedChunks(outcome, count) == k
  {
  }
}
