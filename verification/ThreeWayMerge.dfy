/** `TwinDeploymentHandler._updateToLatest`: several updates of one contract, made from the same base
    version, become one update. */
module ThreeWayMerge {
  import opened Models
  import opened Sequences
  import opened ObjectKeys

  // ---- Specification ----

  function Flat(us: seq<Request>): seq<Workload> {
    if us == [] then [] else Flat(us[..|us| - 1]) + us[|us| - 1].workloads
  }

  function IsNamed(name: string): Workload -> bool {
    (w: Workload) => w.name == name
  }

  /** The copies of one name, in the order the updates list them. */
  function Named(ws: seq<Workload>, name: string): seq<Workload> { Filter(ws, IsNamed(name)) }

  /** Names in the order of their first copy. */
  function FirstNames(ws: seq<Workload>): seq<string> {
    if ws == [] then []
    else
      var front, last := FirstNames(ws[..|ws| - 1]), ws[|ws| - 1].name;
      if last in front then front else front + [last]
  }

  /** The first copy of highest version. */
  function Best(copies: seq<Workload>): (w: Workload)
    requires copies != []
    ensures w in copies
  {
    if |copies| == 1 then copies[0]
    else
      var w, last := Best(copies[..|copies| - 1]), copies[|copies| - 1];
      if w.version < last.version then last else w
  }

  /** Dropped only when some update lacks the name and the first copy is not newer than the base. */
  predicate Kept(copies: seq<Workload>, updates: nat, base: nat)
    requires copies != []
  {
    !(|copies| < updates && copies[0].version <= base)
  }

  function Survivors(flat: seq<Workload>, keys: seq<string>, updates: nat, base: nat): seq<Workload>
  {
    if keys == [] then []
    else
      var key := keys[|keys| - 1];
      Survivors(flat, keys[..|keys| - 1], updates, base) +
      (if Named(flat, key) != [] && Kept(Named(flat, key), updates, base) then [Best(Named(flat, key))] else [])
  }

  /** The workloads the general loop produces. */
  function Merged(us: seq<Request>): seq<Workload>
    requires us != []
  {
    Survivors(Flat(us), OwnKeys(FirstNames(Flat(us))), |us|, us[0].version)
  }

  function SumIps(us: seq<Request>): nat {
    if us == [] then 0 else SumIps(us[..|us| - 1]) + us[|us| - 1].publicIps
  }

  function FirstNetwork(us: seq<Request>): Option<nat> {
    if us == [] then None
    else if FirstNetwork(us[..|us| - 1]).Some? then FirstNetwork(us[..|us| - 1])
    else us[|us| - 1].network
  }

  /** The request `_updateToLatest` returns. */
  function Latest(us: seq<Request>): Request
    requires us != []
  {
    if |us| == 1 then us[0].(version := us[0].version + 1)
    else us[0].(workloads := Merged(us), publicIps := SumIps(us), network := FirstNetwork(us),
        version := us[0].version + 1)
  }

  // ---- What survives ----

  lemma NamedMembers(ws: seq<Workload>, name: string)
    ensures forall w :: w in Named(ws, name) <==> w in ws && w.name == name
  {
    FilteredMembers(ws, IsNamed(name));
  }

  lemma {:induction false} FirstNamesExact(ws: seq<Workload>)
    ensures forall n :: n in FirstNames(ws) <==> Named(ws, n) != []
    ensures NoDuplicates(FirstNames(ws))
  {
    if ws != [] {
      FirstNamesExact(ws[..|ws| - 1]);
    }
  }

  lemma {:induction false} BestIsHighest(copies: seq<Workload>)
    requires copies != []
    ensures forall c :: c in copies ==> c.version <= Best(copies).version
  {
    if |copies| > 1 {
      BestIsHighest(copies[..|copies| - 1]);
      assert copies == copies[..|copies| - 1] + [copies[|copies| - 1]];
    }
  }

  lemma {:induction false} FirstIfHighest(copies: seq<Workload>)
    requires copies != [] && forall c :: c in copies ==> c.version <= copies[0].version
    ensures Best(copies) == copies[0]
  {
    if |copies| > 1 {
      var front := copies[..|copies| - 1];
      forall c | c in front ensures c.version <= front[0].version { assert c in copies; }
      FirstIfHighest(front);
      assert copies[|copies| - 1] in copies;
    }
  }

  lemma {:induction false} SurvivorsExact(flat: seq<Workload>, keys: seq<string>, updates: nat, base: nat)
    ensures forall w :: w in Survivors(flat, keys, updates, base) <==>
              w.name in keys && Named(flat, w.name) != [] && Kept(Named(flat, w.name), updates, base) &&
                  w == Best(Named(flat, w.name))
  {
    if keys != [] {
      var front, key := keys[..|keys| - 1], keys[|keys| - 1];
      SurvivorsExact(flat, front, updates, base);
      assert keys == front + [key];
      NamedMembers(flat, key);
    }
  }

  ghost predicate Copied(us: seq<Request>, name: string) {
    Named(Flat(us), name) != []
  }

  /** The merged deployment holds a workload exactly when it is the best copy of a kept name. */
  lemma MergedExact(us: seq<Request>, w: Workload)
    requires us != []
    ensures w in Merged(us) <==>
      Copied(us, w.name) && Kept(Named(Flat(us), w.name), |us|, us[0].version) && w == Best(Named(Flat(us), w.name))
  {
    var flat := Flat(us);
    var added := FirstNames(flat);
    SurvivorsExact(flat, OwnKeys(added), |us|, us[0].version);
    FirstNamesExact(flat);
    OwnKeysMembers(added);
    PermutationMembers(OwnKeys(added), added);
  }

  // ---- Updates of one contract made from a common base ----

  /** Every update started from version `base` and lists each name once. */
  ghost predicate CommonBase(us: seq<Request>, base: nat) {
    forall i :: 0 <= i < |us| ==> us[i].version == base && UniqueNames(us[i].workloads)
  }

  ghost predicate Holds(u: Request, name: string) {
    Named(u.workloads, name) != []
  }

  lemma NamedAppend(a: seq<Workload>, b: seq<Workload>, name: string)
    ensures Named(a + b, name) == Named(a, name) + Named(b, name)
  {
    FilterAppend(a, b, IsNamed(name));
  }

  lemma {:induction false} NamedOnce(ws: seq<Workload>, name: string)
    requires UniqueNames(ws)
    ensures |Named(ws, name)| <= 1
  {
    if ws != [] {
      var front := ws[..|ws| - 1];
      NamedOnce(front, name);
      if Named(front, name) != [] {
        NamedMembers(front, name);
        assert Named(front, name)[0] in front;
        var i := IndexOf(front, Named(front, name)[0]);
        assert ws[i].name == name;
      }
    }
  }

  lemma {:induction false} FlatAppend(xs: seq<Request>, ys: seq<Request>)
    ensures Flat(xs + ys) == Flat(xs) + Flat(ys)
  {
    if ys == [] {
      assert xs + ys == xs;
    } else {
      var front, last := ys[..|ys| - 1], ys[|ys| - 1];
      FlatAppend(xs, front);
      assert (xs + ys)[..|xs + ys| - 1] == xs + front && (xs + ys)[|xs + ys| - 1] == last;
      assert Flat(xs + ys) == Flat(xs + front) + last.workloads;
    }
  }

  lemma CopiesNext(us: seq<Request>, base: nat, name: string)
    requires us != [] && CommonBase(us, base)
    ensures CommonBase(us[..|us| - 1], base)
    ensures |Named(Flat(us), name)| ==
              |Named(Flat(us[..|us| - 1]), name)| + (if Holds(us[|us| - 1], name) then 1 else 0)
  {
    var front, last := us[..|us| - 1], us[|us| - 1];
    NamedAppend(Flat(front), last.workloads, name);
    NamedOnce(last.workloads, name);
  }

  /** There are as many copies as updates holding the name. */
  lemma {:induction false} CopyCount(us: seq<Request>, base: nat, name: string)
    requires CommonBase(us, base)
    ensures |Named(Flat(us), name)| <= |us|
    ensures |Named(Flat(us), name)| == |us| <==> forall i :: 0 <= i < |us| ==> Holds(us[i], name)
  {
    if us != [] {
      CopiesNext(us, base, name);
      CopyCount(us[..|us| - 1], base, name);
    }
  }

  /** The update a copy comes from. */
  lemma {:induction false} CopySource(us: seq<Request>, name: string, c: Workload) returns (i: nat)
    requires c in Named(Flat(us), name)
    ensures i < |us| && c in Named(us[i].workloads, name)
  {
    var front, last := us[..|us| - 1], us[|us| - 1];
    NamedAppend(Flat(front), last.workloads, name);
    if c in Named(last.workloads, name) {
      i := |us| - 1;
    } else {
      i := CopySource(front, name, c);
    }
  }

  // ---- Reordering the updates ----

  lemma NamedMultiplicity(ws: seq<Workload>, name: string, w: Workload)
    ensures multiset(Named(ws, name))[w] == if w.name == name then multiset(ws)[w] else 0
  {
    FilterMultiplicity(ws, IsNamed(name), w);
  }

  /** Taking one request out of the list takes its workloads out of the flat list. */
  lemma FlatWithout(a: seq<Request>, r: Request, b: seq<Request>)
    ensures multiset(Flat(a + [r] + b)) == multiset(Flat(a + b)) + multiset(r.workloads)
  {
    FlatAppend(a, b);
    FlatAppend(a + [r], b);
    assert (a + [r])[..|a|] == a;
  }

  lemma {:induction false} FlatPermuted(us: seq<Request>, vs: seq<Request>)
    requires multiset(us) == multiset(vs)
    ensures multiset(Flat(us)) == multiset(Flat(vs))
  {
    if us == [] {
      PermutationMembers(us, vs);
    } else {
      var front, last := us[..|us| - 1], us[|us| - 1];
      assert us == front + [last];
      var a, b := TakenOut(front, last, vs);
      FlatPermuted(front, a + b);
      FlatWithout(a, last, b);
    }
  }

  lemma CopiesPermuted(us: seq<Request>, vs: seq<Request>, name: string)
    requires multiset(us) == multiset(vs)
    ensures multiset(Named(Flat(us), name)) == multiset(Named(Flat(vs), name))
  {
    FlatPermuted(us, vs);
    forall w: Workload
      ensures multiset(Named(Flat(us), name))[w] == multiset(Named(Flat(vs), name))[w]
    {
      NamedMultiplicity(Flat(us), name, w);
      NamedMultiplicity(Flat(vs), name, w);
    }
  }

  ghost function MoveToFront(us: seq<Request>, i: nat): seq<Request>
    requires i < |us|
  {
    [us[i]] + us[..i] + us[i + 1..]
  }

  lemma FrontKeepsAll<T>(a: seq<T>, x: T, b: seq<T>)
    ensures multiset([x] + a + b) == multiset(a + [x] + b)
  {
  }

  lemma Moved(us: seq<Request>, base: nat, i: nat)
    requires CommonBase(us, base) && i < |us|
    ensures multiset(MoveToFront(us, i)) == multiset(us) && CommonBase(MoveToFront(us, i), base)
  {
    assert us == us[..i] + [us[i]] + us[i + 1..];
    FrontKeepsAll(us[..i], us[i], us[i + 1..]);
    PermutationMembers(us, MoveToFront(us, i));
    forall k | 0 <= k < |us|
      ensures MoveToFront(us, i)[k].version == base && UniqueNames(MoveToFront(us, i)[k].workloads)
    {
      assert MoveToFront(us, i)[k] in us;
    }
  }

  lemma FrontFlat(u: Request, rest: seq<Request>, name: string)
    ensures Named(Flat([u] + rest), name) == Named(u.workloads, name) + Named(Flat(rest), name)
  {
    FlatAppend([u], rest);
    assert [u][..0] == [];
    assert Flat([u]) == u.workloads;
    NamedAppend(u.workloads, Flat(rest), name);
  }

  /** Moving the update that holds a copy to the front makes that copy the first. */
  lemma FrontCopy(us: seq<Request>, base: nat, name: string, i: nat, c: Workload)
    requires CommonBase(us, base) && i < |us| && c in Named(us[i].workloads, name)
    ensures multiset(MoveToFront(us, i)) == multiset(us) && CommonBase(MoveToFront(us, i), base)
    ensures Named(Flat(MoveToFront(us, i)), name) != [] && Named(Flat(MoveToFront(us, i)), name)[0] == c
  {
    Moved(us, base, i);
    var rest := us[..i] + us[i + 1..];
    assert MoveToFront(us, i) == [us[i]] + rest;
    FrontFlat(us[i], rest, name);
    NamedOnce(us[i].workloads, name);
  }

  // ---- Order independence ----

  ghost predicate SameWorkloads(a: seq<Workload>, b: seq<Workload>) {
    forall w :: w in a <==> w in b
  }

  ghost predicate OrderIndependent(us: seq<Request>)
    requires us != []
  {
    forall vs: seq<Request> :: multiset(vs) == multiset(us) && vs != [] ==> SameWorkloads(Merged(vs), Merged(us))
  }

  /** The updates agree about a name: not removed by one and changed by another, and if it stays, the
      newest copies are the same. */
  ghost predicate Agree(copies: seq<Workload>, updates: nat, base: nat) {
    && (|copies| == updates || forall c, d :: c in copies && d in copies && c.version > base ==> d.version > base)
    && (copies != [] && Kept(copies, updates, base) ==>
          forall c, d :: c in copies && d in copies && IsHighest(c, copies) && IsHighest(d, copies) ==> c == d)
  }

  ghost predicate IsHighest(c: Workload, copies: seq<Workload>) {
    forall d :: d in copies ==> d.version <= c.version
  }

  ghost predicate ConflictFree(us: seq<Request>, base: nat) {
    forall name :: Agree(Named(Flat(us), name), |us|, base)
  }

  lemma AgreementDecides(xs: seq<Workload>, ys: seq<Workload>, updates: nat, base: nat)
    requires multiset(xs) == multiset(ys) && xs != [] && ys != []
    requires Agree(xs, updates, base) && |xs| <= updates
    ensures Kept(xs, updates, base) <==> Kept(ys, updates, base)
    ensures Kept(xs, updates, base) ==> Best(xs) == Best(ys)
  {
    PermutationMembers(xs, ys);
    assert xs[0] in ys && ys[0] in xs;
    BestIsHighest(xs);
    BestIsHighest(ys);
    assert IsHighest(Best(xs), xs) && IsHighest(Best(ys), xs);
  }

  lemma ConflictFreeSuffices(us: seq<Request>, base: nat)
    requires us != [] && CommonBase(us, base) && ConflictFree(us, base)
    ensures OrderIndependent(us)
  {
    forall vs: seq<Request> | multiset(vs) == multiset(us) && vs != []
      ensures SameWorkloads(Merged(vs), Merged(us))
    {
      PermutationMembers(us, vs);
      assert vs[0] in us;
      forall w
        ensures w in Merged(vs) <==> w in Merged(us)
      {
        MergedExact(us, w);
        MergedExact(vs, w);
        var xs, ys := Named(Flat(us), w.name), Named(Flat(vs), w.name);
        CopiesPermuted(us, vs, w.name);
        PermutationMembers(xs, ys);
        if xs != [] {
          CopyCount(us, base, w.name);
          assert Agree(xs, |us|, base);
          AgreementDecides(xs, ys, |us|, base);
        }
      }
    }
  }

  /** With order independence, the result holds a first-placed highest copy, and only one copy a name. */
  lemma FrontDecides(us: seq<Request>, base: nat, name: string, c: Workload)
    requires us != [] && CommonBase(us, base) && OrderIndependent(us)
    requires c in Named(Flat(us), name)
    ensures |Named(Flat(us), name)| == |us| || c.version > base ==> exists w :: w in Merged(us) && w.name == name
    ensures |Named(Flat(us), name)| < |us| && c.version <= base ==> forall w :: w in Merged(us) ==> w.name != name
    ensures IsHighest(c, Named(Flat(us), name)) && (|Named(Flat(us), name)| == |us| || c.version > base) ==>
              c in Merged(us)
  {
    var i := CopySource(us, name, c);
    FrontCopy(us, base, name, i, c);
    var vs := MoveToFront(us, i);
    var xs, ys := Named(Flat(us), name), Named(Flat(vs), name);
    CopiesPermuted(us, vs, name);
    PermutationMembers(xs, ys);
    PermutationMembers(us, vs);
    CopyCount(us, base, name);
    NamedMembers(Flat(vs), name);
    assert SameWorkloads(Merged(vs), Merged(us));
    MergedExact(vs, Best(ys));
    forall w | w in Merged(us) && w.name == name
      ensures Kept(ys, |us|, base)
    {
      MergedExact(vs, w);
    }
    if IsHighest(c, xs) {
      FirstIfHighest(ys);
    }
  }

  lemma ConflictFreeNeeded(us: seq<Request>, base: nat)
    requires us != [] && CommonBase(us, base) && OrderIndependent(us)
    ensures ConflictFree(us, base)
  {
    forall name
      ensures Agree(Named(Flat(us), name), |us|, base)
    {
      var copies := Named(Flat(us), name);
      CopyCount(us, base, name);
      NamedMembers(Flat(us), name);
      forall c | c in copies {
        FrontDecides(us, base, name, c);
      }
      if copies != [] && Kept(copies, |us|, base) {
        forall c, d | c in copies && d in copies && IsHighest(c, copies) && IsHighest(d, copies)
          ensures c == d
        {
          assert copies[0] in copies;
          MergedExact(us, c);
          MergedExact(us, d);
        }
      }
    }
  }

  /** The merge of concurrent updates does not depend on their order exactly when they do not
      conflict. */
  lemma OrderIndependence(us: seq<Request>, base: nat)
    requires us != [] && CommonBase(us, base)
    ensures OrderIndependent(us) <==> ConflictFree(us, base)
  {
    if ConflictFree(us, base) { ConflictFreeSuffices(us, base); }
    if OrderIndependent(us) { ConflictFreeNeeded(us, base); }
  }

  // ---- What the merge means ----

  ghost predicate AllHold(us: seq<Request>, name: string) {
    forall i :: 0 <= i < |us| ==> Holds(us[i], name)
  }

  /** A name survives exactly when every update has it or the first update that has it changed it; the
      survivor is a copy of highest version. */
  lemma SurvivesExactly(us: seq<Request>, base: nat, name: string)
    requires us != [] && CommonBase(us, base)
    ensures (exists w :: w in Merged(us) && w.name == name) <==>
              Copied(us, name) && (AllHold(us, name) || Named(Flat(us), name)[0].version > base)
    ensures forall w :: w in Merged(us) && w.name == name ==>
              w in Named(Flat(us), name) && IsHighest(w, Named(Flat(us), name))
  {
    var copies := Named(Flat(us), name);
    CopyCount(us, base, name);
    if copies != [] {
      NamedMembers(Flat(us), name);
      BestIsHighest(copies);
      MergedExact(us, Best(copies));
    }
    forall w | w in Merged(us) && w.name == name
      ensures Copied(us, name) && (AllHold(us, name) || copies[0].version > base) && w == Best(copies)
    {
      MergedExact(us, w);
    }
  }

  /** Updates that do not conflict are all applied: the result holds the newest copy of every name that
      some update added or changed, and the base copy of every name that nobody changed and nobody
      removed; nothing else. */
  lemma EveryEditApplies(us: seq<Request>, base: nat)
    requires us != [] && CommonBase(us, base) && ConflictFree(us, base)
    ensures forall w :: w in Merged(us) <==>
              w in Flat(us) && IsHighest(w, Named(Flat(us), w.name)) && (w.version > base || AllHold(us, w.name))
  {
    forall w
      ensures w in Merged(us) <==>
              w in Flat(us) && IsHighest(w, Named(Flat(us), w.name)) && (w.version > base || AllHold(us, w.name))
    {
      var copies := Named(Flat(us), w.name);
      NamedMembers(Flat(us), w.name);
      if copies != [] {
        CopyCount(us, base, w.name);
        BestIsHighest(copies);
        assert Agree(copies, |us|, base);
        assert copies[0] in copies && IsHighest(Best(copies), copies);
      }
      MergedExact(us, w);
    }
  }

  /** The one-element shortcut returns what the general loop would: the same workloads, each once. */
  lemma ShortcutAgrees(u: Request)
    requires UniqueNames(u.workloads)
    ensures SameWorkloads(Merged([u]), u.workloads)
    ensures |Merged([u])| == |u.workloads|
    ensures (forall w :: w in u.workloads ==> !IsArrayIndex(w.name)) ==> Merged([u]) == u.workloads
  {
    var ws := u.workloads;
    OneFlat(u);
    FirstNamesExact(ws);
    OwnKeysMembers(FirstNames(ws));
    PermutationMembers(OwnKeys(FirstNames(ws)), FirstNames(ws));
    SingleSurvivors(ws, OwnKeys(FirstNames(ws)), u.version);
    SingleKept(ws, OwnKeys(FirstNames(ws)), u.version);
    NamesAreFirst(ws);
    if forall w :: w in ws ==> !IsArrayIndex(w.name) {
      NamesNotIndices(ws);
      OwnKeysInOrder(FirstNames(ws));
      SameList(ws, Survivors(ws, FirstNames(ws), 1, u.version));
    }
  }

  lemma OneFlat(u: Request)
    ensures Flat([u]) == u.workloads
  {
    assert [u][..0] == [];
  }

  lemma NamesNotIndices(ws: seq<Workload>)
    requires forall w :: w in ws ==> !IsArrayIndex(w.name)
    ensures forall k :: k in FirstNames(ws) ==> !IsArrayIndex(k)
  {
    FirstNamesExact(ws);
    forall k | k in FirstNames(ws) ensures !IsArrayIndex(k) {
      NamedMembers(ws, k);
      assert Named(ws, k)[0] in Named(ws, k);
    }
  }

  lemma SameList(ws: seq<Workload>, all: seq<Workload>)
    requires UniqueNames(ws) && |all| == |ws|
    requires forall i :: 0 <= i < |ws| ==> Named(ws, ws[i].name) != [] && all[i] == Best(Named(ws, ws[i].name))
    ensures all == ws
  {
    forall i | 0 <= i < |ws| ensures all[i] == ws[i] {
      NamedSingle(ws, i);
    }
  }

  lemma SingleKept(ws: seq<Workload>, keys: seq<string>, base: nat)
    requires UniqueNames(ws) && forall k :: k in keys <==> Named(ws, k) != []
    ensures SameWorkloads(Survivors(ws, keys, 1, base), ws)
  {
    SurvivorsExact(ws, keys, 1, base);
    forall w
      ensures w in Survivors(ws, keys, 1, base) <==> w in ws
    {
      NamedMembers(ws, w.name);
      NamedOnce(ws, w.name);
    }
  }

  lemma FirstNamesNext(front: seq<Workload>, last: Workload)
    requires last.name !in FirstNames(front)
    ensures FirstNames(front + [last]) == FirstNames(front) + [last.name]
  {
    assert (front + [last])[..|front|] == front;
  }

  lemma {:induction false} NamesAreFirst(ws: seq<Workload>)
    requires UniqueNames(ws)
    ensures |FirstNames(ws)| == |ws| && forall i :: 0 <= i < |ws| ==> FirstNames(ws)[i] == ws[i].name
  {
    if ws != [] {
      var front, last := ws[..|ws| - 1], ws[|ws| - 1];
      assert ws == front + [last];
      NamesAreFirst(front);
      FirstNamesNext(front, last);
    }
  }

  lemma NamedSingle(ws: seq<Workload>, i: nat)
    requires UniqueNames(ws) && i < |ws|
    ensures Named(ws, ws[i].name) == [ws[i]]
  {
    NamedOnce(ws, ws[i].name);
    NamedMembers(ws, ws[i].name);
    assert ws[i] in Named(ws, ws[i].name);
  }

  lemma {:induction false} SingleSurvivors(ws: seq<Workload>, keys: seq<string>, base: nat)
    requires forall k :: k in keys ==> Named(ws, k) != []
    requires UniqueNames(ws)
    ensures |Survivors(ws, keys, 1, base)| == |keys|
    ensures forall i :: 0 <= i < |keys| ==>
              Named(ws, keys[i]) != [] && Survivors(ws, keys, 1, base)[i] == Best(Named(ws, keys[i]))
  {
    if keys != [] {
      assert keys[|keys| - 1] in keys;
      SingleSurvivors(ws, keys[..|keys| - 1], base);
    }
  }

  lemma BestOfPair(c: Workload, d: Workload)
    ensures Best([c, d]) == if c.version < d.version then d else c
  {
    assert [c, d][..1] == [c];
  }

  lemma MergedPair(a: Request, b: Request, none: Request, c: Workload, d: Workload)
    requires a.workloads == [c] && b.workloads == [d] && none.workloads == [] && c.name == d.name
    ensures Merged([a, b, none]) == if c.version <= a.version then [] else [if c.version < d.version then d else c]
  {
    PairFlat(a, b, none, c, d);
    PairNames(c, d);
    OneKey([c, d], c.name, 3, a.version);
    BestOfPair(c, d);
  }

  /** A lost change: of three updates to a base of version 1, one leaves `disk` alone, one changes it and
      one removes it. The change survives or not depending on which of the first two comes first. */
  lemma ChangeCanBeLost(disk: Workload, r: Request)
    requires disk.version == 1 && r.version == 1
    ensures var same, changed, removed := r.(workloads := [disk]), r.(workloads := [disk.(version := 2)]),
              r.(workloads := []);
      Merged([same, changed, removed]) == [] && Merged([changed, same, removed]) == [disk.(version := 2)]
  {
    var newer := disk.(version := 2);
    var same, changed, removed := r.(workloads := [disk]), r.(workloads := [newer]), r.(workloads := []);
    MergedPair(same, changed, removed, disk, newer);
    MergedPair(changed, same, removed, newer, disk);
  }

  lemma PairFlat(a: Request, b: Request, none: Request, c: Workload, d: Workload)
    requires a.workloads == [c] && b.workloads == [d] && none.workloads == []
    ensures Flat([a, b, none]) == [c, d]
  {
    assert [a, b, none][..2] == [a, b] && [a, b][..1] == [a] && [a][..0] == [];
    assert Flat([a]) == [] + [c] == [c];
    assert Flat([a, b]) == [c] + [d] == [c, d];
    assert Flat([a, b, none]) == [c, d] + [] == [c, d];
  }

  lemma OneKey(flat: seq<Workload>, key: string, updates: nat, base: nat)
    requires Named(flat, key) != []
    ensures Survivors(flat, [key], updates, base) ==
              if Kept(Named(flat, key), updates, base) then [Best(Named(flat, key))] else []
  {
    assert [key][..0] == [];
    assert Survivors(flat, [], updates, base) == [];
  }

  lemma PairFirstNames(c: Workload, d: Workload)
    requires c.name == d.name
    ensures FirstNames([c, d]) == [c.name]
  {
    assert [c, d][..1] == [c] && [c][..0] == [];
    assert FirstNames([c]) == [] + [c.name] == [c.name];
    assert c.name in FirstNames([c]);
  }

  lemma SingleKey(key: string)
    ensures OwnKeys([key]) == [key]
  {
    OwnKeysMembers([key]);
    PermutationMembers(OwnKeys([key]), [key]);
    assert OwnKeys([key])[0] in OwnKeys([key]);
  }

  lemma PairNames(c: Workload, d: Workload)
    requires c.name == d.name
    ensures OwnKeys(FirstNames([c, d])) == [c.name]
    ensures Named([c, d], c.name) == [c, d]
  {
    hide OwnKeys, FirstNames;
    PairFirstNames(c, d);
    SingleKey(c.name);
    FilterAll([c, d], IsNamed(c.name));
  }

  // ---- The algorithm ----

  lemma FlatSnoc(us: seq<Request>, i: nat)
    requires i < |us|
    ensures Flat(us[..i + 1]) == Flat(us[..i]) + us[i].workloads
    ensures SumIps(us[..i + 1]) == SumIps(us[..i]) + us[i].publicIps
    ensures FirstNetwork(us[..i + 1]) == if FirstNetwork(us[..i]).Some? then FirstNetwork(us[..i]) else us[i].network
  {
    assert us[..i + 1][..i] == us[..i];
  }

  /** The table of copies by name, and the names in the order they were added. */
  ghost predicate Tabulates(table: map<string, seq<Workload>>, names: seq<string>, flat: seq<Workload>) {
    && names == FirstNames(flat)
    && (forall n :: n in table <==> n in names)
    && (forall n :: n in table ==> table[n] == Named(flat, n))
  }

  lemma OneCopyMore(table: map<string, seq<Workload>>, names: seq<string>, flat: seq<Workload>, w: Workload)
    requires Tabulates(table, names, flat)
    ensures w.name in table ==> Tabulates(table[w.name := table[w.name] + [w]], names, flat + [w])
    ensures w.name !in table ==> Tabulates(table[w.name := [w]], names + [w.name], flat + [w])
  {
    assert (flat + [w])[..|flat|] == flat;
    FirstNamesExact(flat);
  }

  method AddCopies(table0: map<string, seq<Workload>>, names0: seq<string>, ws: seq<Workload>,
      ghost flat: seq<Workload>)
    returns (table: map<string, seq<Workload>>, names: seq<string>)
    requires Tabulates(table0, names0, flat)
    ensures Tabulates(table, names, flat + ws)
  {
    table, names := table0, names0;
    ghost var done := flat;
    for j := 0 to |ws|
      invariant Tabulates(table, names, done) && done == flat + ws[..j]
    {
      var w := ws[j];
      OneCopyMore(table, names, done, w);
      PrefixSnoc(ws, j);
      done := done + [w];
      if w.name in table {
        table := table[w.name := table[w.name] + [w]];
      } else {
        table := table[w.name := [w]];
        names := names + [w.name];
      }
    }
    WholePrefix(ws);
  }

  method BestCopy(copies: seq<Workload>) returns (w: Workload)
    requires copies != []
    ensures w == Best(copies)
  {
    w := copies[0];
    assert copies[..1] == [copies[0]];
    for i := 1 to |copies|
      invariant w == Best(copies[..i])
    {
      assert copies[..i + 1][..i] == copies[..i];
      if w.version < copies[i].version {
        w := copies[i];
      }
    }
    assert copies[..|copies|] == copies;
  }

  lemma KeyTabulated(table: map<string, seq<Workload>>, names: seq<string>, flat: seq<Workload>)
    requires Tabulates(table, names, flat)
    ensures forall k :: k in OwnKeys(names) ==> k in table && table[k] != [] && table[k] == Named(flat, k)
  {
    FirstNamesExact(flat);
    OwnKeysMembers(names);
    PermutationMembers(OwnKeys(names), names);
  }

  method Survive(table: map<string, seq<Workload>>, keys: seq<string>, updates: nat, base: nat,
      ghost flat: seq<Workload>)
    returns (workloads: seq<Workload>)
    requires forall k :: k in keys ==> k in table && table[k] != [] && table[k] == Named(flat, k)
    ensures workloads == Survivors(flat, keys, updates, base)
  {
    workloads := [];
    for i := 0 to |keys|
      invariant workloads == Survivors(flat, keys[..i], updates, base)
    {
      assert keys[..i + 1][..i] == keys[..i];
      assert keys[i] in keys;
      var copies := table[keys[i]];
      if |copies| < updates && copies[0].version <= base {
        continue;
      }
      var w := BestCopy(copies);
      workloads := workloads + [w];
    }
    assert keys[..|keys|] == keys;
  }

  /** The first loop of the general case; it only reads. */
  method Gather(ts: seq<TwinDeployment>)
    returns (workloadMap: map<string, seq<Workload>>, names: seq<string>, publicIps: nat, network: Option<nat>)
    ensures Tabulates(workloadMap, names, Flat(Snaps(ts)))
    ensures publicIps == SumIps(Snaps(ts)) && network == FirstNetwork(Snaps(ts))
  {
    workloadMap, names, publicIps, network := map[], [], 0, None;
    ghost var us := Snaps(ts);
    for i := 0 to |ts|
      invariant Tabulates(workloadMap, names, Flat(us[..i]))
      invariant publicIps == SumIps(us[..i])
      invariant network == FirstNetwork(us[..i])
    {
      FlatSnoc(us, i);
      workloadMap, names := AddCopies(workloadMap, names, ts[i].deployment.workloads, Flat(us[..i]));
      publicIps := publicIps + ts[i].publicIps;
      if network.None? {
        network := ts[i].network;
      }
    }
    assert us[..|ts|] == us;
  }

  /** The requests may share deployments: everything is read before the first one is written. */
  method UpdateToLatest(ts: seq<TwinDeployment>) returns (r: Option<TwinDeployment>)
    modifies (if ts == [] then {} else {ts[0]})`publicIps, (if ts == [] then {} else {ts[0]})`network
    modifies (if ts == [] then {} else {ts[0].deployment})`workloads,
              (if ts == [] then {} else {ts[0].deployment})`version
    ensures ts == [] <==> r == None
    ensures ts != [] ==> r == Some(ts[0]) && Snap(ts[0]) == Latest(old(Snaps(ts)))
  {
    if |ts| == 0 {
      return None;
    } else if |ts| == 1 {
      ts[0].deployment.version := ts[0].deployment.version + 1;
      return Some(ts[0]);
    }
    hide Survivors, Named, FirstNames, OwnKeys, Flat;
    var workloadMap, names, publicIps, network := Gather(ts);
    KeyTabulated(workloadMap, names, Flat(Snaps(ts)));
    var workloads := Survive(workloadMap, OwnKeys(names), |ts|, ts[0].deployment.version, Flat(Snaps(ts)));
    var d := ts[0];
    d.deployment.workloads := workloads;
    d.publicIps := publicIps;
    d.network := network;
    d.deployment.version := d.deployment.version + 1;
    r := Some(d);
  }
}
