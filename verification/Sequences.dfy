/** Facts about sequences that several parts of the model share. */
module Sequences {

  ghost predicate NoDuplicates<T>(xs: seq<T>) {
    forall i, j :: 0 <= i < j < |xs| ==> xs[i] != xs[j]
  }

  lemma LastIsNew<T>(xs: seq<T>)
    requires xs != [] && NoDuplicates(xs)
    ensures xs[|xs| - 1] !in xs[..|xs| - 1] && NoDuplicates(xs[..|xs| - 1])
  {
  }

  lemma HeadIsNew<T>(xs: seq<T>)
    requires xs != [] && NoDuplicates(xs)
    ensures xs[0] !in xs[1..] && NoDuplicates(xs[1..])
  {
  }

  lemma MiddleIsNew<T>(xs: seq<T>, x: T, ys: seq<T>)
    requires NoDuplicates(xs + [x] + ys)
    ensures x !in xs && x !in ys
  {
    var all := xs + [x] + ys;
    assert all[|xs|] == x;
    assert forall i :: 0 <= i < |xs| ==> xs[i] == all[i];
    assert forall i :: 0 <= i < |ys| ==> ys[i] == all[|xs| + 1 + i];
  }

  lemma TakeDrop<T>(xs: seq<T>, n: nat)
    requires n <= |xs|
    ensures xs == xs[..n] + xs[n..]
  {
  }

  lemma WholePrefix<T>(xs: seq<T>)
    ensures xs[..|xs|] == xs
  {
  }

  lemma PrefixSnoc<T>(xs: seq<T>, i: nat)
    requires i < |xs|
    ensures xs[..i + 1] == xs[..i] + [xs[i]] && xs[..i + 1][..i] == xs[..i]
  {
  }

  function Filter<T>(xs: seq<T>, keep: T -> bool): seq<T> {
    if xs == [] then []
    else Filter(xs[..|xs| - 1], keep) + (if keep(xs[|xs| - 1]) then [xs[|xs| - 1]] else [])
  }

  lemma {:induction false} FilterMembers<T>(xs: seq<T>, keep: T -> bool, y: T)
    ensures y in Filter(xs, keep) <==> y in xs && keep(y)
  {
    if xs != [] {
      FilterMembers(xs[..|xs| - 1], keep, y);
      assert xs == xs[..|xs| - 1] + [xs[|xs| - 1]];
    }
  }

  lemma FilteredMembers<T>(xs: seq<T>, keep: T -> bool)
    ensures forall y :: y in Filter(xs, keep) <==> y in xs && keep(y)
  {
    forall y ensures y in Filter(xs, keep) <==> y in xs && keep(y) {
      FilterMembers(xs, keep, y);
    }
  }

  lemma FilterSnoc<T>(xs: seq<T>, x: T, keep: T -> bool)
    ensures Filter(xs + [x], keep) == Filter(xs, keep) + (if keep(x) then [x] else [])
  {
    assert (xs + [x])[..|xs|] == xs;
  }

  /** Filtering, seen from the last element. */
  lemma FilterLast<T>(xs: seq<T>, keep: T -> bool)
    requires xs != []
    ensures var front, last := Filter(xs[..|xs| - 1], keep), xs[|xs| - 1];
      Filter(xs, keep) == if keep(last) then front + [last] else front
  {
  }

  lemma {:induction false} FilterAppend<T>(xs: seq<T>, ys: seq<T>, keep: T -> bool)
    ensures Filter(xs + ys, keep) == Filter(xs, keep) + Filter(ys, keep)
  {
    if ys == [] {
      assert xs + ys == xs;
    } else {
      var front, last := ys[..|ys| - 1], ys[|ys| - 1];
      FilterAppend(xs, front, keep);
      assert xs + ys == (xs + front) + [last];
      FilterSnoc(xs + front, last, keep);
      assert Filter(ys, keep) == Filter(front, keep) + (if keep(last) then [last] else []);
    }
  }

  lemma {:induction false} FilterAll<T>(xs: seq<T>, keep: T -> bool)
    requires forall x :: x in xs ==> keep(x)
    ensures Filter(xs, keep) == xs
  {
    if xs != [] {
      FilterAll(xs[..|xs| - 1], keep);
      assert xs == xs[..|xs| - 1] + [xs[|xs| - 1]];
    }
  }

  lemma {:induction false} FilterNone<T>(xs: seq<T>, keep: T -> bool)
    requires forall x :: x in xs ==> !keep(x)
    ensures Filter(xs, keep) == []
  {
    if xs != [] {
      FilterNone(xs[..|xs| - 1], keep);
    }
  }

  lemma {:induction false} FilterSame<T>(xs: seq<T>, f: T -> bool, g: T -> bool)
    requires forall x :: x in xs ==> f(x) == g(x)
    ensures Filter(xs, f) == Filter(xs, g)
  {
    if xs != [] {
      assert xs[|xs| - 1] in xs;
      FilterSame(xs[..|xs| - 1], f, g);
    }
  }

  /** A filter undoes nothing that a coarser one did before. */
  lemma {:induction false} FilterTwice<T>(xs: seq<T>, coarse: T -> bool, fine: T -> bool)
    requires forall x :: x in xs && fine(x) ==> coarse(x)
    ensures Filter(Filter(xs, coarse), fine) == Filter(xs, fine)
  {
    if xs != [] {
      var front, last := xs[..|xs| - 1], xs[|xs| - 1];
      assert last in xs;
      FilterTwice(front, coarse, fine);
      FilterLast(xs, coarse);
      FilterLast(xs, fine);
      FilterSnoc(Filter(front, coarse), last, fine);
    }
  }

  /** Filtering commutes with taking the multiset of the elements. */
  lemma {:induction false} FilterMultiplicity<T>(xs: seq<T>, keep: T -> bool, x: T)
    ensures multiset(Filter(xs, keep))[x] == if keep(x) then multiset(xs)[x] else 0
  {
    if xs != [] {
      FilterMultiplicity(xs[..|xs| - 1], keep, x);
      assert xs == xs[..|xs| - 1] + [xs[|xs| - 1]];
    }
  }

  lemma PermutationMembers<T>(xs: seq<T>, ys: seq<T>)
    requires multiset(xs) == multiset(ys)
    ensures |xs| == |ys|
    ensures forall x :: x in xs <==> x in ys
  {
    assert |multiset(xs)| == |multiset(ys)|;
    forall x
      ensures x in xs <==> x in ys
    {
      assert x in xs <==> x in multiset(xs);
      assert x in ys <==> x in multiset(ys);
    }
  }

  lemma TakenOut<T>(front: seq<T>, last: T, vs: seq<T>) returns (a: seq<T>, b: seq<T>)
    requires multiset(front + [last]) == multiset(vs)
    ensures vs == a + [last] + b && multiset(front) == multiset(a + b)
  {
    PermutationMembers(front + [last], vs);
    assert (front + [last])[|front|] == last;
    var p := IndexOf(vs, last);
    a, b := vs[..p], vs[p + 1..];
    assert vs == a + [last] + b;
    assert multiset(front + [last]) - multiset{last} == multiset(front);
  }

  /** The keys a JavaScript object enumerates when all of them are small non-negative integers:
      every key once, in ascending order. */
  function InsertKey(keys: seq<nat>, key: nat): (r: seq<nat>)
    ensures forall k :: k in r <==> k in keys || k == key
    ensures Ascending(keys) ==> Ascending(r)
  {
    if keys == [] then [key]
    else if keys[0] == key then keys
    else if key < keys[0] then [key] + keys
    else
      var rest := InsertKey(keys[1..], key);
      assert forall k :: k in keys <==> k == keys[0] || k in keys[1..];
      assert Ascending(keys) ==> Ascending(keys[1..]) && forall i :: 0 <= i < |rest| ==> keys[0] < rest[i] by {
        if Ascending(keys) {
          forall i | 0 <= i < |rest| ensures keys[0] < rest[i] { assert rest[i] in rest; }
        }
      }
      [keys[0]] + rest
  }

  predicate Ascending(keys: seq<nat>) {
    forall i, j :: 0 <= i < j < |keys| ==> keys[i] < keys[j]
  }

  lemma HeadIsMember<T>(xs: seq<T>)
    requires xs != []
    ensures xs[0] in xs
  {
  }

  /** An ascending key list is determined by its set of keys. */
  lemma {:induction false} AscendingUnique(xs: seq<nat>, ys: seq<nat>)
    requires Ascending(xs) && Ascending(ys)
    requires forall k :: k in xs <==> k in ys
    ensures xs == ys
  {
    if xs == [] {
      if ys != [] {
        HeadIsMember(ys);
        assert false;
      }
    } else {
      assert xs[0] in xs;
      assert ys != [];
      assert ys[0] in ys;
      assert xs[0] == ys[0];
      forall k
        ensures k in xs[1..] <==> k in ys[1..]
      {
        assert k in xs <==> k == xs[0] || k in xs[1..];
        assert k in ys <==> k == ys[0] || k in ys[1..];
      }
      AscendingUnique(xs[1..], ys[1..]);
      assert xs == [xs[0]] + xs[1..];
      assert ys == [ys[0]] + ys[1..];
    }
  }

  /** Pigeonhole: an injective map from `n` indices into `n` slots reaches every slot. */
  lemma {:induction false} InjectionIsOnto(f: seq<nat>, n: nat)
    requires |f| == n
    requires forall i :: 0 <= i < n ==> f[i] < n
    requires NoDuplicates(f)
    ensures forall slot :: 0 <= slot < n ==> slot in f
    decreases n
  {
    if n > 0 {
      // Free slot n-1: whoever uses it takes the last index's slot instead.
      var last := f[n - 1];
      var g := seq(n - 1, i requires 0 <= i < n - 1 => if f[i] == n - 1 then last else f[i]);
      forall i | 0 <= i < n - 1
        ensures g[i] < n - 1
      {
        assert f[i] != f[n - 1];
      }
      forall i, j | 0 <= i < j < n - 1
        ensures g[i] != g[j]
      {
        assert f[i] != f[j] && f[i] != last && f[j] != last;
      }
      InjectionIsOnto(g, n - 1);
      forall slot | 0 <= slot < n
        ensures slot in f
      {
        if slot == last {
          assert f[n - 1] == slot;
        } else {
          var target := if slot < n - 1 then slot else last;
          assert target in g;
          var i :| 0 <= i < |g| && g[i] == target;
          assert f[i] == slot;
        }
      }
    }
  }

  ghost function IndexOf<T>(xs: seq<T>, x: T): (i: nat)
    requires x in xs
    ensures i < |xs| && xs[i] == x
  {
    var i :| 0 <= i < |xs| && xs[i] == x; i
  }
}
