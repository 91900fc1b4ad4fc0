/** The order in which `Object.keys` lists the string keys of a plain JavaScript object: array indices
    in ascending numeric order, then the other keys in the order they were added. */
module ObjectKeys {
  import opened Sequences

  predicate IsDigit(c: char) { '0' <= c <= '9' }

  function DecimalValue(s: string): nat {
    if s == [] then 0
    else DecimalValue(s[..|s| - 1]) * 10 + (if IsDigit(s[|s| - 1]) then s[|s| - 1] as nat - '0' as nat else 0)
  }

  /** Canonical decimal numerals below 2^32 - 1. */
  predicate IsArrayIndex(s: string) {
    && 0 < |s| <= 10
    && (forall i :: 0 <= i < |s| ==> IsDigit(s[i]))
    && (s[0] == '0' ==> |s| == 1)
    && DecimalValue(s) < 0xFFFF_FFFF
  }

  function InsertIndex(keys: seq<string>, key: string): seq<string> {
    if keys == [] then [key]
    else if DecimalValue(key) < DecimalValue(keys[0]) then [key] + keys
    else [keys[0]] + InsertIndex(keys[1..], key)
  }

  function Indices(added: seq<string>): seq<string> {
    if added == [] then []
    else
      var rest, last := Indices(added[..|added| - 1]), added[|added| - 1];
      if IsArrayIndex(last) then InsertIndex(rest, last) else rest
  }

  function Others(added: seq<string>): seq<string> {
    if added == [] then []
    else Others(added[..|added| - 1]) + (if IsArrayIndex(added[|added| - 1]) then [] else [added[|added| - 1]])
  }

  /** `added` lists the keys in the order they were first assigned. */
  function OwnKeys(added: seq<string>): seq<string> {
    Indices(added) + Others(added)
  }

  lemma {:induction false} InsertIndexMembers(keys: seq<string>, key: string)
    ensures multiset(InsertIndex(keys, key)) == multiset(keys) + multiset{key}
  {
    if keys != [] && DecimalValue(key) >= DecimalValue(keys[0]) {
      InsertIndexMembers(keys[1..], key);
      assert keys == [keys[0]] + keys[1..];
    }
  }

  /** Every key is listed, as often as it was added. */
  lemma {:induction false} OwnKeysMembers(added: seq<string>)
    ensures multiset(OwnKeys(added)) == multiset(added)
  {
    if added != [] {
      var front, last := added[..|added| - 1], added[|added| - 1];
      OwnKeysMembers(front);
      assert added == front + [last];
      if IsArrayIndex(last) {
        InsertIndexMembers(Indices(front), last);
      }
    }
  }

  /** Without array indices the keys come in the order they were added. */
  lemma {:induction false} OwnKeysInOrder(added: seq<string>)
    requires forall k :: k in added ==> !IsArrayIndex(k)
    ensures OwnKeys(added) == added
  {
    if added != [] {
      OwnKeysInOrder(added[..|added| - 1]);
      assert Indices(added) == Indices(added[..|added| - 1]);
    }
  }
}
