/** `BaseModule.save` and `getMyContracts`: contracts created and deleted by this process are laid over
    what a lagging indexer lists. The overlay is shared by all modules. */
module Overlay {
  import opened Models
  import opened Sequences

  /** `kind` and `project` are parsed from the contract's deployment data. */
  datatype Contract = Contract(id: nat, kind: string, project: string, updatedAt: int, body: string)

  /** An entry of `newContracts`; the slot stands for the identity of the object. */
  datatype Entry = Entry(slot: nat, contract: Contract)

  /** A module asks for contracts of one kind in one project. */
  datatype Asker = Asker(kind: string, project: string)

  const ONE_MINUTE := 1000 * 60

  predicate HasPrefix(s: string, p: string) { |p| <= |s| && s[..|p|] == p }

  predicate Includes(s: string, p: string) {
    exists i :: 0 <= i <= |s| && HasPrefix(s[i..], p)
  }

  /** The test on a local entry: the project name contains the module's. */
  predicate Matches(a: Asker, c: Contract) {
    Includes(c.project, a.project) && c.kind == a.kind
  }

  /** The filter the indexer applies: the project name starts with the module's, except for networks. */
  predicate Queried(a: Asker, c: Contract) {
    && (a.kind == "" || c.kind == a.kind)
    && (a.kind == "network" || a.project == "" || HasPrefix(c.project, a.project))
  }

  // ---- Specification of a fetch ----

  function Ids(cs: seq<Contract>): (ids: seq<nat>)
    ensures |ids| == |cs| && forall i :: 0 <= i < |cs| ==> ids[i] == cs[i].id
  {
    seq(|cs|, i requires 0 <= i < |cs| => cs[i].id)
  }

  function ReplaceFirst(cs: seq<Contract>, c: Contract): seq<Contract> {
    if cs == [] then []
    else if cs[0].id == c.id then [c] + cs[1..]
    else [cs[0]] + ReplaceFirst(cs[1..], c)
  }

  predicate IsFresh(c: Contract, now: int) { now - c.updatedAt < ONE_MINUTE }

  datatype Patched = Patched(list: seq<Contract>, seen: seq<Entry>)

  /** The local entries laid over a list; `seen` are the entries the indexer has caught up with. */
  function Patch(list: seq<Contract>, entries: seq<Entry>, a: Asker, now: int): Patched {
    if entries == [] then Patched(list, [])
    else
      var p, e := Patch(list, entries[..|entries| - 1], a, now), entries[|entries| - 1];
      if !Matches(a, e.contract) then p
      else if e.contract.id !in Ids(p.list) then Patched(p.list + [e.contract], p.seen)
      else if IsFresh(e.contract, now) then Patched(ReplaceFirst(p.list, e.contract), p.seen)
      else Patched(p.list, p.seen + [e])
  }

  function RemoveFirst(entries: seq<Entry>, e: Entry): seq<Entry> {
    if entries == [] then []
    else if entries[0] == e then entries[1..]
    else [entries[0]] + RemoveFirst(entries[1..], e)
  }

  function Evict(entries: seq<Entry>, seen: seq<Entry>): seq<Entry> {
    if seen == [] then entries else RemoveFirst(Evict(entries, seen[..|seen| - 1]), seen[|seen| - 1])
  }

  function Undeleted(deleted: seq<nat>): Contract -> bool {
    (c: Contract) => c.id !in deleted
  }

  function Listing(list: seq<Contract>, entries: seq<Entry>, deleted: seq<nat>, a: Asker, now: int): seq<Contract> {
    Filter(Patch(list, entries, a, now).list, Undeleted(deleted))
  }

  // ---- What a fetch lists ----

  ghost predicate MatchedLocally(entries: seq<Entry>, a: Asker, id: nat) {
    exists e :: e in entries && Matches(a, e.contract) && e.contract.id == id
  }

  lemma IdsCons(x: Contract, xs: seq<Contract>)
    ensures Ids([x] + xs) == [x.id] + Ids(xs)
  {
  }

  lemma {:induction false} ReplaceFirstIds(cs: seq<Contract>, c: Contract)
    ensures Ids(ReplaceFirst(cs, c)) == Ids(cs)
  {
    if cs != [] {
      assert cs == [cs[0]] + cs[1..];
      IdsCons(cs[0], cs[1..]);
      if cs[0].id == c.id {
        IdsCons(c, cs[1..]);
      } else {
        ReplaceFirstIds(cs[1..], c);
        IdsCons(cs[0], ReplaceFirst(cs[1..], c));
      }
    }
  }

  lemma {:induction false} PatchIds(list: seq<Contract>, entries: seq<Entry>, a: Asker, now: int)
    requires NoDuplicates(Ids(list))
    ensures NoDuplicates(Ids(Patch(list, entries, a, now).list))
    ensures forall id :: id in Ids(Patch(list, entries, a, now).list) <==>
              id in Ids(list) || MatchedLocally(entries, a, id)
  {
    if entries != [] {
      var front, e := entries[..|entries| - 1], entries[|entries| - 1];
      assert entries == front + [e];
      PatchIds(list, front, a, now);
      var p := Patch(list, front, a, now);
      ReplaceFirstIds(p.list, e.contract);
      assert Ids(p.list + [e.contract]) == Ids(p.list) + [e.contract.id];
      forall id
        ensures MatchedLocally(entries, a, id) <==>
                  MatchedLocally(front, a, id) || (Matches(a, e.contract) && e.contract.id == id)
      {
        if x :| x in front && Matches(a, x.contract) && x.contract.id == id { assert x in entries; }
        if Matches(a, e.contract) && e.contract.id == id { assert e in entries; }
      }
    }
  }

  lemma IdsSnoc(xs: seq<Contract>, x: Contract)
    ensures Ids(xs + [x]) == Ids(xs) + [x.id]
  {
  }

  lemma {:induction false} UndeletedIds(cs: seq<Contract>, deleted: seq<nat>)
    ensures forall id :: id in Ids(Filter(cs, Undeleted(deleted))) <==> id in Ids(cs) && id !in deleted
  {
    if cs != [] {
      var front, last := cs[..|cs| - 1], cs[|cs| - 1];
      assert cs == front + [last];
      UndeletedIds(front, deleted);
      FilterLast(cs, Undeleted(deleted));
      IdsSnoc(front, last);
      IdsSnoc(Filter(front, Undeleted(deleted)), last);
    }
  }

  lemma {:induction false} UndeletedOnce(cs: seq<Contract>, deleted: seq<nat>)
    requires NoDuplicates(Ids(cs))
    ensures NoDuplicates(Ids(Filter(cs, Undeleted(deleted))))
  {
    if cs != [] {
      var front, last := cs[..|cs| - 1], cs[|cs| - 1];
      LastIsNew(Ids(cs));
      assert Ids(cs)[..|cs| - 1] == Ids(front);
      UndeletedOnce(front, deleted);
      UndeletedIds(front, deleted);
      FilterLast(cs, Undeleted(deleted));
      IdsSnoc(Filter(front, Undeleted(deleted)), last);
    }
  }

  /** A fetch lists, without repeated ids, exactly what the indexer shows and the matching local
      creations, less the local deletions. */
  lemma ListingExactly(list: seq<Contract>, entries: seq<Entry>, deleted: seq<nat>, a: Asker, now: int)
    requires NoDuplicates(Ids(list))
    ensures NoDuplicates(Ids(Listing(list, entries, deleted, a, now)))
    ensures forall id :: id in Ids(Listing(list, entries, deleted, a, now)) <==>
              (id in Ids(list) || MatchedLocally(entries, a, id)) && id !in deleted
  {
    PatchIds(list, entries, a, now);
    UndeletedIds(Patch(list, entries, a, now).list, deleted);
    UndeletedOnce(Patch(list, entries, a, now).list, deleted);
  }

  lemma IdsMember(cs: seq<Contract>, c: Contract)
    requires c in cs
    ensures c.id in Ids(cs)
  {
    assert Ids(cs)[IndexOf(cs, c)] == c.id;
  }

  lemma {:induction false} ReplaceFirstMembers(cs: seq<Contract>, c: Contract)
    requires NoDuplicates(Ids(cs)) && c.id in Ids(cs)
    ensures forall x :: x in ReplaceFirst(cs, c) <==> x == c || (x in cs && x.id != c.id)
  {
    var rest := cs[1..];
    assert cs == [cs[0]] + rest;
    IdsCons(cs[0], rest);
    HeadIsNew(Ids(cs));
    assert Ids(cs)[1..] == Ids(rest);
    if cs[0].id == c.id {
      forall x | x in rest ensures x.id != c.id {
        IdsMember(rest, x);
      }
    } else {
      ReplaceFirstMembers(rest, c);
      forall x | x in rest ensures x != cs[0] {
        IdsMember(rest, x);
      }
    }
  }

  ghost predicate FromEntry(c: Contract, list: seq<Contract>, entries: seq<Entry>, a: Asker, now: int) {
    exists e :: e in entries && Matches(a, e.contract) && e.contract == c && (c.id !in Ids(list) || IsFresh(c, now))
  }

  ghost predicate FromIndexer(c: Contract, list: seq<Contract>, entries: seq<Entry>, a: Asker, now: int) {
    c in list && forall e :: e in entries && Matches(a, e.contract) && e.contract.id == c.id ==>
        !IsFresh(e.contract, now)
  }

  /** The copy listed for an id is the indexer's once it has one, except that a local copy less than a
      minute old wins. */
  lemma {:induction false} ListedCopy(list: seq<Contract>, entries: seq<Entry>, a: Asker, now: int)
    requires NoDuplicates(Ids(list))
    ensures forall c :: c in Patch(list, entries, a, now).list ==>
              FromEntry(c, list, entries, a, now) || FromIndexer(c, list, entries, a, now)
  {
    if entries != [] {
      var front, e := entries[..|entries| - 1], entries[|entries| - 1];
      assert entries == front + [e];
      ListedCopy(list, front, a, now);
      PatchIds(list, front, a, now);
      var p := Patch(list, front, a, now);
      if Matches(a, e.contract) && e.contract.id in Ids(p.list) {
        ReplaceFirstMembers(p.list, e.contract);
      }
      forall c | c in Patch(list, entries, a, now).list
        ensures FromEntry(c, list, entries, a, now) || FromIndexer(c, list, entries, a, now)
      {
        if c in p.list {
          if x :| x in front && Matches(a, x.contract) && x.contract == c && (c.id !in Ids(list) || IsFresh(c, now)) {
            assert x in entries;
          } else {
            assert c in list;
            IdsMember(p.list, c);
          }
        } else {
          assert e in entries && c == e.contract;
          if e.contract.id !in Ids(p.list) { assert c.id !in Ids(list); }
        }
      }
    }
  }

  // ---- What a fetch forgets ----

  /** An entry is forgotten only when the indexer shows its contract, or another entry stands for it. */
  lemma {:induction false} SeenIsCovered(list: seq<Contract>, entries: seq<Entry>, a: Asker, now: int, e: Entry)
    requires NoDuplicates(entries) && NoDuplicates(Ids(list)) && e in Patch(list, entries, a, now).seen
    ensures e in entries && Matches(a, e.contract)
    ensures e.contract.id in Ids(list) ||
              exists o :: o in entries && o !in Patch(list, entries, a, now).seen && o.contract.id == e.contract.id &&
                Matches(a, o.contract)
  {
    var front, last := entries[..|entries| - 1], entries[|entries| - 1];
    assert entries == front + [last];
    LastIsNew(entries);
    var p := Patch(list, front, a, now);
    if e in p.seen {
      SeenIsCovered(list, front, a, now, e);
      if e.contract.id !in Ids(list) {
        var o :| o in front && o !in p.seen && o.contract.id == e.contract.id && Matches(a, o.contract);
      }
    } else {
      assert e == last;
      UnseenCover(list, front, a, now, e.contract.id);
      if e.contract.id !in Ids(list) {
        var o :| o in front && o !in p.seen && o.contract.id == e.contract.id && Matches(a, o.contract);
      }
    }
  }

  lemma {:induction false} UnseenCover(list: seq<Contract>, entries: seq<Entry>, a: Asker, now: int, id: nat)
    requires NoDuplicates(entries) && id in Ids(Patch(list, entries, a, now).list)
    ensures id in Ids(list) ||
              exists o :: o in entries && o !in Patch(list, entries, a, now).seen && o.contract.id == id &&
                Matches(a, o.contract)
    ensures forall x :: x in Patch(list, entries, a, now).seen ==> x in entries
  {
    if entries != [] {
      var front, last := entries[..|entries| - 1], entries[|entries| - 1];
      assert entries == front + [last];
      var p := Patch(list, front, a, now);
      SeenAreEntries(list, front, a, now);
      ReplaceFirstIds(p.list, last.contract);
      assert Ids(p.list + [last.contract]) == Ids(p.list) + [last.contract.id];
      LastIsNew(entries);
      if id in Ids(p.list) {
        UnseenCover(list, front, a, now, id);
      }
    }
  }

  lemma {:induction false} SeenAreEntries(list: seq<Contract>, entries: seq<Entry>, a: Asker, now: int)
    ensures forall x :: x in Patch(list, entries, a, now).seen ==> x in entries
    ensures NoDuplicates(entries) ==> NoDuplicates(Patch(list, entries, a, now).seen)
  {
    if entries != [] {
      var front := entries[..|entries| - 1];
      assert entries == front + [entries[|entries| - 1]];
      SeenAreEntries(list, front, a, now);
      var p := Patch(list, front, a, now);
      if NoDuplicates(entries) {
        LastIsNew(entries);
        forall i | 0 <= i < |p.seen| ensures p.seen[i] != entries[|entries| - 1] {
          assert p.seen[i] in front;
        }
      }
    }
  }

  lemma {:induction false} RemoveFirstMembers(entries: seq<Entry>, e: Entry)
    requires NoDuplicates(entries)
    ensures forall x :: x in RemoveFirst(entries, e) <==> x in entries && x != e
    ensures NoDuplicates(RemoveFirst(entries, e))
  {
    if entries != [] {
      assert entries == [entries[0]] + entries[1..];
      HeadIsNew(entries);
      if entries[0] != e {
        RemoveFirstMembers(entries[1..], e);
        var rest := RemoveFirst(entries[1..], e);
        forall i | 0 <= i < |rest| ensures rest[i] != entries[0] {
          assert rest[i] in entries[1..];
        }
      }
    }
  }

  lemma {:induction false} EvictMembers(entries: seq<Entry>, seen: seq<Entry>)
    requires NoDuplicates(entries)
    ensures forall x :: x in Evict(entries, seen) <==> x in entries && x !in seen
    ensures NoDuplicates(Evict(entries, seen))
  {
    if seen != [] {
      EvictMembers(entries, seen[..|seen| - 1]);
      assert seen == seen[..|seen| - 1] + [seen[|seen| - 1]];
      RemoveFirstMembers(Evict(entries, seen[..|seen| - 1]), seen[|seen| - 1]);
    }
  }

  // ---- Runs: the chain, a lagging indexer and the overlay ----

  /** An answer the indexer gave: the list for the asker, out of everything shown at that moment. */
  datatype Asked = Asked(asker: Asker, snapshot: seq<Contract>, shown: map<nat, Contract>)

  /** `saved` and `removed` record what `save` was told; the rest is the state of the three parties. */
  datatype World = World(
    chain: map<nat, Contract>,     // contracts alive on the chain
    ended: set<nat>,               // contracts that were cancelled or ran out
    indexed: map<nat, Contract>,   // what the indexer shows
    entries: seq<Entry>,           // newContracts
    deleted: seq<nat>,             // deletedContracts
    slots: nat,
    asked: seq<Asked>,             // the answers given, in order
    taken: set<nat>,               // those processed
    saved: map<nat, Contract>,
    removed: set<nat>)

  const START := World(map[], {}, map[], [], [], 0, [], {}, map[], {})

  /** A fetch asks the indexer and goes on when it has the answer; anything may happen in between. */
  datatype Step =
    | Create(c: Contract)
    | End(id: nat)
    | Show(id: nat)                // the indexer catches up with a live contract
    | Hide(id: nat)                // ... and with one that ended
    | Save(created: seq<Contract>, gone: seq<nat>, now: int)
    | Ask(asker: Asker, snapshot: seq<Contract>)
    | Take(k: nat, now: int)       // the `k`-th answer is processed

  predicate SameData(c: Contract, d: Contract) { c.id == d.id && c.kind == d.kind && c.project == d.project }

  /** The indexer answers with the contracts it shows that pass its filter. */
  ghost predicate Answers(indexed: map<nat, Contract>, a: Asker, snapshot: seq<Contract>) {
    && NoDuplicates(Ids(snapshot))
    && forall c :: c in snapshot <==> c.id in indexed && indexed[c.id] == c && Queried(a, c)
  }

  ghost predicate Enabled(w: World, s: Step) {
    match s
    case Create(c) => c.id !in w.chain && c.id !in w.ended
    case End(id) => id in w.chain
    case Show(id) => id in w.chain
    case Hide(id) => id in w.indexed && id in w.ended
    case Save(created, _, _) =>
      forall c :: c in created ==> c.id in w.ended || (c.id in w.chain && SameData(w.chain[c.id], c))
    case Ask(a, snapshot) => Answers(w.indexed, a, snapshot)
    case Take(k, _) => k < |w.asked| && k !in w.taken
  }

  function NewEntries(created: seq<Contract>, slot: nat, now: int): (es: seq<Entry>)
    ensures |es| == |created|
    ensures forall i :: 0 <= i < |created| ==> es[i] == Entry(slot + i, created[i].(updatedAt := now))
  {
    seq(|created|, i requires 0 <= i < |created| => Entry(slot + i, created[i].(updatedAt := now)))
  }

  function Recorded(saved: map<nat, Contract>, created: seq<Contract>): map<nat, Contract> {
    if created == [] then saved
    else Recorded(saved, created[..|created| - 1])[created[|created| - 1].id := created[|created| - 1]]
  }

  function SeenBy(w: World, k: nat, now: int): seq<Entry>
    requires k < |w.asked|
  {
    Patch(w.asked[k].snapshot, w.entries, w.asked[k].asker, now).seen
  }

  /** What the `k`-th answer lists when it is processed. */
  function ListedBy(w: World, k: nat, now: int): seq<nat>
    requires k < |w.asked|
  {
    Ids(Listing(w.asked[k].snapshot, w.entries, w.deleted, w.asked[k].asker, now))
  }

  ghost function Next(w: World, s: Step): World {
    match s
    case Create(c) => w.(chain := w.chain[c.id := c])
    case End(id) => w.(chain := w.chain - {id}, ended := w.ended + {id})
    case Show(id) => if id in w.chain then w.(indexed := w.indexed[id := w.chain[id]]) else w
    case Hide(id) => w.(indexed := w.indexed - {id})
    case Save(created, gone, now) =>
      w.(entries := w.entries + NewEntries(created, w.slots, now), slots := w.slots + |created|,
         deleted := w.deleted + gone, saved := Recorded(w.saved, created), removed := w.removed + set id | id in gone)
    case Ask(a, snapshot) => w.(asked := w.asked + [Asked(a, snapshot, w.indexed)])
    case Take(k, now) =>
      if k < |w.asked| then w.(entries := Evict(w.entries, SeenBy(w, k, now)), taken := w.taken + {k}) else w
  }

  ghost function After(steps: seq<Step>): World {
    if steps == [] then START else Next(After(steps[..|steps| - 1]), steps[|steps| - 1])
  }

  ghost predicate IsRun(steps: seq<Step>) {
    steps == [] || (IsRun(steps[..|steps| - 1]) && Enabled(After(steps[..|steps| - 1]), steps[|steps| - 1]))
  }

  ghost predicate HasEntry(entries: seq<Entry>, id: nat) {
    exists e :: e in entries && e.contract.id == id
  }

  ghost predicate SlotsUsed(w: World) {
    && NoDuplicates(w.entries)
    && forall e :: e in w.entries ==> e.slot < w.slots
  }

  ghost predicate Coherent(w: World) {
    && (forall id :: id in w.chain ==> w.chain[id].id == id && id !in w.ended)
    && (forall id :: id in w.indexed ==>
         w.indexed[id].id == id && (id in w.ended || (id in w.chain && w.chain[id] == w.indexed[id])))
    && (forall id :: id in w.saved ==>
         w.saved[id].id == id && (id in w.ended || (id in w.chain && SameData(w.chain[id], w.saved[id]))))
    && (forall e :: e in w.entries ==>
         e.contract.id in w.saved && (e.contract.id in w.ended || SameData(w.saved[e.contract.id], e.contract)))
  }

  /** The answers are what the indexer showed; what it showed once it shows in later answers and now, until the
      contract ends. */
  ghost predicate AnswersKept(w: World) {
    && (forall k :: 0 <= k < |w.asked| ==> Answers(w.asked[k].shown, w.asked[k].asker, w.asked[k].snapshot))
    && (forall k :: 0 <= k < |w.asked| ==> ShownKept(w, w.asked[k].shown, w.indexed))
    && (forall j, k :: 0 <= j < k < |w.asked| ==> ShownKept(w, w.asked[j].shown, w.asked[k].shown))
  }

  ghost predicate ShownKept(w: World, before: map<nat, Contract>, after: map<nat, Contract>) {
    forall id :: id in before && id !in w.ended ==> id in after && after[id] == before[id]
  }

  ghost predicate ShownTo(w: World, id: nat) {
    exists j :: j in w.taken && j < |w.asked| && id in w.asked[j].shown
  }

  /** A saved creation is still in the overlay, or an answer that was processed showed it, or it ended. */
  ghost predicate Covered(w: World) {
    forall id :: id in w.saved && id !in w.ended ==> ShownTo(w, id) || HasEntry(w.entries, id)
  }

  ghost predicate Inv(w: World) {
    && SlotsUsed(w) && Coherent(w) && AnswersKept(w) && Covered(w)
    && (forall k :: k in w.taken ==> k < |w.asked|)
    && w.removed == set id | id in w.deleted
  }

  lemma {:induction false} RecordedExactly(saved: map<nat, Contract>, created: seq<Contract>)
    ensures forall id :: id in Recorded(saved, created) <==> id in saved || id in Ids(created)
    ensures forall id :: id in Recorded(saved, created) ==>
              (id in saved && Recorded(saved, created)[id] == saved[id]) ||
              (Recorded(saved, created)[id] in created && Recorded(saved, created)[id].id == id)
  {
    if created != [] {
      var front, last := created[..|created| - 1], created[|created| - 1];
      RecordedExactly(saved, front);
      assert created == front + [last];
      assert Ids(created) == Ids(front) + [last.id];
    }
  }

  lemma SavedEntries(w: World, created: seq<Contract>, now: int)
    requires SlotsUsed(w)
    ensures NoDuplicates(w.entries + NewEntries(created, w.slots, now))
    ensures forall e :: e in w.entries + NewEntries(created, w.slots, now) ==> e.slot < w.slots + |created|
    ensures forall c :: c in created ==> HasEntry(w.entries + NewEntries(created, w.slots, now), c.id)
    ensures forall e :: e in NewEntries(created, w.slots, now) ==>
              exists c :: c in created && e.contract == c.(updatedAt := now)
  {
    var es := NewEntries(created, w.slots, now);
    forall c | c in created ensures HasEntry(w.entries + es, c.id) {
      assert es[IndexOf(created, c)] in w.entries + es;
    }
    forall e | e in es ensures exists c :: c in created && e.contract == c.(updatedAt := now) {
      assert created[IndexOf(es, e)] in created;
    }
  }

  lemma SaveCoherent(w: World, s: Step)
    requires Inv(w) && s.Save? && Enabled(w, s)
    ensures Coherent(Next(w, s))
  {
    var v := Next(w, s);
    SavedEntries(w, s.created, s.now);
    RecordedExactly(w.saved, s.created);
    forall e | e in v.entries
      ensures e.contract.id in v.saved && (e.contract.id in v.ended || SameData(v.saved[e.contract.id], e.contract))
    {
      if e !in w.entries {
        var c :| c in s.created && e.contract == c.(updatedAt := s.now);
        IdsMember(s.created, c);
      }
    }
  }

  lemma SaveCovered(w: World, s: Step)
    requires Inv(w) && s.Save? && Enabled(w, s)
    ensures Covered(Next(w, s))
  {
    var v := Next(w, s);
    SavedEntries(w, s.created, s.now);
    RecordedExactly(w.saved, s.created);
    forall id | id in v.saved && id !in v.ended
      ensures ShownTo(v, id) || HasEntry(v.entries, id)
    {
      if id !in w.saved {
        assert v.saved[id] in s.created;
      } else if HasEntry(w.entries, id) {
        var e :| e in w.entries && e.contract.id == id;
        assert e in v.entries;
      } else {
        var j :| j in w.taken && j < |w.asked| && id in w.asked[j].shown;
        assert j in v.taken;
      }
    }
  }

  lemma SaveKeeps(w: World, s: Step)
    requires Inv(w) && s.Save? && Enabled(w, s)
    ensures Inv(Next(w, s))
  {
    hide Coherent, Covered, Answers, Recorded;
    SavedEntries(w, s.created, s.now);
    SaveCoherent(w, s);
    SaveCovered(w, s);
  }

  lemma ShownIds(indexed: map<nat, Contract>, a: Asker, snapshot: seq<Contract>)
    requires Answers(indexed, a, snapshot)
    ensures forall id :: id in Ids(snapshot) ==> id in indexed
    ensures forall id :: id in indexed && indexed[id].id == id && Queried(a, indexed[id]) ==> id in Ids(snapshot)
  {
    forall id | id in Ids(snapshot) ensures id in indexed {
      assert snapshot[IndexOf(Ids(snapshot), id)] in snapshot;
    }
    forall id | id in indexed && indexed[id].id == id && Queried(a, indexed[id]) ensures id in Ids(snapshot) {
      IdsMember(snapshot, indexed[id]);
    }
  }

  lemma TakeCovered(w: World, s: Step)
    requires Inv(w) && s.Take? && Enabled(w, s)
    ensures Covered(Next(w, s))
  {
    var v, q, seen := Next(w, s), w.asked[s.k], SeenBy(w, s.k, s.now);
    EvictMembers(w.entries, seen);
    ShownIds(q.shown, q.asker, q.snapshot);
    forall id | id in v.saved && id !in v.ended
      ensures ShownTo(v, id) || HasEntry(v.entries, id)
    {
      if HasEntry(w.entries, id) {
        var e :| e in w.entries && e.contract.id == id;
        if e in seen {
          SeenIsCovered(q.snapshot, w.entries, q.asker, s.now, e);
          assert s.k in v.taken;
        } else {
          assert e in v.entries;
        }
      } else {
        var j :| j in w.taken && j < |w.asked| && id in w.asked[j].shown;
        assert j in v.taken;
      }
    }
  }

  lemma TakeKeeps(w: World, s: Step)
    requires Inv(w) && s.Take? && Enabled(w, s)
    ensures Inv(Next(w, s))
  {
    var v := Next(w, s);
    EvictMembers(w.entries, SeenBy(w, s.k, s.now));
    TakeCovered(w, s);
    forall k | 0 <= k < |v.asked| ensures ShownKept(v, v.asked[k].shown, v.indexed) {
      assert ShownKept(w, w.asked[k].shown, w.indexed);
    }
    forall j, k | 0 <= j < k < |v.asked| ensures ShownKept(v, v.asked[j].shown, v.asked[k].shown) {
      assert ShownKept(w, w.asked[j].shown, w.asked[k].shown);
    }
  }

  lemma AskKeeps(w: World, s: Step)
    requires Inv(w) && s.Ask? && Enabled(w, s)
    ensures Inv(Next(w, s))
  {
    var v, last := Next(w, s), |w.asked|;
    forall k | 0 <= k <= last ensures ShownKept(v, v.asked[k].shown, v.indexed) {
      assert k < last ==> ShownKept(w, w.asked[k].shown, w.indexed);
    }
    forall j, k | 0 <= j < k <= last ensures ShownKept(v, v.asked[j].shown, v.asked[k].shown) {
      assert if k < last then ShownKept(w, w.asked[j].shown, w.asked[k].shown)
             else ShownKept(w, w.asked[j].shown, w.indexed);
    }
    forall id | id in v.saved && id !in v.ended ensures ShownTo(v, id) || HasEntry(v.entries, id) {
      if ShownTo(w, id) {
        var j :| j in w.taken && j < last && id in w.asked[j].shown;
        assert v.asked[j] == w.asked[j];
      }
    }
  }

  lemma ChainCoherent(w: World, s: Step)
    requires Coherent(w) && Enabled(w, s) && (s.Create? || s.End? || s.Show? || s.Hide?)
    ensures Coherent(Next(w, s))
  {
  }

  lemma ChainAnswers(w: World, s: Step)
    requires Coherent(w) && AnswersKept(w) && Enabled(w, s) && (s.Create? || s.End? || s.Show? || s.Hide?)
    ensures AnswersKept(Next(w, s))
  {
    hide Answers;
    var v := Next(w, s);
    assert v.ended >= w.ended && v.asked == w.asked;
    forall k | 0 <= k < |v.asked| ensures ShownKept(v, v.asked[k].shown, v.indexed) {
      assert ShownKept(w, w.asked[k].shown, w.indexed);
    }
    forall j, k | 0 <= j < k < |v.asked| ensures ShownKept(v, v.asked[j].shown, v.asked[k].shown) {
      assert ShownKept(w, w.asked[j].shown, w.asked[k].shown);
    }
  }

  /** The chain and the indexer: contracts come and end, and what is shown changes only for those that end. */
  lemma ChainKeeps(w: World, s: Step)
    requires Inv(w) && Enabled(w, s) && (s.Create? || s.End? || s.Show? || s.Hide?)
    ensures Inv(Next(w, s))
  {
    hide Coherent, AnswersKept;
    var v := Next(w, s);
    ChainCoherent(w, s);
    ChainAnswers(w, s);
    assert v.ended >= w.ended && v.asked == w.asked && v.taken == w.taken;
    forall id | id in v.saved && id !in v.ended ensures ShownTo(v, id) || HasEntry(v.entries, id) {
      assert ShownTo(w, id) || HasEntry(w.entries, id);
    }
  }

  lemma {:induction false} RunKeepsInv(steps: seq<Step>)
    requires IsRun(steps)
    ensures Inv(After(steps))
  {
    if steps != [] {
      var front, s := steps[..|steps| - 1], steps[|steps| - 1];
      RunKeepsInv(front);
      if s.Save? { SaveKeeps(After(front), s); }
      else if s.Ask? { AskKeeps(After(front), s); }
      else if s.Take? { TakeKeeps(After(front), s); }
      else { ChainKeeps(After(front), s); }
    }
  }

  /** A later answer was processed first and showed the contract, which this one did not. */
  ghost predicate Overtaken(w: World, k: nat, id: nat)
    requires k < |w.asked|
  {
    id !in w.asked[k].shown && exists j :: j in w.taken && k < j < |w.asked| && id in w.asked[j].shown
  }

  /** The creation was saved here with this kind and project, and lives undeleted. */
  ghost predicate Holds(w: World, c: Contract) {
    c.id in w.saved && SameData(w.saved[c.id], c) && c.id !in w.removed && c.id !in w.ended
  }

  /** A saved creation that both filters let through is listed exactly when the answer shows it or the overlay holds an
      entry for it. */
  lemma SavedListed(w: World, k: nat, now: int, c: Contract)
    requires Inv(w) && k < |w.asked| && Holds(w, c) && Matches(w.asked[k].asker, c) && Queried(w.asked[k].asker, c)
    ensures c.id in ListedBy(w, k, now) <==> c.id in w.asked[k].shown || HasEntry(w.entries, c.id)
    ensures c.id in ListedBy(w, k, now) || Overtaken(w, k, c.id)
  {
    var q := w.asked[k];
    ListingExactly(q.snapshot, w.entries, w.deleted, q.asker, now);
    ShownIds(q.shown, q.asker, q.snapshot);
    if c.id in q.shown {
      ShownCopy(w, k, c);
    }
    if e :| e in w.entries && e.contract.id == c.id {
      assert SameData(w.saved[c.id], e.contract) && Matches(q.asker, e.contract);
    }
    if c.id !in q.shown && !HasEntry(w.entries, c.id) {
      var j :| j in w.taken && j < |w.asked| && c.id in w.asked[j].shown;
      assert j < k ==> ShownKept(w, w.asked[j].shown, q.shown);
    }
  }

  lemma ShownCopy(w: World, k: nat, c: Contract)
    requires Inv(w) && k < |w.asked| && Holds(w, c) && c.id in w.asked[k].shown
    ensures w.asked[k].shown[c.id].id == c.id && SameData(w.asked[k].shown[c.id], c)
  {
    assert ShownKept(w, w.asked[k].shown, w.indexed);
  }

  lemma NothingStrange(w: World, k: nat, now: int)
    requires Inv(w) && k < |w.asked|
    ensures NoDuplicates(ListedBy(w, k, now))
    ensures forall id :: id in w.removed ==> id !in ListedBy(w, k, now)
    ensures forall id :: id in ListedBy(w, k, now) ==> id in w.asked[k].shown || id in w.saved
  {
    var q := w.asked[k];
    ListingExactly(q.snapshot, w.entries, w.deleted, q.asker, now);
    ShownIds(q.shown, q.asker, q.snapshot);
  }

  /** After any run, processing an answer repeats no id, shows no saved deletion, shows nothing that is neither saved
      here nor shown by the indexer when it answered, and shows every saved creation that both filters let through,
      until the contract is deleted here or ends on the chain, unless a later answer that showed it was processed
      first. */
  lemma ReadYourWrites(steps: seq<Step>, k: nat, now: int)
    requires IsRun(steps) && k < |After(steps).asked|
    ensures var w := After(steps);
      var listed := ListedBy(w, k, now);
      && NoDuplicates(listed)
      && (forall id :: id in w.removed ==> id !in listed)
      && (forall id :: id in listed ==> id in w.asked[k].shown || id in w.saved)
      && (forall c :: Holds(w, c) && Matches(w.asked[k].asker, c) && Queried(w.asked[k].asker, c) ==>
            c.id in listed || Overtaken(w, k, c.id))
  {
    hide Holds, Matches, Queried, Overtaken, Inv;
    var w := After(steps);
    var q := w.asked[k];
    RunKeepsInv(steps);
    NothingStrange(w, k, now);
    forall c | Holds(w, c) && Matches(q.asker, c) && Queried(q.asker, c)
      ensures c.id in ListedBy(w, k, now) || Overtaken(w, k, c.id)
    {
      SavedListed(w, k, now, c);
    }
  }

  // ---- Exactly which modules can rely on it ----

  ghost predicate Pending(w: World, k: nat, a: Asker) {
    k < |w.asked| && k !in w.taken && w.asked[k].asker == a
  }

  /** No later answer has been processed. */
  ghost predicate InTurn(w: World, k: nat) {
    forall j :: j in w.taken ==> j < k
  }

  /** However the run goes, the module sees this creation once it is saved, while it lives undeleted, in every answer
      that is processed in turn. */
  ghost predicate AlwaysListed(a: Asker, c: Contract) {
    forall steps: seq<Step>, k: nat, now: int ::
      IsRun(steps) && Pending(After(steps), k, a) && InTurn(After(steps), k) && Holds(After(steps), c) ==>
      c.id in ListedBy(After(steps), k, now)
  }

  lemma Unlisted(steps: seq<Step>, k: nat, a: Asker, c: Contract, now: int)
    requires IsRun(steps) && Pending(After(steps), k, a) && InTurn(After(steps), k) && Holds(After(steps), c)
    requires c.id !in ListedBy(After(steps), k, now)
    ensures !AlwaysListed(a, c)
  {
  }

  lemma RunSnoc(steps: seq<Step>, s: Step)
    requires IsRun(steps) && Enabled(After(steps), s)
    ensures IsRun(steps + [s]) && After(steps + [s]) == Next(After(steps), s)
  {
    assert (steps + [s])[..|steps|] == steps;
  }

  lemma Owner(c: Contract)
    ensures Matches(Asker(c.kind, c.project), c) && Queried(Asker(c.kind, c.project), c)
  {
    assert HasPrefix(c.project[0..], c.project);
  }

  /** The contract is created and saved. */
  function SavedRun(c: Contract): seq<Step> { [Create(c)] + [Save([c], [], 0)] }

  function Stamped(c: Contract): Entry { Entry(0, c.(updatedAt := 0)) }

  /** The world in which the contract was saved, with what the indexer shows and the overlay holds. */
  function SavedWorld(c: Contract, indexed: map<nat, Contract>, entries: seq<Entry>, asked: seq<Asked>,
      taken: set<nat>): World {
    World(map[c.id := c], {}, indexed, entries, [], 1, asked, taken, map[c.id := c], {})
  }

  lemma JustSaved(c: Contract)
    ensures IsRun(SavedRun(c)) && After(SavedRun(c)) == SavedWorld(c, map[], [Stamped(c)], [], {})
  {
    var none: seq<nat> := [];
    RunSnoc([], Create(c));
    assert [] + [Create(c)] == [Create(c)];
    assert Recorded(map[], [c]) == map[c.id := c] by { assert [c][..0] == []; }
    assert NewEntries([c], 0, 0) == [Stamped(c)];
    assert (set id | id in none) == {};
    RunSnoc([Create(c)], Save([c], [], 0));
  }

  lemma Unmatched(a: Asker, c: Contract)
    requires !Matches(a, c)
    ensures !AlwaysListed(a, c)
  {
    JustSaved(c);
    var run := SavedRun(c) + [Ask(a, [])];
    RunSnoc(SavedRun(c), Ask(a, []));
    var w := After(run);
    assert w == SavedWorld(c, map[], [Stamped(c)], [Asked(a, [], map[])], {});
    ListingExactly([], w.entries, w.deleted, a, 0);
    Unlisted(run, 0, a, c, 0);
  }

  /** A module of the contract's own project asks once the indexer shows the contract, and a minute after the save it
      processes the answer. */
  function OwnFetch(c: Contract, k: nat): seq<Step> {
    [Show(c.id)] + [Ask(Asker(c.kind, c.project), [c])] + [Take(k, ONE_MINUTE)]
  }

  /** Its own entry is forgotten. */
  lemma OwnEvicted(c: Contract)
    ensures Evict([Stamped(c)], Patch([c], [Stamped(c)], Asker(c.kind, c.project), ONE_MINUTE).seen) == []
  {
    var a, e := Asker(c.kind, c.project), Stamped(c);
    Owner(c);
    assert [e][..0] == [] && Ids([c])[0] == c.id;
    assert Patch([c], [], a, ONE_MINUTE) == Patched([c], []);
    assert Patch([c], [e], a, ONE_MINUTE) == Patched([c], [] + [e]);
    assert Evict([e], []) == [e] && [e][1..] == [];
  }

  lemma Fetched(c: Contract, steps: seq<Step>, asked: seq<Asked>)
    requires IsRun(steps) && After(steps) == SavedWorld(c, map[], [Stamped(c)], asked, {})
    ensures var run, own := steps + OwnFetch(c, |asked|), Asked(Asker(c.kind, c.project), [c], map[c.id := c]);
      IsRun(run) && After(run) == SavedWorld(c, map[c.id := c], [], asked + [own], {|asked|})
  {
    hide IsRun, After, Patch, Evict;
    var a := Asker(c.kind, c.project);
    var shown, told := steps + [Show(c.id)], steps + [Show(c.id)] + [Ask(a, [c])];
    Owner(c);
    OwnEvicted(c);
    RunSnoc(steps, Show(c.id));
    assert Answers(map[c.id := c], a, [c]);
    RunSnoc(shown, Ask(a, [c]));
    RunSnoc(told, Take(|asked|, ONE_MINUTE));
    assert steps + OwnFetch(c, |asked|) == told + [Take(|asked|, ONE_MINUTE)];
  }

  /** The overlay forgets a contract that lives and was saved. */
  lemma Forgotten(c: Contract)
    ensures var run := SavedRun(c) + OwnFetch(c, 0);
      IsRun(run) && Holds(After(run), c) && After(run).entries == [] && After(run).indexed == map[c.id := c]
  {
    JustSaved(c);
    Fetched(c, SavedRun(c), []);
  }

  lemma Unqueried(a: Asker, c: Contract)
    requires !Queried(a, c)
    ensures !AlwaysListed(a, c)
  {
    JustSaved(c);
    Fetched(c, SavedRun(c), []);
    var before := SavedRun(c) + OwnFetch(c, 0);
    RunSnoc(before, Ask(a, []));
    var w := After(before + [Ask(a, [])]);
    ListingExactly([], w.entries, w.deleted, a, 0);
    Unlisted(before + [Ask(a, [])], 1, a, c, 0);
  }

  /** A module sees a contract for as long as it lives, in answers processed in turn, exactly when both tests let it
      through: the local one, which asks whether the module's project name occurs in the contract's, and the indexer's,
      which asks whether it starts it. */
  lemma ReliesExactly(a: Asker, c: Contract)
    ensures AlwaysListed(a, c) <==> Matches(a, c) && Queried(a, c)
  {
    if !Matches(a, c) {
      Unmatched(a, c);
    } else if !Queried(a, c) {
      Unqueried(a, c);
    } else {
      forall steps: seq<Step>, k: nat, now: int |
        IsRun(steps) && Pending(After(steps), k, a) && InTurn(After(steps), k) && Holds(After(steps), c)
        ensures c.id in ListedBy(After(steps), k, now)
      {
        ReadYourWrites(steps, k, now);
      }
    }
  }

  /** Out of turn nothing can be relied on: whatever the module and the contract, there is a run in which an answer of
      the module, given before the indexer showed the contract and processed after a later one, misses it. */
  lemma OutOfTurnMisses(a: Asker, c: Contract, now: int) returns (run: seq<Step>)
    ensures IsRun(run) && Pending(After(run), 0, a) && Holds(After(run), c)
    ensures c.id !in ListedBy(After(run), 0, now)
  {
    JustSaved(c);
    var early := SavedRun(c) + [Ask(a, [])];
    RunSnoc(SavedRun(c), Ask(a, []));
    assert After(early) == SavedWorld(c, map[], [Stamped(c)], [Asked(a, [], map[])], {});
    Fetched(c, early, [Asked(a, [], map[])]);
    run := early + OwnFetch(c, 1);
    ListingExactly([], [], [], a, now);
  }

  // ---- The code ----

  /** A created contract as the chain returns it: only node contracts are kept. */
  datatype Created = NodeContract(contract: Contract) | OtherContract

  function NodeContracts(created: seq<Created>): seq<Contract> {
    if created == [] then []
    else
      NodeContracts(created[..|created| - 1]) +
      (if created[|created| - 1].NodeContract? then [created[|created| - 1].contract] else [])
  }

  /** The static fields every module shares. */
  class Cache {
    var newContracts: seq<Entry>
    var deletedContracts: seq<nat>
    var slots: nat

    constructor ()
      ensures newContracts == [] && deletedContracts == [] && slots == 0
    {
      newContracts, deletedContracts, slots := [], [], 0;
    }

    method Save(created: seq<Created>, deleted: seq<nat>, now: int)
      modifies this
      ensures newContracts == old(newContracts) + NewEntries(NodeContracts(created), old(slots), now)
      ensures slots == old(slots) + |NodeContracts(created)|
      ensures deletedContracts == old(deletedContracts) + deleted
    {
      for i := 0 to |created|
        invariant newContracts == old(newContracts) + NewEntries(NodeContracts(created[..i]), old(slots), now)
        invariant slots == old(slots) + |NodeContracts(created[..i])|
        invariant deletedContracts == old(deletedContracts)
      {
        assert created[..i + 1][..i] == created[..i];
        if created[i].OtherContract? {
          continue;
        }
        newContracts := newContracts + [Entry(slots, created[i].contract.(updatedAt := now))];
        slots := slots + 1;
      }
      assert created[..|created|] == created;
      for i := 0 to |deleted|
        invariant deletedContracts == old(deletedContracts) + deleted[..i]
        invariant newContracts == old(newContracts) + NewEntries(NodeContracts(created), old(slots), now)
        invariant slots == old(slots) + |NodeContracts(created)|
      {
        deletedContracts := deletedContracts + [deleted[i]];
      }
    }
  }

  method IndexById(cs: seq<Contract>, id: nat) returns (at: Option<nat>)
    ensures at.None? <==> id !in Ids(cs)
    ensures at.Some? ==> at.value < |cs| && cs[at.value].id == id && id !in Ids(cs[..at.value])
  {
    for i := 0 to |cs|
      invariant id !in Ids(cs[..i])
    {
      if cs[i].id == id {
        return Some(i);
      }
      assert Ids(cs[..i + 1]) == Ids(cs[..i]) + [cs[i].id];
    }
    assert cs[..|cs|] == cs;
    at := None;
  }

  lemma TailAt(cs: seq<Contract>, i: nat, id: nat)
    requires 0 < i < |cs| && id !in Ids(cs[..i])
    ensures cs[0].id != id && id !in Ids(cs[1..][..i - 1])
  {
    forall k | 0 <= k < i ensures cs[k].id != id {
      assert Ids(cs[..i])[k] == cs[k].id;
    }
  }

  lemma {:induction false} ReplacedAt(cs: seq<Contract>, i: nat, c: Contract)
    requires i < |cs| && cs[i].id == c.id && c.id !in Ids(cs[..i])
    ensures cs[i := c] == ReplaceFirst(cs, c)
  {
    if i > 0 {
      TailAt(cs, i, c.id);
      ReplacedAt(cs[1..], i - 1, c);
      assert cs[i := c] == [cs[0]] + cs[1..][i - 1 := c];
    }
  }

  /** The loop over `newContracts`. */
  method PatchList(snapshot: seq<Contract>, entries: seq<Entry>, a: Asker, now: int)
    returns (contracts: seq<Contract>, seen: seq<Entry>)
    ensures Patched(contracts, seen) == Patch(snapshot, entries, a, now)
  {
    contracts, seen := snapshot, [];
    for i := 0 to |entries|
      invariant Patched(contracts, seen) == Patch(snapshot, entries[..i], a, now)
    {
      assert entries[..i + 1][..i] == entries[..i];
      var e := entries[i];
      if !Matches(a, e.contract) {
        continue;
      }
      var at := IndexById(contracts, e.contract.id);
      if at.Some? {
        if IsFresh(e.contract, now) {
          ReplacedAt(contracts, at.value, e.contract);
          contracts := contracts[at.value := e.contract];
          continue;
        }
        seen := seen + [e];
        continue;
      }
      contracts := contracts + [e.contract];
    }
    assert entries[..|entries|] == entries;
  }

  lemma {:induction false} SplicedAt(entries: seq<Entry>, i: nat)
    requires i < |entries| && entries[i] !in entries[..i]
    ensures entries[..i] + entries[i + 1..] == RemoveFirst(entries, entries[i])
  {
    if i > 0 {
      assert entries[0] in entries[..i];
      assert entries[1..][..i - 1] == entries[..i][1..];
      SplicedAt(entries[1..], i - 1);
    }
  }

  lemma {:induction false} AbsentStays(entries: seq<Entry>, e: Entry)
    requires e !in entries
    ensures RemoveFirst(entries, e) == entries
  {
    if entries != [] {
      AbsentStays(entries[1..], e);
    }
  }

  /** `indexOf` and `splice` for one entry. */
  method Splice(entries: seq<Entry>, e: Entry) returns (rest: seq<Entry>)
    ensures rest == RemoveFirst(entries, e)
  {
    for i := 0 to |entries|
      invariant e !in entries[..i]
    {
      if entries[i] == e {
        SplicedAt(entries, i);
        return entries[..i] + entries[i + 1..];
      }
    }
    AbsentStays(entries, e);
    rest := entries;
  }

  method DropDeleted(cs: seq<Contract>, deleted: seq<nat>) returns (kept: seq<Contract>)
    ensures kept == Filter(cs, Undeleted(deleted))
  {
    kept := [];
    for i := 0 to |cs|
      invariant kept == Filter(cs[..i], Undeleted(deleted))
    {
      PrefixSnoc(cs, i);
      FilterSnoc(cs[..i], cs[i], Undeleted(deleted));
      if cs[i].id !in deleted {
        kept := kept + [cs[i]];
      }
    }
    WholePrefix(cs);
  }

  /** A module: what it asks for, and the list it fetched last. */
  class BaseModule {
    const asker: Asker
    const cache: Cache
    var contracts: Option<seq<Contract>>

    constructor (asker: Asker, cache: Cache)
      ensures this.asker == asker && this.cache == cache && contracts == None
    {
      this.asker, this.cache, contracts := asker, cache, None;
    }

    /** What follows the await: the indexer's answer is laid under the overlay as it is by then. */
    method TakeAnswer(snapshot: seq<Contract>, now: int) returns (list: seq<Contract>)
      modifies this, cache`newContracts
      ensures contracts == Some(list)
      ensures list == Listing(snapshot, old(cache.newContracts), cache.deletedContracts, asker, now)
      ensures cache.newContracts ==
                Evict(old(cache.newContracts), Patch(snapshot, old(cache.newContracts), asker, now).seen)
    {
      var patched, seen := PatchList(snapshot, cache.newContracts, asker, now);
      for i := 0 to |seen|
        invariant cache.newContracts == Evict(old(cache.newContracts), seen[..i])
      {
        assert seen[..i + 1][..i] == seen[..i];
        cache.newContracts := Splice(cache.newContracts, seen[i]);
      }
      assert seen[..|seen|] == seen;
      list := DropDeleted(patched, cache.deletedContracts);
      contracts := Some(list);
    }

    /** A call during whose await nothing else happens; `snapshot` is asked for only when a fetch is needed. */
    method GetMyContracts(fetch: bool, snapshot: seq<Contract>, now: int) returns (list: seq<Contract>)
      modifies this, cache`newContracts
      ensures contracts == Some(list)
      ensures !fetch && old(contracts).Some? ==>
                list == old(contracts).value && cache.newContracts == old(cache.newContracts)
      ensures fetch || old(contracts).None? ==>
                && list == Listing(snapshot, old(cache.newContracts), cache.deletedContracts, asker, now)
                && cache.newContracts ==
                     Evict(old(cache.newContracts), Patch(snapshot, old(cache.newContracts), asker, now).seen)
    {
      if !fetch && contracts.Some? {
        return contracts.value;
      }
      list := TakeAnswer(snapshot, now);
    }
  }
}
