/** `HighLevelBase._filterWorkloads`: which workloads of a deployment stay when some names are deleted.
    Deleting a machine also deletes its disks, its public IP and its log streams: their names are pushed
    onto the caller's list while the machines are being scanned. */
module DeleteFilter {
  import opened Models
  import opened Sequences

  predicate IsMachine(w: Workload) { w.kind == ZMachine || w.kind == ZMachineLight }

  predicate LogsOf(w: Workload, machine: Workload) {
    && w.kind == Zlogs
    && (if machine.kind == ZMachine then w.logsOf else w.lightLogsOf) == Some(machine.name)
  }

  // ---- Specification ----

  function LogNames(ws: seq<Workload>, machine: Workload): seq<string> {
    if ws == [] then []
    else LogNames(ws[..|ws| - 1], machine) + (if LogsOf(ws[|ws| - 1], machine) then [ws[|ws| - 1].name] else [])
  }

  /** The names a machine takes with it, in the order they are pushed. */
  function Owned(ws: seq<Workload>, machine: Workload): seq<string> {
    machine.mounts + LogNames(ws, machine) + (if machine.kind == ZMachine then [machine.publicIp] else [])
  }

  function HasKind(kind: Kind): Workload -> bool {
    (w: Workload) => w.kind == kind
  }

  function OfKind(ws: seq<Workload>, kind: Kind): seq<Workload> { Filter(ws, HasKind(kind)) }

  datatype Scanned = Scanned(names: seq<string>, deleted: seq<Workload>)

  /** Scanning a list of machines: the list of names grows as machines are found in it. */
  function Scan(ws: seq<Workload>, machines: seq<Workload>, names: seq<string>): Scanned {
    if machines == [] then Scanned(names, [])
    else
      var s, m := Scan(ws, machines[..|machines| - 1], names), machines[|machines| - 1];
      if m.name !in s.names then s else Scanned(s.names + Owned(ws, m), s.deleted + [m])
  }

  function ScanKind(ws: seq<Workload>, types: set<Kind>, kind: Kind, s: Scanned): Scanned {
    if kind !in types then s
    else
      var t := Scan(ws, OfKind(ws, kind), s.names);
      Scanned(t.names, s.deleted + t.deleted)
  }

  /** The final list of names and the machines reported as deleted. */
  function Closure(ws: seq<Workload>, names: seq<string>, types: set<Kind>): Scanned {
    if names == [] then Scanned([], Filter(ws, IsMachine))
    else ScanKind(ws, types, ZMachineLight, ScanKind(ws, types, ZMachine, Scanned(names, [])))
  }

  predicate Stays(w: Workload, names: seq<string>, types: set<Kind>) {
    IsNetwork(w) || w.kind !in types || (names != [] && w.name !in names)
  }

  function Keeps(names: seq<string>, types: set<Kind>): Workload -> bool {
    (w: Workload) => Stays(w, names, types)
  }

  function Remaining(ws: seq<Workload>, names: seq<string>, types: set<Kind>): seq<Workload> {
    Filter(ws, Keeps(names, types))
  }

  // ---- The closure, for every input ----

  ghost predicate OwnedBySome(ws: seq<Workload>, machines: seq<Workload>, n: string) {
    exists m :: m in machines && n in Owned(ws, m)
  }

  /** The names at the end are the requested ones and everything the reported machines own. */
  lemma {:induction false} ScanNames(ws: seq<Workload>, machines: seq<Workload>, names: seq<string>)
    ensures forall n :: n in Scan(ws, machines, names).names <==>
              n in names || OwnedBySome(ws, Scan(ws, machines, names).deleted, n)
    ensures forall m :: m in Scan(ws, machines, names).deleted ==>
              m in machines && m.name in Scan(ws, machines, names).names
  {
    if machines != [] {
      var front, last := machines[..|machines| - 1], machines[|machines| - 1];
      ScanNames(ws, front, names);
      assert machines == front + [last];
      var s := Scan(ws, front, names);
      if last.name in s.names {
        forall n
          ensures OwnedBySome(ws, s.deleted + [last], n) <==> OwnedBySome(ws, s.deleted, n) || n in Owned(ws, last)
        {
          if m :| m in s.deleted && n in Owned(ws, m) { assert m in s.deleted + [last]; }
          if n in Owned(ws, last) { assert last in s.deleted + [last]; }
        }
      }
    }
  }

  lemma OwnedBySomeAppend(ws: seq<Workload>, a: seq<Workload>, b: seq<Workload>, n: string)
    ensures OwnedBySome(ws, a + b, n) <==> OwnedBySome(ws, a, n) || OwnedBySome(ws, b, n)
  {
    if m :| m in a && n in Owned(ws, m) { assert m in a + b; }
    if m :| m in b && n in Owned(ws, m) { assert m in a + b; }
  }

  lemma ClosureNames(ws: seq<Workload>, names: seq<string>, types: set<Kind>)
    requires names != []
    ensures forall n :: n in Closure(ws, names, types).names <==>
              n in names || OwnedBySome(ws, Closure(ws, names, types).deleted, n)
    ensures forall m :: m in Closure(ws, names, types).deleted ==>
              m in ws && IsMachine(m) && m.kind in types && m.name in Closure(ws, names, types).names
    ensures Closure(ws, names, types).names != []
  {
    var s1 := ScanKind(ws, types, ZMachine, Scanned(names, []));
    var s2 := Closure(ws, names, types);
    FilteredMembers(ws, HasKind(ZMachine));
    FilteredMembers(ws, HasKind(ZMachineLight));
    ScanNames(ws, OfKind(ws, ZMachine), names);
    ScanNames(ws, OfKind(ws, ZMachineLight), s1.names);
    var d1 := s1.deleted;
    var d2 := if ZMachineLight in types then Scan(ws, OfKind(ws, ZMachineLight), s1.names).deleted else [];
    assert s2.deleted == d1 + d2;
    forall n
      ensures n in s2.names <==> n in names || OwnedBySome(ws, s2.deleted, n)
    {
      OwnedBySomeAppend(ws, d1, d2, n);
      assert n in s1.names <==> n in names || OwnedBySome(ws, d1, n);
    }
    assert names[0] in s2.names;
  }

  // ---- Referential integrity ----

  /** Nothing a machine owns has the name of a machine. */
  ghost predicate NoNameClash(ws: seq<Workload>) {
    forall m, w, n :: m in ws && IsMachine(m) && n in Owned(ws, m) && w in ws && IsMachine(w) ==> w.name != n
  }

  ghost predicate AreMachines(ws: seq<Workload>, names: seq<string>) {
    forall n :: n in names ==> exists m :: m in ws && IsMachine(m) && m.name == n
  }

  function HasName(names: seq<string>): Workload -> bool {
    (w: Workload) => w.name in names
  }

  /** The machines of a list with a requested name, in order. */
  function Requested(machines: seq<Workload>, names: seq<string>): seq<Workload> { Filter(machines, HasName(names)) }

  /** The names pushed while scanning never make another machine disappear. */
  lemma {:induction false} ScanExact(ws: seq<Workload>, machines: seq<Workload>, names: seq<string>)
    requires NoNameClash(ws) && forall m :: m in machines ==> m in ws && IsMachine(m)
    ensures Scan(ws, machines, names).deleted == Requested(machines, names)
    ensures forall w :: w in ws && IsMachine(w) ==> (w.name in Scan(ws, machines, names).names <==> w.name in names)
  {
    if machines != [] {
      var front, last := machines[..|machines| - 1], machines[|machines| - 1];
      assert machines == front + [last];
      ScanExact(ws, front, names);
      assert last in ws;
      FilterLast(machines, HasName(names));
    }
  }

  lemma KindExact(ws: seq<Workload>, kind: Kind, names: seq<string>)
    requires NoNameClash(ws) && (kind == ZMachine || kind == ZMachineLight)
    ensures Scan(ws, OfKind(ws, kind), names).deleted == Requested(OfKind(ws, kind), names)
    ensures forall w :: w in ws && IsMachine(w) ==>
              (w.name in Scan(ws, OfKind(ws, kind), names).names <==> w.name in names)
    ensures forall m :: m in Requested(OfKind(ws, kind), names) <==> m in ws && m.kind == kind && m.name in names
  {
    FilteredMembers(ws, HasKind(kind));
    ScanExact(ws, OfKind(ws, kind), names);
    FilteredMembers(OfKind(ws, kind), HasName(names));
  }

  lemma LightExact(ws: seq<Workload>, names: seq<string>, grown: seq<string>)
    requires NoNameClash(ws) && forall w :: w in ws && IsMachine(w) ==> (w.name in grown <==> w.name in names)
    ensures Scan(ws, OfKind(ws, ZMachineLight), grown).deleted == Requested(OfKind(ws, ZMachineLight), names)
  {
    KindExact(ws, ZMachineLight, grown);
    FilteredMembers(ws, HasKind(ZMachineLight));
    FilterSame(OfKind(ws, ZMachineLight), HasName(grown), HasName(names));
  }

  lemma ClosureSteps(ws: seq<Workload>, names: seq<string>, types: set<Kind>, full: Scanned, light: Scanned)
    requires names != [] && ZMachine in types && ZMachineLight in types
    requires full == Scan(ws, OfKind(ws, ZMachine), names) && light == Scan(ws, OfKind(ws, ZMachineLight), full.names)
    ensures Closure(ws, names, types) == Scanned(light.names, full.deleted + light.deleted)
  {
    assert ScanKind(ws, types, ZMachine, Scanned(names, [])) == Scanned(full.names, full.deleted);
  }

  /** The reported machines are the requested ones: full machines first, then light ones. */
  lemma ReportedExactly(ws: seq<Workload>, names: seq<string>, types: set<Kind>)
    requires names != [] && NoNameClash(ws) && ZMachine in types && ZMachineLight in types
    ensures Closure(ws, names, types).deleted ==
              Requested(OfKind(ws, ZMachine), names) + Requested(OfKind(ws, ZMachineLight), names)
    ensures forall m :: m in Closure(ws, names, types).deleted <==> m in ws && IsMachine(m) && m.name in names
  {
    var full := Scan(ws, OfKind(ws, ZMachine), names);
    ClosureSteps(ws, names, types, full, Scan(ws, OfKind(ws, ZMachineLight), full.names));
    KindExact(ws, ZMachine, names);
    LightExact(ws, names, full.names);
    KindExact(ws, ZMachineLight, names);
  }

  /** What a delete of machines removes: the machines asked for and what they own, nothing else. */
  lemma RemovedExactly(ws: seq<Workload>, names: seq<string>, types: set<Kind>)
    requires names != [] && UniqueNames(ws) && NoNameClash(ws) && AreMachines(ws, names)
    requires ZMachine in types && ZMachineLight in types
    ensures var c := Closure(ws, names, types);
      forall w :: w in ws ==> (w !in Remaining(ws, c.names, types) <==>
        !IsNetwork(w) && w.kind in types && (w in c.deleted || OwnedBySome(ws, c.deleted, w.name)))
    ensures var c := Closure(ws, names, types);
      forall m :: m in c.deleted <==> m in ws && IsMachine(m) && m !in Remaining(ws, c.names, types)
  {
    var c := Closure(ws, names, types);
    ReportedExactly(ws, names, types);
    ClosureNames(ws, names, types);
    FilteredMembers(ws, Keeps(c.names, types));
    forall w | w in ws && w.name in names
      ensures w in c.deleted
    {
      var m :| m in ws && IsMachine(m) && m.name == w.name;
      assert ws[IndexOf(ws, m)].name == ws[IndexOf(ws, w)].name;
    }
    forall m | m in ws && IsMachine(m)
      ensures !OwnedBySome(ws, c.deleted, m.name)
    {
      MachineNotOwned(ws, c.deleted, m);
    }
  }

  lemma MachineNotOwned(ws: seq<Workload>, owners: seq<Workload>, m: Workload)
    requires NoNameClash(ws) && m in ws && IsMachine(m)
    requires forall d :: d in owners ==> d in ws && IsMachine(d)
    ensures !OwnedBySome(ws, owners, m.name)
  {
  }

  ghost predicate OwnedTwice(ws: seq<Workload>, names: seq<string>, types: set<Kind>, w: Workload) {
    && !IsNetwork(w) && w.kind in types
    && exists m, d :: m in ws && IsMachine(m) && m.name !in names && d in ws && IsMachine(d) && d.name in names
         && w.name in Owned(ws, m) && w.name in Owned(ws, d)
  }

  ghost predicate KeepsOwned(ws: seq<Workload>, kept: seq<Workload>) {
    forall m, w :: m in kept && IsMachine(m) && w in ws && w.name in Owned(ws, m) ==> w in kept
  }

  lemma LostIsShared(ws: seq<Workload>, names: seq<string>, types: set<Kind>, m: Workload, w: Workload)
    requires names != [] && UniqueNames(ws) && NoNameClash(ws) && AreMachines(ws, names)
    requires ZMachine in types && ZMachineLight in types
    requires m in Remaining(ws, Closure(ws, names, types).names, types) && IsMachine(m)
    requires w in ws && w.name in Owned(ws, m) && w !in Remaining(ws, Closure(ws, names, types).names, types)
    ensures OwnedTwice(ws, names, types, w)
  {
    var c := Closure(ws, names, types);
    ReportedExactly(ws, names, types);
    RemovedExactly(ws, names, types);
    FilteredMembers(ws, Keeps(c.names, types));
    assert w !in c.deleted;
    var d :| d in c.deleted && w.name in Owned(ws, d);
    assert m !in c.deleted;
  }

  lemma SharedIsLost(ws: seq<Workload>, names: seq<string>, types: set<Kind>, w: Workload)
    requires names != [] && UniqueNames(ws) && NoNameClash(ws) && AreMachines(ws, names)
    requires ZMachine in types && ZMachineLight in types
    requires w in ws && OwnedTwice(ws, names, types, w)
    ensures !KeepsOwned(ws, Remaining(ws, Closure(ws, names, types).names, types))
  {
    var c := Closure(ws, names, types);
    ReportedExactly(ws, names, types);
    RemovedExactly(ws, names, types);
    var m, d :| m in ws && IsMachine(m) && m.name !in names && d in ws && IsMachine(d) && d.name in names
         && w.name in Owned(ws, m) && w.name in Owned(ws, d);
    assert d in c.deleted && m !in c.deleted;
    assert OwnedBySome(ws, c.deleted, w.name);
  }

  /** Every machine that stays keeps its disks, its public IP and its log streams exactly when none of
      them is shared with a machine that goes. */
  lemma IntegrityExactly(ws: seq<Workload>, names: seq<string>, types: set<Kind>)
    requires names != [] && UniqueNames(ws) && NoNameClash(ws) && AreMachines(ws, names)
    requires ZMachine in types && ZMachineLight in types
    ensures KeepsOwned(ws, Remaining(ws, Closure(ws, names, types).names, types)) <==>
              forall w :: w in ws ==> !OwnedTwice(ws, names, types, w)
  {
    var kept := Remaining(ws, Closure(ws, names, types).names, types);
    forall m, w | m in kept && IsMachine(m) && w in ws && w.name in Owned(ws, m) && w !in kept
      ensures OwnedTwice(ws, names, types, w)
    {
      LostIsShared(ws, names, types, m, w);
    }
    forall w | w in ws && OwnedTwice(ws, names, types, w)
      ensures !KeepsOwned(ws, kept)
    {
      SharedIsLost(ws, names, types, w);
    }
  }

  // ---- Networks ----

  /** Network workloads are never removed or reordered. */
  lemma NetworksStay(ws: seq<Workload>, names: seq<string>, types: set<Kind>)
    ensures Filter(Remaining(ws, names, types), IsNetwork) == Filter(ws, IsNetwork)
  {
    FilterTwice(ws, Keeps(names, types), IsNetwork);
  }

  // ---- Deleting everything ----

  /** Without names, every covered workload goes. All machines are reported as deleted, and that is what
      happens to them exactly when their kinds are covered. */
  lemma DeleteAllReports(ws: seq<Workload>, types: set<Kind>)
    ensures var c := Closure(ws, [], types);
      (forall m :: m in c.deleted <==> m in ws && IsMachine(m) && m !in Remaining(ws, c.names, types)) <==>
      (forall m :: m in ws && IsMachine(m) ==> m.kind in types)
  {
    FilteredMembers(ws, IsMachine);
    FilteredMembers(ws, Keeps([], types));
    forall m | m in ws && IsMachine(m)
      ensures m in Closure(ws, [], types).deleted && (m in Remaining(ws, [], types) <==> m.kind !in types)
    {
    }
  }

  lemma {:induction false} LogNamesMembers(ws: seq<Workload>, machine: Workload, n: string)
    ensures n in LogNames(ws, machine) <==> exists w :: w in ws && LogsOf(w, machine) && w.name == n
  {
    if ws != [] {
      LogNamesMembers(ws[..|ws| - 1], machine, n);
      assert ws == ws[..|ws| - 1] + [ws[|ws| - 1]];
    }
  }

  /** A disk or the public IP of the machine has this name. */
  predicate OtherwiseOwned(machine: Workload, n: string) {
    n in machine.mounts || (machine.kind == ZMachine && machine.publicIp == n)
  }

  lemma OwnsLog(ws: seq<Workload>, d: Workload, l: Workload)
    requires UniqueNames(ws) && l in ws
    ensures l.name in Owned(ws, d) <==> LogsOf(l, d) || OtherwiseOwned(d, l.name)
  {
    LogNamesMembers(ws, d, l.name);
    if w :| w in ws && LogsOf(w, d) && w.name == l.name {
      assert ws[IndexOf(ws, w)].name == ws[IndexOf(ws, l)].name;
    }
  }

  ghost predicate GoesWith(ws: seq<Workload>, names: seq<string>, d: Workload) {
    d in ws && IsMachine(d) && d.name in names
  }

  /** A log stream goes exactly when a machine that goes is named in the field where the scan of its type looks, or owns
      something else by the stream's name. */
  lemma LogGoesExactly(ws: seq<Workload>, names: seq<string>, types: set<Kind>, l: Workload)
    requires names != [] && UniqueNames(ws) && NoNameClash(ws) && AreMachines(ws, names)
    requires ZMachine in types && ZMachineLight in types && Zlogs in types && l in ws && l.kind == Zlogs
    ensures l !in Remaining(ws, Closure(ws, names, types).names, types) <==>
              exists d :: GoesWith(ws, names, d) && (LogsOf(l, d) || OtherwiseOwned(d, l.name))
  {
    var c := Closure(ws, names, types);
    ReportedExactly(ws, names, types);
    RemovedExactly(ws, names, types);
    assert l !in c.deleted;
    if OwnedBySome(ws, c.deleted, l.name) {
      var d :| d in c.deleted && l.name in Owned(ws, d);
      OwnsLog(ws, d, l);
      assert GoesWith(ws, names, d);
    }
    if d :| GoesWith(ws, names, d) && (LogsOf(l, d) || OtherwiseOwned(d, l.name)) {
      OwnsLog(ws, d, l);
      assert d in c.deleted;
    }
  }

  /** So the log stream of a machine that goes, which names it in `zmachine` whatever its type, goes exactly when the
      machine is a full one, or some machine that goes owns something else by the stream's name. */
  lemma MachineLogGoesExactly(ws: seq<Workload>, names: seq<string>, types: set<Kind>, m: Workload, l: Workload)
    requires names != [] && UniqueNames(ws) && NoNameClash(ws) && AreMachines(ws, names)
    requires ZMachine in types && ZMachineLight in types && Zlogs in types && l in ws && l.kind == Zlogs
    requires GoesWith(ws, names, m) && l.logsOf == Some(m.name) && l.lightLogsOf == None
    ensures l !in Remaining(ws, Closure(ws, names, types).names, types) <==>
              m.kind == ZMachine || exists d :: GoesWith(ws, names, d) && OtherwiseOwned(d, l.name)
  {
    LogGoesExactly(ws, names, types, l);
    if d :| GoesWith(ws, names, d) && LogsOf(l, d) {
      assert ws[IndexOf(ws, d)].name == ws[IndexOf(ws, m)].name;
    }
  }

  lemma NoneOfKind(m: Workload, log: Workload)
    requires m.kind == ZMachineLight && log.kind == Zlogs
    ensures OfKind([m, log], ZMachine) == [] && OfKind([m, log], ZMachineLight) == [m]
  {
    assert [m, log] == [m] + [log];
    FilterNone([m, log], HasKind(ZMachine));
    FilterAll([m], HasKind(ZMachineLight));
    FilterSnoc([m], log, HasKind(ZMachineLight));
  }

  /** A log stream made for a light machine names it in `zmachine`, where the scan of light machines does
      not look: it is left behind when the machine goes. */
  lemma LightLogStays(m: Workload, log: Workload, types: set<Kind>)
    requires m.kind == ZMachineLight && m.mounts == [] && log.kind == Zlogs && log.name != m.name
    requires log.logsOf == Some(m.name) && log.lightLogsOf == None && ZMachine in types && ZMachineLight in types &&
              Zlogs in types
    ensures Remaining([m, log], Closure([m, log], [m.name], types).names, types) == [log]
  {
    var ws := [m, log];
    assert ws == [m] + [log] && [m] == [] + [m];
    NoneOfKind(m, log);
    assert LogNames(ws[..1][..0], m) == [] && LogNames(ws[..1], m) == [] && ws[..1] == [m];
    assert LogNames(ws, m) == [] && Owned(ws, m) == [];
    assert [m][..0] == [] && Scan(ws, [], [m.name]) == Scanned([m.name], []);
    assert Scan(ws, [m], [m.name]) == Scanned([m.name], [m]);
    assert Closure(ws, [m.name], types).names == [m.name];
    FilterNone([m], Keeps([m.name], types));
    FilterSnoc([m], log, Keeps([m.name], types));
  }

  // ---- The algorithm ----

  /** The caller's array of names, which grows while machines are scanned. */
  class NameList {
    var items: seq<string>

    constructor (items: seq<string>)
      ensures this.items == items
    {
      this.items := items;
    }
  }

  method PushAll(names: NameList, more: seq<string>)
    modifies names
    ensures names.items == old(names.items) + more
  {
    for i := 0 to |more|
      invariant names.items == old(names.items) + more[..i]
    {
      names.items := names.items + [more[i]];
    }
  }

  method LogsToRemove(ws: seq<Workload>, machine: Workload) returns (logs: seq<string>)
    ensures logs == LogNames(ws, machine)
  {
    logs := [];
    for i := 0 to |ws|
      invariant logs == LogNames(ws[..i], machine)
    {
      assert ws[..i + 1][..i] == ws[..i];
      if LogsOf(ws[i], machine) {
        logs := logs + [ws[i].name];
      }
    }
    assert ws[..|ws|] == ws;
  }

  /** The names a machine takes with it go onto the caller's list. */
  method PushOwned(ws: seq<Workload>, m: Workload, names: NameList)
    modifies names
    ensures names.items == old(names.items) + Owned(ws, m)
  {
    PushAll(names, m.mounts);
    var logs := LogsToRemove(ws, m);
    PushAll(names, logs);
    if m.kind == ZMachine {
      PushAll(names, [m.publicIp]);
    }
  }

  /** One turn of the outer loop: the machines of one kind. */
  method ScanMachines(ws: seq<Workload>, kind: Kind, names: NameList) returns (deleted: seq<Workload>)
    requires kind == ZMachine || kind == ZMachineLight
    modifies names
    ensures Scanned(names.items, deleted) == Scan(ws, OfKind(ws, kind), old(names.items))
  {
    deleted := [];
    var machines := OfKind(ws, kind);
    FilteredMembers(ws, HasKind(kind));
    for i := 0 to |machines|
      invariant Scanned(names.items, deleted) == Scan(ws, machines[..i], old(names.items))
    {
      var m := machines[i];
      assert machines[..i + 1][..i] == machines[..i] && m in machines;
      if m.name !in names.items {
        continue;
      }
      PushOwned(ws, m, names);
      deleted := deleted + [m];
    }
    assert machines[..|machines|] == machines;
  }

  method ScanKindInto(ws: seq<Workload>, types: set<Kind>, kind: Kind, names: NameList, deleted: seq<Workload>)
    returns (deleted': seq<Workload>)
    requires kind == ZMachine || kind == ZMachineLight
    modifies names
    ensures Scanned(names.items, deleted') == ScanKind(ws, types, kind, Scanned(old(names.items), deleted))
  {
    deleted' := deleted;
    if kind in types {
      var more := ScanMachines(ws, kind, names);
      deleted' := deleted + more;
    }
  }

  method FilterWorkloads(ws: seq<Workload>, names: NameList, types: set<Kind>)
    returns (remaining: seq<Workload>, deleted: seq<Workload>)
    modifies names
    ensures Scanned(names.items, deleted) == Closure(ws, old(names.items), types)
    ensures remaining == Remaining(ws, names.items, types)
  {
    if |names.items| == 0 {
      deleted := Filter(ws, IsMachine);
    } else {
      deleted := ScanKindInto(ws, types, ZMachine, names, []);
      deleted := ScanKindInto(ws, types, ZMachineLight, names, deleted);
    }
    remaining := KeepRemaining(ws, names.items, types);
  }

  /** The last loop. */
  method KeepRemaining(ws: seq<Workload>, names: seq<string>, types: set<Kind>) returns (remaining: seq<Workload>)
    ensures remaining == Remaining(ws, names, types)
  {
    remaining := [];
    for i := 0 to |ws|
      invariant remaining == Remaining(ws[..i], names, types)
    {
      var w := ws[i];
      PrefixSnoc(ws, i);
      FilterSnoc(ws[..i], w, Keeps(names, types));
      if IsNetwork(w) {
        remaining := remaining + [w];
        continue;
      }
      if w.kind !in types {
        remaining := remaining + [w];
        continue;
      }
      if |names| != 0 && w.name !in names {
        remaining := remaining + [w];
      }
    }
    assert ws[..|ws|] == ws;
  }
}
