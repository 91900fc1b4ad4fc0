/** `TFGridGqlClient.merge`: several queries go out as one, their variables told apart by the query's name. */
module QueryMerge {
  import opened Models
  import opened Sequences
  import Printer = SelectionPrinter

  /** A variable's value; `None` is `undefined`. */
  type Value = Option<string>

  /** One query of the merge, by kind. */
  datatype Query =
    | ListOf(name: string, entity: string, limit: Value, offset: Value, orderBy: Value, where: Value,
        fields: seq<Printer.Field>)
    | ById(name: string, id: Value, fields: seq<Printer.Field>)
    | Connection(name: string, entity: string, after: Value, first: Value, orderBy: Value, where: Value,
        fields: seq<Printer.Field>)

  datatype Parameter = Parameter(variable: string, kind: string)

  /** `argument: $variable` in the text of a query. */
  datatype Use = Use(argument: string, variable: string)

  datatype Selection = Selection(name: string, uses: seq<Use>, fields: string)

  datatype RequestOptions = RequestOptions(
    parameters: seq<Parameter>, query: seq<Selection>, variables: map<string, Value>)

  // ---- One query ----

  /** An argument, with the type its variable is declared with and its value. */
  datatype Argument = Argument(name: string, kind: string, value: Value)

  function Arguments(q: Query): seq<Argument> {
    match q
    case ListOf(_, entity, limit, offset, orderBy, where, _) =>
      [Argument("limit", "Int", limit), Argument("offset", "Int", offset),
       Argument("orderBy", "[" + entity + "OrderByInput!]", orderBy), Argument("where", entity + "WhereInput", where)]
    case ById(_, id, _) => [Argument("id", "ID!", id)]
    case Connection(_, entity, after, first, orderBy, where, _) =>
      [Argument("after", "String", after), Argument("first", "Int", first),
       Argument("orderBy", "[" + entity + "OrderByInput!]!", orderBy), Argument("where", entity + "WhereInput", where)]
  }

  /** `assertHasField` and `assertID` do not throw. */
  predicate Accepted(q: Query) {
    Printer.HasField(q.fields) && (q.ById? ==> q.id.Some? && q.id.value != "")
  }

  function Variable(argument: string, q: Query): string { argument + q.name }

  function Bindings(args: seq<Argument>, q: Query): map<string, Value> {
    if args == [] then map[]
    else Bindings(args[..|args| - 1], q)[Variable(args[|args| - 1].name, q) := args[|args| - 1].value]
  }

  function OptionsOf(q: Query): RequestOptions {
    var args := Arguments(q);
    RequestOptions(
      seq(|args|, i requires 0 <= i < |args| => Parameter(Variable(args[i].name, q), args[i].kind)),
      [Selection(
        q.name,
        seq(|args|, i requires 0 <= i < |args| => Use(args[i].name, Variable(args[i].name, q))),
        Printer.Print(q.fields))],
      Bindings(args, q))
  }

  function Joined(o: RequestOptions, p: RequestOptions): RequestOptions {
    RequestOptions(o.parameters + p.parameters, o.query + p.query, o.variables + p.variables)
  }

  /** The reduction over the options of the queries. */
  function Merged(options: seq<RequestOptions>): RequestOptions {
    if options == [] then RequestOptions([], [], map[])
    else Joined(Merged(options[..|options| - 1]), options[|options| - 1])
  }

  function AllOptions(qs: seq<Query>): seq<RequestOptions> {
    seq(|qs|, i requires 0 <= i < |qs| => OptionsOf(qs[i]))
  }

  /** Fails with the first query that is not accepted, before anything is sent. */
  method Merge(queries: seq<Query>) returns (r: Option<RequestOptions>)
    ensures r.Some? <==> forall i :: 0 <= i < |queries| ==> Accepted(queries[i])
    ensures r.Some? ==> r.value == Merged(AllOptions(queries))
  {
    var options: seq<RequestOptions> := [];
    for i := 0 to |queries|
      invariant forall k :: 0 <= k < i ==> Accepted(queries[k])
      invariant |options| == i && forall k :: 0 <= k < i ==> options[k] == OptionsOf(queries[k])
    {
      if !Accepted(queries[i]) {
        return None;
      }
      options := options + [OptionsOf(queries[i])];
    }
    assert options == AllOptions(queries);
    var o := Reduce(options);
    r := Some(o);
  }

  method Reduce(options: seq<RequestOptions>) returns (o: RequestOptions)
    ensures o == Merged(options)
  {
    o := RequestOptions([], [], map[]);
    for i := 0 to |options|
      invariant o == Merged(options[..i])
    {
      assert options[..i + 1][..i] == options[..i];
      o := Joined(o, options[i]);
    }
    assert options[..|options|] == options;
  }

  // ---- Variable names ----

  const PREFIXES: seq<string> := ["limit", "offset", "orderBy", "where", "id", "after", "first"]

  predicate IsPrefix(p: string) { p in PREFIXES }

  /** No argument name is the beginning of another, so a variable tells its argument and its query. */
  lemma PrefixFree(p: string, q: string, x: string, y: string)
    requires IsPrefix(p) && IsPrefix(q) && p + x == q + y
    ensures p == q && x == y
  {
    var s := p + x;
    assert forall i :: 0 <= i < |p| ==> s[i] == p[i];
    assert forall i :: 0 <= i < |q| ==> s[i] == q[i];
    assert p[0] == q[0] && p[1] == q[1];
    assert x == s[|p|..] && y == s[|q|..];
  }

  lemma ArgumentsNamed(q: Query)
    ensures forall i :: 0 <= i < |Arguments(q)| ==> IsPrefix(Arguments(q)[i].name)
    ensures forall i, j :: 0 <= i < j < |Arguments(q)| ==> Arguments(q)[i].name != Arguments(q)[j].name
  {
  }

  ghost predicate DistinctNames(qs: seq<Query>) {
    forall i, j :: 0 <= i < j < |qs| ==> qs[i].name != qs[j].name
  }

  /** `variable` is one of the query's: an argument name followed by the query's name. */
  ghost predicate Owns(q: Query, variable: string) {
    exists p :: IsPrefix(p) && variable == p + q.name
  }

  lemma OneOwner(q: Query, r: Query, variable: string)
    requires Owns(q, variable) && Owns(r, variable)
    ensures q.name == r.name
  {
    var p :| IsPrefix(p) && variable == p + q.name;
    var p1 :| IsPrefix(p1) && variable == p1 + r.name;
    PrefixFree(p, p1, q.name, r.name);
  }

  ghost predicate WellNamed(args: seq<Argument>) {
    && (forall i :: 0 <= i < |args| ==> IsPrefix(args[i].name))
    && (forall i, j :: 0 <= i < j < |args| ==> args[i].name != args[j].name)
  }

  ghost predicate Among(args: seq<Argument>, q: Query, variable: string) {
    exists i :: 0 <= i < |args| && variable == Variable(args[i].name, q)
  }

  lemma {:induction false} BindingsKeys(args: seq<Argument>, q: Query, variable: string)
    ensures variable in Bindings(args, q) <==> Among(args, q, variable)
  {
    if args != [] {
      var n := |args| - 1;
      BindingsKeys(args[..n], q, variable);
      if Among(args[..n], q, variable) {
        var i :| 0 <= i < n && variable == Variable(args[..n][i].name, q);
        assert args[i] == args[..n][i];
      }
      if i :| 0 <= i < |args| && variable == Variable(args[i].name, q) {
        assert i < n ==> args[..n][i] == args[i];
      }
    }
  }

  /** A variable is bound to the value of its own argument. */
  lemma {:induction false} BindingsValue(args: seq<Argument>, q: Query, i: nat)
    requires WellNamed(args) && i < |args|
    ensures Variable(args[i].name, q) in Bindings(args, q)
    ensures Bindings(args, q)[Variable(args[i].name, q)] == args[i].value
  {
    var n := |args| - 1;
    if i < n {
      BindingsValue(args[..n], q, i);
      if Variable(args[i].name, q) == Variable(args[n].name, q) {
        PrefixFree(args[i].name, args[n].name, q.name, q.name);
        assert false;
      }
    }
  }

  ghost predicate Declares(ps: seq<Parameter>, variable: string) {
    exists i :: 0 <= i < |ps| && ps[i].variable == variable
  }

  ghost predicate DeclaresOnce(ps: seq<Parameter>) {
    forall i, j :: 0 <= i < j < |ps| ==> ps[i].variable != ps[j].variable
  }

  /** The parameters and uses of a query follow its arguments. */
  ghost predicate Follows(o: RequestOptions, args: seq<Argument>, q: Query) {
    && |o.parameters| == |args| && |o.query| == 1 && |o.query[0].uses| == |args|
    && forall i :: 0 <= i < |args| ==>
         o.parameters[i].variable == Variable(args[i].name, q) &&
             o.query[0].uses[i] == Use(args[i].name, Variable(args[i].name, q))
  }

  ghost predicate BindsDeclared(o: RequestOptions) {
    forall v :: v in o.variables <==> Declares(o.parameters, v)
  }

  ghost predicate UsesBound(o: RequestOptions) {
    forall s, u :: s in o.query && u in s.uses ==> u.variable in o.variables
  }

  ghost predicate Consistent(o: RequestOptions) {
    DeclaresOnce(o.parameters) && BindsDeclared(o) && UsesBound(o)
  }

  ghost predicate AllOwned(o: RequestOptions, q: Query) {
    forall v :: v in o.variables ==> Owns(q, v)
  }

  lemma FollowingDeclaresOnce(o: RequestOptions, args: seq<Argument>, q: Query)
    requires Follows(o, args, q) && WellNamed(args)
    ensures DeclaresOnce(o.parameters)
  {
    forall i, j | 0 <= i < j < |args| ensures o.parameters[i].variable != o.parameters[j].variable {
      if o.parameters[i].variable == o.parameters[j].variable {
        PrefixFree(args[i].name, args[j].name, q.name, q.name);
        assert false;
      }
    }
  }

  lemma FollowingBinds(o: RequestOptions, args: seq<Argument>, q: Query)
    requires Follows(o, args, q) && o.variables == Bindings(args, q)
    ensures BindsDeclared(o)
  {
    forall v ensures v in o.variables <==> Declares(o.parameters, v) {
      BindingsKeys(args, q, v);
      if i :| 0 <= i < |args| && v == Variable(args[i].name, q) {
        assert o.parameters[i].variable == v;
      }
      if i :| 0 <= i < |o.parameters| && o.parameters[i].variable == v {
        assert v == Variable(args[i].name, q);
      }
    }
  }

  lemma FollowingUses(o: RequestOptions, args: seq<Argument>, q: Query)
    requires Follows(o, args, q) && WellNamed(args) && o.variables == Bindings(args, q)
    ensures UsesBound(o)
  {
    forall s, u | s in o.query && u in s.uses ensures u.variable in o.variables {
      var i :| 0 <= i < |args| && s.uses[i] == u;
      BindingsValue(args, q, i);
    }
  }

  lemma FollowingOwned(o: RequestOptions, args: seq<Argument>, q: Query)
    requires WellNamed(args) && o.variables == Bindings(args, q)
    ensures AllOwned(o, q)
  {
    forall v | v in o.variables ensures Owns(q, v) {
      BindingsKeys(args, q, v);
      var i :| 0 <= i < |args| && v == Variable(args[i].name, q);
      assert IsPrefix(args[i].name) && v == args[i].name + q.name;
    }
  }

  /** A single query declares exactly the variables it binds and uses, each once, and each is its own. */
  lemma OneQuery(q: Query)
    ensures Consistent(OptionsOf(q)) && AllOwned(OptionsOf(q), q)
  {
    ArgumentsNamed(q);
    FollowingDeclaresOnce(OptionsOf(q), Arguments(q), q);
    FollowingBinds(OptionsOf(q), Arguments(q), q);
    FollowingUses(OptionsOf(q), Arguments(q), q);
    FollowingOwned(OptionsOf(q), Arguments(q), q);
  }

  // ---- The merge ----

  ghost predicate Apart(os: seq<RequestOptions>) {
    forall i, j, v :: 0 <= i < j < |os| && v in os[i].variables ==> v !in os[j].variables
  }

  lemma {:induction false} MergedKeeps(os: seq<RequestOptions>, i: nat, variable: string)
    requires Apart(os) && i < |os| && variable in os[i].variables
    ensures variable in Merged(os).variables && Merged(os).variables[variable] == os[i].variables[variable]
  {
    var n := |os| - 1;
    if i < n {
      MergedKeeps(os[..n], i, variable);
    }
  }

  /** Every variable of the merge belongs to one of the queries. */
  lemma {:induction false} MergedOwned(os: seq<RequestOptions>, variable: string) returns (i: nat)
    requires variable in Merged(os).variables
    ensures i < |os| && variable in os[i].variables
  {
    var n := |os| - 1;
    if variable in os[n].variables {
      i := n;
    } else {
      i := MergedOwned(os[..n], variable);
    }
  }

  lemma QueriesApart(qs: seq<Query>)
    requires DistinctNames(qs)
    ensures Apart(AllOptions(qs))
  {
    var os := AllOptions(qs);
    forall i, j, v | 0 <= i < j < |os| && v in os[i].variables ensures v !in os[j].variables {
      OneQuery(qs[i]);
      OneQuery(qs[j]);
      if v in os[j].variables {
        OneOwner(qs[i], qs[j], v);
        assert false;
      }
    }
  }

  /** Merging keeps every query's bindings: the variables of the merge that are a query's are the ones it has
      by itself, with the same values. */
  lemma MergePreservesBindings(qs: seq<Query>, i: nat)
    requires DistinctNames(qs) && i < |qs|
    ensures var merged := Merged(AllOptions(qs)).variables;
      (map v | v in merged && Owns(qs[i], v) :: merged[v]) == OptionsOf(qs[i]).variables
  {
    var os := AllOptions(qs);
    QueriesApart(qs);
    OneQuery(qs[i]);
    assert AllOwned(os[i], qs[i]);
    forall v | v in os[i].variables {
      MergedKeeps(os, i, v);
    }
    forall v | v in Merged(os).variables && Owns(qs[i], v) ensures v in os[i].variables {
      var k := MergedOwned(os, v);
      OneQuery(qs[k]);
      OneOwner(qs[i], qs[k], v);
      assert k == i;
    }
  }

  /** Each variable is declared once, what is declared is bound and the other way round, and what a query uses
      is declared; sections 5.8.1 and 5.8.3 of the October 2021 GraphQL specification. */
  lemma MergeIsConsistent(qs: seq<Query>)
    requires DistinctNames(qs)
    ensures Consistent(Merged(AllOptions(qs)))
  {
    QueriesApart(qs);
    forall i | 0 <= i < |qs| ensures Consistent(AllOptions(qs)[i]) {
      OneQuery(qs[i]);
    }
    MergedConsistent(AllOptions(qs));
  }

  lemma {:induction false} MergedConsistent(os: seq<RequestOptions>)
    requires Apart(os) && forall i :: 0 <= i < |os| ==> Consistent(os[i])
    ensures Consistent(Merged(os))
  {
    if os != [] {
      var n := |os| - 1;
      var front := Merged(os[..n]);
      MergedConsistent(os[..n]);
      forall v | v in front.variables ensures v !in os[n].variables {
        var k := MergedOwned(os[..n], v);
        assert v in os[k].variables;
      }
      JoinConsistent(front, os[n]);
    }
  }

  lemma JoinConsistent(o: RequestOptions, p: RequestOptions)
    requires Consistent(o) && Consistent(p) && forall v :: v in o.variables ==> v !in p.variables
    ensures Consistent(Joined(o, p))
  {
    var ps := o.parameters + p.parameters;
    forall i, j | 0 <= i < |o.parameters| && 0 <= j < |p.parameters|
      ensures o.parameters[i].variable != p.parameters[j].variable
    {
      assert Declares(o.parameters, o.parameters[i].variable) && Declares(p.parameters, p.parameters[j].variable);
    }
    forall v ensures Declares(ps, v) <==> Declares(o.parameters, v) || Declares(p.parameters, v) {
      DeclaresAppend(o.parameters, p.parameters, v);
    }
  }

  lemma DeclaresAppend(a: seq<Parameter>, b: seq<Parameter>, v: string)
    ensures Declares(a + b, v) <==> Declares(a, v) || Declares(b, v)
  {
    if i :| 0 <= i < |a| && a[i].variable == v {
      assert (a + b)[i].variable == v;
    }
    if i :| 0 <= i < |b| && b[i].variable == v {
      assert (a + b)[|a| + i].variable == v;
    }
    if i :| 0 <= i < |a + b| && (a + b)[i].variable == v {
      assert if i < |a| then a[i].variable == v else b[i - |a|].variable == v;
    }
  }
}
