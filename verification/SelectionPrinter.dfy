/** `AbstractClient.normalizeFields`: a tree of selected fields is printed as a GraphQL selection. */
module SelectionPrinter {
  import opened Models

  /** An entry of the `fields` object: selected outright, selected in part, or given a value that is neither
      `true` nor an object. */
  datatype Field = Leaf(key: string) | Node(key: string, fields: seq<Field>) | Junk(key: string)

  // ---- The code ----

  /** `assertHasField` does not throw. */
  predicate HasField(fields: seq<Field>) {
    fields != [] && forall i :: 0 <= i < |fields| ==> Selects(fields[i])
  }

  predicate Selects(f: Field) {
    match f
    case Leaf(_) => true
    case Node(_, sub) => HasField(sub)
    case Junk(_) => false
  }

  function PrintOne(f: Field): string {
    match f
    case Leaf(key) => key
    case Node(key, sub) => key + "{" + Print(sub) + "}"
    case Junk(key) => key + "{}"
  }

  /** The entries joined by commas. */
  function Print(fields: seq<Field>): string {
    if fields == [] then ""
    else if |fields| == 1 then PrintOne(fields[0])
    else PrintOne(fields[0]) + "," + Print(fields[1..])
  }

  // ---- GraphQL names ----

  /** Section 2.1.9 of the October 2021 GraphQL specification. */
  predicate IsNameStart(c: char) { 'a' <= c <= 'z' || 'A' <= c <= 'Z' || c == '_' }

  predicate IsNameContinue(c: char) { IsNameStart(c) || '0' <= c <= '9' }

  predicate IsName(s: string) {
    s != "" && IsNameStart(s[0]) && forall i :: 0 <= i < |s| ==> IsNameContinue(s[i])
  }

  predicate Named(fields: seq<Field>) {
    forall i :: 0 <= i < |fields| ==> IsName(fields[i].key) && (fields[i].Node? ==> Named(fields[i].fields))
  }

  // ---- A parser for selections ----

  function NameLength(s: string): (n: nat)
    ensures n <= |s| && (forall i :: 0 <= i < n ==> IsNameContinue(s[i])) && (n < |s| ==> !IsNameContinue(s[n]))
  {
    if s == "" || !IsNameContinue(s[0]) then 0 else 1 + NameLength(s[1..])
  }

  datatype Parsed<T> = Fails | Parsed(value: T, rest: string)

  function ParseOne(s: string): (p: Parsed<Field>)
    ensures p.Parsed? ==> |p.rest| < |s|
    decreases |s|, 0
  {
    var n := NameLength(s);
    if n == 0 then Fails
    else if n < |s| && s[n] == '{' then
      match Parse(s[n + 1..])
      case Parsed(sub, rest) => if rest != "" && rest[0] == '}' then Parsed(Node(s[..n], sub), rest[1..]) else Fails
      case Fails => Fails
    else Parsed(Leaf(s[..n]), s[n..])
  }

  function Parse(s: string): (p: Parsed<seq<Field>>)
    ensures p.Parsed? ==> |p.rest| < |s|
    decreases |s|, 1
  {
    match ParseOne(s)
    case Fails => Fails
    case Parsed(f, rest) =>
      if rest != "" && rest[0] == ',' then
        match Parse(rest[1..])
        case Parsed(fs, end) => Parsed([f] + fs, end)
        case Fails => Fails
      else Parsed([f], rest)
  }

  // ---- Round trip ----

  /** What can follow a printed selection. */
  predicate Ends(tail: string) { tail == "" || tail[0] == '}' }

  lemma NameLengthIs(s: string, k: nat)
    requires k <= |s| && (forall i :: 0 <= i < k ==> IsNameContinue(s[i])) && (k < |s| ==> !IsNameContinue(s[k]))
    ensures NameLength(s) == k
  {
  }

  lemma NameThen(name: string, tail: string)
    requires IsName(name) && (tail == "" || !IsNameContinue(tail[0]))
    ensures NameLength(name + tail) == |name| && (name + tail)[..|name|] == name && (name + tail)[|name|..] == tail
  {
    var s := name + tail;
    assert forall i :: 0 <= i < |name| ==> s[i] == name[i];
    assert tail != "" ==> s[|name|] == tail[0];
    NameLengthIs(s, |name|);
  }

  lemma PrintNodeThen(f: Field, tail: string)
    requires f.Node?
    ensures PrintOne(f) + tail == f.key + ("{" + (Print(f.fields) + ("}" + tail)))
  {
  }

  lemma PrintMoreThen(fields: seq<Field>, tail: string)
    requires |fields| > 1
    ensures Print(fields) + tail == PrintOne(fields[0]) + ("," + (Print(fields[1..]) + tail))
  {
  }

  lemma ParseNode(name: string, text: string, sub: seq<Field>, tail: string)
    requires IsName(name) && Parse(text) == Parsed(sub, "}" + tail)
    ensures ParseOne(name + ("{" + text)) == Parsed(Node(name, sub), tail)
  {
    var after := "{" + text;
    NameThen(name, after);
    assert (name + after)[|name| + 1..] == text;
    assert ("}" + tail)[1..] == tail;
  }

  lemma ParseMore(s: string, f: Field, more: string, fs: seq<Field>, tail: string)
    requires ParseOne(s) == Parsed(f, "," + more) && Parse(more) == Parsed(fs, tail)
    ensures Parse(s) == Parsed([f] + fs, tail)
  {
    assert ("," + more)[1..] == more;
  }

  lemma {:induction false} ParsesOne(f: Field, tail: string)
    requires Selects(f) && IsName(f.key) && (f.Node? ==> Named(f.fields))
    requires Ends(tail) || tail[0] == ','
    ensures ParseOne(PrintOne(f) + tail) == Parsed(f, tail)
    decreases f
  {
    if f.Leaf? {
      NameThen(f.key, tail);
    } else {
      var text := Print(f.fields) + ("}" + tail);
      Parses(f.fields, "}" + tail);
      ParseNode(f.key, text, f.fields, tail);
      PrintNodeThen(f, tail);
    }
  }

  lemma {:induction false} Parses(fields: seq<Field>, tail: string)
    requires HasField(fields) && Named(fields) && Ends(tail)
    ensures Parse(Print(fields) + tail) == Parsed(fields, tail)
    decreases fields
  {
    var f := fields[0];
    if |fields| == 1 {
      ParsesOne(f, tail);
      assert fields == [f];
    } else {
      var fs := fields[1..];
      var more := Print(fs) + tail;
      assert fields == [f] + fs;
      Parses(fs, tail);
      ParsesOne(f, "," + more);
      ParseMore(PrintOne(f) + ("," + more), f, more, fs, tail);
      PrintMoreThen(fields, tail);
    }
  }

  /** Parsing what was printed gives the tree back. */
  lemma RoundTrip(fields: seq<Field>)
    requires HasField(fields) && Named(fields)
    ensures Parse(Print(fields)) == Parsed(fields, "")
  {
    Parses(fields, "");
    assert Print(fields) + "" == Print(fields);
  }

  /** So two accepted trees print alike only if they are the same, order included. */
  lemma PrintIsInjective(a: seq<Field>, b: seq<Field>)
    requires HasField(a) && Named(a) && HasField(b) && Named(b)
    requires Print(a) == Print(b)
    ensures a == b
  {
    RoundTrip(a);
    RoundTrip(b);
  }

  /** The tree is accepted exactly when no selection in it is empty and no value is junk: then, and only then,
      what it prints is a selection (keys being names). */
  lemma AcceptedExactly(fields: seq<Field>)
    requires Named(fields)
    ensures HasField(fields) <==> Parse(Print(fields)) == Parsed(fields, "")
  {
    if HasField(fields) {
      RoundTrip(fields);
    } else if Parse(Print(fields)) == Parsed(fields, "") {
      ParsedHasField(Print(fields));
    }
  }

  lemma {:induction false} ParsedHasField(s: string)
    requires Parse(s).Parsed?
    ensures HasField(Parse(s).value)
    decreases |s|, 1
  {
    ParsedSelects(s);
    var one := ParseOne(s);
    if one.rest != "" && one.rest[0] == ',' {
      ParsedHasField(one.rest[1..]);
    }
  }

  lemma {:induction false} ParsedSelects(s: string)
    requires ParseOne(s).Parsed?
    ensures Selects(ParseOne(s).value)
    decreases |s|, 0
  {
    var n := NameLength(s);
    if n < |s| && s[n] == '{' {
      ParsedHasField(s[n + 1..]);
    }
  }

  /** A key that is not a name can print like two fields. */
  lemma OtherKeysCollide(a: string, b: string)
    ensures Print([Leaf(a + "," + b)]) == Print([Leaf(a), Leaf(b)])
  {
    var two := [Leaf(a), Leaf(b)];
    assert two[1..] == [Leaf(b)] && Print(two) == PrintOne(two[0]) + "," + Print(two[1..]);
  }
}
