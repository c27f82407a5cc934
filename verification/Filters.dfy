/**
 * Query fragments: labels, quoted property names and the generated
 * `n.key = $param` conjunction (internal/repository/neo4j/tx.go).
 */
module Filters {
  import opened Prelude
  import opened Strings
  import opened Values

  /* ----- labelsFragment ----- */

  predicate IdentifierStart(c: char) {
    'A' <= c <= 'Z' || 'a' <= c <= 'z' || c == '_'
  }

  /** The pattern ^[A-Za-z_][A-Za-z0-9_]*$. */
  predicate IsIdentifier(s: string) {
    s != [] && IdentifierStart(s[0]) &&
    forall i :: 0 <= i < |s| ==> IdentifierStart(s[i]) || '0' <= s[i] <= '9'
  }

  /** The pattern as a grammar: a letter or underscore, after which letters, underscores and digits may follow. */
  lemma IdentifierGrammar(s: string, c: char)
    ensures !IsIdentifier("")
    ensures IsIdentifier([c]) <==> 'A' <= c <= 'Z' || 'a' <= c <= 'z' || c == '_'
    ensures s != "" ==> (IsIdentifier(s + [c]) <==> IsIdentifier(s) && (IsIdentifier([c]) || '0' <= c <= '9'))
  {
    assert (s + [c])[|s|] == c;
    assert forall i :: 0 <= i < |s| ==> (s + [c])[i] == s[i];
  }

  const BASE_LABEL: string := "Entity"

  predicate ValidLabels(labels: seq<string>) {
    forall l :: l in labels ==> IsIdentifier(l)
  }

  function LabelSet(labels: seq<string>): set<string> {
    {BASE_LABEL} + set l | l in labels
  }

  /** The identifiers that labelsFragment joins with ":". */
  method LabelsFragment(labels: seq<string>) returns (r: Result<seq<string>, string>)
    ensures r.Ok? <==> ValidLabels(labels)
    ensures r.Ok? ==> (set l | l in r.value) == LabelSet(labels)
    ensures r.Ok? ==> forall i, j :: 0 <= i < j < |r.value| ==> r.value[i] != r.value[j]
    ensures r.Ok? ==> Split(Join(r.value, ":"), ':') == r.value
    ensures r.Err? ==> r.error in labels && !IsIdentifier(r.error)
  {
    var sanitized := [BASE_LABEL];
    var seen := {BASE_LABEL};
    for index := 0 to |labels|
      invariant ValidLabels(labels[..index])
      invariant sanitized != [] && ValidLabels(sanitized)
      invariant seen == (set l | l in sanitized) == LabelSet(labels[..index])
      invariant forall i, j :: 0 <= i < j < |sanitized| ==> sanitized[i] != sanitized[j]
    {
      var name := labels[index];
      if !IsIdentifier(name) {
        return Err(name);
      }
      assert labels[..index + 1] == labels[..index] + [name];
      if name !in seen {
        seen := seen + {name};
        sanitized := sanitized + [name];
      }
    }
    assert labels[..|labels|] == labels;
    SplitJoin(sanitized, ':');
    return Ok(sanitized);
  }

  /* ----- cypherProperty ----- */

  /** strings.ReplaceAll(value, "`", "``") */
  function DoubleTicks(s: string): string {
    if s == [] then []
    else if s[0] == '`' then ['`', '`'] + DoubleTicks(s[1..])
    else [s[0]] + DoubleTicks(s[1..])
  }

  function CypherProperty(s: string): string {
    ['`'] + DoubleTicks(s) + ['`']
  }

  /**
   * Reads the inside of a quoted name up to its closing tick, the first one that
   * is not doubled; the second part is what follows the quoted name.
   */
  function Unquote(s: string): (r: Option<(string, string)>)
    ensures r.Some? ==> |r.value.1| < |s|
    decreases |s|
  {
    if s == [] then None
    else if s[0] != '`' then
      match Unquote(s[1..])
      case None => None
      case Some((name, rest)) => Some(([s[0]] + name, rest))
    else if |s| > 1 && s[1] == '`' then
      match Unquote(s[2..])
      case None => None
      case Some((name, rest)) => Some((['`'] + name, rest))
    else Some(([], s[1..]))
  }

  /** Quoting is undone by un-doubling, whatever query text follows the name. */
  lemma {:induction false} QuotingRoundTrip(name: string, rest: string)
    requires rest != [] ==> rest[0] != '`'
    ensures Unquote((CypherProperty(name) + rest)[1..]) == Some((name, rest))
  {
    var body := DoubleTicks(name) + ['`'] + rest;
    assert (CypherProperty(name) + rest)[1..] == body;
    if name == [] {
      assert body == ['`'] + rest;
      assert body[1..] == rest;
    } else {
      var inner := DoubleTicks(name[1..]) + ['`'] + rest;
      QuotingRoundTrip(name[1..], rest);
      assert (CypherProperty(name[1..]) + rest)[1..] == inner;
      assert [name[0]] + name[1..] == name;
      if name[0] == '`' {
        assert body == ['`', '`'] + inner;
        assert body[2..] == inner;
      } else {
        assert body == [name[0]] + inner;
        assert body[1..] == inner;
      }
    }
  }

  /* ----- buildPropertyFilters ----- */

  function SanitizeParameterName(s: string): string {
    seq(|s|, i requires 0 <= i < |s| => if s[i] in {'.', '-', ' '} then '_' else s[i])
  }

  function ParameterName(prefix: string, key: string): string {
    SanitizeParameterName(prefix + "_" + key)
  }

  /** Each key is compared with the parameter of its own sanitized name. */
  function RenderTest(alias: string, prefix: string, key: string): string {
    alias + "." + CypherProperty(key) + " = $" + ParameterName(prefix, key)
  }

  function RenderTests(alias: string, prefix: string, keys: seq<string>): seq<string> {
    if keys == [] then []
    else RenderTests(alias, prefix, keys[..|keys| - 1]) + [RenderTest(alias, prefix, keys[|keys| - 1])]
  }

  /** Parameters are written in key order, so a later key wins a name collision. */
  function Parameters(prefix: string, keys: seq<string>, attributes: Props): Props
    requires forall k :: k in keys ==> k in attributes
  {
    if keys == [] then map[]
    else
      var last := keys[|keys| - 1];
      Parameters(prefix, keys[..|keys| - 1], attributes)[ParameterName(prefix, last) := attributes[last]]
  }

  method BuildPropertyFilters(alias: string, attributes: Props, prefix: string)
    returns (clause: string, parameters: Props)
    ensures clause == Join(RenderTests(alias, prefix, SortedKeys(attributes.Keys)), " AND ")
    ensures SortedKeysWithin(attributes)
    ensures parameters == Parameters(prefix, SortedKeys(attributes.Keys), attributes)
  {
    SortedKeysListing(attributes.Keys);
    if attributes == map[] {
      assert SortedKeys(attributes.Keys) == [];
      return "", map[];
    }
    var keys := CollectSorted(attributes.Keys);
    clause, parameters := FilterOverKeys(alias, attributes, prefix, keys);
  }

  method FilterOverKeys(alias: string, attributes: Props, prefix: string, keys: seq<string>)
    returns (clause: string, parameters: Props)
    requires forall k :: k in keys ==> k in attributes
    ensures clause == Join(RenderTests(alias, prefix, keys), " AND ")
    ensures parameters == Parameters(prefix, keys, attributes)
  {
    var parts := [];
    parameters := map[];
    for index := 0 to |keys|
      invariant parts == RenderTests(alias, prefix, keys[..index])
      invariant parameters == Parameters(prefix, keys[..index], attributes)
    {
      var key := keys[index];
      assert keys[..index + 1][..index] == keys[..index];
      parts := parts + [RenderTest(alias, prefix, key)];
      parameters := parameters[ParameterName(prefix, key) := attributes[key]];
    }
    assert keys[..|keys|] == keys;
    clause := Join(parts, " AND ");
  }

  ghost predicate SortedKeysWithin(attributes: Props) {
    forall k :: k in SortedKeys(attributes.Keys) ==> k in attributes
  }

  /* ----- what the generated filter means on a node ----- */

  /** Cypher's `=` being true: null and NaN equal nothing, numbers compare by value. */
  predicate CypherEqual(a: Value, b: Value) {
    match (a, b)
    case (Null, _) => false
    case (Integer(i), Float(d)) => d == Finite(i as real)
    case (Float(d), Integer(i)) => d == Finite(i as real)
    case (Float(d), Float(e)) => d == e && d != NaN
    case (List(xs), List(ys)) =>
      |xs| == |ys| && forall i :: 0 <= i < |xs| ==> CypherEqual(xs[i], ys[i])
    case (Dict(xs), Dict(ys)) =>
      xs.Keys == ys.Keys && forall k :: k in xs ==> CypherEqual(xs[k], ys[k])
    case _ => a == b
  }

  lemma {:induction false} CypherEqualSymmetric(a: Value, b: Value)
    requires CypherEqual(a, b)
    ensures CypherEqual(b, a)
  {
    match (a, b)
    case (List(xs), List(ys)) =>
      forall i | 0 <= i < |xs|
        ensures CypherEqual(ys[i], xs[i])
      {
        CypherEqualSymmetric(xs[i], ys[i]);
      }
    case (Dict(xs), Dict(ys)) =>
      forall k | k in xs
        ensures CypherEqual(ys[k], xs[k])
      {
        CypherEqualSymmetric(xs[k], ys[k]);
      }
    case _ =>
  }

  lemma {:induction false} CypherEqualTransitive(a: Value, b: Value, c: Value)
    requires CypherEqual(a, b) && CypherEqual(b, c)
    ensures CypherEqual(a, c)
  {
    match a
    case List(xs) =>
      forall i | 0 <= i < |xs|
        ensures CypherEqual(xs[i], c.items[i])
      {
        CypherEqualTransitive(xs[i], b.items[i], c.items[i]);
      }
    case Dict(xs) =>
      forall k | k in xs
        ensures CypherEqual(xs[k], c.entries[k])
      {
        CypherEqualTransitive(xs[k], b.entries[k], c.entries[k]);
      }
    case _ =>
  }

  /* ----- reading the rendered text back ----- */

  /** The characters that continue a Cypher parameter name; a space is never one of them. */
  type NamePart = p: char -> bool | !p(' ') witness (c: char) => false

  /** A property name and the name of the parameter it is compared with. */
  type Test = (string, string)

  function NameRun(part: NamePart, s: string): (n: nat)
    ensures n <= |s| && (forall i :: 0 <= i < n ==> part(s[i])) && (n < |s| ==> !part(s[n]))
  {
    if s != [] && part(s[0]) then 1 + NameRun(part, s[1..]) else 0
  }

  /** One test `alias.name = $parameter`, where the parameter name is as long as it can be, and what follows it. */
  function ReadTest(part: NamePart, alias: string, s: string): (r: Option<(Test, string)>)
    ensures r.Some? ==> |r.value.1| < |s|
  {
    var head := alias + ".`";
    if !(head <= s) then None
    else match Unquote(s[|head|..])
      case None => None
      case Some((key, rest)) =>
        if !(" = $" <= rest) then None
        else
          var tail := rest[4..];
          var n := NameRun(part, tail);
          if n == 0 then None else Some(((key, tail[..n]), tail[n..]))
  }

  /** A conjunction of tests; None is any other text. */
  function ReadTests(part: NamePart, alias: string, s: string): Option<seq<Test>>
    decreases |s|
  {
    match ReadTest(part, alias, s)
    case None => None
    case Some((test, rest)) =>
      if rest == [] then Some([test])
      else if " AND " <= rest then
        (match ReadTests(part, alias, rest[5..]) case None => None case Some(more) => Some([test] + more))
      else None
  }

  /** Without a clause there is no WHERE and every node passes. */
  function ReadClause(part: NamePart, alias: string, clause: string): Option<seq<Test>> {
    if clause == "" then Some([]) else ReadTests(part, alias, clause)
  }

  /** The truth of a conjunction on a node, for given parameters. */
  predicate TestsHold(props: Props, tests: seq<Test>, parameters: Props) {
    forall t :: t in tests ==> t.0 in props && t.1 in parameters && CypherEqual(props[t.0], parameters[t.1])
  }

  /** Every character of the sanitized name belongs to a parameter name. */
  predicate ReadableName(part: NamePart, prefix: string, key: string) {
    var name := ParameterName(prefix, key);
    name != [] && forall i :: 0 <= i < |name| ==> part(name[i])
  }

  predicate ReadableNames(part: NamePart, prefix: string, attributes: Props) {
    forall k :: k in attributes ==> ReadableName(part, prefix, k)
  }

  /** Letters, digits and what is sanitized: dots, dashes and spaces. */
  predicate CommonChar(c: char) {
    'A' <= c <= 'Z' || 'a' <= c <= 'z' || '0' <= c <= '9' || c in {'_', '.', '-', ' '}
  }

  /** Common attribute names are always readable, and dots, dashes and spaces all read as underscores. */
  lemma CommonNamesAreReadable(part: NamePart, prefix: string, key: string)
    requires forall c :: 'A' <= c <= 'Z' || 'a' <= c <= 'z' || '0' <= c <= '9' || c == '_' ==> part(c)
    requires forall i :: 0 <= i < |prefix| ==> CommonChar(prefix[i])
    requires forall i :: 0 <= i < |key| ==> CommonChar(key[i])
    ensures ReadableName(part, prefix, key)
    ensures |ParameterName(prefix, key)| == |prefix| + 1 + |key|
    ensures forall i :: 0 <= i < |key| ==>
      ParameterName(prefix, key)[|prefix| + 1 + i] == if key[i] in {'.', '-', ' '} then '_' else key[i]
  {
    var whole := prefix + "_" + key;
    assert forall i :: 0 <= i < |key| ==> whole[|prefix| + 1 + i] == key[i];
  }

  lemma {:induction false} NameRunOf(part: NamePart, name: string, rest: string)
    requires forall i :: 0 <= i < |name| ==> part(name[i])
    requires rest != [] ==> !part(rest[0])
    ensures NameRun(part, name + rest) == |name|
  {
    if name == [] {
      assert name + rest == rest;
    } else {
      assert (name + rest)[1..] == name[1..] + rest;
      NameRunOf(part, name[1..], rest);
    }
  }

  lemma {:induction false} NameRunStops(part: NamePart, name: string, rest: string, bad: nat)
    requires bad < |name| && !part(name[bad])
    ensures NameRun(part, name + rest) < |name| && NameRun(part, name + rest) == NameRun(part, name)
  {
    assert (name + rest)[0] == name[0];
    if part(name[0]) {
      assert (name + rest)[1..] == name[1..] + rest;
      NameRunStops(part, name[1..], rest, bad - 1);
    }
  }

  /** The part of a rendered test before its parameter name is read as it was written. */
  lemma RenderedHead(part: NamePart, alias: string, prefix: string, key: string, rest: string)
    ensures var tail := ParameterName(prefix, key) + rest;
      var n := NameRun(part, tail);
      ReadTest(part, alias, RenderTest(alias, prefix, key) + rest) ==
        if n == 0 then None else Some(((key, tail[..n]), tail[n..]))
  {
    hide Unquote, NameRun, ParameterName, DoubleTicks;
    var head, tail := alias + ".`", ParameterName(prefix, key) + rest;
    var s := RenderTest(alias, prefix, key) + rest;
    var after := " = $" + tail;
    QuotingRoundTrip(key, after);
    assert s == alias + "." + CypherProperty(key) + after;
    assert CypherProperty(key) == ['`'] + (CypherProperty(key))[1..];
    assert s == head + (CypherProperty(key) + after)[1..];
    assert s[|head|..] == (CypherProperty(key) + after)[1..];
    assert after[4..] == tail;
  }

  lemma ReadableTestIsRead(part: NamePart, alias: string, prefix: string, key: string, rest: string)
    requires ReadableName(part, prefix, key) && (rest != [] ==> rest[0] == ' ')
    ensures ReadTest(part, alias, RenderTest(alias, prefix, key) + rest) == Some(((key, ParameterName(prefix, key)), rest))
  {
    hide ReadTest, RenderTest, NameRun, ParameterName;
    var name := ParameterName(prefix, key);
    RenderedHead(part, alias, prefix, key, rest);
    NameRunOf(part, name, rest);
    assert (name + rest)[..|name|] == name && (name + rest)[|name|..] == rest;
  }

  /** A name with a foreign character is cut there, and no conjunction goes on like that. */
  lemma UnreadableTestIsNotRead(part: NamePart, alias: string, prefix: string, key: string, rest: string)
    requires !ReadableName(part, prefix, key) && (rest != [] ==> rest[0] == ' ')
    ensures ReadTests(part, alias, RenderTest(alias, prefix, key) + rest) == None
  {
    hide ReadTest, RenderTest, NameRun, ParameterName;
    var name := ParameterName(prefix, key);
    RenderedHead(part, alias, prefix, key, rest);
    NamesHaveNoSpace(prefix, key);
    if name == [] {
      NameRunOf(part, name, rest);
    } else {
      var bad :| 0 <= bad < |name| && !part(name[bad]);
      NameRunStops(part, name, rest, bad);
      var n := NameRun(part, name + rest);
      assert (name + rest)[n..][0] == name[n];
      assert name[n] != ' ' && " AND "[0] == ' ';
    }
  }

  lemma NamesHaveNoSpace(prefix: string, key: string)
    ensures forall i :: 0 <= i < |ParameterName(prefix, key)| ==> ParameterName(prefix, key)[i] != ' '
  {
  }

  function TestsFor(prefix: string, keys: seq<string>): (tests: seq<Test>)
    ensures |tests| == |keys|
  {
    seq(|keys|, i requires 0 <= i < |keys| => (keys[i], ParameterName(prefix, keys[i])))
  }

  lemma TestsForCons(prefix: string, keys: seq<string>)
    requires keys != []
    ensures TestsFor(prefix, keys) == [(keys[0], ParameterName(prefix, keys[0]))] + TestsFor(prefix, keys[1..])
    ensures keys[1..] == [] ==> TestsFor(prefix, keys) == [(keys[0], ParameterName(prefix, keys[0]))]
  {
    hide ParameterName;
  }

  lemma {:induction false} RenderTestsCons(alias: string, prefix: string, keys: seq<string>)
    requires keys != []
    ensures RenderTests(alias, prefix, keys) == [RenderTest(alias, prefix, keys[0])] + RenderTests(alias, prefix, keys[1..])
  {
    hide RenderTest;
    if |keys| > 1 {
      var init := keys[..|keys| - 1];
      RenderTestsCons(alias, prefix, init);
      assert init[1..] == keys[1..][..|keys| - 2];
    } else {
      assert keys[..0] == [] && keys[1..] == [];
    }
  }

  lemma {:induction false} RenderedClauseReads(part: NamePart, alias: string, prefix: string, keys: seq<string>)
    requires keys != []
    ensures ReadTests(part, alias, Join(RenderTests(alias, prefix, keys), " AND ")) ==
      if forall k :: k in keys ==> ReadableName(part, prefix, k) then Some(TestsFor(prefix, keys)) else None
  {
    hide ReadTest, RenderTest, RenderTests, ParameterName, ReadableName, TestsFor, Join;
    var more := keys[1..];
    var rest := if more == [] then [] else " AND " + Join(RenderTests(alias, prefix, more), " AND ");
    ClauseCons(alias, prefix, keys);
    assert keys == [keys[0]] + more;
    assert forall k :: k in keys <==> k == keys[0] || k in more;
    if ReadableName(part, prefix, keys[0]) {
      ReadableTestIsRead(part, alias, prefix, keys[0], rest);
      TestsForCons(prefix, keys);
      if more != [] {
        assert rest[5..] == Join(RenderTests(alias, prefix, more), " AND ");
        RenderedClauseReads(part, alias, prefix, more);
      }
    } else {
      UnreadableTestIsNotRead(part, alias, prefix, keys[0], rest);
      assert keys[0] in keys;
    }
  }

  lemma ClauseCons(alias: string, prefix: string, keys: seq<string>)
    requires keys != []
    ensures Join(RenderTests(alias, prefix, keys), " AND ") == RenderTest(alias, prefix, keys[0]) +
      if keys[1..] == [] then [] else " AND " + Join(RenderTests(alias, prefix, keys[1..]), " AND ")
  {
    hide RenderTest;
    var all, rest := RenderTests(alias, prefix, keys), RenderTests(alias, prefix, keys[1..]);
    RenderTestsCons(alias, prefix, keys);
    assert all[1..] == rest;
    RenderTestsCount(alias, prefix, keys[1..]);
  }

  lemma {:induction false} RenderTestsCount(alias: string, prefix: string, keys: seq<string>)
    ensures |RenderTests(alias, prefix, keys)| == |keys|
  {
    if keys != [] {
      RenderTestsCount(alias, prefix, keys[..|keys| - 1]);
    }
  }

  /** The parameters that buildPropertyFilters generates for a set of attributes. */
  ghost function FilterParameters(prefix: string, attributes: Props): Props {
    SortedKeysListing(attributes.Keys);
    Parameters(prefix, SortedKeys(attributes.Keys), attributes)
  }

  /** The clause that buildPropertyFilters generates. */
  ghost function FilterClause(alias: string, prefix: string, attributes: Props): string {
    Join(RenderTests(alias, prefix, SortedKeys(attributes.Keys)), " AND ")
  }

  /** Each attribute compared with the value of its own parameter. */
  ghost predicate FilterHolds(props: Props, prefix: string, attributes: Props) {
    var parameters := FilterParameters(prefix, attributes);
    forall k :: k in attributes ==>
      k in props && ParameterName(prefix, k) in parameters &&
      CypherEqual(props[k], parameters[ParameterName(prefix, k)])
  }

  lemma {:induction false} LastWriterWins(prefix: string, keys: seq<string>, attributes: Props, i: nat)
    requires i < |keys| && forall k :: k in keys ==> k in attributes
    requires forall j :: i < j < |keys| ==> ParameterName(prefix, keys[j]) != ParameterName(prefix, keys[i])
    ensures ParameterName(prefix, keys[i]) in Parameters(prefix, keys, attributes)
    ensures Parameters(prefix, keys, attributes)[ParameterName(prefix, keys[i])] == attributes[keys[i]]
  {
    hide ParameterName;
    if i < |keys| - 1 {
      LastWriterWins(prefix, keys[..|keys| - 1], attributes, i);
    }
  }

  /** Of the attributes that share a parameter name, the last one in string order gives its value. */
  lemma GreatestNameWins(prefix: string, attributes: Props, key: string)
    requires key in attributes
    requires forall other :: other in attributes && ParameterName(prefix, other) == ParameterName(prefix, key) ==> AtMost(other, key)
    ensures ParameterName(prefix, key) in FilterParameters(prefix, attributes)
    ensures FilterParameters(prefix, attributes)[ParameterName(prefix, key)] == attributes[key]
  {
    hide ParameterName, Parameters, SortedKeys, Less;
    var keys := SortedKeys(attributes.Keys);
    SortedKeysListing(attributes.Keys);
    var i :| 0 <= i < |keys| && keys[i] == key;
    LastWriterWins(prefix, keys, attributes, i);
  }

  lemma RenderedIsNotEmpty(alias: string, prefix: string, keys: seq<string>)
    ensures Join(RenderTests(alias, prefix, keys), " AND ") == "" <==> keys == []
  {
    if keys != [] {
      ClauseCons(alias, prefix, keys);
      assert '.' in alias + "." + CypherProperty(keys[0]);
    }
  }

  /**
   * The rendered text is a conjunction of parameter tests exactly when every sanitized
   * name is one parameter name, and then it is the conjunction that was meant.
   */
  lemma ClauseReadsExactly(part: NamePart, alias: string, prefix: string, attributes: Props)
    ensures ReadClause(part, alias, FilterClause(alias, prefix, attributes)).Some? <==> ReadableNames(part, prefix, attributes)
    ensures ReadableNames(part, prefix, attributes) ==>
      var tests := ReadClause(part, alias, FilterClause(alias, prefix, attributes)).value;
      forall props :: TestsHold(props, tests, FilterParameters(prefix, attributes)) <==> FilterHolds(props, prefix, attributes)
  {
    hide *;
    ReadClauseOfKeys(part, alias, prefix, attributes);
    SortedKeysListing(attributes.Keys);
    KeysAreReadable(part, prefix, attributes);
    forall props
      ensures TestsHold(props, TestsFor(prefix, SortedKeys(attributes.Keys)), FilterParameters(prefix, attributes))
        <==> FilterHolds(props, prefix, attributes)
    {
      KeyTestsHold(props, prefix, attributes);
    }
  }

  lemma KeysAreReadable(part: NamePart, prefix: string, attributes: Props)
    ensures ReadableNames(part, prefix, attributes) <==>
      forall k :: k in SortedKeys(attributes.Keys) ==> ReadableName(part, prefix, k)
  {
    SortedKeysListing(attributes.Keys);
  }

  lemma ReadClauseOfKeys(part: NamePart, alias: string, prefix: string, attributes: Props)
    ensures var keys := SortedKeys(attributes.Keys);
      ReadClause(part, alias, FilterClause(alias, prefix, attributes)) ==
        if forall k :: k in keys ==> ReadableName(part, prefix, k) then Some(TestsFor(prefix, keys)) else None
  {
    hide ReadTests, RenderTests, ReadableName, ParameterName;
    var keys := SortedKeys(attributes.Keys);
    RenderedIsNotEmpty(alias, prefix, keys);
    if keys == [] {
      assert TestsFor(prefix, keys) == [];
    } else {
      RenderedClauseReads(part, alias, prefix, keys);
    }
  }

  lemma TestsAreOfKeys(prefix: string, attributes: Props)
    ensures var tests := TestsFor(prefix, SortedKeys(attributes.Keys));
      && (forall k :: k in attributes ==> (k, ParameterName(prefix, k)) in tests)
      && (forall t :: t in tests ==> t.0 in attributes && t.1 == ParameterName(prefix, t.0))
  {
    hide ParameterName, SortedKeys;
    var keys := SortedKeys(attributes.Keys);
    SortedKeysListing(attributes.Keys);
    var tests := TestsFor(prefix, keys);
    forall k | k in attributes
      ensures (k, ParameterName(prefix, k)) in tests
    {
      var i :| 0 <= i < |keys| && keys[i] == k;
      assert tests[i] == (k, ParameterName(prefix, k));
    }
  }

  lemma KeyTestsHold(props: Props, prefix: string, attributes: Props)
    ensures TestsHold(props, TestsFor(prefix, SortedKeys(attributes.Keys)), FilterParameters(prefix, attributes))
      <==> FilterHolds(props, prefix, attributes)
  {
    hide ParameterName, FilterParameters, CypherEqual, TestsFor, SortedKeys;
    TestsAreOfKeys(prefix, attributes);
    var tests, parameters := TestsFor(prefix, SortedKeys(attributes.Keys)), FilterParameters(prefix, attributes);
    if TestsHold(props, tests, parameters) {
      forall k | k in attributes
        ensures k in props && ParameterName(prefix, k) in parameters
        ensures CypherEqual(props[k], parameters[ParameterName(prefix, k)])
      {
        var t := (k, ParameterName(prefix, k));
        assert t in tests && t.0 == k;
      }
    }
  }

  /** What the selector asks for. */
  predicate Selects(props: Props, attributes: Props) {
    forall k :: k in attributes ==> k in props && CypherEqual(props[k], attributes[k])
  }

  lemma {:induction false} ParametersComeFromKeys(prefix: string, keys: seq<string>, attributes: Props)
    requires forall k :: k in keys ==> k in attributes
    ensures forall k :: k in keys ==> ParameterName(prefix, k) in Parameters(prefix, keys, attributes)
    ensures forall p :: p in Parameters(prefix, keys, attributes) ==>
      exists k :: k in keys && ParameterName(prefix, k) == p && Parameters(prefix, keys, attributes)[p] == attributes[k]
  {
    if keys != [] {
      var last := keys[|keys| - 1];
      assert keys == keys[..|keys| - 1] + [last];
      ParametersComeFromKeys(prefix, keys[..|keys| - 1], attributes);
      var ps := Parameters(prefix, keys, attributes);
      forall p | p in ps
        ensures exists k :: k in keys && ParameterName(prefix, k) == p && ps[p] == attributes[k]
      {
        if p == ParameterName(prefix, last) {
          assert last in keys;
        } else {
          var before := Parameters(prefix, keys[..|keys| - 1], attributes);
          assert p in before && ps[p] == before[p];
          var k :| k in keys[..|keys| - 1] && ParameterName(prefix, k) == p && before[p] == attributes[k];
          assert k in keys;
        }
      }
    }
  }

  /** The attribute whose value a key's parameter really carries. */
  lemma ParameterSource(prefix: string, attributes: Props, key: string) returns (source: string)
    requires key in attributes
    ensures source in attributes && ParameterName(prefix, source) == ParameterName(prefix, key)
    ensures ParameterName(prefix, key) in FilterParameters(prefix, attributes)
    ensures FilterParameters(prefix, attributes)[ParameterName(prefix, key)] == attributes[source]
  {
    var keys := SortedKeys(attributes.Keys);
    SortedKeysListing(attributes.Keys);
    ParametersComeFromKeys(prefix, keys, attributes);
    source :| source in keys && ParameterName(prefix, source) == ParameterName(prefix, key)
      && Parameters(prefix, keys, attributes)[ParameterName(prefix, key)] == attributes[source];
  }

  /** Attribute names that collapse to one parameter name carry equal values. */
  ghost predicate CollisionsAgree(prefix: string, attributes: Props) {
    forall a, b :: a in attributes && b in attributes && ParameterName(prefix, a) == ParameterName(prefix, b)
      ==> CypherEqual(attributes[a], attributes[b])
  }

  lemma FilterHoldsIfSelects(props: Props, prefix: string, attributes: Props)
    requires CollisionsAgree(prefix, attributes)
    ensures FilterHolds(props, prefix, attributes) <==> Selects(props, attributes)
  {
    forall k | k in attributes
      ensures ParameterName(prefix, k) in FilterParameters(prefix, attributes)
      ensures k in props ==>
        (CypherEqual(props[k], FilterParameters(prefix, attributes)[ParameterName(prefix, k)])
         <==> CypherEqual(props[k], attributes[k]))
    {
      var source := ParameterSource(prefix, attributes, k);
      assert CypherEqual(attributes[source], attributes[k]) && CypherEqual(attributes[k], attributes[source]);
      if k in props {
        if CypherEqual(props[k], attributes[k]) {
          CypherEqualTransitive(props[k], attributes[k], attributes[source]);
        }
        if CypherEqual(props[k], attributes[source]) {
          CypherEqualTransitive(props[k], attributes[source], attributes[k]);
        }
      }
    }
  }

  /** The generated clause is understood, and holds on exactly the nodes that the selector asks for. */
  ghost predicate ClauseMeansSelector(part: NamePart, alias: string, prefix: string, attributes: Props) {
    var tests := ReadClause(part, alias, FilterClause(alias, prefix, attributes));
    tests.Some? && forall props :: TestsHold(props, tests.value, FilterParameters(prefix, attributes)) <==> Selects(props, attributes)
  }

  lemma ClauseMeansByFilter(part: NamePart, alias: string, prefix: string, attributes: Props)
    ensures ClauseMeansSelector(part, alias, prefix, attributes) <==>
      && ReadableNames(part, prefix, attributes)
      && forall props :: FilterHolds(props, prefix, attributes) <==> Selects(props, attributes)
  {
    hide ReadClause, FilterClause, FilterParameters, FilterHolds, TestsHold, Selects, ReadableNames;
    ClauseReadsExactly(part, alias, prefix, attributes);
  }

  lemma FilterWithoutCollisions(props: Props, prefix: string, attributes: Props)
    requires forall a, b :: a in attributes && b in attributes && ParameterName(prefix, a) == ParameterName(prefix, b) ==> a == b
    ensures FilterHolds(props, prefix, attributes) <==> Selects(props, attributes)
  {
    forall k | k in attributes
      ensures ParameterName(prefix, k) in FilterParameters(prefix, attributes)
      ensures FilterParameters(prefix, attributes)[ParameterName(prefix, k)] == attributes[k]
    {
      var source := ParameterSource(prefix, attributes, k);
    }
  }

  /**
   * Without name collisions, and for any values at all, the generated clause means the
   * selector if and only if every sanitized name is one parameter name.
   */
  lemma FilterExactWithoutCollisions(part: NamePart, alias: string, prefix: string, attributes: Props)
    requires forall a, b :: a in attributes && b in attributes && ParameterName(prefix, a) == ParameterName(prefix, b) ==> a == b
    ensures ClauseMeansSelector(part, alias, prefix, attributes) <==> ReadableNames(part, prefix, attributes)
  {
    hide ClauseMeansSelector, FilterHolds, Selects, ReadableNames, ParameterName;
    ClauseMeansByFilter(part, alias, prefix, attributes);
    forall props
      ensures FilterHolds(props, prefix, attributes) <==> Selects(props, attributes)
    {
      FilterWithoutCollisions(props, prefix, attributes);
    }
  }

  /** On values that equal themselves the parameters keep the meaning exactly when colliding names agree. */
  lemma ParametersMeanExactly(prefix: string, attributes: Props)
    requires forall k :: k in attributes ==> CypherEqual(attributes[k], attributes[k])
    ensures (forall props :: FilterHolds(props, prefix, attributes) <==> Selects(props, attributes))
            <==> CollisionsAgree(prefix, attributes)
  {
    if CollisionsAgree(prefix, attributes) {
      forall props
        ensures FilterHolds(props, prefix, attributes) <==> Selects(props, attributes)
      {
        FilterHoldsIfSelects(props, prefix, attributes);
      }
    } else {
      var a, b :| a in attributes && b in attributes && ParameterName(prefix, a) == ParameterName(prefix, b)
        && !CypherEqual(attributes[a], attributes[b]);
      assert Selects(attributes, attributes);
      assert !FilterHolds(attributes, prefix, attributes) by {
        var source := ParameterSource(prefix, attributes, a);
        if CypherEqual(attributes[a], attributes[source]) && CypherEqual(attributes[b], attributes[source]) {
          CypherEqualSymmetric(attributes[b], attributes[source]);
          CypherEqualTransitive(attributes[a], attributes[source], attributes[b]);
        }
      }
    }
  }

  /**
   * On values that equal themselves (no null, no NaN), the generated clause selects exactly
   * the intended nodes if and only if colliding names carry equal values and every
   * sanitized name is one parameter name.
   */
  lemma FilterExactly(part: NamePart, alias: string, prefix: string, attributes: Props)
    requires forall k :: k in attributes ==> CypherEqual(attributes[k], attributes[k])
    ensures ClauseMeansSelector(part, alias, prefix, attributes)
      <==> CollisionsAgree(prefix, attributes) && ReadableNames(part, prefix, attributes)
  {
    hide ClauseMeansSelector, FilterHolds, Selects, ReadableNames, CollisionsAgree;
    ClauseMeansByFilter(part, alias, prefix, attributes);
    ParametersMeanExactly(prefix, attributes);
  }

  /**
   * Only dots, dashes and spaces are replaced: any other character that cannot stand in a
   * parameter name, such as a slash, makes a clause that is not understood.
   */
  lemma ForeignCharacterIsNotRead(part: NamePart, prefix: string, attributes: Props, key: string, c: char)
    requires key in attributes && c in key && !part(c) && c !in {'.', '-', ' '}
    ensures forall alias :: !ClauseMeansSelector(part, alias, prefix, attributes)
  {
    var name := ParameterName(prefix, key);
    var i :| 0 <= i < |key| && key[i] == c;
    var k := |prefix| + 1 + i;
    assert (prefix + "_" + key)[k] == c;
    assert name[k] == c;
    assert !ReadableName(part, prefix, key);
    forall alias
      ensures !ClauseMeansSelector(part, alias, prefix, attributes)
    {
      ClauseMeansByFilter(part, alias, prefix, attributes);
    }
  }

  lemma SlashIsNotRead(part: NamePart)
    requires !part('/')
    ensures !ClauseMeansSelector(part, "n", "selector", map["a/b" := Text("x")])
  {
    hide ClauseMeansSelector;
    assert "a/b"[1] == '/';
    ForeignCharacterIsNotRead(part, "selector", map["a/b" := Text("x")], "a/b", '/');
  }

  /** "a.b" and "a_b" share a parameter, so a selector on both can miss its own node. */
  lemma CollidingNamesMissTheirNode()
    ensures var attributes := map["a.b" := Text("x"), "a_b" := Text("y")];
      Selects(attributes, attributes) && !FilterHolds(attributes, "selector", attributes)
  {
    var attributes := map["a.b" := Text("x"), "a_b" := Text("y")];
    assert ParameterName("selector", "a.b") == "selector_a_b" == ParameterName("selector", "a_b");
    var source := ParameterSource("selector", attributes, "a.b");
    assert Text("x").s[0] != Text("y").s[0];
    assert attributes["a.b"] == Text("x") && attributes["a_b"] == Text("y");
  }
}
