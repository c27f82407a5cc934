/**
 * The rule engine (internal/engine/conditions.go, property_transforms.go, properties.go,
 * planner.go): an interpreter for conditions, layered properties, transforms and templates.
 */
module Rules {
  import opened Prelude
  import opened Strings
  import opened Values
  import opened Config
  import opened RegexOutput

  datatype RuleError =
    | UnsupportedOperator
    | UnsupportedConditionType
    | UnsupportedPropertyType
    | UnsupportedProcessor
    | InvalidPattern
    | NonNumericOperand
    | MissingLabel
    | NameAbsent
    | NameEmpty

  /* ----- conditions.go ----- */

  const MAX_INT64: int := 0x7FFF_FFFF_FFFF_FFFF

  /** float64 conversion of a configured operand; integers above int64 decode as uint64, which has no case. */
  function ToFloat64(f: Foreign, v: Value): Result<Double, RuleError> {
    match v
    case Integer(i) => if i <= MAX_INT64 then Ok(Finite(RoundToDouble(i) as real)) else Err(NonNumericOperand)
    case Float(d) => Ok(d)
    case Text(s) => (match f.parseFloat(TrimSpace(s)) case Some(d) => Ok(d) case None => Err(NonNumericOperand))
    case _ => Err(NonNumericOperand)
  }

  predicate DoubleEqual(a: Double, b: Double) {
    a == b && a != NaN
  }

  predicate DoubleLess(a: Double, b: Double) {
    match (a, b)
    case (Finite(x), Finite(y)) => x < y
    case (Infinite(p), Finite(_)) => !p
    case (Finite(_), Infinite(q)) => q
    case (Infinite(p), Infinite(q)) => !p && q
    case _ => false
  }

  function MatchCondition(f: Foreign, c: Condition, d: Datapoint): Result<bool, RuleError> {
    var kind := f.lower(TrimSpace(c.kind));
    if kind == "label" then
      if c.label_ !in d.labels then Ok(false)
      else if c.equals != Null then Ok(d.labels[c.label_] == f.sprint(c.equals))
      else if c.notEquals != Null then Ok(d.labels[c.label_] != f.sprint(c.notEquals))
      else Err(UnsupportedOperator)
    else if kind == "label_exists" then Ok(c.label_ in d.labels)
    else if kind == "value" then
      if c.equals != Null then
        var expected :- ToFloat64(f, c.equals);
        Ok(DoubleEqual(d.value, expected))
      else if c.notEquals != Null then
        var expected :- ToFloat64(f, c.notEquals);
        Ok(!DoubleEqual(d.value, expected))
      else if c.greaterThan.Some? then Ok(DoubleLess(c.greaterThan.value, d.value))
      else if c.lessThan.Some? then Ok(DoubleLess(d.value, c.lessThan.value))
      else Err(UnsupportedOperator)
    else Err(UnsupportedConditionType)
  }

  function ValueCondition(kind: string): Condition {
    Condition(kind, "", Null, Null, None, None)
  }

  /**
   * The four value operators with one operand y against a value x: `not_equals` negates
   * `equals`; on finite numbers the others are the usual order; NaN satisfies only `not_equals`.
   */
  lemma ValueOperatorsMean(f: Foreign, kind: string, d: Datapoint, y: Double)
    requires f.lower(TrimSpace(kind)) == "value"
    ensures var c := ValueCondition(kind);
      var equal := MatchCondition(f, c.(equals := Float(y)), d);
      var unequal := MatchCondition(f, c.(notEquals := Float(y)), d);
      var above := MatchCondition(f, c.(greaterThan := Some(y)), d);
      var below := MatchCondition(f, c.(lessThan := Some(y)), d);
      && equal.Ok? && unequal.Ok? && above.Ok? && below.Ok?
      && unequal.value == !equal.value
      && (d.value.Finite? && y.Finite? ==>
            && (equal.value <==> d.value.r == y.r)
            && (above.value <==> d.value.r > y.r)
            && (below.value <==> d.value.r < y.r))
      && (d.value == NaN || y == NaN ==> !equal.value && !above.value && !below.value)
      && (d.value != NaN && y != NaN ==>
            (equal.value || above.value || below.value)
            && !(equal.value && above.value) && !(equal.value && below.value) && !(above.value && below.value))
  {
  }

  /**
   * The label operators: on a present label `not_equals` negates `equals`, but on a
   * missing label neither holds, and only `label_exists` tells the two cases apart.
   */
  lemma LabelOperatorsMean(f: Foreign, c: Condition, exists_: Condition, d: Datapoint, y: Value)
    requires f.lower(TrimSpace(c.kind)) == "label" && f.lower(TrimSpace(exists_.kind)) == "label_exists"
    requires c.label_ == exists_.label_ && y != Null
    ensures var equal := MatchCondition(f, c.(equals := y, notEquals := Null), d);
      var unequal := MatchCondition(f, c.(equals := Null, notEquals := y), d);
      var present := MatchCondition(f, exists_, d);
      && equal.Ok? && unequal.Ok? && present.Ok?
      && (present.value <==> c.label_ in d.labels)
      && (present.value ==> unequal.value == !equal.value)
      && (!present.value ==> !equal.value && !unequal.value)
      && (equal.value <==> present.value && d.labels[c.label_] == f.sprint(y))
  {
  }

  function MatchConditions(f: Foreign, conditions: seq<Condition>, d: Datapoint): Result<bool, RuleError> {
    if conditions == [] then Ok(true)
    else
      var matches :- MatchCondition(f, conditions[0], d);
      if !matches then Ok(false) else MatchConditions(f, conditions[1..], d)
  }

  /** The result is decided by the first condition that does not hold: false there, or its error. */
  lemma {:induction false} ConditionsDecidedByFirst(f: Foreign, conditions: seq<Condition>, d: Datapoint)
    ensures MatchConditions(f, conditions, d) == Ok(true)
      <==> forall i :: 0 <= i < |conditions| ==> MatchCondition(f, conditions[i], d) == Ok(true)
    ensures MatchConditions(f, conditions, d) != Ok(true) ==>
      exists i :: 0 <= i < |conditions| && MatchCondition(f, conditions[i], d) == MatchConditions(f, conditions, d)
        && forall j :: 0 <= j < i ==> MatchCondition(f, conditions[j], d) == Ok(true)
  {
    hide MatchCondition;
    if conditions != [] {
      var rest := conditions[1..];
      ConditionsDecidedByFirst(f, rest, d);
      if MatchCondition(f, conditions[0], d) == Ok(true) {
        forall i | 0 <= i < |rest|
          ensures conditions[i + 1] == rest[i]
        {
        }
        if MatchConditions(f, rest, d) == Ok(true) {
          forall i | 0 <= i < |conditions|
            ensures MatchCondition(f, conditions[i], d) == Ok(true)
          {
            if i > 0 {
              assert conditions[i] == rest[i - 1];
            }
          }
        } else {
          var i :| 0 <= i < |rest| && MatchCondition(f, rest[i], d) == MatchConditions(f, rest, d)
            && forall j :: 0 <= j < i ==> MatchCondition(f, rest[j], d) == Ok(true);
          forall j | 0 <= j < i + 1
            ensures MatchCondition(f, conditions[j], d) == Ok(true)
          {
            if j > 0 {
              assert conditions[j] == rest[j - 1];
            }
          }
          assert conditions[i + 1] == rest[i];
        }
      } else {
        assert MatchCondition(f, conditions[0], d) == MatchConditions(f, conditions, d);
      }
    }
  }

  /* ----- property_transforms.go ----- */

  /** One processor; a value that is not text, or that the pattern does not match, is left alone. */
  function ApplyProcess(f: Foreign, v: Value, p: Process): Result<Value, RuleError> {
    var kind := NormalizeProcessType(f, p.kind);
    if kind == TO_UPPER then Ok(if v.Text? then Text(f.upper(v.s)) else v)
    else if kind == TO_LOWER then Ok(if v.Text? then Text(f.lower(v.s)) else v)
    else if kind == REGEX then
      if !v.Text? then Ok(v)
      else match f.compile(NormalizeRegexPattern(p.pattern))
        case None => Err(InvalidPattern)
        case Some(regex) =>
          match regex.find(v.s)
          case None => Ok(v)
          case Some(groups) => Ok(Text(Expand(p.output, groups)))
    else Err(UnsupportedProcessor)
  }

  function RunProcesses(f: Foreign, v: Value, ps: seq<Process>): Result<Value, RuleError>
    decreases |ps|
  {
    if ps == [] then Ok(v)
    else
      var next :- ApplyProcess(f, v, ps[0]);
      RunProcesses(f, next, ps[1..])
  }

  /** Numbers, booleans, lists and maps pass through every chain that does not fail. */
  lemma {:induction false} OnlyTextIsTransformed(f: Foreign, v: Value, ps: seq<Process>)
    requires RunProcesses(f, v, ps).Ok?
    ensures !v.Text? ==> RunProcesses(f, v, ps) == Ok(v)
    ensures v.Text? ==> RunProcesses(f, v, ps).value.Text?
    decreases |ps|
  {
    if ps != [] {
      OnlyTextIsTransformed(f, ApplyProcess(f, v, ps[0]).value, ps[1..]);
    }
  }

  function ApplyTransform(f: Foreign, props: Props, t: Transform): (r: Result<Props, RuleError>)
    ensures r.Ok? ==> r.value.Keys == props.Keys
  {
    if t.property !in props then Ok(props)
    else
      var v :- RunProcesses(f, props[t.property], t.process);
      Ok(props[t.property := v])
  }

  function ApplyTransforms(f: Foreign, props: Props, ts: seq<Transform>): (r: Result<Props, RuleError>)
    ensures r.Ok? ==> r.value.Keys == props.Keys
    decreases |ts|
  {
    if ts == [] then Ok(props)
    else
      var next :- ApplyTransform(f, props, ts[0]);
      ApplyTransforms(f, next, ts[1..])
  }

  /** All processors of all transforms that name a property, in order. */
  function ProcessesFor(key: string, ts: seq<Transform>): seq<Process> {
    if ts == [] then []
    else (if ts[0].property == key then ts[0].process else []) + ProcessesFor(key, ts[1..])
  }

  lemma {:induction false} RunConcat(f: Foreign, v: Value, a: seq<Process>, b: seq<Process>)
    ensures RunProcesses(f, v, a + b) ==
      match RunProcesses(f, v, a) case Ok(w) => RunProcesses(f, w, b) case Err(e) => Err(e)
    decreases |a|
  {
    hide ApplyProcess;
    if a == [] {
      assert a + b == b;
    } else {
      assert (a + b)[1..] == a[1..] + b;
      match ApplyProcess(f, v, a[0])
      case Ok(next) => RunConcat(f, next, a[1..], b);
      case Err(_) =>
    }
  }

  /** Some property's own chain of processors fails. */
  predicate SomeChainFails(f: Foreign, props: Props, ts: seq<Transform>) {
    exists k :: k in props && RunProcesses(f, props[k], ProcessesFor(k, ts)).Err?
  }

  lemma OneTransformSteps(f: Foreign, props: Props, t: Transform, rest: seq<Transform>, k: string)
    requires k in props && ApplyTransform(f, props, t).Ok?
    ensures var next := ApplyTransform(f, props, t).value;
      k in next && RunProcesses(f, props[k], ProcessesFor(k, [t] + rest)) == RunProcesses(f, next[k], ProcessesFor(k, rest))
  {
    hide RunProcesses;
    assert ([t] + rest)[1..] == rest;
    if t.property == k {
      RunConcat(f, props[k], t.process, ProcessesFor(k, rest));
    } else {
      assert [] + ProcessesFor(k, rest) == ProcessesFor(k, rest);
    }
  }

  lemma OneTransformFails(f: Foreign, props: Props, t: Transform, rest: seq<Transform>)
    requires ApplyTransform(f, props, t).Err?
    ensures SomeChainFails(f, props, [t] + rest)
  {
    hide RunProcesses;
    assert ([t] + rest)[1..] == rest;
    RunConcat(f, props[t.property], t.process, ProcessesFor(t.property, rest));
    assert RunProcesses(f, props[t.property], ProcessesFor(t.property, [t] + rest)).Err?;
  }

  /**
   * The transforms are independent per property: each existing value is the left fold of
   * all processors that name its property, no property appears or disappears, and the
   * whole fails exactly when one of these folds fails.
   */
  lemma {:induction false} TransformsPerProperty(f: Foreign, props: Props, ts: seq<Transform>)
    ensures ApplyTransforms(f, props, ts).Ok? ==>
      var r := ApplyTransforms(f, props, ts).value;
      r.Keys == props.Keys && forall k :: k in props ==> RunProcesses(f, props[k], ProcessesFor(k, ts)) == Ok(r[k])
    ensures ApplyTransforms(f, props, ts).Err? <==> SomeChainFails(f, props, ts)
    decreases |ts|
  {
    if ts != [] {
      hide RunProcesses, ProcessesFor, ApplyTransform;
      assert ts == [ts[0]] + ts[1..];
      match ApplyTransform(f, props, ts[0])
      case Ok(next) =>
        TransformsPerProperty(f, next, ts[1..]);
        forall k | k in props
          ensures k in next
            && RunProcesses(f, props[k], ProcessesFor(k, ts)) == RunProcesses(f, next[k], ProcessesFor(k, ts[1..]))
        {
          OneTransformSteps(f, props, ts[0], ts[1..], k);
        }
      case Err(_) => OneTransformFails(f, props, ts[0], ts[1..]);
    }
  }

  /** A Go map that is updated in place. */
  class PropertyMap {
    var entries: Props

    constructor (entries: Props)
      ensures this.entries == entries
    {
      this.entries := entries;
    }
  }

  method ApplyPropertyTransforms(f: Foreign, properties: PropertyMap, transforms: seq<Transform>)
    returns (failed: Option<RuleError>)
    modifies properties
    ensures match ApplyTransforms(f, old(properties.entries), transforms)
      case Ok(r) => failed == None && properties.entries == r
      case Err(e) => failed == Some(e)
  {
    hide ApplyProcess;
    for i := 0 to |transforms|
      invariant ApplyTransforms(f, properties.entries, transforms[i..]) == ApplyTransforms(f, old(properties.entries), transforms)
    {
      var transform := transforms[i];
      assert transforms[i..][0] == transform && transforms[i..][1..] == transforms[i + 1..];
      if transform.property !in properties.entries {
        continue;
      }
      var current := properties.entries[transform.property];
      ghost var first := current;
      for j := 0 to |transform.process|
        invariant RunProcesses(f, current, transform.process[j..]) == RunProcesses(f, first, transform.process)
      {
        assert transform.process[j..][0] == transform.process[j] && transform.process[j..][1..] == transform.process[j + 1..];
        var applied := ApplyProcess(f, current, transform.process[j]);
        if applied.Err? {
          return Some(applied.error);
        }
        current := applied.value;
      }
      properties.entries := properties.entries[transform.property := current];
    }
    failed := None;
  }

  /* ----- properties.go ----- */

  function ResolveOptionalToken(f: Foreign, token: string, d: Datapoint): Option<Value> {
    if token == "__value__" then Some(Float(d.value))
    else if token == "__timestamp__" then Some(Text(f.formatTime(d.timestamp)))
    else if token in d.labels then Some(Text(d.labels[token]))
    else None
  }

  function FoundLabels(f: Foreign, labels: map<string, string>, d: Datapoint): Props {
    map k | k in labels && ResolveOptionalToken(f, labels[k], d).Some? :: ResolveOptionalToken(f, labels[k], d).value
  }

  /** The value that a conditional property sets, if its conditions hold and its label exists. */
  function ConditionalValue(f: Foreign, c: ConditionalProperty, d: Datapoint): Result<Option<Value>, RuleError> {
    var matches :- MatchConditions(f, c.conditions, d);
    if !matches then Ok(None)
    else
      var kind := f.lower(TrimSpace(c.kind));
      if kind == "static" then Ok(Some(c.value))
      else if kind == "label" then Ok(ResolveOptionalToken(f, c.fromLabel, d))
      else Err(UnsupportedPropertyType)
  }

  function ApplyConditionals(f: Foreign, props: Props, cs: seq<ConditionalProperty>, d: Datapoint): Result<Props, RuleError>
    decreases |cs|
  {
    if cs == [] then Ok(props)
    else
      var v :- ConditionalValue(f, cs[0], d);
      ApplyConditionals(f, if v.Some? then props[cs[0].name := v.value] else props, cs[1..], d)
  }

  function ResolvedProperties(f: Foreign, rules: PropertyRules, d: Datapoint): Result<Props, RuleError> {
    var layered :- ApplyConditionals(f, rules.staticProps + FoundLabels(f, rules.labelProps, d), rules.conditional, d);
    ApplyTransforms(f, layered, rules.transforms)
  }

  /** The last conditional property of that name whose conditions hold and whose value is found. */
  function LastSetter(f: Foreign, key: string, cs: seq<ConditionalProperty>, d: Datapoint): Option<Value> {
    if cs == [] then None
    else
      var last := cs[|cs| - 1];
      var v := ConditionalValue(f, last, d);
      if last.name == key && v.Ok? && v.value.Some? then v.value else LastSetter(f, key, cs[..|cs| - 1], d)
  }

  /** Static value, overridden by a found label, overridden by the last matching conditional. */
  function Layered(f: Foreign, rules: PropertyRules, key: string, d: Datapoint): Option<Value> {
    var found := LastSetter(f, key, rules.conditional, d);
    if found.Some? then found
    else if key in rules.labelProps && ResolveOptionalToken(f, rules.labelProps[key], d).Some?
    then ResolveOptionalToken(f, rules.labelProps[key], d)
    else if key in rules.staticProps then Some(rules.staticProps[key])
    else None
  }

  lemma {:induction false} LastSetterOfMore(f: Foreign, key: string, c: ConditionalProperty, rest: seq<ConditionalProperty>, d: Datapoint)
    ensures LastSetter(f, key, [c] + rest, d) ==
      if LastSetter(f, key, rest, d).Some? then LastSetter(f, key, rest, d) else LastSetter(f, key, [c], d)
  {
    hide ConditionalValue;
    if rest == [] {
      assert [c] + rest == [c];
    } else {
      assert ([c] + rest)[..|rest|] == [c] + rest[..|rest| - 1];
      LastSetterOfMore(f, key, c, rest[..|rest| - 1], d);
    }
  }

  lemma OneSetter(f: Foreign, key: string, c: ConditionalProperty, d: Datapoint)
    ensures LastSetter(f, key, [c], d) ==
      var v := ConditionalValue(f, c, d); if c.name == key && v.Ok? then v.value else None
  {
  }

  lemma {:induction false} ConditionalsAct(f: Foreign, props: Props, cs: seq<ConditionalProperty>, d: Datapoint, key: string)
    requires ApplyConditionals(f, props, cs, d).Ok?
    ensures var r := ApplyConditionals(f, props, cs, d).value;
      match LastSetter(f, key, cs, d)
      case Some(v) => key in r && r[key] == v
      case None => (key in r <==> key in props) && (key in r ==> r[key] == props[key])
    decreases |cs|
  {
    hide ConditionalValue, LastSetter;
    if cs == [] {
      NoSetter(f, key, d);
    } else {
      assert cs == [cs[0]] + cs[1..];
      LastSetterOfMore(f, key, cs[0], cs[1..], d);
      OneSetter(f, key, cs[0], d);
      var v := ConditionalValue(f, cs[0], d).value;
      ConditionalsAct(f, if v.Some? then props[cs[0].name := v.value] else props, cs[1..], d, key);
    }
  }

  lemma NoSetter(f: Foreign, key: string, d: Datapoint)
    ensures LastSetter(f, key, [], d) == None
  {
  }

  /**
   * What resolution means for one property: it is present exactly when one of the three
   * layers gives it a value, and it is the fold of its own processors over that value.
   */
  lemma PropertyMeans(f: Foreign, rules: PropertyRules, d: Datapoint, key: string)
    requires ResolvedProperties(f, rules, d).Ok?
    ensures var r := ResolvedProperties(f, rules, d).value;
      match Layered(f, rules, key, d)
      case None => key !in r
      case Some(v) => key in r && RunProcesses(f, v, ProcessesFor(key, rules.transforms)) == Ok(r[key])
  {
    hide RunProcesses, ProcessesFor, LastSetter, ApplyConditionals, ApplyTransforms;
    var base := rules.staticProps + FoundLabels(f, rules.labelProps, d);
    ConditionalsAct(f, base, rules.conditional, d, key);
    var layered := ApplyConditionals(f, base, rules.conditional, d).value;
    TransformsPerProperty(f, layered, rules.transforms);
  }

  /** ResolveProperties: the dynamic properties are visited in whatever order the map yields. */
  method ResolveProperties(f: Foreign, rules: PropertyRules, d: Datapoint) returns (r: Result<Props, RuleError>)
    ensures r == ResolvedProperties(f, rules, d)
  {
    hide ApplyTransforms, ConditionalValue;
    var properties := new PropertyMap(rules.staticProps);
    ResolveLabels(f, properties, rules.labelProps, d);
    ghost var base := properties.entries;
    for i := 0 to |rules.conditional|
      invariant ApplyConditionals(f, properties.entries, rules.conditional[i..], d) == ApplyConditionals(f, base, rules.conditional, d)
      modifies properties
    {
      var property := rules.conditional[i];
      assert rules.conditional[i..][0] == property && rules.conditional[i..][1..] == rules.conditional[i + 1..];
      var value := ResolveConditional(f, property, d);
      if value.Err? {
        return Err(value.error);
      }
      if value.value.Some? {
        properties.entries := properties.entries[property.name := value.value.value];
      }
    }
    var failed := ApplyPropertyTransforms(f, properties, rules.transforms);
    if failed.Some? {
      return Err(failed.value);
    }
    r := Ok(properties.entries);
  }

  lemma VisitOne(base: Props, found: Props, rest: set<string>, name: string)
    requires name in rest
    ensures base + (found - (rest - {name})) ==
      if name in found then (base + (found - rest))[name := found[name]] else base + (found - rest)
  {
  }

  method ResolveLabels(f: Foreign, properties: PropertyMap, labels: map<string, string>, d: Datapoint)
    modifies properties
    ensures properties.entries == old(properties.entries) + FoundLabels(f, labels, d)
  {
    hide ResolveOptionalToken;
    ghost var found := FoundLabels(f, labels, d);
    var rest := labels.Keys;
    assert found - rest == map[];
    while rest != {}
      invariant rest <= labels.Keys
      invariant properties.entries == old(properties.entries) + (found - rest)
    {
      var name :| name in rest;
      VisitOne(old(properties.entries), found, rest, name);
      rest := rest - {name};
      var resolved := ResolveOptionalToken(f, labels[name], d);
      if resolved.None? {
        continue;
      }
      properties.entries := properties.entries[name := resolved.value];
    }
    assert found - {} == found;
  }

  method ResolveConditional(f: Foreign, property: ConditionalProperty, d: Datapoint) returns (r: Result<Option<Value>, RuleError>)
    ensures r == ConditionalValue(f, property, d)
  {
    hide MatchConditions, ResolveOptionalToken;
    var matches :- MatchConditions(f, property.conditions, d);
    if !matches {
      return Ok(None);
    }
    var kind := f.lower(TrimSpace(property.kind));
    if kind == "static" {
      r := Ok(Some(property.value));
    } else if kind == "label" {
      r := Ok(ResolveOptionalToken(f, property.fromLabel, d));
    } else {
      r := Err(UnsupportedPropertyType);
    }
  }
}
