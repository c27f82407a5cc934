/** Selectors and plans (internal/engine/properties.go, planner.go). */
module Planner {
  import opened Prelude
  import opened Strings
  import opened Values
  import opened Domain
  import opened Config
  import opened Rules
  import opened Identity

  /* ----- ResolveSelector ----- */

  /** Every token that a label attribute names, with its value. */
  function TokenValues(f: Foreign, labels: map<string, string>, d: Datapoint): Result<Props, RuleError> {
    if forall k :: k in labels ==> ResolveOptionalToken(f, labels[k], d).Some?
    then Ok(map token | token in labels.Values && ResolveOptionalToken(f, token, d).Some?
              :: ResolveOptionalToken(f, token, d).value)
    else Err(MissingLabel)
  }

  predicate TokensCovered(labels: map<string, string>, values: Props) {
    forall k :: k in labels ==> labels[k] in values
  }

  function AttributeValues(labels: map<string, string>, values: Props): Props
    requires TokensCovered(labels, values)
  {
    map k | k in labels :: values[labels[k]]
  }

  lemma TokensAreCovered(f: Foreign, labels: map<string, string>, d: Datapoint)
    ensures TokenValues(f, labels, d).Ok? ==> TokensCovered(labels, TokenValues(f, labels, d).value)
  {
  }

  function ResolvedSelector(f: Foreign, e: Endpoint, d: Datapoint): Result<NodeSelector, RuleError> {
    var values :- TokenValues(f, e.labelAttrs, d);
    var transformed :- ApplyTransforms(f, values, e.priorTransform);
    TokensAreCovered(f, e.labelAttrs, d);
    Ok(NodeSelector(e.kind, e.staticAttrs + AttributeValues(e.labelAttrs, transformed)))
  }

  /**
   * One attribute of a selector: a label attribute is the fold of the processors that
   * name its source token, so attributes with one token share one value; a static
   * attribute that no label attribute overrides is never transformed.
   */
  lemma SelectorMeans(f: Foreign, e: Endpoint, d: Datapoint, key: string)
    requires ResolvedSelector(f, e, d).Ok?
    ensures var a := ResolvedSelector(f, e, d).value.attributes;
      if key in e.labelAttrs then
        && key in a
        && ResolveOptionalToken(f, e.labelAttrs[key], d).Some?
        && RunProcesses(f, ResolveOptionalToken(f, e.labelAttrs[key], d).value, ProcessesFor(e.labelAttrs[key], e.priorTransform))
             == Ok(a[key])
      else if key in e.staticAttrs then key in a && a[key] == e.staticAttrs[key]
      else key !in a
  {
    hide ResolveOptionalToken, RunProcesses, ProcessesFor, ApplyTransforms;
    var values := TokenValues(f, e.labelAttrs, d).value;
    TransformsPerProperty(f, values, e.priorTransform);
    if key in e.labelAttrs {
      assert e.labelAttrs[key] in e.labelAttrs.Values;
      assert e.labelAttrs[key] in values;
    }
  }

  method ResolveSelector(f: Foreign, endpoint: Endpoint, d: Datapoint) returns (r: Result<NodeSelector, RuleError>)
    ensures r == ResolvedSelector(f, endpoint, d)
  {
    hide ApplyTransforms, ResolveOptionalToken;
    var labels := endpoint.labelAttrs;
    var resolved := ResolveTokens(f, labels, d);
    if resolved.Err? {
      return Err(resolved.error);
    }
    TokensAreCovered(f, labels, d);
    var sourceValues := new PropertyMap(resolved.value);
    var failed := ApplyPropertyTransforms(f, sourceValues, endpoint.priorTransform);
    if failed.Some? {
      return Err(failed.value);
    }
    var attributes := FillAttributes(endpoint.staticAttrs, labels, sourceValues.entries);
    r := Ok(NodeSelector(endpoint.kind, attributes));
  }

  /** The label attributes are visited in any order; which missing label is reported first is not kept. */
  method ResolveTokens(f: Foreign, labels: map<string, string>, d: Datapoint) returns (r: Result<Props, RuleError>)
    ensures r == TokenValues(f, labels, d)
  {
    hide ResolveOptionalToken;
    var values: Props := map[];
    var rest := labels.Keys;
    while rest != {}
      invariant rest <= labels.Keys
      invariant forall k :: k in labels && k !in rest ==> ResolveOptionalToken(f, labels[k], d).Some?
      invariant forall t :: t in values <==> exists k :: k in labels && k !in rest && labels[k] == t
      invariant forall t :: t in values ==> ResolveOptionalToken(f, t, d) == Some(values[t])
    {
      var name :| name in rest;
      var resolved := ResolveOptionalToken(f, labels[name], d);
      if resolved.None? {
        return Err(MissingLabel);
      }
      rest := rest - {name};
      values := values[labels[name] := resolved.value];
    }
    assert forall t :: t in values <==> t in labels.Values;
    assert values == TokenValues(f, labels, d).value;
    r := Ok(values);
  }

  method FillAttributes(staticAttrs: Props, labels: map<string, string>, values: Props) returns (attributes: Props)
    requires TokensCovered(labels, values)
    ensures attributes == staticAttrs + AttributeValues(labels, values)
  {
    ghost var all := AttributeValues(labels, values);
    attributes := staticAttrs;
    var rest := labels.Keys;
    assert all - rest == map[];
    while rest != {}
      invariant rest <= labels.Keys && attributes == staticAttrs + (all - rest)
    {
      var name :| name in rest;
      VisitOne(staticAttrs, all, rest, name);
      rest := rest - {name};
      attributes := attributes[name := values[labels[name]]];
    }
    assert all - {} == all;
  }

  /* ----- identities ----- */

  function CanonicalValue(f: Foreign): Value -> string {
    (v: Value) => if v.Text? then v.s else f.canonical(v)
  }

  function NodeUID(f: Foreign, types: seq<string>, name: string, hashes: seq<string>): string {
    f.uuid(NodeText(types, name, hashes))
  }

  ghost function RelationshipUID(f: Foreign, kind: string, hash: string, source: NodeSelector, target: NodeSelector): string {
    f.uuid(RelationshipText(CanonicalValue(f), kind, hash, source, target))
  }

  /** The text behind a node's uid names the node, its types and its hashes. */
  lemma NodeUidReads(f: Foreign, types: seq<string>, name: string, hashes: seq<string>) returns (text: string)
    requires Plain(types) && Plain(hashes) && UNIT !in name
    ensures NodeUID(f, types, name, hashes) == f.uuid(text)
    ensures var parts := Split(text, UNIT);
      && |parts| == 4 && parts[0] == "node" && parts[2] == name
      && multiset(Split(parts[1], '|')) == multiset(types) && Sorted(Split(parts[1], '|'))
      && multiset(Split(parts[3], '|')) == multiset(hashes) && Sorted(Split(parts[3], '|'))
  {
    text := NodeText(types, name, hashes);
    NodeTextDecodes(types, name, hashes);
    ListReads(types);
    ListReads(hashes);
  }

  lemma ListReads(items: seq<string>)
    requires Plain(items)
    ensures Split(Join(Sort(items), "|"), '|') == Sort(items) && Sorted(Sort(items))
  {
    SortSorted(items);
    SortKeepsItems(items);
    SplitJoin(Sort(items), '|');
  }

  /** The view of a selector in which text attributes stand for themselves. */
  ghost function PlainView(f: Foreign, selector: NodeSelector): (view: SelectorView)
    ensures view.kind == selector.kind
    ensures forall k, text :: k in selector.attributes && selector.attributes[k] == Text(text) ==> (k, text) in view.pairs
    ensures forall p :: p in view.pairs ==> p.0 in selector.attributes
  {
    var view := ViewOf(CanonicalValue(f), selector);
    var keys := KeysOf(selector.attributes);
    forall k, text | k in selector.attributes && selector.attributes[k] == Text(text)
      ensures (k, text) in view.pairs
    {
      var i :| 0 <= i < |keys| && keys[i] == k;
      assert view.pairs[i] == (k, text);
    }
    view
  }

  /** The text behind a relationship's uid names its type, its hash and both selectors, each in its place. */
  lemma RelationshipUidReads(f: Foreign, kind: string, hash: string, source: NodeSelector, target: NodeSelector) returns (text: string)
    requires Decodable(CanonicalValue(f), kind, hash, source, target)
    ensures RelationshipUID(f, kind, hash, source, target) == f.uuid(text)
    ensures Decode(text) == Some(RelationshipView(kind, hash, PlainView(f, source), PlainView(f, target)))
  {
    hide RelationshipText, Decode, Decodable, ViewOf;
    text := RelationshipText(CanonicalValue(f), kind, hash, source, target);
    DecodeRelationship(CanonicalValue(f), kind, hash, source, target);
  }

  method MakeRelationshipUID(f: Foreign, kind: string, hash: string, source: NodeSelector, target: NodeSelector)
    returns (uid: string)
    ensures uid == RelationshipUID(f, kind, hash, source, target)
  {
    var s := SelectorIdentity(CanonicalValue(f), source);
    var t := SelectorIdentity(CanonicalValue(f), target);
    uid := f.uuid(Join(["relationship", kind, hash, s, t], UNIT_SEPARATOR));
  }

  /* ----- Plan ----- */

  const AUTO: Value := Text("auto")

  function TextList(items: seq<string>): Value {
    List(seq(|items|, i requires 0 <= i < |items| => Text(items[i])))
  }

  function NodeFrom(f: Foreign, t: NodeTemplate, properties: Props, name: string): GraphNode {
    var types := Sort(NormalizedTypes(t.types));
    var uid := NodeUID(f, types, name, t.templateHashes);
    GraphNode(
      types, name, t.templateHashes, NormalizeUpdatePolicy(f, t.updatePolicy), t.expirationMinutes,
      properties[NAME := Text(name)][FIELD_NODE_UID := Text(uid)]
        [FIELD_TEMPLATE_HASHES := TextList(t.templateHashes)][FIELD_ORIGIN := AUTO],
      uid)
  }

  function PlanNode(f: Foreign, t: NodeTemplate, d: Datapoint): Result<Option<GraphNode>, RuleError> {
    var matches :- MatchConditions(f, t.conditions, d);
    if !matches then Ok(None)
    else
      var properties :- ResolvedProperties(f, t.rules, d);
      if NAME !in properties then Err(NameAbsent)
      else
        var name := TrimSpace(f.sprint(properties[NAME]));
        if name == "" || name == "<nil>" then Err(NameEmpty)
        else Ok(Some(NodeFrom(f, t, properties, name)))
  }

  ghost function RelationshipFrom(f: Foreign, t: RelationshipTemplate, properties: Props, source: NodeSelector, target: NodeSelector)
    : GraphRelationship
  {
    var hash := TrimSpace(t.templateHash);
    var uid := RelationshipUID(f, t.kind, hash, source, target);
    GraphRelationship(
      t.kind, hash, NormalizeUpdatePolicy(f, t.updatePolicy), t.expirationMinutes, source, target,
      properties[FIELD_REL_UID := Text(uid)][FIELD_TEMPLATE_HASH := Text(hash)][FIELD_ORIGIN := AUTO],
      uid)
  }

  ghost function PlanRelationship(f: Foreign, t: RelationshipTemplate, d: Datapoint): Result<Option<GraphRelationship>, RuleError> {
    var matches :- MatchConditions(f, t.conditions, d);
    if !matches then Ok(None)
    else
      var properties :- ResolvedProperties(f, t.rules, d);
      var source :- ResolvedSelector(f, t.source, d);
      var target :- ResolvedSelector(f, t.target, d);
      Ok(Some(RelationshipFrom(f, t, properties, source, target)))
  }

  function Listed<T>(item: Option<T>): seq<T> {
    match item case None => [] case Some(x) => [x]
  }

  function PlanNodes(f: Foreign, ts: seq<NodeTemplate>, d: Datapoint): Result<seq<GraphNode>, RuleError>
    decreases |ts|
  {
    if ts == [] then Ok([])
    else
      var first :- PlanNode(f, ts[0], d);
      var rest :- PlanNodes(f, ts[1..], d);
      Ok(Listed(first) + rest)
  }

  ghost function PlanRelationships(f: Foreign, ts: seq<RelationshipTemplate>, d: Datapoint): Result<seq<GraphRelationship>, RuleError>
    decreases |ts|
  {
    if ts == [] then Ok([])
    else
      var first :- PlanRelationship(f, ts[0], d);
      var rest :- PlanRelationships(f, ts[1..], d);
      Ok(Listed(first) + rest)
  }

  ghost function PlanOf(f: Foreign, job: Job, d: Datapoint): Result<MutationPlan, RuleError> {
    var nodes :- PlanNodes(f, job.nodes, d);
    var rels :- PlanRelationships(f, job.relationships, d);
    Ok(MutationPlan(nodes, rels))
  }

  /** What the templates still to come add to a list. */
  ghost predicate Continues<T>(whole: Result<seq<T>, RuleError>, done: seq<T>, rest: Result<seq<T>, RuleError>) {
    match (whole, rest)
    case (Ok(all), Ok(more)) => all == done + more
    case (Err(a), Err(b)) => a == b
    case _ => false
  }

  lemma ContinuesNext<T>(whole: Result<seq<T>, RuleError>, done: seq<T>, item: Option<T>,
                         rest: Result<seq<T>, RuleError>, more: Result<seq<T>, RuleError>)
    requires Continues(whole, done, rest) && Continues(rest, Listed(item), more)
    ensures Continues(whole, done + Listed(item), more)
  {
  }

  class PlanBuilder {
    var nodes: seq<GraphNode>
    var relationships: seq<GraphRelationship>

    constructor ()
      ensures nodes == [] && relationships == []
    {
      nodes, relationships := [], [];
    }

    method AddNode(f: Foreign, t: NodeTemplate, d: Datapoint) returns (failed: Option<RuleError>)
      modifies this`nodes
      ensures match PlanNode(f, t, d)
        case Ok(node) => failed == None && nodes == old(nodes) + Listed(node)
        case Err(e) => failed == Some(e)
    {
      hide MatchConditions, ResolvedProperties, NodeText, NormalizedTypes;
      var matches := MatchConditions(f, t.conditions, d);
      if matches.Err? {
        return Some(matches.error);
      }
      if !matches.value {
        return None;
      }
      var resolved := ResolveProperties(f, t.rules, d);
      if resolved.Err? {
        return Some(resolved.error);
      }
      var properties := resolved.value;
      if NAME !in properties {
        return Some(NameAbsent);
      }
      var name := TrimSpace(f.sprint(properties[NAME]));
      if name == "" || name == "<nil>" {
        return Some(NameEmpty);
      }
      var types := CollectNormalizedTypes(t.types);
      types := Sort(types);
      var uid := NodeUID(f, types, name, t.templateHashes);
      properties := properties[NAME := Text(name)];
      properties := properties[FIELD_NODE_UID := Text(uid)];
      properties := properties[FIELD_TEMPLATE_HASHES := TextList(t.templateHashes)];
      properties := properties[FIELD_ORIGIN := AUTO];
      nodes := nodes + [GraphNode(types, name, t.templateHashes, NormalizeUpdatePolicy(f, t.updatePolicy),
                                  t.expirationMinutes, properties, uid)];
      failed := None;
    }

    method AddRelationship(f: Foreign, t: RelationshipTemplate, d: Datapoint) returns (failed: Option<RuleError>)
      modifies this`relationships
      ensures match PlanRelationship(f, t, d)
        case Ok(rel) => failed == None && relationships == old(relationships) + Listed(rel)
        case Err(e) => failed == Some(e)
    {
      hide MatchConditions, ResolvedProperties, ResolvedSelector, RelationshipText;
      var matches := MatchConditions(f, t.conditions, d);
      if matches.Err? {
        return Some(matches.error);
      }
      if !matches.value {
        return None;
      }
      var resolved := ResolveProperties(f, t.rules, d);
      if resolved.Err? {
        return Some(resolved.error);
      }
      var source := ResolveSelector(f, t.source, d);
      if source.Err? {
        return Some(source.error);
      }
      var target := ResolveSelector(f, t.target, d);
      if target.Err? {
        return Some(target.error);
      }
      var properties := resolved.value;
      var hash := TrimSpace(t.templateHash);
      var uid := MakeRelationshipUID(f, t.kind, hash, source.value, target.value);
      properties := properties[FIELD_REL_UID := Text(uid)];
      properties := properties[FIELD_TEMPLATE_HASH := Text(hash)];
      properties := properties[FIELD_ORIGIN := AUTO];
      relationships := relationships + [GraphRelationship(t.kind, hash, NormalizeUpdatePolicy(f, t.updatePolicy),
                                                          t.expirationMinutes, source.value, target.value, properties, uid)];
      failed := None;
    }

    method AddNodes(f: Foreign, ts: seq<NodeTemplate>, d: Datapoint) returns (failed: Option<RuleError>)
      modifies this`nodes
      ensures match PlanNodes(f, ts, d)
        case Ok(more) => failed == None && nodes == old(nodes) + more
        case Err(e) => failed == Some(e)
    {
      hide PlanNode;
      ghost var added: seq<GraphNode> := [];
      for i := 0 to |ts|
        invariant Continues(PlanNodes(f, ts, d), added, PlanNodes(f, ts[i..], d))
        invariant nodes == old(nodes) + added
      {
        assert ts[i..][0] == ts[i] && ts[i..][1..] == ts[i + 1..];
        failed := AddNode(f, ts[i], d);
        if failed.Some? {
          return;
        }
        ContinuesNext(PlanNodes(f, ts, d), added, PlanNode(f, ts[i], d).value, PlanNodes(f, ts[i..], d), PlanNodes(f, ts[i + 1..], d));
        added := added + Listed(PlanNode(f, ts[i], d).value);
      }
      failed := None;
    }

    method AddRelationships(f: Foreign, ts: seq<RelationshipTemplate>, d: Datapoint) returns (failed: Option<RuleError>)
      modifies this`relationships
      ensures match PlanRelationships(f, ts, d)
        case Ok(more) => failed == None && relationships == old(relationships) + more
        case Err(e) => failed == Some(e)
    {
      hide PlanRelationship;
      ghost var added: seq<GraphRelationship> := [];
      for i := 0 to |ts|
        invariant Continues(PlanRelationships(f, ts, d), added, PlanRelationships(f, ts[i..], d))
        invariant relationships == old(relationships) + added
      {
        assert ts[i..][0] == ts[i] && ts[i..][1..] == ts[i + 1..];
        failed := AddRelationship(f, ts[i], d);
        if failed.Some? {
          return;
        }
        ContinuesNext(PlanRelationships(f, ts, d), added, PlanRelationship(f, ts[i], d).value,
                      PlanRelationships(f, ts[i..], d), PlanRelationships(f, ts[i + 1..], d));
        added := added + Listed(PlanRelationship(f, ts[i], d).value);
      }
      failed := None;
    }
  }

  method Plan(f: Foreign, job: Job, d: Datapoint) returns (r: Result<MutationPlan, RuleError>)
    ensures r == PlanOf(f, job, d)
  {
    hide PlanNodes, PlanRelationships;
    var plan := new PlanBuilder();
    var failed := plan.AddNodes(f, job.nodes, d);
    if failed.Some? {
      return Err(failed.value);
    }
    assert plan.nodes == PlanNodes(f, job.nodes, d).value;
    failed := plan.AddRelationships(f, job.relationships, d);
    if failed.Some? {
      return Err(failed.value);
    }
    assert plan.relationships == PlanRelationships(f, job.relationships, d).value;
    r := Ok(MutationPlan(plan.nodes, plan.relationships));
  }
}
