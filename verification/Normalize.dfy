/**
 * The normalizers that run before validation (internal/config/model.go): defaults, legacy
 * selector attributes and trimmed transforms. Normalizing again changes nothing, and a
 * normalized job plans as the original does unless a transform's property was not trimmed.
 */
module Normalize {
  import opened Prelude
  import opened Strings
  import opened Values
  import opened Domain
  import opened Config
  import opened Rules
  import opened RuleLaws
  import opened Planner
  import opened Validate

  /* ----- policies ----- */

  function NormalizedPolicy(raw: string): string {
    if TrimSpace(raw) == "" then "create" else raw
  }

  lemma CreateIsLower(f: Foreign)
    requires Lawful(f)
    ensures f.lower("create") == "create" && f.lower("") == ""
  {
    assert LowerAscii("create") == "create" && LowerAscii("") == "";
  }

  /** The default policy changes neither validity nor meaning. */
  lemma NormalizedPolicyMeansTheSame(f: Foreign, raw: string)
    requires Lawful(f)
    ensures NormalizeUpdatePolicy(f, NormalizedPolicy(raw)) == NormalizeUpdatePolicy(f, raw)
    ensures ValidPolicy(f, NormalizedPolicy(raw)) <==> ValidPolicy(f, raw)
    ensures NormalizedPolicy(NormalizedPolicy(raw)) == NormalizedPolicy(raw)
  {
    hide Lawful, TrimSpace;
    CreateIsLower(f);
    TrimmedIsFixed("create");
  }

  lemma SpelledLower(f: Foreign, text: string, name: string)
    requires Lawful(f) && Ascii(text) && LowerAscii(name) == name
    ensures f.lower(text) == name <==> SameLetters(text, name)
  {
    if SameLetters(text, name) {
      forall i | 0 <= i < |text|
        ensures LowerAscii(text)[i] == name[i]
      {
        assert LowerAscii(name)[i] == name[i];
      }
      assert LowerAscii(text) == name;
    } else if LowerAscii(text) == name {
      forall i | 0 <= i < |text|
        ensures LowerChar(text[i]) == LowerChar(name[i])
      {
        assert LowerAscii(text)[i] == name[i] && LowerAscii(name)[i] == name[i];
      }
    }
  }

  /**
   * What an ASCII policy text selects, in any mixture of cases and with outer white space:
   * one spelling of merge, three of merge_at_change, and a valid one otherwise is blank or create.
   */
  lemma PolicyNamesMean(f: Foreign, raw: string)
    requires Lawful(f) && Ascii(TrimSpace(raw))
    ensures var text, policy := TrimSpace(raw), NormalizeUpdatePolicy(f, raw);
      && (policy.Merge? <==> SameLetters(text, "merge"))
      && (policy.MergeAtChange? <==>
            SameLetters(text, "merge_at_change") || SameLetters(text, "mergeatchange") || SameLetters(text, "merge-at-change"))
      && (ValidPolicy(f, raw) && policy.Create? <==> text == "" || SameLetters(text, "create"))
  {
    hide Lawful, TrimSpace, SameLetters, Ascii;
    PolicyNamesAreLower();
    var text := TrimSpace(raw);
    SpelledLower(f, text, "");
    SpelledLower(f, text, "create");
    SpelledLower(f, text, "merge");
    SpelledLower(f, text, "merge_at_change");
    SpelledLower(f, text, "mergeatchange");
    SpelledLower(f, text, "merge-at-change");
    NoLetters(text);
  }

  lemma NoLetters(text: string)
    ensures SameLetters(text, "") <==> text == ""
  {
  }

  lemma PolicyNamesAreLower()
    ensures forall s :: s in {"", "create", "merge", "merge_at_change", "mergeatchange", "merge-at-change"} ==> LowerAscii(s) == s
    ensures |"merge"| < |"create"| < |"mergeatchange"| < |"merge_at_change"| == |"merge-at-change"|
  {
    forall s | s in {"", "create", "merge", "merge_at_change", "mergeatchange", "merge-at-change"}
      ensures LowerAscii(s) == s
    {
    }
  }

  predicate Slashed(pattern: string) {
    |pattern| >= 2 && pattern[0] == '/' && pattern[|pattern| - 1] == '/'
  }

  /** Slashes around a pattern are optional. */
  lemma SlashesAreOptional(pattern: string)
    requires !Slashed(TrimSpace(pattern))
    ensures NormalizeRegexPattern("/" + pattern + "/") == NormalizeRegexPattern(pattern)
  {
    var slashed := "/" + pattern + "/";
    assert Trimmed(slashed);
    TrimmedIsFixed(slashed);
    assert slashed[1..|slashed| - 1] == pattern;
  }

  /* ----- transforms ----- */

  function NormalizedProcess(f: Foreign, p: Process): Process {
    p.(kind := NormalizeProcessType(f, p.kind), pattern := TrimSpace(p.pattern))
  }

  function NormalizedProcesses(f: Foreign, ps: seq<Process>): seq<Process> {
    seq(|ps|, i requires 0 <= i < |ps| => NormalizedProcess(f, ps[i]))
  }

  function NormalizedTransform(f: Foreign, t: Transform): Transform {
    Transform(TrimSpace(t.property), NormalizedProcesses(f, t.process))
  }

  /** Upper-casing twice is upper-casing once, adds no outer white space and makes nothing from nothing. */
  ghost predicate UpperSettles(f: Foreign) {
    f.upper("") == "" && forall s :: Trimmed(s) ==> Trimmed(f.upper(s)) && f.upper(f.upper(s)) == f.upper(s)
  }

  lemma NormalizedKindIsFixed(f: Foreign, kind: string)
    requires UpperSettles(f)
    ensures NormalizeProcessType(f, NormalizeProcessType(f, kind)) == NormalizeProcessType(f, kind)
    ensures TrimSpace(NormalizeProcessType(f, kind)) == NormalizeProcessType(f, kind)
    ensures TrimSpace(kind) == "" ==> NormalizeProcessType(f, kind) == ""
  {
    TrimSpaceTrims(kind);
    TrimmedIsFixed(f.upper(TrimSpace(kind)));
  }

  /** The engine and the validator see the same processor before and after normalization. */
  lemma NormalizedProcessMeansTheSame(f: Foreign, v: Value, p: Process)
    requires UpperSettles(f)
    ensures ApplyProcess(f, v, NormalizedProcess(f, p)) == ApplyProcess(f, v, p)
    ensures NormalizedProcess(f, NormalizedProcess(f, p)) == NormalizedProcess(f, p)
    ensures ValidProcess(f, NormalizedProcess(f, p)) <==> ValidProcess(f, p)
  {
    hide UpperSettles, TrimSpace;
    NormalizedKindIsFixed(f, p.kind);
    TrimSpaceTrims(p.pattern);
    TrimmedIsFixed(TrimSpace(p.pattern));
  }

  lemma {:induction false} NormalizedChainMeansTheSame(f: Foreign, v: Value, ps: seq<Process>)
    requires UpperSettles(f)
    ensures RunProcesses(f, v, NormalizedProcesses(f, ps)) == RunProcesses(f, v, ps)
    decreases |ps|
  {
    hide ApplyProcess, NormalizedProcess, UpperSettles;
    if ps != [] {
      NormalizedProcessMeansTheSame(f, v, ps[0]);
      assert NormalizedProcesses(f, ps)[1..] == NormalizedProcesses(f, ps[1..]);
      match ApplyProcess(f, v, ps[0])
      case Ok(next) => NormalizedChainMeansTheSame(f, next, ps[1..]);
      case Err(_) =>
    }
  }

  /**
   * A normalized transform does to the trimmed property name what the original would do
   * under that name.
   */
  lemma NormalizedTransformMeans(f: Foreign, props: Props, t: Transform)
    requires UpperSettles(f)
    ensures ApplyTransform(f, props, NormalizedTransform(f, t)) == ApplyTransform(f, props, t.(property := TrimSpace(t.property)))
    ensures NormalizedTransform(f, NormalizedTransform(f, t)) == NormalizedTransform(f, t)
  {
    hide UpperSettles, TrimSpace, RunProcesses, NormalizedProcess;
    TrimSpaceTrims(t.property);
    TrimmedIsFixed(TrimSpace(t.property));
    if TrimSpace(t.property) in props {
      NormalizedChainMeansTheSame(f, props[TrimSpace(t.property)], t.process);
    }
    var once := NormalizedProcesses(f, t.process);
    forall i | 0 <= i < |once|
      ensures NormalizedProcess(f, once[i]) == once[i]
    {
      NormalizedProcessMeansTheSame(f, Null, t.process[i]);
    }
    assert NormalizedProcesses(f, once) == once;
  }

  /** The processors leave every value alone. */
  ghost predicate DoesNothing(f: Foreign, ps: seq<Process>) {
    forall v :: RunProcesses(f, v, ps) == Ok(v)
  }

  lemma TransformOfNothing(f: Foreign, props: Props, t: Transform)
    requires DoesNothing(f, t.process)
    ensures ApplyTransform(f, props, t) == Ok(props)
  {
    hide RunProcesses;
    assert t.property in props ==> props[t.property := props[t.property]] == props;
  }

  /** Normalization keeps what a transform does to every map exactly when its name was trimmed, or it does nothing at all. */
  lemma NormalizationKeepsTransformExactly(f: Foreign, t: Transform)
    requires UpperSettles(f)
    ensures (forall props :: ApplyTransform(f, props, NormalizedTransform(f, t)) == ApplyTransform(f, props, t))
      <==> Trimmed(t.property) || DoesNothing(f, t.process)
  {
    hide UpperSettles, TrimSpace, RunProcesses, NormalizedProcesses, Trimmed;
    TrimSpaceTrims(t.property);
    if Trimmed(t.property) || DoesNothing(f, t.process) {
      forall props
        ensures ApplyTransform(f, props, NormalizedTransform(f, t)) == ApplyTransform(f, props, t)
      {
        NormalizedTransformMeans(f, props, t);
        if Trimmed(t.property) {
          TrimmedIsFixed(t.property);
        } else {
          TransformOfNothing(f, props, t);
          TransformOfNothing(f, props, t.(property := TrimSpace(t.property)));
        }
      }
    } else {
      var v :| RunProcesses(f, v, t.process) != Ok(v);
      var props: Props := map[t.property := v];
      assert TrimSpace(t.property) !in props;
      assert ApplyTransform(f, props, NormalizedTransform(f, t)) == Ok(props) && props[t.property] == v;
      assert ApplyTransform(f, props, t) != Ok(props);
    }
  }

  function NormalizedTransforms(f: Foreign, ts: seq<Transform>): (r: seq<Transform>)
    ensures |r| == |ts|
  {
    seq(|ts|, i requires 0 <= i < |ts| => NormalizedTransform(f, ts[i]))
  }

  /** No normalized transform names a property with outer white space. */
  lemma {:induction false} UntrimmedHasNoProcesses(f: Foreign, ts: seq<Transform>, key: string)
    requires !Trimmed(key)
    ensures ProcessesFor(key, NormalizedTransforms(f, ts)) == []
  {
    hide TrimSpace, NormalizedProcesses;
    if ts != [] {
      TrimSpaceTrims(ts[0].property);
      assert NormalizedTransforms(f, ts)[1..] == NormalizedTransforms(f, ts[1..]);
      UntrimmedHasNoProcesses(f, ts[1..], key);
    }
  }

  /** So such a property keeps its value, whatever the transforms are. */
  lemma UntrimmedPropertyIsMissed(f: Foreign, props: Props, ts: seq<Transform>, key: string)
    requires !Trimmed(key) && key in props && ApplyTransforms(f, props, NormalizedTransforms(f, ts)).Ok?
    ensures ApplyTransforms(f, props, NormalizedTransforms(f, ts)).value[key] == props[key]
  {
    hide ApplyTransforms, NormalizedTransforms, Trimmed;
    UntrimmedHasNoProcesses(f, ts, key);
    TransformsPerProperty(f, props, NormalizedTransforms(f, ts));
  }

  /** The rules fail silently: with any untrimmed user name they are valid and the value stays as configured. */
  lemma MissedRulesAreValid(f: Foreign, rules: PropertyRules, t: Transform, v: Value, d: Datapoint)
    requires UpperSettles(f) && !Trimmed(t.property) && ValidTransform(f, t, true)
    requires rules == PropertyRules(map[t.property := v], map[], [], NormalizedTransforms(f, [t]))
    ensures ValidRules(f, rules) && ResolvedProperties(f, rules, d) == Ok(map[t.property := v])
  {
    hide UpperSettles, TrimSpace, RunProcesses, ValidProcess, NormalizedProcess;
    var next := NormalizedTransform(f, t);
    assert NormalizedTransforms(f, [t]) == [next];
    NormalizedTransformIsValid(f, t, true);
    TrimSpaceTrims(t.property);
    assert FoundLabels(f, map[], d) == map[];
    var props: Props := map[t.property := v];
    assert rules.staticProps + FoundLabels(f, map[], d) == props;
    assert next.property !in props;
    assert ApplyTransform(f, props, next) == Ok(props) && [next][1..] == [];
    assert ApplyTransforms(f, props, [next]) == Ok(props);
  }

  lemma NormalizedTransformIsValid(f: Foreign, t: Transform, userNames: bool)
    requires UpperSettles(f)
    ensures ValidTransform(f, NormalizedTransform(f, t), userNames) <==> ValidTransform(f, t, userNames)
  {
    hide UpperSettles, TrimSpace, ValidProcess, NormalizedProcess, Reserved;
    TrimSpaceTrims(t.property);
    TrimmedIsFixed(TrimSpace(t.property));
    var once := NormalizedProcesses(f, t.process);
    forall i | 0 <= i < |once|
      ensures ValidProcess(f, once[i]) <==> ValidProcess(f, t.process[i])
    {
      NormalizedProcessMeansTheSame(f, Null, t.process[i]);
    }
    if forall p :: p in once ==> ValidProcess(f, p) {
      forall p | p in t.process
        ensures ValidProcess(f, p)
      {
        var i :| 0 <= i < |t.process| && t.process[i] == p;
        assert once[i] in once;
      }
    }
  }

  /** The loop over the transforms of a template or an endpoint. */
  method NormalizeTransforms(f: Foreign, ts: seq<Transform>) returns (out: seq<Transform>)
    ensures out == NormalizedTransforms(f, ts)
  {
    hide NormalizedTransform;
    out := [];
    for i := 0 to |ts|
      invariant |out| == i && forall k :: 0 <= k < i ==> out[k] == NormalizedTransform(f, ts[k])
    {
      var process: seq<Process> := [];
      for j := 0 to |ts[i].process|
        invariant |process| == j && forall k :: 0 <= k < j ==> process[k] == NormalizedProcess(f, ts[i].process[k])
      {
        process := process + [NormalizedProcess(f, ts[i].process[j])];
      }
      assert process == NormalizedProcesses(f, ts[i].process);
      out := out + [Transform(TrimSpace(ts[i].property), process)];
      assert out[i] == NormalizedTransform(f, ts[i]) by {
        NormalizedTransformIs(f, ts[i]);
      }
    }
  }

  lemma NormalizedTransformIs(f: Foreign, t: Transform)
    ensures NormalizedTransform(f, t) == Transform(TrimSpace(t.property), NormalizedProcesses(f, t.process))
  {
  }

  /* ----- legacy selector attributes ----- */

  function NestedStatic(legacyLabels: Props): Props {
    if "static" in legacyLabels && legacyLabels["static"].Dict? then legacyLabels["static"].entries else map[]
  }

  function LegacyLabels(f: Foreign, legacyLabels: Props): map<string, string> {
    map k | k in legacyLabels && k != "static" && legacyLabels[k] != Null :: f.sprint(legacyLabels[k])
  }

  class EndpointConfig {
    var staticAttrs: Props
    var labelAttrs: map<string, string>
    var priorTransform: seq<Transform>
    const legacyStatic: Props
    const legacyLabels: Props

    constructor (staticAttrs: Props, labelAttrs: map<string, string>, priorTransform: seq<Transform>,
                 legacyStatic: Props, legacyLabels: Props)
      ensures this.staticAttrs == staticAttrs && this.labelAttrs == labelAttrs && this.priorTransform == priorTransform
      ensures this.legacyStatic == legacyStatic && this.legacyLabels == legacyLabels
    {
      this.staticAttrs, this.labelAttrs, this.priorTransform := staticAttrs, labelAttrs, priorTransform;
      this.legacyStatic, this.legacyLabels := legacyStatic, legacyLabels;
    }

    /** Legacy attributes override current ones, in whatever order the maps yield them; prior transforms are normalized. */
    method Normalize(f: Foreign)
      modifies this
      ensures staticAttrs == old(staticAttrs) + legacyStatic + NestedStatic(legacyLabels)
      ensures labelAttrs == old(labelAttrs) + LegacyLabels(f, legacyLabels)
      ensures priorTransform == NormalizedTransforms(f, old(priorTransform))
    {
      priorTransform := NormalizeTransforms(f, priorTransform);
      MergeStatic(legacyStatic);
      ghost var legacy := LegacyLabels(f, legacyLabels);
      var rest := legacyLabels.Keys;
      assert legacy - rest == map[];
      while rest != {}
        invariant rest <= legacyLabels.Keys && priorTransform == NormalizedTransforms(f, old(priorTransform))
        invariant staticAttrs == old(staticAttrs) + legacyStatic + (if "static" in rest then map[] else NestedStatic(legacyLabels))
        invariant labelAttrs == old(labelAttrs) + (legacy - rest)
      {
        var key :| key in rest;
        VisitLabel(old(labelAttrs), legacy, rest, key);
        rest := rest - {key};
        if key == "static" {
          if legacyLabels[key].Dict? {
            MergeStatic(legacyLabels[key].entries);
          }
          continue;
        }
        if legacyLabels[key] != Null {
          labelAttrs := labelAttrs[key := f.sprint(legacyLabels[key])];
        }
      }
      assert legacy - {} == legacy;
    }

    method MergeStatic(more: Props)
      modifies this`staticAttrs
      ensures staticAttrs == old(staticAttrs) + more
    {
      var rest := more.Keys;
      assert more - rest == map[];
      while rest != {}
        invariant rest <= more.Keys && staticAttrs == old(staticAttrs) + (more - rest)
      {
        var key :| key in rest;
        VisitOne(old(staticAttrs), more, rest, key);
        rest := rest - {key};
        staticAttrs := staticAttrs[key := more[key]];
      }
      assert more - {} == more;
    }
  }

  lemma VisitLabel(base: map<string, string>, found: map<string, string>, rest: set<string>, name: string)
    requires name in rest
    ensures base + (found - (rest - {name})) ==
      if name in found then (base + (found - rest))[name := found[name]] else base + (found - rest)
  {
  }

  /**
   * The merged attributes, key by key: a value nested under legacy labels' `static` wins, then
   * a legacy static value, then the current one; a legacy label that is not null wins over a current one.
   */
  lemma LegacyAttributesMean(f: Foreign, staticAttrs: Props, labelAttrs: map<string, string>, legacyStatic: Props,
                             legacyLabels: Props, nested: Props, key: string)
    requires if "static" in legacyLabels && legacyLabels["static"].Dict? then legacyLabels["static"] == Dict(nested) else nested == map[]
    ensures var merged := staticAttrs + legacyStatic + NestedStatic(legacyLabels);
      if key in nested then key in merged && merged[key] == nested[key]
      else if key in legacyStatic then key in merged && merged[key] == legacyStatic[key]
      else key in merged <==> key in staticAttrs && merged[key] == staticAttrs[key]
    ensures var merged := labelAttrs + LegacyLabels(f, legacyLabels);
      if key in legacyLabels && key != "static" && legacyLabels[key] != Null
      then key in merged && merged[key] == f.sprint(legacyLabels[key])
      else key in merged <==> key in labelAttrs && merged[key] == labelAttrs[key]
  {
  }

  /** Normalizing twice is normalizing once. */
  lemma LegacyMergeIsIdempotent(f: Foreign, staticAttrs: Props, labelAttrs: map<string, string>, legacyStatic: Props, legacyLabels: Props)
    ensures var once := staticAttrs + legacyStatic + NestedStatic(legacyLabels);
      once + legacyStatic + NestedStatic(legacyLabels) == once
    ensures var once := labelAttrs + LegacyLabels(f, legacyLabels);
      once + LegacyLabels(f, legacyLabels) == once
  {
  }

  /* ----- templates, jobs and targets ----- */

  function NormalizedRules(f: Foreign, rules: PropertyRules): PropertyRules {
    rules.(transforms := NormalizedTransforms(f, rules.transforms))
  }

  function NormalizedNode(f: Foreign, t: NodeTemplate): NodeTemplate {
    t.(updatePolicy := NormalizedPolicy(t.updatePolicy), rules := NormalizedRules(f, t.rules))
  }

  /** An endpoint without legacy attributes; those are EndpointConfig's. */
  function NormalizedEndpoint(f: Foreign, e: Endpoint): Endpoint {
    e.(priorTransform := NormalizedTransforms(f, e.priorTransform))
  }

  function NormalizedRelationship(f: Foreign, t: RelationshipTemplate): RelationshipTemplate {
    t.(updatePolicy := NormalizedPolicy(t.updatePolicy), rules := NormalizedRules(f, t.rules),
       source := NormalizedEndpoint(f, t.source), target := NormalizedEndpoint(f, t.target))
  }

  function NormalizedNodes(f: Foreign, ts: seq<NodeTemplate>): (r: seq<NodeTemplate>)
    ensures |r| == |ts|
  {
    seq(|ts|, i requires 0 <= i < |ts| => NormalizedNode(f, ts[i]))
  }

  function NormalizedRelationships(f: Foreign, ts: seq<RelationshipTemplate>): (r: seq<RelationshipTemplate>)
    ensures |r| == |ts|
  {
    seq(|ts|, i requires 0 <= i < |ts| => NormalizedRelationship(f, ts[i]))
  }

  function OrDefault(seconds: int, default_: int): int {
    if seconds <= 0 then default_ else seconds
  }

  function NormalizedJob(f: Foreign, job: Job, default_: int): Job {
    job.(intervalSeconds := OrDefault(job.intervalSeconds, default_),
         nodes := NormalizedNodes(f, job.nodes), relationships := NormalizedRelationships(f, job.relationships))
  }

  /** A target with its timeout and the default interval of its jobs. */
  datatype TargetConfig = TargetConfig(target: Target, timeoutSeconds: int, defaultIntervalSeconds: int)

  const DEFAULT_TIMEOUT: int := 10
  const DEFAULT_INTERVAL: int := 60

  function NormalizedJobs(f: Foreign, jobs: seq<Job>, default_: int): (r: seq<Job>)
    ensures |r| == |jobs|
  {
    seq(|jobs|, i requires 0 <= i < |jobs| => NormalizedJob(f, jobs[i], default_))
  }

  function NormalizedTarget(f: Foreign, t: TargetConfig): TargetConfig {
    var interval := OrDefault(t.defaultIntervalSeconds, DEFAULT_INTERVAL);
    TargetConfig(t.target.(jobs := NormalizedJobs(f, t.target.jobs, interval)), OrDefault(t.timeoutSeconds, DEFAULT_TIMEOUT), interval)
  }

  method NormalizeNodes(f: Foreign, ts: seq<NodeTemplate>) returns (out: seq<NodeTemplate>)
    ensures out == NormalizedNodes(f, ts)
  {
    hide NormalizedTransforms;
    out := [];
    for i := 0 to |ts|
      invariant |out| == i && forall k :: 0 <= k < i ==> out[k] == NormalizedNode(f, ts[k])
    {
      var t := ts[i];
      if TrimSpace(t.updatePolicy) == "" {
        t := t.(updatePolicy := "create");
      }
      var transforms := NormalizeTransforms(f, t.rules.transforms);
      out := out + [t.(rules := t.rules.(transforms := transforms))];
    }
  }

  method NormalizeRelationships(f: Foreign, ts: seq<RelationshipTemplate>) returns (out: seq<RelationshipTemplate>)
    ensures out == NormalizedRelationships(f, ts)
  {
    hide NormalizedTransforms;
    out := [];
    for i := 0 to |ts|
      invariant |out| == i && forall k :: 0 <= k < i ==> out[k] == NormalizedRelationship(f, ts[k])
    {
      var t := ts[i];
      if TrimSpace(t.updatePolicy) == "" {
        t := t.(updatePolicy := "create");
      }
      var transforms := NormalizeTransforms(f, t.rules.transforms);
      var source := NormalizeTransforms(f, t.source.priorTransform);
      var target := NormalizeTransforms(f, t.target.priorTransform);
      out := out + [t.(rules := t.rules.(transforms := transforms),
                       source := t.source.(priorTransform := source), target := t.target.(priorTransform := target))];
    }
  }

  method NormalizeTarget(f: Foreign, config: TargetConfig) returns (out: TargetConfig)
    ensures out == NormalizedTarget(f, config)
  {
    out := config;
    if out.timeoutSeconds <= 0 {
      out := out.(timeoutSeconds := 10);
    }
    if out.defaultIntervalSeconds <= 0 {
      out := out.(defaultIntervalSeconds := 60);
    }
    var jobs: seq<Job> := [];
    for i := 0 to |config.target.jobs|
      invariant |jobs| == i && forall k :: 0 <= k < i ==> jobs[k] == NormalizedJob(f, config.target.jobs[k], out.defaultIntervalSeconds)
    {
      var job := config.target.jobs[i];
      if job.intervalSeconds <= 0 {
        job := job.(intervalSeconds := out.defaultIntervalSeconds);
      }
      var nodes := NormalizeNodes(f, job.nodes);
      var relationships := NormalizeRelationships(f, job.relationships);
      jobs := jobs + [job.(nodes := nodes, relationships := relationships)];
    }
    out := out.(target := out.target.(jobs := jobs));
  }

  /** FileConfig.Normalize: every target in turn; afterwards every timeout and interval is positive, and configured ones are kept. */
  method NormalizeFileConfig(f: Foreign, targets: seq<TargetConfig>) returns (out: seq<TargetConfig>)
    ensures |out| == |targets| && forall k :: 0 <= k < |targets| ==> out[k] == NormalizedTarget(f, targets[k])
    ensures forall k :: 0 <= k < |targets| ==> PositiveTimes(out[k]) && KeepsTimes(targets[k], out[k])
  {
    hide NormalizedTarget;
    out := [];
    for i := 0 to |targets|
      invariant |out| == i && forall k :: 0 <= k < i ==> out[k] == NormalizedTarget(f, targets[k])
    {
      var target := NormalizeTarget(f, targets[i]);
      out := out + [target];
    }
    forall k | 0 <= k < |targets|
      ensures PositiveTimes(out[k]) && KeepsTimes(targets[k], out[k])
    {
      NormalizedTimes(f, targets[k]);
    }
  }

  predicate PositiveTimes(t: TargetConfig) {
    t.timeoutSeconds > 0 && t.defaultIntervalSeconds > 0 && forall job :: job in t.target.jobs ==> job.intervalSeconds > 0
  }

  predicate KeepsTimes(before: TargetConfig, after: TargetConfig) {
    && after.timeoutSeconds == (if before.timeoutSeconds > 0 then before.timeoutSeconds else 10)
    && after.defaultIntervalSeconds == (if before.defaultIntervalSeconds > 0 then before.defaultIntervalSeconds else 60)
    && |after.target.jobs| == |before.target.jobs|
    && forall i :: 0 <= i < |before.target.jobs| ==>
         after.target.jobs[i].intervalSeconds ==
           if before.target.jobs[i].intervalSeconds > 0 then before.target.jobs[i].intervalSeconds
           else if before.defaultIntervalSeconds > 0 then before.defaultIntervalSeconds
           else 60
  }

  lemma NormalizedTimes(f: Foreign, t: TargetConfig)
    ensures PositiveTimes(NormalizedTarget(f, t)) && KeepsTimes(t, NormalizedTarget(f, t))
  {
    hide NormalizedNodes, NormalizedRelationships;
  }

  /* ----- what is normal about a normalized target ----- */

  predicate NormalProcess(before: Process, after: Process) {
    && after.output == before.output && after.pattern == TrimSpace(before.pattern) && Trimmed(after.kind)
    && (Ascii(TrimSpace(before.kind)) ==> SameLetters(after.kind, TrimSpace(before.kind)) && NoneBetween(after.kind, 'a', 'z'))
  }

  predicate NormalTransform(before: Transform, after: Transform) {
    && after.property == TrimSpace(before.property) && |after.process| == |before.process|
    && forall j :: 0 <= j < |before.process| ==> NormalProcess(before.process[j], after.process[j])
  }

  predicate NormalTransforms(before: seq<Transform>, after: seq<Transform>) {
    |after| == |before| && forall i :: 0 <= i < |before| ==> NormalTransform(before[i], after[i])
  }

  predicate NormalPolicy(before: string, after: string) {
    after == if TrimSpace(before) == "" then "create" else before
  }

  /** Only the policy and the transforms differ. */
  predicate NormalNode(before: NodeTemplate, after: NodeTemplate) {
    && NormalPolicy(before.updatePolicy, after.updatePolicy)
    && NormalTransforms(before.rules.transforms, after.rules.transforms)
    && after == before.(updatePolicy := after.updatePolicy, rules := before.rules.(transforms := after.rules.transforms))
  }

  predicate NormalEndpoint(before: Endpoint, after: Endpoint) {
    && NormalTransforms(before.priorTransform, after.priorTransform)
    && after == before.(priorTransform := after.priorTransform)
  }

  predicate NormalRelationship(before: RelationshipTemplate, after: RelationshipTemplate) {
    && NormalPolicy(before.updatePolicy, after.updatePolicy)
    && NormalTransforms(before.rules.transforms, after.rules.transforms)
    && NormalEndpoint(before.source, after.source) && NormalEndpoint(before.target, after.target)
    && after == before.(updatePolicy := after.updatePolicy, rules := before.rules.(transforms := after.rules.transforms),
                        source := after.source, target := after.target)
  }

  predicate NormalJob(before: Job, after: Job) {
    && |after.nodes| == |before.nodes| && |after.relationships| == |before.relationships|
    && (forall i :: 0 <= i < |before.nodes| ==> NormalNode(before.nodes[i], after.nodes[i]))
    && (forall i :: 0 <= i < |before.relationships| ==> NormalRelationship(before.relationships[i], after.relationships[i]))
    && after == before.(intervalSeconds := after.intervalSeconds, nodes := after.nodes, relationships := after.relationships)
  }

  lemma ProcessIsNormal(f: Foreign, p: Process)
    requires UpperSettles(f) && Lawful(f)
    ensures NormalProcess(p, NormalizedProcess(f, p))
  {
    hide TrimSpace, UpperAscii;
    TrimSpaceTrims(p.kind);
    if Ascii(TrimSpace(p.kind)) {
      UpperMeans(f, TrimSpace(p.kind));
    }
  }

  lemma TransformsAreNormal(f: Foreign, ts: seq<Transform>)
    requires UpperSettles(f) && Lawful(f)
    ensures NormalTransforms(ts, NormalizedTransforms(f, ts))
  {
    hide UpperSettles, Lawful, TrimSpace, NormalProcess, NormalizedProcess;
    forall i, j | 0 <= i < |ts| && 0 <= j < |ts[i].process|
      ensures NormalProcess(ts[i].process[j], NormalizedTransforms(f, ts)[i].process[j])
    {
      ProcessIsNormal(f, ts[i].process[j]);
    }
  }

  lemma NodeIsNormal(f: Foreign, t: NodeTemplate)
    requires UpperSettles(f) && Lawful(f)
    ensures NormalNode(t, NormalizedNode(f, t))
  {
    hide UpperSettles, Lawful, TrimSpace, NormalTransforms, NormalizedTransforms;
    TransformsAreNormal(f, t.rules.transforms);
  }

  lemma RelationshipIsNormal(f: Foreign, t: RelationshipTemplate)
    requires UpperSettles(f) && Lawful(f)
    ensures NormalRelationship(t, NormalizedRelationship(f, t))
  {
    hide UpperSettles, Lawful, TrimSpace, NormalTransforms, NormalizedTransforms;
    TransformsAreNormal(f, t.rules.transforms);
    TransformsAreNormal(f, t.source.priorTransform);
    TransformsAreNormal(f, t.target.priorTransform);
  }

  /** In every template of every job, and at both ends, transforms are trimmed and upper-cased and policies defaulted; all else is kept. */
  lemma TargetIsNormal(f: Foreign, t: TargetConfig)
    requires UpperSettles(f) && Lawful(f)
    ensures var after := NormalizedTarget(f, t).target;
      && |after.jobs| == |t.target.jobs| && after == t.target.(jobs := after.jobs)
      && forall i :: 0 <= i < |after.jobs| ==> NormalJob(t.target.jobs[i], after.jobs[i])
  {
    hide UpperSettles, Lawful, NormalNode, NormalRelationship, NormalizedNode, NormalizedRelationship;
    forall i | 0 <= i < |t.target.jobs|
      ensures NormalJob(t.target.jobs[i], NormalizedTarget(f, t).target.jobs[i])
    {
      var job := t.target.jobs[i];
      forall k | 0 <= k < |job.nodes|
        ensures NormalNode(job.nodes[k], NormalizedNode(f, job.nodes[k]))
      {
        NodeIsNormal(f, job.nodes[k]);
      }
      forall k | 0 <= k < |job.relationships|
        ensures NormalRelationship(job.relationships[k], NormalizedRelationship(f, job.relationships[k]))
      {
        RelationshipIsNormal(f, job.relationships[k]);
      }
    }
  }

  /* ----- normalized jobs plan as the originals do ----- */

  predicate TrimmedTransforms(ts: seq<Transform>) {
    forall t :: t in ts ==> Trimmed(t.property)
  }

  lemma {:induction false} NormalizedTransformsMeanTheSame(f: Foreign, props: Props, ts: seq<Transform>)
    requires UpperSettles(f) && TrimmedTransforms(ts)
    ensures ApplyTransforms(f, props, NormalizedTransforms(f, ts)) == ApplyTransforms(f, props, ts)
    decreases |ts|
  {
    hide UpperSettles, NormalizedTransform, ApplyTransform, Trimmed;
    if ts != [] {
      assert ts[0] in ts && forall t :: t in ts[1..] ==> t in ts;
      NormalizationKeepsTransformExactly(f, ts[0]);
      assert NormalizedTransforms(f, ts)[1..] == NormalizedTransforms(f, ts[1..]);
      match ApplyTransform(f, props, ts[0])
      case Ok(next) => NormalizedTransformsMeanTheSame(f, next, ts[1..]);
      case Err(_) =>
    }
  }

  predicate TrimmedNode(t: NodeTemplate) {
    TrimmedTransforms(t.rules.transforms)
  }

  predicate TrimmedRelationship(t: RelationshipTemplate) {
    && TrimmedTransforms(t.rules.transforms)
    && TrimmedTransforms(t.source.priorTransform) && TrimmedTransforms(t.target.priorTransform)
  }

  lemma RulesMeanTheSame(f: Foreign, rules: PropertyRules, d: Datapoint)
    requires UpperSettles(f) && TrimmedTransforms(rules.transforms)
    ensures ResolvedProperties(f, NormalizedRules(f, rules), d) == ResolvedProperties(f, rules, d)
  {
    hide UpperSettles, TrimmedTransforms, ApplyTransforms, NormalizedTransforms, ApplyConditionals, FoundLabels;
    var layered := ApplyConditionals(f, rules.staticProps + FoundLabels(f, rules.labelProps, d), rules.conditional, d);
    if layered.Ok? {
      NormalizedTransformsMeanTheSame(f, layered.value, rules.transforms);
    }
  }

  lemma NodePlansTheSame(f: Foreign, t: NodeTemplate, d: Datapoint)
    requires UpperSettles(f) && Lawful(f) && TrimmedNode(t)
    ensures PlanNode(f, NormalizedNode(f, t), d) == PlanNode(f, t, d)
  {
    hide UpperSettles, Lawful, ResolvedProperties, MatchConditions, NormalizedPolicy, NormalizeUpdatePolicy,
         NormalizedTypes, TrimSpace, NodeUID,
         NormalizedRules;
    RulesMeanTheSame(f, t.rules, d);
    NormalizedPolicyMeansTheSame(f, t.updatePolicy);
  }

  lemma EndpointMeansTheSame(f: Foreign, e: Endpoint, d: Datapoint)
    requires UpperSettles(f) && TrimmedTransforms(e.priorTransform)
    ensures ResolvedSelector(f, NormalizedEndpoint(f, e), d) == ResolvedSelector(f, e, d)
  {
    hide UpperSettles, TrimmedTransforms, ApplyTransforms, NormalizedTransforms, TokenValues;
    var values := TokenValues(f, e.labelAttrs, d);
    if values.Ok? {
      NormalizedTransformsMeanTheSame(f, values.value, e.priorTransform);
    }
  }

  lemma RelationshipPlansTheSame(f: Foreign, t: RelationshipTemplate, d: Datapoint)
    requires UpperSettles(f) && Lawful(f) && TrimmedRelationship(t)
    ensures PlanRelationship(f, NormalizedRelationship(f, t), d) == PlanRelationship(f, t, d)
  {
    hide UpperSettles, Lawful, ResolvedProperties, ResolvedSelector, MatchConditions, NormalizedPolicy,
         NormalizeUpdatePolicy, TrimSpace,
         RelationshipUID, NormalizedRules, NormalizedEndpoint, TrimmedTransforms;
    RulesMeanTheSame(f, t.rules, d);
    NormalizedPolicyMeansTheSame(f, t.updatePolicy);
    EndpointMeansTheSame(f, t.source, d);
    EndpointMeansTheSame(f, t.target, d);
  }

  lemma {:induction false} NodesPlanTheSame(f: Foreign, ts: seq<NodeTemplate>, d: Datapoint)
    requires UpperSettles(f) && Lawful(f) && forall t :: t in ts ==> TrimmedNode(t)
    ensures PlanNodes(f, NormalizedNodes(f, ts), d) == PlanNodes(f, ts, d)
    decreases |ts|
  {
    hide UpperSettles, Lawful, PlanNode, NormalizedNode, TrimmedNode;
    if ts != [] {
      assert ts[0] in ts && forall t :: t in ts[1..] ==> t in ts;
      NodePlansTheSame(f, ts[0], d);
      assert NormalizedNodes(f, ts)[1..] == NormalizedNodes(f, ts[1..]);
      NodesPlanTheSame(f, ts[1..], d);
    }
  }

  lemma {:induction false} RelationshipsPlanTheSame(f: Foreign, ts: seq<RelationshipTemplate>, d: Datapoint)
    requires UpperSettles(f) && Lawful(f) && forall t :: t in ts ==> TrimmedRelationship(t)
    ensures PlanRelationships(f, NormalizedRelationships(f, ts), d) == PlanRelationships(f, ts, d)
    decreases |ts|
  {
    hide UpperSettles, Lawful, PlanRelationship, NormalizedRelationship, TrimmedRelationship;
    if ts != [] {
      assert ts[0] in ts && forall t :: t in ts[1..] ==> t in ts;
      RelationshipPlansTheSame(f, ts[0], d);
      assert NormalizedRelationships(f, ts)[1..] == NormalizedRelationships(f, ts[1..]);
      RelationshipsPlanTheSame(f, ts[1..], d);
    }
  }

  /**
   * A normalized job plans every datapoint as the original does, errors included, if the
   * transforms name trimmed properties; NormalizationKeepsTransformExactly says what happens otherwise.
   */
  lemma NormalizedJobPlansTheSame(f: Foreign, job: Job, default_: int, d: Datapoint)
    requires UpperSettles(f) && Lawful(f)
    requires (forall t :: t in job.nodes ==> TrimmedNode(t)) && (forall t :: t in job.relationships ==> TrimmedRelationship(t))
    ensures PlanOf(f, NormalizedJob(f, job, default_), d) == PlanOf(f, job, d)
  {
    hide UpperSettles, Lawful, PlanNodes, PlanRelationships, NormalizedNodes, NormalizedRelationships, TrimmedNode,
         TrimmedRelationship;
    NodesPlanTheSame(f, job.nodes, d);
    RelationshipsPlanTheSame(f, job.relationships, d);
  }
}
