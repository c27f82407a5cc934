/**
 * The configuration validator (internal/config/validate.go): each validator is a method
 * with the source's early returns, proved to decide a predicate. Error texts are left out.
 */
module Validate {
  import opened Prelude
  import opened Strings
  import opened Values
  import opened Domain
  import opened Config
  import opened RegexOutput

  /* ----- conditions ----- */

  predicate ExactlyOne(a: bool, b: bool, c: bool, d: bool) {
    (a || b || c || d) && !(a && b) && !(a && c) && !(a && d) && !(b && c) && !(b && d) && !(c && d)
  }

  predicate ValidCondition(f: Foreign, c: Condition) {
    var kind := f.lower(TrimSpace(c.kind));
    var equals, notEquals := c.equals != Null, c.notEquals != Null;
    var greater, less := c.greaterThan.Some?, c.lessThan.Some?;
    || (kind == "label" && TrimSpace(c.label_) != "" && !greater && !less && equals != notEquals)
    || (kind == "label_exists" && TrimSpace(c.label_) != "" && !equals && !notEquals && !greater && !less)
    || (kind == "value" && ExactlyOne(equals, notEquals, greater, less))
  }

  predicate ValidConditions(f: Foreign, cs: seq<Condition>) {
    forall c :: c in cs ==> ValidCondition(f, c)
  }

  lemma KindsDiffer()
    ensures "label" != "label_exists" && "label" != "value" && "label_exists" != "value"
    ensures "static" != "label"
  {
  }

  method ValidateCondition(f: Foreign, c: Condition) returns (ok: bool)
    ensures ok <==> ValidCondition(f, c)
  {
    KindsDiffer();
    var kind := f.lower(TrimSpace(c.kind));
    var operatorCount := 0;
    if kind == "label" {
      if TrimSpace(c.label_) == "" {
        return false;
      }
      if c.equals != Null {
        operatorCount := operatorCount + 1;
      }
      if c.notEquals != Null {
        operatorCount := operatorCount + 1;
      }
      if c.greaterThan.Some? || c.lessThan.Some? {
        return false;
      }
      ok := operatorCount == 1;
    } else if kind == "label_exists" {
      if TrimSpace(c.label_) == "" {
        return false;
      }
      operatorCount := CountOperators(c);
      ok := operatorCount == 0;
    } else if kind == "value" {
      operatorCount := CountOperators(c);
      ok := operatorCount == 1;
    } else {
      ok := false;
    }
  }

  method CountOperators(c: Condition) returns (operatorCount: nat)
    ensures operatorCount == 0 <==> c.equals == Null && c.notEquals == Null && c.greaterThan.None? && c.lessThan.None?
    ensures operatorCount == 1 <==> ExactlyOne(c.equals != Null, c.notEquals != Null, c.greaterThan.Some?, c.lessThan.Some?)
  {
    operatorCount := 0;
    if c.equals != Null {
      operatorCount := operatorCount + 1;
    }
    if c.notEquals != Null {
      operatorCount := operatorCount + 1;
    }
    if c.greaterThan.Some? {
      operatorCount := operatorCount + 1;
    }
    if c.lessThan.Some? {
      operatorCount := operatorCount + 1;
    }
  }

  method ValidateConditions(f: Foreign, cs: seq<Condition>) returns (ok: bool)
    ensures ok <==> ValidConditions(f, cs)
  {
    hide ValidCondition;
    for index := 0 to |cs|
      invariant forall k :: 0 <= k < index ==> ValidCondition(f, cs[k])
    {
      var valid := ValidateCondition(f, cs[index]);
      if !valid {
        assert cs[index] in cs;
        return false;
      }
    }
    ok := true;
  }

  /* ----- property names and sources ----- */

  /** A name a user may give: not blank and outside the reserved prefix, after trimming. */
  predicate UserName(name: string) {
    TrimSpace(name) != "" && !Reserved(TrimSpace(name))
  }

  predicate ValidStaticProps(props: Props) {
    forall k :: k in props ==> UserName(k)
  }

  predicate ValidLabelProps(labels: map<string, string>) {
    forall k :: k in labels ==> UserName(k) && TrimSpace(labels[k]) != ""
  }

  method ValidateUserPropertyName(name: string) returns (ok: bool)
    ensures ok <==> UserName(name)
  {
    var propertyName := TrimSpace(name);
    if propertyName == "" {
      return false;
    }
    if APP_FIELD_PREFIX <= propertyName {
      return false;
    }
    ok := true;
  }

  method ValidateStaticProperties(props: Props) returns (ok: bool)
    ensures ok <==> ValidStaticProps(props)
  {
    hide UserName;
    var rest := props.Keys;
    while rest != {}
      invariant rest <= props.Keys
      invariant forall k :: k in props && k !in rest ==> UserName(k)
    {
      var key :| key in rest;
      var valid := ValidateUserPropertyName(key);
      if !valid {
        return false;
      }
      rest := rest - {key};
    }
    ok := true;
  }

  method ValidateDynamicProperties(labels: map<string, string>) returns (ok: bool)
    ensures ok <==> ValidLabelProps(labels)
  {
    hide UserName;
    var rest := labels.Keys;
    while rest != {}
      invariant rest <= labels.Keys
      invariant forall k :: k in labels && k !in rest ==> UserName(k) && TrimSpace(labels[k]) != ""
    {
      var key :| key in rest;
      var valid := ValidateUserPropertyName(key);
      if !valid {
        return false;
      }
      if TrimSpace(labels[key]) == "" {
        return false;
      }
      rest := rest - {key};
    }
    ok := true;
  }

  predicate ValidConditional(f: Foreign, c: ConditionalProperty) {
    var kind := f.lower(TrimSpace(c.kind));
    && UserName(c.name)
    && ((kind == "static" && c.value != Null) || (kind == "label" && TrimSpace(c.fromLabel) != ""))
    && c.conditions != [] && ValidConditions(f, c.conditions)
  }

  method ValidateConditionalProperties(f: Foreign, cs: seq<ConditionalProperty>) returns (ok: bool)
    ensures ok <==> forall c :: c in cs ==> ValidConditional(f, c)
  {
    hide ValidConditional;
    for index := 0 to |cs|
      invariant forall k :: 0 <= k < index ==> ValidConditional(f, cs[k])
    {
      var valid := ValidateConditionalProperty(f, cs[index]);
      if !valid {
        assert cs[index] in cs;
        return false;
      }
    }
    ok := true;
  }

  method ValidateConditionalProperty(f: Foreign, c: ConditionalProperty) returns (ok: bool)
    ensures ok <==> ValidConditional(f, c)
  {
    hide ValidConditions;
    KindsDiffer();
    if TrimSpace(c.name) == "" {
      return false;
    }
    var named := ValidateUserPropertyName(c.name);
    if !named {
      return false;
    }
    var kind := f.lower(TrimSpace(c.kind));
    if kind == "static" {
      if c.value == Null {
        return false;
      }
    } else if kind == "label" {
      if TrimSpace(c.fromLabel) == "" {
        return false;
      }
    } else {
      return false;
    }
    if |c.conditions| == 0 {
      return false;
    }
    ok := ValidateConditions(f, c.conditions);
  }

  /* ----- transforms ----- */

  predicate ValidRegexProcess(f: Foreign, p: Process) {
    var pattern := NormalizeRegexPattern(p.pattern);
    && pattern != "" && TrimSpace(p.output) != ""
    && f.compile(pattern).Some?
    && f.compile(pattern).value.groups > 0
    && AcceptedOutput(p.output, f.compile(pattern).value.groups)
  }

  predicate ValidProcess(f: Foreign, p: Process) {
    var kind := NormalizeProcessType(f, p.kind);
    TrimSpace(p.kind) != "" && (kind == TO_UPPER || kind == TO_LOWER || (kind == REGEX && ValidRegexProcess(f, p)))
  }

  predicate ValidTransform(f: Foreign, t: Transform, userNames: bool) {
    && TrimSpace(t.property) != "" && (userNames ==> UserName(t.property))
    && t.process != [] && forall p :: p in t.process ==> ValidProcess(f, p)
  }

  predicate ValidTransforms(f: Foreign, ts: seq<Transform>, userNames: bool) {
    forall t :: t in ts ==> ValidTransform(f, t, userNames)
  }

  lemma ProcessorTypesDiffer()
    ensures TO_UPPER != REGEX && TO_LOWER != REGEX
  {
  }

  method ValidateProcess(f: Foreign, p: Process) returns (ok: bool)
    ensures ok <==> ValidProcess(f, p)
  {
    hide AcceptedOutput, NormalizeRegexPattern;
    ProcessorTypesDiffer();
    if TrimSpace(p.kind) == "" {
      return false;
    }
    var kind := NormalizeProcessType(f, p.kind);
    if kind != TO_UPPER && kind != TO_LOWER && kind != REGEX {
      return false;
    }
    if kind != REGEX {
      return true;
    }
    var pattern := NormalizeRegexPattern(p.pattern);
    if pattern == "" {
      return false;
    }
    if TrimSpace(p.output) == "" {
      return false;
    }
    var compiled := f.compile(pattern);
    if compiled.None? {
      return false;
    }
    var groupCount := compiled.value.groups;
    if groupCount == 0 {
      return false;
    }
    ok := ValidateOutput(p.output, groupCount);
  }

  method ValidateTransformList(f: Foreign, ts: seq<Transform>, userNames: bool) returns (ok: bool)
    ensures ok <==> ValidTransforms(f, ts, userNames)
  {
    hide ValidProcess, UserName;
    for i := 0 to |ts|
      invariant forall k :: 0 <= k < i ==> ValidTransform(f, ts[k], userNames)
    {
      var transform := ts[i];
      assert transform in ts;
      if TrimSpace(transform.property) == "" {
        return false;
      }
      if userNames {
        var valid := ValidateUserPropertyName(transform.property);
        if !valid {
          return false;
        }
      }
      if |transform.process| == 0 {
        return false;
      }
      for j := 0 to |transform.process|
        invariant forall k :: 0 <= k < j ==> ValidProcess(f, transform.process[k])
      {
        var valid := ValidateProcess(f, transform.process[j]);
        if !valid {
          assert transform.process[j] in transform.process;
          return false;
        }
      }
    }
    ok := true;
  }

  /* ----- templates ----- */

  predicate ValidRules(f: Foreign, rules: PropertyRules) {
    && ValidStaticProps(rules.staticProps)
    && ValidLabelProps(rules.labelProps)
    && (forall c :: c in rules.conditional ==> ValidConditional(f, c))
    && ValidTransforms(f, rules.transforms, true)
  }

  predicate ValidPolicy(f: Foreign, raw: string) {
    f.lower(TrimSpace(raw)) in {"", "create", "merge", "merge_at_change", "mergeatchange", "merge-at-change"}
  }

  predicate ValidExpiration(minutes: Option<int>) {
    minutes.Some? ==> minutes.value > 0
  }

  predicate ValidNodeTemplate(f: Foreign, t: NodeTemplate) {
    && ValidPolicy(f, t.updatePolicy) && ValidExpiration(t.expirationMinutes)
    && NormalizedTypes(t.types) != [] && t.templateHashes != []
    && (NAME in t.rules.staticProps || NAME in t.rules.labelProps)
    && ValidRules(f, t.rules) && ValidConditions(f, t.conditions)
  }

  predicate ValidSelector(f: Foreign, e: Endpoint) {
    && TrimSpace(e.kind) != "" && (e.staticAttrs != map[] || e.labelAttrs != map[])
    && (forall k :: k in e.staticAttrs ==> TrimSpace(k) != "")
    && (forall k :: k in e.labelAttrs ==> TrimSpace(k) != "" && TrimSpace(e.labelAttrs[k]) != "")
    && ValidTransforms(f, e.priorTransform, false)
  }

  predicate ValidRelationshipTemplate(f: Foreign, t: RelationshipTemplate) {
    && TrimSpace(t.kind) != "" && TrimSpace(TrimSpace(t.templateHash)) != ""
    && ValidPolicy(f, t.updatePolicy) && ValidExpiration(t.expirationMinutes)
    && ValidRules(f, t.rules) && ValidConditions(f, t.conditions)
    && ValidSelector(f, t.source) && ValidSelector(f, t.target)
  }

  predicate ValidJob(f: Foreign, job: Job) {
    && TrimSpace(job.name) != "" && TrimSpace(job.query) != "" && job.intervalSeconds > 0
    && (forall t :: t in job.nodes ==> ValidNodeTemplate(f, t))
    && (forall t :: t in job.relationships ==> ValidRelationshipTemplate(f, t))
  }

  predicate ValidTarget(f: Foreign, target: Target) {
    && TrimSpace(target.name) != "" && TrimSpace(target.baseUrl) != ""
    && (target.azureAuth ==> f.secureUrl(TrimSpace(target.baseUrl)))
    && target.jobs != [] && forall job :: job in target.jobs ==> ValidJob(f, job)
  }

  method ValidateRules(f: Foreign, rules: PropertyRules) returns (ok: bool)
    ensures ok <==> ValidRules(f, rules)
  {
    hide ValidStaticProps, ValidLabelProps, ValidConditional, ValidTransforms;
    ok := ValidateStaticProperties(rules.staticProps);
    if !ok {
      return;
    }
    ok := ValidateDynamicProperties(rules.labelProps);
    if !ok {
      return;
    }
    ok := ValidateConditionalProperties(f, rules.conditional);
    if !ok {
      return;
    }
    ok := ValidateTransformList(f, rules.transforms, true);
  }

  method ValidateNodeTemplate(f: Foreign, t: NodeTemplate) returns (ok: bool)
    ensures ok <==> ValidNodeTemplate(f, t)
  {
    hide ValidRules, ValidConditions, NormalizedTypes;
    if !ValidPolicy(f, t.updatePolicy) || !ValidExpiration(t.expirationMinutes) {
      return false;
    }
    var types := CollectNormalizedTypes(t.types);
    if |types| == 0 || |t.templateHashes| == 0 {
      return false;
    }
    if NAME !in t.rules.staticProps && NAME !in t.rules.labelProps {
      return false;
    }
    ok := ValidateRules(f, t.rules);
    if !ok {
      return;
    }
    ok := ValidateConditions(f, t.conditions);
  }

  method ValidateStaticAttributes(attributes: Props) returns (ok: bool)
    ensures ok <==> forall k :: k in attributes ==> TrimSpace(k) != ""
  {
    hide TrimSpace;
    var rest := attributes.Keys;
    while rest != {}
      invariant rest <= attributes.Keys
      invariant forall k :: k in attributes && k !in rest ==> TrimSpace(k) != ""
    {
      var key :| key in rest;
      if TrimSpace(key) == "" {
        return false;
      }
      rest := rest - {key};
    }
    ok := true;
  }

  method ValidateLabelAttributes(attributes: map<string, string>) returns (ok: bool)
    ensures ok <==> forall k :: k in attributes ==> TrimSpace(k) != "" && TrimSpace(attributes[k]) != ""
  {
    hide TrimSpace;
    var rest := attributes.Keys;
    while rest != {}
      invariant rest <= attributes.Keys
      invariant forall k :: k in attributes && k !in rest ==> TrimSpace(k) != "" && TrimSpace(attributes[k]) != ""
    {
      var key :| key in rest;
      if TrimSpace(key) == "" {
        return false;
      }
      if TrimSpace(attributes[key]) == "" {
        return false;
      }
      rest := rest - {key};
    }
    ok := true;
  }

  method ValidateSelector(f: Foreign, e: Endpoint) returns (ok: bool)
    ensures ok <==> ValidSelector(f, e)
  {
    hide ValidTransforms, TrimSpace;
    if TrimSpace(e.kind) == "" {
      return false;
    }
    if |e.staticAttrs| == 0 && |e.labelAttrs| == 0 {
      return false;
    }
    ok := ValidateStaticAttributes(e.staticAttrs);
    if !ok {
      return;
    }
    ok := ValidateLabelAttributes(e.labelAttrs);
    if !ok {
      return;
    }
    ok := ValidateTransformList(f, e.priorTransform, false);
  }

  method ValidateRelationshipTemplate(f: Foreign, t: RelationshipTemplate) returns (ok: bool)
    ensures ok <==> ValidRelationshipTemplate(f, t)
  {
    hide ValidRules, ValidConditions, ValidSelector;
    if TrimSpace(t.kind) == "" || !ValidExpiration(t.expirationMinutes) || !ValidPolicy(f, t.updatePolicy) {
      return false;
    }
    if TrimSpace(TrimSpace(t.templateHash)) == "" {
      return false;
    }
    ok := ValidateRules(f, t.rules);
    if !ok {
      return;
    }
    ok := ValidateConditions(f, t.conditions);
    if !ok {
      return;
    }
    ok := ValidateSelector(f, t.source);
    if !ok {
      return;
    }
    ok := ValidateSelector(f, t.target);
  }

  method ValidateJob(f: Foreign, job: Job) returns (ok: bool)
    ensures ok <==> ValidJob(f, job)
  {
    hide ValidNodeTemplate, ValidRelationshipTemplate;
    if TrimSpace(job.name) == "" || TrimSpace(job.query) == "" || job.intervalSeconds <= 0 {
      return false;
    }
    for index := 0 to |job.nodes|
      invariant forall k :: 0 <= k < index ==> ValidNodeTemplate(f, job.nodes[k])
    {
      ok := ValidateNodeTemplate(f, job.nodes[index]);
      if !ok {
        assert job.nodes[index] in job.nodes;
        return;
      }
    }
    for index := 0 to |job.relationships|
      invariant forall k :: 0 <= k < index ==> ValidRelationshipTemplate(f, job.relationships[k])
    {
      ok := ValidateRelationshipTemplate(f, job.relationships[index]);
      if !ok {
        assert job.relationships[index] in job.relationships;
        return;
      }
    }
    ok := true;
  }

  method ValidateFileConfig(f: Foreign, targets: seq<Target>) returns (ok: bool)
    ensures ok <==> targets != [] && forall target :: target in targets ==> ValidTarget(f, target)
  {
    hide ValidJob;
    if |targets| == 0 {
      return false;
    }
    for i := 0 to |targets|
      invariant forall k :: 0 <= k < i ==> ValidTarget(f, targets[k])
    {
      var target := targets[i];
      assert target in targets;
      if TrimSpace(target.name) == "" || TrimSpace(target.baseUrl) == "" {
        return false;
      }
      if target.azureAuth && !f.secureUrl(TrimSpace(target.baseUrl)) {
        return false;
      }
      if |target.jobs| == 0 {
        return false;
      }
      for j := 0 to |target.jobs|
        invariant forall k :: 0 <= k < j ==> ValidJob(f, target.jobs[k])
      {
        var valid := ValidateJob(f, target.jobs[j]);
        if !valid {
          assert target.jobs[j] in target.jobs;
          return false;
        }
      }
    }
    ok := true;
  }
}
