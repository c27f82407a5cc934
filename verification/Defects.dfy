/**
 * The validator against the documented list of what makes the startup fail: a
 * configuration is accepted if and only if it has none of these defects.
 */
module Defects {
  import opened Prelude
  import opened Strings
  import opened Values
  import opened Config
  import opened RegexOutput
  import opened RuleLaws
  import opened Validate

  /* ----- words ----- */

  /** The words of a configuration are ASCII; for other texts the case mapping is not modelled. */
  predicate AsciiWord(text: string) {
    Ascii(TrimSpace(text))
  }

  lemma WordIsLower(f: Foreign, text: string, word: string)
    requires Lawful(f) && AsciiWord(text) && LowerAscii(word) == word
    ensures f.lower(TrimSpace(text)) == word <==> Spelled(text, word)
  {
    hide TrimSpace;
    var s := TrimSpace(text);
    if Spelled(text, word) {
      SpelledIsLower(f, text, word);
    } else if LowerAscii(s) == word {
      forall i | 0 <= i < |s|
        ensures LowerChar(s[i]) == LowerChar(word[i])
      {
        assert LowerAscii(s)[i] == word[i] && LowerAscii(word)[i] == word[i];
      }
    }
  }

  lemma WordIsUpper(f: Foreign, text: string, word: string)
    requires Lawful(f) && AsciiWord(text) && UpperAscii(word) == word
    ensures f.upper(TrimSpace(text)) == word <==> Spelled(text, word)
  {
    hide TrimSpace;
    var s := TrimSpace(text);
    if Spelled(text, word) {
      SpelledIsUpper(f, text, word);
    }
  }

  lemma PolicyWords()
    ensures forall w :: w in {"create", "merge", "merge_at_change", "mergeatchange", "merge-at-change"} ==> LowerAscii(w) == w
  {
    forall w | w in {"create", "merge", "merge_at_change", "mergeatchange", "merge-at-change"}
      ensures LowerAscii(w) == w
    {
    }
  }

  /* ----- defects ----- */

  predicate Blank(text: string) {
    TrimSpace(text) == ""
  }

  predicate PolicyDefect(raw: string) {
    && !Blank(raw) && !Spelled(raw, "create") && !Spelled(raw, "merge")
    && !Spelled(raw, "merge_at_change") && !Spelled(raw, "mergeatchange") && !Spelled(raw, "merge-at-change")
  }

  predicate ExpirationDefect(minutes: Option<int>) {
    minutes.Some? && minutes.value <= 0
  }

  /** Blank, or with the reserved prefix. */
  predicate NameDefect(name: string) {
    Blank(name) || "z4j_" <= TrimSpace(name)
  }

  function Operators(c: Condition): nat {
    (if c.equals != Null then 1 else 0) + (if c.notEquals != Null then 1 else 0)
    + (if c.greaterThan.Some? then 1 else 0) + (if c.lessThan.Some? then 1 else 0)
  }

  predicate ConditionDefect(c: Condition) {
    if Spelled(c.kind, "value") then Operators(c) != 1
    else if Spelled(c.kind, "label") then Blank(c.label_) || Operators(c) != 1 || c.greaterThan.Some? || c.lessThan.Some?
    else if Spelled(c.kind, "label_exists") then Blank(c.label_) || Operators(c) != 0
    else true
  }

  predicate ConditionsDefect(cs: seq<Condition>) {
    exists c :: c in cs && ConditionDefect(c)
  }

  predicate ConditionalDefect(c: ConditionalProperty) {
    || NameDefect(c.name) || c.conditions == [] || ConditionsDefect(c.conditions)
    || (if Spelled(c.kind, "static") then c.value == Null
        else if Spelled(c.kind, "label") then Blank(c.fromLabel)
        else true)
  }

  /** A reference of the output that fits an int. */
  predicate RefersTo(output: string, n: nat) {
    exists piece :: piece in Scan(output) && piece.Reference? && Atoi(piece.digits) == Some(n)
  }

  ghost predicate OutputDefect(output: string, groups: nat) {
    || (forall n: nat :: !RefersTo(output, n))
    || (exists n: nat :: RefersTo(output, n) && (n < 1 || n > groups))
  }

  ghost predicate ProcessDefect(f: Foreign, p: Process) {
    if Spelled(p.kind, "TO_UPPER") || Spelled(p.kind, "TO_LOWER") then false
    else if Spelled(p.kind, "REGEX") then
      var regex := f.compile(NormalizeRegexPattern(p.pattern));
      NormalizeRegexPattern(p.pattern) == "" || Blank(p.output) || regex.None?
      || regex.value.groups == 0 || OutputDefect(p.output, regex.value.groups)
    else true
  }

  ghost predicate TransformDefect(f: Foreign, t: Transform, userNames: bool) {
    || Blank(t.property) || (userNames && NameDefect(t.property))
    || t.process == [] || exists p :: p in t.process && ProcessDefect(f, p)
  }

  ghost predicate TransformsDefect(f: Foreign, ts: seq<Transform>, userNames: bool) {
    exists t :: t in ts && TransformDefect(f, t, userNames)
  }

  ghost predicate RulesDefect(f: Foreign, rules: PropertyRules) {
    || (exists k :: k in rules.staticProps && NameDefect(k))
    || (exists k :: k in rules.labelProps && (NameDefect(k) || Blank(rules.labelProps[k])))
    || (exists c :: c in rules.conditional && ConditionalDefect(c))
    || TransformsDefect(f, rules.transforms, true)
  }

  ghost predicate NodeDefect(f: Foreign, t: NodeTemplate) {
    || PolicyDefect(t.updatePolicy) || ExpirationDefect(t.expirationMinutes)
    || (forall s :: s in t.types ==> Blank(s)) || t.templateHashes == []
    || ("name" !in t.rules.staticProps && "name" !in t.rules.labelProps)
    || RulesDefect(f, t.rules) || ConditionsDefect(t.conditions)
  }

  ghost predicate SelectorDefect(f: Foreign, e: Endpoint) {
    || Blank(e.kind) || (e.staticAttrs == map[] && e.labelAttrs == map[])
    || (exists k :: k in e.staticAttrs && Blank(k))
    || (exists k :: k in e.labelAttrs && (Blank(k) || Blank(e.labelAttrs[k])))
    || TransformsDefect(f, e.priorTransform, false)
  }

  ghost predicate RelationshipDefect(f: Foreign, t: RelationshipTemplate) {
    || Blank(t.kind) || Blank(t.templateHash) || PolicyDefect(t.updatePolicy) || ExpirationDefect(t.expirationMinutes)
    || RulesDefect(f, t.rules) || ConditionsDefect(t.conditions)
    || SelectorDefect(f, t.source) || SelectorDefect(f, t.target)
  }

  ghost predicate JobDefect(f: Foreign, job: Job) {
    || Blank(job.name) || Blank(job.query) || job.intervalSeconds <= 0
    || (exists t :: t in job.nodes && NodeDefect(f, t))
    || (exists t :: t in job.relationships && RelationshipDefect(f, t))
  }

  ghost predicate TargetDefect(f: Foreign, target: Target) {
    || Blank(target.name) || Blank(target.baseUrl) || (target.azureAuth && !f.secureUrl(TrimSpace(target.baseUrl)))
    || target.jobs == [] || exists job :: job in target.jobs && JobDefect(f, job)
  }

  /* ----- every word of a configuration ----- */

  predicate AsciiConditions(cs: seq<Condition>) {
    forall c :: c in cs ==> AsciiWord(c.kind)
  }

  predicate AsciiTransforms(ts: seq<Transform>) {
    forall t, p :: t in ts && p in t.process ==> AsciiWord(p.kind)
  }

  predicate AsciiRules(rules: PropertyRules) {
    (forall c :: c in rules.conditional ==> AsciiWord(c.kind) && AsciiConditions(c.conditions)) && AsciiTransforms(rules.transforms)
  }

  predicate AsciiNode(t: NodeTemplate) {
    AsciiWord(t.updatePolicy) && AsciiRules(t.rules) && AsciiConditions(t.conditions)
  }

  predicate AsciiRelationship(t: RelationshipTemplate) {
    && AsciiWord(t.updatePolicy) && AsciiRules(t.rules) && AsciiConditions(t.conditions)
    && AsciiTransforms(t.source.priorTransform) && AsciiTransforms(t.target.priorTransform)
  }

  predicate AsciiJob(job: Job) {
    (forall t :: t in job.nodes ==> AsciiNode(t)) && (forall t :: t in job.relationships ==> AsciiRelationship(t))
  }

  predicate AsciiTarget(target: Target) {
    forall job :: job in target.jobs ==> AsciiJob(job)
  }

  /* ----- valid means no defect ----- */

  lemma PolicyExactly(f: Foreign, raw: string)
    requires Lawful(f) && AsciiWord(raw)
    ensures ValidPolicy(f, raw) <==> !PolicyDefect(raw)
  {
    hide Lawful, TrimSpace, Spelled, AsciiWord;
    PolicyWords();
    NothingIsLower(f, raw);
    WordIsLower(f, raw, "create");
    WordIsLower(f, raw, "merge");
    WordIsLower(f, raw, "merge_at_change");
    WordIsLower(f, raw, "mergeatchange");
    WordIsLower(f, raw, "merge-at-change");
  }

  lemma NothingIsLower(f: Foreign, raw: string)
    requires Lawful(f) && AsciiWord(raw)
    ensures f.lower(TrimSpace(raw)) == "" <==> Blank(raw)
  {
    hide TrimSpace;
  }

  lemma NameExactly(name: string)
    ensures UserName(name) <==> !NameDefect(name)
  {
    hide TrimSpace;
  }

  lemma ConditionExactly(f: Foreign, c: Condition)
    requires Lawful(f) && AsciiWord(c.kind)
    ensures ValidCondition(f, c) <==> !ConditionDefect(c)
  {
    hide Lawful, TrimSpace, Spelled, AsciiWord;
    Words();
    WordIsLower(f, c.kind, "value");
    WordIsLower(f, c.kind, "label");
    WordIsLower(f, c.kind, "label_exists");
  }

  lemma ConditionsExactly(f: Foreign, cs: seq<Condition>)
    requires Lawful(f) && AsciiConditions(cs)
    ensures ValidConditions(f, cs) <==> !ConditionsDefect(cs)
  {
    hide Lawful, ValidCondition, ConditionDefect, AsciiWord;
    forall c | c in cs
      ensures ValidCondition(f, c) <==> !ConditionDefect(c)
    {
      ConditionExactly(f, c);
    }
  }

  lemma ConditionalExactly(f: Foreign, c: ConditionalProperty)
    requires Lawful(f) && AsciiWord(c.kind) && AsciiConditions(c.conditions)
    ensures ValidConditional(f, c) <==> !ConditionalDefect(c)
  {
    hide Lawful, TrimSpace, Spelled, AsciiWord, UserName, NameDefect, ValidConditions, ConditionsDefect, AsciiConditions;
    Words();
    NameExactly(c.name);
    ConditionsExactly(f, c.conditions);
    WordIsLower(f, c.kind, "static");
    WordIsLower(f, c.kind, "label");
  }

  lemma {:induction false} ReferencesExactly(pieces: seq<Piece>, n: nat)
    ensures n in References(pieces) <==> exists piece :: piece in pieces && piece.Reference? && Atoi(piece.digits) == Some(n)
  {
    hide Atoi;
    if pieces != [] {
      var init, last := pieces[..|pieces| - 1], pieces[|pieces| - 1];
      assert pieces == init + [last];
      ReferencesExactly(init, n);
    }
  }

  lemma OutputExactly(output: string, groups: nat)
    ensures AcceptedOutput(output, groups) <==> !OutputDefect(output, groups)
  {
    hide Scan, Atoi, References;
    var references := References(Scan(output));
    forall n: nat
      ensures RefersTo(output, n) <==> n in references
    {
      ReferencesExactly(Scan(output), n);
    }
    if references != [] {
      assert references[0] in references;
      assert RefersTo(output, references[0]);
    }
  }

  lemma ProcessExactly(f: Foreign, p: Process)
    requires Lawful(f) && AsciiWord(p.kind)
    ensures ValidProcess(f, p) <==> !ProcessDefect(f, p)
  {
    hide Lawful, TrimSpace, Spelled, AsciiWord, NormalizeRegexPattern, AcceptedOutput, OutputDefect;
    Words();
    WordIsUpper(f, p.kind, "TO_UPPER");
    WordIsUpper(f, p.kind, "TO_LOWER");
    WordIsUpper(f, p.kind, "REGEX");
    BlankIsNoWord(p.kind);
    var regex := f.compile(NormalizeRegexPattern(p.pattern));
    if regex.Some? {
      OutputExactly(p.output, regex.value.groups);
    }
  }

  lemma BlankIsNoWord(text: string)
    ensures Blank(text) ==> !Spelled(text, "TO_UPPER") && !Spelled(text, "TO_LOWER") && !Spelled(text, "REGEX")
  {
    hide TrimSpace;
  }

  lemma TransformExactly(f: Foreign, t: Transform, userNames: bool)
    requires Lawful(f) && forall p :: p in t.process ==> AsciiWord(p.kind)
    ensures ValidTransform(f, t, userNames) <==> !TransformDefect(f, t, userNames)
  {
    hide Lawful, TrimSpace, AsciiWord, UserName, NameDefect, ValidProcess, ProcessDefect;
    NameExactly(t.property);
    forall p | p in t.process
      ensures ValidProcess(f, p) <==> !ProcessDefect(f, p)
    {
      ProcessExactly(f, p);
    }
  }

  lemma TransformsExactly(f: Foreign, ts: seq<Transform>, userNames: bool)
    requires Lawful(f) && AsciiTransforms(ts)
    ensures ValidTransforms(f, ts, userNames) <==> !TransformsDefect(f, ts, userNames)
  {
    hide Lawful, AsciiWord, ValidTransform, TransformDefect;
    forall t | t in ts
      ensures ValidTransform(f, t, userNames) <==> !TransformDefect(f, t, userNames)
    {
      TransformExactly(f, t, userNames);
    }
  }

  lemma RulesExactly(f: Foreign, rules: PropertyRules)
    requires Lawful(f) && AsciiRules(rules)
    ensures ValidRules(f, rules) <==> !RulesDefect(f, rules)
  {
    hide Lawful, TrimSpace, AsciiWord, AsciiConditions, AsciiTransforms, UserName, NameDefect, ValidConditional, ConditionalDefect,
         ValidTransforms, TransformsDefect;
    forall k | k in rules.staticProps.Keys + rules.labelProps.Keys
      ensures UserName(k) <==> !NameDefect(k)
    {
      NameExactly(k);
    }
    forall c | c in rules.conditional
      ensures ValidConditional(f, c) <==> !ConditionalDefect(c)
    {
      ConditionalExactly(f, c);
    }
    TransformsExactly(f, rules.transforms, true);
  }

  lemma {:induction false} TypesExactly(types: seq<string>)
    ensures NormalizedTypes(types) == [] <==> forall s :: s in types ==> Blank(s)
  {
    hide TrimSpace;
    if types != [] {
      var init, last := types[..|types| - 1], types[|types| - 1];
      assert forall s :: s in types <==> s in init || s == last;
      TypesExactly(init);
      assert |NormalizedTypes(types)| == |NormalizedTypes(init)| + if Blank(last) then 0 else 1;
    }
  }

  lemma NodeExactly(f: Foreign, t: NodeTemplate)
    requires Lawful(f) && AsciiNode(t)
    ensures ValidNodeTemplate(f, t) <==> !NodeDefect(f, t)
  {
    hide Lawful, Blank, AsciiWord, AsciiRules, AsciiConditions, ValidPolicy, PolicyDefect, ValidRules, RulesDefect, ValidConditions,
         ConditionsDefect, NormalizedTypes;
    PolicyExactly(f, t.updatePolicy);
    TypesExactly(t.types);
    RulesExactly(f, t.rules);
    ConditionsExactly(f, t.conditions);
  }

  lemma SelectorExactly(f: Foreign, e: Endpoint)
    requires Lawful(f) && AsciiTransforms(e.priorTransform)
    ensures ValidSelector(f, e) <==> !SelectorDefect(f, e)
  {
    hide Lawful, TrimSpace, AsciiTransforms, ValidTransforms, TransformsDefect;
    TransformsExactly(f, e.priorTransform, false);
  }

  lemma TrimTwice(s: string)
    ensures TrimSpace(TrimSpace(s)) == TrimSpace(s)
  {
    TrimSpaceTrims(s);
    TrimmedIsFixed(TrimSpace(s));
  }

  lemma RelationshipExactly(f: Foreign, t: RelationshipTemplate)
    requires Lawful(f) && AsciiRelationship(t)
    ensures ValidRelationshipTemplate(f, t) <==> !RelationshipDefect(f, t)
  {
    hide Lawful, TrimSpace, AsciiWord, AsciiRules, AsciiConditions, AsciiTransforms, ValidPolicy, PolicyDefect, ValidRules, RulesDefect,
         ValidConditions, ConditionsDefect, ValidSelector, SelectorDefect;
    PolicyExactly(f, t.updatePolicy);
    TrimTwice(t.templateHash);
    RulesExactly(f, t.rules);
    ConditionsExactly(f, t.conditions);
    SelectorExactly(f, t.source);
    SelectorExactly(f, t.target);
  }

  lemma JobExactly(f: Foreign, job: Job)
    requires Lawful(f) && AsciiJob(job)
    ensures ValidJob(f, job) <==> !JobDefect(f, job)
  {
    hide Lawful, TrimSpace, AsciiNode, AsciiRelationship, ValidNodeTemplate, NodeDefect, ValidRelationshipTemplate, RelationshipDefect;
    forall t | t in job.nodes
      ensures ValidNodeTemplate(f, t) <==> !NodeDefect(f, t)
    {
      NodeExactly(f, t);
    }
    forall t | t in job.relationships
      ensures ValidRelationshipTemplate(f, t) <==> !RelationshipDefect(f, t)
    {
      RelationshipExactly(f, t);
    }
  }

  /** A target is valid if and only if it has none of the documented defects. */
  lemma TargetExactly(f: Foreign, target: Target)
    requires Lawful(f) && AsciiTarget(target)
    ensures ValidTarget(f, target) <==> !TargetDefect(f, target)
  {
    hide Lawful, TrimSpace, AsciiJob, ValidJob, JobDefect;
    forall job | job in target.jobs
      ensures ValidJob(f, job) <==> !JobDefect(f, job)
    {
      JobExactly(f, job);
    }
  }
}
