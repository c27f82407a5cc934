/**
 * What rules do to a datapoint, said in the terms of a configuration: operators on their
 * operands, sources of values, and one appended conditional or processor at a time.
 */
module RuleLaws {
  import opened Prelude
  import opened Strings
  import opened Values
  import opened Config
  import opened RegexOutput
  import opened Rules
  import opened Planner

  /* ----- spelled words ----- */

  /** A configured word, in any mixture of cases and with outer white space. */
  predicate Spelled(text: string, word: string) {
    Ascii(TrimSpace(text)) && SameLetters(TrimSpace(text), word)
  }

  lemma SpelledIsLower(f: Foreign, text: string, word: string)
    requires Lawful(f) && Spelled(text, word) && LowerAscii(word) == word
    ensures f.lower(TrimSpace(text)) == word
  {
    hide TrimSpace;
    var s := TrimSpace(text);
    forall i | 0 <= i < |s|
      ensures LowerAscii(s)[i] == word[i]
    {
      assert LowerAscii(word)[i] == word[i];
    }
    assert LowerAscii(s) == word;
  }

  lemma SpelledIsUpper(f: Foreign, text: string, word: string)
    requires Lawful(f) && Spelled(text, word) && UpperAscii(word) == word
    ensures f.upper(TrimSpace(text)) == word
  {
    hide TrimSpace;
    var s := TrimSpace(text);
    forall i | 0 <= i < |s|
      ensures UpperAscii(s)[i] == word[i]
    {
      assert UpperAscii(word)[i] == word[i];
    }
    assert UpperAscii(s) == word;
  }

  lemma Words()
    ensures forall w :: w in {"label", "label_exists", "value", "static"} ==> LowerAscii(w) == w
    ensures forall w :: w in {"TO_UPPER", "TO_LOWER", "REGEX"} ==> UpperAscii(w) == w
    ensures "label" != "label_exists" && "label" != "value" && "label_exists" != "value" && "static" != "label"
    ensures "TO_UPPER" != "TO_LOWER" && "TO_UPPER" != "REGEX" && "TO_LOWER" != "REGEX"
  {
    forall w | w in {"label", "label_exists", "value", "static"}
      ensures LowerAscii(w) == w
    {
    }
    forall w | w in {"TO_UPPER", "TO_LOWER", "REGEX"}
      ensures UpperAscii(w) == w
    {
    }
  }

  /* ----- conditions ----- */

  /** The number that an operand stands for: itself, an exact integer, or the text as the parser reads it. */
  predicate Denotes(f: Foreign, operand: Value, x: Double) {
    match operand
    case Float(d) => d == x
    case Integer(i) => -EXACT_LIMIT <= i <= EXACT_LIMIT && x == Finite(i as real)
    case Text(s) => f.parseFloat(TrimSpace(s)) == Some(x)
    case _ => false
  }

  /** A value condition compares the datapoint with the number of its operand; NaN equals nothing. */
  lemma ValueEqualsMeans(f: Foreign, c: Condition, d: Datapoint, operand: Value, x: Double)
    requires Lawful(f) && Spelled(c.kind, "value") && Denotes(f, operand, x)
    ensures MatchCondition(f, c.(equals := operand), d) == Ok(d.value == x && x != NaN)
    ensures MatchCondition(f, c.(equals := Null, notEquals := operand), d) == Ok(!(d.value == x && x != NaN))
  {
    hide Lawful, TrimSpace, Spelled, RoundToDouble;
    Words();
    SpelledIsLower(f, c.kind, "value");
    if operand.Integer? {
      SmallIntegersAreExact(operand.i);
    }
  }

  /** The order conditions are strict and on real numbers; an infinity is beyond all of them. */
  lemma ValueOrderMeans(f: Foreign, c: Condition, d: Datapoint, x: Double)
    requires Lawful(f) && Spelled(c.kind, "value") && c.equals == Null && c.notEquals == Null
    ensures var above := MatchCondition(f, c.(greaterThan := Some(x)), d);
      var below := MatchCondition(f, c.(greaterThan := None, lessThan := Some(x)), d);
      && above.Ok? && below.Ok?
      && (d.value.Finite? && x.Finite? ==> (above.value <==> d.value.r > x.r) && (below.value <==> d.value.r < x.r))
      && (d.value == NaN || x == NaN ==> !above.value && !below.value)
      && (x == Infinite(true) ==> !above.value && (below.value <==> d.value != x && d.value != NaN))
      && (x == Infinite(false) ==> !below.value && (above.value <==> d.value != x && d.value != NaN))
  {
    hide Lawful, TrimSpace, Spelled;
    Words();
    SpelledIsLower(f, c.kind, "value");
  }

  /** A label condition compares the label's text with the printed operand; without the label it is false. */
  lemma LabelMeans(f: Foreign, c: Condition, d: Datapoint, operand: Value)
    requires Lawful(f) && Spelled(c.kind, "label") && operand != Null
    ensures MatchCondition(f, c.(equals := operand), d)
      == Ok(c.label_ in d.labels && d.labels[c.label_] == f.sprint(operand))
    ensures MatchCondition(f, c.(equals := Null, notEquals := operand), d)
      == Ok(c.label_ in d.labels && d.labels[c.label_] != f.sprint(operand))
  {
    hide Lawful, TrimSpace, Spelled;
    Words();
    SpelledIsLower(f, c.kind, "label");
  }

  lemma LabelExistsMeans(f: Foreign, c: Condition, d: Datapoint)
    requires Lawful(f) && Spelled(c.kind, "label_exists")
    ensures MatchCondition(f, c, d) == Ok(c.label_ in d.labels)
  {
    hide Lawful, TrimSpace, Spelled;
    Words();
    SpelledIsLower(f, c.kind, "label_exists");
  }

  /** Every condition of a list holds. */
  ghost predicate AllHold(f: Foreign, conditions: seq<Condition>, d: Datapoint) {
    forall i :: 0 <= i < |conditions| ==> MatchCondition(f, conditions[i], d) == Ok(true)
  }

  /* ----- one processor ----- */

  predicate NoneBetween(s: string, first: char, last: char) {
    forall i :: 0 <= i < |s| ==> !(first <= s[i] <= last)
  }

  lemma UpperMeans(f: Foreign, s: string)
    requires Lawful(f) && Ascii(s)
    ensures SameLetters(f.upper(s), s) && NoneBetween(f.upper(s), 'a', 'z')
  {
    hide Lawful;
    UpperIs(f, s);
  }

  lemma UpperIs(f: Foreign, s: string)
    requires Lawful(f) && Ascii(s)
    ensures f.upper(s) == UpperAscii(s) && f.lower(s) == LowerAscii(s)
  {
  }

  lemma LowerMeans(f: Foreign, s: string)
    requires Lawful(f) && Ascii(s)
    ensures SameLetters(f.lower(s), s) && NoneBetween(f.lower(s), 'A', 'Z')
  {
    hide Lawful;
    UpperIs(f, s);
  }

  /** Every literal of the output, and every group that it names, stands where the pieces before it end. */
  predicate Assembled(output: string, groups: seq<string>, text: string) {
    var pieces := Scan(output);
    (forall piece :: piece in pieces ==> Exact(piece, groups)) ==>
      && |text| == PredictedLength(pieces, groups)
      && forall i :: 0 <= i < |pieces| ==> PieceStands(pieces, groups, i, text)
  }

  predicate PieceStands(pieces: seq<Piece>, groups: seq<string>, i: nat, text: string)
    requires i < |pieces| && forall piece :: piece in pieces ==> Exact(piece, groups)
  {
    var at, wanted := PredictedLength(pieces[..i], groups), Wanted(pieces[i], groups);
    at + |wanted| <= |text| && text[at..at + |wanted|] == wanted
  }

  lemma ExpandAssembles(output: string, groups: seq<string>)
    ensures Assembled(output, groups, Expand(output, groups))
  {
    hide Scan, Exact, PredictedLength, Expand, Wanted;
    var pieces := Scan(output);
    if forall piece :: piece in pieces ==> Exact(piece, groups) {
      ExpansionLength(pieces, groups);
      ExpandIs(output, groups);
      forall i | 0 <= i < |pieces|
        ensures PieceStands(pieces, groups, i, Expand(output, groups))
      {
        ExpansionPlaces(output, groups, i);
      }
    }
  }

  lemma ExpandIs(output: string, groups: seq<string>)
    ensures Expand(output, groups) == ExpandPieces(Scan(output), groups)
  {
  }

  /** What one processor makes of a value. */
  predicate Processed(f: Foreign, p: Process, before: Value, after: Value) {
    if !before.Text? then after == before
    else
      && after.Text?
      && (Spelled(p.kind, "TO_UPPER") && Ascii(before.s) ==> SameLetters(after.s, before.s) && NoneBetween(after.s, 'a', 'z'))
      && (Spelled(p.kind, "TO_LOWER") && Ascii(before.s) ==> SameLetters(after.s, before.s) && NoneBetween(after.s, 'A', 'Z'))
      && (Spelled(p.kind, "REGEX") ==> Replaced(f, p, before.s, after.s))
  }

  /** A pattern that does not match changes nothing; one that matches is replaced by the assembled output. */
  predicate Replaced(f: Foreign, p: Process, before: string, after: string) {
    f.compile(NormalizeRegexPattern(p.pattern)).Some? &&
    match f.compile(NormalizeRegexPattern(p.pattern)).value.find(before)
    case None => after == before
    case Some(groups) => Assembled(p.output, groups, after)
  }

  lemma ProcessMeans(f: Foreign, v: Value, p: Process)
    requires Lawful(f) && ApplyProcess(f, v, p).Ok?
    ensures Processed(f, p, v, ApplyProcess(f, v, p).value)
  {
    hide Lawful, TrimSpace, Spelled, Assembled, Ascii, SameLetters, NoneBetween, Expand, NormalizeRegexPattern;
    Words();
    if v.Text? {
      if Spelled(p.kind, "TO_UPPER") {
        SpelledIsUpper(f, p.kind, "TO_UPPER");
        if Ascii(v.s) {
          UpperMeans(f, v.s);
        }
      }
      if Spelled(p.kind, "TO_LOWER") {
        SpelledIsUpper(f, p.kind, "TO_LOWER");
        if Ascii(v.s) {
          LowerMeans(f, v.s);
        }
      }
      if Spelled(p.kind, "REGEX") {
        SpelledIsUpper(f, p.kind, "REGEX");
        RegexMeans(f, v, p);
      }
    }
  }

  lemma RegexMeans(f: Foreign, v: Value, p: Process)
    requires v.Text? && NormalizeProcessType(f, p.kind) == REGEX && ApplyProcess(f, v, p).Ok?
    ensures ApplyProcess(f, v, p).value.Text? && Replaced(f, p, v.s, ApplyProcess(f, v, p).value.s)
  {
    hide Assembled, Expand, NormalizeRegexPattern;
    var regex := f.compile(NormalizeRegexPattern(p.pattern));
    if regex.Some? && regex.value.find(v.s).Some? {
      ExpandAssembles(p.output, regex.value.find(v.s).value);
    }
  }

  /* ----- chains, one processor at a time ----- */

  /** A transform of a property that is not there, and one without processors, change nothing. */
  lemma IdleTransform(f: Foreign, props: Props, ts: seq<Transform>, key: string, ps: seq<Process>)
    requires ApplyTransforms(f, props, ts).Ok? && (key !in props || ps == [])
    ensures ApplyTransforms(f, props, ts + [Transform(key, ps)]) == ApplyTransforms(f, props, ts)
  {
    hide ApplyTransform, RunProcesses;
    AppendTransform(f, props, ts, Transform(key, ps));
    IdleOnce(f, ApplyTransforms(f, props, ts).value, Transform(key, ps));
  }

  lemma IdleOnce(f: Foreign, props: Props, t: Transform)
    requires t.property !in props || t.process == []
    ensures ApplyTransform(f, props, t) == Ok(props)
  {
    if t.property in props {
      assert props[t.property := props[t.property]] == props;
    }
  }

  lemma {:induction false} AppendTransform(f: Foreign, props: Props, ts: seq<Transform>, t: Transform)
    ensures ApplyTransforms(f, props, ts + [t]) ==
      match ApplyTransforms(f, props, ts) case Ok(next) => ApplyTransform(f, next, t) case Err(e) => Err(e)
    decreases |ts|
  {
    hide ApplyTransform;
    if ts == [] {
      assert ts + [t] == [t] && [t][1..] == [];
    } else {
      assert (ts + [t])[1..] == ts[1..] + [t];
      match ApplyTransform(f, props, ts[0])
      case Ok(next) => AppendTransform(f, next, ts[1..], t);
      case Err(_) =>
    }
  }

  /**
   * One more processor at the end of the last transform: its property is processed once
   * more, from the value that the chain so far has given it, and no other changes.
   */
  lemma OneMoreProcessor(f: Foreign, props: Props, ts: seq<Transform>, key: string, ps: seq<Process>, p: Process)
    requires Lawful(f) && key in props && ApplyTransforms(f, props, ts + [Transform(key, ps + [p])]).Ok?
    ensures ApplyTransforms(f, props, ts + [Transform(key, ps)]).Ok?
    ensures var before := ApplyTransforms(f, props, ts + [Transform(key, ps)]).value;
      var after := ApplyTransforms(f, props, ts + [Transform(key, ps + [p])]).value;
      && before.Keys == props.Keys && after.Keys == props.Keys
      && Processed(f, p, before[key], after[key])
      && forall k :: k in props && k != key ==> after[k] == before[k]
  {
    hide Lawful, Processed, ApplyProcess, ApplyTransforms;
    AppendTransform(f, props, ts, Transform(key, ps));
    AppendTransform(f, props, ts, Transform(key, ps + [p]));
    TransformsKeepKeys(f, props, ts);
    var v := ApplyTransforms(f, props, ts).value[key];
    RunConcat(f, v, ps, [p]);
    assert [p][1..] == [];
    var w := RunProcesses(f, v, ps).value;
    assert RunProcesses(f, w, [p]).Ok? ==> ApplyProcess(f, w, p).Ok? && RunProcesses(f, w, [p]) == ApplyProcess(f, w, p);
    ProcessMeans(f, w, p);
  }

  lemma TransformsKeepKeys(f: Foreign, props: Props, ts: seq<Transform>)
    ensures ApplyTransforms(f, props, ts).Ok? ==> ApplyTransforms(f, props, ts).value.Keys == props.Keys
  {
  }

  /* ----- sources ----- */

  /** A token: the datapoint's value, its time stamp, or the label of that name if there is one. */
  predicate Source(f: Foreign, token: string, d: Datapoint, v: Option<Value>) {
    && (token == "__value__" ==> v == Some(Float(d.value)))
    && (token == "__timestamp__" ==> v == Some(Text(f.formatTime(d.timestamp))))
    && (token !in {"__value__", "__timestamp__"} && token in d.labels ==> v == Some(Text(d.labels[token])))
    && (token !in {"__value__", "__timestamp__"} && token !in d.labels ==> v == None)
  }

  lemma TokensMean(f: Foreign, token: string, d: Datapoint, v: Option<Value>)
    ensures Source(f, token, d, v) <==> v == ResolveOptionalToken(f, token, d)
  {
    assert "__value__"[2] != "__timestamp__"[2];
  }

  /** Static and label properties: a label that is found wins, one that is missing gives nothing. */
  lemma BaseMeans(f: Foreign, staticProps: Props, labelProps: map<string, string>, d: Datapoint, key: string, v: Option<Value>)
    requires key in labelProps ==> Source(f, labelProps[key], d, v)
    requires key !in labelProps ==> v == None
    ensures var r := ResolvedProperties(f, PropertyRules(staticProps, labelProps, [], []), d);
      && r.Ok?
      && (v.Some? ==> key in r.value && r.value[key] == v.value)
      && (v.None? ==> SameHere(r.value, staticProps, key))
  {
    hide Source, ResolveOptionalToken;
    if key in labelProps {
      TokensMean(f, labelProps[key], d, v);
    }
  }

  predicate SameHere(a: Props, b: Props, key: string) {
    (key in a <==> key in b) && (key in a ==> a[key] == b[key])
  }

  lemma {:induction false} AppendConditional(f: Foreign, props: Props, cs: seq<ConditionalProperty>, c: ConditionalProperty, d: Datapoint)
    ensures ApplyConditionals(f, props, cs + [c], d) ==
      match ApplyConditionals(f, props, cs, d)
      case Ok(next) => ApplyConditionals(f, next, [c], d)
      case Err(e) => Err(e)
    decreases |cs|
  {
    hide ConditionalValue;
    if cs == [] {
      assert cs + [c] == [c];
    } else {
      assert (cs + [c])[1..] == cs[1..] + [c];
      match ConditionalValue(f, cs[0], d)
      case Ok(v) => AppendConditional(f, if v.Some? then props[cs[0].name := v.value] else props, cs[1..], c, d);
      case Err(_) =>
    }
  }

  /**
   * One more conditional property: while one of its conditions fails it does nothing;
   * when all hold it sets its name, to its value or to the value of its source if found.
   */
  lemma OneMoreConditional(f: Foreign, rules: PropertyRules, c: ConditionalProperty, d: Datapoint, v: Option<Value>)
    requires Lawful(f) && rules.transforms == [] && (Spelled(c.kind, "static") || Spelled(c.kind, "label"))
    requires if Spelled(c.kind, "static") then v == Some(c.value) else Source(f, c.fromLabel, d, v)
    requires var more := rules.(conditional := rules.conditional + [c]); ResolvedProperties(f, more, d).Ok?
    ensures var more := rules.(conditional := rules.conditional + [c]);
      && ResolvedProperties(f, rules, d).Ok?
      && var before, after := ResolvedProperties(f, rules, d).value, ResolvedProperties(f, more, d).value;
         after == if AllHold(f, c.conditions, d) && v.Some? then before[c.name := v.value] else before
  {
    hide Lawful, Spelled, Source, AllHold, MatchConditions, ResolveOptionalToken, FoundLabels, TrimSpace;
    var base := rules.staticProps + FoundLabels(f, rules.labelProps, d);
    AppendConditional(f, base, rules.conditional, c, d);
    ConditionalMeans(f, c, d, v);
    OneConditional(f, ApplyConditionals(f, base, rules.conditional, d), c, d);
  }

  lemma OneConditional(f: Foreign, props: Result<Props, RuleError>, c: ConditionalProperty, d: Datapoint)
    requires props.Ok?
    ensures ApplyConditionals(f, props.value, [c], d) ==
      match ConditionalValue(f, c, d)
      case Ok(v) => Ok(if v.Some? then props.value[c.name := v.value] else props.value)
      case Err(e) => Err(e)
  {
    hide ConditionalValue;
    assert [c][1..] == [];
  }

  lemma ConditionalMeans(f: Foreign, c: ConditionalProperty, d: Datapoint, v: Option<Value>)
    requires Lawful(f) && (Spelled(c.kind, "static") || Spelled(c.kind, "label"))
    requires if Spelled(c.kind, "static") then v == Some(c.value) else Source(f, c.fromLabel, d, v)
    ensures ConditionalValue(f, c, d).Ok? ==> ConditionalValue(f, c, d).value == if AllHold(f, c.conditions, d) then v else None
  {
    hide Lawful, Spelled, Source, MatchConditions, ResolveOptionalToken, TrimSpace;
    Words();
    ConditionsDecidedByFirst(f, c.conditions, d);
    if Spelled(c.kind, "static") {
      SpelledIsLower(f, c.kind, "static");
    } else {
      SpelledIsLower(f, c.kind, "label");
      TokensMean(f, c.fromLabel, d, v);
    }
  }

  /** Transforms come last, on whatever the other layers have given. */
  lemma TransformsComeLast(f: Foreign, rules: PropertyRules, d: Datapoint)
    ensures var untransformed := ResolvedProperties(f, rules.(transforms := []), d);
      var all := ResolvedProperties(f, rules, d);
      if untransformed.Ok? then all == ApplyTransforms(f, untransformed.value, rules.transforms) else all == untransformed
  {
    hide ApplyConditionals, FoundLabels;
  }

  /* ----- selectors ----- */

  /**
   * A selector's attribute: a label attribute is its source, run through the prior
   * transforms under the source's name; any other is the static one as it is. The type is
   * the endpoint's, and a missing source is an error.
   */
  lemma SelectorAttributeMeans(f: Foreign, e: Endpoint, d: Datapoint, key: string, v: Option<Value>)
    requires key in e.labelAttrs ==> Source(f, e.labelAttrs[key], d, v)
    ensures key in e.labelAttrs && v.None? ==> ResolvedSelector(f, e, d) == Err(MissingLabel)
    ensures ResolvedSelector(f, e, d).Ok? ==>
      var selector := ResolvedSelector(f, e, d).value;
      && selector.kind == e.kind
      && if key in e.labelAttrs then
           && v.Some? && key in selector.attributes
           && var token := e.labelAttrs[key];
              var alone := ApplyTransforms(f, map[token := v.value], e.priorTransform);
              alone.Ok? && token in alone.value && alone.value[token] == selector.attributes[key]
         else SameHere(selector.attributes, e.staticAttrs, key)
  {
    hide Source, ResolveOptionalToken, RunProcesses, ProcessesFor, ApplyTransforms;
    if key in e.labelAttrs {
      TokensMean(f, e.labelAttrs[key], d, v);
    }
    if ResolvedSelector(f, e, d).Ok? {
      SelectorMeans(f, e, d, key);
      if key in e.labelAttrs {
        TokenAlone(f, e.labelAttrs[key], v.value, e.priorTransform);
      }
    }
  }

  lemma TokenAlone(f: Foreign, token: string, v: Value, ts: seq<Transform>)
    requires RunProcesses(f, v, ProcessesFor(token, ts)).Ok?
    ensures ApplyTransforms(f, map[token := v], ts).Ok? && token in ApplyTransforms(f, map[token := v], ts).value
    ensures ApplyTransforms(f, map[token := v], ts).value[token] == RunProcesses(f, v, ProcessesFor(token, ts)).value
  {
    hide RunProcesses, ProcessesFor, ApplyTransforms;
    var props: Props := map[token := v];
    TransformsPerProperty(f, props, ts);
    assert token in props && forall k :: k in props ==> k == token;
  }
}
