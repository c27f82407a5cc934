/** Job configurations as values (internal/config/model.go) and what they rest on outside this project. */
module Config {
  import opened Prelude
  import opened Strings
  import opened Values
  import opened Domain

  /* ----- functions of Go's library that are not modelled further ----- */

  datatype Regex = Regex(groups: nat, find: string -> Option<seq<string>>)

  datatype Foreign = Foreign(
    lower: string -> string,                  // strings.ToLower
    upper: string -> string,                  // strings.ToUpper
    sprint: Value -> string,                  // fmt.Sprint
    parseFloat: string -> Option<Double>,     // strconv.ParseFloat
    formatTime: int -> string,                // Time.Format(time.RFC3339)
    compile: string -> Option<Regex>,         // regexp.Compile
    canonical: Value -> string,               // json.Marshal
    uuid: string -> string,                   // stableUUID of a digest of the text
    secureUrl: string -> bool)                // url.Parse finds a host and the https scheme

  predicate Ascii(s: string) {
    forall i :: 0 <= i < |s| ==> s[i] < '\U{80}'
  }

  function LowerChar(c: char): char {
    if 'A' <= c <= 'Z' then (c as int - 'A' as int + 'a' as int) as char else c
  }

  function LowerAscii(s: string): (r: string)
    ensures |r| == |s|
  {
    seq(|s|, i requires 0 <= i < |s| => LowerChar(s[i]))
  }

  function UpperChar(c: char): char {
    if 'a' <= c <= 'z' then (c as int - 'a' as int + 'A' as int) as char else c
  }

  function UpperAscii(s: string): (r: string)
    ensures |r| == |s|
  {
    seq(|s|, i requires 0 <= i < |s| => UpperChar(s[i]))
  }

  /** The same letters in upper or lower case. */
  predicate SameLetters(a: string, b: string) {
    |a| == |b| && forall i :: 0 <= i < |a| ==> LowerChar(a[i]) == LowerChar(b[i])
  }

  /** The few facts about them that the proofs use. */
  ghost predicate Lawful(f: Foreign) {
    && (forall s :: f.sprint(Text(s)) == s)
    && (forall s :: Ascii(s) ==> f.lower(s) == LowerAscii(s) && f.upper(s) == UpperAscii(s))
    && (forall pattern, text :: f.compile(pattern).Some? && f.compile(pattern).value.find(text).Some?
          ==> |f.compile(pattern).value.find(text).value| == f.compile(pattern).value.groups + 1)
  }

  /* ----- templates ----- */

  /** Null stands for an absent `equals` or `not_equals`. */
  datatype Condition = Condition(
    kind: string, label_: string, equals: Value, notEquals: Value,
    greaterThan: Option<Double>, lessThan: Option<Double>)

  datatype ConditionalProperty = ConditionalProperty(
    kind: string, name: string, value: Value, fromLabel: string, conditions: seq<Condition>)

  datatype Process = Process(kind: string, pattern: string, output: string)

  datatype Transform = Transform(property: string, process: seq<Process>)

  datatype PropertyRules = PropertyRules(
    staticProps: Props,
    labelProps: map<string, string>,
    conditional: seq<ConditionalProperty>,
    transforms: seq<Transform>)

  datatype NodeTemplate = NodeTemplate(
    types: seq<string>,
    templateHashes: seq<string>,
    updatePolicy: string,
    expirationMinutes: Option<int>,
    rules: PropertyRules,
    conditions: seq<Condition>)

  datatype Endpoint = Endpoint(
    kind: string, staticAttrs: Props, labelAttrs: map<string, string>, priorTransform: seq<Transform>)

  datatype RelationshipTemplate = RelationshipTemplate(
    kind: string,
    templateHash: string,
    updatePolicy: string,
    expirationMinutes: Option<int>,
    rules: PropertyRules,
    conditions: seq<Condition>,
    source: Endpoint,
    target: Endpoint)

  datatype Job = Job(
    name: string, query: string, intervalSeconds: int,
    nodes: seq<NodeTemplate>, relationships: seq<RelationshipTemplate>)

  datatype Target = Target(name: string, baseUrl: string, azureAuth: bool, jobs: seq<Job>)

  datatype Datapoint = Datapoint(labels: map<string, string>, value: Double, timestamp: int)

  /* ----- normalizers shared by the validator and the engine ----- */

  function NormalizedTypes(types: seq<string>): seq<string> {
    if types == [] then []
    else
      var trimmed := TrimSpace(types[|types| - 1]);
      NormalizedTypes(types[..|types| - 1]) + if trimmed != "" then [trimmed] else []
  }

  /** How many of the raw types are this one, after trimming. */
  function Occurrences(types: seq<string>, t: string): nat {
    if types == [] then 0
    else Occurrences(types[..|types| - 1], t) + if TrimSpace(types[|types| - 1]) == t then 1 else 0
  }

  /** Every type that is not blank is kept as often as it occurs, trimmed; a blank one is dropped. */
  lemma {:induction false} TypesAreTrimmed(types: seq<string>, t: string)
    ensures multiset(NormalizedTypes(types))[t] == if t == "" then 0 else Occurrences(types, t)
  {
    hide TrimSpace;
    if types != [] {
      TypesAreTrimmed(types[..|types| - 1], t);
    }
  }

  method CollectNormalizedTypes(types: seq<string>) returns (out: seq<string>)
    ensures out == NormalizedTypes(types)
  {
    out := [];
    for index := 0 to |types|
      invariant out == NormalizedTypes(types[..index])
    {
      assert types[..index + 1][..index] == types[..index];
      var trimmed := TrimSpace(types[index]);
      if trimmed != "" {
        out := out + [trimmed];
      }
    }
    assert types[..|types|] == types;
  }

  const TO_UPPER: string := "TO_UPPER"
  const TO_LOWER: string := "TO_LOWER"
  const REGEX: string := "REGEX"

  function NormalizeProcessType(f: Foreign, kind: string): string {
    f.upper(TrimSpace(kind))
  }

  function NormalizeRegexPattern(pattern: string): string {
    var trimmed := TrimSpace(pattern);
    if |trimmed| >= 2 && trimmed[0] == '/' && trimmed[|trimmed| - 1] == '/'
    then TrimSpace(trimmed[1..|trimmed| - 1])
    else trimmed
  }

  function NormalizeUpdatePolicy(f: Foreign, raw: string): UpdatePolicy {
    var text := f.lower(TrimSpace(raw));
    if text == "merge" then Merge
    else if text in {"merge_at_change", "mergeatchange", "merge-at-change"} then MergeAtChange
    else Create
  }
}
