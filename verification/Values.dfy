/**
 * Property values and change detection
 * (internal/repository/neo4j/property_compare.go).
 */
module Values {

  /** A float64, without its rounding: Go's `==` makes NaN differ from itself. */
  datatype Double = Finite(r: real) | Infinite(positive: bool) | NaN

  /**
   * A Go `any` that can appear in a property map. Stamp stands for the text of
   * `time.Format(time.RFC3339)`, kept as the number of seconds it denotes.
   */
  datatype Value =
    | Null
    | Bool(b: bool)
    | Text(s: string)
    | Stamp(seconds: int)
    | Integer(i: int)
    | Float(d: Double)
    | List(items: seq<Value>)
    | Dict(entries: map<string, Value>)

  type Props = map<string, Value>

  /* ----- float64(int) ----- */

  const EXACT_LIMIT: int := 0x20_0000_0000_0000 // 2^53

  /** The spacing of the float64 values around n. */
  function Spacing(n: nat): (unit: nat)
    ensures unit >= 1
  {
    if n < EXACT_LIMIT then 1 else 2 * Spacing(n / 2)
  }

  /** Round to nearest, ties to even, on a 53-bit significand. */
  function RoundMagnitude(n: nat): int {
    var unit := Spacing(n);
    var q, rest := n / unit, n % unit;
    if 2 * rest < unit || (2 * rest == unit && q % 2 == 0) then q * unit else (q + 1) * unit
  }

  function RoundToDouble(i: int): int {
    if i >= 0 then RoundMagnitude(i) else 0 - RoundMagnitude(-i)
  }

  lemma SmallIntegersAreExact(i: int)
    requires -EXACT_LIMIT <= i <= EXACT_LIMIT
    ensures RoundToDouble(i) == i
  {
  }

  /* ----- normalizeComparableValue ----- */

  /** Every number becomes a float64, every slice a []any, every map a map[string]any. */
  function Normalize(v: Value): Value {
    match v
    case Integer(i) => Float(Finite(RoundToDouble(i) as real))
    case List(items) => List(seq(|items|, i requires 0 <= i < |items| => Normalize(items[i])))
    case Dict(entries) => Dict(map k | k in entries :: Normalize(entries[k]))
    case _ => v
  }

  method NormalizeComparableValue(v: Value) returns (r: Value)
    ensures r == Normalize(v)
    decreases v
  {
    match v
    case Integer(i) =>
      r := Float(Finite(RoundToDouble(i) as real));
    case List(items) =>
      var normalized := [];
      for index := 0 to |items|
        invariant |normalized| == index
        invariant forall j :: 0 <= j < index ==> normalized[j] == Normalize(items[j])
      {
        var item := NormalizeComparableValue(items[index]);
        normalized := normalized + [item];
      }
      assert normalized == seq(|items|, i requires 0 <= i < |items| => Normalize(items[i]));
      r := List(normalized);
    case Dict(entries) =>
      var normalized: map<string, Value> := map[];
      var rest := entries.Keys;
      while rest != {}
        invariant rest <= entries.Keys && normalized.Keys == entries.Keys - rest
        invariant forall k :: k in normalized ==> normalized[k] == Normalize(entries[k])
      {
        var key :| key in rest;
        var item := NormalizeComparableValue(entries[key]);
        normalized := normalized[key := item];
        rest := rest - {key};
      }
      r := Dict(normalized);
    case _ =>
      r := v;
  }

  /* ----- reflect.DeepEqual on normalized values ----- */

  predicate DeepEqual(a: Value, b: Value) {
    match a
    case Float(d) => b.Float? && d == b.d && d != NaN
    case List(items) =>
      b.List? && |items| == |b.items| &&
      forall i :: 0 <= i < |items| ==> DeepEqual(items[i], b.items[i])
    case Dict(entries) =>
      b.Dict? && entries.Keys == b.entries.Keys &&
      forall k :: k in entries ==> DeepEqual(entries[k], b.entries[k])
    case _ => a == b
  }

  /** propertyValuesEqual */
  predicate Equal(a: Value, b: Value) {
    DeepEqual(Normalize(a), Normalize(b))
  }

  predicate NaNFree(v: Value) {
    match v
    case Float(d) => d != NaN
    case List(items) => forall i :: 0 <= i < |items| ==> NaNFree(items[i])
    case Dict(entries) => forall k :: k in entries ==> NaNFree(entries[k])
    case _ => true
  }

  lemma {:induction false} NormalizeIdempotent(v: Value)
    ensures Normalize(Normalize(v)) == Normalize(v)
  {
    match v
    case Integer(i) =>
    case List(items) =>
      forall i | 0 <= i < |items|
        ensures Normalize(Normalize(items[i])) == Normalize(items[i])
      {
        NormalizeIdempotent(items[i]);
      }
    case Dict(entries) =>
      forall k | k in entries
        ensures Normalize(Normalize(entries[k])) == Normalize(entries[k])
      {
        NormalizeIdempotent(entries[k]);
      }
    case _ =>
  }

  lemma {:induction false} DeepEqualSymmetric(a: Value, b: Value)
    requires DeepEqual(a, b)
    ensures DeepEqual(b, a)
  {
    match a
    case List(items) =>
      forall i | 0 <= i < |items|
        ensures DeepEqual(b.items[i], items[i])
      {
        DeepEqualSymmetric(items[i], b.items[i]);
      }
    case Dict(entries) =>
      forall k | k in entries
        ensures DeepEqual(b.entries[k], entries[k])
      {
        DeepEqualSymmetric(entries[k], b.entries[k]);
      }
    case _ =>
  }

  lemma {:induction false} DeepEqualTransitive(a: Value, b: Value, c: Value)
    requires DeepEqual(a, b) && DeepEqual(b, c)
    ensures DeepEqual(a, c)
  {
    match a
    case List(items) =>
      forall i | 0 <= i < |items|
        ensures DeepEqual(items[i], c.items[i])
      {
        DeepEqualTransitive(items[i], b.items[i], c.items[i]);
      }
    case Dict(entries) =>
      forall k | k in entries
        ensures DeepEqual(entries[k], c.entries[k])
      {
        DeepEqualTransitive(entries[k], b.entries[k], c.entries[k]);
      }
    case _ =>
  }

  /** A value equals itself exactly when no NaN occurs anywhere inside it. */
  lemma {:induction false} EqualReflexiveExactly(v: Value)
    ensures Equal(v, v) <==> NaNFree(v)
  {
    match v
    case List(items) =>
      forall i | 0 <= i < |items|
        ensures Equal(items[i], items[i]) <==> NaNFree(items[i])
      {
        EqualReflexiveExactly(items[i]);
      }
      assert forall i :: 0 <= i < |items| ==> Normalize(v).items[i] == Normalize(items[i]);
    case Dict(entries) =>
      forall k | k in entries
        ensures Equal(entries[k], entries[k]) <==> NaNFree(entries[k])
      {
        EqualReflexiveExactly(entries[k]);
      }
      assert forall k :: k in entries ==> Normalize(v).entries[k] == Normalize(entries[k]);
    case _ =>
  }

  /** propertyValuesEqual is an equivalence relation on NaN-free values. */
  lemma EqualIsEquivalence(a: Value, b: Value, c: Value)
    ensures NaNFree(a) ==> Equal(a, a)
    ensures Equal(a, b) ==> Equal(b, a)
    ensures Equal(a, b) && Equal(b, c) ==> Equal(a, c)
    ensures Equal(a, b) ==> NaNFree(a) && NaNFree(b)
    ensures NaNFree(a) ==> Equal(a, Normalize(a))
  {
    EqualReflexiveExactly(a);
    EqualReflexiveExactly(b);
    NormalizeIdempotent(a);
    if Equal(a, b) {
      DeepEqualSymmetric(Normalize(a), Normalize(b));
      DeepEqualTransitive(Normalize(a), Normalize(b), Normalize(a));
      DeepEqualTransitive(Normalize(b), Normalize(a), Normalize(b));
      if Equal(b, c) {
        DeepEqualTransitive(Normalize(a), Normalize(b), Normalize(c));
      }
    }
  }

  /** Integers of at most 53 bits are told apart... */
  lemma IntegersCompareExactly(i: int, j: int)
    requires -EXACT_LIMIT <= i <= EXACT_LIMIT && -EXACT_LIMIT <= j <= EXACT_LIMIT
    ensures Equal(Integer(i), Integer(j)) <==> i == j
  {
    SmallIntegersAreExact(i);
    SmallIntegersAreExact(j);
  }

  /** ...and the bound is tight: the next integer compares equal to 2^53. */
  lemma LargeIntegersCollide()
    ensures Equal(Integer(EXACT_LIMIT), Integer(EXACT_LIMIT + 1))
  {
    SmallIntegersAreExact(EXACT_LIMIT);
    assert Spacing(EXACT_LIMIT + 1) == 2 * Spacing((EXACT_LIMIT + 1) / 2) == 2;
  }

  /* ----- shouldUpdateProperties ----- */

  predicate Differs(current: Props, desired: Props, key: string)
    requires key in desired
  {
    key !in current || !Equal(current[key], desired[key])
  }

  predicate ShouldUpdate(current: Props, desired: Props) {
    exists key :: key in desired && Differs(current, desired, key)
  }

  method PropertyValuesEqual(left: Value, right: Value) returns (equal: bool)
    ensures equal == Equal(left, right)
  {
    var l := NormalizeComparableValue(left);
    var r := NormalizeComparableValue(right);
    equal := DeepEqual(l, r);
  }

  method ShouldUpdateProperties(current: Props, desired: Props) returns (update: bool)
    ensures update == ShouldUpdate(current, desired)
  {
    var rest := desired.Keys;
    while rest != {}
      invariant rest <= desired.Keys
      invariant forall k :: k in desired && k !in rest ==> !Differs(current, desired, k)
    {
      var key :| key in rest;
      if key !in current {
        assert Differs(current, desired, key);
        return true;
      }
      var same := PropertyValuesEqual(current[key], desired[key]);
      if !same {
        assert Differs(current, desired, key);
        return true;
      }
      rest := rest - {key};
    }
    return false;
  }

  function FilterManaged(properties: Props, excluded: set<string>): Props {
    map k | k in properties && k !in excluded :: properties[k]
  }

  method FilterManagedProperties(properties: Props, excluded: set<string>) returns (filtered: Props)
    ensures filtered == FilterManaged(properties, excluded)
  {
    filtered := map[];
    var rest := properties.Keys;
    while rest != {}
      invariant rest <= properties.Keys
      invariant filtered.Keys == properties.Keys - rest - excluded
      invariant forall k :: k in filtered ==> filtered[k] == properties[k]
    {
      var key :| key in rest;
      rest := rest - {key};
      if key in excluded {
        continue;
      }
      filtered := filtered[key := properties[key]];
    }
  }

  /** Cypher's `SET x += $map`: given keys are overwritten, a null removes its key. */
  function MergeProps(current: Props, given: Props): Props {
    map k | k in current.Keys + given.Keys && (k in given ==> given[k] != Null)
      :: if k in given then given[k] else current[k]
  }

  /** What the database holds never contains a null. */
  predicate Stored(props: Props) {
    forall k :: k in props ==> props[k] != Null
  }

  /** Neither a null nor a NaN: the values that survive being written and compared. */
  predicate Settled(desired: Props) {
    forall k :: k in desired ==> desired[k] != Null && NaNFree(desired[k])
  }

  predicate SameProps(a: Props, b: Props) {
    a.Keys == b.Keys && forall k :: k in a ==> a[k] == b[k] || Equal(a[k], b[k])
  }

  /** No update is reported exactly when writing would change nothing but number formats. */
  lemma ChangeDetectionExact(current: Props, desired: Props)
    requires Settled(desired)
    ensures !ShouldUpdate(current, desired) <==> SameProps(MergeProps(current, desired), current)
  {
    var merged := MergeProps(current, desired);
    if !ShouldUpdate(current, desired) {
      forall k | k in merged
        ensures k in current && (merged[k] == current[k] || Equal(merged[k], current[k]))
      {
        if k in desired {
          assert !Differs(current, desired, k);
          EqualIsEquivalence(current[k], desired[k], desired[k]);
        }
      }
      assert forall k :: k in current ==> k in merged;
      assert merged.Keys == current.Keys;
    }
    if SameProps(merged, current) {
      forall k | k in desired
        ensures !Differs(current, desired, k)
      {
        assert k in merged.Keys;
        EqualReflexiveExactly(desired[k]);
        EqualIsEquivalence(desired[k], current[k], current[k]);
      }
    }
  }

  /**
   * After the desired properties have been written, change detection goes quiet
   * if and only if none of them is null or contains a NaN; otherwise the same
   * template is reported as changed on every later run.
   */
  lemma ChangeDetectionSettlesExactly(current: Props, desired: Props)
    ensures !ShouldUpdate(MergeProps(current, desired), desired) <==> Settled(desired)
  {
    var merged := MergeProps(current, desired);
    forall k | k in desired
      ensures Differs(merged, desired, k) <==> (desired[k] == Null || !NaNFree(desired[k]))
    {
      EqualReflexiveExactly(desired[k]);
    }
  }

  /** Without nulls in the store, an unsettled value is always reported as a change. */
  lemma UnsettledAlwaysDiffers(current: Props, desired: Props)
    requires Stored(current) && !Settled(desired)
    ensures ShouldUpdate(current, desired)
  {
    var k :| k in desired && (desired[k] == Null || !NaNFree(desired[k]));
    assert Differs(current, desired, k) by {
      if k in current {
        EqualIsEquivalence(current[k], desired[k], desired[k]);
        assert desired[k] == Null ==> Normalize(current[k]) != Null;
      }
    }
  }
}
