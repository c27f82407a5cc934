/**
 * The two comparisons of property values, change detection's and the database's, kind by
 * kind, and the conversion of integers to float64 that the first one uses.
 */
module Comparisons {
  import opened Values
  import opened Filters

  /* ----- float64(int) rounds to nearest, ties to even ----- */

  predicate PowerOfTwo(n: nat) {
    n == 1 || (n > 1 && n % 2 == 0 && PowerOfTwo(n / 2))
  }

  /** A whole number that float64 represents: a significand of 53 bits times a power of two. */
  ghost predicate Representable(x: int) {
    exists m: int, unit: nat :: Significand(x, m, unit)
  }

  predicate Significand(x: int, m: int, unit: nat) {
    PowerOfTwo(unit) && -EXACT_LIMIT <= m <= EXACT_LIMIT && x == m * unit
  }

  function Abs(x: int): nat {
    if x < 0 then -x else x
  }

  lemma Doubled(unit: nat)
    requires PowerOfTwo(unit)
    ensures PowerOfTwo(2 * unit)
  {
    assert (2 * unit) / 2 == unit;
  }

  lemma {:induction false} SpacingIsPower(n: nat)
    ensures PowerOfTwo(Spacing(n))
    decreases n
  {
    hide PowerOfTwo;
    if n < EXACT_LIMIT {
      assert PowerOfTwo(1) by { OneIsPower(); }
    } else {
      SpacingIsPower(n / 2);
      Doubled(Spacing(n / 2));
    }
  }

  lemma OneIsPower()
    ensures PowerOfTwo(1)
  {
  }

  /** The spacing is the power of two that leaves a significand of 53 bits. */
  lemma {:induction false} SpacingMeans(n: nat)
    ensures PowerOfTwo(Spacing(n))
    ensures n < EXACT_LIMIT * Spacing(n)
    ensures Spacing(n) > 1 ==> EXACT_LIMIT * Spacing(n) <= 2 * n
    decreases n
  {
    hide PowerOfTwo;
    SpacingIsPower(n);
    if n >= EXACT_LIMIT {
      SpacingMeans(n / 2);
      var half := Spacing(n / 2);
      assert Spacing(n) == 2 * half && n / 2 < EXACT_LIMIT * half;
    }
  }

  /** Of two powers of two the smaller one divides the larger. */
  lemma {:induction false} PowersDivide(a: nat, b: nat) returns (k: nat)
    requires PowerOfTwo(a) && PowerOfTwo(b) && a <= b
    ensures b == k * a
    decreases b
  {
    if a == b {
      k := 1;
    } else {
      HalfPower(a, b);
      k := PowersDivide(a, b / 2);
      assert b == 2 * (b / 2) == 2 * (k * a) == (2 * k) * a;
      k := 2 * k;
    }
  }

  lemma {:induction false} HalfPower(a: nat, b: nat)
    requires PowerOfTwo(a) && PowerOfTwo(b) && a < b
    ensures b % 2 == 0 && PowerOfTwo(b / 2) && a <= b / 2
    decreases a
  {
    if a > 1 {
      HalfPower(a / 2, b / 2);
    }
  }

  lemma NextMultiple(unit: nat, q: int, k: int)
    requires q < k
    ensures q * unit + unit <= k * unit
  {
    assert k * unit == q * unit + unit + (k - q - 1) * unit;
  }

  /** A multiple of the unit that is at most half a unit away is nearest among the multiples. */
  lemma MultiplesApart(n: int, unit: nat, q: int, k: int)
    requires 2 * Abs(q * unit - n) <= unit && q != k
    ensures 2 * Abs(k * unit - n) >= unit
  {
    var x, y := q * unit, k * unit;
    if k > q {
      NextMultiple(unit, q, k);
    } else {
      NextMultiple(unit, k, q);
    }
    assert y >= x + unit || x >= y + unit;
  }

  /** What is represented with a smaller unit lies below the significands of this one. */
  lemma FinerIsSmaller(m: int, fine: nat, unit: nat)
    requires PowerOfTwo(fine) && PowerOfTwo(unit) && fine < unit && m <= EXACT_LIMIT
    ensures unit > 1 && 2 * (m * fine) <= EXACT_LIMIT * unit
  {
    HalfPower(fine, unit);
    var half := unit / 2;
    assert m * fine <= EXACT_LIMIT * fine;
    assert EXACT_LIMIT * fine <= EXACT_LIMIT * half;
  }

  lemma Division(n: nat, unit: nat) returns (q: nat, rest: nat)
    requires unit > 0
    ensures q == n / unit && rest == n % unit && n == q * unit + rest && rest < unit
  {
    q, rest := n / unit, n % unit;
  }

  /** The rounded magnitude is one of the two multiples of the spacing around n; in the middle, the even one. */
  lemma RoundedMultiple(n: nat) returns (k: nat)
    ensures RoundMagnitude(n) == k * Spacing(n) && 2 * Abs(k * Spacing(n) - n) <= Spacing(n)
    ensures 2 * Abs(k * Spacing(n) - n) == Spacing(n) ==> k % 2 == 0
    ensures n < k * Spacing(n) ==> 2 * (n - (k - 1) * Spacing(n)) >= Spacing(n)
  {
    hide *;
    var unit := Spacing(n);
    var q, rest := Division(n, unit);
    k := if 2 * rest < unit || (2 * rest == unit && q % 2 == 0) then q else q + 1;
    RoundMagnitudeIs(n, q, rest);
    var product := q * unit;
    assert (q + 1) * unit == product + unit;
    assert k * unit == if k == q then product else product + unit;
    assert k == q + 1 ==> (k - 1) * unit == product;
    assert n == product + rest;
    AbsMeans(k * unit - n);
  }

  lemma AbsMeans(x: int)
    ensures Abs(x) == if x < 0 then -x else x
  {
  }

  lemma RoundMagnitudeIs(n: nat, q: nat, rest: nat)
    requires q == n / Spacing(n) && rest == n % Spacing(n)
    ensures RoundMagnitude(n) ==
      if 2 * rest < Spacing(n) || (2 * rest == Spacing(n) && q % 2 == 0) then q * Spacing(n) else (q + 1) * Spacing(n)
  {
    hide Spacing;
  }

  /** A multiple of the spacing that is even when written with it. */
  ghost predicate Even(x: int, unit: nat) {
    exists m: int :: m % 2 == 0 && Significand(x, m, unit)
  }

  lemma FitsSignificand(n: nat, k: nat)
    requires RoundMagnitude(n) == k * Spacing(n) && 2 * Abs(k * Spacing(n) - n) <= Spacing(n)
    ensures Significand(RoundMagnitude(n), k, Spacing(n))
  {
    hide RoundMagnitude, Spacing;
    SpacingMeans(n);
    if k > EXACT_LIMIT {
      NextMultiple(Spacing(n), EXACT_LIMIT, k);
    }
  }

  lemma MagnitudeIsNearest(n: nat, x: int, m: int, unit: nat)
    requires Significand(x, m, unit)
    ensures Representable(RoundMagnitude(n))
    ensures Abs(RoundMagnitude(n) - n) <= Abs(x - n)
    ensures x != RoundMagnitude(n) && Abs(RoundMagnitude(n) - n) == Abs(x - n) ==> Even(RoundMagnitude(n), Spacing(n))
  {
    hide Spacing, RoundMagnitude, PowerOfTwo;
    SpacingMeans(n);
    var spacing := Spacing(n);
    var k := RoundedMultiple(n);
    FitsSignificand(n, k);
    if unit >= spacing {
      var factor := PowersDivide(spacing, unit);
      Regroup(m, factor, spacing);
      if k != m * factor {
        MultiplesApart(n, spacing, k, m * factor);
      }
    } else {
      FinerIsSmaller(m, unit, spacing);
      BelowTheSpacing(n, x, k);
    }
  }

  lemma Regroup(m: int, factor: int, unit: int)
    ensures m * (factor * unit) == (m * factor) * unit
  {
  }

  /** The floor of n among the multiples of its spacing is nearer to n than anything below the significands. */
  lemma BelowTheSpacing(n: nat, x: int, k: nat)
    requires Spacing(n) > 1 && 2 * x <= EXACT_LIMIT * Spacing(n)
    requires 2 * Abs(k * Spacing(n) - n) <= Spacing(n)
    requires n < k * Spacing(n) ==> 2 * (n - (k - 1) * Spacing(n)) >= Spacing(n)
    ensures Abs(k * Spacing(n) - n) <= Abs(x - n)
    ensures x != k * Spacing(n) && Abs(k * Spacing(n) - n) == Abs(x - n) ==> 2 * Abs(k * Spacing(n) - n) == Spacing(n)
  {
    hide Spacing;
    SpacingMeans(n);
    var unit, half := Spacing(n), EXACT_LIMIT / 2;
    assert x <= half * unit <= n;
    if k < half {
      NextMultiple(unit, k, half);
    } else if k > half {
      NextMultiple(unit, half, k);
      if k - 1 > half {
        NextMultiple(unit, half, k - 1);
      }
    }
  }

  /**
   * float64(i) is a number that float64 represents, none is nearer to i, and where another
   * one is as near it is the one with the even significand.
   */
  lemma RoundsToNearest(i: int, x: int)
    requires Representable(x)
    ensures Representable(RoundToDouble(i))
    ensures Abs(RoundToDouble(i) - i) <= Abs(x - i)
    ensures x != RoundToDouble(i) && Abs(RoundToDouble(i) - i) == Abs(x - i) ==> Even(RoundToDouble(i), Spacing(Abs(i)))
  {
    hide RoundMagnitude, Spacing, PowerOfTwo;
    var m, unit :| Significand(x, m, unit);
    if i >= 0 {
      MagnitudeIsNearest(i, x, m, unit);
    } else {
      NegatedSignificand(x, m, unit);
      MagnitudeIsNearest(-i, -x, -m, unit);
      var r := RoundMagnitude(-i);
      var n, u :| Significand(r, n, u);
      NegatedSignificand(r, n, u);
      if Even(r, Spacing(-i)) {
        var k :| k % 2 == 0 && Significand(r, k, Spacing(-i));
        NegatedSignificand(r, k, Spacing(-i));
        assert -k % 2 == 0;
      }
    }
  }

  lemma NegatedSignificand(x: int, m: int, unit: nat)
    requires Significand(x, m, unit)
    ensures Significand(-x, -m, unit)
  {
    hide PowerOfTwo;
  }

  /* ----- change detection ----- */

  predicate IsNumber(v: Value) {
    v.Integer? || v.Float?
  }

  function AsDouble(v: Value): Double
    requires IsNumber(v)
  {
    match v case Integer(i) => Finite(RoundToDouble(i) as real) case Float(d) => d
  }

  /**
   * Equality for change detection: numbers as float64, NaN never; lists item by item,
   * maps key by key; values of any other kinds only if they are identical.
   */
  lemma EqualMeans(a: Value, b: Value)
    ensures IsNumber(a) && IsNumber(b) ==> (Equal(a, b) <==> AsDouble(a) == AsDouble(b) && AsDouble(a) != NaN)
    ensures a.List? && b.List? ==>
      (Equal(a, b) <==> |a.items| == |b.items| && forall i :: 0 <= i < |a.items| ==> Equal(a.items[i], b.items[i]))
    ensures a.Dict? && b.Dict? ==>
      (Equal(a, b) <==> a.entries.Keys == b.entries.Keys && forall k :: k in a.entries ==> Equal(a.entries[k], b.entries[k]))
    ensures !(IsNumber(a) && IsNumber(b)) && !(a.List? && b.List?) && !(a.Dict? && b.Dict?) ==> (Equal(a, b) <==> a == b)
  {
    if a.List? && b.List? {
      EqualLists(a.items, b.items);
    } else if a.Dict? && b.Dict? {
      EqualDicts(a.entries, b.entries);
    }
  }

  lemma EqualLists(xs: seq<Value>, ys: seq<Value>)
    ensures Equal(List(xs), List(ys)) <==> |xs| == |ys| && forall i :: 0 <= i < |xs| ==> Equal(xs[i], ys[i])
  {
    var a, b := Normalize(List(xs)).items, Normalize(List(ys)).items;
    assert forall i :: 0 <= i < |xs| ==> a[i] == Normalize(xs[i]);
    assert forall i :: 0 <= i < |ys| ==> b[i] == Normalize(ys[i]);
    hide Normalize;
    assert DeepEqual(List(a), List(b)) <==> |a| == |b| && forall i :: 0 <= i < |a| ==> DeepEqual(a[i], b[i]);
    forall i | 0 <= i < |xs| == |ys|
      ensures Equal(xs[i], ys[i]) <==> DeepEqual(a[i], b[i])
    {
    }
  }

  lemma EqualDicts(xs: map<string, Value>, ys: map<string, Value>)
    ensures Equal(Dict(xs), Dict(ys)) <==> xs.Keys == ys.Keys && forall k :: k in xs ==> Equal(xs[k], ys[k])
  {
    var a, b := Normalize(Dict(xs)).entries, Normalize(Dict(ys)).entries;
    assert a.Keys == xs.Keys && forall k :: k in xs ==> a[k] == Normalize(xs[k]);
    assert b.Keys == ys.Keys && forall k :: k in ys ==> b[k] == Normalize(ys[k]);
    hide Normalize;
    assert DeepEqual(Dict(a), Dict(b)) <==> a.Keys == b.Keys && forall k :: k in a ==> DeepEqual(a[k], b[k]);
    if xs.Keys == ys.Keys {
      forall k | k in xs
        ensures Equal(xs[k], ys[k]) <==> DeepEqual(a[k], b[k])
      {
      }
    }
  }

  /* ----- the database ----- */

  /** No null, and every integer has at most 53 bits. */
  predicate Moderate(v: Value) {
    match v
    case Null => false
    case Integer(i) => -EXACT_LIMIT <= i <= EXACT_LIMIT
    case List(items) => forall i :: 0 <= i < |items| ==> Moderate(items[i])
    case Dict(entries) => forall k :: k in entries ==> Moderate(entries[k])
    case _ => true
  }

  /** On these values a selector finds a node exactly when change detection would see no change. */
  lemma {:induction false} ComparisonsAgree(a: Value, b: Value)
    requires Moderate(a) && Moderate(b)
    ensures CypherEqual(a, b) <==> Equal(a, b)
  {
    hide Equal, RoundToDouble;
    EqualMeans(a, b);
    if a.Integer? {
      SmallIntegersAreExact(a.i);
    }
    if b.Integer? {
      SmallIntegersAreExact(b.i);
    }
    match (a, b)
    case (List(xs), List(ys)) =>
      if |xs| == |ys| {
        forall i | 0 <= i < |xs|
          ensures CypherEqual(xs[i], ys[i]) <==> Equal(xs[i], ys[i])
        {
          ComparisonsAgree(xs[i], ys[i]);
        }
      }
    case (Dict(xs), Dict(ys)) =>
      if xs.Keys == ys.Keys {
        forall k | k in xs
          ensures CypherEqual(xs[k], ys[k]) <==> Equal(xs[k], ys[k])
        {
          ComparisonsAgree(xs[k], ys[k]);
        }
      }
    case _ =>
  }

  /** Where they differ: the database compares large integers exactly, and a null equals nothing, not even itself. */
  lemma ComparisonsDiffer(i: int, j: int, v: Value)
    ensures CypherEqual(Integer(i), Integer(j)) <==> i == j
    ensures CypherEqual(Integer(i), Float(Finite(j as real))) <==> i == j
    ensures !CypherEqual(Null, v) && !CypherEqual(v, Null)
    ensures Equal(Null, Null) && Equal(Integer(EXACT_LIMIT), Integer(EXACT_LIMIT + 1))
  {
    LargeIntegersCollide();
  }
}
