/** How the second solver example's model relates to the full `check_valid`:
    every group the scorer accepts with value above the floor is a solution
    (the truncated coefficients only loosen the share rows), the converse
    holds when the coefficients are exact, and the strict floor and the
    truncation each account for a gap between the two. */
module CpScaledScorer {
  import opened Catalog
  import opened Selection
  import opened Validity
  import opened CpSat
  import opened CpCapacity
  import opened CpScaled
  import opened CpScaledMeaning

  /** An amount within `r` of the total satisfies the row written with the
      truncated coefficient. */
  lemma {:induction false} TruncatedBound(a: nat, total: nat, r: Fraction)
    requires a as real <= r * total as real
    ensures a * Coefficient(r) <= ScalingFactor * total
  {
    var k := Coefficient(r);
    CoefficientBounds(r);
    var exact := ScalingFactor as real / r;
    assert exact * r == ScalingFactor as real;
    MulLeft(a as real, k as real, exact);
    MulLeft(exact, a as real, r * total as real);
    assert (a * k) as real == a as real * k as real;
    assert a as real * exact <= exact * (r * total as real);
    assert exact * (r * total as real) == (exact * r) * total as real;
  }

  /** A row written with an exact coefficient is the share bound itself. */
  lemma {:induction false} ExactBound(a: nat, total: nat, r: Fraction)
    requires Coefficient(r) as real == ScalingFactor as real / r
    requires a * Coefficient(r) <= ScalingFactor * total
    ensures a as real <= r * total as real
  {
    var k := Coefficient(r);
    var exact := ScalingFactor as real / r;
    assert exact * r == ScalingFactor as real;
    assert a as real * exact <= ScalingFactor as real * total as real;
    MulLeft(r, a as real * exact, ScalingFactor as real * total as real);
    assert r * (a as real * exact) == a as real * (exact * r);
  }

  /** A bound on a larger amount is a bound on a smaller one. */
  lemma {:induction false} BoundBelow(a: nat, b: nat, k: int, bound: int)
    requires a <= b && 0 <= k && b * k <= bound
    ensures a * k <= bound
  {
  }

  /** The labels of the picked items are labels of the candidates. */
  lemma {:induction false} ChosenKeys(items: Group, x: seq<int>, c: Category)
    ensures Keys(Chosen(items, x), c) <= Keys(items, c)
  {
    PickKeys(items, IntFlags(x, |items|), c);
  }

  /** A picked item's value is at most the largest picked value. */
  lemma {:induction false} PickedValueLeMax(items: Group, x: seq<int>, i: nat)
    requires i < |items| && IntFlags(x, |items|)[i]
    ensures Chosen(items, x) != [] && items[i].value <= MaxValue(Chosen(items, x))
  {
    PickedMember(items, IntFlags(x, |items|), i);
  }

  /** The label rows of one category accept every label within its limit. */
  lemma {:induction false} LabelRowsAccept(items: Group, x: seq<int>, c: Category, r: Fraction)
    requires SumValue(Chosen(items, x)) > 0
    requires !ShareExceeded(Chosen(items, x), c, r)
    ensures LabelRowsHold(items, x, c, Coefficient(r))
  {
    var g := Chosen(items, x);
    var total := SumValue(g);
    CoefficientBounds(r);
    forall key | key in Keys(items, c)
      ensures Coefficient(r) * CategoryValue(g, c, key) <= ScalingFactor * total
    {
      if key in Keys(g, c) {
        ShareAtMost(CategoryValue(g, c, key), total, r);
        TruncatedBound(CategoryValue(g, c, key), total, r);
      } else {
        CategoryValueAbsent(g, c, key);
      }
    }
  }

  /** The largest picked item satisfies the row written with coefficient `k`. */
  predicate LargestWithinLimit(items: Group, k: int, x: seq<int>)
  {
    && Chosen(items, x) != []
    && MaxValue(Chosen(items, x)) * k <= ScalingFactor * SumValue(Chosen(items, x))
  }

  /** The largest item within its share limit satisfies the truncated row. */
  lemma {:induction false} LargestRowAccepts(items: Group, p: Parameters, x: seq<int>)
    requires Chosen(items, x) != [] && SumValue(Chosen(items, x)) > 0
    requires Share(MaxValue(Chosen(items, x)), SumValue(Chosen(items, x))) <= p.highValueMax
    ensures LargestWithinLimit(items, Coefficient(p.highValueMax), x)
  {
    var g := Chosen(items, x);
    ShareAtMost(MaxValue(g), SumValue(g), p.highValueMax);
    TruncatedBound(MaxValue(g), SumValue(g), p.highValueMax);
  }

  lemma {:induction false} ForceMaxAccepts(items: Group, k: int, x: seq<int>)
    requires items != [] && 0 <= k && XVal(x, MaxIndex(items)) == 1 && LargestWithinLimit(items, k, x)
    ensures FourthHolds(items, k, ForceMax, x)
  {
    PickedValueLeMax(items, x, MaxIndex(items));
    BoundBelow(MaxValue(items), MaxValue(Chosen(items, x)), k, ScalingFactor * SumValue(Chosen(items, x)));
  }

  /** Constraint 4 in `max_equality` mode, for an extra variable holding the
      largest picked value. */
  lemma {:induction false} MaxEqualityAt(items: Group, k: int, x: seq<int>, t: int)
    requires items != [] && XVal(x, |items|) == t && t == MaxPicked(items, IntFlags(x, |items|))
    requires t * k <= ScalingFactor * SumValue(Chosen(items, x))
    ensures FourthHolds(items, k, MaxEquality, x)
  {
  }

  lemma {:induction false} MaxEqualityAccepts(items: Group, k: int, x: seq<int>)
    requires items != [] && XVal(x, |items|) == MaxPicked(items, IntFlags(x, |items|))
    requires LargestWithinLimit(items, k, x)
    ensures FourthHolds(items, k, MaxEquality, x)
  {
    MaxPickedIsGroupMax(items, IntFlags(x, |items|));
    MaxEqualityAt(items, k, x, MaxValue(Chosen(items, x)));
  }

  lemma {:induction false} MaxAllAccepts(items: Group, k: int, x: seq<int>)
    requires items != [] && 0 <= k && LargestWithinLimit(items, k, x)
    ensures FourthHolds(items, k, MaxAll, x)
  {
    var n := |items|;
    var g := Chosen(items, x);
    forall i | 0 <= i < n && IntFlags(x, n)[i] ensures items[i].value * k <= ScalingFactor * SumValue(g) {
      PickedValueLeMax(items, x, i);
      BoundBelow(items[i].value, MaxValue(g), k, ScalingFactor * SumValue(g));
    }
  }

  /** Constraint 4 accepts a group whose largest item is within its limit. */
  lemma {:induction false} FourthAccepts(items: Group, p: Parameters, mode: FourthConstraintMode, x: seq<int>)
    requires items != []
    requires mode == ForceMax ==> XVal(x, MaxIndex(items)) == 1
    requires mode == MaxEquality ==> XVal(x, |items|) == MaxPicked(items, IntFlags(x, |items|))
    requires Chosen(items, x) != [] && SumValue(Chosen(items, x)) > 0
    requires Share(MaxValue(Chosen(items, x)), SumValue(Chosen(items, x))) <= p.highValueMax
    ensures FourthHolds(items, Coefficient(p.highValueMax), mode, x)
  {
    var k := Coefficient(p.highValueMax);
    CoefficientBounds(p.highValueMax);
    LargestRowAccepts(items, p, x);
    match mode
    case ForceMax => ForceMaxAccepts(items, k, x);
    case MaxEquality => MaxEqualityAccepts(items, k, x);
    case MaxAll => MaxAllAccepts(items, k, x);
  }

  /** Completeness: an assignment of the model's shape whose group the full
      `check_valid` accepts, with total value strictly above the floor, is a
      solution of the model. Truncating the coefficients never excludes a
      valid group. */
  lemma {:induction false} ScaledAcceptsValid(items: Group, p: Parameters, mode: FourthConstraintMode, x: seq<int>)
    requires items != []
    requires |x| == |items| + (if mode == MaxEquality then 1 else 0) && Binary(x, |items|)
    requires mode == ForceMax ==> XVal(x, MaxIndex(items)) == 1
    requires mode == MaxEquality ==> XVal(x, |items|) == MaxPicked(items, IntFlags(x, |items|))
    requires SumValue(Chosen(items, x)) > p.minValue
    requires !ScorerInvalid(Chosen(items, x), p)
    ensures ScaledHolds(items, p, mode, x)
  {
    FourthAccepts(items, p, mode, x);
    LabelRowsAccept(items, x, ProductType, p.highTypeMax);
    LabelRowsAccept(items, x, Manufacturer, p.highManMax);
  }

  /** The largest picked item is one of the candidates, so it is no larger
      than the largest candidate. */
  lemma {:induction false} ChosenMaxLeMax(items: Group, x: seq<int>)
    requires items != [] && Chosen(items, x) != []
    ensures MaxValue(Chosen(items, x)) <= MaxValue(items)
  {
    PickedFrom(items, IntFlags(x, |items|), MaxIndex(Chosen(items, x)));
  }

  /** The largest picked item is picked, so a per-item row bounds it. */
  lemma {:induction false} ChosenMaxIsPicked(items: Group, x: seq<int>) returns (i: nat)
    requires Chosen(items, x) != []
    ensures i < |items| && IntFlags(x, |items|)[i] && items[i].value == MaxValue(Chosen(items, x))
  {
    PickedFrom(items, IntFlags(x, |items|), MaxIndex(Chosen(items, x)));
    i :| 0 <= i < |items| && IntFlags(x, |items|)[i] && Chosen(items, x)[MaxIndex(Chosen(items, x))] == items[i];
  }

  /** In every mode, constraint 4 bounds the largest picked item. */
  lemma {:induction false} FourthBoundsLargest(items: Group, k: int, mode: FourthConstraintMode, x: seq<int>)
    requires items != [] && 0 <= k && Chosen(items, x) != []
    requires FourthHolds(items, k, mode, x)
    ensures LargestWithinLimit(items, k, x)
  {
    var g := Chosen(items, x);
    var bound := ScalingFactor * SumValue(g);
    match mode
    case ForceMax =>
      ChosenMaxLeMax(items, x);
      BoundBelow(MaxValue(g), MaxValue(items), k, bound);
    case MaxEquality =>
      MaxPickedIsGroupMax(items, IntFlags(x, |items|));
      assert k * MaxValue(g) <= bound;
    case MaxAll =>
      var i := ChosenMaxIsPicked(items, x);
      assert items[i].value * k <= bound;
  }

  /** The coefficient for `r` is exact: `1000 / r` is a whole number. */
  predicate ExactCoefficient(r: Fraction) {
    Coefficient(r) as real == ScalingFactor as real / r
  }

  /** The label rows of one category, with an exact coefficient, are the
      scorer's share test for that category. */
  lemma {:induction false} LabelRowsExact(items: Group, x: seq<int>, c: Category, r: Fraction)
    requires SumValue(Chosen(items, x)) > 0 && ExactCoefficient(r)
    requires LabelRowsHold(items, x, c, Coefficient(r))
    ensures !ShareExceeded(Chosen(items, x), c, r)
  {
    var g := Chosen(items, x);
    var total := SumValue(g);
    ChosenKeys(items, x, c);
    forall key | key in Keys(g, c) ensures Share(CategoryValue(g, c, key), total) <= r {
      assert Coefficient(r) * CategoryValue(g, c, key) <= ScalingFactor * total;
      ExactBound(CategoryValue(g, c, key), total, r);
      ShareAtMost(CategoryValue(g, c, key), total, r);
    }
  }

  /** Soundness when the coefficients are exact: every solution of the model
      picks a group that the full `check_valid` accepts. */
  lemma {:induction false} ScaledSoundWhenExact(items: Group, p: Parameters, mode: FourthConstraintMode, x: seq<int>)
    requires items != [] && ScaledHolds(items, p, mode, x)
    requires ExactCoefficient(p.highValueMax) && ExactCoefficient(p.highTypeMax) && ExactCoefficient(p.highManMax)
    ensures SumValue(Chosen(items, x)) > 0
    ensures !ScorerInvalid(Chosen(items, x), p)
  {
    var g := Chosen(items, x);
    var total := SumValue(g);
    assert g != [];
    CoefficientBounds(p.highValueMax);
    FourthBoundsLargest(items, Coefficient(p.highValueMax), mode, x);
    ExactBound(MaxValue(g), total, p.highValueMax);
    ShareAtMost(MaxValue(g), total, p.highValueMax);
    LabelRowsExact(items, x, ProductType, p.highTypeMax);
    LabelRowsExact(items, x, Manufacturer, p.highManMax);
  }

  /** What the second solver example returns, for a solver whose reported
      solutions satisfy the model: nothing on failure, otherwise the group of
      a solution, which passes the capacity check, lies strictly above the
      floor, and passes the full `check_valid` when the coefficients are exact. */
  lemma {:induction false} ScaledResult(items: Group, p: Parameters, mode: FourthConstraintMode, m: CpModel, r: CpResponse)
    requires items != [] && IsScaledModel(m, items, p, mode)
    requires Succeeded(r.status) ==> Satisfies(m, r.values)
    ensures !Succeeded(r.status) ==> Assembled(items, r) == []
    ensures Succeeded(r.status) ==>
      && ScaledHolds(items, p, mode, r.values)
      && !CheckValidCapacity(Assembled(items, r), p.Limits()).1
      && SumValue(Assembled(items, r)) > p.minValue
    ensures Succeeded(r.status)
            && ExactCoefficient(p.highValueMax) && ExactCoefficient(p.highTypeMax) && ExactCoefficient(p.highManMax)
            ==> SumValue(Assembled(items, r)) > 0 && !ScorerInvalid(Assembled(items, r), p)
  {
    if Succeeded(r.status) {
      ScaledModelMeaning(m, items, p, mode, r.values);
      if ExactCoefficient(p.highValueMax) && ExactCoefficient(p.highTypeMax) && ExactCoefficient(p.highManMax) {
        ScaledSoundWhenExact(items, p, mode, r.values);
      }
    }
  }

  /** In `force_max` mode the largest item is always picked, so when it alone
      exceeds a capacity the model has no solution. */
  lemma {:induction false} ForceMaxNeedsLargestToFit(items: Group, p: Parameters, x: seq<int>)
    requires items != []
    requires items[MaxIndex(items)].weight > p.maxWeight || items[MaxIndex(items)].volume > p.maxVolume
    ensures !ScaledHolds(items, p, ForceMax, x)
  {
    if ScaledHolds(items, p, ForceMax, x) {
      var f := IntFlags(x, |items|);
      PickContains(items, f, MaxIndex(items), Weight);
      PickContains(items, f, MaxIndex(items), Volume);
    }
  }

  /** The picked items depend on the item variables only. */
  lemma {:induction false} ChosenIgnoresExtra(items: Group, x: seq<int>, extra: int)
    requires |x| == |items|
    ensures Chosen(items, x + [extra]) == Chosen(items, x)
    ensures forall i :: 0 <= i < |items| ==> XVal(x + [extra], i) == XVal(x, i)
  {
    assert IntFlags(x + [extra], |items|) == IntFlags(x, |items|);
  }

  /** The per-item rows of `max_all` hold exactly when the extra variable of
      `max_equality`, set to the largest picked value, satisfies its row:
      the two modes accept the same groups. */
  lemma {:induction false} MaxAllMatchesMaxEquality(items: Group, p: Parameters, x: seq<int>)
    requires items != [] && |x| == |items|
    ensures ScaledHolds(items, p, MaxAll, x)
            <==> ScaledHolds(items, p, MaxEquality, x + [MaxPicked(items, IntFlags(x, |items|))])
  {
    var n := |items|;
    var f := IntFlags(x, n);
    var mp := MaxPicked(items, f);
    var y := x + [mp];
    var k := Coefficient(p.highValueMax);
    CoefficientBounds(p.highValueMax);
    ChosenIgnoresExtra(items, x, mp);
    assert IntFlags(y, n) == f;
    assert XVal(y, n) == mp;
    var bound := ScalingFactor * SumValue(Chosen(items, x));
    if FourthHolds(items, k, MaxAll, x) {
      if mp != 0 {
        var i :| 0 <= i < n && f[i] && items[i].value == mp;
        assert items[i].value * k <= bound;
      }
      MaxEqualityAt(items, k, y, mp);
    }
    if FourthHolds(items, k, MaxEquality, y) {
      forall i | 0 <= i < n && f[i] ensures items[i].value * k <= bound {
        BoundBelow(items[i].value, mp, k, bound);
      }
    }
    assert Binary(y, n) <==> Binary(x, n);
  }
}
