/** What the second solver example's model says about the picked group: a
    solution is a 0/1 choice whose items fit both capacities, whose value is
    strictly above the floor, and whose largest item and labels satisfy the
    rows written with the truncated coefficients. */
module CpScaledMeaning {
  import opened Catalog
  import opened Selection
  import opened Validity
  import opened CpSat
  import opened CpCapacity
  import opened CpScaled

  /** The items an assignment picks: those whose variable is at least 1. */
  function Chosen(items: Group, x: seq<int>): Group {
    Pick(items, IntFlags(x, |items|))
  }

  /** Every row of one category: each present label's value times `mul` is
      at most the scaled total value of the picked items. */
  predicate LabelRowsHold(items: Group, x: seq<int>, c: Category, mul: int) {
    forall key :: key in Keys(items, c) ==>
      mul * CategoryValue(Chosen(items, x), c, key) <= ScalingFactor * SumValue(Chosen(items, x))
  }

  /** Constraint 4 on the picked items, by mode. */
  predicate FourthHolds(items: Group, k: int, mode: FourthConstraintMode, x: seq<int>)
    requires items != []
  {
    var n := |items|;
    var total := SumValue(Chosen(items, x));
    match mode
    case ForceMax => MaxValue(items) * k <= ScalingFactor * total
    case MaxEquality =>
      XVal(x, n) == MaxPicked(items, IntFlags(x, n)) && k * XVal(x, n) <= ScalingFactor * total
    case MaxAll => forall i :: 0 <= i < n && IntFlags(x, n)[i] ==> items[i].value * k <= ScalingFactor * total
  }

  /** The solutions of the scaled model, stated on the picked items. */
  predicate ScaledHolds(items: Group, p: Parameters, mode: FourthConstraintMode, x: seq<int>)
    requires items != []
  {
    var n := |items|;
    var g := Chosen(items, x);
    && |x| == n + (if mode == MaxEquality then 1 else 0)
    && Binary(x, n)
    && (mode == ForceMax ==> XVal(x, MaxIndex(items)) == 1)
    && SumWeight(g) <= p.maxWeight && SumVolume(g) <= p.maxVolume
    && SumValue(g) > p.minValue
    && FourthHolds(items, Coefficient(p.highValueMax), mode, x)
    && LabelRowsHold(items, x, ProductType, Coefficient(p.highTypeMax))
    && LabelRowsHold(items, x, Manufacturer, Coefficient(p.highManMax))
  }

  /** The domains: 0/1 item variables, the pinned one in `force_max` mode,
      and the maximum variable's range in `max_equality` mode. */
  lemma {:induction false} DomainsMeaning(items: Group, mode: FourthConstraintMode, x: seq<int>)
    requires items != []
    ensures var n := |items|;
      InDomains(ModelDomains(items, mode), x)
      <==> && |x| == n + (if mode == MaxEquality then 1 else 0)
           && Binary(x, n)
           && (mode == ForceMax ==> XVal(x, MaxIndex(items)) == 1)
           && (mode == MaxEquality ==> 0 <= XVal(x, n) <= MaxValue(items))
  {
    var n := |items|;
    var d := ModelDomains(items, mode);
    var e := if mode == MaxEquality then 1 else 0;
    assert |d| == n + e;
    assert forall i :: 0 <= i < n ==> d[i] == PinnedDomains(n, MaxIndex(items), mode)[i];
    if InDomains(d, x) {
      forall i | 0 <= i < n ensures 0 <= XVal(x, i) <= 1 {
        assert d[i].lo <= x[i] <= d[i].hi;
      }
      if mode == ForceMax {
        assert d[MaxIndex(items)] == Domain(1, 1);
      }
      if mode == MaxEquality {
        assert d[n] == Domain(0, MaxValue(items));
      }
    }
    if && |x| == n + e && Binary(x, n)
       && (mode == ForceMax ==> XVal(x, MaxIndex(items)) == 1)
       && (mode == MaxEquality ==> 0 <= XVal(x, n) <= MaxValue(items))
    {
      forall i | 0 <= i < |x| ensures d[i].lo <= x[i] <= d[i].hi {
        if i < n {
          assert XVal(x, i) == x[i];
        } else {
          assert XVal(x, n) == x[i];
        }
      }
    }
  }

  /** The left-hand side of a label's row, evaluated. */
  function KeyRowTotal(items: Group, c: Category, key: string, mul: int, x: seq<int>): int {
    Eval(WeightedSum(KeyIndices(items, c, key), KeyCoeffs(items, c, key, mul)), x)
  }

  /** Extending the items by one extends a label's row by one term exactly
      when the new item carries the label. */
  lemma {:induction false} KeyRowStep(items: Group, c: Category, key: string, mul: int, x: seq<int>)
    requires |items| > 0
    ensures var n := |items|;
      KeyRowTotal(items, c, key, mul, x) == KeyRowTotal(items[..n - 1], c, key, mul, x)
         + (if KeyOf(items[n - 1], c) == key then items[n - 1].value * mul * XVal(x, n - 1) else 0)
  {
    var n := |items|;
    var p := items[..n - 1];
    if KeyOf(items[n - 1], c) == key {
      WeightedSumAppend(KeyIndices(p, c, key), KeyCoeffs(p, c, key, mul), n - 1, items[n - 1].value * mul, x);
    } else {
      assert KeyIndices(items, c, key) == KeyIndices(p, c, key);
      assert KeyCoeffs(items, c, key, mul) == KeyCoeffs(p, c, key, mul);
    }
  }

  /** The arithmetic of one step of a label's row. */
  lemma {:induction false} KeyRowArith(mul: int, before: int, v: int, xv: int, carries: bool)
    requires xv == 0 || xv == 1
    ensures mul * before + (if carries then v * mul * xv else 0)
            == mul * (before + if xv == 1 && carries then v else 0)
  {
  }

  /** The picked category value after one more item. */
  lemma {:induction false} ChosenCategoryStep(items: Group, c: Category, key: string, x: seq<int>)
    requires |items| > 0 && Binary(x, |items|)
    ensures var n := |items|;
      CategoryValue(Chosen(items, x), c, key)
      == CategoryValue(Chosen(items[..n - 1], x), c, key)
         + (if XVal(x, n - 1) == 1 && KeyOf(items[n - 1], c) == key then items[n - 1].value else 0)
  {
    var n := |items|;
    var f := IntFlags(x, n);
    IntFlagsStep(x, n - 1);
    assert f[..n - 1] == IntFlags(x, n - 1);
    PickCategoryStep(items, f, c, key);
  }

  /** One inductive step of `KeyRowValue`: if the prefix without the last
      item satisfies it, so does the whole group. */
  lemma {:induction false} KeyRowValueStep(items: Group, c: Category, key: string, mul: int, x: seq<int>)
    requires |items| > 0 && Binary(x, |items|)
    requires var p := items[..|items| - 1];
      KeyRowTotal(p, c, key, mul, x) == mul * CategoryValue(Chosen(p, x), c, key)
    ensures KeyRowTotal(items, c, key, mul, x) == mul * CategoryValue(Chosen(items, x), c, key)
  {
    var n := |items|;
    var p := items[..n - 1];
    KeyRowStep(items, c, key, mul, x);
    ChosenCategoryStep(items, c, key, x);
    KeyRowArith(mul, CategoryValue(Chosen(p, x), c, key), items[n - 1].value, XVal(x, n - 1), KeyOf(items[n - 1], c) == key);
  }

  /** On a 0/1 assignment, the left-hand side of a label's row is `mul` times
      the value of the picked items carrying the label. */
  lemma {:induction false} KeyRowValue(items: Group, c: Category, key: string, mul: int, x: seq<int>)
    requires Binary(x, |items|)
    ensures KeyRowTotal(items, c, key, mul, x) == mul * CategoryValue(Chosen(items, x), c, key)
    decreases |items|
  {
    if items == [] {
      assert Chosen(items, x) == [];
    } else {
      assert Binary(x, |items| - 1);
      KeyRowValue(items[..|items| - 1], c, key, mul, x);
      KeyRowValueStep(items, c, key, mul, x);
    }
  }

  /** One label's row holds exactly when the label's scaled share bound holds. */
  lemma {:induction false} KeyRowMeaning(items: Group, c: Category, key: string, mul: int, x: seq<int>)
    requires Binary(x, |items|)
    ensures Holds(KeyRow(items, c, key, mul), x)
            <==> mul * CategoryValue(Chosen(items, x), c, key) <= ScalingFactor * SumValue(Chosen(items, x))
  {
    KeyRowValue(items, c, key, mul, x);
    ScaledSum(items, Value, ScalingFactor, x);
    assert Holds(KeyRow(items, c, key, mul), x)
           <==> KeyRowTotal(items, c, key, mul, x) <= ScaledTotal(items, Value, ScalingFactor, x);
  }

  /** The rows of one category hold exactly when every label's bound holds,
      whatever order the rows come in. */
  lemma {:induction false} KeyRowsMeaning(rows: seq<Constraint>, items: Group, c: Category, mul: int, x: seq<int>)
    requires IsKeyRows(rows, items, c, mul) && Binary(x, |items|)
    ensures AllHold(rows, x) <==> LabelRowsHold(items, x, c, mul)
  {
    var lhs := set j | 0 <= j < |rows| :: rows[j];
    var rhs := set key | key in Keys(items, c) :: KeyRow(items, c, key, mul);
    if AllHold(rows, x) {
      forall key | key in Keys(items, c)
        ensures mul * CategoryValue(Chosen(items, x), c, key) <= ScalingFactor * SumValue(Chosen(items, x))
      {
        assert KeyRow(items, c, key, mul) in rhs;
        var j :| 0 <= j < |rows| && rows[j] == KeyRow(items, c, key, mul);
        KeyRowMeaning(items, c, key, mul, x);
      }
    }
    if LabelRowsHold(items, x, c, mul) {
      forall j | 0 <= j < |rows| ensures Holds(rows[j], x) {
        assert rows[j] in lhs;
        var key :| key in Keys(items, c) && rows[j] == KeyRow(items, c, key, mul);
        KeyRowMeaning(items, c, key, mul, x);
      }
    }
  }

  /** Rows 1 to 3: the capacities and the strict floor. */
  lemma {:induction false} FirstRowsMeaning(items: Group, p: Parameters, x: seq<int>)
    requires Binary(x, |items|)
    ensures var g := Chosen(items, x);
      AllHold([ LessOrEqual(ScaledSumExpr(items, Weight, ScalingFactor), Constant(p.maxWeight * ScalingFactor)),
                LessOrEqual(ScaledSumExpr(items, Volume, ScalingFactor), Constant(p.maxVolume * ScalingFactor)),
                GreaterThan(ValueSum(items), Constant(p.minValue * ScalingFactor)) ], x)
      <==> SumWeight(g) <= p.maxWeight && SumVolume(g) <= p.maxVolume && SumValue(g) > p.minValue
  {
    var g := Chosen(items, x);
    var cs := [ LessOrEqual(ScaledSumExpr(items, Weight, ScalingFactor), Constant(p.maxWeight * ScalingFactor)),
                LessOrEqual(ScaledSumExpr(items, Volume, ScalingFactor), Constant(p.maxVolume * ScalingFactor)),
                GreaterThan(ValueSum(items), Constant(p.minValue * ScalingFactor)) ];
    ScaledSum(items, Weight, ScalingFactor, x);
    ScaledSum(items, Volume, ScalingFactor, x);
    ScaledSum(items, Value, ScalingFactor, x);
    assert Holds(cs[0], x) <==> ScalingFactor * SumWeight(g) <= p.maxWeight * ScalingFactor;
    assert Holds(cs[1], x) <==> ScalingFactor * SumVolume(g) <= p.maxVolume * ScalingFactor;
    assert Holds(cs[2], x) <==> ScalingFactor * SumValue(g) > p.minValue * ScalingFactor;
    assert AllHold(cs, x) <==> Holds(cs[0], x) && Holds(cs[1], x) && Holds(cs[2], x);
  }

  /** The value of the `j`-th expression of `val_sets` in `max_equality` mode. */
  lemma {:induction false} ValSetEval(items: Group, x: seq<int>, j: nat)
    requires Binary(x, |items|) && j < |ValSets(items, MaxEquality)|
    ensures var n := |items|;
      Eval(ValSets(items, MaxEquality)[j], x)
      == if j < n then 0 else if IntFlags(x, n)[j - n] then items[j - n].value else 0
  {
    var n := |items|;
    var e := ValSets(items, MaxEquality)[j];
    if j >= n {
      assert e == SingleTerm(j - n, items[j - n].value);
      SingleTermEval(j - n, items[j - n].value, x);
      if IntFlags(x, n)[j - n] {
        assert XVal(x, j - n) == 1;
      } else {
        assert XVal(x, j - n) == 0;
      }
    } else {
      assert e == Constant(0);
    }
  }

  /** Every expression of `val_sets` lies between 0 and the largest picked value. */
  lemma {:induction false} ValSetsBounded(items: Group, x: seq<int>)
    requires Binary(x, |items|)
    ensures var es := ValSets(items, MaxEquality);
      forall j :: 0 <= j < |es| ==> 0 <= Eval(es[j], x) <= MaxPicked(items, IntFlags(x, |items|))
  {
    var es := ValSets(items, MaxEquality);
    forall j | 0 <= j < |es| ensures 0 <= Eval(es[j], x) <= MaxPicked(items, IntFlags(x, |items|)) {
      ValSetEval(items, x, j);
    }
  }

  /** Some expression of `val_sets` takes the largest picked value. */
  lemma {:induction false} ValSetsReachMax(items: Group, x: seq<int>) returns (j: nat)
    requires items != [] && Binary(x, |items|)
    ensures j < |ValSets(items, MaxEquality)|
    ensures Eval(ValSets(items, MaxEquality)[j], x) == MaxPicked(items, IntFlags(x, |items|))
  {
    var n := |items|;
    var f := IntFlags(x, n);
    var m := MaxPicked(items, f);
    if m == 0 {
      j := 0;
    } else {
      var i :| 0 <= i < n && f[i] && items[i].value == m;
      j := n + i;
    }
    ValSetEval(items, x, j);
  }

  /** `Holds` of a maximum constraint, for a target known to bound the
      expressions from above and reach one of them. */
  lemma {:induction false} EqualsMaxHoldsAt(target: nat, es: seq<LinearExpr>, x: seq<int>, j: nat)
    requires forall i :: 0 <= i < |es| ==> Eval(es[i], x) <= XVal(x, target)
    requires j < |es| && Eval(es[j], x) == XVal(x, target)
    ensures Holds(EqualsMax(target, es), x)
  {
  }

  /** `AddMaxEquality(max_value_var, val_sets)` pins the extra variable to the
      largest picked value, or 0 when nothing is picked. */
  lemma {:induction false} EqualsMaxMeaning(items: Group, x: seq<int>)
    requires items != [] && Binary(x, |items|)
    ensures var n := |items|;
      Holds(EqualsMax(n, ValSets(items, MaxEquality)), x) <==> XVal(x, n) == MaxPicked(items, IntFlags(x, n))
  {
    var n := |items|;
    var es := ValSets(items, MaxEquality);
    var t := XVal(x, n);
    var m := MaxPicked(items, IntFlags(x, n));
    ValSetsBounded(items, x);
    var j := ValSetsReachMax(items, x);
    if t == m {
      EqualsMaxHoldsAt(n, es, x, j);
    }
    if Holds(EqualsMax(n, es), x) {
      assert m <= t;
      var j' :| 0 <= j' < |es| && Eval(es[j'], x) == t;
      assert t <= m;
    }
  }

  /** A one-term row against the scaled total value. */
  lemma {:induction false} TermRowMeaning(items: Group, i: nat, c: int, x: seq<int>)
    requires Binary(x, |items|)
    ensures Holds(LessOrEqual(SingleTerm(i, c), ValueSum(items)), x)
            <==> c * XVal(x, i) <= ScalingFactor * SumValue(Chosen(items, x))
  {
    ScaledSum(items, Value, ScalingFactor, x);
    SingleTermEval(i, c, x);
  }

  /** Constraint 4 in `force_max` mode. */
  lemma {:induction false} ForceMaxRowMeaning(items: Group, k: int, x: seq<int>)
    requires items != [] && Binary(x, |items|) && XVal(x, MaxIndex(items)) == 1
    ensures AllHold(FourthRows(items, k, ForceMax), x) <==> FourthHolds(items, k, ForceMax, x)
  {
    var c := MaxValue(items) * k;
    var row := LessOrEqual(SingleTerm(MaxIndex(items), c), ValueSum(items));
    assert FourthRows(items, k, ForceMax) == [row];
    assert [row][0] == row;
    TermRowMeaning(items, MaxIndex(items), c, x);
    assert c * XVal(x, MaxIndex(items)) == c;
  }

  /** Constraint 4 in `max_equality` mode. */
  lemma {:induction false} MaxEqualityRowsMeaning(items: Group, k: int, x: seq<int>)
    requires items != [] && Binary(x, |items|)
    ensures AllHold(FourthRows(items, k, MaxEquality), x) <==> FourthHolds(items, k, MaxEquality, x)
  {
    TermRowMeaning(items, |items|, k, x);
    EqualsMaxMeaning(items, x);
    var rows := FourthRows(items, k, MaxEquality);
    assert AllHold(rows, x) <==> Holds(rows[0], x) && Holds(rows[1], x);
  }

  /** Constraint 4 in `max_all` mode. */
  lemma {:induction false} MaxAllRowsMeaning(items: Group, k: int, x: seq<int>)
    requires items != [] && Binary(x, |items|)
    ensures AllHold(FourthRows(items, k, MaxAll), x) <==> FourthHolds(items, k, MaxAll, x)
  {
    var n := |items|;
    var total := SumValue(Chosen(items, x));
    var rows := FourthRows(items, k, MaxAll);
    var f := IntFlags(x, n);
    forall i | 0 <= i < n
      ensures Holds(rows[i], x) <==> (f[i] ==> items[i].value * k <= ScalingFactor * total)
    {
      TermRowMeaning(items, i, items[i].value * k, x);
      if f[i] {
        assert XVal(x, i) == 1;
      } else {
        assert XVal(x, i) == 0;
      }
    }
  }

  /** Constraint 4 holds exactly as `FourthHolds` says, in every mode. */
  lemma {:induction false} FourthRowsMeaning(items: Group, k: int, mode: FourthConstraintMode, x: seq<int>)
    requires items != [] && Binary(x, |items|)
    requires mode == ForceMax ==> XVal(x, MaxIndex(items)) == 1
    ensures AllHold(FourthRows(items, k, mode), x) <==> FourthHolds(items, k, mode, x)
  {
    match mode
    case ForceMax => ForceMaxRowMeaning(items, k, x);
    case MaxEquality => MaxEqualityRowsMeaning(items, k, x);
    case MaxAll => MaxAllRowsMeaning(items, k, x);
  }

  /** Constraints 1 to 4. */
  lemma {:induction false} FixedRowsMeaning(items: Group, p: Parameters, mode: FourthConstraintMode, x: seq<int>)
    requires items != [] && Binary(x, |items|)
    requires mode == ForceMax ==> XVal(x, MaxIndex(items)) == 1
    ensures var g := Chosen(items, x);
      AllHold(FixedRows(items, p, mode), x)
      <==> && SumWeight(g) <= p.maxWeight && SumVolume(g) <= p.maxVolume && SumValue(g) > p.minValue
           && FourthHolds(items, Coefficient(p.highValueMax), mode, x)
  {
    var first := [ LessOrEqual(ScaledSumExpr(items, Weight, ScalingFactor), Constant(p.maxWeight * ScalingFactor)),
                   LessOrEqual(ScaledSumExpr(items, Volume, ScalingFactor), Constant(p.maxVolume * ScalingFactor)),
                   GreaterThan(ValueSum(items), Constant(p.minValue * ScalingFactor)) ];
    var fourth := FourthRows(items, Coefficient(p.highValueMax), mode);
    assert FixedRows(items, p, mode) == first + fourth;
    AllHoldAppend(first, fourth, x);
    FirstRowsMeaning(items, p, x);
    FourthRowsMeaning(items, Coefficient(p.highValueMax), mode, x);
  }

  /** The solutions of any model the second solver example may build are
      exactly the assignments `ScaledHolds` describes, whatever order the
      label rows come in. */
  lemma {:induction false} ScaledModelMeaning(m: CpModel, items: Group, p: Parameters, mode: FourthConstraintMode, x: seq<int>)
    requires items != [] && IsScaledModel(m, items, p, mode)
    ensures Satisfies(m, x) <==> ScaledHolds(items, p, mode, x)
  {
    var n := |items|;
    DomainsMeaning(items, mode, x);
    MaxPickedLeMax(items, IntFlags(x, n));
    if Binary(x, n) && (mode == ForceMax ==> XVal(x, MaxIndex(items)) == 1) {
      var fixed := FixedRows(items, p, mode);
      var t := |Keys(items, ProductType)|;
      var cs := m.constraints;
      var typeRows := cs[|fixed|..|fixed| + t];
      var manRows := cs[|fixed| + t..];
      assert cs == fixed + typeRows + manRows;
      AllHoldAppend(fixed + typeRows, manRows, x);
      AllHoldAppend(fixed, typeRows, x);
      FixedRowsMeaning(items, p, mode, x);
      KeyRowsMeaning(typeRows, items, ProductType, Coefficient(p.highTypeMax), x);
      KeyRowsMeaning(manRows, items, Manufacturer, Coefficient(p.highManMax), x);
    }
  }
}
