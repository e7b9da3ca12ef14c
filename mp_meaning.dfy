/** What the third solver example's problem says about the picked group: a
    solution is a 0/1 choice, with the largest item pinned in `force_max`
    mode, whose items fit both capacities, whose value reaches the floor, and
    whose largest item and labels hold at most their share of the value. */
module MpMeaning {
  import opened Catalog
  import opened Selection
  import opened MpSolver
  import opened MpKnapsack

  /** Label `key` holds at most `r` of the value of `g`. */
  predicate LabelWithin(g: Group, c: Category, key: string, r: Fraction) {
    CategoryValue(g, c, key) as real <= r * SumValue(g) as real
  }

  /** Every present label holds at most `r` of the picked value. */
  predicate LabelRowsHold(items: Group, v: seq<real>, c: Category, r: Fraction) {
    forall key :: key in Keys(items, c) ==> LabelWithin(MipChosen(items, v), c, key, r)
  }

  /** Constraint 4 on the picked items, by mode. */
  predicate FourthHolds(items: Group, r: Fraction, mode: FourthConstraintMode, v: seq<real>)
    requires items != []
  {
    var n := |items|;
    var total := SumValue(MipChosen(items, v)) as real;
    match mode
    case ForceMax => MaxValue(items) as real <= r * total
    case MaxAll => forall i :: 0 <= i < n && RealFlags(v, n)[i] ==> items[i].value as real <= r * total
  }

  /** The solutions of the problem, stated on the picked items. */
  predicate MipHolds(items: Group, p: Parameters, mode: FourthConstraintMode, v: seq<real>)
    requires items != []
  {
    var n := |items|;
    var g := MipChosen(items, v);
    && |v| == n
    && ZeroOne(v, n)
    && (mode == ForceMax ==> Val(v, MaxIndex(items)) == 1.0)
    && SumWeight(g) <= p.maxWeight && SumVolume(g) <= p.maxVolume
    && SumValue(g) >= p.minValue
    && FourthHolds(items, p.highValueMax, mode, v)
    && LabelRowsHold(items, v, ProductType, p.highTypeMax)
    && LabelRowsHold(items, v, Manufacturer, p.highManMax)
  }

  /** The variable bounds: whole numbers in [0, 1], the pinned one in
      `force_max` mode equal to 1. */
  lemma {:induction false} BoundsMeaning(items: Group, mode: FourthConstraintMode, v: seq<real>)
    requires items != []
    ensures var n := |items|;
      WithinBounds(PinnedVars(n, MaxIndex(items), mode), v)
      <==> |v| == n && ZeroOne(v, n) && (mode == ForceMax ==> Val(v, MaxIndex(items)) == 1.0)
  {
    var n := |items|;
    var vars := PinnedVars(n, MaxIndex(items), mode);
    if WithinBounds(vars, v) {
      forall i | 0 <= i < n ensures Val(v, i) == 0.0 || Val(v, i) == 1.0 {
        assert 0.0 <= v[i] <= 1.0;
        IntegralZeroOne(v[i]);
      }
      if mode == ForceMax {
        assert vars[MaxIndex(items)] == IntVar(1, 1);
      }
    }
    if |v| == n && ZeroOne(v, n) && (mode == ForceMax ==> Val(v, MaxIndex(items)) == 1.0) {
      forall i | 0 <= i < |v| ensures vars[i].lb as real <= v[i] <= vars[i].ub as real && Integral(v[i]) {
        assert Val(v, i) == v[i];
      }
    }
  }

  /** The picked items of a prefix are picked by the prefix of the flags. */
  lemma {:induction false} ChosenPrefix(items: Group, v: seq<real>)
    requires |items| > 0
    ensures var n := |items|;
      RealFlags(v, n)[..n - 1] == RealFlags(v, n - 1)
      && MipChosen(items[..n - 1], v) == Pick(items[..n - 1], RealFlags(v, n)[..n - 1])
  {
    RealFlagsStep(v, |items| - 1);
  }

  /** One more item adds its amount times its variable to an amount sum. */
  lemma {:induction false} AmountSumStep(items: Group, a: Attribute, v: seq<real>)
    requires |items| > 0
    ensures var n := |items|;
      Eval(AmountSum(items, a), v) == Eval(AmountSum(items[..n - 1], a), v) + Amount(items[n - 1], a) as real * Val(v, n - 1)
  {
    var n := |items|;
    var p := items[..n - 1];
    assert AmountTerms(items, a) == AmountTerms(p, a) + [Term(n - 1, Amount(items[n - 1], a) as real)];
    AddTermEval(AmountSum(p, a), n - 1, Amount(items[n - 1], a) as real, v);
  }

  /** A 0/1 variable times an amount is the amount or nothing. */
  lemma {:induction false} ZeroOneTimes(amount: nat, x: real)
    requires x == 0.0 || x == 1.0
    ensures amount as real * x == (if x >= 1.0 then amount else 0) as real
  {
  }

  /** One inductive step of `AmountSumValue`. */
  lemma {:induction false} AmountSumValueStep(items: Group, a: Attribute, v: seq<real>)
    requires |items| > 0 && ZeroOne(v, |items|)
    requires var p := items[..|items| - 1]; Eval(AmountSum(p, a), v) == Sum(MipChosen(p, v), a) as real
    ensures Eval(AmountSum(items, a), v) == Sum(MipChosen(items, v), a) as real
  {
    var n := |items|;
    var f := RealFlags(v, n);
    var x := Val(v, n - 1);
    var amount := Amount(items[n - 1], a);
    var before := Sum(MipChosen(items[..n - 1], v), a);
    assert Eval(AmountSum(items, a), v) == before as real + amount as real * x by {
      AmountSumStep(items, a, v);
    }
    assert Sum(MipChosen(items, v), a) == before + (if f[n - 1] then amount else 0) by {
      ChosenPrefix(items, v);
      PickSumStep(items, f, a);
    }
    assert f[n - 1] <==> x >= 1.0;
    ZeroOneTimes(amount, x);
  }

  /** On a 0/1 assignment, an amount sum is the amount of the picked items. */
  lemma {:induction false} AmountSumValue(items: Group, a: Attribute, v: seq<real>)
    requires ZeroOne(v, |items|)
    ensures Eval(AmountSum(items, a), v) == Sum(MipChosen(items, v), a) as real
    decreases |items|
  {
    if items == [] {
      assert MipChosen(items, v) == [];
    } else {
      assert ZeroOne(v, |items| - 1);
      AmountSumValue(items[..|items| - 1], a, v);
      AmountSumValueStep(items, a, v);
    }
  }

  /** Dividing by a positive number and comparing is comparing against the product. */
  lemma {:induction false} DivAtMost(a: real, r: real, t: real)
    requires r > 0.0
    ensures a / r <= t <==> a <= r * t
  {
    assert r * (a / r) == a;
    if a / r <= t {
      assert r * (a / r) <= r * t;
    } else {
      assert r * t < r * (a / r);
    }
  }

  /** The arithmetic of one step of a label's row: `prev` and `total` are the
      row's value before and after an item, `before` and `after` the label's
      picked value. */
  lemma {:induction false} LabelArith(prev: real, total: real, before: nat, after: nat, r: Fraction, value: nat, adds: bool)
    requires prev == before as real / r
    requires total == prev + (if adds then value as real / r else 0.0)
    requires after == before + (if adds then value else 0)
    ensures total == after as real / r
  {
  }

  /** The value of a label's terms. */
  function LabelTotal(items: Group, c: Category, key: string, r: Fraction, v: seq<real>): real {
    Eval(LinearExpr(LabelTerms(items, c, key, r), 0.0), v)
  }

  /** One more item adds a term to a label's row exactly when it carries the label. */
  lemma {:induction false} LabelTotalStep(items: Group, c: Category, key: string, r: Fraction, v: seq<real>)
    requires |items| > 0
    ensures var n := |items|;
      LabelTotal(items, c, key, r, v) == LabelTotal(items[..n - 1], c, key, r, v)
        + (if KeyOf(items[n - 1], c) == key then items[n - 1].value as real / r * Val(v, n - 1) else 0.0)
  {
    var n := |items|;
    var p := items[..n - 1];
    if KeyOf(items[n - 1], c) == key {
      AddTermEval(LinearExpr(LabelTerms(p, c, key, r), 0.0), n - 1, items[n - 1].value as real / r, v);
    } else {
      assert LabelTerms(items, c, key, r) == LabelTerms(p, c, key, r);
    }
  }

  /** On a 0/1 variable, one more item adds its value over `r` to a label's
      row exactly when it is picked and carries the label. */
  lemma {:induction false} LabelTotalPickStep(items: Group, c: Category, key: string, r: Fraction, v: seq<real>)
    requires |items| > 0
    requires Val(v, |items| - 1) == 0.0 || Val(v, |items| - 1) == 1.0
    ensures var n := |items|;
      LabelTotal(items, c, key, r, v) == LabelTotal(items[..n - 1], c, key, r, v)
        + (if RealFlags(v, n)[n - 1] && KeyOf(items[n - 1], c) == key then items[n - 1].value as real / r else 0.0)
  {
    var n := |items|;
    var coeff := items[n - 1].value as real / r;
    RealFlagsStep(v, n - 1);
    assert RealFlags(v, n)[n - 1] <==> Val(v, n - 1) >= 1.0;
    LabelTotalStep(items, c, key, r, v);
    if Val(v, n - 1) == 1.0 {
      assert coeff * Val(v, n - 1) == coeff;
    } else {
      assert coeff * Val(v, n - 1) == 0.0;
    }
  }

  /** One inductive step of `LabelTotalValue`. */
  lemma {:induction false} LabelTotalValueStep(items: Group, c: Category, key: string, r: Fraction, v: seq<real>)
    requires |items| > 0 && ZeroOne(v, |items|)
    requires var p := items[..|items| - 1];
      LabelTotal(p, c, key, r, v) == CategoryValue(MipChosen(p, v), c, key) as real / r
    ensures LabelTotal(items, c, key, r, v) == CategoryValue(MipChosen(items, v), c, key) as real / r
  {
    var n := |items|;
    var f := RealFlags(v, n);
    var adds := f[n - 1] && KeyOf(items[n - 1], c) == key;
    var before := CategoryValue(MipChosen(items[..n - 1], v), c, key);
    var after := CategoryValue(MipChosen(items, v), c, key);
    LabelTotalPickStep(items, c, key, r, v);
    assert after == before + (if adds then items[n - 1].value else 0) by {
      ChosenPrefix(items, v);
      PickCategoryStep(items, f, c, key);
    }
    LabelArith(LabelTotal(items[..n - 1], c, key, r, v), LabelTotal(items, c, key, r, v), before, after, r, items[n - 1].value, adds);
  }

  /** On a 0/1 assignment, a label's row adds up the value of the picked
      items carrying the label, divided by the limit. */
  lemma {:induction false} LabelTotalValue(items: Group, c: Category, key: string, r: Fraction, v: seq<real>)
    requires ZeroOne(v, |items|)
    ensures LabelTotal(items, c, key, r, v) == CategoryValue(MipChosen(items, v), c, key) as real / r
    decreases |items|
  {
    if items == [] {
      assert MipChosen(items, v) == [];
    } else {
      assert ZeroOne(v, |items| - 1);
      LabelTotalValue(items[..|items| - 1], c, key, r, v);
      LabelTotalValueStep(items, c, key, r, v);
    }
  }

  /** On a 0/1 assignment, a label's row compares the label's picked value
      over `r` with the picked value. */
  lemma {:induction false} LabelRowTotals(items: Group, c: Category, key: string, r: Fraction, v: seq<real>)
    requires ZeroOne(v, |items|)
    ensures var g := MipChosen(items, v);
      Holds(LabelRow(items, c, key, r), v) <==> CategoryValue(g, c, key) as real / r <= SumValue(g) as real
  {
    LabelTotalValue(items, c, key, r, v);
    AmountSumValue(items, Value, v);
  }

  /** The label bound, divided through by `r`. */
  lemma {:induction false} LabelWithinDiv(g: Group, c: Category, key: string, r: Fraction)
    ensures LabelWithin(g, c, key, r) <==> CategoryValue(g, c, key) as real / r <= SumValue(g) as real
  {
    DivAtMost(CategoryValue(g, c, key) as real, r, SumValue(g) as real);
  }

  /** One label's row holds exactly when the label holds at most `r` of the
      picked value. */
  lemma {:induction false} LabelRowMeaning(items: Group, c: Category, key: string, r: Fraction, v: seq<real>)
    requires ZeroOne(v, |items|)
    ensures Holds(LabelRow(items, c, key, r), v) <==> LabelWithin(MipChosen(items, v), c, key, r)
  {
    LabelRowTotals(items, c, key, r, v);
    LabelWithinDiv(MipChosen(items, v), c, key, r);
  }

  /** The rows of one category hold exactly when every label's bound holds,
      whatever order the rows come in. */
  lemma {:induction false} LabelRowsMeaning(rows: seq<Row>, items: Group, c: Category, r: Fraction, v: seq<real>)
    requires IsLabelRows(rows, items, c, r) && ZeroOne(v, |items|)
    ensures AllHold(rows, v) <==> LabelRowsHold(items, v, c, r)
  {
    var lhs := set j | 0 <= j < |rows| :: rows[j];
    var rhs := set key | key in Keys(items, c) :: LabelRow(items, c, key, r);
    if AllHold(rows, v) {
      forall key | key in Keys(items, c) ensures LabelWithin(MipChosen(items, v), c, key, r) {
        assert LabelRow(items, c, key, r) in rhs;
        var j :| 0 <= j < |rows| && rows[j] == LabelRow(items, c, key, r);
        LabelRowMeaning(items, c, key, r, v);
      }
    }
    if LabelRowsHold(items, v, c, r) {
      forall j | 0 <= j < |rows| ensures Holds(rows[j], v) {
        assert rows[j] in lhs;
        var key :| key in Keys(items, c) && rows[j] == LabelRow(items, c, key, r);
        LabelRowMeaning(items, c, key, r, v);
      }
    }
  }

  /** Rows 1 to 3: the capacities and the floor. */
  lemma {:induction false} FirstRowsMeaning(items: Group, p: Parameters, v: seq<real>)
    requires ZeroOne(v, |items|)
    ensures var g := MipChosen(items, v);
      AllHold([ AtMost(AmountSum(items, Weight), Constant(p.maxWeight as real)),
                AtMost(AmountSum(items, Volume), Constant(p.maxVolume as real)),
                AtLeast(ValueSum(items), Constant(p.minValue as real)) ], v)
      <==> SumWeight(g) <= p.maxWeight && SumVolume(g) <= p.maxVolume && SumValue(g) >= p.minValue
  {
    var rows := [ AtMost(AmountSum(items, Weight), Constant(p.maxWeight as real)),
                  AtMost(AmountSum(items, Volume), Constant(p.maxVolume as real)),
                  AtLeast(ValueSum(items), Constant(p.minValue as real)) ];
    AmountSumValue(items, Weight, v);
    AmountSumValue(items, Volume, v);
    AmountSumValue(items, Value, v);
    assert AllHold(rows, v) <==> Holds(rows[0], v) && Holds(rows[1], v) && Holds(rows[2], v);
  }

  /** A one-term row against the value sum. */
  lemma {:induction false} TermRowMeaning(items: Group, i: nat, coeff: real, v: seq<real>)
    requires ZeroOne(v, |items|)
    ensures Holds(AtMost(SingleTerm(i, coeff), ValueSum(items)), v)
            <==> coeff * Val(v, i) <= SumValue(MipChosen(items, v)) as real
  {
    AmountSumValue(items, Value, v);
    SingleTermEval(i, coeff, v);
  }

  /** Constraint 4 in `force_max` mode bounds the largest item. */
  lemma {:induction false} ForceMaxHolds(items: Group, r: Fraction, v: seq<real>)
    requires items != []
    ensures FourthHolds(items, r, ForceMax, v) <==> MaxValue(items) as real <= r * SumValue(MipChosen(items, v)) as real
  {
  }

  /** A share row for a picked item: its value over `r` against the value
      sum holds exactly when the value is at most `r` of the picked value. */
  lemma {:induction false} ShareRowMeaning(items: Group, i: nat, amount: nat, r: Fraction, v: seq<real>)
    requires ZeroOne(v, |items|) && Val(v, i) == 1.0
    ensures Holds(AtMost(SingleTerm(i, amount as real / r), ValueSum(items)), v)
            <==> amount as real <= r * SumValue(MipChosen(items, v)) as real
  {
    var coeff := amount as real / r;
    var total := SumValue(MipChosen(items, v)) as real;
    assert Holds(AtMost(SingleTerm(i, coeff), ValueSum(items)), v) <==> coeff <= total by {
      TermRowMeaning(items, i, coeff, v);
      assert coeff * 1.0 == coeff;
    }
    DivAtMost(amount as real, r, total);
  }

  /** Constraint 4 in `force_max` mode, with the largest item pinned. */
  lemma {:induction false} ForceMaxRowMeaning(items: Group, r: Fraction, v: seq<real>)
    requires items != [] && ZeroOne(v, |items|) && Val(v, MaxIndex(items)) == 1.0
    ensures AllHold(FourthRows(items, r, ForceMax), v) <==> FourthHolds(items, r, ForceMax, v)
  {
    var row := AtMost(SingleTerm(MaxIndex(items), MaxValue(items) as real / r), ValueSum(items));
    assert FourthRows(items, r, ForceMax) == [row];
    AllHoldSingle(row, v);
    ShareRowMeaning(items, MaxIndex(items), MaxValue(items), r, v);
    ForceMaxHolds(items, r, v);
  }

  /** Constraint 4 in `max_all` mode. */
  lemma {:induction false} MaxAllRowsMeaning(items: Group, r: Fraction, v: seq<real>)
    requires items != [] && ZeroOne(v, |items|)
    ensures AllHold(FourthRows(items, r, MaxAll), v) <==> FourthHolds(items, r, MaxAll, v)
  {
    var n := |items|;
    var total := SumValue(MipChosen(items, v)) as real;
    var rows := FourthRows(items, r, MaxAll);
    var f := RealFlags(v, n);
    forall i | 0 <= i < n
      ensures Holds(rows[i], v) <==> (f[i] ==> items[i].value as real <= r * total)
    {
      TermRowMeaning(items, i, items[i].value as real / r, v);
      DivAtMost(items[i].value as real, r, total);
      if f[i] {
        assert Val(v, i) == 1.0;
      } else {
        assert Val(v, i) == 0.0;
      }
    }
  }

  /** Constraints 1 to 4. */
  lemma {:induction false} FixedRowsMeaning(items: Group, p: Parameters, mode: FourthConstraintMode, v: seq<real>)
    requires items != [] && ZeroOne(v, |items|)
    requires mode == ForceMax ==> Val(v, MaxIndex(items)) == 1.0
    ensures var g := MipChosen(items, v);
      AllHold(FixedRows(items, p, mode), v)
      <==> && SumWeight(g) <= p.maxWeight && SumVolume(g) <= p.maxVolume && SumValue(g) >= p.minValue
           && FourthHolds(items, p.highValueMax, mode, v)
  {
    var first := [ AtMost(AmountSum(items, Weight), Constant(p.maxWeight as real)),
                   AtMost(AmountSum(items, Volume), Constant(p.maxVolume as real)),
                   AtLeast(ValueSum(items), Constant(p.minValue as real)) ];
    var fourth := FourthRows(items, p.highValueMax, mode);
    assert FixedRows(items, p, mode) == first + fourth;
    AllHoldAppend(first, fourth, v);
    FirstRowsMeaning(items, p, v);
    match mode
    case ForceMax => ForceMaxRowMeaning(items, p.highValueMax, v);
    case MaxAll => MaxAllRowsMeaning(items, p.highValueMax, v);
  }

  /** The solutions of any problem the third solver example may build are
      exactly the assignments `MipHolds` describes, whatever order the label
      rows come in. */
  lemma {:induction false} MpModelMeaning(m: Problem, items: Group, p: Parameters, mode: FourthConstraintMode, v: seq<real>)
    requires items != [] && IsMpModel(m, items, p, mode)
    ensures Satisfies(m, v) <==> MipHolds(items, p, mode, v)
  {
    var n := |items|;
    BoundsMeaning(items, mode, v);
    if ZeroOne(v, n) && (mode == ForceMax ==> Val(v, MaxIndex(items)) == 1.0) {
      var fixed := FixedRows(items, p, mode);
      var t := |Keys(items, ProductType)|;
      var rows := m.rows;
      var typeRows := rows[|fixed|..|fixed| + t];
      var manRows := rows[|fixed| + t..];
      assert rows == fixed + typeRows + manRows;
      AllHoldAppend(fixed + typeRows, manRows, v);
      AllHoldAppend(fixed, typeRows, v);
      FixedRowsMeaning(items, p, mode, v);
      LabelRowsMeaning(typeRows, items, ProductType, p.highTypeMax, v);
      LabelRowsMeaning(manRows, items, Manufacturer, p.highManMax, v);
    }
  }
}
