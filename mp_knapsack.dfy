/** The third solver example: the same rows as the second, built with the
    MPSolver interface. Amounts enter unscaled as real coefficients, the value
    floor is `>=`, and the share limits enter exactly, as `value / r`. */
module MpKnapsack {
  import opened Catalog
  import opened Selection
  import opened MpSolver

  /** How the limit on the largest item is encoded; this interface has no
      maximum constraint, so there is no `max_equality` mode. */
  datatype FourthConstraintMode = ForceMax | MaxAll

  /** `LinearExpr(within_pool[i]) * static_cast<double>(amount)` for every item, in order. */
  function AmountTerms(items: Group, a: Attribute): (ts: seq<Term>)
    ensures |ts| == |items|
  {
    seq(|items|, i requires 0 <= i < |items| => Term(i, Amount(items[i], a) as real))
  }

  /** `in_pool_<amount>_sum`. */
  function AmountSum(items: Group, a: Attribute): LinearExpr {
    LinearExpr(AmountTerms(items, a), 0.0)
  }

  /** The value sum: the right-hand side of rows 4 to 6 and the objective. */
  function ValueSum(items: Group): LinearExpr {
    AmountSum(items, Value)
  }

  /** The item variables: bounds [0, 1], except that `force_max` pins the
      largest item's variable to [1, 1]. */
  function PinnedVars(n: nat, maxIndex: nat, mode: FourthConstraintMode): seq<IntVar> {
    seq(n, i => if mode == ForceMax && i == maxIndex then IntVar(1, 1) else IntVar(0, 1))
  }

  /** The rows of constraint 4: in `force_max` mode one row for the largest
      item, in `max_all` mode one row per item, each `x_i * value_i / r <=`
      the value sum. */
  function FourthRows(items: Group, r: Fraction, mode: FourthConstraintMode): seq<Row>
    requires items != []
  {
    var n := |items|;
    match mode
    case ForceMax => [AtMost(SingleTerm(MaxIndex(items), MaxValue(items) as real / r), ValueSum(items))]
    case MaxAll => seq(n, i requires 0 <= i < n => AtMost(SingleTerm(i, items[i].value as real / r), ValueSum(items)))
  }

  /** Constraints 1 to 4: the two capacities, the value floor, then constraint 4. */
  function FixedRows(items: Group, p: Parameters, mode: FourthConstraintMode): seq<Row>
    requires items != []
  {
    [ AtMost(AmountSum(items, Weight), Constant(p.maxWeight as real)),
      AtMost(AmountSum(items, Volume), Constant(p.maxVolume as real)),
      AtLeast(ValueSum(items), Constant(p.minValue as real)) ]
    + FourthRows(items, p.highValueMax, mode)
  }

  /** The terms of the row of label `key`: `x_i * (value_i / r)` for the items
      carrying it, in index order. */
  function LabelTerms(items: Group, c: Category, key: string, r: Fraction): seq<Term> {
    if items == [] then []
    else
      var n := |items|;
      LabelTerms(items[..n - 1], c, key, r)
        + (if KeyOf(items[n - 1], c) == key then [Term(n - 1, items[n - 1].value as real / r)] else [])
  }

  /** The row of constraint 5 or 6 for one label. */
  function LabelRow(items: Group, c: Category, key: string, r: Fraction): Row {
    AtMost(LinearExpr(LabelTerms(items, c, key, r), 0.0), ValueSum(items))
  }

  /** `rows` holds one row per label of category `c` present in the items, in
      some order. */
  predicate IsLabelRows(rows: seq<Row>, items: Group, c: Category, r: Fraction) {
    && |rows| == |Keys(items, c)|
    && (set j | 0 <= j < |rows| :: rows[j]) == (set key | key in Keys(items, c) :: LabelRow(items, c, key, r))
  }

  /** The problem the example builds: the variables, the objective,
      constraints 1 to 4, then one row per product type, then one per
      manufacturer. Rows 5 and 6 come in the iteration order of a `std::set`,
      which is left open. */
  predicate IsMpModel(m: Problem, items: Group, p: Parameters, mode: FourthConstraintMode)
    requires items != []
  {
    var fixed := FixedRows(items, p, mode);
    var t := |Keys(items, ProductType)|;
    && m.vars == PinnedVars(|items|, MaxIndex(items), mode)
    && m.objective == ValueSum(items)
    && |m.rows| == |fixed| + t + |Keys(items, Manufacturer)|
    && m.rows[..|fixed|] == fixed
    && IsLabelRows(m.rows[|fixed|..|fixed| + t], items, ProductType, p.highTypeMax)
    && IsLabelRows(m.rows[|fixed| + t..], items, Manufacturer, p.highManMax)
  }

  /** What one iteration of the declaration loop adds: the next variable,
      one term to each sum and the item's two labels. */
  lemma {:induction false} DeclareStep(items: Group, mode: FourthConstraintMode, maxIndex: nat, i: nat)
    requires i < |items|
    ensures PinnedVars(i + 1, maxIndex, mode)
            == PinnedVars(i, maxIndex, mode) + [if mode == ForceMax && i == maxIndex then IntVar(1, 1) else IntVar(0, 1)]
    ensures forall a :: AmountSum(items[..i + 1], a) == AddTerm(AmountSum(items[..i], a), i, Amount(items[i], a) as real)
    ensures Keys(items[..i + 1], ProductType) == Keys(items[..i], ProductType) + {items[i].productType}
    ensures Keys(items[..i + 1], Manufacturer) == Keys(items[..i], Manufacturer) + {items[i].manufacturer}
  {
    assert items[..i + 1][..i] == items[..i];
    forall a ensures AmountTerms(items[..i + 1], a) == AmountTerms(items[..i], a) + [Term(i, Amount(items[i], a) as real)] {
    }
  }

  /** The first loop of `find_grouping`: the item variables, the three sums
      and the two label sets. */
  method DeclareVariables(items: Group, mode: FourthConstraintMode, maxIndex: nat)
    returns (withinPool: seq<IntVar>, weightSum: LinearExpr, volumeSum: LinearExpr, valueSum: LinearExpr,
             productTypes: set<string>, manufacturerTypes: set<string>)
    ensures withinPool == PinnedVars(|items|, maxIndex, mode)
    ensures weightSum == AmountSum(items, Weight)
    ensures volumeSum == AmountSum(items, Volume)
    ensures valueSum == ValueSum(items)
    ensures productTypes == Keys(items, ProductType)
    ensures manufacturerTypes == Keys(items, Manufacturer)
  {
    withinPool := [];
    weightSum, volumeSum, valueSum := Constant(0.0), Constant(0.0), Constant(0.0);
    productTypes := {};
    manufacturerTypes := {};
    assert items[..0] == [];
    for i := 0 to |items|
      invariant withinPool == PinnedVars(i, maxIndex, mode)
      invariant weightSum == AmountSum(items[..i], Weight)
      invariant volumeSum == AmountSum(items[..i], Volume)
      invariant valueSum == AmountSum(items[..i], Value)
      invariant productTypes == Keys(items[..i], ProductType)
      invariant manufacturerTypes == Keys(items[..i], Manufacturer)
    {
      DeclareStep(items, mode, maxIndex, i);
      if mode == ForceMax && i == maxIndex {
        withinPool := withinPool + [IntVar(1, 1)];
      } else {
        withinPool := withinPool + [IntVar(0, 1)];
      }
      weightSum := AddTerm(weightSum, i, items[i].weight as real);
      volumeSum := AddTerm(volumeSum, i, items[i].volume as real);
      valueSum := AddTerm(valueSum, i, items[i].value as real);
      productTypes := productTypes + {items[i].productType};
      manufacturerTypes := manufacturerTypes + {items[i].manufacturer};
    }
    assert items[..|items|] == items;
  }

  /** Constraint 4, by mode. */
  method FourthConstraint(items: Group, p: Parameters, mode: FourthConstraintMode, maxIndex: nat, valueSum: LinearExpr)
    returns (rows: seq<Row>)
    requires items != [] && maxIndex == MaxIndex(items) && valueSum == ValueSum(items)
    ensures rows == FourthRows(items, p.highValueMax, mode)
  {
    var n := |items|;
    match mode {
      case ForceMax =>
        rows := [AtMost(SingleTerm(maxIndex, items[maxIndex].value as real / p.highValueMax), valueSum)];
      case MaxAll =>
        rows := [];
        for i := 0 to n
          invariant rows == seq(i, j requires 0 <= j < i => AtMost(SingleTerm(j, items[j].value as real / p.highValueMax), valueSum))
        {
          rows := rows + [AtMost(SingleTerm(i, items[i].value as real / p.highValueMax), valueSum)];
        }
    }
  }

  /** The inner loop of constraints 5 and 6 for one label. */
  method LabelRowFor(items: Group, c: Category, key: string, r: Fraction, valueSum: LinearExpr) returns (row: Row)
    requires valueSum == ValueSum(items)
    ensures row == LabelRow(items, c, key, r)
  {
    var sum := Constant(0.0);
    for i := 0 to |items|
      invariant sum == LinearExpr(LabelTerms(items[..i], c, key, r), 0.0)
    {
      assert items[..i + 1][..i] == items[..i];
      if KeyOf(items[i], c) != key {
        continue;
      }
      sum := AddTerm(sum, i, items[i].value as real / r);
    }
    assert items[..|items|] == items;
    row := AtMost(sum, valueSum);
  }

  /** The rows of the labels of `order`, position by position. */
  function RowsOf(items: Group, c: Category, r: Fraction, order: seq<string>): (rows: seq<Row>)
    ensures |rows| == |order|
  {
    seq(|order|, j requires 0 <= j < |order| => LabelRow(items, c, order[j], r))
  }

  /** The state of the outer loop: the labels handled so far, in the order
      taken, each with its row, and the labels still to do. */
  ghost predicate RowLoopState(items: Group, c: Category, r: Fraction, keys: set<string>,
                               remaining: set<string>, done: set<string>, order: seq<string>, rows: seq<Row>) {
    && remaining + done == keys && remaining !! done
    && |done| == |order|
    && rows == RowsOf(items, c, r, order)
    && (forall j :: 0 <= j < |order| ==> order[j] in done)
    && (forall key :: key in done ==> key in order)
  }

  /** Taking one more label keeps the loop state. */
  lemma {:induction false} RowLoopStep(items: Group, c: Category, r: Fraction, keys: set<string>,
                                       remaining: set<string>, done: set<string>, order: seq<string>, rows: seq<Row>, key: string)
    requires RowLoopState(items, c, r, keys, remaining, done, order, rows) && key in remaining
    ensures RowLoopState(items, c, r, keys, remaining - {key}, done + {key}, order + [key],
                         rows + [LabelRow(items, c, key, r)])
  {
    assert RowsOf(items, c, r, order + [key]) == RowsOf(items, c, r, order) + [LabelRow(items, c, key, r)];
  }

  /** Rows listed against an enumeration that covers every label exactly once
      are one row per label. */
  lemma {:induction false} LabelRowsFromOrder(rows: seq<Row>, order: seq<string>, items: Group, c: Category, r: Fraction)
    requires |order| == |Keys(items, c)| && rows == RowsOf(items, c, r, order)
    requires forall j :: 0 <= j < |order| ==> order[j] in Keys(items, c)
    requires forall key :: key in Keys(items, c) ==> key in order
    ensures IsLabelRows(rows, items, c, r)
  {
    var lhs := set j | 0 <= j < |rows| :: rows[j];
    var rhs := set key | key in Keys(items, c) :: LabelRow(items, c, key, r);
    forall row | row in lhs ensures row in rhs {
      var j :| 0 <= j < |rows| && rows[j] == row;
      assert order[j] in Keys(items, c);
    }
    forall row | row in rhs ensures row in lhs {
      var key :| key in Keys(items, c) && row == LabelRow(items, c, key, r);
      var j :| 0 <= j < |order| && order[j] == key;
      assert rows[j] == row;
    }
  }

  /** The outer loop of constraint 5 or 6 over the collected labels. */
  method LabelRowsFor(items: Group, keys: set<string>, c: Category, r: Fraction, valueSum: LinearExpr)
    returns (rows: seq<Row>)
    requires keys == Keys(items, c) && valueSum == ValueSum(items)
    ensures IsLabelRows(rows, items, c, r)
  {
    rows := [];
    var remaining := keys;
    ghost var done: set<string> := {};
    ghost var order: seq<string> := [];
    while remaining != {}
      invariant RowLoopState(items, c, r, keys, remaining, done, order, rows)
      decreases remaining
    {
      var key :| key in remaining;
      var row := LabelRowFor(items, c, key, r, valueSum);
      RowLoopStep(items, c, r, keys, remaining, done, order, rows, key);
      rows := rows + [row];
      order := order + [key];
      remaining := remaining - {key};
      done := done + {key};
    }
    LabelRowsFromOrder(rows, order, items, c, r);
  }

  /** The parts the builder produces make up the problem. */
  lemma {:induction false} MpModelFromParts(items: Group, p: Parameters, mode: FourthConstraintMode, vars: seq<IntVar>,
                                            fixed: seq<Row>, typeRows: seq<Row>, manRows: seq<Row>)
    requires items != []
    requires vars == PinnedVars(|items|, MaxIndex(items), mode) && fixed == FixedRows(items, p, mode)
    requires IsLabelRows(typeRows, items, ProductType, p.highTypeMax)
    requires IsLabelRows(manRows, items, Manufacturer, p.highManMax)
    ensures IsMpModel(Problem(vars, fixed + typeRows + manRows, ValueSum(items)), items, p, mode)
  {
    var all := fixed + typeRows + manRows;
    assert all[..|fixed|] == fixed;
    assert all[|fixed|..|fixed| + |typeRows|] == typeRows;
    assert all[|fixed| + |typeRows|..] == manRows;
  }

  /** The problem-building part of `find_grouping`. */
  method BuildMpModel(items: Group, p: Parameters, mode: FourthConstraintMode) returns (model: Problem)
    requires items != []
    ensures IsMpModel(model, items, p, mode)
  {
    var maxIndex := MaxIndex(items);
    var withinPool, weightSum, volumeSum, valueSum, productTypes, manufacturerTypes
      := DeclareVariables(items, mode, maxIndex);
    var rows := [
      AtMost(weightSum, Constant(p.maxWeight as real)),
      AtMost(volumeSum, Constant(p.maxVolume as real)),
      AtLeast(valueSum, Constant(p.minValue as real))];
    var fourth := FourthConstraint(items, p, mode, maxIndex, valueSum);
    rows := rows + fourth;
    var typeRows := LabelRowsFor(items, productTypes, ProductType, p.highTypeMax, valueSum);
    var manRows := LabelRowsFor(items, manufacturerTypes, Manufacturer, p.highManMax, valueSum);
    MpModelFromParts(items, p, mode, withinPool, rows, typeRows, manRows);
    model := Problem(withinPool, rows + typeRows + manRows, valueSum);
  }

  /** `find_grouping` of the third solver example, with the mode of
      constraint 4 as a parameter. `solver` is `None` when
      `MPSolver::CreateSolver("SCIP")` yields no solver, and otherwise the
      solve step; the problem handed to it is returned beside the result. */
  method FindGrouping(items: Group, p: Parameters, mode: FourthConstraintMode, solver: Option<Problem -> Response>)
    returns (model: Option<Problem>, selected: Group)
    requires solver.Some? ==> items != []
    ensures solver.None? ==> model == None && selected == []
    ensures solver.Some? ==>
      && model.Some? && IsMpModel(model.value, items, p, mode)
      && selected == Assembled(items, solver.value(model.value))
  {
    if solver.None? {
      return None, [];
    }
    var problem := BuildMpModel(items, p, mode);
    var response := solver.value(problem);
    selected := AssembleResponse(items, response);
    model := Some(problem);
  }
}
