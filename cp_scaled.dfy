/** The second solver example: the capacity model of the first, plus a strict
    value floor, a limit on the share of the largest item in one of three
    modes, and one row per product type and per manufacturer bounding its
    share. Share limits enter as the truncated integer coefficients
    `static_cast<int64>(1000.0 / r)`. */
module CpScaled {
  import opened Catalog
  import opened Selection
  import opened Validity
  import opened CpSat
  import opened CpCapacity

  /** How the limit on the largest item is encoded. */
  datatype FourthConstraintMode = ForceMax | MaxEquality | MaxAll

  /** `static_cast<int64>(static_cast<double>(scaling_factor) / r)`. */
  function Coefficient(r: Fraction): int {
    (ScalingFactor as real / r).Floor
  }

  /** The truncated coefficient is a non-negative integer no larger than the
      exact one and less than one below it. */
  lemma {:induction false} CoefficientBounds(r: Fraction)
    ensures 0 <= Coefficient(r)
    ensures Coefficient(r) as real <= ScalingFactor as real / r < Coefficient(r) as real + 1.0
  {
    assert 0.0 < ScalingFactor as real / r;
  }

  /** The sum of the scaled values against all item variables, the right-hand
      side of rows 4 to 6 and the objective. */
  function ValueSum(items: Group): LinearExpr {
    ScaledSumExpr(items, Value, ScalingFactor)
  }

  /** The item variables' domains: {0, 1}, except that `force_max` pins the
      largest item's variable to 1. */
  function PinnedDomains(n: nat, maxIndex: nat, mode: FourthConstraintMode): seq<Domain> {
    seq(n, i => if mode == ForceMax && i == maxIndex then Domain(1, 1) else Domain(0, 1))
  }

  /** All variable domains; `max_equality` adds one variable after the items'. */
  function ModelDomains(items: Group, mode: FourthConstraintMode): seq<Domain>
    requires items != []
  {
    PinnedDomains(|items|, MaxIndex(items), mode)
      + (if mode == MaxEquality then [Domain(0, MaxValue(items))] else [])
  }

  /** `LinearExpr::Term(within_pool[i], value)` for every item. */
  function ValueTerms(items: Group): seq<LinearExpr> {
    seq(|items|, i requires 0 <= i < |items| => SingleTerm(i, items[i].value))
  }

  /** `val_sets`: `items.size()` default expressions (the constant 0), then,
      in `max_equality` mode only, one term per item. */
  function ValSets(items: Group, mode: FourthConstraintMode): seq<LinearExpr> {
    seq(|items|, _ => Constant(0)) + (if mode == MaxEquality then ValueTerms(items) else [])
  }

  /** The rows of constraint 4 in each mode, for the value coefficient `k`. */
  function FourthRows(items: Group, k: int, mode: FourthConstraintMode): seq<Constraint>
    requires items != []
  {
    var n := |items|;
    match mode
    case ForceMax => [LessOrEqual(SingleTerm(MaxIndex(items), MaxValue(items) * k), ValueSum(items))]
    case MaxEquality => [EqualsMax(n, ValSets(items, mode)), LessOrEqual(SingleTerm(n, k), ValueSum(items))]
    case MaxAll => seq(n, i requires 0 <= i < n => LessOrEqual(SingleTerm(i, items[i].value * k), ValueSum(items)))
  }

  /** Constraints 1 to 4: the two capacities, the strict value floor, then
      constraint 4. */
  function FixedRows(items: Group, p: Parameters, mode: FourthConstraintMode): seq<Constraint>
    requires items != []
  {
    [ LessOrEqual(ScaledSumExpr(items, Weight, ScalingFactor), Constant(p.maxWeight * ScalingFactor)),
      LessOrEqual(ScaledSumExpr(items, Volume, ScalingFactor), Constant(p.maxVolume * ScalingFactor)),
      GreaterThan(ValueSum(items), Constant(p.minValue * ScalingFactor)) ]
    + FourthRows(items, Coefficient(p.highValueMax), mode)
  }

  /** The variables of the items carrying label `key`, in index order. */
  function KeyIndices(items: Group, c: Category, key: string): seq<nat> {
    if items == [] then []
    else
      KeyIndices(items[..|items| - 1], c, key)
        + (if KeyOf(items[|items| - 1], c) == key then [|items| - 1] else [])
  }

  /** Their coefficients, `value * mul`. */
  function KeyCoeffs(items: Group, c: Category, key: string, mul: int): (r: seq<int>)
    ensures |r| == |KeyIndices(items, c, key)|
  {
    if items == [] then []
    else
      KeyCoeffs(items[..|items| - 1], c, key, mul)
        + (if KeyOf(items[|items| - 1], c) == key then [items[|items| - 1].value * mul] else [])
  }

  /** The row of constraint 5 or 6 for one label: the label's values times the
      coefficient are at most the scaled total. */
  function KeyRow(items: Group, c: Category, key: string, mul: int): Constraint {
    LessOrEqual(WeightedSum(KeyIndices(items, c, key), KeyCoeffs(items, c, key, mul)), ValueSum(items))
  }

  /** `rows` holds one row per label of category `c` present in the items, in
      some order. */
  predicate IsKeyRows(rows: seq<Constraint>, items: Group, c: Category, mul: int) {
    && |rows| == |Keys(items, c)|
    && (set j | 0 <= j < |rows| :: rows[j]) == (set key | key in Keys(items, c) :: KeyRow(items, c, key, mul))
  }

  /** The model the example builds: the domains, the objective, constraints
      1 to 4, then one row per product type, then one per manufacturer. Rows
      5 and 6 come in the iteration order of a `std::set`, which is left open. */
  predicate IsScaledModel(m: CpModel, items: Group, p: Parameters, mode: FourthConstraintMode)
    requires items != []
  {
    var fixed := FixedRows(items, p, mode);
    var t := |Keys(items, ProductType)|;
    && m.domains == ModelDomains(items, mode)
    && m.objective == ValueSum(items)
    && |m.constraints| == |fixed| + t + |Keys(items, Manufacturer)|
    && m.constraints[..|fixed|] == fixed
    && IsKeyRows(m.constraints[|fixed|..|fixed| + t], items, ProductType, Coefficient(p.highTypeMax))
    && IsKeyRows(m.constraints[|fixed| + t..], items, Manufacturer, Coefficient(p.highManMax))
  }

  /** The inner loop of constraints 5 and 6 for one label. */
  method KeyRowFor(items: Group, c: Category, key: string, mul: int) returns (row: Constraint)
    ensures row == KeyRow(items, c, key, mul)
  {
    var vars: seq<nat> := [];
    var coeffs: seq<int> := [];
    for i := 0 to |items|
      invariant vars == KeyIndices(items[..i], c, key)
      invariant coeffs == KeyCoeffs(items[..i], c, key, mul)
    {
      assert items[..i + 1][..i] == items[..i];
      if KeyOf(items[i], c) != key {
        continue;
      }
      vars := vars + [i];
      coeffs := coeffs + [items[i].value * mul];
    }
    assert items[..|items|] == items;
    row := LessOrEqual(WeightedSum(vars, coeffs), ScaledSumExpr(items, Value, ScalingFactor));
  }

  /** Every row listed against an enumeration of the labels is some label's row. */
  lemma ListedRowsAreKeyRows(rows: seq<Constraint>, order: seq<string>, items: Group, c: Category, mul: int)
    requires |rows| == |order|
    requires forall j :: 0 <= j < |rows| ==> order[j] in Keys(items, c) && rows[j] == KeyRow(items, c, order[j], mul)
    ensures (set j | 0 <= j < |rows| :: rows[j]) <= (set key | key in Keys(items, c) :: KeyRow(items, c, key, mul))
  {
    forall j | 0 <= j < |rows| ensures rows[j] in (set key | key in Keys(items, c) :: KeyRow(items, c, key, mul)) {
      assert order[j] in Keys(items, c);
    }
  }

  /** Every label's row is listed when the enumeration covers every label. */
  lemma KeyRowsAreListed(rows: seq<Constraint>, order: seq<string>, items: Group, c: Category, mul: int)
    requires |rows| == |order|
    requires forall j :: 0 <= j < |rows| ==> rows[j] == KeyRow(items, c, order[j], mul)
    requires forall key :: key in Keys(items, c) ==> key in order
    ensures (set key | key in Keys(items, c) :: KeyRow(items, c, key, mul)) <= (set j | 0 <= j < |rows| :: rows[j])
  {
    forall key | key in Keys(items, c) ensures KeyRow(items, c, key, mul) in (set j | 0 <= j < |rows| :: rows[j]) {
      var j :| 0 <= j < |order| && order[j] == key;
      assert rows[j] == KeyRow(items, c, key, mul);
    }
  }

  /** Rows listed against an enumeration of the labels are one row per label. */
  lemma {:induction false} KeyRowsFromOrder(rows: seq<Constraint>, order: seq<string>, items: Group, c: Category, mul: int)
    requires |rows| == |order| == |Keys(items, c)|
    requires forall j :: 0 <= j < |rows| ==> order[j] in Keys(items, c) && rows[j] == KeyRow(items, c, order[j], mul)
    requires forall key :: key in Keys(items, c) ==> key in order
    ensures IsKeyRows(rows, items, c, mul)
  {
    ListedRowsAreKeyRows(rows, order, items, c, mul);
    KeyRowsAreListed(rows, order, items, c, mul);
  }

  /** The rows of the labels of `order`, position by position. */
  function RowsOf(items: Group, c: Category, mul: int, order: seq<string>): (r: seq<Constraint>)
    ensures |r| == |order|
  {
    seq(|order|, j requires 0 <= j < |order| => KeyRow(items, c, order[j], mul))
  }

  /** Listing one more label appends its row. */
  lemma RowsOfAppend(items: Group, c: Category, mul: int, order: seq<string>, key: string)
    ensures RowsOf(items, c, mul, order + [key]) == RowsOf(items, c, mul, order) + [KeyRow(items, c, key, mul)]
  {
  }

  /** The state of the outer loop: the labels handled so far, in the order
      taken, each with its row, and the labels still to do. */
  ghost predicate RowLoopState(items: Group, c: Category, mul: int, keys: set<string>,
                               remaining: set<string>, done: set<string>, order: seq<string>, rows: seq<Constraint>) {
    && remaining + done == keys && remaining !! done
    && |done| == |order|
    && rows == RowsOf(items, c, mul, order)
    && (forall j :: 0 <= j < |order| ==> order[j] in done)
    && (forall key :: key in done ==> key in order)
  }

  /** Taking one more label keeps the loop state. */
  lemma RowLoopStep(items: Group, c: Category, mul: int, keys: set<string>,
                    remaining: set<string>, done: set<string>, order: seq<string>, rows: seq<Constraint>, key: string)
    requires RowLoopState(items, c, mul, keys, remaining, done, order, rows) && key in remaining
    ensures RowLoopState(items, c, mul, keys, remaining - {key}, done + {key}, order + [key],
                         rows + [KeyRow(items, c, key, mul)])
  {
    RowsOfAppend(items, c, mul, order, key);
  }

  /** The outer loop of constraint 5 or 6 over the collected labels. */
  method KeyRowsFor(items: Group, keys: set<string>, c: Category, mul: int) returns (rows: seq<Constraint>)
    requires keys == Keys(items, c)
    ensures IsKeyRows(rows, items, c, mul)
  {
    rows := [];
    var remaining := keys;
    ghost var done: set<string> := {};
    ghost var order: seq<string> := [];
    while remaining != {}
      invariant RowLoopState(items, c, mul, keys, remaining, done, order, rows)
      decreases remaining
    {
      var key :| key in remaining;
      var row := KeyRowFor(items, c, key, mul);
      RowLoopStep(items, c, mul, keys, remaining, done, order, rows, key);
      rows := rows + [row];
      order := order + [key];
      remaining := remaining - {key};
      done := done + {key};
    }
    KeyRowsFromOrder(rows, order, items, c, mul);
  }

  /** What one iteration of the declaration loop adds: the next domain, the
      next value term and the item's two labels. */
  lemma DeclareStep(items: Group, mode: FourthConstraintMode, maxIndex: nat, i: nat)
    requires i < |items|
    ensures PinnedDomains(i + 1, maxIndex, mode)
            == PinnedDomains(i, maxIndex, mode) + [if mode == ForceMax && i == maxIndex then Domain(1, 1) else Domain(0, 1)]
    ensures ValueTerms(items[..i + 1]) == ValueTerms(items[..i]) + [SingleTerm(i, items[i].value)]
    ensures Keys(items[..i + 1], ProductType) == Keys(items[..i], ProductType) + {items[i].productType}
    ensures Keys(items[..i + 1], Manufacturer) == Keys(items[..i], Manufacturer) + {items[i].manufacturer}
  {
    assert items[..i + 1][..i] == items[..i];
  }

  /** The first loop of `find_grouping`: the item variables, the three scaled
      vectors, `val_sets` and the two label sets. */
  method DeclareVariables(items: Group, mode: FourthConstraintMode, maxIndex: nat)
    returns (withinPool: seq<Domain>, valueScaled: seq<int>, weightScaled: seq<int>, volumeScaled: seq<int>,
             valSets: seq<LinearExpr>, productTypes: set<string>, manufacturerTypes: set<string>)
    ensures withinPool == PinnedDomains(|items|, maxIndex, mode)
    ensures valueScaled == ScaledAmounts(items, Value, ScalingFactor)
    ensures weightScaled == ScaledAmounts(items, Weight, ScalingFactor)
    ensures volumeScaled == ScaledAmounts(items, Volume, ScalingFactor)
    ensures valSets == ValSets(items, mode)
    ensures productTypes == Keys(items, ProductType)
    ensures manufacturerTypes == Keys(items, Manufacturer)
  {
    var n := |items|;
    withinPool := [];
    valueScaled := seq(n, _ => 0);
    weightScaled := seq(n, _ => 0);
    volumeScaled := seq(n, _ => 0);
    valSets := seq(n, _ => Constant(0));
    productTypes := {};
    manufacturerTypes := {};
    for i := 0 to n
      invariant withinPool == PinnedDomains(i, maxIndex, mode)
      invariant |valueScaled| == |weightScaled| == |volumeScaled| == n
      invariant forall j :: 0 <= j < i ==> valueScaled[j] == items[j].value * ScalingFactor
      invariant forall j :: 0 <= j < i ==> weightScaled[j] == items[j].weight * ScalingFactor
      invariant forall j :: 0 <= j < i ==> volumeScaled[j] == items[j].volume * ScalingFactor
      invariant valSets == seq(n, _ => Constant(0)) + (if mode == MaxEquality then ValueTerms(items[..i]) else [])
      invariant productTypes == Keys(items[..i], ProductType)
      invariant manufacturerTypes == Keys(items[..i], Manufacturer)
    {
      DeclareStep(items, mode, maxIndex, i);
      if mode == ForceMax && i == maxIndex {
        withinPool := withinPool + [Domain(1, 1)];
      } else {
        withinPool := withinPool + [Domain(0, 1)];
      }
      valueScaled := valueScaled[i := items[i].value * ScalingFactor];
      weightScaled := weightScaled[i := items[i].weight * ScalingFactor];
      volumeScaled := volumeScaled[i := items[i].volume * ScalingFactor];
      if mode == MaxEquality {
        valSets := valSets + [SingleTerm(i, items[i].value)];
      }
      productTypes := productTypes + {items[i].productType};
      manufacturerTypes := manufacturerTypes + {items[i].manufacturer};
    }
    assert items[..n] == items;
  }

  /** Constraint 4, by mode; `max_equality` also creates the variable that
      holds the maximum. */
  method FourthConstraint(items: Group, p: Parameters, mode: FourthConstraintMode, maxIndex: nat,
                          valSets: seq<LinearExpr>, valueSum: LinearExpr)
    returns (rows: seq<Constraint>, extraDomains: seq<Domain>)
    requires items != [] && maxIndex == MaxIndex(items)
    requires valSets == ValSets(items, mode) && valueSum == ValueSum(items)
    ensures rows == FourthRows(items, Coefficient(p.highValueMax), mode)
    ensures extraDomains == if mode == MaxEquality then [Domain(0, MaxValue(items))] else []
  {
    var n := |items|;
    var k := Coefficient(p.highValueMax);
    extraDomains := [];
    match mode {
      case ForceMax =>
        rows := [LessOrEqual(SingleTerm(maxIndex, items[maxIndex].value * k), valueSum)];
      case MaxEquality =>
        extraDomains := [Domain(0, items[maxIndex].value)];
        rows := [EqualsMax(n, valSets), LessOrEqual(SingleTerm(n, k), valueSum)];
      case MaxAll =>
        rows := [];
        for i := 0 to n
          invariant rows == seq(i, j requires 0 <= j < i => LessOrEqual(SingleTerm(j, items[j].value * k), valueSum))
        {
          rows := rows + [LessOrEqual(SingleTerm(i, items[i].value * k), valueSum)];
        }
    }
  }

  /** The parts the builder produces make up the scaled model. */
  lemma {:induction false} ScaledModelFromParts(items: Group, p: Parameters, mode: FourthConstraintMode, domains: seq<Domain>,
                             fixed: seq<Constraint>, typeRows: seq<Constraint>, manRows: seq<Constraint>)
    requires items != []
    requires domains == ModelDomains(items, mode) && fixed == FixedRows(items, p, mode)
    requires IsKeyRows(typeRows, items, ProductType, Coefficient(p.highTypeMax))
    requires IsKeyRows(manRows, items, Manufacturer, Coefficient(p.highManMax))
    ensures IsScaledModel(CpModel(domains, fixed + typeRows + manRows, ValueSum(items)), items, p, mode)
  {
    var all := fixed + typeRows + manRows;
    assert all[..|fixed|] == fixed;
    assert all[|fixed|..|fixed| + |typeRows|] == typeRows;
    assert all[|fixed| + |typeRows|..] == manRows;
  }

  /** The model-building part of `find_grouping`. */
  method BuildScaledModel(items: Group, p: Parameters, mode: FourthConstraintMode) returns (model: CpModel)
    requires items != []
    ensures IsScaledModel(model, items, p, mode)
  {
    var n := |items|;
    var maxIndex := MaxIndex(items);
    var withinPool, valueScaled, weightScaled, volumeScaled, valSets, productTypes, manufacturerTypes
      := DeclareVariables(items, mode, maxIndex);
    var valueSum := WeightedSum(Indices(n), valueScaled);
    var constraints := [
      LessOrEqual(WeightedSum(Indices(n), weightScaled), Constant(p.maxWeight * ScalingFactor)),
      LessOrEqual(WeightedSum(Indices(n), volumeScaled), Constant(p.maxVolume * ScalingFactor)),
      GreaterThan(valueSum, Constant(p.minValue * ScalingFactor))];
    var fourth, extraDomains := FourthConstraint(items, p, mode, maxIndex, valSets, valueSum);
    constraints := constraints + fourth;
    withinPool := withinPool + extraDomains;
    var typeRows := KeyRowsFor(items, productTypes, ProductType, Coefficient(p.highTypeMax));
    var manRows := KeyRowsFor(items, manufacturerTypes, Manufacturer, Coefficient(p.highManMax));
    var all := constraints + typeRows + manRows;
    ScaledModelFromParts(items, p, mode, withinPool, constraints, typeRows, manRows);
    model := CpModel(withinPool, all, valueSum);
  }

  /** `find_grouping` of the second solver example, with the mode of
      constraint 4 as a parameter. The solver is a parameter; the model handed
      to it is returned beside the result. */
  method FindGrouping(items: Group, p: Parameters, mode: FourthConstraintMode, solve: CpModel -> CpResponse)
    returns (model: CpModel, selected: Group)
    requires items != []
    ensures IsScaledModel(model, items, p, mode)
    ensures selected == Assembled(items, solve(model))
  {
    model := BuildScaledModel(items, p, mode);
    var response := solve(model);
    selected := AssembleResponse(items, response);
  }
}
