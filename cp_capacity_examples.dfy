/** The documented run of the first solver example: four items, capacity
    (20, 20), and the assignment x = [1, 0, 1, 1]. */
module CpCapacityExamples {
  import opened Catalog
  import opened Selection
  import opened Validity
  import opened CpSat
  import opened CpCapacity

  /** The four items of the example's `main`, in the order given. */
  function FourItems(): Group {
    [ Item(10, 10, 10, "a", "p1"), Item(3, 4, 9, "b", "p2"),
      Item(3, 5, 2, "c", "p1"), Item(2, 4, 4, "c", "p1") ]
  }

  function FourParameters(): Parameters {
    Parameters(20, 20, 10, 0.8, 0.025, 0.025)
  }

  /** The assignment behind the documented output. */
  function FourAssignment(): seq<int> {
    [1, 0, 1, 1]
  }

  /** The three items of the documented output. */
  function FourChosen(): Group {
    [Item(10, 10, 10, "a", "p1"), Item(3, 5, 2, "c", "p1"), Item(2, 4, 4, "c", "p1")]
  }

  /** Picking from a group with one more item adds that item's amount when
      its flag is set. */
  lemma {:induction false} PickAppendSum(g: Group, f: seq<bool>, x: Item, b: bool, attr: Attribute)
    requires |f| == |g|
    ensures Sum(Pick(g + [x], f + [b]), attr) == Sum(Pick(g, f), attr) + (if b then Amount(x, attr) else 0)
  {
    assert (g + [x])[..|g|] == g && (f + [b])[..|f|] == f;
    PickSumStep(g + [x], f + [b], attr);
  }

  /** The sum of one attribute over the items four flags pick, item by item. */
  lemma {:induction false} PickFourSum(a: Item, b: Item, c: Item, d: Item, f: seq<bool>, attr: Attribute)
    requires |f| == 4
    ensures Sum(Pick([a, b, c, d], f), attr)
      == (if f[0] then Amount(a, attr) else 0) + (if f[1] then Amount(b, attr) else 0)
         + (if f[2] then Amount(c, attr) else 0) + (if f[3] then Amount(d, attr) else 0)
  {
    var g1, f1 := [] + [a], [] + [f[0]];
    var g2, f2 := g1 + [b], f1 + [f[1]];
    var g3, f3 := g2 + [c], f2 + [f[2]];
    var g4, f4 := g3 + [d], f3 + [f[3]];
    PickAppendSum([], [], a, f[0], attr);
    PickAppendSum(g1, f1, b, f[1], attr);
    PickAppendSum(g2, f2, c, f[2], attr);
    PickAppendSum(g3, f3, d, f[3], attr);
    assert g4 == [a, b, c, d] && f4 == f;
  }

  /** The documented assignment's group weighs 19, fills 16 and is worth 15. */
  lemma {:induction false} FourChosenTotals()
    ensures var g := Pick(FourItems(), IntFlags(FourAssignment(), 4));
      SumValue(g) == 15 && SumWeight(g) == 19 && SumVolume(g) == 16
  {
    var items := FourItems();
    var f := IntFlags(FourAssignment(), 4);
    assert f == [true, false, true, true];
    assert items == [items[0], items[1], items[2], items[3]];
    PickFourSum(items[0], items[1], items[2], items[3], f, Value);
    PickFourSum(items[0], items[1], items[2], items[3], f, Weight);
    PickFourSum(items[0], items[1], items[2], items[3], f, Volume);
  }

  /** The assignment picks the three documented items. */
  lemma {:induction false} FourPick()
    ensures Pick(FourItems(), IntFlags(FourAssignment(), 4)) == FourChosen()
  {
    var items := FourItems();
    var f := IntFlags(FourAssignment(), 4);
    assert f == [true, false, true, true];
    assert items[..3] == [items[0], items[1], items[2]] && items[..3][..2] == [items[0], items[1]];
    assert items[..3][..2][..1] == [items[0]] && items[..3][..2][..1][..0] == [];
    assert f[..3] == [true, false, true] && f[..3][..2] == [true, false] && f[..3][..2][..1] == [true];
    assert f[..3][..2][..1][..0] == [];
    assert Pick(items[..3][..2][..1], f[..3][..2][..1]) == [items[0]];
    assert Pick(items[..3][..2], f[..3][..2]) == [items[0]];
    assert Pick(items[..3], f[..3]) == [items[0], items[2]];
  }

  /** In a solution the picked weights and volumes fit 20, and then the
      picked value is at most 15, reached only by the first, third and
      fourth items. */
  lemma {:induction false} FourBest(f: seq<bool>)
    requires |f| == 4
    requires SumWeight(Pick(FourItems(), f)) <= 20 && SumVolume(Pick(FourItems(), f)) <= 20
    ensures SumValue(Pick(FourItems(), f)) <= 15
    ensures SumValue(Pick(FourItems(), f)) == 15 <==> f == [true, false, true, true]
  {
    var items := FourItems();
    assert items == [items[0], items[1], items[2], items[3]];
    PickFourSum(items[0], items[1], items[2], items[3], f, Value);
    PickFourSum(items[0], items[1], items[2], items[3], f, Weight);
    PickFourSum(items[0], items[1], items[2], items[3], f, Volume);
    if SumValue(Pick(items, f)) == 15 {
      assert f == [f[0], f[1], f[2], f[3]];
    }
  }

  /** The documented assignment is a solution of the model. */
  lemma {:induction false} DocumentedAssignmentSolves()
    ensures Satisfies(CapacityModel(FourItems(), FourParameters()), FourAssignment())
  {
    FourChosenTotals();
    assert Binary(FourAssignment(), 4);
    CapacityModelMeaning(FourItems(), FourParameters(), FourAssignment());
  }

  /** It is the model's only optimum: every other solution has a smaller
      objective, 1000 times a smaller total value. */
  lemma {:induction false} DocumentedAssignmentIsUniqueOptimum(y: seq<int>)
    requires Satisfies(CapacityModel(FourItems(), FourParameters()), y)
    ensures Eval(CapacityModel(FourItems(), FourParameters()).objective, y)
            <= Eval(CapacityModel(FourItems(), FourParameters()).objective, FourAssignment())
    ensures Eval(CapacityModel(FourItems(), FourParameters()).objective, y)
            == Eval(CapacityModel(FourItems(), FourParameters()).objective, FourAssignment())
            ==> IntFlags(y, 4) == IntFlags(FourAssignment(), 4)
  {
    var items := FourItems();
    var p := FourParameters();
    CapacityModelMeaning(items, p, y);
    DocumentedAssignmentSolves();
    CapacityModelMeaning(items, p, FourAssignment());
    CapacityObjective(items, p, y);
    CapacityObjective(items, p, FourAssignment());
    FourBest(IntFlags(y, 4));
    FourBest(IntFlags(FourAssignment(), 4));
    assert IntFlags(FourAssignment(), 4) == [true, false, true, true];
  }

  /** Reading back a successful response with the documented assignment
      yields the documented output: three items, weight 19 and volume 16,
      reported Valid by the capacity-only `check_valid`. */
  lemma {:induction false} DocumentedOutput(status: CpSolverStatus)
    requires Succeeded(status)
    ensures var g := Assembled(FourItems(), CpResponse(status, FourAssignment()));
      && g == FourChosen()
      && SumValue(g) == 15
      && CheckValidCapacity(g, FourParameters().Limits()) == (CapacityReport(19, 16), false)
  {
    FourPick();
    FourChosenTotals();
  }
}
