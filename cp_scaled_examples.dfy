/** The documented run of the second solver example, and two inputs that
    show where its model and the full `check_valid` part: the strict floor
    and the truncated coefficients. */
module CpScaledExamples {
  import opened Catalog
  import opened Selection
  import opened Validity
  import opened CpSat
  import opened CpScaled
  import opened CpScaledMeaning
  import opened CpScaledScorer

  /** The six items of the example's `main`. */
  function SixItems(): Group {
    [ Item(9, 10, 10, "a", "p1"), Item(3, 4, 9, "b", "p2"), Item(3, 5, 2, "c", "p1"),
      Item(6, 4, 4, "c", "p1"), Item(3, 2, 2, "c", "p2"), Item(3, 1, 1, "c", "p2") ]
  }

  function SixParameters(): Parameters {
    Parameters(20, 20, 10, 0.8, 0.7, 0.7)
  }

  /** The assignment behind the documented output. */
  function SixAssignment(): seq<int> {
    [1, 0, 1, 0, 1, 1]
  }

  /** The four items of the documented output. */
  function SixChosen(): Group {
    [ Item(9, 10, 10, "a", "p1"), Item(3, 5, 2, "c", "p1"), Item(3, 2, 2, "c", "p2"), Item(3, 1, 1, "c", "p2") ]
  }

  lemma {:induction false} SixPick()
    ensures Chosen(SixItems(), SixAssignment()) == SixChosen()
  {
    var items := SixItems();
    var f := IntFlags(SixAssignment(), 6);
    assert f == [true, false, true, false, true, true];
    forall k | 1 <= k <= 6 ensures items[..k][..k - 1] == items[..k - 1] && f[..k][..k - 1] == f[..k - 1] {
    }
    assert items[..1][..0] == [];
    assert Pick(items[..1], f[..1]) == [items[0]];
    assert Pick(items[..2], f[..2]) == [items[0]];
    assert Pick(items[..3], f[..3]) == [items[0], items[2]];
    assert Pick(items[..4], f[..4]) == [items[0], items[2]];
    assert Pick(items[..5], f[..5]) == [items[0], items[2], items[4]];
    assert items[..6] == items && f[..6] == f;
  }

  /** The totals and shares of the documented output. */
  lemma {:induction false} SixTotals()
    ensures var g := SixChosen();
      && SumValue(g) == 18 && SumWeight(g) == 18 && SumVolume(g) == 15
      && MaxValue(g) == 9
      && Keys(g, ProductType) == {"p1", "p2"} && Keys(g, Manufacturer) == {"a", "c"}
      && CategoryValue(g, ProductType, "p1") == 12 && CategoryValue(g, ProductType, "p2") == 6
      && CategoryValue(g, Manufacturer, "a") == 9 && CategoryValue(g, Manufacturer, "c") == 9
  {
    var g := SixChosen();
    forall k | 1 <= k <= 4 ensures g[..k][..k - 1] == g[..k - 1] {
    }
    assert g[..4] == g && g[..1][..0] == [] && g[..1] == [g[0]];
    assert Sum(g[..1], Value) == 9 && Sum(g[..1], Weight) == 10 && Sum(g[..1], Volume) == 10;
    assert SumValue(g[..2]) == 12 && SumWeight(g[..2]) == 15 && SumVolume(g[..2]) == 12;
    assert SumValue(g[..3]) == 15 && SumWeight(g[..3]) == 17 && SumVolume(g[..3]) == 14;
    assert Keys(g[..1], ProductType) == {"p1"} && Keys(g[..1], Manufacturer) == {"a"};
    assert Keys(g[..2], ProductType) == {"p1"} && Keys(g[..2], Manufacturer) == {"a", "c"};
    assert Keys(g[..3], ProductType) == {"p1", "p2"} && Keys(g[..3], Manufacturer) == {"a", "c"};
    assert CategoryValue(g[..1], ProductType, "p1") == 9 && CategoryValue(g[..1], ProductType, "p2") == 0;
    assert CategoryValue(g[..1], Manufacturer, "a") == 9 && CategoryValue(g[..1], Manufacturer, "c") == 0;
    assert CategoryValue(g[..2], ProductType, "p1") == 12 && CategoryValue(g[..2], ProductType, "p2") == 0;
    assert CategoryValue(g[..2], Manufacturer, "a") == 9 && CategoryValue(g[..2], Manufacturer, "c") == 3;
    assert CategoryValue(g[..3], ProductType, "p1") == 12 && CategoryValue(g[..3], ProductType, "p2") == 3;
    assert CategoryValue(g[..3], Manufacturer, "a") == 9 && CategoryValue(g[..3], Manufacturer, "c") == 6;
    assert MaxIndex(g[..1]) == 0 && MaxIndex(g[..2]) == 0 && MaxIndex(g[..3]) == 0;
  }

  /** The documented result: the four items, with value 18, weight 18 and
      volume 15, largest share 0.5, product type share 12/18 and
      manufacturer share 0.5, reported Valid. */
  lemma {:induction false} DocumentedResultValid()
    ensures var g := Chosen(SixItems(), SixAssignment());
      && g == SixChosen()
      && SumValue(g) == 18 && SumWeight(g) == 18 && SumVolume(g) == 15
      && Share(MaxValue(g), SumValue(g)) == 0.5
      && IsLargestShare(12.0 / 18.0, g, ProductType)
      && IsLargestShare(0.5, g, Manufacturer)
      && !ScorerInvalid(g, SixParameters())
  {
    SixPick();
    SixTotals();
    var g := SixChosen();
    assert "p1" in Keys(g, ProductType) && "a" in Keys(g, Manufacturer);
  }

  /** The first item has the largest value, 9. */
  lemma {:induction false} SixMaxIndex()
    ensures MaxIndex(SixItems()) == 0
  {
    var items := SixItems();
    assert items[..1] == [items[0]];
    assert items[..2] == [items[0], items[1]] && items[..3] == items[..2] + [items[2]];
    assert items[..4] == items[..3] + [items[3]] && items[..5] == items[..4] + [items[4]];
  }

  /** The documented assignment meets every constraint of the model. */
  lemma {:induction false} DocumentedAssignmentHolds()
    ensures ScaledHolds(SixItems(), SixParameters(), ForceMax, SixAssignment())
  {
    DocumentedResultValid();
    SixMaxIndex();
    ScaledAcceptsValid(SixItems(), SixParameters(), ForceMax, SixAssignment());
  }

  /** The documented assignment solves every model the example may build
      from the six items in `force_max` mode. */
  lemma {:induction false} DocumentedAssignmentSolves(m: CpModel)
    requires IsScaledModel(m, SixItems(), SixParameters(), ForceMax)
    ensures Satisfies(m, SixAssignment())
  {
    DocumentedAssignmentHolds();
    ScaledModelMeaning(m, SixItems(), SixParameters(), ForceMax, SixAssignment());
  }

  /** With the floor raised to 18 the same group is still Valid, since
      `check_valid` only rejects a total below the floor, but the strict
      constraint 3 excludes it. */
  lemma {:induction false} StrictFloorExcludesValid()
    ensures var p := Parameters(20, 20, 18, 0.8, 0.7, 0.7);
      && !ScorerInvalid(Chosen(SixItems(), SixAssignment()), p)
      && !ScaledHolds(SixItems(), p, ForceMax, SixAssignment())
  {
    DocumentedResultValid();
  }

  /** `static_cast<int64>(1000.0 / 0.7)` and `static_cast<int64>(1000.0 / 0.8)`. */
  lemma {:induction false} CoefficientValues()
    ensures Coefficient(0.7) == 1428 && Coefficient(0.8) == 1250
  {
    assert 1428.0 <= 1000.0 / 0.7 < 1429.0;
    assert 1000.0 / 0.8 == 1250.0;
  }

  /** Two items where one product type holds 70.02% of the value. */
  function TruncationItems(): Group {
    [Item(7002, 0, 0, "m1", "t1"), Item(2998, 0, 0, "m2", "t2")]
  }

  function TruncationParameters(): Parameters {
    Parameters(0, 0, 0, 0.8, 0.8, 0.7)
  }

  /** Both items are chosen. */
  lemma {:induction false} TruncationPick()
    ensures Chosen(TruncationItems(), [1, 1]) == TruncationItems()
  {
    var items := TruncationItems();
    assert IntFlags([1, 1], 2) == [true, true];
    assert items[..1] == [items[0]] && items[..1][..0] == [] && [true, true][..1] == [true];
    assert Pick(items[..1], [true]) == [items[0]];
  }

  /** The totals of the two items and the largest one. */
  lemma {:induction false} TruncationSums()
    ensures var items := TruncationItems();
      && SumValue(items) == 10000 && SumWeight(items) == 0 && SumVolume(items) == 0
      && MaxIndex(items) == 0 && MaxValue(items) == 7002
  {
    var items := TruncationItems();
    assert items[..1] == [items[0]] && items[..1][..0] == [];
    assert Sum(items[..1], Value) == 7002 && Sum(items[..1], Weight) == 0 && Sum(items[..1], Volume) == 0;
    assert MaxIndex(items[..1]) == 0;
  }

  /** The labels of the two items and their values. */
  lemma {:induction false} TruncationLabels()
    ensures var items := TruncationItems();
      && Keys(items, ProductType) == {"t1", "t2"} && Keys(items, Manufacturer) == {"m1", "m2"}
      && CategoryValue(items, ProductType, "t1") == 7002 && CategoryValue(items, ProductType, "t2") == 2998
      && CategoryValue(items, Manufacturer, "m1") == 7002 && CategoryValue(items, Manufacturer, "m2") == 2998
  {
    var items := TruncationItems();
    assert items[..1] == [items[0]] && items[..1][..0] == [];
    assert CategoryValue(items[..1], ProductType, "t1") == 7002 && CategoryValue(items[..1], ProductType, "t2") == 0;
    assert CategoryValue(items[..1], Manufacturer, "m1") == 7002 && CategoryValue(items[..1], Manufacturer, "m2") == 0;
    assert Keys(items[..1], ProductType) == {"t1"} && Keys(items[..1], Manufacturer) == {"m1"};
  }

  /** With the type limit 0.7 the truncated coefficient 1428 lets a type
      holding 7002 of 10000 through (7002 * 1428 <= 10000000), although its
      share 0.7002 is above the limit and `check_valid` reports Invalid. */
  lemma {:induction false} TruncationAdmitsInvalid()
    ensures ScaledHolds(TruncationItems(), TruncationParameters(), ForceMax, [1, 1])
    ensures SumValue(Chosen(TruncationItems(), [1, 1])) > 0
    ensures ScorerInvalid(Chosen(TruncationItems(), [1, 1]), TruncationParameters())
  {
    var items := TruncationItems();
    CoefficientValues();
    TruncationPick();
    TruncationSums();
    TruncationLabels();
    assert "t1" in Keys(items, ProductType);
    assert Share(7002, 10000) > 0.7;
  }
}
