/** The documented run of the third solver example: the same six items and
    parameters as the second, and the same four items chosen. */
module MpExamples {
  import opened Catalog
  import opened Selection
  import opened Validity
  import opened MpSolver
  import opened MpKnapsack
  import opened MpMeaning
  import opened MpScorer
  import CpScaledMeaning
  import CpScaledExamples

  /** The solution values behind the documented output. */
  function SixValues(): seq<real> {
    [1.0, 0.0, 1.0, 0.0, 1.0, 1.0]
  }

  /** The solution picks the four documented items. */
  lemma {:induction false} SixValuesPick()
    ensures MipChosen(CpScaledExamples.SixItems(), SixValues()) == CpScaledExamples.SixChosen()
  {
    assert RealFlags(SixValues(), 6) == IntFlags(CpScaledExamples.SixAssignment(), 6);
    assert MipChosen(CpScaledExamples.SixItems(), SixValues())
        == CpScaledMeaning.Chosen(CpScaledExamples.SixItems(), CpScaledExamples.SixAssignment());
    CpScaledExamples.SixPick();
  }

  /** The documented solution meets every constraint of the problem: 0/1
      values with the first item, the largest, pinned; weight 18 and volume
      15 within 20; value 18 at least 10; and every share within its limit. */
  lemma {:induction false} DocumentedSolutionHolds()
    ensures MipHolds(CpScaledExamples.SixItems(), CpScaledExamples.SixParameters(), ForceMax, SixValues())
  {
    var items := CpScaledExamples.SixItems();
    var v := SixValues();
    SixValuesPick();
    CpScaledExamples.DocumentedResultValid();
    CpScaledExamples.SixMaxIndex();
    assert ZeroOne(v, 6);
    assert Val(v, MaxIndex(items)) == 1.0;
    MipHoldsIffValid(items, CpScaledExamples.SixParameters(), ForceMax, v);
  }

  /** The documented solution solves every problem the example may build
      from the six items, whatever order the label rows come in. */
  lemma {:induction false} DocumentedSolutionSolves(m: Problem)
    requires IsMpModel(m, CpScaledExamples.SixItems(), CpScaledExamples.SixParameters(), ForceMax)
    ensures Satisfies(m, SixValues())
  {
    DocumentedSolutionHolds();
    MpModelMeaning(m, CpScaledExamples.SixItems(), CpScaledExamples.SixParameters(), ForceMax, SixValues());
  }

  /** Reading back the documented response yields the documented group:
      four items, value 18, weight 18, volume 15, reported Valid. */
  lemma {:induction false} DocumentedOutput(status: ResultStatus)
    requires Succeeded(status)
    ensures var g := Assembled(CpScaledExamples.SixItems(), Response(status, SixValues()));
      && g == CpScaledExamples.SixChosen()
      && SumValue(g) == 18 && SumWeight(g) == 18 && SumVolume(g) == 15
      && !ScorerInvalid(g, CpScaledExamples.SixParameters())
  {
    SixValuesPick();
    CpScaledExamples.DocumentedResultValid();
  }

  /** With the floor raised to 18 the documented group still meets the
      constraints, since constraint 3 here is `>=`, as `check_valid`'s test is. */
  lemma {:induction false} FloorIsInclusive()
    ensures var p := Parameters(20, 20, 18, 0.8, 0.7, 0.7);
      && MipHolds(CpScaledExamples.SixItems(), p, ForceMax, SixValues())
      && !ScorerInvalid(MipChosen(CpScaledExamples.SixItems(), SixValues()), p)
  {
    var p := Parameters(20, 20, 18, 0.8, 0.7, 0.7);
    var items := CpScaledExamples.SixItems();
    var v := SixValues();
    SixValuesPick();
    CpScaledExamples.DocumentedResultValid();
    CpScaledExamples.SixMaxIndex();
    assert ZeroOne(v, 6);
    assert Val(v, MaxIndex(items)) == 1.0;
    MipHoldsIffValid(items, p, ForceMax, v);
  }
}
