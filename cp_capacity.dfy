/** The first solver example: a 0/1 variable per item, the weight and volume
    capacities as two scaled linear constraints, and the scaled total value
    as the objective. */
module CpCapacity {
  import opened Catalog
  import opened Selection
  import opened Validity
  import opened CpSat

  /** Every amount and capacity is multiplied by this before it goes into the model. */
  const ScalingFactor: int := 1000

  /** The model the example builds. */
  function CapacityModel(items: Group, p: Parameters): CpModel {
    var n := |items|;
    CpModel(
      seq(n, _ => Domain(0, 1)),
      [ LessOrEqual(ScaledSumExpr(items, Weight, ScalingFactor), Constant(p.maxWeight * ScalingFactor)),
        LessOrEqual(ScaledSumExpr(items, Volume, ScalingFactor), Constant(p.maxVolume * ScalingFactor)) ],
      ScaledSumExpr(items, Value, ScalingFactor))
  }

  /** The first part of `find_grouping`: one variable per item with domain
      {0, 1}, the three scaled vectors filled in one index loop, then the two
      constraints and the objective. */
  method BuildCapacityModel(items: Group, p: Parameters) returns (model: CpModel)
    ensures model == CapacityModel(items, p)
  {
    var n := |items|;
    var withinPool: seq<Domain> := [];
    var valueScaled: seq<int> := seq(n, _ => 0);
    var weightScaled: seq<int> := seq(n, _ => 0);
    var volumeScaled: seq<int> := seq(n, _ => 0);
    for i := 0 to n
      invariant withinPool == seq(i, _ => Domain(0, 1))
      invariant |valueScaled| == |weightScaled| == |volumeScaled| == n
      invariant forall j :: 0 <= j < i ==> valueScaled[j] == items[j].value * ScalingFactor
      invariant forall j :: 0 <= j < i ==> weightScaled[j] == items[j].weight * ScalingFactor
      invariant forall j :: 0 <= j < i ==> volumeScaled[j] == items[j].volume * ScalingFactor
    {
      withinPool := withinPool + [Domain(0, 1)];
      valueScaled := valueScaled[i := items[i].value * ScalingFactor];
      weightScaled := weightScaled[i := items[i].weight * ScalingFactor];
      volumeScaled := volumeScaled[i := items[i].volume * ScalingFactor];
    }
    assert valueScaled == ScaledAmounts(items, Value, ScalingFactor);
    assert weightScaled == ScaledAmounts(items, Weight, ScalingFactor);
    assert volumeScaled == ScaledAmounts(items, Volume, ScalingFactor);
    var constraints := [
      LessOrEqual(WeightedSum(Indices(n), weightScaled), Constant(p.maxWeight * ScalingFactor)),
      LessOrEqual(WeightedSum(Indices(n), volumeScaled), Constant(p.maxVolume * ScalingFactor))];
    model := CpModel(withinPool, constraints, WeightedSum(Indices(n), valueScaled));
  }

  /** `find_grouping` of the first solver example. The solver is a parameter;
      the model handed to it is returned beside the result. */
  method FindGrouping(items: Group, p: Parameters, solve: CpModel -> CpResponse) returns (model: CpModel, selected: Group)
    ensures model == CapacityModel(items, p)
    ensures selected == Assembled(items, solve(model))
  {
    model := BuildCapacityModel(items, p);
    var response := solve(model);
    selected := AssembleResponse(items, response);
  }

  /** Variables with domain {0, 1} are exactly a 0/1 assignment (also used
      by the other solver examples). */
  lemma {:induction false} ZeroOneDomains(n: nat, x: seq<int>)
    ensures InDomains(seq(n, _ => Domain(0, 1)), x) <==> |x| == n && Binary(x, n)
  {
    var d := seq(n, _ => Domain(0, 1));
    if |x| == n && Binary(x, n) {
      forall i | 0 <= i < |x| ensures d[i].lo <= x[i] <= d[i].hi {
        assert XVal(x, i) == x[i];
      }
    }
    if InDomains(d, x) {
      forall i | 0 <= i < n ensures 0 <= XVal(x, i) <= 1 {
        assert d[i] == Domain(0, 1);
      }
    }
  }

  /** On a 0/1 assignment, the two scaled rows hold exactly when the picked
      items fit both capacities. */
  lemma {:induction false} CapacityRowsMeaning(items: Group, p: Parameters, x: seq<int>)
    requires Binary(x, |items|)
    ensures AllHold(CapacityModel(items, p).constraints, x)
            <==> !CheckValidCapacity(Pick(items, IntFlags(x, |items|)), p.Limits()).1
  {
    var n := |items|;
    var cs := CapacityModel(items, p).constraints;
    var g := Pick(items, IntFlags(x, n));
    ScaledSum(items, Weight, ScalingFactor, x);
    ScaledSum(items, Volume, ScalingFactor, x);
    assert Holds(cs[0], x) <==> ScalingFactor * SumWeight(g) <= p.maxWeight * ScalingFactor;
    assert Holds(cs[1], x) <==> ScalingFactor * SumVolume(g) <= p.maxVolume * ScalingFactor;
    assert AllHold(cs, x) <==> Holds(cs[0], x) && Holds(cs[1], x);
  }

  /** The solutions of the model are exactly the 0/1 assignments whose items
      fit both capacities: scaling both sides of a constraint by the positive
      factor changes nothing. */
  lemma {:induction false} CapacityModelMeaning(items: Group, p: Parameters, x: seq<int>)
    ensures Satisfies(CapacityModel(items, p), x)
            <==> |x| == |items| && Binary(x, |items|)
                 && !CheckValidCapacity(Pick(items, IntFlags(x, |items|)), p.Limits()).1
  {
    ZeroOneDomains(|items|, x);
    if Binary(x, |items|) {
      CapacityRowsMeaning(items, p, x);
    }
  }

  /** The objective of a 0/1 assignment is the scaled total value of its group. */
  lemma {:induction false} CapacityObjective(items: Group, p: Parameters, x: seq<int>)
    requires Binary(x, |items|)
    ensures Eval(CapacityModel(items, p).objective, x) == ScalingFactor * SumValue(Pick(items, IntFlags(x, |items|)))
  {
    ScaledSum(items, Value, ScalingFactor, x);
  }

  /** If the response is a solution whenever it claims success, the example's
      result passes the capacity-only `check_valid`; a failed solve gives the
      empty group, which passes as well. */
  lemma {:induction false} SolvedGroupValid(items: Group, p: Parameters, r: CpResponse)
    requires Succeeded(r.status) ==> Satisfies(CapacityModel(items, p), r.values)
    ensures !CheckValidCapacity(Assembled(items, r), p.Limits()).1
  {
    if Succeeded(r.status) {
      CapacityModelMeaning(items, p, r.values);
    }
  }
}
