/** The second greedy example: the capacity greedy pass, with per-label
    bookkeeping kept during the pass, followed by a post-check that discards
    the whole group when it misses the value floor or breaks a concentration
    limit. */
module GreedyPostCheck {
  import opened Catalog
  import opened Validity
  import opened GreedySelector

  /** `static_cast<Amount>(r * static_cast<double>(total))`: the limit scaled
      to the total and truncated towards zero. */
  function Limit(r: Fraction, total: nat): int {
    (r * total as real).Floor
  }

  /** Comparing an amount with the truncated limit loses nothing: an amount is
      above the truncated limit exactly when it is above the exact one, so
      exactly when its share of a positive total is above `r`. */
  lemma {:induction false} LimitExact(amount: nat, r: Fraction, total: nat)
    ensures amount > Limit(r, total) <==> amount as real > r * total as real
    ensures total > 0 ==> (amount > Limit(r, total) <==> Share(amount, total) > r)
  {
    var x := r * total as real;
    assert x.Floor as real <= x < x.Floor as real + 1.0;
    if total > 0 {
      assert amount as real > x <==> amount as real / total as real > r;
    }
  }

  /** The per-label bookkeeping the pass performs as written: a label seen
      for the first time is recorded with 0, a label seen before is written
      back unchanged, so the item's value is never added. */
  function StaleTotals(g: Group, c: Category): map<string, nat> {
    if g == [] then map[]
    else
      var m := StaleTotals(g[..|g| - 1], c);
      var k := KeyOf(g[|g| - 1], c);
      m[k := if k in m then m[k] else 0]
  }

  /** As written, the bookkeeping records every present label, and only
      those, with total 0. */
  lemma {:induction false} StaleTotalsAreZero(g: Group, c: Category)
    ensures StaleTotals(g, c).Keys == Keys(g, c)
    ensures forall k :: k in StaleTotals(g, c) ==> StaleTotals(g, c)[k] == 0
    decreases |g|
  {
    if g != [] {
      StaleTotalsAreZero(g[..|g| - 1], c);
    }
  }

  /** One step of the bookkeeping as written. */
  lemma {:induction false} StaleTotalsStep(g: Group, item: Item, c: Category, key: string, total: nat)
    requires key == KeyOf(item, c)
    requires total == if key in StaleTotals(g, c) then StaleTotals(g, c)[key] else 0
    ensures StaleTotals(g + [item], c) == StaleTotals(g, c)[key := total]
  {
    assert (g + [item])[..|g|] == g;
  }

  /** One step of the corrected bookkeeping: the item's value is added to
      the total of its label, which starts from 0. */
  lemma {:induction false} RunningTotalsStep(g: Group, item: Item, c: Category, key: string, total: nat)
    requires key == KeyOf(item, c)
    requires total == if key in RunningTotals(g, c) then RunningTotals(g, c)[key] else 0
    ensures RunningTotals(g + [item], c) == RunningTotals(g, c)[key := total + item.value]
  {
    assert (g + [item])[..|g|] == g;
  }

  /** The truncated limit is never negative. */
  lemma {:induction false} LimitNonNegative(r: Fraction, total: nat)
    ensures 0 <= Limit(r, total)
  {
    assert 0.0 <= r * total as real;
  }

  /** The post-check returns a group only when this holds: the value floor,
      the largest item's limit, then the limit of every recorded manufacturer
      and product-type total. */
  predicate Passes(g: Group, manTotals: map<string, nat>, typeTotals: map<string, nat>, p: Parameters)
    requires g != [] || p.minValue > 0
  {
    var total := SumValue(g);
    && total >= p.minValue
    && MaxValue(g) <= Limit(p.highValueMax, total)
    && (forall k :: k in manTotals ==> manTotals[k] <= Limit(p.highManMax, total))
    && (forall k :: k in typeTotals ==> typeTotals[k] <= Limit(p.highTypeMax, total))
  }

  /** When the greedy pass admits nothing and the floor is 0, the source
      dereferences the end iterator returned by `max_element`; such inputs
      are outside the model. */
  predicate Defined(items: Group, p: Parameters) {
    p.minValue > 0 || GreedyAdmitted(items, p.Limits()) != []
  }

  /** The result of the example as written. */
  function PostCheckAsWritten(items: Group, p: Parameters): Group
    requires Defined(items, p)
  {
    var g := GreedyAdmitted(items, p.Limits());
    if Passes(g, StaleTotals(g, Manufacturer), StaleTotals(g, ProductType), p) then g else []
  }

  /** The result with the bookkeeping adding each item's value to its labels. */
  function PostCheckCorrected(items: Group, p: Parameters): Group
    requires Defined(items, p)
  {
    var g := GreedyAdmitted(items, p.Limits());
    if Passes(g, RunningTotals(g, Manufacturer), RunningTotals(g, ProductType), p) then g else []
  }

  /** The loop over one bookkeeping map: does some recorded total exceed the
      limit? It returns at the first one found, in unspecified order. */
  method AnyExceeds(totals: map<string, nat>, limit: int) returns (exceeded: bool)
    ensures exceeded <==> exists k :: k in totals && totals[k] > limit
  {
    var remaining := totals.Keys;
    while remaining != {}
      invariant remaining <= totals.Keys
      invariant forall k :: k in totals && k !in remaining ==> totals[k] <= limit
      decreases remaining
    {
      var k :| k in remaining;
      if totals[k] > limit {
        return true;
      }
      remaining := remaining - {k};
    }
    return false;
  }

  /** `find_grouping` of the second example, as written. */
  method FindGroupingPostCheck(items: Group, p: Parameters) returns (result: Group)
    requires Defined(items, p)
    ensures result == PostCheckAsWritten(items, p)
  {
    var cap := p.Limits();
    var selected: Group := [];
    var manMap: map<string, nat> := map[];
    var typeMap: map<string, nat> := map[];
    var total := 0;
    for i := 0 to |items|
      invariant selected == GreedyAdmitted(items[..i], cap)
      invariant total == SumValue(selected)
      invariant manMap == StaleTotals(selected, Manufacturer)
      invariant typeMap == StaleTotals(selected, ProductType)
    {
      var item := items[i];
      assert items[..i + 1][..i] == items[..i];
      if AboveWeight(item, selected, cap.maxWeight) || AboveVolume(item, selected, cap.maxVolume) {
        continue;
      }
      var manTotal := 0;
      if item.manufacturer in manMap {
        manTotal := manMap[item.manufacturer];
      }
      var typeTotal := 0;
      if item.productType in typeMap {
        typeTotal := typeMap[item.productType];
      }
      assert (selected + [item])[..|selected|] == selected;
      StaleTotalsStep(selected, item, Manufacturer, item.manufacturer, manTotal);
      StaleTotalsStep(selected, item, ProductType, item.productType, typeTotal);
      selected := selected + [item];
      total := total + item.value;
      manMap := manMap[item.manufacturer := manTotal];
      typeMap := typeMap[item.productType := typeTotal];
    }
    assert items[..|items|] == items;
    result := PostCheckTotals(selected, total, manMap, typeMap, p);
  }

  /** `find_grouping` of the second example with each item's value added to
      its labels' totals. */
  method FindGroupingPostCheckCorrected(items: Group, p: Parameters) returns (result: Group)
    requires Defined(items, p)
    ensures result == PostCheckCorrected(items, p)
  {
    var cap := p.Limits();
    var selected: Group := [];
    var manMap: map<string, nat> := map[];
    var typeMap: map<string, nat> := map[];
    var total := 0;
    for i := 0 to |items|
      invariant selected == GreedyAdmitted(items[..i], cap)
      invariant total == SumValue(selected)
      invariant manMap == RunningTotals(selected, Manufacturer)
      invariant typeMap == RunningTotals(selected, ProductType)
    {
      var item := items[i];
      assert items[..i + 1][..i] == items[..i];
      if AboveWeight(item, selected, cap.maxWeight) || AboveVolume(item, selected, cap.maxVolume) {
        continue;
      }
      var manTotal := 0;
      if item.manufacturer in manMap {
        manTotal := manMap[item.manufacturer];
      }
      var typeTotal := 0;
      if item.productType in typeMap {
        typeTotal := typeMap[item.productType];
      }
      assert (selected + [item])[..|selected|] == selected;
      RunningTotalsStep(selected, item, Manufacturer, item.manufacturer, manTotal);
      RunningTotalsStep(selected, item, ProductType, item.productType, typeTotal);
      selected := selected + [item];
      total := total + item.value;
      manMap := manMap[item.manufacturer := manTotal + item.value];
      typeMap := typeMap[item.productType := typeTotal + item.value];
    }
    assert items[..|items|] == items;
    result := PostCheckTotals(selected, total, manMap, typeMap, p);
  }

  /** The checks after the pass, on the admitted group, its total and the two
      bookkeeping maps. */
  method PostCheckTotals(selected: Group, total: nat, manMap: map<string, nat>, typeMap: map<string, nat>,
                         p: Parameters) returns (result: Group)
    requires selected != [] || p.minValue > 0
    requires total == SumValue(selected)
    ensures result == if Passes(selected, manMap, typeMap, p) then selected else []
  {
    if total < p.minValue {
      return [];
    }
    var maxIndex := MaxIndex(selected);
    if selected[maxIndex].value > Limit(p.highValueMax, total) {
      return [];
    }
    var manExceeded := AnyExceeds(manMap, Limit(p.highManMax, total));
    if manExceeded {
      return [];
    }
    var typeExceeded := AnyExceeds(typeMap, Limit(p.highTypeMax, total));
    if typeExceeded {
      return [];
    }
    return selected;
  }

  /** As written, the two label checks can never fail: the result is decided
      by the value floor and the largest item alone. */
  lemma {:induction false} AsWrittenChecksFloorAndMaxOnly(items: Group, p: Parameters)
    requires Defined(items, p)
    ensures var g := GreedyAdmitted(items, p.Limits());
      PostCheckAsWritten(items, p)
        == if SumValue(g) >= p.minValue && MaxValue(g) <= Limit(p.highValueMax, SumValue(g)) then g else []
  {
    var g := GreedyAdmitted(items, p.Limits());
    StaleTotalsAreZero(g, Manufacturer);
    StaleTotalsAreZero(g, ProductType);
    var total := SumValue(g);
    LimitNonNegative(p.highManMax, total);
    LimitNonNegative(p.highTypeMax, total);
    var man := StaleTotals(g, Manufacturer);
    var typ := StaleTotals(g, ProductType);
    assert forall k :: k in man ==> man[k] <= Limit(p.highManMax, total);
    assert forall k :: k in typ ==> typ[k] <= Limit(p.highTypeMax, total);
  }

  /** With the bookkeeping corrected, the post-check agrees with the full
      scorer: the greedy group is returned exactly when `check_valid` would
      call it valid, and the empty group otherwise. */
  lemma {:induction false} CorrectedAgreesWithScorer(items: Group, p: Parameters)
    requires Defined(items, p)
    requires var g := GreedyAdmitted(items, p.Limits()); g == [] || SumValue(g) > 0
    ensures var g := GreedyAdmitted(items, p.Limits());
      PostCheckCorrected(items, p) == if ScorerInvalid(g, p) then [] else g
  {
    var g := GreedyAdmitted(items, p.Limits());
    if g != [] {
      var total := SumValue(g);
      RunningTotalsAreCategoryValues(g, Manufacturer);
      RunningTotalsAreCategoryValues(g, ProductType);
      LimitExact(MaxValue(g), p.highValueMax, total);
      forall k | k in Keys(g, Manufacturer)
        ensures CategoryValue(g, Manufacturer, k) > Limit(p.highManMax, total)
                <==> Share(CategoryValue(g, Manufacturer, k), total) > p.highManMax
      {
        LimitExact(CategoryValue(g, Manufacturer, k), p.highManMax, total);
      }
      forall k | k in Keys(g, ProductType)
        ensures CategoryValue(g, ProductType, k) > Limit(p.highTypeMax, total)
                <==> Share(CategoryValue(g, ProductType, k), total) > p.highTypeMax
      {
        LimitExact(CategoryValue(g, ProductType, k), p.highTypeMax, total);
      }
    }
  }

  /** So a group the corrected example returns is one the full scorer accepts. */
  lemma {:induction false} CorrectedResultValid(items: Group, p: Parameters)
    requires Defined(items, p)
    requires PostCheckCorrected(items, p) != []
    requires SumValue(PostCheckCorrected(items, p)) > 0
    ensures !ScorerInvalid(PostCheckCorrected(items, p), p)
  {
    CorrectedAgreesWithScorer(items, p);
  }

  /** Two items of one manufacturer, each half of the total value. */
  function ConcentratedItems(): Group {
    [Item(5, 1, 1, "a", "p1"), Item(5, 1, 1, "a", "p2")]
  }

  function ConcentratedParameters(): Parameters {
    Parameters(10, 10, 10, 0.5, 0.5, 0.5)
  }

  /** As written, the example returns a group in which one manufacturer holds
      all of the value although the limit is half; the scorer rejects that
      group, and the corrected example returns nothing. */
  lemma {:induction false} AsWrittenMissesManufacturerLimit()
    ensures Defined(ConcentratedItems(), ConcentratedParameters())
    ensures PostCheckAsWritten(ConcentratedItems(), ConcentratedParameters()) == ConcentratedItems()
    ensures ScorerInvalid(ConcentratedItems(), ConcentratedParameters())
    ensures PostCheckCorrected(ConcentratedItems(), ConcentratedParameters()) == []
  {
    var items := ConcentratedItems();
    var p := ConcentratedParameters();
    assert items[..1][..0] == [];
    assert items[..1] == [items[0]];
    assert items[..|items| - 1] == items[..1];
    assert GreedyAdmitted(items[..1], p.Limits()) == [items[0]];
    assert GreedyAdmitted(items, p.Limits()) == items;
    assert [items[0]][..0] == [];
    assert items[..1] == [items[0]];
    assert Sum(items[..1], Value) == 5;
    assert SumValue(items) == 10;
    assert MaxValue(items) == 5;
    assert Limit(0.5, 10) == 5;
    AsWrittenChecksFloorAndMaxOnly(items, p);
    assert Keys(items, Manufacturer) == {"a"};
    assert CategoryValue(items, Manufacturer, "a") == 10;
    assert Share(10, 10) > 0.5;
    RunningTotalsAreCategoryValues(items, Manufacturer);
  }
}
