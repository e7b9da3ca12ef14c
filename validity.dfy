/** The validity scorer `check_valid`, in its two forms: capacity only (first
    greedy example, first solver example) and full (second greedy example,
    second and third solver examples). In both the Boolean it returns means
    INVALID. */
module Validity {
  import opened Catalog
  import opened Selection

  /** The totals returned by the capacity-only check, which the source carries
      in its two-field parameter record. */
  datatype CapacityReport = CapacityReport(totalWeight: nat, totalVolume: nat)

  /** Capacity-only `check_valid`: the totals, and whether either exceeds its
      capacity. */
  function CheckValidCapacity(selected: Group, cap: Capacity): (CapacityReport, bool) {
    var totalWeight := SumWeight(selected);
    var totalVolume := SumVolume(selected);
    (CapacityReport(totalWeight, totalVolume), totalWeight > cap.maxWeight || totalVolume > cap.maxVolume)
  }

  /** The empty group passes the capacity-only check. */
  lemma {:induction false} CapacityCheckAcceptsEmpty(cap: Capacity)
    ensures CheckValidCapacity([], cap) == (CapacityReport(0, 0), false)
  {
  }

  /** Dropping items from a group that passes the capacity check keeps it passing. */
  lemma {:induction false} CapacityCheckDownwardClosed(g: Group, flags: seq<bool>, cap: Capacity)
    requires |flags| == |g|
    requires !CheckValidCapacity(g, cap).1
    ensures !CheckValidCapacity(Pick(g, flags), cap).1
  {
    PickSumLe(g, flags, Weight);
    PickSumLe(g, flags, Volume);
  }

  /** The report of the full check, again carried in the parameter record:
      the three totals and the three largest shares. */
  datatype Report = Report(
    totalWeight: nat, totalVolume: nat, totalValue: nat,
    maxValueShare: real, maxManShare: real, maxTypeShare: real)

  /** `static_cast<double>(amount) / static_cast<double>(total)`, exactly. */
  function Share(amount: nat, total: nat): real
    requires total > 0
  {
    amount as real / total as real
  }

  /** Multiplying by a non-negative number keeps an inequality. */
  lemma {:induction false} MulLeft(a: real, b: real, c: real)
    requires 0.0 <= a && b <= c
    ensures a * b <= a * c
  {
  }

  /** Multiplying by a positive number keeps a strict inequality. */
  lemma {:induction false} MulLeftStrict(a: real, b: real, c: real)
    requires 0.0 < a && b < c
    ensures a * b < a * c
  {
  }

  /** A share is at most `r` exactly when the amount is at most `r` times the total. */
  lemma {:induction false} ShareAtMost(a: nat, total: nat, r: real)
    requires total > 0
    ensures Share(a, total) <= r <==> a as real <= r * total as real
  {
    var t := total as real;
    assert t * Share(a, total) == a as real;
    if Share(a, total) <= r {
      MulLeft(t, Share(a, total), r);
    } else {
      MulLeftStrict(t, r, Share(a, total));
    }
  }

  /** Some label of category `c` holds more than `limit` of the total value. */
  predicate ShareExceeded(g: Group, c: Category, limit: real)
    requires SumValue(g) > 0
  {
    exists k :: k in Keys(g, c) && Share(CategoryValue(g, c, k), SumValue(g)) > limit
  }

  /** Direct statement of what the full check rejects: the empty group, an
      exceeded capacity, a total below the floor, or a share of the total
      value held by the largest item, by one product type or by one
      manufacturer above its limit. */
  predicate ScorerInvalid(g: Group, p: Parameters)
    requires g == [] || SumValue(g) > 0
  {
    || g == []
    || SumWeight(g) > p.maxWeight
    || SumVolume(g) > p.maxVolume
    || SumValue(g) < p.minValue
    || Share(MaxValue(g), SumValue(g)) > p.highValueMax
    || ShareExceeded(g, ProductType, p.highTypeMax)
    || ShareExceeded(g, Manufacturer, p.highManMax)
  }

  /** `r` is the largest share of the total value held by one label of category `c`. */
  predicate IsLargestShare(r: real, g: Group, c: Category)
    requires SumValue(g) > 0
  {
    && (forall k :: k in Keys(g, c) ==> Share(CategoryValue(g, c, k), SumValue(g)) <= r)
    && (exists k :: k in Keys(g, c) && Share(CategoryValue(g, c, k), SumValue(g)) == r)
  }

  lemma {:induction false} ShareNonNegative(amount: nat, total: nat)
    requires total > 0
    ensures 0.0 <= Share(amount, total)
  {
  }

  /** The loop over one accumulated map: the running maximum of the shares and
      the flag that some share is above the limit. The map is iterated in an
      unspecified order. */
  method ScanShares(totals: map<string, nat>, total: nat, limit: real) returns (maxShare: real, exceeded: bool)
    requires total > 0
    ensures exceeded <==> exists k :: k in totals && Share(totals[k], total) > limit
    ensures forall k :: k in totals ==> Share(totals[k], total) <= maxShare
    ensures totals != map[] ==> exists k :: k in totals && Share(totals[k], total) == maxShare
    ensures totals == map[] ==> maxShare == 0.0
  {
    maxShare := 0.0;
    exceeded := false;
    var remaining := totals.Keys;
    while remaining != {}
      invariant remaining <= totals.Keys
      invariant exceeded <==> exists k :: k in totals && k !in remaining && Share(totals[k], total) > limit
      invariant forall k :: k in totals && k !in remaining ==> Share(totals[k], total) <= maxShare
      invariant maxShare == 0.0 || exists k :: k in totals && k !in remaining && Share(totals[k], total) == maxShare
      invariant totals == map[] ==> maxShare == 0.0
      decreases remaining
    {
      var k :| k in remaining;
      var share := totals[k] as real / total as real;
      if share > maxShare {
        maxShare := share;
      }
      exceeded := exceeded || share > limit;
      remaining := remaining - {k};
    }
    if totals != map[] && maxShare == 0.0 {
      var k :| k in totals;
      ShareNonNegative(totals[k], total);
      assert Share(totals[k], total) == maxShare;
    }
  }

  /** The loop of `check_valid` that adds each item's value to the totals of
      its product type and of its manufacturer. */
  method LabelTotals(selected: Group) returns (prodTypes: map<string, nat>, manTypes: map<string, nat>)
    ensures prodTypes == RunningTotals(selected, ProductType)
    ensures manTypes == RunningTotals(selected, Manufacturer)
  {
    prodTypes := map[];
    manTypes := map[];
    for i := 0 to |selected|
      invariant prodTypes == RunningTotals(selected[..i], ProductType)
      invariant manTypes == RunningTotals(selected[..i], Manufacturer)
    {
      var item := selected[i];
      assert selected[..i + 1][..i] == selected[..i];
      if item.productType in prodTypes {
        prodTypes := prodTypes[item.productType := prodTypes[item.productType] + item.value];
      } else {
        prodTypes := prodTypes[item.productType := item.value];
      }
      if item.manufacturer in manTypes {
        manTypes := manTypes[item.manufacturer := manTypes[item.manufacturer] + item.value];
      } else {
        manTypes := manTypes[item.manufacturer := item.value];
      }
    }
    assert selected[..|selected|] == selected;
  }

  /** Full `check_valid`. */
  method CheckValid(selected: Group, p: Parameters) returns (report: Report, invalid: bool)
    requires selected == [] || SumValue(selected) > 0
    ensures invalid == ScorerInvalid(selected, p)
    ensures selected == [] ==> report == Report(0, 0, 0, 0.0, 0.0, 0.0)
    ensures selected != [] ==>
      && report.totalWeight == SumWeight(selected)
      && report.totalVolume == SumVolume(selected)
      && report.totalValue == SumValue(selected)
      && report.maxValueShare == Share(MaxValue(selected), SumValue(selected))
      && IsLargestShare(report.maxManShare, selected, Manufacturer)
      && IsLargestShare(report.maxTypeShare, selected, ProductType)
  {
    if selected == [] {
      return Report(0, 0, 0, 0.0, 0.0, 0.0), true;
    }
    var totalWeight := SumWeight(selected);
    var totalVolume := SumVolume(selected);
    var totalValue := SumValue(selected);
    var maxIndex := MaxIndex(selected);

    var prodTypes, manTypes := LabelTotals(selected);
    RunningTotalsAreCategoryValues(selected, ProductType);
    RunningTotalsAreCategoryValues(selected, Manufacturer);

    var maxProdType, invalidProds := ScanShares(prodTypes, totalValue, p.highTypeMax);
    var maxManType, invalidMans := ScanShares(manTypes, totalValue, p.highManMax);
    assert selected[0].productType in Keys(selected, ProductType) by {
      KeysMembership(selected, ProductType, selected[0].productType);
    }
    assert selected[0].manufacturer in Keys(selected, Manufacturer) by {
      KeysMembership(selected, Manufacturer, selected[0].manufacturer);
    }

    var maxValuePercent := selected[maxIndex].value as real / totalValue as real;
    report := Report(totalWeight, totalVolume, totalValue, maxValuePercent, maxManType, maxProdType);
    invalid := || totalWeight > p.maxWeight || totalVolume > p.maxVolume
               || totalValue < p.minValue || maxValuePercent > p.highValueMax
               || invalidProds || invalidMans;
  }

  /** The full check rejects the empty group whatever the parameters. */
  lemma {:induction false} ScorerRejectsEmpty(p: Parameters)
    ensures ScorerInvalid([], p)
  {
  }

  /** A group the full check accepts also passes the capacity-only check. */
  lemma {:induction false} ScorerRefinesCapacity(g: Group, p: Parameters)
    requires g == [] || SumValue(g) > 0
    requires !ScorerInvalid(g, p)
    ensures !CheckValidCapacity(g, p.Limits()).1
  {
  }
}
