# Knapsack grouping examples, modelled in Dafny

The repository holds five small C++ programs. Each one picks a group of items
from a catalogue. An item has a value, a weight, a volume, a manufacturer and a
product type. The chosen group must respect a weight and a volume capacity. The
later programs add more rules: a floor on the total value, and limits on the
share of the total value that comes from the single largest item, from any one
manufacturer and from any one product type.

- `src/e1/greedy_example_1.cpp` sorts the items by value, then weight, then
  volume, all descending (`sort_by_filter`). A single greedy pass then admits
  every item that still fits (`find_grouping`). The result is reported by a
  capacity-only `check_valid`.
- `src/e2/greedy_example_2.cpp` uses the same greedy pass and then checks the
  result once. If the total is below the floor, or the largest item, a
  manufacturer or a product type takes too large a share, the whole group is
  dropped. Its `check_valid` is the full scorer: totals, the largest item's
  share, and the largest manufacturer and product-type shares.
- `src/e3/cpsolver_example_1.cpp` builds a CP-SAT model. It has one 0/1
  variable per item. Weights, volumes and values are scaled by 1000. There is
  a weight row and a volume row, and the objective maximises the value. The
  solved assignment is read back into a group.
- `src/e4/cpsolver_example_2.cpp` extends that model. It adds a strict value
  floor and the largest-item limit in one of three encodings (`force_max`,
  `max_equality`, `max_all`). It also adds one row per product type and one
  per manufacturer. Each share limit `r` enters as the integer coefficient
  `static_cast<int64>(1000.0 / r)`.
- `src/e5/cpsolver_example_3.cpp` states the same model for the MPSolver
  interface. Coefficients are real, the floor is `>=`, and there is no
  `max_equality` encoding. If no solver can be created, the program returns
  an empty group.
- `e4` and `e5` repeat `e2`'s full `check_valid` unchanged.

The Dafny project follows that structure:

- `Catalog`: items, parameters, the sums and the overflow tests, the first
  largest item, and the per-manufacturer and per-type value totals.
- `Ordering`: the sort comparator and what a sort by it produces.
- `Selection`: choosing items by flags.
- `Validity`: both forms of `check_valid`. The full one is a method with its
  loops.
- `GreedySelector`: the `e1` pass, as a method with a loop. A function
  specifies it.
- `GreedyPostCheck`: the `e2` selector, both as written and corrected.
- `CpSat`, `CpCapacity`, `CpScaled`, `CpScaledMeaning`, `CpScaledScorer`: the
  CP-SAT interface as data, the `e3` and `e4` model builders, and what each
  model means.
- `MpSolver`, `MpKnapsack`, `MpMeaning`, `MpScorer`: the same for `e5`.
- `GreedyExamples`, `CpCapacityExamples`, `CpScaledExamples`, `MpExamples`:
  the documented runs from each program's `main`.

Each builder is proved to produce the model it describes. A "meaning" lemma
then says which 0/1 assignments satisfy that model, in terms of the chosen
group. Scorer lemmas compare that with `check_valid`. The solvers are
parameters. Any solver response with a success status is assumed to satisfy
the model it was given.

Some behaviour of the code is worth stating outright:

- The full `check_valid` (`src/e2/greedy_example_2.cpp:210-212`) reports an
  empty group as Invalid, even when the floor is 0
  (`Validity.ScorerRejectsEmpty`).
- The `max_all` encoding (`src/e4/cpsolver_example_2.cpp:173-180`,
  `src/e5/cpsolver_example_3.cpp:151-158`) multiplies each item's value by its
  variable, so unchosen items drop out. It accepts exactly the choices whose
  largest item is within the limit, the same as `max_equality`
  (`CpScaledScorer.MaxAllMatchesMaxEquality`, `MpScorer.FourthIsShare`).
- The `e4` floor row is strict (`AddGreaterThan` at
  `src/e4/cpsolver_example_2.cpp:153`, following the `> v_min` comment at
  line 152). `check_valid` rejects a group only when `total_value <
  min_value` (`src/e2/greedy_example_2.cpp:275`). So a group worth exactly the
  floor is Valid, yet the model excludes it
  (`CpScaledExamples.StrictFloorExcludesValid`). The `e5` row is `>=`
  (`src/e5/cpsolver_example_3.cpp:140`, where the comment notes that `>` is
  not available), and it matches `check_valid` (`MpExamples.FloorIsInclusive`).
- The truncated `e4` coefficients (`src/e4/cpsolver_example_2.cpp:161`, 177,
  197, 218) make the rows weaker than the shares they encode. A solution can
  pass every row and still fail `check_valid`
  (`CpScaledExamples.TruncationAdmitsInvalid`). With exact coefficients the
  rows are sound (`CpScaledScorer.ScaledSoundWhenExact`).

## Model

| member | source | states |
|---|---|---|
| Catalog.SumAppend | src/e1/greedy_example_1.cpp:39-66 | The sum of an attribute over two concatenated groups is the sum of the two sums. |
| Catalog.SumGeMember | src/e1/greedy_example_1.cpp:39-66 | No item's weight, volume or value exceeds the group's total. |
| Catalog.AboveWeight | src/e1/greedy_example_1.cpp:55-58 | True exactly when adding the item would take the group's weight over the limit. |
| Catalog.AboveVolume | src/e1/greedy_example_1.cpp:68-71 | True exactly when adding the item would take the group's volume over the limit. |
| Catalog.MaxIndex | src/e4/cpsolver_example_2.cpp:112-116 | Index of the first item of largest value: no item is worth more, and every earlier item is worth strictly less. |
| Catalog.KeysMembership | src/e4/cpsolver_example_2.cpp:137-138 | A manufacturer or type is among the group's keys iff some item carries it. |
| Catalog.CategoryValueLeTotal | src/e2/greedy_example_2.cpp:225-245 | The value of one manufacturer or type never exceeds the group's total value. |
| Catalog.CategoryValueAbsent | src/e2/greedy_example_2.cpp:225-245 | A key that no item carries has value 0. |
| Catalog.RunningTotalsAreCategoryValues | src/e2/greedy_example_2.cpp:225-245 | The map built by find-or-insert-then-add has exactly the group's keys, each mapped to the total value of the items carrying it. |
| Ordering.SortByFilter | src/e1/greedy_example_1.cpp:152-174 | `a` sorts before `b` iff (value, weight, volume) of `a` is lexicographically greater. |
| Ordering.SortByFilterIsStrictWeakOrder | src/e1/greedy_example_1.cpp:152-174 | The comparator is irreflexive, asymmetric and transitive. Two items are unordered iff their value, weight and volume agree. |
| Ordering.SortedHeadsAgree | src/e1/greedy_example_1.cpp:238 | Two sorted permutations of one list with distinct keys start with the same item. |
| Ordering.SortedPermutationUnique | src/e1/greedy_example_1.cpp:238 | When sort keys are distinct, `std::sort` by the comparator has one possible result. |
| Ordering.DescendingAlongChain | src/e1/greedy_example_1.cpp:152-174 | If each item sorts before its successor, every earlier item sorts before every later one. |
| Ordering.StrictlyDescendingIsSorted | src/e1/greedy_example_1.cpp:238 | A list whose neighbours are strictly descending is sorted and has distinct keys. |
| Selection.SetIndicesExact | src/e3/cpsolver_example_1.cpp:144-150 | The indices read back are in range and increasing, and include an index iff its flag is set. |
| Selection.PickIsFlaggedItems | src/e3/cpsolver_example_1.cpp:144-150 | The assembled group lists the flagged items in their original order. |
| Selection.PickSumLe | src/e3/cpsolver_example_1.cpp:144-150 | A chosen group's totals never exceed those of all items. |
| Selection.PickContains | src/e3/cpsolver_example_1.cpp:144-150 | A flagged item's amount is at most the chosen group's total. |
| Selection.PickedMember | src/e3/cpsolver_example_1.cpp:144-150 | Every flagged item appears in the chosen group. |
| Selection.PickedFrom | src/e3/cpsolver_example_1.cpp:144-150 | Every item of the chosen group is a flagged input item. |
| Selection.MaxPicked | src/e4/cpsolver_example_2.cpp:164-171 | The largest value among the flagged items: it bounds every flagged item and is reached by one, or is 0 when none is flagged. |
| Selection.MaxPickedIsGroupMax | src/e4/cpsolver_example_2.cpp:164-171 | That maximum is the largest value of the chosen group. |
| Selection.MaxPickedLeMax | src/e4/cpsolver_example_2.cpp:166 | It is at most the largest value among all items, the upper bound of the `max_equality` variable. |
| Selection.PickKeys | src/e4/cpsolver_example_2.cpp:185-222 | The chosen group's manufacturers and types are among those of all items. |
| Validity.CapacityCheckAcceptsEmpty | src/e1/greedy_example_1.cpp:144-149 | The capacity-only check reports the empty group as weight 0, volume 0, Valid. |
| Validity.CapacityCheckDownwardClosed | src/e1/greedy_example_1.cpp:144-149 | Any selection from a group that passes the capacity check also passes it. |
| Validity.ShareAtMost | src/e2/greedy_example_2.cpp:251 | A share `a / total` is within `r` iff `a <= r * total`. |
| Validity.ScanShares | src/e2/greedy_example_2.cpp:247-269 | The scan flags a map iff some key's share exceeds the limit. The returned maximum bounds every share and is reached, or is 0.0 for an empty map. |
| Validity.LabelTotals | src/e2/greedy_example_2.cpp:222-245 | The loop builds the product-type and manufacturer maps of running value totals. |
| Validity.CheckValid | src/e2/greedy_example_2.cpp:208-277 | The verdict is Invalid iff the group is empty, or a capacity, the floor, the largest-item share, a manufacturer share or a type share fails. The report holds the totals, the largest item's share and the largest manufacturer and type shares. |
| Validity.ScorerRejectsEmpty | src/e2/greedy_example_2.cpp:210-212 | The full check reports the empty group as Invalid. |
| Validity.ScorerRefinesCapacity | src/e2/greedy_example_2.cpp:273-276 | A group the full check accepts also passes the capacity-only check. |
| GreedySelector.GreedyAdmitted | src/e1/greedy_example_1.cpp:73-87 | The greedy group never exceeds either capacity. |
| GreedySelector.FindGrouping | src/e1/greedy_example_1.cpp:73-87 | The loop returns the greedy group, which is within both capacities. |
| GreedySelector.GreedyExtends | src/e1/greedy_example_1.cpp:76-85 | The group built from a prefix of the items is a prefix of the final group. |
| GreedySelector.GreedyDecisions | src/e1/greedy_example_1.cpp:76-85 | The result is the input filtered by flags, with an item kept iff it did not overflow what was admitted before it. |
| GreedySelector.OverflowPersists | src/e1/greedy_example_1.cpp:78-82 | An item that overflows a group still overflows any extension of that group. |
| GreedySelector.GreedyRejectedOverflows | src/e1/greedy_example_1.cpp:78-82 | Every skipped item would overflow the final group, so the result is maximal. |
| GreedySelector.GreedyPrefixWithinCapacity | src/e1/greedy_example_1.cpp:76-85 | Every prefix of the result is within both capacities. |
| GreedySelector.GreedyPassesCapacityCheck | src/e1/greedy_example_1.cpp:144-149 | The capacity-only check reports the greedy group Valid. |
| GreedyPostCheck.LimitExact | src/e2/greedy_example_2.cpp:124 | Comparing with the truncated `static_cast<Amount>(r * total)` equals comparing with the exact `r * total`. For a positive total it equals comparing the share with `r`. |
| GreedyPostCheck.StaleTotalsAreZero | src/e2/greedy_example_2.cpp:95-110 | As written, the manufacturer and type maps get an entry per admitted key, and every entry stays 0. |
| GreedyPostCheck.StaleTotalsStep | src/e2/greedy_example_2.cpp:95-110 | One pass step stores the looked-up old entry, or 0, under the item's key. |
| GreedyPostCheck.RunningTotalsStep | src/e2/greedy_example_2.cpp:225-245 | In the corrected bookkeeping, one step adds the item's value to its key's entry. |
| GreedyPostCheck.AnyExceeds | src/e2/greedy_example_2.cpp:129-142 | The scan drops the group iff some entry exceeds the limit. |
| GreedyPostCheck.PostCheckTotals | src/e2/greedy_example_2.cpp:113-144 | The post-check returns the group iff the floor, the largest-item limit and both map scans pass, and returns the empty group otherwise. |
| GreedyPostCheck.FindGroupingPostCheck | src/e2/greedy_example_2.cpp:79-145 | The selector as written: greedy pass, maps that are never incremented, then the post-check. |
| GreedyPostCheck.FindGroupingPostCheckCorrected | src/e2/greedy_example_2.cpp:79-145 | The selector with the maps accumulating values, as `check_valid` does. |
| GreedyPostCheck.AsWrittenChecksFloorAndMaxOnly | src/e2/greedy_example_2.cpp:113-142 | As written, the selector keeps the greedy group iff it reaches the floor and the largest item is within the truncated limit. The manufacturer and type limits have no effect. |
| GreedyPostCheck.CorrectedAgreesWithScorer | src/e2/greedy_example_2.cpp:113-142 | The corrected selector keeps the greedy group iff the full `check_valid` accepts it. |
| GreedyPostCheck.CorrectedResultValid | src/e2/greedy_example_2.cpp:79-145 | Any non-empty group the corrected selector returns is Valid. |
| GreedyPostCheck.AsWrittenMissesManufacturerLimit | src/e2/greedy_example_2.cpp:107-110 | Take two items of value 5 from one manufacturer, with every limit 0.5. The selector as written returns both, `check_valid` rejects them, and the corrected selector returns nothing. |
| GreedyExamples.SortOfThree | src/e1/greedy_example_1.cpp:238 | Sorting three items with keys strictly ordered a > c > b yields [a, c, b]. |
| GreedyExamples.ThreeSortedIsTheSort | src/e1/greedy_example_1.cpp:232-238 | The example's three items sort as (10,10,0), (10,9,0), (3,2,0). |
| GreedyExamples.ThreePass | src/e1/greedy_example_1.cpp:73-87 | With weights 10, 9, 2 and capacity 20, the pass admits the first two items, weight 19. |
| GreedyExamples.FirstDocumentedOutput | src/e1/greedy_example_1.cpp:213-244 | The first program's run chooses the two value-10 items, reported Valid with weight 19 and volume 0. |
| GreedyExamples.SortOfFour | src/e2/greedy_example_2.cpp:374 | Sorting four items with keys strictly ordered a > c > b > d yields [a, c, b, d]. |
| GreedyExamples.FourSortedIsTheSort | src/e2/greedy_example_2.cpp:368-374 | The second program's items sort as (10,10,10), (3,5,2), (3,4,9), (2,4,4). |
| GreedyExamples.FourPass | src/e2/greedy_example_2.cpp:87-111 | In that order the pass admits the first, second and fourth, skipping the volume-9 item. |
| GreedyExamples.ThreeTotals | src/e2/greedy_example_2.cpp:208-245 | The outcome's totals are value 15, weight 19 and volume 16, with largest value 10 and the per-key values. |
| GreedyExamples.ThreeValid | src/e2/greedy_example_2.cpp:208-277 | `check_valid` accepts that outcome with the example's parameters. |
| GreedyExamples.SecondDocumentedOutput | src/e2/greedy_example_2.cpp:343-380 | The second program's run, as written, chooses the three documented items: value 15, weight 19, volume 16, reported Valid. |
| CpSat.SingleTermEval | src/e4/cpsolver_example_2.cpp:161 | `LinearExpr::Term(v, c)` evaluates to `c` times the variable's value. |
| CpSat.AllHoldAppend | src/e4/cpsolver_example_2.cpp:143-222 | Constraints added one after another are a conjunction. |
| CpSat.WeightedSumAppend | src/e3/cpsolver_example_1.cpp:112 | Extending `LinearExpr::WeightedSum` by one variable adds that term. |
| CpSat.ScaledSum | src/e3/cpsolver_example_1.cpp:101-118 | On a 0/1 assignment, the weighted sum with coefficients `amount * 1000` is 1000 times the chosen group's total. |
| CpSat.AssembleResponse | src/e3/cpsolver_example_1.cpp:136-151 | With a success status, read-back keeps the items whose value is at least 1. Otherwise it returns the empty group. |
| CpCapacity.BuildCapacityModel | src/e3/cpsolver_example_1.cpp:91-118 | The builder makes one {0,1} variable per item, the scaled weight and volume rows and the scaled value objective. |
| CpCapacity.FindGrouping | src/e3/cpsolver_example_1.cpp:85-152 | The program solves that model and assembles the response. |
| CpCapacity.ZeroOneDomains | src/e3/cpsolver_example_1.cpp:99-103 | An assignment is within the domains iff it has one 0/1 value per item. |
| CpCapacity.CapacityRowsMeaning | src/e3/cpsolver_example_1.cpp:111-115 | On a 0/1 assignment, the two rows hold iff the chosen group passes the capacity-only check. |
| CpCapacity.CapacityModelMeaning | src/e3/cpsolver_example_1.cpp:99-115 | An assignment solves the model iff it has one 0/1 value per item and its group passes the capacity check. |
| CpCapacity.CapacityObjective | src/e3/cpsolver_example_1.cpp:118 | The objective is 1000 times the chosen group's total value. |
| CpCapacity.SolvedGroupValid | src/e3/cpsolver_example_1.cpp:132-151 | If a successful response solves the model, the assembled group passes the capacity check. |
| CpCapacityExamples.FourChosenTotals | src/e3/cpsolver_example_1.cpp:257-262 | The documented assignment's group is worth 15, weighs 19 and fills 16. |
| CpCapacityExamples.FourPick | src/e3/cpsolver_example_1.cpp:263-280 | The documented assignment picks the first, third and fourth item. |
| CpCapacityExamples.FourBest | src/e3/cpsolver_example_1.cpp:257-284 | Among choices within capacity 20, the largest value is 15, reached only by the documented choice. |
| CpCapacityExamples.DocumentedAssignmentSolves | src/e3/cpsolver_example_1.cpp:281-288 | The documented assignment satisfies the example's model. |
| CpCapacityExamples.DocumentedAssignmentIsUniqueOptimum | src/e3/cpsolver_example_1.cpp:118 | Every solution has an objective at most the documented one's, and an equal objective only with the same choice. |
| CpCapacityExamples.DocumentedOutput | src/e3/cpsolver_example_1.cpp:257-288 | Reading back the documented assignment gives the documented three items, value 15, reported Valid with weight 19 and volume 16. |
| CpScaled.CoefficientBounds | src/e4/cpsolver_example_2.cpp:161 | `static_cast<int64>(1000.0 / r)` is a non-negative integer at most the exact quotient and less than one below it. |
| CpScaled.KeyRowFor | src/e4/cpsolver_example_2.cpp:187-200 | The inner loop builds the row over exactly the items carrying the key, each with coefficient `value * k`, bounded by the scaled value sum. |
| CpScaled.ListedRowsAreKeyRows | src/e4/cpsolver_example_2.cpp:185-201 | Rows built for listed keys are key rows of the items. |
| CpScaled.KeyRowsAreListed | src/e4/cpsolver_example_2.cpp:185-201 | When every key is listed, every key row is among the rows built. |
| CpScaled.KeyRowsFromOrder | src/e4/cpsolver_example_2.cpp:185-201 | One row built per key, in any order, is the set of key rows. |
| CpScaled.RowsOfAppend | src/e4/cpsolver_example_2.cpp:185-201 | Building one more key's row appends it. |
| CpScaled.KeyRowsFor | src/e4/cpsolver_example_2.cpp:185-222 | The loop over the set of keys yields one row per product type (or manufacturer), in any iteration order. |
| CpScaled.DeclareVariables | src/e4/cpsolver_example_2.cpp:120-139 | The loop declares {0,1} variables, with the largest item pinned to 1 under `force_max`. It also fills the scaled coefficients, the `val_sets` terms and the sets of types and manufacturers. |
| CpScaled.FourthConstraint | src/e4/cpsolver_example_2.cpp:158-181 | The switch adds the largest-item rows of the chosen encoding, plus the `max_equality` variable's domain. |
| CpScaled.ScaledModelFromParts | src/e4/cpsolver_example_2.cpp:141-222 | Declared domains, the fixed rows and one row per key form the scaled model. |
| CpScaled.BuildScaledModel | src/e4/cpsolver_example_2.cpp:93-222 | The builder returns a model of the described shape. |
| CpScaled.FindGrouping | src/e4/cpsolver_example_2.cpp:93-256 | The program solves such a model and assembles the response. |
| CpScaledMeaning.DomainsMeaning | src/e4/cpsolver_example_2.cpp:120-128 | An assignment is within the domains iff it is 0/1 per item, the largest item is 1 under `force_max`, and the extra variable under `max_equality` lies in [0, largest value]. |
| CpScaledMeaning.KeyRowValue | src/e4/cpsolver_example_2.cpp:196-200 | A key row's left side is `k` times the chosen group's value for that key. |
| CpScaledMeaning.KeyRowMeaning | src/e4/cpsolver_example_2.cpp:200 | A key row holds iff `k * keyValue <= 1000 * totalValue` for the chosen group. |
| CpScaledMeaning.KeyRowsMeaning | src/e4/cpsolver_example_2.cpp:185-222 | All key rows hold iff that bound holds for every key of the items. |
| CpScaledMeaning.FirstRowsMeaning | src/e4/cpsolver_example_2.cpp:143-153 | The weight, volume and strict floor rows hold iff the chosen group is within capacity and worth more than the floor. |
| CpScaledMeaning.ValSetEval | src/e4/cpsolver_example_2.cpp:107-135 | `val_sets` starts with one zero expression per item, followed under `max_equality` by each item's value times its variable. |
| CpScaledMeaning.ValSetsBounded | src/e4/cpsolver_example_2.cpp:107-135 | Every `val_sets` entry lies between 0 and the largest chosen value. |
| CpScaledMeaning.ValSetsReachMax | src/e4/cpsolver_example_2.cpp:107-135 | Some `val_sets` entry equals the largest chosen value. |
| CpScaledMeaning.EqualsMaxMeaning | src/e4/cpsolver_example_2.cpp:169 | `AddMaxEquality` holds iff the extra variable equals the largest chosen value. |
| CpScaledMeaning.TermRowMeaning | src/e4/cpsolver_example_2.cpp:161 | A single-term row holds iff `c * x_i <= 1000 * totalValue`. |
| CpScaledMeaning.ForceMaxRowMeaning | src/e4/cpsolver_example_2.cpp:159-163 | With the largest item pinned, the `force_max` row holds iff the largest value times `k` is at most 1000 times the chosen total. |
| CpScaledMeaning.MaxEqualityRowsMeaning | src/e4/cpsolver_example_2.cpp:164-172 | The `max_equality` rows hold iff the extra variable is the largest chosen value and it times `k` is within the bound. |
| CpScaledMeaning.MaxAllRowsMeaning | src/e4/cpsolver_example_2.cpp:173-180 | The `max_all` rows hold iff every chosen item's value times `k` is within the bound. |
| CpScaledMeaning.FourthRowsMeaning | src/e4/cpsolver_example_2.cpp:158-181 | For each encoding, its rows hold iff its largest-item condition holds. |
| CpScaledMeaning.FixedRowsMeaning | src/e4/cpsolver_example_2.cpp:143-181 | Rows 1 to 4 hold iff capacity, strict floor and the largest-item condition hold for the chosen group. |
| CpScaledMeaning.ScaledModelMeaning | src/e4/cpsolver_example_2.cpp:93-222 | An assignment solves any model of that shape iff it meets the domains, capacity, strict floor, largest-item condition and every key bound. |
| CpScaledScorer.TruncatedBound | src/e4/cpsolver_example_2.cpp:197 | A share within `r` also passes the truncated integer row. |
| CpScaledScorer.ExactBound | src/e4/cpsolver_example_2.cpp:197 | When `1000 / r` is an integer, passing the row means the share is within `r`. |
| CpScaledScorer.LabelRowsAccept | src/e4/cpsolver_example_2.cpp:185-222 | A group whose key shares are within the limit passes the key rows. |
| CpScaledScorer.FourthAccepts | src/e4/cpsolver_example_2.cpp:158-181 | A group whose largest-item share is within the limit passes every encoding's rows. |
| CpScaledScorer.ScaledAcceptsValid | src/e4/cpsolver_example_2.cpp:93-222 | Every 0/1 choice above the floor that `check_valid` accepts solves the scaled model, so no valid group is cut off except at the floor. |
| CpScaledScorer.FourthBoundsLargest | src/e4/cpsolver_example_2.cpp:158-181 | Under every encoding the rows imply the bound for the largest chosen item. |
| CpScaledScorer.LabelRowsExact | src/e4/cpsolver_example_2.cpp:185-222 | With exact coefficients, the key rows imply the key shares are within the limit. |
| CpScaledScorer.ScaledSoundWhenExact | src/e4/cpsolver_example_2.cpp:93-222 | With exact coefficients, every solution's group has positive value and is Valid. |
| CpScaledScorer.ScaledResult | src/e4/cpsolver_example_2.cpp:235-255 | Without success the result is empty. With success the group is within capacity and above the floor, and is Valid when the coefficients are exact. |
| CpScaledScorer.ForceMaxNeedsLargestToFit | src/e4/cpsolver_example_2.cpp:124-125 | Under `force_max`, if the largest item alone breaks a capacity, the model has no solution. |
| CpScaledScorer.MaxAllMatchesMaxEquality | src/e4/cpsolver_example_2.cpp:164-180 | `max_all` accepts exactly the choices `max_equality` accepts, with its extra variable set to the largest chosen value. |
| CpScaledExamples.SixPick | src/e4/cpsolver_example_2.cpp:440-470 | The documented assignment picks the four documented items. |
| CpScaledExamples.SixTotals | src/e4/cpsolver_example_2.cpp:433-438 | Those items total value 18, weight 18, volume 15, with largest value 9, and the per-key values. |
| CpScaledExamples.DocumentedResultValid | src/e4/cpsolver_example_2.cpp:430-470 | `check_valid` reports them Valid with largest-item share 0.5, manufacturer share 0.5 and type share 12/18. |
| CpScaledExamples.SixMaxIndex | src/e4/cpsolver_example_2.cpp:112-116 | The first item is the largest. |
| CpScaledExamples.DocumentedAssignmentHolds | src/e4/cpsolver_example_2.cpp:430-478 | The documented assignment meets every `force_max` condition. |
| CpScaledExamples.DocumentedAssignmentSolves | src/e4/cpsolver_example_2.cpp:471-478 | It solves every model the program may build from the example. |
| CpScaledExamples.StrictFloorExcludesValid | src/e4/cpsolver_example_2.cpp:153 | With the floor at 18 the documented group is still Valid, yet the strict floor row excludes it. |
| CpScaledExamples.CoefficientValues | src/e4/cpsolver_example_2.cpp:474 | The example's coefficients are 1428 for 0.7 and 1250 for 0.8. |
| CpScaledExamples.TruncationAdmitsInvalid | src/e4/cpsolver_example_2.cpp:197 | Values 7002 and 2998 with a type limit of 0.7 give a coefficient of 1428. Choosing both meets every row, yet `check_valid` rejects the 0.7002 type share. |
| MpSolver.SingleTermEval | src/e5/cpsolver_example_3.cpp:148 | A one-term expression evaluates to its coefficient times the variable's value. |
| MpSolver.AddTermEval | src/e5/cpsolver_example_3.cpp:118-120 | `expr += LinearExpr(x_i) * c` adds `c * x_i` to the expression's value. |
| MpSolver.AllHoldAppend | src/e5/cpsolver_example_3.cpp:128-196 | Rows made one after another are a conjunction. |
| MpSolver.AssembleResponse | src/e5/cpsolver_example_3.cpp:214-226 | With a success status, read-back keeps the items whose value is at least 1. Otherwise it returns the empty group. |
| MpKnapsack.DeclareVariables | src/e5/cpsolver_example_3.cpp:104-124 | The loop declares integer [0,1] variables, with the largest item pinned to [1,1] under `force_max`. It also builds the three sums and the sets of types and manufacturers. |
| MpKnapsack.FourthConstraint | src/e5/cpsolver_example_3.cpp:145-159 | The switch adds the largest-item row of the chosen encoding. |
| MpKnapsack.LabelRowFor | src/e5/cpsolver_example_3.cpp:165-176 | The inner loop sums `x_i * value / r` over the items carrying the key and bounds it by the value sum. |
| MpKnapsack.RowLoopStep | src/e5/cpsolver_example_3.cpp:163-177 | One iteration of the key loop keeps the loop's description of rows built so far. |
| MpKnapsack.LabelRowsFromOrder | src/e5/cpsolver_example_3.cpp:163-177 | One row built per key, in any order, is the set of label rows. |
| MpKnapsack.LabelRowsFor | src/e5/cpsolver_example_3.cpp:163-196 | The loop over a key set yields one row per key, in any iteration order. |
| MpKnapsack.MpModelFromParts | src/e5/cpsolver_example_3.cpp:126-196 | Declared variables, the fixed rows and one row per key form the model. |
| MpKnapsack.BuildMpModel | src/e5/cpsolver_example_3.cpp:90-196 | The builder returns a model of the described shape. |
| MpKnapsack.FindGrouping | src/e5/cpsolver_example_3.cpp:82-229 | Without a solver the program returns the empty group and builds nothing. Otherwise it builds such a model, solves it and assembles the response. |
| MpMeaning.BoundsMeaning | src/e5/cpsolver_example_3.cpp:110-116 | A solution is within the bounds iff it is 0/1 per item, with the largest item at 1 under `force_max`. |
| MpMeaning.AmountSumValue | src/e5/cpsolver_example_3.cpp:118-120 | On a 0/1 solution each sum evaluates to the chosen group's total. |
| MpMeaning.DivAtMost | src/e5/cpsolver_example_3.cpp:148 | For positive `r`, `a / r <= t` iff `a <= r * t`. |
| MpMeaning.LabelTotalValue | src/e5/cpsolver_example_3.cpp:167-175 | A label row's left side is the chosen group's value for the key divided by `r`. |
| MpMeaning.LabelRowMeaning | src/e5/cpsolver_example_3.cpp:176 | A label row holds iff the key's value is at most `r` times the chosen total. |
| MpMeaning.LabelRowsMeaning | src/e5/cpsolver_example_3.cpp:163-196 | All label rows hold iff that bound holds for every key. |
| MpMeaning.FirstRowsMeaning | src/e5/cpsolver_example_3.cpp:128-140 | The weight, volume and floor rows hold iff the chosen group is within capacity and worth at least the floor. |
| MpMeaning.TermRowMeaning | src/e5/cpsolver_example_3.cpp:148 | A single-term row holds iff `c * x_i` is at most the chosen value. |
| MpMeaning.ForceMaxRowMeaning | src/e5/cpsolver_example_3.cpp:146-150 | With the largest item pinned, the `force_max` row holds iff its value is at most `r` times the chosen total. |
| MpMeaning.MaxAllRowsMeaning | src/e5/cpsolver_example_3.cpp:151-158 | The `max_all` rows hold iff every chosen item's value is at most `r` times the chosen total. |
| MpMeaning.FixedRowsMeaning | src/e5/cpsolver_example_3.cpp:128-159 | Rows 1 to 4 hold iff capacity, floor and the largest-item condition hold. |
| MpMeaning.MpModelMeaning | src/e5/cpsolver_example_3.cpp:82-196 | A solution meets any model of that shape iff it meets the bounds, capacity, floor, largest-item condition and every key bound. |
| MpScorer.FourthIsShare | src/e5/cpsolver_example_3.cpp:145-159 | Under either encoding the largest-item rows hold iff the chosen group's largest share is within the limit. |
| MpScorer.LabelRowsAreShares | src/e5/cpsolver_example_3.cpp:163-196 | The label rows hold iff no key's share exceeds the limit. |
| MpScorer.MipHoldsIffValid | src/e5/cpsolver_example_3.cpp:126-196 | For a 0/1 solution of positive value, the conditions hold iff `check_valid` accepts its group. |
| MpScorer.MpModelMatchesScorer | src/e5/cpsolver_example_3.cpp:82-196 | A 0/1 solution of positive value solves the model iff its group is Valid. |
| MpScorer.ForceMaxPicksValue | src/e5/cpsolver_example_3.cpp:104-116 | Under `force_max` the chosen value is at least the largest item's value. |
| MpScorer.MpResult | src/e5/cpsolver_example_3.cpp:210-228 | Without success the result is empty. With success the group is within capacity and at least the floor, and is Valid whenever its value is positive, which `force_max` ensures when the largest value is positive. |
| MpScorer.ForceMaxNeedsLargestToFit | src/e5/cpsolver_example_3.cpp:112-113 | Under `force_max`, if the largest item alone breaks a capacity, nothing is feasible. |
| MpScorer.MaxAllAdmitsEmpty | src/e5/cpsolver_example_3.cpp:151-158 | Under `max_all` with no floor, choosing nothing meets every row, though `check_valid` calls the empty group Invalid. |
| MpExamples.SixValuesPick | src/e5/cpsolver_example_3.cpp:414-444 | The documented solution picks the four documented items. |
| MpExamples.DocumentedSolutionHolds | src/e5/cpsolver_example_3.cpp:403-448 | The documented solution meets every `force_max` condition for the example. |
| MpExamples.DocumentedSolutionSolves | src/e5/cpsolver_example_3.cpp:445-452 | It solves every model the program may build from the example. |
| MpExamples.DocumentedOutput | src/e5/cpsolver_example_3.cpp:403-456 | Reading it back gives four items, value 18, weight 18, volume 15, reported Valid. |
| MpExamples.FloorIsInclusive | src/e5/cpsolver_example_3.cpp:140 | With the floor raised to 18 the documented solution is still feasible and Valid, as the row is `>=`. |

## Left out

- Reading items and parameters from JSON files, command-line parsing and printing results (`read_json`, `parse_args`, `print_results`, `to_json`, `from_json`): these are I/O. `print_results` only prints what `check_valid` returns, which is modelled.
- The solvers themselves (CP-SAT's `SolveCpModel`, SCIP behind MPSolver), their thread counts and time limits: the solver is a parameter, and a successful response is assumed to satisfy its model.
- CpCapacity.FindGrouping, CpScaled.FindGrouping, MpKnapsack.FindGrouping: do not state that the response is optimal, only that it is assembled from the solver's answer, because what the solver returns is outside the model. `CpCapacityExamples.DocumentedAssignmentIsUniqueOptimum` proves optimality for the first example's input.
- Floating point: shares, `r * total` and `1000.0 / r` are exact reals. Rounding of `double` is not modelled; the truncating casts are (`Floor`).
- Integer width: `uint64_t` amounts and `int64` coefficients are unbounded naturals and integers, so overflow is not modelled.
- Iteration order of `std::set` and `std::unordered_map`: constraint rows and map scans are modelled up to order, and no result depends on it.
- Validity.CheckValid: requires a non-empty group to be worth more than 0. With total value 0 the source divides 0 by 0, and the NaN comparisons are not modelled.
- GreedyPostCheck.FindGroupingPostCheck: requires a positive floor or a non-empty greedy group. Otherwise the source dereferences `max_element` of an empty vector.
- CpScaled.FindGrouping, CpScaled.BuildScaledModel, MpKnapsack.BuildMpModel: require at least one item, since the source dereferences `max_element` of the item list. MpKnapsack.FindGrouping needs it only when a solver exists.
- The encoding of the largest-item limit is a parameter. Both programs fix it to `force_max`, and the other encodings are proved about as well.
- `std::sort` is modelled by its result: any permutation sorted by the comparator (`Ordering.IsSortedPermutation`), without the algorithm.

## Findings

| source | as written | input that shows it | evidently intended | confidence | as-written member | corrected member |
|---|---|---|---|---|---|---|
| src/e2/greedy_example_2.cpp:95-110 | Each admitted item's manufacturer and type entries are overwritten with the entry's old value (initially 0), never with that value plus the item's value, so every entry stays 0 and the manufacturer and type limits never drop a group | items (5,1,1,"a","p1") and (5,1,1,"a","p2"), capacities 10, floor 10, all share limits 0.5: manufacturer "a" holds the whole value, yet the group is returned | add the item's value to its manufacturer's and type's running totals, as `check_valid` does at lines 225-245 | high; not executed | GreedyPostCheck.FindGroupingPostCheck, GreedyPostCheck.AsWrittenMissesManufacturerLimit | GreedyPostCheck.FindGroupingPostCheckCorrected, GreedyPostCheck.CorrectedAgreesWithScorer |
