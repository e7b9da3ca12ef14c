/** The documented runs of the two greedy examples: sort the candidates with
    `sort_by_filter`, then run the pass. */
module GreedyExamples {
  import opened Catalog
  import opened Validity
  import opened Ordering
  import opened GreedySelector
  import opened GreedyPostCheck

  /** The three items of the first example's `main`. */
  function ThreeItems(): Group {
    [Item(10, 10, 0, "a", "p1"), Item(3, 2, 0, "b", "p2"), Item(10, 9, 0, "c", "p1")]
  }

  /** ... in `sort_by_filter` order. */
  function ThreeSorted(): Group {
    [Item(10, 10, 0, "a", "p1"), Item(10, 9, 0, "c", "p1"), Item(3, 2, 0, "b", "p2")]
  }

  /** A step of the pass that admits `x`. */
  lemma {:induction false} AdmitStep(items: Group, x: Item, cap: Capacity, prev: Group)
    requires GreedyAdmitted(items, cap) == prev
    requires SumWeight(prev) + x.weight <= cap.maxWeight && SumVolume(prev) + x.volume <= cap.maxVolume
    ensures GreedyAdmitted(items + [x], cap) == prev + [x]
    ensures SumWeight(prev + [x]) == SumWeight(prev) + x.weight
    ensures SumVolume(prev + [x]) == SumVolume(prev) + x.volume
  {
    assert (items + [x])[..|items|] == items;
    assert (prev + [x])[..|prev|] == prev;
  }

  /** A step of the pass that skips `x`. */
  lemma {:induction false} SkipStep(items: Group, x: Item, cap: Capacity, prev: Group)
    requires GreedyAdmitted(items, cap) == prev
    requires SumWeight(prev) + x.weight > cap.maxWeight || SumVolume(prev) + x.volume > cap.maxVolume
    ensures GreedyAdmitted(items + [x], cap) == prev
  {
    assert (items + [x])[..|items|] == items;
  }

  /** The sums, labels and label values of a group with one more item. */
  lemma {:induction false} AppendStep(g: Group, x: Item)
    ensures forall a :: Sum(g + [x], a) == Sum(g, a) + Amount(x, a)
    ensures forall c :: Keys(g + [x], c) == Keys(g, c) + {KeyOf(x, c)}
    ensures forall c, k ::
      CategoryValue(g + [x], c, k) == CategoryValue(g, c, k) + (if KeyOf(x, c) == k then x.value else 0)
  {
    assert (g + [x])[..|g|] == g;
  }

  /** Three items whose keys descend in the order a, c, b sort only one way. */
  lemma {:induction false} SortOfThree(sorted: Group, a: Item, b: Item, c: Item)
    requires IsSortedPermutation(sorted, [a, b, c])
    requires KeyGreater(a, c) && KeyGreater(c, b)
    ensures sorted == [a, c, b]
  {
    var t := [a, c, b];
    assert multiset(t) == multiset([a, b, c]);
    forall k | 0 <= k < |t| - 1 ensures KeyGreater(t[k], t[k + 1]) {
    }
    StrictlyDescendingIsSorted(t);
    SortedPermutationUnique(sorted, t);
  }

  /** Sorting the three items has one possible result, whatever `std::sort` does. */
  lemma {:induction false} ThreeSortedIsTheSort(sorted: Group)
    requires IsSortedPermutation(sorted, ThreeItems())
    ensures sorted == ThreeSorted()
  {
    var u := ThreeItems();
    assert u == [u[0], u[1], u[2]];
    SortOfThree(sorted, u[0], u[1], u[2]);
  }

  /** The pass over three items whose weights 10, 9 and 2 are taken in that
      order under 20: the first two fit, the third would reach 21. */
  lemma {:induction false} ThreePass(a: Item, c: Item, b: Item)
    requires a.weight == 10 && c.weight == 9 && b.weight == 2
    requires a.volume == 0 && c.volume == 0 && b.volume == 0
    ensures GreedyAdmitted([a, c, b], Capacity(20, 20)) == [a, c]
    ensures SumWeight([a, c]) == 19 && SumVolume([a, c]) == 0
  {
    var cap := Capacity(20, 20);
    assert SumWeight([]) == 0 && SumVolume([]) == 0;
    AdmitStep([], a, cap, []);
    assert [] + [a] == [a];
    AdmitStep([a], c, cap, [a]);
    assert [a] + [c] == [a, c];
    SkipStep([a, c], b, cap, [a, c]);
    assert [a, c] + [b] == [a, c, b];
  }

  /** The first example's documented output: the two items of value 10, with
      weight 19 and volume 0, reported Valid. */
  lemma {:induction false} FirstDocumentedOutput(sorted: Group)
    requires IsSortedPermutation(sorted, ThreeItems())
    ensures var g := GreedyAdmitted(sorted, Capacity(20, 20));
      && g == sorted[..2]
      && g == [Item(10, 10, 0, "a", "p1"), Item(10, 9, 0, "c", "p1")]
      && CheckValidCapacity(g, Capacity(20, 20)) == (CapacityReport(19, 0), false)
  {
    ThreeSortedIsTheSort(sorted);
    var t := ThreeSorted();
    assert t == [t[0], t[1], t[2]] && t[..2] == [t[0], t[1]];
    ThreePass(t[0], t[1], t[2]);
  }

  /** The four items of the second example's `main`. */
  function FourItems(): Group {
    [ Item(10, 10, 10, "a", "p1"), Item(3, 4, 9, "b", "p2"),
      Item(3, 5, 2, "c", "p4"), Item(2, 4, 4, "c", "p3") ]
  }

  /** ... in `sort_by_filter` order: by value, then by weight, descending. */
  function FourSorted(): Group {
    [ Item(10, 10, 10, "a", "p1"), Item(3, 5, 2, "c", "p4"),
      Item(3, 4, 9, "b", "p2"), Item(2, 4, 4, "c", "p3") ]
  }

  function FourParameters(): Parameters {
    Parameters(20, 20, 10, 0.8, 0.7, 0.7)
  }

  /** The three items of the documented output. */
  function FourChosen(): Group {
    [Item(10, 10, 10, "a", "p1"), Item(3, 5, 2, "c", "p4"), Item(2, 4, 4, "c", "p3")]
  }

  /** Four items whose keys descend in the order a, c, b, d sort only one way. */
  lemma {:induction false} SortOfFour(sorted: Group, a: Item, b: Item, c: Item, d: Item)
    requires IsSortedPermutation(sorted, [a, b, c, d])
    requires KeyGreater(a, c) && KeyGreater(c, b) && KeyGreater(b, d)
    ensures sorted == [a, c, b, d]
  {
    var t := [a, c, b, d];
    assert multiset(t) == multiset([a, b, c, d]);
    forall k | 0 <= k < |t| - 1 ensures KeyGreater(t[k], t[k + 1]) {
    }
    StrictlyDescendingIsSorted(t);
    SortedPermutationUnique(sorted, t);
  }

  /** Sorting the four items has one possible result: by value, and the two
      items of value 3 by weight. */
  lemma {:induction false} FourSortedIsTheSort(sorted: Group)
    requires IsSortedPermutation(sorted, FourItems())
    ensures sorted == FourSorted()
  {
    var u := FourItems();
    assert u == [u[0], u[1], u[2], u[3]];
    SortOfFour(sorted, u[0], u[1], u[2], u[3]);
  }

  /** The pass over four items under (20, 20): with weights 10, 5, 4, 4 and
      volumes 10, 2, 9, 4 it admits the first two, skips the third (its volume
      would reach 21), and admits the fourth. */
  lemma {:induction false} FourPass(a: Item, c: Item, b: Item, d: Item)
    requires a.weight == 10 && c.weight == 5 && b.weight == 4 && d.weight == 4
    requires a.volume == 10 && c.volume == 2 && b.volume == 9 && d.volume == 4
    ensures GreedyAdmitted([a, c, b, d], Capacity(20, 20)) == [a, c, d]
  {
    var cap := Capacity(20, 20);
    assert SumWeight([]) == 0 && SumVolume([]) == 0;
    AdmitStep([], a, cap, []);
    assert [] + [a] == [a];
    AdmitStep([a], c, cap, [a]);
    assert [a] + [c] == [a, c];
    SkipStep([a, c], b, cap, [a, c]);
    assert [a, c] + [b] == [a, c, b];
    AdmitStep([a, c, b], d, cap, [a, c]);
    assert [a, c, b] + [d] == [a, c, b, d];
    assert [a, c] + [d] == [a, c, d];
  }

  /** The pass over the sorted four items yields the documented group. */
  lemma {:induction false} FourAdmitted()
    ensures GreedyAdmitted(FourSorted(), FourParameters().Limits()) == FourChosen()
  {
    var t := FourSorted();
    assert t == [t[0], t[1], t[2], t[3]];
    assert FourChosen() == [t[0], t[1], t[3]];
    FourPass(t[0], t[1], t[2], t[3]);
  }

  /** The totals and shares of a group of three items with the amounts
      and labels of the documented output. */
  lemma {:induction false} ThreeTotals(a: Item, c: Item, d: Item)
    requires a.value == 10 && c.value == 3 && d.value == 2
    requires a.weight == 10 && c.weight == 5 && d.weight == 4
    requires a.volume == 10 && c.volume == 2 && d.volume == 4
    requires a.manufacturer == "a" && c.manufacturer == "c" && d.manufacturer == "c"
    requires a.productType == "p1" && c.productType == "p4" && d.productType == "p3"
    ensures var g := [a, c, d];
      && SumValue(g) == 15 && SumWeight(g) == 19 && SumVolume(g) == 16
      && MaxValue(g) == 10
      && Keys(g, Manufacturer) == {"a", "c"} && Keys(g, ProductType) == {"p1", "p4", "p3"}
      && CategoryValue(g, Manufacturer, "a") == 10 && CategoryValue(g, Manufacturer, "c") == 5
      && CategoryValue(g, ProductType, "p1") == 10 && CategoryValue(g, ProductType, "p4") == 3
      && CategoryValue(g, ProductType, "p3") == 2
  {
    AppendStep([], a);
    assert [] + [a] == [a];
    AppendStep([a], c);
    assert [a] + [c] == [a, c];
    AppendStep([a, c], d);
    assert [a, c] + [d] == [a, c, d];
    assert MaxIndex([a, c]) == 0 by {
      assert [a, c][..1] == [a];
    }
    assert [a, c, d][..2] == [a, c];
  }

  /** Such a group is Valid under the example's parameters: its largest item
      holds 2/3 of the value, within 0.8, and no manufacturer or product
      type more than 2/3, within 0.7. */
  lemma {:induction false} ThreeValid(a: Item, c: Item, d: Item)
    requires a.value == 10 && c.value == 3 && d.value == 2
    requires a.weight == 10 && c.weight == 5 && d.weight == 4
    requires a.volume == 10 && c.volume == 2 && d.volume == 4
    requires a.manufacturer == "a" && c.manufacturer == "c" && d.manufacturer == "c"
    requires a.productType == "p1" && c.productType == "p4" && d.productType == "p3"
    ensures !ScorerInvalid([a, c, d], FourParameters())
  {
    ThreeTotals(a, c, d);
    var g := [a, c, d];
    assert Share(10, 15) <= 0.7 && Share(5, 15) <= 0.7 && Share(3, 15) <= 0.7 && Share(2, 15) <= 0.7;
    assert !ShareExceeded(g, Manufacturer, 0.7);
    assert !ShareExceeded(g, ProductType, 0.7);
  }

  /** The totals of the documented output, and the full `check_valid`'s
      verdict on it. */
  lemma {:induction false} FourChosenValid()
    ensures var g := FourChosen();
      && SumValue(g) == 15 && SumWeight(g) == 19 && SumVolume(g) == 16
      && MaxValue(g) == 10
      && !ScorerInvalid(g, FourParameters())
  {
    var g := FourChosen();
    assert g == [g[0], g[1], g[2]];
    ThreeTotals(g[0], g[1], g[2]);
    ThreeValid(g[0], g[1], g[2]);
  }

  /** The second example's documented output: three items with value 15,
      weight 19 and volume 16, returned by the post-check as written and
      reported Valid by the full `check_valid`. */
  lemma {:induction false} SecondDocumentedOutput(sorted: Group)
    requires IsSortedPermutation(sorted, FourItems())
    ensures Defined(sorted, FourParameters())
    ensures var g := PostCheckAsWritten(sorted, FourParameters());
      && g == FourChosen()
      && SumValue(g) == 15 && SumWeight(g) == 19 && SumVolume(g) == 16
      && !ScorerInvalid(g, FourParameters())
  {
    FourSortedIsTheSort(sorted);
    FourAdmitted();
    FourChosenValid();
    AsWrittenChecksFloorAndMaxOnly(sorted, FourParameters());
    assert Limit(0.8, 15) == 12;
  }
}
