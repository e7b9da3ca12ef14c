/** Catalog model shared by all five selectors: items, groups, parameters and
    the aggregates computed over a group. */
module Catalog {

  /** A concentration limit: a positive fraction of the total selected value. */
  type Fraction = r: real | 0.0 < r witness 1.0

  /** A candidate item; identity is positional. */
  datatype Item = Item(value: nat, weight: nat, volume: nat, manufacturer: string, productType: string)

  /** A group is an ordered sequence of items. */
  type Group = seq<Item>

  /** The capacity-only parameter record of the first example and of the
      first solver example. */
  datatype Capacity = Capacity(maxWeight: nat, maxVolume: nat)

  /** The full parameter record. */
  datatype Parameters = Parameters(
    maxWeight: nat, maxVolume: nat, minValue: nat,
    highValueMax: Fraction, highManMax: Fraction, highTypeMax: Fraction)
  {
    function Limits(): Capacity {
      Capacity(maxWeight, maxVolume)
    }
  }

  /** The three summed amounts of an item. */
  datatype Attribute = Value | Weight | Volume

  function Amount(item: Item, a: Attribute): nat {
    match a
    case Value => item.value
    case Weight => item.weight
    case Volume => item.volume
  }

  /** The left fold `accumulate(..., 0, a + b.<attribute>)`. */
  function Sum(g: Group, a: Attribute): nat {
    if g == [] then 0 else Sum(g[..|g| - 1], a) + Amount(g[|g| - 1], a)
  }

  function SumValue(g: Group): nat { Sum(g, Value) }
  function SumWeight(g: Group): nat { Sum(g, Weight) }
  function SumVolume(g: Group): nat { Sum(g, Volume) }

  /** The sum over a concatenation is the sum of the sums. */
  lemma {:induction false} SumAppend(g: Group, h: Group, a: Attribute)
    ensures Sum(g + h, a) == Sum(g, a) + Sum(h, a)
    decreases |h|
  {
    if h == [] {
      assert g + h == g;
    } else {
      assert (g + h)[..|g + h| - 1] == g + h[..|h| - 1];
      SumAppend(g, h[..|h| - 1], a);
    }
  }

  /** Every prefix of a group sums to at most the whole group. */
  lemma {:induction false} SumPrefixLe(g: Group, i: nat, a: Attribute)
    requires i <= |g|
    ensures Sum(g[..i], a) <= Sum(g, a)
  {
    assert g == g[..i] + g[i..];
    SumAppend(g[..i], g[i..], a);
  }

  /** An item of a group contributes its amount to the group's sum. */
  lemma {:induction false} SumGeMember(g: Group, i: nat, a: Attribute)
    requires i < |g|
    ensures Amount(g[i], a) <= Sum(g, a)
    decreases |g|
  {
    if i < |g| - 1 {
      SumGeMember(g[..|g| - 1], i, a);
    }
  }

  /** `above_weight`: admitting `item` would push the running weight over the limit. */
  function AboveWeight(item: Item, selected: Group, maxWeight: nat): (r: bool)
    ensures r <==> SumWeight(selected + [item]) > maxWeight
  {
    assert (selected + [item])[..|selected|] == selected;
    SumWeight(selected) + item.weight > maxWeight
  }

  /** `above_volume`: admitting `item` would push the running volume over the limit. */
  function AboveVolume(item: Item, selected: Group, maxVolume: nat): (r: bool)
    ensures r <==> SumVolume(selected + [item]) > maxVolume
  {
    assert (selected + [item])[..|selected|] == selected;
    SumVolume(selected) + item.volume > maxVolume
  }

  /** `std::max_element` with the comparator `a.value < b.value`: the index of
      the first item of largest value. */
  function MaxIndex(g: Group): (k: nat)
    requires g != []
    ensures k < |g|
    ensures forall j :: 0 <= j < |g| ==> g[j].value <= g[k].value
    ensures forall j :: 0 <= j < k ==> g[j].value < g[k].value
  {
    if |g| == 1 then 0
    else
      var k := MaxIndex(g[..|g| - 1]);
      if g[k].value < g[|g| - 1].value then |g| - 1 else k
  }

  /** The value of the largest item. */
  function MaxValue(g: Group): nat
    requires g != []
  {
    g[MaxIndex(g)].value
  }

  /** The two category labels of an item. */
  datatype Category = Manufacturer | ProductType

  function KeyOf(item: Item, c: Category): string {
    match c
    case Manufacturer => item.manufacturer
    case ProductType => item.productType
  }

  /** The distinct labels of a category present in a group. */
  function Keys(g: Group, c: Category): set<string> {
    if g == [] then {} else Keys(g[..|g| - 1], c) + {KeyOf(g[|g| - 1], c)}
  }

  /** A label is present exactly when some item carries it. */
  lemma {:induction false} KeysMembership(g: Group, c: Category, k: string)
    ensures k in Keys(g, c) <==> exists i :: 0 <= i < |g| && KeyOf(g[i], c) == k
    decreases |g|
  {
    if g != [] {
      var p := g[..|g| - 1];
      KeysMembership(p, c, k);
      if k in Keys(p, c) {
        var i :| 0 <= i < |p| && KeyOf(p[i], c) == k;
        assert g[i] == p[i];
      } else if exists i :: 0 <= i < |g| && KeyOf(g[i], c) == k {
        var i :| 0 <= i < |g| && KeyOf(g[i], c) == k;
        if i < |p| {
          assert p[i] == g[i];
        }
      }
    }
  }

  /** The total value of the items of a group that carry label `k`. */
  function CategoryValue(g: Group, c: Category, k: string): nat {
    if g == [] then 0
    else
      CategoryValue(g[..|g| - 1], c, k) + (if KeyOf(g[|g| - 1], c) == k then g[|g| - 1].value else 0)
  }

  /** No label's value exceeds the group's total value. */
  lemma {:induction false} CategoryValueLeTotal(g: Group, c: Category, k: string)
    ensures CategoryValue(g, c, k) <= SumValue(g)
    decreases |g|
  {
    if g != [] {
      CategoryValueLeTotal(g[..|g| - 1], c, k);
    }
  }

  /** A label that no item carries has value zero. */
  lemma {:induction false} CategoryValueAbsent(g: Group, c: Category, k: string)
    requires k !in Keys(g, c)
    ensures CategoryValue(g, c, k) == 0
    decreases |g|
  {
    if g != [] {
      CategoryValueAbsent(g[..|g| - 1], c, k);
    }
  }

  /** The per-label running totals that `check_valid` accumulates in a map:
      a label seen for the first time is set to the item's value, a label
      seen before is incremented by it. */
  function RunningTotals(g: Group, c: Category): map<string, nat> {
    if g == [] then map[]
    else
      var m := RunningTotals(g[..|g| - 1], c);
      var item := g[|g| - 1];
      var k := KeyOf(item, c);
      if k in m then m[k := m[k] + item.value] else m[k := item.value]
  }

  /** The accumulated map holds, for every present label and only for those,
      the value of the items carrying it. */
  lemma {:induction false} RunningTotalsAreCategoryValues(g: Group, c: Category)
    ensures RunningTotals(g, c).Keys == Keys(g, c)
    ensures forall k :: k in RunningTotals(g, c) ==> RunningTotals(g, c)[k] == CategoryValue(g, c, k)
    decreases |g|
  {
    if g != [] {
      var p := g[..|g| - 1];
      RunningTotalsAreCategoryValues(p, c);
      forall k | k in RunningTotals(g, c)
        ensures RunningTotals(g, c)[k] == CategoryValue(g, c, k)
      {
        if k !in RunningTotals(p, c) {
          CategoryValueAbsent(p, c, k);
        }
      }
    }
  }
}
