/** The capacity greedy selector of the first example: one forward pass that
    admits an item exactly when it still fits under both capacities. */
module GreedySelector {
  import opened Catalog
  import opened Selection
  import opened Validity

  /** The group the admission rule builds from `items`, as a left fold: each
      item is appended unless it would push the running weight or volume
      over capacity. */
  function GreedyAdmitted(items: Group, cap: Capacity): (r: Group)
    ensures SumWeight(r) <= cap.maxWeight && SumVolume(r) <= cap.maxVolume
  {
    if items == [] then []
    else
      var prev := GreedyAdmitted(items[..|items| - 1], cap);
      var item := items[|items| - 1];
      if AboveWeight(item, prev, cap.maxWeight) || AboveVolume(item, prev, cap.maxVolume) then prev
      else prev + [item]
  }

  /** `find_grouping` of the first example. */
  method FindGrouping(items: Group, cap: Capacity) returns (selected: Group)
    ensures selected == GreedyAdmitted(items, cap)
    ensures SumWeight(selected) <= cap.maxWeight && SumVolume(selected) <= cap.maxVolume
  {
    selected := [];
    for i := 0 to |items|
      invariant selected == GreedyAdmitted(items[..i], cap)
    {
      var item := items[i];
      assert items[..i + 1][..i] == items[..i];
      if AboveWeight(item, selected, cap.maxWeight) || AboveVolume(item, selected, cap.maxVolume) {
        continue;
      }
      selected := selected + [item];
    }
    assert items[..|items|] == items;
  }

  /** The pass only ever appends: the group admitted from a prefix of the
      input is a prefix of the group admitted from the whole input. */
  lemma {:induction false} GreedyExtends(items: Group, cap: Capacity, k: nat)
    requires k <= |items|
    ensures GreedyAdmitted(items[..k], cap) <= GreedyAdmitted(items, cap)
    decreases |items| - k
  {
    if k < |items| {
      var p := items[..|items| - 1];
      assert p[..k] == items[..k];
      GreedyExtends(p, cap, k);
    } else {
      assert items[..k] == items;
    }
  }

  /** The admitted group is a selection of the input in input order, and
      the decision for each item is the admission test against the items
      admitted before it. */
  lemma {:induction false} GreedyDecisions(items: Group, cap: Capacity) returns (flags: seq<bool>)
    ensures |flags| == |items|
    ensures Pick(items, flags) == GreedyAdmitted(items, cap)
    ensures forall k :: 0 <= k < |items| ==>
      (flags[k] <==> !Rejected(items, cap, k))
    decreases |items|
  {
    if items == [] {
      flags := [];
    } else {
      var n := |items|;
      var p := items[..n - 1];
      var prevFlags := GreedyDecisions(p, cap);
      flags := prevFlags + [!Rejected(items, cap, n - 1)];
      assert flags[..n - 1] == prevFlags;
      forall k | 0 <= k < n
        ensures flags[k] <==> !Rejected(items, cap, k)
      {
        if k < n - 1 {
          assert p[k] == items[k] && p[..k] == items[..k];
          assert flags[k] == prevFlags[k];
        }
      }
    }
  }

  /** The admission test failed for item `k`: it would have overflowed the
      items admitted before it. */
  predicate Rejected(items: Group, cap: Capacity, k: nat)
    requires k < |items|
  {
    var before := GreedyAdmitted(items[..k], cap);
    AboveWeight(items[k], before, cap.maxWeight) || AboveVolume(items[k], before, cap.maxVolume)
  }

  /** An item that overflows a group also overflows every extension of it. */
  lemma {:induction false} OverflowPersists(before: Group, after: Group, item: Item, cap: Capacity)
    requires before <= after
    requires AboveWeight(item, before, cap.maxWeight) || AboveVolume(item, before, cap.maxVolume)
    ensures AboveWeight(item, after, cap.maxWeight) || AboveVolume(item, after, cap.maxVolume)
  {
    assert after[..|before|] == before;
    SumPrefixLe(after, |before|, Weight);
    SumPrefixLe(after, |before|, Volume);
  }

  /** A rejected item would also overflow the final group: the pass never
      leaves out an item that would still fit at the end. */
  lemma {:induction false} GreedyRejectedOverflows(items: Group, cap: Capacity, k: nat)
    requires k < |items| && Rejected(items, cap, k)
    ensures || SumWeight(GreedyAdmitted(items, cap)) + items[k].weight > cap.maxWeight
            || SumVolume(GreedyAdmitted(items, cap)) + items[k].volume > cap.maxVolume
  {
    GreedyExtends(items, cap, k);
    OverflowPersists(GreedyAdmitted(items[..k], cap), GreedyAdmitted(items, cap), items[k], cap);
  }

  /** Capacity holds at every prefix of the admission order. */
  lemma {:induction false} GreedyPrefixWithinCapacity(items: Group, cap: Capacity, j: nat)
    requires j <= |GreedyAdmitted(items, cap)|
    ensures SumWeight(GreedyAdmitted(items, cap)[..j]) <= cap.maxWeight
    ensures SumVolume(GreedyAdmitted(items, cap)[..j]) <= cap.maxVolume
  {
    SumPrefixLe(GreedyAdmitted(items, cap), j, Weight);
    SumPrefixLe(GreedyAdmitted(items, cap), j, Volume);
  }

  /** The capacity-only check never reports the greedy result invalid. */
  lemma {:induction false} GreedyPassesCapacityCheck(items: Group, cap: Capacity)
    ensures CheckValidCapacity(GreedyAdmitted(items, cap), cap).1 == false
  {
  }
}
