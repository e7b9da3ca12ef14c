/** Picking items out of a candidate list by 0/1 decisions: the shape of
    every selector's result, and of the result each solver example assembles. */
module Selection {
  import opened Catalog

  /** The items whose flag is set, in index order. */
  function Pick(g: Group, flags: seq<bool>): Group
    requires |flags| == |g|
  {
    if g == [] then []
    else Pick(g[..|g| - 1], flags[..|g| - 1]) + (if flags[|g| - 1] then [g[|g| - 1]] else [])
  }

  /** The indices of the set flags, in increasing order. */
  function SetIndices(flags: seq<bool>): seq<nat> {
    if flags == [] then []
    else SetIndices(flags[..|flags| - 1]) + (if flags[|flags| - 1] then [|flags| - 1] else [])
  }

  /** Exactly the flagged positions are listed, each once, in increasing order. */
  lemma {:induction false} SetIndicesExact(flags: seq<bool>)
    ensures forall j :: 0 <= j < |SetIndices(flags)| ==> SetIndices(flags)[j] < |flags|
    ensures forall j, k :: 0 <= j < k < |SetIndices(flags)| ==> SetIndices(flags)[j] < SetIndices(flags)[k]
    ensures forall i :: 0 <= i < |flags| ==> (flags[i] <==> i in SetIndices(flags))
    decreases |flags|
  {
    if flags != [] {
      SetIndicesExact(flags[..|flags| - 1]);
    }
  }

  /** `Pick` lists the items at the flagged positions, in index order: no
      item is repeated, reordered or left out. */
  lemma {:induction false} PickIsFlaggedItems(g: Group, flags: seq<bool>)
    requires |flags| == |g|
    ensures |Pick(g, flags)| == |SetIndices(flags)|
    ensures forall j :: 0 <= j < |SetIndices(flags)| ==>
      SetIndices(flags)[j] < |g| && Pick(g, flags)[j] == g[SetIndices(flags)[j]]
    decreases |g|
  {
    SetIndicesExact(flags);
    if g != [] {
      PickIsFlaggedItems(g[..|g| - 1], flags[..|g| - 1]);
      SetIndicesExact(flags[..|g| - 1]);
    }
  }

  /** Leaving items out never increases a sum. */
  lemma {:induction false} PickSumLe(g: Group, flags: seq<bool>, a: Attribute)
    requires |flags| == |g|
    ensures Sum(Pick(g, flags), a) <= Sum(g, a)
    decreases |g|
  {
    if g != [] {
      var p := g[..|g| - 1];
      var f := flags[..|g| - 1];
      PickSumLe(p, f, a);
      SumAppend(Pick(p, f), if flags[|g| - 1] then [g[|g| - 1]] else [], a);
    }
  }

  /** A picked item lies in the result, so its amounts count towards its sums. */
  lemma {:induction false} PickContains(g: Group, flags: seq<bool>, i: nat, a: Attribute)
    requires |flags| == |g| && i < |g| && flags[i]
    ensures Amount(g[i], a) <= Sum(Pick(g, flags), a)
    decreases |g|
  {
    var p := g[..|g| - 1];
    var f := flags[..|g| - 1];
    if i == |g| - 1 {
      SumAppend(Pick(p, f), [g[i]], a);
    } else {
      PickContains(p, f, i, a);
      SumAppend(Pick(p, f), if flags[|g| - 1] then [g[|g| - 1]] else [], a);
    }
  }

  /** A flagged item appears in the picked group. */
  lemma {:induction false} PickedMember(g: Group, flags: seq<bool>, i: nat)
    requires |flags| == |g| && i < |g| && flags[i]
    ensures exists j :: 0 <= j < |Pick(g, flags)| && Pick(g, flags)[j] == g[i]
  {
    PickIsFlaggedItems(g, flags);
    SetIndicesExact(flags);
    var j :| 0 <= j < |SetIndices(flags)| && SetIndices(flags)[j] == i;
    assert Pick(g, flags)[j] == g[i];
  }

  /** Every item of the picked group is a flagged item. */
  lemma {:induction false} PickedFrom(g: Group, flags: seq<bool>, j: nat)
    requires |flags| == |g| && j < |Pick(g, flags)|
    ensures exists i :: 0 <= i < |g| && flags[i] && Pick(g, flags)[j] == g[i]
  {
    PickIsFlaggedItems(g, flags);
    SetIndicesExact(flags);
    var i := SetIndices(flags)[j];
    assert flags[i] && Pick(g, flags)[j] == g[i];
  }

  /** The largest value among the flagged items, 0 when none is flagged. */
  function MaxPicked(g: Group, flags: seq<bool>): (m: nat)
    requires |flags| == |g|
    ensures forall i :: 0 <= i < |g| && flags[i] ==> g[i].value <= m
    ensures m == 0 || exists i :: 0 <= i < |g| && flags[i] && g[i].value == m
  {
    if g == [] then 0
    else
      var m := MaxPicked(g[..|g| - 1], flags[..|g| - 1]);
      var v := if flags[|g| - 1] then g[|g| - 1].value else 0;
      if v > m then v else m
  }

  /** The largest flagged value is the largest value of the picked group. */
  lemma {:induction false} MaxPickedIsGroupMax(g: Group, flags: seq<bool>)
    requires |flags| == |g| && Pick(g, flags) != []
    ensures MaxPicked(g, flags) == MaxValue(Pick(g, flags))
  {
    var h := Pick(g, flags);
    var k := MaxIndex(h);
    PickedFrom(g, flags, k);
    if MaxPicked(g, flags) != 0 {
      var i :| 0 <= i < |g| && flags[i] && g[i].value == MaxPicked(g, flags);
      PickedMember(g, flags, i);
    } else {
      var i :| 0 <= i < |g| && flags[i] && h[k] == g[i];
    }
  }

  /** No picked value exceeds the largest value of the candidates. */
  lemma {:induction false} MaxPickedLeMax(items: Group, flags: seq<bool>)
    requires items != [] && |flags| == |items|
    ensures MaxPicked(items, flags) <= MaxValue(items)
  {
  }

  /** The labels of the picked items are labels of the candidates. */
  lemma {:induction false} PickKeys(g: Group, flags: seq<bool>, c: Category)
    requires |flags| == |g|
    ensures Keys(Pick(g, flags), c) <= Keys(g, c)
  {
    var h := Pick(g, flags);
    forall key | key in Keys(h, c) ensures key in Keys(g, c) {
      KeysMembership(h, c, key);
      var j :| 0 <= j < |h| && KeyOf(h[j], c) == key;
      PickedFrom(g, flags, j);
      KeysMembership(g, c, key);
    }
  }

  /** The sum over the picked items grows by the last item's amount exactly
      when its flag is set. */
  lemma {:induction false} PickSumStep(g: Group, flags: seq<bool>, a: Attribute)
    requires |flags| == |g| > 0
    ensures Sum(Pick(g, flags), a)
            == Sum(Pick(g[..|g| - 1], flags[..|g| - 1]), a) + (if flags[|g| - 1] then Amount(g[|g| - 1], a) else 0)
  {
    var prev := Pick(g[..|g| - 1], flags[..|g| - 1]);
    if flags[|g| - 1] {
      assert (prev + [g[|g| - 1]])[..|prev|] == prev;
    } else {
      assert prev + [] == prev;
    }
  }

  /** The category value over the picked items grows by the last item's value
      exactly when it is picked and carries the label. */
  lemma {:induction false} PickCategoryStep(g: Group, flags: seq<bool>, c: Category, key: string)
    requires |flags| == |g| > 0
    ensures CategoryValue(Pick(g, flags), c, key)
            == CategoryValue(Pick(g[..|g| - 1], flags[..|g| - 1]), c, key)
               + (if flags[|g| - 1] && KeyOf(g[|g| - 1], c) == key then g[|g| - 1].value else 0)
  {
    var prev := Pick(g[..|g| - 1], flags[..|g| - 1]);
    if flags[|g| - 1] {
      assert (prev + [g[|g| - 1]])[..|prev|] == prev;
    } else {
      assert prev + [] == prev;
    }
  }

  /** The decisions `value >= 1` read off an integer assignment for the
      first `n` variables (a missing value reads as 0). */
  function IntFlags(values: seq<int>, n: nat): seq<bool> {
    seq(n, i => 0 <= i < |values| && values[i] >= 1)
  }

  /** The decisions `solution_value() >= 1` read off a real assignment. */
  function RealFlags(values: seq<real>, n: nat): seq<bool> {
    seq(n, i => 0 <= i < |values| && values[i] >= 1.0)
  }

  /** Reading back one more variable appends its decision. */
  lemma {:induction false} IntFlagsStep(values: seq<int>, n: nat)
    ensures IntFlags(values, n + 1) == IntFlags(values, n) + [n < |values| && values[n] >= 1]
  {
    assert IntFlags(values, n + 1)[..n] == IntFlags(values, n);
  }

  /** Reading back one more real variable appends its decision. */
  lemma {:induction false} RealFlagsStep(values: seq<real>, n: nat)
    ensures RealFlags(values, n + 1) == RealFlags(values, n) + [n < |values| && values[n] >= 1.0]
  {
    assert RealFlags(values, n + 1)[..n] == RealFlags(values, n);
  }
}
