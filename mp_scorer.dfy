/** How the third solver example's problem relates to the full `check_valid`.
    The share limits enter exactly, so for a 0/1 assignment that picks some
    value the problem accepts exactly the groups the scorer accepts. The one
    gap is the empty group, which `max_all` mode admits when the floor is 0. */
module MpScorer {
  import opened Catalog
  import opened Selection
  import opened Validity
  import opened MpSolver
  import opened MpKnapsack
  import opened MpMeaning

  /** A variable read as 1 picks its item. */
  lemma {:induction false} OnePicks(items: Group, v: seq<real>, i: nat)
    requires i < |items| && Val(v, i) == 1.0
    ensures RealFlags(v, |items|)[i]
  {
  }

  /** With the largest candidate pinned, it is picked, and it is the largest
      picked item. */
  lemma {:induction false} PinnedChosenMax(items: Group, v: seq<real>)
    requires items != [] && Val(v, MaxIndex(items)) == 1.0
    ensures MipChosen(items, v) != [] && MaxValue(MipChosen(items, v)) == MaxValue(items)
  {
    var f := RealFlags(v, |items|);
    var g := MipChosen(items, v);
    var k := MaxIndex(items);
    OnePicks(items, v, k);
    PickedMember(items, f, k);
    var j :| 0 <= j < |g| && g[j] == items[k];
    assert g[j].value <= MaxValue(g);
    PickedFrom(items, f, MaxIndex(g));
  }

  /** The largest picked item is one of the picked candidates. */
  lemma {:induction false} ChosenMaxIsPicked(items: Group, v: seq<real>) returns (i: nat)
    requires MipChosen(items, v) != []
    ensures i < |items| && RealFlags(v, |items|)[i] && items[i].value == MaxValue(MipChosen(items, v))
  {
    var f := RealFlags(v, |items|);
    var g := MipChosen(items, v);
    PickedFrom(items, f, MaxIndex(g));
    i :| 0 <= i < |items| && f[i] && g[MaxIndex(g)] == items[i];
  }

  /** A picked candidate is no larger than the largest picked item. */
  lemma {:induction false} PickedLeChosenMax(items: Group, v: seq<real>, i: nat)
    requires i < |items| && RealFlags(v, |items|)[i]
    ensures MipChosen(items, v) != [] && items[i].value <= MaxValue(MipChosen(items, v))
  {
    PickedMember(items, RealFlags(v, |items|), i);
  }

  /** A smaller amount is within a bound a larger one is within. */
  lemma {:induction false} WithinBelow(a: nat, b: nat, bound: real)
    requires a <= b && b as real <= bound
    ensures a as real <= bound
  {
  }

  /** The largest item of `g` holds at most `r` of its value. */
  predicate LargestWithin(g: Group, r: Fraction)
    requires g != []
  {
    MaxValue(g) as real <= r * SumValue(g) as real
  }

  /** ... which is the scorer's bound on the largest share. */
  lemma {:induction false} LargestWithinIsShare(g: Group, r: Fraction)
    requires g != [] && SumValue(g) > 0
    ensures LargestWithin(g, r) <==> Share(MaxValue(g), SumValue(g)) <= r
  {
    var a := MaxValue(g);
    var total := SumValue(g);
    assert LargestWithin(g, r) <==> a as real <= r * total as real;
    ShareAtMost(a, total, r);
  }

  /** In `force_max` mode, with the largest candidate pinned, constraint 4
      bounds the largest picked item. */
  lemma {:induction false} ForceMaxIsLargest(items: Group, r: Fraction, v: seq<real>)
    requires items != [] && Val(v, MaxIndex(items)) == 1.0
    ensures MipChosen(items, v) != []
    ensures FourthHolds(items, r, ForceMax, v) <==> LargestWithin(MipChosen(items, v), r)
  {
    PinnedChosenMax(items, v);
    ForceMaxHolds(items, r, v);
  }

  /** In `max_all` mode constraint 4 bounds every picked item exactly when it
      bounds the largest one. */
  lemma {:induction false} MaxAllIsLargest(items: Group, r: Fraction, v: seq<real>)
    requires items != [] && MipChosen(items, v) != []
    ensures FourthHolds(items, r, MaxAll, v) <==> LargestWithin(MipChosen(items, v), r)
  {
    var n := |items|;
    var g := MipChosen(items, v);
    var bound := r * SumValue(g) as real;
    if FourthHolds(items, r, MaxAll, v) {
      var i := ChosenMaxIsPicked(items, v);
      assert items[i].value as real <= bound;
    }
    if MaxValue(g) as real <= bound {
      forall i | 0 <= i < n && RealFlags(v, n)[i] ensures items[i].value as real <= bound {
        PickedLeChosenMax(items, v, i);
        WithinBelow(items[i].value, MaxValue(g), bound);
      }
    }
  }

  /** Constraint 4, in either mode, is the scorer's bound on the share of the
      largest picked item. */
  lemma {:induction false} FourthIsShare(items: Group, r: Fraction, mode: FourthConstraintMode, v: seq<real>)
    requires items != [] && SumValue(MipChosen(items, v)) > 0
    requires mode == ForceMax ==> Val(v, MaxIndex(items)) == 1.0
    ensures MipChosen(items, v) != []
    ensures var g := MipChosen(items, v);
      FourthHolds(items, r, mode, v) <==> Share(MaxValue(g), SumValue(g)) <= r
  {
    var g := MipChosen(items, v);
    assert g != [];
    LargestWithinIsShare(g, r);
    match mode
    case ForceMax => ForceMaxIsLargest(items, r, v);
    case MaxAll => MaxAllIsLargest(items, r, v);
  }

  /** A label absent from the picked items is within any limit. */
  lemma {:induction false} AbsentWithin(g: Group, c: Category, key: string, r: Fraction)
    requires key !in Keys(g, c)
    ensures LabelWithin(g, c, key, r)
  {
    CategoryValueAbsent(g, c, key);
    MulLeft(r, 0.0, SumValue(g) as real);
  }

  /** A present label is within its limit exactly when its share is. */
  lemma {:induction false} WithinIsShare(g: Group, c: Category, key: string, r: Fraction)
    requires SumValue(g) > 0
    ensures LabelWithin(g, c, key, r) <==> Share(CategoryValue(g, c, key), SumValue(g)) <= r
  {
    var a := CategoryValue(g, c, key);
    var total := SumValue(g);
    assert LabelWithin(g, c, key, r) <==> a as real <= r * total as real;
    ShareAtMost(a, total, r);
  }

  /** The label rows of one category are the scorer's share test for it: the
      rows of labels the group does not carry hold trivially. */
  lemma {:induction false} LabelRowsAreShares(items: Group, v: seq<real>, c: Category, r: Fraction)
    requires SumValue(MipChosen(items, v)) > 0
    ensures LabelRowsHold(items, v, c, r) <==> !ShareExceeded(MipChosen(items, v), c, r)
  {
    var g := MipChosen(items, v);
    PickKeys(items, RealFlags(v, |items|), c);
    if LabelRowsHold(items, v, c, r) {
      forall key | key in Keys(g, c) ensures Share(CategoryValue(g, c, key), SumValue(g)) <= r {
        WithinIsShare(g, c, key, r);
      }
    }
    if !ShareExceeded(g, c, r) {
      forall key | key in Keys(items, c) ensures LabelWithin(g, c, key, r) {
        if key in Keys(g, c) {
          WithinIsShare(g, c, key, r);
        } else {
          AbsentWithin(g, c, key, r);
        }
      }
    }
  }

  /** For a 0/1 assignment that picks some value (with the largest item
      pinned in `force_max` mode), the problem's constraints accept exactly
      the groups the full `check_valid` accepts. */
  lemma {:induction false} MipHoldsIffValid(items: Group, p: Parameters, mode: FourthConstraintMode, v: seq<real>)
    requires items != [] && |v| == |items| && ZeroOne(v, |items|)
    requires mode == ForceMax ==> Val(v, MaxIndex(items)) == 1.0
    requires SumValue(MipChosen(items, v)) > 0
    ensures MipHolds(items, p, mode, v) <==> !ScorerInvalid(MipChosen(items, v), p)
  {
    FourthIsShare(items, p.highValueMax, mode, v);
    LabelRowsAreShares(items, v, ProductType, p.highTypeMax);
    LabelRowsAreShares(items, v, Manufacturer, p.highManMax);
  }

  /** The same, stated on any problem the example may build: its solutions
      that pick some value are exactly the 0/1 assignments of the right shape
      whose group passes the full `check_valid`. */
  lemma {:induction false} MpModelMatchesScorer(m: Problem, items: Group, p: Parameters, mode: FourthConstraintMode, v: seq<real>)
    requires items != [] && IsMpModel(m, items, p, mode)
    requires |v| == |items| && ZeroOne(v, |items|)
    requires mode == ForceMax ==> Val(v, MaxIndex(items)) == 1.0
    requires SumValue(MipChosen(items, v)) > 0
    ensures Satisfies(m, v) <==> !ScorerInvalid(MipChosen(items, v), p)
  {
    MpModelMeaning(m, items, p, mode, v);
    MipHoldsIffValid(items, p, mode, v);
  }

  /** In `force_max` mode a solution picks the largest candidate, so it picks
      some value whenever some candidate has value. */
  lemma {:induction false} ForceMaxPicksValue(items: Group, v: seq<real>)
    requires items != [] && Val(v, MaxIndex(items)) == 1.0
    ensures MaxValue(items) <= SumValue(MipChosen(items, v))
  {
    OnePicks(items, v, MaxIndex(items));
    PickContains(items, RealFlags(v, |items|), MaxIndex(items), Value);
  }

  /** What the third solver example returns, for a solver whose reported
      solutions satisfy the problem: nothing on failure, otherwise the group
      of a solution, which fits both capacities and reaches the floor, and
      which passes the full `check_valid` whenever it has value; in
      `force_max` mode it has value whenever some candidate has. */
  lemma {:induction false} MpResult(items: Group, p: Parameters, mode: FourthConstraintMode, m: Problem, r: Response)
    requires items != [] && IsMpModel(m, items, p, mode)
    requires Succeeded(r.status) ==> Satisfies(m, r.values)
    ensures !Succeeded(r.status) ==> Assembled(items, r) == []
    ensures Succeeded(r.status) ==>
      && MipHolds(items, p, mode, r.values)
      && !CheckValidCapacity(Assembled(items, r), p.Limits()).1
      && SumValue(Assembled(items, r)) >= p.minValue
    ensures Succeeded(r.status) && mode == ForceMax && MaxValue(items) > 0 ==> SumValue(Assembled(items, r)) > 0
    ensures Succeeded(r.status) && SumValue(Assembled(items, r)) > 0 ==> !ScorerInvalid(Assembled(items, r), p)
  {
    if Succeeded(r.status) {
      var v := r.values;
      MpModelMeaning(m, items, p, mode, v);
      if mode == ForceMax {
        ForceMaxPicksValue(items, v);
      }
      if SumValue(MipChosen(items, v)) > 0 {
        MipHoldsIffValid(items, p, mode, v);
      }
    }
  }

  /** In `force_max` mode the largest item is always picked, so when it alone
      exceeds a capacity the problem has no solution and the example returns
      nothing. */
  lemma {:induction false} ForceMaxNeedsLargestToFit(items: Group, p: Parameters, v: seq<real>)
    requires items != []
    requires items[MaxIndex(items)].weight > p.maxWeight || items[MaxIndex(items)].volume > p.maxVolume
    ensures !MipHolds(items, p, ForceMax, v)
  {
    if MipHolds(items, p, ForceMax, v) {
      var f := RealFlags(v, |items|);
      OnePicks(items, v, MaxIndex(items));
      PickContains(items, f, MaxIndex(items), Weight);
      PickContains(items, f, MaxIndex(items), Volume);
    }
  }

  /** With a floor of 0, `max_all` mode admits picking nothing, which the full
      `check_valid` rejects: the one group on which the two disagree. */
  lemma {:induction false} MaxAllAdmitsEmpty(items: Group, p: Parameters)
    requires items != [] && p.minValue == 0
    ensures var v := seq(|items|, i => 0.0);
      MipHolds(items, p, MaxAll, v) && MipChosen(items, v) == [] && ScorerInvalid(MipChosen(items, v), p)
  {
    var n := |items|;
    var v := seq(n, i => 0.0);
    var f := RealFlags(v, n);
    assert forall i :: 0 <= i < n ==> !f[i];
    NothingPicked(items, f);
    assert MipChosen(items, v) == [];
    forall key | key in Keys(items, ProductType) ensures LabelWithin([], ProductType, key, p.highTypeMax) {
      AbsentWithin([], ProductType, key, p.highTypeMax);
    }
    forall key | key in Keys(items, Manufacturer) ensures LabelWithin([], Manufacturer, key, p.highManMax) {
      AbsentWithin([], Manufacturer, key, p.highManMax);
    }
  }

  /** Clearing every flag picks nothing. */
  lemma {:induction false} NothingPicked(g: Group, flags: seq<bool>)
    requires |flags| == |g| && forall i :: 0 <= i < |g| ==> !flags[i]
    ensures Pick(g, flags) == []
    decreases |g|
  {
    if g != [] {
      NothingPicked(g[..|g| - 1], flags[..|g| - 1]);
    }
  }
}
