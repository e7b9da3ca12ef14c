/** The comparator `sort_by_filter` that orders the candidates before the
    greedy pass, and what `std::sort` guarantees about its output. */
module Ordering {
  import opened Catalog

  /** The sign of C++20's three-way comparison `x <=> y` on two amounts. */
  function Compare(x: nat, y: nat): int {
    if x < y then -1 else if x > y then 1 else 0
  }

  /** Reference definition: the key (value, weight, volume) of `a` is
      lexicographically greater than that of `b`. */
  predicate KeyGreater(a: Item, b: Item) {
    || a.value > b.value
    || (a.value == b.value && a.weight > b.weight)
    || (a.value == b.value && a.weight == b.weight && a.volume > b.volume)
  }

  /** `a` and `b` agree on (value, weight, volume). */
  predicate SameKey(a: Item, b: Item) {
    a.value == b.value && a.weight == b.weight && a.volume == b.volume
  }

  /** `sort_by_filter`: descending comparison cascading through value, weight
      and volume; equal keys compare false. */
  function SortByFilter(a: Item, b: Item): (r: bool)
    ensures r <==> KeyGreater(a, b)
  {
    var res := Compare(a.value, b.value);
    if res < 0 then false
    else if res > 0 then true
    else
      var res := Compare(a.weight, b.weight);
      if res < 0 then false
      else if res > 0 then true
      else
        var res := Compare(a.volume, b.volume);
        if res < 0 then false
        else if res > 0 then true
        else false
  }

  /** The comparator is a strict weak ordering, as `std::sort` requires:
      irreflexive, asymmetric, transitive, and two items are incomparable
      exactly when their keys coincide. */
  lemma {:induction false} SortByFilterIsStrictWeakOrder(a: Item, b: Item, c: Item)
    ensures !SortByFilter(a, a)
    ensures SortByFilter(a, b) ==> !SortByFilter(b, a)
    ensures SortByFilter(a, b) && SortByFilter(b, c) ==> SortByFilter(a, c)
    ensures (!SortByFilter(a, b) && !SortByFilter(b, a)) <==> SameKey(a, b)
  {
  }

  /** What `std::sort(first, last, sort_by_filter)` guarantees of its output:
      no element compares before an element that precedes it. */
  predicate SortedByFilter(s: Group) {
    forall i, j :: 0 <= i < j < |s| ==> !SortByFilter(s[j], s[i])
  }

  /** `out` is a possible result of sorting `input`. */
  ghost predicate IsSortedPermutation(out: Group, input: Group) {
    multiset(out) == multiset(input) && SortedByFilter(out)
  }

  /** Distinct items of `s` have distinct keys. */
  predicate DistinctKeys(s: Group) {
    forall i, j :: 0 <= i < |s| && 0 <= j < |s| && s[i] != s[j] ==> !SameKey(s[i], s[j])
  }

  /** Two sorted arrangements of one multiset of distinct keys start alike. */
  lemma {:induction false} SortedHeadsAgree(s: Group, t: Group)
    requires s != [] && t != []
    requires SortedByFilter(s) && SortedByFilter(t)
    requires multiset(s) == multiset(t)
    requires DistinctKeys(t)
    ensures s[0] == t[0]
  {
    assert s[0] in multiset(t);
    var k :| 0 <= k < |t| && t[k] == s[0];
    assert t[0] in multiset(s);
    var j :| 0 <= j < |s| && s[j] == t[0];
    if j != 0 && k != 0 {
      assert !KeyGreater(s[j], s[0]);
      assert !KeyGreater(t[k], t[0]);
      assert SameKey(t[k], t[0]);
    }
  }

  /** When the keys are distinct, sorting has only one possible result. */
  lemma {:induction false} SortedPermutationUnique(s: Group, t: Group)
    requires SortedByFilter(s) && SortedByFilter(t)
    requires multiset(s) == multiset(t)
    requires DistinctKeys(t)
    ensures s == t
    decreases |s|
  {
    assert |t| == |multiset(t)| == |multiset(s)| == |s|;
    if s != [] {
      SortedHeadsAgree(s, t);
      assert s == [s[0]] + s[1..];
      assert t == [t[0]] + t[1..];
      assert multiset(s[1..]) == multiset(t[1..]) by {
        assert multiset(s) == multiset([s[0]] + s[1..]) == multiset{s[0]} + multiset(s[1..]);
        assert multiset(t) == multiset([t[0]] + t[1..]) == multiset{t[0]} + multiset(t[1..]);
        assert multiset(s[1..]) == multiset(s) - multiset{s[0]};
        assert multiset(t[1..]) == multiset(t) - multiset{t[0]};
      }
      assert SortedByFilter(s[1..]) by {
        forall i, j | 0 <= i < j < |s[1..]| ensures !SortByFilter(s[1..][j], s[1..][i]) {
          assert s[1..][j] == s[j + 1] && s[1..][i] == s[i + 1];
        }
      }
      assert SortedByFilter(t[1..]) by {
        forall i, j | 0 <= i < j < |t[1..]| ensures !SortByFilter(t[1..][j], t[1..][i]) {
          assert t[1..][j] == t[j + 1] && t[1..][i] == t[i + 1];
        }
      }
      assert DistinctKeys(t[1..]) by {
        forall i, j | 0 <= i < |t[1..]| && 0 <= j < |t[1..]| && t[1..][i] != t[1..][j]
          ensures !SameKey(t[1..][i], t[1..][j])
        {
          assert t[1..][j] == t[j + 1] && t[1..][i] == t[i + 1];
        }
      }
      SortedPermutationUnique(s[1..], t[1..]);
    }
  }

  /** Keys that strictly descend from each item to the next keep descending
      along the whole sequence. */
  lemma {:induction false} DescendingAlongChain(s: Group, i: nat, j: nat)
    requires forall k :: 0 <= k < |s| - 1 ==> KeyGreater(s[k], s[k + 1])
    requires i < j < |s|
    ensures KeyGreater(s[i], s[j])
    decreases j - i
  {
    if j > i + 1 {
      DescendingAlongChain(s, i, j - 1);
      assert KeyGreater(s[j - 1], s[j]);
      SortByFilterIsStrictWeakOrder(s[i], s[j - 1], s[j]);
    }
  }

  /** A sequence whose keys strictly descend from each item to the next is
      sorted and has distinct keys, so it is the only way to sort its items. */
  lemma {:induction false} StrictlyDescendingIsSorted(s: Group)
    requires forall k :: 0 <= k < |s| - 1 ==> KeyGreater(s[k], s[k + 1])
    ensures SortedByFilter(s) && DistinctKeys(s)
  {
    forall i, j | 0 <= i < j < |s| ensures !SortByFilter(s[j], s[i]) {
      DescendingAlongChain(s, i, j);
      SortByFilterIsStrictWeakOrder(s[i], s[j], s[j]);
    }
    forall i, j | 0 <= i < |s| && 0 <= j < |s| && s[i] != s[j] ensures !SameKey(s[i], s[j]) {
      if i < j {
        DescendingAlongChain(s, i, j);
      } else if j < i {
        DescendingAlongChain(s, j, i);
      }
    }
  }
}
