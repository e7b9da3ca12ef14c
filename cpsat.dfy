/** The part of the CP-SAT model builder the solver examples use, as data:
    integer variables with domains, linear expressions, the three kinds of
    constraint added, an objective, and the response read back. What a model
    means is stated by `Satisfies`; the solver itself is not modelled. */
module CpSat {
  import opened Catalog
  import opened Selection

  /** `Domain(lo, hi)`: the closed interval of values a variable may take. */
  datatype Domain = Domain(lo: int, hi: int)

  /** One term `coeff * x[index]` of a linear expression. */
  datatype Term = Term(index: nat, coeff: int)

  /** A linear expression: a list of terms plus a constant. */
  datatype LinearExpr = LinearExpr(terms: seq<Term>, constant: int)

  /** The constraints the examples add: `AddLessOrEqual`, `AddGreaterThan`
      and `AddMaxEquality`. */
  datatype Constraint =
    | LessOrEqual(lhs: LinearExpr, rhs: LinearExpr)
    | GreaterThan(lhs: LinearExpr, rhs: LinearExpr)
    | EqualsMax(target: nat, exprs: seq<LinearExpr>)

  /** What `CpModelBuilder::Build` hands to the solver: one domain per
      variable in creation order, the constraints in the order added, and the
      expression to maximise. */
  datatype CpModel = CpModel(domains: seq<Domain>, constraints: seq<Constraint>, objective: LinearExpr)

  datatype CpSolverStatus = Unknown | ModelInvalid | Feasible | Infeasible | Optimal

  /** The response: a status and one value per variable. */
  datatype CpResponse = CpResponse(status: CpSolverStatus, values: seq<int>)

  /** The examples accept a response only with one of these two statuses. */
  predicate Succeeded(s: CpSolverStatus) {
    s == Optimal || s == Feasible
  }

  /** The value of variable `i`; a variable the assignment does not cover reads as 0. */
  function XVal(x: seq<int>, i: nat): int {
    if i < |x| then x[i] else 0
  }

  function Dot(terms: seq<Term>, x: seq<int>): int {
    if terms == [] then 0
    else Dot(terms[..|terms| - 1], x) + terms[|terms| - 1].coeff * XVal(x, terms[|terms| - 1].index)
  }

  function Eval(e: LinearExpr, x: seq<int>): int {
    Dot(e.terms, x) + e.constant
  }

  /** An integer used where an expression is expected. */
  function Constant(c: int): LinearExpr {
    LinearExpr([], c)
  }

  /** `LinearExpr::Term(var, coeff)`. */
  function SingleTerm(v: nat, coeff: int): LinearExpr {
    LinearExpr([Term(v, coeff)], 0)
  }

  /** A single term evaluates to its coefficient times its variable. */
  lemma {:induction false} SingleTermEval(v: nat, coeff: int, x: seq<int>)
    ensures Eval(SingleTerm(v, coeff), x) == coeff * XVal(x, v)
  {
    var ts := [Term(v, coeff)];
    assert ts[..|ts| - 1] == [];
    assert Dot(ts, x) == Dot([], x) + coeff * XVal(x, v);
  }

  /** `LinearExpr::WeightedSum(vars, coeffs)`. */
  function WeightedSum(vars: seq<nat>, coeffs: seq<int>): LinearExpr
    requires |vars| == |coeffs|
  {
    LinearExpr(seq(|vars|, i requires 0 <= i < |vars| => Term(vars[i], coeffs[i])), 0)
  }

  /** The first `n` variables, in creation order. */
  function Indices(n: nat): seq<nat> {
    seq(n, i => i)
  }

  predicate Holds(c: Constraint, x: seq<int>) {
    match c
    case LessOrEqual(lhs, rhs) => Eval(lhs, x) <= Eval(rhs, x)
    case GreaterThan(lhs, rhs) => Eval(lhs, x) > Eval(rhs, x)
    case EqualsMax(target, exprs) =>
      && (forall j :: 0 <= j < |exprs| ==> Eval(exprs[j], x) <= XVal(x, target))
      && (exists j :: 0 <= j < |exprs| && Eval(exprs[j], x) == XVal(x, target))
  }

  predicate AllHold(cs: seq<Constraint>, x: seq<int>) {
    forall j :: 0 <= j < |cs| ==> Holds(cs[j], x)
  }

  predicate InDomains(domains: seq<Domain>, x: seq<int>) {
    |x| == |domains| && forall i :: 0 <= i < |x| ==> domains[i].lo <= x[i] <= domains[i].hi
  }

  /** `x` is a solution of the model: every variable in its domain and every
      constraint satisfied. */
  predicate Satisfies(m: CpModel, x: seq<int>) {
    InDomains(m.domains, x) && AllHold(m.constraints, x)
  }

  /** The first `n` variables take 0 or 1. */
  predicate Binary(x: seq<int>, n: nat) {
    forall i :: 0 <= i < n ==> 0 <= XVal(x, i) <= 1
  }

  /** `static_cast<int64>(amount) * scaling_factor` for every item, in order. */
  function ScaledAmounts(items: Group, a: Attribute, s: int): (r: seq<int>)
    ensures |r| == |items|
  {
    seq(|items|, i requires 0 <= i < |items| => Amount(items[i], a) * s)
  }

  /** Satisfying a concatenation of constraint lists is satisfying both. */
  lemma {:induction false} AllHoldAppend(a: seq<Constraint>, b: seq<Constraint>, x: seq<int>)
    ensures AllHold(a + b, x) <==> AllHold(a, x) && AllHold(b, x)
  {
    if AllHold(a, x) && AllHold(b, x) {
      forall j | 0 <= j < |a + b| ensures Holds((a + b)[j], x) {
        if j >= |a| {
          assert (a + b)[j] == b[j - |a|];
        }
      }
    }
    if AllHold(a + b, x) {
      forall j | 0 <= j < |a| ensures Holds(a[j], x) {
        assert (a + b)[j] == a[j];
      }
      forall j | 0 <= j < |b| ensures Holds(b[j], x) {
        assert (a + b)[j + |a|] == b[j];
      }
    }
  }

  /** Pushing a variable and its coefficient adds one term's value. */
  lemma {:induction false} WeightedSumAppend(vars: seq<nat>, coeffs: seq<int>, v: nat, c: int, x: seq<int>)
    requires |vars| == |coeffs|
    ensures Eval(WeightedSum(vars + [v], coeffs + [c]), x) == Eval(WeightedSum(vars, coeffs), x) + c * XVal(x, v)
  {
    var t := WeightedSum(vars + [v], coeffs + [c]).terms;
    assert t[..|t| - 1] == WeightedSum(vars, coeffs).terms;
  }

  /** `WeightedSum(within_pool, <amount>_scaled)`: the scaled amount of every
      item against its variable. */
  function ScaledSumExpr(items: Group, a: Attribute, s: int): LinearExpr {
    WeightedSum(Indices(|items|), ScaledAmounts(items, a, s))
  }

  function ScaledTotal(items: Group, a: Attribute, s: int, x: seq<int>): int {
    Eval(ScaledSumExpr(items, a, s), x)
  }

  /** Adding the last item's variable to the scaled weighted sum. */
  lemma {:induction false} ScaledTotalStep(items: Group, a: Attribute, s: int, x: seq<int>)
    requires |items| > 0
    ensures var n := |items|;
      ScaledTotal(items, a, s, x) == ScaledTotal(items[..n - 1], a, s, x) + Amount(items[n - 1], a) * s * XVal(x, n - 1)
  {
    var n := |items|;
    var p := items[..n - 1];
    assert Indices(n) == Indices(n - 1) + [n - 1];
    assert ScaledAmounts(items, a, s) == ScaledAmounts(p, a, s) + [Amount(items[n - 1], a) * s];
    WeightedSumAppend(Indices(n - 1), ScaledAmounts(p, a, s), n - 1, Amount(items[n - 1], a) * s, x);
  }

  /** The arithmetic of one step: a 0/1 variable times a scaled amount. */
  lemma {:induction false} ScaleStep(s: int, before: int, amt: int, xv: int)
    requires xv == 0 || xv == 1
    ensures s * before + amt * s * xv == s * (before + if xv == 1 then amt else 0)
  {
  }

  /** One inductive step of `ScaledSum`: if the prefix without the last item
      satisfies it, so does the whole group. */
  lemma ScaledSumStep(items: Group, a: Attribute, s: int, x: seq<int>)
    requires |items| > 0 && Binary(x, |items|)
    requires var p := items[..|items| - 1];
      ScaledTotal(p, a, s, x) == s * Sum(Pick(p, IntFlags(x, |p|)), a)
    ensures ScaledTotal(items, a, s, x) == s * Sum(Pick(items, IntFlags(x, |items|)), a)
  {
    var n := |items|;
    var p := items[..n - 1];
    var f := IntFlags(x, n);
    var xv := XVal(x, n - 1);
    var amt := Amount(items[n - 1], a);
    var before := Sum(Pick(p, IntFlags(x, n - 1)), a);
    assert ScaledTotal(items, a, s, x) == ScaledTotal(p, a, s, x) + amt * s * xv by {
      ScaledTotalStep(items, a, s, x);
    }
    assert Sum(Pick(items, f), a) == before + (if xv == 1 then amt else 0) by {
      IntFlagsStep(x, n - 1);
      assert f[..n - 1] == IntFlags(x, n - 1);
      PickSumStep(items, f, a);
      assert f[n - 1] <==> xv == 1;
    }
    ScaleStep(s, before, amt, xv);
  }

  /** On a 0/1 assignment, the weighted sum of the scaled amounts over all
      item variables is the scaled sum over the items whose variable is 1. */
  lemma {:induction false} ScaledSum(items: Group, a: Attribute, s: int, x: seq<int>)
    requires Binary(x, |items|)
    ensures ScaledTotal(items, a, s, x) == s * Sum(Pick(items, IntFlags(x, |items|)), a)
    decreases |items|
  {
    if items != [] {
      assert Binary(x, |items| - 1);
      ScaledSum(items[..|items| - 1], a, s, x);
      ScaledSumStep(items, a, s, x);
    } else {
      assert Pick(items, IntFlags(x, 0)) == [];
    }
  }

  /** The group a response yields: nothing unless the status is OPTIMAL or
      FEASIBLE, otherwise the items whose variable is at least 1, in index order. */
  function Assembled(items: Group, r: CpResponse): Group {
    if Succeeded(r.status) then Pick(items, IntFlags(r.values, |items|)) else []
  }

  /** Reading the response back, as the solver examples end. */
  method AssembleResponse(items: Group, response: CpResponse) returns (selected: Group)
    ensures selected == Assembled(items, response)
  {
    if !Succeeded(response.status) {
      return [];
    }
    var flags := IntFlags(response.values, |items|);
    selected := [];
    for i := 0 to |items|
      invariant selected == Pick(items[..i], flags[..i])
    {
      assert items[..i + 1][..i] == items[..i] && flags[..i + 1][..i] == flags[..i];
      if XVal(response.values, i) >= 1 {
        selected := selected + [items[i]];
      }
    }
    assert items[..|items|] == items && flags[..|items|] == flags;
  }
}
