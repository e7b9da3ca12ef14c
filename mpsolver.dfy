/** The part of the MPSolver interface the third solver example uses, as
    data: integer variables with bounds, linear expressions with real
    coefficients, row constraints `lhs <= rhs` and `lhs >= rhs`, an
    objective, and the solution read back. Coefficients and values are
    exact reals; the solver itself is not modelled. */
module MpSolver {
  import opened Catalog
  import opened Selection

  datatype Option<T> = None | Some(value: T)

  /** `MakeIntVar(lb, ub, "")`. */
  datatype IntVar = IntVar(lb: int, ub: int)

  /** One term `coeff * x[index]`. */
  datatype Term = Term(index: nat, coeff: real)

  /** `LinearExpr`: a list of terms plus an offset. */
  datatype LinearExpr = LinearExpr(terms: seq<Term>, offset: real)

  /** `MakeRowConstraint(lhs <= rhs)` and `MakeRowConstraint(lhs >= rhs)`. */
  datatype Row = AtMost(lhs: LinearExpr, rhs: LinearExpr) | AtLeast(lhs: LinearExpr, rhs: LinearExpr)

  /** What is handed to `Solve`: the variables in creation order, the rows
      in the order made, and the expression to maximise. */
  datatype Problem = Problem(vars: seq<IntVar>, rows: seq<Row>, objective: LinearExpr)

  datatype ResultStatus = Optimal | Feasible | Infeasible | Unbounded | Abnormal | ModelInvalid | NotSolved

  /** The result status and `solution_value()` of every variable. */
  datatype Response = Response(status: ResultStatus, values: seq<real>)

  /** The example reads a solution only with one of these two statuses. */
  predicate Succeeded(s: ResultStatus) {
    s == Optimal || s == Feasible
  }

  /** The value of variable `i`; a variable the assignment does not cover reads as 0. */
  function Val(v: seq<real>, i: nat): real {
    if i < |v| then v[i] else 0.0
  }

  function Dot(terms: seq<Term>, v: seq<real>): real {
    if terms == [] then 0.0
    else Dot(terms[..|terms| - 1], v) + terms[|terms| - 1].coeff * Val(v, terms[|terms| - 1].index)
  }

  function Eval(e: LinearExpr, v: seq<real>): real {
    Dot(e.terms, v) + e.offset
  }

  /** A number used where an expression is expected. */
  function Constant(c: real): LinearExpr {
    LinearExpr([], c)
  }

  /** `LinearExpr(var) * coeff`. */
  function SingleTerm(i: nat, coeff: real): LinearExpr {
    LinearExpr([Term(i, coeff)], 0.0)
  }

  /** A single term evaluates to its coefficient times its variable. */
  lemma {:induction false} SingleTermEval(i: nat, coeff: real, v: seq<real>)
    ensures Eval(SingleTerm(i, coeff), v) == coeff * Val(v, i)
  {
    var ts := [Term(i, coeff)];
    assert ts[..|ts| - 1] == [];
    assert Dot(ts, v) == Dot([], v) + coeff * Val(v, i);
  }

  /** `expr += LinearExpr(var) * coeff` for a variable not yet in `expr`. */
  function AddTerm(e: LinearExpr, i: nat, coeff: real): LinearExpr {
    LinearExpr(e.terms + [Term(i, coeff)], e.offset)
  }

  /** Adding a term adds its value. */
  lemma {:induction false} AddTermEval(e: LinearExpr, i: nat, coeff: real, v: seq<real>)
    ensures Eval(AddTerm(e, i, coeff), v) == Eval(e, v) + coeff * Val(v, i)
  {
    var ts := e.terms + [Term(i, coeff)];
    assert ts[..|ts| - 1] == e.terms;
  }

  predicate Holds(row: Row, v: seq<real>) {
    match row
    case AtMost(lhs, rhs) => Eval(lhs, v) <= Eval(rhs, v)
    case AtLeast(lhs, rhs) => Eval(lhs, v) >= Eval(rhs, v)
  }

  predicate AllHold(rows: seq<Row>, v: seq<real>) {
    forall j :: 0 <= j < |rows| ==> Holds(rows[j], v)
  }

  /** `r` is a whole number. */
  predicate Integral(r: real) {
    r == r.Floor as real
  }

  /** One value per variable, each a whole number within its bounds. */
  predicate WithinBounds(vars: seq<IntVar>, v: seq<real>) {
    && |v| == |vars|
    && forall i :: 0 <= i < |v| ==> vars[i].lb as real <= v[i] <= vars[i].ub as real && Integral(v[i])
  }

  /** `v` is a solution of the problem: every integer variable takes a whole
      number within its bounds and every row holds. */
  predicate Satisfies(m: Problem, v: seq<real>) {
    WithinBounds(m.vars, v) && AllHold(m.rows, v)
  }

  /** The first `n` variables take 0 or 1. */
  predicate ZeroOne(v: seq<real>, n: nat) {
    forall i :: 0 <= i < n ==> Val(v, i) == 0.0 || Val(v, i) == 1.0
  }

  /** A whole number between 0 and 1 is 0 or 1. */
  lemma {:induction false} IntegralZeroOne(r: real)
    requires 0.0 <= r <= 1.0 && Integral(r)
    ensures r == 0.0 || r == 1.0
  {
    assert 0 <= r.Floor <= 1;
  }

  /** A single row is satisfied exactly when it holds. */
  lemma {:induction false} AllHoldSingle(row: Row, v: seq<real>)
    ensures AllHold([row], v) <==> Holds(row, v)
  {
    assert [row][0] == row;
  }

  /** Satisfying a concatenation of rows is satisfying both parts. */
  lemma {:induction false} AllHoldAppend(a: seq<Row>, b: seq<Row>, v: seq<real>)
    ensures AllHold(a + b, v) <==> AllHold(a, v) && AllHold(b, v)
  {
    if AllHold(a, v) && AllHold(b, v) {
      forall j | 0 <= j < |a + b| ensures Holds((a + b)[j], v) {
        if j >= |a| {
          assert (a + b)[j] == b[j - |a|];
        }
      }
    }
    if AllHold(a + b, v) {
      forall j | 0 <= j < |a| ensures Holds(a[j], v) {
        assert (a + b)[j] == a[j];
      }
      forall j | 0 <= j < |b| ensures Holds(b[j], v) {
        assert (a + b)[j + |a|] == b[j];
      }
    }
  }

  /** The items a solution picks: those whose variable is at least 1. */
  function MipChosen(items: Group, v: seq<real>): Group {
    Pick(items, RealFlags(v, |items|))
  }

  /** The group a response yields: nothing unless the status is OPTIMAL or
      FEASIBLE, otherwise the items whose `solution_value()` is at least 1,
      in index order. */
  function Assembled(items: Group, r: Response): Group {
    if Succeeded(r.status) then MipChosen(items, r.values) else []
  }

  /** Reading the solution back, as the example ends. */
  method AssembleResponse(items: Group, response: Response) returns (selected: Group)
    ensures selected == Assembled(items, response)
  {
    if !Succeeded(response.status) {
      return [];
    }
    var flags := RealFlags(response.values, |items|);
    selected := [];
    for i := 0 to |items|
      invariant selected == Pick(items[..i], flags[..i])
    {
      assert items[..i + 1][..i] == items[..i] && flags[..i + 1][..i] == flags[..i];
      if Val(response.values, i) >= 1.0 {
        selected := selected + [items[i]];
      }
    }
    assert items[..|items|] == items && flags[..|items|] == flags;
  }
}
