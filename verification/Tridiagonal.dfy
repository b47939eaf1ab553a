/** The in-place tridiagonal solver with row interchange, over exact reals.
  *
  * The solver overwrites its four vectors. When it interchanges rows, an element of
  * a second super-diagonal appears and is parked in `lower`. A run that meets a zero
  * divisor stops and reports it (the original carries on with infinities).
  *
  * Main result, `Solve`: a run finishes exactly when the matrix is nonsingular, and then
  * the answer is the one and only solution of the original equations. */
module Tridiagonal {

  import opened Arithmetic

  type Vec = seq<real>

  /** The three stored diagonals. `lower[0]` and `upper[n - 1]` are padding. */
  datatype Matrix = Matrix(lower: Vec, diag: Vec, upper: Vec)

  /** A matrix together with a right-hand side: all the solver's state. */
  datatype System = System(a: Matrix, rhs: Vec)

  predicate Shaped(a: Matrix, n: nat) {
    n != 0 && |a.lower| == n && |a.diag| == n && |a.upper| == n
  }

  /** What remains of `target` after taking away w times `source`: the row operation. */
  function Less(target: real, w: real, source: real): real {
    target - w * source
  }

  function Zeros(n: nat): (z: Vec)
    ensures |z| == n && forall i :: 0 <= i < n ==> z[i] == 0.0
  {
    seq(n, _ => 0.0)
  }

  // ----- What it means to solve the original equations

  /** Left-hand side of the i-th equation; the padding never takes part. */
  function Row(a: Matrix, x: Vec, i: nat): real
    requires Shaped(a, |x|) && i < |x|
  {
    (if i > 0 then Times(a.lower[i], x[i - 1]) else 0.0)
    + Times(a.diag[i], x[i])
    + (if i + 1 < |x| then Times(a.upper[i], x[i + 1]) else 0.0)
  }

  ghost predicate Solves(s: System, x: Vec)
    requires Shaped(s.a, |s.rhs|)
  {
    match s
    case System(a, rhs) => |x| == |rhs| && forall i :: 0 <= i < |x| ==> Row(a, x, i) == rhs[i]
  }

  /** Only the zero vector is mapped to zero. */
  ghost predicate Nonsingular(a: Matrix)
    requires Shaped(a, |a.diag|)
  {
    forall x: Vec :: Solves(System(a, Zeros(|a.diag|)), x) ==> x == Zeros(|a.diag|)
  }

  // ----- The state between elimination steps

  /** Left-hand side of row k once the first i columns have been eliminated. */
  function WorkRow(a: Matrix, x: Vec, i: nat, k: nat): real
    requires Shaped(a, |x|) && i < |x| && k < |x|
  {
    if k < i then
      Times(a.diag[k], x[k]) + Times(a.upper[k], x[k + 1])
      + (if k + 2 < |x| then Times(a.lower[k + 1], x[k + 2]) else 0.0)
    else if k == i then
      Times(a.diag[k], x[k]) + (if k + 1 < |x| then Times(a.upper[k], x[k + 1]) else 0.0)
    else
      Row(a, x, k)
  }

  ghost predicate WorkSolves(s: System, x: Vec, i: nat)
    requires Shaped(s.a, |s.rhs|) && i < |s.rhs|
  {
    |x| == |s.rhs| && forall k :: 0 <= k < |x| ==> WorkRow(s.a, x, i, k) == s.rhs[k]
  }

  // ----- One elimination step, as a function on the whole state

  /** Column i offers no usable divisor: the step would divide by zero. */
  predicate Stuck(a: Matrix, i: nat)
    requires i + 1 < |a.diag| && Shaped(a, |a.diag|)
  {
    a.diag[i] == 0.0 && a.lower[i + 1] == 0.0
  }

  /** The step on the coefficients: eliminate with row i, or with row i + 1 after an interchange. */
  function EliminateMatrix(a: Matrix, i: nat): (b: Matrix)
    requires Shaped(a, |a.diag|) && i + 1 < |a.diag| && !Stuck(a, i)
    ensures Shaped(b, |a.diag|)
    ensures b.diag[i] != 0.0
    ensures forall k :: 0 <= k < i ==> b.diag[k] == a.diag[k]
  {
    var Matrix(l, d, u) := a;
    if Abs(d[i]) >= Abs(l[i + 1]) then
      var w := Quotient(l[i + 1], d[i]);
      Matrix(l[i + 1 := 0.0], d[i + 1 := Less(d[i + 1], w, u[i])], u)
    else
      var w := Quotient(d[i], l[i + 1]);
      Matrix(l[i + 1 := u[i + 1]],
             d[i := l[i + 1]][i + 1 := Less(u[i], w, d[i + 1])],
             u[i + 1 := Times(u[i + 1], -w)][i := d[i + 1]])
  }

  /** The same step on the right-hand side. */
  function EliminateRhs(a: Matrix, r: Vec, i: nat): (r': Vec)
    requires Shaped(a, |r|) && i + 1 < |r| && !Stuck(a, i)
    ensures |r'| == |r|
  {
    if Abs(a.diag[i]) >= Abs(a.lower[i + 1]) then
      r[i + 1 := Less(r[i + 1], Quotient(a.lower[i + 1], a.diag[i]), r[i])]
    else
      r[i := r[i + 1]][i + 1 := Less(r[i], Quotient(a.diag[i], a.lower[i + 1]), r[i + 1])]
  }

  /** Where an interchange happens but elimination without it could divide too, the row it leaves, with
    * its diagonal, its super-diagonal and its right-hand side, is one non-zero multiple of the row that
    * elimination without it would leave. */
  lemma PivotLeavesMultiple(a: Matrix, r: Vec, i: nat)
    requires Shaped(a, |r|) && i + 1 < |r| && 0.0 < Abs(a.diag[i]) < Abs(a.lower[i + 1])
    ensures var w, v := Quotient(a.diag[i], a.lower[i + 1]), Quotient(a.lower[i + 1], a.diag[i]);
            var b, r' := EliminateMatrix(a, i), EliminateRhs(a, r, i);
            && w != 0.0
            && b.diag[i + 1] == Times(-w, Less(a.diag[i + 1], v, a.upper[i]))
            && b.upper[i + 1] == Times(-w, a.upper[i + 1])
            && r'[i + 1] == Times(-w, Less(r[i + 1], v, r[i]))
  {
    var d, l := a.diag[i], a.lower[i + 1];
    var w, v := Quotient(d, l), Quotient(l, d);
    QuotientsInvert(d, l);
    Multiple(w, v, a.diag[i + 1], a.upper[i]);
    Multiple(w, v, r[i + 1], r[i]);
    assert Times(a.upper[i + 1], -w) == Times(-w, a.upper[i + 1]);
  }

  lemma QuotientsInvert(d: real, l: real)
    requires d != 0.0 && l != 0.0
    ensures Quotient(d, l) != 0.0 && Quotient(d, l) * Quotient(l, d) == 1.0
  {
    var w, v := Quotient(d, l), Quotient(l, d);
    assert w * l == d && v * d == l;
    assert (w * v) * l == v * (w * l);
    assert (w * v - 1.0) * l == 0.0;
  }

  lemma Multiple(w: real, v: real, x: real, y: real)
    requires w * v == 1.0
    ensures Less(y, w, x) == Times(-w, Less(x, v, y))
  {
    assert w * (v * y) == (w * v) * y;
  }

  function Eliminate(s: System, i: nat): (t: System)
    requires Shaped(s.a, |s.rhs|) && i + 1 < |s.rhs| && !Stuck(s.a, i)
    ensures Shaped(t.a, |t.rhs|) && |t.rhs| == |s.rhs|
  {
    System(EliminateMatrix(s.a, i), EliminateRhs(s.a, s.rhs, i))
  }

  lemma RowNormal(d: real, u: real, r: real, l: real, D: real, U: real, R: real, w: real, x0: real, x1: real)
    requires w * d == l
    ensures d * x0 + u * x1 == r && l * x0 + D * x1 + U == R
       <==> d * x0 + u * x1 == r && (D - w * u) * x1 + U == R - w * r
  {
    if d * x0 + u * x1 == r {
      assert w * (d * x0 + u * x1) == w * d * x0 + w * u * x1;
      assert (D - w * u) * x1 == D * x1 - w * u * x1;
    }
  }

  lemma RowPivot(d: real, u: real, r: real, l: real, D: real, U: real, R: real, w: real, fill: real, x0: real, x1: real,
                 before0: real, before1: real, after1: real)
    requires w * l == d && fill == -(w * U)
    requires before0 == d * x0 + u * x1 && before1 == l * x0 + D * x1 + U
    requires after1 == (u - w * D) * x1 + fill
    ensures before0 == r && before1 == R <==> before1 == R && after1 == r - w * R
  {
    assert w * before1 == w * l * x0 + w * D * x1 + w * U;
    assert (u - w * D) * x1 == u * x1 - w * D * x1;
  }

  lemma DivMul(x: real, y: real)
    requires y != 0.0
    ensures x / y * y == x
  {
  }

  /** An elimination step keeps the set of solutions, in both branches: the rows it
    * leaves are invertible combinations of the rows it found. */
  lemma EliminateKeepsSolutions(s: System, i: nat, x: Vec)
    requires Shaped(s.a, |s.rhs|) && i + 1 < |s.rhs| && !Stuck(s.a, i)
    ensures WorkSolves(s, x, i) <==> WorkSolves(Eliminate(s, i), x, i + 1)
  {
    if |x| != |s.rhs| { return; }
    var t := Eliminate(s, i);
    forall k | 0 <= k < |x| && k != i && k != i + 1
      ensures t.rhs[k] == s.rhs[k] && WorkRow(t.a, x, i + 1, k) == WorkRow(s.a, x, i, k)
    {
    }
    StepRows(s, i, x);
    assert WorkSolves(s, x, i) ==> WorkRow(s.a, x, i, i) == s.rhs[i] && WorkRow(s.a, x, i, i + 1) == s.rhs[i + 1];
    assert WorkSolves(t, x, i + 1) ==>
        WorkRow(t.a, x, i + 1, i) == t.rhs[i] && WorkRow(t.a, x, i + 1, i + 1) == t.rhs[i + 1];
  }

  lemma StepRows(s: System, i: nat, x: Vec)
    requires Shaped(s.a, |s.rhs|) && i + 1 < |s.rhs| && !Stuck(s.a, i) && |x| == |s.rhs|
    ensures var t := Eliminate(s, i);
            (WorkRow(s.a, x, i, i) == s.rhs[i] && WorkRow(s.a, x, i, i + 1) == s.rhs[i + 1])
            <==> (WorkRow(t.a, x, i + 1, i) == t.rhs[i] && WorkRow(t.a, x, i + 1, i + 1) == t.rhs[i + 1])
  {
    if Abs(s.a.diag[i]) >= Abs(s.a.lower[i + 1]) {
      StepRowsNormal(s, i, x);
    } else {
      StepRowsPivot(s, i, x);
    }
  }

  lemma StepRowsNormal(s: System, i: nat, x: Vec)
    requires Shaped(s.a, |s.rhs|) && i + 1 < |s.rhs| && !Stuck(s.a, i) && |x| == |s.rhs|
    requires Abs(s.a.diag[i]) >= Abs(s.a.lower[i + 1])
    ensures var t := Eliminate(s, i);
            (WorkRow(s.a, x, i, i) == s.rhs[i] && WorkRow(s.a, x, i, i + 1) == s.rhs[i + 1])
            <==> (WorkRow(t.a, x, i + 1, i) == t.rhs[i] && WorkRow(t.a, x, i + 1, i + 1) == t.rhs[i + 1])
  {
    var w := s.a.lower[i + 1] / s.a.diag[i];
    DivMul(s.a.lower[i + 1], s.a.diag[i]);
    NormalRows(s, Eliminate(s, i), i, x, w);
  }

  /** An ordinary elimination, given as the entries it stores. */
  lemma NormalRows(s: System, t: System, i: nat, x: Vec, w: real)
    requires Shaped(s.a, |s.rhs|) && i + 1 < |s.rhs| && |x| == |s.rhs|
    requires Shaped(t.a, |t.rhs|) && |t.rhs| == |s.rhs|
    requires w * s.a.diag[i] == s.a.lower[i + 1]
    requires t.a.diag[i] == s.a.diag[i] && t.a.upper == s.a.upper && t.a.lower[i + 1] == 0.0
    requires t.a.diag[i + 1] == s.a.diag[i + 1] - w * s.a.upper[i]
    requires t.rhs[i] == s.rhs[i] && t.rhs[i + 1] == s.rhs[i + 1] - w * s.rhs[i]
    ensures (WorkRow(s.a, x, i, i) == s.rhs[i] && WorkRow(s.a, x, i, i + 1) == s.rhs[i + 1])
       <==> (WorkRow(t.a, x, i + 1, i) == t.rhs[i] && WorkRow(t.a, x, i + 1, i + 1) == t.rhs[i + 1])
  {
    var Matrix(l, d, u) := s.a;
    var tail := if i + 2 == |x| then 0.0 else u[i + 1] * x[i + 2];
    RowNormal(d[i], u[i], s.rhs[i], l[i + 1], d[i + 1], tail, s.rhs[i + 1], w, x[i], x[i + 1]);
  }

  lemma StepRowsPivot(s: System, i: nat, x: Vec)
    requires Shaped(s.a, |s.rhs|) && i + 1 < |s.rhs| && !Stuck(s.a, i) && |x| == |s.rhs|
    requires Abs(s.a.diag[i]) < Abs(s.a.lower[i + 1])
    ensures var t := Eliminate(s, i);
            (WorkRow(s.a, x, i, i) == s.rhs[i] && WorkRow(s.a, x, i, i + 1) == s.rhs[i + 1])
            <==> (WorkRow(t.a, x, i + 1, i) == t.rhs[i] && WorkRow(t.a, x, i + 1, i + 1) == t.rhs[i + 1])
  {
    var w := s.a.diag[i] / s.a.lower[i + 1];
    DivMul(s.a.diag[i], s.a.lower[i + 1]);
    PivotRows(s, Eliminate(s, i), i, x, w);
  }

  /** A row interchange, given as the entries it stores: `t.a.upper[i + 1]` and
    * `t.a.lower[i + 1]` hold what the interchange moved one column to the right. */
  lemma PivotRows(s: System, t: System, i: nat, x: Vec, w: real)
    requires Shaped(s.a, |s.rhs|) && i + 1 < |s.rhs| && |x| == |s.rhs|
    requires Shaped(t.a, |t.rhs|) && |t.rhs| == |s.rhs|
    requires w * s.a.lower[i + 1] == s.a.diag[i]
    requires t.a.diag[i] == s.a.lower[i + 1] && t.a.upper[i] == s.a.diag[i + 1] && t.a.lower[i + 1] == s.a.upper[i + 1]
    requires t.a.diag[i + 1] == s.a.upper[i] - w * s.a.diag[i + 1] && t.a.upper[i + 1] == s.a.upper[i + 1] * -w
    requires t.rhs[i] == s.rhs[i + 1] && t.rhs[i + 1] == s.rhs[i] - w * s.rhs[i + 1]
    ensures (WorkRow(s.a, x, i, i) == s.rhs[i] && WorkRow(s.a, x, i, i + 1) == s.rhs[i + 1])
       <==> (WorkRow(t.a, x, i + 1, i) == t.rhs[i] && WorkRow(t.a, x, i + 1, i + 1) == t.rhs[i + 1])
  {
    var Matrix(l, d, u) := s.a;
    var tail := if i + 2 == |x| then 0.0 else u[i + 1] * x[i + 2];
    var fill := if i + 2 == |x| then 0.0 else u[i + 1] * -w * x[i + 2];
    if i + 2 < |x| { MulShuffle(u[i + 1], w, x[i + 2]); }
    RowPivot(d[i], u[i], s.rhs[i], l[i + 1], d[i + 1], tail, s.rhs[i + 1], w, fill, x[i], x[i + 1],
             WorkRow(s.a, x, i, i), WorkRow(s.a, x, i, i + 1), WorkRow(t.a, x, i + 1, i + 1));
  }

  lemma MulShuffle(a: real, w: real, x: real)
    ensures a * -w * x == -(w * (a * x))
  {
  }

  /** The step on a zero right-hand side is the same step, and leaves it zero. */
  lemma EliminateHomogeneous(s: System, i: nat)
    requires Shaped(s.a, |s.rhs|) && i + 1 < |s.rhs| && !Stuck(s.a, i)
    ensures Eliminate(System(s.a, Zeros(|s.rhs|)), i) == System(Eliminate(s, i).a, Zeros(|s.rhs|))
  {
    var z := Zeros(|s.rhs|);
    assert EliminateRhs(s.a, z, i) == z;
  }

  // ----- Solving the eliminated system

  /** Rows 0 .. i - 1 of a half-eliminated system can be satisfied from the bottom up,
    * whatever is chosen for the unknowns from i on. */
  lemma FillUp(a: Matrix, i: nat, k: nat, v: Vec) returns (x: Vec)
    requires Shaped(a, |v|) && k <= i < |v|
    requires forall j :: 0 <= j < i ==> a.diag[j] != 0.0
    requires forall j :: k <= j < |v| ==> WorkRow(a, v, i, j) == 0.0
    requires v[i] == 1.0
    ensures |x| == |v| && x[i] == 1.0
    ensures WorkSolves(System(a, Zeros(|v|)), x, i)
    decreases k
  {
    if k == 0 {
      x := v;
    } else {
      var rest := a.upper[k - 1] * v[k] + (if k + 1 < |v| then a.lower[k] * v[k + 1] else 0.0);
      var v' := v[k - 1 := -rest / a.diag[k - 1]];
      DivMul(-rest, a.diag[k - 1]);
      assert WorkRow(a, v', i, k - 1) == 0.0;
      forall j | k <= j < |v| ensures WorkRow(a, v', i, j) == 0.0 {
        assert WorkRow(a, v', i, j) == WorkRow(a, v, i, j);
      }
      x := FillUp(a, i, k - 1, v');
    }
  }

  /** Column i of a half-eliminated system has no usable divisor left. */
  predicate DeadColumn(a: Matrix, i: nat)
    requires Shaped(a, |a.diag|) && i < |a.diag|
  {
    a.diag[i] == 0.0 && (i + 1 < |a.diag| ==> a.lower[i + 1] == 0.0)
  }

  /** A dead column yields a nonzero vector that the matrix maps to zero. */
  lemma DeadColumnIsSingular(a: Matrix, i: nat) returns (x: Vec)
    requires Shaped(a, |a.diag|) && i < |a.diag| && DeadColumn(a, i)
    requires forall j :: 0 <= j < i ==> a.diag[j] != 0.0
    ensures |x| == |a.diag| && x[i] == 1.0 && WorkSolves(System(a, Zeros(|a.diag|)), x, i)
  {
    x := FillUp(a, i, i, Zeros(|a.diag|)[i := 1.0]);
  }

  /** With nonzero divisors the eliminated system has at most one solution. */
  lemma {:induction false} BackSubstitutionUnique(s: System, x: Vec, y: Vec, k: nat)
    requires Shaped(s.a, |s.rhs|)
    requires forall j :: 0 <= j < |s.rhs| ==> s.a.diag[j] != 0.0
    requires WorkSolves(s, x, |s.rhs| - 1) && WorkSolves(s, y, |s.rhs| - 1)
    requires k <= |s.rhs|
    ensures x[k..] == y[k..]
    decreases |s.rhs| - k
  {
    if k < |s.rhs| {
      BackSubstitutionUnique(s, x, y, k + 1);
      assert forall j :: k < j < |x| ==> x[j] == x[k + 1..][j - k - 1] && y[j] == y[k + 1..][j - k - 1];
      var i := |s.rhs| - 1;
      assert WorkRow(s.a, x, i, k) == s.rhs[k] == WorkRow(s.a, y, i, k);
      assert s.a.diag[k] * x[k] == s.a.diag[k] * y[k];
      Cancel(s.a.diag[k], x[k], y[k]);
    }
  }

  lemma Cancel(d: real, x: real, y: real)
    requires d != 0.0 && d * x == d * y
    ensures x == y
  {
    assert x == d * x / d && y == d * y / d;
  }

  // ----- What the elimination loop keeps

  /** After i columns: the solutions, and the null vectors, are those of the start,
    * and the divisors of the finished columns are not zero. */
  ghost predicate Reduced(start: System, cur: System, i: nat)
    requires Shaped(start.a, |start.rhs|) && Shaped(cur.a, |cur.rhs|) && i < |cur.rhs| == |start.rhs|
  {
    && (forall j :: 0 <= j < i ==> cur.a.diag[j] != 0.0)
    && (forall x :: Solves(start, x) <==> WorkSolves(cur, x, i))
    && (forall x :: Solves(Flat(start), x) <==> WorkSolves(Flat(cur), x, i))
  }

  /** The same equations with zeros on the right. */
  function Flat(s: System): System {
    System(s.a, Zeros(|s.rhs|))
  }

  lemma StartIsReduced(s: System)
    requires Shaped(s.a, |s.rhs|)
    ensures Reduced(s, s, 0)
  {
    hide Times;
    forall x ensures Solves(s, x) <==> WorkSolves(s, x, 0) {
      StartRows(s, x);
    }
    forall x ensures Solves(Flat(s), x) <==> WorkSolves(Flat(s), x, 0) {
      StartRows(Flat(s), x);
    }
  }

  lemma StartRows(s: System, x: Vec)
    requires Shaped(s.a, |s.rhs|)
    ensures Solves(s, x) <==> WorkSolves(s, x, 0)
  {
    hide Times;
    if |x| == |s.rhs| {
      assert forall k :: 0 <= k < |x| ==> WorkRow(s.a, x, 0, k) == Row(s.a, x, k);
    }
  }

  lemma StepIsReduced(start: System, cur: System, i: nat)
    requires Shaped(start.a, |start.rhs|) && Shaped(cur.a, |cur.rhs|) && i + 1 < |cur.rhs| == |start.rhs|
    requires Reduced(start, cur, i) && !Stuck(cur.a, i)
    ensures Reduced(start, Eliminate(cur, i), i + 1)
  {
    hide Solves, WorkSolves, Stuck, EliminateMatrix, EliminateRhs;
    var next := Eliminate(cur, i);
    forall x ensures Solves(start, x) <==> WorkSolves(next, x, i + 1) {
      EliminateKeepsSolutions(cur, i, x);
    }
    EliminateHomogeneous(cur, i);
    forall x ensures Solves(Flat(start), x) <==> WorkSolves(Flat(next), x, i + 1) {
      EliminateKeepsSolutions(Flat(cur), i, x);
    }
  }

  lemma StuckIsSingular(start: System, cur: System, i: nat)
    requires Shaped(start.a, |start.rhs|) && Shaped(cur.a, |cur.rhs|) && i < |cur.rhs| == |start.rhs|
    requires Reduced(start, cur, i) && DeadColumn(cur.a, i)
    ensures !Nonsingular(start.a)
  {
    hide Solves, WorkSolves;
    var x := DeadColumnIsSingular(cur.a, i);
    assert Solves(Flat(start), x);
  }

  lemma LastIsNonsingular(start: System, cur: System)
    requires Shaped(start.a, |start.rhs|) && Shaped(cur.a, |cur.rhs|) && 0 < |cur.rhs| == |start.rhs|
    requires Reduced(start, cur, |cur.rhs| - 1) && cur.a.diag[|cur.rhs| - 1] != 0.0
    ensures Nonsingular(start.a)
    ensures forall j :: 0 <= j < |cur.rhs| ==> cur.a.diag[j] != 0.0
  {
    hide Solves, WorkSolves;
    var zeros := Zeros(|start.rhs|);
    ZerosSolve(cur, |cur.rhs| - 1);
    forall x | Solves(Flat(start), x) ensures x == zeros {
      BackSubstitutionUnique(Flat(cur), x, zeros, 0);
    }
  }

  lemma ZerosSolve(s: System, i: nat)
    requires Shaped(s.a, |s.rhs|) && i < |s.rhs|
    ensures WorkSolves(Flat(s), Zeros(|s.rhs|), i)
  {
    hide Times;
    var z := Zeros(|s.rhs|);
    forall k | 0 <= k < |z| ensures WorkRow(s.a, z, i, k) == 0.0 {
      TimesZero(s.a.lower[k]);
      TimesZero(s.a.diag[k]);
      TimesZero(s.a.upper[k]);
      if k + 1 < |z| {
        TimesZero(s.a.lower[k + 1]);
      }
    }
  }

  lemma TimesZero(c: real)
    ensures Times(c, 0.0) == 0.0
  {
  }

  lemma LastIsUnique(start: System, cur: System, y: Vec)
    requires Shaped(start.a, |start.rhs|) && Shaped(cur.a, |cur.rhs|) && 0 < |cur.rhs| == |start.rhs|
    requires Reduced(start, cur, |cur.rhs| - 1) && cur.a.diag[|cur.rhs| - 1] != 0.0
    requires WorkSolves(cur, y, |cur.rhs| - 1)
    ensures Solves(start, y) && forall x :: Solves(start, x) ==> x == y
  {
    hide Solves, WorkSolves;
    forall x | Solves(start, x) ensures x == y {
      BackSubstitutionUnique(cur, x, y, 0);
    }
  }

  // ----- The solver

  /** Solves in place; the answer is left in `rhs`. `finite` is false when a divisor was zero. */
  method Solve(lower: array<real>, diag: array<real>, upper: array<real>, rhs: array<real>) returns (finite: bool)
    requires Shaped(Matrix(lower[..], diag[..], upper[..]), rhs.Length)
    requires lower != diag && lower != upper && lower != rhs && diag != upper && diag != rhs && upper != rhs
    modifies lower, diag, upper, rhs
    ensures var a := old(Matrix(lower[..], diag[..], upper[..]));
            && (finite <==> Nonsingular(a))
            && (finite ==> Solves(System(a, old(rhs[..])), rhs[..]))
            && (finite ==> forall x :: Solves(System(a, old(rhs[..])), x) ==> x == rhs[..])
  {
    hide Reduced, Eliminate, Nonsingular, Solves, WorkSolves;
    var dim := rhs.Length;
    ghost var start := System(Matrix(lower[..], diag[..], upper[..]), rhs[..]);
    ghost var cur := start;
    var i := 0;
    StartIsReduced(start);
    while i < dim - 1
      invariant 0 <= i <= dim - 1
      invariant Shaped(cur.a, dim) && |cur.rhs| == dim
      invariant cur == System(Matrix(lower[..], diag[..], upper[..]), rhs[..])
      invariant Reduced(start, cur, i)
    {
      if diag[i] == 0.0 && lower[i + 1] == 0.0 {
        StuckIsSingular(start, cur, i);
        return false;
      }
      StepIsReduced(start, cur, i);
      EliminateColumn(i, lower, diag, upper, rhs);
      cur := Eliminate(cur, i);
      i := i + 1;
    }
    if diag[dim - 1] == 0.0 {
      StuckIsSingular(start, cur, dim - 1);
      return false;
    }
    LastIsNonsingular(start, cur);
    BackSubstitute(cur, lower, diag, upper, rhs);
    LastIsUnique(start, cur, rhs[..]);
    return true;
  }

  /** The body of the elimination loop. */
  method EliminateColumn(i: nat, lower: array<real>, diag: array<real>, upper: array<real>, rhs: array<real>)
    requires Shaped(Matrix(lower[..], diag[..], upper[..]), rhs.Length) && i + 1 < rhs.Length
    requires lower != diag && lower != upper && lower != rhs && diag != upper && diag != rhs && upper != rhs
    requires !Stuck(Matrix(lower[..], diag[..], upper[..]), i)
    modifies lower, diag, upper, rhs
    ensures System(Matrix(lower[..], diag[..], upper[..]), rhs[..])
         == Eliminate(old(System(Matrix(lower[..], diag[..], upper[..]), rhs[..])), i)
  {
    ghost var t := Eliminate(System(Matrix(lower[..], diag[..], upper[..]), rhs[..]), i);
    if Abs(diag[i]) >= Abs(lower[i + 1]) {
      var w := Quotient(lower[i + 1], diag[i]);
      diag[i + 1] := Less(diag[i + 1], w, upper[i]);
      rhs[i + 1] := Less(rhs[i + 1], w, rhs[i]);
      lower[i + 1] := 0.0;
    } else {
      var w := Quotient(diag[i], lower[i + 1]);
      var u := diag[i + 1];
      diag[i] := lower[i + 1];
      diag[i + 1] := Less(upper[i], w, u);
      lower[i + 1] := upper[i + 1];
      upper[i + 1] := Times(upper[i + 1], -w);
      upper[i] := u;
      var r := rhs[i];
      rhs[i] := rhs[i + 1];
      rhs[i + 1] := Less(r, w, rhs[i + 1]);
    }
    assert lower[..] == t.a.lower && diag[..] == t.a.diag && upper[..] == t.a.upper && rhs[..] == t.rhs;
  }

  /** The back-substitution loop. */
  method BackSubstitute(ghost s: System, lower: array<real>, diag: array<real>, upper: array<real>, rhs: array<real>)
    requires Shaped(s.a, |s.rhs|) && s == System(Matrix(lower[..], diag[..], upper[..]), rhs[..])
    requires lower != rhs && diag != rhs && upper != rhs
    requires forall j :: 0 <= j < |s.rhs| ==> s.a.diag[j] != 0.0
    modifies rhs
    ensures WorkSolves(s, rhs[..], |s.rhs| - 1)
  {
    var dim := rhs.Length;
    ghost var last := dim - 1;
    DivMul(rhs[dim - 1], diag[dim - 1]);
    rhs[dim - 1] := rhs[dim - 1] / diag[dim - 1];
    var iRev := 2;
    while iRev <= dim
      invariant 2 <= iRev && iRev - 2 < dim
      invariant rhs[..dim - iRev + 1] == s.rhs[..dim - iRev + 1]
      invariant SolvedFrom(s, rhs[..], dim - iRev + 1)
    {
      var i := dim - iRev;
      ghost var before := rhs[..];
      assert before[i] == s.rhs[i] by { assert before[i] == rhs[..i + 1][i]; }
      if i == dim - 2 {
        rhs[i] := rhs[i] - Times(upper[i], rhs[i + 1]);
      } else {
        rhs[i] := rhs[i] - (Times(upper[i], rhs[i + 1]) + Times(lower[i + 1], rhs[i + 2]));
      }
      ghost var known := rhs[i];
      rhs[i] := Quotient(rhs[i], diag[i]);
      assert rhs[..] == before[i := Quotient(known, s.a.diag[i])];
      BackStep(s, before, i, known, rhs[..]);
      iRev := iRev + 1;
    }
  }

  /** Rows k and below of an eliminated system are solved by x. */
  ghost predicate SolvedFrom(s: System, x: Vec, k: nat)
    requires Shaped(s.a, |s.rhs|) && |x| == |s.rhs|
  {
    var last := |x| - 1;
    forall j :: k <= j < |x| ==> WorkRow(s.a, x, last, j) == s.rhs[j]
  }

  /** One back-substitution: dividing what is left of row i by its diagonal solves row i
    * and leaves the rows below it solved. */
  lemma BackStep(s: System, before: Vec, i: nat, known: real, after: Vec)
    requires Shaped(s.a, |s.rhs|) && |before| == |s.rhs| && i + 1 < |s.rhs| && s.a.diag[i] != 0.0
    requires before[i] == s.rhs[i] && SolvedFrom(s, before, i + 1)
    requires known == before[i] - (Times(s.a.upper[i], before[i + 1])
                                   + (if i + 2 < |s.rhs| then Times(s.a.lower[i + 1], before[i + 2]) else 0.0))
    requires after == before[i := Quotient(known, s.a.diag[i])]
    ensures SolvedFrom(s, after, i)
  {
    DivMul(known, s.a.diag[i]);
    var last := |after| - 1;
    assert WorkRow(s.a, after, last, i) == s.rhs[i];
    forall j | i < j < |after| ensures WorkRow(s.a, after, last, j) == s.rhs[j] {
      assert WorkRow(s.a, after, last, j) == WorkRow(s.a, before, last, j);
    }
  }

  // ----- A condition under which the solver always finishes

  /** Every diagonal entry outweighs its row. */
  predicate Dominant(a: Matrix)
    requires Shaped(a, |a.diag|)
  {
    forall i :: 0 <= i < |a.diag| ==>
      Abs(a.diag[i]) > (if i > 0 then Abs(a.lower[i]) else 0.0) + (if i + 1 < |a.diag| then Abs(a.upper[i]) else 0.0)
  }

  lemma PeakIndex(x: Vec) returns (k: nat)
    requires |x| > 0
    ensures k < |x| && forall i :: 0 <= i < |x| ==> Abs(x[i]) <= Abs(x[k])
  {
    k := 0;
    for i := 1 to |x|
      invariant k < |x| && forall j :: 0 <= j < i ==> Abs(x[j]) <= Abs(x[k])
    {
      if Abs(x[i]) > Abs(x[k]) { k := i; }
    }
  }

  lemma AbsTimes(a: real, x: real, bound: real)
    requires Abs(x) <= bound
    ensures Abs(Times(a, x)) <= Times(Abs(a), bound)
    ensures Abs(x) == bound ==> Abs(Times(a, x)) == Times(Abs(a), bound)
  {
    assert Abs(a * x) == Abs(a) * Abs(x);
    assert Abs(a) * (bound - Abs(x)) >= 0.0;
  }

  /** A strictly dominant matrix is nonsingular: look at a null vector's largest entry. */
  lemma DominantIsNonsingular(a: Matrix)
    requires Shaped(a, |a.diag|) && Dominant(a)
    ensures Nonsingular(a)
  {
    var n := |a.diag|;
    forall x | Solves(System(a, Zeros(n)), x) ensures x == Zeros(n) {
      var k := PeakIndex(x);
      PeakIsZero(a, x, k);
      assert forall i :: 0 <= i < n ==> x[i] == 0.0;
    }
  }

  lemma PeakIsZero(a: Matrix, x: Vec, k: nat)
    requires Shaped(a, |x|) && Dominant(a) && k < |x|
    requires forall i :: 0 <= i < |x| ==> Abs(x[i]) <= Abs(x[k])
    requires Row(a, x, k) == 0.0
    ensures x[k] == 0.0
  {
    var l, p := 0.0, 0.0;
    if k > 0 { l, p := a.lower[k], x[k - 1]; }
    var u, q := 0.0, 0.0;
    if k + 1 < |x| { u, q := a.upper[k], x[k + 1]; }
    Outweighed(l, a.diag[k], u, p, x[k], q);
  }

  lemma Outweighed(l: real, d: real, u: real, p: real, x: real, q: real)
    requires Abs(d) > Abs(l) + Abs(u)
    requires Abs(p) <= Abs(x) && Abs(q) <= Abs(x)
    requires Times(l, p) + Times(d, x) + Times(u, q) == 0.0
    ensures x == 0.0
  {
    AbsTimes(l, p, Abs(x));
    AbsTimes(u, q, Abs(x));
    AbsTimes(d, x, Abs(x));
    WeighedDown(Abs(l), Abs(d), Abs(u), Abs(x));
  }

  lemma WeighedDown(l: real, d: real, u: real, m: real)
    requires m >= 0.0 && d > l + u
    ensures m > 0.0 ==> Times(d, m) > Times(l, m) + Times(u, m)
  {
    var gap := d - l - u;
    Distribute(gap, l, u, m);
    assert m > 0.0 ==> Times(gap, m) > 0.0;
  }

  lemma Distribute(a: real, b: real, c: real, m: real)
    ensures Times(a + b + c, m) == Times(a, m) + Times(b, m) + Times(c, m)
  {
  }
}
