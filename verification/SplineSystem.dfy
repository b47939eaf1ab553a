/** The tridiagonal system whose solution holds a cubic spline's second derivatives at its knots,
  * and when that system determines its solution. Doubles are exact reals. */
module SplineSystem {
  import opened Arithmetic
  import opened Tridiagonal

  datatype Boundary = Natural | NotAKnot

  predicate Increasing(knots: Vec) {
    forall i, j :: 0 <= i < j < |knots| ==> knots[i] < knots[j]
  }

  predicate Usable(knots: Vec, values: Vec) {
    |knots| == |values| >= 2 && Increasing(knots)
  }

  // ----- The equations

  function Intervals(knots: Vec): (h: Vec)
    requires |knots| >= 1
    ensures |h| == |knots| - 1
  {
    seq(|knots| - 1, i requires 0 <= i < |knots| - 1 => knots[i + 1] - knots[i])
  }

  function Slopes(knots: Vec, values: Vec): (s: Vec)
    requires Usable(knots, values)
    ensures |s| == |knots| - 1
  {
    seq(|knots| - 1, i requires 0 <= i < |knots| - 1 => Quotient(values[i + 1] - values[i], knots[i + 1] - knots[i]))
  }

  /** The boundary condition in force: with one segment there is only one sensible choice. */
  function Effective(bc: Boundary, segments: nat): Boundary {
    if segments == 1 then Natural else bc
  }

  /** Right-hand side of a not-a-knot row: c * h0 / (h0 + h1) * d. */
  function EdgeTerm(c: real, h0: real, h1: real, d: real): real
    requires h0 + h1 != 0.0
  {
    Times(Quotient(c * h0, h0 + h1), d)
  }

  function FirstRow(h: Vec, s: Vec, bc: Boundary): (real, real, real)
    requires |h| == |s| >= 1 && (forall i :: 0 <= i < |h| ==> h[i] > 0.0) && (bc == NotAKnot ==> |h| >= 2)
  {
    if bc == Natural then (1.0, 0.0, 0.0)
    else (h[0] - h[1], 2.0 * h[0] + h[1], EdgeTerm(-6.0, h[0], h[1], s[0] - s[1]))
  }

  function LastRow(h: Vec, s: Vec, bc: Boundary): (real, real, real)
    requires |h| == |s| >= 1 && (forall i :: 0 <= i < |h| ==> h[i] > 0.0) && (bc == NotAKnot ==> |h| >= 2)
  {
    var n := |h|;
    if bc == Natural then (0.0, 1.0, 0.0)
    else (2.0 * h[n - 1] + h[n - 2], h[n - 1] - h[n - 2],
          EdgeTerm(6.0, h[n - 1], h[n - 2], s[n - 1] - s[n - 2]))
  }

  /** The tridiagonal system for the second derivatives at the knots. */
  function Equations(h: Vec, s: Vec, bc: Boundary): (e: System)
    requires |h| == |s| >= 1 && (forall i :: 0 <= i < |h| ==> h[i] > 0.0) && (bc == NotAKnot ==> |h| >= 2)
    ensures Shaped(e.a, |h| + 1) && |e.rhs| == |h| + 1
  {
    var n := |h|;
    var (d0, u0, y0) := FirstRow(h, s, bc);
    var (ln, dn, yn) := LastRow(h, s, bc);
    System(
      Matrix(
        seq(n + 1, i requires 0 <= i <= n => if i == 0 then 0.0 else if i == n then ln else h[i - 1]),
        seq(n + 1, i requires 0 <= i <= n => if i == 0 then d0 else if i == n then dn else 2.0 * (h[i - 1] + h[i])),
        seq(n + 1, i requires 0 <= i <= n => if i == 0 then u0 else if i == n then 0.0 else h[i])),
      seq(n + 1, i requires 0 <= i <= n => if i == 0 then y0 else if i == n then yn else 6.0 * (s[i] - s[i - 1])))
  }

  lemma EquationsInside(h: Vec, s: Vec, bc: Boundary)
    requires |h| == |s| >= 1 && (forall i :: 0 <= i < |h| ==> h[i] > 0.0) && (bc == NotAKnot ==> |h| >= 2)
    ensures var e := Equations(h, s, bc);
            forall i :: 0 < i < |h| ==>
              e.a.lower[i] == h[i - 1] && e.a.diag[i] == 2.0 * (h[i - 1] + h[i]) && e.a.upper[i] == h[i]
              && e.rhs[i] == 6.0 * (s[i] - s[i - 1])
  {
    hide Times, Quotient;
  }

  lemma EquationsAtEnds(h: Vec, s: Vec, bc: Boundary)
    requires |h| == |s| >= 1 && (forall i :: 0 <= i < |h| ==> h[i] > 0.0) && (bc == NotAKnot ==> |h| >= 2)
    ensures var (e, n) := (Equations(h, s, bc), |h|);
            && e.a.lower[0] == 0.0 && e.a.upper[n] == 0.0
            && (e.a.diag[0], e.a.upper[0], e.rhs[0]) == FirstRow(h, s, bc)
            && (e.a.lower[n], e.a.diag[n], e.rhs[n]) == LastRow(h, s, bc)
  {
    hide Times, Quotient;
  }

  lemma IntervalsPositive(knots: Vec)
    requires |knots| >= 1 && Increasing(knots)
    ensures forall i :: 0 <= i < |knots| - 1 ==> Intervals(knots)[i] > 0.0
  {
  }

  /** The system a usable set of knots gives rise to. */
  function SplineEquations(knots: Vec, values: Vec, bc: Boundary): (e: System)
    requires Usable(knots, values)
    ensures Shaped(e.a, |knots|) && |e.rhs| == |knots|
  {
    IntervalsPositive(knots);
    Equations(Intervals(knots), Slopes(knots, values), Effective(bc, |knots| - 1))
  }

  /** With natural boundaries the solver never meets a zero divisor. */
  lemma NaturalIsNonsingular(knots: Vec, values: Vec)
    requires Usable(knots, values)
    ensures Nonsingular(SplineEquations(knots, values, Natural).a)
  {
    IntervalsPositive(knots);
    DominantIsNonsingular(SplineEquations(knots, values, Natural).a);
  }

  /** The rows are interchanged at the first column exactly when the first interval is longer than one. */
  lemma FirstPivotIff(knots: Vec, values: Vec)
    requires Usable(knots, values) && |knots| >= 3
    ensures var a := SplineEquations(knots, values, Natural).a;
            Abs(a.diag[0]) < Abs(a.lower[1]) <==> knots[1] - knots[0] > 1.0
  {
    IntervalsPositive(knots);
    EquationsInside(Intervals(knots), Slopes(knots, values), Natural);
    EquationsAtEnds(Intervals(knots), Slopes(knots, values), Natural);
  }

  // ----- Rows of the equations

  /** The equation at a knot between segments of lengths h0 and h1 whose slopes differ by d. */
  ghost predicate KnotRow(h0: real, h1: real, a: real, b: real, c: real, d: real) {
    Times(h0, a) + Times(2.0 * (h0 + h1), b) + Times(h1, c) == 6.0 * d
  }

  /** The not-a-knot equation for the segment of length h0 at the edge. */
  ghost predicate EdgeRow(h0: real, h1: real, a: real, b: real, d: real)
    requires h0 + h1 != 0.0
  {
    Times(h0 - h1, a) + Times(2.0 * h0 + h1, b) == EdgeTerm(6.0, h0, h1, d)
  }

  /** The equation at interior knot i, written out. */
  lemma InteriorRow(knots: Vec, values: Vec, bc: Boundary, m: Vec, i: nat)
    requires Usable(knots, values) && Solves(SplineEquations(knots, values, bc), m) && 0 < i < |knots| - 1
    ensures var (h, s) := (Intervals(knots), Slopes(knots, values));
            KnotRow(h[i - 1], h[i], m[i - 1], m[i], m[i + 1], s[i] - s[i - 1])
  {
    hide Times, Quotient, SplineEquations, Equations, Intervals, Slopes, Increasing;
    var e := SplineEquations(knots, values, bc);
    InteriorCoefficients(knots, values, bc, i);
    assert Row(e.a, m, i) == e.rhs[i];
  }

  lemma InteriorCoefficients(knots: Vec, values: Vec, bc: Boundary, i: nat)
    requires Usable(knots, values) && 0 < i < |knots| - 1
    ensures var e := SplineEquations(knots, values, bc);
            var (h, s) := (Intervals(knots), Slopes(knots, values));
            && e.a.lower[i] == h[i - 1] && e.a.diag[i] == 2.0 * (h[i - 1] + h[i]) && e.a.upper[i] == h[i]
            && e.rhs[i] == 6.0 * (s[i] - s[i - 1])
  {
    hide Times, Quotient;
    IntervalsPositive(knots);
    EquationsInside(Intervals(knots), Slopes(knots, values), Effective(bc, |knots| - 1));
  }

  lemma NaturalRows(knots: Vec, values: Vec, bc: Boundary, m: Vec)
    requires Usable(knots, values) && Solves(SplineEquations(knots, values, bc), m)
    requires Effective(bc, |knots| - 1) == Natural
    ensures m[0] == 0.0 && m[|knots| - 1] == 0.0
  {
    IntervalsPositive(knots);
    var e := SplineEquations(knots, values, bc);
    assert Row(e.a, m, 0) == e.rhs[0];
    assert Row(e.a, m, |knots| - 1) == e.rhs[|knots| - 1];
  }

  lemma FirstEdgeRow(knots: Vec, values: Vec, bc: Boundary, m: Vec, i: nat)
    requires Usable(knots, values) && Solves(SplineEquations(knots, values, bc), m)
    requires Effective(bc, |knots| - 1) == NotAKnot && i == 1
    ensures var (h, s) := (Intervals(knots), Slopes(knots, values));
            h[i - 1] > 0.0 && h[i] > 0.0 && EdgeRow(h[i - 1], h[i], m[i - 1], m[i], s[i] - s[i - 1])
  {
    hide Times, Quotient;
    IntervalsPositive(knots);
    var (h, s) := (Intervals(knots), Slopes(knots, values));
    var e := SplineEquations(knots, values, bc);
    FlipSign(h[0], h[1], s[0] - s[1]);
    assert e.a.diag[0] == h[0] - h[1] && e.a.upper[0] == 2.0 * h[0] + h[1];
    assert Row(e.a, m, 0) == e.rhs[0];
  }

  lemma LastEdgeRow(knots: Vec, values: Vec, bc: Boundary, m: Vec, i: nat)
    requires Usable(knots, values) && Solves(SplineEquations(knots, values, bc), m)
    requires Effective(bc, |knots| - 1) == NotAKnot && i == |knots| - 2
    ensures var (h, s) := (Intervals(knots), Slopes(knots, values));
            h[i] > 0.0 && h[i - 1] > 0.0 && EdgeRow(h[i], h[i - 1], m[i + 1], m[i], s[i] - s[i - 1])
  {
    hide Times, Quotient;
    IntervalsPositive(knots);
    var (h, s) := (Intervals(knots), Slopes(knots, values));
    var e := SplineEquations(knots, values, bc);
    assert e.a.lower[i + 1] == 2.0 * h[i] + h[i - 1] && e.a.diag[i + 1] == h[i] - h[i - 1];
    assert e.rhs[i + 1] == EdgeTerm(6.0, h[i], h[i - 1], s[i] - s[i - 1]);
    assert Row(e.a, m, i + 1) == e.rhs[i + 1];
  }

  lemma FlipSign(h0: real, h1: real, d: real)
    requires h0 + h1 != 0.0
    ensures EdgeTerm(-6.0, h0, h1, d) == EdgeTerm(6.0, h0, h1, -d)
  {
  }

  /** The not-a-knot row, with the row next to it, makes the third derivative continuous. */
  lemma NotAKnotAlgebra(h0: real, h1: real, a: real, b: real, c: real, d: real, q: real)
    requires h0 > 0.0 && h1 > 0.0 && q * (h0 + h1) == 6.0 * h0
    requires Times(h0 - h1, a) + Times(2.0 * h0 + h1, b) == q * d
    requires KnotRow(h0, h1, a, b, c, d)
    ensures h1 * (b - a) == h0 * (c - b)
  {
    var x, y := h0 * a + 2.0 * (h0 + h1) * b + h1 * c, (h0 - h1) * a + (2.0 * h0 + h1) * b;
    assert (h0 + h1) * y == h0 * x by {
      assert (h0 + h1) * (q * d) == q * (h0 + h1) * d;
    }
    assert (h0 + h1) * y - h0 * x == h1 * (h1 * (b - a) - h0 * (c - b));
    Cancel(h1, h1 * (b - a) - h0 * (c - b), 0.0);
  }

  // ----- Which not-a-knot equations determine their solution

  /** Three knots never determine a not-a-knot spline: the solver always meets a zero divisor. */
  lemma ThreeKnotsAreSingular(knots: Vec, values: Vec)
    requires Usable(knots, values) && |knots| == 3
    ensures !Nonsingular(SplineEquations(knots, values, NotAKnot).a)
  {
    IntervalsPositive(knots);
    var h := Intervals(knots);
    var a := SplineEquations(knots, values, NotAKnot).a;
    var x := [-2.0 * h[0] - h[1], h[0] - h[1], h[0] + 2.0 * h[1]];
    NullAlgebra(h[0], h[1]);
    EquationsInside(h, Slopes(knots, values), NotAKnot);
    EquationsAtEnds(h, Slopes(knots, values), NotAKnot);
    hide Times;
    var zero := System(a, Zeros(3));
    assert Row(a, x, 0) == 0.0 && Row(a, x, 1) == 0.0 && Row(a, x, 2) == 0.0;
    assert Solves(zero, x);
    assert x != Zeros(3) by { assert Zeros(3)[0] == 0.0; }
  }

  lemma NullAlgebra(h0: real, h1: real)
    ensures Times(h0 - h1, -2.0 * h0 - h1) + Times(2.0 * h0 + h1, h0 - h1) == 0.0
    ensures Times(h0, -2.0 * h0 - h1) + Times(2.0 * (h0 + h1), h0 - h1) + Times(h1, h0 + 2.0 * h1) == 0.0
    ensures Times(2.0 * h1 + h0, h0 - h1) + Times(h1 - h0, h0 + 2.0 * h1) == 0.0
  {
  }

  /** With zero values the equations are those for any values, with zeros on the right. */
  lemma ZeroValues(knots: Vec, values: Vec, bc: Boundary)
    requires Usable(knots, values)
    ensures Usable(knots, Zeros(|knots|))
    ensures SplineEquations(knots, Zeros(|knots|), bc) == System(SplineEquations(knots, values, bc).a, Zeros(|knots|))
    ensures Slopes(knots, Zeros(|knots|)) == Zeros(|knots| - 1)
  {
    var n := |knots| - 1;
    var (h, s, z) := (Intervals(knots), Slopes(knots, values), Zeros(n));
    FlatSlopes(knots);
    IntervalsPositive(knots);
    hide Times, Quotient;
    if Effective(bc, n) == NotAKnot {
      FlatEdge(-6.0, h[0], h[1]);
      FlatEdge(6.0, h[n - 1], h[n - 2]);
    }
    FlatRightSide(h, Effective(bc, n));
    SameMatrix(h, s, z, Effective(bc, n));
  }

  lemma ZeroQuotient(d: real)
    requires d != 0.0
    ensures Quotient(0.0, d) == 0.0
  {
  }

  lemma FlatSlopes(knots: Vec)
    requires Usable(knots, Zeros(|knots|))
    ensures Slopes(knots, Zeros(|knots|)) == Zeros(|knots| - 1)
  {
    hide Quotient;
    var flat := Zeros(|knots|);
    forall i | 0 <= i < |knots| - 1 ensures Slopes(knots, flat)[i] == 0.0 {
      FlatSlopeAt(knots, flat, i);
    }
  }

  lemma FlatSlopeAt(knots: Vec, flat: Vec, i: nat)
    requires Usable(knots, flat) && i < |knots| - 1
    requires flat[i] == 0.0 && flat[i + 1] == 0.0
    ensures Slopes(knots, flat)[i] == 0.0
  {
    hide Quotient;
    ZeroQuotient(knots[i + 1] - knots[i]);
    assert flat[i + 1] - flat[i] == 0.0;
  }

  lemma FlatEdge(c: real, h0: real, h1: real)
    requires h0 + h1 != 0.0
    ensures EdgeTerm(c, h0, h1, 0.0) == 0.0
  {
    hide Quotient;
  }

  lemma FlatRightSide(h: Vec, bc: Boundary)
    requires |h| >= 1 && (forall i :: 0 <= i < |h| ==> h[i] > 0.0) && (bc == NotAKnot ==> |h| >= 2)
    requires bc == NotAKnot ==> EdgeTerm(-6.0, h[0], h[1], 0.0) == 0.0
    requires bc == NotAKnot ==> EdgeTerm(6.0, h[|h| - 1], h[|h| - 2], 0.0) == 0.0
    ensures Equations(h, Zeros(|h|), bc).rhs == Zeros(|h| + 1)
  {
    hide EdgeTerm, Times, Quotient;
  }

  lemma SameMatrix(h: Vec, s: Vec, z: Vec, bc: Boundary)
    requires |h| == |s| == |z| >= 1 && (forall i :: 0 <= i < |h| ==> h[i] > 0.0) && (bc == NotAKnot ==> |h| >= 2)
    ensures Equations(h, s, bc).a == Equations(h, z, bc).a
  {
    hide EdgeTerm, Times, Quotient;
  }

  /** Eliminating the end unknown of a flat not-a-knot row leaves a row in the next two. */
  lemma EdgeReduces(h0: real, h1: real, a: real, b: real, c: real)
    requires h0 > 0.0 && h1 > 0.0 && EdgeRow(h0, h1, a, b, 0.0) && KnotRow(h0, h1, a, b, c, 0.0)
    ensures h1 * (b - a) == h0 * (c - b)
    ensures Times(h0 + 2.0 * h1, b) + Times(h1 - h0, c) == 0.0
  {
    DivMul(6.0 * h0, h0 + h1);
    NotAKnotAlgebra(h0, h1, a, b, c, 0.0, Quotient(6.0 * h0, h0 + h1));
    ReducedRow(h0, h1, a, b, c);
  }

  lemma ReducedRow(h0: real, h1: real, a: real, b: real, c: real)
    requires h0 > 0.0 && h1 > 0.0 && h1 * (b - a) == h0 * (c - b)
    requires h0 * a + 2.0 * (h0 + h1) * b + h1 * c == 0.0
    ensures Times(h0 + 2.0 * h1, b) + Times(h1 - h0, c) == 0.0
  {
    var r := (h0 + 2.0 * h1) * b + (h1 - h0) * c;
    assert h1 * (h0 * a + 2.0 * (h0 + h1) * b + h1 * c) + h0 * (h1 * (b - a) - h0 * (c - b)) == (h0 + h1) * r;
    assert (h0 + h1) * r == 0.0;
    Cancel(h0 + h1, r, 0.0);
  }

  /** A row of the flat not-a-knot equations with the two end unknowns eliminated. */
  function InnerLower(h: Vec, i: nat): real
    requires |h| >= 3 && i < |h| - 1
  {
    if i == 0 then 0.0 else if i == |h| - 2 then h[i] - h[i + 1] else h[i]
  }

  function InnerDiag(h: Vec, i: nat): real
    requires |h| >= 3 && i < |h| - 1
  {
    if i == 0 then h[0] + 2.0 * h[1]
    else if i == |h| - 2 then h[i + 1] + 2.0 * h[i]
    else 2.0 * (h[i] + h[i + 1])
  }

  function InnerUpper(h: Vec, i: nat): real
    requires |h| >= 3 && i < |h| - 1
  {
    if i == 0 then h[1] - h[0] else if i == |h| - 2 then 0.0 else h[i + 1]
  }

  function Inner(h: Vec): (a: Matrix)
    requires |h| >= 3
    ensures Shaped(a, |h| - 1) && |a.diag| == |h| - 1
  {
    Matrix(seq(|h| - 1, i requires 0 <= i < |h| - 1 => InnerLower(h, i)),
           seq(|h| - 1, i requires 0 <= i < |h| - 1 => InnerDiag(h, i)),
           seq(|h| - 1, i requires 0 <= i < |h| - 1 => InnerUpper(h, i)))
  }

  lemma InnerIsDominant(h: Vec)
    requires |h| >= 3 && forall i :: 0 <= i < |h| ==> h[i] > 0.0
    ensures Dominant(Inner(h))
  {
  }

  /** A null vector's interior part solves the reduced equations. */
  lemma InteriorIsNull(knots: Vec, m: Vec)
    requires Usable(knots, Zeros(|knots|)) && |knots| >= 4
    requires Solves(SplineEquations(knots, Zeros(|knots|), NotAKnot), m)
    ensures |m| == |knots|
    ensures Solves(System(Inner(Intervals(knots)), Zeros(|knots| - 2)), m[1..|knots| - 1])
  {
    hide Times, Quotient, SplineEquations, Inner, Row;
    assert |m| == |knots|;
    var x := m[1..|knots| - 1];
    forall i | 0 <= i < |x| ensures Row(Inner(Intervals(knots)), x, i) == 0.0 {
      InteriorRowIsNull(knots, m, i);
    }
  }

  lemma InnerRow(h: Vec, x: Vec, i: nat)
    requires |h| >= 3 && |x| == |h| - 1 && i < |x|
    ensures Row(Inner(h), x, i) == (if i > 0 then Times(InnerLower(h, i), x[i - 1]) else 0.0)
                                   + Times(InnerDiag(h, i), x[i])
                                   + (if i + 1 < |x| then Times(InnerUpper(h, i), x[i + 1]) else 0.0)
  {
    hide Times, InnerLower, InnerDiag, InnerUpper;
  }

  lemma InteriorRowIsNull(knots: Vec, m: Vec, i: nat)
    requires Usable(knots, Zeros(|knots|)) && |knots| >= 4 && i < |knots| - 2
    requires Solves(SplineEquations(knots, Zeros(|knots|), NotAKnot), m) && |m| == |knots|
    ensures Row(Inner(Intervals(knots)), m[1..|knots| - 1], i) == 0.0
  {
    hide Times, Quotient, SplineEquations, Solves, Inner, Row, Intervals;
    var (h, x) := (Intervals(knots), m[1..|knots| - 1]);
    InnerRow(h, x, i);
    if i == 0 {
      FirstReduced(knots, m);
    } else if i == |knots| - 3 {
      LastReduced(knots, m, |knots| - 1);
    } else {
      MiddleKept(knots, m, i);
    }
  }

  lemma FirstReduced(knots: Vec, m: Vec)
    requires Usable(knots, Zeros(|knots|)) && |knots| >= 4
    requires Solves(SplineEquations(knots, Zeros(|knots|), NotAKnot), m) && |m| == |knots|
    ensures var h := Intervals(knots);
            h[1] > 0.0 && h[1] * (m[1] - m[0]) == h[0] * (m[2] - m[1])
            && Times(h[0] + 2.0 * h[1], m[1]) + Times(h[1] - h[0], m[2]) == 0.0
  {
    hide Times, Quotient, SplineEquations, EdgeRow, KnotRow, Solves, Intervals, Slopes;
    var z, h := Zeros(|knots|), Intervals(knots);
    FlatSlopes(knots);
    InteriorRow(knots, z, NotAKnot, m, 1);
    FirstEdgeRow(knots, z, NotAKnot, m, 1);
    EdgeReduces(h[0], h[1], m[0], m[1], m[2]);
  }

  lemma LastReduced(knots: Vec, m: Vec, n: nat)
    requires Usable(knots, Zeros(|knots|)) && |knots| >= 4 && n == |knots| - 1
    requires Solves(SplineEquations(knots, Zeros(|knots|), NotAKnot), m) && |m| == |knots|
    ensures var h := Intervals(knots);
            h[n - 2] > 0.0 && h[n - 2] * (m[n - 1] - m[n]) == h[n - 1] * (m[n - 2] - m[n - 1])
            && Times(h[n - 1] + 2.0 * h[n - 2], m[n - 1]) + Times(h[n - 2] - h[n - 1], m[n - 2]) == 0.0
  {
    hide Times, Quotient, SplineEquations, EdgeRow, KnotRow, Solves, Intervals, Slopes;
    var z, h := Zeros(|knots|), Intervals(knots);
    FlatSlopes(knots);
    InteriorRow(knots, z, NotAKnot, m, n - 1);
    LastEdgeRow(knots, z, NotAKnot, m, n - 1);
    KnotRowMirrored(h[n - 2], h[n - 1], m[n - 2], m[n - 1], m[n]);
    EdgeReduces(h[n - 1], h[n - 2], m[n], m[n - 1], m[n - 2]);
  }

  lemma MiddleKept(knots: Vec, m: Vec, i: nat)
    requires Usable(knots, Zeros(|knots|)) && i < |knots| - 2
    requires Solves(SplineEquations(knots, Zeros(|knots|), NotAKnot), m) && |m| == |knots|
    ensures var h := Intervals(knots);
            Times(h[i], m[i]) + Times(2.0 * (h[i] + h[i + 1]), m[i + 1]) + Times(h[i + 1], m[i + 2]) == 0.0
  {
    hide Times, Quotient, SplineEquations, KnotRow, Solves, Intervals, Slopes;
    var h := Intervals(knots);
    FlatSlopes(knots);
    InteriorRow(knots, Zeros(|knots|), NotAKnot, m, i + 1);
    FlatKnotRow(h[i], h[i + 1], m[i], m[i + 1], m[i + 2]);
  }

  lemma KnotRowMirrored(h0: real, h1: real, a: real, b: real, c: real)
    requires KnotRow(h0, h1, a, b, c, 0.0)
    ensures KnotRow(h1, h0, c, b, a, 0.0)
  {
    assert h0 + h1 == h1 + h0;
  }

  lemma FlatKnotRow(h0: real, h1: real, a: real, b: real, c: real)
    requires KnotRow(h0, h1, a, b, c, 0.0)
    ensures Times(h0, a) + Times(2.0 * (h0 + h1), b) + Times(h1, c) == 0.0
  {
  }

  /** With four or more knots the not-a-knot equations have only one solution. */
  lemma FourKnotsAreNonsingular(knots: Vec, values: Vec)
    requires Usable(knots, values) && |knots| >= 4
    ensures Nonsingular(SplineEquations(knots, values, NotAKnot).a)
  {
    hide Times, Quotient, SplineEquations, Inner, Row, Solves, Increasing, Intervals;
    var n := |knots| - 1;
    ZeroValues(knots, values, NotAKnot);
    var flat := System(SplineEquations(knots, values, NotAKnot).a, Zeros(n + 1));
    forall m | Solves(flat, m) ensures m == Zeros(n + 1) {
      FlatSolutionIsZero(knots, m);
    }
  }

  lemma FlatSolutionIsZero(knots: Vec, m: Vec)
    requires Usable(knots, Zeros(|knots|)) && |knots| >= 4
    requires Solves(SplineEquations(knots, Zeros(|knots|), NotAKnot), m)
    ensures m == Zeros(|knots|)
  {
    hide Times, Quotient, SplineEquations, Inner, Row, Solves, Increasing, Intervals, Nonsingular;
    var n := |knots| - 1;
    InteriorIsNull(knots, m);
    InteriorIsZero(knots, m);
    FirstReduced(knots, m);
    LastReduced(knots, m, n);
    IntervalsPositive(knots);
    ZeroFactor(Intervals(knots)[1], m[0]);
    ZeroFactor(Intervals(knots)[n - 2], m[n]);
  }

  lemma InteriorIsZero(knots: Vec, m: Vec)
    requires Usable(knots, Zeros(|knots|)) && |m| == |knots| >= 4
    requires Solves(System(Inner(Intervals(knots)), Zeros(|knots| - 2)), m[1..|knots| - 1])
    ensures forall i :: 1 <= i < |knots| - 1 ==> m[i] == 0.0
  {
    IntervalsPositive(knots);
    hide Times, Quotient, Inner, Row, Solves, Increasing, Intervals;
    InnerIsDominant(Intervals(knots));
    DominantIsNonsingular(Inner(Intervals(knots)));
    var n := |knots| - 1;
    var x := m[1..n];
    assert x == Zeros(n - 1);
    assert forall i :: 1 <= i < n ==> m[i] == x[i - 1] == 0.0;
  }

  lemma ZeroFactor(h: real, a: real)
    requires h > 0.0 && h * (0.0 - a) == 0.0
    ensures a == 0.0
  {
    Cancel(h, 0.0 - a, 0.0);
  }

  /** The not-a-knot equations determine their solution exactly when there are not three knots. */
  lemma NotAKnotIff(knots: Vec, values: Vec)
    requires Usable(knots, values)
    ensures Nonsingular(SplineEquations(knots, values, NotAKnot).a) <==> |knots| != 3
  {
    hide Nonsingular;
    if |knots| == 2 {
      assert SplineEquations(knots, values, NotAKnot) == SplineEquations(knots, values, Natural);
      NaturalIsNonsingular(knots, values);
    } else if |knots| == 3 {
      ThreeKnotsAreSingular(knots, values);
    } else {
      FourKnotsAreNonsingular(knots, values);
    }
  }

  // ----- The coefficient vectors

  /** The coefficient vectors as the builder fills them in: zeros, the two boundary rows,
    * then the interior rows. */
  method FillEquations(h: Vec, s: Vec, boundary: Boundary)
    returns (L: array<real>, D: array<real>, U: array<real>, Y: array<real>)
    requires |h| == |s| >= 1 && forall i :: 0 <= i < |h| ==> h[i] > 0.0
    ensures fresh(L) && fresh(D) && fresh(U) && fresh(Y)
    ensures L != D && L != U && L != Y && D != U && D != Y && U != Y
    ensures System(Matrix(L[..], D[..], U[..]), Y[..]) == Equations(h, s, Effective(boundary, |h|))
  {
    hide Times, Quotient, FirstRow, LastRow, Equations, EdgeTerm;
    var n := |h|;
    var bc := if n == 1 then Natural else boundary;
    L, D := new real[n + 1](_ => 0.0), new real[n + 1](_ => 0.0);
    U, Y := new real[n + 1](_ => 0.0), new real[n + 1](_ => 0.0);
    var (d0, u0, y0) := FirstRow(h, s, bc);
    D[0], U[0], Y[0] := d0, u0, y0;
    var (ln, dn, yn) := LastRow(h, s, bc);
    L[n], D[n], Y[n] := ln, dn, yn;
    ghost var e := Equations(h, s, bc);
    EquationsInside(h, s, bc);
    EquationsAtEnds(h, s, bc);
    FillInterior(e, h, s, L, D, U, Y);
  }

  method FillInterior(ghost e: System, h: Vec, s: Vec, L: array<real>, D: array<real>, U: array<real>, Y: array<real>)
    requires |h| == |s| >= 1 && Shaped(e.a, |e.rhs|) && |e.rhs| == |h| + 1
    requires L.Length == D.Length == U.Length == Y.Length == |h| + 1
    requires L != D && L != U && L != Y && D != U && D != Y && U != Y
    requires forall i :: 0 < i < |h| ==>
      e.a.lower[i] == h[i - 1] && e.a.diag[i] == 2.0 * (h[i - 1] + h[i]) && e.a.upper[i] == h[i]
          && e.rhs[i] == 6.0 * (s[i] - s[i - 1])
    requires forall i :: i == 0 || i == |h| ==>
      L[i] == e.a.lower[i] && D[i] == e.a.diag[i] && U[i] == e.a.upper[i] && Y[i] == e.rhs[i]
    modifies L, D, U, Y
    ensures System(Matrix(L[..], D[..], U[..]), Y[..]) == e
  {
    hide Times, Quotient;
    var i := 1;
    while i < |h|
      invariant 1 <= i <= |h|
      invariant forall j :: 0 <= j < i || j == |h| ==> L[j] == e.a.lower[j]
      invariant forall j :: 0 <= j < i || j == |h| ==> D[j] == e.a.diag[j]
      invariant forall j :: 0 <= j < i || j == |h| ==> U[j] == e.a.upper[j]
      invariant forall j :: 0 <= j < i || j == |h| ==> Y[j] == e.rhs[j]
    {
      L[i] := h[i - 1];
      D[i] := 2.0 * (h[i - 1] + h[i]);
      U[i] := h[i];
      Y[i] := 6.0 * (s[i] - s[i - 1]);
      i := i + 1;
    }
    assert L[..] == e.a.lower && D[..] == e.a.diag && U[..] == e.a.upper && Y[..] == e.rhs;
  }
}
