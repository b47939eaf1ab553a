/** Cubic spline through given knots: the pieces built from the solved second derivatives, and
  * the bin table that speeds up finding the piece for a query point. Doubles are exact reals. */
module CubicSplines {
  import opened Arithmetic
  import opened SplineSystem
  import opened Tridiagonal

  /** One cubic: sum of coefficients[k] * (t - knot)^k. */
  datatype Piece = Piece(knot: real, coefficients: seq<real>)

  datatype Outcome = Built | LengthMismatch | TooFewKnots | NotIncreasing | NotFinite

  // ----- The pieces

  function MakePiece(knot: real, value: real, slope: real, h: real, m0: real, m1: real): Piece
    requires h != 0.0
  {
    Piece(knot, [value,
                 slope - Times(m1 + 2.0 * m0, h) / 6.0,
                 m0 / 2.0,
                 CubicTerm(h, m0, m1)])
  }

  function CubicTerm(h: real, m0: real, m1: real): real
    requires h != 0.0
  {
    Quotient(m1 - m0, 6.0 * h)
  }

  function PieceAt(knots: Vec, values: Vec, m: Vec, i: nat): (p: Piece)
    requires Usable(knots, values) && |m| == |knots| && i + 1 < |knots|
    ensures |p.coefficients| == 4 && p.knot == knots[i]
  {
    MakePiece(knots[i], values[i], Slopes(knots, values)[i], knots[i + 1] - knots[i], m[i], m[i + 1])
  }

  function Pieces(knots: Vec, values: Vec, m: Vec): (ps: seq<Piece>)
    requires Usable(knots, values) && |m| == |knots|
    ensures |ps| == |knots| - 1 && WellFormed(ps)
    ensures forall i :: 0 <= i < |ps| ==> ps[i].knot == knots[i]
  {
    seq(|knots| - 1, i requires 0 <= i < |knots| - 1 => PieceAt(knots, values, m, i))
  }

  predicate WellFormed(ps: seq<Piece>) {
    forall i :: 0 <= i < |ps| ==> |ps[i].coefficients| == 4
  }

  /** A cubic with given coefficients, and its first two derivatives. */
  function Cubic(c: seq<real>, h: real): real
    requires |c| == 4
  {
    c[0] + h * (c[1] + h * (c[2] + h * c[3]))
  }

  function CubicSlope(c: seq<real>, h: real): real
    requires |c| == 4
  {
    c[1] + h * (2.0 * c[2] + h * (3.0 * c[3]))
  }

  function CubicBend(c: seq<real>, h: real): real
    requires |c| == 4
  {
    2.0 * c[2] + 6.0 * c[3] * h
  }

  function Value(p: Piece, t: real): real
    requires |p.coefficients| == 4
  {
    Cubic(p.coefficients, t - p.knot)
  }

  /** First derivative of a piece. */
  function Slope(p: Piece, t: real): real
    requires |p.coefficients| == 4
  {
    CubicSlope(p.coefficients, t - p.knot)
  }

  /** Second derivative of a piece. */
  function Bend(p: Piece, t: real): real
    requires |p.coefficients| == 4
  {
    CubicBend(p.coefficients, t - p.knot)
  }

  /** Value, slope and second derivative of a piece at both ends of a segment of length h,
    * average slope s and end second derivatives m0 and m1. */
  ghost predicate Ends(p: Piece, k0: real, k1: real, v0: real, v1: real, s: real, h: real, m0: real, m1: real)
    requires |p.coefficients| == 4
  {
    && Value(p, k0) == v0 && Value(p, k1) == v1
    && Slope(p, k0) == s - h * (2.0 * m0 + m1) / 6.0
    && Slope(p, k1) == s + h * (m0 + 2.0 * m1) / 6.0
    && Bend(p, k0) == m0 && Bend(p, k1) == m1
  }

  lemma PieceEnds(k0: real, k1: real, v0: real, v1: real, s: real, h: real, m0: real, m1: real)
    requires h == k1 - k0 && h != 0.0 && s == Quotient(v1 - v0, h)
    ensures Ends(MakePiece(k0, v0, s, h, m0, m1), k0, k1, v0, v1, s, h, m0, m1)
  {
    var c3 := Quotient(m1 - m0, 6.0 * h);
    assert s * h == v1 - v0;
    assert 6.0 * (c3 * h) == m1 - m0 by { DivMul(m1 - m0, 6.0 * h); }
    EndAlgebra(v0, v1, s, h, m0, m1, c3);
  }

  lemma EndAlgebra(v0: real, v1: real, s: real, h: real, m0: real, m1: real, c3: real)
    requires s * h == v1 - v0 && 6.0 * (c3 * h) == m1 - m0
    ensures var c1 := s - (m1 + 2.0 * m0) * h / 6.0;
            && v0 + h * (c1 + h * (m0 / 2.0 + h * c3)) == v1
            && c1 + h * (m0 + h * (3.0 * c3)) == s + h * (m0 + 2.0 * m1) / 6.0
            && m0 + 6.0 * c3 * h == m1
  {
    var c1 := s - (m1 + 2.0 * m0) * h / 6.0;
    var b := c3 * h;
    assert h * c3 == b && h * (3.0 * c3) == 3.0 * b;
    assert c1 + h * (m0 / 2.0 + b) == s;
  }

  // ----- The finished curve is the natural spline through the points

  ghost predicate Interpolates(ps: seq<Piece>, knots: Vec, values: Vec)
    requires |knots| == |values| == |ps| + 1 && WellFormed(ps)
  {
    forall i :: 0 <= i < |ps| ==> Value(ps[i], knots[i]) == values[i] && Value(ps[i], knots[i + 1]) == values[i + 1]
  }

  /** Two pieces agree at t in value and in their first two derivatives. */
  ghost predicate Joined(p: Piece, q: Piece, t: real)
    requires |p.coefficients| == 4 && |q.coefficients| == 4
  {
    Value(p, t) == Value(q, t) && Slope(p, t) == Slope(q, t) && Bend(p, t) == Bend(q, t)
  }

  ghost predicate Smooth(ps: seq<Piece>, knots: Vec)
    requires |knots| == |ps| + 1 && WellFormed(ps)
  {
    forall i :: 0 <= i < |ps| - 1 ==> Joined(ps[i], ps[i + 1], knots[i + 1])
  }

  ghost predicate SamePolynomial(p: Piece, q: Piece)
    requires |p.coefficients| == 4 && |q.coefficients| == 4
  {
    forall t :: Value(p, t) == Value(q, t)
  }

  ghost predicate MeetsBoundary(ps: seq<Piece>, knots: Vec, bc: Boundary)
    requires |knots| == |ps| + 1 >= 2 && WellFormed(ps)
  {
    var n := |ps|;
    if bc == NotAKnot && |knots| >= 3 then
      SamePolynomial(ps[0], ps[1]) && SamePolynomial(ps[n - 2], ps[n - 1])
    else
      Bend(ps[0], knots[0]) == 0.0 && Bend(ps[n - 1], knots[n]) == 0.0
  }

  lemma EndsOf(knots: Vec, values: Vec, m: Vec, i: nat)
    requires Usable(knots, values) && |m| == |knots| && i < |knots| - 1
    ensures Ends(Pieces(knots, values, m)[i], knots[i], knots[i + 1], values[i], values[i + 1],
                 Slopes(knots, values)[i], Intervals(knots)[i], m[i], m[i + 1])
  {
    hide Times, Quotient;
    IntervalsPositive(knots);
    PieceEnds(knots[i], knots[i + 1], values[i], values[i + 1],
              Slopes(knots, values)[i], Intervals(knots)[i], m[i], m[i + 1]);
  }

  /** Two segments meet at a knot with equal slopes when the equation of that knot holds. */
  lemma Join(p: Piece, q: Piece, k0: real, k1: real, k2: real, v0: real, v1: real, v2: real,
             s0: real, s1: real, h0: real, h1: real, a: real, b: real, c: real)
    requires |p.coefficients| == 4 && |q.coefficients| == 4
    requires Ends(p, k0, k1, v0, v1, s0, h0, a, b) && Ends(q, k1, k2, v1, v2, s1, h1, b, c)
    requires KnotRow(h0, h1, a, b, c, s1 - s0)
    ensures Joined(p, q, k1)
  {
    assert 2.0 * (h0 + h1) * b == h0 * (2.0 * b) + h1 * (2.0 * b);
    assert h0 * (a + 2.0 * b) == h0 * a + h0 * (2.0 * b);
    assert h1 * (2.0 * b + c) == h1 * (2.0 * b) + h1 * c;
  }

  /** Any solution of the equations makes the pieces pass through the points and join smoothly. */
  lemma SolutionIsSmooth(knots: Vec, values: Vec, bc: Boundary, m: Vec)
    requires Usable(knots, values) && Solves(SplineEquations(knots, values, bc), m)
    ensures Interpolates(Pieces(knots, values, m), knots, values) && Smooth(Pieces(knots, values, m), knots)
  {
    hide Times, Quotient;
    var ps := Pieces(knots, values, m);
    forall i | 0 <= i < |ps|
      ensures Value(ps[i], knots[i]) == values[i] && Value(ps[i], knots[i + 1]) == values[i + 1]
    {
      EndsOf(knots, values, m, i);
    }
    forall i | 0 <= i < |ps| - 1 ensures Joined(ps[i], ps[i + 1], knots[i + 1]) {
      JoinAt(knots, values, bc, m, i);
    }
  }

  lemma SizesOf(knots: Vec, values: Vec, bc: Boundary, m: Vec)
    requires Usable(knots, values) && Solves(SplineEquations(knots, values, bc), m)
    ensures |m| == |knots| == |values| >= 2
    ensures Effective(bc, |knots| - 1) == NotAKnot ==> |knots| >= 3
  {
  }

  lemma JoinAt(knots: Vec, values: Vec, bc: Boundary, m: Vec, i: nat)
    requires Usable(knots, values) && Solves(SplineEquations(knots, values, bc), m) && i < |knots| - 2
    ensures Joined(Pieces(knots, values, m)[i], Pieces(knots, values, m)[i + 1], knots[i + 1])
  {
    hide *;
    SizesOf(knots, values, bc, m);
    InteriorRow(knots, values, bc, m, i + 1);
    JoinPieces(knots, values, m, i);
  }

  lemma JoinPieces(knots: Vec, values: Vec, m: Vec, i: nat)
    requires Usable(knots, values) && |m| == |knots| && i < |knots| - 2
    requires KnotRow(Intervals(knots)[i], Intervals(knots)[i + 1], m[i], m[i + 1], m[i + 2],
                     Slopes(knots, values)[i + 1] - Slopes(knots, values)[i])
    ensures Joined(Pieces(knots, values, m)[i], Pieces(knots, values, m)[i + 1], knots[i + 1])
  {
    assert |knots| == |values|;
    hide Usable, Increasing, Intervals, Slopes, Ends, KnotRow, Joined;
    var ps, h, s := Pieces(knots, values, m), Intervals(knots), Slopes(knots, values);
    EndsOf(knots, values, m, i);
    EndsOf(knots, values, m, i + 1);
    Join(ps[i], ps[i + 1], knots[i], knots[i + 1], knots[i + 2], values[i], values[i + 1], values[i + 2],
         s[i], s[i + 1], h[i], h[i + 1], m[i], m[i + 1], m[i + 2]);
  }

  // ----- Boundary conditions

  /** Pieces that agree in value, two derivatives and cubic coefficient are one polynomial. */
  lemma SameCubic(p: Piece, q: Piece, k: real)
    requires |p.coefficients| == 4 && |q.coefficients| == 4
    requires Joined(p, q, k) && p.coefficients[3] == q.coefficients[3]
    ensures SamePolynomial(p, q)
  {
    forall t ensures Value(p, t) == Value(q, t) {
      Taylor(p, k, t);
      Taylor(q, k, t);
    }
  }

  function Expansion(v: real, s: real, b: real, c: real, d: real): real {
    v + s * d + b / 2.0 * d * d + c * d * d * d
  }

  lemma Taylor(p: Piece, k: real, t: real)
    requires |p.coefficients| == 4
    ensures Value(p, t) == Expansion(Value(p, k), Slope(p, k), Bend(p, k), p.coefficients[3], t - k)
  {
    hide Cubic, CubicSlope, CubicBend, Expansion;
    TaylorAlgebra(p.coefficients, k - p.knot, t - p.knot, t - k);
  }

  lemma TaylorAlgebra(c: seq<real>, h: real, g: real, d: real)
    requires |c| == 4 && g == h + d
    ensures Cubic(c, g) == Expansion(Cubic(c, h), CubicSlope(c, h), CubicBend(c, h), c[3], d)
  {
    var c0, c1, c2, c3 := c[0], c[1], c[2], c[3];
    assert g * (c1 + g * (c2 + g * c3)) == c1 * g + c2 * (g * g) + c3 * (g * g * g);
    assert g * g == h * h + 2.0 * (h * d) + d * d;
    assert g * g * g == h * h * h + 3.0 * (h * h * d) + 3.0 * (h * d * d) + d * d * d;
  }

  lemma SameThirdDerivative(h0: real, h1: real, a: real, b: real, c: real)
    requires h0 > 0.0 && h1 > 0.0 && h1 * (b - a) == h0 * (c - b)
    ensures CubicTerm(h0, a, b) == CubicTerm(h1, b, c)
  {
    var x, y := Quotient(b - a, 6.0 * h0), Quotient(c - b, 6.0 * h1);
    assert x * (6.0 * h0) == b - a && y * (6.0 * h1) == c - b;
    assert h1 * (x * (6.0 * h0)) == 6.0 * h0 * h1 * x && h0 * (y * (6.0 * h1)) == 6.0 * h0 * h1 * y;
    Cancel(6.0 * h0 * h1, x, y);
  }

  lemma SolutionMeetsBoundary(knots: Vec, values: Vec, bc: Boundary, m: Vec)
    requires Usable(knots, values) && Solves(SplineEquations(knots, values, bc), m)
    ensures MeetsBoundary(Pieces(knots, values, m), knots, bc)
  {
    SizesOf(knots, values, bc, m);
    if Effective(bc, |knots| - 1) == Natural {
      NaturalEndsAreStraight(knots, values, bc, m);
    } else {
      EdgePiecesAreOne(knots, values, bc, m);
    }
    hide Solves, SplineEquations, Usable, Increasing, Pieces, Bend, SamePolynomial;
  }

  lemma NaturalEndsAreStraight(knots: Vec, values: Vec, bc: Boundary, m: Vec)
    requires Usable(knots, values) && Solves(SplineEquations(knots, values, bc), m)
    requires Effective(bc, |knots| - 1) == Natural
    ensures |m| == |knots| >= 2
    ensures var ps, n := Pieces(knots, values, m), |knots| - 1;
            Bend(ps[0], knots[0]) == 0.0 && Bend(ps[n - 1], knots[n]) == 0.0
  {
    hide Solves, SplineEquations, Usable, Increasing, Pieces, Slope, Value, Bend, Times, Quotient;
    SizesOf(knots, values, bc, m);
    NaturalRows(knots, values, bc, m);
    EndsOf(knots, values, m, 0);
    EndsOf(knots, values, m, |knots| - 2);
  }

  lemma EdgePiecesAreOne(knots: Vec, values: Vec, bc: Boundary, m: Vec)
    requires Usable(knots, values) && Solves(SplineEquations(knots, values, bc), m)
    requires Effective(bc, |knots| - 1) == NotAKnot
    ensures |m| == |knots| >= 3
    ensures var ps, n := Pieces(knots, values, m), |knots| - 1;
            SamePolynomial(ps[0], ps[1]) && SamePolynomial(ps[n - 2], ps[n - 1])
  {
    hide Solves, SplineEquations, Usable, Increasing, Pieces, Joined, SamePolynomial;
    SizesOf(knots, values, bc, m);
    var ps, n := Pieces(knots, values, m), |knots| - 1;
    JoinAt(knots, values, bc, m, 0);
    FirstTwoShareCubic(knots, values, bc, m, 1);
    SameCubic(ps[0], ps[1], knots[1]);
    JoinAt(knots, values, bc, m, n - 2);
    LastTwoShareCubic(knots, values, bc, m, n - 1);
    SameCubic(ps[n - 2], ps[n - 1], knots[n - 1]);
  }

  lemma FirstTwoShareCubic(knots: Vec, values: Vec, bc: Boundary, m: Vec, i: nat)
    requires Usable(knots, values) && Solves(SplineEquations(knots, values, bc), m)
    requires Effective(bc, |knots| - 1) == NotAKnot && i == 1
    ensures var ps := Pieces(knots, values, m); ps[i - 1].coefficients[3] == ps[i].coefficients[3]
  {
    hide *;
    SizesOf(knots, values, bc, m);
    FirstEdgeRow(knots, values, bc, m, i);
    InteriorRow(knots, values, bc, m, i);
    var h, d := Intervals(knots), Slopes(knots, values)[i] - Slopes(knots, values)[i - 1];
    EdgeShare(h[i - 1], h[i], m[i - 1], m[i], m[i + 1], d);
    CubicOf(knots, values, m, i - 1);
    CubicOf(knots, values, m, i);
  }

  lemma LastTwoShareCubic(knots: Vec, values: Vec, bc: Boundary, m: Vec, i: nat)
    requires Usable(knots, values) && Solves(SplineEquations(knots, values, bc), m)
    requires Effective(bc, |knots| - 1) == NotAKnot && i == |knots| - 2
    ensures var ps := Pieces(knots, values, m); ps[i - 1].coefficients[3] == ps[i].coefficients[3]
  {
    hide *;
    SizesOf(knots, values, bc, m);
    LastEdgeRow(knots, values, bc, m, i);
    InteriorRow(knots, values, bc, m, i);
    var h, d := Intervals(knots), Slopes(knots, values)[i] - Slopes(knots, values)[i - 1];
    EdgeShareMirrored(h[i], h[i - 1], m[i + 1], m[i], m[i - 1], d);
    CubicOf(knots, values, m, i - 1);
    CubicOf(knots, values, m, i);
  }

  lemma CubicOf(knots: Vec, values: Vec, m: Vec, i: nat)
    requires Usable(knots, values) && |m| == |knots| && i + 1 < |knots|
    ensures Intervals(knots)[i] > 0.0
    ensures Pieces(knots, values, m)[i].coefficients[3] == CubicTerm(Intervals(knots)[i], m[i], m[i + 1])
  {
    hide Times, Quotient;
  }

  lemma EdgeShare(h0: real, h1: real, a: real, b: real, c: real, d: real)
    requires h0 > 0.0 && h1 > 0.0 && EdgeRow(h0, h1, a, b, d) && KnotRow(h0, h1, a, b, c, d)
    ensures CubicTerm(h0, a, b) == CubicTerm(h1, b, c)
  {
    DivMul(6.0 * h0, h0 + h1);
    NotAKnotAlgebra(h0, h1, a, b, c, d, Quotient(6.0 * h0, h0 + h1));
    SameThirdDerivative(h0, h1, a, b, c);
  }

  lemma EdgeShareMirrored(h0: real, h1: real, a: real, b: real, c: real, d: real)
    requires h0 > 0.0 && h1 > 0.0 && EdgeRow(h0, h1, a, b, d) && KnotRow(h1, h0, c, b, a, d)
    ensures CubicTerm(h1, c, b) == CubicTerm(h0, b, a)
  {
    assert h1 + h0 == h0 + h1;
    DivMul(6.0 * h0, h0 + h1);
    NotAKnotAlgebra(h0, h1, a, b, c, d, Quotient(6.0 * h0, h0 + h1));
    SameThirdDerivative(h1, h0, c, b, a);
  }

  // ----- Finding the piece for a query point

  predicate Ascending(ps: seq<Piece>) {
    forall i, j :: 0 <= i < j < |ps| ==> ps[i].knot < ps[j].knot
  }

  /** Piece i is the one in force at t: the first and last pieces extend outwards. */
  predicate Covers(ps: seq<Piece>, t: real, i: int) {
    0 <= i < |ps| && (i > 0 ==> ps[i].knot <= t) && (i + 1 < |ps| ==> t < ps[i + 1].knot)
  }

  lemma CoversUnique(ps: seq<Piece>, t: real, i: int, j: int)
    requires Ascending(ps) && Covers(ps, t, i) && Covers(ps, t, j)
    ensures i == j
  {
  }

  lemma KnotsBetweenEnds(ps: seq<Piece>)
    requires |ps| > 0 && Ascending(ps)
    ensures forall i :: 0 <= i < |ps| ==> ps[0].knot <= ps[i].knot <= ps[|ps| - 1].knot
  {
  }

  /** A plain linear scan for the piece in force at t, starting from piece i. */
  function Scan(ps: seq<Piece>, t: real, i: nat): (k: nat)
    requires i < |ps| && (i > 0 ==> ps[i].knot <= t)
    ensures Covers(ps, t, k)
    decreases |ps| - i
  {
    if i + 1 < |ps| && ps[i + 1].knot <= t then Scan(ps, t, i + 1) else i
  }

  /** The curve the pieces describe. */
  function Curve(ps: seq<Piece>, t: real): real
    requires |ps| > 0 && WellFormed(ps)
  {
    Value(ps[Scan(ps, t, 0)], t)
  }

  /** The curve passes through every given point. */
  lemma CurveInterpolates(knots: Vec, values: Vec, m: Vec, i: nat)
    requires Usable(knots, values) && |m| == |knots| && i < |knots|
    requires Interpolates(Pieces(knots, values, m), knots, values)
    ensures Curve(Pieces(knots, values, m), knots[i]) == values[i]
  {
    hide Times, Quotient;
    var ps := Pieces(knots, values, m);
    var k := if i < |ps| then i else |ps| - 1;
    CoversUnique(ps, knots[i], Scan(ps, knots[i], 0), k);
  }

  lemma EdgeOrder(w: real, i: int, j: int)
    requires w >= 0.0 && i <= j
    ensures Times(w, i as real) <= Times(w, j as real)
  {
    TimesKeepsOrder(w, i as real, j as real);
  }

  lemma QuotientSign(x: real, y: real)
    requires y > 0.0
    ensures x > 0.0 ==> Quotient(x, y) > 0.0
    ensures x >= 0.0 ==> Quotient(x, y) >= 0.0
  {
  }

  /** Bin number n begins at the upper bound. */
  lemma LastEdge(lower: real, upper: real, n: nat)
    requires n > 0 && lower < upper
    ensures Quotient(upper - lower, n as real) > 0.0
    ensures lower + Times(Quotient(upper - lower, n as real), n as real) == upper
  {
    DivMul(upper - lower, n as real);
    QuotientSign(upper - lower, n as real);
  }

  /** The bin of t starts at or before t. */
  lemma BinStartsBefore(offset: real, w: real)
    requires w > 0.0 && offset >= 0.0
    ensures Quotient(offset, w).Floor >= 0
    ensures Times(w, Quotient(offset, w).Floor as real) <= offset
  {
    var q := Quotient(offset, w);
    DivMul(offset, w);
    QuotientSign(offset, w);
    TimesKeepsOrder(w, q.Floor as real, q);
  }

  /** Horner's running value once coefficients 3 .. i have been taken in. */
  function Horner(p: Piece, h: real, i: nat): real
    requires |p.coefficients| == 4 && i <= 3
    decreases 3 - i
  {
    if i == 3 then p.coefficients[3] else Times(Horner(p, h, i + 1), h) + p.coefficients[i]
  }

  lemma HornerIsValue(p: Piece, t: real)
    requires |p.coefficients| == 4
    ensures Horner(p, t - p.knot, 0) == Value(p, t)
  {
    var h := t - p.knot;
    assert Horner(p, h, 2) == p.coefficients[3] * h + p.coefficients[2];
    assert Horner(p, h, 1) == Times(Horner(p, h, 2), h) + p.coefficients[1];
    assert Horner(p, h, 0) == Times(Horner(p, h, 1), h) + p.coefficients[0];
  }

  /** Steps upward everywhere make the whole sequence increasing. */
  lemma StepsIncrease(t: Vec, h: Vec)
    requires |t| == |h| + 1 && forall j :: 0 <= j < |h| ==> h[j] == t[j + 1] - t[j] && h[j] > 0.0
    ensures Increasing(t)
  {
    assert forall j :: 0 <= j < |t| - 1 ==> h[j] > 0.0 && t[j] < t[j + 1];
    forall i, j | 0 <= i < j < |t| ensures t[i] < t[j] {
      Climb(t, i, j);
    }
  }

  lemma NotIncreasingAt(t: Vec, i: nat)
    requires i + 1 < |t| && t[i + 1] - t[i] <= 0.0
    ensures !Increasing(t)
  {
  }

  lemma Climb(t: Vec, i: nat, j: nat)
    requires forall j :: 0 <= j < |t| - 1 ==> t[j] < t[j + 1]
    requires i < j < |t|
    ensures t[i] < t[j]
    decreases j
  {
    if i + 1 < j { Climb(t, i, j - 1); }
  }

  /** `ps` is the spline through the points for the boundary condition: it passes through
    * them, joins smoothly, and meets the condition at the ends. */
  ghost predicate SplineThrough(ps: seq<Piece>, knots: Vec, values: Vec, bc: Boundary) {
    && Usable(knots, values)
    && |ps| == |knots| - 1 && WellFormed(ps) && Ascending(ps)
    && (forall i :: 0 <= i < |ps| ==> ps[i].knot == knots[i])
    && Interpolates(ps, knots, values) && Smooth(ps, knots) && MeetsBoundary(ps, knots, bc)
    && (forall i :: 0 <= i < |knots| ==> Curve(ps, knots[i]) == values[i])
  }

  /** The pieces made from any solution of the equations are the spline. */
  lemma SolutionIsSpline(knots: Vec, values: Vec, bc: Boundary, m: Vec)
    requires Usable(knots, values) && Solves(SplineEquations(knots, values, bc), m)
    ensures SplineThrough(Pieces(knots, values, m), knots, values, bc)
  {
    hide Times, Quotient;
    SolutionIsSmooth(knots, values, bc, m);
    SolutionMeetsBoundary(knots, values, bc, m);
    var ps := Pieces(knots, values, m);
    forall i | 0 <= i < |knots| ensures Curve(ps, knots[i]) == values[i] {
      CurveInterpolates(knots, values, m, i);
    }
    PiecesAscend(ps, knots);
  }

  lemma PiecesAscend(ps: seq<Piece>, knots: Vec)
    requires Increasing(knots) && |ps| < |knots| && forall i :: 0 <= i < |ps| ==> ps[i].knot == knots[i]
    ensures Ascending(ps)
  {
  }

  method Differences(t: Vec, x: Vec) returns (increasing: bool, h: Vec, s: Vec)
    requires |t| == |x| >= 2
    ensures increasing <==> Increasing(t)
    ensures increasing ==> h == Intervals(t) && s == Slopes(t, x)
  {
    hide Times, Quotient, Increasing, Intervals, Slopes;
    h, s := [], [];
    var i := 0;
    while i < |t| - 1
      invariant 0 <= i <= |t| - 1 && |h| == |s| == i
      invariant forall j :: 0 <= j < i ==> h[j] == t[j + 1] - t[j] && h[j] > 0.0
      invariant forall j :: 0 <= j < i ==> s[j] == Quotient(x[j + 1] - x[j], h[j])
    {
      var dt, dx := t[i + 1] - t[i], x[i + 1] - x[i];
      if dt <= 0.0 {
        NotIncreasingAt(t, i);
        return false, [], [];
      }
      h := h + [dt];
      s := s + [Quotient(dx, dt)];
      i := i + 1;
    }
    increasing := true;
    StepsIncrease(t, h);
    DifferencesAre(t, x, h, s);
  }

  lemma DifferencesAre(t: Vec, x: Vec, h: Vec, s: Vec)
    requires Usable(t, x) && |h| == |s| == |t| - 1
    requires forall j :: 0 <= j < |h| ==> h[j] == t[j + 1] - t[j] && h[j] > 0.0
    requires forall j :: 0 <= j < |h| ==> s[j] == Quotient(x[j + 1] - x[j], h[j])
    ensures h == Intervals(t) && s == Slopes(t, x)
  {
    hide Quotient, Increasing;
  }

  method BuildPieces(t: Vec, x: Vec, h: Vec, s: Vec, m: Vec) returns (ps: seq<Piece>)
    requires Usable(t, x) && h == Intervals(t) && s == Slopes(t, x) && |m| == |t|
    ensures ps == Pieces(t, x, m)
  {
    hide Times, Quotient;
    IntervalsPositive(t);
    ps := [];
    for i := 0 to |h|
      invariant ps == Pieces(t, x, m)[..i]
    {
      var piece := Piece(t[i], [x[i],
                                s[i] - Times(m[i + 1] + 2.0 * m[i], h[i]) / 6.0,
                                m[i] / 2.0,
                                Quotient(m[i + 1] - m[i], 6.0 * h[i])]);
      assert piece == MakePiece(t[i], x[i], s[i], h[i], m[i], m[i + 1]);
      ps := ps + [piece];
    }
  }

  /** How building the spline must turn out: the thrown errors in the order they are checked,
    * and a zero divisor exactly for three knots without the natural boundary. */
  function Verdict(t: Vec, x: Vec, bc: Boundary): Outcome {
    if |t| != |x| then LengthMismatch
    else if |t| <= 1 then TooFewKnots
    else if !Increasing(t) then NotIncreasing
    else if bc == NotAKnot && |t| == 3 then NotFinite
    else Built
  }

  /** For usable points, the solver meets a zero divisor exactly when the verdict says so. */
  lemma VerdictIsExact(t: Vec, x: Vec, bc: Boundary)
    requires Usable(t, x)
    ensures Verdict(t, x, bc) == Built <==> Nonsingular(SplineEquations(t, x, bc).a)
  {
    if bc == NotAKnot {
      NotAKnotIff(t, x);
    } else {
      NaturalIsNonsingular(t, x);
    }
  }

  method MakePieces(t: Vec, x: Vec, bc: Boundary) returns (r: Outcome, ps: seq<Piece>)
    ensures r == Verdict(t, x, bc)
    ensures r == Built ==> SplineThrough(ps, t, x, bc)
  {
    hide Times, Quotient, SplineThrough, SplineEquations, Pieces, Nonsingular, Solves;
    ps := [];
    if |t| != |x| { return LengthMismatch, []; }
    if |t| <= 1 { return TooFewKnots, []; }
    var increasing, h, s := Differences(t, x);
    if !increasing { return NotIncreasing, []; }
    VerdictIsExact(t, x, bc);
    var finite, m := SolveMoments(t, x, h, s, bc);
    if !finite { return NotFinite, []; }
    ps := BuildPieces(t, x, h, s, m);
    SolutionIsSpline(t, x, bc, m);
    r := Built;
  }

  /** Fills in the equations and solves them. */
  method SolveMoments(t: Vec, x: Vec, h: Vec, s: Vec, bc: Boundary) returns (finite: bool, m: Vec)
    requires Usable(t, x) && h == Intervals(t) && s == Slopes(t, x)
    ensures finite <==> Nonsingular(SplineEquations(t, x, bc).a)
    ensures |m| == |t| && (finite ==> Solves(SplineEquations(t, x, bc), m))
  {
    hide Times, Quotient, Equations, Nonsingular, Solves, Intervals, Slopes;
    IntervalsPositive(t);
    var L, D, U, Y := FillEquations(h, s, bc);
    assert |Y[..]| == |t|;
    finite := Solve(L, D, U, Y);
    m := Y[..];
  }

  /** The spline object. `splines` holds the pieces, `bins[b]` the piece in force at the
    * lower edge of the b-th of equally wide bins. */
  class CubicSpline {
    var splines: seq<Piece>
    var bins: seq<nat>
    var lowerBound: real
    var upperBound: real
    var binInterval: real

    function Edge(b: int): real
      reads this
    {
      lowerBound + Times(binInterval, b as real)
    }

    ghost predicate IsIndexed()
      reads this
    {
      && |splines| > 0 && WellFormed(splines) && Ascending(splines)
      && lowerBound == splines[0].knot && splines[|splines| - 1].knot < upperBound
      && binInterval > 0.0 && 0 < |bins| <= |splines| + 1
      && forall b :: 0 <= b < |bins| ==> Covers(splines, Edge(b), bins[b])
    }

    constructor ()
      ensures splines == [] && bins == []
    {
      splines, bins := [], [];
      lowerBound, upperBound, binInterval := 0.0, 0.0, 0.0;
    }

    /** Builds the spline and its index. The outcomes other than Built are the thrown errors, and
      * NotFinite, a zero divisor, which is met for three knots without the natural boundary only. */
    method Make(t: Vec, x: Vec, bc: Boundary) returns (r: Outcome)
      modifies this
      ensures r == Verdict(t, x, bc)
      ensures r == Built ==> SplineThrough(splines, t, x, bc) && IsIndexed()
    {
      hide SplineThrough, Verdict, Increasing, Ascending, Covers, WellFormed;
      r := MakeSpline(t, x, bc);
      if r == Built {
        ReadyForBins(splines, t, x, bc);
        MakeBins();
      }
    }

    method MakeSpline(t: Vec, x: Vec, bc: Boundary) returns (r: Outcome)
      modifies this`splines, this`lowerBound, this`upperBound
      ensures r == Verdict(t, x, bc)
      ensures r == Built ==> SplineThrough(splines, t, x, bc)
      ensures r == Built ==> |t| >= 2 && lowerBound == t[0] && upperBound == t[|t| - 1]
    {
      hide SplineThrough, Increasing, SplineEquations;
      r, splines := MakePieces(t, x, bc);
      if r == Built {
        lowerBound, upperBound := t[0], t[|t| - 1];
      }
    }

    /** Builds the bin table: walks the bins and the pieces together. */
    method MakeBins()
      requires |splines| > 0 && WellFormed(splines) && Ascending(splines)
      requires lowerBound == splines[0].knot && splines[|splines| - 1].knot < upperBound
      modifies this`bins, this`binInterval
      ensures IsIndexed()
    {
      hide Times, Quotient, Ascending, WellFormed;
      var n := |splines|;
      KnotsBetweenEnds(splines);
      LastEdge(lowerBound, upperBound, n);
      binInterval := Quotient(upperBound - lowerBound, n as real);
      bins := [];
      var index, bin := 0, 0;
      while true
        invariant 0 <= index < n && bin == |bins| <= n
        invariant binInterval == Quotient(upperBound - lowerBound, n as real)
        invariant index > 0 ==> splines[index].knot <= Edge(bin)
        invariant forall b :: 0 <= b < bin ==> Covers(splines, Edge(b), bins[b])
        decreases n - bin
      {
        var edge := Edge(bin);
        while index + 1 < n && splines[index + 1].knot <= edge
          invariant 0 <= index < n && (index > 0 ==> splines[index].knot <= edge)
        {
          index := index + 1;
        }
        bins := bins + [index];
        if index + 1 == n { break; }
        EdgeOrder(binInterval, bin, bin + 1);
        bin := bin + 1;
      }
    }

    /** The indexed lookup finds the same piece as the plain linear scan, for every t. */
    method FindSpline(t: real) returns (p: Piece)
      requires IsIndexed()
      ensures p == splines[Scan(splines, t, 0)]
    {
      var n := |splines|;
      if t <= lowerBound {
        CoversUnique(splines, t, Scan(splines, t, 0), 0);
        return splines[0];
      }
      if t >= upperBound {
        CoversUnique(splines, t, Scan(splines, t, 0), n - 1);
        return splines[n - 1];
      }
      BinStartsBefore(t - lowerBound, binInterval);
      var bin := Quotient(t - lowerBound, binInterval).Floor;
      if bin >= |bins| {
        EdgeOrder(binInterval, |bins| - 1, bin);
        bin := |bins| - 1;
      }
      var index := bins[bin];
      assert Covers(splines, Edge(bin), index);
      assert t >= splines[index].knot;
      while index + 1 < n
        invariant 0 <= index < n && splines[index].knot <= t
      {
        if t < splines[index + 1].knot { break; }
        index := index + 1;
      }
      CoversUnique(splines, t, Scan(splines, t, 0), index);
      return splines[index];
    }

    /** Evaluation at t, by Horner's scheme on the piece found. */
    method Evaluate(t: real) returns (value: real)
      requires IsIndexed()
      ensures value == Curve(splines, t)
    {
      var spline := FindSpline(t);
      value := spline.coefficients[3];
      var h := t - spline.knot;
      for i := 3 downto 0
        invariant value == Horner(spline, h, i)
      {
        value := Times(value, h);
        value := value + spline.coefficients[i];
      }
      HornerIsValue(spline, t);
    }
  }

  lemma ReadyForBins(ps: seq<Piece>, t: Vec, x: Vec, bc: Boundary)
    requires SplineThrough(ps, t, x, bc)
    ensures |ps| > 0 && WellFormed(ps) && Ascending(ps)
    ensures |t| >= 2 && t[0] == ps[0].knot && ps[|ps| - 1].knot < t[|t| - 1]
  {
    hide Ascending, Interpolates, Smooth, MeetsBoundary;
  }

  /** Construction and evaluation together: whenever a spline is built at all, it takes each given value at its knot. */
  method Interpolate(t: Vec, x: Vec, bc: Boundary, i: nat) returns (r: Outcome, value: real)
    requires i < |t|
    ensures r == Verdict(t, x, bc)
    ensures r == Built ==> i < |x| && value == x[i]
  {
    hide Increasing, Ascending, Covers, WellFormed, Interpolates, Smooth, MeetsBoundary;
    var spline := new CubicSpline();
    r := spline.Make(t, x, bc);
    value := 0.0;
    if r == Built {
      value := spline.Evaluate(t[i]);
    }
  }
}
