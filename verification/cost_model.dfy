/** The learned cost model: exponentially weighted ridge regression with non-negative slopes over a window of
    past refreshes, in exact arithmetic; which fit the clamp-and-refit rule returns, and when it is the optimum. */
module CostModel {
  import opened SqlValues

  /** One recorded refresh. */
  datatype Sample = Sample(compute: real, upsert: real, actual: real)

  /** A sample with its weight. */
  datatype Point = Point(weight: real, compute: real, upsert: real, actual: real)

  /** Slopes of the two estimates, and the intercept. */
  datatype Coefficients = Coefficients(compute: real, upsert: real, intercept: real)

  /** The columns of the design matrix. */
  datatype Column = Compute | Upsert | Intercept

  // ---- weights ----

  function Power(base: real, n: nat): real {
    if n == 0 then 1.0 else base * Power(base, n - 1)
  }

  function ComputeWeights(n: nat, decay: real): (ws: seq<real>)
    ensures |ws| == n && forall i :: 0 <= i < n ==> ws[i] == Power(decay, n - 1 - i)
  {
    seq(n, i requires 0 <= i < n => Power(decay, n - 1 - i))
  }

  function Weighted(history: seq<Sample>, ws: seq<real>): (points: seq<Point>)
    requires |ws| == |history|
    ensures |points| == |history|
    ensures forall i :: 0 <= i < |history| ==>
              points[i] == Point(ws[i], history[i].compute, history[i].upsert, history[i].actual)
  {
    seq(|history|, i requires 0 <= i < |history| =>
      Point(ws[i], history[i].compute, history[i].upsert, history[i].actual))
  }

  // ---- the normal equations ----

  /** A product, named so that proofs can leave it alone. */
  function Prod(a: real, b: real): real {
    a * b
  }

  function Entry(p: Point, col: Column): real {
    match col
    case Compute => p.compute
    case Upsert => p.upsert
    case Intercept => 1.0
  }

  function At(v: Coefficients, col: Column): real {
    match col
    case Compute => v.compute
    case Upsert => v.upsert
    case Intercept => v.intercept
  }

  /** An entry of X'WX. */
  function Gram(points: seq<Point>, a: Column, b: Column): real {
    if points == [] then 0.0
    else Prod(points[0].weight, Prod(Entry(points[0], a), Entry(points[0], b))) + Gram(points[1..], a, b)
  }

  /** An entry of X'Wy. */
  function Moment(points: seq<Point>, a: Column): real {
    if points == [] then 0.0
    else Prod(points[0].weight, Prod(Entry(points[0], a), points[0].actual)) + Moment(points[1..], a)
  }

  function WeightTotal(points: seq<Point>): real {
    if points == [] then 0.0 else points[0].weight + WeightTotal(points[1..])
  }

  function ActualTotal(points: seq<Point>): real {
    if points == [] then 0.0 else Prod(points[0].weight, points[0].actual) + ActualTotal(points[1..])
  }

  /** A symmetric matrix, by its upper triangle. */
  datatype Matrix = Matrix(cc: real, cu: real, ci: real, uu: real, ui: real, ii: real)

  function Normal(points: seq<Point>, penalty: real): Matrix {
    Matrix(Gram(points, Compute, Compute) + penalty, Gram(points, Compute, Upsert), Gram(points, Compute, Intercept),
           Gram(points, Upsert, Upsert) + penalty, Gram(points, Upsert, Intercept),
           Gram(points, Intercept, Intercept) + penalty)
  }

  function RightSide(points: seq<Point>): Coefficients {
    Coefficients(Moment(points, Compute), Moment(points, Upsert), Moment(points, Intercept))
  }

  function Dot(a: real, b: real, c: real, d: Coefficients): real {
    Prod(a, d.compute) + Prod(b, d.upsert) + Prod(c, d.intercept)
  }

  function Apply(m: Matrix, v: Coefficients): Coefficients {
    Coefficients(Dot(m.cc, m.cu, m.ci, v), Dot(m.cu, m.uu, m.ui, v), Dot(m.ci, m.ui, m.ii, v))
  }

  function Determinant2(a: real, b: real, c: real): real {
    Prod(a, c) - Prod(b, b)
  }

  /** The solution of [a b; b c](x, y) = (p, q), unless the matrix is singular. */
  function Solve2(a: real, b: real, c: real, p: real, q: real): Option<(real, real)> {
    var d := Determinant2(a, b, c);
    if d == 0.0 then None else Some(((Prod(p, c) - Prod(b, q)) / d, (Prod(a, q) - Prod(b, p)) / d))
  }

  /** The cofactors of m; m is symmetric, so they are its adjugate. */
  function Adjugate(m: Matrix): Matrix {
    Matrix(Prod(m.uu, m.ii) - Prod(m.ui, m.ui), Prod(m.ci, m.ui) - Prod(m.cu, m.ii), Prod(m.cu, m.ui) - Prod(m.ci, m.uu),
           Prod(m.cc, m.ii) - Prod(m.ci, m.ci), Prod(m.ci, m.cu) - Prod(m.cc, m.ui),
           Prod(m.cc, m.uu) - Prod(m.cu, m.cu))
  }

  function Determinant(m: Matrix): real {
    var k := Adjugate(m);
    Prod(m.cc, k.cc) + Prod(m.cu, k.cu) + Prod(m.ci, k.ci)
  }

  /** The solution of m v = rhs, unless the matrix is singular. */
  function Solve3(m: Matrix, rhs: Coefficients): Option<Coefficients> {
    var d := Determinant(m);
    if d == 0.0 then None
    else
      var k := Apply(Adjugate(m), rhs);
      Some(Coefficients(k.compute / d, k.upsert / d, k.intercept / d))
  }

  // ---- the fit ----

  /** Solved: from a full or reduced system.  Averaged: the weighted average as intercept.  Raises: no samples,
      or an average of zero total weight. */
  datatype Fit = Solved(coefficients: Coefficients) | Averaged(coefficients: Coefficients) | Raises

  function Average(points: seq<Point>): Fit {
    var total := WeightTotal(points);
    if total == 0.0 then Raises else Averaged(Coefficients(0.0, 0.0, ActualTotal(points) / total))
  }

  /** The clamp-and-refit rule. */
  function FitNnlsRidge(points: seq<Point>, penalty: real): Fit {
    if points == [] then Raises
    else
      var m, rhs := Normal(points, penalty), RightSide(points);
      match Solve3(m, rhs)
      case None => Average(points)
      case Some(w) =>
        if w.compute < 0.0 && w.upsert < 0.0 then Average(points)
        else if w.compute < 0.0 then
          match Solve2(m.uu, m.ui, m.ii, rhs.upsert, rhs.intercept)
          case None => Average(points)
          case Some(w2) => if w2.0 < 0.0 then Average(points) else Solved(Coefficients(0.0, w2.0, w2.1))
        else if w.upsert < 0.0 then
          match Solve2(m.cc, m.ci, m.ii, rhs.compute, rhs.intercept)
          case None => Average(points)
          case Some(w2) => if w2.0 < 0.0 then Average(points) else Solved(Coefficients(w2.0, 0.0, w2.1))
        else Solved(w)
  }

  // ---- the objective ----

  /** What v predicts for p, before the measurement is subtracted. */
  function Reach(p: Point, v: Coefficients): real {
    Dot(p.compute, p.upsert, 1.0, v)
  }

  function Error(p: Point, v: Coefficients): real {
    Reach(p, v) - p.actual
  }

  function Square(x: real): real {
    Prod(x, x)
  }

  function Norm(v: Coefficients): real {
    Square(v.compute) + Square(v.upsert) + Square(v.intercept)
  }

  /** Weighted squared errors plus the ridge penalty. */
  function Objective(points: seq<Point>, penalty: real, v: Coefficients): real {
    if points == [] then Prod(penalty, Norm(v))
    else Prod(points[0].weight, Square(Error(points[0], v))) + Objective(points[1..], penalty, v)
  }

  /** Half the derivative of the objective in one coefficient. */
  function Slope(points: seq<Point>, penalty: real, v: Coefficients, col: Column): real {
    if points == [] then Prod(penalty, At(v, col))
    else Prod(points[0].weight, Prod(Error(points[0], v), Entry(points[0], col))) + Slope(points[1..], penalty, v, col)
  }

  /** The second-order part of the objective. */
  function Curvature(points: seq<Point>, penalty: real, d: Coefficients): real {
    if points == [] then Prod(penalty, Norm(d))
    else Prod(points[0].weight, Square(Reach(points[0], d))) + Curvature(points[1..], penalty, d)
  }

  function Minus(v: Coefficients, r: Coefficients): Coefficients {
    Coefficients(v.compute - r.compute, v.upsert - r.upsert, v.intercept - r.intercept)
  }

  /** How steeply the objective rises from r in direction d. */
  function Rise(points: seq<Point>, penalty: real, r: Coefficients, d: Coefficients): real {
    Dot(Slope(points, penalty, r, Compute), Slope(points, penalty, r, Upsert), Slope(points, penalty, r, Intercept), d)
  }

  predicate NonNegativeWeights(points: seq<Point>) {
    forall i :: 0 <= i < |points| ==> points[i].weight >= 0.0
  }

  predicate Feasible(v: Coefficients) {
    v.compute >= 0.0 && v.upsert >= 0.0
  }

  /** w beats every other vector with non-negative slopes. */
  ghost predicate IsMinimiser(points: seq<Point>, penalty: real, w: Coefficients) {
    Feasible(w) && forall v: Coefficients :: Feasible(v) ==> Objective(points, penalty, w) <= Objective(points, penalty, v)
  }

  // ---- products ----

  lemma ProdAdd(a: real, b: real, c: real)
    ensures Prod(a, b + c) == Prod(a, b) + Prod(a, c)
    ensures Prod(b + c, a) == Prod(b, a) + Prod(c, a)
  {
  }

  lemma ProdMinus(a: real, b: real, c: real)
    ensures Prod(a, b - c) == Prod(a, b) - Prod(a, c)
    ensures Prod(b - c, a) == Prod(b, a) - Prod(c, a)
  {
  }

  lemma ProdSwap(a: real, b: real)
    ensures Prod(a, b) == Prod(b, a)
  {
  }

  lemma ProdRegroup(a: real, b: real, c: real)
    ensures Prod(a, Prod(b, c)) == Prod(Prod(a, b), c)
  {
  }

  lemma ProdOne(a: real)
    ensures Prod(a, 1.0) == a && Prod(1.0, a) == a && Prod(a, 0.0) == 0.0 && Prod(0.0, a) == 0.0
  {
  }

  lemma ProdSign(a: real, b: real)
    ensures a >= 0.0 && b >= 0.0 ==> Prod(a, b) >= 0.0
    ensures a > 0.0 && b > 0.0 ==> Prod(a, b) > 0.0
    ensures a > 0.0 && b < 0.0 ==> Prod(a, b) < 0.0
  {
  }

  lemma SquareSign(x: real)
    ensures Square(x) >= 0.0
    ensures x != 0.0 ==> Square(x) > 0.0
  {
    if x > 0.0 {
      ProdSign(x, x);
    } else if x < 0.0 {
      ProdSign(-x, -x);
    }
  }

  lemma SquareAdd(w: real, e: real, f: real)
    ensures Prod(w, Square(e + f)) == Prod(w, Square(e)) + 2.0 * Prod(Prod(w, e), f) + Prod(w, Square(f))
  {
    hide Prod;
    ProdAdd(e + f, e, f);
    ProdAdd(e, e, f);
    ProdAdd(f, e, f);
    ProdSwap(f, e);
    ProdAdd(w, Prod(e, e) + Prod(e, f), Prod(e, f) + Prod(f, f));
    ProdAdd(w, Prod(e, e), Prod(e, f));
    ProdAdd(w, Prod(e, f), Prod(f, f));
    ProdRegroup(w, e, f);
  }

  lemma DotAdd(a: real, b: real, c: real, a': real, b': real, c': real, d: Coefficients)
    ensures Dot(a + a', b + b', c + c', d) == Dot(a, b, c, d) + Dot(a', b', c', d)
  {
    hide Prod;
    ProdAdd(d.compute, a, a');
    ProdAdd(d.upsert, b, b');
    ProdAdd(d.intercept, c, c');
  }

  lemma DotScale(k: real, a: real, b: real, c: real, d: Coefficients)
    ensures Prod(k, Dot(a, b, c, d)) == Dot(Prod(k, a), Prod(k, b), Prod(k, c), d)
  {
    hide Prod;
    var x, y, z := Prod(a, d.compute), Prod(b, d.upsert), Prod(c, d.intercept);
    ProdAdd(k, x + y, z);
    ProdAdd(k, x, y);
    ProdRegroup(k, a, d.compute);
    ProdRegroup(k, b, d.upsert);
    ProdRegroup(k, c, d.intercept);
  }

  lemma DotMinus(a: real, b: real, c: real, v: Coefficients, r: Coefficients)
    ensures Dot(a, b, c, Minus(v, r)) == Dot(a, b, c, v) - Dot(a, b, c, r)
  {
    hide Prod;
    ProdMinus(a, v.compute, r.compute);
    ProdMinus(b, v.upsert, r.upsert);
    ProdMinus(c, v.intercept, r.intercept);
  }

  // ---- the second-order expansion ----

  lemma PointExpands(p: Point, r: Coefficients, d: Coefficients, v: Coefficients)
    requires d == Minus(v, r)
    ensures var k := Prod(p.weight, Error(p, r));
            Prod(p.weight, Square(Error(p, v)))
            == Prod(p.weight, Square(Error(p, r))) + 2.0 * Dot(Prod(k, p.compute), Prod(k, p.upsert), k, d)
               + Prod(p.weight, Square(Reach(p, d)))
  {
    hide Prod, Dot, Square, Minus;
    var k := Prod(p.weight, Error(p, r));
    DotMinus(p.compute, p.upsert, 1.0, v, r);
    SquareAdd(p.weight, Error(p, r), Reach(p, d));
    DotScale(k, p.compute, p.upsert, 1.0, d);
    ProdOne(k);
  }

  lemma NormExpands(penalty: real, r: Coefficients, v: Coefficients)
    ensures Prod(penalty, Norm(v))
            == Prod(penalty, Norm(r)) + 2.0 * Dot(Prod(penalty, r.compute), Prod(penalty, r.upsert), Prod(penalty, r.intercept), Minus(v, r))
               + Prod(penalty, Norm(Minus(v, r)))
  {
    hide Prod, Norm, Square;
    var d := Minus(v, r);
    SquareAdd(penalty, r.compute, d.compute);
    SquareAdd(penalty, r.upsert, d.upsert);
    SquareAdd(penalty, r.intercept, d.intercept);
    Spread(penalty, v);
    Spread(penalty, r);
    Spread(penalty, d);
  }

  lemma Spread(penalty: real, v: Coefficients)
    ensures Prod(penalty, Norm(v))
            == Prod(penalty, Square(v.compute)) + Prod(penalty, Square(v.upsert)) + Prod(penalty, Square(v.intercept))
  {
    hide Prod, Square;
    var x, y, z := Square(v.compute), Square(v.upsert), Square(v.intercept);
    ProdAdd(penalty, x + y, z);
    ProdAdd(penalty, x, y);
  }

  lemma SlopesStep(points: seq<Point>, penalty: real, r: Coefficients, k: real)
    requires points != [] && k == Prod(points[0].weight, Error(points[0], r))
    ensures Slope(points, penalty, r, Compute) == Prod(k, points[0].compute) + Slope(points[1..], penalty, r, Compute)
    ensures Slope(points, penalty, r, Upsert) == Prod(k, points[0].upsert) + Slope(points[1..], penalty, r, Upsert)
    ensures Slope(points, penalty, r, Intercept) == k + Slope(points[1..], penalty, r, Intercept)
  {
    hide Prod, Error;
    var w, e := points[0].weight, Error(points[0], r);
    ProdRegroup(w, e, points[0].compute);
    ProdRegroup(w, e, points[0].upsert);
    ProdRegroup(w, e, 1.0);
    ProdOne(k);
  }

  /** The objective at v, seen from r: exact to second order. */
  lemma {:induction false} Expansion(points: seq<Point>, penalty: real, r: Coefficients, v: Coefficients)
    ensures Objective(points, penalty, v)
            == Objective(points, penalty, r) + 2.0 * Rise(points, penalty, r, Minus(v, r)) + Curvature(points, penalty, Minus(v, r))
  {
    hide Prod, Error, Reach, Minus, Dot, Norm, Square;
    if points == [] {
      NormExpands(penalty, r, v);
    } else {
      var rest, d := points[1..], Minus(v, r);
      Expansion(rest, penalty, r, v);
      PointExpands(points[0], r, d, v);
      var k := Prod(points[0].weight, Error(points[0], r));
      SlopesStep(points, penalty, r, k);
      DotAdd(Prod(k, points[0].compute), Prod(k, points[0].upsert), k,
             Slope(rest, penalty, r, Compute), Slope(rest, penalty, r, Upsert), Slope(rest, penalty, r, Intercept), d);
    }
  }

  lemma NormSign(d: Coefficients)
    ensures Norm(d) >= 0.0
    ensures d != Coefficients(0.0, 0.0, 0.0) ==> Norm(d) > 0.0
  {
    hide Square;
    SquareSign(d.compute);
    SquareSign(d.upsert);
    SquareSign(d.intercept);
  }

  /** The objective is strictly convex. */
  lemma {:induction false} CurvaturePositive(points: seq<Point>, penalty: real, d: Coefficients)
    requires NonNegativeWeights(points) && penalty > 0.0
    ensures Curvature(points, penalty, d) >= 0.0
    ensures d != Coefficients(0.0, 0.0, 0.0) ==> Curvature(points, penalty, d) > 0.0
  {
    hide Prod, Square, Norm, Reach;
    if points == [] {
      NormSign(d);
      ProdSign(penalty, Norm(d));
    } else {
      CurvaturePositive(points[1..], penalty, d);
      SquareSign(Reach(points[0], d));
      ProdSign(points[0].weight, Square(Reach(points[0], d)));
    }
  }

  // ---- slopes and the normal equations ----

  lemma SlopeOfPoint(w: real, x: real, v: Coefficients, p: Point)
    ensures Prod(w, Prod(Error(p, v), x))
            == Dot(Prod(w, Prod(x, p.compute)), Prod(w, Prod(x, p.upsert)), Prod(w, Prod(x, 1.0)), v) - Prod(w, Prod(x, p.actual))
  {
    hide Prod, Dot;
    var k, reach := Prod(w, x), Reach(p, v);
    ProdSwap(Error(p, v), x);
    ProdMinus(x, reach, p.actual);
    ProdMinus(w, Prod(x, reach), Prod(x, p.actual));
    ProdRegroup(w, x, reach);
    DotScale(k, p.compute, p.upsert, 1.0, v);
    ProdRegroup(w, x, p.compute);
    ProdRegroup(w, x, p.upsert);
    ProdRegroup(w, x, 1.0);
  }

  function GramRow(points: seq<Point>, col: Column, v: Coefficients): real {
    Dot(Gram(points, col, Compute), Gram(points, col, Upsert), Gram(points, col, Intercept), v)
  }

  /** The slope at v is what the normal equations leave over. */
  lemma {:induction false} SlopeIs(points: seq<Point>, penalty: real, v: Coefficients, col: Column)
    ensures Slope(points, penalty, v, col) == GramRow(points, col, v) + Prod(penalty, At(v, col)) - Moment(points, col)
  {
    if points == [] {
      assert GramRow(points, col, v) == 0.0;
    } else {
      hide Prod, Dot, Error, At;
      var rest, p, x := points[1..], points[0], Entry(points[0], col);
      SlopeIs(rest, penalty, v, col);
      SlopeOfPoint(p.weight, x, v, p);
      DotAdd(Prod(p.weight, Prod(x, p.compute)), Prod(p.weight, Prod(x, p.upsert)), Prod(p.weight, Prod(x, 1.0)),
             Gram(rest, col, Compute), Gram(rest, col, Upsert), Gram(rest, col, Intercept), v);
    }
  }

  lemma {:induction false} GramSymmetric(points: seq<Point>, a: Column, b: Column)
    ensures Gram(points, a, b) == Gram(points, b, a)
  {
    hide Prod, Entry;
    if points != [] {
      GramSymmetric(points[1..], a, b);
      ProdSwap(Entry(points[0], a), Entry(points[0], b));
    }
  }

  /** All three slopes at once: the residual of the normal equations. */
  lemma Residuals(points: seq<Point>, penalty: real, v: Coefficients)
    ensures var t, rhs := Apply(Normal(points, penalty), v), RightSide(points);
            && Slope(points, penalty, v, Compute) == t.compute - rhs.compute
            && Slope(points, penalty, v, Upsert) == t.upsert - rhs.upsert
            && Slope(points, penalty, v, Intercept) == t.intercept - rhs.intercept
  {
    hide Prod, Gram, Moment, Slope;
    SlopeIs(points, penalty, v, Compute);
    SlopeIs(points, penalty, v, Upsert);
    SlopeIs(points, penalty, v, Intercept);
    GramSymmetric(points, Compute, Upsert);
    GramSymmetric(points, Compute, Intercept);
    GramSymmetric(points, Upsert, Intercept);
    ProdAdd(v.compute, Gram(points, Compute, Compute), penalty);
    ProdAdd(v.upsert, Gram(points, Upsert, Upsert), penalty);
    ProdAdd(v.intercept, Gram(points, Intercept, Intercept), penalty);
  }

  // ---- the matrices are positive definite ----

  /** d' m d. */
  function Quadratic(m: Matrix, d: Coefficients): real {
    var t := Apply(m, d);
    Dot(t.compute, t.upsert, t.intercept, d)
  }

  ghost predicate PositiveDefinite(m: Matrix) {
    forall d: Coefficients :: d != ZERO ==> Quadratic(m, d) > 0.0
  }

  const ZERO := Coefficients(0.0, 0.0, 0.0)

  function Scaled(t: real, d: Coefficients): Coefficients {
    Coefficients(Prod(t, d.compute), Prod(t, d.upsert), Prod(t, d.intercept))
  }

  lemma SquareScales(w: real, t: real, x: real)
    ensures Prod(w, Square(Prod(t, x))) == Prod(Square(t), Prod(w, Square(x)))
  {
    hide Prod;
    var y := Prod(t, x);
    ProdRegroup(y, t, x);
    ProdSwap(y, t);
    ProdRegroup(t, t, x);
    ProdSwap(Prod(Prod(t, t), x), x);
    ProdSwap(Prod(t, t), x);
    ProdRegroup(x, x, Prod(t, t));
    ProdSwap(Prod(x, x), Prod(t, t));
    ProdRegroup(w, Prod(t, t), Prod(x, x));
    ProdSwap(w, Prod(t, t));
    ProdRegroup(Prod(t, t), w, Prod(x, x));
  }

  lemma ReachScales(p: Point, t: real, d: Coefficients)
    ensures Reach(p, Scaled(t, d)) == Prod(t, Reach(p, d))
  {
    hide Prod;
    ScalePart(p.compute, t, d.compute);
    ScalePart(p.upsert, t, d.upsert);
    ScalePart(1.0, t, d.intercept);
    ProdAdd(t, Prod(p.compute, d.compute) + Prod(p.upsert, d.upsert), Prod(1.0, d.intercept));
    ProdAdd(t, Prod(p.compute, d.compute), Prod(p.upsert, d.upsert));
  }

  lemma ScalePart(a: real, t: real, x: real)
    ensures Prod(a, Prod(t, x)) == Prod(t, Prod(a, x))
  {
    hide Prod;
    ProdRegroup(a, t, x);
    ProdSwap(a, t);
    ProdRegroup(t, a, x);
  }

  lemma {:induction false} CurvatureScales(points: seq<Point>, penalty: real, t: real, d: Coefficients)
    ensures Curvature(points, penalty, Scaled(t, d)) == Prod(Square(t), Curvature(points, penalty, d))
  {
    hide Prod, Square, Reach;
    if points == [] {
      Spread(penalty, Scaled(t, d));
      Spread(penalty, d);
      SquareScales(penalty, t, d.compute);
      SquareScales(penalty, t, d.upsert);
      SquareScales(penalty, t, d.intercept);
      var x, y, z := Prod(penalty, Square(d.compute)), Prod(penalty, Square(d.upsert)), Prod(penalty, Square(d.intercept));
      ProdAdd(Square(t), x + y, z);
      ProdAdd(Square(t), x, y);
    } else {
      hide Scaled;
      CurvatureScales(points[1..], penalty, t, d);
      ReachScales(points[0], t, d);
      SquareScales(points[0].weight, t, Reach(points[0], d));
      ProdAdd(Square(t), Prod(points[0].weight, Square(Reach(points[0], d))), Curvature(points[1..], penalty, d));
    }
  }

  lemma Opposite(v: Coefficients, r: Coefficients)
    ensures Minus(r, v) == Scaled(-1.0, Minus(v, r)) && Square(-1.0) == 1.0
  {
  }

  lemma CurvatureEven(points: seq<Point>, penalty: real, v: Coefficients, r: Coefficients)
    ensures Curvature(points, penalty, Minus(r, v)) == Curvature(points, penalty, Minus(v, r))
  {
    hide Prod, Square, Scaled, Minus, Curvature;
    Opposite(v, r);
    CurvatureScales(points, penalty, -1.0, Minus(v, r));
    ProdOne(Curvature(points, penalty, Minus(v, r)));
  }

  lemma RiseAdds(points: seq<Point>, penalty: real, r: Coefficients, d: Coefficients)
    ensures var t, rhs := Apply(Normal(points, penalty), r), RightSide(points);
            Rise(points, penalty, r, d) == Dot(t.compute, t.upsert, t.intercept, d)
                                          - Dot(rhs.compute, rhs.upsert, rhs.intercept, d)
  {
    hide Prod, Slope, Normal, RightSide, Apply;
    Residuals(points, penalty, r);
    var t, rhs := Apply(Normal(points, penalty), r), RightSide(points);
    ProdMinus(d.compute, t.compute, rhs.compute);
    ProdMinus(d.upsert, t.upsert, rhs.upsert);
    ProdMinus(d.intercept, t.intercept, rhs.intercept);
  }

  lemma AtZero(m: Matrix, d: Coefficients)
    ensures Apply(m, ZERO) == ZERO && Dot(0.0, 0.0, 0.0, d) == 0.0
  {
  }

  lemma MinusZero(d: Coefficients)
    ensures Minus(d, ZERO) == d && Minus(ZERO, d) == Scaled(-1.0, d)
  {
  }

  lemma DotOpposite(a: real, b: real, c: real, d: Coefficients)
    ensures Dot(a, b, c, Minus(ZERO, d)) == -Dot(a, b, c, d)
  {
    DotMinus(a, b, c, ZERO, d);
  }

  /** The quadratic form of the normal matrix is the curvature of the objective. */
  lemma QuadraticIsCurvature(points: seq<Point>, penalty: real, d: Coefficients)
    ensures Quadratic(Normal(points, penalty), d) == Curvature(points, penalty, d)
  {
    hide Prod, Dot, Apply, Normal, RightSide, Rise, Curvature, Objective, Minus, Scaled;
    var t, rhs := Apply(Normal(points, penalty), d), RightSide(points);
    Expansion(points, penalty, ZERO, d);
    Expansion(points, penalty, d, ZERO);
    MinusZero(d);
    CurvatureEven(points, penalty, d, ZERO);
    RiseAdds(points, penalty, ZERO, d);
    RiseAdds(points, penalty, d, Minus(ZERO, d));
    AtZero(Normal(points, penalty), d);
    DotOpposite(t.compute, t.upsert, t.intercept, d);
    DotOpposite(rhs.compute, rhs.upsert, rhs.intercept, d);
  }

  lemma NormalIsPositiveDefinite(points: seq<Point>, penalty: real)
    requires NonNegativeWeights(points) && penalty > 0.0
    ensures PositiveDefinite(Normal(points, penalty))
  {
    hide Quadratic, Normal, Curvature;
    forall d: Coefficients | d != ZERO
      ensures Quadratic(Normal(points, penalty), d) > 0.0
    {
      QuadraticIsCurvature(points, penalty, d);
      CurvaturePositive(points, penalty, d);
    }
  }

  lemma PositiveFactor(a: real, b: real)
    requires a > 0.0 && Prod(b, a) > 0.0
    ensures b > 0.0
  {
    if b < 0.0 {
      ProdSign(a, b);
    }
  }

  lemma Quadratic2(m: Matrix)
    ensures Quadratic(m, Coefficients(0.0, 0.0, 1.0)) == m.ii
    ensures Quadratic(m, Coefficients(0.0, 1.0, 0.0)) == m.uu
    ensures Quadratic(m, Coefficients(0.0, m.ii, -m.ui)) == Prod(Determinant2(m.uu, m.ui, m.ii), m.ii)
    ensures Quadratic(m, Coefficients(m.ii, 0.0, -m.ci)) == Prod(Determinant2(m.cc, m.ci, m.ii), m.ii)
    ensures Quadratic(m, Coefficients(-m.cu, m.cc, 0.0)) == Prod(Determinant2(m.cc, m.cu, m.uu), m.cc)
    ensures Quadratic(m, Coefficients(1.0, 0.0, 0.0)) == m.cc
  {
  }

  /** The principal minors of order one and two are positive. */
  lemma MinorsPositive(m: Matrix)
    requires PositiveDefinite(m)
    ensures m.cc > 0.0 && m.uu > 0.0 && m.ii > 0.0
    ensures Determinant2(m.uu, m.ui, m.ii) > 0.0 && Determinant2(m.cc, m.ci, m.ii) > 0.0
    ensures Determinant2(m.cc, m.cu, m.uu) > 0.0
  {
    hide Quadratic, Determinant2, Prod;
    Quadratic2(m);
    PositiveFactor(m.ii, Determinant2(m.uu, m.ui, m.ii));
    PositiveFactor(m.ii, Determinant2(m.cc, m.ci, m.ii));
    PositiveFactor(m.cc, Determinant2(m.cc, m.cu, m.uu));
  }

  /** Row by row, the matrix times its cofactors is the determinant times the identity. */
  lemma CofactorsFirst(m: Matrix)
    ensures var k := Adjugate(m);
            && Prod(m.cc, k.cu) + Prod(m.cu, k.uu) + Prod(m.ci, k.ui) == 0.0
            && Prod(m.cc, k.ci) + Prod(m.cu, k.ui) + Prod(m.ci, k.ii) == 0.0
  {
  }

  lemma CofactorsSecond(m: Matrix)
    ensures var k := Adjugate(m);
            && Prod(m.cu, k.cc) + Prod(m.uu, k.cu) + Prod(m.ui, k.ci) == 0.0
            && Prod(m.cu, k.cu) + Prod(m.uu, k.uu) + Prod(m.ui, k.ui) == Determinant(m)
            && Prod(m.cu, k.ci) + Prod(m.uu, k.ui) + Prod(m.ui, k.ii) == 0.0
  {
  }

  lemma CofactorsThird(m: Matrix)
    ensures var k := Adjugate(m);
            && Prod(m.ci, k.cc) + Prod(m.ui, k.cu) + Prod(m.ii, k.ci) == 0.0
            && Prod(m.ci, k.cu) + Prod(m.ui, k.uu) + Prod(m.ii, k.ui) == 0.0
            && Prod(m.ci, k.ci) + Prod(m.ui, k.ui) + Prod(m.ii, k.ii) == Determinant(m)
  {
  }

  lemma DeterminantPositive(m: Matrix)
    requires PositiveDefinite(m)
    ensures Determinant(m) > 0.0
  {
    hide Prod, Determinant;
    MinorsPositive(m);
    CofactorsFirst(m);
    CofactorsSecond(m);
    CofactorsThird(m);
    var k := Adjugate(m);
    var d := Coefficients(k.ci, k.ui, k.ii);
    assert Apply(m, d) == Coefficients(0.0, 0.0, Determinant(m));
    ProdOne(k.ci);
    ProdOne(k.ui);
    assert Quadratic(m, d) == Prod(Determinant(m), k.ii);
    PositiveFactor(k.ii, Determinant(m));
  }

  // ---- the solvers ----

  lemma ProdCancel(d: real, a: real, b: real)
    requires d != 0.0 && Prod(d, a) == Prod(d, b)
    ensures a == b
  {
    assert d * (a - b) == 0.0;
    if a > b {
      ProdSign(a - b, d);
    } else if a < b {
      ProdSign(b - a, d);
    }
  }

  lemma Quotient(k: real, d: real)
    requires d != 0.0
    ensures Prod(d, k / d) == k
  {
  }

  /** A row applied to m's adjugate applied to x, by the entries of x. */
  lemma RowTimesAdjugate(a: real, b: real, c: real, k: Matrix, x: Coefficients)
    ensures var y := Apply(k, x);
            Dot(a, b, c, y) == Prod(Prod(a, k.cc) + Prod(b, k.cu) + Prod(c, k.ci), x.compute)
                               + Prod(Prod(a, k.cu) + Prod(b, k.uu) + Prod(c, k.ui), x.upsert)
                               + Prod(Prod(a, k.ci) + Prod(b, k.ui) + Prod(c, k.ii), x.intercept)
  {
    hide Prod;
    DotScale(a, k.cc, k.cu, k.ci, x);
    DotScale(b, k.cu, k.uu, k.ui, x);
    DotScale(c, k.ci, k.ui, k.ii, x);
    DotAdd(Prod(a, k.cc), Prod(a, k.cu), Prod(a, k.ci), Prod(b, k.cu), Prod(b, k.uu), Prod(b, k.ui), x);
    DotAdd(Prod(a, k.cc) + Prod(b, k.cu), Prod(a, k.cu) + Prod(b, k.uu), Prod(a, k.ci) + Prod(b, k.ui),
           Prod(c, k.ci), Prod(c, k.ui), Prod(c, k.ii), x);
  }

  lemma AdjugateSolves(m: Matrix, x: Coefficients)
    ensures Apply(m, Apply(Adjugate(m), x)) == Scaled(Determinant(m), x)
  {
    hide Prod;
    var k := Adjugate(m);
    CofactorsFirst(m);
    CofactorsSecond(m);
    CofactorsThird(m);
    hide Adjugate;
    ProdOne(x.compute);
    ProdOne(x.upsert);
    ProdOne(x.intercept);
    RowTimesAdjugate(m.cc, m.cu, m.ci, k, x);
    RowTimesAdjugate(m.cu, m.uu, m.ui, k, x);
    RowTimesAdjugate(m.ci, m.ui, m.ii, k, x);
  }

  lemma DotScaled(a: real, b: real, c: real, t: real, d: Coefficients)
    ensures Dot(a, b, c, Scaled(t, d)) == Prod(t, Dot(a, b, c, d))
  {
    hide Prod;
    ScalePart(a, t, d.compute);
    ScalePart(b, t, d.upsert);
    ScalePart(c, t, d.intercept);
    ProdAdd(t, Prod(a, d.compute) + Prod(b, d.upsert), Prod(c, d.intercept));
    ProdAdd(t, Prod(a, d.compute), Prod(b, d.upsert));
  }

  lemma ApplyMinus(m: Matrix, v: Coefficients, r: Coefficients)
    ensures Apply(m, Minus(v, r)) == Minus(Apply(m, v), Apply(m, r))
  {
    hide Dot;
    DotMinus(m.cc, m.cu, m.ci, v, r);
    DotMinus(m.cu, m.uu, m.ui, v, r);
    DotMinus(m.ci, m.ui, m.ii, v, r);
  }

  /** The solver finds the one solution of a positive definite system: it never reports a singular matrix. */
  lemma Solve3Unique(m: Matrix, rhs: Coefficients)
    requires PositiveDefinite(m)
    ensures Solve3(m, rhs).Some?
    ensures forall v: Coefficients :: Apply(m, v) == rhs <==> v == Solve3(m, rhs).value
  {
    hide Apply, Adjugate, Determinant, Quadratic, Dot, Prod;
    DeterminantPositive(m);
    var d, k, w := Determinant(m), Apply(Adjugate(m), rhs), Solve3(m, rhs).value;
    Quotient(k.compute, d);
    Quotient(k.upsert, d);
    Quotient(k.intercept, d);
    assert Scaled(d, w) == k;
    AdjugateSolves(m, rhs);
    SolutionScales(m, w, d, rhs);
    forall v: Coefficients | Apply(m, v) == rhs
      ensures v == w
    {
      SameImage(m, v, w);
    }
  }

  lemma SolutionScales(m: Matrix, w: Coefficients, d: real, rhs: Coefficients)
    requires d != 0.0 && Apply(m, Scaled(d, w)) == Scaled(d, rhs)
    ensures Apply(m, w) == rhs
  {
    hide Dot, Prod;
    DotScaled(m.cc, m.cu, m.ci, d, w);
    DotScaled(m.cu, m.uu, m.ui, d, w);
    DotScaled(m.ci, m.ui, m.ii, d, w);
    var t := Apply(m, w);
    ProdCancel(d, t.compute, rhs.compute);
    ProdCancel(d, t.upsert, rhs.upsert);
    ProdCancel(d, t.intercept, rhs.intercept);
  }

  lemma SameImage(m: Matrix, v: Coefficients, w: Coefficients)
    requires PositiveDefinite(m) && Apply(m, v) == Apply(m, w)
    ensures v == w
  {
    hide Dot, Prod, Apply;
    ApplyMinus(m, v, w);
    var d := Minus(v, w);
    AtZero(m, d);
    assert Apply(m, d) == ZERO;
    assert Quadratic(m, d) == 0.0;
  }

  lemma Solve2Right(a: real, b: real, c: real, p: real, q: real)
    requires Determinant2(a, b, c) != 0.0
    ensures var s := Solve2(a, b, c, p, q).value;
            Prod(a, s.0) + Prod(b, s.1) == p && Prod(b, s.0) + Prod(c, s.1) == q
  {
    hide Prod, Determinant2;
    var d, s := Determinant2(a, b, c), Solve2(a, b, c, p, q).value;
    Quotient(Prod(p, c) - Prod(b, q), d);
    Quotient(Prod(a, q) - Prod(b, p), d);
    Scaled2(d, a, b, s.0, s.1, Prod(p, c) - Prod(b, q), Prod(a, q) - Prod(b, p));
    Scaled2(d, b, c, s.0, s.1, Prod(p, c) - Prod(b, q), Prod(a, q) - Prod(b, p));
    Cramer2(a, b, c, p, q);
    ProdCancel(d, Prod(a, s.0) + Prod(b, s.1), p);
    ProdCancel(d, Prod(b, s.0) + Prod(c, s.1), q);
  }

  lemma Scaled2(d: real, a: real, b: real, x: real, y: real, dx: real, dy: real)
    requires Prod(d, x) == dx && Prod(d, y) == dy
    ensures Prod(d, Prod(a, x) + Prod(b, y)) == Prod(a, dx) + Prod(b, dy)
  {
    hide Prod;
    ProdAdd(d, Prod(a, x), Prod(b, y));
    ScalePart(a, d, x);
    ScalePart(b, d, y);
  }

  lemma Cramer2(a: real, b: real, c: real, p: real, q: real)
    ensures Prod(a, Prod(p, c) - Prod(b, q)) + Prod(b, Prod(a, q) - Prod(b, p)) == Prod(Determinant2(a, b, c), p)
    ensures Prod(b, Prod(p, c) - Prod(b, q)) + Prod(c, Prod(a, q) - Prod(b, p)) == Prod(Determinant2(a, b, c), q)
  {
  }

  lemma Solve2Unique(a: real, b: real, c: real, p: real, q: real)
    requires Determinant2(a, b, c) > 0.0
    ensures Solve2(a, b, c, p, q).Some?
    ensures forall x, y :: Prod(a, x) + Prod(b, y) == p && Prod(b, x) + Prod(c, y) == q
                           <==> Solve2(a, b, c, p, q).value == (x, y)
  {
    hide Prod, Determinant2;
    Solve2Right(a, b, c, p, q);
    var s := Solve2(a, b, c, p, q).value;
    forall x, y | Prod(a, x) + Prod(b, y) == p && Prod(b, x) + Prod(c, y) == q
      ensures s == (x, y)
    {
      Eliminate(a, b, c, x, y, p, q);
      Eliminate(a, b, c, s.0, s.1, p, q);
      ProdCancel(Determinant2(a, b, c), x, s.0);
      ProdCancel(Determinant2(a, b, c), y, s.1);
    }
  }

  lemma Eliminate(a: real, b: real, c: real, x: real, y: real, p: real, q: real)
    requires Prod(a, x) + Prod(b, y) == p && Prod(b, x) + Prod(c, y) == q
    ensures Prod(Determinant2(a, b, c), x) == Prod(c, p) - Prod(b, q)
    ensures Prod(Determinant2(a, b, c), y) == Prod(a, q) - Prod(b, p)
  {
    assert c * (a * x + b * y) - b * (b * x + c * y) == (a * c - b * b) * x;
    assert a * (b * x + c * y) - b * (a * x + b * y) == (a * c - b * b) * y;
  }

  /** With positive ridge parameter, all three systems have exactly one solution and the solver finds it: the
      fallback for a failed solve is dead code. */
  lemma SystemsHaveOneSolution(points: seq<Point>, penalty: real)
    requires NonNegativeWeights(points) && penalty > 0.0
    ensures var m, rhs := Normal(points, penalty), RightSide(points);
            && Solve3(m, rhs).Some?
            && (forall v: Coefficients :: Apply(m, v) == rhs <==> v == Solve3(m, rhs).value)
            && Determinant2(m.uu, m.ui, m.ii) > 0.0 && Solve2(m.uu, m.ui, m.ii, rhs.upsert, rhs.intercept).Some?
            && (forall x, y :: Prod(m.uu, x) + Prod(m.ui, y) == rhs.upsert && Prod(m.ui, x) + Prod(m.ii, y) == rhs.intercept
                               <==> Solve2(m.uu, m.ui, m.ii, rhs.upsert, rhs.intercept).value == (x, y))
            && Determinant2(m.cc, m.ci, m.ii) > 0.0 && Solve2(m.cc, m.ci, m.ii, rhs.compute, rhs.intercept).Some?
            && (forall x, y :: Prod(m.cc, x) + Prod(m.ci, y) == rhs.compute && Prod(m.ci, x) + Prod(m.ii, y) == rhs.intercept
                               <==> Solve2(m.cc, m.ci, m.ii, rhs.compute, rhs.intercept).value == (x, y))
  {
    hide Prod, Solve3, Solve2, Determinant2, Apply, Normal, RightSide, PositiveDefinite;
    var m, rhs := Normal(points, penalty), RightSide(points);
    NormalIsPositiveDefinite(points, penalty);
    Solve3Unique(m, rhs);
    MinorsPositive(m);
    Solve2Unique(m.uu, m.ui, m.ii, rhs.upsert, rhs.intercept);
    Solve2Unique(m.cc, m.ci, m.ii, rhs.compute, rhs.intercept);
  }

  // ---- optimality ----

  /** The objective at v exceeds the one at r by twice the rise and the curvature, which only v = r brings to zero. */
  lemma AboveTangent(points: seq<Point>, penalty: real, r: Coefficients, v: Coefficients)
    requires NonNegativeWeights(points) && penalty > 0.0
    ensures Objective(points, penalty, v) >= Objective(points, penalty, r) + 2.0 * Rise(points, penalty, r, Minus(v, r))
    ensures v != r ==>
              Objective(points, penalty, v) > Objective(points, penalty, r) + 2.0 * Rise(points, penalty, r, Minus(v, r))
  {
    hide Objective, Curvature, Rise;
    Expansion(points, penalty, r, v);
    CurvaturePositive(points, penalty, Minus(v, r));
  }

  ghost predicate Stationary(points: seq<Point>, penalty: real, w: Coefficients) {
    forall col :: Slope(points, penalty, w, col) == 0.0
  }

  lemma StationaryIsMinimal(points: seq<Point>, penalty: real, w: Coefficients, v: Coefficients)
    requires NonNegativeWeights(points) && penalty > 0.0 && Stationary(points, penalty, w)
    ensures Objective(points, penalty, w) <= Objective(points, penalty, v)
    ensures v != w ==> Objective(points, penalty, w) < Objective(points, penalty, v)
  {
    hide Objective, Slope;
    AboveTangent(points, penalty, w, v);
  }

  lemma RiseOneWay(points: seq<Point>, penalty: real, r: Coefficients, d: Coefficients, clamped: Column)
    requires forall col :: col != clamped ==> Slope(points, penalty, r, col) == 0.0
    ensures Rise(points, penalty, r, d) == Prod(Slope(points, penalty, r, clamped), At(d, clamped))
  {
    hide Slope;
    match clamped
    case Compute =>
      assert Slope(points, penalty, r, Upsert) == Slope(points, penalty, r, Intercept) == 0.0;
    case Upsert =>
      assert Slope(points, penalty, r, Compute) == Slope(points, penalty, r, Intercept) == 0.0;
    case Intercept =>
      assert Slope(points, penalty, r, Compute) == Slope(points, penalty, r, Upsert) == 0.0;
  }

  /** If the free optimum w has a negative coefficient, and r is optimal among those with that coefficient at zero,
      then r is optimal among all with it non-negative. */
  lemma ClampedIsMinimal(points: seq<Point>, penalty: real, w: Coefficients, r: Coefficients, clamped: Column, v: Coefficients)
    requires NonNegativeWeights(points) && penalty > 0.0 && Stationary(points, penalty, w)
    requires At(w, clamped) < 0.0 && At(r, clamped) == 0.0 && At(v, clamped) >= 0.0
    requires forall col :: col != clamped ==> Slope(points, penalty, r, col) == 0.0
    ensures Objective(points, penalty, r) <= Objective(points, penalty, v)
    ensures v != r ==> Objective(points, penalty, r) < Objective(points, penalty, v)
  {
    hide Objective, Slope, Prod, Rise, Stationary;
    var s := Slope(points, penalty, r, clamped);
    StationaryIsMinimal(points, penalty, w, r);
    AboveTangent(points, penalty, r, w);
    AboveTangent(points, penalty, r, v);
    RiseOneWay(points, penalty, r, Minus(w, r), clamped);
    RiseOneWay(points, penalty, r, Minus(v, r), clamped);
    assert Prod(s, At(Minus(w, r), clamped)) <= 0.0 && At(Minus(w, r), clamped) < 0.0;
    SignOf(s, At(Minus(w, r), clamped));
    ProdSign(s, At(Minus(v, r), clamped));
  }

  lemma SignOf(s: real, x: real)
    requires Prod(s, x) <= 0.0 && x < 0.0
    ensures s >= 0.0
  {
    if s < 0.0 {
      ProdSign(-s, -x);
    }
  }

  lemma FullSolveIsStationary(points: seq<Point>, penalty: real, w: Coefficients)
    requires Apply(Normal(points, penalty), w) == RightSide(points)
    ensures Stationary(points, penalty, w)
  {
    hide Slope, Normal, Apply, RightSide;
    Residuals(points, penalty, w);
    forall col
      ensures Slope(points, penalty, w, col) == 0.0
    {
      match col {
        case Compute =>
        case Upsert =>
        case Intercept =>
      }
    }
  }

  lemma DotZero(a: real, b: real, c: real, x: real, y: real)
    ensures Dot(a, b, c, Coefficients(0.0, x, y)) == Prod(b, x) + Prod(c, y)
    ensures Dot(a, b, c, Coefficients(x, 0.0, y)) == Prod(a, x) + Prod(c, y)
  {
  }

  lemma ReducedSlopes(points: seq<Point>, penalty: real, x: real, y: real)
    ensures var m, rhs, r := Normal(points, penalty), RightSide(points), Coefficients(0.0, x, y);
            Prod(m.uu, x) + Prod(m.ui, y) == rhs.upsert && Prod(m.ui, x) + Prod(m.ii, y) == rhs.intercept ==>
              forall col :: col != Compute ==> Slope(points, penalty, r, col) == 0.0
    ensures var m, rhs, r := Normal(points, penalty), RightSide(points), Coefficients(x, 0.0, y);
            Prod(m.cc, x) + Prod(m.ci, y) == rhs.compute && Prod(m.ci, x) + Prod(m.ii, y) == rhs.intercept ==>
              forall col :: col != Upsert ==> Slope(points, penalty, r, col) == 0.0
  {
    hide Slope, Normal, RightSide, Prod, Dot;
    var m := Normal(points, penalty);
    Residuals(points, penalty, Coefficients(0.0, x, y));
    Residuals(points, penalty, Coefficients(x, 0.0, y));
    DotZero(m.cu, m.uu, m.ui, x, y);
    DotZero(m.ci, m.ui, m.ii, x, y);
    DotZero(m.cc, m.cu, m.ci, x, y);
  }

  /** Whenever the rule returns a solved system, full or reduced, the result is the one minimiser of the ridge
      objective over all vectors with non-negative slopes. */
  lemma SolvedIsOptimal(points: seq<Point>, penalty: real, v: Coefficients)
    requires NonNegativeWeights(points) && penalty > 0.0
    requires FitNnlsRidge(points, penalty).Solved? && Feasible(v)
    ensures var w := FitNnlsRidge(points, penalty).coefficients;
            && Feasible(w) && Objective(points, penalty, w) <= Objective(points, penalty, v)
            && (v != w ==> Objective(points, penalty, w) < Objective(points, penalty, v))
  {
    hide Prod, Solve3, Solve2, Determinant2, Apply, Normal, RightSide, Slope, Objective, Stationary;
    SystemsHaveOneSolution(points, penalty);
    var m, rhs := Normal(points, penalty), RightSide(points);
    var w := Solve3(m, rhs).value;
    FullSolveIsStationary(points, penalty, w);
    if w.compute < 0.0 {
      var s := Solve2(m.uu, m.ui, m.ii, rhs.upsert, rhs.intercept).value;
      assert s == (s.0, s.1);
      ReducedSlopes(points, penalty, s.0, s.1);
      ClampedIsMinimal(points, penalty, w, Coefficients(0.0, s.0, s.1), Compute, v);
    } else if w.upsert < 0.0 {
      var s := Solve2(m.cc, m.ci, m.ii, rhs.compute, rhs.intercept).value;
      assert s == (s.0, s.1);
      ReducedSlopes(points, penalty, s.0, s.1);
      ClampedIsMinimal(points, penalty, w, Coefficients(s.0, 0.0, s.1), Upsert, v);
    } else {
      StationaryIsMinimal(points, penalty, w, v);
    }
  }

  // ---- the weighted average ----

  lemma {:induction false} WeightTotalNonNegative(points: seq<Point>)
    requires NonNegativeWeights(points)
    ensures WeightTotal(points) >= 0.0
  {
    if points != [] {
      WeightTotalNonNegative(points[1..]);
    }
  }

  lemma {:induction false} InterceptSums(points: seq<Point>)
    ensures Gram(points, Intercept, Intercept) == WeightTotal(points)
    ensures Moment(points, Intercept) == ActualTotal(points)
  {
    if points != [] {
      InterceptSums(points[1..]);
      var p := points[0];
      ProdOne(p.actual);
      ProdOne(1.0);
      ProdOne(p.weight);
    }
  }

  function Unit(col: Column): Coefficients {
    match col
    case Compute => Coefficients(1.0, 0.0, 0.0)
    case Upsert => Coefficients(0.0, 1.0, 0.0)
    case Intercept => Coefficients(0.0, 0.0, 1.0)
  }

  function Plus(v: Coefficients, d: Coefficients): Coefficients {
    Coefficients(v.compute + d.compute, v.upsert + d.upsert, v.intercept + d.intercept)
  }

  lemma RiseUnit(points: seq<Point>, penalty: real, r: Coefficients, col: Column, t: real)
    ensures Rise(points, penalty, r, Scaled(t, Unit(col))) == Prod(t, Slope(points, penalty, r, col))
    ensures Minus(Plus(r, Scaled(t, Unit(col))), r) == Scaled(t, Unit(col))
    ensures At(Plus(r, Scaled(t, Unit(col))), col) == At(r, col) + t
    ensures forall other :: other != col ==> At(Plus(r, Scaled(t, Unit(col))), other) == At(r, other)
  {
    hide Slope;
    ProdOne(t);
  }

  lemma StepGain(s: real, k: real, t: real)
    requires k > 0.0 && s != 0.0 && t == -(s / k)
    ensures 2.0 * Prod(t, s) + Prod(Square(t), k) < 0.0
  {
    assert s == -(t * k);
    SquareSign(t);
    assert t != 0.0;
    assert t * s == -(t * t * k);
    ProdSign(Square(t), k);
  }

  /** Against a non-zero slope there is a better vector, one step along that coefficient. */
  lemma DescentStep(points: seq<Point>, penalty: real, r: Coefficients, col: Column) returns (v: Coefficients)
    requires NonNegativeWeights(points) && penalty > 0.0 && Slope(points, penalty, r, col) != 0.0
    ensures Objective(points, penalty, v) < Objective(points, penalty, r)
    ensures forall other :: other != col ==> At(v, other) == At(r, other)
    ensures Slope(points, penalty, r, col) < 0.0 ==> At(v, col) >= At(r, col)
  {
    hide Slope, Objective, Curvature, Prod, Rise, Scaled, Minus, Plus, Square;
    var s, k := Slope(points, penalty, r, col), Curvature(points, penalty, Unit(col));
    CurvaturePositive(points, penalty, Unit(col));
    var t := -(s / k);
    if s < 0.0 {
      StepUp(s, k);
    }
    v := Plus(r, Scaled(t, Unit(col)));
    RiseUnit(points, penalty, r, col, t);
    Expansion(points, penalty, r, v);
    CurvatureScales(points, penalty, t, Unit(col));
    StepGain(s, k, t);
  }

  lemma StepUp(s: real, k: real)
    requires s < 0.0 && k > 0.0
    ensures -(s / k) >= 0.0
  {
  }

  lemma Beaten(points: seq<Point>, penalty: real, r: Coefficients, col: Column)
    requires NonNegativeWeights(points) && penalty > 0.0 && Feasible(r)
    requires Slope(points, penalty, r, col) != 0.0 && (col != Intercept ==> Slope(points, penalty, r, col) < 0.0)
    ensures !IsMinimiser(points, penalty, r)
  {
    hide Slope, Objective;
    var v := DescentStep(points, penalty, r, col);
    assert col != Compute ==> At(v, Compute) == At(r, Compute);
    assert col != Upsert ==> At(v, Upsert) == At(r, Upsert);
    assert Feasible(v);
  }

  lemma AverageSlopes(points: seq<Point>, penalty: real)
    requires WeightTotal(points) != 0.0
    ensures var mean := ActualTotal(points) / WeightTotal(points);
            var a := Coefficients(0.0, 0.0, mean);
            && Slope(points, penalty, a, Intercept) == Prod(penalty, mean)
            && (ActualTotal(points) == 0.0 ==>
                  && Slope(points, penalty, a, Compute) == -Moment(points, Compute)
                  && Slope(points, penalty, a, Upsert) == -Moment(points, Upsert))
  {
    hide Prod, Gram, Moment, Slope, WeightTotal, ActualTotal;
    var total := WeightTotal(points);
    var mean := ActualTotal(points) / total;
    var a := Coefficients(0.0, 0.0, mean);
    Residuals(points, penalty, a);
    InterceptSums(points);
    var m := Normal(points, penalty);
    DotLast(m.cc, m.cu, m.ci, mean);
    DotLast(m.cu, m.uu, m.ui, mean);
    DotLast(m.ci, m.ui, m.ii, mean);
    ProdAdd(mean, total, penalty);
    ProdSwap(total, mean);
    Quotient(ActualTotal(points), total);
    ProdSwap(penalty, mean);
    ProdOne(m.ci);
    ProdOne(m.ui);
  }

  lemma DotLast(a: real, b: real, c: real, z: real)
    ensures Dot(a, b, c, Coefficients(0.0, 0.0, z)) == Prod(c, z)
  {
  }

  /** Exactly when the weighted-average fallback is still the ridge optimum: the weighted durations cancel out and
      neither estimate correlates positively with them.  (The penalty also shrinks the intercept; the average
      does not.) */
  lemma AveragedIsOptimalExactly(points: seq<Point>, penalty: real)
    requires NonNegativeWeights(points) && penalty > 0.0
    requires FitNnlsRidge(points, penalty).Averaged?
    ensures IsMinimiser(points, penalty, FitNnlsRidge(points, penalty).coefficients)
            <==> ActualTotal(points) == 0.0 && Moment(points, Compute) <= 0.0 && Moment(points, Upsert) <= 0.0
  {
    hide Prod, Gram, Moment, Slope, WeightTotal, ActualTotal, Objective, Solve3, Solve2, Normal, RightSide;
    var total := WeightTotal(points);
    var mean := ActualTotal(points) / total;
    var a := Coefficients(0.0, 0.0, mean);
    assert FitNnlsRidge(points, penalty) == Averaged(a) && total != 0.0;
    AverageSlopes(points, penalty);
    if ActualTotal(points) != 0.0 {
      NonZeroShrink(ActualTotal(points), total, penalty);
      Beaten(points, penalty, a, Intercept);
    } else {
      if Moment(points, Compute) > 0.0 {
        Beaten(points, penalty, a, Compute);
      }
      if Moment(points, Upsert) > 0.0 {
        Beaten(points, penalty, a, Upsert);
      }
    }
    if ActualTotal(points) == 0.0 && Moment(points, Compute) <= 0.0 && Moment(points, Upsert) <= 0.0 {
      assert mean == 0.0;
      ProdOne(penalty);
      forall v: Coefficients | Feasible(v)
        ensures Objective(points, penalty, a) <= Objective(points, penalty, v)
      {
        FlatOrRising(points, penalty, a, v);
      }
    }
  }

  lemma NonZeroShrink(actual: real, total: real, penalty: real)
    requires actual != 0.0 && total != 0.0 && penalty > 0.0
    ensures Prod(penalty, actual / total) != 0.0
  {
    var mean := actual / total;
    assert mean * total == actual;
    if mean > 0.0 {
      ProdSign(penalty, mean);
    } else {
      assert mean != 0.0;
      ProdSign(penalty, mean);
    }
  }

  lemma FlatOrRising(points: seq<Point>, penalty: real, a: Coefficients, v: Coefficients)
    requires NonNegativeWeights(points) && penalty > 0.0 && a == ZERO && Feasible(v)
    requires Slope(points, penalty, a, Compute) >= 0.0 && Slope(points, penalty, a, Upsert) >= 0.0
    requires Slope(points, penalty, a, Intercept) == 0.0
    ensures Objective(points, penalty, a) <= Objective(points, penalty, v)
  {
    hide Prod, Slope, Objective;
    AboveTangent(points, penalty, a, v);
    MinusZero(v);
    ProdSign(Slope(points, penalty, a, Compute), v.compute);
    ProdSign(Slope(points, penalty, a, Upsert), v.upsert);
    ProdOne(v.intercept);
  }

  /** In every branch the slopes are non-negative. */
  lemma FitIsFeasible(points: seq<Point>, penalty: real)
    requires !FitNnlsRidge(points, penalty).Raises?
    ensures Feasible(FitNnlsRidge(points, penalty).coefficients)
  {
    hide Solve3, Solve2, Normal, RightSide, WeightTotal, ActualTotal;
  }

  predicate NonNegativeActuals(points: seq<Point>) {
    forall i :: 0 <= i < |points| ==> points[i].actual >= 0.0
  }

  lemma {:induction false} NothingMeasured(points: seq<Point>, col: Column)
    requires NonNegativeWeights(points) && NonNegativeActuals(points)
    ensures ActualTotal(points) >= 0.0
    ensures ActualTotal(points) == 0.0 ==> Moment(points, col) == 0.0
  {
    hide Prod, Entry;
    if points != [] {
      NothingMeasured(points[1..], col);
      var p, x := points[0], Entry(points[0], col);
      ProdSign(p.weight, p.actual);
      ScalePart(p.weight, x, p.actual);
      ProdOne(x);
    }
  }

  lemma NothingMeasuredIsSolved(points: seq<Point>, penalty: real)
    requires NonNegativeWeights(points) && penalty > 0.0 && points != [] && RightSide(points) == ZERO
    ensures FitNnlsRidge(points, penalty) == Solved(ZERO)
  {
    hide Prod, Solve3, Solve2, Normal, Apply, RightSide, PositiveDefinite, Average, Dot;
    var m := Normal(points, penalty);
    assert Solve3(m, ZERO) == Some(ZERO) by {
      NormalIsPositiveDefinite(points, penalty);
      Solve3Unique(m, ZERO);
      AtZero(m, ZERO);
    }
  }

  /** Refresh times are never negative, and for them the weighted average is never the ridge optimum. */
  lemma AveragedIsNeverOptimalForDurations(points: seq<Point>, penalty: real)
    requires NonNegativeWeights(points) && NonNegativeActuals(points) && penalty > 0.0
    requires FitNnlsRidge(points, penalty).Averaged?
    ensures !IsMinimiser(points, penalty, FitNnlsRidge(points, penalty).coefficients)
  {
    hide FitNnlsRidge, WeightTotal, ActualTotal, Moment, Objective, NonNegativeActuals;
    AveragedIsOptimalExactly(points, penalty);
    NothingMeasured(points, Compute);
    NothingMeasured(points, Upsert);
    InterceptSums(points);
    NoSamplesRaises(penalty);
    if points != [] && RightSide(points) == ZERO {
      NothingMeasuredIsSolved(points, penalty);
    }
  }

  lemma NoSamplesRaises(penalty: real)
    ensures FitNnlsRidge([], penalty).Raises?
  {
  }

  // ---- which branch is taken ----

  /** w beats every other vector, whatever the signs of its slopes. */
  ghost predicate FreeMinimiser(points: seq<Point>, penalty: real, w: Coefficients) {
    forall v: Coefficients :: Objective(points, penalty, w) <= Objective(points, penalty, v)
  }

  /** r beats every other vector that has zero in the column col. */
  ghost predicate MinimiserWithout(points: seq<Point>, penalty: real, r: Coefficients, col: Column) {
    At(r, col) == 0.0
    && forall v: Coefficients :: At(v, col) == 0.0 ==> Objective(points, penalty, r) <= Objective(points, penalty, v)
  }

  /** The minimiser of the objective, without and with one slope held at zero, is what the three systems give. */
  lemma MinimisersSolve(points: seq<Point>, penalty: real, w: Coefficients)
    requires NonNegativeWeights(points) && penalty > 0.0
    ensures var m, rhs := Normal(points, penalty), RightSide(points);
            && (FreeMinimiser(points, penalty, w) ==> Apply(m, w) == rhs)
            && (MinimiserWithout(points, penalty, w, Compute) ==>
                  Prod(m.uu, w.upsert) + Prod(m.ui, w.intercept) == rhs.upsert
                  && Prod(m.ui, w.upsert) + Prod(m.ii, w.intercept) == rhs.intercept)
            && (MinimiserWithout(points, penalty, w, Upsert) ==>
                  Prod(m.cc, w.compute) + Prod(m.ci, w.intercept) == rhs.compute
                  && Prod(m.ci, w.compute) + Prod(m.ii, w.intercept) == rhs.intercept)
  {
    hide Slope, Normal, RightSide, Prod, Dot, Objective;
    var m := Normal(points, penalty);
    Residuals(points, penalty, w);
    DotZero(m.cu, m.uu, m.ui, w.upsert, w.intercept);
    DotZero(m.ci, m.ui, m.ii, w.upsert, w.intercept);
    DotZero(m.cc, m.cu, m.ci, w.compute, w.intercept);
    DotZero(m.ci, m.ui, m.ii, w.compute, w.intercept);
    forall col | Slope(points, penalty, w, col) != 0.0
      ensures !FreeMinimiser(points, penalty, w)
      ensures forall held :: held != col ==> !MinimiserWithout(points, penalty, w, held)
    {
      var v := DescentStep(points, penalty, w, col);
    }
  }

  /** Each of the three systems gives the minimiser it stands for. */
  lemma SolutionsMinimise(points: seq<Point>, penalty: real) returns (w: Coefficients, c: Coefficients, u: Coefficients)
    requires NonNegativeWeights(points) && penalty > 0.0
    ensures FreeMinimiser(points, penalty, w)
    ensures MinimiserWithout(points, penalty, c, Compute) && MinimiserWithout(points, penalty, u, Upsert)
  {
    hide Prod, Solve3, Solve2, Determinant2, Apply, Normal, RightSide, Slope, Objective;
    SystemsHaveOneSolution(points, penalty);
    var m, rhs := Normal(points, penalty), RightSide(points);
    w := Solve3(m, rhs).value;
    FullSolveIsStationary(points, penalty, w);
    forall v: Coefficients
      ensures Objective(points, penalty, w) <= Objective(points, penalty, v)
    {
      StationaryIsMinimal(points, penalty, w, v);
    }
    var s := Solve2(m.uu, m.ui, m.ii, rhs.upsert, rhs.intercept).value;
    assert s == (s.0, s.1);
    ReducedSlopes(points, penalty, s.0, s.1);
    c := Coefficients(0.0, s.0, s.1);
    FlatIsMinimal(points, penalty, c, Compute);
    var t := Solve2(m.cc, m.ci, m.ii, rhs.compute, rhs.intercept).value;
    assert t == (t.0, t.1);
    ReducedSlopes(points, penalty, t.0, t.1);
    u := Coefficients(t.0, 0.0, t.1);
    FlatIsMinimal(points, penalty, u, Upsert);
  }

  lemma FlatIsMinimal(points: seq<Point>, penalty: real, r: Coefficients, held: Column)
    requires NonNegativeWeights(points) && penalty > 0.0 && At(r, held) == 0.0
    requires forall col :: col != held ==> Slope(points, penalty, r, col) == 0.0
    ensures MinimiserWithout(points, penalty, r, held)
  {
    hide Prod, Slope, Objective, Rise;
    forall v: Coefficients | At(v, held) == 0.0
      ensures Objective(points, penalty, r) <= Objective(points, penalty, v)
    {
      AboveTangent(points, penalty, r, v);
      RiseOneWay(points, penalty, r, Minus(v, r), held);
      ProdOne(Slope(points, penalty, r, held));
    }
  }

  lemma {:induction false} WeightlessHasNoMoments(points: seq<Point>, col: Column)
    requires NonNegativeWeights(points) && WeightTotal(points) == 0.0
    ensures Moment(points, col) == 0.0
  {
    hide Prod, Entry;
    if points != [] {
      WeightTotalNonNegative(points[1..]);
      WeightlessHasNoMoments(points[1..], col);
      ProdOne(Prod(Entry(points[0], col), points[0].actual));
    }
  }

  /** What the rule returns, told from the objective alone.  Let w be its minimiser, c its minimiser among the
      vectors without compute slope, u among those without upsert slope.  The fit is w if its slopes are
      non-negative; c if only the compute slope of w is negative and c has a non-negative upsert slope; u in the
      mirrored case; and otherwise the weighted average. */
  lemma SolvedExactly(points: seq<Point>, penalty: real, w: Coefficients, c: Coefficients, u: Coefficients)
    requires NonNegativeWeights(points) && penalty > 0.0 && points != []
    requires FreeMinimiser(points, penalty, w)
    requires MinimiserWithout(points, penalty, c, Compute) && MinimiserWithout(points, penalty, u, Upsert)
    ensures var fit := FitNnlsRidge(points, penalty);
            && (Feasible(w) ==> fit == Solved(w))
            && (w.compute < 0.0 <= w.upsert && c.upsert >= 0.0 ==> fit == Solved(c))
            && (w.upsert < 0.0 <= w.compute && u.compute >= 0.0 ==> fit == Solved(u))
            && (fit.Solved? <==> || Feasible(w)
                                 || (w.compute < 0.0 <= w.upsert && c.upsert >= 0.0)
                                 || (w.upsert < 0.0 <= w.compute && u.compute >= 0.0))
            && (!fit.Solved? ==> WeightTotal(points) > 0.0
                                 && fit == Averaged(Coefficients(0.0, 0.0, ActualTotal(points) / WeightTotal(points))))
  {
    hide Prod, Solve3, Solve2, Determinant2, Apply, Normal, RightSide, FreeMinimiser, MinimiserWithout,
         WeightTotal, ActualTotal;
    SystemsHaveOneSolution(points, penalty);
    MinimisersSolve(points, penalty, w);
    MinimisersSolve(points, penalty, c);
    MinimisersSolve(points, penalty, u);
    assert c.compute == 0.0 && u.upsert == 0.0 by {
      ZeroHeld(points, penalty, c, Compute);
      ZeroHeld(points, penalty, u, Upsert);
    }
    WeightTotalNonNegative(points);
    if WeightTotal(points) == 0.0 {
      WeightlessIsSolved(points, penalty);
    }
  }

  lemma ZeroHeld(points: seq<Point>, penalty: real, r: Coefficients, col: Column)
    requires MinimiserWithout(points, penalty, r, col)
    ensures At(r, col) == 0.0
  {
  }

  lemma WeightlessIsSolved(points: seq<Point>, penalty: real)
    requires NonNegativeWeights(points) && penalty > 0.0 && points != [] && WeightTotal(points) == 0.0
    ensures FitNnlsRidge(points, penalty) == Solved(ZERO)
  {
    hide FitNnlsRidge, Moment, WeightTotal;
    WeightlessHasNoMoments(points, Compute);
    WeightlessHasNoMoments(points, Upsert);
    WeightlessHasNoMoments(points, Intercept);
    NothingMeasuredIsSolved(points, penalty);
  }

  /** The rule always has an answer for samples, and the minimisers it is told from always exist. */
  lemma FitsSamplesExactly(points: seq<Point>, penalty: real)
    requires NonNegativeWeights(points) && penalty > 0.0
    ensures FitNnlsRidge(points, penalty).Raises? <==> points == []
    ensures exists w :: FreeMinimiser(points, penalty, w)
    ensures exists c :: MinimiserWithout(points, penalty, c, Compute)
    ensures exists u :: MinimiserWithout(points, penalty, u, Upsert)
  {
    hide FitNnlsRidge, FreeMinimiser, MinimiserWithout;
    var w, c, u := SolutionsMinimise(points, penalty);
    NoSamplesRaises(penalty);
    if points != [] {
      SolvedExactly(points, penalty, w, c, u);
    }
  }

  // ---- the simulator ----

  lemma {:induction false} PowerNonNegative(base: real, n: nat)
    requires base >= 0.0
    ensures Power(base, n) >= 0.0
  {
    if n > 0 {
      PowerNonNegative(base, n - 1);
      ProdSign(base, Power(base, n - 1));
    }
  }

  lemma {:induction false} LastWeightIsOne(points: seq<Point>)
    requires points != [] && NonNegativeWeights(points) && points[|points| - 1].weight == 1.0
    ensures WeightTotal(points) >= 1.0
  {
    if |points| == 1 {
    } else {
      LastWeightIsOne(points[1..]);
    }
  }

  function PointsOf(history: seq<Sample>, decay: real): seq<Point> {
    Weighted(history, ComputeWeights(|history|, decay))
  }

  /** The decayed weights are non-negative and never cancel out, also when old samples weigh nothing. */
  lemma WeightsAreUsable(history: seq<Sample>, decay: real)
    requires decay >= 0.0
    ensures NonNegativeWeights(PointsOf(history, decay))
    ensures history != [] ==> WeightTotal(PointsOf(history, decay)) >= 1.0
  {
    var points := PointsOf(history, decay);
    forall i | 0 <= i < |points|
      ensures points[i].weight >= 0.0
    {
      PowerNonNegative(decay, |points| - 1 - i);
    }
    if history != [] {
      assert points[|points| - 1].weight == 1.0;
      LastWeightIsOne(points);
    }
  }

  /** Predicted time, coefficients, and whether they were learned; or the error of a fit without samples. */
  datatype Prediction = Predicted(ms: real, coefficients: Coefficients, calibrated: bool) | Failed

  function Max(a: real, b: real): real {
    if b > a then b else a
  }

  function Predict(history: seq<Sample>, decay: real, minSamples: int, penalty: real, computeEst: real, upsertEst: real): Prediction {
    if |history| < minSamples then Predicted(computeEst + upsertEst, Coefficients(1.0, 1.0, 0.0), false)
    else
      match FitNnlsRidge(PointsOf(history, decay), penalty)
      case Raises => Failed
      case Solved(w) => Predicted(Max(0.0, Dot(computeEst, upsertEst, 1.0, w)), w, true)
      case Averaged(w) => Predicted(Max(0.0, Dot(computeEst, upsertEst, 1.0, w)), w, true)
  }

  /** With a non-negative decay, prediction fails only when it is asked to fit an empty history. */
  lemma PredictionSucceeds(history: seq<Sample>, decay: real, minSamples: int, penalty: real, x: real, z: real)
    requires decay >= 0.0
    ensures Predict(history, decay, minSamples, penalty, x, z).Failed? <==> history == [] && minSamples <= 0
  {
    hide Solve3, Solve2, Normal, RightSide, WeightTotal, ActualTotal, Dot;
    WeightsAreUsable(history, decay);
  }

  /** Predicted times are never negative, and never fall when an estimate grows. */
  lemma PredictionsAreMonotone(history: seq<Sample>, decay: real, minSamples: int, penalty: real,
                               x: real, z: real, x': real, z': real)
    requires 0.0 <= x <= x' && 0.0 <= z <= z'
    requires !Predict(history, decay, minSamples, penalty, x, z).Failed?
    ensures !Predict(history, decay, minSamples, penalty, x', z').Failed?
    ensures 0.0 <= Predict(history, decay, minSamples, penalty, x, z).ms
                <= Predict(history, decay, minSamples, penalty, x', z').ms
  {
    hide FitNnlsRidge, Prod;
    if |history| >= minSamples {
      var points := PointsOf(history, decay);
      FitIsFeasible(points, penalty);
      var w := FitNnlsRidge(points, penalty).coefficients;
      ProdMinus(w.compute, x', x);
      ProdMinus(w.upsert, z', z);
      ProdSign(x' - x, w.compute);
      ProdSign(z' - z, w.upsert);
    }
  }

  /** A calibrated prediction, from the objective alone: w, c and u minimise it over all vectors, over those
      without compute slope and over those without upsert slope.  The coefficients are w, c, u or the weighted
      average, whichever SolvedExactly names, and each estimate counts with its own slope. */
  lemma PredictionFollowsMinimisers(history: seq<Sample>, decay: real, minSamples: int, penalty: real, x: real, z: real,
                                    w: Coefficients, c: Coefficients, u: Coefficients)
    requires decay >= 0.0 && penalty > 0.0 && history != [] && |history| >= minSamples
    requires FreeMinimiser(PointsOf(history, decay), penalty, w)
    requires MinimiserWithout(PointsOf(history, decay), penalty, c, Compute)
    requires MinimiserWithout(PointsOf(history, decay), penalty, u, Upsert)
    ensures var p, points := Predict(history, decay, minSamples, penalty, x, z), PointsOf(history, decay);
            && WeightTotal(points) > 0.0
            && p.Predicted? && p.calibrated
            && p.coefficients == (if Feasible(w) then w
                                  else if w.compute < 0.0 <= w.upsert && c.upsert >= 0.0 then c
                                  else if w.upsert < 0.0 <= w.compute && u.compute >= 0.0 then u
                                  else Coefficients(0.0, 0.0, ActualTotal(points) / WeightTotal(points)))
            && p.ms == Max(0.0, p.coefficients.compute * x + p.coefficients.upsert * z + p.coefficients.intercept)
  {
    hide FitNnlsRidge, FreeMinimiser, MinimiserWithout, WeightTotal, ActualTotal;
    var points := PointsOf(history, decay);
    WeightsAreUsable(history, decay);
    SolvedExactly(points, penalty, w, c, u);
  }

  /** On an estimate that was recorded the prediction misses by the error that the objective counts for it, as far
      as it is not cut off at zero. */
  lemma PredictionErrorIsCounted(history: seq<Sample>, decay: real, minSamples: int, penalty: real, i: nat)
    requires decay >= 0.0 && i < |history| && |history| >= minSamples
    ensures var p := Predict(history, decay, minSamples, penalty, history[i].compute, history[i].upsert);
            && p.Predicted?
            && p.ms == Max(0.0, history[i].actual + Error(PointsOf(history, decay)[i], p.coefficients))
  {
    hide FitNnlsRidge, Dot;
    PredictionSucceeds(history, decay, minSamples, penalty, history[i].compute, history[i].upsert);
  }

  /** Python's history[-window:]; minus zero is zero, so a zero window keeps the whole list. */
  function Tail(history: seq<Sample>, window: int): seq<Sample> {
    if window > 0 then (if |history| <= window then history else history[|history| - window..])
    else if window == 0 then history
    else if -window <= |history| then history[-window..] else []
  }

  function Recorded(history: seq<Sample>, s: Sample, window: int): seq<Sample> {
    var longer := history + [s];
    if |longer| > window then Tail(longer, window) else longer
  }

  datatype Call = Record(sample: Sample) | PredictCall(computeEst: real, upsertEst: real) | Reset

  /** The history after a run of calls. */
  function HistoryAfter(calls: seq<Call>, window: int): seq<Sample> {
    if calls == [] then []
    else
      var before := HistoryAfter(calls[..|calls| - 1], window);
      match calls[|calls| - 1]
      case Record(s) => Recorded(before, s, window)
      case PredictCall(_, _) => before
      case Reset => []
  }

  /** Everything recorded since the last reset. */
  function RecordedSinceReset(calls: seq<Call>): seq<Sample> {
    if calls == [] then []
    else
      var before := RecordedSinceReset(calls[..|calls| - 1]);
      match calls[|calls| - 1]
      case Record(s) => before + [s]
      case PredictCall(_, _) => before
      case Reset => []
  }

  /** The last n elements, all of them if there are fewer. */
  function Last(samples: seq<Sample>, n: int): seq<Sample> {
    if n <= 0 then [] else if |samples| <= n then samples else samples[|samples| - n..]
  }

  lemma {:induction false} HistoryIsWindow(calls: seq<Call>, window: int)
    requires window != 0
    ensures HistoryAfter(calls, window) == Last(RecordedSinceReset(calls), window)
  {
    if calls != [] {
      var before := calls[..|calls| - 1];
      HistoryIsWindow(before, window);
      if calls[|calls| - 1].Record? {
        WindowStep(RecordedSinceReset(before), calls[|calls| - 1].sample, window);
      }
    }
  }

  lemma WindowStep(log: seq<Sample>, s: Sample, window: int)
    requires window != 0
    ensures Recorded(Last(log, window), s, window) == Last(log + [s], window)
  {
  }

  lemma {:induction false} ZeroWindowKeepsAll(calls: seq<Call>)
    ensures HistoryAfter(calls, 0) == RecordedSinceReset(calls)
  {
    if calls != [] {
      ZeroWindowKeepsAll(calls[..|calls| - 1]);
    }
  }

  /** After any run the history is the last `window` samples recorded since the last reset - unless the window
      is zero, when nothing is ever dropped. */
  lemma HistoryIsWindowExactly(calls: seq<Call>, window: int)
    ensures HistoryAfter(calls, window) == Last(RecordedSinceReset(calls), window)
            <==> window != 0 || RecordedSinceReset(calls) == []
  {
    if window == 0 {
      ZeroWindowKeepsAll(calls);
    } else {
      HistoryIsWindow(calls, window);
    }
  }

  class CostModelSimulator {
    const decay: real
    const window: int
    const minSamples: int
    const ridgeLambda: real
    var history: seq<Sample>

    /** Every call made so far. */
    ghost var calls: seq<Call>

    ghost predicate Valid()
      reads this
    {
      history == HistoryAfter(calls, window)
    }

    constructor (decay: real := 0.9, window: int := 20, minSamples: int := 3, ridgeLambda: real := 0.0001)
      ensures Valid() && calls == []
      ensures this.decay == decay && this.window == window && this.minSamples == minSamples && this.ridgeLambda == ridgeLambda
    {
      this.decay := decay;
      this.window := window;
      this.minSamples := minSamples;
      this.ridgeLambda := ridgeLambda;
      history := [];
      calls := [];
    }

    method RecordSample(computeEst: real, upsertEst: real, actualMs: real)
      requires Valid()
      modifies this
      ensures Valid() && calls == old(calls) + [Record(Sample(computeEst, upsertEst, actualMs))]
      ensures history == Recorded(old(history), Sample(computeEst, upsertEst, actualMs), window)
    {
      history := history + [Sample(computeEst, upsertEst, actualMs)];
      if |history| > window {
        history := Tail(history, window);
      }
      calls := calls + [Record(Sample(computeEst, upsertEst, actualMs))];
    }

    method PredictTime(computeEst: real, upsertEst: real) returns (p: Prediction)
      requires Valid()
      modifies this`calls
      ensures Valid() && calls == old(calls) + [PredictCall(computeEst, upsertEst)]
      ensures p == Predict(history, decay, minSamples, ridgeLambda, computeEst, upsertEst)
    {
      hide FitNnlsRidge;
      calls := calls + [PredictCall(computeEst, upsertEst)];
      if |history| < minSamples {
        return Predicted(computeEst + upsertEst, Coefficients(1.0, 1.0, 0.0), false);
      }
      var weights := ComputeWeights(|history|, decay);
      var fit := FitNnlsRidge(Weighted(history, weights), ridgeLambda);
      if fit.Raises? {
        return Failed;
      }
      var w := fit.coefficients;
      var ms := Prod(computeEst, w.compute) + Prod(upsertEst, w.upsert) + Prod(1.0, w.intercept);
      p := Predicted(Max(0.0, ms), w, true);
    }

    method ResetHistory()
      requires Valid()
      modifies this
      ensures Valid() && history == [] && calls == old(calls) + [Reset]
    {
      history := [];
      calls := calls + [Reset];
    }
  }
}
