/** AVG, STDDEV and VARIANCE: definitions, and the formulas over stored columns. */
module DerivedAggregates {
  import opened SqlValues

  function Total(xs: seq<real>): real {
    if xs == [] then 0.0 else xs[0] + Total(xs[1..])
  }

  function SquareTotal(xs: seq<real>): real {
    if xs == [] then 0.0 else xs[0] * xs[0] + SquareTotal(xs[1..])
  }

  function DeviationTotal(xs: seq<real>, mean: real): real {
    if xs == [] then 0.0 else (xs[0] - mean) * (xs[0] - mean) + DeviationTotal(xs[1..], mean)
  }

  /** The aggregate functions the rewrite tells apart by name. */
  datatype AggName =
    | CountStar | Count | Sum | Avg
    | Stddev | StddevSamp | StddevPop | Variance | VarSamp | VarPop
    | List
    | OtherName(spelling: string)

  predicate IsStddevOrVariance(name: AggName) {
    name.Stddev? || name.StddevSamp? || name.StddevPop? || name.Variance? || name.VarSamp? || name.VarPop?
  }

  predicate IsPopulationVariant(name: AggName) {
    name.StddevPop? || name.VarPop?
  }

  predicate IsStddevVariant(name: AggName) {
    name.Stddev? || name.StddevSamp? || name.StddevPop?
  }

  predicate IsDerivedName(name: AggName) {
    name.Avg? || IsStddevOrVariance(name)
  }

  /** The mean, or the root of the mean squared deviation, of the non-null values: NULL on an empty bag,
      and for the sample forms NULL on a single value. */
  function DerivedValue(name: AggName, xs: seq<real>, root: real -> real): Value
    requires IsDerivedName(name)
  {
    if name.Avg? then
      if xs == [] then Null else Num(Mean(xs))
    else
      var divisor := if IsPopulationVariant(name) then |xs| else |xs| - 1;
      if divisor <= 0 then Null
      else
        var v := DeviationTotal(xs, Mean(xs)) / divisor as real;
        Num(if IsStddevVariant(name) then root(v) else v)
  }

  /** What the stored columns hold for a bag. */
  datatype Hidden = Hidden(sum: Value, sumSq: Value, count: Value)

  function HiddenOf(xs: seq<real>): Hidden {
    Hidden(if xs == [] then Null else Num(Total(xs)),
           if xs == [] then Null else Num(SquareTotal(xs)),
           Num(|xs| as real))
  }

  function NumeratorOf(h: Hidden): Value {
    Sub(h.sumSq, Div(Mul(h.sum, h.sum), h.count))
  }

  function VarianceOf(name: AggName, h: Hidden): Value {
    Div(NumeratorOf(h), if IsPopulationVariant(name) then h.count else Sub(h.count, Num(1.0)))
  }

  function Threshold(name: AggName): real {
    if IsPopulationVariant(name) then 0.0 else 1.0
  }

  /** The replacement expression, as a function of the values in its columns. */
  function Rebuilt(name: AggName, h: Hidden, root: real -> real): Value
    requires IsDerivedName(name)
  {
    if name.Avg? then Div(h.sum, h.count)
    else if !IsTrue(Greater(h.count, Num(Threshold(name)))) then Null
    else if IsStddevVariant(name) then Sqrt(root, VarianceOf(name, h))
    else VarianceOf(name, h)
  }

  /** The total of a*x + b over the bag. */
  function AffineTotal(xs: seq<real>, a: real, b: real): real {
    if xs == [] then 0.0 else Affine(a, b, xs[0]) + AffineTotal(xs[1..], a, b)
  }

  function Affine(a: real, b: real, x: real): real {
    a * x + b
  }

  lemma AffineStep(a: real, b: real, x: real, s: real, n: real)
    ensures Affine(a, b, x) + (a * s + b * n) == a * (x + s) + b * (n + 1.0)
  {
  }

  lemma {:induction false} AffineTotalIs(xs: seq<real>, a: real, b: real)
    ensures AffineTotal(xs, a, b) == a * Total(xs) + b * (|xs| as real)
  {
    if xs != [] {
      AffineTotalIs(xs[1..], a, b);
      AffineStep(a, b, xs[0], Total(xs[1..]), |xs[1..]| as real);
      assert |xs| as real == |xs[1..]| as real + 1.0;
    }
  }

  lemma DeviationStep(x: real, m: real)
    ensures (x - m) * (x - m) == x * x + Affine(-2.0 * m, m * m, x)
  {
  }

  lemma {:induction false} DeviationExpands(xs: seq<real>, m: real, a: real, b: real)
    requires a == -2.0 * m && b == m * m
    ensures DeviationTotal(xs, m) == SquareTotal(xs) + AffineTotal(xs, a, b)
  {
    if xs != [] {
      DeviationExpands(xs[1..], m, a, b);
      DeviationStep(xs[0], m);
    }
  }

  lemma SquareNonNegative(x: real)
    ensures x * x >= 0.0
  {
  }

  lemma {:induction false} DeviationNonNegative(xs: seq<real>, mean: real)
    ensures DeviationTotal(xs, mean) >= 0.0
  {
    if xs != [] {
      DeviationNonNegative(xs[1..], mean);
      SquareNonNegative(xs[0] - mean);
    }
  }

  lemma MeanStep(s: real, n: real, m: real, a: real, b: real)
    requires n > 0.0 && m == s / n && a == -2.0 * m && b == m * m
    ensures a * s + b * n == -(s * s / n)
  {
    assert s == m * n;
    assert b * n == m * (m * n) == m * s;
    assert a * s == -2.0 * (m * s);
    Cancel(m, n, s);
  }

  lemma Cancel(m: real, n: real, s: real)
    requires n != 0.0 && s == m * n
    ensures s * s / n == m * s
  {
    assert s * s == (m * s) * n;
    var k := m * s;
    assert (k * n) / n == k;
  }

  function Mean(xs: seq<real>): real {
    if xs == [] then 0.0 else Total(xs) / |xs| as real
  }

  /** The numerator of the formula over sum, sum of squares and count. */
  function Numerator(sum: real, sumSq: real, n: real): real
    requires n != 0.0
  {
    sumSq - sum * sum / n
  }

  lemma NumeratorStep(s: real, q: real, n: real, m: real, a: real, b: real, affine: real, deviation: real)
    requires n > 0.0 && m == s / n && a == -2.0 * m && b == m * m
    requires affine == a * s + b * n && deviation == q + affine
    ensures Numerator(s, q, n) == deviation
  {
    MeanStep(s, n, m, a, b);
  }

  lemma NumeratorAt(xs: seq<real>, m: real, a: real, b: real)
    requires xs != [] && m == Total(xs) / |xs| as real && a == -2.0 * m && b == m * m
    ensures Numerator(Total(xs), SquareTotal(xs), |xs| as real) == DeviationTotal(xs, m) >= 0.0
  {
    hide Total, SquareTotal, DeviationTotal, AffineTotal, Numerator;
    DeviationNonNegative(xs, m);
    DeviationExpands(xs, m, a, b);
    AffineTotalIs(xs, a, b);
    NumeratorStep(Total(xs), SquareTotal(xs), |xs| as real, m, a, b, AffineTotal(xs, a, b), DeviationTotal(xs, m));
  }

  /** The sum of squares minus the square of the sum over n is the sum of the squared deviations from the mean;
      so it is never negative, and the square root is always defined. */
  lemma NumeratorIsDeviation(xs: seq<real>)
    requires xs != []
    ensures Numerator(Total(xs), SquareTotal(xs), |xs| as real) == DeviationTotal(xs, Mean(xs))
    ensures DeviationTotal(xs, Mean(xs)) >= 0.0
  {
    hide Total, SquareTotal, DeviationTotal, Numerator;
    NumeratorAt(xs, Mean(xs), -2.0 * Mean(xs), Mean(xs) * Mean(xs));
  }

  /** The definitions, name by name. */
  lemma DefinitionsByName(xs: seq<real>, root: real -> real)
    ensures DerivedValue(Avg, xs, root) == if xs == [] then Null else Num(Total(xs) / |xs| as real)
    ensures DerivedValue(VarPop, xs, root)
            == if xs == [] then Null else Num(DeviationTotal(xs, Total(xs) / |xs| as real) / |xs| as real)
    ensures DerivedValue(VarSamp, xs, root)
            == if |xs| <= 1 then Null else Num(DeviationTotal(xs, Total(xs) / |xs| as real) / (|xs| - 1) as real)
    ensures DerivedValue(Variance, xs, root) == DerivedValue(VarSamp, xs, root)
    ensures DerivedValue(StddevPop, xs, root)
            == if xs == [] then Null else Num(root(DeviationTotal(xs, Total(xs) / |xs| as real) / |xs| as real))
    ensures DerivedValue(StddevSamp, xs, root)
            == if |xs| <= 1 then Null else Num(root(DeviationTotal(xs, Total(xs) / |xs| as real) / (|xs| - 1) as real))
    ensures DerivedValue(Stddev, xs, root) == DerivedValue(StddevSamp, xs, root)
  {
    hide Total, DeviationTotal;
  }

  /** The formula over the stored columns is the definition, for every bag of numbers: same value, NULL in the same
      cases, and never the root of a negative number. */
  lemma RebuiltIsDefinition(name: AggName, xs: seq<real>, root: real -> real)
    requires IsDerivedName(name)
    ensures Rebuilt(name, HiddenOf(xs), root) == DerivedValue(name, xs, root)
  {
    if xs != [] && !name.Avg? {
      NumeratorIsDeviation(xs);
      FormulaValue(name, Total(xs), SquareTotal(xs), |xs|, DeviationTotal(xs, Mean(xs)), root);
    }
  }

  lemma NumeratorOnNumbers(s: real, q: real, n: real)
    requires n != 0.0
    ensures NumeratorOf(Hidden(Num(s), Num(q), Num(n))) == Num(Numerator(s, q, n))
  {
  }

  /** The formula on non-empty bags, with the numerator named. */
  lemma FormulaValue(name: AggName, s: real, q: real, n: nat, d: real, root: real -> real)
    requires IsStddevOrVariance(name) && n > 0
    requires Numerator(s, q, n as real) == d >= 0.0
    ensures var divisor := if IsPopulationVariant(name) then n else n - 1;
            Rebuilt(name, Hidden(Num(s), Num(q), Num(n as real)), root)
            == if divisor <= 0 then Null
               else Num(if IsStddevVariant(name) then root(d / divisor as real) else d / divisor as real)
  {
    hide Numerator, NumeratorOf;
    var divisor := if IsPopulationVariant(name) then n else n - 1;
    var h := Hidden(Num(s), Num(q), Num(n as real));
    NumeratorOnNumbers(s, q, n as real);
    assert (if IsPopulationVariant(name) then h.count else Sub(h.count, Num(1.0))) == Num(divisor as real);
    if divisor > 0 {
      QuotientNonNegative(d, divisor as real);
      assert VarianceOf(name, h) == Num(d / divisor as real);
    }
  }

  lemma QuotientNonNegative(a: real, b: real)
    requires a >= 0.0 && b > 0.0
    ensures a / b >= 0.0
  {
  }
}
