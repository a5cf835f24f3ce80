/** Z-sets: multisets whose multiplicities are integers.

    A delta table is a list of rows, each with a signed multiplicity; the rows may repeat
    and the list is not compacted.  Two lists mean the same change when every test function
    sums to the same total over them, which is the same as giving every row the same
    multiplicity (EquivIsPointwise). */
module ZSets {

  datatype Entry<T> = Entry(row: T, weight: int)

  type ZSet<T> = seq<Entry<T>>

  /** The total of g over the rows of z, each counted with its multiplicity. */
  ghost function Sum<T>(z: ZSet<T>, g: T -> int): int {
    if z == [] then 0 else z[0].weight * g(z[0].row) + Sum(z[1..], g)
  }

  /** The net multiplicity of one row. */
  ghost function Weight<T>(z: ZSet<T>, row: T): int {
    Sum(z, Indicator(row))
  }

  ghost function Indicator<T>(row: T): T -> int {
    r => if r == row then 1 else 0
  }

  /** c is the combination k*a + m*b, whichever way it is written down. */
  ghost predicate Combination<T(!new)>(c: ZSet<T>, k: int, a: ZSet<T>, m: int, b: ZSet<T>) {
    forall g: T -> int :: Sum(c, g) == k * Sum(a, g) + m * Sum(b, g)
  }

  ghost predicate Equiv<T(!new)>(a: ZSet<T>, b: ZSet<T>) {
    forall g: T -> int :: Sum(a, g) == Sum(b, g)
  }

  /** All the multiplicities are positive, as in the rows of a table or an insert-only delta. */
  ghost predicate Positive<T>(z: ZSet<T>) {
    forall i :: 0 <= i < |z| ==> z[i].weight > 0
  }

  function Scale<T>(k: int, z: ZSet<T>): ZSet<T> {
    if z == [] then [] else [Entry(z[0].row, k * z[0].weight)] + Scale(k, z[1..])
  }

  // ---- sums ----

  lemma SumEmpty<T>(g: T -> int)
    ensures Sum([], g) == 0
  {
  }

  lemma Unchanged<T(!new)>(z: ZSet<T>)
    ensures Combination(z, 1, z, -1, []) && Combination([], 1, z, -1, z)
  {
  }

  lemma {:induction false} SumAppend<T>(a: ZSet<T>, b: ZSet<T>, g: T -> int)
    ensures Sum(a + b, g) == Sum(a, g) + Sum(b, g)
  {
    if a == [] {
      assert a + b == b;
    } else {
      assert (a + b)[0] == a[0] && (a + b)[1..] == a[1..] + b;
      SumAppend(a[1..], b, g);
    }
  }

  lemma {:induction false} SumScale<T>(k: int, z: ZSet<T>, g: T -> int)
    ensures Sum(Scale(k, z), g) == k * Sum(z, g)
  {
    if z != [] {
      SumScale(k, z[1..], g);
      var s := Scale(k, z);
      assert s[1..] == Scale(k, z[1..]);
      Distribute(k, z[0].weight, g(z[0].row), Sum(z[1..], g));
    }
  }

  lemma Distribute(k: int, w: int, x: int, rest: int)
    ensures (k * w) * x + k * rest == k * (w * x + rest)
  {
  }

  /** A sum depends on g through its values only, and linearly. */
  lemma {:induction false} SumLinear<T(!new)>(z: ZSet<T>, f: T -> int, k: int, g: T -> int, m: int, h: T -> int)
    requires forall r :: f(r) == k * g(r) + m * h(r)
    ensures Sum(z, f) == k * Sum(z, g) + m * Sum(z, h)
  {
    if z != [] {
      SumLinear(z[1..], f, k, g, m, h);
      var w, r := z[0].weight, z[0].row;
      LinearStep(w, g(r), h(r), k, m, Sum(z[1..], g), Sum(z[1..], h));
    }
  }

  lemma LinearStep(w: int, x: int, y: int, k: int, m: int, sx: int, sy: int)
    ensures w * (k * x + m * y) + (k * sx + m * sy) == k * (w * x + sx) + m * (w * y + sy)
  {
    assert w * (k * x + m * y) == k * (w * x) + m * (w * y);
  }

  // ---- equivalence is pointwise equality of multiplicities ----

  ghost function Without<T>(z: ZSet<T>, row: T): ZSet<T> {
    if z == [] then []
    else (if z[0].row == row then [] else [z[0]]) + Without(z[1..], row)
  }

  lemma WeightStep<T>(z: ZSet<T>, row: T)
    requires z != []
    ensures Weight(z, row) == (if z[0].row == row then z[0].weight else 0) + Weight(z[1..], row)
  {
  }

  /** Taking one row's entries out removes exactly its net contribution. */
  lemma {:induction false} SumWithout<T>(z: ZSet<T>, row: T, g: T -> int)
    ensures Sum(z, g) == Weight(z, row) * g(row) + Sum(Without(z, row), g)
  {
    if z != [] {
      SumWithout(z[1..], row, g);
      WeightStep(z, row);
      var rest := Without(z[1..], row);
      if z[0].row == row {
        assert Without(z, row) == rest;
        Regroup(z[0].weight, Weight(z[1..], row), g(row));
      } else {
        assert Without(z, row) == [z[0]] + rest;
        assert (([z[0]] + rest)[1..]) == rest;
      }
    }
  }

  lemma Regroup(w: int, v: int, x: int)
    ensures (w + v) * x == w * x + v * x
  {
  }

  lemma {:induction false} WithoutIsShorter<T>(z: ZSet<T>, row: T)
    ensures |Without(z, row)| <= |z|
    ensures z != [] && z[0].row == row ==> |Without(z, row)| < |z|
  {
    if z != [] {
      WithoutIsShorter(z[1..], row);
    }
  }

  lemma {:induction false} ZeroWeightsSumToZero<T(!new)>(z: ZSet<T>, g: T -> int)
    requires forall r :: Weight(z, r) == 0
    ensures Sum(z, g) == 0
    decreases |z|
  {
    if z != [] {
      var row := z[0].row;
      var rest := Without(z, row);
      SumWithout(z, row, g);
      WithoutIsShorter(z, row);
      assert Weight(z, row) == 0;
      forall r ensures Weight(rest, r) == 0 {
        SumWithout(z, row, Indicator(r));
        assert Weight(z, r) == 0;
      }
      ZeroWeightsSumToZero(rest, g);
    }
  }

  /** Two lists of changes are interchangeable exactly when they give every row the same multiplicity. */
  lemma EquivIsPointwise<T(!new)>(a: ZSet<T>, b: ZSet<T>)
    ensures Equiv(a, b) <==> forall r :: Weight(a, r) == Weight(b, r)
  {
    if forall r :: Weight(a, r) == Weight(b, r) {
      var diff := a + Scale(-1, b);
      forall r ensures Weight(diff, r) == 0 {
        SumAppend(a, Scale(-1, b), Indicator(r));
        SumScale(-1, b, Indicator(r));
        assert Weight(a, r) == Weight(b, r);
      }
      forall g: T -> int ensures Sum(a, g) == Sum(b, g) {
        ZeroWeightsSumToZero(diff, g);
        SumAppend(a, Scale(-1, b), g);
        SumScale(-1, b, g);
      }
    }
  }

  /** A list with positive multiplicities stands for the empty change only when it is empty. */
  lemma PositiveEquivEmpty<T(!new)>(z: ZSet<T>)
    requires Positive(z)
    ensures Equiv(z, []) <==> z == []
  {
    if z != [] {
      SumOneIsPositive(z);
      assert Sum([], One<T>()) == 0;
    }
  }

  ghost function One<T>(): T -> int {
    r => 1
  }

  lemma {:induction false} SumOneIsPositive<T>(z: ZSet<T>)
    requires Positive(z)
    ensures Sum(z, One()) >= |z|
  {
    if z != [] {
      SumOneIsPositive(z[1..]);
    }
  }

  // ---- row-local operators ----

  ghost function Total<T>(rows: seq<T>, g: T -> int): int {
    if rows == [] then 0 else g(rows[0]) + Total(rows[1..], g)
  }

  function Weigh<T>(rows: seq<T>, w: int): ZSet<T> {
    if rows == [] then [] else [Entry(rows[0], w)] + Weigh(rows[1..], w)
  }

  lemma {:induction false} SumWeigh<T>(rows: seq<T>, w: int, g: T -> int)
    ensures Sum(Weigh(rows, w), g) == w * Total(rows, g)
  {
    if rows != [] {
      SumWeigh(rows[1..], w, g);
      assert Weigh(rows, w)[1..] == Weigh(rows[1..], w);
    }
  }

  /** Every row is replaced by the rows u gives it, each with the multiplicity of the row. */
  function FlatMap<T>(z: ZSet<T>, u: T -> seq<T>): ZSet<T> {
    if z == [] then [] else Weigh(u(z[0].row), z[0].weight) + FlatMap(z[1..], u)
  }

  ghost function Each<T>(u: T -> seq<T>, g: T -> int): T -> int {
    r => Total(u(r), g)
  }

  lemma {:induction false} SumFlatMap<T>(z: ZSet<T>, u: T -> seq<T>, g: T -> int)
    ensures Sum(FlatMap(z, u), g) == Sum(z, Each(u, g))
  {
    if z != [] {
      SumAppend(Weigh(u(z[0].row), z[0].weight), FlatMap(z[1..], u), g);
      SumWeigh(u(z[0].row), z[0].weight, g);
      SumFlatMap(z[1..], u, g);
    }
  }

  // ---- pairwise operators ----

  function JoinRow<T>(l: Entry<T>, b: ZSet<T>, j: (T, T) -> seq<T>): ZSet<T> {
    if b == [] then []
    else Weigh(j(l.row, b[0].row), l.weight * b[0].weight) + JoinRow(l, b[1..], j)
  }

  /** Every pair of rows is replaced by the rows j gives it, with the product of their multiplicities. */
  function Join<T>(a: ZSet<T>, b: ZSet<T>, j: (T, T) -> seq<T>): ZSet<T> {
    if a == [] then [] else JoinRow(a[0], b, j) + Join(a[1..], b, j)
  }

  ghost function Match<T>(j: (T, T) -> seq<T>, l: T, g: T -> int): T -> int {
    r => Total(j(l, r), g)
  }

  ghost function Probe<T>(b: ZSet<T>, j: (T, T) -> seq<T>, g: T -> int): T -> int {
    l => Sum(b, Match(j, l, g))
  }

  lemma {:induction false} SumJoinRow<T>(l: Entry<T>, b: ZSet<T>, j: (T, T) -> seq<T>, g: T -> int)
    ensures Sum(JoinRow(l, b, j), g) == l.weight * Sum(b, Match(j, l.row, g))
  {
    if b != [] {
      var t := Total(j(l.row, b[0].row), g);
      SumAppend(Weigh(j(l.row, b[0].row), l.weight * b[0].weight), JoinRow(l, b[1..], j), g);
      SumWeigh(j(l.row, b[0].row), l.weight * b[0].weight, g);
      SumJoinRow(l, b[1..], j, g);
      Distribute(l.weight, b[0].weight, t, Sum(b[1..], Match(j, l.row, g)));
    }
  }

  lemma {:induction false} SumJoin<T>(a: ZSet<T>, b: ZSet<T>, j: (T, T) -> seq<T>, g: T -> int)
    ensures Sum(Join(a, b, j), g) == Sum(a, Probe(b, j, g))
  {
    if a != [] {
      SumAppend(JoinRow(a[0], b, j), Join(a[1..], b, j), g);
      SumJoinRow(a[0], b, j, g);
      SumJoin(a[1..], b, j, g);
    }
  }

  lemma {:induction false} JoinWithEmpty<T>(a: ZSet<T>, j: (T, T) -> seq<T>)
    ensures Join(a, [], j) == [] && Join([], a, j) == []
  {
    if a != [] {
      JoinWithEmpty(a[1..], j);
    }
  }
}
