/** The LINEAR and PRODUCT delta rules over Z-sets. */
module DeltaRules {
  import opened SqlValues
  import opened ZSets

  type Row = seq<Value>

  /** A plan is evaluated over a database of Z-sets.  Its delta is compiled from the current (already updated) database
      and the pending changes, operator by operator; a tree of inner and cross joins is compiled as one product over
      its leaves, either by inclusion-exclusion over the 2^N - 1 non-empty leaf masks, or by N telescoping terms. */
  datatype Plan =
    | Scan(table: string)
    | Constant(rows: seq<Row>)
    | Filter(condition: Row -> bool, input: Plan)
    | Project(columns: Row -> Row, input: Plan)
    | Unnest(elements: Row -> seq<Row>, input: Plan)
    | UnionAll(inputs: seq<Plan>)
    | InnerJoin(on: (Row, Row) -> bool, left: Plan, right: Plan)

  type Database = string -> ZSet<Row>

  function Keep(condition: Row -> bool): Row -> seq<Row> {
    r => if condition(r) then [r] else []
  }

  function Image(columns: Row -> Row): Row -> seq<Row> {
    r => [columns(r)]
  }

  function Pair(on: (Row, Row) -> bool): (Row, Row) -> seq<Row> {
    (l, r) => if on(l, r) then [l + r] else []
  }

  // ---- evaluation ----

  ghost function Eval(p: Plan, db: Database): ZSet<Row>
    decreases p
  {
    match p
    case Scan(t) => db(t)
    case Constant(rows) => Weigh(rows, 1)
    case Filter(condition, input) => FlatMap(Eval(input, db), Keep(condition))
    case Project(columns, input) => FlatMap(Eval(input, db), Image(columns))
    case Unnest(elements, input) => FlatMap(Eval(input, db), elements)
    case UnionAll(inputs) => EvalAll(inputs, db)
    case InnerJoin(on, left, right) => Join(Eval(left, db), Eval(right, db), Pair(on))
  }

  ghost function EvalAll(ps: seq<Plan>, db: Database): ZSet<Row>
    decreases ps
  {
    if ps == [] then [] else Eval(ps[0], db) + EvalAll(ps[1..], db)
  }

  // ---- join trees as products over their leaves ----

  function LeafCount(p: Plan): nat
    ensures LeafCount(p) >= 1
  {
    if p.InnerJoin? then LeafCount(p.left) + LeafCount(p.right) else 1
  }

  /** The join tree of p, evaluated over given contents for its leaves. */
  function Product(p: Plan, leaves: seq<ZSet<Row>>): ZSet<Row>
    requires |leaves| == LeafCount(p)
  {
    if p.InnerJoin? then
      var n := LeafCount(p.left);
      Join(Product(p.left, leaves[..n]), Product(p.right, leaves[n..]), Pair(p.on))
    else
      leaves[0]
  }

  /** What each leaf of the join tree evaluates to. */
  ghost function LeafStates(p: Plan, db: Database): (leaves: seq<ZSet<Row>>)
    ensures |leaves| == LeafCount(p)
  {
    if p.InnerJoin? then LeafStates(p.left, db) + LeafStates(p.right, db) else [Eval(p, db)]
  }

  lemma {:induction false} EvalIsProduct(p: Plan, db: Database)
    ensures Eval(p, db) == Product(p, LeafStates(p, db))
  {
    if p.InnerJoin? {
      EvalIsProduct(p.left, db);
      EvalIsProduct(p.right, db);
      var n := LeafCount(p.left);
      var leaves := LeafStates(p, db);
      assert leaves[..n] == LeafStates(p.left, db) && leaves[n..] == LeafStates(p.right, db);
    }
  }

  lemma SlotOnTheLeft(p: Plan, leaves: seq<ZSet<Row>>, i: nat, x: ZSet<Row>)
    requires p.InnerJoin? && |leaves| == LeafCount(p) && i < LeafCount(p.left)
    ensures var n := LeafCount(p.left);
            Product(p, leaves[i := x])
            == Join(Product(p.left, leaves[..n][i := x]), Product(p.right, leaves[n..]), Pair(p.on))
  {
    hide Join;
    var n := LeafCount(p.left);
    assert leaves[i := x][..n] == leaves[..n][i := x] && leaves[i := x][n..] == leaves[n..];
  }

  lemma SlotOnTheRight(p: Plan, leaves: seq<ZSet<Row>>, i: nat, x: ZSet<Row>)
    requires p.InnerJoin? && |leaves| == LeafCount(p) && LeafCount(p.left) <= i < |leaves|
    ensures var n := LeafCount(p.left);
            Product(p, leaves[i := x])
            == Join(Product(p.left, leaves[..n]), Product(p.right, leaves[n..][i - n := x]), Pair(p.on))
  {
    hide Join;
    var n := LeafCount(p.left);
    assert leaves[i := x][..n] == leaves[..n] && leaves[i := x][n..] == leaves[n..][i - n := x];
  }

  /** The product is linear in every leaf. */
  lemma {:induction false} ProductLinear(p: Plan, leaves: seq<ZSet<Row>>, i: nat,
      c: ZSet<Row>, k: int, a: ZSet<Row>, m: int, b: ZSet<Row>)
    requires |leaves| == LeafCount(p) && i < |leaves|
    requires Combination(c, k, a, m, b)
    ensures Combination(Product(p, leaves[i := c]), k, Product(p, leaves[i := a]), m, Product(p, leaves[i := b]))
    decreases p
  {
    hide Sum, Join;
    if p.InnerJoin? {
      var n := LeafCount(p.left);
      var j := Pair(p.on);
      var L, R := leaves[..n], leaves[n..];
      if i < n {
        var r := Product(p.right, R);
        SlotOnTheLeft(p, leaves, i, c);
        SlotOnTheLeft(p, leaves, i, a);
        SlotOnTheLeft(p, leaves, i, b);
        ProductLinear(p.left, L, i, c, k, a, m, b);
        JoinLeftLinear(Product(p.left, L[i := c]), k, Product(p.left, L[i := a]), m, Product(p.left, L[i := b]), r, j);
      } else {
        var l := Product(p.left, L);
        SlotOnTheRight(p, leaves, i, c);
        SlotOnTheRight(p, leaves, i, a);
        SlotOnTheRight(p, leaves, i, b);
        ProductLinear(p.right, R, i - n, c, k, a, m, b);
        JoinRightLinear(l, Product(p.right, R[i - n := c]), k, Product(p.right, R[i - n := a]), m,
                        Product(p.right, R[i - n := b]), j);
      }
    } else {
      assert leaves[i := c][0] == c && leaves[i := a][0] == a && leaves[i := b][0] == b;
    }
  }

  lemma JoinLeftLinear(c: ZSet<Row>, k: int, a: ZSet<Row>, m: int, b: ZSet<Row>, r: ZSet<Row>, j: (Row, Row) -> seq<Row>)
    requires Combination(c, k, a, m, b)
    ensures Combination(Join(c, r, j), k, Join(a, r, j), m, Join(b, r, j))
  {
    hide Sum, Join;
    forall g: Row -> int
      ensures Sum(Join(c, r, j), g) == k * Sum(Join(a, r, j), g) + m * Sum(Join(b, r, j), g)
    {
      SumJoin(c, r, j, g);
      SumJoin(a, r, j, g);
      SumJoin(b, r, j, g);
    }
  }

  lemma JoinRightLinear(l: ZSet<Row>, c: ZSet<Row>, k: int, a: ZSet<Row>, m: int, b: ZSet<Row>, j: (Row, Row) -> seq<Row>)
    requires Combination(c, k, a, m, b)
    ensures Combination(Join(l, c, j), k, Join(l, a, j), m, Join(l, b, j))
  {
    hide Sum, Join;
    forall g: Row -> int
      ensures Sum(Join(l, c, j), g) == k * Sum(Join(l, a, j), g) + m * Sum(Join(l, b, j), g)
    {
      SumJoin(l, c, j, g);
      SumJoin(l, a, j, g);
      SumJoin(l, b, j, g);
      SumLinear(l, Probe(c, j, g), k, Probe(a, j, g), m, Probe(b, j, g));
    }
  }

  lemma FlatMapLinear(c: ZSet<Row>, k: int, a: ZSet<Row>, m: int, b: ZSet<Row>, u: Row -> seq<Row>)
    requires Combination(c, k, a, m, b)
    ensures Combination(FlatMap(c, u), k, FlatMap(a, u), m, FlatMap(b, u))
  {
    hide Sum, FlatMap;
    forall g: Row -> int
      ensures Sum(FlatMap(c, u), g) == k * Sum(FlatMap(a, u), g) + m * Sum(FlatMap(b, u), g)
    {
      SumFlatMap(c, u, g);
      SumFlatMap(a, u, g);
      SumFlatMap(b, u, g);
    }
  }

  /** Each leaf's delta is the difference between its current and its old contents. */
  ghost predicate Differ(before: seq<ZSet<Row>>, current: seq<ZSet<Row>>, delta: seq<ZSet<Row>>) {
    && |before| == |current| == |delta|
    && forall i :: 0 <= i < |before| ==> Combination(before[i], 1, current[i], -1, delta[i])
  }

  lemma DifferAppend(b: seq<ZSet<Row>>, c: seq<ZSet<Row>>, d: seq<ZSet<Row>>,
                     b': seq<ZSet<Row>>, c': seq<ZSet<Row>>, d': seq<ZSet<Row>>)
    requires Differ(b, c, d) && Differ(b', c', d')
    ensures Differ(b + b', c + c', d + d')
  {
    forall i | 0 <= i < |b + b'|
      ensures Combination((b + b')[i], 1, (c + c')[i], -1, (d + d')[i])
    {
      if i < |b| {
        assert Combination(b[i], 1, c[i], -1, d[i]);
      } else {
        assert Combination(b'[i - |b|], 1, c'[i - |b|], -1, d'[i - |b|]);
      }
    }
  }

  // ---- inclusion-exclusion ----

  function Pow2(n: nat): nat {
    if n == 0 then 1 else 2 * Pow2(n - 1)
  }

  /** Leaf i comes from the delta when bit i of the mask is set, and from the current state otherwise. */
  function Choose(current: seq<ZSet<Row>>, delta: seq<ZSet<Row>>, mask: nat): (leaves: seq<ZSet<Row>>)
    requires |current| == |delta|
    ensures |leaves| == |current|
  {
    if current == [] then []
    else [if mask % 2 == 1 then delta[0] else current[0]] + Choose(current[1..], delta[1..], mask / 2)
  }

  function BitCount(mask: nat): nat {
    if mask == 0 then 0 else mask % 2 + BitCount(mask / 2)
  }

  /** The term of a mask carries the sign (-1)^(k-1) for k delta leaves: only an even k flips it. */
  predicate Flips(mask: nat) {
    BitCount(mask) % 2 == 0
  }

  function Signed(z: ZSet<Row>, flip: bool): ZSet<Row> {
    if flip then Scale(-1, z) else z
  }

  ghost function MaskTerm(p: Plan, current: seq<ZSet<Row>>, delta: seq<ZSet<Row>>, mask: nat): ZSet<Row>
    requires |current| == |delta| == LeafCount(p)
  {
    Signed(Product(p, Choose(current, delta, mask)), Flips(mask))
  }

  /** The union of the terms for the masks from 1 up to, not including, limit that `wanted` accepts. */
  ghost function MaskTerms(p: Plan, current: seq<ZSet<Row>>, delta: seq<ZSet<Row>>, limit: nat, wanted: nat -> bool): ZSet<Row>
    requires |current| == |delta| == LeafCount(p)
  {
    if limit <= 1 then []
    else MaskTerms(p, current, delta, limit - 1, wanted)
         + if wanted(limit - 1) then MaskTerm(p, current, delta, limit - 1) else []
  }

  ghost function EveryMask(): nat -> bool {
    mask => true
  }

  /** The total of f over all masks below limit, mask 0 included, positive for an even number of bits. */
  ghost function SignedSum(f: nat -> int, limit: nat): int {
    if limit == 0 then 0 else SignedSum(f, limit - 1) + if Flips(limit - 1) then f(limit - 1) else -f(limit - 1)
  }

  /** What g totals to over the product for a mask, with a fixed prefix of leaves. */
  ghost function MaskTotal(p: Plan, prefix: seq<ZSet<Row>>, current: seq<ZSet<Row>>, delta: seq<ZSet<Row>>, g: Row -> int): nat -> int
    requires |current| == |delta| && |prefix| + |current| == LeafCount(p)
  {
    (mask: nat) => Sum(Product(p, prefix + Choose(current, delta, mask)), g)
  }

  lemma LowestBit(m: nat)
    ensures Flips(2 * m) == Flips(m) && Flips(2 * m + 1) == !Flips(m)
  {
    assert (2 * m) / 2 == m && (2 * m + 1) / 2 == m && (2 * m) % 2 == 0 && (2 * m + 1) % 2 == 1;
    assert BitCount(2 * m + 1) == 1 + BitCount(m);
    assert BitCount(2 * m) == BitCount(m);
  }

  /** Splitting the masks by their lowest bit. */
  lemma {:induction false} SignedSumSplit(f: nat -> int, even: nat -> int, odd: nat -> int, half: nat)
    requires forall m: nat :: f(2 * m) == even(m) && f(2 * m + 1) == odd(m)
    ensures SignedSum(f, 2 * half) == SignedSum(even, half) - SignedSum(odd, half)
  {
    if half > 0 {
      hide Flips;
      var m := half - 1;
      SignedSumSplit(f, even, odd, m);
      LowestBit(m);
      assert f(2 * m) == even(m) && f(2 * m + 1) == odd(m);
      assert SignedSum(f, 2 * m + 2) == SignedSum(f, 2 * m + 1) + if Flips(2 * m + 1) then f(2 * m + 1) else -f(2 * m + 1);
      assert SignedSum(f, 2 * m + 1) == SignedSum(f, 2 * m) + if Flips(2 * m) then f(2 * m) else -f(2 * m);
    }
  }

  /** The lowest bit of the mask decides the first leaf. */
  lemma FirstLeaf(p: Plan, prefix: seq<ZSet<Row>>, current: seq<ZSet<Row>>, delta: seq<ZSet<Row>>, g: Row -> int, m: nat)
    requires |current| == |delta| && |prefix| + |current| == LeafCount(p) && current != []
    ensures MaskTotal(p, prefix, current, delta, g)(2 * m)
         == MaskTotal(p, prefix + [current[0]], current[1..], delta[1..], g)(m)
    ensures MaskTotal(p, prefix, current, delta, g)(2 * m + 1)
         == MaskTotal(p, prefix + [delta[0]], current[1..], delta[1..], g)(m)
  {
    hide Product, Sum, LeafCount;
    assert (2 * m) / 2 == m && (2 * m + 1) / 2 == m && (2 * m) % 2 == 0 && (2 * m + 1) % 2 == 1;
    var rest := Choose(current[1..], delta[1..], m);
    assert prefix + Choose(current, delta, 2 * m) == prefix + [current[0]] + rest;
    assert prefix + Choose(current, delta, 2 * m + 1) == prefix + [delta[0]] + rest;
  }

  lemma ReplaceAt<T>(prefix: seq<T>, rest: seq<T>, x: T)
    requires rest != []
    ensures (prefix + rest)[|prefix| := x] == prefix + [x] + rest[1..]
  {
  }

  /** Replacing old leaves by "current minus delta" and multiplying out. */
  lemma {:induction false} Expansion(p: Plan, prefix: seq<ZSet<Row>>, before: seq<ZSet<Row>>, current: seq<ZSet<Row>>,
      delta: seq<ZSet<Row>>, g: Row -> int)
    requires |before| == |current| == |delta| && |prefix| + |current| == LeafCount(p)
    requires Differ(before, current, delta)
    ensures Sum(Product(p, prefix + before), g) == SignedSum(MaskTotal(p, prefix, current, delta, g), Pow2(|current|))
    decreases |current|
  {
    hide Sum, Product, LeafCount;
    var f := MaskTotal(p, prefix, current, delta, g);
    if current == [] {
      assert prefix + before == prefix + Choose(current, delta, 0);
      assert SignedSum(f, 1) == SignedSum(f, 0) + f(0);
    } else {
      hide SignedSum, Choose;
      var all := prefix + before;
      ProductLinear(p, all, |prefix|, before[0], 1, current[0], -1, delta[0]);
      ReplaceAt(prefix, before, before[0]);
      ReplaceAt(prefix, before, current[0]);
      ReplaceAt(prefix, before, delta[0]);
      assert before == [before[0]] + before[1..];
      assert prefix + [before[0]] + before[1..] == prefix + before;
      Expansion(p, prefix + [current[0]], before[1..], current[1..], delta[1..], g);
      Expansion(p, prefix + [delta[0]], before[1..], current[1..], delta[1..], g);
      ExpansionSplit(p, prefix, current, delta, g);
    }
  }

  lemma ExpansionSplit(p: Plan, prefix: seq<ZSet<Row>>, current: seq<ZSet<Row>>, delta: seq<ZSet<Row>>, g: Row -> int)
    requires |current| == |delta| && |prefix| + |current| == LeafCount(p) && current != []
    ensures SignedSum(MaskTotal(p, prefix, current, delta, g), Pow2(|current|))
         == SignedSum(MaskTotal(p, prefix + [current[0]], current[1..], delta[1..], g), Pow2(|current[1..]|))
            - SignedSum(MaskTotal(p, prefix + [delta[0]], current[1..], delta[1..], g), Pow2(|current[1..]|))
  {
    hide Sum, Product, LeafCount, SignedSum, MaskTotal;
    var f := MaskTotal(p, prefix, current, delta, g);
    var even := MaskTotal(p, prefix + [current[0]], current[1..], delta[1..], g);
    var odd := MaskTotal(p, prefix + [delta[0]], current[1..], delta[1..], g);
    forall m: nat ensures f(2 * m) == even(m) && f(2 * m + 1) == odd(m) {
      FirstLeaf(p, prefix, current, delta, g, m);
    }
    SignedSumSplit(f, even, odd, Pow2(|current[1..]|));
  }

  lemma MaskTermsStep(p: Plan, current: seq<ZSet<Row>>, delta: seq<ZSet<Row>>, mask: nat, g: Row -> int)
    requires |current| == |delta| == LeafCount(p) && mask >= 1
    ensures var term := MaskTotal(p, [], current, delta, g)(mask);
            Sum(MaskTerms(p, current, delta, mask + 1, EveryMask()), g)
            == Sum(MaskTerms(p, current, delta, mask, EveryMask()), g) + if Flips(mask) then -term else term
  {
    hide Sum, Product, LeafCount, Flips;
    var leaves := Choose(current, delta, mask);
    assert [] + leaves == leaves;
    SumAppend(MaskTerms(p, current, delta, mask, EveryMask()), MaskTerm(p, current, delta, mask), g);
    SumScale(-1, Product(p, leaves), g);
  }

  lemma {:induction false} MaskTermsTotal(p: Plan, current: seq<ZSet<Row>>, delta: seq<ZSet<Row>>, limit: nat, g: Row -> int)
    requires |current| == |delta| == LeafCount(p) && limit >= 1
    ensures Sum(MaskTerms(p, current, delta, limit, EveryMask()), g)
         == Sum(Product(p, current), g) - SignedSum(MaskTotal(p, [], current, delta, g), limit)
  {
    hide Sum, Product, LeafCount;
    var f := MaskTotal(p, [], current, delta, g);
    if limit == 1 {
      SumEmpty(g);
      ChooseNone(current, delta);
      assert [] + Choose(current, delta, 0) == current;
      assert SignedSum(f, 1) == SignedSum(f, 0) + f(0);
    } else {
      hide MaskTerms, MaskTotal, Flips;
      MaskTermsTotal(p, current, delta, limit - 1, g);
      MaskTermsStep(p, current, delta, limit - 1, g);
    }
  }

  lemma {:induction false} ChooseNone(current: seq<ZSet<Row>>, delta: seq<ZSet<Row>>)
    requires |current| == |delta|
    ensures Choose(current, delta, 0) == current
  {
    if current != [] {
      ChooseNone(current[1..], delta[1..]);
    }
  }

  /** The terms for all non-empty masks. */
  ghost function InclusionExclusionTerms(p: Plan, current: seq<ZSet<Row>>, delta: seq<ZSet<Row>>): ZSet<Row>
    requires |current| == |delta| == LeafCount(p)
  {
    MaskTerms(p, current, delta, Pow2(LeafCount(p)), EveryMask())
  }

  /** The 2^N - 1 signed terms over the current leaves add up to the change of the product, for every N. */
  lemma InclusionExclusion(p: Plan, before: seq<ZSet<Row>>, current: seq<ZSet<Row>>, delta: seq<ZSet<Row>>)
    requires |before| == |current| == |delta| == LeafCount(p)
    requires Differ(before, current, delta)
    ensures Combination(InclusionExclusionTerms(p, current, delta), 1, Product(p, current), -1, Product(p, before))
  {
    hide Sum, Product;
    var terms := InclusionExclusionTerms(p, current, delta);
    forall g: Row -> int
      ensures Sum(terms, g) == 1 * Sum(Product(p, current), g) + -1 * Sum(Product(p, before), g)
    {
      InclusionExclusionAt(p, before, current, delta, g);
    }
  }

  lemma InclusionExclusionAt(p: Plan, before: seq<ZSet<Row>>, current: seq<ZSet<Row>>, delta: seq<ZSet<Row>>, g: Row -> int)
    requires |before| == |current| == |delta| == LeafCount(p)
    requires Differ(before, current, delta)
    ensures Sum(InclusionExclusionTerms(p, current, delta), g)
         == Sum(Product(p, current), g) - Sum(Product(p, before), g)
  {
    hide Sum, Product;
    var limit := Pow2(LeafCount(p));
    Pow2Positive(LeafCount(p));
    MaskTermsTotal(p, current, delta, limit, g);
    Expansion(p, [], before, current, delta, g);
    assert [] + before == before;
  }

  lemma {:induction false} Pow2Positive(n: nat)
    ensures Pow2(n) >= 1
  {
    if n > 0 {
      Pow2Positive(n - 1);
    }
  }

  // ---- telescoping ----

  /** Term i takes leaf i from its delta, the leaves before it from the current state and the leaves after it
      from the state of the last refresh. */
  ghost function TelescopeLeaves(before: seq<ZSet<Row>>, current: seq<ZSet<Row>>, delta: seq<ZSet<Row>>, i: nat)
    : (leaves: seq<ZSet<Row>>)
    requires |before| == |current| == |delta| && i < |current|
    ensures |leaves| == |before|
  {
    current[..i] + [delta[i]] + before[i + 1..]
  }

  ghost function TelescopeTerms(p: Plan, before: seq<ZSet<Row>>, current: seq<ZSet<Row>>, delta: seq<ZSet<Row>>, n: nat): ZSet<Row>
    requires |before| == |current| == |delta| == LeafCount(p) && n <= |current|
  {
    if n == 0 then []
    else TelescopeTerms(p, before, current, delta, n - 1) + Product(p, TelescopeLeaves(before, current, delta, n - 1))
  }

  ghost function TelescopingTerms(p: Plan, before: seq<ZSet<Row>>, current: seq<ZSet<Row>>, delta: seq<ZSet<Row>>): ZSet<Row>
    requires |before| == |current| == |delta| == LeafCount(p)
  {
    TelescopeTerms(p, before, current, delta, |current|)
  }

  /** The first n leaves have changed. */
  ghost function PartlyChanged(before: seq<ZSet<Row>>, current: seq<ZSet<Row>>, n: nat): (leaves: seq<ZSet<Row>>)
    requires |before| == |current| && n <= |current|
    ensures |leaves| == |before|
  {
    current[..n] + before[n..]
  }

  /** Term n is what changing leaf n adds. */
  lemma TelescopingTerm(p: Plan, before: seq<ZSet<Row>>, current: seq<ZSet<Row>>, delta: seq<ZSet<Row>>, n: nat)
    requires |before| == |current| == |delta| == LeafCount(p) && n < |current|
    requires Combination(before[n], 1, current[n], -1, delta[n])
    ensures Combination(Product(p, PartlyChanged(before, current, n)), 1, Product(p, PartlyChanged(before, current, n + 1)),
                        -1, Product(p, TelescopeLeaves(before, current, delta, n)))
  {
    hide Sum, Product, Combination, LeafCount;
    var leaves := PartlyChanged(before, current, n);
    ProductLinear(p, leaves, n, before[n], 1, current[n], -1, delta[n]);
    assert leaves[n := before[n]] == leaves;
    assert leaves[n := current[n]] == PartlyChanged(before, current, n + 1);
    assert leaves[n := delta[n]] == TelescopeLeaves(before, current, delta, n);
  }

  lemma TelescopingSum(a: ZSet<Row>, b: ZSet<Row>, c: ZSet<Row>, terms: ZSet<Row>, term: ZSet<Row>)
    requires Combination(terms, 1, b, -1, a) && Combination(b, 1, c, -1, term)
    ensures Combination(terms + term, 1, c, -1, a)
  {
    hide Sum;
    forall g: Row -> int ensures Sum(terms + term, g) == 1 * Sum(c, g) + -1 * Sum(a, g) {
      SumAppend(terms, term, g);
      assert Sum(terms, g) == 1 * Sum(b, g) + -1 * Sum(a, g);
      assert Sum(b, g) == 1 * Sum(c, g) + -1 * Sum(term, g);
    }
  }

  lemma {:induction false} TelescopingPrefix(p: Plan, before: seq<ZSet<Row>>, current: seq<ZSet<Row>>,
                                             delta: seq<ZSet<Row>>, n: nat)
    requires |before| == |current| == |delta| == LeafCount(p) && n <= |current|
    requires Differ(before, current, delta)
    ensures Combination(TelescopeTerms(p, before, current, delta, n), 1, Product(p, PartlyChanged(before, current, n)),
                        -1, Product(p, before))
  {
    hide Sum, Product, Combination, PartlyChanged, TelescopeLeaves, LeafCount;
    if n == 0 {
      NothingChanged(before, current);
      Unchanged(Product(p, before));
    } else {
      TelescopingPrefix(p, before, current, delta, n - 1);
      TelescopingTerm(p, before, current, delta, n - 1);
      TelescopingSum(Product(p, before), Product(p, PartlyChanged(before, current, n - 1)),
                     Product(p, PartlyChanged(before, current, n)), TelescopeTerms(p, before, current, delta, n - 1),
                     Product(p, TelescopeLeaves(before, current, delta, n - 1)));
    }
  }

  lemma NothingChanged(before: seq<ZSet<Row>>, current: seq<ZSet<Row>>)
    requires |before| == |current|
    ensures PartlyChanged(before, current, 0) == before && PartlyChanged(before, current, |current|) == current
  {
  }

  /** The N telescoping terms add up to the same change of the product, for every N. */
  lemma Telescoping(p: Plan, before: seq<ZSet<Row>>, current: seq<ZSet<Row>>, delta: seq<ZSet<Row>>)
    requires |before| == |current| == |delta| == LeafCount(p)
    requires Differ(before, current, delta)
    ensures Combination(TelescopingTerms(p, before, current, delta), 1, Product(p, current), -1, Product(p, before))
  {
    hide Sum, Product;
    TelescopingPrefix(p, before, current, delta, |current|);
    NothingChanged(before, current);
  }

  /** Both forms of the join delta make the same change, for every N and every row. */
  lemma FormsAgree(p: Plan, before: seq<ZSet<Row>>, current: seq<ZSet<Row>>, delta: seq<ZSet<Row>>)
    requires |before| == |current| == |delta| == LeafCount(p)
    requires Differ(before, current, delta)
    ensures forall r :: Weight(InclusionExclusionTerms(p, current, delta), r)
                     == Weight(TelescopingTerms(p, before, current, delta), r)
  {
    hide Sum, Product;
    InclusionExclusion(p, before, current, delta);
    Telescoping(p, before, current, delta);
    CombinationsAgree(InclusionExclusionTerms(p, current, delta), TelescopingTerms(p, before, current, delta),
                      Product(p, current), Product(p, before));
    EquivIsPointwise(InclusionExclusionTerms(p, current, delta), TelescopingTerms(p, before, current, delta));
  }

  lemma CombinationsAgree(c: ZSet<Row>, d: ZSet<Row>, a: ZSet<Row>, b: ZSet<Row>)
    requires Combination(c, 1, a, -1, b) && Combination(d, 1, a, -1, b)
    ensures Equiv(c, d)
  {
    hide Sum;
  }

  // ---- the compiled delta of a whole plan ----

  /** The delta of p.  `telescoped` says which join trees are compiled in the N-term form. */
  ghost function Delta(p: Plan, before: Database, current: Database, changes: Database, telescoped: Plan -> bool): ZSet<Row>
    decreases p, 0
  {
    match p
    case Scan(t) => changes(t)
    case Constant(rows) => []
    case Filter(condition, input) => FlatMap(Delta(input, before, current, changes, telescoped), Keep(condition))
    case Project(columns, input) => FlatMap(Delta(input, before, current, changes, telescoped), Image(columns))
    case Unnest(elements, input) => FlatMap(Delta(input, before, current, changes, telescoped), elements)
    case UnionAll(inputs) => DeltaAll(inputs, before, current, changes, telescoped)
    case InnerJoin(on, left, right) =>
      var leaves := LeafDeltas(left, before, current, changes, telescoped)
                    + LeafDeltas(right, before, current, changes, telescoped);
      if telescoped(p) then TelescopingTerms(p, LeafStates(p, before), LeafStates(p, current), leaves)
      else InclusionExclusionTerms(p, LeafStates(p, current), leaves)
  }

  ghost function DeltaAll(ps: seq<Plan>, before: Database, current: Database, changes: Database, telescoped: Plan -> bool): ZSet<Row>
    decreases ps
  {
    if ps == [] then []
    else Delta(ps[0], before, current, changes, telescoped) + DeltaAll(ps[1..], before, current, changes, telescoped)
  }

  ghost function LeafDeltas(p: Plan, before: Database, current: Database, changes: Database, telescoped: Plan -> bool): (leaves: seq<ZSet<Row>>)
    ensures |leaves| == LeafCount(p)
    decreases p, 1
  {
    if p.InnerJoin? then
      LeafDeltas(p.left, before, current, changes, telescoped) + LeafDeltas(p.right, before, current, changes, telescoped)
    else
      [Delta(p, before, current, changes, telescoped)]
  }

  /** The pending changes are exactly what the source tables went through since the last refresh. */
  ghost predicate Pending(before: Database, current: Database, changes: Database) {
    forall t :: Combination(before(t), 1, current(t), -1, changes(t))
  }

  lemma {:induction false} DeltaIsDifference(p: Plan, before: Database, current: Database, changes: Database, telescoped: Plan -> bool)
    requires Pending(before, current, changes)
    ensures Combination(Eval(p, before), 1, Eval(p, current), -1, Delta(p, before, current, changes, telescoped))
    decreases p, 0
  {
    hide Sum, FlatMap, Join;
    match p
    case Scan(t) =>
    case Constant(rows) => Unchanged(Weigh(rows, 1));
    case Filter(condition, input) =>
      DeltaIsDifference(input, before, current, changes, telescoped);
      FlatMapLinear(Eval(input, before), 1, Eval(input, current), -1, Delta(input, before, current, changes, telescoped), Keep(condition));
    case Project(columns, input) =>
      DeltaIsDifference(input, before, current, changes, telescoped);
      FlatMapLinear(Eval(input, before), 1, Eval(input, current), -1, Delta(input, before, current, changes, telescoped), Image(columns));
    case Unnest(elements, input) =>
      DeltaIsDifference(input, before, current, changes, telescoped);
      FlatMapLinear(Eval(input, before), 1, Eval(input, current), -1, Delta(input, before, current, changes, telescoped), elements);
    case UnionAll(inputs) =>
      DeltaAllIsDifference(inputs, before, current, changes, telescoped);
    case InnerJoin(on, left, right) =>
      LeavesDiffer(left, before, current, changes, telescoped);
      LeavesDiffer(right, before, current, changes, telescoped);
      DifferAppend(LeafStates(left, before), LeafStates(left, current), LeafDeltas(left, before, current, changes, telescoped),
                   LeafStates(right, before), LeafStates(right, current), LeafDeltas(right, before, current, changes, telescoped));
      JoinDeltaIsDifference(p, before, current, changes, telescoped);
  }

  lemma JoinDeltaIsDifference(p: Plan, before: Database, current: Database, changes: Database, telescoped: Plan -> bool)
    requires p.InnerJoin?
    requires Differ(LeafStates(p, before), LeafStates(p, current), LeafDeltas(p, before, current, changes, telescoped))
    ensures Combination(Eval(p, before), 1, Eval(p, current), -1, Delta(p, before, current, changes, telescoped))
  {
    hide Sum, Product;
    var b, c, d := LeafStates(p, before), LeafStates(p, current), LeafDeltas(p, before, current, changes, telescoped);
    EvalIsProduct(p, before);
    EvalIsProduct(p, current);
    if telescoped(p) {
      Telescoping(p, b, c, d);
    } else {
      InclusionExclusion(p, b, c, d);
    }
    Transpose(Delta(p, before, current, changes, telescoped), Product(p, c), Product(p, b));
  }

  lemma Transpose(d: ZSet<Row>, c: ZSet<Row>, b: ZSet<Row>)
    requires Combination(d, 1, c, -1, b)
    ensures Combination(b, 1, c, -1, d)
  {
    hide Sum;
    forall g: Row -> int ensures Sum(b, g) == 1 * Sum(c, g) + -1 * Sum(d, g) {
      assert Sum(d, g) == 1 * Sum(c, g) + -1 * Sum(b, g);
    }
  }

  lemma {:induction false} LeavesDiffer(p: Plan, before: Database, current: Database, changes: Database, telescoped: Plan -> bool)
    requires Pending(before, current, changes)
    ensures Differ(LeafStates(p, before), LeafStates(p, current), LeafDeltas(p, before, current, changes, telescoped))
    decreases p, 1
  {
    if p.InnerJoin? {
      LeavesDiffer(p.left, before, current, changes, telescoped);
      LeavesDiffer(p.right, before, current, changes, telescoped);
      DifferAppend(LeafStates(p.left, before), LeafStates(p.left, current), LeafDeltas(p.left, before, current, changes, telescoped),
                   LeafStates(p.right, before), LeafStates(p.right, current), LeafDeltas(p.right, before, current, changes, telescoped));
    } else {
      DeltaIsDifference(p, before, current, changes, telescoped);
    }
  }

  lemma {:induction false} DeltaAllIsDifference(ps: seq<Plan>, before: Database, current: Database, changes: Database, telescoped: Plan -> bool)
    requires Pending(before, current, changes)
    ensures Combination(EvalAll(ps, before), 1, EvalAll(ps, current), -1, DeltaAll(ps, before, current, changes, telescoped))
    decreases ps
  {
    if ps != [] {
      DeltaIsDifference(ps[0], before, current, changes, telescoped);
      DeltaAllIsDifference(ps[1..], before, current, changes, telescoped);
      forall g: Row -> int
        ensures Sum(EvalAll(ps, before), g)
             == 1 * Sum(EvalAll(ps, current), g) + -1 * Sum(DeltaAll(ps, before, current, changes, telescoped), g)
      {
        SumAppend(Eval(ps[0], before), EvalAll(ps[1..], before), g);
        SumAppend(Eval(ps[0], current), EvalAll(ps[1..], current), g);
        SumAppend(Delta(ps[0], before, current, changes, telescoped), DeltaAll(ps[1..], before, current, changes, telescoped), g);
      }
    }
  }

  /** The main theorem: applying the compiled delta to the old result gives the result on the updated
      database, row by row, for every plan, every database, every pending change and either join form. */
  lemma DeltaIsSound(p: Plan, before: Database, current: Database, changes: Database, telescoped: Plan -> bool)
    requires Pending(before, current, changes)
    ensures forall r :: Weight(Eval(p, current), r)
                     == Weight(Eval(p, before), r) + Weight(Delta(p, before, current, changes, telescoped), r)
  {
    hide Sum;
    DeltaIsDifference(p, before, current, changes, telescoped);
    forall r ensures Weight(Eval(p, current), r)
                  == Weight(Eval(p, before), r) + Weight(Delta(p, before, current, changes, telescoped), r)
    {
      assert Sum(Eval(p, before), Indicator(r))
          == 1 * Sum(Eval(p, current), Indicator(r)) + -1 * Sum(Delta(p, before, current, changes, telescoped), Indicator(r));
    }
  }
}
