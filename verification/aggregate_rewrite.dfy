/** What RewriteAggregateFilters and RewriteDerivedAggregates make of a plan, and that it still means the same. */
module AggregateRewrite {
  import opened SqlValues
  import opened DerivedAggregates
  import opened Plans

  const SUM_COL_PREFIX := "openivm_sum_"
  const SUM_SQ_COL_PREFIX := "openivm_sum_sq_"
  const VAR_SQ_COL_PREFIX := "openivm_var_sq_"
  const SUM_SQP_COL_PREFIX := "openivm_sum_sqp_"
  const VAR_SQP_COL_PREFIX := "openivm_var_sqp_"
  const COUNT_COL_PREFIX := "openivm_count_"
  const INTERNAL_PREFIX := "openivm_"

  /** A slot of a decomposed aggregate; Bare stands for the aggregate itself. */
  datatype Part = Bare | SumPart | SumSqPart | CountPart

  /** The alias of each slot of an aggregate.  Nothing but column names depends on it; BinderNames is
      the one the rewrite uses. */
  type Naming = (Part, AggExpr) -> string

  // ---- names of the hidden columns ----

  function SumSqPrefix(name: AggName): string {
    if name.StddevPop? then SUM_SQP_COL_PREFIX
    else if name.VarPop? then VAR_SQP_COL_PREFIX
    else if name.Variance? || name.VarSamp? then VAR_SQ_COL_PREFIX
    else SUM_SQ_COL_PREFIX
  }

  predicate IsAlnum(c: char) {
    ('0' <= c <= '9') || ('a' <= c <= 'z') || ('A' <= c <= 'Z')
  }

  /** Runs of other characters become one underscore; none at the start. */
  function Squeezed(raw: string): string {
    if raw == "" then ""
    else
      var front, c := Squeezed(raw[..|raw| - 1]), raw[|raw| - 1];
      if IsAlnum(c) || c == '_' then front + [c]
      else if front != "" && front[|front| - 1] != '_' then front + "_"
      else front
  }

  function Clean(raw: string): string {
    var s := Squeezed(raw);
    if s != "" && s[|s| - 1] == '_' then s[..|s| - 1] else s
  }

  predicate IsInternalColumn(name: string) {
    INTERNAL_PREFIX <= name
  }

  // ---- the decomposition of one aggregate ----

  predicate IsDerived(a: AggExpr) {
    a.BoundAggregate? && a.args != [] && IsDerivedName(a.name)
  }

  /** The cleaned alias of a derived aggregate; exprName is how the binder names an expression without one. */
  function InternalAlias(a: AggExpr, exprName: Expr -> string): string
    requires IsDerived(a)
  {
    var alias := if a.alias == "" then Spelling(a.name) + "_" + exprName(a.args[0]) else a.alias;
    if Clean(alias) == "" then alias else Clean(alias)
  }

  function BinderNames(exprName: Expr -> string): Naming {
    (part: Part, a: AggExpr) =>
      if !IsDerived(a) then ""
      else
        var alias := InternalAlias(a, exprName);
        match part
        case Bare => alias
        case SumPart => SUM_COL_PREFIX + alias
        case SumSqPart => SumSqPrefix(a.name) + alias
        case CountPart => COUNT_COL_PREFIX + alias
  }

  /** The slots that take the place of one aggregate: sum, sum of squares (not for avg) and count. */
  function Expanded(a: AggExpr, naming: Naming): (slots: seq<AggExpr>)
    ensures |slots| >= 1
  {
    if !IsDerived(a) then [a]
    else
      var x := a.args[0];
      [BoundAggregate(Sum, [x], false, None, naming(SumPart, a))]
      + (if a.name.Avg? then []
         else [BoundAggregate(Sum, [Scalar(Times, [x, x])], false, None, naming(SumSqPart, a))])
      + [BoundAggregate(Count, [x], false, None, naming(CountPart, a))]
  }

  function Concat<T>(blocks: seq<seq<T>>): seq<T> {
    if blocks == [] then [] else Concat(blocks[..|blocks| - 1]) + blocks[|blocks| - 1]
  }

  function Blocks(es: seq<AggExpr>, naming: Naming): (blocks: seq<seq<AggExpr>>)
    ensures |blocks| == |es| && forall i :: 0 <= i < |es| ==> blocks[i] == Expanded(es[i], naming)
  {
    seq(|es|, i requires 0 <= i < |es| => Expanded(es[i], naming))
  }

  function NewExpressions(es: seq<AggExpr>, naming: Naming): seq<AggExpr> {
    Concat(Blocks(es, naming))
  }

  /** Where the slots of old column j start. */
  function Offset(es: seq<AggExpr>, j: nat, naming: Naming): nat
    requires j <= |es|
  {
    |Concat(Blocks(es, naming)[..j])|
  }

  predicate HasDerived(es: seq<AggExpr>) {
    exists i :: 0 <= i < |es| && es[i].BoundAggregate? && IsDerivedName(es[i].name)
  }

  function NumeratorExpr(sum: Expr, sumSq: Expr, count: Expr): Expr {
    Scalar(Minus, [sumSq, Scalar(Divide, [Scalar(Times, [sum, sum]), count])])
  }

  function VarianceExpr(name: AggName, sum: Expr, sumSq: Expr, count: Expr): Expr {
    Scalar(Divide, [NumeratorExpr(sum, sumSq, count),
                    if IsPopulationVariant(name) then count else Scalar(Minus, [count, Constant(Num(1.0))])])
  }

  /** The expression that rebuilds a derived aggregate from its stored columns. */
  function RebuildExpr(name: AggName, sum: Expr, sumSq: Expr, count: Expr): Expr {
    if name.Avg? then Scalar(Divide, [sum, count])
    else
      var variance := VarianceExpr(name, sum, sumSq, count);
      Case(Scalar(GreaterThan, [count, Constant(Num(Threshold(name)))]),
           if IsStddevVariant(name) then Scalar(SquareRoot, [variance]) else variance,
           Constant(Null))
  }

  /** The same over slots starting at off. */
  function Replacement(name: AggName, table: nat, off: nat): Expr {
    RebuildExpr(name, ColumnRef(Binding(table, off)), ColumnRef(Binding(table, off + 1)),
                ColumnRef(Binding(table, off + if name.Avg? then 1 else 2)))
  }

  /** References to decomposed columns are replaced, references to the others renumbered. */
  function Walk(e: Expr, table: nat, es: seq<AggExpr>, naming: Naming): Expr
    decreases e
  {
    match e
    case ColumnRef(b) =>
      if b.table == table && b.column < |es| then
        var off := Offset(es, b.column, naming);
        if IsDerived(es[b.column]) then Replacement(es[b.column].name, table, off) else ColumnRef(Binding(table, off))
      else e
    case Constant(v) => e
    case Scalar(name, args) => Scalar(name, WalkAll(args, table, es, naming))
    case Case(c, t, f) => Case(Walk(c, table, es, naming), Walk(t, table, es, naming), Walk(f, table, es, naming))
  }

  function WalkAll(args: seq<Expr>, table: nat, es: seq<AggExpr>, naming: Naming): (r: seq<Expr>)
    ensures |r| == |args|
    ensures forall i :: 0 <= i < |args| ==> r[i] == Walk(args[i], table, es, naming)
    decreases args
  {
    if args == [] then [] else [Walk(args[0], table, es, naming)] + WalkAll(args[1..], table, es, naming)
  }

  function WalkItems(items: seq<Item>, table: nat, es: seq<AggExpr>, naming: Naming): (r: seq<Item>)
    ensures |r| == |items|
    ensures forall i :: 0 <= i < |items| ==> r[i] == Item(Walk(items[i].expr, table, es, naming), items[i].alias)
  {
    seq(|items|, i requires 0 <= i < |items| => Item(Walk(items[i].expr, table, es, naming), items[i].alias))
  }

  /** The alias of the first projection entry that is exactly the given column. */
  function UserAlias(items: seq<Item>, b: Binding, fallback: string): string {
    if items == [] then fallback
    else if items[0].expr == ColumnRef(b) then (if items[0].alias == "" then fallback else items[0].alias)
    else UserAlias(items[1..], b, fallback)
  }

  function ColumnSuffix(items: seq<Item>, b: Binding, alias: string): string {
    var user := UserAlias(items, b, alias);
    var suffix := Clean(if user == "" then alias else user);
    if suffix == "" then alias else suffix
  }

  /** The hidden columns appended for old column j. */
  function HiddenItems(items: seq<Item>, table: nat, es: seq<AggExpr>, j: nat, naming: Naming): seq<Item>
    requires j < |es|
  {
    if !IsDerived(es[j]) then []
    else
      var name, off := es[j].name, Offset(es, j, naming);
      var suffix := ColumnSuffix(items, Binding(table, j), naming(Bare, es[j]));
      [Item(ColumnRef(Binding(table, off)), SUM_COL_PREFIX + suffix)]
      + (if name.Avg? then [] else [Item(ColumnRef(Binding(table, off + 1)), SumSqPrefix(name) + suffix)])
      + [Item(ColumnRef(Binding(table, off + if name.Avg? then 1 else 2)), COUNT_COL_PREFIX + suffix)]
  }

  function AllHiddenItems(items: seq<Item>, table: nat, es: seq<AggExpr>, n: nat, naming: Naming): seq<Item>
    requires n <= |es|
  {
    if n == 0 then [] else AllHiddenItems(items, table, es, n - 1, naming) + HiddenItems(items, table, es, n - 1, naming)
  }

  function NewItems(items: seq<Item>, table: nat, es: seq<AggExpr>, naming: Naming): seq<Item> {
    WalkItems(items, table, es, naming) + AllHiddenItems(items, table, es, |es|, naming)
  }

  // ---- the passes over a plan ----

  function Normalized(a: AggExpr): AggExpr {
    if a.BoundAggregate? && a.filter.Some? && !a.name.List? then
      if a.args == [] then
        BoundAggregate(Count, [Case(a.filter.value, Constant(Num(1.0)), Constant(Null))], false, None, a.alias)
      else
        a.(args := a.args[0 := Case(a.filter.value, a.args[0], Constant(Null))], filter := None)
    else a
  }

  function NormalizedAll(es: seq<AggExpr>): (r: seq<AggExpr>)
    ensures |r| == |es|
    ensures forall i :: 0 <= i < |es| ==> r[i] == Normalized(es[i])
  {
    seq(|es|, i requires 0 <= i < |es| => Normalized(es[i]))
  }

  function WithExpressions(op: Operator, es: seq<AggExpr>): Operator
    requires op.Aggregate?
  {
    op.(expressions := es)
  }

  /** RewriteAggregateFilters, bottom-up. */
  function FiltersRewritten(p: Plan): Plan
    decreases p
  {
    Node(if p.op.Aggregate? then WithExpressions(p.op, NormalizedAll(p.op.expressions)) else p.op,
         FiltersRewrittenAll(p.children))
  }

  function FiltersRewrittenAll(ps: seq<Plan>): (r: seq<Plan>)
    ensures |r| == |ps|
    ensures forall i :: 0 <= i < |ps| ==> r[i] == FiltersRewritten(ps[i])
    decreases ps
  {
    if ps == [] then [] else [FiltersRewritten(ps[0])] + FiltersRewrittenAll(ps[1..])
  }

  predicate IsProjectionOverAggregate(p: Plan) {
    p.op.Projection? && |p.children| > 0 && p.children[0].op.Aggregate?
  }

  predicate IsProjectionOverHaving(p: Plan) {
    && p.op.Projection? && |p.children| > 0 && p.children[0].op.Filter?
    && |p.children[0].children| > 0 && p.children[0].children[0].op.Aggregate?
  }

  function RewrittenProjection(op: Operator, agg: Operator, naming: Naming): Operator
    requires op.Projection? && agg.Aggregate?
  {
    op.(items := NewItems(op.items, agg.aggregateIndex, agg.expressions, naming))
  }

  function RewrittenAggregate(agg: Operator, naming: Naming): Operator
    requires agg.Aggregate?
  {
    WithExpressions(agg, NewExpressions(agg.expressions, naming))
  }

  /** The rewrite of one projection and the aggregate it finds below. */
  function PairRewritten(p: Plan, isTop: bool, naming: Naming): Plan {
    if IsProjectionOverAggregate(p) && HasDerived(p.children[0].op.expressions) then
      var agg := p.children[0];
      Node(RewrittenProjection(p.op, agg.op, naming),
           p.children[0 := Node(RewrittenAggregate(agg.op, naming), agg.children)])
    else if isTop && IsProjectionOverHaving(p) && HasDerived(p.children[0].children[0].op.expressions) then
      var having := p.children[0];
      var agg := having.children[0];
      Node(RewrittenProjection(p.op, agg.op, naming),
           p.children[0 := Node(having.op, having.children[0 := Node(RewrittenAggregate(agg.op, naming), agg.children)])])
    else p
  }

  /** RewriteDerivedAggregates, bottom-up. */
  function DerivedRewritten(p: Plan, isTop: bool, naming: Naming): Plan
    decreases p, 1
  {
    PairRewritten(Node(p.op, DerivedRewrittenAll(p.children, naming)), isTop, naming)
  }

  function DerivedRewrittenAll(ps: seq<Plan>, naming: Naming): (r: seq<Plan>)
    ensures |r| == |ps|
    ensures forall i :: 0 <= i < |ps| ==> r[i] == DerivedRewritten(ps[i], false, naming)
    decreases ps, 0
  {
    if ps == [] then [] else [DerivedRewritten(ps[0], false, naming)] + DerivedRewrittenAll(ps[1..], naming)
  }

  // ---- where the slots are ----

  lemma {:induction false} ConcatAt<T>(blocks: seq<seq<T>>, j: nat, k: nat)
    requires j < |blocks| && k < |blocks[j]|
    ensures |Concat(blocks[..j])| + k < |Concat(blocks)|
    ensures Concat(blocks)[|Concat(blocks[..j])| + k] == blocks[j][k]
  {
    var last := |blocks| - 1;
    if j < last {
      assert blocks[..last][..j] == blocks[..j];
      ConcatAt(blocks[..last], j, k);
    }
  }

  lemma SlotAt(es: seq<AggExpr>, j: nat, k: nat, naming: Naming)
    requires j < |es| && k < |Expanded(es[j], naming)|
    ensures Offset(es, j, naming) + k < |NewExpressions(es, naming)|
    ensures NewExpressions(es, naming)[Offset(es, j, naming) + k] == Expanded(es[j], naming)[k]
  {
    hide Expanded;
    ConcatAt(Blocks(es, naming), j, k);
  }

  // ---- decomposed aggregates ----

  function SquareValues(vs: seq<Value>): (r: seq<Value>)
    ensures |r| == |vs| && forall i :: 0 <= i < |vs| ==> r[i] == Mul(vs[i], vs[i])
  {
    seq(|vs|, i requires 0 <= i < |vs| => Mul(vs[i], vs[i]))
  }

  lemma {:induction false} SquareTotals(vs: seq<Value>)
    ensures var xs, sqs := Numbers(NonNull(vs)), Numbers(NonNull(SquareValues(vs)));
            |sqs| == |xs| && Total(sqs) == SquareTotal(xs)
  {
    if vs != [] {
      SquareTotals(vs[1..]);
      var v, rest := vs[0], vs[1..];
      assert SquareValues(vs)[1..] == SquareValues(rest);
      if !v.Null? {
        assert NonNull(vs) == [v] + NonNull(rest);
        assert NonNull(SquareValues(vs)) == [Mul(v, v)] + NonNull(SquareValues(rest));
        PushNumber(v, NonNull(rest));
        PushNumber(Mul(v, v), NonNull(SquareValues(rest)));
        var xs := Numbers(NonNull(rest));
        assert ([Number(v)] + xs)[1..] == xs;
        assert SquareTotal([Number(v)] + xs) == Number(v) * Number(v) + SquareTotal(xs);
        assert Number(Mul(v, v)) == Number(v) * Number(v);
      } else {
        assert NonNull(vs) == NonNull(rest);
        assert NonNull(SquareValues(vs)) == NonNull(SquareValues(rest));
      }
    }
  }

  lemma PushNumber(v: Value, vs: seq<Value>)
    ensures var xs := Numbers([v] + vs);
            xs == [Number(v)] + Numbers(vs) && Total(xs) == Number(v) + Total(Numbers(vs))
  {
    assert ([v] + vs)[1..] == vs;
    var xs := [Number(v)] + Numbers(vs);
    assert xs[1..] == Numbers(vs);
  }

  lemma {:induction false} Squares(x: Expr, rows: seq<Row>, env: Environment)
    ensures Firsts(Tuples([Scalar(Times, [x, x])], rows, env)) == SquareValues(Firsts(Tuples([x], rows, env)))
  {
    var sq := Scalar(Times, [x, x]);
    if rows != [] {
      Squares(x, rows[1..], env);
      TuplesStep([x], rows, env);
      TuplesStep([sq], rows, env);
      BinaryValue(Times, x, x, rows[0], env);
    }
  }

  lemma TuplesStep(args: seq<Expr>, rows: seq<Row>, env: Environment)
    requires rows != []
    ensures Tuples(args, rows, env) == [EvalAll(args, rows[0], env)] + Tuples(args, rows[1..], env)
  {
  }

  /** h is what the slots of a hold over the rows. */
  ghost predicate HoldsSlots(h: Hidden, a: AggExpr, rows: seq<Row>, env: Environment, naming: Naming)
    requires IsDerived(a)
  {
    var slots := Expanded(a, naming);
    && h.sum == AggValue(slots[0], rows, env)
    && h.sumSq == AggValue(slots[1], rows, env)
    && h.count == AggValue(slots[|slots| - 1], rows, env)
  }

  /** The slots of a derived aggregate hold the sum, the sum of squares and the count of its non-null arguments. */
  lemma SlotValues(a: AggExpr, rows: seq<Row>, env: Environment, naming: Naming)
    requires IsDerived(a) && |a.args| == 1
    ensures var h := HiddenOf(Numbers(NonNull(Firsts(Tuples(a.args, rows, env)))));
            var slots := Expanded(a, naming);
            && AggValue(slots[0], rows, env) == h.sum
            && (!a.name.Avg? ==> AggValue(slots[1], rows, env) == h.sumSq)
            && AggValue(slots[|slots| - 1], rows, env) == h.count
  {
    var x := a.args[0];
    assert a.args == [x];
    Squares(x, rows, env);
    SquareTotals(Firsts(Tuples([x], rows, env)));
  }

  /** What a plain derived aggregate is, as a function of the non-null values of its argument. */
  lemma DerivedAggValue(a: AggExpr, rows: seq<Row>, env: Environment)
    requires IsDerived(a) && |a.args| == 1 && !a.distinct && a.filter.None?
    ensures AggValue(a, rows, env) == DerivedValue(a.name, Numbers(NonNull(Firsts(Tuples(a.args, rows, env)))), env.root)
  {
    hide DerivedValue, Tuples, Numbers, NonNull, Firsts;
    assert Where(a.filter, rows, env) == rows;
  }

  lemma SlotsRebuild(a: AggExpr, rows: seq<Row>, env: Environment, naming: Naming, h: Hidden)
    requires IsDerived(a) && |a.args| == 1 && !a.distinct && a.filter.None?
    requires HoldsSlots(h, a, rows, env, naming)
    ensures Rebuilt(a.name, h, env.root) == AggValue(a, rows, env)
  {
    hide AggValue, DerivedValue, Rebuilt, Tuples, Numbers, NonNull, Firsts, Expanded, HiddenOf;
    var xs := Numbers(NonNull(Firsts(Tuples(a.args, rows, env))));
    SlotValues(a, rows, env, naming);
    RebuiltIsDefinition(a.name, xs, env.root);
    DerivedAggValue(a, rows, env);
    if a.name.Avg? {
      AverageIgnoresSquares(h, HiddenOf(xs), env.root);
    } else {
      assert h == HiddenOf(xs);
    }
  }

  lemma AverageIgnoresSquares(h: Hidden, h': Hidden, root: real -> real)
    requires h.sum == h'.sum && h.count == h'.count
    ensures Rebuilt(Avg, h, root) == Rebuilt(Avg, h', root)
  {
  }

  // ---- projections over rewritten aggregates ----

  /** The same aggregate, whatever its alias. */
  predicate SameButAlias(a: AggExpr, b: AggExpr) {
    a == b || (a.BoundAggregate? && b.BoundAggregate? && a.(alias := "") == b.(alias := ""))
  }

  /** The column with the old number still holds the old aggregate: nothing before it was decomposed, or a slot of some
      decomposition happens to be the same sum or count. */
  predicate KeepsMeaning(es: seq<AggExpr>, j: nat, naming: Naming)
    requires j < |es|
  {
    j < |NewExpressions(es, naming)| && SameButAlias(es[j], NewExpressions(es, naming)[j])
  }

  /** r' holds, in the rewritten slots, what r holds in the original columns. */
  ghost predicate Carries(op: Operator, r: Row, r': Row, env: Environment, naming: Naming)
    requires op.Aggregate?
  {
    && (forall b: Binding :: b.table == op.groupIndex && b.column < |op.groups| ==> r(b) == r'(b))
    && (forall j :: 0 <= j < |op.expressions| ==> CarriesColumn(op, j, r, r', env, naming))
    && (forall j :: 0 <= j < |op.expressions| && KeepsMeaning(op.expressions, j, naming) ==>
          r(Binding(op.aggregateIndex, j)) == r'(Binding(op.aggregateIndex, j)))
  }

  /** The stored columns of a derived aggregate, in a row. */
  ghost function HiddenAt(name: AggName, table: nat, off: nat, r: Row): Hidden {
    Hidden(r(Binding(table, off)), r(Binding(table, off + 1)), r(Binding(table, off + if name.Avg? then 1 else 2)))
  }

  ghost predicate CarriesColumn(op: Operator, j: nat, r: Row, r': Row, env: Environment, naming: Naming)
    requires op.Aggregate? && j < |op.expressions|
  {
    var es, t := op.expressions, op.aggregateIndex;
    var off := Offset(es, j, naming);
    r(Binding(t, j)) ==
      if !IsDerived(es[j]) then r'(Binding(t, off)) else Rebuilt(es[j].name, HiddenAt(es[j].name, t, off, r'), env.root)
  }

  lemma NumeratorValue(sum: Expr, sumSq: Expr, count: Expr, r: Row, env: Environment)
    ensures Eval(NumeratorExpr(sum, sumSq, count), r, env)
         == NumeratorOf(Hidden(Eval(sum, r, env), Eval(sumSq, r, env), Eval(count, r, env)))
  {
    var square := Scalar(Times, [sum, sum]);
    BinaryValue(Times, sum, sum, r, env);
    BinaryValue(Divide, square, count, r, env);
    BinaryValue(Minus, sumSq, Scalar(Divide, [square, count]), r, env);
  }

  lemma VarianceValue(name: AggName, sum: Expr, sumSq: Expr, count: Expr, r: Row, env: Environment)
    ensures Eval(VarianceExpr(name, sum, sumSq, count), r, env)
         == VarianceOf(name, Hidden(Eval(sum, r, env), Eval(sumSq, r, env), Eval(count, r, env)))
  {
    var one := Constant(Num(1.0));
    NumeratorValue(sum, sumSq, count, r, env);
    BinaryValue(Minus, count, one, r, env);
    BinaryValue(Divide, NumeratorExpr(sum, sumSq, count),
                if IsPopulationVariant(name) then count else Scalar(Minus, [count, one]), r, env);
  }

  lemma CaseValue(c: Expr, t: Expr, f: Expr, r: Row, env: Environment)
    ensures Eval(Case(c, t, f), r, env) == if IsTrue(Eval(c, r, env)) then Eval(t, r, env) else Eval(f, r, env)
  {
  }

  lemma RootValue(x: Expr, r: Row, env: Environment)
    ensures Eval(Scalar(SquareRoot, [x]), r, env) == Sqrt(env.root, Eval(x, r, env))
  {
    hide Sqrt;
    assert EvalAll([x], r, env) == [Eval(x, r, env)];
  }

  lemma ThresholdValue(count: Expr, bound: real, r: Row, env: Environment)
    ensures Eval(Scalar(GreaterThan, [count, Constant(Num(bound))]), r, env) == Greater(Eval(count, r, env), Num(bound))
  {
    hide Greater;
    BinaryValue(GreaterThan, count, Constant(Num(bound)), r, env);
  }

  lemma RebuildValue(name: AggName, sum: Expr, sumSq: Expr, count: Expr, r: Row, env: Environment)
    requires IsDerivedName(name)
    ensures Eval(RebuildExpr(name, sum, sumSq, count), r, env)
         == Rebuilt(name, Hidden(Eval(sum, r, env), Eval(sumSq, r, env), Eval(count, r, env)), env.root)
  {
    hide Mul, Div, Sub, Sqrt, Greater, VarianceOf, NumeratorOf, VarianceExpr, Eval;
    if name.Avg? {
      BinaryValue(Divide, sum, count, r, env);
    } else {
      var variance := VarianceExpr(name, sum, sumSq, count);
      VarianceValue(name, sum, sumSq, count, r, env);
      ThresholdValue(count, Threshold(name), r, env);
      RootValue(variance, r, env);
      CaseValue(Scalar(GreaterThan, [count, Constant(Num(Threshold(name)))]),
                if IsStddevVariant(name) then Scalar(SquareRoot, [variance]) else variance, Constant(Null), r, env);
      ConstantValue(Null, r, env);
    }
  }

  lemma ConstantValue(v: Value, r: Row, env: Environment)
    ensures Eval(Constant(v), r, env) == v
  {
  }

  lemma ReplacementValue(name: AggName, table: nat, off: nat, r: Row, env: Environment)
    requires IsDerivedName(name)
    ensures Eval(Replacement(name, table, off), r, env) == Rebuilt(name, HiddenAt(name, table, off, r), env.root)
  {
    RebuildValue(name, ColumnRef(Binding(table, off)), ColumnRef(Binding(table, off + 1)),
                 ColumnRef(Binding(table, off + if name.Avg? then 1 else 2)), r, env);
  }

  lemma BinaryValue(name: ScalarName, a: Expr, b: Expr, r: Row, env: Environment)
    ensures Eval(Scalar(name, [a, b]), r, env) == Apply(env, name, [Eval(a, r, env), Eval(b, r, env)])
  {
    assert EvalAll([a, b], r, env) == [Eval(a, r, env), Eval(b, r, env)];
  }

  /** A walked expression over the rewritten slots has the value of the original over the original columns. */
  lemma {:induction false} WalkedValue(e: Expr, op: Operator, ok: Binding -> bool, r: Row, r': Row, env: Environment, naming: Naming)
    requires op.Aggregate? && op.groupIndex != op.aggregateIndex && Refs(e, ok) && Carries(op, r, r', env, naming)
    requires forall b :: ok(b) ==> HasColumn(Node(op, []), b)
    ensures Eval(Walk(e, op.aggregateIndex, op.expressions, naming), r', env) == Eval(e, r, env)
    decreases e
  {
    var t, es := op.aggregateIndex, op.expressions;
    match e
    case ColumnRef(b) =>
      assert HasColumn(Node(op, []), b);
      if b.table == t {
        assert CarriesColumn(op, b.column, r, r', env, naming);
        assert b == Binding(t, b.column);
        if IsDerived(es[b.column]) {
          ReplacementValue(es[b.column].name, t, Offset(es, b.column, naming), r', env);
        }
      }
    case Constant(v) =>
    case Scalar(name, args) =>
      WalkedValues(args, op, ok, r, r', env, naming);
    case Case(c, th, el) =>
      WalkedValue(c, op, ok, r, r', env, naming);
      WalkedValue(th, op, ok, r, r', env, naming);
      WalkedValue(el, op, ok, r, r', env, naming);
  }

  lemma {:induction false} WalkedValues(args: seq<Expr>, op: Operator, ok: Binding -> bool, r: Row, r': Row, env: Environment, naming: Naming)
    requires op.Aggregate? && op.groupIndex != op.aggregateIndex && RefsAll(args, ok) && Carries(op, r, r', env, naming)
    requires forall b :: ok(b) ==> HasColumn(Node(op, []), b)
    ensures EvalAll(WalkAll(args, op.aggregateIndex, op.expressions, naming), r', env) == EvalAll(args, r, env)
    decreases args
  {
    var walked := WalkAll(args, op.aggregateIndex, op.expressions, naming);
    forall i | 0 <= i < |args| ensures EvalAll(walked, r', env)[i] == EvalAll(args, r, env)[i] {
      WalkedValue(args[i], op, ok, r, r', env, naming);
    }
  }

  ghost predicate CarriesRows(op: Operator, rs: seq<Row>, rs': seq<Row>, env: Environment, naming: Naming)
    requires op.Aggregate?
  {
    && |rs| == |rs'|
    && forall i :: 0 <= i < |rs| ==> Carries(op, rs[i], rs'[i], env, naming)
  }

  /** The derived aggregates the decomposition is written for. */
  predicate PlainDerived(es: seq<AggExpr>) {
    forall j :: 0 <= j < |es| && IsDerived(es[j]) ==> |es[j].args| == 1 && !es[j].distinct && es[j].filter.None?
  }

  lemma GroupsCarry(op: Operator, ok: Binding -> bool, rs: seq<Row>, rs': seq<Row>, env: Environment, naming: Naming)
    requires op.Aggregate? && op.groupIndex != op.aggregateIndex && PlainDerived(op.expressions)
    requires RefsAll(op.groups, ok) && AlikeRows(ok, rs, rs')
    requires forall i :: 0 <= i < |op.expressions| ==> AggRefs(op.expressions[i], ok)
    ensures CarriesRows(op, GroupRows(op, rs, env), GroupRows(RewrittenAggregate(op, naming), rs', env), env, naming)
  {
    AlikeMembers(op.groups, ok, rs, rs', env);
    var keys := Keys(op.groups, rs, env);
    var op' := RewrittenAggregate(op, naming);
    var out, out' := GroupRows(op, rs, env), GroupRows(op', rs', env);
    KeyLengths(op.groups, rs, env);
    forall i | 0 <= i < |keys| ensures Carries(op, out[i], out'[i], env, naming) {
      var ms, ms' := KeyRows(op.groups, keys[i], rs, env), KeyRows(op.groups, keys[i], rs', env);
      assert out[i] == GroupRow(op, keys[i], ms, env) && out'[i] == GroupRow(op', keys[i], ms', env);
      assert |keys[i]| == |op.groups|;
      forall j | 0 <= j < |op.expressions| ensures CarriesColumn(op, j, out[i], out'[i], env, naming) {
        AlikeAggregate(op.expressions[j], ok, ms, ms', env);
        SlotsCarry(op, j, keys[i], ms', env, naming);
      }
      forall j | 0 <= j < |op.expressions| && KeepsMeaning(op.expressions, j, naming)
        ensures out[i](Binding(op.aggregateIndex, j)) == out'[i](Binding(op.aggregateIndex, j))
      {
        AlikeAggregate(op.expressions[j], ok, ms, ms', env);
        KeptColumnReads(op, j, keys[i], ms, ms', env, naming);
      }
    }
  }

  lemma KeyLengths(groups: seq<Expr>, rs: seq<Row>, env: Environment)
    ensures forall i :: 0 <= i < |Keys(groups, rs, env)| ==> |Keys(groups, rs, env)[i]| == |groups|
  {
    if groups != [] {
      var ts := Tuples(groups, rs, env);
      DedupMembers(ts);
      forall i | 0 <= i < |Dedup(ts)| ensures |Dedup(ts)[i]| == |groups| {
        assert Dedup(ts)[i] in ts;
      }
    }
  }

  lemma {:induction false} DedupMembers<T>(vs: seq<T>)
    ensures forall v :: v in Dedup(vs) <==> v in vs
  {
    if vs != [] {
      DedupMembers(vs[..|vs| - 1]);
      assert vs == vs[..|vs| - 1] + [vs[|vs| - 1]];
    }
  }

  lemma SlotsCarry(op: Operator, j: nat, key: seq<Value>, ms: seq<Row>, env: Environment, naming: Naming)
    requires op.Aggregate? && op.groupIndex != op.aggregateIndex && PlainDerived(op.expressions) && j < |op.expressions|
    ensures var t, a, off := op.aggregateIndex, op.expressions[j], Offset(op.expressions, j, naming);
            var r' := GroupRow(RewrittenAggregate(op, naming), key, ms, env);
            AggValue(a, ms, env) ==
              if !IsDerived(a) then r'(Binding(t, off)) else Rebuilt(a.name, HiddenAt(a.name, t, off, r'), env.root)
  {
    hide Expanded, AggValue, Rebuilt;
    var a := op.expressions[j];
    var slots := Expanded(a, naming);
    ExpandedLength(a, naming);
    SlotReads(op, j, 0, key, ms, env, naming);
    if IsDerived(a) {
      SlotReads(op, j, 1, key, ms, env, naming);
      SlotReads(op, j, |slots| - 1, key, ms, env, naming);
      var t, off := op.aggregateIndex, Offset(op.expressions, j, naming);
      var r' := GroupRow(RewrittenAggregate(op, naming), key, ms, env);
      SlotsRebuild(a, ms, env, naming, HiddenAt(a.name, t, off, r'));
    }
  }

  lemma ExpandedLength(a: AggExpr, naming: Naming)
    ensures |Expanded(a, naming)| == if !IsDerived(a) then 1 else if a.name.Avg? then 2 else 3
    ensures !IsDerived(a) ==> Expanded(a, naming)[0] == a
  {
  }

  lemma SlotReads(op: Operator, j: nat, k: nat, key: seq<Value>, ms: seq<Row>, env: Environment, naming: Naming)
    requires op.Aggregate? && op.groupIndex != op.aggregateIndex && j < |op.expressions|
    requires k < |Expanded(op.expressions[j], naming)|
    ensures GroupRow(RewrittenAggregate(op, naming), key, ms, env)(Binding(op.aggregateIndex, Offset(op.expressions, j, naming) + k))
         == AggValue(Expanded(op.expressions[j], naming)[k], ms, env)
  {
    hide Expanded, AggValue;
    SlotAt(op.expressions, j, k, naming);
    ColumnReads(RewrittenAggregate(op, naming), Offset(op.expressions, j, naming) + k, key, ms, env);
  }

  lemma ColumnReads(op: Operator, n: nat, key: seq<Value>, ms: seq<Row>, env: Environment)
    requires op.Aggregate? && op.groupIndex != op.aggregateIndex && n < |op.expressions|
    ensures GroupRow(op, key, ms, env)(Binding(op.aggregateIndex, n)) == AggValue(op.expressions[n], ms, env)
  {
  }

  lemma SameValue(a: AggExpr, b: AggExpr, rows: seq<Row>, env: Environment)
    requires SameButAlias(a, b)
    ensures AggValue(a, rows, env) == AggValue(b, rows, env)
  {
    hide AggregateValue, Tuples, Where;
    assert a.BoundAggregate? ==> a.(alias := "").name == b.(alias := "").name;
  }

  lemma KeptColumnReads(op: Operator, j: nat, key: seq<Value>, ms: seq<Row>, ms': seq<Row>, env: Environment, naming: Naming)
    requires op.Aggregate? && op.groupIndex != op.aggregateIndex && j < |op.expressions|
    requires KeepsMeaning(op.expressions, j, naming)
    requires AggValue(op.expressions[j], ms, env) == AggValue(op.expressions[j], ms', env)
    ensures GroupRow(op, key, ms, env)(Binding(op.aggregateIndex, j))
         == GroupRow(RewrittenAggregate(op, naming), key, ms', env)(Binding(op.aggregateIndex, j))
  {
    hide AggValue, NewExpressions, SameButAlias;
    ColumnReads(op, j, key, ms, env);
    ColumnReads(RewrittenAggregate(op, naming), j, key, ms', env);
    SameValue(op.expressions[j], NewExpressions(op.expressions, naming)[j], ms', env);
  }

  /** The original columns of a rewritten projection, over inputs that carry the same values. */
  lemma ItemsCarry(proj: Operator, op: Operator, rs: seq<Row>, rs': seq<Row>, ok: Binding -> bool, env: Environment, naming: Naming)
    requires proj.Projection? && op.Aggregate? && op.groupIndex != op.aggregateIndex
    requires CarriesRows(op, rs, rs', env, naming)
    requires forall i :: 0 <= i < |proj.items| ==> Refs(proj.items[i].expr, ok)
    requires forall b :: ok(b) ==> HasColumn(Node(op, []), b)
    ensures AlikeRows(Columns(Node(proj, [])), ProjectRows(proj.index, proj.items, rs, env),
                      ProjectRows(proj.index, NewItems(proj.items, op.aggregateIndex, op.expressions, naming), rs', env))
  {
    var items := NewItems(proj.items, op.aggregateIndex, op.expressions, naming);
    forall i, b | 0 <= i < |rs| && HasColumn(Node(proj, []), b)
      ensures ProjectRow(proj.index, proj.items, rs[i], env)(b) == ProjectRow(proj.index, items, rs'[i], env)(b)
    {
      WalkedValue(proj.items[b.column].expr, op, ok, rs[i], rs'[i], env, naming);
      assert items[b.column] == WalkItems(proj.items, op.aggregateIndex, op.expressions, naming)[b.column];
    }
  }

  // ---- a HAVING filter in between ----

  /** What a HAVING filter may read: group columns, and aggregates whose number keeps its meaning. */
  ghost function KeptColumns(op: Operator, naming: Naming): Binding -> bool
    requires op.Aggregate?
  {
    (b: Binding) =>
      || (b.table == op.groupIndex && b.column < |op.groups|)
      || (b.table == op.aggregateIndex && b.column < |op.expressions| && KeepsMeaning(op.expressions, b.column, naming))
  }

  lemma {:induction false} HavingCarries(conditions: seq<Expr>, op: Operator, rs: seq<Row>, rs': seq<Row>, env: Environment, naming: Naming)
    requires op.Aggregate? && op.groupIndex != op.aggregateIndex
    requires CarriesRows(op, rs, rs', env, naming) && RefsAll(conditions, KeptColumns(op, naming))
    ensures CarriesRows(op, FilterRows(conditions, rs, env), FilterRows(conditions, rs', env), env, naming)
  {
    if rs != [] {
      var ok := KeptColumns(op, naming);
      assert Carries(op, rs[0], rs'[0], env, naming);
      forall b | ok(b) ensures rs[0](b) == rs'[0](b) {
        assert b == Binding(b.table, b.column);
      }
      AlikeAllTrue(conditions, ok, rs[0], rs'[0], env);
      HavingCarries(conditions, op, rs[1..], rs'[1..], env, naming);
    }
  }

  // ---- the theorems ----

  /** The derived aggregates the pass finds are plain ones; and since it patches the projection only, a HAVING
      filter between the top projection and its aggregate reads columns that keep their meaning only. */
  ghost predicate Rewritable(p: Plan, isTop: bool, naming: Naming)
    decreases p
  {
    && (forall i :: 0 <= i < |p.children| ==> Rewritable(p.children[i], false, naming))
    && (IsProjectionOverAggregate(p) ==> PlainDerived(p.children[0].op.expressions))
    && (isTop && IsProjectionOverHaving(p) && HasDerived(p.children[0].children[0].op.expressions) ==>
          var agg := p.children[0].children[0].op;
          PlainDerived(agg.expressions) && RefsAll(p.children[0].op.conditions, KeptColumns(agg, naming)))
  }

  lemma {:induction false} RefsMonotone(e: Expr, ok: Binding -> bool, ok': Binding -> bool)
    requires Refs(e, ok) && forall b :: ok(b) ==> ok'(b)
    ensures Refs(e, ok')
    decreases e
  {
    match e
    case ColumnRef(b) =>
    case Constant(v) =>
    case Scalar(name, args) =>
      forall i | 0 <= i < |args| ensures Refs(args[i], ok') {
        RefsMonotone(args[i], ok, ok');
      }
    case Case(c, t, f) =>
      RefsMonotone(c, ok, ok');
      RefsMonotone(t, ok, ok');
      RefsMonotone(f, ok, ok');
  }

  /** The two inputs put out the same tables, and rows that read alike. */
  ghost predicate Same(c: Plan, c': Plan, env: Environment) {
    OutTables(c) == OutTables(c') && AlikeRows(Columns(c), Rows(c, env), Rows(c', env))
  }

  lemma ChildWellFormed(p: Plan, i: nat)
    requires WellFormed(p) && i < |p.children|
    ensures WellFormed(p.children[i])
  {
  }

  lemma AlikeWeaker(ok: Binding -> bool, ok': Binding -> bool, rs: seq<Row>, rs': seq<Row>)
    requires AlikeRows(ok, rs, rs') && forall b :: ok'(b) ==> ok(b)
    ensures AlikeRows(ok', rs, rs')
  {
    forall i | 0 <= i < |rs| ensures Alike(ok', rs[i], rs'[i]) {
      assert Alike(ok, rs[i], rs'[i]);
    }
  }

  lemma ItemRefs(proj: Operator, p: Plan, agg: Operator)
    requires proj.Projection? && agg.Aggregate?
    requires forall i :: 0 <= i < |proj.items| ==> Refs(proj.items[i].expr, Columns(p))
    requires forall b :: HasColumn(p, b) ==> HasColumn(Node(agg, []), b)
    ensures forall i :: 0 <= i < |proj.items| ==> Refs(proj.items[i].expr, Columns(Node(agg, [])))
  {
    forall i | 0 <= i < |proj.items| ensures Refs(proj.items[i].expr, Columns(Node(agg, []))) {
      RefsMonotone(proj.items[i].expr, Columns(p), Columns(Node(agg, [])));
    }
  }

  /** The rows of a rewritten pair, over inputs that read alike. */
  lemma PairRows(proj: Operator, conditions: seq<Expr>, agg: Operator, ok: Binding -> bool, rs: seq<Row>, rs': seq<Row>,
                 naming: Naming, env: Environment)
    requires proj.Projection? && agg.Aggregate? && agg.groupIndex != agg.aggregateIndex && PlainDerived(agg.expressions)
    requires RefsAll(agg.groups, ok) && forall i :: 0 <= i < |agg.expressions| ==> AggRefs(agg.expressions[i], ok)
    requires RefsAll(conditions, KeptColumns(agg, naming)) && AlikeRows(ok, rs, rs')
    requires forall i :: 0 <= i < |proj.items| ==> Refs(proj.items[i].expr, Columns(Node(agg, [])))
    ensures AlikeRows(Columns(Node(proj, [])),
              ProjectRows(proj.index, proj.items, FilterRows(conditions, GroupRows(agg, rs, env), env), env),
              ProjectRows(proj.index, NewItems(proj.items, agg.aggregateIndex, agg.expressions, naming),
                FilterRows(conditions, GroupRows(RewrittenAggregate(agg, naming), rs', env), env), env))
  {
    var gs, gs' := GroupRows(agg, rs, env), GroupRows(RewrittenAggregate(agg, naming), rs', env);
    GroupsCarry(agg, ok, rs, rs', env, naming);
    HavingCarries(conditions, agg, gs, gs', env, naming);
    ItemsCarry(proj, agg, FilterRows(conditions, gs, env), FilterRows(conditions, gs', env), Columns(Node(agg, [])), env, naming);
  }

  lemma {:induction false} NoConditions(rs: seq<Row>, env: Environment)
    ensures FilterRows([], rs, env) == rs
  {
    if rs != [] {
      NoConditions(rs[1..], env);
    }
  }

  lemma PairRowsAre(proj: Operator, agg: Operator, c: Plan, env: Environment)
    requires proj.Projection? && agg.Aggregate?
    ensures Rows(Node(proj, [Node(agg, [c])]), env) == ProjectRows(proj.index, proj.items, GroupRows(agg, Rows(c, env), env), env)
  {
    var inner := Node(agg, [c]);
    assert inner.children[0] == c && Node(proj, [inner]).children[0] == inner;
    assert Rows(inner, env) == GroupRows(agg, Rows(c, env), env);
  }

  lemma HavingPairRowsAre(proj: Operator, having: Operator, agg: Operator, c: Plan, env: Environment)
    requires proj.Projection? && having.Filter? && agg.Aggregate?
    ensures Rows(Node(proj, [Node(having, [Node(agg, [c])])]), env)
         == ProjectRows(proj.index, proj.items, FilterRows(having.conditions, GroupRows(agg, Rows(c, env), env), env), env)
  {
    var inner := Node(agg, [c]);
    var mid := Node(having, [inner]);
    assert inner.children[0] == c && mid.children[0] == inner && Node(proj, [mid]).children[0] == mid;
    assert Rows(inner, env) == GroupRows(agg, Rows(c, env), env);
    assert Rows(mid, env) == FilterRows(having.conditions, GroupRows(agg, Rows(c, env), env), env);
  }

  lemma PairResult(proj: Operator, agg: Operator, c: Plan, isTop: bool, naming: Naming)
    requires proj.Projection? && agg.Aggregate? && HasDerived(agg.expressions)
    ensures PairRewritten(Node(proj, [Node(agg, [c])]), isTop, naming)
         == Node(RewrittenProjection(proj, agg, naming), [Node(RewrittenAggregate(agg, naming), [c])])
  {
    var inner, inner' := Node(agg, [c]), Node(RewrittenAggregate(agg, naming), [c]);
    assert [inner][0 := inner'] == [inner'];
  }

  lemma HavingPairResult(proj: Operator, having: Operator, agg: Operator, c: Plan, naming: Naming)
    requires proj.Projection? && having.Filter? && agg.Aggregate? && HasDerived(agg.expressions)
    ensures PairRewritten(Node(proj, [Node(having, [Node(agg, [c])])]), true, naming)
         == Node(RewrittenProjection(proj, agg, naming), [Node(having, [Node(RewrittenAggregate(agg, naming), [c])])])
  {
    var inner, inner' := Node(agg, [c]), Node(RewrittenAggregate(agg, naming), [c]);
    assert [inner][0 := inner'] == [inner'];
    assert [Node(having, [inner])][0 := Node(having, [inner'])] == [Node(having, [inner'])];
  }

  /** A projection directly over its aggregate. */
  lemma PairPreserved(proj: Operator, agg: Operator, c: Plan, c': Plan, isTop: bool, naming: Naming, env: Environment)
    requires WellFormed(Node(proj, [Node(agg, [c])])) && proj.Projection? && agg.Aggregate? && HasDerived(agg.expressions)
    requires PlainDerived(agg.expressions) && Same(c, c', env)
    ensures Same(Node(proj, [Node(agg, [c])]), PairRewritten(Node(proj, [Node(agg, [c'])]), isTop, naming), env)
  {
    var inner := Node(agg, [c]);
    var p := Node(proj, [inner]);
    ChildWellFormed(p, 0);
    ItemRefs(proj, inner, agg);
    PairRows(proj, [], agg, Columns(c), Rows(c, env), Rows(c', env), naming, env);
    NoConditions(GroupRows(agg, Rows(c, env), env), env);
    NoConditions(GroupRows(RewrittenAggregate(agg, naming), Rows(c', env), env), env);
    var q := Node(RewrittenProjection(proj, agg, naming), [Node(RewrittenAggregate(agg, naming), [c'])]);
    PairResult(proj, agg, c', isTop, naming);
    PairRowsAre(proj, agg, c, env);
    PairRowsAre(RewrittenProjection(proj, agg, naming), RewrittenAggregate(agg, naming), c', env);
    AlikeWeaker(Columns(Node(proj, [])), Columns(p), Rows(p, env), Rows(q, env));
  }

  /** The top projection over a HAVING filter over its aggregate. */
  lemma HavingPairPreserved(proj: Operator, having: Operator, agg: Operator, c: Plan, c': Plan, naming: Naming, env: Environment)
    requires WellFormed(Node(proj, [Node(having, [Node(agg, [c])])])) && proj.Projection? && having.Filter? && agg.Aggregate?
    requires HasDerived(agg.expressions) && PlainDerived(agg.expressions) && Same(c, c', env)
    requires RefsAll(having.conditions, KeptColumns(agg, naming))
    ensures Same(Node(proj, [Node(having, [Node(agg, [c])])]),
                 PairRewritten(Node(proj, [Node(having, [Node(agg, [c'])])]), true, naming), env)
  {
    hide GroupRows, FilterRows, ProjectRows, NewItems, NewExpressions, Rows, PlainDerived, KeptColumns, DerivedRewritten;
    var inner := Node(agg, [c]);
    var mid := Node(having, [inner]);
    var p := Node(proj, [mid]);
    ChildWellFormed(p, 0);
    ChildWellFormed(mid, 0);
    ItemRefs(proj, mid, agg);
    PairRows(proj, having.conditions, agg, Columns(c), Rows(c, env), Rows(c', env), naming, env);
    var q := Node(RewrittenProjection(proj, agg, naming), [Node(having, [Node(RewrittenAggregate(agg, naming), [c'])])]);
    HavingPairResult(proj, having, agg, c', naming);
    HavingPairRowsAre(proj, having, agg, c, env);
    HavingPairRowsAre(RewrittenProjection(proj, agg, naming), having, RewrittenAggregate(agg, naming), c', env);
    AlikeWeaker(Columns(Node(proj, [])), Columns(p), Rows(p, env), Rows(q, env));
  }

  lemma {:induction false} ChildrenPreserved(ps: seq<Plan>, naming: Naming, env: Environment)
    requires forall i :: 0 <= i < |ps| ==> WellFormed(ps[i]) && Rewritable(ps[i], false, naming)
    ensures forall i :: 0 <= i < |ps| ==> Same(ps[i], DerivedRewrittenAll(ps, naming)[i], env)
    decreases ps, 0
  {
    forall i | 0 <= i < |ps| ensures Same(ps[i], DerivedRewrittenAll(ps, naming)[i], env) {
      DerivedRewritePreserves(ps[i], false, naming, env);
    }
  }

  /** An aggregate, or a filter over one, is left alone until its projection is reached. */
  lemma AggregateUntouched(p: Plan, naming: Naming)
    requires !p.op.Projection?
    ensures DerivedRewritten(p, false, naming) == Node(p.op, DerivedRewrittenAll(p.children, naming))
  {
  }

  /** The rewrite preserves meaning: every original column of every row reads the same, at any nesting depth. */
  lemma {:induction false} DerivedRewritePreserves(p: Plan, isTop: bool, naming: Naming, env: Environment)
    requires WellFormed(p) && Rewritable(p, isTop, naming)
    ensures Same(p, DerivedRewritten(p, isTop, naming), env)
    decreases p, 1
  {
    hide Same, NewItems, NewExpressions, PairRewritten, PlainDerived, KeptColumns, RefsAll;
    ChildrenPreserved(p.children, naming, env);
    if IsProjectionOverAggregate(p) && HasDerived(p.children[0].op.expressions) {
      var agg := p.children[0];
      ChildrenPreserved(agg.children, naming, env);
      DirectPair(p, isTop, naming, env);
    } else if isTop && IsProjectionOverHaving(p) && HasDerived(p.children[0].children[0].op.expressions) {
      var agg := p.children[0].children[0];
      ChildWellFormed(p.children[0], 0);
      ChildrenPreserved(agg.children, naming, env);
      HavingPair(p, naming, env);
    } else {
      NoPair(p, isTop, naming, env);
    }
  }

  /** An operator that is not rewritten keeps its meaning over rewritten inputs. */
  lemma NoPair(p: Plan, isTop: bool, naming: Naming, env: Environment)
    requires WellFormed(p)
    requires !(IsProjectionOverAggregate(p) && HasDerived(p.children[0].op.expressions))
    requires !(isTop && IsProjectionOverHaving(p) && HasDerived(p.children[0].children[0].op.expressions))
    requires forall i :: 0 <= i < |p.children| ==> Same(p.children[i], DerivedRewrittenAll(p.children, naming)[i], env)
    ensures Same(p, DerivedRewritten(p, isTop, naming), env)
  {
    hide Same, PairRewritten, WellFormed, HasDerived;
    var cs := DerivedRewrittenAll(p.children, naming);
    SameOperator(p, cs, env);
    NotRewritten(p, cs, isTop, naming);
  }

  lemma SameOperator(p: Plan, cs: seq<Plan>, env: Environment)
    requires WellFormed(p) && |cs| == |p.children|
    requires forall i :: 0 <= i < |cs| ==> Same(p.children[i], cs[i], env)
    ensures Same(p, Node(p.op, cs), env)
  {
    hide Rows, OutTables, AlikeRows, WellFormed;
    assert p == Node(p.op, p.children);
    SameOutTables(p, cs);
    OperatorCongruent(p.op, p.children, cs, env);
  }

  lemma SameOutTables(p: Plan, cs: seq<Plan>)
    requires |cs| == |p.children| && forall i :: 0 <= i < |cs| ==> OutTables(p.children[i]) == OutTables(cs[i])
    ensures OutTables(p) == OutTables(Node(p.op, cs))
  {
  }

  lemma DirectPair(p: Plan, isTop: bool, naming: Naming, env: Environment)
    requires WellFormed(p) && IsProjectionOverAggregate(p)
    requires HasDerived(p.children[0].op.expressions) && PlainDerived(p.children[0].op.expressions)
    requires forall i :: 0 <= i < |p.children[0].children| ==>
               Same(p.children[0].children[i], DerivedRewrittenAll(p.children[0].children, naming)[i], env)
    ensures Same(p, DerivedRewritten(p, isTop, naming), env)
  {
    var agg := p.children[0];
    ChildWellFormed(p, 0);
    var c := agg.children[0];
    var c' := DerivedRewritten(c, false, naming);
    AggregateUntouched(agg, naming);
    assert p.children == [agg] && agg.children == [c] && DerivedRewrittenAll([c], naming) == [c'];
    assert DerivedRewrittenAll([agg], naming) == [Node(agg.op, [c'])];
    assert p == Node(p.op, [Node(agg.op, [c])]);
    PairPreserved(p.op, agg.op, c, c', isTop, naming, env);
  }

  lemma HavingPair(p: Plan, naming: Naming, env: Environment)
    requires WellFormed(p) && IsProjectionOverHaving(p) && Rewritable(p, true, naming)
    requires HasDerived(p.children[0].children[0].op.expressions)
    requires var agg := p.children[0].children[0];
             forall i :: 0 <= i < |agg.children| ==> Same(agg.children[i], DerivedRewrittenAll(agg.children, naming)[i], env)
    ensures Same(p, DerivedRewritten(p, true, naming), env)
  {
    var having := p.children[0];
    var agg := having.children[0];
    ChildWellFormed(p, 0);
    ChildWellFormed(having, 0);
    var c := agg.children[0];
    var c' := DerivedRewritten(c, false, naming);
    AggregateUntouched(having, naming);
    AggregateUntouched(agg, naming);
    assert p.children == [having] && having.children == [agg] && agg.children == [c] && DerivedRewrittenAll([c], naming) == [c'];
    assert DerivedRewrittenAll([agg], naming) == [Node(agg.op, [c'])];
    assert DerivedRewrittenAll([having], naming) == [Node(having.op, [Node(agg.op, [c'])])];
    assert p == Node(p.op, [Node(having.op, [Node(agg.op, [c])])]);
    HavingPairPreserved(p.op, having.op, agg.op, c, c', naming, env);
  }

  lemma NotRewritten(p: Plan, cs: seq<Plan>, isTop: bool, naming: Naming)
    requires cs == DerivedRewrittenAll(p.children, naming)
    requires !(IsProjectionOverAggregate(p) && HasDerived(p.children[0].op.expressions))
    requires !(isTop && IsProjectionOverHaving(p) && HasDerived(p.children[0].children[0].op.expressions))
    ensures PairRewritten(Node(p.op, cs), isTop, naming) == Node(p.op, cs)
  {
    if p.op.Projection? && p.children != [] {
      KindsKept(p.children[0], naming);
      if p.children[0].op.Filter? && p.children[0].children != [] {
        AggregateUntouched(p.children[0], naming);
        KindsKept(p.children[0].children[0], naming);
      }
    }
  }

  lemma KindsKept(p: Plan, naming: Naming)
    ensures var q := DerivedRewritten(p, false, naming);
            && q.op.Projection? == p.op.Projection? && |q.children| == |p.children|
            && (!p.op.Projection? ==> q.op == p.op)
  {
  }
}
