/** A HAVING filter over a decomposed aggregate is not patched: exactly when the rewrite keeps the result all the same. */
module HavingLimits {
  import opened SqlValues
  import opened DerivedAggregates
  import opened Plans
  import opened AggregateRewrite

  // ---- expressions do not look at the tables ----

  ghost predicate SameFunctions(env: Environment, env': Environment) {
    env.root == env'.root && env.scalar == env'.scalar && env.aggregate == env'.aggregate
  }

  lemma {:induction false} EvalSame(e: Expr, r: Row, env: Environment, env': Environment)
    requires SameFunctions(env, env')
    ensures Eval(e, r, env) == Eval(e, r, env')
    decreases e
  {
    match e
    case ColumnRef(b) =>
    case Constant(v) =>
    case Scalar(name, args) =>
      forall i | 0 <= i < |args| ensures Eval(args[i], r, env) == Eval(args[i], r, env') {
        EvalSame(args[i], r, env, env');
      }
      assert EvalAll(args, r, env) == EvalAll(args, r, env');
    case Case(c, t, f) =>
      EvalSame(c, r, env, env');
      EvalSame(t, r, env, env');
      EvalSame(f, r, env, env');
  }

  lemma EvalAllSame(es: seq<Expr>, r: Row, env: Environment, env': Environment)
    requires SameFunctions(env, env')
    ensures EvalAll(es, r, env) == EvalAll(es, r, env')
  {
    forall i | 0 <= i < |es| ensures Eval(es[i], r, env) == Eval(es[i], r, env') {
      EvalSame(es[i], r, env, env');
    }
  }

  lemma TuplesSame(args: seq<Expr>, rows: seq<Row>, env: Environment, env': Environment)
    requires SameFunctions(env, env')
    ensures Tuples(args, rows, env) == Tuples(args, rows, env')
  {
    hide EvalAll;
    forall i | 0 <= i < |rows| ensures EvalAll(args, rows[i], env) == EvalAll(args, rows[i], env') {
      EvalAllSame(args, rows[i], env, env');
    }
  }

  lemma {:induction false} WhereSame(condition: Option<Expr>, rows: seq<Row>, env: Environment, env': Environment)
    requires SameFunctions(env, env')
    ensures Where(condition, rows, env) == Where(condition, rows, env')
  {
    hide Eval;
    if condition.Some? && rows != [] {
      EvalSame(condition.value, rows[0], env, env');
      WhereSame(condition, rows[1..], env, env');
    }
  }

  lemma AggValueSame(a: AggExpr, rows: seq<Row>, env: Environment, env': Environment)
    requires SameFunctions(env, env')
    ensures AggValue(a, rows, env) == AggValue(a, rows, env')
  {
    hide Tuples, Where;
    match a
    case BoundAggregate(name, args, distinct, filter, _) =>
      WhereSame(filter, rows, env, env');
      TuplesSame(args, Where(filter, rows, env), env, env');
    case OtherExpr(e) => TuplesSame([e], rows, env, env');
  }

  /** Whether the conditions hold of a group does not depend on the tables. */
  lemma DecisionSame(conditions: seq<Expr>, op: Operator, key: seq<Value>, ms: seq<Row>, env: Environment, env': Environment)
    requires op.Aggregate? && SameFunctions(env, env')
    ensures AllTrue(conditions, GroupRow(op, key, ms, env), env) <==> AllTrue(conditions, GroupRow(op, key, ms, env'), env')
  {
    hide AggValue, Eval;
    var g, g' := GroupRow(op, key, ms, env), GroupRow(op, key, ms, env');
    forall b ensures g(b) == g'(b) {
      if b.table == op.aggregateIndex && b.column < |op.expressions| {
        AggValueSame(op.expressions[b.column], ms, env, env');
      }
    }
    forall i | 0 <= i < |conditions| ensures Eval(conditions[i], g, env) == Eval(conditions[i], g', env') {
      EvalSame(conditions[i], g, env, env');
      RefsAnything(conditions[i]);
      AlikeEval(conditions[i], Anything(), g, g', env');
    }
  }

  ghost function Anything(): Binding -> bool {
    (b: Binding) => true
  }

  lemma {:induction false} RefsAnything(e: Expr)
    ensures Refs(e, Anything())
    decreases e
  {
    match e
    case ColumnRef(b) =>
    case Constant(v) =>
    case Scalar(name, args) =>
      forall i | 0 <= i < |args| ensures Refs(args[i], Anything()) {
        RefsAnything(args[i]);
      }
    case Case(c, t, f) =>
      RefsAnything(c);
      RefsAnything(t);
      RefsAnything(f);
  }

  // ---- a table with the rows of one group ----

  ghost function GroupTable(groups: seq<Expr>, key: seq<Value>, index: nat, columns: nat, table: seq<seq<Value>>, env: Environment)
    : seq<seq<Value>>
  {
    if table == [] then []
    else
      (if EvalAll(groups, TableRow(index, columns, table[0]), env) == key then [table[0]] else [])
      + GroupTable(groups, key, index, columns, table[1..], env)
  }

  lemma {:induction false} GroupTableRows(groups: seq<Expr>, key: seq<Value>, index: nat, columns: nat,
                                          table: seq<seq<Value>>, env: Environment)
    ensures TableRows(index, columns, GroupTable(groups, key, index, columns, table, env))
         == KeyRows(groups, key, TableRows(index, columns, table), env)
  {
    hide EvalAll;
    if table != [] {
      GroupTableRows(groups, key, index, columns, table[1..], env);
      assert TableRows(index, columns, table)[1..] == TableRows(index, columns, table[1..]);
    }
  }

  lemma {:induction false} MembersHaveKey(groups: seq<Expr>, key: seq<Value>, rows: seq<Row>, env: Environment)
    ensures forall i :: 0 <= i < |KeyRows(groups, key, rows, env)| ==> EvalAll(groups, KeyRows(groups, key, rows, env)[i], env) == key
    ensures key in Tuples(groups, rows, env) ==> KeyRows(groups, key, rows, env) != []
  {
    hide EvalAll;
    if rows != [] {
      MembersHaveKey(groups, key, rows[1..], env);
      TuplesStep(groups, rows, env);
    }
  }

  lemma {:induction false} AllMembers(groups: seq<Expr>, key: seq<Value>, ms: seq<Row>, env: Environment)
    requires forall i :: 0 <= i < |ms| ==> EvalAll(groups, ms[i], env) == key
    ensures KeyRows(groups, key, ms, env) == ms
  {
    hide EvalAll;
    if ms != [] {
      AllMembers(groups, key, ms[1..], env);
    }
  }

  lemma {:induction false} DedupConstant<T>(vs: seq<T>, v: T)
    requires vs != [] && forall i :: 0 <= i < |vs| ==> vs[i] == v
    ensures Dedup(vs) == [v]
  {
    if |vs| > 1 {
      DedupConstant(vs[..|vs| - 1], v);
    } else {
      assert vs[..0] == [];
    }
  }

  lemma SingleGroup(op: Operator, key: seq<Value>, ms: seq<Row>, env: Environment)
    requires op.Aggregate? && forall i :: 0 <= i < |ms| ==> EvalAll(op.groups, ms[i], env) == key
    requires if op.groups == [] then key == [] else ms != []
    ensures GroupRows(op, ms, env) == [GroupRow(op, key, ms, env)]
  {
    hide EvalAll, GroupRow;
    AllMembers(op.groups, key, ms, env);
    if op.groups != [] {
      DedupConstant(Tuples(op.groups, ms, env), key);
    }
  }

  // ---- the plan ----

  function HavingPlan(proj: Operator, conditions: seq<Expr>, agg: Operator, scan: Operator): Plan {
    Node(proj, [Node(Filter(conditions), [Node(agg, [Node(scan, [])])])])
  }

  lemma HavingRewritten(proj: Operator, conditions: seq<Expr>, agg: Operator, scan: Operator, naming: Naming)
    requires proj.Projection? && agg.Aggregate? && scan.Get? && HasDerived(agg.expressions)
    ensures DerivedRewritten(HavingPlan(proj, conditions, agg, scan), true, naming)
         == HavingPlan(RewrittenProjection(proj, agg, naming), conditions, RewrittenAggregate(agg, naming), scan)
  {
    hide NewItems, NewExpressions;
    var c := Node(scan, []);
    var inner := Node(agg, [c]);
    var having := Node(Filter(conditions), [inner]);
    AggregateUntouched(c, naming);
    assert DerivedRewrittenAll([c], naming) == [c];
    AggregateUntouched(inner, naming);
    assert DerivedRewrittenAll([inner], naming) == [inner];
    AggregateUntouched(having, naming);
    assert DerivedRewrittenAll([having], naming) == [having];
    HavingPairResult(proj, Filter(conditions), agg, c, naming);
  }

  ghost function ScanRows(scan: Operator, env: Environment): seq<Row>
    requires scan.Get?
  {
    TableRows(scan.index, scan.columns, env.tables(scan.table))
  }

  /** The filter decides on the rewritten group as on the original one. */
  ghost predicate DecidesAlike(conditions: seq<Expr>, agg: Operator, naming: Naming, key: seq<Value>, ms: seq<Row>, env: Environment)
    requires agg.Aggregate?
  {
    AllTrue(conditions, GroupRow(agg, key, ms, env), env)
    <==> AllTrue(conditions, GroupRow(RewrittenAggregate(agg, naming), key, ms, env), env)
  }

  ghost predicate DecidesAt(conditions: seq<Expr>, agg: Operator, scan: Operator, naming: Naming, env: Environment, i: nat)
    requires agg.Aggregate? && scan.Get?
  {
    var rows := ScanRows(scan, env);
    var keys := Keys(agg.groups, rows, env);
    i < |keys| ==> DecidesAlike(conditions, agg, naming, keys[i], KeyRows(agg.groups, keys[i], rows, env), env)
  }

  /** Over every table the filter decides alike on every group. */
  ghost predicate DecidesAlways(conditions: seq<Expr>, agg: Operator, scan: Operator, naming: Naming)
    requires agg.Aggregate? && scan.Get?
  {
    forall env: Environment, i: nat :: DecidesAt(conditions, agg, scan, naming, env, i)
  }

  // ---- alike decisions keep the result ----

  lemma {:induction false} FilteredCarry(conditions: seq<Expr>, op: Operator, gs: seq<Row>, gs': seq<Row>,
                                         env: Environment, naming: Naming)
    requires op.Aggregate? && CarriesRows(op, gs, gs', env, naming)
    requires forall i :: 0 <= i < |gs| ==> (AllTrue(conditions, gs[i], env) <==> AllTrue(conditions, gs'[i], env))
    ensures CarriesRows(op, FilterRows(conditions, gs, env), FilterRows(conditions, gs', env), env, naming)
  {
    hide AllTrue, Carries;
    if gs != [] {
      FilteredCarry(conditions, op, gs[1..], gs'[1..], env, naming);
      assert Carries(op, gs[0], gs'[0], env, naming);
    }
  }

  lemma AlikeSelf(ok: Binding -> bool, rs: seq<Row>)
    ensures AlikeRows(ok, rs, rs)
  {
  }

  lemma DecidedGroups(conditions: seq<Expr>, agg: Operator, scan: Operator, naming: Naming, env: Environment)
    requires agg.Aggregate? && scan.Get?
    requires forall i: nat :: DecidesAt(conditions, agg, scan, naming, env, i)
    ensures var rs := ScanRows(scan, env);
            var gs, gs' := GroupRows(agg, rs, env), GroupRows(RewrittenAggregate(agg, naming), rs, env);
            && |gs| == |gs'|
            && forall i :: 0 <= i < |gs| ==> (AllTrue(conditions, gs[i], env) <==> AllTrue(conditions, gs'[i], env))
  {
    hide AllTrue, GroupRow, KeyRows, Keys, NewExpressions;
    var rs := ScanRows(scan, env);
    forall i | 0 <= i < |GroupRows(agg, rs, env)|
      ensures AllTrue(conditions, GroupRows(agg, rs, env)[i], env)
              <==> AllTrue(conditions, GroupRows(RewrittenAggregate(agg, naming), rs, env)[i], env)
    {
      assert DecidesAt(conditions, agg, scan, naming, env, i);
    }
  }

  lemma HavingRows(proj: Operator, conditions: seq<Expr>, agg: Operator, scan: Operator, env: Environment)
    requires proj.Projection? && agg.Aggregate? && scan.Get?
    ensures Rows(HavingPlan(proj, conditions, agg, scan), env)
         == ProjectRows(proj.index, proj.items, FilterRows(conditions, GroupRows(agg, ScanRows(scan, env), env), env), env)
  {
    HavingPairRowsAre(proj, Filter(conditions), agg, Node(scan, []), env);
  }

  lemma KeptOver(proj: Operator, conditions: seq<Expr>, agg: Operator, scan: Operator, naming: Naming, env: Environment)
    requires proj.Projection? && agg.Aggregate? && scan.Get? && HasDerived(agg.expressions) && PlainDerived(agg.expressions)
    requires WellFormed(HavingPlan(proj, conditions, agg, scan))
    requires forall i: nat :: DecidesAt(conditions, agg, scan, naming, env, i)
    ensures Same(HavingPlan(proj, conditions, agg, scan),
                 HavingPlan(RewrittenProjection(proj, agg, naming), conditions, RewrittenAggregate(agg, naming), scan), env)
  {
    hide GroupRows, FilterRows, ProjectRows, NewItems, NewExpressions, CarriesRows, DecidesAt, AllTrue, Rows, PlainDerived;
    var c := Node(scan, []);
    var inner := Node(agg, [c]);
    var mid := Node(Filter(conditions), [inner]);
    var p := Node(proj, [mid]);
    var proj', agg' := RewrittenProjection(proj, agg, naming), RewrittenAggregate(agg, naming);
    ChildWellFormed(p, 0);
    ChildWellFormed(mid, 0);
    var rs := ScanRows(scan, env);
    var gs, gs' := GroupRows(agg, rs, env), GroupRows(agg', rs, env);
    AlikeSelf(Columns(c), rs);
    GroupsCarry(agg, Columns(c), rs, rs, env, naming);
    DecidedGroups(conditions, agg, scan, naming, env);
    FilteredCarry(conditions, agg, gs, gs', env, naming);
    ItemRefs(proj, mid, agg);
    ItemsCarry(proj, agg, FilterRows(conditions, gs, env), FilterRows(conditions, gs', env), Columns(Node(agg, [])), env, naming);
    HavingRows(proj, conditions, agg, scan, env);
    HavingRows(proj', conditions, agg', scan, env);
    AlikeWeaker(Columns(Node(proj, [])), Columns(p), Rows(p, env), Rows(HavingPlan(proj', conditions, agg', scan), env));
  }

  // ---- a kept result needs alike decisions ----

  lemma FilteredGroup(conditions: seq<Expr>, g: Row, env: Environment)
    ensures |FilterRows(conditions, [g], env)| == if AllTrue(conditions, g, env) then 1 else 0
  {
    hide AllTrue;
    assert [g][1..] == [];
  }

  /** Over a table that makes one group, the rows of the plan tell the decision. */
  lemma OneGroupDecision(proj: Operator, conditions: seq<Expr>, agg: Operator, scan: Operator, key: seq<Value>, env: Environment)
    requires proj.Projection? && agg.Aggregate? && scan.Get?
    requires GroupRows(agg, ScanRows(scan, env), env) == [GroupRow(agg, key, ScanRows(scan, env), env)]
    ensures |Rows(HavingPlan(proj, conditions, agg, scan), env)|
            == if AllTrue(conditions, GroupRow(agg, key, ScanRows(scan, env), env), env) then 1 else 0
  {
    hide GroupRows, GroupRow, AllTrue, FilterRows, Rows;
    HavingRows(proj, conditions, agg, scan, env);
    FilteredGroup(conditions, GroupRow(agg, key, ScanRows(scan, env), env), env);
  }

  ghost function WithTable(env: Environment, name: string, table: seq<seq<Value>>): Environment {
    env.(tables := (n: string) => if n == name then table else env.tables(n))
  }

  /** The i-th group of a table, as a table of its own. */
  lemma GroupApart(agg: Operator, scan: Operator, env: Environment, i: nat) returns (one: Environment)
    requires agg.Aggregate? && scan.Get? && i < |Keys(agg.groups, ScanRows(scan, env), env)|
    ensures var key := Keys(agg.groups, ScanRows(scan, env), env)[i];
            && SameFunctions(env, one)
            && ScanRows(scan, one) == KeyRows(agg.groups, key, ScanRows(scan, env), env)
            && (forall k :: 0 <= k < |ScanRows(scan, one)| ==> EvalAll(agg.groups, ScanRows(scan, one)[k], one) == key)
            && if agg.groups == [] then key == [] else ScanRows(scan, one) != []
  {
    hide EvalAll;
    var rows := ScanRows(scan, env);
    var key := Keys(agg.groups, rows, env)[i];
    var table := GroupTable(agg.groups, key, scan.index, scan.columns, env.tables(scan.table), env);
    one := WithTable(env, scan.table, table);
    GroupTableRows(agg.groups, key, scan.index, scan.columns, env.tables(scan.table), env);
    MembersHaveKey(agg.groups, key, rows, env);
    if agg.groups != [] {
      DedupMembers(Tuples(agg.groups, rows, env));
      assert key in Dedup(Tuples(agg.groups, rows, env));
    }
    forall k | 0 <= k < |ScanRows(scan, one)| ensures EvalAll(agg.groups, ScanRows(scan, one)[k], one) == key {
      EvalAllSame(agg.groups, ScanRows(scan, one)[k], env, one);
    }
  }

  lemma DecisionNeeded(proj: Operator, conditions: seq<Expr>, agg: Operator, scan: Operator, naming: Naming,
                       env: Environment, i: nat)
    requires proj.Projection? && agg.Aggregate? && scan.Get?
    requires forall e :: Same(HavingPlan(proj, conditions, agg, scan),
                              HavingPlan(RewrittenProjection(proj, agg, naming), conditions,
                                         RewrittenAggregate(agg, naming), scan), e)
    ensures DecidesAt(conditions, agg, scan, naming, env, i)
  {
    hide GroupRows, GroupRow, AllTrue, Rows, NewItems, NewExpressions, KeyRows, Keys, EvalAll, Columns;
    if i < |Keys(agg.groups, ScanRows(scan, env), env)| {
      var key := Keys(agg.groups, ScanRows(scan, env), env)[i];
      var one := GroupApart(agg, scan, env, i);
      var ms := ScanRows(scan, one);
      var proj', agg' := RewrittenProjection(proj, agg, naming), RewrittenAggregate(agg, naming);
      SingleGroup(agg, key, ms, one);
      SingleGroup(agg', key, ms, one);
      OneGroupDecision(proj, conditions, agg, scan, key, one);
      OneGroupDecision(proj', conditions, agg', scan, key, one);
      assert Same(HavingPlan(proj, conditions, agg, scan), HavingPlan(proj', conditions, agg', scan), one);
      DecisionSame(conditions, agg, key, ms, env, one);
      DecisionSame(conditions, agg', key, ms, env, one);
    }
  }

  /** The HAVING filter is not patched, so it reads the rewritten group as it stands. The rewrite keeps the result over
      all tables exactly if the filter decides every group of every table as before. */
  lemma HavingKeptExactly(proj: Operator, conditions: seq<Expr>, agg: Operator, scan: Operator, naming: Naming)
    requires proj.Projection? && agg.Aggregate? && scan.Get? && HasDerived(agg.expressions) && PlainDerived(agg.expressions)
    requires WellFormed(HavingPlan(proj, conditions, agg, scan))
    ensures (forall env :: Same(HavingPlan(proj, conditions, agg, scan),
                                DerivedRewritten(HavingPlan(proj, conditions, agg, scan), true, naming), env))
            <==> DecidesAlways(conditions, agg, scan, naming)
  {
    hide Same, DecidesAt, NewItems, NewExpressions, WellFormed, DerivedRewritten;
    HavingRewritten(proj, conditions, agg, scan, naming);
    if DecidesAlways(conditions, agg, scan, naming) {
      forall env
        ensures Same(HavingPlan(proj, conditions, agg, scan),
                     DerivedRewritten(HavingPlan(proj, conditions, agg, scan), true, naming), env)
      {
        KeptOver(proj, conditions, agg, scan, naming, env);
      }
    }
    if forall env :: Same(HavingPlan(proj, conditions, agg, scan),
                          DerivedRewritten(HavingPlan(proj, conditions, agg, scan), true, naming), env) {
      forall env: Environment, i: nat ensures DecidesAt(conditions, agg, scan, naming, env, i) {
        DecisionNeeded(proj, conditions, agg, scan, naming, env, i);
      }
    }
  }

  // ---- HAVING avg(x) > k ----

  const COLUMN := ColumnRef(Binding(0, 0))
  const AVERAGE := BoundAggregate(Avg, [COLUMN], false, None, "")
  const AGGREGATE := Aggregate(1, 2, [], [AVERAGE])
  const SCAN := Get("t", 0, 1)
  const OUTPUT := Projection(3, [Item(ColumnRef(Binding(2, 0)), "a")])

  function Above(k: real): Expr {
    Scalar(GreaterThan, [ColumnRef(Binding(2, 0)), Constant(Num(k))])
  }

  /** SELECT avg(x) AS a FROM t HAVING avg(x) > k. */
  function AverageAbove(k: real): Plan {
    HavingPlan(OUTPUT, [Above(k)], AGGREGATE, SCAN)
  }

  lemma AverageAboveWellFormed(k: real)
    ensures WellFormed(AverageAbove(k)) && HasDerived(AGGREGATE.expressions) && PlainDerived(AGGREGATE.expressions)
  {
    var c := Node(SCAN, []);
    var inner := Node(AGGREGATE, [c]);
    var mid := Node(Filter([Above(k)]), [inner]);
    assert WellFormed(c) && Refs(COLUMN, Columns(c));
    assert AggRefs(AVERAGE, Columns(c));
    assert WellFormed(inner);
    assert HasColumn(inner, Binding(2, 0)) && HasColumn(mid, Binding(2, 0));
    assert Refs(Above(k), Columns(inner));
    assert WellFormed(mid);
    assert IsDerivedName(AGGREGATE.expressions[0].name);
  }

  lemma FirstSlot(naming: Naming)
    ensures var es := NewExpressions([AVERAGE], naming);
            |es| == 2 && es[0] == BoundAggregate(Sum, [COLUMN], false, None, naming(SumPart, AVERAGE))
  {
    var blocks := Blocks([AVERAGE], naming);
    assert blocks == [Expanded(AVERAGE, naming)] && blocks[..0] == [];
    assert Concat(blocks) == [] + Expanded(AVERAGE, naming);
  }

  ghost function NumbersOf(ms: seq<Row>, env: Environment): seq<real> {
    Numbers(NonNull(Firsts(Tuples([COLUMN], ms, env))))
  }

  /** The value the filter reads: the average before the rewrite, the sum after it. */
  lemma FilterReads(ms: seq<Row>, env: Environment, naming: Naming)
    ensures var xs := NumbersOf(ms, env);
            && GroupRow(AGGREGATE, [], ms, env)(Binding(2, 0)) == (if xs == [] then Null else Num(Mean(xs)))
            && GroupRow(RewrittenAggregate(AGGREGATE, naming), [], ms, env)(Binding(2, 0))
               == (if xs == [] then Null else Num(Total(xs)))
  {
    hide Tuples, Firsts, NonNull, Numbers, NewExpressions, Total, Mean;
    FirstSlot(naming);
    DerivedAggValue(AVERAGE, ms, env);
    var sum := BoundAggregate(Sum, [COLUMN], false, None, naming(SumPart, AVERAGE));
    assert Where(None, ms, env) == ms;
    assert AggValue(sum, ms, env) == HiddenOf(NumbersOf(ms, env)).sum;
    ColumnReads(AGGREGATE, 0, [], ms, env);
    ColumnReads(RewrittenAggregate(AGGREGATE, naming), 0, [], ms, env);
  }

  lemma AboveDecides(k: real, r: Row, env: Environment)
    ensures AllTrue([Above(k)], r, env) <==> IsTrue(Greater(r(Binding(2, 0)), Num(k)))
  {
    var args := [ColumnRef(Binding(2, 0)), Constant(Num(k))];
    assert EvalAll(args, r, env) == [r(Binding(2, 0)), Num(k)];
    assert Eval(Above(k), r, env) == Greater(r(Binding(2, 0)), Num(k));
    assert [Above(k)][0] == Above(k);
  }

  lemma DecisionOfBag(k: real, ms: seq<Row>, env: Environment, naming: Naming)
    ensures DecidesAlike([Above(k)], AGGREGATE, naming, [], ms, env)
            <==> NumbersOf(ms, env) == [] || (Mean(NumbersOf(ms, env)) > k <==> Total(NumbersOf(ms, env)) > k)
  {
    hide AllTrue, GroupRow, NumbersOf, Mean, Total, NewExpressions;
    FilterReads(ms, env, naming);
    AboveDecides(k, GroupRow(AGGREGATE, [], ms, env), env);
    AboveDecides(k, GroupRow(RewrittenAggregate(AGGREGATE, naming), [], ms, env), env);
  }

  lemma MeanSign(t: real, n: real)
    requires n > 0.0
    ensures t / n > 0.0 <==> t > 0.0
  {
    assert t == (t / n) * n;
  }

  /** Two rows with the same number. */
  ghost function Twice(v: real): seq<seq<Value>> {
    [[Num(v)], [Num(v)]]
  }

  lemma TwiceNumbers(v: real, env: Environment)
    ensures NumbersOf(ScanRows(SCAN, WithTable(env, "t", Twice(v))), WithTable(env, "t", Twice(v))) == [v, v]
  {
    var one := WithTable(env, "t", Twice(v));
    var ts := Tuples([COLUMN], ScanRows(SCAN, one), one);
    assert ts[0] == [Num(v)] && ts[1] == [Num(v)];
    assert ts == [[Num(v)], [Num(v)]];
    assert ts[1..] == [[Num(v)]] && ts[1..][1..] == [];
    assert Firsts(ts[1..]) == [Num(v)] + Firsts(ts[1..][1..]) == [Num(v)];
    var vs := Firsts(ts);
    assert vs == [Num(v)] + Firsts(ts[1..]) == [Num(v), Num(v)];
    assert vs[1..] == [Num(v)] && vs[1..][1..] == [];
    assert NonNull(vs[1..]) == [Num(v)] + NonNull(vs[1..][1..]) == [Num(v)];
    assert NonNull(vs) == [Num(v)] + NonNull(vs[1..]) == vs;
    assert Numbers(vs[1..]) == [v];
  }

  lemma TwiceTotals(v: real)
    ensures Total([v, v]) == 2.0 * v && Mean([v, v]) == v
  {
    assert [v, v][1..] == [v] && [v][1..] == [];
    assert Total([v]) == v;
  }

  lemma UngroupedBag(env: Environment)
    ensures Keys(AGGREGATE.groups, ScanRows(SCAN, env), env) == [[]]
    ensures KeyRows(AGGREGATE.groups, [], ScanRows(SCAN, env), env) == ScanRows(SCAN, env)
  {
    AllMembers([], [], ScanRows(SCAN, env), env);
  }

  lemma DecisionOfTable(k: real, env: Environment, i: nat, naming: Naming)
    ensures DecidesAt([Above(k)], AGGREGATE, SCAN, naming, env, i)
            <==> i > 0 || DecidesAlike([Above(k)], AGGREGATE, naming, [], ScanRows(SCAN, env), env)
  {
    hide DecidesAlike, Keys, KeyRows, ScanRows;
    UngroupedBag(env);
  }

  /** Over all tables, the rewritten query has the rows of the original one exactly for the threshold 0: the filter
      reads the sum, which is on the same side of a threshold as the average only if that is 0. */
  lemma AverageHavingExactly(k: real, naming: Naming, some: Environment)
    ensures (forall env :: Same(AverageAbove(k), DerivedRewritten(AverageAbove(k), true, naming), env)) <==> k == 0.0
  {
    hide Same, DecidesAt, DecidesAlike, DerivedRewritten, WellFormed, NumbersOf, ScanRows, Total, Mean, PlainDerived;
    AverageAboveWellFormed(k);
    HavingKeptExactly(OUTPUT, [Above(k)], AGGREGATE, SCAN, naming);
    if k == 0.0 {
      forall env: Environment, i: nat ensures DecidesAt([Above(k)], AGGREGATE, SCAN, naming, env, i) {
        ZeroDecides(env, naming);
        DecisionOfTable(k, env, i, naming);
      }
    } else {
      var v := if k > 0.0 then k else k / 2.0;
      var one := WithTable(some, "t", Twice(v));
      TwiceNumbers(v, some);
      TwiceTotals(v);
      DecisionOfBag(k, ScanRows(SCAN, one), one, naming);
      DecisionOfTable(k, one, 0, naming);
      assert !DecidesAt([Above(k)], AGGREGATE, SCAN, naming, one, 0);
    }
  }

  lemma ZeroDecides(env: Environment, naming: Naming)
    ensures DecidesAlike([Above(0.0)], AGGREGATE, naming, [], ScanRows(SCAN, env), env)
  {
    hide DecidesAlike, ScanRows, NumbersOf, Total;
    var xs := NumbersOf(ScanRows(SCAN, env), env);
    DecisionOfBag(0.0, ScanRows(SCAN, env), env, naming);
    if xs != [] {
      MeanSign(Total(xs), |xs| as real);
    }
  }
}
