/** FILTER clauses become CASE arguments, and why that is right. */
module AggregateFilters {
  import opened SqlValues
  import opened DerivedAggregates
  import opened Plans
  import opened AggregateRewrite
  import Checker = IncrementalChecker

  // ---- one aggregate ----

  function KeepNonNull(tuples: seq<seq<Value>>): seq<seq<Value>> {
    if tuples == [] then []
    else (if tuples[0] != [] && tuples[0][0].Null? then [] else [tuples[0]]) + KeepNonNull(tuples[1..])
  }

  /** The aggregate ignores tuples whose first value is NULL. */
  ghost predicate NullBlind(env: Environment, name: AggName) {
    forall distinct, tuples :: env.aggregate(Spelling(name), distinct, tuples) == env.aggregate(Spelling(name), distinct, KeepNonNull(tuples))
  }

  /** What a FILTER clause may stand on: count(*), or an aggregate that ignores NULL.  LIST is left as it is. */
  ghost predicate FilterSafe(a: AggExpr, env: Environment) {
    a.BoundAggregate? && a.filter.Some? && !a.name.List? ==>
      if a.args == [] then a.name.CountStar?
      else !a.name.CountStar? && ((IsBuiltin(a.name) && |a.args| == 1) || NullBlind(env, a.name))
  }

  function Guarded(condition: Expr, args: seq<Expr>): seq<Expr>
    requires args != []
  {
    args[0 := Case(condition, args[0], Constant(Null))]
  }

  lemma WhereStep(f: Expr, rows: seq<Row>, env: Environment)
    requires rows != []
    ensures Where(Some(f), rows, env)
         == (if IsTrue(Eval(f, rows[0], env)) then [rows[0]] else []) + Where(Some(f), rows[1..], env)
  {
  }

  lemma {:induction false} CountedRows(f: Expr, rows: seq<Row>, env: Environment)
    ensures |NonNull(Firsts(Tuples([Case(f, Constant(Num(1.0)), Constant(Null))], rows, env)))| == |Where(Some(f), rows, env)|
  {
    var args := [Case(f, Constant(Num(1.0)), Constant(Null))];
    if rows != [] {
      CountedRows(f, rows[1..], env);
      TuplesStep(args, rows, env);
      WhereStep(f, rows, env);
      assert EvalAll(args, rows[0], env) == [Eval(args[0], rows[0], env)];
    }
  }

  /** The guarded arguments, with the NULLs dropped, are the arguments of the filtered rows with the NULLs dropped. */
  lemma {:induction false} GuardedTuples(f: Expr, args: seq<Expr>, rows: seq<Row>, env: Environment)
    requires args != []
    ensures KeepNonNull(Tuples(Guarded(f, args), rows, env)) == KeepNonNull(Tuples(args, Where(Some(f), rows, env), env))
  {
    if rows != [] {
      GuardedTuples(f, args, rows[1..], env);
      TuplesStep(Guarded(f, args), rows, env);
      WhereStep(f, rows, env);
      var kept, rest := Where(Some(f), rows, env), Where(Some(f), rows[1..], env);
      if IsTrue(Eval(f, rows[0], env)) {
        assert EvalAll(Guarded(f, args), rows[0], env) == EvalAll(args, rows[0], env);
        assert kept[0] == rows[0] && kept[1..] == rest;
        TuplesStep(args, kept, env);
      } else {
        assert Guarded(f, args)[0] == Case(f, args[0], Constant(Null));
        assert EvalAll(Guarded(f, args), rows[0], env)[0] == Eval(Guarded(f, args)[0], rows[0], env) == Null;
        assert kept == rest;
      }
    }
  }

  lemma {:induction false} NonNullFirsts(tuples: seq<seq<Value>>)
    requires forall i :: 0 <= i < |tuples| ==> |tuples[i]| == 1
    ensures forall i :: 0 <= i < |KeepNonNull(tuples)| ==> |KeepNonNull(tuples)[i]| == 1
    ensures NonNull(Firsts(tuples)) == Firsts(KeepNonNull(tuples))
  {
    if tuples != [] {
      NonNullFirsts(tuples[1..]);
      var kept, v, rest := KeepNonNull(tuples[1..]), tuples[0][0], Firsts(tuples[1..]);
      assert ([v] + rest)[1..] == rest;
      if v.Null? {
        assert KeepNonNull(tuples) == kept;
        assert NonNull([v] + rest) == NonNull(rest);
      } else {
        assert KeepNonNull(tuples) == [tuples[0]] + kept;
        assert ([tuples[0]] + kept)[1..] == kept;
        assert Firsts([tuples[0]] + kept) == [v] + Firsts(kept);
        assert NonNull([v] + rest) == [v] + NonNull(rest);
      }
    }
  }

  /** The rewritten aggregate has the value of the original, over every bag of rows. */
  lemma NormalizedValue(a: AggExpr, rows: seq<Row>, env: Environment)
    requires FilterSafe(a, env)
    ensures AggValue(Normalized(a), rows, env) == AggValue(a, rows, env)
  {
    if a.BoundAggregate? && a.filter.Some? && !a.name.List? {
      var f := a.filter.value;
      if a.args == [] {
        CountedRows(f, rows, env);
      } else {
        var ts, ts' := Tuples(a.args, Where(a.filter, rows, env), env), Tuples(Guarded(f, a.args), rows, env);
        GuardedTuples(f, a.args, rows, env);
        assert AggValue(a, rows, env) == AggregateValue(env, a.name, a.distinct, |a.args|, ts);
        assert AggValue(Normalized(a), rows, env) == AggregateValue(env, a.name, a.distinct, |a.args|, ts');
        if IsBuiltin(a.name) && |a.args| == 1 {
          NonNullFirsts(ts);
          NonNullFirsts(ts');
        } else {
          assert env.aggregate(Spelling(a.name), a.distinct, ts) == env.aggregate(Spelling(a.name), a.distinct, KeepNonNull(ts));
          assert env.aggregate(Spelling(a.name), a.distinct, ts') == env.aggregate(Spelling(a.name), a.distinct, KeepNonNull(ts'));
        }
      }
    }
  }

  // ---- exactly the aggregates that ignore NULL ----

  /** A row with the values of a tuple, followed by a flag: whether the first one is not NULL. */
  ghost function TupleRow(t: seq<Value>): Row {
    (b: Binding) => if b.column < |t| then t[b.column] else Truth(t != [] && !t[0].Null?)
  }

  ghost function TupleRows(ts: seq<seq<Value>>): seq<Row> {
    if ts == [] then [] else [TupleRow(ts[0])] + TupleRows(ts[1..])
  }

  function FirstColumns(n: nat): (es: seq<Expr>)
    ensures |es| == n && forall i :: 0 <= i < n ==> es[i] == ColumnRef(Binding(0, i))
  {
    seq(n, i requires 0 <= i < n => ColumnRef(Binding(0, i)))
  }

  lemma TupleRowReads(t: seq<Value>, env: Environment)
    requires t != []
    ensures EvalAll(FirstColumns(|t|), TupleRow(t), env) == t
    ensures EvalAll(Guarded(ColumnRef(Binding(0, |t|)), FirstColumns(|t|)), TupleRow(t), env) == t
    ensures Eval(ColumnRef(Binding(0, |t|)), TupleRow(t), env) == Truth(!t[0].Null?)
  {
    var flag, args := ColumnRef(Binding(0, |t|)), FirstColumns(|t|);
    forall i | 0 <= i < |t|
      ensures EvalAll(args, TupleRow(t), env)[i] == t[i]
      ensures EvalAll(Guarded(flag, args), TupleRow(t), env)[i] == t[i]
    {
      var row := TupleRow(t);
      assert Eval(args[i], row, env) == t[i] && Eval(flag, row, env) == Truth(!t[0].Null?);
      if i == 0 {
        assert Eval(Case(flag, args[0], Constant(Null)), row, env) == if t[0].Null? then Null else t[0];
        assert Guarded(flag, args)[i] == Case(flag, args[0], Constant(Null));
      } else {
        assert Guarded(flag, args)[i] == args[i];
      }
    }
  }

  /** Rows whose filter flag is set where the first argument is not NULL. */
  lemma {:induction false} FlaggedRows(ts: seq<seq<Value>>, n: nat, env: Environment)
    requires n > 0 && forall i :: 0 <= i < |ts| ==> |ts[i]| == n
    ensures Tuples(Guarded(ColumnRef(Binding(0, n)), FirstColumns(n)), TupleRows(ts), env) == ts
    ensures Tuples(FirstColumns(n), Where(Some(ColumnRef(Binding(0, n))), TupleRows(ts), env), env) == KeepNonNull(ts)
  {
    hide EvalAll, Guarded, Eval, FirstColumns, TupleRow;
    var flag, args := ColumnRef(Binding(0, n)), FirstColumns(n);
    var rows := TupleRows(ts);
    if ts != [] {
      FlaggedRows(ts[1..], n, env);
      TupleRowReads(ts[0], env);
      assert rows[0] == TupleRow(ts[0]) && rows[1..] == TupleRows(ts[1..]);
      TuplesStep(Guarded(flag, args), rows, env);
      WhereStep(flag, rows, env);
      var kept, rest := Where(Some(flag), rows, env), Where(Some(flag), rows[1..], env);
      if ts[0][0].Null? {
        assert kept == rest;
      } else {
        assert kept[0] == rows[0] && kept[1..] == rest;
        TuplesStep(args, kept, env);
      }
    }
  }

  function Filtered(name: AggName, args: seq<Expr>, distinct: bool, filter: Expr): AggExpr {
    BoundAggregate(name, args, distinct, Some(filter), "")
  }

  /** For any arguments and any filter, CASE and FILTER give the same value over all rows. */
  ghost predicate CaseKeepsValue(name: AggName, distinct: bool, n: nat, env: Environment) {
    forall args, filter, rows :: |args| == n ==>
      AggValue(Normalized(Filtered(name, args, distinct, filter)), rows, env)
      == AggValue(Filtered(name, args, distinct, filter), rows, env)
  }

  /** Leaving out the tuples whose first value is NULL makes no difference. */
  ghost predicate IgnoresNull(name: AggName, distinct: bool, n: nat, env: Environment) {
    forall ts :: (forall i :: 0 <= i < |ts| ==> |ts[i]| == n) ==>
      env.aggregate(Spelling(name), distinct, ts) == env.aggregate(Spelling(name), distinct, KeepNonNull(ts))
  }

  lemma FilteredValues(name: AggName, args: seq<Expr>, distinct: bool, filter: Expr, rows: seq<Row>, env: Environment)
    requires !name.CountStar? && !name.List? && args != [] && !(IsBuiltin(name) && |args| == 1)
    ensures AggValue(Filtered(name, args, distinct, filter), rows, env)
         == env.aggregate(Spelling(name), distinct, Tuples(args, Where(Some(filter), rows, env), env))
    ensures AggValue(Normalized(Filtered(name, args, distinct, filter)), rows, env)
         == env.aggregate(Spelling(name), distinct, Tuples(Guarded(filter, args), rows, env))
  {
    hide Tuples;
    var a' := Normalized(Filtered(name, args, distinct, filter));
    assert a' == BoundAggregate(name, Guarded(filter, args), distinct, None, "");
    assert Where(None, rows, env) == rows;
  }

  /** For an aggregate outside the builtin ones, with any number of arguments, turning a FILTER clause into a CASE
      argument keeps the value over all rows exactly when the aggregate ignores NULL in its first argument.  FIRST, for
      one, does not. */
  lemma FilterToCaseExactly(name: AggName, distinct: bool, n: nat, env: Environment)
    requires !name.CountStar? && !name.List? && n > 0 && !(IsBuiltin(name) && n == 1)
    ensures CaseKeepsValue(name, distinct, n, env) <==> IgnoresNull(name, distinct, n, env)
  {
    hide AggValue, Tuples, Where, KeepNonNull, Guarded;
    if CaseKeepsValue(name, distinct, n, env) {
      forall ts | forall i :: 0 <= i < |ts| ==> |ts[i]| == n
        ensures env.aggregate(Spelling(name), distinct, ts) == env.aggregate(Spelling(name), distinct, KeepNonNull(ts))
      {
        FlaggedRows(ts, n, env);
        FilteredValues(name, FirstColumns(n), distinct, ColumnRef(Binding(0, n)), TupleRows(ts), env);
        assert AggValue(Normalized(Filtered(name, FirstColumns(n), distinct, ColumnRef(Binding(0, n)))), TupleRows(ts), env)
            == AggValue(Filtered(name, FirstColumns(n), distinct, ColumnRef(Binding(0, n))), TupleRows(ts), env);
      }
    }
    if IgnoresNull(name, distinct, n, env) {
      forall args: seq<Expr>, filter, rows | |args| == n
        ensures AggValue(Normalized(Filtered(name, args, distinct, filter)), rows, env)
             == AggValue(Filtered(name, args, distinct, filter), rows, env)
      {
        IgnoredNulls(name, args, distinct, filter, rows, env);
      }
    }
  }

  lemma IgnoredNulls(name: AggName, args: seq<Expr>, distinct: bool, filter: Expr, rows: seq<Row>, env: Environment)
    requires !name.CountStar? && !name.List? && args != [] && !(IsBuiltin(name) && |args| == 1)
    requires IgnoresNull(name, distinct, |args|, env)
    ensures AggValue(Normalized(Filtered(name, args, distinct, filter)), rows, env)
         == AggValue(Filtered(name, args, distinct, filter), rows, env)
  {
    hide AggValue, Where, KeepNonNull;
    var ts, ts' := Tuples(args, Where(Some(filter), rows, env), env), Tuples(Guarded(filter, args), rows, env);
    FilteredValues(name, args, distinct, filter, rows, env);
    GuardedTuples(filter, args, rows, env);
    assert env.aggregate(Spelling(name), distinct, ts) == env.aggregate(Spelling(name), distinct, KeepNonNull(ts));
    assert env.aggregate(Spelling(name), distinct, ts') == env.aggregate(Spelling(name), distinct, KeepNonNull(ts'));
  }

  // ---- whole plans ----

  ghost predicate FiltersSafe(p: Plan, env: Environment)
    decreases p
  {
    && (forall i :: 0 <= i < |p.children| ==> FiltersSafe(p.children[i], env))
    && (p.op.Aggregate? ==> forall i :: 0 <= i < |p.op.expressions| ==> FilterSafe(p.op.expressions[i], env))
  }

  lemma NormalizedGroups(op: Operator, rs: seq<Row>, env: Environment)
    requires op.Aggregate? && forall i :: 0 <= i < |op.expressions| ==> FilterSafe(op.expressions[i], env)
    ensures var op' := WithExpressions(op, NormalizedAll(op.expressions));
            |GroupRows(op, rs, env)| == |GroupRows(op', rs, env)|
            && forall i, b: Binding :: 0 <= i < |GroupRows(op, rs, env)| ==> GroupRows(op, rs, env)[i](b) == GroupRows(op', rs, env)[i](b)
  {
    var op' := WithExpressions(op, NormalizedAll(op.expressions));
    var keys := Keys(op.groups, rs, env);
    forall i, b: Binding | 0 <= i < |keys| ensures GroupRows(op, rs, env)[i](b) == GroupRows(op', rs, env)[i](b) {
      if b.table == op.aggregateIndex && b.column < |op.expressions| {
        NormalizedValue(op.expressions[b.column], KeyRows(op.groups, keys[i], rs, env), env);
      }
    }
  }

  /** RewriteAggregateFilters keeps every column of every plan, at any depth. */
  lemma {:induction false} FilterRewritePreserves(p: Plan, env: Environment)
    requires WellFormed(p) && FiltersSafe(p, env)
    ensures Same(p, FiltersRewritten(p), env)
    decreases p
  {
    var cs := FiltersRewrittenAll(p.children);
    forall i | 0 <= i < |p.children| ensures Same(p.children[i], cs[i], env) {
      FilterRewritePreserves(p.children[i], env);
    }
    OperatorCongruent(p.op, p.children, cs, env);
    if p.op.Aggregate? {
      var op' := WithExpressions(p.op, NormalizedAll(p.op.expressions));
      NormalizedGroups(p.op, Rows(cs[0], env), env);
      var rs, rs', rs'' := Rows(p, env), Rows(Node(p.op, cs), env), Rows(Node(op', cs), env);
      forall i | 0 <= i < |rs| ensures Alike(Columns(p), rs[i], rs''[i]) {
        assert Alike(Columns(p), rs[i], rs'[i]);
        assert forall b: Binding :: rs'[i](b) == rs''[i](b);
      }
    }
  }

  // ---- what is gone and what is not touched ----

  /** A filter clause stands on nothing but LIST, here and below. */
  predicate OnlyListsFiltered(q: Plan)
    decreases q
  {
    && (q.op.Aggregate? ==>
          forall i :: 0 <= i < |q.op.expressions| ==>
            q.op.expressions[i].BoundAggregate? && q.op.expressions[i].filter.Some? ==> q.op.expressions[i].name.List?)
    && forall i :: 0 <= i < |q.children| ==> OnlyListsFiltered(q.children[i])
  }

  /** What became of one aggregate: without a filter, or under LIST, nothing; count(*) became a count of the rows that
      pass; any other one kept function, DISTINCT, alias and all but its first argument, which is guarded. */
  predicate FilterMoved(a: AggExpr, b: AggExpr) {
    if !a.BoundAggregate? || a.filter.None? || a.name.List? then b == a
    else
      && b.BoundAggregate? && b.filter.None? && b.alias == a.alias
      && if a.args == [] then
           b.name == Count && !b.distinct && b.args == [Case(a.filter.value, Constant(Num(1.0)), Constant(Null))]
         else
           && b.name == a.name && b.distinct == a.distinct && |b.args| == |a.args| && b.args[1..] == a.args[1..]
           && b.args[0] == Case(a.filter.value, a.args[0], Constant(Null))
  }

  /** The plans differ in nothing but that, at any depth. */
  predicate OnlyFiltersMoved(p: Plan, q: Plan)
    decreases p
  {
    && |q.children| == |p.children|
    && (forall i :: 0 <= i < |p.children| ==> OnlyFiltersMoved(p.children[i], q.children[i]))
    && if p.op.Aggregate? then
         && q.op.Aggregate? && q.op.groupIndex == p.op.groupIndex && q.op.aggregateIndex == p.op.aggregateIndex
         && q.op.groups == p.op.groups && |q.op.expressions| == |p.op.expressions|
         && forall i :: 0 <= i < |p.op.expressions| ==> FilterMoved(p.op.expressions[i], q.op.expressions[i])
       else q.op == p.op
  }

  lemma FilterMovedOff(a: AggExpr)
    ensures FilterMoved(a, Normalized(a))
    ensures Normalized(a).BoundAggregate? && Normalized(a).filter.Some? ==> Normalized(a).name.List?
  {
  }

  /** After the pass no aggregate but LIST carries a filter, at any depth, and nothing else has changed. */
  lemma {:induction false} FiltersAreGone(p: Plan)
    ensures OnlyListsFiltered(FiltersRewritten(p)) && OnlyFiltersMoved(p, FiltersRewritten(p))
    decreases p
  {
    hide Normalized, FilterMoved;
    var q := FiltersRewritten(p);
    forall i | 0 <= i < |p.children|
      ensures OnlyListsFiltered(q.children[i]) && OnlyFiltersMoved(p.children[i], q.children[i])
    {
      FiltersAreGone(p.children[i]);
    }
    if p.op.Aggregate? {
      forall i | 0 <= i < |p.op.expressions|
        ensures FilterMoved(p.op.expressions[i], q.op.expressions[i])
        ensures q.op.expressions[i].BoundAggregate? && q.op.expressions[i].filter.Some? ==> q.op.expressions[i].name.List?
      {
        FilterMovedOff(p.op.expressions[i]);
      }
    }
  }

  /** A call as the plan checker sees it. */
  function AsCall(a: AggExpr, named: AggName -> Checker.AggFunction): Checker.Call {
    if a.BoundAggregate? then Checker.AggregateCall(named(a.name), a.distinct, a.filter.Some?) else Checker.OtherCall
  }

  /** So the checker never turns a rewritten plan down because of a filter: a call blocks only if its function does. */
  lemma NoCallBlocksByFilter(q: Plan, i: nat, named: AggName -> Checker.AggFunction, nested: bool)
    requires OnlyListsFiltered(q) && q.op.Aggregate? && i < |q.op.expressions| && named(List).List?
    ensures Checker.CallBlocks(AsCall(q.op.expressions[i], named), nested)
            <==> q.op.expressions[i].BoundAggregate?
                 && (named(q.op.expressions[i].name).Unsupported? || (named(q.op.expressions[i].name).First? && !nested))
  {
  }

  lemma {:induction false} ColumnsKept(p: Plan, b: Binding)
    ensures HasColumn(FiltersRewritten(p), b) == HasColumn(p, b)
    decreases p
  {
    var cs := FiltersRewrittenAll(p.children);
    if p.op.Filter? && |p.children| == 1 {
      ColumnsKept(p.children[0], b);
    } else if p.op.Join? && |p.children| == 2 {
      ColumnsKept(p.children[0], b);
      ColumnsKept(p.children[1], b);
    }
  }

  lemma {:induction false} TablesKept(p: Plan)
    ensures OutTables(FiltersRewritten(p)) == OutTables(p)
    decreases p
  {
    if p.op.Filter? && |p.children| == 1 {
      TablesKept(p.children[0]);
    } else if p.op.Join? && |p.children| == 2 {
      TablesKept(p.children[0]);
      TablesKept(p.children[1]);
    }
  }

  lemma RefsKept(es: seq<Expr>, p: Plan, q: Plan)
    requires RefsAll(es, Columns(p)) && forall b :: HasColumn(p, b) ==> HasColumn(q, b)
    ensures RefsAll(es, Columns(q))
  {
    forall i | 0 <= i < |es| ensures Refs(es[i], Columns(q)) {
      RefsMonotone(es[i], Columns(p), Columns(q));
    }
  }

  lemma NormalizedRefs(a: AggExpr, p: Plan, q: Plan)
    requires AggRefs(a, Columns(p)) && forall b :: HasColumn(p, b) ==> HasColumn(q, b)
    ensures AggRefs(Normalized(a), Columns(q))
  {
    match a
    case OtherExpr(e) => RefsMonotone(e, Columns(p), Columns(q));
    case BoundAggregate(_, args, _, filter, _) =>
      RefsKept(args, p, q);
      if filter.Some? {
        RefsMonotone(filter.value, Columns(p), Columns(q));
      }
  }

  lemma {:induction false} RewrittenWellFormed(p: Plan)
    requires WellFormed(p)
    ensures WellFormed(FiltersRewritten(p))
    decreases p
  {
    var q := FiltersRewritten(p);
    forall i | 0 <= i < |p.children| ensures WellFormed(q.children[i]) && OutTables(q.children[i]) == OutTables(p.children[i]) {
      RewrittenWellFormed(p.children[i]);
      TablesKept(p.children[i]);
    }
    forall b ensures HasColumn(q, b) == HasColumn(p, b) {
      ColumnsKept(p, b);
    }
    if |p.children| == 1 {
      var c, d := p.children[0], q.children[0];
      forall b ensures HasColumn(d, b) == HasColumn(c, b) {
        ColumnsKept(c, b);
      }
      match p.op
      case Get(_, _, _) =>
      case Join(_, _) =>
      case Filter(conditions) => RefsKept(conditions, c, d);
      case Projection(_, items) =>
        forall i | 0 <= i < |items| ensures Refs(items[i].expr, Columns(d)) {
          RefsMonotone(items[i].expr, Columns(c), Columns(d));
        }
      case Aggregate(_, _, groups, es) =>
        RefsKept(groups, c, d);
        forall i | 0 <= i < |es| ensures AggRefs(Normalized(es[i]), Columns(d)) {
          NormalizedRefs(es[i], c, d);
        }
    } else if p.op.Join? {
      RefsKept(p.op.on, p, q);
    }
  }

  /** The two rewrites one after the other, as the pipeline runs them. */
  lemma PipelinePreserves(p: Plan, naming: Naming, env: Environment)
    requires WellFormed(p) && FiltersSafe(p, env) && Rewritable(FiltersRewritten(p), true, naming)
    ensures Same(p, DerivedRewritten(FiltersRewritten(p), true, naming), env)
  {
    var q := FiltersRewritten(p);
    FilterRewritePreserves(p, env);
    RewrittenWellFormed(p);
    DerivedRewritePreserves(q, true, naming, env);
    var r := DerivedRewritten(q, true, naming);
    forall i | 0 <= i < |Rows(p, env)| ensures Alike(Columns(p), Rows(p, env)[i], Rows(r, env)[i]) {
      assert Alike(Columns(p), Rows(p, env)[i], Rows(q, env)[i]);
      assert Alike(Columns(q), Rows(q, env)[i], Rows(r, env)[i]);
      forall b | HasColumn(p, b) ensures HasColumn(q, b) {
        ColumnsKept(p, b);
      }
    }
  }
}
