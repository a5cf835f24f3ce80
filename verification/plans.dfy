/** Logical plans with (table, column) bindings, and what they evaluate to.

    A row gives every binding a value, so an operator may renumber its columns without touching the rows of others.
    A plan reads only the bindings its children put out, and each operator puts out bindings under table numbers of
    its own (WellFormed); rows that agree on the bindings a plan may read are interchangeable below it (Alike). Joins
    are inner or left, grouping keeps the order in which keys first appear, and without keys there is one group. */
module Plans {
  import opened SqlValues
  import opened DerivedAggregates

  datatype Binding = Binding(table: nat, column: nat)

  /** The scalar functions the rewrite emits, and all others. */
  datatype ScalarName = Times | Minus | Divide | GreaterThan | SquareRoot | OtherFunction(name: string)

  datatype Expr =
    | ColumnRef(binding: Binding)
    | Constant(value: Value)
    | Scalar(function_: ScalarName, args: seq<Expr>)
    | Case(condition: Expr, then_: Expr, else_: Expr)

  /** A projection expression with its output alias. */
  datatype Item = Item(expr: Expr, alias: string)

  /** An entry of an aggregate operator: usually a bound aggregate function. */
  datatype AggExpr =
    | BoundAggregate(name: AggName, args: seq<Expr>, distinct: bool, filter: Option<Expr>, alias: string)
    | OtherExpr(expr: Expr)

  datatype JoinKind = Inner | Left

  datatype Operator =
    | Get(table: string, index: nat, columns: nat)
    | Filter(conditions: seq<Expr>)
    | Projection(index: nat, items: seq<Item>)
    | Aggregate(groupIndex: nat, aggregateIndex: nat, groups: seq<Expr>, expressions: seq<AggExpr>)
    | Join(kind: JoinKind, on: seq<Expr>)

  datatype Plan = Node(op: Operator, children: seq<Plan>)

  /** A row is what each binding reads as. */
  type Row = Binding -> Value

  /** What the plan runs against: the tables, and the functions the rewrite treats as given. */
  datatype Environment = Environment(
    tables: string -> seq<seq<Value>>,
    root: real -> real,
    scalar: (string, seq<Value>) -> Value,
    aggregate: (string, bool, seq<seq<Value>>) -> Value)

  // ---- expressions ----

  ghost function Apply(env: Environment, f: ScalarName, args: seq<Value>): Value {
    match f
    case OtherFunction(name) => env.scalar(name, args)
    case SquareRoot => if |args| == 1 then Sqrt(env.root, args[0]) else Null
    case Times => if |args| == 2 then Mul(args[0], args[1]) else Null
    case Minus => if |args| == 2 then Sub(args[0], args[1]) else Null
    case Divide => if |args| == 2 then Div(args[0], args[1]) else Null
    case GreaterThan => if |args| == 2 then Greater(args[0], args[1]) else Null
  }

  ghost function Eval(e: Expr, row: Row, env: Environment): Value
    decreases e
  {
    match e
    case ColumnRef(b) => row(b)
    case Constant(v) => v
    case Scalar(name, args) => Apply(env, name, EvalAll(args, row, env))
    case Case(c, t, f) => if IsTrue(Eval(c, row, env)) then Eval(t, row, env) else Eval(f, row, env)
  }

  ghost function EvalAll(es: seq<Expr>, row: Row, env: Environment): (vs: seq<Value>)
    ensures |vs| == |es|
    ensures forall i :: 0 <= i < |es| ==> vs[i] == Eval(es[i], row, env)
    decreases es
  {
    if es == [] then [] else [Eval(es[0], row, env)] + EvalAll(es[1..], row, env)
  }

  /** Every column reference of e satisfies ok. */
  ghost predicate Refs(e: Expr, ok: Binding -> bool)
    decreases e
  {
    match e
    case ColumnRef(b) => ok(b)
    case Constant(v) => true
    case Scalar(name, args) => forall i :: 0 <= i < |args| ==> Refs(args[i], ok)
    case Case(c, t, f) => Refs(c, ok) && Refs(t, ok) && Refs(f, ok)
  }

  ghost predicate RefsAll(es: seq<Expr>, ok: Binding -> bool) {
    forall i :: 0 <= i < |es| ==> Refs(es[i], ok)
  }

  ghost predicate AllTrue(conditions: seq<Expr>, row: Row, env: Environment) {
    forall i :: 0 <= i < |conditions| ==> IsTrue(Eval(conditions[i], row, env))
  }

  // ---- aggregates ----

  function NonNull(vs: seq<Value>): seq<Value> {
    if vs == [] then [] else (if vs[0].Null? then [] else [vs[0]]) + NonNull(vs[1..])
  }

  function Numbers(vs: seq<Value>): (xs: seq<real>)
    ensures |xs| == |vs|
  {
    if vs == [] then [] else [Number(vs[0])] + Numbers(vs[1..])
  }

  /** The values with repetitions after the first dropped. */
  function Dedup<T(==)>(vs: seq<T>): seq<T> {
    if vs == [] then []
    else
      var front := Dedup(vs[..|vs| - 1]);
      if vs[|vs| - 1] in front then front else front + [vs[|vs| - 1]]
  }

  function Spelling(name: AggName): string {
    match name
    case CountStar => "count_star"
    case Count => "count"
    case Sum => "sum"
    case Avg => "avg"
    case Stddev => "stddev"
    case StddevSamp => "stddev_samp"
    case StddevPop => "stddev_pop"
    case Variance => "variance"
    case VarSamp => "var_samp"
    case VarPop => "var_pop"
    case List => "list"
    case OtherName(spelling) => spelling
  }

  predicate IsBuiltin(name: AggName) {
    name.Sum? || name.Count? || IsDerivedName(name)
  }

  /** sum, count and the derived aggregates, over the non-null values. */
  ghost function BuiltinValue(env: Environment, name: AggName, distinct: bool, vs: seq<Value>): Value
    requires IsBuiltin(name)
  {
    var kept := NonNull(vs);
    var xs := Numbers(if distinct then Dedup(kept) else kept);
    if name.Sum? then HiddenOf(xs).sum
    else if name.Count? then HiddenOf(xs).count
    else DerivedValue(name, xs, env.root)
  }

  function Firsts(tuples: seq<seq<Value>>): seq<Value>
    requires forall i :: 0 <= i < |tuples| ==> |tuples[i]| == 1
  {
    if tuples == [] then [] else [tuples[0][0]] + Firsts(tuples[1..])
  }

  ghost function AggregateValue(env: Environment, name: AggName, distinct: bool, arity: nat, tuples: seq<seq<Value>>): Value
    requires forall i :: 0 <= i < |tuples| ==> |tuples[i]| == arity
  {
    if name.CountStar? then Num(|tuples| as real)
    else if IsBuiltin(name) && arity == 1 then BuiltinValue(env, name, distinct, Firsts(tuples))
    else env.aggregate(Spelling(name), distinct, tuples)
  }

  ghost function Tuples(args: seq<Expr>, rows: seq<Row>, env: Environment): (ts: seq<seq<Value>>)
    ensures |ts| == |rows|
    ensures forall i :: 0 <= i < |rows| ==> ts[i] == EvalAll(args, rows[i], env)
  {
    seq(|rows|, i requires 0 <= i < |rows| => EvalAll(args, rows[i], env))
  }

  ghost function Where(condition: Option<Expr>, rows: seq<Row>, env: Environment): seq<Row> {
    if condition.None? || rows == [] then rows
    else (if IsTrue(Eval(condition.value, rows[0], env)) then [rows[0]] else []) + Where(condition, rows[1..], env)
  }

  ghost function AggValue(a: AggExpr, rows: seq<Row>, env: Environment): Value {
    match a
    case BoundAggregate(name, args, distinct, filter, _) =>
      AggregateValue(env, name, distinct, |args|, Tuples(args, Where(filter, rows, env), env))
    case OtherExpr(e) =>
      env.aggregate("", false, Tuples([e], rows, env))
  }

  // ---- operators ----

  ghost function TableRow(index: nat, columns: nat, values: seq<Value>): Row {
    (b: Binding) => if b.table == index && b.column < columns && b.column < |values| then values[b.column] else Null
  }

  ghost function TableRows(index: nat, columns: nat, table: seq<seq<Value>>): seq<Row> {
    seq(|table|, i requires 0 <= i < |table| => TableRow(index, columns, table[i]))
  }

  ghost function FilterRows(conditions: seq<Expr>, rows: seq<Row>, env: Environment): seq<Row> {
    if rows == [] then []
    else (if AllTrue(conditions, rows[0], env) then [rows[0]] else []) + FilterRows(conditions, rows[1..], env)
  }

  ghost function ProjectRow(index: nat, items: seq<Item>, row: Row, env: Environment): Row {
    (b: Binding) => if b.table == index && b.column < |items| then Eval(items[b.column].expr, row, env) else Null
  }

  ghost function ProjectRows(index: nat, items: seq<Item>, rows: seq<Row>, env: Environment): seq<Row> {
    seq(|rows|, i requires 0 <= i < |rows| => ProjectRow(index, items, rows[i], env))
  }

  ghost function KeyRows(groups: seq<Expr>, key: seq<Value>, rows: seq<Row>, env: Environment): seq<Row> {
    if rows == [] then []
    else (if EvalAll(groups, rows[0], env) == key then [rows[0]] else []) + KeyRows(groups, key, rows[1..], env)
  }

  /** One key for each group, in order of first appearance; without GROUP BY, one group even of no rows. */
  ghost function Keys(groups: seq<Expr>, rows: seq<Row>, env: Environment): seq<seq<Value>> {
    if groups == [] then [[]] else Dedup(Tuples(groups, rows, env))
  }

  ghost function GroupRow(op: Operator, key: seq<Value>, members: seq<Row>, env: Environment): Row
    requires op.Aggregate?
  {
    (b: Binding) =>
      if b.table == op.groupIndex && b.column < |key| then key[b.column]
      else if b.table == op.aggregateIndex && b.column < |op.expressions| then AggValue(op.expressions[b.column], members, env)
      else Null
  }

  ghost function GroupRows(op: Operator, rows: seq<Row>, env: Environment): seq<Row>
    requires op.Aggregate?
  {
    var keys := Keys(op.groups, rows, env);
    seq(|keys|, i requires 0 <= i < |keys| =>
      GroupRow(op, keys[i], KeyRows(op.groups, keys[i], rows, env), env))
  }

  /** The columns of l for the tables of the left side, those of r for all others. */
  ghost function JoinedRow(leftTables: set<nat>, l: Row, r: Row): Row {
    (b: Binding) => if b.table in leftTables then l(b) else r(b)
  }

  ghost function NullRow(): Row {
    (b: Binding) => Null
  }

  ghost function Matches(on: seq<Expr>, leftTables: set<nat>, l: Row, rs: seq<Row>, env: Environment): seq<Row> {
    if rs == [] then []
    else (if AllTrue(on, JoinedRow(leftTables, l, rs[0]), env) then [JoinedRow(leftTables, l, rs[0])] else [])
         + Matches(on, leftTables, l, rs[1..], env)
  }

  ghost function JoinRows(kind: JoinKind, on: seq<Expr>, leftTables: set<nat>, ls: seq<Row>, rs: seq<Row>, env: Environment): seq<Row> {
    if ls == [] then []
    else
      var ms := Matches(on, leftTables, ls[0], rs, env);
      (if ms == [] && kind.Left? then [JoinedRow(leftTables, ls[0], NullRow())] else ms)
      + JoinRows(kind, on, leftTables, ls[1..], rs, env)
  }

  /** The tables whose columns the operator puts out. */
  ghost function OutTables(p: Plan): set<nat>
    decreases p
  {
    match p.op
    case Get(_, index, _) => {index}
    case Projection(index, _) => {index}
    case Aggregate(groupIndex, aggregateIndex, _, _) => {groupIndex, aggregateIndex}
    case Filter(_) => if |p.children| == 1 then OutTables(p.children[0]) else {}
    case Join(_, _) => if |p.children| == 2 then OutTables(p.children[0]) + OutTables(p.children[1]) else {}
  }

  ghost function Rows(p: Plan, env: Environment): seq<Row>
    decreases p
  {
    match p.op
    case Get(table, index, columns) => TableRows(index, columns, env.tables(table))
    case Filter(conditions) =>
      if |p.children| == 1 then FilterRows(conditions, Rows(p.children[0], env), env) else []
    case Projection(index, items) =>
      if |p.children| == 1 then ProjectRows(index, items, Rows(p.children[0], env), env) else []
    case Aggregate(_, _, _, _) =>
      if |p.children| == 1 then GroupRows(p.op, Rows(p.children[0], env), env) else []
    case Join(kind, on) =>
      if |p.children| == 2 then
        JoinRows(kind, on, OutTables(p.children[0]), Rows(p.children[0], env), Rows(p.children[1], env), env)
      else []
  }

  // ---- the columns of a plan ----

  ghost predicate HasColumn(p: Plan, b: Binding)
    decreases p
  {
    match p.op
    case Get(_, index, columns) => b.table == index && b.column < columns
    case Projection(index, items) => b.table == index && b.column < |items|
    case Aggregate(groupIndex, aggregateIndex, groups, expressions) =>
      || (b.table == groupIndex && b.column < |groups|)
      || (b.table == aggregateIndex && b.column < |expressions|)
    case Filter(_) => |p.children| == 1 && HasColumn(p.children[0], b)
    case Join(_, _) => |p.children| == 2 && (HasColumn(p.children[0], b) || HasColumn(p.children[1], b))
  }

  ghost function Columns(p: Plan): Binding -> bool {
    (b: Binding) => HasColumn(p, b)
  }

  lemma {:induction false} ColumnTable(p: Plan, b: Binding)
    requires HasColumn(p, b)
    ensures b.table in OutTables(p)
    decreases p
  {
    if p.op.Filter? {
      ColumnTable(p.children[0], b);
    } else if p.op.Join? {
      if HasColumn(p.children[0], b) {
        ColumnTable(p.children[0], b);
      } else {
        ColumnTable(p.children[1], b);
      }
    }
  }

  ghost predicate AggRefs(a: AggExpr, ok: Binding -> bool) {
    match a
    case BoundAggregate(_, args, _, filter, _) => RefsAll(args, ok) && (filter.Some? ==> Refs(filter.value, ok))
    case OtherExpr(e) => Refs(e, ok)
  }

  /** Every operator has its inputs, refers only to columns its inputs put out, and the binder gave
      different tables different indexes. */
  ghost predicate WellFormed(p: Plan)
    decreases p
  {
    && (forall i :: 0 <= i < |p.children| ==> WellFormed(p.children[i]))
    && match p.op
       case Get(_, _, _) => p.children == []
       case Filter(conditions) =>
         |p.children| == 1 && RefsAll(conditions, Columns(p.children[0]))
       case Projection(_, items) =>
         |p.children| == 1 && forall i :: 0 <= i < |items| ==> Refs(items[i].expr, Columns(p.children[0]))
       case Aggregate(groupIndex, aggregateIndex, groups, expressions) =>
         && |p.children| == 1 && groupIndex != aggregateIndex
         && RefsAll(groups, Columns(p.children[0]))
         && forall i :: 0 <= i < |expressions| ==> AggRefs(expressions[i], Columns(p.children[0]))
       case Join(_, on) =>
         && |p.children| == 2 && OutTables(p.children[0]) !! OutTables(p.children[1])
         && RefsAll(on, Columns(p))
  }

  // ---- plans that read alike ----

  /** The two rows agree on the columns that ok accepts. */
  ghost predicate Alike(ok: Binding -> bool, r: Row, r': Row) {
    forall b :: ok(b) ==> r(b) == r'(b)
  }

  ghost predicate AlikeRows(ok: Binding -> bool, rs: seq<Row>, rs': seq<Row>) {
    && |rs| == |rs'|
    && forall i :: 0 <= i < |rs| ==> Alike(ok, rs[i], rs'[i])
  }

  lemma {:induction false} AlikeEval(e: Expr, ok: Binding -> bool, r: Row, r': Row, env: Environment)
    requires Refs(e, ok) && Alike(ok, r, r')
    ensures Eval(e, r, env) == Eval(e, r', env)
    decreases e
  {
    match e
    case ColumnRef(b) =>
    case Constant(v) =>
    case Scalar(name, args) => AlikeEvalAll(args, ok, r, r', env);
    case Case(c, t, f) =>
      AlikeEval(c, ok, r, r', env);
      AlikeEval(t, ok, r, r', env);
      AlikeEval(f, ok, r, r', env);
  }

  lemma {:induction false} AlikeEvalAll(es: seq<Expr>, ok: Binding -> bool, r: Row, r': Row, env: Environment)
    requires RefsAll(es, ok) && Alike(ok, r, r')
    ensures EvalAll(es, r, env) == EvalAll(es, r', env)
    decreases es
  {
    forall i | 0 <= i < |es| ensures EvalAll(es, r, env)[i] == EvalAll(es, r', env)[i] {
      AlikeEval(es[i], ok, r, r', env);
    }
  }

  lemma AlikeAllTrue(es: seq<Expr>, ok: Binding -> bool, r: Row, r': Row, env: Environment)
    requires RefsAll(es, ok) && Alike(ok, r, r')
    ensures AllTrue(es, r, env) == AllTrue(es, r', env)
  {
    forall i | 0 <= i < |es| ensures Eval(es[i], r, env) == Eval(es[i], r', env) {
      AlikeEval(es[i], ok, r, r', env);
    }
  }

  lemma {:induction false} AlikeFilter(conditions: seq<Expr>, ok: Binding -> bool, rs: seq<Row>, rs': seq<Row>, env: Environment)
    requires RefsAll(conditions, ok) && AlikeRows(ok, rs, rs')
    ensures AlikeRows(ok, FilterRows(conditions, rs, env), FilterRows(conditions, rs', env))
  {
    if rs != [] {
      AlikeAllTrue(conditions, ok, rs[0], rs'[0], env);
      AlikeFilter(conditions, ok, rs[1..], rs'[1..], env);
    }
  }

  lemma {:induction false} AlikeWhere(condition: Option<Expr>, ok: Binding -> bool, rs: seq<Row>, rs': seq<Row>, env: Environment)
    requires condition.Some? ==> Refs(condition.value, ok)
    requires AlikeRows(ok, rs, rs')
    ensures AlikeRows(ok, Where(condition, rs, env), Where(condition, rs', env))
  {
    if condition.Some? && rs != [] {
      AlikeEval(condition.value, ok, rs[0], rs'[0], env);
      AlikeWhere(condition, ok, rs[1..], rs'[1..], env);
    }
  }

  lemma {:induction false} AlikeKeyRows(groups: seq<Expr>, key: seq<Value>, ok: Binding -> bool, rs: seq<Row>, rs': seq<Row>, env: Environment)
    requires RefsAll(groups, ok) && AlikeRows(ok, rs, rs')
    ensures AlikeRows(ok, KeyRows(groups, key, rs, env), KeyRows(groups, key, rs', env))
  {
    if rs != [] {
      AlikeEvalAll(groups, ok, rs[0], rs'[0], env);
      AlikeKeyRows(groups, key, ok, rs[1..], rs'[1..], env);
    }
  }

  lemma AlikeTuples(args: seq<Expr>, ok: Binding -> bool, rs: seq<Row>, rs': seq<Row>, env: Environment)
    requires RefsAll(args, ok) && AlikeRows(ok, rs, rs')
    ensures Tuples(args, rs, env) == Tuples(args, rs', env)
  {
    forall i | 0 <= i < |rs| ensures Tuples(args, rs, env)[i] == Tuples(args, rs', env)[i] {
      AlikeEvalAll(args, ok, rs[i], rs'[i], env);
    }
  }

  lemma AlikeAggregate(a: AggExpr, ok: Binding -> bool, rs: seq<Row>, rs': seq<Row>, env: Environment)
    requires AggRefs(a, ok) && AlikeRows(ok, rs, rs')
    ensures AggValue(a, rs, env) == AggValue(a, rs', env)
  {
    match a
    case BoundAggregate(name, args, distinct, filter, _) =>
      AlikeWhere(filter, ok, rs, rs', env);
      AlikeTuples(args, ok, Where(filter, rs, env), Where(filter, rs', env), env);
    case OtherExpr(e) =>
      AlikeTuples([e], ok, rs, rs', env);
  }

  lemma {:induction false} AlikeMatches(on: seq<Expr>, tables: set<nat>, okL: Binding -> bool, okR: Binding -> bool, ok: Binding -> bool,
                                        l: Row, l': Row, rs: seq<Row>, rs': seq<Row>, env: Environment)
    requires RefsAll(on, ok) && Sides(tables, okL, okR, ok)
    requires Alike(okL, l, l') && AlikeRows(okR, rs, rs')
    ensures AlikeRows(ok, Matches(on, tables, l, rs, env), Matches(on, tables, l', rs', env))
  {
    if rs != [] {
      AlikeAllTrue(on, ok, JoinedRow(tables, l, rs[0]), JoinedRow(tables, l', rs'[0]), env);
      AlikeMatches(on, tables, okL, okR, ok, l, l', rs[1..], rs'[1..], env);
    }
  }

  /** The columns of a join: those of the left side belong to its tables, those of the right side do not. */
  ghost predicate Sides(tables: set<nat>, okL: Binding -> bool, okR: Binding -> bool, ok: Binding -> bool) {
    forall b :: ok(b) ==> (if b.table in tables then okL(b) else okR(b))
  }

  lemma {:induction false} AlikeJoin(kind: JoinKind, on: seq<Expr>, tables: set<nat>, okL: Binding -> bool, okR: Binding -> bool,
                                     ok: Binding -> bool, ls: seq<Row>, ls': seq<Row>, rs: seq<Row>, rs': seq<Row>, env: Environment)
    requires RefsAll(on, ok) && Sides(tables, okL, okR, ok)
    requires AlikeRows(okL, ls, ls') && AlikeRows(okR, rs, rs')
    ensures AlikeRows(ok, JoinRows(kind, on, tables, ls, rs, env), JoinRows(kind, on, tables, ls', rs', env))
  {
    if ls != [] {
      AlikeMatches(on, tables, okL, okR, ok, ls[0], ls'[0], rs, rs', env);
      AlikeJoin(kind, on, tables, okL, okR, ok, ls[1..], ls'[1..], rs, rs', env);
    }
  }

  /** An operator over inputs that read alike puts out rows that read alike. */
  lemma OperatorCongruent(op: Operator, cs: seq<Plan>, cs': seq<Plan>, env: Environment)
    requires WellFormed(Node(op, cs)) && |cs| == |cs'|
    requires forall i :: 0 <= i < |cs| ==> OutTables(cs[i]) == OutTables(cs'[i])
    requires forall i :: 0 <= i < |cs| ==> AlikeRows(Columns(cs[i]), Rows(cs[i], env), Rows(cs'[i], env))
    ensures AlikeRows(Columns(Node(op, cs)), Rows(Node(op, cs), env), Rows(Node(op, cs'), env))
  {
    var p, p' := Node(op, cs), Node(op, cs');
    var ok := Columns(p);
    match op
    case Get(_, _, _) =>
    case Filter(conditions) =>
      AlikeFilter(conditions, Columns(cs[0]), Rows(cs[0], env), Rows(cs'[0], env), env);
      assert forall r, r' {:trigger Alike(ok, r, r')} :: Alike(Columns(cs[0]), r, r') ==> Alike(ok, r, r');
    case Projection(index, items) =>
      var rs, rs' := Rows(cs[0], env), Rows(cs'[0], env);
      forall i | 0 <= i < |rs| ensures Alike(ok, Rows(p, env)[i], Rows(p', env)[i]) {
        AlikeItems(index, items, Columns(cs[0]), rs[i], rs'[i], env);
      }
    case Aggregate(_, _, _, _) =>
      AlikeGroups(op, Columns(cs[0]), Rows(cs[0], env), Rows(cs'[0], env), env);
    case Join(kind, on) =>
      forall b | ok(b)
        ensures if b.table in OutTables(cs[0]) then Columns(cs[0])(b) else Columns(cs[1])(b)
      {
        if HasColumn(cs[0], b) {
          ColumnTable(cs[0], b);
        } else {
          ColumnTable(cs[1], b);
        }
      }
      AlikeJoin(kind, on, OutTables(cs[0]), Columns(cs[0]), Columns(cs[1]), ok,
                Rows(cs[0], env), Rows(cs'[0], env), Rows(cs[1], env), Rows(cs'[1], env), env);
  }

  lemma AlikeItems(index: nat, items: seq<Item>, ok: Binding -> bool, r: Row, r': Row, env: Environment)
    requires forall i :: 0 <= i < |items| ==> Refs(items[i].expr, ok)
    requires Alike(ok, r, r')
    ensures forall b: Binding :: ProjectRow(index, items, r, env)(b) == ProjectRow(index, items, r', env)(b)
  {
    forall i | 0 <= i < |items| ensures Eval(items[i].expr, r, env) == Eval(items[i].expr, r', env) {
      AlikeEval(items[i].expr, ok, r, r', env);
    }
  }

  /** The groups, and the rows of each group, of two inputs that read alike. */
  lemma AlikeMembers(groups: seq<Expr>, ok: Binding -> bool, rs: seq<Row>, rs': seq<Row>, env: Environment)
    requires RefsAll(groups, ok) && AlikeRows(ok, rs, rs')
    ensures Keys(groups, rs, env) == Keys(groups, rs', env)
    ensures forall key :: AlikeRows(ok, KeyRows(groups, key, rs, env), KeyRows(groups, key, rs', env))
  {
    AlikeTuples(groups, ok, rs, rs', env);
    forall key ensures AlikeRows(ok, KeyRows(groups, key, rs, env), KeyRows(groups, key, rs', env)) {
      AlikeKeyRows(groups, key, ok, rs, rs', env);
    }
  }

  lemma AlikeGroups(op: Operator, ok: Binding -> bool, rs: seq<Row>, rs': seq<Row>, env: Environment)
    requires op.Aggregate? && RefsAll(op.groups, ok) && AlikeRows(ok, rs, rs')
    requires forall i :: 0 <= i < |op.expressions| ==> AggRefs(op.expressions[i], ok)
    ensures |GroupRows(op, rs, env)| == |GroupRows(op, rs', env)|
    ensures forall i, b: Binding :: 0 <= i < |GroupRows(op, rs, env)| ==> GroupRows(op, rs, env)[i](b) == GroupRows(op, rs', env)[i](b)
  {
    AlikeMembers(op.groups, ok, rs, rs', env);
    var keys := Keys(op.groups, rs, env);
    forall i, b: Binding | 0 <= i < |keys|
      ensures GroupRows(op, rs, env)[i](b) == GroupRows(op, rs', env)[i](b)
    {
      var ms, ms' := KeyRows(op.groups, keys[i], rs, env), KeyRows(op.groups, keys[i], rs', env);
      if b.table == op.aggregateIndex && b.column < |op.expressions| {
        AlikeAggregate(op.expressions[b.column], ok, ms, ms', env);
      }
    }
  }
}
