/** What the columns appended to a projection hold, and that this is what refreshes maintain. */
module HiddenColumns {
  import opened SqlValues
  import opened DerivedAggregates
  import opened Plans
  import opened AggregateRewrite
  import opened SelfMaintenance

  /** The values an aggregate with one argument sees in a group. */
  ghost function ArgumentValues(a: AggExpr, ms: seq<Row>, env: Environment): seq<Value>
    requires a.BoundAggregate? && |a.args| == 1
  {
    Firsts(Tuples(a.args, ms, env))
  }

  /** Among the entries of the projection after the first `from`, one has the alias, and it reads v in the row. */
  ghost predicate Shows(op: Operator, from: nat, r: Row, alias: string, v: Value)
    requires op.Projection?
  {
    exists k :: from <= k < |op.items| && op.items[k].alias == alias && r(Binding(op.index, k)) == v
  }

  /** The row has sum, sum of squares and count of the non-null argument values of the group, each under its name. */
  ghost predicate ShowsHidden(op: Operator, from: nat, r: Row, a: AggExpr, suffix: string, ms: seq<Row>, env: Environment)
    requires op.Projection? && IsDerived(a) && |a.args| == 1
  {
    var h := HiddenOf(Numbers(NonNull(ArgumentValues(a, ms, env))));
    && Shows(op, from, r, "openivm_sum_" + suffix, h.sum)
    && (!a.name.Avg? ==> Shows(op, from, r, SumSqPrefix(a.name) + suffix, h.sumSq))
    && Shows(op, from, r, "openivm_count_" + suffix, h.count)
  }

  /** The name of a derived aggregate behind the prefixes. */
  function SuffixFor(proj: Operator, agg: Operator, j: nat, naming: Naming): string
    requires proj.Projection? && agg.Aggregate? && j < |agg.expressions|
  {
    ColumnSuffix(proj.items, Binding(agg.aggregateIndex, j), naming(Bare, agg.expressions[j]))
  }

  // ---- one projection over its aggregate ----

  /** Where an appended entry stands. */
  lemma {:induction false} HiddenAt(items: seq<Item>, table: nat, es: seq<AggExpr>, n: nat, j: nat, k: nat, naming: Naming)
    returns (m: nat)
    requires j < n <= |es| && k < |HiddenItems(items, table, es, j, naming)|
    ensures m < |AllHiddenItems(items, table, es, n, naming)|
    ensures AllHiddenItems(items, table, es, n, naming)[m] == HiddenItems(items, table, es, j, naming)[k]
  {
    hide HiddenItems;
    if j == n - 1 {
      m := |AllHiddenItems(items, table, es, n - 1, naming)| + k;
    } else {
      m := HiddenAt(items, table, es, n - 1, j, k, naming);
    }
  }

  /** An appended entry shows the slot it refers to. */
  lemma EntryShows(proj: Operator, agg: Operator, j: nat, k: nat, slot: nat, naming: Naming, r: Row, env: Environment)
    requires proj.Projection? && agg.Aggregate? && j < |agg.expressions|
    requires k < |HiddenItems(proj.items, agg.aggregateIndex, agg.expressions, j, naming)|
    requires HiddenItems(proj.items, agg.aggregateIndex, agg.expressions, j, naming)[k].expr
             == ColumnRef(Binding(agg.aggregateIndex, slot))
    ensures var op := RewrittenProjection(proj, agg, naming);
            Shows(op, |proj.items|, ProjectRow(op.index, op.items, r, env),
                  HiddenItems(proj.items, agg.aggregateIndex, agg.expressions, j, naming)[k].alias,
                  r(Binding(agg.aggregateIndex, slot)))
  {
    hide HiddenItems, AllHiddenItems, WalkItems;
    var es, t := agg.expressions, agg.aggregateIndex;
    var op := RewrittenProjection(proj, agg, naming);
    var m := HiddenAt(proj.items, t, es, |es|, j, k, naming);
    var at := |proj.items| + m;
    assert op.items[at] == HiddenItems(proj.items, t, es, j, naming)[k];
    assert ProjectRow(op.index, op.items, r, env)(Binding(op.index, at)) == Eval(op.items[at].expr, r, env);
  }

  /** What the slots of a derived aggregate read in a row of the rewritten aggregate. */
  lemma SlotsRead(agg: Operator, j: nat, key: seq<Value>, ms: seq<Row>, env: Environment, naming: Naming)
    requires agg.Aggregate? && agg.groupIndex != agg.aggregateIndex && j < |agg.expressions|
    requires IsDerived(agg.expressions[j]) && |agg.expressions[j].args| == 1
    ensures var a, t, off := agg.expressions[j], agg.aggregateIndex, Offset(agg.expressions, j, naming);
            var h := HiddenOf(Numbers(NonNull(ArgumentValues(a, ms, env))));
            var r := GroupRow(RewrittenAggregate(agg, naming), key, ms, env);
            && r(Binding(t, off)) == h.sum
            && (!a.name.Avg? ==> r(Binding(t, off + 1)) == h.sumSq)
            && r(Binding(t, off + if a.name.Avg? then 1 else 2)) == h.count
  {
    hide Expanded, AggValue, HiddenOf, Numbers, NonNull, GroupRow, Offset, Tuples, Firsts;
    var a := agg.expressions[j];
    ExpandedLength(a, naming);
    SlotReads(agg, j, 0, key, ms, env, naming);
    SlotReads(agg, j, 1, key, ms, env, naming);
    SlotReads(agg, j, |Expanded(a, naming)| - 1, key, ms, env, naming);
    SlotValues(a, ms, env, naming);
  }

  lemma EntriesAre(items: seq<Item>, table: nat, es: seq<AggExpr>, j: nat, naming: Naming)
    requires j < |es| && IsDerived(es[j])
    ensures var hs, off := HiddenItems(items, table, es, j, naming), Offset(es, j, naming);
            var suffix := ColumnSuffix(items, Binding(table, j), naming(Bare, es[j]));
            var last := |hs| - 1;
            && last == (if es[j].name.Avg? then 1 else 2)
            && hs[0] == Item(ColumnRef(Binding(table, off)), "openivm_sum_" + suffix)
            && (!es[j].name.Avg? ==> hs[1] == Item(ColumnRef(Binding(table, off + 1)), SumSqPrefix(es[j].name) + suffix))
            && hs[last] == Item(ColumnRef(Binding(table, off + last)), "openivm_count_" + suffix)
  {
    hide ColumnSuffix, SumSqPrefix, Offset;
  }

  /** A group of the rewritten aggregate, projected. */
  lemma GroupShows(proj: Operator, agg: Operator, j: nat, key: seq<Value>, ms: seq<Row>, env: Environment, naming: Naming)
    requires proj.Projection? && agg.Aggregate? && agg.groupIndex != agg.aggregateIndex && j < |agg.expressions|
    requires IsDerived(agg.expressions[j]) && |agg.expressions[j].args| == 1
    ensures var op := RewrittenProjection(proj, agg, naming);
            ShowsHidden(op, |proj.items|, ProjectRow(op.index, op.items, GroupRow(RewrittenAggregate(agg, naming), key, ms, env), env),
                        agg.expressions[j], SuffixFor(proj, agg, j, naming), ms, env)
  {
    hide HiddenItems, NewItems, NewExpressions, ColumnSuffix, SumSqPrefix, Offset, GroupRow, Shows, ProjectRow, HiddenOf,
         Numbers, NonNull, ArgumentValues;
    var a, off := agg.expressions[j], Offset(agg.expressions, j, naming);
    var r := GroupRow(RewrittenAggregate(agg, naming), key, ms, env);
    EntriesAre(proj.items, agg.aggregateIndex, agg.expressions, j, naming);
    SlotsRead(agg, j, key, ms, env, naming);
    var last := if a.name.Avg? then 1 else 2;
    EntryShows(proj, agg, j, 0, off, naming, r, env);
    if !a.name.Avg? {
      EntryShows(proj, agg, j, 1, off + 1, naming, r, env);
    }
    EntryShows(proj, agg, j, last, off + last, naming, r, env);
  }

  // ---- rewritten plans ----

  /** What a group shows depends on the argument values only. */
  lemma ShowsAlike(op: Operator, from: nat, r: Row, a: AggExpr, suffix: string, ok: Binding -> bool, ms: seq<Row>, ms': seq<Row>,
                   env: Environment)
    requires op.Projection? && IsDerived(a) && |a.args| == 1 && a.filter.None? && AggRefs(a, ok) && AlikeRows(ok, ms, ms')
    requires ShowsHidden(op, from, r, a, suffix, ms', env)
    ensures ShowsHidden(op, from, r, a, suffix, ms, env)
  {
    hide Shows, HiddenOf, Numbers, NonNull, Tuples, Firsts, SumSqPrefix, Refs;
    AlikeTuples(a.args, ok, ms, ms', env);
  }

  /** The groups of the rewritten aggregate, over rewritten inputs, shown by the rewritten projection. */
  lemma GroupsShow(proj: Operator, agg: Operator, ok: Binding -> bool, rs: seq<Row>, rs': seq<Row>, g: nat, j: nat,
                   env: Environment, naming: Naming)
    requires proj.Projection? && agg.Aggregate? && agg.groupIndex != agg.aggregateIndex && PlainDerived(agg.expressions)
    requires RefsAll(agg.groups, ok) && AlikeRows(ok, rs, rs')
    requires j < |agg.expressions| && IsDerived(agg.expressions[j]) && AggRefs(agg.expressions[j], ok)
    requires g < |Keys(agg.groups, rs, env)|
    ensures var op, gs' := RewrittenProjection(proj, agg, naming), GroupRows(RewrittenAggregate(agg, naming), rs', env);
            && |gs'| == |Keys(agg.groups, rs, env)|
            && ShowsHidden(op, |proj.items|, ProjectRow(op.index, op.items, gs'[g], env), agg.expressions[j],
                           SuffixFor(proj, agg, j, naming), KeyRows(agg.groups, Keys(agg.groups, rs, env)[g], rs, env), env)
  {
    hide ShowsHidden, NewItems, NewExpressions, ColumnSuffix, ProjectRow, GroupRow, KeyRows, Keys, AlikeRows, AggRefs, RefsAll;
    AlikeMembers(agg.groups, ok, rs, rs', env);
    var key := Keys(agg.groups, rs, env)[g];
    var ms, ms' := KeyRows(agg.groups, key, rs, env), KeyRows(agg.groups, key, rs', env);
    var op, op' := RewrittenProjection(proj, agg, naming), RewrittenAggregate(agg, naming);
    assert GroupRows(op', rs', env)[g] == GroupRow(op', key, ms', env);
    GroupShows(proj, agg, j, key, ms', env, naming);
    ShowsAlike(op, |proj.items|, ProjectRow(op.index, op.items, GroupRow(op', key, ms', env), env), agg.expressions[j],
               SuffixFor(proj, agg, j, naming), ok, ms, ms', env);
  }

  /** The members of the groups of the original plan. */
  ghost function Groups(agg: Plan, env: Environment): (members: seq<seq<Row>>)
    requires agg.op.Aggregate? && |agg.children| == 1
    ensures |members| == |Keys(agg.op.groups, Rows(agg.children[0], env), env)|
  {
    var rs := Rows(agg.children[0], env);
    var keys := Keys(agg.op.groups, rs, env);
    seq(|keys|, g requires 0 <= g < |keys| => KeyRows(agg.op.groups, keys[g], rs, env))
  }

  /** The aggregate below a rewritten projection. */
  function AggregateBelow(p: Plan): Plan
    requires IsProjectionOverAggregate(p) || IsProjectionOverHaving(p)
  {
    if p.children[0].op.Aggregate? then p.children[0] else p.children[0].children[0]
  }

  /** All derived aggregates of the group are shown in the row. */
  ghost predicate ShowsGroup(p: Plan, q: Plan, r: Row, ms: seq<Row>, env: Environment, naming: Naming)
    requires IsProjectionOverAggregate(p) || IsProjectionOverHaving(p)
    requires q.op.Projection? && PlainDerived(AggregateBelow(p).op.expressions)
  {
    var agg := AggregateBelow(p).op;
    forall j :: 0 <= j < |agg.expressions| && IsDerived(agg.expressions[j]) ==>
      ShowsHidden(q.op, |p.op.items|, r, agg.expressions[j], SuffixFor(p.op, agg, j, naming), ms, env)
  }

  lemma AggregateFits(p: Plan)
    requires WellFormed(p) && (IsProjectionOverAggregate(p) || IsProjectionOverHaving(p))
    ensures |AggregateBelow(p).children| == 1
    ensures var agg, c := AggregateBelow(p).op, AggregateBelow(p).children[0];
            && WellFormed(c) && agg.groupIndex != agg.aggregateIndex && RefsAll(agg.groups, Columns(c))
            && forall i :: 0 <= i < |agg.expressions| ==> AggRefs(agg.expressions[i], Columns(c))
    ensures IsProjectionOverHaving(p) ==> |p.children[0].children| == 1
    ensures |p.children| == 1
  {
    hide RefsAll, AggRefs, Columns;
    ChildWellFormed(p, 0);
    if !p.children[0].op.Aggregate? {
      ChildWellFormed(p.children[0], 0);
      ChildWellFormed(p.children[0].children[0], 0);
    } else {
      ChildWellFormed(p.children[0], 0);
    }
  }

  /** Every row of a rewritten projection over its aggregate holds, under their names, the sum, the sum of squares and the
      count of the argument values of its group in the original plan, for every derived aggregate. */
  lemma HiddenColumnsHold(p: Plan, isTop: bool, naming: Naming, env: Environment)
    requires WellFormed(p) && Rewritable(p, isTop, naming)
    requires IsProjectionOverAggregate(p) && HasDerived(p.children[0].op.expressions)
    ensures |p.children[0].children| == 1
    ensures var q, members := DerivedRewritten(p, isTop, naming), Groups(p.children[0], env);
            && q.op.Projection? && |Rows(q, env)| == |members|
            && forall i :: 0 <= i < |members| ==> ShowsGroup(p, q, Rows(q, env)[i], members[i], env, naming)
  {
    hide Refs, RefsAll, AggRefs, NewItems, NewExpressions, ShowsHidden, KeyRows, Keys, GroupRow, ProjectRow, ColumnSuffix, WellFormed;
    AggregateFits(p);
    var agg := p.children[0].op;
    var c := p.children[0].children[0];
    var c' := DerivedRewritten(c, false, naming);
    DirectRewritten(p, isTop, naming);
    DerivedRewritePreserves(c, false, naming, env);
    PairRowsAre(RewrittenProjection(p.op, agg, naming), RewrittenAggregate(agg, naming), c', env);
    AlikeMembers(agg.groups, Columns(c), Rows(c, env), Rows(c', env), env);
    forall i, j | 0 <= i < |Groups(p.children[0], env)| && 0 <= j < |agg.expressions| && IsDerived(agg.expressions[j])
      ensures ShowsHidden(DerivedRewritten(p, isTop, naming).op, |p.op.items|, Rows(DerivedRewritten(p, isTop, naming), env)[i],
                          agg.expressions[j], SuffixFor(p.op, agg, j, naming), Groups(p.children[0], env)[i], env)
    {
      GroupsShow(p.op, agg, Columns(c), Rows(c, env), Rows(c', env), i, j, env, naming);
    }
  }

  lemma DirectRewritten(p: Plan, isTop: bool, naming: Naming)
    requires |p.children| == 1 && IsProjectionOverAggregate(p) && |p.children[0].children| == 1
    requires HasDerived(p.children[0].op.expressions)
    ensures var agg, c' := p.children[0].op, DerivedRewritten(p.children[0].children[0], false, naming);
            DerivedRewritten(p, isTop, naming)
            == Node(RewrittenProjection(p.op, agg, naming), [Node(RewrittenAggregate(agg, naming), [c'])])
  {
    hide NewItems, NewExpressions, HasDerived;
    var agg := p.children[0];
    var c' := DerivedRewritten(agg.children[0], false, naming);
    AggregateUntouched(agg, naming);
    assert agg.children == [agg.children[0]] && DerivedRewrittenAll(agg.children, naming) == [c'];
    assert p.children == [agg] && DerivedRewrittenAll([agg], naming) == [Node(agg.op, [c'])];
    PairResult(p.op, agg.op, c', isTop, naming);
  }

  // ---- with a HAVING filter in between ----

  lemma {:induction false} FilteredFrom(conditions: seq<Expr>, gs: seq<Row>, env: Environment, i: nat) returns (g: nat)
    requires i < |FilterRows(conditions, gs, env)|
    ensures g < |gs| && FilterRows(conditions, gs, env)[i] == gs[g]
  {
    hide AllTrue;
    if AllTrue(conditions, gs[0], env) && i == 0 {
      g := 0;
    } else {
      g := FilteredFrom(conditions, gs[1..], env, if AllTrue(conditions, gs[0], env) then i - 1 else i);
      g := g + 1;
    }
  }

  /** The row is that of a group of the original plan. */
  ghost predicate ShowsSomeGroup(p: Plan, q: Plan, r: Row, env: Environment, naming: Naming)
    requires IsProjectionOverAggregate(p) || IsProjectionOverHaving(p)
    requires q.op.Projection? && PlainDerived(AggregateBelow(p).op.expressions) && |AggregateBelow(p).children| == 1
  {
    exists g :: 0 <= g < |Groups(AggregateBelow(p), env)|
                && ShowsGroup(p, q, r, Groups(AggregateBelow(p), env)[g], env, naming)
  }

  /** With a HAVING filter every row that is left is that of some group, and holds the columns of that group. */
  lemma HavingColumnsHold(p: Plan, naming: Naming, env: Environment)
    requires WellFormed(p) && IsProjectionOverHaving(p) && |p.children[0].children[0].children| == 1
    requires var agg := p.children[0].children[0];
             HasDerived(agg.op.expressions) && PlainDerived(agg.op.expressions) && Rewritable(agg.children[0], false, naming)
    ensures var q := DerivedRewritten(p, true, naming);
            && q.op.Projection?
            && forall i :: 0 <= i < |Rows(q, env)| ==> ShowsSomeGroup(p, q, Rows(q, env)[i], env, naming)
  {
    hide Refs, RefsAll, AggRefs, NewItems, NewExpressions, ShowsHidden, KeyRows, Keys, GroupRow, ProjectRow, ColumnSuffix,
         WellFormed, FilterRows, PlainDerived, ShowsGroup, Rewritable;
    AggregateFits(p);
    var having, agg := p.children[0].op, p.children[0].children[0].op;
    var c := p.children[0].children[0].children[0];
    var c' := DerivedRewritten(c, false, naming);
    var proj', agg' := RewrittenProjection(p.op, agg, naming), RewrittenAggregate(agg, naming);
    ThroughHaving(p, naming);
    DerivedRewritePreserves(c, false, naming, env);
    HavingPairRowsAre(proj', having, agg', c', env);
    AlikeMembers(agg.groups, Columns(c), Rows(c, env), Rows(c', env), env);
    var gs' := GroupRows(agg', Rows(c', env), env);
    var q := DerivedRewritten(p, true, naming);
    forall i | 0 <= i < |Rows(q, env)|
      ensures ShowsSomeGroup(p, q, Rows(q, env)[i], env, naming)
    {
      var g := FilteredFrom(having.conditions, gs', env, i);
      RowShowsGroup(p, q, agg, Columns(c), Rows(c, env), Rows(c', env), g, env, naming);
      assert Rows(q, env)[i] == ProjectRow(proj'.index, proj'.items, gs'[g], env);
      assert ShowsGroup(p, q, Rows(q, env)[i], Groups(p.children[0].children[0], env)[g], env, naming);
    }
  }

  lemma RowShowsGroup(p: Plan, q: Plan, agg: Operator, ok: Binding -> bool, rs: seq<Row>, rs': seq<Row>, g: nat,
                      env: Environment, naming: Naming)
    requires IsProjectionOverAggregate(p) || IsProjectionOverHaving(p)
    requires agg == AggregateBelow(p).op && q.op == RewrittenProjection(p.op, agg, naming)
    requires agg.groupIndex != agg.aggregateIndex && PlainDerived(agg.expressions)
    requires RefsAll(agg.groups, ok) && AlikeRows(ok, rs, rs')
    requires forall i :: 0 <= i < |agg.expressions| ==> AggRefs(agg.expressions[i], ok)
    requires g < |Keys(agg.groups, rs, env)|
    ensures var gs' := GroupRows(RewrittenAggregate(agg, naming), rs', env);
            && |gs'| == |Keys(agg.groups, rs, env)|
            && ShowsGroup(p, q, ProjectRow(q.op.index, q.op.items, gs'[g], env),
                          KeyRows(agg.groups, Keys(agg.groups, rs, env)[g], rs, env), env, naming)
  {
    hide Refs, RefsAll, AggRefs, NewItems, NewExpressions, ShowsHidden, KeyRows, Keys, GroupRow, ProjectRow, ColumnSuffix, AlikeRows;
    AlikeMembers(agg.groups, ok, rs, rs', env);
    forall j | 0 <= j < |agg.expressions| && IsDerived(agg.expressions[j])
      ensures ShowsHidden(q.op, |p.op.items|, ProjectRow(q.op.index, q.op.items, GroupRows(RewrittenAggregate(agg, naming), rs', env)[g], env),
                          agg.expressions[j], SuffixFor(p.op, agg, j, naming),
                          KeyRows(agg.groups, Keys(agg.groups, rs, env)[g], rs, env), env)
    {
      GroupsShow(p.op, agg, ok, rs, rs', g, j, env, naming);
    }
  }

  lemma ThroughHaving(p: Plan, naming: Naming)
    requires |p.children| == 1 && IsProjectionOverHaving(p) && |p.children[0].children| == 1
    requires |p.children[0].children[0].children| == 1 && HasDerived(p.children[0].children[0].op.expressions)
    ensures var having, agg := p.children[0].op, p.children[0].children[0].op;
            var c' := DerivedRewritten(p.children[0].children[0].children[0], false, naming);
            DerivedRewritten(p, true, naming)
            == Node(RewrittenProjection(p.op, agg, naming), [Node(having, [Node(RewrittenAggregate(agg, naming), [c'])])])
  {
    hide NewItems, NewExpressions, HasDerived;
    var having := p.children[0];
    var agg := having.children[0];
    var c' := DerivedRewritten(agg.children[0], false, naming);
    AggregateUntouched(having, naming);
    AggregateUntouched(agg, naming);
    assert agg.children == [agg.children[0]] && DerivedRewrittenAll(agg.children, naming) == [c'];
    assert having.children == [agg] && DerivedRewrittenAll([agg], naming) == [Node(agg.op, [c'])];
    assert p.children == [having] && DerivedRewrittenAll([having], naming) == [Node(having.op, [Node(agg.op, [c'])])];
    HavingPairResult(p.op, having.op, agg.op, c', naming);
  }

  // ---- nothing to decompose is left ----

  /** AVG, a standard deviation or a variance of something. */
  predicate IsAverageOrSpread(a: AggExpr) {
    a.BoundAggregate? && a.args != [] && a.name in {Avg, Stddev, StddevSamp, StddevPop, Variance, VarSamp, VarPop}
  }

  predicate NoneLeft(op: Operator) {
    op.Aggregate? ==> forall i :: 0 <= i < |op.expressions| ==> !IsAverageOrSpread(op.expressions[i])
  }

  /** No projection stands over an aggregate that computes one of them, nor does the top one with a HAVING filter. */
  predicate Decomposed(q: Plan, isTop: bool)
    decreases q
  {
    && (forall i :: 0 <= i < |q.children| ==> Decomposed(q.children[i], false))
    && (q.op.Projection? && q.children != [] ==>
          && NoneLeft(q.children[0].op)
          && (isTop && q.children[0].op.Filter? && q.children[0].children != [] ==> NoneLeft(q.children[0].children[0].op)))
  }

  lemma {:induction false} ConcatNone(blocks: seq<seq<AggExpr>>)
    requires forall j, k :: 0 <= j < |blocks| && 0 <= k < |blocks[j]| ==> !IsAverageOrSpread(blocks[j][k])
    ensures forall n :: 0 <= n < |Concat(blocks)| ==> !IsAverageOrSpread(Concat(blocks)[n])
  {
    hide IsAverageOrSpread;
    if blocks != [] {
      ConcatNone(blocks[..|blocks| - 1]);
    }
  }

  lemma ExpandedNone(a: AggExpr, naming: Naming)
    ensures forall k :: 0 <= k < |Expanded(a, naming)| ==> !IsAverageOrSpread(Expanded(a, naming)[k])
  {
  }

  lemma NewExpressionsNone(es: seq<AggExpr>, naming: Naming)
    ensures forall n :: 0 <= n < |NewExpressions(es, naming)| ==> !IsAverageOrSpread(NewExpressions(es, naming)[n])
  {
    hide IsAverageOrSpread, Expanded;
    var blocks := Blocks(es, naming);
    forall j, k | 0 <= j < |blocks| && 0 <= k < |blocks[j]| ensures !IsAverageOrSpread(blocks[j][k]) {
      ExpandedNone(es[j], naming);
    }
    ConcatNone(blocks);
  }

  lemma NothingDerived(op: Operator)
    requires op.Aggregate? && !HasDerived(op.expressions)
    ensures NoneLeft(op)
  {
    forall i | 0 <= i < |op.expressions| ensures !IsAverageOrSpread(op.expressions[i]) {
      assert !(op.expressions[i].BoundAggregate? && IsDerivedName(op.expressions[i].name));
    }
  }

  /** One step of the rewrite over inputs that are done. */
  lemma PairDecomposed(p: Plan, isTop: bool, naming: Naming)
    requires forall i :: 0 <= i < |p.children| ==> Decomposed(p.children[i], false)
    ensures Decomposed(PairRewritten(p, isTop, naming), isTop)
  {
    hide HasDerived, NewExpressions, NewItems, NoneLeft;
    var q := PairRewritten(p, isTop, naming);
    if p.op.Projection? && p.children != [] {
      var c := p.children[0];
      OthersNone(c.op);
      if c.op.Aggregate? {
        RewrittenNone(c.op, naming);
        if !HasDerived(c.op.expressions) {
          NothingDerived(c.op);
        }
        assert Decomposed(Node(RewrittenAggregate(c.op, naming), c.children), false);
      } else if isTop && c.op.Filter? && c.children != [] {
        var agg := c.children[0];
        OthersNone(agg.op);
        if agg.op.Aggregate? {
          RewrittenNone(agg.op, naming);
          if !HasDerived(agg.op.expressions) {
            NothingDerived(agg.op);
          }
          var agg' := Node(RewrittenAggregate(agg.op, naming), agg.children);
          assert Decomposed(agg, false);
          assert Decomposed(agg', false);
          assert Decomposed(Node(c.op, c.children[0 := agg']), false);
        }
      }
    }
  }

  lemma OthersNone(op: Operator)
    ensures !op.Aggregate? ==> NoneLeft(op)
  {
  }

  lemma RewrittenNone(agg: Operator, naming: Naming)
    requires agg.Aggregate?
    ensures NoneLeft(RewrittenAggregate(agg, naming))
  {
    hide NewExpressions, IsAverageOrSpread;
    NewExpressionsNone(agg.expressions, naming);
  }

  /** After the pass none of them is left where the pass looks. */
  lemma {:induction false} NoDerivedLeft(p: Plan, isTop: bool, naming: Naming)
    ensures Decomposed(DerivedRewritten(p, isTop, naming), isTop)
    decreases p
  {
    hide PairRewritten, Decomposed;
    var cs := DerivedRewrittenAll(p.children, naming);
    forall i | 0 <= i < |p.children| ensures Decomposed(cs[i], false) {
      NoDerivedLeft(p.children[i], false, naming);
    }
    PairDecomposed(Node(p.op, cs), isTop, naming);
  }

  // ---- and stay right ----

  /** From the columns a row holds when the view is created, any number of refreshes leads to columns that rebuild the
      aggregate over the group as it is by then: whatever the tables are then, if the values of the group went through
      the changes that were merged. */
  lemma ShownColumnsMaintain(a: AggExpr, ms: seq<Row>, env: Environment, ms': seq<Row>, env': Environment,
                             states: seq<seq<Value>>, batches: seq<seq<Change>>)
    requires IsDerived(a) && |a.args| == 1 && !a.distinct && a.filter.None? && env'.root == env.root
    requires IsHistory(states, batches)
    requires states[0] == ArgumentValues(a, ms, env) && states[|batches|] == ArgumentValues(a, ms', env')
    ensures Rebuilt(a.name, Refreshed(HiddenOf(Numbers(NonNull(ArgumentValues(a, ms, env)))), batches), env.root)
         == AggValue(a, ms', env')
  {
    hide Rebuilt, Refreshed, HiddenOf, Numbers, NonNull, AggValue, IsHistory, DerivedValue;
    SelfMaintained(a.name, states, batches, env.root);
    DerivedAggValue(a, ms', env');
  }
}
