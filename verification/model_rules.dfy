/** What the rules and modes of model nodes mean. */
module ModelRules {
  import opened SqlValues
  import opened IncrementalChecker
  import opened ViewClassifier
  import opened DeltaModel
  import Rules = DeltaRules
  import ZSets

  // ---- operator trees and delta rules ----

  /** p is a plan with a compiled delta that has the shape of the operator tree, over the tables of its scans. */
  ghost predicate Covers(op: Operator, p: Rules.Plan, c: Context)
    decreases p, 1
  {
    match p
    case Scan(table) => op.kind.Get? && op.children == [] && table == OwnTable(op.kind, c)
    case Constant(_) => op.kind.ConstantScan? && op.children == []
    case Filter(_, input) => op.kind.Filter? && |op.children| == 1 && Covers(op.children[0], input, c)
    case Project(_, input) => op.kind.Projection? && |op.children| == 1 && Covers(op.children[0], input, c)
    case Unnest(_, input) => op.kind.Unnest? && |op.children| == 1 && Covers(op.children[0], input, c)
    case UnionAll(inputs) => op.kind.Union? && op.kind.all && CoversAll(op.children, inputs, c)
    case InnerJoin(_, left, right) =>
      && op.kind.Join? && Uncorrelated(op.kind.operator) && (op.kind.joinType.None? || op.kind.joinType.value.Inner?)
      && |op.children| == 2
      && Covers(op.children[0], left, c) && Covers(op.children[1], right, c)
  }

  ghost predicate HasDelta(op: Operator, c: Context) {
    exists p :: Covers(op, p, c)
  }

  ghost predicate CoversAll(ops: seq<Operator>, ps: seq<Rules.Plan>, c: Context)
    decreases ps, 0
  {
    |ops| == |ps| && forall i :: 0 <= i < |ps| ==> Covers(ops[i], ps[i], c)
  }

  predicate Uncorrelated(operator: JoinOperator) {
    operator.Comparison? || operator.AnyJoin? || operator.PlainJoin? || operator.Cross?
  }

  /** The operator tree has the children its operators take, keeps duplicates in its unions, reads no common table
      expression, and has no joins that stand for correlated or scalar subqueries. */
  predicate RegularHere(op: Operator) {
    match op.kind
    case Get(_, _) => op.children == []
    case ConstantScan => op.children == []
    case Filter(_) => |op.children| == 1
    case Projection(_, _) => |op.children| == 1
    case Unnest(_) => |op.children| == 1
    case Union(all, _) => all
    case Join(operator, t) =>
      && |op.children| == 2 && (Uncorrelated(operator) || operator.Asof?)
      && (t.None? || !(t.value.SingleJoin? || t.value.OtherJoinType?))
    case CteRef => false
    case MaterializedCte => false
    case _ => true
  }

  predicate Regular(op: Operator) {
    RegularHere(op) && forall i :: 0 <= i < |op.children| ==> Regular(op.children[i])
  }

  const DELTA_RULES: set<Rule> := {LinearRule, ProductRule}

  /** Every operator of the tree gets one of some rules. */
  predicate Ruled(op: Operator, c: Context, rules: set<Rule>) {
    RuleFor(op.kind, c) in rules && forall i :: 0 <= i < |op.children| ==> Ruled(op.children[i], c, rules)
  }

  predicate OnlyRules(nodes: seq<Node>, rules: set<Rule>) {
    forall k :: 0 <= k < |nodes| ==> nodes[k].rule in rules
  }

  lemma OnlyRulesJoin(a: seq<Node>, b: seq<Node>, rules: set<Rule>)
    ensures OnlyRules(a + b, rules) <==> OnlyRules(a, rules) && OnlyRules(b, rules)
  {
    if OnlyRules(a + b, rules) {
      forall k | 0 <= k < |a|
        ensures a[k].rule in rules
      {
        assert (a + b)[k] == a[k];
      }
      forall k | 0 <= k < |b|
        ensures b[k].rule in rules
      {
        assert (a + b)[|a| + k] == b[k];
      }
    }
  }

  lemma OnlyRule(n: Node, rules: set<Rule>)
    ensures OnlyRules([n], rules) <==> n.rule in rules
  {
    assert [n][0] == n;
  }

  /** The nodes below come first, then the node of the operator, which has the rule of its kind. */
  lemma RootRule(op: Operator, base: nat, c: Context)
    ensures var f, below := Flatten(op, base, c), FlattenAll(op.children, base, c);
            f == below + [f[|below|]] && f[|below|].rule == RuleFor(op.kind, c)
  {
    hide RuleFor, NodeKindFor, NeedsAux, ReasonsFor, TablesOfAll, AddCI, OwnTable, OccurrenceOf, RootIds, FlattenAll;
  }

  /** The rules of the arena are those of the tree. */
  lemma {:induction false} ArenaRules(op: Operator, base: nat, c: Context, rules: set<Rule>)
    ensures OnlyRules(Flatten(op, base, c), rules) <==> Ruled(op, c, rules)
    decreases op, 1
  {
    hide Flatten, FlattenAll, RuleFor, OnlyRules;
    var below := FlattenAll(op.children, base, c);
    var f := Flatten(op, base, c);
    RootRule(op, base, c);
    AllArenaRules(op.children, base, c, rules);
    OnlyRulesJoin(below, [f[|below|]], rules);
    OnlyRule(f[|below|], rules);
  }

  lemma {:induction false} AllArenaRules(ops: seq<Operator>, base: nat, c: Context, rules: set<Rule>)
    ensures OnlyRules(FlattenAll(ops, base, c), rules) <==> forall i :: 0 <= i < |ops| ==> Ruled(ops[i], c, rules)
    decreases ops, 0
  {
    hide Flatten, OnlyRules, Ruled;
    if ops == [] {
      NoNodes(rules);
    } else {
      var front, last := ops[..|ops| - 1], ops[|ops| - 1];
      var before := FlattenAll(front, base, c);
      AllArenaRules(front, base, c, rules);
      ArenaRules(last, base + |before|, c, rules);
      OnlyRulesJoin(before, Flatten(last, base + |before|, c), rules);
      assert ops == front + [last];
    }
  }

  lemma NoNodes(rules: set<Rule>)
    ensures OnlyRules([], rules)
  {
  }

  /** A plan for a tree of LINEAR and PRODUCT operators; what it computes at each operator is left open. */
  function SomePlan(op: Operator, c: Context): Rules.Plan
    requires Regular(op) && Ruled(op, c, DELTA_RULES)
    decreases op
  {
    match op.kind
    case Get(_, _) => Rules.Scan(OwnTable(op.kind, c))
    case Filter(_) => Rules.Filter(_ => true, SomePlan(op.children[0], c))
    case Projection(_, _) => Rules.Project(r => r, SomePlan(op.children[0], c))
    case Unnest(_) => Rules.Unnest(r => [r], SomePlan(op.children[0], c))
    case Union(_, _) =>
      Rules.UnionAll(seq(|op.children|, i requires 0 <= i < |op.children| => SomePlan(op.children[i], c)))
    case Join(_, _) => Rules.InnerJoin((_, _) => true, SomePlan(op.children[0], c), SomePlan(op.children[1], c))
    case _ => Rules.Constant([])
  }

  lemma {:induction false} SomePlanCovers(op: Operator, c: Context)
    requires Regular(op) && Ruled(op, c, DELTA_RULES)
    ensures Covers(op, SomePlan(op, c), c)
    decreases op
  {
    forall i | 0 <= i < |op.children|
      ensures Covers(op.children[i], SomePlan(op.children[i], c), c)
    {
      SomePlanCovers(op.children[i], c);
    }
  }

  lemma CoveredKind(op: Operator, p: Rules.Plan, c: Context)
    requires Covers(op, p, c) && c.reasons == []
    ensures RuleFor(op.kind, c) in DELTA_RULES && RegularHere(op)
  {
    hide CoversAll, OwnTable;
  }

  lemma {:induction false} CoveredIsRuled(op: Operator, p: Rules.Plan, c: Context)
    requires Covers(op, p, c) && c.reasons == []
    ensures Regular(op) && Ruled(op, c, DELTA_RULES)
    decreases p
  {
    hide RuleFor, OwnTable, RegularHere;
    CoveredKind(op, p, c);
    match p {
      case Scan(_) =>
      case Constant(_) =>
      case Filter(_, input) => CoveredIsRuled(op.children[0], input, c);
      case Project(_, input) => CoveredIsRuled(op.children[0], input, c);
      case Unnest(_, input) => CoveredIsRuled(op.children[0], input, c);
      case UnionAll(inputs) =>
        forall i | 0 <= i < |inputs|
          ensures Regular(op.children[i]) && Ruled(op.children[i], c, DELTA_RULES)
        {
          CoveredIsRuled(op.children[i], inputs[i], c);
        }
      case InnerJoin(_, left, right) =>
        CoveredIsRuled(op.children[0], left, c);
        CoveredIsRuled(op.children[1], right, c);
    }
  }

  /** A regular plan without unsupported reason has nothing but LINEAR and PRODUCT nodes exactly if it is one of the plans
      whose compiled delta is sound. */
  lemma DeltaRulesExactly(op: Operator, base: nat, c: Context)
    requires Regular(op) && c.reasons == []
    ensures OnlyRules(Flatten(op, base, c), DELTA_RULES) <==> HasDelta(op, c)
  {
    hide Flatten, OnlyRules, Covers;
    ArenaRules(op, base, c, DELTA_RULES);
    if Ruled(op, c, DELTA_RULES) {
      SomePlanCovers(op, c);
    }
    if HasDelta(op, c) {
      var p :| Covers(op, p, c);
      CoveredIsRuled(op, p, c);
    }
  }

  // ---- maintenance from deltas alone ----

  /** A node as it is built for an operator kind. */
  predicate BuiltFor(n: Node, c: Context) {
    && n.kind == NodeKindFor(n.plan) && n.rule == RuleFor(n.plan, c) && n.hasAux == NeedsAux(n.kind, c)
    && n.reasons == ReasonsFor(c.reasons, n.kind) && ScanFits(n, c)
  }

  /** A scan of a known table says which occurrence of it it is; nothing else has a source table. */
  predicate ScanFits(n: Node, c: Context) {
    if n.plan.Get? && n.plan.index in c.occurrences then
      Occurrence(n.sourceTable, n.sourceOccurrence, n.sourceTableIndex) == c.occurrences[n.plan.index]
    else n.sourceTable == "" && n.sourceOccurrence.None? && n.sourceTableIndex.None?
  }

  predicate AllBuilt(nodes: seq<Node>, c: Context) {
    forall k :: 0 <= k < |nodes| ==> BuiltFor(nodes[k], c)
  }

  lemma {:induction false} ArenaIsBuilt(op: Operator, base: nat, c: Context)
    ensures AllBuilt(Flatten(op, base, c), c)
    decreases op, 1
  {
    hide NodeKindFor, RuleFor, NeedsAux, ReasonsFor, TablesOfAll, AddCI, RootIds, FlattenAll;
    ArenasAreBuilt(op.children, base, c);
  }

  lemma {:induction false} ArenasAreBuilt(ops: seq<Operator>, base: nat, c: Context)
    ensures AllBuilt(FlattenAll(ops, base, c), c)
    decreases ops, 0
  {
    hide Flatten, BuiltFor;
    if ops != [] {
      var front := FlattenAll(ops[..|ops| - 1], base, c);
      ArenasAreBuilt(ops[..|ops| - 1], base, c);
      ArenaIsBuilt(ops[|ops| - 1], base + |front|, c);
    }
  }

  lemma {:induction false} NoReasons(reasons: seq<Reason>, kind: NodeKind)
    ensures ReasonsFor(reasons, kind) != [] ==> reasons != []
  {
  }

  /** The mode and state of a maintained node m. */
  predicate ModeFits(m: Node, groupRecompute: bool) {
    var mode, state := m.maintenance.mode, m.maintenance.state;
    && (mode.DeltaOnly? <==> m.rule.LinearRule?)
    && (mode.FullRecompute? <==> m.rule.FullOnlyRule?)
    && (state.NoState? <==> mode.DeltaOnly? || mode.FullRecompute?)
    && (m.rule.ProductRule? ==> mode.DeltaWithState? && state.CurrentRelation?)
    && (state.CurrentRelation? <==> m.kind.JoinNode? && !m.rule.FullOnlyRule?)
    && (m.rule.NonLinearRule? && !m.kind.AggregateNode? ==> mode.AffectedDomainRecompute?)
    && (m.kind.AggregateNode? && !m.rule.FullOnlyRule? ==> (mode.AffectedDomainRecompute? <==> groupRecompute))
    && (state.AuxTable? <==> m.hasAux && !m.rule.FullOnlyRule? && !(m.kind.AggregateNode? && groupRecompute))
    && (mode.AffectedDomainRecompute? ==> state.MvData?)
  }

  lemma BuiltFits(n: Node, c: Context, groupRecompute: bool)
    requires BuiltFor(n, c)
    ensures ModeFits(n.(maintenance := MaintenanceFor(n, groupRecompute)), groupRecompute)
  {
    hide ReasonsFor;
    NoReasons(c.reasons, n.kind);
  }

  predicate JoinsAs(k: Kind, types: set<JoinType>) {
    k.Join? && !k.operator.Asof? && k.joinType.Some? && k.joinType.value in types
  }

  /** The rule, the aux table and the source table of a node, told from its operator. */
  predicate RuleFits(n: Node, c: Context) {
    var k := n.plan;
    && (n.rule.FullOnlyRule? <==> c.reasons != [] || k.PassThrough? || k.OtherKind?)
    && (c.reasons == [] ==>
          && (n.rule.NonLinearRule? <==> k.PositionalJoin? || k.Sample? || (k.Aggregate? && c.nonLinear))
          && (n.rule.StatefulRule? <==>
                || k.Window? || k.Distinct? || k.TopN? || k.Limit? || k.OrderBy? || (k.Aggregate? && !c.nonLinear)
                || (k.Join? && k.operator.Asof?) || JoinsAs(k, {LeftJoin, RightJoin, OuterJoin, Semi, Anti, Mark}))
          && (n.rule.ProductRule? <==>
                k.Join? && !k.operator.Asof? && !JoinsAs(k, {LeftJoin, RightJoin, OuterJoin, Semi, Anti, Mark})))
    && (n.hasAux <==>
          || (c.distinctAux && k.Distinct?) || (c.filteredGroupAux && k.Aggregate?)
          || (c.semiAntiAux && JoinsAs(k, {Semi, Anti, Mark})))
    && ScanFits(n, c)
  }

  lemma BuiltHasRule(n: Node, c: Context)
    requires BuiltFor(n, c)
    ensures RuleFits(n, c)
  {
    hide ReasonsFor;
  }

  /** The rules of all nodes of a plan, and which of them have an aux table. */
  lemma RulesFit(op: Operator, base: nat, c: Context)
    ensures var nodes := Flatten(op, base, c);
            forall k :: 0 <= k < |nodes| ==> RuleFits(nodes[k], c)
  {
    hide Flatten, BuiltFor, RuleFits;
    ArenaIsBuilt(op, base, c);
    var f := Flatten(op, base, c);
    forall k | 0 <= k < |f|
      ensures RuleFits(f[k], c)
    {
      BuiltHasRule(f[k], c);
    }
  }

  /** For every plan and every context: deltas alone for exactly the LINEAR nodes, full recompute for exactly the
      FULL_ONLY ones, and every other node has a state it works with - the current relations exactly for joins, an aux
      table exactly where there is one. */
  lemma ModesFit(op: Operator, base: nat, c: Context, groupRecompute: bool)
    ensures var nodes := Maintained(Flatten(op, base, c), groupRecompute);
            forall k :: 0 <= k < |nodes| ==> ModeFits(nodes[k], groupRecompute)
  {
    hide Flatten, BuiltFor, ModeFits, MaintenanceFor;
    ArenaIsBuilt(op, base, c);
    var f := Flatten(op, base, c);
    forall k | 0 <= k < |f|
      ensures ModeFits(Maintained(f, groupRecompute)[k], groupRecompute)
    {
      BuiltFits(f[k], c, groupRecompute);
    }
  }

  lemma {:induction false} NodeReasonsExactly(reasons: seq<Reason>, kind: NodeKind)
    ensures forall r :: r in ReasonsFor(reasons, kind) <==> r in reasons && Concerns(r, kind)
    ensures forall i, j :: 0 <= i < j < |ReasonsFor(reasons, kind)| ==> ReasonsFor(reasons, kind)[i] != ReasonsFor(reasons, kind)[j]
  {
    hide Concerns;
    if reasons != [] {
      NodeReasonsExactly(reasons[..|reasons| - 1], kind);
      assert reasons == reasons[..|reasons| - 1] + [reasons[|reasons| - 1]];
    }
  }

  /** The reasons that a finding of a single operator may give the model. */
  function ReasonsOf(what: Finding): set<Reason> {
    match what
    case NonFoldableUnnest => {UnnestReason}
    case UnsupportedAggregate => {AggregateReason}
    case UnsupportedFilteredAggregate => {FilteredAggregateReason}
    case GroupingSets => {GroupingSetsNoKeys}
    case FilteredList => {FilteredListNoKeys}
    case UnsupportedJoinType => {JoinTypeReason}
    case SemiAntiJoin => {SemiAntiWithAggregate, SemiAntiMissingAux}
    case UnsupportedOrderBy => {OrderByReason}
    case _ => {}
  }

  /** Whether the node of the operator that brings a finding carries the reason: always, except that an ASOF join never
      carries what its join type brings, and that what an unnested list in a projection brings is looked for at UNNEST
      nodes only, so that no node carries it. */
  lemma BlameExactly(n: Operator, what: Finding, nested: bool, reasons: seq<Reason>, r: Reason)
    requires Brings(n, what, nested) && r in ReasonsOf(what) && r in reasons
    ensures r in ReasonsFor(reasons, NodeKindFor(n.kind))
            <==> !(n.kind.Join? && n.kind.operator.Asof?) && !what.NonFoldableUnnest?
  {
    hide ReasonsFor;
    NodeReasonsExactly(reasons, NodeKindFor(n.kind));
  }

  predicate Joinless(p: Rules.Plan) {
    match p
    case Filter(_, input) => Joinless(input)
    case Project(_, input) => Joinless(input)
    case Unnest(_, input) => Joinless(input)
    case UnionAll(inputs) => forall i :: 0 <= i < |inputs| ==> Joinless(inputs[i])
    case InnerJoin(_, _, _) => false
    case _ => true
  }

  lemma {:induction false} JoinlessDelta(p: Rules.Plan, before: Rules.Database, current: Rules.Database,
      before': Rules.Database, current': Rules.Database, changes: Rules.Database, telescoped: Rules.Plan -> bool)
    requires Joinless(p)
    ensures Rules.Delta(p, before, current, changes, telescoped) == Rules.Delta(p, before', current', changes, telescoped)
    decreases p
  {
    match p {
      case Filter(_, input) => JoinlessDelta(input, before, current, before', current', changes, telescoped);
      case Project(_, input) => JoinlessDelta(input, before, current, before', current', changes, telescoped);
      case Unnest(_, input) => JoinlessDelta(input, before, current, before', current', changes, telescoped);
      case UnionAll(inputs) => JoinlessDeltas(inputs, before, current, before', current', changes, telescoped);
      case _ =>
    }
  }

  lemma {:induction false} JoinlessDeltas(ps: seq<Rules.Plan>, before: Rules.Database, current: Rules.Database,
      before': Rules.Database, current': Rules.Database, changes: Rules.Database, telescoped: Rules.Plan -> bool)
    requires forall i :: 0 <= i < |ps| ==> Joinless(ps[i])
    ensures Rules.DeltaAll(ps, before, current, changes, telescoped)
            == Rules.DeltaAll(ps, before', current', changes, telescoped)
    decreases ps
  {
    if ps != [] {
      JoinlessDelta(ps[0], before, current, before', current', changes, telescoped);
      JoinlessDeltas(ps[1..], before, current, before', current', changes, telescoped);
    }
  }

  lemma {:induction false} LinearIsJoinless(op: Operator, p: Rules.Plan, c: Context)
    requires Covers(op, p, c) && Ruled(op, c, {LinearRule})
    ensures Joinless(p)
    decreases p
  {
    match p {
      case Filter(_, input) => LinearIsJoinless(op.children[0], input, c);
      case Project(_, input) => LinearIsJoinless(op.children[0], input, c);
      case Unnest(_, input) => LinearIsJoinless(op.children[0], input, c);
      case UnionAll(inputs) =>
        forall i | 0 <= i < |inputs|
          ensures Joinless(inputs[i])
        {
          LinearIsJoinless(op.children[i], inputs[i], c);
        }
      case _ =>
    }
  }

  /** DELTA_ONLY is right: the compiled delta of a plan with nothing but LINEAR nodes is the same whatever the tables
      held and hold, and added to the old result it gives the new one. */
  lemma DeltaOnlyNeedsNoState(op: Operator, p: Rules.Plan, base: nat, c: Context, before: Rules.Database,
      current: Rules.Database, before': Rules.Database, current': Rules.Database, changes: Rules.Database,
      telescoped: Rules.Plan -> bool)
    requires Covers(op, p, c) && OnlyRules(Flatten(op, base, c), {LinearRule})
    requires Rules.Pending(before, current, changes)
    ensures Rules.Delta(p, before, current, changes, telescoped) == Rules.Delta(p, before', current', changes, telescoped)
    ensures forall r :: ZSets.Weight(Rules.Eval(p, current), r)
                        == ZSets.Weight(Rules.Eval(p, before), r)
                           + ZSets.Weight(Rules.Delta(p, before', current', changes, telescoped), r)
  {
    hide Flatten, OnlyRules, Covers, Joinless, Ruled, Rules.Delta, Rules.Eval;
    ArenaRules(op, base, c, {LinearRule});
    LinearIsJoinless(op, p, c);
    JoinlessDelta(p, before, current, before', current', changes, telescoped);
    Rules.DeltaIsSound(p, before, current, changes, telescoped);
  }

  /** A database of two tables. */
  function Holding(l: ZSets.ZSet<Rules.Row>, r: ZSets.ZSet<Rules.Row>): Rules.Database {
    t => if t == "l" then l else if t == "r" then r else []
  }

  const ROW: Rules.Row := []
  const ONE_ROW: ZSets.ZSet<Rules.Row> := [ZSets.Entry(ROW, 1)]
  const CROSS := Rules.InnerJoin((_, _) => true, Rules.Scan("l"), Rules.Scan("r"))

  lemma OneByOne(j: (Rules.Row, Rules.Row) -> seq<Rules.Row>)
    requires j(ROW, ROW) == [ROW]
    ensures ZSets.Join(ONE_ROW, ONE_ROW, j) == ONE_ROW
  {
    var rest: ZSets.ZSet<Rules.Row> := [];
    assert ONE_ROW[1..] == rest && [ROW][1..] == [];
    assert ZSets.Weigh([ROW], 1) == [ZSets.Entry(ROW, 1)] + ZSets.Weigh([], 1);
    assert ZSets.JoinRow(ONE_ROW[0], ONE_ROW, j) == ZSets.Weigh([ROW], 1) + ZSets.JoinRow(ONE_ROW[0], rest, j);
    assert ZSets.Join(ONE_ROW, ONE_ROW, j) == ZSets.JoinRow(ONE_ROW[0], ONE_ROW, j) + ZSets.Join(rest, ONE_ROW, j);
  }

  lemma PairOfRows()
    ensures Rules.Pair(CROSS.on)(ROW, ROW) == [ROW]
  {
    assert CROSS.on(ROW, ROW);
    assert ROW + ROW == ROW;
  }

  lemma OneByNone(j: (Rules.Row, Rules.Row) -> seq<Rules.Row>)
    ensures ZSets.Join(ONE_ROW, [], j) == []
  {
    var rest: ZSets.ZSet<Rules.Row> := [];
    assert ONE_ROW[1..] == rest;
    assert ZSets.Join(ONE_ROW, rest, j) == ZSets.JoinRow(ONE_ROW[0], rest, j) + ZSets.Join(rest, rest, j);
  }

  lemma WeightOfOne()
    ensures ZSets.Weight(ONE_ROW, ROW) == 1
  {
    var rest: ZSets.ZSet<Rules.Row> := [];
    assert ONE_ROW[1..] == rest;
    assert ZSets.Sum(ONE_ROW, ZSets.Indicator(ROW)) == 1 * 1 + ZSets.Sum(rest, ZSets.Indicator(ROW));
  }

  lemma CrossIs(l: ZSets.ZSet<Rules.Row>, r: ZSets.ZSet<Rules.Row>)
    ensures Rules.Eval(CROSS, Holding(l, r)) == ZSets.Join(l, r, Rules.Pair(CROSS.on))
  {
    hide ZSets.Join;
    var db := Holding(l, r);
    assert Rules.Eval(CROSS.left, db) == l && Rules.Eval(CROSS.right, db) == r;
  }

  lemma CrossWeights(r: ZSets.ZSet<Rules.Row>)
    requires r == [] || r == ONE_ROW
    ensures ZSets.Weight(Rules.Eval(CROSS, Holding([], r)), ROW) == 0
    ensures ZSets.Weight(Rules.Eval(CROSS, Holding(ONE_ROW, r)), ROW) == |r|
  {
    hide Rules.Eval, Holding;
    var j := Rules.Pair(CROSS.on);
    CrossIs([], r);
    CrossIs(ONE_ROW, r);
    PairOfRows();
    OneByOne(j);
    OneByNone(j);
    WeightOfOne();
  }

  lemma InsertIntoLeft(r: ZSets.ZSet<Rules.Row>)
    ensures Rules.Pending(Holding([], r), Holding(ONE_ROW, r), Holding(ONE_ROW, []))
  {
    hide ZSets.Sum;
    ZSets.Unchanged(r);
    ZSets.Unchanged<Rules.Row>([]);
    ZSets.Unchanged(ONE_ROW);
  }

  /** A join needs the current relations: the same changes have different deltas in different states. */
  lemma ProductNeedsState(telescoped: Rules.Plan -> bool)
    ensures exists before, current, before', current', changes ::
              && Rules.Pending(before, current, changes) && Rules.Pending(before', current', changes)
              && Rules.Delta(CROSS, before, current, changes, telescoped)
                 != Rules.Delta(CROSS, before', current', changes, telescoped)
  {
    hide Rules.Delta, Rules.Pending, Rules.Eval, ZSets.Weight, Holding;
    var changes := Holding(ONE_ROW, []);
    InsertIntoLeft([]);
    InsertIntoLeft(ONE_ROW);
    CrossWeights([]);
    CrossWeights(ONE_ROW);
    Rules.DeltaIsSound(CROSS, Holding([], []), Holding(ONE_ROW, []), changes, telescoped);
    Rules.DeltaIsSound(CROSS, Holding([], ONE_ROW), Holding(ONE_ROW, ONE_ROW), changes, telescoped);
  }
}
