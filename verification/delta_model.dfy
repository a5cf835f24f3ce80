/** The arena of model nodes: one node per operator, with its maintenance rule, its maintenance mode and the source
    tables below it. */
module DeltaModel {
  import opened SqlValues
  import opened IncrementalChecker
  import opened ViewClassifier

  // ---- names without case ----

  predicate ContainsCI(values: seq<string>, candidate: string) {
    exists i :: 0 <= i < |values| && CIEquals(values[i], candidate)
  }

  function AddCI(values: seq<string>, candidate: string): seq<string> {
    if candidate != "" && !ContainsCI(values, candidate) then values + [candidate] else values
  }

  function AddAllCI(values: seq<string>, more: seq<string>): seq<string> {
    if more == [] then values else AddCI(AddAllCI(values, more[..|more| - 1]), more[|more| - 1])
  }

  predicate CIDistinct(values: seq<string>) {
    forall i, j :: 0 <= i < j < |values| ==> !CIEquals(values[i], values[j])
  }

  function LowerSet(values: seq<string>): set<string> {
    set i | 0 <= i < |values| :: Lower(values[i])
  }

  // ---- kinds, rules and modes ----

  datatype NodeKind =
    | ScanNode | FilterNode | ProjectNode | JoinNode | AggregateNode | WindowNode | DistinctNode | SemiAntiNode
    | UnionNode | TopKNode | UnnestNode | AsofJoinNode | PositionalJoinNode | SampleNode | CteNode | ConstantNode | OtherNode

  datatype Rule = LinearRule | ProductRule | StatefulRule | NonLinearRule | FullOnlyRule

  datatype Mode = DeltaOnly | DeltaWithState | AffectedDomainRecompute | FullRecompute

  datatype StateKind = NoState | CurrentRelation | MvData | AuxTable

  datatype Maintenance = Maintenance(mode: Mode, state: StateKind)

  /** The source table behind a scan, with its position among the scans of the query. */
  datatype Occurrence = Occurrence(table: string, occurrence: Option<nat>, tableIndex: Option<nat>)

  datatype DomainKind = GroupDomain | WindowPartitionDomain | ProjectionKeyDomain | SemiAntiPredicateDomain

  datatype Domain = Domain(
    kind: DomainKind, nodeId: Option<nat>, keyColumns: seq<string>, sourceTables: seq<string>,
    deltaLocal: bool, needsBaseLookup: bool)

  datatype Fact = Fact(
    kind: DomainKind, nodeId: Option<nat>, sourceTable: string, sourceOccurrence: Option<nat>,
    sourceColumn: string, outputColumn: string, lookupTable: string, lookupColumn: string, lookupOutput: string)

  datatype Node = Node(
    id: nat, kind: NodeKind, rule: Rule, plan: Kind, names: seq<string>, children: seq<nat>,
    sourceTable: string, sourceOccurrence: Option<nat>, sourceTableIndex: Option<nat>, sourceTables: seq<string>,
    hasAux: bool, reasons: seq<Reason>, maintenance: Maintenance, domains: seq<Domain>, facts: seq<Fact>)

  /** What the node rules depend on besides the operator. */
  datatype Context = Context(
    reasons: seq<Reason>, nonLinear: bool, distinctAux: bool, filteredGroupAux: bool, semiAntiAux: bool,
    groupRecompute: bool, occurrences: map<nat, Occurrence>)

  predicate IsSemiAnti(t: Option<JoinType>) {
    t.Some? && (t.value.Semi? || t.value.Anti? || t.value.Mark?)
  }

  predicate IsOuter(t: Option<JoinType>) {
    t.Some? && (t.value.LeftJoin? || t.value.RightJoin? || t.value.OuterJoin?)
  }

  function NodeKindFor(k: Kind): NodeKind {
    match k
    case Get(_, _) => ScanNode
    case Filter(_) => FilterNode
    case Projection(_, _) => ProjectNode
    case Aggregate(_, _, _, _, _) => AggregateNode
    case Window(_, _) => WindowNode
    case Distinct(_, _, _) => DistinctNode
    case Union(_, _) => UnionNode
    case TopN(_, _, _) => TopKNode
    case Limit(_, _) => TopKNode
    case OrderBy(_) => TopKNode
    case Unnest(_) => UnnestNode
    case PositionalJoin => PositionalJoinNode
    case Sample(_) => SampleNode
    case ConstantScan => ConstantNode
    case CteRef => CteNode
    case MaterializedCte => CteNode
    case Join(op, t) => if op.Asof? then AsofJoinNode else if IsSemiAnti(t) then SemiAntiNode else JoinNode
    case PassThrough => OtherNode
    case OtherKind => OtherNode
  }

  function RuleFor(k: Kind, c: Context): Rule {
    if c.reasons != [] then FullOnlyRule
    else
      match NodeKindFor(k)
      case ScanNode => LinearRule
      case FilterNode => LinearRule
      case ProjectNode => LinearRule
      case UnionNode => LinearRule
      case UnnestNode => LinearRule
      case CteNode => LinearRule
      case ConstantNode => LinearRule
      case JoinNode => if k.Join? && IsOuter(k.joinType) then StatefulRule else ProductRule
      case AsofJoinNode => StatefulRule
      case PositionalJoinNode => NonLinearRule
      case SampleNode => NonLinearRule
      case AggregateNode => if c.nonLinear then NonLinearRule else StatefulRule
      case WindowNode => StatefulRule
      case DistinctNode => StatefulRule
      case SemiAntiNode => StatefulRule
      case TopKNode => StatefulRule
      case OtherNode => FullOnlyRule
  }

  predicate NeedsAux(kind: NodeKind, c: Context) {
    || (c.distinctAux && kind.DistinctNode?)
    || (c.filteredGroupAux && kind.AggregateNode?)
    || (c.semiAntiAux && kind.SemiAntiNode?)
  }

  /** Whether an unsupported reason of the model concerns nodes of this kind. */
  predicate Concerns(r: Reason, kind: NodeKind) {
    match r
    case UnnestReason => kind.UnnestNode?
    case AggregateReason => kind.AggregateNode?
    case FilteredAggregateReason => kind.AggregateNode?
    case GroupingSetsNoKeys => kind.AggregateNode?
    case FilteredListNoKeys => kind.AggregateNode?
    case JoinTypeReason => kind.JoinNode? || kind.SemiAntiNode?
    case SemiAntiWithAggregate => kind.SemiAntiNode?
    case SemiAntiMissingAux => kind.SemiAntiNode?
    case OrderByReason => kind.TopKNode?
    case _ => false
  }

  function ReasonsFor(reasons: seq<Reason>, kind: NodeKind): seq<Reason> {
    if reasons == [] then []
    else
      var front := ReasonsFor(reasons[..|reasons| - 1], kind);
      if Concerns(reasons[|reasons| - 1], kind) && reasons[|reasons| - 1] !in front then front + [reasons[|reasons| - 1]]
      else front
  }

  const FULL := Maintenance(FullRecompute, NoState)

  function MaintenanceFor(n: Node, groupRecompute: bool): Maintenance {
    if n.rule.FullOnlyRule? || n.reasons != [] then FULL
    else
      match n.kind
      case ScanNode => Maintenance(DeltaOnly, NoState)
      case FilterNode => Maintenance(DeltaOnly, NoState)
      case ProjectNode => Maintenance(DeltaOnly, NoState)
      case UnionNode => Maintenance(DeltaOnly, NoState)
      case UnnestNode => Maintenance(DeltaOnly, NoState)
      case CteNode => Maintenance(DeltaOnly, NoState)
      case ConstantNode => Maintenance(DeltaOnly, NoState)
      case JoinNode => Maintenance(DeltaWithState, CurrentRelation)
      case AggregateNode =>
        if groupRecompute then Maintenance(AffectedDomainRecompute, MvData)
        else Maintenance(DeltaWithState, if n.hasAux then AuxTable else MvData)
      case DistinctNode =>
        if n.hasAux then Maintenance(DeltaWithState, AuxTable) else Maintenance(AffectedDomainRecompute, MvData)
      case SemiAntiNode =>
        if n.hasAux then Maintenance(DeltaWithState, AuxTable) else Maintenance(AffectedDomainRecompute, MvData)
      case AsofJoinNode => Maintenance(AffectedDomainRecompute, MvData)
      case PositionalJoinNode => Maintenance(AffectedDomainRecompute, MvData)
      case SampleNode => Maintenance(AffectedDomainRecompute, MvData)
      case WindowNode => Maintenance(AffectedDomainRecompute, MvData)
      case TopKNode => Maintenance(AffectedDomainRecompute, MvData)
      case OtherNode => FULL
  }

  // ---- flattening ----

  function OccurrenceOf(k: Kind, c: Context): Option<Occurrence> {
    if k.Get? && k.index in c.occurrences then Some(c.occurrences[k.index]) else None
  }

  /** The table an operator itself scans; empty if it scans none. */
  function OwnTable(k: Kind, c: Context): string {
    var o := OccurrenceOf(k, c);
    if o.Some? then o.value.table else ""
  }

  function TablesOf(op: Operator, c: Context): seq<string>
    decreases op, 1
  {
    AddCI(TablesOfAll(op.children, c), OwnTable(op.kind, c))
  }

  function TablesOfAll(ops: seq<Operator>, c: Context): seq<string>
    decreases ops, 0
  {
    if ops == [] then [] else AddAllCI(TablesOfAll(ops[..|ops| - 1], c), TablesOf(ops[|ops| - 1], c))
  }

  function NodeFor(op: Operator, id: nat, children: seq<nat>, tables: seq<string>, c: Context): Node {
    var o := OccurrenceOf(op.kind, c);
    var kind := NodeKindFor(op.kind);
    Node(id, kind, RuleFor(op.kind, c), op.kind, op.names, children,
         OwnTable(op.kind, c), if o.Some? then o.value.occurrence else None, if o.Some? then o.value.tableIndex else None,
         AddCI(tables, OwnTable(op.kind, c)),
         NeedsAux(kind, c), ReasonsFor(c.reasons, kind), FULL, [], [])
  }

  /** The nodes of a plan in post-order, numbered from base. */
  function Flatten(op: Operator, base: nat, c: Context): (nodes: seq<Node>)
    ensures |nodes| >= 1
    decreases op, 1
  {
    var below := FlattenAll(op.children, base, c);
    below + [NodeFor(op, base + |below|, RootIds(op.children, base, c), TablesOfAll(op.children, c), c)]
  }

  function FlattenAll(ops: seq<Operator>, base: nat, c: Context): seq<Node>
    decreases ops, 0
  {
    if ops == [] then []
    else
      var front := FlattenAll(ops[..|ops| - 1], base, c);
      front + Flatten(ops[|ops| - 1], base + |front|, c)
  }

  /** The ids of the roots of consecutive plans. */
  function RootIds(ops: seq<Operator>, base: nat, c: Context): (ids: seq<nat>)
    ensures |ids| == |ops|
    decreases ops, 1
  {
    if ops == [] then []
    else
      var all := |FlattenAll(ops, base, c)|;
      RootIds(ops[..|ops| - 1], base, c) + [if base + all > 0 then base + all - 1 else 0]
  }

  // ---- the arena is a faithful flattening ----

  predicate IsArena(nodes: seq<Node>, base: nat) {
    && (forall k :: 0 <= k < |nodes| ==> nodes[k].id == base + k)
    && (forall k, i :: 0 <= k < |nodes| && 0 <= i < |nodes[k].children| ==> base <= nodes[k].children[i] < base + k)
  }

  lemma ArenaJoin(a: seq<Node>, b: seq<Node>, base: nat)
    requires IsArena(a, base) && IsArena(b, base + |a|)
    ensures IsArena(a + b, base)
  {
    forall k, i | 0 <= k < |a + b| && 0 <= i < |(a + b)[k].children|
      ensures base <= (a + b)[k].children[i] < base + k
    {
      if k >= |a| {
        assert (a + b)[k] == b[k - |a|];
      }
    }
  }

  lemma ArenaAppend(a: seq<Node>, n: Node, base: nat)
    requires IsArena(a, base) && n.id == base + |a|
    requires forall i :: 0 <= i < |n.children| ==> base <= n.children[i] < n.id
    ensures IsArena(a + [n], base)
  {
  }

  lemma {:induction false} RootIdsWithin(ops: seq<Operator>, base: nat, c: Context)
    ensures forall i :: 0 <= i < |ops| ==> base <= RootIds(ops, base, c)[i] < base + |FlattenAll(ops, base, c)|
    decreases ops
  {
    hide Flatten;
    if ops != [] {
      RootIdsWithin(ops[..|ops| - 1], base, c);
    }
  }

  /** The nodes below come first, the operator's own node last. */
  lemma FlattenSplit(op: Operator, base: nat, c: Context)
    ensures var f, below := Flatten(op, base, c), FlattenAll(op.children, base, c);
            && |f| == |below| + 1 && f[..|below|] == below && f == below + [f[|below|]]
            && f[|below|].id == base + |below| && f[|below|].plan == op.kind && f[|below|].names == op.names
            && f[|below|].children == RootIds(op.children, base, c)
  {
    hide NodeKindFor, RuleFor, NeedsAux, ReasonsFor, TablesOfAll, AddCI, OwnTable, OccurrenceOf, RootIds, FlattenAll;
  }

  /** Ids are positions, and children come before their parents. */
  lemma {:induction false} FlattenIsArena(op: Operator, base: nat, c: Context)
    ensures IsArena(Flatten(op, base, c), base)
    decreases op, 1
  {
    hide Flatten, IsArena, FlattenAll, RootIds;
    FlattenAllIsArena(op.children, base, c);
    RootIdsWithin(op.children, base, c);
    FlattenSplit(op, base, c);
    var below := FlattenAll(op.children, base, c);
    ArenaAppend(below, Flatten(op, base, c)[|below|], base);
  }

  lemma {:induction false} FlattenAllIsArena(ops: seq<Operator>, base: nat, c: Context)
    ensures IsArena(FlattenAll(ops, base, c), base)
    decreases ops, 0
  {
    hide Flatten, IsArena;
    if ops == [] {
      NothingIsArena(base);
    } else {
      var front := FlattenAll(ops[..|ops| - 1], base, c);
      FlattenAllIsArena(ops[..|ops| - 1], base, c);
      FlattenIsArena(ops[|ops| - 1], base + |front|, c);
      ArenaJoin(front, Flatten(ops[|ops| - 1], base + |front|, c), base);
    }
  }

  lemma NothingIsArena(base: nat)
    ensures IsArena([], base)
  {
  }

  /** The operator tree below a node, read off the arena alone. */
  function Rebuild(nodes: seq<Node>, id: nat): Operator
    requires IsArena(nodes, 0) && id < |nodes|
    decreases id
  {
    Operator(nodes[id].plan, nodes[id].names,
             seq(|nodes[id].children|, i requires 0 <= i < |nodes[id].children| => Rebuild(nodes, nodes[id].children[i])))
  }

  /** f lies in the arena from position base on. */
  predicate Occupies(nodes: seq<Node>, base: nat, f: seq<Node>) {
    base + |f| <= |nodes| && forall k :: 0 <= k < |f| ==> nodes[base + k] == f[k]
  }

  lemma OccupiesPart(nodes: seq<Node>, base: nat, f: seq<Node>, g: seq<Node>)
    requires Occupies(nodes, base, f + g)
    ensures Occupies(nodes, base, f) && Occupies(nodes, base + |f|, g)
  {
    forall k | 0 <= k < |f|
      ensures nodes[base + k] == f[k]
    {
      assert (f + g)[k] == f[k];
    }
    forall k | 0 <= k < |g|
      ensures nodes[base + |f| + k] == g[k]
    {
      assert (f + g)[|f| + k] == g[k];
    }
  }

  /** Rebuilding from the node of an operator gives the operator back, wherever its nodes lie in the arena. */
  lemma {:induction false} RebuildAt(nodes: seq<Node>, op: Operator, base: nat, c: Context)
    requires IsArena(nodes, 0) && Occupies(nodes, base, Flatten(op, base, c))
    ensures Rebuild(nodes, base + |Flatten(op, base, c)| - 1) == op
    decreases op, 1
  {
    hide Flatten, IsArena, FlattenAll, RootIds, Rebuild, Occupies;
    FlattenSplit(op, base, c);
    var f, below := Flatten(op, base, c), FlattenAll(op.children, base, c);
    OccupiesPart(nodes, base, below, [f[|below|]]);
    RebuildAllAt(nodes, op.children, base, c);
    OccupiesOne(nodes, base + |below|, f[|below|]);
    RebuildNode(nodes, base + |below|, op);
  }

  lemma OccupiesOne(nodes: seq<Node>, base: nat, n: Node)
    requires Occupies(nodes, base, [n])
    ensures base < |nodes| && nodes[base] == n
  {
    assert nodes[base + 0] == [n][0];
  }

  lemma RebuildNode(nodes: seq<Node>, id: nat, op: Operator)
    requires IsArena(nodes, 0) && id < |nodes|
    requires nodes[id].plan == op.kind && nodes[id].names == op.names && |nodes[id].children| == |op.children|
    requires forall i :: 0 <= i < |op.children| ==>
               nodes[id].children[i] < |nodes| && Rebuild(nodes, nodes[id].children[i]) == op.children[i]
    ensures Rebuild(nodes, id) == op
  {
    assert Rebuild(nodes, id).children == op.children;
  }

  lemma {:induction false} RebuildAllAt(nodes: seq<Node>, ops: seq<Operator>, base: nat, c: Context)
    requires IsArena(nodes, 0) && Occupies(nodes, base, FlattenAll(ops, base, c))
    ensures forall i :: 0 <= i < |ops| ==>
              RootIds(ops, base, c)[i] < |nodes| && Rebuild(nodes, RootIds(ops, base, c)[i]) == ops[i]
    decreases ops, 0
  {
    hide Flatten, Rebuild, IsArena, Occupies;
    if ops != [] {
      var last := |ops| - 1;
      var front := FlattenAll(ops[..last], base, c);
      var g := Flatten(ops[last], base + |front|, c);
      OccupiesPart(nodes, base, front, g);
      RebuildAllAt(nodes, ops[..last], base, c);
      RebuildAt(nodes, ops[last], base + |front|, c);
      OccupiesWithin(nodes, base, front + g);
    }
  }

  lemma OccupiesWithin(nodes: seq<Node>, base: nat, f: seq<Node>)
    requires Occupies(nodes, base, f)
    ensures base + |f| <= |nodes|
  {
  }

  /** The arena of a plan: ids are positions, children precede parents, the root is last, and the whole operator tree can
      be rebuilt from it. */
  lemma ArenaIsFaithful(op: Operator, c: Context)
    ensures IsArena(Flatten(op, 0, c), 0)
    ensures Rebuild(Flatten(op, 0, c), |Flatten(op, 0, c)| - 1) == op
  {
    hide Flatten;
    FlattenIsArena(op, 0, c);
    RebuildAt(Flatten(op, 0, c), op, 0, c);
  }

  // ---- source tables ----

  /** The tables scanned anywhere below an operator, lower-cased. */
  function Scanned(op: Operator, c: Context): set<string>
    decreases op, 1
  {
    (if OwnTable(op.kind, c) == "" then {} else {Lower(OwnTable(op.kind, c))}) + ScannedAll(op.children, c)
  }

  function ScannedAll(ops: seq<Operator>, c: Context): set<string>
    decreases ops, 0
  {
    if ops == [] then {} else ScannedAll(ops[..|ops| - 1], c) + Scanned(ops[|ops| - 1], c)
  }

  predicate NonEmpty(values: seq<string>) {
    forall i :: 0 <= i < |values| ==> values[i] != ""
  }

  lemma AddCIKeeps(values: seq<string>, candidate: string)
    requires CIDistinct(values) && NonEmpty(values)
    ensures CIDistinct(AddCI(values, candidate)) && NonEmpty(AddCI(values, candidate))
    ensures LowerSet(AddCI(values, candidate)) == LowerSet(values) + if candidate == "" then {} else {Lower(candidate)}
  {
    hide Lower;
    var r := AddCI(values, candidate);
    if candidate != "" && ContainsCI(values, candidate) {
      var i :| 0 <= i < |values| && CIEquals(values[i], candidate);
      assert Lower(values[i]) in LowerSet(values);
    } else if candidate != "" {
      forall x | x in LowerSet(values) + {Lower(candidate)}
        ensures x in LowerSet(r)
      {
        if x == Lower(candidate) {
          assert r[|values|] == candidate;
        } else {
          var i :| 0 <= i < |values| && x == Lower(values[i]);
          assert r[i] == values[i];
        }
      }
      assert LowerSet(r) <= LowerSet(values) + {Lower(candidate)};
    }
  }

  lemma {:induction false} AddAllCIKeeps(values: seq<string>, more: seq<string>)
    requires CIDistinct(values) && NonEmpty(values) && NonEmpty(more)
    ensures CIDistinct(AddAllCI(values, more)) && NonEmpty(AddAllCI(values, more))
    ensures LowerSet(AddAllCI(values, more)) == LowerSet(values) + LowerSet(more)
  {
    hide Lower, AddCI, CIDistinct;
    if more != [] {
      var front, last := more[..|more| - 1], more[|more| - 1];
      AddAllCIKeeps(values, front);
      AddCIKeeps(AddAllCI(values, front), last);
      LowerSetSplit(front, last);
      assert more == front + [last];
    }
  }

  lemma LowerSetSplit(front: seq<string>, last: string)
    ensures LowerSet(front + [last]) == LowerSet(front) + {Lower(last)}
  {
    hide Lower;
    var all := front + [last];
    forall x | x in LowerSet(front) + {Lower(last)}
      ensures x in LowerSet(all)
    {
      if x == Lower(last) {
        assert all[|front|] == last;
      } else {
        var i :| 0 <= i < |front| && x == Lower(front[i]);
        assert all[i] == front[i];
      }
    }
    assert LowerSet(all) <= LowerSet(front) + {Lower(last)};
  }

  /** The tables of an operator are, up to case, those scanned below it, each once. */
  lemma {:induction false} TablesAreScanned(op: Operator, c: Context)
    ensures LowerSet(TablesOf(op, c)) == Scanned(op, c)
    ensures CIDistinct(TablesOf(op, c)) && NonEmpty(TablesOf(op, c))
    decreases op, 1
  {
    hide Lower, AddCI, CIDistinct, LowerSet, OwnTable;
    TablesOfAllAreScanned(op.children, c);
    AddCIKeeps(TablesOfAll(op.children, c), OwnTable(op.kind, c));
  }

  lemma {:induction false} TablesOfAllAreScanned(ops: seq<Operator>, c: Context)
    ensures LowerSet(TablesOfAll(ops, c)) == ScannedAll(ops, c)
    ensures CIDistinct(TablesOfAll(ops, c)) && NonEmpty(TablesOfAll(ops, c))
    decreases ops, 0
  {
    hide Lower, AddAllCI, TablesOf, Scanned;
    if ops != [] {
      hide CIDistinct, LowerSet;
      TablesOfAllAreScanned(ops[..|ops| - 1], c);
      TablesAreScanned(ops[|ops| - 1], c);
      AddAllCIKeeps(TablesOfAll(ops[..|ops| - 1], c), TablesOf(ops[|ops| - 1], c));
    }
  }

  lemma RootTables(op: Operator, base: nat, c: Context)
    ensures var f := Flatten(op, base, c); f[|f| - 1].sourceTables == TablesOf(op, c)
  {
    hide NodeKindFor, RuleFor, NeedsAux, ReasonsFor, OccurrenceOf, RootIds, FlattenAll;
  }

  /** Wherever the nodes of a plan lie in an arena, each of them carries the tables of the operator that the arena gives
      back for it. */
  lemma {:induction false} NodeTablesAt(nodes: seq<Node>, op: Operator, base: nat, c: Context, k: nat)
    requires IsArena(nodes, 0) && Occupies(nodes, base, Flatten(op, base, c))
    requires base <= k < base + |Flatten(op, base, c)|
    ensures nodes[k].sourceTables == TablesOf(Rebuild(nodes, k), c)
    decreases op, 1
  {
    hide Flatten, IsArena, FlattenAll, RootIds, Rebuild, Occupies, TablesOf;
    FlattenSplit(op, base, c);
    var f, below := Flatten(op, base, c), FlattenAll(op.children, base, c);
    OccupiesPart(nodes, base, below, [f[|below|]]);
    if k < base + |below| {
      NodeTablesAllAt(nodes, op.children, base, c, k);
    } else {
      OccupiesOne(nodes, base + |below|, f[|below|]);
      RebuildAt(nodes, op, base, c);
      RootTables(op, base, c);
    }
  }

  lemma {:induction false} NodeTablesAllAt(nodes: seq<Node>, ops: seq<Operator>, base: nat, c: Context, k: nat)
    requires IsArena(nodes, 0) && Occupies(nodes, base, FlattenAll(ops, base, c))
    requires base <= k < base + |FlattenAll(ops, base, c)|
    ensures k < |nodes| && nodes[k].sourceTables == TablesOf(Rebuild(nodes, k), c)
    decreases ops, 0
  {
    hide Flatten, IsArena, Rebuild, Occupies, TablesOf;
    OccupiesWithin(nodes, base, FlattenAll(ops, base, c));
    var last := |ops| - 1;
    var front := FlattenAll(ops[..last], base, c);
    OccupiesPart(nodes, base, front, Flatten(ops[last], base + |front|, c));
    if k < base + |front| {
      NodeTablesAllAt(nodes, ops[..last], base, c, k);
    } else {
      NodeTablesAt(nodes, ops[last], base + |front|, c, k);
    }
  }

  /** Every node of the arena of a plan: its source tables are, up to case, the tables scanned in the subtree below it,
      each once. */
  lemma NodeTablesAreScanned(op: Operator, c: Context)
    ensures var nodes := Flatten(op, 0, c);
            && IsArena(nodes, 0)
            && forall k :: 0 <= k < |nodes| ==>
                 && LowerSet(nodes[k].sourceTables) == Scanned(Rebuild(nodes, k), c)
                 && CIDistinct(nodes[k].sourceTables) && NonEmpty(nodes[k].sourceTables)
  {
    hide Flatten, IsArena, Rebuild, TablesOf, Scanned, LowerSet, CIDistinct, NonEmpty;
    var nodes := Flatten(op, 0, c);
    FlattenIsArena(op, 0, c);
    forall k | 0 <= k < |nodes|
      ensures LowerSet(nodes[k].sourceTables) == Scanned(Rebuild(nodes, k), c)
      ensures CIDistinct(nodes[k].sourceTables) && NonEmpty(nodes[k].sourceTables)
    {
      NodeTablesAt(nodes, op, 0, c, k);
      TablesAreScanned(Rebuild(nodes, k), c);
    }
  }

  // ---- full refresh ----

  function Maintained(nodes: seq<Node>, groupRecompute: bool): (r: seq<Node>)
    ensures |r| == |nodes|
    ensures forall k :: 0 <= k < |nodes| ==> r[k] == nodes[k].(maintenance := MaintenanceFor(nodes[k], groupRecompute))
  {
    seq(|nodes|, k requires 0 <= k < |nodes| => nodes[k].(maintenance := MaintenanceFor(nodes[k], groupRecompute)))
  }

  predicate AllFullOnly(nodes: seq<Node>) {
    forall k :: 0 <= k < |nodes| ==> nodes[k].rule.FullOnlyRule?
  }

  /** One unsupported reason on the model turns every node into a full recompute. */
  lemma {:induction false} ReasonsForceFullOnly(op: Operator, base: nat, c: Context)
    requires c.reasons != []
    ensures AllFullOnly(Flatten(op, base, c))
    decreases op, 1
  {
    hide NodeKindFor, NeedsAux, ReasonsFor, TablesOfAll, AddCI, OwnTable, RootIds;
    AllReasonsForceFullOnly(op.children, base, c);
  }

  lemma {:induction false} AllReasonsForceFullOnly(ops: seq<Operator>, base: nat, c: Context)
    requires c.reasons != []
    ensures AllFullOnly(FlattenAll(ops, base, c))
    decreases ops, 0
  {
    hide Flatten;
    if ops != [] {
      var front := FlattenAll(ops[..|ops| - 1], base, c);
      AllReasonsForceFullOnly(ops[..|ops| - 1], base, c);
      ReasonsForceFullOnly(ops[|ops| - 1], base + |front|, c);
    }
  }

  /** A view with a full refresh has nothing but full recomputes. */
  lemma FullRefreshForcesFullRecompute(i: Input, s: Shape, op: Operator, c: Context)
    requires Consistent(i.analysis) && FromParser(i) && TypeOf(i, s).FullRefresh?
    requires c.reasons != [] <==> HasReasons(i, s)
    ensures AllFullOnly(Flatten(op, 0, c))
    ensures forall k :: 0 <= k < |Flatten(op, 0, c)| ==> Maintained(Flatten(op, 0, c), c.groupRecompute)[k].maintenance == FULL
  {
    hide Flatten, Consistent, TypeOf, HasReasons;
    ReasonsExactlyFullRefresh(i, s);
    ReasonsForceFullOnly(op, 0, c);
  }
}
