/** Building the model of a view step by step, and the invariants it has when it is done. */
module DeltaViewModels {
  import opened SqlValues
  import opened IncrementalChecker
  import opened ViewClassifier
  import opened DeltaModel
  import opened DeltaLineage
  import Domains = LineageDomains

  method AddUnique<T(==)>(entries: seq<T>, entry: T) returns (r: seq<T>)
    ensures r == Added(entries, entry)
  {
    for k := 0 to |entries|
      invariant entry !in entries[..k]
    {
      if entries[k] == entry {
        return entries;
      }
    }
    assert entries[..|entries|] == entries;
    return entries + [entry];
  }

  // ---- the invariants of a finished model ----

  predicate ValidNode(n: Node, id: nat) {
    && n.id == id
    && (n.kind.ScanNode? && n.sourceTable != "" ==> n.sourceOccurrence.Some? && n.sourceTableIndex.Some?)
    && (n.rule.FullOnlyRule? ==> n.maintenance.mode.FullRecompute?)
    && (forall d :: 0 <= d < |n.domains| ==> n.domains[d].nodeId == Some(id))
    && (forall f :: 0 <= f < |n.facts| ==> n.facts[f].nodeId == Some(id))
  }

  predicate Within(nodeId: Option<nat>, size: nat) {
    nodeId.None? || nodeId.value < size
  }

  predicate ValidLineage(l: Lineage) {
    && (forall k :: 0 <= k < |l.nodes| ==> ValidNode(l.nodes[k], k))
    && (forall d :: 0 <= d < |l.domains| ==> Within(l.domains[d].nodeId, |l.nodes|))
    && (forall f :: 0 <= f < |l.facts| ==> Within(l.facts[f].nodeId, |l.nodes|))
  }

  /** What ValidateDeltaViewModelInvariants asserts. */
  predicate ValidModel(v: View, distinctAux: string) {
    && (DistinctStateful in v.features ==> distinctAux != "")
    && (SemiAntiStateful in v.features ==> v.semiAntiAux.table != "")
    && (WindowAffectedPartition in v.features ==> v.windowPartitionColumns != [])
    && (v.type_.DistinctIncremental? ==> DistinctStateful in v.features)
    && (v.type_.SemiAntiRecompute? ==> SemiAntiStateful in v.features)
    && Within(v.root, |v.lineage.nodes|)
    && ValidLineage(v.lineage)
  }

  lemma ValidAttachDomain(l: Lineage, d: Domain)
    requires ValidLineage(l) && Within(d.nodeId, |l.nodes|)
    ensures ValidLineage(WithDomain(l, d))
  {
    var w := WithDomain(l, d);
    forall k | 0 <= k < |w.nodes|
      ensures ValidNode(w.nodes[k], k)
    {
      assert ValidNode(l.nodes[k], k);
    }
  }

  lemma ValidAddDomain(l: Lineage, d: Domain)
    requires ValidLineage(l) && Within(d.nodeId, |l.nodes|)
    ensures ValidLineage(AddDomain(l, d)) && |AddDomain(l, d).nodes| == |l.nodes|
  {
    hide ValidLineage, HasDomain;
    ValidAttachDomain(l, d);
  }

  lemma {:induction false} ScansWithin(nodes: seq<Node>, table: string, occurrence: Option<nat>)
    requires forall k :: 0 <= k < |nodes| ==> nodes[k].id == k
    ensures forall i :: 0 <= i < |MatchingScans(nodes, table, occurrence)| ==>
              MatchingScans(nodes, table, occurrence)[i] < |nodes|
  {
    hide CIEquals;
    if nodes != [] {
      ScansWithin(nodes[..|nodes| - 1], table, occurrence);
    }
  }

  lemma {:induction false} FirstWithin(nodes: seq<Node>, kind: NodeKind)
    requires forall k :: 0 <= k < |nodes| ==> nodes[k].id == k
    ensures Within(FirstNode(nodes, kind), |nodes|)
  {
    if nodes != [] {
      FirstWithin(nodes[..|nodes| - 1], kind);
    }
  }

  lemma IdsArePositions(l: Lineage)
    requires ValidLineage(l)
    ensures forall k :: 0 <= k < |l.nodes| ==> l.nodes[k].id == k
  {
    forall k | 0 <= k < |l.nodes|
      ensures l.nodes[k].id == k
    {
      assert ValidNode(l.nodes[k], k);
    }
  }

  lemma ValidAddFact(l: Lineage, f: Fact)
    requires ValidLineage(l)
    ensures ValidLineage(AddFact(l, f)) && |AddFact(l, f).nodes| == |l.nodes|
  {
    hide MatchingScans;
    IdsArePositions(l);
    ScansWithin(l.nodes, f.sourceTable, f.sourceOccurrence);
    var w, located := AddFact(l, f), Located(l.nodes, f);
    assert Within(located.nodeId, |l.nodes|);
    forall k | 0 <= k < |w.nodes|
      ensures ValidNode(w.nodes[k], k)
    {
      assert ValidNode(l.nodes[k], k);
    }
  }

  lemma {:induction false} ValidAddFacts(l: Lineage, fs: seq<Fact>)
    requires ValidLineage(l)
    ensures ValidLineage(AddFacts(l, fs)) && |AddFacts(l, fs).nodes| == |l.nodes|
  {
    hide ValidLineage, AddFact;
    if fs != [] {
      ValidAddFacts(l, fs[..|fs| - 1]);
      ValidAddFact(AddFacts(l, fs[..|fs| - 1]), fs[|fs| - 1]);
    }
  }

  lemma ValidCleared(l: Lineage)
    requires ValidLineage(l)
    ensures ValidLineage(Cleared(l)) && |Cleared(l).nodes| == |l.nodes|
  {
    var w := Cleared(l);
    forall k | 0 <= k < |w.nodes|
      ensures ValidNode(w.nodes[k], k)
    {
      assert ValidNode(l.nodes[k], k);
    }
  }

  lemma ValidTraced(l: Lineage, fs: seq<Fact>, d: Domain)
    requires ValidLineage(l) && Within(d.nodeId, |l.nodes|)
    ensures ValidLineage(Traced(l, fs, d)) && |Traced(l, fs, d).nodes| == |l.nodes|
  {
    hide ValidLineage, AddFacts, AddDomain;
    ValidAddFacts(l, fs);
    ValidAddDomain(AddFacts(l, fs), d);
  }

  lemma PopulatedLineageValid(v: View, s: Sources)
    requires ValidLineage(v.lineage) && Within(v.root, |v.lineage.nodes|)
    ensures ValidLineage(Populated(v, s).lineage) && |Populated(v, s).lineage.nodes| == |v.lineage.nodes|
  {
    hide ValidLineage, Traced, AddFacts, Cleared, Untraceable, WindowSources, ArmSources, FirstNode;
    var l := Cleared(v.lineage);
    ValidCleared(v.lineage);
    IdsArePositions(l);
    if v.type_.WindowPartition? {
      FirstWithin(l.nodes, WindowNode);
      ValidTraced(l, WindowFacts(s.windowOps), WindowDomain(s.windowOps, l.nodes, v.windowPartitionColumns));
    } else {
      var facts := SemiAntiFacts(v.semiAntiAux);
      ValidAddFacts(l, facts);
      if s.projection.Some? {
        FirstWithin(l.nodes, ProjectNode);
        var p := s.projection.value;
        var t := Traced(l, ArmFacts(p.arms, p.outputCol), ProjectionDomain(p, l.nodes, v.root));
        ValidTraced(l, ArmFacts(p.arms, p.outputCol), ProjectionDomain(p, l.nodes, v.root));
        ValidAddFacts(t, facts);
      }
    }
  }

  lemma PopulateChangesLittle(v: View, s: Sources)
    ensures var w := Populated(v, s);
            && w.root == v.root && w.windowPartitionColumns == v.windowPartitionColumns && w.semiAntiAux == v.semiAntiAux
            && (w.features == v.features || w.features == Added(v.features, CurrentDiffRecomputeFeature))
            && (w.type_ == v.type_ || (v.type_.WindowPartition? && w.type_.CurrentDiffRecompute?))
  {
    hide Traced, AddFacts, Cleared, Untraceable, Added;
  }

  lemma AddedContains(features: seq<Feature>, f: Feature, g: Feature)
    ensures g in Added(features, f) <==> g in features || g == f
  {
  }

  /** Filling in the lineage keeps every invariant. */
  lemma PopulateKeepsValid(v: View, s: Sources, distinctAux: string)
    requires ValidModel(v, distinctAux)
    ensures ValidModel(Populated(v, s), distinctAux)
  {
    hide ValidLineage, Populated, Added;
    PopulatedLineageValid(v, s);
    PopulateChangesLittle(v, s);
    AddedContains(v.features, CurrentDiffRecomputeFeature, DistinctStateful);
    AddedContains(v.features, CurrentDiffRecomputeFeature, SemiAntiStateful);
    AddedContains(v.features, CurrentDiffRecomputeFeature, WindowAffectedPartition);
  }

  lemma {:induction false} FactsKeepDomains(l: Lineage, fs: seq<Fact>)
    ensures AddFacts(l, fs).domains == l.domains
  {
    if fs != [] {
      FactsKeepDomains(l, fs[..|fs| - 1]);
    }
  }

  /** No two affected domains of a view have the same kind and, up to case, the same keys. */
  lemma PopulateKeepsDomainsDistinct(v: View, s: Sources)
    requires DomainsDistinct(v.lineage.domains)
    ensures DomainsDistinct(Populated(v, s).lineage.domains)
  {
    hide AddFacts, AddDomain, DomainsDistinct, Untraceable, WindowDomain, ProjectionDomain;
    var l := Cleared(v.lineage);
    FactsKeepDomains(l, WindowFacts(s.windowOps));
    FactsKeepDomains(l, SemiAntiFacts(v.semiAntiAux));
    AddDomainKeepsDistinct(AddFacts(l, WindowFacts(s.windowOps)), WindowDomain(s.windowOps, l.nodes, v.windowPartitionColumns));
    if s.projection.Some? {
      var p := s.projection.value;
      var d := ProjectionDomain(p, l.nodes, v.root);
      FactsKeepDomains(l, ArmFacts(p.arms, p.outputCol));
      AddDomainKeepsDistinct(AddFacts(l, ArmFacts(p.arms, p.outputCol)), d);
      FactsKeepDomains(Traced(l, ArmFacts(p.arms, p.outputCol), d), SemiAntiFacts(v.semiAntiAux));
    }
  }

  // ---- the nodes a plan gives are valid ----

  predicate ValidOccurrences(occurrences: map<nat, Occurrence>) {
    forall i :: i in occurrences && occurrences[i].table != "" ==>
                  occurrences[i].occurrence.Some? && occurrences[i].tableIndex.Some?
  }

  /** What holds of a fresh node, before its maintenance is decided. */
  predicate FreshNode(n: Node) {
    && (n.kind.ScanNode? && n.sourceTable != "" ==> n.sourceOccurrence.Some? && n.sourceTableIndex.Some?)
    && n.domains == [] && n.facts == []
  }

  predicate FreshNodes(nodes: seq<Node>) {
    forall k :: 0 <= k < |nodes| ==> FreshNode(nodes[k])
  }

  lemma {:induction false} FlattenFresh(op: Operator, base: nat, c: Context)
    requires ValidOccurrences(c.occurrences)
    ensures FreshNodes(Flatten(op, base, c))
    decreases op, 1
  {
    hide RuleFor, NeedsAux, ReasonsFor, TablesOfAll, AddCI, RootIds;
    FlattenAllFresh(op.children, base, c);
  }

  lemma {:induction false} FlattenAllFresh(ops: seq<Operator>, base: nat, c: Context)
    requires ValidOccurrences(c.occurrences)
    ensures FreshNodes(FlattenAll(ops, base, c))
    decreases ops, 0
  {
    hide Flatten, FreshNode, ValidOccurrences;
    if ops != [] {
      var front := FlattenAll(ops[..|ops| - 1], base, c);
      FlattenAllFresh(ops[..|ops| - 1], base, c);
      FlattenFresh(ops[|ops| - 1], base + |front|, c);
    }
  }

  /** The arena of a plan, maintenance decided. */
  function NodesOf(op: Operator, c: Context): seq<Node> {
    Maintained(Flatten(op, 0, c), c.groupRecompute)
  }

  lemma NodesAreValid(op: Operator, c: Context)
    requires ValidOccurrences(c.occurrences)
    ensures ValidLineage(Lineage(NodesOf(op, c), [], []))
  {
    hide Flatten, ValidOccurrences;
    FlattenFresh(op, 0, c);
    FlattenIsArena(op, 0, c);
    var nodes := NodesOf(op, c);
    forall k | 0 <= k < |nodes|
      ensures ValidNode(nodes[k], k)
    {
      assert FreshNode(Flatten(op, 0, c)[k]);
    }
  }

  // ---- base domains ----

  /** The parts of the plan facts the base domains use. */
  datatype Base = Base(sourceTables: seq<string>, occurrences: nat, join: bool)

  function GroupDomainOf(l: Lineage, root: Option<nat>, groupColumns: seq<string>, b: Base): Domain {
    Domain(GroupDomain, RootOrFirstNode(l.nodes, root, AggregateNode), groupColumns, b.sourceTables,
           !b.join && b.occurrences <= 1, b.join)
  }

  function SemiAntiDomainOf(l: Lineage, aux: SemiAntiAux): Domain {
    Domain(SemiAntiPredicateDomain, FirstNode(l.nodes, SemiAntiNode), aux.leftCols,
           AddCI(AddCI([], aux.leftTable), aux.rightTable), false, true)
  }

  function BaseDomains(l: Lineage, root: Option<nat>, groupColumns: seq<string>, aux: SemiAntiAux, b: Base): Lineage {
    var l1 := if groupColumns != [] then AddDomain(l, GroupDomainOf(l, root, groupColumns, b)) else l;
    if aux.table != "" then AddDomain(l1, SemiAntiDomainOf(l1, aux)) else l1
  }

  /** The place of the group domain: the root if it aggregates, or the first aggregate. */
  predicate IsAggregation(nodes: seq<Node>, root: Option<nat>, at: Option<nat>) {
    if root.Some? && root.value < |nodes| && nodes[root.value].kind.AggregateNode? then at == root
    else Domains.IsFirst(nodes, AggregateNode, at)
  }

  /** What the group domain says: read off the delta alone only without joins and with at most one scan. */
  predicate IsGroupDomain(d: Domain, nodes: seq<Node>, root: Option<nat>, groupColumns: seq<string>, b: Base) {
    && d.kind.GroupDomain? && d.keyColumns == groupColumns && d.sourceTables == b.sourceTables
    && (d.deltaLocal <==> !b.join && b.occurrences <= 1) && (d.needsBaseLookup <==> b.join)
    && IsAggregation(nodes, root, d.nodeId)
  }

  /** What the domain of the semi-anti aux table says: the base tables are always needed. */
  predicate IsSemiAntiDomain(d: Domain, nodes: seq<Node>, aux: SemiAntiAux) {
    && d.kind.SemiAntiPredicateDomain? && d.keyColumns == aux.leftCols
    && Domains.NamesOf(d.sourceTables, [aux.leftTable, aux.rightTable])
    && !d.deltaLocal && d.needsBaseLookup && Domains.IsFirst(nodes, SemiAntiNode, d.nodeId)
  }

  /** The domains of a fresh model: one over the group columns if there are any, and one for the semi-anti aux table if
      there is one.  So the domains that filling in the lineage adds are new. */
  lemma BaseDomainsExactly(nodes: seq<Node>, root: Option<nat>, groupColumns: seq<string>, aux: SemiAntiAux, b: Base)
    requires Domains.Positions(nodes)
    ensures var w, keys, kept := BaseDomains(Lineage(nodes, [], []), root, groupColumns, aux, b), groupColumns != [],
                                 aux.table != "";
            && |w.domains| == (if keys then 1 else 0) + (if kept then 1 else 0)
            && (keys ==> IsGroupDomain(w.domains[0], nodes, root, groupColumns, b))
            && (kept ==> IsSemiAntiDomain(w.domains[|w.domains| - 1], nodes, aux))
            && forall i :: 0 <= i < |w.domains| ==>
                 !w.domains[i].kind.WindowPartitionDomain? && !w.domains[i].kind.ProjectionKeyDomain?
  {
    hide GroupDomainOf, SemiAntiDomainOf, AttachDomain, SameKeys, IsAggregation, Domains.NamesOf, Domains.IsFirst, Domains.Positions;
    var l := Lineage(nodes, [], []);
    GroupDomainIs(nodes, root, groupColumns, b);
    var l1 := if groupColumns != [] then AddDomain(l, GroupDomainOf(l, root, groupColumns, b)) else l;
    SemiAntiDomainIs(nodes, l1, aux, GroupDomainOf(l, root, groupColumns, b));
  }

  lemma GroupDomainIs(nodes: seq<Node>, root: Option<nat>, groupColumns: seq<string>, b: Base)
    requires Domains.Positions(nodes)
    ensures IsGroupDomain(GroupDomainOf(Lineage(nodes, [], []), root, groupColumns, b), nodes, root, groupColumns, b)
  {
    hide FirstNode, Domains.IsFirst;
    Domains.FirstNodeExactly(nodes, AggregateNode);
  }

  lemma SemiAntiDomainIs(nodes: seq<Node>, l1: Lineage, aux: SemiAntiAux, d: Domain)
    requires Domains.Positions(nodes) && (l1 == Lineage(nodes, [], []) || l1 == AddDomain(Lineage(nodes, [], []), d))
    ensures IsSemiAntiDomain(SemiAntiDomainOf(l1, aux), nodes, aux)
  {
    hide FirstNode, AddCI, AddDomain, Domains.NamesOf, Domains.IsFirst;
    SameSemiAnti(Lineage(nodes, [], []), d);
    Domains.FirstNodeExactly(nodes, SemiAntiNode);
    Domains.NoNames();
    Domains.AddName([], [], aux.leftTable);
    assert [] + [aux.leftTable] == [aux.leftTable];
    Domains.AddName(AddCI([], aux.leftTable), [aux.leftTable], aux.rightTable);
    assert [aux.leftTable] + [aux.rightTable] == [aux.leftTable, aux.rightTable];
  }

  lemma SameSemiAnti(l: Lineage, d: Domain)
    ensures FirstNode(AddDomain(l, d).nodes, SemiAntiNode) == FirstNode(l.nodes, SemiAntiNode)
  {
    hide FirstNode, SameSkeleton;
    DomainSkeleton(l.nodes, d);
    SkeletonFirst(l.nodes, AttachDomain(l.nodes, d), SemiAntiNode);
  }

  lemma BaseDomainsValid(l: Lineage, root: Option<nat>, groupColumns: seq<string>, aux: SemiAntiAux, b: Base)
    requires ValidLineage(l) && Within(root, |l.nodes|) && DomainsDistinct(l.domains)
    ensures var w := BaseDomains(l, root, groupColumns, aux, b);
            ValidLineage(w) && |w.nodes| == |l.nodes| && DomainsDistinct(w.domains)
  {
    hide ValidLineage, AddDomain, FirstNode, DomainsDistinct, AddCI;
    IdsArePositions(l);
    FirstWithin(l.nodes, AggregateNode);
    var d := GroupDomainOf(l, root, groupColumns, b);
    ValidAddDomain(l, d);
    AddDomainKeepsDistinct(l, d);
    var l1 := if groupColumns != [] then AddDomain(l, d) else l;
    IdsArePositions(l1);
    FirstWithin(l1.nodes, SemiAntiNode);
    ValidAddDomain(l1, SemiAntiDomainOf(l1, aux));
    AddDomainKeepsDistinct(l1, SemiAntiDomainOf(l1, aux));
  }

  // ---- the builder ----

  class DeltaViewModel {
    var type_: RefreshType
    var strategyReasons: seq<StrategyReason>
    var groupColumns: seq<string>
    var windowPartitionColumns: seq<string>
    var features: seq<Feature>
    var unsupportedReasons: seq<Reason>
    var nodes: seq<Node>
    var affectedDomains: seq<Domain>
    var lineageFacts: seq<Fact>
    var windowOps: seq<WindowOp>
    var projection: Option<ProjectionLineage>
    var root: Option<nat>
    var distinctAux: string
    var filteredGroupAux: string
    var semiAntiAux: SemiAntiAux
    var warnUnsupported: bool
    var warnUnrecognised: bool

    constructor (s: Shape)
      ensures type_ == FullRefresh && strategyReasons == s.strategyReasons && groupColumns == s.groupColumns
      ensures windowPartitionColumns == s.windowPartitionColumns
      ensures features == [] && unsupportedReasons == [] && distinctAux == "" && filteredGroupAux == ""
      ensures semiAntiAux.table == "" && !warnUnrecognised && affectedDomains == [] && lineageFacts == []
    {
      type_ := FullRefresh;
      strategyReasons := s.strategyReasons;
      groupColumns := s.groupColumns;
      windowPartitionColumns := s.windowPartitionColumns;
      features, unsupportedReasons, nodes, affectedDomains, lineageFacts := [], [], [], [], [];
      windowOps, projection, root := [], None, None;
      distinctAux, filteredGroupAux := "", "";
      semiAntiAux := SemiAntiAux("", "", "", []);
      warnUnsupported, warnUnrecognised := false, false;
    }

    function AsView(): View
      reads this
    {
      View(type_, features, strategyReasons, Lineage(nodes, affectedDomains, lineageFacts), windowOps, projection,
           root, windowPartitionColumns, semiAntiAux)
    }

    predicate HasFeature(f: Feature)
      reads this
    {
      f in features
    }

    // ---- reasons ----

    method NoteReason(when: bool, r: Reason)
      modifies `unsupportedReasons
      ensures forall x :: x in unsupportedReasons <==> x in old(unsupportedReasons) || (when && x == r)
    {
      if when {
        unsupportedReasons := AddUnique(unsupportedReasons, r);
      }
    }

    static predicate IsOfConstructs(r: Reason) {
      r.SetOperationReason? || r.PivotReason? || r.FunctionReason? || r.UnnestReason?
    }

    method NoteConstructReasons(i: Input, s: Shape)
      requires unsupportedReasons == []
      modifies `unsupportedReasons
      ensures forall r :: r in unsupportedReasons <==> IsOfConstructs(r) && ReasonHolds(r, i, s)
    {
      var found := i.analysis.found;
      NoteReason(i.unsupportedSetOperation, SetOperationReason);
      NoteReason(i.pivot, PivotReason);
      NoteReason(VolatileExpression in found, FunctionReason);
      NoteReason(NonFoldableUnnest in found, UnnestReason);
    }

    method NoteBlockingReasons(i: Input, s: Shape)
      requires unsupportedReasons == []
      modifies `unsupportedReasons
      ensures forall r :: r in unsupportedReasons <==> ReasonHolds(r, i, s) && !Keyless(r, i, s)
    {
      NoteConstructReasons(i, s);
      var found := i.analysis.found;
      NoteReason(UnsupportedAggregate in found, AggregateReason);
      NoteReason(UnsupportedFilteredAggregate in found, FilteredAggregateReason);
      NoteReason(UnsupportedJoinType in found, JoinTypeReason);
      NoteReason(UnsupportedOrderBy in found, OrderByReason);
      NoteReason(UnsupportedOperator in found, OperatorReason);
    }

    method NoteKeylessReasons(i: Input, s: Shape)
      requires groupColumns == s.groupColumns
      modifies `unsupportedReasons
      ensures forall r :: r in unsupportedReasons <==> r in old(unsupportedReasons) || Keyless(r, i, s)
    {
      var found := i.analysis.found;
      NoteReason(GroupingSets in found && groupColumns == [], GroupingSetsNoKeys);
      NoteReason(FilteredList in found && groupColumns == [], FilteredListNoKeys);
      NoteReason(SemiAntiJoin in found && Aggregation in found && groupColumns == [], SemiAntiWithAggregate);
      NoteReason(SemiAntiJoin in found && Aggregation !in found && i.semiAntiAux.None?, SemiAntiMissingAux);
    }

    /** The reasons are exactly those that hold. */
    method BuildUnsupportedReasons(i: Input, s: Shape)
      requires unsupportedReasons == [] && groupColumns == s.groupColumns && Consistent(i.analysis)
      modifies `unsupportedReasons
      ensures forall r :: r in unsupportedReasons <==> ReasonHolds(r, i, s)
    {
      hide Consistent, ReasonHolds, Keyless;
      NoteBlockingReasons(i, s);
      NoteKeylessReasons(i, s);
      forall r
        ensures Keyless(r, i, s) ==> ReasonHolds(r, i, s)
      {
        KeylessHolds(r, i, s);
      }
      ReasonsMembers(unsupportedReasons, i, s);
      if !i.analysis.compatible {
        IncompatibleHasReason(i, s);
      }
      NoteReason(!i.analysis.compatible && unsupportedReasons == [], OperatorReason);
    }

    static lemma KeylessHolds(r: Reason, i: Input, s: Shape)
      ensures Keyless(r, i, s) ==> ReasonHolds(r, i, s)
    {
    }

    // ---- features ----

    method NoteFeature(when: bool, f: Feature)
      modifies `features
      ensures forall x :: x in features <==> x in old(features) || (when && x == f)
    {
      if when {
        features := AddUnique(features, f);
      }
    }

    /** The features the aux candidates add, if nothing stands in the way. */
    static predicate IsStateful(f: Feature) {
      f.DistinctStateful? || f.SemiAntiStateful?
    }

    static predicate IsOfJoins(f: Feature) {
      f.FullOnlyFeature? || f.Linear? || f.Bilinear? || f.AsofStateful? || f.SampleGlobalRecompute?
      || f.PositionalGlobalRecompute? || f.OuterJoinStateful?
    }

    method NoteJoinFeatures(i: Input, s: Shape, full: bool)
      requires features == []
      modifies `features
      ensures forall f :: f in features <==> IsOfJoins(f) && FeatureHolds(f, i, s, full)
    {
      var found := i.analysis.found;
      NoteFeature(full, FullOnlyFeature);
      NoteFeature(ProjectionFound in found
                  || (Aggregation !in found && JoinFound !in found && WindowFound !in found), Linear);
      NoteFeature(JoinFound in found && LeftJoinFound !in found && FullOuter !in found && SemiAntiJoin !in found
                  && AsofJoin !in found && PositionalJoinFound !in found, Bilinear);
      NoteFeature(AsofJoin in found, AsofStateful);
      NoteFeature(SampleFound in found, SampleGlobalRecompute);
      NoteFeature(PositionalJoinFound in found, PositionalGlobalRecompute);
      NoteFeature(LeftJoinFound in found || FullOuter in found, OuterJoinStateful);
    }

    static predicate IsLinearity(f: Feature) {
      f.AggregateNonLinear? || f.AggregateLinear?
    }

    method NoteLinearity(i: Input, s: Shape, full: bool)
      modifies `features
      ensures forall f :: f in features <==> f in old(features) || (IsLinearity(f) && FeatureHolds(f, i, s, full))
    {
      hide NonLinearAggregate;
      if Aggregation in i.analysis.found {
        if NonLinearAggregate(i.analysis) {
          NoteFeature(true, AggregateNonLinear);
        } else {
          NoteFeature(true, AggregateLinear);
        }
      }
    }

    static predicate IsOfClauses(f: Feature) {
      f.AggregateHavingFeature? || f.CountDistinctStateful? || f.FilteredListStateful? || f.GroupingSetsStateful?
    }

    method NoteClauses(i: Input, s: Shape, full: bool)
      modifies `features
      ensures forall f :: f in features <==> f in old(features) || (IsOfClauses(f) && FeatureHolds(f, i, s, full))
    {
      var found := i.analysis.found;
      NoteFeature(Having in found, AggregateHavingFeature);
      NoteFeature(CountDistinct in found, CountDistinctStateful);
      NoteFeature(FilteredList in found, FilteredListStateful);
      NoteFeature(GroupingSets in found, GroupingSetsStateful);
    }

    static lemma OtherFeatures(i: Input, s: Shape, full: bool)
      ensures !FeatureHolds(CurrentDiffRecomputeFeature, i, s, full)
      ensures forall f: Feature :: !IsOfJoins(f) && !IsStateful(f) <==>
                IsLinearity(f) || IsOfClauses(f) || f.WindowAffectedPartition? || f.CurrentDiffRecomputeFeature?
      ensures FeatureHolds(WindowAffectedPartition, i, s, full)
              <==> WindowFound in i.analysis.found && s.windowPartitionColumns != []
    {
    }

    method NoteAggregateFeatures(i: Input, s: Shape, full: bool)
      requires windowPartitionColumns == s.windowPartitionColumns
      modifies `features
      ensures forall f :: f in features <==> f in old(features) || (!IsOfJoins(f) && !IsStateful(f) && FeatureHolds(f, i, s, full))
    {
      hide FeatureHolds, IsOfJoins, IsStateful, IsLinearity, IsOfClauses;
      NoteLinearity(i, s, full);
      NoteClauses(i, s, full);
      NoteFeature(WindowFound in i.analysis.found && windowPartitionColumns != [], WindowAffectedPartition);
      OtherFeatures(i, s, full);
    }

    method NoteStatefulFeatures(i: Input, s: Shape, full: bool)
      requires FullOnlyFeature in features <==> full
      modifies `features
      ensures forall f :: f in features <==> f in old(features) || (IsStateful(f) && FeatureHolds(f, i, s, full))
    {
      if FullOnlyFeature !in features {
        NoteFeature(i.distinctAux.Some?, DistinctStateful);
        NoteFeature(i.semiAntiAux.Some?, SemiAntiStateful);
      }
    }

    method BuildModelFeatures(i: Input, s: Shape)
      requires features == [] && windowPartitionColumns == s.windowPartitionColumns
      modifies `features
      ensures forall f :: f in features <==> FeatureHolds(f, i, s, unsupportedReasons != [])
    {
      var full := unsupportedReasons != [];
      assert FeatureHolds(FullOnlyFeature, i, s, full) <==> full;
      hide FeatureHolds;
      NoteJoinFeatures(i, s, full);
      NoteAggregateFeatures(i, s, full);
      NoteStatefulFeatures(i, s, full);
    }

    // ---- the type ----

    method SelectCurrentDiff(reason: StrategyReason)
      modifies `type_, `features, `strategyReasons
      ensures type_ == CurrentDiffRecompute && features == Added(old(features), CurrentDiffRecomputeFeature)
    {
      type_ := CurrentDiffRecompute;
      features := AddUnique(features, CurrentDiffRecomputeFeature);
      strategyReasons := AddUnique(strategyReasons, reason);
    }

    method SelectRefreshType(i: Input, s: Shape)
      requires groupColumns == s.groupColumns && windowPartitionColumns == s.windowPartitionColumns
      requires strategyReasons == s.strategyReasons && !warnUnrecognised
      requires forall f :: f in features <==> FeatureHolds(f, i, s, AnyReason(i, s))
      modifies `type_, `features, `strategyReasons, `warnUnsupported, `warnUnrecognised
      ensures type_ == TypeOf(i, s) && (warnUnrecognised <==> Unrecognised(i, s))
      ensures forall f :: f != CurrentDiffRecomputeFeature ==> (f in features <==> f in old(features))
    {
      hide FeatureHolds, AnyReason;
      var a := i.analysis;
      var found := a.found;
      var hasArgMinMax := exists k :: 0 <= k < |a.aggregateTypes| && (a.aggregateTypes[k].ArgMin? || a.aggregateTypes[k].ArgMax?);
      var keyed := groupColumns != [];
      if i.unsupportedConstruct {
        type_ := FullRefresh;
      } else if !a.compatible {
        type_ := FullRefresh;
        warnUnsupported := true;
      } else if SampleFound in found {
        SelectCurrentDiff(SampleCurrentDiff);
      } else if PositionalJoinFound in found {
        SelectCurrentDiff(PositionalCurrentDiff);
      } else if AsofJoin in found && WindowFound in found && windowPartitionColumns != [] {
        type_ := WindowPartition;
      } else if AsofJoin in found && Aggregation in found && keyed {
        type_ := GroupRecompute;
        strategyReasons := AddUnique(strategyReasons, AsofCurrentDiff);
      } else if AsofJoin in found {
        SelectCurrentDiff(AsofCurrentDiff);
      } else if WindowFound in found {
        type_ := WindowPartition;
      } else if GroupingSets in found {
        type_ := if keyed then GroupRecompute else FullRefresh;
      } else if SemiAntiJoin in found && Aggregation in found {
        type_ := if keyed then GroupRecompute else FullRefresh;
      } else if SemiAntiJoin in found && Aggregation !in found {
        type_ := if HasFeature(SemiAntiStateful) then SemiAntiRecompute else FullRefresh;
      } else if FilteredList in found && keyed {
        type_ := GroupRecompute;
      } else if FilteredList in found {
        type_ := FullRefresh;
      } else if CountDistinct in found && keyed {
        type_ := GroupRecompute;
      } else if DistinctFound in found && !s.distinctAtTop && Aggregation in found {
        type_ := if HasFeature(DistinctStateful) then DistinctIncremental else GroupRecompute;
      } else if s.unionDistinctOverAgg && keyed {
        type_ := GroupRecompute;
      } else if UnionDistinct in found && Aggregation !in found && keyed {
        type_ := GroupRecompute;
      } else if DistinctFound in found && s.distinctAtTop && keyed {
        type_ := AggregateGroup;
      } else if strategyReasons != [] && keyed {
        type_ := GroupRecompute;
      } else if Having in found && Aggregation in found && (i.hiddenMinmaxHaving || i.computedMinmaxProjection) && keyed {
        type_ := GroupRecompute;
      } else if Having in found && Aggregation in found && hasArgMinMax && keyed {
        type_ := GroupRecompute;
      } else if Having in found && Aggregation in found && keyed {
        type_ := AggregateHaving;
      } else if Aggregation in found && keyed {
        type_ := AggregateGroup;
      } else if Aggregation in found && !keyed {
        type_ := SimpleAggregate;
      } else if ProjectionFound in found && Aggregation !in found {
        type_ := SimpleProjection;
      } else {
        type_ := FullRefresh;
        warnUnrecognised := true;
      }
    }

    /** Attaches the aux tables the type asks for.  The candidates of a chosen stateful type are always there. */
    method AttachAuxRequirements(i: Input, s: Shape, semi: SemiAntiAux)
      requires type_ == TypeOf(i, s) && Consistent(i.analysis)
      requires distinctAux == "" && filteredGroupAux == "" && semiAntiAux.table == ""
      requires i.semiAntiAux.Some? ==> semi.table == i.semiAntiAux.value
      modifies `distinctAux, `filteredGroupAux, `semiAntiAux
      ensures distinctAux == AttachedDistinctAux(i, s) && semiAntiAux.table == AttachedSemiAntiAux(i, s)
      ensures filteredGroupAux != "" ==> type_.SimpleAggregate?
    {
      hide TypeOf, Consistent, ReachesDistinct, ReachesSemiAnti, AnyReason;
      DistinctTypeExactly(i, s);
      if type_.DistinctIncremental? {
        distinctAux := i.distinctAux.value;
      }
      if type_.SimpleAggregate? && i.filteredGroupAux.Some? {
        filteredGroupAux := i.filteredGroupAux.value;
      }
      if type_.SemiAntiRecompute? {
        semiAntiAux := semi;
      }
    }

    // ---- nodes ----

    method AddModelNode(n: Node) returns (id: nat)
      modifies `nodes
      ensures id == |old(nodes)| && nodes == old(nodes) + [n.(id := id)]
    {
      id := |nodes|;
      nodes := nodes + [n.(id := id)];
    }

    /** Appends the nodes of the children of an operator; gives their ids and all their tables. */
    method BuildModelChildren(op: Operator, c: Context) returns (children: seq<nat>, tables: seq<string>)
      modifies `nodes
      ensures nodes == old(nodes) + FlattenAll(op.children, |old(nodes)|, c)
      ensures children == RootIds(op.children, |old(nodes)|, c) && tables == TablesOfAll(op.children, c)
      decreases op, 0
    {
      hide Flatten, TablesOf, AddAllCI;
      ghost var before := nodes;
      children, tables := [], [];
      var k := 0;
      while k < |op.children|
        invariant k <= |op.children|
        invariant nodes == before + FlattenAll(op.children[..k], |before|, c)
        invariant children == RootIds(op.children[..k], |before|, c)
        invariant tables == TablesOfAll(op.children[..k], c)
      {
        assert op.children[..k + 1][..k] == op.children[..k];
        var child := BuildModelNodeForPlan(op.children[k], c);
        children := children + [child];
        RootTables(op.children[k], |before + FlattenAll(op.children[..k], |before|, c)|, c);
        tables := AddAllCI(tables, nodes[child].sourceTables);
        k := k + 1;
      }
      assert op.children[..|op.children|] == op.children;
    }

    /** Appends the nodes of a plan, children first. */
    method BuildModelNodeForPlan(op: Operator, c: Context) returns (id: nat)
      modifies `nodes
      ensures nodes == old(nodes) + Flatten(op, |old(nodes)|, c) && id == |nodes| - 1
      decreases op, 1
    {
      hide RuleFor, NeedsAux, ReasonsFor, AddCI, NodeKindFor, FlattenAll, RootIds, TablesOfAll, OccurrenceOf, OwnTable;
      var children, tables := BuildModelChildren(op, c);
      id := AddModelNode(NodeFor(op, 0, children, tables, c));
    }

    method RefreshDeltaNodeMaintenance(groupRecompute: bool)
      modifies `nodes
      ensures nodes == Maintained(old(nodes), groupRecompute)
    {
      hide MaintenanceFor;
      var k := 0;
      while k < |nodes|
        invariant k <= |nodes| == |old(nodes)|
        invariant forall j :: 0 <= j < |nodes| ==>
                    nodes[j] == if j < k then old(nodes)[j].(maintenance := MaintenanceFor(old(nodes)[j], groupRecompute))
                                else old(nodes)[j]
      {
        nodes := nodes[k := nodes[k].(maintenance := MaintenanceFor(nodes[k], groupRecompute))];
        k := k + 1;
      }
    }

    // ---- domains ----

    method AddAffectedDomain(d: Domain)
      modifies `nodes, `affectedDomains
      ensures Lineage(nodes, affectedDomains, lineageFacts) == AddDomain(old(Lineage(nodes, affectedDomains, lineageFacts)), d)
    {
      hide SameDomain;
      for k := 0 to |affectedDomains|
        invariant forall j :: 0 <= j < k ==> !SameDomain(affectedDomains[j], d)
      {
        if SameDomain(affectedDomains[k], d) {
          return;
        }
      }
      if d.nodeId.Some? && d.nodeId.value < |nodes| {
        var k := d.nodeId.value;
        nodes := nodes[k := nodes[k].(domains := nodes[k].domains + [d])];
      }
      affectedDomains := affectedDomains + [d];
    }

    method BuildDeltaModelBaseAffectedDomains(b: Base)
      modifies `nodes, `affectedDomains
      ensures Lineage(nodes, affectedDomains, lineageFacts)
              == BaseDomains(old(Lineage(nodes, affectedDomains, lineageFacts)), root, groupColumns, semiAntiAux, b)
    {
      hide AddDomain, RootOrFirstNode, FirstNode, AddCI;
      if groupColumns != [] {
        AddAffectedDomain(GroupDomainOf(Lineage(nodes, affectedDomains, lineageFacts), root, groupColumns, b));
      }
      if semiAntiAux.table != "" {
        AddAffectedDomain(SemiAntiDomainOf(Lineage(nodes, affectedDomains, lineageFacts), semiAntiAux));
      }
    }

    // ---- the whole build ----

    /** What the node rules see of a decided model. */
    function NodeContext(i: Input, occurrences: map<nat, Occurrence>): Context
      reads this
    {
      Context(unsupportedReasons, NonLinearAggregate(i.analysis), distinctAux != "", filteredGroupAux != "",
              semiAntiAux.table != "", type_.GroupRecompute?, occurrences)
    }

    /** Reasons, features, type and aux tables, in the order in which they depend on each other. */
    method Decide(i: Input, s: Shape, semi: SemiAntiAux)
      requires Consistent(i.analysis)
      requires features == [] && unsupportedReasons == [] && distinctAux == "" && filteredGroupAux == ""
      requires semiAntiAux.table == "" && !warnUnrecognised
      requires strategyReasons == s.strategyReasons && groupColumns == s.groupColumns
      requires windowPartitionColumns == s.windowPartitionColumns
      requires i.semiAntiAux.Some? ==> semi.table == i.semiAntiAux.value
      modifies this
      ensures nodes == old(nodes) && affectedDomains == old(affectedDomains) && lineageFacts == old(lineageFacts)
      ensures groupColumns == s.groupColumns && windowPartitionColumns == s.windowPartitionColumns
      ensures type_ == TypeOf(i, s) && (unsupportedReasons != [] <==> HasReasons(i, s))
      ensures distinctAux == AttachedDistinctAux(i, s) && semiAntiAux.table == AttachedSemiAntiAux(i, s)
      ensures forall f :: f != CurrentDiffRecomputeFeature && f != FullOnlyFeature ==>
                            (f in features <==> FeaturesOf(i, s)(f))
    {
      hide FeatureHolds, ReasonHolds, Consistent, Unrecognised, TypeOf, AttachedDistinctAux, AttachedSemiAntiAux, AnyReason;
      BuildUnsupportedReasons(i, s);
      ReasonsMembers(unsupportedReasons, i, s);
      BuildModelFeatures(i, s);
      SelectRefreshType(i, s);
      NoteUnrecognised();
      AttachAuxRequirements(i, s, semi);
    }

    method NoteUnrecognised()
      modifies `unsupportedReasons, `features
      ensures unsupportedReasons != [] <==> old(unsupportedReasons) != [] || warnUnrecognised
      ensures forall f :: f != FullOnlyFeature ==> (f in features <==> f in old(features))
    {
      if warnUnrecognised {
        unsupportedReasons := AddUnique(unsupportedReasons, UnrecognizedPattern);
        features := AddUnique(features, FullOnlyFeature);
      }
    }

    static lemma ReasonsMembers(reasons: seq<Reason>, i: Input, s: Shape)
      requires forall r :: r in reasons <==> ReasonHolds(r, i, s)
      ensures reasons != [] <==> AnyReason(i, s)
    {
      if reasons != [] {
        assert reasons[0] in reasons;
      }
    }

    /** Builds the model of a view.  The invariants hold exactly when the aux invariants do. */
    method Build(i: Input, s: Shape, semi: SemiAntiAux, plan: Operator, occurrences: map<nat, Occurrence>, b: Base)
      requires Consistent(i.analysis) && ValidOccurrences(occurrences)
      requires features == [] && unsupportedReasons == [] && distinctAux == "" && filteredGroupAux == ""
      requires semiAntiAux.table == "" && !warnUnrecognised && affectedDomains == [] && lineageFacts == []
      requires strategyReasons == s.strategyReasons && groupColumns == s.groupColumns
      requires windowPartitionColumns == s.windowPartitionColumns
      requires i.semiAntiAux.Some? ==> semi.table == i.semiAntiAux.value
      modifies this
      ensures type_ == TypeOf(i, s) && (unsupportedReasons != [] <==> HasReasons(i, s))
      ensures AsView().lineage == BaseDomains(Lineage(NodesOf(plan, NodeContext(i, occurrences)), [], []),
                                              root, groupColumns, semiAntiAux, b)
      ensures root == Some(|Flatten(plan, 0, NodeContext(i, occurrences))| - 1)
      ensures ValidModel(AsView(), distinctAux) <==> AuxInvariants(i, s)
      ensures AuxMatchesType(AsView()) && DomainsDistinct(affectedDomains)
    {
      hide Flatten, Maintained, BaseDomains, TypeOf, HasReasons, Consistent, ValidLineage, FeatureHolds, AnyReason,
           ValidOccurrences, NodesOf, DomainsDistinct, NonLinearAggregate, ReachesDistinct;
      Decide(i, s, semi);
      BuildNodes(plan, NodeContext(i, occurrences), b);
    }

    /** Nodes, maintenance and base domains of a decided model. */
    method BuildNodes(plan: Operator, c: Context, b: Base)
      requires ValidOccurrences(c.occurrences) && affectedDomains == [] && lineageFacts == []
      modifies `nodes, `root, `affectedDomains
      ensures AsView().lineage == BaseDomains(Lineage(NodesOf(plan, c), [], []), root, groupColumns, semiAntiAux, b)
      ensures root == Some(|Flatten(plan, 0, c)| - 1)
      ensures ValidLineage(AsView().lineage) && Within(root, |nodes|) && DomainsDistinct(affectedDomains)
    {
      hide Flatten, Maintained, BaseDomains, ValidLineage, ValidOccurrences;
      nodes := [];
      var id := BuildModelNodeForPlan(plan, c);
      root := Some(id);
      RefreshDeltaNodeMaintenance(c.groupRecompute);
      ghost var bare := Lineage(nodes, [], []);
      assert [] + Flatten(plan, 0, c) == Flatten(plan, 0, c);
      NodesAreValid(plan, c);
      BuildDeltaModelBaseAffectedDomains(b);
      BaseDomainsValid(bare, root, groupColumns, semiAntiAux, b);
    }

    // ---- lineage ----

    method AddLineageFact(f: Fact)
      modifies `nodes, `lineageFacts
      ensures Lineage(nodes, affectedDomains, lineageFacts) == AddFact(old(Lineage(nodes, affectedDomains, lineageFacts)), f)
    {
      hide MatchingScans;
      var located := Located(nodes, f);
      if located.nodeId.Some? && located.nodeId.value < |nodes| {
        var k := located.nodeId.value;
        nodes := nodes[k := nodes[k].(facts := nodes[k].facts + [located])];
      }
      lineageFacts := lineageFacts + [located];
    }

    method AddLineageFacts(fs: seq<Fact>)
      modifies `nodes, `lineageFacts
      ensures Lineage(nodes, affectedDomains, lineageFacts) == AddFacts(old(Lineage(nodes, affectedDomains, lineageFacts)), fs)
    {
      hide AddFact;
      ghost var l := Lineage(nodes, affectedDomains, lineageFacts);
      var k := 0;
      while k < |fs|
        invariant k <= |fs| && Lineage(nodes, affectedDomains, lineageFacts) == AddFacts(l, fs[..k])
      {
        assert fs[..k + 1][..k] == fs[..k];
        AddLineageFact(fs[k]);
        k := k + 1;
      }
      assert fs[..|fs|] == fs;
    }

    method ClearLineage()
      modifies `nodes, `lineageFacts, `windowOps, `projection
      ensures AsView() == ResetView(old(AsView()))
    {
      windowOps, projection, lineageFacts := [], None, [];
      var k := 0;
      while k < |nodes|
        invariant k <= |nodes| == |old(nodes)|
        invariant forall j :: 0 <= j < |nodes| ==> nodes[j] == if j < k then old(nodes)[j].(facts := []) else old(nodes)[j]
        invariant windowOps == [] && projection == None && lineageFacts == []
      {
        nodes := nodes[k := nodes[k].(facts := [])];
        k := k + 1;
      }
      assert nodes == WithoutFacts(old(nodes));
    }

    /** Fills in the lineage for the type; an ASOF window view that cannot be traced becomes a current-diff view. */
    method PopulateLineage(s: Sources)
      modifies `type_, `features, `strategyReasons, `nodes, `affectedDomains, `lineageFacts, `windowOps, `projection
      ensures AsView() == Populated(old(AsView()), s)
    {
      hide AddFacts, AddDomain, Untraceable, WindowDomain, ProjectionDomain, WithoutFacts;
      ghost var v0 := ResetView(AsView());
      ClearLineage();
      if type_.WindowPartition? {
        if Untraceable(s, nodes) {
          type_ := CurrentDiffRecompute;
          features := AddUnique(features, CurrentDiffRecomputeFeature);
          strategyReasons := AddUnique(strategyReasons, AsofCurrentDiff);
          return;
        }
        windowOps := s.windowOps;
        if s.hasWindowLineage {
          var d := WindowDomain(s.windowOps, nodes, windowPartitionColumns);
          AddLineageFacts(WindowFacts(s.windowOps));
          AddAffectedDomain(d);
        }
        return;
      }
      if type_.SimpleProjection? && !s.outerJoin && s.projection.Some? {
        var p := s.projection.value;
        projection := Some(p);
        var d := ProjectionDomain(p, nodes, root);
        AddLineageFacts(ArmFacts(p.arms, p.outputCol));
        AddAffectedDomain(d);
      }
      if semiAntiAux.table != "" {
        AddLineageFacts(SemiAntiFacts(semiAntiAux));
      }
    }
  }
}
