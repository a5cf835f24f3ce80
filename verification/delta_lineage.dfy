/** Affected domains and lineage facts of a model, and what filling them in twice does.

    A domain names the keys or partitions a change may reach; a fact says through which source column they are found.
    Both are kept twice, in a list of the model and at the node they belong to. Filling in clears the facts but keeps
    the domains, so filling in again must add every fact anew and no domain a second time. */
module DeltaLineage {
  import opened SqlValues
  import opened IncrementalChecker
  import opened ViewClassifier
  import opened DeltaModel

  /** The parts of a model that hold domains and facts. */
  datatype Lineage = Lineage(nodes: seq<Node>, domains: seq<Domain>, facts: seq<Fact>)

  datatype OpKind = DirectOp | LookupOp | OtherOp

  /** How one window partition column is traced to a source. */
  datatype WindowOp = WindowOp(
    kind: OpKind, source: string, sourceCol: string, outputCol: string, lookup: string, lookupCol: string, lookupOut: string)

  datatype Step = Step(table: string, lookupCol: string, lookupOut: string)

  datatype Arm = Arm(source: string, occurrence: Option<nat>, sourceCol: string, steps: seq<Step>)

  datatype ProjectionLineage = ProjectionLineage(outputCol: string, arms: seq<Arm>)

  /** The semi-anti aux table: its name, the two sources and the columns kept of the left one. */
  datatype SemiAntiAux = SemiAntiAux(table: string, leftTable: string, rightTable: string, leftCols: seq<string>)

  /** What the lineage searches over the plan return.  They depend on the plan and on the partition columns only. */
  datatype Sources = Sources(
    asofJoin: bool, outerJoin: bool, hasWindowLineage: bool, windowOps: seq<WindowOp>, directOps: seq<WindowOp>,
    occurrences: seq<string>, projection: Option<ProjectionLineage>)

  datatype View = View(
    type_: RefreshType, features: seq<Feature>, strategies: seq<StrategyReason>, lineage: Lineage,
    windowOps: seq<WindowOp>, projection: Option<ProjectionLineage>,
    root: Option<nat>, windowPartitionColumns: seq<string>, semiAntiAux: SemiAntiAux)

  function Added<T(==)>(entries: seq<T>, entry: T): seq<T> {
    if entry in entries then entries else entries + [entry]
  }

  // ---- domains ----

  predicate SameKeys(a: seq<string>, b: seq<string>) {
    |a| == |b| && forall i :: 0 <= i < |a| ==> CIEquals(a[i], b[i])
  }

  predicate SameDomain(a: Domain, b: Domain) {
    a.kind == b.kind && SameKeys(a.keyColumns, b.keyColumns)
  }

  predicate HasDomain(domains: seq<Domain>, d: Domain) {
    exists i :: 0 <= i < |domains| && SameDomain(domains[i], d)
  }

  predicate DomainsDistinct(domains: seq<Domain>) {
    forall i, j :: 0 <= i < j < |domains| ==> !SameDomain(domains[i], domains[j])
  }

  function AttachDomain(nodes: seq<Node>, d: Domain): (r: seq<Node>)
    ensures |r| == |nodes|
  {
    if d.nodeId.Some? && d.nodeId.value < |nodes| then
      var k := d.nodeId.value;
      nodes[k := nodes[k].(domains := nodes[k].domains + [d])]
    else nodes
  }

  function WithDomain(l: Lineage, d: Domain): Lineage {
    Lineage(AttachDomain(l.nodes, d), l.domains + [d], l.facts)
  }

  function AddDomain(l: Lineage, d: Domain): Lineage {
    if HasDomain(l.domains, d) then l else WithDomain(l, d)
  }

  lemma AddDomainKeepsDistinct(l: Lineage, d: Domain)
    requires DomainsDistinct(l.domains)
    ensures DomainsDistinct(AddDomain(l, d).domains)
  {
  }

  // ---- facts ----

  /** The scans of a table, or of one occurrence of it. */
  function MatchingScans(nodes: seq<Node>, table: string, occurrence: Option<nat>): seq<nat> {
    if nodes == [] then []
    else
      var n := nodes[|nodes| - 1];
      MatchingScans(nodes[..|nodes| - 1], table, occurrence)
      + if n.kind.ScanNode? && CIEquals(n.sourceTable, table) && (occurrence.None? || n.sourceOccurrence == occurrence)
        then [n.id] else []
  }

  /** The node a fact belongs to: the scan of the named occurrence, or the only scan of the table. */
  function SourceScan(nodes: seq<Node>, table: string, occurrence: Option<nat>): Option<nat> {
    var m := MatchingScans(nodes, table, occurrence);
    if m == [] || (occurrence.None? && |m| > 1) then None else Some(m[0])
  }

  function Located(nodes: seq<Node>, f: Fact): Fact {
    f.(nodeId := SourceScan(nodes, f.sourceTable, f.sourceOccurrence))
  }

  function AttachFact(nodes: seq<Node>, f: Fact): (r: seq<Node>)
    ensures |r| == |nodes|
  {
    if f.nodeId.Some? && f.nodeId.value < |nodes| then
      var k := f.nodeId.value;
      nodes[k := nodes[k].(facts := nodes[k].facts + [f])]
    else nodes
  }

  function AddFact(l: Lineage, f: Fact): Lineage {
    var located := Located(l.nodes, f);
    Lineage(AttachFact(l.nodes, located), l.domains, l.facts + [located])
  }

  function AddFacts(l: Lineage, fs: seq<Fact>): Lineage {
    if fs == [] then l else AddFact(AddFacts(l, fs[..|fs| - 1]), fs[|fs| - 1])
  }

  function WithoutFacts(nodes: seq<Node>): (r: seq<Node>)
    ensures |r| == |nodes| && forall k :: 0 <= k < |nodes| ==> r[k] == nodes[k].(facts := [])
  {
    seq(|nodes|, k requires 0 <= k < |nodes| => nodes[k].(facts := []))
  }

  function Cleared(l: Lineage): Lineage {
    Lineage(WithoutFacts(l.nodes), l.domains, [])
  }

  // ---- filling in the lineage ----

  function FirstNode(nodes: seq<Node>, kind: NodeKind): Option<nat> {
    if nodes == [] then None
    else
      var front := FirstNode(nodes[..|nodes| - 1], kind);
      if front.Some? then front else if nodes[|nodes| - 1].kind == kind then Some(nodes[|nodes| - 1].id) else None
  }

  function RootOrFirstNode(nodes: seq<Node>, root: Option<nat>, kind: NodeKind): Option<nat> {
    if root.Some? && root.value < |nodes| && nodes[root.value].kind == kind then root else FirstNode(nodes, kind)
  }

  function WindowFact(op: WindowOp): Fact {
    Fact(WindowPartitionDomain, None, op.source, None, op.sourceCol, op.outputCol, op.lookup, op.lookupCol, op.lookupOut)
  }

  function WindowFacts(ops: seq<WindowOp>): (fs: seq<Fact>)
    ensures |fs| == |ops| && forall i :: 0 <= i < |ops| ==> fs[i] == WindowFact(ops[i])
  {
    seq(|ops|, i requires 0 <= i < |ops| => WindowFact(ops[i]))
  }

  function WindowSources(ops: seq<WindowOp>): seq<string> {
    if ops == [] then [] else AddCI(WindowSources(ops[..|ops| - 1]), ops[|ops| - 1].source)
  }

  predicate HasLookup(ops: seq<WindowOp>) {
    exists i :: 0 <= i < |ops| && ops[i].kind.LookupOp?
  }

  function WindowDomain(ops: seq<WindowOp>, nodes: seq<Node>, columns: seq<string>): Domain {
    Domain(WindowPartitionDomain, FirstNode(nodes, WindowNode), columns, WindowSources(ops), !HasLookup(ops), HasLookup(ops))
  }

  function ArmFact(a: Arm, outputCol: string): Fact {
    var last := if a.steps == [] then Step("", "", "") else a.steps[|a.steps| - 1];
    Fact(ProjectionKeyDomain, None, a.source, a.occurrence, a.sourceCol, outputCol, last.table, last.lookupCol, last.lookupOut)
  }

  function ArmFacts(arms: seq<Arm>, outputCol: string): (fs: seq<Fact>)
    ensures |fs| == |arms| && forall i :: 0 <= i < |arms| ==> fs[i] == ArmFact(arms[i], outputCol)
  {
    seq(|arms|, i requires 0 <= i < |arms| => ArmFact(arms[i], outputCol))
  }

  function ArmSources(arms: seq<Arm>): seq<string> {
    if arms == [] then [] else AddCI(ArmSources(arms[..|arms| - 1]), arms[|arms| - 1].source)
  }

  predicate HasSteps(arms: seq<Arm>) {
    exists i :: 0 <= i < |arms| && arms[i].steps != []
  }

  function ProjectionDomain(p: ProjectionLineage, nodes: seq<Node>, root: Option<nat>): Domain {
    Domain(ProjectionKeyDomain, RootOrFirstNode(nodes, root, ProjectNode), [p.outputCol], ArmSources(p.arms),
           !HasSteps(p.arms), HasSteps(p.arms))
  }

  function SemiAntiFacts(aux: SemiAntiAux): (fs: seq<Fact>)
    ensures |fs| == |aux.leftCols|
  {
    seq(|aux.leftCols|, i requires 0 <= i < |aux.leftCols| =>
      Fact(SemiAntiPredicateDomain, None, aux.leftTable, None, aux.leftCols[i], aux.leftCols[i], "", "", ""))
  }

  predicate CoversAllSources(ops: seq<WindowOp>, occurrences: seq<string>) {
    && ops != []
    && forall j :: 0 <= j < |occurrences| ==> exists i :: 0 <= i < |ops| && CIEquals(ops[i].source, occurrences[j])
  }

  predicate OnRightOfAsof(nodes: seq<Node>, source: string) {
    exists k :: 0 <= k < |nodes| && nodes[k].kind.AsofJoinNode? && |nodes[k].children| >= 2
                && nodes[k].children[1] < |nodes| && ContainsCI(nodes[nodes[k].children[1]].sourceTables, source)
  }

  predicate ReadsRightSideDirectly(ops: seq<WindowOp>, nodes: seq<Node>) {
    exists i :: 0 <= i < |ops| && ops[i].kind.DirectOp? && OnRightOfAsof(nodes, ops[i].source)
  }

  /** An ASOF window view whose partitions cannot be traced safely. */
  predicate Untraceable(s: Sources, nodes: seq<Node>) {
    s.asofJoin && (!s.hasWindowLineage || ReadsRightSideDirectly(s.directOps, nodes)
                   || !CoversAllSources(s.windowOps, s.occurrences))
  }

  function ResetView(v: View): View {
    v.(windowOps := [], projection := None, lineage := Cleared(v.lineage))
  }

  function Traced(l: Lineage, facts: seq<Fact>, d: Domain): Lineage {
    AddDomain(AddFacts(l, facts), d)
  }

  /** What filling in the lineage makes of a view. */
  function Populated(v: View, s: Sources): View {
    var v0 := ResetView(v);
    var nodes := v0.lineage.nodes;
    if v.type_.WindowPartition? then
      if Untraceable(s, nodes) then
        v0.(type_ := CurrentDiffRecompute, features := Added(v.features, CurrentDiffRecomputeFeature),
            strategies := Added(v.strategies, AsofCurrentDiff))
      else if s.hasWindowLineage then
        v0.(windowOps := s.windowOps,
            lineage := Traced(v0.lineage, WindowFacts(s.windowOps), WindowDomain(s.windowOps, nodes, v.windowPartitionColumns)))
      else v0.(windowOps := s.windowOps)
    else
      var v1 :=
        if v.type_.SimpleProjection? && !s.outerJoin && s.projection.Some? then
          var p := s.projection.value;
          v0.(projection := Some(p),
              lineage := Traced(v0.lineage, ArmFacts(p.arms, p.outputCol), ProjectionDomain(p, nodes, v.root)))
        else v0;
      if v.semiAntiAux.table != "" then v1.(lineage := AddFacts(v1.lineage, SemiAntiFacts(v.semiAntiAux))) else v1
  }

  // ---- filling in twice changes nothing ----

  /** Two arenas that differ only in their facts and domains. */
  predicate SameSkeleton(a: seq<Node>, b: seq<Node>) {
    |a| == |b| && forall k :: 0 <= k < |a| ==> a[k].(facts := [], domains := []) == b[k].(facts := [], domains := [])
  }

  lemma SkeletonPrefix(a: seq<Node>, b: seq<Node>)
    requires SameSkeleton(a, b) && a != []
    ensures SameSkeleton(a[..|a| - 1], b[..|b| - 1])
    ensures var x, y := a[|a| - 1], b[|b| - 1];
            x.kind == y.kind && x.id == y.id && x.sourceTable == y.sourceTable && x.sourceOccurrence == y.sourceOccurrence
  {
    var x, y := a[|a| - 1], b[|b| - 1];
    assert x.(facts := [], domains := []) == y.(facts := [], domains := []);
  }

  lemma {:induction false} SkeletonScans(a: seq<Node>, b: seq<Node>, table: string, occurrence: Option<nat>)
    requires SameSkeleton(a, b)
    ensures MatchingScans(a, table, occurrence) == MatchingScans(b, table, occurrence)
  {
    hide SameSkeleton, CIEquals;
    SkeletonLength(a, b);
    if a != [] {
      SkeletonPrefix(a, b);
      SkeletonScans(a[..|a| - 1], b[..|b| - 1], table, occurrence);
    }
  }

  lemma SkeletonLength(a: seq<Node>, b: seq<Node>)
    requires SameSkeleton(a, b)
    ensures |a| == |b|
  {
  }

  lemma {:induction false} SkeletonFirst(a: seq<Node>, b: seq<Node>, kind: NodeKind)
    requires SameSkeleton(a, b)
    ensures FirstNode(a, kind) == FirstNode(b, kind)
  {
    hide SameSkeleton;
    SkeletonLength(a, b);
    if a != [] {
      SkeletonPrefix(a, b);
      SkeletonFirst(a[..|a| - 1], b[..|b| - 1], kind);
    }
  }

  lemma SkeletonNode(a: seq<Node>, b: seq<Node>, k: nat)
    requires SameSkeleton(a, b) && k < |a|
    ensures a[k].kind == b[k].kind && a[k].children == b[k].children && a[k].sourceTables == b[k].sourceTables
    ensures a[k].id == b[k].id
  {
    assert a[k].(facts := [], domains := []) == b[k].(facts := [], domains := []);
  }

  lemma SkeletonRoot(a: seq<Node>, b: seq<Node>, root: Option<nat>, kind: NodeKind)
    requires SameSkeleton(a, b)
    ensures RootOrFirstNode(a, root, kind) == RootOrFirstNode(b, root, kind)
  {
    SkeletonFirst(a, b, kind);
    if root.Some? && root.value < |a| {
      SkeletonNode(a, b, root.value);
    }
  }

  lemma SkeletonSymmetric(a: seq<Node>, b: seq<Node>)
    requires SameSkeleton(a, b)
    ensures SameSkeleton(b, a)
  {
  }

  lemma SkeletonRight(a: seq<Node>, b: seq<Node>, source: string)
    requires SameSkeleton(a, b) && OnRightOfAsof(a, source)
    ensures OnRightOfAsof(b, source)
  {
    hide SameSkeleton, ContainsCI;
    SkeletonLength(a, b);
    var k :| 0 <= k < |a| && a[k].kind.AsofJoinNode? && |a[k].children| >= 2
             && a[k].children[1] < |a| && ContainsCI(a[a[k].children[1]].sourceTables, source);
    SkeletonNode(a, b, k);
    SkeletonNode(a, b, a[k].children[1]);
  }

  lemma SkeletonUntraceable(s: Sources, a: seq<Node>, b: seq<Node>)
    requires SameSkeleton(a, b)
    ensures Untraceable(s, a) <==> Untraceable(s, b)
  {
    hide SameSkeleton, OnRightOfAsof, CoversAllSources;
    SkeletonSymmetric(a, b);
    forall source: string
      ensures OnRightOfAsof(a, source) <==> OnRightOfAsof(b, source)
    {
      if OnRightOfAsof(a, source) {
        SkeletonRight(a, b, source);
      }
      if OnRightOfAsof(b, source) {
        SkeletonRight(b, a, source);
      }
    }
  }

  lemma DomainSkeleton(nodes: seq<Node>, d: Domain)
    ensures SameSkeleton(nodes, AttachDomain(nodes, d))
  {
  }

  lemma FactSkeleton(nodes: seq<Node>, f: Fact)
    ensures SameSkeleton(nodes, AttachFact(nodes, f))
    ensures WithoutFacts(AttachFact(nodes, f)) == WithoutFacts(nodes)
  {
  }

  lemma SkeletonThrough(a: seq<Node>, b: seq<Node>, c: seq<Node>)
    requires SameSkeleton(a, b) && SameSkeleton(b, c)
    ensures SameSkeleton(a, c)
  {
    forall k | 0 <= k < |a|
      ensures a[k].(facts := [], domains := []) == c[k].(facts := [], domains := [])
    {
      assert a[k].(facts := [], domains := []) == b[k].(facts := [], domains := []);
    }
  }

  lemma {:induction false} FactsSkeleton(l: Lineage, fs: seq<Fact>)
    ensures SameSkeleton(l.nodes, AddFacts(l, fs).nodes)
    ensures AddFacts(l, fs).domains == l.domains
    ensures WithoutFacts(AddFacts(l, fs).nodes) == WithoutFacts(l.nodes)
  {
    hide AttachFact, SameSkeleton, WithoutFacts, Located;
    if fs == [] {
      SkeletonSelf(l.nodes);
    } else {
      var front := AddFacts(l, fs[..|fs| - 1]);
      FactsSkeleton(l, fs[..|fs| - 1]);
      var f := Located(front.nodes, fs[|fs| - 1]);
      FactSkeleton(front.nodes, f);
      SkeletonThrough(l.nodes, front.nodes, AttachFact(front.nodes, f));
    }
  }

  lemma SkeletonSelf(a: seq<Node>)
    ensures SameSkeleton(a, a)
  {
  }

  lemma SkeletonLocated(a: seq<Node>, b: seq<Node>, f: Fact)
    requires SameSkeleton(a, b)
    ensures Located(a, f) == Located(b, f)
  {
    hide SameSkeleton;
    SkeletonScans(a, b, f.sourceTable, f.sourceOccurrence);
  }

  lemma AttachCommutes(nodes: seq<Node>, d: Domain, f: Fact)
    ensures AttachFact(AttachDomain(nodes, d), f) == AttachDomain(AttachFact(nodes, f), d)
  {
    var a, b := AttachFact(AttachDomain(nodes, d), f), AttachDomain(AttachFact(nodes, f), d);
    forall k | 0 <= k < |nodes|
      ensures a[k] == b[k]
    {
    }
  }

  /** A domain attached before the facts might as well be attached after. */
  lemma {:induction false} FactsAfterDomain(l: Lineage, d: Domain, fs: seq<Fact>)
    ensures AddFacts(WithDomain(l, d), fs) == WithDomain(AddFacts(l, fs), d)
  {
    hide AttachFact, AttachDomain, Located;
    if fs != [] {
      var front, f := AddFacts(l, fs[..|fs| - 1]), fs[|fs| - 1];
      FactsAfterDomain(l, d, fs[..|fs| - 1]);
      DomainSkeleton(front.nodes, d);
      SkeletonLocated(front.nodes, AttachDomain(front.nodes, d), f);
      AttachCommutes(front.nodes, d, Located(front.nodes, f));
    }
  }

  lemma ClearDomain(nodes: seq<Node>, d: Domain)
    ensures WithoutFacts(AttachDomain(nodes, d)) == AttachDomain(WithoutFacts(nodes), d)
  {
  }

  lemma HasItself(l: Lineage, d: Domain)
    ensures HasDomain(WithDomain(l, d).domains, d)
  {
    assert SameDomain(WithDomain(l, d).domains[|l.domains|], d);
  }

  lemma ClearTwice(nodes: seq<Node>)
    ensures WithoutFacts(WithoutFacts(nodes)) == WithoutFacts(nodes)
  {
  }

  /** Clearing and tracing again gives what was there: no domain is added a second time, every fact goes to the same
      node. */
  lemma TracedAgain(l: Lineage, fs: seq<Fact>, d: Domain)
    requires l == Cleared(l)
    ensures Traced(Cleared(Traced(l, fs, d)), fs, d) == Traced(l, fs, d)
    ensures SameSkeleton(l.nodes, Cleared(Traced(l, fs, d)).nodes)
  {
    hide AttachDomain, WithoutFacts, SameSkeleton, HasDomain, AddFacts;
    var a := AddFacts(l, fs);
    FactsSkeleton(l, fs);
    ClearTwice(l.nodes);
    if HasDomain(l.domains, d) {
      assert Cleared(a) == l;
      SkeletonSelf(l.nodes);
    } else {
      ClearDomain(a.nodes, d);
      assert Cleared(WithDomain(a, d)) == WithDomain(l, d);
      FactsAfterDomain(l, d, fs);
      HasItself(a, d);
      DomainSkeleton(l.nodes, d);
    }
  }

  lemma FactsAgain(l: Lineage, fs: seq<Fact>)
    requires l == Cleared(l)
    ensures Cleared(AddFacts(l, fs)) == l
  {
    hide AddFacts;
    FactsSkeleton(l, fs);
  }

  lemma ClearedIsClear(l: Lineage)
    ensures Cleared(Cleared(l)) == Cleared(l)
  {
    ClearTwice(l.nodes);
  }

  lemma WindowDomainSame(ops: seq<WindowOp>, a: seq<Node>, b: seq<Node>, columns: seq<string>)
    requires SameSkeleton(a, b)
    ensures WindowDomain(ops, a, columns) == WindowDomain(ops, b, columns)
  {
    hide SameSkeleton;
    SkeletonFirst(a, b, WindowNode);
  }

  lemma ProjectionDomainSame(p: ProjectionLineage, a: seq<Node>, b: seq<Node>, root: Option<nat>)
    requires SameSkeleton(a, b)
    ensures ProjectionDomain(p, a, root) == ProjectionDomain(p, b, root)
  {
    hide SameSkeleton;
    SkeletonRoot(a, b, root, ProjectNode);
  }

  /** Models carry a semi-anti aux table only with the semi-anti type, as AttachAuxRequirements leaves them. */
  predicate AuxMatchesType(v: View) {
    v.semiAntiAux.table != "" ==> v.type_.SemiAntiRecompute?
  }

  /** Filling in the lineage a second time changes nothing. */
  lemma PopulateIsIdempotent(v: View, s: Sources)
    requires AuxMatchesType(v)
    ensures Populated(Populated(v, s), s) == Populated(v, s)
  {
    hide Traced, Cleared, AddFacts, Untraceable, SameSkeleton, WindowDomain, ProjectionDomain;
    var w, l := Populated(v, s), Cleared(v.lineage);
    ClearedIsClear(v.lineage);
    if v.type_.WindowPartition? && !Untraceable(s, l.nodes) && s.hasWindowLineage {
      var d := WindowDomain(s.windowOps, l.nodes, v.windowPartitionColumns);
      TracedAgain(l, WindowFacts(s.windowOps), d);
      WindowDomainSame(s.windowOps, l.nodes, Cleared(w.lineage).nodes, v.windowPartitionColumns);
      SkeletonUntraceable(s, l.nodes, Cleared(w.lineage).nodes);
    } else if v.type_.SimpleProjection? && !s.outerJoin && s.projection.Some? {
      var p := s.projection.value;
      TracedAgain(l, ArmFacts(p.arms, p.outputCol), ProjectionDomain(p, l.nodes, v.root));
      ProjectionDomainSame(p, l.nodes, Cleared(w.lineage).nodes, v.root);
    } else if v.type_.SemiAntiRecompute? {
      FactsAgain(l, SemiAntiFacts(v.semiAntiAux));
    }
  }
}
