/** What filling in the lineage records: which scan each fact lands on, and what the affected domain says. */
module LineageDomains {
  import opened SqlValues
  import opened IncrementalChecker
  import opened ViewClassifier
  import opened DeltaModel
  import opened DeltaLineage

  // ---- where facts land ----

  predicate Positions(nodes: seq<Node>) {
    forall k :: 0 <= k < |nodes| ==> nodes[k].id == k
  }

  predicate IsScanOf(n: Node, table: string, occurrence: Option<nat>) {
    n.kind.ScanNode? && CIEquals(n.sourceTable, table) && (occurrence.None? || n.sourceOccurrence == occurrence)
  }

  predicate ScanAt(nodes: seq<Node>, k: nat, table: string, occurrence: Option<nat>) {
    k < |nodes| && IsScanOf(nodes[k], table, occurrence)
  }

  lemma {:induction false} MatchingExactly(nodes: seq<Node>, table: string, occurrence: Option<nat>)
    requires Positions(nodes)
    ensures var m := MatchingScans(nodes, table, occurrence);
            && (forall k :: k in m <==> ScanAt(nodes, k, table, occurrence))
            && (forall i, j :: 0 <= i < j < |m| ==> m[i] < m[j])
  {
    hide CIEquals;
    if nodes != [] {
      var front, last := nodes[..|nodes| - 1], nodes[|nodes| - 1];
      MatchingExactly(front, table, occurrence);
      var m := MatchingScans(front, table, occurrence);
      forall i | 0 <= i < |m|
        ensures m[i] < |front|
      {
        assert m[i] in m;
        assert ScanAt(front, m[i], table, occurrence);
      }
      forall k: nat
        ensures ScanAt(nodes, k, table, occurrence)
                <==> ScanAt(front, k, table, occurrence) || (k == |front| && IsScanOf(last, table, occurrence))
      {
      }
    }
  }

  /** Where a fact about an occurrence of a table belongs: at the first scan of that occurrence; without an occurrence at
      the scan of the table, if there is only one. */
  ghost predicate BelongsAt(nodes: seq<Node>, table: string, occurrence: Option<nat>, k: nat) {
    && ScanAt(nodes, k, table, occurrence)
    && (forall j: nat :: j < k ==> !ScanAt(nodes, j, table, occurrence))
    && (occurrence.None? ==> forall j: nat :: ScanAt(nodes, j, table, occurrence) ==> j == k)
  }

  lemma LocatedExactly(nodes: seq<Node>, f: Fact, k: nat)
    requires Positions(nodes)
    ensures Located(nodes, f).nodeId == Some(k) <==> BelongsAt(nodes, f.sourceTable, f.sourceOccurrence, k)
    ensures Located(nodes, f).(nodeId := None) == f.(nodeId := None)
  {
    hide MatchingScans, ScanAt;
    var m := MatchingScans(nodes, f.sourceTable, f.sourceOccurrence);
    MatchingExactly(nodes, f.sourceTable, f.sourceOccurrence);
    if m != [] {
      assert m[0] in m;
      if |m| > 1 {
        assert m[1] in m;
      }
    }
    if BelongsAt(nodes, f.sourceTable, f.sourceOccurrence, k) {
      assert k in m;
      var i :| 0 <= i < |m| && m[i] == k;
      assert m[0] in m;
    }
  }

  /** The facts of a list that belong to node k. */
  function FactsAt(fs: seq<Fact>, k: nat): seq<Fact> {
    if fs == [] then []
    else FactsAt(fs[..|fs| - 1], k) + if fs[|fs| - 1].nodeId == Some(k) then [fs[|fs| - 1]] else []
  }

  function AllLocated(nodes: seq<Node>, fs: seq<Fact>): (r: seq<Fact>)
    ensures |r| == |fs| && forall i :: 0 <= i < |fs| ==> r[i] == Located(nodes, fs[i])
  {
    seq(|fs|, i requires 0 <= i < |fs| => Located(nodes, fs[i]))
  }

  /** Every fact is in the list of the model, and at the node it belongs to. */
  lemma {:induction false} FactsPlaced(l: Lineage, fs: seq<Fact>)
    ensures var r := AddFacts(l, fs);
            && r.facts == l.facts + AllLocated(l.nodes, fs) && r.domains == l.domains && |r.nodes| == |l.nodes|
            && forall k :: 0 <= k < |l.nodes| ==> r.nodes[k].facts == l.nodes[k].facts + FactsAt(AllLocated(l.nodes, fs), k)
  {
    hide Located;
    if fs != [] {
      var front, f := fs[..|fs| - 1], fs[|fs| - 1];
      var before := AddFacts(l, front);
      FactsPlaced(l, front);
      FactsSkeleton(l, front);
      SkeletonLocated(l.nodes, before.nodes, f);
      var all := AllLocated(l.nodes, fs);
      assert all[..|all| - 1] == AllLocated(l.nodes, front);
      assert all == AllLocated(l.nodes, front) + [Located(l.nodes, f)];
    }
  }

  // ---- the affected domain ----

  predicate IsFirst(nodes: seq<Node>, kind: NodeKind, at: Option<nat>) {
    if at.Some? then at.value < |nodes| && nodes[at.value].kind == kind && forall j :: 0 <= j < at.value ==> nodes[j].kind != kind
    else forall j :: 0 <= j < |nodes| ==> nodes[j].kind != kind
  }

  lemma {:induction false} FirstNodeExactly(nodes: seq<Node>, kind: NodeKind)
    requires Positions(nodes)
    ensures IsFirst(nodes, kind, FirstNode(nodes, kind))
  {
    if nodes != [] {
      var front := nodes[..|nodes| - 1];
      FirstNodeExactly(front, kind);
      assert forall j :: 0 <= j < |front| ==> front[j] == nodes[j];
    }
  }

  /** The named tables, each once, up to case. */
  predicate NamesOf(tables: seq<string>, sources: seq<string>) {
    CIDistinct(tables) && LowerSet(tables) == (set i | 0 <= i < |sources| && sources[i] != "" :: Lower(sources[i]))
  }

  lemma AddName(tables: seq<string>, front: seq<string>, name: string)
    requires NamesOf(tables, front)
    ensures NamesOf(AddCI(tables, name), front + [name])
  {
    hide Lower;
    var r, all := AddCI(tables, name), front + [name];
    var wanted, before := set i | 0 <= i < |all| && all[i] != "" :: Lower(all[i]),
                          set i | 0 <= i < |front| && front[i] != "" :: Lower(front[i]);
    forall x
      ensures x in wanted <==> x in before || (name != "" && x == Lower(name))
    {
      if x in before {
        var i :| 0 <= i < |front| && front[i] != "" && Lower(front[i]) == x;
        assert all[i] == front[i];
      }
      if name != "" && x == Lower(name) {
        assert all[|front|] == name;
      }
    }
    forall x
      ensures x in LowerSet(r) <==> x in LowerSet(tables) || (name != "" && x == Lower(name))
    {
      if x in LowerSet(tables) {
        var i :| 0 <= i < |tables| && Lower(tables[i]) == x;
        assert r[i] == tables[i];
      }
      if name != "" && x == Lower(name) {
        if ContainsCI(tables, name) {
          var i :| 0 <= i < |tables| && CIEquals(tables[i], name);
          assert Lower(r[i]) == x;
        } else {
          assert r[|tables|] == name;
        }
      }
    }
  }

  function OpSources(ops: seq<WindowOp>): (names: seq<string>)
    ensures |names| == |ops|
  {
    seq(|ops|, i requires 0 <= i < |ops| => ops[i].source)
  }

  lemma {:induction false} WindowSourcesExactly(ops: seq<WindowOp>)
    ensures NamesOf(WindowSources(ops), OpSources(ops))
  {
    hide NamesOf, AddCI;
    if ops == [] {
      NoNames();
      assert OpSources(ops) == [];
    } else {
      var front := ops[..|ops| - 1];
      WindowSourcesExactly(front);
      AddName(WindowSources(front), OpSources(front), ops[|ops| - 1].source);
      assert OpSources(ops) == OpSources(front) + [ops[|ops| - 1].source];
    }
  }

  lemma NoNames()
    ensures NamesOf([], [])
  {
  }

  function ArmNames(arms: seq<Arm>): (names: seq<string>)
    ensures |names| == |arms|
  {
    seq(|arms|, i requires 0 <= i < |arms| => arms[i].source)
  }

  lemma {:induction false} ArmSourcesExactly(arms: seq<Arm>)
    ensures NamesOf(ArmSources(arms), ArmNames(arms))
  {
    hide NamesOf, AddCI;
    if arms == [] {
      NoNames();
      assert ArmNames(arms) == [];
    } else {
      var front := arms[..|arms| - 1];
      ArmSourcesExactly(front);
      AddName(ArmSources(front), ArmNames(front), arms[|arms| - 1].source);
      assert ArmNames(arms) == ArmNames(front) + [arms[|arms| - 1].source];
    }
  }

  /** A view as it is built: its nodes are numbered by position, and no domain of the given kind is recorded yet. */
  predicate Untraced(v: View, kind: DomainKind) {
    Positions(v.lineage.nodes) && forall i :: 0 <= i < |v.lineage.domains| ==> v.lineage.domains[i].kind != kind
  }

  /** The domain is new in the model, and at its node. */
  predicate Records(before: Lineage, after: Lineage, d: Domain) {
    && after.domains == before.domains + [d] && |after.nodes| == |before.nodes|
    && forall k :: 0 <= k < |before.nodes| ==>
         after.nodes[k].domains == before.nodes[k].domains + if d.nodeId == Some(k) then [d] else []
  }

  lemma NewDomain(l: Lineage, d: Domain)
    requires forall i :: 0 <= i < |l.domains| ==> l.domains[i].kind != d.kind
    ensures Records(l, AddDomain(l, d), d) && AddDomain(l, d).facts == l.facts
    ensures forall k :: 0 <= k < |l.nodes| ==> AddDomain(l, d).nodes[k].facts == l.nodes[k].facts
  {
    hide SameKeys;
  }

  lemma ClearedKeeps(l: Lineage)
    ensures Cleared(l).domains == l.domains && Cleared(l).facts == []
    ensures Positions(l.nodes) ==> Positions(Cleared(l).nodes)
    ensures |Cleared(l).nodes| == |l.nodes|
    ensures forall k :: 0 <= k < |l.nodes| ==>
              && Cleared(l).nodes[k].facts == [] && Cleared(l).nodes[k].domains == l.nodes[k].domains
              && Cleared(l).nodes[k].kind == l.nodes[k].kind
  {
  }

  lemma {:induction false} FactsKeepDomains(l: Lineage, fs: seq<Fact>)
    ensures |AddFacts(l, fs).nodes| == |l.nodes|
    ensures forall k :: 0 <= k < |l.nodes| ==> AddFacts(l, fs).nodes[k].domains == l.nodes[k].domains
  {
    hide Located;
    if fs != [] {
      FactsKeepDomains(l, fs[..|fs| - 1]);
    }
  }

  /** Facts and a domain of a new kind, over a cleared lineage. */
  lemma TracedExactly(l: Lineage, fs: seq<Fact>, d: Domain)
    requires l == Cleared(l) && forall i :: 0 <= i < |l.domains| ==> l.domains[i].kind != d.kind
    ensures var r := Traced(l, fs, d);
            && Records(l, r, d) && r.facts == AllLocated(l.nodes, fs)
            && forall k :: 0 <= k < |r.nodes| ==> r.nodes[k].facts == FactsAt(r.facts, k)
  {
    hide AddFacts, AddDomain, Cleared, Located, FactsAt, AllLocated;
    ClearedKeeps(l);
    FactsPlaced(l, fs);
    FactsKeepDomains(l, fs);
    NewDomain(AddFacts(l, fs), d);
  }

  lemma TracedOverView(l0: Lineage, fs: seq<Fact>, d: Domain)
    requires forall i :: 0 <= i < |l0.domains| ==> l0.domains[i].kind != d.kind
    ensures var r := Traced(Cleared(l0), fs, d);
            && Records(l0, r, d) && r.facts == AllLocated(Cleared(l0).nodes, fs)
            && forall k :: 0 <= k < |r.nodes| ==> r.nodes[k].facts == FactsAt(r.facts, k)
  {
    hide Traced, Cleared, FactsAt, AllLocated;
    ClearedKeeps(l0);
    ClearedIsClear(l0);
    TracedExactly(Cleared(l0), fs, d);
  }

  /** A window view that can be traced: one domain over its partition columns, read off the delta alone exactly if no
      column is traced by a lookup, and for each traced column a fact at the scan it belongs to. */
  lemma WindowLineageExactly(v: View, s: Sources)
    requires Untraced(v, WindowPartitionDomain) && v.type_.WindowPartition? && s.hasWindowLineage
    requires !Untraceable(s, Cleared(v.lineage).nodes)
    ensures var l, ops := Populated(v, s).lineage, s.windowOps;
            && l.domains != [] && |l.facts| == |ops|
            && (var d := l.domains[|l.domains| - 1];
                && Records(v.lineage, l, d) && d.kind.WindowPartitionDomain? && d.keyColumns == v.windowPartitionColumns
                && (d.deltaLocal <==> forall i :: 0 <= i < |ops| ==> !ops[i].kind.LookupOp?)
                && (d.needsBaseLookup <==> !d.deltaLocal)
                && NamesOf(d.sourceTables, OpSources(ops)) && IsFirst(v.lineage.nodes, WindowNode, d.nodeId))
            && (forall k :: 0 <= k < |l.nodes| ==> l.nodes[k].facts == FactsAt(l.facts, k))
            && (forall i :: 0 <= i < |ops| ==>
                  && l.facts[i].(nodeId := None)
                     == Fact(WindowPartitionDomain, None, ops[i].source, None, ops[i].sourceCol, ops[i].outputCol,
                             ops[i].lookup, ops[i].lookupCol, ops[i].lookupOut)
                  && forall k: nat :: l.facts[i].nodeId == Some(k) <==> BelongsAt(v.lineage.nodes, ops[i].source, None, k))
  {
    hide Traced, Cleared, FactsAt, Untraceable, IsFirst, NamesOf, BelongsAt, Located, WindowSources, FirstNode;
    var nodes, ops := Cleared(v.lineage).nodes, s.windowOps;
    var d := WindowDomain(ops, nodes, v.windowPartitionColumns);
    ClearedKeeps(v.lineage);
    TracedOverView(v.lineage, WindowFacts(ops), d);
    FirstNodeExactly(nodes, WindowNode);
    SameFirst(v.lineage.nodes, nodes, WindowNode, d.nodeId);
    WindowSourcesExactly(ops);
    forall i | 0 <= i < |ops|
      ensures Located(nodes, WindowFact(ops[i])).(nodeId := None) == WindowFact(ops[i])
      ensures forall k: nat :: Located(nodes, WindowFact(ops[i])).nodeId == Some(k)
                               <==> BelongsAt(v.lineage.nodes, ops[i].source, None, k)
    {
      LandsAt(v.lineage, WindowFact(ops[i]));
    }
  }

  lemma SameFirst(a: seq<Node>, b: seq<Node>, kind: NodeKind, at: Option<nat>)
    requires |a| == |b| && forall k :: 0 <= k < |a| ==> b[k].kind == a[k].kind
    requires IsFirst(b, kind, at)
    ensures IsFirst(a, kind, at)
  {
  }

  lemma LandsAt(l: Lineage, f: Fact)
    requires Positions(l.nodes)
    ensures forall k: nat :: Located(Cleared(l).nodes, f).nodeId == Some(k)
                             <==> BelongsAt(l.nodes, f.sourceTable, f.sourceOccurrence, k)
    ensures Located(Cleared(l).nodes, f).(nodeId := None) == f.(nodeId := None)
  {
    hide Located, BelongsAt;
    ClearedKeeps(l);
    forall k: nat
      ensures Located(Cleared(l).nodes, f).nodeId == Some(k) <==> BelongsAt(l.nodes, f.sourceTable, f.sourceOccurrence, k)
    {
      LocatedExactly(Cleared(l).nodes, f, k);
      SamePlace(l, f.sourceTable, f.sourceOccurrence, k);
    }
    LocatedExactly(Cleared(l).nodes, f, 0);
  }

  lemma SamePlace(l: Lineage, table: string, occurrence: Option<nat>, k: nat)
    ensures BelongsAt(Cleared(l).nodes, table, occurrence, k) <==> BelongsAt(l.nodes, table, occurrence, k)
  {
    hide CIEquals;
    forall j: nat
      ensures ScanAt(Cleared(l).nodes, j, table, occurrence) <==> ScanAt(l.nodes, j, table, occurrence)
    {
      if j < |l.nodes| {
        assert Cleared(l).nodes[j] == l.nodes[j].(facts := []);
      }
    }
  }

  /** The place of the domain of a projection: the root if it projects, or the first projection. */
  predicate IsProjection(nodes: seq<Node>, root: Option<nat>, at: Option<nat>) {
    if root.Some? && root.value < |nodes| && nodes[root.value].kind.ProjectNode? then at == root
    else IsFirst(nodes, ProjectNode, at)
  }

  /** A projection whose key can be traced: one domain over that key, read off the delta alone exactly if no arm takes a
      step, and for each arm a fact at its occurrence, with the last step as its lookup. */
  lemma ProjectionLineageExactly(v: View, s: Sources)
    requires Untraced(v, ProjectionKeyDomain) && AuxMatchesType(v)
    requires v.type_.SimpleProjection? && !s.outerJoin && s.projection.Some?
    ensures var l, p := Populated(v, s).lineage, s.projection.value;
            && l.domains != [] && |l.facts| == |p.arms|
            && (var d := l.domains[|l.domains| - 1];
                && Records(v.lineage, l, d) && d.kind.ProjectionKeyDomain? && d.keyColumns == [p.outputCol]
                && (d.deltaLocal <==> forall i :: 0 <= i < |p.arms| ==> p.arms[i].steps == [])
                && (d.needsBaseLookup <==> !d.deltaLocal)
                && NamesOf(d.sourceTables, ArmNames(p.arms)) && IsProjection(v.lineage.nodes, v.root, d.nodeId))
            && (forall k :: 0 <= k < |l.nodes| ==> l.nodes[k].facts == FactsAt(l.facts, k))
            && (forall i :: 0 <= i < |p.arms| ==>
                  && ShowsArm(l.facts[i], p.arms[i], p.outputCol)
                  && forall k: nat ::
                       l.facts[i].nodeId == Some(k) <==> BelongsAt(v.lineage.nodes, p.arms[i].source, p.arms[i].occurrence, k))
  {
    hide Traced, Cleared, FactsAt, IsFirst, NamesOf, BelongsAt, Located, ArmSources, FirstNode, ShowsArm, ArmFact;
    var nodes, p := Cleared(v.lineage).nodes, s.projection.value;
    var d := ProjectionDomain(p, nodes, v.root);
    ClearedKeeps(v.lineage);
    TracedOverView(v.lineage, ArmFacts(p.arms, p.outputCol), d);
    FirstNodeExactly(nodes, ProjectNode);
    SameFirst(v.lineage.nodes, nodes, ProjectNode, FirstNode(nodes, ProjectNode));
    ArmSourcesExactly(p.arms);
    forall i | 0 <= i < |p.arms|
      ensures ShowsArm(Located(nodes, ArmFact(p.arms[i], p.outputCol)), p.arms[i], p.outputCol)
      ensures forall k: nat :: Located(nodes, ArmFact(p.arms[i], p.outputCol)).nodeId == Some(k)
                               <==> BelongsAt(v.lineage.nodes, p.arms[i].source, p.arms[i].occurrence, k)
    {
      ArmLandsAt(v.lineage, p.arms[i], p.outputCol);
    }
  }

  /** The fact of an arm, wherever it is. */
  predicate ShowsArm(f: Fact, a: Arm, outputCol: string) {
    && f.kind.ProjectionKeyDomain? && f.sourceTable == a.source && f.sourceOccurrence == a.occurrence
    && f.sourceColumn == a.sourceCol && f.outputColumn == outputCol
    && (a.steps == [] ==> f.lookupTable == f.lookupColumn == f.lookupOutput == "")
    && (a.steps != [] ==> Step(f.lookupTable, f.lookupColumn, f.lookupOutput) == a.steps[|a.steps| - 1])
  }

  lemma ArmLandsAt(l: Lineage, a: Arm, outputCol: string)
    requires Positions(l.nodes)
    ensures var f := Located(Cleared(l).nodes, ArmFact(a, outputCol));
            && ShowsArm(f, a, outputCol)
            && forall k: nat :: f.nodeId == Some(k) <==> BelongsAt(l.nodes, a.source, a.occurrence, k)
  {
    hide Cleared, BelongsAt;
    LandsAt(l, ArmFact(a, outputCol));
  }

  lemma FactsOverView(l0: Lineage, fs: seq<Fact>)
    ensures var r := AddFacts(Cleared(l0), fs);
            && r.domains == l0.domains && r.facts == AllLocated(Cleared(l0).nodes, fs)
            && forall k :: 0 <= k < |r.nodes| ==> r.nodes[k].facts == FactsAt(r.facts, k)
  {
    hide AddFacts, Cleared, AllLocated, FactsAt;
    ClearedKeeps(l0);
    FactsPlaced(Cleared(l0), fs);
    assert [] + AllLocated(Cleared(l0).nodes, fs) == AllLocated(Cleared(l0).nodes, fs);
    forall k | 0 <= k < |l0.nodes|
      ensures AddFacts(Cleared(l0), fs).nodes[k].facts == FactsAt(AllLocated(Cleared(l0).nodes, fs), k)
    {
      var at := FactsAt(AllLocated(Cleared(l0).nodes, fs), k);
      assert [] + at == at;
    }
  }

  /** A semi or anti join without aggregate: a fact for every column kept of the left side, at the only scan of the left
      table, and no new domain. */
  lemma SemiAntiLineageExactly(v: View, s: Sources)
    requires Positions(v.lineage.nodes) && v.type_.SemiAntiRecompute? && v.semiAntiAux.table != ""
    ensures var l, aux := Populated(v, s).lineage, v.semiAntiAux;
            && l.domains == v.lineage.domains && |l.facts| == |aux.leftCols|
            && (forall k :: 0 <= k < |l.nodes| ==> l.nodes[k].facts == FactsAt(l.facts, k))
            && (forall i :: 0 <= i < |aux.leftCols| ==>
                  && l.facts[i].(nodeId := None)
                     == Fact(SemiAntiPredicateDomain, None, aux.leftTable, None, aux.leftCols[i], aux.leftCols[i], "", "", "")
                  && forall k: nat :: l.facts[i].nodeId == Some(k) <==> BelongsAt(v.lineage.nodes, aux.leftTable, None, k))
  {
    hide Cleared, FactsAt, BelongsAt, Located, AddFacts;
    var l0, fs := Cleared(v.lineage), SemiAntiFacts(v.semiAntiAux);
    FactsOverView(v.lineage, fs);
    forall i | 0 <= i < |fs|
      ensures Located(l0.nodes, fs[i]).(nodeId := None) == fs[i]
      ensures forall k: nat :: Located(l0.nodes, fs[i]).nodeId == Some(k)
                               <==> BelongsAt(v.lineage.nodes, v.semiAntiAux.leftTable, None, k)
    {
      LandsAt(v.lineage, fs[i]);
    }
  }
}
