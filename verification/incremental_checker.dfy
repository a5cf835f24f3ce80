/** The single-pass plan analysis: whether a plan can be maintained incrementally, and what it contains.

    The pass is a recursive method over a shared, mutable analysis; the functions say what it leaves there. What it
    found is a set, the flags of the original being its members. Some findings are blocking: an analysis is consistent
    when it is incompatible exactly if one of them was found, when special findings come with the general ones they
    belong to, when an aggregate was found exactly if one is described, and when partitions have distinct names. Every operator keeps that and loses nothing found before, and
    so does merging the analysis of a CTE body, which is made from scratch and passes on only what is not local. */
module IncrementalChecker {
  import opened SqlValues

  /** Aggregate functions, as far as the analysis tells them apart; the other names on its list of supported
      functions, and names that are not on it, keep their spelling. */
  datatype AggFunction = Min | Max | ArgMin | ArgMax | List | First | OtherSupported(name: string) | Unsupported(name: string)

  datatype Call =
    | AggregateCall(function_: AggFunction, distinct: bool, filtered: bool)
    | OtherCall

  datatype JoinType =
    | Inner | LeftJoin | RightJoin | OuterJoin | Semi | Anti | Mark | SingleJoin | OtherJoinType

  datatype JoinOperator = Comparison | Asof | AnyJoin | Dependent | Delim | PlainJoin | Cross

  /** An ORDER BY entry; the name is empty when it is not a column. */
  datatype Order = Order(name: string, desc: bool)

  /** One PARTITION BY entry with its column position. */
  datatype Partition = Partition(name: string, index: Option<nat>)

  /** What an operator is, as far as the analyses look. */
  datatype Kind =
    | Get(index: nat, columns: seq<string>)
    | ConstantScan
    | CteRef
    | PassThrough
    | Unnest(isVolatile: bool)
    | MaterializedCte
    | Filter(isVolatile: bool)
    | Projection(isVolatile: bool, nonFoldableUnnest: bool)
    | Union(all: bool, isVolatile: bool)
    | Sample(seeded: bool)
    | Distinct(isVolatile: bool, targets: seq<string>, childColumns: nat)
    | Join(operator: JoinOperator, joinType: Option<JoinType>)
    | PositionalJoin
    | Aggregate(groupingSets: nat, calls: seq<Call>, isVolatile: bool, groupCount: nat, groupIndex: nat)
    | Window(isVolatile: bool, partitions: seq<Partition>)
    | TopN(limit: nat, offset: nat, orders: seq<Order>)
    | OrderBy(orders: seq<Order>)
    | Limit(limitValue: Option<nat>, offsetValue: Option<nat>)
    | OtherKind

  /** An operator: its kind, the names of its expressions, and its children. */
  datatype Operator = Operator(kind: Kind, names: seq<string>, children: seq<Operator>)

  /** What the pass can find in a plan. */
  datatype Finding =
    | Aggregation | ProjectionFound | Having | DistinctFound | UnionDistinct | Minmax | ListFound | FilteredList
    | LeftJoinFound | FullOuter | SemiAntiJoin | JoinFound | DelimJoin | SingleJoinFound
    | AsofJoin | PositionalJoinFound | SampleFound | WindowFound | TopK
    | CountDistinct | GroupingSets | NestedAggregate
    | VolatileExpression | NonFoldableUnnest | UnsupportedAggregate | UnsupportedFilteredAggregate
    | UnsupportedJoinType | UnsupportedOrderBy | UnsupportedOperator

  /** The findings that rule out incremental maintenance. */
  const BLOCKING: set<Finding> :=
    {VolatileExpression, NonFoldableUnnest, UnsupportedAggregate, UnsupportedFilteredAggregate,
     UnsupportedJoinType, UnsupportedOrderBy, UnsupportedOperator}

  /** The findings a CTE body passes on when it is analysed apart. */
  const NON_LOCAL: set<Finding> := BLOCKING + {AsofJoin, PositionalJoinFound, SampleFound}

  datatype TopKFacts = TopKFacts(limit: nat, offset: nat, orders: seq<Order>)

  datatype PlanAnalysis = PlanAnalysis(
    compatible: bool, found: set<Finding>, topK: TopKFacts,
    aggregateColumns: seq<string>, aggregateTypes: seq<AggFunction>, partitions: seq<Partition>,
    groupCount: nat, groupIndex: Option<nat>)

  const FRESH := PlanAnalysis(true, {}, TopKFacts(0, 0, []), [], [], [], 0, None)

  // ---- what each operator contributes ----

  function Note(r: PlanAnalysis, when: bool, what: Finding): PlanAnalysis {
    if when then r.(found := r.found + {what}) else r
  }

  function Block(r: PlanAnalysis, when: bool, what: Finding): PlanAnalysis {
    if when then r.(compatible := false, found := r.found + {what}) else r
  }

  /** The ORDER BY columns before the first entry that is not a column. */
  function OrderColumns(orders: seq<Order>): (columns: seq<Order>) {
    if orders == [] || orders[0].name == "" then [] else [orders[0]] + OrderColumns(orders[1..])
  }

  function Numbered(n: nat, spell: nat -> string): seq<string> {
    seq(n, i requires 0 <= i < n => "col" + spell(i))
  }

  predicate IsMinmax(f: AggFunction) {
    f.Min? || f.Max? || f.ArgMin? || f.ArgMax?
  }

  /** One aggregate call, given whether an aggregate was already seen further up. */
  function CallFacts(c: Call, nested: bool, r: PlanAnalysis): PlanAnalysis {
    if c.OtherCall? then r
    else
      var f := c.function_;
      var r1 := Block(r, f.Unsupported? || (f.First? && !nested), UnsupportedAggregate);
      var r2 := Note(r1, c.distinct, CountDistinct);
      var r3 := Note(r2, c.filtered && f.List?, FilteredList);
      var r4 := Block(r3, c.filtered && !f.List?, UnsupportedFilteredAggregate);
      var r5 := Note(Note(r4, IsMinmax(f), Minmax), f.List?, ListFound);
      if nested then r5 else r5.(aggregateTypes := r5.aggregateTypes + [f])
  }

  function CallsFacts(calls: seq<Call>, nested: bool, r: PlanAnalysis): PlanAnalysis {
    if calls == [] then r
    else CallFacts(calls[|calls| - 1], nested, CallsFacts(calls[..|calls| - 1], nested, r))
  }

  function AggregateStart(k: Kind, r: PlanAnalysis): PlanAnalysis
    requires k.Aggregate?
  {
    Note(Note(r, true, Aggregation), k.groupingSets > 1, GroupingSets)
  }

  function AggregateFacts(k: Kind, r: PlanAnalysis): PlanAnalysis
    requires k.Aggregate?
  {
    var nested := r.groupIndex.Some?;
    var r1 := Block(CallsFacts(k.calls, nested, AggregateStart(k, r)), k.isVolatile, VolatileExpression);
    if nested then Note(r1, true, NestedAggregate)
    else r1.(groupCount := k.groupCount, groupIndex := Some(k.groupIndex))
  }

  predicate HasPartition(ps: seq<Partition>, name: string) {
    exists i :: 0 <= i < |ps| && ps[i].name == name
  }

  function PartitionFacts(ps: seq<Partition>, known: seq<Partition>): seq<Partition> {
    if ps == [] then known
    else
      var before, p := PartitionFacts(ps[..|ps| - 1], known), ps[|ps| - 1];
      if HasPartition(before, p.name) then before else before + [p]
  }

  function JoinFacts(k: Kind, r: PlanAnalysis): PlanAnalysis
    requires k.Join?
  {
    var r1 := Note(Note(r, true, JoinFound), k.operator.Asof?, AsofJoin);
    var r2 := Note(r1, k.operator.Dependent? || k.operator.Delim?, DelimJoin);
    if k.joinType.None? then r2 else JoinTypeFacts(k.joinType.value, r2)
  }

  function JoinTypeFacts(t: JoinType, r: PlanAnalysis): PlanAnalysis {
    var r1 := Block(r, t.OtherJoinType?, UnsupportedJoinType);
    var r2 := Note(r1, t.SingleJoin?, SingleJoinFound);
    var r3 := Note(r2, t.Semi? || t.Anti? || t.Mark?, SemiAntiJoin);
    Note(Note(r3, t.LeftJoin? || t.RightJoin? || t.OuterJoin?, LeftJoinFound), t.OuterJoin?, FullOuter)
  }

  predicate IsHaving(n: Operator) {
    n.kind.Filter? && n.children != [] && n.children[0].kind.Aggregate?
  }

  /** What the operator itself contributes, before its children. */
  function OwnFacts(n: Operator, r: PlanAnalysis, spell: nat -> string): PlanAnalysis {
    match n.kind
    case Get(_, _) => r
    case ConstantScan => r
    case CteRef => r
    case PassThrough => r
    case MaterializedCte => r
    case Unnest(v) => Block(r, v, VolatileExpression)
    case Filter(v) => Note(Block(r, v, VolatileExpression), IsHaving(n), Having)
    case Projection(v, u) => Block(Block(Note(r, true, ProjectionFound), v, VolatileExpression), u, NonFoldableUnnest)
    case Union(all, v) => Block(Note(Note(r, !all, DistinctFound), !all, UnionDistinct), v, VolatileExpression)
    case Sample(seeded) => Block(Note(r, true, SampleFound), !seeded, VolatileExpression)
    case Distinct(v, targets, columns) =>
      var r1 := Block(Note(r, true, DistinctFound), v, VolatileExpression);
      r1.(aggregateColumns := r1.aggregateColumns + if targets != [] then targets else Numbered(columns, spell))
    case Join(_, _) => JoinFacts(n.kind, r)
    case PositionalJoin => Note(Note(r, true, JoinFound), true, PositionalJoinFound)
    case Aggregate(_, _, _, _, _) => AggregateFacts(n.kind, r)
    case Window(v, partitions) =>
      var r1 := Block(Note(r, true, WindowFound), v, VolatileExpression);
      r1.(partitions := PartitionFacts(partitions, r1.partitions))
    case TopN(limit, offset, orders) =>
      var columns := OrderColumns(orders);
      Block(Note(r, true, TopK).(topK := TopKFacts(limit, offset, columns)), columns != orders, UnsupportedOrderBy)
    case OrderBy(orders) =>
      if r.topK.orders != [] then r else r.(topK := r.topK.(orders := OrderColumns(orders)))
    case Limit(limit, offset) =>
      Note(r, true, TopK).(topK := r.topK.(limit := if limit.Some? then limit.value else r.topK.limit,
                                           offset := if offset.Some? then offset.value else r.topK.offset))
    case OtherKind => Block(r, true, UnsupportedOperator)
  }

  function MergeCompatibilityAndNonLocalFacts(r: PlanAnalysis, body: PlanAnalysis): PlanAnalysis {
    r.(compatible := r.compatible && body.compatible, found := r.found + (body.found * NON_LOCAL))
  }

  predicate OuterPassThrough(r: PlanAnalysis) {
    Aggregation !in r.found && DistinctFound !in r.found && JoinFound !in r.found
  }

  /** What is known after an operator and everything the pass visits below it. */
  function Analyzed(n: Operator, r: PlanAnalysis, spell: nat -> string): PlanAnalysis
    decreases n, 1
  {
    if n.kind.MaterializedCte? then
      if |n.children| < 2 then r
      else
        var outer := Analyzed(n.children[1], r, spell);
        if OuterPassThrough(outer) then Analyzed(n.children[0], outer, spell)
        else MergeCompatibilityAndNonLocalFacts(outer, Analyzed(n.children[0], FRESH, spell))
    else if n.kind.TopN? || n.kind.OrderBy? || n.kind.Limit? then
      var own := OwnFacts(n, r, spell);
      if n.children == [] then own else Analyzed(n.children[0], own, spell)
    else AnalyzedAll(n.children, OwnFacts(n, r, spell), spell)
  }

  function AnalyzedAll(ns: seq<Operator>, r: PlanAnalysis, spell: nat -> string): PlanAnalysis
    decreases ns, 0
  {
    if ns == [] then r
    else Analyzed(ns[|ns| - 1], AnalyzedAll(ns[..|ns| - 1], r, spell), spell)
  }

  // ---- the pass ----

  lemma OrderColumnsStep(orders: seq<Order>, i: nat)
    requires i < |orders|
    ensures OrderColumns(orders[i..])
            == if orders[i].name == "" then [] else [orders[i]] + OrderColumns(orders[i + 1..])
  {
    assert orders[i..][1..] == orders[i + 1..];
  }

  method ScanOrders(orders: seq<Order>) returns (columns: seq<Order>, allColumns: bool)
    ensures columns == OrderColumns(orders) && (allColumns <==> columns == orders)
  {
    hide OrderColumns;
    columns := [];
    var i := 0;
    assert orders[0..] == orders;
    while i < |orders|
      invariant i <= |orders| && columns == orders[..i]
      invariant OrderColumns(orders) == columns + OrderColumns(orders[i..])
    {
      OrderColumnsStep(orders, i);
      if orders[i].name == "" {
        return columns, false;
      }
      columns := columns + [orders[i]];
      i := i + 1;
    }
    NoOrderColumns();
    assert orders[i..] == [] && orders[..i] == orders;
    allColumns := true;
  }

  lemma NoOrderColumns()
    ensures OrderColumns([]) == []
  {
  }

  /** The pass over one plan, with the analysis it fills in. */
  class PlanAnalyzer {
    var result: PlanAnalysis

    constructor ()
      ensures result == FRESH
    {
      result := FRESH;
    }

    method Find(what: Finding)
      modifies this
      ensures result == Note(old(result), true, what)
    {
      result := result.(found := result.found + {what});
    }

    method Reject(what: Finding)
      modifies this
      ensures result == Block(old(result), true, what)
    {
      result := result.(compatible := false, found := result.found + {what});
    }

    method ExtractOrderBy(orders: seq<Order>) returns (allColumns: bool)
      modifies this
      ensures result == old(result).(topK := old(result).topK.(orders := OrderColumns(orders)))
      ensures allColumns <==> OrderColumns(orders) == orders
    {
      var columns;
      columns, allColumns := ScanOrders(orders);
      result := result.(topK := result.topK.(orders := columns));
    }

    method AnalyzeCall(c: Call, nested: bool)
      modifies this
      ensures result == CallFacts(c, nested, old(result))
    {
      hide IsMinmax;
      if c.OtherCall? {
        return;
      }
      var f := c.function_;
      if f.Unsupported? || (f.First? && !nested) {
        Reject(UnsupportedAggregate);
      }
      if c.distinct {
        Find(CountDistinct);
      }
      if c.filtered {
        if f.List? {
          Find(FilteredList);
        } else {
          Reject(UnsupportedFilteredAggregate);
        }
      }
      if IsMinmax(f) {
        Find(Minmax);
      }
      if f.List? {
        Find(ListFound);
      }
      if !nested {
        result := result.(aggregateTypes := result.aggregateTypes + [f]);
      }
    }

    method AnalyzeAggregate(k: Kind)
      requires k.Aggregate?
      modifies this
      ensures result == AggregateFacts(k, old(result))
    {
      hide CallFacts;
      var nested := result.groupIndex.Some?;
      Find(Aggregation);
      if k.groupingSets > 1 {
        Find(GroupingSets);
      }
      ghost var before := result;
      var i := 0;
      while i < |k.calls|
        invariant i <= |k.calls| && result == CallsFacts(k.calls[..i], nested, before)
      {
        assert k.calls[..i + 1][..i] == k.calls[..i];
        AnalyzeCall(k.calls[i], nested);
        i := i + 1;
      }
      assert k.calls[..|k.calls|] == k.calls;
      if k.isVolatile {
        Reject(VolatileExpression);
      }
      if nested {
        Find(NestedAggregate);
      } else {
        result := result.(groupCount := k.groupCount, groupIndex := Some(k.groupIndex));
      }
    }

    method AnalyzePartitions(ps: seq<Partition>)
      modifies this
      ensures result == old(result).(partitions := PartitionFacts(ps, old(result).partitions))
    {
      var known := result.partitions;
      var i := 0;
      while i < |ps|
        invariant i <= |ps| && known == PartitionFacts(ps[..i], result.partitions)
      {
        assert ps[..i + 1][..i] == ps[..i];
        var found := false;
        for j := 0 to |known|
          invariant found <==> HasPartition(known[..j], ps[i].name)
        {
          if known[j].name == ps[i].name {
            found := true;
            assert known[..j + 1][j].name == ps[i].name;
          } else {
            assert forall k :: 0 <= k < j ==> known[..j + 1][k] == known[..j][k];
          }
        }
        assert known[..|known|] == known;
        if !found {
          known := known + [ps[i]];
        }
        i := i + 1;
      }
      assert ps[..|ps|] == ps;
      result := result.(partitions := known);
    }

    method AnalyzeJoin(k: Kind)
      requires k.Join?
      modifies this
      ensures result == JoinFacts(k, old(result))
    {
      Find(JoinFound);
      if k.operator.Asof? {
        Find(AsofJoin);
      }
      if k.operator.Dependent? || k.operator.Delim? {
        Find(DelimJoin);
      }
      if k.joinType.Some? {
        AnalyzeJoinType(k.joinType.value);
      }
    }

    method AnalyzeJoinType(t: JoinType)
      modifies this
      ensures result == JoinTypeFacts(t, old(result))
    {
      if t.OtherJoinType? {
        Reject(UnsupportedJoinType);
      }
      if t.SingleJoin? {
        Find(SingleJoinFound);
      }
      if t.Semi? || t.Anti? || t.Mark? {
        Find(SemiAntiJoin);
      }
      if t.LeftJoin? || t.RightJoin? || t.OuterJoin? {
        Find(LeftJoinFound);
      }
      if t.OuterJoin? {
        Find(FullOuter);
      }
    }

    method AnalyzeOwn(n: Operator, spell: nat -> string)
      modifies this
      ensures result == OwnFacts(n, old(result), spell)
    {
      hide PartitionFacts, AggregateFacts, OrderColumns, JoinFacts, Numbered;
      match n.kind {
        case Get(_, _) =>
        case ConstantScan =>
        case CteRef =>
        case PassThrough =>
        case MaterializedCte =>
        case Unnest(v) =>
          RejectIfVolatile(v);
        case Filter(v) =>
          RejectIfVolatile(v);
          if IsHaving(n) {
            Find(Having);
          }
        case Projection(v, u) =>
          Find(ProjectionFound);
          RejectIfVolatile(v);
          if u {
            Reject(NonFoldableUnnest);
          }
        case Union(all, v) =>
          if !all {
            Find(DistinctFound);
            Find(UnionDistinct);
          }
          RejectIfVolatile(v);
        case Sample(seeded) =>
          Find(SampleFound);
          RejectIfVolatile(!seeded);
        case Distinct(v, targets, columns) =>
          Find(DistinctFound);
          RejectIfVolatile(v);
          if targets != [] {
            result := result.(aggregateColumns := result.aggregateColumns + targets);
          } else {
            result := result.(aggregateColumns := result.aggregateColumns + Numbered(columns, spell));
          }
        case Join(_, _) =>
          AnalyzeJoin(n.kind);
        case PositionalJoin =>
          Find(JoinFound);
          Find(PositionalJoinFound);
        case Aggregate(_, _, _, _, _) =>
          AnalyzeAggregate(n.kind);
        case Window(v, partitions) =>
          Find(WindowFound);
          RejectIfVolatile(v);
          AnalyzePartitions(partitions);
        case TopN(limit, offset, orders) =>
          Find(TopK);
          result := result.(topK := result.topK.(limit := limit, offset := offset));
          var allColumns := ExtractOrderBy(orders);
          if !allColumns {
            Reject(UnsupportedOrderBy);
          }
        case OrderBy(orders) =>
          if result.topK.orders == [] {
            var _ := ExtractOrderBy(orders);
          }
        case Limit(limit, offset) =>
          Find(TopK);
          if limit.Some? {
            result := result.(topK := result.topK.(limit := limit.value));
          }
          if offset.Some? {
            result := result.(topK := result.topK.(offset := offset.value));
          }
        case OtherKind =>
          Reject(UnsupportedOperator);
      }
    }

    method RejectIfVolatile(isVolatile: bool)
      modifies this
      ensures result == Block(old(result), isVolatile, VolatileExpression)
    {
      if isVolatile {
        Reject(VolatileExpression);
      }
    }

    method AnalyzeNode(n: Operator, spell: nat -> string)
      modifies this
      ensures result == Analyzed(n, old(result), spell)
      decreases n
    {
      hide OwnFacts, MergeCompatibilityAndNonLocalFacts;
      if n.kind.MaterializedCte? {
        if |n.children| >= 2 {
          AnalyzeNode(n.children[1], spell);
          if OuterPassThrough(result) {
            AnalyzeNode(n.children[0], spell);
          } else {
            var body := new PlanAnalyzer();
            body.AnalyzeNode(n.children[0], spell);
            result := MergeCompatibilityAndNonLocalFacts(result, body.result);
          }
        }
        return;
      }
      AnalyzeOwn(n, spell);
      if n.kind.TopN? || n.kind.OrderBy? || n.kind.Limit? {
        if n.children != [] {
          AnalyzeNode(n.children[0], spell);
        }
        return;
      }
      ghost var own := result;
      var i := 0;
      while i < |n.children|
        invariant i <= |n.children| && result == AnalyzedAll(n.children[..i], own, spell)
      {
        assert n.children[..i + 1][..i] == n.children[..i];
        AnalyzeNode(n.children[i], spell);
        i := i + 1;
      }
      assert n.children[..|n.children|] == n.children;
    }
  }

  // ---- what always holds of an analysis ----

  predicate DistinctNames(ps: seq<Partition>) {
    forall i, j :: 0 <= i < j < |ps| ==> ps[i].name != ps[j].name
  }

  /** A plan is incompatible exactly when a blocking construct was found. */
  predicate ExactlyBlocked(r: PlanAnalysis) {
    !r.compatible <==> r.found * BLOCKING != {}
  }

  const OF_AGGREGATES: set<Finding> := {Minmax, ListFound, FilteredList, CountDistinct, GroupingSets, NestedAggregate}
  const OF_JOINS: set<Finding> := {LeftJoinFound, SemiAntiJoin, SingleJoinFound, DelimJoin}

  /** Special findings come with the general ones. */
  predicate Implied(found: set<Finding>) {
    && (found * OF_AGGREGATES != {} ==> Aggregation in found)
    && (FullOuter in found ==> LeftJoinFound in found)
    && (found * OF_JOINS != {} ==> JoinFound in found)
    && (UnionDistinct in found ==> DistinctFound in found)
  }

  predicate Coherent(r: PlanAnalysis) {
    && ExactlyBlocked(r) && Implied(r.found)
    && (r.aggregateTypes != [] || r.groupIndex.Some? ==> Aggregation in r.found)
    && (r.partitions != [] ==> WindowFound in r.found) && DistinctNames(r.partitions)
  }

  /** What was found stays found, and the outermost aggregate stays the one that is described. */
  predicate Grows(r: PlanAnalysis, s: PlanAnalysis) {
    && (s.compatible ==> r.compatible)
    && r.found <= s.found
    && (r.groupIndex.Some? ==> s.groupIndex == r.groupIndex && s.groupCount == r.groupCount
                               && s.aggregateTypes == r.aggregateTypes)
  }

  predicate Onward(r: PlanAnalysis, s: PlanAnalysis) {
    Coherent(s) && Grows(r, s)
  }

  lemma OnwardThrough(a: PlanAnalysis, b: PlanAnalysis, c: PlanAnalysis)
    requires Onward(a, b) && Onward(b, c)
    ensures Onward(a, c)
  {
    hide Coherent;
  }

  /** What has to be found already before a special finding may be added. */
  predicate Admits(found: set<Finding>, what: Finding) {
    && (what in OF_AGGREGATES ==> Aggregation in found)
    && (what in OF_JOINS ==> JoinFound in found)
    && (what == FullOuter ==> LeftJoinFound in found)
    && (what == UnionDistinct ==> DistinctFound in found)
  }

  lemma Meets(found: set<Finding>, what: Finding, special: set<Finding>)
    ensures (found + {what}) * special != {} <==> found * special != {} || what in special
  {
    if what in special {
      assert what in (found + {what}) * special;
    } else {
      assert (found + {what}) * special == found * special;
    }
  }

  lemma ImpliedGrows(found: set<Finding>, what: Finding)
    requires Implied(found) && Admits(found, what)
    ensures Implied(found + {what})
  {
    Meets(found, what, OF_AGGREGATES);
    Meets(found, what, OF_JOINS);
  }

  lemma NoteOn(r: PlanAnalysis, when: bool, what: Finding)
    requires Coherent(r) && what !in BLOCKING && (when ==> Admits(r.found, what))
    ensures Onward(r, Note(r, when, what))
  {
    hide Implied, Admits;
    if when {
      ImpliedGrows(r.found, what);
      Meets(r.found, what, BLOCKING);
    }
  }

  lemma BlockOn(r: PlanAnalysis, when: bool, what: Finding)
    requires Coherent(r) && what in BLOCKING
    ensures Onward(r, Block(r, when, what))
  {
    hide Implied;
    if when {
      ImpliedGrows(r.found, what);
      Meets(r.found, what, BLOCKING);
    }
  }

  predicate InAggregate(r: PlanAnalysis, s: PlanAnalysis) {
    Onward(r, s) && Aggregation in s.found && s.groupIndex == r.groupIndex && s.aggregateTypes == r.aggregateTypes
  }

  lemma CallBlocksOn(f: AggFunction, distinct: bool, filtered: bool, nested: bool, r: PlanAnalysis) returns (s: PlanAnalysis)
    requires Coherent(r) && Aggregation in r.found
    ensures InAggregate(r, s)
    ensures s == Block(Note(Note(Block(r, f.Unsupported? || (f.First? && !nested), UnsupportedAggregate), distinct, CountDistinct),
                            filtered && f.List?, FilteredList),
                       filtered && !f.List?, UnsupportedFilteredAggregate)
  {
    hide Coherent, IsMinmax;
    BlockOn(r, f.Unsupported? || (f.First? && !nested), UnsupportedAggregate);
    var r1 := Block(r, f.Unsupported? || (f.First? && !nested), UnsupportedAggregate);
    NoteOn(r1, distinct, CountDistinct);
    var r2 := Note(r1, distinct, CountDistinct);
    NoteOn(r2, filtered && f.List?, FilteredList);
    var r3 := Note(r2, filtered && f.List?, FilteredList);
    BlockOn(r3, filtered && !f.List?, UnsupportedFilteredAggregate);
    s := Block(r3, filtered && !f.List?, UnsupportedFilteredAggregate);
  }

  lemma CallNotesOn(f: AggFunction, r: PlanAnalysis) returns (s: PlanAnalysis)
    requires Coherent(r) && Aggregation in r.found
    ensures InAggregate(r, s) && s == Note(Note(r, IsMinmax(f), Minmax), f.List?, ListFound)
  {
    hide Coherent, IsMinmax;
    NoteOn(r, IsMinmax(f), Minmax);
    var r1 := Note(r, IsMinmax(f), Minmax);
    NoteOn(r1, f.List?, ListFound);
    s := Note(r1, f.List?, ListFound);
  }

  lemma CallFlagsOn(f: AggFunction, distinct: bool, filtered: bool, nested: bool, r: PlanAnalysis) returns (s: PlanAnalysis)
    requires Coherent(r) && Aggregation in r.found
    ensures InAggregate(r, s)
    ensures CallFacts(AggregateCall(f, distinct, filtered), nested, r)
            == if nested then s else s.(aggregateTypes := s.aggregateTypes + [f])
  {
    hide Coherent, IsMinmax, Note, Block;
    var t := CallBlocksOn(f, distinct, filtered, nested, r);
    s := CallNotesOn(f, t);
    assert Onward(r, s) by {
      OnwardThrough(r, t, s);
    }
  }

  lemma CallOn(c: Call, nested: bool, r: PlanAnalysis)
    requires Coherent(r) && Aggregation in r.found && (nested <==> r.groupIndex.Some?)
    ensures Onward(r, CallFacts(c, nested, r))
    ensures Aggregation in CallFacts(c, nested, r).found && CallFacts(c, nested, r).groupIndex == r.groupIndex
  {
    if c.AggregateCall? {
      hide CallFacts, ExactlyBlocked, Implied;
      var s := CallFlagsOn(c.function_, c.distinct, c.filtered, nested, r);
    }
  }

  lemma {:induction false} CallsOn(calls: seq<Call>, nested: bool, r: PlanAnalysis)
    requires Coherent(r) && Aggregation in r.found && (nested <==> r.groupIndex.Some?)
    ensures Onward(r, CallsFacts(calls, nested, r))
    ensures Aggregation in CallsFacts(calls, nested, r).found && CallsFacts(calls, nested, r).groupIndex == r.groupIndex
  {
    hide Coherent, CallFacts;
    if calls != [] {
      var before := CallsFacts(calls[..|calls| - 1], nested, r);
      CallsOn(calls[..|calls| - 1], nested, r);
      CallOn(calls[|calls| - 1], nested, before);
    }
  }

  lemma AggregateOn(k: Kind, r: PlanAnalysis)
    requires k.Aggregate? && Coherent(r)
    ensures Onward(r, AggregateFacts(k, r))
  {
    hide Coherent, CallsFacts, Grows;
    var nested := r.groupIndex.Some?;
    NoteOn(r, true, Aggregation);
    var r1 := Note(r, true, Aggregation);
    NoteOn(r1, k.groupingSets > 1, GroupingSets);
    var r2 := AggregateStart(k, r);
    CallsOn(k.calls, nested, r2);
    var r3 := CallsFacts(k.calls, nested, r2);
    BlockOn(r3, k.isVolatile, VolatileExpression);
    var r4 := Block(r3, k.isVolatile, VolatileExpression);
    OnwardThrough(r, r1, r2);
    OnwardThrough(r, r2, r3);
    OnwardThrough(r, r3, r4);
    if nested {
      NoteOn(r4, true, NestedAggregate);
      OnwardThrough(r, r4, AggregateFacts(k, r));
    } else {
      DescribedOn(r, r4, k.groupCount, k.groupIndex);
    }
  }

  lemma DescribedOn(r: PlanAnalysis, s: PlanAnalysis, groupCount: nat, groupIndex: nat)
    requires Onward(r, s) && r.groupIndex.None? && Aggregation in s.found
    ensures Onward(r, s.(groupCount := groupCount, groupIndex := Some(groupIndex)))
  {
    hide Implied, ExactlyBlocked;
    var t := s.(groupCount := groupCount, groupIndex := Some(groupIndex));
    SameFindings(s, t);
  }

  lemma SameFindings(s: PlanAnalysis, t: PlanAnalysis)
    requires s.compatible == t.compatible && s.found == t.found && ExactlyBlocked(s)
    ensures ExactlyBlocked(t)
  {
  }

  lemma {:induction false} PartitionsDistinct(ps: seq<Partition>, known: seq<Partition>)
    requires DistinctNames(known)
    ensures DistinctNames(PartitionFacts(ps, known))
  {
    if ps != [] {
      PartitionsDistinct(ps[..|ps| - 1], known);
    }
  }

  lemma JoinOn(k: Kind, r: PlanAnalysis)
    requires k.Join? && Coherent(r)
    ensures Onward(r, JoinFacts(k, r))
  {
    hide Coherent;
    NoteOn(r, true, JoinFound);
    var r1 := Note(r, true, JoinFound);
    NoteOn(r1, k.operator.Asof?, AsofJoin);
    var r2 := Note(r1, k.operator.Asof?, AsofJoin);
    NoteOn(r2, k.operator.Dependent? || k.operator.Delim?, DelimJoin);
    var r3 := Note(r2, k.operator.Dependent? || k.operator.Delim?, DelimJoin);
    if k.joinType.Some? {
      JoinTypeOn(k.joinType.value, r3);
    }
  }

  lemma JoinTypeOn(t: JoinType, r: PlanAnalysis)
    requires Coherent(r) && JoinFound in r.found
    ensures Onward(r, JoinTypeFacts(t, r))
  {
    hide Coherent;
    BlockOn(r, t.OtherJoinType?, UnsupportedJoinType);
    var r1 := Block(r, t.OtherJoinType?, UnsupportedJoinType);
    NoteOn(r1, t.SingleJoin?, SingleJoinFound);
    var r2 := Note(r1, t.SingleJoin?, SingleJoinFound);
    NoteOn(r2, t.Semi? || t.Anti? || t.Mark?, SemiAntiJoin);
    var r3 := Note(r2, t.Semi? || t.Anti? || t.Mark?, SemiAntiJoin);
    NoteOn(r3, t.LeftJoin? || t.RightJoin? || t.OuterJoin?, LeftJoinFound);
    var r4 := Note(r3, t.LeftJoin? || t.RightJoin? || t.OuterJoin?, LeftJoinFound);
    NoteOn(r4, t.OuterJoin?, FullOuter);
  }

  /** Two notes or a note and a rejection in a row. */
  lemma TwoOn(r: PlanAnalysis, first: Finding, when: bool, second: Finding)
    requires Coherent(r) && first !in BLOCKING && Admits(r.found, first)
    ensures second in BLOCKING ==> Onward(r, Block(Note(r, true, first), when, second))
    ensures second !in BLOCKING && (when ==> Admits(Note(r, true, first).found, second)) ==>
              Onward(r, Note(Note(r, true, first), when, second))
  {
    hide Coherent, Admits;
    NoteOn(r, true, first);
    if second in BLOCKING {
      BlockOn(Note(r, true, first), when, second);
    } else if when ==> Admits(Note(r, true, first).found, second) {
      NoteOn(Note(r, true, first), when, second);
    }
  }

  lemma OwnCoherent(n: Operator, r: PlanAnalysis, spell: nat -> string)
    requires Coherent(r)
    ensures Onward(r, OwnFacts(n, r, spell))
  {
    hide AggregateFacts, JoinFacts, PartitionFacts, OrderColumns, Numbered, Coherent, Grows, Note, Block;
    match n.kind {
      case Unnest(v) => BlockOn(r, v, VolatileExpression);
      case Filter(v) =>
        BlockOn(r, v, VolatileExpression);
        NoteOn(Block(r, v, VolatileExpression), IsHaving(n), Having);
        OnwardThrough(r, Block(r, v, VolatileExpression), OwnFacts(n, r, spell));
      case Projection(v, u) =>
        TwoOn(r, ProjectionFound, v, VolatileExpression);
        BlockOn(Block(Note(r, true, ProjectionFound), v, VolatileExpression), u, NonFoldableUnnest);
        OnwardThrough(r, Block(Note(r, true, ProjectionFound), v, VolatileExpression), OwnFacts(n, r, spell));
      case Union(all, v) =>
        UnionOn(all, r);
        BlockOn(Note(Note(r, !all, DistinctFound), !all, UnionDistinct), v, VolatileExpression);
        OnwardThrough(r, Note(Note(r, !all, DistinctFound), !all, UnionDistinct), OwnFacts(n, r, spell));
      case Sample(seeded) => TwoOn(r, SampleFound, !seeded, VolatileExpression);
      case Distinct(v, targets, columns) =>
        TwoOn(r, DistinctFound, v, VolatileExpression);
        var r1 := Block(Note(r, true, DistinctFound), v, VolatileExpression);
        ColumnsOn(r, r1, r1.aggregateColumns + if targets != [] then targets else Numbered(columns, spell));
      case Join(_, _) => JoinOn(n.kind, r);
      case PositionalJoin => TwoOn(r, JoinFound, true, PositionalJoinFound);
      case Aggregate(_, _, _, _, _) => AggregateOn(n.kind, r);
      case Window(v, partitions) => WindowOn(v, partitions, r);
      case TopN(limit, offset, orders) => TopNOn(limit, offset, OrderColumns(orders), OrderColumns(orders) != orders, r);
      case OrderBy(orders) =>
        OnwardSelf(r);
        TopKOn(r, r, r.topK.(orders := OrderColumns(orders)));
      case Limit(limit, offset) =>
        NoteOn(r, true, TopK);
        var r1 := Note(r, true, TopK);
        SameTopK(r, true, TopK);
        TopKOn(r, r1, OwnFacts(n, r, spell).topK);
      case OtherKind => BlockOn(r, true, UnsupportedOperator);
      case _ => OnwardSelf(r);
    }
  }

  lemma SameTopK(r: PlanAnalysis, when: bool, what: Finding)
    ensures Note(r, when, what).topK == r.topK
  {
  }

  lemma ColumnsOn(r: PlanAnalysis, s: PlanAnalysis, columns: seq<string>)
    requires Onward(r, s)
    ensures Onward(r, s.(aggregateColumns := columns))
  {
    hide Implied, ExactlyBlocked;
    SameFindings(s, s.(aggregateColumns := columns));
  }

  lemma TopKOn(r: PlanAnalysis, s: PlanAnalysis, topK: TopKFacts)
    requires Onward(r, s)
    ensures Onward(r, s.(topK := topK))
  {
    hide Implied, ExactlyBlocked;
    SameFindings(s, s.(topK := topK));
  }

  lemma TopNOn(limit: nat, offset: nat, columns: seq<Order>, partial: bool, r: PlanAnalysis)
    requires Coherent(r)
    ensures Onward(r, Block(Note(r, true, TopK).(topK := TopKFacts(limit, offset, columns)), partial, UnsupportedOrderBy))
  {
    hide Coherent, Grows, Note, Block;
    NoteOn(r, true, TopK);
    var r1 := Note(r, true, TopK);
    TopKOn(r, r1, TopKFacts(limit, offset, columns));
    var r2 := r1.(topK := TopKFacts(limit, offset, columns));
    BlockOn(r2, partial, UnsupportedOrderBy);
    OnwardThrough(r, r2, Block(r2, partial, UnsupportedOrderBy));
  }

  lemma UnionOn(all: bool, r: PlanAnalysis)
    requires Coherent(r)
    ensures Onward(r, Note(Note(r, !all, DistinctFound), !all, UnionDistinct))
  {
    hide Coherent;
    NoteOn(r, !all, DistinctFound);
    NoteOn(Note(r, !all, DistinctFound), !all, UnionDistinct);
  }

  lemma WindowOn(v: bool, ps: seq<Partition>, r: PlanAnalysis)
    requires Coherent(r)
    ensures var r1 := Block(Note(r, true, WindowFound), v, VolatileExpression);
            Onward(r, r1.(partitions := PartitionFacts(ps, r1.partitions)))
  {
    hide PartitionFacts, ExactlyBlocked, Implied;
    TwoOn(r, WindowFound, v, VolatileExpression);
    var r1 := Block(Note(r, true, WindowFound), v, VolatileExpression);
    PartitionsDistinct(ps, r1.partitions);
    SameFindings(r1, r1.(partitions := PartitionFacts(ps, r1.partitions)));
  }

  lemma MeetsApart(a: set<Finding>, b: set<Finding>, passed: set<Finding>, special: set<Finding>)
    requires passed !! special
    ensures (a + (b * passed)) * special == a * special
  {
  }

  lemma MeetsWithin(a: set<Finding>, b: set<Finding>, passed: set<Finding>, special: set<Finding>)
    requires special <= passed
    ensures (a + (b * passed)) * special == a * special + b * special
  {
  }

  lemma MergeImplied(r: PlanAnalysis, body: PlanAnalysis)
    requires Implied(r.found)
    ensures Implied(MergeCompatibilityAndNonLocalFacts(r, body).found)
  {
    assert FullOuter !in NON_LOCAL && UnionDistinct !in NON_LOCAL;
    MeetsApart(r.found, body.found, NON_LOCAL, OF_AGGREGATES);
    MeetsApart(r.found, body.found, NON_LOCAL, OF_JOINS);
  }

  lemma MergeCoherent(r: PlanAnalysis, body: PlanAnalysis)
    requires Coherent(r) && Coherent(body)
    ensures Onward(r, MergeCompatibilityAndNonLocalFacts(r, body))
  {
    hide Implied;
    MergeImplied(r, body);
    MeetsWithin(r.found, body.found, NON_LOCAL, BLOCKING);
  }

  /** The analysis stays coherent, also through a CTE body that is analysed apart and merged. */
  lemma {:induction false} AnalysisCoherent(n: Operator, r: PlanAnalysis, spell: nat -> string)
    requires Coherent(r)
    ensures Onward(r, Analyzed(n, r, spell))
    decreases n, 1
  {
    hide OwnFacts, MergeCompatibilityAndNonLocalFacts, Grows, Coherent, OuterPassThrough;
    if n.kind.MaterializedCte? {
      if |n.children| >= 2 {
        var outer := Analyzed(n.children[1], r, spell);
        AnalysisCoherent(n.children[1], r, spell);
        AnalysisCoherent(n.children[0], outer, spell);
        FreshCoherent();
        AnalysisCoherent(n.children[0], FRESH, spell);
        MergeCoherent(outer, Analyzed(n.children[0], FRESH, spell));
        OnwardThrough(r, outer, Analyzed(n, r, spell));
      } else {
        OnwardSelf(r);
      }
    } else {
      var own := OwnFacts(n, r, spell);
      OwnCoherent(n, r, spell);
      if n.kind.TopN? || n.kind.OrderBy? || n.kind.Limit? {
        if n.children != [] {
          AnalysisCoherent(n.children[0], own, spell);
          OnwardThrough(r, own, Analyzed(n, r, spell));
        }
      } else {
        AnalysisAllCoherent(n.children, own, spell);
        OnwardThrough(r, own, Analyzed(n, r, spell));
      }
    }
  }

  lemma FreshCoherent()
    ensures Coherent(FRESH)
  {
  }

  lemma OnwardSelf(r: PlanAnalysis)
    requires Coherent(r)
    ensures Onward(r, r)
  {
  }

  lemma {:induction false} AnalysisAllCoherent(ns: seq<Operator>, r: PlanAnalysis, spell: nat -> string)
    requires Coherent(r)
    ensures Onward(r, AnalyzedAll(ns, r, spell))
    decreases ns, 0
  {
    hide Grows, Coherent, Analyzed;
    if ns == [] {
      OnwardSelf(r);
    } else {
      var before := AnalyzedAll(ns[..|ns| - 1], r, spell);
      AnalysisAllCoherent(ns[..|ns| - 1], r, spell);
      AnalysisCoherent(ns[|ns| - 1], before, spell);
      OnwardThrough(r, before, AnalyzedAll(ns, r, spell));
    }
  }

  // ---- an aggregate is found exactly when one is described ----

  predicate Described(r: PlanAnalysis) {
    Aggregation in r.found <==> r.groupIndex.Some?
  }

  lemma {:induction false} CallsDescribe(calls: seq<Call>, nested: bool, r: PlanAnalysis)
    ensures CallsFacts(calls, nested, r).groupIndex == r.groupIndex
    ensures Aggregation in r.found ==> Aggregation in CallsFacts(calls, nested, r).found
  {
    if calls != [] {
      CallsDescribe(calls[..|calls| - 1], nested, r);
    }
  }

  predicate SameAggregate(r: PlanAnalysis, s: PlanAnalysis) {
    (Aggregation in r.found <==> Aggregation in s.found) && r.groupIndex == s.groupIndex
  }

  lemma OthersKeepAggregate()
    ensures forall r, when, what :: what != Aggregation ==> SameAggregate(r, Note(r, when, what))
    ensures forall r, when, what :: what != Aggregation ==> SameAggregate(r, Block(r, when, what))
  {
  }

  lemma AggregateDescribed(k: Kind, r: PlanAnalysis)
    requires k.Aggregate? && Described(r)
    ensures Described(AggregateFacts(k, r))
  {
    hide CallsFacts;
    CallsDescribe(k.calls, r.groupIndex.Some?, AggregateStart(k, r));
  }

  lemma JoinDescribed(k: Kind, r: PlanAnalysis)
    requires k.Join? && Described(r)
    ensures Described(JoinFacts(k, r))
  {
    hide Note, Block;
    OthersKeepAggregate();
  }

  lemma OwnDescribed(n: Operator, r: PlanAnalysis, spell: nat -> string)
    requires Described(r)
    ensures Described(OwnFacts(n, r, spell))
  {
    hide AggregateFacts, JoinFacts, PartitionFacts, OrderColumns, Numbered, Note, Block, IsHaving;
    OthersKeepAggregate();
    if n.kind.Aggregate? {
      AggregateDescribed(n.kind, r);
    } else if n.kind.Join? {
      JoinDescribed(n.kind, r);
    }
  }

  lemma {:induction false} AnalysisDescribed(n: Operator, r: PlanAnalysis, spell: nat -> string)
    requires Described(r)
    ensures Described(Analyzed(n, r, spell))
    decreases n, 1
  {
    hide OwnFacts, OuterPassThrough;
    if n.kind.MaterializedCte? {
      if |n.children| >= 2 {
        AnalysisDescribed(n.children[1], r, spell);
        AnalysisDescribed(n.children[0], Analyzed(n.children[1], r, spell), spell);
      }
    } else {
      OwnDescribed(n, r, spell);
      if n.kind.TopN? || n.kind.OrderBy? || n.kind.Limit? {
        if n.children != [] {
          AnalysisDescribed(n.children[0], OwnFacts(n, r, spell), spell);
        }
      } else {
        AnalysisAllDescribed(n.children, OwnFacts(n, r, spell), spell);
      }
    }
  }

  lemma {:induction false} AnalysisAllDescribed(ns: seq<Operator>, r: PlanAnalysis, spell: nat -> string)
    requires Described(r)
    ensures Described(AnalyzedAll(ns, r, spell))
    decreases ns, 0
  {
    hide Analyzed;
    if ns != [] {
      AnalysisAllDescribed(ns[..|ns| - 1], r, spell);
      AnalysisDescribed(ns[|ns| - 1], AnalyzedAll(ns[..|ns| - 1], r, spell), spell);
    }
  }

  // ---- what makes a plan incompatible ----

  predicate CallBlocks(c: Call, nested: bool) {
    c.AggregateCall?
    && (c.function_.Unsupported? || (c.function_.First? && !nested) || (c.filtered && !c.function_.List?))
  }

  /** The operator rules out incremental maintenance by itself; nested says that an aggregate was visited before it. */
  predicate OwnBlocks(n: Operator, nested: bool) {
    match n.kind
    case Unnest(v) => v
    case Filter(v) => v
    case Projection(v, u) => v || u
    case Union(_, v) => v
    case Sample(seeded) => !seeded
    case Distinct(v, _, _) => v
    case Join(_, t) => t == Some(OtherJoinType)
    case Aggregate(_, calls, v, _, _) => v || exists k :: 0 <= k < |calls| && CallBlocks(calls[k], nested)
    case Window(v, _) => v
    case TopN(_, _, orders) => exists k :: 0 <= k < |orders| && orders[k].name == ""
    case OtherKind => true
    case _ => false
  }

  /** Some operator that the pass visits from n on, in the state r, blocks by itself. */
  predicate VisitedBlocks(n: Operator, r: PlanAnalysis, spell: nat -> string)
    decreases n, 1
  {
    if n.kind.MaterializedCte? then
      |n.children| >= 2
      && var outer := Analyzed(n.children[1], r, spell);
         VisitedBlocks(n.children[1], r, spell)
         || VisitedBlocks(n.children[0], if OuterPassThrough(outer) then outer else FRESH, spell)
    else if n.kind.TopN? || n.kind.OrderBy? || n.kind.Limit? then
      OwnBlocks(n, r.groupIndex.Some?)
      || (n.children != [] && VisitedBlocks(n.children[0], OwnFacts(n, r, spell), spell))
    else
      OwnBlocks(n, r.groupIndex.Some?) || AnyVisitedBlocks(n.children, OwnFacts(n, r, spell), spell)
  }

  predicate AnyVisitedBlocks(ns: seq<Operator>, r: PlanAnalysis, spell: nat -> string)
    decreases ns, 0
  {
    ns != []
    && (AnyVisitedBlocks(ns[..|ns| - 1], r, spell)
        || VisitedBlocks(ns[|ns| - 1], AnalyzedAll(ns[..|ns| - 1], r, spell), spell))
  }

  lemma {:induction false} CallsBlockExactly(calls: seq<Call>, nested: bool, r: PlanAnalysis)
    ensures CallsFacts(calls, nested, r).compatible
            <==> r.compatible && forall k :: 0 <= k < |calls| ==> !CallBlocks(calls[k], nested)
  {
    if calls != [] {
      var front, last := calls[..|calls| - 1], calls[|calls| - 1];
      CallsBlockExactly(front, nested, r);
      assert calls == front + [last];
      assert CallsFacts(calls, nested, r).compatible
             <==> CallsFacts(front, nested, r).compatible && !CallBlocks(last, nested);
    }
  }

  lemma {:induction false} OrdersAllColumns(orders: seq<Order>)
    ensures OrderColumns(orders) == orders <==> forall k :: 0 <= k < |orders| ==> orders[k].name != ""
  {
    if orders != [] && orders[0].name != "" {
      OrdersAllColumns(orders[1..]);
      assert orders == [orders[0]] + orders[1..];
    }
  }

  lemma OwnBlocksExactly(n: Operator, r: PlanAnalysis, spell: nat -> string)
    ensures OwnFacts(n, r, spell).compatible <==> r.compatible && !OwnBlocks(n, r.groupIndex.Some?)
  {
    hide CallsFacts, PartitionFacts, OrderColumns, Numbered, CallBlocks;
    if n.kind.Aggregate? {
      CallsBlockExactly(n.kind.calls, r.groupIndex.Some?, AggregateStart(n.kind, r));
    } else if n.kind.TopN? {
      OrdersAllColumns(n.kind.orders);
    }
  }

  /** For every plan and every state: incompatible exactly if it was before, or some visited operator blocks by itself. */
  lemma {:induction false} IncompatibleExactly(n: Operator, r: PlanAnalysis, spell: nat -> string)
    ensures !Analyzed(n, r, spell).compatible <==> !r.compatible || VisitedBlocks(n, r, spell)
    decreases n, 1
  {
    hide OwnFacts, OwnBlocks, OuterPassThrough, AnalyzedAll, AnyVisitedBlocks;
    if n.kind.MaterializedCte? {
      if |n.children| >= 2 {
        var outer := Analyzed(n.children[1], r, spell);
        IncompatibleExactly(n.children[1], r, spell);
        IncompatibleExactly(n.children[0], outer, spell);
        IncompatibleExactly(n.children[0], FRESH, spell);
      }
    } else {
      OwnBlocksExactly(n, r, spell);
      if n.kind.TopN? || n.kind.OrderBy? || n.kind.Limit? {
        if n.children != [] {
          IncompatibleExactly(n.children[0], OwnFacts(n, r, spell), spell);
        }
      } else {
        AllIncompatibleExactly(n.children, OwnFacts(n, r, spell), spell);
      }
    }
  }

  lemma {:induction false} AllIncompatibleExactly(ns: seq<Operator>, r: PlanAnalysis, spell: nat -> string)
    ensures !AnalyzedAll(ns, r, spell).compatible <==> !r.compatible || AnyVisitedBlocks(ns, r, spell)
    decreases ns, 0
  {
    hide Analyzed, VisitedBlocks;
    if ns != [] {
      AllIncompatibleExactly(ns[..|ns| - 1], r, spell);
      IncompatibleExactly(ns[|ns| - 1], AnalyzedAll(ns[..|ns| - 1], r, spell), spell);
    }
  }

  // ---- exactly what is found ----

  /** An aggregate call brings a finding; nested says that an aggregate was visited before. */
  predicate CallBrings(c: Call, what: Finding, nested: bool) {
    c.AggregateCall?
    && match what
       case Minmax => c.function_.Min? || c.function_.Max? || c.function_.ArgMin? || c.function_.ArgMax?
       case ListFound => c.function_.List?
       case FilteredList => c.filtered && c.function_.List?
       case CountDistinct => c.distinct
       case UnsupportedAggregate => c.function_.Unsupported? || (c.function_.First? && !nested)
       case UnsupportedFilteredAggregate => c.filtered && !c.function_.List?
       case _ => false
  }

  predicate HasCall(n: Operator, what: Finding, nested: bool) {
    n.kind.Aggregate? && exists k :: 0 <= k < |n.kind.calls| && CallBrings(n.kind.calls[k], what, nested)
  }

  predicate JoinsBy(n: Operator, types: set<JoinType>) {
    n.kind.Join? && n.kind.joinType.Some? && n.kind.joinType.value in types
  }

  predicate IsVolatileHere(n: Operator) {
    match n.kind
    case Unnest(v) => v
    case Filter(v) => v
    case Projection(v, _) => v
    case Union(_, v) => v
    case Sample(seeded) => !seeded
    case Distinct(v, _, _) => v
    case Aggregate(_, _, v, _, _) => v
    case Window(v, _) => v
    case _ => false
  }

  /** What an operator brings by itself. */
  predicate Brings(n: Operator, what: Finding, nested: bool) {
    match what
    case Aggregation => n.kind.Aggregate?
    case ProjectionFound => n.kind.Projection?
    case Having => n.kind.Filter? && n.children != [] && n.children[0].kind.Aggregate?
    case DistinctFound => n.kind.Distinct? || (n.kind.Union? && !n.kind.all)
    case UnionDistinct => n.kind.Union? && !n.kind.all
    case LeftJoinFound => JoinsBy(n, {LeftJoin, RightJoin, OuterJoin})
    case FullOuter => JoinsBy(n, {OuterJoin})
    case SemiAntiJoin => JoinsBy(n, {Semi, Anti, Mark})
    case SingleJoinFound => JoinsBy(n, {SingleJoin})
    case UnsupportedJoinType => JoinsBy(n, {OtherJoinType})
    case JoinFound => n.kind.Join? || n.kind.PositionalJoin?
    case DelimJoin => n.kind.Join? && (n.kind.operator.Dependent? || n.kind.operator.Delim?)
    case AsofJoin => n.kind.Join? && n.kind.operator.Asof?
    case PositionalJoinFound => n.kind.PositionalJoin?
    case SampleFound => n.kind.Sample?
    case WindowFound => n.kind.Window?
    case TopK => n.kind.TopN? || n.kind.Limit?
    case GroupingSets => n.kind.Aggregate? && n.kind.groupingSets > 1
    case NestedAggregate => n.kind.Aggregate? && nested
    case VolatileExpression => IsVolatileHere(n)
    case NonFoldableUnnest => n.kind.Projection? && n.kind.nonFoldableUnnest
    case UnsupportedOrderBy => n.kind.TopN? && exists k :: 0 <= k < |n.kind.orders| && n.kind.orders[k].name == ""
    case UnsupportedOperator => n.kind.OtherKind?
    case _ => HasCall(n, what, nested)
  }

  /** What a CTE body that is analysed apart passes on. */
  predicate PassedOn(what: Finding) {
    match what
    case VolatileExpression => true
    case NonFoldableUnnest => true
    case UnsupportedAggregate => true
    case UnsupportedFilteredAggregate => true
    case UnsupportedJoinType => true
    case UnsupportedOrderBy => true
    case UnsupportedOperator => true
    case AsofJoin => true
    case PositionalJoinFound => true
    case SampleFound => true
    case _ => false
  }

  /** Everything found after n, given what was found before it.  Below TOP N, ORDER BY and LIMIT only the first child is
      visited; of a CTE the query comes first, and its body goes on from there only if the query neither aggregates
      nor joins nor removes duplicates. */
  function Seen(n: Operator, before: set<Finding>): set<Finding>
    decreases n, 1
  {
    if n.kind.MaterializedCte? then
      if |n.children| < 2 then before
      else
        var query := Seen(n.children[1], before);
        if {Aggregation, DistinctFound, JoinFound} !! query then Seen(n.children[0], query)
        else query + set what | what in Seen(n.children[0], {}) && PassedOn(what)
    else
      var own := before + set what: Finding | Brings(n, what, Aggregation in before);
      if n.kind.TopN? || n.kind.OrderBy? || n.kind.Limit? then
        if n.children == [] then own else Seen(n.children[0], own)
      else SeenAll(n.children, own)
  }

  function SeenAll(ns: seq<Operator>, before: set<Finding>): set<Finding>
    decreases ns, 0
  {
    if ns == [] then before else Seen(ns[|ns| - 1], SeenAll(ns[..|ns| - 1], before))
  }

  /** Some operator visited from n on brings the finding by itself. */
  predicate VisitedBrings(n: Operator, what: Finding, before: set<Finding>)
    decreases n, 1
  {
    if n.kind.MaterializedCte? then
      |n.children| >= 2
      && var query := Seen(n.children[1], before);
         || VisitedBrings(n.children[1], what, before)
         || if {Aggregation, DistinctFound, JoinFound} !! query then VisitedBrings(n.children[0], what, query)
            else VisitedBrings(n.children[0], what, {}) && PassedOn(what)
    else
      var own := before + set w: Finding | Brings(n, w, Aggregation in before);
      || Brings(n, what, Aggregation in before)
      || if n.kind.TopN? || n.kind.OrderBy? || n.kind.Limit? then
           n.children != [] && VisitedBrings(n.children[0], what, own)
         else AnyVisitedBrings(n.children, what, own)
  }

  predicate AnyVisitedBrings(ns: seq<Operator>, what: Finding, before: set<Finding>)
    decreases ns, 0
  {
    ns != []
    && (AnyVisitedBrings(ns[..|ns| - 1], what, before)
        || VisitedBrings(ns[|ns| - 1], what, SeenAll(ns[..|ns| - 1], before)))
  }

  lemma {:induction false} SeenExactly(n: Operator, before: set<Finding>, what: Finding)
    ensures what in Seen(n, before) <==> what in before || VisitedBrings(n, what, before)
    decreases n, 1
  {
    hide Brings, SeenAll, AnyVisitedBrings, PassedOn;
    if n.kind.MaterializedCte? {
      if |n.children| >= 2 {
        SeenInCte(n, before, what);
      }
    } else {
      var own := before + set w: Finding | Brings(n, w, Aggregation in before);
      if n.kind.TopN? || n.kind.OrderBy? || n.kind.Limit? {
        if n.children != [] {
          SeenExactly(n.children[0], own, what);
        }
      } else {
        SeenAllExactly(n.children, own, what);
      }
    }
  }

  lemma {:induction false} SeenInCte(n: Operator, before: set<Finding>, what: Finding)
    requires n.kind.MaterializedCte? && |n.children| >= 2
    ensures what in Seen(n, before) <==> what in before || VisitedBrings(n, what, before)
    decreases n, 0
  {
    hide Brings, SeenAll, AnyVisitedBrings, PassedOn;
    var query := Seen(n.children[1], before);
    SeenExactly(n.children[1], before, what);
    if {Aggregation, DistinctFound, JoinFound} !! query {
      SeenExactly(n.children[0], query, what);
    } else {
      SeenExactly(n.children[0], {}, what);
    }
  }

  lemma {:induction false} SeenAllExactly(ns: seq<Operator>, before: set<Finding>, what: Finding)
    ensures what in SeenAll(ns, before) <==> what in before || AnyVisitedBrings(ns, what, before)
    decreases ns, 0
  {
    hide Seen, VisitedBrings;
    if ns != [] {
      SeenAllExactly(ns[..|ns| - 1], before, what);
      SeenExactly(ns[|ns| - 1], SeenAll(ns[..|ns| - 1], before), what);
    }
  }

  lemma FlagsFound(what: Finding)
    ensures forall r, when, w :: what in Note(r, when, w).found <==> what in r.found || (when && what == w)
    ensures forall r, when, w :: what in Block(r, when, w).found <==> what in r.found || (when && what == w)
  {
  }

  lemma CallFound(c: Call, nested: bool, r: PlanAnalysis, what: Finding)
    ensures what in CallFacts(c, nested, r).found <==> what in r.found || CallBrings(c, what, nested)
  {
    hide Note, Block, CallBrings, IsMinmax;
    FlagsFound(what);
    if c.AggregateCall? {
      CallBringsOf(c, what, nested);
    } else {
      OtherBringsNothing(c, what, nested);
    }
  }

  lemma OtherBringsNothing(c: Call, what: Finding, nested: bool)
    requires c.OtherCall?
    ensures !CallBrings(c, what, nested)
  {
  }

  lemma CallBringsOf(c: Call, what: Finding, nested: bool)
    requires c.AggregateCall?
    ensures CallBrings(c, what, nested)
            <==> || (what == Minmax && IsMinmax(c.function_)) || (what == ListFound && c.function_.List?)
                 || (what == FilteredList && c.filtered && c.function_.List?) || (what == CountDistinct && c.distinct)
                 || (what == UnsupportedAggregate && (c.function_.Unsupported? || (c.function_.First? && !nested)))
                 || (what == UnsupportedFilteredAggregate && c.filtered && !c.function_.List?)
  {
  }

  lemma {:induction false} CallsFound(calls: seq<Call>, nested: bool, r: PlanAnalysis, what: Finding)
    ensures what in CallsFacts(calls, nested, r).found
            <==> what in r.found || exists k :: 0 <= k < |calls| && CallBrings(calls[k], what, nested)
  {
    hide CallFacts, CallBrings;
    if calls != [] {
      var front, last := calls[..|calls| - 1], calls[|calls| - 1];
      CallsFound(front, nested, r, what);
      CallFound(last, nested, CallsFacts(front, nested, r), what);
      assert calls == front + [last];
    }
  }

  lemma AggregateFound(n: Operator, r: PlanAnalysis, what: Finding)
    requires n.kind.Aggregate?
    ensures what in AggregateFacts(n.kind, r).found <==> what in r.found || Brings(n, what, r.groupIndex.Some?)
  {
    hide CallsFacts, CallBrings, Note, Block, Brings, HasCall;
    var nested := r.groupIndex.Some?;
    FlagsFound(what);
    CallsFound(n.kind.calls, nested, AggregateStart(n.kind, r), what);
    AggregateBrings(n, what, nested);
  }

  lemma AggregateBrings(n: Operator, what: Finding, nested: bool)
    requires n.kind.Aggregate?
    ensures Brings(n, what, nested)
            <==> || what == Aggregation || (what == GroupingSets && n.kind.groupingSets > 1)
                 || (what == VolatileExpression && n.kind.isVolatile) || (what == NestedAggregate && nested)
                 || exists k :: 0 <= k < |n.kind.calls| && CallBrings(n.kind.calls[k], what, nested)
  {
    hide CallBrings;
    if HasCall(n, what, nested) {
      CalledFindings(n, what, nested);
    }
  }

  /** The findings that calls bring. */
  lemma CalledFindings(n: Operator, what: Finding, nested: bool)
    requires HasCall(n, what, nested)
    ensures what in {Minmax, ListFound, FilteredList, CountDistinct, UnsupportedAggregate, UnsupportedFilteredAggregate}
  {
  }

  lemma JoinOwnFound(n: Operator, r: PlanAnalysis, nested: bool, what: Finding)
    requires n.kind.Join?
    ensures what in JoinFacts(n.kind, r).found <==> what in r.found || Brings(n, what, nested)
  {
    hide Note, Block, Brings;
    FlagsFound(what);
    JoinBrings(n, what, nested);
  }

  lemma JoinBrings(n: Operator, what: Finding, nested: bool)
    requires n.kind.Join?
    ensures Brings(n, what, nested)
            <==> || what == JoinFound || (what == AsofJoin && n.kind.operator.Asof?)
                 || (what == DelimJoin && (n.kind.operator.Dependent? || n.kind.operator.Delim?))
                 || (n.kind.joinType.Some? && TypeBrings(n.kind.joinType.value, what))
  {
  }

  predicate TypeBrings(t: JoinType, what: Finding) {
    || (what == UnsupportedJoinType && t.OtherJoinType?) || (what == SingleJoinFound && t.SingleJoin?)
    || (what == SemiAntiJoin && (t.Semi? || t.Anti? || t.Mark?))
    || (what == LeftJoinFound && (t.LeftJoin? || t.RightJoin? || t.OuterJoin?)) || (what == FullOuter && t.OuterJoin?)
  }

  lemma CallsOnlyInAggregates(n: Operator, what: Finding, nested: bool)
    ensures HasCall(n, what, nested) ==> n.kind.Aggregate?
  {
  }

  /** What the other operators bring. */
  lemma OthersBring(n: Operator, what: Finding, nested: bool)
    requires !n.kind.Aggregate? && !n.kind.Join?
    ensures Brings(n, what, nested)
            <==> || (what == VolatileExpression && IsVolatileHere(n))
                 || (what == Having && IsHaving(n))
                 || (n.kind.Projection? && (what == ProjectionFound || (what == NonFoldableUnnest && n.kind.nonFoldableUnnest)))
                 || (n.kind.Union? && !n.kind.all && (what == DistinctFound || what == UnionDistinct))
                 || (what == DistinctFound && n.kind.Distinct?)
                 || (n.kind.PositionalJoin? && (what == JoinFound || what == PositionalJoinFound))
                 || (what == SampleFound && n.kind.Sample?) || (what == WindowFound && n.kind.Window?)
                 || (what == TopK && (n.kind.TopN? || n.kind.Limit?))
                 || (what == UnsupportedOrderBy && n.kind.TopN? && OrderColumns(n.kind.orders) != n.kind.orders)
                 || (what == UnsupportedOperator && n.kind.OtherKind?)
  {
    hide OrderColumns, IsVolatileHere, HasCall;
    CallsOnlyInAggregates(n, what, nested);
    if n.kind.TopN? {
      OrdersAllColumns(n.kind.orders);
    }
  }

  lemma OthersFound(n: Operator, r: PlanAnalysis, spell: nat -> string, what: Finding)
    requires !n.kind.Aggregate? && !n.kind.Join?
    ensures what in OwnFacts(n, r, spell).found <==> what in r.found || Brings(n, what, r.groupIndex.Some?)
  {
    hide AggregateFacts, JoinFacts, PartitionFacts, OrderColumns, Numbered, Note, Block, Brings, IsHaving;
    FlagsFound(what);
    OthersBring(n, what, r.groupIndex.Some?);
    HavingIsFilter(n);
  }

  lemma HavingIsFilter(n: Operator)
    ensures IsHaving(n) ==> n.kind.Filter?
  {
  }

  lemma OwnFound(n: Operator, r: PlanAnalysis, spell: nat -> string, what: Finding)
    ensures what in OwnFacts(n, r, spell).found <==> what in r.found || Brings(n, what, r.groupIndex.Some?)
  {
    hide AggregateFacts, JoinFacts, Brings;
    if n.kind.Aggregate? {
      AggregateFound(n, r, what);
    } else if n.kind.Join? {
      JoinOwnFound(n, r, r.groupIndex.Some?, what);
    } else {
      OthersFound(n, r, spell, what);
    }
  }

  lemma OwnSeen(n: Operator, r: PlanAnalysis, spell: nat -> string)
    requires !n.kind.MaterializedCte? && Described(r)
    ensures OwnFacts(n, r, spell).found == r.found + set what: Finding | Brings(n, what, Aggregation in r.found)
  {
    hide OwnFacts, Brings;
    forall what
      ensures what in OwnFacts(n, r, spell).found <==> what in r.found || Brings(n, what, Aggregation in r.found)
    {
      OwnFound(n, r, spell, what);
    }
  }

  lemma MergeSeen(r: PlanAnalysis, body: PlanAnalysis)
    ensures MergeCompatibilityAndNonLocalFacts(r, body).found == r.found + set what | what in body.found && PassedOn(what)
  {
    forall what: Finding
      ensures what in NON_LOCAL <==> PassedOn(what)
    {
    }
  }

  lemma {:induction false} AnalysisSees(n: Operator, r: PlanAnalysis, spell: nat -> string)
    requires Described(r)
    ensures Analyzed(n, r, spell).found == Seen(n, r.found)
    decreases n, 1
  {
    hide OwnFacts, Brings, MergeCompatibilityAndNonLocalFacts, PassedOn, AnalyzedAll, SeenAll;
    if n.kind.MaterializedCte? {
      if |n.children| >= 2 {
        var query := Analyzed(n.children[1], r, spell);
        AnalysisSees(n.children[1], r, spell);
        AnalysisDescribed(n.children[1], r, spell);
        if OuterPassThrough(query) {
          AnalysisSees(n.children[0], query, spell);
        } else {
          AnalysisSees(n.children[0], FRESH, spell);
          MergeSeen(query, Analyzed(n.children[0], FRESH, spell));
        }
      }
    } else {
      OwnSeen(n, r, spell);
      OwnDescribed(n, r, spell);
      if n.kind.TopN? || n.kind.OrderBy? || n.kind.Limit? {
        if n.children != [] {
          AnalysisSees(n.children[0], OwnFacts(n, r, spell), spell);
        }
      } else {
        AnalysisAllSees(n.children, OwnFacts(n, r, spell), spell);
      }
    }
  }

  lemma {:induction false} AnalysisAllSees(ns: seq<Operator>, r: PlanAnalysis, spell: nat -> string)
    requires Described(r)
    ensures AnalyzedAll(ns, r, spell).found == SeenAll(ns, r.found)
    decreases ns, 0
  {
    hide Analyzed, Seen;
    if ns != [] {
      AnalysisAllSees(ns[..|ns| - 1], r, spell);
      AnalysisAllDescribed(ns[..|ns| - 1], r, spell);
      AnalysisSees(ns[|ns| - 1], AnalyzedAll(ns[..|ns| - 1], r, spell), spell);
    }
  }

  /** For every plan, every finding: it is there afterwards exactly if it was before or a visited operator brings it,
      which is told from the operators alone. */
  lemma FindingsExactly(n: Operator, r: PlanAnalysis, spell: nat -> string, what: Finding)
    requires Described(r)
    ensures what in Analyzed(n, r, spell).found <==> what in r.found || VisitedBrings(n, what, r.found)
  {
    hide Analyzed, Seen, VisitedBrings, Described;
    AnalysisSees(n, r, spell);
    SeenExactly(n, r.found, what);
  }

  // ---- exactly what is recorded beside the findings ----

  /** The visited operators in their order, without those of CTE bodies that are analysed apart. */
  function Trace(n: Operator, before: set<Finding>): seq<Operator>
    decreases n, 1
  {
    if n.kind.MaterializedCte? then
      if |n.children| < 2 then []
      else
        var query := Seen(n.children[1], before);
        Trace(n.children[1], before)
        + if {Aggregation, DistinctFound, JoinFound} !! query then Trace(n.children[0], query) else []
    else
      var own := before + set what: Finding | Brings(n, what, Aggregation in before);
      if n.kind.TopN? || n.kind.OrderBy? || n.kind.Limit? then
        [n] + if n.children == [] then [] else Trace(n.children[0], own)
      else [n] + TraceAll(n.children, own)
  }

  function TraceAll(ns: seq<Operator>, before: set<Finding>): seq<Operator>
    decreases ns, 0
  {
    if ns == [] then []
    else TraceAll(ns[..|ns| - 1], before) + Trace(ns[|ns| - 1], SeenAll(ns[..|ns| - 1], before))
  }

  predicate SameDetails(a: PlanAnalysis, b: PlanAnalysis) {
    && a.topK == b.topK && a.aggregateColumns == b.aggregateColumns && a.aggregateTypes == b.aggregateTypes
    && a.partitions == b.partitions && a.groupCount == b.groupCount && a.groupIndex == b.groupIndex
  }

  /** The operators of a list one after the other. */
  function Replay(t: seq<Operator>, r: PlanAnalysis, spell: nat -> string): PlanAnalysis {
    if t == [] then r else OwnFacts(t[|t| - 1], Replay(t[..|t| - 1], r, spell), spell)
  }

  lemma {:induction false} ReplayAppend(a: seq<Operator>, b: seq<Operator>, r: PlanAnalysis, spell: nat -> string)
    ensures Replay(a + b, r, spell) == Replay(b, Replay(a, r, spell), spell)
  {
    hide OwnFacts;
    if b == [] {
      assert a + b == a;
    } else {
      assert (a + b)[..|a + b| - 1] == a + b[..|b| - 1];
      ReplayAppend(a, b[..|b| - 1], r, spell);
    }
  }

  lemma FlagsKeepDetails()
    ensures forall r, when, w :: SameDetails(Note(r, when, w), r)
    ensures forall r, when, w :: SameDetails(Block(r, when, w), r)
  {
  }

  lemma CallDetails(c: Call, nested: bool, r: PlanAnalysis)
    ensures SameDetails(CallFacts(c, nested, r),
                        if c.AggregateCall? && !nested then r.(aggregateTypes := r.aggregateTypes + [c.function_]) else r)
  {
    hide Note, Block;
    FlagsKeepDetails();
  }

  /** The functions of the aggregate calls, in order. */
  function TypesOf(calls: seq<Call>): seq<AggFunction> {
    if calls == [] then []
    else TypesOf(calls[..|calls| - 1]) + if calls[|calls| - 1].AggregateCall? then [calls[|calls| - 1].function_] else []
  }

  lemma {:induction false} CallsDetails(calls: seq<Call>, nested: bool, r: PlanAnalysis)
    ensures SameDetails(CallsFacts(calls, nested, r),
                        if nested then r else r.(aggregateTypes := r.aggregateTypes + TypesOf(calls)))
  {
    hide CallFacts;
    if calls != [] {
      var front, last := calls[..|calls| - 1], calls[|calls| - 1];
      CallsDetails(front, nested, r);
      CallDetails(last, nested, CallsFacts(front, nested, r));
    }
  }

  lemma AggregateDetails(k: Kind, r: PlanAnalysis)
    requires k.Aggregate?
    ensures SameDetails(AggregateFacts(k, r),
                        if r.groupIndex.Some? then r
                        else r.(aggregateTypes := r.aggregateTypes + TypesOf(k.calls), groupCount := k.groupCount,
                                groupIndex := Some(k.groupIndex)))
  {
    hide CallsFacts, Note, Block, TypesOf;
    FlagsKeepDetails();
    CallsDetails(k.calls, r.groupIndex.Some?, AggregateStart(k, r));
  }

  lemma JoinDetails(k: Kind, r: PlanAnalysis)
    requires k.Join?
    ensures SameDetails(JoinFacts(k, r), r)
  {
    hide Note, Block;
    FlagsKeepDetails();
  }

  /** What an operator records depends on what is recorded, not on what is found. */
  lemma OwnSame(n: Operator, a: PlanAnalysis, b: PlanAnalysis, spell: nat -> string)
    requires SameDetails(a, b)
    ensures SameDetails(OwnFacts(n, a, spell), OwnFacts(n, b, spell))
  {
    hide OwnFacts, LastLimit, LastOffset, LastOrders, DistinctKeys, PartitionFacts, TypesOf;
    OwnOrders(n, a, spell);
    OwnOrders(n, b, spell);
    OwnGroups(n, a, spell);
    OwnGroups(n, b, spell);
  }

  lemma {:induction false} ReplaySame(t: seq<Operator>, a: PlanAnalysis, b: PlanAnalysis, spell: nat -> string)
    requires SameDetails(a, b)
    ensures SameDetails(Replay(t, a, spell), Replay(t, b, spell))
  {
    hide OwnFacts, SameDetails;
    if t != [] {
      ReplaySame(t[..|t| - 1], a, b, spell);
      OwnSame(t[|t| - 1], Replay(t[..|t| - 1], a, spell), Replay(t[..|t| - 1], b, spell), spell);
    }
  }

  lemma ReplayOne(n: Operator, rest: seq<Operator>, r: PlanAnalysis, spell: nat -> string)
    ensures Replay([n] + rest, r, spell) == Replay(rest, OwnFacts(n, r, spell), spell)
  {
    hide OwnFacts;
    ReplayAppend([n], rest, r, spell);
    assert [n][..0] == [];
  }

  lemma MergeDetails(r: PlanAnalysis, body: PlanAnalysis)
    ensures SameDetails(MergeCompatibilityAndNonLocalFacts(r, body), r)
  {
  }

  lemma SameThrough(a: PlanAnalysis, b: PlanAnalysis, c: PlanAnalysis)
    requires SameDetails(a, b) && SameDetails(b, c)
    ensures SameDetails(a, c)
  {
  }

  lemma {:induction false} AnalysisReplays(n: Operator, r: PlanAnalysis, spell: nat -> string)
    requires Described(r)
    ensures SameDetails(Analyzed(n, r, spell), Replay(Trace(n, r.found), r, spell))
    decreases n, 1
  {
    hide OwnFacts, Brings, MergeCompatibilityAndNonLocalFacts, Seen, SeenAll, TraceAll, AnalyzedAll, SameDetails;
    if n.kind.MaterializedCte? {
      if |n.children| >= 2 {
        CteReplays(n, r, spell);
      } else {
        ReplayNothing(r, spell);
      }
    } else {
      var own := OwnFacts(n, r, spell);
      OwnSeen(n, r, spell);
      OwnDescribed(n, r, spell);
      if n.kind.TopN? || n.kind.OrderBy? || n.kind.Limit? {
        if n.children != [] {
          AnalysisReplays(n.children[0], own, spell);
          ReplayOne(n, Trace(n.children[0], own.found), r, spell);
        } else {
          ReplayOne(n, [], r, spell);
          ReplayNothing(own, spell);
        }
      } else {
        AnalysisAllReplays(n.children, own, spell);
        ReplayOne(n, TraceAll(n.children, own.found), r, spell);
      }
    }
  }

  lemma ReplayNothing(r: PlanAnalysis, spell: nat -> string)
    ensures Replay([], r, spell) == r && SameDetails(r, r)
  {
  }

  lemma {:induction false} CteReplays(n: Operator, r: PlanAnalysis, spell: nat -> string)
    requires Described(r) && n.kind.MaterializedCte? && |n.children| >= 2
    ensures SameDetails(Analyzed(n, r, spell), Replay(Trace(n, r.found), r, spell))
    decreases n, 0
  {
    hide OwnFacts, Brings, MergeCompatibilityAndNonLocalFacts, Seen, SeenAll, TraceAll, AnalyzedAll, SameDetails;
    var query := Analyzed(n.children[1], r, spell);
    var t := Trace(n.children[1], r.found);
    AnalysisReplays(n.children[1], r, spell);
    AnalysisDescribed(n.children[1], r, spell);
    AnalysisSees(n.children[1], r, spell);
    if OuterPassThrough(query) {
      var u := Trace(n.children[0], query.found);
      AnalysisReplays(n.children[0], query, spell);
      ReplaySame(u, query, Replay(t, r, spell), spell);
      ReplayAppend(t, u, r, spell);
      SameThrough(Analyzed(n, r, spell), Replay(u, query, spell), Replay(t + u, r, spell));
    } else {
      var body := Analyzed(n.children[0], FRESH, spell);
      MergeDetails(query, body);
      assert t + [] == t;
      SameThrough(Analyzed(n, r, spell), query, Replay(t, r, spell));
    }
  }

  lemma {:induction false} AnalysisAllReplays(ns: seq<Operator>, r: PlanAnalysis, spell: nat -> string)
    requires Described(r)
    ensures SameDetails(AnalyzedAll(ns, r, spell), Replay(TraceAll(ns, r.found), r, spell))
    decreases ns, 0
  {
    hide Analyzed, Seen, Trace, SameDetails, OwnFacts;
    if ns == [] {
      ReplayNothing(r, spell);
    } else {
      var front, last := ns[..|ns| - 1], ns[|ns| - 1];
      var before := AnalyzedAll(front, r, spell);
      AnalysisAllReplays(front, r, spell);
      AnalysisAllDescribed(front, r, spell);
      AnalysisAllSees(front, r, spell);
      AnalysisReplays(last, before, spell);
      var t, u := TraceAll(front, r.found), Trace(last, before.found);
      ReplaySame(u, before, Replay(t, r, spell), spell);
      ReplayAppend(t, u, r, spell);
      SameThrough(AnalyzedAll(ns, r, spell), Replay(u, before, spell), Replay(t + u, r, spell));
    }
  }

  // ---- the details of a list of operators ----

  /** The limit of the last operator that has one. */
  function LastLimit(t: seq<Operator>, start: nat): nat {
    if t == [] then start
    else
      match t[|t| - 1].kind
      case TopN(limit, _, _) => limit
      case Limit(Some(limit), _) => limit
      case _ => LastLimit(t[..|t| - 1], start)
  }

  /** The offset of the last operator that has one. */
  function LastOffset(t: seq<Operator>, start: nat): nat {
    if t == [] then start
    else
      match t[|t| - 1].kind
      case TopN(_, offset, _) => offset
      case Limit(_, Some(offset)) => offset
      case _ => LastOffset(t[..|t| - 1], start)
  }

  /** The order columns: those of the last TOP N, or of an ORDER BY that finds none. */
  function LastOrders(t: seq<Operator>, start: seq<Order>): seq<Order> {
    if t == [] then start
    else
      var before := LastOrders(t[..|t| - 1], start);
      match t[|t| - 1].kind
      case TopN(_, _, orders) => OrderColumns(orders)
      case OrderBy(orders) => if before == [] then OrderColumns(orders) else before
      case _ => before
  }

  /** The keys of all DISTINCT operators, one after the other. */
  function DistinctKeys(t: seq<Operator>, spell: nat -> string): seq<string> {
    if t == [] then []
    else
      DistinctKeys(t[..|t| - 1], spell)
      + match t[|t| - 1].kind
        case Distinct(_, targets, columns) =>
          if targets != [] then targets else seq(columns, i requires 0 <= i < columns => "col" + spell(i))
        case _ => []
  }

  /** The first of some operators that aggregates. */
  function FirstAggregate(t: seq<Operator>): Option<Operator> {
    if t == [] then None else if t[0].kind.Aggregate? then Some(t[0]) else FirstAggregate(t[1..])
  }

  predicate PartitionsBy(t: seq<Operator>, name: string) {
    exists k, j :: 0 <= k < |t| && t[k].kind.Window? && 0 <= j < |t[k].kind.partitions| && t[k].kind.partitions[j].name == name
  }

  lemma OwnOrders(n: Operator, r: PlanAnalysis, spell: nat -> string)
    ensures var s := OwnFacts(n, r, spell);
            && s.topK == TopKFacts(LastLimit([n], r.topK.limit), LastOffset([n], r.topK.offset), LastOrders([n], r.topK.orders))
            && s.aggregateColumns == r.aggregateColumns + DistinctKeys([n], spell)
  {
    hide AggregateFacts, JoinFacts, PartitionFacts, OrderColumns, Note, Block, IsHaving, TypesOf;
    assert [n][..0] == [];
    FlagsKeepDetails();
    if n.kind.Aggregate? {
      AggregateDetails(n.kind, r);
    } else if n.kind.Join? {
      JoinDetails(n.kind, r);
    }
  }

  lemma OwnGroups(n: Operator, r: PlanAnalysis, spell: nat -> string)
    ensures var s := OwnFacts(n, r, spell);
            && s.partitions == (if n.kind.Window? then PartitionFacts(n.kind.partitions, r.partitions) else r.partitions)
            && (r.groupIndex.Some? || !n.kind.Aggregate? ==>
                  s.groupIndex == r.groupIndex && s.groupCount == r.groupCount && s.aggregateTypes == r.aggregateTypes)
            && (r.groupIndex.None? && n.kind.Aggregate? ==>
                  s.groupIndex == Some(n.kind.groupIndex) && s.groupCount == n.kind.groupCount
                  && s.aggregateTypes == r.aggregateTypes + TypesOf(n.kind.calls))
  {
    hide AggregateFacts, JoinFacts, PartitionFacts, OrderColumns, Numbered, Note, Block, IsHaving, TypesOf;
    FlagsKeepDetails();
    if n.kind.Aggregate? {
      AggregateDetails(n.kind, r);
    } else if n.kind.Join? {
      JoinDetails(n.kind, r);
    }
  }

  lemma {:induction false} ReplayOrders(t: seq<Operator>, r: PlanAnalysis, spell: nat -> string)
    ensures var s := Replay(t, r, spell);
            && s.topK == TopKFacts(LastLimit(t, r.topK.limit), LastOffset(t, r.topK.offset), LastOrders(t, r.topK.orders))
            && s.aggregateColumns == r.aggregateColumns + DistinctKeys(t, spell)
  {
    hide OwnFacts, OrderColumns, PartitionFacts, TypesOf;
    if t != [] {
      var front, last := t[..|t| - 1], t[|t| - 1];
      ReplayOrders(front, r, spell);
      OwnOrders(last, Replay(front, r, spell), spell);
      assert [last][..0] == [];
    }
  }

  lemma {:induction false} FirstAggregateAppend(t: seq<Operator>, n: Operator)
    ensures FirstAggregate(t + [n])
            == if FirstAggregate(t).Some? then FirstAggregate(t) else if n.kind.Aggregate? then Some(n) else None
  {
    if t == [] {
      assert [n][1..] == [];
    } else {
      assert (t + [n])[1..] == t[1..] + [n];
      FirstAggregateAppend(t[1..], n);
    }
  }

  lemma {:induction false} FirstAggregates(t: seq<Operator>)
    ensures FirstAggregate(t).Some? ==> FirstAggregate(t).value.kind.Aggregate?
  {
    if t != [] {
      FirstAggregates(t[1..]);
    }
  }

  /** The analysis after s describes the aggregate that is the first in t, unless one was described before. */
  predicate DescribesFirst(r: PlanAnalysis, s: PlanAnalysis, first: Option<Operator>) {
    if r.groupIndex.None? && first.Some? then
      && first.value.kind.Aggregate?
      && s.groupIndex == Some(first.value.kind.groupIndex) && s.groupCount == first.value.kind.groupCount
      && s.aggregateTypes == r.aggregateTypes + TypesOf(first.value.kind.calls)
    else s.groupIndex == r.groupIndex && s.groupCount == r.groupCount && s.aggregateTypes == r.aggregateTypes
  }

  lemma {:induction false} ReplayAggregate(t: seq<Operator>, r: PlanAnalysis, spell: nat -> string)
    ensures DescribesFirst(r, Replay(t, r, spell), FirstAggregate(t))
  {
    hide OwnFacts, PartitionFacts, TypesOf, LastLimit, LastOffset, LastOrders, DistinctKeys;
    if t != [] {
      var front, last := t[..|t| - 1], t[|t| - 1];
      ReplayAggregate(front, r, spell);
      FirstAggregateAppend(front, last);
      FirstAggregates(front);
      assert front + [last] == t;
      OwnGroups(last, Replay(front, r, spell), spell);
    }
  }

  lemma {:induction false} PartitionNames(ps: seq<Partition>, known: seq<Partition>, name: string)
    ensures HasPartition(PartitionFacts(ps, known), name) <==> HasPartition(known, name) || HasPartition(ps, name)
    ensures known <= PartitionFacts(ps, known)
  {
    if ps != [] {
      var front, p := ps[..|ps| - 1], ps[|ps| - 1];
      PartitionNames(front, known, name);
      HasPartitionAppend(front, p, name);
      assert front + [p] == ps;
      HasPartitionAppend(PartitionFacts(front, known), p, name);
    }
  }

  lemma HasPartitionAppend(ps: seq<Partition>, p: Partition, name: string)
    ensures HasPartition(ps + [p], name) <==> HasPartition(ps, name) || p.name == name
  {
    var all := ps + [p];
    if i :| 0 <= i < |ps| && ps[i].name == name {
      assert all[i] == ps[i];
    }
    if p.name == name {
      assert all[|ps|] == p;
    }
  }

  lemma PartitionsByAppend(t: seq<Operator>, n: Operator, name: string)
    ensures PartitionsBy(t + [n], name)
            <==> PartitionsBy(t, name) || (n.kind.Window? && HasPartition(n.kind.partitions, name))
  {
    var all := t + [n];
    if k, j :| 0 <= k < |t| && t[k].kind.Window? && 0 <= j < |t[k].kind.partitions| && t[k].kind.partitions[j].name == name {
      assert all[k] == t[k];
    }
    if n.kind.Window? && HasPartition(n.kind.partitions, name) {
      var j :| 0 <= j < |n.kind.partitions| && n.kind.partitions[j].name == name;
      assert all[|t|].kind.partitions[j].name == name;
    }
  }

  lemma {:induction false} ReplayPartitions(t: seq<Operator>, r: PlanAnalysis, spell: nat -> string, name: string)
    ensures HasPartition(Replay(t, r, spell).partitions, name) <==> HasPartition(r.partitions, name) || PartitionsBy(t, name)
    ensures r.partitions <= Replay(t, r, spell).partitions
  {
    hide OwnFacts, PartitionFacts, TypesOf, LastLimit, LastOffset, LastOrders, DistinctKeys, PartitionsBy, HasPartition;
    if t == [] {
      NoPartitions(name);
    } else {
      var front, last := t[..|t| - 1], t[|t| - 1];
      ReplayPartitions(front, r, spell, name);
      PartitionsByAppend(front, last, name);
      assert front + [last] == t;
      OwnGroups(last, Replay(front, r, spell), spell);
      if last.kind.Window? {
        PartitionNames(last.kind.partitions, Replay(front, r, spell).partitions, name);
      }
    }
  }

  lemma NoPartitions(name: string)
    ensures !PartitionsBy([], name)
  {
  }

  lemma {:induction false} OrderColumnsExactly(orders: seq<Order>)
    ensures var columns := OrderColumns(orders);
            && columns <= orders && (forall c :: c in columns ==> c.name != "")
            && (columns != orders ==> orders[|columns|].name == "")
  {
    if orders != [] && orders[0].name != "" {
      OrderColumnsExactly(orders[1..]);
      assert orders == [orders[0]] + orders[1..];
    }
  }

  /** For every plan, what is recorded beside the findings: limit and offset of the last operator that has one, the
      order columns, the keys of every DISTINCT, the first aggregate visited - its place, its number of groups and its
      functions - and every name a window partitions by, once. */
  lemma DetailsExactly(n: Operator, r: PlanAnalysis, spell: nat -> string)
    requires Described(r)
    ensures var s, t := Analyzed(n, r, spell), Trace(n, r.found);
            && s.topK.limit == LastLimit(t, r.topK.limit) && s.topK.offset == LastOffset(t, r.topK.offset)
            && s.topK.orders == LastOrders(t, r.topK.orders)
            && s.aggregateColumns == r.aggregateColumns + DistinctKeys(t, spell)
            && DescribesFirst(r, s, FirstAggregate(t))
            && r.partitions <= s.partitions
            && forall name :: HasPartition(s.partitions, name) <==> HasPartition(r.partitions, name) || PartitionsBy(t, name)
  {
    hide Analyzed, Trace, Replay, LastLimit, LastOffset, LastOrders, DistinctKeys, TypesOf, FirstAggregate, PartitionsBy,
         HasPartition, Described;
    var t := Trace(n, r.found);
    AnalysisReplays(n, r, spell);
    ReplayOrders(t, r, spell);
    ReplayAggregate(t, r, spell);
    forall name
      ensures HasPartition(Replay(t, r, spell).partitions, name) <==> HasPartition(r.partitions, name) || PartitionsBy(t, name)
    {
      ReplayPartitions(t, r, spell, name);
    }
    ReplayPartitions(t, r, spell, "");
  }

  // ---- every analysis ----

  /** An analysis that the pass can make. */
  predicate Consistent(r: PlanAnalysis) {
    Coherent(r) && Described(r)
  }

  lemma FreshConsistent()
    ensures Consistent(FRESH)
  {
    FreshCoherent();
  }

  /** Merging the analysis of a CTE body keeps the analysis consistent and loses nothing. */
  lemma MergeConsistent(r: PlanAnalysis, body: PlanAnalysis)
    requires Consistent(r) && Consistent(body)
    ensures Consistent(MergeCompatibilityAndNonLocalFacts(r, body)) && Grows(r, MergeCompatibilityAndNonLocalFacts(r, body))
  {
    hide Coherent, Grows, MergeCompatibilityAndNonLocalFacts;
    MergeCoherent(r, body);
    MergeDescribed(r, body);
  }

  lemma MergeDescribed(r: PlanAnalysis, body: PlanAnalysis)
    requires Described(r)
    ensures Described(MergeCompatibilityAndNonLocalFacts(r, body))
  {
  }

  /** For every plan: the analysis stays consistent, nothing found is ever lost, the plan is incompatible exactly if some
      visited operator blocks by itself, and a finding is new exactly if some visited operator brings it. */
  lemma AnalysisConsistent(n: Operator, r: PlanAnalysis, spell: nat -> string)
    requires Consistent(r)
    ensures Consistent(Analyzed(n, r, spell)) && Grows(r, Analyzed(n, r, spell))
    ensures !Analyzed(n, r, spell).compatible <==> !r.compatible || VisitedBlocks(n, r, spell)
    ensures forall what :: what in Analyzed(n, r, spell).found <==> what in r.found || VisitedBrings(n, what, r.found)
  {
    hide Coherent, Grows, Analyzed, VisitedBlocks, VisitedBrings, Described;
    AnalysisCoherent(n, r, spell);
    AnalysisDescribed(n, r, spell);
    IncompatibleExactly(n, r, spell);
    forall what
      ensures what in Analyzed(n, r, spell).found <==> what in r.found || VisitedBrings(n, what, r.found)
    {
      FindingsExactly(n, r, spell, what);
    }
  }

  /** The plan facts the create path starts from. */
  method AnalyzePlan(plan: Operator, spell: nat -> string) returns (r: PlanAnalysis)
    ensures r == Analyzed(plan, FRESH, spell)
    ensures Consistent(r) && (!r.compatible <==> VisitedBlocks(plan, FRESH, spell))
    ensures forall what :: what in r.found <==> VisitedBrings(plan, what, {})
    ensures r.topK == TopKFacts(LastLimit(Trace(plan, {}), 0), LastOffset(Trace(plan, {}), 0), LastOrders(Trace(plan, {}), []))
    ensures DescribesFirst(FRESH, r, FirstAggregate(Trace(plan, {}))) && r.aggregateColumns == DistinctKeys(Trace(plan, {}), spell)
    ensures forall name :: HasPartition(r.partitions, name) <==> PartitionsBy(Trace(plan, {}), name)
  {
    hide Analyzed, VisitedBlocks, VisitedBrings, Trace, LastLimit, LastOffset, LastOrders, FirstAggregate, DistinctKeys,
         PartitionsBy, TypesOf, Coherent;
    var analyzer := new PlanAnalyzer();
    analyzer.AnalyzeNode(plan, spell);
    FreshConsistent();
    AnalysisConsistent(plan, FRESH, spell);
    DetailsExactly(plan, FRESH, spell);
    r := analyzer.result;
  }
}
