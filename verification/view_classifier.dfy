/** How the classifier decides what kind of refresh a view gets, and why some views get a full refresh. */
module ViewClassifier {
  import opened SqlValues
  import opened IncrementalChecker

  datatype Reason =
    | SetOperationReason | PivotReason | FunctionReason | UnnestReason | AggregateReason | FilteredAggregateReason
    | JoinTypeReason | OrderByReason | OperatorReason | GroupingSetsNoKeys | FilteredListNoKeys
    | SemiAntiWithAggregate | SemiAntiMissingAux | UnrecognizedPattern

  datatype Feature =
    | Linear | Bilinear | OuterJoinStateful | AggregateLinear | AggregateNonLinear | AggregateHavingFeature
    | CountDistinctStateful | FilteredListStateful | GroupingSetsStateful | DistinctStateful
    | WindowAffectedPartition | SemiAntiStateful | AsofStateful | SampleGlobalRecompute
    | PositionalGlobalRecompute | CurrentDiffRecomputeFeature | FullOnlyFeature

  datatype StrategyReason = AsofCurrentDiff | SampleCurrentDiff | PositionalCurrentDiff | OtherStrategy(name: string)

  datatype RefreshType =
    | FullRefresh | CurrentDiffRecompute | WindowPartition | GroupRecompute | SemiAntiRecompute
    | DistinctIncremental | AggregateGroup | AggregateHaving | SimpleAggregate | SimpleProjection

  /** What the create path hands to the classifier.  The aux candidates carry the name of their aux table. */
  datatype Input = Input(
    analysis: PlanAnalysis,
    unsupportedSetOperation: bool, pivot: bool, unsupportedConstruct: bool,
    distinctAux: Option<string>, filteredGroupAux: Option<string>, semiAntiAux: Option<string>,
    hiddenMinmaxHaving: bool, computedMinmaxProjection: bool)

  /** What the column steps of the builder have worked out before the decision. */
  datatype Shape = Shape(
    groupColumns: seq<string>, windowPartitionColumns: seq<string>, distinctAtTop: bool, unionDistinctOverAgg: bool,
    strategyReasons: seq<StrategyReason>)

  /** The create path raises the construct flag for set operations and pivots, and for nothing else. */
  predicate FromParser(i: Input) {
    i.unsupportedConstruct <==> i.unsupportedSetOperation || i.pivot
  }

  // ---- names without case ----

  function LowerChar(c: char): char {
    if 'A' <= c <= 'Z' then (c as int + 32) as char else c
  }

  function Lower(s: string): (r: string)
    ensures |r| == |s|
  {
    seq(|s|, i requires 0 <= i < |s| => LowerChar(s[i]))
  }

  predicate CIEquals(a: string, b: string) {
    Lower(a) == Lower(b)
  }

  /** All the DISTINCT columns are put out by the view. */
  predicate IsDistinctAtTop(a: PlanAnalysis, outputNames: seq<string>) {
    && DistinctFound in a.found && a.aggregateColumns != [] && outputNames != []
    && forall i :: 0 <= i < |a.aggregateColumns| ==>
         exists j :: 0 <= j < |outputNames| && CIEquals(outputNames[j], a.aggregateColumns[i])
  }

  // ---- reasons and features ----

  predicate SemiAntiOnly(a: PlanAnalysis) {
    SemiAntiJoin in a.found && Aggregation !in a.found
  }

  predicate SemiAntiAggregate(a: PlanAnalysis) {
    SemiAntiJoin in a.found && Aggregation in a.found
  }

  /** A reason that does not come from a blocking operator but from missing keys or a missing aux table. */
  predicate Keyless(r: Reason, i: Input, s: Shape) {
    var a := i.analysis;
    match r
    case GroupingSetsNoKeys => GroupingSets in a.found && s.groupColumns == []
    case FilteredListNoKeys => FilteredList in a.found && s.groupColumns == []
    case SemiAntiWithAggregate => SemiAntiAggregate(a) && s.groupColumns == []
    case SemiAntiMissingAux => SemiAntiOnly(a) && i.semiAntiAux.None?
    case _ => false
  }

  predicate ReasonHolds(r: Reason, i: Input, s: Shape) {
    var a := i.analysis;
    match r
    case SetOperationReason => i.unsupportedSetOperation
    case PivotReason => i.pivot
    case FunctionReason => VolatileExpression in a.found
    case UnnestReason => NonFoldableUnnest in a.found
    case AggregateReason => UnsupportedAggregate in a.found
    case FilteredAggregateReason => UnsupportedFilteredAggregate in a.found
    case JoinTypeReason => UnsupportedJoinType in a.found
    case OrderByReason => UnsupportedOrderBy in a.found
    case OperatorReason => UnsupportedOperator in a.found
    case UnrecognizedPattern => false
    case _ => Keyless(r, i, s)
  }

  predicate AnyReason(i: Input, s: Shape) {
    exists r :: ReasonHolds(r, i, s)
  }

  predicate AnyKeyless(i: Input, s: Shape) {
    exists r :: Keyless(r, i, s)
  }

  predicate NonLinearAggregate(a: PlanAnalysis) {
    Minmax in a.found || CountDistinct in a.found || ListFound in a.found || FilteredList in a.found
  }

  /** Which features the model gets; full says whether there is any unsupported reason. */
  predicate FeatureHolds(f: Feature, i: Input, s: Shape, full: bool) {
    var a := i.analysis;
    match f
    case FullOnlyFeature => full
    case Linear =>
      || ProjectionFound in a.found
      || (Aggregation !in a.found && JoinFound !in a.found && WindowFound !in a.found)
    case Bilinear =>
      && JoinFound in a.found && LeftJoinFound !in a.found && FullOuter !in a.found && SemiAntiJoin !in a.found
      && AsofJoin !in a.found && PositionalJoinFound !in a.found
    case AsofStateful => AsofJoin in a.found
    case SampleGlobalRecompute => SampleFound in a.found
    case PositionalGlobalRecompute => PositionalJoinFound in a.found
    case OuterJoinStateful => LeftJoinFound in a.found || FullOuter in a.found
    case AggregateNonLinear => Aggregation in a.found && NonLinearAggregate(a)
    case AggregateLinear => Aggregation in a.found && !NonLinearAggregate(a)
    case AggregateHavingFeature => Having in a.found
    case CountDistinctStateful => CountDistinct in a.found
    case FilteredListStateful => FilteredList in a.found
    case GroupingSetsStateful => GroupingSets in a.found
    case WindowAffectedPartition => WindowFound in a.found && s.windowPartitionColumns != []
    case DistinctStateful => !full && i.distinctAux.Some?
    case SemiAntiStateful => !full && i.semiAntiAux.Some?
    case CurrentDiffRecomputeFeature => false
  }

  // ---- the decision chain ----

  predicate HasArgMinMax(a: PlanAnalysis) {
    exists k :: 0 <= k < |a.aggregateTypes| && (a.aggregateTypes[k].ArgMin? || a.aggregateTypes[k].ArgMax?)
  }

  /** The part of the chain for plans with a sample, a positional or ASOF join, or a window: those whose result at one
      row depends on other rows by position. */
  predicate NonLocal(a: PlanAnalysis) {
    SampleFound in a.found || PositionalJoinFound in a.found || AsofJoin in a.found || WindowFound in a.found
  }

  function NonLocalType(a: PlanAnalysis, s: Shape): RefreshType {
    if SampleFound in a.found || PositionalJoinFound in a.found then CurrentDiffRecompute
    else if AsofJoin in a.found && WindowFound in a.found && s.windowPartitionColumns != [] then WindowPartition
    else if AsofJoin in a.found && Aggregation in a.found && s.groupColumns != [] then GroupRecompute
    else if AsofJoin in a.found then CurrentDiffRecompute
    else WindowPartition
  }

  /** The part of the chain below the aggregate branches with HAVING; None when no pattern is recognised. */
  function PlainType(i: Input, s: Shape): Option<RefreshType> {
    var a := i.analysis;
    var having := Having in a.found && Aggregation in a.found && s.groupColumns != [];
    if having && (i.hiddenMinmaxHaving || i.computedMinmaxProjection || HasArgMinMax(a)) then Some(GroupRecompute)
    else if having then Some(AggregateHaving)
    else if Aggregation in a.found then Some(if s.groupColumns != [] then AggregateGroup else SimpleAggregate)
    else if ProjectionFound in a.found then Some(SimpleProjection)
    else None
  }

  function KeyedType(s: Shape): RefreshType {
    if s.groupColumns == [] then FullRefresh else GroupRecompute
  }

  function DistinctOrPlainType(i: Input, s: Shape, features: Feature -> bool): Option<RefreshType> {
    var a := i.analysis;
    if CountDistinct in a.found && s.groupColumns != [] then Some(GroupRecompute)
    else if DistinctFound in a.found && !s.distinctAtTop && Aggregation in a.found then
      Some(if features(DistinctStateful) then DistinctIncremental else GroupRecompute)
    else if s.unionDistinctOverAgg && s.groupColumns != [] then Some(GroupRecompute)
    else if UnionDistinct in a.found && Aggregation !in a.found && s.groupColumns != [] then Some(GroupRecompute)
    else if DistinctFound in a.found && s.distinctAtTop && s.groupColumns != [] then Some(AggregateGroup)
    else if s.strategyReasons != [] && s.groupColumns != [] then Some(GroupRecompute)
    else PlainType(i, s)
  }

  function LocalType(i: Input, s: Shape, features: Feature -> bool): Option<RefreshType> {
    var a := i.analysis;
    if GroupingSets in a.found then Some(KeyedType(s))
    else if SemiAntiAggregate(a) then Some(KeyedType(s))
    else if SemiAntiOnly(a) then Some(if features(SemiAntiStateful) then SemiAntiRecompute else FullRefresh)
    else if FilteredList in a.found then Some(KeyedType(s))
    else DistinctOrPlainType(i, s, features)
  }

  /** The refresh type; None is a full refresh because the pattern is not recognised. */
  function ChosenType(i: Input, s: Shape, features: Feature -> bool): Option<RefreshType> {
    if i.unsupportedConstruct || !i.analysis.compatible then Some(FullRefresh)
    else if NonLocal(i.analysis) then Some(NonLocalType(i.analysis, s))
    else LocalType(i, s, features)
  }

  /** The features as the chain sees them. */
  function FeaturesOf(i: Input, s: Shape): Feature -> bool {
    (f: Feature) => FeatureHolds(f, i, s, AnyReason(i, s))
  }

  function TypeOf(i: Input, s: Shape): RefreshType {
    var t := ChosenType(i, s, FeaturesOf(i, s));
    if t.None? then FullRefresh else t.value
  }

  predicate Unrecognised(i: Input, s: Shape) {
    ChosenType(i, s, FeaturesOf(i, s)).None?
  }

  /** The model carries an unsupported reason at the end. */
  predicate HasReasons(i: Input, s: Shape) {
    AnyReason(i, s) || Unrecognised(i, s)
  }

  // ---- what the reasons say about the type ----

  /** An incompatible plan always has a reason of its own, so the catch-all reason is never needed. */
  lemma IncompatibleHasReason(i: Input, s: Shape)
    requires Consistent(i.analysis) && !i.analysis.compatible
    ensures AnyReason(i, s)
  {
    var what :| what in i.analysis.found * BLOCKING;
    var r := match what
      case VolatileExpression => FunctionReason
      case NonFoldableUnnest => UnnestReason
      case UnsupportedAggregate => AggregateReason
      case UnsupportedFilteredAggregate => FilteredAggregateReason
      case UnsupportedJoinType => JoinTypeReason
      case UnsupportedOrderBy => OrderByReason
      case _ => OperatorReason;
    assert ReasonHolds(r, i, s);
  }

  lemma CompatibleReasons(i: Input, s: Shape)
    requires Consistent(i.analysis) && FromParser(i) && i.analysis.compatible && !i.unsupportedConstruct
    ensures AnyReason(i, s) <==> AnyKeyless(i, s)
  {
    assert forall what :: what in BLOCKING ==> what !in i.analysis.found * BLOCKING;
    forall r
      ensures ReasonHolds(r, i, s) ==> Keyless(r, i, s)
    {
    }
    if AnyKeyless(i, s) {
      var r :| Keyless(r, i, s);
      assert ReasonHolds(r, i, s);
    }
  }

  lemma KeylessForms(i: Input, s: Shape)
    ensures AnyKeyless(i, s) <==>
              || (s.groupColumns == [] && (GroupingSets in i.analysis.found || FilteredList in i.analysis.found
                                           || SemiAntiAggregate(i.analysis)))
              || (SemiAntiOnly(i.analysis) && i.semiAntiAux.None?)
  {
    assert Keyless(GroupingSetsNoKeys, i, s) || Keyless(FilteredListNoKeys, i, s) || Keyless(SemiAntiWithAggregate, i, s)
           || Keyless(SemiAntiMissingAux, i, s) <==>
             || (s.groupColumns == [] && (GroupingSets in i.analysis.found || FilteredList in i.analysis.found
                                          || SemiAntiAggregate(i.analysis)))
             || (SemiAntiOnly(i.analysis) && i.semiAntiAux.None?);
  }

  lemma AggregateFindings(a: PlanAnalysis)
    requires Consistent(a)
    ensures GroupingSets in a.found || FilteredList in a.found ==> Aggregation in a.found
  {
    if GroupingSets in a.found {
      assert GroupingSets in a.found * OF_AGGREGATES;
    } else if FilteredList in a.found {
      assert FilteredList in a.found * OF_AGGREGATES;
    }
  }

  /** Where no blocking construct is present, a local plan gets a full refresh exactly when keys or an aux table are
      missing or its pattern is not recognised. */
  lemma LocalFullRefresh(i: Input, s: Shape)
    requires Consistent(i.analysis) && FromParser(i) && i.analysis.compatible && !i.unsupportedConstruct
    requires !NonLocal(i.analysis)
    ensures TypeOf(i, s).FullRefresh? <==> HasReasons(i, s)
  {
    hide Consistent, AnyReason, AnyKeyless, PlainType;
    CompatibleReasons(i, s);
    KeylessForms(i, s);
    AggregateFindings(i.analysis);
    PlainNeverFull(i, s);
  }

  lemma PlainNeverFull(i: Input, s: Shape)
    ensures PlainType(i, s) != Some(FullRefresh)
  {
  }

  /** The unsupported reasons are non-empty exactly when the view gets a full refresh - except for the plans with a
      window, a sample, an ASOF or a positional join that are otherwise fine but lack keys or an aux table: they keep
      their type although a reason is recorded. */
  lemma ReasonsExactlyFullRefresh(i: Input, s: Shape)
    requires Consistent(i.analysis) && FromParser(i)
    ensures (HasReasons(i, s) <==> TypeOf(i, s).FullRefresh?)
            <==> !(i.analysis.compatible && !i.unsupportedConstruct && NonLocal(i.analysis) && AnyKeyless(i, s))
    ensures TypeOf(i, s).FullRefresh? ==> HasReasons(i, s)
  {
    hide Consistent, LocalType, AnyReason, AnyKeyless;
    if i.unsupportedConstruct {
      ConstructHasReason(i, s);
    } else if !i.analysis.compatible {
      IncompatibleHasReason(i, s);
    } else {
      CompatibleReasons(i, s);
      if !NonLocal(i.analysis) {
        LocalFullRefresh(i, s);
      }
    }
  }

  lemma ConstructHasReason(i: Input, s: Shape)
    requires FromParser(i) && i.unsupportedConstruct
    ensures AnyReason(i, s)
  {
    assert ReasonHolds(SetOperationReason, i, s) || ReasonHolds(PivotReason, i, s);
  }

  // ---- when the model's own invariants hold ----

  /** The chain gets as far as the branch for an inner DISTINCT. */
  predicate ReachesDistinct(i: Input, s: Shape) {
    var a := i.analysis;
    && !i.unsupportedConstruct && a.compatible && !NonLocal(a)
    && GroupingSets !in a.found && SemiAntiJoin !in a.found && FilteredList !in a.found
    && !(CountDistinct in a.found && s.groupColumns != [])
    && DistinctFound in a.found && !s.distinctAtTop && Aggregation in a.found
  }

  /** The chain gets as far as the branch for a semi or anti join without aggregate. */
  predicate ReachesSemiAnti(i: Input, s: Shape) {
    !i.unsupportedConstruct && i.analysis.compatible && !NonLocal(i.analysis) && SemiAntiOnly(i.analysis)
  }

  /** The aux tables after attachment. */
  function AttachedDistinctAux(i: Input, s: Shape): string {
    if TypeOf(i, s).DistinctIncremental? && i.distinctAux.Some? then i.distinctAux.value else ""
  }

  function AttachedSemiAntiAux(i: Input, s: Shape): string {
    if TypeOf(i, s).SemiAntiRecompute? && i.semiAntiAux.Some? then i.semiAntiAux.value else ""
  }

  /** The clauses of the model invariant about features, types and aux tables. */
  predicate AuxInvariants(i: Input, s: Shape) {
    var features := FeaturesOf(i, s);
    && (features(DistinctStateful) ==> AttachedDistinctAux(i, s) != "")
    && (features(SemiAntiStateful) ==> AttachedSemiAntiAux(i, s) != "")
    && (features(WindowAffectedPartition) ==> s.windowPartitionColumns != [])
    && (TypeOf(i, s).DistinctIncremental? ==> features(DistinctStateful))
    && (TypeOf(i, s).SemiAntiRecompute? ==> features(SemiAntiStateful))
  }

  lemma DistinctTypeExactly(i: Input, s: Shape)
    requires Consistent(i.analysis)
    ensures TypeOf(i, s).DistinctIncremental? <==> ReachesDistinct(i, s) && FeaturesOf(i, s)(DistinctStateful)
    ensures TypeOf(i, s).SemiAntiRecompute? <==> ReachesSemiAnti(i, s) && FeaturesOf(i, s)(SemiAntiStateful)
  {
    hide AnyReason, Consistent, HasArgMinMax;
    AggregateFindings(i.analysis);
  }

  /** Exactly when the aux invariants hold: where there is no unsupported reason, an aux candidate is supplied only if
      the chain reaches its branch, and its table has a name. */
  lemma AuxInvariantsExactly(i: Input, s: Shape)
    requires Consistent(i.analysis)
    ensures AuxInvariants(i, s) <==>
              || AnyReason(i, s)
              || (&& (i.distinctAux.Some? ==> ReachesDistinct(i, s) && i.distinctAux.value != "")
                  && (i.semiAntiAux.Some? ==> ReachesSemiAnti(i, s) && i.semiAntiAux.value != ""))
  {
    hide AnyReason, Consistent, TypeOf, ReachesDistinct, ReachesSemiAnti;
    DistinctTypeExactly(i, s);
  }

  // ---- when each of the other types is chosen ----

  predicate Usable(i: Input) {
    !i.unsupportedConstruct && i.analysis.compatible
  }

  /** Something in a local plan cannot be maintained by merging deltas, whatever its keys. */
  predicate NeverMerged(a: PlanAnalysis) {
    GroupingSets in a.found || SemiAntiJoin in a.found || FilteredList in a.found
  }

  /** A DISTINCT below an aggregate. */
  predicate InnerDistinct(a: PlanAnalysis, s: Shape) {
    DistinctFound in a.found && !s.distinctAtTop && Aggregation in a.found
  }

  /** A UNION that removes duplicates, below an aggregate or without one. */
  predicate KeysOverUnion(a: PlanAnalysis, s: Shape) {
    s.unionDistinctOverAgg || (UnionDistinct in a.found && Aggregation !in a.found)
  }

  predicate TopDistinct(a: PlanAnalysis, s: Shape) {
    DistinctFound in a.found && s.distinctAtTop
  }

  /** A HAVING over minima or maxima that the stored aggregates do not decide. */
  predicate HavingNeedsRows(i: Input) {
    i.hiddenMinmaxHaving || i.computedMinmaxProjection
    || exists k :: 0 <= k < |i.analysis.aggregateTypes| && i.analysis.aggregateTypes[k] in {ArgMin, ArgMax}
  }

  /** The types for plans that depend on positions: the difference of two states if it samples or joins by position, or
      joins ASOF without keys to go by; by partition if there are windows, for an ASOF join only with partition columns. */
  lemma NonLocalTypesExactly(i: Input, s: Shape)
    ensures var a := i.analysis;
            var byPartition := WindowFound in a.found && s.windowPartitionColumns != [];
            var global := SampleFound in a.found || PositionalJoinFound in a.found;
            && (TypeOf(i, s).CurrentDiffRecompute? <==>
                  Usable(i) && (global || (AsofJoin in a.found && !byPartition && (Aggregation !in a.found || s.groupColumns == []))))
            && (TypeOf(i, s).WindowPartition? <==>
                  Usable(i) && !global && WindowFound in a.found && (AsofJoin in a.found ==> s.windowPartitionColumns != []))
  {
    hide FeaturesOf;
    LocalTypesAreLocal(i, s);
  }

  lemma LocalTypesAreLocal(i: Input, s: Shape)
    ensures var t := LocalType(i, s, FeaturesOf(i, s));
            t.Some? ==> !t.value.CurrentDiffRecompute? && !t.value.WindowPartition?
  {
    hide FeaturesOf;
  }

  /** The types that merge deltas into the stored view: by key with or without HAVING, into one row, or row by row. */
  lemma MergedTypesExactly(i: Input, s: Shape)
    requires Consistent(i.analysis)
    ensures var a, keys := i.analysis, s.groupColumns != [];
            var plain := Usable(i) && !NonLocal(a) && !NeverMerged(a) && !InnerDistinct(a, s);
            var keyed := plain && keys && CountDistinct !in a.found && !KeysOverUnion(a, s);
            var sums := keyed && Aggregation in a.found && !TopDistinct(a, s) && s.strategyReasons == [];
            && (TypeOf(i, s).AggregateGroup? <==> (keyed && TopDistinct(a, s)) || (sums && Having !in a.found))
            && (TypeOf(i, s).AggregateHaving? <==> sums && Having in a.found && !HavingNeedsRows(i))
            && (TypeOf(i, s).SimpleAggregate? <==> plain && !keys && Aggregation in a.found)
            && (TypeOf(i, s).SimpleProjection? <==>
                  && plain && Aggregation !in a.found && ProjectionFound in a.found
                  && (keys ==> !KeysOverUnion(a, s) && !TopDistinct(a, s) && s.strategyReasons == []))
  {
    hide FeaturesOf, Consistent, HasArgMinMax, HavingNeedsRows;
    AggregateFindings(i.analysis);
    CountedFindings(i.analysis);
    HavingRowsExactly(i);
  }

  lemma HavingRowsExactly(i: Input)
    ensures HavingNeedsRows(i) <==> i.hiddenMinmaxHaving || i.computedMinmaxProjection || HasArgMinMax(i.analysis)
  {
  }

  lemma CountedFindings(a: PlanAnalysis)
    requires Consistent(a)
    ensures CountDistinct in a.found ==> Aggregation in a.found
  {
    if CountDistinct in a.found {
      assert CountDistinct in a.found * OF_AGGREGATES;
    }
  }

  /** Affected groups are recomputed if there are keys to find them by and deltas cannot be merged; without keys only for
      a DISTINCT below an aggregate that has no aux table. */
  lemma GroupRecomputeExactly(i: Input, s: Shape)
    requires Consistent(i.analysis)
    ensures var a, keys := i.analysis, s.groupColumns != [];
            var asof := && AsofJoin in a.found && SampleFound !in a.found && PositionalJoinFound !in a.found
                        && !(WindowFound in a.found && s.windowPartitionColumns != []) && Aggregation in a.found;
            var never := NeverMerged(a) && Aggregation in a.found;
            var inner := InnerDistinct(a, s) && !FeaturesOf(i, s)(DistinctStateful);
            var rows := Aggregation in a.found && Having in a.found && HavingNeedsRows(i);
            TypeOf(i, s).GroupRecompute? <==>
              && Usable(i)
              && (|| (asof && keys)
                  || (!NonLocal(a) && never && keys)
                  || (!NonLocal(a) && !NeverMerged(a) && CountDistinct in a.found && keys)
                  || (!NonLocal(a) && !NeverMerged(a) && inner)
                  || (&& !NonLocal(a) && !NeverMerged(a) && !InnerDistinct(a, s) && keys
                      && (KeysOverUnion(a, s) || (!TopDistinct(a, s) && (s.strategyReasons != [] || rows)))))
  {
    hide FeaturesOf, Consistent, HasArgMinMax, HavingNeedsRows;
    AggregateFindings(i.analysis);
    CountedFindings(i.analysis);
    HavingRowsExactly(i);
  }

  // ---- the guards of the create path ----

  /** The create path offers a distinct candidate only for an inner DISTINCT under an aggregate, and a semi-anti candidate
      only for a semi or anti join without one. */
  predicate ParserGuards(i: Input, s: Shape) {
    var a := i.analysis;
    && (i.distinctAux.Some? ==> DistinctFound in a.found && !s.distinctAtTop && Aggregation in a.found)
    && (i.semiAntiAux.Some? ==> SemiAntiOnly(a))
  }

  predicate NamedAux(i: Input) {
    (i.distinctAux.Some? ==> i.distinctAux.value != "") && (i.semiAntiAux.Some? ==> i.semiAntiAux.value != "")
  }

  /** The chain turns off before the branch for an inner DISTINCT. */
  predicate PassesDistinctBy(a: PlanAnalysis, s: Shape) {
    || NonLocal(a) || GroupingSets in a.found || SemiAntiJoin in a.found || FilteredList in a.found
    || (CountDistinct in a.found && s.groupColumns != [])
  }

  /** What the guards leave open: without an unsupported reason, the aux invariants of a guarded input fail exactly if
      the chain turns off before the branch of a supplied candidate. */
  lemma GuardedAuxInvariantsExactly(i: Input, s: Shape)
    requires Consistent(i.analysis) && FromParser(i) && ParserGuards(i, s) && NamedAux(i)
    ensures AuxInvariants(i, s) <==>
              || AnyReason(i, s)
              || (&& (i.distinctAux.Some? ==> !PassesDistinctBy(i.analysis, s))
                  && (i.semiAntiAux.Some? ==> !NonLocal(i.analysis)))
  {
    hide AnyReason, Consistent, AuxInvariants;
    AuxInvariantsExactly(i, s);
    if !i.analysis.compatible {
      IncompatibleHasReason(i, s);
    }
    if i.unsupportedConstruct {
      ConstructHasReason(i, s);
    }
  }

  // ---- two plans that pass the guards ----

  predicate VisitsAllChildren(k: Kind) {
    !k.MaterializedCte? && !k.TopN? && !k.OrderBy? && !k.Limit?
  }

  lemma AnalyzedUnary(n: Operator, r: PlanAnalysis, spell: nat -> string)
    requires VisitsAllChildren(n.kind) && |n.children| == 1
    ensures Analyzed(n, r, spell) == Analyzed(n.children[0], OwnFacts(n, r, spell), spell)
  {
    hide OwnFacts;
    var own := OwnFacts(n, r, spell);
    assert n.children[..0] == [];
    assert AnalyzedAll(n.children[..0], own, spell) == own;
  }

  lemma AnalyzedBinary(n: Operator, r: PlanAnalysis, spell: nat -> string)
    requires VisitsAllChildren(n.kind) && |n.children| == 2
    ensures Analyzed(n, r, spell)
            == Analyzed(n.children[1], Analyzed(n.children[0], OwnFacts(n, r, spell), spell), spell)
  {
    hide OwnFacts;
    var own, front := OwnFacts(n, r, spell), n.children[..1];
    assert front[..0] == [];
    assert AnalyzedAll(front[..0], own, spell) == own;
    assert AnalyzedAll(front, own, spell) == Analyzed(n.children[0], own, spell);
  }

  lemma AnalyzedScan(columns: seq<string>, r: PlanAnalysis, spell: nat -> string)
    ensures Analyzed(Scan(columns), r, spell) == r
  {
  }

  function Scan(columns: seq<string>): Operator {
    Operator(Get(0, columns), [], [])
  }

  /** SELECT k, SUM(DISTINCT v) AS s FROM (SELECT DISTINCT k, v FROM t) GROUP BY k */
  const DISTINCT_BELOW := Operator(Distinct(false, ["k", "v"], 2), [], [Scan(["k", "v"])])
  const SUM_DISTINCT := AggregateCall(OtherSupported("sum"), true, false)
  const COUNT_DISTINCT_PLAN :=
    Operator(Projection(false, false), [],
             [Operator(Aggregate(1, [SUM_DISTINCT], false, 1, 7), [], [DISTINCT_BELOW])])

  /** SELECT k, SUM(v) OVER (PARTITION BY k) AS s FROM l SEMI JOIN r ON ... */
  const SEMI_BELOW := Operator(Join(Comparison, Some(Semi)), [], [Scan(["k", "v"]), Scan(["j"])])
  const WINDOW_PLAN :=
    Operator(Projection(false, false), [],
             [Operator(Window(false, [Partition("k", Some(0))]), [], [SEMI_BELOW])])

  lemma SumDistinctFacts(r: PlanAnalysis)
    ensures CallsFacts([SUM_DISTINCT], false, r)
            == Note(r, true, CountDistinct).(aggregateTypes := r.aggregateTypes + [OtherSupported("sum")])
  {
    assert [SUM_DISTINCT][..0] == [];
    assert CallsFacts([SUM_DISTINCT], false, r) == CallFacts(SUM_DISTINCT, false, r);
  }

  lemma CountDistinctPlanAnalysis(spell: nat -> string)
    ensures var a := Analyzed(COUNT_DISTINCT_PLAN, FRESH, spell);
            && a.found == {ProjectionFound, Aggregation, CountDistinct, DistinctFound} && a.compatible
            && a.aggregateColumns == ["k", "v"]
  {
    hide Analyzed, CallsFacts;
    var aggregate := COUNT_DISTINCT_PLAN.children[0];
    var r1 := OwnFacts(COUNT_DISTINCT_PLAN, FRESH, spell);
    var r2 := OwnFacts(aggregate, r1, spell);
    var r3 := OwnFacts(DISTINCT_BELOW, r2, spell);
    AnalyzedUnary(COUNT_DISTINCT_PLAN, FRESH, spell);
    AnalyzedUnary(aggregate, r1, spell);
    AnalyzedUnary(DISTINCT_BELOW, r2, spell);
    AnalyzedScan(["k", "v"], r3, spell);
    assert r1 == FRESH.(found := {ProjectionFound});
    SumDistinctFacts(AggregateStart(aggregate.kind, r1));
    assert r2.found == {ProjectionFound, Aggregation, CountDistinct} && r2.compatible && r2.aggregateColumns == [];
  }

  lemma OnePartition(p: Partition)
    ensures PartitionFacts([p], []) == [p]
  {
    assert [p][..0] == [];
  }

  lemma WindowPlanAnalysis(spell: nat -> string)
    ensures var a := Analyzed(WINDOW_PLAN, FRESH, spell);
            && a.found == {ProjectionFound, WindowFound, JoinFound, SemiAntiJoin} && a.compatible
            && a.partitions == [Partition("k", Some(0))]
  {
    hide Analyzed, PartitionFacts;
    var window := WINDOW_PLAN.children[0];
    var r1 := OwnFacts(WINDOW_PLAN, FRESH, spell);
    var r2 := OwnFacts(window, r1, spell);
    var r3 := OwnFacts(SEMI_BELOW, r2, spell);
    AnalyzedUnary(WINDOW_PLAN, FRESH, spell);
    AnalyzedUnary(window, r1, spell);
    AnalyzedBinary(SEMI_BELOW, r2, spell);
    AnalyzedScan(["k", "v"], r3, spell);
    AnalyzedScan(["j"], r3, spell);
    assert r1 == FRESH.(found := {ProjectionFound});
    OnePartition(Partition("k", Some(0)));
    assert r2 == FRESH.(found := {ProjectionFound, WindowFound}, partitions := [Partition("k", Some(0))]);
  }

  lemma NotAtTop(a: PlanAnalysis)
    requires a.aggregateColumns == ["k", "v"]
    ensures !IsDistinctAtTop(a, ["k", "s"])
  {
    assert Lower("k")[0] == 'k' && Lower("s")[0] == 's' && Lower("v")[0] == 'v';
    assert a.aggregateColumns[1] == "v";
  }

  function CountDistinctInput(a: PlanAnalysis): Input {
    Input(a, false, false, false, Some("openivm_distinct_count_mv"), None, None, false, false)
  }

  function WindowInput(a: PlanAnalysis): Input {
    Input(a, false, false, false, None, None, Some("openivm_semi_anti_state_mv"), false, false)
  }

  lemma PlanIsConsistent(n: Operator, spell: nat -> string)
    ensures Consistent(Analyzed(n, FRESH, spell))
  {
    hide Analyzed, Consistent, VisitedBlocks, VisitedBrings;
    FreshConsistent();
    AnalysisConsistent(n, FRESH, spell);
  }

  lemma GuardedCountDistinct(a: PlanAnalysis)
    requires Consistent(a) && a.found == {ProjectionFound, Aggregation, CountDistinct, DistinctFound} && a.compatible
    requires a.aggregateColumns == ["k", "v"]
    ensures var i, s := CountDistinctInput(a), Shape(["k"], [], false, false, []);
            && FromParser(i) && ParserGuards(i, s) && !AuxInvariants(i, s)
            && s.distinctAtTop == IsDistinctAtTop(i.analysis, ["k", "s"])
  {
    hide Consistent, AnyReason, AnyKeyless, AuxInvariants, IsDistinctAtTop;
    var i, s := CountDistinctInput(a), Shape(["k"], [], false, false, []);
    NotAtTop(a);
    CompatibleReasons(i, s);
    KeylessForms(i, s);
    GuardedAuxInvariantsExactly(i, s);
  }

  lemma GuardedWindow(a: PlanAnalysis)
    requires Consistent(a) && a.found == {ProjectionFound, WindowFound, JoinFound, SemiAntiJoin} && a.compatible
    ensures var i, s := WindowInput(a), Shape([], ["k"], false, false, []);
            FromParser(i) && ParserGuards(i, s) && !AuxInvariants(i, s)
  {
    hide Consistent, AnyReason, AnyKeyless, AuxInvariants;
    var i, s := WindowInput(a), Shape([], ["k"], false, false, []);
    CompatibleReasons(i, s);
    KeylessForms(i, s);
    GuardedAuxInvariantsExactly(i, s);
  }

  /** The guards do not suffice: a COUNT(DISTINCT) with keys, or a window, diverts the chain and leaves a stateful
      feature without its aux table. */
  lemma ParserGuardIsTooWeak(spell: nat -> string)
    ensures var i, s := CountDistinctInput(Analyzed(COUNT_DISTINCT_PLAN, FRESH, spell)), Shape(["k"], [], false, false, []);
            && Consistent(i.analysis) && FromParser(i) && ParserGuards(i, s) && !AuxInvariants(i, s)
            && s.distinctAtTop == IsDistinctAtTop(i.analysis, ["k", "s"])
    ensures var i, s := WindowInput(Analyzed(WINDOW_PLAN, FRESH, spell)), Shape([], ["k"], false, false, []);
            && Consistent(i.analysis) && FromParser(i) && ParserGuards(i, s) && !AuxInvariants(i, s)
            && |i.analysis.partitions| == 1 && s.windowPartitionColumns == [i.analysis.partitions[0].name]
  {
    hide Analyzed, Consistent, AuxInvariants, IsDistinctAtTop;
    PlanIsConsistent(COUNT_DISTINCT_PLAN, spell);
    CountDistinctPlanAnalysis(spell);
    GuardedCountDistinct(Analyzed(COUNT_DISTINCT_PLAN, FRESH, spell));
    PlanIsConsistent(WINDOW_PLAN, spell);
    WindowPlanAnalysis(spell);
    GuardedWindow(Analyzed(WINDOW_PLAN, FRESH, spell));
  }
}
