# OpenIVM: a verified model

OpenIVM keeps materialized views of DuckDB up to date from deltas of their source tables. This project models the parts of
it that decide whether that maintenance is right, and proves what they promise:

- **Delta rules** (`zset.dfy`, `delta_rules.dfy`, `join_pruning.dfy`). Changes are Z-sets: rows with signed weights. The
  rules LINEAR and PRODUCT, with the join delta in both of its forms (2^N-1 signed terms, or N telescoping terms), are
  proved to give the change of the result for every plan of scans, filters, projections, UNION ALL, row-local unnests,
  constants and inner joins. The loop over the join terms is proved against that specification, with its two ways of
  skipping terms.
- **Aggregate rewriting** (`plans.dfy`, `derived_aggregates.dfy`, `aggregate_rewrite.dfy`, `aggregate_filters.dfy`,
  `plan_operators.dfy`, `binding_key.dfy`, `rewrite_limits.dfy`, `having_limits.dfy`, `hidden_columns.dfy`,
  `self_maintenance.dfy`). Plans have an evaluator over tables with NULLs and exact reals. FILTER clauses become CASE
  arguments, and none is left; AVG, STDDEV and VARIANCE become hidden sum, sum of squares and count columns. The rewrite runs
  in place over operators that own their children; it is proved equal to a function on plans, and that function is proved to
  preserve every original column and to append, under their names, columns with just those three values. The hidden columns
  are proved to keep the aggregate exact through any number of refreshes.
- **Learned cost model** (`cost_model.dfy`). Weighted ridge regression with the clamp-and-refit rule, in exact arithmetic:
  which fit it returns, told from the objective alone, and exactly when that is the optimum.
- **Classification and delta model** (`incremental_checker.dfy`, `view_classifier.dfy`, `delta_model.dfy`,
  `model_rules.dfy`, `delta_lineage.dfy`, `lineage_domains.dfy`, `delta_view_model.dfy`, `group_columns.dfy`). The plan
  analysis, with every finding and every recorded detail told from the visited operators; the decision chain, with the exact
  condition of every refresh type; the arena of nodes, whose rules and modes are tied to the delta rules above; affected
  domains and lineage.
- **CREATE MATERIALIZED VIEW** (`ddl_executor.dfy`, `create_mv.dfy`). A sequence of statements without a transaction around
  it, with clean-up registered first and the registration last; the database answers every statement as it likes. What is
  there after success and what is gone after failure is told from the request.
- **Text layer** (`statement_splitter.dfy`, `facts_json.dfy`, `decimal.dfy`). The quote-aware statement splitter and the
  substring-based extraction of JSON fields.
- **Chained rollups** (`residual_rollup.dfy`). Views over views, and a stale view read together with the pending changes.

Numbers are exact: integers and reals. Code that changes things in place is a class or a method proved against a function;
code that computes is a function. Where the code and a comment disagree the model follows the code: the foreign-key pruning
of joins says it needs the join condition to use the key columns (`src/delta/operators/join.cpp:519-521`), but the detection
looks at the constraints only, and `JoinPruning.FkPruningIgnoresJoinColumns` shows what that loses.

What is false of the code is stated with its exact condition: `JoinPruning.FkPruningSafeExactly`,
`AggregateFilters.FilterToCaseExactly`, `RewriteLimits.DistinctIsDropped`, `RewriteLimits.HiddenNamesMeetExactly`,
`HavingLimits.HavingKeptExactly`, `HavingLimits.AverageHavingExactly`, `CostModel.AveragedIsOptimalExactly`,
`CostModel.HistoryIsWindowExactly`, `ViewClassifier.ReasonsExactlyFullRefresh`, `ViewClassifier.AuxInvariantsExactly`,
`ViewClassifier.GuardedAuxInvariantsExactly`, `GroupColumns.BecomesInternalExactly`,
`CreateMv.RegisteredOnlyWhenCompleteExactly`, `CreateMv.FailureRestoresExactly`, `CreateMv.SuccessIsNewExactly`,
`StatementSplitter.SplitIsStableExactly`, `ResidualRollup.GrowingOrdersRowsExactly`,
`SelfMaintenance.ColumnsAreFreshExactly`, `ModelRules.BlameExactly`.

## Model

| member | source | states |
|---|---|---|
| DeltaRules.DeltaIsSound | src/core/ivm_delta_model.cpp:141-162 | for every plan of LINEAR and PRODUCT operators: old result plus compiled delta is the result on the updated tables, at every row, with the join trees in either form |
| DeltaRules.DeltaIsDifference | src/core/ivm_delta_model.cpp:276-289 | the compiled delta of every subplan is the difference between its new and its old contents as Z-sets |
| DeltaRules.InclusionExclusion | src/delta/operators/join.cpp:701-857 | the 2^N-1 terms, signed by the number of delta leaves, add up to the change of an N-way product, for every N |
| DeltaRules.Telescoping | src/delta/operators/ducklake_join.cpp:211-316 | the N terms with current leaves before and old leaves after the delta leaf add up to the same change |
| DeltaRules.FormsAgree | src/openivm_extension.cpp:135-139 | both forms of the join delta give the same change, row for row, for every N |
| DeltaRules.EvalIsProduct | src/delta/operators/join.cpp:604-623 | a tree of joins is the product of its leaves |
| DeltaRules.ProductLinear | src/delta/operators/join.cpp:701-857 | the product is linear in each leaf |
| DeltaRules.Expansion | src/delta/operators/join.cpp:808-850 | multiplying out current minus delta leaf by leaf gives the masks with their signs |
| JoinPruning.BuildTerm | src/delta/operators/join.cpp:701-806 | one loop iteration builds the signed product of the leaves its mask chooses |
| JoinPruning.BuildInclusionExclusionTerms | src/delta/operators/join.cpp:701-857 | the loop over the masks builds exactly the terms of the masks that no skip bit hits |
| JoinPruning.CountBitsIsBitCount | src/delta/operators/join.cpp:808-850 | counting set bits by shifting counts the delta leaves of a term |
| JoinPruning.SkippingIsEmptying | src/delta/operators/join.cpp:633-641 | skipping the terms of some leaves is, term for term, the same as emptying their deltas |
| JoinPruning.EmptySkippingIsExact | src/delta/operators/join.cpp:633-641 | skipping leaves with an empty delta changes nothing |
| JoinPruning.ComputeSkipBits | src/delta/operators/join.cpp:580-599 | the skip bits are the referenced leaves without deletions |
| JoinPruning.PrunedDifference | src/delta/operators/join.cpp:623-631 | the pruned terms are the change from the state in which the skipped leaves are already current |
| JoinPruning.FkPruningExactly | src/delta/operators/join.cpp:623-631 | in a given state pruning loses nothing exactly if joining the inserted rows of the referenced leaf with the old other leaves is empty |
| JoinPruning.DetectFkRelations | src/delta/operators/join.cpp:527-578 | the map from table names to leaves, the last one winning, and the loops over the constraints give the detected relations in order |
| JoinPruning.DetectedExactly | src/delta/operators/join.cpp:544-577 | a pair of leaves is detected exactly if the first has a foreign key to the table of the second, whatever its columns |
| JoinPruning.DetectedLeavesDiffer | src/delta/operators/join.cpp:562-572 | as foreign keys of a table to itself have a kind of their own, no leaf is detected as its own referenced leaf |
| JoinPruning.FkPruningSafe | src/delta/operators/join.cpp:580-590 | if the join only combines a row of the referenced leaf with a row that references it, keys of any number of columns, nothing is lost |
| JoinPruning.ProductHolds | src/delta/operators/join.cpp:604-623 | what one row of each leaf combines to is a row of the product |
| JoinPruning.FkPruningSafeExactly | src/delta/operators/join.cpp:519-631 | before compiling: the pruning a detected foreign key brings is exact in all reachable states precisely if the join only combines a row of that leaf with a row that references it, or that table is scanned twice |
| JoinPruning.FkPruningIgnoresJoinColumns | src/delta/operators/join.cpp:527-578 | the detection accepts a view that joins on other columns than the key, and some insertion is lost |
| DerivedAggregates.NumeratorIsDeviation | src/core/plan_rewrite_aggregates.cpp:276-282 | sum of squares minus squared sum over n is the sum of squared deviations from the mean, and never negative |
| DerivedAggregates.RebuiltIsDefinition | src/core/plan_rewrite_aggregates.cpp:261-296 | the replacement formula equals AVG, STDDEV and VARIANCE by definition on every bag, NULL in exactly the same cases |
| DerivedAggregates.FormulaValue | src/core/plan_rewrite_aggregates.cpp:283-295 | the count thresholds 0 and 1 give NULL exactly where the population and sample divisors vanish |
| DerivedAggregates.DefinitionsByName | src/core/plan_rewrite_aggregates.cpp:261-296 | which statistic each of the seven function names stands for, by its textbook definition |
| AggregateRewrite.SlotAt | src/core/plan_rewrite_aggregates.cpp:178-254 | the slots of an old column stand together at its offset in the new expression list |
| AggregateRewrite.SlotValues | src/core/plan_rewrite_aggregates.cpp:215-252 | the slots evaluate to sum, sum of squares and count of the non-null arguments |
| AggregateRewrite.SlotsRebuild | src/core/plan_rewrite_aggregates.cpp:261-296 | rebuilding from the slots gives the value of the plain derived aggregate over any rows |
| AggregateRewrite.ReplacementValue | src/core/plan_rewrite_aggregates.cpp:261-296 | the replacement expression evaluates to the formula over the three columns it reads |
| AggregateRewrite.WalkedValue | src/core/plan_rewrite_aggregates.cpp:316-339 | a patched expression over the new row has the value of the original over the old row |
| AggregateRewrite.GroupsCarry | src/core/plan_rewrite_aggregates.cpp:178-258 | grouping with the new expressions gives the same groups, each carrying the old columns |
| AggregateRewrite.ItemsCarry | src/core/plan_rewrite_aggregates.cpp:337-380 | the patched projection puts out the original columns unchanged |
| AggregateRewrite.DerivedRewritePreserves | src/core/plan_rewrite_aggregates.cpp:137-384 | the rewrite keeps every original column of every row, for plans of any nesting over any tables |
| HiddenColumns.HiddenColumnsHold | src/core/plan_rewrite_aggregates.cpp:340-380 | every row of a rewritten projection over its aggregate holds, as openivm_sum_, the sum-of-squares mark and openivm_count_ before the suffix, the sum, the sum of squares and the count of the argument values of its group in the original plan, over all tables |
| HiddenColumns.HavingColumnsHold | src/core/plan_rewrite_aggregates.cpp:122-380 | the same of every row that a HAVING filter in between lets through |
| HiddenColumns.ShownColumnsMaintain | src/upsert/refresh_compiler.cpp:328-330 | from the columns so held, any number of refreshes leads to columns that rebuild the aggregate over the updated group |
| HiddenColumns.NoDerivedLeft | src/core/plan_rewrite_aggregates.cpp:137-384 | after the pass no AVG, STDDEV or VARIANCE is left below a projection |
| AggregateFilters.NormalizedValue | src/core/plan_rewrite_aggregates.cpp:83-114 | the CASE form of an aggregate has the value of its FILTER form over every bag of rows |
| AggregateFilters.FilterToCaseExactly | src/core/plan_rewrite_aggregates.cpp:90-92 | for any arguments and any filter, FILTER may become CASE exactly for aggregates that ignore NULL in the first argument; so not for LIST |
| AggregateFilters.FilterRewritePreserves | src/core/plan_rewrite_aggregates.cpp:62-121 | the filter rewrite keeps every column of every plan at any depth |
| AggregateFilters.FiltersAreGone | src/core/plan_rewrite_aggregates.cpp:62-121 | after the pass only LIST carries a filter, at any depth, and nothing but filters was moved, each into the first argument |
| AggregateFilters.NoCallBlocksByFilter | src/core/parser.cpp:387-391 | so the plan checker never turns a rewritten plan down because of a filter |
| AggregateFilters.RewrittenWellFormed | src/core/plan_rewrite_aggregates.cpp:62-121 | the filter rewrite keeps plans well-formed |
| AggregateFilters.PipelinePreserves | src/core/plan_rewrite.cpp:1322-1337 | filter rewrite and decomposition one after the other preserve meaning |
| RewriteLimits.DistinctIsDropped | src/core/plan_rewrite_aggregates.cpp:229-230 | the hidden columns give the aggregate on every input exactly if it is not DISTINCT |
| HavingLimits.HavingKeptExactly | src/core/plan_rewrite_aggregates.cpp:337-339 | with a HAVING filter in between, which is not patched, the rewrite keeps the result over all tables exactly if the filter decides every group of every table as before |
| HavingLimits.AverageHavingExactly | src/core/plan_rewrite_aggregates.cpp:122-136 | HAVING avg(x) > k has the same rows after the rewrite, over all tables, exactly for k = 0 |
| RewriteLimits.OriginalAliasesKept | src/core/plan_rewrite_aggregates.cpp:337-380 | the original projection entries keep place and alias |
| RewriteLimits.AppendedAreInternal | src/core/plan_rewrite_aggregates.cpp:340-380 | every appended column has an internal name |
| RewriteLimits.CleanIs | src/core/plan_rewrite_aggregates.cpp:346-364 | the cleaned name has name characters only, all letters and digits in order, and leaves proper names alone |
| RewriteLimits.UserAliasIsFirst | src/core/plan_rewrite_aggregates.cpp:297-310 | the alias found for a decomposed column is that of the first entry that is just the column |
| RewriteLimits.NamedSuffix | src/core/plan_rewrite_aggregates.cpp:346-364 | an aggregate named by a proper name has exactly that name behind the prefixes |
| RewriteLimits.HiddenNamesMeetExactly | src/core/plan_rewrite_aggregates.cpp:366-379 | two decomposed aggregates share a hidden name exactly if their suffixes are equal or one reads like the sum-of-squares mark of the other |
| RewriteLimits.AppendedCollideExactly | src/core/plan_rewrite_aggregates.cpp:340-380 | the same of the aliases of the columns appended for two aggregates |
| RewriteLimits.SlotsHaveOneOwner | src/core/plan_rewrite_aggregates.cpp:173-196 | decomposed and renumbered columns cover the new slots, each exactly once |
| BindingKey.KeyInjective | src/core/plan_rewrite_aggregates.cpp:311-315 | for one aggregate the 64-bit lookup key is injective in the column number |
| PlanOperators.PushSlots | src/core/plan_rewrite_aggregates.cpp:213-254 | pushes sum, sum of squares and count, and records where they are |
| PlanOperators.Decompose | src/core/plan_rewrite_aggregates.cpp:173-256 | the new list, the decomposed columns and the new numbers of exactly the other columns |
| PlanOperators.BuildLookup | src/core/plan_rewrite_aggregates.cpp:311-315 | the table of 64-bit keys answers for exactly the decomposed columns, each with its own slots |
| PlanOperators.BuildReplacement | src/core/plan_rewrite_aggregates.cpp:261-296 | the expression put in place of a decomposed column |
| PlanOperators.WalkExpr | src/core/plan_rewrite_aggregates.cpp:316-336 | patching through the key lookup is patching by column number, and no replacement is patched again |
| PlanOperators.FindUserAlias | src/core/plan_rewrite_aggregates.cpp:297-310 | the alias of the first projection entry that is the decomposed column |
| PlanOperators.Sanitize | src/core/plan_rewrite_aggregates.cpp:200-211 | the character loop with its last-underscore flag gives the cleaned name |
| PlanOperators.HiddenForEach | src/core/plan_rewrite_aggregates.cpp:340-380 | the hidden columns appended decomposition by decomposition are those of the columns in order |
| PlanOperators.LogicalOperator.NormalizeExpressions | src/core/plan_rewrite_aggregates.cpp:83-114 | every FILTER entry but LIST becomes its CASE form, in place |
| PlanOperators.LogicalOperator.RewriteAggregateFilters | src/core/plan_rewrite_aggregates.cpp:62-121 | the in-place filter rewrite turns the tree into the rewritten plan and keeps ownership |
| PlanOperators.LogicalOperator.FindProjectionAggregateInput | src/core/plan_rewrite_aggregates.cpp:122-136 | finds the aggregate below a projection, through a HAVING filter at the top only |
| PlanOperators.LogicalOperator.PatchItems | src/core/plan_rewrite_aggregates.cpp:337-339 | every projection entry is patched in place |
| PlanOperators.LogicalOperator.AppendHidden | src/core/plan_rewrite_aggregates.cpp:340-380 | appends exactly the hidden columns, under the suffixes of the user aliases |
| PlanOperators.LogicalOperator.RewritePair | src/core/plan_rewrite_aggregates.cpp:141-382 | one projection with the aggregate it finds, rewritten in place, is the rewritten pair |
| PlanOperators.LogicalOperator.RewriteDerivedAggregates | src/core/plan_rewrite_aggregates.cpp:137-384 | the in-place decomposition turns the tree into the rewritten plan, bottom-up, and keeps ownership |
| SelfMaintenance.RefreshKeepsRepresents | src/upsert/refresh_compiler.cpp:328-330 | stored columns merged with those of the signed changes stand for the updated bag |
| SelfMaintenance.RepresentsRebuilds | src/core/plan_rewrite_aggregates.cpp:262-296 | whatever stands for a bag rebuilds to the aggregate over it |
| SelfMaintenance.SelfMaintained | src/core/plan_rewrite_aggregates.cpp:225-296 | after any number of refreshes the replacement over the stored columns is the aggregate over the current values |
| SelfMaintenance.ColumnsAreFreshExactly | src/upsert/refresh_compiler.cpp:328-330 | the merged columns are those of a fresh load exactly if the group has a value, or had none and none was touched |
| CostModel.Expansion | scripts/learned_cost_sim.py:45-49 | the ridge objective at any vector, from any other: value, slope and curvature, exactly |
| CostModel.CurvaturePositive | scripts/learned_cost_sim.py:45-49 | the objective is strictly convex |
| CostModel.Residuals | scripts/learned_cost_sim.py:48-49 | the slopes of the objective are what the normal equations leave over |
| CostModel.NormalIsPositiveDefinite | scripts/learned_cost_sim.py:48 | the normal matrix is positive definite for every history |
| CostModel.Solve3Unique | scripts/learned_cost_sim.py:51-54 | the solver finds the one solution of a positive definite system |
| CostModel.SystemsHaveOneSolution | scripts/learned_cost_sim.py:48-82 | all three systems have exactly one solution; the fallback for a failed solve is dead code |
| CostModel.ClampedIsMinimal | scripts/learned_cost_sim.py:62-83 | refitting with a negative slope clamped to zero is optimal among all vectors with that slope non-negative |
| CostModel.SolvedIsOptimal | scripts/learned_cost_sim.py:33-84 | a full or reduced solve is the one minimiser of the ridge objective over non-negative slopes |
| CostModel.SolvedExactly | scripts/learned_cost_sim.py:51-84 | which of the three solutions or the weighted average is returned, by the signs of the minimiser of the objective and of its minimisers without one of the slopes |
| CostModel.FitsSamplesExactly | scripts/learned_cost_sim.py:33-84 | the fit fails only without samples, and those minimisers always exist |
| CostModel.FitIsFeasible | scripts/learned_cost_sim.py:59-84 | the slopes are non-negative in every branch |
| CostModel.AveragedIsOptimalExactly | scripts/learned_cost_sim.py:60-61 | the weighted average is the ridge optimum exactly if the weighted durations cancel and neither estimate correlates positively |
| CostModel.AveragedIsNeverOptimalForDurations | scripts/learned_cost_sim.py:60-61 | for non-negative durations the weighted average is never the ridge optimum |
| CostModel.WeightsAreUsable | scripts/learned_cost_sim.py:28-30 | decayed weights are non-negative and add up to at least one |
| CostModel.PredictionSucceeds | scripts/learned_cost_sim.py:102-115 | prediction fails only when asked to fit an empty history |
| CostModel.PredictionsAreMonotone | scripts/learned_cost_sim.py:102-115 | predictions are non-negative and never fall when an estimate grows |
| CostModel.PredictionFollowsMinimisers | scripts/learned_cost_sim.py:102-115 | a calibrated prediction counts each estimate with its own slope of the minimiser that applies |
| CostModel.PredictionErrorIsCounted | scripts/learned_cost_sim.py:107-115 | on a recorded estimate it misses by the error the objective counts for that sample |
| CostModel.HistoryIsWindowExactly | scripts/learned_cost_sim.py:97-100 | the history is the last `window` samples since the reset exactly if the window is not zero or nothing was recorded |
| CostModel.CostModelSimulator.constructor | scripts/learned_cost_sim.py:90-95 | an empty history with the given parameters |
| CostModel.CostModelSimulator.RecordSample | scripts/learned_cost_sim.py:97-100 | appends a sample and cuts to the window |
| CostModel.CostModelSimulator.PredictTime | scripts/learned_cost_sim.py:102-115 | the clamped prediction from the fitted coefficients, the plain sum below the minimum number of samples, for the recorded history; by PredictionFollowsMinimisers the coefficients are those of the minimiser that applies |
| CostModel.CostModelSimulator.ResetHistory | scripts/learned_cost_sim.py:117-118 | forgets everything |
| IncrementalChecker.PlanAnalyzer.ExtractOrderBy | src/core/incremental_checker.cpp:51-63 | records the ORDER BY columns up to the first that is none, and says whether there was one |
| IncrementalChecker.PlanAnalyzer.AnalyzeAggregate | src/core/incremental_checker.cpp:274-351 | the findings of an aggregate, call by call, outermost or nested |
| IncrementalChecker.PlanAnalyzer.AnalyzePartitions | src/core/incremental_checker.cpp:353-392 | collects the partition columns without duplicates |
| IncrementalChecker.PlanAnalyzer.AnalyzeJoin | src/core/incremental_checker.cpp:227-272 | the findings of a join by operator and join type; by FindingsExactly those of outer, semi, anti, mark and scalar joins and no others |
| IncrementalChecker.PlanAnalyzer.AnalyzeOwn | src/core/incremental_checker.cpp:122-452 | the findings of one operator of any kind |
| IncrementalChecker.PlanAnalyzer.AnalyzeNode | src/core/incremental_checker.cpp:122-456 | the recursive pass leaves the shared analysis as the specification says, CTE bodies included; FindingsExactly and DetailsExactly say what that is |
| IncrementalChecker.MergeConsistent | src/core/incremental_checker.cpp:106-119 | merging a CTE body keeps the analysis consistent and loses nothing |
| IncrementalChecker.IncompatibleExactly | src/core/incremental_checker.cpp:122-456 | for every plan: incompatible exactly if some operator the pass visits blocks by itself, given only whether an aggregate was visited before it |
| IncrementalChecker.FindingsExactly | src/core/incremental_checker.cpp:122-456 | for every plan and every finding: it is there exactly if it was before or some visited operator brings it, told from join types, function names, flags and children; a CTE body analysed apart passes on only what is not local |
| IncrementalChecker.AnalysisSees | src/core/incremental_checker.cpp:122-456 | the set of findings is the one collected operator by operator along the visited part of the plan |
| IncrementalChecker.DetailsExactly | src/core/incremental_checker.cpp:122-456 | limit and offset of the last operator that has one, the order columns, the keys of every DISTINCT, the first aggregate visited with its place and functions, and every partition name once |
| IncrementalChecker.OrderColumnsExactly | src/core/incremental_checker.cpp:51-63 | the order columns are the entries before the first that is no column |
| IncrementalChecker.AnalysisDescribed | src/core/incremental_checker.cpp:274-351 | an aggregate was found exactly if one is described by its group index |
| IncrementalChecker.AnalysisConsistent | src/core/incremental_checker.cpp:122-456 | for every plan: incompatible exactly when a blocking construct was found; special findings imply general ones; an aggregate is found exactly if described; findings are never lost, and new ones are exactly those visited operators bring |
| IncrementalChecker.AnalyzePlan | src/core/incremental_checker.cpp:458-462 | the analysis of a plan: consistent, incompatible exactly if a visited operator blocks, every finding exactly if a visited operator brings it, and every detail as DetailsExactly has it |
| ViewClassifier.IncompatibleHasReason | src/core/ivm_view_classifier.cpp:93-138 | an incompatible plan always has a specific unsupported reason |
| ViewClassifier.LocalFullRefresh | src/core/ivm_view_classifier.cpp:328-397 | a local plan without blocking construct gets a full refresh exactly when a reason is recorded |
| ViewClassifier.ReasonsExactlyFullRefresh | src/core/ivm_view_classifier.cpp:703-710 | unsupported reasons go with FULL_REFRESH in both directions, except exactly for otherwise fine plans with window, sample, ASOF or positional join that lack keys or an aux table |
| ViewClassifier.DistinctTypeExactly | src/core/ivm_view_classifier.cpp:362-371 | the stateful types are chosen exactly when the chain reaches their branch with the feature present |
| ViewClassifier.NonLocalTypesExactly | src/core/ivm_view_classifier.cpp:340-356 | exactly when the difference of two states, and when recomputation by partition is chosen, from findings and columns |
| ViewClassifier.MergedTypesExactly | src/core/ivm_view_classifier.cpp:372-397 | exactly when each type that merges deltas is chosen: by key, by key with HAVING, into one row, row by row |
| ViewClassifier.GroupRecomputeExactly | src/core/ivm_view_classifier.cpp:348-383 | exactly when affected groups are recomputed |
| ViewClassifier.AuxInvariantsExactly | src/core/ivm_view_classifier.cpp:416-428 | the aux clauses of the model invariant hold exactly when a candidate is supplied only if the chain reaches its branch, or a reason is recorded |
| ViewClassifier.GuardedAuxInvariantsExactly | src/core/parser.cpp:482-640 | under the guards of the create path the aux clauses fail exactly if no reason is recorded and the chain turns off before the branch of a supplied candidate |
| ViewClassifier.ParserGuardIsTooWeak | src/core/parser.cpp:482-640 | two plans whose analyses pass the guards and break the invariant: COUNT(DISTINCT) with keys over a DISTINCT, and a window over a semi join |
| GroupColumns.FreeCandidate | src/core/ivm_view_classifier.cpp:30-34 | the suffix search terminates and finds the first name not given out |
| GroupColumns.DeduplicateGroupColumns | src/core/ivm_view_classifier.cpp:24-38 | in place: every visible column gets the first free candidate of its name, internal ones stay |
| GroupColumns.DeduplicatedIsDistinct | src/core/ivm_view_classifier.cpp:24-38 | afterwards the columns that were visible have pairwise distinct names |
| GroupColumns.DistinctStayPut | src/core/ivm_view_classifier.cpp:24-38 | names that were distinct are not touched |
| GroupColumns.InternalCandidateExactly | src/core/ivm_view_classifier.cpp:30-34 | a suffix turns a visible name into an internal one exactly for the name openivm |
| GroupColumns.BecomesInternalExactly | src/core/ivm_view_classifier.cpp:24-38 | a visible column becomes internal exactly if it is called openivm and so was an earlier one |
| DeltaModel.ArenaIsFaithful | src/core/ivm_delta_model.cpp:327-384 | ids are positions, children precede parents, the root is last, and the operator tree is rebuilt from the arena alone |
| DeltaModel.FlattenIsArena | src/core/ivm_delta_model.cpp:327-331 | the same for the nodes of any subplan at any place of the arena |
| DeltaModel.TablesAreScanned | src/core/ivm_delta_model.cpp:75-86 | the tables collected for an operator are, up to case, those scanned below it, each once |
| DeltaModel.NodeTablesAt | src/core/ivm_delta_model.cpp:349-352 | wherever a plan lies in an arena, each of its nodes carries the tables of the operator rebuilt from that node |
| DeltaModel.NodeTablesAreScanned | src/core/ivm_delta_model.cpp:327-384 | for every node of the arena of a plan: its source tables are, up to case, the tables scanned in its subtree, each once |
| DeltaModel.ReasonsForceFullOnly | src/core/ivm_delta_model.cpp:141-145 | one unsupported reason makes every node FULL_ONLY |
| DeltaModel.FullRefreshForcesFullRecompute | src/core/ivm_delta_model.cpp:268-272 | a view with FULL_REFRESH has only FULL_ONLY nodes, all maintained by full recompute |
| ModelRules.DeltaRulesExactly | src/core/ivm_delta_model.cpp:141-181 | a regular plan without unsupported reason has only LINEAR and PRODUCT nodes exactly if it is one of the plans of the Z-set theorem |
| ModelRules.RulesFit | src/core/ivm_delta_model.cpp:88-193 | for every node of every arena: its rule, whether it has an aux table, and which occurrence of which table it scans, told from its operator, its join type and the known occurrences |
| ModelRules.ModesFit | src/core/ivm_delta_model.cpp:268-322 | for every node of every arena: deltas alone exactly for LINEAR, full recompute exactly for FULL_ONLY, current relations exactly for joins, an aux table exactly where there is one |
| ModelRules.DeltaOnlyNeedsNoState | src/core/ivm_delta_model.cpp:276-285 | the compiled delta of a plan with only LINEAR nodes is the same whatever the tables hold, and still gives the new result |
| ModelRules.ProductNeedsState | src/core/ivm_delta_model.cpp:286-289 | the same changes have different join deltas in different states |
| ModelRules.NodeReasonsExactly | src/core/ivm_delta_model.cpp:195-231 | a node carries exactly the reasons of the model that concern its kind, each once |
| ModelRules.BlameExactly | src/core/ivm_delta_model.cpp:195-231 | the node of an operator that brings a finding carries its reason, except exactly under an ASOF join and for unnested lists in projections |
| DeltaLineage.AddDomainKeepsDistinct | src/core/ivm_delta_model.cpp:431-448 | adding a domain keeps the domains pairwise different in kind or keys, up to case |
| LineageDomains.LocatedExactly | src/core/ivm_delta_model.cpp:395-413 | a fact lands on the first scan of its occurrence, without an occurrence on the scan of its table exactly if there is only one |
| LineageDomains.FactsPlaced | src/core/ivm_delta_model.cpp:423-429 | every fact is in the list of the model and at the node it belongs to |
| LineageDomains.WindowLineageExactly | src/core/ivm_delta_model.cpp:625-665 | a traced window view gets one domain over its partition columns, read off the delta alone exactly if no column needs a lookup, and one placed fact for each traced column |
| LineageDomains.ProjectionLineageExactly | src/core/ivm_delta_model.cpp:666-695 | the same for a traced projection key: alone exactly if no arm takes a step, the last step being the lookup |
| LineageDomains.SemiAntiLineageExactly | src/core/ivm_delta_model.cpp:696-705 | a placed fact for every kept column of the left side, and no new domain |
| DeltaLineage.TracedAgain | src/core/ivm_delta_model.cpp:615-706 | clearing and tracing again gives the same nodes, facts and domains |
| DeltaLineage.PopulateIsIdempotent | src/core/ivm_delta_model.cpp:615-706 | filling in the lineage twice is filling it in once |
| DeltaViewModels.PopulateKeepsValid | src/core/ivm_delta_model.cpp:582-706 | filling in the lineage keeps every clause of the model invariant |
| DeltaViewModels.PopulateKeepsDomainsDistinct | src/core/ivm_delta_model.cpp:431-448 | and keeps the affected domains pairwise distinct |
| DeltaViewModels.NodesAreValid | src/core/ivm_delta_model.cpp:552-556 | freshly built nodes meet the clauses about nodes |
| DeltaViewModels.BaseDomainsValid | src/core/ivm_delta_model.cpp:558-580 | the base domains point into the arena and are distinct |
| DeltaViewModels.BaseDomainsExactly | src/core/ivm_delta_model.cpp:558-580 | which base domains there are, with their keys, sources and node, and that the group domain is read off the delta alone exactly without joins and with at most one scan |
| DeltaViewModels.AddUnique | src/include/core/vector_utils.hpp:8-16 | the scan-and-push adds an entry once |
| DeltaViewModels.DeltaViewModel.BuildUnsupportedReasons | src/core/ivm_view_classifier.cpp:93-138 | the recorded reasons are exactly those that hold; the catch-all is never needed |
| DeltaViewModels.DeltaViewModel.BuildModelFeatures | src/core/ivm_view_classifier.cpp:140-194 | the recorded features are exactly those that hold |
| DeltaViewModels.DeltaViewModel.SelectRefreshType | src/core/ivm_view_classifier.cpp:328-397 | the long chain chooses the specified type and warns exactly on unrecognised patterns |
| DeltaViewModels.DeltaViewModel.AttachAuxRequirements | src/core/ivm_view_classifier.cpp:416-428 | the aux table of the chosen type is attached, and its candidate is always there |
| DeltaViewModels.DeltaViewModel.BuildModelNodeForPlan | src/core/ivm_delta_model.cpp:333-384 | appends the flattening of the plan and returns its root |
| DeltaViewModels.DeltaViewModel.RefreshDeltaNodeMaintenance | src/core/ivm_delta_model.cpp:468-472 | decides the maintenance of every node, in place |
| DeltaViewModels.DeltaViewModel.AddAffectedDomain | src/core/ivm_delta_model.cpp:431-448 | adds a domain to model and node unless one like it is there |
| DeltaViewModels.DeltaViewModel.AddLineageFact | src/core/ivm_delta_model.cpp:423-429 | adds a fact to the model and to the scan it belongs to |
| DeltaViewModels.DeltaViewModel.Build | src/core/ivm_view_classifier.cpp:669-714 | the built model has the decided type, reasons, arena and domains, and meets the model invariant exactly when the aux clauses hold |
| DeltaViewModels.DeltaViewModel.PopulateLineage | src/core/ivm_delta_model.cpp:615-706 | the in-place filling does what the specification says, demoting untraceable ASOF windows |
| DdlExecutor.Executor.Attempt | src/core/parser_ddl.cpp:274-276 | one statement: attempted once, applied if it succeeds |
| DdlExecutor.Executor.FlushPending | src/core/parser_ddl.cpp:259-292 | a batch runs up to its first failure; a lone unique index may fail on duplicates |
| DdlExecutor.Executor.RunCleanup | src/core/parser_ddl.cpp:242-251 | all registered clean-ups, in order |
| DdlExecutor.Executor.DeriveDeltaTable | src/core/parser_ddl.cpp:318-346 | the delta table statement, derived after everything before it was sent |
| DdlExecutor.Executor.ReadItems | src/core/parser_ddl.cpp:293-353 | on success all statements were sent once, in order; on failure a prefix up to the first that fails for good |
| DdlExecutor.Executor.ExecuteDdl | src/core/parser_ddl.cpp:217-356 | the batching executor refines one-at-a-time execution; failure ends in clean-up; the outer transaction is open again unless the connection could not be configured |
| CreateMv.AssembleItems | src/core/parser.cpp:717-1169 | the three lists with their clean-ups, in the order they are passed on; StatementsExactly says which statements that are, EveryStatementRuns that their order is right |
| CreateMv.ItemsAreWellShaped | src/core/parser.cpp:1107-1127 | clean-up comes first and the unique index is alone between markers, for every request |
| CreateMv.StatementsExactly | src/core/parser.cpp:717-1169 | for every statement and every request: it is sent exactly if the request asks for it |
| CreateMv.EveryStatementRuns | src/core/parser.cpp:717-1169 | in that order every statement finds the tables it needs, no CREATE meets an object of its name and the guard meets no row, whatever the catalog held when the check at binding passed |
| CreateMv.CleaningDropsFootprint | src/core/parser.cpp:1055-1169 | the clean-up drops exactly what belongs to the view |
| CreateMv.RegisteredOnlyWhenComplete | src/core/parser.cpp:1155-1169 | at every step of creating an unregistered view, its row is there only if all its physical objects are |
| CreateMv.SourcesRecordedOnlyWhenComplete | src/core/parser.cpp:1124-1129 | the same of the source rows, where there were none |
| CreateMv.RegisteredOnlyWhenCompleteExactly | src/core/parser.cpp:739-754 | that holds exactly if the view was not registered before |
| CreateMv.NothingRemains | src/core/parser.cpp:1000-1169 | wherever a creation fails, after the clean-up no object and no row of the view remains, and nothing else changed |
| CreateMv.FailureRestoresExactly | src/core/parser.cpp:1203-1208 | a failed creation restores the catalog exactly if nothing of the view was there before |
| CreateMv.SuccessIsNewExactly | src/core/parser.cpp:830-888 | all objects of a created view are new exactly if no aux table, and for a plain CREATE no delta table, was left over |
| CreateMv.CreatedIsRegistered | src/core/parser.cpp:777-826 | after a successful creation the row of the view is there and new; source rows, dependencies, history and shared tables are exactly as the request says |
| CreateMv.DependenciesAtTheEnd | src/core/parser.cpp:797-826 | with matching, dependency rows are there exactly if some source is a registered view; without, they are as before |
| CreateMv.SharedAtTheEnd | src/core/parser.cpp:1055-1101 | the delta tables of exactly the sources are added, and shared tables that were there keep their contents |
| CreateMv.CreateMaterializedView | src/core/parser.cpp:225-1208 | a plain CREATE of an existing view is refused untouched; a created view is registered as CreatedIsRegistered has it, with the index exactly if asked for; without a breaking statement every bindable request on a configured connection is created; a failure leaves nothing |
| StatementSplitter.PushBucket | src/compile_facts.cpp:243-284 | the loop with its quote state and look-ahead splits at the semicolons outside quotes |
| StatementSplitter.SplitInvertsJoin | src/compile_facts.cpp:243-284 | splitting the terminated concatenation of statements gives the statements back |
| StatementSplitter.SplitGivesStatements | src/compile_facts.cpp:243-284 | splitting a balanced text gives trimmed, balanced, non-empty statements without top-level semicolon |
| StatementSplitter.SplitIsStableExactly | src/compile_facts.cpp:277-283 | split, join, split equals split exactly for quote-balanced texts |
| FactsJson.DecodeInvertsEscape | src/compile_facts.cpp:57-74 | decoding inverts escaping of quote, backslash and newline |
| FactsJson.MatchesAreFields | src/compile_facts.cpp:50-51 | every match of a key in an object is at a field with that key, whatever the values contain |
| FactsJson.KeyFound | src/compile_facts.cpp:50-56 | the only match of a field's key is that field, with its value behind it |
| FactsJson.ExtractionIsExact | src/compile_facts.cpp:49-123 | each extractor gives the field's value if the type is right, and nothing otherwise |
| FactsJson.ExtractJsonString | src/compile_facts.cpp:49-76 | the string loop decodes the text behind the first match |
| FactsJson.ExtractJsonBool | src/compile_facts.cpp:78-97 | reads a truth value behind the first match, blanks skipped |
| FactsJson.ExtractJsonInt | src/compile_facts.cpp:99-125 | reads a signed 32-bit number behind the first match, nothing if it does not fit |
| FactsJson.ParseFactsJson | src/compile_facts.cpp:142-160 | the facts with their defaults, or which error |
| FactsJson.ParseRecoversFacts | src/compile_facts.cpp:142-160 | a canonical object that says everything is read back completely |
| ResidualRollup.RollupOfRollup | benchmark/poc/chained_mv_poc.py:86-98 | grouping a grouped view is grouping its base by the coarser key |
| ResidualRollup.ChainIsDirect | benchmark/poc/diverse_pipelines.py:231-264 | a chain of rollups of any depth gives one GROUP BY over the base |
| ResidualRollup.ChainedView | benchmark/poc/chained_mv_poc.py:78-98 | mv_b over mv_a is the bypass query |
| ResidualRollup.ChangeTotals | benchmark/poc/chained_mv_poc.py:134-146 | old rows plus signed changes joined to orders have the totals of the new rows at every key |
| ResidualRollup.StalePlusResidualIsFresh | benchmark/poc/robustness_poc.py:109-120 | stale view plus residual equals the query over the changed base on all groups of non-zero count; the other rows read zero |
| ResidualRollup.StaleChainPlusResidual | benchmark/poc/chained_mv_poc.py:128-146 | the same for the stale top of the chain |
| ResidualRollup.GrowingOrdersExactly | benchmark/poc/robustness_poc.py:154-159 | when orders grew too the totals stay right exactly if no old line item refers to an added order |
| ResidualRollup.GrowingOrdersRowsExactly | benchmark/poc/robustness_poc.py:154-159 | and so do the result rows on the groups of non-zero count |

## Left out

- DuckDB itself: binder, optimizer, catalog, storage and SQL serialization are represented by plan datatypes, an evaluator and a catalog state.
- Floating point, overflow and DuckDB's numeric types: numbers are exact; only the lookup key keeps its 64-bit arithmetic.
- AggregateRewrite.DerivedRewritePreserves: a HAVING filter between the top projection and its aggregate may read group columns and aggregates whose column number keeps its meaning; the exact condition, over a table scan, is HavingLimits.HavingKeptExactly.
- AggregateRewrite.DerivedRewritePreserves: derived aggregates with several arguments, with FILTER, or under set operations are outside the theorem; DISTINCT ones are treated by RewriteLimits.DistinctIsDropped.
- PlanOperators.LogicalOperator.RewriteDerivedAggregates: requires column numbers below 2^64, the width of the index type.
- AggregateFilters.FilterRewritePreserves: aggregates outside the builtin ones are assumed to ignore NULL where they carry a FILTER clause; FilterToCaseExactly says that this is needed.
- The other passes of the rewrite pipeline (CTE inlining, scalar folding, DISTINCT, group counts, column propagation, outer and semi joins, `src/core/plan_rewrite.cpp:1360-1369`): each is a rewrite of its own that neither of the two modelled ones depends on.
- Outer joins, shared CTE bodies, ASOF and positional joins, samples, windows and aggregates in the Z-set theorem: their rules are STATEFUL or NON_LINEAR and not claims about linearity.
- DeltaRules.InclusionExclusion: the limit of 16 joined tables is not imposed, the theorem holds for every number.
- ModelRules.DeltaRulesExactly: common table expressions, UNION without ALL, and joins for scalar or correlated subqueries are set aside; their nodes are called LINEAR or PRODUCT as well, but the Z-set theorem does not speak of them.
- Key-domain probes, tiny-delta batching and left-join demotion inside the join compiler: they change how terms are run, and outer joins are not modelled.
- SelfMaintenance.SelfMaintained: the clamp of the refresh formula against rounding below zero has no effect in exact arithmetic and is not modelled.
- CostModel.SystemsHaveOneSolution: `np.linalg.solve` is modelled by Cramer's rule with failure on a zero determinant; the check for finite numbers is void in exact arithmetic.
- IncrementalChecker.AnalyzePlan: expressions are represented by whether they are volatile or contain a non-foldable unnest; the list of supported aggregate names is a property of the name.
- DeltaViewModels.DeltaViewModel.Build: group columns, resolved partition names, the DISTINCT-at-top flag and the strategy reasons enter as a given shape, so the update semantics and BuildGroupColumns are not part of this model; the decision theorems hold for every shape.
- ViewClassifier.ParserGuardIsTooWeak: the guards are those on the analysis; that the text extraction behind them succeeds on the two views is taken for granted.
- JoinPruning.FkPruningSafeExactly: all foreign keys to the referenced table name the same key of it, and a leaf stands for the rows of its table that reach the join.
- SelectGroupRecomputeAffectedMode, output and hidden column lists of nodes, JSON and profile output of the model: easy members.
- DeltaViewModels.DeltaViewModel.PopulateLineage: the searches over the plan for partition and key lineage are parameters; they depend on the plan and the partition columns only, so DeltaLineage.PopulateIsIdempotent may give them the same value twice.
- Parsers of marker payloads, profiling, and the derivation of column lists from DESCRIBE: a malformed payload is one outcome of the delta table statement.
- CreateMv.NothingRemains: clean-up statements are assumed to succeed, as the code ignores their errors; shared tables, source delta tables and the history of a replaced view are not part of the footprint.
- CreateMv.RegisteredOnlyWhenComplete: speaks of the forward steps; during the clean-up after a late failure the row goes last.
- CreateMv.EveryStatementRuns: the table of the dependencies is made when the extension is loaded and is taken to be there.
- Several catalogs and `use`: one namespace; switching the catalog is a statement without effect.
- StatementSplitter.PushBucket: the kind tag pushed beside every statement is constant for a block and is dropped.
- FactsJson.ParseFactsJson: the dialect names are known to another component and are a parameter.
- ResidualRollup.StalePlusResidualIsFresh: quantities and prices are not NULL, as in the generated data.
- Scenario runs, benchmark harnesses, timing and generated workloads: input and output only.
- RefreshLocks, ConstraintCache, name tables and settings: only easy members.
