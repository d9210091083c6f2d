# The evidence engine behind the benchmark scores

This project models the part of the benchmark harness that turns raw results into claims, and
proves what those claims rest on. It has four parts.

* **Paired and out-of-fold inference.** The sign-flip test and its resolution audit (`SignFlip`, `SignTest`,
  `SampledMasks`, `Resolution`, `TinyEffects`), Holm's correction with reserved family slots (`Holm`),
  nearest-rank intervals, verdicts and the overall status of a paired comparison (`Percentiles`, `Comparison`,
  `Verdicts`, `FamilyChoice`), what exchanging its sides does (`OppositeDraws`, `SideSwap`, `SwapExample`), the
  greedy discriminative panel (`Panel`, `PanelPicks`), the two-fold balancer (`Folds`) and cluster-weighted
  correlation (`Correlation`, `CorrelationLaws`).
* **Two aggregation paths.** Public bundles aggregated directly (`Bundles`, `OrderFree`, `Aggregation`,
  `Conservation`), and the same bundles flattened to relational rows (`Database`, `Normalization`), joined back
  and aggregated again (`Reaggregation`, `Observations`, `BothPaths`). `Scores` ties every published figure to
  the rounds of the bundles, `RowLists` is the sorted list of rows that is published.
* **Recommender and planners.** The gated Pareto shortlist (`Recommender`, `Shortlists`), the bundle collection
  plan (`CollectionPlan`) and the Round 5 evidence plan (`PilotPlan`, `EvidencePlan`, `PlanActions`,
  `PlanOutcome`, `PortfolioOutcome`).
* **Round 5 attempts.** The three-turn run and its grade (`PilotRun`), the two validators that recheck it
  (`PilotValidation`), and outcome distances between configurations (`PilotDistances`, `PairLists`,
  `PilotDirection`, `UnobservedAxes`, `PilotVectors`).

Numbers are exact integers and reals. Fingerprints and hashed names are opaque identifiers with an
order; a hashed run ID is the tuple it hashes. Everything drawn by the deterministic sampler is an
arbitrary parameter, so results hold for every draw. `SIGN_FLIP_EXACT_LIMIT`, the tolerance and alpha
are parameters; the remaining constants have the source's values. Code that loops and updates is a
method proved against a specification function or predicate; the lemmas are about that specification.

Where a promise turned out false as worded, the code is modelled as it is, a concrete input shows
the failure, and the exact condition is proved:

* The audit comment that ignoring small effects is conservative when several accumulate
  (`src/llm_hardtest/paired_comparison.py:147-148`) is false. Nine equal effects below the audit's
  cut are reported as `DISCRETE_P_LIMIT` with floor 1, yet the exact test gives p = 0.0390625 and Holm
  rejects (`TinyEffects.NineTinyEffects`); one counted effect beside nine ignored ones gives
  p = 0.01953125 (`TinyEffects.OneLargeNineTiny`). Exactly when the floor is safe
  (`TinyEffects.FloorHoldsExactly`): beside counted effects, whatever these are, when the positive and the
  negative ignored effects each sum to no more than the cut; with every effect ignored, when the size of
  their sum exceeds twice the cut by no more than the least total any choice of signs leaves. That least
  total lies between zero and the largest ignored effect, so a sum of at most two cuts is always safe and
  one above two cuts and the largest effect never is (`TinyEffects.SumDecidesOutsideTheBand`); in between
  the sum does not decide (`TinyEffects.SumDoesNotDecideInTheBand`).
* Exchanging the sides of a paired comparison is promised to keep the p-values and to negate both intervals
  exactly (`docs/PUBLIC_RESULTS.md:240-242`). The p-values do stay (`SideSwap.SwapKeepsPValues`). A nearest-rank
  end is negated exactly when more than its share of the draws lies at or below it
  (`OppositeDraws.NegatesExactly`), for every list of n draws if and only if that share of n is not a whole
  number (`OppositeDraws.AlwaysNegatesExactly`); the budget of draws makes it a whole number for every family
  size (`SwapExample.BudgetMeetsTheEnds`). Nine bundles of which one dissents are inconclusive in one order and
  RIGHT_BETTER in the other (`SwapExample.SwapChangesTheVerdict`). The whole comparison is mirrored exactly
  when, at the ends of all intervals, the next draw is the same to six places (`SideSwap.SwapMirrorsExactly`),
  and whatever is drawn, a claim for the left is kept by the swap (`SideSwap.LeftClaimsSurviveTheSwap`).
* JSON and SQLite evidence are promised to give identical rows (`docs/COMMUNITY_DATABASE.md:158-160`).
  Aggregation and normalisation refuse the same bundles except one family: entries that share an ID and an
  identity but not an execution scaffold (`Reaggregation.OnlyScaffoldsSeparateThePaths`). Any entry repeated
  under another scaffold shows it (`BothPaths.CollisionSeparatesThePaths`); because the ID hashes the
  scaffold, such an input needs a collision of the ten-digit ID prefix. The rows agree key by key
  (`BothPaths.AggregateBothWays`), but the sort fixes their published order exactly when no configuration
  has two packs of a round (`RowLists.SortFixesTheListExactly`); otherwise the two lists agree at every
  position up to the pack (`BothPaths.PublishBothWays`).
* Applying the accuracy floor before or after Pareto filtering gives the same candidates for all rows
  exactly when accuracy is an objective (`Recommender.FloorCommutesExactly`); two aggregated
  configurations show the failure (`Recommender.FloorMatters`).
* A turn stopped by the protocol guard may still exit with zero, because the guard sends a soft
  signal. In the last turn that completes the attempt: the raw validator accepts the grade and the
  public one refuses its row (`PilotValidation.AbortExitingZero`, exact condition in
  `PilotValidation.ExportPassesExactly`).
* The Round 5 guide says that fingerprints mixed across configurations leave no honest numeric estimate,
  so the attempt count stays unavailable (`docs/PILOT_ANALYSIS.md:165-167`). The plan of a configuration
  does give a number when it has no attempts on the pilot and the others mix its packs: two configurations
  (`PlanOutcome.CollectInVain`) or one (`PlanOutcome.CollectInVainBesideAMixture`), and no collection then
  makes that plan ready. For a configuration that needs no alignment some collection does exactly when no
  pilot's packs conflict at present (`PlanOutcome.ReachableExactly`), and then the stated attempts suffice
  (`PlanOutcome.StatedIsEnough`). The total of the portfolio keeps the promise: it is stated exactly when
  no pilot's packs conflict (`PortfolioOutcome.TotalIsStatedExactly`), and is then what collecting takes.

Two limits that the source sets no sentence against, with their exact conditions:

* A favourable subset query cannot weaken correction when the family is declared. With the default
  family it can: an objective that is inconclusive beside another becomes a claim when asked alone
  (`FamilyChoice.NarrowingMakesANewClaim`). Narrowing from n tested hypotheses to m is safe for all
  p-values exactly when m = n (`Holm.DefaultFamilyIsSafeExactly`).
* The directional advantage can exceed the mean distance when a suite reported no tests
  (`UnobservedAxes.UnobservedAxisBreaksTheBound`). For given suites reported per attempt it never does,
  whatever the outcomes, exactly when every attempt is fully observed or one side has no fully observed
  attempt (`UnobservedAxes.BoundHoldsExactly`).

## Model

| member | source | states |
|---|---|---|
| SignFlip.SignFlipTest | src/llm_hardtest/paired_comparison.py:90-120 | the branch taken; the number of extreme sign assignments (not of masks as enumerated), or of the drawn masks whose signed total reaches the observed one within the tolerance; and the p-value rounded up to eight decimals and capped, for every stream of draws |
| SignFlip.MaskTotal | src/llm_hardtest/paired_comparison.py:98-100 | reading a mask bit by bit with shifts gives the signed total of that mask |
| SignFlip.MasksAreAssignments | src/llm_hardtest/paired_comparison.py:97-101 | enumerating all masks counts every choice of signs exactly once |
| SignFlip.ExtremeFloor | src/llm_hardtest/paired_comparison.py:95-102 | with at least one non-zero effect among n, at least 2^(n-k+1) assignments are extreme, k the number of non-zero effects |
| SignFlip.AssignmentsTotal | src/llm_hardtest/paired_comparison.py:95-102 | at most 2^n assignments are extreme, and all of them when the bar is not positive |
| SignFlip.FloorReached | src/llm_hardtest/paired_comparison.py:145-152 | at zero tolerance the floor is reached if and only if all non-zero effects share a sign |
| SignFlip.PublishedBounds | src/llm_hardtest/paired_comparison.py:115 | publishing never lowers a p-value below itself or raises it above one, and by less than one step of the eighth decimal |
| SignFlip.PublishedIsOnGrid | src/llm_hardtest/paired_comparison.py:115 | a published p-value has eight decimals |
| SampledMasks.EveryMaskDrawn | src/llm_hardtest/paired_comparison.py:104-113 | draws that name every mask once find as many extreme ones as the enumeration |
| SampledMasks.OneSidedDraw | src/llm_hardtest/paired_comparison.py:104-113 | for effects of one sign, none of them ignored, a mask is extreme if and only if it keeps or flips all the non-zero ones |
| SampledMasks.OneSidedPublishes | src/llm_hardtest/paired_comparison.py:104-115 | so draws that each flip some but not all of them publish one over the number of draws plus one |
| SampledMasks.FloorIsAttainedExactly | src/llm_hardtest/paired_comparison.py:145-152 | where no effect is ignored the exact share equals the audited floor if and only if all non-zero effects share a sign |
| SampledMasks.AuditIsSharp | src/llm_hardtest/paired_comparison.py:145-168 | for one-sided effects, none ignored, no limit is reported if and only if the strictest Holm multiplier leaves their share below alpha, and the corrected floor is Holm's value of that share at the first rank |
| SignTest.SignFlipIsSignTest | src/llm_hardtest/calibration.py:1241-1246 | on effects of one size the sign-flip share equals the binomial sign test, ties with the clamp included, for every tolerance below one grid step |
| SignTest.StepCount | src/llm_hardtest/calibration.py:1245 | on effects of one size, the assignments reaching a level from any start are a sum of two binomial tails |
| SignTest.ClampedTail | src/llm_hardtest/calibration.py:1245-1246 | doubling the smaller tail overshoots only for equal wins, where the clamp to one is exact |
| Resolution.MinimumNonzeroPairs | src/llm_hardtest/paired_comparison.py:134-142 | the search ends at the least number of pairs whose floor clears alpha at the strictest multiplier, and at zero without a family |
| Resolution.InferenceResolution | src/llm_hardtest/paired_comparison.py:145-168 | the audit flags a limit exactly when the floor misses alpha, and the stated additional pairs reach the required number and no more |
| Resolution.BelowRequired | src/llm_hardtest/paired_comparison.py:153-157 | having fewer pairs than required is the same as the floor missing alpha |
| Resolution.AuditedFloor | src/llm_hardtest/paired_comparison.py:145-152 | if every effect is zero or beyond the disclosed tolerance, neither the exact share nor the published p-value is below the audited floor |
| TinyEffects.FloorHoldsExactly | src/llm_hardtest/paired_comparison.py:147-151 | beside ignored effects the floor holds for all counted effects if and only if the ignored ones are harmless (each sign sums to at most the cut); without counted effects, if and only if no choice of signs falls short of the sum by more than twice the cut |
| TinyEffects.SumDecidesOutsideTheBand | src/llm_hardtest/paired_comparison.py:147-151 | with every effect ignored, a sum of at most two cuts keeps the floor and one above two cuts plus the largest effect loses it |
| TinyEffects.SumDoesNotDecideInTheBand | src/llm_hardtest/paired_comparison.py:147-151 | between these two bounds there are effects that keep the floor and effects that lose it |
| TinyEffects.SafeFloor | src/llm_hardtest/paired_comparison.py:145-152 | for effects in any order that meet the exact condition, neither the exact share nor the published p-value is below the audited floor |
| TinyEffects.ZeroOrBeyondIsSafe | src/llm_hardtest/paired_comparison.py:149-150 | effects that are each zero or beyond the disclosed tolerance always meet that condition |
| TinyEffects.NineTinyEffects | src/llm_hardtest/paired_comparison.py:147-157 | nine equal ignored effects: audited floor one and a reported limit, exact p-value 0.0390625, rejected by Holm at 0.05 |
| TinyEffects.OneLargeNineTiny | src/llm_hardtest/paired_comparison.py:147-157 | one counted effect and nine ignored ones: the same report, exact p-value 0.01953125, rejected |
| Holm.HolmAdjust | src/llm_hardtest/paired_comparison.py:197-206 | refuses exactly a family smaller than the tested rows, leaving the rows alone; otherwise each tested row, in place, gets the running maximum at its rank and no other field changes |
| Holm.HoldoutHolm | src/llm_hardtest/calibration.py:1094-1104 | the out-of-fold loop over the tested rows in p, target and item order, which caps after the maximum, writes the same adjusted values in place with the tested rows as family |
| Holm.AdjustedNondecreasing | src/llm_hardtest/paired_comparison.py:201-206 | adjusted p-values are nondecreasing in rank |
| Holm.AdjustedBounds | src/llm_hardtest/paired_comparison.py:201-206 | an adjusted p-value is at least the raw one and at most one |
| Holm.RejectedExactly | src/llm_hardtest/paired_comparison.py:201-206 | an adjusted p-value is below alpha if and only if step-down Holm rejects that rank |
| Holm.Familywise | src/llm_hardtest/paired_comparison.py:197-206 | if any row of a set of hypotheses is rejected, some row of the set passes Bonferroni over the set plus the reserved slots |
| Holm.SubsetAdjusted | src/llm_hardtest/paired_comparison.py:197-206 | for sorted p-values, a hypothesis in a smaller query gets at least its adjusted p-value of the full query |
| Holm.SubsetSafe | src/llm_hardtest/paired_comparison.py:384-385 | the same for rows in any order under one declared family, although ranks and running maxima differ |
| Holm.DefaultFamilyIsSafeExactly | src/llm_hardtest/paired_comparison.py:385 | with the family defaulting to the tested objectives, narrowing from n to m never lowers an adjusted p-value, for all p-values, if and only if m = n |
| FamilyChoice.NarrowingMakesANewClaim | src/llm_hardtest/paired_comparison.py:384-441 | two objectives with published p-values 0.03125 and 0.0390625: the second is inconclusive beside the first, whatever that query draws, and LEFT_BETTER alone, for all draws of its own whose pointwise interval is positive |
| Holm.AdjustedOnGrid | src/llm_hardtest/paired_comparison.py:206 | adjusted values of published p-values lie on the published grid, so rounding them to it changes nothing |
| Percentiles.PercentileMonotone | src/llm_hardtest/calibration.py:336-340 | a larger probability never gives a smaller nearest-rank percentile |
| Percentiles.PercentilePermutation | src/llm_hardtest/calibration.py:336-340 | a percentile depends only on the multiset of values |
| Percentiles.PercentileIsNearestRank | src/llm_hardtest/calibration.py:336-340 | a value is the percentile if and only if it is in the list, at least the share p of the list is at or below it, and less than that is below it |
| Comparison.SimultaneousContainsPointwise | src/llm_hardtest/paired_comparison.py:171-194 | for any draws and any family size the published simultaneous interval contains the pointwise one |
| Comparison.FloorOnlyDemotes | src/llm_hardtest/paired_comparison.py:415-441 | raising the practical floor of a row keeps its side and at most turns a decisive verdict into a small effect |
| Comparison.SideFromPointwise | src/llm_hardtest/paired_comparison.py:421-441 | a verdict has a side if and only if Holm rejects and the pointwise interval lies on that side of zero, so left and right exclude each other |
| Comparison.LargerPWithdraws | src/llm_hardtest/paired_comparison.py:427-441 | a larger adjusted p-value changes a verdict only to inconclusive |
| Comparison.JudgeLoop | src/llm_hardtest/paired_comparison.py:415-441 | the in-place pass gives every row the verdict of that row alone |
| Verdicts.ReportedIntervals | src/llm_hardtest/paired_comparison.py:171-194 | the ends of both intervals of a tested objective are draws of nearest rank, rounded to six places: at 0.025 and 0.975, and at alpha shared among both sides of the family |
| Verdicts.VerdictMeans | src/llm_hardtest/paired_comparison.py:421-441 | each verdict in terms of the adjusted p-value, the two intervals and the floor, and the threshold flag with it |
| Verdicts.InsufficientMeans | src/llm_hardtest/paired_comparison.py:380-383 | a row is INSUFFICIENT if and only if its objective has fewer pairs than the minimum |
| Verdicts.StatusMeans | src/llm_hardtest/paired_comparison.py:443-473 | each of the seven statuses of a whole query, in terms of which verdicts are claimed, whether anything is tested and whether all that is tested is at the discrete limit |
| Comparison.Compare | src/llm_hardtest/paired_comparison.py:237-473 | accepts exactly distinct objectives within the declared family, and reports rows, family, tested and limited counts and status of the whole pipeline of intervals, audit, test, Holm and verdicts |
| Comparison.SubsetQueryMakesNoNewClaim | results/README.md:103-107 | asking a subset of the objectives under the same declared family gives each one the verdict of the full query or inconclusive |
| Comparison.RaisingFloorsOnlyDemotes | src/llm_hardtest/paired_comparison.py:415-441 | raising practical floors anywhere in a whole query reverses no direction and withdraws none |
| OppositeDraws.NegatesExactly | src/llm_hardtest/calibration.py:336-340 | negating the draws negates a percentile if and only if more than the opposite share of the draws is at or below the opposite percentile, and never leaves it above |
| OppositeDraws.AlwaysNegatesExactly | src/llm_hardtest/calibration.py:336-340 | it does so for every list of n draws if and only if p times n is not a whole number |
| SideSwap.SwapKeepsPValues | docs/PUBLIC_RESULTS.md:240-242 | with the sides exchanged every row of a query keeps its raw and adjusted p-value, its floor and its discrete limit |
| SideSwap.LeftClaimsSurviveTheSwap | docs/PUBLIC_RESULTS.md:240-242 | for all draws, a verdict for the left becomes one for the right of at least the same strength, and only a verdict for the right can become one for the left |
| SideSwap.SwapMirrorsExactly | docs/PUBLIC_RESULTS.md:240-242 | all intervals of a query are negated and all verdicts change sides if and only if, for every tested objective, the draws at the four ranks that end an interval and the draws after them agree to six places; and then the status changes sides |
| SwapExample.BudgetMeetsTheEnds | src/llm_hardtest/paired_comparison.py:123-131 | for every family size the budget of draws makes the shares at both intervals' ends whole numbers, so neither is negated for all draws |
| SwapExample.SwapChangesTheVerdict | src/llm_hardtest/paired_comparison.py:171-194 | nine effects and draws that are all resamples of them: INCONCLUSIVE in one order, RIGHT_BETTER in the other |
| Comparison.LimitIsReported | src/llm_hardtest/paired_comparison.py:410-473 | if every tested objective is at the discrete limit, on the exact branch and with ignored effects that leave the floor valid, Holm rejects nothing, every tested row is inconclusive and the status is RESOLUTION_LIMITED |
| Panel.FindBest | src/llm_hardtest/calibration.py:889-904 | one pass in any order of the remaining set finds the minimal ranked item, or that no item helps |
| Panel.BestIsUnique | src/llm_hardtest/calibration.py:896-904 | the minimal ranked item is unique, so set iteration order cannot matter |
| Panel.SelectPanel | src/llm_hardtest/calibration.py:883-923 | refuses exactly limits below one; otherwise picks, uncovered targets and status are those of the greedy plan |
| Panel.GreedyPartitions | src/llm_hardtest/calibration.py:887-915 | picks are distinct items, their new targets are non-empty, pairwise disjoint and targets of their item, and the limit is kept |
| Panel.UnboundedPanelIsComplete | src/llm_hardtest/calibration.py:917-923 | an unbounded panel with targets is always COMPLETE |
| Panel.EveryPickShrinks | src/llm_hardtest/calibration.py:887-915 | if some k items cover all targets, each pick leaves at most (k-1)/k of what was uncovered |
| Panel.PanelCoverage | src/llm_hardtest/calibration.py:883-915 | hence after t picks uncovered * k^t is at most n * (k-1)^t |
| PanelPicks.PicksAreBest | src/llm_hardtest/calibration.py:889-904 | at every pick, no item not picked before confirms more new targets, or as many with fewer clashes with the earlier picks, then fewer dependencies, a larger margin, a larger effect or an earlier name |
| PanelPicks.PanelStatusMeans | src/llm_hardtest/calibration.py:917-923 | COMPLETE if and only if there are targets and all are gained; PARTIAL if and only if some are not, and then the panel holds exactly as many items as its limit; without targets the eligible pairs decide |
| Folds.AssignFolds | src/llm_hardtest/calibration.py:1004-1014 | the loop produces the folds and per-fold counts of the balancing rule, unit by unit |
| Folds.ImbalanceBound | src/llm_hardtest/calibration.py:1004-1014 | after every unit the sum over configurations of the squared count difference is at most the number of unit-configuration incidences |
| Folds.EachLeadBound | src/llm_hardtest/calibration.py:1004-1014 | so no configuration's squared lead exceeds the incidences |
| Folds.CountsAreHeld | src/llm_hardtest/calibration.py:1004-1014 | the running counts are the units each fold actually holds of a configuration |
| Folds.EachUnitsFold | src/llm_hardtest/calibration.py:1004-1014 | every unit is in the fold whose earlier units hold its configurations less often, and on a tie in that of its index's parity |
| Folds.SingletonsSplitEvenly | src/llm_hardtest/calibration.py:1004-1014 | when every unit has one configuration, each configuration's units are split in half up to one, so ten give five per side |
| Correlation.CauchySchwarz | src/llm_hardtest/calibration.py:343-376 | for any non-empty clusters both moment variances are non-negative and the squared numerator is at most their product |
| Correlation.VarianceClampsAreIdle | src/llm_hardtest/calibration.py:367 | the clamps under the square root change nothing |
| Correlation.RatioClampIsIdle | src/llm_hardtest/calibration.py:367-370 | the clamp on the ratio changes nothing, whichever non-zero root is taken |
| Correlation.RepetitionIsIdle | src/llm_hardtest/calibration.py:343-352 | repeating all rows of a cluster any number of times leaves its moments unchanged |
| Correlation.RepetitionKeepsCorrelation | src/llm_hardtest/calibration.py:373-376 | so the moments of all clusters, and the correlation, are unchanged |
| CorrelationLaws.MomentsAverage | src/llm_hardtest/calibration.py:343-352 | a pair alone has its own moments, and the moments of two groups of pairs average by their sizes |
| CorrelationLaws.PermutationKeepsCorrelation | src/llm_hardtest/calibration.py:343-376 | permuting the pairs of a cluster changes no moments |
| CorrelationLaws.LineCorrelates | src/llm_hardtest/calibration.py:355-376 | points on a rising or falling line correlate as one or minus one, in clusters of any sizes, unless x does not vary |
| OrderFree.PermutedRuns | src/llm_hardtest/community_results.py:121-217 | a bundle's contribution does not depend on the order of its runs |
| OrderFree.ReorderedItems | src/llm_hardtest/community_results.py:121-217 | nor on the order of the items inside its runs |
| OrderFree.StatsAreOrderFree | src/llm_hardtest/community_results.py:121-217 | a published row, intervals and percentiles included, depends only on the multiset of bundle contributions |
| Aggregation.AggregateSubmissions | src/llm_hardtest/community_results.py:121-217 | refuses exactly lists in which one configuration ID shows two identities; otherwise each key gets the statistics of its bundle contributions |
| Aggregation.RowsShowTheirIdentity | src/llm_hardtest/community_results.py:133-197 | every row shows the identity first recorded for its configuration, whose name is the one the row is grouped under |
| Aggregation.ConsistentMeansSame | src/llm_hardtest/community_results.py:121-217 | the running collision check accepts exactly the lists in which equal IDs mean equal identities |
| Aggregation.LocalsLookup | src/llm_hardtest/community_results.py:121-217 | what a bundle's nested dictionaries hold under a key is the accumulation of its runs with that key, duplicate model entries included |
| Aggregation.MergeLookup | src/llm_hardtest/community_results.py:121-217 | what a group holds is one contribution per bundle that has the key |
| RowLists.PublishRows | src/llm_hardtest/community_results.py:189-217 | visited in any order, the groups are published as one list sorted by round, folded name and configuration, each row once |
| RowLists.PublishedAlike | src/llm_hardtest/community_results.py:189-217 | however ties fall, two published lists of the same rows agree at every position up to the pack, and are equal if no configuration has two packs of a round |
| RowLists.SortFixesTheListExactly | src/llm_hardtest/community_results.py:189-191 | some other sorted list shows the same rows if and only if some configuration has rows for two packs of a round |
| Conservation.BundleContribution | src/llm_hardtest/community_results.py:121-217 | a bundle contributes to a key exactly the totals of its runs with that key |
| Conservation.NothingIsLost | src/llm_hardtest/community_results.py:121-217 | a row exists exactly for the keys some run has, its run count and five totals are those of all runs with the key over all bundles, and its submissions are the bundles that have one |
| Scores.RowsShowTheBundles | src/llm_hardtest/community_results.py:121-217 | a row exists if and only if some round is recorded under its key; its totals are sums over bundles, entries and rounds of passed and total, or of releases and attempts in round 4, and its intervals and percentiles are those of the ratios and means each bundle's own sums give |
| Database.AllIdsDistinct | src/llm_hardtest/community_database.py:215-300 | with distinct bundle IDs and one result per round, no two stored runs share an ID, however many duplicate model entries a bundle holds |
| Database.JoinedRun | src/llm_hardtest/community_database.py:592-640 | joining the tables by ID gives every run back with its own items, up to their order |
| Database.StoredCell | src/llm_hardtest/community_database.py:592-705 | every bundle contributes the same cell to every key after storing and joining |
| Normalization.NormalizeSubmissions | src/llm_hardtest/community_database.py:215-300 | refuses exactly when one configuration ID has two different rows; otherwise, for any hash order, the tables hold exactly the runs and items of the bundles and exactly one row per configuration that some entry shows |
| Reaggregation.AggregateDatabase | src/llm_hardtest/community_database.py:592-705 | on tables with their foreign keys intact, the rows are those of the joined runs for some order of visiting the bundles |
| Reaggregation.PathsAgree | src/llm_hardtest/community_database.py:592-705 | whatever that order and whatever the row order, they are exactly the rows of direct aggregation, key by key |
| Scores.StoredRowsShowTheBundles | src/llm_hardtest/community_database.py:592-705 | the rows rebuilt from the tables show the same sums over the bundles |
| Scores.StoredRowsAreRounds | src/llm_hardtest/community_database.py:256-275 | the run table holds exactly one row per round of an entry, with the metrics that round is scored by in the right columns |
| Reaggregation.OnlyScaffoldsSeparateThePaths | src/llm_hardtest/community_database.py:215-300 | normalisation accepts exactly the bundles that direct aggregation accepts and whose equal IDs also mean equal scaffolds |
| BothPaths.CollisionSeparatesThePaths | src/llm_hardtest/community_database.py:215-300 | a bundle that repeats any entry under another scaffold and the same ID: direct aggregation accepts it, normalisation refuses it |
| Reaggregation.StoredIsLinked | src/llm_hardtest/community_database.py:592-640 | stored tables satisfy the foreign keys that re-aggregation relies on |
| Observations.BundleObservations | src/llm_hardtest/paired_comparison.py:24-87 | one observation per bundle, round, pack and configuration, in key order, or refusal of exactly the colliding lists |
| Observations.PairedDatabaseObservations | src/llm_hardtest/community_database.py:708-770 | one observation per stored unit, in key order |
| Observations.ObservationsAgree | src/llm_hardtest/community_database.py:708-770 | the two observation lists are equal as lists |
| Scores.ObservationsShowTheBundles | src/llm_hardtest/paired_comparison.py:24-87 | there is an observation exactly for the units with a recorded round, and its four measures are quotients of sums over those rounds |
| BothPaths.AggregateBothWays | README.md:326-330 | for every publishable list and every hash order, normalising, storing and re-aggregating gives the rows of direct aggregation, and refuses exactly the collisions named |
| BothPaths.PublishBothWays | docs/COMMUNITY_DATABASE.md:158-160 | the lists published by the two paths are sorted, hold every row of direct aggregation once, and are equal position by position up to rows that differ only in pack; without such rows they are equal |
| BothPaths.ObserveBothWays | src/llm_hardtest/community_database.py:708-770 | the same for paired observations |
| Recommender.DominanceTransitive | src/llm_hardtest/community_results.py:287-299 | dominance is transitive |
| Recommender.DominanceAsymmetric | src/llm_hardtest/community_results.py:287-299 | dominance is asymmetric |
| Recommender.DominanceIrreflexive | src/llm_hardtest/community_results.py:287-299 | no row dominates itself, so skipping the row itself is no restriction |
| Shortlists.DominanceMeans | src/llm_hardtest/community_results.py:287-299 | one row dominates another if and only if it is worth at least as much on every objective, latency counting negatively, and more on one |
| Recommender.DroppedRowsAreBeaten | src/llm_hardtest/community_results.py:443-449 | every row dropped as dominated is dominated by a returned candidate |
| Recommender.GateRows | src/llm_hardtest/community_results.py:410-442 | the gates keep exactly the eligible rows, and the four counters account for all others |
| Recommender.TalliedCounts | src/llm_hardtest/community_results.py:410-442 | each exclusion counter is the number of rows whose first failed gate is that one |
| Recommender.KeepFront | src/llm_hardtest/community_results.py:443-449 | the loop keeps exactly the undominated rows and counts the others |
| Shortlists.ConstraintMeans | src/llm_hardtest/community_results.py:238-252 | a row meets an equality exactly for the value it shows and a limit from the number it shows upwards, and nothing about an attribute it lacks |
| Shortlists.SelectsMeans | src/llm_hardtest/community_results.py:379-410 | a pack is selected if and only if the round offers it and the query names it, or names none and nothing else is offered |
| Shortlists.PackRequiredMeans | src/llm_hardtest/community_results.py:379-410 | a pack is required if and only if the round offers two |
| Shortlists.ObjectiveMeans | src/llm_hardtest/community_results.py:255-284 | each objective takes five reporting bundles and shows the lower interval end, the ninetieth percentile of latency or the median of throughput |
| Shortlists.EligibleMeans | src/llm_hardtest/community_results.py:410-442 | a row is eligible if and only if it meets every constraint, shows an accuracy and every objective, and reaches the floor |
| Shortlists.FateMeans | src/llm_hardtest/community_results.py:410-442 | every other row is counted at the first gate it misses |
| Shortlists.ShortlistStatusMeans | src/llm_hardtest/community_results.py:453-468 | each status in terms of which rows match and how many are eligible; a single eligible row is the candidate |
| Recommender.Recommend | src/llm_hardtest/community_results.py:379-468 | the pack selected, the candidates as Pareto front of the eligible rows in name order, the status, and exclusion counts that add up with the candidates to the rows of the pack |
| Recommender.FloorCommutesExactly | src/llm_hardtest/community_results.py:437-449 | filtering by the floor before or after Pareto filtering agrees on all rows if and only if accuracy is an objective |
| Recommender.FloorMatters | src/llm_hardtest/community_results.py:437-449 | without accuracy two aggregated configurations of five bundles each show the difference, for any other objectives and any interval that tells their rates apart |
| CollectionPlan.BuildPlan | src/llm_hardtest/collection_plan.py:23-130 | refuses exactly targets outside 5 to 1000; otherwise plans every matching row of the selected pack once, largest need first and then by folded model and configuration, with ready count, total and status |
| CollectionPlan.PlanIsListed | src/llm_hardtest/collection_plan.py:74-121 | sorting the rows before planning and the plan afterwards loses no row, orders by all three keys, and leaves ready count and total unchanged |
| CollectionPlan.ReadyMeansNothingMissing | src/llm_hardtest/collection_plan.py:82-95 | the largest deficit is zero exactly when accuracy has its five bundles and every selected objective meets the target |
| CollectionPlan.TargetMetUnlocksTheShortlist | src/llm_hardtest/collection_plan.py:118-121 | TARGET_MET implies that the same query excludes no row as insufficient or missing an objective |
| CollectionPlan.PlanThenRecommend | src/llm_hardtest/collection_plan.py:64-121 | planning and recommending with one query: TARGET_MET means the shortlist matches exactly the planned rows and each is a candidate, dominated or below the floor |
| CollectionPlan.LeastTargetIsTheGate | src/llm_hardtest/collection_plan.py:82-95 | at the least target a matching row is ready if and only if it passes those two gates |
| CollectionPlan.AggregatesAreCoherent | src/llm_hardtest/community_results.py:255-273 | every aggregated row shows a metric exactly when enough bundles report it, as the planner assumes |
| CollectionPlan.StatedNumberIsExact | src/llm_hardtest/collection_plan.py:80-108 | adding j complete bundles makes a row ready if and only if j is at least its stated minimum |
| CollectionPlan.FewerIsNotEnough | src/llm_hardtest/collection_plan.py:80-108 | no smaller collection, complete or not, makes it ready |
| CollectionPlan.PlannerStates | src/llm_hardtest/collection_plan.py:80-108 | every planned row states what its own bundles leave open |
| CollectionPlan.WholePlanExactly | src/llm_hardtest/collection_plan.py:106-121 | complete bundles spread over the planned rows meet the target for the whole plan if and only if every row gets its stated number |
| CollectionPlan.StatedTotalIsNeeded | src/llm_hardtest/collection_plan.py:106-121 | no collection smaller than the stated total meets the target, complete or not, however it is spread |
| PilotRun.RunTurns | src/llm_hardtest/round5.py:363-393 | for any agent answers, the turns kept are those up to the first that is not delivered, has no known session or edits early, and at most three |
| PilotRun.RunAttempt | src/llm_hardtest/round5.py:350-405 | the grade is COMPLETE exactly when all three turns proceed; COMPLETE implies no early edit and no stop reason; incomplete_turns never occurs |
| PilotRun.NeverIncompleteTurns | src/llm_hardtest/round5.py:230-249 | every attempt that is not complete has a named cause |
| PilotRun.CompleteIsClean | src/llm_hardtest/round5.py:255-256 | a complete attempt changed no file before approval |
| PilotRun.UnchangedMeansSame | src/llm_hardtest/round5.py:174-175 | no name is reported as changed exactly when the two snapshots are equal |
| PilotRun.StopReasonNamesTheLastTurn | src/llm_hardtest/round5.py:230-249 | when sessions are echoed and aborted turns fail, the stop reason is the problem of the last turn, or an early edit |
| PilotRun.StopReasonMeans | src/llm_hardtest/round5.py:230-247 | for any turns of an incomplete attempt, the reason is what is wrong with the first troubled turn, in the order of the five causes |
| PilotRun.NoTroubleMeans | src/llm_hardtest/round5.py:247-249 | without one it is an early edit, or no named cause |
| PilotRun.GradeMeans | src/llm_hardtest/round5.py:252-308 | every field of the written grade in terms of what the agent did in the turns kept and of the two test runs |
| PilotValidation.ValidateGrade | src/llm_hardtest/pilot_analysis.py:129-251 | accepts exactly the grades consistent with their turns and transcripts, and recomputes the row they state |
| PilotValidation.ValidateAttempts | src/llm_hardtest/public_pilots.py:206-258 | accepts exactly non-empty lists of consistent rows with distinct attempt numbers |
| PilotValidation.AcceptedGradesAreDetermined | src/llm_hardtest/pilot_analysis.py:153-217 | accepted grades over the same turns, edits, evidence and test results are equal |
| PilotValidation.AcceptedTurns | src/llm_hardtest/pilot_analysis.py:159-199 | an accepted grade has at most three turns, of which only the third could write; exit codes, answers and causes are complete and consistent, and a stopped turn shows three unsupported calls |
| PilotValidation.AcceptedRowsAreDetermined | src/llm_hardtest/public_pilots.py:219-258 | accepted public rows with the same stop reason, turns, calls, edits and test results are equal |
| PilotValidation.RunPassesRaw | src/llm_hardtest/pilot_analysis.py:159-217 | every grade a run writes passes the raw validator, given well-formed transport and evidenced aborts |
| PilotValidation.RawNeedsTheEvidence | src/llm_hardtest/pilot_analysis.py:200-205 | with well-formed transport it passes if and only if every kept aborted turn shows the threshold number of calls |
| PilotValidation.ExportPassesExactly | src/llm_hardtest/public_pilots.py:219-258 | of the raw validator's accepted grades, the public one accepts exactly those where an abort, if any, is the first problem of an incomplete attempt |
| PilotValidation.EchoedRunsPassExactly | src/llm_hardtest/public_pilots.py:234-248 | with sessions echoed, a run's row is refused exactly when a complete attempt holds an aborted turn |
| PilotValidation.RunPassesBoth | src/llm_hardtest/public_pilots.py:219-258 | every run passes both validators when aborted turns fail, sessions are echoed and aborts are evidenced |
| PilotValidation.AbortExitingZero | src/llm_hardtest/public_pilots.py:239-241 | an aborted last turn that exits with zero: accepted raw, refused publicly |
| PilotValidation.ForgottenSession | src/llm_hardtest/public_pilots.py:239-241 | a turn that does not echo a known session hides a later abort behind missing_session: accepted raw, refused publicly |
| PilotPlan.Summarise | src/llm_hardtest/pilot_analysis.py:991-1014 | one row per observed pilot and pack, with its complete, incomplete and violating attempts counted |
| PilotPlan.Coverage | src/llm_hardtest/pilot_analysis.py:1000-1058 | the rows, the ambiguous pilots (exactly those with two packs) and the five gates of a configuration |
| PlanActions.RowMeans | src/llm_hardtest/pilot_analysis.py:991-1014 | a scenario row counts its complete, incomplete and violating attempts |
| PlanActions.GatesMean | src/llm_hardtest/pilot_analysis.py:1025-1035 | each of the five gates in terms of the attempts, complete ones counted over all packs of a pilot |
| PilotPlan.FirstStateIsStanding | src/llm_hardtest/pilot_analysis.py:809-853 | the state read off the first scenario row is the standing of all attempts on the pilot |
| PilotPlan.GatesMeanAllReady | src/llm_hardtest/pilot_analysis.py:1025-1035 | all coverage gates hold if and only if every required pilot's own state is READY |
| EvidencePlan.AlignStates | src/llm_hardtest/pilot_analysis.py:803-869 | after both passes every state is the configuration's own one, overwritten exactly where packs conflict and it has packs |
| EvidencePlan.PlanConfiguration | src/llm_hardtest/pilot_analysis.py:912-970 | one action for exactly the pilots that are not ready, the plan status, and the total, undefined exactly when some pilot has no number |
| PlanActions.ActionsMean | src/llm_hardtest/pilot_analysis.py:912-955 | the plan holds exactly one action for a pilot without attempts, with conflicting packs, with an unclean attempt or with a single clean one, each with its kind, number and packs, and none for any other |
| EvidencePlan.BuildPlans | src/llm_hardtest/pilot_analysis.py:803-970 | the same for every configuration over the aligned states |
| EvidencePlan.PlanReadyExactly | src/llm_hardtest/pilot_analysis.py:1025-1057 | a configuration is READY if and only if all its coverage gates hold and no pilot needs cross-configuration alignment |
| PlanOutcome.CollectExactly | src/llm_hardtest/pilot_analysis.py:803-970 | for a configuration that needs no alignment, replacing marked histories and adding clean attempts makes it READY if and only if every pilot gets its stated number and these attempts use one pack per pilot together with what the other configurations hold |
| PlanOutcome.CollectOnAgreedPacks | src/llm_hardtest/pilot_analysis.py:803-970 | where all packs agree and are used, READY if and only if every pilot gets its stated number |
| PlanOutcome.StatedTotalIsLeast | src/llm_hardtest/pilot_analysis.py:956-967 | no collection smaller than the stated total makes it READY |
| PlanOutcome.StatedIsEnough | src/llm_hardtest/pilot_analysis.py:956-967 | when no pilot's packs conflict, a collection of exactly the stated total makes it READY |
| PlanOutcome.ReachableExactly | src/llm_hardtest/pilot_analysis.py:803-970 | for a configuration that needs no alignment, some clean collection makes it READY if and only if no pilot's packs conflict when the plan is issued |
| PlanOutcome.AppendingCannotErase | src/llm_hardtest/pilot_analysis.py:937-944 | a configuration that keeps an incomplete or violating attempt is never READY |
| PlanOutcome.DisagreementElsewhereBlocks | src/llm_hardtest/pilot_analysis.py:855-869 | while the other configurations hold more than one pack of a pilot, two of them or one alone, no collection makes this one READY |
| PlanOutcome.CollectInVain | src/llm_hardtest/pilot_analysis.py:803-869 | two configurations complete on different packs of a pilot and a third with an attempt on another pilot only: the third needs no alignment, has a stated total, and can never become READY |
| PlanOutcome.CollectInVainBesideAMixture | src/llm_hardtest/pilot_analysis.py:803-869 | the same beside one configuration that mixes two packs of a pilot |
| PortfolioOutcome.SummarisePlans | src/llm_hardtest/pilot_analysis.py:972-987 | the summary counts the ready plans and those needing alignment, and adds up the numbers unless one needs alignment |
| PortfolioOutcome.TotalIsStatedExactly | src/llm_hardtest/pilot_analysis.py:803-987 | a total is stated if and only if no pilot's packs conflict, and then every configuration has a number |
| PortfolioOutcome.PortfolioExactly | src/llm_hardtest/pilot_analysis.py:803-987 | when none needs alignment and all collect at once, every configuration becomes READY if and only if each gets its stated numbers and all histories together use one pack per pilot |
| PortfolioOutcome.PortfolioTotalIsLeast | src/llm_hardtest/pilot_analysis.py:972-987 | no collection smaller than the stated total, however spread over the configurations, makes all of them READY |
| PortfolioOutcome.PortfolioTotalIsEnough | src/llm_hardtest/pilot_analysis.py:972-987 | when a total is stated, a collection of exactly that size makes all configurations READY |
| PilotDistances.SeparationSplitsByAxis | src/llm_hardtest/pilot_analysis.py:296-328 | with all axes observed, for any numbers of attempts, the mean axis-level adjusted separation equals the overall one, and one is undefined exactly when the other is |
| PilotDistances.DistancesByAxis | src/llm_hardtest/pilot_analysis.py:254-257 | summing pair distances is summing axis gaps over all pairs, shared among the eight axes |
| PairLists.CombinationsExactly | src/llm_hardtest/pilot_analysis.py:288-293 | the pairs within a side are the attempts at i and j, once for every i < j |
| PairLists.CombinationsNumber | src/llm_hardtest/pilot_analysis.py:288-293 | n attempts make n(n-1)/2 of them |
| PairLists.CrossExactly | src/llm_hardtest/pilot_analysis.py:1089-1091 | the pairs between two sides are the left attempt at i and the right one at j, once for every i and j |
| PairLists.SeparationDefinedExactly | src/llm_hardtest/pilot_analysis.py:1092-1121 | a separation is defined if and only if both sides hold at least two attempts |
| PairLists.UniformSeparation | src/llm_hardtest/pilot_analysis.py:1092-1121 | where repeats lie x and y apart and the sides z, the separation is z - (x + y) / 2, zero if all are equally far apart |
| PairLists.UniformAxisSeparation | src/llm_hardtest/pilot_analysis.py:296-328 | the same on a single axis |
| PilotDirection.AxisAdvantageBounded | src/llm_hardtest/pilot_analysis.py:331-347 | on every axis, whatever was observed, the advantage is defined exactly when the distance is and never exceeds it |
| PilotDirection.UniformAxisAdvantage | src/llm_hardtest/pilot_analysis.py:331-347 | where each side shows one value on an axis the advantage is left minus right, undefined without an attempt on each side |
| PilotDirection.AdvantageBounded | src/llm_hardtest/pilot_analysis.py:1089-1143 | with all axes observed, the absolute directional advantage never exceeds the mean distance |
| UnobservedAxes.BoundHoldsExactly | src/llm_hardtest/pilot_analysis.py:446-451 | for given suites reported per attempt, the advantage stays within the distance for every producible outcome if and only if every attempt is fully observed or one side has no fully observed attempt |
| UnobservedAxes.UnobservedAxisBreaksTheBound | src/llm_hardtest/pilot_analysis.py:446-451 | a perfect attempt against a failed one and one whose hidden suite reported nothing: the advantage is one, the mean distance four sevenths |
| PilotVectors.AcceptedIsProducible | src/llm_hardtest/pilot_analysis.py:210-232 | every vector of an accepted grade is producible: flags, rates, and release-ready exactly when transport, authority and both suites are full |
| PilotVectors.VectorMeans | src/llm_hardtest/pilot_analysis.py:210-232 | the eight axes of an accepted grade in their order: completion, no early edit, revision, the two test rates, release, report accuracy and clean tool use |
| PilotVectors.OpposedIsProduced | src/llm_hardtest/pilot_analysis.py:210-232 | the vectors that break the bound are those of accepted grades |

## Left out

- SQLite storage, schema manifests, canonical JSON and SHA-256: only injective IDs and unordered rows remain.
- Floating-point rounding: `round(..., 6)` is modelled in the published intervals and the p-value grid, elsewhere arithmetic is exact.
- The Wilson bound of a rate interval is a function parameter, the same one on both aggregation paths; the square root in a correlation is any real whose square is the product of the variances.
- Sampling error of the Monte Carlo branch, bootstrap coverage and the sampler's hashing: draws are arbitrary parameters.
- Building panel targets from configuration comparisons, item relationships, the permutation test of the holdout and its classification into confirmed, weak and reversed.
- The pairing of observations into effects and the validation of objectives, floors and configurations before inference.
- Parsing and validation of constraint names; attributes of a row are a map and folded text is an identifier.
- The pair-gain ranking of the Round 5 plan and the order of its actions and scenario priorities.
- Report accuracy, evidence revision, wall time and token totals of a Round 5 grade; grades of an older format with fields missing, and public schema version 1.
- Subprocess, sandbox and agent transport: an agent's three answers are arbitrary, and what the validators need of them is a stated premise.
- Identity, privacy and allowlist checks of public bundles, rendering, the command line and configuration loading: easy or single-branch facts.
- Aggregation.AggregateSubmissions: returns the rows as a map by key; `RowLists.PublishRows` models the sorted list that is published.
- Reaggregation.AggregateDatabase: the same on the stored side; `BothPaths.PublishBothWays` states the order of both lists.
- BothPaths.AggregateBothWays: compares the rows key by key; `BothPaths.PublishBothWays` compares the sorted lists.
- Comparison.Compare: does not model the selection of configurations and packs and the pairing of observations that precede inference, because they only filter observations.
- Normalization.NormalizeSubmissions: does not model the bundles and item-task tables, because re-aggregation and observations read neither.
- PilotRun.RunAttempt: does not model report accuracy, evidence revision, wall time and token totals of the grade, because they rest on text patterns or are copied.
- PilotValidation.ValidateGrade: does not model the recomputed report, the wall and token checks and the defaults for fields that older grades lack, for the same reason.
- PilotValidation.ValidateAttempts: does not model the wall, token and field-type checks and schema version 1, because they are single-branch facts about one field each.
