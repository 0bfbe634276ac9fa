# Models of the analysis kernels of the co-simulation scripts

The scripts under `scripts_cosim/` wrap a simulator with statistics, labels, schedulers and workload transforms. This
project models the small algorithmic kernels among them and proves what they are for: combinatorial identities behind
the rank tests, optimality of the shortest-queue rule for the externality label, conservation in the samplers,
agreement of the two accountings of waiting, the meaning of the capped log for every chunking of its stream, a lens
law for configuration updates, order preservation of workload transforms. Floats are real numbers throughout. Loops
and in-place updates of the scripts are methods proved against functions on values; the lemmas are about these.

| module | models |
|---|---|
| `Wrappers`, `Reals`, `Sums`, `Sorting` | optional values, a little arithmetic, finite sums over sequences and sets, stable sorting |
| `Ranks`, `RankVariance`, `MannWhitney`, `Spearman`, `Wilcoxon`, `SignTest` | midranks and the tests built on them |
| `CappedLog` | the head-and-tail log of a command's output |
| `Externality`, `Arrivals` | the shaped label and its arrival rates |
| `Balance`, `NestedPools`, `Scheduler`, `ReactiveRule` | the shortest-queue rule, and why it meets little depth and inflicts little waiting |
| `DepthLimits`, `WeightLimits` | exactly when it does so for every batch at all queues |
| `Waiting`, `SerialScan`, `CommitGroups`, `GroupFit`, `Concentration` | waiting on serial platforms, counted in two ways, and how concentrated the placement is |
| `Apportion`, `DrawPlan`, `StratifiedDraw` | largest-remainder quotas and the trigger plan drawn with them |
| `ConfigPaths`, `DeriveConfig`, `ConfigTree` | copying a treatment between configurations, on documents and on live mappings |
| `Timeline`, `Burst`, `Surge`, `Jitter`, `Transforms` | timestamps of peer groups and their transforms |
| `MinMarginal`, `Knee` | the greedy plan of a table of measurements, and the capacity reads |

## Where the code does not do what one would expect

- The two sign tests differ on an input without differences: nan in `analyze_route_b_fit_p1.py:96-97`, 1.0 in
  `capacity_sweep_v1_read.py:95-96` (`SignTest.SignTestsAgree`).
- `set_path` onto a path that is a mapping with something in it drops those keys, so the lens law and the first
  post-check of `derive` hold exactly without such a path (`ConfigPaths.LensLaw`, `DeriveConfig.DeriveAfterPreChecks`;
  `ConfigPaths.LensLawCanFail` and `DeriveConfig.PostCheckCanFire` are instances).
- The early break of `serialization` loses waiting exactly when a scan stops in front of a task that is still waited for
  (`SerialScan.ScanCountsAllPairs`). Platforms that complete in the order of their lists lose none; a record of no
  length that ties on arrival is enough to lose some (`SerialScan.EarlyStopCanLoseWaiting`).
- The accountings of waiting differ by five amounts: waits behind records without a node or platform, which one script
  skips and the other groups under a printed None; what the early break misses; waits behind records without a schedule
  time, which one script reads as committed at time 0 and the other keeps apart; waits behind later commits; and waits
  skipped for lack of service or a shared id (`CommitGroups.AccountingsDiffer`, with an instance for each).
- "The reactive shortest-queue rule avoids the term without computing it" (`drift_label.py:16`) holds for every batch
  exactly on a fleet of one platform or with the same arrival rate times squared drain for all types and platforms
  (`WeightLimits.RuleIsCheapestExactly`). Otherwise a short queue of heavy work draws a task that would do less harm
  behind a longer one (`WeightLimits.TrapFails`).
- The rule places one task at a time. It meets the least total depth where later pools contain or avoid earlier ones;
  a pool that shares only a part with an earlier one can make it meet more (`DepthLimits.RuleMeetsLeastExactly`,
  `DepthLimits.OverlapFails`).
- `_largest_remainder` misses its total when negative weights push the truncated shares past it, although its
  description promises the sum for any weights (`Apportion.QuotasSumExactly`, `Apportion.SignedWeightsCanMiss`).
- A burst that passes its own check can leave two groups interleaved at one timestamp; a later jitter then fails its
  reorder check for some draws (`Jitter.JitterOrder` says for which draws, `Jitter.EveryDrawKeepsOrder` for which
  workloads there is none, `Jitter.InterleavedGroupsReorder` is an instance).
- On a table whose plans cover the same ids, with a positive optimum, `greedy_regret_rel` is 0 exactly when one optimal
  plan is the first to be seen at every id (`MinMarginal.NoRegretExactly`). A positive value or None therefore takes two
  plans tied exactly at the optimum, whose choices interleave: it does not measure how much a greedy decision loses.
- A plan drawn over no cell at all draws nothing and reports no shortfall (`StratifiedDraw.DrawTriggers`).

## Model

| member | source | states |
|---|---|---|
| Ranks.Midranks | scripts_cosim/analyze_route_b_fit_p1.py:77-89 | The in-place tie-run loop gives every element the rank "number below plus half of (number equal plus one)" among the input. |
| Ranks.RunRank | scripts_cosim/drainable_objective_v1_gate_read.py:95-104 | A block of equal values at sorted positions i to j has exactly the rank `(i + j) / 2 + 1` that the loops store, and j - i + 1 members. |
| Ranks.MidrankIsBeats | scripts_cosim/drainable_objective_v1_label_reversal_read.py:76-88 | A rank is one half plus the comparisons the value wins, ties counting a half. |
| Ranks.MidrankPermutation | scripts_cosim/drainable_objective_v1_label_reversal_read.py:76-88 | Permuting the values leaves the rank and the tie count of every value unchanged. |
| Ranks.MidrankOrder | scripts_cosim/analyze_route_b_fit_p1.py:77-89 | Among the ranked values a smaller one ranks strictly lower, and ranks coincide exactly on ties. |
| Ranks.MidrankRescaled | scripts_cosim/drainable_objective_v1_label_reversal_read.py:76-88 | Ranks depend on the order alone: any strictly increasing change of scale keeps them. |
| Ranks.RanksTotal | scripts_cosim/analyze_route_b_fit_p1.py:77-89 | The ranks of n values sum to n(n+1)/2 whatever the ties. |
| Ranks.RankSum | scripts_cosim/drainable_objective_v1_gate_read.py:105-106 | For any sample and any rest, the rank sum is n(n+1)/2 plus the comparisons won against the rest. |
| RankVariance.RanksSpread | scripts_cosim/drainable_objective_v1_gate_read.py:95-104 | Twelve times the squared distances of the ranks from the middle rank add up to n^3 less the squared sizes of the tied blocks, one for each value: n^3 - n - tie_term. |
| MannWhitney.RankRuns | scripts_cosim/drainable_objective_v1_gate_read.py:92-104 | The loop over the merged order ranks every merged entry among both samples, and `tie_term` is the sum of t^3 - t over the tied blocks (t^2 - 1 for each value). |
| MannWhitney.FirstRankSum | scripts_cosim/drainable_objective_v1_gate_read.py:105 | Reading the ranks of group 0 off the merged order sums the ranks of the first sample. |
| MannWhitney.RankSumIsPairCount | scripts_cosim/drainable_objective_v1_gate_read.py:105-107 | `ua` is the number of pairs a wins plus half the draws, and `na * nb - ua` is the same count for b. |
| MannWhitney.PairCountSwap | scripts_cosim/drainable_objective_v1_gate_read.py:106-109 | The two counts add up to na * nb and lie between 0 and na * nb; swapping the samples swaps them. |
| MannWhitney.SigmaSqSign | scripts_cosim/drainable_objective_v1_gate_read.py:110-113 | `sigma_sq` is never negative and is zero exactly when all values of both samples are equal. |
| MannWhitney.SigmaSqIsVariance | scripts_cosim/drainable_objective_v1_gate_read.py:108-111 | `sigma_sq` is the variance of a rank sum drawn without replacement: na * nb / (n (n - 1)) times the squared distances of all ranks from their middle. |
| MannWhitney.MannWhitneyU | scripts_cosim/drainable_objective_v1_gate_read.py:81-113 | There is no reading exactly for a sample below three or wholly tied samples; otherwise the smaller pair count, half of all pairs, and that variance, which is positive. |
| MannWhitney.DistanceSquared | scripts_cosim/drainable_objective_v1_gate_read.py:114-115 | The argument of `erfc` is not negative and its square is (u - mu)^2 / (2 sigma_sq). |
| MannWhitney.PRange | scripts_cosim/drainable_objective_v1_gate_read.py:114-115 | For any square root and any function with the sign and order of erfc, p lies in (0, 1] and is 1 exactly when both samples win equally many pairs. |
| MannWhitney.SwapKeepsStatistic | scripts_cosim/drainable_objective_v1_gate_read.py:81-115 | Exchanging the samples changes nothing in the reading: the test is two-sided. |
| MannWhitney.MannWhitneyP | scripts_cosim/drainable_objective_v1_gate_read.py:81-115 | The p value: None exactly for a sample below three or wholly tied samples; otherwise in (0, 1], and 1 exactly for balanced pair counts. |
| Spearman.MeanRank | scripts_cosim/drainable_objective_v1_label_reversal_read.py:90-91 | The mean of the ranks is (n+1)/2 whatever the ties. |
| Spearman.CrossSum | scripts_cosim/drainable_objective_v1_label_reversal_read.py:92-94 | The three sums are the inner products of the centred ranks. |
| Spearman.CauchySchwarz | scripts_cosim/drainable_objective_v1_label_reversal_read.py:92-97 | The square of `num` never exceeds the product of the two sums of squares: the squared correlation is at most 1. |
| Spearman.SquareZeroIffTied | scripts_cosim/drainable_objective_v1_label_reversal_read.py:93-96 | A sum of squares is never negative and is zero exactly when that side is constant. |
| Spearman.SquareIsSpread | scripts_cosim/drainable_objective_v1_label_reversal_read.py:93-95 | A sum of squares is a twelfth of n^3 less the squared sizes of the tied blocks, one for each value. |
| Spearman.CrossByDifferences | scripts_cosim/drainable_objective_v1_label_reversal_read.py:92 | Twice the cross sum is both sums of squares less the squared rank differences. |
| Spearman.CorrelationUnderRescaling | scripts_cosim/drainable_objective_v1_label_reversal_read.py:90-97 | An increasing change of scale of one side changes nothing; a decreasing one only flips the sign of `num`. |
| Spearman.RhoRange | scripts_cosim/drainable_objective_v1_label_reversal_read.py:95-97 | With a square root for both sums of squares the correlation lies between -1 and 1. |
| Spearman.RhoSquared | scripts_cosim/drainable_objective_v1_label_reversal_read.py:95-97 | The square of the correlation is num^2 over the product of the sums of squares, and its sign that of num. |
| Spearman.RescaledCorrelatesFully | scripts_cosim/drainable_objective_v1_label_reversal_read.py:70-97 | A varying sample correlates at 1 with itself and any increasing change of its scale, and at -1 with any decreasing one. |
| Spearman.RankCorrelation | scripts_cosim/drainable_objective_v1_label_reversal_read.py:70-97 | None exactly for unequal lengths, fewer than three values or a constant side; otherwise the correlation of the ranks, between -1 and 1. |
| Wilcoxon.EnumerationCounts | scripts_cosim/analyze_route_b_fit_p1.py:67-73 | Running through all sign patterns counts each exactly once, for any acceptance rule: the loop is the binary recursion over the ranks. |
| Wilcoxon.CountExtreme | scripts_cosim/analyze_route_b_fit_p1.py:67-73 | The loop returns the number of patterns at least as far from the centre as the observed W, up to the slack, and 2^n in all. |
| Wilcoxon.KeptAre | scripts_cosim/analyze_route_b_fit_p1.py:53 | Exactly the differences of more than 1e-12 are kept, as often as they occur. |
| Wilcoxon.FartherCountsLess | scripts_cosim/analyze_route_b_fit_p1.py:67-73 | For a W farther from the centre no more patterns count. |
| Wilcoxon.CountIsTwoTails | scripts_cosim/analyze_route_b_fit_p1.py:67-73 | Off the centre the count is twice the number of patterns that reach the farther of W and its mirror image; at the centre all patterns count. |
| Wilcoxon.OneSignIsRarest | scripts_cosim/analyze_route_b_fit_p1.py:63-74 | If all kept differences have one sign, W is everything or nothing and exactly two patterns count, so p = 2^(1-n). |
| Wilcoxon.DistributionSymmetric | scripts_cosim/analyze_route_b_fit_p1.py:69-72 | As many sign patterns give W = w as give (total of the ranks) - w. |
| Wilcoxon.RanksOfTotal | scripts_cosim/analyze_route_b_fit_p1.py:62-72 | The ranks of n differences total twice the centre n(n+1)/4. |
| Wilcoxon.PBounds | scripts_cosim/analyze_route_b_fit_p1.py:67-74 | At least two and at most 2^n patterns count, so 2^(1-n) <= p <= 1. |
| Wilcoxon.NegationKeepsCount | scripts_cosim/analyze_route_b_fit_p1.py:62-74 | Negating every difference reflects W about its centre and keeps the number of extreme patterns, hence p. |
| Wilcoxon.SlackHarmless | scripts_cosim/analyze_route_b_fit_p1.py:72 | In exact arithmetic the 1e-12 slack changes no count: W and its centre are multiples of a quarter. |
| Wilcoxon.WilcoxonSignedRank | scripts_cosim/analyze_route_b_fit_p1.py:51-74 | Which inputs give no reading, go to scipy or are too many; otherwise W and the slack-free count over 2^n: two tails, everything at the centre, two patterns for differences of one sign. |
| SignTest.RowSumsToPow2 | scripts_cosim/capacity_sweep_v1_read.py:98 | The binomial coefficients of a row sum to 2^n. |
| SignTest.TailMirror | scripts_cosim/capacity_sweep_v1_read.py:98 | A lower tail and the rest of the row mirror each other around 2^n. |
| SignTest.TwiceTail | scripts_cosim/capacity_sweep_v1_read.py:97-98 | Twice the tail up to the smaller count is below 2^n exactly when the counts differ by two or more. |
| SignTest.SignTestRange | scripts_cosim/capacity_sweep_v1_read.py:93-98 | p lies in (0, 1], is symmetric in wins and losses, and is 1 exactly when the counts differ by at most one. |
| SignTest.OneSidedSignTest | scripts_cosim/capacity_sweep_v1_read.py:93-98 | If all n trials go one way, p is 2^(1-n). |
| SignTest.SignTestMonotone | scripts_cosim/capacity_sweep_v1_read.py:93-98 | For the same number of trials p grows strictly with the smaller count. |
| SignTest.SignTestsAgree | scripts_cosim/analyze_route_b_fit_p1.py:92-99 | The paired read and the capacity read compute the same p from the same signs, except that without any difference the former is nan and the latter 1. |
| CappedLog.Trim | scripts_cosim/capped_log.py:60-70 | The trim loop ends without reading an empty deque, drops exactly the oldest overflow bytes and counts them. |
| CappedLog.HoldsNext | scripts_cosim/capped_log.py:48-70 | One chunk keeps the running law: bytes read = head + dropped + tail, with the head full before anything else is kept. |
| CappedLog.Absorb | scripts_cosim/capped_log.py:51-70 | The loop body on one chunk keeps that law together with the recorded tail size. |
| CappedLog.NoticeTellsCounts | scripts_cosim/capped_log.py:71-73 | The notice can be read back: different counts of bytes give different notices. |
| CappedLog.RunLogged | scripts_cosim/capped_log.py:26-76 | For every chunking the log depends on the output alone: all of it when it fits in the cap, otherwise the first head_limit bytes, the notice with the right counts, and exactly the last cap - head_limit bytes, head_limit being four fifths of the cap rounded down. |
| Externality.AddedSeconds | scripts_cosim/drift_label.py:167-179 | Fails exactly when some placement has no drain; otherwise A_p for every platform the plan uses. |
| Externality.BacklogSeconds | scripts_cosim/drift_label.py:155-164 | The seeded backlog if given; otherwise the sum of count times drain over the positive counts, failing exactly when one of those has no drain. |
| Externality.ExternalitySeconds | scripts_cosim/drift_label.py:182-195 | Fails exactly when a drain is missing; otherwise the sum over platforms of the convex charge on top of the backlog. |
| Externality.ChargeIs | scripts_cosim/drift_label.py:186-194 | Twice the charge of a platform is lambda times (A^2 + 2 A B). |
| Externality.AddedUnion | scripts_cosim/drift_label.py:167-179 | The work of task-disjoint plans adds up platform by platform. |
| Externality.CommitInTwoSteps | scripts_cosim/drift_label.py:182-195 | ext(P and Q, B) = ext(P, B) + ext(Q, B + A(P)) for task-disjoint plans. |
| Externality.CommitOrderIrrelevant | scripts_cosim/drift_label.py:182-195 | The order in which two task-disjoint plans are committed does not change their joint externality. |
| Externality.StandingBehind | scripts_cosim/drift_label.py:182-195 | Standing behind another plan adds exactly the sum of lambda * A_p(P) * A_p(Q). |
| Externality.Superadditive | scripts_cosim/drift_label.py:182-195 | Together two plans cost at least what they cost apart, with equality exactly when no platform with positive lambda receives work from both. |
| Externality.ExternalityNonNegative | scripts_cosim/drift_label.py:182-195 | On a non-negative backlog the externality is never negative. |
| Arrivals.TypeShares | scripts_cosim/drift_label.py:337-339 | The accumulated share of a type is its count over the number of names. |
| Arrivals.ArrivalRates | scripts_cosim/drift_label.py:335-347 | An error exactly for a rate that is not positive; otherwise lambda_p is the sum over the types p serves of rate times share over replicas. |
| Arrivals.PerReplicaIs | scripts_cosim/drift_label.py:340-346 | A replica receives the rate times the count of the type, divided by the number of names and the number of replicas of the type. |
| Arrivals.RatesConserve | scripts_cosim/drift_label.py:337-347 | All lambda_p together are the arrival rate times the fraction of names whose type has a replica, however replica sets overlap. |
| Arrivals.RatesConserveAll | scripts_cosim/drift_label.py:337-347 | When every type has a replica the lambda_p sum to exactly the arrival rate. |
| Balance.DepthMetIsPotential | scripts_cosim/drainable_debug_one_step_read.py:97-104 | The total depth met while placing one by one is a difference of triangular potentials of the final depths: order does not matter. |
| Balance.ShortestKeepsLevel | scripts_cosim/drainable_debug_one_step_read.py:97-104 | Taking a shallowest queue keeps every served queue at most one above every other. |
| Balance.SupportedIsLeast | scripts_cosim/drainable_debug_one_step_read.py:97-104 | Marks on the queues, at most one below the depth where something arrived and never lower elsewhere in an item's pool, certify that no other assignment to the pools has less potential. |
| Balance.LevelHasLeastPotential | scripts_cosim/drainable_debug_one_step_read.py:97-104 | Among all ways to place as many items, a level one has the least potential. |
| Balance.LevelIsOptimal | scripts_cosim/drainable_debug_one_step_read.py:97-104 | A level run meets the least total depth of all assignments over the pool. |
| Scheduler.PoolIsWarmFirst | scripts_cosim/drainable_debug_one_step_read.py:97-98 | The candidates considered are the warm ones if there is one, and all of them otherwise. |
| Scheduler.FirstLengthIsFirst | scripts_cosim/drainable_debug_one_step_read.py:95-96 | The length recorded for a queue is that of the first candidate that lists it. |
| Scheduler.PlaceOne | scripts_cosim/drainable_debug_one_step_read.py:95-104 | One turn: if some candidate is warm, the chosen one is and comes no later than any warm one by (depth, node, platform), otherwise no later than any candidate; the plan changes at this id only, and every depth is as known or first recorded, one more on the chosen queue. |
| Scheduler.PlanTakesLeast | scripts_cosim/drainable_debug_one_step_read.py:81-105 | Over the whole batch every entry is a warm candidate if its task has one, and no candidate as warm has a smaller (depth, node, platform), depth being the first recorded length plus the placements of earlier tasks. |
| Scheduler.ShortestQueuePlan | scripts_cosim/drainable_debug_one_step_read.py:68-105 | A plan exactly when every snapshot entry has a co-sim id and candidates; otherwise the error names an entry that lacks one. In ascending trace id every entry is such a least candidate. |
| Scheduler.DepthLedger | scripts_cosim/drainable_debug_one_step_read.py:95-104 | At every moment a depth is the first recorded length plus what the rule itself has placed there. |
| Scheduler.ChoiceIsShallowest | scripts_cosim/drainable_debug_one_step_read.py:97-102 | The chosen queue is a shallowest one of the task's pool by the current depths. |
| Scheduler.PassIsGreedy | scripts_cosim/drainable_debug_one_step_read.py:81-105 | Every task goes to a queue of its own pool that is shallowest at its turn, counting recorded lengths plus placements, whatever the pools. |
| Scheduler.PlanIsLevel | scripts_cosim/drainable_debug_one_step_read.py:81-105 | With one pool for all tasks, every queue that received something ends at most one above every other queue of the pool. |
| Scheduler.PlanIsOptimal | scripts_cosim/drainable_debug_one_step_read.py:81-105 | The plan meets the least total depth of all assignments of the tasks to their pools, if every later pool contains an earlier one or is disjoint from it. |
| NestedPools.GreedyIsSupported | scripts_cosim/drainable_debug_one_step_read.py:97-104 | On such pools the greedy choices carry a certificate: raising the marks of a whole pool to the depth met keeps one. |
| NestedPools.GreedyHasLeastPotential | scripts_cosim/drainable_debug_one_step_read.py:97-104 | So the final depths have the least potential of all assignments to the pools. |
| NestedPools.OverlapMisleads | scripts_cosim/drainable_debug_one_step_read.py:97-104 | Where a pool shares a queue with a later one that does not contain it, some depths make any greedy run meet depth 3 where 2 is possible. |
| NestedPools.CrossingIsHarmless | scripts_cosim/drainable_debug_one_step_read.py:97-104 | Pools {a, b}, {b}, {a} in this order do not nest, and yet no depths make a greedy run worse than another. |
| DepthLimits.OverlapFails | scripts_cosim/drainable_debug_one_step_read.py:68-105 | The tasks for that: one for the first pool and two for the second, all candidates warm, on which the rule's plan is not the least. |
| DepthLimits.RuleMeetsLeastExactly | scripts_cosim/drainable_debug_one_step_read.py:68-105 | Given which pools may follow which, the rule meets the least total depth for every batch and all depths exactly when each pool that may follow another contains it or is disjoint from it. |
| ReactiveRule.ExternalityIsPotential | scripts_cosim/drift_label.py:182-195 | Where arrival rate times squared drain is the same on all platforms, the externality of a plan is a potential of its final queue depths. |
| ReactiveRule.LevelInflictsLeast | scripts_cosim/drift_label.py:182-195 | A level plan has the least externality of all plans of the batch on such platforms. |
| ReactiveRule.PlanFollowsRun | scripts_cosim/drainable_debug_one_step_read.py:103-104 | The plan entries are the recorded choices, one for every id. |
| ReactiveRule.ShortestQueueMinimisesExternality | scripts_cosim/drift_label.py:11-16 | The shortest-queue rule avoids the term without computing it: on such platforms, with pools that nest, its plan has the least externality of all assignments to the pools. |
| ReactiveRule.SharedPoolAllowsAll | scripts_cosim/drift_label.py:11-16 | Where all tasks share the pool, that is every placement of the batch on the pool. |
| WeightLimits.UniformIsCheapest | scripts_cosim/drift_label.py:11-16 | The same over whole decisions, with the backlog counted from the tasks queued and mixed task types. |
| WeightLimits.TrapFails | scripts_cosim/drift_label.py:11-16 | One task, a short queue of heavy work and longer queues of light work: the rule takes the short queue and inflicts more. |
| WeightLimits.RuleIsCheapestExactly | scripts_cosim/drift_label.py:11-16 | The rule has the least externality for every batch at all queues exactly on fleets of a single platform or with one value of arrival rate times squared drain for all types and platforms. |
| SerialScan.GroupByPlatform | scripts_cosim/drainable_debug_pertask_read.py:178-182 | Records with a key, grouped by platform, each list in input order. |
| SerialScan.ScanBack | scripts_cosim/drainable_debug_pertask_read.py:197-207 | The backward loop with its early break finds, for one record, the scanned waiting of all kinds and of the own batch. |
| SerialScan.ScanPlatform | scripts_cosim/drainable_debug_pertask_read.py:189-207 | The scans summed over a platform list; records that did not queue add nothing. |
| SerialScan.Serialization | scripts_cosim/drainable_debug_pertask_read.py:176-214 | The total queue time and both totals over all platforms, each list sorted by arrival. |
| SerialScan.SharesInRange | scripts_cosim/drainable_debug_pertask_read.py:208-214 | With queue times from schedule to start on serial platforms, 0 <= same-batch share <= any-predecessor share <= 100 percent. |
| SerialScan.SharesArePercent | scripts_cosim/drainable_debug_pertask_read.py:212-213 | The shares are percentages of the total queue time. |
| SerialScan.ScanAndMissed | scripts_cosim/drainable_debug_pertask_read.py:197-207 | For any list: what one scan finds plus what lies before its stop is all the waiting behind the predecessors. |
| SerialScan.MissedSign | scripts_cosim/drainable_debug_pertask_read.py:199-200 | What lies before the stop is never negative, and is zero exactly when no task before a finished one is waited for. |
| SerialScan.ScansAndMissed | scripts_cosim/drainable_debug_pertask_read.py:187-207 | For any records: the totals plus what the early stops leave out are the pairwise overlaps over all pairs of records of a platform. |
| SerialScan.ScanCountsAllPairs | scripts_cosim/drainable_debug_pertask_read.py:187-207 | The totals never exceed the pairwise overlaps, and equal them exactly when no scan stops in front of something that is waited for. |
| SerialScan.InOrderNothingMissed | scripts_cosim/drainable_debug_pertask_read.py:194-200 | Platforms that complete in the order of their lists meet that condition. |
| SerialScan.EarlyStopCanLoseWaiting | scripts_cosim/drainable_debug_pertask_read.py:194-207 | Three records with disjoint busy intervals, one of no length, for which the total over the sorted platform is 0 and the waiting is 4 seconds. |
| SerialScan.BehindOther | scripts_cosim/drainable_debug_pertask_read.py:205-207 | The two totals differ by what the same scans find behind other commits. |
| SerialScan.WaitWithinQueue | scripts_cosim/drainable_debug_pertask_read.py:190-207 | With disjoint ordered busy intervals, same-batch <= any-predecessor <= the own queue interval. |
| SerialScan.WaitingBounds | scripts_cosim/drainable_debug_pertask_read.py:184-207 | Over all records of serial platforms: 0 <= same batch <= any predecessor <= sum of (arrived - scheduled) where positive. |
| SerialScan.BusyApartIsSerial | scripts_cosim/drainable_debug_pertask_read.py:183-200 | Records whose busy intervals have positive length and do not overlap on a platform are served one after the other and completed in order of arrival. |
| SerialScan.BusyApartCounts | scripts_cosim/drainable_debug_pertask_read.py:176-214 | On such records the totals are all the waiting behind other tasks, and lie within the time queued. |
| Waiting.WaitingSplits | scripts_cosim/drainable_debug_pertask_read.py:205-207 | For any records all waiting outside the own batch is behind an earlier commit, a record never scheduled, or a later commit. |
| Waiting.OverlapIsLength | scripts_cosim/drainable_debug_pertask_read.py:83-84 | Overlap is the length shared: an interval shares all of itself, splitting one splits what is shared, and intervals apart share nothing. |
| CommitGroups.BuildGroups | scripts_cosim/drainable_objective_v1_externality_read.py:87-98 | Per-platform lists and commit groups are those of a rearrangement of the records; nothing is lost or doubled. |
| CommitGroups.BacklogOf | scripts_cosim/drainable_objective_v1_externality_read.py:110-119 | The loop adds up what remains at the commit instant of earlier commits. |
| CommitGroups.RemainingIsRest | scripts_cosim/drainable_objective_v1_externality_read.py:112-119 | The busy time of an earlier commit before the instant and what remains of it are its whole busy time; later commits do not count. |
| CommitGroups.BacklogCoversWait | scripts_cosim/drainable_objective_v1_externality_read.py:110-119 | The backlog is at least what any task of the group then waits behind earlier commits, and exactly that when all of that work is done before the task starts. |
| CommitGroups.PredictionExample | scripts_cosim/drainable_objective_v1_externality_read.py:107-140 | Work of 10 seconds committed at 0 and 2 seconds committed at 4: a backlog of 6 and a prediction of 14. |
| CommitGroups.WaitBehind | scripts_cosim/drainable_objective_v1_externality_read.py:134-137 | The inner loop sums the overlaps of one queue interval with all spans of the group. |
| CommitGroups.InflictedOf | scripts_cosim/drainable_objective_v1_externality_read.py:120-137 | The wait inflicted on later commits outside the group. |
| CommitGroups.GroupReadings | scripts_cosim/drainable_objective_v1_externality_read.py:87-143 | One predicted and one realized value for exactly the groups with positive service, each group once, the realized ones summing to their total, and the number of groups that inflicted nothing. |
| CommitGroups.PredictedIsCharge | scripts_cosim/drainable_objective_v1_externality_read.py:138-140 | The prediction is the label's charge at unit arrival rate. |
| CommitGroups.InflictedIsCounted | scripts_cosim/drainable_objective_v1_externality_read.py:120-137 | A group with service inflicts exactly the overlaps that later commits of its platform spend behind its members, tasks sharing an id with the group apart. |
| CommitGroups.RealizedIsCounted | scripts_cosim/drainable_objective_v1_externality_read.py:103-141 | For any records: what all groups inflict, plus what is skipped for lack of service or a shared id, is the pairwise waiting behind earlier commits. |
| CommitGroups.AccountingsDiffer | scripts_cosim/drainable_objective_v1_externality_read.py:87-141 | For any records the sum of `inflicted` less (any-predecessor minus same-batch) is exactly: waits behind unplaced records, plus what the early stops miss, less waits behind never-scheduled records, behind later commits, and those the groups skip. |
| CommitGroups.AccountingsAgree | scripts_cosim/drainable_objective_v1_externality_read.py:87-141 | So the accountings agree exactly when these five amounts balance; where the scans leave nothing out, exactly when the groups leave nothing out, and conversely. |
| CommitGroups.WellFormedSkipsNothing | scripts_cosim/drainable_objective_v1_externality_read.py:105-128 | Records that do not end before they start and whose ids tell commits of a platform apart are never skipped. |
| CommitGroups.PlacedAndScheduled | scripts_cosim/drainable_objective_v1_externality_read.py:90-98 | Records that all have a schedule time wait behind no never-scheduled record, and records that all name node and platform behind no unplaced one. |
| CommitGroups.UnscheduledDiffer | scripts_cosim/drainable_objective_v1_externality_read.py:87-141 | Two tasks without schedule time, served in order, on which the accountings differ. |
| CommitGroups.LaterDiffer | scripts_cosim/drainable_objective_v1_externality_read.py:87-141 | Two tasks served against the order of their commits, on which they differ. |
| CommitGroups.SharedIdDiffers | scripts_cosim/drainable_objective_v1_externality_read.py:122-128 | Two tasks with one id, on which they differ. |
| CommitGroups.UnplacedDiffer | scripts_cosim/drainable_objective_v1_externality_read.py:87-90 | Two tasks without a platform, on which they differ. |
| CommitGroups.MissedDiffer | scripts_cosim/drainable_objective_v1_externality_read.py:87-141 | The records on which the early stop loses waiting, on which they differ. |
| GroupFit.InflictingOrZero | scripts_cosim/drainable_objective_v1_externality_read.py:142-145 | Every group is counted among those that inflicted or among those that did not. |
| GroupFit.MissOfOther | scripts_cosim/drainable_objective_v1_externality_read.py:149-153 | The squared distances of the groups from a line through the origin exceed those of the fitted slope by (difference of slopes)^2 times the sum of squares. |
| GroupFit.Fit | scripts_cosim/drainable_objective_v1_externality_read.py:149-153 | The implied slope is the one nearest to all inflicting groups, and missing exactly when they all predict 0. |
| GroupFit.Analyse | scripts_cosim/drainable_objective_v1_externality_read.py:85-171 | The counts add up, both rank correlations are those of the listed groups and lie between -1 and 1, and the slope is the nearest. |
| Concentration.Counter | scripts_cosim/drainable_debug_pertask_read.py:218 | Counting by key, exactly the keys that occur. |
| Concentration.SquaredShares | scripts_cosim/drainable_debug_pertask_read.py:222-224 | The sum of squared shares and the number of keys. |
| Concentration.HhiIsPairShare | scripts_cosim/drainable_debug_pertask_read.py:222 | The index is the share of ordered pairs that have the same key. |
| Concentration.SquaresAtLeast | scripts_cosim/drainable_debug_pertask_read.py:222 | Over N keys the squared counts are at least n^2 / N. |
| Concentration.IndicesOrdered | scripts_cosim/drainable_debug_pertask_read.py:222-231 | 1 / platforms used <= platform index <= node index <= 1 for any assignment, the node being a part of the platform key. |
| Concentration.IndexWithinBusiest | scripts_cosim/drainable_debug_pertask_read.py:222-232 | The platform index never exceeds the share of the busiest platform. |
| Concentration.NodeOfKey | scripts_cosim/drainable_debug_pertask_read.py:221 | The node of "node:platform" is the node. |
| Concentration.BusiestPercent | scripts_cosim/drainable_debug_pertask_read.py:232 | The busiest share is the greatest count in percent of all. |
| Concentration.EffectiveIsInverse | scripts_cosim/drainable_debug_pertask_read.py:228-231 | The effective numbers are the inverses of the indices. |
| Concentration.Concentrate | scripts_cosim/drainable_debug_pertask_read.py:217-233 | Without keys only the zero; otherwise both indices and the busiest share, with effective nodes <= effective platforms <= platforms used and index <= busiest share. |
| Apportion.LargestRemainder | scripts_cosim/dagger_corpus.py:48-55 | For every integer total and all weights, negative ones included: the division by zero exactly for weights that sum to zero, otherwise the quotas described by the next lemmas. |
| Apportion.QuotasSumExactly | scripts_cosim/dagger_corpus.py:50-55 | For any total and any weights the quotas sum to the total exactly when the units left over number between 0 and the number of keys. |
| Apportion.SignedWeightsCanMiss | scripts_cosim/dagger_corpus.py:50-55 | The weights -1, -1 and 4 with total 1 leave -1 units over and miss the total. |
| Apportion.QuotasSum | scripts_cosim/dagger_corpus.py:50-55 | With non-negative weights that is always so: quotas sum exactly to the total. |
| Apportion.QuotaNearShare | scripts_cosim/dagger_corpus.py:51-54 | Each quota is less than one unit from its proportional share and never negative. |
| Apportion.ShareIsProportional | scripts_cosim/dagger_corpus.py:50-51 | A share is to the total as the weight is to all weights. |
| Apportion.QuotasAreNearest | scripts_cosim/dagger_corpus.py:48-55 | No other whole numbers with the same total are nearer to the shares in squared distance. |
| Apportion.QuotaMonotone | scripts_cosim/dagger_corpus.py:51-54 | A larger weight never gets less; between equal weights the sorted-first key never gets less. |
| Apportion.FavouredFirst | scripts_cosim/dagger_corpus.py:53 | If a key receives an extra unit, so does every key with a larger remainder and every earlier one with the same. |
| Apportion.FavouredHaveRest | scripts_cosim/dagger_corpus.py:53 | No extra unit goes to a key whose share is whole. |
| Apportion.QuotasTotal | scripts_cosim/dagger_corpus.py:48-55 | Nothing is lost exactly unless there is no key and something to give. |
| DrawPlan.FirstEvents | scripts_cosim/uncut_arm1.py:34-39 | First indices in order and sizes of all groups seen so far. |
| DrawPlan.GroupsOf | scripts_cosim/uncut_arm1.py:32-40 | Every peer group once, by its first event, with its size and first time, in arrival order. |
| DrawPlan.SizeIsPositions | scripts_cosim/uncut_arm1.py:33-36 | The size of a group is the number of its events. |
| DrawPlan.BucketsAreIntervals | scripts_cosim/dagger_corpus.py:32-36 | The buckets are the sizes 1-10, 11-50, 51-100 and 101-256; other sizes have none. |
| DrawPlan.SplitRung | scripts_cosim/dagger_corpus.py:74 | Splitting one load over its cells writes exactly the cells of that load. |
| DrawPlan.SplitOverCells | scripts_cosim/dagger_corpus.py:73-74 | Every cell receives its even part of its load's even part. |
| DrawPlan.EvenPartsDiffer | scripts_cosim/dagger_corpus.py:72-74 | Two parts of an even split differ by at most one, and the earlier one is not the smaller. |
| DrawPlan.SplitConserves | scripts_cosim/dagger_corpus.py:71-74 | Over all cells a bucket total is conserved through both splits. |
| StratifiedDraw.SplitBuckets | scripts_cosim/dagger_corpus.py:66-74 | Four bucket totals, each split over loads and cells. |
| StratifiedDraw.ListedTriggersDistinct | scripts_cosim/uncut_arm1.py:40 | Different groups have different triggers. |
| StratifiedDraw.EarlyWant | scripts_cosim/dagger_corpus.py:80 | The early part is the whole number nearest to 30 percent of the quota, and the rest is late. |
| StratifiedDraw.DrawStratum | scripts_cosim/dagger_corpus.py:81-86 | One stratum adds new distinct triggers of groups of that bucket on that side of 360 s, as many as wanted; if it holds fewer, all of them, and the rest is missing. |
| StratifiedDraw.DrawCell | scripts_cosim/dagger_corpus.py:78-85 | No trigger is drawn twice in a cell, and drawn plus missing is the sum of the cell's quotas. |
| StratifiedDraw.DrawTriggers | scripts_cosim/dagger_corpus.py:64-87 | Drawn plus shortfall is the total whenever there is a cell; every cell list is sorted, duplicate-free and from groups of a known size bucket; the census has what each stratum wanted, held and gave. |
| StratifiedDraw.CensusSums | scripts_cosim/dagger_corpus.py:80-88 | The census adds up to the ids drawn, and without a shortfall the early ones are within two for each cell of their 30 percent. |
| StratifiedDraw.EarlyFloorMet | scripts_cosim/dagger_corpus.py:89-91 | The early share lies between 0 and 1, and a draw without shortfall meets the floor once it has forty ids for each cell. |
| StratifiedDraw.PerRung | scripts_cosim/dagger_corpus.py:90 | How many ids each load got. |
| StratifiedDraw.RungsGetAll | scripts_cosim/dagger_corpus.py:90 | The loads of the cells together got everything that was drawn. |
| ConfigPaths.FindFlat | scripts_cosim/derive_treated_cell_config.py:38-46 | The flattened form of an item is the part of the whole that lies under its path. |
| ConfigPaths.PutFlat | scripts_cosim/derive_treated_cell_config.py:38-46 | Storing a value under a key replaces exactly what lies under the key's path. |
| ConfigPaths.FindIsItem | scripts_cosim/derive_treated_cell_config.py:62 | Looking up a key finds exactly the item that has it. |
| ConfigPaths.FlattenIsLookup | scripts_cosim/derive_treated_cell_config.py:38-46 | The flattened document holds under a dotted key exactly the leaf that the nested lookups along its parts find. |
| ConfigPaths.CanSetIsMappings | scripts_cosim/derive_treated_cell_config.py:60-65 | A path can be set exactly when all its beginnings are mappings. |
| ConfigPaths.SetAtValue | scripts_cosim/derive_treated_cell_config.py:58-66 | Afterwards the path holds the value, nothing lies beyond it, and what it does not meet is as before. |
| ConfigPaths.SetAtFlat | scripts_cosim/derive_treated_cell_config.py:58-66 | What a path update does to every flattened key: the new value at the path, nothing beneath it, all else unchanged. |
| ConfigPaths.SetAtSound | scripts_cosim/derive_treated_cell_config.py:58-66 | Updates keep documents well formed. |
| ConfigPaths.PathIsSplit | scripts_cosim/derive_treated_cell_config.py:59 | Splitting and walking a dotted path addresses exactly that flattened key. |
| ConfigPaths.LensLaw | scripts_cosim/derive_treated_cell_config.py:58-66 | flatten(set_path(d, p, v)) = flatten(d)[p := v] exactly when no flattened key lies beneath p. |
| ConfigPaths.LensLawCanFail | scripts_cosim/derive_treated_cell_config.py:58-66 | Setting `a` in `{a: {b: v}}` breaks the law. |
| DeriveConfig.SetKeepsCanSet | scripts_cosim/derive_treated_cell_config.py:58-66 | Setting a path that is not above another one leaves the other settable or not, as before. |
| DeriveConfig.FlatPrefixFree | scripts_cosim/derive_treated_cell_config.py:38-46 | No flattened key of a document continues another one. |
| DeriveConfig.ApplyFlat | scripts_cosim/derive_treated_cell_config.py:105-106 | Settable updates all succeed, in any order, and override exactly their keys and what lies beneath. |
| DeriveConfig.ApplyFails | scripts_cosim/derive_treated_cell_config.py:105-106 | If one path cannot be set in the new base the updates fail, in any order. |
| DeriveConfig.AppliedKeys | scripts_cosim/derive_treated_cell_config.py:108-112 | The first post-check passes exactly when no treated key overwrites a mapping that holds something. |
| DeriveConfig.NoResidual | scripts_cosim/derive_treated_cell_config.py:113-118 | The second post-check can then never fire, and the result flattens to the new base overridden by the treatment. |
| DeriveConfig.DeriveAfterPreChecks | scripts_cosim/derive_treated_cell_config.py:104-119 | After the pre-checks: which of the three outcomes occurs, exactly, in terms of the new base, whatever the order of application. |
| DeriveConfig.OutcomesBeforeUpdates | scripts_cosim/derive_treated_cell_config.py:75-102 | The four early errors on flattened documents: equal examples; a key the treated one lacks; a changed key whose treated value the new base holds; a difference from the example base where none is allowed; in this order. |
| DeriveConfig.OutcomesOfUpdates | scripts_cosim/derive_treated_cell_config.py:104-120 | And after these: a changed key that cannot be set, one that is a mapping in the new base, or a document with the treated values at the changed keys and otherwise the new base. |
| DeriveConfig.DeriveOnExample | scripts_cosim/derive_treated_cell_config.py:69-120 | Derived for the base of the example itself, the treatment gives back the treated example. |
| DeriveConfig.PostCheckCanFire | scripts_cosim/derive_treated_cell_config.py:104-112 | From `{}` to `{a: 1}` on a new base `{a: {b: v}}`, with `a.b` allowed to differ: all pre-checks pass and the first post-check fires. |
| ConfigTree.FindSlotIsFind | scripts_cosim/derive_treated_cell_config.py:62 | Looking up a key in a mutable mapping is looking it up in the document it holds. |
| ConfigTree.WalkArrives | scripts_cosim/derive_treated_cell_config.py:60-65 | The walk reaches a mapping nested in the document exactly when the path can be set. |
| ConfigTree.WalkDown | scripts_cosim/derive_treated_cell_config.py:60-65 | The loop down the mappings ends where the walk on the document ends, and fails exactly where that fails. |
| ConfigTree.StoredThrough | scripts_cosim/derive_treated_cell_config.py:58-66 | One write at the end of the walk updates the document of every mapping on the way, and no other. |
| ConfigTree.SetPath | scripts_cosim/derive_treated_cell_config.py:58-66 | The loop with its single in-place write: on success the document is the updated one, on failure it is untouched. |
| ConfigTree.FlattenItems | scripts_cosim/derive_treated_cell_config.py:38-46 | The recursive flattening loop over live mappings yields the flattened document. |
| ConfigTree.DeepCopy | scripts_cosim/derive_treated_cell_config.py:104 | The copy holds the same document in fresh mappings only. |
| ConfigTree.ApplyAll | scripts_cosim/derive_treated_cell_config.py:105-106 | The update loop on live mappings does what the sequence of updates does, stopping at the first failure. |
| ConfigTree.CopyAndApply | scripts_cosim/derive_treated_cell_config.py:104-119 | Copy, updates and both post-checks over live mappings. |
| ConfigTree.Derive | scripts_cosim/derive_treated_cell_config.py:69-120 | The whole function over mutable mappings agrees with its description on documents, stops early exactly as the flattened documents say, returns fresh mappings and changes none of its arguments. |
| Timeline.EarliestIsLeast | scripts_cosim/env_lever_v1_mint.py:62-69 | The value kept in `first` is a lower bound of the group's timestamps and one of them. |
| Timeline.EarliestNext | scripts_cosim/cd_gap_v1_build_b.py:48-51 | One event keeps the dictionary equal to the earliest timestamps so far. |
| Burst.GroupEnds | scripts_cosim/env_lever_v1_mint.py:62-70 | The first pass fails exactly on an event without a group, otherwise holds every group's first and last time. |
| Burst.BurstEvents | scripts_cosim/env_lever_v1_mint.py:59-78 | In place: which error occurs when, that a missing group leaves the events untouched and that a failed order check does not; otherwise each event has its group's earliest time, with the summary of the spans. |
| Burst.Summarise | scripts_cosim/env_lever_v1_mint.py:71-78 | The number of spans, the median as half the sum of the two middle ones, and the one nine tenths along, for every number of groups. |
| Burst.SpansAfter | scripts_cosim/env_lever_v1_mint.py:72-78 | Afterwards every group spans no time, which is the constant that is reported. |
| Burst.BurstedOneTime | scripts_cosim/env_lever_v1_mint.py:72-73 | Afterwards every group has one timestamp, its earliest. |
| Burst.BurstFixpoint | scripts_cosim/env_lever_v1_mint.py:72-73 | The lever changes nothing exactly when groups already share one timestamp; so it is idempotent. |
| Burst.BurstFailure | scripts_cosim/env_lever_v1_mint.py:74-76 | On a sorted workload the order check fires exactly when an event is followed by one of a group that started earlier. |
| Burst.BurstOrderly | scripts_cosim/env_lever_v1_mint.py:72-76 | Sorted contiguous groups always pass and give sorted, contiguous, single-timestamp groups. |
| Surge.Anchors | scripts_cosim/cd_gap_v1_build_b.py:48-51 | Earliest and latest timestamps of every group. |
| Surge.MoveEvents | scripts_cosim/cd_gap_v1_build_b.py:52-59 | Groups anchored before the switch stay, all others are compressed; the two counters cover all events. |
| Surge.MovedIs | scripts_cosim/cd_gap_v1_build_b.py:52-59 | An event whose group has a member before the switch stays; any other ends up at a k-th of its distance from the switch. |
| Surge.CountBeforeIs | scripts_cosim/cd_gap_v1_build_b.py:55-57 | `n_pre` is the number of events whose group has a member before the switch. |
| Surge.Breaks | scripts_cosim/cd_gap_v1_build_b.py:60-63 | The check counts the places where the order is broken, zero exactly when it is kept. |
| Surge.CountBreaksIs | scripts_cosim/cd_gap_v1_build_b.py:61 | The count is the number of events that are followed by an earlier one. |
| Surge.CompressOrder | scripts_cosim/cd_gap_v1_build_b.py:58 | Times from the switch on stay after it, never move later and keep their order. |
| Surge.SurgeFailure | scripts_cosim/cd_gap_v1_build_b.py:60-63 | On a sorted workload the surge fails exactly when some event is overtaken by its successor, and then its group straddles the switch. |
| Surge.SurgeOrderly | scripts_cosim/cd_gap_v1_build_b.py:38-43 | Sorted workloads with one timestamp per group never fail and stay sorted, with one timestamp per group. |
| Surge.UnitSurge | scripts_cosim/cd_gap_v1_build_b.py:39 | With k = 1 every timestamp is unchanged, for any workload. |
| Surge.GapsShrink | scripts_cosim/cd_gap_v1_build_b.py:55-58 | Gaps after the switch are divided by k; groups anchored before it do not move. |
| Surge.SurgeAfter | scripts_cosim/cd_gap_v1_build_b.py:38-70 | Which error occurs when, with the number of broken places; otherwise the moved events, a duration at a k-th of its distance from the switch, and the counts of events and straddling groups. |
| Jitter.ListGroups | scripts_cosim/burst_ladder_jitter.py:30-37 | The loop fails exactly when a group has two timestamps, otherwise lists the groups by first appearance with their times. |
| Jitter.TimesInOrder | scripts_cosim/burst_ladder_jitter.py:38-40 | The check passes exactly when listed groups are in timestamp order. |
| Jitter.DrawShifts | scripts_cosim/burst_ladder_jitter.py:41-45 | Every listed group receives its random part of min(cap, gap_frac * gap). |
| Jitter.SortedInOrder | scripts_cosim/burst_ladder_jitter.py:38-40 | A sorted workload with one timestamp per group lists its groups in timestamp order. |
| Jitter.ShiftRange | scripts_cosim/burst_ladder_jitter.py:44-45 | A shift lies in [0, cap] and never reaches past the next group. |
| Jitter.ShiftIsPart | scripts_cosim/burst_ladder_jitter.py:41-45 | A shift is the drawn part of the cap, or of gap_frac times the time to the next group where that is less; of the cap for the last group. |
| Jitter.JitterOrder | scripts_cosim/burst_ladder_jitter.py:77-78 | For every draw the result is sorted exactly when no event belongs to a moved group listed after the group of its successor. |
| Jitter.EveryDrawKeepsOrder | scripts_cosim/burst_ladder_jitter.py:77-78 | Every draw keeps the order exactly when no event is listed after the group of its successor with a positive cap and gap: a condition on the workload alone. |
| Jitter.JitterOrderly | scripts_cosim/burst_ladder_jitter.py:27-46 | Orderly workloads never fail, keep order and shared timestamps, and each event moves by between 0 and the cap. |
| Jitter.InterleavedGroupsReorder | scripts_cosim/burst_ladder_jitter.py:77-78 | Two groups interleaved at one timestamp, as a burst can leave them, make the reorder check fire. |
| Jitter.JitterTimestamps | scripts_cosim/burst_ladder_jitter.py:27-46 | Which error occurs when; otherwise the shifted timestamps. |
| Jitter.JitterWorkload | scripts_cosim/burst_ladder_jitter.py:75-80 | The events are rewritten exactly when both functions' checks and the reorder check pass; orderly workloads always are. |
| Transforms.StepStaysOrderly | scripts_cosim/cd_gap_v1_build_b.py:38-43 | One surge or jitter succeeds on an orderly workload and leaves it orderly with the same groups. |
| Transforms.RunsStayOrderly | scripts_cosim/burst_ladder_jitter.py:4-8 | Any sequence of surges and jitters does. |
| MinMarginal.AddRecord | scripts_cosim/build_coupled_oversample_manifest.py:34-37 | One record keeps the least response time of its plan and touches no other. |
| MinMarginal.LoadTable | scripts_cosim/build_coupled_oversample_manifest.py:21-38 | None exactly when no line holds a usable record; otherwise each plan once, with the least response time recorded for it. |
| MinMarginal.LeastIsLeast | scripts_cosim/build_coupled_oversample_manifest.py:36-37 | The recorded value is the least response time of the usable lines with that plan, and there is none exactly without such a line. |
| MinMarginal.AddRow | scripts_cosim/build_coupled_oversample_manifest.py:46-49 | One row lowers the marginals of its own choices and no other, in any order of its items. |
| MinMarginal.Marginals | scripts_cosim/build_coupled_oversample_manifest.py:45-49 | After all rows every column of marginals is complete. |
| MinMarginal.ColumnMarginals | scripts_cosim/build_coupled_oversample_manifest.py:45-49 | An entry is the least response time over the rows with that placement, and there is one exactly for placements that occur. |
| MinMarginal.ChoiceIsBest | scripts_cosim/build_coupled_oversample_manifest.py:50 | Every choice is made by a row that is best among all rows placing that id. |
| MinMarginal.ChoiceIsOptimal | scripts_cosim/build_coupled_oversample_manifest.py:50 | If all rows cover the same ids, every choice is made by some optimal plan. |
| MinMarginal.RegretSign | scripts_cosim/build_coupled_oversample_manifest.py:43-54 | Regret is never negative, and zero exactly when the greedy plan attains the optimum. |
| MinMarginal.RegretIsShare | scripts_cosim/build_coupled_oversample_manifest.py:43-54 | The greedy plan costs 1 + regret times the optimum; None exactly for an optimum that is not positive or a plan without a row. |
| MinMarginal.UniqueOptimumHasNoRegret | scripts_cosim/build_coupled_oversample_manifest.py:41-54 | With one optimal row the greedy plan is that row and the regret 0. |
| MinMarginal.NoRegretExactly | scripts_cosim/build_coupled_oversample_manifest.py:50-54 | On a non-empty same-cover table with a positive optimum the regret is 0 exactly when some optimal row has, for every id, a placement that no other optimal row's placement of that id precedes in the table. |
| MinMarginal.RegretNeedsTies | scripts_cosim/build_coupled_oversample_manifest.py:51-54 | Hence any other answer than 0 on such a table needs two exactly tied optimal plans. |
| MinMarginal.TiesCanMeet | scripts_cosim/build_coupled_oversample_manifest.py:50-54 | Three rows with two tied optima for which the relative regret is 4. |
| MinMarginal.GreedyRegret | scripts_cosim/build_coupled_oversample_manifest.py:41-54 | The loops compute this regret, None for an optimum that is not positive or a greedy plan without a row. |
| Knee.FindKnee | scripts_cosim/capacity_sweep_v1_read.py:69-78 | The last rung before the first share over 0.8, 0 if there is none, all earlier shares being there and at most 0.8; None exactly when a missing share comes first. |
| Knee.CapacityIndex | scripts_cosim/capacity_sweep_v1_read.py:81-90 | None exactly when a share is missing; otherwise the index at the first crossing. |
| Knee.OnTheLine | scripts_cosim/capacity_sweep_v1_read.py:89 | The interpolated index is the only point where the line through the two shares meets the bar. |
| Knee.IndexSandwich | scripts_cosim/capacity_sweep_v1_read.py:69-90 | Knee <= index < next rung at a crossing after the first rung, equal only for a share at the bar; both are the last rung without a crossing; at a crossing on the first rung they are 0 and that rung. |
| Knee.LowerSharesNeverLower | scripts_cosim/capacity_sweep_v1_read.py:69-90 | Pointwise lower shares never lower the knee, whatever is missing after the crossings, nor the index of complete arms. |
| Knee.HigherKneeHigherIndex | scripts_cosim/capacity_sweep_v1_read.py:69-90 | At a later crossing the knee is higher and the index is never lower, and strictly higher unless the earlier crossing is on the first rung. |

## Left out

- Floating-point rounding, overflow and nan: all numbers are exact.
- Square roots and `erfc` are parameters that satisfy the laws of these functions (`IsSqrt`, `IsErfc`): the argument of
  `erfc` is exact, its value is whatever such a function gives.
- Files, JSON, argument parsing, printing, subprocesses, exit codes and process groups; inputs are already parsed.
- `random.Random` is an arbitrary stream in [0, 1) for the jitter and an arbitrary sub-multiset sampler for the draw.
- `shaped_value`, `shaped_rows`, `batches`, `scale_payloads` and verdict labels: each is settled by one reading of its
  body.
- Wilcoxon.WilcoxonSignedRank: scipy, where installed, is a function of the differences about which nothing is known.
- CappedLog.RunLogged: the bytes already written to the head are kept as the head of the log, of which the script only
  keeps the count; reads are given as the list of chunks, and the first empty one ends the stream as in the script.
- Externality.Superadditive: states its law for plans whose work per placement is not negative, which is what a drain
  in seconds is.
- Scheduler.PlanIsOptimal: for a single batch the condition on pools is sufficient only, as
  `NestedPools.CrossingIsHarmless` shows: which other batches are safe depends on how all their pools and the tie-breaks
  interact. The exact statement is about all batches over given pools (`DepthLimits.RuleMeetsLeastExactly`).
- ReactiveRule.ShortestQueueMinimisesExternality: needs a backlog of drain times depth and pools that nest.
- WeightLimits.RuleIsCheapestExactly: is about fleets where every type has a drain, not negative, on every platform, and
  about decisions whose pools nest and whose recorded lengths count the tasks queued.
- SerialScan.Serialization: times other than `scheduledTime` are always present.
- GroupFit.Analyse: the medians of its lists and the verdict are not part of it; the groups come in some order.
- Concentration.Concentrate: keys are strings whose node is everything before the first colon.
- Apportion.LargestRemainder: keys are numbered in the order of their printed names, which is all the script uses to
  break ties.
- StratifiedDraw.DrawTriggers: cells and loads come in printed order and the plan has one list per cell; two cells
  whose printed keys coincide would share a list in the script.
- StratifiedDraw.PerRung: a load is counted for the cells that name it; the script compares the ends of printed keys.
- ConfigPaths.LensLaw: values that are not mappings are compared by their printed form, so Python's equality of 1, 1.0
  and True and the inequality of nan with itself are not captured; keys are dot-free and no mapping sits under an
  empty top-level key, whose path the flattening would drop.
- ConfigTree.Derive: mappings form a tree; a document in which one mapping is nested twice, which JSON cannot express,
  is excluded. The treatment is applied in some order, of which the script's sorted one is an instance.
- Burst.BurstEvents: treats the group ids as numbers.
- Jitter.JitterTimestamps: is given a `gap_frac` other than zero, on which the script divides by zero.
- MinMarginal.LoadTable: a line is either a parsed row or unusable (blank, broken or incomplete); the missing-file case
  is left out. Plans are maps from ids to placements instead of sorted tuples of their items.
- Registered-verdict readers, corpus audits, registries, metadata extraction, JSONL sanitising and experiment
  resolution: field checks and case tables without further structure.
