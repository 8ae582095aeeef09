# NeuroTrade, modelled and proved

A Dafny model of the deterministic core of NeuroTrade: the research lab that turns proposals into
labelled, purged and recombined out-of-sample evidence, and the streaming, planning, accounting and
dispatch machinery around it. Code that changes things step by step is modelled by methods and classes
proved against specification functions; code made of expressions is modelled by functions, and what the
code promises is proved about them as lemmas over all inputs.

Conventions. Prices, quantities, money, returns and other statistics are exact `real`s; where the source
rounds to eight places it rounds here (`Decimals.Quantize`, half to even). Nanoseconds, dates and positions
are `int`s. An instrument is an ordered name. Sharpe is an arbitrary function of a series, so what is
proved of selection holds for every score. A strategy is an arbitrary function of the calls it has had and
a feed answers each request of a pass in any way at all. Exceptions are `Err`.

The modules follow the program:

- `Combinations`, `CrossValidation`, `Splits`, `WalkForward`, `Paths`: purged combinatorial
  cross-validation, from the counting behind it to the order in which paths are dealt.
- `Decimals`, `Market`, `Costs`, `Labelling`, `Uniqueness`: triple-barrier labels and what they cost.
- `Bisect`, `Signals`, `Evaluation`, `PathScores`, `LeakFreedom`, `Pooling`, `Measure`: from proposals to
  a matrix of labels, a winner per split, a pooled sample, a cost curve and a journal.
- `Sessions`, `Backfill`, `Planning`, `Crawler`, `CrawlLoop`: what is missing, the requests that fetch it, and the
  pass that sends them.
- `Levels`, `LevelTracker`, `CrossSection`, `CrossSectionTracker`: streaming state against recomputation.
- `Position`, `RealisedOrder`, `Actions`, `Dispatch`, `Engine`: the ledger and what the order of its fills
  decides, adjustment for corporate actions, and the event trace of a backtest.
- `Common` holds sequences, stable sorting, dictionaries and products of reals.

## What does not hold

Promises of the source's own documentation or layout that turn out to be conditional. The code is modelled
as it is; an input shows each failure, and the condition under which the promise is kept is proved for all
inputs.

- The embargo field of `WalkForward` (cv.py:362) drops nothing: training always precedes the test fold, so
  no training label can start in the embargo after it (`WalkForward.EmbargoIsInert`). Training closes an
  embargo's length before the test block opens if and only if no label the fold may train on closes in that
  stretch (`WalkForward.GapExactlyWhen`; an input where one does: `WalkForward.EmbargoLeavesNoGap`).
- `plan_windows` does not always group "into the fewest requests": one instrument's newer gap can move the
  cut for another, which then pays two requests where one would do (`Backfill.SharedCutCanDouble`). The cut
  of the dates is minimal, an instrument never pays more than twice its own optimum, and it pays the optimum
  exactly when, out of its own missing dates, one for each span it misses anything in can be picked so that
  no two are less than a window apart (`Backfill.FewestExactlyWhen`).
- Adjustment scales prices by one factor and divides volume by another. Price times volume is kept, before
  rounding, if and only if the two agree or the bar is left alone (`Actions.NotionalKeptExactlyWhen`), which
  split-only adjustment guarantees (`Actions.SplitsKeepNotional`) and total-return adjustment does not
  (`Actions.DividendMovesNotional`): before rounding the factors agree exactly when no dividend was paid on
  a known price (`Actions.FactorsDifferWhenPaid`).
- Under total-return adjustment a dividend that exactly cancels a split leaves the bar untouched, volume
  included (`Actions.CancelledSplitIsNotApplied`). Volume follows the split if and only if the bar is rebuilt
  or the division would not show at eight places (`Actions.VolumeFollowsTheSplitExactlyWhen`); for whole
  shares, if and only if the bar is rebuilt, there is no split, or nothing traded
  (`Actions.WholeSharesFollowExactlyWhen`).
- Total P&L does not depend on the order of the fills; realised P&L does
  (`Position.RealisedDependsOnOrder`). It is the same in every order if and only if the fills leave nothing
  open, are all on one side, or deal the side left open at a single price
  (`RealisedOrder.OrderFreeExactlyWhen`).
- A market intent is accepted with its stop beyond the close, and is then labelled with the stop mirrored
  (`Signals.IllegalStopIsMirrored`); the labeller's levels are the intent's if and only if the stop is legal
  (`Signals.LevelsMatchIntent`).
- The single walk that splits bars over sessions equals a filter per session if and only if the sessions do
  not overlap (`Crawler.WalkIsFilterExactlyWhen`); the window's constructor checks dates, not times, and
  admits two that do (`Crawler.OverlapLosesABar`).

## Model

| member | source | states |
|---|---|---|
| Combinations.SubsetsAreAll | src/neurotrade/lab/cv.py:264-268 | every k-subset of the groups is enumerated |
| Combinations.SubsetsAreSubsets | src/neurotrade/lab/cv.py:264-268 | everything enumerated is an ascending k-subset |
| Combinations.SubsetsAreOrdered | src/neurotrade/lab/cv.py:264-268 | the enumeration is strictly lexicographic, hence without repeats |
| Combinations.SubsetsCount | src/neurotrade/lab/cv.py:189-191 | there are exactly C(N, k) of them |
| Combinations.AppearancesTotal | src/neurotrade/lab/cv.py:194-202 | each group is tested in exactly C(N-1, k-1) splits |
| Combinations.SmallerLeads | src/neurotrade/lab/cv.py:311-319 | exchange between neighbours: in any prefix of the enumeration group g has appeared at least as often as g + 1, strictly more when the next subset holds g + 1 but not g |
| Combinations.AnySmallerLeads | src/neurotrade/lab/cv.py:311-319 | and so for any smaller group against any larger one |
| Combinations.Absorption | src/neurotrade/lab/cv.py:194-202 | k C(N, k) = N C(N-1, k-1) |
| CrossValidation.GroupsPartition | src/neurotrade/lab/cv.py:213-238 | the groups are contiguous, cover every observation and differ in size by at most one |
| CrossValidation.GroupOf | src/neurotrade/lab/cv.py:213-238 | every observation lies in exactly one group |
| CrossValidation.Groups | src/neurotrade/lab/cv.py:213-238 | the running-start loop yields those groups, and refuses exactly when there are fewer observations than groups |
| CrossValidation.HullIsTight | src/neurotrade/lab/cv.py:129-133 | a block's hull contains every span in it and both its ends are attained |
| CrossValidation.PurgeIsExact | src/neurotrade/lab/cv.py:137-154 | a candidate is kept if and only if its span misses every hull and does not start in the embargo after one |
| CrossValidation.PurgeConserves | src/neurotrade/lab/cv.py:137-154 | kept, purged and embargoed add up to the candidates |
| CrossValidation.NothingToPurge | src/neurotrade/lab/cv.py:134-135 | without test blocks everything is kept |
| CrossValidation.PurgeAndEmbargo | src/neurotrade/lab/cv.py:78-154 | the loop computes that purge, with the counts; it is refused exactly for a negative embargo, a test index outside the spans, or a candidate outside them when there is a test block at all |
| Splits.ContiguousRuns | src/neurotrade/lab/cv.py:322-335 | the loop groups consecutive test groups into runs |
| Splits.RunsAreMaximal | src/neurotrade/lab/cv.py:322-335 | runs are consecutive, spell out the groups in order, and no two could be joined |
| Splits.OneSplit | src/neurotrade/lab/cv.py:260-282 | one split is the test blocks of its subset and the purge of the rest |
| Splits.AllSplits | src/neurotrade/lab/cv.py:240-282 | one split per subset, in lexicographic order |
| Splits.TestIsMembers | src/neurotrade/lab/cv.py:260-282 | the test set is exactly the members of the tested groups, ascending |
| Splits.SplitConserves | src/neurotrade/lab/cv.py:260-282 | train, purged, embargoed and test add up to all observations |
| Splits.TrainIsExact | src/neurotrade/lab/cv.py:260-282 | an observation trains if and only if it is in no tested group and survives every run's hull and embargo |
| Splits.TestLabelInHull | src/neurotrade/lab/cv.py:129-154 | every test label lies inside one of the hulls purged against |
| Splits.TrainMissesTest | src/neurotrade/lab/cv.py:260-282 | no training label overlaps a test label of the same split |
| WalkForward.Folds | src/neurotrade/lab/cv.py:376-416 | the generator's folds, in order, and its refusals |
| WalkForward.TrainingClosesFirst | src/neurotrade/lab/cv.py:376-416 | on time-ordered valid spans every surviving training label closes strictly before any test label opens |
| WalkForward.EmbargoIsInert | src/neurotrade/lab/cv.py:362-416 | on such spans no embargo, however long, drops anything |
| WalkForward.GapExactlyWhen | src/neurotrade/lab/cv.py:362-416 | training closes an embargo before the test block opens if and only if no label the fold may train on closes in that stretch |
| WalkForward.EmbargoLeavesNoGap | src/neurotrade/lab/cv.py:362-416 | an accepted plan with an embargo, whose training label closes just before the test opens and survives |
| WalkForward.FoldConserves | src/neurotrade/lab/cv.py:376-416 | expanding or rolling and on any spans, train, purged, embargoed and test account for every observation the fold sees |
| WalkForward.TestsTile | src/neurotrade/lab/cv.py:376-416 | the test folds are contiguous and tile everything after the first block |
| Paths.PathCountIsExact | src/neurotrade/lab/cv.py:194-202 | C(N, k) k / N is an exact integer and equals C(N-1, k-1) |
| Paths.NextLeg | src/neurotrade/lab/cv.py:300-319 | the leg dealt next is in bounds and continues its path at exactly the group the path lacks |
| Paths.PredecessorIsAhead | src/neurotrade/lab/cv.py:300-319 | when a group is dealt to a path the group before it has already been dealt there |
| Paths.Assemble | src/neurotrade/lab/cv.py:284-319 | dealing in place fills every path with groups 0 to N-1 once each in ascending order, never out of bounds |
| Paths.EveryLegDealtOnce | src/neurotrade/lab/cv.py:284-319 | every (split, tested group) pair is used by exactly one path |
| Paths.PathIsAWalk | src/neurotrade/lab/cv.py:284-319 | each leg of a path names a split that really tests its group |
| Decimals.QuantizeMonotone | src/neurotrade/core/types.py:60-93 | rounding half to even keeps order |
| Decimals.QuantizeNegates | src/neurotrade/core/types.py:60-93 | rounding is symmetric about zero |
| Decimals.QuantizeNear | src/neurotrade/core/types.py:60-93 | rounding moves nothing by more than half a unit in the eighth place |
| Decimals.QuantizeFixes | src/neurotrade/core/types.py:60-93 | a value at the corpus scale is left alone |
| Costs.SpreadIsFloored | src/neurotrade/core/costs.py:166-183 | no spread falls below one tick or the bucket's floor, so none pays a strategy to trade |
| Costs.FillCostIsNotNegative | src/neurotrade/core/costs.py:290-361 | a fill never costs less than nothing |
| Costs.FillCostIsMonotone | src/neurotrade/core/costs.py:333-361 | a model dearer in every term charges at least as much for every fill |
| Costs.ScalingOrders | src/neurotrade/cli.py:1685-1727 | scaling the reference costs up orders the models |
| Labelling.TripleBarrier | src/neurotrade/lab/labelling.py:165-307 | the early-exit loop computes the label, with its excursions, and the refusals in their order |
| Labelling.FirstTouchDecides | src/neurotrade/lab/labelling.py:233-307 | the exit is the first bar touching either level, STOP wins a shared bar, TIMEOUT if and only if nothing is touched |
| Labelling.GrossReturnIsExact | src/neurotrade/lab/labelling.py:233-347 | gross return is exactly +target or -stop on a touch and strictly between them on a timeout |
| Labelling.ExitIsAPrice | src/neurotrade/lab/labelling.py:310-347 | the exit is positive, inside the bar that was touched, and on the right side of the entry |
| Labelling.BestIsMaximum | src/neurotrade/lab/labelling.py:249-267 | MFE is the floored maximum over the bars held |
| Labelling.WorstIsMaximum | src/neurotrade/lab/labelling.py:249-267 | MAE is the floored maximum over the bars held |
| Labelling.ExcursionsBoundReturn | src/neurotrade/lab/labelling.py:233-307 | the excursions bracket the return, before rounding and after it, and reach the distance touched |
| Labelling.CostsMoveOnlyTheNet | src/neurotrade/lab/labelling.py:331-347 | under a dearer model the label, exit and excursions are unchanged and the net return is no better |
| Labelling.LabelIsLocal | src/neurotrade/lab/labelling.py:233-307 | a label reads only the bars from its entry to its reach |
| Labelling.ShortMirrorsLong | src/neurotrade/lab/labelling.py:233-347 | a short on the path reflected about the entry gets the long's label, exit bar, gross return and excursions |
| Uniqueness.Concurrency | src/neurotrade/lab/labelling.py:394-420 | the in-place counts are the number of labels live at each bar |
| Uniqueness.AverageUniqueness | src/neurotrade/lab/labelling.py:423-453 | the weights are mean reciprocal counts over each span |
| Uniqueness.CountsConserveLength | src/neurotrade/lab/labelling.py:394-420 | the counts sum to the total length of the spans |
| Uniqueness.LabelsAgreeWithBars | src/neurotrade/lab/labelling.py:394-453 | any weighting summed by label equals it summed by bar, counted with multiplicity |
| Uniqueness.WeightsConserveBars | src/neurotrade/lab/labelling.py:423-453 | weight times length summed over labels is the number of bars some label covers |
| Uniqueness.WeightMeasuresOverlap | src/neurotrade/lab/labelling.py:423-453 | every weight is in (0, 1], and is 1 if and only if the label overlaps no other |
| Bisect.BisectRight | src/neurotrade/core/actions.py:324-326 | the search finds the end of the entries at or below the value |
| Signals.SignalsFromIntents | src/neurotrade/lab/evaluation.py:323-373 | the conversion, its drops and its refusals, sorted by position |
| Signals.WalkEndsAtExpiry | src/neurotrade/lab/evaluation.py:353-354 | max_bars is exactly the number of later bars at or before expires_at |
| Signals.DroppedExactlyWhen | src/neurotrade/lab/evaluation.py:345-356 | which proposals are dropped rather than refused |
| Signals.LevelsMatchIntent | src/neurotrade/core/intent.py:164-226 | the labeller's stop and target are the intent's invalidation and target_price if and only if the stop is legal |
| Signals.IllegalStopIsMirrored | src/neurotrade/lab/evaluation.py:345-371 | an intent the constructor accepts, with its stop above a purchase at the close, converted to a stop as far below it |
| Signals.LabelsLieInsideIntent | src/neurotrade/lab/evaluation.py:340-373 | every label exits after the proposal and no later than it expires |
| Signals.SignalsAreOrdered | src/neurotrade/lab/evaluation.py:373 | the decisions come out ordered by bar |
| Evaluation.BookIsFaithful | src/neurotrade/lab/evaluation.py:128-144 | keying a valid variant's decisions by bar loses none |
| Evaluation.TouchFor | src/neurotrade/lab/evaluation.py:446-459 | a cached label equals the uncached one |
| Evaluation.SiftAll | src/neurotrade/lab/evaluation.py:461-468 | the kept and dropped candidates, through the cache |
| Evaluation.Column | src/neurotrade/lab/evaluation.py:483-497 | one variant's column of labels, through the cache |
| Evaluation.LabelSignals | src/neurotrade/lab/evaluation.py:376-505 | the whole matrix is the uncached one |
| Evaluation.SiftPartitions | src/neurotrade/lab/evaluation.py:461-468 | kept and dropped share out the grid |
| Evaluation.CandidatesPartition | src/neurotrade/lab/evaluation.py:433-468 | kept and dropped partition the candidates; one is kept if and only if every decision there forms a label |
| Evaluation.ColumnsAreAligned | src/neurotrade/lab/evaluation.py:470-505 | entry p of every column is the label of that variant's decision on candidate p, flat without one, and its span reaches past its exit |
| Evaluation.ReachCovers | src/neurotrade/lab/evaluation.py:470-479 | a span reaches as far as any decision on its bar |
| PathScores.Choose | src/neurotrade/lab/evaluation.py:921-929 | the split's winner |
| PathScores.FirstMaxIsFirst | src/neurotrade/lab/evaluation.py:921-929 | the winner's training score is the highest, and the first to be |
| PathScores.PathSharpes | src/neurotrade/lab/evaluation.py:901-938 | a winner per split, and a score per path, of the series walked |
| PathScores.Walk | src/neurotrade/lab/evaluation.py:932-937 | one path's series, leg by leg |
| PathScores.PathIsCompleteWalk | src/neurotrade/lab/evaluation.py:931-938 | a path series has one entry per observation in order, each earned by the winner of a split that tests that observation |
| PathScores.UnanimousPathsAreReturns | src/neurotrade/lab/evaluation.py:914-938 | if every split picks one variant, every path is that variant's returns |
| LeakFreedom.SampleIgnoresPrices | src/neurotrade/lab/evaluation.py:461-479 | candidates, drops and spans depend on the length of the series, not on its prices |
| LeakFreedom.SurvivorReadsNoHull | src/neurotrade/lab/cv.py:129-154 | the bars a surviving training span covers lie outside every hull |
| LeakFreedom.AgreeingCell | src/neurotrade/lab/evaluation.py:483-497 | a cell of the matrix reads only the bars inside its span |
| LeakFreedom.SelectionIsLeakFree | src/neurotrade/lab/evaluation.py:921-929 | end to end: repricing bars inside a split's test hulls changes neither its training scores nor its winner, for any score |
| LeakFreedom.OwnBarsCannotChoose | src/neurotrade/lab/evaluation.py:901-938 | rewriting every bar a test label reads leaves the winner of each split testing it unchanged |
| Pooling.Pool | src/neurotrade/lab/evaluation.py:527-596 | rows gathered over the parts, sorted, with every column rearranged alike, and the refusals |
| Pooling.PoolIsSortedPermutation | src/neurotrade/lab/evaluation.py:561-596 | the pooled rows are exactly the parts' rows, once each, ordered by time and key |
| Pooling.LabelledPartFits | src/neurotrade/lab/evaluation.py:509-525 | what labelling produces is a part that can be pooled |
| Pooling.PooledSpanHoldsTrades | src/neurotrade/lab/evaluation.py:561-596 | each pooled span contains the entry and the exit of every trade at its row |
| Pooling.PooledSelectionIsLeakFree | src/neurotrade/lab/evaluation.py:561-596 | leak freedom across instruments, on the pooled clock |
| Measure.CostsNeverMoveADecision | src/neurotrade/lab/measure.py:575-592 | under a dearer model label_signals gives the same candidates, spans, drops, labels, exits and excursions, and net returns nowhere better |
| Measure.MeasureLevel | src/neurotrade/lab/measure.py:575-592 | folding every instrument's column into one level totals the whole market's labels |
| Measure.Level.Absorb | src/neurotrade/lab/measure.py:729-735 | the running totals stay those of every label folded in |
| Measure.Level.Expectancy | src/neurotrade/lab/measure.py:738-740 | the mean over every label folded in, zero without trades |
| Measure.DearerTotals | src/neurotrade/lab/measure.py:729-740 | a dearer level trades as often and earns no more |
| Measure.ExpectancyFallsWithCost | src/neurotrade/lab/measure.py:575-592 | a higher multiple of the reference costs never changes the trade count and never raises expectancy |
| Measure.CurveDescends | src/neurotrade/lab/measure.py:829-855 | the sorted curve holds the measured levels and is non-increasing |
| Measure.BreakEven | src/neurotrade/lab/measure.py:162-186 | the search finds the first pair straddling zero, or that there is none |
| Measure.BreakEvenIsTheSignChange | src/neurotrade/lab/measure.py:162-186 | on a descending curve there is a crossing if and only if the cheapest level earns and the dearest does not; it is unique and lies inside its bracket |
| Measure.CrossingInBracket | src/neurotrade/lab/measure.py:182-186 | interpolation stays between its two levels |
| Measure.JournalTrades | src/neurotrade/lab/measure.py:784-826 | one record per traded cell, each cell once, in row then column order, with the facts of the run and its costs |
| Measure.ScoredIsShaped | src/neurotrade/lab/measure.py:784-793 | what was scored has the shape the join relies on |
| Measure.JournalNamesItsOwnSignal | src/neurotrade/lab/measure.py:784-826 | a cell is journalled if and only if it traded, and its record carries the barriers whose label is that touch, from that bar |
| Position.ApplyKeepsValid | src/neurotrade/core/position.py:139-248 | a fill is refused exactly for another instrument; otherwise side, size and basis stay consistent |
| Position.ApplyBalances | src/neurotrade/core/position.py:171-248 | each of the four cases moves exposure by the fill's size and realised P&L less the basis by its cash |
| Position.LedgerIdentity | src/neurotrade/core/position.py:139-248 | after any fills exposure is their signed sum, realised P&L is net cash flow plus signed size times average, fees are the commissions |
| Position.TotalPnlIsTheSum | src/neurotrade/core/position.py:252-305 | total P&L at a mark is the sum of what each fill is worth there |
| Position.OrderOfFillsIsImmaterial | src/neurotrade/core/position.py:294-305 | permuting the fills changes neither exposure, fees nor total P&L at any mark |
| Position.RealisedDependsOnOrder | src/neurotrade/core/position.py:200-223 | realised P&L can depend on the order: a concrete pair of orders of the same fills |
| RealisedOrder.OrderFreeExactlyWhen | src/neurotrade/core/position.py:171-248 | every order of the fills realises the same if and only if they net to zero, are all on one side, or the side they leave open has one price |
| RealisedOrder.NetZeroIsOrderFree | src/neurotrade/core/position.py:171-248 | two orders of fills that net to zero realise the same |
| RealisedOrder.OneSideIsOrderFree | src/neurotrade/core/position.py:182-198 | two orders of fills on one side realise the same |
| RealisedOrder.OnePriceIsOrderFree | src/neurotrade/core/position.py:171-248 | two orders of fills whose net side has one price realise the same |
| RealisedOrder.ClosingBooksTheCost | src/neurotrade/core/position.py:200-248 | fills that close an open position book its basis against the cost of the first shares they deal, and nothing more if they go on to reverse it |
| RealisedOrder.TwoCosts | src/neurotrade/core/position.py:171-248 | unless the prices agree, some order makes the first shares dealt cost something else |
| Position.AverageStaysInRange | src/neurotrade/core/position.py:182-198 | the cost basis never leaves the range of prices paid |
| Position.PartsMakeTheWhole | src/neurotrade/core/position.py:139-248 | a fill split in two at one price gives the same position but for the count, even through a reversal |
| Backfill.PlanIsFaithful | src/neurotrade/ingest/backfill.py:467-479 | the dictionaries hold a cell offered under every key, and every instrument and date once |
| Backfill.PlanKeepsDistinctCells | src/neurotrade/ingest/backfill.py:467-479 | with distinct cells none is lost |
| Backfill.CutDates | src/neurotrade/ingest/backfill.py:484-492 | the loop grows and starts spans greedily |
| Backfill.SpansCut | src/neurotrade/ingest/backfill.py:484-492 | spans concatenate to the dates, fit the window, descend, and have anchors too far apart to share one |
| Backfill.SpansAreFewest | src/neurotrade/ingest/backfill.py:484-492 | no way of covering the dates, contiguous or not, takes fewer requests |
| Backfill.PlanWindows | src/neurotrade/ingest/backfill.py:398-498 | the generator's windows and refusals |
| Backfill.WindowsAreFetchable | src/neurotrade/ingest/backfill.py:329-370 | every window satisfies its constructor, spans at most window_days and holds only planned cells |
| Backfill.EverySessionIsFetched | src/neurotrade/ingest/backfill.py:494-498 | every planned session lies in some window |
| Backfill.SameWindow | src/neurotrade/ingest/backfill.py:494-498 | and in only one |
| Backfill.NewestSpanFirst | src/neurotrade/ingest/backfill.py:405-410 | a later window holds only older dates, or shares the span with an instrument seen earlier |
| Backfill.RequestsAreTouches | src/neurotrade/ingest/backfill.py:494-498 | an instrument's requests are the spans it misses a session in |
| Backfill.AtMostTwiceItsOwn | src/neurotrade/ingest/backfill.py:398-498 | an instrument pays at most twice what any way of fetching its own dates would |
| Backfill.OwnCutIsCheaper | src/neurotrade/ingest/backfill.py:484-498 | its own cut never exceeds what the plan spends on it |
| Backfill.FewestExactlyWhen | src/neurotrade/ingest/backfill.py:403 | the plan is an instrument's fewest if and only if as many of its own missing dates as spans it touches lie pairwise a whole window or more apart |
| Backfill.SharedCutCanDouble | src/neurotrade/ingest/backfill.py:403 | a plan that pays two requests where one would do |
| Planning.AddShortfalls | src/neurotrade/ingest/backfill.py:257-266 | one instrument's incomplete sessions, counted once |
| Planning.PlanBackfill | src/neurotrade/ingest/backfill.py:170-282 | the plan is exactly the incomplete listed sessions, newest first and in universe order; refused exactly for a backwards range, a calendar that contradicts itself, or a planned session of another venue |
| Planning.EmitCells | src/neurotrade/ingest/backfill.py:268-282 | the cells in that order, refused exactly for a planned session of another venue |
| Planning.EveryMissingSessionHasOneRequest | src/neurotrade/ingest/backfill.py:170-498 | planning and grouping together ask for every incomplete session in exactly one request |
| Crawler.OrderSeparates | src/neurotrade/ingest/crawler.py:145-178 | requests with new ground come first and nothing moves inside either group |
| Crawler.SplitBySession | src/neurotrade/ingest/crawler.py:418-448 | the single walk gives each session the bars it holds that no earlier session had already closed past |
| Crawler.WalkSession | src/neurotrade/ingest/crawler.py:441-448 | one session's part of the walk |
| Crawler.WalkIsFilterExactlyWhen | src/neurotrade/ingest/crawler.py:423-448 | the walk is a filter per session for every answer if and only if the sessions do not overlap |
| Crawler.OverlapLosesABar | src/neurotrade/ingest/crawler.py:418-448 | an accepted window with two overlapping sessions, and a bar the second holds and never gets |
| Crawler.RequestSpansSessions | src/neurotrade/ingest/crawler.py:362-369 | where sessions do not overlap, the request's bounds take in exactly the bars its sessions hold and those closing between one session's close and the next one's open, which no session holds |
| Crawler.FetchWindow | src/neurotrade/ingest/crawler.py:344-415 | a refused request fails every session; otherwise each is filled or empty; the pass breaks off exactly on a foreign bar or a batch the store will not take |
| Crawler.StoredWhereItBelongs | src/neurotrade/ingest/crawler.py:418-448 | a stored bar is one the session holds, and is stored under no other |
| CrawlLoop.CrawlWindows | src/neurotrade/ingest/crawler.py:295-341 | the loop visits windows in order, asks unless the symbol has failed, and stops exactly on the run of failures; it fails if and only if a request it reaches breaks off |
| CrawlLoop.Crawl | src/neurotrade/ingest/crawler.py:181-341 | the pass: plan, group, order, limit, fetch, and the report's counts; it fails if and only if its arguments are bad, planning is refused, or a request it reaches breaks off, and otherwise its report is exactly that |
| CrawlLoop.NeverAskedAgain | src/neurotrade/ingest/crawler.py:301-319 | after a failure every later window of that symbol is skipped |
| CrawlLoop.FailureIsRefusal | src/neurotrade/ingest/crawler.py:313-320 | a visit failed if and only if it asked and was refused, and then failed every session |
| CrawlLoop.RunIsDistinctSymbols | src/neurotrade/ingest/crawler.py:315-322 | the consecutive-failure count counts distinct symbols |
| CrawlLoop.StopsOnTheLastFailure | src/neurotrade/ingest/crawler.py:329-333 | a stop comes exactly when the run reaches its length, on a FAILED last outcome |
| CrawlLoop.OneOutcomePerSession | src/neurotrade/ingest/crawler.py:301-327 | every session offered gets exactly one outcome, in the order offered |
| CrawlLoop.OrderKeepsSessions | src/neurotrade/ingest/crawler.py:288-291 | reordering loses and repeats no session |
| CrawlLoop.KeysAreDistinct | src/neurotrade/ingest/crawler.py:288-291 | no session is asked for twice |
| CrawlLoop.CompletedPassCoversThePlan | src/neurotrade/ingest/crawler.py:288-341 | a pass not cut short reports on every planned session and nothing else |
| Levels.ExtremesAreAttained | src/neurotrade/features/levels.py:143-183 | a range's high and low bound every bar and are attained |
| Levels.SessionVwap | src/neurotrade/features/levels.py:186-234 | the loop totals exactly the bars closing by up_to |
| Levels.UpToIsThePrefix | src/neurotrade/features/levels.py:202-234 | bounding at a bar's own close leaves exactly the bars up to it |
| Levels.VwapLiesInTheRange | src/neurotrade/features/levels.py:237-284 | the average price lies between the rounded low and high |
| Levels.OpeningRangePresentExactlyWhen | src/neurotrade/features/levels.py:616-635 | a window's range is there if and only if the session has that many bars, and is their true high and low |
| Levels.RunsAreSessions | src/neurotrade/features/levels.py:609-611 | when sessions arrive in order each run is the whole session |
| Levels.CorpusPricesAreHeld | src/neurotrade/features/levels.py:268-284 | with every low held at the corpus scale the average price never rounds to zero |
| LevelTracker.FoldIsRecomputation | src/neurotrade/features/levels.py:612-656 | folding one bar in gives what recomputing the session with it gives |
| LevelTracker.RollIsRecomputation | src/neurotrade/features/levels.py:670-708 | rolling keeps the close and the last 14 ranges and profiles, and nothing of the session to come |
| LevelTracker.UpdateIsRecomputation | src/neurotrade/features/levels.py:582-708 | streaming equals batch: one update of what the bars determine is what the bars with the new one determine |
| LevelTracker.SessionLevelTracker.Update | src/neurotrade/features/levels.py:582-656 | under any interleaving every instrument's state stays what its own bars determine; one outside every session changes nothing; refused exactly when the average price rounds to zero |
| LevelTracker.SessionLevelTracker.Levels | src/neurotrade/features/levels.py:658-668 | the levels read are those recomputed from the instrument's bars |
| LevelTracker.SessionLevelTracker.Roll | src/neurotrade/features/levels.py:670-708 | a new session touches one instrument only |
| LevelTracker.SessionLevelTracker.Fold | src/neurotrade/features/levels.py:612-656 | a bar touches one instrument only, and is refused exactly when the average price rounds to zero |
| CrossSection.RankIsDetermined | src/neurotrade/features/cross_section.py:212-246 | a ranking holds exactly the instruments with a measure, once, by measure and then symbol |
| CrossSection.TrimAsYouGo | src/neurotrade/features/cross_section.py:447-454 | trimming at each insertion keeps what trimming the whole history would |
| CrossSection.TrimKeepsTheLatest | src/neurotrade/features/cross_section.py:449-454 | what is kept is the most recent dates, as many as fit |
| CrossSection.Forget | src/neurotrade/features/cross_section.py:449-454 | deleting oldest dates until the memory fits is that trim |
| CrossSection.SlopeIsLeastSquares | src/neurotrade/features/cross_section.py:521-530 | no line fits the shared sessions better than the beta's, and no other slope fits as well |
| CrossSection.BetaOfAMultiple | src/neurotrade/features/cross_section.py:477-530 | an instrument moving as a fixed multiple of its benchmark has that beta |
| CrossSectionTracker.MemoryGrows | src/neurotrade/features/cross_section.py:434-456 | remembering a reading at a time is what all the readings determine: the day's profile and the most recent 120 completed returns |
| CrossSectionTracker.CrossSectionTracker.Observe | src/neurotrade/features/cross_section.py:345-387 | every field stays what the readings determine; going backwards is refused unchanged; within a tick the snapshot is constant |
| CrossSectionTracker.CrossSectionTracker.CloseTick | src/neurotrade/features/cross_section.py:398-417 | closing freezes the universe as the readings so far determine it |
| CrossSectionTracker.CrossSectionTracker.Snapshot | src/neurotrade/features/cross_section.py:389-396 | what is shown is the last closed tick |
| CrossSectionTracker.ShownIsThePast | src/neurotrade/features/cross_section.py:389-417 | the snapshot is strictly before the tick being assembled and a function of the readings up to as_of alone |
| CrossSectionTracker.NoLookahead | src/neurotrade/features/cross_section.py:389-417 | two feeds that agree up to as_of show the same universe whatever follows |
| CrossSectionTracker.RowIsTheLatest | src/neurotrade/features/cross_section.py:381-387 | each row is the instrument's latest reading as it stood then |
| CrossSectionTracker.ResidualUsesTheSameTick | src/neurotrade/features/cross_section.py:408-432 | each residual is against the benchmark's row in the same universe |
| Dispatch.TraceProjects | src/neurotrade/lab/drive.py:156-177 | the bar projection of the trace is the feed, and the trace counts each bar and proposal once |
| Dispatch.TraceIsCausal | src/neurotrade/lab/drive.py:160-169 | what is dispatched up to a bar is settled by the bars up to it |
| Dispatch.ProposalsAreStamped | src/neurotrade/lab/engine.py:312-369 | every proposal comes from a strategy allowed to act and carries the snapshot it was shown |
| Dispatch.ClockIsTheBars | src/neurotrade/lab/drive.py:160-164 | in every call of every strategy the clock reads the bar's time |
| Engine.SimClock.SetTime | src/neurotrade/core/clock.py:206-226 | the clock never rewinds |
| Engine.BacktestEngine.constructor | src/neurotrade/lab/engine.py:205-215 | digest, collector and context subscribe in that order |
| Engine.BacktestEngine.AddStrategy | src/neurotrade/lab/engine.py:252-261 | a strategy of the other family is refused; otherwise it subscribes last |
| Engine.BacktestEngine.Publish | src/neurotrade/bus.py:111-139 | a delivery reaches the matching subscribers in order, the nested ones included |
| Engine.BacktestEngine.CallStrategy | src/neurotrade/lab/engine.py:327-369 | one strategy's turn appends exactly its stamped proposals |
| Engine.BacktestEngine.PublishBar | src/neurotrade/bus.py:130-139 | a published bar appends itself and then its reactions in registration order |
| Engine.BacktestEngine.Drive | src/neurotrade/lab/drive.py:118-177 | the digested log is the flat trace of the bars dispatched; the run completes if and only if no bar rewinds the clock |
| Engine.BacktestEngine.Run | src/neurotrade/lab/engine.py:268-305 | the log and the intents are the trace of the range's bars, after a warm-up that only primes the context |
| Engine.OnlyTheRangeIsDispatched | src/neurotrade/lab/engine.py:290-302 | exactly the range's bars are dispatched; a warm-up bar never is |
| Engine.OrderedFeedRuns | src/neurotrade/lab/drive.py:139-141 | a time-ordered feed never stops the run |
| Actions.SeriesIsValid | src/neurotrade/core/actions.py:212-241 | a series holds its own instrument's actions, oldest first |
| Actions.Between | src/neurotrade/core/actions.py:315-326 | two binary searches cut out exactly the actions in (observed, as_of] |
| Actions.SplitFactor | src/neurotrade/core/actions.py:253-275 | the loop's factor over those actions |
| Actions.TotalFactor | src/neurotrade/core/actions.py:277-313 | the same with dividends, and its refusal |
| Actions.FactorsCompose | src/neurotrade/core/actions.py:253-275 | exact split factors compose through any intermediate date |
| Actions.LaterActionsChangeNothing | src/neurotrade/core/actions.py:253-326 | records that agree up to as_of give the same factors there |
| Actions.AnnouncementsAreNotForeseen | src/neurotrade/core/actions.py:234-240 | adding later actions leaves the record as of any earlier date as it was |
| Actions.TotalIsBelowSplit | src/neurotrade/core/actions.py:277-313 | the total-return factor is positive and never above the split factor |
| Actions.AdjustStream | src/neurotrade/core/actions.py:412-489 | one bar out per bar in, in order; refused if and only if one cannot be adjusted |
| Actions.RoundingKeepsTheShape | src/neurotrade/core/actions.py:345-361 | rounding keeps low <= open, close, vwap <= high, so only a price rounded to zero is refused |
| Actions.RefusedExactlyWhen | src/neurotrade/core/actions.py:465-489 | a valid bar is refused only for its date, an unpayable dividend or a low rounded to zero |
| Actions.AdjustedIsRounded | src/neurotrade/core/actions.py:465-489 | the adjusted bar is the exactly scaled one with each field rounded, or the bar itself for a factor of one |
| Actions.NotionalKeptExactlyWhen | src/neurotrade/core/actions.py:465-489 | price times volume is kept before rounding if and only if the price factor is one or equals the split factor; a rebuilt bar keeps it if and only if they are equal |
| Actions.SplitsKeepNotional | src/neurotrade/core/actions.py:465-489 | split-only adjustment always keeps it |
| Actions.DividendMovesNotional | src/neurotrade/core/actions.py:277-313 | a dividend of a quarter of the price under total-return adjustment: the price falls, the volume stays |
| Actions.FactorsDifferWhenPaid | src/neurotrade/core/actions.py:277-313 | the exact total-return and split factors agree if and only if no applicable action pays a dividend on a known close |
| Actions.VolumeFollowsTheSplitExactlyWhen | src/neurotrade/core/actions.py:474-487 | volume follows the split component if and only if the bar is rebuilt or the quotient differs from the volume by too little to survive rounding |
| Actions.WholeSharesFollowExactlyWhen | src/neurotrade/core/actions.py:474-487 | for whole shares: if and only if the bar is rebuilt, the split factor is one, or nothing traded |
| Actions.CancelledSplitIsNotApplied | src/neurotrade/core/actions.py:474-480 | a concrete one-for-two consolidation and cancelling dividend, after which the bar keeps the volume it had |

## Left out

- Floating-point error, and `Decimal`'s 28-digit context: statistics and divisions are exact reals here, rounded only where the source quantizes.
- Integer widths: Python's integers do not wrap, and neither do these.
- `Costs`: slippage and its square-root impact are not modelled; a fill has no volume reference, as in the lab's default cost model.
- `vwap_sigma_of` (features/levels.py:312-345): its square is modelled, not the square root.
- Hashing and byte encoding: the run digest is the sequence of events folded into it, which an injective codec and a collision-free hash would identify.
- `HandlerFailed` (bus.py:130-139): strategies are total functions here, so a handler that raises is not modelled.
- Asynchrony: `fetch_bars` is called in sequence, and cancellation of a crawl is not modelled.
- Crawler.FetchWindow: a batch the store refuses ends the pass as in the source; what the batches before it left in the store is not modelled.
- The memo of calendar lookups (ingest/backfill.py:242-253): the calendar is a pure function that answers for the date asked.
- LevelTracker.SessionLevelTracker.Update: after a refusal the instrument's own fields are half updated, as in the source, and nothing is promised of them; the other instruments are untouched.
- `CrossSectionTracker`: prices are taken to be positive where a return divides by one.
- Labelling.ShortMirrorsLong: is about the label, exit bar, gross return and excursions; net returns differ because the two exits are different prices.
- Deflated and probabilistic Sharpe, bootstrap resampling, haircuts and the gate's verdict: statistics with no invariant to state; scores are arbitrary functions.
- `Observations.performance`, `_capture_ratio`, `is_win` and the printed forms of reports: expressions with no further property.
- `unexplained_gaps`, adapters, configuration, logging, the command line, quality checks and the universe screen: wiring, parsing and reporting.
- Concrete strategies and the feature library: a strategy is an arbitrary function of its calls.
