# Verified model of the stock-advisor backend

The repository scores stocks through four lenses (technical, fundamental, chip, news), turns the
scores into one daily recommendation per ticker, judges past recommendations in a backtest, and lets
a user ask for one ticker to be analysed on demand. This project models the parts of it that carry
state, arithmetic or a protocol, and proves what they promise.

`dafny verify dfyconfig.toml` checks everything. There is one module per file.

| part | modules |
|---|---|
| shared vocabulary, sums, rounding, symbols | `Prelude`, `Rounding`, `LensSignal`, `Symbols` |
| lenses | `Technical`, `TechnicalLaws`, `Fundamental`, `Chip`, `News` |
| recommendation engine | `Recommendation`, `RecommendationMeaning`, `RecommendationLaws`, `ScoringPairs`, `ScoringShape`, `ScoringEngine` |
| nightly pipeline and the gdelt failure token | `PipelineRuns`, `Gdelt`, `NewsChannel` |
| backtest | `Calendar`, `PriceBars`, `Backtest`, `BacktestLaws`, `BacktestWindows` |
| on-demand jobs | `JobStore`, `JobProtocol`, `JobInvariant`, `JobRuns`, `JobExclusive`, `JobExact`, `JobRaces`, `JobAtomic` |

Code that loops or updates state is a method or a class here, proved against a specification
function of the same inputs; the laws are then lemmas about that function.

## How to read the job protocol

`JobStore` has the single Redis writes, the guard order of POST /analyze (`Decide`) and the class
`RedisStore` whose methods run each operation without interruption. `JobProtocol` is the same
protocol as it really runs: any number of request handlers, each split at its awaits, interleaved
with one worker whose `_finish` is three separate writes. A run is a sequence of events. `Inv` holds
in every state of every run (`JobInvariant.RunKeepsInv`), and `JobRuns` reads off what that means.
In the machine `started`, `pushed` and `newsOk` only record history. A request that dies half-way is
one that takes no further step.

"One live job per ticker" and "a cooldown that holds" are not true of every interleaving, and each
has its own exact condition.

- A request *passes* while it is past the coalesce guard, or bound to pass it, and has not yet written
  its pointer. A state is *guarded* when no two requests of one ticker pass at once and none passes
  while the worker is between the verdict of a job of that ticker and the deletion of its pointer.
  Guarded runs never have two live jobs of a ticker (`JobExclusive.GuardedIsOneLive`). From any
  reachable state that is not guarded, two live jobs can be had without any further breach
  (`JobExact.BreachIsFatal`), so after a guarded run one live job is safe against everything but a new
  breach exactly when the state is guarded (`JobExact.OneLiveExactly`). Any number of requests may
  coalesce onto a running job together; that is no breach.
- A run keeps the cooldown at every point where a job could be minted exactly when no request is ever
  past the cooldown guard while the worker has yet to write the marker for a job of that ticker that
  ended less than a cooldown ago (`JobExact.CooldownExactly`).

`JobRaces` has a run for each part: two requests passing at once, one passing before the pointer is
deleted, and one past the cooldown guard before the marker is written; each keeps the other parts
throughout. `JobAtomic` is the machine with requests and `_finish` as single steps; it is proved to be
implemented by runs that satisfy all of the conditions, so there the promises hold outright.

## Assumptions

- Decimals are exact reals (`real`); rounding is modelled where the code rounds, half-up and away
  from zero. Python's 28-digit context and the floats at the response edge are abstracted away.
- Redis operations and the release of a database connection do not fail; database, fetch and scoring
  steps may fail anywhere inside the job's `try` block, and the pool may fail to hand out a
  connection. The worker is not cancelled. The clock never goes back. Run ids are fresh.
- What a foreign call delivers (HTTP, XML, VADER, the database's rows) is a parameter: an arbitrary
  success with arbitrary contents, or a failure.
- Configured lens weights are non-negative where a lemma says so (`NonNegative`); the configuration
  endpoint accepts no others (`app/schemas/contracts.py:169-173`).
- The functions are modelled on all their inputs, also on some the rest of the repository keeps out:
  a stored call that is none of the known ones or an exit date after year 9999 (the engine is the only
  writer of recommendations), a negative 13F total (`app/batch/adapters/edgar_adapter.py:328-336`), a
  price of zero or less (`app/batch/adapters/yfinance_adapter.py:271-282`), and a gdelt client that
  reports the whole source down (none of the clients in the repository raises it). The conditions in
  the rows on `RunBacktest`, `UsScoreDirection`, `TargetOrder` and `IngestGdelt` that exclude such
  inputs therefore always hold in production.

## What the proofs found

Where the code and a promise part ways, the model follows the code.

- `TechnicalLaws.TrendLens`: a price that never moves scores -0.5, not 0, because RSI reads 100 when
  nothing fell; a steady rise scores only +0.5, a steady fall -0.5. Turning the prices upside down
  negates the signal exactly when some price moves (`TechnicalLensAffine`).
- `BacktestWindows.ShortWindowIsEmpty`: a window shorter than the recommendations' horizon is always
  empty, so with the default horizon of 6 months the 3-month rows are always (None, None, 0).
- `ScoringShape.RowTellsTruth`: the engine raises exactly when at least three lenses are up and
  their configured weights sum to zero; the run then counts that ticker as failed.
- `RecommendationLaws.OneLensDownConfidence`: with one lens missing a directional call has LOW
  confidence exactly when a single surviving signal has the composite's sign, and such a day exists
  (`OneLensDownCanBeLow`); with all four lenses it is never LOW.
- `JobRaces`: two overlapping requests for a new ticker mint two jobs. Even with requests one at a
  time, one served between the verdict and the pointer's deletion loses its own pointer, and after
  the cooldown a third request mints a job beside it; and one that reads the marker just before it is
  written mints within the cooldown.
- A queued job can fail without ever running, when the worker cannot get a database connection
  (`app/services/analysis_jobs.py:237-246`).

## Model

| member | source | states |
|---|---|---|
| JobInvariant.RunKeepsInv | app/services/analysis_jobs.py:69-247 | in every interleaving of any number of requests with the worker, every reachable state keeps the invariant: each job hash is well formed, mid-enqueue ids are new and unqueued, the queue matches queued hashes, the worker holds the job it started last, pointers name jobs whose finish is still to come |
| JobInvariant.StepKeepsInv | app/services/analysis_jobs.py:69-132 | no single event, from any state satisfying the invariant, breaks any of its eight conjuncts |
| JobRuns.SafeInEveryRun | app/services/analysis_jobs.py:69-90 | from the empty store, in every run: at most one job is running; every queued entry names a job of its ticker still queued, none twice; an active pointer names a job of its ticker whose finish has not deleted it; a reason is present exactly on failed, a finish time exactly on terminal; a job that ended ready had its own gdelt fetch ok |
| JobRuns.StartedOrOver | app/services/analysis_jobs.py:218-234 | a job past queued was started by the worker, and is the one in its hands or over |
| JobRuns.RunIsOnward | app/services/analysis_jobs.py:120-132 | over any run no job is lost or changes ticker, status only moves queued, running, terminal, and a terminal job hash never changes again |
| JobRuns.FirstInFirstOut | app/services/analysis_jobs.py:227-234 | the ids ever queued are the ids ever started followed by the queue, none twice; later events only extend both orders, so jobs start in queue order |
| JobRuns.Conservation | app/services/analysis_jobs.py:69-80 | in every reachable state the jobs minted are those mid-enqueue, queued, held by the worker (at most one) and terminal |
| JobRuns.WorkerDrains | app/services/analysis_jobs.py:218-247 | however the clock runs, a run without new requests makes no more moves than a measure of the state it starts from, and when it can go no further the queue is empty and every job is terminal |
| JobRuns.QuiescentIsDone | app/services/analysis_jobs.py:224-247 | a reachable state in which nothing can happen has an idle worker, an empty queue, every request answered and every job over: nothing is ever stuck |
| JobRuns.StepUsesUp | app/services/analysis_jobs.py:170-247 | every event other than a new request or the clock uses up part of that measure |
| JobExclusive.GuardedIsOneLive | app/api/routers/analyze.py:84-115 | in every guarded run (no two requests of one ticker passing at once, none passing between a verdict of the ticker and the deletion of its pointer) a ticker never has two queued-or-running jobs |
| JobExclusive.GuardedRunsKeepOne | app/api/routers/analyze.py:84-115 | what carries it: in every guarded run a live job is the one its ticker points to or is about to, what each request has read still holds, and a ticker whose pointer is due for deletion has no live job |
| JobExact.BreachIsFatal | app/api/routers/analyze.py:84-115 | from every reachable state that is not guarded some continuation without any further breach ends with two live jobs of one ticker |
| JobExact.OneLiveExactly | app/api/routers/analyze.py:84-115 | after a run guarded up to its last event: the last state is guarded if and only if no continuation without a new breach ever has two live jobs of one ticker |
| JobExact.CooldownExactly | app/api/routers/analyze.py:88-91 | over any whole run: every request that could mint does so only when all ended jobs of its ticker ended at least a cooldown ago, if and only if no request is ever past the cooldown guard while the marker of a job of its ticker that ended less than a cooldown ago is still to be written |
| JobExclusive.OneLivePerTicker | app/api/routers/analyze.py:84-115 | in runs that satisfy both conditions a ticker never has two live jobs, and a hash can be written for it only when all its earlier jobs are over and ended at least a cooldown ago |
| JobExclusive.RunKeepsTimes | app/services/analysis_jobs.py:93-97 | in every run the cooldown marker of a ticker is at least as late as the end of each of its jobs, except while the worker is on its way to writing it |
| JobRaces.OverlapBreaksIt | app/api/routers/analyze.py:84-115 | two overlapping requests for one ticker, with the worker idle throughout, end with two live jobs |
| JobRaces.LateDeleteBreaksIt | app/services/analysis_jobs.py:130-132 | with requests never overlapping, a request served between the verdict and the deletion of the pointer ends, one cooldown and one request later, with two live jobs |
| JobRaces.LateMarkerBreaksCooldown | app/services/analysis_jobs.py:130-132 | a guarded run with at most one live job in which a request, having read the marker before the worker writes it, can mint within the cooldown |
| JobAtomic.AskIsAtomic | app/api/routers/analyze.py:84-116 | a request left undisturbed answers and changes the store exactly as the guard order decides on the store it found, through its separate reads and writes |
| JobAtomic.FinishIsAtomic | app/services/analysis_jobs.py:124-132 | the three writes of the finish, undisturbed, have the effect of one step, which is that of the imperative finish |
| JobAtomic.AtomicIsExclusive | app/api/routers/analyze.py:84-116 | every run of atomic requests and finishes is an exclusive run of the interleaved machine reaching the same store, worker and clock |
| JobAtomic.AtomicPromises | app/api/routers/analyze.py:80-116 | with requests and finishes atomic: at most one live job per ticker; the coalesce guard returns a run id exactly when that job is live; a request mints, forced or not, only if every earlier job of the ticker ended at least a cooldown ago |
| JobAtomic.AcceptedIsLive | app/api/routers/analyze.py:84-116 | after every atomic run the run id a request is given names the one live job of its ticker in the store left behind |
| JobAtomic.TurnIsWorkOne | app/services/analysis_jobs.py:170-247 | the worker events from pop to marker, one after the other, have exactly the effect on the store of one turn of the imperative worker, whatever the course of the job |
| JobStore.RefreshMatchesGuard | app/services/analysis_jobs.py:93-112 | next_refresh_at is non-null exactly while the cooldown guard refuses, does not move as the clock runs, and is the first instant at which the guard lets the ticker through |
| JobStore.VerdictMeaning | app/services/analysis_jobs.py:185-215 | ready means a row was scored with no lens missing, partial exactly one missing, a reason exactly on failed and then drawn from the escaped exception or the outcomes; a job that ends ready had a gdelt outcome ok and a token-safe symbol |
| JobStore.TimeoutIsFaithful | app/services/analysis_jobs.py:155-167 | the reason timeout is reported from outcomes exactly when some source raised TimeoutError, whatever text the messages carry |
| JobStore.OutcomeCategory | app/services/analysis_jobs.py:155-167 | the three categories from what the runners did: timeout if one timed out, else source_unavailable if one reported itself unavailable or none failed, else fetch_failed |
| JobStore.RaisedCategory | app/services/analysis_jobs.py:202-215 | an escaped exception, wherever raised, fails the job as source_unavailable for AdapterUnavailable, timeout for TimeoutError and fetch_failed for anything else |
| JobStore.OwnFetchDecides | app/services/analysis_jobs.py:182-215 | a job whose own gdelt runner crashed, timed out or reported anything but ok never ends ready |
| JobStore.UpperStaysSafe | app/api/routers/analyze.py:61-67 | upper-casing turns each small letter into the capital 32 below and keeps every other character, and an accepted ticker stays accepted |
| JobStore.RedisStore.Analyze | app/api/routers/analyze.py:61-116 | about the reply itself: a malformed ticker is refused and changes nothing; a covered ticker with a snapshot is served ready unless forced; otherwise a live job is coalesced with, else ready is served exactly while the cooldown runs, else 409 exactly when the ticker is not covered and the pool is at its cap, else a job is queued; next_refresh_at is there exactly while the cooldown runs and is its end; only a new job changes the store |
| JobStore.RedisStore.EnqueueJob | app/services/analysis_jobs.py:69-80 | job hash, pointer and queue entry, and nothing else |
| JobStore.RedisStore.Finish | app/services/analysis_jobs.py:124-132 | the job hash becomes terminal, the pointer goes, the marker is set |
| JobStore.RedisStore.RunJob | app/services/analysis_jobs.py:170-215 | wherever the try block is left, the hash ends in the verdict of that course and no other job changes |
| JobStore.RedisStore.WorkOne | app/services/analysis_jobs.py:224-246 | one turn takes the head of the queue and leaves it terminal, with fetch_failed and without having run when the pool cannot be acquired |
| Calendar.AddMonthsValid | app/services/backtest_engine.py:96-102 | add_months returns exactly when the target year is 1 to 9999, and then a date of the calendar in the month asked for: on the same day, or on the last day of a month too short to have it |
| Calendar.GregorianDays | app/services/backtest_engine.py:96-102 | the month lengths that clamp the day add up to the Gregorian calendar: 365 days a year plus the leap days of the 4, 100 and 400 year rule |
| Calendar.ShiftMonotone | app/services/backtest_engine.py:96-102 | month arithmetic is monotone in the date and strictly monotone in the number of months |
| Calendar.TwoSteps | app/services/backtest_engine.py:96-102 | m then n months never ends after m+n months, and ends on the same day exactly when the first clamp does not show |
| Calendar.OutAndBack | app/services/backtest_engine.py:96-102 | m months out and back never lands after the start, and on it exactly when no clamping occurred |
| Calendar.ShortWindowNeverMatures | app/services/backtest_engine.py:268-271 | a recommendation inside a window shorter than its horizon is never mature |
| Calendar.EqualWindowMatures | app/services/backtest_engine.py:268-271 | with window equal to horizon the mature recommendations of the window are those of the start date, and of the later days of the start month when as_of is a month end |
| PriceBars.LoadBars | app/services/backtest_engine.py:234-249 | the grouping and sorting loops build, for every ticker with a priced row, its sorted series |
| PriceBars.QuoteIsLatest | app/services/backtest_engine.py:223-249 | the bisect lookup returns the close of the latest bar on or before the date, for any row order and any duplicates, and nothing exactly when no priced bar is that old |
| PriceBars.LatestRow | app/services/backtest_engine.py:223-249 | in terms of the rows: the close found stands in a priced row of the ticker on or before the date, and no such row is later, nor of the same day with a greater close |
| PriceBars.QuoteNoLookAhead | app/services/backtest_engine.py:223-231 | bar tables that hold the same rows up to a date give the same close for it |
| PriceBars.CutIsHarmless | app/services/backtest_engine.py:198-202 | the SQL cut at as_of loses nothing a lookup up to as_of needs |
| Backtest.RaisesExactly | app/services/backtest_engine.py:262-285 | judging a recommendation raises exactly when it is not excluded and either its exit date is outside the calendar or it is mature and priced and its call unknown |
| Backtest.EvaluateRecs | app/services/backtest_engine.py:252-294 | the loop raises exactly when some recommendation does, and otherwise yields the evaluated ones in order with each recommendation in one counter |
| Backtest.BacktestStore.WriteRows | app/services/backtest_engine.py:323-335 | exactly the six rows of the date and methodology are written, each with the summary of its window and segment |
| Backtest.BacktestStore.RunBacktest | app/services/backtest_engine.py:303-336 | raises, writing nothing, exactly when there is history and a window or gate date overflows or some selected recommendation is not excluded and either ends outside the calendar or is mature, priced and without a known call; without history writes nothing; otherwise six rows summarising what was evaluated, all other rows untouched |
| Backtest.ComputeTickerBacktest | app/services/backtest_engine.py:339-399 | when the per-ticker route raises, and the segment summaries and blended return it otherwise computes |
| BacktestLaws.EvaluatedMeans | app/services/backtest_engine.py:283-292 | an evaluated recommendation keeps its date, is in the full segment exactly when its completeness is 1, and is correct exactly when its signed excess exceeds 2.0 points |
| BacktestWindows.EvaluatedPrices | app/services/backtest_engine.py:262-292 | an evaluated recommendation was judged by the latest closes of its stock and of the benchmark of its market (^TWII exactly for .TW and .TWO) on or before its date and its exit date; its signed excess is stock return minus benchmark return in points, with plus exactly for buys |
| BacktestWindows.DropsExactly | app/services/backtest_engine.py:262-282 | excluded exactly for HOLD and SUPPRESSED, immature exactly when the exit date is after as_of, unpriced exactly when one of the four closes is missing or an entry close not positive |
| BacktestLaws.CountersMean | app/services/backtest_engine.py:262-293 | the excluded, immature and unpriced counters count the recommendations that ended so |
| BacktestLaws.JudgeUnitFree | app/services/backtest_engine.py:279-292 | no judgement depends on the currency or unit in which the stock or its benchmark is quoted |
| BacktestLaws.OppositeCalls | app/services/backtest_engine.py:81-93 | a buy and a sell judged by the same closes have opposite excesses and are never both correct |
| BacktestLaws.HigherExitHelpsBuys | app/services/backtest_engine.py:283-291 | a higher exit close of the stock or a lower one of the benchmark never lowers a buy's excess nor turns it wrong |
| BacktestLaws.Accounting | app/services/backtest_engine.py:262-293 | seen = excluded + immature + unpriced + evaluated, and evaluated is the length of the result |
| BacktestLaws.RoutesAgree | app/services/backtest_engine.py:316-336 | for every window up to 12 months, segment and additive figure: evaluating everything and then windowing equals the sum over tickers of windowing first and evaluating |
| BacktestLaws.NightlyRowIsTickerSum | app/services/backtest_engine.py:323-399 | the summary of each nightly row has the sample, correct count and summed excess that the per-ticker routes add up to |
| BacktestLaws.NightlyFigure | app/services/backtest_engine.py:316-329 | the 12-month prefilter drops nothing a smaller window needs |
| BacktestLaws.FetchOrderFree | app/services/backtest_engine.py:178-185 | the order in which the rows come back changes no figure |
| BacktestWindows.OutcomeNoLookAhead | app/services/backtest_engine.py:268-292 | the outcome of a recommendation depends only on bars dated on or before its exit date |
| BacktestWindows.BacktestNoLookAhead | app/services/backtest_engine.py:234-294 | with bar tables agreeing up to as_of the same recommendations raise, the same are evaluated alike and the counters are equal |
| BacktestWindows.SameRowsWritten | app/services/backtest_engine.py:323-335 | and two runs on such tables leave the same result rows behind |
| BacktestWindows.SegmentsPartition | app/services/backtest_engine.py:297-300 | the two segments split each window, and no segment shrinks when the window grows |
| BacktestWindows.ShortWindowIsEmpty | app/services/backtest_engine.py:297-335 | when every horizon is longer than the window, both rows of the window are (None, None, 0) |
| BacktestWindows.GateExactly | app/services/backtest_engine.py:114-119 | the history gate is closed exactly when no recommendation of any ticker is at least twelve months old |
| BacktestWindows.SummaryShape | app/services/backtest_engine.py:140-151 | the history gate nulls both numbers and never the sample size; otherwise accuracy and return are within 0.00005 of correct over sample and of the mean signed excess, and an accuracy lies in [0, 1] |
| BacktestWindows.AccuracyAndReturnAgree | app/services/backtest_engine.py:140-151 | an all-correct segment reports a return of at least 2.0000 and accuracy 1, an all-wrong one at most 2.0000 and accuracy 0 |
| BacktestWindows.PublishedRowAgrees | app/services/backtest_engine.py:140-151 | every ungated non-empty row the engine writes obeys that, for any recommendations and prices |
| BacktestWindows.BlendedReturn | app/services/backtest_engine.py:391-399 | the blended return times n differs from the segment-weighted sum of the two segment returns by at most n times 0.0001 |
| Technical.EmaSeries | app/batch/signals/technical.py:53-64 | the running loop yields the EMA of every index from period-1 on |
| Technical.Rsi14 | app/batch/signals/technical.py:67-82 | the two running averages yield the Wilder RSI |
| Technical.Macd12269 | app/batch/signals/technical.py:85-100 | the composed series yield the last MACD, signal and histogram; the strict zip never raises |
| Technical.EmaLinesAlign | app/batch/signals/technical.py:93-96 | after dropping 14 points the fast line is exactly as long as the slow one |
| Technical.ComputeTechnical | app/batch/signals/technical.py:140-158 | unavailable below 60 closes; otherwise the score of the indicators, the assert never failing |
| TechnicalLaws.TechnicalLensAffine | app/batch/signals/technical.py:140-158 | replacing every close x by a*x+b leaves the signal unchanged for a > 0, and for a < 0 negates it exactly when some close differs from its predecessor |
| TechnicalLaws.RsiRange | app/batch/signals/technical.py:67-82 | RSI lies in [0, 100]; 100 exactly when no close falls, 0 exactly when some close falls and none rises |
| TechnicalLaws.RsiMirrored | app/batch/signals/technical.py:67-82 | RSI of the mirrored closes is 100 minus RSI, exactly when the closes move |
| TechnicalLaws.EmaBounds | app/batch/signals/technical.py:53-64 | each EMA point lies between the least and greatest input seen so far |
| TechnicalLaws.EmaOfTrend | app/batch/signals/technical.py:53-64 | on an arithmetic series the EMA lags by exactly (period-1)/2 steps |
| TechnicalLaws.MacdOfTrend | app/batch/signals/technical.py:85-100 | on an arithmetic series of slope s, MACD and its signal are 7s and the histogram is 0 |
| TechnicalLaws.HistogramSign | app/batch/signals/technical.py:85-100 | MACD is the 12-EMA over the 26-EMA and the histogram its lead over its own 9-EMA, so it is never negative while the MACD line never falls nor positive while it never rises |
| TechnicalLaws.BlendMoves | app/batch/signals/technical.py:74-79 | each step moves the Wilder average one period-th of the way to the new value |
| TechnicalLaws.TrendLens | app/batch/signals/technical.py:103-158 | a steady rise scores +0.5; a steady fall, or a price that never moves, -0.5 |
| TechnicalLaws.RubricMonotone | app/batch/signals/technical.py:103-137 | the direction of every vote: a higher close, lower MA60, lower RSI or higher histogram never lowers the score |
| TechnicalLaws.LensExtremes | app/batch/signals/technical.py:103-158 | over a whole series: the score is 2 exactly when the last close is above the 20-close mean, that above the 60-close mean, RSI(14) below 30 and the histogram positive, and -2 exactly in the mirrored case |
| TechnicalLaws.TechnicalLensInRange | app/batch/signals/technical.py:137-158 | the lens is available exactly from 60 closes on and stays in [-2, 2] |
| Fundamental.MedianOrderFree | app/batch/signals/fundamental.py:35-43 | the median depends on the values, not on their order |
| Fundamental.MedianAffine | app/batch/signals/fundamental.py:35-43 | the median follows a positive change of scale |
| Fundamental.MedianHalves | app/batch/signals/fundamental.py:35-43 | at least half of the values are no greater than the median and at least half no smaller; it is the midpoint of the lower and upper middle value, each pinned by the counts on either side |
| Fundamental.WhoCounts | app/batch/signals/fundamental.py:65-83 | a peer without a positive P/E or P/B, or without a margin, leaves that median alone; a single peer that has it sets it, negative margins included |
| Fundamental.FundamentalExtremes | app/batch/signals/fundamental.py:46-103 | the score is 2 exactly when P/E and P/B are at most 0.8 of positive medians and the margin is above its median, -2 exactly in the opposite case; the P/E vote weighs as much as the other two, which weigh alike |
| Fundamental.FundamentalScore | app/batch/signals/fundamental.py:58-103 | the accumulated total is the clamped sum of the three votes, and the gaps name exactly the metrics that could not be compared |
| Fundamental.FundamentalUnitFree | app/batch/signals/fundamental.py:46-103 | the lens does not depend on the unit of P/E, P/B or margin, nor on the zero of the margin scale, applied to the ticker and its peers alike |
| Fundamental.CheaperNeverScoresLower | app/batch/signals/fundamental.py:46-103 | against the same peers a lower positive P/E or P/B or a higher margin never lowers the score |
| Fundamental.PeerOrderFree | app/batch/signals/fundamental.py:58-103 | the lens does not depend on the order of the peers |
| Fundamental.FundamentalInRange | app/batch/signals/fundamental.py:102-103 | the lens stays in [-2, 2] |
| Chip.TwScoreExact | app/batch/signals/chip.py:46-71 | the Taiwan lens is available exactly when some institutional net is reported; its score is the 1.0, 0.6, 0.4 vote of foreign, trust and dealer nets, the clamp never bites, it is extreme exactly when all three institutions agree, and it is complete exactly when no field is missing |
| Chip.UsScoreExact | app/batch/signals/chip.py:74-94 | from a positive prior total a move of a tenth either way saturates the score and in between every five per cent is a point; from none only the direction counts; with fewer than two quarters the lens is unavailable |
| Chip.AuxiliaryNeverScores | app/batch/signals/chip.py:62-71 | margin and block fields never change the score |
| Chip.UsScoreDirection | app/batch/signals/chip.py:74-94 | the US score points the way the shares moved exactly when the prior total was not negative or nothing moved |
| Chip.UsScoreUnitFree | app/batch/signals/chip.py:87-93 | counting shares in lots changes nothing |
| Chip.ChipInRange | app/batch/signals/chip.py:46-94 | both chip scores stay in [-2, 2] |
| Rounding.NearestReaches | app/batch/signals/__init__.py:52-54 | half-up rounding reaches n > 0 exactly from n - 1/2 on, and symmetrically below zero |
| Rounding.Q2IsOdd | app/batch/signals/__init__.py:52-54 | rounding to two places commutes with negation |
| Rounding.Q2IsMonotone | app/batch/signals/__init__.py:52-54 | rounding to two places is monotone |
| Rounding.Q4Error | app/services/recommendation_engine.py:67-68 | rounding to four places moves a value by at most 0.00005 |
| RecommendationLaws.CompositeBetween | app/services/recommendation_engine.py:217-224 | with non-negative weights the unrounded composite lies between any bounds of the surviving signals |
| RecommendationLaws.CompositeWithinSpread | app/services/recommendation_engine.py:216-229 | with non-negative weights it lies between the least and the greatest surviving signal, the two ends of the reported spread |
| RecommendationLaws.CallFromRaw | app/services/recommendation_engine.py:71-82 | the call in terms of the unrounded composite: each band edge moves by half a cent |
| RecommendationLaws.AgreeingShare | app/services/recommendation_engine.py:85-102 | the lenses agreeing with a directional call carry at least 0.3775 of the effective weight, behind a strong call at least 0.7525 |
| RecommendationLaws.AgreementFloor | app/services/recommendation_engine.py:85-102 | if no lens carries more than cap of the effective weight, the number agreeing is at least 0.3775/cap, and 0.7525/cap for a strong call |
| RecommendationLaws.DefaultWeightsConfidence | app/services/recommendation_engine.py:50-102 | with default weights and four lenses a directional call has at least MEDIUM confidence and a strong one HIGH; with one missing a strong one still has at least MEDIUM |
| RecommendationLaws.OneLensDownConfidence | app/services/recommendation_engine.py:85-102 | for every day with one lens missing and default weights a directional call has LOW confidence exactly when a single surviving signal has the sign of the composite |
| RecommendationLaws.OneLensDownCanBeLow | app/services/recommendation_engine.py:85-102 | with one lens missing a plain BUY with LOW confidence exists |
| ScoringPairs.MirrorSymmetry | app/services/recommendation_engine.py:160-249 | negating every signal negates the composite, mirrors the call and keeps confidence, spread, conflict flag, weights and targets |
| ScoringPairs.RaisingNeverSells | app/services/recommendation_engine.py:160-249 | raising signals, with the same lenses available, never lowers the composite and never moves the call toward sell |
| ScoringShape.RowTellsTruth | app/services/recommendation_engine.py:174-249 | whatever the signals and weights: suppressed exactly when two or more lenses are missing; missing list, completeness, reduced-confidence flag and breakdown describe the lenses; the engine raises exactly when at least three lenses are up and their weights sum to zero |
| RecommendationMeaning.CompositeByName | app/services/recommendation_engine.py:216-224 | the unrounded composite times the weight available is the sum over the available lenses of the weight of that name times the signal of that name |
| RecommendationMeaning.RowByName | app/services/recommendation_engine.py:174-249 | in every row that is not suppressed the composite is within 0.005 of that mean, each stored weight within 0.00005 of the weight of that name over the weight available, and breakdown and target are built from those weights and the fundamental lens being up |
| RecommendationMeaning.BreakdownByName | app/services/recommendation_engine.py:178-196 | the breakdown lists technical, fundamental, chip, news, each with its assigned and effective weight, its signal to two decimals and its flags |
| RecommendationMeaning.ConfidenceIsHeadCount | app/services/recommendation_engine.py:85-102 | confidence is HIGH from three backing lenses on, MEDIUM with two and LOW with fewer, whether three or four lenses are up |
| RecommendationMeaning.ConflictMeans | app/services/recommendation_engine.py:226-229 | the conflict flag is set exactly when two available lenses are more than 2.0 apart, and the spread is the greatest such distance |
| RecommendationMeaning.TargetByField | app/services/recommendation_engine.py:114-135 | the base target is half peer P/E times EPS and half close, to four decimals, exactly when the fundamental lens is up, EPS is positive and there is a peer P/E; otherwise the close alone |
| ScoringShape.EveryRowIsLegal | app/services/recommendation_engine.py:198-249 | for signals in range and non-negative weights every result also satisfies the range and suppressed-shape checks of the table |
| ScoringShape.CompletenessIsFull | app/services/recommendation_engine.py:174-176 | completeness is 1 exactly when no lens is missing |
| ScoringShape.StoredWeightsSum | app/services/recommendation_engine.py:216-220 | the stored weights sum to within 0.00005 per survivor of 1 |
| ScoringShape.TargetBetween | app/services/recommendation_engine.py:124-135 | the base target lies between close and fair value when the fundamental leg is usable, and is the close otherwise |
| ScoringShape.TargetOrder | app/services/recommendation_engine.py:114-135 | targets exist exactly when there is a close, and are ordered exactly when the base is above -0.0004 |
| ScoringEngine.LensesInRange | app/services/recommendation_engine.py:355-364 | for any facts every lens lands in [-2, 2] |
| ScoringEngine.LensInputs | app/services/recommendation_engine.py:340-364 | the technical lens scores the last 150 closes, or all if fewer; a Taiwan ticker takes its chip score from the chip row alone, any other from the 13F totals alone; the target takes the last close, the peer P/E median and the own EPS |
| ScoringEngine.EveryWrittenRowIsLegal | app/services/recommendation_engine.py:340-381 | for any facts and non-negative weights every row written passes the checks of the table and names exactly the missing lenses; no row exactly when nothing at all is known |
| ScoringEngine.LoadedWeightsSumToOne | app/services/recommendation_engine.py:324-337 | loaded weights always sum to 1 within 0.001 |
| ScoringEngine.LoadedByName | app/services/recommendation_engine.py:324-337 | each lens gets its own stored weight, or its default where none is stored, unless the four are off by more than 0.001 from 1 and all four defaults apply |
| ScoringEngine.RecommendationStore.ScoreTicker | app/services/recommendation_engine.py:340-381 | a row it writes is that of the ticker and date, passes the checks of the table and names exactly the lenses that are down; every other row is untouched, and with nothing to say or a raise so is the table |
| ScoringEngine.OutcomeMeans | app/services/recommendation_engine.py:340-410 | a covered ticker fails when its reads raise or the lenses that are up carry no weight, is skipped when no lens is up and there is no close, is suppressed when two or more lenses are down, and is scored otherwise |
| ScoringEngine.RecommendationStore.RunEngine | app/services/recommendation_engine.py:384-410 | per-ticker isolation: rows are those of the turns in order, each counter counts its outcome, and scored + skipped + failed = tickers |
| ScoringEngine.EngineRunHistory | app/services/recommendation_engine.py:252-279 | a run touches only rows of its own date, and each row it leaves there is untouched or legal |
| PipelineRuns.PipelineStore.RunStage | app/batch/pipeline.py:171-211 | one turn of the stage loop leaves the final row of the stage and the audits that landed meanwhile, and nothing else |
| PipelineRuns.PipelineStore.RunPipelineOnce | app/batch/pipeline.py:164-212 | the table afterwards is the audits plus one row per stage, and the engine stage finds the gdelt row of this run: status error exactly as the stage raised, otherwise its own status and message |
| PipelineRuns.StageIsolation | app/batch/pipeline.py:164-212 | whatever stages raise and whatever audits land: one scheduled row per stage, with status error exactly when the stage raised and otherwise its own status and message, none left running, other dates untouched, on-demand rows as the audits alone leave them |
| PipelineRuns.AuditsKeepScheduled | app/batch/pipeline.py:249-264 | on-demand audits never change a scheduled row |
| PipelineRuns.LastAuditStays | app/batch/pipeline.py:249-264 | the on-demand row of a date and source is the last audit written for them |
| PipelineRuns.RunOnDemandFetch | app/batch/pipeline.py:217-243 | every source gets its own outcome whatever the others do |
| PipelineRuns.RaisedIsError | app/batch/pipeline.py:217-243 | a runner that times out or crashes leaves an error and never ok; one that reports leaves its status and the mode it ran in |
| Gdelt.NewsIngestStats.IngestOne | app/batch/adapters/gdelt_adapter.py:361-389 | raises exactly when the fetch of the ticker did not succeed; rejects count as soon as the fetch did, ok, empty and headlines only when the whole turn did |
| Gdelt.IngestGdelt | app/batch/adapters/gdelt_adapter.py:307-358 | returns exactly when the source never went down and some ticker succeeded, with the counters of all turns and the failed tickers in order; otherwise the text of the first source-wide failure, or the list of failed tickers |
| Gdelt.EveryTickerCounted | app/batch/adapters/gdelt_adapter.py:341-358 | ok + empty + failed = tickers, and ok + empty is positive exactly when some ticker succeeded |
| Gdelt.SucceededMeans | app/batch/adapters/gdelt_adapter.py:361-389 | a turn succeeds exactly when the fetch did and no article survives sanitising or the survivors are stored |
| Gdelt.CountersMean | app/batch/adapters/gdelt_adapter.py:361-389 | ok counts the tickers with stored headlines, empty the fetched ones without a surviving article, and nothing is stored without an ok ticker |
| Gdelt.ArticlesCounted | app/batch/adapters/gdelt_adapter.py:361-389 | headlines counts the surviving articles of the tickers whose insert succeeded, rejected those sanitising dropped from any fetched ticker |
| Gdelt.SummaryExample | app/batch/adapters/gdelt_adapter.py:232-252 | the message of a run with three failed tickers, one of which cannot be printed, character for character |
| NewsChannel.RunGdelt | app/batch/pipeline.py:121-141 | the exact row of the stage: ok with the printed summary behind the mode and partial prefixes, or unavailable with the source text |
| NewsChannel.RowSays | app/batch/pipeline.py:121-141 | the gdelt row is ok exactly when the source never went down and some ticker succeeded, else unavailable; it names its mode, and says partial exactly when some ticker failed |
| NewsChannel.AllFailedParses | app/batch/adapters/gdelt_adapter.py:348-358 | when every ticker failed, the message of the unavailable run parses to all of them, if their symbols are token-safe |
| NewsChannel.FailedStageSilences | app/batch/signals/news.py:100-110 | a gdelt stage that raised, or reported anything but ok, makes the news lens of every symbol unavailable that day |
| NewsChannel.NoRowSilences | app/batch/signals/news.py:95-110 | without a scheduled gdelt row for the day the news lens of every symbol is unavailable |
| NewsChannel.PrintThenParse | app/batch/signals/news.py:49-57 | parsing the stored message gives back exactly the failed symbols that are token-safe, whatever the counters and prefixes |
| NewsChannel.FailClosedRoundTrip | app/batch/signals/news.py:74-118 | after the nightly ingest the news lens of a covered ticker is available exactly when the source never went down, its own fetch succeeded and its symbol is token-safe |
| NewsChannel.OverrideAgreesWithToken | app/services/analysis_jobs.py:182-186 | for a single ticker the source status alone tells whether its fetch succeeded, so the in-memory override and the parsed token decide alike |
| News.QuietIsNotFailed | app/batch/signals/news.py:60-118 | the lens is available exactly when the fetch is trusted; an empty window then reads 0.00 |
| News.ScoreIsTwiceTheMean | app/batch/signals/news.py:60-71 | for compounds in [-1, 1] the score is exactly twice the mean, the clamp never biting |
| News.SearchFinds | app/batch/signals/news.py:49-57 | the regex finds the token that was printed and captures the whole list |
| Symbols.SplitJoin | app/batch/signals/news.py:54-57 | joining comma-free parts and splitting again gives the parts back |
| Symbols.SymbolEdges | app/batch/adapters/common.py:39-39 | the edges of the symbol rule: the neighbours of each character range are refused, and so are the empty symbol and thirteen letters |

## Left out

- HTTP clients, retries, pacing, XML parsing, VADER scoring, Unicode sanitising and URL validation: foreign calls and field checks; a fetch is an arbitrary success or failure, and an article is kept or rejected.
- The yfinance, TWSE/TPEx and EDGAR adapters: their runs are arbitrary stage outcomes.
- The write-backs of indicator and lens scores to `technical_indicator`, `fundamental` and the chip table, and all `notes`, failure texts and `created_at`: nothing modelled reads them.
- `app/services/read_service.py`, the response schemas, authentication, the decision log and `web/`: plain reads, wrappers and rendering.
- The coverage-pool cap as a bound on the pool: it is tested when a request arrives but the ticker is promoted later in the worker, so several queued new tickers can exceed it; only the guard itself is modelled.
- `market_for` and the promotion of the ticker row: database writes nothing modelled depends on.
- A Redis failure inside `_finish`, a failing connection release and cancellation of the worker after a pop: the code has no recovery there.
- Which rows the SQL of the lenses selects (latest snapshot, 7-day news window, latest quarters): their results are inputs. The bar and recommendation queries of the backtest and the 150-close history bound are modelled.
- JobRuns.WorkerDrains: counts moves, not time; it says nothing about how long a fetch takes.
- JobExact.OneLiveExactly: speaks of what can still happen; a run that leaves the guarded states may by luck keep one live job, for instance when one of two overlapping requests is refused by the cap.
- JobStore.UpperStaysSafe: covers the ASCII symbols the format check accepts, not `str.upper` on other text.
