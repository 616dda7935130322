# alert_ranker, verified

A Dafny model of the deterministic time-series machinery of the options evidence lane: the account
replay, the exchange calendar and the searches around it, the causal bar math, the coverage observers
and the episode reducer, the forward path walks, and the paper policy with its evidence replay and its
break capture. The loops of the modelled functions are methods over the same variables, proved against
a specification, and the specifications are then proved to have the properties the code is for.

Run `dafny verify dfyconfig.toml` here to check everything.

## How it is organised

- `Conventions`, `Sorting`, `MapSums`, `Grouping`: shared types, stable sort, filter, first match, sums over
  a dictionary, grouping by a key.
- `AccountEquity`, `EquityCurve`, `OvernightHolds`, `AccountReport`: the account replay and its report;
  `AccountLaws`, `AccountPositions`, `AccountTill`, `AccountThreshold`: its laws.
- `CivilDates`, `SessionCalendar`, `TradingDays`, `SessionSearch`, `WatchWindows`: dates, the computus,
  holidays, sessions, the bounded searches, and the windows armed structures are watched in.
- `CausalBars`, `BarAggregation`, `SessionRebuild`: bar filters, aggregation, and the hour and day rebuilds.
- `SymbolSeries`, `CoverageObserver`: the half-hour observer; `ObserverCausality`, `Observability`, `LateBars`:
  what later bars can change.
- `LevelEvents`, `LevelObserver`, `LevelLaws`, `LevelMirror`: the five-minute level observer.
- `CoverageEpisodes`, `EpisodeReducer`: the episode reducer; `ReducerLaws`, `DirectionRuns`,
  `InputOrder`, `LabelTies`, `LabelOrder`: its laws.
- `CoverageOutcomes`, `PathWalk`, `WalkLaws`: the forward walk of one entry.
- `OpportunityTracker`: the counterfactual bracket resolver.
- `PaperPolicy`, `RiskLedger`, `SelectorReplay`: expiration, contract and risk policy, caps over runs,
  and the evidence round trip.
- `SetupCapture`, `TapeOrder`: break resolution and prospective catches, and arrival order.

## Conventions

- Instants are whole seconds of exchange-local time (microseconds in `SetupCapture`), and a date is its
  proleptic Gregorian ordinal, so day d runs from 86400 d to 86400 (d + 1).
- Prices and money are exact reals. The source's 1e-9 tolerances and its display rounding are dropped,
  except where rounding feeds the risk caps.
- `sorted` and `list.sort` are a stable insertion sort; a comprehension with a condition is a filter; a
  dictionary is a map, with a key list where insertion order matters.
- Names that the source compares as strings (symbols, families, dates) are numbers in the same order.
- An exception or a `None` answer is `None` of an `Option`, or a constructor of its own.

## What turned out false

The proofs found inputs on which a natural reading of the code fails. Each item names the lemmas behind it:
an input that fails, or the exact condition under which the code does what it promises, or both.

- The minimum starting cash need not be the funding threshold: an exit stamped before its own entry breaks
  it (`AccountLaws.ExitBeforeEntryBreaksThreshold`), and so do two rows of one id
  (`AccountThreshold.SharedIdBreaksThreshold`). For any trades the threshold is the deepest deficit of the
  cash flow that counts an exit only while its id is held (`AccountTill.HeldThreshold`), so the reported
  minimum is the threshold if and only if that leaves it as it is (`AccountTill.ThresholdExactlyWhen`). For
  unique ids it is the minimum of the trades with such exits cleared (`AccountThreshold.MendedIsHeld`). Too
  little cash always blocks.
- A replay step conserves money if and only if it does not overwrite an open position of the same id
  (`AccountLaws.StepConserves`, `AccountLaws.SharedIdLosesMoney`).
- One more dollar can fund fewer trades (`AccountLaws.MoreCashCanFundFewer`). Two balances
  decide every entry alike if and only if no entry costs more than the smaller one has left at that moment
  and not more than the larger (`AccountThreshold.DecidedAlikeExactlyWhen`, and for unique ids
  `AccountThreshold.AlikeExactlyWhen` on the funded and blocked sets); from the threshold on more cash
  changes nothing (`AccountTill.EnoughIsEnough`).
- Three consecutive days need not hold a session; four always do. Three hold none if and only if they are a
  Friday holiday and its weekend, or a weekend and its Monday holiday (`TradingDays.ThreeDaysMayNot`,
  `TradingDays.ThreeClosedExactlyWhen`).
- New Year's Day is observed if and only if it is not a Saturday: December 31 then belongs to a year whose
  own list does not name it (`TradingDays.NewYearKeptExactlyWhen`).
- Two-step aggregation keeps the volume-weighted price of a candle if and only if no traded group has an
  untraded part (`BarAggregation.TwoStepVwap`); a stretch without volume loses it
  (`BarAggregation.FadingVolumeLosesThePrice`).
- The two hour builders agree on the session's bars. On raw bars they agree if and only if no complete hour
  ends past the close (`SessionRebuild.RawBuildersAgreeExactlyWhen`); one after-hours bar of a regular
  session makes one (`SessionRebuild.RawBarsRunAcrossTheClose`).
- Minute bars of an index are not sorted before the search (`SetupCapture.UnsortedBarsCanMissTheFirst`). For
  bars of distinct starts the reported break is the earliest, for every structure, window and instant, if
  and only if they come in time order (`SetupCapture.EarliestExactlyWhenInOrder`).
- A prospective catch has no lower bound on its lag: a detection stamped before the SIP cross counts
  (`SetupCapture.CatchMayPrecedeSipCross`). What a catch does require is `SetupCapture.CatchIsSound`.
- A tie of the least rank can break replay parity (`SelectorReplay.TieBreaksParity`). Under the key the rows
  are sorted by, parity holds if and only if the first least-ranked quote in list order is the first of them
  in key order (`SelectorReplay.ParityExactlyWhen`); whatever the order, if and only if no two different
  choices share the least rank (`SelectorReplay.ParityForEveryOrder`).
- The pessimistic reading pays more than the optimistic one if and only if one bar straddles the bracket
  and the slippage is a rebate larger than the whole bracket (`OpportunityTracker.PessimismNeverPays`,
  `OpportunityTracker.RebateMakesPessimismPay`).
- The tape's answer can depend on the order its prints arrive in. For any tape, structure and window it does
  not if and only if the prints that lead the proven side are one and the same and those that lead the
  window have one price, or, on a tape that cannot be read, all its unreadable prints are refused alike
  (`TapeOrder.SameAnswerExactlyWhen`).
- The reducer's runs are the same for every input order if and only if no two different rows of a group
  share a start (`InputOrder.RunsFixedExactlyWhen`). Its labels still need not be
  (`ReducerLaws.LabelDependsOnOrder`): they are if and only if each bar and family whose rows point both ways
  holds a single dissent between ties of the other direction on either side, the later one on the same bar
  (`LabelOrder.LabelsFixedExactlyWhen`).
- One episode can lie in two direction runs (`DirectionRuns.OffGridSplitsAnEpisode`). With one row per start
  it lies in one if and only if no row of that symbol and session starts between two neighbouring rows of it
  (`DirectionRuns.OneRunExactlyWhen`).
- The coverage observer is causal up to observability, of the symbol and of both indices: on any two regular
  days, one late bar without a volume-weighted price takes back every fact of the symbol, and the same bar
  of SPY changes them (`LateBars.OneLateBar`). Runs whose provider bars agree up to t record the same facts
  by t if and only if both symbols are observable and no index is disturbed at a one-sided break closed by
  t, or neither symbol is observable, or the observable one has no such break
  (`Observability.RunsAgreeExactlyWhen`); an index is disturbed where it has a trend in just one of the runs.
- Two average-price families have no mirror image: a family has a counterpart on negated prices if and only
  if it is neither the reclaim nor the failed reclaim (`LevelMirror.CounterpartExactlyWhen`).

## Model

| member | source | states |
|---|---|---|
| AccountEquity.CollectEvents | alert_ranker/account_equity.py:283-298 | the event list is every trade's entry, its marks within the holding period and its exit, ordered by time, ENTRY before MARK before EXIT, then id |
| AccountEquity.EventOrder | alert_ranker/account_equity.py:71-78 | that order is a total preorder, so the stream is well defined |
| AccountPositions.StandsStep | alert_ranker/account_equity.py:397-417 | after one event a trade is open exactly when it was funded and no usable exit has come, and is carried at its last usable mark, given that this held before |
| AccountEquity.ObserveEquity | alert_ranker/account_equity.py:432-439 | if peak, trough, largest drawdown, its percentage and the underwater clock are those of the path so far, the update makes them those of the path with the next equity |
| AccountEquity.ReplayEvents | alert_ranker/account_equity.py:393-442 | the loop ends with the account after exactly the events up to the end time, and with the curve figures of the whole equity path |
| AccountEquity.ReplayAccount | alert_ranker/account_equity.py:374-442 | ending, lowest and peak equity, the largest drawdown, its percentage, the longest underwater span, and the maxima of open positions, deployed capital and planned risk are those of the path of the replay |
| AccountReport.SimulateAccount | alert_ranker/account_equity.py:361-482 | refuses a non-positive balance; otherwise reports the replay, its counts, the overnight figures of the funded trades and the percentages |
| AccountReport.FundedTradesListed | alert_ranker/account_equity.py:449 | the list handed to the overnight figures holds every funded trade once, by ascending id |
| AccountEquity.MinimumStartingCash | alert_ranker/account_equity.py:485-502 | the independent loop over the same events returns the deepest deficit of their cash flow |
| EquityCurve.DrawdownStep | alert_ranker/account_equity.py:432-439 | the running value stays the largest fall from an earlier point of the path, the start included, to a later one |
| EquityCurve.DeeperIsFirst | alert_ranker/account_equity.py:437-439 | the percentage belongs to the first point where the largest dollar fall is reached |
| EquityCurve.UnderwaterNoPeak | alert_ranker/account_equity.py:432-434 | without a strictly higher peak the clock keeps running from the first event below the peak |
| EquityCurve.UnderwaterEnd | alert_ranker/account_equity.py:441-442 | at the end the span is the longest stretch from a point below the peak to the next strictly higher peak, or to the last event |
| AccountLaws.FundingThreshold | alert_ranker/account_equity.py:361-502 | for unique ids and exits not before entries, a balance blocks nothing if and only if it is at least the minimum starting cash, and then funds every trade |
| AccountLaws.EnoughFundsAtAnyTime | alert_ranker/account_equity.py:361-502 | for the same trades, whatever moment the replay stops at, enough cash has blocked nothing and cash is not negative |
| AccountLaws.TooLittleAlwaysBlocks | alert_ranker/account_equity.py:361-502 | any balance below the minimum blocks at least one entry, for any trades at all |
| AccountLaws.EntryBeforeExit | alert_ranker/account_equity.py:283-298 | for unique ids and exits not before entries, an exit comes after the entry of its trade in the sorted stream |
| AccountLaws.EachTradeOnce | alert_ranker/account_equity.py:283-298 | with unique ids each trade enters exactly once, and exits exactly once if it has an exit time, else never |
| AccountLaws.StepConserves | alert_ranker/account_equity.py:399-417 | a step keeps cash plus capital minus realized result if and only if it overwrites no open position |
| AccountLaws.ReplayConserves | alert_ranker/account_equity.py:393-419 | after every step of every replay with unique ids, cash plus capital of open positions is start plus realized |
| AccountLaws.ReportedEquityAddsUp | alert_ranker/account_equity.py:444-482 | reported ending equity is start plus realized plus unrealized |
| AccountLaws.ExitBeforeEntryBreaksThreshold | alert_ranker/account_equity.py:485-502 | an exit stamped before its own entry makes the two loops disagree |
| AccountThreshold.MendedThreshold | alert_ranker/account_equity.py:361-502 | for unique ids and any exit times, a balance blocks nothing if and only if it is at least the minimum starting cash of the trades with exits before their entries cleared, and then funds every trade |
| AccountTill.HeldThreshold | alert_ranker/account_equity.py:361-502 | for any trades, a balance blocks nothing if and only if it meets the deepest deficit of the cash flow that counts an exit only while its id is held, and then it funds every trade |
| AccountTill.ThresholdExactlyWhen | alert_ranker/account_equity.py:361-502 | for any trades, the minimum starting cash is the funding threshold for every balance if and only if it is that deficit |
| AccountThreshold.MendedIsHeld | alert_ranker/account_equity.py:361-502 | for unique ids that deficit is the minimum starting cash of the mended trades |
| AccountThreshold.SharedIdBreaksThreshold | alert_ranker/account_equity.py:485-502 | with a repeated id a balance equal to the minimum can block an entry |
| AccountLaws.SharedIdLosesMoney | alert_ranker/account_equity.py:399-404 | two rows sharing an id lose the cost of the first position |
| AccountLaws.MoreCashCanFundFewer | alert_ranker/account_equity.py:399-406 | funding is not monotone in the balance |
| AccountThreshold.AlikeExactlyWhen | alert_ranker/account_equity.py:399-406 | for unique ids, two balances fund and block the same trades if and only if no entry costs more than the smaller has left at that moment and not more than the larger |
| AccountThreshold.DecidedAlikeExactlyWhen | alert_ranker/account_equity.py:399-406 | for any trades, two balances decide every entry alike if and only if no entry costs more than the smaller has left at that moment and not more than the larger |
| AccountTill.EnoughIsEnough | alert_ranker/account_equity.py:361-502 | for any trades, from the threshold on every balance funds every entry and blocks none |
| AccountPositions.OpenExactlyWhen | alert_ranker/account_equity.py:393-417 | for unique ids and exits not before entries, after any number of events a trade is open exactly when its entry was funded and no usable exit of it has come, and it is carried at its last usable mark, or at what it was opened at |
| AccountPositions.RealizedIsClosedResult | alert_ranker/account_equity.py:393-417 | for the same trades the realized result is the sum of what the closed ones earned at their own exit bids |
| AccountPositions.NothingBeforeEntry | alert_ranker/account_equity.py:283-298 | before a trade's entry the stream holds neither a mark nor an exit of it |
| OvernightHolds.OvernightMetrics | alert_ranker/account_equity.py:313-358 | trades held overnight, nights in total, the peak of trades open over one night, and the worst loss from the last bid of a marked day to the first bid of the next one; the nights counted by trade are the nights counted by calendar night |
| CivilDates.YearOf | alert_ranker/session_calendar.py:146-150 | day.year: the year of a day is the one whose first and last day enclose it |
| SessionCalendar.EasterInRange | alert_ranker/session_calendar.py:103-115 | for every year the computus names a date from March 22 to April 25 |
| SessionCalendar.EasterIsSunday | alert_ranker/session_calendar.py:103-115 | that date is a Sunday |
| SessionCalendar.EasterFollowsPaschalMoon | alert_ranker/session_calendar.py:103-115 | it is the first Sunday strictly after the paschal full moon of the tabular method |
| SessionCalendar.MoonTermIsEpact | alert_ranker/session_calendar.py:103-115 | the moon term of the computus is the Clavian epact with its two exceptions |
| TradingDays.GoodFridayShape | alert_ranker/session_calendar.py:129-143 | Good Friday is a Friday between March 20 and April 23 |
| TradingDays.HolidayShape | alert_ranker/session_calendar.py:94-143 | each of the ten rules yields a Monday-to-Friday date in its own part of the year |
| TradingDays.ClosedDaysAreWeekdays | alert_ranker/session_calendar.py:129-143 | every closed day produced for a year is a weekday |
| TradingDays.HolidaysAreWeeksApart | alert_ranker/session_calendar.py:129-143 | two different holidays lie at least a week apart, across year ends too |
| TradingDays.FourDaysHoldASession | alert_ranker/session_calendar.py:94-164 | any four consecutive calendar days hold a session |
| TradingDays.ThreeDaysMayNot | alert_ranker/session_calendar.py:94-164 | three do not always |
| TradingDays.ThreeClosedExactlyWhen | alert_ranker/session_calendar.py:94-164 | three days in a row hold none if and only if they are a Friday holiday with its weekend or a weekend with its Monday holiday |
| TradingDays.YearEndIsNoHoliday | alert_ranker/session_calendar.py:94-164 | December 31 is never closed as a holiday |
| TradingDays.NewYearKeptExactlyWhen | alert_ranker/session_calendar.py:94-164 | the observed New Year holiday is a closed day if and only if January 1 is not a Saturday |
| TradingDays.EarlyClosesAdjoinClosedDays | alert_ranker/session_calendar.py:146-164 | an early close always adjoins a holiday or a weekend |
| TradingDays.SessionShape | alert_ranker/session_calendar.py:146-164 | a session lies inside its own day and lasts 390 or 210 minutes |
| SessionSearch.NextSessionOnOrAfter | alert_ranker/setup_capture.py:234-242 | the 14-day search always finds the earliest session that has not closed yet |
| SessionSearch.NextSessionAfterClose | alert_ranker/setup_capture.py:245-253 | the 14-day search always finds the first session of a later day |
| SessionSearch.ResolveTarget | alert_ranker/coverage_collector.py:133-167 | an explicit day is taken if it is a settled session; otherwise the ten-day walk back finds the newest settled session, fails if and only if none of the ten days has one, and never fails as long as settling takes at most five days and eight hours |
| SessionSearch.SessionsBetween | alert_ranker/coverage_collector.py:170-179 | exactly the sessions of the days from start to end, in order |
| SessionSearch.TargetIsLastSettled | alert_ranker/coverage_collector.py:133-192 | the session picked without an explicit day is the last one `settled_sessions` lists from any earlier start |
| SessionSearch.SettlesSameDay | alert_ranker/coverage_collector.py:133-192 | with the default settling time a session settles on its own day |
| WatchWindows.WatchesNextBar | alert_ranker/setup_capture.py:256-296 | a structure is watched for exactly the bar that follows it, clipped to the close, or the first bar of the next session |
| WatchWindows.WindowShape | alert_ranker/setup_capture.py:256-296 | each window is non-empty, lies in one session, and starts no earlier than its structure closed |
| WatchWindows.WindowsTile | alert_ranker/setup_capture.py:256-296 | every instant of regular hours lies in the window of exactly one structure, for 30m, 1H and 1D |
| WatchWindows.NothingWatchedOutsideHours | alert_ranker/setup_capture.py:256-296 | outside regular hours nothing is watched |
| WatchWindows.HourlyStub | alert_ranker/setup_capture.py:288-296 | the last hourly bar of a regular or early session is a half-hour stub |
| CausalBars.ExpectedBarStarts | alert_ranker/causal_bars.py:148-159 | the cursor loop lists open, open plus one step, and so on while a bar still ends by the close |
| CausalBars.BuildSessionTimeframe | alert_ranker/causal_bars.py:185-233 | refuses a target that is no multiple of the source; otherwise emits the candle of each complete group |
| CausalBars.FoldMeaning | alert_ranker/causal_bars.py:221-231 | a candle has the first open, the last close, a high that is reached and not exceeded, a low likewise |
| CausalBars.LookupCompleted | alert_ranker/causal_bars.py:103-118 | the completion filter keeps exactly the bars whose whole interval has ended |
| CausalBars.LookupSession | alert_ranker/causal_bars.py:121-145 | the session filter keeps exactly the bars contained in the session |
| CausalBars.ComputeEma | alert_ranker/causal_bars.py:278-293 | no average with less than one period of history; otherwise one that lies within any bounds on the values |
| CausalBars.EmaWithin | alert_ranker/causal_bars.py:278-293 | the average lies between the least and the greatest value, and is the value of a constant series |
| CausalBars.EmaMovesToward | alert_ranker/causal_bars.py:289-293 | each further value moves the average toward itself, leaving one minus the multiplier of the distance |
| BarAggregation.BuildIs | alert_ranker/causal_bars.py:185-233 | the built series is the candles of the complete groups of the anchored grid, in order, and nothing else |
| BarAggregation.CutoffCommutes | alert_ranker/causal_bars.py:103-233 | building from the bars completed by a moment is completing the built bars by that moment |
| BarAggregation.TwoStepPlain | alert_ranker/causal_bars.py:185-233 | two-step aggregation equals one-step on starts, open, high, low, close and volume, over any gaps |
| BarAggregation.TwoStepVwap | alert_ranker/causal_bars.py:256-262 | the volume-weighted price agrees if and only if no traded group has an untraded part, or there was none to lose |
| BarAggregation.FadingVolumeLosesThePrice | alert_ranker/causal_bars.py:256-262 | four bars of which the last two have no volume lose the price when built twice |
| SessionRebuild.RebuildSessionHours | alert_ranker/setup_capture.py:299-342 | the nested loops emit, session by session, the hour candles and stubs that are complete and ended by the cutoff |
| SessionRebuild.RebuildSessionDailies | alert_ranker/setup_capture.py:345-370 | one candle per session that closed by the cutoff and has bars |
| SessionRebuild.HoursKnowNoFuture | alert_ranker/setup_capture.py:299-342 | no candle of any session, stub included, is published before its interval has ended |
| SessionRebuild.HourBuildersAgree | alert_ranker/setup_capture.py:299-342 | the full-hour candles are the completed output of the general builder on the session's bars, without the average price |
| SessionRebuild.RawBuildersAgreeExactlyWhen | alert_ranker/setup_capture.py:299-342 | on raw bars the two builders agree if and only if no complete hour that ended by the cutoff ends past the close |
| SessionRebuild.RawBarsRunAcrossTheClose | alert_ranker/setup_capture.py:299-342 | the last half hour of a regular session and one bar after it make them differ |
| SessionRebuild.HoursFoldToDay | alert_ranker/setup_capture.py:299-370 | on a finished gap-free session, folding all hour candles with the stub gives the daily candle |
| SymbolSeries.BuildSymbolSeries | alert_ranker/coverage_observer.py:223-279 | the session loop keeps whole sessions, names the missing and incomplete ones, counts the bars the last session would have, and says whether its average price is missing |
| SymbolSeries.BuiltIsWellFormed | alert_ranker/coverage_observer.py:223-279 | for ascending sessions the series is in time order, each session's list is the series cut by day, and an observable series has every session |
| SymbolSeries.UnpricedBarHidesTheDay | alert_ranker/coverage_observer.py:266-279 | one bar of the last session without a volume-weighted price, however late, makes the series unobservable |
| SymbolSeries.KeptCutoff | alert_ranker/coverage_observer.py:249-250 | cutting bars off at a time commutes with reducing them to a session |
| CoverageObserver.DirectionalBarsCarryStructure | alert_ranker/coverage_observer.py:287-330 | a bar carries a structure exactly when it breaks one side of the bar before and not the other |
| CoverageObserver.FamilyTable | alert_ranker/coverage_observer.py:291-330 | the daily detector and the shared classifier together give each shape of three bars one family, with the trigger the current bar broke and the stop opposite |
| CoverageObserver.LevelsAreDayExtremes | alert_ranker/coverage_observer.py:333-353 | the target pool is exactly the daily extremes of the bars before the last two, and the last of those |
| CoverageObserver.QualifiesExactlyWhen | alert_ranker/coverage_observer.py:439-540 | an event qualifies exactly when geometry and alignment hold, it is first seen before the close, and the first-sight price leaves at least one risk to the target with the stop still ahead; without a price there is no verdict |
| CoverageObserver.FirstTick | alert_ranker/coverage_observer.py:429-436 | the first sight is the least scanner tick at or after the close plus the delay |
| CoverageObserver.FirstSight | alert_ranker/coverage_observer.py:429-436 | the loop from the hour's first tick finds it |
| CoverageObserver.Latest | alert_ranker/coverage_observer.py:447-455 | the priced fine bar is the latest one closed |
| CoverageObserver.ObserveSymbol | alert_ranker/coverage_observer.py:463-593 | the loop records, for every directional bar of the session, its facts and its first-sight figures |
| ObserverCausality.LaterBarsDoNotInterfere | alert_ranker/coverage_observer.py:333-593 | two observable runs that agree on all bars closed by t record the same structures, levels, targets, trends, alignment and first-sight instants for every bar closed by t |
| ObserverCausality.SightLooksToItsTick | alert_ranker/coverage_observer.py:429-593 | if the fine bars closed by the first-sight tick agree too, the whole events are equal |
| ObserverCausality.IndexTrendsAgree | alert_ranker/coverage_observer.py:400-406 | the SPY and QQQ trend at a close depends only on bars closed by then |
| ObserverCausality.PriorCandlesAgree | alert_ranker/coverage_observer.py:416-421 | the daily candles depend only on earlier days |
| ObserverCausality.BuiltSeriesAgree | alert_ranker/coverage_observer.py:223-279 | series built from provider bars that agree up to t agree up to t |
| ObserverCausality.FactsAgreeExactlyWhen | alert_ranker/coverage_observer.py:333-593 | two observable runs whose symbol bars closed by t agree record the same facts by t if and only if SPY and QQQ have the same trend at the close of every one-sided break closed by t |
| Observability.TrendsAgreeExactlyWhen | alert_ranker/coverage_observer.py:223-406 | an index over provider bars that agree up to t has the same trend at a close by t if and only if it is usable in both runs, or in neither, or has no trend there |
| Observability.RunsAgreeExactlyWhen | alert_ranker/coverage_observer.py:223-593 | runs over provider bars that agree up to t record the same facts by t if and only if both symbols are observable and no index is disturbed at a one-sided break closed by t, or neither is, or the observable one has no such break |
| Observability.LateBarErasesFacts | alert_ranker/coverage_observer.py:266-279 | one bar of the last session after t without an average price takes back every fact recorded by t |
| Observability.LateIndexBarChangesFacts | alert_ranker/coverage_observer.py:266-406 | such a bar of SPY changes the facts of a break by t at which SPY had a trend |
| LateBars.OneLateBar | alert_ranker/coverage_observer.py:223-593 | any two regular days carry bars on which both happen |
| LevelEvents.AssignEpisodeIds | alert_ranker/non_strat_coverage.py:448-477 | the counter and previous-event dictionaries give each event the number of its run within its key |
| LevelEvents.SuccessiveIds | alert_ranker/non_strat_coverage.py:459-475 | two successive events of a key share an episode exactly when five minutes apart, and otherwise the later opens the next one |
| LevelEvents.IdsIgnoreTheFuture | alert_ranker/non_strat_coverage.py:448-477 | dropping the events from any time on and handing out ids commute |
| LevelObserver.ArmedStep | alert_ranker/non_strat_coverage.py:227-232 | being armed, defined without state, changes with each bar as the arming dictionary does |
| LevelObserver.VwapEvents | alert_ranker/non_strat_coverage.py:275-329 | the four average-price branches fire as defined |
| LevelObserver.BreakOrRetest | alert_ranker/non_strat_coverage.py:333-369 | the break branch, the retest branch and the arming flag of one level |
| LevelObserver.OpeningRangeEvents | alert_ranker/non_strat_coverage.py:388-443 | the opening range taken up front is the one known at each bar, and it takes part from the seventh bar on |
| LevelObserver.ObserveSession | alert_ranker/non_strat_coverage.py:195-445 | the loop returns the stateless definition's events with their ids, and nothing with fewer than two bars or no prior session |
| LevelLaws.ObserverUsesNoLaterBar | alert_ranker/non_strat_coverage.py:195-477 | for every time t, observing what started before t in the symbol and both indices gives exactly the full run's events before t, ids included |
| LevelLaws.FiresPrefix | alert_ranker/non_strat_coverage.py:234-443 | whether a family fires on a bar does not depend on later bars |
| LevelLaws.RetestFollowsItsBreak | alert_ranker/non_strat_coverage.py:333-426 | a retest is recorded exactly when the bar comes back to the level after a break no earlier retest has used |
| LevelLaws.RetestsNeedFreshBreaks | alert_ranker/non_strat_coverage.py:333-426 | between two retests of a level lies a fresh break |
| LevelMirror.LongAndShortMirror | alert_ranker/non_strat_coverage.py:275-443 | negating every price turns each long interaction into its short counterpart, arming included |
| LevelMirror.CounterpartExactlyWhen | alert_ranker/non_strat_coverage.py:275-443 | a family happens exactly where some family happens on negated prices, if and only if it is neither the reclaim nor the failed reclaim |
| LevelLaws.FailureFollowsReclaim | alert_ranker/non_strat_coverage.py:288-303 | a failed reclaim is recorded exactly when the bar before was a reclaim and this one closes back below |
| CoverageEpisodes.SplitFlattens | alert_ranker/coverage_episodes.py:235-245 | the runs of a group hold its rows once each, in order |
| CoverageEpisodes.SplitContiguous | alert_ranker/coverage_episodes.py:235-245 | each run is contiguous and neighbouring runs are not |
| CoverageEpisodes.EpisodeCount | alert_ranker/coverage_episodes.py:235-245 | the runs of a group number its rows without a row 30 minutes earlier, if and only if no row slips in between |
| CoverageEpisodes.GridHasNoInterloper | alert_ranker/coverage_episodes.py:235-245 | on one grid with distinct starts none does |
| EpisodeReducer.CloseRuns | alert_ranker/coverage_episodes.py:236-245 | the run loop closes exactly the runs of the group |
| Grouping.GroupRows | alert_ranker/coverage_episodes.py:229-231 | the grouping dictionary holds each key's rows in input order |
| EpisodeReducer.LabelSession | alert_ranker/coverage_episodes.py:257-271 | the label loop of one symbol and session writes the run of each bar and touches nothing else |
| EpisodeReducer.LabelBars | alert_ranker/coverage_episodes.py:252-271 | after all sessions the table holds the run label of every bar and no other |
| EpisodeReducer.ReduceEvents | alert_ranker/coverage_episodes.py:226-273 | the reducer returns the sorted episodes of all runs with their labels |
| ReducerLaws.RunsPartitionRows | alert_ranker/coverage_episodes.py:226-249 | the runs hold exactly the input rows, each as often as it came in |
| ReducerLaws.EventsConserved | alert_ranker/coverage_episodes.py:226-249 | n_events sums to the number of 30-minute rows, for any input |
| ReducerLaws.EpisodesCountStarts | alert_ranker/coverage_episodes.py:226-249 | there are never fewer episodes than rows starting a run, and exactly as many if and only if no group has an interloper |
| ReducerLaws.RunsAreMaximal | alert_ranker/coverage_episodes.py:235-245 | with distinct starts and no interloper, no run can be extended at either end |
| ReducerLaws.RunsIgnoreOrder | alert_ranker/coverage_episodes.py:226-249 | with one row per start in each group, the episodes do not depend on the input order |
| ReducerLaws.ReducedIgnoresOrder | alert_ranker/coverage_episodes.py:226-273 | with one row per family and start, neither do the labels |
| InputOrder.RunsFixedExactlyWhen | alert_ranker/coverage_episodes.py:226-249 | the runs are the same for every order of the input if and only if no two different rows of a group share a start |
| ReducerLaws.LabelDependsOnOrder | alert_ranker/coverage_episodes.py:252-273 | a LONG and a SHORT row of one family on one bar make the label depend on the order |
| LabelOrder.LabelsFixedExactlyWhen | alert_ranker/coverage_episodes.py:252-273 | for any input, the labels of a session are the same for every order of it if and only if each bar and family whose rows point both ways holds a single dissent between ties of the other direction, the earlier within one bar and the later on the same bar |
| LabelOrder.LabelsFixed | alert_ranker/coverage_episodes.py:252-273 | in particular when no bar and family points both ways |
| LabelOrder.TieAtEndOfBarShows | alert_ranker/coverage_episodes.py:252-273 | they are not when the last family of a bar does |
| InputOrder.HalfHourEpisodes | alert_ranker/coverage_episodes.py:226-249 | on half-hour rows, one to a bar, the episodes number the rows without a row 30 minutes earlier, and none can be extended |
| DirectionRuns.NeighboursShareLabel | alert_ranker/coverage_episodes.py:262-269 | neighbouring rows carry one label exactly when the second continues the first |
| DirectionRuns.OneRunExactlyWhen | alert_ranker/coverage_episodes.py:252-273 | with one row per start, an episode's rows carry one label if and only if no row of that symbol and session starts between two neighbouring ones |
| DirectionRuns.EpisodesLieInOneDirectionRun | alert_ranker/coverage_episodes.py:252-273 | with one row per bar of the grid that always holds, so a direction run is a union of whole episodes |
| DirectionRuns.OffGridSplitsAnEpisode | alert_ranker/coverage_episodes.py:252-273 | off the grid that fails |
| PathWalk.PathView.constructor | alert_ranker/coverage_outcomes.py:354-369 | a new view has no score |
| PathWalk.WalkBar | alert_ranker/coverage_outcomes.py:284-338 | one bar updates excursions, hits and flags and stops the loop exactly on an ambiguous bar |
| PathWalk.WalkBars | alert_ranker/coverage_outcomes.py:284-338 | the loop ends with the tallies of the declarative scores |
| PathWalk.Walk | alert_ranker/coverage_outcomes.py:248-351 | the view is filled with exactly the scores read off the bars, the snapshot of an ambiguous bar with the levels it touched included |
| PathWalk.StoppedIsFinal | alert_ranker/coverage_outcomes.py:284-318 | once the stop or an ambiguous bar has been seen, more bars change no score |
| WalkLaws.FirstTouchDecides | alert_ranker/coverage_outcomes.py:248-351 | the first bar touching target or stop decides: both, or the stop in the crossing bar, is ambiguous; otherwise whichever it touched |
| WalkLaws.NoTouchUnresolved | alert_ranker/coverage_outcomes.py:340-351 | the walk is unresolved exactly when no bar touches either |
| WalkLaws.HitIffReached | alert_ranker/coverage_outcomes.py:320-346 | a threshold is hit if and only if the maximum favourable excursion reaches it |
| WalkLaws.HitsOrdered | alert_ranker/coverage_outcomes.py:320-346 | on bars in time order the hit times are ordered as the thresholds |
| WalkLaws.MirrorSymmetry | alert_ranker/coverage_outcomes.py:187-351 | negating prices and flipping the direction changes nothing a walk reports in R, and negates the prices of the ambiguous bar |
| WalkLaws.TargetMonotone | alert_ranker/coverage_outcomes.py:248-351 | a winner stays one for a nearer target, a loser for a farther one |
| OpportunityTracker.ResolveOutcome | adaptive/opportunity_tracker.py:183-291 | the loop with its early returns is first touch of stop or target, counted from the first bar that trades the entry |
| OpportunityTracker.EarlierBarsOnlyCount | adaptive/opportunity_tracker.py:236-242 | bars before the entry touch change nothing but the bar count |
| OpportunityTracker.FillValues | adaptive/opportunity_tracker.py:206-234 | before commission a stop is worth minus the risk and two slippages, a target the reward less one slippage |
| OpportunityTracker.PessimismNeverPays | adaptive/opportunity_tracker.py:183-291 | the pessimistic result never exceeds the optimistic one, exactly while the slippage is no rebate beyond the bracket |
| OpportunityTracker.RebateMakesPessimismPay | adaptive/opportunity_tracker.py:183-291 | a straddling bar with such a rebate pays more on the pessimistic reading |
| OpportunityTracker.MirrorSymmetry | adaptive/opportunity_tracker.py:136-291 | LONG and SHORT mirror each other |
| PaperPolicy.ChooseExpiration | alert_ranker/paper_v1.py:112-145 | the nearest expiration at 45 days or more, else the farthest from 14 to 44, else none |
| PaperPolicy.BestExpirationUnique | alert_ranker/paper_v1.py:112-145 | the choice does not depend on order or repetition |
| PaperPolicy.ChooseContract | alert_ranker/paper_v1.py:212-257 | the first best-ranked acceptable contract of the side, with the count of refusals per reason when there is none |
| PaperPolicy.FirstMinimum | alert_ranker/paper_v1.py:242-257 | the first of the least ranks |
| PaperPolicy.RiskIsQuarterPremium | alert_ranker/paper_v1.py:260-331 | booked risk is a quarter of the premium to within a cent |
| RiskLedger.AggregateOpenPlannedRisk | alert_ranker/contract_marks.py:138-171 | the batch loops return the sum over reserving rows, or infinity as soon as one is damaged |
| RiskLedger.NextBatch | alert_ranker/contract_marks.py:138-171 | reading on from the last id drops exactly the rows already read |
| RiskLedger.RunsStayWithinCaps | alert_ranker/scanner_legacy.py:345-360 | over every run, each reserving row is damaged or has risk in (0, 300], and the sound ones sum to at most 1000 |
| RiskLedger.OpensExactlyWithinCaps | alert_ranker/paper_v1.py:260-331 | a scan opens a row exactly when nothing open is damaged, both levels are known and both caps hold |
| RiskLedger.DamageFreezesScans | alert_ranker/contract_marks.py:138-171 | while a damaged row stays open no further row opens |
| SelectorReplay.BuildCapture | alert_ranker/options_selector_evidence.py:59-147 | refuses a direction that is neither long nor short, a failed chain, a chain of another expiration or an unreadable time; otherwise retains every quote of both sides by expiration, right, text of the strike and contract id |
| SelectorReplay.ReplaySelector | alert_ranker/options_production_selector_replay.py:65-166 | refuses for the first of its guards, in order, that fails; otherwise the same selector on the retained contracts |
| SelectorReplay.FinalizeSelectorEvidence | alert_ranker/options_selector_evidence.py:150-171 | the record stays captured exactly when the replay reproduces the live decision |
| SelectorReplay.QuoteRoundTrip | alert_ranker/options_production_selector_replay.py:45-62 | a retained quote restores what the selector reads |
| SelectorReplay.DecidesOnce | alert_ranker/paper_v1.py:212-257 | on one list the decision is determined |
| SelectorReplay.SelectorAgreesExactlyWhen | alert_ranker/paper_v1.py:212-257 | the selector answers the same on a reordered side if and only if the new order puts a quote of the same choice at the head of the least-ranked ones |
| SelectorReplay.ReplayReproduces | alert_ranker/options_production_selector_replay.py:65-181 | for an error-free chain with some quote of the wanted side and no two different choices of least rank, replaying captured evidence on the same date reproduces the live status, reason and contract, so it stays captured |
| SelectorReplay.ParityForEveryOrder | alert_ranker/options_production_selector_replay.py:65-181 | parity holds for every order of retention if and only if no two different choices share the least rank |
| SelectorReplay.ParityExactlyWhen | alert_ranker/options_selector_evidence.py:88-171 | under the source's own sort key it holds if and only if the first least-ranked quote in list order is the first of them in key order |
| SelectorReplay.TieBreaksParity | alert_ranker/options_selector_evidence.py:88-171 | two equally ranked contracts of one strike, listed against the order of their ids, lose parity under that key |
| SetupCapture.EligibleIffGreen | alert_ranker/setup_capture.py:617-631 | a print sets prices exactly when its tape is known and all its conditions are green |
| SetupCapture.FirstBoundaryFromPrints | alert_ranker/setup_capture.py:639-685 | the loop and the search return what the tape proves |
| SetupCapture.ProvenIsEarliest | alert_ranker/setup_capture.py:639-685 | a proven break is the earliest eligible print of the window outside the boundaries |
| SetupCapture.BreakIgnoresOrder | alert_ranker/setup_capture.py:639-685 | on a readable tape where no two different eligible prints share stamp and trade id, the answer ignores input order |
| TapeOrder.SameAnswerExactlyWhen | alert_ranker/setup_capture.py:639-685 | for any tape, structure and window, the answer is the same for every arrival order if and only if the prints that lead the proven side are one and the same and those that lead the window have one price, or all unreadable prints are refused alike |
| SetupCapture.FirstBoundaryFromIndexMinutes | alert_ranker/setup_capture.py:688-756 | the loop and the search return the first admitted bars through either boundary, in list order, the age of the newest admitted bar, and whether the feed is late |
| SetupCapture.BarProvenIsEarliest | alert_ranker/setup_capture.py:688-756 | on minute bars in time order a proven break is the earliest admitted bar through either boundary |
| SetupCapture.EarliestExactlyWhenInOrder | alert_ranker/setup_capture.py:688-756 | for bars of distinct starts that holds for every structure, window and instant if and only if they come in time order |
| SetupCapture.UnsortedBarsCanMissTheFirst | alert_ranker/setup_capture.py:688-756 | out of order it need not be |
| SetupCapture.CatchIsSound | alert_ranker/setup_capture.py:763-943 | a resolved record counts as a catch exactly when the break is proven, it was persisted as WATCHING before the true cross, detection came within 120 seconds, nothing gapped, no feed was late, and a SIP cross or bar resolution backs it |
| SetupCapture.CatchFields | alert_ranker/setup_capture.py:913-943 | the record's own lag and cross fields say so |
| SetupCapture.TapeCatch | alert_ranker/setup_capture.py:639-943 | a catch on the tape was persisted before the earliest eligible SIP print outside the boundaries, and detected within 120 seconds of it |
| SetupCapture.IndexCatch | alert_ranker/setup_capture.py:688-943 | a catch on the index feed was persisted before its earliest admitted bar through a boundary began, on a feed not late, and detected within 120 seconds of that |
| SetupCapture.CatchMayPrecedeSipCross | alert_ranker/setup_capture.py:639-943 | the lag is bounded on one side only: on two tapes of one print each, a detection between the two crosses counts with a negative lag |

## Left out

- The HTTP application, dashboards, providers, schedulers, storage, hashes and JSON text: rows and bars come in already parsed.
- Time zones: instants are exchange-local seconds, so daylight saving is not modelled, nor are the bounds of Python dates.
- Floating point: the 1e-9 tolerances and the rounding of reported figures, except where rounding feeds the caps.
- AlpacaSessionCalendar and exchange-announced closures: the code's own rules are the calendar.
- Mutable records: episodes, funded trades and journal rows are values that are replaced, so aliasing between lists is not captured; only the walk's PathView is an object.
- CausalBars.ComputeEma: the refusal of a period below one, which no caller passes.
- The level finder `find_targets`: a function of its arguments.
- CoverageObserver.ObserveSymbol: the constant identity fields, the sequence label, and the family flags, which are functions of the recorded family; level lists are the sets they sort.
- LevelObserver.ObserveSession: the rule text, bar close and visibility times, which are functions of the recorded bar and family; the rounding of the volume ratio.
- EpisodeReducer.ReduceEvents: the gate fields copied from the first event are that event's row; bar starts are compared as times, as their text does in one UTC format.
- The number of direction runs, which is the size of the set of labels.
- `measure_episode`, `summarize` and the committee reports: tallies over the modelled results.
- The grid-gap count of a walk, and the episodes' outcome rows around it.
- OpportunityTracker.ResolveOutcome: the text of the exit reasons, and candidates without a bracket beyond the refusal.
- SelectorReplay.BuildCapture: gamma and theta of the quotes, text trimming, and the hashes bound to the record.
- Scans that interleave between reading the open risk and inserting a row: runs are sequences of scans.
