# pg100 trading bot: a verified model of its bookkeeping

This project models the deterministic core of `TradingBot` in `trading_bot.py`. That core covers:

- the per-position 5-minute candle memory;
- the ordered exit rules of the monitoring scan;
- the debounced reconciliation against the broker's holdings, and the start-up sync;
- the bookkeeping of buying, selling and liquidating;
- the cooldown blacklist with its flow-trough tracking;
- the daily reset;
- the remote commands.

It also models the 1-minute to 5-minute aggregation shared by `KisApi.fetch_5m_candles` and `debug_5m_test.py`.

The broker, the clock and the chat are not called. Every answer the bot would fetch is a parameter: quotes, holdings, the balance, whether an order filled, and the current hour, minute and time in seconds.

Layout, one Dafny module per concern:

| file | module | what it holds |
|---|---|---|
| `time_keys.dfy` | `TimeKeys` | two-digit formatting, the 5-minute bucket key, Python's string order `<=` on keys |
| `candles.dfy` | `Candles` | the candle memory of one position and its update step |
| `aggregation.dfy` | `Aggregation` | the 1m→5m loop, the stable sort before it, its reference definition by same-key runs, the test fixture |
| `positions.dfy` | `Positions` | portfolio, blacklist and quote records; the `BotConfig` constants |
| `exit_rules.dfy` | `ExitRules` | one position's turn of the scan: statistics, the nine ordered rules, partial-sale settlement |
| `monitor.dfy` | `Monitor` | the whole scan over the portfolio, and the collected sell orders |
| `ledger.dfy` | `Ledger` | sale entries, batched sales, flow-trough tracking, cooldown and the time-of-day flow filter |
| `reconciliation.dfy` | `Reconciliation` | the periodic debounced pass, recovery of unknown holdings, the start-up sync |
| `lifecycle.dfy` | `Lifecycle` | slots, the milestone index, order sizing, the weighted average, `execute_buy`, the PROGRAM entry gate |
| `commands.dfy` | `Commands` | `strip` and the four chat commands |
| `bot.dfy` | `Bot` | class `TradingBot`: its fields and the methods that change them |
| `options.dfy` | `Options` | the `Option` type |

The imperative parts of the source are methods of class `TradingBot` (`bot.dfy`) and loops in `aggregation.dfy`. Each such method is proved equal to a pure specification function: `Advance`, `Buy`, `SellOne`, `SellMany`, `TrackTroughs`, `Reconcile`, `Recover`, `Synced`, `StartupSync`, `Scanned`/`Orders` or `Expected`. The properties the source promises are proved as lemmas about those functions.

A loop over a Python dict becomes a loop that picks any remaining key, because the model leaves dict order open. Where the result could depend on that order, it is proved not to (`CheckedInOrderAnyOrder`, `SlotsOverRemove`).

Prices and flows are `int`. Ratios, the average buy price and the high-water mark are exact `real`.

## Model

| member | source | states |
|---|---|---|
| `TimeKeys.DigitChar` | trading_bot.py:1422 | a digit below 10 is rendered as a decimal digit character |
| `TimeKeys.DigitValue` | debug_5m_test.py:43 | a digit character reads as a value below 10 |
| `TimeKeys.TwoDigits` | trading_bot.py:1422 | `f"{n:02d}"` for n < 100 is two digit characters |
| `TimeKeys.ParseTwoDigits` | debug_5m_test.py:43 | `int(t_str[2:4])` of two digits is below 100 |
| `TimeKeys.TwoDigitsRoundTrip` | debug_5m_test.py:43-45 | parsing the two-digit rendering of n < 100 gives back n |
| `TimeKeys.ParseTwoDigitsRoundTrip` | debug_5m_test.py:43-45 | rendering the parsed value of two digits gives back the same two characters |
| `TimeKeys.BucketMinute` | trading_bot.py:1421 | `(minute // 5) * 5` never exceeds the minute |
| `TimeKeys.BucketMinuteBounds` | trading_bot.py:1421 | the bucket start is a multiple of 5 and the minute lies inside its 5-minute bucket |
| `TimeKeys.BucketKey` | trading_bot.py:1422 | the key `HH` + `floor(MM/5)*5` has four characters |
| `TimeKeys.BucketKeyInjective` | trading_bot.py:1420-1425 | two clock readings have the same key if and only if they share the hour and the 5-minute bucket |
| `TimeKeys.LexLeReflexive` | debug_5m_test.py:34 | Python's string `<=` is reflexive |
| `TimeKeys.LexLeTotal` | debug_5m_test.py:34 | any two strings are ordered one way or the other |
| `TimeKeys.LexLeTransitive` | debug_5m_test.py:34 | the string order is transitive |
| `TimeKeys.LexLeAntisymmetric` | debug_5m_test.py:34 | strings ordered both ways are equal |
| `TimeKeys.LexLePrefix` | trading_bot.py:524 | a common prefix preserves the order |
| `TimeKeys.TwoDigitsOrder` | trading_bot.py:1422 | two-digit renderings compare as strings exactly as the numbers compare |
| `Candles.Flat` | trading_bot.py:1434-1440 | a new bar with open = high = low = close is well formed and carries its tag |
| `Candles.Advance` | trading_bot.py:1414-1449 | after an update, the in-progress bar exists, carries the current key and closes at the new price |
| `Candles.PushBounded` | trading_bot.py:1427-1431 | appending a finished bar to a history of at most 20 keeps 20 by dropping the oldest; the new bar is last |
| `Candles.AdvanceSameBucket` | trading_bot.py:1443-1449 | in the same bucket: open and tag kept, close = price, high/low are the running max/min, history untouched |
| `Candles.AdvanceNewBucket` | trading_bot.py:1424-1441 | on a new key the previous bar (if any) is appended with the oldest dropped past 20; the new bar is flat at the price with the new key |
| `Candles.AdvanceIdempotent` | trading_bot.py:1443-1449 | feeding the same price twice in one bucket equals feeding it once |
| `Candles.AdvancePreservesWellFormed` | trading_bot.py:1425-1449 | low ≤ open, close ≤ high on every bar and history ≤ 20 are preserved by every update |
| `Candles.AdvanceAllInBucket` | trading_bot.py:1425-1449 | a run of prices in one new bucket yields first price as open, max as high, min as low and last as close |
| `Candles.AdvanceKeepsOrder` | trading_bot.py:1425-1441 | with non-decreasing clock keys, the tags of history and current bar stay strictly increasing |
| `Aggregation.KeyOf` | debug_5m_test.py:43-45 | the bucket key is four characters and starts with the two hour characters |
| `Aggregation.KeyOfFormula` | trading_bot.py:522-524 | the key equals `t_str[0:2] + f"{(int(t_str[2:4]) // 5) * 5:02d}"` |
| `Aggregation.InsertByTime` | debug_5m_test.py:34 | inserting into a time-sorted list keeps it sorted and is a permutation; an element not earlier than the last goes to the end |
| `Aggregation.SortByTime` | trading_bot.py:513 | the result is sorted by time string and is a permutation of the input; sorted input is returned unchanged |
| `Aggregation.AddMinute` | debug_5m_test.py:47-65 | one minute either extends the last run (same key) or opens a new run; earlier runs are untouched |
| `Aggregation.Segments` | debug_5m_test.py:36-65 | the runs are empty exactly for empty input, no run is empty, and the last minute ends the last run |
| `Aggregation.SegmentsUniform` | debug_5m_test.py:43-48 | every run holds minutes of a single bucket key, so no bar mixes two buckets |
| `Aggregation.SegmentsDistinct` | debug_5m_test.py:48-60 | adjacent runs have different keys |
| `Aggregation.SegmentsPartition` | debug_5m_test.py:36-65 | the runs concatenated are exactly the input |
| `Aggregation.Summaries` | debug_5m_test.py:47-69 | one bar per run |
| `Aggregation.Summarize` | debug_5m_test.py:48-65 | the bar of one run: first open, highest high, lowest low, last close, the run's key; `AggregateStep` and `FixtureRiseBar` state what it yields |
| `Aggregation.Expected` | debug_5m_test.py:36-69 | the reference result: one summary per same-key run, a trailing bar with open ≤ 0 dropped; `AggregateSorted` proves the loop computes it |
| `Aggregation.AggregateFirst` | debug_5m_test.py:48-60 | the first minute opens a bar with its own open, high, low, close and key |
| `Aggregation.AggregateStep` | debug_5m_test.py:47-65 | each further minute either updates close, high and low of the last bar, or appends a new bar |
| `Aggregation.AggregateSorted` | trading_bot.py:509-538 | the loop's output is the per-run summary, with the trailing bar dropped when its open is not positive |
| `Aggregation.Aggregate5m` | debug_5m_test.py:29-69 | sort then aggregate: the sorted list is a sorted permutation and the bars are its run summaries |
| `Aggregation.Reverse` | trading_bot.py:540 | `list(reversed(...))` has the same length and index i holds element n-1-i |
| `Aggregation.Fetch5mCandles` | trading_bot.py:508-544 | a time string that does not parse yields no bars (the ValueError caught at 542-544); otherwise the bars are the run summaries of a time-sorted permutation of the minutes, newest first |
| `Aggregation.EmptyInputNoBars` | debug_5m_test.py:31 | no input minutes give no bars |
| `Aggregation.KeyOfMonotone` | debug_5m_test.py:43-45 | bucketing keeps the time order of time strings |
| `Aggregation.AggregateOrdered` | debug_5m_test.py:34 | on sorted input the bar tags strictly increase |
| `Aggregation.RunBoundary` | debug_5m_test.py:48-53 | between two bars there is an input position where the key changes, and the bars carry the keys on either side |
| `Aggregation.FetchNewestFirst` | trading_bot.py:540 | the returned bars' tags strictly decrease |
| `Aggregation.SingleRun` | debug_5m_test.py:61-65 | minutes of one key form exactly one run |
| `Aggregation.TwoRuns` | debug_5m_test.py:47-65 | two single-key blocks with different keys form exactly two runs |
| `Aggregation.FixtureKeys` | debug_5m_test.py:10-22 | the first five fixture minutes have key "0900" and the last five "0905" |
| `Aggregation.FixtureRiseBar` | debug_5m_test.py:78-82 | the first fixture block summarises to open 1000, high 1055, low 1000, close 1050 |
| `Aggregation.FixtureFallBar` | debug_5m_test.py:87-91 | the second fixture block summarises to open 1050, high 1050, low 990, close 1000 |
| `Aggregation.FixtureSorted` | debug_5m_test.py:9-23 | the fixture is already in time order |
| `Aggregation.FixtureGivesTwoBars` | debug_5m_test.py:94 | the fixture aggregates to exactly those two bars |
| `ExitRules.Observe` | trading_bot.py:802-819 | missing statistics are seeded from the quote; max price, min price and max flow are the running extremes; entry flow is kept |
| `ExitRules.TrendWindowByMinuteOfDay` | trading_bot.py:866-873 | 6 bars / 4 bearish from 09:00 to 11:29, 12 / 8 from 11:30 to 15:20, no check otherwise |
| `ExitRules.TrendWindow` | trading_bot.py:866-873 | the window and threshold for the time of day; `TrendWindowByMinuteOfDay` gives the table |
| `ExitRules.BearishCount` | trading_bot.py:880-895 | the count is 0 for at most one bar and at most one less than the number of bars |
| `ExitRules.BearishCountAll` | trading_bot.py:884-895 | every step is bearish if and only if the count reaches its maximum |
| `ExitRules.CountBearish` | trading_bot.py:880-895 | the loop counts the pairs with curr.open > curr.close and curr.close < prev.close |
| `ExitRules.Recent` | trading_bot.py:878 | `history[-n:]` is the last n bars in order |
| `ExitRules.CheckTrend` | trading_bot.py:875-904 | the trend test fires iff the window is active, history has the window's bars, the count reaches the threshold and last close < first open |
| `ExitRules.TrendBreaks` | trading_bot.py:875-904 | the trend exit condition; `CheckTrend` proves the loop decides it |
| `ExitRules.TrendNeedsEnoughBars` | trading_bot.py:876 | no trend decision is taken with fewer bars than the window |
| `ExitRules.ProfitRate` | trading_bot.py:821 | the profit rate times the reference price is the price gain |
| `ExitRules.FlowDroppedInIntegers` | trading_bot.py:831 | the flow drop is peak > 0 and pg < 0.7 · peak |
| `ExitRules.CommonRules` | trading_bot.py:906-991 | only the high-water mark changes, it never decreases, and a partial sale is half the quantity and positive |
| `ExitRules.ProgramRules` | trading_bot.py:824-904 | only mark, flow peak and candles change; mark and flow peak never decrease |
| `ExitRules.Evaluate` | trading_bot.py:771-991 | only statistics, mark, flow peak and candles change, the last two only for PROGRAM; nothing changes on a leader exit or a failed quote |
| `ExitRules.Settle` | trading_bot.py:980-984 | a filled partial sale lowers qty by exactly the sold amount and sets the flag; otherwise nothing changes |
| `ExitRules.StatsUpdatedFirst` | trading_bot.py:802-819 | with a quote and no leader exit, the statistics are updated whatever rule then fires |
| `ExitRules.FaultExactlyOnZeroReference` | trading_bot.py:821 | the scan aborts exactly when a quoted position's reference price is 0 |
| `ExitRules.LeaderExitFirst` | trading_bot.py:777-783 | the leader exit is taken if and only if a THEME leader trades below its positive limit price |
| `ExitRules.LeaderUnlockedRule` | trading_bot.py:777-783 | a THEME position whose leader trades below its positive limit price; `LeaderExitFirst` shows it decides first |
| `ExitRules.FlowAndTrendOnlyForProgram` | trading_bot.py:824 | only PROGRAM positions can exit on flow drop or trend |
| `ExitRules.FlowDropExact` | trading_bot.py:824-833 | the flow peak becomes max(peak, pg) and the flow exit fires iff pg is below 70% of the updated peak |
| `ExitRules.TrendIgnoresBarInProgress` | trading_bot.py:855-859 | within one bucket the feed leaves history alone, so the trend test sees only completed bars |
| `ExitRules.TrailingStopExact` | trading_bot.py:911-935 | the mark becomes max(mark, profit); the stop fires iff mark ≥ 0.04 and profit ≤ mark − gap, gap 0.01 under heavy bids else 0.02 |
| `ExitRules.GiveBackExact` | trading_bot.py:937-940 | below the limit price, give-back fires iff a partial sale happened, the updated mark is below 0.04 and profit ≤ 0 |
| `ExitRules.PartialTakeShape` | trading_bot.py:966-977 | a partial take needs no earlier partial sale and profit ≥ 2%: half of qty ≥ 2, or a full sale for one share |
| `ExitRules.PartialTakeFires` | trading_bot.py:966-981 | with profit ≥ 2%, no partial sale yet, qty ≥ 2 and no trailing stop, half the quantity is sold |
| `ExitRules.StopLossFires` | trading_bot.py:952-964 | the stop-loss line is −1% for MORNING and −2% otherwise; at or below it, below the limit price, a trailing, give-back, time or stop-loss exit fires |
| `ExitRules.TimeStopExact` | trading_bot.py:942-950 | without trailing stop or give-back, the time stop fires iff 600 minutes have passed and profit ≤ 0 |
| `ExitRules.LateRules` | trading_bot.py:911-991 | trailing stop, give-back, time stop, stop-loss and partial take in the source's order; `TrailingStopExact`, `GiveBackExact`, `TimeStopExact`, `StopLossFires` and `PartialTakeShape` characterize it |
| `ExitRules.ScenarioPartialThenTrailing` | trading_bot.py:911-991 | +5% sells half of 10 shares; a later fall to +2.9% trails out |
| `Monitor.AfterTurn` | trading_bot.py:966-991 | after a turn, qty falls by half only for a filled partial sale, which also sets the flag; otherwise qty is unchanged |
| `Monitor.Turn` | trading_bot.py:771-991 | one code's verdict from its own and its leader's quote; `Evaluate`'s contract applies |
| `Monitor.Scanned` | trading_bot.py:770-991 | the portfolio after the visited codes' turns; `ScannedStep` and `ScanComplete` state its frame |
| `Monitor.Orders` | trading_bot.py:770-991 | the sell reason of every visited code whose turn sells; `ScanComplete` and `ScanThenSell` use it |
| `Monitor.ScannedStep` | trading_bot.py:771-991 | one more code's turn updates only that code's record and adds its sell reason, if any |
| `Monitor.ScanComplete` | trading_bot.py:770-994 | after the scan: the same codes, never more shares, changes only by filled partial sales, and every order is that code's sell verdict |
| `Monitor.LeaderExitOrdered` | trading_bot.py:777-783 | a THEME position whose leader came off its limit is queued for sale with the leader reason |
| `Monitor.ScanThenSell` | trading_bot.py:993-994 | after the scan and the sales, a code is gone iff it was queued and its order filled; a sold code gets a fresh entry, PG_DROP iff it left on the flow rule |
| `Ledger.CooldownReasonFor` | trading_bot.py:1344 | the blacklist reason is PG_DROP iff the sell reason is the flow exit, else NORMAL |
| `Ledger.SellOne` | trading_bot.py:1268-1351 | no-op for a code not held or a rejected order; a fill removes the code and writes its entry (reason, flow at sell, time); other entries are kept |
| `Ledger.SellManyStep` | trading_bot.py:993-994 | selling one more queued code is one more `sell_stock` call |
| `Ledger.SellMany` | trading_bot.py:993-994 | the books after `sell_stock` on every queued code; `SellManyEffect` states which codes leave and which entries they get |
| `Ledger.SellManyEffect` | trading_bot.py:993-994 | exactly the queued, filled, held codes leave; they get their sale entries; everything else is unchanged |
| `Ledger.SentBounds` | trading_bot.py:993-994 | no orders sent change nothing, and sending all is the whole batch |
| `Ledger.AllFor` | trading_bot.py:1195-1196 | liquidation queues every held code |
| `Ledger.LiquidationEffect` | trading_bot.py:1187-1196 | liquidation removes exactly the filled codes, blacklists each with the reason's entry, and empties the portfolio when all fill |
| `Ledger.Trough` | trading_bot.py:997-1004 | a PG_DROP entry with a quote takes min(trough, flow); other entries, or no quote, are unchanged |
| `Ledger.TrackTroughs` | trading_bot.py:996-1004 | trough tracking keeps the blacklist's codes |
| `Ledger.TrackedSoFarStep` | trading_bot.py:997-1004 | one more entry tracked changes only that entry |
| `Ledger.TrackTroughsIdempotent` | trading_bot.py:996-1004 | tracking twice with the same quotes equals tracking once |
| `Ledger.InCooldownInSeconds` | trading_bot.py:1558-1562 | a code is in cooldown iff blacklisted less than 28800 s (480 min) ago |
| `Ledger.InCooldown` | trading_bot.py:1558-1562 | blacklisted, and fewer than 480 minutes since the sale; `InCooldownInSeconds` restates it in seconds |
| `Ledger.PgTimeFilterByMinuteOfDay` | trading_bot.py:1539-1553 | the threshold is 5e9 from 09:00 to 09:29; 2e10 before 09:00, from 09:30 to 10:59 and from 13:00 to 14:59; buying is off from 11:00 to 12:59 and from 15:00 |
| `Ledger.PgTimeFilter` | trading_bot.py:1539-1553 | the flow threshold for the hour, None where buying is off; `PgTimeFilterByMinuteOfDay` gives the table |
| `Lifecycle.SlotsOverRemove` | trading_bot.py:634-639 | the slot sum does not depend on iteration order |
| `Lifecycle.SlotsOverAtLeastCount` | trading_bot.py:634-639 | with non-negative levels, slots used are at least the number of positions |
| `Lifecycle.SlotsExample` | trading_bot.py:634-639 | levels 0, 1, 0 use 4 slots |
| `Lifecycle.TotalSlots` | trading_bot.py:634-639 | Σ(level + 1) over the portfolio in any order; `SlotsOverRemove` and `SlotsOverAtLeastCount` state its properties |
| `Lifecycle.MilestonesAscending` | trading_bot.py:106-113 | the milestone table is strictly increasing |
| `Lifecycle.MilestoneFrom` | trading_bot.py:641-645 | the scan from position `from` returns the last milestone not above the amount, −1 if none |
| `Lifecycle.MilestoneIndex` | trading_bot.py:641-645 | the index i satisfies milestones[i] ≤ amount < milestones[i+1], −1 below the first |
| `Lifecycle.PgMilestoneIndex` | trading_bot.py:641-645 | the loop with early return computes that index |
| `Lifecycle.MilestoneIndexProperties` | trading_bot.py:641-645 | the index is ≥ 0 iff amount ≥ 5e9, is 5 iff amount ≥ 2e11, and is monotone |
| `Lifecycle.Trunc` | trading_bot.py:1047 | `int()` truncates toward zero |
| `Lifecycle.OrderQty` | trading_bot.py:1040-1047 | qty is 0 for a non-positive price, else the largest q with q·price ≤ int(asset·0.15) |
| `Lifecycle.FloorOfQuotient` | trading_bot.py:1047 | `int(i / p)` for i ≥ 0, p > 0 is the floor quotient |
| `Lifecycle.InvestAmountBounds` | trading_bot.py:1041 | the invest amount is ⌊0.15 · asset⌋ |
| `Lifecycle.WeightedAverage` | trading_bot.py:1100-1101 | the new price times the total quantity is the sum of costs, and it lies between the old and new prices |
| `Lifecycle.AverageBetween` | trading_bot.py:1101 | a weighted average with non-negative weights lies between its two prices |
| `Lifecycle.Buy` | trading_bot.py:1009-1179 | `execute_buy`'s effect on portfolio, daily counts and themes; `BuyRefusals`, `BuyFresh` and `BuyAddOn` characterize every path |
| `Lifecycle.FreshPosition` | trading_bot.py:1134-1162 | a new entry has reference = buy = price, mark 0, no partial sale, entry flow as peak and statistics, empty candles, the requested level |
| `Lifecycle.AddOnPosition` | trading_bot.py:1096-1112 | an add-on sums quantities, averages the price and resets reference, mark, partial flag, flow peak, level and buy time; nothing else changes |
| `Lifecycle.BuyRefusals` | trading_bot.py:1011-1052 | nothing changes when paused, when a new entry finds ≥ 6 slots used, when qty is 0, or when the order fails |
| `Lifecycle.BuyFresh` | trading_bot.py:1080-1173 | a filled new entry adds the fresh record, raises its strategy's daily count by one and records a THEME's theme |
| `Lifecycle.BuyAddOn` | trading_bot.py:1096-1112 | a filled add-on changes only that code's record, keeps its candles and statistics, and leaves counts and themes alone |
| `Lifecycle.ProgramEntryLevel` | trading_bot.py:1531-1603 | the PROGRAM gate on its two quote reads: time filter on the first, cooldown, held, failed second read, blacklisted and base level on the second; `ProgramEntryShape` characterizes it |
| `Lifecycle.ProgramEntryShape` | trading_bot.py:1531-1603 | an entry happens iff the code is neither held nor blacklisted, the first read clears the hour's threshold and the second read succeeds with at least 5e9; the level, 0 to 5, is the second read's milestone |
| `Lifecycle.ProgramEntryLevelFromSecondRead` | trading_bot.py:1582-1603 | reads of 21e9 then 19e9 at 10:00 enter at level 0, not the level 1 of the first read |
| `Reconciliation.Lowered` | trading_bot.py:733-736 | the quantity only moves down to the broker's figure; nothing else changes |
| `Reconciliation.Classify` | trading_bot.py:711-731 | grace period, absence count, third absence and presence, in the source's order; `ReconcileHeld` states each case |
| `Reconciliation.ReconcileCode` | trading_bot.py:710-737 | one loop body; `CheckedStep` and `ReconcileHeld` state its effect |
| `Reconciliation.Reconcile` | trading_bot.py:709-737 | the loop over every held code; `CheckedInOrderAnyOrder`, `ReconcileHeld` and `ReconcileNeverRaises` characterize it |
| `Reconciliation.CheckedNone` | trading_bot.py:709 | before the pass, nothing has changed |
| `Reconciliation.CheckedStep` | trading_bot.py:709-737 | checking one more code is one more loop body on the state so far |
| `Reconciliation.CheckedInOrderAnyOrder` | trading_bot.py:709 | the pass gives the same state in whatever order the codes are visited |
| `Reconciliation.ReconcileHeld` | trading_bot.py:709-737 | younger than 10 s: untouched; absent: count + 1, dropped and MANUAL_SELL-blacklisted at 3; present: count cleared, qty lowered |
| `Reconciliation.ReconcileLeavesOthers` | trading_bot.py:709-737 | codes not in the portfolio keep their blacklist entries and counts |
| `Reconciliation.ReconcileNeverRaises` | trading_bot.py:733-736 | the pass never adds a code or raises a quantity |
| `Reconciliation.ThirdAbsenceGivesUp` | trading_bot.py:717-728 | three absent passes give counts 1, 2 and then removal with a MANUAL_SELL entry |
| `Reconciliation.ReappearanceClearsCount` | trading_bot.py:729-731 | a position present again has its count cleared |
| `Reconciliation.RecoveredSoFarStep` | trading_bot.py:740-741 | one more broker row adds a RECOVERED record only when the code is neither held nor blacklisted |
| `Reconciliation.RecoveredPosition` | trading_bot.py:741-760 | the RECOVERED record built from a broker row; `RecoverEffect` lists its fields |
| `Reconciliation.Recover` | trading_bot.py:739-762 | the recovery loop over the broker rows; `RecoverEffect` characterizes it |
| `Reconciliation.RecoverEffect` | trading_bot.py:739-762 | existing entries are unchanged; exactly the unknown, non-blacklisted holdings are added as RECOVERED at level 0 with reference = broker average price |
| `Reconciliation.Synced` | trading_bot.py:701-707 | off-cycle, or when the holdings read fails, the books are unchanged |
| `Reconciliation.SyncedEffect` | trading_bot.py:705-762 | on a due cycle every present or too-young position stays, added codes are recovered holdings, and no quantity rises |
| `Reconciliation.RestoredPosition` | trading_bot.py:661-686 | the UNKNOWN record restored from a reported holding; `StartupSyncEffect` lists its fields |
| `Reconciliation.StartupSyncAsWritten` | trading_bot.py:656-691 | the restore and deletion loops as written, the deletion not guarded by the read's success |
| `Reconciliation.StartupSync` | trading_bot.py:656-691 | the corrected sync, which skips everything on a failed read; `StartupSyncEffect` characterizes it |
| `Reconciliation.StartupSyncAsWrittenWipes` | trading_bot.py:653-691 | as written, a failed holdings read at start-up deletes every position |
| `Reconciliation.WipeIsReadopted` | trading_bot.py:739-762 | after the wipe, the next due pass with a good read adopts back exactly the reported, non-blacklisted codes, each as a fresh RECOVERED record without statistics |
| `Reconciliation.StartupSyncEffect` | trading_bot.py:656-691 | corrected sync: a failed read changes nothing; a good one makes the codes exactly the reported ones, keeps known records, restores the rest as UNKNOWN |
| `Reconciliation.StartupSyncLoops` | trading_bot.py:661-691 | the restore loop followed by the deletion loop is that sync |
| `Reconciliation.StartupSyncIdempotent` | trading_bot.py:656-691 | a second sync with the same holdings changes nothing |
| `Commands.StripLeft` | trading_bot.py:1373 | the result is a suffix, starts with a non-space and only spaces were removed |
| `Commands.StripRight` | trading_bot.py:1373 | the result is a prefix, ends with a non-space and only spaces were removed |
| `Commands.Strip` | trading_bot.py:1373 | the result is a slice with only spaces outside it and no space at either end |
| `Commands.StripIdempotent` | trading_bot.py:1373 | stripping twice equals stripping once |
| `Commands.StripIgnoresPadding` | trading_bot.py:1373 | whitespace padding does not change the stripped text |
| `Commands.Parse` | trading_bot.py:1381-1407 | each command is recognised exactly from its two spellings, with and without the slash |
| `Commands.Receive` | trading_bot.py:1370-1378 | no text or another chat gives no command; otherwise the command of the stripped text |
| `Commands.ReceivePadded` | trading_bot.py:1370-1407 | a command word surrounded by whitespace in the bot's own chat is recognised |
| `Bot.TradingBot.constructor` | trading_bot.py:588-609 | empty portfolio, blacklist, missing counts, themes and leader locks; buying active; zero daily counts; no market-open time |
| `Bot.TradingBot.CurrentSlotsUsed` | trading_bot.py:634-639 | the loop returns Σ(level + 1) over the portfolio |
| `Bot.TradingBot.UpdateCandleMemory` | trading_bot.py:1414-1449 | no-op for a code not held; otherwise only that position's candle memory advances |
| `Bot.TradingBot.ExecuteBuy` | trading_bot.py:1009-1179 | portfolio, daily counts and themes become `Buy` of the old ones with the slots in use before the call |
| `Bot.TradingBot.SellStock` | trading_bot.py:1268-1351 | portfolio and blacklist become `SellOne` of the old ones |
| `Bot.TradingBot.SellOrders` | trading_bot.py:993-994 | the batch of collected orders is `SellMany` |
| `Bot.TradingBot.LiquidateAll` | trading_bot.py:1187-1196 | every held code is sold with the given reason |
| `Bot.TradingBot.TrackFlowTroughs` | trading_bot.py:996-1004 | the blacklist becomes `TrackTroughs` of the old one |
| `Bot.TradingBot.ResetForNewDay` | trading_bot.py:1207-1215 | portfolio, blacklist, themes, leaders, counts and market open are cleared, daily counts zeroed |
| `Bot.TradingBot.ReconcileHoldings` | trading_bot.py:709-737 | the books become `Reconcile` of the old ones |
| `Bot.TradingBot.ReconcileOne` | trading_bot.py:710-737 | one loop body is `ReconcileCode` and removes no other code |
| `Bot.TradingBot.RecoverHoldings` | trading_bot.py:739-762 | the portfolio becomes `Recover` of the old one |
| `Bot.TradingBot.SyncTick` | trading_bot.py:701-764 | the counter runs to 10 and restarts; the books become `Synced` |
| `Bot.TradingBot.BeginMonitoring` | trading_bot.py:653-701 | the portfolio becomes the corrected start-up sync; the counter starts at 0 |
| `Bot.TradingBot.RestoreReported` | trading_bot.py:661-686 | the restore loop adds the unknown reported codes |
| `Bot.TradingBot.PruneUnreported` | trading_bot.py:688-691 | the deletion loop removes exactly the unreported codes |
| `Bot.TradingBot.ScanPositions` | trading_bot.py:770-991 | the scan updates each visited record by its turn, collects their sell reasons, and crashes iff some position faults; without a crash every code was visited |
| `Bot.TradingBot.MonitorCycle` | trading_bot.py:701-1004 | the counter ticks as in `SyncTick`; sync, then scan; on a crash no sale is sent; otherwise the collected orders are sold and PG_DROP troughs tracked |
| `Bot.TradingBot.HandleCommand` | trading_bot.py:1370-1407 | stop/start set or clear the buy switch, sell liquidates with the remote reason, anything else changes nothing |
| `Bot.TradingBot.Apply` | trading_bot.py:1381-1407 | the dispatch of a parsed command |

## Left out

- Network, files and chat: every `KisApi` call, the Telegram transport and messages, `trade_logger`, `token_manager` and the DynamoDB theme load. Their results are parameters; messages and logs are not modelled.
- Threads, sleeps and the supervisor and restart loop in `run` (trading_bot.py:1451-1483), `wait_for_market_open`, and the logging set-up. Method calls are taken as atomic.
- The candidate-screening loops of `run`. Only the time-of-day flow filter, the cooldown check and the PROGRAM entry gate are modelled (`ProgramEntryLevel`). The name-exclusion filter at 1524, the rate, open-price and wick filters at 1607-1610, and the THEME and MORNING screens are not part of this model.
- Floating point: ratios, the average price and the 0.7 factor are exact `real`. Python's rounding exactly at a threshold is not captured.
- The defensive re-registration at trading_bot.py:791-799 exists for cross-thread deletion. Only the lazy seeding of statistics (802-809) is modelled, with `buy_time_dt` left out.
- `sell_stock`'s second quote fetch after a failure (1276-1278): the two attempts together are one `Option<Quote>`. Each cycle likewise has one quote per code.
- The `info` command's balance read and reply. It changes nothing and is modelled as a no-op.
- `lockedLeaders` (`locked_leaders_time`) and `marketOpenTime` are only ever cleared here; the code that fills them lies in the screening loops.
- `wait_until_next_morning`'s `wait_seconds > 0` test: the reset is modelled as done whenever it is called.
- `codes_to_sell` is a list and could name a code twice. The model maps each code to one reason, which is what one pass over the portfolio keys can produce.
- The start-up holdings read at trading_bot.py:656 is a parameter. `sync_counter` is a local of `monitor_portfolio` and is kept as field `syncCounter`, reset by `BeginMonitoring`.
- Python's `str.strip()` removes every Unicode whitespace character. `Commands.IsSpace` covers the ASCII ones (space, 0x09-0x0D, 0x1C-0x1F), not the non-ASCII ones.
- `HandleCommand` strips before the chat filter and the source after it. The outcome is the same.
- `Aggregation.SortByTime`: Python's sort is stable. The contract states a sorted permutation (and identity on sorted input), not stability among equal time strings.
- `Aggregation.Fetch5mCandles`: states the bars of some time-sorted permutation of the minutes. With two minutes that share a time string, which one comes first is not pinned down.
- `Bot.TradingBot.MonitorCycle`: after a crash, states only that no code is removed and the blacklist is unchanged. Which records the aborted scan had already updated depends on dict order, which the model leaves open.
- The fetch part of `fetch_5m_candles`, including its one-bar fallback, and the second page request.
- `Aggregation.Fetch5mCandles`: a time string counts as parsing when its characters 2 and 3 are ASCII digits. Strings that Python's `int(t_str[2:4])` still accepts (a sign, surrounding spaces, a three-character string, non-ASCII digits) are treated as the ValueError case. A price field that fails `int()` is not modelled: prices are integers.
- `debug_5m_test.py` has no exception handler, so a malformed time string would crash it. `Aggregate5m` takes only parsed minutes (`TimeString`); the crash is not modelled.

## Findings

| source | as written | input that shows it | evidently intended | confidence | as-written member | corrected member |
|---|---|---|---|---|---|---|
| trading_bot.py:656-691 | The ghost deletion at 688-691 runs even when `fetch_my_stock_list` returned None, because `current_codes` then stays empty. | A bot restarted by the supervisor with a non-empty portfolio, whose start-up holdings read fails: every position is deleted. Until the next due sync with a good read the positions are not watched (a sync comes due every 10 cycles); that sync adopts them back as RECOVERED (`WipeIsReadopted`), losing strategy, leader, reference price, high-water mark, partial-sale flag, pyramid level, statistics and buy time. | Skip the deletion when the read failed, as the periodic pass does at 707. | not executed | `Reconciliation.StartupSyncAsWrittenWipes` | `Reconciliation.StartupSyncEffect` |
