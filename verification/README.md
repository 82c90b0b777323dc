# Verification of the options workbench

A Dafny model of the parts of the options workbench that decide money, time and order flow, with proofs about
them. Each module models one component; the figures it proves are those the program reports or relies on.

| modules | component |
|---|---|
| `Gregorian`, `Computus`, `TradingCalendar`, `SessionClock` | NYSE holidays, trading-day searches, session clock |
| `Payoff`, `StrategyBuilders`, `StrategyBounds`, `StrategySelection`, `StrategyQuotes` | option structures, their reported loss, profit and breakevens, how legs are chosen and their quotes checked |
| `Scheduler`, `SchedulerOverruns`, `SchedulerTick`, `AutoTradeLoop` | the automatic trading protocol over several nodes, and the cycle over one stored instance |
| `DecisionGate`, `GateFigures`, `DecisionScores`, `ScoreFigures`, `DecisionGuard`, `StrategyGuard` | the chain from market state to an executable decision |
| `JsonRepair`, `JsonExtract` | reading the JSON object in a language model's answer |
| `VolumeProfile`, `VolumeReport` | rows, histogram, point of control, value area and low-volume nodes |
| `PostgresPool`, `SdkContexts`, `QuoteBudget` | connection pool, SDK context cache, quote rate limiter |
| `AdaptivePricing`, `OptionSymbols`, `ExitRules`, `ExitFirings` | limit price walk, option symbols, exit rules |
| `Options`, `Text`, `Digits`, `StructureFlags` | shared: optional values, stripping, decimal numerals, hard flags |

`dafny verify dfyconfig.toml` checks everything.

## How the model is laid out

Every price, score and volume is an exact real, every time a whole number of microseconds (seconds in the scheduler,
exact reals in the SDK cache). Loops and in-place updates of the program are methods proved against a function or a
predicate; the properties are then proved about that function. Protocols between threads or nodes are state machines
whose steps are the atomic sections of the program, and the theorems quantify over every interleaving.
Rules with many cases are stated twice: by the functions that the program's methods compute, and once more in the figures of
their inputs alone (`GateFigures`, `ScoreFigures`, `ExitFirings` and the lemmas named `...Iff`, `...Is` and `...InFigures`).

Randomness, clocks, the network and the language model are parameters: a clock reading is an argument, a trading run is
its outcome (orders placed, and whether an exception ended it and at which of its writes), a model's answer is any answer.

## What turned out not to hold as written

In each case the code is modelled as it is, a concrete or general counterexample is proved, and the exact condition is
proved beside it.

- Reported figures: the condor's loss is sound exactly under the condition of `CondorBounds`, which for unfloored credits
  and ordered short strikes asks for equal wings or a credit that pays for the wider one (`CondorWings`); the butterfly's
  exactly under those of `ButterflyLoss` and `ButterflyProfit`; a straddle whose put was taken at another strike has wrong
  breakevens unless its debit exceeds both strikes (`StraddleBounds`); a collar's loss exactly under that of
  `CrossedCollar`, which crossed strikes can break.
- A New Year's Day on a Saturday is entered under December 31 of the previous year, where no lookup by year finds it
  (`SaturdayNewYearIsNotObserved`), and in no other year (`NewYearIsObservedIff`).
- The scheduler's comment says the early claim keeps another node from running the same instance. It does while batches
  stay under the lock's lifetime (`TimelyRunsAreSafe`); past it a stale batch runs a slot twice
  (`LateBatchRunsASlotTwice`), and the second write of the claimed time undoes a later claim (`LateFinishUndoesAClaim`).
  Which claims hold and which do not is decided by `ClaimReserves` and `UnreservedIffExposed`.
- A cycle whose run raises after its orders, or whose end is never written to the instance, is not counted towards the
  session cap, and one that is not written leaves its number to the next (`ExceptionsEscapeTheCap`); the row agrees with
  what happened exactly on days without such a cycle (`QuietCyclesAreCounted`, `RowAgreesIff`, `NumberCountsIff`).
- A gate blocked for want of candidates or for poor execution can keep single legs allowed, exactly when
  `BlockedGateKeepsSingleLeg` says; the low profile can withdraw the strategy flag that the normal one grants
  (`StrategyFlagWithdrawn`); and the guard never reads the gate's single-leg permission (`SingleLegPermissionIsIgnored`,
  `SplitVotesStillExecute`).
- The guard looks for flags on missing shares and cash that no builder sets: it stops a structure for unusable quotes and
  nothing else (`GuardStopsUnusableQuotes`).
- A failed connect leaves its slot counted for good (`FailuresLeak`); a thread can still be served exactly while fewer
  connects have failed than the pool is large (`ServesIffSlotsLeft`).
- The documentation of the adaptive exit calls the final cycle marketable. Its aggressiveness stays below 1
  (`WalkStopsShortOfTheTouch`) and rounding to the next tick closes the rest of the way only when less than one tick is left:
  `CycleIsMarketableIff` says when a limit cycle reaches the touch, `CycleOnTheGridIff` in how many steps when the touch is a
  tick, and `LastCycleMayStopShort` gives a quote at which the last one does not.
- The Longbridge form of an option struck below ten cents cannot be read back (`LongbridgeRoundTrip`).
- The quote budget of a minute is granted twice when the minute returns (`LateWindowIsGrantedTwice`) or its Redis key has
  lapsed (`LateArrivalIsGrantedTwice`), and within each counter not otherwise (`WithinLimitIffNoReturn`,
  `ScriptWithinLimitIff`); a minute in which Redis stops answering is granted it once by each
  (`BothCountersWithinTwiceTheLimit`).
- A plan that forbids overnight exits from 15:50 on only if no exit text ahead of a firing rule names a time like 24:00:
  reading that raises before the ban is reached (`TwentyFourHundredRaises`, `NoOvernightForcesAnExit`).
- A profit giveback means to protect a gain. Without a least profit it also ends a position that never had one, at its first
  evaluation: at its best result a position is given back exactly when it does not gain (`GivebackAtTheBest`).

## Model

| member | source | states |
|---|---|---|
| Gregorian.OrdinalOrder | ai_option_scanner/market_calendar.py:68-79 | dates compared as Python compares them, by year, month and day, are ordered exactly as their day numbers |
| Computus.EasterSunday | ai_option_scanner/market_calendar.py:205-220 | for every Gregorian year the computed date is a Sunday from March 22 to April 25 |
| Computus.EasterFollowsFullMoon | ai_option_scanner/market_calendar.py:205-220 | that Sunday is the first one strictly after the paschal full moon of Lilius' and Clavius' tables, computed independently |
| Computus.LunarCorrection | ai_option_scanner/market_calendar.py:205-220 | the code's f and g corrections are the lunar correction of the tables |
| TradingCalendar.NthWeekday | ai_option_scanner/market_calendar.py:193-196 | the nth such weekday: right weekday, and for n up to 4 in the month and in the nth week |
| TradingCalendar.LastWeekday | ai_option_scanner/market_calendar.py:199-202 | the weekday in the last seven days of the month |
| TradingCalendar.AddObserved | ai_option_scanner/market_calendar.py:184-190 | enters the holiday on its observed day without overwriting another one |
| TradingCalendar.SetHoliday | ai_option_scanner/market_calendar.py:167-181 | an assignment into the year's table keeps every holiday entered before |
| TradingCalendar.NyseHolidays | ai_option_scanner/market_calendar.py:167-181 | the filled table of a year holds each of its holidays on its own day and nothing else |
| TradingCalendar.TableMatchesRule | ai_option_scanner/market_calendar.py:167-190 | within its year the table agrees with the exchange's rule for every holiday and day |
| TradingCalendar.NyseHolidayName | ai_option_scanner/market_calendar.py:161-164 | names exactly the holiday the day celebrates; the previous year's table never changes the answer |
| TradingCalendar.HolidaysApart | ai_option_scanner/market_calendar.py:167-190 | two closed holidays on different days are at least four days apart, across all years |
| TradingCalendar.NoFourClosed | ai_option_scanner/market_calendar.py:58-79 | of four consecutive days one is a trading day, in every year |
| TradingCalendar.SaturdayNewYearIsNotObserved | ai_option_scanner/market_calendar.py:161-190 | a Saturday New Year's Day is tabulated on December 31, which stays a trading day |
| TradingCalendar.NewYearIsObservedIff | ai_option_scanner/market_calendar.py:161-190 | the day tabulated for New Year's Day is kept exactly when January 1 is not a Saturday |
| TradingCalendar.IsNyseTradingDay | ai_option_scanner/market_calendar.py:58-65 | open exactly on trading days, with the reason weekend, the holiday or regular day |
| TradingCalendar.NextNyseTradingDay | ai_option_scanner/market_calendar.py:68-72 | the loop ends within three steps at the least trading day on or after the day |
| TradingCalendar.PreviousNyseTradingDay | ai_option_scanner/market_calendar.py:75-79 | the loop ends within three steps at the greatest trading day on or before the day |
| SessionClock.NyseClosesEarly | ai_option_scanner/market_calendar.py:132-157 | early exactly on a trading day that follows a day kept as Thanksgiving, is the last before one kept as Independence Day, or is December 24 |
| SessionClock.HalfDaysCloseEarly | ai_option_scanner/market_calendar.py:132-157 | the three dates computed from the year are, for every day of every year, the half days read off the holidays around them |
| SessionClock.NextRegularOpenAfter | ai_option_scanner/market_calendar.py:82-89 | with no grace the least regular open strictly after now; with grace up to 870 minutes the least graced open of all days; always minute 570 of a trading day plus the grace |
| SessionClock.NextRegularCloseAfter | ai_option_scanner/market_calendar.py:92-100 | the least regular close strictly after now: minute 780 of a half day, 960 of any other trading day |
| SessionClock.CloseFirstIffOpen | ai_option_scanner/market_calendar.py:20-55 | the next close precedes the next open exactly during a session |
| SessionClock.TodaySession | ai_option_scanner/market_calendar.py:103-117 | open flag and state of the day: open exactly from minute 570 to the close in minutes, premarket exactly before today's open |
| SessionClock.MarketEnvironment | ai_option_scanner/market_calendar.py:20-55 | next open and close are the least ones ahead in both branches, at their minutes; open, regular_open state and close-before-open coincide |
| SessionClock.SessionIsToday | ai_option_scanner/market_calendar.py:103-117 | being in some session is being in today's |
| StrategyBounds.DebitVerticalBounds | ai_option_scanner/strategy_structures.py:288-332 | over every terminal price the loss bound holds; profit bound, both ends and breakeven are exact exactly when the debit was not floored |
| StrategyBounds.CreditVerticalBounds | ai_option_scanner/strategy_structures.py:335-378 | the profit bound holds; the loss bound exactly when the floor added no credit or the raw credit covers the width |
| StrategyBounds.CreditVerticalBreakeven | ai_option_scanner/strategy_structures.py:335-378 | for a raw credit below the width the reported breakeven is the only root exactly when the credit was not floored |
| StrategyBounds.ProfitUnlimited | ai_option_scanner/strategy_structures.py:381-460 | the profit of a bought call and put exceeds every amount, as the missing max_profit says |
| StrategyBounds.StraddleBounds | ai_option_scanner/strategy_structures.py:381-417 | the loss bound holds, when it is attained, and the exact strikes and debits for which the breakevens are the roots |
| StrategyBounds.StrangleBounds | ai_option_scanner/strategy_structures.py:420-460 | the loss bound holds; it is attained and the breakevens are exactly the roots if and only if the debit was not floored |
| StrategyBounds.CollarBounds | ai_option_scanner/strategy_structures.py:463-500 | with put strike at most call strike both bounds hold for the collar with its shares, and when each is attained |
| StrategyBounds.CrossedCollar | ai_option_scanner/strategy_structures.py:463-500 | for all strikes and prices, the loss bound holds exactly when it covers the lower strike's worth |
| StrategyBounds.CoveredCallBounds | ai_option_scanner/strategy_structures.py:503-537 | for any strike and spot the profit bound holds, and the exact premiums for which the loss bound, both ends and the breakeven are right |
| StrategyBounds.CashSecuredPutBounds | ai_option_scanner/strategy_structures.py:540-573 | the profit bound holds, and the exact premiums for which the loss bound, both ends and the breakeven are right |
| StrategyBounds.WorstLossBound | ai_option_scanner/strategy_structures.py:679-725 | the wings of a condor never lose more than the wider one, plus the overlap of crossed short strikes |
| StrategyBounds.WorstLossReached | ai_option_scanner/strategy_structures.py:679-725 | that loss is reached at one of the long strikes |
| StrategyBounds.CondorBounds | ai_option_scanner/strategy_structures.py:679-725 | the reported profit always bounds; the reported loss holds exactly when it covers the worst terminal price |
| StrategyBounds.CondorWings | ai_option_scanner/strategy_structures.py:679-725 | when the `min` of the two widths is sound: equal wings, or a credit that pays for the wider one |
| StrategyBounds.CondorExact | ai_option_scanner/strategy_structures.py:679-725 | all reported figures are exact precisely for unfloored credits, ordered short strikes and equal wings |
| StrategyBounds.CondorBreakevens | ai_option_scanner/strategy_structures.py:679-725 | with ordered short strikes and a credit below the width the breakevens are the roots exactly when neither credit was floored |
| StrategyBounds.ButterflyBounds | ai_option_scanner/strategy_structures.py:738-786 | loss sound exactly when the lower wing is at least the upper, profit exactly when at most, everything exact for equal wings only |
| StrategyBounds.ButterflyProfit | ai_option_scanner/strategy_structures.py:738-786 | floored or not, the exact condition under which the reported profit holds |
| StrategyBounds.ButterflyLoss | ai_option_scanner/strategy_structures.py:738-786 | floored or not, the exact condition under which the reported loss holds |
| StrategyBuilders.WidthsAre | ai_option_scanner/strategy_structures.py:381-573 | the width reported beside the bounds of a straddle, strangle, collar, covered call and secured put |
| StrategySelection.SortSorts | ai_option_scanner/strategy_structures.py:205-257 | the legs are in strike order when they are paired |
| StrategySelection.SortIsStable | ai_option_scanner/strategy_structures.py:205-257 | and legs of one strike keep the order they came in |
| StrategySelection.RowsOrigin | ai_option_scanner/strategy_structures.py:178-285 | a row is emitted exactly for the qualifying pairs of a leg and one in its window of four |
| StrategySelection.RowsInOrder | ai_option_scanner/strategy_structures.py:178-285 | the rows come in the order of their legs' positions, one for each qualifying pair |
| StrategySelection.BullCallSpreads | ai_option_scanner/strategy_structures.py:178-202 | exactly the call pairs one to four positions apart, lower strike bought first, with a debit below the width, each with its legs and figures; every loss bound holds |
| StrategySelection.BearPutSpreads | ai_option_scanner/strategy_structures.py:205-229 | by falling strike exactly the put pairs one to four positions apart, higher strike bought first, with a debit below the width, each with its legs and figures; every loss bound holds |
| StrategySelection.BullPutSpreads | ai_option_scanner/strategy_structures.py:232-257 | by rising strike exactly the put pairs one to four positions apart, the later and higher strike sold, each with its legs and figures; every profit bound holds |
| StrategySelection.BearCallSpreads | ai_option_scanner/strategy_structures.py:260-285 | by rising strike exactly the call pairs one to four positions apart, the earlier and lower strike sold, each with its legs and figures; every profit bound holds |
| StrategySelection.BestCreditPair | ai_option_scanner/strategy_structures.py:861-878 | fails only when all strikes agree; otherwise sells the highest put or lowest call against the strike next to it |
| StrategySelection.BuildIronCondor | ai_option_scanner/strategy_structures.py:679-725 | built exactly when both sides have two strikes, from the highest put, the lowest call and the strikes next to them; short strikes ordered exactly when every put is at or below every call |
| StrategySelection.SelectOtmLeg | ai_option_scanner/strategy_structures.py:921-939 | the nearest out-of-the-money leg in strikes, ties by score; without any, the lowest call or highest put of all, which is the fallback it really takes |
| StrategySelection.BuildStrangle | ai_option_scanner/strategy_structures.py:420-460 | built exactly when legs on both sides of the spot exist, from the nearest ones |
| StrategySelection.BuildCollar | ai_option_scanner/strategy_structures.py:463-500 | built from the nearest out-of-the-money legs; with such legs on both sides the bounds hold |
| StrategySelection.BuildStraddle | ai_option_scanner/strategy_structures.py:381-417 | the call nearest the spot and the put nearest its strike, which it shares whenever some put is struck there |
| StrategySelection.ButterflyLegs | ai_option_scanner/strategy_structures.py:738-786 | the strike nearest the spot with the strikes adjacent to it; none only when it is an edge |
| StrategySelection.CallButterfly | ai_option_scanner/strategy_structures.py:738-786 | the butterfly over the center and its two neighbours; none only when the center is the lowest or highest strike |
| StrategyQuotes.QuoteConsistency | ai_option_scanner/strategy_structures.py:1064-1101 | the loop's flags, score and state are those of the flags raised leg by leg, the recomputed net price and the average spread |
| StrategyQuotes.FlagMeans | ai_option_scanner/strategy_structures.py:1064-1101 | each flag is raised exactly for its own fault of some leg or of the net price |
| StrategyQuotes.BlockedIffUnusable | ai_option_scanner/strategy_structures.py:1099-1101 | the state is blocked exactly when a leg's quote or the net price is unusable; wide spreads alone never block |
| StrategyQuotes.StateIs | ai_option_scanner/strategy_structures.py:1064-1101 | without options the state says so; it is ok exactly with usable quotes, no wide leg and spreads of 20 percent on average at most |
| StrategyQuotes.ScoreIs | ai_option_scanner/strategy_structures.py:1064-1101 | a hundred less 1.6 per percent of average spread and 18 per flag raised, never negative |
| StrategyQuotes.WideIff | ai_option_scanner/strategy_structures.py:1078-1089 | a leg is wide exactly when its spread exceeds 30 percent of the middle, or it has none |
| StrategyQuotes.InconsistentIff | ai_option_scanner/strategy_structures.py:1092-1097 | the recomputed price may lie a nickel, or from 20 cents on a quarter, from the reported debit or credit |
| StrategyQuotes.PremiumIs | ai_option_scanner/strategy_structures.py:1071-1088 | what a leg adds to the recomputed price: its ask or less its bid, per contract |
| StrategyQuotes.PairsAreConsistent | ai_option_scanner/strategy_structures.py:1064-1101 | no pair structure, floored or not, is ever reported inconsistent with its own legs |
| StrategyQuotes.IncomeIsConsistent | ai_option_scanner/strategy_structures.py:1064-1101 | nor a covered call or cash-secured put |
| StrategyQuotes.ButterflyIsConsistent | ai_option_scanner/strategy_structures.py:1064-1101 | nor a butterfly |
| StrategyQuotes.CondorConsistency | ai_option_scanner/strategy_structures.py:1064-1101 | a condor is, exactly when a floored side moves the credit by more than a nickel and a quarter of it |
| StrategyGuard.GuardStopsUnusableQuotes | ai_option_scanner/ai_decision_guard.py:265-273 | of all flags that builders, quotes and template raise, the guard stops a structure for unusable quotes alone |
| StrategyGuard.StrategyExecution | ai_option_scanner/ai_decision_guard.py:220-310 | a selected structure is executed exactly when the gate allows it, the evidence is there and its quotes are usable |
| StrategyGuard.IncomeIsStoppedWithoutABid | ai_option_scanner/strategy_structures.py:503-573 | a covered call or cash-secured put is stopped exactly without a bid, never for want of shares or cash |
| StrategyGuard.VerticalIsStoppedWithoutQuotes | ai_option_scanner/strategy_structures.py:288-378 | a vertical is stopped exactly when the bought leg has no ask or the sold leg no bid |
| Scheduler.StepKeeps | ai_option_scanner/auto_trade_scheduler.py:62-107 | every step of a node, the clock or an owner keeps the invariant when nodes are on time |
| Scheduler.TimelyRunsAreSafe | ai_option_scanner/auto_trade_scheduler.py:62-107 | in every interleaving on time at most one node is inside a tick and no due slot runs twice |
| Scheduler.SecondLeaderIffOverrun | ai_option_scanner/auto_trade_scheduler.py:62-78 | a second leader is possible exactly when the first let the 45 seconds pass |
| Scheduler.TokensStayFresh | ai_option_scanner/auto_trade_scheduler.py:75-77 | no two ticks ever share a lock token |
| Scheduler.OnlyTheOwnersLock | ai_option_scanner/auto_trade_scheduler.py:28-29 | without any timing assumption a renewal or release leaves another node's lock alone |
| Scheduler.LockScripts | ai_option_scanner/auto_trade_scheduler.py:28-29 | renewal and release act on the node's own live lock alone, and what they leave it as |
| Scheduler.AcquireIff | ai_option_scanner/auto_trade_scheduler.py:62-78 | a node enters a tick exactly when no lock is alive, with a new token and 45 seconds |
| Scheduler.ListedAreDue | ai_option_scanner/auto_trade_store.py:300-322 | a batch holds distinct instances that are started and whose time has come |
| Scheduler.EditRestarts | ai_option_scanner/web_api.py:4889-4927 | starting or stopping an instance clears its time, pausing keeps it, and nothing else is touched |
| Scheduler.StoppedInstanceIsNotListed | ai_option_scanner/auto_trade_store.py:300-322 | over whole runs of however slow nodes a stopped or paused instance is in no batch until its owner acts again |
| Scheduler.ReservationHolds | ai_option_scanner/auto_trade_loop.py:248-264 | a reserved instance stays reserved under every step but its owner's, and is in no batch listed |
| Scheduler.ReservedInstanceIsNotListed | ai_option_scanner/auto_trade_loop.py:248-264 | over whole runs a reserved instance appears in no batch before its claimed time |
| Scheduler.ClaimReserves | ai_option_scanner/auto_trade_loop.py:248-264 | a claim reserves exactly when no other node has the instance pending or is about to write an earlier time |
| Scheduler.UnreservedIffExposed | ai_option_scanner/auto_trade_loop.py:248-264 | it leaves the instance unreserved exactly when another node can act on it before its time, from its batch or by its closing write |
| SchedulerOverruns.HolderRuns | ai_option_scanner/auto_trade_scheduler.py:82-96 | a node with an instance left in its batch runs it without reading a list or letting time pass, whatever the row holds |
| Scheduler.TimelyClaimReserves | ai_option_scanner/auto_trade_loop.py:248-264 | on time every claim reserves |
| SchedulerOverruns.LateBatchRunsASlotTwice | ai_option_scanner/auto_trade_scheduler.py:82-96 | a run in which a stale batch runs a slot a second time |
| SchedulerOverruns.LateFinishUndoesAClaim | ai_option_scanner/auto_trade_loop.py:382-391 | a run in which the closing write makes a claimed instance due early |
| SchedulerTick.ListDueInstances | ai_option_scanner/auto_trade_store.py:300-322 | the list is the longest due prefix up to the limit; reading five times the limit hides no due instance |
| SchedulerTick.Tick | ai_option_scanner/auto_trade_scheduler.py:62-107 | a leader whose cycles each end before the lock lapses runs every listed instance once, in order, at its own pace and failures included, renewing after each, and gives the lock back; a follower does nothing |
| SchedulerTick.ClaimAllRows | ai_option_scanner/auto_trade_loop.py:248-264 | after a batch each listed instance has its own new due time and no other row has changed |
| AutoTradeLoop.AutoTradeInstance.RunCycle | ai_option_scanner/auto_trade_loop.py:233-391 | the whole new row, skips included and wherever an exception leaves the call; the appended cycle is live exactly with the broker on, order cycles left (4, 8, 16) and the day's loss below its share (6, 10, 18 percent) |
| AutoTradeLoop.AutoTradeInstance.Claim | ai_option_scanner/auto_trade_loop.py:242-264 | counters of another day restart and the wake time is written before anything is run |
| AutoTradeLoop.AutoTradeInstance.Execute | ai_option_scanner/auto_trade_loop.py:272-391 | audit row, run, finished row and instance row in this order, and the same exact condition for going live |
| AutoTradeLoop.LiveIff | ai_option_scanner/auto_trade_loop.py:272-326 | orders go to the broker exactly below the preset's order cycles and daily loss, written out per preset |
| AutoTradeLoop.RunsIff | ai_option_scanner/auto_trade_loop.py:42-51 | a cycle runs in the regular session, and before and after it under the extended policy |
| AutoTradeLoop.WakesAt | ai_option_scanner/auto_trade_loop.py:58-73 | the next wake time: the interval after now in a session, at least a minute and five by default, else the next open |
| AutoTradeLoop.AuditRow | ai_option_scanner/auto_trade_loop.py:305-311 | the audit row's day, number, live flag and whether its cycle is written |
| AutoTradeLoop.OrdersCountedIff | ai_option_scanner/auto_trade_loop.py:341-391 | orders_today grows by one exactly when a live run returned orders and the instance was written |
| AutoTradeLoop.Remembered | ai_option_scanner/auto_trade_loop.py:358-374 | the memory keeps its latest entries and ends with the cycle's |
| AutoTradeLoop.RiskierPresetsTradeMore | ai_option_scanner/auto_trade_loop.py:276-294 | what goes to the broker under a preset goes to it under every riskier one |
| AutoTradeLoop.HaltsStay | ai_option_scanner/auto_trade_loop.py:276-294 | an instance that stopped ordering stays stopped at every greater loss and every later order cycle |
| AutoTradeLoop.CycleKeepsInv | ai_option_scanner/auto_trade_loop.py:233-391 | every call, left by an exception anywhere or by none, keeps counters, numbering, cap and memory in step with the cycles that were written |
| AutoTradeLoop.RunsKeepTheCap | ai_option_scanner/auto_trade_loop.py:233-391 | in every reachable row the counters are the counts of the day's written cycles and no day has more counted order cycles than the cap |
| AutoTradeLoop.TodayIsWithinTheCap | ai_option_scanner/auto_trade_loop.py:276-277 | orders_today never exceeds the cap and the memory never the keep bound |
| AutoTradeLoop.IndicesAreDistinct | ai_option_scanner/auto_trade_loop.py:305-309 | the cycle numbers of a day never fall, and rise exactly across a cycle that was written |
| AutoTradeLoop.QuietCyclesAreCounted | ai_option_scanner/auto_trade_loop.py:341-391 | in every reachable row and on every day what reached the broker is the count plus the cycles that escaped, by a raising run or an unwritten end; so it is the count exactly on days without one |
| AutoTradeLoop.RowAgreesIff | ai_option_scanner/auto_trade_loop.py:341-391 | cycles_today and orders_today are the audit rows and broker cycles of the day exactly when every cycle of it was written and none escaped |
| AutoTradeLoop.NumberCountsIff | ai_option_scanner/auto_trade_loop.py:305-311 | a cycle bears the number of audit rows of its day so far exactly when all before it were written |
| AutoTradeLoop.ExceptionsEscapeTheCap | ai_option_scanner/auto_trade_loop.py:341-391 | n calls of one day that raise after ordering, inside the run or before the instance is written, reach the broker n times while orders_today stays 0; in the second case all bear the number 1 |
| DecisionGate.SingleLegTrigger | ai_option_scanner/decision_gate.py:362-449 | score and direction by signal; a fired trigger has a direction and a score from 60 to 105 |
| DecisionGate.StrategyFamilyGates | ai_option_scanner/decision_gate.py:480-600 | every family is allowed or blocked, exactly one of the two, by its own condition; the preferred pass changes nothing |
| DecisionGate.AllowPreferred | ai_option_scanner/decision_gate.py:590-594 | the closing pass over the preferred families finds none open |
| DecisionGate.BuildDecisionEnvironmentGate | ai_option_scanner/decision_gate.py:25-203 | the flags reassigned in sequence come out as the direct conditions |
| DecisionGate.BlockersStopTrading | ai_option_scanner/decision_gate.py:94-160 | should_trade exactly without blockers; auto trade and every allowed family imply it |
| DecisionGate.SingleLegFollowsMajority | ai_option_scanner/decision_gate.py:128-138 | in the normal profile a single leg needs a fired trigger on the side of a majority of three or more |
| DecisionGate.BlockedGateKeepsSingleLeg | ai_option_scanner/decision_gate.py:77-138 | a blocked gate keeps single legs allowed exactly when the firm conditions hold and nothing should be traded |
| DecisionGate.BlockedGateByCause | ai_option_scanner/decision_gate.py:77-138 | what that takes without candidates and for a chain of poor execution |
| DecisionGate.BlockedGatesExist | ai_option_scanner/decision_gate.py:39-138 | a market of each kind, with the averages its candidates have |
| DecisionGate.LowPermitsWhatNormalDoes | ai_option_scanner/decision_gate.py:57-159 | on the same market the low profile permits whatever the normal one does |
| DecisionGate.StrategyFlagWithdrawn | ai_option_scanner/decision_gate.py:150-176 | the one exception, the bare strategy flag, with the exact execution scores where it happens |
| GateFigures.MirroredMarkets | ai_option_scanner/decision_gate.py:25-203 | with up and down exchanged the gate turns regime, majority and trigger round and keeps its permissions and, but for three, its families |
| GateFigures.GammaAloneVotesUp | ai_option_scanner/decision_gate.py:281-337 | the exception: negative gamma without a bias votes for a rise |
| GateFigures.MajorityIff | ai_option_scanner/decision_gate.py:281-359 | majority and strength from the numbers of the market that vote for a rise or a fall |
| GateFigures.RegimeIff | ai_option_scanner/decision_gate.py:256-270 | each regime exactly for its own figures |
| GateFigures.TriggerInFigures | ai_option_scanner/decision_gate.py:362-449 | the trigger's points, its direction by the first signal and when it fires |
| GateFigures.FiresIff | ai_option_scanner/decision_gate.py:362-449 | exactly which signals together fire it |
| GateFigures.PermissionsIff | ai_option_scanner/decision_gate.py:57-160 | should_trade, blockers and auto trade by the numbers of either profile |
| GateFigures.SingleLegIff | ai_option_scanner/decision_gate.py:77-145 | the single-leg permission by trigger, votes, regime and the low profile's exception |
| GateFigures.FamiliesIff | ai_option_scanner/decision_gate.py:480-600 | each family allowed exactly when the chain suits structures and the market this one |
| GateFigures.StrategyFlagIff | ai_option_scanner/decision_gate.py:146-176 | the strategy flag follows the families when anything is traded and the preferences when nothing is |
| GateFigures.PreferencesIff | ai_option_scanner/decision_gate.py:603-624 | each preference by its own condition |
| GateFigures.AverageGrows | ai_option_scanner/decision_gate.py:637-640 | the averages from value to value: zero without a positive one, unchanged by others, weighted by their number |
| GateFigures.FirstEightCount | ai_option_scanner/decision_gate.py:39-46 | of more than eight candidates the averages are those of the first eight |
| GateFigures.HighestIsGreatest | ai_option_scanner/decision_gate.py:39-56 | the highest value is one of them and the greatest |
| DecisionScores.ExecutionHardFlags | ai_option_scanner/intraday_option_tools.py:880-898 | no flag exactly for a liquid quote |
| DecisionScores.DecisionScores | ai_option_scanner/intraday_option_tools.py:787-830 | the accumulated scores and bucket of one candidate under the gate |
| DecisionScores.TradableIff | ai_option_scanner/intraday_option_tools.py:787-856 | a tradable bucket means a liquid quote and a fired trigger the contract does not stand against: no put on a bullish one, no call on a bearish one |
| DecisionScores.ApplyDecisionScores | ai_option_scanner/intraday_option_tools.py:336-413 | every candidate scored, highest decision score first |
| DecisionScores.RankingIsStable | ai_option_scanner/intraday_option_tools.py:413 | the ranking descends, loses nothing and keeps ties in order |
| DecisionScores.SingleLegFlagKeepsTheOrder | ai_option_scanner/intraday_option_tools.py:807-813 | withdrawing the single-leg permission lowers all rounded scores by 12 and reorders nothing |
| ScoreFigures.TriggerScoreIs | ai_option_scanner/intraday_option_tools.py:833-857 | no trigger, the other side and the own side give 0, 24 and the trigger's points with at most ten more, up to 100 |
| ScoreFigures.PenaltyIs | ai_option_scanner/intraday_option_tools.py:860-877 | the four marks of the time penalty and when each applies |
| ScoreFigures.PenaltyGrows | ai_option_scanner/intraday_option_tools.py:860-877 | the same contract is never marked down less later in the day, and by 43 points at most |
| ScoreFigures.FlagsMean | ai_option_scanner/intraday_option_tools.py:880-898 | each hard flag exactly for its own fault |
| ScoreFigures.AlphaIs | ai_option_scanner/intraday_option_tools.py:787-805 | alpha by its weights, with gamma's points up to four |
| ScoreFigures.DecisionIs | ai_option_scanner/intraday_option_tools.py:798-830 | the decision score from alpha, execution and trigger by their weights, less the marks, and the other figures of the row |
| ScoreFigures.BucketIs | ai_option_scanner/intraday_option_tools.py:814-821 | each bucket exactly for its own condition |
| ScoreFigures.BetterScoresNoLower | ai_option_scanner/intraday_option_tools.py:787-830 | a contract of no worse quality, analysis, reward, volatility and structure is never scored lower |
| ScoreFigures.PermissionsRaiseScores | ai_option_scanner/intraday_option_tools.py:798-813 | a gate that permits more never scores a candidate lower |
| ScoreFigures.RoundIsNearest | ai_option_scanner/intraday_option_tools.py:822-830 | scores are rounded to the nearest hundredth, halves to the even one |
| DecisionGuard.FieldMissing | ai_option_scanner/ai_decision_guard.py:344-354 | true exactly when the dotted path leads nowhere or to an empty value |
| DecisionGuard.Top | ai_option_scanner/ai_decision_guard.py:323-327 | the first row of the highest rank key |
| DecisionGuard.Lookup | ai_option_scanner/ai_decision_guard.py:224 | the last row of a non-empty symbol |
| DecisionGuard.LastOfSymbol | ai_option_scanner/ai_decision_guard.py:224 | of several rows of a symbol the last one is found |
| DecisionGuard.LastOfKey | ai_option_scanner/ai_decision_guard.py:225-230 | and of several structures of a key |
| DecisionGuard.RankKeyIs | ai_option_scanner/ai_decision_guard.py:323-327 | a row ranks by its decision score, else its analysis score, else at zero |
| DecisionGuard.StrategyPassesIff | ai_option_scanner/ai_decision_guard.py:265-273 | a structure passes with score, loss and legs and without the five blocking flags |
| DecisionGuard.SingleLegProblems | ai_option_scanner/ai_decision_guard.py:250-264 | no error exactly when the contract is known, complete, tradable, triggered and unflagged |
| DecisionGuard.StrategyProblems | ai_option_scanner/ai_decision_guard.py:265-273 | no error exactly for a known, complete structure without blocking flags |
| DecisionGuard.EvidenceProblems | ai_option_scanner/ai_decision_guard.py:277-283 | no error exactly for enough items of which the first twelve name a field and a value |
| DecisionGuard.ValidateAnalysisDecision | ai_option_scanner/ai_decision_guard.py:220-310 | execution allowed exactly for an executable answer; each error exactly for its own fault, and action, selection, contract, structure, warnings and top contract of every answer |
| DecisionGuard.TopIsHead | ai_option_scanner/ai_decision_guard.py:285-288 | the guard's top contract is the head of the ranking and looking it up finds that row |
| DecisionGuard.RowPassesIff | ai_option_scanner/ai_decision_guard.py:250-264 | what the guard asks of a scored row, traced back to contract and gate: a call needs a bullish trigger and a put a bearish one |
| DecisionGuard.SingleLegExecution | ai_option_scanner/ai_decision_guard.py:220-310 | through gate, scores and guard: executed exactly for the top contract when safe, planned and evidenced |
| DecisionGuard.ExecutedSingleLegIsSafe | ai_option_scanner/ai_decision_guard.py:295-310 | for every market and answer an executed single leg has no blocker, a trigger of sixty points or more on its side (a call when bullish, a put when bearish), an unflagged quote in figures, its whole risk plan and the highest decision score |
| DecisionGuard.SingleLegPermissionIsIgnored | ai_option_scanner/ai_decision_guard.py:246-262 | the verdict is the same with and without the gate's single-leg permission |
| DecisionGuard.SplitVotesStillExecute | ai_option_scanner/ai_decision_guard.py:246-262 | a market whose gate, over the very candidate traded, disallows single legs, and an answer that is executed |
| JsonRepair.EscapeLikelyUnescapedQuotes | ai_option_scanner/ai_decision_guard.py:45-75 | the character loop computes the repair function the lemmas are about |
| JsonRepair.RepairOnlyEscapesQuotes | ai_option_scanner/ai_decision_guard.py:45-75 | nothing but backslashes before quotes is inserted, in every string |
| JsonRepair.RepairIsIdempotent | ai_option_scanner/ai_decision_guard.py:45-75 | repairing twice is repairing once, for every string and state of the loop |
| JsonRepair.RepairMeansIffTellable | ai_option_scanner/ai_decision_guard.py:45-75 | almost-JSON is repaired to what it means exactly when no stray quote is followed by what follows a closing quote |
| JsonRepair.ValidJsonIsUnchanged | ai_option_scanner/ai_decision_guard.py:45-75 | every well-formed JSON text (sections 2 and 7 of RFC 8259), however nested and spaced, is left as it is |
| JsonExtract.ProseKeepsTheObject | ai_option_scanner/ai_decision_guard.py:24-42 | prose without braces around an object leaves exactly the object |
| JsonExtract.FenceKeepsTheObject | ai_option_scanner/ai_decision_guard.py:24-42 | in a code fence the object survives exactly when the fence's first line does not open it |
| JsonExtract.ExtractJsonObject | ai_option_scanner/ai_decision_guard.py:24-42 | for every parser: the slice parsed, else the repaired slice, and only objects returned |
| VolumeProfile.FillBuckets | ai_option_scanner/market_structure.py:89-92 | in place, every bucket holds the volume priced into it and no volume is lost |
| VolumeProfile.BucketContains | ai_option_scanner/market_structure.py:89-92 | the clamped index is the bucket whose range contains the price |
| VolumeProfile.PointOfControl | ai_option_scanner/market_structure.py:96 | the first of the fullest buckets |
| VolumeProfile.ValueArea | ai_option_scanner/market_structure.py:208-222 | grows from the point of control to the larger neighbour, upwards between equal ones, until the target or the whole histogram is reached and no further; a shortest such interval where volumes fall off on both sides |
| VolumeProfile.ValueAreaIsUnique | ai_option_scanner/market_structure.py:208-222 | no other interval grows like this and stops, whatever the volumes |
| VolumeProfile.DominatingIsRichest | ai_option_scanner/market_structure.py:208-222 | the greedy interval holds at least as much as any other of its length around the same bucket |
| VolumeProfile.BuildVolumeProfile | ai_option_scanner/market_structure.py:81-100 | over given rows: when a profile is available, and its buckets, point of control and 70 percent value area |
| VolumeReport.CollectDailyRows | ai_option_scanner/market_structure.py:196-205 | the loop over the candles yields a quarter of each usable volume at the low, half at the close, a quarter at the high |
| VolumeReport.DailyRowsKeepVolume | ai_option_scanner/market_structure.py:196-205 | spreading the candles over their prices neither adds nor loses volume |
| VolumeReport.DailyRowsKeepTurnover | ai_option_scanner/market_structure.py:196-205 | and turns over the same money at the mean of low, close taken twice and high |
| VolumeReport.ProfileRowsAre | ai_option_scanner/market_structure.py:186-193 | the intraday rows kept are those with a price and a volume, in order |
| VolumeReport.SourceIff | ai_option_scanner/market_structure.py:75-80 | the last sixty daily candles stand in exactly below eight usable intraday rows |
| VolumeReport.LowVolumeRoomPct | ai_option_scanner/market_structure.py:233-241 | the distance to the nearest low-volume node on that side of the spot, zero without one |
| VolumeReport.RoomLeadsToANode | ai_option_scanner/market_structure.py:233-241 | so many percent from the spot lies the nearest node of that side, and without one the room is zero |
| VolumeReport.NodesIff | ai_option_scanner/market_structure.py:225-230 | a bucket is a node exactly with at most 45 percent of an even share |
| VolumeReport.PositionIff | ai_option_scanner/market_structure.py:244-253 | above, below, near the point of control within 0.35 percent, or inside, each exactly |
| VolumeReport.MidIs | ai_option_scanner/market_structure.py:256-257 | a bucket's price lies half a step above its lower edge |
| VolumeReport.BuildReport | ai_option_scanner/market_structure.py:74-119 | from intraday points or the daily fallback to the report; missing only for too few rows or a single price, so the volume guard never acts |
| VolumeReport.PricesAreOrdered | ai_option_scanner/market_structure.py:97-100 | value area low, point of control and value area high are in order within the buckets' range |
| VolumeReport.PocIsNoNode | ai_option_scanner/market_structure.py:225-230 | the point of control is never a low-volume node |
| PostgresPool.ConnectionPool.GetNowait | ai_option_scanner/db.py:161-167 | the connection put last leaves the queue, or nothing happens |
| PostgresPool.ConnectionPool.Reserve | ai_option_scanner/db.py:168-172 | a slot is counted exactly below the size |
| PostgresPool.ConnectionPool.PutNowait | ai_option_scanner/db.py:181-190 | a connection is queued exactly when there is room |
| PostgresPool.ConnectionPool.MarkClosed | ai_option_scanner/db.py:204-207 | the counter falls by one, not below zero |
| PostgresPool.StepKeeps | ai_option_scanner/db.py:129-207 | every step keeps connections exclusive and the counter equal to idle plus held plus lost slots |
| PostgresPool.RunsAreExclusive | ai_option_scanner/db.py:155-207 | from the start, in every interleaving, no connection is shared and the counter is exact and within the size |
| PostgresPool.GuardsNeverFire | ai_option_scanner/db.py:186-207 | the clamp at zero never acts and a returned connection always finds room |
| PostgresPool.LeaksExhaustThePool | ai_option_scanner/db.py:168-172 | once as many connects have failed as the pool is large no thread ever holds a connection again |
| PostgresPool.FailuresLeak | ai_option_scanner/db.py:168-172 | n failed connects lose n slots |
| PostgresPool.ServesIffSlotsLeft | ai_option_scanner/db.py:155-207 | from every reachable state some run serves a thread exactly while fewer connects have failed than the pool is large |
| PostgresPool.HandedOutAlive | ai_option_scanner/db.py:155-180 | a thread starts to use the connection given back last only if it is not known to be dead, or a new one |
| PostgresPool.DeadIsDiscarded | ai_option_scanner/db.py:155-180 | a dead one leaves queue and counter, and the thread asks again or opens another |
| PostgresPool.ExitGivesBack | ai_option_scanner/db.py:181-207 | a committed connection goes back to the queue and any other is closed |
| PostgresPool.ThreadGoes | ai_option_scanner/db.py:155-180 | where every other step takes its thread and the counters |
| PostgresPool.ReturnedIsReused | ai_option_scanner/db.py:155-207 | the connection given back is the next one handed out, and none is opened |
| PostgresPool.GoneForGood | ai_option_scanner/db.py:155-207 | in every interleaving a connection that is neither idle nor held is never used again |
| PostgresPool.MarkedIsGone | ai_option_scanner/db.py:181-207 | a discarded or closed connection is such a one once it is marked |
| SdkContexts.ContextCache.RemoveContextKey | ai_option_scanner/longbridge_sdk_client.py:725-729 | the key leaves all four maps and exactly its contexts are closed |
| SdkContexts.ContextCache.DropContexts | ai_option_scanner/longbridge_sdk_client.py:696-703 | exactly the account's keys are dropped and closed, and the maps stay aligned |
| SdkContexts.ContextCache.EvictStaleContexts | ai_option_scanner/longbridge_sdk_client.py:706-722 | the loop leaves exactly the keys that survive age and account limit |
| SdkContexts.ContextCache.GetContexts | ai_option_scanner/longbridge_sdk_client.py:672-693 | the whole new cache, and the contexts handed out are cached and open |
| SdkContexts.LookupKeeps | ai_option_scanner/longbridge_sdk_client.py:672-722 | after a lookup the maps are aligned, no key is stale, the accounts fit and the contexts handed out are open |
| SdkContexts.OldestFirstLeavesSurvivors | ai_option_scanner/longbridge_sdk_client.py:716-722 | removing the oldest one by one down to the limit leaves a direct characterisation of the survivors |
| SdkContexts.LatestSurvives | ai_option_scanner/longbridge_sdk_client.py:689-693 | the key just looked up is never evicted |
| SdkContexts.OldestGoFirst | ai_option_scanner/longbridge_sdk_client.py:716-722 | a key evicted for the limit is older than every key kept |
| SdkContexts.SurvivesIff | ai_option_scanner/longbridge_sdk_client.py:706-722 | a key survives exactly when used within the lifetime and the accounts used since fit the limit |
| SdkContexts.LookupInFigures | ai_option_scanner/longbridge_sdk_client.py:672-722 | a lookup keeps a cached key's contexts or opens those of the next serial, and drops exactly the keys that do not survive |
| SdkContexts.LookupCloses | ai_option_scanner/longbridge_sdk_client.py:672-729 | what it closes are the contexts of the keys it drops |
| QuoteBudget.BatchSize | ai_option_scanner/longbridge_sdk_client.py:308-312 | between 1 and 500 and never above a positive limit |
| QuoteBudget.BatchSizeIs | ai_option_scanner/longbridge_sdk_client.py:308-312 | 80 unless set from 1 to 500, cut down to the limit |
| QuoteBudget.OptionQuotes | ai_option_scanner/longbridge_sdk_client.py:192-203 | the batches in order are the cleaned symbols, each non-empty and within the batch size |
| QuoteBudget.BatchesArePaidInFull | ai_option_scanner/longbridge_sdk_client.py:319-323 | the amount charged is the number of symbols fetched |
| QuoteBudget.LocalBudget.Take | ai_option_scanner/longbridge_sdk_client.py:363-372 | granted exactly within the limit of the minute, with the counter's whole new state |
| QuoteBudget.WindowIs | ai_option_scanner/longbridge_sdk_client.py:319-342 | a request is counted in the minute of the clock it falls in |
| QuoteBudget.WindowWithinLimit | ai_option_scanner/longbridge_sdk_client.py:363-372 | when no minute returns after another no minute is granted more than the limit |
| QuoteBudget.WithinLimitIffNoReturn | ai_option_scanner/longbridge_sdk_client.py:363-372 | requests of 1 to limit symbols in a sequence of minutes keep within the limit, whatever they ask for, exactly when no minute returns |
| QuoteBudget.GrantedIff | ai_option_scanner/longbridge_sdk_client.py:363-372 | while no minute returns a request is granted exactly when it fits beside what its minute was granted: none is refused that has room |
| QuoteBudget.OrderedMinutesNeverReturn | ai_option_scanner/longbridge_sdk_client.py:319-342 | minutes in order never return |
| QuoteBudget.SpanWithinTwiceTheLimit | ai_option_scanner/longbridge_sdk_client.py:319-342 | any 60 seconds get at most twice the limit |
| QuoteBudget.TwiceIsReached | ai_option_scanner/longbridge_sdk_client.py:319-342 | and that is reached within a second |
| QuoteBudget.LateWindowIsGrantedTwice | ai_option_scanner/longbridge_sdk_client.py:363-372 | the three requests, a microsecond out of order, in which a minute is granted twice the limit |
| QuoteBudget.SharedWindowWithinLimit | ai_option_scanner/longbridge_sdk_client.py:73-89 | the script never grants a minute more than the limit in any order of arrivals within 70 seconds of its start |
| QuoteBudget.LateArrivalIsGrantedTwice | ai_option_scanner/longbridge_sdk_client.py:73-89 | at 70 seconds it does |
| QuoteBudget.ScriptWithinLimitIff | ai_option_scanner/longbridge_sdk_client.py:73-89 | the script keeps every minute within the limit whatever is asked for exactly when no two calls of one minute reach it 70 seconds apart |
| QuoteBudget.ScriptGrantedIff | ai_option_scanner/longbridge_sdk_client.py:73-89 | likewise the script, while the calls of each minute reach it within 70 seconds of one another |
| QuoteBudget.BothCountersWithinTwiceTheLimit | ai_option_scanner/longbridge_sdk_client.py:319-342 | a minute served by both counters gets at most twice the limit |
| QuoteBudget.BothCountersGrantTheLimit | ai_option_scanner/longbridge_sdk_client.py:319-342 | and can get it |
| AdaptivePricing.BuyRoundsUp | ai_option_scanner/adaptive_pricing.py:136-158 | a buy gets the least legal tick at or above the price |
| AdaptivePricing.SellRoundsDown | ai_option_scanner/adaptive_pricing.py:136-158 | a sell gets the greatest legal tick at or below it, or a cent |
| AdaptivePricing.RoundingIsIdempotent | ai_option_scanner/adaptive_pricing.py:136-158 | rounding twice is rounding once |
| AdaptivePricing.RoundingIsMonotone | ai_option_scanner/adaptive_pricing.py:136-158 | a higher price never rounds lower |
| AdaptivePricing.PriceIsBetweenMidAndTouch | ai_option_scanner/adaptive_pricing.py:202-226 | for a trusted quote with its touch on the grid the price is a legal tick between middle and touch |
| AdaptivePricing.WithinTouchIffLegal | ai_option_scanner/adaptive_pricing.py:202-226 | the price stays within the touch for every aggressiveness exactly when the touch is a tick |
| AdaptivePricing.NeverWorseThanTheTouch | ai_option_scanner/adaptive_pricing.py:161-226 | for every quote the adaptive price is never worse than the plain limit |
| AdaptivePricing.PriceIsMonotone | ai_option_scanner/adaptive_pricing.py:202-226 | more aggressiveness never gives a less aggressive price |
| AdaptivePricing.AggrGrows | ai_option_scanner/adaptive_pricing.py:119-133 | the aggressiveness stays between start and 1 and never falls |
| AdaptivePricing.MarketIff | ai_option_scanner/adaptive_pricing.py:229-270 | an exit goes to market exactly for its four guards; the price test never fires |
| AdaptivePricing.TrustedIff | ai_option_scanner/adaptive_pricing.py:178-199 | a quote is trusted exactly when its bid has not fallen below (200 - p) / (200 + p) of the ask |
| AdaptivePricing.CloserIsTrusted | ai_option_scanner/adaptive_pricing.py:178-199 | and stays so when the bid rises towards the ask |
| AdaptivePricing.UntrustedBuy | ai_option_scanner/adaptive_pricing.py:161-215 | an untrusted buy is priced at the first positive one of ask, limit, last price and last |
| AdaptivePricing.UntrustedSell | ai_option_scanner/adaptive_pricing.py:161-215 | and a sell at that of bid, last price, last and limit |
| AdaptivePricing.TrustedPrice | ai_option_scanner/adaptive_pricing.py:202-226 | a trusted price lies (1 + aggr) / 2 of the way from the other side to the touch |
| AdaptivePricing.AggrIsClamped | ai_option_scanner/adaptive_pricing.py:219-219 | an aggressiveness outside 0 and 1 counts as the nearer of the two |
| AdaptivePricing.AggrInFigures | ai_option_scanner/adaptive_pricing.py:119-133 | the aggressiveness of the first and last attempt, and in proportion between |
| AdaptivePricing.ExitInFigures | ai_option_scanner/adaptive_pricing.py:229-270 | a plain limit exit at the touch, an adaptive one where the walk stands |
| AdaptivePricing.ExitEscalates | ai_option_scanner/adaptive_pricing.py:229-270 | at one quote each cycle is weakly more aggressive, and market once reached stays |
| AdaptivePricing.WalkStopsShortOfTheTouch | ai_option_scanner/adaptive_pricing.py:119-133 | the aggressiveness itself is below 1 in every limit cycle unless the walk starts there |
| AdaptivePricing.LimitIsAtTheTouchIff | ai_option_scanner/adaptive_pricing.py:136-226 | for a trusted quote with its touch on the grid the price is the touch exactly when the unrounded price is less than one tick from it |
| AdaptivePricing.LimitIsMarketableIff | ai_option_scanner/adaptive_pricing.py:136-226 | for every trusted quote, on the grid or off it, a limit is at the touch or beyond exactly when no tick stops it short |
| AdaptivePricing.CycleIsMarketableIff | ai_option_scanner/adaptive_pricing.py:229-270 | so for every limit cycle of the walk, the last one included |
| AdaptivePricing.CycleOnTheGridIff | ai_option_scanner/adaptive_pricing.py:229-270 | with the touch on the grid, exactly when the steps still to go come to less than one tick |
| AdaptivePricing.LastCycleMayStopShort | ai_option_scanner/adaptive_pricing.py:229-270 | a quote at which the last limit cycle of the default walk is not marketable |
| OptionSymbols.ParseOptionSymbol | ai_option_scanner/option_symbol_utils.py:23-43 | the scan finds the first marker with room for a strike and splits there, or fails |
| OptionSymbols.CaseIsIgnored | ai_option_scanner/option_symbol_utils.py:23-43 | capitals and small letters are read alike |
| OptionSymbols.SpaceIsIgnored | ai_option_scanner/option_symbol_utils.py:23-43 | and white space inside a symbol is left out, unless it parts the market |
| OptionSymbols.HeadParses | ai_option_scanner/option_symbol_utils.py:23-43 | a contract's head with strike digits parses exactly when there are three or more |
| OptionSymbols.OccRoundTrip | ai_option_scanner/option_symbol_utils.py:15-43 | any text that parses, printed in OCC form, parses to the same contract |
| OptionSymbols.LongbridgeRoundTrip | ai_option_scanner/option_symbol_utils.py:19-43 | printed in Longbridge form it parses to the same contract from a strike of 100 thousandths on, and not at all below |
| OptionSymbols.LongbridgeThenOcc | ai_option_scanner/option_symbol_utils.py:46-58 | through Longbridge to OCC equals straight to OCC, for every text, exactly unless it is an option struck below 100 thousandths |
| OptionSymbols.AliasesAgree | ai_option_scanner/option_symbol_utils.py:71-79 | every alias of an option struck at 100 thousandths or more parses to that option |
| ExitRules.TimesAreRead | ai_option_scanner/smart_exit_rules.py:25-37 | padded or not, a time of day is read as the minute it names |
| ExitRules.ImpossibleIff | ai_option_scanner/smart_exit_rules.py:185-215 | reading an exit text raises exactly when it is no stamp and the first time of day in it has an hour above 23 or a minute above 59 |
| ExitRules.RaisesIff | ai_option_scanner/smart_exit_rules.py:91-106 | evaluating a rule raises exactly for a time exit with such a text |
| ExitRules.DedupeRules | ai_option_scanner/smart_exit_rules.py:281-290 | the loop keeps the first occurrence of every rule |
| ExitRules.DedupeKeepsVerdict | ai_option_scanner/smart_exit_rules.py:281-290 | deduplication changes the first-match verdict of no rule list and no position |
| ExitRules.DedupeIsExact | ai_option_scanner/smart_exit_rules.py:281-290 | exactly the rules of the list remain, each once; a second pass changes nothing |
| ExitRules.EvaluateExitRules | ai_option_scanner/smart_exit_rules.py:71-177 | what the first rule does that does not keep quiet, a trigger or an exception; nothing exactly when all keep quiet |
| ExitRules.FiresIff | ai_option_scanner/smart_exit_rules.py:71-177 | a trigger is returned exactly when some rule fires and no rule before it raises |
| ExitFirings.StopLossFires | ai_option_scanner/smart_exit_rules.py:135-138 | a stop fires exactly for a negative limit and a profit at or below it |
| ExitFirings.TakeProfitFires | ai_option_scanner/smart_exit_rules.py:139-143 | a target exactly for a positive goal and a profit at or above it |
| ExitFirings.GivebackFires | ai_option_scanner/smart_exit_rules.py:128-134 | a giveback exactly when the best profit reached the least one and its share is given back |
| ExitFirings.GivebackAtTheBest | ai_option_scanner/smart_exit_rules.py:128-134 | a position at its best is given back exactly when it does not gain |
| ExitFirings.LossRulesFireBelow | ai_option_scanner/smart_exit_rules.py:128-138 | a list of stops and givebacks that fires does so at every lower profit |
| ExitFirings.ProfitBand | ai_option_scanner/smart_exit_rules.py:135-143 | stops and targets keep a position exactly between the highest stop and the lowest target |
| ExitFirings.OptionStopFires | ai_option_scanner/smart_exit_rules.py:144-147 | an option stop exactly for a known price at or below it |
| ExitFirings.OptionTargetFires | ai_option_scanner/smart_exit_rules.py:148-151 | an option target exactly for a price at or above it |
| ExitFirings.PercentTargetFires | ai_option_scanner/smart_exit_rules.py:152-156 | a target in percent is the target at that price above the entry |
| ExitFirings.PriceBand | ai_option_scanner/smart_exit_rules.py:144-151 | stops and targets on the price keep a position exactly between them |
| ExitFirings.UnderlyingFires | ai_option_scanner/smart_exit_rules.py:118-127 | an underlying rule exactly for a quoted price on its side |
| ExitFirings.GreekFires | ai_option_scanner/smart_exit_rules.py:157-163 | a greek rule exactly for a known figure that compares |
| ExitFirings.GreekChangeFires | ai_option_scanner/smart_exit_rules.py:164-176 | and for its change from the reference or the entry, in percent or plain |
| ExitFirings.MovedOnce | ai_option_scanner/smart_exit_rules.py:164-176 | only one figure is that change |
| ExitFirings.TimeExitFires | ai_option_scanner/smart_exit_rules.py:93-107 | a time exit from the minute its text names on, unless the position was opened since; an impossible one raises |
| ExitFirings.TimeExitStays | ai_option_scanner/smart_exit_rules.py:93-107 | and at every later moment |
| ExitFirings.OvernightFires | ai_option_scanner/smart_exit_rules.py:108-117 | the ban from the minute it names on, or from 15:50 |
| ExitRules.NormalizeExitRules | ai_option_scanner/smart_exit_rules.py:40-68 | conditions, latest exit, invalidation and overnight ban in this order, deduplicated, or nothing once reading one of their texts raises |
| ExitFirings.NormalizedInOrder | ai_option_scanner/smart_exit_rules.py:40-68 | conditions, latest exit or else the position's, invalidation and ban come out in this order, all of them when they differ |
| ExitFirings.TimedCondition | ai_option_scanner/smart_exit_rules.py:235-244 | a time condition keeps its own exit, else takes the other text as a stamp or stripped |
| ExitRules.NormalizingRaisesIff | ai_option_scanner/smart_exit_rules.py:40-68 | normalising raises exactly when a text it has to read names an impossible time |
| ExitRules.NoOvernightForcesAnExit | ai_option_scanner/smart_exit_rules.py:64-118 | with allow_overnight false the evaluation never keeps quiet from 15:50 on, and exits exactly unless an impossible time stands ahead of every rule that fires |
| ExitRules.PlausibleTimesForceAnExit | ai_option_scanner/smart_exit_rules.py:64-118 | without an impossible time among its rules such a plan exits at every time from 15:50 on |
| ExitRules.TwentyFourHundredRaises | ai_option_scanner/smart_exit_rules.py:194-205 | a time exit of 24:00 raises ahead of the ban, and as a latest exit already when normalising |
| ExitRules.BanActsFromItsCutoff | ai_option_scanner/smart_exit_rules.py:64-118 | the ban decides exactly when all other rules keep quiet, from its cutoff on, never for a cutoff that is not a time of day, and undoes no exception |

## Left out

- Floating point: rounding errors, the 1e-9 slack of tick rounding, and the final
  `round(x, 2)` of reported prices, which is the identity on whole cents. The rounding of decision scores is modelled.
- Dates beyond Python's years 1 to 9999, daylight saving and time zones: Eastern wall-clock time is a day and a time.
- Calendar, diagonal and poor man's covered call: two expirations need a pricing model, so their loss is not decided here.
- Scoring of structures, probability hints, template evaluation, fit notes and labels.
- Volume report: reading prices and volumes out of feed dictionaries, rounding, and the order of the listed nodes.
- Gate warnings, reasons, confidence, and the order of the preferred families, which no decision reads.
- Reading market state out of indicator dictionaries: the gate starts from the states and averages they report.
- Language model answers as arbitrary JSON values: the guard starts from the words, symbols and evidence items read from
  them. Numbers given as strings are not read as numbers.
- Strategy keys built from parts when a row carries none.
- The tick without Redis, in which every node leads; the scheduler's counters for display.
- Pool: a change of database URL, a `close` that itself raises, and the 30 second wait, which is a step that may happen.
- Context cache: account names that contain a colon, which the program splits at the first one, and two lookups at the
  same instant, whose order the program takes from insertion.
- Quote budget: waiting between attempts, the Redis failure path, and answers served from the quote cache.
- Option symbols outside ASCII: other digits, and letters whose capital is more than one character.
- Exit rules: default reason texts and the times shown with a trigger; date-time stamps, the day an exit text falls on, texts
  without a time of day and the price in an invalidation sentence are inputs; a quote call that raises, and quotes that
  change during one evaluation.
- Environment variables: limits are parameters within their clamped ranges.
- SQL, broker, market data and AI clients, prompts, encryption, sessions, quotas and chat trimming.
- SchedulerTick.ListDueInstances: the order of the query (never run first, then by due time) is assumed, not derived from SQL.
- AutoTradeLoop.RunsKeepTheCap: cycles of one instance do not overlap and the clock does not run back over midnight.
- StrategyBounds.CreditVerticalBreakeven: stated for a raw credit below the width and a short strike of at least a nickel;
  from the width on the structure never ends at a loss and a single breakeven has no meaning.
- StrategyBounds.ButterflyBounds: stated for an unfloored debit below the width; `ButterflyLoss` and `ButterflyProfit` cover
  every debit.
- DecisionGuard.SingleLegExecution: candidates of one symbol are the same candidate and each is a call or a put.
