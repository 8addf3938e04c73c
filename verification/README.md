# Quant engine: verified model

This project models the deterministic core of a Python quantitative trading engine in Dafny and proves what that core
keeps, conserves or guarantees over all inputs and all runs. Each module follows one component:

| module | component |
|---|---|
| `VolumeProfile` | volume profile: overlap binning, value area, volume nodes |
| `Vwap` | anchored VWAP and its deviation bands |
| `Structure`, `SmartMoney` | swing points; structure breaks, fair value gaps, order blocks |
| `Evaluation` | the ledger that settles every signal's virtual trade |
| `Consensus`, `Decisions` | consensus algorithms; confidence and the acceptance gate |
| `MonteCarlo`, `Stats` | path simulation and percentiles; correlation and equity stability |
| `ParameterSpaces`, `Optimizers` | parameter spaces, grid and genetic search |
| `Decimals`, `Genomes` | flat parameter vectors of strategy genomes |
| `EventBuses`, `Watchdogs`, `RateLimiting` | event bus, supervision and token bucket as step machines |
| `Mt5Broker` | order sending against a terminal that may answer anything |
| `Numeric`, `Market`, `Options`, `Lists` | shared arithmetic, market data, the optional value and bounded lists |

Components that update fields in place are classes whose methods are proved equal to a step function; protocols are
then studied over arbitrary sequences of steps, so every interleaving is covered. What a step function computes is said
again in prices, volumes, weights or counts, without its helpers, by the lemmas whose names end in `Meaning`, `Iff` or
`Complete`; where long and short, high and low, or buy and sell mirror each other, one side is stated and a mirror law
gives the other. Floating-point numbers are exact reals and `round` is rounding half to even. The clock, the random
generator, the terminal, handlers, restart callbacks, market history and objectives are arbitrary arguments.

## What the code does where it departs from what one would expect

- A candle thinner than 1e-12 of a bin that sits on an inner bin edge loses its whole volume. `CandleDeposit` gives the
  exact condition and `LostCandleExample` a candle.
- The rate limiter reads the clock before it takes its lock. The burst bound per time window holds when a key's own call
  times do not fall in lock order; `OutOfOrderExample` breaks it, `BoundedIffOrderly` says exactly which clock readings
  keep it, and `AnyOrderBound` what holds in any order.
- `tracked = evaluated + open` fails exactly when a signal id returns, after 20,000 others, while its trade is open.
- `_normalize_volume` can exceed the symbol's maximum; `MaximumRespectedIff` gives the exact condition on the limits.
- The Monte Carlo drawdown exceeds 100 % exactly when equity goes negative. Then some pair of points may have fallen
  further than it says; `PairEscapesIff` and `CoversIff` say which and when.
- The minimum-agreement gate never decides alone for the weighted averages unless it exceeds the least reachable score
  over 100; `AgreementRedundantIff` is exact for all thresholds.
- Majority and weighted voting report a tie differently: the former with participants and agreement 0.5.
- Structure breaks activate a pivot at its own candle, not when it is confirmed as a comment says. Breaks still only use
  confirmed pivots, but one made within the last `right` candles can be withdrawn by the next candle; `ReportKeptIff`
  says exactly when.
- Stopping the watchdog while it awaits a restart leaves that component restarting for good, even if the service is
  started again; `AbandonedForever` states it.
- `order_blocks` with a limit of zero returns every block.

## Model

| member | source | states |
|---|---|---|
| VolumeProfile.AddCandle | app/analytics/indicators/volume_profile.py:88-103 | one candle changes each bin by exactly its share: everything to one bin for a flat or single-bin candle, else volume times overlap over range, nothing for non-positive volume |
| VolumeProfile.BinVolumes | app/analytics/indicators/volume_profile.py:86-103 | the in-place loop leaves in every bin the sum of the shares of all candles of the window |
| VolumeProfile.ShareInPrices | app/analytics/indicators/volume_profile.py:88-103 | in prices: a bin receives the volume of the part of the candle's range that lies in it, up to the volume of 1e-12 of a bin, and a candle without range counts in the bin around its price, the upper one on an inner edge |
| VolumeProfile.BinsCrossIffVanishes | app/analytics/indicators/volume_profile.py:93-98 | first bin above last bin happens exactly when the candle is thinner than 1e-12 of a bin and sits on an inner bin edge |
| VolumeProfile.TelescopingOverlap | app/analytics/indicators/volume_profile.py:98-103 | the overlaps of consecutive bins add up to the stretch from the candle's low to the last reached edge |
| VolumeProfile.CandleDeposit | app/analytics/indicators/volume_profile.py:88-103 | a candle loses its whole volume if it vanishes on an edge and otherwise deposits more than 1 - 1e-12 of it and never more than all |
| VolumeProfile.VolumeConserved | app/analytics/indicators/volume_profile.py:81-105 | over any window the binned total is at most the volume of the candles that do not vanish and short of it by less than a 1e-12 fraction |
| VolumeProfile.LostCandleExample | app/analytics/indicators/volume_profile.py:93-98 | a concrete candle inside the grid whose positive volume reaches no bin |
| VolumeProfile.ArgMax | app/analytics/indicators/volume_profile.py:113 | the point of control is the first of the heaviest bins |
| VolumeProfile.ValueArea | app/analytics/indicators/volume_profile.py:115-130 | the expansion loop returns the specified range around the point of control and its volume; the range reaches the target or holds every bin, without its last bin it is below the target, and that bin was at least as heavy as the one on the other side, and heavier if it lies below |
| VolumeProfile.ValueAreasNested | app/analytics/indicators/volume_profile.py:119-130 | a larger value-area target only ever adds bins |
| VolumeProfile.ValueAreaTight | app/analytics/indicators/volume_profile.py:119-130 | for every target and start: without its last bin the area is below the target, and that bin was at least as heavy as the one on the other side, and heavier if it lies below |
| VolumeProfile.Nodes | app/analytics/indicators/volume_profile.py:132-145 | the node loop returns the qualifying local maxima and minima in price order |
| VolumeProfile.NodesComplete | app/analytics/indicators/volume_profile.py:136-145 | a bin is listed as a node if and only if it qualifies, once, in ascending order |
| VolumeProfile.NodeStructure | app/analytics/indicators/volume_profile.py:136-145 | if any high-volume node exists the point of control is one; a low-volume node is never the first or last bin; no bin is both when the low threshold is under the high one |
| VolumeProfile.PocInsideValueArea | app/analytics/indicators/volume_profile.py:109-155 | the reported point of control lies strictly between value area low and value area high |
| VolumeProfile.ValueAreaShare | app/analytics/indicators/volume_profile.py:115-155 | the reported share is at least the requested share, or the whole volume |
| VolumeProfile.Build | app/analytics/indicators/volume_profile.py:60-156 | a profile is reported exactly when there are candles, more than one bin, a price range and binned volume; its total obeys the conservation bound and its parts are those of the specification |
| VolumeProfile.EdgeMeaning | app/analytics/indicators/volume_profile.py:69-85 | the bins cut the range from the lowest low to the highest high of the window into equal parts |
| VolumeProfile.ProfileMeaning | app/analytics/indicators/volume_profile.py:109-155 | the reported prices in bins and volumes: the point of control is the middle of the first heaviest bin, value area low and high are the outer edges of the rightly grown area at the asked share of the volume, and the reported share is its volume |
| VolumeProfile.NodesMeaning | app/analytics/indicators/volume_profile.py:132-145 | the reported node prices are the middles of exactly the local peaks of at least `ratio` times, and the local valleys of at most one `ratio`-th of, the average bin, in price order |
| VolumeProfile.ThresholdsMeaning | app/analytics/indicators/volume_profile.py:115-135 | a bin passes the node thresholds exactly when it is at least `ratio` times, or at most one `ratio`-th of, the average bin |
| MonteCarlo.SortSound | app/backtesting/monte_carlo/simulation.py:30 | the ordered sample is ascending and a permutation of the sample |
| MonteCarlo.OrderUnique | app/backtesting/monte_carlo/simulation.py:30 | a sample has only one ascending order |
| MonteCarlo.PercentileInterpolates | app/backtesting/monte_carlo/simulation.py:28-39 | the k-th ordered value stands at percentile 100 k/(n - 1), and between two of them a percentile moves in proportion |
| MonteCarlo.SinglePercentile | app/backtesting/monte_carlo/simulation.py:28-33 | a single value is every percentile of itself, and an empty sample gives zero |
| MonteCarlo.PercentileReflected | app/backtesting/monte_carlo/simulation.py:28-39 | the p-th percentile of the negated sample is minus the (100 - p)-th of the sample |
| MonteCarlo.PercentileMonotone | app/backtesting/monte_carlo/simulation.py:18-39 | a higher percentile of the same sample is never smaller |
| MonteCarlo.PercentileWithin | app/backtesting/monte_carlo/simulation.py:18-39 | every percentile lies between any bounds of the sample |
| MonteCarlo.SimulatePath | app/backtesting/monte_carlo/simulation.py:163-179 | the one-pass walk ends at capital plus the sum of results, with the specified drawdown and ruin flag |
| MonteCarlo.RuinedIff | app/backtesting/monte_carlo/simulation.py:172-175 | a path is ruined if and only if the equity after some nonempty prefix is at or below the ruin level |
| MonteCarlo.DrawdownAttained | app/backtesting/monte_carlo/simulation.py:176-178 | the one-pass drawdown is zero or the fall from a running peak to a later point |
| MonteCarlo.DrawdownDominates | app/backtesting/monte_carlo/simulation.py:176-178 | no fall between any earlier point and any later non-negative point exceeds the one-pass drawdown |
| MonteCarlo.DrawdownAboveHundred | app/backtesting/monte_carlo/simulation.py:176-178 | the drawdown stays within 100 % if and only if equity never goes negative |
| MonteCarlo.PairEscapesIff | app/backtesting/monte_carlo/simulation.py:172-178 | a fall exceeds the one measured from the running peak of its end if and only if it ends below zero and starts under that peak |
| MonteCarlo.CoversIff | app/backtesting/monte_carlo/simulation.py:172-178 | the reported drawdown covers all pairs if and only if, at each point below zero, it covers the fall from the lowest positive equity so far |
| MonteCarlo.NegativeEquityExample | app/backtesting/monte_carlo/simulation.py:172-178 | on the path 100, 50, -10 a pair falls relatively further than the reported drawdown |
| MonteCarlo.Run | app/backtesting/monte_carlo/simulation.py:91-153 | the loop over the paths returns the study of all of them, or an empty study without trades or capital |
| MonteCarlo.StudyAverages | app/backtesting/monte_carlo/simulation.py:120-153 | returns are results in percent of the capital, mean and variance are theirs, risk of ruin is the share of the paths whose equity falls to the limit, and the probability of profit the share with a positive result |
| MonteCarlo.StudyPercentiles | app/backtesting/monte_carlo/simulation.py:133-150 | which percentiles of the returns and of the drawdowns are reported, and that the worst drawdown is their maximum |
| MonteCarlo.RuinMeaning | app/backtesting/monte_carlo/simulation.py:107-108 | a path is ruined exactly when its equity falls by at least the asked percentage of the capital at some point |
| MonteCarlo.CountsMeaning | app/backtesting/monte_carlo/simulation.py:110-153 | the counters behind both probabilities count exactly the ruined paths and the paths with a positive result |
| MonteCarlo.ReturnMeaning | app/backtesting/monte_carlo/simulation.py:121-132 | a return is the path's result in percent of the capital and has its sign |
| MonteCarlo.ReturnsOrdered | app/backtesting/monte_carlo/simulation.py:133-147 | lower confidence bound, median and upper bound are ordered, and so are 5th percentile, median and 95th |
| MonteCarlo.DrawdownsOrdered | app/backtesting/monte_carlo/simulation.py:148-150 | expected drawdown is at most required capital, which is at most the worst drawdown |
| MonteCarlo.ShuffleHasNoSpread | app/backtesting/monte_carlo/simulation.py:155-160 | when paths are permutations every return figure coincides and the variance is zero |
| MonteCarlo.ShuffleRuinCertain | app/backtesting/monte_carlo/simulation.py:155-179 | when the results sum to a ruin every shuffled path is ruined |
| Stats.CauchySchwarz | app/research/stats.py:45-50 | the squared covariance sum is at most the product of the two variance sums |
| Stats.LeastSquares | app/research/stats.py:125-131 | the residual sum of squares of the least-squares slope is total minus explained |
| Stats.PearsonBounded | app/research/stats.py:32-50 | the squared coefficient lies in [0, 1] for all series and is symmetric in its arguments |
| Stats.PearsonSigned | app/research/stats.py:32-50 | the coefficient itself lies in [-1, 1], squares to that figure and is symmetric |
| Stats.PearsonAffineInvariant | app/research/stats.py:32-50 | rescaling and shifting a series leaves the squared coefficient unchanged |
| Stats.PearsonAffine | app/research/stats.py:32-50 | a positive scale keeps the coefficient and a negative one negates it |
| Stats.PearsonSelf | app/research/stats.py:32-50 | a series that varies has coefficient one with itself |
| Stats.PearsonTruncates | app/research/stats.py:34-50 | what the longer series holds beyond the shorter one is ignored, and fewer than three points give zero |
| Stats.StabilityIsPearsonSquared | app/research/stats.py:112-135 | on every non-constant curve of three or more points stability equals the squared correlation with the bar index, so the clamp never acts |
| Stats.StabilityOneIffLine | app/research/stats.py:112-135 | a curve scores one if and only if all its points lie on one straight line |
| Vwap.AnchoredVwap | app/analytics/indicators/vwap.py:50-59 | a value exists exactly for an anchor inside the candles with positive volume after it, and is notional over volume |
| Vwap.Accumulate | app/analytics/indicators/vwap.py:114-124 | the loop returns the running values, the volume and the second moment of the window |
| Vwap.VwapBands | app/analytics/indicators/vwap.py:91-148 | bands exist exactly when the anchored value does; value, deviation and the four band prices are those of the window, for any function in the place of the square root |
| Vwap.OnePassIsTwoPass | app/analytics/indicators/vwap.py:128 | the one-pass variance equals the volume-weighted two-pass variance around the value |
| Vwap.VarianceNonNegative | app/analytics/indicators/vwap.py:128 | with non-negative volumes the unclamped variance is never negative |
| Vwap.BandsHoldVolume | app/analytics/indicators/vwap.py:128-144 | at most a 1/m^2 share of the volume traded at or beyond the two band prices m deviations from the value |
| Vwap.ValueWithinPrices | app/analytics/indicators/vwap.py:50-59 | the value lies between any bounds of the window's typical prices |
| Vwap.RunningAt | app/analytics/indicators/vwap.py:114-124 | with positive volumes the running value at each candle is the anchored value of the window up to it |
| Vwap.BandsMeaning | app/analytics/indicators/vwap.py:126-148 | with positive volumes and prices each band lies its multiple of the deviation above or below the value, the slope is the average gain per bar over the lookback in percent of the value then, and the distance that of the price in percent of the value |
| RateLimiting.RateLimiter.constructor | app/security/rate_limiter.py:30-34 | capacity at least one, refill rate positive, no buckets |
| RateLimiting.LimitsMeaning | app/security/rate_limiter.py:30-34 | the burst is the capacity but at least one, and one window, of at least a millisecond, regains all of it |
| RateLimiting.RateLimiter.Allow | app/security/rate_limiter.py:36-58 | the call is allowed exactly when a token is at hand, and only its key's bucket changes |
| RateLimiting.RateLimiter.Reset | app/security/rate_limiter.py:60-66 | forgets one key, or all of them |
| RateLimiting.WindowBound | app/security/rate_limiter.py:36-58 | after any earlier calls and whatever the other keys do, a key whose own call times do not fall is allowed at most capacity plus refill times (t - s) calls inside any window [s, t] |
| RateLimiting.FullSince | app/security/rate_limiter.py:36-58 | there is a moment since which tokens at hand and calls granted make up the whole burst and everything regained |
| RateLimiting.RefusedIffExcess | app/security/rate_limiter.py:36-58 | on ordered own times a call is refused if and only if granting it would exceed the burst and refill of some window ending with it: the bound is attained |
| RateLimiting.PatientCallerServed | app/security/rate_limiter.py:52-57 | a call at least one refill period after the key's previous call is allowed |
| RateLimiting.OthersDoNotInterfere | app/security/rate_limiter.py:47-58 | calls of other keys leave a key's bucket alone |
| RateLimiting.OwnCallsDecide | app/security/rate_limiter.py:47-58 | what a key is granted in a window depends on its own bucket and its own calls alone |
| RateLimiting.AnyOrderBound | app/security/rate_limiter.py:52-57 | without any order on call times, allowed calls are at most capacity plus the refill of every forward step of the key's clock |
| RateLimiting.BoundedIffOrderly | app/security/rate_limiter.py:46-58 | for a list of clock readings the window bound holds for all limiters, earlier states and numbers of calls if and only if the clock never moves forward between two readings further than they lie apart |
| RateLimiting.OutOfOrderExample | app/security/rate_limiter.py:46-58 | times read before the lock and arriving out of order break the window bound |
| Watchdogs.Watchdog.Register | app/monitoring/watchdog.py:72-107 | fails exactly on a known name; otherwise adds the component |
| Watchdogs.Watchdog.Heartbeat | app/monitoring/watchdog.py:109-121 | fails exactly on an unknown name; otherwise refreshes the component and thaws a frozen one |
| Watchdogs.Watchdog.BeginScan | app/monitoring/watchdog.py:164-167 | a pass starts over all registered components with one clock reading |
| Watchdogs.Watchdog.Visit | app/monitoring/watchdog.py:167-196 | one component is inspected: skipped, found fresh, frozen, exhausted, or its restart is begun and counted |
| Watchdogs.Watchdog.RestartDone | app/monitoring/watchdog.py:197-211 | a failed restart leaves the component frozen, a successful one refreshed and healthy |
| Watchdogs.Watchdog.Stop | app/monitoring/watchdog.py:228-233 | stopping ends the pass and cancels an awaited restart without either outcome |
| Watchdogs.OthersUntouched | app/monitoring/watchdog.py:109-211 | a component changes only by its own registration, heartbeat, visit or restart |
| Watchdogs.VisitMeaning | app/monitoring/watchdog.py:167-196 | a visit skips what is restarting, exhausted or not silent beyond its timeout; it freezes a silent component without callback, exhausts one whose budget is spent, and otherwise begins a restart and counts it |
| Watchdogs.HeartbeatMeaning | app/monitoring/watchdog.py:109-121 | a heartbeat is remembered and thaws a frozen component, and changes no other status and no counter |
| Watchdogs.OutcomeMeaning | app/monitoring/watchdog.py:197-211 | a successful restart counts as a sign of life and heals, a failed one freezes and keeps the last sign of life |
| Watchdogs.SilenceMeasured | app/monitoring/watchdog.py:72-211 | in every run silence is measured from the latest of registration, heartbeat and successful restart, and a pass lists every component exactly once |
| Watchdogs.PassInTurn | app/monitoring/watchdog.py:164-196 | a pass takes the components in turn with one clock reading, whatever happens in between |
| Watchdogs.PassBegins | app/monitoring/watchdog.py:164-167 | a pass starts only when none is under way, with every registered component still to go |
| Watchdogs.StepKeepsPass | app/monitoring/watchdog.py:164-233 | in every interleaving, stops included, exactly the awaited component and those whose restart a stop cancelled are restarting |
| Watchdogs.RunAccounted | app/monitoring/watchdog.py:164-211 | along every run each component's restart counter, callbacks, detections and status stay accounted for |
| Watchdogs.RestartBudget | app/monitoring/watchdog.py:183-198 | the restart callback of a component runs at most its budget of times |
| Watchdogs.DetectionBudget | app/monitoring/watchdog.py:164-211 | with a callback, stale detections are the callbacks plus one if exhausted, so at most the budget plus one |
| Watchdogs.ExhaustedForever | app/monitoring/watchdog.py:168-194 | an exhausted component stays exhausted with its counter, whatever happens next |
| Watchdogs.AbandonedForever | app/monitoring/watchdog.py:168-202 | a component whose restart a stop cancelled stays restarting forever: no heartbeat revives it and no pass inspects it |
| Watchdogs.HangingRestartBlinds | app/monitoring/watchdog.py:180-198 | while a restart hangs no component falling silent is noticed: each keeps its status, save that a heartbeat thaws a frozen one, and its counter |
| Watchdogs.NoCallbackUnbounded | app/monitoring/watchdog.py:185-186 | without a callback detections are unbounded: n silent passes give n of them |
| EventBuses.EventBus.Subscribe | app/core/events/bus.py:94-109 | adds one handler entry under its key and counts it |
| EventBuses.EventBus.Unsubscribe | app/core/events/bus.py:111-116 | removes one entry and its count, or nothing when it is absent |
| EventBuses.EventBus.Publish | app/core/events/bus.py:126-148 | accepted exactly while running with room in the queue; a full queue counts a drop |
| EventBuses.EventBus.CollectHandlers | app/core/events/bus.py:186-192 | the handlers of all matching keys in table order |
| EventBuses.EventBus.Take | app/core/events/bus.py:169-183 | the oldest event leaves the queue and its matched handlers are in flight, or it ends at once if there are none |
| EventBuses.EventBus.HandlerEnds | app/core/events/bus.py:194-204 | one handler ends; a failure is counted and kept as dead letter without touching the others |
| EventBuses.EventBus.Complete | app/core/events/bus.py:183-184 | the event is counted as dispatched once all its handlers ended |
| EventBuses.SubscribeMeaning | app/core/events/bus.py:94-109 | for every event a subscription adds exactly the one delivery it stands for |
| EventBuses.UnsubscribeMeaning | app/core/events/bus.py:111-116 | removing a registered handler takes exactly that delivery away for every event |
| EventBuses.HandlersConcat | app/core/events/bus.py:186-192 | the handlers of a longer table are those of its parts, in order |
| EventBuses.HandlersOne | app/core/events/bus.py:186-192 | an entry's handlers are called for an event exactly when its key is the wildcard or one of the event's classes |
| EventBuses.AddMeaning | app/core/events/bus.py:94-109 | a subscription goes to the end of its key's list and leaves the other lists and the order of keys alone |
| EventBuses.RemoveMeaning | app/core/events/bus.py:111-116 | an unsubscription takes the first such handler out of its key's list, or changes nothing |
| EventBuses.TableIsSubscriptions | app/core/events/bus.py:94-116 | in every run the table lists under each key exactly the subscriptions to it in force, oldest first |
| EventBuses.AdmissionsCounted | app/core/events/bus.py:126-148 | in every run the queue stays within its limit, an event is published exactly when the bus runs with room for it and counted as dropped exactly when it runs without |
| EventBuses.WorkerNeverStuck | app/core/events/bus.py:169-204 | while anything is queued or in flight some next step of the worker is possible |
| EventBuses.RegisteredCounts | app/core/events/bus.py:94-116 | the subscriber counter moves with the number of registered handlers |
| EventBuses.DeliveriesAreHandlers | app/core/events/bus.py:186-192 | the handlers collected for an event are the deliveries its matching entries stand for, with multiplicity |
| EventBuses.RunInvariant | app/core/events/bus.py:94-204 | along every run: arrival order, counters, each handler entry ended at most once and in event order, dead letters the latest failures |
| EventBuses.PublishedConserved | app/core/events/bus.py:126-184 | every published event is counted as dispatched, had no handler when it was taken, is in flight or queued |
| EventBuses.ExactlyOnce | app/core/events/bus.py:169-204 | on an idle bus every accepted event was handed exactly once to each handler entry matched when it was taken, in acceptance order |
| EventBuses.NoOverlap | app/core/events/bus.py:169-184 | an event is taken only after every handler of every earlier event has ended |
| Mt5Broker.FillingModes | app/brokers/mt5/broker.py:394-418 | the allowed modes first, then the remaining ones |
| Mt5Broker.ModesComplete | app/brokers/mt5/broker.py:394-418 | all three modes are candidates, and none repeats unless two share a constant and both are allowed |
| Mt5Broker.ModesOrder | app/brokers/mt5/broker.py:394-418 | immediate-or-cancel is tried first unless only fill-or-kill is allowed, and returning the rest is tried last |
| Mt5Broker.SendWithFallbacks | app/brokers/mt5/broker.py:262-287 | the sends and the returned answer of one call against any sequence of terminal answers |
| Mt5Broker.AttemptBounded | app/brokers/mt5/broker.py:262-287 | at least one and at most modes plus one sends, and the answer returned is the last one received |
| Mt5Broker.AttemptJustified | app/brokers/mt5/broker.py:273-286 | another send follows only an invalid filling mode, or once a refused comment with the same mode |
| Mt5Broker.AttemptSends | app/brokers/mt5/broker.py:262-287 | the k-th send uses the mode after as many as were refused before it, with the comment until that was refused |
| Mt5Broker.AttemptComplete | app/brokers/mt5/broker.py:262-287 | the call never ends on a refused comment that could still be dropped, and on an invalid filling mode only when every mode was refused |
| Mt5Broker.AttemptDropsComment | app/brokers/mt5/broker.py:278-281 | once dropped the comment never comes back |
| Mt5Broker.AtMostOneOrder | app/brokers/mt5/broker.py:262-287 | at most one order per call is accepted and it is the one returned |
| Mt5Broker.GivesUpOnlyWhenExhausted | app/brokers/mt5/broker.py:273-287 | an invalid-fill result is returned only after every mode was tried |
| Mt5Broker.MaximumRespectedIff | app/brokers/mt5/broker.py:389-392 | the sent volume never exceeds the maximum if and only if the maximum does not round up to the step and is not below the minimum |
| Mt5Broker.MaximumExceededExample | app/brokers/mt5/broker.py:389-392 | maximum 1.07 in steps of 0.1: two lots are sent as 1.1 |
| Mt5Broker.GridVolumeUnchanged | app/brokers/mt5/broker.py:378-392 | a quantity on the symbol's grid and inside its limits is sent unchanged |
| Mt5Broker.VolumeMeaning | app/brokers/mt5/broker.py:363-392 | a volume is refused exactly without a contract or below its minimum; otherwise the quantity, cut at a positive maximum, goes to the nearest step and up to the minimum |
| Mt5Broker.MissingLimits | app/brokers/mt5/broker.py:378-380 | missing limits count as 0.01 lots, and only those are replaced |
| Mt5Broker.SentIff | app/brokers/mt5/broker.py:94-171 | an order is sent if and only if its quantity is positive, the quotes are sane, the terminal is connected, the order is at market, the volume tradable and, if it only reduces, there is a position to reduce |
| Mt5Broker.RefusalReason | app/brokers/mt5/broker.py:94-171 | the first failed check gives the reason of the refusal |
| Mt5Broker.OldestOppositeSound | app/brokers/mt5/broker.py:241-260 | a closing order refers to a position of the other side that no other such position predates, the first listed of equals, and fails exactly when there is none |
| Mt5Broker.Broker.Execute | app/brokers/mt5/broker.py:94-171 | each call is counted once, as executed exactly when the terminal accepted one order; a refused request sends nothing |
| Consensus.Accumulate | app/engine/consensus/algorithms.py:161-170 | the voting loop yields points and mass of both sides and each strategy's contribution |
| Consensus.WeightedAverage | app/engine/consensus/algorithms.py:146-189 | the loops of the three averaging algorithms return the result that `AverageMeaning` describes, for the effective weights that `DynamicWeights` and `RegimeWeights` describe |
| Consensus.DynamicWeights | app/engine/consensus/algorithms.py:220-228 | a strategy's weight moves with its performance in proportion to its base weight, which it has at performance one half |
| Consensus.RegimeWeights | app/engine/consensus/algorithms.py:243-260 | a regime multiplies the base weight of a strategy by the multiplier it lists, and changes no other weight |
| Consensus.PerformanceFavoursSide | app/engine/consensus/algorithms.py:146-228 | with non-negative weights, raising the performance of a strategy that votes only for one side never lowers that side's share of the mass, long or short |
| Consensus.SidesMeaning | app/engine/consensus/algorithms.py:161-170 | a side's mass is the sum of its votes' weights and its points the sum of their weighted scores |
| Consensus.AverageMeaning | app/engine/consensus/algorithms.py:161-189 | the direction is the sign of the net points unless they are below 1e-9 of the mass, the score is the net points per mass, the agreement the winning side's share of the mass, every vote contributes, and no mass means no consensus |
| Consensus.VotingMeaning | app/engine/consensus/algorithms.py:87-129 | weighted voting names the heavier side with its average score, its share of the mass and the contributions of its votes, and nothing on a tie or without mass |
| Consensus.ContributionMeaning | app/engine/consensus/algorithms.py:116-189 | a strategy's contribution is its last vote: signed and per mass for the average, the weighted score for the vote |
| Consensus.ContributionNames | app/engine/consensus/algorithms.py:116-189 | contributions are reported for exactly the strategies that voted |
| Consensus.WinnersConcat | app/engine/consensus/algorithms.py:46-125 | the winners are the votes for the side, one by one and in order |
| Consensus.ActionableConcat | app/engine/consensus/algorithms.py:30-35 | which signals vote is decided one by one and in order |
| Consensus.ActionableOne | app/engine/consensus/algorithms.py:30-35 | a signal votes exactly when it is not neutral |
| Consensus.WeightedVoting | app/engine/consensus/algorithms.py:87-129 | the vote by mass returns the specified result |
| Consensus.AgreementCoversScore | app/engine/consensus/algorithms.py:164-185 | with non-negative weights the reported agreement is at least the reported score over 100 |
| Consensus.MirrorSymmetry | app/engine/consensus/algorithms.py:146-260 | reversing every signal reverses direction and contributions and changes nothing else, for all three weightings |
| Consensus.NeutralModulation | app/engine/consensus/algorithms.py:220-260 | neutral performance, no regime or unit multipliers give the plain weighted average |
| Consensus.WeightedVotingRefinesMajority | app/engine/consensus/algorithms.py:37-129 | with one common positive weight weighted voting has the direction and score of majority voting and its winners' scores weighted and rounded; agreement and participants differ only on a tie |
| Consensus.VerdictMajority | app/engine/consensus/algorithms.py:104-120 | a directional weighted vote reports an agreement of at least one half, whatever the weights |
| Consensus.UnanimousVerdict | app/engine/consensus/algorithms.py:87-189 | unanimous voters carry their side with agreement one, and voting and averaging give the same score |
| Decisions.ConfidenceBetweenFactors | app/engine/confidence/engine.py:52-76 | with non-negative weights the confidence lies between the weakest and the strongest factor |
| Decisions.ConfidenceMeaning | app/engine/confidence/engine.py:70-76 | the confidence is the weighted mean of the factors to four decimals, and zero without weight |
| Decisions.BlendIsSum | app/engine/confidence/engine.py:70-76 | the blend is the sum of all factors times their weights |
| Decisions.DecisionEngine.Evaluate | app/engine/decision_engine/engine.py:84-197 | every evaluation records one decision naming the missed thresholds and then the blocking filters in order, and consumes the signals accordingly; no signals means stand aside and consume nothing |
| Decisions.DecisionEngine.CheckThresholds | app/engine/decision_engine/engine.py:140-160 | the missed thresholds, in the order they are checked |
| Decisions.RejectionMeaning | app/engine/decision_engine/engine.py:140-164 | a rejection is named if and only if its threshold is missed or its filter blocks |
| Decisions.RejectionOrder | app/engine/decision_engine/engine.py:140-164 | the reasons come in one order: direction, signals, score, confidence, agreement, and last the filters as they blocked |
| Decisions.BlockingConcat | app/engine/decision_engine/engine.py:161-164 | the filters named are those that blocked, one by one and in order |
| Decisions.AcceptedIff | app/engine/decision_engine/engine.py:140-173 | a position is opened, on the consensus side, if and only if every threshold and filter passes |
| Decisions.AgreementGateRedundant | app/engine/decision_engine/engine.py:147-160 | for the weighted-average family a minimum agreement up to min_score/100 is only ever missed together with the score |
| Decisions.AgreementRedundantIff | app/engine/decision_engine/engine.py:147-160 | for all thresholds, the agreement test is redundant if and only if no score can reach the minimum or the least one that does already implies the agreement |
| Decisions.VotingPassesAgreement | app/engine/decision_engine/engine.py:156-160 | with weighted voting a minimum agreement of one half or less is only missed without a direction |
| ParameterSpaces.Sample | app/backtesting/optimizer/space.py:147-156 | the loop draws one value per parameter, as the specified sample does |
| ParameterSpaces.SampleInSpace | app/backtesting/optimizer/space.py:147-156 | a sample gives every parameter a value of its own domain, whatever the generator draws |
| ParameterSpaces.SampleMeaning | app/backtesting/optimizer/space.py:147-156 | each parameter's value comes from its own draw |
| ParameterSpaces.GridSize | app/backtesting/optimizer/space.py:138-145 | the closed-form size is the number of grid points, zero for a range or an empty space |
| ParameterSpaces.GridComplete | app/backtesting/optimizer/space.py:117-136 | the grid enumerates exactly the parameter sets of a discrete space |
| ParameterSpaces.GridOrder | app/backtesting/optimizer/space.py:117-136 | the grid runs through the last parameter's values before the others move on |
| Optimizers.BestTrial | app/backtesting/optimizer/search.py:75 | the best trial is one of the trials and no trial beats it |
| Optimizers.BestTrialFirst | app/backtesting/optimizer/search.py:75 | of equally good trials the first is the best one |
| Optimizers.ScoreAll | app/backtesting/optimizer/advanced.py:68-77 | scoring a population evaluates only unknown individuals, once each, and leaves earlier scores alone |
| Optimizers.Crossover | app/backtesting/optimizer/advanced.py:89-96 | the loop over the parameter names gives the specified child |
| Optimizers.CrossMeaning | app/backtesting/optimizer/advanced.py:89-96 | each gene of a child is from the parent its own draw chose |
| Optimizers.Mutate | app/backtesting/optimizer/advanced.py:98-106 | the loop redraws the genes whose draw is below the rate, as specified |
| Optimizers.MutateMeaning | app/backtesting/optimizer/advanced.py:98-106 | every gene is replaced exactly when its own draw is below the rate, by a value drawn next, and otherwise keeps what the child had |
| Optimizers.Breed | app/backtesting/optimizer/advanced.py:79-86 | the elite comes first and is filled up with the specified offspring |
| Optimizers.RankedFacts | app/backtesting/optimizer/advanced.py:77 | the first of the ranking scores at least as well as everyone |
| Optimizers.RankedMeaning | app/backtesting/optimizer/advanced.py:77 | ranking permutes the population, puts no individual before a better one and keeps the order of equals |
| Optimizers.EveryPointReachable | app/backtesting/optimizer/advanced.py:79-106 | with any chance of mutation the next child can be any point of the space that can be drawn at all |
| Optimizers.EveryCrossReachable | app/backtesting/optimizer/advanced.py:79-96 | short of certain mutation the next child can be any combination of the genes of any two of the elite |
| Optimizers.DistinctMeaning | app/backtesting/optimizer/advanced.py:68-75 | what the search evaluates is everyone who lived, each once |
| Optimizers.BestCarriesOver | app/backtesting/optimizer/advanced.py:76-86 | elitism: a new generation's best is at least everything scored before |
| Optimizers.Optimize | app/backtesting/optimizer/advanced.py:62-87 | the trials are the different individuals of all generations in order, at most pop + (generations - 1)(pop - elite) of them, each in the domain and with its own score; the best never decreases and the result is the maximum over everything scored |
| Optimizers.GridDominates | app/backtesting/optimizer/search.py:111-122 | on a discrete space no search beats the exhaustive one |
| Decimals.ParsePrint | app/research/models.py:143-146 | a block index survives printing into a key |
| Genomes.KeyInjective | app/research/models.py:143-146 | keys of different places or parameters never collide, whatever the parameter names contain |
| Genomes.Flatten | app/research/models.py:134-147 | the two filling loops produce the parameter vector |
| Genomes.ParametersHold | app/research/models.py:134-147 | the vector holds every parameter under its own key and nothing else |
| Genomes.WriteOwnParameters | app/research/models.py:134-181 | writing back the vector that was read gives the same genome |
| Genomes.ReadAfterWrite | app/research/models.py:134-181 | reading after a write gives the written value for the genome's own keys and adds no key |
| Genomes.UnknownKeysIgnored | app/research/models.py:149-181 | keys the genome does not have are ignored |
| Genomes.TwoWritesMerge | app/research/models.py:149-181 | two writes in a row equal one write of the merged vectors |
| Structure.SwingPoints | app/analytics/indicators/structure.py:33-73 | the detector returns the labelled pivots of the window |
| Structure.LabelPivots | app/analytics/indicators/structure.py:54-72 | each pivot is labelled against the previous pivot of its kind |
| Structure.LabelMeaning | app/analytics/indicators/structure.py:54-72 | a pivot is labelled by whether its price is above the previous pivot of its kind, and the first of a kind is not |
| Structure.RawComplete | app/analytics/indicators/structure.py:44-51 | a candle is a pivot if and only if it strictly dominates its neighbourhood |
| Structure.SwingsComplete | app/analytics/indicators/structure.py:44-51 | in candle prices: a candle is reported as a pivot if and only if `left` candles before it and `right` after it exist and all have a lower high, or for a low pivot a higher low |
| Structure.SwingsOrdered | app/analytics/indicators/structure.py:44-53 | pivots are reported by candle, a high before a low of the same one |
| Structure.SameKindSpacing | app/analytics/indicators/structure.py:45-51 | two pivots of one kind are more than the smaller side of the neighbourhood apart |
| Structure.SwingsAppendOnly | app/analytics/indicators/structure.py:33-73 | a new candle leaves all pivots and labels in place and can only add pivots exactly `right` candles back |
| SmartMoney.StructureBreaks | app/analytics/indicators/smc.py:354-425 | the loop returns the breaks of the machine over the window |
| SmartMoney.BreakIff | app/analytics/indicators/smc.py:387-425 | completeness and soundness over the report: a candle breaks a swing if and only if it is the latest of its kind listed before, no reported break has used it and the candle closes beyond it; downward only if it does not also close above the standing high |
| SmartMoney.BreakMeaning | app/analytics/indicators/smc.py:392-419 | a break records the broken price and the body of its candle in units of the range, and a shift of structure exactly when a change of character is as large as asked |
| SmartMoney.BreaksMirrored | app/analytics/indicators/smc.py:387-425 | negated prices with high and low swings exchanged give the mirrored breaks when no candle closes beyond both standing swings |
| SmartMoney.StepKeepsInvariant | app/analytics/indicators/smc.py:387-424 | one candle keeps the machine invariant for any list of swings |
| SmartMoney.BreaksSound | app/analytics/indicators/smc.py:387-425 | every break closes beyond an earlier swing; indices strictly increase; no swing is used twice; the first is not a change of character and each later one is exactly when direction turns; a repeated direction needs a newer swing |
| SmartMoney.BreaksConfirmed | app/analytics/indicators/smc.py:387-425 | every break comes more than `right` candles after its pivot, so only confirmed pivots are broken although they are activated at their own candle |
| SmartMoney.BreaksFinal | app/analytics/indicators/smc.py:387-425 | a new candle never changes the breaks made up to `right` candles before it |
| SmartMoney.ReportKeptIff | app/analytics/indicators/smc.py:354-425 | the next window's report continues the last one if and only if no reported break younger than the candle `right` back goes against a pivot that the new candle confirms there |
| SmartMoney.WithdrawnBreakExample | app/analytics/indicators/smc.py:420-424 | with `right` two, a sixth candle withdraws the break reported for the fifth |
| SmartMoney.FairValueGaps | app/analytics/indicators/smc.py:153-198 | the loop returns the gaps of the window that are not fully filled |
| SmartMoney.GapsMembers | app/analytics/indicators/smc.py:170-197 | a gap is listed if and only if its three candles form it and it is not fully filled |
| SmartMoney.UpwardGap | app/analytics/indicators/smc.py:170-197 | an upward gap is reported exactly when the next candle opens one of the asked size and no later low has come back to its bottom; its fill is the part the lowest later low has come back over |
| SmartMoney.GapMirrored | app/analytics/indicators/smc.py:170-197 | downward gaps are the upward ones of the market turned upside down |
| SmartMoney.GapEvolves | app/analytics/indicators/smc.py:170-197 | a new candle never moves a gap's bounds and never lowers its fill |
| SmartMoney.GapsNeverRevive | app/analytics/indicators/smc.py:170-197 | an open gap not formed by the new candle was open before with the same bounds: a filled gap never returns |
| SmartMoney.OrderBlocks | app/analytics/indicators/smc.py:201-258 | the loop returns the most recent blocks, all of them for a limit of zero |
| SmartMoney.DemandBlock | app/analytics/indicators/smc.py:225-257 | a demand block is a falling candle before a rise of the asked size; which zone it covers, when it is mitigated and when it breaks |
| SmartMoney.BlockMirrored | app/analytics/indicators/smc.py:225-257 | supply blocks are the demand blocks of the market turned upside down |
| SmartMoney.BlocksMembers | app/analytics/indicators/smc.py:225-257 | a block is listed if and only if its candle forms it |
| SmartMoney.LastOfMeaning | app/analytics/indicators/smc.py:258 | a positive limit reports the latest blocks in order, and zero reports all |
| SmartMoney.BlockEvolves | app/analytics/indicators/smc.py:225-257 | a block's zone is fixed, and mitigated and breaker only turn true |
| SmartMoney.ReportedBlocksEvolve | app/analytics/indicators/smc.py:225-258 | every reported block not completed by the new candle was reported before and has only advanced |
| Evaluation.PerformanceTracker.constructor | app/engine/evaluation/tracker.py:131-142 | an empty ledger |
| Evaluation.PerformanceTracker.OnSignalRecord | app/engine/evaluation/tracker.py:148-183 | the whole ledger after a signal: id remembered in the bounded window, counters, and the virtual trade if it has direction, stop, zone and risk |
| Evaluation.PerformanceTracker.JudgeTrade | app/engine/evaluation/tracker.py:200-240 | the candle loop gives the verdict that `VerdictInPrices` describes |
| Evaluation.PerformanceTracker.EvaluateOpen | app/engine/evaluation/tracker.py:189-249 | the whole ledger after a poll, and how many trades it closed |
| Evaluation.ProposalMeaning | app/engine/evaluation/tracker.py:161-183 | a trade is opened exactly for a direction, a stop, an entry zone and some distance between; it enters at the zone's middle on the signal's side, risks that distance and expires after the holding time |
| Evaluation.VerdictInPrices | app/engine/evaluation/tracker.py:200-248 | in candle prices, for every trade and window: the stop wins a tie, a loss is -1 and false exactly when early, a win pays the target's distance per risk, and a timeout the move to the last close in the trade's direction |
| Evaluation.VisibleMeaning | app/engine/evaluation/tracker.py:194-199 | a poll looks at exactly the candles of the latest 500 that end after the trade was opened |
| Evaluation.PollDecides | app/engine/evaluation/tracker.py:189-249 | a poll keeps exactly the open trades that get no verdict on their candles |
| Evaluation.CountersMeaning | app/engine/evaluation/tracker.py:251-278 | in every reachable ledger each counter of a strategy is the number of closings it is about, and each total the sum of their results |
| Evaluation.RunAdmits | app/engine/evaluation/tracker.py:148-183 | in every reachable ledger the ids remembered are the latest 20,000 accepted, signals count when accepted, and trades when they also have a proposal |
| Evaluation.RepeatIgnored | app/engine/evaluation/tracker.py:151-158 | a signal whose id is among the latest 20,000 accepted changes nothing |
| Lists.LatestMeaning | app/engine/evaluation/tracker.py:138-155 | a bounded history keeps the last elements in their order, as many as its limit allows |
| Evaluation.SettledByFirstTouch | app/engine/evaluation/tracker.py:201-232 | a trade is settled with a verdict if and only if, in candle prices, some candle leaves its levels, none before does, and the verdict is a loss of one risk when that candle reaches the stop and otherwise a win of the target's distance |
| Evaluation.LongShortSymmetry | app/engine/evaluation/tracker.py:200-248 | a short trade on a market turned upside down gets the verdict of the long one, wins, losses, timeouts and results alike |
| Evaluation.NextWellFormed | app/engine/evaluation/tracker.py:148-183 | the id set is exactly the duplicate-free id window of at most 20,000, and open trades have distinct ids and positive risk |
| Evaluation.PollShape | app/engine/evaluation/tracker.py:189-249 | a poll leaves exactly the undecided trades open, in their order |
| Evaluation.BooksBalance | app/engine/evaluation/tracker.py:148-278 | in every reachable ledger, per strategy: counters equal the tally of the closings, evaluated is wins plus losses plus timeouts, false signals at most losses, gross win minus gross loss is the sum of results, the kept results are the latest ones and the last result is the last of them, rounded |
| Evaluation.TrackedConserved | app/engine/evaluation/tracker.py:148-183 | tracked equals evaluated plus open for every strategy if and only if no accepted signal reused the id of a trade still open |
| Evaluation.DistinctNeverOverwritten | app/engine/evaluation/tracker.py:148-183 | trades with distinct ids never overwrite each other |
| Evaluation.ReusedIdExample | app/engine/evaluation/tracker.py:156-172 | an id forgotten by the window comes back and overwrites its own open trade |
| Evaluation.NeverEvaluated | app/engine/evaluation/tracker.py:148-278 | however that run goes on, the overwritten trade stays neither evaluated nor open |
| Evaluation.SettlementStable | app/engine/evaluation/tracker.py:200-232 | later candles never change a verdict |
| Evaluation.TimelyPoll | app/engine/evaluation/tracker.py:189-249 | a poll whose window holds all candles of its trades, and which precedes the deadline of those not settled by them, decides exactly as the whole history does |
| Evaluation.TwoRounds | app/engine/evaluation/tracker.py:189-249 | deciding in two rounds over a growing market settles and leaves the same trades |
| Evaluation.FairRunSettles | app/engine/evaluation/tracker.py:189-278 | after a timely poll open trades and counters depend on the opened trades and the market alone |
| Evaluation.SignalsDecideEntries | app/engine/evaluation/tracker.py:148-183 | polls have no influence on which signals are accepted and tracked |
| Evaluation.ScheduleIndependence | app/engine/evaluation/tracker.py:189-278 | two runs with the same signals and last market, polled in time, end with the same open trades and the same counters and totals for every strategy, however often each polled |
| Evaluation.MaxDrawdown | app/engine/evaluation/tracker.py:86-96 | the one-pass figure is the largest fall of the cumulative result over all earlier and later points, and is attained |

## Left out

- IEEE rounding and overflow: all arithmetic is on exact reals, with rounding to decimals only where results are reported.
- Square roots: a root is a number given with its square, or for the VWAP deviation any function.
- The distribution of random draws: shuffles, samples, crossover and mutation hold for arbitrary draws.
- The session anchor of VWAP and the deviation of a single price.
- Evaluation.PerformanceTracker.EvaluateOpen: counters are map values rather than objects shared with readers, and the snapshot file is not kept.
- Evaluation.ScheduleIndependence: the order of the kept results is not compared, because it does depend on when trades are closed.
- The `factor`, expectancy and ratio properties read off a strategy's counters.
- Consensus: reason strings and symbol; the majority vote is a function because it is built from comprehensions.
- Decisions.DecisionEngine.Evaluate: signals, context, filters, confidence and consensus are arguments; explanation texts and event publishing are omitted.
- Decisions.ConfidenceBetweenFactors: the factors are given; how each is read from signals and context is not modelled.
- EventBuses.EventBus.HandlerEnds: the error callbacks and the log are not modelled.
- EventBuses.EventBus.Take: handlers are interleaved arbitrarily, but a stop that times out and cancels the worker is not modelled.
- Watchdogs.Watchdog.Visit: the published incident is not modelled, nor is error-rate alerting.
- Watchdogs.Watchdog.Stop: a restart callback that swallows the cancellation, and so finishes after the stop, is not modelled.
- Mt5Broker.Broker.Execute: the comment text, stops, deviation, commission and the fill record beyond volume and price are not modelled.
- Optimizers.Optimize: parameters are numbers, texts or flags, so 1, 1.0 and True, which Python treats as one key, are kept apart only between kinds; random search and the unavailable optimisers are left out.
- Genomes: serialisation to and from dictionaries and the structural hash.
- Swing points with an empty neighbourhood (left and right both zero), for which the code raises.
- Liquidity pools, equal levels, sweeps, premium and discount, inducement, fake breakouts and order flow: heuristic scores and clusterings.
- ATR series, walk-forward windows, performance statistics, research series and indicators, strategy versions: short loops whose statements would be easier than the above.
- Cache failover and the persisted settings overlay.
- Information coefficient, hit rate and the t-test of the research statistics.
- Network, database, dashboard, notifications, dependency wiring, and the engines whose inputs the above treats as arbitrary.
