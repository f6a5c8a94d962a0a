# Trading console core in Dafny

This project models the four pieces of sequential business logic inside the single-file
trading console `all_in_one_trading_engine.py`. Each one becomes a Dafny module of
immutable values and pure transitions:

- `Ledger` (`ledger.dfy`) is the position ledger, `PositionsManager.on_fill` and
  `get_unrealized_pnl`. It is a `map<string, Position>` of `(quantity, avgCost, realizedPnl)`.
  Fills update it: a BUY keeps a weighted-average cost basis, a SELL against a long books
  profit on `min(held, sold)` shares, a SELL when flat or short only lowers the quantity,
  and any other action leaves the record unchanged. In every case the symbol's record is
  stored back.
- `Alerts` (`alerts.dfy`) is the alert evaluator, `AlertEngine`. It is an append-only
  sequence of `(kind, symbol, condition)` alerts. `CheckAlerts` first collects the
  positions of the firing alerts, then fires their callbacks in registration order. A
  callback's effect is the symbol it is called with, so the method returns the fired
  symbols.
- `Backtest` (`backtest.dfy`) is the SMA-crossover backtester, `Backtester.sma_strategy`.
  It has trailing rolling means computed with a running sum, the crossover signal column,
  and the row-to-row signal difference as the trade trigger. Share buying is whole-share
  `floor(cash / close)` and selling liquidates everything. The result is one equity value
  per bar, the final value and the percentage return.
- `Candles` (`candles.dfy`) is the minute-candle aggregator, `ChartDataManager.update_price`
  and `get_candles`. It is a per-symbol sequence of `(ts, open, close, low, high)`. The
  caller supplies the minute stamp; the model does not read a clock.

Prices, costs, cash and capital are Dafny `real`. Quantities and share counts are `int`.
Python's float arithmetic is idealised to exact arithmetic throughout, and the `//` floor
is `.Floor`.

Two behaviours of the code that a reader might not expect, both modelled as written:

- An unrecognised fill side does not leave the ledger untouched. A symbol seen for the
  first time still gets a fresh flat record.
- The code does not validate non-positive prices or quantities, so neither does the model.

A backtest with zero initial capital and a non-empty bar series never buys a share, so
every equity value is 0. The percentage return is then numpy's `0 / 0`, which is NaN.
The model keeps the signals and the curve, and gives the return as `None`. `None` is the
same stand-in for NaN that the rolling means use before a full window.

## Model

| member | source | states |
|---|---|---|
| Ledger.Lookup | all_in_one_trading_engine.py:282 | A symbol with no record reads as the flat record `(0, 0, 0)` |
| Ledger.ActionIsCaseInsensitive | all_in_one_trading_engine.py:287-298 | Two actions that are equal letter by letter up to upper-casing are read as the same side |
| Ledger.LowerCaseActionsRecognised | all_in_one_trading_engine.py:287-312 | "buy"/"Buy" read as BUY and "sell"/"SeLL" as SELL. Every action that does not upper-case to "BUY" or "SELL", "SHORT" among them, is an unknown action |
| Ledger.Transition | all_in_one_trading_engine.py:287-312 | BUY adds the fill to the quantity and keeps realized profit. The new quantity times the new basis equals the old cost plus the fill's cost, and the basis is 0 when the position ends flat. SELL against a long adds `(price - basis) * min(held, sold)` to realized profit and subtracts the fill from the quantity. It keeps the basis while still long and zeroes it otherwise. SELL when flat or short changes only the quantity. An unknown action changes nothing |
| Ledger.ApplyFill | all_in_one_trading_engine.py:282-314 | The fill's symbol is always present afterwards, holding the transition of its previous (or flat) record. Every other symbol's record is unchanged |
| Ledger.UnrealizedPnl | all_in_one_trading_engine.py:341-348 | Returns 0 for an unknown symbol or a zero quantity, at any price. Otherwise returns `(last - basis) * quantity` |
| Ledger.RealizedMovesOnlyOnClosingSell | all_in_one_trading_engine.py:287-312 | Any fill other than a SELL against a long leaves every symbol's realized profit unchanged |
| Ledger.TotalPnlConservedAtFillPrice | all_in_one_trading_engine.py:287-306 | A record's booked profit plus its open quantity marked at the fill price, `(price - basis) * quantity`, is the same before and after two kinds of fill. One is a BUY that does not end flat. The other is a SELL of no more than the long quantity |
| Ledger.TotalIsRealizedPlusUnrealized | all_in_one_trading_engine.py:341-348 | At any mark, a symbol's record's total profit equals its booked profit plus what `get_unrealized_pnl` reports for that symbol, including for a missing symbol or a zero quantity |
| Ledger.FillConservesProfitAtFillPrice | all_in_one_trading_engine.py:277-348 | For the filled symbol, realized profit plus `get_unrealized_pnl` at the fill price is the same before and after `on_fill`, for a BUY that does not end flat and for a SELL of no more than the long quantity |
| Ledger.BuyStepAddsCost | all_in_one_trading_engine.py:287-296 | One positive BUY onto a non-negative holding adds the fill's quantity and the fill's outlay to the money the basis accounts for |
| Ledger.BuysKeepCostBasis | all_in_one_trading_engine.py:287-296 | Starting flat, after any run of positive BUYs on a symbol, interleaved with fills on other symbols, two things hold. The quantity is the total bought. Quantity times basis is the total spent |
| Ledger.BuysGiveVolumeWeightedCost | all_in_one_trading_engine.py:287-296 | Starting flat, after positive BUYs only, the quantity is the sum of the fill quantities. The basis is the volume-weighted average price, and realized profit is unchanged |
| Ledger.WorkedExample | all_in_one_trading_engine.py:287-306 | Two steps from the fills 10@100 and 10@110, which leave 20@105. SELL 15@120 gives 5@105 with realized 225. SELL 5@130 then gives a flat record with basis 0 and realized 350 |
| Alerts.AddTechnicalAlert | all_in_one_trading_engine.py:587-591 | Registration appends exactly one technical alert for the given symbol and condition, and leaves earlier alerts in place |
| Alerts.AtOrAbove | all_in_one_trading_engine.py:1202-1203 | The dialog's condition holds of a price exactly when the price is at or above the threshold |
| Alerts.TriggeredIsExact | all_in_one_trading_engine.py:598-603 | The collected positions are strictly increasing, meaning registration order with no duplicates. A position is collected exactly when its alert is technical, its symbol has a price and its condition holds on that price |
| Alerts.CheckAlerts | all_in_one_trading_engine.py:594-607 | The callbacks fire with the symbols of exactly the collected alerts, in collection order, at most one per registered alert. With `Alerts.TriggeredIsExact`, these are the symbols of the firing alerts, in registration order |
| Alerts.ThresholdAlertFiresWhileHeld | all_in_one_trading_engine.py:1202-1208 | A threshold alert is appended to any registry. The snapshot then fires everything it fired before, plus the new symbol at the end if and only if its price is at or above the threshold |
| Backtest.SlideWindow | all_in_one_trading_engine.py:636-637 | Moving a trailing window one bar on adds the newest close and, once the window is full, removes the close that leaves it |
| Backtest.RunningMeanStep | all_in_one_trading_engine.py:636-637 | One step of the running sum yields the sum of the window ending at the current bar, and what it emits there is that window's mean, or nothing before a full window |
| Backtest.RollingMean | all_in_one_trading_engine.py:636-637 | The running-sum rolling mean equals the mean of the last `w` closes at every index and is absent before a full window |
| Backtest.CrossoverSignals | all_in_one_trading_engine.py:639-642 | One signal per bar, each 0 or 1. The signal is 0 at every index below `longWin`. From `longWin` on it is 1 exactly when both means exist and the short mean is above the long one |
| Backtest.EnterBuysMostAffordable | all_in_one_trading_engine.py:650-655 | At a positive close with non-negative cash, an entry buys a non-negative number of whole shares and pays for them. The remaining cash is at least 0 and below one more share's price |
| Backtest.ExitLiquidates | all_in_one_trading_engine.py:656-658 | An exit leaves zero shares and adds `shares * close` to cash |
| Backtest.TradesKeepValue | all_in_one_trading_engine.py:649-659 | No trade changes the account's value at the bar's own close: there are no fees and no slippage |
| Backtest.ReplayStaysSolvent | all_in_one_trading_engine.py:645-658 | Starting from non-negative capital, cash and shares stay non-negative after every bar |
| Backtest.FlatSignalHoldsCash | all_in_one_trading_engine.py:639-659 | While the signal has been 0 throughout, no trade has happened and the account is still the initial cash |
| Backtest.Simulate | all_in_one_trading_engine.py:645-659 | Exactly one equity value per bar: cash plus shares times that bar's close, after the trades of every bar up to and including it |
| Backtest.FirstBarHolds | all_in_one_trading_engine.py:643-659 | The first bar has no signal change, so its equity value is the initial capital |
| Backtest.QuietRunEndsAtCapital | all_in_one_trading_engine.py:639-659 | With a signal column for a series no longer than `longWin`, no trade happens and the last bar's equity value is the initial capital |
| Backtest.ReturnPct | all_in_one_trading_engine.py:663 | The return is zero exactly when the final value equals the initial capital. With positive capital it is positive exactly on a gain |
| Backtest.SmaStrategy | all_in_one_trading_engine.py:632-665 | An empty series returns the initial capital and a 0 return. With bars there is one crossover signal and one equity value per bar, the first value is the initial capital, and the final value is the last equity value. With non-zero capital the return is measured on the initial capital. With zero capital the final value is 0 and the return is NaN, as `None`. A series no longer than `longWin` ends at the initial capital, with a 0 return when the capital is non-zero |
| Backtest.NoCapitalNoTrades | all_in_one_trading_engine.py:645-659 | Starting with zero capital, the account holds no cash and no shares after every bar, whatever the signal does |
| Candles.UpdatePrice | all_in_one_trading_engine.py:743-767 | A symbol's first tick, or a tick in a new minute, appends the candle `(minute, p, p, p, p)`. A tick in the last candle's minute keeps its stamp and open, sets close to `p`, low to `min(low, p)` and high to `max(high, p)`. Earlier candles and other symbols are untouched, and every symbol's list stays non-empty |
| Candles.UpdatePreservesValid | all_in_one_trading_engine.py:743-767 | Every symbol keeps a non-empty list, and `low <= open, close <= high` holds of every candle after any update |
| Candles.GetCandles | all_in_one_trading_engine.py:769-770 | An unknown symbol has no candles; a known symbol has its stored list |
| Candles.MinuteTicksFormOneCandle | all_in_one_trading_engine.py:751-766 | Any non-empty run of ticks in one new minute adds exactly one candle: first tick as open, last as close, lowest as low, highest as high. Earlier candles stay |
| Candles.UpdatePriceAsWritten | all_in_one_trading_engine.py:740-767 | As written: the stored stamp is shifted by the local UTC offset, but the next tick compares the unshifted minute with it |
| Candles.AsWrittenAgreesInUtc | all_in_one_trading_engine.py:747-755 | With a zero local UTC offset the as-written update equals the intended one |
| Candles.AsWrittenSplitsMinute | all_in_one_trading_engine.py:747-765 | With any non-zero offset, two ticks in the same minute produce two candles carrying the same stamp |

## Left out

- Logging, the optional database mirror of each position (`save_position_to_db`), the
  broker wrapper that delivers fills, the market-data fetchers and polling thread, and
  every GUI class. These are I/O, foreign libraries or display.
- IEEE floating point: all money is exact `real`, so rounding in the weighted average, the
  rolling means and the floor division is not modelled.
- Ledger.SideOf: upper-cases ASCII letters only. Python's `str.upper` also maps a few non-ASCII
  letters to ASCII ones, for example the long s to `S`; those spellings are not modelled.
- Backtest.SmaStrategy: takes the initial capital and both windows as explicit parameters.
  The code defaults them to `initial_capital = 100_000`, `short_win = 20` and
  `long_win = 50`, and its only caller relies on those defaults.
- Backtest.SmaStrategy: the bar frame is taken to be numeric, as the app's OHLCV frames are.
  With a non-numeric column, the division at zero capital would raise `ZeroDivisionError`
  instead of yielding NaN.
- Backtest.SmaStrategy: requires both windows to be at least 1. pandas rejects negative
  windows, and a window of 0 is not modelled.
- Backtest.SmaStrategy: NaN values inside the close column are not modelled; only the
  NaN of a not-yet-full window is, as an absent mean. The open, high, low and timestamp
  of a bar are carried but unused, as in the code.
- Backtest.ReplayStaysSolvent: assumes every close is non-negative. An exit at a negative
  close would make cash negative.
- Alerts.CheckAlerts: a snapshot entry whose price is `None` is not representable in
  `map<string, real>`, so that skip is not modelled. Callbacks are represented only by the
  symbol they receive; a callback that raises is not modelled.
- `ChartDataManager.current_bar_time` is written but never read, so it is not modelled.
  The wall clock `datetime.utcnow()` becomes the `stamp` parameter, and daylight-saving
  changes of the local offset are not modelled.

## Findings

| source | as written | input that shows it | evidently intended | confidence | as-written member | corrected member |
|---|---|---|---|---|---|---|
| all_in_one_trading_engine.py:747-755 | The candle stamp is `minute_stamp.timestamp()` of a naive UTC time, which Python reads as local time. The same-minute test converts that stamp back with `utcfromtimestamp` and compares it with the naive UTC minute | Local time zone UTC+1 (offset 3600 s); two ticks for one symbol in the same minute | Both ticks update one candle | high; not executed | Candles.UpdatePriceAsWritten (Candles.AsWrittenSplitsMinute) | Candles.UpdatePrice (Candles.MinuteTicksFormOneCandle) |
