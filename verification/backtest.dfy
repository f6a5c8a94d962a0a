/** Moving-average crossover backtest over daily bars (Backtester.sma_strategy
    in the trading engine). Prices and cash are exact reals; share counts are
    integers; a missing moving average (pandas' NaN before a full window) is
    `None`, and a comparison against it is false. */
module Backtest {

  datatype Option<T> = None | Some(value: T)

  /** One OHLC bar; only the close drives the strategy. */
  datatype Bar = Bar(timestamp: int, open: real, high: real, low: real, close: real)

  function Closes(bars: seq<Bar>): (closes: seq<real>)
    ensures |closes| == |bars|
    ensures forall i :: 0 <= i < |bars| ==> closes[i] == bars[i].close
  {
    seq(|bars|, i requires 0 <= i < |bars| => bars[i].close)
  }

  // ---------------------------------------------------------------------------
  // Trailing simple moving average
  // ---------------------------------------------------------------------------

  function Sum(xs: seq<real>): real
    decreases |xs|
  {
    if |xs| == 0 then 0.0 else Sum(xs[..|xs| - 1]) + xs[|xs| - 1]
  }

  /** Summing peels off the first element as well as the last. */
  lemma {:induction false} SumFront(xs: seq<real>)
    requires |xs| > 0
    ensures Sum(xs) == xs[0] + Sum(xs[1..])
    decreases |xs|
  {
    if |xs| > 1 {
      var init := xs[..|xs| - 1];
      SumFront(init);
      assert init[1..] == xs[1..][..|xs[1..]| - 1];
    }
  }

  /** The mean of the `w` closes ending at index `i`, or None while fewer than
      `w` closes have been seen. */
  function WindowMean(closes: seq<real>, w: nat, i: nat): Option<real>
    requires w > 0 && i < |closes|
  {
    if i + 1 < w then None else Some(Sum(closes[i + 1 - w..i + 1]) / w as real)
  }

  /** First index of the window that ends just before `i`. */
  function WindowStart(i: nat, w: nat): nat
  {
    if i >= w then i - w else 0
  }

  /** Moving the window one bar on adds the newest close and, once the window
      is full, drops the close that leaves it. */
  lemma SlideWindow(closes: seq<real>, w: nat, i: nat)
    requires w > 0 && i < |closes|
    ensures Sum(closes[WindowStart(i + 1, w)..i + 1])
              == Sum(closes[WindowStart(i, w)..i]) + closes[i] - (if i >= w then closes[i - w] else 0.0)
  {
    var lo := WindowStart(i, w);
    assert closes[lo..i + 1][..i - lo] == closes[lo..i];
    if i >= w {
      SumFront(closes[lo..i + 1]);
      assert closes[lo..i + 1][1..] == closes[lo + 1..i + 1];
    }
  }

  /** The value the running sum emits at index `i`: nothing before a full
      window, the sum divided by the window length after. */
  function Emit(sum: real, w: nat, i: nat): Option<real>
    requires w > 0
  {
    if i + 1 < w then None else Some(sum / w as real)
  }

  /** One step of the running sum: it becomes the sum of the window ending at
      `i`, and what it emits there is that window's mean. */
  lemma RunningMeanStep(closes: seq<real>, w: nat, i: nat, acc: real)
    requires w > 0 && i < |closes|
    requires acc == Sum(closes[WindowStart(i, w)..i])
    ensures
      var next := acc + closes[i] - (if i >= w then closes[i - w] else 0.0);
      && next == Sum(closes[WindowStart(i + 1, w)..i + 1])
      && Emit(next, w, i) == WindowMean(closes, w, i)
  {
    SlideWindow(closes, w, i);
  }

  /** rolling(w).mean(): a running sum that adds the newest close and drops the
      one leaving the window, agreeing with WindowMean at every index. */
  method RollingMean(closes: seq<real>, w: nat) returns (sma: seq<Option<real>>)
    requires w > 0
    ensures |sma| == |closes|
    ensures forall i :: 0 <= i < |closes| ==> sma[i] == WindowMean(closes, w, i)
  {
    sma := [];
    var acc := 0.0;
    var i := 0;
    while i < |closes|
      invariant 0 <= i <= |closes|
      invariant |sma| == i
      invariant forall j :: 0 <= j < i ==> sma[j] == WindowMean(closes, w, j)
      invariant acc == Sum(closes[WindowStart(i, w)..i])
    {
      RunningMeanStep(closes, w, i, acc);
      acc := acc + closes[i] - (if i >= w then closes[i - w] else 0.0);
      var m := Emit(acc, w, i);
      assert m == WindowMean(closes, w, i);
      sma := sma + [m];
      i := i + 1;
    }
  }

  // ---------------------------------------------------------------------------
  // Crossover signal
  // ---------------------------------------------------------------------------

  /** The signal at bar `i`: 0 before index `longWin`; from there on 1 exactly
      when both averages exist and the short one is above the long one. */
  function SignalAt(closes: seq<real>, shortWin: nat, longWin: nat, i: nat): int
    requires shortWin > 0 && longWin > 0 && i < |closes|
  {
    if i < longWin then 0
    else
      match (WindowMean(closes, shortWin, i), WindowMean(closes, longWin, i))
      case (Some(s), Some(l)) => if s > l then 1 else 0
      case _ => 0
  }

  /** The signal column, computed from the two rolling means. */
  method CrossoverSignals(closes: seq<real>, shortWin: nat, longWin: nat) returns (signals: seq<int>)
    requires shortWin > 0 && longWin > 0
    ensures |signals| == |closes|
    ensures forall i :: 0 <= i < |closes| ==> signals[i] == SignalAt(closes, shortWin, longWin, i)
    ensures forall i :: 0 <= i < |closes| ==> signals[i] == 0 || signals[i] == 1
    ensures forall i :: 0 <= i < |closes| && i < longWin ==> signals[i] == 0
  {
    var smaShort := RollingMean(closes, shortWin);
    var smaLong := RollingMean(closes, longWin);
    signals := [];
    var i := 0;
    while i < |closes|
      invariant 0 <= i <= |closes|
      invariant |signals| == i
      invariant forall j :: 0 <= j < i ==> signals[j] == SignalAt(closes, shortWin, longWin, j)
    {
      var sig := 0;
      if i >= longWin && smaShort[i].Some? && smaLong[i].Some? && smaShort[i].value > smaLong[i].value {
        sig := 1;
      }
      signals := signals + [sig];
      i := i + 1;
    }
  }

  // ---------------------------------------------------------------------------
  // Trading simulation
  // ---------------------------------------------------------------------------

  /** What a bar's change in signal asks for. */
  datatype Trade = Hold | Enter | Exit

  /** The row-to-row difference of the signal: +1 enters, -1 exits, anything
      else (and the first row, which has no predecessor) holds. */
  function ChangeAt(signals: seq<int>, i: nat): Trade
    requires i < |signals|
  {
    if i == 0 then Hold
    else if signals[i] - signals[i - 1] == 1 then Enter
    else if signals[i] - signals[i - 1] == -1 then Exit
    else Hold
  }

  /** Cash and whole shares held. */
  datatype Account = Account(capital: real, shares: int)

  /** The account marked at a close. */
  function Value(a: Account, close: real): real
  {
    a.capital + a.shares as real * close
  }

  /** One bar's trade at its close: an entry at a positive close buys as many
      whole shares as the cash affords; an exit sells every share. */
  function Step(a: Account, t: Trade, close: real): Account
  {
    match t
    case Enter =>
      if close > 0.0 then
        var canBuy := (a.capital / close).Floor;
        Account(a.capital - canBuy as real * close, a.shares + canBuy)
      else a
    case Exit => Account(a.capital + a.shares as real * close, 0)
    case Hold => a
  }

  /** The account after the first `k` bars, starting with all cash. */
  function Replay(initialCapital: real, closes: seq<real>, signals: seq<int>, k: nat): Account
    requires k <= |closes| == |signals|
  {
    if k == 0 then Account(initialCapital, 0)
    else Step(Replay(initialCapital, closes, signals, k - 1), ChangeAt(signals, k - 1), closes[k - 1])
  }

  /** An entry spends cash on the largest whole number of shares it can pay
      for: what is left is non-negative and less than one more share. */
  lemma EnterBuysMostAffordable(a: Account, close: real)
    requires a.capital >= 0.0 && close > 0.0
    ensures Step(a, Enter, close).shares >= a.shares
    ensures 0.0 <= Step(a, Enter, close).capital < close
    ensures Step(a, Enter, close).capital
              == a.capital - (Step(a, Enter, close).shares - a.shares) as real * close
  {
    FloorDivLow(a.capital, close);
    FloorDivHigh(a.capital, close);
  }

  // Floor-division facts behind EnterBuysMostAffordable. The upper bound is
  // proved from two multiplication facts stated over plain variables.

  lemma MulLt(x: real, y: real, c: real)
    requires x < y && c > 0.0
    ensures x * c < y * c
  {
  }

  lemma DivMul(x: real, c: real)
    requires c > 0.0
    ensures (x / c) * c == x
  {
  }

  /** floor(x / c) whole units of price c cost at most x ... */
  lemma FloorDivLow(x: real, c: real)
    requires c > 0.0
    ensures (x / c).Floor as real * c <= x
  {
  }

  /** ... and what is left is less than one more unit. */
  lemma FloorDivHigh(x: real, c: real)
    requires c > 0.0
    ensures x - (x / c).Floor as real * c < c
  {
    var q := x / c;
    var n := q.Floor as real;
    MulLt(q, n + 1.0, c);
    DivMul(x, c);
  }

  /** An exit leaves no shares and turns them into cash at the close. */
  lemma ExitLiquidates(a: Account, close: real)
    ensures Step(a, Exit, close).shares == 0
    ensures Step(a, Exit, close).capital == a.capital + a.shares as real * close
  {
  }

  /** Trading at the close neither creates nor destroys value at that close:
      there are no fees and no slippage. */
  lemma TradesKeepValue(a: Account, t: Trade, close: real)
    ensures Value(Step(a, t, close), close) == Value(a, close)
  {
  }

  /** Starting from non-negative cash, the simulation never holds negative
      cash or a negative number of shares. */
  lemma {:induction false} ReplayStaysSolvent(initialCapital: real, closes: seq<real>, signals: seq<int>, k: nat)
    requires k <= |closes| == |signals|
    requires initialCapital >= 0.0
    requires forall i :: 0 <= i < |closes| ==> closes[i] >= 0.0
    ensures Replay(initialCapital, closes, signals, k).capital >= 0.0
    ensures Replay(initialCapital, closes, signals, k).shares >= 0
  {
    if k > 0 {
      ReplayStaysSolvent(initialCapital, closes, signals, k - 1);
      var a := Replay(initialCapital, closes, signals, k - 1);
      var t := ChangeAt(signals, k - 1);
      var c := closes[k - 1];
      assert c >= 0.0;
      match t
      case Enter =>
        if c > 0.0 {
          EnterBuysMostAffordable(a, c);
        }
      case Exit =>
        assert a.shares as real * c >= 0.0;
      case Hold =>
    }
  }

  /** While the signal has stayed flat, no trade has happened: the account is
      still all cash. */
  lemma {:induction false} FlatSignalHoldsCash(initialCapital: real, closes: seq<real>, signals: seq<int>, k: nat)
    requires k <= |closes| == |signals|
    requires forall i :: 0 <= i < k ==> signals[i] == 0
    ensures Replay(initialCapital, closes, signals, k) == Account(initialCapital, 0)
  {
    if k > 0 {
      FlatSignalHoldsCash(initialCapital, closes, signals, k - 1);
    }
  }

  /** An all-cash account is worth its cash at any close. */
  lemma CashOnlyValue(capital: real, close: real)
    ensures Value(Account(capital, 0), close) == capital
  {
  }

  /** Percentage gain of a final value over a non-zero initial capital: zero
      exactly when nothing was gained, positive exactly on a gain when the
      capital is positive. */
  function ReturnPct(finalValue: real, initialCapital: real): (pct: real)
    requires initialCapital != 0.0
    ensures pct == 0.0 <==> finalValue == initialCapital
    ensures initialCapital > 0.0 ==> (pct > 0.0 <==> finalValue > initialCapital)
  {
    (finalValue - initialCapital) / initialCapital * 100.0
  }

  /** The equity value at bar `j`: the account after the trades of bars
      0..j, marked at bar `j`'s close. */
  function EquityAt(initialCapital: real, closes: seq<real>, signals: seq<int>, j: nat): real
    requires j < |closes| == |signals|
  {
    Value(Replay(initialCapital, closes, signals, j + 1), closes[j])
  }

  /** The equity curve: the account's value at each bar's close, after that
      bar's trade. */
  method Simulate(closes: seq<real>, signals: seq<int>, initialCapital: real) returns (curve: seq<real>)
    requires |closes| == |signals|
    ensures |curve| == |closes|
    ensures forall i :: 0 <= i < |closes| ==> curve[i] == EquityAt(initialCapital, closes, signals, i)
  {
    var capital := initialCapital;
    var shares := 0;
    curve := [];
    var i := 0;
    while i < |closes|
      invariant 0 <= i <= |closes|
      invariant Account(capital, shares) == Replay(initialCapital, closes, signals, i)
      invariant |curve| == i
      invariant forall j :: 0 <= j < i ==> curve[j] == EquityAt(initialCapital, closes, signals, j)
    {
      var close := closes[i];
      // this bar's trade, then its mark
      var next := Step(Account(capital, shares), ChangeAt(signals, i), close);
      assert Value(next, close) == EquityAt(initialCapital, closes, signals, i);
      capital, shares := next.capital, next.shares;
      curve := curve + [Value(next, close)];
      i := i + 1;
    }
  }

  // ---------------------------------------------------------------------------
  // The strategy run
  // ---------------------------------------------------------------------------

  /** The signal column, the equity curve, its last value and the percentage
      return on the initial capital. */
  /** The signal column, the equity curve, its last value and the percentage
      return on the initial capital. The return is `None` where the engine's
      numpy division of 0 by a zero initial capital yields NaN. */
  datatype BacktestResult = BacktestResult(signals: seq<int>, curve: seq<real>, finalValue: real, returnPct: Option<real>)

  /** One signal per close, each the crossover signal of its bar. */
  predicate IsSignalColumn(signals: seq<int>, closes: seq<real>, shortWin: nat, longWin: nat)
    requires shortWin > 0 && longWin > 0
  {
    && |signals| == |closes|
    && forall i :: 0 <= i < |closes| ==> signals[i] == SignalAt(closes, shortWin, longWin, i)
  }

  /** One value per close: the replayed account after that bar, marked at its close. */
  predicate IsEquityCurve(curve: seq<real>, initialCapital: real, closes: seq<real>, signals: seq<int>)
    requires |closes| == |signals|
  {
    && |curve| == |closes|
    && forall i :: 0 <= i < |closes| ==> curve[i] == EquityAt(initialCapital, closes, signals, i)
  }

  /** sma_strategy: an empty series returns the initial capital and a zero
      return; otherwise every bar gets a signal and an equity value, and the
      return is measured against the initial capital. With no capital nothing
      is ever bought, every value is 0, and the return is 0 / 0, i.e. NaN. */
  method SmaStrategy(bars: seq<Bar>, initialCapital: real, shortWin: nat, longWin: nat) returns (r: BacktestResult)
    requires shortWin > 0 && longWin > 0
    ensures |bars| == 0 ==> r == BacktestResult([], [], initialCapital, Some(0.0))
    ensures |bars| > 0 ==>
      var closes := Closes(bars);
      && IsSignalColumn(r.signals, closes, shortWin, longWin)
      && IsEquityCurve(r.curve, initialCapital, closes, r.signals)
      && r.curve[0] == initialCapital
      && r.finalValue == r.curve[|bars| - 1]
    ensures |bars| > 0 && initialCapital != 0.0 ==>
      r.returnPct == Some(ReturnPct(r.finalValue, initialCapital))
    ensures |bars| > 0 && initialCapital == 0.0 ==> r.finalValue == 0.0 && r.returnPct == None
    ensures |bars| <= longWin ==> r.finalValue == initialCapital
    ensures |bars| <= longWin && initialCapital != 0.0 ==> r.returnPct == Some(0.0)
  {
    if |bars| == 0 {
      return BacktestResult([], [], initialCapital, Some(0.0));
    }
    var closes := Closes(bars);
    var signals := CrossoverSignals(closes, shortWin, longWin);
    var curve := Simulate(closes, signals, initialCapital);
    FirstBarHolds(initialCapital, closes, signals);
    if |bars| <= longWin {
      QuietRunEndsAtCapital(initialCapital, closes, signals, shortWin, longWin);
    }
    var finalValue := curve[|bars| - 1];
    var returnPct: Option<real>;
    if initialCapital == 0.0 {
      NoCapitalNoTrades(closes, signals, |bars|);
      CashOnlyValue(0.0, closes[|bars| - 1]);
      returnPct := None;
    } else {
      returnPct := Some(ReturnPct(finalValue, initialCapital));
    }
    r := BacktestResult(signals, curve, finalValue, returnPct);
  }

  /** Without capital an entry affords no share and an exit has none to
      sell: the account stays empty whatever the signal does. */
  lemma {:induction false} NoCapitalNoTrades(closes: seq<real>, signals: seq<int>, k: nat)
    requires k <= |closes| == |signals|
    ensures Replay(0.0, closes, signals, k) == Account(0.0, 0)
  {
    if k > 0 {
      NoCapitalNoTrades(closes, signals, k - 1);
      var c := closes[k - 1];
      if c > 0.0 {
        assert 0.0 / c == 0.0;
      }
    }
  }

  /** The first bar has no predecessor to differ from, so it never trades and
      is marked at the initial capital. */
  lemma FirstBarHolds(initialCapital: real, closes: seq<real>, signals: seq<int>)
    requires 0 < |closes| == |signals|
    ensures Value(Replay(initialCapital, closes, signals, 1), closes[0]) == initialCapital
  {
    assert Replay(initialCapital, closes, signals, 1) == Account(initialCapital, 0);
    CashOnlyValue(initialCapital, closes[0]);
  }

  /** A series no longer than the long window never raises the signal, so the
      last bar is still marked at the initial capital. */
  lemma QuietRunEndsAtCapital(initialCapital: real, closes: seq<real>, signals: seq<int>, shortWin: nat, longWin: nat)
    requires shortWin > 0 && longWin > 0
    requires 0 < |closes| <= longWin
    requires IsSignalColumn(signals, closes, shortWin, longWin)
    ensures Value(Replay(initialCapital, closes, signals, |closes|), closes[|closes| - 1]) == initialCapital
  {
    FlatSignalHoldsCash(initialCapital, closes, signals, |closes|);
    CashOnlyValue(initialCapital, closes[|closes| - 1]);
  }
}
