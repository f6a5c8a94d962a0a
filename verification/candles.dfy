/** Minute-candle aggregation of live ticks (ChartDataManager in the trading
    engine). The wall clock is not read: each tick carries the stamp of the
    minute it falls in, supplied by the caller. */
module Candles {

  /** One candle: minute stamp, open, close, low and high prices. */
  datatype Candle = Candle(ts: int, open: real, close: real, low: real, high: real)

  /** Candles per symbol, oldest first. */
  type Chart = map<string, seq<Candle>>

  function MinReal(a: real, b: real): real
  {
    if a <= b then a else b
  }

  function MaxReal(a: real, b: real): real
  {
    if a >= b then a else b
  }

  /** The candle a minute's first tick opens. */
  function Opening(stamp: int, price: real): Candle
  {
    Candle(stamp, price, price, price, price)
  }

  /** A later tick in the same minute: the stamp and open stay, the close
      becomes the tick, and the range widens to include it. */
  function Extend(c: Candle, price: real): Candle
  {
    Candle(c.ts, c.open, price, MinReal(c.low, price), MaxReal(c.high, price))
  }

  /** The range of a candle contains its open and its close. */
  predicate WellFormed(c: Candle)
  {
    c.low <= c.open <= c.high && c.low <= c.close <= c.high
  }

  /** Every symbol on the chart has at least one candle: a symbol's list is
      created with its first tick and only ever grows. */
  predicate Populated(chart: Chart)
  {
    forall s :: s in chart ==> |chart[s]| > 0
  }

  /** A populated chart whose candles are all well formed; update_price only
      ever creates such charts. */
  predicate Valid(chart: Chart)
  {
    && Populated(chart)
    && forall s :: s in chart ==> forall k :: 0 <= k < |chart[s]| ==> WellFormed(chart[s][k])
  }

  function Last(candles: seq<Candle>): Candle
    requires |candles| > 0
  {
    candles[|candles| - 1]
  }

  /** update_price: the first tick of a symbol starts its list with an opening
      candle; a tick in the last candle's minute extends that candle; a tick in
      any other minute appends a new opening candle. Other symbols, and every
      earlier candle, are untouched. */
  function UpdatePrice(chart: Chart, symbol: string, price: real, stamp: int): (r: Chart)
    requires Populated(chart)
    ensures Populated(r)
    ensures r.Keys == chart.Keys + {symbol}
    ensures forall s :: s in chart && s != symbol ==> r[s] == chart[s]
    ensures symbol !in chart ==> r[symbol] == [Opening(stamp, price)]
    ensures symbol in chart && Last(chart[symbol]).ts != stamp ==>
      r[symbol] == chart[symbol] + [Opening(stamp, price)]
    ensures symbol in chart && Last(chart[symbol]).ts == stamp ==>
      && |r[symbol]| == |chart[symbol]|
      && r[symbol][..|chart[symbol]| - 1] == chart[symbol][..|chart[symbol]| - 1]
      && Last(r[symbol]).ts == stamp
      && Last(r[symbol]).open == Last(chart[symbol]).open
      && Last(r[symbol]).close == price
      && Last(r[symbol]).low == MinReal(Last(chart[symbol]).low, price)
      && Last(r[symbol]).high == MaxReal(Last(chart[symbol]).high, price)
  {
    if symbol !in chart then
      chart[symbol := [Opening(stamp, price)]]
    else
      var candles := chart[symbol];
      var last := Last(candles);
      if stamp == last.ts then
        chart[symbol := candles[..|candles| - 1] + [Extend(last, price)]]
      else
        chart[symbol := candles + [Opening(stamp, price)]]
  }

  /** update_price keeps every candle's range around its open and close, and
      keeps every symbol's list non-empty. */
  lemma UpdatePreservesValid(chart: Chart, symbol: string, price: real, stamp: int)
    requires Valid(chart)
    ensures Valid(UpdatePrice(chart, symbol, price, stamp))
  {
    var r := UpdatePrice(chart, symbol, price, stamp);
    if symbol in chart && Last(chart[symbol]).ts == stamp {
      var prior := chart[symbol];
      var n := |prior|;
      assert WellFormed(prior[n - 1]);
      forall k | 0 <= k < n
        ensures WellFormed(r[symbol][k])
      {
        if k < n - 1 {
          assert r[symbol][k] == r[symbol][..n - 1][k];
        }
      }
    } else if symbol in chart {
      var prior := chart[symbol];
      forall k | 0 <= k < |r[symbol]|
        ensures WellFormed(r[symbol][k])
      {
        if k < |prior| {
          assert r[symbol][k] == prior[k];
        }
      }
    }
  }

  /** get_candles: the symbol's candles, or none for a symbol never ticked. */
  function GetCandles(chart: Chart, symbol: string): (candles: seq<Candle>)
    ensures symbol !in chart ==> candles == []
    ensures symbol in chart ==> candles == chart[symbol]
  {
    if symbol in chart then chart[symbol] else []
  }

  /** A run of ticks for one symbol, all stamped with the same minute. */
  function UpdateAll(chart: Chart, symbol: string, ticks: seq<real>, stamp: int): (r: Chart)
    requires Valid(chart)
    ensures Valid(r)
    decreases |ticks|
  {
    if |ticks| == 0 then chart
    else
      var before := UpdateAll(chart, symbol, ticks[..|ticks| - 1], stamp);
      UpdatePreservesValid(before, symbol, ticks[|ticks| - 1], stamp);
      UpdatePrice(before, symbol, ticks[|ticks| - 1], stamp)
  }

  function MinOf(xs: seq<real>): real
    requires |xs| > 0
    decreases |xs|
  {
    if |xs| == 1 then xs[0] else MinReal(MinOf(xs[..|xs| - 1]), xs[|xs| - 1])
  }

  function MaxOf(xs: seq<real>): real
    requires |xs| > 0
    decreases |xs|
  {
    if |xs| == 1 then xs[0] else MaxReal(MaxOf(xs[..|xs| - 1]), xs[|xs| - 1])
  }

  /** Ticks that arrive within one new minute collapse into exactly one new
      candle: opened at the first tick, closed at the last, spanning the
      lowest and highest tick. The candles already on the chart stay as they
      were. */
  lemma {:induction false} MinuteTicksFormOneCandle(chart: Chart, symbol: string, ticks: seq<real>, stamp: int)
    requires Valid(chart)
    requires |ticks| > 0
    requires symbol in chart ==> Last(chart[symbol]).ts != stamp
    ensures UpdateAll(chart, symbol, ticks, stamp)[symbol]
      == GetCandles(chart, symbol)
         + [Candle(stamp, ticks[0], ticks[|ticks| - 1], MinOf(ticks), MaxOf(ticks))]
    decreases |ticks|
  {
    var prior := GetCandles(chart, symbol);
    if |ticks| == 1 {
      assert UpdateAll(chart, symbol, ticks[..0], stamp) == chart;
    } else {
      var init := ticks[..|ticks| - 1];
      MinuteTicksFormOneCandle(chart, symbol, init, stamp);
      var before := UpdateAll(chart, symbol, init, stamp);
      assert init[0] == ticks[0];
      var c := Candle(stamp, ticks[0], init[|init| - 1], MinOf(init), MaxOf(init));
      assert before[symbol] == prior + [c];
      var after := UpdatePrice(before, symbol, ticks[|ticks| - 1], stamp);
      assert UpdateAll(chart, symbol, ticks, stamp) == after;
      assert after[symbol][..|prior|] == prior;
    }
  }

  // ---------------------------------------------------------------------------
  // The stamp comparison as the engine writes it
  // ---------------------------------------------------------------------------

  /** update_price as written: the minute is taken from the UTC clock as a
      naive time, stored through a conversion that reads naive times as LOCAL
      time (so the stored stamp is the UTC minute minus the local offset from
      UTC, in seconds), and compared after a conversion that reads the stored
      stamp back as UTC. The stamp is `minuteUtc`: the UTC minute's reading
      on the epoch scale. */
  function UpdatePriceAsWritten(chart: Chart, symbol: string, price: real, minuteUtc: int, utcOffset: int): (r: Chart)
    requires Populated(chart)
    // the first tick stores the shifted stamp
    ensures symbol !in chart ==> r == UpdatePrice(chart, symbol, price, minuteUtc - utcOffset)
    // a last candle stamped with the unshifted minute is extended
    ensures symbol in chart && Last(chart[symbol]).ts == minuteUtc ==>
      r == UpdatePrice(chart, symbol, price, minuteUtc)
    // otherwise a new candle is appended, even when the last candle carries
    // exactly the stamp this tick would store
    ensures symbol in chart && Last(chart[symbol]).ts != minuteUtc ==>
      r == chart[symbol := chart[symbol] + [Opening(minuteUtc - utcOffset, price)]]
  {
    var stored := minuteUtc - utcOffset;
    if symbol !in chart then
      chart[symbol := [Opening(stored, price)]]
    else
      var candles := chart[symbol];
      var last := Last(candles);
      if minuteUtc == last.ts then
        chart[symbol := candles[..|candles| - 1] + [Extend(last, price)]]
      else
        chart[symbol := candles + [Opening(stored, price)]]
  }

  /** On a machine whose local time is UTC the two conversions cancel and the
      engine behaves as intended. */
  lemma AsWrittenAgreesInUtc(chart: Chart, symbol: string, price: real, minute: int)
    requires Populated(chart)
    ensures UpdatePriceAsWritten(chart, symbol, price, minute, 0) == UpdatePrice(chart, symbol, price, minute)
  {
  }

  /** Anywhere else, two ticks in the same minute never meet: the second
      compares its minute with a stamp shifted by the offset and opens a
      second candle for the same minute. */
  lemma AsWrittenSplitsMinute(symbol: string, p1: real, p2: real, minuteUtc: int, utcOffset: int)
    requires utcOffset != 0
    ensures
      var once := UpdatePriceAsWritten(map[], symbol, p1, minuteUtc, utcOffset);
      var twice := UpdatePriceAsWritten(once, symbol, p2, minuteUtc, utcOffset);
      |twice[symbol]| == 2 && twice[symbol][0].ts == twice[symbol][1].ts
  {
    var once := UpdatePriceAsWritten(map[], symbol, p1, minuteUtc, utcOffset);
    assert once[symbol] == [Opening(minuteUtc - utcOffset, p1)];
  }
}
