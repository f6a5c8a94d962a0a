/** Alert evaluator: an append-only registry of price conditions per symbol,
    checked against a snapshot of last prices (AlertEngine in the trading
    engine). A callback's effect is represented by the symbol it is invoked
    with, so checking returns the symbols whose callbacks fire, in order. */
module Alerts {

  /** A registered alert: its kind tag, the symbol it watches and its
      condition on that symbol's price. */
  datatype Alert = Alert(kind: string, symbol: string, condition: real -> bool)

  /** The only kind the engine registers and the only kind it evaluates. */
  const Technical := "technical"

  type Prices = map<string, real>

  /** add_technical_alert: one new technical alert at the end of the registry. */
  function AddTechnicalAlert(alerts: seq<Alert>, symbol: string, condition: real -> bool): (r: seq<Alert>)
    ensures |r| == |alerts| + 1
    ensures r[..|alerts|] == alerts
    ensures r[|alerts|].kind == Technical && r[|alerts|].symbol == symbol
    ensures r[|alerts|].condition == condition
  {
    alerts + [Alert(Technical, symbol, condition)]
  }

  /** The threshold condition the alert dialog builds: price at or above. */
  function AtOrAbove(threshold: real): (cond: real -> bool)
    ensures forall px :: cond(px) <==> px >= threshold
  {
    px => px >= threshold
  }

  /** An alert fires on a snapshot when it is technical, its symbol has a
      price, and its condition holds of that price. */
  predicate Fires(a: Alert, prices: Prices)
  {
    a.kind == Technical && a.symbol in prices && a.condition(prices[a.symbol])
  }

  /** Registry positions of the alerts that fire, in registration order. */
  function Triggered(alerts: seq<Alert>, prices: Prices): seq<nat>
    decreases |alerts|
  {
    if |alerts| == 0 then []
    else
      var rest := Triggered(alerts[..|alerts| - 1], prices);
      if Fires(alerts[|alerts| - 1], prices) then rest + [|alerts| - 1] else rest
  }

  /** The symbols handed to the callbacks, one per firing alert. */
  function FiredSymbols(alerts: seq<Alert>, prices: Prices): (fired: seq<string>)
  {
    TriggeredIsExact(alerts, prices);
    var t := Triggered(alerts, prices);
    seq(|t|, k requires 0 <= k < |t| => alerts[t[k]].symbol)
  }

  predicate StrictlyIncreasing(t: seq<nat>)
  {
    forall j, k :: 0 <= j < k < |t| ==> t[j] < t[k]
  }

  /** Triggered lists exactly the firing alerts, each once, in registration order. */
  lemma {:induction false} TriggeredIsExact(alerts: seq<Alert>, prices: Prices)
    ensures StrictlyIncreasing(Triggered(alerts, prices))
    ensures forall k :: 0 <= k < |Triggered(alerts, prices)| ==>
      Triggered(alerts, prices)[k] < |alerts|
    ensures forall i :: 0 <= i < |alerts| ==>
      (i in Triggered(alerts, prices) <==> Fires(alerts[i], prices))
    decreases |alerts|
  {
    if |alerts| > 0 {
      var init := alerts[..|alerts| - 1];
      TriggeredIsExact(init, prices);
      forall i | 0 <= i < |init|
        ensures init[i] == alerts[i]
      {
      }
    }
  }

  /** check_alerts: first collect every firing alert, then invoke the collected
      callbacks in order. The registry is an input only, so it is unchanged and
      the same snapshot fires the same alerts on every call. */
  method CheckAlerts(alerts: seq<Alert>, prices: Prices) returns (fired: seq<string>)
    ensures |fired| <= |alerts|
    ensures fired == FiredSymbols(alerts, prices)
  {
    // Phase one: collect the registry positions of the alerts that fire.
    var triggered: seq<nat> := [];
    var i := 0;
    while i < |alerts|
      invariant 0 <= i <= |alerts|
      invariant triggered == Triggered(alerts[..i], prices)
    {
      assert alerts[..i + 1][..i] == alerts[..i];
      var a := alerts[i];
      if a.kind == Technical {
        if a.symbol in prices && a.condition(prices[a.symbol]) {
          triggered := triggered + [i];
        }
      }
      i := i + 1;
    }
    assert alerts[..|alerts|] == alerts;
    TriggeredIsExact(alerts, prices);
    // Phase two: invoke each collected callback with its symbol.
    fired := [];
    var k := 0;
    while k < |triggered|
      invariant 0 <= k <= |triggered|
      invariant |fired| == k
      invariant forall j :: 0 <= j < k ==> fired[j] == alerts[triggered[j]].symbol
    {
      fired := fired + [alerts[triggered[k]].symbol];
      k := k + 1;
    }
    TriggeredIsShort(alerts, prices);
  }

  lemma {:induction false} TriggeredIsShort(alerts: seq<Alert>, prices: Prices)
    ensures |Triggered(alerts, prices)| <= |alerts|
    decreases |alerts|
  {
    if |alerts| > 0 {
      TriggeredIsShort(alerts[..|alerts| - 1], prices);
    }
  }

  /** Registering a threshold alert adds its symbol at the end of the fired
      list exactly when the snapshot's price for it is at or above the
      threshold; the alerts registered earlier fire as before. */
  lemma ThresholdAlertFiresWhileHeld(alerts: seq<Alert>, symbol: string, threshold: real, prices: Prices)
    ensures symbol in prices && prices[symbol] >= threshold ==>
      FiredSymbols(AddTechnicalAlert(alerts, symbol, AtOrAbove(threshold)), prices)
        == FiredSymbols(alerts, prices) + [symbol]
    ensures !(symbol in prices && prices[symbol] >= threshold) ==>
      FiredSymbols(AddTechnicalAlert(alerts, symbol, AtOrAbove(threshold)), prices)
        == FiredSymbols(alerts, prices)
  {
    var r := AddTechnicalAlert(alerts, symbol, AtOrAbove(threshold));
    assert r[..|r| - 1] == alerts;
    TriggeredIsExact(alerts, prices);
    var t := Triggered(alerts, prices);
    var lhs := FiredSymbols(r, prices);
    var rhs := FiredSymbols(alerts, prices);
    if symbol in prices && prices[symbol] >= threshold {
      assert Triggered(r, prices) == t + [|alerts|];
      assert |lhs| == |rhs| + 1;
      forall k | 0 <= k < |rhs|
        ensures lhs[k] == rhs[k]
      {
        assert r[t[k]] == alerts[t[k]];
      }
    } else {
      assert Triggered(r, prices) == t;
      forall k | 0 <= k < |rhs|
        ensures lhs[k] == rhs[k]
      {
        assert r[t[k]] == alerts[t[k]];
      }
    }
  }
}
