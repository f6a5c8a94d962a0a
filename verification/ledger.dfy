/** Position ledger: a per-symbol record of quantity, average cost and realized
    profit, driven by execution fills (PositionsManager in the trading engine).
    Prices and money are idealised as exact reals; quantities are integers. */
module Ledger {

  /** One symbol's record. `avgCost` is the weighted-average cost basis of the
      open quantity; `realizedPnl` accumulates booked profit. */
  datatype Position = Position(quantity: int, avgCost: real, realizedPnl: real)

  /** The record a symbol starts from when it has never been filled. */
  const Flat := Position(0, 0.0, 0.0)

  type Book = map<string, Position>

  /** An execution report as the broker wrapper passes it on. */
  datatype Fill = Fill(symbol: string, action: string, price: real, quantity: int)

  /** The three ways an action string is interpreted. */
  datatype Side = Buy | Sell | Unknown

  /** ASCII upper-casing of one character. */
  function UpperChar(c: char): (u: char)
    ensures 'a' <= c <= 'z' ==> 'A' <= u <= 'Z' && u as int == c as int - 32
    ensures !('a' <= c <= 'z') ==> u == c
  {
    if 'a' <= c <= 'z' then (c as int - 32) as char else c
  }

  function Upper(s: string): (u: string)
    ensures |u| == |s|
    ensures forall i :: 0 <= i < |s| ==> u[i] == UpperChar(s[i])
  {
    seq(|s|, i requires 0 <= i < |s| => UpperChar(s[i]))
  }

  /** The action is compared against "BUY" and "SELL" after upper-casing. */
  function SideOf(action: string): Side
  {
    var u := Upper(action);
    if u == "BUY" then Buy else if u == "SELL" then Sell else Unknown
  }

  /** Two actions that agree letter by letter up to case are read the same way. */
  lemma ActionIsCaseInsensitive(a: string, b: string)
    requires |a| == |b|
    requires forall i :: 0 <= i < |a| ==> UpperChar(a[i]) == UpperChar(b[i])
    ensures SideOf(a) == SideOf(b)
  {
    assert Upper(a) == Upper(b);
  }

  /** Lower-case and mixed-case spellings of the two sides are recognised,
      and every action that does not upper-case to one of them is unknown. */
  lemma LowerCaseActionsRecognised()
    ensures SideOf("buy") == Buy && SideOf("Buy") == Buy
    ensures SideOf("sell") == Sell && SideOf("SeLL") == Sell
    ensures SideOf("SHORT") == Unknown
    ensures forall a :: Upper(a) != "BUY" && Upper(a) != "SELL" ==> SideOf(a) == Unknown
  {
    assert Upper("buy") == "BUY";
    assert Upper("Buy") == "BUY";
    assert Upper("sell") == "SELL";
    assert Upper("SeLL") == "SELL";
    assert Upper("SHORT") == "SHORT";
  }

  function Min(a: int, b: int): int
  {
    if a <= b then a else b
  }

  /** The stored record of `symbol`, or the flat record when there is none. */
  function Lookup(book: Book, symbol: string): (p: Position)
    ensures symbol !in book ==> p == Flat
  {
    if symbol in book then book[symbol] else Flat
  }

  /** How one fill changes one record.
      BUY keeps a weighted-average cost basis; SELL against a long books profit
      on the shares it closes; SELL when flat or short only lowers the quantity;
      any other action changes nothing. */
  function Transition(p: Position, side: Side, price: real, qty: int): (p': Position)
    // BUY: quantity grows by the fill, realized profit is untouched, and the
    // new basis carries the old cost plus the fill's cost (zeroed when flat).
    ensures side == Buy ==>
      && p'.quantity == p.quantity + qty
      && p'.realizedPnl == p.realizedPnl
      && (p'.quantity == 0 ==> p'.avgCost == 0.0)
      && (p'.quantity != 0 ==>
            p'.avgCost * p'.quantity as real
              == p.quantity as real * p.avgCost + qty as real * price)
    // SELL against a long: profit on min(old, fill) shares at (price - basis).
    ensures side == Sell && p.quantity > 0 ==>
      && p'.quantity == p.quantity - qty
      && p'.realizedPnl
           == p.realizedPnl + (price - p.avgCost) * Min(p.quantity, qty) as real
      && (p'.quantity <= 0 ==> p'.avgCost == 0.0)
      && (p'.quantity > 0 ==> p'.avgCost == p.avgCost)
    // SELL when flat or short: only the quantity moves.
    ensures side == Sell && p.quantity <= 0 ==>
      p' == p.(quantity := p.quantity - qty)
    ensures side == Unknown ==> p' == p
  {
    match side
    case Buy =>
      var newQty := p.quantity + qty;
      if newQty == 0 then
        p.(quantity := 0, avgCost := 0.0)
      else
        var totalCost := p.quantity as real * p.avgCost + qty as real * price;
        p.(quantity := newQty, avgCost := totalCost / newQty as real)
    case Sell =>
      if p.quantity > 0 then
        var closed := Min(p.quantity, qty);
        var realized := (price - p.avgCost) * closed as real;
        var newQty := p.quantity - qty;
        Position(newQty, if newQty <= 0 then 0.0 else p.avgCost, p.realizedPnl + realized)
      else
        p.(quantity := p.quantity - qty)
    case Unknown => p
  }

  /** on_fill: the symbol's record (a fresh flat one if absent) is updated and
      stored back, even for an unrecognised action; other symbols are untouched. */
  function ApplyFill(book: Book, f: Fill): (book': Book)
    ensures book'.Keys == book.Keys + {f.symbol}
    ensures book'[f.symbol]
              == Transition(Lookup(book, f.symbol), SideOf(f.action), f.price, f.quantity)
    ensures forall s :: s in book && s != f.symbol ==> book'[s] == book[s]
  {
    book[f.symbol := Transition(Lookup(book, f.symbol), SideOf(f.action), f.price, f.quantity)]
  }

  /** Fills applied in arrival order. */
  function ApplyFills(book: Book, fills: seq<Fill>): Book
    decreases |fills|
  {
    if |fills| == 0 then book
    else ApplyFill(ApplyFills(book, fills[..|fills| - 1]), fills[|fills| - 1])
  }

  /** get_unrealized_pnl: mark-to-market profit of the open quantity. */
  function UnrealizedPnl(book: Book, symbol: string, lastPrice: real): (pnl: real)
    ensures symbol !in book ==> pnl == 0.0
    ensures symbol in book && book[symbol].quantity == 0 ==> pnl == 0.0
    ensures symbol in book && book[symbol].quantity != 0 ==>
      pnl == (lastPrice - book[symbol].avgCost) * book[symbol].quantity as real
  {
    if symbol !in book || book[symbol].quantity == 0 then 0.0
    else (lastPrice - book[symbol].avgCost) * book[symbol].quantity as real
  }

  /** Total profit of a record marked at `mark`: booked plus open. */
  function TotalPnl(p: Position, mark: real): real
  {
    p.realizedPnl + (mark - p.avgCost) * p.quantity as real
  }

  /** Realized profit moves only on a SELL that meets a long position. */
  lemma RealizedMovesOnlyOnClosingSell(book: Book, f: Fill, s: string)
    requires !(SideOf(f.action) == Sell && Lookup(book, f.symbol).quantity > 0)
    ensures Lookup(ApplyFill(book, f), s).realizedPnl == Lookup(book, s).realizedPnl
  {
  }

  /** A BUY, or a SELL that does not exceed the long quantity, executed at the
      mark price leaves the record's total profit at that mark unchanged: the
      weighted basis and the booked profit account for every share. */
  lemma TotalPnlConservedAtFillPrice(p: Position, side: Side, price: real, qty: int)
    requires side == Buy ==> p.quantity + qty != 0
    requires side == Sell ==> 0 < qty <= p.quantity
    ensures TotalPnl(Transition(p, side, price, qty), price) == TotalPnl(p, price)
  {
    var p' := Transition(p, side, price, qty);
    match side
    case Buy =>
      calc {
        TotalPnl(p', price);
        p.realizedPnl + price * p'.quantity as real - p'.avgCost * p'.quantity as real;
        p.realizedPnl + price * (p.quantity + qty) as real
          - (p.quantity as real * p.avgCost + qty as real * price);
        p.realizedPnl + price * p.quantity as real + price * qty as real
          - (p.quantity as real * p.avgCost + qty as real * price);
        TotalPnl(p, price);
      }
    case Sell =>
      assert Min(p.quantity, qty) == qty;
      if p'.quantity == 0 {
        assert p.quantity == qty;
      }
    case Unknown =>
  }

  /** The total profit of a symbol's record is its booked profit plus what
      get_unrealized_pnl reports for it, at any mark. */
  lemma TotalIsRealizedPlusUnrealized(book: Book, s: string, mark: real)
    ensures TotalPnl(Lookup(book, s), mark)
              == Lookup(book, s).realizedPnl + UnrealizedPnl(book, s, mark)
  {
  }

  /** on_fill at the mark price conserves booked plus unrealized profit for
      the filled symbol, for a BUY that does not end flat and for a SELL that
      does not exceed the long quantity. */
  lemma FillConservesProfitAtFillPrice(book: Book, f: Fill)
    requires SideOf(f.action) == Buy ==> Lookup(book, f.symbol).quantity + f.quantity != 0
    requires SideOf(f.action) == Sell ==> 0 < f.quantity <= Lookup(book, f.symbol).quantity
    ensures Lookup(ApplyFill(book, f), f.symbol).realizedPnl
              + UnrealizedPnl(ApplyFill(book, f), f.symbol, f.price)
            == Lookup(book, f.symbol).realizedPnl + UnrealizedPnl(book, f.symbol, f.price)
  {
    TotalIsRealizedPlusUnrealized(book, f.symbol, f.price);
    TotalIsRealizedPlusUnrealized(ApplyFill(book, f), f.symbol, f.price);
    TotalPnlConservedAtFillPrice(Lookup(book, f.symbol), SideOf(f.action), f.price, f.quantity);
  }

  /** Quantity of `s` bought by the fills on `s`. */
  function QtyOf(fills: seq<Fill>, s: string): int
    decreases |fills|
  {
    if |fills| == 0 then 0
    else
      var f := fills[|fills| - 1];
      QtyOf(fills[..|fills| - 1], s) + (if f.symbol == s then f.quantity else 0)
  }

  /** Money spent on `s` by the fills on `s`. */
  function CostOf(fills: seq<Fill>, s: string): real
    decreases |fills|
  {
    if |fills| == 0 then 0.0
    else
      var f := fills[|fills| - 1];
      CostOf(fills[..|fills| - 1], s) + (if f.symbol == s then Outlay(f) else 0.0)
  }

  /** Money a fill moves: quantity times price. */
  function Outlay(f: Fill): real
  {
    f.quantity as real * f.price
  }

  /** Every fill on `s` is a BUY of a positive quantity. */
  predicate OnlyBuys(fills: seq<Fill>, s: string)
  {
    forall i :: 0 <= i < |fills| && fills[i].symbol == s ==>
      SideOf(fills[i].action) == Buy && fills[i].quantity > 0
  }

  /** Starting flat, a run of BUYs on `s` (interleaved with anything on other
      symbols) leaves the quantity equal to the total bought, the cost basis
      equal to the volume-weighted price, and the realized profit untouched. */
  lemma BuysGiveVolumeWeightedCost(book: Book, fills: seq<Fill>, s: string)
    requires Lookup(book, s).quantity == 0
    requires OnlyBuys(fills, s)
    ensures Lookup(ApplyFills(book, fills), s).quantity == QtyOf(fills, s)
    ensures Lookup(ApplyFills(book, fills), s).realizedPnl == Lookup(book, s).realizedPnl
    ensures QtyOf(fills, s) > 0 ==>
      Lookup(ApplyFills(book, fills), s).avgCost == CostOf(fills, s) / QtyOf(fills, s) as real
  {
    BuysKeepCostBasis(book, fills, s);
    if QtyOf(fills, s) > 0 {
      BasisIsAverage(Lookup(ApplyFills(book, fills), s), QtyOf(fills, s), CostOf(fills, s));
    }
  }

  /** A positive holding whose basis accounts for `cost` has the average
      price `cost / qty` as its basis. */
  lemma BasisIsAverage(p: Position, qty: int, cost: real)
    requires BasisAccountsFor(p, qty, cost) && qty > 0
    ensures p.avgCost == cost / qty as real
  {
    DivideOut(p.avgCost, qty as real, cost);
  }

  lemma DivideOut(a: real, q: real, c: real)
    requires q != 0.0 && a * q == c
    ensures a == c / q
  {
  }

  /** A holding of `qty` shares whose basis accounts for `cost` spent. */
  predicate BasisAccountsFor(p: Position, qty: int, cost: real)
  {
    p.quantity == qty >= 0 && p.avgCost * qty as real == cost
  }

  /** One BUY of a positive quantity onto a holding adds the fill's outlay to
      the money its basis accounts for. */
  lemma BuyStepAddsCost(p: Position, f: Fill, qty: int, cost: real)
    requires BasisAccountsFor(p, qty, cost) && f.quantity > 0
    ensures BasisAccountsFor(Transition(p, Buy, f.price, f.quantity), qty + f.quantity, cost + Outlay(f))
    ensures Transition(p, Buy, f.price, f.quantity).realizedPnl == p.realizedPnl
  {
    var p' := Transition(p, Buy, f.price, f.quantity);
    assert p'.quantity != 0;
    assert p'.avgCost * p'.quantity as real == p.quantity as real * p.avgCost + f.quantity as real * f.price;
  }

  /** The invariant behind BuysGiveVolumeWeightedCost: quantity times basis is
      the money spent. */
  lemma {:induction false} BuysKeepCostBasis(book: Book, fills: seq<Fill>, s: string)
    requires Lookup(book, s).quantity == 0
    requires OnlyBuys(fills, s)
    ensures BasisAccountsFor(Lookup(ApplyFills(book, fills), s), QtyOf(fills, s), CostOf(fills, s))
    ensures Lookup(ApplyFills(book, fills), s).realizedPnl == Lookup(book, s).realizedPnl
    decreases |fills|
  {
    if |fills| == 0 {
      assert QtyOf(fills, s) == 0 && CostOf(fills, s) == 0.0;
    } else {
      var init := fills[..|fills| - 1];
      var f := fills[|fills| - 1];
      assert OnlyBuys(init, s) by {
        forall i | 0 <= i < |init| && init[i].symbol == s
          ensures SideOf(init[i].action) == Buy && init[i].quantity > 0
        {
          assert init[i] == fills[i];
        }
      }
      BuysKeepCostBasis(book, init, s);
      var before := Lookup(ApplyFills(book, init), s);
      var after := Lookup(ApplyFills(book, fills), s);
      assert ApplyFills(book, fills) == ApplyFill(ApplyFills(book, init), f);
      if f.symbol == s {
        assert SideOf(fills[|fills| - 1].action) == Buy && fills[|fills| - 1].quantity > 0;
        assert after == Transition(before, Buy, f.price, f.quantity);
        BuyStepAddsCost(before, f, QtyOf(init, s), CostOf(init, s));
        assert QtyOf(fills, s) == QtyOf(init, s) + f.quantity;
        assert CostOf(fills, s) == CostOf(init, s) + Outlay(f);
      } else {
        assert after == before;
        assert QtyOf(fills, s) == QtyOf(init, s);
        assert CostOf(fills, s) == CostOf(init, s);
      }
    }
  }

  /** Two buys, then a partial and a full close: 10@100 and 10@110, then
      SELL 15@120 and SELL 5@130. */
  lemma WorkedExample()
    ensures
      var b1 := ApplyFill(map[], Fill("X", "BUY", 100.0, 10));
      var b2 := ApplyFill(b1, Fill("X", "BUY", 110.0, 10));
      var b3 := ApplyFill(b2, Fill("X", "SELL", 120.0, 15));
      var b4 := ApplyFill(b3, Fill("X", "SELL", 130.0, 5));
      && b2["X"] == Position(20, 105.0, 0.0)
      && b3["X"] == Position(5, 105.0, 225.0)
      && b4["X"] == Position(0, 0.0, 350.0)
      && UnrealizedPnl(b4, "X", 999.0) == 0.0
  {
    assert Upper("BUY") == "BUY";
    assert Upper("SELL") == "SELL";
  }
}
