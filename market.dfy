/** The market: a registry of stocks keyed by name, an append-only ledger of
    trades, and the two metrics computed from the ledger (volume-weighted
    stock price and the all-share index). The queries are functions of the
    registry and the ledger; the class `Market` holds them and updates them
    in place. */
module MarketModel {
  import opened Wrappers
  import opened Text
  import opened Utils
  import opened Stocks
  import opened Trades

  /** A time window `(t1, t2)` in microseconds. */
  type Period = (int, int)

  /** Five minutes in microseconds. */
  const FiveMinutes: int := 300 * 1000000

  /** `_default_period`: the window of the five minutes up to `now`. */
  function DefaultPeriod(now: int): (p: Period)
    ensures p.0 < p.1 == now && p.1 - p.0 == 300000000
  {
    (now - FiveMinutes, now)
  }

  /** `period or _default_period()`: a given window, else the default one
      evaluated at `now`. */
  function EffectivePeriod(period: Option<Period>, now: int): (p: Period)
    ensures period.Some? ==> p == period.value
    ensures period.None? ==> p.1 == now && p.1 - p.0 == 300000000
  {
    if period.Some? then period.value else DefaultPeriod(now)
  }

  // ---------------------------------------------------------------------
  // Registry
  // ---------------------------------------------------------------------

  /** Every stock is registered under its own name. */
  ghost predicate KeyedByName(stocks: map<string, Stock>) {
    forall n :: n in stocks ==> stocks[n].name == n
  }

  /** `get_stock`: the registered stock, or no value; never an error. */
  function GetStock(stocks: map<string, Stock>, name: string): (r: Option<Stock>)
    ensures r.Some? <==> name in stocks
    ensures r.Some? ==> r.value == stocks[name]
  {
    if name in stocks then Some(stocks[name]) else None
  }

  function StocksNamed(stocks: map<string, Stock>, names: seq<string>): (r: seq<Stock>)
    requires forall i :: 0 <= i < |names| ==> names[i] in stocks
    ensures |r| == |names|
    ensures forall i :: 0 <= i < |names| ==> r[i] == stocks[names[i]]
    decreases |names|
  {
    if names == [] then [] else [stocks[names[0]]] + StocksNamed(stocks, names[1..])
  }

  /** `get_all_stocks`: the registered stocks ordered by name. */
  function SortedStocks(stocks: map<string, Stock>): (r: seq<Stock>)
    ensures |r| == |stocks|
    ensures forall s :: s in r <==> s in stocks.Values
  {
    var names := SortedNames(stocks.Keys);
    assert |stocks.Keys| == |stocks|;
    StocksNamedMembers(stocks, names);
    StocksNamed(stocks, names)
  }

  /** Naming every key of the registry lists every registered stock. */
  lemma StocksNamedMembers(stocks: map<string, Stock>, names: seq<string>)
    requires forall i :: 0 <= i < |names| ==> names[i] in stocks
    requires forall n :: n in stocks ==> n in names
    ensures forall s :: s in StocksNamed(stocks, names) <==> s in stocks.Values
  {
    var r := StocksNamed(stocks, names);
    forall s
      ensures s in r <==> s in stocks.Values
    {
      if s in stocks.Values {
        var n :| n in stocks && stocks[n] == s;
        var i :| 0 <= i < |names| && names[i] == n;
        assert r[i] == s;
      }
    }
  }

  /** The listing holds each registered stock exactly once, in ascending
      order of name. */
  lemma SortedStocksPermutation(stocks: map<string, Stock>)
    requires KeyedByName(stocks)
    ensures |SortedStocks(stocks)| == |stocks|
    ensures forall s :: s in SortedStocks(stocks) <==> s in stocks.Values
    ensures forall i, j :: 0 <= i < j < |SortedStocks(stocks)| ==>
      Less(SortedStocks(stocks)[i].name, SortedStocks(stocks)[j].name)
  {
    var names := SortedNames(stocks.Keys);
    var r := SortedStocks(stocks);
    forall i, j | 0 <= i < j < |r|
      ensures Less(r[i].name, r[j].name)
    {
      assert r[i] == stocks[names[i]] && r[j] == stocks[names[j]];
    }
  }

  lemma SortedWhenKeyed(stocks: map<string, Stock>)
    ensures KeyedByName(stocks) ==> forall i, j :: 0 <= i < j < |SortedStocks(stocks)| ==>
      Less(SortedStocks(stocks)[i].name, SortedStocks(stocks)[j].name)
  {
    if KeyedByName(stocks) {
      SortedStocksPermutation(stocks);
    }
  }

  /** Any listing of the registry by ascending name is the one
      `SortedStocks` returns, whatever order the stocks were added in. */
  lemma SortedStocksUnique(stocks: map<string, Stock>, listing: seq<Stock>)
    requires KeyedByName(stocks)
    requires forall s :: s in listing <==> s in stocks.Values
    requires forall i, j :: 0 <= i < j < |listing| ==> Less(listing[i].name, listing[j].name)
    ensures listing == SortedStocks(stocks)
  {
    var names := SortedNames(stocks.Keys);
    var given := seq(|listing|, i requires 0 <= i < |listing| => listing[i].name);
    forall x
      ensures x in given <==> x in names
    {
      if x in given {
        var i :| 0 <= i < |given| && given[i] == x;
        assert listing[i] in stocks.Values;
      }
      if x in names {
        assert stocks[x] in listing;
        var i :| 0 <= i < |listing| && listing[i] == stocks[x];
        assert given[i] == x;
      }
    }
    SortedUnique(given, names);
    forall i | 0 <= i < |listing|
      ensures listing[i] == stocks[names[i]]
    {
      assert listing[i] in stocks.Values;
    }
  }

  // ---------------------------------------------------------------------
  // Trade validation
  // ---------------------------------------------------------------------

  /** `trade_type in [Trade.BUY, Trade.SELL]`. */
  predicate IsTradeType(tradeType: int) {
    tradeType == BUY || tradeType == SELL
  }

  /** The checks of `record_trade`, in order; the first that fails decides the
      error. */
  function TradeCheck(stocks: map<string, Stock>, stock: string, tradeType: int, quantity: int, price: int): (r: Outcome<Error>)
    ensures r.Pass? <==> stock in stocks && IsTradeType(tradeType) && quantity > 0 && price >= 0
    ensures stock !in stocks ==> r == Fail(UnknownStock(stock))
    ensures stock in stocks && !IsTradeType(tradeType) ==> r == Fail(InvalidType(tradeType))
    ensures stock in stocks && IsTradeType(tradeType) && quantity <= 0 ==> r == Fail(InvalidQuantity(quantity))
    ensures stock in stocks && IsTradeType(tradeType) && quantity > 0 && price < 0 ==>
      r == Fail(InvalidPrice(price as real))
  {
    var known := AssertTrue(stock in stocks, UnknownStock(stock));
    var typed := AssertTrue(IsTradeType(tradeType), InvalidType(tradeType));
    var counted := AssertTrue(quantity > 0, InvalidQuantity(quantity));
    var priced := AssertTrue(price >= 0, InvalidPrice(price as real));
    if known.Fail? then known
    else if typed.Fail? then typed
    else if counted.Fail? then counted
    else priced
  }

  /** A trade that passed the checks of `record_trade`. */
  predicate ValidTrade(t: Trade) {
    IsTradeType(t.tradeType) && t.quantity > 0 && t.price >= 0
  }

  /** What the market keeps true of its state: stocks under their own names,
      only checked trades of registered stocks in the ledger, ids strictly
      increasing along the ledger and below the next id to be handed out. */
  ghost predicate ValidLedger(stocks: map<string, Stock>, trades: seq<Trade>, nextId: int)
    ensures ValidLedger(stocks, trades, nextId) ==> PositiveQuantities(trades)
  {
    && KeyedByName(stocks)
    && (forall i :: 0 <= i < |trades| ==>
          ValidTrade(trades[i]) && trades[i].stock in stocks && trades[i].id < nextId)
    && (forall i, j :: 0 <= i < j < |trades| ==> trades[i].id < trades[j].id)
  }

  /** In a valid ledger an id names at most one trade, and every id is below
      the next one to be handed out. */
  lemma LedgerIdsIdentify(stocks: map<string, Stock>, trades: seq<Trade>, nextId: int, i: nat, j: nat)
    requires ValidLedger(stocks, trades, nextId)
    requires i < |trades| && j < |trades| && trades[i].id == trades[j].id
    ensures i == j && trades[i].id < nextId
  {
  }

  // ---------------------------------------------------------------------
  // Trade queries
  // ---------------------------------------------------------------------

  /** `include_trade` of `get_trades`: the right stock and, when a window is
      given, a timestamp in `[t1, t2)`. */
  predicate IncludeTrade(t: Trade, stock: string, period: Option<Period>)
    ensures IncludeTrade(t, stock, period) ==> t.stock == stock
    ensures period.None? ==> (IncludeTrade(t, stock, period) <==> t.stock == stock)
    ensures period.Some? && period.value.1 <= period.value.0 ==> !IncludeTrade(t, stock, period)
  {
    t.stock == stock && (period.Some? ==> period.value.0 <= t.timestamp < period.value.1)
  }

  /** `get_trades`: the trades of the ledger that `IncludeTrade` keeps, in
      ledger order. */
  function SelectTrades(ledger: seq<Trade>, stock: string, period: Option<Period>): (r: seq<Trade>)
    ensures |r| <= |ledger|
    ensures forall t :: t in r <==> t in ledger && IncludeTrade(t, stock, period)
    decreases |ledger|
  {
    if ledger == [] then []
    else
      (if IncludeTrade(ledger[0], stock, period) then [ledger[0]] else [])
      + SelectTrades(ledger[1..], stock, period)
  }

  /** Selecting from a concatenation selects from each part, keeping the
      parts in order; with the one-trade case this fixes the result as the
      order-preserving sub-sequence of kept trades. */
  lemma {:induction false} SelectTradesAppend(a: seq<Trade>, b: seq<Trade>, stock: string, period: Option<Period>)
    ensures SelectTrades(a + b, stock, period) == SelectTrades(a, stock, period) + SelectTrades(b, stock, period)
    decreases |a|
  {
    if a == [] {
      assert a + b == b;
    } else {
      assert (a + b)[1..] == a[1..] + b;
      SelectTradesAppend(a[1..], b, stock, period);
    }
  }

  lemma SelectTradesSingle(t: Trade, stock: string, period: Option<Period>)
    ensures SelectTrades([t], stock, period) == if IncludeTrade(t, stock, period) then [t] else []
  {
    assert [t][1..] == [];
  }

  /** Appending a trade to the ledger extends every query by that trade
      exactly when the query keeps it. */
  lemma SelectTradesExtend(ledger: seq<Trade>, t: Trade, stock: string, period: Option<Period>)
    ensures SelectTrades(ledger + [t], stock, period)
         == SelectTrades(ledger, stock, period) + (if IncludeTrade(t, stock, period) then [t] else [])
  {
    SelectTradesAppend(ledger, [t], stock, period);
    SelectTradesSingle(t, stock, period);
  }

  /** A windowed query is the unbounded query (all trades of the stock)
      narrowed to the window. */
  lemma {:induction false} SelectTradesNarrows(ledger: seq<Trade>, stock: string, window: Period)
    ensures SelectTrades(ledger, stock, Some(window))
         == SelectTrades(SelectTrades(ledger, stock, None), stock, Some(window))
    decreases |ledger|
  {
    if ledger != [] {
      SelectTradesNarrows(ledger[1..], stock, window);
      var head := if IncludeTrade(ledger[0], stock, None) then [ledger[0]] else [];
      SelectTradesAppend(head, SelectTrades(ledger[1..], stock, None), stock, Some(window));
      if head != [] {
        SelectTradesSingle(ledger[0], stock, Some(window));
      }
    }
  }

  // ---------------------------------------------------------------------
  // Volume-weighted stock price
  // ---------------------------------------------------------------------

  /** `sum(trade.get_total_amount() for trade in ts)`. */
  function SumAmount(ts: seq<Trade>): (r: int)
    ensures |ts| == 1 ==> r == ts[0].TotalAmount()
    decreases |ts|
  {
    if ts == [] then 0 else ts[0].TotalAmount() + SumAmount(ts[1..])
  }

  /** `sum(trade.get_quantity() for trade in ts)`. */
  function SumQuantity(ts: seq<Trade>): (r: int)
    ensures |ts| == 1 ==> r == ts[0].quantity
    decreases |ts|
  {
    if ts == [] then 0 else ts[0].quantity + SumQuantity(ts[1..])
  }

  /** Both sums add up over a split of the trades, so they do not depend on
      how the selection is grouped. */
  lemma {:induction false} SumsAppend(a: seq<Trade>, b: seq<Trade>)
    ensures SumAmount(a + b) == SumAmount(a) + SumAmount(b)
    ensures SumQuantity(a + b) == SumQuantity(a) + SumQuantity(b)
    decreases |a|
  {
    if a == [] {
      assert a + b == b;
    } else {
      assert (a + b)[1..] == a[1..] + b;
      SumsAppend(a[1..], b);
    }
  }

  ghost predicate PositiveQuantities(ledger: seq<Trade>) {
    forall i :: 0 <= i < |ledger| ==> ledger[i].quantity > 0
  }

  lemma {:induction false} SumQuantityPositive(ts: seq<Trade>)
    requires ts != [] && forall t :: t in ts ==> t.quantity > 0
    ensures SumQuantity(ts) > 0
    decreases |ts|
  {
    if |ts| > 1 {
      assert forall t :: t in ts[1..] ==> t in ts;
      SumQuantityPositive(ts[1..]);
    }
  }

  /** `calculate_vwsp`: over the trades of `stock` in the window (the default
      five minutes when none is given), total amount over total quantity, or
      no value when there are no such trades. */
  function Vwsp(ledger: seq<Trade>, stock: string, period: Option<Period>, now: int): (r: Option<real>)
    requires PositiveQuantities(ledger)
    ensures var ts := SelectTrades(ledger, stock, Some(EffectivePeriod(period, now)));
      && (r.None? <==> ts == [])
      && (r.Some? ==> r.value * SumQuantity(ts) as real == SumAmount(ts) as real)
  {
    var window := Some(EffectivePeriod(period, now));
    var ts := SelectTrades(ledger, stock, window);
    if ts == [] then None
    else
      SelectedQuantitiesPositive(ledger, stock, window);
      var price := WeightedPrice(ts);
      assert price * SumQuantity(ts) as real == SumAmount(ts) as real;
      Some(price)
  }

  /** The price is the total amount over the total quantity of the selection. */
  lemma VwspIsQuotient(ledger: seq<Trade>, stock: string, period: Option<Period>, now: int)
    requires PositiveQuantities(ledger)
    ensures var ts := SelectTrades(ledger, stock, Some(EffectivePeriod(period, now)));
      ts != [] ==> SumQuantity(ts) > 0 && Vwsp(ledger, stock, period, now) == Some(SumAmount(ts) as real / SumQuantity(ts) as real)
  {
    var ts := SelectTrades(ledger, stock, Some(EffectivePeriod(period, now)));
    if ts != [] {
      SelectedQuantitiesPositive(ledger, stock, Some(EffectivePeriod(period, now)));
      SumQuantityPositive(ts);
    }
  }

  /** `float(top) / bottom` for a non-empty list of trades. */
  function WeightedPrice(ts: seq<Trade>): (r: real)
    requires ts != [] && forall t :: t in ts ==> t.quantity > 0
    ensures r * SumQuantity(ts) as real == SumAmount(ts) as real
  {
    SumQuantityPositive(ts);
    QuotientTimesDivisor(SumAmount(ts) as real, SumQuantity(ts) as real);
    SumAmount(ts) as real / SumQuantity(ts) as real
  }

  lemma SelectedQuantitiesPositive(ledger: seq<Trade>, stock: string, period: Option<Period>)
    requires PositiveQuantities(ledger)
    ensures forall t :: t in SelectTrades(ledger, stock, period) ==> t.quantity > 0
  {
    forall t | t in SelectTrades(ledger, stock, period)
      ensures t.quantity > 0
    {
      var i :| 0 <= i < |ledger| && ledger[i] == t;
    }
  }

  lemma QuotientTimesDivisor(a: real, q: real)
    requires q != 0.0
    ensures (a / q) * q == a
  {
  }

  lemma MulMonotonic(a: int, b: int, q: int)
    requires a <= b && q >= 0
    ensures a * q <= b * q
  {
    assert (b - a) * q >= 0;
  }

  lemma Distribute(k: int, x: int, y: int)
    ensures k * (x + y) == k * x + k * y
  {
  }

  lemma {:induction false} SumAmountAtLeast(ts: seq<Trade>, lo: int)
    requires forall t :: t in ts ==> t.quantity > 0 && lo <= t.price
    ensures lo * SumQuantity(ts) <= SumAmount(ts)
    decreases |ts|
  {
    if ts != [] {
      var rest := ts[1..];
      assert forall t :: t in rest ==> t in ts;
      SumAmountAtLeast(rest, lo);
      var q, p := ts[0].quantity, ts[0].price;
      MulMonotonic(lo, p, q);
      Distribute(lo, q, SumQuantity(rest));
    }
  }

  lemma {:induction false} SumAmountAtMost(ts: seq<Trade>, hi: int)
    requires forall t :: t in ts ==> t.quantity > 0 && t.price <= hi
    ensures SumAmount(ts) <= hi * SumQuantity(ts)
    decreases |ts|
  {
    if ts != [] {
      var rest := ts[1..];
      assert forall t :: t in rest ==> t in ts;
      SumAmountAtMost(rest, hi);
      var q, p := ts[0].quantity, ts[0].price;
      MulMonotonic(p, hi, q);
      Distribute(hi, q, SumQuantity(rest));
    }
  }

  lemma NonNegativeFactor(x: real, q: real)
    requires q > 0.0 && x * q >= 0.0
    ensures x >= 0.0
  {
  }

  /** Bounds on a total in units of a positive count are bounds on the
      quotient. */
  lemma QuotientBounds(a: int, q: int, lo: int, hi: int)
    requires q > 0 && lo * q <= a <= hi * q
    ensures lo as real <= a as real / q as real <= hi as real
  {
    var v, qr := a as real / q as real, q as real;
    assert v * qr == a as real;
    assert (lo * q) as real == lo as real * qr;
    assert (hi * q) as real == hi as real * qr;
    assert (v - lo as real) * qr == a as real - lo as real * qr;
    assert (hi as real - v) * qr == hi as real * qr - a as real;
    NonNegativeFactor(v - lo as real, qr);
    NonNegativeFactor(hi as real - v, qr);
  }

  /** The volume-weighted price lies between the lowest and the highest
      price traded in the window. */
  lemma VwspWithinPrices(ledger: seq<Trade>, stock: string, period: Option<Period>, now: int, lo: int, hi: int)
    requires PositiveQuantities(ledger)
    requires forall t :: t in SelectTrades(ledger, stock, Some(EffectivePeriod(period, now))) ==> lo <= t.price <= hi
    ensures Vwsp(ledger, stock, period, now).Some? ==>
      lo as real <= Vwsp(ledger, stock, period, now).value <= hi as real
  {
    var ts := SelectTrades(ledger, stock, Some(EffectivePeriod(period, now)));
    if ts != [] {
      SumAmountAtLeast(ts, lo);
      SumAmountAtMost(ts, hi);
      SumQuantityPositive(ts);
      QuotientBounds(SumAmount(ts), SumQuantity(ts), lo, hi);
    }
  }

  /** With no negative price in the window the volume-weighted price is not
      negative. */
  lemma VwspNonNegative(ledger: seq<Trade>, stock: string, period: Option<Period>, now: int)
    requires PositiveQuantities(ledger)
    requires forall i :: 0 <= i < |ledger| ==> ledger[i].price >= 0
    ensures Vwsp(ledger, stock, period, now).Some? ==> Vwsp(ledger, stock, period, now).value >= 0.0
  {
    var ts := SelectTrades(ledger, stock, Some(EffectivePeriod(period, now)));
    VwspWithinPrices(ledger, stock, period, now, 0, MaxPrice(ts));
  }

  /** A price no trade of `ts` exceeds. */
  ghost function MaxPrice(ts: seq<Trade>): (m: int)
    ensures forall t :: t in ts ==> t.price <= m
    decreases |ts|
  {
    if ts == [] then 0
    else
      var rest := MaxPrice(ts[1..]);
      assert forall t :: t in ts ==> t == ts[0] || t in ts[1..];
      if ts[0].price > rest then ts[0].price else rest
  }

  // ---------------------------------------------------------------------
  // All-share index
  // ---------------------------------------------------------------------

  /** `[self.calculate_vwsp(stock, period) for stock in stocks]`, the same
      window for every stock. */
  function AllVwsps(ledger: seq<Trade>, names: seq<string>, window: Period, now: int): (r: seq<Option<real>>)
    requires PositiveQuantities(ledger)
    ensures |r| == |names|
    ensures forall i :: 0 <= i < |names| ==> r[i] == Vwsp(ledger, names[i], Some(window), now)
    decreases |names|
  {
    if names == [] then []
    else [Vwsp(ledger, names[0], Some(window), now)] + AllVwsps(ledger, names[1..], window, now)
  }

  /** `filter(lambda val: val != None, vwsps)`. */
  function PresentValues(vs: seq<Option<real>>): (r: seq<real>)
    ensures |r| <= |vs|
    ensures forall x :: x in r <==> Some(x) in vs
    decreases |vs|
  {
    if vs == [] then []
    else (if vs[0].Some? then [vs[0].value] else []) + PresentValues(vs[1..])
  }

  lemma {:induction false} PresentValuesAppend(a: seq<Option<real>>, b: seq<Option<real>>)
    ensures PresentValues(a + b) == PresentValues(a) + PresentValues(b)
    decreases |a|
  {
    if a == [] {
      assert a + b == b;
    } else {
      assert (a + b)[1..] == a[1..] + b;
      PresentValuesAppend(a[1..], b);
    }
  }

  /** No stock has a value exactly when no stock has a trade in the window. */
  lemma {:induction false} NoValuesIffNoTrades(ledger: seq<Trade>, names: seq<string>, window: Period, now: int)
    requires PositiveQuantities(ledger)
    ensures PresentValues(AllVwsps(ledger, names, window, now)) == []
        <==> forall n :: n in names ==> SelectTrades(ledger, n, Some(window)) == []
    decreases |names|
  {
    if names != [] {
      NoValuesIffNoTrades(ledger, names[1..], window, now);
      var vs := AllVwsps(ledger, names, window, now);
      assert vs[1..] == AllVwsps(ledger, names[1..], window, now);
      assert PresentValues(vs) == (if vs[0].Some? then [vs[0].value] else []) + PresentValues(vs[1..]);
      assert vs[0].None? <==> SelectTrades(ledger, names[0], Some(window)) == [];
      assert forall n :: n in names <==> n == names[0] || n in names[1..];
    }
  }

  /** With no negative price in the ledger every value entering the mean is
      non-negative. */
  lemma PresentVwspsNonNegative(ledger: seq<Trade>, names: seq<string>, window: Period, now: int)
    requires PositiveQuantities(ledger)
    requires forall i :: 0 <= i < |ledger| ==> ledger[i].price >= 0
    ensures forall x :: x in PresentValues(AllVwsps(ledger, names, window, now)) ==> x >= 0.0
  {
    var vs := AllVwsps(ledger, names, window, now);
    forall x | x in PresentValues(vs)
      ensures x >= 0.0
    {
      var i :| 0 <= i < |vs| && vs[i] == Some(x);
      VwspNonNegative(ledger, names[i], Some(window), now);
    }
  }

  lemma PresentProductNonNegative(ledger: seq<Trade>, names: seq<string>, window: Period, now: int)
    requires PositiveQuantities(ledger)
    ensures (forall i :: 0 <= i < |ledger| ==> ledger[i].price >= 0) ==>
      Product(PresentValues(AllVwsps(ledger, names, window, now))) >= 0.0
  {
    if forall i :: 0 <= i < |ledger| ==> ledger[i].price >= 0 {
      var values := PresentValues(AllVwsps(ledger, names, window, now));
      PresentVwspsNonNegative(ledger, names, window, now);
      forall i | 0 <= i < |values|
        ensures values[i] >= 0.0
      {
        assert values[i] in values;
      }
      ProductNonNegative(values);
    }
  }

  /** `calculate_gbce_asi`: the window is fixed once, every registered stock's
      volume-weighted price is taken over it, stocks without one are dropped
      and the geometric mean of the rest is returned. The registry is visited
      in name order; `GbceAsiOrderIndependent` shows any other order gives the
      same mean. */
  function GbceAsi(stocks: map<string, Stock>, ledger: seq<Trade>, period: Option<Period>, now: int): (r: Option<Mean>)
    requires PositiveQuantities(ledger)
    ensures r.None? <==>
      forall n :: n in stocks ==> SelectTrades(ledger, n, Some(EffectivePeriod(period, now))) == []
    ensures r.Some? ==> 1 <= r.value.count <= |stocks|
    ensures r.Some? && (forall i :: 0 <= i < |ledger| ==> ledger[i].price >= 0) ==> r.value.product >= 0.0
  {
    var window := EffectivePeriod(period, now);
    var names := SortedNames(stocks.Keys);
    var values := PresentValues(AllVwsps(ledger, names, window, now));
    NoValuesIffNoTrades(ledger, names, window, now);
    assert |stocks.Keys| == |stocks|;
    PresentProductNonNegative(ledger, names, window, now);
    GeometricMeanOf(values)
  }

  /** Without a period the index covers the five minutes before `now`. */
  lemma GbceAsiDefaultPeriod(stocks: map<string, Stock>, ledger: seq<Trade>, now: int)
    requires PositiveQuantities(ledger)
    ensures GbceAsi(stocks, ledger, None, now) == GbceAsi(stocks, ledger, Some(DefaultPeriod(now)), now)
  {
  }

  /** Before any trade there is no index, whatever the stocks and the period. */
  lemma GbceAsiNoTrades(stocks: map<string, Stock>, period: Option<Period>, now: int)
    ensures GbceAsi(stocks, [], period, now) == None
  {
  }

  ghost predicate Distinct(s: seq<string>) {
    forall i, j :: 0 <= i < j < |s| ==> s[i] != s[j]
  }

  lemma {:induction false} DistinctOccursOnce(s: seq<string>, x: string)
    requires Distinct(s)
    ensures multiset(s)[x] == if x in s then 1 else 0
    decreases |s|
  {
    if s != [] {
      assert s == [s[0]] + s[1..];
      assert Distinct(s[1..]) by {
        forall i, j | 0 <= i < j < |s[1..]|
          ensures s[1..][i] != s[1..][j]
        {
          assert s[1..][i] == s[i + 1] && s[1..][j] == s[j + 1];
        }
      }
      DistinctOccursOnce(s[1..], x);
      forall k | 0 <= k < |s[1..]|
        ensures s[1..][k] != s[0]
      {
        assert s[1..][k] == s[k + 1];
      }
      assert s[0] !in s[1..];
    }
  }

  /** The values that enter the mean when the stocks `names` are visited. */
  function ValuesOf(ledger: seq<Trade>, names: seq<string>, window: Period, now: int): seq<real>
    requires PositiveQuantities(ledger)
  {
    PresentValues(AllVwsps(ledger, names, window, now))
  }

  lemma {:induction false} ValuesOfAppend(ledger: seq<Trade>, a: seq<string>, b: seq<string>, window: Period, now: int)
    requires PositiveQuantities(ledger)
    ensures ValuesOf(ledger, a + b, window, now) == ValuesOf(ledger, a, window, now) + ValuesOf(ledger, b, window, now)
    decreases |a|
  {
    AllVwspsAppend(ledger, a, b, window, now);
    PresentValuesAppend(AllVwsps(ledger, a, window, now), AllVwsps(ledger, b, window, now));
  }

  lemma {:induction false} AllVwspsAppend(ledger: seq<Trade>, a: seq<string>, b: seq<string>, window: Period, now: int)
    requires PositiveQuantities(ledger)
    ensures AllVwsps(ledger, a + b, window, now) == AllVwsps(ledger, a, window, now) + AllVwsps(ledger, b, window, now)
  {
  }

  lemma {:induction false} ValuesOfPermutation(ledger: seq<Trade>, a: seq<string>, b: seq<string>, window: Period, now: int)
    requires PositiveQuantities(ledger)
    requires multiset(a) == multiset(b)
    ensures multiset(ValuesOf(ledger, a, window, now)) == multiset(ValuesOf(ledger, b, window, now))
    decreases |a|
  {
    if a == [] {
      assert |b| == |multiset(b)| == 0;
    } else {
      var k := IndexOfLast(a, b);
      ValuesOfPermutation(ledger, a[..|a| - 1], b[..k] + b[k + 1..], window, now);
      ValuesOfSplit(ledger, a, b, k, window, now);
      MoveToMiddle(ValuesOf(ledger, a[..|a| - 1], window, now), ValuesOf(ledger, [a[|a| - 1]], window, now),
        ValuesOf(ledger, b[..k], window, now), ValuesOf(ledger, b[k + 1..], window, now));
    }
  }

  /** The values of `a` split off its last name, and those of `b` split
      around that same name at `k`. */
  lemma ValuesOfSplit(ledger: seq<Trade>, a: seq<string>, b: seq<string>, k: nat, window: Period, now: int)
    requires PositiveQuantities(ledger)
    requires a != [] && k < |b| && b == b[..k] + [a[|a| - 1]] + b[k + 1..]
    ensures var x := ValuesOf(ledger, [a[|a| - 1]], window, now);
      && ValuesOf(ledger, a, window, now) == ValuesOf(ledger, a[..|a| - 1], window, now) + x
      && ValuesOf(ledger, b, window, now) == ValuesOf(ledger, b[..k], window, now) + x + ValuesOf(ledger, b[k + 1..], window, now)
      && ValuesOf(ledger, b[..k] + b[k + 1..], window, now) == ValuesOf(ledger, b[..k], window, now) + ValuesOf(ledger, b[k + 1..], window, now)
  {
    var x, b1, b2 := [a[|a| - 1]], b[..k], b[k + 1..];
    assert a == a[..|a| - 1] + x;
    ValuesOfAppend(ledger, a[..|a| - 1], x, window, now);
    ValuesOfAppend(ledger, b1 + x, b2, window, now);
    ValuesOfAppend(ledger, b1, x, window, now);
    ValuesOfAppend(ledger, b1, b2, window, now);
  }

  /** Re-inserting `x` between the two parts of a split permutation of `r`. */
  lemma MoveToMiddle<T>(r: seq<T>, x: seq<T>, b1: seq<T>, b2: seq<T>)
    requires multiset(r) == multiset(b1 + b2)
    ensures multiset(r + x) == multiset(b1 + x + b2)
  {
    calc {
      multiset(r + x);
      multiset(r) + multiset(x);
      multiset(b1) + multiset(b2) + multiset(x);
      multiset(b1) + multiset(x) + multiset(b2);
      multiset(b1 + x + b2);
    }
  }

  /** Visiting the registry in any order, each stock once (as a dictionary's
      insertion order does), gives the same index. */
  lemma GbceAsiOrderIndependent(stocks: map<string, Stock>, ledger: seq<Trade>, period: Option<Period>, now: int, order: seq<string>)
    requires PositiveQuantities(ledger)
    requires Distinct(order) && forall n :: n in order <==> n in stocks
    ensures GeometricMeanOf(PresentValues(AllVwsps(ledger, order, EffectivePeriod(period, now), now)))
         == GbceAsi(stocks, ledger, period, now)
  {
    var window := EffectivePeriod(period, now);
    var names := SortedNames(stocks.Keys);
    assert Distinct(names) by {
      forall i, j | 0 <= i < j < |names|
        ensures names[i] != names[j]
      {
        LessIrreflexive(names[i]);
      }
    }
    forall x
      ensures multiset(order)[x] == multiset(names)[x]
    {
      DistinctOccursOnce(order, x);
      DistinctOccursOnce(names, x);
    }
    assert multiset(order) == multiset(names);
    ValuesOfPermutation(ledger, order, names, window, now);
    var p, q := PresentValues(AllVwsps(ledger, order, window, now)), PresentValues(AllVwsps(ledger, names, window, now));
    assert |p| == |multiset(p)| == |multiset(q)| == |q|;
    ProductPermutation(p, q);
  }

  // ---------------------------------------------------------------------
  // The market object
  // ---------------------------------------------------------------------

  class Market {
    /** `self.stocks`: the registry, keyed by stock name. */
    var stocks: map<string, Stock>
    /** `self.trades`: the ledger, in order of recording. */
    var trades: seq<Trade>
    /** The source of trade ids, shared with whoever else draws from it. */
    const ids: Counter

    ghost predicate Valid()
      reads this, ids
      ensures Valid() ==> PositiveQuantities(trades)
    {
      ValidLedger(stocks, trades, ids.value)
    }

    constructor (ids: Counter)
      ensures this.ids == ids && stocks == map[] && trades == []
      ensures Valid()
    {
      this.ids := ids;
      stocks := map[];
      trades := [];
    }

    /** `add_stock`: register a stock under its name; a name already taken
        fails and leaves the registry as it was. */
    method AddStock(stock: Stock) returns (r: Outcome<Error>)
      requires Valid()
      modifies this
      ensures Valid() && trades == old(trades)
      ensures r.Fail? <==> stock.name in old(stocks)
      ensures r.Fail? ==> r == Fail(DuplicateStock(stock.name)) && stocks == old(stocks)
      ensures r.Pass? ==> stocks == old(stocks)[stock.name := stock]
      ensures forall n :: n != stock.name ==> GetStock(stocks, n) == GetStock(old(stocks), n)
    {
      var name := stock.name;
      r := AssertTrue(name !in stocks, DuplicateStock(name));
      if r.Pass? {
        stocks := stocks[name := stock];
      }
    }

    /** `record_trade`: check the request, then append one trade carrying the
        next id and the time `now`, and return it. A failed check leaves the
        ledger and the id counter as they were. */
    method RecordTrade(stock: string, tradeType: int, quantity: int, price: int, now: int)
      returns (r: Result<Trade, Error>)
      requires Valid()
      modifies this, ids
      ensures Valid() && stocks == old(stocks)
      ensures var check := TradeCheck(old(stocks), stock, tradeType, quantity, price);
        && (r.Failure? <==> check.Fail?)
        && (r.Failure? ==> r.error == check.error && trades == old(trades) && ids.value == old(ids.value))
      ensures r.Success? ==>
        && r.value == Trade(old(ids.value), stock, tradeType, quantity, price, now)
        && trades == old(trades) + [r.value]
        && ids.value == old(ids.value) + 1
      ensures forall s, p :: (SelectTrades(trades, s, p) ==
        SelectTrades(old(trades), s, p) + (if r.Success? && IncludeTrade(r.value, s, p) then [r.value] else []))
    {
      var check := TradeCheck(stocks, stock, tradeType, quantity, price);
      if check.Fail? {
        return Failure(check.error);
      }
      var tradeId := ids.AutoIncrement();
      var t := Trade(tradeId, stock, tradeType, quantity, price, now);
      ghost var before := trades;
      trades := trades + [t];
      forall s, p
        ensures SelectTrades(trades, s, p) == SelectTrades(before, s, p) + (if IncludeTrade(t, s, p) then [t] else [])
      {
        SelectTradesExtend(before, t, s, p);
      }
      return Success(t);
    }

    /** `get_stock`. */
    function FindStock(name: string): (r: Option<Stock>)
      reads this
      ensures r.Some? <==> name in stocks
      ensures r.Some? ==> r.value == stocks[name]
    {
      GetStock(stocks, name)
    }

    /** `get_all_stocks`. */
    function AllStocks(): (r: seq<Stock>)
      reads this
      ensures |r| == |stocks|
      ensures forall s :: s in r <==> s in stocks.Values
      ensures KeyedByName(stocks) ==> forall i, j :: 0 <= i < j < |r| ==> Less(r[i].name, r[j].name)
    {
      SortedWhenKeyed(stocks);
      SortedStocks(stocks)
    }

    /** `get_trades`. */
    function TradesOf(stock: string, period: Option<Period>): (r: seq<Trade>)
      reads this
      ensures r == SelectTrades(trades, stock, period)
      ensures forall t :: t in r <==> t in trades && IncludeTrade(t, stock, period)
    {
      SelectTrades(trades, stock, period)
    }

    /** `calculate_vwsp`. */
    function CalculateVwsp(stock: string, period: Option<Period>, now: int): (r: Option<real>)
      requires Valid()
      reads this, ids
      ensures r == Vwsp(trades, stock, period, now)
      ensures r.None? <==> TradesOf(stock, Some(EffectivePeriod(period, now))) == []
      ensures r.Some? ==> r.value >= 0.0
    {
      VwspNonNegative(trades, stock, period, now);
      Vwsp(trades, stock, period, now)
    }

    /** `calculate_gbce_asi`, with the geometric mean computed by its loop. */
    method CalculateGbceAsi(period: Option<Period>, now: int) returns (r: Option<Mean>)
      requires Valid()
      ensures r == GbceAsi(stocks, trades, period, now)
    {
      var window := EffectivePeriod(period, now);
      var vwsps := AllVwsps(trades, SortedNames(stocks.Keys), window, now);
      r := GeometricMean(PresentValues(vwsps));
    }
  }
}
