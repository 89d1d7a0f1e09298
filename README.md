# Super Simple Stock Market, modelled in Dafny

This project models `sssm`, a small in-memory stock market. It has four parts:

- A **stock** registry keyed by name. A stock carries its last dividend, its par value and an optional fixed dividend.
- An append-only **ledger of trades**. Each trade records an id, a stock, buy or sell, a quantity, a price and a timestamp.
- Two **metrics** computed from the ledger: the volume-weighted stock price (VWSP) of one stock over a time window, and the GBCE all-share index. The index is the geometric mean of the VWSPs of every stock that traded in the window.
- The **helpers** these use: the condition check that raises the module's error, the geometric mean, and the auto-increment counter that hands out trade ids.

Modules, one per source file, plus `Wrappers` and `Text` for what Python itself supplies:

- `Utils` (`utils.dfy`, from `sssm/utils.py`) holds:
  - the error kinds;
  - `AssertTrue`;
  - the geometric mean, as the specification function `GeometricMeanOf` and the loop `GeometricMean`;
  - the id `Counter` class.
- `Stocks` (`stock.dfy`, from `sssm/stock.py`): the `Stock` record and its dividend, yield and P/E formulas.
- `Trades` (`trade.dfy`, from `sssm/trade.py`): the immutable `Trade` record, `BUY`/`SELL`, the total amount and the text rendering.
- `MarketModel` (`market.dfy`, from `sssm/market.py`) has two layers:
  - The queries are functions of the registry and the ledger: `GetStock`, `SortedStocks`, `SelectTrades`, `Vwsp` and `GbceAsi`.
  - The class `Market` holds the registry (a `map`) and the ledger (a `seq`), and updates them in place in `AddStock` and `RecordTrade`.
- `Text` (`text.dfy`) holds what Python supplies for free:
  - the `<` order on strings, behind `sorted`;
  - sorting a set of names;
  - `%s` of an integer, with a parser proving the rendering loses nothing.
- `Wrappers` (`wrappers.dfy`): `Option`, `Outcome` (a check that passes or fails with an error) and `Result`.
- `MarketScenarios` (`scenarios.dfy`) restates the worked examples of `tests/test_sssm.py` against the model.

Ambient inputs become explicit:

- The clock becomes a `now` parameter of `RecordTrade`, `Vwsp`, `GbceAsi`, `CalculateVwsp` and `CalculateGbceAsi` (and of the window functions `EffectivePeriod`, `DefaultPeriod` and `AllVwsps`).
- The process-wide id counter becomes a `Counter` object, which the market is given at construction.
- A raised `Error` becomes a `Fail`/`Failure` value carrying the error kind and the offending value.
- The geometric mean's root `x ** (1 / n)` is kept symbolic. `Mean(product, count)` stands for it, and `IsRoot(r)` (`r` to the power `count` is `product`) is its defining property. `RootUnique` shows the property fixes the value for non-negative inputs.

## Model

| member | source | states |
|---|---|---|
| Utils.AssertTrue | sssm/utils.py:52-60 | fails exactly when the condition is false, and then with the given error |
| Utils.GeometricMeanOf | sssm/utils.py:25-33 | no value exactly for the empty list; otherwise the root of the product of all values, of degree the list's length |
| Utils.GeometricMean | sssm/utils.py:20-33 | the loop `x *= p` over `ps[1:]` keeps `x` equal to the product of the prefix read so far; the result is exactly `GeometricMeanOf(ps)` |
| Utils.RootUnique | sssm/utils.py:33 | a non-empty list has at most one non-negative root of its product, so the symbolic mean names one value |
| Utils.SingleValueMean | sssm/utils.py:28-33 | the geometric mean of a single value is that value |
| Utils.ProductPermutation | sssm/utils.py:28-31 | lists that are permutations of each other have the same product, whatever the order of the loop |
| Utils.ProductNonNegative | sssm/utils.py:28-31 | a product of non-negative values is non-negative |
| Utils.PowStrictlyMonotonic | sssm/utils.py:33 | raising to a positive power is strictly increasing on non-negative values |
| Utils.Counter.constructor | sssm/utils.py:36 | the counter starts at zero |
| Utils.Counter.AutoIncrement | sssm/utils.py:39-43 | returns the current value and advances the counter by exactly one |
| Utils.Counter.Reset | sssm/utils.py:46-49 | the counter is zero again |
| Utils.CounterSequence | tests/test_sssm.py:67-72 | successive ids are 0, 1 and 2, then 0 again after a reset |
| Stocks.StockGetters | sssm/stock.py:41-51 | the getters return the constructor's arguments unchanged |
| Stocks.Stock.Dividend | sssm/stock.py:53-59 | non-negative for a well-formed stock; with a fixed dividend at most the par value |
| Stocks.FixedDividendOverrides | sssm/stock.py:53-59 | with a fixed dividend the result is fixed dividend times par value, whatever the last dividend; without one it is the last dividend, whatever the par value |
| Stocks.Stock.ValidatePrice | sssm/stock.py:61-66 | fails exactly for a price at or below zero, with an invalid-price error carrying that price |
| Stocks.Stock.DividendYield | sssm/stock.py:68-74 | fails exactly for a price at or below zero; otherwise the yield times the price is the dividend |
| Stocks.Stock.PeRatio | sssm/stock.py:76-95 | fails exactly for a price at or below zero; otherwise no value exactly when the dividend is not positive, and the ratio times the dividend is the price |
| Stocks.PeRatioInvertsYield | sssm/stock.py:82-95 | for a positive price and dividend, P/E ratio times dividend yield is one |
| Trades.TradeGetters | sssm/trade.py:15-48 | the getters return the constructor's arguments unchanged |
| Trades.BuyAndSellDiffer | sssm/trade.py:12-13 | `BUY` is 0, `SELL` is 1, and they differ |
| Trades.Trade.TotalAmount | sssm/trade.py:50-51 | for a positive quantity the amount has the price's sign; it is zero exactly when a factor is zero; for one share it is the price |
| Trades.Trade.ToString | sssm/trade.py:53-64 | the rendering starts with `trade(id=` and ends with `)`; the lemmas below show the id can be told apart and give the test suite's exact text |
| Trades.ToStringDistinguishesIds | sssm/trade.py:53-64 | the rendering starts with the id, so trades with different ids never render alike |
| Text.IntToStringRoundTrip | sssm/trade.py:7 | the `%s` rendering of an integer parses back to that integer |
| Text.IntToString | sssm/trade.py:7 | `%s` of an integer: never empty, and starts with a minus sign exactly for a negative integer |
| Text.Less | sssm/market.py:42 | Python's `<` on `str`: a proper prefix comes before the longer name |
| Text.LessFirstDifference | sssm/market.py:42 | at the first position where two names differ, the characters there decide the order, in both directions |
| Text.SortedNames | sssm/market.py:42 | lists each name of the set exactly once, in strictly ascending string order |
| Text.SortedUnique | sssm/market.py:42 | two strictly sorted sequences with the same elements are equal, so the sorted order is the only one |
| Text.LessTotal | sssm/market.py:42 | two different names are always ordered one way or the other |
| Text.LessTransitive | sssm/market.py:42 | the string order is transitive |
| MarketModel.DefaultPeriod | sssm/market.py:10-15 | the default window ends at `now` and is 300000000 microseconds (five minutes) long |
| MarketModel.EffectivePeriod | sssm/market.py:106 | `period or _default_period()`: a given window is used as it is; without one the window ends at `now` and is five minutes long |
| MarketModel.GetStock | sssm/market.py:33-38 | the registered stock when the name is registered, otherwise no value, never an error |
| MarketModel.SortedStocks | sssm/market.py:40-42 | the listing has as many entries as the registry and holds exactly the registered stocks |
| MarketModel.SortedStocksPermutation | sssm/market.py:40-42 | the listing has as many entries as the registry, holds exactly the registered stocks, and is in strictly ascending order of name |
| MarketModel.SortedStocksUnique | sssm/market.py:40-42 | any listing with exactly the registered stocks in ascending order of name is the one returned |
| MarketModel.ValidLedger | sssm/market.py:44-64 | the ledger the market keeps (checked trades of registered stocks, ids strictly increasing and below the next id) has only positive quantities |
| MarketModel.LedgerIdsIdentify | sssm/market.py:60-63 | in such a ledger no two trades share an id, and every id is below the next one to be handed out |
| MarketModel.TradeCheck | sssm/market.py:54-58 | passes exactly when the stock is registered, the type is BUY or SELL, the quantity is positive and the price is not negative; otherwise fails with the first of these four errors in that order |
| MarketModel.IncludeTrade | sssm/market.py:75-93 | a kept trade is of the stock; without a window every trade of the stock is kept; an empty window `[t1, t2)` with `t2 <= t1` keeps nothing |
| MarketModel.SelectTrades | sssm/market.py:66-95 | the result keeps exactly the ledger trades of the stock whose timestamp is in `[t1, t2)` when a window is given, and is no longer than the ledger |
| MarketModel.SelectTradesAppend | sssm/market.py:95 | selecting from a concatenation selects from each part in order, so the filter keeps ledger order |
| MarketModel.SelectTradesSingle | sssm/market.py:75-95 | a one-trade ledger yields that trade exactly when it is included |
| MarketModel.SelectTradesExtend | sssm/market.py:60-64 | appending a trade extends every query by that trade exactly when the query includes it |
| MarketModel.SelectTradesNarrows | sssm/market.py:82-90 | a windowed query is the stock's full trade list narrowed to the window |
| MarketModel.SumAmount | sssm/market.py:109 | the sum of one trade is its total amount |
| MarketModel.SumQuantity | sssm/market.py:110 | the sum of one trade is its quantity |
| MarketModel.SumsAppend | sssm/market.py:109-110 | both sums add up over any split of the trades |
| MarketModel.SumQuantityPositive | sssm/market.py:110 | a non-empty set of positive quantities has a positive total, so the division is defined |
| MarketModel.Vwsp | sssm/market.py:97-114 | no value exactly when no trade of the stock falls in the window, with the default five minutes when none is given; otherwise the value times the total quantity is the total amount |
| MarketModel.VwspIsQuotient | sssm/market.py:106-111 | for a non-empty selection the total quantity is positive and the price is exactly the total amount divided by it |
| MarketModel.WeightedPrice | sssm/market.py:109-111 | `float(top) / bottom` of a non-empty list of positive quantities: the result times the total quantity is the total amount |
| MarketModel.SelectedQuantitiesPositive | sssm/market.py:66-95 | when the ledger holds only positive quantities, so does any selection from it |
| MarketModel.VwspWithinPrices | sssm/market.py:106-111 | the volume-weighted price lies between the lowest and the highest price in the window |
| MarketModel.VwspNonNegative | sssm/market.py:106-111 | with no negative price the volume-weighted price is not negative |
| MarketModel.AllVwsps | sssm/market.py:125 | one entry per name, each that name's volume-weighted price over the same window |
| MarketModel.PresentValues | sssm/market.py:128 | keeps exactly the present values, and no more entries than there were |
| MarketModel.PresentValuesAppend | sssm/market.py:128 | the filter over a concatenation is the filter of each part in order, which with the one-element case fixes order and count |
| MarketModel.NoValuesIffNoTrades | sssm/market.py:125-128 | no value survives exactly when no listed stock traded in the window |
| MarketModel.GbceAsi | sssm/market.py:116-130 | no index exactly when no registered stock traded in the window; otherwise the mean of between one and as many values as there are stocks, with a non-negative product when no price is negative |
| MarketModel.GbceAsiOrderIndependent | sssm/market.py:123-130 | visiting the registered names in any order, each once, gives the same index |
| MarketModel.GbceAsiDefaultPeriod | sssm/market.py:124 | without a window the index is the one over the five minutes before `now` |
| MarketModel.GbceAsiNoTrades | sssm/market.py:116-130 | an empty ledger has no index |
| MarketModel.Market.Valid | sssm/market.py:20-64 | the market's invariant, `ValidLedger` of its registry, ledger and counter, implies the ledger has only positive quantities |
| MarketModel.Market.constructor | sssm/market.py:20-22 | an empty registry, an empty ledger, and the market's invariant |
| MarketModel.Market.AddStock | sssm/market.py:24-31 | fails exactly when the name is taken, with a duplicate-stock error and the registry unchanged; otherwise the name maps to the new stock; every other name and the ledger are untouched; the invariant is kept |
| MarketModel.Market.RecordTrade | sssm/market.py:44-64 | fails exactly as `TradeCheck` does, leaving ledger and counter unchanged; otherwise appends exactly one trade holding the counter's previous value as id and `now` as timestamp, advances the counter by one and returns that trade; every query grows by that trade exactly when it includes it; the invariant (checked trades of registered stocks, strictly increasing ids) is kept |
| MarketModel.Market.FindStock | sssm/market.py:33-38 | the registered stock when the name is registered, otherwise no value |
| MarketModel.Market.AllStocks | sssm/market.py:40-42 | exactly the registered stocks, one entry per stock; in strictly ascending order of name whenever every stock is registered under its own name, which the invariant keeps |
| MarketModel.Market.TradesOf | sssm/market.py:66-95 | is `SelectTrades` of the market's ledger: exactly the ledger trades that `IncludeTrade` admits, in ledger order |
| MarketModel.Market.CalculateVwsp | sssm/market.py:97-114 | is `Vwsp` of the market's ledger: no value exactly when no trade of the stock falls in the effective window; otherwise a price that is not negative |
| MarketModel.Market.CalculateGbceAsi | sssm/market.py:116-130 | the result is the index `GbceAsi` of the market's registry and ledger |
| MarketScenarios.StockFormulaExamples | tests/test_sssm.py:102-140 | yields 0, 0.08, 0.23, 0.02 and 0.13 and P/E ratios none, 100/8, 100/23, 100/2 and 100/13 at price 100; price 0 is refused |
| MarketScenarios.GeometricMeanExamples | tests/test_sssm.py:58-65 | the test suite's lists give no value, 1, 1, 2, 2, 3 and 2 as roots |
| MarketScenarios.TradeToStringExample | tests/test_sssm.py:145-161 | the test suite's trade renders as the expected string, written as its six comma-separated pieces |
| MarketScenarios.ListingExample | tests/test_sssm.py:208-212 | the five stocks are listed ALE, GIN, JOE, POP, TEA |
| MarketScenarios.GetTradesExample | tests/test_sssm.py:253-278 | the trades of TEA and POP in full, and TEA's in the last one and two seconds |
| MarketScenarios.VwspExample | tests/test_sssm.py:280-320 | 125 for TEA and 100 for POP over the last five minutes, none for ALE, and 125 for TEA by default |
| MarketScenarios.GbceAsiExample | tests/test_sssm.py:322-347 | no index before any trade, then the mean of 125 and 100 (a product of 12500 over two values) |
| MarketScenarios.GbceAsiDefaultExample | tests/test_sssm.py:349-357 | the same index without a window |
| MarketScenarios.TradingSessionExample | tests/test_sssm.py:177-357 | the seven trades recorded through `RecordTrade` at their times on a fresh market give 125, 100, none and the default 125 as prices, and `Mean(12500, 2)` as the index with and without a window |
| MarketScenarios.MarketSessionExample | tests/test_sssm.py:214-251 | on a fresh market: a duplicate TEA is refused; the first trade gets id 0 and timestamp `now`; the five malformed requests fail with their errors; the recorded trade is TEA's only one |

## Left out

- Wall-clock time and its rounding (`sssm/utils.py:10-17`): time is the `now` parameter, and the test's mocking of the clock becomes passing `now`.
- The floating-point root `x ** (1 / len(ps))` is not computed. `Mean(product, count)` with `IsRoot` stands for it, so `12500 ** 0.5` appears as `Mean(12500.0, 2)`. Float rounding in general is not modelled: every division and product is exact `real` arithmetic.
- Error messages: the model keeps the kind and the offending value of each `Error`, not the formatted `"duplicate stock: %r"` text.
- `Stock.__str__`/`__repr__` (`sssm/stock.py:27-39`): they format Python floats, which is presentation only. `Trade.__repr__` is the same as `__str__`.
- `tests/example.py` (console printing) is not part of this model.
- Trade quantities, prices, ids and timestamps are integers, so that the `%s` rendering of `Trade.__str__` can be modelled exactly. `record_trade` also accepts float quantities and prices, such as a price of 99.5; `RecordTrade` cannot receive those, and their rendering is not modelled. Stock amounts and prices given to the formulas are reals.
- Python's truthiness of `period` is modelled as `Option<Period>`: `None` or a `(t1, t2)` pair.
- MarketModel.GbceAsi: the source visits the stocks in the registry's insertion order. The model visits them in name order. `GbceAsiOrderIndependent` proves that every order gives the same value.
- MarketModel.Vwsp: requires every ledger quantity to be positive. The source divides by the total quantity without checking it, but `record_trade` admits only positive quantities, so the market's own ledger always meets this.
- Utils.Counter: the counter is one object given to the market, not module-global state. A `Reset` made while a market still holds trades makes that market's `Valid()` false, and `AddStock`, `RecordTrade`, `CalculateVwsp` and `CalculateGbceAsi` all require `Valid()`, so none of them can be called on it afterwards. The source instead keeps recording after `reset_auto_increment` and hands out ids that repeat those already in the ledger.
- Stocks.Stock.WellFormed: the source's constructor does not check its arguments. The ranges of `WellFormed` (dividend not negative, par value positive, fixed dividend a fraction) are assumptions of the `Dividend` bounds only.
