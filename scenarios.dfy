/** The worked examples of the test suite, stated against the model: the
    five listed stocks, a ledger recorded at fixed times, and the values
    the formulas give for them. */
module MarketScenarios {
  import opened Wrappers
  import opened Text
  import opened Utils
  import opened Stocks
  import opened Trades
  import opened MarketModel

  const TEA := Stock("TEA", 0.0, 100.0, None)
  const POP := Stock("POP", 8.0, 100.0, None)
  const ALE := Stock("ALE", 23.0, 60.0, None)
  const GIN := Stock("GIN", 8.0, 100.0, Some(0.02))
  const JOE := Stock("JOE", 13.0, 250.0, None)

  /** The registry after adding TEA, POP, ALE, GIN and JOE. */
  const Listed := map["TEA" := TEA, "POP" := POP, "ALE" := ALE, "GIN" := GIN, "JOE" := JOE]

  /** One second and ten minutes after the epoch, in microseconds. */
  const T1 := 1000000
  const T2 := 600000000

  /** The trades the test suite records: three early ones, then four in the
      last moments before `T2`. */
  const Tea0 := Trade(0, "TEA", BUY, 1000, 100, T1)
  const Tea1 := Trade(1, "TEA", SELL, 1000, 100, 2 * T1)
  const Pop2 := Trade(2, "POP", BUY, 2000, 100, 2 * T1)
  const Tea3 := Trade(3, "TEA", BUY, 1000, 100, T2 - 5)
  const Tea4 := Trade(4, "TEA", BUY, 1000, 100, T2 - 4)
  const Tea5 := Trade(5, "TEA", SELL, 2000, 150, T2 - 3)
  const Pop6 := Trade(6, "POP", BUY, 1000, 100, T2 - 2)

  /** The trades recorded by default, and the four added for the price and
      index examples. */
  const Early := [Tea0, Tea1, Pop2]
  const Late := [Tea3, Tea4, Tea5, Pop6]
  const Ledger := Early + Late

  /** Dividend yield and P/E ratio of the five stocks at a price of 100, and
      of TEA and GIN at 10; a zero price is refused. */
  lemma StockFormulaExamples()
    ensures TEA.DividendYield(100.0) == Success(0.0)
    ensures POP.DividendYield(100.0) == Success(0.08)
    ensures ALE.DividendYield(100.0) == Success(0.23)
    ensures GIN.DividendYield(100.0) == Success(0.02)
    ensures JOE.DividendYield(100.0) == Success(0.13)
    ensures TEA.PeRatio(100.0) == Success(None)
    ensures POP.PeRatio(100.0) == Success(Some(100.0 / 8.0))
    ensures ALE.PeRatio(100.0) == Success(Some(100.0 / 23.0))
    ensures GIN.PeRatio(100.0) == Success(Some(100.0 / 2.0))
    ensures JOE.PeRatio(100.0) == Success(Some(100.0 / 13.0))
    ensures TEA.DividendYield(10.0) == Success(0.0) && TEA.PeRatio(10.0) == Success(None)
    ensures GIN.DividendYield(10.0) == Success(0.2) && GIN.PeRatio(10.0) == Success(Some(5.0))
    ensures TEA.DividendYield(0.0) == Failure(InvalidPrice(0.0))
    ensures TEA.PeRatio(0.0) == Failure(InvalidPrice(0.0))
  {
  }

  /** `geometric_mean` of the lists the test suite uses: none for the empty
      list, and the expected value as the root of the product. */
  lemma GeometricMeanExamples()
    ensures GeometricMeanOf([]) == None
    ensures GeometricMeanOf([1.0]).value.IsRoot(1.0)
    ensures GeometricMeanOf([1.0, 1.0]).value.IsRoot(1.0)
    ensures GeometricMeanOf([2.0]).value.IsRoot(2.0)
    ensures GeometricMeanOf([2.0, 2.0]).value.IsRoot(2.0)
    ensures GeometricMeanOf([4.5, 2.0]).value.IsRoot(3.0)
    ensures GeometricMeanOf([4.0, 2.0, 1.0]).value.IsRoot(2.0)
  {
    assert Product([1.0, 1.0]) == 1.0 by { assert [1.0, 1.0][..1] == [1.0]; SingleValueMean(1.0); }
    assert Product([2.0, 2.0]) == 4.0 by { assert [2.0, 2.0][..1] == [2.0]; SingleValueMean(2.0); }
    assert Product([4.5, 2.0]) == 9.0 by { assert [4.5, 2.0][..1] == [4.5]; SingleValueMean(4.5); }
    assert Product([4.0, 2.0, 1.0]) == 8.0 by {
      assert [4.0, 2.0, 1.0][..2] == [4.0, 2.0];
      assert [4.0, 2.0][..1] == [4.0];
      SingleValueMean(4.0);
    }
    SingleValueMean(1.0);
    SingleValueMean(2.0);
  }

  /** A trade renders with its fields in the fixed order. */
  lemma TradeToStringExample()
    ensures Trade(0, "TEA", BUY, 1000, 100, T1).ToString()
         == "trade(id=0" + ", stock=TEA" + ", type=0" + ", quantity=1000" + ", price=100" + ", timestamp=1000000" + ")"
  {
    ExampleNumbers();
    LeadingFields();
    TrailingFields();
  }

  lemma LeadingFields()
    ensures "trade(id=" + "0" == "trade(id=0"
    ensures ", stock=" + "TEA" == ", stock=TEA"
    ensures ", type=" + "0" == ", type=0"
  {
  }

  lemma TrailingFields()
    ensures ", quantity=" + "1000" == ", quantity=1000"
    ensures ", price=" + "100" == ", price=100"
    ensures ", timestamp=" + "1000000" == ", timestamp=1000000"
  {
  }

  /** The decimal texts of the example trade's numbers. */
  lemma ExampleNumbers()
    ensures IntToString(0) == "0" && IntToString(100) == "100"
    ensures IntToString(1000) == "1000" && IntToString(1000000) == "1000000"
  {
  }

  /** The five stocks come out ordered ALE, GIN, JOE, POP, TEA. */
  lemma ListingExample()
    ensures SortedStocks(Listed) == [ALE, GIN, JOE, POP, TEA]
  {
    var listing := [ALE, GIN, JOE, POP, TEA];
    forall i, j | 0 <= i < j < |listing|
      ensures Less(listing[i].name, listing[j].name)
    {
      LessChain(listing, i, j);
    }
    forall s
      ensures s in listing <==> s in Listed.Values
    {
      if s in Listed.Values {
        var k :| k in Listed && Listed[k] == s;
      }
      if s in listing {
        assert Listed[s.name] == s;
      }
    }
    SortedStocksUnique(Listed, listing);
  }

  lemma LessChain(listing: seq<Stock>, i: nat, j: nat)
    requires listing == [ALE, GIN, JOE, POP, TEA] && i < j < |listing|
    ensures Less(listing[i].name, listing[j].name)
    decreases j - i
  {
    assert Less("ALE", "GIN") && Less("GIN", "JOE") && Less("JOE", "POP") && Less("POP", "TEA");
    if j > i + 1 {
      LessChain(listing, i, j - 1);
      LessTransitive(listing[i].name, listing[j - 1].name, listing[j].name);
    }
  }

  /** What a query keeps of one trade. */
  function Keep(t: Trade, stock: string, period: Option<Period>): seq<Trade> {
    if IncludeTrade(t, stock, period) then [t] else []
  }

  lemma SelectThree(a: Trade, b: Trade, c: Trade, stock: string, period: Option<Period>)
    ensures SelectTrades([a, b, c], stock, period) == Keep(a, stock, period) + Keep(b, stock, period) + Keep(c, stock, period)
  {
    SelectTradesSingle(a, stock, period);
    assert [a, b] == [a] + [b];
    SelectTradesExtend([a], b, stock, period);
    assert [a, b, c] == [a, b] + [c];
    SelectTradesExtend([a, b], c, stock, period);
  }

  lemma SelectFour(a: Trade, b: Trade, c: Trade, d: Trade, stock: string, period: Option<Period>)
    ensures SelectTrades([a, b, c, d], stock, period)
         == Keep(a, stock, period) + Keep(b, stock, period) + Keep(c, stock, period) + Keep(d, stock, period)
  {
    SelectThree(a, b, c, stock, period);
    assert [a, b, c, d] == [a, b, c] + [d];
    SelectTradesExtend([a, b, c], d, stock, period);
  }

  /** Trades of TEA and POP among the first three, and of TEA in the last one
      and the last two seconds before 2.5 seconds after the epoch. */
  lemma GetTradesExample()
    ensures SelectTrades(Early, "TEA", None) == [Tea0, Tea1]
    ensures SelectTrades(Early, "POP", None) == [Pop2]
    ensures SelectTrades(Early, "TEA", Some((2500000 - T1, 2500000))) == [Tea1]
    ensures SelectTrades(Early, "TEA", Some((2500000 - 2 * T1, 2500000))) == [Tea0, Tea1]
  {
    EarlyByStock();
    EarlyByWindow();
  }

  lemma EarlyByStock()
    ensures SelectTrades(Early, "TEA", None) == [Tea0, Tea1]
    ensures SelectTrades(Early, "POP", None) == [Pop2]
  {
    SelectThree(Tea0, Tea1, Pop2, "TEA", None);
    SelectThree(Tea0, Tea1, Pop2, "POP", None);
  }

  lemma EarlyByWindow()
    ensures SelectTrades(Early, "TEA", Some((2500000 - T1, 2500000))) == [Tea1]
    ensures SelectTrades(Early, "TEA", Some((2500000 - 2 * T1, 2500000))) == [Tea0, Tea1]
  {
    SelectThree(Tea0, Tea1, Pop2, "TEA", Some((2500000 - T1, 2500000)));
    SelectThree(Tea0, Tea1, Pop2, "TEA", Some((2500000 - 2 * T1, 2500000)));
  }

  /** The window of the five minutes before `T2`. */
  const LastFiveMinutes: Period := (T2 - T2 / 2, T2)

  /** Only the four late trades fall in that window: three of TEA, one of
      POP and none of any other stock. */
  lemma TeaInWindow()
    ensures SelectTrades(Ledger, "TEA", Some(LastFiveMinutes)) == [Tea3, Tea4, Tea5]
  {
    WindowKeepsLate("TEA");
  }

  lemma PopInWindow()
    ensures SelectTrades(Ledger, "POP", Some(LastFiveMinutes)) == [Pop6]
  {
    WindowKeepsLate("POP");
  }

  lemma OthersOutOfWindow(name: string)
    requires name != "TEA" && name != "POP"
    ensures SelectTrades(Ledger, name, Some(LastFiveMinutes)) == []
  {
    WindowKeepsLate(name);
  }

  lemma WindowKeepsLate(name: string)
    ensures var w := Some(LastFiveMinutes);
      SelectTrades(Ledger, name, w) == Keep(Tea3, name, w) + Keep(Tea4, name, w) + Keep(Tea5, name, w) + Keep(Pop6, name, w)
  {
    SelectTradesAppend(Early, Late, name, Some(LastFiveMinutes));
    EarlyOutsideWindow(name);
    SelectFour(Tea3, Tea4, Tea5, Pop6, name, Some(LastFiveMinutes));
  }

  lemma EarlyOutsideWindow(name: string)
    ensures SelectTrades(Early, name, Some(LastFiveMinutes)) == []
  {
    SelectThree(Tea0, Tea1, Pop2, name, Some(LastFiveMinutes));
  }

  lemma LedgerQuantitiesPositive()
    ensures PositiveQuantities(Ledger)
  {
    assert Ledger == [Tea0, Tea1, Pop2, Tea3, Tea4, Tea5, Pop6];
  }

  /** Volume-weighted prices over the five minutes before `T2`, given
      explicitly or by default. */
  lemma VwspExample()
    ensures PositiveQuantities(Ledger)
    ensures Vwsp(Ledger, "TEA", Some(LastFiveMinutes), T2) == Some(125.0)
    ensures Vwsp(Ledger, "POP", Some(LastFiveMinutes), T2) == Some(100.0)
    ensures Vwsp(Ledger, "ALE", Some(LastFiveMinutes), T2) == None
    ensures Vwsp(Ledger, "TEA", None, T2) == Some(125.0)
  {
    LedgerQuantitiesPositive();
    TeaPrice(Some(LastFiveMinutes));
    DefaultIsLastFiveMinutes();
    TeaPrice(None);
    PopPrice();
    NoPrice("ALE");
  }

  lemma TeaPrice(period: Option<Period>)
    requires EffectivePeriod(period, T2) == LastFiveMinutes
    ensures PositiveQuantities(Ledger)
    ensures Vwsp(Ledger, "TEA", period, T2) == Some(125.0)
  {
    LedgerQuantitiesPositive();
    TeaInWindow();
    TeaSums();
    PriceFromSums(Ledger, "TEA", period, T2, [Tea3, Tea4, Tea5], 500000, 4000, 125.0);
  }

  lemma PopPrice()
    ensures PositiveQuantities(Ledger)
    ensures Vwsp(Ledger, "POP", Some(LastFiveMinutes), T2) == Some(100.0)
  {
    LedgerQuantitiesPositive();
    PopInWindow();
    PopSums();
    PriceFromSums(Ledger, "POP", Some(LastFiveMinutes), T2, [Pop6], 100000, 1000, 100.0);
  }

  lemma NoPrice(name: string)
    requires name != "TEA" && name != "POP"
    ensures PositiveQuantities(Ledger)
    ensures Vwsp(Ledger, name, Some(LastFiveMinutes), T2) == None
  {
    LedgerQuantitiesPositive();
    OthersOutOfWindow(name);
  }

  lemma TeaSums()
    ensures SumAmount([Tea3, Tea4, Tea5]) == 500000 && SumQuantity([Tea3, Tea4, Tea5]) == 4000
  {
    var tea := [Tea3, Tea4, Tea5];
    assert tea[1..] == [Tea4, Tea5] && tea[1..][1..] == [Tea5] && [Tea5][1..] == [];
    assert SumAmount([Tea5]) == 300000 && SumQuantity([Tea5]) == 2000;
    assert SumAmount([Tea4, Tea5]) == 400000 && SumQuantity([Tea4, Tea5]) == 3000;
  }

  lemma PopSums()
    ensures SumAmount([Pop6]) == 100000 && SumQuantity([Pop6]) == 1000
  {
    assert [Pop6][1..] == [];
  }

  /** The price of a selection whose sums are known. */
  lemma PriceFromSums(ledger: seq<Trade>, name: string, period: Option<Period>, now: int,
                      ts: seq<Trade>, amount: int, quantity: int, price: real)
    requires PositiveQuantities(ledger)
    requires SelectTrades(ledger, name, Some(EffectivePeriod(period, now))) == ts
    requires ts != [] && SumAmount(ts) == amount && SumQuantity(ts) == quantity && quantity != 0
    requires price == amount as real / quantity as real
    ensures Vwsp(ledger, name, period, now) == Some(price)
  {
    VwspIsQuotient(ledger, name, period, now);
  }


  /** The stocks in the order they were added. */
  const AddedOrder := ["TEA", "POP", "ALE", "GIN", "JOE"]

  lemma WindowPrices()
    ensures PositiveQuantities(Ledger)
    ensures AllVwsps(Ledger, AddedOrder, LastFiveMinutes, T2) == [Some(125.0), Some(100.0), None, None, None]
  {
    LedgerQuantitiesPositive();
    var vs := AllVwsps(Ledger, AddedOrder, LastFiveMinutes, T2);
    TeaPrice(Some(LastFiveMinutes));
    PopPrice();
    NoPrice("ALE");
    NoPrice("GIN");
    NoPrice("JOE");
    assert vs[0] == Some(125.0) && vs[1] == Some(100.0);
    assert vs[2] == None && vs[3] == None && vs[4] == None;
  }

  lemma PricesPresent()
    ensures PresentValues([Some(125.0), Some(100.0), None, None, None]) == [125.0, 100.0]
  {
    var vs: seq<Option<real>> := [Some(125.0), Some(100.0), None, None, None];
    assert vs[1..] == [Some(100.0), None, None, None] && vs[1..][1..] == vs[2..];
    assert vs[2..][1..] == vs[3..] && vs[3..][1..] == vs[4..] && |vs[4..][1..]| == 0;
    assert PresentValues(vs[4..]) == [];
    assert PresentValues(vs[3..]) == [];
    assert PresentValues(vs[2..]) == [];
  }

  /** The product of the two prices the index combines. */
  lemma IndexProduct()
    ensures GeometricMeanOf([125.0, 100.0]) == Some(Mean(12500.0, 2))
  {
    assert [125.0, 100.0][..1] == [125.0];
    SingleValueMean(125.0);
  }

  lemma AddedOrderIsKeys()
    ensures Distinct(AddedOrder) && forall n :: n in AddedOrder <==> n in Listed
  {
  }

  /** The index over the five stocks: no value before any trade, and the
      geometric mean of 125 and 100 (the square root of 12500) afterwards. */
  lemma GbceAsiExample()
    ensures GbceAsi(Listed, [], Some(LastFiveMinutes), T2) == None
    ensures PositiveQuantities(Ledger)
    ensures GbceAsi(Listed, Ledger, Some(LastFiveMinutes), T2) == Some(Mean(12500.0, 2))
  {
    GbceAsiNoTrades(Listed, Some(LastFiveMinutes), T2);
    WindowPrices();
    PricesPresent();
    IndexProduct();
    AddedOrderIsKeys();
    GbceAsiOrderIndependent(Listed, Ledger, Some(LastFiveMinutes), T2, AddedOrder);
  }

  /** Without a window the index covers the last five minutes. */
  lemma GbceAsiDefaultExample()
    ensures PositiveQuantities(Ledger)
    ensures GbceAsi(Listed, Ledger, None, T2) == Some(Mean(12500.0, 2))
  {
    GbceAsiExample();
    DefaultWindowIndex(Listed, Ledger, Some(Mean(12500.0, 2)));
  }

  lemma DefaultWindowIndex(stocks: map<string, Stock>, ledger: seq<Trade>, m: Option<Mean>)
    requires PositiveQuantities(ledger)
    requires GbceAsi(stocks, ledger, Some(LastFiveMinutes), T2) == m
    ensures GbceAsi(stocks, ledger, None, T2) == m
  {
    GbceAsiDefaultPeriod(stocks, ledger, T2);
    DefaultIsLastFiveMinutes();
  }

  lemma DefaultIsLastFiveMinutes()
    ensures DefaultPeriod(T2) == LastFiveMinutes
  {
  }

  /** A session on a fresh market: the five stocks are added, adding TEA a
      second time is refused, one trade is recorded, the five malformed
      requests of the test suite are refused, and the trade is then the only
      one of TEA. */
  method MarketSessionExample()
    returns (duplicate: Outcome<Error>, first: Result<Trade, Error>, refused: seq<Result<Trade, Error>>, tea: seq<Trade>)
    ensures duplicate == Fail(DuplicateStock("TEA"))
    ensures first == Success(Trade(0, "TEA", BUY, 1000, 100, T1))
    ensures refused == [Failure(UnknownStock("FOO")), Failure(InvalidType(2)), Failure(InvalidQuantity(0)),
                        Failure(InvalidQuantity(-1)), Failure(InvalidPrice(-1.0))]
    ensures tea == [first.value]
  {
    var ids := new Counter();
    var market := new Market(ids);
    ListFiveStocks(market);
    duplicate := market.AddStock(TEA);
    first := market.RecordTrade("TEA", BUY, 1000, 100, T1);
    refused := RefuseMalformed(market);
    tea := market.TradesOf("TEA", None);
    SelectTradesSingle(first.value, "TEA", None);
  }

  /** The test suite's trading session: the seven trades recorded through
      the market at their times give the ledger the examples above work on,
      so the market's own queries return the expected prices and index. */
  method TradingSessionExample()
    returns (tea: Option<real>, pop: Option<real>, ale: Option<real>, teaDefault: Option<real>,
             index: Option<Mean>, indexDefault: Option<Mean>)
    ensures tea == Some(125.0) && pop == Some(100.0) && ale == None && teaDefault == Some(125.0)
    ensures index == Some(Mean(12500.0, 2)) && indexDefault == Some(Mean(12500.0, 2))
  {
    var ids := new Counter();
    var market := new Market(ids);
    ListFiveStocks(market);
    RecordEarly(market);
    RecordLate(market);
    tea, pop, ale, teaDefault := SessionPrices(market);
    index, indexDefault := SessionIndex(market);
  }

  /** `calculate_vwsp` on the session's market. */
  method SessionPrices(market: Market)
    returns (tea: Option<real>, pop: Option<real>, ale: Option<real>, teaDefault: Option<real>)
    requires market.Valid() && market.trades == Early + Late
    ensures tea == Some(125.0) && pop == Some(100.0) && ale == None && teaDefault == Some(125.0)
  {
    VwspExample();
    tea := market.CalculateVwsp("TEA", Some(LastFiveMinutes), T2);
    pop := market.CalculateVwsp("POP", Some(LastFiveMinutes), T2);
    ale := market.CalculateVwsp("ALE", Some(LastFiveMinutes), T2);
    teaDefault := market.CalculateVwsp("TEA", None, T2);
  }

  /** `calculate_gbce_asi` on the session's market, with and without a window. */
  method SessionIndex(market: Market) returns (index: Option<Mean>, indexDefault: Option<Mean>)
    requires market.Valid() && market.stocks == Listed && market.trades == Early + Late
    ensures index == Some(Mean(12500.0, 2)) && indexDefault == Some(Mean(12500.0, 2))
  {
    var stocks, ledger := market.stocks, market.trades;
    assert stocks == Listed && ledger == Ledger;
    index := market.CalculateGbceAsi(Some(LastFiveMinutes), T2);
    indexDefault := market.CalculateGbceAsi(None, T2);
    assert index == GbceAsi(Listed, Ledger, Some(LastFiveMinutes), T2);
    assert indexDefault == GbceAsi(Listed, Ledger, None, T2);
    GbceAsiExample();
    GbceAsiDefaultExample();
  }

  /** The first three trades, at one and two seconds after the epoch. */
  method RecordEarly(market: Market)
    requires market.Valid() && market.stocks == Listed && market.trades == [] && market.ids.value == 0
    modifies market, market.ids
    ensures market.Valid() && market.stocks == Listed && market.trades == Early && market.ids.value == 3
  {
    var r0 := market.RecordTrade("TEA", BUY, 1000, 100, T1);
    var r1 := market.RecordTrade("TEA", SELL, 1000, 100, 2 * T1);
    var r2 := market.RecordTrade("POP", BUY, 2000, 100, 2 * T1);
  }

  /** The last four trades, in the seconds before ten minutes. */
  method RecordLate(market: Market)
    requires market.Valid() && market.stocks == Listed && market.trades == Early && market.ids.value == 3
    modifies market, market.ids
    ensures market.Valid() && market.stocks == Listed && market.trades == Early + Late && market.ids.value == 7
  {
    var r3 := market.RecordTrade("TEA", BUY, 1000, 100, T2 - 5);
    var r4 := market.RecordTrade("TEA", BUY, 1000, 100, T2 - 4);
    var r5 := market.RecordTrade("TEA", SELL, 2000, 150, T2 - 3);
    var r6 := market.RecordTrade("POP", BUY, 1000, 100, T2 - 2);
  }

  /** `add_stock` for each of the five stocks, in the test suite's order. */
  method ListFiveStocks(market: Market)
    requires market.Valid() && market.stocks == map[]
    modifies market
    ensures market.Valid() && market.stocks == Listed && market.trades == old(market.trades)
  {
    var added := market.AddStock(TEA);
    added := market.AddStock(POP);
    added := market.AddStock(ALE);
    added := market.AddStock(GIN);
    added := market.AddStock(JOE);
  }

  /** The malformed requests of the test suite, each refused with its own
      error, in the order the checks are made; none of them is recorded. */
  method RefuseMalformed(market: Market) returns (refused: seq<Result<Trade, Error>>)
    requires market.Valid() && market.stocks == Listed
    modifies market, market.ids
    ensures market.Valid() && market.stocks == Listed
    ensures market.trades == old(market.trades) && market.ids.value == old(market.ids.value)
    ensures refused == [Failure(UnknownStock("FOO")), Failure(InvalidType(2)), Failure(InvalidQuantity(0)),
                        Failure(InvalidQuantity(-1)), Failure(InvalidPrice(-1.0))]
  {
    var unknown := market.RecordTrade("FOO", BUY, 1000, 100, T1);
    var badType := market.RecordTrade("TEA", 2, 1000, 100, T1);
    var noQuantity := market.RecordTrade("TEA", BUY, 0, 100, T1);
    var negativeQuantity := market.RecordTrade("TEA", BUY, -1, 100, T1);
    var negativePrice := market.RecordTrade("TEA", BUY, 1000, -1, T1);
    refused := [unknown, badType, noQuantity, negativeQuantity, negativePrice];
  }
}
