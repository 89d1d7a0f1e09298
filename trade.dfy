/** One reported buy or sell of a stock. */
module Trades {
  import opened Text

  /** The two trade directions. */
  const BUY: int := 0
  const SELL: int := 1

  /** A trade: an immutable record, so every member is a read. Quantity and
      price are whole numbers (shares, pennies); the timestamp is in
      microseconds since the epoch. */
  datatype Trade = Trade(id: int, stock: string, tradeType: int, quantity: int, price: int, timestamp: int) {

    /** `get_total_amount`: price times quantity. */
    function TotalAmount(): (r: int)
      ensures quantity > 0 ==> (r >= 0 <==> price >= 0)
      ensures r == 0 <==> price == 0 || quantity == 0
      ensures quantity == 1 ==> r == price
    {
      price * quantity
    }

    /** `__str__`: the fields in the order id, stock, type, quantity, price,
        timestamp. */
    function ToString(): (s: string)
      ensures |s| > 10 && s[..9] == "trade(id=" && s[|s| - 1] == ')'
    {
      "trade(id=" + IntToString(id) + FieldsAfterId()
    }

    /** The rendering from the separator after the id to the end. */
    function FieldsAfterId(): (s: string)
      ensures |s| > 0 && s[0] == ',' && s[|s| - 1] == ')'
    {
      ", stock=" + stock + ", type=" + IntToString(tradeType)
      + ", quantity=" + IntToString(quantity) + ", price=" + IntToString(price)
      + ", timestamp=" + IntToString(timestamp) + ")"
    }
  }

  /** The getters return the constructor's arguments unchanged. */
  lemma TradeGetters(id: int, stock: string, tradeType: int, quantity: int, price: int, timestamp: int)
    ensures var t := Trade(id, stock, tradeType, quantity, price, timestamp);
      && t.id == id && t.stock == stock && t.tradeType == tradeType
      && t.quantity == quantity && t.price == price && t.timestamp == timestamp
  {
  }

  lemma BuyAndSellDiffer()
    ensures BUY == 0 && SELL == 1 && BUY != SELL
  {
  }

  lemma {:induction false} NoCommaInInt(i: int)
    ensures forall k :: 0 <= k < |IntToString(i)| ==> IntToString(i)[k] != ','
  {
    if i < 0 {
      NatToStringDigits(-i);
      assert IntToString(i) == "-" + NatToString(-i);
    } else {
      NatToStringDigits(i);
    }
  }

  /** The rendering starts with the id, so trades with different ids never
      render alike. */
  lemma ToStringDistinguishesIds(t1: Trade, t2: Trade)
    requires t1.id != t2.id
    ensures t1.ToString() != t2.ToString()
  {
    NoCommaInInt(t1.id);
    NoCommaInInt(t2.id);
    IntToStringRoundTrip(t1.id);
    IntToStringRoundTrip(t2.id);
    DifferentFieldBeforeComma("trade(id=", IntToString(t1.id), t1.FieldsAfterId(), IntToString(t2.id), t2.FieldsAfterId());
  }

  /** A common prefix, then two different comma-free fields, each followed by
      text starting with a comma, give two different strings. */
  lemma DifferentFieldBeforeComma(p: string, f1: string, r1: string, f2: string, r2: string)
    requires f1 != f2
    requires forall k :: 0 <= k < |f1| ==> f1[k] != ','
    requires forall k :: 0 <= k < |f2| ==> f2[k] != ','
    requires |r1| > 0 && r1[0] == ',' && |r2| > 0 && r2[0] == ','
    ensures p + f1 + r1 != p + f2 + r2
  {
    var s1, s2 := p + f1 + r1, p + f2 + r2;
    if |f1| < |f2| {
      assert s1[|p| + |f1|] == ',' != f2[|f1|] == s2[|p| + |f1|];
    } else if |f2| < |f1| {
      assert s2[|p| + |f2|] == ',' != f1[|f2|] == s1[|p| + |f2|];
    } else {
      var k :| 0 <= k < |f1| && f1[k] != f2[k];
      assert s1[|p| + k] == f1[k] != f2[k] == s2[|p| + k];
    }
  }
}
