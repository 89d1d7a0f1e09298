/** A listed stock and its dividend formulas. */
module Stocks {
  import opened Wrappers
  import opened Utils

  /** A stock; its fields are set once by the constructor and read back by
      the getters (`get_name` is `name`, and so on). Amounts are in pennies,
      the fixed dividend a fraction of the par value. */
  datatype Stock = Stock(name: string, lastDividend: real, parValue: real, fixedDividend: Option<real>) {

    /** The ranges the listing rules give the attributes; the constructor
        itself does not check them. */
    predicate WellFormed() {
      && lastDividend >= 0.0
      && parValue > 0.0
      && (fixedDividend.Some? ==> 0.0 <= fixedDividend.value <= 1.0)
    }

    /** The fixed dividend, when there is one, applied to the par value;
        otherwise the last dividend. */
    function Dividend(): (d: real)
      ensures WellFormed() ==> 0.0 <= d
      ensures WellFormed() && fixedDividend.Some? ==> d <= parValue
    {
      if fixedDividend.Some? then fixedDividend.value * parValue else lastDividend
    }

    /** `validate_price`: the formulas need a strictly positive price. */
    function ValidatePrice(price: real): (r: Outcome<Error>)
      ensures r.Fail? <==> price <= 0.0
      ensures r.Fail? ==> r.error == InvalidPrice(price)
    {
      AssertTrue(price > 0.0, InvalidPrice(price))
    }

    /** `calculate_dividend_yield`: dividend over price. */
    function DividendYield(price: real): (r: Result<real, Error>)
      ensures r.Failure? <==> price <= 0.0
      ensures r.Failure? ==> r.error == InvalidPrice(price)
      ensures r.Success? ==> r.value * price == Dividend()
    {
      match ValidatePrice(price)
      case Fail(e) => Failure(e)
      case Pass => Success(Dividend() / price)
    }

    /** `calculate_pe_ratio`: price over dividend, no value when there is no
        positive dividend. */
    function PeRatio(price: real): (r: Result<Option<real>, Error>)
      ensures r.Failure? <==> price <= 0.0
      ensures r.Failure? ==> r.error == InvalidPrice(price)
      ensures r.Success? ==> (r.value.None? <==> Dividend() <= 0.0)
      ensures r.Success? && r.value.Some? ==> r.value.value * Dividend() == price
    {
      match ValidatePrice(price)
      case Fail(e) => Failure(e)
      case Pass =>
        var dividend := Dividend();
        Success(if dividend > 0.0 then Some(price / dividend) else None)
    }
  }

  /** The getters return the constructor's arguments unchanged. */
  lemma StockGetters(name: string, lastDividend: real, parValue: real, fixedDividend: Option<real>)
    ensures var s := Stock(name, lastDividend, parValue, fixedDividend);
      s.name == name && s.lastDividend == lastDividend && s.parValue == parValue && s.fixedDividend == fixedDividend
  {
  }

  /** A fixed dividend overrides the last dividend, whatever that is; without
      one the par value plays no part. */
  lemma FixedDividendOverrides(s: Stock, otherLast: real, otherPar: real)
    ensures s.fixedDividend.Some? ==>
      s.Dividend() == s.fixedDividend.value * s.parValue &&
      s.(lastDividend := otherLast).Dividend() == s.Dividend()
    ensures s.fixedDividend.None? ==>
      s.Dividend() == s.lastDividend &&
      s.(parValue := otherPar).Dividend() == s.Dividend()
  {
  }

  /** For a positive dividend the P/E ratio is the inverse of the dividend
      yield. */
  lemma PeRatioInvertsYield(s: Stock, price: real)
    requires price > 0.0 && s.Dividend() > 0.0
    ensures s.DividendYield(price).Success? && s.PeRatio(price).Success?
    ensures s.PeRatio(price).value.Some?
    ensures s.PeRatio(price).value.value * s.DividendYield(price).value == 1.0
  {
    var d := s.Dividend();
    assert (price / d) * (d / price) == 1.0;
  }
}
