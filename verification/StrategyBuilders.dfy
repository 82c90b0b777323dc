/** The single-expiration builders of `strategy_structures.py`: the closed forms each one reports. */
module StrategyBuilders {
  import opened Options
  import opened Payoff

  const FLOOR := 0.05  // the least net price a builder reports

  // ----- Verticals -----

  function VerticalSpread(longLeg: Quote, shortLeg: Quote, debit: real, width: real): Structure {
    Structure(
      [OptionLeg(longLeg, Buy, 1), OptionLeg(shortLeg, Sell, 1)],
      debit, 0.0,
      Max(debit, 0.0) * 100.0,
      Some(Max(width - debit, 0.0) * 100.0),
      [if longLeg.side == Call then longLeg.strike + debit else longLeg.strike - debit],
      width)
  }

  function CreditSpread(sellLeg: Quote, buyLeg: Quote, credit: real, width: real): Structure {
    Structure(
      [OptionLeg(sellLeg, Sell, 1), OptionLeg(buyLeg, Buy, 1)],
      0.0, credit,
      Max(width - credit, 0.0) * 100.0,
      Some(Max(credit, 0.0) * 100.0),
      [if sellLeg.side == Call then sellLeg.strike + credit else sellLeg.strike - credit],
      width)
  }

  /** The debit actually paid for a pair, before the floor. */
  function RawDebit(longLeg: Quote, shortLeg: Quote): real {
    longLeg.ask - shortLeg.bid
  }

  function RawCredit(sellLeg: Quote, buyLeg: Quote): real {
    sellLeg.bid - buyLeg.ask
  }

  /** The row a debit builder appends for one pair, if any. */
  function DebitRow(longLeg: Quote, shortLeg: Quote): Option<Structure> {
    var debit := Max(FLOOR, RawDebit(longLeg, shortLeg));
    var width := if longLeg.side == Call then shortLeg.strike - longLeg.strike else longLeg.strike - shortLeg.strike;
    if width <= 0.0 || debit >= width then None else Some(VerticalSpread(longLeg, shortLeg, debit, width))
  }

  /** The row a credit builder appends for one pair, if any; the credit is not compared with the width. */
  function CreditRow(sellLeg: Quote, buyLeg: Quote): Option<Structure> {
    var credit := Max(FLOOR, RawCredit(sellLeg, buyLeg));
    var width := if sellLeg.side == Call then buyLeg.strike - sellLeg.strike else sellLeg.strike - buyLeg.strike;
    if width <= 0.0 then None else Some(CreditSpread(sellLeg, buyLeg, credit, width))
  }

  // ----- Long volatility -----

  function Straddle(call: Quote, put: Quote): Structure {
    var debit := Max(FLOOR, call.ask + put.ask);
    Structure([OptionLeg(call, Buy, 1), OptionLeg(put, Buy, 1)], debit, 0.0, debit * 100.0, None,
              [call.strike - debit, call.strike + debit], 0.0)
  }

  function Strangle(call: Quote, put: Quote): Structure {
    var debit := Max(FLOOR, call.ask + put.ask);
    Structure([OptionLeg(call, Buy, 1), OptionLeg(put, Buy, 1)], debit, 0.0, debit * 100.0, None,
              [put.strike - debit, call.strike + debit], 0.0)
  }

  // ----- Stock-backed -----

  /** The reported legs leave out the shares the collar protects. */
  function Collar(call: Quote, put: Quote, spot: real): Structure {
    var paid := Max(put.ask - call.bid, 0.0);
    var received := Max(call.bid - put.ask, 0.0);
    Structure([OptionLeg(put, Buy, 1), OptionLeg(call, Sell, 1)], paid, Max(Max(FLOOR, call.bid - put.ask), 0.0),
              Max(spot - put.strike + paid, 0.0) * 100.0,
              Some(Max(call.strike - spot + received, 0.0) * 100.0),
              [spot + paid],
              if call.strike >= put.strike then call.strike - put.strike else put.strike - call.strike)
  }

  function CoveredCall(call: Quote, spot: real): Structure {
    var credit := Max(FLOOR, call.bid);
    Structure([StockLeg(spot), OptionLeg(call, Sell, 1)], 0.0, credit,
              Max(spot - credit, 0.0) * 100.0,
              Some(Max(call.strike - spot + credit, 0.0) * 100.0),
              [spot - credit],
              Max(call.strike - spot, 0.0))
  }

  function CashSecuredPut(put: Quote): Structure {
    var credit := Max(FLOOR, put.bid);
    Structure([OptionLeg(put, Sell, 1)], 0.0, credit,
              Max(put.strike - credit, 0.0) * 100.0, Some(credit * 100.0), [put.strike - credit], 0.0)
  }

  // ----- Iron condor and butterfly -----

  /** Each side's credit is floored on its own before the two are added. */
  function IronCondor(sellPut: Quote, buyPut: Quote, sellCall: Quote, buyCall: Quote): Structure {
    var credit := Max(FLOOR, RawCredit(sellPut, buyPut)) + Max(FLOOR, RawCredit(sellCall, buyCall));
    var width := Min(sellPut.strike - buyPut.strike, buyCall.strike - sellCall.strike);
    Structure([OptionLeg(sellPut, Sell, 1), OptionLeg(buyPut, Buy, 1), OptionLeg(sellCall, Sell, 1), OptionLeg(buyCall, Buy, 1)],
              0.0, credit,
              Max(width - credit, 0.0) * 100.0,
              Some(Max(credit, 0.0) * 100.0),
              [sellPut.strike - credit, sellCall.strike + credit],
              width)
  }

  function Butterfly(low: Quote, center: Quote, high: Quote): Structure {
    var debit := Max(FLOOR, low.ask + high.ask - 2.0 * center.bid);
    var width := Min(center.strike - low.strike, high.strike - center.strike);
    Structure([OptionLeg(low, Buy, 1), OptionLeg(center, Sell, 2), OptionLeg(high, Buy, 1)],
              debit, 0.0, debit * 100.0,
              Some(Max(width - debit, 0.0) * 100.0),
              [low.strike + debit, high.strike - debit],
              width)
  }

  /** The width reported beside the bounds: none for bought options and the secured put, the strikes' distance of a collar, and how
      far a covered call is out of the money. */
  lemma WidthsAre(call: Quote, put: Quote, spot: real)
    ensures Straddle(call, put).width == Strangle(call, put).width == CashSecuredPut(put).width == 0.0
    ensures Collar(call, put, spot).width == if call.strike < put.strike then put.strike - call.strike else call.strike - put.strike
    ensures CoveredCall(call, spot).width == if call.strike > spot then call.strike - spot else 0.0
  {
  }
}
