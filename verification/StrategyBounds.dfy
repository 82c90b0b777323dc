/** When the closed forms of the builders agree with the profit and loss of the legs they report. */
module StrategyBounds {
  import opened Options
  import opened Payoff
  import opened StrategyBuilders

  // ----- Two-leg verticals -----

  predicate IsPair(a: Quote, b: Quote) {
    a.side == b.side && a.side != Stock && a.strike >= 0.0 && b.strike >= 0.0
  }

  /** How far in the money the leg struck at `near` is, capped where the leg struck at `far` takes over. */
  function VerticalValue(near: Quote, far: Quote, terminal: real): real {
    if near.side == Call then Clamp(terminal - near.strike, 0.0, far.strike - near.strike)
    else Clamp(near.strike - terminal, 0.0, near.strike - far.strike)
  }

  lemma VerticalPnl(near: Quote, far: Quote, terminal: real)
    requires IsPair(near, far) && (if near.side == Call then near.strike < far.strike else far.strike < near.strike)
    ensures Pnl([OptionLeg(near, Buy, 1), OptionLeg(far, Sell, 1)], terminal)
            == 100.0 * (VerticalValue(near, far, terminal) - RawDebit(near, far))
    ensures Pnl([OptionLeg(near, Sell, 1), OptionLeg(far, Buy, 1)], terminal)
            == 100.0 * (RawCredit(near, far) - VerticalValue(near, far, terminal))
  {
    PnlOfTwo(OptionLeg(near, Buy, 1), OptionLeg(far, Sell, 1), terminal);
    PnlOfTwo(OptionLeg(near, Sell, 1), OptionLeg(far, Buy, 1), terminal);
    OptionPnl(near, Buy, 1, terminal);
    OptionPnl(far, Sell, 1, terminal);
    OptionPnl(near, Sell, 1, terminal);
    OptionPnl(far, Buy, 1, terminal);
  }

  lemma VerticalPnlAll(near: Quote, far: Quote)
    requires IsPair(near, far) && (if near.side == Call then near.strike < far.strike else far.strike < near.strike)
    ensures forall terminal: real ::
              Pnl([OptionLeg(near, Buy, 1), OptionLeg(far, Sell, 1)], terminal)
              == 100.0 * (VerticalValue(near, far, terminal) - RawDebit(near, far))
    ensures forall terminal: real ::
              Pnl([OptionLeg(near, Sell, 1), OptionLeg(far, Buy, 1)], terminal)
              == 100.0 * (RawCredit(near, far) - VerticalValue(near, far, terminal))
  {
    forall terminal: real {
      VerticalPnl(near, far, terminal);
    }
  }

  /** A debit vertical never loses more than reported; its profit bound, both ends and its breakeven are exact
      precisely when the debit was not raised to the floor. */
  lemma DebitVerticalBounds(longLeg: Quote, shortLeg: Quote)
    requires IsPair(longLeg, shortLeg) && DebitRow(longLeg, shortLeg).Some?
    ensures var s := DebitRow(longLeg, shortLeg).value;
            LossSound(s) &&
            (ProfitSound(s) <==> RawDebit(longLeg, shortLeg) >= FLOOR) &&
            (ExactBounds(s) <==> RawDebit(longLeg, shortLeg) >= FLOOR) &&
            (ExactBreakevens(s) <==> RawDebit(longLeg, shortLeg) >= FLOOR)
  {
    var s := DebitRow(longLeg, shortLeg).value;
    VerticalPnlAll(longLeg, shortLeg);
    assert Pnl(s.legs, longLeg.strike) == -100.0 * RawDebit(longLeg, shortLeg);
    assert Pnl(s.legs, shortLeg.strike) == 100.0 * (s.width - RawDebit(longLeg, shortLeg));
    assert Pnl(s.legs, s.breakevens[0]) == 100.0 * (s.netDebit - RawDebit(longLeg, shortLeg));
  }

  /** A credit vertical never earns more than reported; it never loses more precisely when the floor did not add credit,
      or when even the raw credit covers the width. */
  lemma CreditVerticalBounds(sellLeg: Quote, buyLeg: Quote)
    requires IsPair(sellLeg, buyLeg) && CreditRow(sellLeg, buyLeg).Some?
    ensures var s := CreditRow(sellLeg, buyLeg).value;
            var raw := RawCredit(sellLeg, buyLeg);
            ProfitSound(s) &&
            (LossSound(s) <==> raw >= Min(FLOOR, s.width)) &&
            (ExactBounds(s) <==> FLOOR <= raw <= s.width)
  {
    var s := CreditRow(sellLeg, buyLeg).value;
    VerticalPnlAll(sellLeg, buyLeg);
    assert Pnl(s.legs, sellLeg.strike) == 100.0 * RawCredit(sellLeg, buyLeg);
    assert Pnl(s.legs, buyLeg.strike) == 100.0 * (RawCredit(sellLeg, buyLeg) - s.width);
  }

  lemma CreditVerticalBreakeven(sellLeg: Quote, buyLeg: Quote)
    requires IsPair(sellLeg, buyLeg) && CreditRow(sellLeg, buyLeg).Some?
    requires RawCredit(sellLeg, buyLeg) < CreditRow(sellLeg, buyLeg).value.width && sellLeg.strike >= FLOOR
    ensures ExactBreakevens(CreditRow(sellLeg, buyLeg).value) <==> RawCredit(sellLeg, buyLeg) >= FLOOR
  {
    var s := CreditRow(sellLeg, buyLeg).value;
    var raw := RawCredit(sellLeg, buyLeg);
    VerticalPnlAll(sellLeg, buyLeg);
    var root := if sellLeg.side == Call then sellLeg.strike + raw else sellLeg.strike - raw;
    assert 0.0 <= raw ==> Pnl(s.legs, root) == 0.0;
    assert Pnl(s.legs, s.breakevens[0]) == 100.0 * (raw - Min(s.netCredit, s.width));
  }

  // ----- Long straddle and strangle -----

  predicate IsCallAndPut(call: Quote, put: Quote) {
    call.side == Call && put.side == Put && call.strike >= 0.0 && put.strike >= 0.0
  }

  lemma CallAndPutPnl(call: Quote, put: Quote)
    requires IsCallAndPut(call, put)
    ensures forall terminal: real ::
              Pnl([OptionLeg(call, Buy, 1), OptionLeg(put, Buy, 1)], terminal)
              == 100.0 * (Max(terminal - call.strike, 0.0) + Max(put.strike - terminal, 0.0) - (call.ask + put.ask))
  {
    forall terminal: real
      ensures Pnl([OptionLeg(call, Buy, 1), OptionLeg(put, Buy, 1)], terminal)
              == 100.0 * (Max(terminal - call.strike, 0.0) + Max(put.strike - terminal, 0.0) - (call.ask + put.ask))
    {
      PnlOfTwo(OptionLeg(call, Buy, 1), OptionLeg(put, Buy, 1), terminal);
      OptionPnl(call, Buy, 1, terminal);
      OptionPnl(put, Buy, 1, terminal);
    }
  }

  /** The profit of a bought call and put exceeds every amount. */
  lemma ProfitUnlimited(call: Quote, put: Quote, amount: real) returns (terminal: real)
    requires IsCallAndPut(call, put)
    ensures terminal >= 0.0 && Pnl([OptionLeg(call, Buy, 1), OptionLeg(put, Buy, 1)], terminal) > amount
  {
    CallAndPutPnl(call, put);
    terminal := call.strike + Max(amount / 100.0 + call.ask + put.ask + 1.0, 0.0);
  }

  /** The straddle may pair different strikes. Its breakevens are the roots exactly for an unfloored debit and equal strikes, or
      for a debit above both strikes, which leaves the same single root whichever strike the put has. */
  lemma StraddleBounds(call: Quote, put: Quote)
    requires IsCallAndPut(call, put)
    ensures LossSound(Straddle(call, put))
    ensures LossAttained(Straddle(call, put)) <==> call.ask + put.ask >= FLOOR && put.strike <= call.strike
    ensures ExactBreakevens(Straddle(call, put)) <==>
            call.ask + put.ask >= FLOOR && (put.strike == call.strike || Max(put.strike, call.strike) < call.ask + put.ask)
  {
    var s := Straddle(call, put);
    var debit := call.ask + put.ask;
    CallAndPutPnl(call, put);
    assert Pnl(s.legs, call.strike) == 100.0 * (Max(put.strike - call.strike, 0.0) - debit);
    assert Pnl(s.legs, s.breakevens[1]) == 100.0 * (s.netDebit + Max(put.strike - s.breakevens[1], 0.0) - debit);
    if debit >= FLOOR && put.strike >= debit {
      assert Pnl(s.legs, put.strike - debit) == 100.0 * Max(put.strike - debit - call.strike, 0.0);
    }
    if FLOOR <= debit <= call.strike {
      assert Pnl(s.legs, s.breakevens[0]) == 100.0 * (Max(put.strike - s.breakevens[0], 0.0) - debit);
    }
  }

  lemma StrangleBounds(call: Quote, put: Quote)
    requires IsCallAndPut(call, put) && put.strike < call.strike
    ensures LossSound(Strangle(call, put))
    ensures LossAttained(Strangle(call, put)) <==> call.ask + put.ask >= FLOOR
    ensures ExactBreakevens(Strangle(call, put)) <==> call.ask + put.ask >= FLOOR
  {
    var s := Strangle(call, put);
    CallAndPutPnl(call, put);
    assert Pnl(s.legs, call.strike) == -100.0 * (call.ask + put.ask);
    assert Pnl(s.legs, s.breakevens[1]) == 100.0 * (s.netDebit - (call.ask + put.ask));
  }

  // ----- Stock-backed structures -----

  /** The collar together with the 100 shares it needs. */
  function WithShares(s: Structure, spot: real): Structure {
    s.(legs := [StockLeg(spot)] + s.legs)
  }

  lemma CollarPnl(call: Quote, put: Quote, spot: real)
    requires IsCallAndPut(call, put)
    ensures forall terminal: real ::
              Pnl(WithShares(Collar(call, put, spot), spot).legs, terminal)
              == 100.0 * (terminal - spot + Max(put.strike - terminal, 0.0) - Max(terminal - call.strike, 0.0) - (put.ask - call.bid))
  {
    forall terminal: real
      ensures Pnl(WithShares(Collar(call, put, spot), spot).legs, terminal)
              == 100.0 * (terminal - spot + Max(put.strike - terminal, 0.0) - Max(terminal - call.strike, 0.0) - (put.ask - call.bid))
    {
      assert WithShares(Collar(call, put, spot), spot).legs == [StockLeg(spot), OptionLeg(put, Buy, 1), OptionLeg(call, Sell, 1)];
      PnlOfThree(StockLeg(spot), OptionLeg(put, Buy, 1), OptionLeg(call, Sell, 1), terminal);
      OptionPnl(put, Buy, 1, terminal);
      OptionPnl(call, Sell, 1, terminal);
    }
  }

  /** With the put struck at or below the call both bounds hold; a net credit is left out of the loss and a net debit out
      of the profit, so each bound is attained only when the options cost, or bring in, nothing on its side. */
  lemma CollarBounds(call: Quote, put: Quote, spot: real)
    requires IsCallAndPut(call, put) && put.strike <= call.strike
    ensures var s := WithShares(Collar(call, put, spot), spot);
            var raw := put.ask - call.bid;
            LossSound(s) && ProfitSound(s) &&
            (put.strike < spot < call.strike ==> (LossAttained(s) <==> raw >= 0.0) && (ProfitAttained(s) <==> raw <= 0.0)) &&
            (put.strike < spot + raw < call.strike && put.strike < spot < call.strike ==> (ExactBreakevens(s) <==> raw >= 0.0))
  {
    var s := WithShares(Collar(call, put, spot), spot);
    CollarPnl(call, put, spot);
    var raw := put.ask - call.bid;
    assert Pnl(s.legs, put.strike) == 100.0 * (put.strike - spot - raw);
    assert Pnl(s.legs, call.strike) == 100.0 * (call.strike - spot - raw);
    if put.strike < spot + raw < call.strike {
      assert Pnl(s.legs, spot + raw) == 0.0;
    }
  }

  /** Whatever the strikes and prices, the loss bound holds exactly when it covers the lower of the two strikes: the least the
      shares and options are worth. The fallback of the leg selection can cross the strikes, and a net debit or credit then
      decides whether the reported loss, measured from the put's strike, is enough. */
  lemma CrossedCollar(call: Quote, put: Quote, spot: real)
    requires IsCallAndPut(call, put)
    ensures var raw := put.ask - call.bid;
            LossSound(WithShares(Collar(call, put, spot), spot)) <==>
            spot + raw - Min(put.strike, call.strike) <= Max(spot - put.strike + Max(raw, 0.0), 0.0)
  {
    CollarPnl(call, put, spot);
    var s := WithShares(Collar(call, put, spot), spot);
    assert Pnl(s.legs, put.strike) == 100.0 * (Min(put.strike, call.strike) - spot - (put.ask - call.bid));
  }

  lemma CoveredCallPnl(call: Quote, spot: real)
    requires call.side == Call
    ensures forall terminal: real ::
              Pnl(CoveredCall(call, spot).legs, terminal) == 100.0 * (Min(terminal, call.strike) - spot + call.bid)
  {
    forall terminal: real
      ensures Pnl(CoveredCall(call, spot).legs, terminal) == 100.0 * (Min(terminal, call.strike) - spot + call.bid)
    {
      PnlOfTwo(StockLeg(spot), OptionLeg(call, Sell, 1), terminal);
      OptionPnl(call, Sell, 1, terminal);
    }
  }

  /** The call may be in the money, which the fallback of the leg selection allows: a premium that does not make up for it
      leaves the reported profit at zero, which is then not attained. */
  lemma CoveredCallBounds(call: Quote, spot: real)
    requires call.side == Call && call.strike >= 0.0 && spot >= 0.0
    ensures var s := CoveredCall(call, spot);
            ProfitSound(s) &&
            (LossSound(s) <==> call.bid >= Min(FLOOR, spot)) &&
            (ExactBounds(s) <==> FLOOR <= call.bid <= spot <= call.strike + call.bid) &&
            (call.bid <= spot < call.strike + call.bid ==> (ExactBreakevens(s) <==> call.bid >= FLOOR))
  {
    var s := CoveredCall(call, spot);
    CoveredCallPnl(call, spot);
    assert Pnl(s.legs, 0.0) == 100.0 * (call.bid - spot);
    assert Pnl(s.legs, call.strike) == 100.0 * (call.strike - spot + call.bid);
    if call.bid <= spot < call.strike + call.bid {
      assert Pnl(s.legs, spot - call.bid) == 0.0;
    }
  }

  lemma CashSecuredPutPnl(put: Quote)
    requires put.side == Put
    ensures forall terminal: real :: Pnl(CashSecuredPut(put).legs, terminal) == 100.0 * (put.bid - Max(put.strike - terminal, 0.0))
  {
    forall terminal: real
      ensures Pnl(CashSecuredPut(put).legs, terminal) == 100.0 * (put.bid - Max(put.strike - terminal, 0.0))
    {
      assert Pnl([OptionLeg(put, Sell, 1)], terminal) == LegPnl(OptionLeg(put, Sell, 1), terminal) + Pnl([], terminal);
      OptionPnl(put, Sell, 1, terminal);
    }
  }

  lemma CashSecuredPutBounds(put: Quote)
    requires put.side == Put && put.strike >= 0.0
    ensures var s := CashSecuredPut(put);
            ProfitSound(s) &&
            (LossSound(s) <==> put.bid >= Min(FLOOR, put.strike)) &&
            (ExactBounds(s) <==> FLOOR <= put.bid <= put.strike) &&
            (0.0 <= put.bid <= put.strike ==> (ExactBreakevens(s) <==> put.bid >= FLOOR))
  {
    var s := CashSecuredPut(put);
    CashSecuredPutPnl(put);
    assert Pnl(s.legs, 0.0) == 100.0 * (put.bid - put.strike);
    assert Pnl(s.legs, put.strike) == 100.0 * put.bid;
    if 0.0 <= put.bid <= put.strike {
      assert Pnl(s.legs, put.strike - put.bid) == 0.0;
    }
  }

  // ----- Iron condor -----

  predicate IsCondor(sellPut: Quote, buyPut: Quote, sellCall: Quote, buyCall: Quote) {
    sellPut.side == Put && buyPut.side == Put && sellCall.side == Call && buyCall.side == Call &&
    0.0 <= buyPut.strike < sellPut.strike && 0.0 <= sellCall.strike < buyCall.strike
  }

  /** What the two short verticals cost together at `terminal`. */
  function CondorLoss(sellPut: Quote, buyPut: Quote, sellCall: Quote, buyCall: Quote, terminal: real): real {
    VerticalValue(sellPut, buyPut, terminal) + VerticalValue(sellCall, buyCall, terminal)
  }

  /** The greatest such cost, from the wing widths and how far the short put is struck above the short call. */
  function WorstLoss(putWidth: real, callWidth: real, overlap: real): real {
    Max(putWidth + Clamp(overlap - putWidth, 0.0, callWidth), callWidth + Clamp(overlap - callWidth, 0.0, putWidth))
  }

  function CondorRaw(sellPut: Quote, buyPut: Quote, sellCall: Quote, buyCall: Quote): real {
    RawCredit(sellPut, buyPut) + RawCredit(sellCall, buyCall)
  }

  lemma CondorPnl(sellPut: Quote, buyPut: Quote, sellCall: Quote, buyCall: Quote, terminal: real)
    requires IsCondor(sellPut, buyPut, sellCall, buyCall)
    ensures Pnl(IronCondor(sellPut, buyPut, sellCall, buyCall).legs, terminal)
            == 100.0 * (CondorRaw(sellPut, buyPut, sellCall, buyCall) - CondorLoss(sellPut, buyPut, sellCall, buyCall, terminal))
  {
    PnlOfFour(OptionLeg(sellPut, Sell, 1), OptionLeg(buyPut, Buy, 1), OptionLeg(sellCall, Sell, 1), OptionLeg(buyCall, Buy, 1), terminal);
    PnlOfTwo(OptionLeg(sellPut, Sell, 1), OptionLeg(buyPut, Buy, 1), terminal);
    PnlOfTwo(OptionLeg(sellCall, Sell, 1), OptionLeg(buyCall, Buy, 1), terminal);
    VerticalPnl(sellPut, buyPut, terminal);
    VerticalPnl(sellCall, buyCall, terminal);
  }

  lemma WorstLossBound(sellPut: Quote, buyPut: Quote, sellCall: Quote, buyCall: Quote, terminal: real)
    requires IsCondor(sellPut, buyPut, sellCall, buyCall)
    ensures 0.0 <= CondorLoss(sellPut, buyPut, sellCall, buyCall, terminal)
            <= WorstLoss(sellPut.strike - buyPut.strike, buyCall.strike - sellCall.strike, sellPut.strike - sellCall.strike)
  {
  }

  /** One of the two long strikes is where the condor loses most. */
  lemma WorstLossReached(sellPut: Quote, buyPut: Quote, sellCall: Quote, buyCall: Quote) returns (terminal: real)
    requires IsCondor(sellPut, buyPut, sellCall, buyCall)
    ensures terminal >= 0.0 && CondorLoss(sellPut, buyPut, sellCall, buyCall, terminal)
            == WorstLoss(sellPut.strike - buyPut.strike, buyCall.strike - sellCall.strike, sellPut.strike - sellCall.strike)
  {
    if CondorLoss(sellPut, buyPut, sellCall, buyCall, buyPut.strike) >= CondorLoss(sellPut, buyPut, sellCall, buyCall, buyCall.strike) {
      terminal := buyPut.strike;
    } else {
      terminal := buyCall.strike;
    }
  }

  /** The condor never earns more than reported. Its reported loss holds exactly when it covers the worst terminal price,
      whatever the wings, the overlap of the short strikes and the floors on the two credits. */
  lemma CondorBounds(sellPut: Quote, buyPut: Quote, sellCall: Quote, buyCall: Quote)
    requires IsCondor(sellPut, buyPut, sellCall, buyCall)
    ensures var s := IronCondor(sellPut, buyPut, sellCall, buyCall);
            var worst := WorstLoss(sellPut.strike - buyPut.strike, buyCall.strike - sellCall.strike, sellPut.strike - sellCall.strike);
            ProfitSound(s) &&
            (LossSound(s) <==> worst - CondorRaw(sellPut, buyPut, sellCall, buyCall) <= Max(s.width - s.netCredit, 0.0))
  {
    var s := IronCondor(sellPut, buyPut, sellCall, buyCall);
    forall terminal: real
      ensures Pnl(s.legs, terminal)
              == 100.0 * (CondorRaw(sellPut, buyPut, sellCall, buyCall) - CondorLoss(sellPut, buyPut, sellCall, buyCall, terminal))
      ensures 0.0 <= CondorLoss(sellPut, buyPut, sellCall, buyCall, terminal)
              <= WorstLoss(sellPut.strike - buyPut.strike, buyCall.strike - sellCall.strike, sellPut.strike - sellCall.strike)
    {
      CondorPnl(sellPut, buyPut, sellCall, buyCall, terminal);
      WorstLossBound(sellPut, buyPut, sellCall, buyCall, terminal);
    }
    var t := WorstLossReached(sellPut, buyPut, sellCall, buyCall);
    CondorPnl(sellPut, buyPut, sellCall, buyCall, t);
  }

  /** Neither side's credit was raised to the floor. */
  predicate CondorUnfloored(sellPut: Quote, buyPut: Quote, sellCall: Quote, buyCall: Quote) {
    RawCredit(sellPut, buyPut) >= FLOOR && RawCredit(sellCall, buyCall) >= FLOOR
  }

  /** The `min` of the two widths is sound for equal wings as long as the short strikes overlap by at most one wing;
      with ordered short strikes it is sound for equal wings, or when the credit pays for the wider one. */
  lemma CondorWings(sellPut: Quote, buyPut: Quote, sellCall: Quote, buyCall: Quote)
    requires IsCondor(sellPut, buyPut, sellCall, buyCall) && CondorUnfloored(sellPut, buyPut, sellCall, buyCall)
    ensures var s := IronCondor(sellPut, buyPut, sellCall, buyCall);
            var putWidth, callWidth := sellPut.strike - buyPut.strike, buyCall.strike - sellCall.strike;
            (sellPut.strike <= sellCall.strike ==>
              (LossSound(s) <==> putWidth == callWidth || s.netCredit >= Max(putWidth, callWidth))) &&
            (putWidth == callWidth && s.netCredit < s.width ==>
              (LossSound(s) <==> sellPut.strike - sellCall.strike <= putWidth))
  {
    CondorBounds(sellPut, buyPut, sellCall, buyCall);
  }

  /** With a credit below the width, every reported figure is exact precisely when neither credit was floored, the short
      strikes are in order and the wings are equal. */
  lemma CondorExact(sellPut: Quote, buyPut: Quote, sellCall: Quote, buyCall: Quote)
    requires IsCondor(sellPut, buyPut, sellCall, buyCall)
    requires var s := IronCondor(sellPut, buyPut, sellCall, buyCall); s.netCredit < s.width
    ensures var s := IronCondor(sellPut, buyPut, sellCall, buyCall);
            ExactBounds(s) <==>
            CondorUnfloored(sellPut, buyPut, sellCall, buyCall) && sellPut.strike <= sellCall.strike &&
            sellPut.strike - buyPut.strike == buyCall.strike - sellCall.strike
  {
    var s := IronCondor(sellPut, buyPut, sellCall, buyCall);
    CondorBounds(sellPut, buyPut, sellCall, buyCall);
    if ProfitAttained(s) {
      var t: real :| t >= 0.0 && Pnl(s.legs, t) == s.maxProfit.value;
      CondorPnl(sellPut, buyPut, sellCall, buyCall, t);
    }
    if CondorUnfloored(sellPut, buyPut, sellCall, buyCall) && sellPut.strike <= sellCall.strike {
      CondorPnl(sellPut, buyPut, sellCall, buyCall, sellPut.strike);
      assert Pnl(s.legs, sellPut.strike) == s.maxProfit.value;
      var t := WorstLossReached(sellPut, buyPut, sellCall, buyCall);
      CondorPnl(sellPut, buyPut, sellCall, buyCall, t);
      assert sellPut.strike - buyPut.strike == buyCall.strike - sellCall.strike ==> Pnl(s.legs, t) == -s.maxLoss;
      if ExactBounds(s) {
        CondorWings(sellPut, buyPut, sellCall, buyCall);
      }
    }
  }

  /** With ordered short strikes and a credit below the width the two breakevens are the roots exactly when neither credit was
      floored: a floor puts them where the structure already loses. */
  lemma CondorBreakevens(sellPut: Quote, buyPut: Quote, sellCall: Quote, buyCall: Quote)
    requires IsCondor(sellPut, buyPut, sellCall, buyCall) && sellPut.strike <= sellCall.strike
    requires var s := IronCondor(sellPut, buyPut, sellCall, buyCall); s.netCredit < s.width
    ensures ExactBreakevens(IronCondor(sellPut, buyPut, sellCall, buyCall)) <==> CondorUnfloored(sellPut, buyPut, sellCall, buyCall)
  {
    var s := IronCondor(sellPut, buyPut, sellCall, buyCall);
    if CondorUnfloored(sellPut, buyPut, sellCall, buyCall) {
      forall terminal: real | terminal >= 0.0
        ensures Pnl(s.legs, terminal) == 0.0 <==> terminal in s.breakevens
      {
        CondorPnl(sellPut, buyPut, sellCall, buyCall, terminal);
      }
    } else {
      CondorPnl(sellPut, buyPut, sellCall, buyCall, s.breakevens[0]);
      assert Pnl(s.legs, s.breakevens[0]) < 0.0;
    }
  }

  // ----- Call butterfly -----

  predicate IsButterfly(low: Quote, center: Quote, high: Quote) {
    low.side == Call && center.side == Call && high.side == Call && 0.0 <= low.strike < center.strike < high.strike
  }

  function ButterflyRaw(low: Quote, center: Quote, high: Quote): real {
    low.ask + high.ask - 2.0 * center.bid
  }

  lemma ButterflyPnl(low: Quote, center: Quote, high: Quote)
    requires IsButterfly(low, center, high)
    ensures forall terminal: real ::
              Pnl(Butterfly(low, center, high).legs, terminal)
              == 100.0 * (Max(terminal - low.strike, 0.0) - 2.0 * Max(terminal - center.strike, 0.0) + Max(terminal - high.strike, 0.0)
                          - ButterflyRaw(low, center, high))
  {
    forall terminal: real
      ensures Pnl(Butterfly(low, center, high).legs, terminal)
              == 100.0 * (Max(terminal - low.strike, 0.0) - 2.0 * Max(terminal - center.strike, 0.0) + Max(terminal - high.strike, 0.0)
              - ButterflyRaw(low, center, high))
    {
      PnlOfThree(OptionLeg(low, Buy, 1), OptionLeg(center, Sell, 2), OptionLeg(high, Buy, 1), terminal);
      OptionPnl(low, Buy, 1, terminal);
      OptionPnl(center, Sell, 2, terminal);
      OptionPnl(high, Buy, 1, terminal);
    }
  }

  /** For a debit that was not floored and stays below the width: the loss bound holds exactly when the lower wing is at
      least the upper one, the profit bound when it is at most the upper one, and everything is exact for equal wings only. */
  lemma ButterflyBounds(low: Quote, center: Quote, high: Quote)
    requires IsButterfly(low, center, high)
    requires FLOOR <= ButterflyRaw(low, center, high) < Butterfly(low, center, high).width
    ensures var s := Butterfly(low, center, high);
            var lower, upper := center.strike - low.strike, high.strike - center.strike;
            (LossSound(s) <==> lower >= upper) &&
            (ProfitSound(s) <==> lower <= upper) &&
            (ExactBounds(s) <==> lower == upper) &&
            (ExactBreakevens(s) <==> lower == upper)
  {
    var s := Butterfly(low, center, high);
    ButterflyPnl(low, center, high);
    var raw := ButterflyRaw(low, center, high);
    var lower, upper := center.strike - low.strike, high.strike - center.strike;
    assert Pnl(s.legs, 0.0) == -100.0 * raw;
    assert Pnl(s.legs, high.strike) == 100.0 * (lower - upper - raw);
    assert Pnl(s.legs, center.strike) == 100.0 * (lower - raw);
    assert Pnl(s.legs, s.breakevens[1]) == 100.0 * (lower - upper);
  }

  /** Floored or not, the loss bound holds exactly when it pays for the wing the structure is short. */
  lemma ButterflyLoss(low: Quote, center: Quote, high: Quote)
    requires IsButterfly(low, center, high)
    ensures var s := Butterfly(low, center, high);
            LossSound(s) <==>
            ButterflyRaw(low, center, high) + Max((high.strike - center.strike) - (center.strike - low.strike), 0.0) <= s.netDebit
  {
    var s := Butterfly(low, center, high);
    ButterflyPnl(low, center, high);
    assert Pnl(s.legs, 0.0) == -100.0 * ButterflyRaw(low, center, high);
    assert Pnl(s.legs, high.strike)
        == 100.0 * ((center.strike - low.strike) - (high.strike - center.strike) - ButterflyRaw(low, center, high));
  }

  /** Floored or not, the profit bound holds exactly when it covers what the structure earns at its center. */
  lemma ButterflyProfit(low: Quote, center: Quote, high: Quote)
    requires IsButterfly(low, center, high)
    ensures var s := Butterfly(low, center, high);
            ProfitSound(s) <==> center.strike - low.strike - ButterflyRaw(low, center, high) <= Max(s.width - s.netDebit, 0.0)
  {
    var s := Butterfly(low, center, high);
    ButterflyPnl(low, center, high);
    assert Pnl(s.legs, center.strike) == 100.0 * (center.strike - low.strike - ButterflyRaw(low, center, high));
  }
}
