/** Quote checks of option structures (`strategy_structures.py`). */
module StrategyQuotes {
  import opened Options
  import opened StructureFlags
  import opened Payoff
  import opened StrategyBuilders
  import opened StrategyBounds

  datatype QuoteState = QuotesOk | Caution | Blocked | StockOnly

  /** The score from 0 to 100, the state and the flags without repeats. */
  datatype Consistency = Consistency(score: real, state: QuoteState, flags: set<Flag>)

  function Quantity(leg: Leg): int {
    if leg.qty < 1 then 1 else leg.qty
  }

  /** What one leg costs at the touch, per share; negative for a sale. Shares are left out. */
  function LegPremium(leg: Leg): real {
    if leg.side == Stock then 0.0
    else if leg.action == Buy then leg.ask * Quantity(leg) as real
    else -(leg.bid * Quantity(leg) as real)
  }

  function NetPremium(legs: seq<Leg>): real {
    if legs == [] then 0.0 else NetPremium(legs[..|legs| - 1]) + LegPremium(legs[|legs| - 1])
  }

  predicate DebitDiffers(s: Structure, net: real) {
    s.netDebit > 0.0 && Gap(Max(net, 0.0), s.netDebit) > Max(FLOOR, s.netDebit * 0.25)
  }

  predicate CreditDiffers(s: Structure, net: real) {
    s.netCredit > 0.0 && Gap(Max(-net, 0.0), s.netCredit) > Max(FLOOR, s.netCredit * 0.25)
  }

  predicate Inconsistent(s: Structure, net: real) {
    DebitDiffers(s, net) || CreditDiffers(s, net)
  }

  predicate BadLong(leg: Leg) {
    leg.side != Stock && leg.action == Buy && (leg.ask <= 0.0 || leg.price <= 0.0)
  }

  predicate BadShort(leg: Leg) {
    leg.side != Stock && leg.action == Sell && (leg.bid <= 0.0 || leg.price <= 0.0)
  }

  /** The spread in percent of the middle, which the builders store with every option leg. */
  function SpreadPct(leg: Leg): real {
    var mid := (leg.bid + leg.ask) / 2.0;
    if mid > 0.0 then (leg.ask - leg.bid) / mid * 100.0 else 100.0
  }

  predicate Wide(leg: Leg) {
    leg.side != Stock && SpreadPct(leg) > 30.0
  }

  function LegFlags(leg: Leg): seq<Flag> {
    (if BadLong(leg) then [BadLongAsk] else if BadShort(leg) then [ShortLegBidUnavailable] else []) +
    (if Wide(leg) then [LegWideSpread] else [])
  }

  /** The flags in the order they are raised, a repeated one each time. */
  function AllLegFlags(legs: seq<Leg>): seq<Flag> {
    if legs == [] then [] else AllLegFlags(legs[..|legs| - 1]) + LegFlags(legs[|legs| - 1])
  }

  function NetFlags(s: Structure, net: real): seq<Flag> {
    (if DebitDiffers(s, net) then [NetPriceInconsistent] else []) + (if CreditDiffers(s, net) then [NetPriceInconsistent] else [])
  }

  function OptionLegs(legs: seq<Leg>): nat {
    if legs == [] then 0 else OptionLegs(legs[..|legs| - 1]) + (if legs[|legs| - 1].side == Stock then 0 else 1)
  }

  function TotalSpread(legs: seq<Leg>): real {
    if legs == [] then 0.0
    else TotalSpread(legs[..|legs| - 1]) + (if legs[|legs| - 1].side == Stock then 0.0 else SpreadPct(legs[|legs| - 1]))
  }

  function Verdict(raised: seq<Flag>, averageSpread: real): Consistency {
    Consistency(
      Max(0.0, 100.0 - averageSpread * 1.6 - |raised| as real * 18.0),
      if raised == [] && averageSpread <= 20.0 then QuotesOk
      else if exists f <- raised :: QuoteFault(f) then Blocked
      else Caution,
      set f | f in raised)
  }

  function ConsistencyOf(s: Structure): Consistency {
    if OptionLegs(s.legs) == 0 then Consistency(60.0, StockOnly, {})
    else Verdict(AllLegFlags(s.legs) + NetFlags(s, NetPremium(s.legs)), TotalSpread(s.legs) / OptionLegs(s.legs) as real)
  }

  method OneLeg(leg: Leg, flags: seq<Flag>, net: real, totalSpread: real) returns (raised: seq<Flag>, premium: real, spread: real)
    requires leg.side != Stock
    ensures raised == flags + LegFlags(leg) && premium == net + LegPremium(leg) && spread == totalSpread + SpreadPct(leg)
  {
    raised, premium, spread := flags, net, totalSpread + SpreadPct(leg);
    if leg.action == Buy {
      if leg.ask <= 0.0 || leg.price <= 0.0 {
        raised := raised + [BadLongAsk];
      }
      premium := premium + leg.ask * Quantity(leg) as real;
    } else {
      if leg.bid <= 0.0 || leg.price <= 0.0 {
        raised := raised + [ShortLegBidUnavailable];
      }
      premium := premium - leg.bid * Quantity(leg) as real;
    }
    if Wide(leg) {
      raised := raised + [LegWideSpread];
    }
  }

  method QuoteConsistency(s: Structure) returns (r: Consistency)
    ensures r == ConsistencyOf(s)
  {
    var raised: seq<Flag> := [];
    var net, totalSpread, optionLegs := 0.0, 0.0, 0;
    for i := 0 to |s.legs|
      invariant net == NetPremium(s.legs[..i]) && totalSpread == TotalSpread(s.legs[..i])
      invariant optionLegs == OptionLegs(s.legs[..i]) && raised == AllLegFlags(s.legs[..i])
    {
      assert s.legs[..i + 1][..i] == s.legs[..i];
      if s.legs[i].side == Stock {
        assert LegFlags(s.legs[i]) == [];
        continue;
      }
      optionLegs := optionLegs + 1;
      raised, net, totalSpread := OneLeg(s.legs[i], raised, net, totalSpread);
    }
    assert s.legs[..|s.legs|] == s.legs;
    if optionLegs <= 0 {
      return Consistency(60.0, StockOnly, {});
    }
    ghost var fromLegs := raised;
    if DebitDiffers(s, net) {
      raised := raised + [NetPriceInconsistent];
    }
    if CreditDiffers(s, net) {
      raised := raised + [NetPriceInconsistent];
    }
    assert raised == fromLegs + NetFlags(s, net);
    r := Verdict(raised, totalSpread / optionLegs as real);
  }

  /** The fault of a leg that flag `f` stands for. */
  predicate Faulty(leg: Leg, f: Flag) {
    (f == BadLongAsk && BadLong(leg)) || (f == ShortLegBidUnavailable && BadShort(leg)) || (f == LegWideSpread && Wide(leg))
  }

  lemma LegFlagMeans(leg: Leg, f: Flag)
    ensures f in LegFlags(leg) <==> Faulty(leg, f)
  {
  }

  lemma {:induction false} LegFlagsMean(legs: seq<Leg>, f: Flag)
    ensures f in AllLegFlags(legs) <==> exists leg <- legs :: Faulty(leg, f)
  {
    if legs != [] {
      var front, last := legs[..|legs| - 1], legs[|legs| - 1];
      LegFlagsMean(front, f);
      LegFlagMeans(last, f);
      assert legs == front + [last];
    }
  }

  predicate HasOptions(legs: seq<Leg>) {
    exists leg <- legs :: leg.side != Stock
  }

  lemma {:induction false} NoOptionLegs(legs: seq<Leg>)
    ensures OptionLegs(legs) > 0 <==> HasOptions(legs)
  {
    if legs != [] {
      var front, last := legs[..|legs| - 1], legs[|legs| - 1];
      NoOptionLegs(front);
      assert legs == front + [last];
    }
  }

  /** Each flag is raised exactly for its own fault, of some leg or of the net price. */
  lemma FlagMeans(s: Structure, f: Flag)
    ensures f in ConsistencyOf(s).flags <==>
            (exists leg <- s.legs :: Faulty(leg, f)) || (f == NetPriceInconsistent && HasOptions(s.legs) && Inconsistent(s, NetPremium(s.legs)))
  {
    NoOptionLegs(s.legs);
    LegFlagsMean(s.legs, f);
    var raised, net := AllLegFlags(s.legs), NetFlags(s, NetPremium(s.legs));
    assert f in net <==> f == NetPriceInconsistent && Inconsistent(s, NetPremium(s.legs));
    assert f in raised + net <==> f in raised || f in net;
  }

  /** Some quote, or the net price recomputed from the quotes, cannot be traded on. */
  predicate Unusable(s: Structure) {
    (exists leg <- s.legs :: Faulty(leg, BadLongAsk)) || (exists leg <- s.legs :: Faulty(leg, ShortLegBidUnavailable)) ||
    (HasOptions(s.legs) && Inconsistent(s, NetPremium(s.legs)))
  }

  lemma FaultRaised(s: Structure)
    ensures (exists f <- ConsistencyOf(s).flags :: QuoteFault(f)) <==> Unusable(s)
  {
    FlagMeans(s, BadLongAsk);
    FlagMeans(s, ShortLegBidUnavailable);
    FlagMeans(s, NetPriceInconsistent);
  }

  lemma VerdictIsBlocked(raised: seq<Flag>, averageSpread: real)
    ensures Verdict(raised, averageSpread).state == Blocked <==> exists f <- Verdict(raised, averageSpread).flags :: QuoteFault(f)
  {
    assert forall f :: f in raised <==> f in Verdict(raised, averageSpread).flags;
  }

  /** The state is blocked exactly when a leg or the net price is unusable; wide spreads alone only call for caution. */
  lemma BlockedIffUnusable(s: Structure)
    ensures ConsistencyOf(s).state == Blocked <==> Unusable(s)
    ensures ConsistencyOf(s).state == Blocked <==> exists f <- ConsistencyOf(s).flags :: QuoteFault(f)
  {
    FaultRaised(s);
    if OptionLegs(s.legs) > 0 {
      VerdictIsBlocked(AllLegFlags(s.legs) + NetFlags(s, NetPremium(s.legs)), TotalSpread(s.legs) / OptionLegs(s.legs) as real);
    }
  }

  // ----- The verdict in figures -----

  /** A quoted leg is wide when its spread is more than 30 percent of the middle; a leg without a middle always is. */
  lemma WideIff(leg: Leg)
    ensures Wide(leg) <==> leg.side != Stock && (leg.bid + leg.ask <= 0.0 || (leg.ask - leg.bid) * 200.0 > 30.0 * (leg.bid + leg.ask))
  {
    var spread, mid := leg.ask - leg.bid, (leg.bid + leg.ask) / 2.0;
    if mid > 0.0 {
      Exceeds(spread, mid, 0.3);
    }
  }

  lemma Exceeds(x: real, y: real, share: real)
    requires y > 0.0
    ensures x / y > share <==> x > share * y
  {
    assert x / y * y == x;
  }

  /** A leg bought costs its ask and a leg sold brings its bid, once for each contract and once at least; shares count nothing. */
  lemma PremiumIs(leg: Leg)
    ensures LegPremium(leg) ==
            if leg.side == Stock then 0.0
            else if leg.action == Buy then (if leg.qty <= 1 then leg.ask else leg.ask * leg.qty as real)
            else if leg.qty <= 1 then -leg.bid else -(leg.bid * leg.qty as real)
  {
    assert Quantity(leg) as real == if leg.qty <= 1 then 1.0 else leg.qty as real;
  }

  /** How far the recomputed price may lie from the reported one: a nickel up to 20 cents, and a quarter of it from there on. */
  function Tolerance(reported: real): real {
    if reported <= 0.20 then 0.05 else reported / 4.0
  }

  /** The recomputed price disagrees with a reported debit, or its opposite with a reported credit; a price on the other side counts as
      zero. */
  lemma InconsistentIff(s: Structure, net: real)
    ensures Inconsistent(s, net) <==>
            (s.netDebit > 0.0 && !(s.netDebit - Tolerance(s.netDebit) <= (if net < 0.0 then 0.0 else net) <= s.netDebit + Tolerance(s.netDebit))) ||
            (s.netCredit > 0.0 && !(s.netCredit - Tolerance(s.netCredit) <= (if net > 0.0 then 0.0 else -net) <= s.netCredit + Tolerance(s.netCredit)))
  {
  }

  /** Without an unusable quote a structure of option legs is ok when no leg is wide and the spreads average 20 percent at most. */
  lemma StateIs(s: Structure)
    ensures var r := ConsistencyOf(s);
            (r.state == StockOnly <==> !HasOptions(s.legs)) &&
            (r.state == QuotesOk <==>
             HasOptions(s.legs) && !Unusable(s) && (forall leg <- s.legs :: !Wide(leg)) && TotalSpread(s.legs) <= 20.0 * OptionLegs(s.legs) as real)
  {
    NoOptionLegs(s.legs);
    FlagMeans(s, BadLongAsk);
    FlagMeans(s, ShortLegBidUnavailable);
    FlagMeans(s, NetPriceInconsistent);
    FlagMeans(s, LegWideSpread);
    if HasOptions(s.legs) {
      NoneRaised(s);
      AtMostTwenty(TotalSpread(s.legs), OptionLegs(s.legs) as real);
    }
  }

  lemma AtMostTwenty(total: real, n: real)
    requires n > 0.0
    ensures total / n <= 20.0 <==> total <= 20.0 * n
  {
    assert total / n * n == total;
  }

  lemma NoneRaised(s: Structure)
    requires HasOptions(s.legs)
    ensures AllLegFlags(s.legs) + NetFlags(s, NetPremium(s.legs)) == [] <==>
            forall f <- [BadLongAsk, ShortLegBidUnavailable, NetPriceInconsistent, LegWideSpread] :: f !in ConsistencyOf(s).flags
  {
    NoOptionLegs(s.legs);
    var raised := AllLegFlags(s.legs) + NetFlags(s, NetPremium(s.legs));
    assert forall f :: f in raised <==> f in ConsistencyOf(s).flags;
    if raised != [] {
      var f := raised[0];
      assert f in raised;
      FlagMeans(s, f);
    }
  }

  /** A hundred points less 1.6 for each percent of average spread and 18 for each flag raised, repeated ones included; never negative. */
  lemma ScoreIs(s: Structure)
    requires HasOptions(s.legs)
    ensures OptionLegs(s.legs) > 0
    ensures IsScore(ConsistencyOf(s).score, TotalSpread(s.legs), OptionLegs(s.legs) as real, |AllLegFlags(s.legs) + NetFlags(s, NetPremium(s.legs))|)
  {
    NoOptionLegs(s.legs);
    ScoreOfVerdict(AllLegFlags(s.legs) + NetFlags(s, NetPremium(s.legs)), TotalSpread(s.legs), OptionLegs(s.legs) as real);
  }

  predicate IsScore(score: real, total: real, n: real, flags: nat) {
    var rest := (100.0 - 18.0 * flags as real) * n - 1.6 * total;
    if rest <= 0.0 then score == 0.0 else score * n == rest
  }

  lemma ScoreOfVerdict(raised: seq<Flag>, total: real, n: real)
    requires n > 0.0
    ensures IsScore(Verdict(raised, total / n).score, total, n, |raised|)
  {
    Spread(total, n, 100.0 - 18.0 * |raised| as real);
  }

  lemma Spread(total: real, n: real, rest: real)
    requires n > 0.0
    ensures (rest - total / n * 1.6) * n == rest * n - 1.6 * total
    ensures rest - total / n * 1.6 <= 0.0 <==> rest * n - 1.6 * total <= 0.0
  {
    var a := total / n;
    assert a * n == total;
    Signs(rest - a * 1.6, n);
    assert (rest - a * 1.6) * n == rest * n - a * 1.6 * n;
  }

  lemma Signs(x: real, n: real)
    requires n > 0.0
    ensures x <= 0.0 <==> x * n <= 0.0
  {
  }

  // ----- The net price of what the builders build -----

  lemma NetOfSnoc(legs: seq<Leg>, leg: Leg)
    ensures NetPremium(legs + [leg]) == NetPremium(legs) + LegPremium(leg)
  {
    assert (legs + [leg])[..|legs|] == legs;
  }

  lemma NetOfTwo(a: Leg, b: Leg)
    ensures NetPremium([a, b]) == LegPremium(a) + LegPremium(b)
  {
    NetOfSnoc([], a);
    NetOfSnoc([a], b);
    assert [] + [a] == [a] && [a] + [b] == [a, b];
  }

  lemma NetOfThree(a: Leg, b: Leg, c: Leg)
    ensures NetPremium([a, b, c]) == LegPremium(a) + LegPremium(b) + LegPremium(c)
  {
    NetOfTwo(a, b);
    NetOfSnoc([a, b], c);
    assert [a, b] + [c] == [a, b, c];
  }

  lemma NetOfFour(a: Leg, b: Leg, c: Leg, d: Leg)
    ensures NetPremium([a, b, c, d]) == LegPremium(a) + LegPremium(b) + LegPremium(c) + LegPremium(d)
  {
    NetOfThree(a, b, c);
    NetOfSnoc([a, b, c], d);
    assert [a, b, c] + [d] == [a, b, c, d];
  }

  lemma PremiumOf(q: Quote, action: Action, qty: int)
    requires q.side != Stock && (qty == 1 || qty == 2)
    ensures LegPremium(OptionLeg(q, action, qty)) == if action == Buy then qty as real * q.ask else -(qty as real * q.bid)
  {
  }

  lemma PremiumOfPair(a: Quote, aAction: Action, b: Quote, bAction: Action)
    requires a.side != Stock && b.side != Stock
    ensures NetPremium([OptionLeg(a, aAction, 1), OptionLeg(b, bAction, 1)])
            == (if aAction == Buy then a.ask else -a.bid) + (if bAction == Buy then b.ask else -b.bid)
  {
    NetOfTwo(OptionLeg(a, aAction, 1), OptionLeg(b, bAction, 1));
    PremiumOf(a, aAction, 1);
    PremiumOf(b, bAction, 1);
  }

  /** No pair structure, floored or not, is ever reported inconsistent with its own legs. */
  lemma PairsAreConsistent(a: Quote, b: Quote, spot: real)
    requires a.side != Stock && b.side != Stock
    ensures DebitRow(a, b).Some? ==> !Inconsistent(DebitRow(a, b).value, NetPremium(DebitRow(a, b).value.legs))
    ensures CreditRow(a, b).Some? ==> !Inconsistent(CreditRow(a, b).value, NetPremium(CreditRow(a, b).value.legs))
    ensures !Inconsistent(Straddle(a, b), NetPremium(Straddle(a, b).legs))
    ensures !Inconsistent(Strangle(a, b), NetPremium(Strangle(a, b).legs))
    ensures !Inconsistent(Collar(a, b, spot), NetPremium(Collar(a, b, spot).legs))
  {
    PremiumOfPair(a, Buy, b, Sell);
    PremiumOfPair(a, Sell, b, Buy);
    PremiumOfPair(a, Buy, b, Buy);
    PremiumOfPair(b, Buy, a, Sell);
  }

  /** The condor is, exactly when one floored side moves the sum by more than a nickel and a quarter of the credit. */
  lemma CondorConsistency(sellPut: Quote, buyPut: Quote, sellCall: Quote, buyCall: Quote)
    requires IsCondor(sellPut, buyPut, sellCall, buyCall)
    ensures var s := IronCondor(sellPut, buyPut, sellCall, buyCall);
            var raw := CondorRaw(sellPut, buyPut, sellCall, buyCall);
            (Inconsistent(s, NetPremium(s.legs)) <==> s.netCredit - Max(raw, 0.0) > Max(FLOOR, s.netCredit * 0.25)) &&
            (CondorUnfloored(sellPut, buyPut, sellCall, buyCall) ==> !Inconsistent(s, NetPremium(s.legs)))
  {
    NetOfFour(OptionLeg(sellPut, Sell, 1), OptionLeg(buyPut, Buy, 1), OptionLeg(sellCall, Sell, 1), OptionLeg(buyCall, Buy, 1));
    PremiumOf(sellPut, Sell, 1);
    PremiumOf(buyPut, Buy, 1);
    PremiumOf(sellCall, Sell, 1);
    PremiumOf(buyCall, Buy, 1);
    var s := IronCondor(sellPut, buyPut, sellCall, buyCall);
    assert NetPremium(s.legs) == -CondorRaw(sellPut, buyPut, sellCall, buyCall);
  }

  lemma IncomeIsConsistent(q: Quote, spot: real)
    requires q.side != Stock
    ensures !Inconsistent(CoveredCall(q, spot), NetPremium(CoveredCall(q, spot).legs))
    ensures !Inconsistent(CashSecuredPut(q), NetPremium(CashSecuredPut(q).legs))
  {
    NetOfTwo(StockLeg(spot), OptionLeg(q, Sell, 1));
    NetOfSnoc([], OptionLeg(q, Sell, 1));
    PremiumOf(q, Sell, 1);
    assert [] + [OptionLeg(q, Sell, 1)] == [OptionLeg(q, Sell, 1)];
    assert LegPremium(StockLeg(spot)) == 0.0;
    assert CoveredCall(q, spot).legs == [StockLeg(spot), OptionLeg(q, Sell, 1)];
    assert NetPremium(CoveredCall(q, spot).legs) == -q.bid;
    assert CashSecuredPut(q).legs == [OptionLeg(q, Sell, 1)];
    assert NetPremium(CashSecuredPut(q).legs) == -q.bid;
  }

  lemma ButterflyIsConsistent(low: Quote, center: Quote, high: Quote)
    requires IsButterfly(low, center, high)
    ensures !Inconsistent(Butterfly(low, center, high), NetPremium(Butterfly(low, center, high).legs))
  {
    NetOfThree(OptionLeg(low, Buy, 1), OptionLeg(center, Sell, 2), OptionLeg(high, Buy, 1));
    PremiumOf(low, Buy, 1);
    PremiumOf(center, Sell, 2);
    PremiumOf(high, Buy, 1);
    var s := Butterfly(low, center, high);
    assert s.legs == [OptionLeg(low, Buy, 1), OptionLeg(center, Sell, 2), OptionLeg(high, Buy, 1)];
    assert NetPremium(s.legs) == low.ask + high.ask - 2.0 * center.bid;
  }
}
