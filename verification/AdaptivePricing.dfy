/** Tick rounding and the adaptive limit walk (`adaptive_pricing.py`), in exact dollars. */
module AdaptivePricing {
  datatype Action = Buy | Sell
  datatype Mode = Market | Limit | Adaptive

  /** A quote row; a missing price is zero. */
  datatype Quote = Quote(available: bool, bid: real, ask: real, limitPrice: real, lastPrice: real, last: real)

  // ----- Ticks -----

  function Ceil(x: real): (n: int)
    ensures x <= n as real < x + 1.0
  {
    -(-x).Floor
  }

  /** Cents below three dollars, nickels from there on. */
  predicate LegalTick(p: real) {
    0.0 < p && if p < 3.0 then (p * 100.0).Floor as real == p * 100.0 else (p * 20.0).Floor as real == p * 20.0
  }

  function Units(x: real, action: Action): int {
    if action == Buy then Ceil(x) else x.Floor
  }

  function RoundToTick(price: real, action: Action): real
    decreases if price < 3.0 then 1 else 0
  {
    if price <= 0.0 then 0.0
    else
      var rounded := if price < 3.0 then Units(price * 100.0, action) as real / 100.0 else Units(price * 20.0, action) as real / 20.0;
      if rounded >= 3.0 && price < 3.0 then RoundToTick(rounded, action)
      else if rounded < 0.01 then 0.01 else rounded
  }

  lemma Above(x: real, n: int)
    requires x <= n as real
    ensures Ceil(x) <= n
  {
  }

  lemma Below(x: real, n: int)
    requires n as real <= x
    ensures n <= x.Floor
  {
  }

  /** A buy is rounded to the least legal tick at or above its price. */
  lemma BuyRoundsUp(p: real)
    requires p > 0.0
    ensures var r := RoundToTick(p, Buy);
            LegalTick(r) && p <= r && forall q :: LegalTick(q) && p <= q ==> r <= q
  {
    forall q | LegalTick(q) && p <= q
      ensures RoundToTick(p, Buy) <= q
    {
      if q < 3.0 {
        Above(p * 100.0, (q * 100.0).Floor);
      } else if p < 3.0 {
        Above(p * 100.0, 300);
      } else {
        Above(p * 20.0, (q * 20.0).Floor);
      }
    }
  }

  /** A sell is rounded to the greatest legal tick at or below its price, or to one cent when there is none. */
  lemma SellRoundsDown(p: real)
    requires p > 0.0
    ensures var r := RoundToTick(p, Sell);
            LegalTick(r) && (if p < 0.01 then r == 0.01 else r <= p) && forall q :: LegalTick(q) && q <= p ==> q <= r
  {
    forall q | LegalTick(q) && q <= p
      ensures q <= RoundToTick(p, Sell)
    {
      if p < 3.0 {
        Below(p * 100.0, (q * 100.0).Floor);
      } else if q >= 3.0 {
        Below(p * 20.0, (q * 20.0).Floor);
      } else {
        Below(p * 20.0, 60);
      }
    }
  }

  lemma LegalTickRoundsToItself(p: real, action: Action)
    requires LegalTick(p)
    ensures RoundToTick(p, action) == p
  {
    if action == Buy {
      BuyRoundsUp(p);
    } else {
      SellRoundsDown(p);
    }
  }

  /** Rounding twice is rounding once. */
  lemma RoundingIsIdempotent(p: real, action: Action)
    ensures RoundToTick(RoundToTick(p, action), action) == RoundToTick(p, action)
  {
    if p > 0.0 {
      if action == Buy {
        BuyRoundsUp(p);
      } else {
        SellRoundsDown(p);
      }
      LegalTickRoundsToItself(RoundToTick(p, action), action);
    }
  }

  lemma RoundingIsMonotone(p: real, q: real, action: Action)
    requires p <= q
    ensures RoundToTick(p, action) <= RoundToTick(q, action)
  {
    if p > 0.0 {
      if action == Buy {
        BuyRoundsUp(p);
        BuyRoundsUp(q);
      } else {
        SellRoundsDown(p);
        SellRoundsDown(q);
      }
    } else if q > 0.0 {
      SellRoundsDown(q);
      BuyRoundsUp(q);
    }
  }

  // ----- Quotes -----

  function FirstPositive(prices: seq<real>): (p: real)
    ensures p >= 0.0
  {
    if prices == [] then 0.0 else if prices[0] > 0.0 then prices[0] else FirstPositive(prices[1..])
  }

  /** The price the plain limit path would use. */
  function QuoteTouchPrice(q: Quote, action: Action): (p: real)
    ensures p >= 0.0
  {
    if !q.available then 0.0
    else if action == Buy then FirstPositive([q.ask, q.limitPrice, q.lastPrice, q.last])
    else FirstPositive([q.bid, q.lastPrice, q.last, q.limitPrice])
  }

  predicate QuoteIsTrustworthy(q: Quote, maxPct: real) {
    q.available && q.bid > 0.0 && q.ask > 0.0 && q.bid <= q.ask && q.ask - q.bid <= (q.bid + q.ask) / 2.0 * (maxPct / 100.0)
  }

  function Clamp01(x: real): (y: real)
    ensures 0.0 <= y <= 1.0
  {
    if x < 0.0 then 0.0 else if x > 1.0 then 1.0 else x
  }

  /** The clamped share of the half spread. */
  function Part(aggr: real, half: real): real {
    Times(Clamp01(aggr), half)
  }

  function Times(x: real, y: real): real {
    x * y
  }

  function WalkPrice(q: Quote, action: Action, aggr: real): real {
    var mid, half := (q.bid + q.ask) / 2.0, (q.ask - q.bid) / 2.0;
    if action == Buy then mid + Part(aggr, half) else mid - Part(aggr, half)
  }

  function AdaptiveLimitPrice(q: Quote, action: Action, aggr: real, maxPct: real): real {
    var conservative := QuoteTouchPrice(q, action);
    var fallback := if conservative > 0.0 then RoundToTick(conservative, action) else 0.0;
    if !QuoteIsTrustworthy(q, maxPct) then fallback
    else if WalkPrice(q, action, aggr) <= 0.0 then fallback
    else RoundToTick(WalkPrice(q, action, aggr), action)
  }

  /** At least as likely to fill: a higher buy or a lower sell. */
  predicate AtLeastAsAggressive(action: Action, p: real, q: real) {
    if action == Buy then p >= q else p <= q
  }

  function Mid(q: Quote): real {
    (q.bid + q.ask) / 2.0
  }

  function Touch(q: Quote, action: Action): real {
    if action == Buy then q.ask else q.bid
  }

  lemma PartGrows(a: real, b: real, half: real)
    requires a <= b && half >= 0.0
    ensures 0.0 <= Part(a, half) <= Part(b, half) <= half
  {
    Fraction(Clamp01(a), Clamp01(b), half);
  }

  lemma Fraction(x: real, y: real, half: real)
    requires 0.0 <= x <= y <= 1.0 && half >= 0.0
    ensures 0.0 <= Times(x, half) <= Times(y, half) <= half
  {
  }

  /** Before rounding the price moves from the middle to the touch as the aggressiveness grows. */
  lemma WalkIsBetween(q: Quote, action: Action, a: real, b: real)
    requires 0.0 < q.bid <= q.ask && a <= b
    ensures AtLeastAsAggressive(action, Touch(q, action), WalkPrice(q, action, b))
    ensures AtLeastAsAggressive(action, WalkPrice(q, action, b), WalkPrice(q, action, a))
    ensures AtLeastAsAggressive(action, WalkPrice(q, action, a), Mid(q))
    ensures WalkPrice(q, action, a) > 0.0 && WalkPrice(q, action, b) > 0.0
  {
    PartGrows(a, b, (q.ask - q.bid) / 2.0);
  }

  /** A trusted quote with its touch on the grid gives a price between the middle and the touch. */
  lemma PriceIsBetweenMidAndTouch(q: Quote, action: Action, aggr: real, maxPct: real)
    requires QuoteIsTrustworthy(q, maxPct) && LegalTick(Touch(q, action))
    ensures var p := AdaptiveLimitPrice(q, action, aggr, maxPct);
            LegalTick(p) && AtLeastAsAggressive(action, Touch(q, action), p) && AtLeastAsAggressive(action, p, Mid(q))
  {
    WalkIsBetween(q, action, aggr, aggr);
    var w := WalkPrice(q, action, aggr);
    assert AdaptiveLimitPrice(q, action, aggr, maxPct) == RoundToTick(w, action);
    if action == Buy {
      BuyRoundsUp(w);
    } else {
      SellRoundsDown(w);
    }
  }

  /** Off the grid the price at the touch is beyond it: staying within the touch is the same as the touch being a tick. */
  lemma WithinTouchIffLegal(q: Quote, action: Action, maxPct: real)
    requires QuoteIsTrustworthy(q, maxPct) && Touch(q, action) >= 0.01
    ensures (forall aggr :: AtLeastAsAggressive(action, Touch(q, action), AdaptiveLimitPrice(q, action, aggr, maxPct))) <==>
            LegalTick(Touch(q, action))
  {
    var touch := Touch(q, action);
    if LegalTick(touch) {
      forall aggr
        ensures AtLeastAsAggressive(action, touch, AdaptiveLimitPrice(q, action, aggr, maxPct))
      {
        PriceIsBetweenMidAndTouch(q, action, aggr, maxPct);
      }
    } else {
      var p := AdaptiveLimitPrice(q, action, 1.0, maxPct);
      assert WalkPrice(q, action, 1.0) == touch;
      if action == Buy {
        BuyRoundsUp(touch);
      } else {
        SellRoundsDown(touch);
      }
      assert !AtLeastAsAggressive(action, touch, p);
    }
  }

  /** Never worse than the plain limit at the touch, whatever the quote and the aggressiveness. */
  lemma NeverWorseThanTheTouch(q: Quote, action: Action, aggr: real, maxPct: real)
    requires QuoteTouchPrice(q, action) > 0.0
    ensures AtLeastAsAggressive(action, RoundToTick(QuoteTouchPrice(q, action), action), AdaptiveLimitPrice(q, action, aggr, maxPct))
  {
    if QuoteIsTrustworthy(q, maxPct) {
      WalkIsBetween(q, action, aggr, aggr);
      if action == Buy {
        RoundingIsMonotone(WalkPrice(q, action, aggr), q.ask, action);
      } else {
        RoundingIsMonotone(q.bid, WalkPrice(q, action, aggr), action);
      }
    }
  }

  lemma PriceIsMonotone(q: Quote, action: Action, a: real, b: real, maxPct: real)
    requires QuoteIsTrustworthy(q, maxPct) && a <= b
    ensures AtLeastAsAggressive(action, AdaptiveLimitPrice(q, action, b, maxPct), AdaptiveLimitPrice(q, action, a, maxPct))
  {
    WalkIsBetween(q, action, a, b);
    if action == Buy {
      RoundingIsMonotone(WalkPrice(q, action, a), WalkPrice(q, action, b), action);
    } else {
      RoundingIsMonotone(WalkPrice(q, action, b), WalkPrice(q, action, a), action);
    }
  }

  // ----- The walk -----

  function AggrForAttempt(attempt: int, attempts: int, start: real): real
    requires 0.0 <= start <= 1.0
  {
    if attempts <= 1 || attempt <= 0 then (if attempt <= 0 then start else 1.0)
    else if attempt >= attempts - 1 then 1.0
    else Clamp01(Linear(start, attempt, attempts - 1))
  }

  /** `attempt` of `last` equal steps from `start` to 1. */
  function Linear(start: real, attempt: int, last: int): real
    requires last > 0
  {
    start + Times((1.0 - start) / last as real, attempt as real)
  }

  lemma Walked(start: real, attempt: nat, last: nat)
    requires 0.0 <= start <= 1.0 && attempt < last
    ensures start <= Linear(start, attempt, last) <= 1.0 && (Linear(start, attempt, last) == 1.0 <==> start == 1.0)
  {
    var step := (1.0 - start) / last as real;
    assert Times(step, last as real) == 1.0 - start;
    assert Times(step, (last - attempt) as real) == Times(step, last as real) - Times(step, attempt as real);
    if start < 1.0 {
      assert step > 0.0;
    }
  }

  lemma StepGrows(start: real, i: nat, j: nat, last: nat)
    requires 0.0 <= start <= 1.0 && i <= j && 0 < last
    ensures Linear(start, i, last) <= Linear(start, j, last)
  {
  }

  lemma AggrRange(i: int, attempts: int, start: real)
    requires 0.0 <= start <= 1.0
    ensures start <= AggrForAttempt(i, attempts, start) <= 1.0
  {
    if 0 < i < attempts - 1 {
      Walked(start, i, attempts - 1);
    }
  }

  lemma AggrGrows(i: int, j: int, attempts: int, start: real)
    requires 0.0 <= start <= 1.0 && i <= j
    ensures start <= AggrForAttempt(i, attempts, start) <= AggrForAttempt(j, attempts, start) <= 1.0
  {
    AggrRange(i, attempts, start);
    AggrRange(j, attempts, start);
    if 0 < i && j < attempts - 1 {
      StepGrows(start, i, j, attempts - 1);
    }
  }

  /** A limit price, or a market order. */
  datatype Exit = AtMarket | AtLimit(price: real)

  /** A plain limit sits at the touch in every cycle; only the adaptive one walks. */
  function ExitAggr(cycle: int, mode: Mode, maxCycles: int, start: real): real
    requires 0.0 <= start <= 1.0
  {
    if mode == Limit then 1.0 else AggrForAttempt(cycle, maxCycles + 1, start)
  }

  function AdaptiveExitDecision(q: Quote, action: Action, cycle: int, mode: Mode, enabled: bool, maxCycles: int, start: real, maxPct: real): Exit
    requires 0.0 <= start <= 1.0
  {
    if mode == Market || (mode == Adaptive && !enabled) || cycle >= maxCycles || !QuoteIsTrustworthy(q, maxPct) then AtMarket
    else
      var aggr := ExitAggr(cycle, mode, maxCycles, start);
      var price := AdaptiveLimitPrice(q, action, aggr, maxPct);
      if price <= 0.0 then AtMarket else AtLimit(price)
  }

  /** The exit goes to market exactly for the guards before the price: the last test never fires. */
  lemma MarketIff(q: Quote, action: Action, cycle: int, mode: Mode, enabled: bool, maxCycles: int, start: real, maxPct: real)
    requires 0.0 <= start <= 1.0
    ensures AdaptiveExitDecision(q, action, cycle, mode, enabled, maxCycles, start, maxPct) == AtMarket <==>
            mode == Market || (mode == Adaptive && !enabled) || cycle >= maxCycles || !QuoteIsTrustworthy(q, maxPct)
  {
    if QuoteIsTrustworthy(q, maxPct) {
      var aggr := ExitAggr(cycle, mode, maxCycles, start);
      WalkIsBetween(q, action, aggr, aggr);
      BuyRoundsUp(WalkPrice(q, action, aggr));
      SellRoundsDown(WalkPrice(q, action, aggr));
    }
  }

  /** At one quote the exit grows weakly more aggressive from cycle to cycle and ends, and stays, at market. */
  lemma ExitEscalates(q: Quote, action: Action, i: int, j: int, mode: Mode, enabled: bool, maxCycles: int, start: real, maxPct: real)
    requires 0.0 <= start <= 1.0 && i <= j
    ensures var first, later := AdaptiveExitDecision(q, action, i, mode, enabled, maxCycles, start, maxPct),
                                AdaptiveExitDecision(q, action, j, mode, enabled, maxCycles, start, maxPct);
            (first == AtMarket ==> later == AtMarket) &&
            (later.AtLimit? ==> first.AtLimit? && AtLeastAsAggressive(action, later.price, first.price))
  {
    MarketIff(q, action, i, mode, enabled, maxCycles, start, maxPct);
    MarketIff(q, action, j, mode, enabled, maxCycles, start, maxPct);
    if AdaptiveExitDecision(q, action, j, mode, enabled, maxCycles, start, maxPct).AtLimit? {
      AggrGrows(i, j, maxCycles + 1, start);
      var a, b := ExitAggr(i, mode, maxCycles, start), ExitAggr(j, mode, maxCycles, start);
      assert a <= b;
      PriceIsMonotone(q, action, a, b, maxPct);
    }
  }

  /** The aggressiveness itself falls short of 1 in every cycle before the market order, unless the walk starts there. */
  lemma WalkStopsShortOfTheTouch(cycle: int, maxCycles: int, start: real)
    requires 0.0 <= start <= 1.0 && cycle < maxCycles
    ensures AggrForAttempt(cycle, maxCycles + 1, start) == 1.0 <==> start == 1.0
  {
    if cycle > 0 {
      Walked(start, cycle, maxCycles);
    }
  }

  // ----- Prices in figures -----

  /** A quote is trusted exactly when its bid has not fallen below the ask times (200 - maxPct) / (200 + maxPct). */
  lemma TrustedIff(q: Quote, maxPct: real)
    ensures QuoteIsTrustworthy(q, maxPct) <==>
            q.available && 0.0 < q.bid <= q.ask && q.bid * (200.0 + maxPct) >= q.ask * (200.0 - maxPct)
  {
    var sum := q.bid + q.ask;
    assert sum / 2.0 * (maxPct / 100.0) == sum * maxPct / 200.0;
    assert q.bid * (200.0 + maxPct) - q.ask * (200.0 - maxPct) == sum * maxPct - 200.0 * (q.ask - q.bid);
  }

  /** So a trusted quote stays trusted when its bid rises towards the ask. */
  lemma CloserIsTrusted(q: Quote, bid: real, maxPct: real)
    requires QuoteIsTrustworthy(q, maxPct) && q.bid <= bid <= q.ask && maxPct >= 0.0
    ensures QuoteIsTrustworthy(q.(bid := bid), maxPct)
  {
    TrustedIff(q, maxPct);
    TrustedIff(q.(bid := bid), maxPct);
    assert bid * (200.0 + maxPct) >= q.bid * (200.0 + maxPct);
  }

  /** A buy of an untrusted quote is priced at the first positive one of ask, limit, last price and last; nothing gives no price. */
  lemma UntrustedBuy(q: Quote, aggr: real, maxPct: real)
    requires !QuoteIsTrustworthy(q, maxPct)
    ensures AdaptiveLimitPrice(q, Buy, aggr, maxPct) ==
            if !q.available then 0.0
            else if q.ask > 0.0 then RoundToTick(q.ask, Buy) else if q.limitPrice > 0.0 then RoundToTick(q.limitPrice, Buy)
            else if q.lastPrice > 0.0 then RoundToTick(q.lastPrice, Buy) else if q.last > 0.0 then RoundToTick(q.last, Buy) else 0.0
  {
    FirstOfFour(q.ask, q.limitPrice, q.lastPrice, q.last);
  }

  /** A sell at that of bid, last price, last and limit. */
  lemma UntrustedSell(q: Quote, aggr: real, maxPct: real)
    requires !QuoteIsTrustworthy(q, maxPct)
    ensures AdaptiveLimitPrice(q, Sell, aggr, maxPct) ==
            if !q.available then 0.0
            else if q.bid > 0.0 then RoundToTick(q.bid, Sell) else if q.lastPrice > 0.0 then RoundToTick(q.lastPrice, Sell)
            else if q.last > 0.0 then RoundToTick(q.last, Sell) else if q.limitPrice > 0.0 then RoundToTick(q.limitPrice, Sell) else 0.0
  {
    FirstOfFour(q.bid, q.lastPrice, q.last, q.limitPrice);
  }

  lemma FirstOfFour(a: real, b: real, c: real, d: real)
    ensures FirstPositive([a, b, c, d]) == if a > 0.0 then a else if b > 0.0 then b else if c > 0.0 then c else if d > 0.0 then d else 0.0
  {
    assert [a, b, c, d][1..] == [b, c, d] && [b, c, d][1..] == [c, d] && [c, d][1..] == [d] && [d][1..] == [];
    assert FirstPositive([d]) == if d > 0.0 then d else 0.0;
    assert FirstPositive([c, d]) == if c > 0.0 then c else FirstPositive([d]);
    assert FirstPositive([b, c, d]) == if b > 0.0 then b else FirstPositive([c, d]);
  }

  /** The price that leaves (1 - aggr) / 2 of the way to `near`. */
  function OnTheWay(far: real, near: real, aggr: real): real {
    (far * (1.0 - aggr) + near * (1.0 + aggr)) / 2.0
  }

  lemma WalkIsOnTheWay(far: real, near: real, aggr: real)
    ensures OnTheWay(far, near, aggr) == (far + near) / 2.0 + Times(aggr, (near - far) / 2.0)
    ensures Times(aggr, (far - near) / 2.0) == -Times(aggr, (near - far) / 2.0)
  {
    assert far * (1.0 - aggr) == far - far * aggr && near * (1.0 + aggr) == near + near * aggr;
  }

  /** A trusted quote is priced on the way from the other side to the touch. */
  lemma TrustedPrice(q: Quote, action: Action, aggr: real, maxPct: real)
    requires QuoteIsTrustworthy(q, maxPct) && 0.0 <= aggr <= 1.0
    ensures AdaptiveLimitPrice(q, action, aggr, maxPct) ==
            RoundToTick(if action == Buy then OnTheWay(q.bid, q.ask, aggr) else OnTheWay(q.ask, q.bid, aggr), action)
  {
    LimitIsRoundedWalk(q, action, aggr, maxPct);
    WalkIsOnTheWay(q.bid, q.ask, aggr);
    WalkIsOnTheWay(q.ask, q.bid, aggr);
  }

  /** An aggressiveness outside 0 and 1 counts as the nearer of the two. */
  lemma AggrIsClamped(q: Quote, action: Action, aggr: real, maxPct: real)
    ensures aggr < 0.0 ==> AdaptiveLimitPrice(q, action, aggr, maxPct) == AdaptiveLimitPrice(q, action, 0.0, maxPct)
    ensures aggr > 1.0 ==> AdaptiveLimitPrice(q, action, aggr, maxPct) == AdaptiveLimitPrice(q, action, 1.0, maxPct)
  {
    assert aggr < 0.0 ==> Clamp01(aggr) == Clamp01(0.0);
    assert aggr > 1.0 ==> Clamp01(aggr) == Clamp01(1.0);
  }

  /** The first attempt is made at the start and the last one at 1; in between the way gone is in proportion to the attempts made. */
  lemma AggrInFigures(attempt: int, attempts: int, start: real)
    requires 0.0 <= start <= 1.0
    ensures attempt <= 0 ==> AggrForAttempt(attempt, attempts, start) == start
    ensures attempt > 0 && attempt >= attempts - 1 ==> AggrForAttempt(attempt, attempts, start) == 1.0
    ensures 0 < attempt < attempts - 1 ==>
              Times(AggrForAttempt(attempt, attempts, start) - start, (attempts - 1) as real) == Times(1.0 - start, attempt as real)
  {
    if 0 < attempt < attempts - 1 {
      Walked(start, attempt, attempts - 1);
      var step, n, k := (1.0 - start) / (attempts - 1) as real, (attempts - 1) as real, attempt as real;
      assert AggrForAttempt(attempt, attempts, start) - start == Times(step, k);
      assert Times(step, n) == 1.0 - start;
      assert Times(Times(step, k), n) == Times(Times(step, n), k);
    }
  }

  /** What a trusted quote is exited at while limits are still tried: a plain limit at the touch, an adaptive one where the walk stands. */
  lemma ExitInFigures(q: Quote, action: Action, cycle: int, maxCycles: int, start: real, maxPct: real)
    requires 0.0 <= start <= 1.0 && cycle < maxCycles && QuoteIsTrustworthy(q, maxPct)
    ensures AdaptiveExitDecision(q, action, cycle, Limit, true, maxCycles, start, maxPct) ==
            AtLimit(RoundToTick(if action == Buy then q.ask else q.bid, action))
    ensures AdaptiveExitDecision(q, action, cycle, Limit, false, maxCycles, start, maxPct) ==
            AdaptiveExitDecision(q, action, cycle, Limit, true, maxCycles, start, maxPct)
    ensures AdaptiveExitDecision(q, action, cycle, Adaptive, true, maxCycles, start, maxPct) ==
            AtLimit(AdaptiveLimitPrice(q, action, AggrForAttempt(cycle, maxCycles + 1, start), maxPct))
  {
    MarketIff(q, action, cycle, Limit, true, maxCycles, start, maxPct);
    MarketIff(q, action, cycle, Adaptive, true, maxCycles, start, maxPct);
    TrustedPrice(q, action, 1.0, maxPct);
  }

  // ----- Limits at the touch -----

  /** The tick between the touch and the next less aggressive price. */
  function TickBefore(touch: real, action: Action): (step: real)
    ensures step > 0.0
  {
    if touch < 3.0 || (action == Buy && touch == 3.0) then 0.01 else 0.05
  }

  lemma TickBelow(touch: real)
    requires LegalTick(touch) && touch > TickBefore(touch, Buy)
    ensures LegalTick(touch - TickBefore(touch, Buy))
  {
    if touch <= 3.0 {
      assert (touch * 100.0 - 1.0).Floor == (touch * 100.0).Floor - 1;
    } else {
      assert (touch * 20.0 - 1.0).Floor == (touch * 20.0).Floor - 1;
    }
  }

  lemma TickAbove(touch: real)
    requires LegalTick(touch)
    ensures LegalTick(touch + TickBefore(touch, Sell))
  {
    if touch < 3.0 {
      assert (touch * 100.0 + 1.0).Floor == (touch * 100.0).Floor + 1;
    } else {
      assert (touch * 20.0 + 1.0).Floor == (touch * 20.0).Floor + 1;
    }
  }

  lemma WholeApart(x: real, y: real)
    requires x < y && x.Floor as real == x && y.Floor as real == y
    ensures x + 1.0 <= y
  {
    IntegersApart(x.Floor, y.Floor);
  }

  lemma IntegersApart(m: int, n: int)
    requires m as real < n as real
    ensures m as real + 1.0 <= n as real
  {
    assert m + 1 <= n;
    assert (m + 1) as real == m as real + 1.0;
  }

  /** Between a tick and the next one there is no other. */
  lemma TicksApart(r: real, t: real)
    requires LegalTick(r) && LegalTick(t) && r < t
    ensures r <= t - TickBefore(t, Buy) && r + TickBefore(r, Sell) <= t
  {
    if t < 3.0 {
      WholeApart(r * 100.0, t * 100.0);
    } else if r < 3.0 {
      WholeApart(r * 100.0, 300.0);
      if t > 3.0 {
        WholeApart(60.0, t * 20.0);
      }
    } else {
      WholeApart(r * 20.0, t * 20.0);
    }
  }

  /** A buy at or below a tick is rounded to it exactly when it lies less than one tick below. */
  lemma BuyReaches(p: real, touch: real)
    requires 0.0 < p <= touch && LegalTick(touch)
    ensures RoundToTick(p, Buy) == touch <==> touch - p < TickBefore(touch, Buy)
  {
    BuyRoundsUp(p);
    if touch - p >= TickBefore(touch, Buy) {
      TickBelow(touch);
    } else if RoundToTick(p, Buy) != touch {
      TicksApart(RoundToTick(p, Buy), touch);
    }
  }

  /** A sell at or above a tick is rounded to it exactly when it lies less than one tick above. */
  lemma SellReaches(p: real, touch: real)
    requires touch <= p && LegalTick(touch)
    ensures RoundToTick(p, Sell) == touch <==> p - touch < TickBefore(touch, Sell)
  {
    SellRoundsDown(p);
    if p - touch >= TickBefore(touch, Sell) {
      TickAbove(touch);
    } else if RoundToTick(p, Sell) != touch {
      TicksApart(touch, RoundToTick(p, Sell));
    }
  }

  /** What is left of the half spread between the unrounded price and the touch. */
  function Remaining(q: Quote, aggr: real): real {
    Times(1.0 - Clamp01(aggr), (q.ask - q.bid) / 2.0)
  }

  lemma WalkLeaves(q: Quote, action: Action, aggr: real)
    ensures Remaining(q, aggr) == if action == Buy then q.ask - WalkPrice(q, action, aggr) else WalkPrice(q, action, aggr) - q.bid
  {
    Complement(Clamp01(aggr), (q.ask - q.bid) / 2.0);
  }

  lemma Complement(x: real, y: real)
    ensures Times(1.0 - x, y) == y - Times(x, y)
  {
  }

  /** A trusted quote with its touch on the grid is priced at the touch exactly when the unrounded price is less than one tick
      from it: rounding to the aggressive side closes the rest of the way. */
  lemma LimitIsAtTheTouchIff(q: Quote, action: Action, aggr: real, maxPct: real)
    requires QuoteIsTrustworthy(q, maxPct) && LegalTick(Touch(q, action))
    ensures AdaptiveLimitPrice(q, action, aggr, maxPct) == Touch(q, action) <==> Remaining(q, aggr) < TickBefore(Touch(q, action), action)
  {
    var w := WalkPrice(q, action, aggr);
    WalkIsBetween(q, action, aggr, aggr);
    WalkLeaves(q, action, aggr);
    LimitIsRoundedWalk(q, action, aggr, maxPct);
    if action == Buy {
      BuyReaches(w, q.ask);
    } else {
      SellReaches(w, q.bid);
    }
  }

  lemma LimitIsRoundedWalk(q: Quote, action: Action, aggr: real, maxPct: real)
    requires QuoteIsTrustworthy(q, maxPct)
    ensures AdaptiveLimitPrice(q, action, aggr, maxPct) == RoundToTick(WalkPrice(q, action, aggr), action)
  {
    WalkIsBetween(q, action, aggr, aggr);
  }

  /** In cycle `cycle` of the walk `maxCycles - cycle` of the equal steps to the touch are left. */
  lemma StepsLeft(q: Quote, cycle: nat, maxCycles: nat, start: real)
    requires 0.0 <= start <= 1.0 && cycle < maxCycles
    ensures Times(Remaining(q, AggrForAttempt(cycle, maxCycles + 1, start)), maxCycles as real)
            == Times(Times(1.0 - start, (maxCycles - cycle) as real), (q.ask - q.bid) / 2.0)
  {
    var n, k, half := maxCycles as real, cycle as real, (q.ask - q.bid) / 2.0;
    var step := (1.0 - start) / n;
    var aggr := AggrForAttempt(cycle, maxCycles + 1, start);
    Walked(start, cycle, maxCycles);
    assert aggr == start + Times(step, k);
    StepTimes(start, step, k, n, half);
  }

  lemma StepTimes(start: real, step: real, k: real, n: real, half: real)
    requires n > 0.0 && step == (1.0 - start) / n
    ensures Times(Times(1.0 - (start + Times(step, k)), half), n) == Times(Times(1.0 - start, n - k), half)
  {
    var rest := 1.0 - start;
    assert Times(step, n) == rest;
    assert Times(step, n - k) == rest - Times(step, k);
    assert Times(Times(step, n - k), n) == Times(rest, n - k);
    assert Times(Times(Times(step, n - k), half), n) == Times(Times(Times(step, n - k), n), half);
  }

  lemma ScaledOrder(x: real, y: real, n: real)
    requires n > 0.0
    ensures x < y <==> Times(x, n) < Times(y, n)
  {
  }

  /** No legal tick lies from the unrounded price up to the touch; no sell is ever priced below a cent. */
  ghost predicate NoTickShort(w: real, touch: real, action: Action) {
    if action == Buy then forall t :: LegalTick(t) && t < touch ==> t < w
    else touch >= 0.01 && forall t :: LegalTick(t) && t > touch ==> t > w
  }

  /** Rounding carries an unrounded price to the touch, or past it, exactly when no tick stops it short. */
  lemma RoundingReaches(w: real, touch: real, action: Action)
    requires 0.0 < touch && 0.0 < w && AtLeastAsAggressive(action, touch, w)
    ensures AtLeastAsAggressive(action, RoundToTick(w, action), touch) <==> NoTickShort(w, touch, action)
  {
    if action == Buy {
      BuyRoundsUp(w);
    } else {
      SellRoundsDown(w);
    }
  }

  /** For every trusted quote, on the grid or off it, a limit is at the touch or beyond it exactly when no tick stops it short. */
  lemma LimitIsMarketableIff(q: Quote, action: Action, aggr: real, maxPct: real)
    requires QuoteIsTrustworthy(q, maxPct)
    ensures AtLeastAsAggressive(action, AdaptiveLimitPrice(q, action, aggr, maxPct), Touch(q, action)) <==>
            NoTickShort(WalkPrice(q, action, aggr), Touch(q, action), action)
  {
    WalkIsBetween(q, action, aggr, aggr);
    LimitIsRoundedWalk(q, action, aggr, maxPct);
    RoundingReaches(WalkPrice(q, action, aggr), Touch(q, action), action);
  }

  predicate Marketable(e: Exit, q: Quote, action: Action) {
    e.AtLimit? && AtLeastAsAggressive(action, e.price, Touch(q, action))
  }

  /** A limit cycle of the walk, the last one included, is marketable exactly when no tick stops its price short of the touch. */
  lemma CycleIsMarketableIff(q: Quote, action: Action, cycle: int, maxCycles: int, start: real, maxPct: real)
    requires 0.0 <= start <= 1.0 && cycle < maxCycles && QuoteIsTrustworthy(q, maxPct)
    ensures Marketable(AdaptiveExitDecision(q, action, cycle, Adaptive, true, maxCycles, start, maxPct), q, action) <==>
            NoTickShort(WalkPrice(q, action, AggrForAttempt(cycle, maxCycles + 1, start)), Touch(q, action), action)
  {
    MarketIff(q, action, cycle, Adaptive, true, maxCycles, start, maxPct);
    LimitIsMarketableIff(q, action, AggrForAttempt(cycle, maxCycles + 1, start), maxPct);
  }

  /** With the touch on the grid that is so exactly when the steps still to go come to less than one tick. In the last limit cycle
      a single step is to go. */
  lemma CycleOnTheGridIff(q: Quote, action: Action, cycle: nat, maxCycles: nat, start: real, maxPct: real)
    requires 0.0 <= start <= 1.0 && cycle < maxCycles && QuoteIsTrustworthy(q, maxPct) && LegalTick(Touch(q, action))
    ensures AdaptiveExitDecision(q, action, cycle, Adaptive, true, maxCycles, start, maxPct) == AtLimit(Touch(q, action)) <==>
            Times(Times(1.0 - start, (maxCycles - cycle) as real), (q.ask - q.bid) / 2.0)
              < Times(TickBefore(Touch(q, action), action), maxCycles as real)
  {
    var aggr := AggrForAttempt(cycle, maxCycles + 1, start);
    LimitIsAtTheTouchIff(q, action, aggr, maxPct);
    StepsLeft(q, cycle, maxCycles, start);
    ScaledOrder(Remaining(q, aggr), TickBefore(Touch(q, action), action), maxCycles as real);
    MarketIff(q, action, cycle, Adaptive, true, maxCycles, start, maxPct);
  }

  /** So the last limit cycle is not always marketable: with a dime's spread, three cycles and the default start it stops a
      cent short of the ask. */
  lemma LastCycleMayStopShort() returns (q: Quote)
    ensures QuoteIsTrustworthy(q, 100.0) && LegalTick(q.ask)
    ensures AdaptiveExitDecision(q, Buy, 2, Adaptive, true, 3, 0.3, 100.0) != AtLimit(q.ask)
    ensures AdaptiveExitDecision(q, Buy, 2, Adaptive, true, 3, 0.3, 100.0).AtLimit?
  {
    q := Quote(true, 1.0, 1.1, 0.0, 0.0, 0.0);
    assert (q.ask * 100.0).Floor == 110;
    CycleOnTheGridIff(q, Buy, 2, 3, 0.3, 100.0);
    MarketIff(q, Buy, 2, Adaptive, true, 3, 0.3, 100.0);
  }
}
