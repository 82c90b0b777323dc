/** Option structures and their profit and loss at a common expiration (`strategy_structures.py`). Prices are exact dollars. */
module Payoff {
  import opened Options

  datatype Side = Call | Put | Stock
  datatype Action = Buy | Sell

  /** The quote fields of one option candidate that the builders read. */
  datatype Quote = Quote(side: Side, strike: real, bid: real, ask: real, score: real)

  datatype Leg = Leg(side: Side, action: Action, qty: int, strike: real, price: real, bid: real, ask: real)

  datatype Structure = Structure(
    legs: seq<Leg>,
    netDebit: real,
    netCredit: real,
    maxLoss: real,
    maxProfit: Option<real>,  // None is unlimited
    breakevens: seq<real>,
    width: real)

  function Max(x: real, y: real): real {
    if y > x then y else x
  }

  function Min(x: real, y: real): real {
    if y < x then y else x
  }

  function Gap(x: real, y: real): real {
    if x >= y then x - y else y - x
  }

  function Clamp(x: real, low: real, high: real): real {
    Max(low, Min(x, high))
  }

  /** Options are bought at the ask and sold at the bid. */
  function OptionLeg(q: Quote, action: Action, qty: int): Leg {
    Leg(q.side, action, qty, q.strike, if action == Buy then q.ask else q.bid, q.bid, q.ask)
  }

  function StockLeg(spot: real): Leg {
    Leg(Stock, Buy, 100, spot, spot, 0.0, 0.0)
  }

  // ----- Profit and loss, summed leg by leg -----

  /** What one share's worth of the leg is worth when the underlying ends at `terminal`. */
  function Intrinsic(leg: Leg, terminal: real): real {
    match leg.side
    case Call => Max(terminal - leg.strike, 0.0)
    case Put => Max(leg.strike - terminal, 0.0)
    case Stock => terminal
  }

  /** A stock quantity counts shares, an option quantity counts contracts of 100 shares. */
  function Shares(leg: Leg): real {
    (if leg.action == Buy then 1.0 else -1.0) * (if leg.side == Stock then leg.qty as real else 100.0 * leg.qty as real)
  }

  function LegPnl(leg: Leg, terminal: real): real {
    Shares(leg) * (Intrinsic(leg, terminal) - leg.price)
  }

  function Pnl(legs: seq<Leg>, terminal: real): real {
    if legs == [] then 0.0 else LegPnl(legs[0], terminal) + Pnl(legs[1..], terminal)
  }

  // ----- What a reported bound or breakeven promises -----

  ghost predicate LossSound(s: Structure) {
    forall terminal: real :: terminal >= 0.0 ==> -s.maxLoss <= Pnl(s.legs, terminal)
  }

  ghost predicate ProfitSound(s: Structure) {
    s.maxProfit.Some? ==> forall terminal: real :: terminal >= 0.0 ==> Pnl(s.legs, terminal) <= s.maxProfit.value
  }

  ghost predicate LossAttained(s: Structure) {
    exists terminal: real :: terminal >= 0.0 && Pnl(s.legs, terminal) == -s.maxLoss
  }

  ghost predicate ProfitAttained(s: Structure) {
    s.maxProfit.Some? && exists terminal: real :: terminal >= 0.0 && Pnl(s.legs, terminal) == s.maxProfit.value
  }

  /** Both bounds hold for every terminal price and neither can be improved. */
  ghost predicate ExactBounds(s: Structure) {
    LossSound(s) && ProfitSound(s) && LossAttained(s) && ProfitAttained(s)
  }

  /** The reported breakevens are all the prices at which the structure ends flat, and no others. */
  ghost predicate ExactBreakevens(s: Structure) {
    forall terminal: real :: terminal >= 0.0 ==> (Pnl(s.legs, terminal) == 0.0 <==> terminal in s.breakevens)
  }

  lemma PnlOfTwo(a: Leg, b: Leg, terminal: real)
    ensures Pnl([a, b], terminal) == LegPnl(a, terminal) + LegPnl(b, terminal)
  {
    assert [a, b][1..] == [b];
    assert Pnl([b], terminal) == LegPnl(b, terminal) + Pnl([], terminal);
  }

  lemma PnlOfThree(a: Leg, b: Leg, c: Leg, terminal: real)
    ensures Pnl([a, b, c], terminal) == LegPnl(a, terminal) + LegPnl(b, terminal) + LegPnl(c, terminal)
  {
    assert [a, b, c][1..] == [b, c];
    PnlOfTwo(b, c, terminal);
  }

  lemma PnlOfFour(a: Leg, b: Leg, c: Leg, d: Leg, terminal: real)
    ensures Pnl([a, b, c, d], terminal) == LegPnl(a, terminal) + LegPnl(b, terminal) + LegPnl(c, terminal) + LegPnl(d, terminal)
  {
    assert [a, b, c, d][1..] == [b, c, d];
    PnlOfThree(b, c, d, terminal);
  }

  lemma OptionPnl(q: Quote, action: Action, qty: int, terminal: real)
    requires q.side != Stock && (qty == 1 || qty == 2)
    ensures var value := if q.side == Call then Max(terminal - q.strike, 0.0) else Max(q.strike - terminal, 0.0);
            LegPnl(OptionLeg(q, action, qty), terminal) ==
            if action == Buy then 100.0 * qty as real * (value - q.ask) else -100.0 * qty as real * (value - q.bid)
  {
  }
}
