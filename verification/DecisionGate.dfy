/** The market gate that decides what may be traded (`decision_gate.py`). */
module DecisionGate {
  datatype Direction = Bullish | Bearish | Neutral
  datatype Gex = NegativeGamma | PositiveGamma | OtherGex
  datatype Regime = Momentum | BullTrend | BearTrend | Range | Choppy | Unclear
  datatype Signal = BullSignal | BearSignal | NoSignal

  datatype Family =
    | Spread | CreditSpread | Straddle | Strangle | Collar | CoveredCall | CashSecuredPut
    | Calendar | Diagonal | PoorMansCoveredCall | IronCondor | Butterfly

  /** A preferred family; single legs are preferred beside the strategy families. */
  datatype Preference = SingleLeg | Prefers(family: Family)

  datatype Blocker = NoCandidates | PoorExecution

  /** What the gate reads: the states the indicators report and the averages over the first eight candidates. */
  datatype Market = Market(
    bias: Direction,           // the technical bias
    dailyChange: real, intradayChange: real, vsVwap: real, rvol: real,
    framesUp: nat, framesDown: nat,  // of the 15m, 5m and 1m structures
    orb: Signal, vwap: Signal, ema: Signal, macd: Signal,
    gex: Gex, wallDistance: real,
    candidates: nat, execution: real, spread: real, iv: real, probability: real, rewardRisk: real)

  datatype Trigger = Trigger(triggered: bool, score: real, direction: Direction)

  datatype Gate = Gate(
    regime: Regime, majority: Direction, strength: nat, trigger: Trigger, preferred: set<Preference>,
    blockers: seq<Blocker>, shouldTrade: bool, allowSingleLeg: bool, allowStrategy: bool, allowAutoTrade: bool,
    allowed: set<Family>)

  // ----- The candidates behind the averages -----

  /** What the gate reads of one candidate. */
  datatype Row = Row(execution: real, spread: real, iv: real, probability: real, rewardRisk: real)

  function Positives(xs: seq<real>): seq<real> {
    if xs == [] then [] else (if xs[0] > 0.0 then [xs[0]] else []) + Positives(xs[1..])
  }

  function Total(xs: seq<real>): real {
    if xs == [] then 0.0 else xs[0] + Total(xs[1..])
  }

  /** The average of the positive values, zero without any. */
  function Average(xs: seq<real>): real {
    if Positives(xs) == [] then 0.0 else Total(Positives(xs)) / |Positives(xs)| as real
  }

  function Highest(xs: seq<real>): real
    requires xs != []
  {
    if |xs| == 1 then xs[0] else if xs[0] >= Highest(xs[1..]) then xs[0] else Highest(xs[1..])
  }

  function HighestOrZero(xs: seq<real>): real {
    if xs == [] then 0.0 else Highest(xs)
  }

  function Column(rows: seq<Row>, value: Row -> real): (xs: seq<real>)
    ensures |xs| == |rows|
  {
    seq(|rows|, i requires 0 <= i < |rows| => value(rows[i]))
  }

  /** The market's candidate figures are those of the rows: their number, and averages and maxima over the first eight. */
  predicate Summarises(m: Market, rows: seq<Row>) {
    var first := if |rows| < 8 then rows else rows[..8];
    m.candidates == |rows| &&
    m.execution == Average(Column(first, (r: Row) => r.execution)) && m.spread == Average(Column(first, (r: Row) => r.spread)) &&
    m.iv == Average(Column(first, (r: Row) => r.iv)) &&
    m.probability == HighestOrZero(Column(first, (r: Row) => r.probability)) &&
    m.rewardRisk == HighestOrZero(Column(first, (r: Row) => r.rewardRisk))
  }

  lemma AverageOfOne(x: real)
    requires x > 0.0
    ensures Average([x]) == x
  {
    assert [x][1..] == [] && [x] + [] == [x];
    assert Positives([x]) == [x];
    assert Total([x]) == x;
  }

  lemma SummaryOfOne(m: Market, r: Row)
    requires r.execution > 0.0 && r.spread > 0.0 && r.iv > 0.0
    requires m.candidates == 1 && m.execution == r.execution && m.spread == r.spread && m.iv == r.iv
    requires m.probability == r.probability && m.rewardRisk == r.rewardRisk
    ensures Summarises(m, [r])
  {
    AverageOfOne(r.execution);
    AverageOfOne(r.spread);
    AverageOfOne(r.iv);
    assert Column([r], (q: Row) => q.execution) == [r.execution] && Column([r], (q: Row) => q.spread) == [r.spread];
    assert Column([r], (q: Row) => q.iv) == [r.iv];
    assert Column([r], (q: Row) => q.probability) == [r.probability] && Column([r], (q: Row) => q.rewardRisk) == [r.rewardRisk];
  }

  // ----- Regime, votes and trigger -----

  function Magnitude(x: real): real {
    if x < 0.0 then -x else x
  }

  function RegimeOf(m: Market): Regime {
    if m.bias == Bullish && m.intradayChange > 0.0 && m.vsVwap >= 0.0 then
      (if m.gex == NegativeGamma && m.rvol >= 1.3 then Momentum else BullTrend)
    else if m.bias == Bearish && m.intradayChange < 0.0 && m.vsVwap <= 0.0 then
      (if m.gex == NegativeGamma && m.rvol >= 1.3 then Momentum else BearTrend)
    else if Magnitude(m.dailyChange) < 0.6 && Magnitude(m.vsVwap) < 0.25 then Range
    else if m.dailyChange * m.intradayChange < 0.0 then Choppy
    else Unclear
  }

  function VoteOf(s: Signal): Direction {
    match s case BullSignal => Bullish case BearSignal => Bearish case NoSignal => Neutral
  }

  /** Daily trend, intraday structure, VWAP, opening range, gamma and MACD each cast one vote. */
  function Votes(m: Market): seq<Direction> {
    [if m.dailyChange > 0.35 then Bullish else if m.dailyChange < -0.35 then Bearish else Neutral,
     if m.framesUp > m.framesDown then Bullish else if m.framesDown > m.framesUp then Bearish else Neutral,
     VoteOf(m.vwap), VoteOf(m.orb),
     if m.gex != NegativeGamma then Neutral else if m.bias == Bearish then Bearish else Bullish,
     VoteOf(m.macd)]
  }

  function Count(votes: seq<Direction>, d: Direction): nat {
    if votes == [] then 0 else Count(votes[1..], d) + (if votes[0] == d then 1 else 0)
  }

  function Majority(m: Market): Direction {
    var v := Votes(m);
    if Count(v, Bullish) > Count(v, Bearish) && Count(v, Bullish) > Count(v, Neutral) then Bullish
    else if Count(v, Bearish) > Count(v, Bullish) && Count(v, Bearish) > Count(v, Neutral) then Bearish
    else Neutral
  }

  function Strength(m: Market): nat {
    var bull, bear := Count(Votes(m), Bullish), Count(Votes(m), Bearish);
    if Majority(m) == Bearish || (Majority(m) == Neutral && bear > bull) then bear else bull
  }

  function One(x: Direction, d: Direction): nat {
    if x == d then 1 else 0
  }

  lemma CountSix(u: Direction, v: Direction, w: Direction, x: Direction, y: Direction, z: Direction, d: Direction)
    ensures Count([u, v, w, x, y, z], d) == One(u, d) + One(v, d) + One(w, d) + One(x, d) + One(y, d) + One(z, d)
  {
    assert [u, v, w, x, y, z] == [u, v, w] + [x, y, z];
    CountThree(u, v, w, d);
    CountThree(x, y, z, d);
    CountAppend([u, v, w], [x, y, z], d);
  }

  lemma CountThree(x: Direction, y: Direction, z: Direction, d: Direction)
    ensures Count([x, y, z], d) == One(x, d) + One(y, d) + One(z, d)
  {
    assert [z][1..] == [] && [y, z][1..] == [z] && [x, y, z][1..] == [y, z];
    assert Count([z], d) == One(z, d);
    assert Count([y, z], d) == One(y, d) + One(z, d);
  }

  lemma {:induction false} CountAppend(a: seq<Direction>, b: seq<Direction>, d: Direction)
    ensures Count(a + b, d) == Count(a, d) + Count(b, d)
  {
    if a == [] {
      assert a + b == b;
    } else {
      assert (a + b)[1..] == a[1..] + b;
      CountAppend(a[1..], b, d);
    }
  }

  function Points(s: Signal, points: real): real {
    if s == NoSignal then 0.0 else points
  }

  /** The first signal that takes a side, in the order opening range, VWAP, EMA, MACD. */
  function SignalDirection(m: Market): Direction {
    if m.orb != NoSignal then VoteOf(m.orb)
    else if m.vwap != NoSignal then VoteOf(m.vwap)
    else if m.ema != NoSignal then VoteOf(m.ema)
    else VoteOf(m.macd)
  }

  function TriggerOf(m: Market): Trigger {
    var score := Points(m.orb, 30.0) + Points(m.vwap, 20.0) + Points(m.ema, 15.0) + (if m.rvol >= 1.3 then 15.0 else 0.0) + Points(m.macd, 15.0)
                 + (if m.gex == NegativeGamma && SignalDirection(m) != Neutral then 10.0 else if m.gex == PositiveGamma then 5.0 else 0.0);
    var direction := if SignalDirection(m) == Neutral then m.bias else SignalDirection(m);
    Trigger(score >= 60.0 && direction != Neutral, score, direction)
  }

  /** The score and direction accumulated signal by signal. */
  method SingleLegTrigger(m: Market) returns (trigger: Trigger)
    ensures trigger == TriggerOf(m)
    ensures trigger.triggered ==> trigger.direction != Neutral && 60.0 <= trigger.score <= 105.0
  {
    var score, direction := 0.0, Neutral;
    if m.orb == BullSignal {
      score, direction := score + 30.0, Bullish;
    } else if m.orb == BearSignal {
      score, direction := score + 30.0, Bearish;
    }
    if m.vwap != NoSignal {
      score := score + 20.0;
      if direction == Neutral {
        direction := VoteOf(m.vwap);
      }
    }
    if m.ema != NoSignal {
      score := score + 15.0;
      if direction == Neutral {
        direction := VoteOf(m.ema);
      }
    }
    if m.rvol >= 1.3 {
      score := score + 15.0;
    }
    if m.macd != NoSignal {
      score := score + 15.0;
      if direction == Neutral {
        direction := VoteOf(m.macd);
      }
    }
    if m.gex == NegativeGamma && direction != Neutral {
      score := score + 10.0;
    } else if m.gex == PositiveGamma {
      score := score + 5.0;
    }
    if m.bias != Neutral && direction == Neutral {
      direction := m.bias;
    }
    trigger := Trigger(score >= 60.0 && direction != Neutral, score, direction);
  }

  // ----- The permissions, stated directly -----

  predicate Trends(r: Regime) {
    r == BullTrend || r == BearTrend || r == Momentum
  }

  predicate Ranges(r: Regime) {
    r == Range || r == Choppy
  }

  function BlockBelow(low: bool): real { if low then 25.0 else 35.0 }

  predicate PoorlyExecuted(m: Market, low: bool) {
    m.execution != 0.0 && m.execution < BlockBelow(low)
  }

  predicate ShouldTrade(m: Market, low: bool) {
    m.candidates > 0 && !PoorlyExecuted(m, low)
  }

  predicate AllowsAuto(m: Market, low: bool) {
    m.candidates > 0 && !PoorlyExecuted(m, low) &&
    m.spread <= (if low then 35.0 else 30.0) &&
    !(m.probability != 0.0 && m.probability < (if low then 15.0 else 18.0) && m.rewardRisk < (if low then 6.0 else 8.0))
  }

  /** The hard trigger fired with at least three votes of the majority on its side, away from a positive-gamma wall in a
      range; a negative-gamma trend makes up even for an empty candidate list. */
  predicate FirmSingleLeg(m: Market) {
    TriggerOf(m).triggered && Majority(m) == TriggerOf(m).direction && Strength(m) >= 3 &&
    if m.gex == NegativeGamma && Trends(RegimeOf(m)) then true
    else m.candidates > 0 && !(m.gex == PositiveGamma && m.wallDistance != 0.0 && m.wallDistance <= 1.5 && Ranges(RegimeOf(m)))
  }

  /** The low profile's exception for a strong trigger in a liquid chain. */
  predicate SoftOverride(m: Market) {
    ShouldTrade(m, true) && AllowsAuto(m, true) && TriggerOf(m).triggered && TriggerOf(m).score >= 65.0 &&
    (Majority(m) == Neutral || Majority(m) == TriggerOf(m).direction) && Strength(m) >= 3 &&
    m.execution >= 75.0 && m.spread <= 8.0 && (m.probability >= 35.0 || m.rewardRisk >= 80.0)
  }

  predicate AllowsSingleLeg(m: Market, low: bool) {
    FirmSingleLeg(m) || (low && SoftOverride(m))
  }

  /** What preferences and family conditions look at. */
  datatype Climate = Climate(regime: Regime, majority: Direction, trigger: Trigger, gex: Gex, iv: real)

  function ClimateOf(m: Market): Climate {
    Climate(RegimeOf(m), Majority(m), TriggerOf(m), m.gex, m.iv)
  }

  function PreferencesIn(c: Climate): set<Preference> {
    if c.majority == Neutral && c.iv < 60.0 && c.gex == OtherGex then {}
    else
      (if Trends(c.regime) && c.gex == NegativeGamma then {SingleLeg, Prefers(Spread)}
       else if Trends(c.regime) && c.iv >= 65.0 then {Prefers(Spread), Prefers(CreditSpread), Prefers(Diagonal)}
       else if Ranges(c.regime) && c.gex == PositiveGamma then {Prefers(IronCondor), Prefers(Butterfly), Prefers(Calendar), Prefers(CreditSpread)}
       else if c.iv >= 70.0 && c.majority == Neutral then {Prefers(Straddle), Prefers(Strangle)}
       else if c.majority != Neutral then {SingleLeg, Prefers(Spread)}
       else {}) +
      (if c.majority == Bullish && c.iv >= 55.0 then {Prefers(CashSecuredPut), Prefers(PoorMansCoveredCall)} else {}) +
      (if c.majority == Neutral && c.iv < 65.0 then {Prefers(Calendar)} else {}) +
      (if c.trigger.triggered then {SingleLeg} else {})
  }

  function PreferredFor(m: Market): set<Preference> {
    PreferencesIn(ClimateOf(m))
  }

  predicate RangeBound(c: Climate) {
    Ranges(c.regime) || c.gex == PositiveGamma
  }

  predicate Directional(c: Climate) {
    c.majority != Neutral || c.trigger.direction != Neutral
  }

  predicate Fired(t: Trigger, score: real) {
    t.triggered && t.score >= score
  }

  /** The condition of one family, once trading is allowed at all. */
  predicate Suits(f: Family, c: Climate, low: bool) {
    var creditIv, buyIv := if low then 35.0 else 45.0, if low then 60.0 else 65.0;
    match f
    case Spread => Directional(c)
    case CreditSpread => (Directional(c) || RangeBound(c)) && c.iv >= creditIv
    case Straddle => (c.majority == Neutral && c.iv >= buyIv) || (c.gex == NegativeGamma && Fired(c.trigger, 65.0))
    case Strangle => (c.majority == Neutral && c.iv >= buyIv) || (c.gex == NegativeGamma && Fired(c.trigger, 65.0))
    case Calendar => (RangeBound(c) && !(c.gex == NegativeGamma && Trends(c.regime))) || (c.majority == Neutral && c.iv < 65.0)
    case Diagonal => c.majority != Neutral
    case PoorMansCoveredCall => c.majority != Neutral
    case IronCondor => RangeBound(c) && c.iv >= creditIv && !Fired(c.trigger, 75.0)
    case Butterfly => RangeBound(c) && !(c.gex == NegativeGamma && Trends(c.regime))
    case CoveredCall => c.majority != Bearish
    case CashSecuredPut => c.majority != Bearish
    case Collar => c.majority != Bullish || Ranges(c.regime)
  }

  /** Execution and spreads good enough for structures. */
  predicate Fit(m: Market, low: bool) {
    !(m.execution != 0.0 && m.execution < (if low then 35.0 else 45.0)) && m.spread <= (if low then 40.0 else 35.0)
  }

  predicate FamilyAllowed(f: Family, m: Market, low: bool) {
    ShouldTrade(m, low) && Fit(m, low) && Suits(f, ClimateOf(m), low)
  }

  function AllowedFamilies(m: Market, low: bool): set<Family> {
    set f: Family | FamilyAllowed(f, m, low)
  }

  predicate AllowsStrategy(m: Market, low: bool) {
    if ShouldTrade(m, low) then AllowedFamilies(m, low) != {}
    else PreferredFor(m) != {} && (m.candidates > 0 || (Ranges(RegimeOf(m)) && m.gex == PositiveGamma))
  }

  function Blockers(m: Market, low: bool): seq<Blocker> {
    (if m.candidates == 0 then [NoCandidates] else []) + (if PoorlyExecuted(m, low) then [PoorExecution] else [])
  }

  function GateOf(m: Market, low: bool): Gate {
    Gate(RegimeOf(m), Majority(m), Strength(m), TriggerOf(m), PreferredFor(m), Blockers(m, low), ShouldTrade(m, low),
         AllowsSingleLeg(m, low), AllowsStrategy(m, low), AllowsAuto(m, low), AllowedFamilies(m, low))
  }

  // ----- The program -----

  datatype FamilyGate = FamilyGate(allowed: bool, blocked: bool)

  /** The order in which the families are judged. */
  function Place(f: Family): nat {
    match f
    case Spread => 0 case CreditSpread => 1 case Straddle => 2 case Strangle => 3 case Calendar => 4 case Diagonal => 5
    case PoorMansCoveredCall => 6 case IronCondor => 7 case Butterfly => 8 case CoveredCall => 9 case CashSecuredPut => 10 case Collar => 11
  }

  function Verdict(f: Family, c: Climate, low: bool): FamilyGate {
    FamilyGate(Suits(f, c, low), !Suits(f, c, low))
  }

  /** The first `done` families are judged, each allowed or blocked and not both; the others are still open. */
  ghost predicate Judged(gates: map<Family, FamilyGate>, c: Climate, low: bool, done: nat) {
    forall f: Family :: f in gates && gates[f] == if Place(f) < done then Verdict(f, c, low) else FamilyGate(false, false)
  }

  method Rule(gates: map<Family, FamilyGate>, f: Family, allow: bool, ghost c: Climate, ghost low: bool)
    returns (r: map<Family, FamilyGate>)
    requires Judged(gates, c, low, Place(f)) && allow == Suits(f, c, low)
    ensures Judged(r, c, low, Place(f) + 1)
  {
    r := gates[f := FamilyGate(allow, !allow)];
    forall g: Family
      ensures g in r && r[g] == if Place(g) < Place(f) + 1 then Verdict(g, c, low) else FamilyGate(false, false)
    {
    }
  }

  method JudgeSpreads(c: Climate, low: bool, gates: map<Family, FamilyGate>) returns (r: map<Family, FamilyGate>)
    requires Judged(gates, c, low, 0)
    ensures Judged(r, c, low, 2)
  {
    var rangeBound := Ranges(c.regime) || c.gex == PositiveGamma;
    var directional := c.majority != Neutral || c.trigger.direction != Neutral;
    var creditIv := if low then 35.0 else 45.0;
    r := Rule(gates, Spread, directional, c, low);
    var credit := false;
    if directional && c.iv >= creditIv {
      credit := true;
    } else if rangeBound && c.iv >= creditIv {
      credit := true;
    }
    r := Rule(r, CreditSpread, credit, c, low);
  }

  method JudgeVolatility(c: Climate, low: bool, gates: map<Family, FamilyGate>) returns (r: map<Family, FamilyGate>)
    requires Judged(gates, c, low, 2)
    ensures Judged(r, c, low, 4)
  {
    var expansion := (c.majority == Neutral && c.iv >= (if low then 60.0 else 65.0))
                     || (c.gex == NegativeGamma && c.trigger.triggered && c.trigger.score >= 65.0);
    r := Rule(gates, Straddle, expansion, c, low);
    r := Rule(r, Strangle, expansion, c, low);
  }

  method JudgeTimeSpreads(c: Climate, low: bool, gates: map<Family, FamilyGate>) returns (r: map<Family, FamilyGate>)
    requires Judged(gates, c, low, 4)
    ensures Judged(r, c, low, 7)
  {
    var calendar := false;
    if (Ranges(c.regime) || c.gex == PositiveGamma) && !(c.gex == NegativeGamma && Trends(c.regime)) {
      calendar := true;
    } else if c.majority == Neutral && c.iv < 65.0 {
      calendar := true;
    }
    r := Rule(gates, Calendar, calendar, c, low);
    r := JudgeDiagonals(c, low, r);
  }

  method JudgeDiagonals(c: Climate, low: bool, gates: map<Family, FamilyGate>) returns (r: map<Family, FamilyGate>)
    requires Judged(gates, c, low, 5)
    ensures Judged(r, c, low, 7)
  {
    var directional := c.majority != Neutral || c.trigger.direction != Neutral;
    r := Rule(gates, Diagonal, directional && c.majority != Neutral, c, low);
    r := Rule(r, PoorMansCoveredCall, directional && c.majority != Neutral, c, low);
  }

  method JudgeWings(c: Climate, low: bool, gates: map<Family, FamilyGate>) returns (r: map<Family, FamilyGate>)
    requires Judged(gates, c, low, 7)
    ensures Judged(r, c, low, 9)
  {
    var rangeBound := Ranges(c.regime) || c.gex == PositiveGamma;
    var creditIv := if low then 35.0 else 45.0;
    r := Rule(gates, IronCondor, rangeBound && c.iv >= creditIv && !(c.trigger.triggered && c.trigger.score >= 75.0), c, low);
    r := Rule(r, Butterfly, rangeBound && !(c.gex == NegativeGamma && Trends(c.regime)), c, low);
  }

  method JudgeStockBacked(c: Climate, low: bool, gates: map<Family, FamilyGate>) returns (r: map<Family, FamilyGate>)
    requires Judged(gates, c, low, 9)
    ensures Judged(r, c, low, 12)
  {
    r := Rule(gates, CoveredCall, c.majority != Bearish, c, low);
    r := Rule(r, CashSecuredPut, c.majority != Bearish, c, low);
    r := Rule(r, Collar, c.majority == Bearish || c.majority == Neutral || c.regime == Choppy || c.regime == Range, c, low);
  }

  ghost predicate Uniform(gates: map<Family, FamilyGate>, g: FamilyGate) {
    forall f: Family :: f in gates && gates[f] == g
  }

  method AllGates(g: FamilyGate) returns (gates: map<Family, FamilyGate>)
    ensures Uniform(gates, g)
  {
    gates := map f: Family | Place(f) < 12 :: g;
  }

  /** The closing pass allows a preferred family that was neither allowed nor blocked: there is none. */
  method AllowPreferred(gates: map<Family, FamilyGate>, preferred: set<Preference>, ghost c: Climate, ghost low: bool)
    returns (r: map<Family, FamilyGate>)
    requires Judged(gates, c, low, 12)
    ensures Judged(r, c, low, 12)
  {
    r := map f: Family | Place(f) < 12 ::
      if Prefers(f) in preferred && !gates[f].allowed && !gates[f].blocked then FamilyGate(true, false) else gates[f];
  }

  /** Every family is allowed or blocked, exactly one of the two. */
  method StrategyFamilyGates(m: Market, low: bool, c: Climate, preferred: set<Preference>, blockers: nat, shouldTrade: bool)
    returns (gates: map<Family, FamilyGate>)
    ensures shouldTrade && blockers == 0 && Fit(m, low) ==> Judged(gates, c, low, 12)
    ensures !(shouldTrade && blockers == 0 && Fit(m, low)) ==> Uniform(gates, FamilyGate(false, true))
  {
    if !shouldTrade || blockers > 0 || (m.execution != 0.0 && m.execution < (if low then 35.0 else 45.0)) || m.spread > (if low then 40.0 else 35.0) {
      gates := AllGates(FamilyGate(false, true));
      return;
    }
    gates := AllGates(FamilyGate(false, false));
    gates := JudgeSpreads(c, low, gates);
    gates := JudgeVolatility(c, low, gates);
    gates := JudgeTimeSpreads(c, low, gates);
    gates := JudgeWings(c, low, gates);
    gates := JudgeStockBacked(c, low, gates);
    gates := AllowPreferred(gates, preferred, c, low);
  }

  method AllowedStrategyFamilies(m: Market, low: bool, c: Climate, preferred: set<Preference>, blockers: nat, shouldTrade: bool)
    returns (allowed: set<Family>)
    requires shouldTrade == ShouldTrade(m, low) && (blockers == 0 <==> shouldTrade) && c == ClimateOf(m)
    ensures allowed == AllowedFamilies(m, low)
  {
    var gates := StrategyFamilyGates(m, low, c, preferred, blockers, shouldTrade);
    allowed := set f | f in gates && gates[f].allowed;
    forall f: Family
      ensures f in allowed <==> FamilyAllowed(f, m, low)
    {
      assert f in gates;
    }
  }

  /** The flags reassigned in the order the program reassigns them. */
  method BuildDecisionEnvironmentGate(m: Market, low: bool) returns (gate: Gate)
    ensures gate == GateOf(m, low)
  {
    var regime, majority, strength := RegimeOf(m), Majority(m), Strength(m);
    var trigger := SingleLegTrigger(m);
    var preferred := PreferredFor(m);
    var blockers: seq<Blocker> := [];
    var allowSingleLeg, allowStrategy, allowAutoTrade, shouldTrade := true, true, true, true;
    if m.candidates == 0 {
      blockers := blockers + [NoCandidates];
      allowSingleLeg, allowStrategy, allowAutoTrade, shouldTrade := false, false, false, false;
    }
    if m.execution != 0.0 && m.execution < (if low then 25.0 else 35.0) {
      blockers := blockers + [PoorExecution];
      allowAutoTrade := false;
    }
    if m.spread > (if low then 35.0 else 30.0) {
      allowAutoTrade := false;
    }
    if m.gex == PositiveGamma {
      if m.wallDistance != 0.0 && m.wallDistance <= 1.5 && Ranges(regime) {
        allowSingleLeg := false;
      }
    } else if m.gex == NegativeGamma {
      if Trends(regime) {
        allowSingleLeg := true;
      }
    }
    if m.probability != 0.0 && m.probability < (if low then 15.0 else 18.0) && m.rewardRisk < (if low then 6.0 else 8.0) {
      allowAutoTrade := false;
    }
    if !trigger.triggered {
      allowSingleLeg := false;
    } else if majority != Neutral && trigger.direction != Neutral && majority != trigger.direction {
      allowSingleLeg := false;
    }
    if majority == Neutral || strength < 3 {
      allowSingleLeg := false;
    }
    if low && SoftSingleLegOverride(m, trigger, majority, strength, |blockers|, allowAutoTrade, shouldTrade) {
      allowSingleLeg := true;
    }
    if Ranges(regime) && m.gex == PositiveGamma {
      allowStrategy := true;
    }
    if preferred == {} {
      allowStrategy := false;
    }
    if blockers != [] {
      shouldTrade := false;
    }
    var allowed := AllowedStrategyFamilies(m, low, Climate(regime, majority, trigger, m.gex, m.iv), preferred, |blockers|, shouldTrade);
    if shouldTrade {
      allowStrategy := allowed != {};
    }
    gate := Gate(regime, majority, strength, trigger, preferred, blockers, shouldTrade, allowSingleLeg, allowStrategy, allowAutoTrade, allowed);
  }

  predicate SoftSingleLegOverride(m: Market, trigger: Trigger, majority: Direction, strength: nat, blockers: nat, allowAutoTrade: bool, shouldTrade: bool) {
    if !shouldTrade || !allowAutoTrade || blockers > 0 then false
    else if !trigger.triggered || trigger.direction == Neutral then false
    else if trigger.score < 65.0 then false
    else if majority != Neutral && majority != trigger.direction then false
    else if strength < 3 then false
    else if m.execution < 75.0 || m.spread > 8.0 then false
    else m.probability >= 35.0 || m.rewardRisk >= 80.0
  }

  // ----- What the gate promises -----

  /** Nothing is traded with a blocker, automatically or not. */
  lemma BlockersStopTrading(m: Market, low: bool)
    ensures var g := GateOf(m, low);
            (g.shouldTrade <==> g.blockers == []) && (g.allowAutoTrade ==> g.shouldTrade) && (g.allowed != {} ==> g.shouldTrade)
  {
  }

  /** In the normal profile a single leg needs a fired trigger on the side of the majority. */
  lemma SingleLegFollowsMajority(m: Market)
    requires GateOf(m, false).allowSingleLeg
    ensures var g := GateOf(m, false);
            g.trigger.triggered && g.trigger.direction == g.majority && g.majority != Neutral && g.strength >= 3
  {
  }

  /** A blocked gate keeps single legs allowed exactly when the firm conditions hold although nothing should be traded. */
  lemma BlockedGateKeepsSingleLeg(m: Market, low: bool)
    ensures GateOf(m, low).blockers != [] && GateOf(m, low).allowSingleLeg <==> FirmSingleLeg(m) && !ShouldTrade(m, low)
  {
  }

  /** Without candidates that takes a negative-gamma trend; a chain that executes too poorly to trade never matters to them. */
  lemma BlockedGateByCause(m: Market, low: bool)
    ensures m.candidates == 0 ==>
              (GateOf(m, low).allowSingleLeg <==>
               TriggerOf(m).triggered && Majority(m) == TriggerOf(m).direction && Strength(m) >= 3 && m.gex == NegativeGamma && Trends(RegimeOf(m)))
    ensures PoorlyExecuted(m, low) ==> (GateOf(m, low).allowSingleLeg <==> FirmSingleLeg(m))
  {
    BlockedGateKeepsSingleLeg(m, low);
  }

  /** Both happen: in one strong trend, an empty chain and a chain of one candidate of poor execution. */
  lemma BlockedGatesExist() returns (empty: Market, poor: Market, row: Row)
    ensures Summarises(empty, []) && GateOf(empty, false).blockers == [NoCandidates] && GateOf(empty, false).allowSingleLeg
    ensures Summarises(poor, [row]) && GateOf(poor, false).blockers == [PoorExecution] && GateOf(poor, false).allowSingleLeg
  {
    empty := Market(Bullish, 1.0, 1.0, 1.0, 2.0, 3, 0, BullSignal, BullSignal, BullSignal, BullSignal, NegativeGamma, 0.0, 0, 0.0, 0.0, 0.0, 0.0, 0.0);
    AllBullish(empty);
    row := Row(20.0, 9.0, 50.0, 40.0, 10.0);
    poor := empty.(candidates := 1, execution := 20.0, spread := 9.0, iv := 50.0, probability := 40.0, rewardRisk := 10.0);
    AllBullish(poor);
    SummaryOfOne(poor, row);
    BlockedGateKeepsSingleLeg(empty, false);
    BlockedGateKeepsSingleLeg(poor, false);
  }

  lemma AllBullish(m: Market)
    requires Votes(m) == [Bullish, Bullish, Bullish, Bullish, Bullish, Bullish]
    ensures Majority(m) == Bullish && Strength(m) == 6
  {
    CountAll(Bullish, 6);
    CountOther(Bullish, Bearish, 6);
    CountOther(Bullish, Neutral, 6);
    assert seq(6, i => Bullish) == Votes(m);
  }

  lemma {:induction false} CountAll(d: Direction, n: nat)
    ensures Count(seq(n, i => d), d) == n
  {
    if n > 0 {
      CountAll(d, n - 1);
      assert seq(n, i => d)[1..] == seq(n - 1, i => d);
    }
  }

  lemma {:induction false} CountOther(d: Direction, e: Direction, n: nat)
    requires d != e
    ensures Count(seq(n, i => d), e) == 0
  {
    if n > 0 {
      CountOther(d, e, n - 1);
      assert seq(n, i => d)[1..] == seq(n - 1, i => d);
    }
  }

  /** Everything the normal profile permits, the low profile permits on the same market. */
  lemma LowPermitsWhatNormalDoes(m: Market)
    ensures var normal, low := GateOf(m, false), GateOf(m, true);
            (normal.shouldTrade ==> low.shouldTrade) &&
            (normal.allowAutoTrade ==> low.allowAutoTrade) &&
            (normal.allowSingleLeg ==> low.allowSingleLeg) &&
            normal.allowed <= low.allowed &&
            (normal.shouldTrade && normal.allowStrategy ==> low.shouldTrade && low.allowStrategy)
  {
    forall f: Family
      ensures FamilyAllowed(f, m, false) ==> FamilyAllowed(f, m, true)
    {
    }
    assert AllowedFamilies(m, false) <= AllowedFamilies(m, true);
  }

  /** The bare strategy flag is the exception: it is withdrawn by the low profile exactly for the execution scores that
      block the normal profile but not the low one, when some family is preferred. */
  lemma StrategyFlagWithdrawn(m: Market)
    ensures GateOf(m, false).allowStrategy && !GateOf(m, true).allowStrategy <==>
            m.candidates > 0 && 25.0 <= m.execution < 35.0 && PreferredFor(m) != {}
  {
    LowPermitsWhatNormalDoes(m);
    if m.candidates > 0 && 25.0 <= m.execution < 35.0 {
      assert AllowedFamilies(m, true) == {};
    }
  }
}
