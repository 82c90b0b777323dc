/** What the gate decides, in the market's own figures, and that it treats rising and falling markets alike (`decision_gate.py`). */
module GateFigures {
  import opened DecisionGate

  // ----- Votes -----

  function Ballot(b: bool): nat {
    if b then 1 else 0
  }

  /** The votes for a rise: of the daily trend, the intraday structure, VWAP, the opening range, gamma and MACD. Negative gamma votes
      for a rise unless the bias is bearish. */
  function BullVotes(m: Market): nat {
    Ballot(m.dailyChange > 0.35) + Ballot(m.framesUp > m.framesDown) + Ballot(m.vwap == BullSignal) + Ballot(m.orb == BullSignal) +
    Ballot(m.gex == NegativeGamma && m.bias != Bearish) + Ballot(m.macd == BullSignal)
  }

  function BearVotes(m: Market): nat {
    Ballot(m.dailyChange < -0.35) + Ballot(m.framesUp < m.framesDown) + Ballot(m.vwap == BearSignal) + Ballot(m.orb == BearSignal) +
    Ballot(m.gex == NegativeGamma && m.bias == Bearish) + Ballot(m.macd == BearSignal)
  }

  lemma VotesAre(m: Market)
    ensures var v := Votes(m);
            |v| == 6 && (v[0] == Bullish <==> m.dailyChange > 0.35) && (v[0] == Bearish <==> m.dailyChange < -0.35) &&
            (v[1] == Bullish <==> m.framesUp > m.framesDown) && (v[1] == Bearish <==> m.framesUp < m.framesDown) &&
            (v[2] == Bullish <==> m.vwap == BullSignal) && (v[2] == Bearish <==> m.vwap == BearSignal) &&
            (v[3] == Bullish <==> m.orb == BullSignal) && (v[3] == Bearish <==> m.orb == BearSignal) &&
            (v[4] == Bullish <==> m.gex == NegativeGamma && m.bias != Bearish) && (v[4] == Bearish <==> m.gex == NegativeGamma && m.bias == Bearish) &&
            (v[5] == Bullish <==> m.macd == BullSignal) && (v[5] == Bearish <==> m.macd == BearSignal)
  {
  }

  lemma SixCounted(v: seq<Direction>, d: Direction)
    requires |v| == 6
    ensures Count(v, d) == One(v[0], d) + One(v[1], d) + One(v[2], d) + One(v[3], d) + One(v[4], d) + One(v[5], d)
  {
    assert v == [v[0], v[1], v[2], v[3], v[4], v[5]];
    CountSix(v[0], v[1], v[2], v[3], v[4], v[5], d);
  }

  lemma {:induction false} AllCounted(v: seq<Direction>)
    ensures Count(v, Bullish) + Count(v, Bearish) + Count(v, Neutral) == |v|
  {
    if v != [] {
      AllCounted(v[1..]);
    }
  }

  lemma BullsCounted(m: Market)
    ensures Count(Votes(m), Bullish) == BullVotes(m)
  {
    VotesAre(m);
    SixCounted(Votes(m), Bullish);
  }

  lemma BearsCounted(m: Market)
    ensures Count(Votes(m), Bearish) == BearVotes(m)
  {
    VotesAre(m);
    SixCounted(Votes(m), Bearish);
  }

  lemma VotesCounted(m: Market)
    ensures Count(Votes(m), Bullish) == BullVotes(m) && Count(Votes(m), Bearish) == BearVotes(m)
    ensures Count(Votes(m), Neutral) == 6 - BullVotes(m) - BearVotes(m)
  {
    BullsCounted(m);
    BearsCounted(m);
    AllCounted(Votes(m));
  }

  /** A side has the majority when it has more votes than the other side and more than those that abstain; the strength is its number
      of votes, and without a majority the greater of the two. */
  lemma MajorityIff(m: Market, low: bool)
    ensures var g, bulls, bears := GateOf(m, low), BullVotes(m), BearVotes(m);
            (g.majority == Bullish <==> bulls > bears && 2 * bulls + bears > 6) &&
            (g.majority == Bearish <==> bears > bulls && 2 * bears + bulls > 6) &&
            g.strength == if bears > bulls then bears else bulls
  {
    VotesCounted(m);
  }

  // ----- Regime and trigger -----

  predicate Rises(m: Market) {
    m.bias == Bullish && m.intradayChange > 0.0 && m.vsVwap >= 0.0
  }

  predicate Falls(m: Market) {
    m.bias == Bearish && m.intradayChange < 0.0 && m.vsVwap <= 0.0
  }

  lemma RegimeIff(m: Market, low: bool)
    ensures var r := GateOf(m, low).regime; var fast := m.gex == NegativeGamma && m.rvol >= 1.3;
            (r == Momentum <==> (Rises(m) || Falls(m)) && fast) &&
            (r == BullTrend <==> Rises(m) && !fast) && (r == BearTrend <==> Falls(m) && !fast) &&
            var flat := -0.6 < m.dailyChange < 0.6 && -0.25 < m.vsVwap < 0.25;
            var turned := (m.dailyChange > 0.0 && m.intradayChange < 0.0) || (m.dailyChange < 0.0 && m.intradayChange > 0.0);
            (r == Range <==> !Rises(m) && !Falls(m) && flat) &&
            (r == Choppy <==> !Rises(m) && !Falls(m) && !flat && turned)
  {
    SignsDiffer(m.dailyChange, m.intradayChange);
  }

  lemma SignsDiffer(x: real, y: real)
    ensures x * y < 0.0 <==> (x > 0.0 && y < 0.0) || (x < 0.0 && y > 0.0)
  {
  }

  function If(b: bool, points: real): real {
    if b then points else 0.0
  }

  predicate AnySignal(m: Market) {
    m.orb != NoSignal || m.vwap != NoSignal || m.ema != NoSignal || m.macd != NoSignal
  }

  /** The first signal in this order decides the direction, and the bias when there is none. */
  predicate LeadsTo(m: Market, s: Signal) {
    m.orb == s || (m.orb == NoSignal && (m.vwap == s || (m.vwap == NoSignal && (m.ema == s || (m.ema == NoSignal && m.macd == s)))))
  }

  /** The trigger's points, its direction, and when it fires. */
  lemma TriggerInFigures(m: Market, low: bool)
    ensures var t := GateOf(m, low).trigger;
            t.score == If(m.orb != NoSignal, 30.0) + If(m.vwap != NoSignal, 20.0) + If(m.ema != NoSignal, 15.0) + If(m.macd != NoSignal, 15.0)
                       + If(m.rvol >= 1.3, 15.0) + If(m.gex == NegativeGamma && AnySignal(m), 10.0) + If(m.gex == PositiveGamma, 5.0) &&
            (t.direction == Bullish <==> LeadsTo(m, BullSignal) || (!AnySignal(m) && m.bias == Bullish)) &&
            (t.direction == Bearish <==> LeadsTo(m, BearSignal) || (!AnySignal(m) && m.bias == Bearish)) &&
            (t.triggered <==> t.score >= 60.0 && t.direction != Neutral)
  {
  }

  /** At least two of EMA, MACD and a high volume. */
  predicate TwoOfThree(m: Market) {
    var ema, macd, volume := m.ema != NoSignal, m.macd != NoSignal, m.rvol >= 1.3;
    (ema && macd) || (ema && volume) || (macd && volume)
  }

  /** Which signals fire it. With an opening range it takes VWAP and one thing more, or two of EMA, MACD and volume; without one it
      takes VWAP and all three, or two of them and negative gamma. */
  lemma FiresIff(m: Market, low: bool)
    ensures GateOf(m, low).trigger.triggered <==>
            var ema, macd, volume, gamma := m.ema != NoSignal, m.macd != NoSignal, m.rvol >= 1.3, m.gex == NegativeGamma;
            if m.orb != NoSignal then (m.vwap != NoSignal && (ema || macd || volume || gamma)) || TwoOfThree(m)
            else m.vwap != NoSignal && ((ema && macd && volume) || (gamma && TwoOfThree(m)))
  {
    TriggerInFigures(m, low);
  }

  // ----- Permissions -----

  lemma PermissionsIff(m: Market, low: bool)
    ensures var g := GateOf(m, low);
            (g.shouldTrade <==> m.candidates > 0 && (m.execution == 0.0 || m.execution >= if low then 25.0 else 35.0)) &&
            (NoCandidates in g.blockers <==> m.candidates == 0) &&
            (PoorExecution in g.blockers <==> m.execution != 0.0 && m.execution < if low then 25.0 else 35.0) &&
            (g.allowAutoTrade <==>
             g.shouldTrade && m.spread <= (if low then 35.0 else 30.0) &&
             (m.probability == 0.0 || m.probability >= (if low then 15.0 else 18.0) || m.rewardRisk >= if low then 6.0 else 8.0))
  {
  }

  predicate Trending(r: Regime) {
    r == BullTrend || r == BearTrend || r == Momentum
  }

  predicate Sideways(r: Regime) {
    r == Range || r == Choppy
  }

  /** A single leg needs the fired trigger and three votes. The majority must be on its side, and the market either trend with negative
      gamma or have candidates away from a positive-gamma wall; the low profile also takes a strong trigger in a liquid chain. */
  lemma SingleLegIff(m: Market, low: bool)
    ensures var g := GateOf(m, low);
            g.allowSingleLeg <==>
              g.trigger.triggered && g.strength >= 3 &&
              ((g.majority == g.trigger.direction &&
                ((m.gex == NegativeGamma && Trending(g.regime)) ||
                 (m.candidates > 0 && !(m.gex == PositiveGamma && m.wallDistance != 0.0 && m.wallDistance <= 1.5 && Sideways(g.regime))))) ||
               (low && g.allowAutoTrade && g.trigger.score >= 65.0 && (g.majority == Neutral || g.majority == g.trigger.direction) &&
                m.execution >= 75.0 && m.spread <= 8.0 && (m.probability >= 35.0 || m.rewardRisk >= 80.0)))
  {
  }

  // ----- Families -----

  /** What a structure of any kind needs. */
  predicate Structured(m: Market, low: bool) {
    m.candidates > 0 && (m.execution == 0.0 || m.execution >= if low then 35.0 else 45.0) && m.spread <= if low then 40.0 else 35.0
  }

  /** Each family's own condition. */
  predicate Fits(f: Family, c: Climate, low: bool) {
    var ranging := Sideways(c.regime) || c.gex == PositiveGamma;
    var directional := c.majority != Neutral || c.trigger.direction != Neutral;
    var running := c.gex == NegativeGamma && Trending(c.regime);
    var rich := c.iv >= if low then 35.0 else 45.0;
    (f == Spread && directional) ||
    (f == CreditSpread && rich && (directional || ranging)) ||
    ((f == Straddle || f == Strangle) &&
     ((c.majority == Neutral && c.iv >= if low then 60.0 else 65.0) || (c.gex == NegativeGamma && c.trigger.triggered && c.trigger.score >= 65.0))) ||
    (f == Calendar && ((ranging && !running) || (c.majority == Neutral && c.iv < 65.0))) ||
    ((f == Diagonal || f == PoorMansCoveredCall) && c.majority != Neutral) ||
    (f == IronCondor && ranging && rich && !(c.trigger.triggered && c.trigger.score >= 75.0)) ||
    (f == Butterfly && ranging && !running) ||
    ((f == CoveredCall || f == CashSecuredPut) && c.majority != Bearish) ||
    (f == Collar && (c.majority != Bullish || Sideways(c.regime)))
  }

  lemma SuitsIffFits(f: Family, c: Climate, low: bool)
    ensures Suits(f, c, low) <==> Fits(f, c, low)
  {
  }

  /** A family is allowed exactly when the market suits structures at all, and this one. */
  lemma FamiliesIff(m: Market, low: bool, f: Family)
    ensures var g := GateOf(m, low);
            f in g.allowed <==> Structured(m, low) && Fits(f, Climate(g.regime, g.majority, g.trigger, m.gex, m.iv), low)
  {
    SuitsIffFits(f, ClimateOf(m), low);
  }

  /** The flag for structures follows the families when anything is traded, and the preferences when nothing is. */
  lemma StrategyFlagIff(m: Market, low: bool)
    ensures var g := GateOf(m, low);
            g.allowStrategy <==>
              if g.shouldTrade then g.allowed != {} else g.preferred != {} && (m.candidates > 0 || (Sideways(g.regime) && m.gex == PositiveGamma))
  {
  }

  /** The first of these market types that applies. */
  datatype Style = Gamma | RichTrend | Pinned | Volatile | Sided | NoStyle

  function StyleOf(c: Climate): Style {
    if Trending(c.regime) && c.gex == NegativeGamma then Gamma
    else if Trending(c.regime) && c.iv >= 65.0 then RichTrend
    else if Sideways(c.regime) && c.gex == PositiveGamma then Pinned
    else if c.majority == Neutral && c.iv >= 70.0 then Volatile
    else if c.majority != Neutral then Sided
    else NoStyle
  }

  /** Nothing is preferred in a market without a majority, volatility and gamma; in any other each family is by its own condition. */
  predicate Favours(p: Preference, c: Climate) {
    var style := StyleOf(c);
    var open := c.majority != Neutral || c.iv >= 60.0 || c.gex != OtherGex;
    match p
    case SingleLeg => open && (style == Gamma || style == Sided || c.trigger.triggered)
    case Prefers(f) =>
      (f == Spread && (style == Gamma || style == RichTrend || style == Sided)) ||
      (f == CreditSpread && (style == RichTrend || style == Pinned)) || (f == Diagonal && style == RichTrend) ||
      ((f == IronCondor || f == Butterfly) && style == Pinned) ||
      (f == Calendar && (style == Pinned || (open && c.majority == Neutral && c.iv < 65.0))) ||
      ((f == Straddle || f == Strangle) && style == Volatile) ||
      ((f == CashSecuredPut || f == PoorMansCoveredCall) && c.majority == Bullish && c.iv >= 55.0)
  }

  lemma PreferencesIff(m: Market, low: bool, p: Preference)
    ensures var g := GateOf(m, low);
            p in g.preferred <==> Favours(p, Climate(g.regime, g.majority, g.trigger, m.gex, m.iv))
  {
    PreferredIffFavours(ClimateOf(m), p);
  }

  lemma PreferredIffFavours(c: Climate, p: Preference)
    ensures p in PreferencesIn(c) <==> Favours(p, c)
  {
  }

  // ----- Rising and falling markets -----

  function Flip(d: Direction): Direction {
    match d case Bullish => Bearish case Bearish => Bullish case Neutral => Neutral
  }

  function FlipSignal(s: Signal): Signal {
    match s case BullSignal => BearSignal case BearSignal => BullSignal case NoSignal => NoSignal
  }

  function FlipRegime(r: Regime): Regime {
    match r case BullTrend => BearTrend case BearTrend => BullTrend case _ => r
  }

  /** The market with up and down exchanged. */
  function Mirrored(m: Market): Market {
    m.(bias := Flip(m.bias), dailyChange := -m.dailyChange, intradayChange := -m.intradayChange, vsVwap := -m.vsVwap,
       framesUp := m.framesDown, framesDown := m.framesUp,
       orb := FlipSignal(m.orb), vwap := FlipSignal(m.vwap), ema := FlipSignal(m.ema), macd := FlipSignal(m.macd))
  }

  /** Negative gamma without a bias still votes for a rise. */
  predicate Evenhanded(m: Market) {
    m.gex == NegativeGamma ==> m.bias != Neutral
  }

  lemma MirroredVotes(m: Market)
    requires Evenhanded(m)
    ensures BullVotes(Mirrored(m)) == BearVotes(m) && BearVotes(Mirrored(m)) == BullVotes(m)
  {
  }

  lemma MirroredMajority(m: Market, low: bool)
    requires Evenhanded(m)
    ensures GateOf(Mirrored(m), low).majority == Flip(GateOf(m, low).majority) && GateOf(Mirrored(m), low).strength == GateOf(m, low).strength
  {
    MirroredVotes(m);
    MajorityIff(m, low);
    MajorityIff(Mirrored(m), low);
  }

  lemma MirroredRegime(m: Market, low: bool)
    ensures GateOf(Mirrored(m), low).regime == FlipRegime(GateOf(m, low).regime)
  {
    assert Rises(Mirrored(m)) == Falls(m) && Falls(Mirrored(m)) == Rises(m);
    RegimeIff(m, low);
    RegimeIff(Mirrored(m), low);
  }

  lemma MirroredTrigger(m: Market, low: bool)
    ensures var t, u := GateOf(m, low).trigger, GateOf(Mirrored(m), low).trigger;
            u == t.(direction := Flip(t.direction))
  {
    TriggerInFigures(m, low);
    TriggerInFigures(Mirrored(m), low);
  }

  /** The gate prefers no side: with up and down exchanged it turns regime, majority and trigger round and keeps every permission, and
      of the families only those that own shares or sell puts see a difference. */
  lemma MirroredMarkets(m: Market, low: bool)
    requires Evenhanded(m)
    ensures var g, h := GateOf(m, low), GateOf(Mirrored(m), low);
            h.regime == FlipRegime(g.regime) && h.majority == Flip(g.majority) && h.strength == g.strength &&
            h.trigger == g.trigger.(direction := Flip(g.trigger.direction)) &&
            h.blockers == g.blockers && h.shouldTrade == g.shouldTrade && h.allowAutoTrade == g.allowAutoTrade &&
            h.allowSingleLeg == g.allowSingleLeg &&
            forall f :: Sideless(f) ==> (f in h.allowed <==> f in g.allowed)
  {
    MirroredMajority(m, low);
    MirroredRegime(m, low);
    MirroredTrigger(m, low);
    MirroredPermissions(m, low);
    forall f | Sideless(f)
      ensures f in GateOf(Mirrored(m), low).allowed <==> f in GateOf(m, low).allowed
    {
      MirroredFamily(m, low, f);
    }
  }

  lemma MirroredPermissions(m: Market, low: bool)
    requires Evenhanded(m)
    ensures var g, h := GateOf(m, low), GateOf(Mirrored(m), low);
            h.blockers == g.blockers && h.shouldTrade == g.shouldTrade && h.allowAutoTrade == g.allowAutoTrade && h.allowSingleLeg == g.allowSingleLeg
  {
    MirroredMajority(m, low);
    MirroredRegime(m, low);
    MirroredTrigger(m, low);
    SingleLegIff(m, low);
    SingleLegIff(Mirrored(m), low);
  }

  function FlipClimate(c: Climate): Climate {
    c.(regime := FlipRegime(c.regime), majority := Flip(c.majority), trigger := c.trigger.(direction := Flip(c.trigger.direction)))
  }

  /** The families that are the same in a rising and a falling market. */
  predicate Sideless(f: Family) {
    f != CoveredCall && f != CashSecuredPut && f != Collar
  }

  lemma SidelessFits(f: Family, c: Climate, low: bool)
    requires Sideless(f)
    ensures Fits(f, FlipClimate(c), low) <==> Fits(f, c, low)
  {
  }

  lemma MirroredFamily(m: Market, low: bool, f: Family)
    requires Evenhanded(m) && Sideless(f)
    ensures f in GateOf(Mirrored(m), low).allowed <==> f in GateOf(m, low).allowed
  {
    MirroredMajority(m, low);
    MirroredRegime(m, low);
    MirroredTrigger(m, low);
    FamiliesIff(m, low, f);
    FamiliesIff(Mirrored(m), low, f);
    SidelessFits(f, ClimateOf(m), low);
  }

  /** The exception: a flat market with negative gamma and no bias has one vote for a rise and none for a fall. */
  lemma GammaAloneVotesUp(m: Market)
    requires m.gex == NegativeGamma && m.bias == Neutral
    ensures BullVotes(Mirrored(m)) + BullVotes(m) == BearVotes(Mirrored(m)) + BearVotes(m) + 2
  {
  }

  // ----- The averages a market is summarised by -----

  function Positive(xs: seq<real>): nat {
    |Positives(xs)|
  }

  /** A value as the averages take it in. */
  function Taken(x: real): seq<real> {
    if x > 0.0 then [x] else []
  }

  lemma {:induction false} PositivesOfSnoc(xs: seq<real>, x: real)
    ensures Positives(xs + [x]) == Positives(xs) + Taken(x)
  {
    if xs == [] {
      assert [x][1..] == [] && [] + [x] == [x];
    } else {
      assert (xs + [x])[1..] == xs[1..] + [x];
      PositivesOfSnoc(xs[1..], x);
      Regrouped(Taken(xs[0]), Positives(xs[1..]), Taken(x));
    }
  }

  lemma Regrouped(a: seq<real>, b: seq<real>, c: seq<real>)
    ensures a + (b + c) == (a + b) + c
  {
  }

  lemma {:induction false} TotalOfSnoc(xs: seq<real>, x: real)
    ensures Total(xs + [x]) == Total(xs) + x
  {
    if xs == [] {
      assert [x][1..] == [] && [] + [x] == [x];
      assert Total([x]) == x + Total([]);
    } else {
      assert (xs + [x])[1..] == xs[1..] + [x];
      TotalOfSnoc(xs[1..], x);
    }
  }

  /** The average from value to value: nothing without a positive one, unchanged by any other, and weighted by their number. */
  lemma AverageGrows(xs: seq<real>, x: real)
    ensures Average([]) == 0.0 && Positive([]) == 0
    ensures x <= 0.0 ==> Average(xs + [x]) == Average(xs) && Positive(xs + [x]) == Positive(xs)
    ensures x > 0.0 ==>
              Positive(xs + [x]) == Positive(xs) + 1 &&
              Average(xs + [x]) * Positive(xs + [x]) as real == Average(xs) * Positive(xs) as real + x
  {
    PositivesOfSnoc(xs, x);
    if x > 0.0 {
      Weighted(xs, x);
    } else {
      Unweighted(xs, x);
    }
  }

  lemma Unweighted(xs: seq<real>, x: real)
    requires x <= 0.0
    ensures Positives(xs + [x]) == Positives(xs) && Average(xs + [x]) == Average(xs)
  {
    PositivesOfSnoc(xs, x);
    assert Positives(xs) + [] == Positives(xs);
  }

  lemma Weighted(xs: seq<real>, x: real)
    requires x > 0.0
    ensures Average(xs + [x]) * Positive(xs + [x]) as real == Average(xs) * Positive(xs) as real + x
  {
    PositivesOfSnoc(xs, x);
    TotalOfSnoc(Positives(xs), x);
    TotalIsAverage(xs);
    TotalIsAverage(xs + [x]);
  }

  lemma TotalIsAverage(xs: seq<real>)
    ensures Average(xs) * Positive(xs) as real == Total(Positives(xs))
  {
    if Positive(xs) > 0 {
      Undivided(Total(Positives(xs)), Positive(xs) as real);
    }
  }

  lemma Undivided(x: real, n: real)
    requires n > 0.0
    ensures x / n * n == x
  {
  }

  /** Of more than eight candidates the averages are those of the first eight. */
  lemma FirstEightCount(m: Market, rows: seq<Row>)
    requires |rows| >= 8
    ensures Summarises(m, rows) <==> m.candidates == |rows| && Summarises(m.(candidates := 8), rows[..8])
  {
    assert rows[..8][..8] == rows[..8];
    if |rows| == 8 {
      assert rows[..8] == rows;
    }
  }

  /** The highest value is one of them, and zero stands for none. */
  lemma {:induction false} HighestIsGreatest(xs: seq<real>)
    ensures xs == [] ==> HighestOrZero(xs) == 0.0
    ensures xs != [] ==> HighestOrZero(xs) in xs && forall x <- xs :: x <= HighestOrZero(xs)
  {
    if |xs| > 1 {
      HighestIsGreatest(xs[1..]);
      assert xs == [xs[0]] + xs[1..];
    }
  }
}
