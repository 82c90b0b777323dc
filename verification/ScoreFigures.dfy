/** The scores of a candidate in its own figures, and how they move with them (`intraday_option_tools.py`). */
module ScoreFigures {
  import opened DecisionGate
  import opened DecisionScores

  // ----- Rounding -----

  lemma RoundIsNearest(x: real)
    ensures x - 0.005 <= Round2(x) <= x + 0.005 && (Round2(x) * 100.0).Floor as real == Round2(x) * 100.0
    ensures Round2(x) == x + 0.005 || Round2(x) == x - 0.005 ==> (Round2(x) * 100.0).Floor % 2 == 0
  {
    var low := (x * 100.0).Floor;
    var n := if x * 100.0 - low as real < 0.5 || (x * 100.0 - low as real == 0.5 && low % 2 == 0) then low else low + 1;
    assert Round2(x) * 100.0 == n as real;
  }

  lemma RoundGrows(x: real, y: real)
    requires x <= y
    ensures Round2(x) <= Round2(y)
  {
    var m, n := (x * 100.0).Floor, (y * 100.0).Floor;
    assert m <= n;
  }

  // ----- The trigger score -----

  /** No trigger gives nothing, one on the other side 24, and any other its own points, six more on its own side and four more for little
      decay, up to a hundred. */
  lemma TriggerScoreIs(c: Candidate, t: Trigger)
    requires SoundTrigger(t)
    ensures var score := TriggerScoreOf(c, t);
            var sum := t.score + (if (t.direction == Bullish && c.side == Call) || (t.direction == Bearish && c.side == Put) then 6.0 else 0.0)
                               + (if c.theta > 20.0 then 0.0 else 4.0);
            (!t.triggered ==> score == 0.0) &&
            (t.triggered && ((t.direction == Bullish && c.side == Put) || (t.direction == Bearish && c.side == Call)) ==> score == 24.0) &&
            (t.triggered && Sided(c, t) ==> score == if sum > 100.0 then 100.0 else sum)
  {
  }

  // ----- The time penalty -----

  function Mark(b: bool, points: real): real {
    if b then points else 0.0
  }

  /** Fourteen points for an expiration within half a day in the afternoon, up to fourteen for decay, seven for a cheap long shot, and
      eight for an expiration within a day in the last three hours of trading. */
  lemma PenaltyIs(c: Candidate, now: TimeOfDay)
    ensures TimePenalty(c, now) ==
            Round2(Mark(c.days <= 0.5 && now.hour >= 12, 14.0) +
                   (if c.theta <= 25.0 then 0.0 else if c.theta >= 25.0 + 1400.0 / 45.0 then 14.0 else 0.45 * c.theta - 11.25) +
                   Mark(0.0 < c.ask <= 1.25 && c.probability < 22.0, 7.0) +
                   Mark(c.days <= 1.0 && now.hour * 60 + now.minute >= 780, 8.0))
  {
  }

  /** The same contract is never marked down less later in the day. */
  lemma PenaltyGrows(c: Candidate, now: TimeOfDay, later: TimeOfDay)
    requires now.hour <= later.hour && now.hour * 60 + now.minute <= later.hour * 60 + later.minute
    ensures 0.0 <= TimePenalty(c, now) <= TimePenalty(c, later) <= 43.0
  {
    PenaltyIs(c, now);
    PenaltyIs(c, later);
    var x := Mark(c.days <= 0.5 && now.hour >= 12, 14.0) +
             (if c.theta <= 25.0 then 0.0 else if c.theta >= 25.0 + 1400.0 / 45.0 then 14.0 else 0.45 * c.theta - 11.25) +
             Mark(0.0 < c.ask <= 1.25 && c.probability < 22.0, 7.0) + Mark(c.days <= 1.0 && now.hour * 60 + now.minute >= 780, 8.0);
    var y := Mark(c.days <= 0.5 && later.hour >= 12, 14.0) +
             (if c.theta <= 25.0 then 0.0 else if c.theta >= 25.0 + 1400.0 / 45.0 then 14.0 else 0.45 * c.theta - 11.25) +
             Mark(0.0 < c.ask <= 1.25 && c.probability < 22.0, 7.0) + Mark(c.days <= 1.0 && later.hour * 60 + later.minute >= 780, 8.0);
    assert 0.0 <= x <= y <= 43.0;
    RoundGrows(0.0, x);
    RoundGrows(x, y);
    RoundGrows(y, 43.0);
    assert Round2(0.0) == 0.0 && Round2(43.0) == 43.0;
  }

  // ----- Flags -----

  lemma FlagsMean(c: Candidate)
    ensures InvalidAsk in HardFlags(c) <==> c.ask <= 0.0
    ensures NoBid in HardFlags(c) <==> c.bid <= 0.0
    ensures WideSpread in HardFlags(c) <==> c.spread > 30.0
    ensures ThinLiquidity in HardFlags(c) <==> c.volume < 100.0 && c.openInterest < 1000.0
    ensures QuoteUnavailable in HardFlags(c) <==> !c.quoted
  {
  }

  // ----- Alpha and execution -----

  /** What alpha gains from gamma: 28 points for a whole one of either sign, up to four. */
  function GammaPoints(gamma: real): real {
    if gamma >= 1.0 / 7.0 || gamma <= -1.0 / 7.0 then 4.0 else if gamma < 0.0 then -28.0 * gamma else 28.0 * gamma
  }

  lemma AlphaIs(c: Candidate, gex: Gex)
    ensures 100.0 * Alpha(c, gex) ==
            70.0 * c.analysis + 12.0 * c.rewardRisk + 80.0 * c.volatility + 70.0 * c.structure + 100.0 * GammaPoints(c.gamma) +
            Mark(c.styleMatch, 250.0) - 100.0 - Mark(gex == PositiveGamma && c.alignment == Headwind, 300.0)
            + Mark(gex == NegativeGamma && c.alignment == Tailwind, 250.0)
  {
  }

  /** The decision score before it is rounded: 45 parts alpha, 30 parts execution and 25 parts trigger, less the penalties. */
  function Weighed(c: Candidate, gex: Gex, g: Gate, now: TimeOfDay): real {
    RawDecision(c, gex, g, now) - GateMarks(g)
  }

  lemma DecisionIs(c: Candidate, gex: Gex, g: Gate, now: TimeOfDay)
    ensures var s := ScoreOf(c, gex, g, now);
            s.decision == Round2(Weighed(c, gex, g, now)) && s.alpha == Round2(Alpha(c, gex)) && s.trigger == Round2(TriggerScoreOf(c, g.trigger)) &&
            s.execution == Round2(c.quality - Mark(!g.allowAutoTrade, 10.0)) && s.penalty == TimePenalty(c, now) && s.flags == HardFlags(c)
    ensures 100.0 * Weighed(c, gex, g, now) ==
            45.0 * Alpha(c, gex) + 30.0 * (c.quality - Mark(!g.allowAutoTrade, 10.0)) + 25.0 * TriggerScoreOf(c, g.trigger)
            - 100.0 * TimePenalty(c, now) - Mark(!Liquid(c), 2800.0) - Mark(!g.allowSingleLeg, 1200.0) - Mark(!g.shouldTrade, 1500.0)
  {
  }

  /** The bucket: flags block, a low trigger score waits, and the greater of alpha and execution leads. */
  lemma BucketIs(c: Candidate, gex: Gex, g: Gate, now: TimeOfDay)
    ensures var b := ScoreOf(c, gex, g, now).bucket; var execution := c.quality - Mark(!g.allowAutoTrade, 10.0);
            (b == BlockedExecution <==> !Liquid(c)) &&
            (b == TriggerNotMet <==> Liquid(c) && TriggerScoreOf(c, g.trigger) < 60.0) &&
            (b == AlphaFirst <==> Liquid(c) && TriggerScoreOf(c, g.trigger) >= 60.0 && Alpha(c, gex) >= execution)
  {
  }

  /** The same contract with no worse a quality, analysis, reward, volatility and structure. */
  predicate Improves(d: Candidate, c: Candidate) {
    d == c.(quality := d.quality, analysis := d.analysis, rewardRisk := d.rewardRisk, volatility := d.volatility, structure := d.structure) &&
    d.quality >= c.quality && d.analysis >= c.analysis && d.rewardRisk >= c.rewardRisk && d.volatility >= c.volatility && d.structure >= c.structure
  }

  /** It is never scored lower, whatever the gate and the time. */
  lemma BetterScoresNoLower(c: Candidate, d: Candidate, gex: Gex, g: Gate, now: TimeOfDay)
    requires Improves(d, c)
    ensures ScoreOf(d, gex, g, now).decision >= ScoreOf(c, gex, g, now).decision
  {
    AlphaIs(c, gex);
    AlphaIs(d, gex);
    DecisionIs(c, gex, g, now);
    DecisionIs(d, gex, g, now);
    assert TriggerScoreOf(d, g.trigger) == TriggerScoreOf(c, g.trigger) && TimePenalty(d, now) == TimePenalty(c, now) && Liquid(d) == Liquid(c);
    assert Alpha(d, gex) >= Alpha(c, gex);
    RoundGrows(Weighed(c, gex, g, now), Weighed(d, gex, g, now));
  }

  /** A gate that permits more never scores a candidate lower. */
  lemma PermissionsRaiseScores(c: Candidate, gex: Gex, g: Gate, h: Gate, now: TimeOfDay)
    requires g.trigger == h.trigger
    requires (g.allowAutoTrade ==> h.allowAutoTrade) && (g.allowSingleLeg ==> h.allowSingleLeg) && (g.shouldTrade ==> h.shouldTrade)
    ensures ScoreOf(c, gex, g, now).decision <= ScoreOf(c, gex, h, now).decision
  {
    DecisionIs(c, gex, g, now);
    DecisionIs(c, gex, h, now);
    RoundGrows(Weighed(c, gex, g, now), Weighed(c, gex, h, now));
  }
}
