/** The scores that carry the gate's verdict to every candidate, and the ranking they produce (`intraday_option_tools.py`). The
    ranking is stable, and the gate's marks lower all scores alike. */
module DecisionScores {
  import opened DecisionGate

  datatype Side = Call | Put | OtherSide
  datatype Alignment = Headwind | Tailwind | NoAlignment
  datatype HardFlag = InvalidAsk | WideSpread | ThinLiquidity | QuoteUnavailable | NoBid
  datatype Bucket = BlockedExecution | TriggerNotMet | AlphaFirst | ExecutionFirst

  /** A field of a row as the language model and the guard see it. */
  datatype Field =
    | DecisionScore | AnalysisScore | AlphaScore | ExecutionScore | TriggerScore | RiskPlan
    | MaxLossPerContract | StopLossPrice | TakeProfit1 | TakeProfit2 | LatestExit
    | Score | MaxLoss | Legs

  datatype Value = Null | Text(text: string) | Number(number: real) | Items(length: nat) | Dict(entries: map<Field, Value>)

  datatype Candidate = Candidate(
    symbol: string, side: Side, bid: real, ask: real, spread: real, volume: real, openInterest: real, quoted: bool,
    analysis: real, rewardRisk: real, volatility: real, structure: real, gamma: real, styleMatch: bool, quality: real, ivPercentile: real,
    theta: real, days: real, probability: real, alignment: Alignment, riskPlan: map<Field, Value>)

  datatype Scored = Scored(
    candidate: Candidate, alpha: real, execution: real, trigger: real, flags: seq<HardFlag>, penalty: real,
    decision: real, bucket: Bucket)

  datatype TimeOfDay = TimeOfDay(hour: nat, minute: nat)

  // ----- One candidate -----

  function Min(x: real, y: real): real {
    if x < y then x else y
  }

  /** The nearest hundredth, ties to the even one. */
  function Round2(x: real): real {
    var low := (x * 100.0).Floor;
    var rest := x * 100.0 - low as real;
    (if rest < 0.5 || (rest == 0.5 && low % 2 == 0) then low else low + 1) as real / 100.0
  }

  function DirectionOf(side: Side): Direction {
    match side case Call => Bullish case Put => Bearish case OtherSide => Neutral
  }

  function TriggerScoreOf(c: Candidate, t: Trigger): real {
    if !t.triggered then 0.0
    else if t.direction != Neutral && DirectionOf(c.side) != t.direction && DirectionOf(c.side) != Neutral then 24.0
    else Min(t.score + (if DirectionOf(c.side) == t.direction then 6.0 else 0.0) + (if c.theta <= 20.0 then 4.0 else 0.0), 100.0)
  }

  /** How much a short or decaying contract is marked down at this time of day. */
  function TimePenalty(c: Candidate, now: TimeOfDay): real {
    var toClose := (16 - now.hour) * 60 - now.minute;
    Round2((if c.days <= 0.5 && now.hour >= 12 then 14.0 else 0.0) +
           (if c.theta > 25.0 then Min((c.theta - 25.0) * 0.45, 14.0) else 0.0) +
           (if 0.0 < c.ask <= 1.25 && c.probability < 22.0 then 7.0 else 0.0) +
           (if c.days <= 1.0 && toClose <= 180 then 8.0 else 0.0))
  }

  predicate Liquid(c: Candidate) {
    c.ask > 0.0 && c.bid > 0.0 && c.spread <= 30.0 && (c.volume >= 100.0 || c.openInterest >= 1000.0) && c.quoted
  }

  method ExecutionHardFlags(c: Candidate) returns (flags: seq<HardFlag>)
    ensures flags == HardFlags(c)
    ensures flags == [] <==> Liquid(c)
  {
    flags := [];
    if c.ask <= 0.0 {
      flags := [InvalidAsk];
    }
    if c.spread > 30.0 {
      flags := flags + [WideSpread];
    }
    if c.volume < 100.0 && c.openInterest < 1000.0 {
      flags := flags + [ThinLiquidity];
    }
    if !c.quoted {
      flags := flags + [QuoteUnavailable];
    }
    if c.bid <= 0.0 {
      flags := flags + [NoBid];
    }
  }

  function HardFlags(c: Candidate): (flags: seq<HardFlag>)
    ensures flags == [] <==> Liquid(c)
  {
    var ask := if c.ask <= 0.0 then [InvalidAsk] else [];
    var spread := if c.spread > 30.0 then ask + [WideSpread] else ask;
    var thin := if c.volume < 100.0 && c.openInterest < 1000.0 then spread + [ThinLiquidity] else spread;
    var quote := if !c.quoted then thin + [QuoteUnavailable] else thin;
    if c.bid <= 0.0 then quote + [NoBid] else quote
  }

  function Alpha(c: Candidate, gex: Gex): real {
    c.analysis * 0.7 + c.rewardRisk * 0.12 + c.volatility * 0.8 + c.structure * 0.7 + Min(Magnitude(c.gamma) * 28.0, 4.0) +
    (if c.styleMatch then 1.5 else -1.0) +
    (if gex == PositiveGamma && c.alignment == Headwind then -3.0 else 0.0) +
    (if gex == NegativeGamma && c.alignment == Tailwind then 2.5 else 0.0)
  }

  function Execution(c: Candidate, g: Gate): real {
    if g.allowAutoTrade then c.quality else c.quality - 10.0
  }

  /** The decision score before the gate's marks are taken off. */
  function RawDecision(c: Candidate, gex: Gex, g: Gate, now: TimeOfDay): real {
    Alpha(c, gex) * 0.45 + Execution(c, g) * 0.30 + TriggerScoreOf(c, g.trigger) * 0.25 - TimePenalty(c, now)
    - (if HardFlags(c) != [] then 28.0 else 0.0)
  }

  function GateMarks(g: Gate): real {
    (if g.allowSingleLeg then 0.0 else 12.0) + (if g.shouldTrade then 0.0 else 15.0)
  }

  function BucketOf(c: Candidate, gex: Gex, g: Gate): Bucket {
    if HardFlags(c) != [] then BlockedExecution
    else if TriggerScoreOf(c, g.trigger) < 60.0 then TriggerNotMet
    else if Alpha(c, gex) >= Execution(c, g) then AlphaFirst
    else ExecutionFirst
  }

  function ScoreOf(c: Candidate, gex: Gex, g: Gate, now: TimeOfDay): Scored {
    Scored(c, Round2(Alpha(c, gex)), Round2(Execution(c, g)), Round2(TriggerScoreOf(c, g.trigger)), HardFlags(c), TimePenalty(c, now),
           Round2(RawDecision(c, gex, g, now) - GateMarks(g)), BucketOf(c, gex, g))
  }

  /** The same numbers accumulated the way the program does. */
  method DecisionScores(c: Candidate, gex: Gex, g: Gate, now: TimeOfDay) returns (scored: Scored)
    ensures scored == ScoreOf(c, gex, g, now)
  {
    var alpha := c.analysis * 0.7;
    alpha := alpha + c.rewardRisk * 0.12;
    alpha := alpha + c.volatility * 0.8;
    alpha := alpha + c.structure * 0.7;
    alpha := alpha + Min(Magnitude(c.gamma) * 28.0, 4.0);
    alpha := alpha + (if c.styleMatch then 1.5 else -1.0);
    var execution := c.quality;
    var trigger := TriggerScoreOf(c, g.trigger);
    var flags := ExecutionHardFlags(c);
    var penalty := TimePenalty(c, now);
    if !g.allowAutoTrade {
      execution := execution - 10.0;
    }
    if gex == PositiveGamma && c.alignment == Headwind {
      alpha := alpha - 3.0;
    }
    if gex == NegativeGamma && c.alignment == Tailwind {
      alpha := alpha + 2.5;
    }
    assert alpha == Alpha(c, gex);
    var decision := Decide(alpha, execution, trigger, penalty, flags, g);
    var bucket := if flags != [] then BlockedExecution else if trigger < 60.0 then TriggerNotMet
                  else if alpha >= execution then AlphaFirst else ExecutionFirst;
    scored := Scored(c, Round2(alpha), Round2(execution), Round2(trigger), flags, penalty, Round2(decision), bucket);
  }

  method Decide(alpha: real, execution: real, trigger: real, penalty: real, flags: seq<HardFlag>, g: Gate) returns (decision: real)
    ensures decision == alpha * 0.45 + execution * 0.30 + trigger * 0.25 - penalty - (if flags != [] then 28.0 else 0.0) - GateMarks(g)
  {
    decision := alpha * 0.45 + execution * 0.30 + trigger * 0.25 - penalty;
    if flags != [] {
      decision := decision - 28.0;
    }
    if !g.allowSingleLeg {
      decision := decision - 12.0;
    }
    if !g.shouldTrade {
      decision := decision - 15.0;
    }
  }

  /** What a gate's trigger always satisfies. */
  predicate SoundTrigger(t: Trigger) {
    t.triggered ==> t.score >= 60.0 && t.direction != Neutral
  }

  predicate Tradable(b: Bucket) {
    b == AlphaFirst || b == ExecutionFirst
  }

  lemma RoundKeepsSixty(x: real)
    ensures x >= 60.0 ==> Round2(x) >= 60.0
    ensures x <= 24.0 ==> Round2(x) <= 24.0
  {
  }

  /** The contract does not stand against the trigger: no put on a bullish one, no call on a bearish one. */
  predicate Sided(c: Candidate, t: Trigger) {
    (t.direction == Bullish ==> c.side != Put) && (t.direction == Bearish ==> c.side != Call)
  }

  /** A tradable bucket and a trigger score of sixty mean the same thing for a liquid contract: the gate's hard trigger
      fired and the contract does not stand against it. */
  lemma TradableIff(c: Candidate, gex: Gex, g: Gate, now: TimeOfDay)
    requires SoundTrigger(g.trigger)
    ensures var s := ScoreOf(c, gex, g, now);
            var sided := g.trigger.triggered && Sided(c, g.trigger);
            (Tradable(s.bucket) <==> Liquid(c) && sided) && (s.trigger >= 60.0 <==> sided)
  {
    RoundKeepsSixty(TriggerScoreOf(c, g.trigger));
  }

  // ----- The ranking -----

  function Insert(x: Scored, xs: seq<Scored>): (r: seq<Scored>)
    ensures multiset(r) == multiset(xs) + multiset{x}
  {
    if xs == [] || x.decision >= xs[0].decision then [x] + xs
    else
      assert xs == [xs[0]] + xs[1..];
      [xs[0]] + Insert(x, xs[1..])
  }

  /** `sorted` by decision score, highest first, ties in the order they came. */
  function Ranked(xs: seq<Scored>): (r: seq<Scored>)
    ensures multiset(r) == multiset(xs)
  {
    if xs == [] then []
    else
      assert xs == [xs[0]] + xs[1..];
      Insert(xs[0], Ranked(xs[1..]))
  }

  ghost predicate Descending(xs: seq<Scored>) {
    forall i, j :: 0 <= i < j < |xs| ==> xs[i].decision >= xs[j].decision
  }

  lemma {:induction false} InsertDescends(x: Scored, xs: seq<Scored>)
    requires Descending(xs)
    ensures Descending(Insert(x, xs))
  {
    if xs != [] && x.decision < xs[0].decision {
      InsertDescends(x, xs[1..]);
      var r := Insert(x, xs[1..]);
      forall y | y in r
        ensures y.decision <= xs[0].decision
      {
        assert y in multiset(r);
        assert y == x || y in xs[1..];
      }
    }
  }

  function Select(xs: seq<Scored>, score: real): seq<Scored> {
    if xs == [] then [] else Pick(xs[0], score) + Select(xs[1..], score)
  }

  function Pick(x: Scored, score: real): seq<Scored> {
    if x.decision == score then [x] else []
  }

  lemma SelectCons(x: Scored, xs: seq<Scored>, score: real)
    ensures Select([x] + xs, score) == Pick(x, score) + Select(xs, score)
  {
    assert ([x] + xs)[1..] == xs;
  }

  lemma PickEither(x: Scored, y: Scored, score: real, rest: seq<Scored>)
    requires x.decision != y.decision
    ensures Pick(x, score) + (Pick(y, score) + rest) == Pick(y, score) + (Pick(x, score) + rest)
  {
  }

  lemma {:induction false} InsertIsStable(x: Scored, xs: seq<Scored>, score: real)
    requires Descending(xs)
    ensures Select(Insert(x, xs), score) == Pick(x, score) + Select(xs, score)
  {
    if xs == [] || x.decision >= xs[0].decision {
      SelectCons(x, xs, score);
    } else {
      InsertIsStable(x, xs[1..], score);
      SelectCons(xs[0], Insert(x, xs[1..]), score);
      PickEither(x, xs[0], score, Select(xs[1..], score));
    }
  }

  /** The ranking descends, loses nothing and keeps tied candidates in their order. */
  lemma {:induction false} RankingIsStable(xs: seq<Scored>, score: real)
    ensures Descending(Ranked(xs)) && multiset(Ranked(xs)) == multiset(xs) && Select(Ranked(xs), score) == Select(xs, score)
  {
    if xs != [] {
      RankingIsStable(xs[1..], score);
      InsertDescends(xs[0], Ranked(xs[1..]));
      InsertIsStable(xs[0], Ranked(xs[1..]), score);
    }
  }

  function Scores(cs: seq<Candidate>, gex: Gex, g: Gate, now: TimeOfDay): (r: seq<Scored>)
    ensures |r| == |cs|
  {
    if cs == [] then [] else [ScoreOf(cs[0], gex, g, now)] + Scores(cs[1..], gex, g, now)
  }

  lemma {:induction false} ScoresAt(cs: seq<Candidate>, gex: Gex, g: Gate, now: TimeOfDay, i: nat)
    requires i < |cs|
    ensures Scores(cs, gex, g, now)[i] == ScoreOf(cs[i], gex, g, now)
  {
    if i > 0 {
      ScoresAt(cs[1..], gex, g, now, i - 1);
    }
  }

  function RankedRows(cs: seq<Candidate>, gex: Gex, g: Gate, now: TimeOfDay): seq<Scored> {
    Ranked(Scores(cs, gex, g, now))
  }

  method ApplyDecisionScores(cs: seq<Candidate>, gex: Gex, g: Gate, now: TimeOfDay) returns (ranked: seq<Scored>)
    ensures ranked == RankedRows(cs, gex, g, now) && Descending(ranked)
  {
    var scored := ScoreAll(cs, gex, g, now);
    ranked := Ranked(scored);
    RankingIsStable(scored, 0.0);
  }

  method ScoreAll(cs: seq<Candidate>, gex: Gex, g: Gate, now: TimeOfDay) returns (scored: seq<Scored>)
    ensures scored == Scores(cs, gex, g, now)
  {
    scored := [];
    for i := 0 to |cs|
      invariant scored == Scores(cs, gex, g, now)[..i]
    {
      var s := ScoreAt(cs, gex, g, now, i);
      scored := scored + [s];
    }
  }

  method ScoreAt(cs: seq<Candidate>, gex: Gex, g: Gate, now: TimeOfDay, i: nat) returns (scored: Scored)
    requires i < |cs|
    ensures scored == Scores(cs, gex, g, now)[i]
  {
    scored := DecisionScores(cs[i], gex, g, now);
    ScoresAt(cs, gex, g, now, i);
  }

  /** The ranking descends and holds the score of every candidate, and nothing else. */
  lemma RankedScores(cs: seq<Candidate>, gex: Gex, g: Gate, now: TimeOfDay)
    ensures var ranked := RankedRows(cs, gex, g, now);
            Descending(ranked) && |ranked| == |cs| && forall s <- ranked :: s.candidate in cs && s == ScoreOf(s.candidate, gex, g, now)
  {
    var scored := Scores(cs, gex, g, now);
    RankingIsStable(scored, 0.0);
    RankedMembers(scored);
    forall s <- scored
      ensures s.candidate in cs && s == ScoreOf(s.candidate, gex, g, now)
    {
      var i :| 0 <= i < |scored| && scored[i] == s;
      ScoresAt(cs, gex, g, now, i);
    }
  }

  lemma RankedMembers(xs: seq<Scored>)
    ensures |Ranked(xs)| == |xs| && forall s :: s in Ranked(xs) <==> s in xs
  {
    assert |multiset(Ranked(xs))| == |multiset(xs)|;
    forall s
      ensures s in Ranked(xs) <==> s in xs
    {
      assert s in multiset(xs) <==> s in multiset(Ranked(xs));
    }
  }

  // ----- The single-leg flag moves every score alike -----

  /** The same row with its decision score lowered. */
  function Lower(s: Scored, drop: real): Scored {
    s.(decision := s.decision - drop)
  }

  function LowerAll(xs: seq<Scored>, drop: real): (r: seq<Scored>)
    ensures |r| == |xs| && forall i :: 0 <= i < |xs| ==> r[i] == Lower(xs[i], drop)
  {
    if xs == [] then [] else [Lower(xs[0], drop)] + LowerAll(xs[1..], drop)
  }

  lemma {:induction false} InsertLowered(x: Scored, xs: seq<Scored>, drop: real)
    ensures Insert(Lower(x, drop), LowerAll(xs, drop)) == LowerAll(Insert(x, xs), drop)
  {
    if xs != [] && x.decision < xs[0].decision {
      InsertLowered(x, xs[1..], drop);
      assert LowerAll(xs, drop)[1..] == LowerAll(xs[1..], drop);
    }
  }

  lemma {:induction false} RankedLowered(xs: seq<Scored>, drop: real)
    ensures Ranked(LowerAll(xs, drop)) == LowerAll(Ranked(xs), drop)
  {
    if xs != [] {
      RankedLowered(xs[1..], drop);
      assert LowerAll(xs, drop)[1..] == LowerAll(xs[1..], drop);
      InsertLowered(xs[0], Ranked(xs[1..]), drop);
    }
  }

  /** Taking whole points off commutes with rounding. */
  lemma RoundShifts(x: real)
    ensures Round2(x - 12.0) == Round2(x) - 12.0
  {
    assert (x - 12.0) * 100.0 == x * 100.0 - 1200.0;
    assert ((x - 12.0) * 100.0).Floor == (x * 100.0).Floor - 1200;
  }

  /** Withdrawing the single-leg permission lowers every decision score by twelve, so it reorders nothing. */
  lemma SingleLegFlagKeepsTheOrder(cs: seq<Candidate>, gex: Gex, g: Gate, now: TimeOfDay)
    ensures var on, off := g.(allowSingleLeg := true), g.(allowSingleLeg := false);
            Ranked(Scores(cs, gex, off, now)) == LowerAll(Ranked(Scores(cs, gex, on, now)), 12.0)
  {
    var on, off := g.(allowSingleLeg := true), g.(allowSingleLeg := false);
    ScoresLowered(cs, gex, g, now);
    RankedLowered(Scores(cs, gex, on, now), 12.0);
  }

  lemma {:induction false} ScoresLowered(cs: seq<Candidate>, gex: Gex, g: Gate, now: TimeOfDay)
    ensures Scores(cs, gex, g.(allowSingleLeg := false), now) == LowerAll(Scores(cs, gex, g.(allowSingleLeg := true), now), 12.0)
  {
    if cs != [] {
      ScoreLowered(cs[0], gex, g, now);
      ScoresLowered(cs[1..], gex, g, now);
      var on := Scores(cs, gex, g.(allowSingleLeg := true), now);
      assert on[1..] == Scores(cs[1..], gex, g.(allowSingleLeg := true), now);
    }
  }

  lemma ScoreLowered(c: Candidate, gex: Gex, g: Gate, now: TimeOfDay)
    ensures ScoreOf(c, gex, g.(allowSingleLeg := false), now) == Lower(ScoreOf(c, gex, g.(allowSingleLeg := true), now), 12.0)
  {
    var on, off := g.(allowSingleLeg := true), g.(allowSingleLeg := false);
    RoundShifts(RawDecision(c, gex, on, now) - GateMarks(on));
  }
}
