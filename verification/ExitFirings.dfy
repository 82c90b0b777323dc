/** When each exit rule fires, read off the rule's and the position's own figures, and how the verdict moves with the market
    (`smart_exit_rules.py`). */
module ExitFirings {
  import opened Options
  import opened Text
  import opened Digits
  import opened ExitRules

  /** What a list of one rule comes to. */
  function Alone(r: Rule, p: Position): (verdict: Outcome)
    ensures verdict == Check(r, p)
  {
    assert [r][1..] == [] && FirstOutcome([], p) == Quiet;
    FirstOutcome([r], p)
  }

  // ----- Profit and loss -----

  lemma StopLossFires(limit: real, reason: string, p: Position)
    ensures Alone(StopLossPnl(limit, reason), p) ==
            if limit < 0.0 && p.pnl <= limit then Fires(Trigger(Stop, limit, p.pnl, reason)) else Quiet
  {
  }

  lemma TakeProfitFires(goal: real, target: string, reason: string, p: Position)
    ensures var name := if Trim(target) == "" then "tp" else Trim(target);
            Alone(TakeProfitPnl(goal, target, reason), p) ==
            if 0.0 < goal <= p.pnl then Fires(Trigger(Target(name), goal, p.pnl, reason)) else Quiet
  {
  }

  /** The best result so far, a recorded zero counting as none. */
  function Best(p: Position): real {
    if p.bestPnl != 0.0 && p.bestPnl > p.pnl then p.bestPnl else p.pnl
  }

  /** The share of it that may be given back, in percent: 35 unless another one is given, and from 1 to 100. */
  function Share(pct: real): real {
    if pct == 0.0 then 35.0 else if pct < 1.0 then 1.0 else if pct > 100.0 then 100.0 else pct
  }

  lemma GivebackFires(least: real, pct: real, reason: string, p: Position)
    ensures Alone(PnlGiveback(least, pct, reason), p).Fires? <==>
            Best(p) >= least && (Best(p) - p.pnl) * 100.0 >= Best(p) * Share(pct)
    ensures Alone(PnlGiveback(least, pct, reason), p).Fires? ==>
            Alone(PnlGiveback(least, pct, reason), p).trigger == Trigger(SmartPnlGivebackExit, Best(p) - Best(p) * Share(pct) / 100.0, Best(p), reason)
  {
    FloorIs(p, pct);
  }

  lemma FloorIs(p: Position, pct: real)
    ensures BestPnl(p) == Best(p) && GivebackFloor(p, pct) == Best(p) - Best(p) * Share(pct) / 100.0
  {
    var best, share := Best(p), Share(pct);
    assert best * (1.0 - share / 100.0) == best - best * share / 100.0;
  }

  /** A position at its best is never given back while it gains, and always while it does not. */
  lemma GivebackAtTheBest(least: real, pct: real, reason: string, p: Position)
    requires Best(p) == p.pnl >= least
    ensures Alone(PnlGiveback(least, pct, reason), p).Fires? <==> p.pnl <= 0.0
  {
    GivebackFires(least, pct, reason, p);
    var gain, share := p.pnl, Share(pct);
    assert gain > 0.0 ==> gain * share > 0.0;
    assert gain <= 0.0 ==> gain * share <= 0.0;
  }

  predicate LossRule(r: Rule) {
    r.StopLossPnl? || r.PnlGiveback?
  }

  /** The same position at another profit. */
  function AtPnl(p: Position, pnl: real): Position {
    p.(pnl := pnl)
  }

  lemma LossRuleFiresBelow(r: Rule, p: Position, pnl: real)
    requires LossRule(r) && p.bestPnl != 0.0 && pnl <= p.pnl <= p.bestPnl && Check(r, p).Fires?
    ensures Check(r, AtPnl(p, pnl)).Fires?
  {
    var q := AtPnl(p, pnl);
    if r.PnlGiveback? {
      FloorIs(p, r.givebackPct);
      FloorIs(q, r.givebackPct);
      assert Best(p) == Best(q);
    }
  }

  lemma NeverRaise(rules: seq<Rule>, p: Position)
    requires forall r <- rules :: !r.TimeExit?
    ensures FirstOutcome(rules, p).Fires? <==> exists r <- rules :: Check(r, p).Fires?
  {
    FiresIff(rules, p);
    forall r <- rules
      ensures Check(r, p) != Raises
    {
      RaisesIff(r, p);
    }
    if exists r <- rules :: Check(r, p).Fires? {
      var r :| r in rules && Check(r, p).Fires?;
      var i :| 0 <= i < |rules| && rules[i] == r;
      assert forall k :: 0 <= k < i ==> rules[k] in rules;
    }
  }

  /** Stops and givebacks that end a position end it at every lower profit as well. */
  lemma LossRulesFireBelow(rules: seq<Rule>, p: Position, pnl: real)
    requires forall r <- rules :: LossRule(r)
    requires p.bestPnl != 0.0 && pnl <= p.pnl <= p.bestPnl && FirstOutcome(rules, p).Fires?
    ensures FirstOutcome(rules, AtPnl(p, pnl)).Fires?
  {
    NeverRaise(rules, p);
    NeverRaise(rules, AtPnl(p, pnl));
    var r :| r in rules && Check(r, p).Fires?;
    LossRuleFiresBelow(r, p, pnl);
  }

  /** Stops and targets leave a band: the position is kept exactly above every stop that is a loss and below every target that is
      a gain. */
  lemma ProfitBand(rules: seq<Rule>, p: Position)
    requires forall r <- rules :: r.StopLossPnl? || r.TakeProfitPnl?
    ensures FirstOutcome(rules, p) == Quiet <==>
            (forall r <- rules :: r.StopLossPnl? && r.pnl < 0.0 ==> p.pnl > r.pnl) &&
            (forall r <- rules :: r.TakeProfitPnl? && r.pnl > 0.0 ==> p.pnl < r.pnl)
  {
    KeepsQuiet(rules, p);
  }

  lemma {:induction false} KeepsQuiet(rules: seq<Rule>, p: Position)
    ensures FirstOutcome(rules, p) == Quiet <==> forall r <- rules :: Check(r, p) == Quiet
  {
    if rules != [] {
      KeepsQuiet(rules[1..], p);
      assert rules == [rules[0]] + rules[1..];
    }
  }

  // ----- Prices -----

  lemma OptionStopFires(price: real, reason: string, p: Position)
    ensures Alone(OptionPriceStop(price, reason), p) ==
            if 0.0 < p.price <= price then Fires(Trigger(SmartOptionPriceStop, price, p.price, reason)) else Quiet
  {
  }

  lemma OptionTargetFires(price: real, reason: string, p: Position)
    ensures Alone(OptionPriceTakeProfit(price, reason), p) ==
            if 0.0 < price <= p.price then Fires(Trigger(SmartOptionPriceTakeProfit, price, p.price, reason)) else Quiet
  {
  }

  /** A target in percent is the target of the price that lies so far above the entry price, and none without one. */
  lemma PercentTargetFires(pct: real, reason: string, p: Position)
    ensures p.entryPrice > 0.0 && pct > 0.0 ==>
              Alone(OptionPriceTakeProfitPct(pct, reason), p) == Alone(OptionPriceTakeProfit(p.entryPrice + p.entryPrice * pct / 100.0, reason), p)
    ensures !(p.entryPrice > 0.0 && pct > 0.0) ==> Alone(OptionPriceTakeProfitPct(pct, reason), p) == Quiet
  {
    var entry := p.entryPrice;
    assert entry * (1.0 + pct / 100.0) == entry + entry * pct / 100.0;
  }

  predicate PriceRule(r: Rule) {
    r.OptionPriceStop? || r.OptionPriceTakeProfit?
  }

  /** Stops and targets on the option's price leave a band of prices; a missing price meets no stop. */
  lemma PriceBand(rules: seq<Rule>, p: Position)
    requires forall r <- rules :: PriceRule(r)
    ensures FirstOutcome(rules, p) == Quiet <==>
            (forall r <- rules :: r.OptionPriceStop? && r.price > 0.0 ==> p.price <= 0.0 || p.price > r.price) &&
            (forall r <- rules :: r.OptionPriceTakeProfit? && r.price > 0.0 ==> p.price < r.price)
  {
    KeepsQuiet(rules, p);
  }

  /** Without a quote of the underlying its rule keeps quiet; at most and at least are the only comparisons it knows. */
  lemma UnderlyingFires(operator: Operator, price: real, reason: string, p: Position)
    ensures Alone(UnderlyingPrice(operator, price, reason), p).Fires? <==>
            p.underlying.Some? && ((operator == AtMost && p.underlying.value <= price) || (operator == AtLeast && p.underlying.value >= price))
    ensures Alone(UnderlyingPrice(operator, price, reason), p).Fires? ==>
              Alone(UnderlyingPrice(operator, price, reason), p).trigger == Trigger(SmartUnderlyingPriceExit, price, p.underlying.value, reason)
  {
  }

  // ----- Greeks -----

  /** The three comparisons; equal is within a billionth. */
  predicate Meets(x: real, operator: Operator, y: real) {
    (operator == AtMost && x <= y) || (operator == AtLeast && x >= y) || (operator == Equal && y - 0.000000001 < x < y + 0.000000001)
  }

  lemma GreekFires(greek: Greek, operator: Operator, value: real, reason: string, p: Position)
    ensures Alone(OptionGreek(greek, operator, value, reason), p) ==
            if greek in p.metrics && Meets(p.metrics[greek], operator, value)
            then Fires(Trigger(SmartOptionExit(greek), value, p.metrics[greek], reason)) else Quiet
  {
  }

  /** The change from the reference, or from the figure at entry without one: `moved` percent of its size when the rule counts in
      percent and the reference is not zero, and else `moved` itself. */
  ghost predicate Moved(moved: real, current: real, reference: real, change: Change) {
    if change.ByPercent? && (reference > 0.000000001 || reference < -0.000000001)
    then moved * (if reference < 0.0 then -reference else reference) == (current - reference) * 100.0
    else reference + moved == current
  }

  lemma GreekChangeFires(greek: Greek, operator: Operator, change: Change, reference: Option<real>, reason: string, p: Position)
    ensures var verdict := Alone(OptionGreekChange(greek, operator, change, reference, reason), p);
            if greek in p.metrics && (reference.Some? || greek in p.entryMetrics)
            then exists moved :: Moved(moved, p.metrics[greek], if reference.Some? then reference.value else p.entryMetrics[greek], change) &&
                   verdict == if Meets(moved, operator, change.amount) then Fires(Trigger(SmartOptionChangeExit(greek), change.amount, moved, reason)) else Quiet
            else verdict == Quiet
  {
    if greek in p.metrics && (reference.Some? || greek in p.entryMetrics) {
      var from := if reference.Some? then reference.value else p.entryMetrics[greek];
      var moved := ChangeOf(p.metrics[greek], from, change);
      ChangeIsMoved(p.metrics[greek], from, change);
      assert Compares(moved, change.amount, operator) <==> Meets(moved, operator, change.amount);
      assert Moved(moved, p.metrics[greek], from, change);
    }
  }

  lemma ChangeIsMoved(current: real, reference: real, change: Change)
    ensures Moved(ChangeOf(current, reference, change), current, reference, change)
  {
    var size := if reference < 0.0 then -reference else reference;
    if change.ByPercent? && size > 0.000000001 {
      assert (current - reference) / size * 100.0 * size == (current - reference) * 100.0;
    }
  }

  /** Only one figure is that change. */
  lemma MovedOnce(a: real, b: real, current: real, reference: real, change: Change)
    requires Moved(a, current, reference, change) && Moved(b, current, reference, change)
    ensures a == b
  {
    if change.ByPercent? && (reference > 0.000000001 || reference < -0.000000001) {
      var size := if reference < 0.0 then -reference else reference;
      assert (a - b) * size == 0.0;
    }
  }

  // ----- Times -----

  /** A moment: the stamp a text stands for. */
  lemma StampIsRead(text: string, reader: Reader)
    requires reader.stamp(text).Some?
    ensures ReadExit(text, reader) == At(reader.stamp(text).value)
  {
  }

  predicate NoDigits(s: string) {
    forall i :: 0 <= i < |s| ==> !IsDigit(s[i])
  }

  lemma {:induction false} TimeIsFound(prefix: string, time: string, suffix: string)
    requires NoDigits(prefix) && time != "" && TimeAt(time + suffix).Some?
    ensures FirstTime(prefix + time + suffix) == TimeAt(time + suffix)
  {
    var t := prefix + time + suffix;
    if prefix == "" {
      assert t == time + suffix;
    } else {
      assert t[1..] == prefix[1..] + time + suffix;
      assert !IsDigit(t[0]);
      assert TimeAt(t).None?;
      TimeIsFound(prefix[1..], time, suffix);
    }
  }

  /** The text around a time of day, padded or not, that no digit precedes. */
  predicate TellsTime(text: string, prefix: string, hour: nat, minute: nat, suffix: string) {
    hour < 100 && minute < 100 && NoDigits(prefix) && Trim(text) == text &&
    (text == prefix + (TwoDigits(hour) + ":" + TwoDigits(minute)) + suffix ||
     (hour < 10 && text == prefix + ([Digit(hour)] + ":" + TwoDigits(minute)) + suffix))
  }

  lemma TimeIsRead(text: string, prefix: string, hour: nat, minute: nat, suffix: string)
    requires TellsTime(text, prefix, hour, minute, suffix)
    ensures FirstTime(text) == Some((hour, minute))
  {
    var padded, short := TwoDigits(hour) + ":" + TwoDigits(minute), [Digit(hour % 10)] + ":" + TwoDigits(minute);
    TwoDigitsHaveValue(hour);
    TwoDigitsHaveValue(minute);
    OneDigitHasValue(hour % 10);
    if text == prefix + padded + suffix {
      var t := padded + suffix;
      assert t[..2] == TwoDigits(hour) && t[3..5] == TwoDigits(minute);
      TimeIsFound(prefix, padded, suffix);
    } else {
      var t := short + suffix;
      assert t[..1] == [Digit(hour)] && t[2..4] == TwoDigits(minute);
      TimeIsFound(prefix, short, suffix);
    }
  }

  /** A time exit fires from the minute its text names, on the day its words choose, unless the position was opened since; a time
      no day has makes it raise. */
  lemma TimeExitFires(text: string, prefix: string, hour: nat, minute: nat, suffix: string, reason: string, p: Position)
    requires TellsTime(text, prefix, hour, minute, suffix) && p.reader.stamp(text).None?
    ensures var verdict := Alone(TimeExit(text, reason), p);
            if hour >= 24 || minute >= 60 then verdict == Raises
            else
              var moment := p.reader.midnight(text) + 3600 * hour + 60 * minute;
              verdict == if p.now >= moment && (p.openedAt.None? || p.openedAt.value < moment)
                         then Fires(Trigger(SmartTimeExit, 0.0, 0.0, reason)) else Quiet
  {
    TimeIsRead(text, prefix, hour, minute, suffix);
  }

  /** Once fired, a time exit fires at every later moment. */
  lemma TimeExitStays(r: Rule, p: Position, later: int)
    requires r.TimeExit? && Check(r, p).Fires? && p.now <= later
    ensures Check(r, p.(now := later)).Fires?
  {
  }

  /** The overnight ban fires from the minute it names on, and from 15:50 when it names none. */
  lemma OvernightFires(timeEt: string, hour: nat, minute: nat, reason: string, p: Position)
    requires hour < 24 && minute < 60
    requires if Trim(timeEt) == "" then hour == 15 && minute == 50 else Trim(timeEt) == TwoDigits(hour) + ":" + TwoDigits(minute)
    ensures Alone(NoOvernight(timeEt, reason), p) ==
            if p.minuteOfDay >= 60 * hour + minute then Fires(Trigger(SmartNoOvernightExit, 0.0, 0.0, reason)) else Quiet
  {
    CutoffIsRead(timeEt, hour, minute);
  }

  lemma CutoffIsRead(timeEt: string, hour: nat, minute: nat)
    requires hour < 24 && minute < 60
    requires if Trim(timeEt) == "" then hour == 15 && minute == 50 else Trim(timeEt) == TwoDigits(hour) + ":" + TwoDigits(minute)
    ensures HhmmToMinutes(Cutoff(timeEt)) == Some(60 * hour + minute)
  {
    if Trim(timeEt) == "" {
      CutoffIsTenToFour();
    } else {
      TimesAreRead(hour, minute);
    }
  }

  // ----- The normalised list -----

  lemma {:induction false} PlainConditions(rules: seq<Rule>, reader: Reader)
    ensures ReadConditions(seq(|rules|, i requires 0 <= i < |rules| => Plain(rules[i])), reader) == Some(rules)
  {
    if rules != [] {
      var front, last := rules[..|rules| - 1], rules[|rules| - 1];
      var cs := seq(|rules|, i requires 0 <= i < |rules| => Plain(rules[i]));
      PlainConditions(front, reader);
      assert cs[..|cs| - 1] == seq(|front|, i requires 0 <= i < |front| => Plain(front[i]));
      assert rules == front + [last];
    }
  }

  /** What a text is stored as: a stamp when it stands for a moment, and else itself without the white space around it. */
  ghost predicate StoredAs(text: string, stored: string, reader: Reader) {
    match ReadExit(text, reader)
    case At(moment) => stored == reader.stampOf(moment)
    case NoTime => stored == Trim(text)
    case Impossible => false
  }

  /** A time condition keeps its own exit; without one it takes the other text, and without either it names no time. */
  lemma TimedCondition(exitAt: string, timeEt: string, stored: string, reason: string, reader: Reader)
    requires if Trim(exitAt) != "" then stored == Trim(exitAt) else if Trim(timeEt) != "" then StoredAs(timeEt, stored, reader) else stored == ""
    ensures ReadConditions([Timed(exitAt, timeEt, reason)], reader) == Some([TimeExit(stored, reason)])
  {
    var cs := [Timed(exitAt, timeEt, reason)];
    assert cs[..0] == [] && [] + [TimeExit(stored, reason)] == [TimeExit(stored, reason)];
  }

  /** The rule an invalidation comes to: its price, or the position's own latest exit. */
  ghost predicate Invalidates(invalidation: Invalidation, positionExit: string, rule: Rule, reader: Reader) {
    match invalidation
    case NoInvalidation => false
    case ByPrice(r) => rule == r
    case ByLatestExit(reason) => rule.TimeExit? && rule.reason == reason && rule.exitAt != "" && StoredAs(positionExit, rule.exitAt, reader)
  }

  /** A plan comes out in its order: its conditions, its latest exit or else the position's, the invalidation and the overnight ban.
      Rules that differ are all kept. */
  lemma NormalizedInOrder(rules: seq<Rule>, plan: Plan, stored: string, last: Rule, reader: Reader)
    requires plan.conditions == seq(|rules|, i requires 0 <= i < |rules| => Plain(rules[i])) && plan.allowOvernight == Some(false)
    requires var text := Trim(if plan.latestExit == "" then plan.positionExit else plan.latestExit);
             text != "" && stored != "" && StoredAs(text, stored, reader) && Invalidates(plan.invalidation, plan.positionExit, last, reader) &&
             AllDifferent(rules + [TimeExit(stored, text)] + [last] + [NoOvernight(plan.cutoff, OVERNIGHT_REASON)])
    ensures var text := Trim(if plan.latestExit == "" then plan.positionExit else plan.latestExit);
            Normalized(plan, reader) == Some(rules + [TimeExit(stored, text)] + [last] + [NoOvernight(plan.cutoff, OVERNIGHT_REASON)])
  {
    PlainConditions(rules, reader);
    assert OtherRules(plan, reader).Some?;
    UnseenOfDifferent(OtherRules(plan, reader).value + OvernightRule(plan.allowOvernight, plan.cutoff), {});
  }
}
