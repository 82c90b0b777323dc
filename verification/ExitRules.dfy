/** Exit rules: deduplication and evaluation (`smart_exit_rules.py`). */
module ExitRules {
  import opened Options
  import opened Text
  import opened Digits

  datatype Operator = AtMost | AtLeast | Equal | OtherOperator
  datatype Greek = Delta | Gamma | Theta | Vega | ImpliedVolatility
  datatype Change = ByPercent(amount: real) | ByAmount(amount: real)

  /** One rule; two rules are the same when all their fields are. */
  datatype Rule =
    | TimeExit(exitAt: string, reason: string)
    | NoOvernight(timeEt: string, reason: string)
    | UnderlyingPrice(operator: Operator, price: real, reason: string)
    | PnlGiveback(minProfit: real, givebackPct: real, reason: string)
    | StopLossPnl(pnl: real, reason: string)
    | TakeProfitPnl(pnl: real, target: string, reason: string)
    | OptionPriceStop(price: real, reason: string)
    | OptionPriceTakeProfit(price: real, reason: string)
    | OptionPriceTakeProfitPct(pct: real, reason: string)
    | OptionGreek(greek: Greek, operator: Operator, value: real, reason: string)
    | OptionGreekChange(greek: Greek, operator: Operator, change: Change, reference: Option<real>, reason: string)

  /** How exit texts are read besides a time of day: date-time stamps, the day a text's words and the expiration choose, and words
      that stand for a moment by themselves. Moments are seconds. */
  datatype Reader = Reader(stamp: string -> Option<int>, stampOf: int -> string, midnight: string -> int, phrase: string -> Option<int>)

  /** What one evaluation sees. */
  datatype Position = Position(
    now: int, minuteOfDay: nat, openedAt: Option<int>, reader: Reader,
    underlying: Option<real>, price: real, entryPrice: real, pnl: real, bestPnl: real,
    metrics: map<Greek, real>, entryMetrics: map<Greek, real>)

  datatype Kind =
    | SmartTimeExit | SmartNoOvernightExit | SmartUnderlyingPriceExit | SmartPnlGivebackExit | Stop | Target(name: string)
    | SmartOptionPriceStop | SmartOptionPriceTakeProfit | SmartOptionExit(greek: Greek) | SmartOptionChangeExit(greek: Greek)

  datatype Trigger = Trigger(kind: Kind, threshold: real, value: real, reason: string)

  // ----- Times of day -----

  const DEFAULT_CUTOFF := "15:50"

  /** "The plan forbids holding overnight." */
  const OVERNIGHT_REASON := "计划禁止隔夜"

  function OfClock(hour: nat, minute: nat): Option<nat> {
    if hour <= 23 && minute <= 59 then Some(60 * hour + minute) else None
  }

  /** "HH:MM" or "H:MM" in minutes since midnight. */
  function HhmmToMinutes(text: string): Option<nat> {
    var t := Trim(text);
    if |t| == 5 && t[2] == ':' && AllDigits(t[..2]) && AllDigits(t[3..]) then OfClock(Value(t[..2]), Value(t[3..]))
    else if |t| == 4 && t[1] == ':' && AllDigits(t[..1]) && AllDigits(t[2..]) then OfClock(Value(t[..1]), Value(t[2..]))
    else None
  }

  function Digit(n: nat): (c: char)
    requires n < 10
    ensures IsDigit(c)
  {
    '0' + n as char
  }

  function TwoDigits(n: nat): (s: string)
    requires n < 100
    ensures AllDigits(s) && |s| == 2
  {
    [Digit(n / 10), Digit(n % 10)]
  }

  lemma OneDigitHasValue(n: nat)
    requires n < 10
    ensures Value([Digit(n)]) == n
  {
    assert [Digit(n)][..0] == "";
  }

  lemma TwoDigitsHaveValue(n: nat)
    requires n < 100
    ensures Value(TwoDigits(n)) == n
  {
    OneDigitHasValue(n / 10);
    assert TwoDigits(n)[..1] == [Digit(n / 10)];
  }

  /** Padded or not, a time of day is read as the minute it names, so that times compare as numbers. */
  lemma TimesAreRead(hour: nat, minute: nat)
    requires hour < 24 && minute < 60
    ensures HhmmToMinutes(TwoDigits(hour) + ":" + TwoDigits(minute)) == Some(60 * hour + minute)
    ensures hour < 10 ==> HhmmToMinutes([Digit(hour)] + ":" + TwoDigits(minute)) == Some(60 * hour + minute)
  {
    TwoDigitsHaveValue(hour);
    TwoDigitsHaveValue(minute);
    var t := TwoDigits(hour) + ":" + TwoDigits(minute);
    assert t[..2] == TwoDigits(hour) && t[3..] == TwoDigits(minute);
    if hour < 10 {
      var u := [Digit(hour)] + ":" + TwoDigits(minute);
      OneDigitHasValue(hour);
      assert u[..1] == [Digit(hour)] && u[2..] == TwoDigits(minute);
    }
  }

  function Cutoff(timeEt: string): string {
    if timeEt == "" || Trim(timeEt) == "" then DEFAULT_CUTOFF else Trim(timeEt)
  }

  // ----- Exit texts -----

  /** A time of day at the beginning of the text: one or two digits, a colon and two digits. */
  function TimeAt(t: string): Option<(nat, nat)> {
    if |t| >= 5 && t[2] == ':' && AllDigits(t[..2]) && AllDigits(t[3..5]) then Some((Value(t[..2]), Value(t[3..5])))
    else if |t| >= 4 && t[1] == ':' && AllDigits(t[..1]) && AllDigits(t[2..4]) then Some((Value(t[..1]), Value(t[2..4])))
    else None
  }

  /** The first one anywhere in it. */
  function FirstTime(t: string): Option<(nat, nat)> {
    if t == "" then None else if TimeAt(t).Some? then TimeAt(t) else FirstTime(t[1..])
  }

  /** A text stands for a moment or for none, or names an hour or a minute that no day has, which raises. */
  datatype Reading = At(moment: int) | NoTime | Impossible

  function ReadExit(text: string, reader: Reader): Reading {
    var t := Trim(text);
    if reader.stamp(text).Some? then At(reader.stamp(text).value)
    else if t == "" then NoTime
    else
      match FirstTime(t)
      case Some((hour, minute)) =>
        if OfClock(hour, minute).Some? then At(reader.midnight(t) + 60 * OfClock(hour, minute).value) else Impossible
      case None => if reader.phrase(t).Some? then At(reader.phrase(t).value) else NoTime
  }

  /** The first time of day in the text has an hour above 23 or a minute above 59. */
  predicate NamesImpossibleTime(text: string) {
    match FirstTime(Trim(text))
    case Some((hour, minute)) => hour > 23 || minute > 59
    case None => false
  }

  /** Only such a text raises, and only if it is no stamp. */
  lemma ImpossibleIff(text: string, reader: Reader)
    ensures ReadExit(text, reader) == Impossible <==> reader.stamp(text).None? && NamesImpossibleTime(text)
  {
  }

  lemma MidnightTwentyFour()
    ensures NamesImpossibleTime("24:00")
  {
    TwoDigitsHaveValue(24);
    TwoDigitsHaveValue(0);
    assert TwoDigits(24) + ":" + TwoDigits(0) == "24:00";
    assert "24:00"[..2] == TwoDigits(24) && "24:00"[3..5] == TwoDigits(0);
    assert Trim("24:00") == "24:00";
  }

  // ----- One rule -----

  function Magnitude(x: real): real {
    if x < 0.0 then -x else x
  }

  predicate Compares(actual: real, expected: real, operator: Operator) {
    match operator
    case AtMost => actual <= expected
    case AtLeast => actual >= expected
    case Equal => Magnitude(actual - expected) < 0.000000001
    case OtherOperator => false
  }

  function Max(x: real, y: real): real {
    if x < y then y else x
  }

  function Min(x: real, y: real): real {
    if x < y then x else y
  }

  function BestPnl(p: Position): real {
    Max(if p.bestPnl == 0.0 then p.pnl else p.bestPnl, p.pnl)
  }

  function GivebackFloor(p: Position, givebackPct: real): real {
    var pct := Max(1.0, Min(if givebackPct == 0.0 then 35.0 else givebackPct, 100.0));
    BestPnl(p) * (1.0 - pct / 100.0)
  }

  /** A moment that had passed before the position was opened means nothing. */
  predicate Stale(p: Position, moment: int) {
    p.openedAt.Some? && moment <= p.openedAt.value
  }

  function ChangeOf(current: real, reference: real, change: Change): real {
    if change.ByPercent? && Magnitude(reference) > 0.000000001 then (current - reference) / Magnitude(reference) * 100.0 else current - reference
  }

  /** A rule keeps quiet, fires, or raises an exception that nothing catches. */
  datatype Outcome = Quiet | Fires(trigger: Trigger) | Raises

  function When(fires: bool, trigger: Trigger): Outcome {
    if fires then Fires(trigger) else Quiet
  }

  /** What one rule says of a position. */
  function Check(r: Rule, p: Position): Outcome {
    match r
    case TimeExit(exitAt, reason) =>
      (match ReadExit(exitAt, p.reader)
       case At(moment) => When(p.now >= moment && !Stale(p, moment), Trigger(SmartTimeExit, 0.0, 0.0, reason))
       case NoTime => Quiet
       case Impossible => Raises)
    case NoOvernight(timeEt, reason) =>
      var cutoff := HhmmToMinutes(Cutoff(timeEt));
      When(cutoff.Some? && p.minuteOfDay >= cutoff.value, Trigger(SmartNoOvernightExit, 0.0, 0.0, reason))
    case UnderlyingPrice(operator, price, reason) =>
      if p.underlying.None? then Quiet
      else When(operator != Equal && Compares(p.underlying.value, price, operator), Trigger(SmartUnderlyingPriceExit, price, p.underlying.value, reason))
    case PnlGiveback(minProfit, givebackPct, reason) =>
      var floor := GivebackFloor(p, givebackPct);
      When(BestPnl(p) >= minProfit && p.pnl <= floor, Trigger(SmartPnlGivebackExit, floor, BestPnl(p), reason))
    case StopLossPnl(pnl, reason) => When(pnl < 0.0 && p.pnl <= pnl, Trigger(Stop, pnl, p.pnl, reason))
    case TakeProfitPnl(pnl, target, reason) =>
      When(pnl > 0.0 && p.pnl >= pnl, Trigger(Target(if Trim(target) == "" then "tp" else Trim(target)), pnl, p.pnl, reason))
    case OptionPriceStop(price, reason) =>
      When(price > 0.0 && p.price > 0.0 && p.price <= price, Trigger(SmartOptionPriceStop, price, p.price, reason))
    case OptionPriceTakeProfit(price, reason) =>
      When(price > 0.0 && p.price >= price, Trigger(SmartOptionPriceTakeProfit, price, p.price, reason))
    case OptionPriceTakeProfitPct(pct, reason) =>
      var threshold := if p.entryPrice > 0.0 && pct > 0.0 then p.entryPrice * (1.0 + pct / 100.0) else 0.0;
      When(threshold > 0.0 && p.price >= threshold, Trigger(SmartOptionPriceTakeProfit, threshold, p.price, reason))
    case OptionGreek(greek, operator, value, reason) =>
      if greek !in p.metrics then Quiet
      else When(Compares(p.metrics[greek], value, operator), Trigger(SmartOptionExit(greek), value, p.metrics[greek], reason))
    case OptionGreekChange(greek, operator, change, reference, reason) =>
      if greek !in p.metrics || (reference.None? && greek !in p.entryMetrics) then Quiet
      else
        var value := ChangeOf(p.metrics[greek], if reference.Some? then reference.value else p.entryMetrics[greek], change);
        When(Compares(value, change.amount, operator), Trigger(SmartOptionChangeExit(greek), change.amount, value, reason))
  }

  /** Time exits are the only rules that raise. */
  lemma RaisesIff(r: Rule, p: Position)
    ensures Check(r, p) == Raises <==> r.TimeExit? && p.reader.stamp(r.exitAt).None? && NamesImpossibleTime(r.exitAt)
  {
    if r.TimeExit? {
      ImpossibleIff(r.exitAt, p.reader);
    }
  }

  // ----- Rule lists -----

  /** What the first rule does that does not keep quiet: it decides, and ends the evaluation. */
  function FirstOutcome(rules: seq<Rule>, p: Position): Outcome {
    if rules == [] then Quiet else if Check(rules[0], p) != Quiet then Check(rules[0], p) else FirstOutcome(rules[1..], p)
  }

  method EvaluateExitRules(rules: seq<Rule>, p: Position) returns (verdict: Outcome)
    ensures verdict == FirstOutcome(rules, p)
    ensures verdict == Quiet <==> forall r <- rules :: Check(r, p) == Quiet
  {
    var i := 0;
    while i < |rules|
      invariant 0 <= i <= |rules| && FirstOutcome(rules, p) == FirstOutcome(rules[i..], p)
      invariant forall k :: 0 <= k < i ==> Check(rules[k], p) == Quiet
    {
      var outcome := Check(rules[i], p);
      if outcome != Quiet {
        return outcome;
      }
      i := i + 1;
    }
    verdict := Quiet;
  }

  ghost predicate QuietBefore(rules: seq<Rule>, i: nat, p: Position) {
    forall k :: 0 <= k < i && k < |rules| ==> Check(rules[k], p) == Quiet
  }

  lemma {:induction false} FirstOutcomeAt(rules: seq<Rule>, i: nat, p: Position)
    requires i < |rules| && QuietBefore(rules, i, p) && Check(rules[i], p) != Quiet
    ensures FirstOutcome(rules, p) == Check(rules[i], p)
  {
    if i > 0 {
      FirstOutcomeAt(rules[1..], i - 1, p);
    }
  }

  lemma {:induction false} FirstOutcomeIsSome(rules: seq<Rule>, p: Position) returns (i: nat)
    requires FirstOutcome(rules, p) != Quiet
    ensures i < |rules| && QuietBefore(rules, i, p) && Check(rules[i], p) == FirstOutcome(rules, p)
  {
    if Check(rules[0], p) != Quiet {
      i := 0;
    } else {
      var k := FirstOutcomeIsSome(rules[1..], p);
      i := k + 1;
    }
  }

  /** The evaluation returns a trigger exactly when some rule fires and no rule before it raises. */
  lemma FiresIff(rules: seq<Rule>, p: Position)
    ensures FirstOutcome(rules, p).Fires? <==>
            exists i :: 0 <= i < |rules| && Check(rules[i], p).Fires? && forall k :: 0 <= k < i ==> Check(rules[k], p) != Raises
  {
    if FirstOutcome(rules, p).Fires? {
      var i := FirstOutcomeIsSome(rules, p);
    }
    if exists i :: 0 <= i < |rules| && Check(rules[i], p).Fires? && forall k :: 0 <= k < i ==> Check(rules[k], p) != Raises {
      var i :| 0 <= i < |rules| && Check(rules[i], p).Fires? && forall k :: 0 <= k < i ==> Check(rules[k], p) != Raises;
      if QuietBefore(rules, i, p) {
        FirstOutcomeAt(rules, i, p);
      } else {
        var k :| 0 <= k < i && Check(rules[k], p) != Quiet;
        SomeRuleActs(rules, rules[k], p);
        var first := FirstOutcomeIsSome(rules, p);
        assert first <= k;
      }
    }
  }

  /** The first occurrence of every rule that is not in `seen`, in order. */
  function Unseen(rules: seq<Rule>, seen: set<Rule>): seq<Rule> {
    if rules == [] then []
    else if rules[0] in seen then Unseen(rules[1..], seen)
    else [rules[0]] + Unseen(rules[1..], seen + {rules[0]})
  }

  function Deduped(rules: seq<Rule>): seq<Rule> {
    Unseen(rules, {})
  }

  method DedupeRules(rules: seq<Rule>) returns (deduped: seq<Rule>)
    ensures deduped == Deduped(rules)
  {
    var seen: set<Rule> := {};
    deduped := [];
    for i := 0 to |rules|
      invariant Deduped(rules) == deduped + Unseen(rules[i..], seen)
    {
      ghost var rest := rules[i..];
      assert rest[1..] == rules[i + 1..];
      if rules[i] !in seen {
        seen := seen + {rules[i]};
        deduped := deduped + [rules[i]];
      }
    }
  }

  /** The rules already seen did not fire, so leaving them out changes no verdict. */
  lemma {:induction false} UnseenKeepsVerdict(rules: seq<Rule>, seen: set<Rule>, p: Position)
    requires forall r <- seen :: Check(r, p) == Quiet
    ensures FirstOutcome(Unseen(rules, seen), p) == FirstOutcome(rules, p)
  {
    if rules != [] {
      var more := seen + {rules[0]};
      if rules[0] in seen {
        UnseenKeepsVerdict(rules[1..], seen, p);
      } else if Check(rules[0], p) == Quiet {
        UnseenKeepsVerdict(rules[1..], more, p);
        assert Unseen(rules, seen)[1..] == Unseen(rules[1..], more);
      }
    }
  }

  /** Deduplication changes the verdict of no position. */
  lemma DedupeKeepsVerdict(rules: seq<Rule>, p: Position)
    ensures FirstOutcome(Deduped(rules), p) == FirstOutcome(rules, p)
  {
    UnseenKeepsVerdict(rules, {}, p);
  }

  ghost predicate AllDifferent(rules: seq<Rule>) {
    forall i, j :: 0 <= i < j < |rules| ==> rules[i] != rules[j]
  }

  lemma {:induction false} UnseenIsExact(rules: seq<Rule>, seen: set<Rule>)
    ensures var u := Unseen(rules, seen); AllDifferent(u) && forall r :: r in u <==> r in rules && r !in seen
  {
    if rules != [] {
      if rules[0] in seen {
        UnseenIsExact(rules[1..], seen);
      } else {
        UnseenIsExact(rules[1..], seen + {rules[0]});
      }
    }
  }

  lemma {:induction false} UnseenOfDifferent(rules: seq<Rule>, seen: set<Rule>)
    requires AllDifferent(rules) && forall r <- rules :: r !in seen
    ensures Unseen(rules, seen) == rules
  {
    if rules != [] {
      UnseenOfDifferent(rules[1..], seen + {rules[0]});
    }
  }

  /** It keeps exactly the rules of the list, each once, and a second pass finds nothing to do. */
  lemma DedupeIsExact(rules: seq<Rule>)
    ensures AllDifferent(Deduped(rules)) && (forall r :: r in Deduped(rules) <==> r in rules) && Deduped(Deduped(rules)) == Deduped(rules)
  {
    UnseenIsExact(rules, {});
    UnseenOfDifferent(Deduped(rules), {});
  }

  // ----- Normalisation -----

  /** One raw condition: not recognised, one whose fields need no reading, or a time exit with its two texts. */
  datatype Condition = Unrecognised | Plain(rule: Rule) | Timed(exitAt: string, timeEt: string, reason: string)

  /** What an invalidation sentence comes to: nothing, a rule, or an exit at the position's own latest exit. */
  datatype Invalidation = NoInvalidation | ByPrice(rule: Rule) | ByLatestExit(reason: string)

  /** What is normalised: conditions, the latest exit given and the position's, the invalidation, the overnight permission. */
  datatype Plan = Plan(
    conditions: seq<Condition>, latestExit: string, positionExit: string, invalidation: Invalidation,
    allowOvernight: Option<bool>, cutoff: string)

  /** The rules read so far, or None once reading has raised. */
  type Reads = Option<seq<Rule>>

  /** The text a latest exit is stored as: a stamp when it stands for a moment. */
  function StoredExit(text: string, reader: Reader): Option<string> {
    match ReadExit(text, reader)
    case At(moment) => Some(reader.stampOf(moment))
    case NoTime => Some(Trim(text))
    case Impossible => None
  }

  function ReadCondition(c: Condition, reader: Reader): Reads {
    match c
    case Unrecognised => Some([])
    case Plain(rule) => Some([rule])
    case Timed(exitAt, timeEt, reason) =>
      if Trim(exitAt) != "" || Trim(timeEt) == "" then Some([TimeExit(Trim(exitAt), reason)])
      else if StoredExit(timeEt, reader).None? then None
      else Some([TimeExit(StoredExit(timeEt, reader).value, reason)])
  }

  function Then(a: Reads, b: Reads): Reads {
    if a.None? || b.None? then None else Some(a.value + b.value)
  }

  function ReadConditions(cs: seq<Condition>, reader: Reader): Reads {
    if cs == [] then Some([]) else Then(ReadConditions(cs[..|cs| - 1], reader), ReadCondition(cs[|cs| - 1], reader))
  }

  function LatestExit(plan: Plan): string {
    Trim(if plan.latestExit != "" then plan.latestExit else plan.positionExit)
  }

  function ReadLatestExit(plan: Plan, reader: Reader): Reads {
    var text := LatestExit(plan);
    if text == "" then Some([])
    else
      match StoredExit(text, reader)
      case None => None
      case Some(exitAt) => Some([TimeExit(if exitAt != "" then exitAt else text, text)])
  }

  function ReadInvalidation(plan: Plan, reader: Reader): Reads {
    match plan.invalidation
    case NoInvalidation => Some([])
    case ByPrice(rule) => Some([rule])
    case ByLatestExit(reason) =>
      match StoredExit(plan.positionExit, reader)
      case None => None
      case Some(exitAt) => if exitAt != "" then Some([TimeExit(exitAt, reason)]) else Some([])
  }

  function OvernightRule(allowOvernight: Option<bool>, cutoff: string): seq<Rule> {
    if allowOvernight == Some(false) then [NoOvernight(cutoff, OVERNIGHT_REASON)] else []
  }

  /** The rules before the overnight ban: the recognised conditions, the latest exit and the invalidation, in this order. */
  function OtherRules(plan: Plan, reader: Reader): Reads {
    Then(Then(ReadConditions(plan.conditions, reader), ReadLatestExit(plan, reader)), ReadInvalidation(plan, reader))
  }

  function Normalized(plan: Plan, reader: Reader): Reads {
    var others := OtherRules(plan, reader);
    if others.None? then None else Some(Deduped(others.value + OvernightRule(plan.allowOvernight, plan.cutoff)))
  }

  method NormalizeExitRules(plan: Plan, reader: Reader) returns (rules: Reads)
    ensures rules == Normalized(plan, reader)
  {
    var list := ReadAll(plan.conditions, reader);
    if list.None? {
      return None;
    }
    var latest := ReadLatestExit(plan, reader);
    if latest.None? {
      return None;
    }
    var invalidation := ReadInvalidation(plan, reader);
    if invalidation.None? {
      return None;
    }
    var all := list.value + latest.value + invalidation.value;
    assert Some(all) == OtherRules(plan, reader);
    ghost var others := all;
    if plan.allowOvernight == Some(false) {
      all := all + [NoOvernight(plan.cutoff, OVERNIGHT_REASON)];
    }
    assert all == others + OvernightRule(plan.allowOvernight, plan.cutoff);
    var deduped := DedupeRules(all);
    rules := Some(deduped);
  }

  method ReadAll(cs: seq<Condition>, reader: Reader) returns (rules: Reads)
    ensures rules == ReadConditions(cs, reader)
  {
    var list: seq<Rule> := [];
    for i := 0 to |cs|
      invariant Some(list) == ReadConditions(cs[..i], reader)
    {
      assert cs[..i + 1][..i] == cs[..i];
      var more := ReadCondition(cs[i], reader);
      if more.None? {
        RaisingLasts(cs, i + 1, reader);
        return None;
      }
      list := list + more.value;
    }
    assert cs[..|cs|] == cs;
    rules := Some(list);
  }

  lemma {:induction false} RaisingLasts(cs: seq<Condition>, i: nat, reader: Reader)
    requires i <= |cs| && ReadConditions(cs[..i], reader) == None
    ensures ReadConditions(cs, reader) == None
    decreases |cs| - i
  {
    if i == |cs| {
      assert cs[..i] == cs;
    } else {
      assert cs[..i + 1][..i] == cs[..i];
      RaisingLasts(cs, i + 1, reader);
    }
  }

  /** The text a condition needs read, if any. */
  predicate RaisingCondition(c: Condition, reader: Reader) {
    c.Timed? && Trim(c.exitAt) == "" && Trim(c.timeEt) != "" && reader.stamp(c.timeEt).None? && NamesImpossibleTime(c.timeEt)
  }

  predicate RaisingText(text: string, reader: Reader) {
    reader.stamp(text).None? && NamesImpossibleTime(text)
  }

  lemma {:induction false} ConditionsRaiseIff(cs: seq<Condition>, reader: Reader)
    ensures ReadConditions(cs, reader) == None <==> exists c <- cs :: RaisingCondition(c, reader)
  {
    if cs != [] {
      var front, last := cs[..|cs| - 1], cs[|cs| - 1];
      ConditionsRaiseIff(front, reader);
      ConditionRaisesIff(last, reader);
      assert cs == front + [last];
    }
  }

  lemma ConditionRaisesIff(c: Condition, reader: Reader)
    ensures ReadCondition(c, reader) == None <==> RaisingCondition(c, reader)
  {
    if c.Timed? {
      ImpossibleIff(c.timeEt, reader);
    }
  }

  /** Normalising raises exactly when a text it has to read names an impossible time: of a condition without an exit of its own, of
      the latest exit, or of the position's own latest exit when the invalidation falls back on it. */
  lemma NormalizingRaisesIff(plan: Plan, reader: Reader)
    ensures Normalized(plan, reader) == None <==>
            (exists c <- plan.conditions :: RaisingCondition(c, reader)) ||
            (LatestExit(plan) != "" && RaisingText(LatestExit(plan), reader)) ||
            (plan.invalidation.ByLatestExit? && RaisingText(plan.positionExit, reader))
  {
    ConditionsRaiseIff(plan.conditions, reader);
    ImpossibleIff(LatestExit(plan), reader);
    ImpossibleIff(plan.positionExit, reader);
  }

  // ----- The overnight ban -----

  lemma {:induction false} SomeRuleActs(rules: seq<Rule>, r: Rule, p: Position)
    requires r in rules && Check(r, p) != Quiet
    ensures FirstOutcome(rules, p) != Quiet
  {
    if rules[0] != r {
      SomeRuleActs(rules[1..], r, p);
    }
  }

  lemma {:induction false} LastResort(rules: seq<Rule>, r: Rule, p: Position)
    ensures FirstOutcome(rules + [r], p) == if FirstOutcome(rules, p) != Quiet then FirstOutcome(rules, p) else Check(r, p)
  {
    if rules == [] {
      assert rules + [r] == [r];
      assert [r][1..] == [];
    } else {
      assert (rules + [r])[1..] == rules[1..] + [r];
      LastResort(rules[1..], r, p);
    }
  }

  lemma CutoffIsTenToFour()
    ensures HhmmToMinutes(Cutoff(DEFAULT_CUTOFF)) == Some(950)
  {
    TimesAreRead(15, 50);
    assert TwoDigits(15) + ":" + TwoDigits(50) == "15:50";
  }

  /** The plan with the overnight ban, and without it. */
  function Banned(plan: Plan): Plan {
    plan.(allowOvernight := Some(false))
  }

  function Unbanned(plan: Plan): Plan {
    plan.(allowOvernight := None)
  }

  function BanOutcome(cutoff: string, p: Position): Outcome {
    Check(NoOvernight(cutoff, OVERNIGHT_REASON), p)
  }

  /** The ban is the last rule: it decides exactly when the others all keep quiet. It acts from its cutoff on; a cutoff that is not a
      time of day never acts. Whatever the others raise, the ban does not undo. */
  lemma BanActsFromItsCutoff(plan: Plan, reader: Reader, p: Position)
    ensures Normalized(Banned(plan), reader) == None <==> Normalized(Unbanned(plan), reader) == None
    ensures Normalized(Unbanned(plan), reader).Some? ==>
              var without, with := FirstOutcome(Normalized(Unbanned(plan), reader).value, p), FirstOutcome(Normalized(Banned(plan), reader).value, p);
              with == if without != Quiet then without else BanOutcome(plan.cutoff, p)
    ensures var minutes := HhmmToMinutes(Cutoff(plan.cutoff));
            BanOutcome(plan.cutoff, p).Fires? <==> minutes.Some? && p.minuteOfDay >= minutes.value
    ensures BanOutcome(plan.cutoff, p) != Raises
  {
    SameOtherRules(plan, reader);
    BanIsNeverRaised(plan.cutoff, p);
    if OtherRules(plan, reader).Some? {
      BanComesLast(OtherRules(plan, reader).value, plan.cutoff, p);
    }
  }

  lemma SameOtherRules(plan: Plan, reader: Reader)
    ensures OtherRules(Banned(plan), reader) == OtherRules(Unbanned(plan), reader) == OtherRules(plan, reader)
  {
  }

  lemma BanIsNeverRaised(cutoff: string, p: Position)
    ensures var minutes := HhmmToMinutes(Cutoff(cutoff)); BanOutcome(cutoff, p).Fires? <==> minutes.Some? && p.minuteOfDay >= minutes.value
    ensures BanOutcome(cutoff, p) != Raises
  {
  }

  lemma BanComesLast(others: seq<Rule>, cutoff: string, p: Position)
    ensures FirstOutcome(Deduped(others + OvernightRule(None, cutoff)), p) == FirstOutcome(others, p)
    ensures FirstOutcome(Deduped(others + OvernightRule(Some(false), cutoff)), p)
            == if FirstOutcome(others, p) != Quiet then FirstOutcome(others, p) else BanOutcome(cutoff, p)
  {
    assert others + OvernightRule(None, cutoff) == others;
    DedupeKeepsVerdict(others, p);
    DedupeKeepsVerdict(others + OvernightRule(Some(false), cutoff), p);
    LastResort(others, NoOvernight(cutoff, OVERNIGHT_REASON), p);
  }

  /** From 15:50 on a plan that forbids overnight never keeps quiet. It exits, unless a time exit with an impossible time stands
      ahead of every rule that fires: then the evaluation raises before the ban, which comes last, is reached. */
  lemma NoOvernightForcesAnExit(plan: Plan, reader: Reader, p: Position)
    requires plan.allowOvernight == Some(false) && plan.cutoff == DEFAULT_CUTOFF && p.minuteOfDay >= 950 && Normalized(plan, reader).Some?
    ensures var rules := Normalized(plan, reader).value;
            FirstOutcome(rules, p) != Quiet &&
            (FirstOutcome(rules, p).Fires? <==>
             exists i :: 0 <= i < |rules| && Check(rules[i], p).Fires? && forall k :: 0 <= k < i ==> !RaisingRule(rules[k], p.reader))
  {
    var rules := Normalized(plan, reader).value;
    CutoffIsTenToFour();
    BanActsFromItsCutoff(plan, reader, p);
    assert Banned(plan) == plan;
    FiresIff(rules, p);
    forall k | 0 <= k < |rules|
      ensures Check(rules[k], p) == Raises <==> RaisingRule(rules[k], p.reader)
    {
      RaisesIff(rules[k], p);
    }
  }

  predicate RaisingRule(r: Rule, reader: Reader) {
    r.TimeExit? && RaisingText(r.exitAt, reader)
  }

  /** Without such a text among its rules the plan exits at every time from 15:50 on. */
  lemma PlausibleTimesForceAnExit(plan: Plan, reader: Reader, p: Position)
    requires plan.allowOvernight == Some(false) && plan.cutoff == DEFAULT_CUTOFF && p.minuteOfDay >= 950 && Normalized(plan, reader).Some?
    requires forall r <- Normalized(plan, reader).value :: !RaisingRule(r, p.reader)
    ensures FirstOutcome(Normalized(plan, reader).value, p).Fires?
  {
    NoOvernightForcesAnExit(plan, reader, p);
    var rules := Normalized(plan, reader).value;
    var i := FirstOutcomeIsSome(rules, p);
    assert rules[i] in rules;
    RaisesIff(rules[i], p);
  }

  lemma OneTimedCondition(text: string, reader: Reader)
    requires Trim(text) == text != ""
    ensures ReadConditions([Timed(text, "", "")], reader) == Some([TimeExit(text, "")])
  {
    assert [Timed(text, "", "")][..0] == [] && [] + [TimeExit(text, "")] == [TimeExit(text, "")];
  }

  /** A time exit of "24:00" raises at every evaluation, and as a latest exit already when the rules are normalised. */
  lemma TwentyFourHundredRaises(reader: Reader, p: Position)
    requires reader.stamp("24:00").None? && p.reader.stamp("24:00").None?
    ensures var plan := Plan([Timed("24:00", "", "")], "", "", NoInvalidation, Some(false), DEFAULT_CUTOFF);
            Normalized(plan, reader).Some? && FirstOutcome(Normalized(plan, reader).value, p) == Raises
    ensures Normalized(Plan([], "24:00", "", NoInvalidation, Some(false), DEFAULT_CUTOFF), reader) == None
  {
    MidnightTwentyFour();
    assert Trim("24:00") == "24:00";
    var exit := TimeExit("24:00", "");
    var plan := Plan([Timed("24:00", "", "")], "", "", NoInvalidation, Some(false), DEFAULT_CUTOFF);
    OneTimedCondition("24:00", reader);
    assert LatestExit(plan) == "" && [exit] + [] == [exit];
    assert OtherRules(plan, reader) == Some([exit]);
    RaisesIff(exit, p);
    LastResort([exit], NoOvernight(DEFAULT_CUTOFF, OVERNIGHT_REASON), p);
    assert FirstOutcome([exit], p) == Raises;
    DedupeKeepsVerdict([exit] + OvernightRule(Some(false), DEFAULT_CUTOFF), p);
    NormalizingRaisesIff(Plan([], "24:00", "", NoInvalidation, Some(false), DEFAULT_CUTOFF), reader);
  }
}
