/** Regular sessions, next open and next close (`market_calendar.py`), over Eastern wall-clock time in microseconds. A moment
    is a day and a time of that day; two moments of one zone compare as such pairs do. Sessions never overlap, so what lies
    next is decided by the first trading day that still has an open, or a close, ahead of the moment. */
module SessionClock {
  import opened Gregorian
  import opened TradingCalendar

  const MINUTE := 60_000_000
  const DAY := 1440 * MINUTE
  const MARKET_OPEN := 570 * MINUTE
  const MARKET_CLOSE := 960 * MINUTE
  const MARKET_EARLY_CLOSE := 780 * MINUTE

  /** A wall-clock moment: its day and the microseconds since midnight. */
  datatype Moment = Moment(date: Date, time: int)

  predicate IsMoment(m: Moment) {
    0 <= m.time < DAY
  }

  /** Same-zone datetimes compare as day first, then time of day. */
  function Instant(d: Date, time: int): int {
    Ordinal(d) * DAY + time
  }

  function Now(m: Moment): int {
    Instant(m.date, m.time)
  }

  // ----- Closing times -----

  function IndependenceEarlyClose(year: int): Date {
    PreviousTradingDay(AddDays(Observed(RawDate(year, 7, 4)), -1))
  }

  predicate ClosesEarly(d: Date) {
    IsTradingDay(d) &&
    (d == AddDays(NthWeekday(d.year, 11, THURSDAY, 4), 1) || d == IndependenceEarlyClose(d.year) || (d.month == 12 && d.day == 24))
  }

  function CloseTime(d: Date): (t: int)
    ensures MARKET_OPEN < t < DAY
  {
    if ClosesEarly(d) then MARKET_EARLY_CLOSE else MARKET_CLOSE
  }

  method NyseClosesEarly(day: Date) returns (early: bool)
    ensures early == ClosesEarly(day)
    ensures early <==> IsTradingDay(day) && (FollowsThanksgiving(day) || PrecedesIndependence(day) || (day.month == 12 && day.day == 24))
  {
    HalfDaysCloseEarly(day);
    var open, _ := IsNyseTradingDay(day);
    if !open {
      return false;
    }
    if day == AddDays(NthWeekday(day.year, 11, THURSDAY, 4), 1) {
      return true;
    }
    var independence := IndependenceDayEarlyClose(day.year);
    if day == independence {
      return true;
    }
    early := day.month == 12 && day.day == 24;
  }

  method IndependenceDayEarlyClose(year: int) returns (day: Date)
    ensures day == IndependenceEarlyClose(year)
  {
    var actual := RawDate(year, 7, 4);
    var observed := actual;
    if Weekday(actual) == SATURDAY {
      observed := Yesterday(actual);
    } else if Weekday(actual) == SUNDAY {
      observed := Tomorrow(actual);
    }
    day := PreviousNyseTradingDay(AddDays(observed, -1));
  }

  // ----- Session boundaries -----

  function OpenAt(d: Date, grace: int): int {
    Instant(d, MARKET_OPEN) + (if grace < 0 then 0 else grace) * MINUTE
  }

  function CloseAt(d: Date): int {
    Instant(d, CloseTime(d))
  }

  /** `t` is the least regular open strictly after `now`. */
  ghost predicate IsNextOpen(now: int, t: int) {
    now < t &&
    (exists d: Date :: IsTradingDay(d) && t == OpenAt(d, 0)) &&
    (forall d: Date :: IsTradingDay(d) && now < OpenAt(d, 0) ==> t <= OpenAt(d, 0))
  }

  /** `t` is the least regular close strictly after `now`. */
  ghost predicate IsNextClose(now: int, t: int) {
    now < t &&
    (exists d: Date :: IsTradingDay(d) && t == CloseAt(d)) &&
    (forall d: Date :: IsTradingDay(d) && now < CloseAt(d) ==> t <= CloseAt(d))
  }

  ghost predicate InSession(now: int) {
    exists d: Date :: IsTradingDay(d) && OpenAt(d, 0) <= now < CloseAt(d)
  }

  lemma DayBounds(d: Date, e: Date, time: int)
    requires Ordinal(d) < Ordinal(e) && 0 <= time <= DAY
    ensures Instant(d, time) <= Instant(e, 0)
  {
  }

  lemma SessionsDisjoint(d: Date, e: Date)
    requires Ordinal(d) < Ordinal(e)
    ensures OpenAt(d, 0) < CloseAt(d) < OpenAt(e, 0) < CloseAt(e)
  {
    DayBounds(d, e, CloseTime(d));
  }

  /** The next close precedes the next open exactly during a session. */
  lemma CloseFirstIffOpen(now: int, nextOpen: int, nextClose: int)
    requires IsNextOpen(now, nextOpen) && IsNextClose(now, nextClose)
    ensures nextClose < nextOpen <==> InSession(now)
    ensures nextClose != nextOpen
  {
    var opens: Date :| IsTradingDay(opens) && nextOpen == OpenAt(opens, 0);
    var closes: Date :| IsTradingDay(closes) && nextClose == CloseAt(closes);
    if Ordinal(opens) < Ordinal(closes) {
      SessionsDisjoint(opens, closes);
    } else if Ordinal(closes) < Ordinal(opens) {
      SessionsDisjoint(closes, opens);
    } else {
      OrdinalInjective(opens, closes);
    }
    if InSession(now) {
      var d: Date :| IsTradingDay(d) && OpenAt(d, 0) <= now < CloseAt(d);
      if Ordinal(opens) < Ordinal(d) {
        SessionsDisjoint(opens, d);
      } else if Ordinal(d) < Ordinal(opens) {
        SessionsDisjoint(d, opens);
      } else {
        OrdinalInjective(opens, d);
      }
    }
  }

  // ----- Half days, by the holidays around them -----

  ghost predicate FollowsThanksgiving(d: Date) {
    exists t: Date :: Celebrates(Thanksgiving, t) && Ordinal(d) == Ordinal(t) + 1
  }

  /** The last trading day before a day that is kept as Independence Day. */
  ghost predicate PrecedesIndependence(d: Date) {
    exists h: Date :: Celebrates(Independence, h) && IsLastBefore(d, h)
  }

  ghost predicate IsLastBefore(d: Date, h: Date) {
    IsTradingDay(d) && Ordinal(d) < Ordinal(h) &&
    forall x: Date {:trigger IsTradingDay(x)} :: IsTradingDay(x) && Ordinal(x) < Ordinal(h) ==> Ordinal(x) <= Ordinal(d)
  }

  lemma LastBeforeIff(d: Date, h: Date)
    ensures IsLastBefore(d, h) <==> d == PreviousTradingDay(AddDays(h, -1))
  {
    if IsLastBefore(d, h) {
      OrdinalInjective(d, PreviousTradingDay(AddDays(h, -1)));
    }
  }

  /** A half day is read off the calendar of holidays, without the year's dates. */
  ghost predicate HalfDay(d: Date) {
    IsTradingDay(d) && (FollowsThanksgiving(d) || PrecedesIndependence(d) || (d.month == 12 && d.day == 24))
  }

  lemma FollowsThanksgivingIff(d: Date)
    ensures FollowsThanksgiving(d) <==> d == AddDays(NthWeekday(d.year, 11, THURSDAY, 4), 1)
  {
    var t := NthWeekday(d.year, 11, THURSDAY, 4);
    TableMatchesRule(d.year, Thanksgiving, t);
    if FollowsThanksgiving(d) {
      var u: Date :| Celebrates(Thanksgiving, u) && Ordinal(d) == Ordinal(u) + 1;
      OrdinalInjective(d, RawDate(u.year, 11, u.day + 1));
      TableMatchesRule(d.year, Thanksgiving, u);
      OrdinalInjective(d, AddDays(t, 1));
    }
  }

  /** The days kept as Independence Day are July 3, 4 and 5, and no trading day before them lies as far back as June. */
  lemma BeforeIndependence(h: Date)
    requires Celebrates(Independence, h)
    ensures PreviousTradingDay(AddDays(h, -1)) == IndependenceEarlyClose(h.year) && IndependenceEarlyClose(h.year).year == h.year
  {
    TableMatchesRule(h.year, Independence, h);
    var d := PreviousTradingDay(AddDays(h, -1));
    OrdinalOrder(RawDate(h.year, 6, 1), d);
    OrdinalOrder(d, h);
    DaysInJune(h);
  }

  lemma DaysInJune(h: Date)
    requires h.month == 7
    ensures Ordinal(h) - Ordinal(RawDate(h.year, 6, 1)) == 29 + h.day
  {
  }

  lemma PrecedesIndependenceIff(d: Date)
    ensures PrecedesIndependence(d) <==> d == IndependenceEarlyClose(d.year)
  {
    if PrecedesIndependence(d) {
      var h: Date :| Celebrates(Independence, h) && IsLastBefore(d, h);
      BeforeIndependence(h);
      LastBeforeIff(d, h);
    }
    if d == IndependenceEarlyClose(d.year) {
      var h := TableDate(d.year, Independence);
      ObservedFixedDate(RawDate(d.year, 7, 4), h);
      TableMatchesRule(d.year, Independence, h);
      BeforeIndependence(h);
      LastBeforeIff(d, h);
    }
  }

  /** The program's three dates are exactly the half days. */
  lemma HalfDaysCloseEarly(d: Date)
    ensures ClosesEarly(d) <==> HalfDay(d)
  {
    FollowsThanksgivingIff(d);
    PrecedesIndependenceIff(d);
  }

  /** The close of a trading day in figures: minute 780 of a half day, and minute 960 of any other day. */
  ghost predicate ClosesAt(d: Date, t: int) {
    t == Ordinal(d) * 86_400_000_000 + (if HalfDay(d) then 780 else 960) * 60_000_000
  }

  lemma CloseInFigures(d: Date)
    ensures ClosesAt(d, CloseAt(d))
  {
    HalfDaysCloseEarly(d);
  }

  /** And its open: minute 570, put off by the grace. */
  ghost predicate OpensAt(d: Date, grace: int, t: int) {
    t == Ordinal(d) * 86_400_000_000 + (570 + (if grace <= 0 then 0 else grace)) * 60_000_000
  }

  ghost predicate SomeClose(t: int) {
    exists d: Date :: IsTradingDay(d) && ClosesAt(d, t)
  }

  ghost predicate SomeOpen(grace: int, t: int) {
    exists d: Date :: IsTradingDay(d) && OpensAt(d, grace, t)
  }

  lemma NextCloseInFigures(now: int, t: int)
    requires IsNextClose(now, t)
    ensures SomeClose(t)
  {
    var d: Date :| IsTradingDay(d) && t == CloseAt(d);
    CloseInFigures(d);
  }

  lemma NextOpenInFigures(from: Date, current: Moment, grace: int, t: int)
    requires IsNextOpenFrom(from, current, grace, t)
    ensures SomeOpen(grace, t)
  {
    var d: Date :| IsTradingDay(d) && Ordinal(from) <= Ordinal(d) && t == OpenAt(d, grace);
    assert OpensAt(d, grace, t);
  }

  // ----- The program -----

  /** `t` is the least open, grace included, strictly after `current` over the trading days from `from` on. */
  ghost predicate IsNextOpenFrom(from: Date, current: Moment, grace: int, t: int) {
    Now(current) < t &&
    (exists d: Date :: IsTradingDay(d) && Ordinal(from) <= Ordinal(d) && t == OpenAt(d, grace)) &&
    (forall d: Date :: IsTradingDay(d) && Ordinal(from) <= Ordinal(d) && Now(current) < OpenAt(d, grace) ==> t <= OpenAt(d, grace))
  }

  lemma LaterDayOpensLater(d: Date, e: Date, grace: int)
    requires Ordinal(d) <= Ordinal(e)
    ensures OpenAt(d, grace) <= OpenAt(e, grace)
  {
  }

  lemma OpensToday(current: Moment, grace: int)
    requires IsTradingDay(current.date) && Now(current) < OpenAt(current.date, grace)
    ensures IsNextOpenFrom(current.date, current, grace, OpenAt(current.date, grace))
  {
    forall d: Date | IsTradingDay(d) && Ordinal(current.date) <= Ordinal(d)
      ensures OpenAt(current.date, grace) <= OpenAt(d, grace)
    {
      LaterDayOpensLater(current.date, d, grace);
    }
  }

  lemma OpensAhead(current: Moment, day: Date, grace: int)
    requires IsMoment(current) && Ordinal(current.date) < Ordinal(day)
    ensures Now(current) < OpenAt(day, grace)
  {
    DayBounds(current.date, day, DAY);
  }

  lemma OpensLater(current: Moment, grace: int)
    requires IsMoment(current) && (!IsTradingDay(current.date) || OpenAt(current.date, grace) <= Now(current))
    ensures IsNextOpenFrom(current.date, current, grace, OpenAt(NextTradingDay(AddDays(current.date, 1)), grace))
  {
    var tomorrow := AddDays(current.date, 1);
    OpensAhead(current, NextTradingDay(tomorrow), grace);
    forall d: Date | IsTradingDay(d) && Ordinal(current.date) <= Ordinal(d) && Now(current) < OpenAt(d, grace)
      ensures OpenAt(NextTradingDay(tomorrow), grace) <= OpenAt(d, grace)
    {
      NotToday(current, d, grace);
      LaterDayOpensLater(NextTradingDay(tomorrow), d, grace);
    }
  }

  lemma NotToday(current: Moment, d: Date, grace: int)
    requires !IsTradingDay(current.date) || OpenAt(current.date, grace) <= Now(current)
    requires IsTradingDay(d) && Ordinal(current.date) <= Ordinal(d) && Now(current) < OpenAt(d, grace)
    ensures Ordinal(AddDays(current.date, 1)) <= Ordinal(d)
  {
    if Ordinal(d) == Ordinal(current.date) {
      OrdinalInjective(d, current.date);
    }
  }

  /** With a grace of at most 14.5 hours no earlier day's open is still ahead. */
  lemma EarlierOpensPassed(current: Moment, grace: int, t: int, d: Date)
    requires IsMoment(current) && grace <= 870 && IsNextOpenFrom(current.date, current, grace, t)
    requires IsTradingDay(d) && Now(current) < OpenAt(d, grace)
    ensures t <= OpenAt(d, grace)
  {
    if Ordinal(d) < Ordinal(current.date) {
      DayBounds(d, current.date, MARKET_OPEN + (if grace < 0 then 0 else grace) * MINUTE);
    }
  }

  lemma NextOpenWithoutGrace(current: Moment, grace: int, t: int)
    requires IsMoment(current) && grace <= 0 && IsNextOpenFrom(current.date, current, grace, t)
    ensures IsNextOpen(Now(current), t)
  {
    forall d: Date | IsTradingDay(d) && Now(current) < OpenAt(d, 0)
      ensures t <= OpenAt(d, 0)
    {
      assert OpenAt(d, grace) == OpenAt(d, 0);
      EarlierOpensPassed(current, grace, t, d);
    }
    var d: Date :| IsTradingDay(d) && t == OpenAt(d, grace);
    assert OpenAt(d, grace) == OpenAt(d, 0);
  }

  /** The least open over the days from today on; the least over all days when the grace leaves none of them behind. */
  method NextRegularOpenAfter(current: Moment, grace: int) returns (openAt: int)
    requires IsMoment(current)
    ensures IsNextOpenFrom(current.date, current, grace, openAt)
    ensures grace <= 870 ==> forall d: Date :: IsTradingDay(d) && Now(current) < OpenAt(d, grace) ==> openAt <= OpenAt(d, grace)
    ensures grace <= 0 ==> IsNextOpen(Now(current), openAt)
    ensures SomeOpen(grace, openAt)
  {
    var day := current.date;
    openAt := OpenAt(day, grace);
    var trading, _ := IsNyseTradingDay(day);
    if !trading || Now(current) >= openAt {
      day := NextNyseTradingDay(AddDays(day, 1));
      openAt := OpenAt(day, grace);
      OpensLater(current, grace);
    } else {
      OpensToday(current, grace);
    }
    if grace <= 870 {
      forall d: Date | IsTradingDay(d) && Now(current) < OpenAt(d, grace)
        ensures openAt <= OpenAt(d, grace)
      {
        EarlierOpensPassed(current, grace, openAt, d);
      }
    }
    if grace <= 0 {
      NextOpenWithoutGrace(current, grace, openAt);
    }
    NextOpenInFigures(current.date, current, grace, openAt);
  }

  ghost predicate ClosedBefore(current: Moment, day: Date) {
    forall d: Date :: IsTradingDay(d) && Ordinal(d) < Ordinal(day) ==> CloseAt(d) <= Now(current)
  }

  lemma ClosedBeforeToday(current: Moment)
    requires IsMoment(current)
    ensures ClosedBefore(current, current.date)
  {
    forall d: Date | IsTradingDay(d) && Ordinal(d) < Ordinal(current.date)
      ensures CloseAt(d) <= Now(current)
    {
      DayBounds(d, current.date, CloseTime(d));
    }
  }

  lemma ClosedThrough(current: Moment, day: Date, next: Date)
    requires ClosedBefore(current, day) && Ordinal(next) == Ordinal(day) + 1
    requires !(IsTradingDay(day) && Now(current) < CloseAt(day))
    ensures ClosedBefore(current, next)
  {
    forall d: Date | IsTradingDay(d) && Ordinal(d) < Ordinal(next)
      ensures CloseAt(d) <= Now(current)
    {
      if Ordinal(d) == Ordinal(day) {
        OrdinalInjective(d, day);
      }
    }
  }

  lemma FirstCloseAhead(current: Moment, day: Date)
    requires ClosedBefore(current, day) && IsTradingDay(day) && Now(current) < CloseAt(day)
    ensures IsNextClose(Now(current), CloseAt(day))
  {
    forall d: Date | IsTradingDay(d) && Now(current) < CloseAt(d)
      ensures CloseAt(day) <= CloseAt(d)
    {
      if Ordinal(day) < Ordinal(d) {
        SessionsDisjoint(day, d);
      } else {
        OrdinalInjective(day, d);
      }
    }
  }

  /** The search reaches a close by the next trading day at the latest. */
  lemma LastCandidateCloses(current: Moment, last: Date)
    requires IsMoment(current) && Ordinal(current.date) < Ordinal(last)
    ensures Now(current) < CloseAt(last)
  {
    DayBounds(current.date, last, DAY);
  }

  method NextRegularCloseAfter(current: Moment) returns (closeAt: int)
    requires IsMoment(current)
    ensures IsNextClose(Now(current), closeAt)
    ensures SomeClose(closeAt)
  {
    var day := current.date;
    ghost var last := NextTradingDay(Tomorrow(current.date));
    ClosedBeforeToday(current);
    LastCandidateCloses(current, last);
    while true
      invariant Ordinal(day) <= Ordinal(last)
      invariant ClosedBefore(current, day)
      decreases Ordinal(last) - Ordinal(day)
    {
      var trading, _ := IsNyseTradingDay(day);
      var early := NyseClosesEarly(day);
      closeAt := Instant(day, if early then MARKET_EARLY_CLOSE else MARKET_CLOSE);
      assert closeAt == CloseAt(day);
      if trading && closeAt > Now(current) {
        FirstCloseAhead(current, day);
        NextCloseInFigures(Now(current), closeAt);
        return;
      }
      if Ordinal(day) == Ordinal(last) {
        OrdinalInjective(day, last);
      }
      var next := AddDays(day, 1);
      ClosedThrough(current, day, next);
      day := next;
    }
  }

  // ----- The environment -----

  datatype SessionState = WeekendState | HolidayState | Premarket | RegularOpen | AfterHours

  datatype Environment = Environment(tradingDay: bool, isOpen: bool, state: SessionState, nextOpen: int, nextClose: int)

  /** Today's session: whether it is on, and the state of the day. */
  method TodaySession(current: Moment) returns (tradingDay: bool, isOpen: bool, state: SessionState, closeAt: int)
    requires IsMoment(current)
    ensures tradingDay == IsTradingDay(current.date) && isOpen == InSession(Now(current)) && closeAt == CloseAt(current.date)
    ensures isOpen ==> tradingDay && Now(current) < closeAt
    ensures state == RegularOpen <==> isOpen
    ensures state == WeekendState <==> Weekday(current.date) >= SATURDAY
    ensures state == HolidayState <==> !tradingDay && Weekday(current.date) < SATURDAY
    ensures state == Premarket <==> tradingDay && Now(current) < OpenAt(current.date, 0)
    ensures isOpen <==> InHours(current)
  {
    var reason;
    tradingDay, reason := IsNyseTradingDay(current.date);
    var openAt := OpenAt(current.date, 0);
    var early := NyseClosesEarly(current.date);
    closeAt := Instant(current.date, if early then MARKET_EARLY_CLOSE else MARKET_CLOSE);
    isOpen := tradingDay && openAt <= Now(current) < closeAt;
    state := CurrentState(current, tradingDay, openAt, closeAt, reason);
    SessionIsToday(current);
    SessionInFigures(current);
  }

  /** The next open and close are the least ones strictly ahead; the close comes first exactly when the session is open. */
  method MarketEnvironment(current: Moment) returns (env: Environment)
    requires IsMoment(current)
    ensures env.tradingDay == IsTradingDay(current.date)
    ensures IsNextOpen(Now(current), env.nextOpen) && IsNextClose(Now(current), env.nextClose)
    ensures SomeOpen(0, env.nextOpen) && SomeClose(env.nextClose)
    ensures env.isOpen == InSession(Now(current))
    ensures env.isOpen <==> InHours(current)
    ensures env.isOpen <==> env.state == RegularOpen
    ensures env.isOpen <==> env.nextClose < env.nextOpen
    ensures env.state == WeekendState <==> Weekday(current.date) >= SATURDAY
    ensures env.state == HolidayState <==> !env.tradingDay && Weekday(current.date) < SATURDAY
    ensures env.state == Premarket <==> env.tradingDay && env.nextOpen == OpenAt(current.date, 0)
  {
    var tradingDay, isOpen, state, closeAt := TodaySession(current);
    var nextOpen := NextRegularOpenAfter(current, 0);
    var nextClose := NextRegularCloseAfter(current);
    if isOpen {
      ClosedBeforeToday(current);
      FirstCloseAhead(current, current.date);
      nextClose := closeAt;
    }
    CloseFirstIffOpen(Now(current), nextOpen, nextClose);
    NextCloseInFigures(Now(current), nextClose);
    if tradingDay {
      PremarketOpen(current, nextOpen);
    }
    env := Environment(tradingDay, isOpen, state, nextOpen, nextClose);
  }

  function CurrentState(current: Moment, tradingDay: bool, openAt: int, closeAt: int, reason: Reason): SessionState {
    if !tradingDay then (if reason == Weekend then WeekendState else HolidayState)
    else if Now(current) < openAt then Premarket
    else if openAt <= Now(current) < closeAt then RegularOpen
    else AfterHours
  }

  lemma SessionIsToday(current: Moment)
    requires IsMoment(current)
    ensures InSession(Now(current)) <==>
            IsTradingDay(current.date) && OpenAt(current.date, 0) <= Now(current) < CloseAt(current.date)
  {
    if InSession(Now(current)) {
      var d: Date :| IsTradingDay(d) && OpenAt(d, 0) <= Now(current) < CloseAt(d);
      if Ordinal(d) < Ordinal(current.date) {
        DayBounds(d, current.date, CloseTime(d));
      } else if Ordinal(current.date) < Ordinal(d) {
        DayBounds(current.date, d, current.time);
      }
      OrdinalInjective(d, current.date);
    }
  }

  /** A session in figures: on a trading day from minute 570 to minute 960, or 780 of a half day. */
  ghost predicate InHours(current: Moment) {
    IsTradingDay(current.date) && 570 * 60_000_000 <= current.time < (if HalfDay(current.date) then 780 else 960) * 60_000_000
  }

  lemma SessionInFigures(current: Moment)
    requires IsMoment(current)
    ensures InSession(Now(current)) <==> InHours(current)
  {
    SessionIsToday(current);
    HalfDaysCloseEarly(current.date);
  }

  lemma PremarketOpen(current: Moment, nextOpen: int)
    requires IsMoment(current) && IsNextOpen(Now(current), nextOpen) && IsTradingDay(current.date)
    ensures nextOpen == OpenAt(current.date, 0) <==> Now(current) < OpenAt(current.date, 0)
  {
    var d: Date :| IsTradingDay(d) && nextOpen == OpenAt(d, 0);
    if Ordinal(d) < Ordinal(current.date) {
      DayBounds(d, current.date, MARKET_OPEN);
    } else {
      LaterDayOpensLater(current.date, d, 0);
    }
  }
}
