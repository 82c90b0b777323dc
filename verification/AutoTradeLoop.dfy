/** Trading cycles and whole runs of them (`auto_trade_loop.py`). */
module AutoTradeLoop {
  import opened Options
  import opened Gregorian
  import opened SessionClock

  datatype Policy = RegularOnly | IncludeExtended
  datatype Preset = Conservative | Balanced | Aggressive
  datatype Status = Running | Completed | NoRun | Failed

  /** What the trading run did: it may place orders and still raise before they are counted. */
  datatype Outcome = Ran(placed: nat) | Absent | Raised(placed: nat)

  /** How far a call gets before an exception leaves it: to its end, or only up to the claim, the audit row, the run, the closing
      write of the audit row, or that of the instance. */
  datatype Ending = Complete | Unclaimed | NoAuditRow | NoRunYet | Unfinished | Uncounted

  /** The stored audit row of a cycle. `placed` is what the broker received, beside the orders the row reports; `written` is
      whether the instance's own row was written at its end. */
  datatype Cycle = Cycle(day: int, index: nat, live: bool, orders: nat, status: Status, placed: nat, written: bool)

  datatype Entry = Entry(index: nat, orders: nat, status: Status)

  datatype Row = Row(day: Option<int>, cyclesToday: nat, ordersToday: nat, nextRun: Option<int>, memory: seq<Entry>, cycles: seq<Cycle>)

  /** One call: the moment the environment is read, the later clock of the claim, and the settings and outcome of the cycle. */
  datatype Call = Call(
    moment: Moment, claimedAt: int, enabled: bool, policy: Policy, preset: Preset, useBroker: bool, interval: int,
    capital: real, pnl: Option<real>, outcome: Outcome, ending: Ending)

  predicate IsCall(c: Call) {
    IsMoment(c.moment) && Now(c.moment) <= c.claimedAt
  }

  function Today(c: Call): int {
    Ordinal(c.moment.date)
  }

  // ----- The cycle as a step on the row -----

  function OrderCap(p: Preset): (cap: nat)
    ensures 4 <= cap <= 16
  {
    match p case Conservative => 4 case Balanced => 8 case Aggressive => 16
  }

  /** The loss of the day, as a share of the capital, at which an instance stops ordering. */
  function LossLimit(p: Preset, capital: real): real {
    match p case Conservative => -0.06 * capital case Balanced => -0.10 * capital case Aggressive => -0.18 * capital
  }

  predicate AllowsRun(state: SessionState, policy: Policy) {
    if policy == IncludeExtended then state == Premarket || state == RegularOpen || state == AfterHours else state == RegularOpen
  }

  function Interval(minutes: int): (m: int)
    ensures m >= 1
  {
    if minutes == 0 then 5 else if minutes < 1 then 1 else minutes
  }

  function NextRun(c: Call, env: Environment): int {
    if env.state == RegularOpen then c.claimedAt + Interval(c.interval) * MINUTE else env.nextOpen
  }

  predicate LossHalt(c: Call) {
    c.capital > 0.0 && c.pnl.Some? && c.pnl.value <= LossLimit(c.preset, c.capital)
  }

  /** The claim: counters of an earlier day start again, and the next wake time is written before anything else. */
  function Claimed(r: Row, c: Call, env: Environment): Row {
    var newDay := r.day != Some(Today(c));
    r.(day := Some(Today(c)), cyclesToday := if newDay then 0 else r.cyclesToday,
       ordersToday := if newDay then 0 else r.ordersToday, nextRun := Some(NextRun(c, env)))
  }

  predicate Runs(c: Call, env: Environment) {
    c.enabled && AllowsRun(env.state, c.policy)
  }

  function Placed(o: Outcome): nat {
    if o.Absent? then 0 else o.placed
  }

  /** The audit row of a call that inserts one. */
  function CycleOf(r: Row, c: Call): Cycle {
    var live := c.useBroker && r.ordersToday < OrderCap(c.preset) && !LossHalt(c);
    var status := match c.outcome case Ran(_) => Completed case Absent => NoRun case Raised(_) => Failed;
    var orders := if c.outcome.Ran? then c.outcome.placed else 0;
    if c.ending == NoRunYet then Cycle(Today(c), r.cyclesToday + 1, live, 0, Running, 0, false)
    else if c.ending == Unfinished then Cycle(Today(c), r.cyclesToday + 1, live, 0, Running, Placed(c.outcome), false)
    else Cycle(Today(c), r.cyclesToday + 1, live, orders, status, Placed(c.outcome), c.ending == Complete)
  }

  function EntryOf(c: Cycle): Entry {
    Entry(c.index, c.orders, c.status)
  }

  function Last<T>(xs: seq<T>, keep: nat): seq<T> {
    if |xs| <= keep then xs else xs[|xs| - keep..]
  }

  /** A cycle that returned live orders and told the instance so. */
  predicate Counted(c: Cycle) {
    c.live && c.status == Completed && c.orders > 0 && c.written
  }

  function Recorded(r: Row, cycle: Cycle, keep: nat): Row {
    r.(cyclesToday := cycle.index, ordersToday := r.ordersToday + (if Counted(cycle) then 1 else 0),
       memory := Last(r.memory + [EntryOf(cycle)], keep), cycles := r.cycles + [cycle])
  }

  function After(r: Row, c: Call, env: Environment, keep: nat): Row {
    if c.ending == Unclaimed then r
    else
      var claimed := Claimed(r, c, env);
      var cycle := CycleOf(claimed, c);
      if !Runs(c, env) || c.ending == NoAuditRow then claimed
      else if cycle.written then Recorded(claimed, cycle, keep)
      else claimed.(cycles := claimed.cycles + [cycle])
  }

  /** What `MarketEnvironment` promises about the environment a cycle reads. */
  ghost predicate Sensed(env: Environment, moment: Moment) {
    IsNextOpen(Now(moment), env.nextOpen) && (env.state == RegularOpen <==> InSession(Now(moment)))
  }

  /** The wake time lies after the moment of the environment. It also lies after the later clock of the claim, except when the
      market was closed at that moment and has opened since. */
  lemma WakesLater(c: Call, env: Environment)
    requires IsCall(c) && IsNextOpen(Now(c.moment), env.nextOpen)
    ensures Now(c.moment) < NextRun(c, env)
    ensures c.claimedAt < NextRun(c, env) <==> env.state == RegularOpen || c.claimedAt < env.nextOpen
  {
  }

  // ----- One call, in figures -----

  /** The counters a call starts from: those of the row, or zero on a new day. */
  function Before(counter: nat, r: Row, c: Call): nat {
    if r.day == Some(Today(c)) then counter else 0
  }

  /** A call runs a cycle when trading is enabled and the session is regular, or extended for an instance that trades there too. */
  lemma RunsIff(c: Call, env: Environment)
    ensures Runs(c, env) <==>
            c.enabled && (env.state == RegularOpen || (c.policy == IncludeExtended && (env.state == Premarket || env.state == AfterHours)))
  {
  }

  /** The instance wakes after its interval in a regular session, five minutes unless another one is set and one at the least, and
      with the next open otherwise. */
  lemma WakesAt(r: Row, c: Call, env: Environment, keep: nat)
    requires c.ending != Unclaimed
    ensures var wake := After(r, c, env, keep).nextRun;
            if env.state != RegularOpen then wake == Some(env.nextOpen)
            else if c.interval >= 1 then wake == Some(c.claimedAt + c.interval * 60_000_000)
            else wake == Some(c.claimedAt + (if c.interval == 0 then 5 else 1) * 60_000_000)
  {
  }

  /** Orders go to the broker as long as it is on, the preset's share of order cycles is not used up, and the day's loss, where it is
      known and there is capital to lose, is smaller than the preset's share of it. */
  ghost predicate TradesLive(c: Call, orders: nat) {
    c.useBroker &&
    match c.preset
    case Conservative => orders < 4 && (c.pnl.None? || c.capital <= 0.0 || c.pnl.value > -(c.capital * 0.06))
    case Balanced => orders < 8 && (c.pnl.None? || c.capital <= 0.0 || c.pnl.value > -(c.capital * 0.10))
    case Aggressive => orders < 16 && (c.pnl.None? || c.capital <= 0.0 || c.pnl.value > -(c.capital * 0.18))
  }

  lemma LiveIff(r: Row, c: Call)
    ensures CycleOf(r, c).live <==> TradesLive(c, r.ordersToday)
  {
  }

  ghost predicate Reaches(c: Call, env: Environment) {
    Runs(c, env) && c.ending != Unclaimed && c.ending != NoAuditRow
  }

  /** The audit row a call inserts. */
  lemma AuditRow(r: Row, c: Call, env: Environment, keep: nat)
    requires Reaches(c, env)
    ensures var cycles := After(r, c, env, keep).cycles;
            |cycles| == |r.cycles| + 1 && cycles[..|r.cycles|] == r.cycles &&
            var cycle := cycles[|r.cycles|];
            cycle.day == Today(c) && cycle.index == Before(r.cyclesToday, r, c) + 1 &&
            (cycle.live <==> TradesLive(c, Before(r.ordersToday, r, c))) && (cycle.written <==> c.ending == Complete) &&
            cycle.placed == (if c.ending == NoRunYet || c.outcome.Absent? then 0 else c.outcome.placed) &&
            (if c.ending == NoRunYet || c.ending == Unfinished then cycle.status == Running && cycle.orders == 0
             else match c.outcome
                  case Ran(placed) => cycle.status == Completed && cycle.orders == placed
                  case Absent => cycle.status == NoRun && cycle.orders == 0
                  case Raised(_) => cycle.status == Failed && cycle.orders == 0)
  {
    LiveIff(Claimed(r, c, env), c);
  }

  /** A call that is told of its run adds one order cycle exactly when the run returned orders that went to the broker; every other call
      leaves the day's number of them. */
  lemma OrdersCountedIff(r: Row, c: Call, env: Environment, keep: nat)
    requires c.ending != Unclaimed
    ensures var before := Before(r.ordersToday, r, c);
            After(r, c, env, keep).ordersToday ==
            if Reaches(c, env) && c.ending == Complete && c.outcome.Ran? && c.outcome.placed > 0 && TradesLive(c, before) then before + 1 else before
  {
    LiveIff(Claimed(r, c, env), c);
  }

  /** A complete call remembers its cycle last, before it as many as the memory still holds; every other call leaves the memory. */
  lemma Remembered(r: Row, c: Call, env: Environment, keep: nat)
    requires Reaches(c, env) && keep >= 1 && |r.memory| <= keep
    ensures var memory := After(r, c, env, keep).memory;
            if c.ending != Complete then memory == r.memory
            else |memory| == (if |r.memory| < keep then |r.memory| + 1 else keep) &&
                 (forall k :: 0 <= k < |memory| - 1 ==> memory[k] == r.memory[|r.memory| - (|memory| - 1) + k]) &&
                 memory[|memory| - 1].index == Before(r.cyclesToday, r, c) + 1 &&
                 memory[|memory| - 1].orders == (if c.outcome.Ran? then c.outcome.placed else 0)
  {
  }

  /** On the same day, with the same books, a riskier preset sends to the broker whatever a more careful one does. */
  lemma RiskierPresetsTradeMore(c: Call, orders: nat)
    ensures TradesLive(c.(preset := Conservative), orders) ==> TradesLive(c.(preset := Balanced), orders)
    ensures TradesLive(c.(preset := Balanced), orders) ==> TradesLive(c.(preset := Aggressive), orders)
  {
  }

  /** Once the day's loss stops an instance it stays stopped at every greater loss and every later order cycle. */
  lemma HaltsStay(c: Call, orders: nat, more: nat, pnl: real)
    requires c.pnl.Some? && pnl <= c.pnl.value && orders <= more && !TradesLive(c, orders)
    ensures !TradesLive(c.(pnl := Some(pnl)), more)
  {
  }

  // ----- The program -----

  class AutoTradeInstance {
    const keep: nat
    var day: Option<int>
    var cyclesToday: nat
    var ordersToday: nat
    var nextRun: Option<int>
    var memory: seq<Entry>
    var cycles: seq<Cycle>

    constructor (keep: nat)
      requires keep >= 1
      ensures View() == Row(None, 0, 0, None, [], []) && this.keep == keep
    {
      this.keep := keep;
      day, cyclesToday, ordersToday, nextRun, memory, cycles := None, 0, 0, None, [], [];
    }

    ghost function View(): Row
      reads this
    {
      Row(day, cyclesToday, ordersToday, nextRun, memory, cycles)
    }

    /** The two writes of the store around the slow run: the claim before it, the results after it. An exception that leaves the
        call leaves the row as far as it has got. */
    method RunCycle(c: Call) returns (env: Environment, ran: bool, raised: bool)
      requires IsCall(c)
      modifies this
      ensures Sensed(env, c.moment) && (ran <==> c.ending != Unclaimed && c.ending != NoAuditRow && Runs(c, env))
      ensures raised <==> c.ending == Unclaimed || (Runs(c, env) && c.ending != Complete)
      ensures View() == After(old(View()), c, env, keep)
      ensures c.ending != Unclaimed ==>
                Now(c.moment) < View().nextRun.value &&
                (c.claimedAt < View().nextRun.value <==> env.state == RegularOpen || c.claimedAt < env.nextOpen)
      ensures ran ==>
                |cycles| == |old(cycles)| + 1 &&
                (cycles[|old(cycles)|].live <==> TradesLive(c, Before(old(ordersToday), old(View()), c)))
    {
      env := Sense(c.moment);
      WakesLater(c, env);
      if c.ending == Unclaimed {
        return env, false, true;
      }
      Claim(c, env);
      if !(c.enabled && AllowsRun(env.state, c.policy)) {
        return env, false, false;
      }
      if c.ending == NoAuditRow {
        return env, false, true;
      }
      ran := true;
      AuditRow(old(View()), c, env, keep);
      raised := Execute(c);
    }

    method Sense(moment: Moment) returns (env: Environment)
      requires IsMoment(moment)
      ensures Sensed(env, moment)
    {
      env := MarketEnvironment(moment);
    }

    method Claim(c: Call, env: Environment)
      modifies this
      ensures View() == Claimed(old(View()), c, env)
    {
      var today := Today(c);
      var cyclesNow, ordersNow := cyclesToday, ordersToday;
      if day != Some(today) {
        cyclesNow, ordersNow := 0, 0;
      }
      var wake := env.nextOpen;
      if env.state == RegularOpen {
        wake := c.claimedAt + Interval(c.interval) * MINUTE;
      }
      day, cyclesToday, ordersToday, nextRun := Some(today), cyclesNow, ordersNow, Some(wake);
    }

    /** The audit row is inserted, filled in by the run, finished, and last the instance's row is written. */
    method Execute(c: Call) returns (raised: bool)
      requires day == Some(Today(c)) && c.ending != Unclaimed && c.ending != NoAuditRow
      modifies this
      ensures raised <==> c.ending != Complete
      ensures |cycles| == |old(cycles)| + 1 && (cycles[|old(cycles)|].live <==> TradesLive(c, old(ordersToday)))
      ensures var before := old(View()); var cycle := CycleOf(before, c);
              View() == if cycle.written then Recorded(before, cycle, keep) else before.(cycles := before.cycles + [cycle])
    {
      LiveIff(View(), c);
      var capReached := ordersToday >= OrderCap(c.preset);
      var halted := LossHalt(c);
      var dryRun := !c.useBroker;
      var index := cyclesToday + 1;
      if capReached || halted {
        dryRun := true;
      }
      var row := Cycle(Today(c), index, !dryRun, 0, Running, 0, false);
      ghost var earlier := cycles;
      cycles := cycles + [row];
      if c.ending == NoRunYet {
        return true;
      }
      var orders, status, ordersNow := 0, NoRun, ordersToday;
      match c.outcome {
        case Ran(placed) =>
          orders, status := placed, Completed;
          if placed > 0 && !dryRun {
            ordersNow := ordersNow + 1;
          }
        case Absent =>
        case Raised(_) =>
          status := Failed;
      }
      row := row.(placed := Placed(c.outcome));
      cycles := cycles[|cycles| - 1 := row];
      assert cycles == earlier + [row];
      if c.ending == Unfinished {
        return true;
      }
      row := row.(orders := orders, status := status);
      cycles := cycles[|cycles| - 1 := row];
      assert cycles == earlier + [row];
      if c.ending == Uncounted {
        return true;
      }
      row := row.(written := true);
      cycles := cycles[|cycles| - 1 := row];
      assert cycles == earlier + [row];
      WriteInstance(row, ordersNow);
      raised := false;
    }

    method WriteInstance(cycle: Cycle, ordersNow: nat)
      modifies this
      ensures cycles == old(cycles) && memory == Last(old(memory) + [EntryOf(cycle)], keep)
      ensures day == old(day) && nextRun == old(nextRun) && cyclesToday == cycle.index && ordersToday == ordersNow
    {
      memory := memory + [EntryOf(cycle)];
      if |memory| > keep {
        memory := memory[|memory| - keep..];
      }
      cyclesToday, ordersToday := cycle.index, ordersNow;
    }
  }

  // ----- Whole runs -----

  datatype Tick = Tick(call: Call, env: Environment)

  const FreshRow := Row(None, 0, 0, None, [], [])

  function AfterAll(ticks: seq<Tick>, keep: nat): Row {
    if ticks == [] then FreshRow
    else
      var last := ticks[|ticks| - 1];
      After(AfterAll(ticks[..|ticks| - 1], keep), last.call, last.env, keep)
  }

  /** The audit rows of a day. */
  function CyclesOn(cycles: seq<Cycle>, day: int): nat {
    if cycles == [] then 0 else CyclesOn(cycles[..|cycles| - 1], day) + (if cycles[|cycles| - 1].day == day then 1 else 0)
  }

  /** Those whose cycle told the instance. */
  function WrittenOn(cycles: seq<Cycle>, day: int): nat {
    if cycles == [] then 0
    else WrittenOn(cycles[..|cycles| - 1], day) + (if cycles[|cycles| - 1].day == day && cycles[|cycles| - 1].written then 1 else 0)
  }

  /** Those that returned live orders and told the instance so. */
  function OrderCyclesOn(cycles: seq<Cycle>, day: int): nat {
    if cycles == [] then 0
    else OrderCyclesOn(cycles[..|cycles| - 1], day) + (if cycles[|cycles| - 1].day == day && Counted(cycles[|cycles| - 1]) then 1 else 0)
  }

  function Entries(cycles: seq<Cycle>): seq<Entry> {
    if cycles == [] then []
    else Entries(cycles[..|cycles| - 1]) + (if cycles[|cycles| - 1].written then [EntryOf(cycles[|cycles| - 1])] else [])
  }

  /** Cycle k is numbered by the written cycles of its day so far. */
  ghost predicate Numbered(cycles: seq<Cycle>) {
    forall k :: 0 <= k < |cycles| ==> cycles[k].index == WrittenOn(cycles[..k], cycles[k].day) + 1
  }

  ghost predicate NoneAfter(cycles: seq<Cycle>, day: int) {
    forall c <- cycles :: c.day <= day
  }

  ghost predicate WithinCap(cycles: seq<Cycle>, cap: nat) {
    forall day :: OrderCyclesOn(cycles, day) <= cap
  }

  /** The counters of the row are those of its day. */
  ghost predicate Tallied(r: Row) {
    (r.day.None? ==> r.cycles == [] && r.cyclesToday == 0 && r.ordersToday == 0) &&
    (r.day.Some? ==> NoneAfter(r.cycles, r.day.value) && r.cyclesToday == WrittenOn(r.cycles, r.day.value)
                     && r.ordersToday == OrderCyclesOn(r.cycles, r.day.value))
  }

  predicate Remembers(r: Row, keep: nat) {
    r.memory == Last(Entries(r.cycles), keep)
  }

  ghost predicate Inv(r: Row, cap: nat, keep: nat) {
    Tallied(r) && Numbered(r.cycles) && WithinCap(r.cycles, cap) && Remembers(r, keep)
  }

  lemma {:induction false} NothingYet(cycles: seq<Cycle>, day: int)
    requires forall c <- cycles :: c.day < day
    ensures WrittenOn(cycles, day) == 0 && OrderCyclesOn(cycles, day) == 0
  {
    if cycles != [] {
      NothingYet(cycles[..|cycles| - 1], day);
    }
  }

  lemma OneMore(cycles: seq<Cycle>, c: Cycle, day: int)
    ensures WrittenOn(cycles + [c], day) == WrittenOn(cycles, day) + (if c.day == day && c.written then 1 else 0)
    ensures OrderCyclesOn(cycles + [c], day) == OrderCyclesOn(cycles, day) + (if c.day == day && Counted(c) then 1 else 0)
    ensures Entries(cycles + [c]) == Entries(cycles) + (if c.written then [EntryOf(c)] else [])
  {
    assert (cycles + [c])[..|cycles|] == cycles;
  }

  lemma LastOfMore<T>(xs: seq<T>, x: T, keep: nat)
    requires keep >= 1
    ensures Last(Last(xs, keep) + [x], keep) == Last(xs + [x], keep)
  {
  }

  lemma NumberedOneMore(cycles: seq<Cycle>, c: Cycle)
    requires Numbered(cycles) && c.index == WrittenOn(cycles, c.day) + 1
    ensures Numbered(cycles + [c])
  {
    var more := cycles + [c];
    forall k | 0 <= k < |more|
      ensures more[k].index == WrittenOn(more[..k], more[k].day) + 1
    {
      assert more[..k] == cycles[..k];
      assert cycles[..|cycles|] == cycles;
    }
  }

  /** A day no earlier than the row's: the clock does not run back over midnight. */
  predicate InOrder(r: Row, c: Call) {
    r.day.Some? ==> r.day.value <= Today(c)
  }

  lemma ClaimTallies(r: Row, c: Call, env: Environment)
    requires Tallied(r) && InOrder(r, c)
    ensures Tallied(Claimed(r, c, env))
  {
    if r.day != Some(Today(c)) {
      NothingYet(r.cycles, Today(c));
    }
  }

  lemma ClaimKeepsInv(r: Row, c: Call, env: Environment, cap: nat, keep: nat)
    requires Inv(r, cap, keep) && InOrder(r, c)
    ensures Inv(Claimed(r, c, env), cap, keep)
  {
    ClaimTallies(r, c, env);
    assert Claimed(r, c, env).cycles == r.cycles && Claimed(r, c, env).memory == r.memory;
  }

  /** The row once a cycle is stored: counters and memory are written with it, or left. */
  function Stored(r: Row, cycle: Cycle, keep: nat): Row {
    if cycle.written then Recorded(r, cycle, keep) else r.(cycles := r.cycles + [cycle])
  }

  lemma StoreKeepsInv(r: Row, cycle: Cycle, cap: nat, keep: nat)
    requires Inv(r, cap, keep) && r.day == Some(cycle.day) && keep >= 1
    requires cycle.index == r.cyclesToday + 1 && (Counted(cycle) ==> r.ordersToday < cap)
    ensures Inv(Stored(r, cycle, keep), cap, keep)
  {
    StoreTallies(r, cycle, keep);
    NumberedOneMore(r.cycles, cycle);
    CapOneMore(r.cycles, cycle, cap);
    StoreRemembers(r, cycle, keep);
  }

  lemma StoreTallies(r: Row, cycle: Cycle, keep: nat)
    requires Tallied(r) && r.day == Some(cycle.day) && cycle.index == r.cyclesToday + 1
    ensures Tallied(Stored(r, cycle, keep))
  {
    OneMore(r.cycles, cycle, cycle.day);
  }

  lemma StoreRemembers(r: Row, cycle: Cycle, keep: nat)
    requires Remembers(r, keep) && keep >= 1
    ensures Remembers(Stored(r, cycle, keep), keep)
  {
    OneMore(r.cycles, cycle, 0);
    LastOfMore(Entries(r.cycles), EntryOf(cycle), keep);
  }

  lemma CapOneMore(cycles: seq<Cycle>, cycle: Cycle, cap: nat)
    requires WithinCap(cycles, cap) && (Counted(cycle) ==> OrderCyclesOn(cycles, cycle.day) < cap)
    ensures WithinCap(cycles + [cycle], cap)
  {
    forall day
      ensures OrderCyclesOn(cycles + [cycle], day) <= cap
    {
      OneMore(cycles, cycle, day);
      assert OrderCyclesOn(cycles, day) <= cap;
    }
  }

  /** Every call keeps the invariant, whatever its settings and outcome and wherever an exception leaves it. */
  lemma CycleKeepsInv(r: Row, c: Call, env: Environment, cap: nat, keep: nat)
    requires Inv(r, cap, keep) && InOrder(r, c) && OrderCap(c.preset) <= cap && keep >= 1
    ensures Inv(After(r, c, env, keep), cap, keep)
  {
    if c.ending != Unclaimed {
      ClaimKeepsInv(r, c, env, cap, keep);
      var claimed := Claimed(r, c, env);
      if Runs(c, env) && c.ending != NoAuditRow {
        CycleObeysCap(claimed, c);
        StoreKeepsInv(claimed, CycleOf(claimed, c), cap, keep);
        assert After(r, c, env, keep) == Stored(claimed, CycleOf(claimed, c), keep);
      }
    }
  }

  lemma CycleObeysCap(r: Row, c: Call)
    ensures var cycle := CycleOf(r, c);
            cycle.day == Today(c) && cycle.index == r.cyclesToday + 1 && (Counted(cycle) ==> r.ordersToday < OrderCap(c.preset))
  {
  }

  /** The ticks of one instance: days in order, and no preset with a larger cap. */
  ghost predicate IsRun(ticks: seq<Tick>, cap: nat) {
    (forall k :: 0 <= k < |ticks| ==> OrderCap(ticks[k].call.preset) <= cap) &&
    forall j, k :: 0 <= j < k < |ticks| ==> Today(ticks[j].call) <= Today(ticks[k].call)
  }

  lemma {:induction false} NoDayAhead(ticks: seq<Tick>, cap: nat, keep: nat, c: Call)
    requires IsRun(ticks, cap) && forall k :: 0 <= k < |ticks| ==> Today(ticks[k].call) <= Today(c)
    ensures InOrder(AfterAll(ticks, keep), c)
  {
    if ticks != [] {
      NoDayAhead(ticks[..|ticks| - 1], cap, keep, c);
    }
  }

  /** In every reachable row the day's counters are the counts of the cycles that were written, no day has more order cycles among
      them than the cap, cycles are numbered by them and the memory is their end. */
  lemma {:induction false} RunsKeepTheCap(ticks: seq<Tick>, cap: nat, keep: nat)
    requires IsRun(ticks, cap) && keep >= 1
    ensures Inv(AfterAll(ticks, keep), cap, keep)
  {
    if ticks != [] {
      var before, last := ticks[..|ticks| - 1], ticks[|ticks| - 1];
      RunsKeepTheCap(before, cap, keep);
      NoDayAhead(before, cap, keep, last.call);
      CycleKeepsInv(AfterAll(before, keep), last.call, last.env, cap, keep);
    }
  }

  /** The row's own counter obeys the cap as well. */
  lemma TodayIsWithinTheCap(ticks: seq<Tick>, cap: nat, keep: nat)
    requires IsRun(ticks, cap) && keep >= 1
    ensures AfterAll(ticks, keep).ordersToday <= cap && |AfterAll(ticks, keep).memory| <= keep
  {
    RunsKeepTheCap(ticks, cap, keep);
    var r := AfterAll(ticks, keep);
    if r.day.Some? {
      assert OrderCyclesOn(r.cycles, r.day.value) <= cap;
    }
  }

  ghost predicate WrittenBetween(cycles: seq<Cycle>, j: nat, k: nat, day: int)
    requires j <= k <= |cycles|
  {
    exists i :: j <= i < k && cycles[i].day == day && cycles[i].written
  }

  lemma {:induction false} WrittenOnPrefix(cycles: seq<Cycle>, j: nat, k: nat, day: int)
    requires j <= k <= |cycles|
    ensures WrittenOn(cycles[..j], day) <= WrittenOn(cycles[..k], day)
    ensures WrittenOn(cycles[..j], day) < WrittenOn(cycles[..k], day) <==> WrittenBetween(cycles, j, k, day)
  {
    if j < k {
      assert cycles[..k][..k - 1] == cycles[..k - 1];
      WrittenOnPrefix(cycles, j, k - 1, day);
    }
  }

  /** The numbers of a day never fall, and rise from one cycle to another exactly when one of them, or one between, was written. */
  lemma IndicesAreDistinct(cycles: seq<Cycle>, j: nat, k: nat)
    requires Numbered(cycles) && j < k < |cycles| && cycles[j].day == cycles[k].day
    ensures cycles[j].index <= cycles[k].index
    ensures cycles[j].index < cycles[k].index <==> WrittenBetween(cycles, j, k, cycles[j].day)
  {
    WrittenOnPrefix(cycles, j, k, cycles[j].day);
  }

  // ----- Exceptions -----

  /** The cycles of a day in which the broker received orders. */
  function BrokerCyclesOn(cycles: seq<Cycle>, day: int): nat {
    if cycles == [] then 0
    else BrokerCyclesOn(cycles[..|cycles| - 1], day) +
         (if cycles[|cycles| - 1].day == day && cycles[|cycles| - 1].live && cycles[|cycles| - 1].placed > 0 then 1 else 0)
  }

  /** A live cycle whose orders the instance was never told of: the run raised after placing them, or its end was not written. */
  predicate Escaped(c: Cycle) {
    c.live && c.placed > 0 && (c.status != Completed || !c.written)
  }

  function EscapedCyclesOn(cycles: seq<Cycle>, day: int): nat {
    if cycles == [] then 0
    else EscapedCyclesOn(cycles[..|cycles| - 1], day) + (if cycles[|cycles| - 1].day == day && Escaped(cycles[|cycles| - 1]) then 1 else 0)
  }

  /** What the outcome of a run leaves in its cycle. */
  predicate Reported(c: Cycle) {
    match c.status
    case Running => c.orders == 0 && !c.written
    case Completed => c.orders == c.placed
    case NoRun => c.orders == 0 && c.placed == 0
    case Failed => c.orders == 0
  }

  ghost predicate AllReported(cycles: seq<Cycle>) {
    forall c <- cycles :: Reported(c)
  }

  lemma {:induction false} RunsReport(ticks: seq<Tick>, keep: nat)
    ensures AllReported(AfterAll(ticks, keep).cycles)
  {
    if ticks != [] {
      var before, last := AfterAll(ticks[..|ticks| - 1], keep), ticks[|ticks| - 1];
      RunsReport(ticks[..|ticks| - 1], keep);
      var claimed := Claimed(before, last.call, last.env);
      assert Reported(CycleOf(claimed, last.call));
    }
  }

  lemma {:induction false} BrokerIsCountedOrEscaped(cycles: seq<Cycle>, day: int)
    requires AllReported(cycles)
    ensures BrokerCyclesOn(cycles, day) == OrderCyclesOn(cycles, day) + EscapedCyclesOn(cycles, day)
  {
    if cycles != [] {
      var last := cycles[|cycles| - 1];
      assert Reported(last);
      BrokerIsCountedOrEscaped(cycles[..|cycles| - 1], day);
    }
  }

  lemma {:induction false} NoneEscaped(cycles: seq<Cycle>, day: int)
    ensures EscapedCyclesOn(cycles, day) == 0 <==> forall c <- cycles :: !(c.day == day && Escaped(c))
  {
    if cycles != [] {
      var front, last := cycles[..|cycles| - 1], cycles[|cycles| - 1];
      NoneEscaped(front, day);
      assert cycles == front + [last];
    }
  }

  lemma {:induction false} AllWritten(cycles: seq<Cycle>, day: int)
    ensures WrittenOn(cycles, day) <= CyclesOn(cycles, day)
    ensures WrittenOn(cycles, day) == CyclesOn(cycles, day) <==> forall c <- cycles :: c.day == day ==> c.written
  {
    if cycles != [] {
      var front, last := cycles[..|cycles| - 1], cycles[|cycles| - 1];
      AllWritten(front, day);
      assert cycles == front + [last];
    }
  }

  /** In every reachable row the cycles that reached the broker on a day are those counted and those that escaped. So the count is
      what reached the broker exactly on the days when none escaped. */
  lemma QuietCyclesAreCounted(ticks: seq<Tick>, keep: nat, day: int)
    ensures var cycles := AfterAll(ticks, keep).cycles;
            BrokerCyclesOn(cycles, day) == OrderCyclesOn(cycles, day) + EscapedCyclesOn(cycles, day) &&
            (BrokerCyclesOn(cycles, day) == OrderCyclesOn(cycles, day) <==> forall c <- cycles :: !(c.day == day && Escaped(c)))
  {
    RunsReport(ticks, keep);
    BrokerIsCountedOrEscaped(AfterAll(ticks, keep).cycles, day);
    NoneEscaped(AfterAll(ticks, keep).cycles, day);
  }

  /** On its day the row agrees with what happened, in cycles and in orders, exactly when every cycle of the day was written at its
      end and none escaped. */
  lemma RowAgreesIff(ticks: seq<Tick>, cap: nat, keep: nat)
    requires IsRun(ticks, cap) && keep >= 1 && AfterAll(ticks, keep).day.Some?
    ensures var r := AfterAll(ticks, keep);
            r.cyclesToday == CyclesOn(r.cycles, r.day.value) && r.ordersToday == BrokerCyclesOn(r.cycles, r.day.value) <==>
            forall c <- r.cycles :: c.day == r.day.value ==> c.written && !Escaped(c)
  {
    var r := AfterAll(ticks, keep);
    RunsKeepTheCap(ticks, cap, keep);
    QuietCyclesAreCounted(ticks, keep, r.day.value);
    AllWritten(r.cycles, r.day.value);
  }

  /** Cycle k of a reachable row bears the number of audit rows of its day so far exactly when all those before it were written. */
  lemma NumberCountsIff(ticks: seq<Tick>, cap: nat, keep: nat, k: nat)
    requires IsRun(ticks, cap) && keep >= 1 && k < |AfterAll(ticks, keep).cycles|
    ensures var cycles := AfterAll(ticks, keep).cycles;
            cycles[k].index == CyclesOn(cycles[..k], cycles[k].day) + 1 <==>
            forall c <- cycles[..k] :: c.day == cycles[k].day ==> c.written
  {
    RunsKeepTheCap(ticks, cap, keep);
    var cycles := AfterAll(ticks, keep).cycles;
    AllWritten(cycles[..k], cycles[k].day);
  }

  /** Repeats of one call. */
  function Repeat(t: Tick, n: nat): seq<Tick> {
    seq(n, _ => t)
  }

  /** A call whose orders reach the broker and are never counted: the run raises after placing them, or the call before writing the
      instance. */
  predicate Loses(c: Call) {
    c.useBroker && !LossHalt(c) && Placed(c.outcome) > 0 &&
    ((c.outcome.Raised? && c.ending == Complete) || c.ending == Unfinished || c.ending == Uncounted)
  }

  /** n such calls of one day reach the broker n times. When it was the call that raised, all of them bear the number 1. */
  lemma {:induction false} ExceptionsEscapeTheCap(t: Tick, n: nat, keep: nat)
    requires Runs(t.call, t.env) && Loses(t.call)
    ensures var r := AfterAll(Repeat(t, n), keep);
            r.ordersToday == 0 && BrokerCyclesOn(r.cycles, Today(t.call)) == n && |r.cycles| == n &&
            (t.call.ending != Complete ==> r.cyclesToday == 0 && forall c <- r.cycles :: c.index == 1)
  {
    if n > 0 {
      assert Repeat(t, n)[..n - 1] == Repeat(t, n - 1);
      ExceptionsEscapeTheCap(t, n - 1, keep);
      EscapesOnce(AfterAll(Repeat(t, n - 1), keep), t.call, t.env, keep);
    }
  }

  lemma EscapesOnce(r: Row, c: Call, env: Environment, keep: nat)
    requires Runs(c, env) && Loses(c) && r.ordersToday == 0
    ensures var u := After(r, c, env, keep);
            u.ordersToday == 0 && BrokerCyclesOn(u.cycles, Today(c)) == BrokerCyclesOn(r.cycles, Today(c)) + 1 &&
            |u.cycles| == |r.cycles| + 1 &&
            (c.ending != Complete && r.cyclesToday == 0 ==>
               u.cyclesToday == 0 && forall x <- u.cycles :: x in r.cycles || x.index == 1)
  {
    var cycle := CycleOf(Claimed(r, c, env), c);
    assert (r.cycles + [cycle])[..|r.cycles|] == r.cycles;
    assert After(r, c, env, keep).cycles == r.cycles + [cycle];
  }
}
