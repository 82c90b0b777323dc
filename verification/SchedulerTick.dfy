/** The due list (`auto_trade_store.py`) and one tick of a node as its own loop (`auto_trade_scheduler.py`). */
module SchedulerTick {
  import opened Options
  import opened Scheduler

  // ----- The due list -----

  ghost predicate DueOrder(rows: seq<Row>) {
    forall i, j :: 0 <= i < j < |rows| ==> rows[i].due.None? || (rows[j].due.Some? && rows[i].due.value <= rows[j].due.value)
  }

  /** Over the active rows in the order of the query (never run first, then by due time) the list is their longest due
      prefix up to the limit: reading no more than five times the limit never hides a due instance. */
  method ListDueInstances(rows: seq<Row>, limit: int, now: int) returns (due: seq<Row>)
    requires DueOrder(rows) && forall row <- rows :: row.active
    ensures |due| <= |rows| && due == rows[..|due|] && forall row <- due :: IsDue(row, now)
    ensures |due| < (if limit < 1 then 1 else limit) ==> forall i :: |due| <= i < |rows| ==> !IsDue(rows[i], now)
    ensures |due| <= if limit < 1 then 1 else limit
    ensures forall row <- due :: row.due.None? || row.due.value <= now
    ensures |due| < (if limit < 1 then 1 else limit) ==> forall i :: |due| <= i < |rows| ==> rows[i].due.Some? && rows[i].due.value > now
  {
    var quota := (if limit < 1 then 1 else limit) * 5;
    var fetched := rows[..if quota <= |rows| then quota else |rows|];
    due := [];
    for i := 0 to |fetched|
      invariant |due| <= i && due == rows[..|due|]
      invariant forall k :: 0 <= k < |due| ==> IsDue(rows[k], now)
      invariant |due| < i ==> !IsDue(rows[|due|], now)
      invariant |due| < (if limit < 1 then 1 else limit)
    {
      if fetched[i].due.None? || fetched[i].due.value <= now {
        assert IsDue(rows[|due|], now);
        due := due + [fetched[i]];
      }
      if |due| >= limit && limit >= 1 {
        break;
      }
      if limit < 1 {
        break;
      }
    }
  }

  // ----- One undisturbed tick -----

  predicate Plays(s: State, steps: seq<Step>, t: State)
    decreases |steps|
  {
    if steps == [] then s == t else Enabled(s, steps[0]) && Plays(Apply(s, steps[0]), steps[1..], t)
  }

  lemma {:induction false} PlaysOneMore(s: State, steps: seq<Step>, t: State, step: Step)
    requires Plays(s, steps, t) && Enabled(t, step)
    ensures Plays(s, steps + [step], Apply(t, step))
    decreases |steps|
  {
    if steps == [] {
      assert [step][1..] == [];
    } else {
      PlaysOneMore(Apply(s, steps[0]), steps[1..], t, step);
      assert (steps + [step])[1..] == steps[1..] + [step];
    }
  }

  function Renewals(steps: seq<Step>): nat {
    if steps == [] then 0 else Renewals(steps[..|steps| - 1]) + (if steps[|steps| - 1].Renew? then 1 else 0)
  }

  method Take(s: State, steps: seq<Step>, t: State, step: Step) returns (t': State, steps': seq<Step>)
    requires Plays(s, steps, t) && Enabled(t, step)
    ensures t' == Apply(t, step) && steps' == steps + [step] && Plays(s, steps', t')
    ensures Renewals(steps') == Renewals(steps) + if step.Renew? then 1 else 0
  {
    PlaysOneMore(s, steps, t, step);
    t', steps' := Apply(t, step), steps + [step];
  }

  /** How one cycle goes: how long after it begins its instance is due again, how long it takes, and whether it writes the row
      once more at its end, which a skipped or failed one does not. */
  datatype Pace = Pace(interval: nat, took: nat, rewrite: bool)

  /** The cycle claims a time ahead and is back before the lock lapses. */
  predicate OnTime(p: Pace) {
    p.interval >= 1 && p.took < LOCK_TTL
  }

  /** The clock after cycles of this pace. */
  function Clock(start: int, pace: seq<Pace>): int {
    if pace == [] then start else Clock(start, pace[..|pace| - 1]) + pace[|pace| - 1].took
  }

  /** When the instances are due again, each counted from the beginning of its own cycle. */
  function Dues(start: int, pace: seq<Pace>): (dues: seq<int>)
    ensures |dues| == |pace|
  {
    if pace == [] then []
    else Dues(start, pace[..|pace| - 1]) + [Clock(start, pace[..|pace| - 1]) + pace[|pace| - 1].interval]
  }

  /** `t` once node `n` has run the head of its batch at pace `p` and renewed the lock. */
  function AfterCycle(t: State, n: nat, p: Pace): State
    requires n < |t.nodes| && t.nodes[n].Batch? && t.nodes[n].queue != [] && t.nodes[n].queue[0].id in t.rows
  {
    var Batch(token, _, queue) := t.nodes[n];
    t.(now := t.now + p.took,
       rows := t.rows[queue[0].id := t.rows[queue[0].id].(due := Some(t.now + p.interval))],
       nodes := t.nodes[n := Batch(token, t.now + p.took, queue[1..])],
       lock := Held(token, t.now + p.took + LOCK_TTL),
       runs := t.runs + [queue[0]])
  }

  method ClaimHead(s: State, steps: seq<Step>, t: State, n: nat, next: int) returns (t': State, steps': seq<Step>)
    requires Plays(s, steps, t) && t.now < next
    requires n < |t.nodes| && t.nodes[n].Batch? && t.nodes[n].queue != [] && t.nodes[n].queue[0].id in t.rows
    ensures Plays(s, steps', t') && Renewals(steps') == Renewals(steps)
    ensures var Batch(token, touch, queue) := t.nodes[n];
            t' == t.(rows := t.rows[queue[0].id := t.rows[queue[0].id].(due := Some(next))],
                     nodes := t.nodes[n := Claimed(token, touch, queue[1..], queue[0], next, t.rows[queue[0].id].edits)],
                     runs := t.runs + [queue[0]])
  {
    t', steps' := Take(s, steps, t, Begin(n));
    t', steps' := Take(s, steps', t', Claim(n, next));
  }

  method RunCycle(s: State, steps: seq<Step>, t: State, n: nat, p: Pace) returns (t': State, steps': seq<Step>)
    requires Plays(s, steps, t) && OnTime(p)
    requires n < |t.nodes| && t.nodes[n].Batch? && t.nodes[n].queue != [] && t.nodes[n].queue[0].id in t.rows
    requires t.lock == Held(t.nodes[n].token, t.now + LOCK_TTL)
    ensures Plays(s, steps', t') && t' == AfterCycle(t, n, p) && Renewals(steps') == Renewals(steps) + 1
  {
    t', steps' := ClaimHead(s, steps, t, n, t.now + p.interval);
    t', steps' := Take(s, steps', t', Advance(p.took));
    ghost var rows := t'.rows;
    t', steps' := Take(s, steps', t', Finish(n, p.rewrite));
    assert t'.rows == rows;
    t', steps' := Take(s, steps', t', Renew(n, true));
    assert t'.nodes == AfterCycle(t, n, p).nodes;
  }

  /** The rows once every instance of the batch is claimed until its own time. */
  function ClaimAll(rows: map<nat, Row>, queue: seq<Slot>, dues: seq<int>): (r: map<nat, Row>)
    requires |dues| == |queue|
    ensures r.Keys == rows.Keys
  {
    if queue == [] then rows
    else
      var last := |queue| - 1;
      var r, id := ClaimAll(rows, queue[..last], dues[..last]), queue[last].id;
      if id in r then r[id := r[id].(due := Some(dues[last]))] else r
  }

  lemma {:induction false} OthersKeepTheirRow(rows: map<nat, Row>, queue: seq<Slot>, dues: seq<int>, id: nat)
    requires |dues| == |queue| && id in rows && forall slot <- queue :: slot.id != id
    ensures ClaimAll(rows, queue, dues)[id] == rows[id]
  {
    if queue != [] {
      OthersKeepTheirRow(rows, queue[..|queue| - 1], dues[..|queue| - 1], id);
    }
  }

  /** After a batch each listed instance has its own due time, and no other row has changed. */
  lemma {:induction false} ClaimAllRows(rows: map<nat, Row>, queue: seq<Slot>, dues: seq<int>, id: nat)
    requires |dues| == |queue| && id in rows && DistinctIds(queue)
    ensures forall k :: 0 <= k < |queue| && queue[k].id == id ==> ClaimAll(rows, queue, dues)[id] == rows[id].(due := Some(dues[k]))
    ensures (forall slot <- queue :: slot.id != id) ==> ClaimAll(rows, queue, dues)[id] == rows[id]
  {
    if queue != [] {
      var last := |queue| - 1;
      if queue[last].id == id {
        OthersKeepTheirRow(rows, queue[..last], dues[..last], id);
      } else {
        ClaimAllRows(rows, queue[..last], dues[..last], id);
        assert forall slot <- queue[..last] :: slot in queue;
      }
    }
  }

  /** `t0` once node `n` has run the first `i` instances of its batch. */
  function BatchAt(t0: State, n: nat, i: nat, pace: seq<Pace>): State
    requires n < |t0.nodes| && t0.nodes[n].Batch? && i <= |t0.nodes[n].queue| == |pace|
  {
    var Batch(token, _, queue) := t0.nodes[n];
    var now := Clock(t0.now, pace[..i]);
    t0.(now := now, rows := ClaimAll(t0.rows, queue[..i], Dues(t0.now, pace[..i])),
        nodes := t0.nodes[n := Batch(token, now, queue[i..])], lock := Held(token, now + LOCK_TTL), runs := t0.runs + queue[..i])
  }

  lemma PaceAdvances(start: int, pace: seq<Pace>, i: nat)
    requires i < |pace|
    ensures Clock(start, pace[..i + 1]) == Clock(start, pace[..i]) + pace[i].took
    ensures Dues(start, pace[..i + 1]) == Dues(start, pace[..i]) + [Clock(start, pace[..i]) + pace[i].interval]
  {
    assert pace[..i + 1][..i] == pace[..i];
  }

  lemma ClaimOneMore(rows: map<nat, Row>, queue: seq<Slot>, dues: seq<int>, slot: Slot, due: int)
    requires |dues| == |queue| && slot.id in rows
    ensures ClaimAll(rows, queue + [slot], dues + [due])
            == var r := ClaimAll(rows, queue, dues); r[slot.id := r[slot.id].(due := Some(due))]
  {
    assert (queue + [slot])[..|queue|] == queue && (dues + [due])[..|queue|] == dues;
  }

  lemma RowsAdvance(t0: State, queue: seq<Slot>, i: nat, pace: seq<Pace>)
    requires i < |queue| == |pace| && queue[i].id in t0.rows
    ensures var r := ClaimAll(t0.rows, queue[..i], Dues(t0.now, pace[..i]));
            ClaimAll(t0.rows, queue[..i + 1], Dues(t0.now, pace[..i + 1]))
            == r[queue[i].id := r[queue[i].id].(due := Some(Clock(t0.now, pace[..i]) + pace[i].interval))]
  {
    PaceAdvances(t0.now, pace, i);
    assert queue[..i + 1] == queue[..i] + [queue[i]];
    ClaimOneMore(t0.rows, queue[..i], Dues(t0.now, pace[..i]), queue[i], Clock(t0.now, pace[..i]) + pace[i].interval);
  }

  lemma BatchAdvances(t0: State, n: nat, i: nat, pace: seq<Pace>)
    requires n < |t0.nodes| && t0.nodes[n].Batch? && i < |t0.nodes[n].queue| == |pace| && t0.nodes[n].queue[i].id in t0.rows
    ensures BatchAt(t0, n, i, pace).nodes[n].queue[0] == t0.nodes[n].queue[i]
    ensures AfterCycle(BatchAt(t0, n, i, pace), n, pace[i]) == BatchAt(t0, n, i + 1, pace)
  {
    var queue := t0.nodes[n].queue;
    assert queue[i..][0] == queue[i] && queue[i..][1..] == queue[i + 1..];
    assert queue[..i + 1] == queue[..i] + [queue[i]];
    PaceAdvances(t0.now, pace, i);
    RowsAdvance(t0, queue, i, pace);
    assert AfterCycle(BatchAt(t0, n, i, pace), n, pace[i]).nodes == BatchAt(t0, n, i + 1, pace).nodes;
  }

  method RunBatch(s: State, steps: seq<Step>, t0: State, n: nat, pace: seq<Pace>) returns (t: State, steps': seq<Step>)
    requires Plays(s, steps, t0) && forall p <- pace :: OnTime(p)
    requires n < |t0.nodes| && t0.nodes[n].Batch? && t0.lock == Held(t0.nodes[n].token, t0.now + LOCK_TTL) && t0.nodes[n].touch == t0.now
    requires |pace| == |t0.nodes[n].queue| && forall slot <- t0.nodes[n].queue :: slot.id in t0.rows
    ensures Plays(s, steps', t) && Renewals(steps') == Renewals(steps) + |pace|
    ensures t == BatchAt(t0, n, |pace|, pace)
  {
    t, steps' := t0, steps;
    var queue := t0.nodes[n].queue;
    assert queue[0..] == queue && t0 == BatchAt(t0, n, 0, pace);
    for i := 0 to |queue|
      invariant Plays(s, steps', t) && Renewals(steps') == Renewals(steps) + i
      invariant t == BatchAt(t0, n, i, pace)
    {
      BatchAdvances(t0, n, i, pace);
      t, steps' := RunCycle(s, steps', t, n, pace[i]);
    }
  }

  method Lead(s: State, n: nat, queue: seq<Slot>) returns (t: State, steps: seq<Step>)
    requires Enabled(s, Acquire(n)) && IsListing(s.rows, s.now, queue) && !Alive(s.lock, s.now)
    ensures Plays(s, steps, t) && Renewals(steps) == 0
    ensures t == s.(nodes := s.nodes[n := Batch(s.nextToken, s.now, queue)], lock := Held(s.nextToken, s.now + LOCK_TTL), nextToken := s.nextToken + 1)
  {
    t, steps := Take(s, [], s, Acquire(n));
    t, steps := Take(s, steps, t, List(n, queue));
  }

  method GiveBack(s: State, steps: seq<Step>, t: State, n: nat) returns (t': State, steps': seq<Step>)
    requires Plays(s, steps, t) && n < |t.nodes| && t.nodes[n].Batch? && t.nodes[n].queue == []
    requires t.lock == Held(t.nodes[n].token, t.now + LOCK_TTL)
    ensures Plays(s, steps', t') && Renewals(steps') == Renewals(steps)
    ensures t' == t.(nodes := t.nodes[n := Idle], lock := Free)
  {
    t', steps' := Take(s, steps, t, Leave(n));
    t', steps' := Take(s, steps', t', Release(n, true));
    assert t'.nodes == t.nodes[n := Idle];
  }

  /** The tick as the node's own loop. An undisturbed leader whose cycles each end before the lock lapses, however long together,
      runs every listed instance once, in order, renews the lock after each, leaves each due at its own time whether its cycle
      ended well or not, and gives the lock back; a follower does nothing. */
  method Tick(s: State, n: nat, queue: seq<Slot>, pace: seq<Pace>) returns (t: State, steps: seq<Step>)
    requires Enabled(s, Acquire(n)) && IsListing(s.rows, s.now, queue) && |pace| == |queue| && forall p <- pace :: OnTime(p)
    ensures Plays(s, steps, t)
    ensures Alive(s.lock, s.now) ==> t == s
    ensures !Alive(s.lock, s.now) ==>
              Renewals(steps) == |queue| &&
              t == s.(now := Clock(s.now, pace), rows := ClaimAll(s.rows, queue, Dues(s.now, pace)),
                      lock := Free, nextToken := s.nextToken + 1, runs := s.runs + queue)
  {
    if Alive(s.lock, s.now) {
      t, steps := Take(s, [], s, Acquire(n));
      return;
    }
    t, steps := Lead(s, n, queue);
    ghost var led := t;
    t, steps := RunBatch(s, steps, t, n, pace);
    BatchEnds(led, n, queue, pace);
    t, steps := GiveBack(s, steps, t, n);
    assert t.nodes == s.nodes;
  }

  lemma BatchEnds(t0: State, n: nat, queue: seq<Slot>, pace: seq<Pace>)
    requires n < |t0.nodes| && t0.nodes[n].Batch? && t0.nodes[n].queue == queue && |pace| == |queue|
    ensures var Batch(token, _, _) := t0.nodes[n]; var now := Clock(t0.now, pace);
            BatchAt(t0, n, |pace|, pace)
            == t0.(now := now, rows := ClaimAll(t0.rows, queue, Dues(t0.now, pace)), nodes := t0.nodes[n := Batch(token, now, [])],
                   lock := Held(token, now + LOCK_TTL), runs := t0.runs + queue)
  {
    assert queue[..|queue|] == queue && queue[|queue|..] == [] && pace[..|pace|] == pace;
  }
}
