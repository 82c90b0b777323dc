/** Runs in which a node lets the leader lock lapse (`auto_trade_scheduler.py`, `auto_trade_loop.py`). */
module SchedulerOverruns {
  import opened Options
  import opened Scheduler
  import opened SchedulerTick

  datatype Run = Run(states: seq<State>, steps: seq<Step>)

  ghost predicate Ends(r: Run, s: State) {
    IsRun(r.states, r.steps) && r.states[|r.steps|] == s
  }

  lemma Go(r: Run, s: State, step: Step) returns (next: Run)
    requires Ends(r, s) && Enabled(s, step)
    ensures Ends(next, Apply(s, step)) && next.steps == r.steps + [step] && next.states == r.states + [Apply(s, step)]
  {
    next := Run(r.states + [Apply(s, step)], r.steps + [step]);
  }

  function Nodes(now: int, lock: Lock, row: Row, a: Node, b: Node, c: Node, nextToken: nat, runs: seq<Slot>): State {
    State(now, lock, map[0 := row], [a, b, c], nextToken, runs)
  }

  const FIRST := Slot(0, 0, Some(0))
  const SECOND := Slot(0, 0, Some(60))

  lemma OneBatch() returns (r: Run)
    ensures Ends(r, Nodes(0, Held(0, 45), Row(true, Some(0), 0), Batch(0, 0, [FIRST]), Idle, Idle, 1, []))
  {
    var row := Row(true, Some(0), 0);
    var s := Nodes(0, Free, row, Idle, Idle, Idle, 0, []);
    r := Run([s], []);
    r := Go(r, s, Acquire(0));
    s := Nodes(0, Held(0, 45), row, Leading(0, 0), Idle, Idle, 1, []);
    r := Go(r, s, List(0, [FIRST]));
  }

  /** Node 0 lists the instance and is held up until its lock lapses; node 1 then lists it too. */
  lemma TwoBatches() returns (r: Run)
    ensures Ends(r, Nodes(45, Held(1, 90), Row(true, Some(0), 0), Batch(0, 0, [FIRST]), Batch(1, 45, [FIRST]), Idle, 2, []))
  {
    r := OneBatch();
    var row := Row(true, Some(0), 0);
    var s := Nodes(0, Held(0, 45), row, Batch(0, 0, [FIRST]), Idle, Idle, 1, []);
    r := Go(r, s, Advance(45));
    s := Nodes(45, Held(0, 45), row, Batch(0, 0, [FIRST]), Idle, Idle, 1, []);
    r := Go(r, s, Acquire(1));
    s := Nodes(45, Held(1, 90), row, Batch(0, 0, [FIRST]), Leading(1, 45), Idle, 2, []);
    r := Go(r, s, List(1, [FIRST]));
  }

  /** A node that has let the lock lapse goes on through its batch without looking at the rows again, and runs a slot
      that another node has claimed and run. */
  lemma LateBatchRunsASlotTwice() returns (r: Run)
    ensures IsRun(r.states, r.steps) && !NoDuplicates(r.states[|r.steps|].runs)
  {
    r := TwoBatches();
    var s := Nodes(45, Held(1, 90), Row(true, Some(0), 0), Batch(0, 0, [FIRST]), Batch(1, 45, [FIRST]), Idle, 2, []);
    assert [FIRST][1..] == [];
    r := Go(r, s, Begin(1));
    s := Nodes(45, Held(1, 90), Row(true, Some(0), 0), Batch(0, 0, [FIRST]), Cycle(1, 45, [], FIRST, 45), Idle, 2, []);
    r := Go(r, s, Claim(1, 300));
    s := Nodes(45, Held(1, 90), Row(true, Some(300), 0), Batch(0, 0, [FIRST]), Claimed(1, 45, [], FIRST, 300, 0), Idle, 2, [FIRST]);
    r := Go(r, s, Begin(0));
    s := Nodes(45, Held(1, 90), Row(true, Some(300), 0), Cycle(0, 0, [], FIRST, 45), Claimed(1, 45, [], FIRST, 300, 0), Idle, 2, [FIRST]);
    r := Go(r, s, Claim(0, 400));
    s := Apply(s, Claim(0, 400));
    assert s.runs[0] == s.runs[1];
  }

  lemma OneCycle() returns (r: Run)
    ensures Ends(r, Nodes(0, Held(0, 45), Row(true, Some(60), 0), Claimed(0, 0, [], FIRST, 60, 0), Idle, Idle, 1, [FIRST]))
  {
    r := OneBatch();
    var row := Row(true, Some(0), 0);
    var s := Nodes(0, Held(0, 45), row, Batch(0, 0, [FIRST]), Idle, Idle, 1, []);
    assert [FIRST][1..] == [];
    r := Go(r, s, Begin(0));
    s := Nodes(0, Held(0, 45), row, Cycle(0, 0, [], FIRST, 0), Idle, Idle, 1, []);
    r := Go(r, s, Claim(0, 60));
    assert [] + [FIRST] == [FIRST];
  }

  /** Node 0 claims the instance until 60 and is still at work when, its lock lapsed, node 1 lists it again at 60. */
  lemma TwoCycles() returns (r: Run)
    ensures Ends(r, Nodes(60, Held(1, 105), Row(true, Some(60), 0), Claimed(0, 0, [], FIRST, 60, 0), Cycle(1, 60, [], SECOND, 60), Idle, 2, [FIRST]))
  {
    r := OneCycle();
    var row := Row(true, Some(60), 0);
    var node0 := Claimed(0, 0, [], FIRST, 60, 0);
    var s := Nodes(0, Held(0, 45), row, node0, Idle, Idle, 1, [FIRST]);
    r := Go(r, s, Advance(60));
    s := Nodes(60, Held(0, 45), row, node0, Idle, Idle, 1, [FIRST]);
    r := Go(r, s, Acquire(1));
    s := Nodes(60, Held(1, 105), row, node0, Leading(1, 60), Idle, 2, [FIRST]);
    r := Go(r, s, List(1, [SECOND]));
    s := Nodes(60, Held(1, 105), row, node0, Batch(1, 60, [SECOND]), Idle, 2, [FIRST]);
    assert [SECOND][1..] == [];
    r := Go(r, s, Begin(1));
  }

  /** A cycle that ends late writes its own claimed time over a later claim: step `c` claims the instance until 120 and
      step `l` lists it again before that. */
  lemma LateFinishUndoesAClaim() returns (r: Run, c: nat, l: nat)
    ensures IsRun(r.states, r.steps) && c < l < |r.steps|
    ensures r.steps[c] == Claim(1, 120) && r.steps[l] == List(2, [SECOND]) && r.states[l].now < 120
  {
    r := TwoCycles();
    c := |r.steps|;
    var s := Nodes(60, Held(1, 105), Row(true, Some(60), 0), Claimed(0, 0, [], FIRST, 60, 0), Cycle(1, 60, [], SECOND, 60), Idle, 2, [FIRST]);
    r := Go(r, s, Claim(1, 120));
    var node1, runs := Claimed(1, 60, [], SECOND, 120, 0), [FIRST, SECOND];
    s := Nodes(60, Held(1, 105), Row(true, Some(120), 0), Claimed(0, 0, [], FIRST, 60, 0), node1, Idle, 2, runs);
    r := Go(r, s, Finish(0, true));
    s := Nodes(60, Held(1, 105), Row(true, Some(60), 0), Cycled(0, 0, []), node1, Idle, 2, runs);
    r := Go(r, s, Advance(45));
    s := Nodes(105, Held(1, 105), Row(true, Some(60), 0), Cycled(0, 0, []), node1, Idle, 2, runs);
    r := Go(r, s, Acquire(2));
    s := Nodes(105, Held(2, 150), Row(true, Some(60), 0), Cycled(0, 0, []), node1, Leading(2, 105), 3, runs);
    l := |r.steps|;
    r := Go(r, s, List(2, [SECOND]));
  }

  // ----- A batch outlives the claims of others -----

  /** Steps of a node from one run to the next, from the end of a cycle on. */
  function StepsBefore(node: Node): nat {
    4 * |Pending(node)| + (match node case Claimed(_, _, _, _, _, _) => 3 case Cycled(_, _, _) => 2 case Batch(_, _, _) => 1 case _ => 0)
  }

  ghost predicate RunsLater(t: State, u: State, id: nat) {
    |t.runs| <= |u.runs| && u.runs[..|t.runs|] == t.runs && exists slot <- u.runs[|t.runs|..] :: slot.id == id
  }

  ghost predicate NoTimePasses(steps: seq<Step>) {
    forall step <- steps :: !step.Advance? && !step.List?
  }

  /** The next step of a node with a batch in hand; it stores no due time but the one of its own next claim. */
  function NextStep(t: State, m: nat): Step
    requires m < |t.nodes|
  {
    match t.nodes[m]
    case Claimed(_, _, _, _, _, _) => Finish(m, false)
    case Cycled(_, _, _) => Renew(m, false)
    case Batch(_, _, _) => Begin(m)
    case Cycle(_, _, _, _, sensed) => Claim(m, sensed + 1)
    case _ => Leave(m)
  }

  ghost predicate Known(t: State, m: nat) {
    m < |t.nodes| && (forall slot <- Pending(t.nodes[m]) :: slot.id in t.rows) && (t.nodes[m].Claimed? ==> t.nodes[m].slot.id in t.rows)
  }

  ghost predicate Progress(t: State, u: State, m: nat, id: nat)
    requires m < |t.nodes|
  {
    Known(u, m) && t.runs <= u.runs && (Holds(u.nodes[m], id) ==> StepsBefore(u.nodes[m]) < StepsBefore(t.nodes[m])) &&
    (!Holds(u.nodes[m], id) ==> RunsLater(t, u, id))
  }

  lemma BeginProgresses(t: State, m: nat, id: nat)
    requires Known(t, m) && Holds(t.nodes[m], id) && t.nodes[m].Batch?
    ensures Enabled(t, Begin(m)) && Progress(t, Apply(t, Begin(m)), m, id)
  {
    var queue := t.nodes[m].queue;
    assert queue == [queue[0]] + queue[1..];
  }

  lemma ClaimProgresses(t: State, m: nat, id: nat)
    requires Known(t, m) && Holds(t.nodes[m], id) && t.nodes[m].Cycle?
    ensures var step := Claim(m, t.nodes[m].sensed + 1); Enabled(t, step) && Progress(t, Apply(t, step), m, id)
  {
    var slot, queue := t.nodes[m].slot, t.nodes[m].queue;
    var u := Apply(t, Claim(m, t.nodes[m].sensed + 1));
    assert Pending(u.nodes[m]) == queue && Pending(t.nodes[m]) == [slot] + queue;
    HeadOrTail(slot, queue);
    RunAdded(t, u, slot, id);
  }

  lemma HeadOrTail(slot: Slot, queue: seq<Slot>)
    ensures forall x :: x in [slot] + queue <==> x == slot || x in queue
  {
  }

  lemma RunAdded(t: State, u: State, slot: Slot, id: nat)
    requires u.runs == t.runs + [slot]
    ensures t.runs <= u.runs && (slot.id == id ==> RunsLater(t, u, id))
  {
    assert u.runs[|t.runs|..] == [slot];
  }

  lemma OneStep(t: State, m: nat, id: nat)
    requires Known(t, m) && Holds(t.nodes[m], id)
    ensures Enabled(t, NextStep(t, m)) && Progress(t, Apply(t, NextStep(t, m)), m, id)
  {
    if t.nodes[m].Batch? {
      BeginProgresses(t, m, id);
    } else if t.nodes[m].Cycle? {
      ClaimProgresses(t, m, id);
    }
  }

  /** A node that still has an instance in its batch runs it, at once if it is left to, whatever the row has come to hold: no
      list is read and no time passes. */
  lemma {:induction false} HolderRuns(t: State, m: nat, id: nat) returns (steps: seq<Step>, u: State)
    requires Known(t, m) && Holds(t.nodes[m], id)
    ensures Plays(t, steps, u) && NoTimePasses(steps) && RunsLater(t, u, id)
    decreases StepsBefore(t.nodes[m])
  {
    OneStep(t, m, id);
    var step := NextStep(t, m);
    var next := Apply(t, step);
    if Holds(next.nodes[m], id) {
      var rest;
      rest, u := HolderRuns(next, m, id);
      steps := [step] + rest;
      assert steps[1..] == rest;
      var early := |t.runs|;
      assert u.runs[..early] == u.runs[..|next.runs|][..early];
      assert forall slot <- u.runs[|next.runs|..] :: slot in u.runs[early..];
    } else {
      steps, u := [step], next;
      assert steps[1..] == [];
    }
  }
}
