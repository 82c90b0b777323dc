/** The multi-node protocol of `auto_trade_scheduler.py`. */
module Scheduler {
  import opened Options

  const LOCK_TTL := 45

  // ----- The Redis lock -----

  datatype Lock = Free | Held(token: nat, expires: int)

  predicate Alive(lock: Lock, now: int) {
    lock.Held? && now < lock.expires
  }

  /** `SET key token NX EX 45`. */
  function SetNx(lock: Lock, token: nat, now: int): Lock {
    if Alive(lock, now) then lock else Held(token, now + LOCK_TTL)
  }

  /** The renew script: extends the lock only if the key still holds our token. */
  function Renewed(lock: Lock, token: nat, now: int): Lock {
    if Alive(lock, now) && lock.token == token then Held(token, now + LOCK_TTL) else lock
  }

  /** The release script: deletes the lock only if the key still holds our token. */
  function Released(lock: Lock, token: nat, now: int): Lock {
    if Alive(lock, now) && lock.token == token then Free else lock
  }

  // ----- Rows, slots and nodes -----

  /** One instance: whether it is active, when it is next due (None is at once), and how often its owner started or stopped it
      (a pause is neither). */
  datatype Row = Row(active: bool, due: Option<int>, edits: nat)

  /** One due run of one instance. */
  datatype Slot = Slot(id: nat, edits: nat, due: Option<int>)

  /** Where a node is in its tick. `touch` is when it last set or renewed the lock, `edits` the owner's edits it claimed over. */
  datatype Node =
    | Idle
    | Leading(token: nat, touch: int)
    | Batch(token: nat, touch: int, queue: seq<Slot>)
    | Cycle(token: nat, touch: int, queue: seq<Slot>, slot: Slot, sensed: int)
    | Claimed(token: nat, touch: int, queue: seq<Slot>, slot: Slot, next: int, edits: nat)
    | Cycled(token: nat, touch: int, queue: seq<Slot>)
    | Leaving(token: nat, touch: int)

  datatype State = State(now: int, lock: Lock, rows: map<nat, Row>, nodes: seq<Node>, nextToken: nat, runs: seq<Slot>)

  datatype Step =
    | Advance(dt: nat)
    | Acquire(n: nat)
    | List(n: nat, queue: seq<Slot>)
    | Begin(n: nat)
    | Claim(n: nat, next: int)
    | Finish(n: nat, rewrite: bool)
    | Renew(n: nat, reached: bool)
    | Leave(n: nat)
    | Release(n: nat, reached: bool)
    | Edit(id: nat, active: bool)
    | Pause(id: nat)

  predicate IsDue(row: Row, now: int) {
    row.active && (row.due.None? || row.due.value <= now)
  }

  function SlotOf(id: nat, row: Row): Slot {
    Slot(id, row.edits, row.due)
  }

  predicate DistinctIds(queue: seq<Slot>) {
    forall i, j :: 0 <= i < j < |queue| ==> queue[i].id != queue[j].id
  }

  /** A batch is a list of distinct instances that are due when it is read. */
  predicate IsListing(rows: map<nat, Row>, now: int, queue: seq<Slot>) {
    DistinctIds(queue) && forall s <- queue :: s.id in rows && IsDue(rows[s.id], now) && s == SlotOf(s.id, rows[s.id])
  }

  predicate Enabled(s: State, step: Step) {
    match step
    case Advance(_) => true
    case Acquire(n) => n < |s.nodes| && s.nodes[n].Idle?
    case List(n, queue) => n < |s.nodes| && s.nodes[n].Leading? && IsListing(s.rows, s.now, queue)
    case Begin(n) => n < |s.nodes| && s.nodes[n].Batch? && s.nodes[n].queue != []
    case Claim(n, next) => n < |s.nodes| && s.nodes[n].Cycle? && s.nodes[n].sensed < next && s.nodes[n].slot.id in s.rows
    case Finish(n, _) => n < |s.nodes| && s.nodes[n].Claimed? && s.nodes[n].slot.id in s.rows
    case Renew(n, _) => n < |s.nodes| && s.nodes[n].Cycled?
    case Leave(n) => n < |s.nodes| && (s.nodes[n].Leading? || (s.nodes[n].Batch? && s.nodes[n].queue == []))
    case Release(n, _) => n < |s.nodes| && s.nodes[n].Leaving?
    case Edit(id, _) => id in s.rows
    case Pause(id) => id in s.rows
  }

  function At(s: State, n: nat, node: Node): State
    requires n < |s.nodes|
  {
    s.(nodes := s.nodes[n := node])
  }

  function Apply(s: State, step: Step): State
    requires Enabled(s, step)
  {
    match step
    case Advance(dt) => s.(now := s.now + dt)
    case Acquire(n) =>
      if Alive(s.lock, s.now) then s
      else At(s, n, Leading(s.nextToken, s.now)).(lock := SetNx(s.lock, s.nextToken, s.now), nextToken := s.nextToken + 1)
    case List(n, queue) => At(s, n, Batch(s.nodes[n].token, s.nodes[n].touch, queue))
    case Begin(n) =>
      var Batch(token, touch, queue) := s.nodes[n];
      At(s, n, Cycle(token, touch, queue[1..], queue[0], s.now))
    case Claim(n, next) =>
      // The row is written before the scan, whatever it holds by then: the batch is not checked against it again.
      var Cycle(token, touch, queue, slot, _) := s.nodes[n];
      At(s, n, Claimed(token, touch, queue, slot, next, s.rows[slot.id].edits))
        .(rows := s.rows[slot.id := s.rows[slot.id].(due := Some(next))], runs := s.runs + [slot])
    case Finish(n, rewrite) =>
      // A cycle that ran to its end writes the claimed time once more; a skipped or failed one does not.
      var Claimed(token, touch, queue, slot, next, _) := s.nodes[n];
      var t := At(s, n, Cycled(token, touch, queue));
      if rewrite then t.(rows := s.rows[slot.id := s.rows[slot.id].(due := Some(next))]) else t
    case Renew(n, reached) =>
      // A Redis error is swallowed; a lapsed lock is not extended.
      var Cycled(token, touch, queue) := s.nodes[n];
      var renewed := reached && Alive(s.lock, s.now) && s.lock.token == token;
      At(s, n, Batch(token, if renewed then s.now else touch, queue)).(lock := if reached then Renewed(s.lock, token, s.now) else s.lock)
    case Leave(n) => At(s, n, Leaving(s.nodes[n].token, s.nodes[n].touch))
    case Release(n, reached) => At(s, n, Idle).(lock := if reached then Released(s.lock, s.nodes[n].token, s.now) else s.lock)
    case Edit(id, active) => s.(rows := s.rows[id := Row(active, None, s.rows[id].edits + 1)])
    case Pause(id) => s.(rows := s.rows[id := s.rows[id].(active := false)])
  }

  // ----- Runs -----

  predicate Initial(s: State) {
    s.lock == Free && s.runs == [] && forall n :: 0 <= n < |s.nodes| ==> s.nodes[n].Idle?
  }

  /** No node stays 45 seconds between setting or renewing the lock and its next renewal or release. */
  predicate Timely(s: State) {
    forall n :: 0 <= n < |s.nodes| && !s.nodes[n].Idle? ==> s.now < s.nodes[n].touch + LOCK_TTL
  }

  ghost predicate IsRun(states: seq<State>, steps: seq<Step>) {
    |states| == |steps| + 1 && Initial(states[0]) &&
    forall i {:trigger steps[i]} :: 0 <= i < |steps| ==> Enabled(states[i], steps[i]) && states[i + 1] == Apply(states[i], steps[i])
  }

  // ----- What every timely run keeps -----

  predicate AtMostOneLeader(s: State) {
    forall m, n :: 0 <= m < n < |s.nodes| ==> s.nodes[m].Idle? || s.nodes[n].Idle?
  }

  /** The one node in a tick owns the lock, as of its last touch. */
  predicate LockOwned(s: State) {
    forall n :: 0 <= n < |s.nodes| && !s.nodes[n].Idle? ==>
      s.lock == Held(s.nodes[n].token, s.nodes[n].touch + LOCK_TTL) && s.nodes[n].touch <= s.now
  }

  /** `r` is an earlier run than the row's present due time. */
  predicate Earlier(r: Slot, row: Row) {
    r.edits < row.edits ||
    (r.edits == row.edits && row.due.Some? && (r.due.None? || r.due.value < row.due.value))
  }

  predicate RunsPrecede(s: State) {
    forall r <- s.runs :: r.id in s.rows && Earlier(r, s.rows[r.id])
  }

  predicate NoDuplicates(runs: seq<Slot>) {
    forall i, j :: 0 <= i < j < |runs| ==> runs[i] != runs[j]
  }

  /** A listed slot is still what the row holds, unless the owner edited the row since. */
  predicate Current(slot: Slot, s: State) {
    slot.id in s.rows &&
    (slot.due.Some? ==> slot.due.value <= s.now) &&
    slot.edits <= s.rows[slot.id].edits &&
    s.rows[slot.id].due == (if slot.edits == s.rows[slot.id].edits then slot.due else None) &&
    slot !in s.runs
  }

  function Pending(node: Node): seq<Slot> {
    match node
    case Batch(_, _, queue) => queue
    case Cycle(_, _, queue, slot, _) => [slot] + queue
    case Claimed(_, _, queue, _, _, _) => queue
    case Cycled(_, _, queue) => queue
    case _ => []
  }

  predicate NodeOk(node: Node, s: State) {
    DistinctIds(Pending(node)) &&
    (forall slot <- Pending(node) :: Current(slot, s)) &&
    (node.Cycle? ==> node.sensed <= s.now && (node.slot.due.Some? ==> node.slot.due.value <= node.sensed)) &&
    (node.Claimed? ==>
      node.slot.id in s.rows && (forall slot <- node.queue :: slot.id != node.slot.id) &&
      s.rows[node.slot.id].due == (if node.edits == s.rows[node.slot.id].edits then Some(node.next) else None) &&
      node.edits <= s.rows[node.slot.id].edits)
  }

  predicate Inv(s: State) {
    AtMostOneLeader(s) && LockOwned(s) && RunsPrecede(s) && NoDuplicates(s.runs) &&
    forall n :: 0 <= n < |s.nodes| ==> NodeOk(s.nodes[n], s)
  }

  // ----- Preservation -----

  predicate Alone(s: State, n: nat) {
    forall m :: 0 <= m < |s.nodes| && m != n ==> s.nodes[m].Idle?
  }

  lemma InvFromOne(s: State, n: nat)
    requires n < |s.nodes| && Alone(s, n) && NodeOk(s.nodes[n], s) && RunsPrecede(s) && NoDuplicates(s.runs)
    requires !s.nodes[n].Idle? ==> s.lock == Held(s.nodes[n].token, s.nodes[n].touch + LOCK_TTL) && s.nodes[n].touch <= s.now
    ensures Inv(s)
  {
  }

  lemma AdvanceKeeps(s: State, dt: nat)
    requires Inv(s)
    ensures Inv(Apply(s, Advance(dt)))
  {
    var t := Apply(s, Advance(dt));
    forall n | 0 <= n < |s.nodes|
      ensures NodeOk(t.nodes[n], t)
    {
      assert NodeOk(s.nodes[n], s);
    }
  }

  /** While a node is inside a tick and on time, no other node gets the lock. */
  lemma AcquireKeeps(s: State, n: nat)
    requires Inv(s) && Timely(s) && Enabled(s, Acquire(n))
    ensures Inv(Apply(s, Acquire(n)))
  {
    if !Alive(s.lock, s.now) {
      forall m | 0 <= m < |s.nodes|
        ensures s.nodes[m].Idle?
      {
      }
      InvFromOne(Apply(s, Acquire(n)), n);
    }
  }

  lemma ListKeeps(s: State, n: nat, queue: seq<Slot>)
    requires Inv(s) && Enabled(s, List(n, queue))
    ensures Inv(Apply(s, List(n, queue)))
  {
    var t := Apply(s, List(n, queue));
    forall slot <- queue
      ensures Current(slot, t)
    {
      assert slot in s.runs ==> Earlier(slot, s.rows[slot.id]);
    }
    InvFromOne(t, n);
  }

  lemma BeginKeeps(s: State, n: nat)
    requires Inv(s) && Enabled(s, Begin(n))
    ensures Inv(Apply(s, Begin(n)))
  {
    var t := Apply(s, Begin(n));
    var queue := s.nodes[n].queue;
    assert NodeOk(s.nodes[n], s);
    assert [queue[0]] + queue[1..] == queue;
    assert Current(queue[0], s);
    InvFromOne(t, n);
  }

  lemma ClaimKeepsRuns(s: State, n: nat, next: int)
    requires Inv(s) && Enabled(s, Claim(n, next))
    ensures var t := Apply(s, Claim(n, next)); RunsPrecede(t) && NoDuplicates(t.runs)
  {
    var t := Apply(s, Claim(n, next));
    var slot := s.nodes[n].slot;
    assert NodeOk(s.nodes[n], s);
    assert Pending(s.nodes[n])[0] == slot;
    assert Current(slot, s);
    forall r <- t.runs
      ensures r.id in t.rows && Earlier(r, t.rows[r.id])
    {
      assert r != slot ==> Earlier(r, s.rows[r.id]);
    }
  }

  lemma ClaimKeepsNode(s: State, n: nat, next: int)
    requires Inv(s) && Enabled(s, Claim(n, next))
    ensures var t := Apply(s, Claim(n, next)); NodeOk(t.nodes[n], t)
  {
    var t := Apply(s, Claim(n, next));
    var slot, queue := s.nodes[n].slot, s.nodes[n].queue;
    assert NodeOk(s.nodes[n], s);
    var pending := Pending(s.nodes[n]);
    assert pending[0] == slot && Current(slot, s);
    forall i | 0 <= i < |queue|
      ensures queue[i].id != slot.id && Current(queue[i], t)
    {
      assert pending[i + 1] == queue[i];
      assert Current(pending[i + 1], s);
    }
    QueueDistinct(slot, queue);
  }

  lemma ClaimKeeps(s: State, n: nat, next: int)
    requires Inv(s) && Enabled(s, Claim(n, next))
    ensures Inv(Apply(s, Claim(n, next)))
  {
    ClaimKeepsRuns(s, n, next);
    ClaimKeepsNode(s, n, next);
    InvFromOne(Apply(s, Claim(n, next)), n);
  }

  lemma QueueDistinct(slot: Slot, queue: seq<Slot>)
    requires DistinctIds([slot] + queue)
    ensures DistinctIds(queue)
  {
    var all := [slot] + queue;
    forall i, j | 0 <= i < j < |queue|
      ensures queue[i].id != queue[j].id
    {
      assert all[i + 1] == queue[i] && all[j + 1] == queue[j];
    }
  }

  lemma FinishKeeps(s: State, n: nat, rewrite: bool)
    requires Inv(s) && Enabled(s, Finish(n, rewrite))
    ensures Inv(Apply(s, Finish(n, rewrite)))
  {
    var t := Apply(s, Finish(n, rewrite));
    assert NodeOk(s.nodes[n], s);
    forall r <- t.runs
      ensures r.id in t.rows && Earlier(r, t.rows[r.id])
    {
      assert Earlier(r, s.rows[r.id]);
    }
    forall slot <- s.nodes[n].queue
      ensures Current(slot, t)
    {
      assert Current(slot, s);
    }
    InvFromOne(t, n);
  }

  lemma LockStepKeeps(s: State, step: Step)
    requires Inv(s) && Timely(s) && Enabled(s, step) && (step.Renew? || step.Leave? || step.Release?)
    ensures Inv(Apply(s, step))
  {
    var t := Apply(s, step);
    assert NodeOk(s.nodes[step.n], s);
    InvFromOne(t, step.n);
  }

  lemma EditKeeps(s: State, id: nat, active: bool)
    requires Inv(s) && Enabled(s, Edit(id, active))
    ensures Inv(Apply(s, Edit(id, active)))
  {
    var t := Apply(s, Edit(id, active));
    forall r <- t.runs
      ensures r.id in t.rows && Earlier(r, t.rows[r.id])
    {
      assert Earlier(r, s.rows[r.id]);
    }
    forall n | 0 <= n < |s.nodes|
      ensures NodeOk(t.nodes[n], t)
    {
      assert NodeOk(s.nodes[n], s);
      forall slot <- Pending(t.nodes[n])
        ensures Current(slot, t)
      {
        assert Current(slot, s);
      }
    }
  }

  lemma PauseKeeps(s: State, id: nat)
    requires Inv(s) && Enabled(s, Pause(id))
    ensures Inv(Apply(s, Pause(id)))
  {
    var t := Apply(s, Pause(id));
    forall r <- t.runs
      ensures r.id in t.rows && Earlier(r, t.rows[r.id])
    {
      assert Earlier(r, s.rows[r.id]);
    }
    forall n | 0 <= n < |s.nodes|
      ensures NodeOk(t.nodes[n], t)
    {
      assert NodeOk(s.nodes[n], s);
      forall slot <- Pending(t.nodes[n])
        ensures Current(slot, t)
      {
        assert Current(slot, s);
      }
    }
  }

  lemma StepKeeps(s: State, step: Step)
    requires Inv(s) && Timely(s) && Enabled(s, step)
    ensures Inv(Apply(s, step))
  {
    match step
    case Advance(dt) => AdvanceKeeps(s, dt);
    case Acquire(n) => AcquireKeeps(s, n);
    case List(n, queue) => ListKeeps(s, n, queue);
    case Begin(n) => BeginKeeps(s, n);
    case Claim(n, next) => ClaimKeeps(s, n, next);
    case Finish(n, rewrite) => FinishKeeps(s, n, rewrite);
    case Edit(id, active) => EditKeeps(s, id, active);
    case Pause(id) => PauseKeeps(s, id);
    case _ => LockStepKeeps(s, step);
  }

  // ----- Safety over whole runs -----

  /** In every run whose nodes stay under the lock's lifetime, at every moment at most one node is inside a tick and owns
      the lock, and no due slot has been run twice. */
  lemma {:induction false} TimelyRunsAreSafe(states: seq<State>, steps: seq<Step>, k: nat)
    requires IsRun(states, steps) && k < |states|
    requires forall i :: 0 <= i < |steps| ==> Timely(states[i])
    ensures Inv(states[k])
    ensures AtMostOneLeader(states[k]) && NoDuplicates(states[k].runs)
  {
    if k > 0 {
      TimelyRunsAreSafe(states, steps, k - 1);
      assert states[k - 1 + 1] == Apply(states[k - 1], steps[k - 1]);
      StepKeeps(states[k - 1], steps[k - 1]);
    }
  }

  /** The timing bound is exact: beside a node inside a tick, another node's acquire succeeds exactly when the first has
      let the lock's lifetime pass. */
  lemma SecondLeaderIffOverrun(s: State, n: nat, m: nat)
    requires Inv(s) && n < |s.nodes| && m < |s.nodes| && !s.nodes[n].Idle? && s.nodes[m].Idle?
    ensures !Apply(s, Acquire(m)).nodes[m].Idle? <==> s.nodes[n].touch + 45 <= s.now
    ensures AtMostOneLeader(Apply(s, Acquire(m))) <==> s.now < s.nodes[n].touch + 45
  {
    var t := Apply(s, Acquire(m));
    assert t.nodes[n] == s.nodes[n];
  }

  // ----- The lock's scripts, without any timing assumption -----

  /** Every token was handed out once. */
  predicate TokensFresh(s: State) {
    (s.lock.Held? ==> s.lock.token < s.nextToken) &&
    (forall n :: 0 <= n < |s.nodes| && !s.nodes[n].Idle? ==> s.nodes[n].token < s.nextToken) &&
    (forall m, n :: 0 <= m < n < |s.nodes| && !s.nodes[m].Idle? && !s.nodes[n].Idle? ==> s.nodes[m].token != s.nodes[n].token)
  }

  lemma StepKeepsTokens(s: State, step: Step)
    requires TokensFresh(s) && Enabled(s, step)
    ensures TokensFresh(Apply(s, step))
  {
  }

  lemma {:induction false} TokensStayFresh(states: seq<State>, steps: seq<Step>, k: nat)
    requires IsRun(states, steps) && k < |states|
    ensures TokensFresh(states[k])
  {
    if k > 0 {
      TokensStayFresh(states, steps, k - 1);
      assert states[k - 1 + 1] == Apply(states[k - 1], steps[k - 1]);
      StepKeepsTokens(states[k - 1], steps[k - 1]);
    }
  }

  /** In every run, however slow its nodes, a renewal or release leaves the lock as it is unless it belongs to the very
      node that asks. */
  lemma OnlyTheOwnersLock(states: seq<State>, steps: seq<Step>, k: nat, m: nat)
    requires IsRun(states, steps) && k < |steps| && (steps[k].Renew? || steps[k].Release?)
    requires m < |states[k].nodes| && m != steps[k].n && !states[k].nodes[m].Idle?
    requires states[k].lock.Held? && states[k].lock.token == states[k].nodes[m].token
    ensures states[k + 1].lock == states[k].lock
  {
    TokensStayFresh(states, steps, k);
  }

  /** The node's own live lock is extended to 45 seconds from now, or freed; a lapsed or foreign one, and one that Redis does not reach,
      is left, and the node goes on all the same. */
  lemma LockScripts(s: State, n: nat, reached: bool)
    requires n < |s.nodes| && !s.nodes[n].Idle?
    ensures var own := reached && s.lock.Held? && s.lock.token == s.nodes[n].token && s.now < s.lock.expires;
            (Enabled(s, Renew(n, reached)) ==>
               var t := Apply(s, Renew(n, reached));
               t.lock == (if own then Held(s.nodes[n].token, s.now + 45) else s.lock) &&
               t.nodes == s.nodes[n := Batch(s.nodes[n].token, if own then s.now else s.nodes[n].touch, s.nodes[n].queue)]) &&
            (Enabled(s, Release(n, reached)) ==>
               var t := Apply(s, Release(n, reached)); t.lock == (if own then Free else s.lock) && t.nodes == s.nodes[n := Idle])
  {
  }

  /** An idle node enters a tick exactly when no lock is alive, with a token of its own and 45 seconds. */
  lemma AcquireIff(s: State, n: nat)
    requires Enabled(s, Acquire(n))
    ensures var t := Apply(s, Acquire(n));
            if s.lock.Held? && s.now < s.lock.expires then t == s
            else t.lock == Held(s.nextToken, s.now + 45) && t.nodes == s.nodes[n := Leading(s.nextToken, s.now)] && t.nextToken == s.nextToken + 1
  {
  }

  // ----- What the owner decides -----

  /** A batch holds distinct instances that their owner has started and that were never run since or whose time has come, each with the
      time and edits of its row. */
  lemma ListedAreDue(s: State, n: nat, queue: seq<Slot>)
    requires Enabled(s, List(n, queue))
    ensures forall i, j :: 0 <= i < j < |queue| ==> queue[i].id != queue[j].id
    ensures forall slot <- queue ::
              slot.id in s.rows && s.rows[slot.id].active && (s.rows[slot.id].due.None? || s.rows[slot.id].due.value <= s.now) &&
              slot.due == s.rows[slot.id].due && slot.edits == s.rows[slot.id].edits
    ensures Pending(Apply(s, List(n, queue)).nodes[n]) == queue
  {
  }

  /** Starting an instance makes it due at once, and every start or stop is a new edit; pausing it keeps its time. */
  lemma EditRestarts(s: State, id: nat, active: bool)
    requires Enabled(s, Edit(id, active))
    ensures var t := Apply(s, Edit(id, active));
            t.rows[id].active == active && t.rows[id].due == None && t.rows[id].edits == s.rows[id].edits + 1 &&
            t.nodes == s.nodes && t.lock == s.lock && t.runs == s.runs && forall i <- s.rows :: i != id ==> t.rows[i] == s.rows[i]
    ensures var t := Apply(s, Pause(id));
            !t.rows[id].active && t.rows[id].due == s.rows[id].due && t.rows[id].edits == s.rows[id].edits &&
            t.nodes == s.nodes && t.lock == s.lock && t.runs == s.runs && forall i <- s.rows :: i != id ==> t.rows[i] == s.rows[i]
  {
  }

  /** Stopped or paused. */
  predicate Stopped(s: State, id: nat) {
    id in s.rows && !s.rows[id].active
  }

  lemma StoppedStays(s: State, step: Step, id: nat)
    requires Stopped(s, id) && Enabled(s, step) && !(step.Edit? && step.id == id)
    ensures Stopped(Apply(s, step), id) && (step.List? ==> forall slot <- step.queue :: slot.id != id)
  {
  }

  /** Once stopped or paused, an instance is in no batch that is read before its owner acts on it again, whatever the nodes do and however slow
      they are. */
  lemma {:induction false} StoppedInstanceIsNotListed(states: seq<State>, steps: seq<Step>, i: nat, k: nat, id: nat)
    requires |states| == |steps| + 1 && i <= k <= |steps| && Stopped(states[i], id)
    requires forall j {:trigger steps[j]} :: i <= j < k ==>
               Enabled(states[j], steps[j]) && states[j + 1] == Apply(states[j], steps[j]) && !(steps[j].Edit? && steps[j].id == id)
    ensures Stopped(states[k], id)
    ensures forall j, slot | i <= j < k && steps[j].List? && slot in steps[j].queue :: slot.id != id
  {
    if i < k {
      StoppedInstanceIsNotListed(states, steps, i, k - 1, id);
      assert states[k - 1 + 1] == Apply(states[k - 1], steps[k - 1]);
      StoppedStays(states[k - 1], steps[k - 1], id);
    }
  }

  // ----- The claim, without any timing assumption -----

  predicate Holds(node: Node, id: nat) {
    exists slot <- Pending(node) :: slot.id == id
  }

  /** The instance is claimed until `until`: no node has it left in a batch, and no cycle still running will write an earlier time. */
  predicate Reserved(s: State, id: nat, until: int) {
    id in s.rows && s.rows[id].due.Some? && until <= s.rows[id].due.value &&
    forall n :: 0 <= n < |s.nodes| ==> !Holds(s.nodes[n], id) && (s.nodes[n].Claimed? && s.nodes[n].slot.id == id ==> until <= s.nodes[n].next)
  }

  lemma PendingShrinks(s: State, step: Step, n: nat, id: nat)
    requires Enabled(s, step) && !step.List? && n < |s.nodes| && !Holds(s.nodes[n], id)
    ensures !Holds(Apply(s, step).nodes[n], id)
  {
    var t := Apply(s, step);
    forall slot <- Pending(t.nodes[n])
      ensures slot in Pending(s.nodes[n])
    {
    }
  }

  lemma ReservationHolds(s: State, step: Step, id: nat, until: int)
    requires Reserved(s, id, until) && s.now < until && Enabled(s, step)
    requires !(step.Edit? && step.id == id)
    ensures Reserved(Apply(s, step), id, until)
    ensures step.List? ==> forall slot <- step.queue :: slot.id != id
  {
    var t := Apply(s, step);
    if step.Claim? {
      assert s.nodes[step.n].slot in Pending(s.nodes[step.n]);
    }
    forall n | 0 <= n < |t.nodes|
      ensures !Holds(t.nodes[n], id)
    {
      if !step.List? {
        PendingShrinks(s, step, n, id);
      }
    }
  }

  /** Steps `i` to `k` happen before `until` and none of them is the owner's on `id`. */
  ghost predicate Undisturbed(states: seq<State>, steps: seq<Step>, i: nat, k: nat, id: nat, until: int)
    requires i <= k <= |steps| && |states| == |steps| + 1
  {
    forall j {:trigger steps[j]} :: i <= j < k ==>
      Enabled(states[j], steps[j]) && states[j + 1] == Apply(states[j], steps[j]) && states[j].now < until && !(steps[j].Edit? && steps[j].id == id)
  }

  /** Once reserved, the instance appears in no batch until its claimed time, whatever the nodes do, unless its owner
      starts or stops it. */
  lemma {:induction false} ReservedInstanceIsNotListed(states: seq<State>, steps: seq<Step>, i: nat, k: nat, id: nat, until: int)
    requires |states| == |steps| + 1 && i <= k <= |steps| && Undisturbed(states, steps, i, k, id, until)
    requires Reserved(states[i], id, until)
    ensures Reserved(states[k], id, until)
    ensures forall j, slot | i <= j < k && steps[j].List? && slot in steps[j].queue :: slot.id != id
  {
    if i < k {
      assert Undisturbed(states, steps, i, k - 1, id, until) by {
        forall j {:trigger steps[j]} | i <= j < k - 1
          ensures Enabled(states[j], steps[j]) && states[j + 1] == Apply(states[j], steps[j]) && states[j].now < until && !(steps[j].Edit? && steps[j].id == id)
        {
        }
      }
      ReservedInstanceIsNotListed(states, steps, i, k - 1, id, until);
      var last := steps[k - 1];
      assert states[k - 1 + 1] == Apply(states[k - 1], last);
      ReservationHolds(states[k - 1], last, id, until);
    }
  }

  /** A claim reserves its instance exactly when no other node has it in a batch or is about to write an earlier time. */
  lemma ClaimReserves(s: State, n: nat, next: int)
    requires Enabled(s, Claim(n, next)) && DistinctIds(Pending(s.nodes[n]))
    ensures var id := s.nodes[n].slot.id;
            Reserved(Apply(s, Claim(n, next)), id, next) <==>
            forall m :: 0 <= m < |s.nodes| && m != n ==>
              !Holds(s.nodes[m], id) && (s.nodes[m].Claimed? && s.nodes[m].slot.id == id ==> next <= s.nodes[m].next)
  {
    var t := Apply(s, Claim(n, next));
    var slot, queue := s.nodes[n].slot, s.nodes[n].queue;
    forall i | 0 <= i < |queue|
      ensures queue[i].id != slot.id
    {
      var pending := Pending(s.nodes[n]);
      assert pending == [slot] + queue;
      assert pending[0].id != pending[i + 1].id;
    }
    assert forall m :: 0 <= m < |s.nodes| && m != n ==> t.nodes[m] == s.nodes[m];
  }

  /** The closing write of node `m` would make an instance claimed until `until` due again earlier. */
  predicate WritesBack(t: State, m: nat, id: nat, until: int) {
    m < |t.nodes| && t.nodes[m].Claimed? && t.nodes[m].slot.id == id && Enabled(t, Finish(m, true)) &&
    var due := Apply(t, Finish(m, true)).rows[id].due;
    due.Some? && due.value < until
  }

  predicate Exposes(t: State, m: nat, id: nat, until: int) {
    m < |t.nodes| && (Holds(t.nodes[m], id) || WritesBack(t, m, id, until))
  }

  /** A claim leaves its instance unreserved exactly when another node can act on it before its time: by its closing write, or
      from its own batch (`HolderRuns` in `SchedulerOverruns` says what that comes to). */
  lemma UnreservedIffExposed(s: State, n: nat, next: int)
    requires Enabled(s, Claim(n, next)) && DistinctIds(Pending(s.nodes[n]))
    ensures var t, id := Apply(s, Claim(n, next)), s.nodes[n].slot.id;
            !Reserved(t, id, next) <==> exists m :: m != n && Exposes(t, m, id, next)
  {
    var t, id := Apply(s, Claim(n, next)), s.nodes[n].slot.id;
    ClaimReserves(s, n, next);
    assert id in t.rows;
    forall m | 0 <= m < |s.nodes| && m != n
      ensures Exposes(t, m, id, next) <==> Holds(s.nodes[m], id) || (s.nodes[m].Claimed? && s.nodes[m].slot.id == id && s.nodes[m].next < next)
    {
      assert t.nodes[m] == s.nodes[m];
    }
  }

  /** On time, every claim reserves. */
  lemma TimelyClaimReserves(s: State, n: nat, next: int)
    requires Inv(s) && Enabled(s, Claim(n, next))
    ensures Reserved(Apply(s, Claim(n, next)), s.nodes[n].slot.id, next)
  {
    assert NodeOk(s.nodes[n], s);
    ClaimReserves(s, n, next);
  }
}
