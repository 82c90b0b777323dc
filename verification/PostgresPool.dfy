/** The Postgres connection pool and the threads that use it (`db.py`). */
module PostgresPool {
  /** The queue of idle connections, last in first out, and the counter of connections the pool believes it has. */
  datatype Pool = Pool(idle: seq<nat>, created: int, size: nat)

  // ----- The atomic sections -----

  function Popped(p: Pool): Pool
    requires p.idle != []
  {
    p.(idle := p.idle[..|p.idle| - 1])
  }

  function Reserved(p: Pool): Pool {
    p.(created := p.created + 1)
  }

  function Returned(p: Pool, c: nat): Pool {
    p.(idle := p.idle + [c])
  }

  function Marked(p: Pool): Pool {
    p.(created := if p.created - 1 < 0 then 0 else p.created - 1)
  }

  class ConnectionPool {
    const size: nat
    var idle: seq<nat>
    var created: int

    constructor (size: nat)
      ensures View() == Pool([], 0, size)
    {
      this.size := size;
      idle, created := [], 0;
    }

    ghost function View(): Pool
      reads this
    {
      Pool(idle, created, size)
    }

    /** `get_nowait`: the connection put last, or nothing. */
    method GetNowait() returns (found: bool, c: nat)
      modifies this
      ensures found == (old(idle) != [])
      ensures if found then c == old(idle)[|old(idle)| - 1] && View() == Popped(old(View())) else View() == old(View())
      ensures created == old(created) && old(idle) == if found then idle + [c] else idle
    {
      found, c := idle != [], 0;
      if found {
        c := idle[|idle| - 1];
        idle := idle[..|idle| - 1];
      }
    }

    /** Under the pool lock: take a slot for a new connection if there is one. */
    method Reserve() returns (ok: bool)
      modifies this
      ensures ok == (old(created) < size) && View() == if ok then Reserved(old(View())) else old(View())
      ensures idle == old(idle) && created == old(created) + if ok then 1 else 0
    {
      ok := created < size;
      if ok {
        created := created + 1;
      }
    }

    /** `put_nowait`: fails when the queue holds `size` connections. */
    method PutNowait(c: nat) returns (ok: bool)
      modifies this
      ensures ok == (|old(idle)| < size) && View() == if ok then Returned(old(View()), c) else old(View())
      ensures created == old(created) && idle == if ok then old(idle) + [c] else old(idle)
    {
      ok := |idle| < size;
      if ok {
        idle := idle + [c];
      }
    }

    method MarkClosed()
      modifies this
      ensures View() == Marked(old(View()))
      ensures idle == old(idle) && (old(created) >= 1 ==> created == old(created) - 1) && (old(created) < 1 ==> created == 0)
    {
      created := if created - 1 < 0 then 0 else created - 1;
    }
  }

  // ----- Threads -----

  /** Where a thread is between two atomic sections. */
  datatype Thread =
    | Outside
    | Asking
    | Discarding(c: nat, again: bool)  // popped a dead connection; asks again, or goes on to create one
    | Deciding
    | Waiting
    | Using(c: nat)
    | Closing(c: nat)                  // closed after a failed commit or a full queue, not yet marked

  datatype State = State(pool: Pool, threads: seq<Thread>, dead: set<nat>, next: nat, leaked: nat)

  datatype Step =
    | Enter(i: nat)
    | TryPop(i: nat)
    | Mark(i: nat)
    | Create(i: nat, connects: bool)
    | Wait(i: nat)
    | Timeout(i: nat)
    | Exit(i: nat, commits: bool)
    | Die(c: nat)

  predicate Enabled(s: State, step: Step) {
    match step
    case Enter(i) => i < |s.threads| && s.threads[i].Outside?
    case TryPop(i) => i < |s.threads| && (s.threads[i].Asking? || (s.threads[i].Waiting? && s.pool.idle != []))
    case Mark(i) => i < |s.threads| && (s.threads[i].Discarding? || s.threads[i].Closing?)
    case Create(i, _) => i < |s.threads| && s.threads[i].Deciding? && s.pool.created < s.pool.size
    case Wait(i) => i < |s.threads| && s.threads[i].Deciding? && s.pool.created >= s.pool.size
    case Timeout(i) => i < |s.threads| && s.threads[i].Waiting?
    case Exit(i, _) => i < |s.threads| && s.threads[i].Using?
    case Die(c) => true
  }

  function Go(s: State, i: nat, t: Thread): State
    requires i < |s.threads|
  {
    s.(threads := s.threads[i := t])
  }

  function Pop(s: State, i: nat): State
    requires i < |s.threads| && s.pool.idle != []
  {
    var c := s.pool.idle[|s.pool.idle| - 1];
    Go(s, i, if c in s.dead then Discarding(c, s.threads[i].Waiting?) else Using(c)).(pool := Popped(s.pool))
  }

  function Apply(s: State, step: Step): State
    requires Enabled(s, step)
  {
    match step
    case Enter(i) => Go(s, i, Asking)
    case TryPop(i) => if s.pool.idle == [] then Go(s, i, Deciding) else Pop(s, i)
    case Mark(i) =>
      var next := if s.threads[i].Closing? then Outside else if s.threads[i].again then Asking else Deciding;
      Go(s, i, next).(pool := Marked(s.pool))
    case Create(i, connects) =>
      // The counter is raised before the connection is opened, and nothing lowers it again when opening fails.
      if connects then Go(s, i, Using(s.next)).(pool := Reserved(s.pool), next := s.next + 1)
      else Go(s, i, Outside).(pool := Reserved(s.pool), leaked := s.leaked + 1)
    case Wait(i) => Go(s, i, Waiting)
    case Timeout(i) => Go(s, i, Outside)
    case Exit(i, commits) =>
      var c := s.threads[i].c;
      if !commits || |s.pool.idle| >= s.pool.size then Go(s, i, Closing(c)).(dead := s.dead + {c})
      else Go(s, i, Outside).(pool := Returned(s.pool, c))
    case Die(c) => s.(dead := s.dead + {c})
  }

  // ----- What every interleaving keeps -----

  predicate Holds(t: Thread) {
    t.Discarding? || t.Using? || t.Closing?
  }

  function Held(threads: seq<Thread>): nat {
    if threads == [] then 0 else Held(threads[1..]) + (if Holds(threads[0]) then 1 else 0)
  }

  ghost predicate Distinct(idle: seq<nat>) {
    forall i, j :: 0 <= i < j < |idle| ==> idle[i] != idle[j]
  }

  ghost predicate OneHolder(threads: seq<Thread>) {
    forall i, j :: 0 <= i < j < |threads| && Holds(threads[i]) && Holds(threads[j]) ==> threads[i].c != threads[j].c
  }

  ghost predicate Apart(threads: seq<Thread>, idle: seq<nat>) {
    forall i :: 0 <= i < |threads| && Holds(threads[i]) ==> threads[i].c !in idle
  }

  ghost predicate Known(threads: seq<Thread>, idle: seq<nat>, next: nat) {
    (forall i :: 0 <= i < |threads| && Holds(threads[i]) ==> threads[i].c < next) && forall c <- idle :: c < next
  }

  /** No connection is idle twice, held twice, or idle and held. */
  ghost predicate Exclusive(s: State) {
    Distinct(s.pool.idle) && OneHolder(s.threads) && Apart(s.threads, s.pool.idle) && Known(s.threads, s.pool.idle, s.next)
  }

  /** The counter is the connections idle and held, plus the slots lost to failed connects, and stays within the size. */
  predicate Accounted(s: State) {
    s.pool.created == |s.pool.idle| + Held(s.threads) + s.leaked && s.pool.created <= s.pool.size
  }

  ghost predicate Inv(s: State) {
    Exclusive(s) && Accounted(s)
  }

  lemma {:induction false} HeldAfter(threads: seq<Thread>, i: nat, t: Thread)
    requires i < |threads|
    ensures Held(threads[i := t]) == Held(threads) - (if Holds(threads[i]) then 1 else 0) + (if Holds(t) then 1 else 0)
  {
    if i == 0 {
      assert threads[i := t][1..] == threads[1..];
    } else {
      assert threads[i := t][1..] == threads[1..][i - 1 := t];
      HeldAfter(threads[1..], i - 1, t);
    }
  }

  lemma {:induction false} HeldAtLeast(threads: seq<Thread>, i: nat)
    requires i < |threads| && Holds(threads[i])
    ensures Held(threads) >= 1
  {
    if i > 0 {
      HeldAtLeast(threads[1..], i - 1);
    }
  }

  ghost function Mover(step: Step): nat
    requires !step.Die?
  {
    step.i
  }

  lemma StepAccounts(s: State, step: Step)
    requires Inv(s) && Enabled(s, step)
    ensures Accounted(Apply(s, step))
  {
    if !step.Die? {
      var i := Mover(step);
      HeldAfter(s.threads, i, Apply(s, step).threads[i]);
      if Holds(s.threads[i]) {
        HeldAtLeast(s.threads, i);
      }
    }
  }

  ghost predicate Unheld(threads: seq<Thread>, i: nat, c: nat) {
    forall j :: 0 <= j < |threads| && j != i && Holds(threads[j]) ==> threads[j].c != c
  }

  /** A thread that lets its connection go, or keeps it. */
  lemma LetsGo(s: State, i: nat, t: Thread)
    requires i < |s.threads| && Exclusive(s) && (Holds(t) ==> Holds(s.threads[i]) && t.c == s.threads[i].c)
    ensures Exclusive(Go(s, i, t))
  {
  }

  lemma PopExcludes(s: State, i: nat)
    requires i < |s.threads| && Exclusive(s) && s.pool.idle != []
    ensures Exclusive(Pop(s, i))
  {
    var last := |s.pool.idle| - 1;
    var c := s.pool.idle[last];
    assert c in s.pool.idle && Unheld(s.threads, i, c);
    var rest := s.pool.idle[..last];
    assert forall k :: 0 <= k < last ==> s.pool.idle[k] != c;
    assert c !in rest && forall x <- rest :: x in s.pool.idle;
  }

  lemma CreateExcludes(s: State, i: nat)
    requires i < |s.threads| && Exclusive(s)
    ensures Exclusive(Go(s, i, Using(s.next)).(pool := Reserved(s.pool), next := s.next + 1))
  {
  }

  lemma StepExcludes(s: State, step: Step)
    requires Exclusive(s) && Enabled(s, step)
    ensures Exclusive(Apply(s, step))
  {
    match step
    case TryPop(i) =>
      if s.pool.idle == [] {
        LetsGo(s, i, Deciding);
      } else {
        PopExcludes(s, i);
      }
    case Create(i, connects) =>
      if connects {
        CreateExcludes(s, i);
      } else {
        LetsGo(s, i, Outside);
      }
    case Exit(i, commits) =>
      if !commits || |s.pool.idle| >= s.pool.size {
        LetsGo(s, i, Closing(s.threads[i].c));
      }
    case Die(_) =>
    case _ => LetsGo(s, Mover(step), Apply(s, step).threads[Mover(step)]);
  }

  lemma StepKeeps(s: State, step: Step)
    requires Inv(s) && Enabled(s, step)
    ensures Inv(Apply(s, step))
  {
    StepAccounts(s, step);
    StepExcludes(s, step);
  }

  /** The two guards that are never needed: marking a connection never meets a counter of zero, and a connection that is
      given back always finds room. */
  lemma GuardsNeverFire(s: State, step: Step)
    requires Inv(s) && Enabled(s, step)
    ensures step.Mark? ==> s.pool.created >= 1 && Apply(s, step).pool.created == s.pool.created - 1
    ensures step.Exit? ==> |s.pool.idle| < s.pool.size
  {
    if step.Mark? || step.Exit? {
      HeldAtLeast(s.threads, step.i);
    }
  }

  predicate Initial(s: State) {
    s.pool.idle == [] && s.pool.created == 0 && s.leaked == 0 && forall i :: 0 <= i < |s.threads| ==> s.threads[i].Outside?
  }

  ghost predicate IsRun(s: State, steps: seq<Step>)
    decreases |steps|
  {
    steps == [] || (Enabled(s, steps[0]) && IsRun(Apply(s, steps[0]), steps[1..]))
  }

  ghost function AfterAll(s: State, steps: seq<Step>): State
    requires IsRun(s, steps)
    decreases |steps|
  {
    if steps == [] then s else AfterAll(Apply(s, steps[0]), steps[1..])
  }

  lemma {:induction false} RunKeeps(s: State, steps: seq<Step>)
    requires Inv(s) && IsRun(s, steps)
    ensures Inv(AfterAll(s, steps)) && AfterAll(s, steps).pool.size == s.pool.size && AfterAll(s, steps).leaked >= s.leaked
    decreases |steps|
  {
    if steps != [] {
      StepKeeps(s, steps[0]);
      RunKeeps(Apply(s, steps[0]), steps[1..]);
    }
  }

  lemma {:induction false} NobodyHolds(threads: seq<Thread>)
    requires forall i :: 0 <= i < |threads| ==> threads[i].Outside?
    ensures Held(threads) == 0
  {
    if threads != [] {
      NobodyHolds(threads[1..]);
    }
  }

  /** From the start, in any interleaving, no connection is shared and the counter is exact and within the size. */
  lemma RunsAreExclusive(s: State, steps: seq<Step>)
    requires Initial(s) && IsRun(s, steps)
    ensures Inv(AfterAll(s, steps))
  {
    NobodyHolds(s.threads);
    RunKeeps(s, steps);
  }

  /** A slot lost to a failed connect is never regained: once `size` connects have failed no thread can ever hold a
      connection again. */
  lemma LeaksExhaustThePool(s: State, steps: seq<Step>)
    requires Inv(s) && s.leaked == s.pool.size && IsRun(s, steps)
    ensures var t := AfterAll(s, steps);
            t.pool.idle == [] && t.pool.created == t.pool.size && forall i :: 0 <= i < |t.threads| ==> !Holds(t.threads[i])
  {
    RunKeeps(s, steps);
    var t := AfterAll(s, steps);
    forall i | 0 <= i < |t.threads|
      ensures !Holds(t.threads[i])
    {
      if Holds(t.threads[i]) {
        HeldAtLeast(t.threads, i);
      }
    }
  }

  /** The connect attempts that fail on their own: one thread, `n` times. */
  function FailedConnects(n: nat): seq<Step> {
    if n == 0 then [] else [Enter(0)] + ([TryPop(0)] + ([Create(0, false)] + FailedConnects(n - 1)))
  }

  lemma RunCons(s: State, step: Step, rest: seq<Step>)
    requires Enabled(s, step) && IsRun(Apply(s, step), rest)
    ensures IsRun(s, [step] + rest) && AfterAll(s, [step] + rest) == AfterAll(Apply(s, step), rest)
  {
    assert ([step] + rest)[1..] == rest;
  }

  ghost predicate OneIdleThread(s: State) {
    Inv(s) && s.threads == [Outside] && s.pool.idle == []
  }

  lemma FailOnce(s: State)
    requires OneIdleThread(s) && s.leaked < s.pool.size
    ensures Enabled(s, Enter(0)) && Enabled(Apply(s, Enter(0)), TryPop(0)) &&
            Enabled(Apply(Apply(s, Enter(0)), TryPop(0)), Create(0, false)) &&
            var t := Apply(Apply(Apply(s, Enter(0)), TryPop(0)), Create(0, false));
            OneIdleThread(t) && t.leaked == s.leaked + 1 && t.pool.size == s.pool.size
  {
    NobodyHolds(s.threads);
    var asking := Apply(s, Enter(0));
    StepKeeps(s, Enter(0));
    var deciding := Apply(asking, TryPop(0));
    StepKeeps(asking, TryPop(0));
    StepKeeps(deciding, Create(0, false));
  }

  /** An unreachable database uses up the pool for good in `size` attempts. */
  lemma {:induction false} FailuresLeak(s: State, n: nat)
    requires OneIdleThread(s) && s.leaked + n <= s.pool.size
    ensures IsRun(s, FailedConnects(n)) && AfterAll(s, FailedConnects(n)).leaked == s.leaked + n
    decreases n
  {
    if n > 0 {
      FailOnce(s);
      var asking := Apply(s, Enter(0));
      var deciding := Apply(asking, TryPop(0));
      FailuresLeak(Apply(deciding, Create(0, false)), n - 1);
      RunCons(deciding, Create(0, false), FailedConnects(n - 1));
      RunCons(asking, TryPop(0), [Create(0, false)] + FailedConnects(n - 1));
      RunCons(s, Enter(0), [TryPop(0)] + ([Create(0, false)] + FailedConnects(n - 1)));
    }
  }

  // ----- What a thread is handed, and what never comes back -----

  /** A thread starts to use a connection in two ways: it takes the one given back last, which is not known to be dead, or it has opened
      a new one. */
  lemma HandedOutAlive(s: State, step: Step, i: nat)
    requires Enabled(s, step) && i < |s.threads| && !s.threads[i].Using? && Apply(s, step).threads[i].Using?
    ensures var c := Apply(s, step).threads[i].c;
            (step == TryPop(i) && s.pool.idle != [] && c == s.pool.idle[|s.pool.idle| - 1] && c !in s.dead) ||
            (step == Create(i, true) && c == s.next && s.pool.created < s.pool.size)
  {
  }

  /** A dead one is taken out and not used: the thread asks again when it had waited, and else goes on to open another. */
  lemma DeadIsDiscarded(s: State, i: nat)
    requires Enabled(s, TryPop(i)) && s.pool.idle != [] && s.pool.idle[|s.pool.idle| - 1] in s.dead
    ensures var u := Apply(s, TryPop(i));
            u.pool.idle == s.pool.idle[..|s.pool.idle| - 1] && u.pool.created == s.pool.created && !u.threads[i].Using? &&
            Enabled(u, Mark(i)) && var v := Apply(u, Mark(i));
            v.threads[i] == (if s.threads[i].Waiting? then Asking else Deciding) && v.pool.idle == u.pool.idle &&
            (s.pool.created >= 1 ==> v.pool.created == s.pool.created - 1)
  {
  }

  /** A thread that is done gives its connection back when it commits and the queue has room, which it always has; otherwise the
      connection is closed, and marked in a step of its own. */
  lemma ExitGivesBack(s: State, i: nat, commits: bool)
    requires Enabled(s, Exit(i, commits))
    ensures var u, c := Apply(s, Exit(i, commits)), s.threads[i].c;
            u.pool.created == s.pool.created && u.next == s.next && u.leaked == s.leaked &&
            (forall j :: 0 <= j < |s.threads| && j != i ==> u.threads[j] == s.threads[j]) &&
            if commits && |s.pool.idle| < s.pool.size then u.threads[i] == Outside && u.pool.idle == s.pool.idle + [c] && u.dead == s.dead
            else u.threads[i] == Closing(c) && u.pool.idle == s.pool.idle && u.dead == s.dead + {c}
  {
  }

  /** The other steps that leave the queue as it is: where the thread goes, and what happens to the counter. */
  lemma ThreadGoes(s: State, step: Step)
    requires Enabled(s, step) && (step.Enter? || step.Wait? || step.Timeout? || step.Create? || (step.TryPop? && s.pool.idle == []))
    ensures var u := Apply(s, step);
            u.threads == s.threads[step.i := match step
                                            case Enter(_) => Asking
                                            case TryPop(_) => Deciding
                                            case Wait(_) => Waiting
                                            case Create(_, connects) => if connects then Using(s.next) else Outside
                                            case _ => Outside] &&
            u.pool.idle == s.pool.idle && u.pool.size == s.pool.size && u.dead == s.dead &&
            u.pool.created == s.pool.created + (if step.Create? then 1 else 0) &&
            u.leaked == s.leaked + (if step.Create? && !step.connects then 1 else 0) &&
            u.next == s.next + (if step.Create? && step.connects then 1 else 0)
  {
  }

  /** A connection that is given back is the next one handed out, to whichever thread asks, and none is opened. */
  lemma ReturnedIsReused(s: State, i: nat, j: nat)
    requires Inv(s) && i < |s.threads| && s.threads[i].Using? && s.threads[i].c !in s.dead && j < |s.threads| && j != i && s.threads[j].Outside?
    ensures IsRun(s, [Exit(i, true), Enter(j), TryPop(j)])
    ensures var u := AfterAll(s, [Exit(i, true), Enter(j), TryPop(j)]);
            u.threads == s.threads[i := Outside][j := Using(s.threads[i].c)] && u.pool == s.pool && u.next == s.next
  {
    GuardsNeverFire(s, Exit(i, true));
    var out := Apply(s, Exit(i, true));
    var asking := Apply(out, Enter(j));
    var using := Apply(asking, TryPop(j));
    RunCons(asking, TryPop(j), []);
    RunCons(out, Enter(j), [TryPop(j)]);
    RunCons(s, Exit(i, true), [Enter(j), TryPop(j)]);
    assert [Enter(j)] + [TryPop(j)] == [Enter(j), TryPop(j)] && [TryPop(j)] + [] == [TryPop(j)];
    assert [Exit(i, true)] + [Enter(j), TryPop(j)] == [Exit(i, true), Enter(j), TryPop(j)];
    assert (s.pool.idle + [s.threads[i].c])[..|s.pool.idle|] == s.pool.idle;
  }

  /** A connection that has been opened and is neither idle nor held by a thread. */
  ghost predicate Gone(s: State, c: nat) {
    c < s.next && c !in s.pool.idle && forall i :: 0 <= i < |s.threads| && Holds(s.threads[i]) ==> s.threads[i].c != c
  }

  lemma GoneStays(s: State, step: Step, c: nat)
    requires Gone(s, c) && Enabled(s, step)
    ensures Gone(Apply(s, step), c)
  {
  }

  /** It is never used again in any interleaving. */
  lemma {:induction false} GoneForGood(s: State, steps: seq<Step>, c: nat)
    requires Gone(s, c) && IsRun(s, steps)
    ensures Gone(AfterAll(s, steps), c)
    decreases |steps|
  {
    if steps != [] {
      GoneStays(s, steps[0], c);
      GoneForGood(Apply(s, steps[0]), steps[1..], c);
    }
  }

  /** A discarded or closed connection is gone once it is marked. */
  lemma MarkedIsGone(s: State, i: nat)
    requires Inv(s) && Enabled(s, Mark(i))
    ensures Gone(Apply(s, Mark(i)), s.threads[i].c)
  {
  }

  // ----- When the pool can still serve -----

  ghost predicate Serves(s: State) {
    exists i :: 0 <= i < |s.threads| && s.threads[i].Using?
  }

  ghost predicate CanServe(s: State) {
    exists steps :: IsRun(s, steps) && Serves(AfterAll(s, steps))
  }

  predicate Busy(t: Thread) {
    t.Discarding? || t.Closing?
  }

  /** Work left before thread 0 has a connection, when no thread uses one and none is being discarded. */
  function Rank(s: State): nat
    requires s.threads != []
  {
    var t := s.threads[0];
    if s.pool.created < s.pool.size then (if t.Waiting? then 3 else if t.Outside? then 2 else if t.Asking? then 1 else 0)
    else (if t.Outside? then 3 else if t.Asking? then 2 else if t.Deciding? then 1 else 0)
  }

  /** A step towards a connection: a dead one is marked, or else thread 0 asks, pops, creates, waits or gives up. */
  ghost function Towards(s: State): Step
    requires s.threads != []
  {
    if exists i :: 0 <= i < |s.threads| && Busy(s.threads[i]) then
      var i :| 0 <= i < |s.threads| && Busy(s.threads[i]);
      Mark(i)
    else
      match s.threads[0]
      case Outside => Enter(0)
      case Asking => TryPop(0)
      case Deciding => if s.pool.created < s.pool.size then Create(0, true) else Wait(0)
      case Waiting => if s.pool.idle != [] then TryPop(0) else Timeout(0)
      case _ => Enter(0)
  }

  function Load(s: State): nat {
    2 * |s.pool.idle| + Held(s.threads)
  }

  lemma {:induction false} NoneHeld(threads: seq<Thread>)
    requires forall i :: 0 <= i < |threads| ==> !Holds(threads[i])
    ensures Held(threads) == 0
  {
    if threads != [] {
      NoneHeld(threads[1..]);
    }
  }

  lemma MarkingUnloads(s: State, i: nat)
    requires Inv(s) && i < |s.threads| && Busy(s.threads[i])
    ensures Enabled(s, Mark(i)) && Load(Apply(s, Mark(i))) < Load(s)
  {
    HeldAfter(s.threads, i, Apply(s, Mark(i)).threads[i]);
  }

  lemma PoppingUnloads(s: State, i: nat)
    requires Inv(s) && i < |s.threads| && s.pool.idle != [] && (s.threads[i].Asking? || s.threads[i].Waiting?)
    ensures Enabled(s, TryPop(i)) && Load(Apply(s, TryPop(i))) < Load(s)
  {
    HeldAfter(s.threads, i, Apply(s, TryPop(i)).threads[i]);
  }

  lemma MovingOn(s: State, step: Step)
    requires Inv(s) && s.threads != [] && !Holds(s.threads[0]) && Enabled(s, step) && s.leaked < s.pool.size
    requires step == Enter(0) || (step == TryPop(0) && s.pool.idle == []) || (step == Wait(0)) || step == Timeout(0)
    requires step == Timeout(0) ==> s.pool.created < s.pool.size
    ensures var u := Apply(s, step); Load(u) == Load(s) && Rank(u) < Rank(s)
  {
    HeldAfter(s.threads, 0, Apply(s, step).threads[0]);
  }

  lemma Approaches(s: State)
    requires Inv(s) && s.threads != [] && s.leaked < s.pool.size && !Serves(s)
    ensures Enabled(s, Towards(s))
    ensures var u := Apply(s, Towards(s));
            u.threads != [] && u.leaked == s.leaked && u.pool.size == s.pool.size &&
            (Serves(u) || Load(u) < Load(s) || (Load(u) == Load(s) && Rank(u) < Rank(s)))
  {
    var step := Towards(s);
    if exists i :: 0 <= i < |s.threads| && Busy(s.threads[i]) {
      MarkingUnloads(s, step.i);
    } else {
      forall i | 0 <= i < |s.threads|
        ensures !Holds(s.threads[i])
      {
        assert !s.threads[i].Using? && !Busy(s.threads[i]);
      }
      NoneHeld(s.threads);
      if step.Create? {
        assert Apply(s, step).threads[0].Using?;
      } else if step.TryPop? && s.pool.idle != [] {
        PoppingUnloads(s, 0);
      } else {
        MovingOn(s, step);
      }
    }
  }

  lemma {:induction false} ReachesAConnection(s: State) returns (steps: seq<Step>)
    requires Inv(s) && s.threads != [] && s.leaked < s.pool.size
    ensures IsRun(s, steps) && Serves(AfterAll(s, steps))
    decreases if Serves(s) then 0 else 1, Load(s), Rank(s)
  {
    if Serves(s) {
      steps := [];
    } else {
      Approaches(s);
      var step := Towards(s);
      StepKeeps(s, step);
      var rest := ReachesAConnection(Apply(s, step));
      RunCons(s, step, rest);
      steps := [step] + rest;
    }
  }

  /** Some thread can still be served exactly while fewer connects have failed than the pool is large. */
  lemma ServesIffSlotsLeft(s: State)
    requires Inv(s) && s.threads != []
    ensures CanServe(s) <==> s.leaked < s.pool.size
  {
    if s.leaked < s.pool.size {
      var steps := ReachesAConnection(s);
    } else if CanServe(s) {
      var steps :| IsRun(s, steps) && Serves(AfterAll(s, steps));
      LeaksExhaustThePool(s, steps);
    }
  }
}
