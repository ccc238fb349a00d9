/**
 One process at a time runs a background task: the session-scoped advisory lock of PostgreSQL, the
 processes that try to take it, and clocks in seconds.

 The lock belongs to a database session and is free again as soon as that session ends, whether it was
 closed by its process or lost. Everything a process does at once is one step; time passes only while
 nobody has anything due, i.e. pings, aborts and the process itself are not delayed.
 */
module Leader {
  import opened Options

  const ACQUIRE_RETRY_INTERVAL := 5
  const LOCK_CHECK_INTERVAL := 10
  const STOP_TIMEOUT := 30

  datatype Lock = Free(since: int) | Held(session: nat)

  /**
   A process without the role retries at `retryAt`; `since` is when it began to wait, or when asking for the
   lock last ended in an error. A leading or stopping one runs the task; one told to shut down leaves.
   */
  datatype Process =
    | Waiting(since: int, retryAt: int)
    | Leading(session: nat, checkAt: int)
    | Stopping(session: nat, abortAt: int, leaving: bool)

  /** `lost` remembers when sessions broke; `next` is the number of the next session. */
  datatype World = World(now: int, lock: Lock, next: nat, lost: map<nat, int>, processes: map<nat, Process>)

  const START := World(0, Free(0), 0, map[], map[])

  datatype Step =
    | Tick
    | Boot(id: nat)
    | TryAcquire(id: nat, fails: bool)
    | LoseSession(session: nat)
    | Check(id: nat)
    | Shutdown(id: nat)
    | TaskReturns(id: nat)
    | Abort(id: nat)
    | Crash(id: nat)

  predicate RunsTask(p: Process) {
    p.Leading? || p.Stopping?
  }

  function Deadline(p: Process): int {
    match p
    case Waiting(_, retryAt) => retryAt
    case Leading(_, checkAt) => checkAt
    case Stopping(_, abortAt, _) => abortAt
  }

  predicate SomebodyIsDue(w: World) {
    exists id :: id in w.processes && Deadline(w.processes[id]) <= w.now
  }

  /** The session ends: the lock is free if that session held it. */
  function Release(w: World, session: nat): Lock {
    if w.lock == Held(session) then Free(w.now) else w.lock
  }

  /** The task is over and the connection closed. */
  function StepDown(w: World, id: nat, session: nat, leaving: bool): World {
    w.(lock := Release(w, session),
       processes := if leaving then w.processes - {id} else w.processes[id := Waiting(w.now, w.now + ACQUIRE_RETRY_INTERVAL)])
  }

  predicate Leaving(p: Process) {
    p.Stopping? && p.leaving
  }

  /** One step. A step that cannot be taken leaves the world as it is. */
  function Next(w: World, step: Step): World {
    match step
    case Tick => if SomebodyIsDue(w) then w else w.(now := w.now + 1)
    case Boot(id) => if id in w.processes then w else w.(processes := w.processes[id := Waiting(w.now, w.now)])
    case TryAcquire(id, fails) =>
      if id !in w.processes || !w.processes[id].Waiting? || w.now < w.processes[id].retryAt then w
      else if fails then w.(processes := w.processes[id := Waiting(w.now, w.now + ACQUIRE_RETRY_INTERVAL)])
      else if w.lock.Free? then
        w.(lock := Held(w.next), next := w.next + 1,
           processes := w.processes[id := Leading(w.next, w.now + LOCK_CHECK_INTERVAL)])
      else w.(processes := w.processes[id := w.processes[id].(retryAt := w.now + ACQUIRE_RETRY_INTERVAL)])
    case LoseSession(session) =>
      if session >= w.next || session in w.lost then w
      else w.(lock := Release(w, session), lost := w.lost[session := w.now])
    case Check(id) =>
      if id !in w.processes || !w.processes[id].Leading? || w.now < w.processes[id].checkAt then w
      else
        var session := w.processes[id].session;
        w.(processes := w.processes[id := if session in w.lost then Stopping(session, w.now + STOP_TIMEOUT, false)
                                          else Leading(session, w.now + LOCK_CHECK_INTERVAL)])
    case Shutdown(id) =>
      if id !in w.processes then w
      else if w.processes[id].Waiting? then w.(processes := w.processes - {id})
      else if w.processes[id].Stopping? then w.(processes := w.processes[id := w.processes[id].(leaving := true)])
      else w.(processes := w.processes[id := Stopping(w.processes[id].session, w.now + STOP_TIMEOUT, true)])
    case TaskReturns(id) =>
      if id !in w.processes || !RunsTask(w.processes[id]) then w
      else StepDown(w, id, w.processes[id].session, Leaving(w.processes[id]))
    case Abort(id) =>
      if id !in w.processes || !w.processes[id].Stopping? || w.now < w.processes[id].abortAt then w
      else StepDown(w, id, w.processes[id].session, Leaving(w.processes[id]))
    case Crash(id) =>
      if id !in w.processes then w
      else if RunsTask(w.processes[id]) then
        w.(lock := Release(w, w.processes[id].session), processes := w.processes - {id})
      else w.(processes := w.processes - {id})
  }

  function Exec(w: World, steps: seq<Step>): World {
    if steps == [] then w else Next(Exec(w, steps[..|steps| - 1]), steps[|steps| - 1])
  }

  /** While it runs the task a process holds the lock, or its session broke recently enough. */
  ghost predicate TenureSafe(w: World, p: Process) {
    match p
    case Waiting(since, retryAt) => since <= w.now <= retryAt <= w.now + ACQUIRE_RETRY_INTERVAL
    case Leading(session, checkAt) =>
      && session < w.next && w.now <= checkAt <= w.now + LOCK_CHECK_INTERVAL
      && (if session in w.lost then checkAt <= w.lost[session] + LOCK_CHECK_INTERVAL else w.lock == Held(session))
    case Stopping(session, abortAt, _) =>
      && session < w.next && w.now <= abortAt <= w.now + STOP_TIMEOUT
      && (if session in w.lost then abortAt <= w.lost[session] + LOCK_CHECK_INTERVAL + STOP_TIMEOUT else w.lock == Held(session))
  }

  /** A waiting process comes back soon after the lock became free. */
  ghost predicate TakesOver(w: World, p: Process) {
    p.Waiting? && w.lock.Free? ==> p.retryAt <= (if p.since > w.lock.since then p.since else w.lock.since) + ACQUIRE_RETRY_INTERVAL
  }

  ghost predicate Safe(w: World) {
    && (w.lock.Held? ==> w.lock.session < w.next && w.lock.session !in w.lost)
    && (w.lock.Free? ==> w.lock.since <= w.now)
    && (forall session :: session in w.lost ==> session < w.next && w.lost[session] <= w.now)
    && (forall id :: id in w.processes ==> TenureSafe(w, w.processes[id]) && TakesOver(w, w.processes[id]))
    && (forall a, b :: a in w.processes && b in w.processes && a != b && RunsTask(w.processes[a]) && RunsTask(w.processes[b]) ==>
          w.processes[a].session != w.processes[b].session)
  }

  lemma TickSafe(w: World)
    requires Safe(w)
    ensures Safe(Next(w, Tick))
  {
    if !SomebodyIsDue(w) { assert forall id :: id in w.processes ==> Deadline(w.processes[id]) > w.now; }
  }

  lemma TryAcquireSafe(w: World, id: nat, fails: bool)
    requires Safe(w)
    ensures Safe(Next(w, TryAcquire(id, fails)))
  {
  }

  lemma LoseSessionSafe(w: World, session: nat)
    requires Safe(w)
    ensures Safe(Next(w, LoseSession(session)))
  {
  }

  lemma CheckSafe(w: World, id: nat)
    requires Safe(w)
    ensures Safe(Next(w, Check(id)))
  {
  }

  lemma StepDownSafe(w: World, id: nat)
    requires Safe(w) && id in w.processes && RunsTask(w.processes[id])
    ensures Safe(StepDown(w, id, w.processes[id].session, Leaving(w.processes[id])))
  {
  }

  lemma BootSafe(w: World, id: nat)
    requires Safe(w)
    ensures Safe(Next(w, Boot(id)))
  {
  }

  lemma ShutdownSafe(w: World, id: nat)
    requires Safe(w)
    ensures Safe(Next(w, Shutdown(id)))
  {
    if id in w.processes {
      if w.processes[id].Waiting? { LeavesSafely(w, id); } else { LeavingIsSafe(w, id); }
    }
  }

  lemma LeavesSafely(w: World, id: nat)
    requires Safe(w) && id in w.processes && w.processes[id].Waiting?
    ensures Safe(w.(processes := w.processes - {id}))
  {
  }

  lemma LeavingIsSafe(w: World, id: nat)
    requires Safe(w) && id in w.processes && RunsTask(w.processes[id])
    ensures Safe(Next(w, Shutdown(id)))
  {
  }

  lemma CrashSafe(w: World, id: nat)
    requires Safe(w)
    ensures Safe(Next(w, Crash(id)))
  {
  }

  lemma SafeStep(w: World, step: Step)
    requires Safe(w)
    ensures Safe(Next(w, step))
  {
    match step
    case Tick => TickSafe(w);
    case TryAcquire(id, fails) => TryAcquireSafe(w, id, fails);
    case LoseSession(session) => LoseSessionSafe(w, session);
    case Check(id) => CheckSafe(w, id);
    case TaskReturns(id) => if id in w.processes && RunsTask(w.processes[id]) { StepDownSafe(w, id); }
    case Abort(id) => if id in w.processes && RunsTask(w.processes[id]) { StepDownSafe(w, id); }
    case Boot(id) => BootSafe(w, id);
    case Shutdown(id) => ShutdownSafe(w, id);
    case Crash(id) => CrashSafe(w, id);
  }

  lemma {:induction false} AlwaysSafe(steps: seq<Step>)
    ensures Safe(Exec(START, steps))
  {
    if steps != [] {
      AlwaysSafe(steps[..|steps| - 1]);
      SafeStep(Exec(START, steps[..|steps| - 1]), steps[|steps| - 1]);
    }
  }

  /** Is the process running the task although its session is gone? */
  predicate Orphaned(w: World, id: nat) {
    id in w.processes && RunsTask(w.processes[id]) && w.processes[id].session in w.lost
  }

  /**
   In every run: two processes run the task at once only if one of them has lost its lock connection,
   and it then stops within the check interval plus the stop timeout.
   */
  lemma OverlapIsShort(steps: seq<Step>, a: nat, b: nat)
    requires var w := Exec(START, steps);
             a != b && a in w.processes && b in w.processes && RunsTask(w.processes[a]) && RunsTask(w.processes[b])
    ensures var w := Exec(START, steps);
            exists id :: (id == a || id == b) && Orphaned(w, id) &&
                         w.now <= w.lost[w.processes[id].session] + LOCK_CHECK_INTERVAL + STOP_TIMEOUT
  {
    AlwaysSafe(steps);
    var w := Exec(START, steps);
    assert Orphaned(w, a) || Orphaned(w, b);
  }

  /** A process that still has its session is the only one that has one: it holds the lock. */
  lemma RunnerHoldsTheLock(steps: seq<Step>, id: nat)
    requires var w := Exec(START, steps); id in w.processes && RunsTask(w.processes[id]) && !Orphaned(w, id)
    ensures var w := Exec(START, steps);
            && w.lock == Held(w.processes[id].session)
            && forall other :: other in w.processes && other != id && RunsTask(w.processes[other]) ==> Orphaned(w, other)
  {
    AlwaysSafe(steps);
  }

  /** The lock is never left free for longer than the retry interval while a process waits for it and asking for it ends in no error. */
  lemma TakeoverIsPrompt(steps: seq<Step>, id: nat)
    requires var w := Exec(START, steps); w.lock.Free? && id in w.processes && w.processes[id].Waiting?
    ensures var w := Exec(START, steps);
            w.now <= w.lock.since + ACQUIRE_RETRY_INTERVAL || w.now <= w.processes[id].since + ACQUIRE_RETRY_INTERVAL
  {
    AlwaysSafe(steps);
  }
}
