/** That a free lock is taken, and kept: what the safety of the lock would allow nobody to do. */
module LeaderLiveness {
  import opened Options
  import opened Leader
  import opened LeaderLoop

  /** An attempt without error makes the process run the task and hold the lock if and only if the lock is free. */
  lemma AttemptTakesFreeLock(w: World, id: nat)
    requires Safe(w) && id in w.processes && w.processes[id].Waiting? && w.now >= w.processes[id].retryAt
    ensures var w' := Next(w, TryAcquire(id, false));
            && id in w'.processes && w'.now == w.now
            && (RunsTask(w'.processes[id]) <==> w.lock.Free?)
            && (w.lock.Free? ==> w'.processes[id].Leading? && w'.lock == Held(w'.processes[id].session) && w'.processes[id].session !in w'.lost)
            && (w.lock.Held? ==> w'.lock == w.lock && w'.processes[id] == w.processes[id].(retryAt := w.now + 5))
  {
  }

  /** An attempt that ends in an error, or comes too early, changes no lock. */
  lemma OtherAttemptsWait(w: World, id: nat, fails: bool)
    requires id in w.processes && w.processes[id].Waiting? && (fails || w.now < w.processes[id].retryAt)
    ensures var w' := Next(w, TryAcquire(id, fails)); w'.lock == w.lock && id in w'.processes && w'.processes[id].Waiting?
  {
  }

  /** A ping that is due makes the process stop its task if and only if its connection is lost. */
  lemma CheckStopsExactly(w: World, id: nat)
    requires id in w.processes && w.processes[id].Leading? && w.now >= w.processes[id].checkAt
    ensures var w' := Next(w, Check(id)); var session := w.processes[id].session;
            && id in w'.processes && w'.lock == w.lock && RunsTask(w'.processes[id]) && w'.processes[id].session == session
            && (w'.processes[id].Stopping? <==> session in w.lost)
            && (w'.processes[id].Leading? ==> w'.processes[id].checkAt == w.now + 10)
            && (w'.processes[id].Stopping? ==> w'.processes[id].abortAt == w.now + 30 && !w'.processes[id].leaving)
  {
  }

  /** A booted process asks at once; one told to shut down leaves at once or within the stop timeout. */
  lemma ProcessesComeAndGo(w: World, id: nat)
    requires Safe(w)
    ensures id !in w.processes ==> id in Next(w, Boot(id)).processes && Next(w, Boot(id)).processes[id] == Waiting(w.now, w.now)
    ensures var w' := Next(w, Shutdown(id));
            id in w'.processes ==> RunsTask(w.processes[id]) && Leaving(w'.processes[id]) && w'.processes[id].abortAt <= w.now + 30
  {
  }

  /** Who has something to do now. */
  ghost function Due(w: World): set<nat> {
    set id | id in w.processes && Deadline(w.processes[id]) <= w.now
  }

  ghost predicate SomebodyLeads(w: World) {
    exists id :: id in w.processes && w.processes[id].Leading? && w.lock == Held(w.processes[id].session)
  }

  lemma First(w: World, step: Step, rest: seq<Step>)
    ensures Exec(w, [step] + rest) == Exec(Next(w, step), rest)
  {
    InTwo(w, [step], rest);
    assert [step][..0] == [] && Exec(w, [step]) == Next(Exec(w, []), step);
  }

  lemma TakesIt(w: World, id: nat)
    requires Safe(w) && w.lock.Free? && id in w.processes && w.processes[id].Waiting? && w.now >= w.processes[id].retryAt
    ensures SomebodyLeads(Next(w, TryAcquire(id, false))) && Next(w, TryAcquire(id, false)).now == w.now
  {
    AttemptTakesFreeLock(w, id);
  }

  /** What is due for a running process: a ping, or the end of its patience. */
  function DueStep(p: Process, id: nat): Step {
    if p.Leading? then Check(id) else Abort(id)
  }

  lemma DueIsDone(w: World, id: nat, other: nat)
    requires Safe(w) && w.lock.Free? && other in w.processes && RunsTask(w.processes[other]) && Deadline(w.processes[other]) <= w.now
    requires id in w.processes && w.processes[id].Waiting?
    ensures var w' := Next(w, DueStep(w.processes[other], other));
            && Safe(w') && w'.lock.Free? && w'.now == w.now && Due(w') == Due(w) - {other}
            && id in w'.processes && w'.processes[id] == w.processes[id]
  {
    SafeStep(w, DueStep(w.processes[other], other));
  }

  /** Time passes, and processes do what is due. */
  predicate Ordinary(step: Step) {
    step.Tick? || step.Check? || step.Abort? || (step.TryAcquire? && !step.fails)
  }

  /** While the lock is free, whoever waits gets to ask for it within the retry interval, and the first to ask leads. */
  lemma {:induction false} LeadsSoon(w: World, id: nat) returns (steps: seq<Step>)
    requires Safe(w) && w.lock.Free? && id in w.processes && w.processes[id].Waiting?
    ensures SomebodyLeads(Exec(w, steps)) && Exec(w, steps).now <= w.processes[id].retryAt
    ensures forall k :: 0 <= k < |steps| ==> Ordinary(steps[k])
    decreases w.processes[id].retryAt - w.now, |Due(w)|
  {
    var waiting := Waits(w);
    if waiting.Some? {
      TakesIt(w, waiting.value);
      First(w, TryAcquire(waiting.value, false), []);
      steps := [TryAcquire(waiting.value, false)] + [];
    } else {
      var step := if SomebodyIsDue(w) then DueOne(w) else Tick;
      var w' := Next(w, step);
      Advances(w, id, step);
      var rest := LeadsSoon(w', id);
      First(w, step, rest);
      steps := [step] + rest;
    }
  }

  /** A process that may ask for the lock now. */
  ghost function Waits(w: World): (r: Option<nat>)
    ensures r.Some? ==> r.value in w.processes && w.processes[r.value].Waiting? && w.now >= w.processes[r.value].retryAt
    ensures r.None? ==> forall id :: id in w.processes && w.processes[id].Waiting? ==> w.now < w.processes[id].retryAt
  {
    if exists id :: id in w.processes && w.processes[id].Waiting? && w.now >= w.processes[id].retryAt then
      var id :| id in w.processes && w.processes[id].Waiting? && w.now >= w.processes[id].retryAt; Some(id)
    else None
  }

  ghost function DueOne(w: World): Step
    requires SomebodyIsDue(w)
  {
    var id :| id in w.processes && Deadline(w.processes[id]) <= w.now; DueStep(w.processes[id], id)
  }

  lemma Advances(w: World, id: nat, step: Step)
    requires Safe(w) && w.lock.Free? && id in w.processes && w.processes[id].Waiting? && Waits(w).None?
    requires step == if SomebodyIsDue(w) then DueOne(w) else Tick
    ensures var w' := Next(w, step);
            && Safe(w') && w'.lock.Free? && id in w'.processes && w'.processes[id] == w.processes[id]
            && (if SomebodyIsDue(w) then w'.now == w.now && |Due(w')| < |Due(w)| else w'.now == w.now + 1 <= w.processes[id].retryAt)
  {
    SafeStep(w, step);
    if SomebodyIsDue(w) {
      var other := step.id;
      assert RunsTask(w.processes[other]) && other in Due(w);
      DueIsDone(w, id, other);
    }
  }

  /**
   In every reachable world with a free lock and a waiting process there is a continuation, in which nobody
   is made to crash or to lose a session, at the end of which somebody leads, no later than the retry interval.
   */
  lemma FreeLockIsTaken(before: seq<Step>, id: nat) returns (steps: seq<Step>)
    requires var w := Exec(START, before); w.lock.Free? && id in w.processes && w.processes[id].Waiting?
    ensures var w := Exec(START, before); SomebodyLeads(Exec(w, steps)) && Exec(w, steps).now <= w.now + ACQUIRE_RETRY_INTERVAL
    ensures forall k :: 0 <= k < |steps| ==> Ordinary(steps[k])
  {
    AlwaysSafe(before);
    steps := LeadsSoon(Exec(START, before), id);
  }
}
