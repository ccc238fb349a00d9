/** `lead` as the program writes it: the loop that watches over a tenure, with the rest of the world at work between its wake-ups. */
module LeaderLoop {
  import opened Options
  import opened Leader

  /** What the loop is woken by: the shutdown token, the end of the task, or the time to ping the connection. */
  datatype Wake = ShutdownFired | TaskFinished | CheckTick

  datatype Turn = Turn(others: seq<Step>, wake: Wake)

  datatype Outcome = StillLeading | StillStopping | SteppedDown

  predicate By(id: nat, step: Step) {
    !step.Tick? && !step.LoseSession? && step.id == id
  }

  predicate NotBy(id: nat, steps: seq<Step>) {
    forall k :: 0 <= k < |steps| ==> !By(id, steps[k])
  }

  lemma {:induction false} OthersLeaveIt(w: World, steps: seq<Step>, id: nat)
    requires NotBy(id, steps)
    ensures var w' := Exec(w, steps);
            (id in w'.processes <==> id in w.processes) && (id in w.processes ==> w'.processes[id] == w.processes[id])
  {
    if steps != [] { OthersLeaveIt(w, steps[..|steps| - 1], id); }
  }

  lemma {:induction false} InTwo(w: World, a: seq<Step>, b: seq<Step>)
    ensures Exec(w, a + b) == Exec(Exec(w, a), b)
  {
    if b == [] {
      assert a + b == a;
    } else {
      assert (a + b)[..|a + b| - 1] == a + b[..|b| - 1];
      InTwo(w, a, b[..|b| - 1]);
    }
  }

  /** The trace with one more step of the process after some of the others. */
  lemma Longer(w: World, trace: seq<Step>, others: seq<Step>, step: Step) returns (longer: seq<Step>)
    ensures longer == trace + others + [step] && Exec(w, longer) == Next(Exec(Exec(w, trace), others), step)
  {
    longer := trace + others + [step];
    InTwo(w, trace, others);
    assert longer[..|longer| - 1] == trace + others;
  }

  /** The end of the task releases the lock; an abort that is not due yet changes nothing. */
  lemma EndOfTask(w: World, id: nat, last: Step)
    requires id in w.processes && w.processes[id].Stopping? && (last == TaskReturns(id) || last == Abort(id))
    ensures var w' := Next(w, last);
            && OutcomeOf(w', id) != StillLeading && (last.TaskReturns? ==> OutcomeOf(w', id) == SteppedDown)
            && (OutcomeOf(w', id) == SteppedDown ==> w'.lock != Held(w.processes[id].session))
            && (OutcomeOf(w', id) == SteppedDown <==> last.TaskReturns? || w.processes[id].abortAt <= w'.now)
            && (OutcomeOf(w', id) != SteppedDown ==> w' == w)
  {
  }

  /** The steps of the first wake-ups of a tenure, and those of its end. */
  function Script(id: nat, turns: seq<Turn>): seq<Step> {
    if turns == [] then []
    else
      var last := turns[|turns| - 1];
      Script(id, turns[..|turns| - 1]) + last.others + [StepOf(id, last.wake)]
  }

  function EndScript(id: nat, waiting: seq<Step>, inTime: bool): seq<Step> {
    waiting + [if inTime then TaskReturns(id) else Abort(id)]
  }

  class Cluster {
    var world: World

    constructor ()
      ensures world == START
    {
      world := START;
    }

    method Others(steps: seq<Step>)
      modifies this
      ensures world == Exec(old(world), steps)
    {
      var k := 0;
      while k < |steps|
        invariant k <= |steps| && world == Exec(old(world), steps[..k])
      {
        assert steps[..k + 1][..k] == steps[..k];
        world := Next(world, steps[k]);
        k := k + 1;
      }
      assert steps[..k] == steps;
    }

    /** One wake-up: the process goes on leading, has to stop its task, or is done. */
    method WakeUp(id: nat, turn: Turn)
      requires id in world.processes && world.processes[id].Leading? && NotBy(id, turn.others)
      modifies this
      ensures world == Next(Exec(old(world), turn.others), StepOf(id, turn.wake))
      ensures match turn.wake
              case ShutdownFired => id in world.processes && Leaving(world.processes[id])
              case TaskFinished => id in world.processes && world.processes[id].Waiting?
              case CheckTick => id in world.processes && (world.processes[id].Leading? || world.processes[id].Stopping?)
      ensures if RunsTask(world.processes[id]) then world.processes[id].session == old(world).processes[id].session
              else world.lock != Held(old(world).processes[id].session)
      ensures turn.wake.CheckTick? ==>
                (world.processes[id].Stopping? <==> old(world).processes[id].session in world.lost && old(world).processes[id].checkAt <= world.now)
    {
      OthersLeaveIt(world, turn.others, id);
      Others(turn.others);
      world := Next(world, StepOf(id, turn.wake));
    }

    /**
     A tenure. It is a run of the step machine, and it ends with the first wake-up that is not a successful
     ping; then the task is given time to stop, is aborted when the time is over, and only after that does
     the process leave or wait for the lock again.
     */
    method Lead(id: nat, turns: seq<Turn>, waiting: seq<Step>, inTime: bool) returns (outcome: Outcome, ghost used: nat, ghost trace: seq<Step>)
      requires id in world.processes && world.processes[id].Leading?
      requires NotBy(id, waiting) && forall k :: 0 <= k < |turns| ==> NotBy(id, turns[k].others)
      modifies this
      ensures world == Exec(old(world), trace) && used <= |turns|
      ensures trace == Script(id, turns[..used]) || trace == Script(id, turns[..used]) + EndScript(id, waiting, inTime)
      ensures outcome == OutcomeOf(world, id)
      ensures outcome.SteppedDown? ==> world.lock != Held(old(world).processes[id].session)
      ensures outcome.StillLeading? ==> forall k :: 0 <= k < |turns| ==> turns[k].wake.CheckTick?
    {
      ghost var before := world;
      ghost var session := world.processes[id].session;
      trace := [];
      var k := 0;
      while k < |turns| && id in world.processes && world.processes[id].Leading?
        invariant k <= |turns| && world == Exec(before, trace) && id in world.processes && trace == Script(id, turns[..k])
        invariant if RunsTask(world.processes[id]) then world.processes[id].session == session else world.lock != Held(session)
        invariant world.processes[id].Leading? ==> forall j :: 0 <= j < k ==> turns[j].wake.CheckTick?
      {
        ghost var longer := Longer(before, trace, turns[k].others, StepOf(id, turns[k].wake));
        WakeUp(id, turns[k]);
        trace := longer;
        assert turns[..k + 1][..k] == turns[..k];
        k := k + 1;
      }
      if world.processes[id].Stopping? {
        ghost var rest := StopTask(id, waiting, inTime);
        InTwo(before, trace, rest);
        trace := trace + rest;
      }
      outcome, used := OutcomeOf(world, id), k;
    }

    /** The task is told to stop and waited for; when the time is over it is aborted. */
    method StopTask(id: nat, waiting: seq<Step>, inTime: bool) returns (ghost trace: seq<Step>)
      requires id in world.processes && world.processes[id].Stopping? && NotBy(id, waiting)
      modifies this
      ensures world == Exec(old(world), trace) && trace == EndScript(id, waiting, inTime)
      ensures OutcomeOf(world, id) != StillLeading && (inTime ==> OutcomeOf(world, id) == SteppedDown)
      ensures OutcomeOf(world, id) == SteppedDown ==> world.lock != Held(old(world).processes[id].session)
      ensures OutcomeOf(world, id) == SteppedDown <==> inTime || old(world).processes[id].abortAt <= world.now
      ensures OutcomeOf(world, id) != SteppedDown ==> world.processes[id] == old(world).processes[id]
    {
      ghost var before := world;
      OthersLeaveIt(world, waiting, id);
      Others(waiting);
      var last := if inTime then TaskReturns(id) else Abort(id);
      EndOfTask(world, id, last);
      trace := Longer(before, [], waiting, last);
      world := Next(world, last);
    }
  }

  function StepOf(id: nat, wake: Wake): Step {
    match wake
    case ShutdownFired => Shutdown(id)
    case TaskFinished => TaskReturns(id)
    case CheckTick => Check(id)
  }

  function OutcomeOf(w: World, id: nat): Outcome {
    if id !in w.processes || w.processes[id].Waiting? then SteppedDown
    else if w.processes[id].Leading? then StillLeading
    else StillStopping
  }
}
