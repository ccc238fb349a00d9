/** `check_and_record_credential_attempt` as the program writes it, with other requests at work between its database calls. */
module RateLimiter {
  import opened Options
  import opened RateLimit

  datatype Verdict = Ok | TooManyRequests | Internal

  /** What happens before one database call returns: steps of other requests, then success or an error. */
  datatype Turn = Turn(others: seq<Step>, fails: bool)

  predicate NotBy(id: nat, steps: seq<Step>) {
    forall k :: 0 <= k < |steps| ==> steps[k].id != id
  }

  lemma {:induction false} OthersLeaveIt(h: Hashing, w: World, steps: seq<Step>, id: nat)
    requires NotBy(id, steps)
    ensures var w' := Exec(h, w, steps);
            (id in w'.flights <==> id in w.flights) && (id in w.flights ==> w'.flights[id] == w.flights[id])
  {
    if steps != [] { OthersLeaveIt(h, w, steps[..|steps| - 1], id); }
  }

  lemma {:induction false} ExecInTwo(h: Hashing, w: World, a: seq<Step>, b: seq<Step>)
    ensures Exec(h, w, a + b) == Exec(h, Exec(h, w, a), b)
  {
    if b == [] {
      assert a + b == a;
    } else {
      assert (a + b)[..|a + b| - 1] == a + b[..|b| - 1];
      ExecInTwo(h, w, a, b[..|b| - 1]);
    }
  }

  /** The steps taken during one call of request `id`. */
  function During(id: nat, step: Step, turn: Turn): seq<Step> {
    turn.others + [if turn.fails then Fail(id) else step]
  }

  /** What goes on before each of the database calls. */
  datatype Turns = Turns(record: Turn, secrets: Turn, identifiers: Turn, mark: Turn, rejections: Turn, block: Turn) {
    predicate AllNotBy(id: nat) {
      && NotBy(id, record.others) && NotBy(id, secrets.others) && NotBy(id, identifiers.others)
      && NotBy(id, mark.others) && NotBy(id, rejections.others) && NotBy(id, block.others)
    }
  }

  /** How the phase of a request moves on with one of its calls. */
  predicate Moved(f: Flight, f': Flight, step: Step, ok: bool) {
    && f'.request == f.request
    && (!ok && !f.phase.Passed? && !f.phase.Rejected? ==> f'.phase.Failed?)
    && (ok && step.Record? && f.phase.Begun? ==> f'.phase.Recorded?)
    && (ok && step.CountSecrets? && f.phase.Recorded? ==> f'.phase.CountedSecrets?)
    && (ok && step.CountIdentifiers? && f.phase.CountedSecrets? ==> f'.phase.Passed? || f'.phase.Rejecting?)
    && (ok && step.Mark? && f.phase.Rejecting? ==> if f.request.ip.Some? then f'.phase.Marked? else f'.phase.Rejected?)
    && (ok && step.CountRejections? && f.phase.Marked? && f.request.ip.Some? ==> f'.phase.Blocking? || f'.phase.Rejected?)
    && (ok && step.Block? && f.phase.Blocking? && f.request.ip.Some? ==> f'.phase.Rejected?)
  }

  function VerdictOf(phase: Phase): Verdict {
    if phase.Passed? then Ok else if phase.Rejected? then TooManyRequests else Internal
  }

  lemma Longer(h: Hashing, w: World, trace: seq<Step>, more: seq<Step>) returns (longer: seq<Step>)
    ensures longer == trace + more && Exec(h, w, longer) == Exec(h, Exec(h, w, trace), more)
  {
    longer := trace + more;
    ExecInTwo(h, w, trace, more);
  }

  /** The steps of a request up to its counts, and those of a rejection; a call takes a beginning of them. */
  function CountingScript(id: nat, request: Request, settings: Settings, now: int, at: int, turns: Turns): seq<Step> {
    [Begin(id, request, settings, now)] + During(id, Record(id, at), turns.record)
      + During(id, CountSecrets(id), turns.secrets) + During(id, CountIdentifiers(id), turns.identifiers)
  }

  function RejectionScript(id: nat, later: int, turns: Turns): seq<Step> {
    During(id, Mark(id), turns.mark) + During(id, CountRejections(id, later), turns.rejections) + During(id, Block(id), turns.block)
  }

  class Limiter {
    const h: Hashing
    var world: World

    constructor (hashing: Hashing)
      ensures h == hashing && world == START
    {
      h := hashing;
      world := START;
    }

    /** One database call: `?` in the program returns early when it fails. */
    method Call(id: nat, step: Step, turn: Turn) returns (ok: bool)
      requires step.id == id && NotBy(id, turn.others)
      modifies this
      ensures world == Exec(h, old(world), During(id, step, turn)) && ok == !turn.fails
      ensures id in old(world).flights ==> id in world.flights && Moved(old(world).flights[id], world.flights[id], step, ok)
    {
      ghost var before := world;
      Others(turn.others);
      OthersLeaveIt(h, before, turn.others, id);
      var taken := if turn.fails then Fail(id) else step;
      assert During(id, step, turn)[..|turn.others|] == turn.others;
      world := Next(h, world, taken);
      ok := !turn.fails;
    }

    method Others(steps: seq<Step>)
      modifies this
      ensures world == Exec(h, old(world), steps)
    {
      var k := 0;
      while k < |steps|
        invariant k <= |steps| && world == Exec(h, old(world), steps[..k])
      {
        assert steps[..k + 1][..k] == steps[..k];
        world := Next(h, world, steps[k]);
        k := k + 1;
      }
      assert steps[..k] == steps;
    }

    /**
     The call for a new request. Whatever other requests do meanwhile, it is a run of the step machine, and
     its verdict is the phase the request ends in; what holds in every run holds of it.
     */
    method CheckAndRecord(id: nat, request: Request, settings: Settings, now: int, at: int, later: int, turns: Turns)
      returns (verdict: Verdict, ghost trace: seq<Step>)
      requires id !in world.flights && turns.AllNotBy(id)
      modifies this
      ensures world == Exec(h, old(world), trace) && id in world.flights
      ensures trace <= CountingScript(id, request, settings, now, at, turns) + RejectionScript(id, later, turns)
      ensures verdict == VerdictOf(world.flights[id].phase)
      ensures (verdict.Ok? <==> world.flights[id].phase.Passed?) && (verdict.TooManyRequests? <==> world.flights[id].phase.Rejected?)
    {
      ghost var before := world;
      trace := [Begin(id, request, settings, now)];
      world := Next(h, world, Begin(id, request, settings, now));
      assert Exec(h, before, []) == before && trace[..0] == [];

      // Record first, so that the counts include this attempt.
      var ok := Call(id, Record(id, at), turns.record);
      trace := Longer(h, before, trace, During(id, Record(id, at), turns.record));
      if !ok { return Internal, trace; }
      ok := Call(id, CountSecrets(id), turns.secrets);
      trace := Longer(h, before, trace, During(id, CountSecrets(id), turns.secrets));
      if !ok { return Internal, trace; }
      ok := Call(id, CountIdentifiers(id), turns.identifiers);
      trace := Longer(h, before, trace, During(id, CountIdentifiers(id), turns.identifiers));
      if !ok { return Internal, trace; }
      if world.flights[id].phase.Passed? { return Ok, trace; }

      ghost var rest;
      verdict, rest := Reject(id, later, turns);
      trace := Longer(h, before, trace, rest);
    }

    /** The rejection: mark the attempt, then count the rejections of the address and block it. */
    method Reject(id: nat, later: int, turns: Turns) returns (verdict: Verdict, ghost trace: seq<Step>)
      requires id in world.flights && world.flights[id].phase.Rejecting? && turns.AllNotBy(id)
      modifies this
      ensures world == Exec(h, old(world), trace) && id in world.flights
      ensures trace <= RejectionScript(id, later, turns)
      ensures verdict == VerdictOf(world.flights[id].phase)
      ensures (verdict.Ok? <==> world.flights[id].phase.Passed?) && (verdict.TooManyRequests? <==> world.flights[id].phase.Rejected?)
    {
      ghost var before := world;
      var ok := Call(id, Mark(id), turns.mark);
      trace := During(id, Mark(id), turns.mark);
      if !ok { return Internal, trace; }
      if world.flights[id].request.ip.None? { return TooManyRequests, trace; }
      ok := Call(id, CountRejections(id, later), turns.rejections);
      trace := Longer(h, before, trace, During(id, CountRejections(id, later), turns.rejections));
      if !ok { return Internal, trace; }
      if world.flights[id].phase.Rejected? { return TooManyRequests, trace; }
      ok := Call(id, Block(id), turns.block);
      trace := Longer(h, before, trace, During(id, Block(id), turns.block));
      verdict := if ok then TooManyRequests else Internal;
    }
  }
}
