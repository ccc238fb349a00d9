/** The receive loop of one Jetstream connection, as the program writes it, with the rest of the deployment at work in between. */
module JetstreamClient {
  import opened Options
  import opened Jetstream

  /** What wakes the loop up: the branches of its `select!`. */
  datatype Wake =
    | Text(now: int, saveFails: bool)     // the next event of the feed
    | OtherMessage                        // a frame that is not text
    | ReceiveError
    | Closed
    | StopFired(saveFails: bool)
    | WantedDidsChanged

  /** Before a wake-up: new events, and steps of other subscribers. */
  datatype Turn = Turn(others: seq<Step>, wake: Wake)

  datatype Ending = Listening | Returned | Failed

  /** The steps of the world a wake-up stands for. */
  function StepsOf(id: nat, wake: Wake): seq<Step> {
    match wake
    case Text(now, saveFails) => [Receive(id, now, saveFails), Process(id)]
    case StopFired(saveFails) => [Stop(id, saveFails)]
    case OtherMessage => []
    case _ => [Drop(id)]
  }

  function Ends(wake: Wake): Ending {
    match wake
    case Text(_, _) => Listening
    case OtherMessage => Listening
    case ReceiveError => Failed
    case _ => Returned
  }

  function Script(id: nat, turns: seq<Turn>): seq<Step> {
    if turns == [] then []
    else
      var last := turns[|turns| - 1];
      Script(id, turns[..|turns| - 1]) + last.others + StepsOf(id, last.wake)
  }

  predicate NotBy(id: nat, steps: seq<Step>) {
    forall k :: 0 <= k < |steps| ==> steps[k].Produce? || steps[k].id != id
  }

  lemma {:induction false} OthersLeaveIt(feed: Feed, w: World, steps: seq<Step>, id: nat)
    requires NotBy(id, steps)
    ensures var w' := Exec(feed, w, steps);
            && (id in w'.connections <==> id in w.connections) && (id in w.connections ==> w'.connections[id] == w.connections[id])
            && w.tail <= w'.tail && w.handed <= w'.handed
  {
    if steps != [] { OthersLeaveIt(feed, w, steps[..|steps| - 1], id); }
  }

  lemma {:induction false} ExecConcat(feed: Feed, w: World, a: seq<Step>, b: seq<Step>)
    ensures Exec(feed, w, a + b) == Exec(feed, Exec(feed, w, a), b)
  {
    if b == [] {
      assert a + b == a;
    } else {
      assert (a + b)[..|a + b| - 1] == a + b[..|b| - 1];
      ExecConcat(feed, w, a, b[..|b| - 1]);
    }
  }

  lemma ExecFew(feed: Feed, w: World, a: Step, b: Step)
    ensures Exec(feed, w, [a]) == Next(feed, w, a)
    ensures Exec(feed, w, [a, b]) == Next(feed, Next(feed, w, a), b)
  {
    assert [a][..0] == [] && [a, b][..1] == [a];
    assert Exec(feed, w, [a]) == Next(feed, Exec(feed, w, []), a);
  }

  lemma ScriptOneMore(feed: Feed, w: World, id: nat, turns: seq<Turn>, used: nat)
    requires used < |turns|
    ensures Exec(feed, w, Script(id, turns[..used + 1]))
         == Exec(feed, Exec(feed, Exec(feed, w, Script(id, turns[..used])), turns[used].others), StepsOf(id, turns[used].wake))
  {
    assert turns[..used + 1][..used] == turns[..used];
    ExecConcat(feed, w, Script(id, turns[..used]), turns[used].others);
    ExecConcat(feed, w, Script(id, turns[..used]) + turns[used].others, StepsOf(id, turns[used].wake));
  }

  /** The `n` events from `start` on have been handed over. */
  ghost predicate HandedRun(handed: set<nat>, start: nat, n: nat) {
    forall event: nat :: start <= event < start + n ==> event in handed
  }

  /** The state of a listening client: connected, with `n` events processed since `start`. */
  ghost predicate Listens(w: World, id: nat, start: nat, n: nat, last: Option<int>, savedAt: int) {
    id in w.connections && w.connections[id] == Connection(start, start + n, false, last, savedAt)
  }

  /** The wake-ups used so far: all but the last one went on listening. */
  predicate Used(turns: seq<Turn>, used: nat, ending: Ending) {
    && used <= |turns|
    && ending == (if used == 0 then Listening else Ends(turns[used - 1].wake))
    && forall k :: 0 <= k < used - 1 ==> Ends(turns[k].wake) == Listening
  }

  /** The world after the first `used` wake-ups. */
  ghost predicate Reached(feed: Feed, w: World, id: nat, turns: seq<Turn>, used: nat, now: World) {
    used <= |turns| && now == Exec(feed, w, Script(id, turns[..used]))
  }

  /** The cursor is the time of the last readable one of the `n` events from `start` on, if there is one. */
  ghost predicate AtLast(feed: Feed, start: nat, n: nat, stored: Option<int>) {
    forall k: nat :: start <= k < start + n && feed.readable(k) && (forall j: nat :: k < j < start + n ==> !feed.readable(j)) ==>
      stored == Some(feed.time(k))
  }

  /** A clean stop has left the cursor at the last of the events handed over. */
  ghost predicate StoppedAtLast(feed: Feed, start: nat, n: nat, turns: seq<Turn>, used: nat, stored: Option<int>) {
    0 < used <= |turns| && turns[used - 1].wake == StopFired(false) ==> AtLast(feed, start, n, stored)
  }

  /** One round of the loop. */
  lemma RoundDone(feed: Feed, w: World, now: World, now': World, id: nat, turns: seq<Turn>, used: nat, start: nat, n: nat, more: bool)
    requires used < |turns| && Reached(feed, w, id, turns, used, now) && Used(turns, used, Listening)
    requires now' == Exec(feed, Exec(feed, now, turns[used].others), StepsOf(id, turns[used].wake))
    requires HandedRun(now.handed, start, n) && now.handed <= now'.handed && (more ==> start + n in now'.handed)
    ensures Reached(feed, w, id, turns, used + 1, now') && Used(turns, used + 1, Ends(turns[used].wake))
    ensures HandedRun(now'.handed, start, if more then n + 1 else n)
  {
    ScriptOneMore(feed, w, id, turns, used);
    UsedOneMore(turns, used);
    HandedOneMore(now.handed, now'.handed, start, n, more);
  }

  lemma UsedOneMore(turns: seq<Turn>, used: nat)
    requires Used(turns, used, Listening) && used < |turns|
    ensures Used(turns, used + 1, Ends(turns[used].wake))
  {
  }

  lemma HandedOneMore(handed: set<nat>, handed': set<nat>, start: nat, n: nat, more: bool)
    requires HandedRun(handed, start, n) && handed <= handed' && (more ==> start + n in handed')
    ensures HandedRun(handed', start, if more then n + 1 else n)
  {
  }

  class Deployment {
    const feed: Feed
    var world: World

    constructor (f: Feed)
      ensures feed == f && world == START
    {
      feed, world := f, START;
    }

    method Others(steps: seq<Step>)
      modifies this
      ensures world == Exec(feed, old(world), steps)
    {
      world := Exec(feed, world, steps);
    }

    /** The value under `jetstream_cursor` in `site_settings`; a failed write is logged and otherwise ignored. */
    method SaveCursor(timeUs: int, fails: bool)
      modifies this
      ensures world == old(world).(stored := if fails then old(world).stored else Some(timeUs))
    {
      if !fails {
        world := world.(stored := Some(timeUs));
      }
    }

    /** A text message: save the cursor if that is due, hand the event over, remember its time. */
    method OnText(id: nat, at: int, saveFails: bool, last: Option<int>, savedAt: int) returns (lastTimeUs: Option<int>, lastSavedAt: int)
      requires id in world.connections && world.connections[id].next < world.tail && !world.connections[id].pending
      requires world.connections[id].lastTime == last && world.connections[id].lastSavedAt == savedAt
      modifies this
      ensures world == Next(feed, Next(feed, old(world), Receive(id, at, saveFails)), Process(id))
      ensures var c := old(world).connections[id];
              var due := feed.readable(c.next) && at - savedAt >= SAVE_INTERVAL;
              && id in world.connections && world.connections[id] == Connection(c.from, c.next + 1, false, lastTimeUs, lastSavedAt)
              && world.handed == old(world).handed + {c.next}
              && world.stored == (if due && !saveFails then Some(feed.time(c.next)) else old(world).stored)
              && lastTimeUs == (if feed.readable(c.next) then Some(feed.time(c.next)) else last)
              && lastSavedAt == if due then at else savedAt
    {
      lastTimeUs, lastSavedAt := last, savedAt;
      ghost var c := world.connections[id];
      var event := world.connections[id].next;
      var timeUs := TimeOf(feed, event);
      if timeUs.Some? && at - lastSavedAt >= SAVE_INTERVAL {
        SaveCursor(timeUs.value, saveFails);
        lastSavedAt := at;
      }
      world := world.(handed := world.handed + {event});
      if timeUs.Some? {
        lastTimeUs := timeUs;
      }
      world := world.(connections := world.connections[id := Connection(world.connections[id].from, event + 1, false, lastTimeUs, lastSavedAt)]);
    }

    /** The connection ends; a stop saves the time of the last event processed. */
    method Leave(id: nat, wake: Wake, lastTimeUs: Option<int>)
      requires Ends(wake) != Listening && id in world.connections
      requires !world.connections[id].pending && world.connections[id].lastTime == lastTimeUs
      modifies this
      ensures world == Exec(feed, old(world), StepsOf(id, wake)) && world.handed == old(world).handed
      ensures world.stored == if wake == StopFired(false) && lastTimeUs.Some? then lastTimeUs else old(world).stored
    {
      ExecFew(feed, world, StepsOf(id, wake)[0], Produce);
      if wake.StopFired? && lastTimeUs.Some? {
        SaveCursor(lastTimeUs.value, wake.saveFails);
      }
      world := world.(connections := world.connections - {id});
    }

    /**
     One wake-up of a listening client, which returns what it remembers. A text message carries an event
     that exists; before the next one does, nothing is received.
     */
    method WakeUp(id: nat, turn: Turn, start: nat, n: nat, last: Option<int>, savedAt: int)
      returns (handedOver: bool, lastTimeUs: Option<int>, lastSavedAt: int)
      requires NotBy(id, turn.others) && Listens(world, id, start, n, last, savedAt)
      modifies this
      ensures world == Exec(feed, Exec(feed, old(world), turn.others), StepsOf(id, turn.wake)) && old(world).handed <= world.handed
      ensures handedOver ==> turn.wake.Text? && start + n in world.handed
      ensures turn.wake.Text? && start + n < old(world).tail ==> handedOver
      ensures lastTimeUs == if handedOver && feed.readable(start + n) then Some(feed.time(start + n)) else last
      ensures Ends(turn.wake) == Listening ==> Listens(world, id, start, if handedOver then n + 1 else n, lastTimeUs, lastSavedAt)
      ensures turn.wake == StopFired(false) && last.Some? ==> world.stored == last
    {
      OthersLeaveIt(feed, world, turn.others, id);
      Others(turn.others);
      handedOver, lastTimeUs, lastSavedAt := false, last, savedAt;
      match turn.wake {
        case Text(at, saveFails) =>
          ExecFew(feed, world, Receive(id, at, saveFails), Process(id));
          if world.connections[id].next < world.tail {
            handedOver := true;
            lastTimeUs, lastSavedAt := OnText(id, at, saveFails, last, savedAt);
          }
        case OtherMessage =>
        case _ => Leave(id, turn.wake, last);
      }
    }

    /**
     `connect_and_process` after the connection stands: the loop of a client connected as `id`. It uses up
     wake-ups until one ends it; the events it hands over are those from `start` on, in order; a clean stop
     leaves the cursor at the last of them; and the world is the one its steps and those of the others lead to.
     */
    method ConnectAndProcess(id: nat, start: nat, connectedAt: int, turns: seq<Turn>)
      returns (processed: nat, used: nat, ending: Ending)
      requires Listens(world, id, start, 0, None, connectedAt - SAVE_INTERVAL)
      requires forall k :: 0 <= k < |turns| ==> NotBy(id, turns[k].others)
      modifies this
      ensures Used(turns, used, ending) && processed <= used
      ensures ending == Listening ==> used == |turns|
      ensures Reached(feed, old(world), id, turns, used, world)
      ensures old(world).handed <= world.handed && HandedRun(world.handed, start, processed)
      ensures StoppedAtLast(feed, start, processed, turns, used, world.stored)
      ensures ending == Listening ==> id in world.connections && world.connections[id].next == start + processed
    {
      ghost var before := world;
      var lastSavedAt := connectedAt - SAVE_INTERVAL;
      var lastTimeUs: Option<int> := None;
      processed, used, ending := 0, 0, Listening;
      while used < |turns| && ending == Listening
        invariant Used(turns, used, ending) && processed <= used
        invariant Reached(feed, before, id, turns, used, world)
        invariant before.handed <= world.handed && HandedRun(world.handed, start, processed)
        invariant LastTimeIs(feed, start, start + processed, lastTimeUs)
        invariant StoppedAtLast(feed, start, processed, turns, used, world.stored)
        invariant ending == Listening ==> Listens(world, id, start, processed, lastTimeUs, lastSavedAt)
      {
        ghost var now, last := world, lastTimeUs;
        var handedOver;
        handedOver, lastTimeUs, lastSavedAt := WakeUp(id, turns[used], start, processed, lastTimeUs, lastSavedAt);
        RoundDone(feed, before, now, world, id, turns, used, start, processed, handedOver);
        Remembered(feed, start, processed, last, lastTimeUs, handedOver);
        StopIsAtLast(feed, start, processed, last, turns[used].wake, world.stored);
        processed := if handedOver then processed + 1 else processed;
        ending := Ends(turns[used].wake);
        used := used + 1;
      }
    }
  }

  /** A receive error is a failure; a message leaves the client listening; everything else is a regular return. */
  lemma EndingIs(turns: seq<Turn>, used: nat, ending: Ending)
    requires Used(turns, used, ending)
    ensures ending == Failed <==> used > 0 && turns[used - 1].wake == ReceiveError
    ensures ending == Listening <==> used == 0 || turns[used - 1].wake.Text? || turns[used - 1].wake == OtherMessage
  {
  }

  lemma StopIsAtLast(feed: Feed, start: nat, n: nat, last: Option<int>, wake: Wake, stored: Option<int>)
    requires wake == StopFired(false) ==> LastTimeIs(feed, start, start + n, last) && (last.Some? ==> stored == last)
    ensures wake == StopFired(false) ==> AtLast(feed, start, n, stored)
  {
  }

  /** What the loop remembers after a round is again the time of the last readable event. */
  lemma Remembered(feed: Feed, start: nat, n: nat, last: Option<int>, last': Option<int>, more: bool)
    requires LastTimeIs(feed, start, start + n, last)
    requires last' == if more && feed.readable(start + n) then Some(feed.time(start + n)) else last
    ensures LastTimeIs(feed, start, start + if more then n + 1 else n, last')
  {
    LastTimeMoves(feed, start, start + n, last);
  }
}
