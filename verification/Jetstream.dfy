/**
 The Jetstream cursor: what is stored, when, and what a reconnecting subscriber is sent again.

 The feed is an endless sequence of events; `tail` of them exist so far. Any number of subscribers may
 be connected at once (a leader hand-off can overlap), each may be dropped at any moment, and every
 connection starts by loading the stored cursor.
 */
module Jetstream {
  import opened Options

  const SAVE_INTERVAL := 5000   // milliseconds

  /** The feed: event times in order of delivery, and whether a message's `time_us` can be read. */
  datatype Feed = Feed(time: nat -> int, readable: nat -> bool)

  ghost predicate Ordered(feed: Feed) {
    forall i: nat, j: nat :: i <= j ==> feed.time(i) <= feed.time(j)
  }

  /** A connection: where it began, the next event it receives, whether that is received but not yet processed, and its clocks. */
  datatype Connection = Connection(from: nat, next: nat, pending: bool, lastTime: Option<int>, lastSavedAt: int)

  /**
   `live` is where the latest connection that was given no cursor joined the feed; `handed` are the
   events handed to `process_message` by anybody.
   */
  datatype World = World(tail: nat, stored: Option<int>, live: nat, handed: set<nat>, connections: map<nat, Connection>)

  const START := World(0, None, 0, {}, map[])

  datatype Step =
    | Produce
    | Connect(id: nat, now: int, loadFails: bool)
    | Receive(id: nat, now: int, saveFails: bool)
    | Process(id: nat)
    | Stop(id: nat, saveFails: bool)
    | Drop(id: nat)

  /** Inclusive replay: the first event not older than the cursor, or the end of the feed. */
  function ReplayFrom(feed: Feed, tail: nat, cursor: int): (start: nat)
    ensures start <= tail
  {
    if tail == 0 then 0
    else
      var start := ReplayFrom(feed, tail - 1, cursor);
      if start < tail - 1 || feed.time(tail - 1) >= cursor then start else tail
  }

  lemma {:induction false} ReplayIsInclusive(feed: Feed, tail: nat, cursor: int)
    requires Ordered(feed)
    ensures var start := ReplayFrom(feed, tail, cursor);
            forall i: nat :: i < tail ==> (start <= i <==> feed.time(i) >= cursor)
  {
    if tail > 0 {
      ReplayIsInclusive(feed, tail - 1, cursor);
      var start := ReplayFrom(feed, tail - 1, cursor);
      assert start < tail - 1 ==> feed.time(tail - 1) >= feed.time(start) >= cursor;
    }
  }

  function Save(stored: Option<int>, time: Option<int>, fails: bool): Option<int> {
    if time.Some? && !fails then time else stored
  }

  function TimeOf(feed: Feed, event: nat): Option<int> {
    if feed.readable(event) then Some(feed.time(event)) else None
  }

  function SaveDue(c: Connection, now: int): bool {
    now - c.lastSavedAt >= SAVE_INTERVAL
  }

  /** One step. A step that cannot be taken leaves the world as it is. */
  function Next(feed: Feed, w: World, step: Step): World {
    match step
    case Produce => w.(tail := w.tail + 1)
    case Connect(id, now, loadFails) =>
      if id in w.connections then w
      else
        // an error while loading counts as no cursor
        var cursor := if loadFails then None else w.stored;
        var start := if cursor.Some? then ReplayFrom(feed, w.tail, cursor.value) else w.tail;
        w.(connections := w.connections[id := Connection(start, start, false, None, now - SAVE_INTERVAL)],
           live := if cursor.Some? then w.live else w.tail)
    case Receive(id, now, saveFails) =>
      if id !in w.connections || w.connections[id].pending || w.connections[id].next >= w.tail then w
      else
        // the cursor is saved before the message is processed
        var c := w.connections[id];
        var due := feed.readable(c.next) && SaveDue(c, now);
        w.(stored := if due then Save(w.stored, TimeOf(feed, c.next), saveFails) else w.stored,
           connections := w.connections[id := c.(pending := true, lastSavedAt := if due then now else c.lastSavedAt)])
    case Process(id) =>
      if id !in w.connections || !w.connections[id].pending then w
      else
        var c := w.connections[id];
        var time := TimeOf(feed, c.next);
        w.(handed := w.handed + {c.next},
           connections := w.connections[id := c.(next := c.next + 1, pending := false, lastTime := Coalesce(time, c.lastTime))])
    case Stop(id, saveFails) =>
      if id !in w.connections || w.connections[id].pending then w
      else w.(stored := Save(w.stored, w.connections[id].lastTime, saveFails), connections := w.connections - {id})
    case Drop(id) => w.(connections := w.connections - {id})
  }

  function Exec(feed: Feed, w: World, steps: seq<Step>): World {
    if steps == [] then w else Next(feed, Exec(feed, w, steps[..|steps| - 1]), steps[|steps| - 1])
  }

  /** `last` is the time of the last readable event in the range, or none if there is none. */
  ghost predicate LastTimeIs(feed: Feed, from: nat, next: nat, last: Option<int>) {
    match last
    case None => forall k: nat :: from <= k < next ==> !feed.readable(k)
    case Some(time) => exists k: nat :: from <= k < next && IsLastReadable(feed, k, next) && feed.time(k) == time
  }

  ghost predicate IsLastReadable(feed: Feed, k: nat, next: nat) {
    feed.readable(k) && forall j: nat :: k < j < next ==> !feed.readable(j)
  }

  lemma LastTimeMoves(feed: Feed, from: nat, next: nat, last: Option<int>)
    requires LastTimeIs(feed, from, next, last) && from <= next
    ensures LastTimeIs(feed, from, next + 1, if feed.readable(next) then Some(feed.time(next)) else last)
  {
    if feed.readable(next) {
      assert IsLastReadable(feed, next, next + 1);
    } else if last.Some? {
      var k: nat :| from <= k < next && IsLastReadable(feed, k, next) && feed.time(k) == last.value;
      assert IsLastReadable(feed, k, next + 1);
    }
  }

  /** Everything older than `time` since `live` has been handed over. */
  ghost predicate Covered(feed: Feed, w: World, time: int) {
    forall i: nat :: w.live <= i < w.tail && feed.time(i) < time ==> i in w.handed
  }

  ghost predicate ConnectionSafe(feed: Feed, w: World, c: Connection) {
    && c.next <= w.tail && (c.pending ==> c.next < w.tail)
    && (forall i: nat :: w.live <= i < c.next ==> i in w.handed)
    && (c.lastTime.Some? ==> exists k: nat :: k < c.next && feed.time(k) == c.lastTime.value)
  }

  ghost predicate Safe(feed: Feed, w: World) {
    && w.live <= w.tail
    && (w.stored.Some? ==> Covered(feed, w, w.stored.value) && exists k: nat :: k < w.tail && feed.time(k) == w.stored.value)
    && (forall id :: id in w.connections ==> ConnectionSafe(feed, w, w.connections[id]))
  }

  lemma ConnectSafe(feed: Feed, w: World, id: nat, now: int, loadFails: bool)
    requires Ordered(feed) && Safe(feed, w)
    ensures Safe(feed, Next(feed, w, Connect(id, now, loadFails)))
  {
    if w.stored.Some? { ReplayIsInclusive(feed, w.tail, w.stored.value); }
  }

  lemma ReceiveSafe(feed: Feed, w: World, id: nat, now: int, saveFails: bool)
    requires Ordered(feed) && Safe(feed, w)
    ensures Safe(feed, Next(feed, w, Receive(id, now, saveFails)))
  {
  }

  lemma ProcessSafe(feed: Feed, w: World, id: nat)
    requires Ordered(feed) && Safe(feed, w)
    ensures Safe(feed, Next(feed, w, Process(id)))
  {
  }

  lemma StopSafe(feed: Feed, w: World, id: nat, saveFails: bool)
    requires Ordered(feed) && Safe(feed, w)
    ensures Safe(feed, Next(feed, w, Stop(id, saveFails)))
  {
  }

  lemma SafeStep(feed: Feed, w: World, step: Step)
    requires Ordered(feed) && Safe(feed, w)
    ensures Safe(feed, Next(feed, w, step))
  {
    match step
    case Connect(id, now, loadFails) => ConnectSafe(feed, w, id, now, loadFails);
    case Receive(id, now, saveFails) => ReceiveSafe(feed, w, id, now, saveFails);
    case Process(id) => ProcessSafe(feed, w, id);
    case Stop(id, saveFails) => StopSafe(feed, w, id, saveFails);
    case Produce =>
    case Drop(_) =>
  }

  lemma {:induction false} AlwaysSafe(feed: Feed, w: World, steps: seq<Step>)
    requires Ordered(feed) && Safe(feed, w)
    ensures Safe(feed, Exec(feed, w, steps))
  {
    if steps != [] {
      AlwaysSafe(feed, w, steps[..|steps| - 1]);
      SafeStep(feed, Exec(feed, w, steps[..|steps| - 1]), steps[|steps| - 1]);
    }
  }

  /**
   Whatever crashes, reconnects and overlaps happen: an event that came in after the latest cursorless
   connection and is strictly older than the stored cursor has been handed to `process_message`.
   */
  lemma OlderThanCursorIsHanded(feed: Feed, steps: seq<Step>, event: nat)
    requires Ordered(feed)
    ensures var w := Exec(feed, START, steps);
            w.live <= event < w.tail && w.stored.Some? && feed.time(event) < w.stored.value ==> event in w.handed
  {
    AlwaysSafe(feed, START, steps);
  }

  /** So a connection that loads the cursor is sent again everything not handed over yet. */
  lemma ReconnectResumes(feed: Feed, steps: seq<Step>, id: nat, now: int, event: nat)
    requires Ordered(feed)
    requires var w := Exec(feed, START, steps);
             w.stored.Some? && id !in w.connections && w.live <= event < w.tail && event !in w.handed
    ensures var w' := Next(feed, Exec(feed, START, steps), Connect(id, now, false));
            w'.connections[id].next <= event && w'.live == Exec(feed, START, steps).live
  {
    AlwaysSafe(feed, START, steps);
    var w := Exec(feed, START, steps);
    ReplayIsInclusive(feed, w.tail, w.stored.value);
  }

  ghost predicate LoadsSucceed(steps: seq<Step>) {
    forall k :: 0 <= k < |steps| && steps[k].Connect? ==> !steps[k].loadFails
  }

  /** Once a cursor is stored the guarantee never narrows again, provided no load of the cursor fails. */
  lemma {:induction false} LiveStaysWhileLoadsSucceed(feed: Feed, w: World, steps: seq<Step>)
    requires w.stored.Some? && LoadsSucceed(steps)
    ensures Exec(feed, w, steps).live == w.live && Exec(feed, w, steps).stored.Some?
  {
    if steps != [] { LiveStaysWhileLoadsSucceed(feed, w, steps[..|steps| - 1]); }
  }

  /* ------------------------------- when a load of the cursor fails ------------------------------- */

  /** No connection can still be sent the event, and the stored cursor has passed it. */
  ghost predicate Lost(feed: Feed, w: World, event: nat) {
    && event < w.tail && event !in w.handed
    && w.stored.Some? && feed.time(event) < w.stored.value
    && (forall id :: id in w.connections ==>
          && w.connections[id].next > event && feed.time(w.connections[id].next) > feed.time(event)
          && (w.connections[id].lastTime.Some? ==> w.connections[id].lastTime.value > feed.time(event)))
  }

  lemma LostStep(feed: Feed, w: World, step: Step, event: nat)
    requires Ordered(feed) && Safe(feed, w) && Lost(feed, w, event)
    ensures Lost(feed, Next(feed, w, step), event)
  {
    if step.Connect? {
      LostConnect(feed, w, step, event);
    } else if step.Process? && step.id in w.connections {
      var c := w.connections[step.id];
      assert feed.time(c.next + 1) >= feed.time(c.next);
    }
  }

  lemma LostConnect(feed: Feed, w: World, step: Step, event: nat)
    requires Ordered(feed) && Safe(feed, w) && Lost(feed, w, event) && step.Connect?
    ensures Lost(feed, Next(feed, w, step), event)
  {
    ReplayIsInclusive(feed, w.tail, w.stored.value);
    var k: nat :| k < w.tail && feed.time(k) == w.stored.value;
    assert feed.time(w.tail) >= feed.time(k);
  }

  /** A lost event is never processed, whatever happens afterwards. */
  lemma {:induction false} LostForever(feed: Feed, w: World, steps: seq<Step>, event: nat)
    requires Ordered(feed) && Safe(feed, w) && Lost(feed, w, event)
    ensures Lost(feed, Exec(feed, w, steps), event)
  {
    if steps != [] {
      LostForever(feed, w, steps[..|steps| - 1], event);
      AlwaysSafe(feed, w, steps[..|steps| - 1]);
      LostStep(feed, Exec(feed, w, steps[..|steps| - 1]), steps[|steps| - 1], event);
    }
  }

  lemma ExecOneMore(feed: Feed, w: World, steps: seq<Step>, step: Step)
    ensures Exec(feed, w, steps + [step]) == Next(feed, Exec(feed, w, steps), step)
  {
    assert (steps + [step])[..|steps|] == steps;
  }

  /* A failed load is harmless exactly if nothing is outstanding. */

  /** Of the events that came in between `live` and `tail`, those older than the stored cursor have been handed over. */
  ghost predicate Promised(feed: Feed, live: nat, tail: nat, w: World) {
    w.stored.Some? ==> forall e: nat :: live <= e < tail && feed.time(e) < w.stored.value ==> e in w.handed
  }

  /** The promise holds in every continuation in which the cursor is always loaded. */
  ghost predicate StaysPromised(feed: Feed, live: nat, tail: nat, w: World) {
    forall steps :: LoadsSucceed(steps) ==> Promised(feed, live, tail, Exec(feed, w, steps))
  }

  lemma {:induction false} HandedGrows(feed: Feed, w: World, steps: seq<Step>)
    ensures w.handed <= Exec(feed, w, steps).handed
  {
    if steps != [] { HandedGrows(feed, w, steps[..|steps| - 1]); }
  }

  /** A connection at the end of the feed can go on to event `k` without a save being due. */
  lemma {:induction false} GoesOnTo(feed: Feed, w: World, id: nat, k: nat) returns (steps: seq<Step>)
    requires id in w.connections && !w.connections[id].pending && w.connections[id].next == w.tail <= k
    ensures LoadsSucceed(steps)
    ensures var w' := Exec(feed, w, steps);
            && w'.tail == k && id in w'.connections && !w'.connections[id].pending && w'.connections[id].next == k
            && w'.connections[id].lastSavedAt == w.connections[id].lastSavedAt
            && forall e: nat :: e < w.tail ==> (e in w'.handed <==> e in w.handed)
  {
    if k == w.tail {
      steps := [];
    } else {
      steps := GoesOnTo(feed, w, id, k - 1);
      var receive := Receive(id, w.connections[id].lastSavedAt, false);
      ExecOneMore(feed, w, steps, Produce);
      ExecOneMore(feed, w, steps + [Produce], receive);
      ExecOneMore(feed, w, steps + [Produce] + [receive], Process(id));
      steps := steps + [Produce] + [receive] + [Process(id)];
    }
  }

  /** And there its save is due: the cursor jumps over everything before it. */
  lemma SavesAt(feed: Feed, w: World, id: nat, now: int, k: nat) returns (steps: seq<Step>)
    requires id in w.connections && w.connections[id] == Connection(w.tail, w.tail, false, None, now - SAVE_INTERVAL)
    requires w.tail <= k && feed.readable(k)
    ensures LoadsSucceed(steps) && Exec(feed, w, steps).stored == Some(feed.time(k))
    ensures forall e: nat :: e < w.tail ==> (e in Exec(feed, w, steps).handed <==> e in w.handed)
  {
    steps := GoesOnTo(feed, w, id, k);
    ExecOneMore(feed, w, steps, Produce);
    ExecOneMore(feed, w, steps + [Produce], Receive(id, now, false));
    steps := steps + [Produce] + [Receive(id, now, false)];
  }

  /**
   The exact condition, in any state, for a connection whose load of the cursor fails while the feed goes
   on to some readable event `newer` than all before: whatever happens next, as long as later loads
   succeed, no event is passed over - if and only if everything that came in since the last cursorless
   connection had been handed over when the load failed.
   */
  lemma FailedLoadIsHarmlessExactly(feed: Feed, w: World, id: nat, now: int, newer: nat)
    requires id !in w.connections
    requires w.tail <= newer && feed.readable(newer) && forall e: nat :: e < w.tail ==> feed.time(e) < feed.time(newer)
    ensures StaysPromised(feed, w.live, w.tail, Next(feed, w, Connect(id, now, true)))
       <==> forall e: nat :: w.live <= e < w.tail ==> e in w.handed
  {
    var w' := Next(feed, w, Connect(id, now, true));
    if StaysPromised(feed, w.live, w.tail, w') {
      var steps := SavesAt(feed, w', id, now, newer);
      assert Promised(feed, w.live, w.tail, Exec(feed, w', steps));
    }
    if forall e: nat :: w.live <= e < w.tail ==> e in w.handed {
      forall steps | LoadsSucceed(steps)
        ensures Promised(feed, w.live, w.tail, Exec(feed, w', steps))
      {
        HandedGrows(feed, w', steps);
      }
    }
  }

  /** With the cursor loaded instead, nothing is ever passed over, outstanding or not. */
  lemma LoadedCursorKeepsPromise(feed: Feed, w: World, id: nat, now: int)
    requires Ordered(feed) && Safe(feed, w) && w.stored.Some?
    ensures StaysPromised(feed, w.live, w.tail, Next(feed, w, Connect(id, now, false)))
  {
    ConnectSafe(feed, w, id, now, false);
    var w' := Next(feed, w, Connect(id, now, false));
    forall steps | LoadsSucceed(steps)
      ensures Promised(feed, w.live, w.tail, Exec(feed, w', steps))
    {
      AlwaysSafe(feed, w', steps);
      LiveStaysWhileLoadsSucceed(feed, w', steps);
      TailGrows(feed, w', steps);
    }
  }

  lemma {:induction false} TailGrows(feed: Feed, w: World, steps: seq<Step>)
    ensures w.tail <= Exec(feed, w, steps).tail
  {
    if steps != [] { TailGrows(feed, w, steps[..|steps| - 1]); }
  }

  /** An instance: an outage with one event in it, and a reconnect whose load of the cursor fails. */
  const OUTAGE: seq<Step> :=
    [Connect(1, 0, false), Produce, Receive(1, 0, false), Process(1), Drop(1),
     Produce,
     Connect(2, 9000, true), Produce, Receive(2, 9000, false)]

  lemma FailedLoadLosesAnEvent(feed: Feed)
    requires Ordered(feed) && feed.time(0) < feed.time(1) < feed.time(2) && (forall i :: feed.readable(i))
    ensures Lost(feed, Exec(feed, START, OUTAGE), 1)
  {
    ExecOneMore(feed, START, OUTAGE[..0], OUTAGE[0]); assert OUTAGE[..0] + [OUTAGE[0]] == OUTAGE[..1];
    ExecOneMore(feed, START, OUTAGE[..1], OUTAGE[1]); assert OUTAGE[..1] + [OUTAGE[1]] == OUTAGE[..2];
    ExecOneMore(feed, START, OUTAGE[..2], OUTAGE[2]); assert OUTAGE[..2] + [OUTAGE[2]] == OUTAGE[..3];
    ExecOneMore(feed, START, OUTAGE[..3], OUTAGE[3]); assert OUTAGE[..3] + [OUTAGE[3]] == OUTAGE[..4];
    ExecOneMore(feed, START, OUTAGE[..4], OUTAGE[4]); assert OUTAGE[..4] + [OUTAGE[4]] == OUTAGE[..5];
    ExecOneMore(feed, START, OUTAGE[..5], OUTAGE[5]); assert OUTAGE[..5] + [OUTAGE[5]] == OUTAGE[..6];
    ExecOneMore(feed, START, OUTAGE[..6], OUTAGE[6]); assert OUTAGE[..6] + [OUTAGE[6]] == OUTAGE[..7];
    ExecOneMore(feed, START, OUTAGE[..7], OUTAGE[7]); assert OUTAGE[..7] + [OUTAGE[7]] == OUTAGE[..8];
    ExecOneMore(feed, START, OUTAGE[..8], OUTAGE[8]); assert OUTAGE[..8] + [OUTAGE[8]] == OUTAGE;
  }
}
