/** Where a connection begins, when it saves the cursor, and what a clean stop leaves for the next one. */
module JetstreamCursor {
  import opened Options
  import opened Jetstream

  /** A connection with a cursor begins at the first event not older than it, one without at the end of the feed. */
  lemma ConnectionBegins(feed: Feed, w: World, id: nat, now: int, loadFails: bool)
    requires Ordered(feed) && id !in w.connections
    ensures var w' := Next(feed, w, Connect(id, now, loadFails));
            && id in w'.connections && w'.connections[id].next == w'.connections[id].from <= w.tail && !w'.connections[id].pending
            && (if loadFails || w.stored.None? then w'.connections[id].from == w.tail
                else forall e: nat :: e < w.tail ==> (w'.connections[id].from <= e <==> feed.time(e) >= w.stored.value))
  {
    if w.stored.Some? { ReplayIsInclusive(feed, w.tail, w.stored.value); }
  }

  /** An event is received exactly if there is one, and saved as the cursor exactly if it is readable and five seconds have passed. */
  lemma ReceivingSaves(feed: Feed, w: World, id: nat, now: int, saveFails: bool)
    requires id in w.connections && !w.connections[id].pending && w.connections[id].next < w.tail
    ensures var c, w' := w.connections[id], Next(feed, w, Receive(id, now, saveFails));
            var due := feed.readable(c.next) && now - c.lastSavedAt >= 5000;
            && id in w'.connections && w'.connections[id].pending && w'.connections[id].next == c.next
            && w'.stored == (if due && !saveFails then Some(feed.time(c.next)) else w.stored)
            && w'.connections[id].lastSavedAt == (if due then now else c.lastSavedAt)
            && (feed.readable(c.next) ==> now - w'.connections[id].lastSavedAt < 5000)
  {
  }

  /** A received event is handed over, and the next one is up. */
  lemma ProcessingHandsOver(feed: Feed, w: World, id: nat)
    requires id in w.connections && w.connections[id].pending
    ensures var c, w' := w.connections[id], Next(feed, w, Process(id));
            && w'.handed == w.handed + {c.next} && id in w'.connections && w'.connections[id].next == c.next + 1 && !w'.connections[id].pending
  {
  }

  /** What connections remember. */
  ghost predicate Remembers(feed: Feed, w: World) {
    forall id :: id in w.connections ==>
      var c := w.connections[id]; c.from <= c.next && LastTimeIs(feed, c.from, c.next, c.lastTime)
  }

  lemma RemembersStep(feed: Feed, w: World, step: Step)
    requires Remembers(feed, w)
    ensures Remembers(feed, Next(feed, w, step))
  {
    if step.Process? && step.id in w.connections {
      var c := w.connections[step.id];
      LastTimeMoves(feed, c.from, c.next, c.lastTime);
    }
  }

  lemma {:induction false} AlwaysRemembers(feed: Feed, steps: seq<Step>)
    ensures Remembers(feed, Exec(feed, START, steps))
  {
    if steps != [] {
      AlwaysRemembers(feed, steps[..|steps| - 1]);
      RemembersStep(feed, Exec(feed, START, steps[..|steps| - 1]), steps[|steps| - 1]);
    }
  }

  /**
   In every run: a connection that stops cleanly leaves the time of the last readable event it has processed
   as the cursor, whatever was saved before; if it has processed none, it leaves the cursor alone.
   */
  lemma StopSavesLast(feed: Feed, steps: seq<Step>, id: nat)
    requires var w := Exec(feed, START, steps); id in w.connections && !w.connections[id].pending
    ensures var w := Exec(feed, START, steps);
            var c, w' := w.connections[id], Next(feed, w, Stop(id, false));
            && id !in w'.connections
            && (forall k: nat :: c.from <= k < c.next && IsLastReadable(feed, k, c.next) ==> w'.stored == Some(feed.time(k)))
            && ((forall k: nat :: c.from <= k < c.next ==> !feed.readable(k)) ==> w'.stored == w.stored)
  {
    AlwaysRemembers(feed, steps);
  }
}
