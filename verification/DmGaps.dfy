/**
 When the import of a conversation gets a gap, and that a gap stays: exactly the polls that move the cursor
 over messages they have not fetched.
 */
module DmGaps {
  import opened Options
  import opened DmSync

  /** The cursor stands right behind message `c - 1`, or, before the first import, at the beginning. */
  ghost predicate CursorAt(w: World, c: nat) {
    && c <= |w.server|
    && if w.convo.cursor.None? then c == 0 else c > 0 && w.convo.cursor == Some(w.server[c - 1].id) && w.convo.hasRoot
  }

  /** A message of the peer that the cursor has passed without importing it. */
  ghost predicate Skipped(w: World, j: nat) {
    exists c: nat :: CursorAt(w, c) && j < c && !w.server[j].mine && w.server[j].id !in w.convo.imported
  }

  lemma CursorIsOne(w: World, a: nat, b: nat)
    requires DistinctIds(w.server) && CursorAt(w, a) && CursorAt(w, b)
    ensures a == b
  {
  }

  /** Where a poll fetches from, and how far it gets. */
  function From(w: World): nat { FetchFrom(w.server, w.convo.cursor) }

  function To(w: World, failsAt: nat): nat {
    if From(w) <= |w.server| && failsAt < |w.server| - From(w) then From(w) + failsAt else |w.server|
  }

  lemma FetchIsBehindCursor(w: World, c: nat)
    requires DistinctIds(w.server) && CursorAt(w, c)
    ensures c <= From(w) <= |w.server|
  {
    if w.convo.cursor.Some? { ScanStopsAtCursor(w.server, PageStart(|w.server|), |w.server|, c); }
  }

  lemma PollHandles(w: World, failsAt: nat)
    ensures From(w) <= To(w, failsAt) <= |w.server|
    ensures Next(w, Poll(failsAt)) == w.(convo := HandleAll(w.convo, w.server[From(w)..To(w, failsAt)]))
  {
    var from, to := From(w), To(w, failsAt);
    assert w.server[from..][..to - from] == w.server[from..to];
    assert w.server[from..] == w.server[from..|w.server|];
  }

  /** Does the poll move the cursor? One's own messages alone do not start a thread. */
  predicate Moves(w: World, failsAt: nat) {
    var from, to := From(w), To(w, failsAt);
    from < to <= |w.server| && (w.convo.hasRoot || PeerIds(w.server[from..to]) != [])
  }

  lemma PollMovesCursor(w: World, c: nat, failsAt: nat)
    requires DistinctIds(w.server) && CursorAt(w, c)
    ensures var w' := Next(w, Poll(failsAt));
            if Moves(w, failsAt) then CursorAt(w', To(w, failsAt)) else CursorAt(w', c) && w'.convo == w.convo
  {
    PollHandles(w, failsAt);
    var ms := w.server[From(w)..To(w, failsAt)];
    HandleMovesCursor(w.convo, ms);
  }

  /** Handling messages imports those of the peer among them and nothing else. */
  lemma {:induction false} HandleAddsOnly(c: Convo, ms: seq<Message>)
    ensures forall id :: id in HandleAll(c, ms).imported <==> id in c.imported || id in PeerIds(ms)
  {
    if ms != [] { HandleAddsOnly(c, ms[..|ms| - 1]); }
  }

  lemma NotAmong(h: seq<Message>, j: nat, from: nat, to: nat)
    requires DistinctIds(h) && j < from <= to <= |h|
    ensures h[j].id !in PeerIds(h[from..to])
  {
    var ms := h[from..to];
    PeerIdsComeFrom(ms, |ms|);
    assert ms[..|ms|] == ms;
    forall i | 0 <= i < |ms|
      ensures ms[i].id != h[j].id
    {
      assert ms[i] == h[from + i];
    }
  }

  /** A skipped message stays skipped, whatever step follows. */
  lemma SkippedStays(w: World, step: Step, j: nat)
    requires DistinctIds(w.server) && Skipped(w, j)
    ensures Skipped(Next(w, step), j)
  {
    var c: nat :| CursorAt(w, c) && j < c && !w.server[j].mine && w.server[j].id !in w.convo.imported;
    var w' := Next(w, step);
    if step.Poll? {
      FetchIsBehindCursor(w, c);
      PollHandles(w, step.failsAt);
      PollMovesCursor(w, c, step.failsAt);
      HandleAddsOnly(w.convo, w.server[From(w)..To(w, step.failsAt)]);
      NotAmong(w.server, j, From(w), To(w, step.failsAt));
      assert CursorAt(w', if Moves(w, step.failsAt) then To(w, step.failsAt) else c);
    } else {
      assert CursorAt(w', c);
    }
  }

  /** And so it is never imported, whatever polls, arrivals and sends follow. */
  lemma {:induction false} SkippedForGood(w: World, steps: seq<Step>, j: nat)
    requires DistinctIds(w.server) && Skipped(w, j)
    ensures DistinctIds(Exec(w, steps).server) && Skipped(Exec(w, steps), j)
    ensures j < |Exec(w, steps).server| && Exec(w, steps).server[j].id !in Exec(w, steps).convo.imported
  {
    if steps != [] {
      SkippedForGood(w, steps[..|steps| - 1], j);
      SkippedStays(Exec(w, steps[..|steps| - 1]), steps[|steps| - 1], j);
    }
  }

  lemma {:induction false} PeerIsAmong(h: seq<Message>, k: nat, j: nat)
    requires j < k <= |h| && !h[j].mine
    ensures h[j].id in PeerIds(h[..k])
  {
    assert h[..k][..k - 1] == h[..k - 1];
    if j < k - 1 { PeerIsAmong(h, k - 1, j); }
  }

  lemma SyncedSkipsNothing(w: World, k: nat, j: nat)
    requires DistinctIds(w.server) && SyncedTo(w, k)
    ensures !Skipped(w, j)
  {
    assert CursorAt(w, k);
    if Skipped(w, j) {
      var c: nat :| CursorAt(w, c) && j < c && !w.server[j].mine && w.server[j].id !in w.convo.imported;
      CursorIsOne(w, c, k);
      PeerIsAmong(w.server, k, j);
    }
  }

  /** A poll that moves the cursor although the peer sent something between cursor and fetch start. */
  ghost predicate Jumps(w: World, step: Step) {
    step.Poll? && Moves(w, step.failsAt) && exists c: nat :: CursorAt(w, c) && c <= From(w) && PeerIds(w.server[c..From(w)]) != []
  }

  lemma {:induction false} PeerAmongRange(h: seq<Message>, c: nat, from: nat) returns (j: nat)
    requires c <= from <= |h| && PeerIds(h[c..from]) != []
    ensures c <= j < from && !h[j].mine
  {
    assert h[c..from][..from - c - 1] == h[c..from - 1];
    if h[from - 1].mine { j := PeerAmongRange(h, c, from - 1); } else { j := from - 1; }
  }

  /** A jump skips a message. */
  lemma JumpSkips(w: World, k: nat, step: Step) returns (j: nat)
    requires DistinctIds(w.server) && SyncedTo(w, k) && Jumps(w, step)
    ensures Skipped(Next(w, step), j)
  {
    var c: nat :| CursorAt(w, c) && c <= From(w) && PeerIds(w.server[c..From(w)]) != [];
    CursorIsOne(w, c, k);
    j := PeerAmongRange(w.server, k, From(w));
    var w' := Next(w, step);
    PollHandles(w, step.failsAt);
    PollMovesCursor(w, k, step.failsAt);
    HandleAddsOnly(w.convo, w.server[From(w)..To(w, step.failsAt)]);
    NotAmong(w.server, j, From(w), To(w, step.failsAt));
    NotImportedYet(w.server, k, j);
    assert CursorAt(w', To(w, step.failsAt));
  }

  /** Handling from `from` on, with nothing of the peer before it, is handling everything. */
  lemma NothingBetween(h: seq<Message>, c: Convo, k: nat, from: nat, to: nat)
    requires DistinctIds(h) && k <= from <= to <= |h| && c.imported == PeerIds(h[..k]) && PeerIds(h[k..from]) == []
    ensures HandleAll(c, h[from..to]).imported == PeerIds(h[..to])
  {
    HandleImportsRange(h, c, k, from, to);
    PeerIdsSkip(h, k, from, to);
  }

  lemma PeerIdsSkip(h: seq<Message>, k: nat, from: nat, to: nat)
    requires k <= from <= to <= |h| && PeerIds(h[k..from]) == []
    ensures PeerIds(h[..to]) == PeerIds(h[..k]) + PeerIds(h[from..to])
  {
    var a, b, c := h[..k], h[k..from], h[from..to];
    assert h[..to] == a + b + c;
    PeerIdsInThree(a, b, c);
  }

  /** A poll that does not jump keeps the import without a gap. */
  lemma NoJumpStaysSynced(w: World, k: nat, step: Step) returns (k': nat)
    requires DistinctIds(w.server) && SyncedTo(w, k) && !Jumps(w, step)
    ensures SyncedTo(Next(w, step), k')
  {
    assert CursorAt(w, k);
    if step.Poll? {
      FetchIsBehindCursor(w, k);
      PollHandles(w, step.failsAt);
      PollMovesCursor(w, k, step.failsAt);
      k' := if Moves(w, step.failsAt) then To(w, step.failsAt) else k;
      if Moves(w, step.failsAt) { NothingBetween(w.server, w.convo, k, From(w), k'); }
    } else {
      ArriveStaysSynced(w, step, k);
      k' := k;
    }
  }

  ghost predicate NeverJumps(steps: seq<Step>) {
    steps != [] ==> NeverJumps(steps[..|steps| - 1]) && !Jumps(Exec(START, steps[..|steps| - 1]), steps[|steps| - 1])
  }

  ghost predicate Gapless(w: World) {
    exists k: nat :: SyncedTo(w, k)
  }

  lemma {:induction false} GaplessOrSkipped(steps: seq<Step>) returns (j: nat)
    ensures if NeverJumps(steps) then Gapless(Exec(START, steps)) else Skipped(Exec(START, steps), j)
  {
    j := 0;
    if steps == [] {
      assert SyncedTo(START, 0);
    } else {
      var init, last := steps[..|steps| - 1], steps[|steps| - 1];
      j := GaplessOrSkipped(init);
      IdsStayDistinct(init);
      var w := Exec(START, init);
      if !NeverJumps(init) {
        SkippedStays(w, last, j);
      } else {
        var k: nat :| SyncedTo(w, k);
        if Jumps(w, last) { j := JumpSkips(w, k, last); } else { var k' := NoJumpStaysSynced(w, k, last); }
      }
    }
  }

  /**
   Whole runs, with polls broken off anywhere: what is imported is the peer's messages of a prefix of the
   conversation, in sending order, once each, if and only if no poll has jumped over messages of the peer.
   */
  lemma GaplessExactly(steps: seq<Step>)
    ensures Gapless(Exec(START, steps)) <==> NeverJumps(steps)
  {
    var j := GaplessOrSkipped(steps);
    IdsStayDistinct(steps);
    if Gapless(Exec(START, steps)) {
      var k: nat :| SyncedTo(Exec(START, steps), k);
      SyncedSkipsNothing(Exec(START, steps), k, j);
    }
  }

  /** And after a jump some message of the peer is missing for good. */
  lemma JumpLosesForGood(steps: seq<Step>, more: seq<Step>) returns (j: nat)
    requires !NeverJumps(steps)
    ensures j < |Exec(Exec(START, steps), more).server|
    ensures var w := Exec(Exec(START, steps), more); !w.server[j].mine && w.server[j].id !in w.convo.imported
  {
    j := GaplessOrSkipped(steps);
    IdsStayDistinct(steps);
    SkippedForGood(Exec(START, steps), more, j);
  }

  /**
   What a poll fetches: on a first sync the last 2000 messages, later those of the last page of 100 that come
   behind the one synced last.
   */
  lemma FetchedExactly(h: seq<Message>, lastSynced: Option<string>, j: nat)
    requires j < |h|
    ensures FetchFrom(h, lastSynced) <= j <==>
              match lastSynced
              case None => |h| - j <= 2000
              case Some(id) => |h| - j <= 100 && forall i :: j <= i < |h| ==> h[i].id != id
  {
    if lastSynced.Some? { ScannedExactly(h, PageStart(|h|), |h|, lastSynced.value, j); }
  }

  lemma {:induction false} ScannedExactly(h: seq<Message>, low: nat, end: nat, id: string, j: nat)
    requires low <= end <= |h| && j < end
    ensures ScanBack(h, low, end, id) <= j <==> low <= j && forall i :: j <= i < end ==> h[i].id != id
  {
    if end > low && h[end - 1].id != id && j < end - 1 { ScannedExactly(h, low, end - 1, id, j); }
  }

  /** A poll that runs to its end, with a thread to attach to, leaves the cursor at the newest message. */
  lemma CompletePollReachesTheEnd(w: World, c: nat, failsAt: nat)
    requires DistinctIds(w.server) && CursorAt(w, c) && failsAt >= |w.server| > 0
    requires w.convo.hasRoot || !w.server[|w.server| - 1].mine
    ensures CursorAt(Next(w, Poll(failsAt)), |w.server|)
  {
    FetchIsBehindCursor(w, c);
    PollMovesCursor(w, c, failsAt);
    var h, from := w.server, From(w);
    if from < |h| {
      assert h[from..][..|h| - from - 1] == h[from..|h| - 1];
      assert h[from..|h|] == h[from..];
      assert To(w, failsAt) == |h|;
    } else if w.convo.cursor.Some? {
      FetchedExactly(h, w.convo.cursor, |h| - 1);
      assert c == |h|;
    }
  }

  /* ------------------------------ a first sync that breaks off ------------------------------ */

  function Arrivals(h: seq<Message>): seq<Step> {
    if h == [] then [] else Arrivals(h[..|h| - 1]) + [Arrive(h[|h| - 1])]
  }

  lemma {:induction false} AllArrive(h: seq<Message>)
    requires DistinctIds(h)
    ensures Exec(START, Arrivals(h)) == World(h, Convo([], None, false))
  {
    if h != [] {
      AllArrive(h[..|h| - 1]);
      var steps := Arrivals(h);
      assert steps[..|steps| - 1] == Arrivals(h[..|h| - 1]);
      assert h == h[..|h| - 1] + [h[|h| - 1]];
    }
  }

  /**
   The comment in the code says that what a broken-off first sync leaves is imported later. With more than a
   page of messages left it is not: after an error behind the first message, a poll that runs to its end, and
   any others after it, the second message is missing.
   */
  lemma BrokenOffFirstSyncLoses(h: seq<Message>, more: seq<Step>)
    requires DistinctIds(h) && 102 <= |h| <= MAX_INITIAL_SYNC_MESSAGES && forall m :: m in h ==> !m.mine
    ensures var w := Exec(Next(Next(Exec(START, Arrivals(h)), Poll(1)), Poll(|h|)), more);
            1 < |w.server| && w.server[1] == h[1] && h[1].id !in w.convo.imported
  {
    AllArrive(h);
    var w1 := World(h, Convo([h[0].id], Some(h[0].id), true));
    FirstOneOnly(h);
    SecondIsSkipped(h);
    SkippedForGood(Next(w1, Poll(|h|)), more, 1);
    ServerGrows(Next(w1, Poll(|h|)), more);
  }

  lemma FirstOneOnly(h: seq<Message>)
    requires 1 <= |h| <= MAX_INITIAL_SYNC_MESSAGES && !h[0].mine
    ensures Next(World(h, Convo([], None, false)), Poll(1)) == World(h, Convo([h[0].id], Some(h[0].id), true))
  {
    var w := World(h, Convo([], None, false));
    PollHandles(w, 1);
    assert h[0..1] == [h[0]] && [h[0]][..0] == [];
    assert HandleAll(w.convo, []) == w.convo;
  }

  lemma SecondIsSkipped(h: seq<Message>)
    requires DistinctIds(h) && |h| >= 102 && !h[1].mine
    ensures Skipped(Next(World(h, Convo([h[0].id], Some(h[0].id), true)), Poll(|h|)), 1)
  {
    var w := World(h, Convo([h[0].id], Some(h[0].id), true));
    assert CursorAt(w, 1);
    ScanStopsAtCursor(h, PageStart(|h|), |h|, 1);
    PollHandles(w, |h|);
    PollMovesCursor(w, 1, |h|);
    HandleAddsOnly(w.convo, h[From(w)..To(w, |h|)]);
    NotAmong(h, 1, From(w), To(w, |h|));
    assert CursorAt(Next(w, Poll(|h|)), |h|);
  }

  lemma {:induction false} ServerGrows(w: World, steps: seq<Step>)
    ensures w.server <= Exec(w, steps).server
  {
    if steps != [] { ServerGrows(w, steps[..|steps| - 1]); }
  }
}
