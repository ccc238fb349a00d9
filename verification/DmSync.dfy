/**
 Polling one Bluesky conversation: fetch what lies past the stored cursor, import the peer's messages
 oldest first, and move the cursor with every message, so that an error loses nothing handled so far.

 The conversation on the server is a growing sequence of messages with distinct ids, oldest first.
 */
module DmSync {
  import opened Options

  const PAGE_SIZE: nat := 100
  const MAX_INITIAL_SYNC_PAGES: nat := 20
  const MAX_INITIAL_SYNC_MESSAGES: nat := 2000

  datatype Message = Message(id: string, mine: bool)

  ghost predicate DistinctIds(h: seq<Message>) {
    forall i, j :: 0 <= i < j < |h| ==> h[i].id != h[j].id
  }

  function NewestFirst(s: seq<Message>): (r: seq<Message>)
    ensures |r| == |s|
  {
    if s == [] then [] else [s[|s| - 1]] + NewestFirst(s[..|s| - 1])
  }

  lemma {:induction false} NewestFirstAppends(a: seq<Message>, b: seq<Message>)
    ensures NewestFirst(a + b) == NewestFirst(b) + NewestFirst(a)
  {
    if b == [] {
      assert a + b == a;
    } else {
      assert (a + b)[..|a + b| - 1] == a + b[..|b| - 1];
      NewestFirstAppends(a, b[..|b| - 1]);
    }
  }

  lemma {:induction false} TwiceReversed(s: seq<Message>)
    ensures NewestFirst(NewestFirst(s)) == s
  {
    if s != [] {
      var init, last := s[..|s| - 1], s[|s| - 1];
      NewestFirstAppends([last], NewestFirst(init));
      TwiceReversed(init);
      assert NewestFirst([last]) == [last];
    }
  }

  /** The ids of the peer's messages, in sending order. */
  function PeerIds(h: seq<Message>): seq<string> {
    if h == [] then []
    else PeerIds(h[..|h| - 1]) + if h[|h| - 1].mine then [] else [h[|h| - 1].id]
  }

  lemma {:induction false} PeerIdsAppend(a: seq<Message>, b: seq<Message>)
    ensures PeerIds(a + b) == PeerIds(a) + PeerIds(b)
  {
    if b == [] {
      assert a + b == a;
    } else {
      assert (a + b)[..|a + b| - 1] == a + b[..|b| - 1];
      PeerIdsAppend(a, b[..|b| - 1]);
    }
  }

  function Floor(n: int): nat { if n < 0 then 0 else n }

  /** The start of the page that ends at `before`. */
  function PageStart(before: nat): nat { Floor(before - PAGE_SIZE) }

  /** Where a scan back from `end` to `low` stops: right after the message with this id, else at `low`. */
  function ScanBack(h: seq<Message>, low: nat, end: nat, id: string): (from: nat)
    requires low <= end <= |h|
    ensures low <= from <= end
  {
    if end == low || h[end - 1].id == id then end else ScanBack(h, low, end - 1, id)
  }

  /** The oldest message a fetch returns, given the id that was synced last. */
  function FetchFrom(h: seq<Message>, lastSynced: Option<string>): (from: nat)
    ensures from <= |h|
  {
    match lastSynced
    case None => Floor(|h| - MAX_INITIAL_SYNC_MESSAGES)
    case Some(id) => ScanBack(h, PageStart(|h|), |h|, id)
  }

  /** `getMessages`: a page of at most 100 messages, newest first, and a cursor for the page before it. */
  method GetMessages(h: seq<Message>, before: nat, cursorAtEnd: bool) returns (page: seq<Message>, next: Option<nat>)
    requires before <= |h|
    ensures page == NewestFirst(h[PageStart(before)..before])
    ensures next.Some? ==> next.value == PageStart(before)
    ensures PageStart(before) > 0 ==> next.Some?
  {
    page := NewestFirst(h[PageStart(before)..before]);
    next := if PageStart(before) > 0 || cursorAtEnd then Some(PageStart(before)) else None;
  }

  /** The messages of a page before the one synced last, and whether that one was reached. */
  method TakeNew(h: seq<Message>, low: nat, end: nat, page: seq<Message>, lastSynced: Option<string>)
    returns (taken: seq<Message>, reached: bool)
    requires low <= end <= |h| && page == NewestFirst(h[low..end])
    ensures lastSynced.None? ==> !reached && taken == page
    ensures lastSynced.Some? ==> taken == NewestFirst(h[ScanBack(h, low, end, lastSynced.value)..end])
  {
    taken, reached := [], false;
    var k := 0;
    assert h[end..end] == [];
    while k < |page|
      invariant k <= |page| == end - low && taken == page[..k] == NewestFirst(h[end - k..end]) && !reached
      invariant page[k..] == NewestFirst(h[low..end - k])
      invariant lastSynced.Some? ==> ScanBack(h, low, end, lastSynced.value) == ScanBack(h, low, end - k, lastSynced.value)
    {
      PageHead(h, low, end, k, page);
      if Some(page[k].id) == lastSynced {
        assert ScanBack(h, low, end - k, page[k].id) == end - k;
        reached := true;
        return;
      }
      taken := taken + [page[k]];
      k := k + 1;
    }
  }

  lemma PageHead(h: seq<Message>, low: nat, end: nat, k: nat, page: seq<Message>)
    requires low + k < end <= |h| && |page| == end - low
    requires page[k..] == NewestFirst(h[low..end - k]) && page[..k] == NewestFirst(h[end - k..end])
    ensures page[k] == h[end - k - 1] && page[k + 1..] == NewestFirst(h[low..end - k - 1])
    ensures page[..k + 1] == NewestFirst(h[end - k - 1..end])
  {
    assert h[low..end - k][..end - k - low - 1] == h[low..end - k - 1];
    assert page[k..][0] == page[k] && page[k..][1..] == page[k + 1..];
    assert h[end - k - 1..end] == [h[end - k - 1]] + h[end - k..end];
    NewestFirstAppends([h[end - k - 1]], h[end - k..end]);
    assert NewestFirst([h[end - k - 1]]) == [h[end - k - 1]];
    assert page[..k + 1] == page[..k] + [page[k]];
  }

  /** `fetch_convo_messages`: only a conversation never synced before is paged through. */
  method FetchConvoMessages(h: seq<Message>, lastSynced: Option<string>, cursorAtEnd: bool)
    returns (newMessages: seq<Message>)
    ensures newMessages == NewestFirst(h[FetchFrom(h, lastSynced)..])
  {
    var isInitialSync := lastSynced.None?;
    newMessages := [];
    var before := |h|;
    var fetchedPages := 0;
    assert h[before..] == [];
    while true
      invariant fetchedPages < MAX_INITIAL_SYNC_PAGES && before == Floor(|h| - PAGE_SIZE * fetchedPages)
      invariant newMessages == NewestFirst(h[before..])
      invariant !isInitialSync ==> fetchedPages == 0
      decreases MAX_INITIAL_SYNC_PAGES - fetchedPages
    {
      var page, nextCursor := GetMessages(h, before, cursorAtEnd);
      fetchedPages := fetchedPages + 1;
      var low := PageStart(before);
      var taken, reachedLastSynced := TakeNew(h, low, before, page, lastSynced);
      ghost var from := if lastSynced.Some? then ScanBack(h, low, before, lastSynced.value) else low;
      assert h[from..] == h[from..before] + h[before..];
      NewestFirstAppends(h[from..before], h[before..]);
      newMessages := newMessages + taken;
      var shouldContinue :=
        && isInitialSync && !reachedLastSynced && nextCursor.Some? && page != []
        && fetchedPages < MAX_INITIAL_SYNC_PAGES && |newMessages| < MAX_INITIAL_SYNC_MESSAGES;
      if !shouldContinue {
        return;
      }
      before := nextCursor.value;
    }
  }

  /** What is stored here for one conversation: imported posts, the sync cursor, and whether a thread exists. */
  datatype Convo = Convo(imported: seq<string>, cursor: Option<string>, hasRoot: bool)

  /** A message is handled: the peer's is imported with the cursor, one's own only moves the cursor. */
  function Handle(c: Convo, m: Message): Convo {
    if m.mine then (if c.hasRoot then c.(cursor := Some(m.id)) else c)
    else Convo(if m.id in c.imported then c.imported else c.imported + [m.id], Some(m.id), true)
  }

  function HandleAll(c: Convo, ms: seq<Message>): Convo {
    if ms == [] then c else Handle(HandleAll(c, ms[..|ms| - 1]), ms[|ms| - 1])
  }

  lemma HandleOneMore(c: Convo, ms: seq<Message>, k: nat)
    requires k < |ms|
    ensures HandleAll(c, ms[..k + 1]) == Handle(HandleAll(c, ms[..k]), ms[k])
  {
    assert ms[..k + 1][..k] == ms[..k];
  }

  class ConvoStore {
    var imported: seq<string>
    var cursor: Option<string>
    var hasRoot: bool

    ghost function AsConvo(): Convo
      reads this
    {
      Convo(imported, cursor, hasRoot)
    }

    constructor ()
      ensures AsConvo() == Convo([], None, false)
    {
      imported, cursor, hasRoot := [], None, false;
    }

    /** `import_bsky_dm`: post and cursor in one transaction; a message id is stored once. */
    method ImportPeerMessage(id: string)
      modifies this
      ensures AsConvo() == old(AsConvo()).(imported := if id in old(imported) then old(imported) else old(imported) + [id],
                                           cursor := Some(id), hasRoot := true)
    {
      if id !in imported {
        imported := imported + [id];
      }
      cursor, hasRoot := Some(id), true;
    }

    /** `sync_convo`, cut short by an error before message number `failsAt` if there is one. */
    method SyncConvo(h: seq<Message>, cursorAtEnd: bool, failsAt: nat) returns (handled: nat)
      modifies this
      ensures var ms := h[FetchFrom(h, old(cursor))..];
              && handled == (if failsAt < |ms| then failsAt else |ms|)
              && AsConvo() == HandleAll(old(AsConvo()), ms[..handled])
    {
      var newMessages := FetchConvoMessages(h, cursor, cursorAtEnd);
      ghost var ms := h[FetchFrom(h, cursor)..];
      TwiceReversed(ms);
      newMessages := NewestFirst(newMessages);
      handled := 0;
      while handled < |newMessages| && handled < failsAt
        invariant handled <= |newMessages| && handled <= failsAt
        invariant AsConvo() == HandleAll(old(AsConvo()), ms[..handled])
      {
        var m := newMessages[handled];
        HandleOneMore(old(AsConvo()), ms, handled);
        if m.mine {
          if hasRoot {
            cursor := Some(m.id);
          }
        } else {
          ImportPeerMessage(m.id);
        }
        handled := handled + 1;
      }
    }
  }

  /* ------------------------------------- whole runs ------------------------------------- */

  datatype World = World(server: seq<Message>, convo: Convo)

  /** The server gets a message; a local send creates the thread; a poll runs, maybe only part of the way. */
  datatype Step = Arrive(m: Message) | LinkThread | Poll(failsAt: nat)

  const START := World([], Convo([], None, false))

  function Next(w: World, step: Step): World {
    match step
    case Arrive(m) => if exists k :: 0 <= k < |w.server| && w.server[k].id == m.id then w else w.(server := w.server + [m])
    case LinkThread => w.(convo := w.convo.(hasRoot := true))
    case Poll(failsAt) =>
      var ms := w.server[FetchFrom(w.server, w.convo.cursor)..];
      w.(convo := HandleAll(w.convo, if failsAt < |ms| then ms[..failsAt] else ms))
  }

  function Exec(w: World, steps: seq<Step>): World {
    if steps == [] then w else Next(Exec(w, steps[..|steps| - 1]), steps[|steps| - 1])
  }

  /** Synced up to message number `k`: nothing before it is missing, nothing from it on is imported. */
  ghost predicate SyncedTo(w: World, k: nat) {
    && k <= |w.server| && w.convo.imported == PeerIds(w.server[..k])
    && (if w.convo.cursor.None? then k == 0 else k > 0 && w.convo.cursor == Some(w.server[k - 1].id) && w.convo.hasRoot)
  }

  /** A poll can see everything it lacks: a first sync within its caps, a later one within a page. */
  ghost predicate WithinReach(w: World) {
    if w.convo.cursor.None? then |w.server| <= MAX_INITIAL_SYNC_MESSAGES
    else forall k :: SyncedTo(w, k) ==> |w.server| - k <= PAGE_SIZE
  }

  lemma {:induction false} ScanStopsAtCursor(h: seq<Message>, low: nat, end: nat, k: nat)
    requires DistinctIds(h) && low <= end <= |h| && 0 < k <= end
    ensures ScanBack(h, low, end, h[k - 1].id) == if low < k then k else low
  {
    if end > low && end != k { ScanStopsAtCursor(h, low, end - 1, k); }
  }

  lemma NotImportedYet(h: seq<Message>, k: nat, j: nat)
    requires DistinctIds(h) && k <= j < |h|
    ensures h[j].id !in PeerIds(h[..k])
  {
    PeerIdsComeFrom(h, k);
  }

  lemma {:induction false} PeerIdsComeFrom(h: seq<Message>, k: nat)
    requires k <= |h|
    ensures forall id :: id in PeerIds(h[..k]) ==> exists i :: 0 <= i < k && h[i].id == id
  {
    if k > 0 {
      PeerIdsComeFrom(h, k - 1);
      assert h[..k][..k - 1] == h[..k - 1];
    }
  }

  /** Handling a message not imported yet adds it, if it is the peer's. */
  lemma HandleNew(c: Convo, before: seq<string>, since: seq<string>, m: Message)
    requires c.imported == before + since && m.id !in before && m.id !in since
    ensures Handle(c, m).imported == before + (since + if m.mine then [] else [m.id])
  {
    assert m.id !in before + since;
  }

  /** Handling messages with distinct ids, none of them imported yet, adds the peer's in order. */
  lemma {:induction false} HandleImports(c: Convo, ms: seq<Message>)
    requires DistinctIds(ms) && forall m :: m in ms ==> m.id !in c.imported
    ensures HandleAll(c, ms).imported == c.imported + PeerIds(ms)
  {
    if ms != [] {
      var init, last := ms[..|ms| - 1], ms[|ms| - 1];
      HandleImports(c, init);
      PeerIdsComeFrom(init, |init|);
      assert init[..|init|] == init;
      assert last.id !in PeerIds(init);
      HandleNew(HandleAll(c, init), c.imported, PeerIds(init), last);
    }
  }

  /** The cursor follows every message once a thread exists, and one's own messages alone do not create one. */
  lemma {:induction false} HandleMovesCursor(c: Convo, ms: seq<Message>)
    ensures var c' := HandleAll(c, ms);
            if c.hasRoot || PeerIds(ms) != [] then c'.hasRoot && c'.cursor == if ms == [] then c.cursor else Some(ms[|ms| - 1].id)
            else c' == c
  {
    if ms != [] { HandleMovesCursor(c, ms[..|ms| - 1]); }
  }

  lemma HandleImportsRange(h: seq<Message>, c: Convo, k: nat, from: nat, to: nat)
    requires DistinctIds(h) && k <= from <= to <= |h| && c.imported == PeerIds(h[..k])
    ensures HandleAll(c, h[from..to]).imported == PeerIds(h[..k]) + PeerIds(h[from..to])
  {
    var ms := h[from..to];
    forall m | m in ms ensures m.id !in c.imported {
      var j :| 0 <= j < |ms| && ms[j] == m;
      NotImportedYet(h, k, from + j);
    }
    HandleImports(c, ms);
  }

  lemma FetchFromCursor(w: World, k: nat)
    requires DistinctIds(w.server) && SyncedTo(w, k)
    ensures FetchFrom(w.server, w.convo.cursor) ==
              if w.convo.cursor.None? then Floor(|w.server| - MAX_INITIAL_SYNC_MESSAGES)
              else if PageStart(|w.server|) < k then k else PageStart(|w.server|)
  {
    if w.convo.cursor.Some? { ScanStopsAtCursor(w.server, PageStart(|w.server|), |w.server|, k); }
  }

  /** What a poll does, in or out of reach: it appends the peer's messages from where it fetched. */
  lemma PollImports(w: World, k: nat, failsAt: nat)
    requires DistinctIds(w.server) && SyncedTo(w, k)
    ensures var from := FetchFrom(w.server, w.convo.cursor);
            var to := if failsAt < |w.server| - from then from + failsAt else |w.server|;
            && k <= from <= to <= |w.server|
            && Next(w, Poll(failsAt)).convo == HandleAll(w.convo, w.server[from..to])
            && Next(w, Poll(failsAt)).convo.imported == PeerIds(w.server[..k]) + PeerIds(w.server[from..to])
  {
    FetchFromCursor(w, k);
    var h, from := w.server, FetchFrom(w.server, w.convo.cursor);
    var to := if failsAt < |h| - from then from + failsAt else |h|;
    assert h[from..][..to - from] == h[from..to];
    assert h[from..|h|] == h[from..];
    HandleImportsRange(h, w.convo, k, from, to);
  }

  /** How far a conversation is synced after handling everything up to `to`. */
  lemma SyncedAfter(w: World, k: nat, to: nat)
    requires DistinctIds(w.server) && SyncedTo(w, k) && k <= to <= |w.server|
    ensures var w' := w.(convo := HandleAll(w.convo, w.server[k..to]));
            && (SyncedTo(w', to) || (SyncedTo(w', k) && PeerIds(w.server[k..to]) == []))
            && w'.convo.imported == PeerIds(w.server[..to])
  {
    var h := w.server;
    HandleImportsRange(h, w.convo, k, k, to);
    PeerIdsAppend(h[..k], h[k..to]);
    assert h[..k] + h[k..to] == h[..to];
    HandleMovesCursor(w.convo, h[k..to]);
  }

  /** Within reach a poll fetches exactly what is missing, so it imports in order, once each, without a gap. */
  lemma PollSyncs(w: World, k: nat, failsAt: nat)
    requires DistinctIds(w.server) && SyncedTo(w, k) && WithinReach(w)
    ensures exists k' :: SyncedTo(Next(w, Poll(failsAt)), k')
    ensures failsAt >= |w.server| ==> Next(w, Poll(failsAt)).convo.imported == PeerIds(w.server)
  {
    var h, from := w.server, FetchFrom(w.server, w.convo.cursor);
    FetchFromCursor(w, k);
    assert from == k;
    PollImports(w, k, failsAt);
    var to := if failsAt < |h| - from then from + failsAt else |h|;
    SyncedAfter(w, k, to);
    assert h[..|h|] == h;
    assert Next(w, Poll(failsAt)) == w.(convo := HandleAll(w.convo, h[k..to]));
  }

  /** Every poll of the run was within reach of what it lacked. */
  ghost predicate PollsWithinReach(steps: seq<Step>) {
    forall k :: 0 <= k < |steps| && steps[k].Poll? ==> WithinReach(Exec(START, steps[..k]))
  }

  lemma {:induction false} IdsStayDistinct(steps: seq<Step>)
    ensures DistinctIds(Exec(START, steps).server)
  {
    if steps != [] { IdsStayDistinct(steps[..|steps| - 1]); }
  }

  lemma ArriveStaysSynced(w: World, step: Step, k: nat)
    requires SyncedTo(w, k) && !step.Poll?
    ensures SyncedTo(Next(w, step), k)
  {
    assert Next(w, step).server[..k] == w.server[..k];
  }

  /**
   Over a whole run, with polls broken off by errors between any two messages: what is imported is
   the peer's messages of a prefix of the conversation, in sending order, once each and without a gap.
   */
  lemma {:induction false} ImportedWithoutGap(steps: seq<Step>) returns (k: nat)
    requires PollsWithinReach(steps)
    ensures SyncedTo(Exec(START, steps), k)
  {
    if steps == [] {
      k := 0;
    } else {
      var init, last := steps[..|steps| - 1], steps[|steps| - 1];
      forall j | 0 <= j < |init| && init[j].Poll? ensures WithinReach(Exec(START, init[..j])) {
        assert steps[..j] == init[..j];
        assert steps[j].Poll?;
      }
      var before := ImportedWithoutGap(init);
      IdsStayDistinct(init);
      if last.Poll? {
        PollSyncs(Exec(START, init), before, last.failsAt);
        k :| SyncedTo(Next(Exec(START, init), last), k);
      } else {
        ArriveStaysSynced(Exec(START, init), last, before);
        k := before;
      }
    }
  }

  lemma PeerIdsInThree(a: seq<Message>, b: seq<Message>, c: seq<Message>)
    ensures PeerIds(a + b + c) == PeerIds(a) + PeerIds(b) + PeerIds(c)
  {
    PeerIdsAppend(a, b);
    PeerIdsAppend(a + b, c);
  }

  lemma MiddleIsEmpty(a: seq<string>, b: seq<string>, c: seq<string>)
    ensures a + c == a + b + c <==> b == []
  {
    if b == [] { assert a + b == a; } else { assert |a + c| < |a + b + c|; }
  }

  /**
   Exactly when a poll that runs to its end leaves a gap: if the peer sent a message among those
   between the cursor and the oldest one fetched.
   */
  lemma CompletePollIsCompleteExactly(w: World, k: nat, failsAt: nat)
    requires DistinctIds(w.server) && SyncedTo(w, k) && failsAt >= |w.server|
    ensures var from := FetchFrom(w.server, w.convo.cursor);
            && k <= from <= |w.server|
            && (Next(w, Poll(failsAt)).convo.imported == PeerIds(w.server) <==> PeerIds(w.server[k..from]) == [])
  {
    var h, from := w.server, FetchFrom(w.server, w.convo.cursor);
    PollImports(w, k, failsAt);
    assert h[from..|h|] == h[from..];
    assert h == h[..k] + h[k..from] + h[from..];
    PeerIdsInThree(h[..k], h[k..from], h[from..]);
    MiddleIsEmpty(PeerIds(h[..k]), PeerIds(h[k..from]), PeerIds(h[from..]));
  }
}
