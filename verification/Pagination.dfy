/**
 Cursor pagination: the hook `useCursorPagination` and the page around it, as an asynchronous state
 machine. The list on screen and the list React is about to render are kept apart, because the hook
 reads its cursor from the rendered one; replies, errors and their clean-up arrive in any order.
 */
module Pagination {
  import opened Options

  type Id = nat
  type Key = string

  /**
   What a page shows: for each key a feed, newest first, of which the server returns `pageSize` items
   below a given id. `keyed` pages pass their key to the hook, `guarded` ones load more only while the
   rendered list is the one of the current key.
   */
  datatype Site = Site(feed: Key -> seq<Id>, pageSize: nat, keyed: bool, guarded: bool)

  predicate NewestFirst(feed: seq<Id>) {
    forall i, j :: 0 <= i < j < |feed| ==> feed[i] > feed[j]
  }

  ghost predicate FeedsOk(s: Site) {
    s.pageSize > 0 && forall key :: NewestFirst(s.feed(key))
  }

  /** A load in flight; `answered` once its reply or error was dealt with. */
  datatype Request = Request(generation: nat, key: Key, untilId: Id, answered: bool)

  /** `items` of feed `itemsKey` will be rendered next, `shown` of feed `shownKey` was rendered last. */
  datatype World = World(
    key: Key, generation: nat, loading: Option<nat>,
    items: seq<Id>, itemsKey: Option<Key>, hasMore: bool,
    shown: seq<Id>, shownKey: Option<Key>,
    requests: map<nat, Request>, next: nat)

  function Start(key: Key): World {
    World(key, 0, None, [], None, true, [], None, map[], 0)
  }

  datatype Step =
    | Render(key: Key)
    | LoadMore
    | Replace(count: nat, more: bool)
    | AssumeMore
    | Reply(id: nat)
    | Fail(id: nat)
    | Settle(id: nat)

  /** How many items stand above the cursor or are the cursor. */
  function After(feed: seq<Id>, untilId: Id): (n: nat)
    ensures n <= |feed|
  {
    if feed == [] || feed[0] < untilId then 0 else 1 + After(feed[1..], untilId)
  }

  function Min(a: nat, b: nat): nat { if a < b then a else b }

  /** The server's answer. */
  function NextPage(s: Site, key: Key, untilId: Id): seq<Id> {
    var feed := s.feed(key);
    var from := After(feed, untilId);
    feed[from..Min(from + s.pageSize, |feed|)]
  }

  function Unseen(prev: seq<Id>, rows: seq<Id>): seq<Id> {
    if rows == [] then [] else (if rows[0] in prev then [] else [rows[0]]) + Unseen(prev, rows[1..])
  }

  function Merge(prev: seq<Id>, rows: seq<Id>): seq<Id> {
    prev + Unseen(prev, rows)
  }

  predicate MayLoad(s: Site, w: World) {
    && (s.guarded ==> w.shownKey == Some(w.key))
    && w.loading != Some(w.generation) && w.shown != []
  }

  predicate Pending(w: World, id: nat) {
    id in w.requests && !w.requests[id].answered
  }

  function Answered(w: World, id: nat): map<nat, Request>
    requires id in w.requests
  {
    w.requests[id := w.requests[id].(answered := true)]
  }

  /** One step. A step that cannot be taken leaves the world as it is. */
  function Next(s: Site, w: World, step: Step): World {
    match step
    case Render(key) =>
      w.(key := key, generation := if s.keyed && key != w.key then w.generation + 1 else w.generation,
         shown := w.items, shownKey := w.itemsKey)
    case LoadMore =>
      if !MayLoad(s, w) then w
      else w.(loading := Some(w.generation), next := w.next + 1,
              requests := w.requests[w.next := Request(w.generation, w.key, w.shown[|w.shown| - 1], false)])
    case Replace(count, more) =>
      var feed := s.feed(w.key);
      w.(items := feed[..Min(count, |feed|)], itemsKey := Some(w.key), hasMore := more)
    case AssumeMore => w.(hasMore := true)
    case Reply(id) =>
      if !Pending(w, id) then w
      else if w.requests[id].generation != w.generation then w.(requests := Answered(w, id))
      else
        var rows := NextPage(s, w.requests[id].key, w.requests[id].untilId);
        w.(requests := Answered(w, id), items := Merge(w.items, rows), hasMore := |rows| >= s.pageSize)
    case Fail(id) => if !Pending(w, id) then w else w.(requests := Answered(w, id))
    case Settle(id) =>
      if id !in w.requests || !w.requests[id].answered then w
      else w.(requests := w.requests - {id}, loading := if w.loading == Some(w.requests[id].generation) then None else w.loading)
  }

  function Exec(s: Site, w: World, steps: seq<Step>): World {
    if steps == [] then w else Next(s, Exec(s, w, steps[..|steps| - 1]), steps[|steps| - 1])
  }

  /* ------------------------------------ pages and lists ------------------------------------ */

  lemma {:induction false} AfterItem(feed: seq<Id>, k: nat)
    requires NewestFirst(feed) && k < |feed|
    ensures After(feed, feed[k]) == k + 1
  {
    if k > 0 {
      AfterItem(feed[1..], k - 1);
    } else if |feed| > 1 {
      assert feed[1..][0] < feed[0];
    }
  }

  lemma {:induction false} AllUnseen(prev: seq<Id>, rows: seq<Id>)
    requires forall id :: id in rows ==> id !in prev
    ensures Unseen(prev, rows) == rows
  {
    if rows != [] {
      assert rows[0] in rows && rows == [rows[0]] + rows[1..];
      AllUnseen(prev, rows[1..]);
    }
  }

  /** A page that starts within the list or right behind it extends the list without gap or repeat. */
  lemma {:induction false} MergeExtends(feed: seq<Id>, length: nat, from: nat, end: nat)
    requires NewestFirst(feed) && from <= length <= |feed| && from <= end <= |feed|
    ensures Merge(feed[..length], feed[from..end]) == feed[..if end > length then end else length]
    decreases length - from
  {
    var prev, rows := feed[..length], feed[from..end];
    if from == length {
      forall id | id in rows
        ensures id !in prev
      {
        var k :| 0 <= k < |rows| && rows[k] == id;
        assert rows[k] == feed[from + k];
      }
      AllUnseen(prev, rows);
    } else if from < end {
      assert rows[0] == prev[from] && rows[1..] == feed[from + 1..end];
      MergeExtends(feed, length, from + 1, end);
    }
  }

  /* ------------------------------------ the invariant ------------------------------------ */

  /** The list is the upper part of its feed, and `hasMore` goes out only when all of it is there. */
  ghost predicate Good(s: Site, w: World) {
    match w.itemsKey
    case None => w.items == []
    case Some(key) => w.items <= s.feed(key) && (!w.hasMore ==> w.items == s.feed(key))
  }

  predicate Current(w: World, id: nat) {
    id in w.requests && w.requests[id].generation == w.generation
  }

  ghost predicate RequestSafe(w: World, r: Request) {
    && r.generation <= w.generation
    && (r.generation == w.generation ==> r.key == w.key && w.itemsKey == Some(w.key) && w.loading == Some(r.generation))
    && (r.generation == w.generation && !r.answered ==> r.untilId in w.items)
  }

  ghost predicate ShownSafe(w: World) {
    if w.shownKey == w.itemsKey then w.shown <= w.items || w.shownKey != Some(w.key)
    else w.itemsKey == Some(w.key)
  }

  ghost predicate InFlight(requests: map<nat, Request>, generation: nat) {
    exists id :: id in requests && requests[id].generation == generation
  }

  ghost predicate Safe(s: Site, w: World) {
    && Good(s, w) && ShownSafe(w)
    && (forall id :: id in w.requests ==> id < w.next && RequestSafe(w, w.requests[id]))
    && (forall a, b :: a in w.requests && b in w.requests && w.requests[a].generation == w.requests[b].generation ==> a == b)
    && (w.loading.Some? ==> InFlight(w.requests, w.loading.value))
  }

  /** The replacement would lose an item that a load continues from, or may soon continue from. */
  ghost predicate Drops(s: Site, w: World, count: nat) {
    || (w.shownKey == Some(w.key) && count < |w.shown|)
    || exists id :: Current(w, id) && !w.requests[id].answered && count < After(s.feed(w.key), w.requests[id].untilId)
  }

  /** `more` is told truthfully. */
  predicate Truthful(s: Site, w: World, step: Step) {
    step.Replace? && !step.more ==> step.count >= |s.feed(w.key)|
  }

  ghost predicate Allowed(s: Site, w: World, step: Step) {
    Truthful(s, w, step) && (step.Replace? ==> !Drops(s, w, step.count))
  }

  ghost predicate Orderly(s: Site, w: World, steps: seq<Step>) {
    steps != [] ==> Orderly(s, w, steps[..|steps| - 1]) && Allowed(s, Exec(s, w, steps[..|steps| - 1]), steps[|steps| - 1])
  }

  lemma LoadMoreSafe(s: Site, w: World)
    requires FeedsOk(s) && s.keyed && s.guarded && Safe(s, w)
    ensures Safe(s, Next(s, w, LoadMore))
  {
    if MayLoad(s, w) {
      var w' := Next(s, w, LoadMore);
      assert w.shown <= w.items;
      assert w.shown[|w.shown| - 1] == w.items[|w.shown| - 1];
      assert w'.requests[w.next].generation == w'.generation;
    }
  }

  lemma RenderSafe(s: Site, w: World, key: Key)
    requires FeedsOk(s) && s.keyed && s.guarded && Safe(s, w)
    ensures Safe(s, Next(s, w, Render(key)))
  {
    var w' := Next(s, w, Render(key));
    assert w'.requests == w.requests;
  }

  lemma ReplaceSafe(s: Site, w: World, step: Step)
    requires FeedsOk(s) && s.keyed && s.guarded && Safe(s, w) && step.Replace? && Allowed(s, w, step)
    ensures Safe(s, Next(s, w, step))
  {
    var w' := Next(s, w, step);
    forall id | id in w.requests
      ensures RequestSafe(w', w'.requests[id])
    {
      if Current(w, id) && !w.requests[id].answered {
        CursorKept(s.feed(w.key), w.items, w'.items, w.requests[id].untilId);
      }
    }
  }

  /** A list that reaches as far down as the cursor contains it. */
  lemma CursorKept(feed: seq<Id>, items: seq<Id>, items': seq<Id>, untilId: Id)
    requires NewestFirst(feed) && items <= feed && items' <= feed && untilId in items && After(feed, untilId) <= |items'|
    ensures untilId in items'
  {
    var k :| 0 <= k < |items| && items[k] == untilId;
    AfterItem(feed, k);
    assert items'[k] == untilId;
  }

  lemma AnswerSafe(s: Site, w: World, id: nat)
    requires Safe(s, w) && Pending(w, id)
    ensures Safe(s, w.(requests := Answered(w, id)))
  {
    if w.loading.Some? {
      var other :| other in w.requests && w.requests[other].generation == w.loading.value;
      assert Answered(w, id)[other].generation == w.loading.value;
    }
  }

  /** A page from a cursor on the list extends the list, and a short page completes it. */
  lemma PageExtends(s: Site, key: Key, items: seq<Id>, untilId: Id)
    requires FeedsOk(s) && items <= s.feed(key) && untilId in items
    ensures var rows := NextPage(s, key, untilId);
            items <= Merge(items, rows) <= s.feed(key) && (|rows| < s.pageSize ==> Merge(items, rows) == s.feed(key))
  {
    var feed := s.feed(key);
    var k :| 0 <= k < |items| && items[k] == untilId;
    AfterItem(feed, k);
    assert items == feed[..|items|];
    MergeExtends(feed, |items|, k + 1, Min(k + 1 + s.pageSize, |feed|));
  }

  lemma ReplySafe(s: Site, w: World, id: nat)
    requires FeedsOk(s) && s.keyed && s.guarded && Safe(s, w)
    ensures Safe(s, Next(s, w, Reply(id)))
  {
    if Pending(w, id) {
      AnswerSafe(s, w, id);
      var r := w.requests[id];
      if r.generation == w.generation {
        PageExtends(s, w.key, w.items, r.untilId);
        var rows := NextPage(s, r.key, r.untilId);
        ListGrows(s, w.(requests := Answered(w, id)), Merge(w.items, rows), |rows| >= s.pageSize);
      }
    }
  }

  lemma ListGrows(s: Site, w: World, items: seq<Id>, hasMore: bool)
    requires Safe(s, w) && w.itemsKey == Some(w.key)
    requires w.items <= items <= s.feed(w.key) && (!hasMore ==> items == s.feed(w.key))
    ensures Safe(s, w.(items := items, hasMore := hasMore))
  {
  }

  lemma SettleSafe(s: Site, w: World, id: nat)
    requires Safe(s, w)
    ensures Safe(s, Next(s, w, Settle(id)))
  {
    var w' := Next(s, w, Settle(id));
    if w' != w && w'.loading.Some? {
      var other :| other in w.requests && w.requests[other].generation == w.loading.value;
      assert other in w'.requests;
    }
  }

  lemma SafeStep(s: Site, w: World, step: Step)
    requires FeedsOk(s) && s.keyed && s.guarded && Safe(s, w) && Allowed(s, w, step)
    ensures Safe(s, Next(s, w, step))
  {
    match step
    case Render(key) => RenderSafe(s, w, key);
    case LoadMore => LoadMoreSafe(s, w);
    case Replace(count, more) => ReplaceSafe(s, w, step);
    case AssumeMore =>
    case Reply(id) => ReplySafe(s, w, id);
    case Fail(id) => if Pending(w, id) { AnswerSafe(s, w, id); }
    case Settle(id) => SettleSafe(s, w, id);
  }

  lemma {:induction false} SafeRun(s: Site, w: World, steps: seq<Step>)
    requires FeedsOk(s) && s.keyed && s.guarded && Safe(s, w) && Orderly(s, w, steps)
    ensures Safe(s, Exec(s, w, steps))
  {
    if steps != [] {
      SafeRun(s, w, steps[..|steps| - 1]);
      SafeStep(s, Exec(s, w, steps[..|steps| - 1]), steps[|steps| - 1]);
    }
  }
}
