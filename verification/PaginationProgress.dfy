/** That scrolling gets on: a load that may be sent is sent, its reply extends the list, and the end is reached and noticed. */
module PaginationProgress {
  import opened Options
  import opened Pagination
  import opened PaginationTheorems

  /** The list of the current key is on screen and no load of it is in flight. */
  ghost predicate Calm(s: Site, w: World) {
    && Safe(s, w) && w.itemsKey == Some(w.key) && w.shownKey == Some(w.key) && w.shown == w.items && w.items != []
    && w.loading != Some(w.generation)
  }

  /** A load is sent exactly if the page may load, nothing of this generation is in flight and a cursor is on screen; it asks for what follows that. */
  lemma LoadIsSentExactly(s: Site, w: World)
    requires Safe(s, w)
    ensures var w' := Next(s, w, LoadMore);
            && (w' != w <==> (s.guarded ==> w.shownKey == Some(w.key)) && w.loading != Some(w.generation) && w.shown != [])
            && (w' != w ==> w.next in w'.requests && w'.requests[w.next] == Request(w.generation, w.key, w.shown[|w.shown| - 1], false)
                            && w'.loading == Some(w.generation))
            && w'.items == w.items
  {
  }

  /** A reply is appended exactly if it is of the current generation. */
  lemma ReplyCountsExactly(s: Site, w: World, id: nat)
    requires FeedsOk(s) && Safe(s, w) && Pending(w, id)
    ensures var w' := Next(s, w, Reply(id)); var r := w.requests[id];
            && id in w'.requests && w'.requests[id].answered
            && (r.generation != w.generation ==> w'.items == w.items && w'.hasMore == w.hasMore)
            && (r.generation == w.generation ==> forall item :: item in NextPage(s, r.key, r.untilId) || item in w.items <==> item in w'.items)
  {
    var r := w.requests[id];
    UnseenAre(w.items, NextPage(s, r.key, r.untilId));
  }

  lemma {:induction false} UnseenAre(prev: seq<Id>, rows: seq<Id>)
    ensures forall item :: item in Unseen(prev, rows) <==> item in rows && item !in prev
  {
    if rows != [] { UnseenAre(prev, rows[1..]); }
  }

  /** The steps of one page more. */
  function OnePage(key: Key, id: nat): seq<Step> {
    [LoadMore] + ([Reply(id)] + ([Settle(id)] + [Render(key)]))
  }

  lemma RunOf(s: Site, w: World, step: Step, rest: seq<Step>)
    ensures Exec(s, w, [step] + rest) == Exec(s, Next(s, w, step), rest)
  {
    OneStep(s, w, step);
    InTwo(s, w, [step], rest);
  }

  /** The steps of one page, taken one after the other. */
  lemma OnePageIs(s: Site, w: World)
    ensures var id := w.next;
            Exec(s, w, OnePage(w.key, id)) == Next(s, Next(s, Next(s, Next(s, w, LoadMore), Reply(id)), Settle(id)), Render(w.key))
  {
    var id := w.next;
    var w1 := Next(s, w, LoadMore);
    var w2 := Next(s, w1, Reply(id));
    RunOf(s, w, LoadMore, [Reply(id)] + ([Settle(id)] + [Render(w.key)]));
    RunOf(s, w1, Reply(id), [Settle(id)] + [Render(w.key)]);
    RunOf(s, w2, Settle(id), [Render(w.key)]);
    OneStep(s, Next(s, w2, Settle(id)), Render(w.key));
  }

  /** The page behind the end of a list extends it. */
  lemma NextPageExtends(s: Site, key: Key, items: seq<Id>)
    requires FeedsOk(s) && items <= s.feed(key) && items != []
    ensures var feed := s.feed(key); var rows := NextPage(s, key, items[|items| - 1]);
            && Merge(items, rows) == feed[..Min(|items| + s.pageSize, |feed|)] && (|rows| >= s.pageSize <==> |items| + s.pageSize <= |feed|)
  {
    var feed := s.feed(key);
    AfterItem(feed, |items| - 1);
    assert items == feed[..|items|];
    MergeExtends(feed, |items|, |items|, Min(|items| + s.pageSize, |feed|));
  }

  lemma LoadAndReply(s: Site, w: World)
    requires FeedsOk(s) && s.keyed && s.guarded && Calm(s, w)
    ensures var feed, id := s.feed(w.key), w.next; var w2 := Next(s, Next(s, w, LoadMore), Reply(id));
            && Safe(s, w2) && w2.key == w.key && w2.generation == w.generation && w2.itemsKey == Some(w.key)
            && w2.loading == Some(w.generation) && id in w2.requests && w2.requests[id].answered && w2.requests[id].generation == w.generation
            && w2.items == feed[..Min(|w.items| + s.pageSize, |feed|)] && w2.hasMore == (|w.items| + s.pageSize <= |feed|)
  {
    LoadMoreSafe(s, w);
    ReplySafe(s, Next(s, w, LoadMore), w.next);
    NextPageExtends(s, w.key, w.items);
  }

  lemma SettleAndRender(s: Site, w: World, id: nat)
    requires FeedsOk(s) && s.keyed && s.guarded && Safe(s, w) && w.itemsKey == Some(w.key) && w.items != []
    requires w.loading == Some(w.generation) && id in w.requests && w.requests[id].answered && w.requests[id].generation == w.generation
    ensures var w' := Next(s, Next(s, w, Settle(id)), Render(w.key));
            Calm(s, w') && w'.key == w.key && w'.items == w.items && w'.hasMore == w.hasMore
  {
    SettleSafe(s, w, id);
    RenderSafe(s, Next(s, w, Settle(id)), w.key);
  }

  /** One page more: as many items as the server gives are appended, and a page that is not full ends the list. */
  lemma OnePageMore(s: Site, w: World)
    requires FeedsOk(s) && s.keyed && s.guarded && Calm(s, w)
    ensures var feed, w' := s.feed(w.key), Exec(s, w, OnePage(w.key, w.next));
            && Calm(s, w') && w'.key == w.key
            && w'.items == feed[..Min(|w.items| + s.pageSize, |feed|)]
            && (w'.hasMore <==> |w.items| + s.pageSize <= |feed|)
  {
    OnePageIs(s, w);
    LoadAndReply(s, w);
    SettleAndRender(s, Next(s, Next(s, w, LoadMore), Reply(w.next)), w.next);
  }

  /** Scrolling on, page by page, the list reaches the end of its feed, and then knows it. */
  lemma {:induction false} ScrollingReachesTheEnd(s: Site, w: World) returns (steps: seq<Step>)
    requires FeedsOk(s) && s.keyed && s.guarded && Calm(s, w)
    ensures var w' := Exec(s, w, steps); w'.items == s.feed(w.key) && !w'.hasMore && Calm(s, w')
    ensures forall k :: 0 <= k < |steps| ==> !steps[k].Replace? && !steps[k].Fail?
    decreases |s.feed(w.key)| - |w.items|
  {
    OnePageMore(s, w);
    steps := OnePage(w.key, w.next);
    var w' := Exec(s, w, steps);
    if w'.hasMore {
      var rest := ScrollingReachesTheEnd(s, w');
      InTwo(s, w, steps, rest);
      steps := steps + rest;
    }
  }
}
