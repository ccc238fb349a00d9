/** What cursor pagination guarantees, and exactly which pages and which replacements it needs for that. */
module PaginationTheorems {
  import opened Options
  import opened Pagination

  /**
   In every run in which replacements drop no cursor in use, the list is the upper part of its feed,
   without gap or repeat, `hasMore` goes out only at the end of the feed, and no key change, late reply or
   stale rendering puts items of another feed on it. At most one load per generation is in flight.
   */
  lemma ListStaysARun(s: Site, key: Key, steps: seq<Step>)
    requires FeedsOk(s) && s.keyed && s.guarded && Orderly(s, Start(key), steps)
    ensures var w := Exec(s, Start(key), steps);
            && (w.itemsKey.Some? ==> w.items <= s.feed(w.itemsKey.value) && (!w.hasMore ==> w.items == s.feed(w.itemsKey.value)))
            && (w.itemsKey.None? ==> w.items == [])
            && (forall i, j :: 0 <= i < j < |w.items| ==> w.items[i] > w.items[j])
            && (forall a, b :: a in w.requests && b in w.requests && w.requests[a].generation == w.requests[b].generation ==> a == b)
  {
    SafeRun(s, Start(key), steps);
    var w := Exec(s, Start(key), steps);
    if w.itemsKey.Some? {
      assert NewestFirst(s.feed(w.itemsKey.value));
    }
  }

  /* ------------------------------ which replacements are harmless ------------------------------ */

  ghost predicate StaysGood(s: Site, w: World) {
    forall steps :: Orderly(s, w, steps) ==> Good(s, Exec(s, w, steps))
  }

  /** Can orderly steps from here spoil the list? */
  ghost predicate Spoils(s: Site, w: World, steps: seq<Step>) {
    Orderly(s, w, steps) && !Good(s, Exec(s, w, steps))
  }

  lemma {:induction false} InTwo(s: Site, w: World, a: seq<Step>, b: seq<Step>)
    ensures Exec(s, w, a + b) == Exec(s, Exec(s, w, a), b)
    ensures Orderly(s, w, a) && Orderly(s, Exec(s, w, a), b) ==> Orderly(s, w, a + b)
  {
    if b == [] {
      assert a + b == a;
    } else {
      assert (a + b)[..|a + b| - 1] == a + b[..|b| - 1];
      InTwo(s, w, a, b[..|b| - 1]);
    }
  }

  lemma OneStep(s: Site, w: World, step: Step)
    ensures Exec(s, w, [step]) == Next(s, w, step) && (Allowed(s, w, step) ==> Orderly(s, w, [step]))
  {
    var steps := [step];
    assert steps[..|steps| - 1] == [];
    assert Orderly(s, w, []) && Exec(s, w, []) == w;
  }

  lemma SpoilsNow(s: Site, w: World, step: Step)
    requires Allowed(s, w, step) && !Good(s, Next(s, w, step))
    ensures Spoils(s, w, [step])
  {
    OneStep(s, w, step);
  }

  lemma SpoilsLater(s: Site, w: World, step: Step, rest: seq<Step>)
    requires Allowed(s, w, step) && Spoils(s, Next(s, w, step), rest)
    ensures Spoils(s, w, [step] + rest)
  {
    OneStep(s, w, step);
    InTwo(s, w, [step], rest);
  }

  /** A reply to a cursor below the list leaves a gap, or ends the list too early. */
  lemma LowReplySpoils(s: Site, w: World, id: nat, count: nat)
    requires FeedsOk(s) && Pending(w, id) && w.requests[id].generation == w.generation && w.requests[id].key == w.key
    requires count < After(s.feed(w.key), w.requests[id].untilId) && w.itemsKey == Some(w.key) && w.items == s.feed(w.key)[..count]
    ensures Spoils(s, w, [Reply(id)])
  {
    var feed := s.feed(w.key);
    var rows := NextPage(s, w.key, w.requests[id].untilId);
    var from := After(feed, w.requests[id].untilId);
    var w' := Next(s, w, Reply(id));
    if rows != [] {
      assert rows[0] == feed[from];
      forall k | 0 <= k < |w.items|
        ensures w.items[k] != rows[0]
      {
        assert w.items[k] == feed[k];
      }
      assert w'.items[count] == rows[0];
      assert feed[count] > feed[from];
    } else {
      assert from == |feed| && !w'.hasMore;
      assert w'.items == w.items;
    }
    SpoilsNow(s, w, Reply(id));
  }

  /** With nothing in flight, loading on from a rendered list longer than the replaced one spoils it. */
  lemma LongShownSpoils(s: Site, w: World, count: nat)
    requires FeedsOk(s) && w.loading != Some(w.generation) && w.shownKey == Some(w.key) && w.next !in w.requests
    requires count < |w.shown| && w.shown <= s.feed(w.key) && w.itemsKey == Some(w.key) && w.items == s.feed(w.key)[..count]
    ensures Spoils(s, w, [LoadMore] + [Reply(w.next)])
  {
    AfterItem(s.feed(w.key), |w.shown| - 1);
    LowReplySpoils(s, Next(s, w, LoadMore), w.next, count);
    SpoilsLater(s, w, LoadMore, [Reply(w.next)]);
  }

  lemma DroppingSpoils(s: Site, w: World, count: nat, more: bool) returns (steps: seq<Step>)
    requires FeedsOk(s) && s.keyed && s.guarded && Safe(s, w) && Drops(s, w, count)
    ensures Spoils(s, Next(s, w, Replace(count, more)), steps)
  {
    var w' := Next(s, w, Replace(count, more));
    if id :| Current(w, id) && !w.requests[id].answered && count < After(s.feed(w.key), w.requests[id].untilId) {
      LowReplySpoils(s, w', id, count);
      steps := [Reply(id)];
    } else {
      assert w.shown <= s.feed(w.key);
      if w.loading == Some(w.generation) {
        // The load in flight may fail and settle first.
        var id :| id in w.requests && w.requests[id].generation == w.loading.value;
        var failed := Next(s, w', Fail(id));
        var settled := Next(s, failed, Settle(id));
        LongShownSpoils(s, settled, count);
        SpoilsLater(s, failed, Settle(id), [LoadMore] + [Reply(w.next)]);
        SpoilsLater(s, w', Fail(id), [Settle(id)] + ([LoadMore] + [Reply(w.next)]));
        steps := [Fail(id)] + ([Settle(id)] + ([LoadMore] + [Reply(w.next)]));
      } else {
        LongShownSpoils(s, w', count);
        steps := [LoadMore] + [Reply(w.next)];
      }
    }
  }

  /**
   Replacing the list, telling truthfully whether there is more, is harmless whatever happens next
   exactly if it drops no cursor in use.
   */
  lemma ReplacingIsHarmlessExactly(s: Site, key: Key, steps: seq<Step>, count: nat, more: bool)
    requires FeedsOk(s) && s.keyed && s.guarded && Orderly(s, Start(key), steps)
    requires Truthful(s, Exec(s, Start(key), steps), Replace(count, more))
    ensures var w := Exec(s, Start(key), steps);
            StaysGood(s, Next(s, w, Replace(count, more))) <==> !Drops(s, w, count)
  {
    var w := Exec(s, Start(key), steps);
    SafeRun(s, Start(key), steps);
    var w' := Next(s, w, Replace(count, more));
    if Drops(s, w, count) {
      var spoiling := DroppingSpoils(s, w, count, more);
    } else {
      SafeStep(s, w, Replace(count, more));
      forall later | Orderly(s, w', later)
        ensures Good(s, Exec(s, w', later))
      {
        SafeRun(s, w', later);
      }
    }
  }

  /* ------------------------------ which pages are safe ------------------------------ */

  const FEEDS: Key -> seq<Id> := (key: Key) => if key == "a" then [9, 8, 7, 6] else [5, 4, 3, 2]

  lemma MergeTwo(a: Id, b: Id, c: Id, d: Id)
    requires c != a && c != b && d != a && d != b
    ensures Merge([a, b], [c, d]) == [a, b, c, d]
  {
    AllUnseen([a, b], [c, d]);
  }

  lemma AfterInFeeds()
    ensures After(FEEDS("a"), 8) == 2 && After(FEEDS("b"), 8) == 0
  {
    AfterItem(FEEDS("a"), 1);
  }

  /** A page that does not pass its key to the hook: the late reply for "a" lands on the list of "b". */
  lemma LateReplySpoils(guarded: bool) returns (steps: seq<Step>)
    ensures Spoils(Site(FEEDS, 2, false, guarded), Start("a"), steps)
  {
    var s := Site(FEEDS, 2, false, guarded);
    var loaded := World("a", 0, None, [9, 8], Some("a"), true, [9, 8], Some("a"), map[], 0);
    var waiting := loaded.(loading := Some(0), requests := map[0 := Request(0, "a", 8, false)], next := 1);
    var changed := waiting.(key := "b");
    AfterInFeeds();
    steps := ReplacedThenLate(s, changed);
    steps := Before(s, waiting, Render("b"), changed, steps);
    steps := Before(s, loaded, LoadMore, waiting, steps);
    steps := FirstPage(s, loaded, steps);
  }

  /** The list of "b" is loaded, and then the reply for "a" arrives. */
  lemma ReplacedThenLate(s: Site, changed: World) returns (steps: seq<Step>)
    requires s.feed == FEEDS && s.pageSize == 2 && !s.keyed
    requires changed == World("b", 0, Some(0), [9, 8], Some("a"), true, [9, 8], Some("a"), map[0 := Request(0, "a", 8, false)], 1)
    ensures Spoils(s, changed, steps)
  {
    var replaced := changed.(items := [5, 4], itemsKey := Some("b"));
    AfterInFeeds();
    MergeTwo(5, 4, 7, 6);
    assert Next(s, replaced, Reply(0)).items[2] == 7;
    SpoilsNow(s, replaced, Reply(0));
    steps := Before(s, changed, Replace(2, true), replaced, [Reply(0)]);
  }

  /** A page without the guard: after the change to "b" the list of "a" goes on with items of "b". */
  lemma EarlyLoadSpoils(keyed: bool) returns (steps: seq<Step>)
    ensures Spoils(Site(FEEDS, 2, keyed, false), Start("a"), steps)
  {
    var s := Site(FEEDS, 2, keyed, false);
    var loaded := World("a", 0, None, [9, 8], Some("a"), true, [9, 8], Some("a"), map[], 0);
    var changed := loaded.(key := "b", generation := if keyed then 1 else 0);
    var g := changed.generation;
    var waiting := changed.(loading := Some(g), requests := map[0 := Request(g, "b", 8, false)], next := 1);
    AfterInFeeds();
    MergeTwo(9, 8, 5, 4);
    assert Next(s, waiting, Reply(0)).items[2] == 5;
    steps := [Reply(0)];
    SpoilsNow(s, waiting, Reply(0));
    steps := Before(s, changed, LoadMore, waiting, steps);
    steps := Before(s, loaded, Render("b"), changed, steps);
    steps := FirstPage(s, loaded, steps);
  }

  lemma Before(s: Site, w: World, step: Step, w': World, rest: seq<Step>) returns (steps: seq<Step>)
    requires Allowed(s, w, step) && Next(s, w, step) == w' && Spoils(s, w', rest)
    ensures steps == [step] + rest && Spoils(s, w, steps)
  {
    steps := [step] + rest;
    SpoilsLater(s, w, step, rest);
  }

  /** The first page of "a" is loaded and rendered. */
  lemma FirstPage(s: Site, loaded: World, rest: seq<Step>) returns (steps: seq<Step>)
    requires s.feed == FEEDS && Spoils(s, loaded, rest)
    requires loaded == World("a", 0, None, [9, 8], Some("a"), true, [9, 8], Some("a"), map[], 0)
    ensures Spoils(s, Start("a"), steps)
  {
    var replaced := loaded.(shown := [], shownKey := None);
    steps := Before(s, replaced, Render("a"), loaded, rest);
    steps := Before(s, Start("a"), Replace(2, true), replaced, steps);
  }

  /** Every page of this kind keeps its list a run of its feed. */
  ghost predicate AlwaysGood(keyed: bool, guarded: bool) {
    forall s: Site, key: Key :: FeedsOk(s) && s.keyed == keyed && s.guarded == guarded ==> StaysGood(s, Start(key))
  }

  /** The hook's key and the page's guard are both needed, and together they are enough. */
  lemma KeyAndGuardAreNeededExactly(keyed: bool, guarded: bool)
    ensures AlwaysGood(keyed, guarded) <==> keyed && guarded
  {
    var s := Site(FEEDS, 2, keyed, guarded);
    assert FeedsOk(s);
    if !keyed {
      var steps := LateReplySpoils(guarded);
      assert !StaysGood(s, Start("a"));
    } else if !guarded {
      var steps := EarlyLoadSpoils(keyed);
      assert !StaysGood(s, Start("a"));
    } else {
      forall s: Site, key: Key, steps | FeedsOk(s) && s.keyed && s.guarded && Orderly(s, Start(key), steps)
        ensures Good(s, Exec(s, Start(key), steps))
      {
        SafeRun(s, Start(key), steps);
      }
    }
  }
}
