/** The hook's refs and state setters as the program writes them; the requests in flight are outside of it. */
module PaginationHook {
  import opened Options
  import opened Pagination

  class Hook {
    const site: Site
    var key: Key
    var generation: nat
    var loadingGeneration: Option<nat>
    var items: seq<Id>
    var itemsKey: Option<Key>
    var hasMore: bool
    var shown: seq<Id>
    var shownKey: Option<Key>

    /** The hook and what is in flight, as a world. */
    ghost function AsWorld(requests: map<nat, Request>, next: nat): World
      reads this
    {
      World(key, generation, loadingGeneration, items, itemsKey, hasMore, shown, shownKey, requests, next)
    }

    constructor (s: Site, resetKey: Key)
      ensures site == s && AsWorld(map[], 0) == Start(resetKey)
    {
      site, key, generation, loadingGeneration := s, resetKey, 0, None;
      items, itemsKey, hasMore, shown, shownKey := [], None, true, [], None;
    }

    /** A rendering with the queued updates applied, possibly with another key. */
    method Rerender(resetKey: Key, ghost requests: map<nat, Request>, ghost next: nat)
      modifies this
      ensures AsWorld(requests, next) == Next(site, old(AsWorld(requests, next)), Render(resetKey))
    {
      shown, shownKey := items, itemsKey;
      if key != resetKey {
        key := resetKey;
        if site.keyed { generation := generation + 1; }
      }
    }

    /** `loadMore`, behind the page's guard: the request it sends, if any. */
    method LoadNext(ghost requests: map<nat, Request>, ghost next: nat) returns (sent: Option<Request>)
      modifies this`loadingGeneration
      ensures Next(site, old(AsWorld(requests, next)), LoadMore)
           == if sent.Some? then AsWorld(requests[next := sent.value], next + 1) else AsWorld(requests, next)
    {
      if site.guarded && shownKey != Some(key) { return None; }
      if loadingGeneration == Some(generation) || |shown| == 0 { return None; }
      loadingGeneration := Some(generation);
      sent := Some(Request(generation, key, shown[|shown| - 1], false));
    }

    /** The page replaces the list by one of the current key. */
    method SetItems(count: nat, more: bool, ghost requests: map<nat, Request>, ghost next: nat)
      modifies this
      ensures AsWorld(requests, next) == Next(site, old(AsWorld(requests, next)), Replace(count, more))
    {
      var feed := site.feed(key);
      items, itemsKey, hasMore := feed[..Min(count, |feed|)], Some(key), more;
    }

    /** A reply arrives: rows of an older generation are thrown away. */
    method Received(id: nat, r: Request, rows: seq<Id>, ghost requests: map<nat, Request>, ghost next: nat)
      requires id in requests && requests[id] == r && !r.answered && rows == NextPage(site, r.key, r.untilId)
      modifies this`items, this`hasMore
      ensures AsWorld(requests[id := r.(answered := true)], next) == Next(site, old(AsWorld(requests, next)), Reply(id))
    {
      if generation != r.generation { return; }
      items, hasMore := Merge(items, rows), |rows| >= site.pageSize;
    }

    /** The clean-up after a reply or an error; a newer load stays marked. */
    method Finished(id: nat, r: Request, ghost requests: map<nat, Request>, ghost next: nat)
      requires id in requests && requests[id] == r && r.answered
      modifies this`loadingGeneration
      ensures AsWorld(requests - {id}, next) == Next(site, old(AsWorld(requests, next)), Settle(id))
    {
      if loadingGeneration != Some(r.generation) { return; }
      loadingGeneration := None;
    }
  }
}
