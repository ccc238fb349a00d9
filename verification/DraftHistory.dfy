/** What local storage holds after any sequence of saves and clears, told by that sequence alone. */
module DraftHistory {
  import opened Options
  import opened Cardinality
  import opened DraftKeys
  import opened Drafts

  /** The storage after a history of calls. */
  function StorageAfter(white: char -> bool, keys: Keys, ops: seq<Op>): Storage {
    if ops == [] then map[]
    else Applied(white, keys, StorageAfter(white, keys, ops[..|ops| - 1]), ops[|ops| - 1])
  }

  predicate Keeps(white: char -> bool, op: Op) {
    op.Save? && !Empty(white, op.draft)
  }

  /** The number of the last call on a target, counted from one. */
  function LastOp(ops: seq<Op>, target: Target): (n: nat)
    ensures n <= |ops|
  {
    if ops == [] then 0
    else if ops[|ops| - 1].target == target then |ops|
    else LastOp(ops[..|ops| - 1], target)
  }

  /** What that call left there. */
  function LastDraft(white: char -> bool, ops: seq<Op>, target: Target): Option<Draft> {
    if ops == [] then None
    else
      var op := ops[|ops| - 1];
      if op.target != target then LastDraft(white, ops[..|ops| - 1], target)
      else if Keeps(white, op) then Some(op.draft)
      else None
  }

  /** The other posts on which a draft was saved after the last call on `postId`. */
  function SavedSince(white: char -> bool, ops: seq<Op>, owner: Owner, postId: string): set<string> {
    if ops == [] || ops[|ops| - 1].target == On(owner, postId) then {}
    else
      var op := ops[|ops| - 1];
      SavedSince(white, ops[..|ops| - 1], owner, postId)
        + if Keeps(white, op) && op.target.On? && op.target.owner == owner then {op.target.postId} else {}
  }

  function IdsIn(keys: Keys, storage: Storage, owner: Owner): seq<string> {
    ReadIndex(storage, keys.index(owner))
  }

  /* ------------------------------------ lists ordered by a rank ------------------------------------ */

  /** Strictly increasing, hence without repeats. */
  ghost predicate Ranked(rank: string -> nat, ids: seq<string>) {
    forall i, j :: 0 <= i < j < |ids| ==> rank(ids[i]) < rank(ids[j])
  }

  lemma {:induction false} WithoutMembers(ids: seq<string>, postId: string)
    ensures forall q :: q in Without(ids, postId) <==> q in ids && q != postId
    ensures if postId in ids then |Without(ids, postId)| < |ids| else Without(ids, postId) == ids
  {
    if ids != [] {
      WithoutMembers(ids[1..], postId);
      assert ids == [ids[0]] + ids[1..];
    }
  }

  lemma {:induction false} WithoutRanked(rank: string -> nat, ids: seq<string>, postId: string)
    requires Ranked(rank, ids)
    ensures Ranked(rank, Without(ids, postId))
  {
    if ids != [] {
      var rest := ids[1..];
      assert forall k :: 0 <= k < |rest| ==> rest[k] == ids[k + 1];
      WithoutRanked(rank, rest, postId);
      WithoutMembers(rest, postId);
      var kept := Without(rest, postId);
      forall k | 0 <= k < |kept|
        ensures rank(ids[0]) < rank(kept[k])
      {
        assert kept[k] in rest;
      }
    }
  }

  /* ------------------------------------ one call ------------------------------------ */

  /** What a call on a post leaves in the index: the post moved to the end, and at most ten posts. */
  function NewIds(ids: seq<string>, postId: string): seq<string> {
    var list := Without(ids, postId) + [postId];
    if |list| > MAX_TARGETED_DRAFTS then list[1..] else list
  }

  lemma DropsAtMostOne(keys: Keys, storage: Storage, owner: Owner, ids: seq<string>)
    requires |ids| <= MAX_TARGETED_DRAFTS + 1
    ensures DropOldest(keys, storage, owner, ids)
         == if |ids| <= MAX_TARGETED_DRAFTS then (storage, ids) else (storage - {keys.draft(On(owner, ids[0]))}, ids[1..])
  {
    if |ids| == MAX_TARGETED_DRAFTS + 1 {
      assert DropOldest(keys, storage - {keys.draft(On(owner, ids[0]))}, owner, ids[1..]) == (storage - {keys.draft(On(owner, ids[0]))}, ids[1..]);
    }
  }

  predicate Evicts(ids: seq<string>, postId: string, other: string) {
    var list := Without(ids, postId) + [postId];
    |list| > MAX_TARGETED_DRAFTS && other == list[0]
  }

  /** Saving on a post: its draft is stored, at most the oldest other draft of the owner goes. */
  lemma SaveOnPost(white: char -> bool, keys: Keys, storage: Storage, owner: Owner, postId: string, draft: Draft)
    requires Apart(keys) && !Empty(white, draft)
    requires var ids := IdsIn(keys, storage, owner); |Without(ids, postId)| <= MAX_TARGETED_DRAFTS && postId !in Without(ids, postId)
    ensures var s := Saved(white, keys, storage, On(owner, postId), draft);
            var ids := IdsIn(keys, storage, owner);
            && IdsIn(keys, s, owner) == NewIds(ids, postId)
            && (forall o :: o != owner ==> IdsIn(keys, s, o) == IdsIn(keys, storage, o))
            && (forall t :: Loaded(keys, s, t) == if t == On(owner, postId) then Some(draft)
                                                  else if t.On? && t.owner == owner && Evicts(ids, postId, t.postId) then None
                                                  else Loaded(keys, storage, t))
  {
    var with := storage[keys.draft(On(owner, postId)) := DraftValue(draft)];
    var list := Without(IdsIn(keys, storage, owner), postId) + [postId];
    assert ReadIndex(with, keys.index(owner)) == IdsIn(keys, storage, owner);
    DropsAtMostOne(keys, with, owner, list);
    assert list[0] != postId || |list| == 1;
  }

  /** Clearing a post: its draft and its place in the index go. */
  lemma ClearOnPost(white: char -> bool, keys: Keys, storage: Storage, owner: Owner, postId: string)
    requires Apart(keys)
    ensures var s := Cleared(keys, storage, On(owner, postId));
            && IdsIn(keys, s, owner) == Without(IdsIn(keys, storage, owner), postId)
            && (forall o :: o != owner ==> IdsIn(keys, s, o) == IdsIn(keys, storage, o))
            && (forall t :: Loaded(keys, s, t) == if t == On(owner, postId) then None else Loaded(keys, storage, t))
  {
    var without := storage - {keys.draft(On(owner, postId))};
    assert ReadIndex(without, keys.index(owner)) == IdsIn(keys, storage, owner);
  }

  /* ------------------------------------ every history ------------------------------------ */

  /** An owner's index and drafts: the last ones saved, least recently saved first, others only gone for ten newer ones. */
  ghost predicate OwnerSound(white: char -> bool, ops: seq<Op>, owner: Owner, ids: seq<string>, drafts: string -> Option<Draft>) {
    && |ids| <= MAX_TARGETED_DRAFTS
    && Ranked((q: string) => LastOp(ops, On(owner, q)), ids)
    && (forall q :: q in ids <==> drafts(q).Some?)
    && (forall q :: q in ids ==> drafts(q) == LastDraft(white, ops, On(owner, q)))
    && (forall q :: q !in ids && LastDraft(white, ops, On(owner, q)).Some? ==> |SavedSince(white, ops, owner, q)| >= MAX_TARGETED_DRAFTS)
  }

  function DraftsOf(keys: Keys, storage: Storage, owner: Owner): string -> Option<Draft> {
    (q: string) => Loaded(keys, storage, On(owner, q))
  }

  ghost predicate Sound(white: char -> bool, keys: Keys, ops: seq<Op>, storage: Storage) {
    && (forall owner :: OwnerSound(white, ops, owner, IdsIn(keys, storage, owner), DraftsOf(keys, storage, owner)))
    && (forall userId :: Loaded(keys, storage, Compose(userId)) == LastDraft(white, ops, Compose(userId)))
  }

  /** A post with a draft and a later last call has been saved since. */
  lemma {:induction false} LaterIsSavedSince(white: char -> bool, ops: seq<Op>, owner: Owner, postId: string, other: string)
    requires LastOp(ops, On(owner, other)) > LastOp(ops, On(owner, postId)) && LastDraft(white, ops, On(owner, other)).Some?
    ensures other in SavedSince(white, ops, owner, postId)
  {
    if ops[|ops| - 1].target != On(owner, other) {
      LaterIsSavedSince(white, ops[..|ops| - 1], owner, postId, other);
    }
  }

  lemma SavedSinceGrows(white: char -> bool, ops: seq<Op>, op: Op, owner: Owner, postId: string)
    requires op.target != On(owner, postId)
    ensures var ops' := ops + [op];
            && SavedSince(white, ops, owner, postId) <= SavedSince(white, ops', owner, postId)
            && |SavedSince(white, ops, owner, postId)| <= |SavedSince(white, ops', owner, postId)|
            && (Keeps(white, op) && op.target.On? && op.target.owner == owner ==> op.target.postId in SavedSince(white, ops', owner, postId))
  {
    var ops' := ops + [op];
    assert ops'[..|ops'| - 1] == ops;
    CardinalityOfSubset(SavedSince(white, ops, owner, postId), SavedSince(white, ops', owner, postId));
  }

  /** Whoever is dropped from a full index has ten others saved since. */
  lemma OldestIsOld(white: char -> bool, ops: seq<Op>, owner: Owner, ids: seq<string>, op: Op)
    requires |ids| == MAX_TARGETED_DRAFTS && Ranked((q: string) => LastOp(ops, On(owner, q)), ids)
    requires Keeps(white, op) && op.target.On? && op.target.owner == owner && op.target.postId !in ids
    requires forall q :: q in ids ==> LastDraft(white, ops, On(owner, q)).Some?
    ensures |SavedSince(white, ops + [op], owner, ids[0])| >= MAX_TARGETED_DRAFTS
  {
    var others := ids[1..] + [op.target.postId];
    var since := SavedSince(white, ops + [op], owner, ids[0]);
    SavedSinceGrows(white, ops, op, owner, ids[0]);
    forall q | q in others
      ensures q in since
    {
      if q != op.target.postId {
        var k :| 1 <= k < |ids| && ids[k] == q;
        LaterIsSavedSince(white, ops, owner, ids[0], q);
      }
    }
    AsManyElements(others, since);
  }

  /** A call changes what the history says of its own target only. */
  lemma OneMoreCall(white: char -> bool, ops: seq<Op>, op: Op, target: Target)
    ensures LastOp(ops + [op], target) == if op.target == target then |ops| + 1 else LastOp(ops, target)
    ensures LastDraft(white, ops + [op], target) == if op.target != target then LastDraft(white, ops, target)
                                                    else if Keeps(white, op) then Some(op.draft) else None
  {
    var ops' := ops + [op];
    assert ops'[..|ops'| - 1] == ops;
  }

  /** Calls for other owners, or of other kinds, change nothing here. */
  lemma OthersStaySound(white: char -> bool, ops: seq<Op>, op: Op, owner: Owner, ids: seq<string>, drafts: string -> Option<Draft>)
    requires OwnerSound(white, ops, owner, ids, drafts) && (op.target.On? ==> op.target.owner != owner)
    ensures OwnerSound(white, ops + [op], owner, ids, drafts)
  {
    var ops' := ops + [op];
    forall q
      ensures LastOp(ops', On(owner, q)) == LastOp(ops, On(owner, q)) && LastDraft(white, ops', On(owner, q)) == LastDraft(white, ops, On(owner, q))
      ensures |SavedSince(white, ops', owner, q)| >= |SavedSince(white, ops, owner, q)|
    {
      OneMoreCall(white, ops, op, On(owner, q));
      SavedSinceGrows(white, ops, op, owner, q);
    }
  }

  /** Ranks after a call on `postId`: it comes last, the others keep theirs. */
  lemma NewRanks(white: char -> bool, ops: seq<Op>, op: Op, owner: Owner, ids: seq<string>)
    requires Ranked((q: string) => LastOp(ops, On(owner, q)), ids) && op.target.On? && op.target.owner == owner && op.target.postId !in ids
    ensures Ranked((q: string) => LastOp(ops + [op], On(owner, q)), ids + [op.target.postId])
    ensures Ranked((q: string) => LastOp(ops + [op], On(owner, q)), ids)
  {
    var list := ids + [op.target.postId];
    forall i | 0 <= i < |list|
      ensures LastOp(ops + [op], On(owner, list[i])) == if i < |ids| then LastOp(ops, On(owner, ids[i])) else |ops| + 1
    {
      OneMoreCall(white, ops, op, On(owner, list[i]));
      assert i < |ids| ==> list[i] in ids;
    }
  }

  lemma PostCleared(white: char -> bool, ops: seq<Op>, op: Op, owner: Owner, ids: seq<string>, drafts: string -> Option<Draft>, drafts': string -> Option<Draft>)
    requires OwnerSound(white, ops, owner, ids, drafts) && op.target.On? && op.target.owner == owner && !Keeps(white, op)
    requires forall q :: drafts'(q) == if q == op.target.postId then None else drafts(q)
    ensures OwnerSound(white, ops + [op], owner, Without(ids, op.target.postId), drafts')
  {
    WithoutMembers(ids, op.target.postId);
    WithoutRanked((q: string) => LastOp(ops, On(owner, q)), ids, op.target.postId);
    NewRanks(white, ops, op, owner, Without(ids, op.target.postId));
    forall q
      ensures LastDraft(white, ops + [op], On(owner, q)) == if q == op.target.postId then None else LastDraft(white, ops, On(owner, q))
      ensures q != op.target.postId ==> |SavedSince(white, ops + [op], owner, q)| >= |SavedSince(white, ops, owner, q)|
    {
      OneMoreCall(white, ops, op, On(owner, q));
      if q != op.target.postId { SavedSinceGrows(white, ops, op, owner, q); }
    }
  }

  lemma PostSaved(white: char -> bool, ops: seq<Op>, op: Op, owner: Owner, ids: seq<string>, drafts: string -> Option<Draft>, drafts': string -> Option<Draft>)
    requires OwnerSound(white, ops, owner, ids, drafts) && op.target.On? && op.target.owner == owner && Keeps(white, op)
    requires forall q :: drafts'(q) == if q == op.target.postId then Some(op.draft) else if Evicts(ids, op.target.postId, q) then None else drafts(q)
    ensures OwnerSound(white, ops + [op], owner, NewIds(ids, op.target.postId), drafts')
  {
    var postId := op.target.postId;
    NewIdsAre(white, ops, op, owner, ids);
    forall q
      ensures LastDraft(white, ops + [op], On(owner, q)) == if q == postId then Some(op.draft) else LastDraft(white, ops, On(owner, q))
    {
      OneMoreCall(white, ops, op, On(owner, q));
    }
    forall q | q !in NewIds(ids, postId) && LastDraft(white, ops + [op], On(owner, q)).Some?
      ensures |SavedSince(white, ops + [op], owner, q)| >= MAX_TARGETED_DRAFTS
    {
      MissingIsOld(white, ops, op, owner, ids, drafts, q);
    }
  }

  /** The index after a save: the post last, the others of before but the one dropped, in their order. */
  lemma NewIdsAre(white: char -> bool, ops: seq<Op>, op: Op, owner: Owner, ids: seq<string>)
    requires Ranked((q: string) => LastOp(ops, On(owner, q)), ids) && |ids| <= MAX_TARGETED_DRAFTS
    requires op.target.On? && op.target.owner == owner
    ensures var postId := op.target.postId;
            && (forall q :: q in NewIds(ids, postId) <==> q == postId || (q in ids && !Evicts(ids, postId, q)))
            && Ranked((q: string) => LastOp(ops + [op], On(owner, q)), NewIds(ids, postId))
            && |NewIds(ids, postId)| <= MAX_TARGETED_DRAFTS && !Evicts(ids, postId, postId)
  {
    var postId := op.target.postId;
    WithoutMembers(ids, postId);
    WithoutRanked((q: string) => LastOp(ops, On(owner, q)), ids, postId);
    NewRanks(white, ops, op, owner, Without(ids, postId));
    MembersOfNewIds(ids, postId, (q: string) => LastOp(ops + [op], On(owner, q)));
  }

  /** A saved draft that is missing afterwards was missing before or is the one dropped now. */
  lemma MissingIsOld(white: char -> bool, ops: seq<Op>, op: Op, owner: Owner, ids: seq<string>, drafts: string -> Option<Draft>, q: string)
    requires OwnerSound(white, ops, owner, ids, drafts) && op.target.On? && op.target.owner == owner && Keeps(white, op)
    requires q != op.target.postId && (q in ids ==> Evicts(ids, op.target.postId, q))
    requires LastDraft(white, ops, On(owner, q)).Some?
    ensures |SavedSince(white, ops + [op], owner, q)| >= MAX_TARGETED_DRAFTS
  {
    SavedSinceGrows(white, ops, op, owner, q);
    WithoutMembers(ids, op.target.postId);
    if q in ids { OldestIsOld(white, ops, owner, ids, op); }
  }

  lemma MembersOfNewIds(ids: seq<string>, postId: string, rank: string -> nat)
    requires Ranked(rank, Without(ids, postId) + [postId]) && |ids| <= MAX_TARGETED_DRAFTS
    ensures forall q :: q in NewIds(ids, postId) <==> q == postId || (q in ids && !Evicts(ids, postId, q))
    ensures Ranked(rank, NewIds(ids, postId)) && |NewIds(ids, postId)| <= MAX_TARGETED_DRAFTS
    ensures !Evicts(ids, postId, postId)
  {
    WithoutMembers(ids, postId);
    var list := Without(ids, postId) + [postId];
    assert forall q :: q in list <==> q in ids || q == postId;
    FirstRanksLowest(rank, list);
  }

  lemma FirstRanksLowest(rank: string -> nat, list: seq<string>)
    requires Ranked(rank, list) && list != []
    ensures Ranked(rank, list[1..]) && list[0] !in list[1..] && forall q :: q in list <==> q == list[0] || q in list[1..]
  {
    assert forall k :: 1 <= k < |list| ==> rank(list[0]) < rank(list[k]);
    assert list == [list[0]] + list[1..];
  }

  /** A call on one post, seen by its owner. */
  lemma OwnPostSound(white: char -> bool, keys: Keys, ops: seq<Op>, storage: Storage, op: Op)
    requires Apart(keys) && op.target.On? && Sound(white, keys, ops, storage)
    ensures var s := Applied(white, keys, storage, op);
            OwnerSound(white, ops + [op], op.target.owner, IdsIn(keys, s, op.target.owner), DraftsOf(keys, s, op.target.owner))
  {
    var owner := op.target.owner;
    assert OwnerSound(white, ops, owner, IdsIn(keys, storage, owner), DraftsOf(keys, storage, owner));
    if Keeps(white, op) { OwnPostSaved(white, keys, ops, storage, op); } else { OwnPostCleared(white, keys, ops, storage, op); }
  }

  lemma OwnPostSaved(white: char -> bool, keys: Keys, ops: seq<Op>, storage: Storage, op: Op)
    requires Apart(keys) && op.target.On? && Keeps(white, op)
    requires OwnerSound(white, ops, op.target.owner, IdsIn(keys, storage, op.target.owner), DraftsOf(keys, storage, op.target.owner))
    ensures var s := Applied(white, keys, storage, op);
            OwnerSound(white, ops + [op], op.target.owner, IdsIn(keys, s, op.target.owner), DraftsOf(keys, s, op.target.owner))
  {
    var owner, postId := op.target.owner, op.target.postId;
    var ids := IdsIn(keys, storage, owner);
    WithoutMembers(ids, postId);
    SaveOnPost(white, keys, storage, owner, postId, op.draft);
    PostSaved(white, ops, op, owner, ids, DraftsOf(keys, storage, owner), DraftsOf(keys, Applied(white, keys, storage, op), owner));
  }

  lemma OwnPostCleared(white: char -> bool, keys: Keys, ops: seq<Op>, storage: Storage, op: Op)
    requires Apart(keys) && op.target.On? && !Keeps(white, op)
    requires OwnerSound(white, ops, op.target.owner, IdsIn(keys, storage, op.target.owner), DraftsOf(keys, storage, op.target.owner))
    ensures var s := Applied(white, keys, storage, op);
            OwnerSound(white, ops + [op], op.target.owner, IdsIn(keys, s, op.target.owner), DraftsOf(keys, s, op.target.owner))
  {
    var owner, postId := op.target.owner, op.target.postId;
    ClearOnPost(white, keys, storage, owner, postId);
    PostCleared(white, ops, op, owner, IdsIn(keys, storage, owner), DraftsOf(keys, storage, owner), DraftsOf(keys, Applied(white, keys, storage, op), owner));
  }

  /** A call on one target leaves everything of the other owners and all composer drafts but its own. */
  lemma OthersUntouched(white: char -> bool, keys: Keys, ops: seq<Op>, storage: Storage, op: Op)
    requires Apart(keys) && Sound(white, keys, ops, storage)
    ensures var s := Applied(white, keys, storage, op);
            && (forall o: Owner :: (op.target.On? ==> o != op.target.owner) ==> IdsIn(keys, s, o) == IdsIn(keys, storage, o))
            && (forall t: Target :: t != op.target && (t.On? && op.target.On? ==> t.owner != op.target.owner) ==> Loaded(keys, s, t) == Loaded(keys, storage, t))
            && (op.target.Compose? ==> Loaded(keys, s, op.target) == if Keeps(white, op) then Some(op.draft) else None)
  {
    if op.target.On? {
      var owner, postId := op.target.owner, op.target.postId;
      assert OwnerSound(white, ops, owner, IdsIn(keys, storage, owner), DraftsOf(keys, storage, owner));
      WithoutMembers(IdsIn(keys, storage, owner), postId);
      if Keeps(white, op) { SaveOnPost(white, keys, storage, owner, postId, op.draft); }
      else { ClearOnPost(white, keys, storage, owner, postId); }
    }
  }

  lemma SoundStep(white: char -> bool, keys: Keys, ops: seq<Op>, storage: Storage, op: Op)
    requires Apart(keys) && Sound(white, keys, ops, storage)
    ensures Sound(white, keys, ops + [op], Applied(white, keys, storage, op))
  {
    var s := Applied(white, keys, storage, op);
    forall owner
      ensures OwnerSound(white, ops + [op], owner, IdsIn(keys, s, owner), DraftsOf(keys, s, owner))
    {
      if op.target.On? && op.target.owner == owner {
        OwnPostSound(white, keys, ops, storage, op);
      } else {
        OtherOwnerSound(white, keys, ops, storage, op, owner);
      }
    }
    forall userId
      ensures Loaded(keys, s, Compose(userId)) == LastDraft(white, ops + [op], Compose(userId))
    {
      ComposeSound(white, keys, ops, storage, op, userId);
    }
  }

  lemma OtherOwnerSound(white: char -> bool, keys: Keys, ops: seq<Op>, storage: Storage, op: Op, owner: Owner)
    requires Apart(keys) && Sound(white, keys, ops, storage) && !(op.target.On? && op.target.owner == owner)
    ensures var s := Applied(white, keys, storage, op);
            OwnerSound(white, ops + [op], owner, IdsIn(keys, s, owner), DraftsOf(keys, s, owner))
  {
    var s := Applied(white, keys, storage, op);
    OthersUntouched(white, keys, ops, storage, op);
    assert OwnerSound(white, ops, owner, IdsIn(keys, storage, owner), DraftsOf(keys, storage, owner));
    OthersStaySound(white, ops, op, owner, IdsIn(keys, storage, owner), DraftsOf(keys, storage, owner));
    SameDraftsSound(white, ops + [op], owner, IdsIn(keys, s, owner), DraftsOf(keys, storage, owner), DraftsOf(keys, s, owner));
  }

  lemma ComposeSound(white: char -> bool, keys: Keys, ops: seq<Op>, storage: Storage, op: Op, userId: nat)
    requires Apart(keys) && Sound(white, keys, ops, storage)
    ensures Loaded(keys, Applied(white, keys, storage, op), Compose(userId)) == LastDraft(white, ops + [op], Compose(userId))
  {
    OthersUntouched(white, keys, ops, storage, op);
    OneMoreCall(white, ops, op, Compose(userId));
  }

  lemma SameDraftsSound(white: char -> bool, ops: seq<Op>, owner: Owner, ids: seq<string>, drafts: string -> Option<Draft>, drafts': string -> Option<Draft>)
    requires OwnerSound(white, ops, owner, ids, drafts) && forall q :: drafts'(q) == drafts(q)
    ensures OwnerSound(white, ops, owner, ids, drafts')
  {
  }

  lemma SoundAtFirst(white: char -> bool, keys: Keys)
    ensures Sound(white, keys, [], map[])
  {
  }

  lemma {:induction false} AlwaysSound(white: char -> bool, keys: Keys, ops: seq<Op>)
    requires Apart(keys)
    ensures Sound(white, keys, ops, StorageAfter(white, keys, ops))
  {
    if ops == [] {
      SoundAtFirst(white, keys);
    } else {
      var before, last := ops[..|ops| - 1], ops[|ops| - 1];
      assert before + [last] == ops;
      AlwaysSound(white, keys, before);
      SoundStep(white, keys, before, StorageAfter(white, keys, before), last);
    }
  }

  /* ------------------------------------ what this means to users ------------------------------------ */

  /**
   After any saves and clears, for each user and mode: the stored drafts are exactly those of the posts in
   the index, each the last one saved there; the index has no repeats, at most ten posts, least recently
   saved first; and a saved draft is only missing when ten other posts have been saved since.
   */
  lemma DraftsAreTheIndex(white: char -> bool, ops: seq<Op>, owner: Owner)
    ensures var s := StorageAfter(white, KEYS, ops); var ids := IdsIn(KEYS, s, owner);
            && |ids| <= 10
            && (forall i, j :: 0 <= i < j < |ids| ==> ids[i] != ids[j] && LastOp(ops, On(owner, ids[i])) < LastOp(ops, On(owner, ids[j])))
            && (forall q :: q in ids <==> Loaded(KEYS, s, On(owner, q)).Some?)
            && (forall q :: q in ids ==> Loaded(KEYS, s, On(owner, q)) == LastDraft(white, ops, On(owner, q)))
            && (forall q :: q !in ids && LastDraft(white, ops, On(owner, q)).Some? ==> |SavedSince(white, ops, owner, q)| >= 10)
  {
    KeysAreApart();
    AlwaysSound(white, KEYS, ops);
    var s := StorageAfter(white, KEYS, ops);
    assert OwnerSound(white, ops, owner, IdsIn(KEYS, s, owner), DraftsOf(KEYS, s, owner));
    RankedHasNoRepeats((q: string) => LastOp(ops, On(owner, q)), IdsIn(KEYS, s, owner));
  }

  /** A draft loads back exactly if there is anything in it: a visible character, an attachment, a poll, a warning or a link card. */
  lemma AnythingIsKept(white: char -> bool, ops: seq<Op>, target: Target, draft: Draft)
    ensures Loaded(KEYS, StorageAfter(white, KEYS, ops + [Save(target, draft)]), target) ==
              if (exists c :: c in draft.text && !white(c)) || |draft.attachments| > 0 || draft.pollEnabled || draft.cwEnabled || |draft.linkCardUrls| > 0
              then Some(draft) else None
  {
    JustSavedLoadsBack(white, ops, Save(target, draft));
  }

  /** A draft of a new post stays until it is replaced or cleared, whatever happens to replies and quotes. */
  lemma ComposeDraftStays(white: char -> bool, ops: seq<Op>, userId: nat)
    ensures Loaded(KEYS, StorageAfter(white, KEYS, ops), Compose(userId)) == LastDraft(white, ops, Compose(userId))
  {
    KeysAreApart();
    AlwaysSound(white, KEYS, ops);
  }

  lemma RankedHasNoRepeats(rank: string -> nat, ids: seq<string>)
    requires Ranked(rank, ids)
    ensures forall i, j :: 0 <= i < j < |ids| ==> ids[i] != ids[j] && rank(ids[i]) < rank(ids[j])
  {
  }

  /** A draft just saved loads back unchanged; saving an empty one, or clearing, leaves none. */
  lemma JustSavedLoadsBack(white: char -> bool, ops: seq<Op>, op: Op)
    ensures Loaded(KEYS, StorageAfter(white, KEYS, ops + [op]), op.target) == if Keeps(white, op) then Some(op.draft) else None
  {
    KeysAreApart();
    AlwaysSound(white, KEYS, ops);
    var s := StorageAfter(white, KEYS, ops);
    assert (ops + [op])[..|ops + [op]| - 1] == ops;
    OthersUntouched(white, KEYS, ops, s, op);
    if op.target.On? {
      var owner, postId := op.target.owner, op.target.postId;
      assert OwnerSound(white, ops, owner, IdsIn(KEYS, s, owner), DraftsOf(KEYS, s, owner));
      WithoutMembers(IdsIn(KEYS, s, owner), postId);
      if Keeps(white, op) { SaveOnPost(white, KEYS, s, owner, postId, op.draft); }
      else { ClearOnPost(white, KEYS, s, owner, postId); }
    }
  }
}
