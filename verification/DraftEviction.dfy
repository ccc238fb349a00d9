/** Exactly when a saved draft has been dropped from its index, told by the history of calls alone. */
module DraftEviction {
  import opened Options
  import opened Cardinality
  import opened DraftKeys
  import opened Drafts
  import opened DraftHistory

  /** The other posts that have a draft saved later than the last call on `postId`, and not cleared since. */
  ghost function NewerDrafts(white: char -> bool, ops: seq<Op>, owner: Owner, postId: string): set<string> {
    set q | q in SavedSince(white, ops, owner, postId)
         && LastOp(ops, On(owner, q)) > LastOp(ops, On(owner, postId)) && LastDraft(white, ops, On(owner, q)).Some?
  }

  /** At some moment since the last call on `postId` there were ten of them. */
  ghost predicate Overtaken(white: char -> bool, ops: seq<Op>, owner: Owner, postId: string) {
    && ops != [] && ops[|ops| - 1].target != On(owner, postId)
    && (Overtaken(white, ops[..|ops| - 1], owner, postId) || |NewerDrafts(white, ops, owner, postId)| >= MAX_TARGETED_DRAFTS)
  }

  function Ids(white: char -> bool, keys: Keys, ops: seq<Op>, owner: Owner): seq<string> {
    IdsIn(keys, StorageAfter(white, keys, ops), owner)
  }

  lemma NewerIs(white: char -> bool, ops: seq<Op>, owner: Owner, postId: string, q: string)
    ensures q in NewerDrafts(white, ops, owner, postId) <==>
              LastOp(ops, On(owner, q)) > LastOp(ops, On(owner, postId)) && LastDraft(white, ops, On(owner, q)).Some?
  {
    if LastOp(ops, On(owner, q)) > LastOp(ops, On(owner, postId)) && LastDraft(white, ops, On(owner, q)).Some? {
      LaterIsSavedSince(white, ops, owner, postId, q);
    }
  }

  /** How one call changes an index. */
  lemma IdsAfter(white: char -> bool, keys: Keys, ops: seq<Op>, op: Op, owner: Owner)
    requires Apart(keys)
    ensures var ids, ids' := Ids(white, keys, ops, owner), Ids(white, keys, ops + [op], owner);
            && |ids| <= MAX_TARGETED_DRAFTS
            && ids' == if !op.target.On? || op.target.owner != owner then ids
                       else if Keeps(white, op) then NewIds(ids, op.target.postId)
                       else Without(ids, op.target.postId)
  {
    AlwaysSound(white, keys, ops);
    var s := StorageAfter(white, keys, ops);
    assert (ops + [op])[..|ops + [op]| - 1] == ops;
    assert OwnerSound(white, ops, owner, IdsIn(keys, s, owner), DraftsOf(keys, s, owner));
    OthersUntouched(white, keys, ops, s, op);
    if op.target.On? && op.target.owner == owner {
      var postId := op.target.postId;
      WithoutMembers(IdsIn(keys, s, owner), postId);
      if Keeps(white, op) { SaveOnPost(white, keys, s, owner, postId, op.draft); } else { ClearOnPost(white, keys, s, owner, postId); }
    }
  }

  /** What is known of an index: the posts in it have drafts, in the order of their last calls. */
  lemma IdsAreSound(white: char -> bool, keys: Keys, ops: seq<Op>, owner: Owner)
    requires Apart(keys)
    ensures var ids := Ids(white, keys, ops, owner);
            && |ids| <= MAX_TARGETED_DRAFTS
            && (forall i, j :: 0 <= i < j < |ids| ==> ids[i] != ids[j] && LastOp(ops, On(owner, ids[i])) < LastOp(ops, On(owner, ids[j])))
            && (forall q :: q in ids ==> LastDraft(white, ops, On(owner, q)).Some?)
  {
    AlwaysSound(white, keys, ops);
    var s := StorageAfter(white, keys, ops);
    assert OwnerSound(white, ops, owner, IdsIn(keys, s, owner), DraftsOf(keys, s, owner));
    RankedHasNoRepeats((q: string) => LastOp(ops, On(owner, q)), IdsIn(keys, s, owner));
  }

  /** A draft that has been dropped is older than all that are kept. */
  ghost predicate DroppedAreOlder(white: char -> bool, keys: Keys, ops: seq<Op>, owner: Owner) {
    var ids := Ids(white, keys, ops, owner);
    forall q, r :: q !in ids && LastDraft(white, ops, On(owner, q)).Some? && r in ids ==> LastOp(ops, On(owner, q)) < LastOp(ops, On(owner, r))
  }

  lemma {:induction false} AlwaysOlder(white: char -> bool, keys: Keys, ops: seq<Op>, owner: Owner)
    requires Apart(keys)
    ensures DroppedAreOlder(white, keys, ops, owner)
  {
    if ops != [] {
      var before, op := ops[..|ops| - 1], ops[|ops| - 1];
      assert before + [op] == ops;
      AlwaysOlder(white, keys, before, owner);
      OlderStep(white, keys, before, op, owner);
    }
  }

  lemma OlderStep(white: char -> bool, keys: Keys, ops: seq<Op>, op: Op, owner: Owner)
    requires Apart(keys) && DroppedAreOlder(white, keys, ops, owner)
    ensures DroppedAreOlder(white, keys, ops + [op], owner)
  {
    var ids, ids' := Ids(white, keys, ops, owner), Ids(white, keys, ops + [op], owner);
    IdsAfter(white, keys, ops, op, owner);
    IdsAreSound(white, keys, ops, owner);
    forall q, r | q !in ids' && LastDraft(white, ops + [op], On(owner, q)).Some? && r in ids'
      ensures LastOp(ops + [op], On(owner, q)) < LastOp(ops + [op], On(owner, r))
    {
      OneMoreCall(white, ops, op, On(owner, q));
      OneMoreCall(white, ops, op, On(owner, r));
      if op.target.On? && op.target.owner == owner { MembersAfter(ids, op.target.postId, Keeps(white, op), q, r); }
    }
  }

  /** Who is in the index after a call, and that the one dropped stood first. */
  lemma MembersAfter(ids: seq<string>, postId: string, keeps: bool, q: string, r: string)
    requires |ids| <= MAX_TARGETED_DRAFTS && forall i, j :: 0 <= i < j < |ids| ==> ids[i] != ids[j]
    ensures var ids' := if keeps then NewIds(ids, postId) else Without(ids, postId);
            && (r in ids' ==> r in ids || (keeps && r == postId))
            && (q != postId && q in ids && q !in ids' ==>
                  keeps && ids[0] == q && |ids| == MAX_TARGETED_DRAFTS && postId !in ids && ids' == ids[1..] + [postId])
            && (keeps ==> postId in ids') && (!keeps ==> postId !in ids')
  {
    WithoutMembers(ids, postId);
    var list := Without(ids, postId) + [postId];
    assert list == [list[0]] + list[1..];
    assert forall x :: x in list <==> x in Without(ids, postId) || x == postId;
    if keeps {
      assert postId == list[|list| - 1];
      if |list| > MAX_TARGETED_DRAFTS {
        assert list[1..] == ids[1..] + [postId] && list[1..][|list| - 2] == postId;
      }
    }
  }

  /** What is in the index behind a post are exactly the newer drafts, so there are at most nine. */
  lemma NewerThanKept(white: char -> bool, keys: Keys, ops: seq<Op>, owner: Owner, postId: string)
    requires Apart(keys) && postId in Ids(white, keys, ops, owner)
    ensures |NewerDrafts(white, ops, owner, postId)| < MAX_TARGETED_DRAFTS
  {
    var ids := Ids(white, keys, ops, owner);
    IdsAreSound(white, keys, ops, owner);
    AlwaysOlder(white, keys, ops, owner);
    var newer := NewerDrafts(white, ops, owner, postId);
    forall q | q in newer
      ensures q in ids && q != postId
    {
      NewerIs(white, ops, owner, postId, q);
    }
    NoMoreThan(ids, newer + {postId});
  }

  lemma {:induction false} NoMoreThan(ids: seq<string>, some: set<string>)
    requires forall q :: q in some ==> q in ids
    ensures |some| <= |ids|
    decreases |ids|
  {
    if some != {} {
      assert ids != [] by { var q :| q in some; assert q in ids; }
      assert forall q :: q in some && q != ids[0] ==> q in ids[1..];
      NoMoreThan(ids[1..], some - {ids[0]});
    }
  }

  /** When a draft is dropped, the ten in the index are newer. */
  lemma DroppedIsOvertaken(white: char -> bool, keys: Keys, ops: seq<Op>, op: Op, owner: Owner, postId: string)
    requires Apart(keys) && op.target != On(owner, postId)
    requires postId in Ids(white, keys, ops, owner) && postId !in Ids(white, keys, ops + [op], owner)
    ensures |NewerDrafts(white, ops + [op], owner, postId)| >= MAX_TARGETED_DRAFTS
  {
    var ids, ids' := Ids(white, keys, ops, owner), Ids(white, keys, ops + [op], owner);
    IdsAfter(white, keys, ops, op, owner);
    IdsAreSound(white, keys, ops, owner);
    IdsAreSound(white, keys, ops + [op], owner);
    MembersAfter(ids, op.target.postId, Keeps(white, op), postId, postId);
    AlwaysOlder(white, keys, ops + [op], owner);
    OneMoreCall(white, ops, op, On(owner, postId));
    forall q | q in ids'
      ensures q in NewerDrafts(white, ops + [op], owner, postId)
    {
      NewerIs(white, ops + [op], owner, postId, q);
    }
    AsManyElements(ids', NewerDrafts(white, ops + [op], owner, postId));
  }

  lemma {:induction false} KeptExactly(white: char -> bool, keys: Keys, ops: seq<Op>, owner: Owner, postId: string)
    requires Apart(keys) && LastDraft(white, ops, On(owner, postId)).Some?
    ensures postId in Ids(white, keys, ops, owner) <==> !Overtaken(white, ops, owner, postId)
  {
    var before, op := ops[..|ops| - 1], ops[|ops| - 1];
    assert before + [op] == ops;
    IdsAfter(white, keys, before, op, owner);
    IdsAreSound(white, keys, before, owner);
    if op.target == On(owner, postId) {
      MembersAfter(Ids(white, keys, before, owner), postId, true, postId, postId);
    } else {
      KeptExactly(white, keys, before, owner, postId);
      if op.target.On? { MembersAfter(Ids(white, keys, before, owner), op.target.postId, Keeps(white, op), postId, postId); }
      if postId in Ids(white, keys, ops, owner) {
        NewerThanKept(white, keys, ops, owner, postId);
      } else if postId in Ids(white, keys, before, owner) {
        DroppedIsOvertaken(white, keys, before, op, owner, postId);
      }
    }
  }

  /**
   A draft saved and not cleared loads if and only if there have never been ten newer drafts of the same user
   and mode at once since; being dropped once is final until it is saved again.
   */
  lemma DraftIsKeptExactly(white: char -> bool, ops: seq<Op>, owner: Owner, postId: string)
    requires LastDraft(white, ops, On(owner, postId)).Some?
    ensures Loaded(KEYS, StorageAfter(white, KEYS, ops), On(owner, postId)).Some? <==> !Overtaken(white, ops, owner, postId)
  {
    KeysAreApart();
    DraftsAreTheIndex(white, ops, owner);
    KeptExactly(white, KEYS, ops, owner, postId);
  }
}
