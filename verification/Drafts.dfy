/**
 Composer drafts in local storage: one entry per target, and per user and mode an index of the posts that
 have a reply or quote draft, oldest first. Values are kept parsed; JSON itself is not modelled.
 */
module Drafts {
  import opened Options
  import opened DraftKeys

  const MAX_TARGETED_DRAFTS := 10

  /** `rest` stands for the fields that do not decide whether a draft is empty. */
  datatype Draft = Draft(text: string, attachments: seq<string>, pollEnabled: bool, cwEnabled: bool, linkCardUrls: seq<string>, rest: string)

  datatype Value = DraftValue(draft: Draft) | IndexValue(ids: seq<string>)

  type Storage = map<string, Value>

  datatype Op = Save(target: Target, draft: Draft) | Clear(target: Target)

  /** Nothing left after `trim`, given which characters count as white space. */
  predicate Blank(white: char -> bool, text: string) {
    forall c :: c in text ==> white(c)
  }

  /** Such a draft is not worth keeping. */
  predicate Empty(white: char -> bool, d: Draft) {
    Blank(white, d.text) && d.attachments == [] && !d.pollEnabled && !d.cwEnabled && d.linkCardUrls == []
  }

  function Without(ids: seq<string>, postId: string): seq<string> {
    if ids == [] then [] else (if ids[0] == postId then [] else [ids[0]]) + Without(ids[1..], postId)
  }

  function ReadIndex(storage: Storage, key: string): seq<string> {
    if key in storage && storage[key].IndexValue? then storage[key].ids else []
  }

  /* ------------------------------------ what the calls do to the storage ------------------------------------ */

  /** Drops the oldest drafts until no more than ten are left. */
  function DropOldest(keys: Keys, storage: Storage, owner: Owner, ids: seq<string>): (r: (Storage, seq<string>))
    decreases |ids|
  {
    if |ids| <= MAX_TARGETED_DRAFTS then (storage, ids)
    else DropOldest(keys, storage - {keys.draft(On(owner, ids[0]))}, owner, ids[1..])
  }

  function Touched(keys: Keys, storage: Storage, owner: Owner, postId: string): Storage {
    var (kept, ids) := DropOldest(keys, storage, owner, Without(ReadIndex(storage, keys.index(owner)), postId) + [postId]);
    kept[keys.index(owner) := IndexValue(ids)]
  }

  function Removed(keys: Keys, storage: Storage, owner: Owner, postId: string): Storage {
    storage[keys.index(owner) := IndexValue(Without(ReadIndex(storage, keys.index(owner)), postId))]
  }

  function Cleared(keys: Keys, storage: Storage, target: Target): Storage {
    var without := storage - {keys.draft(target)};
    if target.On? then Removed(keys, without, target.owner, target.postId) else without
  }

  function Saved(white: char -> bool, keys: Keys, storage: Storage, target: Target, draft: Draft): Storage {
    if Empty(white, draft) then Cleared(keys, storage, target)
    else
      var with := storage[keys.draft(target) := DraftValue(draft)];
      if target.On? then Touched(keys, with, target.owner, target.postId) else with
  }

  function Applied(white: char -> bool, keys: Keys, storage: Storage, op: Op): Storage {
    match op
    case Save(target, draft) => Saved(white, keys, storage, target, draft)
    case Clear(target) => Cleared(keys, storage, target)
  }

  function Loaded(keys: Keys, storage: Storage, target: Target): Option<Draft> {
    var key := keys.draft(target);
    if key in storage && storage[key].DraftValue? then Some(storage[key].draft) else None
  }

  /** The browser's local storage with the functions of `composerDraft`. */
  class DraftStorage {
    const white: char -> bool
    var localStorage: Storage

    constructor (isWhite: char -> bool)
      ensures white == isWhite && localStorage == map[]
    {
      white := isWhite;
      localStorage := map[];
    }

    /** `touchIndex`. */
    method TouchIndex(owner: Owner, postId: string)
      modifies this
      ensures localStorage == Touched(KEYS, old(localStorage), owner, postId)
    {
      var key := KEYS.index(owner);
      var ids := Without(ReadIndex(localStorage, key), postId) + [postId];
      while |ids| > MAX_TARGETED_DRAFTS
        invariant DropOldest(KEYS, localStorage, owner, ids)
               == DropOldest(KEYS, old(localStorage), owner, Without(ReadIndex(old(localStorage), key), postId) + [postId])
        decreases |ids|
      {
        var oldest := ids[0];
        ids := ids[1..];
        localStorage := localStorage - {KEYS.draft(On(owner, oldest))};
      }
      localStorage := localStorage[key := IndexValue(ids)];
    }

    /** `removeFromIndex`. */
    method RemoveFromIndex(owner: Owner, postId: string)
      modifies this
      ensures localStorage == Removed(KEYS, old(localStorage), owner, postId)
    {
      var key := KEYS.index(owner);
      localStorage := localStorage[key := IndexValue(Without(ReadIndex(localStorage, key), postId))];
    }

    method LoadComposerDraft(target: Target) returns (draft: Option<Draft>)
      ensures draft == Loaded(KEYS, localStorage, target)
    {
      var key := KEYS.draft(target);
      draft := if key in localStorage && localStorage[key].DraftValue? then Some(localStorage[key].draft) else None;
    }

    method SaveComposerDraft(target: Target, draft: Draft)
      modifies this
      ensures localStorage == Applied(white, KEYS, old(localStorage), Save(target, draft))
    {
      if Blank(white, draft.text) && draft.attachments == [] && !draft.pollEnabled && !draft.cwEnabled && draft.linkCardUrls == [] {
        ClearComposerDraft(target);
        return;
      }
      localStorage := localStorage[KEYS.draft(target) := DraftValue(draft)];
      if target.On? { TouchIndex(target.owner, target.postId); }
    }

    method ClearComposerDraft(target: Target)
      modifies this
      ensures localStorage == Applied(white, KEYS, old(localStorage), Clear(target))
    {
      localStorage := localStorage - {KEYS.draft(target)};
      if target.On? { RemoveFromIndex(target.owner, target.postId); }
    }
  }
}
