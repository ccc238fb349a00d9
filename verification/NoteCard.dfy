/** The reaction part of a note card: the store's list and the pending lock, as the handlers change them. */
module NoteCard {
  import opened Options
  import opened Reactions
  import opened ReactionRuns

  class Card {
    const me: Actor
    var reactions: seq<Chip>
    var reactionPending: bool

    /** The card in a world whose server, press and lessons are those of `w`. */
    ghost function AsWorld(w: World): World
      requires w.pending.Some? == reactionPending
      reads this
    {
      w.(chips := reactions)
    }

    constructor (actor: Actor, initial: seq<Chip>)
      ensures me == actor && reactions == initial && !reactionPending
    {
      me, reactions, reactionPending := actor, initial, false;
    }

    /**
     A broadcast arrives: it is heard, whatever map it tells of. One of the current map that is about me makes
     the chips a view of it; one about another does if the chips marked my reaction.
     */
    method OnUpdate(update: Update, ghost w: World)
      requires w.pending.Some? == reactionPending && update in w.outbox
      modifies this`reactions
      ensures AsWorld(w.(learnt := if w.pending.None? then Learn(me, w.learnt, update) else w.learnt))
           == Next(me, old(AsWorld(w)), Hear(update))
      ensures IsTotal(update.reactions, Shown(w.m, {})) && TellsMine(me, old(reactions), update, Shown(w.m, {})) ==>
                IsView(reactions, Shown(w.m, {}), Some(me))
    {
      UpdateShows(me, reactions, update, Shown(w.m, {}));
      reactions := ApplyReactionUpdate(reactions, update, Some(me));
    }

    /** `toggleReaction` up to its request; `sent` holds what to send and what a failure restores. */
    method StartToggle(emoji: Emoji, movedOut: bool, ghost w: World) returns (sent: Option<(bool, seq<Chip>)>)
      requires w.pending.Some? == reactionPending
      modifies this
      ensures sent.None? ==> unchanged(this) && AsWorld(w) == Next(me, old(AsWorld(w)), Press(emoji, movedOut))
      ensures sent.Some? ==> reactionPending
      ensures sent.Some? ==> AsWorld(w.(pending := Some(Pending(sent.value.1, emoji, sent.value.0, false, None, w.learnt, None))))
                             == Next(me, old(AsWorld(w)), Press(emoji, movedOut))
    {
      if reactionPending { return None; }
      var reacting := !MarkOf(reactions, emoji);
      if reacting && movedOut { return None; }
      var previous := reactions;
      reactionPending := true;
      reactions := OptimisticSetReaction(previous, emoji, reacting);
      sent := Some((reacting, previous));
    }

    /** What the end of the request is in the state machine; an error may hide that the server has processed it. */
    ghost function EndOf(answer: Option<seq<Chip>>, p: Pending): Step {
      if answer.Some? then Confirm else if p.processed then LoseAnswer else Refuse
    }

    /** `toggleReaction` after its request: the answer, or the list from before after an error. */
    method EndToggle(answer: Option<seq<Chip>>, previous: seq<Chip>, ghost w: World)
      requires reactionPending && w.pending.Some? && w.pending.value.previous == previous
      requires answer.Some? ==> w.pending.value.answer == answer
      modifies this
      ensures !reactionPending
      ensures AsWorld(w.(pending := None, learnt := if answer.Some? then w.pending.value.told else w.pending.value.before))
           == Next(me, old(AsWorld(w)), EndOf(answer, w.pending.value))
    {
      reactions := if answer.Some? then answer.value else previous;
      reactionPending := false;
    }
  }

  /** A broadcast about me tells my entry in the map; with another the chips have to know it. */
  ghost predicate TellsMine(me: Actor, chips: seq<Chip>, update: Update, m: Reacted) {
    if update.reactorActorId == me then update.reactorEmoji == MyEmoji(m, Some(me)) else KnowsMine(chips, MyEmoji(m, Some(me)))
  }

  lemma UpdateShows(me: Actor, chips: seq<Chip>, update: Update, m: Reacted)
    ensures IsTotal(update.reactions, m) && TellsMine(me, chips, update, m) ==> IsView(ApplyReactionUpdate(chips, update, Some(me)), m, Some(me))
  {
    if IsTotal(update.reactions, m) && TellsMine(me, chips, update, m) {
      UpdateIsView(chips, update, m, Some(me));
    }
  }
}
