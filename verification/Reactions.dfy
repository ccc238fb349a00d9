/**
 Reaction chips under a note. The server keeps at most one emoji per actor; the client keeps one chip per
 emoji, with its count and whether the viewer is among those who chose it.
 */
module Reactions {
  import opened Options

  type Actor = string
  type Emoji = string

  datatype Chip = Chip(emoji: Emoji, count: int, reactedByMe: bool)

  /** What the server broadcasts: who changed which reaction, and chips that know no viewer. */
  datatype Total = Total(emoji: Emoji, count: int)
  datatype Update = Update(reactorActorId: Actor, reactorEmoji: Option<Emoji>, reactions: seq<Total>)

  /* ------------------------------------ the functions of the client ------------------------------------ */

  function FindMine(chips: seq<Chip>): (found: Option<Emoji>)
    ensures found.Some? ==> Chosen(chips, found.value)
    ensures found.None? ==> forall c :: c in chips ==> !c.reactedByMe
  {
    if chips == [] then None
    else if chips[0].reactedByMe then Some(chips[0].emoji)
    else
      assert forall e :: Chosen(chips[1..], e) ==> Chosen(chips, e);
      FindMine(chips[1..])
  }

  predicate Chosen(chips: seq<Chip>, emoji: Emoji) {
    exists c :: c in chips && c.emoji == emoji && c.reactedByMe
  }

  predicate Listed(chips: seq<Chip>, emoji: Emoji) {
    exists c :: c in chips && c.emoji == emoji
  }

  function Adjust(chips: seq<Chip>, emoji: Emoji, delta: int, mine: bool): seq<Chip> {
    seq(|chips|, k requires 0 <= k < |chips| =>
      if chips[k].emoji == emoji then Chip(emoji, chips[k].count + delta, mine) else chips[k])
  }

  function Positive(chips: seq<Chip>): seq<Chip> {
    if chips == [] then [] else (if chips[0].count > 0 then [chips[0]] else []) + Positive(chips[1..])
  }

  /** An empty string counts as no emoji here. */
  function WithoutMine(chips: seq<Chip>): seq<Chip> {
    match FindMine(chips)
    case Some(emoji) => if emoji != "" then Positive(Adjust(chips, emoji, -1, false)) else chips
    case None => chips
  }

  /** `optimisticSetReaction`. */
  function OptimisticSetReaction(chips: seq<Chip>, emoji: Emoji, reacting: bool): seq<Chip> {
    var next := WithoutMine(chips);
    if !reacting then next
    else if Listed(next, emoji) then Adjust(next, emoji, 1, true)
    else next + [Chip(emoji, 1, true)]
  }

  /** `find` by emoji, and its mark. */
  function MarkOf(chips: seq<Chip>, emoji: Emoji): bool {
    if chips == [] then false
    else if chips[0].emoji == emoji then chips[0].reactedByMe
    else MarkOf(chips[1..], emoji)
  }

  /** `applyReactionUpdate`. */
  function ApplyReactionUpdate(chips: seq<Chip>, update: Update, me: Option<Actor>): seq<Chip> {
    var isMe := me == Some(update.reactorActorId);
    seq(|update.reactions|, k requires 0 <= k < |update.reactions| =>
      var t := update.reactions[k];
      Chip(t.emoji, t.count, if isMe then update.reactorEmoji == Some(t.emoji) else MarkOf(chips, t.emoji)))
  }

  /* ------------------------------------ what chips stand for ------------------------------------ */

  type Reacted = map<Actor, Emoji>

  function Users(m: Reacted, emoji: Emoji): set<Actor> {
    set a | a in m && m[a] == emoji
  }

  function MyEmoji(m: Reacted, me: Option<Actor>): Option<Emoji> {
    if me.Some? && me.value in m then Some(m[me.value]) else None
  }

  function ChipFor(m: Reacted, me: Option<Actor>, emoji: Emoji): Chip {
    Chip(emoji, |Users(m, emoji)|, MyEmoji(m, me) == Some(emoji))
  }

  predicate Distinct(chips: seq<Chip>) {
    forall i, j :: 0 <= i < j < |chips| ==> chips[i].emoji != chips[j].emoji
  }

  /** The chips are the viewer's view of the map: exactly one right chip per emoji in use. */
  ghost predicate IsView(chips: seq<Chip>, m: Reacted, me: Option<Actor>) {
    && Distinct(chips)
    && (forall c :: c in chips ==> c == ChipFor(m, me, c.emoji) && c.count > 0)
    && (forall a :: a in m ==> Listed(chips, m[a]))
  }

  /** The totals are those of the map. */
  ghost predicate IsTotal(totals: seq<Total>, m: Reacted) {
    && (forall i, j :: 0 <= i < j < |totals| ==> totals[i].emoji != totals[j].emoji)
    && (forall t :: t in totals ==> t.count == |Users(m, t.emoji)| && t.count > 0)
    && (forall a :: a in m ==> exists t :: t in totals && t.emoji == m[a])
  }

  /* ------------------------------------ reactions set and removed ------------------------------------ */

  lemma {:induction false} PositiveKeeps(chips: seq<Chip>)
    requires Distinct(chips)
    ensures Distinct(Positive(chips)) && forall c :: c in Positive(chips) <==> c in chips && c.count > 0
  {
    if chips != [] {
      FirstIsApart(chips);
      PositiveKeeps(chips[1..]);
      var rest := Positive(chips[1..]);
      assert forall k :: 0 <= k < |rest| ==> rest[k] in rest;
      assert chips == [chips[0]] + chips[1..];
    }
  }

  lemma FirstIsApart(chips: seq<Chip>)
    requires Distinct(chips) && chips != []
    ensures Distinct(chips[1..]) && forall c :: c in chips[1..] ==> c.emoji != chips[0].emoji
  {
    assert forall i :: 0 <= i < |chips| - 1 ==> chips[1..][i] == chips[i + 1];
  }

  /** One chip changes, the others do not. */
  lemma AdjustOne(chips: seq<Chip>, c: Chip, delta: int, mine: bool)
    requires Distinct(chips) && c in chips
    ensures var next := Adjust(chips, c.emoji, delta, mine);
            && Distinct(next)
            && forall d :: d in next <==> d == Chip(c.emoji, c.count + delta, mine) || (d in chips && d.emoji != c.emoji)
  {
    var next := Adjust(chips, c.emoji, delta, mine);
    var k :| 0 <= k < |chips| && chips[k] == c;
    assert next[k] == Chip(c.emoji, c.count + delta, mine);
    forall d | d in chips && d.emoji != c.emoji
      ensures d in next
    {
      var i :| 0 <= i < |chips| && chips[i] == d;
      assert next[i] == d;
    }
    forall d | d in next
      ensures d == Chip(c.emoji, c.count + delta, mine) || (d in chips && d.emoji != c.emoji)
    {
      var i :| 0 <= i < |next| && next[i] == d;
      assert i == k || chips[i].emoji != chips[k].emoji;
    }
  }

  /** Leaving takes the actor out of one count and changes no other. */
  lemma UsersWithout(m: Reacted, me: Actor, emoji: Emoji)
    requires me in m
    ensures |Users(m - {me}, emoji)| == |Users(m, emoji)| - (if m[me] == emoji then 1 else 0)
  {
    assert Users(m - {me}, emoji) == Users(m, emoji) - {me};
  }

  lemma UsersWith(m: Reacted, me: Actor, mine: Emoji, emoji: Emoji)
    requires me !in m
    ensures |Users(m[me := mine], emoji)| == |Users(m, emoji)| + (if mine == emoji then 1 else 0)
  {
    assert Users(m[me := mine], emoji) == if mine == emoji then Users(m, emoji) + {me} else Users(m, emoji);
  }

  lemma MineIsMyEmoji(chips: seq<Chip>, m: Reacted, me: Actor)
    requires IsView(chips, m, Some(me))
    ensures FindMine(chips) == MyEmoji(m, Some(me))
  {
    if me in m {
      var c :| c in chips && c.emoji == m[me];
      assert c.reactedByMe;
    }
  }

  lemma WithoutMineIsView(chips: seq<Chip>, m: Reacted, me: Actor)
    requires IsView(chips, m, Some(me)) && (me in m ==> m[me] != "")
    ensures IsView(WithoutMine(chips), m - {me}, Some(me))
  {
    MineIsMyEmoji(chips, m, me);
    var rest := m - {me};
    if me !in m {
      assert rest == m;
    } else {
      var c :| c in chips && c.emoji == m[me];
      var adjusted := Adjust(chips, c.emoji, -1, false);
      AdjustOne(chips, c, -1, false);
      PositiveKeeps(adjusted);
      var next := Positive(adjusted);
      forall d | d in next
        ensures d == ChipFor(rest, Some(me), d.emoji)
      {
        UsersWithout(m, me, d.emoji);
      }
      forall a | a in rest
        ensures Listed(next, rest[a])
      {
        UsersWithout(m, me, rest[a]);
        assert a in Users(rest, rest[a]);
        var d :| d in chips && d.emoji == m[a];
        if d.emoji == c.emoji { assert Chip(c.emoji, c.count - 1, false) in next; } else { assert d in next; }
      }
    }
  }

  lemma WithMineIsView(chips: seq<Chip>, m: Reacted, me: Actor, emoji: Emoji)
    requires IsView(chips, m, Some(me)) && me !in m
    ensures IsView(if Listed(chips, emoji) then Adjust(chips, emoji, 1, true) else chips + [Chip(emoji, 1, true)], m[me := emoji], Some(me))
  {
    var next := if Listed(chips, emoji) then Adjust(chips, emoji, 1, true) else chips + [Chip(emoji, 1, true)];
    var m' := m[me := emoji];
    if Listed(chips, emoji) {
      var c :| c in chips && c.emoji == emoji;
      AdjustOne(chips, c, 1, true);
    } else {
      assert Chip(emoji, 1, true) in next;
      NobodyUses(chips, m, me, emoji);
    }
    forall d | d in next
      ensures d == ChipFor(m', Some(me), d.emoji) && d.count > 0
    {
      UsersWith(m, me, emoji, d.emoji);
    }
    forall a | a in m'
      ensures Listed(next, m'[a])
    {
      if a != me && m[a] != emoji {
        var d :| d in chips && d.emoji == m[a];
        assert d in next;
      }
    }
  }

  lemma NobodyUses(chips: seq<Chip>, m: Reacted, me: Actor, emoji: Emoji)
    requires IsView(chips, m, Some(me)) && !Listed(chips, emoji)
    ensures Users(m, emoji) == {}
  {
    assert forall a :: a in m ==> Listed(chips, m[a]);
  }

  /** What setting or removing my reaction does to the map. */
  function SetReaction(m: Reacted, me: Actor, emoji: Emoji, reacting: bool): Reacted {
    if reacting then m[me := emoji] else m - {me}
  }

  /**
   The optimistic update shows what the server will answer, exactly unless my reaction so far is the empty
   string, which the code takes for none. No server answer or broadcast has such a chip: the
   aggregates drop empty contents (streaming.rs:208, notes/queries.rs:572).
   */
  lemma OptimisticIsViewExactly(chips: seq<Chip>, m: Reacted, me: Actor, emoji: Emoji, reacting: bool)
    requires IsView(chips, m, Some(me))
    ensures IsView(OptimisticSetReaction(chips, emoji, reacting), SetReaction(m, me, emoji, reacting), Some(me))
       <==> MyEmoji(m, Some(me)) != Some("")
  {
    if MyEmoji(m, Some(me)) != Some("") { OptimisticIsView(chips, m, me, emoji, reacting); }
    else { EmptyStaysMine(chips, m, me, emoji, reacting); }
  }

  lemma OptimisticIsView(chips: seq<Chip>, m: Reacted, me: Actor, emoji: Emoji, reacting: bool)
    requires IsView(chips, m, Some(me)) && MyEmoji(m, Some(me)) != Some("")
    ensures IsView(OptimisticSetReaction(chips, emoji, reacting), SetReaction(m, me, emoji, reacting), Some(me))
  {
    var next := WithoutMine(chips);
    assert IsView(next, m - {me}, Some(me)) by { WithoutMineIsView(chips, m, me); }
    if reacting { SwitchedIsView(next, m, me, emoji); }
  }

  lemma SwitchedIsView(next: seq<Chip>, m: Reacted, me: Actor, emoji: Emoji)
    requires IsView(next, m - {me}, Some(me))
    ensures IsView(if Listed(next, emoji) then Adjust(next, emoji, 1, true) else next + [Chip(emoji, 1, true)], m[me := emoji], Some(me))
  {
    WithMineIsView(next, m - {me}, me, emoji);
    assert (m - {me})[me := emoji] == m[me := emoji];
  }

  lemma EmptyStaysMine(chips: seq<Chip>, m: Reacted, me: Actor, emoji: Emoji, reacting: bool)
    requires IsView(chips, m, Some(me)) && MyEmoji(m, Some(me)) == Some("")
    ensures !IsView(OptimisticSetReaction(chips, emoji, reacting), SetReaction(m, me, emoji, reacting), Some(me))
  {
    MineIsMyEmoji(chips, m, me);
    var c :| c in chips && c.emoji == "";
    assert c == Chip("", |Users(m, "")|, true);
    var next, m' := OptimisticSetReaction(chips, emoji, reacting), SetReaction(m, me, emoji, reacting);
    if reacting && emoji == "" {
      AdjustOne(chips, c, 1, true);
      assert m' == m;
      WrongChip(next, m', me, Chip("", c.count + 1, true));
    } else {
      if reacting { MineStaysToo(chips, c, emoji); }
      WrongChip(next, m', me, c);
    }
  }

  lemma WrongChip(chips: seq<Chip>, m: Reacted, me: Actor, c: Chip)
    requires c in chips && c != ChipFor(m, Some(me), c.emoji)
    ensures !IsView(chips, m, Some(me))
  {
  }

  lemma MineStaysToo(chips: seq<Chip>, c: Chip, emoji: Emoji)
    requires Distinct(chips) && c in chips && c.emoji != emoji
    ensures c in if Listed(chips, emoji) then Adjust(chips, emoji, 1, true) else chips + [Chip(emoji, 1, true)]
  {
    if Listed(chips, emoji) {
      var d :| d in chips && d.emoji == emoji;
      AdjustOne(chips, d, 1, true);
    }
  }

  lemma {:induction false} MarkOfChip(chips: seq<Chip>, emoji: Emoji)
    requires Distinct(chips)
    ensures MarkOf(chips, emoji) <==> Chosen(chips, emoji)
  {
    if chips != [] {
      assert Distinct(chips[1..]) by {
        assert forall i :: 0 <= i < |chips| - 1 ==> chips[1..][i] == chips[i + 1];
      }
      MarkOfChip(chips[1..], emoji);
      if Chosen(chips, emoji) {
        var k :| 0 <= k < |chips| && chips[k].emoji == emoji && chips[k].reactedByMe;
        if k > 0 { assert chips[1..][k - 1] == chips[k] && chips[0].emoji != emoji; }
      }
      if Chosen(chips[1..], emoji) {
        var k :| 0 <= k < |chips[1..]| && chips[1..][k].emoji == emoji && chips[1..][k].reactedByMe;
        assert chips[k + 1] in chips && chips[k + 1].emoji == emoji && chips[0].emoji != emoji;
      }
    }
  }

  /** The chips know which reaction is mine, whatever their counts. */
  ghost predicate KnowsMine(chips: seq<Chip>, mine: Option<Emoji>) {
    Distinct(chips) && forall emoji :: Chosen(chips, emoji) <==> mine == Some(emoji)
  }

  lemma ViewKnowsMine(chips: seq<Chip>, m: Reacted, me: Option<Actor>)
    requires IsView(chips, m, me)
    ensures KnowsMine(chips, MyEmoji(m, me))
  {
    if MyEmoji(m, me).Some? {
      var c :| c in chips && c.emoji == MyEmoji(m, me).value;
      assert c.reactedByMe;
    }
  }

  /**
   A broadcast gives my view of the new map, from whichever actor it comes, even if broadcasts before it
   were lost: the chips only have to know my own reaction.
   */
  lemma UpdateIsView(chips: seq<Chip>, update: Update, m: Reacted, me: Option<Actor>)
    requires IsTotal(update.reactions, m)
    requires if me == Some(update.reactorActorId) then update.reactorEmoji == MyEmoji(m, me) else KnowsMine(chips, MyEmoji(m, me))
    ensures IsView(ApplyReactionUpdate(chips, update, me), m, me)
  {
    var next := ApplyReactionUpdate(chips, update, me);
    forall c | c in next
      ensures c == ChipFor(m, me, c.emoji) && c.count > 0
    {
      var k :| 0 <= k < |next| && next[k] == c;
      assert update.reactions[k] in update.reactions;
      if me != Some(update.reactorActorId) { MarkOfChip(chips, c.emoji); }
    }
    forall a | a in m
      ensures Listed(next, m[a])
    {
      var t :| t in update.reactions && t.emoji == m[a];
      var k :| 0 <= k < |update.reactions| && update.reactions[k] == t;
      assert next[k] in next;
    }
  }

  /** At most one chip is mine, and no chip is empty. */
  lemma ViewIsConsistent(chips: seq<Chip>, m: Reacted, me: Option<Actor>)
    requires IsView(chips, m, me)
    ensures forall i, j :: 0 <= i < j < |chips| ==> !(chips[i].reactedByMe && chips[j].reactedByMe)
    ensures forall i :: 0 <= i < |chips| ==> chips[i].count > 0
  {
    assert forall i :: 0 <= i < |chips| ==> chips[i] in chips;
  }
}
