/**
 One viewer's chips over time: changes of the server's map by anybody, the viewer's own other tabs and
 devices included; their publication, which reaches this client late, out of order, or, unless the viewer
 is the author or follows them, never; and the viewer's presses with their optimistic update, the server's
 answer and the rollback.
 */
module ReactionRuns {
  import opened Options
  import opened Reactions

  /**
   A press under way: the chips a failure restores and the reaction they mark (`before`); whether the
   server has processed it; and the server's answer with the reaction that one marks (`told`).
   */
  datatype Pending = Pending(previous: seq<Chip>, emoji: Emoji, reacting: bool, processed: bool, answer: Option<seq<Chip>>,
                             before: Option<Emoji>, told: Option<Emoji>)

  /**
   The server's map, the changes made to it, the broadcasts sent, and whom the viewer has muted or blocked;
   the client's chips and press; and `learnt`, the reaction the client last took for mine.
   */
  datatype World = World(m: Reacted, changes: set<(Actor, Option<Emoji>)>, outbox: set<Update>, hidden: set<Actor>,
                         chips: seq<Chip>, pending: Option<Pending>, learnt: Option<Emoji>)

  datatype Step =
    | Change(actor: Actor, choice: Option<Emoji>)
    | Publish(update: Update)
    | Hear(update: Update)
    | Press(emoji: Emoji, movedOut: bool)
    | Process
    | Respond(answer: seq<Chip>)
    | Confirm
    | Refuse
    | LoseAnswer

  function Changed(m: Reacted, actor: Actor, choice: Option<Emoji>): Reacted {
    match choice
    case Some(e) => m[actor := e]
    case None => m - {actor}
  }

  /** What the server aggregates: reactions with an empty content are dropped, and those of hidden actors. */
  function Shown(m: Reacted, hidden: set<Actor>): Reacted {
    map a | a in m && a !in hidden && m[a] != "" :: m[a]
  }

  /** My reaction as the server shows it. */
  function Mine(me: Actor, m: Reacted): Option<Emoji> {
    MyEmoji(Shown(m, {}), Some(me))
  }

  predicate Lists(totals: seq<Total>, emoji: Emoji) {
    exists t :: t in totals && t.emoji == emoji
  }

  /**
   What a broadcast teaches about my reaction: one about me tells it, another leaves what was learnt; but a
   reaction whose emoji the broadcast does not list is none.
   */
  function Learn(me: Actor, learnt: Option<Emoji>, update: Update): Option<Emoji> {
    var mine := if update.reactorActorId == me then update.reactorEmoji else learnt;
    if mine.Some? && Lists(update.reactions, mine.value) then mine else None
  }

  /** What a press asks for. */
  function Outcome(p: Pending): Option<Emoji> {
    if p.reacting then Some(p.emoji) else None
  }

  /** The server refuses an empty reaction, and to remove one that is not there. */
  predicate Processable(me: Actor, w: World) {
    && w.pending.Some? && !w.pending.value.processed && w.pending.value.emoji != ""
    && (!w.pending.value.reacting ==> MyEmoji(w.m, Some(me)) == Some(w.pending.value.emoji))
  }

  ghost predicate Enabled(me: Actor, w: World, step: Step) {
    match step
    case Change(_, _) => true
    case Publish(update) => (update.reactorActorId, update.reactorEmoji) in w.changes && IsTotal(update.reactions, Shown(w.m, {}))
    case Hear(update) => update in w.outbox
    case Press(emoji, movedOut) => w.pending.None? && (MarkOf(w.chips, emoji) || !movedOut)
    case Process => Processable(me, w)
    case Respond(answer) =>
      && w.pending.Some? && w.pending.value.processed && w.pending.value.answer.None?
      && me !in w.hidden && IsView(answer, Shown(w.m, w.hidden), Some(me))
    case Confirm => w.pending.Some? && w.pending.value.answer.Some?
    case Refuse => w.pending.Some? && !w.pending.value.processed
    case LoseAnswer => w.pending.Some? && w.pending.value.processed
  }

  function MapChanged(w: World, actor: Actor, choice: Option<Emoji>): World {
    w.(m := Changed(w.m, actor, choice), changes := w.changes + {(actor, choice)})
  }

  /** The list from before the press is restored. */
  function Restored(w: World): World
    requires w.pending.Some?
  {
    w.(chips := w.pending.value.previous, pending := None, learnt := w.pending.value.before)
  }

  /** One step. A step that cannot be taken leaves the world as it is. */
  ghost function Next(me: Actor, w: World, step: Step): World {
    if !Enabled(me, w, step) then w else
    match step
    case Change(actor, choice) => MapChanged(w, actor, choice)
    case Publish(update) => w.(outbox := w.outbox + {update})
    case Hear(update) =>
      w.(chips := ApplyReactionUpdate(w.chips, update, Some(me)), learnt := if w.pending.None? then Learn(me, w.learnt, update) else w.learnt)
    case Press(emoji, _) =>
      var reacting := !MarkOf(w.chips, emoji);
      w.(chips := OptimisticSetReaction(w.chips, emoji, reacting),
         pending := Some(Pending(w.chips, emoji, reacting, false, None, w.learnt, None)))
    case Process => MapChanged(w, me, Outcome(w.pending.value)).(pending := Some(w.pending.value.(processed := true)))
    case Respond(answer) => w.(pending := Some(w.pending.value.(answer := Some(answer), told := Mine(me, w.m))))
    case Confirm => w.(chips := w.pending.value.answer.value, pending := None, learnt := w.pending.value.told)
    case Refuse => Restored(w)
    case LoseAnswer => Restored(w)
  }

  ghost function Exec(me: Actor, w: World, steps: seq<Step>): World {
    if steps == [] then w else Next(me, Exec(me, w, steps[..|steps| - 1]), steps[|steps| - 1])
  }

  /* ------------------------------------ what every run keeps ------------------------------------ */

  /** An aggregate lists an emoji once, with a positive count. */
  predicate WellFormed(totals: seq<Total>) {
    && (forall i, j :: 0 <= i < j < |totals| ==> totals[i].emoji != totals[j].emoji)
    && forall t :: t in totals ==> t.count > 0
  }

  /** With nothing pending the chips mark what was learnt. */
  ghost predicate Sound(me: Actor, w: World) {
    && (forall update :: update in w.outbox ==> WellFormed(update.reactions))
    && match w.pending
       case None => KnowsMine(w.chips, w.learnt)
       case Some(p) => KnowsMine(p.previous, p.before) && (p.answer.Some? ==> p.processed && KnowsMine(p.answer.value, p.told))
  }

  /** The counts are those of the map, whatever the marks. */
  ghost predicate CountsRight(chips: seq<Chip>, m: Reacted) {
    && Distinct(chips)
    && (forall c :: c in chips ==> c.count == |Users(m, c.emoji)| && c.count > 0)
    && (forall a :: a in m ==> Listed(chips, m[a]))
  }

  lemma KnownIsOne(chips: seq<Chip>, x: Option<Emoji>, y: Option<Emoji>)
    requires KnowsMine(chips, x)
    ensures KnowsMine(chips, y) <==> x == y
  {
    if KnowsMine(chips, y) && x.Some? { assert Chosen(chips, x.value); }
    if KnowsMine(chips, y) && y.Some? { assert Chosen(chips, y.value); }
  }

  /** Right counts make a view exactly with the right mark. */
  lemma ViewByMark(chips: seq<Chip>, m: Reacted, me: Actor, mine: Option<Emoji>)
    requires CountsRight(chips, m) && KnowsMine(chips, mine)
    ensures IsView(chips, m, Some(me)) <==> mine == MyEmoji(m, Some(me))
  {
    if IsView(chips, m, Some(me)) {
      ViewKnowsMine(chips, m, Some(me));
      KnownIsOne(chips, mine, MyEmoji(m, Some(me)));
    }
    if mine == MyEmoji(m, Some(me)) {
      forall c | c in chips
        ensures c == ChipFor(m, Some(me), c.emoji)
      {
        MarkedIsChosen(chips, c);
      }
    }
  }

  lemma MarkedIsChosen(chips: seq<Chip>, c: Chip)
    requires Distinct(chips) && c in chips
    ensures c.reactedByMe <==> Chosen(chips, c.emoji)
  {
  }

  /** Hearing a broadcast, of whatever map: the chips then mark what it teaches. */
  lemma HeardMarks(me: Actor, chips: seq<Chip>, update: Update, mine: Option<Emoji>)
    requires WellFormed(update.reactions) && KnowsMine(chips, mine)
    ensures KnowsMine(ApplyReactionUpdate(chips, update, Some(me)), Learn(me, mine, update))
  {
    var next, mine' := ApplyReactionUpdate(chips, update, Some(me)), Learn(me, mine, update);
    forall k | 0 <= k < |next|
      ensures next[k].reactedByMe <==> (if update.reactorActorId == me then update.reactorEmoji else mine) == Some(next[k].emoji)
    {
      MarkOfChip(chips, update.reactions[k].emoji);
    }
    forall emoji
      ensures Chosen(next, emoji) <==> mine' == Some(emoji)
    {
      if mine' == Some(emoji) {
        var t :| t in update.reactions && t.emoji == emoji;
        var k :| 0 <= k < |update.reactions| && update.reactions[k] == t;
        assert next[k] in next;
      }
      if Chosen(next, emoji) {
        var k :| 0 <= k < |next| && next[k].emoji == emoji && next[k].reactedByMe;
        assert update.reactions[k] in update.reactions;
      }
    }
  }

  /** Hearing the totals of a map makes the counts those of that map. */
  lemma HeardCounts(me: Actor, chips: seq<Chip>, update: Update, m: Reacted)
    requires IsTotal(update.reactions, m)
    ensures CountsRight(ApplyReactionUpdate(chips, update, Some(me)), m)
  {
    var next := ApplyReactionUpdate(chips, update, Some(me));
    forall c | c in next
      ensures c.count == |Users(m, c.emoji)| && c.count > 0
    {
      var k :| 0 <= k < |next| && next[k] == c;
      assert update.reactions[k] in update.reactions;
    }
    forall a | a in m
      ensures Listed(next, m[a])
    {
      var t :| t in update.reactions && t.emoji == m[a];
      var k :| 0 <= k < |update.reactions| && update.reactions[k] == t;
      assert next[k] in next;
    }
  }

  lemma AnswerMarks(me: Actor, w: World, answer: seq<Chip>)
    requires me !in w.hidden && IsView(answer, Shown(w.m, w.hidden), Some(me))
    ensures KnowsMine(answer, Mine(me, w.m))
  {
    ViewKnowsMine(answer, Shown(w.m, w.hidden), Some(me));
  }

  lemma SoundStep(me: Actor, w: World, step: Step)
    requires Sound(me, w)
    ensures Sound(me, Next(me, w, step))
  {
    if Enabled(me, w, step) {
      match step
      case Hear(update) => if w.pending.None? { HeardMarks(me, w.chips, update, w.learnt); }
      case Respond(answer) => AnswerMarks(me, w, answer);
      case _ =>
    }
  }

  lemma {:induction false} AlwaysSound(me: Actor, w: World, steps: seq<Step>)
    requires Sound(me, w)
    ensures Sound(me, Exec(me, w, steps))
  {
    if steps != [] {
      AlwaysSound(me, w, steps[..|steps| - 1]);
      SoundStep(me, Exec(me, w, steps[..|steps| - 1]), steps[|steps| - 1]);
    }
  }

  /**
   On what the server sends, the optimistic update always shows what the press asks for: no chip it sends has
   an empty emoji.
   */
  lemma OptimisticShows(me: Actor, m: Reacted, hidden: set<Actor>, chips: seq<Chip>, emoji: Emoji, reacting: bool)
    requires IsView(chips, Shown(m, hidden), Some(me))
    ensures IsView(OptimisticSetReaction(chips, emoji, reacting), SetReaction(Shown(m, hidden), me, emoji, reacting), Some(me))
  {
    OptimisticIsViewExactly(chips, Shown(m, hidden), me, emoji, reacting);
  }

  /** A press on chips that are my view shows my reaction removed if it is that one, and else set to it. */
  lemma PressShows(me: Actor, w: World, emoji: Emoji, movedOut: bool)
    requires w.pending.None? && me !in w.hidden && IsView(w.chips, Shown(w.m, w.hidden), Some(me))
    ensures var w' := Next(me, w, Press(emoji, movedOut)); var m, mine := Shown(w.m, w.hidden), Mine(me, w.m) == Some(emoji);
            && (movedOut && !mine ==> w' == w)
            && (!movedOut || mine ==>
                  && IsView(w'.chips, if mine then m - {me} else m[me := emoji], Some(me)) && w'.m == w.m
                  && w'.pending.Some? && w'.pending.value.previous == w.chips && w'.pending.value.emoji == emoji && w'.pending.value.reacting == !mine)
  {
    var m := Shown(w.m, w.hidden);
    ViewKnowsMine(w.chips, m, Some(me));
    MarkOfChip(w.chips, emoji);
    OptimisticShows(me, w.m, w.hidden, w.chips, emoji, !MarkOf(w.chips, emoji));
  }

  /** The server does what the press asks for, unless it asks to remove a reaction that is not there. */
  lemma ProcessingSets(me: Actor, w: World)
    requires w.pending.Some? && !w.pending.value.processed && w.pending.value.emoji != ""
    ensures var p, w' := w.pending.value, Next(me, w, Process);
            if p.reacting then Mine(me, w'.m) == Some(p.emoji)
            else if MyEmoji(w.m, Some(me)) == Some(p.emoji) then Mine(me, w'.m) == None
            else w' == w
  {
  }

  /* ------------------------------ when idle chips mark my reaction ------------------------------ */

  /** Nothing is pending and the chips mark exactly my reaction. */
  ghost predicate MarksMine(me: Actor, w: World) {
    w.pending.None? && KnowsMine(w.chips, Mine(me, w.m))
  }

  /**
   In every run, with unheard changes, stale broadcasts, lost answers and other tabs: with nothing pending
   the chips mark exactly my reaction if and only if what the client learnt last is my entry on the server;
   and hearing the totals of the map as it is makes them a view of it if and only if what it teaches is.
   */
  lemma ChipsRecover(me: Actor, w: World, steps: seq<Step>)
    requires Sound(me, w) && Exec(me, w, steps).pending.None?
    ensures var w' := Exec(me, w, steps);
            && (MarksMine(me, w') <==> w'.learnt == Mine(me, w'.m))
            && forall update :: update in w'.outbox && IsTotal(update.reactions, Shown(w'.m, {})) ==>
                 (IsView(Next(me, w', Hear(update)).chips, Shown(w'.m, {}), Some(me)) <==> Learn(me, w'.learnt, update) == Mine(me, w'.m))
  {
    AlwaysSound(me, w, steps);
    var w' := Exec(me, w, steps);
    KnownIsOne(w'.chips, w'.learnt, Mine(me, w'.m));
    forall update | update in w'.outbox && IsTotal(update.reactions, Shown(w'.m, {}))
      ensures IsView(Next(me, w', Hear(update)).chips, Shown(w'.m, {}), Some(me)) <==> Learn(me, w'.learnt, update) == Mine(me, w'.m)
    {
      HeardMarks(me, w'.chips, update, w'.learnt);
      HeardCounts(me, w'.chips, update, Shown(w'.m, {}));
      ViewByMark(Next(me, w', Hear(update)).chips, Shown(w'.m, {}), me, Learn(me, w'.learnt, update));
    }
  }

  /** Steps that teach nothing new to a client that takes `learnt` for my reaction. */
  predicate TeachesNothing(me: Actor, learnt: Option<Emoji>, step: Step) {
    match step
    case Change(_, _) => true
    case Publish(_) => true
    case Hear(update) => update.reactorActorId != me && (learnt.Some? ==> Lists(update.reactions, learnt.value))
    case _ => false
  }

  /**
   The last lesson decides. Take the moment of the last thing that taught the client my reaction: a broadcast
   about me, one without the emoji, an answer, or a failure. From there on, with any changes of the map,
   heard, unheard or never sent, mine from other tabs among them, the chips mark my reaction if and only if my
   entry is what the client learnt then.
   */
  lemma {:induction false} LastLessonDecides(me: Actor, w: World, steps: seq<Step>)
    requires Sound(me, w) && w.pending.None? && forall k :: 0 <= k < |steps| ==> TeachesNothing(me, w.learnt, steps[k])
    ensures var w' := Exec(me, w, steps);
            Sound(me, w') && w'.pending.None? && w'.learnt == w.learnt && (MarksMine(me, w') <==> Mine(me, w'.m) == w.learnt)
  {
    var w' := Exec(me, w, steps);
    if steps != [] {
      var init, last := steps[..|steps| - 1], steps[|steps| - 1];
      LastLessonDecides(me, w, init);
      SoundStep(me, Exec(me, w, init), last);
    }
    KnownIsOne(w'.chips, w'.learnt, Mine(me, w'.m));
  }

  /** My reactions set by another tab in these steps, the last one counting; `mine` if there is none. */
  function LastChoice(me: Actor, mine: Option<Emoji>, steps: seq<Step>): Option<Emoji> {
    if steps == [] then mine
    else
      var last := steps[|steps| - 1];
      if last.Change? && last.actor == me then (if last.choice == Some("") then None else last.choice)
      else LastChoice(me, mine, steps[..|steps| - 1])
  }

  lemma {:induction false} MineIsLastChoice(me: Actor, w: World, steps: seq<Step>)
    requires forall k :: 0 <= k < |steps| ==> !steps[k].Process?
    ensures Mine(me, Exec(me, w, steps).m) == LastChoice(me, Mine(me, w.m), steps)
  {
    if steps != [] { MineIsLastChoice(me, w, steps[..|steps| - 1]); }
  }

  /**
   So for a client that hears nothing, such as one that does not follow the author, right chips stay right
   exactly as long as no other tab leaves me with another reaction; the broadcasts promised for other tabs
   do not come.
   */
  lemma WithoutBroadcastsExactly(me: Actor, w: World, steps: seq<Step>)
    requires Sound(me, w) && MarksMine(me, w) && forall k :: 0 <= k < |steps| ==> steps[k].Change? || steps[k].Publish?
    ensures MarksMine(me, Exec(me, w, steps)) <==> LastChoice(me, Mine(me, w.m), steps) == Mine(me, w.m)
  {
    KnownIsOne(w.chips, w.learnt, Mine(me, w.m));
    LastLessonDecides(me, w, steps);
    MineIsLastChoice(me, w, steps);
  }

  /** The run of one step: another tab sets `emoji`, and this one is never told. */
  lemma NonFollowerMissesOwnChange(me: Actor, w: World, emoji: Emoji)
    requires Sound(me, w) && MarksMine(me, w) && emoji != "" && Mine(me, w.m) != Some(emoji)
    ensures !MarksMine(me, Exec(me, w, [Change(me, Some(emoji))]))
  {
    var steps := [Change(me, Some(emoji))];
    WithoutBroadcastsExactly(me, w, steps);
    assert LastChoice(me, Mine(me, w.m), steps) == Some(emoji);
  }

  predicate IsEnd(step: Step) {
    step.Confirm? || step.Refuse? || step.LoseAnswer?
  }

  /**
   The step leaves idle chips up to date: no other tab changes my reaction, a broadcast teaches, and the end
   of a press shows, what my entry is at that moment.
   */
  ghost predicate KeepsUp(me: Actor, w: World, step: Step) {
    match step
    case Change(actor, choice) => w.pending.None? ==> Mine(me, Changed(w.m, actor, choice)) == Mine(me, w.m)
    case Hear(update) => w.pending.None? && update in w.outbox ==> Learn(me, w.learnt, update) == Mine(me, w.m)
    case _ => IsEnd(step) && Enabled(me, w, step) ==> Next(me, w, step).learnt == Mine(me, w.m)
  }

  ghost predicate AllKeepUp(me: Actor, w: World, steps: seq<Step>) {
    steps != [] ==> AllKeepUp(me, w, steps[..|steps| - 1]) && KeepsUp(me, Exec(me, w, steps[..|steps| - 1]), steps[|steps| - 1])
  }

  /** At every moment of the run at which nothing is pending, the chips mark exactly my reaction. */
  ghost predicate MarkedThroughout(me: Actor, w: World, steps: seq<Step>) {
    && (steps != [] ==> MarkedThroughout(me, w, steps[..|steps| - 1]))
    && (Exec(me, w, steps).pending.None? ==> MarksMine(me, Exec(me, w, steps)))
  }

  /** Whole runs: the chips mark my reaction throughout if and only if every step keeps them up to date. */
  lemma {:induction false} MarkedThroughoutExactly(me: Actor, w: World, steps: seq<Step>)
    requires Sound(me, w) && MarksMine(me, w)
    ensures MarkedThroughout(me, w, steps) <==> AllKeepUp(me, w, steps)
  {
    if steps != [] {
      var init, last := steps[..|steps| - 1], steps[|steps| - 1];
      MarkedThroughoutExactly(me, w, init);
      AlwaysSound(me, w, init);
      if MarkedThroughout(me, w, init) { StepKeepsUp(me, Exec(me, w, init), last); }
    }
  }

  lemma StepKeepsUp(me: Actor, w: World, step: Step)
    requires Sound(me, w) && (w.pending.None? ==> MarksMine(me, w))
    ensures var w' := Next(me, w, step); (w'.pending.None? ==> MarksMine(me, w')) <==> KeepsUp(me, w, step)
  {
    var w' := Next(me, w, step);
    SoundStep(me, w, step);
    if w.pending.None? { KnownIsOne(w.chips, w.learnt, Mine(me, w.m)); }
    if w'.pending.None? { KnownIsOne(w'.chips, w'.learnt, Mine(me, w'.m)); }
  }

  /* ------------------------------ the end of a press ------------------------------ */

  /** Steps between a press and its end. */
  predicate NoEnd(steps: seq<Step>) {
    forall k :: 0 <= k < |steps| ==> !IsEnd(steps[k])
  }

  /** Until its end a press keeps what it restores, and its answer once it has one. */
  lemma {:induction false} PressGoesOn(me: Actor, w: World, steps: seq<Step>)
    requires w.pending.Some? && NoEnd(steps)
    ensures var p, p' := w.pending, Exec(me, w, steps).pending;
            && p'.Some? && p'.value.previous == p.value.previous && p'.value.before == p.value.before
            && (p.value.processed ==> p'.value.processed)
            && (p.value.answer.Some? ==> p'.value.answer == p.value.answer && p'.value.told == p.value.told)
  {
    if steps != [] { PressGoesOn(me, w, steps[..|steps| - 1]); }
  }

  lemma ConfirmShows(me: Actor, w: World, answer: seq<Chip>, told: Option<Emoji>)
    requires w.pending.Some? && w.pending.value.answer == Some(answer) && KnowsMine(answer, told)
    ensures var w' := Next(me, w, Confirm); w'.pending.None? && w'.m == w.m && (MarksMine(me, w') <==> Mine(me, w.m) == told)
  {
    KnownIsOne(answer, told, Mine(me, w.m));
  }

  /**
   After an answer the chips mark exactly my reaction if and only if my entry is what it was when the
   server took the answer: otherwise another tab has changed it in between.
   */
  lemma ConfirmMarksExactly(me: Actor, w: World, answer: seq<Chip>, during: seq<Step>)
    requires Enabled(me, w, Respond(answer)) && NoEnd(during)
    ensures var w' := Exec(me, Next(me, w, Respond(answer)), during); var w'' := Next(me, w', Confirm);
            w''.pending.None? && w''.m == w'.m && (MarksMine(me, w'') <==> Mine(me, w'.m) == Mine(me, w.m))
  {
    var w1 := Next(me, w, Respond(answer));
    PressGoesOn(me, w1, during);
    AnswerMarks(me, w, answer);
    ConfirmShows(me, Exec(me, w1, during), answer, Mine(me, w.m));
  }

  /**
   After a refusal or a lost answer the chips mark exactly my reaction if and only if my entry is what the
   client had learnt before the press.
   */
  lemma FailureMarksExactly(me: Actor, w: World, press: Step, during: seq<Step>, end: Step)
    requires Sound(me, w) && press.Press? && Enabled(me, w, press) && NoEnd(during)
    requires (end.Refuse? || end.LoseAnswer?) && Enabled(me, Exec(me, Next(me, w, press), during), end)
    ensures var w' := Exec(me, Next(me, w, press), during); var w'' := Next(me, w', end);
            w''.pending.None? && w''.m == w'.m && (MarksMine(me, w'') <==> Mine(me, w'.m) == w.learnt)
  {
    var w1 := Next(me, w, press);
    PressGoesOn(me, w1, during);
    KnownIsOne(w.chips, w.learnt, Mine(me, Exec(me, w1, during).m));
  }

  /**
   So a lost answer always hides my reaction, whatever the chips and the map: after a press that the server
   processes and whose answer is lost, the chips do not mark what I have chosen.
   */
  lemma LostAnswerHidesMine(me: Actor, w: World, press: Step)
    requires Sound(me, w) && press.Press? && Enabled(me, w, press) && Enabled(me, Next(me, w, press), Process)
    ensures var w' := Next(me, Next(me, Next(me, w, press), Process), LoseAnswer); w'.pending.None? && !MarksMine(me, w')
  {
    var w1 := Next(me, w, press);
    MarkOfChip(w.chips, press.emoji);
    KnownIsOne(w.chips, w.learnt, Outcome(w1.pending.value));
  }

  /** Changes, broadcasts and hearing of broadcasts, but none about me. */
  predicate AboutOthers(me: Actor, steps: seq<Step>) {
    forall k :: 0 <= k < |steps| ==>
      match steps[k]
      case Change(actor, _) => actor != me
      case Publish(_) => true
      case Hear(update) => update.reactorActorId != me
      case _ => false
  }

  /** And a reaction hidden that way stays hidden, however many changes of others are broadcast. */
  lemma {:induction false} HiddenStaysHidden(me: Actor, w: World, steps: seq<Step>)
    requires Sound(me, w) && w.pending.None? && Mine(me, w.m).Some? && !MarksMine(me, w) && AboutOthers(me, steps)
    ensures var w' := Exec(me, w, steps);
            Sound(me, w') && w'.pending.None? && Mine(me, w'.m) == Mine(me, w.m) && !MarksMine(me, w')
  {
    if steps != [] {
      var init, last := steps[..|steps| - 1], steps[|steps| - 1];
      HiddenStaysHidden(me, w, init);
      var before, after := Exec(me, w, init), Exec(me, w, steps);
      SoundStep(me, before, last);
      KnownIsOne(before.chips, before.learnt, Mine(me, before.m));
      KnownIsOne(after.chips, after.learnt, Mine(me, after.m));
    }
  }

  /** Another tab changes my reaction after the server took its answer and before the answer arrives. */
  lemma OtherTabHidesMine(me: Actor, w: World, answer: seq<Chip>, choice: Option<Emoji>)
    requires Enabled(me, w, Respond(answer)) && choice != Some("") && choice != Mine(me, w.m)
    ensures var w' := Exec(me, Next(me, w, Respond(answer)), [Change(me, choice)]); var w'' := Next(me, w', Confirm);
            w''.pending.None? && !MarksMine(me, w'')
  {
    var during := [Change(me, choice)];
    ConfirmMarksExactly(me, w, answer, during);
    MineIsLastChoice(me, Next(me, w, Respond(answer)), during);
  }

  /* ------------------------------ when the end of a press shows my view ------------------------------ */

  /** What a list of chips says without the marks. */
  predicate SameTotals(chips: seq<Chip>, totals: seq<Total>) {
    (forall c :: c in chips ==> Total(c.emoji, c.count) in totals) && (forall t :: t in totals ==> Listed(chips, t.emoji))
  }

  lemma TotalsListValues(totals: seq<Total>, m: Reacted)
    requires IsTotal(totals, m)
    ensures forall e :: e in m.Values <==> Lists(totals, e)
  {
    forall t | t in totals
      ensures t.emoji in m.Values
    {
      assert |Users(m, t.emoji)| > 0;
      var a :| a in Users(m, t.emoji);
    }
  }

  lemma CountsByTotals(chips: seq<Chip>, totals: seq<Total>, m: Reacted)
    requires Distinct(chips) && IsTotal(totals, m)
    ensures CountsRight(chips, m) <==> SameTotals(chips, totals)
  {
    TotalsListValues(totals, m);
    if CountsRight(chips, m) {
      forall c | c in chips
        ensures Total(c.emoji, c.count) in totals
      {
        assert |Users(m, c.emoji)| > 0;
        var a :| a in Users(m, c.emoji);
        var t :| t in totals && t.emoji == m[a];
      }
    }
    if SameTotals(chips, totals) {
      forall c | c in chips
        ensures c.count == |Users(m, c.emoji)| && c.count > 0
      {
        assert Total(c.emoji, c.count) in totals;
      }
      forall a | a in m
        ensures Listed(chips, m[a])
      {
        var t :| t in totals && t.emoji == m[a];
      }
    }
  }

  /**
   Whatever ends a press, an answer, a refusal or a lost answer: the chips put on screen are my view of the
   server's map as it is then, less the actors I have hidden, if and only if they show the totals the server
   would give out at that moment and what they teach is my entry. That holds whatever changed since the list
   was taken, and whether this client heard of it or not.
   */
  lemma EndOfPressIsViewExactly(me: Actor, w: World, end: Step, totals: seq<Total>)
    requires Sound(me, w) && IsEnd(end) && Enabled(me, w, end) && me !in w.hidden && IsTotal(totals, Shown(w.m, w.hidden))
    ensures var w' := Next(me, w, end);
            && w'.pending.None? && w'.m == w.m
            && (IsView(w'.chips, Shown(w'.m, w'.hidden), Some(me)) <==> SameTotals(w'.chips, totals) && w'.learnt == Mine(me, w'.m))
  {
    SoundStep(me, w, end);
    ViewExactly(me, Next(me, w, end), totals);
  }

  lemma ViewExactly(me: Actor, w: World, totals: seq<Total>)
    requires Sound(me, w) && w.pending.None? && me !in w.hidden && IsTotal(totals, Shown(w.m, w.hidden))
    ensures IsView(w.chips, Shown(w.m, w.hidden), Some(me)) <==> SameTotals(w.chips, totals) && w.learnt == Mine(me, w.m)
  {
    var m := Shown(w.m, w.hidden);
    CountsByTotals(w.chips, totals, m);
    if CountsRight(w.chips, m) { ViewByMark(w.chips, m, me, w.learnt); }
    if IsView(w.chips, m, Some(me)) {
      ViewKnowsMine(w.chips, m, Some(me));
      KnownIsOne(w.chips, w.learnt, Mine(me, w.m));
    }
  }

  /** One visible change of anybody between the server's answer and its arrival makes the answer no view. */
  lemma OneChangeMissed(me: Actor, w: World, answer: seq<Chip>, actor: Actor, choice: Option<Emoji>)
    requires Enabled(me, w, Respond(answer)) && Shown(Changed(w.m, actor, choice), w.hidden) != Shown(w.m, w.hidden)
    ensures var w' := Next(me, Next(me, Next(me, w, Respond(answer)), Change(actor, choice)), Confirm);
            w'.pending.None? && w'.chips == answer && !IsView(w'.chips, Shown(w'.m, w'.hidden), Some(me))
  {
    ShownElsewhere(w.m, w.hidden, actor, choice);
    OneChangeShows(Shown(w.m, w.hidden), Shown(Changed(w.m, actor, choice), w.hidden), actor, answer, me);
  }

  lemma ShownElsewhere(m: Reacted, hidden: set<Actor>, actor: Actor, choice: Option<Emoji>)
    ensures Shown(m, hidden) - {actor} == Shown(Changed(m, actor, choice), hidden) - {actor}
  {
  }

  lemma OneChangeShows(m: Reacted, m': Reacted, actor: Actor, chips: seq<Chip>, me: Actor)
    requires m != m' && m - {actor} == m' - {actor} && IsView(chips, m, Some(me))
    ensures !IsView(chips, m', Some(me))
  {
    var emoji := UsersDiffer(m, m', actor);
    CountOfView(chips, m, me, emoji);
    if IsView(chips, m', Some(me)) { CountOfView(chips, m', me, emoji); }
  }

  /** A change of one actor changes how many use some emoji. */
  lemma UsersDiffer(m: Reacted, m': Reacted, actor: Actor) returns (emoji: Emoji)
    requires m != m' && m - {actor} == m' - {actor}
    ensures |Users(m', emoji)| != |Users(m, emoji)|
  {
    SameButOne(m, m', actor);
    emoji := if actor in m' then m'[actor] else m[actor];
    if actor in m' { OneMoreUser(m, m', actor, emoji); } else { OneMoreUser(m', m, actor, emoji); }
  }

  lemma OneMoreUser(m: Reacted, m': Reacted, actor: Actor, emoji: Emoji)
    requires forall a :: a != actor ==> (a in m <==> a in m') && (a in m ==> m[a] == m'[a])
    requires actor in m' && m'[actor] == emoji && (actor in m ==> m[actor] != emoji)
    ensures |Users(m', emoji)| == |Users(m, emoji)| + 1
  {
    assert Users(m', emoji) == Users(m, emoji) + {actor} && actor !in Users(m, emoji);
  }

  lemma SameButOne(m: Reacted, m': Reacted, actor: Actor)
    requires m != m' && m - {actor} == m' - {actor}
    ensures forall a :: a != actor ==> (a in m <==> a in m') && (a in m ==> m[a] == m'[a])
    ensures if actor in m' then actor in m ==> m[actor] != m'[actor] else actor in m
  {
    forall a | a != actor
      ensures (a in m <==> a in m') && (a in m ==> m[a] == m'[a])
    {
      assert (a in m <==> a in m - {actor}) && (a in m' <==> a in m' - {actor});
      assert a in m ==> (m - {actor})[a] == m[a];
      assert a in m' ==> (m' - {actor})[a] == m'[a];
    }
    assert actor in m && actor in m' && m[actor] == m'[actor] ==> m == m';
    assert actor !in m && actor !in m' ==> m == m';
  }

  /** In a view the chip of an emoji tells how many use it. */
  lemma CountOfView(chips: seq<Chip>, m: Reacted, me: Actor, emoji: Emoji)
    requires IsView(chips, m, Some(me))
    ensures forall c :: c in chips && c.emoji == emoji ==> c.count == |Users(m, emoji)|
    ensures Listed(chips, emoji) <==> |Users(m, emoji)| > 0
  {
    if |Users(m, emoji)| > 0 {
      var a :| a in Users(m, emoji);
    }
  }

  /** As many have come to each emoji as have left it, and my own reaction is the same. */
  ghost predicate Balanced(m: Reacted, m': Reacted, me: Actor) {
    && MyEmoji(m', Some(me)) == MyEmoji(m, Some(me))
    && forall emoji :: |Users(m', emoji) - Users(m, emoji)| == |Users(m, emoji) - Users(m', emoji)|
  }

  lemma BalanceOf(m: Reacted, m': Reacted, emoji: Emoji)
    ensures |Users(m', emoji)| == |Users(m, emoji)| <==> |Users(m', emoji) - Users(m, emoji)| == |Users(m, emoji) - Users(m', emoji)|
  {
    var a, b := Users(m, emoji), Users(m', emoji);
    assert a == (a - b) + (a * b) && b == (b - a) + (a * b);
  }

  /** A view of one map is a view of another exactly if they balance. */
  lemma ViewOfBalanced(chips: seq<Chip>, m: Reacted, m': Reacted, me: Actor)
    requires IsView(chips, m, Some(me))
    ensures IsView(chips, m', Some(me)) <==> Balanced(m, m', me)
  {
    forall emoji
      ensures |Users(m', emoji)| == |Users(m, emoji)| <==> |Users(m', emoji) - Users(m, emoji)| == |Users(m, emoji) - Users(m', emoji)|
    {
      BalanceOf(m, m', emoji);
    }
    if IsView(chips, m', Some(me)) {
      forall emoji
        ensures |Users(m', emoji)| == |Users(m, emoji)|
      {
        CountOfView(chips, m, me, emoji);
        CountOfView(chips, m', me, emoji);
      }
      ViewKnowsMine(chips, m, Some(me));
      ViewKnowsMine(chips, m', Some(me));
      KnownIsOne(chips, MyEmoji(m, Some(me)), MyEmoji(m', Some(me)));
    }
    if Balanced(m, m', me) {
      forall a | a in m'
        ensures Listed(chips, m'[a])
      {
        assert a in Users(m', m'[a]);
        CountOfView(chips, m, me, m'[a]);
      }
    }
  }

  lemma {:induction false} HiddenStaysFixed(me: Actor, w: World, steps: seq<Step>)
    ensures Exec(me, w, steps).hidden == w.hidden
  {
    if steps != [] { HiddenStaysFixed(me, w, steps[..|steps| - 1]); }
  }

  /**
   An answer is my view of the map on arrival if and only if, among the actors I have not hidden, as many have
   come to each emoji as have left it since the server took it, and my own reaction is the same.
   */
  lemma AnswerIsViewExactly(me: Actor, w: World, answer: seq<Chip>, during: seq<Step>)
    requires Enabled(me, w, Respond(answer)) && NoEnd(during)
    ensures var w' := Next(me, Exec(me, Next(me, w, Respond(answer)), during), Confirm);
            && w'.pending.None? && w'.chips == answer && w'.hidden == w.hidden
            && (IsView(w'.chips, Shown(w'.m, w'.hidden), Some(me)) <==> Balanced(Shown(w.m, w.hidden), Shown(w'.m, w'.hidden), me))
  {
    var w1 := Next(me, w, Respond(answer));
    PressGoesOn(me, w1, during);
    HiddenStaysFixed(me, w1, during);
    ViewOfBalanced(answer, Shown(w.m, w.hidden), Shown(Exec(me, w1, during).m, w.hidden), me);
  }

  /** Between press and refusal nothing has changed: everything is put back as it was. */
  lemma QuietRefusalIsView(me: Actor, w: World, press: Step)
    requires press.Press? && Enabled(me, w, press)
    ensures Next(me, Next(me, w, press), Refuse) == w
  {
  }
}
