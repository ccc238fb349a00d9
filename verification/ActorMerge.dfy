/**
 Discovery of remote actors as interleaved transactions.

 Every discovery is a call with its own (Snowflake) row id. Under READ COMMITTED each SELECT of a
 call sees its own snapshot, and the one write of the transaction is checked against the UNIQUE
 constraints and committed in one step, so a call is three steps per attempt and the steps of any
 number of calls interleave freely. A unique violation restarts the call, up to `MAX_ATTEMPTS`.
 */
module ActorMerge {
  import opened Options
  import opened ActorTable

  const MAX_ATTEMPTS: nat := 5

  datatype Plan = Update(id: nat) | Marry(id: nat) | Insert

  /** Where a call stands: about to SELECT itself, about to SELECT its counterpart, about to write. */
  datatype Progress =
    | Begin
    | Missed
    | Planned(plan: Plan)
    | Done(actorId: nat, married: bool)
    | GaveUp

  datatype Call = Call(side: Side, ident: string, claim: Option<string>, attempt: nat, progress: Progress)

  datatype System = System(table: Table, calls: map<nat, Call>)

  datatype Step =
    | Start(id: nat, side: Side, ident: string, claim: Option<string>)
    | Run(id: nat)

  const EMPTY := System(map[], map[])

  ghost function SelectExisting(t: Table, c: Call): Progress {
    match FindOwn(t, c.side, c.ident)
    case Some(id) => Planned(Update(id))
    case None => Missed
  }

  ghost function SelectCounterpart(t: Table, c: Call): Progress {
    match c.claim
    case None => Planned(Insert)
    case Some(claimed) =>
      match FindOwn(t, Other(c.side), claimed)
      case Some(id) => if Claimed(t[id], c.side) == Some(c.ident) then Planned(Marry(id)) else Planned(Insert)
      case None => Planned(Insert)
  }

  /** The statement a plan executes: the row it stores and where, or nothing when the row is gone. */
  function Target(t: Table, callId: nat, c: Call, plan: Plan): Option<(nat, Row)> {
    match plan
    case Update(id) => if id in t then Some((id, UpdatedRow(t[id], c.side, c.claim))) else None
    case Marry(id) => if id in t then Some((id, MarriedRow(t[id], c.side, c.ident))) else None
    case Insert => Some((callId, NewRow(c.side, c.ident, c.claim)))
  }

  function Outcome(callId: nat, plan: Plan): Progress {
    match plan
    case Update(id) => Done(id, false)
    case Marry(id) => Done(id, true)
    case Insert => Done(callId, false)
  }

  predicate Fails(t: Table, callId: nat, c: Call, plan: Plan) {
    || (plan.Insert? && callId in t)
    || (var w := Target(t, callId, c, plan); w.Some? && Violates(t, w.value.0, w.value.1))
  }

  /** Write and commit; a violation rolls back and either starts over or gives up. */
  function Commit(t: Table, callId: nat, c: Call, plan: Plan): (Table, Call) {
    if Fails(t, callId, c, plan) then
      (t, if c.attempt < MAX_ATTEMPTS then c.(attempt := c.attempt + 1, progress := Begin)
          else c.(progress := GaveUp))
    else
      var w := Target(t, callId, c, plan);
      (if w.Some? then t[w.value.0 := w.value.1] else t, c.(progress := Outcome(callId, plan)))
  }

  ghost function RunCall(t: Table, callId: nat, c: Call): (Table, Call) {
    match c.progress
    case Begin => (t, c.(progress := SelectExisting(t, c)))
    case Missed => (t, c.(progress := SelectCounterpart(t, c)))
    case Planned(plan) => Commit(t, callId, c, plan)
    case _ => (t, c)
  }

  /** One step of the system. A step that cannot be taken leaves the system as it is. */
  ghost function Next(s: System, step: Step): System {
    match step
    case Start(id, side, ident, claim) =>
      if id in s.calls || id in s.table then s
      else s.(calls := s.calls[id := Call(side, ident, claim, 1, Begin)])
    case Run(id) =>
      if id !in s.calls then s
      else var (t, c) := RunCall(s.table, id, s.calls[id]);
           System(t, s.calls[id := c])
  }

  ghost function Exec(s: System, steps: seq<Step>): System {
    if steps == [] then s else Next(Exec(s, steps[..|steps| - 1]), steps[|steps| - 1])
  }

  /* ------------------------------- safety, whatever is claimed ------------------------------- */

  ghost predicate Called(s: System, side: Side, ident: string, claim: Option<string>) {
    exists id :: id in s.calls && s.calls[id].side == side && s.calls[id].ident == ident && s.calls[id].claim == claim
  }

  function SideOf(typ: ActorType): Side {
    if typ == Bsky then Atp else Ap
  }

  /** Every row has exactly the columns its type allows, and every column was vouched for by a call. */
  ghost predicate RowSound(s: System, row: Row) {
    if row.typ == RemoteSeiran then
      && row.apUri.Some? && row.atDid.Some? && row.claimedApUri.None? && row.claimedAtDid.None?
      && Called(s, Ap, row.apUri.value, row.atDid)
      && Called(s, Atp, row.atDid.value, row.apUri)
    else
      var side := SideOf(row.typ);
      && Own(row, side).Some? && Own(row, Other(side)).None? && Claimed(row, side).None?
      && (Claimed(row, Other(side)).Some? ==> Called(s, side, Own(row, side).value, Claimed(row, Other(side))))
      && (exists claim :: Called(s, side, Own(row, side).value, claim))
  }

  /** A row waiting to be married to `ident` discovered on `side`, or already married to it. */
  ghost predicate MarriageOpen(row: Row, side: Side, ident: string, claimed: string) {
    && Own(row, Other(side)) == Some(claimed)
    && if row.typ == RemoteSeiran then Own(row, side) == Some(ident) else Claimed(row, side) == Some(ident)
  }

  ghost predicate PlanSound(t: Table, c: Call, plan: Plan) {
    match plan
    case Update(id) => HasOwn(t, id, c.side, c.ident)
    case Marry(id) => c.claim.Some? && id in t && MarriageOpen(t[id], c.side, c.ident, c.claim.value)
    case Insert => true
  }

  ghost predicate CallSound(s: System, id: nat) {
    id in s.calls ==>
      var c := s.calls[id];
      && (c.progress.Planned? ==> PlanSound(s.table, c, c.progress.plan))
      && (c.progress.Done? ==> HasOwn(s.table, c.progress.actorId, c.side, c.ident))
  }

  ghost predicate Sound(s: System) {
    && Unique(s.table)
    && (forall id {:trigger RowSound(s, s.table[id])} :: id in s.table ==> RowSound(s, s.table[id]))
    && (forall id :: id in s.table ==> id in s.calls && s.calls[id].progress.Done?)
    && (forall id {:trigger CallSound(s, id)} :: CallSound(s, id))
  }

  /** A row never loses an identity it has, and keeps everything once married. */
  ghost predicate RowGrows(before: Row, after: Row) {
    && (before.typ == RemoteSeiran ==> after == before)
    && (before.apUri.Some? ==> after.apUri == before.apUri)
    && (before.atDid.Some? ==> after.atDid == before.atDid)
    && (before.claimedApUri.Some? ==>
          if after.typ == RemoteSeiran then after.apUri == before.claimedApUri else after.claimedApUri == before.claimedApUri)
    && (before.claimedAtDid.Some? ==>
          if after.typ == RemoteSeiran then after.atDid == before.claimedAtDid else after.claimedAtDid == before.claimedAtDid)
  }

  ghost predicate TableGrows(t: Table, t': Table) {
    forall id :: id in t ==> id in t' && RowGrows(t[id], t'[id])
  }

  lemma TableGrowsItself(s: System)
    requires Sound(s)
    ensures TableGrows(s.table, s.table)
  {
    forall id | id in s.table ensures RowGrows(s.table[id], s.table[id]) {
      assert RowSound(s, s.table[id]);
    }
  }

  /** What a write stores, and that it stores it soundly. */
  lemma WriteSound(s: System, id: nat, plan: Plan)
    requires Sound(s) && id in s.calls && s.calls[id].progress == Planned(plan)
    requires !Fails(s.table, id, s.calls[id], plan)
    ensures var w := Target(s.table, id, s.calls[id], plan);
            && w.Some? && RowSound(s, w.value.1)
            && Own(w.value.1, s.calls[id].side) == Some(s.calls[id].ident)
            && (w.value.0 in s.table ==> RowGrows(s.table[w.value.0], w.value.1))
  {
    var c := s.calls[id];
    assert CallSound(s, id);
    match plan
    case Update(row) => assert RowSound(s, s.table[row]);
    case Marry(row) => assert RowSound(s, s.table[row]); assert Called(s, c.side, c.ident, c.claim);
    case Insert => assert Called(s, c.side, c.ident, c.claim);
  }

  /** Calls are never forgotten and never change what they discovered. */
  ghost predicate CallsGrow(s: System, s': System) {
    forall id :: id in s.calls ==>
      && id in s'.calls
      && s'.calls[id].side == s.calls[id].side && s'.calls[id].ident == s.calls[id].ident && s'.calls[id].claim == s.calls[id].claim
  }

  lemma RowStaysSound(s: System, s': System, row: Row)
    requires CallsGrow(s, s') && RowSound(s, row)
    ensures RowSound(s', row)
  {
    forall side, ident, claim | Called(s, side, ident, claim)
      ensures Called(s', side, ident, claim)
    {
      var id :| id in s.calls && s.calls[id].side == side && s.calls[id].ident == ident && s.calls[id].claim == claim;
      assert id in s'.calls;
    }
  }

  lemma CallStaysSound(s: System, s': System, id: nat)
    requires id in s.calls && CallSound(s, id) && TableGrows(s.table, s'.table)
    requires id in s'.calls && s'.calls[id] == s.calls[id]
    ensures CallSound(s', id)
  {
    var c := s.calls[id];
    match c.progress
    case Planned(Update(row)) => assert row in s'.table;
    case Planned(Marry(row)) => assert row in s'.table;
    case Done(row, _) => assert row in s'.table;
    case _ =>
  }

  lemma OneWriteKeepsUnique(t: Table, id: nat, row: Row)
    requires Unique(t) && !Violates(t, id, row)
    ensures Unique(t[id := row])
  {
    var t' := t[id := row];
    forall i, j | i in t' && j in t' && i != j
      ensures !Clash(t'[i], t'[j])
    {
      if i == id { assert !Clash(t[j], row); }
    }
  }

  lemma StartSound(s: System, step: Step)
    requires Sound(s) && step.Start? && step.id !in s.calls && step.id !in s.table
    ensures Sound(Next(s, step))
  {
    var s' := Next(s, step);
    forall id | id in s'.table ensures RowSound(s', s'.table[id]) {
      assert RowSound(s, s.table[id]);
      RowStaysSound(s, s', s.table[id]);
    }
    forall id ensures CallSound(s', id) {
      if id in s.calls { assert CallSound(s, id); CallStaysSound(s, s', id); }
    }
  }

  /** A step that stores nothing keeps every row and every other call sound. */
  lemma QuietRunSound(s: System, id: nat)
    requires Sound(s) && id in s.calls && Next(s, Run(id)).table == s.table
    requires CallSound(Next(s, Run(id)), id)
    requires s.calls[id].progress.Done? ==> Next(s, Run(id)).calls[id] == s.calls[id]
    ensures Sound(Next(s, Run(id)))
  {
    var s' := Next(s, Run(id));
    forall row | row in s'.table ensures RowSound(s', s'.table[row]) {
      assert RowSound(s, s.table[row]);
      RowStaysSound(s, s', s.table[row]);
    }
    forall other ensures CallSound(s', other) {
      if other != id && other in s.calls { assert CallSound(s, other); CallStaysSound(s, s', other); }
    }
  }

  lemma SelectSound(s: System, id: nat)
    requires Sound(s) && id in s.calls && !s.calls[id].progress.Planned?
    ensures CallSound(Next(s, Run(id)), id) && Next(s, Run(id)).table == s.table
    ensures s.calls[id].progress.Done? ==> Next(s, Run(id)).calls[id] == s.calls[id]
  {
    assert CallSound(s, id);
    var c := s.calls[id];
    if c.progress == Missed && c.claim.Some? {
      var found := FindOwn(s.table, Other(c.side), c.claim.value);
      if found.Some? { assert RowSound(s, s.table[found.value]); }
    }
  }

  lemma WriteGrows(s: System, id: nat, plan: Plan)
    requires Sound(s) && id in s.calls && s.calls[id].progress == Planned(plan)
    requires !Fails(s.table, id, s.calls[id], plan)
    ensures TableGrows(s.table, Next(s, Run(id)).table)
  {
    WriteSound(s, id, plan);
    TableGrowsItself(s);
  }

  lemma WriteRunSound(s: System, id: nat, plan: Plan)
    requires Sound(s) && id in s.calls && s.calls[id].progress == Planned(plan)
    requires !Fails(s.table, id, s.calls[id], plan)
    ensures Sound(Next(s, Run(id)))
  {
    WriterKeepsUnique(s, id, plan);
    WriterRowsSound(s, id, plan);
    WriterCallsSound(s, id, plan);
  }

  lemma WriterKeepsUnique(s: System, id: nat, plan: Plan)
    requires Sound(s) && id in s.calls && s.calls[id].progress == Planned(plan)
    requires !Fails(s.table, id, s.calls[id], plan)
    ensures Unique(Next(s, Run(id)).table)
    ensures forall row :: row in Next(s, Run(id)).table ==> row in s.calls && Next(s, Run(id)).calls[row].progress.Done?
  {
    WriteSound(s, id, plan);
    var w := Target(s.table, id, s.calls[id], plan).value;
    OneWriteKeepsUnique(s.table, w.0, w.1);
  }

  lemma WriterRowsSound(s: System, id: nat, plan: Plan)
    requires Sound(s) && id in s.calls && s.calls[id].progress == Planned(plan)
    requires !Fails(s.table, id, s.calls[id], plan)
    ensures var s' := Next(s, Run(id)); forall row :: row in s'.table ==> RowSound(s', s'.table[row])
  {
    var s' := Next(s, Run(id));
    WriteSound(s, id, plan);
    WriteGrows(s, id, plan);
    var w := Target(s.table, id, s.calls[id], plan).value;
    forall row | row in s'.table ensures RowSound(s', s'.table[row]) {
      if row != w.0 { assert RowSound(s, s.table[row]); }
      RowStaysSound(s, s', if row == w.0 then w.1 else s.table[row]);
    }
  }

  lemma WriterCallsSound(s: System, id: nat, plan: Plan)
    requires Sound(s) && id in s.calls && s.calls[id].progress == Planned(plan)
    requires !Fails(s.table, id, s.calls[id], plan)
    ensures forall other :: CallSound(Next(s, Run(id)), other)
  {
    var s' := Next(s, Run(id));
    WriteSound(s, id, plan);
    WriteGrows(s, id, plan);
    forall other ensures CallSound(s', other) {
      if other != id && other in s.calls { assert CallSound(s, other); CallStaysSound(s, s', other); }
    }
  }

  lemma RunSound(s: System, id: nat)
    requires Sound(s) && id in s.calls
    ensures Sound(Next(s, Run(id))) && TableGrows(s.table, Next(s, Run(id)).table)
  {
    var c := s.calls[id];
    TableGrowsItself(s);
    if c.progress.Planned? {
      var plan := c.progress.plan;
      if Fails(s.table, id, c, plan) {
        QuietRunSound(s, id);
      } else {
        WriteRunSound(s, id, plan);
        WriteGrows(s, id, plan);
      }
    } else {
      SelectSound(s, id);
      QuietRunSound(s, id);
    }
  }

  lemma SoundStep(s: System, step: Step)
    requires Sound(s)
    ensures Sound(Next(s, step)) && TableGrows(s.table, Next(s, step).table)
  {
    TableGrowsItself(s);
    match step
    case Start(id, _, _, _) => if id !in s.calls && id !in s.table { StartSound(s, step); }
    case Run(id) => if id in s.calls { RunSound(s, id); }
  }

  lemma {:induction false} AllSound(steps: seq<Step>)
    ensures Sound(Exec(EMPTY, steps))
  {
    if steps != [] {
      AllSound(steps[..|steps| - 1]);
      SoundStep(Exec(EMPTY, steps[..|steps| - 1]), steps[|steps| - 1]);
    }
  }

  /** A marriage needs both identities to have named each other, each in a discovery of its own. */
  lemma MarriedOnlyByMutualClaim(steps: seq<Step>, id: nat)
    requires id in Exec(EMPTY, steps).table && Exec(EMPTY, steps).table[id].typ == RemoteSeiran
    ensures var s := Exec(EMPTY, steps);
            var row := s.table[id];
            && row.apUri.Some? && row.atDid.Some?
            && (exists a :: a in s.calls && s.calls[a].side == Ap && s.calls[a].ident == row.apUri.value && s.calls[a].claim == row.atDid)
            && (exists b :: b in s.calls && s.calls[b].side == Atp && s.calls[b].ident == row.atDid.value && s.calls[b].claim == row.apUri)
  {
    AllSound(steps);
    var s := Exec(EMPTY, steps);
    assert RowSound(s, s.table[id]);
    assert Called(s, Ap, s.table[id].apUri.value, s.table[id].atDid);
    assert Called(s, Atp, s.table[id].atDid.value, s.table[id].apUri);
  }

  /** No later step of anybody changes a married row, and no row ever loses an identity or disappears. */
  lemma {:induction false} RowsOnlyGrow(steps: seq<Step>, more: seq<Step>)
    ensures TableGrows(Exec(EMPTY, steps).table, Exec(EMPTY, steps + more).table)
  {
    AllSound(steps);
    if more == [] {
      assert steps + more == steps;
      TableGrowsItself(Exec(EMPTY, steps));
    } else {
      var init, last := more[..|more| - 1], more[|more| - 1];
      assert (steps + more)[..|steps + more| - 1] == steps + init;
      RowsOnlyGrow(steps, init);
      AllSound(steps + init);
      SoundStep(Exec(EMPTY, steps + init), last);
      TableGrowsTransitively(Exec(EMPTY, steps).table, Exec(EMPTY, steps + init).table, Exec(EMPTY, steps + more).table);
    }
  }

  lemma TableGrowsTransitively(t: Table, t': Table, t'': Table)
    requires TableGrows(t, t') && TableGrows(t', t'')
    ensures TableGrows(t, t'')
  {
    forall id | id in t ensures id in t'' && RowGrows(t[id], t''[id]) {
      assert RowGrows(t'[id], t''[id]);
    }
  }
}
