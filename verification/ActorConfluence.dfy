/**
 What concurrent discovery amounts to when nobody changes a self-declaration: no call fails, three
 attempts are enough, and the final table depends only on who was discovered.
 */
module ActorConfluence {
  import opened Options
  import opened ActorTable
  import opened ActorMerge

  /** What each identity declares as its counterpart, once and for all. */
  type Claims = (Side, string) -> Option<string>

  ghost predicate Follows(claims: Claims, steps: seq<Step>) {
    forall k :: 0 <= k < |steps| && steps[k].Start? ==> steps[k].claim == claims(steps[k].side, steps[k].ident)
  }

  ghost predicate RowFaithful(claims: Claims, row: Row) {
    row.typ != RemoteSeiran ==>
      var side := SideOf(row.typ);
      Own(row, side).Some? && Claimed(row, Other(side)) == claims(side, Own(row, side).value)
  }

  ghost predicate CounterpartWaits(t: Table, c: Call, id: nat) {
    id in t && c.claim.Some? && Own(t[id], Other(c.side)) == c.claim && Claimed(t[id], c.side) == Some(c.ident)
  }

  /** How far the table has come for the identity of a call: unknown, its counterpart waits for it, known. */
  ghost function Stage(t: Table, c: Call): nat {
    if exists id :: HasOwn(t, id, c.side, c.ident) then 2
    else if exists id :: CounterpartWaits(t, c, id) then 1
    else 0
  }

  /** An attempt fails only after the table moved on, so the attempt number is bounded by the stage. */
  ghost predicate CallOnTime(t: Table, c: Call) {
    match c.progress
    case Begin => c.attempt <= Stage(t, c) + 1
    case Missed => c.attempt <= 2 && c.attempt <= Stage(t, c) + 1
    case Planned(Insert) => c.attempt <= 2 && (c.attempt == 2 ==> Stage(t, c) == 2)
    case Planned(_) => c.attempt <= 3
    case Done(_, _) => c.attempt <= 3
    case GaveUp => false
  }

  ghost predicate CallFaithful(claims: Claims, s: System, id: nat) {
    id in s.calls ==>
      && s.calls[id].claim == claims(s.calls[id].side, s.calls[id].ident)
      && 1 <= s.calls[id].attempt
      && CallOnTime(s.table, s.calls[id])
  }

  ghost predicate Faithful(claims: Claims, s: System) {
    && Sound(s)
    && (forall id {:trigger s.table[id]} :: id in s.table ==> RowFaithful(claims, s.table[id]))
    && (forall id {:trigger CallFaithful(claims, s, id)} :: CallFaithful(claims, s, id))
  }

  lemma StageGrows(t: Table, t': Table, c: Call)
    requires TableGrows(t, t')
    ensures Stage(t, c) <= Stage(t', c)
  {
    if id :| HasOwn(t, id, c.side, c.ident) {
      assert HasOwn(t', id, c.side, c.ident);
    } else if id :| CounterpartWaits(t, c, id) {
      assert RowGrows(t[id], t'[id]);
      assert HasOwn(t', id, c.side, c.ident) || CounterpartWaits(t', c, id);
    }
  }

  /** A marriage never collides: no other row can hold the identity being added. */
  lemma MarriageCommits(claims: Claims, s: System, id: nat, row: nat)
    requires Faithful(claims, s) && id in s.calls && s.calls[id].progress == Planned(Marry(row))
    ensures !Fails(s.table, id, s.calls[id], Marry(row))
  {
    var c, t := s.calls[id], s.table;
    assert CallSound(s, id) && CallFaithful(claims, s, id);
    var married := MarriedRow(t[row], c.side, c.ident);
    assert RowSound(s, t[row]);
    forall j | j in t && j != row ensures !Clash(t[j], married) {
      assert !Clash(t[j], t[row]);
      assert RowSound(s, t[j]) && RowFaithful(claims, t[j]);
      if Own(t[j], c.side) == Some(c.ident) && t[j].typ == RemoteSeiran {
        RemoteClaims(claims, s, j, c.side);
      }
    }
  }

  /** The two identities of a married row claim each other. */
  lemma RemoteClaims(claims: Claims, s: System, id: nat, side: Side)
    requires Faithful(claims, s) && id in s.table && s.table[id].typ == RemoteSeiran
    ensures Own(s.table[id], side).Some? && Own(s.table[id], Other(side)).Some?
    ensures claims(side, Own(s.table[id], side).value) == Own(s.table[id], Other(side))
    ensures claims(Other(side), Own(s.table[id], Other(side)).value) == Own(s.table[id], side)
  {
    var row := s.table[id];
    assert RowSound(s, row);
    var a :| a in s.calls && s.calls[a].side == Ap && s.calls[a].ident == row.apUri.value && s.calls[a].claim == row.atDid;
    var b :| b in s.calls && s.calls[b].side == Atp && s.calls[b].ident == row.atDid.value && s.calls[b].claim == row.apUri;
    assert CallFaithful(claims, s, a) && CallFaithful(claims, s, b);
  }

  /** Discovering a known identity again writes back the row it read. */
  lemma UpdateCommits(claims: Claims, s: System, id: nat, row: nat)
    requires Faithful(claims, s) && id in s.calls && s.calls[id].progress == Planned(Update(row))
    ensures !Fails(s.table, id, s.calls[id], Update(row))
    ensures row in s.table && UpdatedRow(s.table[row], s.calls[id].side, s.calls[id].claim) == s.table[row]
  {
    var c, t := s.calls[id], s.table;
    assert CallSound(s, id) && CallFaithful(claims, s, id);
    assert RowSound(s, t[row]) && RowFaithful(claims, t[row]);
    forall j | j in t && j != row ensures !Clash(t[j], t[row]) {
    }
  }

  /** An INSERT collides only with a row of the same identity or with a waiting counterpart. */
  lemma InsertFailsLate(claims: Claims, s: System, id: nat)
    requires Faithful(claims, s) && id in s.calls && s.calls[id].progress == Planned(Insert)
    requires Fails(s.table, id, s.calls[id], Insert)
    ensures Stage(s.table, s.calls[id]) >= 1
  {
    var c, t := s.calls[id], s.table;
    assert id !in t;
    var j :| j in t && j != id && Clash(t[j], NewRow(c.side, c.ident, c.claim));
    assert RowSound(s, t[j]);
    assert HasOwn(t, j, c.side, c.ident) || CounterpartWaits(t, c, j);
  }

  lemma OtherCallsStayFaithful(claims: Claims, s: System, s': System, id: nat)
    requires CallFaithful(claims, s, id) && TableGrows(s.table, s'.table)
    requires id in s.calls && id in s'.calls && s'.calls[id] == s.calls[id]
    ensures CallFaithful(claims, s', id)
  {
    StageGrows(s.table, s'.table, s.calls[id]);
  }

  /** The call that moved is still on time. */
  lemma MoverOnTime(claims: Claims, s: System, id: nat)
    requires Faithful(claims, s) && id in s.calls
    ensures CallFaithful(claims, Next(s, Run(id)), id)
  {
    var c, t := s.calls[id], s.table;
    assert CallFaithful(claims, s, id);
    StageIgnoresProgress(t, c, Next(s, Run(id)).calls[id]);
    match c.progress
    case Begin =>
    case Missed => CounterpartOnTime(claims, s, id);
    case Planned(Update(row)) => UpdateCommits(claims, s, id, row);
    case Planned(Marry(row)) => MarriageCommits(claims, s, id, row);
    case Planned(Insert) =>
      if Fails(t, id, c, Insert) {
        InsertFailsLate(claims, s, id);
      }
    case _ =>
  }

  lemma StageIgnoresProgress(t: Table, c: Call, c': Call)
    requires c.side == c'.side && c.ident == c'.ident && c.claim == c'.claim
    ensures Stage(t, c) == Stage(t, c')
  {
    assert forall id :: CounterpartWaits(t, c, id) <==> CounterpartWaits(t, c', id);
  }

  /** Looking for the counterpart finds it whenever it waits, so an INSERT is planned only before or after that. */
  lemma CounterpartOnTime(claims: Claims, s: System, id: nat)
    requires Faithful(claims, s) && id in s.calls && s.calls[id].progress == Missed
    ensures CallOnTime(s.table, Next(s, Run(id)).calls[id])
  {
    var c, t := s.calls[id], s.table;
    var c' := Next(s, Run(id)).calls[id];
    assert CallFaithful(claims, s, id);
    StageIgnoresProgress(t, c, c');
    if row :| CounterpartWaits(t, c, row) {
      FindOwnIsUnique(t, Other(c.side), c.claim.value, row);
    }
  }

  lemma NewRowFaithful(claims: Claims, s: System, id: nat, plan: Plan)
    requires Faithful(claims, s) && id in s.calls && s.calls[id].progress == Planned(plan)
    ensures var w := Target(s.table, id, s.calls[id], plan); w.Some? ==> RowFaithful(claims, w.value.1)
  {
    assert CallFaithful(claims, s, id);
    match plan
    case Update(row) => UpdateCommits(claims, s, id, row);
    case _ =>
  }

  lemma FaithfulStep(claims: Claims, s: System, step: Step)
    requires Faithful(claims, s)
    requires step.Start? ==> step.claim == claims(step.side, step.ident)
    ensures Faithful(claims, Next(s, step))
  {
    var s' := Next(s, step);
    SoundStep(s, step);
    if step.Run? && step.id in s.calls {
      MoverOnTime(claims, s, step.id);
      if s.calls[step.id].progress.Planned? {
        NewRowFaithful(claims, s, step.id, s.calls[step.id].progress.plan);
      }
    }
    forall id ensures CallFaithful(claims, s', id) {
      assert CallFaithful(claims, s, id);
      if id in s.calls && s'.calls[id] == s.calls[id] { OtherCallsStayFaithful(claims, s, s', id); }
    }
  }

  lemma {:induction false} AllFaithful(claims: Claims, steps: seq<Step>)
    requires Follows(claims, steps)
    ensures Faithful(claims, Exec(EMPTY, steps))
  {
    if steps != [] {
      var init := steps[..|steps| - 1];
      AllFaithful(claims, init);
      FaithfulStep(claims, Exec(EMPTY, init), steps[|steps| - 1]);
    }
  }

  /* ----------------------------------- the final table ----------------------------------- */

  /** Somebody set out to discover this identity. */
  ghost predicate Discovered(s: System, side: Side, ident: string) {
    exists id :: id in s.calls && s.calls[id].side == side && s.calls[id].ident == ident
  }

  ghost predicate Quiet(s: System) {
    forall id :: id in s.calls ==> s.calls[id].progress.Done? || s.calls[id].progress.GaveUp?
  }

  ghost predicate Mutual(claims: Claims, uri: string, did: string) {
    claims(Ap, uri) == Some(did) && claims(Atp, did) == Some(uri)
  }

  /** The rows that should exist, written without reference to any order of events. */
  ghost predicate Expected(claims: Claims, s: System, row: Row) {
    match row
    case Row(RemoteSeiran, Some(uri), Some(did), None, None) =>
      Discovered(s, Ap, uri) && Discovered(s, Atp, did) && Mutual(claims, uri, did)
    case Row(Fedi, Some(uri), None, None, claim) =>
      && Discovered(s, Ap, uri) && claim == claims(Ap, uri)
      && !(claim.Some? && Discovered(s, Atp, claim.value) && Mutual(claims, uri, claim.value))
    case Row(Bsky, None, Some(did), claim, None) =>
      && Discovered(s, Atp, did) && claim == claims(Atp, did)
      && !(claim.Some? && Discovered(s, Ap, claim.value) && Mutual(claims, claim.value, did))
    case _ => false
  }

  ghost predicate Stored(t: Table, row: Row) {
    exists id :: id in t && t[id] == row
  }

  lemma NoCallGivesUp(claims: Claims, steps: seq<Step>, id: nat)
    requires Follows(claims, steps) && id in Exec(EMPTY, steps).calls
    ensures !Exec(EMPTY, steps).calls[id].progress.GaveUp? && Exec(EMPTY, steps).calls[id].attempt <= 3
  {
    AllFaithful(claims, steps);
    var s := Exec(EMPTY, steps);
    assert CallFaithful(claims, s, id);
  }

  lemma EveryIdentityHasItsRow(claims: Claims, s: System, side: Side, ident: string) returns (id: nat)
    requires Faithful(claims, s) && Quiet(s) && Discovered(s, side, ident)
    ensures HasOwn(s.table, id, side, ident)
  {
    var call :| call in s.calls && s.calls[call].side == side && s.calls[call].ident == ident;
    assert CallFaithful(claims, s, call) && CallSound(s, call);
    id := s.calls[call].progress.actorId;
  }

  lemma StoredIsExpected(claims: Claims, s: System, id: nat)
    requires Faithful(claims, s) && Quiet(s) && id in s.table
    ensures Expected(claims, s, s.table[id])
  {
    var row := s.table[id];
    assert RowSound(s, row) && RowFaithful(claims, row);
    if row.typ == RemoteSeiran {
      RemoteClaims(claims, s, id, Ap);
      assert Discovered(s, Ap, row.apUri.value) && Discovered(s, Atp, row.atDid.value);
    } else {
      var side := SideOf(row.typ);
      var ident, claim := Own(row, side).value, Claimed(row, Other(side));
      assert Discovered(s, side, ident);
      if claim.Some? && Discovered(s, Other(side), claim.value) && claims(Other(side), claim.value) == Some(ident) {
        var twin := EveryIdentityHasItsRow(claims, s, Other(side), claim.value);
        assert RowSound(s, s.table[twin]) && RowFaithful(claims, s.table[twin]);
        if s.table[twin].typ == RemoteSeiran { RemoteClaims(claims, s, twin, Other(side)); }
        assert Clash(s.table[twin], row);
        assert false;
      }
    }
  }

  lemma ExpectedIsStored(claims: Claims, s: System, row: Row)
    requires Faithful(claims, s) && Quiet(s) && Expected(claims, s, row)
    ensures Stored(s.table, row)
  {
    var side := SideOf(row.typ);
    var id := EveryIdentityHasItsRow(claims, s, side, Own(row, side).value);
    StoredIsExpected(claims, s, id);
    var found := s.table[id];
    if row.typ == RemoteSeiran && found.typ != RemoteSeiran {
      assert false;
    }
    if found.typ == RemoteSeiran { RemoteClaims(claims, s, id, side); }
    assert found == row;
  }

  /**
   Confluence: once every call has returned, the rows are exactly the expected ones, each once. Two
   schedules that discover the same identities, in any order and number, end with the same rows.
   */
  lemma FinalTable(claims: Claims, steps: seq<Step>)
    requires Follows(claims, steps) && Quiet(Exec(EMPTY, steps))
    ensures var s := Exec(EMPTY, steps);
            && (forall row :: Stored(s.table, row) <==> Expected(claims, s, row))
            && (forall i, j :: i in s.table && j in s.table && i != j ==> s.table[i] != s.table[j])
  {
    AllFaithful(claims, steps);
    var s := Exec(EMPTY, steps);
    forall row ensures Stored(s.table, row) <==> Expected(claims, s, row) {
      if id :| id in s.table && s.table[id] == row { StoredIsExpected(claims, s, id); }
      if Expected(claims, s, row) { ExpectedIsStored(claims, s, row); }
    }
    forall i, j | i in s.table && j in s.table && i != j ensures s.table[i] != s.table[j] {
      assert RowSound(s, s.table[i]);
      assert !Clash(s.table[i], s.table[j]);
    }
  }

  lemma OrderDoesNotMatter(claims: Claims, steps: seq<Step>, steps': seq<Step>)
    requires Follows(claims, steps) && Quiet(Exec(EMPTY, steps))
    requires Follows(claims, steps') && Quiet(Exec(EMPTY, steps'))
    requires forall side, ident ::
               Discovered(Exec(EMPTY, steps), side, ident) <==> Discovered(Exec(EMPTY, steps'), side, ident)
    ensures forall row :: Stored(Exec(EMPTY, steps).table, row) <==> Stored(Exec(EMPTY, steps').table, row)
  {
    FinalTable(claims, steps);
    FinalTable(claims, steps');
    var s, s' := Exec(EMPTY, steps), Exec(EMPTY, steps');
    forall row ensures Expected(claims, s, row) <==> Expected(claims, s', row) {
    }
  }

  /* ------------------------------- retries and termination ------------------------------- */

  /** Steps a call can still take: three attempts of three steps. */
  function Work(c: Call): int {
    match c.progress
    case Begin => 9 - 3 * (c.attempt - 1)
    case Missed => 8 - 3 * (c.attempt - 1)
    case Planned(_) => 7 - 3 * (c.attempt - 1)
    case _ => 0
  }

  /** Every step of an unfinished call brings it closer to its end, and nobody can push it back. */
  lemma EveryStepMakesProgress(claims: Claims, steps: seq<Step>, id: nat)
    requires Follows(claims, steps) && id in Exec(EMPTY, steps).calls
    ensures var s := Exec(EMPTY, steps);
            var c := s.calls[id];
            && 0 <= Work(c) <= 9
            && (Work(c) == 0 <==> c.progress.Done?)
            && (Work(c) > 0 ==> Work(Next(s, Run(id)).calls[id]) < Work(c))
            && (forall step :: step != Run(id) ==> Next(s, step).calls[id] == c)
  {
    AllFaithful(claims, steps);
    var s := Exec(EMPTY, steps);
    assert CallFaithful(claims, s, id);
    MoverOnTime(claims, s, id);
  }
}
