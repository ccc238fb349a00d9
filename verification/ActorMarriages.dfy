/** What a discovery does and answers, told without its plan: in particular when it reports a marriage. */
module ActorMarriages {
  import opened Options
  import opened ActorTable
  import opened ActorMerge
  import opened ActorDiscovery
  import opened ActorRetries

  ghost predicate Known(t: Table, side: Side, ident: string) {
    exists row :: HasOwn(t, row, side, ident)
  }

  /** An unmarried row of the claimed counterpart that claims this identity in turn. */
  predicate Waits(t: Table, row: nat, side: Side, ident: string, claim: Option<string>) {
    row in t && t[row].typ != RemoteSeiran && claim.Some? && Own(t[row], Other(side)) == claim && Claimed(t[row], side) == Some(ident)
  }

  /**
   A discovery that succeeds: of a known identity it records the claim in its row, unless that is married or
   has a claim already; of an unknown one it marries the counterpart that waits for it, or else stores a new
   row. No other row changes, and it reports a marriage exactly if it made one.
   */
  lemma DiscoveryDoes(t: Table, id: nat, side: Side, ident: string, claim: Option<string>)
    requires Unique(t) && Shaped(t) && Attempt(t, id, side, ident, claim).1.Discovered?
    ensures var (t', r) := Attempt(t, id, side, ident, claim);
            var row := r.actorId;
            && row in t' && Own(t'[row], side) == Some(ident) && Shaped(t')
            && t'.Keys == t.Keys + {row} && (forall other :: other in t && other != row ==> t'[other] == t[other])
            && (Known(t, side, ident) ==>
                  && HasOwn(t, row, side, ident) && t'[row].typ == t[row].typ && Own(t'[row], Other(side)) == Own(t[row], Other(side))
                  && Claimed(t'[row], Other(side)) == if t[row].typ == RemoteSeiran || Claimed(t[row], Other(side)).Some? then Claimed(t[row], Other(side)) else claim)
            && (!Known(t, side, ident) && (exists w :: Waits(t, w, side, ident, claim)) ==>
                  && Waits(t, row, side, ident, claim) && t'[row].typ == RemoteSeiran
                  && Own(t'[row], side) == Some(ident) && Own(t'[row], Other(side)) == claim)
            && (!Known(t, side, ident) && !(exists w :: Waits(t, w, side, ident, claim)) ==>
                  && row == id && id !in t && t'[row].typ == (if side == Ap then Fedi else Bsky) && Claimed(t'[row], Other(side)) == claim)
            && (r.married <==> BecameMarried(t, t', row))
            && (r.married <==> !Known(t, side, ident) && exists w :: Waits(t, w, side, ident, claim))
  {
    if Known(t, side, ident) {
      var row :| HasOwn(t, row, side, ident);
      FindOwnIsUnique(t, side, ident, row);
    } else if w :| Waits(t, w, side, ident, claim) {
      FindOwnIsUnique(t, Other(side), claim.value, w);
    } else if claim.Some? {
      var found := FindOwn(t, Other(side), claim.value);
      assert found.Some? && Claimed(t[found.value], side) == Some(ident) ==> Waits(t, found.value, side, ident, claim);
    }
  }

  /* ------------------------------ reports over whole runs ------------------------------ */

  predicate Reports(c: Call, row: nat) {
    c.progress == Done(row, true)
  }

  ghost predicate Reported(s: System, row: nat) {
    exists id :: id in s.calls && Reports(s.calls[id], row)
  }

  /** The call that inserted the row, whose number it bears, and the side it was first discovered on. */
  ghost predicate RowBorn(s: System, row: nat) {
    row in s.table ==>
      && row in s.calls && s.calls[row].progress == Done(row, false)
      && Own(s.table[row], s.calls[row].side) == Some(s.calls[row].ident)
      && (s.table[row].typ != RemoteSeiran ==> SideOf(s.table[row].typ) == s.calls[row].side)
      && (s.table[row].typ == RemoteSeiran ==> Reported(s, row))
  }

  /** A call that plans or reports a marriage comes from the other side than the row it marries. */
  ghost predicate MarrierSound(s: System, id: nat) {
    id in s.calls ==>
      var c := s.calls[id];
      match c.progress
      case Planned(Marry(row)) => row in s.calls && c.side == Other(s.calls[row].side)
      case Done(row, true) =>
        && row in s.table && s.table[row].typ == RemoteSeiran && row in s.calls && c.side == Other(s.calls[row].side)
        && Own(s.table[row], c.side) == Some(c.ident) && Own(s.table[row], Other(c.side)) == c.claim
      case _ => true
  }

  ghost predicate ReportsSound(s: System) {
    && Sound(s)
    && (forall row {:trigger RowBorn(s, row)} :: RowBorn(s, row))
    && (forall id {:trigger MarrierSound(s, id)} :: MarrierSound(s, id))
  }

  lemma ReportedStays(s: System, s': System, row: nat)
    requires Reported(s, row) && forall id :: id in s.calls && s.calls[id].progress.Done? ==> id in s'.calls && s'.calls[id] == s.calls[id]
    ensures Reported(s', row)
  {
    var id :| id in s.calls && Reports(s.calls[id], row);
    assert id in s'.calls && Reports(s'.calls[id], row);
  }

  /** What a step leaves alone. */
  lemma DoneStays(s: System, step: Step)
    ensures var s' := Next(s, step);
            && (forall id :: id in s.calls && s.calls[id].progress.Done? ==> id in s'.calls && s'.calls[id] == s.calls[id])
            && (forall id :: id in s.calls ==> id in s'.calls && s'.calls[id].side == s.calls[id].side && s'.calls[id].ident == s.calls[id].ident && s'.calls[id].claim == s.calls[id].claim)
  {
  }

  lemma OtherRowsBorn(s: System, step: Step, row: nat)
    requires ReportsSound(s) && row in s.table && row in Next(s, step).table && Next(s, step).table[row] == s.table[row]
    ensures RowBorn(Next(s, step), row)
  {
    assert RowBorn(s, row);
    DoneStays(s, step);
    if s.table[row].typ == RemoteSeiran { ReportedStays(s, Next(s, step), row); }
  }

  lemma OtherMarriersSound(s: System, step: Step, id: nat)
    requires ReportsSound(s) && id in s.calls && Next(s, step).calls[id] == s.calls[id] && TableGrows(s.table, Next(s, step).table)
    ensures MarrierSound(Next(s, step), id)
  {
    assert MarrierSound(s, id);
    DoneStays(s, step);
    match s.calls[id].progress
    case Done(row, true) => assert RowGrows(s.table[row], Next(s, step).table[row]);
    case _ =>
  }

  /** A call that plans a marriage has found an unmarried row of the other side. */
  lemma SelectorSound(s: System, id: nat)
    requires ReportsSound(s) && id in s.calls && !s.calls[id].progress.Planned?
    ensures MarrierSound(Next(s, Run(id)), id)
  {
    var c := s.calls[id];
    assert MarrierSound(s, id);
    if c.progress == Missed && c.claim.Some? {
      var found := FindOwn(s.table, Other(c.side), c.claim.value);
      if found.Some? { assert RowBorn(s, found.value) && RowSound(s, s.table[found.value]); }
    }
  }

  /** The row a write stores was born, and its marriage is reported. */
  lemma WriterSound(s: System, id: nat, plan: Plan)
    requires ReportsSound(s) && id in s.calls && s.calls[id].progress == Planned(plan) && !Fails(s.table, id, s.calls[id], plan)
    ensures var s' := Next(s, Run(id)); var w := Target(s.table, id, s.calls[id], plan); MarrierSound(s', id) && w.Some? && RowBorn(s', w.value.0)
  {
    var c, s' := s.calls[id], Next(s, Run(id));
    WriteSound(s, id, plan);
    assert CallSound(s, id) && MarrierSound(s, id);
    DoneStays(s, Run(id));
    match plan
    case Insert =>
    case Update(row) =>
      assert RowBorn(s, row) && RowSound(s, s.table[row]);
      if s.table[row].typ == RemoteSeiran { ReportedStays(s, s', row); }
    case Marry(row) =>
      assert RowBorn(s, row) && RowSound(s, s.table[row]);
      assert Reports(s'.calls[id], row);
  }

  lemma ReportsStep(s: System, step: Step)
    requires ReportsSound(s)
    ensures ReportsSound(Next(s, step))
  {
    var s' := Next(s, step);
    SoundStep(s, step);
    forall row ensures RowBorn(s', row) {
      if row in s'.table {
        if row in s.table && s'.table[row] == s.table[row] { OtherRowsBorn(s, step, row); }
        else { WriterSound(s, step.id, s.calls[step.id].progress.plan); }
      }
    }
    forall id ensures MarrierSound(s', id) {
      if id in s'.calls {
        if id in s.calls && s'.calls[id] == s.calls[id] { OtherMarriersSound(s, step, id); }
        else if step.Run? { RunnerSound(s, id); }
      }
    }
  }

  lemma RunnerSound(s: System, id: nat)
    requires ReportsSound(s) && id in s.calls
    ensures MarrierSound(Next(s, Run(id)), id)
  {
    if s.calls[id].progress.Planned? {
      var plan := s.calls[id].progress.plan;
      if !Fails(s.table, id, s.calls[id], plan) { WriterSound(s, id, plan); }
    } else {
      SelectorSound(s, id);
    }
  }

  lemma {:induction false} AllReportsSound(steps: seq<Step>)
    ensures ReportsSound(Exec(EMPTY, steps))
  {
    if steps != [] {
      AllReportsSound(steps[..|steps| - 1]);
      ReportsStep(Exec(EMPTY, steps[..|steps| - 1]), steps[|steps| - 1]);
    }
  }

  /** The step marries the row. */
  ghost predicate MarriedBy(s: System, step: Step, row: nat) {
    BecameMarried(s.table, Next(s, step).table, row)
  }

  /**
   In every run a row is married if and only if some call has reported it, and all calls that report it have
   discovered the same identity with the same claim: the one that was added to the row.
   */
  lemma MarriedIsReportedExactly(steps: seq<Step>, row: nat)
    requires row in Exec(EMPTY, steps).table
    ensures var s := Exec(EMPTY, steps);
            && (s.table[row].typ == RemoteSeiran <==> Reported(s, row))
            && forall id :: id in s.calls && Reports(s.calls[id], row) ==>
                 && row in s.calls && s.calls[id].side == Other(s.calls[row].side)
                 && Own(s.table[row], s.calls[id].side) == Some(s.calls[id].ident)
                 && Own(s.table[row], s.calls[row].side) == s.calls[id].claim
  {
    AllReportsSound(steps);
    var s := Exec(EMPTY, steps);
    assert RowBorn(s, row);
    forall id | id in s.calls && Reports(s.calls[id], row)
      ensures s.table[row].typ == RemoteSeiran
    {
      assert MarrierSound(s, id);
    }
    forall id | id in s.calls && Reports(s.calls[id], row)
      ensures row in s.calls && s.calls[id].side == Other(s.calls[row].side) && Own(s.table[row], s.calls[id].side) == Some(s.calls[id].ident)
      ensures Own(s.table[row], s.calls[row].side) == s.calls[id].claim
    {
      assert MarrierSound(s, id);
    }
  }

  /** Every marriage is reported by the call that makes it, in the step that makes it. */
  lemma MakerReports(steps: seq<Step>, step: Step, row: nat)
    requires MarriedBy(Exec(EMPTY, steps), step, row)
    ensures var s' := Next(Exec(EMPTY, steps), step); step.Run? && step.id in s'.calls && Reports(s'.calls[step.id], row)
  {
    var s := Exec(EMPTY, steps);
    AllSound(steps);
    assert step.Run? && step.id in s.calls && s.calls[step.id].progress.Planned?;
    var plan := s.calls[step.id].progress.plan;
    WriteSound(s, step.id, plan);
    assert CallSound(s, step.id);
  }

  /**
   A report is that of the marriage itself exactly if the row was not married yet when the call wrote. The
   source answers `married` even if it was: when another discovery of the same identity has married the row
   between the SELECT and the UPDATE.
   */
  lemma ReportIsMarriageExactly(steps: seq<Step>, id: nat, row: nat)
    requires var s := Exec(EMPTY, steps); id in s.calls && !Reports(s.calls[id], row) && Reports(Next(s, Run(id)).calls[id], row)
    ensures var s := Exec(EMPTY, steps);
            && row in s.table && (MarriedBy(s, Run(id), row) <==> s.table[row].typ != RemoteSeiran)
            && (s.table[row].typ == RemoteSeiran <==> Reported(s, row))
  {
    var s := Exec(EMPTY, steps);
    AllReportsSound(steps);
    assert s.calls[id].progress == Planned(Marry(row));
    assert CallSound(s, id);
    WriteSound(s, id, Marry(row));
    MarriedIsReportedExactly(steps, row);
  }

  /** So a marriage can be reported twice: if two calls for the same identity have planned it, both report it. */
  lemma BothReport(s: System, a: nat, b: nat, row: nat)
    requires Sound(s) && a != b && a in s.calls && b in s.calls
    requires s.calls[a].progress == Planned(Marry(row)) && s.calls[b].progress == Planned(Marry(row))
    requires s.calls[a].side == s.calls[b].side && s.calls[a].ident == s.calls[b].ident
    requires !Fails(s.table, a, s.calls[a], Marry(row))
    ensures var s1 := Next(s, Run(a)); var s2 := Next(s1, Run(b));
            Reports(s2.calls[a], row) && Reports(s2.calls[b], row) && s2.table == s1.table
  {
    WriteSound(s, a, Marry(row));
    WriteRunSound(s, a, Marry(row));
    var s1 := Next(s, Run(a));
    assert MarriedRow(s1.table[row], s.calls[a].side, s.calls[a].ident) == s1.table[row];
    assert forall j :: j in s1.table && j != row ==> !Clash(s1.table[j], s1.table[row]);
    assert s1.table[row := s1.table[row]] == s1.table;
  }

  const TWICE: seq<Step> :=
    [Start(2, Atp, "d", Some("u")), Run(2), Run(2), Run(2)] +            // d is stored and waits for u
    [Start(1, Ap, "u", Some("d")), Run(1), Run(1)] +                     // two calls for u find it waiting
    [Start(3, Ap, "u", Some("d")), Run(3), Run(3)] +
    [Run(1), Run(3)]

  /** A schedule in which that happens. */
  lemma TwoReportsHappen()
    ensures var s := Exec(EMPTY, TWICE); 1 in s.calls && 3 in s.calls && Reports(s.calls[1], 2) && Reports(s.calls[3], 2)
  {
    var a, b, c, d := TWICE[..4], TWICE[4..7], TWICE[7..10], TWICE[10..];
    assert TWICE == ((a + b) + c) + d;
    ExecConcat(EMPTY, a, b);
    ExecConcat(EMPTY, a + b, c);
    ExecConcat(EMPTY, a + b + c, d);
    assert a == [Start(2, Atp, "d", Some("u")), Run(2), Run(2), Run(2)];
    var sa := DStored(EMPTY, a);
    var sb := PlansMarriage(sa, 1, b);
    var sc := PlansMarriage(sb, 3, c);
    AllSound(a + b + c);
    ExecTwo(sc, Run(1), Run(3));
    assert MarriedRow(WAITING, Ap, "u") == MARRIED;
    BothReport(sc, 1, 3, 2);
  }

  lemma PlansMarriage(s: System, id: nat, steps: seq<Step>) returns (s': System)
    requires s.table == map[2 := WAITING] && id !in s.calls && id != 2
    requires steps == [Start(id, Ap, "u", Some("d")), Run(id), Run(id)]
    ensures s' == Exec(s, steps) == s.(calls := s.calls[id := Call(Ap, "u", Some("d"), 1, Planned(Marry(2)))])
  {
    ExecThree(s, steps[0], steps[1], steps[2]);
    FindOwnIsUnique(s.table, Atp, "d", 2);
    s' := Exec(s, steps);
  }
}
