/**
 When a discovery has to start over: exactly which states make each write fail, and a schedule in
 which three attempts are needed.
 */
module ActorRetries {
  import opened Options
  import opened ActorTable
  import opened ActorMerge
  import opened ActorConfluence

  /** The state of the table in which a planned write violates a constraint. */
  ghost predicate Blocked(t: Table, c: Call, plan: Plan) {
    match plan
    case Insert =>
      // somebody stored this identity, or its counterpart arrived and waits for it
      (exists j :: HasOwn(t, j, c.side, c.ident)) || (exists j :: CounterpartWaits(t, c, j))
    case Marry(row) =>
      // somebody stored this identity in a row of its own
      exists j :: j != row && HasOwn(t, j, c.side, c.ident)
    case Update(row) =>
      // the row would now claim a counterpart that waits for it in a row of its own
      && row in t && t[row].typ != RemoteSeiran && Claimed(t[row], Other(c.side)).None?
      && (exists j :: j != row && CounterpartWaits(t, c, j))
  }

  lemma InsertFailsWhenBlocked(s: System, id: nat)
    requires Sound(s) && id in s.calls && s.calls[id].progress == Planned(Insert)
    ensures Fails(s.table, id, s.calls[id], Insert) <==> Blocked(s.table, s.calls[id], Insert)
  {
    var c, t := s.calls[id], s.table;
    var row := NewRow(c.side, c.ident, c.claim);
    assert id !in t;
    forall j | j in t
      ensures Clash(t[j], row) <==> HasOwn(t, j, c.side, c.ident) || CounterpartWaits(t, c, j)
    {
      assert RowSound(s, t[j]);
    }
  }

  lemma MarryFailsWhenBlocked(s: System, id: nat, row: nat)
    requires Sound(s) && id in s.calls && s.calls[id].progress == Planned(Marry(row))
    ensures Fails(s.table, id, s.calls[id], Marry(row)) <==> Blocked(s.table, s.calls[id], Marry(row))
  {
    var c, t := s.calls[id], s.table;
    assert CallSound(s, id) && RowSound(s, t[row]);
    forall j | j in t && j != row
      ensures Clash(t[j], MarriedRow(t[row], c.side, c.ident)) <==> HasOwn(t, j, c.side, c.ident)
    {
      assert !Clash(t[j], t[row]);
    }
  }

  lemma UpdateFailsWhenBlocked(s: System, id: nat, row: nat)
    requires Sound(s) && id in s.calls && s.calls[id].progress == Planned(Update(row))
    ensures Fails(s.table, id, s.calls[id], Update(row)) <==> Blocked(s.table, s.calls[id], Update(row))
  {
    var c, t := s.calls[id], s.table;
    assert CallSound(s, id) && RowSound(s, t[row]);
    forall j | j in t && j != row
      ensures Clash(t[j], UpdatedRow(t[row], c.side, c.claim)) <==>
              t[row].typ != RemoteSeiran && Claimed(t[row], Other(c.side)).None? && CounterpartWaits(t, c, j)
    {
      assert RowSound(s, t[j]);
      assert !Clash(t[j], t[row]);
    }
  }

  /**
   In every reachable state, whatever is claimed, a write fails exactly when its plan is blocked. An Update
   can be blocked from the start: if u was stored before it claimed d, and d waits for u in a row of its own.
   */
  lemma WriteFailsWhenBlocked(steps: seq<Step>, id: nat, plan: Plan)
    requires id in Exec(EMPTY, steps).calls && Exec(EMPTY, steps).calls[id].progress == Planned(plan)
    ensures var s := Exec(EMPTY, steps); Fails(s.table, id, s.calls[id], plan) <==> Blocked(s.table, s.calls[id], plan)
  {
    AllSound(steps);
    var s := Exec(EMPTY, steps);
    match plan
    case Insert => InsertFailsWhenBlocked(s, id);
    case Marry(row) => MarryFailsWhenBlocked(s, id, row);
    case Update(row) => UpdateFailsWhenBlocked(s, id, row);
  }

  /* The bound of three is reached: in the schedule below the counterpart of u appears after the first
     attempt's SELECTs, and is married by somebody else between the two SELECTs of the second attempt. */

  const UNLUCKY: seq<Step> :=
    [Start(1, Ap, "u", Some("d")), Run(1), Run(1)] +                     // call 1 plans an INSERT
    [Start(2, Atp, "d", Some("u")), Run(2), Run(2), Run(2)] +            // d is stored and waits for u
    [Run(1), Run(1)] +                                                  // violation; u is still unknown
    [Start(3, Ap, "u", Some("d")), Run(3), Run(3), Run(3)] +             // call 3 marries u to d
    [Run(1), Run(1)] +                                                  // d waits no longer: the INSERT fails
    [Run(1), Run(1)]                                                    // the third attempt finds the married row

  lemma {:induction false} ExecConcat(s: System, a: seq<Step>, b: seq<Step>)
    ensures Exec(s, a + b) == Exec(Exec(s, a), b)
  {
    if b == [] {
      assert a + b == a;
    } else {
      assert (a + b)[..|a + b| - 1] == a + b[..|b| - 1];
      ExecConcat(s, a, b[..|b| - 1]);
    }
  }

  lemma ExecThree(s: System, a: Step, b: Step, c: Step)
    ensures Exec(s, [a, b, c]) == Next(Next(Next(s, a), b), c)
  {
    assert [a, b, c][..2] == [a, b] && [a, b][..1] == [a] && [a][..0] == [];
    assert Exec(s, [a]) == Next(Exec(s, []), a);
  }

  lemma ExecTwo(s: System, a: Step, b: Step)
    ensures Exec(s, [a, b]) == Next(Next(s, a), b)
  {
    assert [a, b][..1] == [a] && [a][..0] == [];
    assert Exec(s, [a]) == Next(Exec(s, []), a);
  }

  /** A first discovery of an identity whose counterpart does not wait for it plans an INSERT. */
  lemma PlansInsert(s: System, id: nat, side: Side, ident: string, claim: string)
    requires id !in s.calls && id !in s.table
    requires forall row :: !HasOwn(s.table, row, side, ident)
    requires forall row :: !HasOwn(s.table, row, Other(side), claim)
    ensures Exec(s, [Start(id, side, ident, Some(claim)), Run(id), Run(id)])
         == s.(calls := s.calls[id := Call(side, ident, Some(claim), 1, Planned(Insert))])
  {
    ExecThree(s, Start(id, side, ident, Some(claim)), Run(id), Run(id));
  }

  /** A call that succeeds with its third attempt and no earlier. */
  lemma ThreeAttemptsHappen()
    ensures 1 in Exec(EMPTY, UNLUCKY).calls
    ensures Exec(EMPTY, UNLUCKY).calls[1] == Call(Ap, "u", Some("d"), 3, Done(2, false))
  {
    var a, b, c, d, e, f := UNLUCKY[..3], UNLUCKY[3..7], UNLUCKY[7..9], UNLUCKY[9..13], UNLUCKY[13..15], UNLUCKY[15..];
    assert UNLUCKY == ((((a + b) + c) + d) + e) + f;
    ExecConcat(EMPTY, a + b + c + d + e, f);
    ExecConcat(EMPTY, a, b);
    ExecConcat(EMPTY, a + b, c);
    ExecConcat(EMPTY, a + b + c, d);
    ExecConcat(EMPTY, a + b + c + d, e);
    assert a == [Start(1, Ap, "u", Some("d")), Run(1), Run(1)];
    PlansInsert(EMPTY, 1, Ap, "u", "d");
    var call := Call(Ap, "u", Some("d"), 1, Planned(Insert));
    var sa := System(map[], map[1 := call]);
    assert Exec(EMPTY, a).calls == sa.calls;
    var sb := DStored(sa, b);
    var sc := FirstViolation(sb, c);
    var sd := UMarried(sc, d);
    var se := SecondViolation(sd, e);
    ThirdSucceeds(se, f);
  }

  const WAITING := NewRow(Atp, "d", Some("u"))
  const MARRIED := Row(RemoteSeiran, Some("u"), Some("d"), None, None)

  lemma DStored(s: System, b: seq<Step>) returns (s': System)
    requires s.table == map[] && 2 !in s.calls
    requires b == [Start(2, Atp, "d", Some("u")), Run(2), Run(2), Run(2)]
    ensures s' == Exec(s, b) && s'.table == map[2 := WAITING] && s'.calls.Keys == s.calls.Keys + {2}
    ensures forall id :: id in s.calls ==> s'.calls[id] == s.calls[id]
  {
    assert b == b[..3] + b[3..] && b[..3] == [Start(2, Atp, "d", Some("u")), Run(2), Run(2)];
    ExecConcat(s, b[..3], b[3..]);
    PlansInsert(s, 2, Atp, "d", "u");
    var planned := Exec(s, b[..3]);
    assert b[3..] == [Run(2)] && [Run(2)][..0] == [];
    s' := Next(planned, Run(2));
    assert !Fails(planned.table, 2, planned.calls[2], Insert);
    assert Exec(planned, [Run(2)]) == Next(Exec(planned, []), Run(2));
  }

  lemma FirstViolation(s: System, c: seq<Step>) returns (s': System)
    requires s.table == map[2 := WAITING] && 3 !in s.calls && 1 in s.calls
    requires s.calls[1] == Call(Ap, "u", Some("d"), 1, Planned(Insert)) && c == [Run(1), Run(1)]
    ensures s' == Exec(s, c) && s' == s.(calls := s.calls[1 := Call(Ap, "u", Some("d"), 2, Missed)])
  {
    ExecTwo(s, Run(1), Run(1));
    assert Clash(s.table[2], NewRow(Ap, "u", Some("d")));
    s' := Next(Next(s, Run(1)), Run(1));
  }

  lemma UMarried(s: System, d: seq<Step>) returns (s': System)
    requires s.table == map[2 := WAITING] && 3 !in s.calls
    requires d == [Start(3, Ap, "u", Some("d")), Run(3), Run(3), Run(3)]
    ensures s' == Exec(s, d) && s'.table == map[2 := MARRIED]
    ensures forall id :: id in s.calls ==> id in s'.calls && s'.calls[id] == s.calls[id]
  {
    assert d == d[..2] + d[2..] && d[..2] == [Start(3, Ap, "u", Some("d")), Run(3)] && d[2..] == [Run(3), Run(3)];
    ExecConcat(s, d[..2], d[2..]);
    ExecTwo(s, Start(3, Ap, "u", Some("d")), Run(3));
    var missed := s.(calls := s.calls[3 := Call(Ap, "u", Some("d"), 1, Missed)]);
    assert Next(Next(s, Start(3, Ap, "u", Some("d"))), Run(3)).calls == missed.calls;
    ExecTwo(missed, Run(3), Run(3));
    s' := MarriesWaiting(missed);
  }

  lemma MarriesWaiting(s: System) returns (s': System)
    requires s.table == map[2 := WAITING] && 3 in s.calls && s.calls[3] == Call(Ap, "u", Some("d"), 1, Missed)
    ensures s' == Next(Next(s, Run(3)), Run(3)) && s'.table == map[2 := MARRIED]
    ensures forall id :: id in s.calls && id != 3 ==> id in s'.calls && s'.calls[id] == s.calls[id]
  {
    FindOwnIsUnique(s.table, Atp, "d", 2);
    var planned := Next(s, Run(3));
    assert planned.calls[3].progress == Planned(Marry(2));
    assert MarriedRow(WAITING, Ap, "u") == MARRIED;
    assert !Fails(planned.table, 3, planned.calls[3], Marry(2));
    s' := Next(planned, Run(3));
  }

  lemma SecondViolation(s: System, e: seq<Step>) returns (s': System)
    requires s.table == map[2 := MARRIED] && 1 in s.calls
    requires s.calls[1] == Call(Ap, "u", Some("d"), 2, Missed) && e == [Run(1), Run(1)]
    ensures s' == Exec(s, e) && s'.table == s.table
    ensures 1 in s'.calls && s'.calls[1] == Call(Ap, "u", Some("d"), 3, Begin)
  {
    ExecTwo(s, Run(1), Run(1));
    FindOwnIsUnique(s.table, Atp, "d", 2);
    assert Clash(s.table[2], NewRow(Ap, "u", Some("d")));
    s' := Exec(s, e);
  }

  lemma ThirdSucceeds(s: System, f: seq<Step>)
    requires s.table == map[2 := MARRIED] && 1 in s.calls
    requires s.calls[1] == Call(Ap, "u", Some("d"), 3, Begin) && f == [Run(1), Run(1)]
    ensures 1 in Exec(s, f).calls && Exec(s, f).calls[1] == Call(Ap, "u", Some("d"), 3, Done(2, false))
  {
    ExecTwo(s, Run(1), Run(1));
    FindOwnIsUnique(s.table, Ap, "u", 2);
    var planned := Next(s, Run(1));
    assert planned.calls[1].progress == Planned(Update(2));
    assert UpdatedRow(MARRIED, Ap, Some("d")) == MARRIED;
    assert !Fails(planned.table, 1, planned.calls[1], Update(2));
  }

  /* ------------------------------- conflicts that last ------------------------------- */

  /** The steps of one call left alone. */
  function Alone(id: nat, n: nat): seq<Step> {
    if n == 0 then [] else [Run(id), Run(id)] + Alone(id, n - 1)
  }

  /**
   A rediscovery whose update is blocked fails with every attempt it has left and gives up, if nobody else
   changes the table meanwhile; the table stays as it is, so the next rediscovery fares no better.
   */
  lemma {:induction false} BlockedRediscoveryGivesUp(s: System, id: nat, row: nat)
    requires Sound(s) && id in s.calls && s.calls[id].progress == Begin && s.calls[id].attempt <= MAX_ATTEMPTS
    requires var c := s.calls[id]; FindOwn(s.table, c.side, c.ident) == Some(row) && Blocked(s.table, c, Update(row))
    ensures var c := s.calls[id];
            var end := Exec(s, Alone(id, MAX_ATTEMPTS + 1 - c.attempt));
            end.table == s.table && id in end.calls && end.calls[id] == c.(attempt := MAX_ATTEMPTS, progress := GaveUp)
    decreases MAX_ATTEMPTS + 1 - s.calls[id].attempt
  {
    var c := s.calls[id];
    var left := MAX_ATTEMPTS + 1 - c.attempt;
    var s' := BlockedAttempt(s, id, row);
    AloneOneMore(s, id, left - 1);
    if left > 1 {
      BlockedStays(s.table, c, c.(attempt := c.attempt + 1), row);
      BlockedRediscoveryGivesUp(s', id, row);
    }
  }

  lemma AloneOneMore(s: System, id: nat, n: nat)
    ensures Exec(s, Alone(id, n + 1)) == Exec(Next(Next(s, Run(id)), Run(id)), Alone(id, n))
  {
    ExecTwo(s, Run(id), Run(id));
    ExecConcat(s, [Run(id), Run(id)], Alone(id, n));
  }

  lemma BlockedStays(t: Table, c: Call, c': Call, row: nat)
    requires Blocked(t, c, Update(row)) && c'.side == c.side && c'.ident == c.ident && c'.claim == c.claim
    ensures Blocked(t, c', Update(row))
  {
    var j :| j != row && CounterpartWaits(t, c, j);
    assert CounterpartWaits(t, c', j);
  }

  lemma BlockedAttempt(s: System, id: nat, row: nat) returns (s': System)
    requires Sound(s) && id in s.calls && s.calls[id].progress == Begin
    requires var c := s.calls[id]; FindOwn(s.table, c.side, c.ident) == Some(row) && Blocked(s.table, c, Update(row))
    ensures s' == Next(Next(s, Run(id)), Run(id)) && Sound(s')
    ensures s'.table == s.table && id in s'.calls
    ensures var c := s.calls[id]; s'.calls[id] == if c.attempt < MAX_ATTEMPTS then c.(attempt := c.attempt + 1) else c.(progress := GaveUp)
  {
    var planned := Next(s, Run(id));
    RunSound(s, id);
    assert planned.calls[id] == s.calls[id].(progress := Planned(Update(row)));
    BlockedStays(s.table, s.calls[id], planned.calls[id], row);
    UpdateFailsWhenBlocked(planned, id, row);
    RunSound(planned, id);
    s' := Next(planned, Run(id));
  }

  /** Identities once stored in different rows never share a row, whatever is discovered and claimed later. */
  lemma ApartForGood(steps: seq<Step>, more: seq<Step>, uri: string, did: string, i: nat, j: nat)
    requires i != j && HasOwn(Exec(EMPTY, steps).table, i, Ap, uri) && HasOwn(Exec(EMPTY, steps).table, j, Atp, did)
    ensures var t := Exec(EMPTY, steps + more).table;
            && HasOwn(t, i, Ap, uri) && HasOwn(t, j, Atp, did)
            && forall row :: !(HasOwn(t, row, Ap, uri) && HasOwn(t, row, Atp, did))
  {
    RowsOnlyGrow(steps, more);
    AllSound(steps + more);
    var t := Exec(EMPTY, steps + more).table;
    FindOwnIsUnique(t, Ap, uri, i);
    FindOwnIsUnique(t, Atp, did, j);
    forall row | HasOwn(t, row, Ap, uri)
      ensures row == i
    {
      FindOwnIsUnique(t, Ap, uri, row);
    }
    forall row | HasOwn(t, row, Atp, did)
      ensures row == j
    {
      FindOwnIsUnique(t, Atp, did, row);
    }
  }
}
