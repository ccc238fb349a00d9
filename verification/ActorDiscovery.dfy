/**
 The two discovery functions as the program writes them, against a table that nobody else touches
 while they run, and the retry loop around them.
 */
module ActorDiscovery {
  import opened Options
  import opened ActorTable
  import opened ActorMerge

  datatype Result = Discovered(actorId: nat, married: bool) | UniqueViolation

  /** One attempt without interference: the steps of `ActorMerge` taken back to back. */
  ghost function Attempt(t: Table, callId: nat, side: Side, ident: string, claim: Option<string>): (Table, Result) {
    var c := Call(side, ident, claim, 1, Begin);
    var first := SelectExisting(t, c);
    var plan := if first.Planned? then first.plan else SelectCounterpart(t, c.(progress := Missed)).plan;
    if Fails(t, callId, c, plan) then (t, UniqueViolation)
    else
      var done := Outcome(callId, plan);
      (Commit(t, callId, c, plan).0, Discovered(done.actorId, done.married))
  }

  /** The table after writes of other transactions. */
  ghost function Meanwhile(t: Table, writes: seq<(nat, Row)>): Table {
    if writes == [] then t
    else
      var before, w := Meanwhile(t, writes[..|writes| - 1]), writes[|writes| - 1];
      if Violates(before, w.0, w.1) then before else before[w.0 := w.1]
  }

  /** The table that attempt number `k` meets, if all before it were violations. */
  ghost function Before(t: Table, rounds: seq<seq<(nat, Row)>>, k: nat): Table
    requires k <= |rounds|
  {
    if k == 0 then t else Meanwhile(Before(t, rounds, k - 1), rounds[k - 1])
  }

  /** The first `n` attempts, each on the table it meets, violate a constraint. */
  ghost predicate AllViolate(t: Table, rounds: seq<seq<(nat, Row)>>, n: nat, id: nat, side: Side, ident: string, claim: Option<string>)
    requires n <= |rounds|
  {
    forall k: nat :: 1 <= k <= n ==> Attempt(Before(t, rounds, k), id, side, ident, claim).1 == UniqueViolation
  }

  lemma OneMoreViolates(t: Table, rounds: seq<seq<(nat, Row)>>, n: nat, id: nat, side: Side, ident: string, claim: Option<string>)
    requires 0 < n <= |rounds| && AllViolate(t, rounds, n - 1, id, side, ident, claim)
    requires Attempt(Before(t, rounds, n), id, side, ident, claim).1 == UniqueViolation
    ensures AllViolate(t, rounds, n, id, side, ident, claim)
  {
  }

  class ActorsTable {
    var rows: Table

    ghost predicate Valid()
      reads this
    {
      Unique(rows)
    }

    constructor ()
      ensures Valid() && rows == map[]
    {
      rows := map[];
    }

    /** `SELECT ... WHERE <own column> = ident`; the column is UNIQUE. */
    method Select(side: Side, ident: string) returns (id: Option<nat>)
      requires Valid()
      ensures id == FindOwn(rows, side, ident)
    {
      if found :| found in rows && HasOwn(rows, found, side, ident) {
        FindOwnIsUnique(rows, side, ident, found);
        id := Some(found);
      } else {
        id := None;
      }
    }

    /** An UPDATE or INSERT of one row, checked against the UNIQUE constraints. */
    method Store(id: nat, row: Row) returns (ok: bool)
      requires Valid()
      modifies this
      ensures Valid()
      ensures ok == !Violates(old(rows), id, row)
      ensures rows == if ok then old(rows)[id := row] else old(rows)
    {
      ok := !Violates(rows, id, row);
      if ok {
        OneWriteKeepsUnique(rows, id, row);
        rows := rows[id := row];
      }
    }

    /** `discover_fedi_actor_once`. */
    method DiscoverFediActorOnce(id: nat, apUri: string, claimedAtDid: Option<string>) returns (r: Result)
      requires Valid()
      modifies this
      ensures Valid()
      ensures (rows, r) == Attempt(old(rows), id, Ap, apUri, claimedAtDid)
      ensures r.Discovered? && Shaped(old(rows)) ==> (r.married <==> BecameMarried(old(rows), rows, r.actorId))
    {
      var existing := Select(Ap, apUri);
      var married := false;
      var actorId := id;
      var ok;
      if existing.Some? {
        actorId := existing.value;
        var row := rows[actorId];
        ok := Store(actorId, row.(claimedAtDid := if row.typ == RemoteSeiran then row.claimedAtDid
                                                  else Coalesce(row.claimedAtDid, claimedAtDid)));
      } else {
        var counterpart := None;
        if claimedAtDid.Some? {
          counterpart := Select(Atp, claimedAtDid.value);
        }
        if counterpart.Some? && rows[counterpart.value].claimedApUri == Some(apUri) {
          actorId := counterpart.value;
          married := true;
          ok := Store(actorId, rows[actorId].(apUri := Some(apUri), typ := RemoteSeiran, claimedApUri := None));
        } else if id in rows {
          ok := false;
        } else {
          ok := Store(id, Row(Fedi, Some(apUri), None, None, claimedAtDid));
        }
      }
      r := if ok then Discovered(actorId, married) else UniqueViolation;
    }

    /** `discover_bsky_actor_once`. */
    method DiscoverBskyActorOnce(id: nat, atDid: string, claimedApUri: Option<string>) returns (r: Result)
      requires Valid()
      modifies this
      ensures Valid()
      ensures (rows, r) == Attempt(old(rows), id, Atp, atDid, claimedApUri)
      ensures r.Discovered? && Shaped(old(rows)) ==> (r.married <==> BecameMarried(old(rows), rows, r.actorId))
    {
      var existing := Select(Atp, atDid);
      var married := false;
      var actorId := id;
      var ok;
      if existing.Some? {
        actorId := existing.value;
        var row := rows[actorId];
        ok := Store(actorId, row.(claimedApUri := if row.typ == RemoteSeiran then row.claimedApUri
                                                  else Coalesce(row.claimedApUri, claimedApUri)));
      } else {
        var counterpart := None;
        if claimedApUri.Some? {
          counterpart := Select(Ap, claimedApUri.value);
        }
        if counterpart.Some? && rows[counterpart.value].claimedAtDid == Some(atDid) {
          actorId := counterpart.value;
          married := true;
          ok := Store(actorId, rows[actorId].(atDid := Some(atDid), typ := RemoteSeiran, claimedAtDid := None));
        } else if id in rows {
          ok := false;
        } else {
          ok := Store(id, Row(Bsky, None, Some(atDid), claimedApUri, None));
        }
      }
      r := if ok then Discovered(actorId, married) else UniqueViolation;
    }

    method DiscoverOnce(side: Side, id: nat, ident: string, claim: Option<string>) returns (r: Result)
      requires Valid()
      modifies this
      ensures Valid() && (rows, r) == Attempt(old(rows), id, side, ident, claim)
      ensures r.UniqueViolation? ==> rows == old(rows)
    {
      match side {
        case Ap => r := DiscoverFediActorOnce(id, ident, claim);
        case Atp => r := DiscoverBskyActorOnce(id, ident, claim);
      }
    }

    /** Writes of other transactions, each of which goes through or violates a constraint. */
    method Others(writes: seq<(nat, Row)>)
      requires Valid()
      modifies this
      ensures Valid() && rows == Meanwhile(old(rows), writes)
    {
      var k := 0;
      while k < |writes|
        invariant k <= |writes| && Valid() && rows == Meanwhile(old(rows), writes[..k])
      {
        assert writes[..k + 1][..k] == writes[..k];
        var ok := Store(writes[k].0, writes[k].1);
        k := k + 1;
      }
      assert writes[..k] == writes;
    }

    /**
     `retry_on_unique_violation` around one of the two, with other transactions writing between the attempts:
     it answers with the first attempt that violates nothing, on the table as it is then, or with the fifth.
     */
    method DiscoverWithRetry(side: Side, id: nat, ident: string, claim: Option<string>, rounds: seq<seq<(nat, Row)>>)
      returns (r: Result, attempts: nat)
      requires Valid() && |rounds| == MAX_ATTEMPTS
      modifies this
      ensures Valid() && 1 <= attempts <= MAX_ATTEMPTS
      ensures (rows, r) == Attempt(Before(old(rows), rounds, attempts), id, side, ident, claim)
      ensures AllViolate(old(rows), rounds, attempts - 1, id, side, ident, claim)
      ensures r.UniqueViolation? ==> attempts == 5
    {
      r := UniqueViolation;
      attempts := 0;
      while attempts < MAX_ATTEMPTS
        invariant Valid() && attempts <= MAX_ATTEMPTS && r == UniqueViolation
        invariant rows == Before(old(rows), rounds, attempts)
        invariant AllViolate(old(rows), rounds, attempts, id, side, ident, claim)
      {
        Others(rounds[attempts]);
        attempts := attempts + 1;
        r := DiscoverOnce(side, id, ident, claim);
        if r.UniqueViolation? { OneMoreViolates(old(rows), rounds, attempts, id, side, ident, claim); }
        if r.Discovered? {
          return;
        }
      }
    }
  }

  /** The atomic attempt is the interleaved one with nobody in between. */
  lemma AttemptIsItsSteps(s: System, id: nat)
    requires id in s.calls && s.calls[id].progress == Begin
    ensures var c := s.calls[id];
            var (t, r) := Attempt(s.table, id, c.side, c.ident, c.claim);
            var s2 := Next(Next(s, Run(id)), Run(id));
            var s' := if SelectExisting(s.table, c).Planned? then s2 else Next(s2, Run(id));
            && s'.table == t
            && (r.Discovered? ==> s'.calls[id].progress == Done(r.actorId, r.married))
            && (r.UniqueViolation? ==> s'.calls[id].progress == if c.attempt < MAX_ATTEMPTS then Begin else GaveUp)
  {
  }

  /** A discovery that returns leaves a row with the identity; a violation leaves the table alone. */
  lemma DiscoveredIsStored(t: Table, id: nat, side: Side, ident: string, claim: Option<string>)
    requires Unique(t)
    ensures var (t', r) := Attempt(t, id, side, ident, claim);
            && (r.Discovered? ==> HasOwn(t', r.actorId, side, ident))
            && (r.UniqueViolation? ==> t' == t)
            && Unique(t')
  {
    var c := Call(side, ident, claim, 1, Begin);
    var first := SelectExisting(t, c);
    var plan := if first.Planned? then first.plan else SelectCounterpart(t, c.(progress := Missed)).plan;
    if !Fails(t, id, c, plan) {
      var w := Target(t, id, c, plan).value;
      OneWriteKeepsUnique(t, w.0, w.1);
    }
  }

  /** A second discovery finds that row, marries nobody and changes no identity of any row. */
  lemma RediscoveryKeepsIdentities(t: Table, id: nat, side: Side, ident: string, claim: Option<string>, id': nat, claim': Option<string>)
    requires Unique(t) && Attempt(t, id, side, ident, claim).1.Discovered?
    ensures var (t', r) := Attempt(t, id, side, ident, claim);
            var (t'', r') := Attempt(t', id', side, ident, claim');
            && (r'.Discovered? ==> r' == Discovered(r.actorId, false))
            && t''.Keys == t'.Keys
            && forall row :: row in t' ==> t''[row].typ == t'[row].typ && t''[row].apUri == t'[row].apUri && t''[row].atDid == t'[row].atDid
  {
    DiscoveredIsStored(t, id, side, ident, claim);
    var (t', r) := Attempt(t, id, side, ident, claim);
    FindOwnIsUnique(t', side, ident, r.actorId);
  }
}
