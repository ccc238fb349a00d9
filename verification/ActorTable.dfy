/**
 The identity columns of the `actors` table, its UNIQUE constraints, and the SQL statements that
 discovering an actor over ActivityPub (AP) or the AT Protocol (ATP) runs against it.

 The two discovery functions of the program are mirror images: what one does to the `ap_uri`
 columns the other does to the `at_did` columns. `Side` names the protocol a discovery came in on.
 */
module ActorTable {
  import opened Options

  datatype Side = Ap | Atp

  datatype ActorType = Fedi | Bsky | RemoteSeiran

  datatype Row = Row(
    typ: ActorType,
    apUri: Option<string>,
    atDid: Option<string>,
    claimedApUri: Option<string>,
    claimedAtDid: Option<string>)

  type Table = map<nat, Row>

  function Other(side: Side): Side {
    match side case Ap => Atp case Atp => Ap
  }

  /** The genuine identity column of a row on one side. */
  function Own(row: Row, side: Side): Option<string> {
    match side case Ap => row.apUri case Atp => row.atDid
  }

  /** The unconfirmed, self-declared counterpart column of a row on one side. */
  function Claimed(row: Row, side: Side): Option<string> {
    match side case Ap => row.claimedApUri case Atp => row.claimedAtDid
  }

  /** One component of `actors_mutual_claim_key`. */
  function Key(row: Row, side: Side): Option<string> {
    Coalesce(Own(row, side), Claimed(row, side))
  }

  /** Do two different rows violate one of the three UNIQUE constraints? NULLs never collide. */
  predicate Clash(a: Row, b: Row) {
    || (a.apUri.Some? && a.apUri == b.apUri)
    || (a.atDid.Some? && a.atDid == b.atDid)
    || (Key(a, Ap).Some? && Key(a, Ap) == Key(b, Ap) && Key(a, Atp).Some? && Key(a, Atp) == Key(b, Atp))
  }

  ghost predicate Unique(t: Table) {
    forall i, j :: i in t && j in t && i != j ==> !Clash(t[i], t[j])
  }

  /** Would storing `row` under `id` violate a UNIQUE constraint? */
  predicate Violates(t: Table, id: nat, row: Row) {
    exists j :: j in t && j != id && Clash(t[j], row)
  }

  predicate HasOwn(t: Table, id: nat, side: Side, ident: string) {
    id in t && Own(t[id], side) == Some(ident)
  }

  /** `SELECT id FROM actors WHERE <own column> = ident`. */
  ghost function FindOwn(t: Table, side: Side, ident: string): (r: Option<nat>)
    ensures r.Some? ==> HasOwn(t, r.value, side, ident)
    ensures r.None? ==> forall id :: !HasOwn(t, id, side, ident)
  {
    if exists id :: HasOwn(t, id, side, ident) then
      var id :| HasOwn(t, id, side, ident); Some(id)
    else None
  }

  lemma FindOwnIsUnique(t: Table, side: Side, ident: string, id: nat)
    requires Unique(t) && HasOwn(t, id, side, ident)
    ensures FindOwn(t, side, ident) == Some(id)
  {
    var found := FindOwn(t, side, ident);
    assert found.value != id ==> Clash(t[found.value], t[id]);
  }

  /** A row has exactly the columns its type allows. */
  predicate RowShaped(row: Row) {
    match row.typ
    case Fedi => row.apUri.Some? && row.atDid.None? && row.claimedApUri.None?
    case Bsky => row.atDid.Some? && row.apUri.None? && row.claimedAtDid.None?
    case RemoteSeiran => row.apUri.Some? && row.atDid.Some? && row.claimedApUri.None? && row.claimedAtDid.None?
  }

  predicate Shaped(t: Table) {
    forall id :: id in t ==> RowShaped(t[id])
  }

  /** The row was there unmarried and is married now. */
  predicate BecameMarried(t: Table, t': Table, id: nat) {
    id in t && t[id].typ != RemoteSeiran && id in t' && t'[id].typ == RemoteSeiran
  }

  /** The UPDATE of an actor that is already known on this side. */
  function UpdatedRow(row: Row, side: Side, claim: Option<string>): Row {
    match side
    case Ap => row.(claimedAtDid := if row.typ == RemoteSeiran then row.claimedAtDid
                                    else Coalesce(row.claimedAtDid, claim))
    case Atp => row.(claimedApUri := if row.typ == RemoteSeiran then row.claimedApUri
                                     else Coalesce(row.claimedApUri, claim))
  }

  /** The UPDATE that marries the counterpart row to the identity just discovered. */
  function MarriedRow(row: Row, side: Side, ident: string): Row {
    match side
    case Ap => row.(apUri := Some(ident), typ := RemoteSeiran, claimedApUri := None)
    case Atp => row.(atDid := Some(ident), typ := RemoteSeiran, claimedAtDid := None)
  }

  /** The row INSERTed for an identity seen for the first time. */
  function NewRow(side: Side, ident: string, claim: Option<string>): Row {
    match side
    case Ap => Row(Fedi, Some(ident), None, None, claim)
    case Atp => Row(Bsky, None, Some(ident), claim, None)
  }
}
