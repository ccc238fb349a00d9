/**
 `establish_atp_follow` and `unfollow_target` as the program writes them, on the stores of one pair, with
 other calls at work before each access and with every access able to fail.
 */
module FollowCalls {
  import opened Options
  import opened FollowSaga

  /** What happens before one access: steps of other calls, then the access succeeds or fails. */
  datatype Turn = Turn(others: seq<Step>, fails: bool)

  /** The accesses of a follow; the last two happen on different paths. */
  datatype FollowTurns = FollowTurns(claim: Turn, commit: Turn, rollback: Turn, record: Turn, compensate: Turn) {
    predicate NotBy(id: nat) {
      NotFollow(id, claim.others) && NotFollow(id, commit.others) && NotFollow(id, rollback.others)
      && NotFollow(id, record.others) && NotFollow(id, compensate.others)
    }

    /** Nobody interferes, and only the commit may fail. */
    predicate Quiet() {
      claim == record == Turn([], false) && commit.others == [] && rollback == Turn([], false)
    }
  }

  datatype UnfollowTurns = UnfollowTurns(read: Turn, deleteRecord: Turn, deleteRow: Turn) {
    predicate NotBy(id: nat) {
      NotUnfollow(id, read.others) && NotUnfollow(id, deleteRecord.others) && NotUnfollow(id, deleteRow.others)
    }

    predicate Quiet() {
      read == deleteRow == Turn([], false) && deleteRecord.others == []
    }
  }

  predicate IsUnfollowStep(step: Step) {
    step.RequestUnfollow? || step.Read? || step.DeleteRecord? || step.DeleteRow?
  }

  /** None of the steps belongs to follow `id`. */
  predicate NotFollow(id: nat, steps: seq<Step>) {
    forall k :: 0 <= k < |steps| ==> IsUnfollowStep(steps[k]) || steps[k].id != id
  }

  predicate NotUnfollow(id: nat, steps: seq<Step>) {
    forall k :: 0 <= k < |steps| ==> !IsUnfollowStep(steps[k]) || steps[k].id != id
  }

  lemma {:induction false} OthersLeaveFollow(w: World, steps: seq<Step>, id: nat)
    requires NotFollow(id, steps)
    ensures FollowAt(Exec(w, steps).follows, id) == FollowAt(w.follows, id)
  {
    if steps != [] { OthersLeaveFollow(w, steps[..|steps| - 1], id); }
  }

  lemma {:induction false} OthersLeaveUnfollow(w: World, steps: seq<Step>, id: nat)
    requires NotUnfollow(id, steps)
    ensures UnfollowAt(Exec(w, steps).unfollows, id) == UnfollowAt(w.unfollows, id)
  {
    if steps != [] { OthersLeaveUnfollow(w, steps[..|steps| - 1], id); }
  }

  /** The accesses of a call in order, each after the steps of the others; a call takes a beginning of one of its paths. */
  function Access(turn: Turn, step: Step): seq<Step> {
    turn.others + [step]
  }

  function ClaimAndCommit(id: nat, t: FollowTurns): seq<Step> {
    [RequestFollow(id)] + Access(t.claim, Claim(id, t.claim.fails)) + Access(t.commit, Commit(id, t.commit.fails))
  }

  function RecordOrTakeBack(id: nat, t: FollowTurns): seq<Step> {
    Access(t.record, Record(id, t.record.fails)) + Access(t.compensate, Compensate(id, t.compensate.fails))
  }

  predicate FollowScript(id: nat, t: FollowTurns, trace: seq<Step>) {
    || trace <= ClaimAndCommit(id, t) + RecordOrTakeBack(id, t)
    || trace == ClaimAndCommit(id, t) + Access(t.rollback, Rollback(id, t.rollback.fails))
  }

  function AskAndRead(id: nat, t: UnfollowTurns): seq<Step> {
    [RequestUnfollow(id)] + Access(t.read, Read(id, t.read.fails))
  }

  predicate UnfollowScript(id: nat, t: UnfollowTurns, trace: seq<Step>) {
    || trace <= AskAndRead(id, t) + Access(t.deleteRecord, DeleteRecord(id, t.deleteRecord.fails)) + Access(t.deleteRow, DeleteRow(id, t.deleteRow.fails))
    || trace == AskAndRead(id, t) + Access(t.deleteRow, DeleteRow(id, t.deleteRow.fails))
  }

  /** The trace with one more access of the call. */
  lemma Longer(w: World, trace: seq<Step>, turn: Turn, step: Step) returns (longer: seq<Step>)
    ensures longer == trace + Access(turn, step) && trace <= longer
    ensures Exec(w, longer) == Next(Exec(Exec(w, trace), turn.others), step)
  {
    longer := trace + turn.others + [step];
    InTwo(w, trace, turn.others);
    assert longer[..|longer| - 1] == trace + turn.others;
  }

  lemma {:induction false} InTwo(w: World, a: seq<Step>, b: seq<Step>)
    ensures Exec(w, a + b) == Exec(Exec(w, a), b)
  {
    if b == [] {
      assert a + b == a;
    } else {
      assert (a + b)[..|a + b| - 1] == a + b[..|b| - 1];
      InTwo(w, a, b[..|b| - 1]);
    }
  }

  class Stores {
    var row: Row
    var records: set<nat>
    var nextKey: nat
    var follows: map<nat, Follow>
    var unfollows: map<nat, Unfollow>

    /** The stores and the calls at work on them, as a world. */
    ghost function AsWorld(): World
      reads this
    {
      World(row, records, nextKey, follows, unfollows)
    }

    constructor ()
      ensures AsWorld() == START
    {
      row, records, nextKey, follows, unfollows := None, {}, 0, map[], map[];
    }

    /** Steps of other calls. */
    method Others(steps: seq<Step>)
      modifies this
      ensures AsWorld() == Exec(old(AsWorld()), steps)
    {
      var w := Exec(World(row, records, nextKey, follows, unfollows), steps);
      row, records, nextKey, follows, unfollows := w.row, w.records, w.nextKey, w.follows, w.unfollows;
    }

    /* ------------------------------------ the repositories ------------------------------------ */

    /** `INSERT INTO follows ... ON CONFLICT DO NOTHING`. */
    method InsertAccepted() returns (claimed: bool)
      modifies this`row
      ensures claimed == old(row).None?
      ensures row == if claimed then Some(None) else old(row)
    {
      claimed := row.None?;
      if claimed {
        row := Some(None);
      }
    }

    method CommitFollow() returns (rkey: nat)
      modifies this`records, this`nextKey
      ensures rkey == old(nextKey) && nextKey == rkey + 1 && records == old(records) + {rkey}
    {
      rkey := nextKey;
      records, nextKey := records + {rkey}, rkey + 1;
    }

    method SetAtpRkey(rkey: nat) returns (recorded: bool)
      modifies this`row
      ensures recorded == old(row).Some?
      ensures row == if recorded then Some(Some(rkey)) else None
    {
      recorded := row.Some?;
      if recorded {
        row := Some(Some(rkey));
      }
    }

    /* ------------------------------------ following ------------------------------------ */

    method Claims(id: nat, turn: Turn) returns (claimed: Option<bool>)
      requires FollowAt(follows, id) == Ready && NotFollow(id, turn.others)
      modifies this
      ensures AsWorld() == Next(Exec(old(AsWorld()), turn.others), Claim(id, turn.fails))
      ensures FollowAt(follows, id) == if claimed == Some(true) then Claimed else Ended(if claimed.Some? then Unchanged else Failed)
      ensures turn == Turn([], false) ==> claimed == Some(old(row).None?) && records == old(records) && nextKey == old(nextKey)
      ensures turn == Turn([], false) ==> row == if old(row).None? then Some(None) else old(row)
    {
      OthersLeaveFollow(AsWorld(), turn.others, id);
      Others(turn.others);
      claimed := None;
      if !turn.fails {
        var inserted := InsertAccepted();
        claimed := Some(inserted);
      }
      follows := follows[id := if claimed == Some(true) then Claimed else Ended(if claimed.Some? then Unchanged else Failed)];
    }

    method Commits(id: nat, turn: Turn) returns (rkey: Option<nat>)
      requires FollowAt(follows, id) == Claimed && NotFollow(id, turn.others)
      modifies this
      ensures AsWorld() == Next(Exec(old(AsWorld()), turn.others), Commit(id, turn.fails))
      ensures FollowAt(follows, id) == if rkey.Some? then Committed(rkey.value) else RollingBack
      ensures rkey.None? == turn.fails
      ensures turn.others == [] ==> row == old(row) && records == if turn.fails then old(records) else old(records) + {old(nextKey)}
      ensures turn.others == [] && !turn.fails ==> rkey == Some(old(nextKey))
    {
      OthersLeaveFollow(AsWorld(), turn.others, id);
      Others(turn.others);
      rkey := None;
      if !turn.fails {
        var key := CommitFollow();
        rkey := Some(key);
      }
      follows := follows[id := if rkey.Some? then Committed(rkey.value) else RollingBack];
    }

    method RollsBack(id: nat, turn: Turn)
      requires FollowAt(follows, id) == RollingBack && NotFollow(id, turn.others)
      modifies this
      ensures AsWorld() == Next(Exec(old(AsWorld()), turn.others), Rollback(id, turn.fails))
      ensures FollowAt(follows, id) == Ended(Failed)
      ensures turn == Turn([], false) ==> row == None && records == old(records)
    {
      OthersLeaveFollow(AsWorld(), turn.others, id);
      Others(turn.others);
      if !turn.fails { row := None; }
      follows := follows[id := Ended(Failed)];
    }

    method Records(id: nat, rkey: nat, turn: Turn) returns (recorded: Option<bool>)
      requires FollowAt(follows, id) == Committed(rkey) && NotFollow(id, turn.others)
      modifies this
      ensures AsWorld() == Next(Exec(old(AsWorld()), turn.others), Record(id, turn.fails))
      ensures FollowAt(follows, id) == if recorded == Some(false) then Compensating(rkey) else Ended(if recorded.Some? then Done else Failed)
      ensures turn == Turn([], false) && old(row).Some? ==> recorded == Some(true) && row == Some(Some(rkey)) && records == old(records)
    {
      OthersLeaveFollow(AsWorld(), turn.others, id);
      Others(turn.others);
      recorded := None;
      if !turn.fails {
        var found := SetAtpRkey(rkey);
        recorded := Some(found);
      }
      follows := follows[id := if recorded == Some(false) then Compensating(rkey) else Ended(if recorded.Some? then Done else Failed)];
    }

    method Compensates(id: nat, rkey: nat, turn: Turn)
      requires FollowAt(follows, id) == Compensating(rkey) && NotFollow(id, turn.others)
      modifies this
      ensures AsWorld() == Next(Exec(old(AsWorld()), turn.others), Compensate(id, turn.fails))
      ensures FollowAt(follows, id) == Ended(Done)
    {
      OthersLeaveFollow(AsWorld(), turn.others, id);
      Others(turn.others);
      if !turn.fails { records := records - {rkey}; }
      follows := follows[id := Ended(Done)];
    }

    /**
     `establish_atp_follow`. With any interference and failures it is a run of the step machine, which ends
     with the answer given. Left alone, it leaves the row and the record it should.
     */
    method EstablishAtpFollow(id: nat, turns: FollowTurns) returns (answer: Answer, ghost trace: seq<Step>)
      requires id !in follows && turns.NotBy(id)
      modifies this
      ensures FollowScript(id, turns, trace)
      ensures AsWorld() == Exec(old(AsWorld()), trace) && FollowAt(follows, id) == Ended(answer)
      ensures turns.Quiet() && old(row).Some? ==> answer == Unchanged && row == old(row) && records == old(records)
      ensures turns.Quiet() && old(row).None? && turns.commit.fails ==> answer == Failed && row == None && records == old(records)
      ensures turns.Quiet() && old(row).None? && !turns.commit.fails ==>
                answer == Done && row == Some(Some(old(nextKey))) && records == old(records) + {old(nextKey)}
      ensures turns.Quiet() && InAgreement(old(AsWorld())) ==> InAgreement(AsWorld())
    {
      ghost var before := AsWorld();
      follows := follows[id := Ready];
      trace := Longer(before, [], Turn([], false), RequestFollow(id));

      ghost var longer := Longer(before, trace, turns.claim, Claim(id, turns.claim.fails));
      var claimed := Claims(id, turns.claim);
      trace := longer;
      if claimed != Some(true) {
        answer := if claimed.Some? then Unchanged else Failed;
        return;
      }
      longer := Longer(before, trace, turns.commit, Commit(id, turns.commit.fails));
      var rkey := Commits(id, turns.commit);
      trace := longer;
      if rkey.None? {
        longer := Longer(before, trace, turns.rollback, Rollback(id, turns.rollback.fails));
        RollsBack(id, turns.rollback);
        return Failed, longer;
      }
      ghost var rest;
      answer, rest := FinishFollow(id, rkey.value, turns);
      InTwo(before, trace, rest);
      trace := trace + rest;
    }

    /** The end of a follow: the key goes into the row, or the record is taken back. */
    method FinishFollow(id: nat, rkey: nat, turns: FollowTurns) returns (answer: Answer, ghost trace: seq<Step>)
      requires FollowAt(follows, id) == Committed(rkey) && turns.NotBy(id)
      modifies this
      ensures trace <= RecordOrTakeBack(id, turns)
      ensures AsWorld() == Exec(old(AsWorld()), trace) && FollowAt(follows, id) == Ended(answer)
      ensures turns.record == Turn([], false) && old(row).Some? ==> answer == Done && row == Some(Some(rkey)) && records == old(records)
    {
      ghost var before := AsWorld();
      trace := Longer(before, [], turns.record, Record(id, turns.record.fails));
      var recorded := Records(id, rkey, turns.record);
      if recorded == Some(false) {
        ghost var longer := Longer(before, trace, turns.compensate, Compensate(id, turns.compensate.fails));
        Compensates(id, rkey, turns.compensate);
        trace := longer;
      }
      answer := if recorded.Some? then Done else Failed;
    }

    /* ------------------------------------ unfollowing ------------------------------------ */

    method Reads(id: nat, turn: Turn) returns (read: Option<Option<nat>>)
      requires UnfollowAt(unfollows, id) == Asked && NotUnfollow(id, turn.others)
      modifies this
      ensures AsWorld() == Next(Exec(old(AsWorld()), turn.others), Read(id, turn.fails))
      ensures UnfollowAt(unfollows, id) == if read.Some? then HasRead(read.value) else Over(Failed)
      ensures turn == Turn([], false) ==> read == Some(if old(row).Some? then old(row).value else None) && row == old(row) && records == old(records)
    {
      OthersLeaveUnfollow(AsWorld(), turn.others, id);
      Others(turn.others);
      read := if turn.fails then None else Some(if row.Some? then row.value else None);
      unfollows := unfollows[id := if read.Some? then HasRead(read.value) else Over(Failed)];
    }

    method DeletesRecord(id: nat, rkey: nat, turn: Turn) returns (ok: bool)
      requires UnfollowAt(unfollows, id) == HasRead(Some(rkey)) && NotUnfollow(id, turn.others)
      modifies this
      ensures AsWorld() == Next(Exec(old(AsWorld()), turn.others), DeleteRecord(id, turn.fails))
      ensures UnfollowAt(unfollows, id) == if ok then RecordGone(rkey) else Over(Failed)
      ensures ok == !turn.fails
      ensures turn.others == [] ==> row == old(row) && records == if ok then old(records) - {rkey} else old(records)
    {
      OthersLeaveUnfollow(AsWorld(), turn.others, id);
      Others(turn.others);
      ok := !turn.fails;
      if ok { records := records - {rkey}; }
      unfollows := unfollows[id := if ok then RecordGone(rkey) else Over(Failed)];
    }

    method DeletesRow(id: nat, rkey: Option<nat>, turn: Turn) returns (ok: bool)
      requires UnfollowAt(unfollows, id) == (if rkey.Some? then RecordGone(rkey.value) else HasRead(None)) && NotUnfollow(id, turn.others)
      modifies this
      ensures AsWorld() == Next(Exec(old(AsWorld()), turn.others), DeleteRow(id, turn.fails))
      ensures UnfollowAt(unfollows, id) == if ok then Over(Done) else if rkey.Some? then Abandoned(rkey.value) else Over(Failed)
      ensures turn == Turn([], false) ==> ok && row == None && records == old(records)
    {
      OthersLeaveUnfollow(AsWorld(), turn.others, id);
      Others(turn.others);
      ok := !turn.fails;
      if ok { row := None; }
      unfollows := unfollows[id := if ok then Over(Done) else if rkey.Some? then Abandoned(rkey.value) else Over(Failed)];
    }

    /** `unfollow_target`: read the record key, delete the record, delete the row. */
    method UnfollowTarget(id: nat, turns: UnfollowTurns) returns (ok: bool, ghost trace: seq<Step>)
      requires id !in unfollows && turns.NotBy(id)
      modifies this
      ensures UnfollowScript(id, turns, trace)
      ensures AsWorld() == Exec(old(AsWorld()), trace)
      ensures var u := UnfollowAt(unfollows, id);
              if ok then u == Over(Done) else u == Over(Failed) || u.Abandoned?
      ensures turns.Quiet() ==> ok == !(turns.deleteRecord.fails && old(row).Some? && old(row).value.Some?)
      ensures turns.Quiet() && !ok ==> row == old(row) && records == old(records)
      ensures turns.Quiet() && ok ==>
                row == None && records == if old(row).Some? && old(row).value.Some? then old(records) - {old(row).value.value} else old(records)
      ensures turns.Quiet() && InAgreement(old(AsWorld())) ==> InAgreement(AsWorld())
    {
      ghost var before := AsWorld();
      unfollows := unfollows[id := Asked];
      trace := Longer(before, [], Turn([], false), RequestUnfollow(id));

      ghost var longer := Longer(before, trace, turns.read, Read(id, turns.read.fails));
      var read := Reads(id, turns.read);
      trace := longer;
      if read.None? { return false, trace; }
      var rkey := read.value;
      if rkey.Some? {
        longer := Longer(before, trace, turns.deleteRecord, DeleteRecord(id, turns.deleteRecord.fails));
        ok := DeletesRecord(id, rkey.value, turns.deleteRecord);
        trace := longer;
        if !ok { return; }
      }
      longer := Longer(before, trace, turns.deleteRow, DeleteRow(id, turns.deleteRow.fails));
      ok := DeletesRow(id, rkey, turns.deleteRow);
      trace := longer;
    }
  }
}
