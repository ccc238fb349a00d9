/**
 Following and unfollowing one target with an ATP follow record, over two stores without a common
 transaction: the `follows` row of the pair and the follower's ATP repository.

 `establish_atp_follow` claims the row, commits the record, then writes the record key into the row;
 `unfollow_target` reads the key, deletes the record, then deletes the row. Calls interleave freely
 between those accesses, and every access may fail.
 */
module FollowSaga {
  import opened Options

  /** The row of the pair, if it exists, holds the record key once that is known. */
  type Row = Option<Option<nat>>

  /** What a call answers: an error, a follow that was there already (or an unfollow), a new follow. */
  datatype Answer = Failed | Unchanged | Done

  datatype Follow =
    | Unknown
    | Ready
    | Claimed
    | RollingBack
    | Committed(rkey: nat)
    | Compensating(rkey: nat)
    | Ended(answer: Answer)

  /** An abandoned unfollow has deleted the record and failed to delete the row. */
  datatype Unfollow =
    | NotAsked
    | Asked
    | HasRead(rkey: Option<nat>)
    | RecordGone(gone: nat)
    | Abandoned(gone: nat)
    | Over(answer: Answer)

  /** `records` are the pair's records in the repository; `nextKey` is the next record key. */
  datatype World = World(row: Row, records: set<nat>, nextKey: nat, follows: map<nat, Follow>, unfollows: map<nat, Unfollow>)

  const START := World(None, {}, 0, map[], map[])

  datatype Step =
    | RequestFollow(id: nat)
    | Claim(id: nat, fails: bool)
    | Commit(id: nat, fails: bool)
    | Rollback(id: nat, fails: bool)
    | Record(id: nat, fails: bool)
    | Compensate(id: nat, fails: bool)
    | RequestUnfollow(id: nat)
    | Read(id: nat, fails: bool)
    | DeleteRecord(id: nat, fails: bool)
    | DeleteRow(id: nat, fails: bool)

  function FollowAt(follows: map<nat, Follow>, id: nat): Follow {
    if id in follows then follows[id] else Unknown
  }

  function UnfollowAt(unfollows: map<nat, Unfollow>, id: nat): Unfollow {
    if id in unfollows then unfollows[id] else NotAsked
  }

  /** Can the step be taken? */
  predicate Enabled(w: World, step: Step) {
    match step
    case RequestFollow(id) => id !in w.follows
    case Claim(id, _) => FollowAt(w.follows, id) == Ready
    case Commit(id, _) => FollowAt(w.follows, id) == Claimed
    case Rollback(id, _) => FollowAt(w.follows, id) == RollingBack
    case Record(id, _) => FollowAt(w.follows, id).Committed?
    case Compensate(id, _) => FollowAt(w.follows, id).Compensating?
    case RequestUnfollow(id) => id !in w.unfollows
    case Read(id, _) => UnfollowAt(w.unfollows, id) == Asked
    case DeleteRecord(id, _) => UnfollowAt(w.unfollows, id).HasRead? && UnfollowAt(w.unfollows, id).rkey.Some?
    case DeleteRow(id, _) => UnfollowAt(w.unfollows, id).RecordGone? || UnfollowAt(w.unfollows, id) == HasRead(None)
  }

  function SetFollow(w: World, id: nat, f: Follow): (w': World)
    ensures forall other :: FollowAt(w'.follows, other) == if other == id then f else FollowAt(w.follows, other)
  {
    w.(follows := w.follows[id := f])
  }

  function SetUnfollow(w: World, id: nat, u: Unfollow): (w': World)
    ensures forall other :: UnfollowAt(w'.unfollows, other) == if other == id then u else UnfollowAt(w.unfollows, other)
  {
    w.(unfollows := w.unfollows[id := u])
  }

  /** One step. A step that cannot be taken leaves the world as it is. */
  function Next(w: World, step: Step): World {
    if !Enabled(w, step) then w else
    match step
    case RequestFollow(id) => SetFollow(w, id, Ready)
    case Claim(id, fails) =>
      // INSERT ... ON CONFLICT DO NOTHING
      if fails then SetFollow(w, id, Ended(Failed))
      else if w.row.None? then SetFollow(w.(row := Some(None)), id, Claimed)
      else SetFollow(w, id, Ended(Unchanged))
    case Commit(id, fails) =>
      if fails then SetFollow(w, id, RollingBack)
      else SetFollow(w.(records := w.records + {w.nextKey}, nextKey := w.nextKey + 1), id, Committed(w.nextKey))
    case Rollback(id, fails) => SetFollow(if fails then w else w.(row := None), id, Ended(Failed))
    case Record(id, fails) =>
      var rkey := w.follows[id].rkey;
      if fails then SetFollow(w, id, Ended(Failed))
      else if w.row.None? then SetFollow(w, id, Compensating(rkey))
      else SetFollow(w.(row := Some(Some(rkey))), id, Ended(Done))
    case Compensate(id, fails) =>
      SetFollow(if fails then w else w.(records := w.records - {w.follows[id].rkey}), id, Ended(Done))
    case RequestUnfollow(id) => SetUnfollow(w, id, Asked)
    case Read(id, fails) =>
      SetUnfollow(w, id, if fails then Over(Failed) else HasRead(if w.row.Some? then w.row.value else None))
    case DeleteRecord(id, fails) =>
      // deleting a record that is already gone succeeds
      var rkey := w.unfollows[id].rkey.value;
      if fails then SetUnfollow(w, id, Over(Failed))
      else SetUnfollow(w.(records := w.records - {rkey}), id, RecordGone(rkey))
    case DeleteRow(id, fails) =>
      if !fails then SetUnfollow(w.(row := None), id, Over(Done))
      else SetUnfollow(w, id, if w.unfollows[id].RecordGone? then Abandoned(w.unfollows[id].gone) else Over(Failed))
  }

  function Exec(w: World, steps: seq<Step>): World {
    if steps == [] then w else Next(Exec(w, steps[..|steps| - 1]), steps[|steps| - 1])
  }

  predicate FollowInFlight(f: Follow) {
    f.Claimed? || f.RollingBack? || f.Committed? || f.Compensating?
  }

  predicate UnfollowInFlight(u: Unfollow) {
    u.HasRead? || u.RecordGone?
  }

  ghost predicate Idle(w: World) {
    && (forall id :: !FollowInFlight(FollowAt(w.follows, id)))
    && (forall id :: !UnfollowInFlight(UnfollowAt(w.unfollows, id)))
  }

  /** The promise: the repository holds exactly the record the row names, or none. */
  predicate InAgreement(w: World) {
    w.records == if w.row.Some? && w.row.value.Some? then {w.row.value.value} else {}
  }

  /** The row names a record that does not exist. */
  predicate Dangling(w: World) {
    w.row.Some? && w.row.value.Some? && w.row.value.value !in w.records
  }

  /* ----------------------------- who is responsible for a record ----------------------------- */

  predicate Carries(f: Follow, rkey: nat) {
    f == Committed(rkey) || f == Compensating(rkey)
  }

  ghost predicate BeingDeleted(unfollows: map<nat, Unfollow>, rkey: nat) {
    exists id :: UnfollowAt(unfollows, id) == HasRead(Some(rkey))
  }

  ghost predicate Carried(follows: map<nat, Follow>, rkey: nat) {
    exists id :: Carries(FollowAt(follows, id), rkey)
  }

  ghost predicate Orphan(w: World, rkey: nat) {
    rkey in w.records && w.row != Some(Some(rkey)) && !Carried(w.follows, rkey) && !BeingDeleted(w.unfollows, rkey)
  }

  ghost predicate NoOrphans(w: World) {
    forall rkey :: !Orphan(w, rkey)
  }

  /** The row is the only place that remembers this record. */
  ghost predicate OnlyTheRowKnows(w: World, rkey: nat) {
    w.row == Some(Some(rkey)) && rkey in w.records && !BeingDeleted(w.unfollows, rkey)
  }

  /** Nobody else will delete the record this unfollow has read. */
  ghost predicate OnlyThisUnfollowKnows(w: World, id: nat, rkey: nat) {
    && rkey in w.records && w.row != Some(Some(rkey)) && !Carried(w.follows, rkey)
    && (forall other :: other != id ==> UnfollowAt(w.unfollows, other) != HasRead(Some(rkey)))
  }

  /**
   The step forgets a record: it overwrites or deletes a row whose record nobody is deleting, or it
   fails while it is the last one to know the record.
   */
  ghost predicate Forgets(w: World, step: Step) {
    Enabled(w, step) &&
    match step
    case Rollback(_, fails) => !fails && exists rkey :: OnlyTheRowKnows(w, rkey)
    case DeleteRow(_, fails) => !fails && exists rkey :: OnlyTheRowKnows(w, rkey)
    case Record(id, fails) => fails || exists rkey :: OnlyTheRowKnows(w, rkey)
    case Compensate(_, fails) => fails
    case DeleteRecord(id, fails) => fails && OnlyThisUnfollowKnows(w, id, w.unfollows[id].rkey.value)
    case _ => false
  }

  /** Some unfollow has deleted this record and has not deleted the row. */
  ghost predicate DeletedFor(unfollows: map<nat, Unfollow>, rkey: nat) {
    exists id :: UnfollowAt(unfollows, id) == RecordGone(rkey) || UnfollowAt(unfollows, id) == Abandoned(rkey)
  }

  /** What holds in every run. */
  ghost predicate Consistent(w: World) {
    && (forall rkey :: rkey in w.records ==> rkey < w.nextKey)
    && (w.row.Some? && w.row.value.Some? ==> w.row.value.value < w.nextKey && !Carried(w.follows, w.row.value.value))
    && (Dangling(w) ==> DeletedFor(w.unfollows, w.row.value.value))
    && (forall id :: UnfollowAt(w.unfollows, id).RecordGone? || UnfollowAt(w.unfollows, id).Abandoned? ==>
          UnfollowAt(w.unfollows, id).gone < w.nextKey && UnfollowAt(w.unfollows, id).gone !in w.records)
    && (forall id :: FollowAt(w.follows, id).Committed? || FollowAt(w.follows, id).Compensating? ==>
          FollowAt(w.follows, id).rkey in w.records && !BeingDeleted(w.unfollows, FollowAt(w.follows, id).rkey))
    && (forall i, j :: i != j && (FollowAt(w.follows, i).Committed? || FollowAt(w.follows, i).Compensating?) ==>
          !Carries(FollowAt(w.follows, j), FollowAt(w.follows, i).rkey))
    && (forall id :: UnfollowAt(w.unfollows, id).HasRead? && UnfollowAt(w.unfollows, id).rkey.Some? ==> UnfollowAt(w.unfollows, id).rkey.value < w.nextKey)
  }

  lemma ConsistentFollowStep(w: World, step: Step)
    requires Consistent(w) && Enabled(w, step)
    requires step.RequestFollow? || step.Claim? || step.Rollback?
    ensures Consistent(Next(w, step))
  {
  }

  lemma ConsistentCommitStep(w: World, step: Step)
    requires Consistent(w) && Enabled(w, step) && step.Commit?
    ensures Consistent(Next(w, step))
  {
  }

  lemma ConsistentRecordStep(w: World, step: Step)
    requires Consistent(w) && Enabled(w, step) && (step.Record? || step.Compensate?)
    ensures Consistent(Next(w, step))
  {
  }

  lemma ConsistentUnfollowStep(w: World, step: Step)
    requires Consistent(w) && Enabled(w, step)
    requires step.RequestUnfollow? || step.Read? || step.DeleteRecord? || step.DeleteRow?
    ensures Consistent(Next(w, step))
  {
  }

  lemma ConsistentStep(w: World, step: Step)
    requires Consistent(w)
    ensures Consistent(Next(w, step))
  {
    if Enabled(w, step) {
      match step
      case Commit(_, _) => ConsistentCommitStep(w, step);
      case Record(_, _) => ConsistentRecordStep(w, step);
      case Compensate(_, _) => ConsistentRecordStep(w, step);
      case RequestUnfollow(_) => ConsistentUnfollowStep(w, step);
      case Read(_, _) => ConsistentUnfollowStep(w, step);
      case DeleteRecord(_, _) => ConsistentUnfollowStep(w, step);
      case DeleteRow(_, _) => ConsistentUnfollowStep(w, step);
      case _ => ConsistentFollowStep(w, step);
    }
  }

  lemma {:induction false} AlwaysConsistent(steps: seq<Step>)
    ensures Consistent(Exec(START, steps))
  {
    if steps != [] {
      AlwaysConsistent(steps[..|steps| - 1]);
      ConsistentStep(Exec(START, steps[..|steps| - 1]), steps[|steps| - 1]);
    }
  }

  /** Nobody ever comes back for an orphan. */
  lemma OrphanStays(w: World, step: Step, rkey: nat)
    requires Consistent(w) && Orphan(w, rkey)
    ensures Orphan(Next(w, step), rkey)
  {
  }

  /** The record a forgetting step leaves behind. */
  lemma ForgettingOrphans(w: World, step: Step) returns (rkey: nat)
    requires Consistent(w) && Forgets(w, step)
    ensures Orphan(Next(w, step), rkey)
  {
    match step
    case Rollback(_, _) => rkey :| OnlyTheRowKnows(w, rkey);
    case DeleteRow(_, _) => rkey :| OnlyTheRowKnows(w, rkey);
    case Record(id, fails) =>
      if fails { rkey := w.follows[id].rkey; } else { rkey :| OnlyTheRowKnows(w, rkey); }
    case Compensate(id, _) => rkey := w.follows[id].rkey;
    case DeleteRecord(id, _) => rkey := w.unfollows[id].rkey.value;
  }

  /** A record that becomes an orphan is forgotten by the step. */
  lemma OnlyForgettingOrphans(w: World, step: Step, rkey: nat)
    requires Consistent(w) && !Orphan(w, rkey) && Orphan(Next(w, step), rkey)
    ensures Forgets(w, step)
  {
    var w' := Next(w, step);
    assert rkey !in w.records ==> step.Commit? && FollowAt(w'.follows, step.id) == Committed(rkey);
    assert rkey in w.records && w.row == Some(Some(rkey)) && !BeingDeleted(w.unfollows, rkey) ==> OnlyTheRowKnows(w, rkey);
    if id :| Carries(FollowAt(w.follows, id), rkey) {
      CarrierStops(w, step, id, rkey);
    } else if id :| UnfollowAt(w.unfollows, id) == HasRead(Some(rkey)) {
      assert UnfollowAt(w'.unfollows, id) != HasRead(Some(rkey));
    }
  }

  /** A follow that stops carrying its record has failed, given the record to the row, or deleted it. */
  lemma CarrierStops(w: World, step: Step, id: nat, rkey: nat)
    requires Consistent(w) && Carries(FollowAt(w.follows, id), rkey) && Orphan(Next(w, step), rkey)
    ensures Forgets(w, step)
  {
    assert !Carries(FollowAt(Next(w, step).follows, id), rkey);
  }

  /** No step of the run forgot a record. */
  ghost predicate NeverForgets(steps: seq<Step>) {
    steps != [] ==>
      var init, last := steps[..|steps| - 1], steps[|steps| - 1];
      NeverForgets(init) && !Forgets(Exec(START, init), last)
  }

  lemma {:induction false} OrphansComeFromForgetting(steps: seq<Step>)
    ensures NoOrphans(Exec(START, steps)) <==> NeverForgets(steps)
  {
    if steps != [] {
      var init, last := steps[..|steps| - 1], steps[|steps| - 1];
      var w := Exec(START, init);
      OrphansComeFromForgetting(init);
      AlwaysConsistent(init);
      if !NeverForgets(init) {
        var rkey :| Orphan(w, rkey);
        OrphanStays(w, last, rkey);
      } else if Forgets(w, last) {
        var rkey := ForgettingOrphans(w, last);
      } else {
        forall rkey ensures !Orphan(Next(w, last), rkey) {
          if Orphan(Next(w, last), rkey) { OnlyForgettingOrphans(w, last, rkey); }
        }
      }
    }
  }

  /** An unfollow has deleted the record the row names, failed to delete the row, and nobody has repaired it. */
  ghost predicate LeftDangling(w: World) {
    exists id: nat, rkey: nat :: UnfollowAt(w.unfollows, id) == Abandoned(rkey) && w.row == Some(Some(rkey))
  }

  /**
   Once no call is in flight: the row names a record that does not exist if and only if the unfollow that
   deleted it failed to delete the row, and the row has not been replaced since.
   */
  lemma DanglingExactly(steps: seq<Step>)
    requires Idle(Exec(START, steps))
    ensures Dangling(Exec(START, steps)) <==> LeftDangling(Exec(START, steps))
  {
    AlwaysConsistent(steps);
    var w := Exec(START, steps);
    if Dangling(w) {
      var id :| UnfollowAt(w.unfollows, id) == RecordGone(w.row.value.value) || UnfollowAt(w.unfollows, id) == Abandoned(w.row.value.value);
      assert !UnfollowInFlight(UnfollowAt(w.unfollows, id));
    }
  }

  /**
   The exact condition. Once no call is in flight, the pair's records are the one its row names, or
   none - if and only if no step of the run deleted or overwrote a row whose record nobody was
   deleting, no last holder of a record failed, and no unfollow stopped between record and row.
   */
  lemma AgreementExactlyWithoutForgetting(steps: seq<Step>)
    requires Idle(Exec(START, steps))
    ensures InAgreement(Exec(START, steps)) <==> NeverForgets(steps) && !LeftDangling(Exec(START, steps))
  {
    OrphansComeFromForgetting(steps);
    AlwaysConsistent(steps);
    DanglingExactly(steps);
    var w := Exec(START, steps);
    assert forall id: nat :: !FollowInFlight(FollowAt(w.follows, id)) && !UnfollowInFlight(UnfollowAt(w.unfollows, id));
    assert forall rkey: nat :: !Carried(w.follows, rkey) && !BeingDeleted(w.unfollows, rkey);
    if NoOrphans(w) {
      forall rkey | rkey in w.records ensures w.row == Some(Some(rkey)) {
        assert !Orphan(w, rkey);
      }
    }
    if InAgreement(w) {
      forall rkey ensures !Orphan(w, rkey) {
      }
    }
  }

  /* ------------------------------ when the promise is kept and broken ------------------------------ */

  /** Unfollows overlap nothing: neither a follow in flight nor each other. Commits may still fail. */
  ghost predicate Serial(w: World, step: Step) {
    match step
    case Read(_, _) =>
      && (forall f :: !FollowInFlight(FollowAt(w.follows, f)))
      && (forall other :: !UnfollowInFlight(UnfollowAt(w.unfollows, other)))
    case Claim(_, _) => forall u :: !UnfollowInFlight(UnfollowAt(w.unfollows, u))
    case Record(_, fails) => !fails
    case Compensate(_, fails) => !fails
    case DeleteRecord(_, fails) => !fails
    case DeleteRow(_, fails) => !fails
    case _ => true
  }

  ghost predicate SerialRun(steps: seq<Step>) {
    steps != [] ==>
      var init, last := steps[..|steps| - 1], steps[|steps| - 1];
      SerialRun(init) && Serial(Exec(START, init), last)
  }

  ghost predicate Orderly(w: World) {
    && (forall i :: FollowInFlight(FollowAt(w.follows, i)) ==> w.row == Some(None) && !FollowAt(w.follows, i).Compensating?)
    && (forall i, j :: FollowInFlight(FollowAt(w.follows, i)) && FollowInFlight(FollowAt(w.follows, j)) ==> i == j)
    && (forall i, u :: FollowInFlight(FollowAt(w.follows, i)) ==> !UnfollowInFlight(UnfollowAt(w.unfollows, u)))
    && (forall u, v :: UnfollowInFlight(UnfollowAt(w.unfollows, u)) && UnfollowInFlight(UnfollowAt(w.unfollows, v)) ==> u == v)
    && (forall u :: UnfollowAt(w.unfollows, u).HasRead? ==>
          UnfollowAt(w.unfollows, u).rkey == if w.row.Some? then w.row.value else None)
    && (forall u :: UnfollowAt(w.unfollows, u).RecordGone? ==>
          w.row.Some? && w.row.value.Some? ==> w.row.value.value !in w.records)
    && (forall u :: !UnfollowAt(w.unfollows, u).Abandoned?)
  }

  lemma OrderlyNeverForgets(w: World, step: Step)
    requires Orderly(w) && Serial(w, step)
    ensures !Forgets(w, step)
  {
  }

  lemma OrderlyFollowStep(w: World, step: Step)
    requires Orderly(w) && Serial(w, step) && Enabled(w, step)
    requires !(step.RequestUnfollow? || step.Read? || step.DeleteRecord? || step.DeleteRow?)
    ensures Orderly(Next(w, step))
  {
  }

  lemma OrderlyUnfollowStep(w: World, step: Step)
    requires Orderly(w) && Serial(w, step) && Enabled(w, step)
    requires step.RequestUnfollow? || step.Read? || step.DeleteRecord? || step.DeleteRow?
    ensures Orderly(Next(w, step))
  {
  }

  lemma {:induction false} SerialRunsNeverForget(steps: seq<Step>)
    requires SerialRun(steps)
    ensures NeverForgets(steps) && Orderly(Exec(START, steps))
  {
    if steps != [] {
      var init, last := steps[..|steps| - 1], steps[|steps| - 1];
      SerialRunsNeverForget(init);
      var w := Exec(START, init);
      OrderlyNeverForgets(w, last);
      if Enabled(w, last) {
        if last.RequestUnfollow? || last.Read? || last.DeleteRecord? || last.DeleteRow? {
          OrderlyUnfollowStep(w, last);
        } else {
          OrderlyFollowStep(w, last);
        }
      }
    }
  }

  /** Any number of concurrent follows, failed commits included, and unfollows one at a time: the stores agree. */
  lemma SerialRunsAgree(steps: seq<Step>)
    requires SerialRun(steps) && Idle(Exec(START, steps))
    ensures InAgreement(Exec(START, steps))
  {
    SerialRunsNeverForget(steps);
    AgreementExactlyWithoutForgetting(steps);
    assert !LeftDangling(Exec(START, steps));
  }

  /** An unfollow that reads the row between claim and record deletes it with its fresh record key. */
  const RACE: seq<Step> :=
    [RequestFollow(1), Claim(1, false), RequestUnfollow(2), Read(2, false), Commit(1, false), Record(1, false), DeleteRow(2, false)]

  /** One step of the race. */
  lemma RaceStep(steps: seq<Step>, w: World, step: Step, w': World) returns (longer: seq<Step>)
    requires Exec(START, steps) == w && Next(w, step) == w'
    ensures longer == steps + [step] && Exec(START, longer) == w'
  {
    longer := steps + [step];
    assert longer[..|steps|] == steps;
  }

  /** The world when the unfollow reads the row. */
  lemma RaceBegins()
    ensures Exec(START, RACE[..3]) == World(Some(None), {}, 0, map[1 := Claimed], map[2 := Asked])
  {
    var w1, w2 := World(None, {}, 0, map[1 := Ready], map[]), World(Some(None), {}, 0, map[1 := Claimed], map[]);
    var steps := RaceStep([], START, RACE[0], w1);
    steps := RaceStep(steps, w1, RACE[1], w2);
    steps := RaceStep(steps, w2, RACE[2], World(Some(None), {}, 0, map[1 := Claimed], map[2 := Asked]));
    assert steps == RACE[..3];
  }

  lemma RaceEnds()
    ensures Exec(START, RACE) == World(None, {0}, 1, map[1 := Ended(Done)], map[2 := Over(Done)])
  {
    RaceBegins();
    var w3, w4 := World(Some(None), {}, 0, map[1 := Claimed], map[2 := Asked]), World(Some(None), {}, 0, map[1 := Claimed], map[2 := HasRead(None)]);
    var w5 := World(Some(None), {0}, 1, map[1 := Committed(0)], map[2 := HasRead(None)]);
    var w6 := World(Some(Some(0)), {0}, 1, map[1 := Ended(Done)], map[2 := HasRead(None)]);
    var steps := RaceStep(RACE[..3], w3, RACE[3], w4);
    steps := RaceStep(steps, w4, RACE[4], w5);
    steps := RaceStep(steps, w5, RACE[5], w6);
    steps := RaceStep(steps, w6, RACE[6], World(None, {0}, 1, map[1 := Ended(Done)], map[2 := Over(Done)]));
    assert steps == RACE;
  }

  /** No call is in flight any more, nobody follows, and the record is still in the repository. */
  lemma RaceLeavesARecordBehind()
    ensures var w := Exec(START, RACE); Idle(w) && w.row == None && w.records == {0} && !InAgreement(w)
    ensures !NeverForgets(RACE) && !Serial(Exec(START, RACE[..3]), RACE[3])
  {
    RaceEnds();
    AgreementExactlyWithoutForgetting(RACE);
    RaceBegins();
    assert FollowInFlight(FollowAt(Exec(START, RACE[..3]).follows, 1));
  }
}
