/** Who is let through, and who is blocked: exactly. */
module RateLimitExact {
  import opened Options
  import opened RateLimit

  /** The request has made both counts and has not failed. */
  predicate Decided(p: Phase) {
    p.Passed? || p.Rejecting? || p.Marked? || p.Blocking? || p.Rejected?
  }

  function SecretsCount(h: Hashing, log: seq<Row>, f: Flight): nat {
    |SecretsSince(log, f.secretsSeen, f.request.kind, IdentifierOf(h, f.request), IdentifierSince(f))|
  }

  function IdentifiersCount(h: Hashing, log: seq<Row>, f: Flight): nat {
    |IdentifiersSince(log, f.identifiersSeen, f.request.kind, SecretOf(h, f.request), WindowStart(f))|
  }

  function TallyCount(log: seq<Row>, marks: seq<nat>, f: Flight, tally: Tally): nat {
    if f.request.ip.Some? then |MarksSince(log, marks, tally.seen, f.request.ip.value, tally.since)| else 0
  }

  /** What a request has counted decides its phase. */
  ghost predicate FlightExact(h: Hashing, log: seq<Row>, marks: seq<nat>, f: Flight) {
    && f.secretsSeen <= |log| && f.identifiersSeen <= |log|
    && (f.phase.CountedSecrets? ==> f.phase.row < f.secretsSeen && f.phase.variants == SecretsCount(h, log, f))
    && (Decided(f.phase) ==>
          && f.phase.row < f.secretsSeen <= f.identifiersSeen
          && (f.phase.Passed? <==> SecretsCount(h, log, f) <= f.settings.maxVariants && IdentifiersCount(h, log, f) <= f.settings.maxVariants))
    && (f.phase.Blocking? ==> f.request.ip.Some? && f.phase.tally.seen <= |marks| && TallyCount(log, marks, f, f.phase.tally) >= f.settings.blockThreshold)
    && (f.phase.Rejected? && f.phase.tallied.Some? ==> f.request.ip.Some? && f.phase.tallied.value.seen <= |marks|)
  }

  /** A finished rejection that counted enough of its address. */
  predicate Blocks(log: seq<Row>, marks: seq<nat>, f: Flight, ip: string) {
    && f.request.ip == Some(ip) && f.phase.Rejected? && f.phase.tallied.Some?
    && TallyCount(log, marks, f, f.phase.tallied.value) >= f.settings.blockThreshold
  }

  ghost predicate BlockedBySomebody(w: World, ip: string) {
    exists id :: id in w.flights && Blocks(w.log, w.marks, w.flights[id], ip)
  }

  ghost predicate Exact(h: Hashing, w: World) {
    && Sound(h, w)
    && (forall id :: id in w.flights ==> FlightExact(h, w.log, w.marks, w.flights[id]))
    && (forall ip :: ip in w.blocked ==> BlockedBySomebody(w, ip))
  }

  lemma FlightStaysExact(h: Hashing, w: World, w': World, f: Flight)
    requires Grown(w.log, w.marks, w.blocked, w'.log, w'.marks, w'.blocked) && MarksAgree(w.log, w.marks) && FlightExact(h, w.log, w.marks, f)
    ensures FlightExact(h, w'.log, w'.marks, f)
    ensures forall ip :: Blocks(w.log, w.marks, f, ip) && f.phase.tallied.value.seen <= |w.marks| ==> Blocks(w'.log, w'.marks, f, ip)
  {
    CountsStay(w.log, w'.log, f.secretsSeen, f.request.kind, IdentifierOf(h, f.request), IdentifierSince(f));
    CountsStay(w.log, w'.log, f.identifiersSeen, f.request.kind, SecretOf(h, f.request), WindowStart(f));
    if f.request.ip.Some? {
      if f.phase.Blocking? { MarksStay(w.log, w.marks, w'.log, w'.marks, f.phase.tally.seen, f.request.ip.value, f.phase.tally.since); }
      if f.phase.Rejected? && f.phase.tallied.Some? && f.phase.tallied.value.seen <= |w.marks| {
        MarksStay(w.log, w.marks, w'.log, w'.marks, f.phase.tallied.value.seen, f.request.ip.value, f.phase.tallied.value.since);
      }
    }
  }

  /** The two counts look at the log as it is. */
  lemma CountingExact(h: Hashing, w: World, step: Step)
    requires Exact(h, w) && step.id in w.flights && (step.CountSecrets? || step.CountIdentifiers?)
    ensures var w' := Next(h, w, step); FlightExact(h, w'.log, w'.marks, w'.flights[step.id])
  {
    var f := w.flights[step.id];
    assert FlightSound(h, w.log, w.marks, w.blocked, f) && FlightExact(h, w.log, w.marks, f);
  }

  lemma TallyingExact(h: Hashing, w: World, id: nat, now: int)
    requires Exact(h, w) && id in w.flights
    ensures var w' := Next(h, w, CountRejections(id, now)); FlightExact(h, w'.log, w'.marks, w'.flights[id])
  {
    var f := w.flights[id];
    assert FlightExact(h, w.log, w.marks, f);
    if f.request.ip.Some? {
      RejectionsAreMarks(w.log, w.marks, f.request.ip.value, now - 60 * f.settings.blockWindowMinutes);
    }
  }

  lemma EndingExact(h: Hashing, w: World, step: Step)
    requires Exact(h, w) && step.id in w.flights && (step.Block? || step.Fail?)
    ensures var w' := Next(h, w, step); FlightExact(h, w'.log, w'.marks, w'.flights[step.id])
  {
    assert FlightExact(h, w.log, w.marks, w.flights[step.id]);
  }

  lemma WritingExact(h: Hashing, w: World, step: Step)
    requires Exact(h, w) && step.id in w.flights && (step.Begin? || step.Record? || step.Mark?)
    ensures var w' := Next(h, w, step); FlightExact(h, w'.log, w'.marks, w'.flights[step.id])
  {
    StepGrows(h, w, step);
    FlightStaysExact(h, w, Next(h, w, step), w.flights[step.id]);
  }

  lemma OwnFlightExact(h: Hashing, w: World, step: Step)
    requires Exact(h, w) && step.id in w.flights
    ensures var w' := Next(h, w, step); FlightExact(h, w'.log, w'.marks, w'.flights[step.id])
  {
    if step.CountSecrets? || step.CountIdentifiers? { CountingExact(h, w, step); }
    else if step.CountRejections? { TallyingExact(h, w, step.id, step.now); }
    else if step.Block? || step.Fail? { EndingExact(h, w, step); }
    else { WritingExact(h, w, step); }
  }

  lemma BlockIsCounted(h: Hashing, w: World, id: nat)
    requires Exact(h, w) && id in w.flights && w.flights[id].phase.Blocking?
    ensures var w' := Next(h, w, Block(id)); w.flights[id].request.ip.Some? && id in w'.flights && Blocks(w'.log, w'.marks, w'.flights[id], w.flights[id].request.ip.value)
  {
    assert FlightExact(h, w.log, w.marks, w.flights[id]);
  }

  lemma CountedStays(h: Hashing, w: World, step: Step, ip: string)
    requires Exact(h, w) && BlockedBySomebody(w, ip)
    ensures BlockedBySomebody(Next(h, w, step), ip)
  {
    var w' := Next(h, w, step);
    StepGrows(h, w, step);
    var id :| id in w.flights && Blocks(w.log, w.marks, w.flights[id], ip);
    FlightStaysExact(h, w, w', w.flights[id]);
    FinishedStays(h, w, step, id);
  }

  lemma FinishedStays(h: Hashing, w: World, step: Step, id: nat)
    requires id in w.flights && w.flights[id].phase.Rejected?
    ensures var w' := Next(h, w, step); id in w'.flights && w'.flights[id] == w.flights[id]
  {
  }

  lemma BlocksStay(h: Hashing, w: World, step: Step, ip: string)
    requires Exact(h, w) && ip in Next(h, w, step).blocked
    ensures BlockedBySomebody(Next(h, w, step), ip)
  {
    if ip in w.blocked { CountedStays(h, w, step, ip); } else { BlockIsCounted(h, w, step.id); }
  }

  lemma ExactStep(h: Hashing, w: World, step: Step)
    requires Exact(h, w)
    ensures Exact(h, Next(h, w, step))
  {
    var w' := Next(h, w, step);
    SoundStep(h, w, step);
    StepGrows(h, w, step);
    forall id | id in w'.flights
      ensures FlightExact(h, w'.log, w'.marks, w'.flights[id])
    {
      if id != step.id { FlightStaysExact(h, w, w', w.flights[id]); }
      else if id in w.flights { OwnFlightExact(h, w, step); }
    }
    forall ip | ip in w'.blocked
      ensures BlockedBySomebody(w', ip)
    {
      BlocksStay(h, w, step, ip);
    }
  }

  lemma {:induction false} AlwaysExact(h: Hashing, steps: seq<Step>)
    ensures Exact(h, Exec(h, START, steps))
  {
    if steps != [] {
      AlwaysExact(h, steps[..|steps| - 1]);
      ExactStep(h, Exec(h, START, steps[..|steps| - 1]), steps[|steps| - 1]);
    }
  }

  /* ------------------------------------ the results ------------------------------------ */

  /** The different secrets tried on the request's identifier inside its window and since its reset, in the log as it counted it. */
  function SecretsItSaw(h: Hashing, log: seq<Row>, f: Flight): set<Hash> {
    set k | 0 <= k < f.secretsSeen && k < |log|
         && log[k].kind == f.request.kind && log[k].identifier == h.keyed(h.lower(f.request.identifier))
         && log[k].at >= f.now - 60 * f.settings.windowMinutes
         && (f.request.windowReset.Some? ==> log[k].at >= f.request.windowReset.value) :: log[k].secret
  }

  /** The different identifiers its secret was tried on inside the window. */
  function IdentifiersItSaw(h: Hashing, log: seq<Row>, f: Flight): set<Hash> {
    set k | 0 <= k < f.identifiersSeen && k < |log|
         && log[k].kind == f.request.kind && log[k].secret == h.keyed(f.request.secret)
         && log[k].at >= f.now - 60 * f.settings.windowMinutes :: log[k].identifier
  }

  /**
   In every run: a request that has counted is let through if and only if the secrets and the identifiers it
   saw, its own attempt included, are each at most its limit; otherwise it is on its way to be turned away.
   */
  lemma LetThroughExactly(h: Hashing, steps: seq<Step>, id: nat)
    requires var w := Exec(h, START, steps); id in w.flights && Decided(w.flights[id].phase)
    ensures var w := Exec(h, START, steps); var f := w.flights[id];
            && f.phase.row < f.secretsSeen <= f.identifiersSeen <= |w.log| && HasRow(h, w.log, f.request, f.phase.row)
            && (f.phase.Passed? <==> |SecretsItSaw(h, w.log, f)| <= f.settings.maxVariants && |IdentifiersItSaw(h, w.log, f)| <= f.settings.maxVariants)
  {
    AlwaysExact(h, steps);
    var w := Exec(h, START, steps);
    var f := w.flights[id];
    assert FlightSound(h, w.log, w.marks, w.blocked, f);
    assert SecretsItSaw(h, w.log, f) == SecretsSince(w.log, f.secretsSeen, f.request.kind, IdentifierOf(h, f.request), IdentifierSince(f));
    assert IdentifiersItSaw(h, w.log, f) == IdentifiersSince(w.log, f.identifiersSeen, f.request.kind, SecretOf(h, f.request), WindowStart(f));
  }

  /**
   In every run: an address is blocked if and only if some finished rejection of it counted at least its
   threshold of marked attempts of that address inside its window.
   */
  lemma BlockedExactly(h: Hashing, steps: seq<Step>, ip: string)
    ensures var w := Exec(h, START, steps); ip in w.blocked <==> BlockedBySomebody(w, ip)
  {
    AlwaysExact(h, steps);
    var w := Exec(h, START, steps);
    if id :| id in w.flights && Blocks(w.log, w.marks, w.flights[id], ip) {
      assert FlightSound(h, w.log, w.marks, w.blocked, w.flights[id]);
    }
  }

  /** What a rejected request counts, and when it goes on to block its address. */
  lemma CountingRejections(h: Hashing, w: World, id: nat, now: int)
    requires id in w.flights && w.flights[id].phase.Marked? && w.flights[id].request.ip.Some?
    ensures var f, w' := w.flights[id], Next(h, w, CountRejections(id, now));
            var counted := set k: nat | k < |w.log| && w.log[k].rejected && w.log[k].ip == f.request.ip && w.log[k].at >= now - 60 * f.settings.blockWindowMinutes;
            && (w'.flights[id].phase.Blocking? <==> |counted| >= f.settings.blockThreshold)
            && (w'.flights[id].phase.Rejected? <==> |counted| < f.settings.blockThreshold)
            && w'.log == w.log && w'.blocked == w.blocked
  {
    var f := w.flights[id];
    var since := now - 60 * f.settings.blockWindowMinutes;
    assert RejectionsSince(w.log, f.request.ip.value, since)
        == set k: nat | k < |w.log| && w.log[k].rejected && w.log[k].ip == f.request.ip && w.log[k].at >= since;
  }

  /** A rejected request flags its own row, and blocks its address when its count says so. */
  lemma RejectingFlags(h: Hashing, w: World, id: nat)
    requires Sound(h, w) && id in w.flights
    ensures w.flights[id].phase.Rejecting? ==>
              var row, w' := w.flights[id].phase.row, Next(h, w, Mark(id));
              && w'.log == w.log[row := w.log[row].(rejected := true)]
              && (if w.flights[id].request.ip.Some? then w'.flights[id].phase == Marked(row) else w'.flights[id].phase == Rejected(row, None))
    ensures w.flights[id].phase.Blocking? ==>
              var w' := Next(h, w, Block(id));
              w'.flights[id].phase.Rejected? && w'.blocked == w.blocked + {w.flights[id].request.ip.value}
  {
    assert FlightSound(h, w.log, w.marks, w.blocked, w.flights[id]);
  }
}
