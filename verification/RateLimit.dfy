/**
 The limiter of login and TOTP attempts: every request first records its attempt and then counts, in
 separate database statements, so requests interleave. Times are seconds on clocks that need not agree.
 */
module RateLimit {
  import opened Options
  import opened Cardinality

  datatype Kind = Login | Totp

  type Hash = nat

  /** `keyed_hash` with the server's key, and lower-casing. */
  datatype Hashing = Hashing(keyed: string -> Hash, lower: string -> string)

  /** A row of `auth_attempt_log`; its id is its position. */
  datatype Row = Row(kind: Kind, identifier: Hash, secret: Hash, ip: Option<string>, at: int, rejected: bool)

  datatype Request = Request(kind: Kind, identifier: string, secret: string, ip: Option<string>, windowReset: Option<int>)

  /** The settings as one request reads them. */
  datatype Settings = Settings(windowMinutes: int, maxVariants: int, blockWindowMinutes: int, blockThreshold: int)

  /** What a rejected request saw: the first `seen` marks, of which it counted those at or after `since`. */
  datatype Tally = Tally(seen: nat, since: int)

  /** `seen` is how much of the log the request saw when it counted secrets. */
  datatype Phase =
    | Begun
    | Recorded(row: nat)
    | CountedSecrets(row: nat, seen: nat, variants: nat)
    | Passed(row: nat, seen: nat)
    | Rejecting(row: nat)
    | Marked(row: nat)
    | Blocking(row: nat, tally: Tally)
    | Rejected(row: nat, tallied: Option<Tally>)
    | Failed

  /** `secretsSeen` and `identifiersSeen` are how much of the log the two counts of the request saw. */
  datatype Flight = Flight(request: Request, settings: Settings, now: int, phase: Phase, secretsSeen: nat, identifiersSeen: nat)

  /** `marks` lists the rejected rows in the order they were marked. */
  datatype World = World(log: seq<Row>, marks: seq<nat>, blocked: set<string>, flights: map<nat, Flight>)

  const START := World([], [], {}, map[])

  datatype Step =
    | Begin(id: nat, request: Request, settings: Settings, now: int)
    | Record(id: nat, at: int)
    | CountSecrets(id: nat)
    | CountIdentifiers(id: nat)
    | Mark(id: nat)
    | CountRejections(id: nat, now: int)
    | Block(id: nat)
    | Fail(id: nat)

  function WindowStart(f: Flight): int {
    f.now - 60 * f.settings.windowMinutes
  }

  /** Since when attempts on the identifier count: a reset inside the window starts it anew. */
  function IdentifierSince(f: Flight): int {
    match f.request.windowReset
    case Some(reset) => if reset > WindowStart(f) then reset else WindowStart(f)
    case None => WindowStart(f)
  }

  function IdentifierOf(h: Hashing, r: Request): Hash { h.keyed(h.lower(r.identifier)) }

  function SecretOf(h: Hashing, r: Request): Hash { h.keyed(r.secret) }

  /** `count_distinct_secrets` counts these, on the log as it was when it had `upto` rows. */
  function SecretsSince(log: seq<Row>, upto: nat, kind: Kind, identifier: Hash, since: int): set<Hash> {
    set k | 0 <= k < upto && k < |log| && log[k].kind == kind && log[k].identifier == identifier && log[k].at >= since :: log[k].secret
  }

  function IdentifiersSince(log: seq<Row>, upto: nat, kind: Kind, secret: Hash, since: int): set<Hash> {
    set k | 0 <= k < upto && k < |log| && log[k].kind == kind && log[k].secret == secret && log[k].at >= since :: log[k].identifier
  }

  /** `count_recent_rejections_by_ip` counts these. */
  function RejectionsSince(log: seq<Row>, ip: string, since: int): set<nat> {
    set k: nat | k < |log| && log[k].rejected && log[k].ip == Some(ip) && log[k].at >= since
  }

  function Move(w: World, id: nat, phase: Phase): World
    requires id in w.flights
  {
    w.(flights := w.flights[id := w.flights[id].(phase := phase)])
  }

  function Flagged(log: seq<Row>, row: nat): seq<Row> {
    if row < |log| then log[row := log[row].(rejected := true)] else log
  }

  predicate InPhase(w: World, id: nat, phase: Phase -> bool) {
    id in w.flights && phase(w.flights[id].phase)
  }

  function RecordRow(h: Hashing, r: Request, at: int): Row {
    Row(r.kind, IdentifierOf(h, r), SecretOf(h, r), r.ip, at, false)
  }

  /** One step. A step that cannot be taken leaves the world as it is. */
  function Next(h: Hashing, w: World, step: Step): World {
    match step
    case Begin(id, request, settings, now) =>
      if id in w.flights then w else w.(flights := w.flights[id := Flight(request, settings, now, Begun, 0, 0)])
    case Record(id, at) =>
      if !InPhase(w, id, (p: Phase) => p.Begun?) then w
      else Move(w, id, Recorded(|w.log|)).(log := w.log + [RecordRow(h, w.flights[id].request, at)])
    case CountSecrets(id) =>
      if !InPhase(w, id, (p: Phase) => p.Recorded?) then w
      else
        var f := w.flights[id];
        var secrets := SecretsSince(w.log, |w.log|, f.request.kind, IdentifierOf(h, f.request), IdentifierSince(f));
        Move(w.(flights := w.flights[id := f.(secretsSeen := |w.log|)]), id, CountedSecrets(f.phase.row, |w.log|, |secrets|))
    case CountIdentifiers(id) =>
      if !InPhase(w, id, (p: Phase) => p.CountedSecrets?) then w
      else
        var f := w.flights[id];
        var identifiers := IdentifiersSince(w.log, |w.log|, f.request.kind, SecretOf(h, f.request), WindowStart(f));
        Move(w.(flights := w.flights[id := f.(identifiersSeen := |w.log|)]), id,
             if f.phase.variants > f.settings.maxVariants || |identifiers| > f.settings.maxVariants then Rejecting(f.phase.row)
             else Passed(f.phase.row, f.phase.seen))
    case Mark(id) =>
      if !InPhase(w, id, (p: Phase) => p.Rejecting?) then w
      else
        var f := w.flights[id];
        var row := f.phase.row;
        Move(w, id, if f.request.ip.Some? then Marked(row) else Rejected(row, None))
          .(log := Flagged(w.log, row), marks := w.marks + [row])
    case CountRejections(id, now) =>
      if !InPhase(w, id, (p: Phase) => p.Marked?) || w.flights[id].request.ip.None? then w
      else
        var f := w.flights[id];
        var since := now - 60 * f.settings.blockWindowMinutes;
        var rejections := RejectionsSince(w.log, f.request.ip.value, since);
        Move(w, id, if |rejections| >= f.settings.blockThreshold then Blocking(f.phase.row, Tally(|w.marks|, since))
                    else Rejected(f.phase.row, Some(Tally(|w.marks|, since))))
    case Block(id) =>
      if !InPhase(w, id, (p: Phase) => p.Blocking?) || w.flights[id].request.ip.None? then w
      else
        var f := w.flights[id];
        Move(w, id, Rejected(f.phase.row, Some(f.phase.tally))).(blocked := w.blocked + {f.request.ip.value})
    case Fail(id) =>
      if !InPhase(w, id, (p: Phase) => !p.Passed? && !p.Rejected?) then w else Move(w, id, Failed)
  }

  function Exec(h: Hashing, w: World, steps: seq<Step>): World {
    if steps == [] then w else Next(h, Exec(h, w, steps[..|steps| - 1]), steps[|steps| - 1])
  }

  /* ------------------------------------ what every run keeps ------------------------------------ */

  ghost predicate HasRow(h: Hashing, log: seq<Row>, r: Request, row: nat) {
    && row < |log| && log[row].kind == r.kind && log[row].ip == r.ip
    && log[row].identifier == IdentifierOf(h, r) && log[row].secret == SecretOf(h, r)
  }

  /** The rows among the first `seen` marks that count for an address. */
  function MarksSince(log: seq<Row>, marks: seq<nat>, seen: nat, ip: string, since: int): set<nat> {
    set k | 0 <= k < seen && k < |marks| && marks[k] < |log| && log[marks[k]].ip == Some(ip) && log[marks[k]].at >= since :: marks[k]
  }

  ghost predicate MarkedWithin(marks: seq<nat>, seen: nat, row: nat) {
    exists k :: 0 <= k < seen && k < |marks| && marks[k] == row
  }

  ghost predicate TallySound(log: seq<Row>, marks: seq<nat>, f: Flight, row: nat, tally: Tally, mustBlock: bool) {
    && f.request.ip.Some? && tally.seen <= |marks| && MarkedWithin(marks, tally.seen, row)
    && (|MarksSince(log, marks, tally.seen, f.request.ip.value, tally.since)| >= f.settings.blockThreshold ==> mustBlock)
  }

  ghost predicate FlightSound(h: Hashing, log: seq<Row>, marks: seq<nat>, blocked: set<string>, f: Flight) {
    match f.phase
    case Begun => true
    case Failed => true
    case Recorded(row) => HasRow(h, log, f.request, row)
    case CountedSecrets(row, seen, variants) =>
      && HasRow(h, log, f.request, row) && row < seen <= |log|
      && variants == |SecretsSince(log, seen, f.request.kind, IdentifierOf(h, f.request), IdentifierSince(f))|
    case Passed(row, seen) =>
      && HasRow(h, log, f.request, row) && row < seen <= |log|
      && |SecretsSince(log, seen, f.request.kind, IdentifierOf(h, f.request), IdentifierSince(f))| <= f.settings.maxVariants
      && |IdentifiersSince(log, seen, f.request.kind, SecretOf(h, f.request), WindowStart(f))| <= f.settings.maxVariants
    case Rejecting(row) => HasRow(h, log, f.request, row)
    case Marked(row) => HasRow(h, log, f.request, row) && MarkedWithin(marks, |marks|, row)
    case Blocking(row, tally) => HasRow(h, log, f.request, row) && TallySound(log, marks, f, row, tally, true)
    case Rejected(row, tallied) =>
      HasRow(h, log, f.request, row) && (tallied.Some? ==> f.request.ip.Some? && TallySound(log, marks, f, row, tallied.value, f.request.ip.value in blocked))
  }

  /** A row is flagged exactly when it was marked. */
  ghost predicate MarksAgree(log: seq<Row>, marks: seq<nat>) {
    && (forall k :: 0 <= k < |marks| ==> marks[k] < |log| && log[marks[k]].rejected)
    && (forall row: nat :: row < |log| && log[row].rejected ==> MarkedWithin(marks, |marks|, row))
  }

  predicate OwnsRow(p: Phase) { !p.Begun? && !p.Failed? }

  ghost predicate Sound(h: Hashing, w: World) {
    && MarksAgree(w.log, w.marks)
    && (forall id :: id in w.flights ==> FlightSound(h, w.log, w.marks, w.blocked, w.flights[id]))
    && (forall a, b :: a in w.flights && b in w.flights && a != b && OwnsRow(w.flights[a].phase) && OwnsRow(w.flights[b].phase) ==>
          w.flights[a].phase.row != w.flights[b].phase.row)
  }

  /** The log only grows, and only the rejection flags in it change; the same for marks and blocks. */
  ghost predicate Grown(log: seq<Row>, marks: seq<nat>, blocked: set<string>, log': seq<Row>, marks': seq<nat>, blocked': set<string>) {
    && |log| <= |log'| && |marks| <= |marks'| && blocked <= blocked'
    && (forall k :: 0 <= k < |log| ==> log'[k].(rejected := false) == log[k].(rejected := false))
    && (forall k :: 0 <= k < |marks| ==> marks'[k] == marks[k])
  }

  /** Rows the log already had stay as they are for every count. */
  lemma CountsStay(log: seq<Row>, log': seq<Row>, upto: nat, kind: Kind, key: Hash, since: int)
    requires |log| <= |log'| && upto <= |log|
    requires forall k :: 0 <= k < |log| ==> log'[k].(rejected := false) == log[k].(rejected := false)
    ensures SecretsSince(log', upto, kind, key, since) == SecretsSince(log, upto, kind, key, since)
    ensures IdentifiersSince(log', upto, kind, key, since) == IdentifiersSince(log, upto, kind, key, since)
  {
    assert forall k :: 0 <= k < |log| ==> SameEntry(log'[k], log[k]);
  }

  predicate SameEntry(a: Row, b: Row) {
    a.kind == b.kind && a.identifier == b.identifier && a.secret == b.secret && a.ip == b.ip && a.at == b.at
  }

  lemma MarksStay(log: seq<Row>, marks: seq<nat>, log': seq<Row>, marks': seq<nat>, seen: nat, ip: string, since: int)
    requires Grown(log, marks, {}, log', marks', {}) && seen <= |marks| && forall k :: 0 <= k < |marks| ==> marks[k] < |log|
    ensures MarksSince(log', marks', seen, ip, since) == MarksSince(log, marks, seen, ip, since)
  {
    assert forall k :: 0 <= k < |log| ==> SameEntry(log'[k], log[k]);
  }

  /** What a request knows stays true while others add rows, marks and blocks. */
  lemma FlightStaysSound(h: Hashing, w: World, w': World, f: Flight)
    requires Grown(w.log, w.marks, w.blocked, w'.log, w'.marks, w'.blocked) && MarksAgree(w.log, w.marks)
    requires FlightSound(h, w.log, w.marks, w.blocked, f)
    ensures FlightSound(h, w'.log, w'.marks, w'.blocked, f)
  {
    assert forall k :: 0 <= k < |w.log| ==> SameEntry(w'.log[k], w.log[k]);
    match f.phase
    case CountedSecrets(row, seen, variants) =>
      CountsStay(w.log, w'.log, seen, f.request.kind, IdentifierOf(h, f.request), IdentifierSince(f));
    case Passed(row, seen) =>
      CountsStay(w.log, w'.log, seen, f.request.kind, IdentifierOf(h, f.request), IdentifierSince(f));
      CountsStay(w.log, w'.log, seen, f.request.kind, SecretOf(h, f.request), WindowStart(f));
    case Blocking(row, tally) =>
      TallyStays(w, w', f, row, tally, true);
    case Rejected(row, tallied) =>
      if tallied.Some? { TallyStays(w, w', f, row, tallied.value, f.request.ip.value in w.blocked); }
    case _ =>
  }

  lemma TallyStays(w: World, w': World, f: Flight, row: nat, tally: Tally, mustBlock: bool)
    requires Grown(w.log, w.marks, w.blocked, w'.log, w'.marks, w'.blocked) && MarksAgree(w.log, w.marks)
    requires TallySound(w.log, w.marks, f, row, tally, mustBlock)
    ensures TallySound(w'.log, w'.marks, f, row, tally, mustBlock)
  {
    MarksStay(w.log, w.marks, w'.log, w'.marks, tally.seen, f.request.ip.value, tally.since);
  }

  lemma StepGrows(h: Hashing, w: World, step: Step)
    requires Sound(h, w)
    ensures var w' := Next(h, w, step); Grown(w.log, w.marks, w.blocked, w'.log, w'.marks, w'.blocked) && MarksAgree(w'.log, w'.marks)
  {
    var w' := Next(h, w, step);
    if w'.marks != w.marks {
      var row := w.flights[step.id].phase.row;
      assert w'.marks == w.marks + [row] && w'.log == w.log[row := w.log[row].(rejected := true)];
      forall r: nat | r < |w'.log| && w'.log[r].rejected
        ensures MarkedWithin(w'.marks, |w'.marks|, r)
      {
        if r == row { assert w'.marks[|w.marks|] == r; }
        else { MarkStays(w.marks, w'.marks, r); }
      }
    } else {
      assert forall r: nat :: r < |w'.log| && w'.log[r].rejected ==> r < |w.log| && w.log[r].rejected;
    }
  }

  lemma MarkStays(marks: seq<nat>, marks': seq<nat>, row: nat)
    requires |marks| <= |marks'| && (forall k :: 0 <= k < |marks| ==> marks'[k] == marks[k]) && MarkedWithin(marks, |marks|, row)
    ensures MarkedWithin(marks', |marks'|, row)
  {
    var k :| 0 <= k < |marks| && marks[k] == row;
    assert marks'[k] == row;
  }

  /** At counting time the flags and the marks say the same. */
  lemma RejectionsAreMarks(log: seq<Row>, marks: seq<nat>, ip: string, since: int)
    requires MarksAgree(log, marks)
    ensures RejectionsSince(log, ip, since) == MarksSince(log, marks, |marks|, ip, since)
  {
    forall row | row in RejectionsSince(log, ip, since)
      ensures row in MarksSince(log, marks, |marks|, ip, since)
    {
      assert MarkedWithin(marks, |marks|, row);
    }
  }

  lemma CountSound(h: Hashing, w: World, id: nat)
    requires Sound(h, w) && InPhase(w, id, (p: Phase) => p.CountedSecrets?)
    ensures var w' := Next(h, w, CountIdentifiers(id)); FlightSound(h, w'.log, w'.marks, w'.blocked, w'.flights[id])
  {
    var f := w.flights[id];
    var identifier, secret := IdentifierOf(h, f.request), SecretOf(h, f.request);
    CardinalityOfSubset(IdentifiersSince(w.log, f.phase.seen, f.request.kind, secret, WindowStart(f)),
                        IdentifiersSince(w.log, |w.log|, f.request.kind, secret, WindowStart(f)));
  }

  lemma MarkSound(h: Hashing, w: World, id: nat)
    requires Sound(h, w) && InPhase(w, id, (p: Phase) => p.Rejecting?)
    ensures var w' := Next(h, w, Mark(id)); FlightSound(h, w'.log, w'.marks, w'.blocked, w'.flights[id])
  {
    var f := w.flights[id];
    var w' := Next(h, w, Mark(id));
    assert w'.marks[|w.marks|] == f.phase.row;
    assert SameEntry(w'.log[f.phase.row], w.log[f.phase.row]);
  }

  lemma RejectionsSound(h: Hashing, w: World, id: nat, now: int)
    requires Sound(h, w) && InPhase(w, id, (p: Phase) => p.Marked?)
    ensures var w' := Next(h, w, CountRejections(id, now)); FlightSound(h, w'.log, w'.marks, w'.blocked, w'.flights[id])
  {
    var f := w.flights[id];
    if f.request.ip.Some? {
      RejectionsAreMarks(w.log, w.marks, f.request.ip.value, now - 60 * f.settings.blockWindowMinutes);
    }
  }

  lemma OwnFlightSound(h: Hashing, w: World, step: Step)
    requires Sound(h, w) && step.id in Next(h, w, step).flights
    ensures var w' := Next(h, w, step); FlightSound(h, w'.log, w'.marks, w'.blocked, w'.flights[step.id])
  {
    if step.CountIdentifiers? && InPhase(w, step.id, (p: Phase) => p.CountedSecrets?) { CountSound(h, w, step.id); }
    else if step.Mark? && InPhase(w, step.id, (p: Phase) => p.Rejecting?) { MarkSound(h, w, step.id); }
    else if step.CountRejections? && InPhase(w, step.id, (p: Phase) => p.Marked?) { RejectionsSound(h, w, step.id, step.now); }
  }

  lemma SoundStep(h: Hashing, w: World, step: Step)
    requires Sound(h, w)
    ensures Sound(h, Next(h, w, step))
  {
    var w' := Next(h, w, step);
    StepGrows(h, w, step);
    forall id | id in w'.flights
      ensures FlightSound(h, w'.log, w'.marks, w'.blocked, w'.flights[id])
    {
      if id == step.id { OwnFlightSound(h, w, step); }
      else { FlightStaysSound(h, w, w', w.flights[id]); }
    }
    RowsStayApart(h, w, step);
  }

  lemma RowsStayApart(h: Hashing, w: World, step: Step)
    requires Sound(h, w)
    ensures var w' := Next(h, w, step);
            forall a, b :: a in w'.flights && b in w'.flights && a != b && OwnsRow(w'.flights[a].phase) && OwnsRow(w'.flights[b].phase) ==>
              w'.flights[a].phase.row != w'.flights[b].phase.row
  {
    var w' := Next(h, w, step);
    forall a, b | a in w'.flights && b in w'.flights && a != b && OwnsRow(w'.flights[a].phase) && OwnsRow(w'.flights[b].phase)
      ensures w'.flights[a].phase.row != w'.flights[b].phase.row
    {
      RowAfter(h, w, step, a);
      RowAfter(h, w, step, b);
      if a != step.id { RowIsInLog(h, w, a); }
      if b != step.id { RowIsInLog(h, w, b); }
    }
  }

  /** A flight keeps its row; only a recording one gets the new row. */
  lemma RowAfter(h: Hashing, w: World, step: Step, id: nat)
    requires var w' := Next(h, w, step); id in w'.flights && OwnsRow(w'.flights[id].phase)
    ensures id in w.flights
    ensures id != step.id ==> w.flights[id] == Next(h, w, step).flights[id]
    ensures var row := Next(h, w, step).flights[id].phase.row;
            (OwnsRow(w.flights[id].phase) && w.flights[id].phase.row == row) || (id == step.id && row == |w.log|)
  {
  }

  lemma RowIsInLog(h: Hashing, w: World, id: nat)
    requires Sound(h, w) && id in w.flights && OwnsRow(w.flights[id].phase)
    ensures w.flights[id].phase.row < |w.log|
  {
    assert FlightSound(h, w.log, w.marks, w.blocked, w.flights[id]);
  }

  lemma {:induction false} AlwaysSound(h: Hashing, steps: seq<Step>)
    ensures Sound(h, Exec(h, START, steps))
  {
    if steps != [] {
      AlwaysSound(h, steps[..|steps| - 1]);
      SoundStep(h, Exec(h, START, steps[..|steps| - 1]), steps[|steps| - 1]);
    }
  }

  /* ------------------------------------ what the limiter is for ------------------------------------ */

  /** No two strings share a hash. */
  ghost predicate Injective(h: Hashing) {
    forall a, b :: h.keyed(a) == h.keyed(b) ==> a == b
  }

  /** `who` are requests that were let through. */
  predicate LetThrough(w: World, who: set<nat>) {
    forall id :: id in who ==> id in w.flights && w.flights[id].phase.Passed? && w.flights[id].phase.row < |w.log|
  }

  /** The secrets that `who` tried at or after `since`. */
  function SecretsTried(w: World, who: set<nat>, since: int): set<string>
    requires LetThrough(w, who)
  {
    set id | id in who && w.log[w.flights[id].phase.row].at >= since :: w.flights[id].request.secret
  }

  function IdentifiersTried(h: Hashing, w: World, who: set<nat>, since: int): set<string>
    requires LetThrough(w, who)
  {
    set id | id in who && w.log[w.flights[id].phase.row].at >= since :: h.lower(w.flights[id].request.identifier)
  }

  /** One of `who` recorded its attempt last. */
  lemma {:induction false} SomebodyIsLast(w: World, who: set<nat>) returns (last: nat)
    requires who != {} && LetThrough(w, who)
    ensures last in who && forall id :: id in who ==> w.flights[id].phase.row <= w.flights[last].phase.row
    decreases |who|
  {
    last :| last in who;
    var rest, first := who - {last}, last;
    assert forall id :: id in who ==> id == first || id in rest;
    if rest != {} {
      var other := SomebodyIsLast(w, rest);
      if w.flights[other].phase.row > w.flights[last].phase.row { last := other; }
    }
  }

  /**
   In every run: of the attempts let through for one identifier, those inside the window of the last of
   them tried at most as many different secrets as that request allows.
   */
  lemma FewSecretsGetThrough(h: Hashing, steps: seq<Step>, who: set<nat>, kind: Kind, identifier: string) returns (last: nat)
    requires Injective(h) && who != {} && LetThrough(Exec(h, START, steps), who)
    requires var w := Exec(h, START, steps);
             forall id :: id in who ==> w.flights[id].request.kind == kind && h.lower(w.flights[id].request.identifier) == identifier
    ensures var w := Exec(h, START, steps);
            && last in who && (forall id :: id in who ==> w.flights[id].phase.row <= w.flights[last].phase.row)
            && |SecretsTried(w, who, IdentifierSince(w.flights[last]))| <= w.flights[last].settings.maxVariants
  {
    var w := Exec(h, START, steps);
    AlwaysSound(h, steps);
    last := SomebodyIsLast(w, who);
    var f := w.flights[last];
    var seen := SecretsSince(w.log, f.phase.seen, kind, h.keyed(identifier), IdentifierSince(f));
    forall secret | secret in SecretsTried(w, who, IdentifierSince(f))
      ensures h.keyed(secret) in seen
    {
      var id :| id in who && w.log[w.flights[id].phase.row].at >= IdentifierSince(f) && w.flights[id].request.secret == secret;
      assert HasRow(h, w.log, w.flights[id].request, w.flights[id].phase.row);
    }
    InjectiveImage(h.keyed, SecretsTried(w, who, IdentifierSince(f)), seen);
  }

  /** The same for one secret tried on many identifiers. */
  lemma FewIdentifiersGetThrough(h: Hashing, steps: seq<Step>, who: set<nat>, kind: Kind, secret: string) returns (last: nat)
    requires Injective(h) && who != {} && LetThrough(Exec(h, START, steps), who)
    requires var w := Exec(h, START, steps);
             forall id :: id in who ==> w.flights[id].request.kind == kind && w.flights[id].request.secret == secret
    ensures var w := Exec(h, START, steps);
            && last in who && (forall id :: id in who ==> w.flights[id].phase.row <= w.flights[last].phase.row)
            && |IdentifiersTried(h, w, who, WindowStart(w.flights[last]))| <= w.flights[last].settings.maxVariants
  {
    var w := Exec(h, START, steps);
    AlwaysSound(h, steps);
    last := SomebodyIsLast(w, who);
    var f := w.flights[last];
    var seen := IdentifiersSince(w.log, f.phase.seen, kind, h.keyed(secret), WindowStart(f));
    forall identifier | identifier in IdentifiersTried(h, w, who, WindowStart(f))
      ensures h.keyed(identifier) in seen
    {
      var id :| id in who && w.log[w.flights[id].phase.row].at >= WindowStart(f) && h.lower(w.flights[id].request.identifier) == identifier;
      assert HasRow(h, w.log, w.flights[id].request, w.flights[id].phase.row);
    }
    InjectiveImage(h.keyed, IdentifiersTried(h, w, who, WindowStart(f)), seen);
  }

  /** `who` are requests from `ip` that were rejected and have finished. */
  predicate TurnedAway(w: World, who: set<nat>, ip: string) {
    forall id :: id in who ==> && id in w.flights && w.flights[id].phase.Rejected? && w.flights[id].phase.row < |w.log|
                               && w.flights[id].request.ip == Some(ip) && w.flights[id].phase.tallied.Some?
  }

  /** Those whose attempt was recorded at or after `since`. */
  function TurnedAwaySince(w: World, who: set<nat>, ip: string, since: int): set<nat>
    requires TurnedAway(w, who, ip)
  {
    set id | id in who && w.log[w.flights[id].phase.row].at >= since
  }

  lemma {:induction false} SomebodySawMost(w: World, who: set<nat>, ip: string) returns (most: nat)
    requires who != {} && TurnedAway(w, who, ip)
    ensures most in who && forall id :: id in who ==> w.flights[id].phase.tallied.value.seen <= w.flights[most].phase.tallied.value.seen
    decreases |who|
  {
    most :| most in who;
    var rest, first := who - {most}, most;
    assert forall id :: id in who ==> id == first || id in rest;
    if rest != {} {
      var other := SomebodySawMost(w, rest, ip);
      if w.flights[other].phase.tallied.value.seen > w.flights[most].phase.tallied.value.seen { most := other; }
    }
  }

  /**
   In every run: an address cannot be turned away often without being blocked. If those of its rejected
   requests that fall into the window of the last of them to count reach that request's threshold, the
   address has been blocked, however the requests overlapped.
   */
  lemma ManyRejectionsBlock(h: Hashing, steps: seq<Step>, who: set<nat>, ip: string) returns (last: nat)
    requires who != {} && TurnedAway(Exec(h, START, steps), who, ip)
    ensures var w := Exec(h, START, steps);
            && last in who
            && (|TurnedAwaySince(w, who, ip, w.flights[last].phase.tallied.value.since)| >= w.flights[last].settings.blockThreshold ==> ip in w.blocked)
  {
    var w := Exec(h, START, steps);
    AlwaysSound(h, steps);
    last := SomebodySawMost(w, who, ip);
    RecentAreCounted(h, w, who, ip, last);
  }

  function RowOf(w: World, id: nat): nat {
    if id in w.flights && OwnsRow(w.flights[id].phase) then w.flights[id].phase.row else 0
  }

  /** Whoever counted last has counted all of them. */
  lemma RecentAreCounted(h: Hashing, w: World, who: set<nat>, ip: string, last: nat)
    requires Sound(h, w) && TurnedAway(w, who, ip) && last in who
    requires forall id :: id in who ==> w.flights[id].phase.tallied.value.seen <= w.flights[last].phase.tallied.value.seen
    ensures var tally := w.flights[last].phase.tallied.value;
            |TurnedAwaySince(w, who, ip, tally.since)| <= |MarksSince(w.log, w.marks, tally.seen, ip, tally.since)|
  {
    var tally := w.flights[last].phase.tallied.value;
    var counted := MarksSince(w.log, w.marks, tally.seen, ip, tally.since);
    var recent := TurnedAwaySince(w, who, ip, tally.since);
    forall id | id in recent
      ensures RowOf(w, id) in counted
    {
      RejectionCounts(h, w, id, ip, tally);
    }
    InjectiveImage((id: nat) => RowOf(w, id), recent, counted);
  }

  /** A rejection is among the marks counted by whoever counted no earlier. */
  lemma RejectionCounts(h: Hashing, w: World, id: nat, ip: string, tally: Tally)
    requires Sound(h, w) && TurnedAway(w, {id}, ip)
    requires var f := w.flights[id]; w.log[f.phase.row].at >= tally.since && f.phase.tallied.value.seen <= tally.seen
    ensures w.flights[id].phase.row in MarksSince(w.log, w.marks, tally.seen, ip, tally.since)
  {
    assert id in {id};
    var f := w.flights[id];
    assert FlightSound(h, w.log, w.marks, w.blocked, f);
    var k :| 0 <= k < f.phase.tallied.value.seen && k < |w.marks| && w.marks[k] == f.phase.row;
  }
}
