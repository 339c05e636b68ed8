/** Operational incidents and the alerts sent about them: one row, its revisions, and claimants
    that may be slow, superseded or dead. */
module Alerts {
  import opened Schema

  datatype IncidentStatus = Open | Resolved
  datatype Severity = Delayed | ActionRequired
  datatype ResolutionKind = Automatic | Manual

  datatype Incident = Incident(
    status: IncidentStatus,
    severity: Severity,
    sourceUpdatedAt: Instant,
    resolutionKind: Option<ResolutionKind>,
    alertRevision: nat,
    alertedRevision: nat,
    alertAttemptCount: nat,
    claimToken: Option<Token>,
    claimUntil: Option<Instant>,
    nextAttemptAt: Option<Instant>)

  datatype Detection = Detection(severity: Severity, sourceUpdatedAt: Instant, escalate: bool)

  // ----- the statements

  function Upsert(row: Option<Incident>, d: Detection): Incident {
    match row
    case None => Incident(Open, d.severity, d.sourceUpdatedAt, None, 1, 0, 0, None, None, None)
    case Some(i) =>
      i.(status := Open, severity := d.severity, sourceUpdatedAt := d.sourceUpdatedAt, resolutionKind := None,
         alertRevision := if i.status == Resolved || d.escalate then i.alertRevision + 1 else i.alertRevision)
  }

  function Resolve(row: Option<Incident>, kind: ResolutionKind): Option<Incident> {
    if row.Some? && row.value.status == Open
    then Some(row.value.(status := Resolved, resolutionKind := Some(kind))) else row
  }

  predicate Deliverable(i: Incident) {
    i.status == Open && i.alertedRevision < i.alertRevision
  }

  predicate AlertClaimable(i: Incident, now: Instant) {
    && Deliverable(i)
    && (i.nextAttemptAt.None? || i.nextAttemptAt.value <= now)
    && (i.claimUntil.None? || i.claimUntil.value < now)
  }

  // The answer carries the revision the claimant is about to announce.
  function ClaimAlert(row: Option<Incident>, token: Token, now: Instant, until: Instant): (Option<Incident>, Option<nat>) {
    if row.Some? && AlertClaimable(row.value, now)
    then (Some(row.value.(claimToken := Some(token), claimUntil := Some(until), alertAttemptCount := row.value.alertAttemptCount + 1)),
          Some(row.value.alertRevision))
    else (row, None)
  }

  predicate HoldsClaim(row: Option<Incident>, token: Token) {
    row.Some? && row.value.claimToken == Some(token)
  }

  function AlertSucceeded(row: Option<Incident>, token: Token, revision: nat): Option<Incident> {
    if HoldsClaim(row, token)
    then Some(row.value.(alertedRevision := revision, claimToken := None, claimUntil := None, nextAttemptAt := None))
    else row
  }

  function AlertFailed(row: Option<Incident>, token: Token, nextAttemptAt: Instant): Option<Incident> {
    if HoldsClaim(row, token)
    then Some(row.value.(claimToken := None, claimUntil := None, nextAttemptAt := Some(nextAttemptAt)))
    else row
  }

  class IncidentRow {
    var row: Option<Incident>

    constructor ()
      ensures row == None
    {
      row := None;
    }

    method UpsertOpenIncident(d: Detection)
      modifies this
      ensures row == Some(Upsert(old(row), d))
    {
      if row.None? {
        row := Some(Incident(Open, d.severity, d.sourceUpdatedAt, None, 1, 0, 0, None, None, None));
      } else {
        var bump := row.value.status == Resolved || d.escalate;
        row := Some(row.value.(status := Open, severity := d.severity, sourceUpdatedAt := d.sourceUpdatedAt, resolutionKind := None));
        if bump { row := Some(row.value.(alertRevision := row.value.alertRevision + 1)); }
      }
    }

    method ResolveIncident(kind: ResolutionKind) returns (changed: bool)
      modifies this
      ensures row == Resolve(old(row), kind) && (changed <==> row != old(row))
    {
      changed := row.Some? && row.value.status == Open;
      if changed { row := Some(row.value.(status := Resolved, resolutionKind := Some(kind))); }
    }

    method ClaimIncidentAlert(token: Token, now: Instant, until: Instant) returns (revision: Option<nat>)
      modifies this
      ensures (row, revision) == ClaimAlert(old(row), token, now, until)
    {
      revision := None;
      if row.Some? && row.value.status == Open && row.value.alertedRevision < row.value.alertRevision
         && (row.value.nextAttemptAt.None? || row.value.nextAttemptAt.value <= now)
         && (row.value.claimUntil.None? || row.value.claimUntil.value < now) {
        row := Some(row.value.(claimToken := Some(token), claimUntil := Some(until), alertAttemptCount := row.value.alertAttemptCount + 1));
        revision := Some(row.value.alertRevision);
      }
    }

    method ResolveIncidentAlertSuccess(token: Token, revision: nat)
      modifies this
      ensures row == AlertSucceeded(old(row), token, revision)
    {
      if row.Some? && row.value.claimToken == Some(token) {
        row := Some(row.value.(alertedRevision := revision, claimToken := None, claimUntil := None, nextAttemptAt := None));
      }
    }

    method ResolveIncidentAlertFailure(token: Token, nextAttemptAt: Instant)
      modifies this
      ensures row == AlertFailed(old(row), token, nextAttemptAt)
    {
      if row.Some? && row.value.claimToken == Some(token) {
        row := Some(row.value.(claimToken := None, claimUntil := None, nextAttemptAt := Some(nextAttemptAt)));
      }
    }
  }

  // ----- runs

  // `claims` remembers the revision each claim that was ever won set out to announce.
  datatype State = State(row: Option<Incident>, clock: Instant, claims: map<Token, nat>)

  datatype Step =
    | Tick(to: Instant)
    | Detect(detection: Detection)
    | Settle(kind: ResolutionKind)
    | Claim(token: Token, until: Instant)
    | Success(token: Token)
    | Failure(token: Token, retryAt: Instant)

  predicate Legal(s: State, step: Step) {
    match step
    case Tick(to) => s.clock <= to
    case Claim(token, _) => token !in s.claims
    case Success(token) => token in s.claims
    case Failure(token, _) => token in s.claims
    case _ => true
  }

  function Next(s: State, step: Step): State
    requires Legal(s, step)
  {
    match step
    case Tick(to) => s.(clock := to)
    case Detect(d) => s.(row := Some(Upsert(s.row, d)))
    case Settle(kind) => s.(row := Resolve(s.row, kind))
    case Claim(token, until) =>
      var (row, revision) := ClaimAlert(s.row, token, s.clock, until);
      s.(row := row, claims := if revision.Some? then s.claims[token := revision.value] else s.claims)
    case Success(token) => s.(row := AlertSucceeded(s.row, token, s.claims[token]))
    case Failure(token, retryAt) => s.(row := AlertFailed(s.row, token, retryAt))
  }

  predicate Sound(s: State) {
    match s.row
    case None => s.claims == map[]
    case Some(i) =>
      && i.alertedRevision <= i.alertRevision
      && (forall t | t in s.claims :: s.claims[t] <= i.alertRevision)
      && (i.claimToken.Some? ==> i.claimToken.value in s.claims && i.alertedRevision < s.claims[i.claimToken.value])
  }

  predicate Grows(before: Option<Incident>, after: Option<Incident>) {
    before.Some? ==>
      && after.Some?
      && before.value.alertRevision <= after.value.alertRevision
      && before.value.alertedRevision <= after.value.alertedRevision
  }

  lemma StepKeepsSound(s: State, step: Step)
    requires Sound(s) && Legal(s, step)
    ensures Sound(Next(s, step)) && Grows(s.row, Next(s, step).row)
  {
  }

  predicate LegalRun(s: State, steps: seq<Step>)
    decreases |steps|
  {
    steps == [] || (Legal(s, steps[0]) && LegalRun(Next(s, steps[0]), steps[1..]))
  }

  function Run(s: State, steps: seq<Step>): State
    requires LegalRun(s, steps)
    decreases |steps|
  {
    if steps == [] then s else Run(Next(s, steps[0]), steps[1..])
  }

  // On every run the announced revision stays at or below the current one, and neither goes back.
  lemma {:induction false} RevisionsOnlyGrow(s: State, steps: seq<Step>)
    requires Sound(s) && LegalRun(s, steps)
    ensures Sound(Run(s, steps)) && Grows(s.row, Run(s, steps).row)
    decreases |steps|
  {
    if steps != [] {
      StepKeepsSound(s, steps[0]);
      RevisionsOnlyGrow(Next(s, steps[0]), steps[1..]);
    }
  }

  // ----- a reopen or an escalation is never swallowed

  // The detection opens, reopens or escalates.
  predicate Raises(row: Option<Incident>, d: Detection) {
    row.None? || row.value.status == Resolved || d.escalate
  }

  // Only claims that existed already report success in this run.
  predicate OnlyEarlierSuccesses(steps: seq<Step>, claims: map<Token, nat>) {
    forall i | 0 <= i < |steps| && steps[i].Success? :: steps[i].token in claims
  }

  predicate StillOwed(s: State, revision: nat, earlier: map<Token, nat>) {
    && s.row.Some?
    && s.row.value.alertedRevision < revision <= s.row.value.alertRevision
    && (forall t | t in earlier :: t in s.claims && s.claims[t] < revision)
  }

  lemma {:induction false} EarlierSuccessesDoNotAnnounce(s: State, steps: seq<Step>, revision: nat, earlier: map<Token, nat>)
    requires Sound(s) && LegalRun(s, steps) && OnlyEarlierSuccesses(steps, earlier) && StillOwed(s, revision, earlier)
    ensures StillOwed(Run(s, steps), revision, earlier)
    decreases |steps|
  {
    if steps != [] {
      StepKeepsSound(s, steps[0]);
      assert steps[0].Success? ==> steps[0].token in earlier;
      EarlierSuccessesDoNotAnnounce(Next(s, steps[0]), steps[1..], revision, earlier);
    }
  }

  // A raise leaves the incident deliverable, and every alert already being sent may still report
  // success without ever covering it.
  lemma RaiseStaysDeliverable(s: State, d: Detection, steps: seq<Step>)
    requires Sound(s) && Raises(s.row, d)
    requires LegalRun(Next(s, Detect(d)), steps) && OnlyEarlierSuccesses(steps, s.claims)
    ensures Deliverable(Next(s, Detect(d)).row.value)
    ensures var after := Run(Next(s, Detect(d)), steps).row;
            after.Some? && after.value.alertedRevision < Next(s, Detect(d)).row.value.alertRevision
    ensures var after := Run(Next(s, Detect(d)), steps).row.value; after.status == Open ==> Deliverable(after)
  {
    var raised := Next(s, Detect(d));
    StepKeepsSound(s, Detect(d));
    EarlierSuccessesDoNotAnnounce(raised, steps, raised.row.value.alertRevision, s.claims);
  }

  // A deliverable incident is claimed by any claim late enough.
  lemma DeliverableIsEventuallyClaimed(i: Incident, token: Token, until: Instant) returns (due: Instant)
    requires Deliverable(i)
    ensures forall now | due <= now :: ClaimAlert(Some(i), token, now, until).1 == Some(i.alertRevision)
  {
    due := (if i.nextAttemptAt.Some? && 0 < i.nextAttemptAt.value then i.nextAttemptAt.value else 0)
         + (if i.claimUntil.Some? && 0 < i.claimUntil.value then i.claimUntil.value + 1 else 1);
  }

  // ----- superseded claimants

  predicate Superseded(s: State, token: Token) {
    token in s.claims && !HoldsClaim(s.row, token)
  }

  lemma {:induction false} SupersededClaimantRecordsNothing(s: State, steps: seq<Step>, token: Token, retryAt: Instant)
    requires Sound(s) && LegalRun(s, steps) && Superseded(s, token)
    ensures Superseded(Run(s, steps), token)
    ensures Next(Run(s, steps), Success(token)) == Run(s, steps)
    ensures Next(Run(s, steps), Failure(token, retryAt)) == Run(s, steps)
    decreases |steps|
  {
    if steps != [] {
      StepKeepsSound(s, steps[0]);
      SupersededClaimantRecordsNothing(Next(s, steps[0]), steps[1..], token, retryAt);
    }
  }

  // ----- projecting a source's state onto its incident

  datatype Signal = Signal(detected: bool, severity: Severity, sourceUpdatedAt: Instant)

  datatype Projection = OpenIt(escalate: bool) | UpdateIt(escalate: bool) | Skip | ResolveIt

  function ProjectIncident(signal: Signal, existing: Option<Incident>): Projection {
    if !signal.detected then (if existing.Some? && existing.value.status == Open then ResolveIt else Skip)
    else if existing.None? then OpenIt(false)
    else if existing.value.status == Resolved then
      if existing.value.resolutionKind == Some(Manual) && existing.value.sourceUpdatedAt == signal.sourceUpdatedAt then Skip
      else OpenIt(false)
    else UpdateIt(existing.value.severity == Delayed && signal.severity == ActionRequired)
  }

  function ApplyProjection(signal: Signal, row: Option<Incident>): Option<Incident> {
    match ProjectIncident(signal, row)
    case OpenIt(escalate) => Some(Upsert(row, Detection(signal.severity, signal.sourceUpdatedAt, escalate)))
    case UpdateIt(escalate) => Some(Upsert(row, Detection(signal.severity, signal.sourceUpdatedAt, escalate)))
    case Skip => row
    case ResolveIt => Resolve(row, Automatic)
  }

  function RevisionOf(row: Option<Incident>): nat {
    if row.Some? then row.value.alertRevision else 0
  }

  // The operator hears of a source again exactly when it is new, comes back, or gets worse.
  predicate Worsens(signal: Signal, row: Option<Incident>) {
    && signal.detected
    && (row.None?
        || (row.value.status == Resolved && !(row.value.resolutionKind == Some(Manual) && row.value.sourceUpdatedAt == signal.sourceUpdatedAt))
        || (row.value.status == Open && row.value.severity == Delayed && signal.severity == ActionRequired))
  }

  lemma AlertsExactlyWhenItWorsens(signal: Signal, row: Option<Incident>)
    ensures RevisionOf(ApplyProjection(signal, row)) == RevisionOf(row) + if Worsens(signal, row) then 1 else 0
    ensures !Worsens(signal, ApplyProjection(signal, row))
  {
  }

  // After a scan the incident says what the source says: open at its severity and fingerprint while it is
  // detected, unless an operator closed that very state; closed by the sweep once it has recovered.
  lemma IncidentFollowsItsSource(signal: Signal, row: Option<Incident>)
    ensures var after := ApplyProjection(signal, row);
            var closedByHand := row.Some? && row.value.status == Resolved && row.value.resolutionKind == Some(Manual)
                                && row.value.sourceUpdatedAt == signal.sourceUpdatedAt;
            && (signal.detected && !closedByHand ==>
                  after.Some? && after.value.status == Open && after.value.severity == signal.severity
                  && after.value.sourceUpdatedAt == signal.sourceUpdatedAt && after.value.resolutionKind.None?)
            && (signal.detected && closedByHand ==> after == row)
            && (!signal.detected && row.Some? && row.value.status == Open ==>
                  after == Some(row.value.(status := Resolved, resolutionKind := Some(Automatic))))
            && (!signal.detected && (row.None? || row.value.status == Resolved) ==> after == row)
    ensures row.Some? ==>
              var after := ApplyProjection(signal, row).value;
              after.alertedRevision == row.value.alertedRevision && after.claimToken == row.value.claimToken
              && after.claimUntil == row.value.claimUntil && after.nextAttemptAt == row.value.nextAttemptAt
  {
  }

  // Scanning an unchanged source again, however often, alerts no more and changes nothing.
  function Rescan(signal: Signal, row: Option<Incident>, times: nat): Option<Incident> {
    if times == 0 then row else ApplyProjection(signal, Rescan(signal, row, times - 1))
  }

  lemma {:induction false} RescanningIsIdempotent(signal: Signal, row: Option<Incident>, times: nat)
    requires 1 <= times
    ensures Rescan(signal, row, times) == ApplyProjection(signal, row)
  {
    if times == 1 {
      assert Rescan(signal, row, 0) == row;
    } else {
      RescanningIsIdempotent(signal, row, times - 1);
    }
  }

  // A manual resolution holds for as long as the source's fingerprint does.
  lemma ManualResolutionHolds(signal: Signal, row: Option<Incident>)
    requires row.Some? && row.value.status == Open && row.value.sourceUpdatedAt == signal.sourceUpdatedAt
    ensures ApplyProjection(signal, Resolve(row, Manual)) == Resolve(row, Manual)
    ensures signal.detected ==> forall later: Instant | later != signal.sourceUpdatedAt ::
              ApplyProjection(signal.(sourceUpdatedAt := later), Resolve(row, Manual)).value.status == Open
  {
  }
}
