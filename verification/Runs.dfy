/** Runs of the whole store: every repository call, in any interleaving, by any number of
    workers, under a clock that never goes back. A worker that dies simply takes no further step. */
module Runs {
  import opened Schema
  import opened Statements

  // `issued` holds every lease token and every refund row id ever made; both are fresh UUIDs.
  datatype World = World(db: Db, clock: Instant, issued: set<Token>)

  datatype Step =
    | Tick(to: Instant)
    // bookings
    | InsertHoldStep(hold: HoldInput)
    | RescheduleStep(id: BookingId, move: RescheduleInput)
    | SweepStep(at: Instant)
    | ExpireStep(id: BookingId)
    | CancelStep(id: BookingId, cancel: CancelInput)
    | NoShowStep(id: BookingId, seeds: seq<Seed>)
    | ConfirmStep(id: BookingId, confirm: ConfirmInput)
    | PaymentStep(id: BookingId, paymentRef: Option<string>, token: Token)
    // the confirmation lease
    | AcquireStep(id: BookingId, token: Token, until: Instant)
    | RenewStep(id: BookingId, token: Token, until: Instant)
    | ReleaseStep(id: BookingId, token: Token)
    // the outbox
    | EnsureStep(id: BookingId, ensure: EnsureInput)
    | RecordStep(keys: set<OperationKey>)
    | ClaimConfirmationStep(key: OperationKey, token: Token)
    | RetryConfirmationStep(key: OperationKey, token: Token)
    | ResolveConfirmationStep(key: OperationKey, token: Token, resolution: Resolution)
    | ClaimRowStep(key: OperationKey)
    | RetryRowStep(key: OperationKey)
    | ResolveRowStep(key: OperationKey, claimedAt: Instant, resolution: Resolution)
    // refunds
    | ClaimRefundStep(id: BookingId, claim: RefundClaim)
    | ResolveRefundStep(id: BookingId, refund: Token, outcome: RefundResolution)
    | DeleteRefundStep(id: BookingId, refund: Token)
    | ReconcileRefundStep(id: BookingId, report: ProviderRefund)
    | ReconcileAndCancelStep(id: BookingId, report: ProviderRefund, cancel: CancelInput)
    | ExecuteRefundStep(id: BookingId, refund: Token)
    | RetryRefundStep(id: BookingId, refund: Token)
    | RefundedAmountStep(id: BookingId, amount: int)
    // capacity
    | SetDayOverrideStep(date: Date, capacity: int)
    | DeleteDayOverrideStep(date: Date)
    | SetCapacityDefaultStep(date: Date, capacity: int)
    | DeleteCapacityDefaultStep(date: Date)

  ghost function Effect(db: Db, clock: Instant, step: Step): Db {
    match step
    case Tick(_) => db
    case InsertHoldStep(hold) => InsertHold(db, hold).0
    case RescheduleStep(id, move) => Reschedule(db, id, move).0
    case SweepStep(at) => Sweep(db, at)
    case ExpireStep(id) => ExpireHold(db, id).0
    case CancelStep(id, cancel) => Cancel(db, id, cancel).0
    case NoShowStep(id, seeds) => MarkNoShow(db, id, {Confirmed}, seeds).0
    case ConfirmStep(id, confirm) => Confirm(db, id, confirm).0
    case PaymentStep(id, paymentRef, token) => ApplyPaymentDetails(db, id, paymentRef, token).0
    case AcquireStep(id, token, until) => AcquireLease(db, id, token, clock, until).0
    case RenewStep(id, token, until) => RenewLease(db, id, token, clock, until).0
    case ReleaseStep(id, token) => ReleaseLease(db, id, token)
    case EnsureStep(id, ensure) => EnsureConfirmationOperations(db, id, ensure)
    case RecordStep(keys) => RecordEventOperations(db, keys)
    case ClaimConfirmationStep(key, token) => ClaimConfirmation(db, key, token, clock).0
    case RetryConfirmationStep(key, token) => ClaimConfirmationForRetry(db, key, token, clock).0
    case ResolveConfirmationStep(key, token, resolution) => ResolveConfirmation(db, key, token, resolution).0
    case ClaimRowStep(key) => ClaimRow(db, key, clock).0
    case RetryRowStep(key) => ClaimRowForRetry(db, key, clock).0
    case ResolveRowStep(key, claimedAt, resolution) => ResolveRow(db, key, claimedAt, resolution).0
    case ClaimRefundStep(id, claim) => ClaimRefund(db, id, claim).0
    case ResolveRefundStep(id, refund, outcome) => ResolveRefund(db, id, refund, outcome)
    case DeleteRefundStep(id, refund) => DeleteRefund(db, id, refund)
    case ReconcileRefundStep(id, report) => ReconcileRefund(db, id, report)
    case ReconcileAndCancelStep(id, report, cancel) => ReconcileRefundAndCancel(db, id, report, cancel).0
    case ExecuteRefundStep(id, refund) => ClaimRefundExecution(db, id, refund, clock).0
    case RetryRefundStep(id, refund) => ClaimRefundExecutionForRetry(db, id, refund, clock).0
    case RefundedAmountStep(id, amount) => RecordRefundedAmount(db, id, amount)
    case SetDayOverrideStep(date, capacity) => SetDayOverride(db, date, capacity)
    case DeleteDayOverrideStep(date) => DeleteDayOverride(db, date)
    case SetCapacityDefaultStep(date, capacity) => SetCapacityDefault(db, date, capacity)
    case DeleteCapacityDefaultStep(date) => DeleteCapacityDefault(db, date)
  }

  function IssuedBy(step: Step): set<Token> {
    match step
    case AcquireStep(_, token, _) => {token}
    case ClaimRefundStep(_, claim) => {claim.id}
    case ReconcileRefundStep(_, report) => {report.id}
    case ReconcileAndCancelStep(_, report, _) => {report.id}
    case _ => {}
  }

  ghost function Next(w: World, step: Step): World {
    World(Effect(w.db, w.clock, step), if step.Tick? then step.to else w.clock, w.issued + IssuedBy(step))
  }

  // ----- which path writes which row

  // Rows drained under the confirmation lease; every other row is claimed through its own lease.
  predicate IsConfirmationOperation(key: OperationKey) {
    key.family == CalendarCreate || key.family == EmailConfirmation || key.family == Oversell
    || (key.family == Email && key.event == Some(BookingConfirmed))
  }

  predicate IsCancellationSeed(s: Seed) {
    || (s.family == CalendarDelete && s.event.None?)
    || ((s.family == Email || s.family == Hook || s.family == Webhook)
        && (s.event == Some(CancelledByCustomer) || s.event == Some(CancelledByOperator)))
  }

  predicate IsNoShowSeed(s: Seed) {
    (s.family == Email || s.family == Hook || s.family == Webhook) && s.event == Some(MarkedNoShow)
  }

  predicate IsRescheduleSeed(s: Seed) {
    || (s.family == CalendarPatch && s.event.None?)
    || ((s.family == Email || s.family == Hook || s.family == Webhook) && s.event == Some(Rescheduled))
  }

  predicate IsConfirmedEventSeed(s: Seed) {
    (s.family == Hook || s.family == Webhook) && s.event == Some(BookingConfirmed)
  }

  predicate IsOccurrenceKey(key: OperationKey) {
    && (key.family == Email || key.family == Hook || key.family == Webhook)
    && (key.event == Some(Reminder) || key.event == Some(DisputeCreated))
    && key.discriminator.Occurrence?
  }

  predicate CancelLegal(cancel: CancelInput) {
    && cancel.expectedStatusIn <= {Hold, Confirmed, Expired}
    && forall s | s in cancel.seeds :: IsCancellationSeed(s)
  }

  // What the handlers, the confirmation path and the reconciler pass in. A capacity statement
  // carries the instant its request read, which may lie behind the clock by the time it runs.
  predicate Legal(w: World, step: Step) {
    && IssuedBy(step) !! w.issued
    && match step
       case Tick(to) => w.clock <= to
       case InsertHoldStep(hold) => hold.Valid() && hold.createdAt <= w.clock
       case RescheduleStep(_, move) =>
         && move.Valid() && move.now <= w.clock && move.expectedStatus == Confirmed
         && forall s | s in move.seeds :: IsRescheduleSeed(s)
       case SweepStep(at) => at <= w.clock
       case CancelStep(_, cancel) => CancelLegal(cancel)
       case NoShowStep(_, seeds) => forall s | s in seeds :: IsNoShowSeed(s)
       case ConfirmStep(_, confirm) =>
         && confirm.expectedStatusIn <= {Hold, Expired}
         && forall s | s in confirm.eventSeeds :: IsConfirmedEventSeed(s)
       case EnsureStep(_, ensure) => forall s | s in ensure.eventSeeds :: IsConfirmedEventSeed(s)
       case RecordStep(keys) => forall k | k in keys :: IsOccurrenceKey(k)
       case ClaimConfirmationStep(key, _) => IsConfirmationOperation(key)
       case RetryConfirmationStep(key, _) => IsConfirmationOperation(key)
       case ResolveConfirmationStep(key, _, resolution) => IsConfirmationOperation(key) && Outcome(resolution.status)
       case ClaimRowStep(key) => !IsConfirmationOperation(key)
       case RetryRowStep(key) => !IsConfirmationOperation(key)
       case ResolveRowStep(key, _, resolution) => !IsConfirmationOperation(key) && Outcome(resolution.status)
       case ResolveRefundStep(_, _, outcome) => RefundOutcome(outcome.status)
       case ReconcileAndCancelStep(_, _, cancel) => CancelLegal(cancel)
       case _ => true
  }

  predicate Outcome(status: OperationStatus) {
    status == Succeeded || status == Failed || status == Abandoned
  }

  predicate RefundOutcome(status: RefundStatus) {
    status == RefundSucceeded || status == RefundFailed || status == RefundAbandoned
  }

  // ----- whole runs

  ghost predicate LegalRun(w: World, steps: seq<Step>)
    decreases |steps|
  {
    steps == [] || (Legal(w, steps[0]) && LegalRun(Next(w, steps[0]), steps[1..]))
  }

  ghost function Run(w: World, steps: seq<Step>): World
    decreases |steps|
  {
    if steps == [] then w else Run(Next(w, steps[0]), steps[1..])
  }

  lemma RunOfOne(w: World, a: Step)
    requires Legal(w, a)
    ensures LegalRun(w, [a]) && Run(w, [a]) == Next(w, a)
  {
    assert [a][1..] == [];
  }

  lemma RunOfTwo(w: World, a: Step, b: Step)
    requires Legal(w, a) && Legal(Next(w, a), b)
    ensures LegalRun(w, [a, b]) && Run(w, [a, b]) == Next(Next(w, a), b)
  {
    RunOfOne(Next(w, a), b);
    assert [a, b][1..] == [b];
  }

  lemma RunOfThree(w: World, a: Step, b: Step, c: Step)
    requires Legal(w, a) && Legal(Next(w, a), b) && Legal(Next(Next(w, a), b), c)
    ensures LegalRun(w, [a, b, c]) && Run(w, [a, b, c]) == Next(Next(Next(w, a), b), c)
  {
    RunOfTwo(Next(w, a), b, c);
    assert [a, b, c][1..] == [b, c];
  }

  lemma {:induction false} RunsCompose(w: World, first: seq<Step>, second: seq<Step>)
    requires LegalRun(w, first) && LegalRun(Run(w, first), second)
    ensures LegalRun(w, first + second) && Run(w, first + second) == Run(Run(w, first), second)
    decreases |first|
  {
    if first == [] {
      assert first + second == second;
    } else {
      RunsCompose(Next(w, first[0]), first[1..], second);
      assert (first + second)[1..] == first[1..] + second;
    }
  }

  lemma ClockNeverGoesBack(w: World, step: Step)
    requires Legal(w, step)
    ensures w.clock <= Next(w, step).clock
  {
  }

  lemma {:induction false} ClockOnlyAdvances(w: World, steps: seq<Step>)
    requires LegalRun(w, steps)
    ensures w.clock <= Run(w, steps).clock
    decreases |steps|
  {
    if steps != [] {
      ClockNeverGoesBack(w, steps[0]);
      ClockOnlyAdvances(Next(w, steps[0]), steps[1..]);
    }
  }

  // A store nobody has written yet.
  const EMPTY := World(Db([], map[], map[], map[], map[]), 0, {})
}
