/** The refund ledger: what every run keeps of a refund row, and when the scheduled path moves money. */
module RefundLedger {
  import opened Schema
  import opened Statements
  import opened Runs
  import opened Progress

  // The table's CHECK, and: a row whose execution was claimed is never merely requested again.
  predicate RowSound(row: Refund) {
    && DecisionAllowed(row.choice, row.requestedAmount)
    && (0 < row.attemptCount ==> row.status != Requested)
  }

  // Every row satisfies the table's rules, and its id was made once, for this booking.
  ghost predicate Sound(w: World) {
    && (forall b | b in w.db.refunds :: RowSound(w.db.refunds[b]) && w.db.refunds[b].id in w.issued)
    && (forall b, c | b in w.db.refunds && c in w.db.refunds && b != c :: w.db.refunds[b].id != w.db.refunds[c].id)
  }

  predicate WholeRefundSettled(row: Refund) {
    row.status == RefundSucceeded && row.choice == Full
  }

  predicate SameDecision(row: Refund, row': Refund) {
    row'.choice == row.choice && row'.requestedAmount == row.requestedAmount && row'.paymentIntent == row.paymentIntent
  }

  // What one step may do to a booking's refund row.
  predicate RowStep(row: Refund, row': Refund) {
    && row'.id == row.id
    && row.attemptCount <= row'.attemptCount
    && (WholeRefundSettled(row) ==> row' == row)
    && (row.status == RefundSucceeded ==> row' == row || WholeRefundSettled(row'))
    && (SameDecision(row, row') || WholeRefundSettled(row'))
  }

  predicate WritesRefunds(step: Step) {
    step.ClaimRefundStep? || step.ResolveRefundStep? || step.DeleteRefundStep? || step.ReconcileRefundStep?
    || step.ReconcileAndCancelStep? || step.ExecuteRefundStep? || step.RetryRefundStep?
  }

  lemma BookingStepsLeaveRefunds(w: World, step: Step)
    requires step.InsertHoldStep? || step.RescheduleStep? || step.SweepStep? || step.ExpireStep? || step.CancelStep?
          || step.NoShowStep? || step.ConfirmStep? || step.PaymentStep? || step.RefundedAmountStep?
    ensures Next(w, step).db.refunds == w.db.refunds
  {
  }

  lemma OutboxStepsLeaveRefunds(w: World, step: Step)
    requires step.EnsureStep? || step.RecordStep? || step.ClaimConfirmationStep? || step.RetryConfirmationStep?
          || step.ResolveConfirmationStep? || step.ClaimRowStep? || step.RetryRowStep? || step.ResolveRowStep?
    ensures Next(w, step).db.refunds == w.db.refunds
  {
  }

  lemma LeaseAndCapacityStepsLeaveRefunds(w: World, step: Step)
    requires step.Tick? || step.AcquireStep? || step.RenewStep? || step.ReleaseStep? || step.SetDayOverrideStep?
          || step.DeleteDayOverrideStep? || step.SetCapacityDefaultStep? || step.DeleteCapacityDefaultStep?
    ensures Next(w, step).db.refunds == w.db.refunds
  {
  }

  lemma OthersLeaveRefunds(w: World, step: Step)
    requires !WritesRefunds(step)
    ensures Next(w, step).db.refunds == w.db.refunds
  {
    if step.EnsureStep? || step.RecordStep? || step.ClaimConfirmationStep? || step.RetryConfirmationStep?
       || step.ResolveConfirmationStep? || step.ClaimRowStep? || step.RetryRowStep? || step.ResolveRowStep? {
      OutboxStepsLeaveRefunds(w, step);
    } else if step.Tick? || step.AcquireStep? || step.RenewStep? || step.ReleaseStep? || step.SetDayOverrideStep?
              || step.DeleteDayOverrideStep? || step.SetCapacityDefaultStep? || step.DeleteCapacityDefaultStep? {
      LeaseAndCapacityStepsLeaveRefunds(w, step);
    } else {
      BookingStepsLeaveRefunds(w, step);
    }
  }

  // A row survives unless it is deleted while still only requested; a row that appears is new.
  ghost predicate LedgerStep(w: World, w': World) {
    && (forall b | b in w.db.refunds && b in w'.db.refunds && w'.db.refunds[b].id == w.db.refunds[b].id ::
          RowStep(w.db.refunds[b], w'.db.refunds[b]))
    && (forall b | b in w.db.refunds && b !in w'.db.refunds :: w.db.refunds[b].status == Requested)
    && (forall b | b in w.db.refunds && b in w'.db.refunds :: w'.db.refunds[b].id == w.db.refunds[b].id)
    && (forall b | b !in w.db.refunds && b in w'.db.refunds :: w'.db.refunds[b].id !in w.issued)
    && w.issued <= w'.issued
  }

  lemma EveryStepKeepsTheLedger(w: World, step: Step)
    requires Sound(w) && Legal(w, step)
    ensures Sound(Next(w, step)) && LedgerStep(w, Next(w, step))
  {
    if !WritesRefunds(step) {
      OthersLeaveRefunds(w, step);
    } else if step.ClaimRefundStep? {
      ClaimKeepsTheLedger(w, step.id, step.claim);
    } else if step.ReconcileRefundStep? {
      CorrectionKeepsTheLedger(w, Next(w, step), step.id, step.report);
    } else if step.ReconcileAndCancelStep? {
      CorrectionKeepsTheLedger(w, Next(w, step), step.id, step.report);
    } else if step.ResolveRefundStep? {
      ResolveKeepsTheLedger(w, step.id, step.refund, step.outcome);
    } else if step.DeleteRefundStep? {
      DeleteKeepsTheLedger(w, step.id, step.refund);
    } else {
      ExecutionKeepsTheLedger(w, step);
    }
  }

  // One row rewritten, or one new row.
  lemma OneRowWritten(w: World, w': World, b: BookingId, row: Refund)
    requires Sound(w) && w.issued <= w'.issued && w'.db.refunds == w.db.refunds[b := row]
    requires RowSound(row) && row.id in w'.issued
    requires if b in w.db.refunds then RowStep(w.db.refunds[b], row) else row.id !in w.issued
    ensures Sound(w') && LedgerStep(w, w')
  {
  }

  lemma ClaimKeepsTheLedger(w: World, id: BookingId, claim: RefundClaim)
    requires Sound(w) && Legal(w, ClaimRefundStep(id, claim))
    ensures Sound(Next(w, ClaimRefundStep(id, claim))) && LedgerStep(w, Next(w, ClaimRefundStep(id, claim)))
  {
    assert claim.id in IssuedBy(ClaimRefundStep(id, claim));
    if ClaimRefund(w.db, id, claim).1 {
      OneRowWritten(w, Next(w, ClaimRefundStep(id, claim)), id, ClaimRefund(w.db, id, claim).0.refunds[id]);
    }
  }

  lemma CorrectionKeepsTheLedger(w: World, w': World, id: BookingId, report: ProviderRefund)
    requires Sound(w) && report.id !in w.issued && w'.issued == w.issued + {report.id}
    requires w'.db.refunds == ReconcileRefund(w.db, id, report).refunds
    ensures Sound(w') && LedgerStep(w, w')
  {
    OneRowWritten(w, w', id, ReconcileRefund(w.db, id, report).refunds[id]);
  }

  lemma ResolveKeepsTheLedger(w: World, id: BookingId, refund: Token, outcome: RefundResolution)
    requires Sound(w) && Legal(w, ResolveRefundStep(id, refund, outcome))
    ensures Sound(Next(w, ResolveRefundStep(id, refund, outcome)))
    ensures LedgerStep(w, Next(w, ResolveRefundStep(id, refund, outcome)))
  {
    if RefundRowIs(w.db, id, refund) && w.db.refunds[id].status != RefundSucceeded {
      OneRowWritten(w, Next(w, ResolveRefundStep(id, refund, outcome)), id, ResolvedRefund(w.db.refunds[id], outcome));
    }
  }

  lemma DeleteKeepsTheLedger(w: World, id: BookingId, refund: Token)
    requires Sound(w)
    ensures Sound(Next(w, DeleteRefundStep(id, refund))) && LedgerStep(w, Next(w, DeleteRefundStep(id, refund)))
  {
    RowDeleted(w, Next(w, DeleteRefundStep(id, refund)), id);
  }

  // One row gone that was still only requested, or nothing changed.
  lemma RowDeleted(w: World, w': World, id: BookingId)
    requires Sound(w) && w.issued <= w'.issued
    requires w'.db.refunds == w.db.refunds
          || (id in w.db.refunds && w.db.refunds[id].status == Requested && w'.db.refunds == w.db.refunds - {id})
    ensures Sound(w') && LedgerStep(w, w')
  {
  }

  lemma ExecutionKeepsTheLedger(w: World, step: Step)
    requires Sound(w) && (step.ExecuteRefundStep? || step.RetryRefundStep?)
    ensures Sound(Next(w, step)) && LedgerStep(w, Next(w, step))
  {
    if step.id in w.db.refunds && Next(w, step).db.refunds != w.db.refunds {
      OneRowWritten(w, Next(w, step), step.id, TakeRefund(w.db, step.id, w.clock).0.refunds[step.id]);
    }
  }

  // ----- every run

  lemma {:induction false} EveryRunKeepsTheLedgerSound(w: World, steps: seq<Step>)
    requires Sound(w) && LegalRun(w, steps)
    ensures Sound(Run(w, steps))
    decreases |steps|
  {
    if steps != [] {
      EveryStepKeepsTheLedger(w, steps[0]);
      EveryRunKeepsTheLedgerSound(Next(w, steps[0]), steps[1..]);
    }
  }

  // Once an execution of it was claimed, a refund row is there for good.
  lemma {:induction false} ClaimedRowIsNeverDeleted(w: World, steps: seq<Step>, b: BookingId)
    requires Sound(w) && LegalRun(w, steps)
    requires b in w.db.refunds && 0 < w.db.refunds[b].attemptCount
    ensures b in Run(w, steps).db.refunds && Run(w, steps).db.refunds[b].id == w.db.refunds[b].id
    ensures w.db.refunds[b].attemptCount <= Run(w, steps).db.refunds[b].attemptCount
    decreases |steps|
  {
    if steps != [] {
      EveryStepKeepsTheLedger(w, steps[0]);
      ClaimedRowIsNeverDeleted(Next(w, steps[0]), steps[1..], b);
    }
  }

  // A whole refund that succeeded keeps its row under every later step, the provider's own
  // correction included.
  lemma {:induction false} SettledWholeRefundIsKept(w: World, steps: seq<Step>, b: BookingId)
    requires Sound(w) && LegalRun(w, steps)
    requires b in w.db.refunds && WholeRefundSettled(w.db.refunds[b])
    ensures b in Run(w, steps).db.refunds && Run(w, steps).db.refunds[b] == w.db.refunds[b]
    decreases |steps|
  {
    if steps != [] {
      EveryStepKeepsTheLedger(w, steps[0]);
      SettledWholeRefundIsKept(Next(w, steps[0]), steps[1..], b);
    }
  }

  // ----- executions

  // An execution of the booking's refund that was granted.
  ghost predicate ExecutionGranted(w: World, step: Step, id: BookingId) {
    || (step.ExecuteRefundStep? && step.id == id && ClaimRefundExecution(w.db, id, step.refund, w.clock).1.Some?)
    || (step.RetryRefundStep? && step.id == id && ClaimRefundExecutionForRetry(w.db, id, step.refund, w.clock).1.Some?)
  }

  ghost function ExecutionsGranted(w: World, steps: seq<Step>, id: BookingId): nat
    decreases |steps|
  {
    if steps == [] then 0
    else (if ExecutionGranted(w, steps[0], id) then 1 else 0) + ExecutionsGranted(Next(w, steps[0]), steps[1..], id)
  }

  function AttemptsOf(w: World, id: BookingId): nat {
    if id in w.db.refunds then w.db.refunds[id].attemptCount else 0
  }

  lemma AttemptsFollowExecutions(w: World, step: Step, id: BookingId)
    requires Sound(w) && Legal(w, step)
    ensures AttemptsOf(Next(w, step), id) == AttemptsOf(w, id) + if ExecutionGranted(w, step, id) then 1 else 0
  {
    if !WritesRefunds(step) {
      OthersLeaveRefunds(w, step);
    } else if step.ExecuteRefundStep? || step.RetryRefundStep? {
      ExecutionsCount(w, step, id);
    } else {
      DecisionsCountNothing(w, step, id);
    }
  }

  lemma ExecutionsCount(w: World, step: Step, id: BookingId)
    requires step.ExecuteRefundStep? || step.RetryRefundStep?
    ensures AttemptsOf(Next(w, step), id) == AttemptsOf(w, id) + if ExecutionGranted(w, step, id) then 1 else 0
  {
  }

  // A row is deleted only while nothing was ever attempted on it.
  lemma DecisionsCountNothing(w: World, step: Step, id: BookingId)
    requires Sound(w) && WritesRefunds(step) && !step.ExecuteRefundStep? && !step.RetryRefundStep?
    ensures AttemptsOf(Next(w, step), id) == AttemptsOf(w, id)
  {
  }

  // On every run a refund's attempt count grows by exactly the executions granted.
  lemma {:induction false} AttemptsAreExecutionsGranted(w: World, steps: seq<Step>, id: BookingId)
    requires Sound(w) && LegalRun(w, steps)
    ensures AttemptsOf(Run(w, steps), id) == AttemptsOf(w, id) + ExecutionsGranted(w, steps, id)
    decreases |steps|
  {
    if steps != [] {
      AttemptsFollowExecutions(w, steps[0], id);
      EveryStepKeepsTheLedger(w, steps[0]);
      AttemptsAreExecutionsGranted(Next(w, steps[0]), steps[1..], id);
    }
  }

  // The sweep executes a refund that waits, or whose execution is more than five minutes old, while it is due and
  // below ten attempts; an admin executes any of them and an abandoned one as well, due or not.
  lemma ExecutionsAreGrantedExactly(db: Db, id: BookingId, refund: Token, now: Instant)
    requires id in db.refunds
    ensures var row := db.refunds[id];
            var abandonedByItsWorker := row.status == RefundInFlight && row.attemptedAt.Some? && row.attemptedAt.value + 300000 < now;
            && (ClaimRefundExecution(db, id, refund, now).1.Some? <==>
                  && row.id == refund && row.attemptCount < 10 && (row.nextAttemptAt.Some? ==> row.nextAttemptAt.value <= now)
                  && (row.status == Requested || row.status == RefundFailed || abandonedByItsWorker))
            && (ClaimRefundExecutionForRetry(db, id, refund, now).1.Some? <==>
                  && row.id == refund
                  && (row.status == Requested || row.status == RefundFailed || row.status == RefundAbandoned || abandonedByItsWorker))
    ensures ClaimRefundExecution(db, id, refund, now).1.Some? ==>
              ClaimRefundExecution(db, id, refund, now).1 == Some(db.refunds[id].attemptCount + 1)
              && ExecutedNow(db, ClaimRefundExecution(db, id, refund, now).0, id, now)
    ensures ClaimRefundExecutionForRetry(db, id, refund, now).1.Some? ==>
              ClaimRefundExecutionForRetry(db, id, refund, now).1 == Some(db.refunds[id].attemptCount + 1)
              && ExecutedNow(db, ClaimRefundExecutionForRetry(db, id, refund, now).0, id, now)
  {
  }

  // The row is in flight from now on, one attempt further and under the same decision; nothing else has changed.
  predicate ExecutedNow(db: Db, db': Db, id: BookingId, now: Instant)
    requires id in db.refunds
  {
    && db' == db.(refunds := db'.refunds) && db'.refunds.Keys == db.refunds.Keys
    && (forall b | b in db.refunds && b in db'.refunds && b != id :: db'.refunds[b] == db.refunds[b])
    && id in db'.refunds && db'.refunds[id].status == RefundInFlight && db'.refunds[id].attemptedAt == Some(now)
    && db'.refunds[id].attemptCount == db.refunds[id].attemptCount + 1
    && db'.refunds[id].id == db.refunds[id].id && SameDecision(db.refunds[id], db'.refunds[id])
  }

  // Its outcome, or a report from the provider.
  predicate Settles(step: Step, id: BookingId) {
    (step.ResolveRefundStep? || step.ReconcileRefundStep? || step.ReconcileAndCancelStep?) && step.id == id
  }

  ghost predicate NeverSettles(steps: seq<Step>, id: BookingId) {
    forall i | 0 <= i < |steps| :: !Settles(steps[i], id)
  }

  predicate InExecution(w: World, id: BookingId, since: Instant) {
    id in w.db.refunds && w.db.refunds[id].status == RefundInFlight && w.db.refunds[id].attemptedAt == Some(since)
  }

  lemma ExecutionIsLeftAlone(w: World, step: Step, id: BookingId, since: Instant)
    requires InExecution(w, id, since) && w.clock <= since + MUTATION_SIDE_EFFECT_LEASE_MS && !Settles(step, id)
    ensures !ExecutionGranted(w, step, id)
    ensures id in Next(w, step).db.refunds && Next(w, step).db.refunds[id] == w.db.refunds[id]
  {
    if !WritesRefunds(step) { OthersLeaveRefunds(w, step); }
  }

  // While one execution is under way, nobody is granted another within its five minutes.
  lemma {:induction false} ExecutionIsExclusive(w: World, steps: seq<Step>, id: BookingId, since: Instant)
    requires LegalRun(w, steps) && NeverSettles(steps, id) && InExecution(w, id, since)
    requires Run(w, steps).clock <= since + 300000
    ensures ExecutionsGranted(w, steps, id) == 0
    ensures id in Run(w, steps).db.refunds && Run(w, steps).db.refunds[id] == w.db.refunds[id]
    decreases |steps|
  {
    if steps != [] {
      ClockNeverGoesBack(w, steps[0]);
      ClockOnlyAdvances(Next(w, steps[0]), steps[1..]);
      assert !Settles(steps[0], id);
      ExecutionIsLeftAlone(w, steps[0], id, since);
      ExecutionIsExclusive(Next(w, steps[0]), steps[1..], id, since);
    }
  }

  // From a granted execution on, by the sweep or by an admin.
  lemma GrantedExecutionIsExclusive(w: World, step: Step, steps: seq<Step>, id: BookingId)
    requires ExecutionGranted(w, step, id) && LegalRun(Next(w, step), steps) && NeverSettles(steps, id)
    requires Run(Next(w, step), steps).clock <= w.clock + 300000
    ensures ExecutionsGranted(Next(w, step), steps, id) == 0
    ensures InExecution(Run(Next(w, step), steps), id, w.clock)
  {
    ExecutionIsExclusive(Next(w, step), steps, id, w.clock);
  }

  // ----- the scheduled worker

  // One scheduled attempt at one booking's refund, as far as it has got. It may stop anywhere.
  datatype Worker =
    | Idle
    | ReadBooking(id: BookingId, seen: Booking)
    | ReadRow(id: BookingId, seen: Booking, row: Refund)
    | LostCancellation(id: BookingId, row: Refund)
    | Gated(id: BookingId, row: Refund)
    | Claimed(id: BookingId, row: Refund, attempt: nat)
    | Asking(id: BookingId, row: Refund, attempt: nat, amount: int)
    | Paid(id: BookingId, row: Refund, amount: int)
    | Counted(id: BookingId, row: Refund, amount: int)

  datatype System = System(w: World, worker: Worker)

  // What the worker does next, with the provider's answer where it asks for one.
  datatype Move =
    | Elsewhere(step: Step)          // any other step of any other worker
    | LoadBooking(id: BookingId)
    | LoadRow
    | PassGate(seeds: seq<Seed>)     // the booking as read, or the cancellation's compare-and-set
    | RereadAndDelete                // after losing it
    | ClaimExecution
    | Decide                         // what to ask the provider for, or how the row ends without it
    | CallProvider(answer: ProviderAnswer)
    | RecordAmount                   // the booking's refunded total, first
    | RecordOutcome(stripeRefundId: string)
    | Crash

  datatype ProviderAnswer = Refunded(amount: int) | TryLater | Refused

  // The amount an attempt moves; None when there is nothing the provider can be asked.
  function AmountOf(row: Refund, booking: Booking): Option<int> {
    if row.choice == NoRefund || row.paymentIntent.None? then None
    else if row.choice == Partial then row.requestedAmount
    else Some(booking.priceMinor)
  }

  function NextAttemptAt(now: Instant, attempt: nat): Instant {
    now + 60000 * (if attempt <= 1 then 5 else if attempt == 2 then 10 else if attempt == 3 then 20 else if attempt == 4 then 40 else 60)
  }

  function FailureOf(now: Instant, attempt: nat, permanent: bool): RefundResolution {
    if permanent || SIDE_EFFECT_MAX_ATTEMPTS <= attempt
    then RefundResolution(RefundAbandoned, None, None, now, None)
    else RefundResolution(RefundFailed, None, None, now, Some(NextAttemptAt(now, attempt)))
  }

  predicate Enabled(s: System, move: Move) {
    match move
    case Elsewhere(step) => Legal(s.w, step)
    case LoadBooking(id) => s.worker.Idle? && id < |s.w.db.bookings|
    case LoadRow => s.worker.ReadBooking?
    case PassGate(seeds) => s.worker.ReadRow? && forall d | d in seeds :: IsCancellationSeed(d)
    case RereadAndDelete => s.worker.LostCancellation?
    case ClaimExecution => s.worker.Gated?
    case Decide => s.worker.Claimed?
    case CallProvider(answer) => s.worker.Asking?
    case RecordAmount => s.worker.Paid?
    case RecordOutcome(_) => s.worker.Counted?
    case Crash => true
  }

  predicate GateOpens(s: System)
    requires s.worker.ReadRow?
  {
    s.worker.row.status != RefundSucceeded && s.worker.row.status != RefundAbandoned && s.worker.seen.status == Cancelled
  }

  predicate GateAsks(s: System)
    requires s.worker.ReadRow?
  {
    s.worker.row.status == Requested && s.worker.seen.status == Confirmed
  }

  ghost function GateStep(s: System, seeds: seq<Seed>): Step
    requires s.worker.ReadRow?
  {
    CancelStep(s.worker.id, CancelInput({Confirmed}, Some(s.worker.seen.startsAt), seeds))
  }

  ghost function Act(s: System, move: Move): System
    requires Enabled(s, move)
  {
    match move
    case Elsewhere(step) => System(Next(s.w, step), s.worker)
    case LoadBooking(id) => s.(worker := ReadBooking(id, s.w.db.bookings[id]))
    case LoadRow =>
      if s.worker.id in s.w.db.refunds
      then s.(worker := ReadRow(s.worker.id, s.worker.seen, s.w.db.refunds[s.worker.id])) else s.(worker := Idle)
    case PassGate(seeds) =>
      if GateOpens(s) then s.(worker := Gated(s.worker.id, s.worker.row))
      else if !GateAsks(s) then s.(worker := Idle)
      else
        var won := Cancel(s.w.db, s.worker.id, CancelInput({Confirmed}, Some(s.worker.seen.startsAt), seeds)).1;
        System(Next(s.w, GateStep(s, seeds)),
               if won then Gated(s.worker.id, s.worker.row) else LostCancellation(s.worker.id, s.worker.row))
    case RereadAndDelete =>
      if s.worker.id < |s.w.db.bookings| && s.w.db.bookings[s.worker.id].status == Cancelled
      then s.(worker := Gated(s.worker.id, s.worker.row))
      else System(Next(s.w, DeleteRefundStep(s.worker.id, s.worker.row.id)), Idle)
    case ClaimExecution =>
      var attempt := ClaimRefundExecution(s.w.db, s.worker.id, s.worker.row.id, s.w.clock).1;
      System(Next(s.w, ExecuteRefundStep(s.worker.id, s.worker.row.id)),
             if attempt.Some? then Claimed(s.worker.id, s.worker.row, attempt.value) else Idle)
    case Decide =>
      if CallsProvider(s)
      then s.(worker := Asking(s.worker.id, s.worker.row, s.worker.attempt,
                               AmountOf(s.worker.row, s.w.db.bookings[s.worker.id]).value))
      else System(Next(s.w, WithoutProvider(s)), Idle)
    case CallProvider(answer) =>
      if answer.Refunded? then s.(worker := Paid(s.worker.id, s.worker.row, answer.amount))
      else
        System(Next(s.w, ResolveRefundStep(s.worker.id, s.worker.row.id, FailureOf(s.w.clock, s.worker.attempt, answer.Refused?))), Idle)
    case RecordAmount =>
      System(Next(s.w, RefundedAmountStep(s.worker.id, s.worker.amount)), Counted(s.worker.id, s.worker.row, s.worker.amount))
    case RecordOutcome(stripeRefundId) =>
      System(Next(s.w, ResolveRefundStep(s.worker.id, s.worker.row.id,
                    RefundResolution(RefundSucceeded, Some(stripeRefundId), Some(s.worker.amount), s.w.clock, None))), Idle)
    case Crash => s.(worker := Idle)
  }

  // The provider is asked only when the decision and the payment reference name an amount.
  predicate CallsProvider(s: System)
    requires s.worker.Claimed?
  {
    s.worker.id < |s.w.db.bookings| && AmountOf(s.worker.row, s.w.db.bookings[s.worker.id]).Some?
  }

  function WithoutProvider(s: System): Step
    requires s.worker.Claimed?
  {
    var status := if s.worker.row.choice == NoRefund then RefundSucceeded else RefundFailed;
    ResolveRefundStep(s.worker.id, s.worker.row.id, RefundResolution(status, None, None, s.w.clock, None))
  }

  // ----- what the worker knows stays true whatever happens around it

  // The decision the worker read still stands, or the provider has since settled the whole refund.
  ghost predicate DecisionStands(w: World, id: BookingId, row: Refund) {
    row.id in w.issued && RowSound(row)
    && (RefundRowIs(w.db, id, row.id) ==> SameDecision(row, w.db.refunds[id]) || WholeRefundSettled(w.db.refunds[id]))
  }

  predicate StoredCancelled(w: World, id: BookingId) {
    id < |w.db.bookings| && w.db.bookings[id].status == Cancelled
  }

  // A partial decision moves the amount it names, a full one the booking's price, any other nothing.
  predicate AskedAsDecided(w: World, id: BookingId, row: Refund, amount: int) {
    && id < |w.db.bookings| && row.paymentIntent.Some?
    && (row.choice == Partial || row.choice == Full)
    && (row.choice == Partial ==> row.requestedAmount == Some(amount) && 0 < amount)
    && (row.choice == Full ==> amount == w.db.bookings[id].priceMinor)
  }

  ghost predicate Known(s: System) {
    match s.worker
    case Idle => true
    case ReadBooking(id, seen) => id < |s.w.db.bookings| && (seen.status == Cancelled ==> StoredCancelled(s.w, id))
    case ReadRow(id, seen, row) =>
      id < |s.w.db.bookings| && (seen.status == Cancelled ==> StoredCancelled(s.w, id)) && DecisionStands(s.w, id, row)
    case LostCancellation(id, row) => id < |s.w.db.bookings| && DecisionStands(s.w, id, row)
    case Gated(id, row) => StoredCancelled(s.w, id) && DecisionStands(s.w, id, row)
    case Claimed(id, row, _) => StoredCancelled(s.w, id) && DecisionStands(s.w, id, row)
    case Asking(id, row, _, amount) => StoredCancelled(s.w, id) && DecisionStands(s.w, id, row) && AskedAsDecided(s.w, id, row, amount)
    case Paid(id, row, _) => StoredCancelled(s.w, id) && DecisionStands(s.w, id, row)
    case Counted(id, row, amount) =>
      StoredCancelled(s.w, id) && DecisionStands(s.w, id, row) && amount <= s.w.db.bookings[id].amountRefunded
  }

  lemma DecisionKeepsStanding(w: World, step: Step, id: BookingId, row: Refund)
    requires Sound(w) && Legal(w, step) && DecisionStands(w, id, row)
    ensures DecisionStands(Next(w, step), id, row)
  {
    EveryStepKeepsTheLedger(w, step);
    DecisionStandsAfter(w, Next(w, step), id, row);
  }

  lemma DecisionStandsAfter(w: World, w': World, id: BookingId, row: Refund)
    requires LedgerStep(w, w') && DecisionStands(w, id, row)
    ensures DecisionStands(w', id, row)
  {
    if RefundRowIs(w'.db, id, row.id) && id in w.db.refunds {
      assert RowStep(w.db.refunds[id], w'.db.refunds[id]);
    }
  }

  lemma CancelledStays(w: World, step: Step, id: BookingId)
    requires Legal(w, step) && id < |w.db.bookings|
    ensures id < |Next(w, step).db.bookings|
    ensures StoredCancelled(w, id) ==> StoredCancelled(Next(w, step), id)
  {
    EveryStepGoesForward(w, step);
  }

  lemma KnownSurvives(s: System, step: Step)
    requires Sound(s.w) && Known(s) && Legal(s.w, step)
    ensures Sound(Next(s.w, step)) && Known(s.(w := Next(s.w, step)))
  {
    EveryStepKeepsTheLedger(s.w, step);
    match s.worker
    case Idle =>
    case ReadBooking(id, _) => CancelledStays(s.w, step, id);
    case ReadRow(id, _, row) => CancelledStays(s.w, step, id); DecisionKeepsStanding(s.w, step, id, row);
    case LostCancellation(id, row) => CancelledStays(s.w, step, id); DecisionKeepsStanding(s.w, step, id, row);
    case Gated(id, row) => CancelledStays(s.w, step, id); DecisionKeepsStanding(s.w, step, id, row);
    case Claimed(id, row, _) => CancelledStays(s.w, step, id); DecisionKeepsStanding(s.w, step, id, row);
    case Asking(id, row, _, amount) =>
      CancelledStays(s.w, step, id);
      DecisionKeepsStanding(s.w, step, id, row);
      EveryStepGoesForward(s.w, step);
    case Paid(id, row, _) => CancelledStays(s.w, step, id); DecisionKeepsStanding(s.w, step, id, row);
    case Counted(id, row, _) =>
      CancelledStays(s.w, step, id);
      DecisionKeepsStanding(s.w, step, id, row);
      EveryStepGoesForward(s.w, step);
  }

  lemma WonGateIsCancelled(w: World, id: BookingId, cancel: CancelInput)
    requires Cancel(w.db, id, cancel).1
    ensures StoredCancelled(Next(w, CancelStep(id, cancel)), id)
  {
  }

  // The world step a move performs, if any.
  lemma MoveKeepsKnown(s: System, move: Move)
    requires Sound(s.w) && Known(s) && Enabled(s, move)
    ensures Sound(Act(s, move).w) && Known(Act(s, move))
  {
    match move
    case Elsewhere(step) => KnownSurvives(s, step);
    case LoadBooking(id) =>
    case LoadRow =>
    case PassGate(seeds) => GateKeepsKnown(s, seeds);
    case RereadAndDelete => EveryStepKeepsTheLedger(s.w, DeleteRefundStep(s.worker.id, s.worker.row.id));
    case ClaimExecution => KnownSurvives(s, ExecuteRefundStep(s.worker.id, s.worker.row.id));
    case Decide => DecidingKeepsKnown(s);
    case CallProvider(answer) => CallKeepsKnown(s, answer);
    case RecordAmount => CountingKeepsKnown(s);
    case RecordOutcome(stripeRefundId) => RecordingKeepsKnown(s, stripeRefundId);
    case Crash =>
  }

  lemma GateKeepsKnown(s: System, seeds: seq<Seed>)
    requires Sound(s.w) && Known(s) && Enabled(s, PassGate(seeds))
    ensures Sound(Act(s, PassGate(seeds)).w) && Known(Act(s, PassGate(seeds)))
  {
    if !GateOpens(s) && GateAsks(s) {
      var step := GateStep(s, seeds);
      KnownSurvives(s, step);
      if Cancel(s.w.db, s.worker.id, step.cancel).1 { WonGateIsCancelled(s.w, s.worker.id, step.cancel); }
    }
  }

  lemma CountingKeepsKnown(s: System)
    requires Sound(s.w) && Known(s) && s.worker.Paid?
    ensures Sound(Act(s, RecordAmount).w) && Known(Act(s, RecordAmount))
  {
    KnownSurvives(s, RefundedAmountStep(s.worker.id, s.worker.amount));
  }

  lemma RecordingKeepsKnown(s: System, stripeRefundId: string)
    requires Sound(s.w) && Known(s) && s.worker.Counted?
    ensures Sound(Act(s, RecordOutcome(stripeRefundId)).w) && Known(Act(s, RecordOutcome(stripeRefundId)))
  {
    EveryStepKeepsTheLedger(s.w, ResolveRefundStep(s.worker.id, s.worker.row.id,
      RefundResolution(RefundSucceeded, Some(stripeRefundId), Some(s.worker.amount), s.w.clock, None)));
  }

  lemma DecidingKeepsKnown(s: System)
    requires Sound(s.w) && Known(s) && s.worker.Claimed?
    ensures Sound(Act(s, Decide).w) && Known(Act(s, Decide))
  {
    if !CallsProvider(s) { EveryStepKeepsTheLedger(s.w, WithoutProvider(s)); }
  }

  lemma CallKeepsKnown(s: System, answer: ProviderAnswer)
    requires Sound(s.w) && Known(s) && s.worker.Asking?
    ensures Sound(Act(s, CallProvider(answer)).w) && Known(Act(s, CallProvider(answer)))
  {
    if !answer.Refunded? {
      EveryStepKeepsTheLedger(s.w, ResolveRefundStep(s.worker.id, s.worker.row.id, FailureOf(s.w.clock, s.worker.attempt, answer.Refused?)));
    }
  }

  ghost predicate EnabledRun(s: System, moves: seq<Move>)
    decreases |moves|
  {
    moves == [] || (Enabled(s, moves[0]) && EnabledRun(Act(s, moves[0]), moves[1..]))
  }

  ghost function ActAll(s: System, moves: seq<Move>): System
    requires EnabledRun(s, moves)
    decreases |moves|
  {
    if moves == [] then s else ActAll(Act(s, moves[0]), moves[1..])
  }

  lemma {:induction false} EveryRunKeepsKnown(s: System, moves: seq<Move>)
    requires Sound(s.w) && Known(s) && EnabledRun(s, moves)
    ensures Sound(ActAll(s, moves).w) && Known(ActAll(s, moves))
    decreases |moves|
  {
    if moves != [] {
      MoveKeepsKnown(s, moves[0]);
      EveryRunKeepsKnown(Act(s, moves[0]), moves[1..]);
    }
  }

  // The gate lets a worker on to its claim for an open refund of a cancelled booking, or for a requested one
  // of a confirmed booking that it cancels first, at the start it read; it stops every other one.
  lemma GateIsExact(s: System, seeds: seq<Seed>)
    requires s.worker.ReadRow? && Enabled(s, PassGate(seeds))
    ensures var s', id, seen, row := Act(s, PassGate(seeds)), s.worker.id, s.worker.seen, s.worker.row;
            var cancelled := seen.status == Cancelled && (row.status == Requested || row.status == RefundInFlight || row.status == RefundFailed);
            var cancels := seen.status == Confirmed && row.status == Requested && id < |s.w.db.bookings|
                           && s.w.db.bookings[id].status == Confirmed && s.w.db.bookings[id].startsAt == seen.startsAt;
            && (s'.worker.Gated? <==> cancelled || cancels)
            && (cancelled ==> s'.w == s.w)
            && (cancels ==> s'.w.db.bookings[id].status == Cancelled)
            && (!cancels ==> s'.w.db == s.w.db)
  {
  }

  // Whatever else runs, when the scheduled worker asks the provider for money the booking is stored as
  // cancelled, and it asks for what was decided: a partial decision's own amount, a full one's price.
  lemma ProviderIsAskedOnlyForACancelledBooking(w: World, moves: seq<Move>)
    requires Sound(w) && EnabledRun(System(w, Idle), moves)
    ensures var s := ActAll(System(w, Idle), moves);
            s.worker.Asking? ==>
              var id, row := s.worker.id, s.worker.row;
              && id < |s.w.db.bookings| && s.w.db.bookings[id].status == Cancelled
              && row.choice != NoRefund && row.paymentIntent.Some?
              && (row.choice == Partial ==> row.requestedAmount == Some(s.worker.amount) && 0 < s.worker.amount)
              && (row.choice == Full ==> s.worker.amount == s.w.db.bookings[id].priceMinor)
              && (RefundRowIs(s.w.db, id, row.id) ==>
                    SameDecision(row, s.w.db.refunds[id]) || WholeRefundSettled(s.w.db.refunds[id]))
  {
    EveryRunKeepsKnown(System(w, Idle), moves);
  }

  // A claimed decision that moves no money ends without the provider: delivered when nothing was to be
  // refunded, failed for good when there is no payment to refund. Every other one is asked for.
  lemma DecisionsWithoutMoneyAskNobody(w: World, moves: seq<Move>)
    requires Sound(w) && EnabledRun(System(w, Idle), moves) && ActAll(System(w, Idle), moves).worker.Claimed?
    ensures SettlesWhatMovesNoMoney(ActAll(System(w, Idle), moves))
  {
    EveryRunKeepsKnown(System(w, Idle), moves);
    DecidingIsExact(ActAll(System(w, Idle), moves));
  }

  ghost predicate SettlesWhatMovesNoMoney(s: System)
    requires s.worker.Claimed?
  {
    var s', id, row := Act(s, Decide), s.worker.id, s.worker.row;
    var stored := id in s.w.db.refunds && s.w.db.refunds[id].id == row.id && s.w.db.refunds[id].status != RefundSucceeded;
    && (s'.worker.Asking? <==> row.choice != NoRefund && row.paymentIntent.Some?)
    && (s'.worker.Asking? ==> s'.w == s.w)
    && (!s'.worker.Asking? ==> s'.worker == Idle && s'.w.db.bookings == s.w.db.bookings)
    && (!s'.worker.Asking? && stored ==>
          && id in s'.w.db.refunds
          && s'.w.db.refunds[id].status == (if row.choice == NoRefund then RefundSucceeded else RefundFailed)
          && s'.w.db.refunds[id].nextAttemptAt.None?)
  }

  lemma DecidingIsExact(s: System)
    requires s.worker.Claimed? && s.worker.id < |s.w.db.bookings| && RowSound(s.worker.row)
    ensures SettlesWhatMovesNoMoney(s)
  {
  }

  // An attempt the provider turned down is abandoned when it said no or this was the tenth, and otherwise
  // retried after five, ten, twenty, forty minutes and then every hour.
  lemma RefusedAttemptBacksOff(s: System, answer: ProviderAnswer)
    requires s.worker.Asking? && !answer.Refunded?
    requires RefundRowIs(s.w.db, s.worker.id, s.worker.row.id) && s.w.db.refunds[s.worker.id].status != RefundSucceeded
    ensures var s', id, attempt := Act(s, CallProvider(answer)), s.worker.id, s.worker.attempt;
            && s'.worker == Idle && s'.w.db.bookings == s.w.db.bookings && id in s'.w.db.refunds
            && s'.w.db.refunds[id].attemptCount == s.w.db.refunds[id].attemptCount
            && s'.w.db.refunds[id].status == (if answer.Refused? || 10 <= attempt then RefundAbandoned else RefundFailed)
            && (s'.w.db.refunds[id].status == RefundAbandoned ==> s'.w.db.refunds[id].nextAttemptAt.None?)
            && (s'.w.db.refunds[id].status == RefundFailed ==>
                  s'.w.db.refunds[id].nextAttemptAt
                  == Some(s.w.clock + if attempt <= 1 then 300000 else if attempt == 2 then 600000 else if attempt == 3 then 1200000
                                      else if attempt == 4 then 2400000 else 3600000))
  {
  }

  // A worker that lost its cancellation reads the booking again: if somebody else cancelled it, the refund goes on;
  // otherwise the decision is taken back, while the row is still only requested, and nothing else changes.
  lemma LostCancellationIsExact(s: System)
    requires s.worker.LostCancellation?
    ensures var s', id := Act(s, RereadAndDelete), s.worker.id;
            var cancelled := id < |s.w.db.bookings| && s.w.db.bookings[id].status == Cancelled;
            var mine := id in s.w.db.refunds && s.w.db.refunds[id].id == s.worker.row.id && s.w.db.refunds[id].status == Requested;
            && (cancelled ==> s'.worker == Gated(id, s.worker.row) && s'.w == s.w)
            && (!cancelled ==> s'.worker == Idle && s'.w.db.bookings == s.w.db.bookings
                               && (id in s'.w.db.refunds <==> id in s.w.db.refunds && !mine)
                               && (forall b | b in s.w.db.refunds && b != id :: b in s'.w.db.refunds && s'.w.db.refunds[b] == s.w.db.refunds[b])
                               && (id in s'.w.db.refunds ==> s'.w.db.refunds == s.w.db.refunds))
  {
  }

  // A paid attempt raises the booking's refunded total to the amount moved, and then records that amount
  // and the provider's reference on the row.
  lemma PaidAttemptIsRecorded(asking: System, amount: int, s: System, stripeRefundId: string)
    requires asking.worker.Asking? && s == Act(asking, CallProvider(Refunded(amount))) && s.worker.id < |s.w.db.bookings|
    requires RefundRowIs(s.w.db, s.worker.id, s.worker.row.id) && s.w.db.refunds[s.worker.id].status != RefundSucceeded
    ensures s.worker == Paid(asking.worker.id, asking.worker.row, amount) && s.w == asking.w
    ensures var s1 := Act(s, RecordAmount);
            && s1.worker == Counted(s.worker.id, s.worker.row, amount) && s1.w.db.refunds == s.w.db.refunds
            && s1.w.db.bookings[s.worker.id].amountRefunded
               == (if s.w.db.bookings[s.worker.id].amountRefunded < amount then amount else s.w.db.bookings[s.worker.id].amountRefunded)
    ensures var s2 := Act(Act(s, RecordAmount), RecordOutcome(stripeRefundId));
            && s2.worker == Idle && s.worker.id in s2.w.db.refunds
            && s2.w.db.refunds[s.worker.id].status == RefundSucceeded
            && s2.w.db.refunds[s.worker.id].amount == Some(amount)
            && s2.w.db.refunds[s.worker.id].stripeRefundId == Some(stripeRefundId)
  {
  }

  // The decision a claimed worker carries is the one the stored row holds as its execution is claimed.
  lemma ClaimedDecisionIsTheStoredOne(s: System)
    requires Sound(s.w) && Known(s) && s.worker.Gated?
    requires Act(s, ClaimExecution).worker.Claimed?
    ensures var s' := Act(s, ClaimExecution);
            && RefundRowIs(s'.w.db, s'.worker.id, s'.worker.row.id)
            && SameDecision(s'.worker.row, s'.w.db.refunds[s'.worker.id])
            && s'.w.db.refunds[s'.worker.id].status == RefundInFlight
  {
  }
}
