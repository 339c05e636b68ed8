/** The runs, taken by the store itself: every step is a call of the repository, and every legal run a
    sequence of such calls. */
module StoreRuns {
  import opened Schema
  import opened Statements
  import opened Runs
  import opened Repository

  predicate OnBookings(step: Step) {
    step.InsertHoldStep? || step.RescheduleStep? || step.SweepStep? || step.ExpireStep? || step.CancelStep?
    || step.NoShowStep? || step.ConfirmStep? || step.PaymentStep?
  }

  predicate OnLeases(step: Step) {
    step.AcquireStep? || step.RenewStep? || step.ReleaseStep?
  }

  predicate OnConfirmationRows(step: Step) {
    step.EnsureStep? || step.ClaimConfirmationStep? || step.RetryConfirmationStep? || step.ResolveConfirmationStep?
  }

  predicate OnOtherRows(step: Step) {
    step.RecordStep? || step.ClaimRowStep? || step.RetryRowStep? || step.ResolveRowStep?
  }

  predicate OnRefundDecisions(step: Step) {
    step.ClaimRefundStep? || step.DeleteRefundStep? || step.ReconcileRefundStep? || step.ReconcileAndCancelStep?
  }

  predicate OnRefundExecutions(step: Step) {
    step.ResolveRefundStep? || step.ExecuteRefundStep? || step.RetryRefundStep? || step.RefundedAmountStep?
  }

  predicate OnOverrides(step: Step) {
    step.SetDayOverrideStep? || step.DeleteDayOverrideStep?
  }

  predicate OnDefaults(step: Step) {
    step.SetCapacityDefaultStep? || step.DeleteCapacityDefaultStep?
  }

  method TakeBookingStep(repo: Repo, clock: Instant, step: Step)
    requires repo.Valid() && OnBookings(step)
    requires (step.InsertHoldStep? ==> step.hold.Valid()) && (step.RescheduleStep? ==> step.move.Valid())
    modifies repo
    ensures repo.Valid() && repo.State() == Effect(old(repo.State()), clock, step)
  {
    match step
    case InsertHoldStep(hold) => var outcome := repo.InsertHoldWithCapacity(hold);
    case RescheduleStep(id, move) => var won := repo.RescheduleWithCapacity(id, move);
    case SweepStep(at) => var changes := repo.SweepExpiredHolds(at);
    case ExpireStep(id) => var won := repo.ExpireHold(id);
    case CancelStep(id, cancel) => var won := repo.TransitionToCancelled(id, cancel);
    case NoShowStep(id, seeds) => var won := repo.TransitionToNoShow(id, {Confirmed}, seeds);
    case ConfirmStep(id, confirm) => var won := repo.ConfirmWithSideEffectOperations(id, confirm);
    case PaymentStep(id, paymentRef, token) => var applied := repo.ApplyConfirmedPaymentDetails(id, paymentRef, token);
  }

  method TakeLeaseStep(repo: Repo, clock: Instant, step: Step)
    requires repo.Valid() && OnLeases(step)
    modifies repo
    ensures repo.Valid() && repo.State() == Effect(old(repo.State()), clock, step)
  {
    match step
    case AcquireStep(id, token, until) => var acquired := repo.AcquireConfirmationLease(id, token, clock, until);
    case RenewStep(id, token, until) => var renewed := repo.RenewConfirmationLease(id, token, clock, until);
    case ReleaseStep(id, token) => repo.ReleaseConfirmationLease(id, token);
  }

  method TakeConfirmationRowStep(repo: Repo, clock: Instant, step: Step)
    requires repo.Valid() && OnConfirmationRows(step)
    modifies repo
    ensures repo.Valid() && repo.State() == Effect(old(repo.State()), clock, step)
  {
    match step
    case EnsureStep(id, ensure) => repo.EnsureConfirmationSideEffectOperations(id, ensure);
    case ClaimConfirmationStep(key, token) => var attempt := repo.ClaimSideEffectOperation(key, token, clock);
    case RetryConfirmationStep(key, token) => var attempt := repo.ClaimSideEffectOperationForRetry(key, token, clock);
    case ResolveConfirmationStep(key, token, resolution) => var resolved := repo.ResolveSideEffectOperation(key, token, resolution);
  }

  method TakeOtherRowStep(repo: Repo, clock: Instant, step: Step)
    requires repo.Valid() && OnOtherRows(step)
    modifies repo
    ensures repo.Valid() && repo.State() == Effect(old(repo.State()), clock, step)
  {
    match step
    case RecordStep(keys) => repo.RecordBookingEventOperations(keys);
    case ClaimRowStep(key) => var attempt := repo.ClaimMutationSideEffectOperation(key, clock);
    case RetryRowStep(key) => var attempt := repo.ClaimMutationSideEffectOperationForRetry(key, clock);
    case ResolveRowStep(key, claimedAt, resolution) =>
      var resolved := repo.ResolveMutationSideEffectOperation(key, claimedAt, resolution);
  }

  method TakeDecisionStep(repo: Repo, clock: Instant, step: Step)
    requires repo.Valid() && OnRefundDecisions(step)
    modifies repo
    ensures repo.Valid() && repo.State() == Effect(old(repo.State()), clock, step)
  {
    match step
    case ClaimRefundStep(id, claim) => var claimed := repo.ClaimRefundOperation(id, claim);
    case DeleteRefundStep(id, refund) => repo.DeleteRefundOperation(id, refund);
    case ReconcileRefundStep(id, report) => repo.ReconcileStripeRefundOperation(id, report);
    case ReconcileAndCancelStep(id, report, cancel) =>
      var won := repo.UpsertRefundOperationAndTransitionToCancelled(report, id, cancel);
  }

  method TakeExecutionStep(repo: Repo, clock: Instant, step: Step)
    requires repo.Valid() && OnRefundExecutions(step)
    modifies repo
    ensures repo.Valid() && repo.State() == Effect(old(repo.State()), clock, step)
  {
    match step
    case ResolveRefundStep(id, refund, outcome) => repo.ResolveRefundOperation(id, refund, outcome);
    case ExecuteRefundStep(id, refund) => var attempt := repo.ClaimRefundExecution(id, refund, clock);
    case RetryRefundStep(id, refund) => var attempt := repo.ClaimRefundExecutionForRetry(id, refund, clock);
    case RefundedAmountStep(id, amount) => repo.RecordRefundedAmount(id, amount);
  }

  method TakeOverrideStep(repo: Repo, clock: Instant, step: Step)
    requires repo.Valid() && OnOverrides(step)
    modifies repo
    ensures repo.Valid() && repo.State() == Effect(old(repo.State()), clock, step)
  {
    match step
    case SetDayOverrideStep(date, capacity) => repo.UpsertDayOverrides([date], capacity);
    case DeleteDayOverrideStep(date) => repo.DeleteDayOverrides([date]);
  }

  method TakeDefaultStep(repo: Repo, clock: Instant, step: Step)
    requires repo.Valid() && OnDefaults(step)
    modifies repo
    ensures repo.Valid() && repo.State() == Effect(old(repo.State()), clock, step)
  {
    match step
    case SetCapacityDefaultStep(date, capacity) => repo.UpsertCapacityDefault(date, capacity);
    case DeleteCapacityDefaultStep(date) => repo.DeleteCapacityDefault(date);
  }

  // What a step of a run does to the store is what its call does; only the clock ticks without one.
  method TakeStep(repo: Repo, clock: Instant, step: Step)
    requires repo.Valid()
    requires (step.InsertHoldStep? ==> step.hold.Valid()) && (step.RescheduleStep? ==> step.move.Valid())
    modifies repo
    ensures repo.Valid() && repo.State() == Effect(old(repo.State()), clock, step)
  {
    if OnBookings(step) { TakeBookingStep(repo, clock, step); }
    else if OnLeases(step) { TakeLeaseStep(repo, clock, step); }
    else if OnConfirmationRows(step) { TakeConfirmationRowStep(repo, clock, step); }
    else if OnOtherRows(step) { TakeOtherRowStep(repo, clock, step); }
    else if OnRefundDecisions(step) { TakeDecisionStep(repo, clock, step); }
    else if OnRefundExecutions(step) { TakeExecutionStep(repo, clock, step); }
    else if OnOverrides(step) { TakeOverrideStep(repo, clock, step); }
    else if OnDefaults(step) { TakeDefaultStep(repo, clock, step); }
  }

  // A legal run of the model is a run of the repository: called step by step, it ends in the same store.
  method TakeRun(repo: Repo, start: Instant, steps: seq<Step>, ghost issued: set<Token>)
    requires repo.Valid() && LegalRun(World(repo.State(), start, issued), steps)
    modifies repo
    ensures repo.Valid() && repo.State() == Run(World(old(repo.State()), start, issued), steps).db
  {
    var clock := start;
    ghost var w := World(repo.State(), start, issued);
    ghost var end := Run(w, steps);
    for i := 0 to |steps|
      invariant repo.Valid() && w.db == repo.State() && w.clock == clock
      invariant LegalRun(w, steps[i..]) && Run(w, steps[i..]) == end
    {
      assert steps[i..][1..] == steps[i + 1..];
      ghost var next := Next(w, steps[i]);
      LegalHoldsAreValid(w, steps[i]);
      TakeStep(repo, clock, steps[i]);
      if steps[i].Tick? { clock := steps[i].to; }
      w := next;
    }
  }

  lemma LegalHoldsAreValid(w: World, step: Step)
    requires Legal(w, step)
    ensures (step.InsertHoldStep? ==> step.hold.Valid()) && (step.RescheduleStep? ==> step.move.Valid())
  {
  }
}
