/** The confirmation lease: one fresh token per holder, fenced by the booking row. */
module ConfirmationLeases {
  import opened Schema
  import opened Statements
  import opened Runs

  // The token was handed out, and the booking no longer carries it.
  ghost predicate Lost(w: World, id: BookingId, token: Token) {
    token in w.issued && !HoldsLease(w.db, id, token)
  }

  // ----- steps that write a lease

  predicate WritesLease(step: Step) {
    step.AcquireStep? || step.RenewStep? || step.ReleaseStep?
  }

  predicate SameLeases(rows: seq<Booking>, rows': seq<Booking>) {
    && |rows| <= |rows'|
    && (forall i | 0 <= i < |rows| :: rows'[i].leaseToken == rows[i].leaseToken && rows'[i].leaseUntil == rows[i].leaseUntil)
    && (forall i | |rows| <= i < |rows'| :: rows'[i].leaseToken.None? && rows'[i].leaseUntil.None?)
  }

  predicate LeavesBookings(step: Step) {
    match step
    case InsertHoldStep(_) => false
    case RescheduleStep(_, _) => false
    case SweepStep(_) => false
    case ExpireStep(_) => false
    case CancelStep(_, _) => false
    case NoShowStep(_, _) => false
    case ConfirmStep(_, _) => false
    case PaymentStep(_, _, _) => false
    case AcquireStep(_, _, _) => false
    case RenewStep(_, _, _) => false
    case ReleaseStep(_, _) => false
    case ResolveConfirmationStep(_, _, _) => false
    case ReconcileAndCancelStep(_, _, _) => false
    case RefundedAmountStep(_, _) => false
    case _ => true
  }

  lemma BookingsUnwritten(w: World, step: Step)
    requires LeavesBookings(step)
    ensures Next(w, step).db.bookings == w.db.bookings
  {
  }

  lemma AdmissionsKeepLeases(w: World, step: Step)
    requires step.InsertHoldStep? || step.RescheduleStep?
    ensures SameLeases(w.db.bookings, Next(w, step).db.bookings)
  {
  }

  lemma ConfirmationKeepsLeases(w: World, step: Step)
    requires step.ConfirmStep?
    ensures SameLeases(w.db.bookings, Next(w, step).db.bookings)
  {
  }

  lemma DetailsKeepLeases(w: World, step: Step)
    requires step.PaymentStep? || step.RefundedAmountStep?
    ensures SameLeases(w.db.bookings, Next(w, step).db.bookings)
  {
  }

  lemma CalendarEventKeepsLeases(w: World, step: Step)
    requires step.ResolveConfirmationStep?
    ensures SameLeases(w.db.bookings, Next(w, step).db.bookings)
  {
  }

  lemma EndingsKeepLeases(w: World, step: Step)
    requires step.SweepStep? || step.ExpireStep? || step.NoShowStep?
    ensures SameLeases(w.db.bookings, Next(w, step).db.bookings)
  {
  }

  lemma CancellationsKeepLeases(w: World, step: Step)
    requires step.CancelStep? || step.ReconcileAndCancelStep?
    ensures SameLeases(w.db.bookings, Next(w, step).db.bookings)
  {
  }

  lemma OtherStepsKeepLeases(w: World, step: Step)
    requires !WritesLease(step)
    ensures SameLeases(w.db.bookings, Next(w, step).db.bookings)
  {
    if LeavesBookings(step) {
      BookingsUnwritten(w, step);
    } else if step.SweepStep? || step.ExpireStep? || step.NoShowStep? {
      EndingsKeepLeases(w, step);
    } else if step.CancelStep? || step.ReconcileAndCancelStep? {
      CancellationsKeepLeases(w, step);
    } else if step.ResolveConfirmationStep? {
      CalendarEventKeepsLeases(w, step);
    } else if step.InsertHoldStep? || step.RescheduleStep? {
      AdmissionsKeepLeases(w, step);
    } else if step.ConfirmStep? {
      ConfirmationKeepsLeases(w, step);
    } else {
      DetailsKeepLeases(w, step);
    }
  }

  // ----- a lost token never comes back

  lemma LostStaysLost(w: World, step: Step, id: BookingId, token: Token)
    requires Legal(w, step) && Lost(w, id, token)
    ensures Lost(Next(w, step), id, token)
  {
    if !WritesLease(step) {
      OtherStepsKeepLeases(w, step);
    } else if step.AcquireStep? {
      assert step.token in IssuedBy(step);
    }
  }

  lemma {:induction false} LostForever(w: World, steps: seq<Step>, id: BookingId, token: Token)
    requires LegalRun(w, steps) && Lost(w, id, token)
    ensures Lost(Run(w, steps), id, token)
    decreases |steps|
  {
    if steps != [] {
      LostStaysLost(w, steps[0], id, token);
      LostForever(Next(w, steps[0]), steps[1..], id, token);
    }
  }

  // Taking the lease over ends the former holder's: its token is lost from that step on.
  lemma TakeoverEndsTheFormerLease(w: World, id: BookingId, former: Token, token: Token, until: Instant)
    requires Legal(w, AcquireStep(id, token, until)) && former in w.issued
    requires AcquireLease(w.db, id, token, w.clock, until).1
    ensures Lost(Next(w, AcquireStep(id, token, until)), id, former)
    ensures HoldsLease(Next(w, AcquireStep(id, token, until)).db, id, token)
  {
  }

  // What a worker that lost its lease still tries: every write it could make is refused.
  predicate WritesUnder(step: Step, id: BookingId, token: Token) {
    match step
    case ClaimConfirmationStep(key, t) => key.booking == id && t == token
    case RetryConfirmationStep(key, t) => key.booking == id && t == token
    case ResolveConfirmationStep(key, t, _) => key.booking == id && t == token
    case PaymentStep(i, _, t) => i == id && t == token
    case ConfirmStep(i, confirm) => i == id && confirm.leaseToken == token
    case EnsureStep(i, ensure) => i == id && ensure.leaseToken == token
    case RenewStep(i, t, _) => i == id && t == token
    case ReleaseStep(i, t) => i == id && t == token
    case _ => false
  }

  lemma LostTokenWritesNothing(w: World, step: Step, id: BookingId, token: Token)
    requires Lost(w, id, token) && WritesUnder(step, id, token)
    ensures Next(w, step) == w
  {
  }

  // Once another token was acquired, nothing the old holder does ever changes the store.
  lemma SupersededHolderIsFenced(w: World, id: BookingId, former: Token, token: Token, until: Instant,
                                 steps: seq<Step>, late: Step)
    requires former in w.issued && AcquireLease(w.db, id, token, w.clock, until).1
    requires LegalRun(w, [AcquireStep(id, token, until)] + steps)
    requires WritesUnder(late, id, former)
    ensures var after := Run(Next(w, AcquireStep(id, token, until)), steps); Next(after, late) == after
  {
    var acquire := AcquireStep(id, token, until);
    assert ([acquire] + steps)[1..] == steps;
    TakeoverEndsTheFormerLease(w, id, former, token, until);
    LostForever(Next(w, acquire), steps, id, former);
    LostTokenWritesNothing(Run(Next(w, acquire), steps), late, id, former);
  }

  // ----- an unexpired lease is never taken

  ghost predicate LeftAlone(steps: seq<Step>, id: BookingId, token: Token) {
    forall i | 0 <= i < |steps| ::
      !(steps[i].RenewStep? && steps[i].id == id && steps[i].token == token)
      && !(steps[i].ReleaseStep? && steps[i].id == id && steps[i].token == token)
  }

  lemma {:induction false} UnexpiredLeaseIsKept(w: World, steps: seq<Step>, id: BookingId, token: Token, until: Instant)
    requires LegalRun(w, steps) && LeftAlone(steps, id, token)
    requires HoldsLease(w.db, id, token) && w.db.bookings[id].leaseUntil == Some(until)
    requires Run(w, steps).clock <= until
    ensures HoldsLease(Run(w, steps).db, id, token) && Run(w, steps).db.bookings[id].leaseUntil == Some(until)
    decreases |steps|
  {
    if steps != [] {
      ClockNeverGoesBack(w, steps[0]);
      ClockOnlyAdvances(Next(w, steps[0]), steps[1..]);
      assert !(steps[0].RenewStep? && steps[0].id == id && steps[0].token == token);
      assert !(steps[0].ReleaseStep? && steps[0].id == id && steps[0].token == token);
      if !WritesLease(steps[0]) { OtherStepsKeepLeases(w, steps[0]); }
      UnexpiredLeaseIsKept(Next(w, steps[0]), steps[1..], id, token, until);
    }
  }

  // ----- from a claim to its own resolve

  // A token that holds the lease at the end of a run held it all along.
  lemma HeldThroughout(w: World, steps: seq<Step>, k: nat, id: BookingId, token: Token)
    requires LegalRun(w, steps) && k <= |steps|
    requires token in w.issued && HoldsLease(Run(w, steps).db, id, token)
    ensures HoldsLease(Run(w, steps[..k]).db, id, token)
  {
    RunSplits(w, steps, k);
    IssuedOnlyGrows(w, steps[..k], token);
    if !HoldsLease(Run(w, steps[..k]).db, id, token) {
      LostForever(Run(w, steps[..k]), steps[k..], id, token);
    }
  }

  lemma {:induction false} RunSplits(w: World, steps: seq<Step>, k: nat)
    requires LegalRun(w, steps) && k <= |steps|
    ensures LegalRun(w, steps[..k]) && LegalRun(Run(w, steps[..k]), steps[k..])
    ensures Run(Run(w, steps[..k]), steps[k..]) == Run(w, steps)
    decreases k
  {
    if k == 0 {
      assert steps[0..] == steps;
    } else {
      RunSplits(Next(w, steps[0]), steps[1..], k - 1);
      assert steps[..k][1..] == steps[1..][..k - 1] && steps[1..][k - 1..] == steps[k..];
    }
  }

  lemma {:induction false} IssuedOnlyGrows(w: World, steps: seq<Step>, token: Token)
    requires LegalRun(w, steps) && token in w.issued
    ensures token in Run(w, steps).issued
    decreases |steps|
  {
    if steps != [] {
      IssuedOnlyGrows(Next(w, steps[0]), steps[1..], token);
    }
  }

  // Between one token's claim of a row and its own successful resolve, no other token claims it.
  lemma NoClaimBetweenClaimAndResolve(w: World, steps: seq<Step>, k: nat, key: OperationKey,
                                      token: Token, r: Resolution, other: Token)
    requires token in w.issued && LegalRun(w, steps) && k < |steps|
    requires ResolveConfirmation(Run(w, steps).db, key, token, r).1
    requires steps[k] == ClaimConfirmationStep(key, other) || steps[k] == RetryConfirmationStep(key, other)
    requires other != token
    ensures Run(w, steps[..k + 1]) == Run(w, steps[..k])
  {
    HeldThroughout(w, steps, k, key.booking, token);
    RunSplits(w, steps, k + 1);
    RunSplits(w, steps[..k + 1], k);
    assert steps[..k + 1][..k] == steps[..k] && steps[..k + 1][k..] == [steps[k]];
    assert Run(Run(w, steps[..k]), [steps[k]]) == Next(Run(w, steps[..k]), steps[k]);
    OtherTokenClaimsNothing(Run(w, steps[..k]), steps[k], key, token, other);
  }

  lemma OtherTokenClaimsNothing(w: World, step: Step, key: OperationKey, token: Token, other: Token)
    requires HoldsLease(w.db, key.booking, token) && other != token
    requires step == ClaimConfirmationStep(key, other) || step == RetryConfirmationStep(key, other)
    ensures Next(w, step) == w
  {
  }
}
