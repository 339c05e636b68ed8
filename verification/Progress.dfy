/** What every step of every run keeps of a booking: rows are never removed, versions and refunded
    totals never fall, the price never changes, and cancelled and no-show are final. */
module Progress {
  import opened Schema
  import opened Statements
  import opened Runs

  predicate Forward(rows: seq<Booking>, rows': seq<Booking>) {
    && |rows| <= |rows'|
    && forall i | 0 <= i < |rows| :: ForwardRow(rows[i], rows'[i])
  }

  predicate ForwardRow(b: Booking, b': Booking) {
    && b.rescheduleVersion <= b'.rescheduleVersion
    && b.amountRefunded <= b'.amountRefunded
    && b.priceMinor == b'.priceMinor
    && (b.status == Cancelled || b.status == NoShow ==> b'.status == b.status)
  }

  lemma EndingsGoForward(w: World, step: Step)
    requires Legal(w, step) && (step.SweepStep? || step.ExpireStep? || step.NoShowStep?)
    ensures Forward(w.db.bookings, Next(w, step).db.bookings)
  {
  }

  lemma CancellationsGoForward(w: World, step: Step)
    requires Legal(w, step) && (step.CancelStep? || step.ReconcileAndCancelStep?)
    ensures Forward(w.db.bookings, Next(w, step).db.bookings)
  {
  }

  lemma AdmissionsGoForward(w: World, step: Step)
    requires Legal(w, step) && (step.InsertHoldStep? || step.RescheduleStep?)
    ensures Forward(w.db.bookings, Next(w, step).db.bookings)
  {
  }

  lemma ConfirmingGoesForward(db: Db, id: BookingId, confirm: ConfirmInput)
    requires confirm.expectedStatusIn <= {Hold, Expired}
    ensures Forward(db.bookings, Confirm(db, id, confirm).0.bookings)
  {
  }

  lemma ConfirmationGoesForward(w: World, step: Step)
    requires Legal(w, step) && step.ConfirmStep?
    ensures Forward(w.db.bookings, Next(w, step).db.bookings)
  {
    ConfirmingGoesForward(w.db, step.id, step.confirm);
  }

  lemma TakingALeaseGoesForward(db: Db, id: BookingId, token: Token, now: Instant, until: Instant)
    ensures Forward(db.bookings, AcquireLease(db, id, token, now, until).0.bookings)
    ensures Forward(db.bookings, RenewLease(db, id, token, now, until).0.bookings)
    ensures Forward(db.bookings, ReleaseLease(db, id, token).bookings)
  {
  }

  lemma LeasesGoForward(w: World, step: Step)
    requires step.AcquireStep? || step.RenewStep? || step.ReleaseStep?
    ensures Forward(w.db.bookings, Next(w, step).db.bookings)
  {
    match step
    case AcquireStep(id, token, until) => TakingALeaseGoesForward(w.db, id, token, w.clock, until);
    case RenewStep(id, token, until) => TakingALeaseGoesForward(w.db, id, token, w.clock, until);
    case ReleaseStep(id, token) => TakingALeaseGoesForward(w.db, id, token, w.clock, w.clock);
  }

  lemma DetailsGoForward(w: World, step: Step)
    requires step.PaymentStep? || step.RefundedAmountStep?
    ensures Forward(w.db.bookings, Next(w, step).db.bookings)
  {
  }

  lemma CalendarEventGoesForward(w: World, step: Step)
    requires step.ResolveConfirmationStep?
    ensures Forward(w.db.bookings, Next(w, step).db.bookings)
  {
  }

  predicate WritesBookings(step: Step) {
    step.InsertHoldStep? || step.RescheduleStep? || step.SweepStep? || step.ExpireStep? || step.CancelStep? || step.NoShowStep?
    || step.ConfirmStep? || step.PaymentStep? || step.AcquireStep? || step.RenewStep? || step.ReleaseStep?
    || step.ResolveConfirmationStep? || step.ReconcileAndCancelStep? || step.RefundedAmountStep?
  }

  lemma OthersLeaveBookings(w: World, step: Step)
    requires !WritesBookings(step)
    ensures Next(w, step).db.bookings == w.db.bookings
  {
  }

  lemma EveryStepGoesForward(w: World, step: Step)
    requires Legal(w, step)
    ensures Forward(w.db.bookings, Next(w, step).db.bookings)
  {
    if !WritesBookings(step) {
      OthersLeaveBookings(w, step);
    } else if step.InsertHoldStep? || step.RescheduleStep? {
      AdmissionsGoForward(w, step);
    } else if step.ConfirmStep? {
      ConfirmationGoesForward(w, step);
    } else if step.CancelStep? || step.ReconcileAndCancelStep? {
      CancellationsGoForward(w, step);
    } else if step.SweepStep? || step.ExpireStep? || step.NoShowStep? {
      EndingsGoForward(w, step);
    } else if step.ResolveConfirmationStep? {
      CalendarEventGoesForward(w, step);
    } else if step.PaymentStep? || step.RefundedAmountStep? {
      DetailsGoForward(w, step);
    } else {
      LeasesGoForward(w, step);
    }
  }

  lemma {:induction false} EveryRunGoesForward(w: World, steps: seq<Step>)
    requires LegalRun(w, steps)
    ensures Forward(w.db.bookings, Run(w, steps).db.bookings)
    decreases |steps|
  {
    if steps != [] {
      EveryStepGoesForward(w, steps[0]);
      EveryRunGoesForward(Next(w, steps[0]), steps[1..]);
    }
  }
}
