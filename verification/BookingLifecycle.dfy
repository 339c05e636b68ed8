/** The booking's own transitions, as the domain functions compute them, against the rows that the
    repository's guarded writes leave, and the order in which statuses can follow each other. */
module BookingLifecycle {
  import opened Schema
  import opened Statements
  import opened Runs
  import opened Progress

  predicate CanTransition(from: BookingStatus, to: BookingStatus) {
    from == to
    || match from
       case Hold => to == Confirmed || to == Expired
       case Expired => to == Confirmed
       case Confirmed => to == Cancelled || to == NoShow
       case _ => false
  }

  // None where the domain raises. A transition to the status held returns the booking as it is.
  function TransitionBooking(b: Booking, to: BookingStatus, paymentRef: Option<string>): Option<Booking> {
    if !CanTransition(b.status, to) then None
    else if b.status == to then Some(b)
    else
      var next := b.(status := to, paymentRef := if paymentRef.Some? then paymentRef else b.paymentRef);
      Some(if to == Confirmed || to == Expired then next.(holdExpiresAt := None) else next)
  }

  function CancelBooking(b: Booking): Option<Booking> {
    if b.status == Cancelled then Some(b) else TransitionBooking(b, Cancelled, None)
  }

  function MarkBookingNoShow(b: Booking, now: Instant): Option<Booking> {
    if b.status != Confirmed || now <= b.startsAt then None else TransitionBooking(b, NoShow, None)
  }

  function RescheduleBooking(b: Booking, newStartsAt: Instant, durationMs: int): Option<Booking> {
    if b.status != Confirmed || durationMs < 1 then None
    else Some(b.(startsAt := newStartsAt, endsAt := newStartsAt + durationMs, rescheduledFrom := Some(b.startsAt)))
  }

  // A booking can be cancelled when it is confirmed or already cancelled, marked a no-show when it is confirmed and has
  // begun, and moved when it is confirmed; a cancelled, expired or no-show booking is never moved or marked.
  lemma DomainAllowsExactly(b: Booking, now: Instant, newStartsAt: Instant, durationMs: int)
    ensures CancelBooking(b).Some? <==> b.status == Confirmed || b.status == Cancelled
    ensures MarkBookingNoShow(b, now).Some? <==> b.status == Confirmed && b.startsAt < now
    ensures RescheduleBooking(b, newStartsAt, durationMs).Some? <==> b.status == Confirmed && 1 <= durationMs
    ensures CancelBooking(b).Some? ==> CancelBooking(b).value == b.(status := Cancelled)
    ensures MarkBookingNoShow(b, now).Some? ==> MarkBookingNoShow(b, now).value == b.(status := NoShow)
    ensures TransitionBooking(b, Confirmed, None).Some? <==> b.status == Hold || b.status == Expired || b.status == Confirmed
  {
  }

  // ----- the snapshot a handler announces is the row the guarded write leaves

  lemma ConfirmedSnapshotIsStored(db: Db, id: BookingId, confirm: ConfirmInput)
    requires confirm.expectedStatusIn <= {Hold, Expired} && Confirm(db, id, confirm).1
    ensures id < |db.bookings|
    ensures TransitionBooking(db.bookings[id], Confirmed, confirm.paymentRef) == Some(Confirm(db, id, confirm).0.bookings[id])
  {
  }

  lemma CancelledSnapshotIsStored(db: Db, id: BookingId, cancel: CancelInput)
    requires cancel.expectedStatusIn == {Confirmed} && CancelWins(db, id, cancel)
    ensures CancelBooking(db.bookings[id]) == Some(Cancel(db, id, cancel).0.bookings[id])
  {
  }

  // The domain refuses to cancel what was never confirmed; only a write that expects it can.
  lemma DomainCancelsOnlyConfirmed(db: Db, id: BookingId, cancel: CancelInput)
    requires CancelWins(db, id, cancel) && Cancelled !in cancel.expectedStatusIn
    ensures CancelBooking(db.bookings[id]).Some? <==> db.bookings[id].status == Confirmed
    ensures Cancel(db, id, cancel).0.bookings[id] == db.bookings[id].(status := Cancelled)
  {
  }

  lemma NoShowSnapshotIsStored(db: Db, id: BookingId, seeds: seq<Seed>, now: Instant)
    requires id < |db.bookings| && MarkBookingNoShow(db.bookings[id], now).Some?
    ensures MarkNoShow(db, id, {Confirmed}, seeds).1
    ensures MarkBookingNoShow(db.bookings[id], now) == Some(MarkNoShow(db, id, {Confirmed}, seeds).0.bookings[id])
  {
  }

  // A move computed from the booking as read wins only while it is still at that start, and then
  // leaves what the domain computed, with a new version and occupancy beside it.
  lemma MovedSnapshotIsStored(db: Db, id: BookingId, read: Booking, move: RescheduleInput)
    requires id < |db.bookings| && SameBut(read, db.bookings[id])
    requires RescheduleBooking(read, move.startsAt, move.endsAt - move.startsAt).Some?
    requires move.expectedStatus == Confirmed && move.expectedStartsAt == move.rescheduledFrom == read.startsAt
    requires Reschedule(db, id, move).1
    ensures SameBut(RescheduleBooking(read, move.startsAt, move.endsAt - move.startsAt).value, Reschedule(db, id, move).0.bookings[id])
    ensures db.bookings[id].rescheduleVersion < Reschedule(db, id, move).0.bookings[id].rescheduleVersion
    ensures Reschedule(db, id, move).0.bookings[id].occupancyUnits == Some(move.occupancyUnits)
    ensures Reschedule(db, id, move).0.bookings[id].occupancyEndsAt == Some(move.occupancyEndsAt)
  {
  }

  // Equal in everything the booking record itself carries; the version and the occupancy are the
  // table's own.
  predicate SameBut(a: Booking, b: Booking) {
    a.(rescheduleVersion := 0, occupancyUnits := None, occupancyEndsAt := None, leaseToken := None, leaseUntil := None)
    == b.(rescheduleVersion := 0, occupancyUnits := None, occupancyEndsAt := None, leaseToken := None, leaseUntil := None)
  }

  // ----- every step follows the graph

  predicate CancelsUnconfirmed(step: Step, id: BookingId) {
    (step.CancelStep? || step.ReconcileAndCancelStep?) && step.id == id && step.cancel.expectedStatusIn * {Hold, Expired} != {}
  }

  // An edge of the domain's graph, or the one way around it: a cancellation that expects a booking
  // nobody confirmed.
  predicate FollowsGraph(step: Step, id: BookingId, from: BookingStatus, to: BookingStatus) {
    CanTransition(from, to) || (to == Cancelled && (from == Hold || from == Expired) && CancelsUnconfirmed(step, id))
  }

  ghost predicate AllFollow(w: World, step: Step) {
    var rows, rows' := w.db.bookings, Next(w, step).db.bookings;
    |rows| <= |rows'| && forall i: nat | i < |rows| :: FollowsGraph(step, i, rows[i].status, rows'[i].status)
  }

  lemma AdmissionsFollow(w: World, step: Step)
    requires Legal(w, step) && (step.InsertHoldStep? || step.RescheduleStep?)
    ensures AllFollow(w, step)
  {
  }

  lemma ConfirmationFollows(w: World, step: Step)
    requires Legal(w, step) && step.ConfirmStep?
    ensures AllFollow(w, step)
  {
  }

  lemma CancellationsFollow(w: World, step: Step)
    requires Legal(w, step) && (step.CancelStep? || step.ReconcileAndCancelStep?)
    ensures AllFollow(w, step)
  {
    if CancelWins(w.db, step.id, step.cancel) {
      var status := w.db.bookings[step.id].status;
      assert status in step.cancel.expectedStatusIn;
      if status != Confirmed { assert status in step.cancel.expectedStatusIn * {Hold, Expired}; }
    }
  }

  lemma EndingsFollow(w: World, step: Step)
    requires Legal(w, step) && (step.SweepStep? || step.ExpireStep? || step.NoShowStep?)
    ensures AllFollow(w, step)
  {
  }

  lemma DetailsFollow(w: World, step: Step)
    requires step.PaymentStep? || step.RefundedAmountStep? || step.ResolveConfirmationStep?
    ensures AllFollow(w, step)
  {
  }

  lemma LeasesFollow(w: World, step: Step)
    requires step.AcquireStep? || step.RenewStep? || step.ReleaseStep?
    ensures AllFollow(w, step)
  {
  }

  lemma EveryStepFollowsTheGraph(w: World, step: Step)
    requires Legal(w, step)
    ensures AllFollow(w, step)
  {
    if !WritesBookings(step) {
      OthersLeaveBookings(w, step);
    } else if step.InsertHoldStep? || step.RescheduleStep? {
      AdmissionsFollow(w, step);
    } else if step.ConfirmStep? {
      ConfirmationFollows(w, step);
    } else if step.CancelStep? || step.ReconcileAndCancelStep? {
      CancellationsFollow(w, step);
    } else if step.SweepStep? || step.ExpireStep? || step.NoShowStep? {
      EndingsFollow(w, step);
    } else if step.PaymentStep? || step.RefundedAmountStep? || step.ResolveConfirmationStep? {
      DetailsFollow(w, step);
    } else {
      LeasesFollow(w, step);
    }
  }

  // How far along its life a booking is.
  function Age(status: BookingStatus): nat {
    match status
    case Hold => 0
    case Expired => 1
    case Confirmed => 2
    case Cancelled => 3
    case NoShow => 3
  }

  // On every run a booking only ever ages, so a confirmed booking never becomes a hold or expires,
  // and its status changes at most three times.
  lemma {:induction false} StatusesOnlyAge(w: World, steps: seq<Step>, id: BookingId)
    requires LegalRun(w, steps) && id < |w.db.bookings|
    ensures id < |Run(w, steps).db.bookings|
    ensures Age(w.db.bookings[id].status) <= Age(Run(w, steps).db.bookings[id].status)
    ensures Age(w.db.bookings[id].status) == Age(Run(w, steps).db.bookings[id].status)
            ==> w.db.bookings[id].status == Run(w, steps).db.bookings[id].status
    decreases |steps|
  {
    if steps != [] {
      EveryStepFollowsTheGraph(w, steps[0]);
      assert FollowsGraph(steps[0], id, w.db.bookings[id].status, Next(w, steps[0]).db.bookings[id].status);
      StatusesOnlyAge(Next(w, steps[0]), steps[1..], id);
    }
  }
}
