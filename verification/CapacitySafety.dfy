/** No guarded admission is ever undone: capacity safety over every run of the store. */
module CapacitySafety {
  import opened Schema
  import opened Usage
  import opened Statements
  import opened Runs

  // When a booking last came to occupy its window, under which capacity, and whether the
  // capacity guard let it in (a confirmation that brings a lapsed hold back does not ask).
  datatype Admission = Admission(order: nat, capacity: int, guarded: bool)

  datatype Tracked = Tracked(w: World, log: seq<Admission>, next: nat)

  // The confirmation of a booking that had stopped occupying its window.
  ghost predicate Revives(w: World, step: Step) {
    && step.ConfirmStep?
    && step.id < |w.db.bookings|
    && !Active(w.db.bookings[step.id], w.clock)
    && Active(Next(w, step).db.bookings[step.id], w.clock)
  }

  ghost function Follow(s: Tracked, step: Step): Tracked
    requires |s.log| == |s.w.db.bookings|
  {
    var w' := Next(s.w, step);
    match step
    case InsertHoldStep(hold) =>
      if InsertHold(s.w.db, hold).1.Created?
      then Tracked(w', s.log + [Admission(s.next, CapacityOn(s.w.db, hold.localDate, hold.defaultCapacity), true)], s.next + 1)
      else Tracked(w', s.log, s.next)
    case RescheduleStep(id, move) =>
      if RescheduleWins(s.w.db, id, move)
      then Tracked(w', s.log[id := Admission(s.next, CapacityOn(s.w.db, move.localDate, move.defaultCapacity), true)], s.next + 1)
      else Tracked(w', s.log, s.next)
    case ConfirmStep(id, _) =>
      if Revives(s.w, step)
      then Tracked(w', s.log[id := Admission(s.next, 0, false)], s.next + 1)
      else Tracked(w', s.log, s.next)
    case _ => Tracked(w', s.log, s.next)
  }

  ghost function NoLaterThan(log: seq<Admission>, x: BookingId): iset<BookingId>
    requires x < |log|
  {
    iset i: BookingId | i < |log| && log[i].order <= log[x].order
  }

  // Every guard-admitted booking still has, at each instant it covers, no more units around it
  // than its capacity, counting the bookings that came in no later than it did.
  ghost predicate Safe(rows: seq<Booking>, now: Instant, log: seq<Admission>)
    requires |log| == |rows|
  {
    forall x: BookingId, t: Instant | x < |rows| && log[x].guarded && InUse(rows[x], now, t) ::
      Load(rows, now, NoLaterThan(log, x), t) <= log[x].capacity
  }

  ghost predicate Sound(s: Tracked) {
    && |s.log| == |s.w.db.bookings|
    && WellFormed(s.w.db.bookings)
    && (forall i: nat | i < |s.log| :: s.log[i].order < s.next)
    && (forall i: nat, j: nat | i < j < |s.log| :: s.log[i].order != s.log[j].order)
    && Safe(s.w.db.bookings, s.w.clock, s.log)
  }

  // ----- steps that take nobody in

  predicate SameSpan(a: Booking, b: Booking) {
    a.startsAt == b.startsAt && a.endsAt == b.endsAt && OccupiedUntil(a) == OccupiedUntil(b) && Units(a) == Units(b)
  }

  predicate FadesRow(b: Booking, now: Instant, b': Booking, now': Instant) {
    SameSpan(b, b') && (Active(b', now') ==> Active(b, now))
  }

  ghost predicate Fades(rows: seq<Booking>, now: Instant, rows': seq<Booking>, now': Instant) {
    |rows| == |rows'| && forall i: nat | i < |rows| :: FadesRow(rows[i], now, rows'[i], now')
  }

  ghost predicate TakesIn(w: World, step: Step) {
    step.InsertHoldStep? || step.RescheduleStep? || Revives(w, step)
  }

  // Only these steps write a booking's row without admitting it anywhere.
  predicate WritesBooking(step: Step) {
    step.SweepStep? || step.ExpireStep? || step.CancelStep? || step.NoShowStep? || step.ConfirmStep? || step.PaymentStep?
    || step.AcquireStep? || step.RenewStep? || step.ReleaseStep? || step.ResolveConfirmationStep?
    || step.ReconcileAndCancelStep? || step.RefundedAmountStep?
  }

  lemma OthersLeaveBookings(w: World, step: Step)
    requires !WritesBooking(step) && !step.InsertHoldStep? && !step.RescheduleStep?
    ensures Next(w, step).db.bookings == w.db.bookings
  {
  }

  lemma EndingsFade(w: World, step: Step)
    requires Legal(w, step) && (step.SweepStep? || step.ExpireStep? || step.NoShowStep?)
    ensures Fades(w.db.bookings, w.clock, Next(w, step).db.bookings, w.clock)
  {
  }

  lemma CancellationsFade(w: World, step: Step)
    requires Legal(w, step) && (step.CancelStep? || step.ReconcileAndCancelStep?)
    ensures Fades(w.db.bookings, w.clock, Next(w, step).db.bookings, w.clock)
  {
  }

  lemma ConfirmedRowFades(rows: seq<Booking>, now: Instant, id: BookingId, b: Booking)
    requires id < |rows| && SameSpan(rows[id], b) && (Active(b, now) ==> Active(rows[id], now))
    ensures Fades(rows, now, rows[id := b], now)
  {
  }

  lemma ConfirmationWritesOneRow(w: World, step: Step)
    requires step.ConfirmStep?
    ensures Next(w, step).db.bookings == w.db.bookings
         || (step.id < |w.db.bookings|
             && Next(w, step).db.bookings == w.db.bookings[step.id := ConfirmRow(w.db.bookings[step.id], step.confirm.paymentRef)])
  {
  }

  lemma ConfirmationFades(w: World, step: Step)
    requires step.ConfirmStep? && !Revives(w, step)
    ensures Fades(w.db.bookings, w.clock, Next(w, step).db.bookings, w.clock)
  {
    ConfirmationWritesOneRow(w, step);
    if step.id < |w.db.bookings| && Next(w, step).db.bookings != w.db.bookings {
      ConfirmedRowFades(w.db.bookings, w.clock, step.id, Next(w, step).db.bookings[step.id]);
    }
  }

  lemma LeasesFade(w: World, step: Step)
    requires step.AcquireStep? || step.RenewStep? || step.ReleaseStep?
    ensures Fades(w.db.bookings, w.clock, Next(w, step).db.bookings, w.clock)
  {
  }

  lemma DetailsFade(w: World, step: Step)
    requires step.PaymentStep? || step.RefundedAmountStep?
    ensures Fades(w.db.bookings, w.clock, Next(w, step).db.bookings, w.clock)
  {
  }

  lemma CalendarEventFades(w: World, step: Step)
    requires step.ResolveConfirmationStep?
    ensures Fades(w.db.bookings, w.clock, Next(w, step).db.bookings, w.clock)
  {
  }

  lemma OtherStepsFade(w: World, step: Step)
    requires Legal(w, step) && !TakesIn(w, step)
    ensures Fades(w.db.bookings, w.clock, Next(w, step).db.bookings, Next(w, step).clock)
  {
    if !WritesBooking(step) {
      OthersLeaveBookings(w, step);
    } else if step.ConfirmStep? {
      ConfirmationFades(w, step);
    } else if step.SweepStep? || step.ExpireStep? || step.NoShowStep? {
      EndingsFade(w, step);
    } else if step.CancelStep? || step.ReconcileAndCancelStep? {
      CancellationsFade(w, step);
    } else if step.PaymentStep? || step.RefundedAmountStep? {
      DetailsFade(w, step);
    } else if step.ResolveConfirmationStep? {
      CalendarEventFades(w, step);
    } else {
      LeasesFade(w, step);
    }
  }

  lemma FadingKeepsSafe(rows: seq<Booking>, now: Instant, rows': seq<Booking>, now': Instant, log: seq<Admission>)
    requires |log| == |rows| && WellFormed(rows) && Fades(rows, now, rows', now')
    requires Safe(rows, now, log)
    ensures WellFormed(rows') && Safe(rows', now', log)
  {
    forall x: BookingId, t: Instant | x < |rows| && log[x].guarded && InUse(rows'[x], now', t)
      ensures Load(rows', now', NoLaterThan(log, x), t) <= log[x].capacity
    {
      LoadAtMost(rows', now', NoLaterThan(log, x), t, rows, now, NoLaterThan(log, x), t);
    }
  }

  // ----- a hold comes in

  lemma InsertKeepsSound(s: Tracked, hold: HoldInput)
    requires Sound(s) && Legal(s.w, InsertHoldStep(hold))
    ensures Sound(Follow(s, InsertHoldStep(hold)))
  {
    var rows, now := s.w.db.bookings, s.w.clock;
    if InsertHold(s.w.db, hold).1.Created? {
      var s' := Follow(s, InsertHoldStep(hold));
      var b := NewHold(hold);
      forall x: BookingId, t: Instant | x < |rows| + 1 && s'.log[x].guarded && InUse((rows + [b])[x], now, t)
        ensures Load(rows + [b], now, NoLaterThan(s'.log, x), t) <= s'.log[x].capacity
      {
        LoadAppend(rows, b, now, NoLaterThan(s'.log, x), t);
        if x == |rows| {
          LoadAtMost(rows, now, NoLaterThan(s'.log, x), t, rows, hold.createdAt, ALL, t);
        } else {
          LoadAgree(rows, now, NoLaterThan(s'.log, x), NoLaterThan(s.log, x), t);
        }
      }
    }
  }

  // ----- a booking moves

  lemma RescheduleKeepsSound(s: Tracked, id: BookingId, move: RescheduleInput)
    requires Sound(s) && Legal(s.w, RescheduleStep(id, move))
    ensures Sound(Follow(s, RescheduleStep(id, move)))
  {
    var rows, now := s.w.db.bookings, s.w.clock;
    if RescheduleWins(s.w.db, id, move) {
      var s' := Follow(s, RescheduleStep(id, move));
      var rows' := rows[id := Moved(rows[id], move)];
      forall x: BookingId, t: Instant | x < |rows| && s'.log[x].guarded && InUse(rows'[x], now, t)
        ensures Load(rows', now, NoLaterThan(s'.log, x), t) <= s'.log[x].capacity
      {
        var ids := NoLaterThan(s'.log, x);
        if x == id {
          LoadSplit(rows', now, ids, t, id);
          LoadAtMost(rows', now, ids - iset{id}, t, rows, move.now, AllBut(id), t);
        } else {
          assert id !in ids;
          LoadAtMost(rows', now, ids, t, rows, now, NoLaterThan(s.log, x), t);
        }
      }
    }
  }

  // ----- a lapsed hold comes back

  lemma RevivalKeepsSound(s: Tracked, step: Step)
    requires Sound(s) && Legal(s.w, step) && Revives(s.w, step)
    ensures Sound(Follow(s, step))
  {
    var rows, now, id := s.w.db.bookings, s.w.clock, step.id;
    var s' := Follow(s, step);
    var rows' := s'.w.db.bookings;
    assert rows' == rows[id := ConfirmRow(rows[id], step.confirm.paymentRef)];
    forall x: BookingId, t: Instant | x < |rows| && s'.log[x].guarded && InUse(rows'[x], now, t)
      ensures Load(rows', now, NoLaterThan(s'.log, x), t) <= s'.log[x].capacity
    {
      assert x != id && id !in NoLaterThan(s'.log, x);
      LoadAtMost(rows', now, NoLaterThan(s'.log, x), t, rows, now, NoLaterThan(s.log, x), t);
    }
  }

  // ----- every run

  lemma StepKeepsSound(s: Tracked, step: Step)
    requires Sound(s) && Legal(s.w, step)
    ensures Sound(Follow(s, step))
  {
    if step.InsertHoldStep? {
      InsertKeepsSound(s, step.hold);
    } else if step.RescheduleStep? {
      RescheduleKeepsSound(s, step.id, step.move);
    } else if Revives(s.w, step) {
      RevivalKeepsSound(s, step);
    } else {
      OtherStepsFade(s.w, step);
      FadingKeepsSafe(s.w.db.bookings, s.w.clock, Next(s.w, step).db.bookings, Next(s.w, step).clock, s.log);
    }
  }

  ghost function FollowAll(s: Tracked, steps: seq<Step>): Tracked
    requires Sound(s) && LegalRun(s.w, steps)
    decreases |steps|
  {
    if steps == [] then s
    else
      StepKeepsSound(s, steps[0]);
      assert Follow(s, steps[0]).w == Next(s.w, steps[0]);
      FollowAll(Follow(s, steps[0]), steps[1..])
  }

  lemma {:induction false} EveryRunIsSafe(s: Tracked, steps: seq<Step>)
    requires Sound(s) && LegalRun(s.w, steps)
    ensures FollowAll(s, steps).w == Run(s.w, steps)
    ensures Sound(FollowAll(s, steps))
    decreases |steps|
  {
    if steps != [] {
      StepKeepsSound(s, steps[0]);
      EveryRunIsSafe(Follow(s, steps[0]), steps[1..]);
    }
  }

  // ----- what safety gives at one instant

  // The total at an instant is bounded by the capacity of whoever came in last, if guarded.
  lemma LatestAdmissionBounds(s: Tracked, x: BookingId, t: Instant)
    requires Sound(s)
    requires x < |s.log| && s.log[x].guarded && InUse(s.w.db.bookings[x], s.w.clock, t)
    requires forall i: nat | i < |s.log| && InUse(s.w.db.bookings[i], s.w.clock, t) :: s.log[i].order <= s.log[x].order
    ensures Load(s.w.db.bookings, s.w.clock, ALL, t) <= s.log[x].capacity
  {
    LoadAtMost(s.w.db.bookings, s.w.clock, ALL, t, s.w.db.bookings, s.w.clock, NoLaterThan(s.log, x), t);
  }

  ghost predicate AllGuarded(s: Tracked, capacity: int)
    requires |s.log| == |s.w.db.bookings|
  {
    forall i: nat | i < |s.log| && Active(s.w.db.bookings[i], s.w.clock) ::
      s.log[i].guarded && s.log[i].capacity <= capacity
  }

  lemma {:induction false} LatestInUse(s: Tracked, t: Instant, n: nat) returns (x: BookingId)
    requires n <= |s.log| == |s.w.db.bookings|
    requires exists i: nat :: i < n && InUse(s.w.db.bookings[i], s.w.clock, t)
    ensures x < n && InUse(s.w.db.bookings[x], s.w.clock, t)
    ensures forall i: nat | i < n && InUse(s.w.db.bookings[i], s.w.clock, t) :: s.log[i].order <= s.log[x].order
  {
    if exists i: nat :: i < n - 1 && InUse(s.w.db.bookings[i], s.w.clock, t) {
      x := LatestInUse(s, t, n - 1);
      if InUse(s.w.db.bookings[n - 1], s.w.clock, t) && s.log[x].order < s.log[n - 1].order {
        x := n - 1;
      }
    } else {
      x := n - 1;
    }
  }

  lemma GuardedStoreIsNeverOver(s: Tracked, capacity: int, t: Instant)
    requires Sound(s) && AllGuarded(s, capacity) && 0 <= capacity
    ensures Load(s.w.db.bookings, s.w.clock, ALL, t) <= capacity
  {
    var rows, now := s.w.db.bookings, s.w.clock;
    if exists i: nat :: i < |rows| && InUse(rows[i], now, t) {
      var x := LatestInUse(s, t, |rows|);
      LatestAdmissionBounds(s, x, t);
    } else {
      LoadAtMost(rows, now, ALL, t, rows, now, iset{}, t);
      LoadOfNobody(rows, now, t);
    }
  }

  // ----- runs with no revived hold and a bounded capacity

  // The step brings no lapsed hold back, and admits nobody under more than `capacity`.
  ghost predicate Ordinary(w: World, step: Step, capacity: int) {
    && !Revives(w, step)
    && (step.InsertHoldStep? ==> CapacityOn(w.db, step.hold.localDate, step.hold.defaultCapacity) <= capacity)
    && (step.RescheduleStep? ==> CapacityOn(w.db, step.move.localDate, step.move.defaultCapacity) <= capacity)
  }

  ghost predicate OrdinaryRun(w: World, steps: seq<Step>, capacity: int)
    decreases |steps|
  {
    steps == [] || (Ordinary(w, steps[0], capacity) && OrdinaryRun(Next(w, steps[0]), steps[1..], capacity))
  }

  lemma OrdinaryStepKeepsAllGuarded(s: Tracked, step: Step, capacity: int)
    requires Sound(s) && Legal(s.w, step) && Ordinary(s.w, step, capacity) && AllGuarded(s, capacity)
    ensures Sound(Follow(s, step)) && AllGuarded(Follow(s, step), capacity)
  {
    StepKeepsSound(s, step);
    if !step.InsertHoldStep? && !step.RescheduleStep? {
      OtherStepsFade(s.w, step);
    }
  }

  lemma {:induction false} OrdinaryRunsNeverOversell(s: Tracked, steps: seq<Step>, capacity: int, t: Instant)
    requires Sound(s) && AllGuarded(s, capacity) && 0 <= capacity
    requires LegalRun(s.w, steps) && OrdinaryRun(s.w, steps, capacity)
    ensures Load(Run(s.w, steps).db.bookings, Run(s.w, steps).clock, ALL, t) <= capacity
    decreases |steps|
  {
    if steps == [] {
      GuardedStoreIsNeverOver(s, capacity, t);
    } else {
      OrdinaryStepKeepsAllGuarded(s, steps[0], capacity);
      OrdinaryRunsNeverOversell(Follow(s, steps[0]), steps[1..], capacity, t);
    }
  }

  // From an empty store, with no revived hold, no instant is ever over capacity.
  lemma NoInstantIsEverOverCapacity(w: World, steps: seq<Step>, capacity: int, t: Instant)
    requires w.db.bookings == [] && 0 <= capacity
    requires LegalRun(w, steps) && OrdinaryRun(w, steps, capacity)
    ensures Load(Run(w, steps).db.bookings, Run(w, steps).clock, ALL, t) <= capacity
  {
    OrdinaryRunsNeverOversell(Tracked(w, [], 0), steps, capacity, t);
  }

  // ----- what a revived hold does

  // Bringing a lapsed hold back keeps its window within capacity exactly when the window had room.
  lemma RevivalFitsExactlyWhenThereIsRoom(w: World, step: Step, capacity: int)
    requires WellFormed(w.db.bookings) && Revives(w, step)
    ensures var b := w.db.bookings[step.id];
            (forall t | Covers(b, t) :: Load(Next(w, step).db.bookings, w.clock, ALL, t) <= capacity)
            <==> Fits(w.db.bookings, w.clock, ALL, b.startsAt, OccupiedUntil(b), Units(b), capacity)
  {
    var rows, id := w.db.bookings, step.id;
    var rows' := Next(w, step).db.bookings;
    var b := rows[id];
    assert rows' == rows[id := ConfirmRow(b, step.confirm.paymentRef)];
    RevivedRowAddsItsUnits(rows, w.clock, id, rows'[id]);
    if forall t | Covers(b, t) :: Load(rows', w.clock, ALL, t) <= capacity {
      forall t | b.startsAt <= t < OccupiedUntil(b) ensures Load(rows, w.clock, ALL, t) + Units(b) <= capacity {
        assert Covers(b, t);
      }
    }
  }

  lemma RevivedRowAddsItsUnits(rows: seq<Booking>, now: Instant, id: BookingId, b: Booking)
    requires WellFormed(rows) && id < |rows| && SameSpan(rows[id], b) && !Active(rows[id], now) && Active(b, now)
    ensures forall t | Covers(rows[id], t) :: Load(rows[id := b], now, ALL, t) == Load(rows, now, ALL, t) + Units(rows[id])
  {
    var rows' := rows[id := b];
    forall t | Covers(rows[id], t)
      ensures Load(rows', now, ALL, t) == Load(rows, now, ALL, t) + Units(rows[id])
    {
      LoadSplit(rows', now, ALL, t, id);
      LoadSplit(rows, now, ALL, t, id);
      LoadEqual(rows', now, ALL - iset{id}, t, rows, now, ALL - iset{id}, t);
    }
  }

  // ----- sweeping

  // Expiring the holds that have lapsed by `at` changes no load from then on.
  lemma SweepingChangesNoLoad(db: Db, at: Instant, now: Instant, ids: iset<BookingId>, t: Instant)
    requires WellFormed(db.bookings) && at <= now
    ensures WellFormed(Sweep(db, at).bookings)
    ensures Load(Sweep(db, at).bookings, now, ids, t) == Load(db.bookings, now, ids, t)
  {
    LoadEqual(Sweep(db, at).bookings, now, ids, t, db.bookings, now, ids, t);
  }

  // ----- the two guards

  function Without(rows: seq<Booking>, id: BookingId): seq<Booking>
    requires id < |rows|
  {
    rows[..id] + rows[id + 1..]
  }

  lemma {:induction false} LoadWithout(rows: seq<Booking>, now: Instant, id: BookingId, t: Instant)
    requires id < |rows|
    ensures Load(Without(rows, id), now, ALL, t) == Load(rows, now, AllBut(id), t)
  {
    var last := |rows| - 1;
    if id == last {
      assert Without(rows, id) == rows[..last];
      LoadAgree(rows[..last], now, ALL, AllBut(id), t);
    } else {
      assert Without(rows, id) == Without(rows[..last], id) + [rows[last]];
      LoadAppend(Without(rows[..last], id), rows[last], now, ALL, t);
      LoadWithout(rows[..last], now, id, t);
    }
  }

  // Moving a booking asks what inserting it would ask of the table without it.
  lemma RescheduleGuardIsInsertGuardWithoutIt(db: Db, id: BookingId, move: RescheduleInput)
    requires id < |db.bookings|
    ensures HasRoom(db, move.now, AllBut(id), move.startsAt, move.occupancyEndsAt, move.occupancyUnits, move.localDate, move.defaultCapacity)
       <==> HasRoom(db.(bookings := Without(db.bookings, id)), move.now, ALL, move.startsAt, move.occupancyEndsAt,
                    move.occupancyUnits, move.localDate, move.defaultCapacity)
  {
    var db' := db.(bookings := Without(db.bookings, id));
    CapacityIsUnique(db, move.localDate, move.defaultCapacity, CapacityOn(db', move.localDate, move.defaultCapacity));
    forall t ensures Load(db'.bookings, move.now, ALL, t) == Load(db.bookings, move.now, AllBut(id), t) {
      LoadWithout(db.bookings, move.now, id, t);
    }
  }

  // ----- a revived hold can oversell, and leaves no marker

  // Only a booking already stored as expired has its capacity asked again when its payment lands.
  predicate RechecksCapacity(b: Booking) {
    b.status == Expired
  }

  const LATE_HOLD := HoldInput("A", "tour", 1, 100, 200, 5000, 10, None, None, 1, 200, 0, 1, 0)
  const NEXT_HOLD := HoldInput("B", "tour", 1, 100, 200, 5000, 50, None, None, 1, 200, 0, 1, 11)
  const LATE_PAYMENT := ConfirmInput({Hold, Expired}, 7, false, false, [], [], None, 12)

  lemma AdmittedHoldIsStored(w: World, hold: HoldInput)
    requires hold.maxActiveHoldsForIp.None? && !ReferenceUsed(w.db.bookings, hold.reference) && AdmitsHold(w.db, hold)
    ensures Next(w, InsertHoldStep(hold)) == w.(db := w.db.(bookings := w.db.bookings + [NewHold(hold)]))
  {
  }

  // The first hold has lapsed by the second's request, so both are admitted for one unit of capacity.
  lemma SecondHoldIsAdmitted(w1: World, w2: World, w3: World)
    requires w1 == Next(EMPTY, InsertHoldStep(LATE_HOLD))
    requires w2 == Next(w1, Tick(11))
    requires w3 == Next(w2, InsertHoldStep(NEXT_HOLD))
    ensures w3 == EMPTY.(db := EMPTY.db.(bookings := [NewHold(LATE_HOLD), NewHold(NEXT_HOLD)]), clock := 11)
  {
    assert AdmitsHold(EMPTY.db, LATE_HOLD);
    AdmittedHoldIsStored(EMPTY, LATE_HOLD);
    var rows := [NewHold(LATE_HOLD)];
    assert w1.db.bookings == rows;
    forall t ensures Load(rows, 11, ALL, t) == 0 {
      LoadAppend([], NewHold(LATE_HOLD), 11, ALL, t);
      assert [] + [NewHold(LATE_HOLD)] == rows;
    }
    assert AdmitsHold(w2.db, NEXT_HOLD);
    assert LATE_HOLD.reference != NEXT_HOLD.reference by {
      assert "A"[0] != "B"[0];
    }
    AdmittedHoldIsStored(w2, NEXT_HOLD);
  }

  lemma LatePaymentIsConfirmed(w4: World, w5: World)
    requires |w4.db.bookings| == 2 && w4.db.bookings[0].status == Hold && w4.db.bookings[0].leaseToken == Some(7)
    requires w4.db.operations == map[]
    requires w5 == Next(w4, ConfirmStep(0, LATE_PAYMENT))
    ensures w5.db.bookings == w4.db.bookings[0 := ConfirmRow(w4.db.bookings[0], None)] && w5.clock == w4.clock
    ensures w5.db.dayOverrides == w4.db.dayOverrides && w5.db.capacityDefaults == w4.db.capacityDefaults
    ensures OversellKey(0) !in w5.db.operations
  {
  }

  lemma LeaseIsTaken(w3: World, w4: World)
    requires |w3.db.bookings| == 2 && w3.db.bookings[0].leaseUntil.None?
    requires w4 == Next(w3, AcquireStep(0, 7, 1000))
    ensures w4.db == w3.db.(bookings := w3.db.bookings[0 := w3.db.bookings[0].(leaseToken := Some(7), leaseUntil := Some(1000))])
    ensures w4.clock == w3.clock && w4.issued == w3.issued + {7}
  {
  }

  // Capacity one, two holds one after the other, then the payment of the first: the instant is
  // one unit over, and the store holds no oversell marker.
  lemma RevivedHoldOversells(w1: World, w2: World, w3: World, w4: World, w5: World)
    requires w1 == Next(EMPTY, InsertHoldStep(LATE_HOLD))
    requires w2 == Next(w1, Tick(11))
    requires w3 == Next(w2, InsertHoldStep(NEXT_HOLD))
    requires w4 == Next(w3, AcquireStep(0, 7, 1000))
    requires w5 == Next(w4, ConfirmStep(0, LATE_PAYMENT))
    ensures |w4.db.bookings| == 2 && !RechecksCapacity(w4.db.bookings[0])
    ensures CapacityOn(w5.db, 0, 1) == 1 && Load(w5.db.bookings, w5.clock, ALL, 100) == 2
    ensures OversellKey(0) !in w5.db.operations
  {
    SecondHoldIsAdmitted(w1, w2, w3);
    LeaseIsTaken(w3, w4);
    LatePaymentIsConfirmed(w4, w5);
    var a, b := w5.db.bookings[0], w5.db.bookings[1];
    LoadAppend([a], b, 11, ALL, 100);
    LoadAppend([], a, 11, ALL, 100);
    assert [] + [a] == [a] && [a] + [b] == w5.db.bookings;
    DefaultCapacityIsUsed(w5);
  }

  lemma DefaultCapacityIsUsed(w5: World)
    requires w5.db.dayOverrides == map[] && w5.db.capacityDefaults == map[]
    ensures CapacityOn(w5.db, 0, 1) == 1
  {
  }

  lemma RevivedHoldRunIsLegal(w1: World, w2: World, w3: World, w4: World)
    requires w1 == Next(EMPTY, InsertHoldStep(LATE_HOLD))
    requires w2 == Next(w1, Tick(11))
    requires w3 == Next(w2, InsertHoldStep(NEXT_HOLD))
    requires w4 == Next(w3, AcquireStep(0, 7, 1000))
    ensures Legal(EMPTY, InsertHoldStep(LATE_HOLD)) && Legal(w1, Tick(11)) && Legal(w2, InsertHoldStep(NEXT_HOLD))
    ensures Legal(w3, AcquireStep(0, 7, 1000)) && Legal(w4, ConfirmStep(0, LATE_PAYMENT))
  {
  }
}
