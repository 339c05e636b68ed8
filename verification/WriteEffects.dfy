/** What each won write means for everyone else, in the columns its request named: the units a hold, a
    move, a confirmation and an ending add or free, the cap on live holds, and the rows that are owed. */
module WriteEffects {
  import opened Schema
  import opened Usage
  import opened Statements

  lemma {:induction false} LoadIgnores(rows: seq<Booking>, id: BookingId, b: Booking, now: Instant, ids: iset<BookingId>, t: Instant)
    requires id < |rows| && id !in ids
    ensures Load(rows[id := b], now, ids, t) == Load(rows, now, ids, t)
  {
    var last := |rows| - 1;
    if id == last {
      assert rows[id := b][..last] == rows[..last];
    } else {
      assert rows[id := b][..last] == rows[..last][id := b];
      LoadIgnores(rows[..last], id, b, now, ids, t);
    }
  }

  // One row rewritten: every other booking weighs what it weighed.
  lemma RowReplaced(rows: seq<Booking>, id: BookingId, b: Booking, now: Instant, t: Instant)
    requires id < |rows|
    ensures Load(rows[id := b], now, ALL, t) == Load(rows, now, AllBut(id), t) + if InUse(b, now, t) then Units(b) else 0
  {
    LoadSplit(rows[id := b], now, ALL, t, id);
    LoadIgnores(rows, id, b, now, AllBut(id), t);
  }

  // Nothing but the booking left the units in use.
  ghost predicate LeavesNothing(rows: seq<Booking>, id: BookingId, rows': seq<Booking>) {
    forall now, t :: Load(rows', now, ALL, t) == Load(rows, now, AllBut(id), t)
  }

  // ----- a hold

  // An admitted hold takes its units over its window until it lapses, and nothing else changes.
  lemma HoldTakesItsUnits(db: Db, hold: HoldInput, now: Instant, t: Instant)
    requires InsertHold(db, hold).1.Created?
    ensures Load(InsertHold(db, hold).0.bookings, now, ALL, t)
         == Load(db.bookings, now, ALL, t)
            + if now <= hold.holdExpiresAt && hold.startsAt <= t < hold.occupancyEndsAt then hold.occupancyUnits else 0
  {
    LoadAppend(db.bookings, NewHold(hold), now, ALL, t);
  }

  // ----- a move

  // A moved booking occupies exactly the window and the units the move named, and leaves the old ones.
  lemma MoveReplacesItsLoad(db: Db, id: BookingId, move: RescheduleInput, now: Instant, t: Instant)
    requires Reschedule(db, id, move).1
    ensures id < |db.bookings| == |Reschedule(db, id, move).0.bookings|
    ensures Covers(Reschedule(db, id, move).0.bookings[id], t) <==> move.startsAt <= t < move.occupancyEndsAt
    ensures Load(Reschedule(db, id, move).0.bookings, now, ALL, t)
         == Load(db.bookings, now, AllBut(id), t)
            + if Active(db.bookings[id], now) && move.startsAt <= t < move.occupancyEndsAt then move.occupancyUnits else 0
  {
    RowReplaced(db.bookings, id, Moved(db.bookings[id], move), now, t);
  }

  // With the booking moved, its new window stays within the capacity resolved for the move.
  lemma MovedBookingFits(db: Db, id: BookingId, move: RescheduleInput, t: Instant)
    requires Reschedule(db, id, move).1 && move.startsAt <= t < move.occupancyEndsAt && 0 <= move.occupancyUnits
    ensures Load(Reschedule(db, id, move).0.bookings, move.now, ALL, t) <= CapacityOn(db, move.localDate, move.defaultCapacity)
  {
    MoveReplacesItsLoad(db, id, move, move.now, t);
    assert Load(db.bookings, move.now, AllBut(id), t) + move.occupancyUnits
        <= CapacityOn(db, move.localDate, move.defaultCapacity);
  }

  // The next request for the same window is admitted exactly when it fits beside the moved units.
  lemma NextHoldSeesTheMove(db: Db, id: BookingId, move: RescheduleInput, hold: HoldInput)
    requires Reschedule(db, id, move).1 && Active(db.bookings[id], hold.createdAt)
    requires hold.maxActiveHoldsForIp.None? && !ReferenceUsed(db.bookings, hold.reference)
    requires hold.startsAt == move.startsAt && hold.occupancyEndsAt == move.occupancyEndsAt
    ensures InsertHold(Reschedule(db, id, move).0, hold).1.Created?
       <==> forall t | move.startsAt <= t < move.occupancyEndsAt ::
              Load(db.bookings, hold.createdAt, AllBut(id), t) + move.occupancyUnits + hold.occupancyUnits
              <= CapacityOn(db, hold.localDate, hold.defaultCapacity)
  {
    var after := Reschedule(db, id, move).0;
    assert !ReferenceUsed(after.bookings, hold.reference);
    CapacityIsUnique(db, hold.localDate, hold.defaultCapacity, CapacityOn(after, hold.localDate, hold.defaultCapacity));
    var capacity := CapacityOn(db, hold.localDate, hold.defaultCapacity);
    forall t | move.startsAt <= t < move.occupancyEndsAt
      ensures Load(after.bookings, hold.createdAt, ALL, t) + hold.occupancyUnits <= capacity
         <==> Load(db.bookings, hold.createdAt, AllBut(id), t) + move.occupancyUnits + hold.occupancyUnits <= capacity
    {
      MoveReplacesItsLoad(db, id, move, hold.createdAt, t);
    }
    if AdmitsHold(after, hold) {
      forall t | move.startsAt <= t < move.occupancyEndsAt
        ensures Load(db.bookings, hold.createdAt, AllBut(id), t) + move.occupancyUnits + hold.occupancyUnits <= capacity
      {
        assert Load(after.bookings, hold.createdAt, ALL, t) + hold.occupancyUnits <= capacity;
      }
    } else {
      var t :| move.startsAt <= t < move.occupancyEndsAt && Load(after.bookings, hold.createdAt, ALL, t) + hold.occupancyUnits > capacity;
      assert Load(db.bookings, hold.createdAt, AllBut(id), t) + move.occupancyUnits + hold.occupancyUnits > capacity;
    }
  }

  // ----- a confirmation and the endings

  // A confirmed booking keeps the window and the units it was sold, whatever the clock says.
  lemma ConfirmationKeepsItsWindow(db: Db, id: BookingId, confirm: ConfirmInput, now: Instant, t: Instant)
    requires Confirm(db, id, confirm).1
    ensures id < |db.bookings|
    ensures var b := db.bookings[id];
            var until := if b.occupancyEndsAt.Some? then b.occupancyEndsAt.value else b.endsAt;
            var units := if b.occupancyUnits.Some? then b.occupancyUnits.value else 1;
            Load(Confirm(db, id, confirm).0.bookings, now, ALL, t)
            == Load(db.bookings, now, AllBut(id), t) + if b.startsAt <= t < until then units else 0
  {
    RowReplaced(db.bookings, id, ConfirmRow(db.bookings[id], confirm.paymentRef), now, t);
  }

  lemma EndedRowLeavesNothing(rows: seq<Booking>, id: BookingId, b: Booking)
    requires id < |rows| && b.status != Confirmed && (b.status == Hold ==> b.holdExpiresAt.None?)
    ensures LeavesNothing(rows, id, rows[id := b])
  {
    forall now, t ensures Load(rows[id := b], now, ALL, t) == Load(rows, now, AllBut(id), t) {
      RowReplaced(rows, id, b, now, t);
    }
  }

  // A booking that ended occupies nothing from then on, and nobody else is touched.
  lemma EndingsFreeTheWindow(db: Db, id: BookingId, cancel: CancelInput, expected: set<BookingStatus>, seeds: seq<Seed>)
    ensures Cancel(db, id, cancel).1 ==> LeavesNothing(db.bookings, id, Cancel(db, id, cancel).0.bookings)
    ensures MarkNoShow(db, id, expected, seeds).1 ==> LeavesNothing(db.bookings, id, MarkNoShow(db, id, expected, seeds).0.bookings)
    ensures ExpireHold(db, id).1 ==> LeavesNothing(db.bookings, id, ExpireHold(db, id).0.bookings)
  {
    if id < |db.bookings| {
      var b := db.bookings[id];
      EndedRowLeavesNothing(db.bookings, id, b.(status := Cancelled));
      EndedRowLeavesNothing(db.bookings, id, b.(status := NoShow));
      EndedRowLeavesNothing(db.bookings, id, b.(status := Expired, holdExpiresAt := None));
    }
  }

  ghost function LapsedHolds(rows: seq<Booking>, n: nat, now: Instant): set<BookingId>
    requires n <= |rows|
  {
    set i: BookingId | i < n && rows[i].status == Hold && rows[i].holdExpiresAt.Some? && rows[i].holdExpiresAt.value < now
  }

  lemma OneMoreLapsed(rows: seq<Booking>, n: nat, now: Instant)
    requires n < |rows|
    ensures |LapsedHolds(rows, 0, now)| == 0
    ensures |LapsedHolds(rows, n + 1, now)|
         == |LapsedHolds(rows, n, now)|
            + if rows[n].status == Hold && rows[n].holdExpiresAt.Some? && rows[n].holdExpiresAt.value < now then 1 else 0
  {
    var lapsed := rows[n].status == Hold && rows[n].holdExpiresAt.Some? && rows[n].holdExpiresAt.value < now;
    assert LapsedHolds(rows, n + 1, now) == LapsedHolds(rows, n, now) + if lapsed then {n} else {};
  }

  // ----- the cap on live holds of one address

  ghost function LiveHoldIds(rows: seq<Booking>, ip: string, now: Instant): set<BookingId> {
    set i: BookingId | i < |rows| && rows[i].holdIp == Some(ip) && rows[i].status == Hold
                       && rows[i].holdExpiresAt.Some? && now <= rows[i].holdExpiresAt.value
  }

  lemma {:induction false} HoldsAreCounted(rows: seq<Booking>, ip: string, now: Instant)
    ensures HoldsFrom(rows, Some(ip), now) == |LiveHoldIds(rows, ip, now)|
  {
    if rows != [] {
      var last := |rows| - 1;
      var before := LiveHoldIds(rows[..last], ip, now);
      HoldsAreCounted(rows[..last], ip, now);
      assert LiveHoldIds(rows, ip, now) == before + if LiveHoldFrom(rows[last], Some(ip), now) then {last} else {};
    }
  }

  lemma {:induction false} NobodyHoldsWithoutAnAddress(rows: seq<Booking>, now: Instant)
    ensures HoldsFrom(rows, None, now) == 0
  {
    if rows != [] { NobodyHoldsWithoutAnAddress(rows[..|rows| - 1], now); }
  }

  // A request with a free reference and room is turned away for too many holds exactly when a cap was
  // set and that many bookings of its address are live holds.
  lemma HoldCapIsExact(db: Db, hold: HoldInput)
    requires !ReferenceUsed(db.bookings, hold.reference)
    ensures InsertHold(db, hold).1 == TooManyHolds
       <==> hold.maxActiveHoldsForIp.Some?
            && hold.maxActiveHoldsForIp.value
               <= if hold.holdIp.Some? then |LiveHoldIds(db.bookings, hold.holdIp.value, hold.createdAt)| else 0
    ensures hold.maxActiveHoldsForIp.None? ==> (InsertHold(db, hold).1.Created? <==> AdmitsHold(db, hold))
  {
    if hold.holdIp.Some? {
      HoldsAreCounted(db.bookings, hold.holdIp.value, hold.createdAt);
    } else {
      NobodyHoldsWithoutAnAddress(db.bookings, hold.createdAt);
    }
  }

  // ----- the rows of a confirmation

  // Its calendar row if a calendar is to be written, an email row for each recipient or one for all of
  // them, the marker if it was sold without room, and a row for each subscriber.
  predicate OwedByConfirmation(k: OperationKey, id: BookingId, confirm: ConfirmInput) {
    || (confirm.calendarOwed && k == OperationKey(id, CalendarCreate, None, None, NoDiscriminator))
    || (confirm.emailRecipients == [] && k == OperationKey(id, EmailConfirmation, None, None, NoDiscriminator))
    || (exists r | r in confirm.emailRecipients :: k == OperationKey(id, Email, Some(r), Some(BookingConfirmed), NoDiscriminator))
    || (confirm.oversold && k == OperationKey(id, Oversell, None, None, NoDiscriminator))
    || (exists s | s in confirm.eventSeeds :: k == OperationKey(id, s.family, s.name, s.event, NoDiscriminator))
  }

  lemma ConfirmationOwesItsRows(id: BookingId, confirm: ConfirmInput, k: OperationKey)
    ensures k in ConfirmationRows(id, confirm) <==> OwedByConfirmation(k, id, confirm)
    ensures k in ConfirmationRows(id, confirm) && k.family != Oversell
            ==> ConfirmationRows(id, confirm)[k] == Operation(Pending, None, 0, None, None, None, None)
    ensures confirm.oversold ==>
              ConfirmationRows(id, confirm)[OperationKey(id, Oversell, None, None, NoDiscriminator)]
              == Operation(Succeeded, Some("capacity_exceeded"), 0, None, Some(confirm.updatedAt), None, None)
  {
    if s :| s in confirm.eventSeeds && k == OperationKey(id, s.family, s.name, s.event, NoDiscriminator) {
      assert KeyOf(id, s, NoDiscriminator) in SeedKeys(id, confirm.eventSeeds, NoDiscriminator);
    }
  }

  // What the repair adds to a confirmed booking under its lease: the calendar row, already delivered if
  // the booking has its event; the emails, unless rows of the other shape exist; the subscribers.
  predicate OwedByRepair(k: OperationKey, db: Db, id: BookingId, ensure: EnsureInput) {
    || (ensure.calendarOwed && k == OperationKey(id, CalendarCreate, None, None, NoDiscriminator))
    || (ensure.emailRecipients == [] && k == OperationKey(id, EmailConfirmation, None, None, NoDiscriminator)
        && forall o | o in db.operations :: !(o.booking == id && o.family == Email && o.event == Some(BookingConfirmed)))
    || ((exists r | r in ensure.emailRecipients :: k == OperationKey(id, Email, Some(r), Some(BookingConfirmed), NoDiscriminator))
        && forall o | o in db.operations :: !(o.booking == id && o.family == EmailConfirmation))
    || (exists s | s in ensure.eventSeeds :: k == OperationKey(id, s.family, s.name, s.event, NoDiscriminator))
  }

  lemma RepairOwesItsRows(db: Db, id: BookingId, ensure: EnsureInput, k: OperationKey)
    requires id < |db.bookings|
    ensures k in RepairRows(db, id, ensure) <==> OwedByRepair(k, db, id, ensure)
    ensures k in RepairRows(db, id, ensure) ==>
              RepairRows(db, id, ensure)[k]
              == if k.family == CalendarCreate && ensure.calendarOwed && k.name.None? && k.event.None? && db.bookings[id].calendarEventId.Some?
                 then Operation(Succeeded, db.bookings[id].calendarEventId, 0, None, Some(ensure.now), None, None)
                 else Operation(Pending, None, 0, None, None, None, None)
  {
    if s :| s in ensure.eventSeeds && k == OperationKey(id, s.family, s.name, s.event, NoDiscriminator) {
      assert KeyOf(id, s, NoDiscriminator) in SeedKeys(id, ensure.eventSeeds, NoDiscriminator);
    }
  }
}
