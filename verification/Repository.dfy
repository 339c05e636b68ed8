/** The repository: the tables as fields, every call an update in place, each proved to have
    the effect its statement promises. */
module Repository {
  import opened Schema
  import opened Usage
  import S = Statements
  import W = WriteEffects

  class Repo {
    var bookings: seq<Booking>
    var operations: map<OperationKey, Operation>
    var refunds: map<BookingId, Refund>
    var dayOverrides: map<Date, int>
    var capacityDefaults: map<Date, int>

    ghost function State(): Db
      reads this
    {
      Db(bookings, operations, refunds, dayOverrides, capacityDefaults)
    }

    ghost predicate Valid()
      reads this
    {
      WellFormed(bookings)
    }

    constructor ()
      ensures Valid() && State() == Db([], map[], map[], map[], map[])
    {
      bookings, operations, refunds, dayOverrides, capacityDefaults := [], map[], map[], map[], map[];
    }

    // ----- the capacity guard

    // COALESCE(the day's override, the latest default at or before it, the configured default).
    method ResolveCapacity(date: Date, fallback: int) returns (capacity: int)
      ensures capacity == S.CapacityOn(State(), date, fallback)
    {
      if date in dayOverrides {
        return if dayOverrides[date] < 0 then 0 else dayOverrides[date];
      }
      var latest: Option<Date> := None;
      var dates := capacityDefaults.Keys;
      var rest := dates;
      while exists d :: d in rest
        invariant rest <= dates
        invariant latest.Some? ==> latest.value in capacityDefaults && latest.value <= date
        invariant forall d | d in dates && d !in rest && d <= date :: latest.Some? && d <= latest.value
        decreases rest
      {
        var d :| d in rest;
        if d <= date && (latest.None? || latest.value < d) { latest := Some(d); }
        rest := rest - {d};
      }
      capacity := if latest.Some? then capacityDefaults[latest.value] else fallback;
      if capacity < 0 { capacity := 0; }
      if latest.Some? {
        assert S.LatestNotAfter(capacityDefaults.Keys, date, latest.value);
      }
      S.CapacityIsUnique(State(), date, fallback, capacity);
    }

    // The units of the active bookings covering one point, but for one booking.
    method UnitsAt(now: Instant, except: Option<BookingId>, point: Instant) returns (sum: int)
      ensures sum == Load(bookings, now, Besides(except), point)
    {
      sum := 0;
      for i := 0 to |bookings|
        invariant sum == Load(bookings[..i], now, Besides(except), point)
      {
        assert bookings[..i + 1][..i] == bookings[..i];
        if except != Some(i) && Active(bookings[i], now) && Covers(bookings[i], point) {
          sum := sum + Units(bookings[i]);
        }
      }
      assert bookings[..|bookings|] == bookings;
    }

    static ghost function Besides(except: Option<BookingId>): iset<BookingId> {
      if except.Some? then AllBut(except.value) else ALL
    }

    // Tests the request's own start, then the start of each overlapping active booking.
    method OverCapacity(now: Instant, except: Option<BookingId>, from: Instant, to: Instant, units: int, capacity: int)
      returns (over: bool)
      requires Valid() && from < to
      ensures over <==> !Fits(bookings, now, Besides(except), from, to, units, capacity)
    {
      ghost var ids := Besides(except);
      CandidatePointsDecide(bookings, now, ids, from, to, units, capacity);
      var used := UnitsAt(now, except, from);
      if used + units > capacity { return true; }
      for i := 0 to |bookings|
        invariant forall j: nat | j < i && j in ids && StartsInside(bookings[j], now, from, to) ::
                    Load(bookings, now, ids, bookings[j].startsAt) + units <= capacity
      {
        if except != Some(i) && StartsInside(bookings[i], now, from, to) {
          used := UnitsAt(now, except, bookings[i].startsAt);
          if used + units > capacity {
            assert Candidate(bookings, now, ids, from, to, bookings[i].startsAt);
            return true;
          }
        }
      }
      over := false;
    }

    method CountHolds(ip: Option<string>, now: Instant) returns (count: nat)
      ensures count == S.HoldsFrom(bookings, ip, now)
      ensures ip.Some? ==> count == |W.LiveHoldIds(bookings, ip.value, now)|
    {
      count := 0;
      for i := 0 to |bookings|
        invariant count == S.HoldsFrom(bookings[..i], ip, now)
      {
        assert bookings[..i + 1][..i] == bookings[..i];
        var b := bookings[i];
        if ip.Some? && b.holdIp == ip && b.status == Hold && b.holdExpiresAt.Some? && b.holdExpiresAt.value >= now { count := count + 1; }
      }
      assert bookings[..|bookings|] == bookings;
      if ip.Some? { W.HoldsAreCounted(bookings, ip.value, now); }
    }

    method ReferenceTaken(reference: string) returns (taken: bool)
      ensures taken <==> S.ReferenceUsed(bookings, reference)
    {
      taken := false;
      for i := 0 to |bookings|
        invariant taken <==> exists j: nat :: j < i && bookings[j].reference == reference
      {
        if bookings[i].reference == reference { taken := true; }
      }
    }

    method InsertHoldWithCapacity(hold: S.HoldInput) returns (outcome: S.InsertOutcome)
      requires Valid() && hold.Valid()
      modifies this
      ensures Valid()
      ensures (State(), outcome) == S.InsertHold(old(State()), hold)
      ensures outcome.Created? ==> forall now, t ::
                Load(bookings, now, ALL, t)
                == Load(old(bookings), now, ALL, t)
                   + if now <= hold.holdExpiresAt && hold.startsAt <= t < hold.occupancyEndsAt then hold.occupancyUnits else 0
    {
      var capacity := ResolveCapacity(hold.localDate, hold.defaultCapacity);
      var held := CountHolds(hold.holdIp, hold.createdAt);
      var underLimit := hold.maxActiveHoldsForIp.None? || held < hold.maxActiveHoldsForIp.value;
      var over := OverCapacity(hold.createdAt, None, hold.startsAt, hold.occupancyEndsAt, hold.occupancyUnits, capacity);
      var taken := ReferenceTaken(hold.reference);
      if underLimit && !over && !taken {
        outcome := S.Created(|bookings|);
        bookings := bookings + [Booking(hold.reference, hold.serviceSlug, hold.quantity, hold.startsAt, hold.endsAt, hold.priceMinor,
                                        Hold, Some(hold.holdExpiresAt), hold.holdIp, Some(hold.occupancyUnits),
                                        Some(hold.occupancyEndsAt), None, 0, None, None, None, None, 0)];
        forall now, t { W.HoldTakesItsUnits(old(State()), hold, now, t); }
        return;
      }
      // The write lost: say why.
      if taken { return S.ReferenceTaken; }
      if !underLimit { return S.TooManyHolds; }
      outcome := S.NoCapacity;
    }

    // ----- the outbox insert that rides in a transition's batch

    // Every seed has its row; a row that is new is one of theirs, pending and never attempted; a row
    // that was there is as it was.
    static ghost predicate RowsAdded(before: map<OperationKey, Operation>, after: map<OperationKey, Operation>,
                                     id: BookingId, seeds: seq<Seed>, discriminator: Discriminator)
    {
      && (forall s | s in seeds :: OperationKey(id, s.family, s.name, s.event, discriminator) in after)
      && (forall k | k in before :: k in after && after[k] == before[k])
      && (forall k | k in after && k !in before ::
            && k.booking == id && k.discriminator == discriminator && Seed(k.family, k.name, k.event) in seeds
            && after[k] == Operation(Pending, None, 0, None, None, None, None))
    }

    method InsertSeeds(id: BookingId, seeds: seq<Seed>, discriminator: Discriminator)
      modifies this`operations
      ensures operations == S.Insert(old(operations), S.SeedKeys(id, seeds, discriminator))
      ensures RowsAdded(old(operations), operations, id, seeds, discriminator)
    {
      ghost var done: set<OperationKey> := {};
      for k := 0 to |seeds|
        invariant done == set j | 0 <= j < k :: S.KeyOf(id, seeds[j], discriminator)
        invariant operations == S.Insert(old(operations), done)
      {
        var key := OperationKey(id, seeds[k].family, seeds[k].name, seeds[k].event, discriminator);
        S.InsertOneMore(old(operations), done, key);
        if key !in operations { operations := operations[key := Operation(Pending, None, 0, None, None, None, None)]; }
        done := done + {key};
      }
      assert done == S.SeedKeys(id, seeds, discriminator);
    }

    method RescheduleWithCapacity(id: BookingId, move: S.RescheduleInput) returns (won: bool)
      requires Valid() && move.Valid()
      modifies this
      ensures Valid()
      ensures (State(), won) == S.Reschedule(old(State()), id, move)
      ensures !won ==> State() == old(State())
      ensures won ==>
                && id < |bookings| == |old(bookings)|
                && (forall t :: Covers(bookings[id], t) <==> move.startsAt <= t < move.occupancyEndsAt)
                && bookings[id].endsAt == move.endsAt && bookings[id].rescheduledFrom == Some(move.rescheduledFrom)
                && bookings[id].rescheduleVersion == old(bookings)[id].rescheduleVersion + 1
                && RowsAdded(old(operations), operations, id, move.seeds, Version(bookings[id].rescheduleVersion))
      ensures won ==> forall now, t ::
                Load(bookings, now, ALL, t)
                == Load(old(bookings), now, AllBut(id), t)
                   + if Active(old(bookings)[id], now) && move.startsAt <= t < move.occupancyEndsAt then move.occupancyUnits else 0
      ensures won ==> forall t | move.startsAt <= t < move.occupancyEndsAt ::
                Load(bookings, move.now, ALL, t) <= S.CapacityOn(old(State()), move.localDate, move.defaultCapacity)
    {
      if id >= |bookings| || bookings[id].status != move.expectedStatus || bookings[id].startsAt != move.expectedStartsAt {
        return false;
      }
      var capacity := ResolveCapacity(move.localDate, move.defaultCapacity);
      var over := OverCapacity(move.now, Some(id), move.startsAt, move.occupancyEndsAt, move.occupancyUnits, capacity);
      if over { return false; }
      // The version is read before the update raises it, in the same batch.
      InsertSeeds(id, move.seeds, Version(bookings[id].rescheduleVersion + 1));
      bookings := bookings[id := bookings[id].(startsAt := move.startsAt, endsAt := move.endsAt,
                                               rescheduledFrom := Some(move.rescheduledFrom),
                                               occupancyUnits := Some(move.occupancyUnits),
                                               occupancyEndsAt := Some(move.occupancyEndsAt),
                                               rescheduleVersion := bookings[id].rescheduleVersion + 1)];
      won := true;
      forall now, t { W.MoveReplacesItsLoad(old(State()), id, move, now, t); }
      forall t | move.startsAt <= t < move.occupancyEndsAt { W.MovedBookingFits(old(State()), id, move, t); }
    }

    // ----- ending a booking

    method SweepExpiredHolds(now: Instant) returns (changes: nat)
      requires Valid()
      modifies this`bookings
      ensures Valid() && State() == S.Sweep(old(State()), now)
      ensures changes == 0 ==> State() == old(State())
      ensures changes == |W.LapsedHolds(old(bookings), |old(bookings)|, now)|
    {
      changes := 0;
      ghost var before := bookings;
      for i := 0 to |bookings|
        invariant |bookings| == |before|
        invariant changes == |W.LapsedHolds(before, i, now)|
        invariant forall j | 0 <= j < i :: bookings[j] == S.SweepRow(before[j], now)
        invariant forall j | i <= j < |before| :: bookings[j] == before[j]
        invariant changes == 0 ==> bookings == before
      {
        var b := bookings[i];
        W.OneMoreLapsed(before, i, now);
        if b.status == Hold && b.holdExpiresAt.Some? && b.holdExpiresAt.value < now {
          bookings := bookings[i := b.(status := Expired, holdExpiresAt := None)];
          changes := changes + 1;
        }
      }
    }

    method ExpireHold(id: BookingId) returns (won: bool)
      requires Valid()
      modifies this`bookings
      ensures Valid() && (State(), won) == S.ExpireHold(old(State()), id)
      ensures won ==> id < |bookings| && bookings[id].status == Expired && W.LeavesNothing(old(bookings), id, bookings)
    {
      won := id < |bookings| && bookings[id].status == Hold;
      if won {
        bookings := bookings[id := bookings[id].(status := Expired, holdExpiresAt := None)];
        W.EndedRowLeavesNothing(old(bookings), id, bookings[id]);
      }
    }

    method TransitionToCancelled(id: BookingId, cancel: S.CancelInput) returns (won: bool)
      requires Valid()
      modifies this`bookings, this`operations
      ensures Valid() && (State(), won) == S.Cancel(old(State()), id, cancel)
      ensures won ==>
                && id < |bookings| && bookings[id].status == Cancelled && W.LeavesNothing(old(bookings), id, bookings)
                && RowsAdded(old(operations), operations, id, cancel.seeds, NoDiscriminator)
    {
      won := id < |bookings| && bookings[id].status in cancel.expectedStatusIn
             && (cancel.expectedStartsAt.None? || bookings[id].startsAt == cancel.expectedStartsAt.value);
      if won {
        InsertSeeds(id, cancel.seeds, NoDiscriminator);
        bookings := bookings[id := bookings[id].(status := Cancelled)];
        W.EndedRowLeavesNothing(old(bookings), id, bookings[id]);
      }
    }

    method UpsertRefundOperationAndTransitionToCancelled(report: S.ProviderRefund, id: BookingId, cancel: S.CancelInput)
      returns (won: bool)
      requires Valid()
      modifies this
      ensures Valid() && (State(), won) == S.ReconcileRefundAndCancel(old(State()), id, report, cancel)
    {
      ReconcileStripeRefundOperation(id, report);
      won := TransitionToCancelled(id, cancel);
    }

    method TransitionToNoShow(id: BookingId, expectedStatusIn: set<BookingStatus>, seeds: seq<Seed>) returns (won: bool)
      requires Valid()
      modifies this`bookings, this`operations
      ensures Valid() && (State(), won) == S.MarkNoShow(old(State()), id, expectedStatusIn, seeds)
      ensures won ==>
                && id < |bookings| && bookings[id].status == NoShow && W.LeavesNothing(old(bookings), id, bookings)
                && RowsAdded(old(operations), operations, id, seeds, NoDiscriminator)
    {
      won := id < |bookings| && bookings[id].status in expectedStatusIn;
      if won {
        InsertSeeds(id, seeds, NoDiscriminator);
        bookings := bookings[id := bookings[id].(status := NoShow)];
        W.EndedRowLeavesNothing(old(bookings), id, bookings[id]);
      }
    }

    // ----- confirming

    method DuplicatePaymentRef(id: BookingId, paymentRef: Option<string>) returns (duplicate: bool)
      ensures duplicate <==> S.PaymentRefTaken(bookings, id, paymentRef)
    {
      duplicate := false;
      for i := 0 to |bookings|
        invariant duplicate <==> paymentRef.Some? && exists j: nat :: j < i && j != id && bookings[j].paymentRef == paymentRef
      {
        if paymentRef.Some? && i != id && bookings[i].paymentRef == paymentRef { duplicate := true; }
      }
    }

    method InsertRows(rows: map<OperationKey, Operation>)
      modifies this`operations
      ensures operations == S.InsertRows(old(operations), rows)
    {
      var rest := rows.Keys;
      while rest != {}
        invariant rest <= rows.Keys
        invariant operations == S.InsertRows(old(operations), map k | k in rows.Keys - rest :: rows[k])
        decreases rest
      {
        var key :| key in rest;
        if key !in operations { operations := operations[key := rows[key]]; }
        rest := rest - {key};
      }
      assert (map k | k in rows.Keys - {} :: rows[k]) == rows;
    }

    // INSERT ... ON CONFLICT DO NOTHING of one row.
    method InsertRow(key: OperationKey, row: Operation)
      modifies this`operations
      ensures operations == S.InsertRows(old(operations), map[key := row])
    {
      if key !in operations { operations := operations[key := row]; }
    }

    // One row per recipient, or the single combined one.
    method InsertEmailRows(id: BookingId, recipients: seq<string>)
      modifies this`operations
      ensures operations == S.Insert(old(operations), S.EmailKeys(id, recipients))
    {
      if |recipients| == 0 {
        InsertRow(OperationKey(id, EmailConfirmation, None, None, NoDiscriminator), Operation(Pending, None, 0, None, None, None, None));
        return;
      }
      ghost var done: set<OperationKey> := {};
      for k := 0 to |recipients|
        invariant done == set j | 0 <= j < k :: OperationKey(id, Email, Some(recipients[j]), Some(BookingConfirmed), NoDiscriminator)
        invariant operations == S.Insert(old(operations), done)
      {
        var key := OperationKey(id, Email, Some(recipients[k]), Some(BookingConfirmed), NoDiscriminator);
        S.InsertOneMore(old(operations), done, key);
        InsertRow(key, Operation(Pending, None, 0, None, None, None, None));
        done := done + {key};
      }
      assert done == S.EmailKeys(id, recipients);
    }

    method InsertCalendarRow(id: BookingId, owed: bool)
      modifies this`operations
      ensures operations == S.Insert(old(operations), if owed then {S.CalendarKey(id)} else {})
    {
      if owed {
        InsertRow(OperationKey(id, CalendarCreate, None, None, NoDiscriminator), Operation(Pending, None, 0, None, None, None, None));
      }
    }

    method InsertOversellMarker(id: BookingId, confirm: S.ConfirmInput)
      modifies this`operations
      ensures operations == S.InsertRows(old(operations), S.MarkerRows(id, confirm))
    {
      if confirm.oversold {
        InsertRow(OperationKey(id, Oversell, None, None, NoDiscriminator),
                  Operation(Succeeded, Some("capacity_exceeded"), 0, None, Some(confirm.updatedAt), None, None));
      }
    }

    // The rows a confirmation owes, in the order of its batch.
    method InsertConfirmationRows(id: BookingId, confirm: S.ConfirmInput)
      modifies this`operations
      ensures operations == S.InsertRows(old(operations), S.ConfirmationRows(id, confirm))
    {
      InsertCalendarRow(id, confirm.calendarOwed);
      InsertEmailRows(id, confirm.emailRecipients);
      InsertOversellMarker(id, confirm);
      InsertSeeds(id, confirm.eventSeeds, NoDiscriminator);
      S.ConfirmationRowsInOrder(old(operations), id, confirm);
    }

    method ConfirmWithSideEffectOperations(id: BookingId, confirm: S.ConfirmInput) returns (won: bool)
      requires Valid()
      modifies this`bookings, this`operations
      ensures Valid() && (State(), won) == S.Confirm(old(State()), id, confirm)
      ensures won ==>
                && id < |bookings| && bookings[id].status == Confirmed && bookings[id].holdExpiresAt.None?
                && (confirm.paymentRef.Some? ==> bookings[id].paymentRef == confirm.paymentRef)
                && (confirm.paymentRef.Some? ==> forall i: nat | i < |bookings| && i != id :: bookings[i].paymentRef != confirm.paymentRef)
      ensures won ==> forall k :: k in operations <==> k in old(operations) || W.OwedByConfirmation(k, id, confirm)
    {
      won := id < |bookings| && bookings[id].leaseToken == Some(confirm.leaseToken)
             && bookings[id].status in confirm.expectedStatusIn;
      if won {
        var duplicate := DuplicatePaymentRef(id, confirm.paymentRef);
        if duplicate { return false; }
        bookings := bookings[id := bookings[id].(status := Confirmed, holdExpiresAt := None,
                                                 paymentRef := if confirm.paymentRef.Some? then confirm.paymentRef else bookings[id].paymentRef)];
      }
      if id < |bookings| && bookings[id].leaseToken == Some(confirm.leaseToken) && bookings[id].status == Confirmed {
        InsertConfirmationRows(id, confirm);
        forall k { W.ConfirmationOwesItsRows(id, confirm, k); }
      }
    }

    method ApplyConfirmedPaymentDetails(id: BookingId, paymentRef: Option<string>, token: Token) returns (applied: bool)
      requires Valid()
      modifies this`bookings
      ensures Valid() && (State(), applied) == S.ApplyPaymentDetails(old(State()), id, paymentRef, token)
    {
      if paymentRef.None? || !(id < |bookings| && bookings[id].status == Confirmed && bookings[id].leaseToken == Some(token)) {
        return false;
      }
      if bookings[id].paymentRef.None? {
        var duplicate := DuplicatePaymentRef(id, paymentRef);
        if duplicate { return false; }
        bookings := bookings[id := bookings[id].(paymentRef := paymentRef)];
      }
      applied := true;
    }

    // A booking that has its event already gets its calendar row delivered.
    method InsertRepairedCalendar(id: BookingId, ensure: S.EnsureInput)
      requires id < |bookings|
      modifies this`operations
      ensures operations == S.InsertRows(old(operations), S.RepairedCalendar(bookings[id], id, ensure))
    {
      if !ensure.calendarOwed { return; }
      var event := bookings[id].calendarEventId;
      InsertRow(OperationKey(id, CalendarCreate, None, None, NoDiscriminator),
                if event.Some? then Operation(Succeeded, event, 0, None, Some(ensure.now), None, None)
                else Operation(Pending, None, 0, None, None, None, None));
    }

    // One shape of email row only when the other is absent.
    method InsertRepairedEmails(id: BookingId, recipients: seq<string>)
      modifies this`operations
      ensures operations == S.Insert(old(operations), S.RepairedEmails(old(operations), id, recipients))
    {
      var taken := if |recipients| == 0
                   then exists k | k in operations :: k.booking == id && k.family == Email && k.event == Some(BookingConfirmed)
                   else exists k | k in operations :: k.booking == id && k.family == EmailConfirmation;
      if !taken { InsertEmailRows(id, recipients); }
    }

    method EnsureConfirmationSideEffectOperations(id: BookingId, ensure: S.EnsureInput)
      modifies this`operations
      ensures State() == S.EnsureConfirmationOperations(old(State()), id, ensure)
      ensures forall k :: k in operations <==>
                k in old(operations)
                || (S.ConfirmedUnder(old(State()), id, ensure.leaseToken) && W.OwedByRepair(k, old(State()), id, ensure))
    {
      if id < |bookings| && bookings[id].leaseToken == Some(ensure.leaseToken) && bookings[id].status == Confirmed {
        InsertRepairedCalendar(id, ensure);
        S.RepairedCalendarTakesNoEmailShape(old(operations), bookings[id], id, ensure);
        InsertRepairedEmails(id, ensure.emailRecipients);
        InsertSeeds(id, ensure.eventSeeds, NoDiscriminator);
        S.RepairRowsInOrder(old(State()), id, ensure);
        forall k { W.RepairOwesItsRows(old(State()), id, ensure, k); }
      }
    }

    method RecordBookingEventOperations(keys: set<OperationKey>)
      modifies this`operations
      ensures State() == S.RecordEventOperations(old(State()), keys)
    {
      InsertRows(map k | k in keys :: Operation(Pending, None, 0, None, None, None, None));
    }

    // ----- the confirmation lease

    method AcquireConfirmationLease(id: BookingId, token: Token, now: Instant, until: Instant) returns (acquired: bool)
      requires Valid()
      modifies this`bookings
      ensures Valid() && (State(), acquired) == S.AcquireLease(old(State()), id, token, now, until)
    {
      acquired := id < |bookings| && (bookings[id].leaseUntil.None? || bookings[id].leaseUntil.value < now);
      if acquired { bookings := bookings[id := bookings[id].(leaseToken := Some(token), leaseUntil := Some(until))]; }
    }

    method RenewConfirmationLease(id: BookingId, token: Token, now: Instant, until: Instant) returns (renewed: bool)
      requires Valid()
      modifies this`bookings
      ensures Valid() && (State(), renewed) == S.RenewLease(old(State()), id, token, now, until)
    {
      renewed := id < |bookings| && bookings[id].leaseToken == Some(token)
                 && bookings[id].leaseUntil.Some? && bookings[id].leaseUntil.value >= now;
      if renewed { bookings := bookings[id := bookings[id].(leaseUntil := Some(until))]; }
    }

    method ReleaseConfirmationLease(id: BookingId, token: Token)
      requires Valid()
      modifies this`bookings
      ensures Valid() && State() == S.ReleaseLease(old(State()), id, token)
    {
      if id < |bookings| && bookings[id].leaseToken == Some(token) {
        bookings := bookings[id := bookings[id].(leaseToken := None, leaseUntil := None)];
      }
    }

    // ----- claiming and resolving outbox rows

    method ClaimSideEffectOperation(key: OperationKey, token: Token, now: Instant) returns (attempt: Option<nat>)
      modifies this`operations
      ensures (State(), attempt) == S.ClaimConfirmation(old(State()), key, token, now)
    {
      attempt := None;
      if key in operations {
        var op := operations[key];
        if op.status != Succeeded && op.status != Abandoned && op.attemptCount < SIDE_EFFECT_MAX_ATTEMPTS
           && (op.nextAttemptAt.None? || op.nextAttemptAt.value <= now)
           && key.booking < |bookings| && bookings[key.booking].leaseToken == Some(token) {
          attempt := StartAttempt(key, now);
        }
      }
    }

    method ClaimSideEffectOperationForRetry(key: OperationKey, token: Token, now: Instant) returns (attempt: Option<nat>)
      modifies this`operations
      ensures (State(), attempt) == S.ClaimConfirmationForRetry(old(State()), key, token, now)
    {
      attempt := None;
      if key in operations && operations[key].status != Succeeded
         && key.booking < |bookings| && bookings[key.booking].leaseToken == Some(token) {
        attempt := StartAttempt(key, now);
      }
    }

    method StartAttempt(key: OperationKey, now: Instant) returns (attempt: Option<nat>)
      requires key in operations
      modifies this`operations
      ensures (State(), attempt) == S.Take(old(State()), key, now)
    {
      var op := operations[key];
      operations := operations[key := op.(status := InFlight, attemptCount := op.attemptCount + 1, attemptedAt := Some(now))];
      attempt := Some(op.attemptCount + 1);
    }

    // Writes an outcome to a row: a failure keeps the instant of the first one and its backoff.
    method RecordOutcome(key: OperationKey, r: S.Resolution)
      requires key in operations
      modifies this`operations
      ensures operations == old(operations)[key := S.Resolved(old(operations)[key], r)]
    {
      var op := operations[key];
      if r.status == Failed {
        var since := if op.failureStartedAt.Some? then op.failureStartedAt.value else r.resolvedAt;
        op := op.(failureStartedAt := Some(since), nextAttemptAt := r.nextAttemptAt);
      } else {
        op := op.(failureStartedAt := None, nextAttemptAt := None);
      }
      operations := operations[key := op.(status := r.status, providerResultId := r.providerResultId, resolvedAt := Some(r.resolvedAt))];
    }

    method ResolveSideEffectOperation(key: OperationKey, token: Token, r: S.Resolution) returns (resolved: bool)
      requires Valid()
      modifies this`bookings, this`operations
      ensures Valid() && (State(), resolved) == S.ResolveConfirmation(old(State()), key, token, r)
    {
      if key.booking >= |bookings| || bookings[key.booking].leaseToken != Some(token) {
        return false;
      }
      resolved := key in operations && operations[key].status != Succeeded && operations[key].status != Abandoned;
      if resolved { RecordOutcome(key, r); }
      if key.family == CalendarCreate {
        bookings := bookings[key.booking := bookings[key.booking].(calendarEventId := r.providerResultId)];
      } else {
        assert bookings[key.booking := bookings[key.booking]] == bookings;
      }
    }

    method ClaimMutationSideEffectOperation(key: OperationKey, now: Instant) returns (attempt: Option<nat>)
      modifies this`operations
      ensures (State(), attempt) == S.ClaimRow(old(State()), key, now)
    {
      attempt := None;
      if key in operations {
        var op := operations[key];
        var stale := op.attemptedAt.Some? && op.attemptedAt.value < now - MUTATION_SIDE_EFFECT_LEASE_MS;
        if op.attemptCount < SIDE_EFFECT_MAX_ATTEMPTS && (op.nextAttemptAt.None? || op.nextAttemptAt.value <= now)
           && (op.status == Pending || op.status == Failed || (op.status == InFlight && stale)) {
          attempt := StartAttempt(key, now);
        }
      }
    }

    method ClaimMutationSideEffectOperationForRetry(key: OperationKey, now: Instant) returns (attempt: Option<nat>)
      modifies this`operations
      ensures (State(), attempt) == S.ClaimRowForRetry(old(State()), key, now)
    {
      attempt := None;
      if key in operations {
        var op := operations[key];
        var stale := op.attemptedAt.Some? && op.attemptedAt.value < now - MUTATION_SIDE_EFFECT_LEASE_MS;
        if op.status == Pending || op.status == Failed || op.status == Abandoned || (op.status == InFlight && stale) {
          attempt := StartAttempt(key, now);
        }
      }
    }

    method ResolveMutationSideEffectOperation(key: OperationKey, claimedAt: Instant, r: S.Resolution) returns (resolved: bool)
      modifies this`operations
      ensures (State(), resolved) == S.ResolveRow(old(State()), key, claimedAt, r)
    {
      resolved := key in operations && operations[key].status == InFlight && operations[key].attemptedAt == Some(claimedAt);
      if resolved { RecordOutcome(key, r); }
    }

    // ----- refunds

    method ClaimRefundOperation(id: BookingId, claim: S.RefundClaim) returns (claimed: bool)
      modifies this`refunds
      ensures (State(), claimed) == S.ClaimRefund(old(State()), id, claim)
    {
      claimed := id !in refunds && (if claim.choice == Partial then claim.requestedAmount.Some? && 0 < claim.requestedAmount.value
                                    else claim.requestedAmount.None?);
      if claimed {
        refunds := refunds[id := Refund(claim.id, claim.paymentIntent, claim.choice, Requested, claim.requestedAmount,
                                        None, None, 0, None, None, None)];
      }
    }

    method ResolveRefundOperation(id: BookingId, refund: Token, r: S.RefundResolution)
      modifies this`refunds
      ensures State() == S.ResolveRefund(old(State()), id, refund, r)
    {
      if id in refunds && refunds[id].id == refund && refunds[id].status != RefundSucceeded {
        var row := refunds[id];
        if r.status == RefundFailed {
          var since := if row.failureStartedAt.Some? then row.failureStartedAt.value else r.resolvedAt;
          row := row.(failureStartedAt := Some(since), nextAttemptAt := r.nextAttemptAt);
        } else {
          row := row.(failureStartedAt := None, nextAttemptAt := None);
        }
        refunds := refunds[id := row.(status := r.status, stripeRefundId := r.stripeRefundId, amount := r.amount)];
      }
    }

    method DeleteRefundOperation(id: BookingId, refund: Token)
      modifies this`refunds
      ensures State() == S.DeleteRefund(old(State()), id, refund)
    {
      if id in refunds && refunds[id].id == refund && refunds[id].status == Requested {
        refunds := refunds - {id};
      }
    }

    method ReconcileStripeRefundOperation(id: BookingId, report: S.ProviderRefund)
      modifies this`refunds
      ensures State() == S.ReconcileRefund(old(State()), id, report)
    {
      if id !in refunds {
        refunds := refunds[id := Refund(report.id, report.paymentIntent, Full, RefundSucceeded, None, report.stripeRefundId,
                                        Some(report.amount), 0, None, None, None)];
      } else if !(refunds[id].status == RefundSucceeded && refunds[id].choice == Full) {
        refunds := refunds[id := refunds[id].(paymentIntent := report.paymentIntent, choice := Full, status := RefundSucceeded,
                                              requestedAmount := None, stripeRefundId := report.stripeRefundId,
                                              amount := Some(report.amount))];
      }
    }

    method ClaimRefundExecution(id: BookingId, refund: Token, now: Instant) returns (attempt: Option<nat>)
      modifies this`refunds
      ensures (State(), attempt) == S.ClaimRefundExecution(old(State()), id, refund, now)
    {
      attempt := None;
      if id in refunds && refunds[id].id == refund {
        var row := refunds[id];
        var stale := row.attemptedAt.Some? && row.attemptedAt.value < now - MUTATION_SIDE_EFFECT_LEASE_MS;
        if row.attemptCount < SIDE_EFFECT_MAX_ATTEMPTS && (row.nextAttemptAt.None? || row.nextAttemptAt.value <= now)
           && (row.status == Requested || row.status == RefundFailed || (row.status == RefundInFlight && stale)) {
          attempt := StartRefund(id, now);
        }
      }
    }

    method ClaimRefundExecutionForRetry(id: BookingId, refund: Token, now: Instant) returns (attempt: Option<nat>)
      modifies this`refunds
      ensures (State(), attempt) == S.ClaimRefundExecutionForRetry(old(State()), id, refund, now)
    {
      attempt := None;
      if id in refunds && refunds[id].id == refund {
        var row := refunds[id];
        var stale := row.attemptedAt.Some? && row.attemptedAt.value < now - MUTATION_SIDE_EFFECT_LEASE_MS;
        if row.status == Requested || row.status == RefundFailed || row.status == RefundAbandoned
           || (row.status == RefundInFlight && stale) {
          attempt := StartRefund(id, now);
        }
      }
    }

    method StartRefund(id: BookingId, now: Instant) returns (attempt: Option<nat>)
      requires id in refunds
      modifies this`refunds
      ensures (State(), attempt) == S.TakeRefund(old(State()), id, now)
    {
      var row := refunds[id];
      refunds := refunds[id := row.(status := RefundInFlight, attemptCount := row.attemptCount + 1, attemptedAt := Some(now))];
      attempt := Some(row.attemptCount + 1);
    }

    method RecordRefundedAmount(id: BookingId, amount: int)
      requires Valid()
      modifies this`bookings
      ensures Valid() && State() == S.RecordRefundedAmount(old(State()), id, amount)
    {
      if id < |bookings| {
        var b := bookings[id];
        bookings := bookings[id := b.(amountRefunded := if b.amountRefunded < amount then amount else b.amountRefunded)];
      }
    }

    // ----- capacity edits

    method UpsertDayOverrides(dates: seq<Date>, capacity: int)
      modifies this`dayOverrides
      ensures |dates| == 1 ==> State() == S.SetDayOverride(old(State()), dates[0], capacity)
      ensures dayOverrides == map d | d in old(dayOverrides).Keys + (set e | e in dates) :: if d in dates then capacity else old(dayOverrides)[d]
    {
      for k := 0 to |dates|
        invariant dayOverrides
               == map d | d in old(dayOverrides).Keys + (set e | e in dates[..k]) :: if d in dates[..k] then capacity else old(dayOverrides)[d]
      {
        dayOverrides := dayOverrides[dates[k] := capacity];
      }
    }

    method DeleteDayOverrides(dates: seq<Date>)
      modifies this`dayOverrides
      ensures |dates| == 1 ==> State() == S.DeleteDayOverride(old(State()), dates[0])
      ensures dayOverrides == old(dayOverrides) - set e | e in dates
    {
      for k := 0 to |dates|
        invariant dayOverrides == old(dayOverrides) - set e | e in dates[..k]
      {
        dayOverrides := dayOverrides - {dates[k]};
      }
    }

    method UpsertCapacityDefault(from: Date, capacity: int)
      modifies this`capacityDefaults
      ensures State() == S.SetCapacityDefault(old(State()), from, capacity)
      ensures capacityDefaults
           == map d | d in old(capacityDefaults).Keys + {from} :: if d == from then capacity else old(capacityDefaults)[d]
    {
      capacityDefaults := capacityDefaults[from := capacity];
    }

    method DeleteCapacityDefault(from: Date)
      modifies this`capacityDefaults
      ensures State() == S.DeleteCapacityDefault(old(State()), from)
      ensures capacityDefaults == map d | d in old(capacityDefaults) && d != from :: old(capacityDefaults)[d]
    {
      capacityDefaults := capacityDefaults - {from};
    }
  }
}
