/** Runs from an empty store that use up a row's attempts: ten claimants in turn, each dead before it
    records anything. */
module StuckRows {
  import opened Schema
  import opened Statements
  import opened Runs
  import opened CapacitySafety
  import opened WriteEffects
  import L = RowLeases
  import D = Drains

  // ----- a confirmed booking with its rows

  const FIRST_TOKEN: Token := 0
  const LEASE: int := 300000
  const TURN: int := 400000

  const PAYMENT := ConfirmInput({Hold, Expired}, FIRST_TOKEN, false, true, [],
                                [Seed(Hook, Some("crm"), Some(BookingConfirmed))], None, 0)

  const CALENDAR := CalendarKey(0)
  const EMAIL := OperationKey(0, EmailConfirmation, None, None, NoDiscriminator)
  const CRM := OperationKey(0, Hook, Some("crm"), Some(BookingConfirmed), NoDiscriminator)

  const OPENING := [InsertHoldStep(LATE_HOLD), AcquireStep(0, FIRST_TOKEN, LEASE), ConfirmStep(0, PAYMENT)]

  // After n claimants of one row, the others are still as they were inserted.
  predicate OneConfirmedBooking(w: World, n: nat) {
    && |w.db.bookings| == 1
    && w.db.bookings[0].status == Confirmed
    && w.db.bookings[0].leaseToken == Some(n)
    && w.db.bookings[0].leaseUntil == Some(n * TURN + LEASE)
    && w.clock == n * TURN
    && (forall t | t in w.issued :: t <= n)
  }

  predicate TakenUpTimes(w: World, key: OperationKey, n: nat) {
    && key in w.db.operations
    && w.db.operations[key].attemptCount == n
    && w.db.operations[key].nextAttemptAt.None?
    && (if n == 0 then w.db.operations[key] == FRESH
        else w.db.operations[key].status == InFlight && w.db.operations[key].attemptedAt.Some?
             && w.db.operations[key].attemptedAt.value <= w.clock)
  }

  predicate Untouched(w: World, key: OperationKey) {
    key in w.db.operations && w.db.operations[key] == FRESH
  }

  lemma HoldIsTaken(w1: World)
    requires w1 == Next(EMPTY, InsertHoldStep(LATE_HOLD))
    ensures Legal(EMPTY, InsertHoldStep(LATE_HOLD))
    ensures w1 == EMPTY.(db := EMPTY.db.(bookings := [NewHold(LATE_HOLD)]))
  {
    assert AdmitsHold(EMPTY.db, LATE_HOLD);
    AdmittedHoldIsStored(EMPTY, LATE_HOLD);
    assert [] + [NewHold(LATE_HOLD)] == [NewHold(LATE_HOLD)];
  }

  lemma LeaseIsHeld(w1: World, w2: World)
    requires |w1.db.bookings| == 1 && w1.db.bookings[0].leaseUntil.None? && w1.db.bookings[0].status == Hold
    requires w1.issued == {} && w1.clock == 0 && w2 == Next(w1, OPENING[1])
    ensures Legal(w1, OPENING[1])
    ensures |w2.db.bookings| == 1 && w2.clock == 0 && w2.issued == {FIRST_TOKEN} && w2.db.operations == w1.db.operations
    ensures w2.db.bookings[0] == w1.db.bookings[0].(leaseToken := Some(FIRST_TOKEN), leaseUntil := Some(LEASE))
  {
  }

  lemma PaymentIsConfirmed(w2: World, w3: World)
    requires |w2.db.bookings| == 1 && w2.clock == 0 && w2.issued == {FIRST_TOKEN} && w2.db.operations == map[]
    requires w2.db.bookings[0].status == Hold && w2.db.bookings[0].leaseToken == Some(FIRST_TOKEN)
    requires w2.db.bookings[0].leaseUntil == Some(LEASE) && w3 == Next(w2, OPENING[2])
    ensures Legal(w2, OPENING[2])
    ensures OneConfirmedBooking(w3, 0) && Untouched(w3, CALENDAR) && Untouched(w3, EMAIL) && Untouched(w3, CRM)
  {
    RowsOfThePayment();
    assert ConfirmedUnder(w2.db.(bookings := w2.db.bookings[0 := ConfirmRow(w2.db.bookings[0], None)]), 0, FIRST_TOKEN);
    RowsOfAFirstInsert(ConfirmationRows(0, PAYMENT), w3.db.operations);
  }

  lemma RowsOfThePayment()
    ensures var rows := ConfirmationRows(0, PAYMENT);
            && CALENDAR in rows && rows[CALENDAR] == FRESH && EMAIL in rows && rows[EMAIL] == FRESH
            && CRM in rows && rows[CRM] == FRESH
  {
    var seed := PAYMENT.eventSeeds[0];
    assert seed in PAYMENT.eventSeeds && CRM == OperationKey(0, seed.family, seed.name, seed.event, NoDiscriminator);
    ConfirmationOwesItsRows(0, PAYMENT, CALENDAR);
    ConfirmationOwesItsRows(0, PAYMENT, EMAIL);
    ConfirmationOwesItsRows(0, PAYMENT, CRM);
  }

  lemma RowsOfAFirstInsert(rows: map<OperationKey, Operation>, operations: map<OperationKey, Operation>)
    requires operations == InsertRows(map[], rows)
    ensures operations == rows
  {
  }

  lemma Opened() returns (steps: seq<Step>)
    ensures LegalRun(EMPTY, steps) && NobodyResolves(steps)
    ensures OneConfirmedBooking(Run(EMPTY, steps), 0)
    ensures Untouched(Run(EMPTY, steps), CALENDAR) && Untouched(Run(EMPTY, steps), EMAIL) && Untouched(Run(EMPTY, steps), CRM)
  {
    var w := BookingIsConfirmed();
    steps := OPENING;
  }

  lemma BookingIsConfirmed() returns (w: World)
    ensures LegalRun(EMPTY, OPENING) && w == Run(EMPTY, OPENING)
    ensures OneConfirmedBooking(w, 0) && Untouched(w, CALENDAR) && Untouched(w, EMAIL) && Untouched(w, CRM)
  {
    var w1 := Next(EMPTY, OPENING[0]);
    var w2 := Next(w1, OPENING[1]);
    w := Next(w2, OPENING[2]);
    HoldIsTaken(w1);
    LeaseIsHeld(w1, w2);
    PaymentIsConfirmed(w2, w);
    RunOfThree(EMPTY, OPENING[0], OPENING[1], OPENING[2]);
    assert OPENING == [OPENING[0], OPENING[1], OPENING[2]];
  }

  // ----- a row of the confirmation lease

  // The lease of the last claimant has run out; the next takes it and the calendar row.
  function LeasedTurn(n: nat): seq<Step> {
    var now := (n + 1) * TURN;
    [Tick(now), AcquireStep(0, n + 1, now + LEASE), ClaimConfirmationStep(CALENDAR, n + 1)]
  }

  lemma LeaseChangesHands(w: World, w2: World, n: nat)
    requires OneConfirmedBooking(w, n) && w2 == Next(Next(w, LeasedTurn(n)[0]), LeasedTurn(n)[1])
    ensures Legal(w, LeasedTurn(n)[0]) && Legal(Next(w, LeasedTurn(n)[0]), LeasedTurn(n)[1])
    ensures OneConfirmedBooking(w2, n + 1) && w2.db.operations == w.db.operations
  {
    assert (n + 1) * TURN == n * TURN + TURN;
  }

  lemma OneLeasedTurn(w: World, n: nat)
    requires n < SIDE_EFFECT_MAX_ATTEMPTS && OneConfirmedBooking(w, n)
    requires TakenUpTimes(w, CALENDAR, n) && Untouched(w, EMAIL)
    ensures LegalRun(w, LeasedTurn(n))
    ensures OneConfirmedBooking(Run(w, LeasedTurn(n)), n + 1)
    ensures TakenUpTimes(Run(w, LeasedTurn(n)), CALENDAR, n + 1) && Untouched(Run(w, LeasedTurn(n)), EMAIL)
  {
    var turn := LeasedTurn(n);
    var w2 := Next(Next(w, turn[0]), turn[1]);
    LeaseChangesHands(w, w2, n);
    RowIsClaimed(w2, n);
    RunOfThree(w, turn[0], turn[1], turn[2]);
    assert turn == [turn[0], turn[1], turn[2]];
  }

  lemma RowIsClaimed(w2: World, n: nat)
    requires n < SIDE_EFFECT_MAX_ATTEMPTS && OneConfirmedBooking(w2, n + 1) && Untouched(w2, EMAIL)
    requires CALENDAR in w2.db.operations && w2.db.operations[CALENDAR].attemptCount == n
    requires w2.db.operations[CALENDAR].nextAttemptAt.None? && !Settled(w2.db.operations[CALENDAR].status)
    ensures var w3 := Next(w2, ClaimConfirmationStep(CALENDAR, n + 1));
            OneConfirmedBooking(w3, n + 1) && TakenUpTimes(w3, CALENDAR, n + 1) && Untouched(w3, EMAIL)
  {
  }

  lemma NextLeasedTurn(w: World, n: nat) returns (turn: seq<Step>)
    requires n < SIDE_EFFECT_MAX_ATTEMPTS && OneConfirmedBooking(w, n)
    requires TakenUpTimes(w, CALENDAR, n) && Untouched(w, EMAIL)
    ensures LegalRun(w, turn) && OneConfirmedBooking(Run(w, turn), n + 1)
    ensures TakenUpTimes(Run(w, turn), CALENDAR, n + 1) && Untouched(Run(w, turn), EMAIL)
  {
    OneLeasedTurn(w, n);
    turn := LeasedTurn(n);
  }

  lemma {:induction false} LeasedTurns(n: nat) returns (steps: seq<Step>)
    requires n <= SIDE_EFFECT_MAX_ATTEMPTS
    ensures LegalRun(EMPTY, steps)
    ensures OneConfirmedBooking(Run(EMPTY, steps), n)
    ensures TakenUpTimes(Run(EMPTY, steps), CALENDAR, n) && Untouched(Run(EMPTY, steps), EMAIL)
  {
    if n == 0 {
      steps := Opened();
    } else {
      var before := LeasedTurns(n - 1);
      var turn := NextLeasedTurn(Run(EMPTY, before), n - 1);
      RunsCompose(EMPTY, before, turn);
      steps := before + turn;
    }
  }

  // A reachable store whose calendar row is exhausted: the pass of any later lease holder ends at
  // once and leaves the email behind it unsent.
  lemma ExhaustedConfirmationRowIsReachable(tries: OperationKey -> D.Try) returns (steps: seq<Step>)
    ensures LegalRun(EMPTY, steps)
    ensures var db := Run(EMPTY, steps).db;
            && HoldsLease(db, 0, SIDE_EFFECT_MAX_ATTEMPTS) && CALENDAR in db.operations && EMAIL in db.operations
            && db.operations[CALENDAR].status == InFlight && db.operations[EMAIL].status == Pending
            && (var pass := D.ConfirmationPass(db, [CALENDAR, EMAIL], map[CALENDAR := InFlight, EMAIL := Pending],
                                               SIDE_EFFECT_MAX_ATTEMPTS, tries);
                pass.1 == D.InProgress && pass.0 == db)
  {
    steps := LeasedTurns(SIDE_EFFECT_MAX_ATTEMPTS);
    var db, statuses := Run(EMPTY, steps).db, map[CALENDAR := InFlight, EMAIL := Pending];
    assert [CALENDAR, EMAIL][..1] == [CALENDAR] && [CALENDAR][..0] == [];
    assert D.ConfirmationPass(db, [], statuses, SIDE_EFFECT_MAX_ATTEMPTS, tries) == (db, D.Done);
    assert D.ConfirmationPass(db, [CALENDAR], statuses, SIDE_EFFECT_MAX_ATTEMPTS, tries) == (db, D.InProgress);
  }

  // ----- a row with its own lease

  // The last claim has gone stale; the next worker claims the row.
  function RowTurn(n: nat): seq<Step> {
    [Tick((n + 1) * TURN), ClaimRowStep(CRM)]
  }

  predicate ClaimedTimes(w: World, n: nat) {
    w.clock == n * TURN && TakenUpTimes(w, CRM, n)
  }

  lemma OneRowTurn(w: World, n: nat)
    requires n < SIDE_EFFECT_MAX_ATTEMPTS && ClaimedTimes(w, n)
    ensures LegalRun(w, RowTurn(n)) && ClaimedTimes(Run(w, RowTurn(n)), n + 1)
  {
    assert (n + 1) * TURN == n * TURN + TURN;
    var w1 := Next(w, RowTurn(n)[0]);
    assert RowClaimable(w1.db.operations[CRM], w1.clock);
    RunOfTwo(w, RowTurn(n)[0], RowTurn(n)[1]);
    assert RowTurn(n) == [RowTurn(n)[0], RowTurn(n)[1]];
  }

  lemma NextRowTurn(w: World, n: nat) returns (turn: seq<Step>)
    requires n < SIDE_EFFECT_MAX_ATTEMPTS && ClaimedTimes(w, n)
    ensures LegalRun(w, turn) && NobodyResolves(turn) && ClaimedTimes(Run(w, turn), n + 1)
  {
    OneRowTurn(w, n);
    turn := RowTurn(n);
  }

  lemma {:induction false} RowTurns(n: nat) returns (steps: seq<Step>)
    requires n <= SIDE_EFFECT_MAX_ATTEMPTS
    ensures LegalRun(EMPTY, steps) && NobodyResolves(steps)
    ensures ClaimedTimes(Run(EMPTY, steps), n)
  {
    if n == 0 {
      steps := Opened();
    } else {
      var before := RowTurns(n - 1);
      var turn := NextRowTurn(Run(EMPTY, before), n - 1);
      RunsCompose(EMPTY, before, turn);
      steps := before + turn;
    }
  }

  predicate NobodyResolves(steps: seq<Step>) {
    forall i | 0 <= i < |steps| :: !steps[i].ResolveRowStep?
  }

  // Such a run is one the traced rows follow.
  lemma {:induction false} NobodyResolvesIsDisciplined(s: L.Traced, steps: seq<Step>)
    requires LegalRun(s.w, steps) && NobodyResolves(steps)
    ensures L.TracedRun(s, steps)
    decreases |steps|
  {
    if steps != [] {
      assert !steps[0].ResolveRowStep?;
      L.FollowedWorld(s, steps[0]);
      NobodyResolvesIsDisciplined(L.Follow(s, steps[0]), steps[1..]);
    }
  }

  // A reachable store whose hook row is in flight at the cap: with its tenth claimant dead, no run
  // without an admin ever delivers it.
  lemma ExhaustedRowIsReachable() returns (steps: seq<Step>)
    ensures LegalRun(EMPTY, steps) && L.TracedRun(L.Traced(EMPTY, map[]), steps)
    ensures var w := Run(EMPTY, steps);
            && CRM in w.db.operations
            && w.db.operations[CRM].status == InFlight && w.db.operations[CRM].attemptCount == SIDE_EFFECT_MAX_ATTEMPTS
            && (forall more :: !L.SettlesRow(w, more, CRM))
  {
    steps := RowTurns(SIDE_EFFECT_MAX_ATTEMPTS);
    NobodyResolvesIsDisciplined(L.Traced(EMPTY, map[]), steps);
    L.OpenRowSettlesExactlyBelowTheCap(Run(EMPTY, steps), CRM);
  }
}
