/** What each repository call does to the store: one function per statement or atomic batch.

    A capacity decision is stated by its meaning (`Fits`, over every instant of the window);
    the class `Repository` reaches it the way the SQL does. */
module Statements {
  import opened Schema
  import opened Usage

  // ----- capacity of a date

  ghost predicate LatestNotAfter(keys: set<Date>, date: Date, d: Date) {
    d in keys && d <= date && forall e | e in keys && e <= date :: e <= d
  }

  // The day's override, else the latest default at or before it, else the configured default.
  ghost predicate ResolvesTo(db: Db, date: Date, fallback: int, capacity: int) {
    if date in db.dayOverrides then capacity == AtLeastZero(db.dayOverrides[date])
    else if exists d :: LatestNotAfter(db.capacityDefaults.Keys, date, d) then
      exists d :: LatestNotAfter(db.capacityDefaults.Keys, date, d) && capacity == AtLeastZero(db.capacityDefaults[d])
    else capacity == AtLeastZero(fallback)
  }

  function AtLeastZero(value: int): int {
    if value < 0 then 0 else value
  }

  ghost function CapacityOn(db: Db, date: Date, fallback: int): (capacity: int)
    ensures ResolvesTo(db, date, fallback, capacity)
    ensures 0 <= capacity
  {
    if date in db.dayOverrides then AtLeastZero(db.dayOverrides[date])
    else if exists d :: LatestNotAfter(db.capacityDefaults.Keys, date, d) then
      var d :| LatestNotAfter(db.capacityDefaults.Keys, date, d);
      AtLeastZero(db.capacityDefaults[d])
    else AtLeastZero(fallback)
  }

  lemma CapacityIsUnique(db: Db, date: Date, fallback: int, capacity: int)
    requires ResolvesTo(db, date, fallback, capacity)
    ensures capacity == CapacityOn(db, date, fallback)
  {
  }

  // ----- inserting a hold

  datatype HoldInput = HoldInput(
    reference: string,
    serviceSlug: string,
    quantity: int,
    startsAt: Instant,
    endsAt: Instant,
    priceMinor: int,
    holdExpiresAt: Instant,
    holdIp: Option<string>,
    maxActiveHoldsForIp: Option<int>,
    occupancyUnits: int,
    occupancyEndsAt: Instant,
    localDate: Date,
    defaultCapacity: int,
    createdAt: Instant)
  {
    // What checkout and config validation guarantee of every request.
    predicate Valid() {
      1 <= quantity && 1 <= occupancyUnits && startsAt < endsAt <= occupancyEndsAt
    }
  }

  datatype InsertOutcome = Created(id: BookingId) | ReferenceTaken | TooManyHolds | NoCapacity

  predicate LiveHoldFrom(b: Booking, ip: Option<string>, now: Instant) {
    && ip.Some? && b.holdIp == ip
    && b.status == Hold && b.holdExpiresAt.Some? && now <= b.holdExpiresAt.value
  }

  function HoldsFrom(rows: seq<Booking>, ip: Option<string>, now: Instant): (n: nat)
  {
    if rows == [] then 0
    else
      var last := |rows| - 1;
      HoldsFrom(rows[..last], ip, now) + if LiveHoldFrom(rows[last], ip, now) then 1 else 0
  }

  predicate UnderHoldLimit(rows: seq<Booking>, input: HoldInput) {
    input.maxActiveHoldsForIp.None?
    || HoldsFrom(rows, input.holdIp, input.createdAt) < input.maxActiveHoldsForIp.value
  }

  ghost predicate ReferenceUsed(rows: seq<Booking>, reference: string) {
    exists i: nat :: i < |rows| && rows[i].reference == reference
  }

  function NewHold(input: HoldInput): Booking {
    Booking(input.reference, input.serviceSlug, input.quantity, input.startsAt, input.endsAt, input.priceMinor,
            Hold, Some(input.holdExpiresAt), input.holdIp, Some(input.occupancyUnits),
            Some(input.occupancyEndsAt), None, 0, None, None, None, None, 0)
  }

  ghost predicate HasRoom(db: Db, now: Instant, ids: iset<BookingId>, from: Instant, to: Instant,
                          units: int, localDate: Date, defaultCapacity: int)
  {
    Fits(db.bookings, now, ids, from, to, units, CapacityOn(db, localDate, defaultCapacity))
  }

  ghost predicate AdmitsHold(db: Db, input: HoldInput) {
    HasRoom(db, input.createdAt, ALL, input.startsAt, input.occupancyEndsAt,
            input.occupancyUnits, input.localDate, input.defaultCapacity)
  }

  ghost function InsertHold(db: Db, input: HoldInput): (Db, InsertOutcome) {
    if ReferenceUsed(db.bookings, input.reference) then (db, ReferenceTaken)
    else if !UnderHoldLimit(db.bookings, input) then (db, TooManyHolds)
    else if !AdmitsHold(db, input) then (db, NoCapacity)
    else (db.(bookings := db.bookings + [NewHold(input)]), Created(|db.bookings|))
  }

  // ----- moving a booking

  datatype RescheduleInput = RescheduleInput(
    expectedStatus: BookingStatus,
    expectedStartsAt: Instant,
    startsAt: Instant,
    endsAt: Instant,
    rescheduledFrom: Instant,
    occupancyUnits: int,
    occupancyEndsAt: Instant,
    localDate: Date,
    defaultCapacity: int,
    now: Instant,
    seeds: seq<Seed>)
  {
    predicate Valid() {
      1 <= occupancyUnits && startsAt < endsAt <= occupancyEndsAt
    }
  }

  ghost predicate RescheduleWins(db: Db, id: BookingId, input: RescheduleInput) {
    && id < |db.bookings|
    && db.bookings[id].status == input.expectedStatus
    && db.bookings[id].startsAt == input.expectedStartsAt
    && HasRoom(db, input.now, AllBut(id), input.startsAt, input.occupancyEndsAt,
               input.occupancyUnits, input.localDate, input.defaultCapacity)
  }

  function Moved(b: Booking, input: RescheduleInput): Booking {
    b.(startsAt := input.startsAt, endsAt := input.endsAt, rescheduledFrom := Some(input.rescheduledFrom),
       occupancyUnits := Some(input.occupancyUnits), occupancyEndsAt := Some(input.occupancyEndsAt),
       rescheduleVersion := b.rescheduleVersion + 1)
  }

  ghost function Reschedule(db: Db, id: BookingId, input: RescheduleInput): (Db, bool) {
    if !RescheduleWins(db, id, input) then (db, false)
    else
      var b := db.bookings[id];
      var keys := SeedKeys(id, input.seeds, Version(b.rescheduleVersion + 1));
      (db.(bookings := db.bookings[id := Moved(b, input)], operations := Insert(db.operations, keys)), true)
  }

  // ----- the outbox rows a transition owes

  const FRESH := Operation(Pending, None, 0, None, None, None, None)

  function KeyOf(booking: BookingId, seed: Seed, discriminator: Discriminator): OperationKey {
    OperationKey(booking, seed.family, seed.name, seed.event, discriminator)
  }

  function SeedKeys(booking: BookingId, seeds: seq<Seed>, discriminator: Discriminator): set<OperationKey> {
    set s | s in seeds :: KeyOf(booking, s, discriminator)
  }

  // INSERT ... ON CONFLICT DO NOTHING: a row that exists is left as it is.
  function Insert(operations: map<OperationKey, Operation>, keys: set<OperationKey>): map<OperationKey, Operation> {
    InsertRows(operations, PendingRows(keys))
  }

  function InsertRows(operations: map<OperationKey, Operation>, rows: map<OperationKey, Operation>): map<OperationKey, Operation> {
    rows + operations
  }

  lemma InsertOneMore(operations: map<OperationKey, Operation>, keys: set<OperationKey>, key: OperationKey)
    ensures Insert(operations, keys + {key})
         == if key in Insert(operations, keys) then Insert(operations, keys) else Insert(operations, keys)[key := FRESH]
  {
  }

  // ----- ending a booking

  function SweepRow(b: Booking, now: Instant): Booking {
    if b.status == Hold && b.holdExpiresAt.Some? && b.holdExpiresAt.value < now
    then b.(status := Expired, holdExpiresAt := None) else b
  }

  function Sweep(db: Db, now: Instant): Db {
    db.(bookings := seq(|db.bookings|, i requires 0 <= i < |db.bookings| => SweepRow(db.bookings[i], now)))
  }

  function ExpireHold(db: Db, id: BookingId): (Db, bool) {
    if id < |db.bookings| && db.bookings[id].status == Hold
    then (db.(bookings := db.bookings[id := db.bookings[id].(status := Expired, holdExpiresAt := None)]), true)
    else (db, false)
  }

  datatype CancelInput = CancelInput(
    expectedStatusIn: set<BookingStatus>,
    expectedStartsAt: Option<Instant>,
    seeds: seq<Seed>)

  predicate CancelWins(db: Db, id: BookingId, input: CancelInput) {
    && id < |db.bookings|
    && db.bookings[id].status in input.expectedStatusIn
    && (input.expectedStartsAt.Some? ==> db.bookings[id].startsAt == input.expectedStartsAt.value)
  }

  // Moves a booking to `status` and records the rows that owes, both or neither.
  function EndBooking(db: Db, id: BookingId, status: BookingStatus, seeds: seq<Seed>): Db
    requires id < |db.bookings|
  {
    db.(bookings := db.bookings[id := db.bookings[id].(status := status)],
        operations := Insert(db.operations, SeedKeys(id, seeds, NoDiscriminator)))
  }

  function Cancel(db: Db, id: BookingId, input: CancelInput): (Db, bool) {
    if CancelWins(db, id, input) then (EndBooking(db, id, Cancelled, input.seeds), true) else (db, false)
  }

  function MarkNoShow(db: Db, id: BookingId, expectedStatusIn: set<BookingStatus>, seeds: seq<Seed>): (Db, bool) {
    if id < |db.bookings| && db.bookings[id].status in expectedStatusIn
    then (EndBooking(db, id, NoShow, seeds), true) else (db, false)
  }

  // ----- confirming, under the confirmation lease

  predicate HoldsLease(db: Db, id: BookingId, token: Token) {
    id < |db.bookings| && db.bookings[id].leaseToken == Some(token)
  }

  predicate ConfirmedUnder(db: Db, id: BookingId, token: Token) {
    HoldsLease(db, id, token) && db.bookings[id].status == Confirmed
  }

  datatype ConfirmInput = ConfirmInput(
    expectedStatusIn: set<BookingStatus>,
    leaseToken: Token,
    oversold: bool,
    calendarOwed: bool,
    emailRecipients: seq<string>,
    eventSeeds: seq<Seed>,
    paymentRef: Option<string>,
    updatedAt: Instant)

  function EmailKeys(id: BookingId, recipients: seq<string>): set<OperationKey> {
    if recipients == []
    then {OperationKey(id, EmailConfirmation, None, None, NoDiscriminator)}
    else set r | r in recipients :: OperationKey(id, Email, Some(r), Some(BookingConfirmed), NoDiscriminator)
  }

  function CalendarKey(id: BookingId): OperationKey {
    OperationKey(id, CalendarCreate, None, None, NoDiscriminator)
  }

  function OversellKey(id: BookingId): OperationKey {
    OperationKey(id, Oversell, None, None, NoDiscriminator)
  }

  // The permanent marker of a confirmation that found no room left.
  function OversellMarker(at: Instant): Operation {
    Operation(Succeeded, Some("capacity_exceeded"), 0, None, Some(at), None, None)
  }

  function PendingRows(keys: set<OperationKey>): map<OperationKey, Operation> {
    map k | k in keys :: FRESH
  }

  function MarkerRows(id: BookingId, input: ConfirmInput): map<OperationKey, Operation> {
    if input.oversold then map[OversellKey(id) := OversellMarker(input.updatedAt)] else map[]
  }

  // Inserted one after another in the order of the batch, an earlier row winning over a later one:
  // calendar, emails, marker, subscribers.
  function ConfirmationRows(id: BookingId, input: ConfirmInput): map<OperationKey, Operation> {
    PendingRows(SeedKeys(id, input.eventSeeds, NoDiscriminator))
    + (MarkerRows(id, input)
       + (PendingRows(EmailKeys(id, input.emailRecipients)) + PendingRows(if input.calendarOwed then {CalendarKey(id)} else {})))
  }

  lemma ConfirmationRowsInOrder(before: map<OperationKey, Operation>, id: BookingId, input: ConfirmInput)
    ensures var emails := Insert(Insert(before, if input.calendarOwed then {CalendarKey(id)} else {}), EmailKeys(id, input.emailRecipients));
            Insert(InsertRows(emails, MarkerRows(id, input)), SeedKeys(id, input.eventSeeds, NoDiscriminator))
            == InsertRows(before, ConfirmationRows(id, input))
  {
    FourInOrder(before, PendingRows(if input.calendarOwed then {CalendarKey(id)} else {}),
                PendingRows(EmailKeys(id, input.emailRecipients)), MarkerRows(id, input),
                PendingRows(SeedKeys(id, input.eventSeeds, NoDiscriminator)));
  }

  lemma FourInOrder(m: map<OperationKey, Operation>, a: map<OperationKey, Operation>, b: map<OperationKey, Operation>,
                    c: map<OperationKey, Operation>, d: map<OperationKey, Operation>)
    ensures d + (c + (b + (a + m))) == (d + (c + (b + a))) + m
  {
  }

  // The unique index over payment references.
  ghost predicate PaymentRefTaken(rows: seq<Booking>, id: BookingId, paymentRef: Option<string>) {
    paymentRef.Some? && exists i: nat :: i < |rows| && i != id && rows[i].paymentRef == paymentRef
  }

  predicate ConfirmWins(db: Db, id: BookingId, input: ConfirmInput) {
    HoldsLease(db, id, input.leaseToken) && db.bookings[id].status in input.expectedStatusIn
  }

  function ConfirmRow(b: Booking, paymentRef: Option<string>): Booking {
    b.(status := Confirmed, holdExpiresAt := None,
       paymentRef := if paymentRef.Some? then paymentRef else b.paymentRef)
  }

  // The update first, then each row only if the booking is now confirmed under this lease.
  ghost function Confirm(db: Db, id: BookingId, input: ConfirmInput): (Db, bool) {
    var wins := ConfirmWins(db, id, input);
    if wins && PaymentRefTaken(db.bookings, id, input.paymentRef) then (db, false)
    else
      var updated := if wins then db.(bookings := db.bookings[id := ConfirmRow(db.bookings[id], input.paymentRef)]) else db;
      if ConfirmedUnder(updated, id, input.leaseToken)
      then (updated.(operations := InsertRows(db.operations, ConfirmationRows(id, input))), wins)
      else (updated, wins)
  }

  ghost function ApplyPaymentDetails(db: Db, id: BookingId, paymentRef: Option<string>, token: Token): (Db, bool) {
    if paymentRef.None? || !ConfirmedUnder(db, id, token) then (db, false)
    else
      var b := db.bookings[id];
      if b.paymentRef.Some? then (db, true)
      else if PaymentRefTaken(db.bookings, id, paymentRef) then (db, false)
      else (db.(bookings := db.bookings[id := b.(paymentRef := paymentRef)]), true)
  }

  // The repair of a confirmed booking's rows; each email shape only when the other is absent.
  predicate EmailShapeFree(operations: map<OperationKey, Operation>, id: BookingId, recipients: seq<string>) {
    if recipients == []
    then forall k | k in operations :: !(k.booking == id && k.family == Email && k.event == Some(BookingConfirmed))
    else forall k | k in operations :: !(k.booking == id && k.family == EmailConfirmation)
  }

  function CalendarRow(b: Booking, now: Instant): Operation {
    if b.calendarEventId.Some?
    then Operation(Succeeded, b.calendarEventId, 0, None, Some(now), None, None)
    else FRESH
  }

  datatype EnsureInput = EnsureInput(
    leaseToken: Token,
    calendarOwed: bool,
    emailRecipients: seq<string>,
    eventSeeds: seq<Seed>,
    now: Instant)

  function RepairRows(db: Db, id: BookingId, input: EnsureInput): map<OperationKey, Operation>
    requires id < |db.bookings|
  {
    PendingRows(SeedKeys(id, input.eventSeeds, NoDiscriminator))
    + (PendingRows(RepairedEmails(db.operations, id, input.emailRecipients)) + RepairedCalendar(db.bookings[id], id, input))
  }

  function RepairedEmails(operations: map<OperationKey, Operation>, id: BookingId, recipients: seq<string>): set<OperationKey> {
    if EmailShapeFree(operations, id, recipients) then EmailKeys(id, recipients) else {}
  }

  function RepairedCalendar(b: Booking, id: BookingId, input: EnsureInput): map<OperationKey, Operation> {
    if input.calendarOwed then map[CalendarKey(id) := CalendarRow(b, input.now)] else map[]
  }

  lemma RepairedCalendarTakesNoEmailShape(before: map<OperationKey, Operation>, b: Booking, id: BookingId, input: EnsureInput)
    ensures RepairedEmails(InsertRows(before, RepairedCalendar(b, id, input)), id, input.emailRecipients)
         == RepairedEmails(before, id, input.emailRecipients)
  {
    var after := InsertRows(before, RepairedCalendar(b, id, input));
    assert forall k | k in before :: k in after;
    assert forall k | k in after && k !in before :: k.family == CalendarCreate;
  }

  lemma RepairRowsInOrder(db: Db, id: BookingId, input: EnsureInput)
    requires id < |db.bookings|
    ensures var calendar := InsertRows(db.operations, RepairedCalendar(db.bookings[id], id, input));
            Insert(Insert(calendar, RepairedEmails(db.operations, id, input.emailRecipients)),
                   SeedKeys(id, input.eventSeeds, NoDiscriminator))
            == InsertRows(db.operations, RepairRows(db, id, input))
  {
    ThreeInOrder(db.operations, RepairedCalendar(db.bookings[id], id, input),
                 PendingRows(RepairedEmails(db.operations, id, input.emailRecipients)),
                 PendingRows(SeedKeys(id, input.eventSeeds, NoDiscriminator)));
  }

  lemma ThreeInOrder(m: map<OperationKey, Operation>, a: map<OperationKey, Operation>, b: map<OperationKey, Operation>,
                     c: map<OperationKey, Operation>)
    ensures c + (b + (a + m)) == (c + (b + a)) + m
  {
  }

  function EnsureConfirmationOperations(db: Db, id: BookingId, input: EnsureInput): Db {
    if ConfirmedUnder(db, id, input.leaseToken)
    then db.(operations := InsertRows(db.operations, RepairRows(db, id, input)))
    else db
  }

  function RecordEventOperations(db: Db, keys: set<OperationKey>): Db {
    db.(operations := Insert(db.operations, keys))
  }

  // ----- the confirmation lease

  function AcquireLease(db: Db, id: BookingId, token: Token, now: Instant, until: Instant): (Db, bool) {
    if id < |db.bookings| && (db.bookings[id].leaseUntil.None? || db.bookings[id].leaseUntil.value < now)
    then (db.(bookings := db.bookings[id := db.bookings[id].(leaseToken := Some(token), leaseUntil := Some(until))]), true)
    else (db, false)
  }

  function RenewLease(db: Db, id: BookingId, token: Token, now: Instant, until: Instant): (Db, bool) {
    if HoldsLease(db, id, token) && db.bookings[id].leaseUntil.Some? && now <= db.bookings[id].leaseUntil.value
    then (db.(bookings := db.bookings[id := db.bookings[id].(leaseUntil := Some(until))]), true)
    else (db, false)
  }

  function ReleaseLease(db: Db, id: BookingId, token: Token): Db {
    if HoldsLease(db, id, token)
    then db.(bookings := db.bookings[id := db.bookings[id].(leaseToken := None, leaseUntil := None)])
    else db
  }

  // ----- claiming and resolving outbox rows

  predicate Due(nextAttemptAt: Option<Instant>, now: Instant) {
    nextAttemptAt.None? || nextAttemptAt.value <= now
  }

  predicate Stale(attemptedAt: Option<Instant>, now: Instant) {
    attemptedAt.Some? && attemptedAt.value < now - MUTATION_SIDE_EFFECT_LEASE_MS
  }

  // A claim that takes the row: one more attempt, started now.
  function Started(op: Operation, now: Instant): Operation {
    op.(status := InFlight, attemptCount := op.attemptCount + 1, attemptedAt := Some(now))
  }

  datatype Resolution = Resolution(
    status: OperationStatus,
    providerResultId: Option<string>,
    resolvedAt: Instant,
    nextAttemptAt: Option<Instant>)

  function Resolved(op: Operation, r: Resolution): Operation {
    op.(status := r.status, providerResultId := r.providerResultId, resolvedAt := Some(r.resolvedAt),
        failureStartedAt := if r.status == Failed then Some(op.failureStartedAt.GetOr(r.resolvedAt)) else None,
        nextAttemptAt := if r.status == Failed then r.nextAttemptAt else None)
  }

  predicate Settled(status: OperationStatus) {
    status == Succeeded || status == Abandoned
  }

  // Confirmation debt: guarded by the booking's lease.
  predicate ConfirmationClaimable(db: Db, key: OperationKey, token: Token, now: Instant) {
    && key in db.operations
    && !Settled(db.operations[key].status)
    && db.operations[key].attemptCount < SIDE_EFFECT_MAX_ATTEMPTS
    && Due(db.operations[key].nextAttemptAt, now)
    && HoldsLease(db, key.booking, token)
  }

  function ClaimConfirmation(db: Db, key: OperationKey, token: Token, now: Instant): (Db, Option<nat>) {
    if ConfirmationClaimable(db, key, token, now) then Take(db, key, now) else (db, None)
  }

  function ClaimConfirmationForRetry(db: Db, key: OperationKey, token: Token, now: Instant): (Db, Option<nat>) {
    if key in db.operations && db.operations[key].status != Succeeded && HoldsLease(db, key.booking, token)
    then Take(db, key, now) else (db, None)
  }

  function Take(db: Db, key: OperationKey, now: Instant): (Db, Option<nat>)
    requires key in db.operations
  {
    var op := Started(db.operations[key], now);
    (db.(operations := db.operations[key := op]), Some(op.attemptCount))
  }

  // Row and booking are updated in one batch; the answer is whether the row was.
  function ResolveConfirmation(db: Db, key: OperationKey, token: Token, r: Resolution): (Db, bool) {
    if !HoldsLease(db, key.booking, token) then (db, false)
    else
      var wins := key in db.operations && !Settled(db.operations[key].status);
      var b := db.bookings[key.booking];
      var b' := if key.family == CalendarCreate then b.(calendarEventId := r.providerResultId) else b;
      (db.(bookings := db.bookings[key.booking := b'],
           operations := if wins then db.operations[key := Resolved(db.operations[key], r)] else db.operations), wins)
  }

  // Every other row: guarded by its own attempted_at.
  predicate RowClaimable(op: Operation, now: Instant) {
    && op.attemptCount < SIDE_EFFECT_MAX_ATTEMPTS
    && Due(op.nextAttemptAt, now)
    && (op.status == Pending || op.status == Failed || (op.status == InFlight && Stale(op.attemptedAt, now)))
  }

  predicate RowRetryable(op: Operation, now: Instant) {
    op.status == Pending || op.status == Failed || op.status == Abandoned || (op.status == InFlight && Stale(op.attemptedAt, now))
  }

  function ClaimRow(db: Db, key: OperationKey, now: Instant): (Db, Option<nat>) {
    if key in db.operations && RowClaimable(db.operations[key], now) then Take(db, key, now) else (db, None)
  }

  function ClaimRowForRetry(db: Db, key: OperationKey, now: Instant): (Db, Option<nat>) {
    if key in db.operations && RowRetryable(db.operations[key], now) then Take(db, key, now) else (db, None)
  }

  predicate OwnsRow(op: Operation, claimedAt: Instant) {
    op.status == InFlight && op.attemptedAt == Some(claimedAt)
  }

  function ResolveRow(db: Db, key: OperationKey, claimedAt: Instant, r: Resolution): (Db, bool) {
    if key in db.operations && OwnsRow(db.operations[key], claimedAt)
    then (db.(operations := db.operations[key := Resolved(db.operations[key], r)]), true)
    else (db, false)
  }

  // ----- refunds

  datatype RefundClaim = RefundClaim(
    id: Token,
    paymentIntent: Option<string>,
    choice: RefundChoice,
    requestedAmount: Option<int>)

  // The table's CHECK: a decided amount exactly for a partial choice, and positive.
  predicate DecisionAllowed(choice: RefundChoice, amount: Option<int>) {
    (choice == Partial <==> amount.Some?) && (amount.Some? ==> 0 < amount.value)
  }

  function ClaimRefund(db: Db, booking: BookingId, claim: RefundClaim): (Db, bool) {
    if booking in db.refunds || !DecisionAllowed(claim.choice, claim.requestedAmount) then (db, false)
    else
      var row := Refund(claim.id, claim.paymentIntent, claim.choice, Requested, claim.requestedAmount, None, None, 0, None, None, None);
      (db.(refunds := db.refunds[booking := row]), true)
  }

  datatype RefundResolution = RefundResolution(
    status: RefundStatus,
    stripeRefundId: Option<string>,
    amount: Option<int>,
    resolvedAt: Instant,
    nextAttemptAt: Option<Instant>)

  predicate RefundRowIs(db: Db, booking: BookingId, id: Token) {
    booking in db.refunds && db.refunds[booking].id == id
  }

  function ResolvedRefund(row: Refund, r: RefundResolution): Refund {
    row.(status := r.status, stripeRefundId := r.stripeRefundId, amount := r.amount,
         failureStartedAt := if r.status == RefundFailed then Some(row.failureStartedAt.GetOr(r.resolvedAt)) else None,
         nextAttemptAt := if r.status == RefundFailed then r.nextAttemptAt else None)
  }

  function ResolveRefund(db: Db, booking: BookingId, id: Token, r: RefundResolution): Db {
    if RefundRowIs(db, booking, id) && db.refunds[booking].status != RefundSucceeded
    then db.(refunds := db.refunds[booking := ResolvedRefund(db.refunds[booking], r)])
    else db
  }

  function DeleteRefund(db: Db, booking: BookingId, id: Token): Db {
    if RefundRowIs(db, booking, id) && db.refunds[booking].status == Requested
    then db.(refunds := db.refunds - {booking})
    else db
  }

  // What the payment provider reports of a whole refund; the row it finds keeps its id.
  datatype ProviderRefund = ProviderRefund(
    id: Token,
    paymentIntent: Option<string>,
    stripeRefundId: Option<string>,
    amount: int)

  function ReportedRow(report: ProviderRefund): Refund {
    Refund(report.id, report.paymentIntent, Full, RefundSucceeded, None, report.stripeRefundId, Some(report.amount), 0, None, None, None)
  }

  function Corrected(row: Refund, report: ProviderRefund): Refund {
    if row.status == RefundSucceeded && row.choice == Full then row
    else row.(paymentIntent := report.paymentIntent, choice := Full, status := RefundSucceeded,
              requestedAmount := None, stripeRefundId := report.stripeRefundId, amount := Some(report.amount))
  }

  function ReconcileRefund(db: Db, booking: BookingId, report: ProviderRefund): Db {
    var row := if booking in db.refunds then Corrected(db.refunds[booking], report) else ReportedRow(report);
    db.(refunds := db.refunds[booking := row])
  }

  function ReconcileRefundAndCancel(db: Db, booking: BookingId, report: ProviderRefund, input: CancelInput): (Db, bool) {
    Cancel(ReconcileRefund(db, booking, report), booking, input)
  }

  predicate RefundClaimable(row: Refund, now: Instant) {
    && row.attemptCount < SIDE_EFFECT_MAX_ATTEMPTS
    && Due(row.nextAttemptAt, now)
    && (row.status == Requested || row.status == RefundFailed || (row.status == RefundInFlight && Stale(row.attemptedAt, now)))
  }

  predicate RefundRetryable(row: Refund, now: Instant) {
    row.status == Requested || row.status == RefundFailed || row.status == RefundAbandoned
    || (row.status == RefundInFlight && Stale(row.attemptedAt, now))
  }

  function TakeRefund(db: Db, booking: BookingId, now: Instant): (Db, Option<nat>)
    requires booking in db.refunds
  {
    var row := db.refunds[booking];
    var taken := row.(status := RefundInFlight, attemptCount := row.attemptCount + 1, attemptedAt := Some(now));
    (db.(refunds := db.refunds[booking := taken]), Some(taken.attemptCount))
  }

  function ClaimRefundExecution(db: Db, booking: BookingId, id: Token, now: Instant): (Db, Option<nat>) {
    if RefundRowIs(db, booking, id) && RefundClaimable(db.refunds[booking], now) then TakeRefund(db, booking, now) else (db, None)
  }

  function ClaimRefundExecutionForRetry(db: Db, booking: BookingId, id: Token, now: Instant): (Db, Option<nat>) {
    if RefundRowIs(db, booking, id) && RefundRetryable(db.refunds[booking], now) then TakeRefund(db, booking, now) else (db, None)
  }

  // The recorded total only grows.
  function RecordRefundedAmount(db: Db, id: BookingId, amount: int): Db {
    if id < |db.bookings|
    then db.(bookings := db.bookings[id := db.bookings[id].(amountRefunded :=
           if db.bookings[id].amountRefunded < amount then amount else db.bookings[id].amountRefunded)])
    else db
  }

  // ----- capacity edits

  function SetDayOverride(db: Db, date: Date, capacity: int): Db {
    db.(dayOverrides := db.dayOverrides[date := capacity])
  }

  function DeleteDayOverride(db: Db, date: Date): Db {
    db.(dayOverrides := db.dayOverrides - {date})
  }

  function SetCapacityDefault(db: Db, from: Date, capacity: int): Db {
    db.(capacityDefaults := db.capacityDefaults[from := capacity])
  }

  function DeleteCapacityDefault(db: Db, from: Date): Db {
    db.(capacityDefaults := db.capacityDefaults - {from})
  }
}
