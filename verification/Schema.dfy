/** The stored rows, as the repository's tables hold them.

    A booking's id is its position in `Db.bookings`: rows are only ever appended, so
    the position is as stable and as unique as the stored identifier. Instants are
    integers (milliseconds), dates are ordered keys. */
module Schema {

  datatype Option<+T> = None | Some(value: T)
  {
    function GetOr(default: T): T {
      if Some? then value else default
    }
  }

  // Whether a pickup surcharge is charged for every capacity unit or once.
  datatype Scope = PerUnit | PerBooking

  type Instant = int
  type Date = int
  type BookingId = nat
  type Token = nat

  datatype BookingStatus = Hold | Confirmed | Cancelled | Expired | NoShow

  datatype Booking = Booking(
    reference: string,
    serviceSlug: string,
    quantity: int,
    startsAt: Instant,
    endsAt: Instant,
    priceMinor: int,
    status: BookingStatus,
    holdExpiresAt: Option<Instant>,
    holdIp: Option<string>,
    occupancyUnits: Option<int>,
    occupancyEndsAt: Option<Instant>,
    rescheduledFrom: Option<Instant>,
    rescheduleVersion: nat,
    leaseToken: Option<Token>,
    leaseUntil: Option<Instant>,
    paymentRef: Option<string>,
    calendarEventId: Option<string>,
    amountRefunded: int)

  // ----- side_effect_operations

  datatype Family =
    | CalendarCreate | CalendarDelete | CalendarPatch | EmailConfirmation
    | Oversell | Email | Hook | Webhook

  datatype Event =
    | BookingConfirmed | CancelledByCustomer | CancelledByOperator
    | Rescheduled | MarkedNoShow | Reminder | DisputeCreated

  datatype Discriminator = NoDiscriminator | Version(number: nat) | Occurrence(text: string)

  // The unique identity index of the outbox table.
  datatype OperationKey = OperationKey(
    booking: BookingId,
    family: Family,
    name: Option<string>,
    event: Option<Event>,
    discriminator: Discriminator)

  datatype OperationStatus = Pending | InFlight | Succeeded | Failed | Abandoned

  datatype Operation = Operation(
    status: OperationStatus,
    providerResultId: Option<string>,
    attemptCount: nat,
    attemptedAt: Option<Instant>,
    resolvedAt: Option<Instant>,
    failureStartedAt: Option<Instant>,
    nextAttemptAt: Option<Instant>)

  // The identity columns a transition names for a row it owes.
  datatype Seed = Seed(family: Family, name: Option<string>, event: Option<Event>)

  const SIDE_EFFECT_MAX_ATTEMPTS: nat := 10
  const MUTATION_SIDE_EFFECT_LEASE_MS: int := 300000

  // ----- refund_operations, at most one row per booking

  datatype RefundChoice = Full | NoRefund | Partial

  datatype RefundStatus = Requested | RefundInFlight | RefundSucceeded | RefundFailed | RefundAbandoned

  datatype Refund = Refund(
    id: Token,
    paymentIntent: Option<string>,
    choice: RefundChoice,
    status: RefundStatus,
    requestedAmount: Option<int>,
    stripeRefundId: Option<string>,
    amount: Option<int>,
    attemptCount: nat,
    attemptedAt: Option<Instant>,
    failureStartedAt: Option<Instant>,
    nextAttemptAt: Option<Instant>)

  // ----- the whole store

  datatype Db = Db(
    bookings: seq<Booking>,
    operations: map<OperationKey, Operation>,
    refunds: map<BookingId, Refund>,
    dayOverrides: map<Date, int>,
    capacityDefaults: map<Date, int>)
}
