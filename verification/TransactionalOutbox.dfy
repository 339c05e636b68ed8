/** The outbox: a transition's delivery rows exist exactly when the transition won. */
module TransactionalOutbox {
  import opened Schema
  import opened Statements
  import opened Runs
  import opened Progress

  predicate IsRescheduleKey(k: OperationKey) {
    k.event == Some(Rescheduled) || k.family == CalendarPatch
  }

  predicate IsCancellationKey(k: OperationKey) {
    k.event == Some(CancelledByCustomer) || k.event == Some(CancelledByOperator) || k.family == CalendarDelete
  }

  predicate IsNoShowKey(k: OperationKey) {
    k.event == Some(MarkedNoShow)
  }

  predicate IsTransitionKey(k: OperationKey) {
    IsRescheduleKey(k) || IsCancellationKey(k) || IsNoShowKey(k)
  }

  predicate IsConfirmationKey(k: OperationKey) {
    IsConfirmationOperation(k) || k.event == Some(BookingConfirmed)
  }

  // `owed` collects the keys every winning transition named; `confirmed` the bookings ever stored
  // as confirmed.
  datatype Ledger = Ledger(w: World, owed: set<OperationKey>, confirmed: set<BookingId>)

  // The rows a step's transition owes if its compare-and-set wins here.
  ghost function Owes(w: World, step: Step): set<OperationKey> {
    match step
    case RescheduleStep(id, move) =>
      if RescheduleWins(w.db, id, move)
      then SeedKeys(id, move.seeds, Version(w.db.bookings[id].rescheduleVersion + 1)) else {}
    case CancelStep(id, cancel) =>
      if CancelWins(w.db, id, cancel) then SeedKeys(id, cancel.seeds, NoDiscriminator) else {}
    case ReconcileAndCancelStep(id, _, cancel) =>
      if CancelWins(w.db, id, cancel) then SeedKeys(id, cancel.seeds, NoDiscriminator) else {}
    case NoShowStep(id, seeds) =>
      if id < |w.db.bookings| && w.db.bookings[id].status == Confirmed then SeedKeys(id, seeds, NoDiscriminator) else {}
    case _ => {}
  }

  function ConfirmedIn(rows: seq<Booking>): set<BookingId> {
    set i: BookingId | i < |rows| && rows[i].status == Confirmed
  }

  ghost function Follow(l: Ledger, step: Step): Ledger {
    var w' := Next(l.w, step);
    Ledger(w', l.owed + Owes(l.w, step), l.confirmed + ConfirmedIn(w'.db.bookings))
  }

  // What an owed row says of its booking.
  predicate Justified(k: OperationKey, rows: seq<Booking>) {
    && k.booking < |rows|
    && (IsRescheduleKey(k) ==> k.discriminator.Version? && k.discriminator.number <= rows[k.booking].rescheduleVersion)
    && (IsCancellationKey(k) ==> rows[k.booking].status == Cancelled)
    && (IsNoShowKey(k) ==> rows[k.booking].status == NoShow)
  }

  ghost predicate Sound(l: Ledger) {
    && (forall k | IsTransitionKey(k) :: k in l.w.db.operations <==> k in l.owed)
    && (forall k | k in l.owed :: IsTransitionKey(k) && Justified(k, l.w.db.bookings))
    && (forall k | k in l.w.db.operations && IsConfirmationKey(k) :: k.booking in l.confirmed)
    && ConfirmedIn(l.w.db.bookings) <= l.confirmed
  }

  // ----- which keys a step adds

  predicate AddsRows(step: Step) {
    step.RescheduleStep? || step.CancelStep? || step.NoShowStep? || step.ConfirmStep? || step.EnsureStep?
    || step.RecordStep? || step.ReconcileAndCancelStep?
  }

  predicate ClaimsOrResolves(step: Step) {
    step.ClaimConfirmationStep? || step.RetryConfirmationStep? || step.ResolveConfirmationStep?
    || step.ClaimRowStep? || step.RetryRowStep? || step.ResolveRowStep?
  }

  lemma ClaimsAddNoKey(w: World, step: Step)
    requires ClaimsOrResolves(step)
    ensures Next(w, step).db.operations.Keys == w.db.operations.Keys
  {
  }

  lemma OthersLeaveOperations(w: World, step: Step)
    requires !AddsRows(step) && !ClaimsOrResolves(step)
    ensures Next(w, step).db.operations == w.db.operations
  {
  }

  lemma RescheduleAddsWhatItOwes(w: World, step: Step)
    requires step.RescheduleStep?
    ensures Next(w, step).db.operations == Insert(w.db.operations, Owes(w, step))
  {
  }

  lemma EndingsAddWhatTheyOwe(w: World, step: Step)
    requires step.CancelStep? || step.NoShowStep?
    ensures Next(w, step).db.operations == Insert(w.db.operations, Owes(w, step))
  {
  }

  lemma CorrectionAddsWhatItOwes(w: World, step: Step)
    requires step.ReconcileAndCancelStep?
    ensures Next(w, step).db.operations == Insert(w.db.operations, Owes(w, step))
  {
  }

  lemma TransitionsAddWhatTheyOwe(w: World, step: Step)
    requires step.RescheduleStep? || step.CancelStep? || step.NoShowStep? || step.ReconcileAndCancelStep?
    ensures Next(w, step).db.operations == Insert(w.db.operations, Owes(w, step))
  {
    if step.RescheduleStep? {
      RescheduleAddsWhatItOwes(w, step);
    } else if step.ReconcileAndCancelStep? {
      CorrectionAddsWhatItOwes(w, step);
    } else {
      EndingsAddWhatTheyOwe(w, step);
    }
  }

  lemma ConfirmationRowKeys(id: BookingId, confirm: ConfirmInput, k: OperationKey)
    requires k in ConfirmationRows(id, confirm)
    requires forall s | s in confirm.eventSeeds :: IsConfirmedEventSeed(s)
    ensures k.booking == id && !IsTransitionKey(k)
  {
  }

  lemma RepairRowKeys(db: Db, id: BookingId, ensure: EnsureInput, k: OperationKey)
    requires id < |db.bookings| && k in RepairRows(db, id, ensure)
    requires forall s | s in ensure.eventSeeds :: IsConfirmedEventSeed(s)
    ensures k.booking == id && !IsTransitionKey(k)
  {
  }

  lemma ConfirmationAddsItsOwn(w: World, id: BookingId, confirm: ConfirmInput, k: OperationKey)
    requires forall s | s in confirm.eventSeeds :: IsConfirmedEventSeed(s)
    requires k in Confirm(w.db, id, confirm).0.operations && k !in w.db.operations
    ensures !IsTransitionKey(k)
    ensures k.booking in ConfirmedIn(Confirm(w.db, id, confirm).0.bookings)
  {
    ConfirmationRowKeys(id, confirm, k);
  }

  lemma RepairAddsItsOwn(w: World, id: BookingId, ensure: EnsureInput, k: OperationKey)
    requires forall s | s in ensure.eventSeeds :: IsConfirmedEventSeed(s)
    requires k in EnsureConfirmationOperations(w.db, id, ensure).operations && k !in w.db.operations
    ensures !IsTransitionKey(k)
    ensures k.booking in ConfirmedIn(w.db.bookings)
  {
    RepairRowKeys(w.db, id, ensure, k);
  }

  lemma ConfirmationsAddTheirOwn(w: World, step: Step, k: OperationKey)
    requires Legal(w, step) && (step.ConfirmStep? || step.EnsureStep?)
    requires k in Next(w, step).db.operations && k !in w.db.operations
    ensures !IsTransitionKey(k)
    ensures k.booking in ConfirmedIn(Next(w, step).db.bookings)
  {
    if step.ConfirmStep? {
      ConfirmationAddsItsOwn(w, step.id, step.confirm, k);
    } else {
      RepairAddsItsOwn(w, step.id, step.ensure, k);
    }
  }

  lemma OwedKeysAreJustified(w: World, step: Step, k: OperationKey)
    requires Legal(w, step) && k in Owes(w, step)
    ensures IsTransitionKey(k) && !IsConfirmationKey(k) && Justified(k, Next(w, step).db.bookings)
  {
  }

  lemma KeysAfterTransition(w: World, step: Step, k: OperationKey)
    requires Legal(w, step) && (step.RescheduleStep? || step.CancelStep? || step.NoShowStep? || step.ReconcileAndCancelStep?)
    ensures k in Next(w, step).db.operations <==> k in w.db.operations || k in Owes(w, step)
    ensures k in Owes(w, step) ==> !IsConfirmationKey(k)
  {
    TransitionsAddWhatTheyOwe(w, step);
    if k in Owes(w, step) { OwedKeysAreJustified(w, step, k); }
  }

  lemma OthersOweNothing(w: World, step: Step)
    requires !(step.RescheduleStep? || step.CancelStep? || step.NoShowStep? || step.ReconcileAndCancelStep?)
    ensures Owes(w, step) == {}
  {
  }

  lemma AddedRowsStay(w: World, step: Step, k: OperationKey)
    requires step.ConfirmStep? || step.EnsureStep? || step.RecordStep?
    ensures k in w.db.operations ==> k in Next(w, step).db.operations
  {
  }

  lemma RecordedKeysAreOccurrences(w: World, step: Step, k: OperationKey)
    requires Legal(w, step) && step.RecordStep?
    requires k in Next(w, step).db.operations && k !in w.db.operations
    ensures !IsTransitionKey(k) && !IsConfirmationKey(k)
  {
  }

  lemma KeysAfter(w: World, step: Step, k: OperationKey)
    requires Legal(w, step)
    ensures k in w.db.operations ==> k in Next(w, step).db.operations
    ensures IsTransitionKey(k) ==> (k in Next(w, step).db.operations <==> k in w.db.operations || k in Owes(w, step))
    ensures IsConfirmationKey(k) && k in Next(w, step).db.operations && k !in w.db.operations ==>
              k.booking in ConfirmedIn(Next(w, step).db.bookings)
  {
    if step.RescheduleStep? || step.CancelStep? || step.NoShowStep? || step.ReconcileAndCancelStep? {
      KeysAfterTransition(w, step, k);
    } else {
      OthersOweNothing(w, step);
      if ClaimsOrResolves(step) {
        ClaimsAddNoKey(w, step);
      } else if !AddsRows(step) {
        OthersLeaveOperations(w, step);
      } else {
        AddedRowsStay(w, step, k);
        if k in Next(w, step).db.operations && k !in w.db.operations {
          if step.RecordStep? { RecordedKeysAreOccurrences(w, step, k); } else { ConfirmationsAddTheirOwn(w, step, k); }
        }
      }
    }
  }

  // ----- every run

  lemma StepKeepsSound(l: Ledger, step: Step)
    requires Sound(l) && Legal(l.w, step)
    ensures Sound(Follow(l, step))
  {
    var l' := Follow(l, step);
    EveryStepGoesForward(l.w, step);
    forall k
      ensures IsTransitionKey(k) ==> (k in l'.w.db.operations <==> k in l'.owed)
      ensures k in l'.owed ==> IsTransitionKey(k) && Justified(k, l'.w.db.bookings)
      ensures k in l'.w.db.operations && IsConfirmationKey(k) ==> k.booking in l'.confirmed
    {
      KeysAfter(l.w, step, k);
      if k in Owes(l.w, step) { OwedKeysAreJustified(l.w, step, k); }
    }
  }

  ghost function FollowAll(l: Ledger, steps: seq<Step>): Ledger
    decreases |steps|
  {
    if steps == [] then l else FollowAll(Follow(l, steps[0]), steps[1..])
  }

  // On every run, a cancellation, no-show or reschedule row exists exactly when a winning transition
  // named it, and a confirmation row only for a booking that was confirmed.
  lemma {:induction false} EveryRunKeepsTheOutboxSound(l: Ledger, steps: seq<Step>)
    requires Sound(l) && LegalRun(l.w, steps)
    ensures Sound(FollowAll(l, steps)) && FollowAll(l, steps).w == Run(l.w, steps)
    decreases |steps|
  {
    if steps != [] {
      StepKeepsSound(l, steps[0]);
      EveryRunKeepsTheOutboxSound(Follow(l, steps[0]), steps[1..]);
    }
  }

  // ----- one transition

  predicate IsTransition(step: Step) {
    step.RescheduleStep? || step.CancelStep? || step.NoShowStep? || step.ReconcileAndCancelStep?
  }

  // Whether the step's compare-and-set won, read off the booking it names.
  ghost predicate Wins(w: World, step: Step)
    requires IsTransition(step)
  {
    match step
    case RescheduleStep(id, move) => RescheduleWins(w.db, id, move)
    case CancelStep(id, cancel) => CancelWins(w.db, id, cancel)
    case NoShowStep(id, _) => id < |w.db.bookings| && w.db.bookings[id].status == Confirmed
    case ReconcileAndCancelStep(id, _, cancel) => CancelWins(w.db, id, cancel)
  }

  // A winner's rows are all new and pending: no insert of theirs ever meets an existing row.
  lemma WinnerInsertsEveryRow(l: Ledger, step: Step, k: OperationKey)
    requires Sound(l) && Legal(l.w, step) && IsTransition(step) && k in Owes(l.w, step)
    ensures Wins(l.w, step)
    ensures k !in l.w.db.operations
    ensures k in Next(l.w, step).db.operations && Next(l.w, step).db.operations[k] == FRESH
  {
    OwedKeysAreJustified(l.w, step, k);
    TransitionsAddWhatTheyOwe(l.w, step);
    if k in l.w.db.operations {
      assert Justified(k, l.w.db.bookings);
      WinnerKeysAreNew(l.w, step, k);
    }
  }

  function SeedsOf(step: Step): seq<Seed>
    requires IsTransition(step)
  {
    if step.RescheduleStep? then step.move.seeds else if step.NoShowStep? then step.seeds else step.cancel.seeds
  }

  // The column a winner's rows share: a move's own version, or none.
  function DiscriminatorOf(w: World, step: Step): Discriminator
    requires IsTransition(step) && step.id < |w.db.bookings|
  {
    if step.RescheduleStep? then Version(w.db.bookings[step.id].rescheduleVersion + 1) else NoDiscriminator
  }

  // A winner leaves a pending, unattempted row for each of its seeds, under its booking and its version; every row it
  // adds is one of them; no other row changes.
  lemma WinnerLeavesARowPerSeed(l: Ledger, step: Step)
    requires Sound(l) && Legal(l.w, step) && IsTransition(step) && Wins(l.w, step)
    ensures step.id < |l.w.db.bookings|
    ensures forall s | s in SeedsOf(step) ::
              var k := OperationKey(step.id, s.family, s.name, s.event, DiscriminatorOf(l.w, step));
              k !in l.w.db.operations && k in Next(l.w, step).db.operations
              && Next(l.w, step).db.operations[k] == Operation(Pending, None, 0, None, None, None, None)
    ensures forall k | k in Next(l.w, step).db.operations ::
              if k in l.w.db.operations then Next(l.w, step).db.operations[k] == l.w.db.operations[k]
              else exists s | s in SeedsOf(step) :: k == OperationKey(step.id, s.family, s.name, s.event, DiscriminatorOf(l.w, step))
  {
    WinnerOwesItsSeeds(l.w, step);
    TransitionsAddWhatTheyOwe(l.w, step);
    forall s | s in SeedsOf(step)
      ensures var k := OperationKey(step.id, s.family, s.name, s.event, DiscriminatorOf(l.w, step));
              k !in l.w.db.operations && k in Next(l.w, step).db.operations
              && Next(l.w, step).db.operations[k] == Operation(Pending, None, 0, None, None, None, None)
    {
      WinnerInsertsEveryRow(l, step, OperationKey(step.id, s.family, s.name, s.event, DiscriminatorOf(l.w, step)));
    }
  }

  lemma WinnerOwesItsSeeds(w: World, step: Step)
    requires IsTransition(step) && Wins(w, step)
    ensures step.id < |w.db.bookings|
    ensures forall s | s in SeedsOf(step) :: OperationKey(step.id, s.family, s.name, s.event, DiscriminatorOf(w, step)) in Owes(w, step)
    ensures forall k | k in Owes(w, step) ::
              exists s | s in SeedsOf(step) :: k == OperationKey(step.id, s.family, s.name, s.event, DiscriminatorOf(w, step))
  {
    forall s | s in SeedsOf(step)
      ensures OperationKey(step.id, s.family, s.name, s.event, DiscriminatorOf(w, step)) in Owes(w, step)
    {
      assert KeyOf(step.id, s, DiscriminatorOf(w, step)) in SeedKeys(step.id, SeedsOf(step), DiscriminatorOf(w, step));
    }
  }

  // Each row belongs to one drain: the calendar event, the confirmation emails and the marker to the booking's lease,
  // every other row to its own.
  lemma EveryRowHasOneDrain(id: BookingId, s: Seed, d: Discriminator, recipient: string)
    ensures IsConfirmationOperation(OperationKey(id, CalendarCreate, None, None, NoDiscriminator))
    ensures IsConfirmationOperation(OperationKey(id, EmailConfirmation, None, None, NoDiscriminator))
    ensures IsConfirmationOperation(OperationKey(id, Email, Some(recipient), Some(BookingConfirmed), NoDiscriminator))
    ensures IsConfirmationOperation(OperationKey(id, Oversell, None, None, NoDiscriminator))
    ensures IsCancellationSeed(s) || IsNoShowSeed(s) || IsRescheduleSeed(s) || IsConfirmedEventSeed(s) ==>
              !IsConfirmationOperation(OperationKey(id, s.family, s.name, s.event, d))
    ensures forall k | IsOccurrenceKey(k) :: !IsConfirmationOperation(k)
  {
  }

  // The compare-and-set of a winner contradicts what an older row of that key would say.
  lemma WinnerKeysAreNew(w: World, step: Step, k: OperationKey)
    requires Legal(w, step) && IsTransition(step) && k in Owes(w, step)
    ensures !Justified(k, w.db.bookings)
  {
    if step.RescheduleStep? {
      assert k.discriminator == Version(w.db.bookings[step.id].rescheduleVersion + 1);
    }
  }

  // A loser leaves the whole store as it was: rows, version and booking. The refund row that a
  // losing refund correction writes is no part of the transition.
  lemma LoserChangesNothing(w: World, step: Step)
    requires IsTransition(step) && !Wins(w, step)
    ensures Next(w, step).db.operations == w.db.operations && Next(w, step).db.bookings == w.db.bookings
    ensures !step.ReconcileAndCancelStep? ==> Next(w, step).db == w.db
    ensures step.ReconcileAndCancelStep? ==> Next(w, step).db == ReconcileRefund(w.db, step.id, step.report)
  {
  }

  // Versions of successive winning reschedules of a booking strictly increase.
  lemma LaterRescheduleHasAHigherVersion(w: World, id: BookingId, first: RescheduleInput, steps: seq<Step>, second: RescheduleInput)
    requires RescheduleWins(w.db, id, first)
    requires LegalRun(Next(w, RescheduleStep(id, first)), steps)
    requires RescheduleWins(Run(Next(w, RescheduleStep(id, first)), steps).db, id, second)
    ensures var later := Run(Next(w, RescheduleStep(id, first)), steps);
            w.db.bookings[id].rescheduleVersion + 1 < later.db.bookings[id].rescheduleVersion + 1
  {
    EveryRunGoesForward(Next(w, RescheduleStep(id, first)), steps);
  }
}
