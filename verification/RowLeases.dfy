/** Row leases: outbox rows claimed through their own attempted_at, under any interleaving of
    drains, admin retries and claimants that die before resolving. */
module RowLeases {
  import opened Schema
  import opened Statements
  import opened Runs

  // One claim won on a row: when, by whom, and what became of it. `spent` marks that its worker
  // has tried to resolve it; `recorded` holds the outcome if the row took it.
  datatype Claim = Claim(at: Instant, admin: bool, spent: bool, recorded: Option<OperationStatus>)

  type Claims = map<OperationKey, seq<Claim>>

  datatype Traced = Traced(w: World, claims: Claims)

  function ClaimsOf(claims: Claims, key: OperationKey): seq<Claim> {
    if key in claims then claims[key] else []
  }

  // The newest claim made at that instant whose worker has not resolved it, or |cs|.
  function Claimant(cs: seq<Claim>, at: Instant): (i: nat)
    ensures i <= |cs|
    ensures i < |cs| ==> cs[i].at == at && !cs[i].spent
    ensures forall j | 0 <= j < |cs| && (i == |cs| || i < j) :: cs[j].at != at || cs[j].spent
  {
    if cs == [] then 0
    else
      var last := |cs| - 1;
      if cs[last].at == at && !cs[last].spent then last
      else
        var i := Claimant(cs[..last], at);
        if i == last then |cs| else i
  }

  // A worker resolves a claim it won, once.
  predicate Disciplined(s: Traced, step: Step) {
    step.ResolveRowStep? ==>
      Claimant(ClaimsOf(s.claims, step.key), step.claimedAt) < |ClaimsOf(s.claims, step.key)|
  }

  ghost function Follow(s: Traced, step: Step): Traced
    requires Disciplined(s, step)
  {
    var w' := Next(s.w, step);
    match step
    case ClaimRowStep(key) =>
      if ClaimRow(s.w.db, key, s.w.clock).1.Some?
      then Traced(w', s.claims[key := ClaimsOf(s.claims, key) + [Claim(s.w.clock, false, false, None)]])
      else Traced(w', s.claims)
    case RetryRowStep(key) =>
      if ClaimRowForRetry(s.w.db, key, s.w.clock).1.Some?
      then Traced(w', s.claims[key := ClaimsOf(s.claims, key) + [Claim(s.w.clock, true, false, None)]])
      else Traced(w', s.claims)
    case ResolveRowStep(key, claimedAt, r) =>
      var cs := ClaimsOf(s.claims, key);
      var i := Claimant(cs, claimedAt);
      var recorded := if ResolveRow(s.w.db, key, claimedAt, r).1 then Some(r.status) else None;
      Traced(w', s.claims[key := cs[i := cs[i].(spent := true, recorded := recorded)]])
    case _ => Traced(w', s.claims)
  }

  predicate RowSound(op: Operation, cs: seq<Claim>, clock: Instant) {
    && |cs| == op.attemptCount
    && (forall i | 0 <= i < |cs| :: cs[i].at <= clock)
    && (forall i, j | 0 <= i < j < |cs| :: cs[i].at <= cs[j].at)
    // a claim that was taken over while open began strictly earlier
    && (forall i, j | 0 <= i < j < |cs| && !cs[i].spent :: cs[i].at < cs[j].at)
    && (forall i | 0 <= i < |cs| && cs[i].recorded.Some? :: cs[i].spent)
    && (forall i | 0 <= i < |cs| - 1 :: cs[i].recorded != Some(Succeeded))
    && (forall i | 0 <= i < |cs| && !cs[i].admin :: i < SIDE_EFFECT_MAX_ATTEMPTS)
    && match op.status
       case Pending => cs == []
       case InFlight => cs != [] && op.attemptedAt == Some(cs[|cs| - 1].at) && !cs[|cs| - 1].spent
       case _ => cs != [] && cs[|cs| - 1].recorded == Some(op.status)
  }

  predicate KeySound(s: Traced, k: OperationKey) {
    if k in s.w.db.operations then !IsConfirmationOperation(k) ==> RowSound(s.w.db.operations[k], ClaimsOf(s.claims, k), s.w.clock)
    else ClaimsOf(s.claims, k) == []
  }

  ghost predicate Sound(s: Traced) {
    forall k :: KeySound(s, k)
  }

  // ----- which steps touch a row

  predicate TouchesRow(step: Step, key: OperationKey) {
    || (step.ClaimRowStep? && step.key == key)
    || (step.RetryRowStep? && step.key == key)
    || (step.ResolveRowStep? && step.key == key)
  }

  predicate InsertsRows(step: Step) {
    step.RescheduleStep? || step.CancelStep? || step.NoShowStep? || step.ConfirmStep? || step.EnsureStep?
    || step.RecordStep? || step.ReconcileAndCancelStep?
  }

  // Outbox inserts add fresh rows and leave the others as they are.
  ghost predicate OnlyAdds(before: map<OperationKey, Operation>, after: map<OperationKey, Operation>) {
    && (forall k | k in before :: k in after && after[k] == before[k])
    && (forall k | k in after && k !in before && !IsConfirmationOperation(k) :: after[k] == FRESH)
    && (forall k | k in after && k !in before :: after[k].attemptCount == 0)
  }

  lemma InsertOnlyAdds(before: map<OperationKey, Operation>, keys: set<OperationKey>)
    ensures OnlyAdds(before, Insert(before, keys))
  {
  }

  lemma ConfirmationRowsOnlyAdd(before: map<OperationKey, Operation>, id: BookingId, confirm: ConfirmInput)
    ensures OnlyAdds(before, InsertRows(before, ConfirmationRows(id, confirm)))
  {
  }

  lemma RepairRowsOnlyAdd(db: Db, id: BookingId, ensure: EnsureInput)
    requires id < |db.bookings|
    ensures OnlyAdds(db.operations, InsertRows(db.operations, RepairRows(db, id, ensure)))
  {
  }

  lemma TransitionsOnlyAdd(w: World, step: Step)
    requires step.RescheduleStep? || step.NoShowStep? || step.RecordStep?
    ensures OnlyAdds(w.db.operations, Next(w, step).db.operations)
  {
    match step
    case RescheduleStep(id, move) =>
      if id < |w.db.bookings| {
        InsertOnlyAdds(w.db.operations, SeedKeys(id, move.seeds, Version(w.db.bookings[id].rescheduleVersion + 1)));
      }
    case NoShowStep(id, seeds) => InsertOnlyAdds(w.db.operations, SeedKeys(id, seeds, NoDiscriminator));
    case RecordStep(keys) => InsertOnlyAdds(w.db.operations, keys);
  }

  lemma CancellationsOnlyAdd(w: World, step: Step)
    requires step.CancelStep? || step.ReconcileAndCancelStep?
    ensures OnlyAdds(w.db.operations, Next(w, step).db.operations)
  {
    InsertOnlyAdds(w.db.operations, SeedKeys(step.id, step.cancel.seeds, NoDiscriminator));
  }

  lemma ConfirmationsOnlyAdd(w: World, step: Step)
    requires step.ConfirmStep? || step.EnsureStep?
    ensures OnlyAdds(w.db.operations, Next(w, step).db.operations)
  {
    match step
    case ConfirmStep(id, confirm) => ConfirmationRowsOnlyAdd(w.db.operations, id, confirm);
    case EnsureStep(id, ensure) => if id < |w.db.bookings| { RepairRowsOnlyAdd(w.db, id, ensure); }
  }

  lemma InsertsOnlyAdd(w: World, step: Step)
    requires InsertsRows(step)
    ensures OnlyAdds(w.db.operations, Next(w, step).db.operations)
  {
    if step.ConfirmStep? || step.EnsureStep? {
      ConfirmationsOnlyAdd(w, step);
    } else if step.CancelStep? || step.ReconcileAndCancelStep? {
      CancellationsOnlyAdd(w, step);
    } else {
      TransitionsOnlyAdd(w, step);
    }
  }

  predicate ConfirmationPath(step: Step) {
    step.ClaimConfirmationStep? || step.RetryConfirmationStep? || step.ResolveConfirmationStep?
  }

  predicate RowPath(step: Step) {
    step.ClaimRowStep? || step.RetryRowStep? || step.ResolveRowStep?
  }

  lemma OthersLeaveOperations(w: World, step: Step)
    requires !InsertsRows(step) && !ConfirmationPath(step) && !RowPath(step)
    ensures Next(w, step).db.operations == w.db.operations
  {
  }

  lemma OtherKeysStay(w: World, step: Step, key: OperationKey)
    requires (ConfirmationPath(step) || RowPath(step)) && step.key != key
    ensures key in Next(w, step).db.operations <==> key in w.db.operations
    ensures key in w.db.operations ==> Next(w, step).db.operations[key] == w.db.operations[key]
  {
  }

  lemma UntouchedRowStays(w: World, step: Step, key: OperationKey)
    requires Legal(w, step) && !IsConfirmationOperation(key) && !TouchesRow(step, key)
    ensures key in w.db.operations ==> key in Next(w, step).db.operations && Next(w, step).db.operations[key] == w.db.operations[key]
    ensures key !in w.db.operations && key in Next(w, step).db.operations ==> Next(w, step).db.operations[key] == FRESH
  {
    if InsertsRows(step) {
      InsertsOnlyAdd(w, step);
    } else if !ConfirmationPath(step) && !RowPath(step) {
      OthersLeaveOperations(w, step);
    } else {
      OtherKeysStay(w, step, key);
    }
  }

  // ----- every run

  lemma ClaimKeepsRowSound(op: Operation, cs: seq<Claim>, clock: Instant, admin: bool)
    requires RowSound(op, cs, clock)
    requires if admin then RowRetryable(op, clock) else RowClaimable(op, clock)
    ensures RowSound(Started(op, clock), cs + [Claim(clock, admin, false, None)], clock)
  {
    var cs' := cs + [Claim(clock, admin, false, None)];
    forall i, j | 0 <= i < j < |cs'| && !cs'[i].spent
      ensures cs'[i].at < cs'[j].at
    {
      if j == |cs| && i < |cs| - 1 {
        assert cs[i].at < cs[|cs| - 1].at;
      }
    }
  }

  // An outcome is recorded exactly when the claim is the row's latest.
  lemma OnlyTheLatestClaimRecords(op: Operation, cs: seq<Claim>, clock: Instant, claimedAt: Instant)
    requires RowSound(op, cs, clock) && Claimant(cs, claimedAt) < |cs|
    ensures OwnsRow(op, claimedAt) <==> Claimant(cs, claimedAt) == |cs| - 1
  {
    var i, last := Claimant(cs, claimedAt), |cs| - 1;
    if i < last {
      assert cs[i].at < cs[last].at;
    }
  }

  lemma ResolveKeepsRowSound(op: Operation, cs: seq<Claim>, clock: Instant, claimedAt: Instant, r: Resolution)
    requires RowSound(op, cs, clock) && Claimant(cs, claimedAt) < |cs| && Outcome(r.status)
    ensures var i := Claimant(cs, claimedAt);
            var won := OwnsRow(op, claimedAt);
            RowSound(if won then Resolved(op, r) else op,
                     cs[i := cs[i].(spent := true, recorded := if won then Some(r.status) else None)], clock)
  {
    OnlyTheLatestClaimRecords(op, cs, clock, claimedAt);
  }

  lemma StepKeepsSound(s: Traced, step: Step)
    requires Sound(s) && Legal(s.w, step) && Disciplined(s, step)
    ensures Sound(Follow(s, step))
  {
    forall k ensures KeySound(Follow(s, step), k) {
      RowStepKeepsSound(s, step, k);
    }
  }

  lemma RowsAreNeverRemoved(w: World, step: Step, key: OperationKey)
    requires Legal(w, step) && key in w.db.operations
    ensures key in Next(w, step).db.operations
  {
    if InsertsRows(step) {
      InsertsOnlyAdd(w, step);
    } else if !ConfirmationPath(step) && !RowPath(step) {
      OthersLeaveOperations(w, step);
    }
  }

  lemma OtherClaimsStay(s: Traced, step: Step, k: OperationKey)
    requires Disciplined(s, step) && !TouchesRow(step, k)
    ensures ClaimsOf(Follow(s, step).claims, k) == ClaimsOf(s.claims, k)
  {
  }

  lemma TouchedRowKeepsSound(s: Traced, step: Step, k: OperationKey)
    requires Legal(s.w, step) && Disciplined(s, step) && TouchesRow(step, k)
    requires k in s.w.db.operations && RowSound(s.w.db.operations[k], ClaimsOf(s.claims, k), s.w.clock)
    ensures k in Next(s.w, step).db.operations
    ensures RowSound(Next(s.w, step).db.operations[k], ClaimsOf(Follow(s, step).claims, k), s.w.clock)
  {
    var op, cs := s.w.db.operations[k], ClaimsOf(s.claims, k);
    match step
    case ClaimRowStep(_) => if RowClaimable(op, s.w.clock) { ClaimKeepsRowSound(op, cs, s.w.clock, false); }
    case RetryRowStep(_) => if RowRetryable(op, s.w.clock) { ClaimKeepsRowSound(op, cs, s.w.clock, true); }
    case ResolveRowStep(_, claimedAt, r) => ResolveKeepsRowSound(op, cs, s.w.clock, claimedAt, r);
  }

  lemma FollowedWorld(s: Traced, step: Step)
    requires Disciplined(s, step) && Legal(s.w, step)
    ensures Follow(s, step).w == Next(s.w, step)
    ensures s.w.clock <= Next(s.w, step).clock
    ensures step.ClaimRowStep? || step.RetryRowStep? || step.ResolveRowStep? ==> Next(s.w, step).clock == s.w.clock
  {
  }

  lemma MissingRowIsNotTouched(s: Traced, step: Step, k: OperationKey)
    requires Legal(s.w, step) && Disciplined(s, step) && TouchesRow(step, k)
    requires k !in s.w.db.operations && ClaimsOf(s.claims, k) == []
    ensures k !in Next(s.w, step).db.operations && ClaimsOf(Follow(s, step).claims, k) == []
  {
  }

  lemma LaterClockKeepsRowSound(op: Operation, cs: seq<Claim>, clock: Instant, later: Instant)
    requires RowSound(op, cs, clock) && clock <= later
    ensures RowSound(op, cs, later)
  {
  }

  lemma RowStepKeepsSound(s: Traced, step: Step, k: OperationKey)
    requires KeySound(s, k) && Legal(s.w, step) && Disciplined(s, step)
    ensures KeySound(Follow(s, step), k)
  {
    FollowedWorld(s, step);
    if k in s.w.db.operations { RowsAreNeverRemoved(s.w, step, k); }
    if !TouchesRow(step, k) {
      OtherClaimsStay(s, step, k);
      if !IsConfirmationOperation(k) {
        UntouchedRowStays(s.w, step, k);
        if k in s.w.db.operations {
          LaterClockKeepsRowSound(s.w.db.operations[k], ClaimsOf(s.claims, k), s.w.clock, Next(s.w, step).clock);
        }
      }
    } else if k in s.w.db.operations {
      TouchedRowKeepsSound(s, step, k);
    } else {
      MissingRowIsNotTouched(s, step, k);
    }
  }

  ghost predicate TracedRun(s: Traced, steps: seq<Step>)
    decreases |steps|
  {
    steps == [] || (Legal(s.w, steps[0]) && Disciplined(s, steps[0]) && TracedRun(Follow(s, steps[0]), steps[1..]))
  }

  ghost function FollowAll(s: Traced, steps: seq<Step>): Traced
    requires TracedRun(s, steps)
    decreases |steps|
  {
    if steps == [] then s else FollowAll(Follow(s, steps[0]), steps[1..])
  }

  // On every run: attempt counts equal claims won, no ordinary claim comes after ten, at most the
  // last claim ever succeeded, and an open row belongs to its last claim alone.
  lemma {:induction false} EveryRunKeepsRowsSound(s: Traced, steps: seq<Step>)
    requires Sound(s) && TracedRun(s, steps)
    ensures Sound(FollowAll(s, steps))
    decreases |steps|
  {
    if steps != [] {
      StepKeepsSound(s, steps[0]);
      EveryRunKeepsRowsSound(Follow(s, steps[0]), steps[1..]);
    }
  }

  // A worker whose row was claimed again changes nothing when it comes back.
  lemma SupersededClaimChangesNothing(s: Traced, step: Step)
    requires Sound(s) && Legal(s.w, step) && Disciplined(s, step) && step.ResolveRowStep?
    requires step.key in s.w.db.operations
    requires Claimant(ClaimsOf(s.claims, step.key), step.claimedAt) < |ClaimsOf(s.claims, step.key)| - 1
    ensures Next(s.w, step).db == s.w.db
  {
    assert KeySound(s, step.key);
    OnlyTheLatestClaimRecords(s.w.db.operations[step.key], ClaimsOf(s.claims, step.key), s.w.clock, step.claimedAt);
  }

  // ----- rows that have come to rest

  ghost predicate NeverRetried(steps: seq<Step>, key: OperationKey) {
    forall i | 0 <= i < |steps| :: !(steps[i].RetryRowStep? && steps[i].key == key)
  }

  // The claimant that began then never comes back to resolve the row.
  ghost predicate NeverResolvedBy(steps: seq<Step>, key: OperationKey, claimedAt: Option<Instant>) {
    forall i | 0 <= i < |steps| :: !(steps[i].ResolveRowStep? && steps[i].key == key && Some(steps[i].claimedAt) == claimedAt)
  }

  // Delivered stays delivered, down to the row, whatever happens next.
  lemma {:induction false} SucceededIsAbsorbing(w: World, steps: seq<Step>, key: OperationKey)
    requires LegalRun(w, steps) && !IsConfirmationOperation(key)
    requires key in w.db.operations && w.db.operations[key].status == Succeeded
    ensures key in Run(w, steps).db.operations && Run(w, steps).db.operations[key] == w.db.operations[key]
    decreases |steps|
  {
    if steps != [] {
      if !TouchesRow(steps[0], key) { UntouchedRowStays(w, steps[0], key); }
      SucceededIsAbsorbing(Next(w, steps[0]), steps[1..], key);
    }
  }

  // An abandoned row is left only by an admin retry.
  lemma {:induction false} AbandonedWaitsForAnAdmin(w: World, steps: seq<Step>, key: OperationKey)
    requires LegalRun(w, steps) && !IsConfirmationOperation(key) && NeverRetried(steps, key)
    requires key in w.db.operations && w.db.operations[key].status == Abandoned
    ensures key in Run(w, steps).db.operations && Run(w, steps).db.operations[key] == w.db.operations[key]
    decreases |steps|
  {
    if steps != [] {
      if !TouchesRow(steps[0], key) { UntouchedRowStays(w, steps[0], key); }
      assert !(steps[0].RetryRowStep? && steps[0].key == key);
      AbandonedWaitsForAnAdmin(Next(w, steps[0]), steps[1..], key);
    }
  }

  // A tenth claimant that dies leaves its row in flight for good: without an admin retry or that
  // claimant's own resolve, the row never moves again.
  lemma {:induction false} ExhaustedRowIsStuck(w: World, steps: seq<Step>, key: OperationKey)
    requires LegalRun(w, steps) && !IsConfirmationOperation(key)
    requires key in w.db.operations && SIDE_EFFECT_MAX_ATTEMPTS <= w.db.operations[key].attemptCount
    requires NeverRetried(steps, key) && NeverResolvedBy(steps, key, w.db.operations[key].attemptedAt)
    ensures key in Run(w, steps).db.operations && Run(w, steps).db.operations[key] == w.db.operations[key]
    decreases |steps|
  {
    if steps != [] {
      if !TouchesRow(steps[0], key) { UntouchedRowStays(w, steps[0], key); }
      assert !(steps[0].RetryRowStep? && steps[0].key == key);
      assert !(steps[0].ResolveRowStep? && steps[0].key == key && Some(steps[0].claimedAt) == w.db.operations[key].attemptedAt);
      ExhaustedRowIsStuck(Next(w, steps[0]), steps[1..], key);
    }
  }

  // A row that has not reached an end. One in flight says when its claim began.
  predicate StillOpen(op: Operation) {
    op.status == Pending || op.status == Failed || (op.status == InFlight && op.attemptedAt.Some?)
  }

  // An instant from which an open row below the cap is due, unclaimed and, if in flight, stale.
  function LateEnough(op: Operation, clock: Instant): (now: Instant)
    ensures clock <= now
    ensures op.attemptedAt.Some? ==> op.attemptedAt.value + MUTATION_SIDE_EFFECT_LEASE_MS < now
    ensures op.nextAttemptAt.Some? ==> op.nextAttemptAt.value <= now
  {
    var stale := if op.attemptedAt.Some? && clock < op.attemptedAt.value + MUTATION_SIDE_EFFECT_LEASE_MS + 1
                 then op.attemptedAt.value + MUTATION_SIDE_EFFECT_LEASE_MS + 1 else clock;
    if op.nextAttemptAt.Some? && stale < op.nextAttemptAt.value then op.nextAttemptAt.value else stale
  }

  // An open row can be claimed at some instant exactly while its attempts are below the cap.
  lemma ClaimableExactlyBelowTheCap(op: Operation)
    requires StillOpen(op)
    ensures (exists now :: RowClaimable(op, now)) <==> op.attemptCount < SIDE_EFFECT_MAX_ATTEMPTS
  {
    if op.attemptCount < SIDE_EFFECT_MAX_ATTEMPTS { assert RowClaimable(op, LateEnough(op, 0)); }
  }

  // A run in which no admin retries the row and its present claimant is dead.
  ghost predicate OrdinaryRun(w: World, steps: seq<Step>, key: OperationKey)
    requires key in w.db.operations
  {
    LegalRun(w, steps) && NeverRetried(steps, key) && NeverResolvedBy(steps, key, w.db.operations[key].attemptedAt)
  }

  ghost predicate MovesRow(w: World, steps: seq<Step>, key: OperationKey)
    requires key in w.db.operations
  {
    OrdinaryRun(w, steps, key)
    && !(key in Run(w, steps).db.operations && Run(w, steps).db.operations[key] == w.db.operations[key])
  }

  ghost predicate SettlesRow(w: World, steps: seq<Step>, key: OperationKey)
    requires key in w.db.operations
  {
    OrdinaryRun(w, steps, key) && key in Run(w, steps).db.operations && Settled(Run(w, steps).db.operations[key].status)
  }

  // Later, another worker claims the row and delivers it.
  function TakenUp(op: Operation, key: OperationKey, clock: Instant): seq<Step> {
    var now := LateEnough(op, clock);
    [Tick(now), ClaimRowStep(key), ResolveRowStep(key, now, Resolution(Succeeded, None, now, None))]
  }

  lemma TakenUpRowSettles(w: World, key: OperationKey)
    requires !IsConfirmationOperation(key) && key in w.db.operations && StillOpen(w.db.operations[key])
    requires w.db.operations[key].attemptCount < SIDE_EFFECT_MAX_ATTEMPTS
    ensures SettlesRow(w, TakenUp(w.db.operations[key], key, w.clock), key)
  {
    var op := w.db.operations[key];
    var steps := TakenUp(op, key, w.clock);
    var w1 := Next(w, steps[0]);
    var w2 := Next(w1, steps[1]);
    var w3 := Next(w2, steps[2]);
    assert RowClaimable(op, w1.clock);
    assert w2.db.operations[key] == Started(op, w1.clock);
    RunOfThree(w, steps[0], steps[1], steps[2]);
    assert steps == [steps[0], steps[1], steps[2]];
    assert w3.db.operations[key].status == Succeeded;
  }

  // Without an admin and without its dead claimant, an open row can still be delivered, or change at
  // all, exactly while its attempts are below the cap.
  lemma OpenRowSettlesExactlyBelowTheCap(w: World, key: OperationKey)
    requires !IsConfirmationOperation(key) && key in w.db.operations && StillOpen(w.db.operations[key])
    ensures (exists steps :: SettlesRow(w, steps, key)) <==> w.db.operations[key].attemptCount < SIDE_EFFECT_MAX_ATTEMPTS
    ensures (exists steps :: MovesRow(w, steps, key)) <==> w.db.operations[key].attemptCount < SIDE_EFFECT_MAX_ATTEMPTS
  {
    if w.db.operations[key].attemptCount < SIDE_EFFECT_MAX_ATTEMPTS {
      TakenUpRowSettles(w, key);
      assert MovesRow(w, TakenUp(w.db.operations[key], key, w.clock), key);
    } else {
      forall steps ensures !SettlesRow(w, steps, key) && !MovesRow(w, steps, key) {
        if OrdinaryRun(w, steps, key) { ExhaustedRowIsStuck(w, steps, key); }
      }
    }
  }

  // The open rows of a sound store say when their claim began.
  lemma SoundOpenRows(s: Traced, key: OperationKey)
    requires Sound(s) && key in s.w.db.operations && !IsConfirmationOperation(key)
    ensures StillOpen(s.w.db.operations[key]) <==> !Settled(s.w.db.operations[key].status)
  {
    assert KeySound(s, key);
  }

  // Without a retry, a row past the cap is never claimed again, even if its claimant resolves it.
  lemma {:induction false} NoOrdinaryClaimPastTheCap(w: World, steps: seq<Step>, key: OperationKey)
    requires LegalRun(w, steps) && !IsConfirmationOperation(key) && NeverRetried(steps, key)
    requires key in w.db.operations && SIDE_EFFECT_MAX_ATTEMPTS <= w.db.operations[key].attemptCount
    ensures key in Run(w, steps).db.operations
    ensures Run(w, steps).db.operations[key].attemptCount == w.db.operations[key].attemptCount
    ensures Run(w, steps).db.operations[key].attemptedAt == w.db.operations[key].attemptedAt
    decreases |steps|
  {
    if steps != [] {
      if !TouchesRow(steps[0], key) { UntouchedRowStays(w, steps[0], key); }
      assert !(steps[0].RetryRowStep? && steps[0].key == key);
      NoOrdinaryClaimPastTheCap(Next(w, steps[0]), steps[1..], key);
    }
  }

  // ----- claims counted, on rows of either lease

  ghost predicate OrdinaryClaimGranted(w: World, step: Step, key: OperationKey) {
    || (step.ClaimRowStep? && step.key == key && ClaimRow(w.db, key, w.clock).1.Some?)
    || (step.ClaimConfirmationStep? && step.key == key && ClaimConfirmation(w.db, key, step.token, w.clock).1.Some?)
  }

  ghost predicate AdminClaimGranted(w: World, step: Step, key: OperationKey) {
    || (step.RetryRowStep? && step.key == key && ClaimRowForRetry(w.db, key, w.clock).1.Some?)
    || (step.RetryConfirmationStep? && step.key == key && ClaimConfirmationForRetry(w.db, key, step.token, w.clock).1.Some?)
  }

  ghost function OrdinaryClaims(w: World, steps: seq<Step>, key: OperationKey): nat
    decreases |steps|
  {
    if steps == [] then 0
    else (if OrdinaryClaimGranted(w, steps[0], key) then 1 else 0) + OrdinaryClaims(Next(w, steps[0]), steps[1..], key)
  }

  ghost function AdminClaims(w: World, steps: seq<Step>, key: OperationKey): nat
    decreases |steps|
  {
    if steps == [] then 0
    else (if AdminClaimGranted(w, steps[0], key) then 1 else 0) + AdminClaims(Next(w, steps[0]), steps[1..], key)
  }

  function AttemptsOf(w: World, key: OperationKey): nat {
    if key in w.db.operations then w.db.operations[key].attemptCount else 0
  }

  lemma ConfirmationClaimsCount(w: World, step: Step, key: OperationKey)
    requires ConfirmationPath(step)
    ensures AttemptsOf(Next(w, step), key)
         == AttemptsOf(w, key) + if OrdinaryClaimGranted(w, step, key) || AdminClaimGranted(w, step, key) then 1 else 0
  {
  }

  lemma RowClaimsCount(w: World, step: Step, key: OperationKey)
    requires RowPath(step)
    ensures AttemptsOf(Next(w, step), key)
         == AttemptsOf(w, key) + if OrdinaryClaimGranted(w, step, key) || AdminClaimGranted(w, step, key) then 1 else 0
  {
  }

  lemma AttemptsFollowClaims(w: World, step: Step, key: OperationKey)
    ensures AttemptsOf(Next(w, step), key)
         == AttemptsOf(w, key) + if OrdinaryClaimGranted(w, step, key) || AdminClaimGranted(w, step, key) then 1 else 0
  {
    if ConfirmationPath(step) {
      ConfirmationClaimsCount(w, step, key);
    } else if RowPath(step) {
      RowClaimsCount(w, step, key);
    } else if InsertsRows(step) {
      InsertsOnlyAdd(w, step);
    } else {
      OthersLeaveOperations(w, step);
    }
  }

  lemma OrdinaryClaimsNeedAttemptsLeft(w: World, step: Step, key: OperationKey)
    requires OrdinaryClaimGranted(w, step, key)
    ensures AttemptsOf(w, key) < SIDE_EFFECT_MAX_ATTEMPTS && !AdminClaimGranted(w, step, key)
  {
  }

  // On every run, for confirmation rows as for the others: the attempt count grows by exactly the
  // claims granted, and ordinary claims stop at the cap.
  lemma {:induction false} AttemptsAreClaimsGranted(w: World, steps: seq<Step>, key: OperationKey)
    requires LegalRun(w, steps)
    ensures AttemptsOf(Run(w, steps), key) == AttemptsOf(w, key) + OrdinaryClaims(w, steps, key) + AdminClaims(w, steps, key)
    ensures OrdinaryClaims(w, steps, key)
         <= if AttemptsOf(w, key) < SIDE_EFFECT_MAX_ATTEMPTS then SIDE_EFFECT_MAX_ATTEMPTS - AttemptsOf(w, key) else 0
    decreases |steps|
  {
    if steps != [] {
      AttemptsFollowClaims(w, steps[0], key);
      AttemptsAreClaimsGranted(Next(w, steps[0]), steps[1..], key);
      if OrdinaryClaimGranted(w, steps[0], key) { OrdinaryClaimsNeedAttemptsLeft(w, steps[0], key); }
    }
  }

  // ----- when a claim is granted

  // The sweep takes a row that waits, or whose claim is more than five minutes old, while it is due and below
  // ten attempts; an admin takes any of them and an abandoned one as well, due or not.
  lemma ClaimsAreGrantedExactly(db: Db, key: OperationKey, now: Instant)
    requires key in db.operations
    ensures var op := db.operations[key];
            var abandonedByItsClaimant := op.status == InFlight && op.attemptedAt.Some? && op.attemptedAt.value + 300000 < now;
            && (ClaimRow(db, key, now).1.Some? <==>
                  && op.attemptCount < 10 && (op.nextAttemptAt.Some? ==> op.nextAttemptAt.value <= now)
                  && (op.status == Pending || op.status == Failed || abandonedByItsClaimant))
            && (ClaimRowForRetry(db, key, now).1.Some? <==>
                  op.status == Pending || op.status == Failed || op.status == Abandoned || abandonedByItsClaimant)
    ensures ClaimRow(db, key, now).1.Some? ==>
              ClaimRow(db, key, now).1 == Some(db.operations[key].attemptCount + 1) && TakenNow(db, ClaimRow(db, key, now).0, key, now)
    ensures ClaimRowForRetry(db, key, now).1.Some? ==>
              ClaimRowForRetry(db, key, now).1 == Some(db.operations[key].attemptCount + 1)
              && TakenNow(db, ClaimRowForRetry(db, key, now).0, key, now)
  {
  }

  // The row is in flight from now on, one attempt further, and nothing else has changed.
  predicate TakenNow(db: Db, db': Db, key: OperationKey, now: Instant)
    requires key in db.operations
  {
    && db' == db.(operations := db'.operations) && db'.operations.Keys == db.operations.Keys
    && (forall k | k in db.operations && k in db'.operations && k != key :: db'.operations[k] == db.operations[k])
    && key in db'.operations && db'.operations[key].status == InFlight
    && db'.operations[key].attemptCount == db.operations[key].attemptCount + 1
    && db'.operations[key].attemptedAt == Some(now)
    && db'.operations[key].failureStartedAt == db.operations[key].failureStartedAt
  }

  predicate ClaimUnderWay(w: World, key: OperationKey, since: Instant) {
    key in w.db.operations && w.db.operations[key].status == InFlight && w.db.operations[key].attemptedAt == Some(since)
  }

  lemma LiveClaimIsLeftAlone(w: World, step: Step, key: OperationKey, since: Instant)
    requires Legal(w, step) && !IsConfirmationOperation(key) && ClaimUnderWay(w, key, since) && w.clock <= since + 300000
    requires !(step.ResolveRowStep? && step.key == key && step.claimedAt == since)
    ensures !OrdinaryClaimGranted(w, step, key) && !AdminClaimGranted(w, step, key)
    ensures key in Next(w, step).db.operations && Next(w, step).db.operations[key] == w.db.operations[key]
  {
    if !TouchesRow(step, key) { UntouchedRowStays(w, step, key); }
  }

  // While a claim is less than five minutes old and its worker has not recorded anything, nobody takes the row,
  // the admin included, and nobody else's outcome reaches it.
  lemma {:induction false} LiveClaimIsExclusive(w: World, steps: seq<Step>, key: OperationKey, since: Instant)
    requires LegalRun(w, steps) && !IsConfirmationOperation(key) && ClaimUnderWay(w, key, since)
    requires NeverResolvedBy(steps, key, Some(since)) && Run(w, steps).clock <= since + 300000
    ensures OrdinaryClaims(w, steps, key) == 0 && AdminClaims(w, steps, key) == 0
    ensures key in Run(w, steps).db.operations && Run(w, steps).db.operations[key] == w.db.operations[key]
    decreases |steps|
  {
    if steps != [] {
      ClockNeverGoesBack(w, steps[0]);
      ClockOnlyAdvances(Next(w, steps[0]), steps[1..]);
      assert !(steps[0].ResolveRowStep? && steps[0].key == key && Some(steps[0].claimedAt) == Some(since));
      LiveClaimIsLeftAlone(w, steps[0], key, since);
      LiveClaimIsExclusive(Next(w, steps[0]), steps[1..], key, since);
    }
  }

  // ----- what the drains record

  // How the attempt a worker just ran ended.
  datatype Delivery = Delivered | RetryableFailure | PermanentFailure

  // `attempt` is the number the claim returned: the tenth retryable failure abandons the row.
  function ClassifyAttemptOutcome(attempt: nat, delivery: Delivery): OperationStatus {
    match delivery
    case Delivered => Succeeded
    case PermanentFailure => Abandoned
    case RetryableFailure => if SIDE_EFFECT_MAX_ATTEMPTS <= attempt then Abandoned else Failed
  }

  predicate EndsAs(attempt: nat, delivery: Delivery, status: OperationStatus) {
    status == ClassifyAttemptOutcome(attempt, delivery)
  }

  ghost predicate Explained(attempt: nat, status: OperationStatus) {
    exists d :: EndsAs(attempt, d, status)
  }

  // Drains and retries resolve with the classified outcome and set no backoff; an admin retry whose
  // provider is no longer configured puts the row back as failed.
  ghost predicate Classified(s: Traced, step: Step)
    requires Disciplined(s, step)
  {
    step.ResolveRowStep? ==>
      var cs := ClaimsOf(s.claims, step.key);
      var i := Claimant(cs, step.claimedAt);
      && step.resolution.nextAttemptAt.None?
      && (Explained(i + 1, step.resolution.status) || (cs[i].admin && step.resolution.status == Failed))
  }

  // A failed row is still due for an ordinary claim, unless an admin's retry was its last.
  predicate RetriesRemain(op: Operation, cs: seq<Claim>) {
    && op.nextAttemptAt.None?
    && (op.status == Failed && cs != [] && !cs[|cs| - 1].admin ==> op.attemptCount < SIDE_EFFECT_MAX_ATTEMPTS)
  }

  ghost predicate NoneForgotten(s: Traced) {
    forall k | k in s.w.db.operations && !IsConfirmationOperation(k) ::
      RetriesRemain(s.w.db.operations[k], ClaimsOf(s.claims, k))
  }

  lemma ClassifiedStepForgetsNone(s: Traced, step: Step)
    requires Sound(s) && NoneForgotten(s) && Legal(s.w, step) && Disciplined(s, step) && Classified(s, step)
    ensures NoneForgotten(Follow(s, step))
  {
    var s' := Follow(s, step);
    forall k | k in s'.w.db.operations && !IsConfirmationOperation(k)
      ensures RetriesRemain(s'.w.db.operations[k], ClaimsOf(s'.claims, k))
    {
      if !TouchesRow(step, k) {
        OtherClaimsStay(s, step, k);
        UntouchedRowStays(s.w, step, k);
      } else {
        TouchedRowForgetsNone(s, step, k);
      }
    }
  }

  lemma TouchedRowForgetsNone(s: Traced, step: Step, k: OperationKey)
    requires Sound(s) && NoneForgotten(s) && Legal(s.w, step) && Disciplined(s, step) && Classified(s, step)
    requires TouchesRow(step, k) && k in Next(s.w, step).db.operations
    ensures RetriesRemain(Next(s.w, step).db.operations[k], ClaimsOf(Follow(s, step).claims, k))
  {
    if k in s.w.db.operations {
      var op, cs := s.w.db.operations[k], ClaimsOf(s.claims, k);
      assert KeySound(s, k) && RetriesRemain(op, cs);
      if step.ResolveRowStep? {
        ResolvingForgetsNone(op, cs, s.w.clock, step.claimedAt, step.resolution);
      } else {
        ClaimingForgetsNone(op, cs, s.w.clock);
      }
    }
  }

  lemma ResolvingForgetsNone(op: Operation, cs: seq<Claim>, clock: Instant, claimedAt: Instant, r: Resolution)
    requires RowSound(op, cs, clock) && RetriesRemain(op, cs) && Claimant(cs, claimedAt) < |cs| && r.nextAttemptAt.None?
    requires var i := Claimant(cs, claimedAt); Explained(i + 1, r.status) || (cs[i].admin && r.status == Failed)
    ensures var i, won := Claimant(cs, claimedAt), OwnsRow(op, claimedAt);
            RetriesRemain(if won then Resolved(op, r) else op,
                          cs[i := cs[i].(spent := true, recorded := if won then Some(r.status) else None)])
  {
    OnlyTheLatestClaimRecords(op, cs, clock, claimedAt);
    var i := Claimant(cs, claimedAt);
    if OwnsRow(op, claimedAt) && r.status == Failed && !cs[i].admin {
      var d :| EndsAs(i + 1, d, r.status);
    }
  }

  lemma ClaimingForgetsNone(op: Operation, cs: seq<Claim>, clock: Instant)
    requires RetriesRemain(op, cs)
    ensures forall admin :: RetriesRemain(Started(op, clock), cs + [Claim(clock, admin, false, None)])
  {
  }

  ghost predicate ClassifiedRun(s: Traced, steps: seq<Step>)
    requires TracedRun(s, steps)
    decreases |steps|
  {
    steps == [] || (Classified(s, steps[0]) && ClassifiedRun(Follow(s, steps[0]), steps[1..]))
  }

  // On every run of the drains, a row left failed by an ordinary attempt can be claimed at once.
  lemma {:induction false} FailedRowsStayClaimable(s: Traced, steps: seq<Step>, key: OperationKey, now: Instant)
    requires Sound(s) && NoneForgotten(s) && TracedRun(s, steps) && ClassifiedRun(s, steps)
    requires !IsConfirmationOperation(key) && key in FollowAll(s, steps).w.db.operations
    requires FollowAll(s, steps).w.db.operations[key].status == Failed
    ensures RowClaimable(FollowAll(s, steps).w.db.operations[key], now)
         || (var cs := ClaimsOf(FollowAll(s, steps).claims, key); cs != [] && cs[|cs| - 1].admin)
    decreases |steps|
  {
    if steps != [] {
      StepKeepsSound(s, steps[0]);
      ClassifiedStepForgetsNone(s, steps[0]);
      FailedRowsStayClaimable(Follow(s, steps[0]), steps[1..], key, now);
    } else {
      assert RetriesRemain(s.w.db.operations[key], ClaimsOf(s.claims, key));
      assert KeySound(s, key);
      assert RowSound(s.w.db.operations[key], ClaimsOf(s.claims, key), s.w.clock);
    }
  }
}
