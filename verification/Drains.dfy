/** The drains: claim a row, run it, record what became of it. Each is proved against the effect it
    has when nothing else runs in between; what interleaving can do is the subject of RowLeases and
    ConfirmationLeases. */
module Drains {
  import opened Schema
  import opened Statements
  import opened Runs
  import opened Repository
  import opened RowLeases

  // One attempt: how the delivery ends, what it returns, and when it is claimed and recorded.
  datatype Try = Try(delivery: Delivery, result: Option<string>, claimedAt: Instant, resolvedAt: Instant)

  // None stands for a row whose provider is not configured.
  type Plan = OperationKey -> Option<Try>

  predicate Actionable(status: OperationStatus) {
    status != Succeeded && status != Abandoned
  }

  function Outcome(attempt: nat, t: Try): Resolution {
    Resolution(ClassifyAttemptOutcome(attempt, t.delivery), if t.delivery.Delivered? then t.result else None, t.resolvedAt, None)
  }

  function Attempted(op: Operation, t: Try): Operation {
    Resolved(Started(op, t.claimedAt), Outcome(op.attemptCount + 1, t))
  }

  // ----- rows drained through their own lease

  function DrainedRow(op: Operation, attempt: Option<Try>): Operation {
    if attempt.Some? && RowClaimable(op, attempt.value.claimedAt) then Attempted(op, attempt.value) else op
  }

  method RunMutationSideEffect(repo: Repo, key: OperationKey, attempt: Option<Try>)
    requires key in repo.operations
    modifies repo`operations
    ensures repo.operations == old(repo.operations)[key := DrainedRow(old(repo.operations)[key], attempt)]
  {
    if attempt.None? { return; }
    var t := attempt.value;
    var claimed := repo.ClaimMutationSideEffectOperation(key, t.claimedAt);
    if claimed.None? { return; }
    var resolved := repo.ResolveMutationSideEffectOperation(key, t.claimedAt, Outcome(claimed.value, t));
  }

  // A booking's rows, in some order.
  method ListSideEffectOperations(repo: Repo, id: BookingId) returns (keys: seq<OperationKey>)
    ensures forall k :: k in keys <==> k in repo.operations && k.booking == id
    ensures forall i, j | 0 <= i < j < |keys| :: keys[i] != keys[j]
  {
    keys := [];
    var all := set k | k in repo.operations && k.booking == id;
    var rest := all;
    while exists k :: k in rest
      invariant rest <= all
      invariant forall k :: k in keys <==> k in all && k !in rest
      invariant forall i, j | 0 <= i < j < |keys| :: keys[i] != keys[j]
      decreases rest
    {
      var k :| k in rest;
      keys := keys + [k];
      rest := rest - {k};
    }
  }

  predicate Owed(key: OperationKey, id: BookingId, op: Operation) {
    key.booking == id && Actionable(op.status) && !IsConfirmationOperation(key)
  }

  function DrainedRows(operations: map<OperationKey, Operation>, id: BookingId, plan: Plan): map<OperationKey, Operation> {
    map k | k in operations :: if Owed(k, id, operations[k]) then DrainedRow(operations[k], plan(k)) else operations[k]
  }

  // Every owed row of the booking gets one attempt, in whatever order they are listed.
  method RunOwedMutationSideEffects(repo: Repo, id: BookingId, plan: Plan)
    modifies repo`operations
    ensures repo.operations == DrainedRows(old(repo.operations), id, plan)
  {
    ghost var before := repo.operations;
    var listed := ListSideEffectOperations(repo, id);
    var statuses := map k | k in repo.operations :: repo.operations[k].status;
    for i := 0 to |listed|
      invariant repo.operations.Keys == before.Keys
      invariant forall k | k in before ::
                  repo.operations[k] == if k in listed[..i] && Owed(k, id, before[k]) then DrainedRow(before[k], plan(k)) else before[k]
    {
      var key := listed[i];
      assert key !in listed[..i];
      if statuses[key] != Succeeded && statuses[key] != Abandoned && !IsConfirmationOperation(key) {
        RunMutationSideEffect(repo, key, plan(key));
      }
      assert listed[..i + 1] == listed[..i] + [key];
    }
    assert listed[..|listed|] == listed;
  }

  // What one attempt leaves: the row is settled, or failed with attempts to spare.
  lemma AttemptNeverLeavesARowInFlight(op: Operation, t: Try)
    ensures var done := Attempted(op, t);
            && done.attemptCount == op.attemptCount + 1
            && (done.status == Succeeded <==> t.delivery.Delivered?)
            && (done.status == Failed <==> t.delivery.RetryableFailure? && done.attemptCount < 10)
            && (done.status != Failed ==> done.status == Succeeded || done.status == Abandoned)
            && (done.status == Failed ==> forall now :: RowClaimable(done, now))
            && done.providerResultId == (if t.delivery.Delivered? then t.result else None)
            && done.attemptedAt == Some(t.claimedAt) && done.resolvedAt == Some(t.resolvedAt) && done.nextAttemptAt.None?
            && done.failureStartedAt == (if done.status != Failed then None
                                         else if op.failureStartedAt.Some? then op.failureStartedAt else Some(t.resolvedAt))
  {
  }

  function DrainedTimes(op: Operation, tries: seq<Try>): Operation
    decreases |tries|
  {
    if tries == [] then op else DrainedRow(DrainedTimes(op, tries[..|tries| - 1]), Some(tries[|tries| - 1]))
  }

  // A row that keeps failing is attempted on every drain until the tenth attempt abandons it, and
  // never again; until then it remembers when it first failed.
  lemma {:induction false} TenFailuresAbandon(tries: seq<Try>)
    requires forall i | 0 <= i < |tries| :: tries[i].delivery == RetryableFailure
    ensures var op := DrainedTimes(FRESH, tries);
            && op.attemptCount == (if |tries| < 10 then |tries| else 10)
            && op.nextAttemptAt.None?
            && op.status == (if |tries| == 0 then Pending else if |tries| < 10 then Failed else Abandoned)
            && op.failureStartedAt == (if 1 <= |tries| < 10 then Some(tries[0].resolvedAt) else None)
    decreases |tries|
  {
    if tries != [] { TenFailuresAbandon(tries[..|tries| - 1]); }
  }

  // ----- rows drained under the confirmation lease

  // How executing one row ends for the pass that runs it.
  datatype Exit = Done | ProviderFailed | InProgress

  predicate Skipped(key: OperationKey, status: OperationStatus) {
    !Actionable(status) || key.family == Oversell
  }

  function ConfirmationAttempt(db: Db, key: OperationKey, token: Token, t: Try): (Db, Exit) {
    var claim := ClaimConfirmation(db, key, token, t.claimedAt);
    if claim.1.None? then (db, InProgress)
    else
      var outcome := Outcome(claim.1.value, t);
      var resolved := ResolveConfirmation(claim.0, key, token, outcome);
      (resolved.0, if !resolved.1 then InProgress else if outcome.status == Failed then ProviderFailed else Done)
  }

  method ExecuteOperation(repo: Repo, key: OperationKey, listedStatus: OperationStatus, token: Token, t: Try) returns (exit: Exit)
    requires repo.Valid()
    modifies repo`bookings, repo`operations
    ensures repo.Valid()
    ensures (repo.State(), exit) ==
            (if Skipped(key, listedStatus) then (old(repo.State()), Done) else ConfirmationAttempt(old(repo.State()), key, token, t))
  {
    if listedStatus == Succeeded || listedStatus == Abandoned || key.family == Oversell { return Done; }
    var claimed := repo.ClaimSideEffectOperation(key, token, t.claimedAt);
    if claimed.None? { return InProgress; }
    var outcome := Outcome(claimed.value, t);
    var resolved := repo.ResolveSideEffectOperation(key, token, outcome);
    exit := if !resolved then InProgress else if outcome.status == Failed then ProviderFailed else Done;
  }

  // With the lease held, an attempt records its outcome; it is turned away exactly when the row's
  // attempts are used up or its backoff is not over.
  lemma HeldAttemptRecords(db: Db, key: OperationKey, token: Token, t: Try)
    requires key in db.operations && Actionable(db.operations[key].status) && HoldsLease(db, key.booking, token)
    ensures var op := db.operations[key];
            ConfirmationAttempt(db, key, token, t).1 == InProgress
            <==> SIDE_EFFECT_MAX_ATTEMPTS <= op.attemptCount || !Due(op.nextAttemptAt, t.claimedAt)
    ensures var after := ConfirmationAttempt(db, key, token, t);
            && HoldsLease(after.0, key.booking, token)
            && after.0.operations == if after.1 == InProgress then db.operations else db.operations[key := Attempted(db.operations[key], t)]
  {
  }

  // The rows of one pass, in order: the first row that is turned away ends it.
  function ConfirmationPass(db: Db, keys: seq<OperationKey>, statuses: map<OperationKey, OperationStatus>, token: Token,
                            tries: OperationKey -> Try): (Db, Exit)
    requires forall k | k in keys :: k in statuses
    decreases |keys|
  {
    if keys == [] then (db, Done)
    else
      var before := ConfirmationPass(db, keys[..|keys| - 1], statuses, token, tries);
      var key := keys[|keys| - 1];
      if before.1 == InProgress || Skipped(key, statuses[key]) then before
      else
        var after := ConfirmationAttempt(before.0, key, token, tries(key));
        (after.0, if after.1 == Done then before.1 else after.1)
  }

  method RunConfirmationPass(repo: Repo, keys: seq<OperationKey>, statuses: map<OperationKey, OperationStatus>, token: Token,
                             tries: OperationKey -> Try) returns (exit: Exit)
    requires repo.Valid() && forall k | k in keys :: k in statuses
    modifies repo`bookings, repo`operations
    ensures repo.Valid()
    ensures (repo.State(), exit) == ConfirmationPass(old(repo.State()), keys, statuses, token, tries)
  {
    exit := Done;
    ghost var start := repo.State();
    var i := 0;
    while i < |keys| && exit != InProgress
      invariant i <= |keys| && repo.Valid()
      invariant (repo.State(), exit) == ConfirmationPass(start, keys[..i], statuses, token, tries)
    {
      assert keys[..i + 1][..i] == keys[..i];
      var last := ExecuteOperation(repo, keys[i], statuses[keys[i]], token, tries(keys[i]));
      if last != Done { exit := last; }
      i := i + 1;
    }
    StoppedPass(start, keys, i, statuses, token, tries);
    assert keys[..|keys|] == keys;
  }

  // Once turned away, the pass attempts nothing more.
  lemma {:induction false} StoppedPass(db: Db, keys: seq<OperationKey>, i: nat, statuses: map<OperationKey, OperationStatus>,
                                       token: Token, tries: OperationKey -> Try)
    requires i <= |keys| && forall k | k in keys :: k in statuses
    ensures ConfirmationPass(db, keys[..i], statuses, token, tries).1 == InProgress ==>
              ConfirmationPass(db, keys, statuses, token, tries) == ConfirmationPass(db, keys[..i], statuses, token, tries)
    decreases |keys|
  {
    if i < |keys| {
      StoppedPass(db, keys[..|keys| - 1], i, statuses, token, tries);
      assert keys[..|keys| - 1][..i] == keys[..i];
    } else {
      assert keys[..i] == keys;
    }
  }

  // What a pass is given: the booking's rows, once each, with the statuses just listed.
  predicate JustListed(db: Db, id: BookingId, keys: seq<OperationKey>, statuses: map<OperationKey, OperationStatus>) {
    && (forall i | 0 <= i < |keys| :: keys[i] in db.operations && keys[i].booking == id)
    && (forall k | k in keys :: k in statuses && k in db.operations && statuses[k] == db.operations[k].status)
    && (forall i, j | 0 <= i < j < |keys| :: keys[i] != keys[j])
  }

  // Its attempts are not used up and its backoff is over: the two guards of a claim under a held lease.
  predicate Ready(op: Operation, t: Try) {
    op.attemptCount < SIDE_EFFECT_MAX_ATTEMPTS && Due(op.nextAttemptAt, t.claimedAt)
  }

  // Some row the pass would attempt is not ready.
  predicate SomeRowUnready(db: Db, keys: seq<OperationKey>, statuses: map<OperationKey, OperationStatus>, tries: OperationKey -> Try)
    requires forall k | k in keys :: k in statuses && k in db.operations
  {
    exists k | k in keys :: !Skipped(k, statuses[k]) && !Ready(db.operations[k], tries(k))
  }

  predicate EveryRowAttempted(db: Db, after: Db, keys: seq<OperationKey>, statuses: map<OperationKey, OperationStatus>,
                              tries: OperationKey -> Try)
    requires forall k | k in keys :: k in statuses && k in db.operations
  {
    forall k | k in keys && !Skipped(k, statuses[k]) :: k in after.operations && after.operations[k] == Attempted(db.operations[k], tries(k))
  }

  // Rows still to come are as they were, and the lease is still held.
  lemma {:induction false} PassSoFar(db: Db, id: BookingId, keys: seq<OperationKey>, statuses: map<OperationKey, OperationStatus>,
                                     token: Token, tries: OperationKey -> Try)
    requires HoldsLease(db, id, token) && JustListed(db, id, keys, statuses)
    ensures ConfirmationPass(db, keys, statuses, token, tries).1 == InProgress <==> SomeRowUnready(db, keys, statuses, tries)
    ensures var pass := ConfirmationPass(db, keys, statuses, token, tries);
            pass.1 != InProgress ==> HoldsLease(pass.0, id, token) && EveryRowAttempted(db, pass.0, keys, statuses, tries)
    ensures EveryRowAttempted(db, ConfirmationPass(db, keys, statuses, token, tries).0, keys, statuses, tries)
            ==> !SomeRowUnready(db, keys, statuses, tries)
    decreases |keys|
  {
    if keys != [] {
      var rest, key := keys[..|keys| - 1], keys[|keys| - 1];
      assert keys == rest + [key];
      PassSoFar(db, id, rest, statuses, token, tries);
      assert key !in rest;
      OnlyListedRowsChange(db, rest, statuses, token, tries, key);
      var before := ConfirmationPass(db, rest, statuses, token, tries);
      if before.1 != InProgress && !Skipped(key, statuses[key]) {
        HeldAttemptRecords(before.0, key, token, tries(key));
      }
    }
  }

  // With the lease held, a pass attempts every row it does not skip, and ends without being turned
  // away, exactly when each of them has attempts left and is out of its backoff.
  lemma PassAttemptsEveryRowExactlyWhenAllAreReady(db: Db, id: BookingId, keys: seq<OperationKey>,
      statuses: map<OperationKey, OperationStatus>, token: Token, tries: OperationKey -> Try)
    requires HoldsLease(db, id, token) && JustListed(db, id, keys, statuses)
    ensures var pass := ConfirmationPass(db, keys, statuses, token, tries);
            && (pass.1 != InProgress <==> forall k | k in keys && !Skipped(k, statuses[k]) :: Ready(db.operations[k], tries(k)))
            && (EveryRowAttempted(db, pass.0, keys, statuses, tries)
                <==> forall k | k in keys && !Skipped(k, statuses[k]) :: Ready(db.operations[k], tries(k)))
  {
    PassSoFar(db, id, keys, statuses, token, tries);
  }

  // A row whose attempts are used up while it is still open holds back every row listed after it:
  // the pass leaves them as they are.
  lemma ExhaustedRowHoldsBackTheRest(db: Db, keys: seq<OperationKey>, i: nat, statuses: map<OperationKey, OperationStatus>,
                                     token: Token, tries: OperationKey -> Try, later: OperationKey)
    requires forall k | k in keys :: k in statuses && k in db.operations && statuses[k] == db.operations[k].status
    requires forall a, b | 0 <= a < b < |keys| :: keys[a] != keys[b]
    requires i < |keys| && !Skipped(keys[i], statuses[keys[i]]) && SIDE_EFFECT_MAX_ATTEMPTS <= db.operations[keys[i]].attemptCount
    requires later in keys[i..]
    ensures ConfirmationPass(db, keys, statuses, token, tries).1 == InProgress
    ensures later in ConfirmationPass(db, keys, statuses, token, tries).0.operations
    ensures ConfirmationPass(db, keys, statuses, token, tries).0.operations[later] == db.operations[later]
  {
    OnlyListedRowsChange(db, keys[..i], statuses, token, tries, keys[i]);
    OnlyListedRowsChange(db, keys[..i], statuses, token, tries, later);
    assert keys[..i + 1][..i] == keys[..i];
    StoppedPass(db, keys, i + 1, statuses, token, tries);
  }

  lemma {:induction false} OnlyListedRowsChange(db: Db, keys: seq<OperationKey>, statuses: map<OperationKey, OperationStatus>,
                                                token: Token, tries: OperationKey -> Try, other: OperationKey)
    requires forall k | k in keys :: k in statuses
    requires other !in keys && other in db.operations
    ensures other in ConfirmationPass(db, keys, statuses, token, tries).0.operations
    ensures ConfirmationPass(db, keys, statuses, token, tries).0.operations[other] == db.operations[other]
    decreases |keys|
  {
    if keys != [] { OnlyListedRowsChange(db, keys[..|keys| - 1], statuses, token, tries, other); }
  }

  // One scheduled row: the lease is taken for it alone and always given back.
  method RunScheduledConfirmation(repo: Repo, key: OperationKey, listedStatus: OperationStatus, seen: BookingStatus, token: Token,
                                  startedAt: Instant, t: Try)
    requires repo.Valid() && !HoldsLease(repo.State(), key.booking, token)
    modifies repo`bookings, repo`operations
    ensures repo.Valid() && !HoldsLease(repo.State(), key.booking, token)
    ensures repo.State() ==
            (var taken := AcquireLease(old(repo.State()), key.booking, token, startedAt, startedAt + 300000);
             if Skipped(key, listedStatus) || seen != Confirmed || !taken.1 then old(repo.State())
             else ReleaseLease(ConfirmationAttempt(taken.0, key, token, t).0, key.booking, token))
  {
    if listedStatus == Succeeded || listedStatus == Abandoned || key.family == Oversell || seen != Confirmed { return; }
    var acquired := repo.AcquireConfirmationLease(key.booking, token, startedAt, startedAt + 300000);
    if !acquired { return; }
    var exit := ExecuteOperation(repo, key, listedStatus, token, t);
    repo.ReleaseConfirmationLease(key.booking, token);
  }
}
