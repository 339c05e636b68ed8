/** The scheduled sweep: a query budget that always leaves the alerts their share, and a batch
    loop that cannot run for ever over the same rows. */
module Reconciliation {
  import opened Schema

  const SIDE_EFFECT_STEP_QUERIES: nat := 6
  const REFUND_LOAD_QUERIES: nat := 2
  const REFUND_ATTEMPT_QUERIES: nat := 3
  const REFUND_CANCELLATION_QUERIES: nat := 4
  const OUTBOX_ROW_QUERIES: nat := 2
  const INCIDENT_PROJECTION_QUERIES: nat := 2
  const ALERT_STEP_QUERIES: nat := 3
  const CLOSING_QUERIES: nat := 1
  const ALERT_FLOOR_QUERIES: nat := 1 + ALERT_STEP_QUERIES

  // A step of the sweep that reached the database. Sources, rows, reminders, markers and alerts are
  // numbered in the order of their listing.
  datatype Work =
    | SweepHolds
    | ListReminders
    | ArmReminder(reminder: nat)
    | ListOperations(batch: nat)
    | RunOperation(key: OperationKey)
    | ListRefunds(batch: nat)
    | LoadRefund(id: BookingId)
    | AttemptRefund(id: BookingId)
    | ListIncidents(batch: nat)
    | ListRows(source: nat)
    | ProjectRow(source: nat, row: nat)
    | ProjectRefund(refund: nat)
    | ListMarkers
    | ReportMarker(marker: nat)
    | ListAlerts
    | SendAlert(alert: nat)

  // The query budget, and the steps it has let through.
  class Budget {
    const limit: nat
    var issued: nat
    var reserve: nat
    var exhausted: bool
    var done: seq<Work>

    constructor (limit: nat)
      ensures this.limit == limit && issued == 0 && reserve == 5 && !exhausted && done == []
    {
      this.limit := limit;
      issued, reserve, exhausted, done := 0, CLOSING_QUERIES + ALERT_FLOOR_QUERIES, false, [];
    }

    // Nothing was issued yet, or the reserve is still free.
    predicate Kept()
      reads this
    {
      issued == 0 || issued + reserve <= limit
    }

    // A step of that many queries leaves the reserve free.
    predicate Admits(queries: nat)
      reads this
    {
      issued + queries + reserve <= limit
    }

    method Fits(queries: nat) returns (fits: bool)
      modifies this`exhausted
      ensures fits <==> Admits(queries)
      ensures exhausted == (old(exhausted) || !fits)
    {
      fits := issued + queries + reserve <= limit;
      if !fits { exhausted := true; }
    }

    // A step that was admitted runs, and costs at most what it declared.
    method Run(work: Work, queries: nat, cost: nat)
      requires cost <= queries && issued + queries + reserve <= limit
      modifies this`issued, this`done
      ensures issued == old(issued) + cost && Kept() && done == old(done) + [work]
    {
      issued, done := issued + cost, done + [work];
    }

    method ReleaseAlertReserve()
      modifies this`reserve
      ensures reserve == 1
    {
      reserve := CLOSING_QUERIES;
    }
  }

  datatype RefundWork = NothingToDo | CancelFirst(outboxQueries: nat) | Execute

  // What one batch has to project: the rows of each booking it met, the refunds, the new markers.
  datatype Projections = Projections(rowsOfEach: seq<nat>, refunds: nat, markers: nat)

  // Everything the sweep meets, as it happens to be: the pages each query returns, what each
  // step really costs, when the wall clock runs out. Nothing is known of it but what `Honest` says.
  datatype Backlog = Backlog(
    operations: set<OperationKey>,
    refunds: set<BookingId>,
    operationPage: nat -> seq<OperationKey>,
    refundPage: nat -> seq<BookingId>,
    refundWork: (nat, BookingId) -> RefundWork,
    projections: nat -> Projections,
    remindersOn: bool,
    reminders: seq<nat>,
    alerts: seq<nat>,
    sink: bool,
    cost: (nat, nat) -> nat,
    late: nat -> bool)

  // Pages come from the finite backlog; a step costs at most what its budget check declares.
  ghost predicate Honest(b: Backlog) {
    && (forall n: nat, k: OperationKey | k in b.operationPage(n) :: k in b.operations)
    && (forall n: nat, r: BookingId | r in b.refundPage(n) :: r in b.refunds)
    && (forall n: nat, q: nat :: b.cost(n, q) <= q)
  }

  // ----- what a sweep with queries to spare has done, after what it had done before

  function AfterOperations(done: seq<Work>, page: seq<OperationKey>): seq<Work> {
    if page == [] then done else AfterOperations(done, page[..|page| - 1]) + [RunOperation(page[|page| - 1])]
  }

  // Each is loaded; one that has work is attempted.
  function AfterRefunds(b: Backlog, batch: nat, done: seq<Work>, page: seq<BookingId>): seq<Work> {
    if page == [] then done
    else
      var id := page[|page| - 1];
      AfterRefunds(b, batch, done, page[..|page| - 1]) + [LoadRefund(id)]
      + if b.refundWork(batch, id).NothingToDo? then [] else [AttemptRefund(id)]
  }

  function AfterRows(done: seq<Work>, source: nat, rows: nat): seq<Work> {
    if rows == 0 then done else AfterRows(done, source, rows - 1) + [ProjectRow(source, rows - 1)]
  }

  function AfterSources(done: seq<Work>, rowsOfEach: seq<nat>): seq<Work> {
    if rowsOfEach == [] then done
    else
      var last := |rowsOfEach| - 1;
      AfterRows(AfterSources(done, rowsOfEach[..last]) + [ListRows(last)], last, rowsOfEach[last])
  }

  function AfterRefundIncidents(done: seq<Work>, refunds: nat): seq<Work> {
    if refunds == 0 then done else AfterRefundIncidents(done, refunds - 1) + [ProjectRefund(refunds - 1)]
  }

  function AfterMarkers(done: seq<Work>, markers: nat): seq<Work> {
    if markers == 0 then done else AfterMarkers(done, markers - 1) + [ReportMarker(markers - 1)]
  }

  function AfterProjections(done: seq<Work>, p: Projections): seq<Work> {
    AfterMarkers(AfterRefundIncidents(AfterSources(done, p.rowsOfEach), p.refunds) + [ListMarkers], p.markers)
  }

  // Both pages, each with its listing before it, then the incidents.
  function AfterBatch(b: Backlog, batch: nat, done: seq<Work>): seq<Work> {
    var operations := AfterOperations(done + [ListOperations(batch)], b.operationPage(batch));
    var refunds := AfterRefunds(b, batch, operations + [ListRefunds(batch)], b.refundPage(batch));
    AfterProjections(refunds + [ListIncidents(batch)], b.projections(batch))
  }

  function AfterBatches(b: Backlog, batches: nat, done: seq<Work>): seq<Work> {
    if batches == 0 then done else AfterBatch(b, batches - 1, AfterBatches(b, batches - 1, done))
  }

  // One with nothing to deliver is passed over.
  function AfterReminders(done: seq<Work>, reminders: seq<nat>): seq<Work> {
    if reminders == [] then done
    else
      var last := |reminders| - 1;
      AfterReminders(done, reminders[..last]) + if reminders[last] == 0 then [] else [ArmReminder(last)]
  }

  function AfterAlerts(done: seq<Work>, alerts: nat): seq<Work> {
    if alerts == 0 then done else AfterAlerts(done, alerts - 1) + [SendAlert(alerts - 1)]
  }

  // ----- the sources of debt

  // Claim, run and resolve the page's operations in order, until one does not fit.
  method RunOperations(b: Backlog, page: seq<OperationKey>, budget: Budget) returns (ran: seq<OperationKey>)
    requires Honest(b) && budget.Kept()
    modifies budget
    ensures budget.Kept() && budget.reserve == old(budget.reserve) && (old(budget.exhausted) ==> budget.exhausted)
    ensures old(budget.issued) <= budget.issued <= old(budget.issued) + 6 * |ran|
    ensures ran <= page && budget.done == AfterOperations(old(budget.done), ran)
    ensures ran != page ==> budget.exhausted && !budget.Admits(6)
  {
    ran := [];
    for k := 0 to |page|
      invariant budget.Kept() && budget.reserve == old(budget.reserve) && (old(budget.exhausted) ==> budget.exhausted)
      invariant old(budget.issued) <= budget.issued <= old(budget.issued) + SIDE_EFFECT_STEP_QUERIES * |ran|
      invariant ran == page[..k] && budget.done == AfterOperations(old(budget.done), ran)
    {
      assert (ran + [page[k]])[..k] == ran;
      var fits := budget.Fits(SIDE_EFFECT_STEP_QUERIES);
      if !fits { return; }
      budget.Run(RunOperation(page[k]), SIDE_EFFECT_STEP_QUERIES, b.cost(budget.issued, SIDE_EFFECT_STEP_QUERIES));
      ran := ran + [page[k]];
    }
    assert page[..|page|] == page;
  }

  // What a refund that has work declares: the attempt, and with it the cancellation it still needs.
  function RefundQueries(work: RefundWork): nat {
    match work
    case NothingToDo => 0
    case Execute => 3
    case CancelFirst(outboxQueries) => 4 + outboxQueries + 3
  }

  // False when the budget stopped it, before anything was cancelled or claimed.
  method ProcessRefundCandidate(b: Backlog, batch: nat, id: BookingId, budget: Budget) returns (processed: bool)
    requires Honest(b) && budget.Kept()
    modifies budget
    ensures budget.Kept() && budget.reserve == old(budget.reserve) && (old(budget.exhausted) ==> budget.exhausted)
    ensures var work, loaded := b.refundWork(batch, id), old(budget.issued) + b.cost(old(budget.issued), 2);
            var loads := old(budget.Admits(2));
            var runs := loads && !work.NothingToDo? && loaded + RefundQueries(work) + old(budget.reserve) <= budget.limit;
            && (processed <==> runs || (loads && work.NothingToDo?))
            && budget.issued == (if runs then loaded + b.cost(loaded, RefundQueries(work)) else if loads then loaded else old(budget.issued))
            && budget.done == old(budget.done) + (if loads then [LoadRefund(id)] else []) + (if runs then [AttemptRefund(id)] else [])
    ensures !processed ==>
              budget.exhausted && (!budget.Admits(2) || !budget.Admits(RefundQueries(b.refundWork(batch, id))))
  {
    var fits := budget.Fits(REFUND_LOAD_QUERIES);
    if !fits { return false; }
    budget.Run(LoadRefund(id), REFUND_LOAD_QUERIES, b.cost(budget.issued, REFUND_LOAD_QUERIES));
    var work := b.refundWork(batch, id);
    if work.NothingToDo? { return true; }
    var declared := REFUND_ATTEMPT_QUERIES + if work.CancelFirst? then REFUND_CANCELLATION_QUERIES + work.outboxQueries else 0;
    fits := budget.Fits(declared);
    if !fits { return false; }
    budget.Run(AttemptRefund(id), declared, b.cost(budget.issued, declared));
    processed := true;
  }

  // The page's refunds in order, until one does not fit.
  method RunRefunds(b: Backlog, batch: nat, page: seq<BookingId>, budget: Budget) returns (ran: seq<BookingId>)
    requires Honest(b) && budget.Kept()
    modifies budget
    ensures budget.Kept() && budget.reserve == old(budget.reserve) && (old(budget.exhausted) ==> budget.exhausted)
    ensures old(budget.issued) <= budget.issued
    ensures ran <= page && AfterRefunds(b, batch, old(budget.done), ran) <= budget.done
    ensures ran == page ==> budget.done == AfterRefunds(b, batch, old(budget.done), page)
    ensures ran != page ==>
              && |ran| < |page| && budget.exhausted
              && (!budget.Admits(2) || !budget.Admits(RefundQueries(b.refundWork(batch, page[|ran|]))))
  {
    ran := [];
    for k := 0 to |page|
      invariant budget.Kept() && budget.reserve == old(budget.reserve) && (old(budget.exhausted) ==> budget.exhausted)
      invariant old(budget.issued) <= budget.issued
      invariant ran == page[..k] && budget.done == AfterRefunds(b, batch, old(budget.done), ran)
    {
      assert (ran + [page[k]])[..k] == ran;
      var processed := ProcessRefundCandidate(b, batch, page[k], budget);
      if !processed { return; }
      ran := ran + [page[k]];
    }
    assert page[..|page|] == page;
  }

  function Total(counts: seq<nat>): nat {
    if counts == [] then 0 else Total(counts[..|counts| - 1]) + counts[|counts| - 1]
  }

  // Every side-effect source, then every refund, then the markers nobody has reported. A source is
  // left out only for want of queries.
  method ProjectIncidents(b: Backlog, projections: Projections, budget: Budget) returns (projected: Projected)
    requires Honest(b) && budget.Kept()
    modifies budget
    ensures budget.Kept() && budget.reserve == old(budget.reserve) && (old(budget.exhausted) ==> budget.exhausted)
    ensures old(budget.issued) <= budget.issued
    ensures projected.rows <= Total(projections.rowsOfEach) && projected.refunds <= projections.refunds
    ensures projected.markers <= projections.markers
    ensures projected.rows < Total(projections.rowsOfEach) ==> budget.exhausted && !budget.Admits(2)
    ensures projected.refunds < projections.refunds ==> budget.exhausted && !budget.Admits(4)
    ensures projected.markers < projections.markers ==> budget.exhausted && !budget.Admits(1)
    ensures !budget.exhausted ==> budget.done == AfterProjections(old(budget.done), projections)
  {
    var rows := ProjectSideEffectIncidents(b, projections.rowsOfEach, budget);
    var refunds := 0;
    for k := 0 to projections.refunds
      invariant budget.Kept() && budget.reserve == old(budget.reserve) && (old(budget.exhausted) ==> budget.exhausted)
      invariant old(budget.issued) <= budget.issued && refunds <= k
      invariant rows < Total(projections.rowsOfEach) ==> budget.exhausted && !budget.Admits(INCIDENT_PROJECTION_QUERIES)
      invariant refunds < k ==> budget.exhausted && !budget.Admits(2 + INCIDENT_PROJECTION_QUERIES)
      invariant !budget.exhausted ==>
                  budget.done == AfterRefundIncidents(AfterSources(old(budget.done), projections.rowsOfEach), k)
    {
      var fits := budget.Fits(2 + INCIDENT_PROJECTION_QUERIES);
      if !fits { continue; }
      budget.Run(ProjectRefund(k), 2 + INCIDENT_PROJECTION_QUERIES, b.cost(budget.issued, 2 + INCIDENT_PROJECTION_QUERIES));
      refunds := refunds + 1;
    }
    var markers := ReportUnreportedOversellMarkers(b, projections.markers, budget);
    projected := Projected(rows, refunds, markers);
  }

  datatype Projected = Projected(rows: nat, refunds: nat, markers: nat)

  method ReportUnreportedOversellMarkers(b: Backlog, markers: nat, budget: Budget) returns (reported: nat)
    requires Honest(b) && budget.Kept()
    modifies budget
    ensures budget.Kept() && budget.reserve == old(budget.reserve) && (old(budget.exhausted) ==> budget.exhausted)
    ensures old(budget.issued) <= budget.issued && reported <= markers
    ensures reported < markers ==> budget.exhausted && !budget.Admits(1)
    ensures !budget.exhausted ==> budget.done == AfterMarkers(old(budget.done) + [ListMarkers], markers)
  {
    reported := 0;
    var fits := budget.Fits(1);
    if !fits { return; }
    budget.Run(ListMarkers, 1, b.cost(budget.issued, 1));
    while reported < markers
      invariant budget.done == AfterMarkers(old(budget.done) + [ListMarkers], reported)
      invariant budget.Kept() && budget.reserve == old(budget.reserve) && (old(budget.exhausted) ==> budget.exhausted)
      invariant old(budget.issued) <= budget.issued && reported <= markers
    {
      fits := budget.Fits(1);
      if !fits { return; }
      budget.Run(ReportMarker(reported), 1, b.cost(budget.issued, 1));
      reported := reported + 1;
    }
  }

  // One listing per source booking, then each of its rows against its incident.
  method ProjectSideEffectIncidents(b: Backlog, rowsOfEach: seq<nat>, budget: Budget) returns (projected: nat)
    requires Honest(b) && budget.Kept()
    modifies budget
    ensures budget.Kept() && budget.reserve == old(budget.reserve) && (old(budget.exhausted) ==> budget.exhausted)
    ensures old(budget.issued) <= budget.issued && projected <= Total(rowsOfEach)
    ensures projected < Total(rowsOfEach) ==> budget.exhausted && !budget.Admits(2)
    ensures !budget.exhausted ==> budget.done == AfterSources(old(budget.done), rowsOfEach)
  {
    projected := 0;
    for k := 0 to |rowsOfEach|
      invariant budget.Kept() && budget.reserve == old(budget.reserve) && (old(budget.exhausted) ==> budget.exhausted)
      invariant old(budget.issued) <= budget.issued && projected <= Total(rowsOfEach[..k])
      invariant projected < Total(rowsOfEach[..k]) ==> budget.exhausted && !budget.Admits(INCIDENT_PROJECTION_QUERIES)
      invariant !budget.exhausted ==> budget.done == AfterSources(old(budget.done), rowsOfEach[..k])
    {
      assert rowsOfEach[..k + 1][..k] == rowsOfEach[..k];
      var fits := budget.Fits(1);
      if !fits { continue; }
      budget.Run(ListRows(k), 1, b.cost(budget.issued, 1));
      for r := 0 to rowsOfEach[k]
        invariant budget.Kept() && budget.reserve == old(budget.reserve) && (old(budget.exhausted) ==> budget.exhausted)
        invariant old(budget.issued) <= budget.issued && projected <= Total(rowsOfEach[..k]) + r
        invariant projected < Total(rowsOfEach[..k]) + r ==> budget.exhausted && !budget.Admits(INCIDENT_PROJECTION_QUERIES)
        invariant !budget.exhausted ==>
                    budget.done == AfterRows(AfterSources(old(budget.done), rowsOfEach[..k]) + [ListRows(k)], k, r)
      {
        fits := budget.Fits(INCIDENT_PROJECTION_QUERIES);
        if !fits { break; }
        budget.Run(ProjectRow(k, r), INCIDENT_PROJECTION_QUERIES, b.cost(budget.issued, INCIDENT_PROJECTION_QUERIES));
        projected := projected + 1;
      }
    }
    assert rowsOfEach[..|rowsOfEach|] == rowsOfEach;
  }

  // A reminder's rows in one statement each, the listing, and a claim and a resolve per row.
  function ReminderQueries(rows: nat): nat {
    rows + 1 + rows * 2
  }

  // Reminders that have something to deliver.
  function WithRows(reminders: seq<nat>): nat {
    if reminders == [] then 0
    else WithRows(reminders[..|reminders| - 1]) + if reminders[|reminders| - 1] == 0 then 0 else 1
  }

  // Arms the due reminders in order, until one does not fit; one with nothing to deliver costs nothing.
  method SweepReminders(b: Backlog, budget: Budget) returns (swept: nat, armed: nat)
    requires Honest(b) && budget.Kept()
    modifies budget
    ensures budget.Kept() && budget.reserve == old(budget.reserve) && (old(budget.exhausted) ==> budget.exhausted)
    ensures old(budget.issued) <= budget.issued
    ensures !b.remindersOn ==> swept == 0 && budget.issued == old(budget.issued) && budget.done == old(budget.done)
    ensures swept <= |b.reminders| && armed == WithRows(b.reminders[..swept])
    ensures b.remindersOn && old(budget.Admits(1)) ==> budget.done == AfterReminders(old(budget.done) + [ListReminders], b.reminders[..swept])
    ensures b.remindersOn && !budget.exhausted ==>
              swept == |b.reminders| && budget.done == AfterReminders(old(budget.done) + [ListReminders], b.reminders)
    ensures b.remindersOn && swept < |b.reminders| ==>
              budget.exhausted && (!budget.Admits(1) || !budget.Admits(ReminderQueries(b.reminders[swept])))
  {
    swept, armed := 0, 0;
    if !b.remindersOn { return; }
    var fits := budget.Fits(1);
    if !fits { return; }
    budget.Run(ListReminders, 1, b.cost(budget.issued, 1));
    while swept < |b.reminders|
      invariant budget.Kept() && budget.reserve == old(budget.reserve) && (old(budget.exhausted) ==> budget.exhausted)
      invariant old(budget.issued) <= budget.issued
      invariant swept <= |b.reminders| && armed == WithRows(b.reminders[..swept])
      invariant budget.done == AfterReminders(old(budget.done) + [ListReminders], b.reminders[..swept])
    {
      assert b.reminders[..swept + 1][..swept] == b.reminders[..swept];
      var rows := b.reminders[swept];
      if rows == 0 {
        swept := swept + 1;
        continue;
      }
      var declared := rows + 1 + rows * OUTBOX_ROW_QUERIES;
      fits := budget.Fits(declared);
      if !fits { break; }
      budget.Run(ArmReminder(swept), declared, b.cost(budget.issued, declared));
      swept, armed := swept + 1, armed + 1;
    }
    assert b.reminders[..|b.reminders|] == b.reminders;
  }

  // Lists the deliverable incidents, then claims, names and resolves each while it fits. With nowhere
  // to send them, none is claimed.
  method DrainAlerts(b: Backlog, budget: Budget) returns (attempted: nat)
    requires Honest(b) && budget.Kept() && budget.reserve == CLOSING_QUERIES + ALERT_FLOOR_QUERIES
    modifies budget
    ensures budget.Kept() && budget.reserve == 1
    ensures attempted <= |b.alerts| && (!b.sink ==> attempted == 0)
    ensures b.sink && 5 <= budget.limit && b.alerts != [] ==> 1 <= attempted
    ensures b.sink && attempted < |b.alerts| ==> budget.exhausted && !budget.Admits(3)
    ensures budget.done == old(budget.done) || budget.done == AfterAlerts(old(budget.done) + [ListAlerts], attempted)
    ensures attempted > 0 || !budget.exhausted ==> budget.done == AfterAlerts(old(budget.done) + [ListAlerts], attempted)
    ensures !budget.exhausted ==> attempted == if b.sink then |b.alerts| else 0
  {
    budget.ReleaseAlertReserve();
    attempted := 0;
    var fits := budget.Fits(1);
    if !fits { return; }
    budget.Run(ListAlerts, 1, b.cost(budget.issued, 1));
    if !b.sink && |b.alerts| > 0 { return; }
    while attempted < |b.alerts|
      invariant budget.Kept() && budget.reserve == CLOSING_QUERIES && attempted <= |b.alerts|
      invariant budget.done == AfterAlerts(old(budget.done) + [ListAlerts], attempted)
      invariant !b.sink ==> b.alerts == []
      invariant attempted == 0 && CLOSING_QUERIES + ALERT_FLOOR_QUERIES <= budget.limit ==> budget.Admits(ALERT_STEP_QUERIES)
    {
      fits := budget.Fits(ALERT_STEP_QUERIES);
      if !fits { break; }
      budget.Run(SendAlert(attempted), ALERT_STEP_QUERIES, b.cost(budget.issued, ALERT_STEP_QUERIES));
      attempted := attempted + 1;
    }
  }

  function Elements<T>(page: seq<T>): set<T> {
    set x | x in page
  }

  // What the pages before that batch brought.
  function OperationsMet(b: Backlog, batch: nat): set<OperationKey> {
    if batch == 0 then {} else OperationsMet(b, batch - 1) + Elements(b.operationPage(batch - 1))
  }

  function RefundsMet(b: Backlog, batch: nat): set<BookingId> {
    if batch == 0 then {} else RefundsMet(b, batch - 1) + Elements(b.refundPage(batch - 1))
  }

  function Larger(a: nat, b: nat): nat {
    if a < b then b else a
  }

  // One page of each source, then the incidents of what it met. Both pages run to their end unless
  // the budget refuses something.
  method RunBatch(b: Backlog, batch: nat, budget: Budget)
    returns (ranOperations: set<OperationKey>, ranRefunds: set<BookingId>, largestPage: nat)
    requires Honest(b) && budget.Kept()
    modifies budget
    ensures budget.Kept() && budget.reserve == old(budget.reserve) && (old(budget.exhausted) ==> budget.exhausted)
    ensures ranOperations <= Elements(b.operationPage(batch)) && ranRefunds <= Elements(b.refundPage(batch))
    ensures !budget.exhausted ==>
              && ranOperations == Elements(b.operationPage(batch)) && ranRefunds == Elements(b.refundPage(batch))
              && largestPage == Larger(|b.operationPage(batch)|, |b.refundPage(batch)|)
              && budget.done == AfterBatch(b, batch, old(budget.done))
  {
    var operationPage: seq<OperationKey>, refundPage: seq<BookingId> := [], [];
    var fits := budget.Fits(1);
    if fits {
      budget.Run(ListOperations(batch), 1, b.cost(budget.issued, 1));
      operationPage := b.operationPage(batch);
    }
    var operationsRun := RunOperations(b, operationPage, budget);
    fits := budget.Fits(1);
    if fits {
      budget.Run(ListRefunds(batch), 1, b.cost(budget.issued, 1));
      refundPage := b.refundPage(batch);
    }
    var refundsRun := RunRefunds(b, batch, refundPage, budget);
    fits := budget.Fits(3);
    if fits { budget.Run(ListIncidents(batch), 3, b.cost(budget.issued, 3)); }
    var projected := ProjectIncidents(b, b.projections(batch), budget);
    ranOperations, ranRefunds := Elements(operationsRun), Elements(refundsRun);
    largestPage := Larger(|operationPage|, |refundPage|);
  }

  datatype Summary = Summary(batches: nat, issuedBeforeAlerts: nat, cutShort: bool, issued: nat, alertsAttempted: nat,
                             doneBeforeAlerts: seq<Work>, done: seq<Work>)

  // Both pages of the batch were short, so nothing is left behind them.
  predicate Drained(b: Backlog, batch: nat, sourceLimit: nat) {
    |b.operationPage(batch)| < sourceLimit && |b.refundPage(batch)| < sourceLimit
  }

  // The batch met only what earlier batches had met.
  predicate NothingNew(b: Backlog, batch: nat) {
    Elements(b.operationPage(batch)) <= OperationsMet(b, batch) && Elements(b.refundPage(batch)) <= RefundsMet(b, batch)
  }

  predicate Progressed(seenOperations: set<OperationKey>, ranOperations: set<OperationKey>,
                       seenRefunds: set<BookingId>, ranRefunds: set<BookingId>)
  {
    !(ranOperations <= seenOperations) || !(ranRefunds <= seenRefunds)
  }

  // A batch that progressed leaves less of the backlog unseen.
  lemma BatchCounts(seenOperations: set<OperationKey>, ranOperations: set<OperationKey>, operations: set<OperationKey>,
                    seenRefunds: set<BookingId>, ranRefunds: set<BookingId>, refunds: set<BookingId>)
    requires seenOperations <= operations && ranOperations <= operations && seenRefunds <= refunds && ranRefunds <= refunds
    ensures seenOperations + ranOperations <= operations && seenRefunds + ranRefunds <= refunds
    ensures |seenOperations| + |seenRefunds| + (if Progressed(seenOperations, ranOperations, seenRefunds, ranRefunds) then 1 else 0)
         <= |seenOperations + ranOperations| + |seenRefunds + ranRefunds| <= |operations| + |refunds|
  {
    SeenGrows(seenOperations, ranOperations, operations);
    SeenGrows(seenRefunds, ranRefunds, refunds);
  }

  // What the sweep has run so far; complete as long as the budget never refused anything.
  datatype Seen = Seen(operations: set<OperationKey>, refunds: set<BookingId>) {
    function Size(): nat {
      |operations| + |refunds|
    }
  }

  ghost predicate Follows(b: Backlog, batch: nat, seen: Seen) {
    seen.operations == OperationsMet(b, batch) && seen.refunds == RefundsMet(b, batch)
  }

  predicate Within(b: Backlog, seen: Seen) {
    seen.operations <= b.operations && seen.refunds <= b.refunds
  }

  // After some batches: they met no more than the backlog holds; while nothing was refused they ran all
  // their pages brought, and they stop only at the end of the backlog or when they meet nothing new.
  ghost predicate SweptSoFar(b: Backlog, batches: nat, seen: Seen, more: bool, sourceLimit: nat,
                             refused: bool, done: seq<Work>, before: seq<Work>)
  {
    && Within(b, seen) && batches <= seen.Size() + (if more then 0 else 1) && seen.Size() <= |b.operations| + |b.refunds|
    && (more || 1 <= batches)
    && (!refused ==> Follows(b, batches, seen) && done == AfterBatches(b, batches, before))
    && (!more && !refused && !b.late(batches) ==> 1 <= batches && (Drained(b, batches - 1, sourceLimit) || NothingNew(b, batches - 1)))
  }

  method NextBatch(b: Backlog, batch: nat, seen: Seen, sourceLimit: nat, budget: Budget, ghost before: seq<Work>)
    returns (seen': Seen, more: bool)
    requires Honest(b) && budget.Kept()
    requires SweptSoFar(b, batch, seen, true, sourceLimit, budget.exhausted, budget.done, before)
    modifies budget
    ensures budget.Kept() && budget.reserve == old(budget.reserve) && (old(budget.exhausted) ==> budget.exhausted)
    ensures more ==> seen.Size() < seen'.Size()
    ensures SweptSoFar(b, batch + 1, seen', more, sourceLimit, budget.exhausted, budget.done, before)
  {
    var ranOperations, ranRefunds, largestPage := RunBatch(b, batch, budget);
    PagesComeFromTheBacklog(b, batch);
    var progressed := Progressed(seen.operations, ranOperations, seen.refunds, ranRefunds);
    BatchCounts(seen.operations, ranOperations, b.operations, seen.refunds, ranRefunds, b.refunds);
    seen' := Seen(seen.operations + ranOperations, seen.refunds + ranRefunds);
    var full := largestPage >= sourceLimit;
    more := !(budget.exhausted || !full || !progressed || b.late(batch + 1));
  }

  // Batches until both pages are short, nothing new turns up, or queries or time run out.
  method SweepBacklog(b: Backlog, sourceLimit: nat, budget: Budget) returns (batches: nat)
    requires Honest(b) && budget.Kept()
    modifies budget
    ensures budget.Kept() && budget.reserve == old(budget.reserve)
    ensures 1 <= batches <= |b.operations| + |b.refunds| + 1
    ensures !budget.exhausted && !b.late(batches) ==> Drained(b, batches - 1, sourceLimit) || NothingNew(b, batches - 1)
    ensures old(budget.exhausted) ==> budget.exhausted
    ensures !budget.exhausted ==> budget.done == AfterBatches(b, batches, old(budget.done))
  {
    var seen, more := Seen({}, {}), true;
    batches := 0;
    while more
      invariant budget.Kept() && budget.reserve == old(budget.reserve) && (old(budget.exhausted) ==> budget.exhausted)
      invariant SweptSoFar(b, batches, seen, more, sourceLimit, budget.exhausted, budget.done, old(budget.done))
      decreases more, |b.operations| + |b.refunds| - seen.Size()
    {
      seen, more := NextBatch(b, batches, seen, sourceLimit, budget, old(budget.done));
      batches := batches + 1;
    }
  }

  lemma PagesComeFromTheBacklog(b: Backlog, batch: nat)
    requires Honest(b)
    ensures Elements(b.operationPage(batch)) <= b.operations && Elements(b.refundPage(batch)) <= b.refunds
  {
  }

  function AfterSweep(b: Backlog, batches: nat): seq<Work> {
    AfterBatches(b, batches, if b.remindersOn then AfterReminders([SweepHolds] + [ListReminders], b.reminders) else [SweepHolds])
  }

  // Expired holds, due reminders, and the backlog.
  method SweepAll(b: Backlog, sourceLimit: nat, budget: Budget) returns (batches: nat)
    requires Honest(b) && budget.Kept() && budget.issued == 0 && budget.done == []
    modifies budget
    ensures budget.Kept() && budget.reserve == old(budget.reserve)
    ensures 1 <= batches <= |b.operations| + |b.refunds| + 1
    ensures !budget.exhausted && !b.late(batches) ==> Drained(b, batches - 1, sourceLimit) || NothingNew(b, batches - 1)
    ensures !budget.exhausted ==> budget.done == AfterSweep(b, batches)
  {
    var fits := budget.Fits(1);
    if fits { budget.Run(SweepHolds, 1, b.cost(0, 1)); }
    assert !budget.exhausted ==> budget.done == [SweepHolds];
    var swept, armed := SweepReminders(b, budget);
    batches := SweepBacklog(b, sourceLimit, budget);
  }

  method RunReconciliation(b: Backlog, limit: nat, sourceLimit: nat) returns (summary: Summary)
    requires Honest(b)
    // every batch after the first met a row no earlier batch had run
    ensures 1 <= summary.batches <= |b.operations| + |b.refunds| + 1
    // with queries and time left it stops only at the end of the backlog, or when it meets nothing new
    ensures !summary.cutShort && !b.late(summary.batches) ==>
              Drained(b, summary.batches - 1, sourceLimit) || NothingNew(b, summary.batches - 1)
    // until the alert phase, the closing release and the alerts' floor stay free
    ensures summary.issuedBeforeAlerts == 0 || summary.issuedBeforeAlerts + 5 <= limit
    // and the closing release stays free to the end
    ensures summary.issued == 0 || summary.issued + 1 <= limit
    // no backlog starves the alerts, if there is anywhere to send them
    ensures b.sink && 5 <= limit && b.alerts != [] ==> 1 <= summary.alertsAttempted
    // with queries left it does everything, in this order: expired holds, reminders, batches, then the alerts
    ensures !summary.cutShort ==> summary.doneBeforeAlerts == AfterSweep(b, summary.batches)
    ensures summary.done == AfterAlerts(summary.doneBeforeAlerts + [ListAlerts], summary.alertsAttempted)
         || (summary.done == summary.doneBeforeAlerts && summary.alertsAttempted == 0)
  {
    var budget := new Budget(limit);
    var batches := SweepAll(b, sourceLimit, budget);
    var issuedBeforeAlerts, cutShort, doneBeforeAlerts := budget.issued, budget.exhausted, budget.done;
    var attempted := DrainAlerts(b, budget);
    summary := Summary(batches, issuedBeforeAlerts, cutShort, budget.issued, attempted, doneBeforeAlerts, budget.done);
  }

  lemma {:induction false} Bounded<T>(part: set<T>, whole: set<T>)
    requires part <= whole
    ensures |part| <= |whole|
  {
    assert whole == part + (whole - part);
  }

  lemma SeenGrows<T>(seen: set<T>, ran: set<T>, all: set<T>)
    requires seen <= all && ran <= all
    ensures seen + ran <= all && |seen| <= |seen + ran| <= |all|
    ensures !(ran <= seen) ==> |seen| < |seen + ran|
  {
    Bounded(seen + ran, all);
    Bounded(seen, seen + ran);
    if !(ran <= seen) {
      var x :| x in ran && x !in seen;
      Bounded(seen + {x}, seen + ran);
    }
  }
}
