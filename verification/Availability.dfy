/** Availability answers, and their agreement with the guard that admits holds. */
module Availability {
  import opened Schema
  import opened Usage
  import opened Statements
  import opened Occupancy

  type Services = map<string, Service>

  predicate ValidServices(services: Services) {
    forall slug | slug in services :: services[slug].Valid()
  }

  // A stored row still matches the configured service it was sold under.
  predicate ConfigAgrees(b: Booking, services: Services) {
    && b.serviceSlug in services
    && b.endsAt == b.startsAt + services[b.serviceSlug].durationMin * MINUTE_MS
    && b.occupancyEndsAt == Some(b.endsAt + services[b.serviceSlug].turnaroundMin * MINUTE_MS)
    && b.occupancyUnits.Some?
  }

  predicate Unchanged(rows: seq<Booking>, services: Services) {
    forall i | 0 <= i < |rows| :: ConfigAgrees(rows[i], services)
  }

  // Rows as checkout stores them: the units are those of the party.
  predicate AsSold(rows: seq<Booking>, services: Services)
    requires ValidServices(services)
  {
    Unchanged(rows, services)
    && forall i | 0 <= i < |rows| ::
         rows[i].serviceSlug in services && 1 <= rows[i].quantity
         && rows[i].occupancyUnits == OccupancyFor(services[rows[i].serviceSlug], rows[i].quantity)
  }

  // ----- reading the bookings of a range

  datatype Listed = Listed(id: BookingId, row: Booking)

  predicate InRange(b: Booking, from: Instant, to: Instant) {
    from <= b.startsAt < to && (b.status == Hold || b.status == Confirmed)
  }

  ghost function RangeIds(rows: seq<Booking>, from: Instant, to: Instant): iset<BookingId> {
    iset i: BookingId | i < |rows| && InRange(rows[i], from, to)
  }

  ghost predicate ListsExactly(listed: seq<Listed>, rows: seq<Booking>, ids: iset<BookingId>) {
    && (forall k | 0 <= k < |listed| :: listed[k].id in ids && listed[k].id < |rows| && listed[k].row == rows[listed[k].id])
    && Distinct(listed)
    && (forall i: nat | i in ids && i < |rows| :: exists k :: 0 <= k < |listed| && listed[k].id == i)
  }

  predicate Distinct(listed: seq<Listed>) {
    forall j, k | 0 <= j < k < |listed| :: listed[j].id != listed[k].id
  }

  predicate ByStart(listed: seq<Listed>) {
    forall j, k | 0 <= j < k < |listed| :: listed[j].row.startsAt <= listed[k].row.startsAt
  }

  function Place(listed: seq<Listed>, x: Listed): (k: nat)
    ensures k <= |listed|
    ensures forall j | 0 <= j < k :: listed[j].row.startsAt <= x.row.startsAt
    ensures k < |listed| ==> x.row.startsAt < listed[k].row.startsAt
  {
    if listed == [] || x.row.startsAt < listed[0].row.startsAt then 0 else 1 + Place(listed[1..], x)
  }

  method ListOccupancyBookings(rows: seq<Booking>, from: Instant, to: Instant) returns (listed: seq<Listed>)
    ensures ListsExactly(listed, rows, RangeIds(rows, from, to))
    ensures ByStart(listed)
  {
    listed := [];
    for i := 0 to |rows|
      invariant ListsExactly(listed, rows, RangeIds(rows[..i], from, to))
      invariant ByStart(listed)
    {
      if from <= rows[i].startsAt < to && (rows[i].status == Hold || rows[i].status == Confirmed) {
        var x := Listed(i, rows[i]);
        var k := Place(listed, x);
        InsertedOnce(listed, x, k, rows, RangeIds(rows[..i], from, to), RangeIds(rows[..i + 1], from, to));
        InsertedInOrder(listed, x, k);
        listed := InsertAt(listed, k, x);
      } else {
        assert RangeIds(rows[..i + 1], from, to) == RangeIds(rows[..i], from, to);
      }
    }
    assert rows[..|rows|] == rows;
  }

  function InsertAt(listed: seq<Listed>, k: nat, x: Listed): (r: seq<Listed>)
    requires k <= |listed|
    ensures |r| == |listed| + 1 && r[k] == x
    ensures forall m | 0 <= m < k :: r[m] == listed[m]
    ensures forall m | k <= m < |listed| :: r[m + 1] == listed[m]
    ensures forall m | k < m <= |listed| :: r[m] == listed[m - 1]
  {
    listed[..k] + [x] + listed[k..]
  }

  lemma InsertedInOrder(listed: seq<Listed>, x: Listed, k: nat)
    requires ByStart(listed) && k == Place(listed, x)
    ensures ByStart(InsertAt(listed, k, x))
  {
    var r := InsertAt(listed, k, x);
    forall j, m | 0 <= j < m < |r|
      ensures r[j].row.startsAt <= r[m].row.startsAt
    {
      if j == k && m > k { assert listed[k].row.startsAt <= listed[m - 1].row.startsAt; }
    }
  }

  lemma InsertedDistinct(listed: seq<Listed>, x: Listed, k: nat)
    requires k <= |listed| && Distinct(listed)
    requires forall m | 0 <= m < |listed| :: listed[m].id != x.id
    ensures Distinct(InsertAt(listed, k, x))
  {
    var r := InsertAt(listed, k, x);
    forall j, m | 0 <= j < m < |r|
      ensures r[j].id != r[m].id
    {
      var j' := if j < k then j else j - 1;
      var m' := if m < k then m else m - 1;
      assert j != k ==> r[j] == listed[j'];
      assert m != k ==> r[m] == listed[m'];
    }
  }

  lemma InsertedOnce(listed: seq<Listed>, x: Listed, k: nat, rows: seq<Booking>, ids: iset<BookingId>, ids': iset<BookingId>)
    requires ListsExactly(listed, rows, ids) && k <= |listed|
    requires x.id < |rows| && x.row == rows[x.id] && x.id !in ids
    requires ids' == ids + iset{x.id}
    ensures ListsExactly(InsertAt(listed, k, x), rows, ids')
  {
    var r := InsertAt(listed, k, x);
    InsertedDistinct(listed, x, k);
    forall i: nat | i in ids' && i < |rows|
      ensures exists m :: 0 <= m < |r| && r[m].id == i
    {
      if i == x.id {
        assert r[k].id == i;
      } else {
        var m :| 0 <= m < |listed| && listed[m].id == i;
        if m < k { assert r[m] == listed[m]; } else { assert r[m + 1] == listed[m]; }
      }
    }
  }

  // ----- occupancy intervals

  // What the availability side takes a booking to occupy: its end, and the turnaround its service has now.
  function Requoted(b: Booking, services: Services): Booking {
    if b.serviceSlug in services
    then b.(occupancyEndsAt := Some(b.endsAt + services[b.serviceSlug].turnaroundMin * 60000)) else b
  }

  function RequotedRows(rows: seq<Booking>, services: Services): (requoted: seq<Booking>)
    ensures |requoted| == |rows|
  {
    seq(|rows|, i requires 0 <= i < |rows| => Requoted(rows[i], services))
  }

  lemma UnchangedRowsAreRequoted(rows: seq<Booking>, services: Services)
    requires Unchanged(rows, services)
    ensures RequotedRows(rows, services) == rows
  {
    forall i | 0 <= i < |rows| ensures Requoted(rows[i], services) == rows[i] {
      assert ConfigAgrees(rows[i], services);
    }
  }

  predicate Counted(x: Listed, now: Instant, exclude: Option<BookingId>) {
    Active(x.row, now) && exclude != Some(x.id)
  }

  // One more listed row: its units where it is counted, nothing otherwise.
  lemma OneMoreListed(rows: seq<Booking>, services: Services, now: Instant, exclude: Option<BookingId>, done: iset<BookingId>, x: Listed, t: Instant)
    requires x.id < |rows| && x.row == rows[x.id] && x.id !in done
    ensures var requoted := RequotedRows(rows, services);
            var done' := if exclude == Some(x.id) then done else done + iset{x.id};
            Load(requoted, now, done', t)
            == Load(requoted, now, done, t)
               + if Counted(x, now, exclude) && Covers(Requoted(x.row, services), t) then Units(x.row) else 0
  {
    if exclude != Some(x.id) {
      LoadSplit(RequotedRows(rows, services), now, done + iset{x.id}, t, x.id);
      LoadAgree(RequotedRows(rows, services), now, done + iset{x.id} - iset{x.id}, done, t);
    }
  }

  // The intervals weigh, at every instant, what those bookings weigh.
  ghost predicate Weighs(booked: seq<Interval>, rows: seq<Booking>, services: Services, now: Instant, done: iset<BookingId>) {
    forall t :: IntervalLoad(booked, t) == Load(RequotedRows(rows, services), now, done, t)
  }

  lemma OneMorePassedOver(booked: seq<Interval>, rows: seq<Booking>, services: Services, now: Instant, exclude: Option<BookingId>,
                          done: iset<BookingId>, x: Listed)
    requires x.id < |rows| && x.row == rows[x.id] && x.id !in done && Weighs(booked, rows, services, now, done)
    requires !Counted(x, now, exclude)
    ensures Weighs(booked, rows, services, now, if exclude == Some(x.id) then done else done + iset{x.id})
  {
    forall t { OneMoreListed(rows, services, now, exclude, done, x, t); }
  }

  lemma OneMoreWeighed(booked: seq<Interval>, rows: seq<Booking>, services: Services, now: Instant, exclude: Option<BookingId>,
                       done: iset<BookingId>, x: Listed, interval: Interval)
    requires x.id < |rows| && x.row == rows[x.id] && x.id !in done && Weighs(booked, rows, services, now, done)
    requires Counted(x, now, exclude)
    requires interval == Interval(x.row.startsAt, OccupiedUntil(Requoted(x.row, services)), Units(x.row))
    ensures Weighs(booked + [interval], rows, services, now, done + iset{x.id})
  {
    forall t ensures IntervalLoad(booked + [interval], t) == Load(RequotedRows(rows, services), now, done + iset{x.id}, t) {
      OneMoreListed(rows, services, now, exclude, done, x, t);
      IntervalLoadAppend(booked, interval, t);
    }
  }

  // None stands for the range error an unknown service raises. Calendar intervals arrive already
  // filtered and are appended as they are.
  method GetOccupancyIntervals(listed: seq<Listed>, calendar: seq<Interval>, services: Services, now: Instant,
                               exclude: Option<BookingId>, ghost rows: seq<Booking>, ghost ids: iset<BookingId>)
    returns (intervals: Option<seq<Interval>>)
    requires ListsExactly(listed, rows, ids) && ValidServices(services) && WellFormed(rows) && AllUsable(calendar)
    ensures intervals.None? <==>
              exists k :: 0 <= k < |listed| && Counted(listed[k], now, exclude) && listed[k].row.serviceSlug !in services
    ensures intervals.Some? ==>
              && AllUsable(intervals.value)
              && forall t :: IntervalLoad(intervals.value, t)
                          == Load(RequotedRows(rows, services), now, ids - Excluded(exclude), t) + IntervalLoad(calendar, t)
  {
    var booked: seq<Interval> := [];
    var seen: set<BookingId> := {};
    ghost var done := iset{};
    assert Weighs(booked, rows, services, now, done) by {
      forall t ensures Load(RequotedRows(rows, services), now, done, t) == 0 { LoadOfNobody(RequotedRows(rows, services), now, t); }
    }
    for k := 0 to |listed|
      invariant AllUsable(booked)
      invariant seen == set j | 0 <= j < k && Counted(listed[j], now, exclude) :: listed[j].id
      invariant done == iset j | 0 <= j < k && exclude != Some(listed[j].id) :: listed[j].id
      invariant forall j | 0 <= j < k && Counted(listed[j], now, exclude) :: listed[j].row.serviceSlug in services
      invariant Weighs(booked, rows, services, now, done)
    {
      var id, b := listed[k].id, listed[k].row;
      ghost var before := done;
      done := if exclude == Some(id) then done else done + iset{id};
      assert id !in before;
      if id in seen || exclude == Some(id) || !Active(b, now) {
        OneMorePassedOver(booked, rows, services, now, exclude, before, listed[k]);
        continue;
      }
      seen := seen + {id};
      if b.serviceSlug !in services { return None; }
      var x := Interval(b.startsAt, b.endsAt + services[b.serviceSlug].turnaroundMin * MINUTE_MS, Units(b));
      if b.endsAt <= b.startsAt || x.end <= x.start { continue; }
      OneMoreWeighed(booked, rows, services, now, exclude, before, listed[k], x);
      booked := booked + [x];
    }
    intervals := Some(booked + calendar);
    forall t { IntervalLoadConcat(booked, calendar, t); }
    forall t { LoadAgree(RequotedRows(rows, services), now, done, ids - Excluded(exclude), t); }
  }

  ghost function Excluded(exclude: Option<BookingId>): iset<BookingId> {
    if exclude.Some? then iset{exclude.value} else iset{}
  }

  // ----- capacity of a date

  ghost predicate ListsDefaults(defaults: seq<CapacityDefault>, stored: map<Date, int>) {
    && (forall k | 0 <= k < |defaults| :: defaults[k].fromDate in stored && stored[defaults[k].fromDate] == defaults[k].capacity)
    && (forall d | d in stored :: exists k :: 0 <= k < |defaults| && defaults[k].fromDate == d)
  }

  // The latest default at or before the date, then the day's override: the capacity the guard resolves.
  method CapacityForDate(date: Date, base: int, defaults: seq<CapacityDefault>, override: Option<int>, ghost db: Db)
    returns (capacity: int)
    requires ListsDefaults(defaults, db.capacityDefaults)
    requires override == if date in db.dayOverrides then Some(db.dayOverrides[date]) else None
    ensures capacity == CapacityOn(db, date, base)
  {
    var active: Option<CapacityDefault> := None;
    for k := 0 to |defaults|
      invariant active.Some? ==> active.value in defaults[..k] && active.value.fromDate <= date
      invariant forall j | 0 <= j < k && defaults[j].fromDate <= date ::
                  active.Some? && defaults[j].fromDate <= active.value.fromDate
    {
      if defaults[k].fromDate <= date && (active.None? || defaults[k].fromDate > active.value.fromDate) {
        active := Some(defaults[k]);
      }
    }
    if active.Some? {
      assert LatestNotAfter(db.capacityDefaults.Keys, date, active.value.fromDate);
    }
    capacity := ResolveCapacity(if active.Some? then ResolveCapacity(active.value.capacity, None) else ResolveCapacity(base, None), override);
    CapacityIsUnique(db, date, base, capacity);
  }

  // ----- one day

  datatype Slot = Slot(utcStart: Instant, utcEnd: Instant)

  datatype AvailableSlot = AvailableSlot(start: Instant, remaining: int, remainingBookings: int)

  datatype DayStatus = DayOpen | DayLimited | DayFull | DayClosed

  datatype Policy = Policy(minNoticeMs: int, maxHorizonMs: int, limitedThreshold: nat)

  predicate InRequestWindow(slot: Slot, policy: Policy, now: Instant) {
    now + policy.minNoticeMs <= slot.utcStart <= now + policy.maxHorizonMs
  }

  predicate SlotsOf(slots: seq<Slot>, service: Service) {
    forall k | 0 <= k < |slots| :: slots[k].utcEnd == slots[k].utcStart + service.durationMin * MINUTE_MS
  }

  function FreeAfter(slot: Slot, service: Service): Instant {
    slot.utcEnd + service.turnaroundMin * MINUTE_MS
  }

  // What each slot of the day is answered: its peak leaves room for the party, or it is left out.
  ghost function OffersOf(slots: seq<Slot>, xs: seq<Interval>, service: Service, units: int, capacity: int,
                          policy: Policy, now: Instant): seq<AvailableSlot>
    requires AllUsable(xs) && service.Valid() && SlotsOf(slots, service) && 1 <= units
  {
    if slots == [] then []
    else
      var last := |slots| - 1;
      var slot := slots[last];
      var used := Peak(xs, slot.utcStart, FreeAfter(slot, service));
      OffersOf(slots[..last], xs, service, units, capacity, policy, now)
      + if InRequestWindow(slot, policy, now) && used + units <= capacity
        then [AvailableSlot(slot.utcStart, capacity - used, (capacity - used) / units)] else []
  }

  method AvailabilityForDay(slots: seq<Slot>, xs: seq<Interval>, service: Service, units: int, capacity: int,
                            policy: Policy, now: Instant, ruleMatches: bool)
    returns (status: DayStatus, offers: seq<AvailableSlot>)
    requires AllUsable(xs) && service.Valid() && SlotsOf(slots, service) && 1 <= units
    ensures status == DayClosed <==> capacity <= 0 || !ruleMatches
    ensures status == DayClosed ==> offers == []
    ensures status != DayClosed ==>
              && offers == OffersOf(slots, xs, service, units, capacity, policy, now)
              && status == if offers == [] then DayFull else if |offers| <= policy.limitedThreshold then DayLimited else DayOpen
    ensures status != DayClosed ==> forall slot | slot in slots ::
              Offered(offers, slot.utcStart)
              <==> now + policy.minNoticeMs <= slot.utcStart <= now + policy.maxHorizonMs
                   && RoomThroughout(xs, slot.utcStart, slot.utcEnd + service.turnaroundMin * 60000, units, capacity)
  {
    if ResolveCapacity(capacity, None) == 0 || !ruleMatches {
      return DayClosed, [];
    }
    offers := [];
    for k := 0 to |slots|
      invariant offers == OffersOf(slots[..k], xs, service, units, capacity, policy, now)
    {
      var slot := slots[k];
      assert slots[..k + 1][..k] == slots[..k];
      if slot.utcStart < now + policy.minNoticeMs || now + policy.maxHorizonMs < slot.utcStart { continue; }
      var used := MaxAtBoundaries(xs, slot.utcStart, slot.utcEnd + service.turnaroundMin * MINUTE_MS);
      var remaining := if capacity - used < 0 then 0 else capacity - used;
      if used + units > capacity || remaining <= 0 { continue; }
      offers := offers + [AvailableSlot(slot.utcStart, remaining, remaining / units)];
    }
    assert slots[..|slots|] == slots;
    forall slot | slot in slots { OfferedExactlyWhenRoom(slots, xs, service, units, capacity, policy, now, slot); }
    status := if |offers| == 0 then DayFull else if |offers| <= policy.limitedThreshold then DayLimited else DayOpen;
  }

  ghost predicate Offered(offers: seq<AvailableSlot>, start: Instant) {
    exists k :: 0 <= k < |offers| && offers[k].start == start
  }

  // A slot is offered exactly when it lies in the request window and its window has room.
  lemma {:induction false} OfferedExactlyWhenRoom(slots: seq<Slot>, xs: seq<Interval>, service: Service, units: int,
                                                  capacity: int, policy: Policy, now: Instant, slot: Slot)
    requires AllUsable(xs) && service.Valid() && SlotsOf(slots, service) && 1 <= units
    requires slot in slots
    ensures Offered(OffersOf(slots, xs, service, units, capacity, policy, now), slot.utcStart)
       <==> now + policy.minNoticeMs <= slot.utcStart <= now + policy.maxHorizonMs
            && RoomThroughout(xs, slot.utcStart, slot.utcEnd + service.turnaroundMin * 60000, units, capacity)
  {
    OnlyRoomIsOffered(slots, xs, service, units, capacity, policy, now, slot);
    var last := |slots| - 1;
    var rest := OffersOf(slots[..last], xs, service, units, capacity, policy, now);
    var all := OffersOf(slots, xs, service, units, capacity, policy, now);
    PeakDecides(xs, slots[last].utcStart, FreeAfter(slots[last], service),
                Peak(xs, slots[last].utcStart, FreeAfter(slots[last], service)), units, capacity);
    if slot == slots[last] {
      if |rest| < |all| { assert all[|all| - 1].start == slot.utcStart; }
    } else {
      assert slot in slots[..last];
      OfferedExactlyWhenRoom(slots[..last], xs, service, units, capacity, policy, now, slot);
      if Offered(rest, slot.utcStart) {
        var k :| 0 <= k < |rest| && rest[k].start == slot.utcStart;
        assert all[k].start == slot.utcStart;
      }
    }
  }

  lemma {:induction false} OnlyRoomIsOffered(slots: seq<Slot>, xs: seq<Interval>, service: Service, units: int,
                                             capacity: int, policy: Policy, now: Instant, slot: Slot)
    requires AllUsable(xs) && service.Valid() && SlotsOf(slots, service) && 1 <= units
    requires slot.utcEnd == slot.utcStart + service.durationMin * MINUTE_MS
    ensures Offered(OffersOf(slots, xs, service, units, capacity, policy, now), slot.utcStart)
        ==> InRequestWindow(slot, policy, now)
            && RoomThroughout(xs, slot.utcStart, FreeAfter(slot, service), units, capacity)
  {
    var all := OffersOf(slots, xs, service, units, capacity, policy, now);
    if Offered(all, slot.utcStart) {
      var k :| 0 <= k < |all| && all[k].start == slot.utcStart;
      var last := |slots| - 1;
      var rest := OffersOf(slots[..last], xs, service, units, capacity, policy, now);
      if k < |rest| {
        assert rest[k] == all[k];
        OnlyRoomIsOffered(slots[..last], xs, service, units, capacity, policy, now, slot);
      } else {
        assert slots[last] == slot;
        PeakDecides(xs, slot.utcStart, FreeAfter(slot, service), Peak(xs, slot.utcStart, FreeAfter(slot, service)), units, capacity);
      }
    }
  }

  // ----- a whole range of days

  // Minutes no configured service outlasts, with its turnaround.
  predicate CoversEveryService(lookback: int, services: Services) {
    0 <= lookback && forall slug | slug in services :: services[slug].durationMin + services[slug].turnaroundMin <= lookback
  }

  // The longest duration plus turnaround, or nothing without services.
  predicate IsLookback(lookback: int, services: Services) {
    && CoversEveryService(lookback, services)
    && (lookback == 0 || exists slug | slug in services :: services[slug].durationMin + services[slug].turnaroundMin == lookback)
  }

  lemma LookbackIsUnique(a: int, b: int, services: Services)
    requires ValidServices(services) && IsLookback(a, services) && IsLookback(b, services)
    ensures a == b
  {
  }

  method LongestOccupation(services: Services) returns (lookback: int)
    ensures CoversEveryService(lookback, services)
    ensures lookback == 0 || exists slug :: slug in services && services[slug].durationMin + services[slug].turnaroundMin == lookback
    ensures IsLookback(lookback, services)
  {
    lookback := 0;
    var rest := services.Keys;
    while rest != {}
      invariant rest <= services.Keys && 0 <= lookback
      invariant forall slug | slug in services.Keys - rest :: services[slug].durationMin + services[slug].turnaroundMin <= lookback
      invariant lookback == 0 || exists slug :: slug in services && services[slug].durationMin + services[slug].turnaroundMin == lookback
      decreases rest
    {
      var slug :| slug in rest;
      var minutes := services[slug].durationMin + services[slug].turnaroundMin;
      if lookback < minutes { lookback := minutes; }
      rest := rest - {slug};
    }
  }

  datatype Day = Day(date: Date, slots: seq<Slot>)

  datatype DayAnswer = DayAnswer(status: DayStatus, offers: seq<AvailableSlot>)

  datatype Query = Query(service: Service, units: int, baseCapacity: int, policy: Policy, now: Instant, exclude: Option<BookingId>)

  // The slots of every day belong to the service, and begin inside the range read.
  predicate DaysOf(days: seq<Day>, query: Query, from: Instant, to: Instant) {
    forall d | 0 <= d < |days| ::
      SlotsOf(days[d].slots, query.service) && forall k | 0 <= k < |days[d].slots| :: from <= days[d].slots[k].utcStart < to
  }

  ghost function Others(query: Query): iset<BookingId> {
    ALL - Excluded(query.exclude)
  }

  // Whether the guard would let the party into the slot in this state.
  ghost predicate Admissible(db: Db, query: Query, date: Date, slot: Slot) {
    HasRoom(db, query.now, Others(query), slot.utcStart, FreeAfter(slot, query.service), query.units, date, query.baseCapacity)
  }

  ghost predicate Sellable(db: Db, query: Query, date: Date, slot: Slot) {
    InRequestWindow(slot, query.policy, query.now) && Admissible(db, query, date, slot)
  }

  // Without calendar events, a slot that frees its units by the end of the range is offered exactly
  // when it is sellable; one that runs past the end may be offered too often but never too seldom.
  ghost predicate AnswersDay(db: Db, query: Query, day: Day, answer: DayAnswer, to: Instant, calendar: seq<Interval>) {
    forall slot | slot in day.slots ::
      && (Offered(answer.offers, slot.utcStart) && FreeAfter(slot, query.service) <= to ==> Sellable(db, query, day.date, slot))
      && (calendar == [] && Sellable(db, query, day.date, slot) ==> Offered(answer.offers, slot.utcStart))
      && (Offered(answer.offers, slot.utcStart) ==> InRequestWindow(slot, query.policy, query.now))
  }

  // The hold checkout writes when the party takes the slot: it frees its units a turnaround after the end.
  predicate CheckoutHold(hold: HoldInput, query: Query, date: Date, slot: Slot) {
    && hold.startsAt == slot.utcStart && hold.endsAt == slot.utcEnd
    && hold.occupancyEndsAt == slot.utcEnd + query.service.turnaroundMin * 60000
    && hold.occupancyUnits == query.units && hold.localDate == date && hold.defaultCapacity == query.baseCapacity
    && hold.createdAt == query.now && hold.maxActiveHoldsForIp.None?
  }

  // The move written when the booking is rescheduled into the slot.
  predicate CheckoutMove(move: RescheduleInput, query: Query, date: Date, slot: Slot) {
    && move.startsAt == slot.utcStart && move.endsAt == slot.utcEnd
    && move.occupancyEndsAt == slot.utcEnd + query.service.turnaroundMin * 60000
    && move.occupancyUnits == query.units && move.localDate == date && move.defaultCapacity == query.baseCapacity
    && move.now == query.now
  }

  predicate Requestable(query: Query, start: Instant) {
    query.now + query.policy.minNoticeMs <= start <= query.now + query.policy.maxHorizonMs
  }

  // What customers see against what the insert does with the hold of the same selection.
  ghost predicate AgreesWithCheckout(db: Db, query: Query, date: Date, slot: Slot, offered: bool, to: Instant, noCalendar: bool) {
    var inside := slot.utcEnd + query.service.turnaroundMin * 60000 <= to;
    forall hold | CheckoutHold(hold, query, date, slot) && !ReferenceUsed(db.bookings, hold.reference) ::
      && (offered ==> Requestable(query, slot.utcStart))
      && (offered && inside ==> InsertHold(db, hold).1.Created?)
      && (noCalendar && Requestable(query, slot.utcStart) && InsertHold(db, hold).1.Created? ==> offered)
      && (noCalendar && inside && Requestable(query, slot.utcStart) ==> (offered <==> InsertHold(db, hold).1.Created?))
  }

  // The same for a customer who moves a booking: its own units are left out of the picture.
  ghost predicate AgreesWithMove(db: Db, query: Query, id: BookingId, date: Date, slot: Slot, offered: bool, to: Instant, noCalendar: bool) {
    var inside := slot.utcEnd + query.service.turnaroundMin * 60000 <= to;
    forall move | CheckoutMove(move, query, date, slot) && id < |db.bookings|
                  && db.bookings[id].status == move.expectedStatus && db.bookings[id].startsAt == move.expectedStartsAt ::
      && (offered && inside ==> Reschedule(db, id, move).1)
      && (noCalendar && inside && Requestable(query, slot.utcStart) ==> (offered <==> Reschedule(db, id, move).1))
  }

  ghost predicate AgreesWithTheStore(db: Db, query: Query, date: Date, slot: Slot, offered: bool, to: Instant, noCalendar: bool) {
    if query.exclude.None? then AgreesWithCheckout(db, query, date, slot, offered, to, noCalendar)
    else AgreesWithMove(db, query, query.exclude.value, date, slot, offered, to, noCalendar)
  }

  // What a day is answered is what the guarded writes do with the same selection.
  lemma AnswerAgreesWithTheStore(db: Db, query: Query, day: Day, answer: DayAnswer, to: Instant, calendar: seq<Interval>, slot: Slot)
    requires AnswersDay(db, query, day, answer, to, calendar) && slot in day.slots
    ensures AgreesWithTheStore(db, query, day.date, slot, Offered(answer.offers, slot.utcStart), to, calendar == [])
  {
    var offered := Offered(answer.offers, slot.utcStart);
    if query.exclude.None? {
      forall hold | CheckoutHold(hold, query, day.date, slot) && !ReferenceUsed(db.bookings, hold.reference)
        ensures InsertHold(db, hold).1.Created? <==> Admissible(db, query, day.date, slot)
      {
        forall t ensures Load(db.bookings, query.now, ALL, t) == Load(db.bookings, query.now, Others(query), t) {
          LoadAgree(db.bookings, query.now, ALL, Others(query), t);
        }
      }
    } else {
      assert Others(query) == AllBut(query.exclude.value);
    }
  }

  ghost predicate RoomReported(db: Db, query: Query, date: Date, start: Instant, free: Instant, offer: AvailableSlot)
    requires 1 <= query.units
  {
    && query.units <= offer.remaining
    && offer.remainingBookings == offer.remaining / query.units
    && exists peak ::
         IsPeakLoad(db.bookings, query.now, start, free, peak) && offer.remaining == CapacityOn(db, date, query.baseCapacity) - peak
  }

  // What an offer reports: the units its window leaves free at its fullest, and how many such
  // parties they hold.
  ghost predicate ReportsRoom(db: Db, query: Query, day: Day, answer: DayAnswer, to: Instant)
    requires 1 <= query.units
  {
    forall k, slot | 0 <= k < |answer.offers| && slot in day.slots && answer.offers[k].start == slot.utcStart
                     && slot.utcEnd + query.service.turnaroundMin * 60000 <= to ::
      RoomReported(db, query, day.date, slot.utcStart, slot.utcEnd + query.service.turnaroundMin * 60000, answer.offers[k])
  }

  // Every instant up to the slot's end and turnaround has room for the party, among the bookings that were read.
  ghost predicate RoomAsRead(db: Db, services: Services, query: Query, date: Date, slot: Slot, from: Instant, to: Instant,
                             lookback: int, calendar: seq<Interval>)
  {
    forall t | slot.utcStart <= t < slot.utcEnd + query.service.turnaroundMin * 60000 ::
      Load(RequotedRows(db.bookings, services), query.now, ReadIds(db, query, from, to, lookback), t) + IntervalLoad(calendar, t)
      + query.units <= CapacityOn(db, date, query.baseCapacity)
  }

  // The bookings that begin inside the range or at most the lookback before it, but for the excluded one.
  ghost function ReadIds(db: Db, query: Query, from: Instant, to: Instant, lookback: int): iset<BookingId> {
    RangeIds(db.bookings, from - lookback * 60000, to) - Excluded(query.exclude)
  }

  // A booking that was read and counts was sold for a service that is no longer configured.
  ghost predicate ReadsUnknownService(db: Db, services: Services, query: Query, from: Instant, to: Instant, lookback: int) {
    exists i: nat :: i < |db.bookings| && i in ReadIds(db, query, from, to, lookback)
                     && Active(db.bookings[i], query.now) && db.bookings[i].serviceSlug !in services
  }

  ghost predicate OffersAsRead(db: Db, services: Services, query: Query, day: Day, answer: DayAnswer, from: Instant, to: Instant,
                               lookback: int, calendar: seq<Interval>)
  {
    && (forall slot | slot in day.slots ::
          Offered(answer.offers, slot.utcStart)
          <==> Requestable(query, slot.utcStart) && RoomAsRead(db, services, query, day.date, slot, from, to, lookback, calendar))
    && (answer.status == DayClosed <==> CapacityOn(db, day.date, query.baseCapacity) <= 0 || day.slots == [])
    && (answer.status == DayClosed ==> answer.offers == [])
    && (answer.status != DayClosed ==>
          answer.status == if |answer.offers| == 0 then DayFull
                           else if |answer.offers| <= query.policy.limitedThreshold then DayLimited else DayOpen)
    && (forall offer | offer in answer.offers :: exists slot | slot in day.slots :: slot.utcStart == offer.start)
  }

  // The intervals weigh what was read.
  ghost predicate WeighsWhatWasRead(xs: seq<Interval>, db: Db, services: Services, query: Query, from: Instant, to: Instant,
                                    lookback: int, calendar: seq<Interval>)
  {
    forall t :: IntervalLoad(xs, t)
             == Load(RequotedRows(db.bookings, services), query.now, ReadIds(db, query, from, to, lookback), t) + IntervalLoad(calendar, t)
  }

  method AnswerDay(db: Db, ghost services: Services, query: Query, day: Day, ghost from: Instant, ghost to: Instant,
                   ghost lookback: int, defaults: seq<CapacityDefault>, xs: seq<Interval>, ghost calendar: seq<Interval>)
    returns (answer: DayAnswer)
    requires ValidServices(services) && CoversEveryService(lookback, services) && query.service.Valid() && 1 <= query.units
    requires WellFormed(db.bookings) && AllUsable(calendar) && AllUsable(xs)
    requires ListsDefaults(defaults, db.capacityDefaults) && DaysOf([day], query, from, to)
    requires WeighsWhatWasRead(xs, db, services, query, from, to, lookback, calendar)
    ensures DayAnswered(db, services, query, day, answer, from, to, lookback, calendar)
  {
    assert [day][0] == day;
    var override := if day.date in db.dayOverrides then Some(db.dayOverrides[day.date]) else None;
    var capacity := CapacityForDate(day.date, query.baseCapacity, defaults, override, db);
    var status, offers := AvailabilityForDay(day.slots, xs, query.service, query.units, capacity, query.policy, query.now, day.slots != []);
    answer := DayAnswer(status, offers);
    OffersWhatWasRead(db, services, query, day, answer, from, to, lookback, xs, calendar, capacity);
    if Unchanged(db.bookings, services) {
      UnchangedRowsAreRequoted(db.bookings, services);
      DayIsAnswered(db, services, query, day, answer, from, to, lookback, xs, calendar, capacity);
      if calendar == [] && query.exclude.None? {
        DayReportsRoom(db, services, query, day, answer, from, to, lookback, xs, capacity);
      }
    }
  }

  lemma OffersWhatWasRead(db: Db, services: Services, query: Query, day: Day, answer: DayAnswer, from: Instant, to: Instant,
                          lookback: int, xs: seq<Interval>, calendar: seq<Interval>, capacity: int)
    requires query.service.Valid() && 1 <= query.units && AllUsable(xs)
    requires WeighsWhatWasRead(xs, db, services, query, from, to, lookback, calendar)
    requires capacity == CapacityOn(db, day.date, query.baseCapacity)
    requires SlotsOf(day.slots, query.service)
    requires answer.status == DayClosed ==> answer.offers == []
    requires answer.status == DayClosed <==> capacity <= 0 || day.slots == []
    requires answer.status != DayClosed ==>
               && answer.offers == OffersOf(day.slots, xs, query.service, query.units, capacity, query.policy, query.now)
               && answer.status == if answer.offers == [] then DayFull
                                   else if |answer.offers| <= query.policy.limitedThreshold then DayLimited else DayOpen
    requires answer.status != DayClosed ==> forall slot | slot in day.slots ::
               Offered(answer.offers, slot.utcStart)
               <==> Requestable(query, slot.utcStart)
                    && RoomThroughout(xs, slot.utcStart, slot.utcEnd + query.service.turnaroundMin * 60000, query.units, capacity)
    ensures OffersAsRead(db, services, query, day, answer, from, to, lookback, calendar)
  {
    forall offer | offer in answer.offers ensures exists slot | slot in day.slots :: slot.utcStart == offer.start {
      var k :| 0 <= k < |answer.offers| && answer.offers[k] == offer;
      OfferComesFromASlot(day.slots, xs, query.service, query.units, capacity, query.policy, query.now, k);
    }
    forall slot | slot in day.slots
      ensures Offered(answer.offers, slot.utcStart)
         <==> Requestable(query, slot.utcStart) && RoomAsRead(db, services, query, day.date, slot, from, to, lookback, calendar)
    {
      var free := slot.utcEnd + query.service.turnaroundMin * 60000;
      assert RoomThroughout(xs, slot.utcStart, free, query.units, capacity)
        <==> RoomAsRead(db, services, query, day.date, slot, from, to, lookback, calendar)
      by { RoomReadIsRoom(db, services, query, day.date, slot, from, to, lookback, xs, calendar, capacity); }
      if answer.status == DayClosed {
        LoadWithinTotal(xs, slot.utcStart);
        assert !RoomThroughout(xs, slot.utcStart, free, query.units, capacity) by {
          assert slot.utcStart < free && IntervalLoad(xs, slot.utcStart) + query.units > capacity;
        }
      }
    }
  }

  lemma RoomReadIsRoom(db: Db, services: Services, query: Query, date: Date, slot: Slot, from: Instant, to: Instant,
                       lookback: int, xs: seq<Interval>, calendar: seq<Interval>, capacity: int)
    requires WeighsWhatWasRead(xs, db, services, query, from, to, lookback, calendar)
    requires capacity == CapacityOn(db, date, query.baseCapacity)
    ensures RoomThroughout(xs, slot.utcStart, slot.utcEnd + query.service.turnaroundMin * 60000, query.units, capacity)
       <==> RoomAsRead(db, services, query, date, slot, from, to, lookback, calendar)
  {
    var free := slot.utcEnd + query.service.turnaroundMin * 60000;
    if RoomAsRead(db, services, query, date, slot, from, to, lookback, calendar) {
      forall t | slot.utcStart <= t < free ensures IntervalLoad(xs, t) + query.units <= capacity {
        assert Load(RequotedRows(db.bookings, services), query.now, ReadIds(db, query, from, to, lookback), t)
             + IntervalLoad(calendar, t) + query.units <= capacity;
      }
    }
    if RoomThroughout(xs, slot.utcStart, free, query.units, capacity) {
      forall t | slot.utcStart <= t < free
        ensures Load(RequotedRows(db.bookings, services), query.now, ReadIds(db, query, from, to, lookback), t)
              + IntervalLoad(calendar, t) + query.units <= capacity
      {
        assert IntervalLoad(xs, t) + query.units <= capacity;
      }
    }
  }

  // The listed bookings are the ones read, so an unknown service among them is one that was read.
  lemma UnknownServiceIsListed(db: Db, services: Services, query: Query, from: Instant, to: Instant, lookback: int, listed: seq<Listed>)
    requires ListsExactly(listed, db.bookings, RangeIds(db.bookings, from - lookback * 60000, to))
    ensures (exists k :: 0 <= k < |listed| && Counted(listed[k], query.now, query.exclude) && listed[k].row.serviceSlug !in services)
       <==> ReadsUnknownService(db, services, query, from, to, lookback)
  {
    if k :| 0 <= k < |listed| && Counted(listed[k], query.now, query.exclude) && listed[k].row.serviceSlug !in services {
      assert listed[k].id in ReadIds(db, query, from, to, lookback);
    }
    if i: nat :| i < |db.bookings| && i in ReadIds(db, query, from, to, lookback)
                 && Active(db.bookings[i], query.now) && db.bookings[i].serviceSlug !in services {
      var k :| 0 <= k < |listed| && listed[k].id == i;
      assert Counted(listed[k], query.now, query.exclude);
    }
  }

  // None stands for the range error of a booking read whose service is not configured.
  method AvailabilityPayload(db: Db, services: Services, query: Query, days: seq<Day>, from: Instant, to: Instant,
                             defaults: seq<CapacityDefault>, calendar: seq<Interval>)
    returns (answers: Option<seq<DayAnswer>>)
    requires ValidServices(services) && query.service.Valid() && 1 <= query.units
    requires WellFormed(db.bookings) && AllUsable(calendar)
    requires ListsDefaults(defaults, db.capacityDefaults) && DaysOf(days, query, from, to)
    // whatever the configuration has become, the answer is what the bookings read leave free
    ensures forall lookback | IsLookback(lookback, services) ::
              && (answers.None? <==> ReadsUnknownService(db, services, query, from, to, lookback))
              && (answers.Some? ==> |answers.value| == |days| && forall d | 0 <= d < |days| ::
                    OffersAsRead(db, services, query, days[d], answers.value[d], from, to, lookback, calendar))
    // and what the store does, while every booking still matches its service
    ensures Unchanged(db.bookings, services) ==>
              && answers.Some? && |answers.value| == |days|
              && (forall d | 0 <= d < |days| :: AnswersDay(db, query, days[d], answers.value[d], to, calendar))
              && (forall d, slot | 0 <= d < |days| && slot in days[d].slots ::
                    AgreesWithTheStore(db, query, days[d].date, slot, Offered(answers.value[d].offers, slot.utcStart), to, calendar == []))
              && (calendar == [] && query.exclude.None? ==>
                    forall d | 0 <= d < |days| :: ReportsRoom(db, query, days[d], answers.value[d], to))
  {
    var lookback := LongestOccupation(services);
    var since := from - lookback * MINUTE_MS;
    var listed := ListOccupancyBookings(db.bookings, since, to);
    ghost var ids := RangeIds(db.bookings, since, to);
    var intervals := GetOccupancyIntervals(listed, calendar, services, query.now, query.exclude, db.bookings, ids);
    UnknownServiceIsListed(db, services, query, from, to, lookback, listed);
    forall other | IsLookback(other, services) ensures other == lookback { LookbackIsUnique(other, lookback, services); }
    if Unchanged(db.bookings, services) { UnchangedServicesAreKnown(db.bookings, services); }
    if intervals.None? { return None; }
    var result := AnswerDays(db, services, query, days, from, to, lookback, defaults, intervals.value, calendar);
    answers := Some(result);
    forall d | 0 <= d < |days| ensures OffersAsRead(db, services, query, days[d], result[d], from, to, lookback, calendar) {
      assert DayAnswered(db, services, query, days[d], result[d], from, to, lookback, calendar);
    }
    if Unchanged(db.bookings, services) {
      UnchangedDaysAreAnswered(db, services, query, days, result, from, to, lookback, calendar);
    }
  }

  // One interval list serves every day.
  method AnswerDays(db: Db, ghost services: Services, query: Query, days: seq<Day>, ghost from: Instant, ghost to: Instant,
                    ghost lookback: int, defaults: seq<CapacityDefault>, xs: seq<Interval>, ghost calendar: seq<Interval>)
    returns (answers: seq<DayAnswer>)
    requires ValidServices(services) && CoversEveryService(lookback, services) && query.service.Valid() && 1 <= query.units
    requires WellFormed(db.bookings) && AllUsable(calendar) && AllUsable(xs)
    requires ListsDefaults(defaults, db.capacityDefaults) && DaysOf(days, query, from, to)
    requires WeighsWhatWasRead(xs, db, services, query, from, to, lookback, calendar)
    ensures |answers| == |days|
    ensures forall d | 0 <= d < |days| :: DayAnswered(db, services, query, days[d], answers[d], from, to, lookback, calendar)
  {
    answers := [];
    for d := 0 to |days|
      invariant |answers| == d
      invariant forall e | 0 <= e < d :: DayAnswered(db, services, query, days[e], answers[e], from, to, lookback, calendar)
    {
      var answer := AnswerDay(db, services, query, days[d], from, to, lookback, defaults, xs, calendar);
      answers := answers + [answer];
    }
  }

  ghost predicate DayAnswered(db: Db, services: Services, query: Query, day: Day, answer: DayAnswer, from: Instant, to: Instant,
                              lookback: int, calendar: seq<Interval>)
    requires 1 <= query.units
  {
    && OffersAsRead(db, services, query, day, answer, from, to, lookback, calendar)
    && (Unchanged(db.bookings, services) ==> AnswersDay(db, query, day, answer, to, calendar))
    && (Unchanged(db.bookings, services) && calendar == [] && query.exclude.None? ==> ReportsRoom(db, query, day, answer, to))
  }

  lemma UnchangedDaysAreAnswered(db: Db, services: Services, query: Query, days: seq<Day>, answers: seq<DayAnswer>, from: Instant,
                                 to: Instant, lookback: int, calendar: seq<Interval>)
    requires 1 <= query.units && |answers| == |days| && Unchanged(db.bookings, services)
    requires forall d | 0 <= d < |days| :: DayAnswered(db, services, query, days[d], answers[d], from, to, lookback, calendar)
    ensures forall d | 0 <= d < |days| :: AnswersDay(db, query, days[d], answers[d], to, calendar)
    ensures forall d, slot | 0 <= d < |days| && slot in days[d].slots ::
              AgreesWithTheStore(db, query, days[d].date, slot, Offered(answers[d].offers, slot.utcStart), to, calendar == [])
    ensures calendar == [] && query.exclude.None? ==> forall d | 0 <= d < |days| :: ReportsRoom(db, query, days[d], answers[d], to)
  {
    forall d | 0 <= d < |days| ensures AnswersDay(db, query, days[d], answers[d], to, calendar) {
      assert DayAnswered(db, services, query, days[d], answers[d], from, to, lookback, calendar);
    }
    forall d, slot | 0 <= d < |days| && slot in days[d].slots {
      AnswerAgreesWithTheStore(db, query, days[d], answers[d], to, calendar, slot);
    }
    if calendar == [] && query.exclude.None? {
      forall d | 0 <= d < |days| ensures ReportsRoom(db, query, days[d], answers[d], to) {
        assert DayAnswered(db, services, query, days[d], answers[d], from, to, lookback, calendar);
      }
    }
  }

  lemma UnchangedServicesAreKnown(rows: seq<Booking>, services: Services)
    requires Unchanged(rows, services)
    ensures forall i: nat | i < |rows| :: rows[i].serviceSlug in services
  {
    forall i: nat | i < |rows| ensures rows[i].serviceSlug in services {
      assert ConfigAgrees(rows[i], services);
    }
  }

  // Inside the range, the bookings read are all that matter.
  lemma RangeLoadIsExact(rows: seq<Booking>, services: Services, now: Instant, exclude: Option<BookingId>,
                         from: Instant, to: Instant, lookback: int, t: Instant)
    requires ValidServices(services) && CoversEveryService(lookback, services)
    requires WellFormed(rows) && Unchanged(rows, services) && from <= t < to
    ensures Load(rows, now, RangeIds(rows, from - lookback * MINUTE_MS, to) - Excluded(exclude), t)
         == Load(rows, now, ALL - Excluded(exclude), t)
  {
    var ids := RangeIds(rows, from - lookback * MINUTE_MS, to) - Excluded(exclude);
    forall i: nat | i < |rows| && i in ALL - Excluded(exclude) && InUse(rows[i], now, t)
      ensures i in ids
    {
      var s := services[rows[i].serviceSlug];
      assert (s.durationMin + s.turnaroundMin) * MINUTE_MS <= lookback * MINUTE_MS;
    }
    LoadEqual(rows, now, ids, t, rows, now, ALL - Excluded(exclude), t);
  }

  // Past the range, reading fewer bookings only makes a window look emptier.
  lemma RangeLoadIsAtMost(rows: seq<Booking>, now: Instant, exclude: Option<BookingId>, since: Instant, to: Instant, t: Instant)
    requires WellFormed(rows)
    ensures Load(rows, now, RangeIds(rows, since, to) - Excluded(exclude), t) <= Load(rows, now, ALL - Excluded(exclude), t)
  {
    LoadAtMost(rows, now, RangeIds(rows, since, to) - Excluded(exclude), t, rows, now, ALL - Excluded(exclude), t);
  }

  lemma DayIsAnswered(db: Db, services: Services, query: Query, day: Day, answer: DayAnswer, from: Instant, to: Instant,
                      lookback: int, xs: seq<Interval>, calendar: seq<Interval>, capacity: int)
    requires ValidServices(services) && CoversEveryService(lookback, services) && query.service.Valid() && 1 <= query.units
    requires WellFormed(db.bookings) && Unchanged(db.bookings, services) && AllUsable(calendar) && AllUsable(xs)
    requires SlotsOf(day.slots, query.service)
    requires forall k | 0 <= k < |day.slots| :: from <= day.slots[k].utcStart < to
    requires capacity == CapacityOn(db, day.date, query.baseCapacity)
    requires forall t :: IntervalLoad(xs, t)
                      == Load(db.bookings, query.now, RangeIds(db.bookings, from - lookback * MINUTE_MS, to) - Excluded(query.exclude), t)
                         + IntervalLoad(calendar, t)
    requires answer.status == DayClosed ==> answer.offers == [] && (capacity <= 0 || day.slots == [])
    requires answer.status != DayClosed ==>
               answer.offers == OffersOf(day.slots, xs, query.service, query.units, capacity, query.policy, query.now)
    ensures AnswersDay(db, query, day, answer, to, calendar)
  {
    forall slot | slot in day.slots
      ensures Offered(answer.offers, slot.utcStart) && FreeAfter(slot, query.service) <= to ==> Sellable(db, query, day.date, slot)
      ensures calendar == [] && Sellable(db, query, day.date, slot) ==> Offered(answer.offers, slot.utcStart)
      ensures Offered(answer.offers, slot.utcStart) ==> InRequestWindow(slot, query.policy, query.now)
    {
      if answer.status != DayClosed {
        OfferedExactlyWhenRoom(day.slots, xs, query.service, query.units, capacity, query.policy, query.now, slot);
      }
      NoCapacityNoRoom(db, query, day.date, slot);
      RoomIsRoom(db, services, query, slot, from, to, lookback, xs, calendar, capacity);
    }
  }

  lemma RoomIsRoom(db: Db, services: Services, query: Query, slot: Slot, from: Instant, to: Instant,
                   lookback: int, xs: seq<Interval>, calendar: seq<Interval>, capacity: int)
    requires ValidServices(services) && CoversEveryService(lookback, services)
    requires WellFormed(db.bookings) && Unchanged(db.bookings, services) && AllUsable(calendar)
    requires from <= slot.utcStart
    requires forall t :: IntervalLoad(xs, t)
                      == Load(db.bookings, query.now, RangeIds(db.bookings, from - lookback * MINUTE_MS, to) - Excluded(query.exclude), t)
                         + IntervalLoad(calendar, t)
    ensures FreeAfter(slot, query.service) <= to && RoomThroughout(xs, slot.utcStart, FreeAfter(slot, query.service), query.units, capacity)
        ==> Fits(db.bookings, query.now, Others(query), slot.utcStart, FreeAfter(slot, query.service), query.units, capacity)
    ensures calendar == [] && Fits(db.bookings, query.now, Others(query), slot.utcStart, FreeAfter(slot, query.service), query.units, capacity)
        ==> RoomThroughout(xs, slot.utcStart, FreeAfter(slot, query.service), query.units, capacity)
  {
    forall t | slot.utcStart <= t < FreeAfter(slot, query.service)
      ensures FreeAfter(slot, query.service) <= to ==> Load(db.bookings, query.now, Others(query), t) <= IntervalLoad(xs, t)
      ensures calendar == [] ==> IntervalLoad(xs, t) <= Load(db.bookings, query.now, Others(query), t)
    {
      if FreeAfter(slot, query.service) <= to {
        RangeLoadIsExact(db.bookings, services, query.now, query.exclude, from, to, lookback, t);
      }
      LoadWithinTotal(calendar, t);
      RangeLoadIsAtMost(db.bookings, query.now, query.exclude, from - lookback * MINUTE_MS, to, t);
    }
  }

  lemma NoCapacityNoRoom(db: Db, query: Query, date: Date, slot: Slot)
    requires WellFormed(db.bookings) && 1 <= query.units && slot.utcStart < FreeAfter(slot, query.service)
    ensures Admissible(db, query, date, slot) ==> query.units <= CapacityOn(db, date, query.baseCapacity)
  {
    LoadNonNegative(db.bookings, query.now, Others(query), slot.utcStart);
    if Admissible(db, query, date, slot) {
      assert Load(db.bookings, query.now, Others(query), slot.utcStart) + query.units <= CapacityOn(db, date, query.baseCapacity);
    }
  }

  // ----- where the range ends

  // On every table the range read agrees with the whole table about this window.
  ghost predicate RangeReadSuffices(services: Services, now: Instant, from: Instant, to: Instant, lookback: int,
                                    start: Instant, free: Instant, units: int, capacity: int)
    requires ValidServices(services)
  {
    forall rows: seq<Booking> | WellFormed(rows) && AsSold(rows, services) ::
      Fits(rows, now, RangeIds(rows, from - lookback * MINUTE_MS, to), start, free, units, capacity)
      <==> Fits(rows, now, ALL, start, free, units, capacity)
  }

  // A window inside the range is read exactly; one that runs past it is misjudged on some table,
  // unless the party could never fit.
  lemma RangeReadSufficesExactlyInsideTheRange(services: Services, slug: string, now: Instant, from: Instant, to: Instant,
                                               lookback: int, start: Instant, free: Instant, units: int, capacity: int)
    requires ValidServices(services) && CoversEveryService(lookback, services) && slug in services
    requires from <= start < to && start < free
    ensures RangeReadSuffices(services, now, from, to, lookback, start, free, units, capacity)
       <==> free <= to || capacity < units
  {
    if free <= to || capacity < units {
      forall rows: seq<Booking> | WellFormed(rows) && AsSold(rows, services)
        ensures Fits(rows, now, RangeIds(rows, from - lookback * MINUTE_MS, to), start, free, units, capacity)
           <==> Fits(rows, now, ALL, start, free, units, capacity)
      {
        WindowIsReadWhole(rows, services, now, from, to, lookback, start, free, units, capacity);
      }
    } else {
      LateBookingIsMissed(services, slug, now, from, to, lookback, start, free, units, capacity);
    }
  }

  lemma WindowIsReadWhole(rows: seq<Booking>, services: Services, now: Instant, from: Instant, to: Instant,
                          lookback: int, start: Instant, free: Instant, units: int, capacity: int)
    requires ValidServices(services) && CoversEveryService(lookback, services)
    requires WellFormed(rows) && Unchanged(rows, services)
    requires from <= start < free && (free <= to || capacity < units)
    ensures Fits(rows, now, RangeIds(rows, from - lookback * MINUTE_MS, to), start, free, units, capacity)
       <==> Fits(rows, now, ALL, start, free, units, capacity)
  {
    var ids := RangeIds(rows, from - lookback * MINUTE_MS, to);
    if free <= to {
      forall t | start <= t < free
        ensures Load(rows, now, ids, t) == Load(rows, now, ALL, t)
      {
        RangeLoadIsExact(rows, services, now, None, from, to, lookback, t);
        LoadAgree(rows, now, ids, ids - Excluded(None), t);
        LoadAgree(rows, now, ALL, ALL - Excluded(None), t);
      }
    } else {
      LoadNonNegative(rows, now, ids, start);
      LoadNonNegative(rows, now, ALL, start);
    }
  }

  // One person each, one after another into the same slot.
  function SoloParties(slug: string, s: Service, at: Instant, n: nat): (rows: seq<Booking>)
    ensures |rows| == n
    ensures forall i | 0 <= i < n :: rows[i] == SoloParty(slug, s, at, i)
  {
    if n == 0 then [] else SoloParties(slug, s, at, n - 1) + [SoloParty(slug, s, at, n - 1)]
  }

  function SoloParty(slug: string, s: Service, at: Instant, i: nat): Booking {
    var ends := at + s.durationMin * MINUTE_MS;
    Booking(seq(i + 1, _ => 'n'), slug, 1, at, ends, 0, Confirmed, None, None, Some(1),
            Some(ends + s.turnaroundMin * MINUTE_MS), None, 0, None, None, None, None, 0)
  }

  lemma {:induction false} SoloPartiesLoad(slug: string, s: Service, at: Instant, n: nat, now: Instant, ids: iset<BookingId>, t: Instant)
    requires s.Valid()
    ensures t == at && (forall i: nat | i < n :: i in ids) ==> Load(SoloParties(slug, s, at, n), now, ids, t) == n
    ensures t < at || (forall i: nat | i < n :: i !in ids) ==> Load(SoloParties(slug, s, at, n), now, ids, t) == 0
  {
    if n != 0 {
      SoloPartiesLoad(slug, s, at, n - 1, now, ids, t);
      LoadAppend(SoloParties(slug, s, at, n - 1), SoloParty(slug, s, at, n - 1), now, ids, t);
    }
  }

  lemma OnePersonTakesOneUnit(s: Service)
    requires s.Valid()
    ensures OccupancyFor(s, 1) == Some(1)
  {
    if s.seatsPerUnit.Some? {
      var seats, units := s.seatsPerUnit.value, OccupancyFor(s, 1).value;
      assert (3 - units) * seats == 2 * seats - (units - 1) * seats;
      AtMostOneTimes(3 - units, seats);
    }
  }

  lemma LateBookingIsMissed(services: Services, slug: string, now: Instant, from: Instant, to: Instant,
                            lookback: int, start: Instant, free: Instant, units: int, capacity: int)
    requires ValidServices(services) && slug in services
    requires from <= start < to < free && units <= capacity
    ensures !RangeReadSuffices(services, now, from, to, lookback, start, free, units, capacity)
  {
    var s, n := services[slug], capacity - units + 1;
    var rows := SoloParties(slug, s, to, n);
    OnePersonTakesOneUnit(s);
    assert WellFormed(rows) && AsSold(rows, services);
    var ids := RangeIds(rows, from - lookback * MINUTE_MS, to);
    forall t | start <= t < free ensures Load(rows, now, ids, t) == 0 {
      SoloPartiesLoad(slug, s, to, n, now, ids, t);
    }
    SoloPartiesLoad(slug, s, to, n, now, ALL, to);
    assert Load(rows, now, ALL, to) + units == capacity + 1;
    assert Fits(rows, now, ids, start, free, units, capacity);
    assert !Fits(rows, now, ALL, start, free, units, capacity);
  }

  // ----- how many more fit

  // The largest load over the window.
  ghost predicate IsPeakLoad(rows: seq<Booking>, now: Instant, from: Instant, to: Instant, m: int) {
    && (forall t | from <= t < to :: Load(rows, now, ALL, t) <= m)
    && (exists t :: from <= t < to && Load(rows, now, ALL, t) == m)
  }

  // The same request under a fresh reference each time.
  ghost function InsertEach(db: Db, hold: HoldInput, references: seq<string>): Db {
    if references == [] then db
    else
      var last := |references| - 1;
      InsertHold(InsertEach(db, hold, references[..last]), hold.(reference := references[last])).0
  }

  ghost predicate FreshReferences(rows: seq<Booking>, references: seq<string>) {
    && (forall k | 0 <= k < |references| :: !ReferenceUsed(rows, references[k]))
    && (forall j, k | 0 <= j < k < |references| :: references[j] != references[k])
  }

  ghost predicate Repeatable(db: Db, hold: HoldInput) {
    hold.Valid() && hold.maxActiveHoldsForIp.None? && hold.createdAt <= hold.holdExpiresAt && WellFormed(db.bookings)
  }

  // After k admissions the window carries k parties more, everywhere.
  ghost predicate Stacked(db: Db, db': Db, hold: HoldInput, k: nat) {
    && db'.dayOverrides == db.dayOverrides && db'.capacityDefaults == db.capacityDefaults
    && |db'.bookings| == |db.bookings| + k
    && WellFormed(db'.bookings)
    && forall t | hold.startsAt <= t < hold.occupancyEndsAt ::
         Load(db'.bookings, hold.createdAt, ALL, t) == Load(db.bookings, hold.createdAt, ALL, t) + k * hold.occupancyUnits
  }

  // Exactly floor((capacity - peak) / units) more holds of the party are admitted, one after
  // another, and the next one is refused.
  lemma {:induction false} RemainingBookingsIsExact(db: Db, hold: HoldInput, references: seq<string>, peak: int, capacity: int)
    requires Repeatable(db, hold) && FreshReferences(db.bookings, references)
    requires IsPeakLoad(db.bookings, hold.createdAt, hold.startsAt, hold.occupancyEndsAt, peak) && peak <= capacity
    requires capacity == CapacityOn(db, hold.localDate, hold.defaultCapacity)
    requires |references| <= (capacity - peak) / hold.occupancyUnits
    ensures Stacked(db, InsertEach(db, hold, references), hold, |references|)
    ensures forall r :: ReferenceUsed(InsertEach(db, hold, references).bookings, r) ==> ReferenceUsed(db.bookings, r) || r in references
    ensures forall reference | !ReferenceUsed(db.bookings, reference) && reference !in references ::
              InsertHold(InsertEach(db, hold, references), hold.(reference := reference)).1
              == if |references| < (capacity - peak) / hold.occupancyUnits
                 then Created(|db.bookings| + |references|) else NoCapacity
  {
    if references != [] {
      var last := |references| - 1;
      RemainingBookingsIsExact(db, hold, references[..last], peak, capacity);
      AdmittedPartyStacks(db, InsertEach(db, hold, references[..last]), hold.(reference := references[last]), hold, last);
    }
    StackedRoom(db, InsertEach(db, hold, references), hold, |references|, peak, capacity);
  }

  lemma AdmittedPartyStacks(db: Db, db': Db, again: HoldInput, hold: HoldInput, k: nat)
    requires Repeatable(db, hold) && Stacked(db, db', hold, k) && again == hold.(reference := again.reference)
    requires InsertHold(db', again).1 == Created(|db'.bookings|)
    ensures Stacked(db, InsertHold(db', again).0, hold, k + 1)
  {
    var b := NewHold(again);
    forall t | hold.startsAt <= t < hold.occupancyEndsAt
      ensures Load(db'.bookings + [b], hold.createdAt, ALL, t) == Load(db.bookings, hold.createdAt, ALL, t) + (k + 1) * hold.occupancyUnits
    {
      LoadAppend(db'.bookings, b, hold.createdAt, ALL, t);
    }
  }

  lemma StackedRoom(db: Db, db': Db, hold: HoldInput, k: nat, peak: int, capacity: int)
    requires Repeatable(db, hold) && Stacked(db, db', hold, k)
    requires IsPeakLoad(db.bookings, hold.createdAt, hold.startsAt, hold.occupancyEndsAt, peak)
    requires capacity == CapacityOn(db, hold.localDate, hold.defaultCapacity) && peak <= capacity
    ensures AdmitsHold(db', hold) <==> k < (capacity - peak) / hold.occupancyUnits
  {
    CapacityIsUnique(db, hold.localDate, hold.defaultCapacity, CapacityOn(db', hold.localDate, hold.defaultCapacity));
    var units := hold.occupancyUnits;
    QuotientBound(capacity - peak, units, k);
    var top :| hold.startsAt <= top < hold.occupancyEndsAt && Load(db.bookings, hold.createdAt, ALL, top) == peak;
    if AdmitsHold(db', hold) {
      assert Load(db'.bookings, hold.createdAt, ALL, top) + units <= capacity;
    }
  }

  lemma QuotientBound(room: int, units: int, k: nat)
    requires 1 <= units && 0 <= room
    ensures k < room / units <==> (k * units) + units <= room
  {
    DivisionBounds(room, units);
    var q := room / units;
    if k < q {
      assert (q - (k + 1)) * units >= 0;
      assert (q - (k + 1)) * units == q * units - (k * units + units);
    } else {
      assert (k - q) * units >= 0;
      assert (k - q) * units == k * units - q * units;
      assert (q + 1) * units == q * units + units;
    }
  }

  lemma {:induction false} OfferValue(slots: seq<Slot>, xs: seq<Interval>, service: Service, units: int, capacity: int,
                                      policy: Policy, now: Instant, k: nat, slot: Slot)
    requires AllUsable(xs) && service.Valid() && SlotsOf(slots, service) && 1 <= units
    requires k < |OffersOf(slots, xs, service, units, capacity, policy, now)|
    requires slot in slots && OffersOf(slots, xs, service, units, capacity, policy, now)[k].start == slot.utcStart
    ensures var used := Peak(xs, slot.utcStart, FreeAfter(slot, service));
            used + units <= capacity
            && OffersOf(slots, xs, service, units, capacity, policy, now)[k]
               == AvailableSlot(slot.utcStart, capacity - used, (capacity - used) / units)
  {
    var last := |slots| - 1;
    var rest := OffersOf(slots[..last], xs, service, units, capacity, policy, now);
    if k < |rest| {
      OfferComesFromASlot(slots[..last], xs, service, units, capacity, policy, now, k);
      assert slot in slots[..last];
      OfferValue(slots[..last], xs, service, units, capacity, policy, now, k, slot);
    } else {
      assert slots[last] == slot;
    }
  }

  lemma {:induction false} OfferComesFromASlot(slots: seq<Slot>, xs: seq<Interval>, service: Service, units: int, capacity: int,
                                               policy: Policy, now: Instant, k: nat)
    requires AllUsable(xs) && service.Valid() && SlotsOf(slots, service) && 1 <= units
    requires k < |OffersOf(slots, xs, service, units, capacity, policy, now)|
    ensures var start := OffersOf(slots, xs, service, units, capacity, policy, now)[k].start;
            Slot(start, start + service.durationMin * MINUTE_MS) in slots
  {
    var last := |slots| - 1;
    if k < |OffersOf(slots[..last], xs, service, units, capacity, policy, now)| {
      OfferComesFromASlot(slots[..last], xs, service, units, capacity, policy, now, k);
    } else {
      assert slots[last] in slots;
    }
  }

  lemma DayReportsRoom(db: Db, services: Services, query: Query, day: Day, answer: DayAnswer, from: Instant, to: Instant,
                       lookback: int, xs: seq<Interval>, capacity: int)
    requires ValidServices(services) && CoversEveryService(lookback, services) && query.service.Valid() && 1 <= query.units
    requires WellFormed(db.bookings) && Unchanged(db.bookings, services) && AllUsable(xs) && query.exclude.None?
    requires SlotsOf(day.slots, query.service)
    requires forall k | 0 <= k < |day.slots| :: from <= day.slots[k].utcStart < to
    requires capacity == CapacityOn(db, day.date, query.baseCapacity)
    requires forall t :: IntervalLoad(xs, t)
                      == Load(db.bookings, query.now, RangeIds(db.bookings, from - lookback * MINUTE_MS, to) - Excluded(query.exclude), t)
    requires answer.status == DayClosed ==> answer.offers == []
    requires answer.status != DayClosed ==>
               answer.offers == OffersOf(day.slots, xs, query.service, query.units, capacity, query.policy, query.now)
    ensures ReportsRoom(db, query, day, answer, to)
  {
    forall k: nat, slot | k < |answer.offers| && slot in day.slots && answer.offers[k].start == slot.utcStart
                          && FreeAfter(slot, query.service) <= to
      ensures RoomReported(db, query, day.date, slot.utcStart, slot.utcEnd + query.service.turnaroundMin * 60000, answer.offers[k])
    {
      OfferReportsRoom(db, services, query, day, answer.offers, from, to, lookback, xs, capacity, k, slot);
    }
  }

  lemma OfferReportsRoom(db: Db, services: Services, query: Query, day: Day, offers: seq<AvailableSlot>, from: Instant, to: Instant,
                         lookback: int, xs: seq<Interval>, capacity: int, k: nat, slot: Slot)
    requires ValidServices(services) && CoversEveryService(lookback, services) && query.service.Valid() && 1 <= query.units
    requires WellFormed(db.bookings) && Unchanged(db.bookings, services) && AllUsable(xs) && query.exclude.None?
    requires SlotsOf(day.slots, query.service)
    requires capacity == CapacityOn(db, day.date, query.baseCapacity)
    requires forall t :: IntervalLoad(xs, t)
                      == Load(db.bookings, query.now, RangeIds(db.bookings, from - lookback * MINUTE_MS, to) - Excluded(query.exclude), t)
    requires offers == OffersOf(day.slots, xs, query.service, query.units, capacity, query.policy, query.now)
    requires k < |offers| && slot in day.slots && offers[k].start == slot.utcStart
    requires from <= slot.utcStart && FreeAfter(slot, query.service) <= to
    ensures RoomReported(db, query, day.date, slot.utcStart, slot.utcEnd + query.service.turnaroundMin * 60000, offers[k])
  {
    var free := FreeAfter(slot, query.service);
    OfferValue(day.slots, xs, query.service, query.units, capacity, query.policy, query.now, k, slot);
    PeakIsTheStores(db, services, query, slot.utcStart, free, from, to, lookback, xs);
    PeakIsReported(db, query, day.date, slot.utcStart, free, offers[k], Peak(xs, slot.utcStart, free), capacity);
  }

  lemma PeakIsReported(db: Db, query: Query, date: Date, start: Instant, free: Instant, offer: AvailableSlot, peak: int, capacity: int)
    requires 1 <= query.units && IsPeakLoad(db.bookings, query.now, start, free, peak)
    requires capacity == CapacityOn(db, date, query.baseCapacity) && peak + query.units <= capacity
    requires offer == AvailableSlot(start, capacity - peak, (capacity - peak) / query.units)
    ensures RoomReported(db, query, date, start, free, offer)
  {
  }

  // Inside the range, the peak of the intervals is the peak of the whole table.
  lemma PeakIsTheStores(db: Db, services: Services, query: Query, start: Instant, free: Instant, from: Instant, to: Instant,
                        lookback: int, xs: seq<Interval>)
    requires ValidServices(services) && CoversEveryService(lookback, services)
    requires WellFormed(db.bookings) && Unchanged(db.bookings, services) && AllUsable(xs) && query.exclude.None?
    requires from <= start < free <= to
    requires forall t :: IntervalLoad(xs, t)
                      == Load(db.bookings, query.now, RangeIds(db.bookings, from - lookback * MINUTE_MS, to) - Excluded(query.exclude), t)
    ensures IsPeakLoad(db.bookings, query.now, start, free, Peak(xs, start, free))
  {
    forall t | start <= t < free
      ensures IntervalLoad(xs, t) == Load(db.bookings, query.now, ALL, t)
    {
      RangeLoadIsExact(db.bookings, services, query.now, None, from, to, lookback, t);
      LoadAgree(db.bookings, query.now, ALL, ALL - Excluded(None), t);
    }
    PeakOfEqualLoads(xs, db.bookings, query.now, start, free, Peak(xs, start, free));
  }

  // The number reported is what can be sold: exactly that many more holds of the party are admitted into
  // the slot, one after another, and the next is refused.
  lemma OfferCountsWhatCanBeSold(db: Db, query: Query, day: Day, answer: DayAnswer, to: Instant, k: nat, slot: Slot,
                                 hold: HoldInput, references: seq<string>, reference: string)
    requires 1 <= query.units && ReportsRoom(db, query, day, answer, to)
    requires k < |answer.offers| && slot in day.slots && answer.offers[k].start == slot.utcStart
    requires slot.utcEnd + query.service.turnaroundMin * 60000 <= to
    requires CheckoutHold(hold, query, day.date, slot) && Repeatable(db, hold)
    requires FreshReferences(db.bookings, references) && !ReferenceUsed(db.bookings, reference) && reference !in references
    requires |references| <= answer.offers[k].remainingBookings
    ensures InsertHold(InsertEach(db, hold, references), hold.(reference := reference)).1
         == if |references| < answer.offers[k].remainingBookings then Created(|db.bookings| + |references|) else NoCapacity
  {
    assert RoomReported(db, query, day.date, hold.startsAt, hold.occupancyEndsAt, answer.offers[k]);
    ReportedRoomIsSold(db, query, day.date, hold, answer.offers[k], references, reference);
  }

  lemma ReportedRoomIsSold(db: Db, query: Query, date: Date, hold: HoldInput, offer: AvailableSlot, references: seq<string>, reference: string)
    requires 1 <= query.units && Repeatable(db, hold)
    requires RoomReported(db, query, date, hold.startsAt, hold.occupancyEndsAt, offer)
    requires hold.occupancyUnits == query.units && hold.localDate == date && hold.defaultCapacity == query.baseCapacity
    requires hold.createdAt == query.now
    requires FreshReferences(db.bookings, references) && !ReferenceUsed(db.bookings, reference) && reference !in references
    requires |references| <= offer.remainingBookings
    ensures InsertHold(InsertEach(db, hold, references), hold.(reference := reference)).1
         == if |references| < offer.remainingBookings then Created(|db.bookings| + |references|) else NoCapacity
  {
    var peak :| IsPeakLoad(db.bookings, query.now, hold.startsAt, hold.occupancyEndsAt, peak)
                && offer.remaining == CapacityOn(db, date, query.baseCapacity) - peak;
    RemainingBookingsIsExact(db, hold, references, peak, CapacityOn(db, date, query.baseCapacity));
  }

  lemma PeakOfEqualLoads(xs: seq<Interval>, rows: seq<Booking>, now: Instant, from: Instant, to: Instant, peak: int)
    requires IsPeak(xs, from, to, peak)
    requires forall t | from <= t < to :: IntervalLoad(xs, t) == Load(rows, now, ALL, t)
    ensures IsPeakLoad(rows, now, from, to, peak)
  {
    var t :| from <= t < to && IntervalLoad(xs, t) == peak;
    assert Load(rows, now, ALL, t) == peak;
  }

  // ----- the recheck of an expired hold whose payment landed

  // The party of a booking, asking for the booking's own slot.
  function RecheckOf(b: Booking, services: Services, baseCapacity: int, now: Instant): Query
    requires ValidServices(services) && b.serviceSlug in services && 1 <= b.quantity
  {
    Query(services[b.serviceSlug], OccupancyFor(services[b.serviceSlug], b.quantity).value, baseCapacity, Policy(0, 0, 0), now, None)
  }

  // None stands for the range error of an unknown service, its own or one of a booking that was read.
  method ExpiredHoldOversold(db: Db, services: Services, id: BookingId, localDate: Date, baseCapacity: int,
                             defaults: seq<CapacityDefault>, calendar: seq<Interval>, now: Instant)
    returns (oversold: Option<bool>)
    requires ValidServices(services) && WellFormed(db.bookings) && AllUsable(calendar)
    requires ListsDefaults(defaults, db.capacityDefaults)
    requires id < |db.bookings| && 1 <= db.bookings[id].quantity
    ensures db.bookings[id].serviceSlug !in services ==> oversold.None?
    ensures db.bookings[id].serviceSlug in services ==> forall lookback | IsLookback(lookback, services) ::
              var b := db.bookings[id];
              var query := RecheckOf(b, services, baseCapacity, now);
              var until := b.endsAt + query.service.turnaroundMin * 60000;
              && (oversold.None? <==> ReadsUnknownService(db, services, query, b.startsAt, until, lookback))
              && (oversold.Some? ==>
                    (oversold.value <==> !RoomAsRead(db, services, query, localDate, Slot(b.startsAt, b.endsAt), b.startsAt, until,
                                                     lookback, calendar)))
    ensures Unchanged(db.bookings, services) && db.bookings[id].serviceSlug in services ==>
              var b := db.bookings[id];
              var room := HasRoom(db, now, ALL, b.startsAt, OccupiedUntil(b),
                                  OccupancyFor(services[b.serviceSlug], b.quantity).value, localDate, baseCapacity);
              oversold.Some? && (!room ==> oversold.value) && (calendar == [] ==> (oversold.value <==> !room))
  {
    var b := db.bookings[id];
    if b.serviceSlug !in services { return None; }
    var service := services[b.serviceSlug];
    var lookback := LongestOccupation(services);
    forall other | IsLookback(other, services) ensures other == lookback { LookbackIsUnique(other, lookback, services); }
    var since := b.startsAt - lookback * MINUTE_MS;
    var until := b.endsAt + service.turnaroundMin * MINUTE_MS;
    var listed := ListOccupancyBookings(db.bookings, since, until);
    ghost var ids := RangeIds(db.bookings, since, until);
    ghost var query := RecheckOf(b, services, baseCapacity, now);
    var intervals := GetOccupancyIntervals(listed, calendar, services, now, None, db.bookings, ids);
    UnknownServiceIsListed(db, services, query, b.startsAt, until, lookback, listed);
    if Unchanged(db.bookings, services) { UnchangedServicesAreKnown(db.bookings, services); }
    if intervals.None? { return None; }
    var override := if localDate in db.dayOverrides then Some(db.dayOverrides[localDate]) else None;
    var capacity := CapacityForDate(localDate, baseCapacity, defaults, override, db);
    var units := OccupancyFor(service, b.quantity).value;
    var available := IsSlotAvailable(b.startsAt, b.endsAt, service.turnaroundMin, intervals.value, units, capacity);
    oversold := Some(!available);
    RoomReadIsRoom(db, services, query, localDate, Slot(b.startsAt, b.endsAt), b.startsAt, until, lookback, intervals.value, calendar, capacity);
    if Unchanged(db.bookings, services) {
      UnchangedRowsAreRequoted(db.bookings, services);
      WindowReadIsWhole(db.bookings, services, now, b.startsAt, until, lookback, intervals.value, calendar);
      RoomUnderCalendar(intervals.value, calendar, db.bookings, now, b.startsAt, until, units, capacity);
    }
  }

  lemma WindowReadIsWhole(rows: seq<Booking>, services: Services, now: Instant, from: Instant, to: Instant, lookback: int,
                          xs: seq<Interval>, calendar: seq<Interval>)
    requires ValidServices(services) && CoversEveryService(lookback, services)
    requires WellFormed(rows) && Unchanged(rows, services) && AllUsable(calendar)
    requires forall t :: IntervalLoad(xs, t)
                      == Load(rows, now, RangeIds(rows, from - lookback * MINUTE_MS, to) - Excluded(None), t) + IntervalLoad(calendar, t)
    ensures forall t | from <= t < to ::
              IntervalLoad(xs, t) == Load(rows, now, ALL, t) + IntervalLoad(calendar, t) && 0 <= IntervalLoad(calendar, t)
  {
    forall t | from <= t < to
      ensures IntervalLoad(xs, t) == Load(rows, now, ALL, t) + IntervalLoad(calendar, t)
      ensures 0 <= IntervalLoad(calendar, t)
    {
      RangeLoadIsExact(rows, services, now, None, from, to, lookback, t);
      LoadAgree(rows, now, ALL, ALL - Excluded(None), t);
      LoadWithinTotal(calendar, t);
    }
  }

  lemma RoomUnderCalendar(xs: seq<Interval>, calendar: seq<Interval>, rows: seq<Booking>, now: Instant,
                          from: Instant, to: Instant, units: int, capacity: int)
    requires forall t | from <= t < to :: IntervalLoad(xs, t) == Load(rows, now, ALL, t) + IntervalLoad(calendar, t)
    requires forall t | from <= t < to :: 0 <= IntervalLoad(calendar, t)
    ensures RoomThroughout(xs, from, to, units, capacity) ==> Fits(rows, now, ALL, from, to, units, capacity)
    ensures calendar == [] && Fits(rows, now, ALL, from, to, units, capacity) ==> RoomThroughout(xs, from, to, units, capacity)
  {
    forall t | from <= t < to && IntervalLoad(xs, t) + units <= capacity
      ensures Load(rows, now, ALL, t) + units <= capacity
    {
    }
    if RoomThroughout(xs, from, to, units, capacity) {
      forall t | from <= t < to ensures Load(rows, now, ALL, t) + units <= capacity {
        assert IntervalLoad(xs, t) + units <= capacity;
      }
    }
    if calendar == [] && Fits(rows, now, ALL, from, to, units, capacity) {
      forall t | from <= t < to ensures IntervalLoad(xs, t) + units <= capacity {
        assert Load(rows, now, ALL, t) + units <= capacity;
      }
    }
  }
}
