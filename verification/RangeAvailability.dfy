/** The whole answer to a range of dates: its bounds, the slots of each date, and what is offered. */
module RangeAvailability {
  import opened Schema
  import opened Statements
  import opened Usage
  import opened LocalTime
  import opened Schedules
  import S = Slots
  import A = Availability
  import O = Occupancy

  predicate Consecutive(dates: seq<CalendarDate>) {
    forall i | 0 <= i < |dates| :: dates[i].DayNumber() == dates[0].DayNumber() + i
  }

  // A slot as the occupancy side sees it.
  function Plain(slot: S.Slot): A.Slot {
    A.Slot(slot.utcStart, slot.utcEnd)
  }

  // The slot is one the rules generate for the date.
  ghost predicate Generated(z: Zone, schedule: seq<Rule>, duration: int, date: CalendarDate, slot: S.Slot)
    requires AllResolved(schedule)
  {
    S.Genuine(z, duration, date, slot) && S.Offered(schedule, date, slot.minute)
  }

  ghost predicate Midnight(z: Zone, day: int, t: Instant) {
    Answers(z, day * 1440, Some(t))
  }

  // From the first midnight to the one after the last date.
  ghost predicate Bounds(z: Zone, dates: seq<CalendarDate>, from: Instant, to: Instant) {
    dates != [] && Midnight(z, dates[0].DayNumber(), from) && Midnight(z, dates[0].DayNumber() + |dates|, to)
  }

  // Every generated slot of the range begins between its midnights.
  lemma GeneratedSlotsBeginInsideTheRange(z: Zone, schedule: seq<Rule>, duration: int, dates: seq<CalendarDate>, d: nat,
                                          from: Instant, to: Instant, slot: S.Slot)
    requires Regular(z) && ShortFalls(z) && AllResolved(schedule)
    requires Consecutive(dates) && d < |dates| && Bounds(z, dates, from, to)
    requires Generated(z, schedule, duration, dates[d], slot)
    ensures from <= slot.utcStart < to
  {
    var first, day := dates[0].DayNumber(), dates[d].DayNumber();
    assert day == first + d;
    OfferedInTheDay(schedule, dates[d], slot.minute);
    ConvertsBetween(z, first * 1440, day * 1440 + slot.minute, (first + |dates|) * 1440, from, slot.utcStart, to);
  }

  lemma OfferedInTheDay(schedule: seq<Rule>, date: CalendarDate, minute: int)
    requires AllResolved(schedule) && S.Offered(schedule, date, minute)
    ensures TimeOfDay(minute)
  {
  }

  lemma ConvertsBetween(z: Zone, lo: int, wall: int, hi: int, from: Instant, t: Instant, to: Instant)
    requires Regular(z) && ShortFalls(z) && lo <= wall < hi
    requires Answers(z, lo, Some(from)) && Answers(z, wall, Some(t)) && Answers(z, hi, Some(to))
    ensures from <= t < to
  {
    ConversionsKeepOrder(z, wall, hi, t, to);
    if lo < wall {
      ConversionsKeepOrder(z, lo, wall, from, t);
    } else {
      AnswerIsUnique(z, wall, Some(from), Some(t));
    }
  }

  // Without calendar events a generated slot that frees its units by the end of the range is
  // offered exactly when a hold for it would be admitted.
  ghost predicate AnswersDate(db: Db, query: A.Query, z: Zone, schedule: seq<Rule>, date: CalendarDate, answer: A.DayAnswer,
                              to: Instant, calendar: seq<O.Interval>)
    requires AllResolved(schedule)
  {
    forall slot | Generated(z, schedule, query.service.durationMin, date, slot) ::
      && (A.Offered(answer.offers, slot.utcStart) && A.FreeAfter(Plain(slot), query.service) <= to ==>
            A.Sellable(db, query, date.DayNumber(), Plain(slot)))
      && (calendar == [] && A.Sellable(db, query, date.DayNumber(), Plain(slot)) ==> A.Offered(answer.offers, slot.utcStart))
  }

  ghost predicate IsDayOf(z: Zone, schedule: seq<Rule>, duration: int, date: CalendarDate, day: A.Day)
    requires AllResolved(schedule)
  {
    && day.date == date.DayNumber()
    && (forall slot | Generated(z, schedule, duration, date, slot) :: Plain(slot) in day.slots)
    && (forall k | 0 <= k < |day.slots| :: ComesFromTheRules(z, schedule, duration, date, day.slots[k]))
  }

  ghost predicate ComesFromTheRules(z: Zone, schedule: seq<Rule>, duration: int, date: CalendarDate, plain: A.Slot)
    requires AllResolved(schedule)
  {
    exists slot :: Generated(z, schedule, duration, date, slot) && Plain(slot) == plain
  }

  method DaySlots(clock: Converter, schedule: seq<Rule>, duration: int, date: CalendarDate) returns (day: A.Day)
    requires clock.Valid() && AllResolved(schedule)
    modifies clock
    ensures clock.Valid() && IsDayOf(clock.zone, schedule, duration, date, day)
  {
    ghost var shadowed;
    var slots;
    slots, shadowed := S.GenerateSlots(clock, schedule, duration, date);
    day := A.Day(date.DayNumber(), seq(|slots|, i requires 0 <= i < |slots| => Plain(slots[i])));
    forall slot | Generated(clock.zone, schedule, duration, date, slot) ensures Plain(slot) in day.slots {
      var i :| 0 <= i < |slots| && slots[i] == slot;
      assert day.slots[i] == Plain(slot);
    }
    forall k | 0 <= k < |day.slots|
      ensures ComesFromTheRules(clock.zone, schedule, duration, date, day.slots[k])
    {
      assert slots[k] in slots;
      assert Generated(clock.zone, schedule, duration, date, slots[k]) && Plain(slots[k]) == day.slots[k];
    }
  }

  lemma DaysLieInTheRange(z: Zone, schedule: seq<Rule>, query: A.Query, dates: seq<CalendarDate>, days: seq<A.Day>, from: Instant, to: Instant)
    requires Regular(z) && ShortFalls(z) && AllResolved(schedule)
    requires Consecutive(dates) && |days| == |dates| && Bounds(z, dates, from, to)
    requires forall d | 0 <= d < |dates| :: IsDayOf(z, schedule, query.service.durationMin, dates[d], days[d])
    ensures A.DaysOf(days, query, from, to)
  {
    forall d, k | 0 <= d < |days| && 0 <= k < |days[d].slots|
      ensures from <= days[d].slots[k].utcStart < to
      ensures days[d].slots[k].utcEnd == days[d].slots[k].utcStart + query.service.durationMin * O.MINUTE_MS
    {
      assert ComesFromTheRules(z, schedule, query.service.durationMin, dates[d], days[d].slots[k]);
      var slot :| Generated(z, schedule, query.service.durationMin, dates[d], slot) && Plain(slot) == days[d].slots[k];
      GeneratedSlotsBeginInsideTheRange(z, schedule, query.service.durationMin, dates, d, from, to, slot);
    }
  }

  /** None stands for the range error raised when the first date, or the date after the last, has no
      local midnight. */
  method AvailabilityForDates(clock: Converter, db: Db, services: A.Services, query: A.Query, schedule: seq<Rule>,
                              dates: seq<CalendarDate>, defaults: seq<O.CapacityDefault>, calendar: seq<O.Interval>)
    returns (answers: Option<seq<A.DayAnswer>>, to: Instant)
    requires clock.Valid() && ShortFalls(clock.zone) && AllResolved(schedule)
    requires A.ValidServices(services) && query.service.Valid() && 1 <= query.units
    requires WellFormed(db.bookings) && A.Unchanged(db.bookings, services) && O.AllUsable(calendar)
    requires A.ListsDefaults(defaults, db.capacityDefaults)
    requires dates != [] && Consecutive(dates)
    modifies clock
    ensures clock.Valid()
    ensures answers.Some? <==> exists a, b :: Bounds(clock.zone, dates, a, b)
    ensures answers.Some? ==> |answers.value| == |dates| && Midnight(clock.zone, dates[0].DayNumber() + |dates|, to)
    ensures answers.Some? ==> forall d | 0 <= d < |dates| ::
              AnswersDate(db, query, clock.zone, schedule, dates[d], answers.value[d], to, calendar)
    ensures answers.Some? ==>
              forall d, slot | 0 <= d < |dates| && Generated(clock.zone, schedule, query.service.durationMin, dates[d], slot) ::
                A.AgreesWithTheStore(db, query, dates[d].DayNumber(), A.Slot(slot.utcStart, slot.utcEnd),
                                     A.Offered(answers.value[d].offers, slot.utcStart), to, calendar == [])
  {
    ghost var z := clock.zone;
    to := 0;
    var start := clock.LocalDateTimeToUtc(dates[0].DayNumber(), 0);
    var end := clock.LocalDateTimeToUtc(dates[|dates| - 1].DayNumber() + 1, 0);
    if start.None? || end.None? {
      NoBounds(z, dates, start, end);
      return None, 0;
    }
    to := end.value;
    var days: seq<A.Day> := [];
    for d := 0 to |dates|
      invariant clock.Valid() && |days| == d
      invariant forall e | 0 <= e < d :: IsDayOf(z, schedule, query.service.durationMin, dates[e], days[e])
    {
      var day := DaySlots(clock, schedule, query.service.durationMin, dates[d]);
      days := days + [day];
    }
    assert Bounds(z, dates, start.value, end.value);
    DaysLieInTheRange(z, schedule, query, dates, days, start.value, to);
    answers := A.AvailabilityPayload(db, services, query, days, start.value, to, defaults, calendar);
    DatesAreAnswered(z, db, query, schedule, dates, days, answers.value, to, calendar);
  }

  // What the days are answered is what their dates are.
  lemma DatesAreAnswered(z: Zone, db: Db, query: A.Query, schedule: seq<Rule>, dates: seq<CalendarDate>, days: seq<A.Day>,
                         answers: seq<A.DayAnswer>, to: Instant, calendar: seq<O.Interval>)
    requires AllResolved(schedule) && |days| == |dates| == |answers|
    requires forall d | 0 <= d < |dates| :: IsDayOf(z, schedule, query.service.durationMin, dates[d], days[d])
    requires forall d | 0 <= d < |days| :: A.AnswersDay(db, query, days[d], answers[d], to, calendar)
    requires forall d, slot | 0 <= d < |days| && slot in days[d].slots ::
               A.AgreesWithTheStore(db, query, days[d].date, slot, A.Offered(answers[d].offers, slot.utcStart), to, calendar == [])
    ensures forall d | 0 <= d < |dates| :: AnswersDate(db, query, z, schedule, dates[d], answers[d], to, calendar)
    ensures forall d, slot | 0 <= d < |dates| && Generated(z, schedule, query.service.durationMin, dates[d], slot) ::
              A.AgreesWithTheStore(db, query, dates[d].DayNumber(), A.Slot(slot.utcStart, slot.utcEnd),
                                   A.Offered(answers[d].offers, slot.utcStart), to, calendar == [])
  {
    forall d, slot | 0 <= d < |dates| && Generated(z, schedule, query.service.durationMin, dates[d], slot)
      ensures A.AgreesWithTheStore(db, query, dates[d].DayNumber(), A.Slot(slot.utcStart, slot.utcEnd),
                                   A.Offered(answers[d].offers, slot.utcStart), to, calendar == [])
    {
      assert IsDayOf(z, schedule, query.service.durationMin, dates[d], days[d]);
      assert Plain(slot) in days[d].slots;
    }
    forall d | 0 <= d < |dates|
      ensures AnswersDate(db, query, z, schedule, dates[d], answers[d], to, calendar)
    {
      assert A.AnswersDay(db, query, days[d], answers[d], to, calendar);
      assert IsDayOf(z, schedule, query.service.durationMin, dates[d], days[d]);
    }
  }

  lemma NoBounds(z: Zone, dates: seq<CalendarDate>, start: Option<Instant>, end: Option<Instant>)
    requires dates != [] && (start.None? || end.None?)
    requires Answers(z, dates[0].DayNumber() * 1440, start) && Answers(z, (dates[0].DayNumber() + |dates|) * 1440, end)
    ensures forall a, b :: !Bounds(z, dates, a, b)
  {
    forall a, b ensures !Bounds(z, dates, a, b) {
      if Bounds(z, dates, a, b) {
        if start.None? { AnswerIsUnique(z, dates[0].DayNumber() * 1440, start, Some(a)); }
        else { AnswerIsUnique(z, (dates[0].DayNumber() + |dates|) * 1440, end, Some(b)); }
      }
    }
  }
}
