/** The slots a service offers on one date. */
module Slots {
  import opened Schema
  import opened LocalTime
  import opened Schedules

  datatype Slot = Slot(
    start: LocalIso,
    end: LocalIso,
    utcStart: Instant,
    utcEnd: Instant,
    date: CalendarDate,
    minute: int)

  function SlotAt(z: Zone, duration: int, date: CalendarDate, minute: int, t: Instant): Slot {
    Slot(IsoOf(z, t), IsoOf(z, t + duration * MINUTE), t, t + duration * MINUTE, date, minute)
  }

  function WallMinute(date: CalendarDate, minute: int): int {
    date.DayNumber() * 1440 + minute
  }

  // The slot is what its local time converts to: the earliest instant shown as that time.
  ghost predicate Genuine(z: Zone, duration: int, date: CalendarDate, slot: Slot) {
    && slot == SlotAt(z, duration, date, slot.minute, slot.utcStart)
    && Answers(z, WallMinute(date, slot.minute), Some(slot.utcStart))
  }

  // Some rule in force on the date starts a booking at that minute.
  predicate Offered(schedule: seq<Rule>, date: CalendarDate, minute: int)
    requires AllResolved(schedule)
  {
    exists i | 0 <= i < |schedule| :: FiresOn(schedule[i], date) && StartsAt(schedule[i], minute)
  }

  // The rule is in season on the date and on one of its weekdays, and the minute is one of its steps, from its first start
  // to its last.
  predicate StartedByRule(rule: Rule, date: CalendarDate, minute: int) {
    && rule.intervalMin != 0 && rule.lastStart.Some?
    && date.Weekday() in rule.days && MatchesSeason(rule, date.on)
    && rule.firstStart <= minute <= rule.lastStart.value && (minute - rule.firstStart) % rule.intervalMin == 0
  }

  // A slot lasts the service's duration, begins when the local clock shows a start of a rule in force, and is there
  // whenever the clock shows it.
  lemma SlotIsARulesStart(z: Zone, schedule: seq<Rule>, duration: int, date: CalendarDate, slot: Slot)
    requires AllResolved(schedule)
    ensures Genuine(z, duration, date, slot) ==>
              && slot.date == date && slot.utcEnd == slot.utcStart + duration * 60000
              && slot.utcStart / 60000 + z(slot.utcStart) == date.DayNumber() * 1440 + slot.minute
              && slot.start == LocalIso(slot.utcStart + z(slot.utcStart) * 60000, z(slot.utcStart))
              && slot.end == LocalIso(slot.utcEnd + z(slot.utcEnd) * 60000, z(slot.utcEnd))
    ensures Offered(schedule, date, slot.minute) <==> exists i | 0 <= i < |schedule| :: StartedByRule(schedule[i], date, slot.minute)
  {
    forall i | 0 <= i < |schedule|
      ensures StartedByRule(schedule[i], date, slot.minute) <==> FiresOn(schedule[i], date) && StartsAt(schedule[i], slot.minute)
    {
      assert schedule[i].Resolved();
    }
  }

  // Offered by a rule before the i-th, or by the i-th at an earlier minute.
  predicate OfferedBefore(schedule: seq<Rule>, date: CalendarDate, i: nat, bound: int, minute: int)
    requires AllResolved(schedule)
  {
    exists k | 0 <= k < |schedule| ::
      FiresOn(schedule[k], date) && StartsAt(schedule[k], minute) && (k < i || (k == i && minute < bound))
  }

  ghost function MinutesBefore(schedule: seq<Rule>, date: CalendarDate, i: nat, bound: int): iset<int>
    requires AllResolved(schedule)
  {
    iset m | OfferedBefore(schedule, date, i, bound, m)
  }

  lemma NextMinute(schedule: seq<Rule>, date: CalendarDate, i: nat, minutes: int)
    requires AllResolved(schedule)
    requires i < |schedule| && FiresOn(schedule[i], date) && StartsAt(schedule[i], minutes)
    ensures MinutesBefore(schedule, date, i, minutes + schedule[i].intervalMin)
         == MinutesBefore(schedule, date, i, minutes) + iset{minutes}
  {
    var rule := schedule[i];
    forall m | minutes <= m < minutes + rule.intervalMin && StartsAt(rule, m) ensures m == minutes {
      NextOnGrid(rule, minutes, m);
    }
  }

  lemma RuleDone(schedule: seq<Rule>, date: CalendarDate, i: nat, bound: int)
    requires AllResolved(schedule)
    requires i < |schedule| && (FiresOn(schedule[i], date) ==> schedule[i].lastStart.value < bound)
    ensures MinutesBefore(schedule, date, i, bound) == MinutesBefore(schedule, date, i + 1, 0)
  {
    assert forall m | OfferedBefore(schedule, date, i + 1, 0, m) :: OfferedBefore(schedule, date, i, bound, m);
  }

  // With an accepted schedule, no earlier start is the same minute.
  lemma NotShadowed(schedule: seq<Rule>, duration: int, date: CalendarDate, i: nat, minutes: int)
    requires AllResolved(schedule)
    requires i < |schedule| && FiresOn(schedule[i], date) && StartsAt(schedule[i], minutes)
    requires date.Real() && Accepted(schedule, duration)
    ensures !OfferedBefore(schedule, date, i, minutes, minutes)
  {
    forall k | 0 <= k < |schedule| && FiresOn(schedule[k], date) && StartsAt(schedule[k], minutes) ensures k == i {
      AcceptedRulesNeverCollide(schedule, duration, k, i, date, minutes);
    }
  }

  // Two slots under one local start are one slot.
  lemma OneSlotPerStart(z: Zone, duration: int, date: CalendarDate, a: Slot, b: Slot)
    requires Genuine(z, duration, date, a) && Genuine(z, duration, date, b)
    ensures a.start == b.start ==> a == b
    ensures a.utcStart == b.utcStart ==> a == b
    ensures a.minute == b.minute ==> a == b
  {
    if a.utcStart == b.utcStart {
      ConversionsAreInjective(z, WallMinute(date, a.minute), WallMinute(date, b.minute), a.utcStart);
    }
    if a.minute == b.minute {
      AnswerIsUnique(z, WallMinute(date, a.minute), Some(a.utcStart), Some(b.utcStart));
    }
  }

  ghost predicate Catalogued(z: Zone, duration: int, date: CalendarDate, byStart: map<LocalIso, Slot>) {
    forall iso | iso in byStart :: byStart[iso].start == iso && Genuine(z, duration, date, byStart[iso])
  }

  // The catalogue holds the slot of every minute in `seen` that exists, and nothing else.
  ghost predicate Holds(z: Zone, duration: int, date: CalendarDate, byStart: map<LocalIso, Slot>, seen: iset<int>) {
    && Catalogued(z, duration, date, byStart)
    && (forall iso | iso in byStart :: byStart[iso].minute in seen)
    && (forall slot: Slot | slot.minute in seen && Genuine(z, duration, date, slot) :: slot.start in byStart && byStart[slot.start] == slot)
  }

  lemma SkippedMinute(z: Zone, duration: int, date: CalendarDate, byStart: map<LocalIso, Slot>, seen: iset<int>, minute: int)
    requires Holds(z, duration, date, byStart, seen) && Answers(z, WallMinute(date, minute), None)
    ensures Holds(z, duration, date, byStart, seen + iset{minute})
  {
    forall slot: Slot | slot.minute in seen + iset{minute} && Genuine(z, duration, date, slot) ensures slot.minute in seen {
      if slot.minute == minute { AnswerIsUnique(z, WallMinute(date, minute), None, Some(slot.utcStart)); }
    }
  }

  lemma AddedMinute(z: Zone, duration: int, date: CalendarDate, byStart: map<LocalIso, Slot>, seen: iset<int>, slot: Slot)
    requires Holds(z, duration, date, byStart, seen) && Genuine(z, duration, date, slot)
    ensures slot.start in byStart ==> byStart[slot.start] == slot && slot.minute in seen
    ensures Holds(z, duration, date, byStart[slot.start := slot], seen + iset{slot.minute})
  {
    var added := byStart[slot.start := slot];
    if slot.start in byStart { OneSlotPerStart(z, duration, date, byStart[slot.start], slot); }
    forall other: Slot | other.minute in seen + iset{slot.minute} && Genuine(z, duration, date, other)
      ensures other.start in added && added[other.start] == other
    {
      OneSlotPerStart(z, duration, date, other, slot);
    }
  }

  predicate Ascending(slots: seq<Slot>) {
    forall i, j | 0 <= i < j < |slots| :: slots[i].utcStart < slots[j].utcStart
  }

  // Where a slot belongs in an ascending list.
  method InsertByStart(slots: seq<Slot>, slot: Slot) returns (inserted: seq<Slot>)
    requires Ascending(slots) && forall s | s in slots :: s.utcStart != slot.utcStart
    ensures Ascending(inserted) && forall s :: s in inserted <==> s in slots || s == slot
  {
    var i := 0;
    while i < |slots| && slots[i].utcStart < slot.utcStart
      invariant i <= |slots| && forall k | 0 <= k < i :: slots[k].utcStart < slot.utcStart
    {
      i := i + 1;
    }
    if i < |slots| { assert slots[i] in slots; }
    inserted := slots[..i] + [slot] + slots[i..];
    InsertionKeepsOrder(slots, slot, i);
  }

  lemma InsertionKeepsOrder(slots: seq<Slot>, slot: Slot, i: nat)
    requires Ascending(slots) && i <= |slots|
    requires forall k | 0 <= k < i :: slots[k].utcStart < slot.utcStart
    requires i < |slots| ==> slot.utcStart < slots[i].utcStart
    ensures Ascending(slots[..i] + [slot] + slots[i..])
    ensures forall s :: s in slots[..i] + [slot] + slots[i..] <==> s in slots || s == slot
  {
    var inserted := slots[..i] + [slot] + slots[i..];
    assert slots == slots[..i] + slots[i..];
    forall j, k | 0 <= j < k < |inserted| ensures inserted[j].utcStart < inserted[k].utcStart {
      assert inserted[j] == if j < i then slots[j] else if j == i then slot else slots[j - 1];
      assert inserted[k] == if k < i then slots[k] else if k == i then slot else slots[k - 1];
    }
  }

  method SortByStart(byStart: map<LocalIso, Slot>) returns (slots: seq<Slot>)
    requires forall a, b | a in byStart && b in byStart && a != b :: byStart[a].utcStart != byStart[b].utcStart
    ensures Ascending(slots) && forall s :: s in slots <==> exists iso | iso in byStart :: byStart[iso] == s
  {
    slots := [];
    var rest := byStart.Keys;
    while exists iso :: iso in rest
      invariant rest <= byStart.Keys && Ascending(slots)
      invariant forall s :: s in slots <==> exists iso | iso in byStart && iso !in rest :: byStart[iso] == s
      decreases rest
    {
      var iso :| iso in rest;
      slots := InsertByStart(slots, byStart[iso]);
      rest := rest - {iso};
    }
  }

  // One start, added to the catalogue unless the local clock skips it or it is there already.
  method AddStart(clock: Converter, date: CalendarDate, minutes: int, duration: int, catalogue: map<LocalIso, Slot>, ghost seen: iset<int>)
    returns (byStart: map<LocalIso, Slot>, ghost present: bool)
    requires clock.Valid() && TimeOfDay(minutes)
    requires Holds(clock.zone, duration, date, catalogue, seen)
    modifies clock
    ensures clock.Valid() && Holds(clock.zone, duration, date, byStart, seen + iset{minutes})
    ensures present ==> minutes in seen
  {
    byStart, present := catalogue, false;
    var utcStart := clock.LocalDateTimeToUtc(date.DayNumber(), minutes);
    if utcStart.None? {
      SkippedMinute(clock.zone, duration, date, catalogue, seen, minutes);
      return;
    }
    var start := clock.UtcToLocalIso(utcStart.value);
    var end := clock.UtcToLocalIso(utcStart.value + duration * MINUTE);
    var slot := Slot(start, end, utcStart.value, utcStart.value + duration * MINUTE, date, minutes);
    AddedMinute(clock.zone, duration, date, catalogue, seen, slot);
    if slot.start !in byStart {
      byStart := byStart[slot.start := slot];
    } else {
      present := true;
      assert byStart == byStart[slot.start := slot];
    }
  }

  // One rule's starts, added to the catalogue.
  method AddRule(clock: Converter, schedule: seq<Rule>, i: nat, duration: int, date: CalendarDate, catalogue: map<LocalIso, Slot>)
    returns (byStart: map<LocalIso, Slot>, ghost shadowed: nat)
    requires clock.Valid() && AllResolved(schedule) && i < |schedule| && FiresOn(schedule[i], date)
    requires Holds(clock.zone, duration, date, catalogue, MinutesBefore(schedule, date, i, 0))
    modifies clock
    ensures clock.Valid() && Holds(clock.zone, duration, date, byStart, MinutesBefore(schedule, date, i + 1, 0))
    ensures date.Real() && Accepted(schedule, duration) ==> shadowed == 0
  {
    var rule := schedule[i];
    byStart, shadowed := catalogue, 0;
    var minutes := rule.firstStart;
    assert MinutesBefore(schedule, date, i, 0) == MinutesBefore(schedule, date, i, minutes);
    while minutes <= rule.lastStart.value
      invariant clock.Valid() && OnGrid(rule, minutes)
      invariant Holds(clock.zone, duration, date, byStart, MinutesBefore(schedule, date, i, minutes))
      invariant date.Real() && Accepted(schedule, duration) ==> shadowed == 0
    {
      ghost var present;
      byStart, present := AddStart(clock, date, minutes, duration, byStart, MinutesBefore(schedule, date, i, minutes));
      if date.Real() && Accepted(schedule, duration) { NotShadowed(schedule, duration, date, i, minutes); }
      shadowed := shadowed + if present then 1 else 0;
      NextMinute(schedule, date, i, minutes);
      GridGoesOn(minutes - rule.firstStart, rule.intervalMin);
      minutes := minutes + rule.intervalMin;
    }
    RuleDone(schedule, date, i, minutes);
  }

  /** Every rule in force on the date contributes its grid of starts; a start that the local clock
      skips is left out, and one already present is not added again. `shadowed` counts the starts
      dropped that way. */
  method GenerateSlots(clock: Converter, schedule: seq<Rule>, duration: int, date: CalendarDate)
    returns (slots: seq<Slot>, ghost shadowed: nat)
    requires clock.Valid() && AllResolved(schedule)
    modifies clock
    ensures clock.Valid() && Ascending(slots)
    ensures forall slot :: slot in slots <==> Genuine(clock.zone, duration, date, slot) && Offered(schedule, date, slot.minute)
    ensures forall slot | slot in slots ::
              && slot.utcEnd == slot.utcStart + duration * 60000
              && slot.utcStart / 60000 + clock.zone(slot.utcStart) == date.DayNumber() * 1440 + slot.minute
              && exists i | 0 <= i < |schedule| :: StartedByRule(schedule[i], date, slot.minute)
    ensures date.Real() && Accepted(schedule, duration) ==> shadowed == 0
  {
    var byStart: map<LocalIso, Slot> := map[];
    shadowed := 0;
    for i := 0 to |schedule|
      invariant clock.Valid()
      invariant Holds(clock.zone, duration, date, byStart, MinutesBefore(schedule, date, i, 0))
      invariant date.Real() && Accepted(schedule, duration) ==> shadowed == 0
    {
      if FiresOn(schedule[i], date) {
        ghost var dropped;
        byStart, dropped := AddRule(clock, schedule, i, duration, date, byStart);
        shadowed := shadowed + dropped;
      } else {
        RuleDone(schedule, date, i, 0);
      }
    }
    slots := SortCatalogue(clock.zone, duration, date, byStart);
    assert forall m :: OfferedBefore(schedule, date, |schedule|, 0, m) <==> Offered(schedule, date, m);
    forall slot | slot in slots { SlotIsARulesStart(clock.zone, schedule, duration, date, slot); }
  }

  method SortCatalogue(ghost z: Zone, ghost duration: int, ghost date: CalendarDate, byStart: map<LocalIso, Slot>) returns (slots: seq<Slot>)
    requires Catalogued(z, duration, date, byStart)
    ensures Ascending(slots) && forall s :: s in slots <==> s.start in byStart && byStart[s.start] == s
  {
    forall a, b | a in byStart && b in byStart && a != b ensures byStart[a].utcStart != byStart[b].utcStart {
      OneSlotPerStart(z, duration, date, byStart[a], byStart[b]);
    }
    slots := SortByStart(byStart);
  }
}
