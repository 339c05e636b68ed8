/** Wall-clock times to instants, over an arbitrary zone: a search that probes offsets, and a
    fast path for dates far from any transition. Instants are milliseconds; wall times and
    offsets are whole minutes. */
module LocalTime {
  import opened Schema

  // The zone's offset from UTC, in minutes, at each instant.
  type Zone = Instant -> int

  const MINUTE: int := 60000
  const HOUR: int := 3600000
  const DAY: int := 86400000

  ghost predicate Transition(z: Zone, t: Instant) {
    z(t) != z(t - 1)
  }

  // Offsets last at least twelve hours and stay within fifteen hours of UTC.
  ghost predicate Regular(z: Zone) {
    && (forall s: Instant, t: Instant | s < t && Transition(z, s) && Transition(z, t) :: 12 * HOUR <= t - s)
    && (forall t: Instant :: -900 <= z(t) <= 900)
  }

  // The wall minute an instant is rendered as.
  function LocalMinute(z: Zone, t: Instant): int {
    t / MINUTE + z(t)
  }

  predicate WholeMinute(t: Instant) {
    t % MINUTE == 0
  }

  ghost predicate Renders(z: Zone, t: Instant, wall: int) {
    WholeMinute(t) && LocalMinute(z, t) == wall
  }

  ghost predicate Earliest(z: Zone, wall: int, t: Instant) {
    Renders(z, t, wall) && forall u: Instant | Renders(z, u, wall) :: t <= u
  }

  // What a conversion must answer: the earliest instant shown as that wall time, or nothing.
  ghost predicate Answers(z: Zone, wall: int, answer: Option<Instant>) {
    match answer
    case Some(t) => Earliest(z, wall, t)
    case None => forall u: Instant :: !Renders(z, u, wall)
  }

  lemma AnswerIsUnique(z: Zone, wall: int, a: Option<Instant>, b: Option<Instant>)
    requires Answers(z, wall, a) && Answers(z, wall, b)
    ensures a == b
  {
  }

  // ----- segments

  lemma {:induction false} SteadyWithoutTransition(z: Zone, a: Instant, b: Instant)
    requires a <= b && forall t: Instant | a < t <= b :: !Transition(z, t)
    ensures z(a) == z(b)
    decreases b - a
  {
    if a < b {
      assert !Transition(z, b);
      SteadyWithoutTransition(z, a, b - 1);
    }
  }

  lemma AloneForTwelveHours(z: Zone, s: Instant, t: Instant)
    requires Regular(z) && s < t < s + 12 * HOUR && Transition(z, s)
    ensures !Transition(z, t)
  {
  }

  // Within twelve hours, an offset in between is that of one of the ends.
  lemma Between(z: Zone, a: Instant, b: Instant, c: Instant)
    requires Regular(z) && a <= b <= c <= a + 12 * HOUR
    ensures z(b) == z(a) || z(b) == z(c)
  {
    if forall t: Instant | a < t <= b :: !Transition(z, t) {
      SteadyWithoutTransition(z, a, b);
    } else {
      var s: Instant :| a < s <= b && Transition(z, s);
      forall t: Instant | b < t <= c ensures !Transition(z, t) {
        AloneForTwelveHours(z, s, t);
      }
      SteadyWithoutTransition(z, b, c);
    }
  }

  // ----- the hourly lookup

  function HourStart(t: Instant): Instant {
    t / HOUR * HOUR
  }

  // One offset for the whole hour, when both its ends agree.
  function HourOffset(z: Zone, t: Instant): Option<int> {
    if z(HourStart(t)) == z(HourStart(t) + HOUR - 1) then Some(z(HourStart(t))) else None
  }

  lemma HourOffsetIsTheOffset(z: Zone, t: Instant)
    requires Regular(z) && HourOffset(z, t).Some?
    ensures HourOffset(z, t).value == z(t)
  {
    Between(z, HourStart(t), t, HourStart(t) + HOUR - 1);
  }

  // ----- a date with one offset all around it

  // The hours from 48 before the date to 72 after its start, both ends included.
  function HourAround(day: int, k: int): Instant {
    day * DAY - 48 * HOUR + k * HOUR
  }

  predicate OneOffsetAround(z: Zone, day: int, offset: int) {
    forall k | 0 <= k <= 120 :: HourOffset(z, HourAround(day, k)) == Some(offset)
  }

  lemma TwoOffsetsAround(z: Zone, day: int, j: int, k: int)
    requires 0 <= j <= 120 && 0 <= k <= 120
    requires HourOffset(z, HourAround(day, j)) != HourOffset(z, HourAround(day, k)) || HourOffset(z, HourAround(day, k)).None?
    ensures forall offset :: !OneOffsetAround(z, day, offset)
  {
  }

  lemma AroundIsSteady(z: Zone, day: int, offset: int, t: Instant)
    requires Regular(z) && OneOffsetAround(z, day, offset)
    requires day * DAY - 48 * HOUR <= t < day * DAY + 73 * HOUR
    ensures z(t) == offset
  {
    var start := day * DAY - 48 * HOUR;
    var k := (t - start) / HOUR;
    assert start == (day * 24 - 48) * HOUR;
    assert t / HOUR == day * 24 - 48 + k;
    assert HourStart(t) == HourAround(day, k) == HourStart(HourAround(day, k));
    HourOffsetIsTheOffset(z, t);
  }

  // ----- where a wall time can be found

  // An instant shown as the wall time lies within fifteen hours of it.
  lemma RenderedNearby(z: Zone, t: Instant, wall: int)
    requires Regular(z) && Renders(z, t, wall)
    ensures t == (wall - z(t)) * MINUTE
    ensures wall * MINUTE - 15 * HOUR <= t <= wall * MINUTE + 15 * HOUR
  {
    assert t == t / MINUTE * MINUTE;
    assert -900 <= z(t) <= 900;
  }

  predicate Probed(z: Zone, wall: int, offset: int) {
    exists k :: -4 <= k <= 4 && z(wall * MINUTE + k * 12 * HOUR) == offset
  }

  // One of the nine probes sees the offset in force at that instant.
  lemma SomeProbeSeesIt(z: Zone, t: Instant, wall: int)
    requires Regular(z) && Renders(z, t, wall)
    ensures Probed(z, wall, z(t))
  {
    RenderedNearby(z, t, wall);
    var w := wall * MINUTE;
    var k := (t - w) / (12 * HOUR);
    assert -2 <= k <= 1;
    assert w + k * 12 * HOUR <= t < w + (k + 1) * 12 * HOUR;
    Between(z, w + k * 12 * HOUR, t, w + (k + 1) * 12 * HOUR);
  }

  lemma SteadyDateConverts(z: Zone, day: int, offset: int, wall: int)
    requires Regular(z) && OneOffsetAround(z, day, offset)
    requires day * DAY <= wall * MINUTE < day * DAY + DAY
    ensures Answers(z, wall, Some((wall - offset) * MINUTE))
  {
    var t := (wall - offset) * MINUTE;
    AroundIsSteady(z, day, offset, day * DAY);
    assert -900 <= z(day * DAY) <= 900;
    AroundIsSteady(z, day, offset, t);
    assert t / MINUTE == wall - offset;
    forall u: Instant | Renders(z, u, wall) ensures t <= u {
      RenderedNearby(z, u, wall);
      AroundIsSteady(z, day, offset, u);
    }
  }

  // The local timestamp: the wall clock in milliseconds, and the offset it carries.
  datatype LocalIso = LocalIso(wall: int, offset: int)

  function IsoOf(z: Zone, t: Instant): LocalIso {
    LocalIso(t + z(t) * MINUTE, z(t))
  }

  // ----- the conversions, with their caches

  const OFFSET_CACHE_LIMIT: nat := 50000

  class Converter {
    const zone: Zone
    var hourOffsets: map<Instant, int>
    var dayOffsets: map<int, Option<int>>

    // A cached answer is the one the zone would give again.
    ghost predicate Valid()
      reads this
    {
      && Regular(zone)
      && (forall h | h in hourOffsets :: HourOffset(zone, h) == Some(hourOffsets[h]))
      && (forall d | d in dayOffsets :: ConstantFor(zone, d, dayOffsets[d]))
    }

    static ghost predicate ConstantFor(z: Zone, day: int, answer: Option<int>) {
      match answer
      case Some(offset) => OneOffsetAround(z, day, offset)
      case None => forall offset :: !OneOffsetAround(z, day, offset)
    }

    constructor (zone: Zone)
      requires Regular(zone)
      ensures Valid() && this.zone == zone
    {
      this.zone := zone;
      hourOffsets, dayOffsets := map[], map[];
    }

    method CachedOffsetMinutes(t: Instant) returns (offset: Option<int>)
      requires Valid()
      modifies this`hourOffsets
      ensures Valid() && offset == HourOffset(zone, t)
    {
      var hourStart := t / HOUR * HOUR;
      assert HourStart(hourStart) == hourStart;
      if hourStart in hourOffsets { return Some(hourOffsets[hourStart]); }
      var atStart := zone(hourStart);
      if zone(hourStart + HOUR - 1) != atStart { return None; }
      if |hourOffsets| >= OFFSET_CACHE_LIMIT { hourOffsets := map[]; }
      hourOffsets := hourOffsets[hourStart := atStart];
      offset := Some(atStart);
    }

    method ConstantOffsetAroundDate(day: int) returns (constant: Option<int>)
      requires Valid()
      modifies this
      ensures Valid() && ConstantFor(zone, day, constant)
    {
      if day in dayOffsets { return dayOffsets[day]; }
      var offset: Option<int> := None;
      var steady := true;
      var k := 0;
      while k <= 120 && steady
        invariant Valid() && 0 <= k <= 121
        invariant steady ==> (0 < k <==> offset.Some?)
        invariant steady ==> forall j | 0 <= j < k :: HourOffset(zone, HourAround(day, j)) == offset
        invariant !steady ==> forall c :: !OneOffsetAround(zone, day, c)
        decreases 121 - k, steady
      {
        var atHour := CachedOffsetMinutes(HourAround(day, k));
        if atHour.None? || (offset.Some? && atHour != offset) {
          TwoOffsetsAround(zone, day, 0, k);
          steady := false;
        } else {
          offset := atHour;
          k := k + 1;
        }
      }
      constant := if steady then offset else None;
      if |dayOffsets| >= OFFSET_CACHE_LIMIT { dayOffsets := map[]; }
      dayOffsets := dayOffsets[day := constant];
    }

    // The wall minute an instant is shown as, through the cache or straight from the zone.
    method UtcToLocalDateTime(t: Instant) returns (wall: int)
      requires Valid()
      modifies this`hourOffsets
      ensures Valid() && wall == LocalMinute(zone, t)
    {
      var cached := CachedOffsetMinutes(t);
      if cached.Some? { HourOffsetIsTheOffset(zone, t); }
      wall := t / MINUTE + if cached.Some? then cached.value else zone(t);
    }

    method UtcToLocalIso(t: Instant) returns (iso: LocalIso)
      requires Valid()
      modifies this`hourOffsets
      ensures Valid() && iso == IsoOf(zone, t)
    {
      var cached := CachedOffsetMinutes(t);
      if cached.None? { return LocalIso(t + zone(t) * MINUTE, zone(t)); }
      HourOffsetIsTheOffset(zone, t);
      iso := LocalIso(t + cached.value * MINUTE, cached.value);
    }

    method ProbeOffsets(wall: int) returns (offsets: set<int>)
      requires Valid()
      modifies this`hourOffsets
      ensures Valid() && forall o :: o in offsets <==> Probed(zone, wall, o)
    {
      offsets := {};
      for k := -4 to 5
        invariant Valid()
        invariant forall o :: o in offsets <==> exists j :: -4 <= j < k && zone(wall * MINUTE + j * 12 * HOUR) == o
      {
        var probe := wall * MINUTE + k * 12 * HOUR;
        var cached := CachedOffsetMinutes(probe);
        if cached.Some? { HourOffsetIsTheOffset(zone, probe); }
        offsets := offsets + {if cached.Some? then cached.value else zone(probe)};
      }
    }

    // Every offset seen around the wall time names one candidate; the earliest that is shown as
    // the wall time wins.
    method ProbingSearch(wall: int) returns (answer: Option<Instant>)
      requires Valid()
      modifies this`hourOffsets
      ensures Valid() && Answers(zone, wall, answer)
    {
      var offsets := ProbeOffsets(wall);
      answer := None;
      var rest := offsets;
      while exists o :: o in rest
        invariant Valid() && rest <= offsets
        invariant answer.Some? ==> Renders(zone, answer.value, wall)
        invariant forall o | o in offsets && o !in rest && Renders(zone, (wall - o) * MINUTE, wall) ::
                    answer.Some? && answer.value <= (wall - o) * MINUTE
        decreases rest
      {
        var o :| o in rest;
        var candidate := (wall - o) * MINUTE;
        var shown := UtcToLocalDateTime(candidate);
        if shown == wall && (answer.None? || candidate < answer.value) { answer := Some(candidate); }
        rest := rest - {o};
      }
      forall u: Instant | Renders(zone, u, wall)
        ensures answer.Some? && answer.value <= u
      {
        RenderedNearby(zone, u, wall);
        SomeProbeSeesIt(zone, u, wall);
      }
    }

    method LocalDateTimeToUtc(day: int, minuteOfDay: int) returns (answer: Option<Instant>)
      requires Valid() && 0 <= minuteOfDay < 1440
      modifies this
      ensures Valid() && Answers(zone, day * 1440 + minuteOfDay, answer)
    {
      var wall := day * 1440 + minuteOfDay;
      var constant := ConstantOffsetAroundDate(day);
      if constant.Some? {
        SteadyDateConverts(zone, day, constant.value, wall);
        return Some((wall - constant.value) * MINUTE);
      }
      answer := ProbingSearch(wall);
    }
  }

  // ----- what the answer means

  // Whenever the fast path applies, the probing search returns the same instant.
  lemma FastPathAgreesWithSearch(z: Zone, day: int, offset: int, wall: int, searched: Option<Instant>)
    requires Regular(z) && OneOffsetAround(z, day, offset)
    requires day * DAY <= wall * MINUTE < day * DAY + DAY
    requires Answers(z, wall, searched)
    ensures searched == Some((wall - offset) * MINUTE)
  {
    SteadyDateConverts(z, day, offset, wall);
    AnswerIsUnique(z, wall, searched, Some((wall - offset) * MINUTE));
  }

  // The zone changes offset on whole minutes.
  ghost predicate MinuteAligned(z: Zone) {
    forall t: Instant :: z(t) == z(t / MINUTE * MINUTE)
  }

  // Then the answer is the earliest of all instants, not only of the whole minutes.
  lemma EarliestOfAllInstants(z: Zone, wall: int, answer: Option<Instant>, u: Instant)
    requires MinuteAligned(z) && Answers(z, wall, answer) && LocalMinute(z, u) == wall
    ensures answer.Some? && answer.value <= u
  {
    var minute := u / MINUTE * MINUTE;
    assert z(minute) == z(u);
    assert minute / MINUTE == u / MINUTE;
    assert Renders(z, minute, wall);
  }

  // ----- when the answer is the earliest of all instants

  // No change moves the clock back by half a day or more.
  ghost predicate ShortFalls(z: Zone) {
    forall t: Instant | Transition(z, t) :: z(t - 1) - z(t) < 720
  }

  // The wall clock in milliseconds.
  function Wall(z: Zone, t: Instant): int {
    t + z(t) * MINUTE
  }

  lemma HalfADayMakesUpForAFall(z: Zone, p: Instant)
    requires Regular(z) && ShortFalls(z) && Transition(z, p)
    ensures Wall(z, p - 1) <= Wall(z, p + 12 * HOUR - 1)
  {
    forall t: Instant | p < t <= p + 12 * HOUR - 1 ensures !Transition(z, t) {
      AloneForTwelveHours(z, p, t);
    }
    SteadyWithoutTransition(z, p, p + 12 * HOUR - 1);
  }

  lemma HalfADayApart(z: Zone, p: Instant, s: Instant)
    requires Regular(z) && Transition(z, p) && Transition(z, s) && p < s
    ensures 12 * HOUR <= s - p
  {
  }

  // The clock has never read later than just before a change.
  lemma {:induction false} ClockIsAheadBeforeAChange(z: Zone, s: Instant, a: Instant)
    requires Regular(z) && ShortFalls(z) && Transition(z, s) && a < s
    ensures Wall(z, a) <= Wall(z, s - 1)
    decreases s - a
  {
    if z(a) != z(s - 1) {
      var p := LastChange(z, a, s - 1);
      HalfADayApart(z, p, s);
      ClockIsAheadBeforeAChange(z, p, a);
      HalfADayMakesUpForAFall(z, p);
      ClockIsAheadBeforeAChange(z, s, p + 12 * HOUR - 1);
    }
  }

  lemma QuietBeforeAChange(z: Zone, s: Instant, c: Instant)
    requires Regular(z) && Transition(z, s) && s - 12 * HOUR < c < s
    ensures z(c) == z(s - 1)
  {
    forall t: Instant | c < t <= s - 1 ensures !Transition(z, t) {
      if Transition(z, t) { AloneForTwelveHours(z, t, s); }
    }
    SteadyWithoutTransition(z, c, s - 1);
  }

  lemma {:induction false} LastChange(z: Zone, a: Instant, b: Instant) returns (s: Instant)
    requires a < b && z(a) != z(b)
    ensures a < s <= b && Transition(z, s) && z(s) == z(b)
    ensures forall t: Instant | s < t <= b :: !Transition(z, t)
    decreases b - a
  {
    if Transition(z, b) { s := b; } else { s := LastChange(z, a, b - 1); }
  }

  function MinuteOf(t: Instant): Instant {
    t / MINUTE * MINUTE
  }

  // The clock was moved forward since the minute began.
  predicate AheadOfItsMinute(z: Zone, t: Instant) {
    z(MinuteOf(t)) < z(t)
  }

  lemma ReadsLessUntilThen(z: Zone, t: Instant, a: Instant)
    requires Regular(z) && ShortFalls(z) && AheadOfItsMinute(z, t) && a <= MinuteOf(t)
    ensures Wall(z, a) < LocalMinute(z, t) * MINUTE
  {
    var m := MinuteOf(t);
    var s := LastChange(z, m, t);
    QuietBeforeAChange(z, s, m);
    ClockIsAheadBeforeAChange(z, s, a);
    assert s - 1 < m + MINUTE;
  }

  // No conversion finds an instant shown after the clock was moved forward inside its minute.
  lemma NothingIsShownBefore(z: Zone, t: Instant, a: Instant)
    requires Regular(z) && ShortFalls(z) && AheadOfItsMinute(z, t)
    ensures Renders(z, a, LocalMinute(z, t)) ==> t < a
  {
    if Renders(z, a, LocalMinute(z, t)) {
      RenderedOnTheMinute(z, a, LocalMinute(z, t));
      WholeMinutesApart(t, a);
      if a <= MinuteOf(t) { ReadsLessUntilThen(z, t, a); }
    }
  }

  lemma RenderedOnTheMinute(z: Zone, a: Instant, wall: int)
    requires Renders(z, a, wall)
    ensures Wall(z, a) == wall * MINUTE
  {
  }

  lemma WholeMinutesApart(t: Instant, a: Instant)
    requires WholeMinute(a)
    ensures a <= MinuteOf(t) || t < a
  {
    assert a == a / MINUTE * MINUTE;
  }

  // Any other instant has a whole minute at or before it that is shown alike.
  lemma ShownByThen(z: Zone, u: Instant) returns (a: Instant)
    requires Regular(z) && ShortFalls(z) && !AheadOfItsMinute(z, u)
    ensures a <= u && Renders(z, a, LocalMinute(z, u))
  {
    var m := MinuteOf(u);
    a := m;
    if z(u) < z(m) {
      var s := LastChange(z, m, u);
      QuietBeforeAChange(z, s, m);
      a := m - (z(m) - z(u)) * MINUTE;
      QuietBeforeAChange(z, s, a);
      assert a == (u / MINUTE - (z(m) - z(u))) * MINUTE;
      assert a / MINUTE == u / MINUTE - (z(m) - z(u));
    }
  }

  lemma {:induction false} LeastRendering(z: Zone, wall: int, lo: Instant, u: Instant) returns (t: Instant)
    requires Renders(z, u, wall) && forall v: Instant | Renders(z, v, wall) :: lo <= v
    ensures Earliest(z, wall, t)
    decreases u - lo
  {
    t := u;
    if v: Instant :| Renders(z, v, wall) && v < u { t := LeastRendering(z, wall, lo, v); }
  }

  lemma AnswerExists(z: Zone, wall: int) returns (answer: Option<Instant>)
    requires Regular(z)
    ensures Answers(z, wall, answer)
  {
    answer := None;
    if u: Instant :| Renders(z, u, wall) {
      forall v: Instant | Renders(z, v, wall) ensures wall * MINUTE - 15 * HOUR <= v { RenderedNearby(z, v, wall); }
      var t := LeastRendering(z, wall, wall * MINUTE - 15 * HOUR, u);
      answer := Some(t);
    }
  }

  // Every answer is the earliest of all instants shown as its wall time.
  ghost predicate AnswersAreEarliest(z: Zone) {
    forall wall, answer, u: Instant | Answers(z, wall, answer) && LocalMinute(z, u) == wall :: answer.Some? && answer.value <= u
  }

  ghost predicate NeverAheadInsideAMinute(z: Zone) {
    forall t: Instant :: !AheadOfItsMinute(z, t)
  }

  // The answers are the earliest of all instants exactly in the zones that never move the clock
  // forward inside a minute.
  lemma EarliestExactlyWithoutAForwardJumpInsideAMinute(z: Zone)
    requires Regular(z) && ShortFalls(z)
    ensures AnswersAreEarliest(z) <==> NeverAheadInsideAMinute(z)
  {
    if NeverAheadInsideAMinute(z) {
      forall wall, answer, u: Instant | Answers(z, wall, answer) && LocalMinute(z, u) == wall
        ensures answer.Some? && answer.value <= u
      {
        var a := ShownByThen(z, u);
      }
    } else {
      var t: Instant :| AheadOfItsMinute(z, t);
      var answer := AnswerExists(z, LocalMinute(z, t));
      if answer.Some? { NothingIsShownBefore(z, t, answer.value); }
      assert Answers(z, LocalMinute(z, t), answer);
    }
  }

  // A later wall time converts to a later instant.
  lemma ConversionsKeepOrder(z: Zone, a: int, b: int, ta: Instant, tb: Instant)
    requires Regular(z) && ShortFalls(z) && a < b
    requires Answers(z, a, Some(ta)) && Answers(z, b, Some(tb))
    ensures ta < tb
  {
    assert Wall(z, ta) == a * MINUTE && Wall(z, tb) == b * MINUTE;
    if tb <= ta && z(tb) != z(ta) {
      var s := LastChange(z, tb, ta);
      ClockIsAheadBeforeAChange(z, s, tb);
      var c := (a - z(s - 1)) * MINUTE;
      assert s - 12 * HOUR < c < s;
      QuietBeforeAChange(z, s, c);
      assert c / MINUTE == a - z(s - 1) && Renders(z, c, a);
    }
  }

  // Two wall times never convert to one instant.
  lemma ConversionsAreInjective(z: Zone, a: int, b: int, t: Instant)
    requires Answers(z, a, Some(t)) && Answers(z, b, Some(t))
    ensures a == b
  {
  }

  // ----- a zone that skips an hour

  function SpringForward(t: Instant): int {
    if t < 1000 * HOUR then 0 else 60
  }

  // The skipped hour has no answer; the hour before and after it do.
  lemma SkippedHourDoesNotExist(wall: int)
    requires 60000 <= wall < 60060
    ensures Regular(SpringForward)
    ensures Answers(SpringForward, wall, None)
    ensures Answers(SpringForward, wall - 60, Some((wall - 60) * MINUTE))
    ensures Answers(SpringForward, wall + 60, Some(wall * MINUTE))
  {
    forall u: Instant
      ensures !Renders(SpringForward, u, wall)
      ensures Renders(SpringForward, u, wall - 60) ==> (wall - 60) * MINUTE <= u
      ensures Renders(SpringForward, u, wall + 60) ==> wall * MINUTE <= u
    {
    }
  }

  // ----- a zone that jumps inside a minute

  function JumpsAtHalfAMinute(t: Instant): int {
    if t < 30000 then 0 else 60
  }

  // In such a zone an instant is shown as a wall time that no conversion finds.
  lemma JumpInsideAMinuteHidesAnInstant()
    ensures Regular(JumpsAtHalfAMinute) && ShortFalls(JumpsAtHalfAMinute) && !MinuteAligned(JumpsAtHalfAMinute)
    ensures AheadOfItsMinute(JumpsAtHalfAMinute, 30000)
    ensures LocalMinute(JumpsAtHalfAMinute, 30000) == 60 && Answers(JumpsAtHalfAMinute, 60, None)
  {
    assert JumpsAtHalfAMinute(30000) != JumpsAtHalfAMinute(30000 / MINUTE * MINUTE);
  }

  // The same jump backwards hides nothing, although it is not aligned either.
  function FallsAtHalfAMinute(t: Instant): int {
    if t < 30000 then 60 else 0
  }

  lemma FallInsideAMinuteHidesNothing()
    ensures Regular(FallsAtHalfAMinute) && !MinuteAligned(FallsAtHalfAMinute)
    ensures AnswersAreEarliest(FallsAtHalfAMinute)
  {
    assert FallsAtHalfAMinute(30000) != FallsAtHalfAMinute(30000 / MINUTE * MINUTE);
    forall t: Instant ensures !AheadOfItsMinute(FallsAtHalfAMinute, t) {
    }
    EarliestExactlyWithoutAForwardJumpInsideAMinute(FallsAtHalfAMinute);
  }

  // ----- a day without its midnight

  function JumpsAtMidnight(t: Instant): int {
    if t < 10 * DAY then 0 else 60
  }

  lemma SkippedMidnight()
    ensures Regular(JumpsAtMidnight) && ShortFalls(JumpsAtMidnight)
    ensures Answers(JumpsAtMidnight, 10 * 1440, None) && Answers(JumpsAtMidnight, 10 * 1440 + 60, Some(10 * DAY))
  {
    forall u: Instant
      ensures !Renders(JumpsAtMidnight, u, 10 * 1440)
      ensures Renders(JumpsAtMidnight, u, 10 * 1440 + 60) ==> 10 * DAY <= u
    {
    }
  }
}
