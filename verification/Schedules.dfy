/** Weekly schedule rules: the season and start-time overlap check, the derived last departure, and
    the slots a date gets. Times of day are minutes after midnight. */
module Schedules {
  import opened Schema
  import opened LocalTime

  datatype MonthDay = MonthDay(month: int, day: int) {
    // The order key: month and day digits side by side.
    function Key(): int {
      month * 100 + day
    }

    // A day that exists in a leap year.
    predicate Real() {
      1 <= month <= 12 && 1 <= day <= DaysIn(true, month)
    }
  }

  function DaysIn(leap: bool, month: int): int {
    if month == 2 then (if leap then 29 else 28)
    else if month in {4, 6, 9, 11} then 30
    else 31
  }

  // One rule. A declared rule may leave out `lastStart`; a resolved rule has one.
  datatype Rule = Rule(
    from: Option<MonthDay>,
    to: Option<MonthDay>,
    days: set<int>,
    firstStart: int,
    lastStart: Option<int>,
    lastEnd: Option<int>,
    intervalMin: int)
  {
    // What the schema guarantees of any rule.
    predicate Parsed() {
      && 1 <= intervalMin
      && (forall d | d in days :: 0 <= d <= 6)
      && TimeOfDay(firstStart)
      && (lastStart.Some? ==> TimeOfDay(lastStart.value))
      && (lastEnd.Some? ==> TimeOfDay(lastEnd.value))
    }

    predicate Resolved() {
      Parsed() && lastStart.Some?
    }

    function From(): int {
      if from.Some? then from.value.Key() else 101
    }

    function To(): int {
      if to.Some? then to.value.Key() else 1231
    }

    predicate RealSeason() {
      (from.Some? ==> from.value.Real()) && (to.Some? ==> to.value.Real())
    }
  }

  predicate AllResolved(schedule: seq<Rule>) {
    forall i | 0 <= i < |schedule| :: schedule[i].Resolved()
  }

  predicate TimeOfDay(minutes: int) {
    0 <= minutes < 1440
  }

  // ----- the last departure

  const DEFAULT_LAST_START: int := 1080

  function DerivedLastStart(rule: Rule, duration: int): int
    requires rule.Parsed()
  {
    var latest := rule.lastEnd.GetOr(rule.firstStart) - duration;
    if latest <= rule.firstStart then rule.firstStart
    else rule.firstStart + (latest - rule.firstStart) / rule.intervalMin * rule.intervalMin
  }

  function ResolveScheduleRule(rule: Rule, duration: int): (resolved: Rule)
    requires rule.Parsed()
  {
    if rule.lastStart.Some? || rule.lastEnd.None? then rule.(lastStart := Some(rule.lastStart.GetOr(DEFAULT_LAST_START)))
    else rule.(lastStart := Some(DerivedLastStart(rule, duration)))
  }

  lemma ResolvingParses(rule: Rule, duration: int)
    requires rule.Parsed() && 1 <= duration
    ensures ResolveScheduleRule(rule, duration).Resolved()
    ensures TimeOfDay(DerivedLastStart(rule, duration))
  {
    var latest := rule.lastEnd.GetOr(rule.firstStart) - duration;
    if rule.firstStart < latest { FlooredToGrid(latest - rule.firstStart, rule.intervalMin); }
  }

  lemma FlooredToGrid(span: int, step: int)
    requires 0 <= span && 1 <= step
    ensures 0 <= span / step * step <= span < span / step * step + step
  {
    assert span == step * (span / step) + span % step;
  }

  // ----- start times

  predicate OnGrid(rule: Rule, m: int)
    requires 1 <= rule.intervalMin
  {
    rule.firstStart <= m && (m - rule.firstStart) % rule.intervalMin == 0
  }

  predicate StartsAt(rule: Rule, m: int)
    requires rule.Resolved()
  {
    OnGrid(rule, m) && m <= rule.lastStart.value
  }

  lemma NextOnGrid(rule: Rule, m: int, k: int)
    requires rule.Parsed() && OnGrid(rule, m) && m <= k < m + rule.intervalMin && OnGrid(rule, k)
    ensures k == m
  {
    var i := rule.intervalMin;
    var a, b := (m - rule.firstStart) / i, (k - rule.firstStart) / i;
    assert m - rule.firstStart == i * a && k - rule.firstStart == i * b;
    assert i * (a + 1) == i * a + i;
    if a < b { StepUp(i, a + 1, b); }
    if b < a { StepUp(i, b, a); }
  }

  lemma StepUp(i: int, a: int, b: int)
    requires 0 <= i && a <= b
    ensures i * a <= i * b
  {
    assert i * b == i * a + i * (b - a);
  }

  method ScheduleStartTimes(rule: Rule) returns (starts: seq<int>)
    requires rule.Resolved()
    ensures forall m :: m in starts <==> StartsAt(rule, m)
    ensures forall i, j | 0 <= i < j < |starts| :: starts[i] < starts[j]
  {
    starts := [];
    var minutes := rule.firstStart;
    while minutes <= rule.lastStart.value
      invariant OnGrid(rule, minutes)
      invariant forall m :: m in starts <==> OnGrid(rule, m) && m < minutes
      invariant forall m | m in starts :: StartsAt(rule, m)
      invariant forall i | 0 <= i < |starts| :: starts[i] in starts && starts[i] < minutes
      invariant forall i, j | 0 <= i < j < |starts| :: starts[i] < starts[j]
    {
      forall m | OnGrid(rule, m) && minutes <= m < minutes + rule.intervalMin ensures m == minutes {
        NextOnGrid(rule, minutes, m);
      }
      starts := starts + [minutes];
      minutes := minutes + rule.intervalMin;
      assert OnGrid(rule, minutes) by { GridGoesOn(minutes - rule.intervalMin - rule.firstStart, rule.intervalMin); }
    }
  }

  lemma GridGoesOn(span: int, step: int)
    requires 1 <= step && span % step == 0
    ensures (span + step) % step == 0
  {
    var q := span / step;
    assert span + step == step * (q + 1);
    RemainderIsZero(q + 1, step);
  }

  lemma RemainderIsZero(q: int, step: int)
    requires 1 <= step
    ensures (step * q) % step == 0
  {
    var a := step * q;
    assert a == step * (a / step) + a % step;
    var gap := q - a / step;
    assert step * gap == a % step;
    assert step * (gap - 1) == step * gap - step;
    if 1 <= gap { StepUp(step, 1, gap); }
    if gap <= -1 { StepUp(step, gap, -1); }
  }

  // A rule declared by its closing time departs on every grid time that is back by then, and on no
  // other.
  lemma ClosingTimeRuleFillsTheDay(rule: Rule, duration: int, m: int)
    requires rule.Parsed() && 1 <= duration && rule.lastStart.None? && rule.lastEnd.Some?
    requires rule.firstStart <= rule.lastEnd.value - duration
    ensures ResolveScheduleRule(rule, duration).Resolved()
    ensures StartsAt(ResolveScheduleRule(rule, duration), m) <==> OnGrid(rule, m) && m + duration <= rule.lastEnd.value
  {
    ResolvingParses(rule, duration);
    var i, span := rule.intervalMin, rule.lastEnd.value - duration - rule.firstStart;
    FlooredToGrid(span, i);
    assert DerivedLastStart(rule, duration) == rule.firstStart + (if span <= 0 then 0 else span / i * i);
    if OnGrid(rule, m) {
      var q := (m - rule.firstStart) / i;
      assert m - rule.firstStart == i * q;
      LastGridStep(span, i, q);
    }
  }

  // A multiple of the step is within the span exactly when it is within the span rounded down.
  lemma LastGridStep(span: int, step: int, q: int)
    requires 0 <= span && 1 <= step && 0 <= step * q
    ensures step * q <= span <==> step * q <= span / step * step
    ensures span == 0 ==> span / step * step == 0
  {
    var top := span / step;
    FlooredToGrid(span, step);
    assert step * (top + 1) == step * top + step;
    if top + 1 <= q { StepUp(step, top + 1, q); } else { StepUp(step, q, top); }
  }

  // ----- seasons

  predicate MatchesSeason(rule: Rule, on: MonthDay) {
    if rule.From() <= rule.To() then rule.From() <= on.Key() <= rule.To()
    else rule.From() <= on.Key() || on.Key() <= rule.To()
  }

  // A season that wraps the new year is two intervals.
  function SeasonIntervals(rule: Rule): seq<(int, int)> {
    if rule.From() <= rule.To() then [(rule.From(), rule.To())]
    else [(rule.From(), 1231), (101, rule.To())]
  }

  predicate IntervalsMeet(a: (int, int), b: (int, int)) {
    a.0 <= b.1 && b.0 <= a.1
  }

  predicate SeasonsOverlap(left: Rule, right: Rule) {
    exists a, b :: a in SeasonIntervals(left) && b in SeasonIntervals(right) && IntervalsMeet(a, b)
  }

  lemma RealKeys(on: MonthDay)
    requires on.Real()
    ensures 101 <= on.Key() <= 1231
  {
  }

  lemma InSomeInterval(rule: Rule, on: MonthDay)
    requires on.Real()
    ensures MatchesSeason(rule, on) <==> exists a :: a in SeasonIntervals(rule) && a.0 <= on.Key() <= a.1
  {
    RealKeys(on);
    var all := SeasonIntervals(rule);
    assert all[0] in all;
    if |all| == 2 { assert all[1] in all; }
  }

  // The starting day of an interval is a real day, and matches.
  lemma IntervalStartsOnARealDay(rule: Rule, a: (int, int)) returns (on: MonthDay)
    requires rule.RealSeason() && a in SeasonIntervals(rule)
    ensures on.Real() && on.Key() == a.0 <= a.1
  {
    if rule.from.Some? { RealKeys(rule.from.value); }
    if rule.to.Some? { RealKeys(rule.to.value); }
    on := if rule.from.Some? && a.0 == rule.From() then rule.from.value else MonthDay(1, 1);
  }

  // The interval test finds an overlap exactly when some day of a leap year is in both seasons.
  lemma SeasonsOverlapOnARealDay(left: Rule, right: Rule)
    requires left.RealSeason() && right.RealSeason()
    ensures SeasonsOverlap(left, right) <==> exists on: MonthDay :: on.Real() && MatchesSeason(left, on) && MatchesSeason(right, on)
  {
    if SeasonsOverlap(left, right) {
      var a, b :| a in SeasonIntervals(left) && b in SeasonIntervals(right) && IntervalsMeet(a, b);
      var onA := IntervalStartsOnARealDay(left, a);
      var onB := IntervalStartsOnARealDay(right, b);
      var on := if a.0 <= b.0 then onB else onA;
      assert a.0 <= on.Key() <= a.1 && b.0 <= on.Key() <= b.1;
      InSomeInterval(left, on);
      InSomeInterval(right, on);
    }
    if on: MonthDay :| on.Real() && MatchesSeason(left, on) && MatchesSeason(right, on) {
      InSomeInterval(left, on);
      InSomeInterval(right, on);
      var a :| a in SeasonIntervals(left) && a.0 <= on.Key() <= a.1;
      var b :| b in SeasonIntervals(right) && b.0 <= on.Key() <= b.1;
      assert IntervalsMeet(a, b);
    }
  }

  predicate NotAfter(a: MonthDay, b: MonthDay) {
    a.month < b.month || (a.month == b.month && a.day <= b.day)
  }

  // A season runs from its first day to its last, both included, over the new year if its last day comes first;
  // without a first day it begins on January 1, without a last one it ends on December 31.
  lemma SeasonRunsFromDayToDay(rule: Rule, on: MonthDay)
    requires rule.RealSeason() && on.Real()
    ensures var from := if rule.from.Some? then rule.from.value else MonthDay(1, 1);
            var to := if rule.to.Some? then rule.to.value else MonthDay(12, 31);
            MatchesSeason(rule, on) <==> if NotAfter(from, to) then NotAfter(from, on) && NotAfter(on, to)
                                         else NotAfter(from, on) || NotAfter(on, to)
  {
  }

  lemma MonthsHaveTheirDays(month: int)
    requires 1 <= month <= 12
    ensures DaysIn(false, month) == [31, 28, 31, 30, 31, 30, 31, 31, 30, 31, 30, 31][month - 1]
    ensures DaysIn(true, month) == DaysIn(false, month) + if month == 2 then 1 else 0
  {
  }

  // ----- dates

  predicate LeapYear(year: int) {
    year % 4 == 0 && (year % 100 != 0 || year % 400 == 0)
  }

  datatype CalendarDate = CalendarDate(year: int, on: MonthDay) {
    predicate Real() {
      1 <= on.month <= 12 && 1 <= on.day <= DaysIn(LeapYear(year), on.month)
    }

    // Days since 1970-01-01.
    function DayNumber(): int {
      365 * (year - 1970) + LeapDaysBefore(year) - LeapDaysBefore(1970) + DaysBefore(LeapYear(year), on.month) + on.day - 1
    }

    // Sunday is 0.
    function Weekday(): int {
      (DayNumber() + 4) % 7
    }
  }

  function LeapDaysBefore(year: int): int {
    (year - 1) / 4 - (year - 1) / 100 + (year - 1) / 400
  }

  function DaysBefore(leap: bool, month: int): int
    decreases month
  {
    if month <= 1 then 0 else DaysBefore(leap, month - 1) + DaysIn(leap, month - 1)
  }

  function DayAfter(date: CalendarDate): CalendarDate {
    if date.on.day < DaysIn(LeapYear(date.year), date.on.month) then CalendarDate(date.year, MonthDay(date.on.month, date.on.day + 1))
    else if date.on.month < 12 then CalendarDate(date.year, MonthDay(date.on.month + 1, 1))
    else CalendarDate(date.year + 1, MonthDay(1, 1))
  }

  lemma QuotientSteps(year: int)
    ensures year / 4 == (year - 1) / 4 + if year % 4 == 0 then 1 else 0
    ensures year / 100 == (year - 1) / 100 + if year % 100 == 0 then 1 else 0
    ensures year / 400 == (year - 1) / 400 + if year % 400 == 0 then 1 else 0
  {
  }

  lemma CenturiesAreFourths(year: int)
    ensures year % 100 == 0 ==> year % 4 == 0
    ensures year % 400 == 0 ==> year % 100 == 0
  {
    var q, r := year / 100, year / 400;
    assert year == 100 * q + year % 100 && year == 400 * r + year % 400;
    assert 100 * q == 4 * (25 * q) && 400 * r == 100 * (4 * r);
  }

  lemma LeapDaysUntilNextYear(year: int)
    ensures LeapDaysBefore(year + 1) == LeapDaysBefore(year) + if LeapYear(year) then 1 else 0
  {
    QuotientSteps(year);
    CenturiesAreFourths(year);
  }

  lemma DaysOfAYear(leap: bool)
    ensures DaysBefore(leap, 12) + DaysIn(leap, 12) == if leap then 366 else 365
  {
    assert DaysBefore(leap, 4) == DaysBefore(leap, 1) + 31 + (if leap then 29 else 28) + 31;
    assert DaysBefore(leap, 8) == DaysBefore(leap, 4) + 122;
    assert DaysBefore(leap, 12) == DaysBefore(leap, 8) + 122;
  }

  // Days are numbered one after another and the week goes round with them, from a Thursday on 1970-01-01.
  lemma DaysFollowEachOther(date: CalendarDate)
    requires date.Real()
    ensures DayAfter(date).Real() && DayAfter(date).DayNumber() == date.DayNumber() + 1
    ensures DayAfter(date).Weekday() == if date.Weekday() == 6 then 0 else date.Weekday() + 1
    ensures CalendarDate(1970, MonthDay(1, 1)).DayNumber() == 0 && CalendarDate(1970, MonthDay(1, 1)).Weekday() == 4
  {
    NumberOfTheDayAfter(date);
    WeekGoesRound(date.DayNumber());
  }

  lemma NumberOfTheDayAfter(date: CalendarDate)
    requires date.Real()
    ensures DayAfter(date).Real() && DayAfter(date).DayNumber() == date.DayNumber() + 1
  {
    LeapDaysUntilNextYear(date.year);
    DaysOfAYear(LeapYear(date.year));
  }

  lemma WeekGoesRound(day: int)
    ensures (day + 1 + 4) % 7 == if (day + 4) % 7 == 6 then 0 else (day + 4) % 7 + 1
  {
  }

  // Every day of a leap year falls on every weekday, in one of seven consecutive leap years.
  lemma SomeYearHasIt(on: MonthDay, weekday: int) returns (date: CalendarDate)
    requires on.Real() && 0 <= weekday <= 6
    ensures date.Real() && date.on == on && date.Weekday() == weekday
  {
    var first := CalendarDate(2024, on).Weekday();
    var k := YearsAhead(first, weekday);
    date := CalendarDate(2024 + 4 * k, on);
    FourYearsOn(on, k);
  }

  // Four years on, a date is five weekdays later.
  lemma FourYearsOn(on: MonthDay, k: nat)
    requires k <= 6
    ensures LeapYear(2024 + 4 * k)
    ensures CalendarDate(2024 + 4 * k, on).DayNumber() == CalendarDate(2024, on).DayNumber() + 1461 * k
    ensures CalendarDate(2024 + 4 * k, on).Weekday() == (CalendarDate(2024, on).Weekday() + 5 * k) % 7
  {
    assert k in {0, 1, 2, 3, 4, 5, 6};
  }

  lemma YearsAhead(first: int, weekday: int) returns (k: nat)
    requires 0 <= first <= 6 && 0 <= weekday <= 6
    ensures k <= 6 && (first + 5 * k) % 7 == weekday
  {
    var ahead := (weekday - first) % 7;
    k := if ahead == 0 then 0 else if ahead == 1 then 3 else if ahead == 2 then 6 else if ahead == 3 then 2
         else if ahead == 4 then 5 else if ahead == 5 then 1 else 4;
  }

  predicate FiresOn(rule: Rule, date: CalendarDate) {
    date.Weekday() in rule.days && MatchesSeason(rule, date.on)
  }

  // ----- the overlap check

  // Two rules the validator refuses together.
  ghost predicate Clash(left: Rule, right: Rule)
    requires left.Resolved() && right.Resolved()
  {
    && (exists d :: d in left.days && d in right.days)
    && SeasonsOverlap(left, right)
    && (exists m :: StartsAt(left, m) && StartsAt(right, m))
  }

  // On some date, both rules produce the same start.
  ghost predicate Collide(left: Rule, right: Rule)
    requires left.Resolved() && right.Resolved()
  {
    exists date: CalendarDate, m :: date.Real() && FiresOn(left, date) && FiresOn(right, date) && StartsAt(left, m) && StartsAt(right, m)
  }

  lemma RealInAnyYear(date: CalendarDate)
    requires date.Real()
    ensures date.on.Real()
  {
  }

  // The validator refuses two rules exactly when some date would get one start from both.
  lemma OverlapCheckIsExact(left: Rule, right: Rule)
    requires left.Resolved() && right.Resolved() && left.RealSeason() && right.RealSeason()
    ensures Clash(left, right) <==> Collide(left, right)
  {
    SeasonsOverlapOnARealDay(left, right);
    if Clash(left, right) {
      var d :| d in left.days && d in right.days;
      var on: MonthDay :| on.Real() && MatchesSeason(left, on) && MatchesSeason(right, on);
      var date := SomeYearHasIt(on, d);
      assert FiresOn(left, date) && FiresOn(right, date);
    }
    if date: CalendarDate, m :| date.Real() && FiresOn(left, date) && FiresOn(right, date) && StartsAt(left, m) && StartsAt(right, m) {
      RealInAnyYear(date);
      assert date.Weekday() in left.days && date.Weekday() in right.days;
    }
  }

  // ----- the validator

  datatype Issue =
    | NoRules
    | BadFrom(rule: nat)
    | BadTo(rule: nat)
    | FirstAfterLast(rule: nat)
    | IntervalTooLong(rule: nat)
    | NoRoomBeforeClosing(rule: nat)
    | LastStartAndLastEnd(rule: nat)
    | SharedStart(rule: nat, other: nat)

  ghost predicate RuleFault(rule: Rule, duration: int, at: nat, issue: Issue)
    requires rule.Resolved()
  {
    match issue
    case NoRules => false
    case BadFrom(i) => i == at && rule.from.Some? && !rule.from.value.Real()
    case BadTo(i) => i == at && rule.to.Some? && !rule.to.value.Real()
    case FirstAfterLast(i) => i == at && rule.lastStart.value < rule.firstStart
    case IntervalTooLong(i) => i == at && 1440 < rule.intervalMin
    case NoRoomBeforeClosing(i) => i == at && rule.lastEnd.Some? && rule.lastEnd.value - duration < rule.firstStart
    case LastStartAndLastEnd(i) => i == at && rule.lastEnd.Some? && rule.firstStart <= rule.lastEnd.value - duration
                                   && rule.lastStart.value != DerivedLastStart(rule, duration)
    case SharedStart(_, _) => false
  }

  ghost predicate Fault(schedule: seq<Rule>, duration: int, issue: Issue)
    requires AllResolved(schedule)
  {
    || (schedule == [] && issue == NoRules)
    || (exists i | 0 <= i < |schedule| :: RuleFault(schedule[i], duration, i, issue))
    || (issue.SharedStart? && issue.rule < issue.other < |schedule| && Clash(schedule[issue.rule], schedule[issue.other]))
  }

  ghost predicate Accepted(schedule: seq<Rule>, duration: int)
    requires AllResolved(schedule)
  {
    forall issue :: !Fault(schedule, duration, issue)
  }

  method CheckRule(rule: Rule, duration: int, at: nat) returns (issues: seq<Issue>)
    requires rule.Resolved()
    ensures forall issue :: issue in issues <==> RuleFault(rule, duration, at, issue)
  {
    issues := [];
    if rule.from.Some? && !rule.from.value.Real() { issues := issues + [BadFrom(at)]; }
    if rule.to.Some? && !rule.to.value.Real() { issues := issues + [BadTo(at)]; }
    if rule.firstStart > rule.lastStart.value { issues := issues + [FirstAfterLast(at)]; }
    if rule.intervalMin > 24 * 60 { issues := issues + [IntervalTooLong(at)]; }
    if rule.lastEnd.Some? {
      if rule.lastEnd.value - duration < rule.firstStart {
        issues := issues + [NoRoomBeforeClosing(at)];
      } else if rule.lastStart.value != DerivedLastStart(rule, duration) {
        issues := issues + [LastStartAndLastEnd(at)];
      }
    }
  }

  method ShareAStart(left: Rule, right: Rule) returns (shared: bool)
    requires left.Resolved() && right.Resolved()
    ensures shared <==> exists m :: StartsAt(left, m) && StartsAt(right, m)
  {
    var mine := ScheduleStartTimes(left);
    var theirs := ScheduleStartTimes(right);
    shared := exists m | m in mine :: m in theirs;
  }

  method ValidateSchedule(schedule: seq<Rule>, duration: int) returns (issues: seq<Issue>)
    requires AllResolved(schedule)
    ensures forall issue :: issue in issues <==> Fault(schedule, duration, issue)
  {
    if |schedule| == 0 { return [NoRules]; }
    issues := [];
    for i := 0 to |schedule|
      invariant forall issue :: issue in issues <==> exists k | 0 <= k < i :: RuleFault(schedule[k], duration, k, issue)
    {
      var found := CheckRule(schedule[i], duration, i);
      issues := issues + found;
    }
    ghost var perRule := issues;
    for i := 0 to |schedule|
      invariant forall issue :: issue in issues <==> issue in perRule || ClashBefore(schedule, i, 0, issue)
    {
      for j := i + 1 to |schedule|
        invariant forall issue :: issue in issues <==> issue in perRule || ClashBefore(schedule, i, j, issue)
      {
        var shared := ShareAStart(schedule[i], schedule[j]);
        if (exists d | d in schedule[i].days :: d in schedule[j].days) && SeasonsOverlap(schedule[i], schedule[j]) && shared {
          issues := issues + [SharedStart(i, j)];
        }
      }
    }
  }

  // A clash between rules already compared, up to the pair (i, j).
  ghost predicate ClashBefore(schedule: seq<Rule>, i: nat, j: nat, issue: Issue)
    requires AllResolved(schedule)
  {
    && issue.SharedStart? && issue.rule < issue.other < |schedule|
    && (issue.rule < i || (issue.rule == i && issue.other < j))
    && Clash(schedule[issue.rule], schedule[issue.other])
  }

  lemma AcceptedSeasonsAreReal(schedule: seq<Rule>, duration: int, i: nat)
    requires AllResolved(schedule)
    requires Accepted(schedule, duration) && i < |schedule|
    ensures schedule[i].RealSeason()
  {
    assert !Fault(schedule, duration, BadFrom(i)) && !Fault(schedule, duration, BadTo(i));
    assert !RuleFault(schedule[i], duration, i, BadFrom(i)) && !RuleFault(schedule[i], duration, i, BadTo(i));
  }

  // An accepted schedule never produces one local start twice.
  lemma AcceptedRulesNeverCollide(schedule: seq<Rule>, duration: int, i: nat, j: nat, date: CalendarDate, m: int)
    requires AllResolved(schedule)
    requires Accepted(schedule, duration) && i < |schedule| && j < |schedule| && date.Real()
    requires FiresOn(schedule[i], date) && FiresOn(schedule[j], date) && StartsAt(schedule[i], m) && StartsAt(schedule[j], m)
    ensures i == j
  {
    AcceptedSeasonsAreReal(schedule, duration, i);
    AcceptedSeasonsAreReal(schedule, duration, j);
    OverlapCheckIsExact(schedule[i], schedule[j]);
    OverlapCheckIsExact(schedule[j], schedule[i]);
    assert !Fault(schedule, duration, SharedStart(i, j)) && !Fault(schedule, duration, SharedStart(j, i));
  }
}
