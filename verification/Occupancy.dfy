/** The availability side's occupancy arithmetic: intervals, and their largest overlap in a window. */
module Occupancy {
  import opened Schema

  const MINUTE_MS: int := 60000

  datatype Interval = Interval(start: Instant, end: Instant, units: int)

  predicate Usable(x: Interval) {
    x.start < x.end && 0 < x.units
  }

  predicate AllUsable(xs: seq<Interval>) {
    forall i | 0 <= i < |xs| :: Usable(xs[i])
  }

  predicate Spans(x: Interval, t: Instant) {
    x.start <= t < x.end
  }

  function IntervalLoad(xs: seq<Interval>, t: Instant): int {
    if xs == [] then 0
    else
      var last := |xs| - 1;
      IntervalLoad(xs[..last], t) + if Spans(xs[last], t) then xs[last].units else 0
  }

  // m is the largest load at an instant of [from, to), and some instant reaches it.
  ghost predicate IsPeak(xs: seq<Interval>, from: Instant, to: Instant, m: int) {
    && (forall t | from <= t < to :: IntervalLoad(xs, t) <= m)
    && (exists t :: from <= t < to && IntervalLoad(xs, t) == m)
  }

  lemma IntervalLoadAppend(xs: seq<Interval>, x: Interval, t: Instant)
    ensures IntervalLoad(xs + [x], t) == IntervalLoad(xs, t) + if Spans(x, t) then x.units else 0
  {
    assert (xs + [x])[..|xs|] == xs;
  }

  lemma {:induction false} IntervalLoadConcat(xs: seq<Interval>, ys: seq<Interval>, t: Instant)
    ensures IntervalLoad(xs + ys, t) == IntervalLoad(xs, t) + IntervalLoad(ys, t)
  {
    if ys == [] {
      assert xs + ys == xs;
    } else {
      var last := |ys| - 1;
      assert xs + ys == (xs + ys[..last]) + [ys[last]];
      IntervalLoadAppend(xs + ys[..last], ys[last], t);
      IntervalLoadConcat(xs, ys[..last], t);
    }
  }

  lemma {:induction false} IntervalLoadGrows(xs: seq<Interval>, t: Instant, p: Instant)
    requires AllUsable(xs)
    requires forall i | 0 <= i < |xs| && Spans(xs[i], t) :: Spans(xs[i], p)
    ensures 0 <= IntervalLoad(xs, t) <= IntervalLoad(xs, p)
  {
    if xs != [] {
      var last := |xs| - 1;
      assert forall i | 0 <= i < last :: xs[..last][i] == xs[i];
      IntervalLoadGrows(xs[..last], t, p);
    }
  }

  // ----- sorted points, each once

  predicate Increasing(s: seq<Instant>) {
    forall i, j | 0 <= i < j < |s| :: s[i] < s[j]
  }

  lemma FirstIsLeast(p: Instant, s: seq<Instant>)
    requires Increasing(s) && forall q | q in s :: p < q
    ensures Increasing([p] + s)
  {
    var all := [p] + s;
    forall i, j | 0 <= i < j < |all| ensures all[i] < all[j] {
      assert all[j] == s[j - 1] && all[j] in s;
      if 0 < i { assert all[i] == s[i - 1]; }
    }
  }

  lemma HeadAndTail(s: seq<Instant>)
    requires s != [] && Increasing(s)
    ensures Increasing(s[1..]) && forall q | q in s[1..] :: s[0] < q
    ensures forall q :: q in s <==> q == s[0] || q in s[1..]
  {
    assert s == [s[0]] + s[1..];
  }

  function AddPoint(s: seq<Instant>, p: Instant): (r: seq<Instant>)
    requires Increasing(s)
    ensures Increasing(r)
    ensures forall q :: q in r <==> q in s || q == p
  {
    if s == [] then [p]
    else
      HeadAndTail(s);
      if p < s[0] then
        FirstIsLeast(p, s);
        [p] + s
      else if p == s[0] then s
      else
        var rest := AddPoint(s[1..], p);
        FirstIsLeast(s[0], rest);
        [s[0]] + rest
  }

  method UsableIntervals(xs: seq<Interval>) returns (parsed: seq<Interval>)
    ensures AllUsable(parsed)
    ensures AllUsable(xs) ==> parsed == xs
    ensures forall x :: x in parsed <==> x in xs && Usable(x)
  {
    parsed := [];
    for k := 0 to |xs|
      invariant AllUsable(parsed)
      invariant AllUsable(xs) ==> parsed == xs[..k]
      invariant forall x :: x in parsed <==> x in xs[..k] && Usable(x)
    {
      if xs[k].end <= xs[k].start || xs[k].units <= 0 { continue; }
      parsed := parsed + [xs[k]];
    }
    assert xs[..|xs|] == xs;
  }

  // The boundary of the window and of every interval meeting it.
  ghost predicate Boundaries(xs: seq<Interval>, from: Instant, to: Instant, points: seq<Instant>) {
    && Increasing(points)
    && from in points && to in points
    && (forall p | p in points :: from <= p <= to)
    && (forall i | 0 <= i < |xs| && xs[i].end > from && xs[i].start < to :: (if from < xs[i].start then xs[i].start else from) in points)
  }

  lemma OneMoreIsAway(xs: seq<Interval>, k: nat, from: Instant, to: Instant, points: seq<Instant>)
    requires k < |xs| && (xs[k].end <= from || to <= xs[k].start) && Boundaries(xs[..k], from, to, points)
    ensures Boundaries(xs[..k + 1], from, to, points)
  {
    assert forall i | 0 <= i < k :: xs[..k][i] == xs[..k + 1][i];
  }

  lemma OneMoreMeets(xs: seq<Interval>, k: nat, from: Instant, to: Instant, points: seq<Instant>, added: seq<Instant>)
    requires k < |xs| && from < to && xs[k].start < xs[k].end && from < xs[k].end && xs[k].start < to
    requires Boundaries(xs[..k], from, to, points) && Increasing(added)
    requires forall q :: q in added <==> q in points || q == (if from < xs[k].start then xs[k].start else from)
                                         || q == (if xs[k].end < to then xs[k].end else to)
    ensures Boundaries(xs[..k + 1], from, to, added)
  {
    assert forall i | 0 <= i < k :: xs[..k][i] == xs[..k + 1][i];
  }

  // The intervals meeting the window, and the points worth testing in it.
  method Meeting(xs: seq<Interval>, from: Instant, to: Instant) returns (overlapping: seq<Interval>, points: seq<Instant>)
    requires AllUsable(xs) && from < to
    ensures forall t | from <= t < to :: IntervalLoad(overlapping, t) == IntervalLoad(xs, t)
    ensures Boundaries(xs, from, to, points)
  {
    overlapping := [];
    points := AddPoint([from], to);
    for k := 0 to |xs|
      invariant forall t | from <= t < to :: IntervalLoad(overlapping, t) == IntervalLoad(xs[..k], t)
      invariant Boundaries(xs[..k], from, to, points)
    {
      var x := xs[k];
      assert xs[..k + 1] == xs[..k] + [x];
      forall t | from <= t < to
        ensures IntervalLoad(xs[..k + 1], t) == IntervalLoad(xs[..k], t) + if Spans(x, t) then x.units else 0
        ensures IntervalLoad(overlapping + [x], t) == IntervalLoad(overlapping, t) + if Spans(x, t) then x.units else 0
      {
        IntervalLoadAppend(xs[..k], x, t);
        IntervalLoadAppend(overlapping, x, t);
      }
      if x.end <= from || x.start >= to {
        OneMoreIsAway(xs, k, from, to, points);
        continue;
      }
      overlapping := overlapping + [x];
      ghost var before := points;
      points := AddPoint(points, if from < x.start then x.start else from);
      points := AddPoint(points, if x.end < to then x.end else to);
      OneMoreMeets(xs, k, from, to, before, points);
    }
    assert xs[..|xs|] == xs;
  }

  method UsedAt(xs: seq<Interval>, point: Instant) returns (used: int)
    ensures used == IntervalLoad(xs, point)
  {
    used := 0;
    for m := 0 to |xs|
      invariant used == IntervalLoad(xs[..m], point)
    {
      assert xs[..m + 1][..m] == xs[..m];
      if xs[m].start <= point && xs[m].end > point {
        used := used + xs[m].units;
      }
    }
    assert xs[..|xs|] == xs;
  }

  method MaxAtBoundaries(xs: seq<Interval>, from: Instant, to: Instant) returns (maximum: int)
    requires AllUsable(xs)
    ensures to <= from ==> maximum == 0
    ensures from < to ==> IsPeak(xs, from, to, maximum)
  {
    if to <= from { return 0; }
    var overlapping, points := Meeting(xs, from, to);
    BoundariesEndWithTheWindow(xs, from, to, points);
    var last := |points| - 1;
    maximum := 0;
    for k := 0 to last
      invariant 0 <= maximum
      invariant forall j | 0 <= j < k :: IntervalLoad(xs, points[j]) <= maximum
      invariant if k == 0 then maximum == 0 else exists j | 0 <= j < k :: IntervalLoad(xs, points[j]) == maximum
    {
      var used := UsedAt(overlapping, points[k]);
      IntervalLoadGrows(xs, points[k], points[k]);
      maximum := if maximum < used then used else maximum;
    }
    InnerPointsDominate(xs, from, to, points, maximum);
  }

  lemma BoundariesEndWithTheWindow(xs: seq<Interval>, from: Instant, to: Instant, points: seq<Instant>)
    requires from < to && Boundaries(xs, from, to, points)
    ensures 2 <= |points| && points[|points| - 1] == to
    ensures forall j | 0 <= j < |points| - 1 :: from <= points[j] < to
  {
    var i :| 0 <= i < |points| && points[i] == from;
    var j :| 0 <= j < |points| && points[j] == to;
    assert points[|points| - 1] in points;
    forall j | 0 <= j < |points| - 1 ensures from <= points[j] < to {
      assert points[j] in points;
    }
  }

  // Every instant of the window is matched by a boundary before the last one.
  lemma InnerPointsDominate(xs: seq<Interval>, from: Instant, to: Instant, points: seq<Instant>, maximum: int)
    requires AllUsable(xs) && from < to && points != [] && Boundaries(xs, from, to, points)
    requires forall j | 0 <= j < |points| - 1 :: IntervalLoad(xs, points[j]) <= maximum
    ensures forall t | from <= t < to :: IntervalLoad(xs, t) <= maximum
  {
    forall t | from <= t < to
      ensures IntervalLoad(xs, t) <= maximum
    {
      var p := from;
      for k := 0 to |xs|
        invariant p in points && from <= p <= t
        invariant forall i | 0 <= i < k && Spans(xs[i], t) :: xs[i].start <= p
      {
        if Spans(xs[k], t) && p < xs[k].start { p := xs[k].start; }
      }
      IntervalLoadGrows(xs, t, p);
      var j :| 0 <= j < |points| && points[j] == p;
      assert p < to && to in points;
      assert j < |points| - 1;
    }
  }

  // ----- the peak exists

  function TotalUnits(xs: seq<Interval>): int {
    if xs == [] then 0 else TotalUnits(xs[..|xs| - 1]) + xs[|xs| - 1].units
  }

  lemma {:induction false} LoadWithinTotal(xs: seq<Interval>, t: Instant)
    requires AllUsable(xs)
    ensures 0 <= IntervalLoad(xs, t) <= TotalUnits(xs)
  {
    if xs != [] {
      assert forall i | 0 <= i < |xs| - 1 :: xs[..|xs| - 1][i] == xs[i];
      LoadWithinTotal(xs[..|xs| - 1], t);
    }
  }

  lemma PeakExists(xs: seq<Interval>, from: Instant, to: Instant)
    requires AllUsable(xs) && from < to
    ensures exists m :: IsPeak(xs, from, to, m)
  {
    var m := IntervalLoad(xs, from);
    LoadWithinTotal(xs, from);
    while exists t :: from <= t < to && m < IntervalLoad(xs, t)
      invariant exists t :: from <= t < to && IntervalLoad(xs, t) == m
      decreases TotalUnits(xs) - m
    {
      var t :| from <= t < to && m < IntervalLoad(xs, t);
      LoadWithinTotal(xs, t);
      m := IntervalLoad(xs, t);
    }
    assert IsPeak(xs, from, to, m);
  }

  ghost function Peak(xs: seq<Interval>, from: Instant, to: Instant): (m: int)
    requires AllUsable(xs) && from < to
    ensures IsPeak(xs, from, to, m)
  {
    PeakExists(xs, from, to);
    var m :| IsPeak(xs, from, to, m);
    m
  }

  // Room for `units` more at every instant of the window.
  ghost predicate RoomThroughout(xs: seq<Interval>, from: Instant, to: Instant, units: int, capacity: int) {
    forall t | from <= t < to :: IntervalLoad(xs, t) + units <= capacity
  }

  lemma PeakDecides(xs: seq<Interval>, from: Instant, to: Instant, m: int, units: int, capacity: int)
    requires IsPeak(xs, from, to, m)
    ensures m + units <= capacity <==> RoomThroughout(xs, from, to, units, capacity)
  {
    var reached :| from <= reached < to && IntervalLoad(xs, reached) == m;
    if RoomThroughout(xs, from, to, units, capacity) {
      assert IntervalLoad(xs, reached) + units <= capacity;
    }
    if m + units <= capacity {
      forall t | from <= t < to ensures IntervalLoad(xs, t) + units <= capacity {
        assert IntervalLoad(xs, t) <= m;
      }
    }
  }

  method IsSlotAvailable(start: Instant, end: Instant, turnaroundMin: int, xs: seq<Interval>, requestedUnits: int, capacity: int)
    returns (available: bool)
    requires start < end && 0 <= turnaroundMin
    ensures AllUsable(xs) ==>
              (available <==> RoomThroughout(xs, start, end + turnaroundMin * MINUTE_MS, requestedUnits, ResolveCapacity(capacity, None)))
  {
    var parsed := UsableIntervals(xs);
    var used := MaxAtBoundaries(parsed, start, end + turnaroundMin * MINUTE_MS);
    PeakDecides(parsed, start, end + turnaroundMin * MINUTE_MS, used, requestedUnits, ResolveCapacity(capacity, None));
    available := used + requestedUnits <= ResolveCapacity(capacity, None);
  }

  // ----- capacity of a date, as the availability side reads it

  datatype CapacityDefault = CapacityDefault(fromDate: Date, capacity: int)

  function ResolveCapacity(fallback: int, override: Option<int>): int {
    var value := override.GetOr(fallback);
    if value < 0 then 0 else value
  }

  // ----- services

  datatype Service = Service(durationMin: int, turnaroundMin: int, seatsPerUnit: Option<int>)
  {
    predicate Valid() {
      0 < durationMin && 0 <= turnaroundMin && (seatsPerUnit.Some? ==> 0 < seatsPerUnit.value)
    }
  }

  // A party is split across as many units as it needs; None stands for the range error.
  function OccupancyFor(service: Service, quantity: int): (units: Option<int>)
    requires service.Valid()
    ensures units.Some? ==> 1 <= units.value
    ensures service.seatsPerUnit.None? ==> units == Some(1)
    ensures service.seatsPerUnit.Some? ==>
              (units.None? <==> quantity < 1) &&
              (units.Some? ==> (units.value - 1) * service.seatsPerUnit.value < quantity <= units.value * service.seatsPerUnit.value)
  {
    if service.seatsPerUnit.None? then Some(1)
    else if quantity < 1 then None
    else
      var seats := service.seatsPerUnit.value;
      var units := (quantity + seats - 1) / seats;
      assert units * seats <= quantity + seats - 1 < (units + 1) * seats by { DivisionBounds(quantity + seats - 1, seats); }
      assert (units - 1) * seats == units * seats - seats && (units + 1) * seats == units * seats + seats;
      AtMostOneTimes(units + 1, seats);
      Some(units)
  }

  lemma DivisionBounds(a: int, b: int)
    requires 0 < b
    ensures (a / b) * b <= a < (a / b + 1) * b
  {
    assert a == (a / b) * b + a % b;
    assert (a / b + 1) * b == (a / b) * b + b;
  }

  lemma AtMostOneTimes(n: int, seats: int)
    requires 0 < seats
    ensures n <= 1 ==> n * seats <= seats
  {
    if n <= 1 {
      assert (1 - n) * seats >= 0;
      assert (1 - n) * seats == seats - n * seats;
    }
  }
}
