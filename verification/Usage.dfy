/** Units in use at an instant, the simple meaning every capacity decision is held against. */
module Usage {
  import opened Schema

  function Units(b: Booking): int {
    b.occupancyUnits.GetOr(1)
  }

  function OccupiedUntil(b: Booking): Instant {
    b.occupancyEndsAt.GetOr(b.endsAt)
  }

  // A confirmed booking, or a hold that has not lapsed.
  predicate Active(b: Booking, now: Instant) {
    || b.status == Confirmed
    || (b.status == Hold && b.holdExpiresAt.Some? && now <= b.holdExpiresAt.value)
  }

  // Half-open: a booking that ends when another starts does not meet it.
  predicate Covers(b: Booking, t: Instant) {
    b.startsAt <= t < OccupiedUntil(b)
  }

  predicate InUse(b: Booking, now: Instant, t: Instant) {
    Active(b, now) && Covers(b, t)
  }

  // The shape the insert and the reschedule give every row they write.
  predicate WellFormedRow(b: Booking) {
    1 <= Units(b) && b.startsAt < b.endsAt <= OccupiedUntil(b)
  }

  predicate WellFormed(rows: seq<Booking>) {
    forall i | 0 <= i < |rows| :: WellFormedRow(rows[i])
  }

  ghost const ALL: iset<BookingId> := iset i: BookingId | true

  ghost function AllBut(id: BookingId): iset<BookingId> {
    ALL - iset{id}
  }

  ghost function Contribution(rows: seq<Booking>, now: Instant, ids: iset<BookingId>, t: Instant, i: BookingId): int
    requires i < |rows|
  {
    if i in ids && InUse(rows[i], now, t) then Units(rows[i]) else 0
  }

  // Units that the bookings named by `ids` and active at `now` occupy at instant t.
  ghost function Load(rows: seq<Booking>, now: Instant, ids: iset<BookingId>, t: Instant): int {
    if rows == [] then 0
    else
      var last := |rows| - 1;
      Load(rows[..last], now, ids, t) + Contribution(rows, now, ids, t, last)
  }

  // Room for `units` more at every instant of [from, to).
  ghost predicate Fits(rows: seq<Booking>, now: Instant, ids: iset<BookingId>,
                       from: Instant, to: Instant, units: int, capacity: int)
  {
    forall t | from <= t < to :: Load(rows, now, ids, t) + units <= capacity
  }

  // ----- comparing loads

  // Every row counted on the left is counted on the right with at least as many units.
  ghost predicate CountedIn(rows: seq<Booking>, now: Instant, ids: iset<BookingId>, t: Instant,
                            rows': seq<Booking>, now': Instant, ids': iset<BookingId>, t': Instant)
    requires |rows| == |rows'|
  {
    forall i: nat | i < |rows| && i in ids && InUse(rows[i], now, t) ::
      i in ids' && InUse(rows'[i], now', t') && Units(rows[i]) <= Units(rows'[i])
  }

  lemma {:induction false} LoadAtMost(rows: seq<Booking>, now: Instant, ids: iset<BookingId>, t: Instant,
                                      rows': seq<Booking>, now': Instant, ids': iset<BookingId>, t': Instant)
    requires |rows| == |rows'| && WellFormed(rows')
    requires CountedIn(rows, now, ids, t, rows', now', ids', t')
    ensures Load(rows, now, ids, t) <= Load(rows', now', ids', t')
  {
    if rows != [] {
      var last := |rows| - 1;
      var init, init' := rows[..last], rows'[..last];
      assert forall i: nat | i < last :: init[i] == rows[i] && init'[i] == rows'[i];
      LoadAtMost(init, now, ids, t, init', now', ids', t');
      assert last in ids && InUse(rows[last], now, t) ==> InUse(rows'[last], now', t');
    }
  }

  lemma LoadEqual(rows: seq<Booking>, now: Instant, ids: iset<BookingId>, t: Instant,
                  rows': seq<Booking>, now': Instant, ids': iset<BookingId>, t': Instant)
    requires |rows| == |rows'| && WellFormed(rows) && WellFormed(rows')
    requires CountedIn(rows, now, ids, t, rows', now', ids', t')
    requires CountedIn(rows', now', ids', t', rows, now, ids, t)
    ensures Load(rows, now, ids, t) == Load(rows', now', ids', t')
  {
    LoadAtMost(rows, now, ids, t, rows', now', ids', t');
    LoadAtMost(rows', now', ids', t', rows, now, ids, t);
  }

  lemma LoadAppend(rows: seq<Booking>, b: Booking, now: Instant, ids: iset<BookingId>, t: Instant)
    ensures Load(rows + [b], now, ids, t)
         == Load(rows, now, ids, t) + (if |rows| in ids && InUse(b, now, t) then Units(b) else 0)
  {
    assert (rows + [b])[..|rows|] == rows;
  }

  lemma {:induction false} LoadNonNegative(rows: seq<Booking>, now: Instant, ids: iset<BookingId>, t: Instant)
    requires WellFormed(rows)
    ensures 0 <= Load(rows, now, ids, t)
  {
    if rows != [] {
      LoadNonNegative(rows[..|rows| - 1], now, ids, t);
    }
  }

  lemma {:induction false} LoadSplit(rows: seq<Booking>, now: Instant, ids: iset<BookingId>, t: Instant, id: BookingId)
    requires id < |rows| && id in ids
    ensures Load(rows, now, ids, t)
         == Load(rows, now, ids - iset{id}, t) + Contribution(rows, now, ids, t, id)
  {
    var last := |rows| - 1;
    if id == last {
      LoadAgree(rows[..last], now, ids, ids - iset{id}, t);
    } else {
      LoadSplit(rows[..last], now, ids, t, id);
    }
  }

  lemma {:induction false} LoadAgree(rows: seq<Booking>, now: Instant, ids: iset<BookingId>, ids': iset<BookingId>, t: Instant)
    requires forall i: nat | i < |rows| :: i in ids <==> i in ids'
    ensures Load(rows, now, ids, t) == Load(rows, now, ids', t)
  {
    if rows != [] {
      LoadAgree(rows[..|rows| - 1], now, ids, ids', t);
    }
  }

  lemma {:induction false} LoadOfNobody(rows: seq<Booking>, now: Instant, t: Instant)
    ensures Load(rows, now, iset{}, t) == 0
  {
    if rows != [] {
      LoadOfNobody(rows[..|rows| - 1], now, t);
    }
  }

  // ----- start points are enough

  // The points the guard tests: the request's own start, and the start of every active
  // overlapping booking that begins inside the window.
  ghost predicate Candidate(rows: seq<Booking>, now: Instant, ids: iset<BookingId>, from: Instant, to: Instant, p: Instant) {
    || p == from
    || exists i: nat :: i < |rows| && i in ids && StartsInside(rows[i], now, from, to) && rows[i].startsAt == p
  }

  predicate StartsInside(b: Booking, now: Instant, from: Instant, to: Instant) {
    Active(b, now) && from <= b.startsAt < to && from < OccupiedUntil(b)
  }

  // The latest start at or before t among `from` and the bookings covering t.
  lemma {:induction false} LatestStart(rows: seq<Booking>, now: Instant, ids: iset<BookingId>, from: Instant, to: Instant, t: Instant)
    returns (p: Instant)
    requires from <= t < to
    ensures Candidate(rows, now, ids, from, to, p) && from <= p <= t
    ensures forall i: nat | i < |rows| && i in ids && InUse(rows[i], now, t) :: rows[i].startsAt <= p
  {
    p := from;
    for k := 0 to |rows|
      invariant Candidate(rows, now, ids, from, to, p) && from <= p <= t
      invariant forall i: nat | i < k && i in ids && InUse(rows[i], now, t) :: rows[i].startsAt <= p
    {
      if k in ids && InUse(rows[k], now, t) && p < rows[k].startsAt {
        assert StartsInside(rows[k], now, from, to);
        p := rows[k].startsAt;
      }
    }
  }

  // Testing only the candidate points decides the whole window.
  lemma CandidatePointsDecide(rows: seq<Booking>, now: Instant, ids: iset<BookingId>,
                              from: Instant, to: Instant, units: int, capacity: int)
    requires WellFormed(rows) && from < to
    ensures Fits(rows, now, ids, from, to, units, capacity)
       <==> (forall p | Candidate(rows, now, ids, from, to, p) :: Load(rows, now, ids, p) + units <= capacity)
  {
    if forall p | Candidate(rows, now, ids, from, to, p) :: Load(rows, now, ids, p) + units <= capacity {
      forall t | from <= t < to
        ensures Load(rows, now, ids, t) + units <= capacity
      {
        var p := LatestStart(rows, now, ids, from, to, t);
        LoadAtMost(rows, now, ids, t, rows, now, ids, p);
      }
    }
  }
}
