/** Interval algebra: the free periods `getListingAvailability` offers, against the containment and
    overlap tests by which `validateBookingDates` accepts a booking.  Instants are milliseconds and
    every period is half-open, `[start, end)`. */
module Availability {
  import opened Prelude

  datatype Period = Period(start: int, end: int) {
    predicate NonEmpty() { start < end }

    predicate Has(t: int) { start <= t < end }

    /** SQL `q <@ this`, for a non-empty `q`. */
    predicate Contains(q: Period) { start <= q.start && q.end <= end }

    /** SQL `this && q`, for non-empty periods. */
    predicate Overlaps(q: Period) { start < q.end && q.start < end }
  }

  predicate AllNonEmpty(ps: seq<Period>) {
    forall p :: p in ps ==> p.NonEmpty()
  }

  /** Some listed period holds the instant `t`. */
  predicate Covers(ps: seq<Period>, t: int) {
    exists p :: p in ps && p.Has(t)
  }

  /** The whole of `q` lies inside a single listed period. */
  predicate Offers(ps: seq<Period>, q: Period) {
    exists p :: p in ps && p.Contains(q)
  }

  /** No listed period overlaps `q`. */
  predicate Clear(ps: seq<Period>, q: Period) {
    forall p :: p in ps ==> !p.Overlaps(q)
  }

  // ---------------------------------------------------------------- the computation

  function ClipOne(p: Period, today: int): seq<Period> {
    if p.end <= today then [] else [Period(Max(p.start, today), p.end)]
  }

  /** The availability slots with everything before the start of today cut away. */
  function Clip(slots: seq<Period>, today: int): seq<Period> {
    if slots == [] then [] else ClipOne(slots[0], today) + Clip(slots[1..], today)
  }

  /** What is left of `p` once `b` is taken out: zero, one or two periods. */
  function CutOne(p: Period, b: Period): seq<Period> {
    if b.start >= p.end || b.end <= p.start then [p]
    else (if p.start < b.start then [Period(p.start, b.start)] else [])
         + (if p.end > b.end then [Period(b.end, p.end)] else [])
  }

  function Cut(free: seq<Period>, b: Period): seq<Period> {
    if free == [] then [] else CutOne(free[0], b) + Cut(free[1..], b)
  }

  /** One round of the outer loop: a booking that is over is skipped, one that is running is clipped. */
  function CutBooking(free: seq<Period>, b: Period, today: int): seq<Period> {
    if b.end <= today then free else Cut(free, Period(Max(b.start, today), b.end))
  }

  function Subtract(free: seq<Period>, bookings: seq<Period>, today: int): seq<Period>
    decreases |bookings|
  {
    if bookings == [] then free else Subtract(CutBooking(free, bookings[0], today), bookings[1..], today)
  }

  /** The periods offered to a renter. */
  function FreePeriods(slots: seq<Period>, bookings: seq<Period>, today: int): seq<Period> {
    Subtract(Clip(slots, today), bookings, today)
  }

  lemma {:induction false} NothingToSubtractFrom(bookings: seq<Period>, today: int)
    ensures Subtract([], bookings, today) == []
    decreases |bookings|
  {
    if bookings != [] {
      NothingToSubtractFrom(bookings[1..], today);
    }
  }

  lemma ClipHead(slots: seq<Period>, i: nat, today: int)
    requires i < |slots|
    ensures Clip(slots[i..], today) == ClipOne(slots[i], today) + Clip(slots[i + 1..], today)
  {
    assert slots[i..][1..] == slots[i + 1..];
  }

  method ClipSlots(slots: seq<Period>, startOfToday: int) returns (acc: seq<Period>)
    ensures acc == Clip(slots, startOfToday)
  {
    acc := [];
    for i := 0 to |slots|
      invariant acc + Clip(slots[i..], startOfToday) == Clip(slots, startOfToday)
    {
      var period := slots[i];
      ghost var before, rest := acc, Clip(slots[i + 1..], startOfToday);
      ClipHead(slots, i, startOfToday);
      if period.end > startOfToday {
        var start := if period.start < startOfToday then startOfToday else period.start;
        acc := acc + [Period(start, period.end)];
      }
      assert acc == before + ClipOne(period, startOfToday);
      ConcatAssociates(before, ClipOne(period, startOfToday), rest);
    }
  }

  /** The nested loops of `getListingAvailability`. */
  method SubtractBookings(slots: seq<Period>, bookings: seq<Period>, startOfToday: int)
    returns (freePeriods: seq<Period>)
    ensures freePeriods == FreePeriods(slots, bookings, startOfToday)
  {
    freePeriods := ClipSlots(slots, startOfToday);
    if freePeriods == [] {
      NothingToSubtractFrom(bookings, startOfToday);
      return [];
    }
    for i := 0 to |bookings|
      invariant Subtract(freePeriods, bookings[i..], startOfToday) == FreePeriods(slots, bookings, startOfToday)
    {
      var bStart, bEnd := bookings[i].start, bookings[i].end;
      assert bookings[i..][1..] == bookings[i + 1..];
      if bEnd > startOfToday {
        var actualBStart := if bStart < startOfToday then startOfToday else bStart;
        var nextFreePeriods := CutPeriods(freePeriods, actualBStart, bEnd);
        freePeriods := nextFreePeriods;
      }
    }
  }

  lemma CutHead(p: Period, qs: seq<Period>, b: Period)
    ensures Cut([p] + qs, b) == CutOne(p, b) + Cut(qs, b)
  {
    assert ([p] + qs)[1..] == qs;
  }

  lemma {:induction false} CutConcat(ps: seq<Period>, qs: seq<Period>, b: Period)
    ensures Cut(ps + qs, b) == Cut(ps, b) + Cut(qs, b)
  {
    if ps == [] {
      assert ps + qs == qs;
    } else {
      var p, rest := ps[0], ps[1..];
      HeadOfConcat(ps, qs);
      CutConcat(rest, qs, b);
      CutHead(p, rest, b);
      CutHead(p, rest + qs, b);
      ConcatAssociates(CutOne(p, b), Cut(rest, b), Cut(qs, b));
    }
  }

  lemma CutStep(free: seq<Period>, i: nat, b: Period)
    requires i < |free|
    ensures Cut(free[..i + 1], b) == Cut(free[..i], b) + CutOne(free[i], b)
  {
    CutConcat(free[..i], [free[i]], b);
    assert free[..i] + [free[i]] == free[..i + 1];
    assert Cut([free[i]], b) == CutOne(free[i], b) + Cut([], b);
  }

  method CutPeriods(freePeriods: seq<Period>, bStart: int, bEnd: int) returns (next: seq<Period>)
    ensures next == Cut(freePeriods, Period(bStart, bEnd))
  {
    next := [];
    ghost var b := Period(bStart, bEnd);
    for i := 0 to |freePeriods|
      invariant next == Cut(freePeriods[..i], b)
    {
      var p := freePeriods[i];
      CutStep(freePeriods, i, b);
      if bStart >= p.end || bEnd <= p.start {
        next := next + [p];
      } else {
        if p.start < bStart {
          next := next + [Period(p.start, bStart)];
        }
        if p.end > bEnd {
          next := next + [Period(bEnd, p.end)];
        }
      }
    }
    assert freePeriods[..|freePeriods|] == freePeriods;
  }

  // ---------------------------------------------------------------- the result is exact

  lemma {:induction false} CutIsExact(free: seq<Period>, b: Period, t: int)
    ensures Covers(Cut(free, b), t) <==> Covers(free, t) && !b.Has(t)
  {
    if free != [] {
      CutIsExact(free[1..], b, t);
      var p, one, rest := free[0], CutOne(free[0], b), Cut(free[1..], b);
      CoversConcat(one, rest, t);
      CoversConcat([p], free[1..], t);
      assert [p] + free[1..] == free;
      assert Covers([p], t) <==> p.Has(t);
      CutOneIsExact(p, b, t);
    }
  }

  lemma CutOneIsExact(p: Period, b: Period, t: int)
    ensures Covers(CutOne(p, b), t) <==> p.Has(t) && !b.Has(t)
  {
    if p.Has(t) && !b.Has(t) {
      var piece := if b.start >= p.end || b.end <= p.start then p
                   else if t < b.start then Period(p.start, b.start) else Period(b.end, p.end);
      assert piece in CutOne(p, b) && piece.Has(t);
    }
  }

  lemma CoversConcat(ps: seq<Period>, qs: seq<Period>, t: int)
    ensures Covers(ps + qs, t) <==> Covers(ps, t) || Covers(qs, t)
  {
    if Covers(ps, t) {
      var p :| p in ps && p.Has(t);
      assert p in ps + qs;
    }
    if Covers(qs, t) {
      var p :| p in qs && p.Has(t);
      assert p in ps + qs;
    }
  }

  lemma {:induction false} ClipIsExact(slots: seq<Period>, today: int, t: int)
    ensures Covers(Clip(slots, today), t) <==> Covers(slots, t) && today <= t
  {
    if slots != [] {
      ClipIsExact(slots[1..], today, t);
      var p := slots[0];
      var head := ClipOne(p, today);
      CoversConcat(head, Clip(slots[1..], today), t);
      CoversConcat([p], slots[1..], t);
      assert [p] + slots[1..] == slots;
      assert Covers([p], t) <==> p.Has(t);
      if p.Has(t) && today <= t {
        assert head[0].Has(t);
      }
    }
  }

  lemma {:induction false} SubtractIsExact(free: seq<Period>, bookings: seq<Period>, today: int, t: int)
    requires today <= t
    ensures Covers(Subtract(free, bookings, today), t) <==> Covers(free, t) && !Covers(bookings, t)
    decreases |bookings|
  {
    if bookings != [] {
      var b := bookings[0];
      if b.end > today {
        CutIsExact(free, Period(Max(b.start, today), b.end), t);
      }
      SubtractIsExact(CutBooking(free, b, today), bookings[1..], today, t);
      CoversConcat([b], bookings[1..], t);
      assert [b] + bookings[1..] == bookings;
      assert Covers([b], t) <==> b.Has(t);
    }
  }

  lemma {:induction false} StartsFromToday(free: seq<Period>, bookings: seq<Period>, today: int)
    requires forall p :: p in free ==> today <= p.start
    ensures forall p :: p in Subtract(free, bookings, today) ==> today <= p.start
    decreases |bookings|
  {
    if bookings != [] {
      var b := bookings[0];
      if b.end > today {
        CutInside(free, Period(Max(b.start, today), b.end));
      }
      StartsFromToday(CutBooking(free, b, today), bookings[1..], today);
    }
  }

  lemma {:induction false} ClipFromToday(slots: seq<Period>, today: int)
    ensures forall p :: p in Clip(slots, today) ==> today <= p.start && today < p.end
    ensures AllNonEmpty(slots) ==> AllNonEmpty(Clip(slots, today))
  {
    if slots != [] {
      ClipFromToday(slots[1..], today);
    }
  }

  /** Exactness: an instant is offered if and only if some slot holds it, it is not before the start
      of today, and no blocking booking holds it. */
  lemma FreePeriodsAreExact(slots: seq<Period>, bookings: seq<Period>, today: int, t: int)
    ensures Covers(FreePeriods(slots, bookings, today), t)
            <==> Covers(slots, t) && today <= t && !Covers(bookings, t)
  {
    ClipIsExact(slots, today, t);
    if today <= t {
      SubtractIsExact(Clip(slots, today), bookings, today, t);
    } else {
      ClipFromToday(slots, today);
      StartsFromToday(Clip(slots, today), bookings, today);
    }
  }

  /** Every remaining period lies inside a period it was cut from, and misses the booking. */
  lemma {:induction false} CutInside(free: seq<Period>, b: Period)
    ensures forall q :: q in Cut(free, b) ==> exists p :: p in free && p.Contains(q) && q in CutOne(p, b)
  {
    if free != [] {
      CutInside(free[1..], b);
      forall q | q in Cut(free, b) ensures exists p :: p in free && p.Contains(q) && q in CutOne(p, b) {
        if q in CutOne(free[0], b) {
          assert free[0].Contains(q);
        } else {
          assert q in Cut(free[1..], b);
          var p :| p in free[1..] && p.Contains(q) && q in CutOne(p, b);
          assert p in free;
        }
      }
    }
  }

  lemma {:induction false} SubtractNonEmpty(free: seq<Period>, bookings: seq<Period>, today: int)
    requires AllNonEmpty(free)
    ensures AllNonEmpty(Subtract(free, bookings, today))
    decreases |bookings|
  {
    if bookings != [] {
      var b := bookings[0];
      CutBookingNonEmpty(free, b, today);
      SubtractNonEmpty(CutBooking(free, b, today), bookings[1..], today);
    }
  }

  /** No empty period is ever offered. */
  lemma FreePeriodsNonEmpty(slots: seq<Period>, bookings: seq<Period>, today: int)
    requires AllNonEmpty(slots)
    ensures AllNonEmpty(FreePeriods(slots, bookings, today))
  {
    ClipFromToday(slots, today);
    SubtractNonEmpty(Clip(slots, today), bookings, today);
  }

  // ---------------------------------------------------------------- offered equals bookable

  lemma OffersConcat(ps: seq<Period>, qs: seq<Period>, q: Period)
    ensures Offers(ps + qs, q) <==> Offers(ps, q) || Offers(qs, q)
  {
    if Offers(ps, q) {
      var p :| p in ps && p.Contains(q);
      assert p in ps + qs;
    }
    if Offers(qs, q) {
      var p :| p in qs && p.Contains(q);
      assert p in ps + qs;
    }
  }

  lemma CutOneOffers(p: Period, b: Period, q: Period)
    requires q.NonEmpty()
    ensures Offers(CutOne(p, b), q) <==> p.Contains(q) && !b.Overlaps(q)
  {
    if p.Contains(q) && !b.Overlaps(q) {
      var piece := if b.start >= p.end || b.end <= p.start then p
                   else if q.end <= b.start then Period(p.start, b.start) else Period(b.end, p.end);
      assert piece in CutOne(p, b) && piece.Contains(q);
    }
  }

  lemma {:induction false} CutOffers(free: seq<Period>, b: Period, q: Period)
    requires q.NonEmpty()
    ensures Offers(Cut(free, b), q) <==> Offers(free, q) && !b.Overlaps(q)
  {
    if free != [] {
      CutOffers(free[1..], b, q);
      var p := free[0];
      OffersConcat(CutOne(p, b), Cut(free[1..], b), q);
      OffersConcat([p], free[1..], q);
      assert [p] + free[1..] == free;
      assert Offers([p], q) <==> p.Contains(q);
      CutOneOffers(p, b, q);
    }
  }

  lemma {:induction false} ClipOffers(slots: seq<Period>, today: int, q: Period)
    requires today <= q.start < q.end
    ensures Offers(Clip(slots, today), q) <==> Offers(slots, q)
  {
    if slots != [] {
      ClipOffers(slots[1..], today, q);
      var p := slots[0];
      var head := ClipOne(p, today);
      OffersConcat(head, Clip(slots[1..], today), q);
      OffersConcat([p], slots[1..], q);
      assert [p] + slots[1..] == slots;
      assert Offers([p], q) <==> p.Contains(q);
      if p.Contains(q) {
        assert head[0].Contains(q);
      }
    }
  }

  lemma ClearCons(p: Period, ps: seq<Period>, q: Period)
    ensures Clear([p] + ps, q) <==> !p.Overlaps(q) && Clear(ps, q)
  {
    if Clear([p] + ps, q) {
      assert p in [p] + ps;
      assert forall r :: r in ps ==> r in [p] + ps;
    }
  }

  lemma {:induction false} SubtractOffers(free: seq<Period>, bookings: seq<Period>, today: int, q: Period)
    requires today <= q.start < q.end
    ensures Offers(Subtract(free, bookings, today), q) <==> Offers(free, q) && Clear(bookings, q)
    decreases |bookings|
  {
    if bookings != [] {
      var b := bookings[0];
      if b.end > today {
        CutOffers(free, Period(Max(b.start, today), b.end), q);
      }
      SubtractOffers(CutBooking(free, b, today), bookings[1..], today, q);
      ClearCons(b, bookings[1..], q);
      assert bookings == [b] + bookings[1..];
    }
  }

  /** A period from today on lies inside one offered period if and only if it lies inside one slot and
      overlaps no blocking booking: what is shown and what is accepted agree. */
  lemma OfferedEqualsBookable(slots: seq<Period>, bookings: seq<Period>, today: int, q: Period)
    requires today <= q.start < q.end
    ensures Offers(FreePeriods(slots, bookings, today), q) <==> Offers(slots, q) && Clear(bookings, q)
  {
    ClipOffers(slots, today, q);
    SubtractOffers(Clip(slots, today), bookings, today, q);
  }

  // ---------------------------------------------------------------- the order of the bookings does not matter

  lemma CutSmall(ps: seq<Period>, b: Period)
    requires |ps| <= 2
    ensures Cut(ps, b) == if ps == [] then []
                          else if |ps| == 1 then CutOne(ps[0], b)
                          else CutOne(ps[0], b) + CutOne(ps[1], b)
  {
    if |ps| == 2 {
      assert ps[1..] == [ps[1]];
      assert Cut(ps[1..], b) == CutOne(ps[1], b) + Cut([], b);
    }
  }

  lemma CutOneCommutes(p: Period, a: Period, b: Period)
    requires p.NonEmpty() && a.NonEmpty() && b.NonEmpty()
    ensures Cut(CutOne(p, a), b) == Cut(CutOne(p, b), a)
  {
    if !a.Overlaps(p) {
      CutClearCommutes(p, a, b);
    } else if !b.Overlaps(p) {
      CutClearCommutes(p, b, a);
    } else if a.end < b.start {
      CutTwoSides(p, a, b);
    } else if b.end < a.start {
      CutTwoSides(p, b, a);
    } else {
      CutHull(p, a, b);
      CutHull(p, b, a);
    }
  }

  lemma CutClearCommutes(p: Period, a: Period, b: Period)
    requires p.NonEmpty() && a.NonEmpty() && b.NonEmpty() && !a.Overlaps(p)
    ensures Cut(CutOne(p, a), b) == CutOne(p, b) == Cut(CutOne(p, b), a)
  {
    assert CutOne(p, a) == [p];
    CutSmall([p], b);
    CutOfClear(CutOne(p, b), a);
  }

  lemma CutTwoSides(p: Period, a: Period, b: Period)
    requires p.NonEmpty() && a.NonEmpty() && b.NonEmpty()
    requires a.Overlaps(p) && b.Overlaps(p) && a.end < b.start
    ensures Cut(CutOne(p, a), b) == Left(p, a) + [Period(a.end, b.start)] + Right(p, b) == Cut(CutOne(p, b), a)
  {
    var gap := [Period(a.end, b.start)];
    CutOfClear(Left(p, a), b);
    CutOfClear(Right(p, b), a);
    CutSmall([Period(a.end, p.end)], b);
    CutSmall([Period(p.start, b.start)], a);
    CutConcat(Left(p, a), [Period(a.end, p.end)], b);
    CutConcat([Period(p.start, b.start)], Right(p, b), a);
  }

  lemma CutHull(p: Period, a: Period, b: Period)
    requires p.NonEmpty() && a.NonEmpty() && b.NonEmpty()
    requires a.Overlaps(p) && b.Overlaps(p) && b.start <= a.end && a.start <= b.end
    ensures var hull := Period(Min(a.start, b.start), Max(a.end, b.end));
            Cut(CutOne(p, a), b) == Left(p, hull) + Right(p, hull)
  {
    CutConcat(Left(p, a), Right(p, a), b);
    CutLeft(p, a, b);
    CutRight(p, a, b);
  }

  lemma CutLeft(p: Period, a: Period, b: Period)
    requires p.NonEmpty() && a.NonEmpty() && b.NonEmpty()
    requires a.Overlaps(p) && b.Overlaps(p) && b.start <= a.end && a.start <= b.end
    ensures Cut(Left(p, a), b) == Left(p, Period(Min(a.start, b.start), Max(a.end, b.end)))
  {
    CutSmall(Left(p, a), b);
  }

  lemma CutRight(p: Period, a: Period, b: Period)
    requires p.NonEmpty() && a.NonEmpty() && b.NonEmpty()
    requires a.Overlaps(p) && b.Overlaps(p) && b.start <= a.end && a.start <= b.end
    ensures Cut(Right(p, a), b) == Right(p, Period(Min(a.start, b.start), Max(a.end, b.end)))
  {
    CutSmall(Right(p, a), b);
  }

  function Left(p: Period, b: Period): seq<Period> {
    if p.start < b.start then [Period(p.start, b.start)] else []
  }

  function Right(p: Period, b: Period): seq<Period> {
    if p.end > b.end then [Period(b.end, p.end)] else []
  }

  lemma {:induction false} CutOfClear(ps: seq<Period>, q: Period)
    requires Clear(ps, q)
    ensures Cut(ps, q) == ps
  {
    if ps != [] {
      assert ps == [ps[0]] + ps[1..];
      assert ps[0] in ps;
      CutOfClear(ps[1..], q);
    }
  }

  lemma {:induction false} CutCommutes(free: seq<Period>, a: Period, b: Period)
    requires AllNonEmpty(free) && a.NonEmpty() && b.NonEmpty()
    ensures Cut(Cut(free, a), b) == Cut(Cut(free, b), a)
  {
    if free != [] {
      CutCommutes(free[1..], a, b);
      CutOneCommutes(free[0], a, b);
      CutConcat(CutOne(free[0], a), Cut(free[1..], a), b);
      CutConcat(CutOne(free[0], b), Cut(free[1..], b), a);
    }
  }

  lemma CutBookingCommutes(free: seq<Period>, a: Period, b: Period, today: int)
    requires AllNonEmpty(free) && a.NonEmpty() && b.NonEmpty()
    ensures CutBooking(CutBooking(free, a, today), b, today) == CutBooking(CutBooking(free, b, today), a, today)
  {
    if today < a.end && today < b.end {
      CutCommutes(free, Period(Max(a.start, today), a.end), Period(Max(b.start, today), b.end));
    }
  }

  lemma {:induction false} MoveToFront(free: seq<Period>, bookings: seq<Period>, i: nat, today: int)
    requires AllNonEmpty(free) && AllNonEmpty(bookings) && i < |bookings|
    ensures Subtract(free, bookings, today)
            == Subtract(free, [bookings[i]] + (bookings[..i] + bookings[i + 1..]), today)
    decreases i
  {
    var b := bookings[i];
    if i == 0 {
      assert [b] + (bookings[..0] + bookings[1..]) == bookings;
    } else {
      var first, rest := bookings[0], bookings[1..];
      var others := rest[..i - 1] + rest[i..];
      assert bookings[..i] + bookings[i + 1..] == [first] + others;
      assert rest[i - 1] == b;
      assert AllNonEmpty([first, b]);
      CutBookingNonEmpty(free, first, today);
      MoveToFront(CutBooking(free, first, today), rest, i - 1, today);
      SubtractTwo(free, first, b, others, today);
      SubtractTwo(free, b, first, others, today);
      CutBookingCommutes(free, first, b, today);
    }
  }

  lemma CutBookingNonEmpty(free: seq<Period>, b: Period, today: int)
    requires AllNonEmpty(free)
    ensures AllNonEmpty(CutBooking(free, b, today))
  {
    if b.end > today {
      CutInside(free, Period(Max(b.start, today), b.end));
    }
  }

  lemma SubtractTwo(free: seq<Period>, a: Period, b: Period, others: seq<Period>, today: int)
    ensures Subtract(free, [a] + ([b] + others), today)
            == Subtract(CutBooking(free, a, today), [b] + others, today)
            == Subtract(CutBooking(CutBooking(free, a, today), b, today), others, today)
  {
    assert ([a] + ([b] + others))[1..] == [b] + others;
    assert ([b] + others)[1..] == others;
  }

  lemma {:induction false} SubtractIsConfluent(free: seq<Period>, xs: seq<Period>, ys: seq<Period>, today: int)
    requires AllNonEmpty(free) && AllNonEmpty(xs) && multiset(xs) == multiset(ys)
    ensures Subtract(free, xs, today) == Subtract(free, ys, today)
    decreases |xs|
  {
    if xs == [] {
      assert |multiset(ys)| == 0;
    } else {
      var i := TakeOut(xs, ys);
      var others := ys[..i] + ys[i + 1..];
      MoveToFront(free, ys, i, today);
      CutBookingNonEmpty(free, xs[0], today);
      SubtractIsConfluent(CutBooking(free, xs[0], today), xs[1..], others, today);
      assert ([xs[0]] + others)[1..] == others;
    }
  }

  /** Confluence: the bookings query has no ORDER BY, and whatever order its rows come in, the very
      same list of periods is returned. */
  lemma FreePeriodsAreConfluent(slots: seq<Period>, xs: seq<Period>, ys: seq<Period>, today: int)
    requires AllNonEmpty(slots) && AllNonEmpty(xs) && multiset(xs) == multiset(ys)
    ensures FreePeriods(slots, xs, today) == FreePeriods(slots, ys, today)
  {
    ClipFromToday(slots, today);
    SubtractIsConfluent(Clip(slots, today), xs, ys, today);
  }

  // ---------------------------------------------------------------- duration accounting

  function TotalLength(ps: seq<Period>): int {
    if ps == [] then 0 else ps[0].end - ps[0].start + TotalLength(ps[1..])
  }

  function CommonLength(p: Period, q: Period): int {
    Max(0, Min(p.end, q.end) - Max(p.start, q.start))
  }

  /** The time the listed periods have in common with `q`, counted per period. */
  function OverlapLength(ps: seq<Period>, q: Period): int {
    if ps == [] then 0 else CommonLength(ps[0], q) + OverlapLength(ps[1..], q)
  }

  function TotalOverlap(ps: seq<Period>, bookings: seq<Period>): int {
    if bookings == [] then 0 else OverlapLength(ps, bookings[0]) + TotalOverlap(ps, bookings[1..])
  }

  /** Each period misses all the later ones. */
  predicate Apart(ps: seq<Period>) {
    ps == [] || (Clear(ps[1..], ps[0]) && Apart(ps[1..]))
  }

  lemma {:induction false} LengthConcat(ps: seq<Period>, qs: seq<Period>, b: Period)
    ensures TotalLength(ps + qs) == TotalLength(ps) + TotalLength(qs)
    ensures OverlapLength(ps + qs, b) == OverlapLength(ps, b) + OverlapLength(qs, b)
  {
    if ps == [] {
      assert ps + qs == qs;
    } else {
      LengthConcat(ps[1..], qs, b);
      assert (ps + qs)[1..] == ps[1..] + qs;
    }
  }

  lemma SmallLength(ps: seq<Period>, b: Period)
    requires |ps| <= 2
    ensures TotalLength(ps) == if ps == [] then 0 else if |ps| == 1 then ps[0].end - ps[0].start
                               else ps[0].end - ps[0].start + ps[1].end - ps[1].start
    ensures OverlapLength(ps, b) == if ps == [] then 0 else if |ps| == 1 then CommonLength(ps[0], b)
                                    else CommonLength(ps[0], b) + CommonLength(ps[1], b)
  {
    if |ps| == 2 {
      assert ps[1..] == [ps[1]];
      assert TotalLength([ps[1]]) == ps[1].end - ps[1].start;
    }
  }

  /** Taking out a booking shortens the free time by what the two had in common, and what a disjoint
      booking has in common with it stays the same. */
  lemma {:induction false} CutLength(free: seq<Period>, a: Period, b: Period)
    requires AllNonEmpty(free) && a.NonEmpty() && b.NonEmpty()
    ensures TotalLength(Cut(free, a)) == TotalLength(free) - OverlapLength(free, a)
    ensures !a.Overlaps(b) ==> OverlapLength(Cut(free, a), b) == OverlapLength(free, b)
  {
    if free != [] {
      var one := CutOne(free[0], a);
      CutLength(free[1..], a, b);
      LengthConcat(one, Cut(free[1..], a), b);
      SmallLength(one, b);
      assert free[0].NonEmpty();
    }
  }

  lemma {:induction false} OverlapFromToday(free: seq<Period>, b: Period, today: int)
    requires forall p :: p in free ==> today <= p.start
    ensures OverlapLength(free, b) == if b.end <= today then 0
                                      else OverlapLength(free, Period(Max(b.start, today), b.end))
  {
    if free != [] {
      OverlapFromToday(free[1..], b, today);
    }
  }

  lemma {:induction false} OverlapKept(free: seq<Period>, a: Period, bookings: seq<Period>)
    requires AllNonEmpty(free) && a.NonEmpty() && AllNonEmpty(bookings) && Clear(bookings, a)
    ensures TotalOverlap(Cut(free, a), bookings) == TotalOverlap(free, bookings)
  {
    if bookings != [] {
      CutLength(free, a, bookings[0]);
      OverlapKept(free, a, bookings[1..]);
    }
  }

  lemma CutBookingLength(free: seq<Period>, b: Period, rest: seq<Period>, today: int)
    requires AllNonEmpty(free) && b.NonEmpty() && AllNonEmpty(rest) && Clear(rest, b)
    requires forall p :: p in free ==> today <= p.start
    ensures TotalLength(CutBooking(free, b, today)) == TotalLength(free) - OverlapLength(free, b)
    ensures TotalOverlap(CutBooking(free, b, today), rest) == TotalOverlap(free, rest)
    ensures forall p :: p in CutBooking(free, b, today) ==> today <= p.start
  {
    OverlapFromToday(free, b, today);
    if b.end > today {
      var clipped := Period(Max(b.start, today), b.end);
      CutLength(free, clipped, clipped);
      OverlapKept(free, clipped, rest);
      CutInside(free, clipped);
    }
  }

  lemma {:induction false} SubtractLength(free: seq<Period>, bookings: seq<Period>, today: int)
    requires AllNonEmpty(free) && AllNonEmpty(bookings) && Apart(bookings)
    requires forall p :: p in free ==> today <= p.start
    ensures TotalLength(Subtract(free, bookings, today)) == TotalLength(free) - TotalOverlap(free, bookings)
    decreases |bookings|
  {
    if bookings != [] {
      CutBookingLength(free, bookings[0], bookings[1..], today);
      CutBookingNonEmpty(free, bookings[0], today);
      SubtractLength(CutBooking(free, bookings[0], today), bookings[1..], today);
    }
  }

  /** Accounting: free time is the time of the slots from today on, less what each live booking takes
      out of them. */
  lemma FreeTimeAccounting(slots: seq<Period>, bookings: seq<Period>, today: int)
    requires AllNonEmpty(slots) && AllNonEmpty(bookings) && Apart(bookings)
    ensures TotalLength(FreePeriods(slots, bookings, today))
            == TotalLength(Clip(slots, today)) - TotalOverlap(Clip(slots, today), bookings)
  {
    ClipFromToday(slots, today);
    SubtractLength(Clip(slots, today), bookings, today);
  }

  lemma {:induction false} ApartConcat(ps: seq<Period>, qs: seq<Period>)
    requires Apart(ps) && Apart(qs) && forall p :: p in ps ==> Clear(qs, p)
    ensures Apart(ps + qs)
  {
    if ps == [] {
      assert ps + qs == qs;
    } else {
      ApartConcat(ps[1..], qs);
      assert (ps + qs)[1..] == ps[1..] + qs;
      assert ps[0] in ps;
      assert forall p :: p in ps[1..] + qs ==> p in ps[1..] || p in qs;
    }
  }

  lemma {:induction false} CutApart(free: seq<Period>, b: Period)
    requires Apart(free) && b.NonEmpty()
    ensures Apart(Cut(free, b))
  {
    if free != [] {
      var one, rest := CutOne(free[0], b), Cut(free[1..], b);
      CutApart(free[1..], b);
      CutInside(free[1..], b);
      CutInside([free[0]], b);
      assert one == Cut([free[0]], b);
      forall q | q in one ensures Clear(rest, q) {
        forall r | r in rest ensures !r.Overlaps(q) {
          var p :| p in free[1..] && p.Contains(r) && r in CutOne(p, b);
          assert !p.Overlaps(free[0]);
        }
      }
      assert |one| == 2 ==> one[1..] == [one[1]];
      ApartConcat(one, rest);
    }
  }

  lemma {:induction false} SubtractApart(free: seq<Period>, bookings: seq<Period>, today: int)
    requires Apart(free) && AllNonEmpty(bookings)
    ensures Apart(Subtract(free, bookings, today))
    decreases |bookings|
  {
    if bookings != [] {
      var b := bookings[0];
      if b.end > today {
        CutApart(free, Period(Max(b.start, today), b.end));
      }
      SubtractApart(CutBooking(free, b, today), bookings[1..], today);
    }
  }

  lemma {:induction false} ClipApart(slots: seq<Period>, today: int)
    requires Apart(slots)
    ensures Apart(Clip(slots, today))
    ensures |Clip(slots, today)| <= |slots|
    ensures forall q :: q in Clip(slots, today) ==> exists p :: p in slots && p.Contains(q)
  {
    if slots != [] {
      ClipApart(slots[1..], today);
      var rest := Clip(slots[1..], today);
      forall q | q in Clip(slots, today) ensures exists p :: p in slots && p.Contains(q) {
        if q in rest {
          var p :| p in slots[1..] && p.Contains(q);
          assert p in slots;
        } else {
          assert slots[0].Contains(q);
        }
      }
      if slots[0].end > today {
        var head := Period(Max(slots[0].start, today), slots[0].end);
        forall r | r in rest ensures !r.Overlaps(head) {
          var p :| p in slots[1..] && p.Contains(r);
          assert !p.Overlaps(slots[0]);
        }
        ApartConcat([head], rest);
      } else {
        assert Clip(slots, today) == rest;
      }
    }
  }

  lemma {:induction false} OverlapOfClear(ps: seq<Period>, q: Period)
    requires Clear(ps, q)
    ensures OverlapLength(ps, q) == 0
  {
    if ps != [] {
      assert ps[0] in ps;
      OverlapOfClear(ps[1..], q);
    }
  }

  /** In disjoint periods, a period offered by one of them is counted exactly once. */
  lemma {:induction false} OverlapOfOffered(ps: seq<Period>, q: Period)
    requires Apart(ps) && q.NonEmpty() && Offers(ps, q)
    ensures OverlapLength(ps, q) == q.end - q.start
  {
    if ps[0].Contains(q) {
      OverlapOfClear(ps[1..], q);
    } else {
      var p :| p in ps && p.Contains(q);
      assert p in ps[1..];
      OverlapOfOffered(ps[1..], q);
    }
  }

  lemma {:induction false} SubtractAppend(free: seq<Period>, bookings: seq<Period>, b: Period, today: int)
    ensures Subtract(free, bookings + [b], today) == CutBooking(Subtract(free, bookings, today), b, today)
    decreases |bookings|
  {
    if bookings == [] {
      assert [] + [b] == [b];
      assert Subtract(free, [b], today) == Subtract(CutBooking(free, b, today), [], today);
    } else {
      SubtractAppend(CutBooking(free, bookings[0], today), bookings[1..], b, today);
      assert (bookings + [b])[1..] == bookings[1..] + [b];
    }
  }

  /** A booking taken from an offered period lowers the free time by exactly its own length. */
  lemma NewBookingTakesItsLength(slots: seq<Period>, bookings: seq<Period>, today: int, q: Period)
    requires AllNonEmpty(slots) && Apart(slots) && AllNonEmpty(bookings)
    requires today <= q.start < q.end && Offers(FreePeriods(slots, bookings, today), q)
    ensures TotalLength(FreePeriods(slots, bookings + [q], today))
            == TotalLength(FreePeriods(slots, bookings, today)) - (q.end - q.start)
  {
    var free := FreePeriods(slots, bookings, today);
    FreePeriodsNonEmpty(slots, bookings, today);
    ClipApart(slots, today);
    SubtractApart(Clip(slots, today), bookings, today);
    SubtractAppend(Clip(slots, today), bookings, q, today);
    OverlapOfOffered(free, q);
    CutLength(free, q, q);
  }

  lemma {:induction false} CutCount(free: seq<Period>, b: Period)
    requires Apart(free) && b.NonEmpty()
    ensures |Cut(free, b)| <= |free| + 1
  {
    if free != [] {
      if |CutOne(free[0], b)| == 2 {
        CutOfClear(free[1..], b);
      } else {
        CutCount(free[1..], b);
      }
    }
  }

  lemma {:induction false} SubtractCount(free: seq<Period>, bookings: seq<Period>, today: int)
    requires Apart(free) && AllNonEmpty(bookings)
    ensures |Subtract(free, bookings, today)| <= |free| + |bookings|
    decreases |bookings|
  {
    if bookings != [] {
      var b := bookings[0];
      if b.end > today {
        CutCount(free, Period(Max(b.start, today), b.end));
        CutApart(free, Period(Max(b.start, today), b.end));
      }
      SubtractCount(CutBooking(free, b, today), bookings[1..], today);
    }
  }

  /** Disjoint slots stay disjoint pieces, never more of them than slots plus bookings. */
  lemma PieceCount(slots: seq<Period>, bookings: seq<Period>, today: int)
    requires Apart(slots) && AllNonEmpty(bookings)
    ensures Apart(FreePeriods(slots, bookings, today))
    ensures |FreePeriods(slots, bookings, today)| <= |slots| + |bookings|
  {
    ClipApart(slots, today);
    SubtractApart(Clip(slots, today), bookings, today);
    SubtractCount(Clip(slots, today), bookings, today);
  }
}
