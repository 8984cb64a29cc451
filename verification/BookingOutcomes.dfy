/** Every call of the booking engine and every job delivery, written out: who may make it and when, and all of what
    it then changes. */
module BookingOutcomes {
  import opened Prelude
  import opened Calendar
  import opened Availability
  import opened Wallets
  import opened Bookings
  import opened BookingSafety

  // ---------------------------------------------------------------- answering a booking

  /** The three answers look for the booking, then at who is asking, at its status and at the clock. */
  ghost predicate AnswersOnly(w: World, userId: int, id: int, party: int, notParty: BookingError, w': World,
                              r: Result<int, BookingError>)
    requires id in w.bookings
  {
    var b := w.bookings[id];
    && (r.Success? <==> userId == party && b.status == PENDING && w.now <= b.period.start)
    && (r.Success? ==> r.value == id)
    && (r.Failure? ==>
          && w' == w
          && r.error == if userId != party then notParty else if b.status != PENDING then NotPending else InThePast)
  }

  /** Only the renter cancels and only the landlord rejects, a pending booking, until it begins.  The renter then has
      the price back, and the start job is gone; a refusal changes nothing. */
  lemma TurnDownIsExact(w: World, userId: int, id: int, byLandlord: bool)
    requires ForeignKeys(w)
    ensures var (w', r) := TurnDown(w, userId, id, byLandlord);
            && (id !in w.bookings ==> w' == w && r == Failure(BookingNotFound))
            && (id in w.bookings ==>
                  var b := w.bookings[id];
                  && (if byLandlord
                      then AnswersOnly(w, userId, id, w.listings[b.listingId].owner, OnlyTheLandlord, w', r)
                      else AnswersOnly(w, userId, id, b.renterId, OnlyTheRenter, w', r))
                  && (r.Success? ==>
                        && w' == w.(bookings := w'.bookings, bank := w'.bank, startJobs := w'.startJobs)
                        && w'.bookings
                           == w.bookings[id := b.(status := if byLandlord then REJECTED else CANCELLED)]
                        && w'.startJobs == w.startJobs - {id}
                        && Moves(w.bank, w'.bank, b.renterId, b.totalPrice,
                                 Transaction(b.renterId, REFUND, b.totalPrice, Some(id)))))
  {
  }

  /** Only the landlord confirms, a pending booking, until it begins.  Its start job then waits for its start, and no
      money moves; a refusal changes nothing. */
  lemma ConfirmIsExact(w: World, userId: int, id: int)
    requires ForeignKeys(w)
    ensures var (w', r) := Confirm(w, userId, id);
            && (id !in w.bookings ==> w' == w && r == Failure(BookingNotFound))
            && (id in w.bookings ==>
                  var b := w.bookings[id];
                  && AnswersOnly(w, userId, id, w.listings[b.listingId].owner, OnlyTheLandlord, w', r)
                  && (r.Success? && !(id in w.startJobs && w.startJobs[id].waiting) ==>
                        w' == w.(bookings := w.bookings[id := b.(status := CONFIRMED)],
                                 startJobs := w.startJobs[id := Job(b.period.start, true)]))
                  && (r.Success? && id in w.startJobs && w.startJobs[id].waiting ==> w'.startJobs == w.startJobs))
  {
  }

  // ---------------------------------------------------------------- every change of status

  /** The status a booking has after an event, by the event alone: each change has one call or one delivery that
      makes it, from one party, at one stage. */
  ghost predicate StatusAfter(w: World, e: Event, id: int, status: BookingStatus)
    requires ForeignKeys(w) && id in w.bookings
  {
    var b := w.bookings[id];
    var landlord := w.listings[b.listingId].owner;
    var answerable := b.status == PENDING && w.now <= b.period.start;
    status ==
    if answerable && e == CancelCall(b.renterId, id) then CANCELLED
    else if answerable && e == RejectCall(landlord, id) then REJECTED
    else if answerable && e == ConfirmCall(landlord, id) then CONFIRMED
    else if b.status == CONFIRMED && e == StartJob(id) && id in w.startJobs && w.startJobs[id].due <= w.now then ACTIVE
    else if b.status == ACTIVE && e == CompletionJob(id) && id in w.completionJobs
            && w.completionJobs[id].due <= w.now && b.period.end <= w.now then COMPLETED
    else b.status
  }

  /** For every event and every booking, if and only if. */
  lemma StatusChangesExactly(w: World, e: Event, id: int)
    requires ForeignKeys(w) && Ids(w) && id in w.bookings
    ensures id in Step(w, e).bookings && StatusAfter(w, e, id, Step(w, e).bookings[id].status)
  {
    StepLocality(w, e);
    if id == Target(w, e) {
      TargetStatus(w, e, id);
    }
  }

  lemma TargetStatus(w: World, e: Event, id: int)
    requires ForeignKeys(w) && id == Target(w, e) && id in w.bookings && !e.CreateCall?
    requires id in Step(w, e).bookings
    ensures StatusAfter(w, e, id, Step(w, e).bookings[id].status)
  {
    if e.UpdatePeriodCall? {
      UpdateKeepsStatus(w, e.userId, id, e.request);
    }
  }

  lemma UpdateKeepsStatus(w: World, userId: int, id: int, request: PeriodRequest)
    requires ForeignKeys(w) && id in w.bookings
    ensures id in UpdatePeriod(w, userId, id, request).0.bookings
    ensures UpdatePeriod(w, userId, id, request).0.bookings[id].status == w.bookings[id].status
  {
  }

  // ---------------------------------------------------------------- the two jobs

  /** A due start job makes a confirmed booking active and has its completion wait for its end; whatever the status,
      an existing booking's job is then done. */
  lemma StartIsExact(w: World, id: int)
    requires ForeignKeys(w) && id in w.bookings && id in w.startJobs && w.startJobs[id].due <= w.now
    ensures var b, w' := w.bookings[id], DeliverStart(w, id);
            && w'.startJobs == w.startJobs[id := Job(w.startJobs[id].due, false)]
            && w' == w.(bookings := w'.bookings, startJobs := w'.startJobs, completionJobs := w'.completionJobs)
            && w'.bookings == (if b.status == CONFIRMED then w.bookings[id := b.(status := ACTIVE)] else w.bookings)
            && (b.status != CONFIRMED ==> w'.completionJobs == w.completionJobs)
            && (b.status == CONFIRMED && !(id in w.completionJobs && w.completionJobs[id].waiting) ==>
                  w'.completionJobs == w.completionJobs[id := Job(Max(w.now, b.period.end), true)])
  {
  }

  /** A due completion job ends an active booking and pays its landlord the full price. */
  lemma CompletionIsExact(w: World, id: int)
    requires ForeignKeys(w) && id in w.bookings && id in w.completionJobs && w.completionJobs[id].due <= w.now
    ensures var b, w' := w.bookings[id], DeliverCompletion(w, id);
            var landlord := w.listings[b.listingId].owner;
            && w'.completionJobs == w.completionJobs[id := Job(w.completionJobs[id].due, false)]
            && w' == w.(bookings := w'.bookings, bank := w'.bank, completionJobs := w'.completionJobs)
            && (if b.status == ACTIVE && b.period.end <= w.now
                then && w'.bookings == w.bookings[id := b.(status := COMPLETED)]
                     && Moves(w.bank, w'.bank, landlord, b.totalPrice,
                              Transaction(landlord, BOOKING_PAYOUT, b.totalPrice, Some(id)))
                else w'.bookings == w.bookings && w'.bank == w.bank)
  {
  }

  // ---------------------------------------------------------------- dates

  /** Another pending, confirmed or active booking of the same listing that has an instant in common with a period. */
  ghost predicate InTheWay(b: Booking, listingId: int, period: Period) {
    && b.listingId == listingId
    && (b.status == PENDING || b.status == CONFIRMED || b.status == ACTIVE)
    && exists t :: b.period.Has(t) && period.Has(t)
  }

  ghost predicate NothingInTheWay(bookings: map<int, Booking>, listingId: int, period: Period, exclude: Option<int>) {
    forall id | id in bookings && exclude != Some(id) :: !InTheWay(bookings[id], listingId, period)
  }

  /** One slot has all the instants of a period. */
  ghost predicate InOneSlot(slots: seq<Period>, period: Period) {
    exists s | s in slots :: Encloses(s, period)
  }

  ghost predicate Encloses(s: Period, period: Period) {
    forall t | period.Has(t) :: s.Has(t)
  }

  /** Dates are accepted if and only if the period is not in the past and not empty, one slot has all of its instants,
      and no booking but the excluded one is in its way; a refusal names the first of these that fails. */
  lemma ValidationIsExact(now: int, bookings: map<int, Booking>, listingId: int, slots: seq<Period>, period: Period,
                          exclude: Option<int>)
    requires forall id :: id in bookings ==> bookings[id].period.start < bookings[id].period.end
    ensures var clear := NothingInTheWay(bookings, listingId, period, exclude);
            var error := ValidateBookingDates(now, bookings, listingId, slots, period, exclude);
            && (error == None <==> now <= period.start < period.end && InOneSlot(slots, period) && clear)
            && (error == Some(InThePast) <==> period.start < now)
            && (error == Some(EndBeforeStart) <==> now <= period.start && period.end <= period.start)
            && (error == Some(OutsideAvailability) <==> now <= period.start < period.end && !InOneSlot(slots, period))
            && (error == Some(NotAvailable) <==>
                  now <= period.start < period.end && InOneSlot(slots, period) && !clear)
  {
    if period.start < period.end {
      forall s ensures Encloses(s, period) <==> s.Contains(period) {
        assert period.Has(period.start) && period.Has(period.end - 1);
      }
      forall id | id in bookings
        ensures exclude != Some(id) && InTheWay(bookings[id], listingId, period)
                <==> id in Blocking(bookings, listingId, exclude) && bookings[id].period.Overlaps(period)
      {
        OverlapByInstants(bookings[id].period, period);
      }
    }
  }

  lemma OverlapByInstants(p: Period, q: Period)
    requires p.start < p.end && q.start < q.end
    ensures p.Overlaps(q) <==> exists t :: p.Has(t) && q.Has(t)
  {
    if p.Overlaps(q) {
      var t := Max(p.start, q.start);
      assert p.Has(t) && q.Has(t);
    }
  }

  /** A whole minute: the local clock shows no seconds and no milliseconds. */
  lemma WholeMinuteIsExact(t: int, tz: int)
    ensures WholeMinute(t, tz) <==> (t + tz) % 60000 / 1000 == 0 && (t + tz) % 1000 == 0
  {
    var local := t + tz;
    assert local == 60000 * (local / 60000) + local % 60000;
    assert local % 1000 == local % 60000 % 1000;
  }

  // ---------------------------------------------------------------- asking for a period

  /** What dates a listing takes: from a whole minute that is not past, in one slot, with nothing in the way. */
  ghost predicate Takes(w: World, listingId: int, period: Period, exclude: Option<int>)
    requires listingId in w.listings
  {
    && (period.start + w.tz) % 60000 == 0
    && w.now <= period.start
    && InOneSlot(w.listings[listingId].availability, period)
    && NothingInTheWay(w.bookings, listingId, period, exclude)
  }

  function AskedPeriod(tz: int, request: PeriodRequest): Period {
    var start := request.startDate;
    Period(start, start + Duration(start, tz, request.pricePeriod, request.periodsCount))
  }

  lemma AskedPeriodIsTaken(w: World, listingId: int, request: PeriodRequest, exclude: Option<int>)
    requires PeriodsNonEmpty(w) && listingId in w.listings
    ensures var period := PeriodOf(w.tz, request, request.pricePeriod);
            && period == AskedPeriod(w.tz, request)
            && (Takes(w, listingId, period, exclude) <==>
                  && WholeMinute(request.startDate, w.tz)
                  && var slots := w.listings[listingId].availability;
                     ValidateBookingDates(w.now, w.bookings, listingId, slots, period, exclude) == None)
  {
    var period := PeriodOf(w.tz, request, request.pricePeriod);
    EndIsStartPlusDuration(request.startDate, w.tz, request.pricePeriod, request.periodsCount);
    EndAfterStart(request.startDate, w.tz, request.pricePeriod, request.periodsCount);
    assert period.start < period.end;
    ValidationIsExact(w.now, w.bookings, listingId, w.listings[listingId].availability, period, exclude);
  }

  /** A request is granted if and only if a renter other than the landlord asks an open listing for dates it takes,
      by a tariff it has, with enough money.  The new row is the one asked for, pending, at the listing's price times
      the count, which leaves the wallet; a refusal uses up a serial id at most. */
  lemma CreateIsExact(w: World, userId: int, isRenter: bool, listingId: int, request: PeriodRequest)
    requires ForeignKeys(w) && Ids(w) && PeriodsNonEmpty(w)
    ensures var (w', r) := Create(w, userId, isRenter, listingId, request);
            var period, tariff := AskedPeriod(w.tz, request), request.pricePeriod;
            && (r.Success? <==>
                  && isRenter && listingId in w.listings
                  && var listing := w.listings[listingId];
                     && listing.open && listing.owner != userId && tariff in listing.pricings
                     && Takes(w, listingId, period, None)
                     && listing.pricings[tariff] * request.periodsCount <= w.bank.Balance(userId))
            && (r.Failure? ==> w' == w.(nextId := w'.nextId) && w.nextId <= w'.nextId <= w.nextId + 1)
            && (r.Success? ==>
                  var price := w.listings[listingId].pricings[tariff];
                  var total := price * request.periodsCount;
                  var b := Booking(listingId, userId, period, price, tariff, total, PENDING);
                  && r.value == w.nextId
                  && w' == w.(bookings := w.bookings[w.nextId := b], nextId := w.nextId + 1, bank := w'.bank)
                  && Moves(w.bank, w'.bank, userId, -total,
                           Transaction(userId, BOOKING_PAYMENT, total, Some(w.nextId))))
  {
    if listingId in w.listings {
      AskedPeriodIsTaken(w, listingId, request, None);
    }
    assert w.bookings - {w.nextId} == w.bookings;
  }

  /** A refused request names the first reason there is. */
  lemma CreateRefusalsAreExact(w: World, userId: int, isRenter: bool, listingId: int, request: PeriodRequest)
    requires ForeignKeys(w) && Ids(w) && PeriodsNonEmpty(w)
    ensures var r := Create(w, userId, isRenter, listingId, request).1;
            && (r == Failure(OnlyRenters) <==> !isRenter)
            && (r == Failure(ListingNotFound) <==> isRenter && listingId !in w.listings)
            && (isRenter && listingId in w.listings ==>
                  var listing, tariff := w.listings[listingId], request.pricePeriod;
                  var allowed := listing.open && userId != listing.owner;
                  var taken := allowed && Takes(w, listingId, AskedPeriod(w.tz, request), None);
                  && (r == Failure(InactiveListing) <==> !listing.open)
                  && (r == Failure(OwnListing) <==> listing.open && userId == listing.owner)
                  && (r == Failure(NotWholeMinute) <==> allowed && (request.startDate + w.tz) % 60000 != 0)
                  && (r == Failure(NoSuchPricing) <==> taken && tariff !in listing.pricings)
                  && (r == Failure(InsufficientFunds) <==>
                        && taken && tariff in listing.pricings
                        && w.bank.Balance(userId) < listing.pricings[tariff] * request.periodsCount))
  {
    if listingId in w.listings {
      AskedPeriodIsTaken(w, listingId, request, None);
    }
  }

  /** The dates and the tariff a pending booking may be changed to: dates the listing takes when that booking is left
      out, by the tariff it has already or one on offer. */
  ghost predicate Changeable(w: World, id: int, request: PeriodRequest)
    requires ForeignKeys(w) && id in w.bookings
  {
    var b := w.bookings[id];
    && (request.pricePeriod == b.pricePeriod || request.pricePeriod in w.listings[b.listingId].pricings)
    && Takes(w, b.listingId, AskedPeriod(w.tz, request), Some(id))
  }

  /** The price of one period after a change: a kept tariff keeps the price agreed before. */
  function PriceAfter(w: World, id: int, tariff: PeriodType): nat
    requires ForeignKeys(w) && id in w.bookings
    requires tariff == w.bookings[id].pricePeriod || tariff in w.listings[w.bookings[id].listingId].pricings
  {
    var b := w.bookings[id];
    if tariff == b.pricePeriod then b.price else w.listings[b.listingId].pricings[tariff]
  }

  /** The row a change leaves. */
  function RowAfter(w: World, id: int, request: PeriodRequest): Booking
    requires ForeignKeys(w) && id in w.bookings
    requires var b := w.bookings[id];
             request.pricePeriod == b.pricePeriod || request.pricePeriod in w.listings[b.listingId].pricings
  {
    var price := PriceAfter(w, id, request.pricePeriod);
    w.bookings[id].(period := AskedPeriod(w.tz, request), price := price, pricePeriod := request.pricePeriod,
                    totalPrice := price * request.periodsCount)
  }

  lemma ChangeIsExact(w: World, id: int, request: PeriodRequest)
    requires ForeignKeys(w) && PeriodsNonEmpty(w) && id in w.bookings
    ensures var b := w.bookings[id];
            var changed := ChangedBooking(w.now, w.tz, w.listings[b.listingId], w.bookings, id, request);
            && (changed.Success? <==> Changeable(w, id, request))
            && (changed.Success? ==> changed.value == RowAfter(w, id, request))
            && (changed.Failure? ==> changed.error != InsufficientFunds)
  {
    AskedPeriodIsTaken(w, w.bookings[id].listingId, request, Some(id));
  }

  /** A period change is saved if and only if the renter of a pending booking asks for dates and a tariff it may be
      changed to; it is granted if moreover the wallet covers what the booking costs more.  The difference leaves
      the wallet or goes back to it. */
  lemma UpdateIsExact(w: World, userId: int, id: int, request: PeriodRequest)
    requires ForeignKeys(w) && PeriodsNonEmpty(w) && id in w.bookings
    ensures var (w', r) := UpdatePeriod(w, userId, id, request);
            var b := w.bookings[id];
            var saved := userId == b.renterId && b.status == PENDING && Changeable(w, id, request);
            && (!saved ==> w' == w && r.Failure? && r.error != InsufficientFunds)
            && (saved ==>
                  var b' := RowAfter(w, id, request);
                  var diff := b'.totalPrice - b.totalPrice;
                  && w' == w.(bookings := w.bookings[id := b'], bank := w'.bank)
                  && (if diff > 0 && diff > w.bank.Balance(userId)
                      then r == Failure(InsufficientFunds) && w'.bank == w.bank
                      else r == Success(id) && Settles(w.bank, w'.bank, userId, id, diff)))
  {
    ChangeIsExact(w, id, request);
    if userId == w.bookings[id].renterId && w.bookings[id].status == PENDING && Changeable(w, id, request) {
      SavedChangeSettles(w, userId, id, request, RowAfter(w, id, request));
    }
  }

  /** The difference is settled after the change has been saved. */
  lemma SavedChangeSettles(w: World, userId: int, id: int, request: PeriodRequest, b': Booking)
    requires ForeignKeys(w) && id in w.bookings
    requires userId == w.bookings[id].renterId && w.bookings[id].status == PENDING
    requires var listing := w.listings[w.bookings[id].listingId];
             ChangedBooking(w.now, w.tz, listing, w.bookings, id, request) == Success(b')
    ensures var (w', r) := UpdatePeriod(w, userId, id, request);
            var diff := b'.totalPrice - w.bookings[id].totalPrice;
            && w' == w.(bookings := w.bookings[id := b'], bank := w'.bank)
            && (if diff > 0 && diff > w.bank.Balance(userId)
                then r == Failure(InsufficientFunds) && w'.bank == w.bank
                else r == Success(id) && Settles(w.bank, w'.bank, userId, id, diff))
  {
  }

  /** A refused change names the first reason there is, the tariff before the dates. */
  lemma UpdateRefusalsAreExact(w: World, userId: int, id: int, request: PeriodRequest)
    requires ForeignKeys(w) && PeriodsNonEmpty(w)
    ensures var r := UpdatePeriod(w, userId, id, request).1;
            && (r == Failure(BookingNotFound) <==> id !in w.bookings)
            && (id in w.bookings ==>
                  var b := w.bookings[id];
                  var tariff, pricings := request.pricePeriod, w.listings[b.listingId].pricings;
                  var allowed := userId == b.renterId && b.status == PENDING;
                  var whole := (request.startDate + w.tz) % 60000 == 0;
                  && (r == Failure(OnlyTheRenter) <==> userId != b.renterId)
                  && (r == Failure(NotPending) <==> userId == b.renterId && b.status != PENDING)
                  && (r == Failure(NotWholeMinute) <==> allowed && !whole)
                  && (r == Failure(NoSuchPricing) <==>
                        allowed && whole && tariff != b.pricePeriod && tariff !in pricings))
  {
  }

  /** A renter pays a difference, or gets it back. */
  ghost predicate Settles(bank: Bank, bank': Bank, userId: int, id: int, diff: int) {
    if diff > 0 then Moves(bank, bank', userId, -diff, Transaction(userId, BOOKING_PAYMENT, diff, Some(id)))
    else if diff < 0 then Moves(bank, bank', userId, -diff, Transaction(userId, REFUND, -diff, Some(id)))
    else bank' == bank
  }
}
