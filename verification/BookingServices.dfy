/** The services, the handler, the listener and the queue processors of the booking engine, as objects
    that update their fields, each proved against the state machine of module Bookings. */
module BookingServices {
  import opened Prelude
  import opened Calendar
  import opened Availability
  import opened Wallets
  import opened Bookings
  import BookingTheorems

  class ListingsService {
    var listings: map<int, Listing>

    constructor ()
      ensures listings == map[]
    {
      listings := map[];
    }

    method FindByIdWithCache(listingId: int) returns (r: Result<Listing, BookingError>)
      ensures r == if listingId in listings then Success(listings[listingId]) else Failure(ListingNotFound)
    {
      if listingId !in listings {
        return Failure(ListingNotFound);
      }
      r := Success(listings[listingId]);
    }
  }

  class JobQueue {
    var jobs: map<int, Job>

    constructor ()
      ensures jobs == map[]
    {
      jobs := map[];
    }

    method Add(id: int, now: int, delay: int)
      modifies this
      ensures jobs == AddJob(old(jobs), id, now, delay)
    {
      if !(id in jobs && jobs[id].waiting) {
        jobs := jobs[id := Job(now + Max(0, delay), true)];
      }
    }

    method Remove(id: int)
      modifies this
      ensures jobs == old(jobs) - {id}
    {
      jobs := jobs - {id};
    }
  }

  class BookingsService {
    const tz: int
    const listingsService: ListingsService
    var bookings: map<int, Booking>
    var nextId: int

    constructor (tz: int, listingsService: ListingsService)
      ensures this.tz == tz && this.listingsService == listingsService && bookings == map[] && nextId == 1
    {
      this.tz := tz;
      this.listingsService := listingsService;
      bookings, nextId := map[], 1;
    }

    predicate References()
      reads this, listingsService
    {
      forall id :: id in bookings ==> bookings[id].listingId in listingsService.listings
    }

    method FindById(id: int) returns (r: Result<Booking, BookingError>)
      ensures r == if id in bookings then Success(bookings[id]) else Failure(BookingNotFound)
    {
      if id !in bookings {
        return Failure(BookingNotFound);
      }
      r := Success(bookings[id]);
    }

    method ValidateDates(now: int, start: int, end: int, listingId: int, availability: seq<Period>,
                         exclude: Option<int>)
      returns (error: Option<BookingError>)
      ensures error == ValidateBookingDates(now, bookings, listingId, availability, Period(start, end), exclude)
    {
      if start < now {
        return Some(InThePast);
      }
      if end <= start {
        return Some(EndBeforeStart);
      }
      if !Offers(availability, Period(start, end)) {
        return Some(OutsideAvailability);
      }
      if Overlapping(bookings, listingId, exclude, Period(start, end)) {
        return Some(NotAvailable);
      }
      error := None;
    }

    method Create(now: int, renterId: int, listingId: int, request: PeriodRequest)
      returns (r: Result<int, BookingError>)
      modifies this
      ensures match NewBooking(now, tz, listingsService.listings, old(bookings), renterId, listingId, request)
              case Failure(e) => r == Failure(e) && bookings == old(bookings) && nextId == old(nextId)
              case Success(b) =>
                && r == Success(old(nextId)) && nextId == old(nextId) + 1
                && bookings == old(bookings)[old(nextId) := b]
    {
      var found := listingsService.FindByIdWithCache(listingId);
      if found.Failure? {
        return Failure(found.error);
      }
      var listing := found.value;
      if !listing.open {
        return Failure(InactiveListing);
      }
      if renterId == listing.owner {
        return Failure(OwnListing);
      }
      if !WholeMinute(request.startDate, tz) {
        return Failure(NotWholeMinute);
      }
      var startDate := new JsDate(request.startDate, tz);
      var endDate := CalculateEndDate(startDate, request.pricePeriod, request.periodsCount);
      EndIsMoved(startDate.time, tz, request.pricePeriod, request.periodsCount);
      var invalid := ValidateDates(now, startDate.time, endDate.time, listingId, listing.availability, None);
      if invalid.Some? {
        return Failure(invalid.value);
      }
      if request.pricePeriod !in listing.pricings {
        return Failure(NoSuchPricing);
      }
      var price := listing.pricings[request.pricePeriod];
      var booking := Booking(listingId, renterId, Period(startDate.time, endDate.time), price, request.pricePeriod,
                             Charge(price, request.periodsCount), PENDING);
      bookings := bookings[nextId := booking];
      r := Success(nextId);
      nextId := nextId + 1;
    }

    /** The loaded booking is changed field by field and then saved. */
    method UpdatePeriod(now: int, id: int, request: PeriodRequest) returns (r: Result<Booking, BookingError>)
      requires References()
      modifies this`bookings
      ensures id in old(bookings) ==>
                var listing := listingsService.listings[old(bookings)[id].listingId];
                r == ChangedBooking(now, tz, listing, old(bookings), id, request)
      ensures id !in old(bookings) ==>
                r == Failure(if WholeMinute(request.startDate, tz) then BookingNotFound else NotWholeMinute)
      ensures bookings == if r.Success? then old(bookings)[id := r.value] else old(bookings)
    {
      if !WholeMinute(request.startDate, tz) {
        return Failure(NotWholeMinute);
      }
      var found := FindById(id);
      if found.Failure? {
        return found;
      }
      var booking := found.value;
      var listing := listingsService.listings[booking.listingId];
      if booking.pricePeriod != request.pricePeriod {
        if request.pricePeriod !in listing.pricings {
          return Failure(NoSuchPricing);
        }
        booking := booking.(pricePeriod := request.pricePeriod);
        booking := booking.(price := listing.pricings[request.pricePeriod]);
      }
      var startDate := new JsDate(request.startDate, tz);
      var endDate := CalculateEndDate(startDate, booking.pricePeriod, request.periodsCount);
      EndIsMoved(startDate.time, tz, booking.pricePeriod, request.periodsCount);
      var invalid :=
        ValidateDates(now, startDate.time, endDate.time, booking.listingId, listing.availability, Some(id));
      if invalid.Some? {
        return Failure(invalid.value);
      }
      booking := booking.(period := Period(startDate.time, endDate.time));
      booking := booking.(totalPrice := Charge(booking.price, request.periodsCount));
      bookings := bookings[id := booking];
      r := Success(booking);
    }

    method UpdateStatus(id: int, newStatus: BookingStatus) returns (r: Result<Booking, BookingError>)
      modifies this`bookings
      ensures id in old(bookings) ==> r == Success(old(bookings)[id].(status := newStatus))
      ensures id !in old(bookings) ==> r == Failure(BookingNotFound)
      ensures bookings == if r.Success? then old(bookings)[id := r.value] else old(bookings)
    {
      r := FindById(id);
      if r.Failure? {
        return;
      }
      r := Success(r.value.(status := newStatus));
      bookings := bookings[id := r.value];
    }

    method Delete(id: int)
      modifies this`bookings
      ensures bookings == old(bookings) - {id}
    {
      bookings := bookings - {id};
    }

    /** The bookings query, which has no ORDER BY: the rows come in an order of the database's choosing. */
    method FindBlocking(listingId: int, exclude: Option<int>) returns (ids: seq<int>)
      ensures multiset(ids) == multiset(Blocking(bookings, listingId, exclude))
    {
      ids := [];
      var left := Blocking(bookings, listingId, exclude);
      while left != {}
        invariant multiset(ids) + multiset(left) == multiset(Blocking(bookings, listingId, exclude))
        decreases left
      {
        assert (forall id :: id !in left) ==> left == {};
        var id :| id in left;
        ids := ids + [id];
        left := left - {id};
      }
    }

    /** The free periods of a listing.  The result is the same list for every order of the rows. */
    method GetListingAvailability(startOfToday: int, listingId: int, exclude: Option<int>)
      returns (r: Result<seq<Period>, BookingError>)
      requires forall id :: id in bookings ==> bookings[id].period.NonEmpty()
      requires forall id :: id in listingsService.listings ==> AllNonEmpty(listingsService.listings[id].availability)
      ensures r.Failure? <==> listingId !in listingsService.listings
      ensures r.Success? ==>
                forall ids: seq<int> | multiset(ids) == multiset(Blocking(bookings, listingId, exclude)) ::
                  var availability := listingsService.listings[listingId].availability;
                  r.value == FreePeriods(availability, PeriodsOf(bookings, ids), startOfToday)
    {
      var found := listingsService.FindByIdWithCache(listingId);
      if found.Failure? {
        return Failure(found.error);
      }
      var rows := FindBlocking(listingId, exclude);
      BookingTheorems.RowsExist(bookings, rows, listingId, exclude);
      var freePeriods := SubtractBookings(found.value.availability, PeriodsOf(bookings, rows), startOfToday);
      forall ids: seq<int> | multiset(ids) == multiset(Blocking(bookings, listingId, exclude))
        ensures freePeriods == FreePeriods(found.value.availability, PeriodsOf(bookings, ids), startOfToday)
      {
        BookingTheorems.RowsExist(bookings, ids, listingId, exclude);
        BookingTheorems.PeriodsPermute(bookings, rows, ids);
        FreePeriodsAreConfluent(found.value.availability, PeriodsOf(bookings, rows), PeriodsOf(bookings, ids),
                                startOfToday);
      }
      r := Success(freePeriods);
    }
  }

  // ---------------------------------------------------------------- handler, listener, processors

  class BookingsListener {
    const startQueue: JobQueue

    constructor (startQueue: JobQueue)
      ensures this.startQueue == startQueue
    {
      this.startQueue := startQueue;
    }

    method HandleBookingConfirmed(now: int, id: int, booking: Booking)
      modifies startQueue
      ensures startQueue.jobs == AddJob(old(startQueue.jobs), id, now, booking.period.start - now)
    {
      startQueue.Add(id, now, booking.period.start - now);
    }

    method HandleBookingTurnedDown(id: int)
      modifies startQueue
      ensures startQueue.jobs == old(startQueue.jobs) - {id}
    {
      startQueue.Remove(id);
    }
  }

  /** The objects of the engine, wired together. */
  class Platform {
    const bookingsService: BookingsService
    const walletsService: WalletsService
    const listener: BookingsListener
    const completionQueue: JobQueue

    constructor (bookingsService: BookingsService, walletsService: WalletsService, listener: BookingsListener,
                 completionQueue: JobQueue)
      requires listener.startQueue != completionQueue
      ensures this.bookingsService == bookingsService && this.walletsService == walletsService
      ensures this.listener == listener && this.completionQueue == completionQueue
    {
      this.bookingsService := bookingsService;
      this.walletsService := walletsService;
      this.listener := listener;
      this.completionQueue := completionQueue;
    }

    /** The state of all services at time `now`. */
    function View(now: int): World
      reads bookingsService, bookingsService.listingsService, walletsService, listener.startQueue, completionQueue
    {
      World(bookingsService.tz, now, bookingsService.listingsService.listings, bookingsService.bookings,
            bookingsService.nextId, walletsService.View(), listener.startQueue.jobs, completionQueue.jobs)
    }

    predicate Valid()
      reads bookingsService, bookingsService.listingsService
    {
      listener.startQueue != completionQueue && bookingsService.References()
    }

    /** `BookingsHandler.create`: a refused payment deletes the booking again. */
    method CreateBooking(now: int, userId: int, isRenter: bool, listingId: int, request: PeriodRequest)
      returns (r: Result<int, BookingError>)
      requires Valid()
      modifies bookingsService, walletsService
      ensures Valid() && (View(now), r) == Create(old(View(now)), userId, isRenter, listingId, request)
    {
      if !isRenter {
        return Failure(OnlyRenters);
      }
      r := bookingsService.Create(now, userId, listingId, request);
      if r.Failure? {
        return;
      }
      var id := r.value;
      var paid := walletsService.ProcessBookingPayment(userId, id, bookingsService.bookings[id].totalPrice);
      if !paid {
        bookingsService.Delete(id);
        assert bookingsService.bookings == old(bookingsService.bookings) - {id};
        r := Failure(InsufficientFunds);
      }
    }

    /** `BookingsHandler.updatePeriod`: the surcharge or refund follows the saved change. */
    method ChangePeriod(now: int, userId: int, id: int, request: PeriodRequest) returns (r: Result<int, BookingError>)
      requires Valid()
      modifies bookingsService, walletsService
      ensures Valid() && (View(now), r) == UpdatePeriod(old(View(now)), userId, id, request)
    {
      var found := bookingsService.FindById(id);
      if found.Failure? {
        return Failure(found.error);
      }
      var booking := found.value;
      if userId != booking.renterId {
        return Failure(OnlyTheRenter);
      }
      if booking.status != PENDING {
        return Failure(NotPending);
      }
      var prevPrice := booking.totalPrice;
      var updated := bookingsService.UpdatePeriod(now, id, request);
      if updated.Failure? {
        return Failure(updated.error);
      }
      var priceDiff := updated.value.totalPrice - prevPrice;
      r := Success(id);
      if priceDiff > 0 {
        var paid := walletsService.ProcessBookingPayment(userId, id, priceDiff);
        if !paid {
          r := Failure(InsufficientFunds);
        }
      } else if priceDiff < 0 {
        walletsService.ProcessRefund(userId, id, -priceDiff);
      }
    }

    method Cancel(now: int, userId: int, id: int) returns (r: Result<int, BookingError>)
      requires Valid()
      modifies bookingsService, walletsService, listener.startQueue
      ensures Valid() && (View(now), r) == TurnDown(old(View(now)), userId, id, false)
      ensures r.Success? <==>
                && id in old(bookingsService.bookings)
                && var b := old(bookingsService.bookings)[id];
                   && userId == b.renterId
                   && b.status == PENDING && now <= b.period.start
      ensures r.Failure? ==> View(now) == old(View(now))
    {
      var found := bookingsService.FindById(id);
      if found.Failure? {
        return Failure(found.error);
      }
      var booking := found.value;
      if userId != booking.renterId {
        return Failure(OnlyTheRenter);
      }
      if booking.status != PENDING {
        return Failure(NotPending);
      }
      if booking.period.start < now {
        return Failure(InThePast);
      }
      var cancelled := bookingsService.UpdateStatus(id, CANCELLED);
      walletsService.ProcessRefund(cancelled.value.renterId, id, cancelled.value.totalPrice);
      listener.HandleBookingTurnedDown(id);
      r := Success(id);
    }

    method Reject(now: int, userId: int, id: int) returns (r: Result<int, BookingError>)
      requires Valid()
      modifies bookingsService, walletsService, listener.startQueue
      ensures Valid() && (View(now), r) == TurnDown(old(View(now)), userId, id, true)
      ensures r.Success? <==>
                && id in old(bookingsService.bookings)
                && var b := old(bookingsService.bookings)[id];
                   && userId == bookingsService.listingsService.listings[b.listingId].owner
                   && b.status == PENDING && now <= b.period.start
      ensures r.Failure? ==> View(now) == old(View(now))
    {
      var found := bookingsService.FindById(id);
      if found.Failure? {
        return Failure(found.error);
      }
      var booking := found.value;
      if userId != bookingsService.listingsService.listings[booking.listingId].owner {
        return Failure(OnlyTheLandlord);
      }
      if booking.status != PENDING {
        return Failure(NotPending);
      }
      if booking.period.start < now {
        return Failure(InThePast);
      }
      var rejected := bookingsService.UpdateStatus(id, REJECTED);
      walletsService.ProcessRefund(rejected.value.renterId, id, rejected.value.totalPrice);
      listener.HandleBookingTurnedDown(id);
      r := Success(id);
    }

    method ConfirmBooking(now: int, userId: int, id: int) returns (r: Result<int, BookingError>)
      requires Valid()
      modifies bookingsService, listener.startQueue
      ensures Valid() && (View(now), r) == Confirm(old(View(now)), userId, id)
      ensures r.Success? <==>
                && id in old(bookingsService.bookings)
                && var b := old(bookingsService.bookings)[id];
                   && userId == bookingsService.listingsService.listings[b.listingId].owner
                   && b.status == PENDING && now <= b.period.start
      ensures r.Failure? ==> View(now) == old(View(now))
    {
      var found := bookingsService.FindById(id);
      if found.Failure? {
        return Failure(found.error);
      }
      var booking := found.value;
      if userId != bookingsService.listingsService.listings[booking.listingId].owner {
        return Failure(OnlyTheLandlord);
      }
      if booking.status != PENDING {
        return Failure(NotPending);
      }
      if booking.period.start < now {
        return Failure(InThePast);
      }
      var confirmed := bookingsService.UpdateStatus(id, CONFIRMED);
      listener.HandleBookingConfirmed(now, id, confirmed.value);
      r := Success(id);
    }

    /** `BookingStartProcessor.process`; `ok` is false when it throws. */
    method RunStartJob(now: int, id: int) returns (ok: bool)
      requires Valid()
      modifies bookingsService, completionQueue
      ensures Valid()
      ensures match ProcessStart(old(View(now)), id)
              case None => !ok && View(now) == old(View(now))
              case Some(done) => ok && View(now) == done
    {
      var found := bookingsService.FindById(id);
      if found.Failure? {
        return false;
      }
      ok := true;
      var booking := found.value;
      if booking.status != CONFIRMED {
        return;
      }
      var started := bookingsService.UpdateStatus(id, ACTIVE);
      completionQueue.Add(id, now, booking.period.end - now);
    }

    /** `BookingCompletionProcessor.process`; `ok` is false when it throws. */
    method RunCompletionJob(now: int, id: int) returns (ok: bool)
      requires Valid()
      modifies bookingsService, walletsService
      ensures Valid()
      ensures match ProcessCompletion(old(View(now)), id)
              case None => !ok && View(now) == old(View(now))
              case Some(done) => ok && View(now) == done
    {
      var found := bookingsService.FindById(id);
      if found.Failure? {
        return false;
      }
      ok := true;
      var booking := found.value;
      if booking.status != ACTIVE {
        return;
      }
      if booking.period.end > now {
        return;
      }
      var completed := bookingsService.UpdateStatus(id, COMPLETED);
      var landlord := bookingsService.listingsService.listings[booking.listingId].owner;
      walletsService.ProcessBookingPayout(landlord, id, booking.totalPrice);
    }
  }
}
