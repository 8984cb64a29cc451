/** The booking engine as a state machine: what each handler call and each delivered queue job does to
    bookings, wallets and queues. */
module Bookings {
  import opened Prelude
  import opened Calendar
  import opened Availability
  import opened Wallets

  datatype BookingStatus = PENDING | CANCELLED | REJECTED | CONFIRMED | ACTIVE | COMPLETED

  /** The statuses that block a listing and hold the renter's money. */
  predicate Live(s: BookingStatus) {
    s == PENDING || s == CONFIRMED || s == ACTIVE
  }

  /** `open` says that the listing has the status ACTIVE. */
  datatype Listing = Listing(owner: int, open: bool, availability: seq<Period>, pricings: map<PeriodType, nat>)

  datatype Booking = Booking(
    listingId: int,
    renterId: int,
    period: Period,
    price: nat,
    pricePeriod: PeriodType,
    totalPrice: nat,
    status: BookingStatus)

  /** The number of periods a request may ask for. */
  type Count = n: int | 1 <= n <= 100 witness 1

  datatype PeriodRequest = PeriodRequest(startDate: int, pricePeriod: PeriodType, periodsCount: Count)

  datatype BookingError =
    | BookingNotFound | ListingNotFound | OnlyRenters | InactiveListing | OwnListing | NotWholeMinute
    | InThePast | EndBeforeStart | OutsideAvailability | NotAvailable | NoSuchPricing | InsufficientFunds
    | OnlyTheRenter | OnlyTheLandlord | NotPending

  /** A delayed job: `waiting` until a delivery has gone through. */
  datatype Job = Job(due: int, waiting: bool)

  datatype World = World(
    tz: int,
    now: int,
    listings: map<int, Listing>,
    bookings: map<int, Booking>,
    nextId: int,
    bank: Bank,
    startJobs: map<int, Job>,
    completionJobs: map<int, Job>)

  /** The foreign key of the bookings table. */
  predicate ForeignKeys(w: World) {
    forall id :: id in w.bookings ==> w.bookings[id].listingId in w.listings
  }

  // ---------------------------------------------------------------- validation

  /** The rows the two availability queries select. */
  function Blocking(bookings: map<int, Booking>, listingId: int, exclude: Option<int>): set<int> {
    set id | id in bookings && bookings[id].listingId == listingId && Live(bookings[id].status) && exclude != Some(id)
  }

  /** The periods of some rows, in the order of the rows. */
  function PeriodsOf(bookings: map<int, Booking>, ids: seq<int>): seq<Period> {
    if ids == [] then []
    else (if ids[0] in bookings then [bookings[ids[0]].period] else []) + PeriodsOf(bookings, ids[1..])
  }

  predicate Overlapping(bookings: map<int, Booking>, listingId: int, exclude: Option<int>, period: Period) {
    exists id :: id in Blocking(bookings, listingId, exclude) && bookings[id].period.Overlaps(period)
  }

  function ValidateBookingDates(now: int, bookings: map<int, Booking>, listingId: int, availability: seq<Period>,
                                period: Period, exclude: Option<int>): Option<BookingError>
  {
    if period.start < now then Some(InThePast)
    else if period.end <= period.start then Some(EndBeforeStart)
    else if !Offers(availability, period) then Some(OutsideAvailability)
    else if Overlapping(bookings, listingId, exclude, period) then Some(NotAvailable)
    else None
  }

  /** No seconds and no milliseconds on the local clock. */
  predicate WholeMinute(t: int, tz: int) {
    (t + tz) % MS_PER_MINUTE == 0
  }

  function PeriodOf(tz: int, request: PeriodRequest, pricePeriod: PeriodType): Period {
    Period(request.startDate, EndOf(request.startDate, tz, pricePeriod, request.periodsCount))
  }

  /** What a renter pays for a number of periods. */
  function Charge(price: nat, periodsCount: Count): nat {
    price * periodsCount
  }

  /** The booking `BookingsService.create` saves. */
  function NewBooking(now: int, tz: int, listings: map<int, Listing>, bookings: map<int, Booking>,
                      renterId: int, listingId: int, request: PeriodRequest): Result<Booking, BookingError>
  {
    if listingId !in listings then Failure(ListingNotFound) else
    var listing := listings[listingId];
    if !listing.open then Failure(InactiveListing)
    else if renterId == listing.owner then Failure(OwnListing)
    else if !WholeMinute(request.startDate, tz) then Failure(NotWholeMinute) else
    var period := PeriodOf(tz, request, request.pricePeriod);
    match ValidateBookingDates(now, bookings, listingId, listing.availability, period, None)
    case Some(e) => Failure(e)
    case None =>
      if request.pricePeriod !in listing.pricings then Failure(NoSuchPricing) else
      var price := listing.pricings[request.pricePeriod];
      Success(Booking(listingId, renterId, period, price, request.pricePeriod,
                      Charge(price, request.periodsCount), PENDING))
  }

  /** The booking `BookingsService.updatePeriod` saves; a booking that keeps its tariff keeps its price. */
  function ChangedBooking(now: int, tz: int, listing: Listing, bookings: map<int, Booking>,
                          id: int, request: PeriodRequest): Result<Booking, BookingError>
    requires id in bookings
  {
    var b := bookings[id];
    if !WholeMinute(request.startDate, tz) then Failure(NotWholeMinute)
    else if b.pricePeriod != request.pricePeriod && request.pricePeriod !in listing.pricings
    then Failure(NoSuchPricing) else
    var price := if b.pricePeriod == request.pricePeriod then b.price else listing.pricings[request.pricePeriod];
    var period := PeriodOf(tz, request, request.pricePeriod);
    match ValidateBookingDates(now, bookings, b.listingId, listing.availability, period, Some(id))
    case Some(e) => Failure(e)
    case None =>
      Success(b.(period := period, price := price, pricePeriod := request.pricePeriod,
                 totalPrice := Charge(price, request.periodsCount)))
  }

  // ---------------------------------------------------------------- queues

  /** Adding under a job id that is still waiting does nothing. */
  function AddJob(jobs: map<int, Job>, id: int, now: int, delay: int): map<int, Job> {
    if id in jobs && jobs[id].waiting then jobs else jobs[id := Job(now + Max(0, delay), true)]
  }

  predicate Due(jobs: map<int, Job>, id: int, now: int) {
    id in jobs && jobs[id].due <= now
  }

  function Acknowledge(jobs: map<int, Job>, id: int): map<int, Job>
    requires id in jobs
  {
    jobs[id := jobs[id].(waiting := false)]
  }

  // ---------------------------------------------------------------- handlers

  function Create(w: World, userId: int, isRenter: bool, listingId: int, request: PeriodRequest):
    (World, Result<int, BookingError>)
  {
    if !isRenter then (w, Failure(OnlyRenters)) else
    match NewBooking(w.now, w.tz, w.listings, w.bookings, userId, listingId, request)
    case Failure(e) => (w, Failure(e))
    case Success(b) =>
      var id := w.nextId;
      match w.bank.Try(Transaction(userId, BOOKING_PAYMENT, b.totalPrice, Some(id)))
      case None => (w.(bookings := w.bookings - {id}, nextId := id + 1), Failure(InsufficientFunds))
      case Some(bank) => (w.(bookings := w.bookings[id := b], nextId := id + 1, bank := bank), Success(id))
  }

  /** The price difference is settled after the new period has been saved, and a refused surcharge
      does not bring the old period back. */
  function UpdatePeriod(w: World, userId: int, id: int, request: PeriodRequest): (World, Result<int, BookingError>)
    requires ForeignKeys(w)
  {
    if id !in w.bookings then (w, Failure(BookingNotFound)) else
    var b := w.bookings[id];
    if userId != b.renterId then (w, Failure(OnlyTheRenter))
    else if b.status != PENDING then (w, Failure(NotPending)) else
    match ChangedBooking(w.now, w.tz, w.listings[b.listingId], w.bookings, id, request)
    case Failure(e) => (w, Failure(e))
    case Success(changed) =>
      var saved := w.(bookings := w.bookings[id := changed]);
      var diff := changed.totalPrice - b.totalPrice;
      if diff > 0 then
        match w.bank.Try(Transaction(userId, BOOKING_PAYMENT, diff, Some(id)))
        case None => (saved, Failure(InsufficientFunds))
        case Some(bank) => (saved.(bank := bank), Success(id))
      else if diff < 0 then (saved.(bank := w.bank.Post(Transaction(userId, REFUND, -diff, Some(id)))), Success(id))
      else (saved, Success(id))
  }

  /** The guards shared by `cancel`, `confirm` and `reject`. */
  function Refusal(w: World, userId: int, id: int, byLandlord: bool): Option<BookingError>
    requires ForeignKeys(w)
  {
    if id !in w.bookings then Some(BookingNotFound) else
    var b := w.bookings[id];
    if byLandlord && userId != w.listings[b.listingId].owner then Some(OnlyTheLandlord)
    else if !byLandlord && userId != b.renterId then Some(OnlyTheRenter)
    else if b.status != PENDING then Some(NotPending)
    else if b.period.start < w.now then Some(InThePast)
    else None
  }

  function WithStatus(w: World, id: int, status: BookingStatus): World
    requires id in w.bookings
  {
    w.(bookings := w.bookings[id := w.bookings[id].(status := status)])
  }

  /** Both ways of turning a pending booking down: the money goes back and the start job is removed. */
  function TurnDown(w: World, userId: int, id: int, byLandlord: bool): (World, Result<int, BookingError>)
    requires ForeignKeys(w)
  {
    match Refusal(w, userId, id, byLandlord)
    case Some(e) => (w, Failure(e))
    case None =>
      var b := w.bookings[id];
      var w1 := WithStatus(w, id, if byLandlord then REJECTED else CANCELLED);
      (w1.(bank := w.bank.Post(Transaction(b.renterId, REFUND, b.totalPrice, Some(id))),
           startJobs := w.startJobs - {id}),
       Success(id))
  }

  function Confirm(w: World, userId: int, id: int): (World, Result<int, BookingError>)
    requires ForeignKeys(w)
  {
    match Refusal(w, userId, id, true)
    case Some(e) => (w, Failure(e))
    case None =>
      var w1 := WithStatus(w, id, CONFIRMED);
      (w1.(startJobs := AddJob(w.startJobs, id, w.now, w.bookings[id].period.start - w.now)), Success(id))
  }

  // ---------------------------------------------------------------- queue processors

  /** `BookingStartProcessor.process`; `None` when it throws. */
  function ProcessStart(w: World, id: int): Option<World> {
    if id !in w.bookings then None
    else if w.bookings[id].status != CONFIRMED then Some(w)
    else
      var w1 := WithStatus(w, id, ACTIVE);
      Some(w1.(completionJobs := AddJob(w.completionJobs, id, w.now, w.bookings[id].period.end - w.now)))
  }

  /** `BookingCompletionProcessor.process`; `None` when it throws. */
  function ProcessCompletion(w: World, id: int): Option<World>
    requires ForeignKeys(w)
  {
    if id !in w.bookings then None else
    var b := w.bookings[id];
    if b.status != ACTIVE then Some(w)
    else if b.period.end > w.now then Some(w)
    else
      var payout := Transaction(w.listings[b.listingId].owner, BOOKING_PAYOUT, b.totalPrice, Some(id));
      Some(WithStatus(w, id, COMPLETED).(bank := w.bank.Post(payout)))
  }

  /** A job that has become due is delivered, for the first time or again. */
  function DeliverStart(w: World, id: int): World {
    if !Due(w.startJobs, id, w.now) then w else
    match ProcessStart(w, id)
    case None => w
    case Some(done) => done.(startJobs := Acknowledge(w.startJobs, id))
  }

  function DeliverCompletion(w: World, id: int): World
    requires ForeignKeys(w)
  {
    if !Due(w.completionJobs, id, w.now) then w else
    match ProcessCompletion(w, id)
    case None => w
    case Some(done) => done.(completionJobs := Acknowledge(w.completionJobs, id))
  }

  // ---------------------------------------------------------------- runs

  datatype Event =
    | Tick(ms: nat)
    | NewListing(listingId: int, listing: Listing)
    | EditListing(listingId: int, open: bool, availability: seq<Period>, pricings: map<PeriodType, nat>)
    | DepositCall(userId: int, amount: nat)
    | WithdrawCall(userId: int, amount: nat)
    | CreateCall(userId: int, isRenter: bool, listingId: int, request: PeriodRequest)
    | UpdatePeriodCall(userId: int, bookingId: int, request: PeriodRequest)
    | CancelCall(userId: int, bookingId: int)
    | RejectCall(userId: int, bookingId: int)
    | ConfirmCall(userId: int, bookingId: int)
    | StartJob(bookingId: int)
    | CompletionJob(bookingId: int)

  function Step(w: World, e: Event): (w': World)
    requires ForeignKeys(w)
    ensures ForeignKeys(w')
  {
    match e
    case Tick(ms) => w.(now := w.now + ms)
    case NewListing(id, listing) => if id in w.listings then w else w.(listings := w.listings[id := listing])
    case EditListing(id, open, availability, pricings) =>
      if id !in w.listings then w
      else w.(listings := w.listings[id := Listing(w.listings[id].owner, open, availability, pricings)])
    case DepositCall(userId, amount) => w.(bank := w.bank.Post(Transaction(userId, DEPOSIT, amount, None)))
    case WithdrawCall(userId, amount) =>
      (match w.bank.Try(Transaction(userId, WITHDRAWAL, amount, None))
       case None => w
       case Some(bank) => w.(bank := bank))
    case CreateCall(userId, isRenter, listingId, request) => Create(w, userId, isRenter, listingId, request).0
    case UpdatePeriodCall(userId, id, request) => UpdatePeriod(w, userId, id, request).0
    case CancelCall(userId, id) => TurnDown(w, userId, id, false).0
    case RejectCall(userId, id) => TurnDown(w, userId, id, true).0
    case ConfirmCall(userId, id) => Confirm(w, userId, id).0
    case StartJob(id) => DeliverStart(w, id)
    case CompletionJob(id) => DeliverCompletion(w, id)
  }

  function Run(w: World, events: seq<Event>): (w': World)
    requires ForeignKeys(w)
    ensures ForeignKeys(w')
    decreases |events|
  {
    if events == [] then w else Run(Step(w, events[0]), events[1..])
  }

  /** An empty platform. */
  function Initial(tz: int, now: int): World {
    World(tz, now, map[], map[], 1, Bank(map[], []), map[], map[])
  }
}
