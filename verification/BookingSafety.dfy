/** What every step of the booking engine keeps, and therefore what holds after every run. */
module BookingSafety {
  import opened Prelude
  import opened Calendar
  import opened Availability
  import opened Wallets
  import opened Bookings

  // ---------------------------------------------------------------- statuses

  /** The edges of the status graph, each status included. */
  predicate MayBecome(s: BookingStatus, t: BookingStatus) {
    || s == t
    || (s == PENDING && (t == CONFIRMED || t == CANCELLED || t == REJECTED))
    || (s == CONFIRMED && t == ACTIVE)
    || (s == ACTIVE && t == COMPLETED)
  }

  /** No step leaves the status graph, so nothing terminal becomes live again; a saved booking is never
      removed, keeps its parties, and once it is no longer pending its period and price are frozen. */
  lemma StepFollowsGraph(w: World, e: Event, id: int)
    requires ForeignKeys(w) && Ids(w) && id in w.bookings
    ensures id in Step(w, e).bookings
    ensures var b, b' := w.bookings[id], Step(w, e).bookings[id];
            && MayBecome(b.status, b'.status)
            && b'.listingId == b.listingId && b'.renterId == b.renterId
            && (b.status != PENDING ==> b' == b.(status := b'.status))
            && Step(w, e).listings[b.listingId].owner == w.listings[b.listingId].owner
  {
    StepLocality(w, e);
  }

  /** The booking a step is about. */
  function Target(w: World, e: Event): int {
    match e
    case CreateCall(_, _, _, _) => w.nextId
    case UpdatePeriodCall(_, id, _) => id
    case CancelCall(_, id) => id
    case RejectCall(_, id) => id
    case ConfirmCall(_, id) => id
    case StartJob(id) => id
    case CompletionJob(id) => id
    case _ => 0
  }

  predicate WritesAtMost(w: World, w': World, id: int) {
    && w'.tz == w.tz
    && (w'.bookings == w.bookings || (id in w'.bookings && w'.bookings == w.bookings[id := w'.bookings[id]]))
  }

  lemma CreateLocality(w: World, userId: int, isRenter: bool, listingId: int, request: PeriodRequest)
    requires Ids(w)
    ensures WritesAtMost(w, Create(w, userId, isRenter, listingId, request).0, w.nextId)
  {
    assert w.bookings - {w.nextId} == w.bookings;
  }

  lemma UpdateLocality(w: World, userId: int, id: int, request: PeriodRequest)
    requires ForeignKeys(w)
    ensures WritesAtMost(w, UpdatePeriod(w, userId, id, request).0, id)
  {
  }

  lemma OtherLocality(w: World, e: Event)
    requires ForeignKeys(w) && !e.CreateCall? && !e.UpdatePeriodCall?
    ensures WritesAtMost(w, Step(w, e), Target(w, e))
  {
  }

  /** A step writes at most one booking row. */
  lemma StepLocality(w: World, e: Event)
    requires ForeignKeys(w) && Ids(w)
    ensures WritesAtMost(w, Step(w, e), Target(w, e))
  {
    if e.CreateCall? {
      CreateLocality(w, e.userId, e.isRenter, e.listingId, e.request);
    } else if e.UpdatePeriodCall? {
      UpdateLocality(w, e.userId, e.bookingId, e.request);
    } else {
      OtherLocality(w, e);
    }
  }

  // ---------------------------------------------------------------- invariants

  /** Serial ids, and jobs only for bookings that exist. */
  ghost predicate Ids(w: World) {
    && 1 <= w.nextId
    && (forall id :: id in w.bookings ==> 1 <= id < w.nextId)
    && w.startJobs.Keys <= w.bookings.Keys
    && w.completionJobs.Keys <= w.bookings.Keys
  }

  ghost predicate OwnersDoNotRent(w: World)
    requires ForeignKeys(w)
  {
    forall id :: id in w.bookings ==> w.bookings[id].renterId != Landlord(w, id)
  }

  ghost predicate PeriodsNonEmpty(w: World) {
    forall id :: id in w.bookings ==> w.bookings[id].period.NonEmpty()
  }

  predicate Rivals(a: Booking, b: Booking) {
    a.listingId == b.listingId && Live(a.status) && Live(b.status)
  }

  /** Two live bookings of one listing never overlap. */
  ghost predicate LiveDisjoint(w: World) {
    forall i, j | i in w.bookings && j in w.bookings && i != j && Rivals(w.bookings[i], w.bookings[j]) ::
      !w.bookings[i].period.Overlaps(w.bookings[j].period)
  }

  /** A confirmed booking has its start job waiting, due at the start of its period; an active one its
      completion job, due when the period has ended and no later than that (or now); the others wait
      for nothing that could still change them. */
  ghost predicate JobsOf(w: World, id: int)
    requires id in w.bookings
  {
    var b := w.bookings[id];
    match b.status
    case CONFIRMED =>
      && id in w.startJobs && w.startJobs[id] == Job(b.period.start, true)
      && id !in w.completionJobs
    case ACTIVE =>
      && id in w.startJobs
      && id in w.completionJobs && w.completionJobs[id].waiting
      && b.period.end <= w.completionJobs[id].due <= Max(w.now, b.period.end)
    case COMPLETED => id in w.startJobs && id in w.completionJobs && b.period.end <= w.now
    case _ => id !in w.startJobs && id !in w.completionJobs
  }

  ghost predicate JobsScheduled(w: World) {
    forall id :: id in w.bookings ==> JobsOf(w, id)
  }

  /** The row a completed booking leaves in the ledger. */
  function PayoutRow(w: World, id: int): Transaction
    requires ForeignKeys(w) && id in w.bookings
  {
    Transaction(Landlord(w, id), BOOKING_PAYOUT, w.bookings[id].totalPrice, Some(id))
  }

  /** A completed booking has been paid out exactly once, to the landlord and in full; no other id ever. */
  ghost predicate PaidOutOnce(w: World)
    requires ForeignKeys(w)
  {
    && (forall id :: Sum(w.bank.ledger, PayoutOf(id))
                     == if Completed(w, id) then 1 else 0)
    && (forall id :: Completed(w, id) ==> PayoutRow(w, id) in w.bank.ledger)
  }

  function Landlord(w: World, id: int): int
    requires ForeignKeys(w) && id in w.bookings
  {
    w.listings[w.bookings[id].listingId].owner
  }

  /** Payments and refunds of a booking move its renter's wallet, payouts its landlord's. */
  predicate NamesParty(w: World, t: Transaction)
    requires ForeignKeys(w)
  {
    match t.bookingId
    case None => true
    case Some(id) =>
      && id in w.bookings
      && t.userId == if t.kind.BOOKING_PAYOUT? then Landlord(w, id) else w.bookings[id].renterId
  }

  ghost predicate PartiesNamed(w: World)
    requires ForeignKeys(w)
  {
    forall t :: t in w.bank.ledger ==> NamesParty(w, t)
  }

  /** The price is the tariff times a whole number of periods, and the rental is that many periods long. */
  ghost predicate Priced(tz: int, b: Booking) {
    exists count: Count :: PricedFor(tz, b, count)
  }

  predicate PricedFor(tz: int, b: Booking, count: Count) {
    && b.totalPrice == b.price * count
    && b.period.end == b.period.start + Duration(b.period.start, tz, b.pricePeriod, count)
  }

  ghost predicate AllPriced(w: World) {
    forall id :: id in w.bookings ==> Priced(w.tz, w.bookings[id])
  }

  ghost predicate Inv(w: World) {
    && ForeignKeys(w) && Ids(w) && OwnersDoNotRent(w) && PeriodsNonEmpty(w) && AllPriced(w)
    && LiveDisjoint(w) && JobsScheduled(w) && PaidOutOnce(w) && PartiesNamed(w) && WellKept(w.bank)
  }

  lemma InitialInv(tz: int, now: int)
    ensures Inv(Initial(tz, now))
  {
  }

  lemma ValidPeriod(now: int, bookings: map<int, Booking>, listingId: int, availability: seq<Period>, period: Period,
                    exclude: Option<int>)
    requires ValidateBookingDates(now, bookings, listingId, availability, period, exclude) == None
    ensures period.NonEmpty()
    ensures forall id | id in bookings && bookings[id].listingId == listingId && Live(bookings[id].status)
                        && exclude != Some(id) :: !bookings[id].period.Overlaps(period)
  {
    forall id | id in bookings && bookings[id].listingId == listingId
                && Live(bookings[id].status) && exclude != Some(id)
      ensures !bookings[id].period.Overlaps(period)
    {
      assert id in Blocking(bookings, listingId, exclude);
    }
  }

  /** A booking whose period is new in `w'` is pending, lies in the future and inside the availability of
      its listing, and fits beside the other live bookings. */
  ghost predicate Accepted(w: World, id: int, w': World) {
    id in w'.bookings && (id !in w.bookings || w.bookings[id].period != w'.bookings[id].period) ==>
      var b' := w'.bookings[id];
      && b'.listingId in w.listings
      && Offers(w.listings[b'.listingId].availability, b'.period)
      && w.now <= b'.period.start
      && b'.status == PENDING && b'.period.NonEmpty()
      && forall j | j in w.bookings && j != id && Rivals(w.bookings[j], b') ::
           !w.bookings[j].period.Overlaps(b'.period)
  }

  /** Every step that writes a period has checked it. */
  lemma WrittenPeriods(w: World, e: Event)
    requires ForeignKeys(w) && Ids(w)
    ensures Accepted(w, Target(w, e), Step(w, e))
  {
    match e
    case CreateCall(userId, isRenter, listingId, request) =>
      CreatedPeriod(w, userId, isRenter, listingId, request);
    case UpdatePeriodCall(userId, id, request) =>
      UpdatedPeriod(w, userId, id, request);
    case _ =>
  }

  lemma CreatedPeriod(w: World, userId: int, isRenter: bool, listingId: int, request: PeriodRequest)
    requires w.nextId !in w.bookings
    ensures Accepted(w, w.nextId, Create(w, userId, isRenter, listingId, request).0)
  {
    if listingId in w.listings {
      var availability, period := w.listings[listingId].availability, PeriodOf(w.tz, request, request.pricePeriod);
      if ValidateBookingDates(w.now, w.bookings, listingId, availability, period, None) == None {
        ValidPeriod(w.now, w.bookings, listingId, availability, period, None);
      }
    }
  }

  lemma UpdatedPeriod(w: World, userId: int, id: int, request: PeriodRequest)
    requires ForeignKeys(w)
    ensures Accepted(w, id, UpdatePeriod(w, userId, id, request).0)
  {
    if id in w.bookings {
      var listingId := w.bookings[id].listingId;
      var availability, period := w.listings[listingId].availability, PeriodOf(w.tz, request, request.pricePeriod);
      if ValidateBookingDates(w.now, w.bookings, listingId, availability, period, Some(id)) == None {
        ValidPeriod(w.now, w.bookings, listingId, availability, period, Some(id));
      }
    }
  }

  lemma CreatedPrice(w: World, userId: int, isRenter: bool, listingId: int, request: PeriodRequest)
    requires w.nextId !in w.bookings
    ensures var w' := Create(w, userId, isRenter, listingId, request).0;
            w.nextId in w'.bookings ==> PricedFor(w.tz, w'.bookings[w.nextId], request.periodsCount)
  {
    EndIsStartPlusDuration(request.startDate, w.tz, request.pricePeriod, request.periodsCount);
  }

  lemma UpdatedPrice(w: World, userId: int, id: int, request: PeriodRequest)
    requires ForeignKeys(w)
    ensures var w' := UpdatePeriod(w, userId, id, request).0;
            w' != w ==> id in w'.bookings && PricedFor(w.tz, w'.bookings[id], request.periodsCount)
  {
    EndIsStartPlusDuration(request.startDate, w.tz, request.pricePeriod, request.periodsCount);
  }

  lemma StatusKeepsPrice(w: World, e: Event, id: int)
    requires ForeignKeys(w) && !e.CreateCall? && !e.UpdatePeriodCall? && id in w.bookings && id in Step(w, e).bookings
    requires Priced(w.tz, w.bookings[id])
    ensures Priced(w.tz, Step(w, e).bookings[id])
  {
    var b, b' := w.bookings[id], Step(w, e).bookings[id];
    assert b' == b.(status := b'.status);
    var count: Count :| PricedFor(w.tz, b, count);
    assert PricedFor(w.tz, b', count);
  }

  /** A written booking is priced by the length of its period. */
  lemma StepPrices(w: World, e: Event)
    requires ForeignKeys(w) && Ids(w) && Target(w, e) in Step(w, e).bookings
    requires Target(w, e) in w.bookings ==> Priced(w.tz, w.bookings[Target(w, e)])
    ensures Priced(w.tz, Step(w, e).bookings[Target(w, e)])
  {
    match e
    case CreateCall(userId, isRenter, listingId, request) => CreatedPrice(w, userId, isRenter, listingId, request);
    case UpdatePeriodCall(userId, id, request) => UpdatedPrice(w, userId, id, request);
    case _ => StatusKeepsPrice(w, e, Target(w, e));
  }

  lemma StepKeepsPriced(w: World, e: Event)
    requires ForeignKeys(w) && Ids(w) && AllPriced(w)
    ensures AllPriced(Step(w, e))
  {
    StepLocality(w, e);
    if Target(w, e) in Step(w, e).bookings {
      StepPrices(w, e);
    }
  }

  lemma CreateKeepsIds(w: World, userId: int, isRenter: bool, listingId: int, request: PeriodRequest)
    requires Ids(w)
    ensures Ids(Create(w, userId, isRenter, listingId, request).0)
  {
    CreateLocality(w, userId, isRenter, listingId, request);
  }

  lemma UpdateKeepsIds(w: World, userId: int, id: int, request: PeriodRequest)
    requires ForeignKeys(w) && Ids(w)
    ensures Ids(UpdatePeriod(w, userId, id, request).0)
  {
  }

  lemma OtherKeepsIds(w: World, e: Event)
    requires ForeignKeys(w) && Ids(w) && !e.CreateCall? && !e.UpdatePeriodCall?
    ensures Ids(Step(w, e))
  {
  }

  lemma StepKeepsIds(w: World, e: Event)
    requires ForeignKeys(w) && Ids(w)
    ensures Ids(Step(w, e))
  {
    if e.CreateCall? {
      CreateKeepsIds(w, e.userId, e.isRenter, e.listingId, e.request);
    } else if e.UpdatePeriodCall? {
      UpdateKeepsIds(w, e.userId, e.bookingId, e.request);
    } else {
      OtherKeepsIds(w, e);
    }
  }

  lemma StepKeepsOwners(w: World, e: Event)
    requires ForeignKeys(w) && Ids(w) && OwnersDoNotRent(w)
    ensures OwnersDoNotRent(Step(w, e))
  {
    StepLocality(w, e);
  }

  lemma StepKeepsPeriods(w: World, e: Event)
    requires ForeignKeys(w) && Ids(w) && PeriodsNonEmpty(w)
    ensures PeriodsNonEmpty(Step(w, e))
  {
    StepLocality(w, e);
    WrittenPeriods(w, e);
  }

  lemma StepKeepsDisjoint(w: World, e: Event)
    requires ForeignKeys(w) && Ids(w) && LiveDisjoint(w)
    ensures LiveDisjoint(Step(w, e))
  {
    var id, w' := Target(w, e), Step(w, e);
    StepLocality(w, e);
    WrittenPeriods(w, e);
    if id in w.bookings {
      StepFollowsGraph(w, e, id);
    }
  }

  /** A step touches the jobs of its own booking only. */
  lemma JobLocality(w: World, e: Event, id: int)
    requires ForeignKeys(w) && id != Target(w, e)
    ensures var w' := Step(w, e);
            && (id in w'.startJobs <==> id in w.startJobs)
            && (id in w.startJobs ==> w'.startJobs[id] == w.startJobs[id])
            && (id in w'.completionJobs <==> id in w.completionJobs)
            && (id in w.completionJobs ==> w'.completionJobs[id] == w.completionJobs[id])
            && w.now <= w'.now
  {
  }

  lemma JobsOfTarget(w: World, e: Event, id: int)
    requires ForeignKeys(w) && Ids(w) && id == Target(w, e) && id in Step(w, e).bookings
    requires id in w.bookings ==> JobsOf(w, id)
    ensures JobsOf(Step(w, e), id)
  {
  }

  lemma StepKeepsJobs(w: World, e: Event)
    requires ForeignKeys(w) && Ids(w) && JobsScheduled(w)
    ensures JobsScheduled(Step(w, e))
  {
    var w' := Step(w, e);
    StepLocality(w, e);
    forall id | id in w'.bookings ensures JobsOf(w', id) {
      if id == Target(w, e) {
        JobsOfTarget(w, e, id);
      } else {
        assert JobsOf(w, id);
        JobLocality(w, e, id);
      }
    }
  }

  /** At most one transaction has gone through. */
  ghost predicate Grows(bank: Bank, bank': Bank) {
    || bank' == bank
    || (bank'.ledger != [] && bank.Try(LastRow(bank')) == Some(bank'))
  }

  function LastRow(bank: Bank): Transaction
    requires bank.ledger != []
  {
    bank.ledger[|bank.ledger| - 1]
  }

  lemma CreateGrows(w: World, userId: int, isRenter: bool, listingId: int, request: PeriodRequest)
    ensures Grows(w.bank, Create(w, userId, isRenter, listingId, request).0.bank)
  {
  }

  lemma UpdateGrows(w: World, userId: int, id: int, request: PeriodRequest)
    requires ForeignKeys(w)
    ensures Grows(w.bank, UpdatePeriod(w, userId, id, request).0.bank)
  {
  }

  lemma OtherGrows(w: World, e: Event)
    requires ForeignKeys(w) && !e.CreateCall? && !e.UpdatePeriodCall?
    ensures Grows(w.bank, Step(w, e).bank)
  {
  }

  lemma StepGrows(w: World, e: Event)
    requires ForeignKeys(w)
    ensures Grows(w.bank, Step(w, e).bank)
  {
    if e.CreateCall? {
      CreateGrows(w, e.userId, e.isRenter, e.listingId, e.request);
    } else if e.UpdatePeriodCall? {
      UpdateGrows(w, e.userId, e.bookingId, e.request);
    } else {
      OtherGrows(w, e);
    }
  }

  lemma SumGrows(bank: Bank, bank': Bank, weight: Transaction -> int)
    requires Grows(bank, bank') && bank' != bank
    ensures Sum(bank'.ledger, weight) == Sum(bank.ledger, weight) + weight(LastRow(bank'))
    ensures forall t :: t in bank.ledger ==> t in bank'.ledger
  {
    SumAppend(bank.ledger, LastRow(bank'), weight);
  }

  lemma StepKeepsBooks(w: World, e: Event)
    requires ForeignKeys(w) && WellKept(w.bank)
    ensures WellKept(Step(w, e).bank)
  {
    StepGrows(w, e);
    if Step(w, e).bank != w.bank {
      TryKeepsBooks(w.bank, LastRow(Step(w, e).bank));
    }
  }

  predicate Completed(w: World, id: int) {
    id in w.bookings && w.bookings[id].status == COMPLETED
  }

  /** Only a completion job pays out, and only for its own booking, which it completes. */
  lemma PayoutsByStep(w: World, e: Event)
    requires ForeignKeys(w) && Ids(w)
    ensures var w' := Step(w, e);
            if e.CompletionJob? && w'.bank != w.bank
            then && !Completed(w, e.bookingId) && Completed(w', e.bookingId)
                 && LastRow(w'.bank) == PayoutRow(w', e.bookingId)
            else PaysNothingOut(w, w')
  {
    if e.CompletionJob? {
      CompletionPays(w, e.bookingId);
    } else {
      OthersDoNotComplete(w, e);
    }
  }

  lemma CompletionPays(w: World, id: int)
    requires ForeignKeys(w)
    ensures var w' := DeliverCompletion(w, id);
            if w'.bank != w.bank
            then !Completed(w, id) && Completed(w', id) && LastRow(w'.bank) == PayoutRow(w', id)
            else w'.bookings == w.bookings
  {
  }

  ghost predicate PaysNothingOut(w: World, w': World) {
    && (w'.bank == w.bank || (w'.bank.ledger != [] && !LastRow(w'.bank).kind.BOOKING_PAYOUT?))
    && forall id :: Completed(w', id) <==> Completed(w, id)
  }

  lemma CreatePaysNothingOut(w: World, userId: int, isRenter: bool, listingId: int, request: PeriodRequest)
    requires Ids(w)
    ensures PaysNothingOut(w, Create(w, userId, isRenter, listingId, request).0)
  {
    CreateLocality(w, userId, isRenter, listingId, request);
  }

  lemma UpdatePaysNothingOut(w: World, userId: int, id: int, request: PeriodRequest)
    requires ForeignKeys(w)
    ensures PaysNothingOut(w, UpdatePeriod(w, userId, id, request).0)
  {
    UpdateLocality(w, userId, id, request);
  }

  lemma AnswersPayNothingOut(w: World, e: Event)
    requires ForeignKeys(w) && !e.CreateCall? && !e.UpdatePeriodCall? && !e.CompletionJob?
    ensures PaysNothingOut(w, Step(w, e))
  {
    OtherLocality(w, e);
  }

  lemma OthersDoNotComplete(w: World, e: Event)
    requires ForeignKeys(w) && Ids(w) && !e.CompletionJob?
    ensures PaysNothingOut(w, Step(w, e))
  {
    if e.CreateCall? {
      CreatePaysNothingOut(w, e.userId, e.isRenter, e.listingId, e.request);
    } else if e.UpdatePeriodCall? {
      UpdatePaysNothingOut(w, e.userId, e.bookingId, e.request);
    } else {
      AnswersPayNothingOut(w, e);
    }
  }

  lemma StepKeepsPayoutCount(w: World, e: Event, id: int)
    requires ForeignKeys(w) && Ids(w)
    requires Sum(w.bank.ledger, PayoutOf(id)) == if Completed(w, id) then 1 else 0
    ensures Sum(Step(w, e).bank.ledger, PayoutOf(id)) == if Completed(Step(w, e), id) then 1 else 0
  {
    var w' := Step(w, e);
    StepGrows(w, e);
    PayoutsByStep(w, e);
    if w'.bank != w.bank {
      SumGrows(w.bank, w'.bank, PayoutOf(id));
      if e.CompletionJob? && id != e.bookingId {
        StepLocality(w, e);
      }
    }
  }

  lemma StepKeepsPayoutRow(w: World, e: Event, id: int)
    requires ForeignKeys(w) && Ids(w) && Completed(Step(w, e), id)
    requires Completed(w, id) ==> PayoutRow(w, id) in w.bank.ledger
    ensures PayoutRow(Step(w, e), id) in Step(w, e).bank.ledger
  {
    var w' := Step(w, e);
    StepGrows(w, e);
    PayoutsByStep(w, e);
    if w'.bank != w.bank {
      SumGrows(w.bank, w'.bank, PayoutOf(id));
    }
    if Completed(w, id) {
      StepFollowsGraph(w, e, id);
    } else {
      StepLocality(w, e);
    }
  }

  lemma StepKeepsPayouts(w: World, e: Event)
    requires ForeignKeys(w) && Ids(w) && PaidOutOnce(w)
    ensures PaidOutOnce(Step(w, e))
  {
    var w' := Step(w, e);
    forall id ensures Sum(w'.bank.ledger, PayoutOf(id)) == if Completed(w', id) then 1 else 0 {
      StepKeepsPayoutCount(w, e, id);
    }
    forall id | Completed(w', id) ensures PayoutRow(w', id) in w'.bank.ledger {
      StepKeepsPayoutRow(w, e, id);
    }
  }

  /** The last row, when it is new, belongs to a booking and moves the right wallet. */
  predicate PostsForParty(w: World, w': World)
    requires ForeignKeys(w')
  {
    w'.bank != w.bank && w'.bank.ledger != [] ==> NamesParty(w', LastRow(w'.bank))
  }

  lemma CreateNamesParty(w: World, e: Event)
    requires ForeignKeys(w) && e.CreateCall?
    ensures PostsForParty(w, Step(w, e))
  {
  }

  lemma UpdateNamesParty(w: World, e: Event)
    requires ForeignKeys(w) && e.UpdatePeriodCall?
    ensures PostsForParty(w, Step(w, e))
  {
  }

  lemma OtherNamesParty(w: World, e: Event)
    requires ForeignKeys(w) && !e.CreateCall? && !e.UpdatePeriodCall?
    ensures PostsForParty(w, Step(w, e))
  {
  }

  /** The row a step posts belongs to its own booking and moves the right wallet. */
  lemma PostedRowNamesParty(w: World, e: Event)
    requires ForeignKeys(w)
    ensures PostsForParty(w, Step(w, e))
  {
    if e.CreateCall? {
      CreateNamesParty(w, e);
    } else if e.UpdatePeriodCall? {
      UpdateNamesParty(w, e);
    } else {
      OtherNamesParty(w, e);
    }
  }

  lemma StepKeepsParties(w: World, e: Event)
    requires ForeignKeys(w) && Ids(w) && PartiesNamed(w)
    ensures PartiesNamed(Step(w, e))
  {
    var w' := Step(w, e);
    StepGrows(w, e);
    forall t | t in w'.bank.ledger ensures NamesParty(w', t) {
      if t in w.bank.ledger {
        assert NamesParty(w, t);
        if t.bookingId.Some? {
          StepFollowsGraph(w, e, t.bookingId.value);
        }
      } else {
        PostedRowNamesParty(w, e);
      }
    }
  }

  /** Every handler call and every job delivery, first or repeated, keeps all the invariants. */
  lemma StepKeepsInv(w: World, e: Event)
    requires Inv(w)
    ensures Inv(Step(w, e))
  {
    StepKeepsIds(w, e);
    StepKeepsOwners(w, e);
    StepKeepsPeriods(w, e);
    StepKeepsPriced(w, e);
    StepKeepsParties(w, e);
    StepKeepsDisjoint(w, e);
    StepKeepsJobs(w, e);
    StepKeepsPayouts(w, e);
    StepKeepsBooks(w, e);
  }

  lemma {:induction false} RunKeepsInv(w: World, events: seq<Event>)
    requires Inv(w)
    ensures Inv(Run(w, events))
    decreases |events|
  {
    if events != [] {
      StepKeepsInv(w, events[0]);
      RunKeepsInv(Step(w, events[0]), events[1..]);
    }
  }
}
