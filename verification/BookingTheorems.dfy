/** The guarantees of the booking engine over whole runs: escrow, settlement, scheduling, and the
    agreement of offered and accepted periods. */
module BookingTheorems {
  import opened Prelude
  import opened Calendar
  import opened Availability
  import opened Wallets
  import opened Bookings
  import opened BookingSafety
  import BookingOutcomes

  // ---------------------------------------------------------------- money in escrow

  /** What the platform holds for a booking. */
  function Hold(b: Booking): int {
    if Live(b.status) then b.totalPrice else 0
  }

  function HoldOf(w: World, id: int): int {
    if id in w.bookings then Hold(w.bookings[id]) else 0
  }

  function Holds(bookings: map<int, Booking>): map<int, int> {
    map id | id in bookings :: Hold(bookings[id])
  }

  /** The surcharge a call to `updatePeriod` saves into the price without having been able to charge it. */
  function Unpaid(w: World, e: Event): int
    requires ForeignKeys(w)
  {
    if e.UpdatePeriodCall? && UpdatePeriod(w, e.userId, e.bookingId, e.request).1 == Failure(InsufficientFunds)
    then HoldOf(Step(w, e), e.bookingId) - HoldOf(w, e.bookingId)
    else 0
  }

  /** The wallet covers the surcharge of an accepted period change: what a caller can check beforehand. */
  predicate Covered(w: World, e: Event)
    requires ForeignKeys(w)
  {
    e.UpdatePeriodCall? && e.bookingId in w.bookings ==>
      var b := w.bookings[e.bookingId];
      e.userId == b.renterId && b.status == PENDING ==>
        match ChangedBooking(w.now, w.tz, w.listings[b.listingId], w.bookings, e.bookingId, e.request)
        case Failure(_) => true
        case Success(changed) =>
          changed.totalPrice > b.totalPrice ==> changed.totalPrice - b.totalPrice <= w.bank.Balance(e.userId)
  }

  lemma UnpaidIffNotCovered(w: World, e: Event)
    requires ForeignKeys(w)
    ensures 0 <= Unpaid(w, e)
    ensures Unpaid(w, e) == 0 <==> Covered(w, e)
  {
  }

  lemma HoldsUpdate(bookings: map<int, Booking>, id: int, b: Booking)
    ensures Total(Holds(bookings[id := b]))
            == Total(Holds(bookings)) - (if id in bookings then Hold(bookings[id]) else 0) + Hold(b)
  {
    assert Holds(bookings[id := b]) == Holds(bookings)[id := Hold(b)];
    TotalUpdate(Holds(bookings), id, Hold(b));
  }

  /** A ledger row names its booking, and deposits and withdrawals name none. */
  predicate Belongs(t: Transaction, id: int) {
    t.bookingId == if t.kind.DEPOSIT? || t.kind.WITHDRAWAL? then None else Some(id)
  }

  /** What a step posts is what it adds to, or takes from, the hold of its own booking; only a surcharge
      left unpaid raises the hold without a payment. */
  ghost predicate Accounted(w: World, w': World, id: int, unpaid: int) {
    if w'.bank == w.bank then HoldOf(w', id) == HoldOf(w, id) + unpaid
    else
      && w'.bank.ledger != []
      && Belongs(LastRow(w'.bank), id)
      && HoldOf(w', id) == HoldOf(w, id) + HeldFor(id)(LastRow(w'.bank)) + unpaid
  }

  lemma UpdateIsAccounted(w: World, e: Event)
    requires ForeignKeys(w) && e.UpdatePeriodCall?
    ensures Accounted(w, Step(w, e), e.bookingId, Unpaid(w, e))
  {
  }

  lemma StepIsAccounted(w: World, e: Event)
    requires ForeignKeys(w) && Ids(w)
    ensures Accounted(w, Step(w, e), Target(w, e), Unpaid(w, e))
  {
    if e.UpdatePeriodCall? {
      UpdateIsAccounted(w, e);
    } else if e.CreateCall? {
      CreateIsAccounted(w, e.userId, e.isRenter, e.listingId, e.request);
    } else {
      OtherIsAccounted(w, e);
    }
  }

  lemma CreateIsAccounted(w: World, userId: int, isRenter: bool, listingId: int, request: PeriodRequest)
    requires Ids(w)
    ensures Accounted(w, Create(w, userId, isRenter, listingId, request).0, w.nextId, 0)
  {
    CreateLocality(w, userId, isRenter, listingId, request);
  }

  lemma OtherIsAccounted(w: World, e: Event)
    requires ForeignKeys(w) && !e.UpdatePeriodCall? && !e.CreateCall?
    ensures Accounted(w, Step(w, e), Target(w, e), 0)
  {
  }

  /** Deposits less withdrawals. */
  function External(ledger: seq<Transaction>): int {
    Sum(ledger, AmountOf(DEPOSIT)) - Sum(ledger, AmountOf(WITHDRAWAL))
  }

  /** Wallets plus escrow, less what came in from outside. */
  ghost function Surplus(w: World): int {
    Total(w.bank.balances) + Total(Holds(w.bookings)) - External(w.bank.ledger)
  }

  lemma HoldsMove(w: World, w': World, id: int)
    requires WritesAtMost(w, w', id)
    ensures Total(Holds(w'.bookings)) == Total(Holds(w.bookings)) + HoldOf(w', id) - HoldOf(w, id)
  {
    if w'.bookings != w.bookings {
      HoldsUpdate(w.bookings, id, w'.bookings[id]);
    }
  }

  lemma BankSurplus(bank: Bank, bank': Bank, id: int)
    requires Grows(bank, bank') && bank' != bank && Belongs(LastRow(bank'), id)
    ensures Total(bank'.balances) - External(bank'.ledger)
            == Total(bank.balances) - External(bank.ledger) - HeldFor(id)(LastRow(bank'))
  {
    PostMovesTotal(bank, LastRow(bank'));
    ExternalGrows(bank, bank');
  }

  lemma StepSurplus(w: World, e: Event)
    requires ForeignKeys(w) && Ids(w)
    ensures Surplus(Step(w, e)) == Surplus(w) + Unpaid(w, e)
  {
    var id, w' := Target(w, e), Step(w, e);
    StepLocality(w, e);
    StepGrows(w, e);
    StepIsAccounted(w, e);
    HoldsMove(w, w', id);
    if w'.bank != w.bank {
      BankSurplus(w.bank, w'.bank, id);
    }
  }

  /** What a call brings in from outside: the amount of a deposit, less that of a withdrawal the wallet covers. */
  function Inflow(w: World, e: Event): int {
    if e.DepositCall? then e.amount
    else if e.WithdrawCall? && e.amount <= w.bank.Balance(e.userId) then -(e.amount as int)
    else 0
  }

  lemma CreateBringsNothingIn(w: World, userId: int, isRenter: bool, listingId: int, request: PeriodRequest)
    ensures External(Create(w, userId, isRenter, listingId, request).0.bank.ledger) == External(w.bank.ledger)
  {
    var w' := Create(w, userId, isRenter, listingId, request).0;
    CreateGrows(w, userId, isRenter, listingId, request);
    if w'.bank != w.bank {
      ExternalGrows(w.bank, w'.bank);
    }
  }

  lemma UpdateBringsNothingIn(w: World, userId: int, id: int, request: PeriodRequest)
    requires ForeignKeys(w)
    ensures External(UpdatePeriod(w, userId, id, request).0.bank.ledger) == External(w.bank.ledger)
  {
    var w' := UpdatePeriod(w, userId, id, request).0;
    UpdateGrows(w, userId, id, request);
    if w'.bank != w.bank {
      ExternalGrows(w.bank, w'.bank);
    }
  }

  lemma ExternalGrows(bank: Bank, bank': Bank)
    requires Grows(bank, bank') && bank' != bank
    ensures External(bank'.ledger) == External(bank.ledger)
            + (if LastRow(bank').kind == DEPOSIT then LastRow(bank').amount
               else if LastRow(bank').kind == WITHDRAWAL then -(LastRow(bank').amount as int)
               else 0)
  {
    SumGrows(bank, bank', AmountOf(DEPOSIT));
    SumGrows(bank, bank', AmountOf(WITHDRAWAL));
  }

  lemma OtherInflow(w: World, e: Event)
    requires ForeignKeys(w) && !e.CreateCall? && !e.UpdatePeriodCall?
    ensures External(Step(w, e).bank.ledger) == External(w.bank.ledger) + Inflow(w, e)
  {
    OtherGrows(w, e);
    if Step(w, e).bank != w.bank {
      ExternalGrows(w.bank, Step(w, e).bank);
    }
  }

  /** Money crosses the border of the platform by deposits and covered withdrawals, and by no other call. */
  lemma StepInflow(w: World, e: Event)
    requires ForeignKeys(w)
    ensures External(Step(w, e).bank.ledger) == External(w.bank.ledger) + Inflow(w, e)
  {
    if e.CreateCall? {
      CreateBringsNothingIn(w, e.userId, e.isRenter, e.listingId, e.request);
    } else if e.UpdatePeriodCall? {
      UpdateBringsNothingIn(w, e.userId, e.bookingId, e.request);
    } else {
      OtherInflow(w, e);
    }
  }

  /** Payments less refunds less payouts of one booking, less what is held for it. */
  function Balance(w: World, id: int): int {
    Sum(w.bank.ledger, HeldFor(id)) - HoldOf(w, id)
  }

  function UnpaidFor(w: World, e: Event, id: int): int
    requires ForeignKeys(w)
  {
    if id == Target(w, e) then Unpaid(w, e) else 0
  }

  lemma AccountedBalance(w: World, w': World, target: int, unpaid: int, id: int)
    requires Grows(w.bank, w'.bank) && Accounted(w, w', target, unpaid)
    requires WritesAtMost(w, w', target)
    ensures Balance(w', id) == Balance(w, id) - (if id == target then unpaid else 0)
  {
    if w'.bank != w.bank {
      SumGrows(w.bank, w'.bank, HeldFor(id));
    }
  }

  lemma StepBalance(w: World, e: Event, id: int)
    requires ForeignKeys(w) && Ids(w)
    ensures Balance(Step(w, e), id) == Balance(w, id) - UnpaidFor(w, e, id)
  {
    StepLocality(w, e);
    StepGrows(w, e);
    StepIsAccounted(w, e);
    AccountedBalance(w, Step(w, e), Target(w, e), Unpaid(w, e), id);
  }

  // ---------------------------------------------------------------- over runs

  function UnpaidTotal(w: World, events: seq<Event>): int
    requires ForeignKeys(w)
    decreases |events|
  {
    if events == [] then 0 else Unpaid(w, events[0]) + UnpaidTotal(Step(w, events[0]), events[1..])
  }

  function UnpaidTotalFor(w: World, events: seq<Event>, id: int): int
    requires ForeignKeys(w)
    decreases |events|
  {
    if events == [] then 0 else UnpaidFor(w, events[0], id) + UnpaidTotalFor(Step(w, events[0]), events[1..], id)
  }

  function TotalInflow(w: World, events: seq<Event>): int
    requires ForeignKeys(w)
    decreases |events|
  {
    if events == [] then 0 else Inflow(w, events[0]) + TotalInflow(Step(w, events[0]), events[1..])
  }

  lemma {:induction false} InflowOverRun(w: World, events: seq<Event>)
    requires ForeignKeys(w)
    ensures External(Run(w, events).bank.ledger) == External(w.bank.ledger) + TotalInflow(w, events)
    decreases |events|
  {
    if events != [] {
      StepInflow(w, events[0]);
      InflowOverRun(Step(w, events[0]), events[1..]);
    }
  }

  /** Every surcharge of the run is covered by the wallet it is charged to. */
  predicate AllCovered(w: World, events: seq<Event>)
    requires ForeignKeys(w)
    decreases |events|
  {
    events == [] || (Covered(w, events[0]) && AllCovered(Step(w, events[0]), events[1..]))
  }

  lemma {:induction false} UnpaidOverRun(w: World, events: seq<Event>, id: int)
    requires ForeignKeys(w)
    ensures 0 <= UnpaidTotalFor(w, events, id) <= UnpaidTotal(w, events)
    ensures UnpaidTotal(w, events) == 0 <==> AllCovered(w, events)
    decreases |events|
  {
    if events != [] {
      UnpaidIffNotCovered(w, events[0]);
      UnpaidOverRun(Step(w, events[0]), events[1..], id);
    }
  }

  lemma {:induction false} SurplusOverRun(w: World, events: seq<Event>)
    requires ForeignKeys(w) && Ids(w)
    ensures Surplus(Run(w, events)) == Surplus(w) + UnpaidTotal(w, events)
    decreases |events|
  {
    if events != [] {
      StepSurplus(w, events[0]);
      StepKeepsIds(w, events[0]);
      SurplusOverRun(Step(w, events[0]), events[1..]);
    }
  }

  lemma {:induction false} BalanceOverRun(w: World, events: seq<Event>, id: int)
    requires ForeignKeys(w) && Ids(w)
    ensures Balance(Run(w, events), id) == Balance(w, id) - UnpaidTotalFor(w, events, id)
    decreases |events|
  {
    if events != [] {
      StepBalance(w, events[0], id);
      StepKeepsIds(w, events[0]);
      BalanceOverRun(Step(w, events[0]), events[1..], id);
    }
  }

  /** Escrow conservation.  After any run the wallets and the prices of the live bookings together hold
      the amounts of all deposits, less those of the withdrawals that were covered, plus the surcharges left unpaid;
      so money is conserved if and only if every surcharge of the run was covered. */
  lemma EscrowConservation(tz: int, now: int, events: seq<Event>)
    ensures var w0 := Initial(tz, now);
            var w := Run(w0, events);
            var kept, external := Total(w.bank.balances) + Total(Holds(w.bookings)), TotalInflow(w0, events);
            && kept == external + UnpaidTotal(w0, events)
            && (kept == external <==> AllCovered(w0, events))
            && external == Sum(w.bank.ledger, AmountOf(DEPOSIT)) - Sum(w.bank.ledger, AmountOf(WITHDRAWAL))
  {
    var w0 := Initial(tz, now);
    SurplusOverRun(w0, events);
    UnpaidOverRun(w0, events, 0);
    InflowOverRun(w0, events);
    assert Holds(w0.bookings) == map[];
  }

  /** Settlement happens once.  However often jobs are delivered, a booking is paid out at most once,
      and only when completed, to the landlord and in full.  Its payments less refunds less payouts are
      what is held for it, its price while live and nothing once terminal, less its unpaid surcharges. */
  lemma SettledOnce(tz: int, now: int, events: seq<Event>, id: int)
    ensures var w := Run(Initial(tz, now), events);
            && Sum(w.bank.ledger, PayoutOf(id)) == (if Completed(w, id) then 1 else 0)
            && (Completed(w, id) ==> PayoutRow(w, id) in w.bank.ledger)
            && Sum(w.bank.ledger, HeldFor(id)) == HoldOf(w, id) - UnpaidTotalFor(Initial(tz, now), events, id)
            && (AllCovered(Initial(tz, now), events) ==> Sum(w.bank.ledger, HeldFor(id)) == HoldOf(w, id))
  {
    var w0 := Initial(tz, now);
    InitialInv(tz, now);
    RunKeepsInv(w0, events);
    BalanceOverRun(w0, events, id);
    UnpaidOverRun(w0, events, id);
  }

  /** Wallets never go negative and always agree with the ledger. */
  lemma WalletsAreSound(tz: int, now: int, events: seq<Event>, userId: int)
    ensures var bank := Run(Initial(tz, now), events).bank;
            0 <= bank.Balance(userId) == Sum(bank.ledger, OnWallet(userId))
  {
    InitialInv(tz, now);
    RunKeepsInv(Initial(tz, now), events);
  }

  lemma {:induction false} RunLast(w: World, events: seq<Event>, e: Event)
    requires ForeignKeys(w)
    ensures Run(w, events + [e]) == Step(Run(w, events), e)
    ensures AllCovered(w, events + [e]) <==> AllCovered(w, events) && Covered(Run(w, events), e)
    decreases |events|
  {
    if events == [] {
      assert events + [e] == [e];
      assert Run(w, [e]) == Run(Step(w, e), []);
      assert AllCovered(w, [e]) <==> Covered(w, e) && AllCovered(Step(w, e), []);
    } else {
      assert (events + [e])[1..] == events[1..] + [e];
      RunLast(Step(w, events[0]), events[1..], e);
    }
  }

  const HOURLY_LISTING := Listing(2, true, [Period(0, 10 * MS_PER_HOUR)], map[HOUR := 100])
  const ONE_HOUR := Booking(7, 1, Period(0, MS_PER_HOUR), 100, HOUR, 100, PENDING)
  const TWO_HOURS := Booking(7, 1, Period(0, 2 * MS_PER_HOUR), 100, HOUR, 200, PENDING)
  const HOUR_PAID := Bank(map[1 := 0],
                          [Transaction(1, DEPOSIT, 100, None), Transaction(1, BOOKING_PAYMENT, 100, Some(1))])
  const BOOK_AN_HOUR := [NewListing(7, HOURLY_LISTING), DepositCall(1, 100),
                         CreateCall(1, true, 7, PeriodRequest(0, HOUR, 1))]
  const ASK_FOR_TWO := UpdatePeriodCall(1, 1, PeriodRequest(0, HOUR, 2))

  function HourlyWorld(b: Booking): World {
    World(0, 0, map[7 := HOURLY_LISTING], map[1 := b], 2, HOUR_PAID, map[], map[])
  }

  lemma HourIsFree()
    ensures ValidateBookingDates(0, map[], 7, HOURLY_LISTING.availability, ONE_HOUR.period, None) == None
  {
    assert HOURLY_LISTING.availability[0].Contains(ONE_HOUR.period);
  }

  const HOUR_FUNDED := World(0, 0, map[7 := HOURLY_LISTING], map[], 1,
                             Bank(map[1 := 100], [Transaction(1, DEPOSIT, 100, None)]), map[], map[])

  lemma HourIsFunded()
    ensures Run(Initial(0, 0), BOOK_AN_HOUR[..2]) == HOUR_FUNDED
  {
    var w0 := Initial(0, 0);
    RunLast(w0, [], BOOK_AN_HOUR[0]);
    assert [] + [BOOK_AN_HOUR[0]] == BOOK_AN_HOUR[..1];
    RunLast(w0, BOOK_AN_HOUR[..1], BOOK_AN_HOUR[1]);
    assert BOOK_AN_HOUR[..1] + [BOOK_AN_HOUR[1]] == BOOK_AN_HOUR[..2];
  }

  lemma HourIsCreated()
    ensures Step(HOUR_FUNDED, BOOK_AN_HOUR[2]) == HourlyWorld(ONE_HOUR)
  {
    HoursAreExact(0, 0, 1);
    HourIsFree();
  }

  lemma HourIsBooked()
    ensures Run(Initial(0, 0), BOOK_AN_HOUR) == HourlyWorld(ONE_HOUR)
  {
    HourIsFunded();
    HourIsCreated();
    RunLast(Initial(0, 0), BOOK_AN_HOUR[..2], BOOK_AN_HOUR[2]);
    assert BOOK_AN_HOUR[..2] + [BOOK_AN_HOUR[2]] == BOOK_AN_HOUR;
  }

  lemma TwoHoursAreRefusedButSaved()
    ensures UpdatePeriod(HourlyWorld(ONE_HOUR), 1, 1, PeriodRequest(0, HOUR, 2))
            == (HourlyWorld(TWO_HOURS), Failure(InsufficientFunds))
  {
    var w := HourlyWorld(ONE_HOUR);
    HoursAreExact(0, 0, 2);
    assert HOURLY_LISTING.availability[0].Contains(TWO_HOURS.period);
    assert ValidateBookingDates(0, w.bookings, 7, HOURLY_LISTING.availability, TWO_HOURS.period, Some(1)) == None;
    assert w.bookings[1 := TWO_HOURS] == HourlyWorld(TWO_HOURS).bookings;
  }

  lemma HourPaidSum()
    ensures Sum(HOUR_PAID.ledger, HeldFor(1)) == 100
  {
    var deposit, payment := Transaction(1, DEPOSIT, 100, None), Transaction(1, BOOKING_PAYMENT, 100, Some(1));
    assert HeldFor(1)(deposit) == 0 && HeldFor(1)(payment) == 100;
    SumAppend([], deposit, HeldFor(1));
    SumAppend([deposit], payment, HeldFor(1));
    assert [] + [deposit] == [deposit] && [deposit] + [payment] == HOUR_PAID.ledger;
  }

  lemma TwoHoursAreNotCovered()
    ensures !Covered(HourlyWorld(ONE_HOUR), ASK_FOR_TWO)
  {
    TwoHoursAreRefusedButSaved();
    UnpaidIffNotCovered(HourlyWorld(ONE_HOUR), ASK_FOR_TWO);
  }

  lemma TwoHoursAreRefunded()
    ensures TurnDown(HourlyWorld(TWO_HOURS), 1, 1, false).0.bank.Balance(1) == 200
  {
  }

  lemma AfterAsking()
    ensures Run(Initial(0, 0), BOOK_AN_HOUR + [ASK_FOR_TWO]) == HourlyWorld(TWO_HOURS)
    ensures !AllCovered(Initial(0, 0), BOOK_AN_HOUR + [ASK_FOR_TWO])
  {
    HourIsBooked();
    TwoHoursAreRefusedButSaved();
    TwoHoursAreNotCovered();
    RunLast(Initial(0, 0), BOOK_AN_HOUR, ASK_FOR_TWO);
  }

  lemma AfterCancelling()
    ensures Run(Initial(0, 0), BOOK_AN_HOUR + [ASK_FOR_TWO] + [CancelCall(1, 1)])
            == TurnDown(HourlyWorld(TWO_HOURS), 1, 1, false).0
  {
    AfterAsking();
    RunLast(Initial(0, 0), BOOK_AN_HOUR + [ASK_FOR_TWO], CancelCall(1, 1));
  }

  lemma HeldAfterAsking()
    ensures Sum(HourlyWorld(TWO_HOURS).bank.ledger, HeldFor(1)) == 100 && HoldOf(HourlyWorld(TWO_HOURS), 1) == 200
  {
    HourPaidSum();
  }

  /** Conservation does fail: a renter deposits 100 and pays them for one hour, asks for two hours with an empty wallet,
      and although that call is refused the booking is worth 200 afterwards; cancelling it then pays 200 back. */
  lemma UnpaidSurchargeIsSaved()
    ensures var w := Run(Initial(0, 0), BOOK_AN_HOUR + [ASK_FOR_TWO]);
            && Sum(w.bank.ledger, HeldFor(1)) == 100
            && HoldOf(w, 1) == 200
            && !AllCovered(Initial(0, 0), BOOK_AN_HOUR + [ASK_FOR_TWO])
    ensures Run(Initial(0, 0), BOOK_AN_HOUR + [ASK_FOR_TWO] + [CancelCall(1, 1)]).bank.Balance(1) == 200
  {
    AfterAsking();
    HeldAfterAsking();
    AfterCancelling();
    TwoHoursAreRefunded();
  }

  // ---------------------------------------------------------------- live bookings never overlap

  /** In every reachable state the live bookings of a listing are pairwise disjoint. */
  lemma NoDoubleBooking(tz: int, now: int, events: seq<Event>, i: int, j: int)
    ensures var bookings := Run(Initial(tz, now), events).bookings;
            i in bookings && j in bookings && i != j && Rivals(bookings[i], bookings[j]) ==>
              forall t :: !(bookings[i].period.Has(t) && bookings[j].period.Has(t))
  {
    InitialInv(tz, now);
    RunKeepsInv(Initial(tz, now), events);
    var bookings := Run(Initial(tz, now), events).bookings;
    if i in bookings && j in bookings && i != j && Rivals(bookings[i], bookings[j]) {
      assert !bookings[i].period.Overlaps(bookings[j].period);
    }
  }

  /** The rows of the unordered availability query, in whatever order they come. */
  predicate RowsOf(rows: seq<Period>, bookings: map<int, Booking>, listingId: int, exclude: Option<int>) {
    && (forall p :: p in rows ==> exists id :: id in Blocking(bookings, listingId, exclude) && bookings[id].period == p)
    && (forall id :: id in Blocking(bookings, listingId, exclude) ==> bookings[id].period in rows)
  }

  lemma RowsExist(bookings: map<int, Booking>, ids: seq<int>, listingId: int, exclude: Option<int>)
    requires forall id :: id in bookings ==> bookings[id].period.NonEmpty()
    requires multiset(ids) == multiset(Blocking(bookings, listingId, exclude))
    ensures AllNonEmpty(PeriodsOf(bookings, ids))
    ensures RowsOf(PeriodsOf(bookings, ids), bookings, listingId, exclude)
  {
    var blocking := Blocking(bookings, listingId, exclude);
    forall id ensures id in ids <==> id in blocking {
      assert id in multiset(ids) <==> id in multiset(blocking);
    }
    PeriodsAre(bookings, ids);
  }

  lemma {:induction false} PeriodsAre(bookings: map<int, Booking>, ids: seq<int>)
    requires forall id :: id in ids ==> id in bookings
    ensures forall p :: p in PeriodsOf(bookings, ids) ==> exists id :: id in ids && bookings[id].period == p
    ensures forall id :: id in ids ==> bookings[id].period in PeriodsOf(bookings, ids)
  {
    if ids != [] {
      var first, rest := ids[0], ids[1..];
      PeriodsAre(bookings, rest);
      assert PeriodsOf(bookings, ids) == [bookings[first].period] + PeriodsOf(bookings, rest);
      assert ids == [first] + rest;
    }
  }

  lemma {:induction false} PeriodsConcat(bookings: map<int, Booking>, xs: seq<int>, ys: seq<int>)
    ensures PeriodsOf(bookings, xs + ys) == PeriodsOf(bookings, xs) + PeriodsOf(bookings, ys)
  {
    if xs == [] {
      assert xs + ys == ys;
    } else {
      PeriodsConcat(bookings, xs[1..], ys);
      assert (xs + ys)[1..] == xs[1..] + ys;
    }
  }

  lemma {:induction false} PeriodsPermute(bookings: map<int, Booking>, xs: seq<int>, ys: seq<int>)
    requires multiset(xs) == multiset(ys)
    ensures multiset(PeriodsOf(bookings, xs)) == multiset(PeriodsOf(bookings, ys))
    decreases |xs|
  {
    if xs == [] {
      assert |multiset(ys)| == 0;
    } else {
      var i := TakeOut(xs, ys);
      var x, before, after := xs[0], ys[..i], ys[i + 1..];
      assert xs == [x] + xs[1..];
      assert ys == before + ([x] + after);
      PeriodsPermute(bookings, xs[1..], before + after);
      PeriodsConcat(bookings, before, after);
      PeriodsConcat(bookings, before, [x] + after);
      PeriodsConcat(bookings, [x], after);
      PeriodsConcat(bookings, [x], xs[1..]);
    }
  }

  /** A period that has not begun passes validation if and only if it lies inside one of the periods
      `getListingAvailability` returns, with the same booking excluded. */
  lemma OfferedIsAccepted(now: int, today: int, bookings: map<int, Booking>, listingId: int,
                          availability: seq<Period>, exclude: Option<int>, rows: seq<Period>, period: Period)
    requires today <= now <= period.start < period.end
    requires RowsOf(rows, bookings, listingId, exclude)
    ensures Offers(FreePeriods(availability, rows, today), period)
            <==> ValidateBookingDates(now, bookings, listingId, availability, period, exclude) == None
  {
    OfferedEqualsBookable(availability, rows, today, period);
    if Overlapping(bookings, listingId, exclude, period) {
      var id :| id in Blocking(bookings, listingId, exclude) && bookings[id].period.Overlaps(period);
      assert bookings[id].period in rows;
    } else {
      forall p | p in rows ensures !p.Overlaps(period) {
        var id :| id in Blocking(bookings, listingId, exclude) && bookings[id].period == p;
      }
    }
  }

  /** A request is granted if and only if a renter other than the landlord asks for an open listing by
      a tariff it has, from a whole minute not in the past, for a period that is offered, with enough
      money in the wallet.  Any refusal leaves everything as it was, except that a serial id is used up. */
  lemma CreateIffOffered(w: World, userId: int, isRenter: bool, listingId: int, request: PeriodRequest,
                         today: int, rows: seq<Period>)
    requires ForeignKeys(w) && Ids(w) && today <= w.now
    requires RowsOf(rows, w.bookings, listingId, None)
    ensures var (w', r) := Create(w, userId, isRenter, listingId, request);
            var start := request.startDate;
            var end := start + Duration(start, w.tz, request.pricePeriod, request.periodsCount);
            && (r.Success? <==>
                 && isRenter
                 && listingId in w.listings
                 && var listing := w.listings[listingId];
                    && listing.open && listing.owner != userId
                    && request.pricePeriod in listing.pricings
                    && (start + w.tz) % 60000 == 0 && w.now <= start
                    && Offers(FreePeriods(listing.availability, rows, today), Period(start, end))
                    && listing.pricings[request.pricePeriod] * request.periodsCount <= w.bank.Balance(userId))
            && (r.Failure? ==> w' == w.(nextId := w'.nextId))
  {
    var start := request.startDate;
    EndIsStartPlusDuration(start, w.tz, request.pricePeriod, request.periodsCount);
    EndAfterStart(start, w.tz, request.pricePeriod, request.periodsCount);
    if listingId in w.listings && w.now <= start {
      OfferedIsAccepted(w.now, today, w.bookings, listingId, w.listings[listingId].availability, None, rows,
                        PeriodOf(w.tz, request, request.pricePeriod));
    }
    assert w.bookings - {w.nextId} == w.bookings;
  }

  /** What a changed booking will cost: a kept tariff keeps the price agreed before, a new one has the listing's. */
  function NewPrice(b: Booking, listing: Listing, request: PeriodRequest): nat
    requires b.pricePeriod == request.pricePeriod || request.pricePeriod in listing.pricings
  {
    var price := if b.pricePeriod == request.pricePeriod then b.price else listing.pricings[request.pricePeriod];
    price * request.periodsCount
  }

  /** A period change is granted if and only if its renter asks, while it is pending, for a whole minute not in the
      past, a tariff kept or on offer, a period offered when the booking itself is left out, and a surcharge the
      wallet covers; the renter's wallet then moves by exactly the difference of the two prices. */
  lemma UpdateIffOffered(w: World, userId: int, id: int, request: PeriodRequest, today: int, rows: seq<Period>)
    requires ForeignKeys(w) && id in w.bookings && today <= w.now
    requires RowsOf(rows, w.bookings, w.bookings[id].listingId, Some(id))
    ensures var (w', r) := UpdatePeriod(w, userId, id, request);
            var b, start := w.bookings[id], request.startDate;
            var listing := w.listings[b.listingId];
            var end := start + Duration(start, w.tz, request.pricePeriod, request.periodsCount);
            && (r.Success? <==>
                 && userId == b.renterId && b.status == PENDING
                 && (start + w.tz) % 60000 == 0 && w.now <= start
                 && (b.pricePeriod == request.pricePeriod || request.pricePeriod in listing.pricings)
                 && Offers(FreePeriods(listing.availability, rows, today), Period(start, end))
                 && (NewPrice(b, listing, request) > b.totalPrice ==>
                       NewPrice(b, listing, request) - b.totalPrice <= w.bank.Balance(userId)))
            && (r.Success? ==>
                 && w'.bookings[id].period == Period(start, end)
                 && w'.bookings[id].totalPrice == NewPrice(b, listing, request)
                 && w'.bank.Balance(userId) == w.bank.Balance(userId) - (w'.bookings[id].totalPrice - b.totalPrice))
  {
    var b, start := w.bookings[id], request.startDate;
    EndIsStartPlusDuration(start, w.tz, request.pricePeriod, request.periodsCount);
    EndAfterStart(start, w.tz, request.pricePeriod, request.periodsCount);
    if w.now <= start {
      OfferedIsAccepted(w.now, today, w.bookings, b.listingId, w.listings[b.listingId].availability, Some(id), rows,
                        PeriodOf(w.tz, request, request.pricePeriod));
    }
  }

  lemma {:induction false} LiveRowsAreApart(w: World, ids: seq<int>, listingId: int)
    requires LiveDisjoint(w)
    requires forall id | id in ids ::
               id in w.bookings && w.bookings[id].listingId == listingId && Live(w.bookings[id].status)
    requires forall id :: multiset(ids)[id] <= 1
    ensures Apart(PeriodsOf(w.bookings, ids))
  {
    if ids != [] {
      var first, rest := ids[0], ids[1..];
      assert ids == [first] + rest;
      assert forall id :: multiset(ids)[id] == multiset{first}[id] + multiset(rest)[id];
      LiveRowsAreApart(w, rest, listingId);
      assert first !in multiset(rest);
      PeriodsAre(w.bookings, rest);
      forall p | p in PeriodsOf(w.bookings, rest) ensures !p.Overlaps(w.bookings[first].period) {
        var id :| id in rest && w.bookings[id].period == p;
        assert id != first;
      }
    }
  }

  /** Accounting after every run: what a listing offers is the time of its slots from today on, less what each
      blocking booking takes out of them, whatever booking is left out and in whatever order the rows come. */
  lemma OfferedTimeAfterEveryRun(tz: int, now: int, events: seq<Event>, listingId: int, exclude: Option<int>,
                                 ids: seq<int>, today: int)
    requires var w := Run(Initial(tz, now), events);
             && listingId in w.listings && AllNonEmpty(w.listings[listingId].availability)
             && multiset(ids) == multiset(Blocking(w.bookings, listingId, exclude))
    ensures var w := Run(Initial(tz, now), events);
            var slots, rows := w.listings[listingId].availability, PeriodsOf(w.bookings, ids);
            TotalLength(FreePeriods(slots, rows, today))
            == TotalLength(Clip(slots, today)) - TotalOverlap(Clip(slots, today), rows)
  {
    var w := Run(Initial(tz, now), events);
    InitialInv(tz, now);
    RunKeepsInv(Initial(tz, now), events);
    RowsExist(w.bookings, ids, listingId, exclude);
    forall id | id in ids ensures id in Blocking(w.bookings, listingId, exclude) {
      assert id in multiset(ids);
    }
    LiveRowsAreApart(w, ids, listingId);
    FreeTimeAccounting(w.listings[listingId].availability, PeriodsOf(w.bookings, ids), today);
  }

  lemma {:induction false} PeriodsOfMore(bookings: map<int, Booking>, ids: seq<int>, id: int, b: Booking)
    requires id !in ids
    ensures PeriodsOf(bookings[id := b], ids) == PeriodsOf(bookings, ids)
  {
    if ids != [] {
      assert ids[0] != id && id !in ids[1..];
      PeriodsOfMore(bookings, ids[1..], id, b);
    }
  }

  lemma BlockingMore(bookings: map<int, Booking>, id: int, b: Booking)
    requires id !in bookings && Live(b.status)
    ensures Blocking(bookings[id := b], b.listingId, None) == Blocking(bookings, b.listingId, None) + {id}
  {
  }

  /** The offered time does not depend on the order in which the rows come. */
  lemma OfferedTimeOfAnyOrder(bookings: map<int, Booking>, listingId: int, slots: seq<Period>, xs: seq<int>,
                              ys: seq<int>, today: int)
    requires forall id :: id in bookings ==> bookings[id].period.NonEmpty()
    requires AllNonEmpty(slots)
    requires multiset(xs) == multiset(ys) == multiset(Blocking(bookings, listingId, None))
    ensures FreePeriods(slots, PeriodsOf(bookings, xs), today) == FreePeriods(slots, PeriodsOf(bookings, ys), today)
  {
    RowsExist(bookings, xs, listingId, None);
    RowsExist(bookings, ys, listingId, None);
    PeriodsPermute(bookings, xs, ys);
    FreePeriodsAreConfluent(slots, PeriodsOf(bookings, xs), PeriodsOf(bookings, ys), today);
  }

  lemma RowsAfterSaving(bookings: map<int, Booking>, id: int, b: Booking, ids: seq<int>)
    requires id !in bookings && Live(b.status)
    requires multiset(ids) == multiset(Blocking(bookings, b.listingId, None))
    ensures multiset(ids + [id]) == multiset(Blocking(bookings[id := b], b.listingId, None))
    ensures PeriodsOf(bookings[id := b], ids + [id]) == PeriodsOf(bookings, ids) + [b.period]
  {
    var bookings' := bookings[id := b];
    BlockingMore(bookings, id, b);
    assert id !in multiset(ids);
    assert multiset(Blocking(bookings, b.listingId, None) + {id}) == multiset(ids) + multiset{id};
    PeriodsConcat(bookings', ids, [id]);
    PeriodsOfMore(bookings, ids, id, b);
    assert PeriodsOf(bookings', [id]) == [b.period] + PeriodsOf(bookings', []);
  }

  /** Saving one more booking on an offered period lowers the offered time by its length. */
  lemma SavedBookingTakesItsLength(bookings: map<int, Booking>, id: int, b: Booking, slots: seq<Period>, ids: seq<int>,
                                   more: seq<int>, today: int)
    requires id !in bookings && Live(b.status) && today <= b.period.start < b.period.end
    requires forall i :: i in bookings ==> bookings[i].period.NonEmpty()
    requires AllNonEmpty(slots) && Apart(slots)
    requires multiset(ids) == multiset(Blocking(bookings, b.listingId, None))
    requires multiset(more) == multiset(Blocking(bookings[id := b], b.listingId, None))
    requires Offers(FreePeriods(slots, PeriodsOf(bookings, ids), today), b.period)
    ensures TotalLength(FreePeriods(slots, PeriodsOf(bookings[id := b], more), today))
            == TotalLength(FreePeriods(slots, PeriodsOf(bookings, ids), today)) - (b.period.end - b.period.start)
  {
    RowsAfterSaving(bookings, id, b, ids);
    OfferedTimeOfAnyOrder(bookings[id := b], b.listingId, slots, ids + [id], more, today);
    RowsExist(bookings, ids, b.listingId, None);
    NewBookingTakesItsLength(slots, PeriodsOf(bookings, ids), today, b.period);
  }

  /** A granted booking lowers what its listing offers by exactly what was asked for, in whatever order the rows come
      before and after. */
  lemma GrantedBookingTakesItsLength(w: World, userId: int, isRenter: bool, listingId: int, request: PeriodRequest,
                                     ids: seq<int>, more: seq<int>, today: int)
    requires Inv(w) && today <= w.now
    requires Create(w, userId, isRenter, listingId, request).1.Success?
    requires AllNonEmpty(w.listings[listingId].availability) && Apart(w.listings[listingId].availability)
    requires var w' := Create(w, userId, isRenter, listingId, request).0;
             && multiset(ids) == multiset(Blocking(w.bookings, listingId, None))
             && multiset(more) == multiset(Blocking(w'.bookings, listingId, None))
    ensures var w' := Create(w, userId, isRenter, listingId, request).0;
            var slots := w.listings[listingId].availability;
            TotalLength(FreePeriods(slots, PeriodsOf(w'.bookings, more), today))
            == TotalLength(FreePeriods(slots, PeriodsOf(w.bookings, ids), today))
               - Duration(request.startDate, w.tz, request.pricePeriod, request.periodsCount)
  {
    var rows := PeriodsOf(w.bookings, ids);
    RowsExist(w.bookings, ids, listingId, None);
    CreateIffOffered(w, userId, isRenter, listingId, request, today, rows);
    BookingOutcomes.CreateIsExact(w, userId, isRenter, listingId, request);
    EndAfterStart(request.startDate, w.tz, request.pricePeriod, request.periodsCount);
    EndIsStartPlusDuration(request.startDate, w.tz, request.pricePeriod, request.periodsCount);
    var b := Create(w, userId, isRenter, listingId, request).0.bookings[w.nextId];
    SavedBookingTakesItsLength(w.bookings, w.nextId, b, w.listings[listingId].availability, ids, more, today);
  }

  /** Cancelling right after creating gives every wallet its balance back and frees the period: the
      listing is blocked by exactly the bookings that blocked it before. */
  lemma CancelUndoesCreate(w: World, userId: int, listingId: int, request: PeriodRequest, ms: nat, anyone: int)
    requires Inv(w) && w.now + ms <= request.startDate
    requires Create(w, userId, true, listingId, request).1.Success?
    ensures var w1 := Step(Create(w, userId, true, listingId, request).0, Tick(ms));
            var (w2, r) := TurnDown(w1, userId, w.nextId, false);
            && r == Success(w.nextId)
            && w2.bank.Balance(anyone) == w.bank.Balance(anyone)
            && Blocking(w2.bookings, listingId, None) == Blocking(w.bookings, listingId, None)
  {
  }

  /** Validation never stops at "End date must be after start date": the requested periods are never
      empty. */
  lemma EndBeforeStartUnreachable(w: World, e: Event)
    requires ForeignKeys(w)
    ensures e.CreateCall? ==> Create(w, e.userId, e.isRenter, e.listingId, e.request).1 != Failure(EndBeforeStart)
    ensures e.UpdatePeriodCall? ==> UpdatePeriod(w, e.userId, e.bookingId, e.request).1 != Failure(EndBeforeStart)
  {
    if e.CreateCall? || e.UpdatePeriodCall? {
      EndAfterStart(e.request.startDate, w.tz, e.request.pricePeriod, e.request.periodsCount);
    }
  }

  // ---------------------------------------------------------------- scheduling

  /** The check "booking end date is in future" of the completion job never fires. */
  lemma CompletionIsNeverEarly(w: World, id: int)
    requires Inv(w) && id in w.bookings && w.bookings[id].status == ACTIVE && Due(w.completionJobs, id, w.now)
    ensures w.bookings[id].period.end <= w.now
    ensures DeliverCompletion(w, id).bookings[id].status == COMPLETED
  {
    assert JobsOf(w, id);
  }

  /** Delivering the start job and then the completion job of a confirmed booking whose period is over
      completes it and credits the landlord with its price. */
  lemma ConfirmedIsSettled(w: World, id: int)
    requires Inv(w) && id in w.bookings && w.bookings[id].status == CONFIRMED && w.bookings[id].period.end <= w.now
    ensures var b, landlord := w.bookings[id], Landlord(w, id);
            var w' := DeliverCompletion(DeliverStart(w, id), id);
            && w'.bookings[id] == b.(status := COMPLETED)
            && w'.bank.Balance(landlord) == w.bank.Balance(landlord) + b.totalPrice
  {
    assert JobsOf(w, id);
    assert w.bookings[id].period.NonEmpty();
  }

  ghost function Waiting(jobs: map<int, Job>): set<int> {
    set id | id in jobs && jobs[id].waiting
  }

  predicate Pending(jobs: map<int, Job>, id: int, now: int) {
    Due(jobs, id, now) && jobs[id].waiting
  }

  /** No job is both due and waiting. */
  ghost predicate Quiescent(w: World) {
    forall id :: !Pending(w.startJobs, id, w.now) && !Pending(w.completionJobs, id, w.now)
  }

  /** Once no due job is waiting, no confirmed booking has begun and no active one has ended. */
  lemma QuiescentIsSettled(w: World, id: int)
    requires Inv(w) && Quiescent(w) && id in w.bookings
    ensures w.bookings[id].status == CONFIRMED ==> w.now < w.bookings[id].period.start
    ensures w.bookings[id].status == ACTIVE ==> w.now < w.bookings[id].period.end
  {
    assert JobsOf(w, id);
    assert !Pending(w.startJobs, id, w.now) && !Pending(w.completionJobs, id, w.now);
  }

  /** A start job still to run counts twice, since it may add a completion job. */
  ghost function Work(w: World): nat {
    2 * |Waiting(w.startJobs)| + |Waiting(w.completionJobs)|
  }

  lemma AcknowledgeRemoves(jobs: map<int, Job>, id: int)
    requires id in jobs && jobs[id].waiting
    ensures Waiting(Acknowledge(jobs, id)) == Waiting(jobs) - {id}
    ensures |Waiting(Acknowledge(jobs, id))| == |Waiting(jobs)| - 1
  {
    assert Waiting(Acknowledge(jobs, id)) == Waiting(jobs) - {id};
  }

  lemma StartReducesWork(w: World, id: int)
    requires Inv(w) && Pending(w.startJobs, id, w.now)
    ensures Work(DeliverStart(w, id)) < Work(w)
  {
    var w' := DeliverStart(w, id);
    assert w'.startJobs == Acknowledge(w.startJobs, id);
    AcknowledgeRemoves(w.startJobs, id);
    assert Waiting(w'.completionJobs) <= Waiting(w.completionJobs) + {id};
    SubsetSize(Waiting(w'.completionJobs), Waiting(w.completionJobs), id);
  }

  lemma CompletionReducesWork(w: World, id: int)
    requires Inv(w) && Pending(w.completionJobs, id, w.now)
    ensures Work(DeliverCompletion(w, id)) < Work(w)
  {
    var w' := DeliverCompletion(w, id);
    assert w'.completionJobs == Acknowledge(w.completionJobs, id) && w'.startJobs == w.startJobs;
    AcknowledgeRemoves(w.completionJobs, id);
  }

  /** Every first delivery of a due job, in whatever order, leaves less work. */
  lemma DeliveryReducesWork(w: World, id: int)
    requires Inv(w)
    ensures Pending(w.startJobs, id, w.now) ==> Work(DeliverStart(w, id)) < Work(w)
    ensures Pending(w.completionJobs, id, w.now) ==> Work(DeliverCompletion(w, id)) < Work(w)
  {
    if Pending(w.startJobs, id, w.now) {
      StartReducesWork(w, id);
    }
    if Pending(w.completionJobs, id, w.now) {
      CompletionReducesWork(w, id);
    }
  }

  lemma {:induction false} SubsetSize(s: set<int>, t: set<int>, id: int)
    requires s <= t + {id}
    ensures |s| <= |t| + 1
  {
    Cardinality(s, t + {id});
  }

  lemma {:induction false} Cardinality(s: set<int>, t: set<int>)
    requires s <= t
    ensures |s| <= |t|
  {
    if s != {} {
      var x := AnyKey(s);
      Cardinality(s - {x}, t - {x});
    }
  }

  predicate Delivers(e: Event) {
    e.StartJob? || e.CompletionJob?
  }

  lemma NextJob(w: World) returns (e: Event)
    requires Inv(w) && !Quiescent(w)
    ensures Delivers(e) && Work(Step(w, e)) < Work(w) && Step(w, e).now == w.now
  {
    var id :| Pending(w.startJobs, id, w.now) || Pending(w.completionJobs, id, w.now);
    StepDelivers(w, id);
    DeliveryReducesWork(w, id);
    e := if Pending(w.startJobs, id, w.now) then StartJob(id) else CompletionJob(id);
  }

  lemma StepDelivers(w: World, id: int)
    requires ForeignKeys(w)
    ensures Step(w, StartJob(id)) == DeliverStart(w, id) && DeliverStart(w, id).now == w.now
    ensures Step(w, CompletionJob(id)) == DeliverCompletion(w, id) && DeliverCompletion(w, id).now == w.now
  {
  }

  /** Running due jobs until none is waiting terminates. */
  lemma {:induction false} DrainJobs(w: World) returns (events: seq<Event>)
    requires Inv(w)
    ensures forall e :: e in events ==> Delivers(e)
    ensures Inv(Run(w, events)) && Quiescent(Run(w, events)) && Run(w, events).now == w.now
    decreases Work(w)
  {
    if Quiescent(w) {
      events := [];
    } else {
      var e := NextJob(w);
      StepKeepsInv(w, e);
      var rest := DrainJobs(Step(w, e));
      events := [e] + rest;
      assert events[1..] == rest;
    }
  }

  lemma {:induction false} RunFollowsGraph(w: World, events: seq<Event>, id: int)
    requires ForeignKeys(w) && Ids(w) && id in w.bookings && w.bookings[id].status != PENDING
    ensures var b, w' := w.bookings[id], Run(w, events);
            id in w'.bookings && w'.bookings[id] == b.(status := w'.bookings[id].status)
    ensures var s, s' := w.bookings[id].status, Run(w, events).bookings[id].status;
            && (s == CONFIRMED ==> s' == CONFIRMED || s' == ACTIVE || s' == COMPLETED)
            && (s == ACTIVE ==> s' == ACTIVE || s' == COMPLETED)
            && (!Live(s) ==> s' == s)
    decreases |events|
  {
    if events != [] {
      StepFollowsGraph(w, events[0], id);
      StepKeepsIds(w, events[0]);
      RunFollowsGraph(Step(w, events[0]), events[1..], id);
    }
  }

  /** Any order will do: whatever has happened since `w`, once no due job is waiting, every booking that was confirmed
      or active in `w` and whose period was over is completed and paid out. */
  lemma QuiescenceSettlesEverything(w: World, events: seq<Event>, id: int)
    requires Inv(w) && id in w.bookings && w.bookings[id].period.end <= w.now
    requires w.bookings[id].status == CONFIRMED || w.bookings[id].status == ACTIVE
    requires Quiescent(Run(w, events)) && w.now <= Run(w, events).now
    ensures var w' := Run(w, events); Completed(w', id) && PayoutRow(w', id) in w'.bank.ledger
  {
    var w' := Run(w, events);
    RunKeepsInv(w, events);
    RunFollowsGraph(w, events, id);
    QuiescentIsSettled(w', id);
    assert w.bookings[id].period.NonEmpty();
  }

  /** Scheduling progress: from any reachable state, running the due jobs terminates, and then every
      booking that was confirmed or active and whose period is over is completed and paid out. */
  lemma DueJobsSettleEverything(w: World) returns (events: seq<Event>)
    requires Inv(w)
    ensures forall e :: e in events ==> Delivers(e)
    ensures var w' := Run(w, events);
            forall id | id in w.bookings && w.bookings[id].period.end <= w.now
                        && (w.bookings[id].status == CONFIRMED || w.bookings[id].status == ACTIVE) ::
              Completed(w', id) && PayoutRow(w', id) in w'.bank.ledger
  {
    events := DrainJobs(w);
    var w' := Run(w, events);
    forall id | id in w.bookings && w.bookings[id].period.end <= w.now
                && (w.bookings[id].status == CONFIRMED || w.bookings[id].status == ACTIVE)
      ensures Completed(w', id) && PayoutRow(w', id) in w'.bank.ledger
    {
      QuiescenceSettlesEverything(w, events, id);
    }
  }

  /** The renter does not move the booking. */
  ghost predicate LeavesPeriod(events: seq<Event>, id: int) {
    forall e | e in events :: !(e.UpdatePeriodCall? && e.bookingId == id)
  }

  /** A booking still pending when its period has begun can be neither cancelled nor confirmed nor rejected:
      unless its renter moves it, it stays pending, with its price held, through every further run. */
  lemma {:induction false} StalePendingIsStuck(w: World, events: seq<Event>, id: int)
    requires Inv(w) && id in w.bookings
    requires w.bookings[id].status == PENDING && w.bookings[id].period.start < w.now
    requires LeavesPeriod(events, id)
    ensures id in Run(w, events).bookings && Run(w, events).bookings[id] == w.bookings[id]
    decreases |events|
  {
    if events != [] {
      var e := events[0];
      StepLocality(w, e);
      StepKeepsInv(w, e);
      assert JobsOf(w, id);
      StaleStep(w, e, id);
      StalePendingIsStuck(Step(w, e), events[1..], id);
    }
  }

  lemma StaleStep(w: World, e: Event, id: int)
    requires ForeignKeys(w) && Ids(w) && id in w.bookings && id !in w.startJobs && id !in w.completionJobs
    requires w.bookings[id].status == PENDING && w.bookings[id].period.start < w.now
    requires !(e.UpdatePeriodCall? && e.bookingId == id)
    ensures id in Step(w, e).bookings && Step(w, e).bookings[id] == w.bookings[id] && w.now <= Step(w, e).now
  {
    StepLocality(w, e);
  }

  /** Some run that leaves the period alone takes the booking out of PENDING. */
  ghost predicate CanBeAnswered(w: World, id: int)
    requires ForeignKeys(w)
  {
    exists status | status != PENDING :: CanBecome(w, id, status)
  }

  /** Some run that leaves the period alone gives the booking this status. */
  ghost predicate CanBecome(w: World, id: int, status: BookingStatus)
    requires ForeignKeys(w)
  {
    exists events :: LeavesPeriod(events, id) && EndsAs(w, events, id, status)
  }

  ghost predicate EndsAs(w: World, events: seq<Event>, id: int, status: BookingStatus)
    requires ForeignKeys(w)
  {
    id in Run(w, events).bookings && Run(w, events).bookings[id].status == status
  }

  /** A pending booking whose renter leaves its period alone can leave PENDING, and can be answered in each of the
      three ways, if and only if its period has not begun. */
  lemma PendingIsAnswerableIff(w: World, id: int, answer: BookingStatus)
    requires Inv(w) && id in w.bookings && w.bookings[id].status == PENDING
    requires answer == CONFIRMED || answer == CANCELLED || answer == REJECTED
    ensures CanBecome(w, id, answer) <==> w.now <= w.bookings[id].period.start
    ensures CanBeAnswered(w, id) <==> w.now <= w.bookings[id].period.start
  {
    if w.now <= w.bookings[id].period.start {
      var e := AnswerCall(w, id, answer);
      assert Run(w, [e]) == Run(Step(w, e), []);
      assert LeavesPeriod([e], id) && EndsAs(w, [e], id, answer);
    } else {
      forall events, status | status != PENDING && LeavesPeriod(events, id) ensures !EndsAs(w, events, id, status) {
        StalePendingIsStuck(w, events, id);
      }
    }
  }

  /** Who is asked for which answer. */
  lemma AnswerCall(w: World, id: int, answer: BookingStatus) returns (e: Event)
    requires Inv(w) && id in w.bookings && w.bookings[id].status == PENDING && w.now <= w.bookings[id].period.start
    requires answer == CONFIRMED || answer == CANCELLED || answer == REJECTED
    ensures !e.UpdatePeriodCall? && id in Step(w, e).bookings && Step(w, e).bookings[id].status == answer
  {
    e := if answer == CONFIRMED then ConfirmCall(Landlord(w, id), id)
         else if answer == CANCELLED then CancelCall(w.bookings[id].renterId, id)
         else RejectCall(Landlord(w, id), id);
  }

  /** Stuck bookings do occur: an hour is booked and paid, nobody answers, and a millisecond after its start the
      100 stay held through every further run in which the renter does not move the hour. */
  lemma StalePendingIsReachable(events: seq<Event>)
    requires LeavesPeriod(events, 1)
    ensures var w := Run(Initial(0, 0), BOOK_AN_HOUR + [Tick(1)]);
            && 1 in w.bookings && w.bookings[1].status == PENDING
            && !CanBeAnswered(w, 1)
            && HoldOf(Run(w, events), 1) == 100
  {
    var w := Run(Initial(0, 0), BOOK_AN_HOUR + [Tick(1)]);
    HourIsBooked();
    RunLast(Initial(0, 0), BOOK_AN_HOUR, Tick(1));
    assert w == HourlyWorld(ONE_HOUR).(now := 1);
    InitialInv(0, 0);
    RunKeepsInv(Initial(0, 0), BOOK_AN_HOUR + [Tick(1)]);
    PendingIsAnswerableIff(w, 1, CONFIRMED);
    StalePendingIsStuck(w, events, 1);
  }
}
