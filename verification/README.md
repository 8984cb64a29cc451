# A verified model of a space-rental backend

The repository is a NestJS service for renting out garages, parking lots and the like.  This project models the
parts that carry state from one call to the next and proves what they keep, over every input and every run.

- **Calendar** (`Calendar.dfy`).  End dates by hour, day, week and month on a local clock with a fixed offset, as
  ECMA-262 section 21.4.1 defines `MakeDay`, `MonthFromTime` and `DateFromTime`.  The closed formulas are proved
  equal to months laid end to end.
- **Availability** (`Availability.dfy`).  Slots, bookings, and the nested loops that subtract one from the other.
- **Booking engine with escrow** (`Wallets.dfy`, `Bookings.dfy`, `BookingSafety.dfy`, `BookingOutcomes.dfy`,
  `BookingTheorems.dfy`, `BookingServices.dfy`).  `Bookings.Step` is one handler call, one delivered job, one wallet
  call, one edit of a listing or a tick of the clock; `Run` is any sequence of them.  `BookingOutcomes` writes every
  call and delivery out: who may make it and when, each refusal, and all that a success changes.
  `BookingSafety.Inv` is what every step keeps; `BookingTheorems` draws the conclusions.  The classes in
  `BookingServices` have the fields and the control flow of the services, and each method is proved to do to its
  fields what the step function says.
- **Cache keys and patterns** (`Redis.dfy`, `CacheKeys.dfy`, `ListingSearch.dfy`).  Key strings, Redis glob matching,
  and the proof that the patterns hit what they mean and nothing else; the notion of a coherent cache; which listing
  searches are cached, and that their key says enough.
- **Reviews** (`Reviews.dfy`, `ReviewTheorems.dfy`, `ReviewServices.dfy`), **users** (`Users.dfy`,
  `UserTheorems.dfy`, `UserServices.dfy`) and **subscription plans** (`Plans.dfy`): the caches that must equal the
  query they speed up.  Review runs contain the whole booking engine, since reviews hang on completed bookings.
- **Presence** (`Presence.dfy`, `PresenceGateway.dfy`): sockets, the five-second offline timer, broadcasts.
- **Chat** (`Chat.dfy`, `ChatTheorems.dfy`, `ChatPreviews.dfy`, `ChatServices.dfy`): messages, unread counts, and
  the previews pushed to the two participants.
- **Range arrays** (`RangeArray.dfy`): the text form of availability periods, printer against parser.

Each stateful part has the same three layers: pure step functions, invariants and theorems about all runs of them,
and classes whose methods are proved against the step functions.  Money is a whole number of kopecks, instants are
milliseconds, and `now` is part of the state and never decreases.  `dafny verify dfyconfig.toml` checks everything.

## What the proofs found

- `updatePeriod` saves the new price before it charges the difference and does not undo this when the payment is
  refused.  Money is therefore conserved exactly in the runs whose surcharges are covered
  (`BookingTheorems.EscrowConservation`, with the counterexample `UnpaidSurchargeIsSaved`, in which a renter who
  deposited 100 ends up with 200).
- A pending booking can be confirmed, cancelled or rejected exactly until its period begins; after that, unless its
  renter moves it to a later period, its money stays held (`BookingTheorems.PendingIsAnswerableIff`, with the
  concrete run `StalePendingIsReachable`).
- `findById` does not select `telegramUsername`, although its comment says it reads every field but two, so the
  property is missing from the result; saving the record does not lose the column
  (`UserTheorems.TelegramUsernameIsLost`, with the concrete run `LostTelegramUsernameIsReachable`, and
  `UpdateWritesOnlyThePatch`).
- `update` takes any part of a user but deletes only the profile entry; a patch that changed the online columns
  would leave the status entry outdated.  No caller does (`UserTheorems.UpdateKeepsCacheIff`, with the concrete run
  `OutdatedStatusIsReachable`).
- Reading some messages but not the last one pushes no preview, so the reader's own devices keep an unread count
  that is too high; it is never too low (`ChatPreviews.PreviewsStayExactIff`, with the concrete run
  `SilentReadIsReachable`, and `PreviewsAreSafe`).
- The getter of a listing's periods removes the quotes the database puts around timestamps, the getter of a
  booking's period does not, and hands them on to the date parser (`RangeArray.QuotesStayInPeriods`).

## Model

| member | source | states |
|---|---|---|
| `Calendar.ClosedForm` | src/bookings/bookings.service.ts:274-293 | the leap-year formula ECMA-262 section 21.4.1 gives for the first day of a month equals laying the months end to end, for every year and month |
| `Calendar.MakeDayIs` | src/bookings/bookings.service.ts:286-289 | an overflowing month and day count on from the first day of the month that is meant |
| `Calendar.DayRoundTrip` | src/bookings/bookings.service.ts:286-289 | day number to year, month and date and back is the identity |
| `Calendar.CivilRoundTrip` | src/bookings/bookings.service.ts:286-289 | every date of the calendar survives the way to its day number and back |
| `Calendar.JsDate.AdvanceHours` | src/bookings/bookings.service.ts:278-279 | in-place `setHours(getHours() + n)` on the local clock moves the instant by exactly n hours |
| `Calendar.JsDate.AdvanceDate` | src/bookings/bookings.service.ts:280-285 | in-place `setDate(getDate() + n)` on the local clock, across month ends, moves the instant by exactly n days |
| `Calendar.JsDate.AdvanceMonth` | src/bookings/bookings.service.ts:286-288 | in-place `setMonth(getMonth() + n)` on the local clock, forward or back, moves the instant by the distance between the first days of the two months, so for n >= 0 by the lengths of the n months |
| `Calendar.CalculateEndDate` | src/bookings/bookings.service.ts:274-293 | a copy of the start date is moved by hours, days, weeks or calendar months; the start date object is not changed |
| `Calendar.EndIsMoved` | src/bookings/bookings.service.ts:274-293 | the end by the ECMA-262 setters, through year, month and date, is the start plus the plain displacement, for every tariff and any count |
| `Calendar.EndIsStartPlusDuration` | src/bookings/bookings.service.ts:274-293 | hours, days and weeks add fixed lengths; n months add exactly the lengths of the n calendar months starting at the start's month |
| `Calendar.FixedLengths` | src/bookings/bookings.service.ts:277-285 | in milliseconds: an hour adds 3600000 for each of the count, a day 86400000, a week 604800000 |
| `Calendar.MonthRental` | src/bookings/bookings.service.ts:286-288 | n months last between 28n and 31n days and one month more is at least 28 days longer |
| `Calendar.TimeOfDayKept` | src/bookings/bookings.service.ts:280-288 | rentals by day, week or month end at the time of day they started |
| `Calendar.MonthOverflow` | src/bookings/bookings.service.ts:286-288 | the day of the month is kept if and only if the target month is long enough for it; otherwise the end spills into the following month |
| `Calendar.EndAfterStart` | src/bookings/bookings.service.ts:236-238 | for a count of at least one the end is after the start |
| `Availability.ClipSlots` | src/bookings/bookings.service.ts:169-176 | the reduce over the slots is the clipping to the start of today |
| `Availability.CutPeriods` | src/bookings/bookings.service.ts:198-214 | the inner loop is the cut of one booking out of the free periods |
| `Availability.SubtractBookings` | src/bookings/bookings.service.ts:165-219 | the nested loops compute the specified free periods, early return included |
| `Availability.FreePeriodsAreExact` | src/bookings/bookings.service.ts:165-219 | an instant is free if and only if it is in a slot, not before the start of today and in no blocking booking |
| `Availability.FreePeriodsNonEmpty` | src/bookings/bookings.service.ts:189-218 | every returned period is non-empty |
| `Availability.OfferedEqualsBookable` | src/bookings/bookings.service.ts:162-272 | a period from today on lies inside one returned period if and only if it lies in one slot and overlaps no blocking booking |
| `Availability.FreePeriodsAreConfluent` | src/bookings/bookings.service.ts:189-218 | every order of the unordered booking rows gives the identical list |
| `Availability.FreeTimeAccounting` | src/bookings/bookings.service.ts:189-218 | when live bookings are apart from each other, free time is the slot time from today on less what each booking takes out of it |
| `Availability.NewBookingTakesItsLength` | src/bookings/bookings.service.ts:189-218 | a booking placed in the free time lowers it by exactly its length |
| `Availability.PieceCount` | src/bookings/bookings.service.ts:189-218 | disjoint slots give disjoint pieces, at most as many as slots and bookings together |
| `Wallets.WalletsService.GetLockedWallet` | src/wallets/wallets.service.ts:154-166 | a missing wallet is created empty, an existing one is read |
| `Wallets.WalletsService.Deposit` | src/wallets/wallets.service.ts:50-66 | the balance rises by the amount, every other wallet is as it was, and one deposit row is added |
| `Wallets.WalletsService.Withdraw` | src/wallets/wallets.service.ts:68-88 | goes through if and only if the balance is at least the amount, and then lowers it by the amount, with one withdrawal row and every other wallet as it was; otherwise everything is rolled back, the created wallet row included |
| `Wallets.WalletsService.ProcessBookingPayment` | src/wallets/wallets.service.ts:90-112 | the same for a booking payment: covered or rolled back, lowered by exactly the amount, with its booking id |
| `Wallets.WalletsService.ProcessBookingPayout` | src/wallets/wallets.service.ts:114-132 | the balance rises by the amount and one payout row with its booking id is added |
| `Wallets.WalletsService.ProcessRefund` | src/wallets/wallets.service.ts:134-152 | the balance rises by the amount and one refund row with its booking id is added |
| `Wallets.MovementsAreExact` | src/wallets/wallets.service.ts:50-152 | all five kinds: withdrawals and payments go through if and only if covered and lower one wallet by their amount, deposits, payouts and refunds always go through and raise it; no other wallet moves |
| `Wallets.TryKeepsBooks` | src/wallets/wallets.service.ts:50-152 | every movement keeps balances non-negative and equal to the ledger's deposits, payouts and refunds less its withdrawals and payments |
| `Wallets.PostMovesTotal` | src/wallets/wallets.service.ts:50-152 | a posted row changes the sum of all balances by its signed amount |
| `BookingServices.BookingsService.ValidateDates` | src/bookings/bookings.service.ts:225-272 | the four checks in order, with their errors |
| `BookingServices.BookingsService.FindById` | src/bookings/bookings.service.ts:68-80 | the row, or an error when there is none |
| `BookingServices.BookingsService.Create` | src/bookings/bookings.service.ts:82-115 | the booking row that is saved, or the first failing check with nothing saved |
| `BookingServices.BookingsService.UpdatePeriod` | src/bookings/bookings.service.ts:117-140 | the changed row, or the first failing check with nothing saved, a missing booking included; a kept tariff keeps its old price |
| `BookingServices.BookingsService.UpdateStatus` | src/bookings/bookings.service.ts:142-146 | only the status of one row changes; a missing booking is an error |
| `BookingServices.BookingsService.FindBlocking` | src/bookings/bookings.service.ts:180-189 | the rows of the query in some order, each once |
| `BookingServices.BookingsService.GetListingAvailability` | src/bookings/bookings.service.ts:162-219 | the free periods, the same for every order of the rows |
| `BookingTheorems.PeriodsPermute` | src/bookings/bookings.service.ts:189-190 | two orders of the rows have the same multiset of periods |
| `BookingServices.BookingsListener.HandleBookingConfirmed` | src/bookings/bookings.listener.ts:61-87 | the start job is queued with the delay to the start, not below zero |
| `BookingServices.BookingsListener.HandleBookingTurnedDown` | src/bookings/bookings.listener.ts:89-99 | the start job is removed |
| `BookingServices.Platform.CreateBooking` | src/bookings/bookings.handler.ts:50-65 | create, pay, and delete the booking again when the payment is refused: refines the `Create` step |
| `BookingServices.Platform.ChangePeriod` | src/bookings/bookings.handler.ts:67-85 | the period is saved before the difference is charged or refunded: refines the `UpdatePeriod` step |
| `BookingServices.Platform.Cancel` | src/bookings/bookings.handler.ts:87-98 | succeeds if and only if the booking exists, the caller is its renter, it is pending and it has not begun; a refusal changes nothing; refines the cancelling step |
| `BookingServices.Platform.Reject` | src/bookings/bookings.handler.ts:111-122 | the same for the landlord of its listing: refines the rejecting step |
| `BookingServices.Platform.ConfirmBooking` | src/bookings/bookings.handler.ts:100-109 | succeeds if and only if the booking exists, the caller is the landlord of its listing, it is pending and it has not begun; a refusal changes nothing; refines the confirming step, start job included |
| `BookingServices.Platform.RunStartJob` | src/bookings/processors/booking-start.processor.ts:19-47 | a delivery activates a confirmed booking and queues its completion; any other status is skipped; a missing booking throws |
| `BookingServices.Platform.RunCompletionJob` | src/bookings/processors/booking-completion.processor.ts:23-88 | a delivery completes an active booking whose period is over and pays the landlord; otherwise it is skipped |
| `BookingSafety.StepFollowsGraph` | src/bookings/bookings.handler.ts:50-122 | no step leaves the status graph, parties never change, and period and price are frozen after PENDING |
| `BookingSafety.StepLocality` | src/bookings/bookings.handler.ts:50-122 | a step writes at most one booking row and never removes one |
| `BookingSafety.StepKeepsDisjoint` | src/bookings/bookings.service.ts:82-146 | every step keeps the live bookings of a listing pairwise disjoint |
| `BookingSafety.StepKeepsJobs` | src/bookings/bookings.listener.ts:77-99 | every step keeps each confirmed booking with its start job and each active one with its completion job, due no earlier than the period end |
| `BookingSafety.StepKeepsPayouts` | src/bookings/processors/booking-completion.processor.ts:23-88 | every step keeps one payout row per completed booking and none for any other |
| `BookingSafety.StepKeepsParties` | src/bookings/bookings.handler.ts:50-122 | payments and refunds move the renter's wallet, payouts the landlord's |
| `BookingSafety.StepKeepsPriced` | src/bookings/bookings.service.ts:100-140 | every booking costs its tariff times its count and lasts what the count says |
| `BookingSafety.StepKeepsInv` | src/bookings/bookings.handler.ts:50-122 | every step of handlers, jobs, wallets, listings and clock keeps the whole invariant |
| `BookingSafety.RunKeepsInv` | src/bookings/bookings.handler.ts:50-122 | so does every run |
| `BookingOutcomes.TurnDownIsExact` | src/bookings/bookings.handler.ts:87-122 | cancelling and rejecting, written out: the renter's own, or the landlord's, pending booking until it begins; each refusal with its error and without effect; else one status changes, the renter has exactly the price back with one refund row, and the start job is gone |
| `BookingOutcomes.ConfirmIsExact` | src/bookings/bookings.handler.ts:100-109 | confirming, written out: the landlord's pending booking until it begins; each refusal with its error and without effect; else one status changes, the start job waits for the start of the period, and no money moves |
| `BookingOutcomes.StatusChangesExactly` | src/bookings/bookings.handler.ts:50-122 | for every event and every booking: the status afterwards is the one before unless the event is the one call by the one party, or the one due delivery, that changes it at that stage |
| `BookingOutcomes.StartIsExact` | src/bookings/processors/booking-start.processor.ts:19-47 | a due start job makes a confirmed booking active and has its completion wait for its end, or for now if that has passed |
| `BookingOutcomes.CompletionIsExact` | src/bookings/processors/booking-completion.processor.ts:23-88 | a due completion job completes an active booking that has ended and pays its landlord exactly the price; otherwise it changes neither bookings nor wallets |
| `BookingOutcomes.ValidationIsExact` | src/bookings/bookings.service.ts:225-272 | instant by instant: dates pass if and only if they are not past and not empty, one slot has every instant of the period, and no pending, confirmed or active booking of the listing but the excluded one shares an instant with it; a refusal names the first that fails |
| `BookingOutcomes.WholeMinuteIsExact` | src/bookings/bookings.service.ts:89-91 | a start is a whole minute if and only if the local clock shows neither seconds nor milliseconds |
| `BookingOutcomes.CreateIsExact` | src/bookings/bookings.handler.ts:50-65 | the whole of `create`: who may book, which dates a listing takes, the tariff and the money, if and only if; the whole new row, with the listing's price times the count, which leaves the renter's wallet |
| `BookingOutcomes.CreateRefusalsAreExact` | src/bookings/bookings.handler.ts:50-65 | a refused `create` names the first reason there is, each error if and only if its condition is the first to fail |
| `BookingOutcomes.UpdateIsExact` | src/bookings/bookings.handler.ts:67-85 | the whole of `updatePeriod`: what is saved, if and only if; a kept tariff keeps its price; the surcharge is paid or the call fails with the change saved; the difference is refunded otherwise |
| `BookingOutcomes.UpdateRefusalsAreExact` | src/bookings/bookings.handler.ts:67-85 | the same for a refused `updatePeriod`, the tariff before the dates |
| `BookingTheorems.EscrowConservation` | src/bookings/bookings.handler.ts:50-122 | after every run wallets plus live prices equal the amounts of all deposit calls, less those of the withdrawal calls the wallet covered, plus the unpaid surcharges; equality without them holds if and only if every surcharge was covered; the ledger says the same |
| `BookingTheorems.UnpaidIffNotCovered` | src/bookings/bookings.handler.ts:67-85 | a period change leaves money unpaid if and only if the wallet does not cover its surcharge, which can be checked beforehand |
| `BookingTheorems.UnpaidSurchargeIsSaved` | src/bookings/bookings.handler.ts:67-85 | a concrete run in which a refused surcharge stays in the saved price, and cancelling then pays back twice what was ever deposited |
| `BookingTheorems.SettledOnce` | src/bookings/processors/booking-completion.processor.ts:23-88 | after every run, with any redeliveries: one payout for a completed booking and none for any other, and with its surcharges covered payments less refunds less payouts are its price while live and zero once terminal |
| `BookingTheorems.WalletsAreSound` | src/wallets/wallets.service.ts:68-112 | after every run no wallet is negative and each agrees with the ledger |
| `BookingTheorems.NoDoubleBooking` | src/bookings/bookings.service.ts:225-272 | after every run no instant belongs to two live bookings of one listing |
| `BookingTheorems.OfferedIsAccepted` | src/bookings/bookings.service.ts:162-272 | validation accepts a period if and only if the availability query offers it, with the same booking excluded and the rows in any order |
| `BookingTheorems.OfferedTimeAfterEveryRun` | src/bookings/bookings.service.ts:162-219 | after every run the offered time is the slot time from today on less what each blocking booking takes out, whichever booking is left out and in whatever order the rows come |
| `BookingTheorems.GrantedBookingTakesItsLength` | src/bookings/bookings.handler.ts:50-65 | on a listing with disjoint slots a granted request lowers the offered time by exactly the length asked for, in whatever order the rows come before and after |
| `BookingTheorems.CreateIffOffered` | src/bookings/bookings.handler.ts:50-65 | the whole of `create`: granted if and only if the request is offered, priced and covered; refused without a trace but the serial id |
| `BookingTheorems.UpdateIffOffered` | src/bookings/bookings.handler.ts:67-85 | the whole of `updatePeriod`: granted if and only if the new period is offered with the booking itself left out, its tariff is kept or on offer, and the surcharge is covered; the wallet then moves by the price difference |
| `BookingTheorems.CancelUndoesCreate` | src/bookings/bookings.handler.ts:87-98 | cancelling a fresh booking restores every balance and the blocking set |
| `BookingTheorems.EndBeforeStartUnreachable` | src/bookings/bookings.service.ts:236-238 | the branch "End date must be after start date" is never taken |
| `BookingTheorems.CompletionIsNeverEarly` | src/bookings/processors/booking-completion.processor.ts:36-42 | the skip for an end date in the future never fires |
| `BookingTheorems.ConfirmedIsSettled` | src/bookings/processors/booking-start.processor.ts:19-47 | a confirmed booking whose period is over is completed and paid by its two deliveries |
| `BookingTheorems.QuiescentIsSettled` | src/bookings/bookings.listener.ts:77-87 | without a due job waiting, no confirmed booking has begun and no active one has ended |
| `BookingTheorems.DueJobsSettleEverything` | src/bookings/processors/booking-start.processor.ts:19-47 | from every reachable state a run of due deliveries ends with each confirmed or active booking whose time has passed completed and paid |
| `BookingTheorems.QuiescenceSettlesEverything` | src/bookings/processors/booking-start.processor.ts:19-47 | after any events in any order, once no due job is waiting each confirmed or active booking whose time had passed is completed and paid |
| `BookingTheorems.DeliveryReducesWork` | src/bookings/processors/booking-start.processor.ts:19-47 | every first delivery of a due job, in whatever order, leaves less to do, so running due jobs terminates |
| `BookingTheorems.StalePendingIsStuck` | src/bookings/bookings.handler.ts:87-122 | a booking still pending after its start can never be answered again: through every run in which its renter does not move it, its row stays as it is and its price stays held |
| `BookingTheorems.PendingIsAnswerableIff` | src/bookings/bookings.handler.ts:87-122 | a pending booking whose renter leaves its period alone can leave PENDING, and can be confirmed, cancelled and rejected, if and only if its period has not begun |
| `BookingTheorems.StalePendingIsReachable` | src/bookings/bookings.handler.ts:87-122 | a concrete run to a paid booking that nobody can answer any more and whose money stays held |
| `Redis.RedisService.GetOrSet` | src/common/redis/redis.service.ts:19-39 | a hit changes nothing, a miss stores what was found, and nothing found is never stored |
| `Redis.RedisService.Delete` | src/common/redis/redis.service.ts:65-68 | exactly one key goes |
| `Redis.RedisService.DeleteByPattern` | src/common/redis/redis.service.ts:74-87 | the scan removes exactly the keys the pattern with `*` in front matches, in whatever order they come |
| `Redis.MatchOccurs` | src/common/redis/redis.service.ts:75-79 | `*text*` matches exactly the strings in which the text occurs |
| `Redis.OccursInJoin` | src/common/redis/redis.service.ts:74-87 | a text that ends in a separator occurs in a joined key only along its fields |
| `CacheKeys.RenderInjective` | src/listings/listings.service.ts:37-47 | two keys of the twelve families have one string if and only if they are the same key up to the order of a type list |
| `CacheKeys.TypeKeySound` | src/listings/listings.service.ts:41-44 | two type filters share a key if and only if one is a permutation of the other |
| `ListingSearch.KeyDeterminesAnswer` | src/listings/listings.service.ts:358-384 | searches that pass the caching conditions and share a key string have the same answer in every database, so no page is served to a search it was not computed for |
| `ListingSearch.SameSelection` | src/listings/listings.service.ts:261-296 | a search by type depends on which types are listed, not on their order |
| `ListingSearch.CachedSearchIsExact` | src/listings/listings.service.ts:261-296 | a cached search answers exactly the active listings with a tariff, of the one owner or of the types asked for, page by page |
| `ListingSearch.FiltersAreExact` | src/listings/listings.service.ts:261-296 | price bounds are inclusive for the tariff asked for, and an empty type list, amenity list or title filters nothing |
| `CacheKeys.PatternIsExact` | src/reviews/reviews.service.ts:44-52 | each of the four patterns hits, under any neutral key prefix, every page of its own listing, user or plan list and no key of another id or family |
| `CacheKeys.FillKeepsCoherent` | src/common/redis/redis.service.ts:19-39 | storing an answer after a miss keeps a coherent cache coherent |
| `CacheKeys.ClearKeepsCoherent` | src/common/redis/redis.service.ts:74-87 | clearing by pattern keeps a cache coherent when only the aimed-at answers change |
| `ReviewServices.ReviewsService.FindByListingWithCache` | src/reviews/reviews.service.ts:54-65 | refines the read of a listing page; an absent listing throws and is not cached |
| `ReviewServices.ReviewsService.FindByUserWithCache` | src/reviews/reviews.service.ts:67-79 | refines the read of a user page; which reviews that is in each role, `ReviewTheorems.PagesAreExact` says |
| `ReviewServices.ReviewsService.UpdateRatingForUser` | src/reviews/reviews.service.ts:227-260 | the summing loop writes what the specification writes; `ReviewTheorems.UpdatedRatingsAreExact` says what that is |
| `ReviewServices.ReviewsService.Validate` | src/reviews/reviews.service.ts:166-180 | participation, completion and existing review, in this order |
| `ReviewServices.ReviewsService.Create` | src/reviews/reviews.service.ts:165-221 | refines the posting step: row, ratings, and the selective invalidation |
| `ReviewTheorems.ReviewShowsOnlyWhereCleared` | src/reviews/reviews.service.ts:193-218 | because renter and landlord differ, a review shows on exactly the pages of its target, in the role reviewed and over all roles, and, only when its renter wrote it, of the listing |
| `ReviewTheorems.NextKeepsInv` | src/reviews/reviews.service.ts:165-221 | booking-engine steps, posts and reads all keep the review invariant |
| `ReviewTheorems.ReadsAreCurrent` | src/reviews/reviews.service.ts:44-114 | after every run a cached read returns what the uncached query returns |
| `ReviewTheorems.PagesAreExact` | src/reviews/reviews.service.ts:54-136 | after every run a cached read of a user's page shows, newest first, exactly the reviews by renters about that landlord, by landlords about that renter, or both, by the role asked for, and the number of them; a listing's page those its renters wrote |
| `ReviewTheorems.PostIsExact` | src/reviews/reviews.service.ts:165-180 | a review is taken if and only if a party of a completed booking posts it for the first time; it is added as posted; a refusal names the first condition that fails and changes nothing |
| `ReviewTheorems.PostedReviewIsShownFirst` | src/reviews/reviews.service.ts:165-221 | a posted review heads the target's first page in the role reviewed and over all roles at the next read, and raises the total by one; the pages of the other role and of everybody else read as before |
| `ReviewTheorems.RatingsAreMeans` | src/reviews/reviews.service.ts:227-260 | after every run each stored rating and count are the mean, between one and five, and the number of the reviews in that role |
| `ReviewTheorems.UpdatedRatingsAreExact` | src/reviews/reviews.service.ts:227-260 | what is written is the mean, star by star, and the number of the reviews in the one role of the one user; nothing without reviews, and no other user's rating |
| `ReviewTheorems.PostMovesMean` | src/reviews/reviews.service.ts:227-260 | an accepted review moves one mean of one user: new mean times new number is old mean times old number plus the stars given; every other rating stays |
| `ReviewTheorems.OneReviewPerParty` | src/reviews/reviews.service.ts:166-180 | after every run no reviewer has two reviews for a booking and all come from parties of completed bookings |
| `UserServices.UsersService.FindById` | src/users/services/users.service.ts:27-90 | refines the two-part read |
| `UserServices.UsersService.ValidateUnique` | src/users/services/users.service.ts:140-163 | the four uniqueness checks with their truthiness guards |
| `UserServices.UsersService.Update` | src/users/services/users.service.ts:139-169 | refines check, load, delete entry, assign, save; with a coherent cache each profile column of the row then has the value of the patch, or the one it had |
| `UserServices.UsersService.UpdateOnlineStatus` | src/users/services/users.service.ts:171-180 | writes the status columns of an existing row and deletes the status entry |
| `UserServices.UsersService.UpdateVerifiedStatus` | src/users/services/users.service.ts:182-186 | writes one flag and deletes the profile entry; an absent user is refused |
| `UserServices.UsersService.UpdateBanStatus` | src/users/services/users.service.ts:188-192 | the same for the ban flag |
| `UserServices.UsersService.AddRole` | src/users/services/users.service.ts:217-228 | refines the role grant |
| `UserServices.UsersService.RemoveRole` | src/users/services/users.service.ts:230-236 | refines the role removal |
| `UserTheorems.FindByIdIsDirectRead` | src/users/services/users.service.ts:27-90 | with a coherent cache `findById` is a direct read of the row but for one column, and fails exactly for absent users |
| `UserTheorems.TelegramUsernameIsLost` | src/users/services/users.service.ts:34-56 | the column left out is right if and only if the user has no telegram name |
| `UserTheorems.LostTelegramUsernameIsReachable` | src/users/services/users.service.ts:34-56 | a concrete run after which the row has a telegram name and `findById` does not |
| `UserTheorems.UpdateWritesOnlyThePatch` | src/users/services/users.service.ts:139-169 | saving the whole cached record equals writing the patched columns, and succeeds exactly when nothing is taken, the user exists and the unique columns stay unique |
| `UserTheorems.UpdateWritesEachColumn` | src/users/services/users.service.ts:165-168 | column by column: phone, address, telegram id, chat and name, the two flags, each detail and the two status columns have the patch's value when it has one and their old value otherwise; no other row changes |
| `UserTheorems.UpdateSucceedsExactly` | src/users/services/users.service.ts:139-163 | `update` succeeds if and only if the user exists, the number and address of the patch are free, and its telegram numbers, unless zero, belong to nobody |
| `UserTheorems.UpdateRefusalsAreExact` | src/users/services/users.service.ts:139-163 | a refused `update` names the first reason there is: number, address, telegram id or chat that somebody has, an absent user, and last the unique columns |
| `UserTheorems.UpdateKeepsOnlineStatus` | src/users/services/users.service.ts:165-180 | a later record save never undoes an online-status write |
| `UserTheorems.UpdateKeepsCacheIff` | src/users/services/users.service.ts:165-168 | `update` keeps the cache right if and only if it is refused, which its guards tell beforehand, or its patch leaves the status columns as they are |
| `UserTheorems.OutdatedStatusIsReachable` | src/users/services/users.service.ts:165-168 | a concrete run in which a patch of the online column leaves `findById` with the old one |
| `UserTheorems.WritesAreReadBack` | src/users/services/users.service.ts:171-192 | the next `findById` sees every status, verification and ban write, and other users are as before |
| `UserTheorems.UpdateIsReadBack` | src/users/services/users.service.ts:139-169 | the next `findById` gives what a successful `update` returned, but for a telegram name: each profile column follows the patch and the status is as before |
| `UserTheorems.CreateIsReadBack` | src/users/services/users.service.ts:118-137 | a user is created if and only if nobody has the number or the address; the row is new, unverified, not banned and offline since now, and so `findById` says |
| `UserTheorems.AbsentUsersStayAbsent` | src/users/services/users.service.ts:139-228 | no call about an absent user writes a row or a role: an online status is dropped, the others refuse |
| `UserTheorems.RolesAreExact` | src/users/services/users.service.ts:198-236 | a role is granted if and only if the table lacks it and the user exists; a removal takes that one role from that one user and no other row; a user's role list holds exactly the rows of that user |
| `UserTheorems.NextKeepsInv` | src/users/services/users.service.ts:27-236 | every call, `update` without the status columns included, keeps cache coherence and account uniqueness |
| `UserTheorems.UsersAreCurrent` | src/users/services/users.service.ts:27-192 | after every run whose updates leave the status columns alone, `findById` is a direct read but for one column, absent users are not cached, and logins, non-zero telegram ids and non-zero telegram chats are unique |
| `PlanServices.SubscriptionPlansService.FindAllWithCache` | src/subscriptions/services/subscription-plans.service.ts:42-56 | active pages go through the cache, others never |
| `PlanServices.SubscriptionPlansService.Create` | src/subscriptions/services/subscription-plans.service.ts:96-106 | refines creation and the clearing of the list pages |
| `PlanServices.SubscriptionPlansService.Update` | src/subscriptions/services/subscription-plans.service.ts:108-119 | refines load from cache, save, and the two invalidations |
| `Plans.UpdateWritesOnlyThePatch` | src/subscriptions/services/subscription-plans.service.ts:108-119 | saving the cached plan writes name, activity and each detail of the patch and keeps the other columns, and it is refused if and only if there is no such plan or another has the new name |
| `Plans.CreateIsReadBack` | src/subscriptions/services/subscription-plans.service.ts:96-106 | a plan is created, active, if and only if its name is new; the next reads see it in its detail and first in the list of active plans |
| `Plans.UpdateIsReadBack` | src/subscriptions/services/subscription-plans.service.ts:108-119 | the next detail read gives what a successful update returned |
| `Plans.PlansAreCurrent` | src/subscriptions/services/subscription-plans.service.ts:33-119 | after every run a detail read returns the row of the plan, a list read the active plans, newest first and with their number, and plan names are unique |
| `PresenceGateway.MainWebSocketGateway.HandleConnection` | src/websocket/websocket.gateway.ts:82-105 | refines the connection step: the pending timer is cleared, the first socket of an offline user announces |
| `PresenceGateway.MainWebSocketGateway.HandleDisconnect` | src/websocket/websocket.gateway.ts:108-124 | refines the disconnection step: the last socket starts the five-second timer |
| `PresenceGateway.MainWebSocketGateway.GoOffline` | src/websocket/websocket.gateway.ts:116-120 | refines the timer callback |
| `Presence.NextKeepsInv` | src/websocket/websocket.gateway.ts:82-124 | every connect, disconnect, timer and clock step keeps the presence invariant |
| `Presence.PresenceIsExact` | src/websocket/websocket.gateway.ts:82-124 | after every run a user is online if and only if they have a socket or a pending timer, never both; one timer at most; broadcasts strictly alternate |
| `Presence.ConnectIsExact` | src/websocket/websocket.gateway.ts:82-105 | a new socket makes its user online, which is broadcast if and only if the user was offline, and ends a pending timer |
| `Presence.DisconnectIsExact` | src/websocket/websocket.gateway.ts:108-124 | a closed socket broadcasts nothing; the last one starts a timer for 5000 milliseconds later, and no other does |
| `Presence.FireIsExact` | src/websocket/websocket.gateway.ts:116-120 | a timer does nothing before it is due, and then takes its user offline with one broadcast |
| `Presence.QuickReconnectIsSilent` | src/websocket/websocket.gateway.ts:86-104 | losing the last socket and returning in less than 5000 milliseconds is never broadcast, whatever others do meanwhile |
| `Presence.AbsenceIsAnnounced` | src/websocket/websocket.gateway.ts:115-122 | a timer that fires announces offline once |
| `ChatServices.ChatService.MarkMessagesAsRead` | src/chat/chat.service.ts:321-344 | refines the conditional update; a count that differs refuses without a change |
| `ChatServices.ChatService.DeleteMessages` | src/chat/chat.service.ts:368-382 | the rows go and the conversation gets the time of its last message |
| `ChatServices.ChatGateway.NotifyConversationPreviewUpdate` | src/websocket/websocket.gateway.ts:336-346 | pushes the last message and the unread count as they are |
| `ChatServices.ChatGateway.HandleSendMessage` | src/websocket/websocket.gateway.ts:160-179 | refines the sending step |
| `ChatServices.ChatGateway.HandleReadMessages` | src/websocket/websocket.gateway.ts:182-214 | refines the reading step with its conditional push |
| `ChatServices.ChatGateway.HandleEditMessage` | src/websocket/websocket.gateway.ts:217-248 | refines the editing step |
| `ChatServices.ChatGateway.HandleDeleteMessages` | src/websocket/websocket.gateway.ts:251-284 | refines the deleting step with its conditional push |
| `ChatTheorems.OwnershipByCounting` | src/chat/chat.service.ts:391-407 | equal counts hold if and only if the ids are distinct and each names a message of this user in this conversation |
| `ChatTheorems.ReadSucceedsExactly` | src/chat/chat.service.ts:326-338 | chosen ids are accepted if and only if they are distinct and each names an unread message of the other side |
| `ChatTheorems.ReadIsExact` | src/websocket/websocket.gateway.ts:182-191 | row by row: a participant's read marks the unread messages of the other side, or the chosen ones of them, and nothing else; strangers and ill-chosen ids are refused without effect |
| `ChatTheorems.ReadCounts` | src/chat/chat.service.ts:321-344 | reading lowers the reader's count by the number of messages marked and no other count |
| `ChatTheorems.SendIsExact` | src/websocket/websocket.gateway.ts:160-179 | a send is accepted if and only if the sender takes part; the message is appended, the conversation stamped, both participants and nobody else are shown the conversation as it is, and a refusal changes nothing |
| `ChatTheorems.PreviewIsExact` | src/websocket/websocket.gateway.ts:336-346 | a preview has the number of the conversation's unread messages from somebody else, and a message of it that no other is later than |
| `ChatTheorems.SentIsLastAndUnread` | src/chat/chat.service.ts:294-313 | a sent message becomes the last one and raises the recipient's unread count by one, the sender's not |
| `ChatTheorems.EditIsExact` | src/websocket/websocket.gateway.ts:217-248 | accepted if and only if a participant edits an own message of the conversation; one text changes and no other row |
| `ChatTheorems.DeleteIsExact` | src/websocket/websocket.gateway.ts:251-266 | accepted if and only if the ids are distinct own messages; exactly those rows go |
| `ChatTheorems.DeletePushesExactly` | src/websocket/websocket.gateway.ts:259-272 | a delete pushes if and only if one of the two previews has changed; a silent delete leaves last message and both unread counts as they were |
| `ChatTheorems.DeleteStaysHere` | src/chat/chat.service.ts:368-382 | a delete changes no other conversation |
| `ChatPreviews.PreviewsStayExactIff` | src/websocket/websocket.gateway.ts:160-284 | shown previews stay exact after an event if and only if it is not a read that marks messages but not the last one |
| `ChatPreviews.SilentReadIsReachable` | src/websocket/websocket.gateway.ts:192-201 | a concrete run after which a reader is shown one unread message where there is none |
| `ChatPreviews.WithoutReadsAllExact` | src/websocket/websocket.gateway.ts:160-284 | runs without reads keep every shown preview exact |
| `ChatPreviews.PreviewsAreSafe` | src/websocket/websocket.gateway.ts:160-346 | after every run participants see the right last message and at least their unread ones, and `lastMessageAt` is the time of the last message |
| `RangeArray.RoundTrip` | src/entities/listing.entity.ts:119-146 | for timestamps without brackets, parentheses, commas, quotes, braces and backslashes the database's array text, however quoted, parses to the same list if and only if each is non-empty, on one line and trimmed |
| `RangeArray.AssignedRoundTrip` | src/listings/listings.service.ts:352-354 | the strings the service prints parse back if and only if the timestamps are non-empty and trimmed |
| `RangeArray.ParsedArray` | src/entities/listing.entity.ts:119-131 | what the array parser finds: the periods on one line, in order, without quotes |
| `RangeArray.ParsedBounds` | src/entities/listing.entity.ts:133-146 | two comma-free bounds are taken apart and trimmed; an empty bound is an error |
| `RangeArray.ParseSucceedsExactly` | src/entities/listing.entity.ts:133-146 | any text reads as a period if and only if, trimmed, it is two non-empty comma-free bounds in `[`, `,`, `)` |
| `RangeArray.TrimIsExact` | src/entities/listing.entity.ts:119-146 | trimming takes spaces off both ends and leaves none there |
| `RangeArray.QuotesStayInPeriods` | src/entities/booking.entity.ts:46-59 | the single-period getter leaves the database's quotes around its bounds |

## Left out

- Interleavings inside one handler: each handler call, job delivery and timer callback is one step.  A process that
  dies between the status change and the payout of a completion job, whose retry then skips, is not modelled.
- Attempts: a job may be delivered any number of times once it is due, and one that keeps throwing stays waiting;
  that the queue gives up after three attempts is not modelled.
- Rounding: prices are whole kopecks and ratings are real numbers, so DECIMAL rounding, floating point and column
  overflow are not modelled.
- Daylight saving: the local clock has a fixed offset; and dates beyond the range of ECMA-262 `TimeClip` are not cut off.
- Cache expiry: entries live until they are deleted.  A key never holds two types of value, so each service has a
  store of its own; that other users of the same Redis, such as the job queue, may have keys a pattern hits is not modelled.
- Glob classes in brackets: no pattern of the application has one.
- The listing detail cache: every write of a listing deletes its entry, and the model reads the table.
- Freshness of the type-list and per-user listing pages: the keys are proved sound and the pattern exact, but those pages may
  outlive an edit or a view.
- Users are never deleted, and neither are plans, reviews, or listings.
- Users.Update: `updatedAt` is not modelled, because the cached profile may carry an older one and saving writes it back.
- Ties in `ORDER BY`: rows come in the order of their creation; of messages with one timestamp the later row is the last.
- Deletion of conversations, soft or permanent with their messages, and their restoration; the notification sent to a recipient outside the conversation; and `sentAt` as the
  database stamps it rather than the service clock.
- The `COMMISSION` transaction type, which no service writes, and the reporting queries of wallets and bookings.
- Dates as numbers in `RangeArray`: the texts between brackets are compared, and turning them into dates is the
  platform's.  JavaScript strings are sequences of characters here, not of 16-bit units.
- Controllers, validation decorators, mappers, notifications, Telegram, telephony, tokens, file storage and
  geocoding: thin shells or foreign libraries.  Their bounds are types here: a count of 1 to 100, a page size of
  at least 1 (only some endpoints have a maximum), a rating of 1 to 5, non-negative amounts.
- Fractional page sizes and offsets, which the validation of listing searches lets through: page numbers are whole.
- Distance on the globe and similarity of words in listing searches are arbitrary functions of the model, and the
  order by last update is that of its rows; SQL planning is left out.
- Who may exclude a booking from an availability query (`bookings.handler.ts`, lines 36-48), a plain guard.
