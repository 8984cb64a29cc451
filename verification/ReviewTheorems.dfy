/** Review pages read from the cache are always the pages the query would give, and the stored ratings are
    always the means of the reviews. */
module ReviewTheorems {
  import opened Prelude
  import opened Bookings
  import opened CacheKeys
  import opened Reviews

  // ---------------------------------------------------------------- the booking engine

  /** Nothing a query looks at changes when the booking engine moves. */
  lemma EngineKeepsReview(w: World, e: Event, r: Review)
    requires ForeignKeys(w) && BookingSafety.Ids(w) && FromParty(w, r)
    ensures FromParty(Step(w, e), r)
    ensures var w' := Step(w, e);
            && (forall u :: AsLandlord(w', r, u) == AsLandlord(w, r, u))
            && (forall u :: AsRenter(w', r, u) == AsRenter(w, r, u))
            && (forall id :: OnListing(w', r, id) == OnListing(w, r, id))
  {
    BookingSafety.StepFollowsGraph(w, e, r.bookingId);
  }

  lemma ListingsStay(w: World, e: Event, id: int)
    requires ForeignKeys(w) && id in w.listings
    ensures id in Step(w, e).listings
  {
  }

  lemma EngineKeepsAnswers(s: State, e: Event, k: Key)
    requires ForeignKeys(s.world) && BookingSafety.Ids(s.world) && FromParties(s)
    ensures Queried(s.world, s.reviews, k).Some? ==>
              Queried(Step(s.world, e), s.reviews, k) == Queried(s.world, s.reviews, k)
  {
    if k.ListingReviews? && k.id in s.world.listings {
      ListingsStay(s.world, e, k.id);
    }
    forall r | r in s.reviews ensures Where(Step(s.world, e), k)(r) == Where(s.world, k)(r) {
      EngineKeepsReview(s.world, e, r);
    }
    SelectedSame(s.reviews, Where(Step(s.world, e), k), Where(s.world, k));
  }

  lemma EngineKeepsRatings(s: State, e: Event, userId: int)
    requires ForeignKeys(s.world) && BookingSafety.Ids(s.world) && FromParties(s)
    ensures LandlordRows(Step(s.world, e), s.reviews, userId) == LandlordRows(s.world, s.reviews, userId)
    ensures RenterRows(Step(s.world, e), s.reviews, userId) == RenterRows(s.world, s.reviews, userId)
  {
    var w, w' := s.world, Step(s.world, e);
    forall r | r in s.reviews
      ensures AsLandlord(w', r, userId) == AsLandlord(w, r, userId) && AsRenter(w', r, userId) == AsRenter(w, r, userId)
    {
      EngineKeepsReview(w, e, r);
    }
    SelectedSame(s.reviews, (r: Review) => AsLandlord(w', r, userId), (r: Review) => AsLandlord(w, r, userId));
    SelectedSame(s.reviews, (r: Review) => AsRenter(w', r, userId), (r: Review) => AsRenter(w, r, userId));
  }

  lemma EngineKeepsInv(ns: Namespace, s: State, e: Event)
    requires Inv(ns, s)
    ensures Inv(ns, s.(world := Step(s.world, e)))
  {
    var s' := s.(world := Step(s.world, e));
    BookingSafety.StepKeepsInv(s.world, e);
    forall r | r in s.reviews ensures FromParty(s'.world, r) {
      EngineKeepsReview(s.world, e, r);
    }
    forall u ensures RatingsAgreeFor(s', u) {
      assert RatingsAgreeFor(s, u);
      EngineKeepsRatings(s, e, u);
    }
    forall k | Queried(s.world, s.reviews, k).Some?
      ensures Queried(s'.world, s.reviews, k) == Queried(s.world, s.reviews, k)
    {
      EngineKeepsAnswers(s, e, k);
    }
  }

  // ---------------------------------------------------------------- posting

  /** Whom a page of a user shows in a role: as a landlord, the reviews of renters about the user's own listings; as a
      renter, the reviews of landlords about the user's rentals; in any other role, both. */
  predicate ShowsOn(w: World, r: Review, userId: int, role: Option<Role>)
    requires ForeignKeys(w) && r.bookingId in w.bookings
  {
    var renter, landlord := w.bookings[r.bookingId].renterId, BookingSafety.Landlord(w, r.bookingId);
    var byRenter := r.reviewerId == renter && userId == landlord;
    var byLandlord := r.reviewerId == landlord && userId == renter;
    if role == Some(LANDLORD) then byRenter else if role == Some(RENTER) then byLandlord else byRenter || byLandlord
  }

  /** A review between two different parties is seen by the pages that are thrown away and by no other: on a listing's
      page when its renter wrote it, and on a user's page in the role the other party had towards that user. */
  lemma ReviewShowsOnlyWhereCleared(w: World, r: Review, k: Key)
    requires ForeignKeys(w) && FromParty(w, r) && BookingSafety.OwnersDoNotRent(w)
    ensures Where(w, k)(r) ==>
              || Aims(ReviewsOfUser(TargetUser(w, r)), k)
              || (ForLandlord(w, r) && Aims(ReviewsOfListing(w.bookings[r.bookingId].listingId), k))
    ensures k.ListingReviews? ==>
              var b := w.bookings[r.bookingId];
              (Where(w, k)(r) <==> r.reviewerId == b.renterId && k.id == b.listingId)
    ensures k.UserReviews? ==> (Where(w, k)(r) <==> ShowsOn(w, r, k.id, k.role))
    ensures k.UserReviews? && k.role == Some(LANDLORD) ==>
              (Where(w, k)(r) <==> ForLandlord(w, r) && k.id == TargetUser(w, r))
    ensures k.UserReviews? && k.role == Some(RENTER) ==>
              (Where(w, k)(r) <==> !ForLandlord(w, r) && k.id == TargetUser(w, r))
    ensures k.UserReviews? && (k.role == None || k.role == Some(ADMIN)) ==>
              (Where(w, k)(r) <==> k.id == TargetUser(w, r))
  {
  }

  lemma PostedFromParty(s: State, reviewerId: int, bookingId: int, rating: Stars)
    requires ForeignKeys(s.world) && Refused(s.world, s.reviews, reviewerId, bookingId) == None
    ensures FromParty(s.world, Review(|s.reviews| + 1, bookingId, reviewerId, rating))
  {
  }

  lemma PostKeepsAnswer(w: World, reviews: seq<Review>, r: Review, k: Key)
    requires ForeignKeys(w) && FromParty(w, r) && BookingSafety.OwnersDoNotRent(w)
    requires !Aims(ReviewsOfUser(TargetUser(w, r)), k)
    requires ForLandlord(w, r) ==> !Aims(ReviewsOfListing(w.bookings[r.bookingId].listingId), k)
    ensures Queried(w, reviews + [r], k) == Queried(w, reviews, k)
  {
    ReviewShowsOnlyWhereCleared(w, r, k);
    SelectedMore(reviews, r, Where(w, k));
    assert !Where(w, k)(r) ==> Selected(reviews + [r], Where(w, k)) == Selected(reviews, Where(w, k));
  }

  lemma InvalidatedKeys(ns: Namespace, w: World, store: map<string, Page>, r: Review, k: Key)
    requires ForeignKeys(w) && r.bookingId in w.bookings
    ensures Name(ns, k) in Invalidated(w, store, r) <==>
              && Name(ns, k) in store
              && !Aims(ReviewsOfUser(TargetUser(w, r)), k)
              && !(ForLandlord(w, r) && Aims(ReviewsOfListing(w.bookings[r.bookingId].listingId), k))
    ensures Name(ns, k) in Invalidated(w, store, r) ==> Invalidated(w, store, r)[Name(ns, k)] == store[Name(ns, k)]
  {
    PatternIsExact(ns, ReviewsOfUser(TargetUser(w, r)), k);
    PatternIsExact(ns, ReviewsOfListing(w.bookings[r.bookingId].listingId), k);
  }

  lemma PostKeepsPages(ns: Namespace, s: State, r: Review)
    requires ForeignKeys(s.world) && FromParty(s.world, r) && BookingSafety.OwnersDoNotRent(s.world)
    requires PagesCurrent(ns, s)
    ensures Coherent(ns, Invalidated(s.world, s.store, r), IsReviewPage, Queries(s.world, s.reviews + [r]))
  {
    var store' := Invalidated(s.world, s.store, r);
    forall k | IsReviewPage(k) && Name(ns, k) in store'
      ensures Queried(s.world, s.reviews + [r], k) == Some(store'[Name(ns, k)])
    {
      InvalidatedKeys(ns, s.world, s.store, r, k);
      PostKeepsAnswer(s.world, s.reviews, r, k);
    }
  }

  /** Only the target's rating in the one role changes. */
  lemma PostKeepsRows(w: World, reviews: seq<Review>, r: Review, userId: int)
    requires ForeignKeys(w) && FromParty(w, r) && BookingSafety.OwnersDoNotRent(w)
    ensures !(ForLandlord(w, r) && userId == TargetUser(w, r)) ==>
              LandlordRows(w, reviews + [r], userId) == LandlordRows(w, reviews, userId)
    ensures !(!ForLandlord(w, r) && userId == TargetUser(w, r)) ==>
              RenterRows(w, reviews + [r], userId) == RenterRows(w, reviews, userId)
    ensures userId == TargetUser(w, r) ==>
              (if ForLandlord(w, r) then LandlordRows(w, reviews + [r], userId)
                  else RenterRows(w, reviews + [r], userId)) != []
  {
    SelectedMore(reviews, r, (r: Review) => AsLandlord(w, r, userId));
    SelectedMore(reviews, r, (r: Review) => AsRenter(w, r, userId));
  }

  lemma PostKeepsRatings(s: State, r: Review, s': State)
    requires ForeignKeys(s.world) && FromParty(s.world, r) && BookingSafety.OwnersDoNotRent(s.world)
    requires RatingsAgree(s)
    requires s'.world == s.world && s'.reviews == s.reviews + [r]
    requires s'.ratings == UpdatedRatings(s.world, s'.reviews, s.ratings, TargetUser(s.world, r),
             ForLandlord(s.world, r))
    ensures RatingsAgree(s')
  {
    forall u ensures RatingsAgreeFor(s', u) {
      assert RatingsAgreeFor(s, u);
      PostKeepsRows(s.world, s.reviews, r, u);
    }
  }

  lemma PostKeepsOnePerReviewer(reviews: seq<Review>, r: Review)
    requires OnePerReviewer(reviews) && !Reviewed(reviews, r.bookingId, r.reviewerId)
    ensures OnePerReviewer(reviews + [r])
    ensures Numbered(reviews) && r.id == |reviews| + 1 ==> Numbered(reviews + [r])
  {
    assert forall i | 0 <= i < |reviews| :: reviews[i] in reviews;
  }

  lemma PostKeepsInv(ns: Namespace, s: State, reviewerId: int, bookingId: int, rating: Stars)
    requires Inv(ns, s)
    ensures Inv(ns, Post(s, reviewerId, bookingId, rating).0)
  {
    if Refused(s.world, s.reviews, reviewerId, bookingId) == None {
      var s' := Post(s, reviewerId, bookingId, rating).0;
      var r := Review(|s.reviews| + 1, bookingId, reviewerId, rating);
      PostedFromParty(s, reviewerId, bookingId, rating);
      PostKeepsPages(ns, s, r);
      PostKeepsRatings(s, r, s');
      PostKeepsOnePerReviewer(s.reviews, r);
      assert PagesCurrent(ns, s');
    }
  }

  // ---------------------------------------------------------------- reading

  lemma ReadKeepsInv(ns: Namespace, s: State, k: PageKey)
    requires Inv(ns, s)
    ensures Inv(ns, Read(ns, s, k).0)
  {
    var s' := Read(ns, s, k).0;
    if Name(ns, k) !in s.store && Queried(s.world, s.reviews, k).Some? {
      FillKeepsCoherent(ns, s.store, IsReviewPage, Queries(s.world, s.reviews), k);
      forall u ensures RatingsAgreeFor(s', u) {
        assert RatingsAgreeFor(s, u);
      }
    }
  }

  /** What is found is from then on in the cache. */
  lemma ReadIsCurrent(ns: Namespace, s: State, k: PageKey)
    requires PagesCurrent(ns, s)
    ensures Read(ns, s, k).1 == Queried(s.world, s.reviews, k)
    ensures var s' := Read(ns, s, k).0;
            && (Queried(s.world, s.reviews, k).Some? ==> Name(ns, k) in s'.store)
            && s' == s.(store := s'.store) && s.store.Keys <= s'.store.Keys <= s.store.Keys + {Name(ns, k)}
  {
  }

  // ---------------------------------------------------------------- main results

  lemma NextKeepsInv(ns: Namespace, s: State, e: ReviewEvent)
    requires Inv(ns, s)
    ensures Inv(ns, Next(ns, s, e))
  {
    match e
    case EngineStep(e) => EngineKeepsInv(ns, s, e);
    case PostCall(reviewerId, bookingId, rating) => PostKeepsInv(ns, s, reviewerId, bookingId, rating);
    case ReadCall(k) => ReadKeepsInv(ns, s, k);
  }

  lemma {:induction false} PlayKeepsInv(ns: Namespace, s: State, events: seq<ReviewEvent>)
    requires Inv(ns, s)
    ensures Inv(ns, Play(ns, s, events))
    decreases |events|
  {
    if events != [] {
      NextKeepsInv(ns, s, events[0]);
      PlayKeepsInv(ns, Next(ns, s, events[0]), events[1..]);
    }
  }

  lemma StartInv(ns: Namespace, tz: int, now: int)
    ensures Inv(ns, Start(tz, now))
  {
    BookingSafety.InitialInv(tz, now);
  }

  /** Whatever has happened, a read through the cache gives what the uncached query would give. */
  lemma ReadsAreCurrent(ns: Namespace, tz: int, now: int, events: seq<ReviewEvent>, k: PageKey)
    ensures var s := Play(ns, Start(tz, now), events);
            Read(ns, s, k).1 == Queried(s.world, s.reviews, k)
  {
    StartInv(ns, tz, now);
    PlayKeepsInv(ns, Start(tz, now), events);
    ReadIsCurrent(ns, Play(ns, Start(tz, now), events), k);
  }

  /** A page written out: the matching reviews, newest first, of which it shows its part and knows the number. */
  ghost predicate ShowsPage(page: Page, reviews: seq<Review>, where: Review -> bool, limit: Limit, offset: nat) {
    exists rows: seq<Review> ::
      && Lists(rows, reviews, where, (r: Review) => r.id)
      && page.total == |rows| && page.limit == limit && page.offset == offset
      && |page.ids| == Max(0, Min(limit, |rows| - offset))
      && forall i | 0 <= i < |page.ids| :: page.ids[i] == rows[offset + i].id
  }

  lemma AnswerShowsPage(w: World, reviews: seq<Review>, k: PageKey)
    requires Numbered(reviews)
    ensures ShowsPage(Answer(w, reviews, k), reviews, Where(w, k), k.limit, k.offset)
  {
    var rows := Selected(reviews, Where(w, k));
    SelectedLists(reviews, Where(w, k), (r: Review) => r.id);
    WindowSlices(rows, k.limit, k.offset);
  }

  /** After every run a cached read of a user's page shows the reviews about that user in that role and no other, newest
      first, and a listing's page those its renters wrote. */
  lemma PagesAreExact(ns: Namespace, tz: int, now: int, events: seq<ReviewEvent>, k: PageKey)
    ensures var s := Play(ns, Start(tz, now), events);
            var page := Read(ns, s, k).1;
            && (page.None? <==> k.ListingReviews? && k.id !in s.world.listings)
            && (page.Some? ==> ShowsPage(page.value, s.reviews, Where(s.world, k), k.limit, k.offset))
            && forall r | r in s.reviews ::
                 && r.bookingId in s.world.bookings
                 && Where(s.world, k)(r) ==
                    if k.UserReviews? then ShowsOn(s.world, r, k.id, k.role)
                    else var b := s.world.bookings[r.bookingId]; r.reviewerId == b.renterId && k.id == b.listingId
  {
    var s := Play(ns, Start(tz, now), events);
    StartInv(ns, tz, now);
    PlayKeepsInv(ns, Start(tz, now), events);
    ReadIsCurrent(ns, s, k);
    AnswerShowsPage(s.world, s.reviews, k);
    forall r | r in s.reviews
      ensures FromParty(s.world, r)
      ensures Where(s.world, k)(r) ==
              if k.UserReviews? then ShowsOn(s.world, r, k.id, k.role)
              else var b := s.world.bookings[r.bookingId]; r.reviewerId == b.renterId && k.id == b.listingId
    {
      ReviewShowsOnlyWhereCleared(s.world, r, k);
    }
  }

  lemma PostedReviewHeadsAnswer(w: World, reviews: seq<Review>, r: Review, k: Key)
    requires ForeignKeys(w) && FromParty(w, r) && BookingSafety.OwnersDoNotRent(w)
    requires k.UserReviews?
    ensures if ShowsOn(w, r, k.id, k.role)
            then var page := Answer(w, reviews + [r], k);
                 && page.total == 1 + Answer(w, reviews, k).total
                 && (k.offset == 0 ==> |page.ids| > 0 && page.ids[0] == r.id)
            else Answer(w, reviews + [r], k) == Answer(w, reviews, k)
  {
    ReviewShowsOnlyWhereCleared(w, r, k);
    SelectedMore(reviews, r, Where(w, k));
    assert !Where(w, k)(r) ==> Selected(reviews + [r], Where(w, k)) == Selected(reviews, Where(w, k));
  }

  /** A posted review heads the first page of the person reviewed, in the role reviewed and over all roles, whatever was
      cached before; the pages of the other role and of everybody else read as they did. */
  lemma PostedReviewIsShownFirst(ns: Namespace, s: State, reviewerId: int, bookingId: int, rating: Stars, k: PageKey)
    requires Inv(ns, s) && k.UserReviews? && Post(s, reviewerId, bookingId, rating).1.Success?
    ensures var r := Post(s, reviewerId, bookingId, rating).1.value;
            var before, after := Read(ns, s, k).1, Read(ns, Post(s, reviewerId, bookingId, rating).0, k).1;
            && r.id == |s.reviews| + 1 && r.bookingId in s.world.bookings
            && before.Some? && after.Some?
            && (if ShowsOn(s.world, r, k.id, k.role)
                then && after.value.total == 1 + before.value.total
                     && (k.offset == 0 ==> |after.value.ids| > 0 && after.value.ids[0] == r.id)
                else after == before)
  {
    PostKeepsInv(ns, s, reviewerId, bookingId, rating);
    PostedFromParty(s, reviewerId, bookingId, rating);
    ReadIsCurrent(ns, s, k);
    ReadIsCurrent(ns, Post(s, reviewerId, bookingId, rating).0, k);
    PostedReviewHeadsAnswer(s.world, s.reviews, Review(|s.reviews| + 1, bookingId, reviewerId, rating), k);
  }

  /** A review is taken if and only if a party of the booking writes it, the booking is completed and that party has not
      reviewed it yet; it is then added, and a refusal names the first of these that fails and changes nothing. */
  lemma PostIsExact(s: State, reviewerId: int, bookingId: int, rating: Stars)
    requires ForeignKeys(s.world)
    ensures var (s', r) := Post(s, reviewerId, bookingId, rating);
            && (r.Failure? ==> s' == s)
            && (bookingId !in s.world.bookings ==> r == Failure(NoSuchBooking))
            && (bookingId in s.world.bookings ==>
                  var b := s.world.bookings[bookingId];
                  var party := reviewerId == b.renterId || reviewerId == s.world.listings[b.listingId].owner;
                  var again := exists q :: q in s.reviews && q.bookingId == bookingId && q.reviewerId == reviewerId;
                  && (r.Success? <==> party && b.status == COMPLETED && !again)
                  && (r.Failure? ==>
                        r.error == if !party then NotParticipant else if again && b.status == COMPLETED
                                   then AlreadyReviewed else NotCompleted))
            && (r.Success? ==>
                  && r.value == Review(|s.reviews| + 1, bookingId, reviewerId, rating)
                  && s'.reviews == s.reviews + [r.value] && s'.world == s.world)
  {
  }

  // ---------------------------------------------------------------- ratings

  lemma {:induction false} SumBounds(rows: seq<Review>)
    ensures |rows| <= SumOf(rows) <= 5 * |rows|
  {
    if rows != [] {
      SumBounds(rows[1..]);
    }
  }

  lemma Quotient(sum: real, n: real)
    requires n > 0.0 && n <= sum <= 5.0 * n
    ensures 1.0 <= sum / n <= 5.0 && sum / n * n == sum
  {
    var q := sum / n;
    assert q * n == sum;
    assert (q - 1.0) * n >= 0.0 && (5.0 - q) * n >= 0.0;
  }

  /** How many of the reviews give so many stars. */
  function NumberOf(rows: seq<Review>, stars: int): nat {
    if rows == [] then 0 else (if rows[0].rating == stars then 1 else 0) + NumberOf(rows[1..], stars)
  }

  /** The stars of all reviews together. */
  function TotalStars(rows: seq<Review>): int {
    NumberOf(rows, 1) + 2 * NumberOf(rows, 2) + 3 * NumberOf(rows, 3) + 4 * NumberOf(rows, 4) + 5 * NumberOf(rows, 5)
  }

  lemma {:induction false} SumByStars(rows: seq<Review>)
    ensures SumOf(rows) == TotalStars(rows)
    ensures |rows| == NumberOf(rows, 1) + NumberOf(rows, 2) + NumberOf(rows, 3) + NumberOf(rows, 4) + NumberOf(rows, 5)
  {
    if rows != [] {
      SumByStars(rows[1..]);
    }
  }

  /** A rating is absent without reviews, and otherwise their mean, between one and five. */
  ghost predicate IsMeanOf(rating: Option<real>, rows: seq<Review>) {
    match rating
    case None => rows == []
    case Some(mean) => rows != [] && 1.0 <= mean <= 5.0 && mean * |rows| as real == TotalStars(rows) as real
  }

  lemma MeanTimesNumber(rows: seq<Review>)
    requires rows != []
    ensures 1.0 <= Mean(rows).value <= 5.0 && Mean(rows).value * |rows| as real == SumOf(rows) as real
  {
    SumBounds(rows);
    FiveTimes(|rows|);
    Quotient(SumOf(rows) as real, |rows| as real);
  }

  lemma FiveTimes(n: nat)
    ensures (5 * n) as real == 5.0 * n as real
  {
  }

  lemma MeanIsMean(rows: seq<Review>)
    ensures IsMeanOf(Mean(rows), rows)
  {
    SumByStars(rows);
    if rows != [] {
      MeanTimesNumber(rows);
    }
  }

  /** What `updateRatingForUser` writes: the mean and the number of the reviews in the one role, for the one user;
      without reviews it writes nothing. */
  lemma UpdatedRatingsAreExact(w: World, reviews: seq<Review>, ratings: map<int, Ratings>, userId: int,
                               forLandlord: bool, other: int)
    ensures var rows := if forLandlord then LandlordRows(w, reviews, userId) else RenterRows(w, reviews, userId);
            var ratings' := UpdatedRatings(w, reviews, ratings, userId, forLandlord);
            var was, now := RatingsOf(ratings, userId), RatingsOf(ratings', userId);
            && (other != userId || rows == [] ==> RatingsOf(ratings', other) == RatingsOf(ratings, other))
            && (rows != [] && forLandlord ==>
                  && IsMeanOf(now.landlordRating, rows) && now.landlordReviewCount == |rows|
                  && now.renterRating == was.renterRating && now.renterReviewCount == was.renterReviewCount)
            && (rows != [] && !forLandlord ==>
                  && IsMeanOf(now.renterRating, rows) && now.renterReviewCount == |rows|
                  && now.landlordRating == was.landlordRating && now.landlordReviewCount == was.landlordReviewCount)
  {
    MeanIsMean(if forLandlord then LandlordRows(w, reviews, userId) else RenterRows(w, reviews, userId));
  }

  /** The stored rating and count of a user are the mean and the number of the reviews about them in each role. */
  ghost predicate MeansAreStored(s: State, userId: int) {
    var stored := RatingsOf(s.ratings, userId);
    var asLandlord, asRenter := LandlordRows(s.world, s.reviews, userId), RenterRows(s.world, s.reviews, userId);
    && stored.landlordReviewCount == |asLandlord| && IsMeanOf(stored.landlordRating, asLandlord)
    && stored.renterReviewCount == |asRenter| && IsMeanOf(stored.renterRating, asRenter)
  }

  lemma StoredMeans(s: State, userId: int)
    requires RatingsAgree(s)
    ensures MeansAreStored(s, userId)
  {
    assert RatingsAgreeFor(s, userId);
    MeanIsMean(LandlordRows(s.world, s.reviews, userId));
    MeanIsMean(RenterRows(s.world, s.reviews, userId));
  }

  /** One more review moves a mean: the new mean times the new number is the old mean times the old number, plus the
      stars given. */
  ghost predicate MeanMoves(before: Option<real>, n: nat, stars: Stars, after: Option<real>, n': nat) {
    && n' == n + 1
    && after.Some?
    && (before.None? <==> n == 0)
    && after.value * n' as real == (if before.None? then 0.0 else before.value * n as real) + stars as real
  }

  lemma MoreStars(rows: seq<Review>, r: Review)
    ensures TotalStars([r] + rows) == TotalStars(rows) + r.rating
  {
    assert ([r] + rows)[1..] == rows;
    SumByStars(rows);
    SumByStars([r] + rows);
  }

  lemma MeanOfMore(rows: seq<Review>, r: Review, before: Option<real>, after: Option<real>)
    requires IsMeanOf(before, rows) && IsMeanOf(after, [r] + rows)
    ensures MeanMoves(before, |rows|, r.rating, after, |[r] + rows|)
  {
    MoreStars(rows, r);
    var total, stars := TotalStars(rows), r.rating;
    assert (total + stars) as real == total as real + stars as real;
    assert rows == [] ==> total == 0;
  }

  lemma RowsOfMore(w: World, reviews: seq<Review>, r: Review, userId: int)
    requires ForeignKeys(w) && FromParty(w, r) && BookingSafety.OwnersDoNotRent(w)
    ensures LandlordRows(w, reviews + [r], userId)
            == (if ShowsOn(w, r, userId, Some(LANDLORD)) then [r] else []) + LandlordRows(w, reviews, userId)
    ensures RenterRows(w, reviews + [r], userId)
            == (if ShowsOn(w, r, userId, Some(RENTER)) then [r] else []) + RenterRows(w, reviews, userId)
  {
    SelectedMore(reviews, r, (r: Review) => AsLandlord(w, r, userId));
    SelectedMore(reviews, r, (r: Review) => AsRenter(w, r, userId));
  }

  /** A review moves the mean of the person reviewed in the one role, and leaves every other rating alone. */
  ghost predicate MovesOneMean(s: State, r: Review, s': State, userId: int)
    requires ForeignKeys(s.world) && r.bookingId in s.world.bookings
  {
    var was, now := RatingsOf(s.ratings, userId), RatingsOf(s'.ratings, userId);
    && OneMeanMoves(ShowsOn(s.world, r, userId, Some(LANDLORD)), was.landlordRating, was.landlordReviewCount, r.rating,
                    now.landlordRating, now.landlordReviewCount)
    && OneMeanMoves(ShowsOn(s.world, r, userId, Some(RENTER)), was.renterRating, was.renterReviewCount, r.rating,
                    now.renterRating, now.renterReviewCount)
  }

  ghost predicate OneMeanMoves(shows: bool, before: Option<real>, n: nat, stars: Stars, after: Option<real>, n': nat) {
    if shows then MeanMoves(before, n, stars, after, n') else after == before && n' == n
  }

  lemma OneMoreRow(shows: bool, rows: seq<Review>, r: Review, more: seq<Review>)
    requires more == (if shows then [r] else []) + rows
    ensures OneMeanMoves(shows, Mean(rows), |rows|, r.rating, Mean(more), |more|)
  {
    if shows {
      MeanIsMean(rows);
      MeanIsMean(more);
      MeanOfMore(rows, r, Mean(rows), Mean(more));
    } else {
      assert more == rows;
    }
  }

  lemma OneMoreReview(s: State, r: Review, s': State, userId: int)
    requires ForeignKeys(s.world) && FromParty(s.world, r) && BookingSafety.OwnersDoNotRent(s.world)
    requires RatingsAgree(s) && RatingsAgree(s') && s'.world == s.world && s'.reviews == s.reviews + [r]
    ensures MovesOneMean(s, r, s', userId)
  {
    var w, reviews := s.world, s.reviews;
    RowsOfMore(w, reviews, r, userId);
    assert RatingsAgreeFor(s, userId) && RatingsAgreeFor(s', userId);
    OneMoreRow(ShowsOn(w, r, userId, Some(LANDLORD)), LandlordRows(w, reviews, userId), r,
               LandlordRows(w, reviews + [r], userId));
    OneMoreRow(ShowsOn(w, r, userId, Some(RENTER)), RenterRows(w, reviews, userId), r,
               RenterRows(w, reviews + [r], userId));
  }

  /** So does every post that is accepted. */
  lemma PostMovesMean(ns: Namespace, s: State, reviewerId: int, bookingId: int, rating: Stars, userId: int)
    requires Inv(ns, s) && Post(s, reviewerId, bookingId, rating).1.Success?
    ensures bookingId in s.world.bookings
    ensures MovesOneMean(s, Review(|s.reviews| + 1, bookingId, reviewerId, rating),
                         Post(s, reviewerId, bookingId, rating).0, userId)
  {
    PostKeepsInv(ns, s, reviewerId, bookingId, rating);
    PostedFromParty(s, reviewerId, bookingId, rating);
    OneMoreReview(s, Review(|s.reviews| + 1, bookingId, reviewerId, rating),
                  Post(s, reviewerId, bookingId, rating).0, userId);
  }

  /** After every run the stored rating and count of each user are the mean and the number of the reviews
      about them in that role. */
  lemma RatingsAreMeans(ns: Namespace, tz: int, now: int, events: seq<ReviewEvent>, userId: int)
    ensures MeansAreStored(Play(ns, Start(tz, now), events), userId)
  {
    StartInv(ns, tz, now);
    PlayKeepsInv(ns, Start(tz, now), events);
    StoredMeans(Play(ns, Start(tz, now), events), userId);
  }

  /** After every run a booking has at most one review from each party, and none before it is completed. */
  lemma OneReviewPerParty(ns: Namespace, tz: int, now: int, events: seq<ReviewEvent>)
    ensures var s := Play(ns, Start(tz, now), events);
            && OnePerReviewer(s.reviews)
            && forall r :: r in s.reviews ==> FromParty(s.world, r)
  {
    StartInv(ns, tz, now);
    PlayKeepsInv(ns, Start(tz, now), events);
  }
}
