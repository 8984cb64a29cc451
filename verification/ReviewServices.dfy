/** The service that stores reviews, keeps the rating columns and throws away the pages a review shows on. */
module ReviewServices {
  import opened Prelude
  import opened Bookings
  import opened Redis
  import opened CacheKeys
  import opened Reviews

  class ReviewsService {
    const ns: Namespace
    const redisService: RedisService<Page>
    var world: World
    var reviews: seq<Review>
    var ratings: map<int, Ratings>

    ghost predicate Valid()
      reads this, redisService
    {
      redisService.prefix == Prefix(ns) && ForeignKeys(world)
    }

    ghost function View(): State
      reads this, redisService
    {
      State(world, reviews, ratings, redisService.store)
    }

    constructor (ns: Namespace, world: World)
      requires ForeignKeys(world)
      ensures Valid() && fresh(redisService)
      ensures View() == State(world, [], map[], map[])
    {
      this.ns, this.world, reviews, ratings := ns, world, [], map[];
      redisService := new RedisService(Prefix(ns));
    }

    method FindByListingWithCache(listingId: int, limit: Limit, offset: nat) returns (page: Option<Page>)
      requires Valid()
      modifies redisService
      ensures Valid() && (View(), page) == Read(ns, old(View()), ListingReviews(listingId, limit, offset))
    {
      var k := ListingReviews(listingId, limit, offset);
      page := redisService.GetOrSet(Render(k), Queried(world, reviews, k));
    }

    method FindByUserWithCache(userId: int, limit: Limit, offset: nat, role: Option<Role>) returns (page: Option<Page>)
      requires Valid()
      modifies redisService
      ensures Valid() && (View(), page) == Read(ns, old(View()), UserReviews(userId, limit, offset, role))
    {
      var k := UserReviews(userId, limit, offset, role);
      page := redisService.GetOrSet(Render(k), Queried(world, reviews, k));
    }

    method UpdateRatingForUser(userId: int, isReviewForLandlord: bool)
      modifies this`ratings
      ensures ratings == UpdatedRatings(world, reviews, old(ratings), userId, isReviewForLandlord)
    {
      var rows := if isReviewForLandlord then LandlordRows(world, reviews, userId)
          else RenterRows(world, reviews, userId);
      if |rows| == 0 {
        return;
      }
      var sum := 0;
      for i := 0 to |rows|
        invariant sum + SumOf(rows[i..]) == SumOf(rows)
      {
        assert rows[i..][1..] == rows[i + 1..];
        sum := sum + rows[i].rating;
      }
      assert rows[|rows|..] == [];
      var newRating := sum as real / |rows| as real;
      var user := RatingsOf(ratings, userId);
      if isReviewForLandlord {
        ratings := ratings[userId := user.(landlordRating := Some(newRating), landlordReviewCount := |rows|)];
      } else {
        ratings := ratings[userId := user.(renterRating := Some(newRating), renterReviewCount := |rows|)];
      }
    }

    /** Participation, completion and an existing review are checked in this order. */
    method Validate(reviewerId: int, bookingId: int) returns (error: Option<ReviewError>)
      requires Valid()
      ensures error == Refused(world, reviews, reviewerId, bookingId)
    {
      if bookingId !in world.bookings {
        return Some(NoSuchBooking);
      }
      var booking := world.bookings[bookingId];
      var landlordId := world.listings[booking.listingId].owner;
      if booking.renterId != reviewerId && landlordId != reviewerId {
        return Some(NotParticipant);
      }
      if booking.status != COMPLETED {
        return Some(NotCompleted);
      }
      if exists r :: r in reviews && r.bookingId == bookingId && r.reviewerId == reviewerId {
        return Some(AlreadyReviewed);
      }
      return None;
    }

    method InvalidateAfter(review: Review, targetUserId: int, isReviewForLandlord: bool)
      requires Valid() && review.bookingId in world.bookings
      requires targetUserId == TargetUser(world, review) && isReviewForLandlord == ForLandlord(world, review)
      modifies redisService
      ensures redisService.store == Invalidated(world, old(redisService.store), review)
    {
      redisService.DeleteByPattern(Pattern(ReviewsOfUser(targetUserId)));
      if isReviewForLandlord {
        redisService.DeleteByPattern(Pattern(ReviewsOfListing(world.bookings[review.bookingId].listingId)));
      }
    }

    method Create(reviewerId: int, bookingId: int, rating: Stars) returns (result: Result<Review, ReviewError>)
      requires Valid()
      modifies this`reviews, this`ratings, redisService
      ensures Valid() && (View(), result) == Post(old(View()), reviewerId, bookingId, rating)
    {
      var refused := Validate(reviewerId, bookingId);
      if refused.Some? {
        return Failure(refused.value);
      }
      var booking := world.bookings[bookingId];
      var landlordId := world.listings[booking.listingId].owner;
      var review := Review(|reviews| + 1, bookingId, reviewerId, rating);
      reviews := reviews + [review];

      var isReviewForLandlord := reviewerId == booking.renterId;
      var targetUserId := if isReviewForLandlord then landlordId else booking.renterId;
      UpdateRatingForUser(targetUserId, isReviewForLandlord);

      InvalidateAfter(review, targetUserId, isReviewForLandlord);
      return Success(review);
    }
  }
}
