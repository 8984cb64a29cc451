/** Reviews of completed bookings: cached pages, stored ratings, and the selective invalidation. */
module Reviews {
  import opened Prelude
  import opened Bookings
  import BookingSafety
  import opened Redis
  import opened CacheKeys

  type Stars = n: int | 1 <= n <= 5 witness 1

  datatype Review = Review(id: int, bookingId: int, reviewerId: int, rating: Stars)

  /** A page of reviews, by their ids, with the number of reviews on all pages. */
  datatype Page = Page(ids: seq<int>, total: nat, limit: Limit, offset: nat)

  /** The rating columns of a user row. */
  datatype Ratings = Ratings(
    landlordRating: Option<real>,
    landlordReviewCount: nat,
    renterRating: Option<real>,
    renterReviewCount: nat)

  const NO_RATINGS := Ratings(None, 0, None, 0)

  datatype ReviewError = NoSuchBooking | NotParticipant | NotCompleted | AlreadyReviewed

  datatype State = State(world: World, reviews: seq<Review>, ratings: map<int, Ratings>, store: map<string, Page>)

  // ---------------------------------------------------------------- queries

  predicate OnListing(w: World, r: Review, listingId: int) {
    && r.bookingId in w.bookings
    && w.bookings[r.bookingId].listingId == listingId
    && listingId in w.listings && r.reviewerId != w.listings[listingId].owner
  }

  predicate AsLandlord(w: World, r: Review, userId: int) {
    && r.bookingId in w.bookings
    && w.bookings[r.bookingId].listingId in w.listings
    && w.listings[w.bookings[r.bookingId].listingId].owner == userId && r.reviewerId != userId
  }

  predicate AsRenter(w: World, r: Review, userId: int) {
    r.bookingId in w.bookings && w.bookings[r.bookingId].renterId == userId && r.reviewerId != userId
  }

  /** Reviews about a user, in one role or in either. */
  predicate About(w: World, r: Review, userId: int, role: Option<Role>) {
    match role
    case Some(LANDLORD) => AsLandlord(w, r, userId)
    case Some(RENTER) => AsRenter(w, r, userId)
    case _ => AsLandlord(w, r, userId) || AsRenter(w, r, userId)
  }

  function PageOf(rows: seq<Review>, limit: Limit, offset: nat): Page {
    var shown := Window(rows, limit, offset);
    Page(seq(|shown|, i requires 0 <= i < |shown| => shown[i].id), |rows|, limit, offset)
  }

  predicate IsReviewPage(k: Key) {
    k.ListingReviews? || k.UserReviews?
  }

  function Where(w: World, k: Key): Review -> bool {
    match k
    case ListingReviews(id, _, _) => (r: Review) => OnListing(w, r, id)
    case UserReviews(id, _, _, role) => (r: Review) => About(w, r, id, role)
    case _ => (r: Review) => false
  }

  /** What the uncached query answers for a key. */
  function Answer(w: World, reviews: seq<Review>, k: Key): Page {
    if IsReviewPage(k) then PageOf(Selected(reviews, Where(w, k)), k.limit, k.offset) else Page([], 0, 1, 0)
  }

  /** What the query behind a key returns; `None` when its listing does not exist. */
  function Queried(w: World, reviews: seq<Review>, k: Key): Option<Page> {
    if k.ListingReviews? && k.id !in w.listings then None else Some(Answer(w, reviews, k))
  }

  function Queries(w: World, reviews: seq<Review>): Key -> Option<Page> {
    (k: Key) => Queried(w, reviews, k)
  }

  // ---------------------------------------------------------------- ratings

  function SumOf(rows: seq<Review>): int {
    if rows == [] then 0 else rows[0].rating + SumOf(rows[1..])
  }

  function Mean(rows: seq<Review>): Option<real> {
    if rows == [] then None else Some(SumOf(rows) as real / |rows| as real)
  }

  function RatingsOf(ratings: map<int, Ratings>, userId: int): Ratings {
    if userId in ratings then ratings[userId] else NO_RATINGS
  }

  function LandlordRows(w: World, reviews: seq<Review>, userId: int): seq<Review> {
    Selected(reviews, (r: Review) => AsLandlord(w, r, userId))
  }

  function RenterRows(w: World, reviews: seq<Review>, userId: int): seq<Review> {
    Selected(reviews, (r: Review) => AsRenter(w, r, userId))
  }

  /** The columns `updateRatingForUser` writes; it writes nothing when there is no row. */
  function UpdatedRatings(w: World, reviews: seq<Review>, ratings: map<int, Ratings>, userId: int, forLandlord: bool):
    map<int, Ratings>
  {
    var rows := if forLandlord then LandlordRows(w, reviews, userId) else RenterRows(w, reviews, userId);
    if rows == [] then ratings
    else if forLandlord then
      ratings[userId := RatingsOf(ratings, userId).(landlordRating := Mean(rows), landlordReviewCount := |rows|)]
    else
      ratings[userId := RatingsOf(ratings, userId).(renterRating := Mean(rows), renterReviewCount := |rows|)]
  }

  // ---------------------------------------------------------------- operations

  predicate Reviewed(reviews: seq<Review>, bookingId: int, reviewerId: int) {
    exists r :: r in reviews && r.bookingId == bookingId && r.reviewerId == reviewerId
  }

  function Refused(w: World, reviews: seq<Review>, reviewerId: int, bookingId: int): Option<ReviewError>
    requires ForeignKeys(w)
  {
    if bookingId !in w.bookings then Some(NoSuchBooking)
    else if reviewerId != w.bookings[bookingId].renterId && reviewerId != BookingSafety.Landlord(w, bookingId)
    then Some(NotParticipant)
    else if w.bookings[bookingId].status != COMPLETED then Some(NotCompleted)
    else if Reviewed(reviews, bookingId, reviewerId) then Some(AlreadyReviewed)
    else None
  }

  predicate ForLandlord(w: World, r: Review)
    requires r.bookingId in w.bookings
  {
    r.reviewerId == w.bookings[r.bookingId].renterId
  }

  function TargetUser(w: World, r: Review): int
    requires ForeignKeys(w) && r.bookingId in w.bookings
  {
    if ForLandlord(w, r) then BookingSafety.Landlord(w, r.bookingId) else w.bookings[r.bookingId].renterId
  }

  /** The pages thrown away after a review: the target's, and the listing's only when the target is the landlord. */
  function Invalidated(w: World, store: map<string, Page>, r: Review): map<string, Page>
    requires ForeignKeys(w) && r.bookingId in w.bookings
  {
    var store1 := Cleared(store, Pattern(ReviewsOfUser(TargetUser(w, r))));
    if ForLandlord(w, r) then Cleared(store1, Pattern(ReviewsOfListing(w.bookings[r.bookingId].listingId))) else store1
  }

  function Post(s: State, reviewerId: int, bookingId: int, rating: Stars): (State, Result<Review, ReviewError>)
    requires ForeignKeys(s.world)
  {
    match Refused(s.world, s.reviews, reviewerId, bookingId)
    case Some(e) => (s, Failure(e))
    case None =>
      var r := Review(|s.reviews| + 1, bookingId, reviewerId, rating);
      var reviews := s.reviews + [r];
      (State(s.world,
             reviews,
             UpdatedRatings(s.world, reviews, s.ratings, TargetUser(s.world, r), ForLandlord(s.world, r)),
             Invalidated(s.world, s.store, r)),
       Success(r))
  }

  function Read(ns: Namespace, s: State, k: Key): (State, Option<Page>) {
    if Name(ns, k) in s.store then (s, Some(s.store[Name(ns, k)])) else
    match Queried(s.world, s.reviews, k)
    case None => (s, None)
    case Some(page) => (s.(store := s.store[Name(ns, k) := page]), Some(page))
  }

  // ---------------------------------------------------------------- runs

  type PageKey = k: Key | IsReviewPage(k) witness ListingReviews(1, 1, 0)

  /** The booking engine moves on, someone posts a review, or someone reads a page. */
  datatype ReviewEvent =
    | EngineStep(e: Event)
    | PostCall(reviewerId: int, bookingId: int, rating: Stars)
    | ReadCall(k: PageKey)

  function Next(ns: Namespace, s: State, e: ReviewEvent): (s': State)
    requires ForeignKeys(s.world)
    ensures ForeignKeys(s'.world)
  {
    match e
    case EngineStep(e) => s.(world := Step(s.world, e))
    case PostCall(reviewerId, bookingId, rating) => Post(s, reviewerId, bookingId, rating).0
    case ReadCall(k) => Read(ns, s, k).0
  }

  function Play(ns: Namespace, s: State, events: seq<ReviewEvent>): (s': State)
    requires ForeignKeys(s.world)
    ensures ForeignKeys(s'.world)
    decreases |events|
  {
    if events == [] then s else Play(ns, Next(ns, s, events[0]), events[1..])
  }

  function Start(tz: int, now: int): State {
    State(Initial(tz, now), [], map[], map[])
  }

  // ---------------------------------------------------------------- invariants

  /** Reviews belong to completed bookings and come from one of the two parties. */
  ghost predicate FromParties(s: State)
    requires ForeignKeys(s.world)
  {
    forall r :: r in s.reviews ==> FromParty(s.world, r)
  }

  predicate FromParty(w: World, r: Review)
    requires ForeignKeys(w)
  {
    && r.bookingId in w.bookings
    && w.bookings[r.bookingId].status == COMPLETED
    && (r.reviewerId == w.bookings[r.bookingId].renterId || r.reviewerId == BookingSafety.Landlord(w, r.bookingId))
  }

  /** No reviewer has two reviews for one booking. */
  ghost predicate OnePerReviewer(reviews: seq<Review>) {
    forall i, j | 0 <= i < j < |reviews| && reviews[i].bookingId == reviews[j].bookingId ::
      reviews[i].reviewerId != reviews[j].reviewerId
  }

  /** Serial ids. */
  ghost predicate Numbered(reviews: seq<Review>) {
    forall i | 0 <= i < |reviews| :: reviews[i].id == i + 1
  }

  ghost predicate RatingsAgreeFor(s: State, userId: int) {
    RatingsOf(s.ratings, userId) == Ratings(
      Mean(LandlordRows(s.world, s.reviews, userId)), |LandlordRows(s.world, s.reviews, userId)|,
      Mean(RenterRows(s.world, s.reviews, userId)), |RenterRows(s.world, s.reviews, userId)|)
  }

  /** The stored ratings are the means and numbers of the reviews about each user in each role. */
  ghost predicate RatingsAgree(s: State) {
    forall userId :: RatingsAgreeFor(s, userId)
  }

  ghost predicate PagesCurrent(ns: Namespace, s: State) {
    Coherent(ns, s.store, IsReviewPage, Queries(s.world, s.reviews))
  }

  ghost predicate Inv(ns: Namespace, s: State) {
    && ForeignKeys(s.world) && BookingSafety.Inv(s.world)
    && FromParties(s) && OnePerReviewer(s.reviews) && Numbered(s.reviews)
    && RatingsAgree(s) && PagesCurrent(ns, s)
  }
}
