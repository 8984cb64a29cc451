/** Which listing searches are cached, under which key, and why the key says enough. */
module ListingSearch {
  import opened Prelude
  import opened Calendar
  import opened CacheKeys

  datatype ListingStatus = DRAFT | PENDING_APPROVAL | ACTIVE | REJECTED | INACTIVE

  /** A search request; an absent field is undefined. */
  datatype Search = Search(
    status: Option<ListingStatus>,
    title: Option<string>,
    types: Option<seq<ListingType>>,
    pricePeriod: Option<PeriodType>,
    minPrice: Option<nat>,
    maxPrice: Option<nat>,
    longitude: Option<real>,
    latitude: Option<real>,
    radius: Option<real>,
    amenities: Option<seq<string>>,
    limit: Limit,
    offset: nat)

  datatype Row = Row(
    id: int,
    owner: int,
    status: ListingStatus,
    kind: ListingType,
    title: string,
    pricings: map<PeriodType, nat>,
    longitude: real,
    latitude: real,
    amenities: seq<string>)

  /** The listings, most recently updated first, and the two extensions the queries use: distance on the globe
      and similarity of words. */
  datatype Database = Database(
    rows: seq<Row>,
    near: (Row, real, real, real) -> bool,
    similar: (string, Row) -> bool,
    ranked: (string, seq<Row>) -> seq<Row>)

  datatype Page = Page(rows: seq<Row>, total: nat, limit: Limit, offset: nat)

  // ---------------------------------------------------------------- the query

  /** Some tariff of the listing satisfies all three conditions on prices. */
  predicate PriceFits(s: Search, row: Row) {
    exists p :: p in row.pricings
      && (s.pricePeriod.Some? ==> p == s.pricePeriod.value)
      && (s.minPrice.Some? ==> row.pricings[p] >= s.minPrice.value)
      && (s.maxPrice.Some? ==> row.pricings[p] <= s.maxPrice.value)
  }

  predicate Selects(db: Database, userId: Option<int>, s: Search, row: Row) {
    && (userId.Some? ==> row.owner == userId.value)
    && (s.status.Some? ==> row.status == s.status.value)
    && (s.types.Some? && s.types.value != [] ==> row.kind in s.types.value)
    && PriceFits(s, row)
    && (s.longitude.Some? && s.latitude.Some? && s.radius.Some? ==>
          db.near(row, s.longitude.value, s.latitude.value, s.radius.value))
    && (s.amenities.Some? && s.amenities.value != [] ==> forall a :: a in s.amenities.value ==> a in row.amenities)
    && (s.title.Some? && s.title.value != "" ==> db.similar(s.title.value, row))
  }

  function FindAll(db: Database, userId: Option<int>, s: Search): Page {
    var found := Rejected(db.rows, (row: Row) => !Selects(db, userId, s, row));
    var ordered := if s.title.Some? && s.title.value != "" then db.ranked(s.title.value, found) else found;
    Page(Window(ordered, s.limit, s.offset), |ordered|, s.limit, s.offset)
  }

  // ---------------------------------------------------------------- the cache

  predicate OnlyTypesMayBeSet(s: Search) {
    && s.title.None? && s.pricePeriod.None? && s.minPrice.None? && s.maxPrice.None?
    && s.longitude.None? && s.latitude.None? && s.radius.None? && s.amenities.None?
  }

  predicate HasNoFilters(s: Search) {
    s.types.None? && OnlyTypesMayBeSet(s)
  }

  predicate HasOnlyTypeFilter(s: Search) {
    s.types.Some? && s.types.value != [] && OnlyTypesMayBeSet(s)
  }

  /** The key a search is cached under, if it is cached at all. */
  function CacheKeyOf(userId: Option<int>, s: Search): Option<Key> {
    if userId.Some? && s.status == Some(ACTIVE) && HasNoFilters(s)
    then Some(UserListings(userId.value, s.limit, s.offset))
    else if userId.None? && s.status == Some(ACTIVE) && HasOnlyTypeFilter(s)
    then Some(TypeListings(s.types.value, s.limit, s.offset))
    else None
  }

  /** What a cached search answers: a user's own active listings, or everybody's active listings of the types asked for,
      in both cases only those with a tariff, and their number; a page shows no other row. */
  lemma CachedSearchIsExact(db: Database, userId: Option<int>, s: Search, row: Row)
    requires CacheKeyOf(userId, s).Some?
    ensures var found := Rejected(db.rows, (row: Row) => !Selects(db, userId, s, row));
            && (row in found <==>
                  && row in db.rows && row.status == ACTIVE && row.pricings != map[]
                  && (match userId
                      case Some(owner) => row.owner == owner
                      case None => s.types.Some? && row.kind in s.types.value))
            && FindAll(db, userId, s).total == |found|
            && Slices(FindAll(db, userId, s).rows, found, s.limit, s.offset)
  {
    assert row.pricings != map[] <==> row.pricings.Keys != {};
    WindowSlices(Rejected(db.rows, (row: Row) => !Selects(db, userId, s, row)), s.limit, s.offset);
    if row.pricings != map[] {
      var p :| p in row.pricings;
    }
  }

  /** Price bounds are inclusive, and an empty list of types, an empty list of amenities and an empty title filter
      nothing. */
  lemma FiltersAreExact(db: Database, userId: Option<int>, s: Search, row: Row)
    ensures s.pricePeriod.Some? ==>
              (PriceFits(s, row) <==>
                 && s.pricePeriod.value in row.pricings
                 && var price := row.pricings[s.pricePeriod.value];
                    && (s.minPrice.Some? ==> s.minPrice.value <= price)
                    && (s.maxPrice.Some? ==> price <= s.maxPrice.value))
    ensures Selects(db, userId, s.(types := Some([]), amenities := Some([]), title := Some("")), row)
            == Selects(db, userId, s.(types := None, amenities := None, title := None), row)
  {
    var s0 := s.(types := None, amenities := None, title := None);
    var s1 := s.(types := Some([]), amenities := Some([]), title := Some(""));
    assert PriceFits(s0, row) == PriceFits(s, row) == PriceFits(s1, row);
  }

  lemma SameSelection(db: Database, userId: Option<int>, s: Search, s': Search)
    requires s' == s.(types := s'.types) && OnlyTypesMayBeSet(s)
    requires s.types.Some? && s'.types.Some? && multiset(s.types.value) == multiset(s'.types.value)
    ensures FindAll(db, userId, s) == FindAll(db, userId, s')
  {
    assert |multiset(s.types.value)| == |multiset(s'.types.value)|;
    forall row | row in db.rows ensures Selects(db, userId, s, row) == Selects(db, userId, s', row) {
      assert row.kind in s.types.value <==> row.kind in multiset(s.types.value);
      assert row.kind in s'.types.value <==> row.kind in multiset(s'.types.value);
    }
    RejectedSame(db.rows, (row: Row) => !Selects(db, userId, s, row), (row: Row) => !Selects(db, userId, s', row));
  }

  /** Two searches that are cached under one key string have the same answer in every database, so a cached page is
      never served to a search it was not computed for. */
  lemma KeyDeterminesAnswer(db: Database, userId: Option<int>, s: Search, userId': Option<int>, s': Search)
    requires CacheKeyOf(userId, s).Some? && CacheKeyOf(userId', s').Some?
    requires Render(CacheKeyOf(userId, s).value) == Render(CacheKeyOf(userId', s').value)
    ensures userId == userId' && FindAll(db, userId, s) == FindAll(db, userId', s')
  {
    var k, k' := CacheKeyOf(userId, s).value, CacheKeyOf(userId', s').value;
    RenderInjective(k, k');
    if k.TypeListings? {
      SortedKeeps(s.types.value);
      SortedKeeps(s'.types.value);
      SameSelection(db, userId, s, s');
    }
  }
}
