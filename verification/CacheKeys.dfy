/** The cache keys of the application and the patterns that invalidate them. */
module CacheKeys {
  import opened Prelude
  import opened Redis

  datatype Role = RENTER | LANDLORD | ADMIN

  datatype ListingType = GARAGE | STORAGE | PARKING | MOTO_SLOT | WORKSHOP | MINI_FACTORY | BOAT_SLOT | OTHER

  /** The page sizes a request may ask for. */
  type Limit = n: int | 1 <= n witness 1

  type Phone = s: string | ':' !in s witness ""

  datatype Key =
    | ListingReviews(id: int, limit: Limit, offset: nat)
    | UserReviews(id: int, limit: Limit, offset: nat, role: Option<Role>)
    | UserProfile(id: int)
    | UserStatus(id: int)
    | UserRoles(id: int)
    | ListingDetail(id: int)
    | TypeListings(types: seq<ListingType>, limit: Limit, offset: nat)
    | UserListings(id: int, limit: Limit, offset: nat)
    | PlanDetail(id: int)
    | PlanList(limit: Limit, offset: nat)
    | FlashCall(phone: Phone)
    | TwoFactorSecret(id: int)

  // ---------------------------------------------------------------- rendering

  function Digit(n: nat): char
    requires n < 10
  {
    ['0', '1', '2', '3', '4', '5', '6', '7', '8', '9'][n]
  }

  function Decimal(n: int): (s: string)
    ensures s != "" && (n < 0 <==> s[0] == '-')
    ensures forall c :: c in s ==> c == '-' || '0' <= c <= '9'
    decreases if n < 0 then 1 - n else n
  {
    if n < 0 then "-" + Decimal(-n)
    else if n < 10 then [Digit(n)]
    else Decimal(n / 10) + [Digit(n % 10)]
  }

  lemma {:induction false} NaturalInjective(m: nat, n: nat)
    ensures Decimal(m) == Decimal(n) ==> m == n
  {
    var s, t := Decimal(m), Decimal(n);
    if s == t {
      assert s[|s| - 1] == Digit(m % 10) && t[|t| - 1] == Digit(n % 10);
      if m >= 10 && n >= 10 {
        assert s[..|s| - 1] == Decimal(m / 10) && t[..|t| - 1] == Decimal(n / 10);
        NaturalInjective(m / 10, n / 10);
      }
    }
  }

  lemma DecimalInjective(m: int, n: int)
    ensures Decimal(m) == Decimal(n) ==> m == n
  {
    if Decimal(m) == Decimal(n) {
      if m < 0 {
        assert Decimal(m)[1..] == Decimal(-m) && Decimal(n)[1..] == Decimal(-n);
        NaturalInjective(-m, -n);
      } else {
        NaturalInjective(m, n);
      }
    }
  }

  function RoleName(role: Option<Role>): string {
    match role
    case None => "all"
    case Some(RENTER) => "RENTER"
    case Some(LANDLORD) => "LANDLORD"
    case Some(ADMIN) => "ADMIN"
  }

  function TypeName(t: ListingType): string {
    match t
    case GARAGE => "GARAGE"
    case STORAGE => "STORAGE"
    case PARKING => "PARKING"
    case MOTO_SLOT => "MOTO_SLOT"
    case WORKSHOP => "WORKSHOP"
    case MINI_FACTORY => "MINI_FACTORY"
    case BOAT_SLOT => "BOAT_SLOT"
    case OTHER => "OTHER"
  }

  /** The order of the names as strings, on which `sort()` works. */
  predicate Before(a: string, b: string) {
    b != "" && (a == "" || a[0] < b[0] || (a[0] == b[0] && Before(a[1..], b[1..])))
  }

  function Insert(t: ListingType, ts: seq<ListingType>): seq<ListingType> {
    if ts == [] || !Before(TypeName(ts[0]), TypeName(t)) then [t] + ts else [ts[0]] + Insert(t, ts[1..])
  }

  function Sorted(ts: seq<ListingType>): seq<ListingType> {
    if ts == [] then [] else Insert(ts[0], Sorted(ts[1..]))
  }

  function Names(ts: seq<ListingType>): seq<string> {
    seq(|ts|, i requires 0 <= i < |ts| => TypeName(ts[i]))
  }

  /** The sorted type names with dashes between them. */
  function TypesField(ts: seq<ListingType>): string {
    if ts == [] then "" else Join(Names(Sorted(ts)), '-')
  }

  // ---------------------------------------------------------------- type lists

  function Rank(t: ListingType): nat {
    match t
    case BOAT_SLOT => 0
    case GARAGE => 1
    case MINI_FACTORY => 2
    case MOTO_SLOT => 3
    case OTHER => 4
    case PARKING => 5
    case STORAGE => 6
    case WORKSHOP => 7
  }

  lemma {:induction false} NotBeforeItself(s: string)
    ensures !Before(s, s)
  {
    if s != "" {
      NotBeforeItself(s[1..]);
    }
  }

  lemma BeforeIsRank(a: ListingType, b: ListingType)
    ensures Before(TypeName(a), TypeName(b)) <==> Rank(a) < Rank(b)
    ensures TypeName(a) == TypeName(b) ==> a == b
  {
    if a == b {
      NotBeforeItself(TypeName(a));
    } else {
      assert TypeName(a)[0] != TypeName(b)[0] || TypeName(a)[1] != TypeName(b)[1];
    }
  }

  lemma {:induction false} InsertCommutes(a: ListingType, b: ListingType, ts: seq<ListingType>)
    ensures Insert(a, Insert(b, ts)) == Insert(b, Insert(a, ts))
  {
    BeforeIsRank(a, b);
    BeforeIsRank(b, a);
    if ts != [] {
      BeforeIsRank(ts[0], a);
      BeforeIsRank(ts[0], b);
      InsertCommutes(a, b, ts[1..]);
    }
  }

  lemma {:induction false} SortedMoveToFront(ts: seq<ListingType>, i: nat)
    requires i < |ts|
    ensures Sorted(ts) == Insert(ts[i], Sorted(ts[..i] + ts[i + 1..]))
  {
    if i == 0 {
      assert ts[..0] + ts[1..] == ts[1..];
    } else {
      SortedMoveToFront(ts[1..], i - 1);
      assert (ts[..i] + ts[i + 1..])[1..] == ts[1..][..i - 1] + ts[1..][i..];
      InsertCommutes(ts[0], ts[i], Sorted(ts[1..][..i - 1] + ts[1..][i..]));
    }
  }

  lemma {:induction false} SortedOfPermutation(xs: seq<ListingType>, ys: seq<ListingType>)
    requires multiset(xs) == multiset(ys)
    ensures Sorted(xs) == Sorted(ys)
    decreases |xs|
  {
    if xs == [] {
      assert |multiset(ys)| == 0;
    } else {
      var i := TakeOut(xs, ys);
      SortedMoveToFront(ys, i);
      SortedOfPermutation(xs[1..], ys[..i] + ys[i + 1..]);
    }
  }

  lemma {:induction false} InsertKeeps(t: ListingType, ts: seq<ListingType>)
    ensures multiset(Insert(t, ts)) == multiset{t} + multiset(ts)
  {
    if ts != [] {
      var rest := ts[1..];
      InsertKeeps(t, rest);
      assert ts == [ts[0]] + rest;
      assert Insert(t, ts) == [t] + ts || Insert(t, ts) == [ts[0]] + Insert(t, rest);
    }
  }

  lemma {:induction false} SortedKeeps(ts: seq<ListingType>)
    ensures multiset(Sorted(ts)) == multiset(ts)
    ensures |Sorted(ts)| == |ts|
  {
    if ts != [] {
      SortedKeeps(ts[1..]);
      InsertKeeps(ts[0], Sorted(ts[1..]));
      assert ts == [ts[0]] + ts[1..];
    }
    assert |multiset(Sorted(ts))| == |multiset(ts)|;
  }

  lemma NamesInjective(xs: seq<ListingType>, ys: seq<ListingType>)
    ensures Names(xs) == Names(ys) ==> xs == ys
    ensures Without(Names(xs), '-') && Without(Names(xs), ':')
  {
    if Names(xs) == Names(ys) {
      forall i | 0 <= i < |xs| ensures xs[i] == ys[i] {
        assert Names(xs)[i] == Names(ys)[i];
        BeforeIsRank(xs[i], ys[i]);
      }
    }
  }

  lemma {:induction false} JoinWithout(fields: seq<string>, sep: char, c: char)
    requires fields != [] && Without(fields, c) && c != sep
    ensures c !in Join(fields, sep)
  {
    if |fields| > 1 {
      JoinWithout(fields[1..], sep, c);
    }
  }

  lemma JoinNonEmpty(fields: seq<string>, sep: char)
    requires fields != [] && fields[0] != ""
    ensures Join(fields, sep) != ""
  {
  }

  lemma TypesFieldText(ts: seq<ListingType>)
    ensures ':' !in TypesField(ts)
    ensures TypesField(ts) == "" <==> ts == []
  {
    if ts != [] {
      SortedKeeps(ts);
      NamesInjective(Sorted(ts), Sorted(ts));
      JoinWithout(Names(Sorted(ts)), '-', ':');
      JoinNonEmpty(Names(Sorted(ts)), '-');
    }
  }

  lemma TypesFieldInjective(xs: seq<ListingType>, ys: seq<ListingType>)
    ensures TypesField(xs) == TypesField(ys) ==> Sorted(xs) == Sorted(ys)
  {
    TypesFieldText(xs);
    TypesFieldText(ys);
    if xs != [] && ys != [] {
      SortedKeeps(xs);
      SortedKeeps(ys);
      NamesInjective(Sorted(xs), Sorted(ys));
      NamesInjective(Sorted(ys), Sorted(xs));
      JoinInjective(Names(Sorted(xs)), Names(Sorted(ys)), '-');
    }
  }

  /** Two type filters share a cache key exactly when one is a permutation of the other. */
  lemma TypeKeySound(xs: seq<ListingType>, ys: seq<ListingType>)
    ensures TypesField(xs) == TypesField(ys) <==> multiset(xs) == multiset(ys)
  {
    SortedKeeps(xs);
    SortedKeeps(ys);
    TypesFieldInjective(xs, ys);
    if multiset(xs) == multiset(ys) {
      SortedOfPermutation(xs, ys);
      assert |multiset(xs)| == |multiset(ys)|;
    }
  }

  // ---------------------------------------------------------------- keys as fields

  function Fields(k: Key): (fields: seq<string>)
    ensures fields != []
  {
    match k
    case ListingReviews(id, limit, offset) =>
      ["reviews", "listing", Decimal(id), "limit", Decimal(limit), "offset", Decimal(offset)]
    case UserReviews(id, limit, offset, role) =>
      ["reviews", "user", Decimal(id), "limit", Decimal(limit), "offset", Decimal(offset), "role", RoleName(role)]
    case UserProfile(id) => ["user", "profile", Decimal(id)]
    case UserStatus(id) => ["user", "status", Decimal(id)]
    case UserRoles(id) => ["user", "roles", Decimal(id)]
    case ListingDetail(id) => ["listing", Decimal(id)]
    case TypeListings(types, limit, offset) =>
      ["listings", TypesField(types), "limit", Decimal(limit), "offset", Decimal(offset)]
    case UserListings(id, limit, offset) =>
      ["user", Decimal(id), "listings", "active", "limit", Decimal(limit), "offset", Decimal(offset)]
    case PlanDetail(id) => ["subscription_plan", Decimal(id)]
    case PlanList(limit, offset) =>
      ["subscription_plans", "list", "active", "limit", Decimal(limit), "offset", Decimal(offset)]
    case FlashCall(phone) => ["flash-call", "verify", phone]
    case TwoFactorSecret(id) => ["2fa", "temp", Decimal(id)]
  }

  /** The key string. */
  function Render(k: Key): string {
    Join(Fields(k), ':')
  }

  /** The key with its type list in order, which is all the key string keeps of it. */
  function Canonical(k: Key): Key {
    if k.TypeListings? then k.(types := Sorted(k.types)) else k
  }

  lemma DecimalText(n: int)
    ensures ':' !in Decimal(n) && Plain(Decimal(n))
  {
  }

  predicate WordChar(c: char) {
    'a' <= c <= 'z' || 'A' <= c <= 'Z' || '0' <= c <= '9' || c == '_' || c == '-'
  }

  lemma WordIsPlain(w: string)
    requires forall i :: 0 <= i < |w| ==> WordChar(w[i])
    ensures ':' !in w && Plain(w)
  {
  }

  lemma WordsWithoutColon()
    ensures ':' !in "reviews" && ':' !in "listing" && ':' !in "limit" && ':' !in "offset" && ':' !in "role"
    ensures ':' !in "user" && ':' !in "profile" && ':' !in "status" && ':' !in "roles" && ':' !in "listings"
    ensures ':' !in "active" && ':' !in "subscription_plan" && ':' !in "subscription_plans" && ':' !in "list"
    ensures ':' !in "flash-call" && ':' !in "verify" && ':' !in "2fa" && ':' !in "temp"
  {
    WordIsPlain("reviews");
    WordIsPlain("listing");
    WordIsPlain("limit");
    WordIsPlain("offset");
    WordIsPlain("role");
    WordIsPlain("user");
    WordIsPlain("profile");
    WordIsPlain("status");
    WordIsPlain("roles");
    WordIsPlain("listings");
    WordIsPlain("active");
    WordIsPlain("subscription_plan");
    WordIsPlain("subscription_plans");
    WordIsPlain("list");
    WordIsPlain("flash-call");
    WordIsPlain("verify");
    WordIsPlain("2fa");
    WordIsPlain("temp");
  }

  lemma RoleNameWithoutColon(role: Option<Role>)
    ensures ':' !in RoleName(role)
  {
    WordIsPlain(RoleName(role));
  }

  lemma ReviewFieldText(k: Key, i: nat)
    requires (k.ListingReviews? || k.UserReviews?) && i < |Fields(k)|
    ensures ':' !in Fields(k)[i]
  {
    WordsWithoutColon();
    DecimalText(k.id);
    DecimalText(k.limit);
    DecimalText(k.offset);
    if k.UserReviews? {
      RoleNameWithoutColon(k.role);
    }
  }

  lemma ListFieldText(k: Key, i: nat)
    requires (k.TypeListings? || k.UserListings? || k.PlanList?) && i < |Fields(k)|
    ensures ':' !in Fields(k)[i]
  {
    WordsWithoutColon();
    DecimalText(k.limit);
    DecimalText(k.offset);
    if k.TypeListings? {
      TypesFieldText(k.types);
    } else if k.UserListings? {
      DecimalText(k.id);
    }
  }

  predicate IsPage(k: Key) {
    || k.ListingReviews? || k.UserReviews? || k.TypeListings? || k.UserListings? || k.PlanList?
  }

  lemma ShortFieldText(k: Key, i: nat)
    requires !IsPage(k) && i < |Fields(k)|
    ensures ':' !in Fields(k)[i]
  {
    WordsWithoutColon();
    if !k.FlashCall? {
      DecimalText(k.id);
    }
  }

  lemma FieldText(k: Key, i: nat)
    requires i < |Fields(k)|
    ensures ':' !in Fields(k)[i]
  {
    if !IsPage(k) {
      ShortFieldText(k, i);
    } else if k.ListingReviews? || k.UserReviews? {
      ReviewFieldText(k, i);
    } else {
      ListFieldText(k, i);
    }
  }

  lemma FieldsWithoutColon(k: Key)
    ensures Without(Fields(k), ':')
  {
    forall f | f in Fields(k) ensures ':' !in f {
      var i :| 0 <= i < |Fields(k)| && Fields(k)[i] == f;
      FieldText(k, i);
    }
  }

  lemma SameShape(k: Key, k': Key)
    requires |Fields(k)| == |Fields(k')| && |Fields(k)[0]| == |Fields(k')[0]| && |Fields(k)[1]| == |Fields(k')[1]|
    ensures k.ListingReviews? == k'.ListingReviews? && k.UserReviews? == k'.UserReviews?
    ensures k.UserProfile? == k'.UserProfile? && k.UserStatus? == k'.UserStatus? && k.UserRoles? == k'.UserRoles?
    ensures k.ListingDetail? == k'.ListingDetail? && k.TypeListings? == k'.TypeListings?
    ensures k.UserListings? == k'.UserListings? && k.PlanDetail? == k'.PlanDetail? && k.PlanList? == k'.PlanList?
    ensures k.FlashCall? == k'.FlashCall? && k.TwoFactorSecret? == k'.TwoFactorSecret?
  {
  }

  lemma RoleNameInjective(r: Option<Role>, r': Option<Role>)
    ensures RoleName(r) == RoleName(r') ==> r == r'
  {
    assert RoleName(r) == RoleName(r') ==> |RoleName(r)| == |RoleName(r')|;
  }

  lemma TypesFieldCanonical(xs: seq<ListingType>, ys: seq<ListingType>)
    ensures TypesField(xs) == TypesField(ys) <==> Sorted(xs) == Sorted(ys)
  {
    TypesFieldInjective(xs, ys);
    assert Sorted([]) == [];
    SortedKeeps(xs);
    SortedKeeps(ys);
  }

  lemma SameNumbers(fs: seq<string>, gs: seq<string>, i: nat, m: int, n: int)
    requires i < |fs| && i < |gs| && fs[i] == Decimal(m) && gs[i] == Decimal(n)
    ensures fs == gs ==> m == n
  {
    DecimalInjective(m, n);
  }

  /** Keys of one shape, counted by their numbers. */
  lemma SameReviewFields(k: Key, k': Key)
    requires (k.ListingReviews? && k'.ListingReviews?) || (k.UserReviews? && k'.UserReviews?)
    ensures Fields(k) == Fields(k') <==> k == k'
  {
    var fs, gs := Fields(k), Fields(k');
    SameNumbers(fs, gs, 2, k.id, k'.id);
    SameNumbers(fs, gs, 4, k.limit, k'.limit);
    SameNumbers(fs, gs, 6, k.offset, k'.offset);
    if k.UserReviews? {
      assert fs[8] == RoleName(k.role) && gs[8] == RoleName(k'.role);
      RoleNameInjective(k.role, k'.role);
    }
  }

  lemma SameIdFields(k: Key, k': Key)
    requires || (k.UserProfile? && k'.UserProfile?) || (k.UserStatus? && k'.UserStatus?)
             || (k.UserRoles? && k'.UserRoles?) || (k.TwoFactorSecret? && k'.TwoFactorSecret?)
    ensures Fields(k) == Fields(k') <==> k == k'
  {
    SameNumbers(Fields(k), Fields(k'), 2, k.id, k'.id);
  }

  lemma SameDetailFields(k: Key, k': Key)
    requires (k.ListingDetail? && k'.ListingDetail?) || (k.PlanDetail? && k'.PlanDetail?)
    ensures Fields(k) == Fields(k') <==> k == k'
  {
    SameNumbers(Fields(k), Fields(k'), 1, k.id, k'.id);
  }

  lemma SameTypeFields(k: Key, k': Key)
    requires k.TypeListings? && k'.TypeListings?
    ensures Fields(k) == Fields(k') <==> Canonical(k) == Canonical(k')
  {
    var fs, gs := Fields(k), Fields(k');
    assert fs[1] == TypesField(k.types) && gs[1] == TypesField(k'.types);
    TypesFieldCanonical(k.types, k'.types);
    SameNumbers(fs, gs, 3, k.limit, k'.limit);
    SameNumbers(fs, gs, 5, k.offset, k'.offset);
  }

  lemma SameListFields(k: Key, k': Key)
    requires (k.UserListings? && k'.UserListings?) || (k.PlanList? && k'.PlanList?)
    ensures Fields(k) == Fields(k') <==> k == k'
  {
    var fs, gs := Fields(k), Fields(k');
    if k.UserListings? {
      SameNumbers(fs, gs, 1, k.id, k'.id);
      SameNumbers(fs, gs, 5, k.limit, k'.limit);
      SameNumbers(fs, gs, 7, k.offset, k'.offset);
    } else {
      SameNumbers(fs, gs, 4, k.limit, k'.limit);
      SameNumbers(fs, gs, 6, k.offset, k'.offset);
    }
  }

  lemma SamePhoneFields(k: Key, k': Key)
    requires k.FlashCall? && k'.FlashCall?
    ensures Fields(k) == Fields(k') <==> k == k'
  {
    assert Fields(k)[2] == k.phone && Fields(k')[2] == k'.phone;
  }

  lemma SameFields(k: Key, k': Key)
    ensures Fields(k) == Fields(k') <==> Canonical(k) == Canonical(k')
  {
    if Fields(k) == Fields(k') || Canonical(k) == Canonical(k') {
      if Fields(k) == Fields(k') {
        SameShape(k, k');
      }
      match k
      case ListingReviews(_, _, _) => SameReviewFields(k, k');
      case UserReviews(_, _, _, _) => SameReviewFields(k, k');
      case UserProfile(_) => SameIdFields(k, k');
      case UserStatus(_) => SameIdFields(k, k');
      case UserRoles(_) => SameIdFields(k, k');
      case ListingDetail(_) => SameDetailFields(k, k');
      case TypeListings(_, _, _) => SameTypeFields(k, k');
      case UserListings(_, _, _) => SameListFields(k, k');
      case PlanDetail(_) => SameDetailFields(k, k');
      case PlanList(_, _) => SameListFields(k, k');
      case FlashCall(_) => SamePhoneFields(k, k');
      case TwoFactorSecret(_) => SameIdFields(k, k');
    }
  }

  /** Key strings are equal exactly for the same key, or for the same type-list page with its types in
      another order. */
  lemma RenderInjective(k: Key, k': Key)
    ensures Render(k) == Render(k') <==> Canonical(k) == Canonical(k')
  {
    FieldsWithoutColon(k);
    FieldsWithoutColon(k');
    JoinInjective(Fields(k), Fields(k'), ':');
    SameFields(k, k');
  }

  // ---------------------------------------------------------------- keys in the store

  predicate Neutral(f: string) {
    ':' !in f && !EndsWith(f, "reviews") && !EndsWith(f, "user") && !EndsWith(f, "subscription_plans")
  }

  predicate NeutralFields(ns: seq<string>) {
    forall f :: f in ns ==> Neutral(f)
  }

  /** The fields the client library puts in front of a key, such as `keyv` and an empty one. */
  type Namespace = ns: seq<string> | ns != [] && NeutralFields(ns) witness [""]

  function Prefix(ns: Namespace): string {
    Join(ns, ':') + ":"
  }

  /** The name under which the store holds a key. */
  function Name(ns: Namespace, k: Key): string {
    Prefix(ns) + Render(k)
  }

  lemma {:induction false} JoinConcat(fs: seq<string>, gs: seq<string>, sep: char)
    requires fs != [] && gs != []
    ensures Join(fs + gs, sep) == Join(fs, sep) + [sep] + Join(gs, sep)
  {
    if |fs| == 1 {
      assert (fs + gs)[1..] == gs;
    } else {
      JoinConcat(fs[1..], gs, sep);
      assert (fs + gs)[1..] == fs[1..] + gs;
    }
  }

  lemma NameInjective(ns: Namespace, k: Key, k': Key)
    ensures Name(ns, k) == Name(ns, k') <==> Canonical(k) == Canonical(k')
  {
    RenderInjective(k, k');
    assert Name(ns, k)[|Prefix(ns)|..] == Render(k);
    assert Name(ns, k')[|Prefix(ns)|..] == Render(k');
  }

  // ---------------------------------------------------------------- invalidation patterns

  /** The patterns the services clear, by what they aim at. */
  datatype Target = ReviewsOfListing(id: int) | ReviewsOfUser(id: int) | ListingsOfUser(id: int) | ActivePlans

  function FirstWord(t: Target): string {
    match t
    case ReviewsOfListing(_) => "reviews"
    case ReviewsOfUser(_) => "reviews"
    case ListingsOfUser(_) => "user"
    case ActivePlans => "subscription_plans"
  }

  function MoreWords(t: Target): (words: seq<string>)
    ensures words != []
  {
    match t
    case ReviewsOfListing(id) => ["listing", Decimal(id)]
    case ReviewsOfUser(id) => ["user", Decimal(id)]
    case ListingsOfUser(id) => [Decimal(id), "listings", "active"]
    case ActivePlans => ["list", "active"]
  }

  function Pattern(t: Target): string {
    FirstWord(t) + ":" + (Join(MoreWords(t), ':') + ":") + "*"
  }

  /** The keys a target means: every page of that listing, that user, or of the active plans. */
  predicate Aims(t: Target, k: Key) {
    match t
    case ReviewsOfListing(id) => k.ListingReviews? && k.id == id
    case ReviewsOfUser(id) => k.UserReviews? && k.id == id
    case ListingsOfUser(id) => k.UserListings? && k.id == id
    case ActivePlans => k.PlanList?
  }

  lemma DecimalIsNoWord(n: int, w: string)
    requires w != "" && w[0] != '-' && !('0' <= w[0] <= '9')
    ensures Decimal(n) != w
  {
    assert Decimal(n)[0] in Decimal(n);
  }

  /** The fields that are neither a word of the key scheme nor a number. */
  predicate FreeText(k: Key, j: nat) {
    (k.TypeListings? && j == 1) || (k.FlashCall? && j == 2) || (k.UserReviews? && j == 8)
  }

  lemma ListingAt(k: Key, j: nat)
    requires 0 < j < |Fields(k)| && !FreeText(k, j) && Fields(k)[j] == "listing"
    ensures k.ListingReviews? && j == 1
  {
    forall n ensures Decimal(n) != "listing" {
      DecimalIsNoWord(n, "listing");
    }
  }

  lemma UserAt(k: Key, j: nat)
    requires 0 < j < |Fields(k)| && !FreeText(k, j) && Fields(k)[j] == "user"
    ensures k.UserReviews? && j == 1
  {
    assert "user"[0] != "list"[0];
    forall n ensures Decimal(n) != "user" {
      DecimalIsNoWord(n, "user");
    }
  }

  lemma ListingsAt(k: Key, j: nat)
    requires 0 < j < |Fields(k)| && !FreeText(k, j) && Fields(k)[j] == "listings"
    ensures k.UserListings? && j == 2
  {
    forall n ensures Decimal(n) != "listings" {
      DecimalIsNoWord(n, "listings");
    }
  }

  lemma ListAt(k: Key, j: nat)
    requires 0 < j < |Fields(k)| && !FreeText(k, j) && Fields(k)[j] == "list"
    ensures k.PlanList? && j == 1
  {
    assert "user"[0] != "list"[0];
    forall n ensures Decimal(n) != "list" {
      DecimalIsNoWord(n, "list");
    }
  }

  lemma ListingsEndOtherwise()
    ensures !EndsWith("listings", "reviews") && !EndsWith("listings", "user")
    ensures !EndsWith("listings", "subscription_plans")
  {
    assert "listings"[1..][0] == 'i' && "reviews"[0] == 'r';
    assert "listings"[4..][0] == 'i' && "user"[0] == 'u';
  }

  lemma NotAfterListings(t: Target, k: Key, j: nat)
    requires FieldsAt(FirstWord(t), MoreWords(t), Fields(k), j)
    ensures !(k.TypeListings? && j == 0) && !(k.FlashCall? && j == 1)
  {
    ListingsEndOtherwise();
    assert k.TypeListings? ==> Fields(k)[0] == "listings";
  }

  lemma AimedFieldsOfListingReviews(t: Target, k: Key, j: nat)
    requires t.ReviewsOfListing?
    ensures FieldsAt(FirstWord(t), MoreWords(t), Fields(k), j) <==> j == 0 && Aims(t, k)
  {
    var fs, bs := Fields(k), MoreWords(t);
    if FieldsAt(FirstWord(t), bs, fs, j) {
      NotAfterListings(t, k, j);
      assert fs[j + 1] == bs[0] && fs[j + 2] == bs[1];
      ListingAt(k, j + 1);
      DecimalInjective(t.id, k.id);
    }
  }

  lemma AimedFieldsOfUserReviews(t: Target, k: Key, j: nat)
    requires t.ReviewsOfUser?
    ensures FieldsAt(FirstWord(t), MoreWords(t), Fields(k), j) <==> j == 0 && Aims(t, k)
  {
    var fs, bs := Fields(k), MoreWords(t);
    if FieldsAt(FirstWord(t), bs, fs, j) {
      NotAfterListings(t, k, j);
      assert fs[j + 1] == bs[0] && fs[j + 2] == bs[1];
      UserAt(k, j + 1);
      DecimalInjective(t.id, k.id);
    }
  }

  lemma AimedFieldsOfListings(t: Target, k: Key, j: nat)
    requires t.ListingsOfUser?
    ensures FieldsAt(FirstWord(t), MoreWords(t), Fields(k), j) <==> j == 0 && Aims(t, k)
  {
    var fs, bs := Fields(k), MoreWords(t);
    if FieldsAt(FirstWord(t), bs, fs, j) {
      assert fs[j + 1] == bs[0] && fs[j + 2] == bs[1];
      assert !FreeText(k, j + 2);
      ListingsAt(k, j + 2);
      DecimalInjective(t.id, k.id);
    }
  }

  lemma AimedFieldsOfPlans(t: Target, k: Key, j: nat)
    requires t.ActivePlans?
    ensures FieldsAt(FirstWord(t), MoreWords(t), Fields(k), j) <==> j == 0 && Aims(t, k)
  {
    var fs, bs := Fields(k), MoreWords(t);
    if FieldsAt(FirstWord(t), bs, fs, j) {
      NotAfterListings(t, k, j);
      assert fs[j + 1] == bs[0];
      ListAt(k, j + 1);
    }
  }

  lemma AimedFields(t: Target, k: Key, j: nat)
    ensures FieldsAt(FirstWord(t), MoreWords(t), Fields(k), j) <==> j == 0 && Aims(t, k)
  {
    match t
    case ReviewsOfListing(_) => AimedFieldsOfListingReviews(t, k, j);
    case ReviewsOfUser(_) => AimedFieldsOfUserReviews(t, k, j);
    case ListingsOfUser(_) => AimedFieldsOfListings(t, k, j);
    case ActivePlans => AimedFieldsOfPlans(t, k, j);
  }

  /** Fields counted from behind the namespace. */
  lemma FieldsBehind(a: string, bs: seq<string>, ns: seq<string>, fs: seq<string>, i: nat)
    ensures FieldsAt(a, bs, ns + fs, |ns| + i) <==> FieldsAt(a, bs, fs, i)
  {
    if i + |bs| + 1 < |fs| {
      var j := |ns| + i;
      assert (ns + fs)[j] == fs[i];
      assert (ns + fs)[j + 1..j + 1 + |bs|] == fs[i + 1..i + 1 + |bs|];
    }
  }

  /** No namespace field ends with the first word of a pattern. */
  lemma NamespaceEndsOtherwise(ns: Namespace, t: Target)
    ensures forall f | f in ns :: !EndsWith(f, FirstWord(t))
  {
    forall f | f in ns ensures !EndsWith(f, FirstWord(t)) {
      assert Neutral(f);
    }
  }

  /** What holds of the fields of a key holds behind a namespace, and nowhere inside it. */
  lemma OnlyBehindNamespace(ns: seq<string>, a: string, bs: seq<string>, fs: seq<string>, aimed: bool, j: nat)
    requires forall f | f in ns :: !EndsWith(f, a)
    requires forall i: nat :: FieldsAt(a, bs, fs, i) <==> i == 0 && aimed
    ensures FieldsAt(a, bs, ns + fs, j) <==> j == |ns| && aimed
  {
    if j < |ns| {
      assert (ns + fs)[j] == ns[j] && ns[j] in ns;
    } else {
      FieldsBehind(a, bs, ns, fs, j - |ns|);
    }
  }

  lemma {:induction false} JoinPlain(fields: seq<string>)
    requires fields != [] && forall f :: f in fields ==> Plain(f)
    ensures Plain(Join(fields, ':'))
  {
    if |fields| > 1 {
      JoinPlain(fields[1..]);
      assert Plain(fields[0]);
    }
  }

  lemma TargetWords(t: Target, i: nat)
    requires i < |MoreWords(t)|
    ensures ':' !in FirstWord(t) && Plain(FirstWord(t))
    ensures ':' !in MoreWords(t)[i] && Plain(MoreWords(t)[i])
  {
    WordIsPlain(FirstWord(t));
    match t
    case ReviewsOfListing(id) => DecimalText(id); WordIsPlain("listing");
    case ReviewsOfUser(id) => DecimalText(id); WordIsPlain("user");
    case ListingsOfUser(id) => DecimalText(id); WordIsPlain("listings"); WordIsPlain("active");
    case ActivePlans => WordIsPlain("list"); WordIsPlain("active");
  }

  lemma TargetText(t: Target)
    ensures ':' !in FirstWord(t) && Without(MoreWords(t), ':')
    ensures Plain(FirstWord(t) + ":" + (Join(MoreWords(t), ':') + ":"))
  {
    TargetWords(t, 0);
    forall f | f in MoreWords(t) ensures ':' !in f && Plain(f) {
      var i :| 0 <= i < |MoreWords(t)| && MoreWords(t)[i] == f;
      TargetWords(t, i);
    }
    JoinPlain(MoreWords(t));
  }

  /** Clearing by pattern, with the `*` put in front, hits the pages it aims at and nothing else. */
  lemma PatternIsExact(ns: Namespace, t: Target, k: Key)
    ensures Match(Normalized(Pattern(t)), Name(ns, k)) <==> Aims(t, k)
  {
    var a, bs := FirstWord(t), MoreWords(t);
    var text := a + ":" + (Join(bs, ':') + ":");
    TargetText(t);
    assert Normalized(Pattern(t)) == "*" + text + "*";
    MatchOccurs(text, Name(ns, k));
    JoinConcat(ns, Fields(k), ':');
    assert Name(ns, k) == Join(ns + Fields(k), ':');
    FieldsWithoutColon(k);
    assert forall f | f in ns :: Neutral(f);
    OccursInJoin(a, bs, ns + Fields(k), ':');
    NamespaceEndsOtherwise(ns, t);
    forall i: nat ensures FieldsAt(a, bs, Fields(k), i) <==> i == 0 && Aims(t, k) {
      AimedFields(t, k, i);
    }
    forall j: nat ensures FieldsAt(a, bs, ns + Fields(k), j) <==> j == |ns| && Aims(t, k) {
      OnlyBehindNamespace(ns, a, bs, Fields(k), Aims(t, k), j);
    }
    assert Aims(t, k) ==> FieldsAt(a, bs, ns + Fields(k), |ns|);
  }

  // ---------------------------------------------------------------- coherence

  /** Every cached key of interest holds what the uncached query would answer now; a query that finds
      nothing (`None`) is never cached. */
  ghost predicate Coherent<V>(ns: Namespace, store: map<string, V>, interest: Key -> bool, answer: Key -> Option<V>) {
    forall k | interest(k) && Name(ns, k) in store :: answer(k) == Some(store[Name(ns, k)])
  }

  /** Storing the answer after a miss keeps the cache coherent. */
  lemma FillKeepsCoherent<V>(ns: Namespace, store: map<string, V>, interest: Key -> bool, answer: Key -> Option<V>,
                             k: Key)
    requires Coherent(ns, store, interest, answer)
    requires answer(k).Some? && !k.TypeListings?
    ensures Coherent(ns, store[Name(ns, k) := answer(k).value], interest, answer)
  {
    forall k' | interest(k') && Name(ns, k') in store[Name(ns, k) := answer(k).value]
      ensures answer(k') == Some(store[Name(ns, k) := answer(k).value][Name(ns, k')])
    {
      NameInjective(ns, k, k');
    }
  }

  /** When the answers change only at what is deleted, deleting keeps the cache coherent. */
  lemma DeleteKeepsCoherent<V>(ns: Namespace, store: map<string, V>, interest: Key -> bool,
                               before: Key -> Option<V>, after: Key -> Option<V>, gone: Key)
    requires Coherent(ns, store, interest, before)
    requires forall k | interest(k) && k != gone && before(k).Some? :: after(k) == before(k)
    ensures Coherent(ns, store - {Name(ns, gone)}, interest, after)
  {
  }

  /** When the answers change only at what a pattern aims at, clearing by it keeps the cache coherent. */
  lemma ClearKeepsCoherent<V>(ns: Namespace, store: map<string, V>, interest: Key -> bool,
                              before: Key -> Option<V>, after: Key -> Option<V>, t: Target)
    requires Coherent(ns, store, interest, before)
    requires forall k | interest(k) && !Aims(t, k) && before(k).Some? :: after(k) == before(k)
    ensures Coherent(ns, Cleared(store, Pattern(t)), interest, after)
  {
    forall k | interest(k) && Name(ns, k) in Cleared(store, Pattern(t))
      ensures after(k) == Some(Cleared(store, Pattern(t))[Name(ns, k)])
    {
      PatternIsExact(ns, t, k);
    }
  }
}
