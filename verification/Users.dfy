/** User records behind a cache split into a profile and a status, and the cached role lists. */
module Users {
  import opened Prelude
  import opened CacheKeys

  // ---------------------------------------------------------------- rows, entities, patches

  /** The columns the profile query selects; `details` stands for those no check looks at, by column name. */
  datatype Profile = Profile(
    phone: string,
    email: Option<string>,
    telegramId: Option<int>,
    telegramChatId: Option<int>,
    verified: bool,
    isBanned: bool,
    details: map<string, string>)

  datatype Status = Status(isOnline: bool, lastSeenAt: int)

  datatype Row = Row(profile: Profile, telegramUsername: Option<string>, status: Status)

  /** A property that may be undefined: an update without it, or an entity loaded without its column. */
  datatype Field<+T> = Undefined | Set(value: T)

  /** The object `findById` hands out; the profile query does not select `telegramUsername`. */
  datatype Entity = Entity(profile: Profile, telegramUsername: Field<Option<string>>, status: Status)

  /** A `Partial<User>`. */
  datatype Patch = Patch(
    phone: Field<string>,
    email: Field<Option<string>>,
    telegramId: Field<Option<int>>,
    telegramChatId: Field<Option<int>>,
    telegramUsername: Field<Option<string>>,
    verified: Field<bool>,
    isBanned: Field<bool>,
    details: map<string, string>,
    isOnline: Field<bool>,
    lastSeenAt: Field<int>)

  function Either<T>(f: Field<T>, fallback: T): T {
    match f
    case Undefined => fallback
    case Set(v) => v
  }

  function PatchedProfile(p: Profile, patch: Patch): Profile {
    Profile(Either(patch.phone, p.phone), Either(patch.email, p.email), Either(patch.telegramId, p.telegramId),
            Either(patch.telegramChatId, p.telegramChatId), Either(patch.verified, p.verified),
            Either(patch.isBanned, p.isBanned), p.details + patch.details)
  }

  function PatchedStatus(s: Status, patch: Patch): Status {
    Status(Either(patch.isOnline, s.isOnline), Either(patch.lastSeenAt, s.lastSeenAt))
  }

  /** Writing just the columns named in the patch. */
  function PatchedRow(row: Row, patch: Patch): Row {
    Row(PatchedProfile(row.profile, patch), Either(patch.telegramUsername, row.telegramUsername),
        PatchedStatus(row.status, patch))
  }

  /** `Object.assign(user, update)`. */
  function Assigned(e: Entity, patch: Patch): Entity {
    Entity(PatchedProfile(e.profile, patch),
           if patch.telegramUsername.Set? then patch.telegramUsername else e.telegramUsername,
           PatchedStatus(e.status, patch))
  }

  /** A save writes every property that is not undefined. */
  function SavedRow(row: Row, e: Entity): Row {
    Row(e.profile, Either(e.telegramUsername, row.telegramUsername), e.status)
  }

  // ---------------------------------------------------------------- state

  datatype Cached = ProfileValue(profile: Profile) | StatusValue(status: Status) | RolesValue(roles: seq<Role>)

  datatype UserError =
    | UserNotFound | PhoneExists | EmailExists | TelegramIdExists | TelegramChatExists | UniqueViolation | RoleExists

  datatype State = State(users: map<int, Row>, roles: seq<(int, Role)>, nextId: int, store: map<string, Cached>)

  function RolesOf(roles: seq<(int, Role)>, userId: int): seq<Role> {
    if roles == [] then []
    else (if roles[0].0 == userId then [roles[0].1] else []) + RolesOf(roles[1..], userId)
  }

  function WithoutRole(roles: seq<(int, Role)>, userId: int, role: Role): seq<(int, Role)> {
    if roles == [] then []
    else (if roles[0] == (userId, role) then [] else [roles[0]]) + WithoutRole(roles[1..], userId, role)
  }

  predicate IsUserKey(k: Key) {
    k.UserProfile? || k.UserStatus? || k.UserRoles?
  }

  type UserKey = k: Key | IsUserKey(k) witness UserProfile(1)

  /** What the database answers for a key; an absent user has no profile and no status. */
  function Queried(users: map<int, Row>, roles: seq<(int, Role)>, k: Key): Option<Cached> {
    match k
    case UserProfile(id) => if id in users then Some(ProfileValue(users[id].profile)) else None
    case UserStatus(id) => if id in users then Some(StatusValue(users[id].status)) else None
    case UserRoles(id) => Some(RolesValue(RolesOf(roles, id)))
    case _ => None
  }

  function Queries(users: map<int, Row>, roles: seq<(int, Role)>): Key -> Option<Cached> {
    (k: Key) => Queried(users, roles, k)
  }

  ghost predicate CacheCurrent(ns: Namespace, s: State) {
    Coherent(ns, s.store, IsUserKey, Queries(s.users, s.roles))
  }

  // ---------------------------------------------------------------- reads

  function Read(ns: Namespace, s: State, k: Key): (State, Option<Cached>) {
    if Name(ns, k) in s.store then (s, Some(s.store[Name(ns, k)])) else
    match Queried(s.users, s.roles, k)
    case None => (s, None)
    case Some(v) => (s.(store := s.store[Name(ns, k) := v]), Some(v))
  }

  /** Profile, then status, then both put together.  A value of the wrong kind is a broken cache. */
  function FindById(ns: Namespace, s: State, userId: int): (State, Result<Entity, UserError>) {
    var (s1, profileData) := Read(ns, s, UserProfile(userId));
    match profileData
    case Some(ProfileValue(profile)) =>
      (var (s2, statusData) := Read(ns, s1, UserStatus(userId));
       match statusData
       case Some(StatusValue(status)) => (s2, Success(Entity(profile, Undefined, status)))
       case _ => (s2, Failure(UserNotFound)))
    case _ => (s1, Failure(UserNotFound))
  }

  /** The entity a direct read of the row would give. */
  function DirectRead(row: Row): Entity {
    Entity(row.profile, Set(row.telegramUsername), row.status)
  }

  // ---------------------------------------------------------------- writes

  /** The four checks of `update`, in order; an empty string, a zero and a null are not checked.  A value that
      the user already has counts as taken. */
  function Taken(users: map<int, Row>, patch: Patch): Option<UserError> {
    if patch.phone.Set? && patch.phone.value != ""
       && exists id :: id in users && users[id].profile.phone == patch.phone.value then Some(PhoneExists)
    else if patch.email.Set? && patch.email.value.Some? && patch.email.value.value != ""
       && exists id :: id in users && users[id].profile.email == patch.email.value then Some(EmailExists)
    else if patch.telegramId.Set? && patch.telegramId.value.Some? && patch.telegramId.value.value != 0
       && exists id :: id in users && users[id].profile.telegramId == patch.telegramId.value then Some(TelegramIdExists)
    else if patch.telegramChatId.Set? && patch.telegramChatId.value.Some? && patch.telegramChatId.value.value != 0
       && exists id :: id in users && users[id].profile.telegramChatId == patch.telegramChatId.value
    then Some(TelegramChatExists)
    else None
  }

  /** The unique columns of the table, against every other row. */
  predicate Clashes(users: map<int, Row>, userId: int, profile: Profile) {
    exists id :: id in users && id != userId
      && (users[id].profile.phone == profile.phone || (profile.email.Some? && users[id].profile.email == profile.email))
  }

  function Update(ns: Namespace, s: State, userId: int, patch: Patch): (State, Result<Entity, UserError>) {
    match Taken(s.users, patch)
    case Some(e) => (s, Failure(e))
    case None =>
      var (s1, user) := FindById(ns, s, userId);
      match user
      case Failure(e) => (s1, Failure(e))
      case Success(loaded) =>
        var s2 := s1.(store := s1.store - {Name(ns, UserProfile(userId))});
        var e := Assigned(loaded, patch);
        if userId !in s2.users then (s2, Failure(UserNotFound))
        else if Clashes(s2.users, userId, e.profile) then (s2, Failure(UniqueViolation))
        else (s2.(users := s2.users[userId := SavedRow(s2.users[userId], e)]), Success(e))
  }

  function UpdateOnlineStatus(ns: Namespace, s: State, userId: int, isOnline: bool, now: int): State {
    var users := if userId in s.users then s.users[userId := s.users[userId].(status := Status(isOnline, now))]
                 else s.users;
    s.(users := users, store := s.store - {Name(ns, UserStatus(userId))})
  }

  function WithProfile(ns: Namespace, s: State, userId: int, profile: Profile): State
    requires userId in s.users
  {
    s.(users := s.users[userId := s.users[userId].(profile := profile)],
       store := s.store - {Name(ns, UserProfile(userId))})
  }

  function UpdateVerifiedStatus(ns: Namespace, s: State, userId: int, verified: bool): (State, Option<UserError>) {
    if userId !in s.users then (s, Some(UserNotFound))
    else (WithProfile(ns, s, userId, s.users[userId].profile.(verified := verified)), None)
  }

  function UpdateBanStatus(ns: Namespace, s: State, userId: int, isBanned: bool): (State, Option<UserError>) {
    if userId !in s.users then (s, Some(UserNotFound))
    else (WithProfile(ns, s, userId, s.users[userId].profile.(isBanned := isBanned)), None)
  }

  function Create(s: State, phone: string, email: Option<string>, details: map<string, string>, now: int):
    (State, Result<int, UserError>)
  {
    var profile := Profile(phone, email, None, None, false, false, details);
    if Clashes(s.users, s.nextId, profile) then (s.(nextId := s.nextId + 1), Failure(UniqueViolation))
    else (s.(users := s.users[s.nextId := Row(profile, None, Status(false, now))], nextId := s.nextId + 1),
        Success(s.nextId))
  }

  function AddRole(ns: Namespace, s: State, userId: int, role: Role): (State, Option<UserError>) {
    var (s1, cached) := Read(ns, s, UserRoles(userId));
    if cached.Some? && cached.value.RolesValue? && role in cached.value.roles then (s1, Some(RoleExists))
    else if userId !in s.users then (s1, Some(UserNotFound))
    else (s1.(roles := s1.roles + [(userId, role)], store := s1.store - {Name(ns, UserRoles(userId))}), None)
  }

  function RemoveRole(ns: Namespace, s: State, userId: int, role: Role): State {
    s.(roles := WithoutRole(s.roles, userId, role), store := s.store - {Name(ns, UserRoles(userId))})
  }

  // ---------------------------------------------------------------- runs

  datatype UserEvent =
    | FindCall(userId: int)
    | RolesCall(userId: int)
    | CreateCall(phone: string, email: Option<string>, details: map<string, string>, now: int)
    | UpdateCall(userId: int, patch: Patch)
    | OnlineCall(userId: int, isOnline: bool, now: int)
    | VerifyCall(userId: int, verified: bool)
    | BanCall(userId: int, isBanned: bool)
    | AddRoleCall(userId: int, role: Role)
    | RemoveRoleCall(userId: int, role: Role)

  function Next(ns: Namespace, s: State, e: UserEvent): State {
    match e
    case FindCall(userId) => FindById(ns, s, userId).0
    case RolesCall(userId) => Read(ns, s, UserRoles(userId)).0
    case CreateCall(phone, email, details, now) => Create(s, phone, email, details, now).0
    case UpdateCall(userId, patch) => Update(ns, s, userId, patch).0
    case OnlineCall(userId, isOnline, now) => UpdateOnlineStatus(ns, s, userId, isOnline, now)
    case VerifyCall(userId, verified) => UpdateVerifiedStatus(ns, s, userId, verified).0
    case BanCall(userId, isBanned) => UpdateBanStatus(ns, s, userId, isBanned).0
    case AddRoleCall(userId, role) => AddRole(ns, s, userId, role).0
    case RemoveRoleCall(userId, role) => RemoveRole(ns, s, userId, role)
  }

  function Play(ns: Namespace, s: State, events: seq<UserEvent>): State
    decreases |events|
  {
    if events == [] then s else Play(ns, Next(ns, s, events[0]), events[1..])
  }

  const START := State(map[], [], 1, map[])

  /** The status columns have their own call; no caller of `update` names them. */
  predicate LeavesStatus(patch: Patch) {
    patch.isOnline.Undefined? && patch.lastSeenAt.Undefined?
  }

  predicate Ordinary(e: UserEvent) {
    e.UpdateCall? ==> LeavesStatus(e.patch)
  }
}
