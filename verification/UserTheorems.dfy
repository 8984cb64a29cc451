/** The split user cache always equals the database, and saving a whole record changes only what was patched. */
module UserTheorems {
  import opened Prelude
  import opened CacheKeys
  import opened Users

  // ---------------------------------------------------------------- reading

  lemma ReadIsCurrent(ns: Namespace, s: State, k: UserKey)
    requires CacheCurrent(ns, s)
    ensures Read(ns, s, k).1 == Queried(s.users, s.roles, k)
    ensures CacheCurrent(ns, Read(ns, s, k).0)
    ensures var s' := Read(ns, s, k).0; s'.users == s.users && s'.roles == s.roles && s'.nextId == s.nextId
    ensures Queried(s.users, s.roles, k).Some? ==> Name(ns, k) in Read(ns, s, k).0.store
    ensures s.store.Keys <= Read(ns, s, k).0.store.Keys
  {
    if Name(ns, k) !in s.store && Queried(s.users, s.roles, k).Some? {
      FillKeepsCoherent(ns, s.store, IsUserKey, Queries(s.users, s.roles), k);
    }
  }

  /** `findById` gives every column of the row but one, whatever is cached, and it fails exactly for absent users. */
  lemma FindByIdIsDirectRead(ns: Namespace, s: State, userId: int)
    requires CacheCurrent(ns, s)
    ensures var (s', user) := FindById(ns, s, userId);
            && (user.Success? <==> userId in s.users)
            && (user.Success? ==> user.value == DirectRead(s.users[userId]).(telegramUsername := Undefined))
            && (user.Failure? ==> user.error == UserNotFound)
            && CacheCurrent(ns, s') && s'.users == s.users && s'.roles == s.roles && s'.nextId == s.nextId
            && (user.Success? ==> Name(ns, UserProfile(userId)) in s'.store && Name(ns, UserStatus(userId)) in s'.store)
  {
    ReadIsCurrent(ns, s, UserProfile(userId));
    ReadIsCurrent(ns, Read(ns, s, UserProfile(userId)).0, UserStatus(userId));
  }

  /** A missing property reads as null, so the one column left out is right only for users without it. */
  lemma TelegramUsernameIsLost(ns: Namespace, s: State, userId: int)
    requires CacheCurrent(ns, s) && userId in s.users
    ensures var user := FindById(ns, s, userId).1;
            && user.Success?
            && (Either(user.value.telegramUsername, None) == s.users[userId].telegramUsername
                <==> s.users[userId].telegramUsername == None)
  {
    FindByIdIsDirectRead(ns, s, userId);
  }

  // ---------------------------------------------------------------- saving

  /** What `update` needs, all of it known before the call: nothing in the patch is taken, the user exists, and the
      unique columns stay unique. */
  predicate Acceptable(users: map<int, Row>, userId: int, patch: Patch) {
    && Taken(users, patch) == None
    && userId in users
    && !Clashes(users, userId, PatchedProfile(users[userId].profile, patch))
  }

  /** Saving the whole cached record is the same as writing the patched columns of the row: nothing that was
      written since the record was cached is undone. */
  lemma UpdateWritesOnlyThePatch(ns: Namespace, s: State, userId: int, patch: Patch)
    requires CacheCurrent(ns, s)
    ensures var (s', user) := Update(ns, s, userId, patch);
            && (user.Success? <==> Acceptable(s.users, userId, patch))
            && s'.users == (if user.Success? then s.users[userId := PatchedRow(s.users[userId], patch)] else s.users)
            && s'.roles == s.roles && s'.nextId == s.nextId
  {
    FindByIdIsDirectRead(ns, s, userId);
  }

  /** A column after a patch: the value given for it, or the one it had. */
  predicate Follows<T(==)>(f: Field<T>, before: T, after: T) {
    (f.Undefined? ==> after == before) && (f.Set? ==> after == f.value)
  }

  /** The profile columns after a patch, one by one. */
  ghost predicate ProfileFollows(patch: Patch, p: Profile, p': Profile) {
    && Follows(patch.phone, p.phone, p'.phone)
    && Follows(patch.email, p.email, p'.email)
    && Follows(patch.telegramId, p.telegramId, p'.telegramId)
    && Follows(patch.telegramChatId, p.telegramChatId, p'.telegramChatId)
    && Follows(patch.verified, p.verified, p'.verified)
    && Follows(patch.isBanned, p.isBanned, p'.isBanned)
    && p'.details.Keys == p.details.Keys + patch.details.Keys
    && (forall column | column in patch.details :: p'.details[column] == patch.details[column])
    && (forall column | column in p.details && column !in patch.details :: p'.details[column] == p.details[column])
  }

  /** A successful `update` leaves in each column of the row the value of the patch, or what was there; every other row
      stays, and so do the roles. */
  lemma UpdateWritesEachColumn(ns: Namespace, s: State, userId: int, patch: Patch)
    requires CacheCurrent(ns, s) && Update(ns, s, userId, patch).1.Success?
    ensures var (s', user) := Update(ns, s, userId, patch);
            && userId in s.users && s'.users.Keys == s.users.Keys
            && var row, row' := s.users[userId], s'.users[userId];
               && ProfileFollows(patch, row.profile, row'.profile)
               && Follows(patch.telegramUsername, row.telegramUsername, row'.telegramUsername)
               && Follows(patch.isOnline, row.status.isOnline, row'.status.isOnline)
               && Follows(patch.lastSeenAt, row.status.lastSeenAt, row'.status.lastSeenAt)
               && user.value.profile == row'.profile && user.value.status == row'.status
               && (forall other | other in s.users && other != userId :: s'.users[other] == s.users[other])
               && s'.roles == s.roles
  {
    UpdateWritesOnlyThePatch(ns, s, userId, patch);
    FindByIdIsDirectRead(ns, s, userId);
  }

  lemma PatchIsFollowed(ns: Namespace, s: State, userId: int, patch: Patch)
    requires CacheCurrent(ns, s)
    ensures var (s', user) := Update(ns, s, userId, patch);
            user.Success? ==>
              && userId in s.users && userId in s'.users
              && ProfileFollows(patch, s.users[userId].profile, s'.users[userId].profile)
  {
    if Update(ns, s, userId, patch).1.Success? {
      UpdateWritesEachColumn(ns, s, userId, patch);
    }
  }

  /** Nobody but perhaps the user has this number, and the user only when it is empty, which no check looks at. */
  ghost predicate PhoneFree(users: map<int, Row>, userId: int, phone: string) {
    forall id | id in users && users[id].profile.phone == phone :: id == userId && phone == ""
  }

  ghost predicate EmailFree(users: map<int, Row>, userId: int, email: Option<string>) {
    email.Some? ==> forall id | id in users && users[id].profile.email == email :: id == userId && email.value == ""
  }

  /** Where every phone number and every address is unique already, `update` succeeds exactly for an existing user and
      a patch whose number and address are free and whose telegram numbers, unless zero, nobody has. */
  lemma UpdateSucceedsExactly(ns: Namespace, s: State, userId: int, patch: Patch)
    requires CacheCurrent(ns, s) && LoginsUnique(s.users)
    ensures var (s', user) := Update(ns, s, userId, patch);
            && (user.Success? <==>
                  && userId in s.users
                  && (patch.phone.Set? ==> PhoneFree(s.users, userId, patch.phone.value))
                  && (patch.email.Set? ==> EmailFree(s.users, userId, patch.email.value))
                  && (patch.telegramId.Set? && Checked(patch.telegramId.value) ==>
                        forall id | id in s.users :: s.users[id].profile.telegramId != patch.telegramId.value)
                  && (patch.telegramChatId.Set? && Checked(patch.telegramChatId.value) ==>
                        forall id | id in s.users :: s.users[id].profile.telegramChatId != patch.telegramChatId.value))
            && (user.Failure? ==> s'.users == s.users && s'.roles == s.roles)
  {
    UpdateWritesOnlyThePatch(ns, s, userId, patch);
  }

  /** Somebody, the user included, has the number, the address, the telegram account or the chat of a patch already. */
  ghost predicate PhoneHeld(users: map<int, Row>, patch: Patch) {
    && patch.phone.Set? && patch.phone.value != ""
    && exists id :: id in users && users[id].profile.phone == patch.phone.value
  }

  ghost predicate EmailHeld(users: map<int, Row>, patch: Patch) {
    && patch.email.Set? && patch.email.value.Some? && patch.email.value.value != ""
    && exists id :: id in users && users[id].profile.email == patch.email.value
  }

  ghost predicate TelegramIdHeld(users: map<int, Row>, patch: Patch) {
    && patch.telegramId.Set? && Checked(patch.telegramId.value)
    && exists id :: id in users && users[id].profile.telegramId == patch.telegramId.value
  }

  ghost predicate TelegramChatHeld(users: map<int, Row>, patch: Patch) {
    && patch.telegramChatId.Set? && Checked(patch.telegramChatId.value)
    && exists id :: id in users && users[id].profile.telegramChatId == patch.telegramChatId.value
  }

  /** The first reason to refuse a patch, of these four in their order. */
  ghost function FirstHeld(users: map<int, Row>, patch: Patch): Option<UserError> {
    if PhoneHeld(users, patch) then Some(PhoneExists)
    else if EmailHeld(users, patch) then Some(EmailExists)
    else if TelegramIdHeld(users, patch) then Some(TelegramIdExists)
    else if TelegramChatHeld(users, patch) then Some(TelegramChatExists)
    else None
  }

  /** A refused `update` names the first reason there is: what somebody has already, an absent user, and last the unique
      columns of the table. */
  lemma UpdateRefusalsAreExact(ns: Namespace, s: State, userId: int, patch: Patch)
    requires CacheCurrent(ns, s)
    ensures var r, held := Update(ns, s, userId, patch).1, FirstHeld(s.users, patch);
            && (held.Some? ==> r == Failure(held.value))
            && (held.None? && userId !in s.users ==> r == Failure(UserNotFound))
            && (held.None? && userId in s.users && r.Failure? ==> r.error == UniqueViolation)
  {
    TakenIsFirstHeld(s.users, patch);
    FindByIdIsDirectRead(ns, s, userId);
  }

  lemma TakenIsFirstHeld(users: map<int, Row>, patch: Patch)
    ensures Taken(users, patch) == FirstHeld(users, patch)
  {
  }

  /** An online-status write survives every later update that leaves the status alone. */
  lemma UpdateKeepsOnlineStatus(ns: Namespace, s: State, userId: int, isOnline: bool, now: int, patch: Patch)
    requires CacheCurrent(ns, s) && userId in s.users && LeavesStatus(patch)
    ensures var s1 := UpdateOnlineStatus(ns, s, userId, isOnline, now);
            var s2 := Update(ns, s1, userId, patch).0;
            userId in s2.users && s2.users[userId].status == Status(isOnline, now)
  {
    OnlineKeepsCache(ns, s, userId, isOnline, now);
    UpdateWritesOnlyThePatch(ns, UpdateOnlineStatus(ns, s, userId, isOnline, now), userId, patch);
  }

  lemma RowWriteKeepsCache(ns: Namespace, s: State, userId: int, row: Row, gone: Key)
    requires CacheCurrent(ns, s)
    requires userId in s.users
    requires gone == UserProfile(userId) || row.profile == s.users[userId].profile
    requires gone == UserStatus(userId) || row.status == s.users[userId].status
    ensures CacheCurrent(ns, s.(users := s.users[userId := row], store := s.store - {Name(ns, gone)}))
  {
    DeleteKeepsCoherent(ns, s.store, IsUserKey, Queries(s.users, s.roles), Queries(s.users[userId := row], s.roles),
                        gone);
  }

  lemma DropKeepsCache(ns: Namespace, s: State, gone: Key)
    requires CacheCurrent(ns, s)
    ensures CacheCurrent(ns, s.(store := s.store - {Name(ns, gone)}))
  {
    DeleteKeepsCoherent(ns, s.store, IsUserKey, Queries(s.users, s.roles), Queries(s.users, s.roles), gone);
  }

  lemma OnlineKeepsCache(ns: Namespace, s: State, userId: int, isOnline: bool, now: int)
    requires CacheCurrent(ns, s)
    ensures CacheCurrent(ns, UpdateOnlineStatus(ns, s, userId, isOnline, now))
  {
    if userId in s.users {
      RowWriteKeepsCache(ns, s, userId, s.users[userId].(status := Status(isOnline, now)), UserStatus(userId));
    } else {
      DropKeepsCache(ns, s, UserStatus(userId));
    }
  }

  /** `update` deletes only the profile entry and has just filled the status entry, so the cache stays right
      exactly when the patch is refused or leaves the status columns as they are. */
  lemma UpdateKeepsCacheIff(ns: Namespace, s: State, userId: int, patch: Patch)
    requires CacheCurrent(ns, s)
    ensures CacheCurrent(ns, Update(ns, s, userId, patch).0) <==>
              (Acceptable(s.users, userId, patch) ==>
                  PatchedStatus(s.users[userId].status, patch) == s.users[userId].status)
  {
    FindByIdIsDirectRead(ns, s, userId);
    UpdateWritesOnlyThePatch(ns, s, userId, patch);
    var s1 := FindById(ns, s, userId).0;
    if Taken(s.users, patch) == None && userId in s.users {
      DropKeepsCache(ns, s1, UserProfile(userId));
      if Acceptable(s.users, userId, patch) {
        SavedRowKeepsCacheIff(ns, s1, userId, PatchedRow(s.users[userId], patch));
      }
    }
  }

  /** Saving a row while only its profile entry is deleted. */
  lemma SavedRowKeepsCacheIff(ns: Namespace, s: State, userId: int, row: Row)
    requires CacheCurrent(ns, s) && userId in s.users && Name(ns, UserStatus(userId)) in s.store
    ensures CacheCurrent(ns, s.(users := s.users[userId := row], store := s.store - {Name(ns, UserProfile(userId))}))
            <==> row.status == s.users[userId].status
  {
    var s' := s.(users := s.users[userId := row], store := s.store - {Name(ns, UserProfile(userId))});
    if row.status == s.users[userId].status {
      RowWriteKeepsCache(ns, s, userId, row, UserProfile(userId));
    } else {
      var k := UserStatus(userId);
      NameInjective(ns, UserProfile(userId), k);
      assert IsUserKey(k) && Name(ns, k) in s'.store;
      assert Queries(s.users, s.roles)(k) == Some(s'.store[Name(ns, k)]);
      assert Queries(s'.users, s'.roles)(k) == Some(StatusValue(row.status));
    }
  }

  // ---------------------------------------------------------------- the other calls

  lemma CreateKeepsCache(ns: Namespace, s: State, phone: string, email: Option<string>, details: map<string, string>,
                         now: int)
    requires CacheCurrent(ns, s) && s.nextId !in s.users
    ensures CacheCurrent(ns, Create(s, phone, email, details, now).0)
  {
  }

  lemma {:induction false} RolesOfAppend(roles: seq<(int, Role)>, userId: int, role: Role, other: int)
    ensures RolesOf(roles + [(userId, role)], other) == RolesOf(roles, other) + (if other == userId then [role] else [])
  {
    if roles == [] {
      assert roles + [(userId, role)] == [(userId, role)];
    } else {
      RolesOfAppend(roles[1..], userId, role, other);
      assert (roles + [(userId, role)])[1..] == roles[1..] + [(userId, role)];
    }
  }

  lemma {:induction false} RolesOfOthers(roles: seq<(int, Role)>, userId: int, role: Role, other: int)
    ensures other != userId ==> RolesOf(WithoutRole(roles, userId, role), other) == RolesOf(roles, other)
    ensures role !in RolesOf(WithoutRole(roles, userId, role), userId)
    ensures forall r | r != role ::
              r in RolesOf(WithoutRole(roles, userId, role), userId) <==> r in RolesOf(roles, userId)
  {
    if roles != [] {
      RolesOfOthers(roles[1..], userId, role, other);
      if roles[0] != (userId, role) {
        assert ([roles[0]] + WithoutRole(roles[1..], userId, role))[1..] == WithoutRole(roles[1..], userId, role);
      } else {
        assert WithoutRole(roles, userId, role) == WithoutRole(roles[1..], userId, role);
      }
    }
  }

  lemma RolesWriteKeepsCache(ns: Namespace, s: State, userId: int, roles: seq<(int, Role)>)
    requires CacheCurrent(ns, s)
    requires forall other | other != userId :: RolesOf(roles, other) == RolesOf(s.roles, other)
    ensures CacheCurrent(ns, s.(roles := roles, store := s.store - {Name(ns, UserRoles(userId))}))
  {
    DeleteKeepsCoherent(ns, s.store, IsUserKey, Queries(s.users, s.roles), Queries(s.users, roles), UserRoles(userId));
  }

  lemma {:induction false} RolesAreRows(roles: seq<(int, Role)>, userId: int)
    ensures forall r :: r in RolesOf(roles, userId) <==> (userId, r) in roles
  {
    if roles != [] {
      RolesAreRows(roles[1..], userId);
      assert roles == [roles[0]] + roles[1..];
    }
  }

  lemma {:induction false} RowsWithoutRole(roles: seq<(int, Role)>, userId: int, role: Role)
    ensures forall row :: row in WithoutRole(roles, userId, role) <==> row in roles && row != (userId, role)
  {
    if roles != [] {
      RowsWithoutRole(roles[1..], userId, role);
      assert roles == [roles[0]] + roles[1..];
    }
  }

  /** A role is granted exactly when the database does not have it yet; a removal takes that one role from that one
      user; and a user's list of roles holds exactly the roles of the rows. */
  lemma RolesAreExact(ns: Namespace, s: State, userId: int, role: Role, other: int)
    requires CacheCurrent(ns, s)
    ensures var (s', error) := AddRole(ns, s, userId, role);
            && (error == Some(RoleExists) <==> (userId, role) in s.roles)
            && (error == None <==> (userId, role) !in s.roles && userId in s.users)
            && s'.roles == s.roles + (if error == None then [(userId, role)] else [])
            && RolesOf(s'.roles, other) == RolesOf(s.roles, other)
               + (if error == None && other == userId then [role] else [])
            && CacheCurrent(ns, s') && s'.users == s.users && s'.nextId == s.nextId
    ensures var s' := RemoveRole(ns, s, userId, role);
            && (forall u, r :: (u, r) in s'.roles <==> (u, r) in s.roles && (u, r) != (userId, role))
            && (other != userId ==> RolesOf(s'.roles, other) == RolesOf(s.roles, other))
            && CacheCurrent(ns, s') && s'.users == s.users && s'.nextId == s.nextId
    ensures forall r :: r in RolesOf(s.roles, other) <==> (other, r) in s.roles
  {
    RolesAreRows(s.roles, userId);
    RolesAreRows(s.roles, other);
    RowsWithoutRole(s.roles, userId, role);
    ReadIsCurrent(ns, s, UserRoles(userId));
    var s1 := Read(ns, s, UserRoles(userId)).0;
    forall u
      ensures RolesOf(s.roles + [(userId, role)], u) == RolesOf(s.roles, u) + (if u == userId then [role] else [])
    {
      RolesOfAppend(s.roles, userId, role, u);
    }
    RolesWriteKeepsCache(ns, s1, userId, s.roles + [(userId, role)]);
    forall u | u != userId ensures RolesOf(WithoutRole(s.roles, userId, role), u) == RolesOf(s.roles, u) {
      RolesOfOthers(s.roles, userId, role, u);
    }
    RolesOfOthers(s.roles, userId, role, other);
    RolesWriteKeepsCache(ns, s, userId, WithoutRole(s.roles, userId, role));
  }

  // ---------------------------------------------------------------- reading back

  /** What `findById` says of a user, with the one column it never loads left undefined. */
  function Loaded(row: Row): Result<Entity, UserError> {
    Success(DirectRead(row).(telegramUsername := Undefined))
  }

  /** Every write is seen by the next `findById`, of this user and of any other, whatever was cached before. */
  lemma WritesAreReadBack(ns: Namespace, s: State, userId: int, isOnline: bool, now: int, flag: bool, other: int)
    requires CacheCurrent(ns, s) && userId in s.users && other in s.users && other != userId
    ensures var row := s.users[userId];
            var online := UpdateOnlineStatus(ns, s, userId, isOnline, now);
            var verified := UpdateVerifiedStatus(ns, s, userId, flag).0;
            var banned := UpdateBanStatus(ns, s, userId, flag).0;
            && FindById(ns, online, userId).1 == Loaded(row.(status := Status(isOnline, now)))
            && FindById(ns, verified, userId).1 == Loaded(row.(profile := row.profile.(verified := flag)))
            && FindById(ns, banned, userId).1 == Loaded(row.(profile := row.profile.(isBanned := flag)))
            && FindById(ns, online, other).1 == FindById(ns, verified, other).1 == FindById(ns, banned, other).1
               == Loaded(s.users[other])
  {
    var row := s.users[userId];
    OnlineKeepsCache(ns, s, userId, isOnline, now);
    RowWriteKeepsCache(ns, s, userId, row.(profile := row.profile.(verified := flag)), UserProfile(userId));
    RowWriteKeepsCache(ns, s, userId, row.(profile := row.profile.(isBanned := flag)), UserProfile(userId));
    ReadBack(ns, UpdateOnlineStatus(ns, s, userId, isOnline, now), userId, other);
    ReadBack(ns, UpdateVerifiedStatus(ns, s, userId, flag).0, userId, other);
    ReadBack(ns, UpdateBanStatus(ns, s, userId, flag).0, userId, other);
  }

  lemma ReadBack(ns: Namespace, s: State, userId: int, other: int)
    requires CacheCurrent(ns, s) && userId in s.users && other in s.users
    ensures FindById(ns, s, userId).1 == Loaded(s.users[userId]) && FindById(ns, s, other).1 == Loaded(s.users[other])
  {
    FindByIdIsDirectRead(ns, s, userId);
    FindByIdIsDirectRead(ns, s, other);
  }

  /** A successful `update` answers what the next `findById` will say, but for a telegram name that was just set: each
      profile column follows the patch, and the status is as it was. */
  lemma UpdateIsReadBack(ns: Namespace, s: State, userId: int, patch: Patch)
    requires CacheCurrent(ns, s) && LeavesStatus(patch) && Update(ns, s, userId, patch).1.Success?
    ensures var (s', user) := Update(ns, s, userId, patch);
            var before, after := FindById(ns, s, userId).1, FindById(ns, s', userId).1;
            && after == Success(user.value.(telegramUsername := Undefined))
            && before.Success?
            && ProfileFollows(patch, before.value.profile, after.value.profile)
            && after.value.status == before.value.status
  {
    FindByIdIsDirectRead(ns, s, userId);
    UpdateWritesOnlyThePatch(ns, s, userId, patch);
    UpdateWritesEachColumn(ns, s, userId, patch);
    UpdateKeepsCacheIff(ns, s, userId, patch);
    FindByIdIsDirectRead(ns, Update(ns, s, userId, patch).0, userId);
  }

  // ---------------------------------------------------------------- every run

  ghost predicate SerialIds(s: State) {
    forall id :: id in s.users ==> id < s.nextId
  }

  /** A number the checks look at: neither null nor zero. */
  predicate Checked(number: Option<int>) {
    number.Some? && number.value != 0
  }

  /** No two users share a telegram account or a telegram chat, except the number zero, which no check looks at. */
  ghost predicate TelegramUnique(users: map<int, Row>) {
    forall i, j | i in users && j in users && i != j ::
      && (Checked(users[i].profile.telegramId) ==> users[j].profile.telegramId != users[i].profile.telegramId)
      && (Checked(users[i].profile.telegramChatId) ==>
            users[j].profile.telegramChatId != users[i].profile.telegramChatId)
  }

  /** No two users share a phone number or an address. */
  ghost predicate LoginsUnique(users: map<int, Row>) {
    forall i, j | i in users && j in users && i != j ::
      && users[j].profile.phone != users[i].profile.phone
      && (users[i].profile.email.Some? ==> users[j].profile.email != users[i].profile.email)
  }

  ghost predicate Inv(ns: Namespace, s: State) {
    CacheCurrent(ns, s) && SerialIds(s) && TelegramUnique(s.users) && LoginsUnique(s.users)
  }

  lemma PatchKeepsUnique(users: map<int, Row>, userId: int, patch: Patch)
    requires userId in users && TelegramUnique(users) && LoginsUnique(users)
    requires Taken(users, patch) == None && !Clashes(users, userId, PatchedProfile(users[userId].profile, patch))
    ensures TelegramUnique(users[userId := PatchedRow(users[userId], patch)])
    ensures LoginsUnique(users[userId := PatchedRow(users[userId], patch)])
  {
    var row := PatchedRow(users[userId], patch);
    forall i | i in users && i != userId
      ensures users[i].profile.phone != row.profile.phone
      ensures row.profile.email.Some? ==> users[i].profile.email != row.profile.email
    {
    }
    forall i | i in users && i != userId
      ensures Checked(row.profile.telegramId) ==> users[i].profile.telegramId != row.profile.telegramId
      ensures Checked(row.profile.telegramChatId) ==> users[i].profile.telegramChatId != row.profile.telegramChatId
    {
      assert patch.telegramId.Set? ==> patch.telegramId.value == row.profile.telegramId;
      assert patch.telegramChatId.Set? ==> patch.telegramChatId.value == row.profile.telegramChatId;
    }
  }

  lemma UpdateKeepsInv(ns: Namespace, s: State, userId: int, patch: Patch)
    requires Inv(ns, s) && LeavesStatus(patch)
    ensures Inv(ns, Update(ns, s, userId, patch).0)
  {
    UpdateWritesOnlyThePatch(ns, s, userId, patch);
    UpdateKeepsCacheIff(ns, s, userId, patch);
    if Update(ns, s, userId, patch).1.Success? {
      PatchKeepsUnique(s.users, userId, patch);
    }
  }

  lemma CreateKeepsInv(ns: Namespace, s: State, phone: string, email: Option<string>, details: map<string, string>,
                       now: int)
    requires Inv(ns, s)
    ensures Inv(ns, Create(s, phone, email, details, now).0)
  {
    CreateKeepsCache(ns, s, phone, email, details, now);
  }

  /** A user is created if and only if nobody has the number or the address: not verified, not banned, offline since
      now, and so the next `findById` says.  Other users stay. */
  lemma CreateIsReadBack(ns: Namespace, s: State, phone: string, email: Option<string>, details: map<string, string>,
                         now: int)
    requires Inv(ns, s)
    ensures var (s', created) := Create(s, phone, email, details, now);
            var profile := Profile(phone, email, None, None, false, false, details);
            && (created.Success? <==> forall id | id in s.users ::
                  && s.users[id].profile.phone != phone
                  && (email.Some? ==> s.users[id].profile.email != email))
            && (created.Failure? ==> s'.users == s.users && created.error == UniqueViolation)
            && (created.Success? ==>
                  && created.value !in s.users
                  && s'.users == s.users[created.value := Row(profile, None, Status(false, now))]
                  && FindById(ns, s', created.value).1 == Success(Entity(profile, Undefined, Status(false, now))))
            && s'.roles == s.roles
  {
    CreateKeepsInv(ns, s, phone, email, details, now);
    var (s', created) := Create(s, phone, email, details, now);
    if created.Success? {
      FindByIdIsDirectRead(ns, s', created.value);
    }
  }

  /** Calls about an absent user write no row: an online status is dropped, and the others refuse. */
  lemma AbsentUsersStayAbsent(ns: Namespace, s: State, userId: int, flag: bool, now: int, patch: Patch, role: Role)
    requires CacheCurrent(ns, s) && userId !in s.users
    ensures var verified, banned := UpdateVerifiedStatus(ns, s, userId, flag), UpdateBanStatus(ns, s, userId, flag);
            && UpdateOnlineStatus(ns, s, userId, flag, now).users == s.users
            && verified == (s, Some(UserNotFound)) && banned == (s, Some(UserNotFound))
            && Update(ns, s, userId, patch).0.users == s.users && Update(ns, s, userId, patch).1.Failure?
            && AddRole(ns, s, userId, role).0.roles == s.roles && AddRole(ns, s, userId, role).1.Some?
  {
    UpdateWritesOnlyThePatch(ns, s, userId, patch);
    ReadIsCurrent(ns, s, UserRoles(userId));
  }

  lemma FlagKeepsInv(ns: Namespace, s: State, userId: int, profile: Profile)
    requires Inv(ns, s) && userId in s.users
    requires profile == s.users[userId].profile.(verified := profile.verified, isBanned := profile.isBanned)
    ensures Inv(ns, WithProfile(ns, s, userId, profile))
  {
    RowWriteKeepsCache(ns, s, userId, s.users[userId].(profile := profile), UserProfile(userId));
  }

  lemma FlagsKeepInv(ns: Namespace, s: State, userId: int, flag: bool)
    requires Inv(ns, s)
    ensures Inv(ns, UpdateVerifiedStatus(ns, s, userId, flag).0)
    ensures Inv(ns, UpdateBanStatus(ns, s, userId, flag).0)
  {
    if userId in s.users {
      FlagKeepsInv(ns, s, userId, s.users[userId].profile.(verified := flag));
      FlagKeepsInv(ns, s, userId, s.users[userId].profile.(isBanned := flag));
    }
  }

  lemma OnlineKeepsInv(ns: Namespace, s: State, userId: int, isOnline: bool, now: int)
    requires Inv(ns, s)
    ensures Inv(ns, UpdateOnlineStatus(ns, s, userId, isOnline, now))
  {
    OnlineKeepsCache(ns, s, userId, isOnline, now);
  }

  lemma ReadsKeepInv(ns: Namespace, s: State, userId: int)
    requires Inv(ns, s)
    ensures Inv(ns, FindById(ns, s, userId).0)
    ensures Inv(ns, Read(ns, s, UserRoles(userId)).0)
  {
    FindByIdIsDirectRead(ns, s, userId);
    ReadIsCurrent(ns, s, UserRoles(userId));
  }

  lemma RolesKeepInv(ns: Namespace, s: State, userId: int, role: Role)
    requires Inv(ns, s)
    ensures Inv(ns, AddRole(ns, s, userId, role).0)
    ensures Inv(ns, RemoveRole(ns, s, userId, role))
  {
    RolesAreExact(ns, s, userId, role, userId);
  }

  lemma NextKeepsInv(ns: Namespace, s: State, e: UserEvent)
    requires Inv(ns, s) && Ordinary(e)
    ensures Inv(ns, Next(ns, s, e))
  {
    match e
    case FindCall(userId) => ReadsKeepInv(ns, s, userId);
    case RolesCall(userId) => ReadsKeepInv(ns, s, userId);
    case CreateCall(phone, email, details, now) => CreateKeepsInv(ns, s, phone, email, details, now);
    case UpdateCall(userId, patch) => UpdateKeepsInv(ns, s, userId, patch);
    case OnlineCall(userId, isOnline, now) => OnlineKeepsInv(ns, s, userId, isOnline, now);
    case VerifyCall(userId, verified) => FlagsKeepInv(ns, s, userId, verified);
    case BanCall(userId, isBanned) => FlagsKeepInv(ns, s, userId, isBanned);
    case AddRoleCall(userId, role) => RolesKeepInv(ns, s, userId, role);
    case RemoveRoleCall(userId, role) => RolesKeepInv(ns, s, userId, role);
  }

  lemma {:induction false} PlayKeepsInv(ns: Namespace, s: State, events: seq<UserEvent>)
    requires Inv(ns, s) && forall e :: e in events ==> Ordinary(e)
    ensures Inv(ns, Play(ns, s, events))
    decreases |events|
  {
    if events != [] {
      NextKeepsInv(ns, s, events[0]);
      PlayKeepsInv(ns, Next(ns, s, events[0]), events[1..]);
    }
  }

  /** After every run `findById` is a direct read, absent users are nowhere in the cache, and accounts are unique. */
  lemma UsersAreCurrent(ns: Namespace, events: seq<UserEvent>, userId: int)
    requires forall e :: e in events ==> Ordinary(e)
    ensures var s := Play(ns, START, events);
            var user := FindById(ns, s, userId).1;
            && (user.Success? <==> userId in s.users)
            && (user.Success? ==> user.value == DirectRead(s.users[userId]).(telegramUsername := Undefined))
            && (userId !in s.users ==>
                  Name(ns, UserProfile(userId)) !in s.store && Name(ns, UserStatus(userId)) !in s.store)
            && TelegramUnique(s.users) && LoginsUnique(s.users)
  {
    var s := Play(ns, START, events);
    PlayKeepsInv(ns, START, events);
    FindByIdIsDirectRead(ns, s, userId);
    assert IsUserKey(UserProfile(userId)) && IsUserKey(UserStatus(userId));
  }

  // ---------------------------------------------------------------- a lost column

  /** Sets a telegram name, which no check looks at. */
  const TELEGRAM_NAME := Patch(Undefined, Undefined, Undefined, Undefined, Set(Some("@a")), Undefined, Undefined, map[],
                               Undefined, Undefined)

  const LINK_TELEGRAM := [CreateCall("7", None, map[], 0), UpdateCall(1, TELEGRAM_NAME)]

  lemma CreatedFirst(ns: Namespace)
    ensures var s := Next(ns, START, LINK_TELEGRAM[0]);
            s.users == map[1 := Row(Profile("7", None, None, None, false, false, map[]), None, Status(false, 0))]
  {
  }

  lemma NameIsAccepted(users: map<int, Row>)
    requires users.Keys == {1}
    ensures Acceptable(users, 1, TELEGRAM_NAME)
  {
  }

  /** The loss does occur: a user is created and links a telegram name; the row has it and `findById` does not. */
  lemma LostTelegramUsernameIsReachable(ns: Namespace)
    ensures var s := Play(ns, START, LINK_TELEGRAM);
            var user := FindById(ns, s, 1).1;
            && 1 in s.users && s.users[1].telegramUsername == Some("@a")
            && user.Success? && user.value.telegramUsername == Undefined
            && user.value != DirectRead(s.users[1])
  {
    var s1 := Next(ns, START, LINK_TELEGRAM[0]);
    var s2 := Next(ns, s1, LINK_TELEGRAM[1]);
    CreatedFirst(ns);
    NextKeepsInv(ns, START, LINK_TELEGRAM[0]);
    NameIsAccepted(s1.users);
    UpdateWritesOnlyThePatch(ns, s1, 1, TELEGRAM_NAME);
    NextKeepsInv(ns, s1, LINK_TELEGRAM[1]);
    FindByIdIsDirectRead(ns, s2, 1);
    assert Play(ns, s2, []) == s2;
    assert Play(ns, s1, LINK_TELEGRAM[1..]) == Play(ns, s2, LINK_TELEGRAM[1..][1..]);
  }

  // ---------------------------------------------------------------- an outdated status

  /** Sets a status column, which no caller of `update` does. */
  const GO_ONLINE := TELEGRAM_NAME.(telegramUsername := Undefined, isOnline := Set(true))

  /** The cache can go out of date: a user is created and patched online; the row is online and `findById` says not. */
  lemma OutdatedStatusIsReachable(ns: Namespace)
    ensures var s := Play(ns, START, [LINK_TELEGRAM[0], UpdateCall(1, GO_ONLINE)]);
            var user := FindById(ns, s, 1).1;
            && 1 in s.users && s.users[1].status.isOnline
            && user.Success? && !user.value.status.isOnline
  {
    var events := [LINK_TELEGRAM[0], UpdateCall(1, GO_ONLINE)];
    var s1 := Next(ns, START, events[0]);
    var s2 := Next(ns, s1, events[1]);
    CreatedFirst(ns);
    NextKeepsInv(ns, START, events[0]);
    GoOnlineLeavesStatus(ns, s1);
    assert Play(ns, s2, []) == s2;
    assert Play(ns, s1, events[1..]) == Play(ns, s2, events[1..][1..]);
  }

  lemma GoOnlineIsAccepted(users: map<int, Row>)
    requires users.Keys == {1}
    ensures Acceptable(users, 1, GO_ONLINE)
  {
  }

  lemma GoOnlineLeavesStatus(ns: Namespace, s: State)
    requires CacheCurrent(ns, s) && s.users.Keys == {1} && !s.users[1].status.isOnline
    ensures var s' := Update(ns, s, 1, GO_ONLINE).0;
            var user := FindById(ns, s', 1).1;
            && 1 in s'.users && s'.users[1].status.isOnline
            && user.Success? && !user.value.status.isOnline
  {
    var s1 := FindById(ns, s, 1).0;
    var s' := Update(ns, s, 1, GO_ONLINE).0;
    FindByIdIsDirectRead(ns, s, 1);
    GoOnlineIsAccepted(s.users);
    UpdateWritesOnlyThePatch(ns, s, 1, GO_ONLINE);
    NameInjective(ns, UserProfile(1), UserStatus(1));
    assert IsUserKey(UserStatus(1));
    assert Queries(s1.users, s1.roles)(UserStatus(1)) == Some(s1.store[Name(ns, UserStatus(1))]);
    assert s'.store == s1.store - {Name(ns, UserProfile(1))};
  }
}
