/** The service that owns the user tables and fills, deletes and rewrites their cache entries. */
module UserServices {
  import opened Prelude
  import opened Redis
  import opened CacheKeys
  import opened Users
  import UserTheorems

  class UsersService {
    const ns: Namespace
    const redisService: RedisService<Cached>
    var users: map<int, Row>
    var roles: seq<(int, Role)>
    var nextId: int

    ghost predicate Valid()
      reads this, redisService
    {
      redisService.prefix == Prefix(ns)
    }

    ghost function View(): State
      reads this, redisService
    {
      State(users, roles, nextId, redisService.store)
    }

    constructor (ns: Namespace)
      ensures Valid() && fresh(redisService) && View() == START
    {
      this.ns, users, roles, nextId := ns, map[], [], 1;
      redisService := new RedisService(Prefix(ns));
    }

    method FindById(userId: int) returns (user: Result<Entity, UserError>)
      requires Valid()
      modifies redisService
      ensures Valid() && (View(), user) == Users.FindById(ns, old(View()), userId)
    {
      var profileRow := if userId in users then Some(ProfileValue(users[userId].profile)) else None;
      var profileData := redisService.GetOrSet(Render(UserProfile(userId)), profileRow);
      if profileData.None? || !profileData.value.ProfileValue? {
        return Failure(UserNotFound);
      }
      var statusRow := if userId in users then Some(StatusValue(users[userId].status)) else None;
      var statusData := redisService.GetOrSet(Render(UserStatus(userId)), statusRow);
      if statusData.None? || !statusData.value.StatusValue? {
        return Failure(UserNotFound);
      }
      return Success(Entity(profileData.value.profile, Undefined, statusData.value.status));
    }

    /** The checks at the head of `update`. */
    method ValidateUnique(update: Patch) returns (error: Option<UserError>)
      ensures error == Taken(users, update)
    {
      if update.phone.Set? && update.phone.value != "" {
        if exists id :: id in users && users[id].profile.phone == update.phone.value {
          return Some(PhoneExists);
        }
      }
      if update.email.Set? && update.email.value.Some? && update.email.value.value != "" {
        if exists id :: id in users && users[id].profile.email == update.email.value {
          return Some(EmailExists);
        }
      }
      if update.telegramId.Set? && update.telegramId.value.Some? && update.telegramId.value.value != 0 {
        if exists id :: id in users && users[id].profile.telegramId == update.telegramId.value {
          return Some(TelegramIdExists);
        }
      }
      if update.telegramChatId.Set? && update.telegramChatId.value.Some? && update.telegramChatId.value.value != 0 {
        if exists id :: id in users && users[id].profile.telegramChatId == update.telegramChatId.value {
          return Some(TelegramChatExists);
        }
      }
      return None;
    }

    method Update(userId: int, update: Patch) returns (result: Result<Entity, UserError>)
      requires Valid()
      modifies this`users, redisService
      ensures Valid() && (View(), result) == Users.Update(ns, old(View()), userId, update)
      ensures result.Success? && CacheCurrent(ns, old(View())) ==>
                && userId in old(users) && userId in users
                && UserTheorems.ProfileFollows(update, old(users)[userId].profile, users[userId].profile)
    {
      if CacheCurrent(ns, View()) {
        UserTheorems.PatchIsFollowed(ns, View(), userId, update);
      }
      var taken := ValidateUnique(update);
      if taken.Some? {
        return Failure(taken.value);
      }
      var user := FindById(userId);
      if user.Failure? {
        return Failure(user.error);
      }
      redisService.Delete(Render(UserProfile(userId)));
      var entity := Assigned(user.value, update);
      if userId !in users {
        return Failure(UserNotFound);
      }
      if Clashes(users, userId, entity.profile) {
        return Failure(UniqueViolation);
      }
      users := users[userId := SavedRow(users[userId], entity)];
      return Success(entity);
    }

    method UpdateOnlineStatus(userId: int, isOnline: bool, now: int)
      requires Valid()
      modifies this`users, redisService
      ensures Valid() && View() == Users.UpdateOnlineStatus(ns, old(View()), userId, isOnline, now)
    {
      if userId in users {
        users := users[userId := users[userId].(status := Status(isOnline, now))];
      }
      redisService.Delete(Render(UserStatus(userId)));
    }

    method UpdateVerifiedStatus(userId: int, verified: bool) returns (error: Option<UserError>)
      requires Valid()
      modifies this`users, redisService
      ensures Valid() && (View(), error) == Users.UpdateVerifiedStatus(ns, old(View()), userId, verified)
    {
      if userId !in users {
        return Some(UserNotFound);
      }
      var profile := users[userId].profile;
      users := users[userId := users[userId].(profile := profile.(verified := verified))];
      redisService.Delete(Render(UserProfile(userId)));
      return None;
    }

    method UpdateBanStatus(userId: int, isBanned: bool) returns (error: Option<UserError>)
      requires Valid()
      modifies this`users, redisService
      ensures Valid() && (View(), error) == Users.UpdateBanStatus(ns, old(View()), userId, isBanned)
    {
      if userId !in users {
        return Some(UserNotFound);
      }
      var profile := users[userId].profile;
      users := users[userId := users[userId].(profile := profile.(isBanned := isBanned))];
      redisService.Delete(Render(UserProfile(userId)));
      return None;
    }

    method Create(phone: string, email: Option<string>, details: map<string, string>, now: int)
      returns (result: Result<int, UserError>)
      modifies this`users, this`nextId
      ensures (View(), result) == Users.Create(old(View()), phone, email, details, now)
    {
      var id := nextId;
      nextId := nextId + 1;
      var profile := Profile(phone, email, None, None, false, false, details);
      if Clashes(users, id, profile) {
        return Failure(UniqueViolation);
      }
      users := users[id := Row(profile, None, Status(false, now))];
      return Success(id);
    }

    method AddRole(userId: int, role: Role) returns (error: Option<UserError>)
      requires Valid()
      modifies this`roles, redisService
      ensures Valid() && (View(), error) == Users.AddRole(ns, old(View()), userId, role)
    {
      var cached := redisService.GetOrSet(Render(UserRoles(userId)), Some(RolesValue(RolesOf(roles, userId))));
      if cached.Some? && cached.value.RolesValue? && role in cached.value.roles {
        return Some(RoleExists);
      }
      if userId !in users {
        return Some(UserNotFound);
      }
      roles := roles + [(userId, role)];
      redisService.Delete(Render(UserRoles(userId)));
      return None;
    }

    method RemoveRole(userId: int, role: Role)
      requires Valid()
      modifies this`roles, redisService
      ensures Valid() && View() == Users.RemoveRole(ns, old(View()), userId, role)
    {
      roles := WithoutRole(roles, userId, role);
      redisService.Delete(Render(UserRoles(userId)));
    }
  }
}
