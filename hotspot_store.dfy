// The hotspot profile and user handlers over an in-memory store: the
// hotspot_profile and hotspot_user tables and the profile auto-increment counter.
// User ids come from the id generator and are a parameter of the handlers.
module HotspotStore {
  import opened Api
  import opened HotspotDomain
  import opened HotspotRequests
  import opened HotspotRules
  import Keyed

  /** What the tables always satisfy: rows stored under their own ids,
      profile ids below the counter, and the unique indexes on the profile
      name and the user name. */
  ghost predicate TablesValid(profiles: map<int, HotspotProfile>, users: map<int, HotspotUser>, nextProfileId: int) {
    1 <= nextProfileId
    && (forall id :: id in profiles ==> profiles[id].id == id && id < nextProfileId)
    && (forall id :: id in users ==> users[id].id == id)
    && Keyed.Unique(profiles, ProfileName)
    && Keyed.Unique(users, UserName)
  }

  /** Writing a profile row under its own id keeps the tables valid when
      the id is in use or is the counter's (which then moves past it), and
      the row keeps its old name or carries one no other profile has. */
  lemma {:induction false} ValidAfterProfileWrite(profiles: map<int, HotspotProfile>, users: map<int, HotspotUser>, nextProfileId: int,
                                                  row: HotspotProfile)
    requires TablesValid(profiles, users, nextProfileId)
    requires row.id in profiles || row.id == nextProfileId
    requires (row.id in profiles && row.name == profiles[row.id].name)
             || !Keyed.Taken(profiles, ProfileName, row.name, Some(row.id))
    ensures TablesValid(profiles[row.id := row], users, if row.id in profiles then nextProfileId else nextProfileId + 1)
  {
    Keyed.UniqueAfterWrite(profiles, ProfileName, row.id, row);
  }

  /** Writing a user row under its own id keeps the tables valid when the row
      keeps the old row's name or carries one no other user has. */
  lemma {:induction false} ValidAfterUserWrite(profiles: map<int, HotspotProfile>, users: map<int, HotspotUser>, nextProfileId: int,
                                               row: HotspotUser)
    requires TablesValid(profiles, users, nextProfileId)
    requires (row.id in users && row.username == users[row.id].username)
             || !Keyed.Taken(users, UserName, row.username, Some(row.id))
    ensures TablesValid(profiles, users[row.id := row], nextProfileId)
  {
    Keyed.UniqueAfterWrite(users, UserName, row.id, row);
  }

  class HotspotStore {
    var profiles: map<int, HotspotProfile>
    var users: map<int, HotspotUser>
    var nextProfileId: int

    /** The store's invariant: TablesValid over its fields. */
    ghost predicate Valid()
      reads this
    {
      TablesValid(profiles, users, nextProfileId)
    }

    /** An empty store. */
    constructor()
      ensures Valid()
      ensures profiles == map[] && users == map[] && nextProfileId == 1
    {
      profiles := map[];
      users := map[];
      nextProfileId := 1;
    }

    /** CreateHotspotProfile: refused when another profile has the (trimmed)
        name; otherwise the defaulted profile is inserted under the next id. */
    method CreateHotspotProfile(req: HotspotProfileRequest, now: Time) returns (r: Result<HotspotProfile, ApiError>)
      requires Valid()
      modifies this
      ensures Valid()
      ensures users == old(users)
      ensures var p := ToHotspotProfile(req);
              if Keyed.Taken(old(profiles), ProfileName, p.name, None) then r == Err(NameExists) && unchanged(this)
              else r == Ok(DefaultedProfile(p, now).(id := old(nextProfileId)))
                   && profiles == old(profiles)[old(nextProfileId) := r.value]
                   && nextProfileId == old(nextProfileId) + 1
    {
      var p := ToHotspotProfile(req);
      if Keyed.Taken(profiles, ProfileName, p.name, None) {
        return Err(NameExists);
      }
      var row := DefaultedProfile(p, now).(id := nextProfileId);
      Keyed.TakenByOther(profiles, ProfileName, row.name, row.id);
      ValidAfterProfileWrite(profiles, users, nextProfileId, row);
      profiles := profiles[row.id := row];
      nextProfileId := nextProfileId + 1;
      return Ok(row);
    }

    /** UpdateHotspotProfile: NOT_FOUND for an unknown id; refused when the
        request renames the profile to a name another profile has; otherwise
        the updates map is applied to the row. */
    method UpdateHotspotProfile(id: int, req: HotspotProfileRequest, now: Time) returns (r: Result<HotspotProfile, ApiError>)
      requires Valid()
      modifies this
      ensures Valid()
      ensures users == old(users) && nextProfileId == old(nextProfileId)
      ensures r.Err? ==> unchanged(this)
      ensures id !in old(profiles) ==> r == Err(NotFound)
      ensures id in old(profiles) ==>
                var p, d := old(profiles)[id], ToHotspotProfile(req);
                if d.name != "" && d.name != p.name && Keyed.Taken(old(profiles), ProfileName, d.name, Some(id))
                then r == Err(NameExists)
                else r == Ok(UpdatedProfile(p, d, now)) && profiles == old(profiles)[id := r.value]
    {
      if id !in profiles {
        return Err(NotFound);
      }
      var p := profiles[id];
      var d := ToHotspotProfile(req);
      if d.name != "" && d.name != p.name && Keyed.Taken(profiles, ProfileName, d.name, Some(id)) {
        return Err(NameExists);
      }
      var row := ApplyProfileUpdates(p, ProfileUpdates(d, now));
      ProfileUpdateEffect(p, d, now);
      ValidAfterProfileWrite(profiles, users, nextProfileId, row);
      profiles := profiles[id := row];
      return Ok(row);
    }

    /** DeleteHotspotProfile: refused with the number of users on the profile
        while there are any; otherwise the row is removed (an unknown id is
        removed as well, and the answer is still success). */
    method DeleteHotspotProfile(id: int) returns (r: Outcome<ApiError>)
      requires Valid()
      modifies this
      ensures Valid()
      ensures users == old(users) && nextProfileId == old(nextProfileId)
      ensures var n := |Keyed.Referencing(old(users), UserProfile, id)|;
              if n > 0 then r == Failed(InUse(n)) && unchanged(this)
              else r == Done && profiles == old(profiles) - {id}
    {
      var n := |Keyed.Referencing(users, UserProfile, id)|;
      if n > 0 {
        return Failed(InUse(n));
      }
      Keyed.UniqueAfterRemove(profiles, ProfileName, id);
      profiles := profiles - {id};
      return Done;
    }

    /** CreateHotspotUser: the checks of CreateUserRejection, then the user
        with its defaults (and, under MAC authentication, its user name as
        the missing password) is inserted under `newId` (an id already in use
        makes the insert fail); the answer carries no password. */
    method CreateHotspotUser(req: HotspotUserRequest, parsedExpire: Option<Time>, now: Time, newId: int)
      returns (r: Result<HotspotUser, ApiError>)
      requires Valid()
      modifies this
      ensures Valid()
      ensures profiles == old(profiles) && nextProfileId == old(nextProfileId)
      ensures r.Err? ==> unchanged(this)
      ensures var u := ToHotspotUser(req);
              var rejection := CreateUserRejection(old(profiles), old(users), u, parsedExpire);
              if rejection.Some? then r == Err(rejection.value)
              else if newId in old(users) then r == Err(CreateFailed)
              else var row := CreatedUser(u, old(profiles)[u.profileId], newId, parsedExpire.value, now);
                   r == Ok(Redacted(row)) && users == old(users)[newId := row]
    {
      var u := ToHotspotUser(req);
      var rejection := CreateUserRejection(profiles, users, u, parsedExpire);
      if rejection.Some? {
        return Err(rejection.value);
      }
      if newId in users {
        return Err(CreateFailed);
      }
      var row := CreatedUser(u, profiles[u.profileId], newId, parsedExpire.value, now);
      Keyed.TakenByOther(users, UserName, row.username, newId);
      ValidAfterUserWrite(profiles, users, nextProfileId, row);
      users := users[newId := row];
      return Ok(Redacted(row));
    }

    /** UpdateHotspotUser: NOT_FOUND for an unknown id; refused when the request
        renames the user to a name another user has, or carries an expiry
        that does not parse; otherwise the updates map is applied to the row.
        The profile the request names is not looked up. The answer carries no
        password. */
    method UpdateHotspotUser(id: int, req: HotspotUserRequest, expire: TimeInput, now: Time)
      returns (r: Result<HotspotUser, ApiError>)
      requires Valid()
      modifies this
      ensures Valid()
      ensures profiles == old(profiles) && nextProfileId == old(nextProfileId)
      ensures r.Err? ==> unchanged(this)
      ensures id !in old(users) ==> r == Err(NotFound)
      ensures id in old(users) ==>
                var u, d := old(users)[id], ToHotspotUser(req);
                if d.username != "" && d.username != u.username && Keyed.Taken(old(users), UserName, d.username, Some(id))
                then r == Err(UsernameExists)
                else if expire.Unparsable? then r == Err(InvalidExpireTime)
                else r == Ok(Redacted(UpdatedUser(u, d, expire, now)))
                     && users == old(users)[id := UpdatedUser(u, d, expire, now)]
    {
      if id !in users {
        return Err(NotFound);
      }
      var u := users[id];
      var d := ToHotspotUser(req);
      if d.username != "" && d.username != u.username && Keyed.Taken(users, UserName, d.username, Some(id)) {
        return Err(UsernameExists);
      }
      var updates := UserUpdates(d, expire, now);
      if updates.Err? {
        return Err(updates.error);
      }
      var row := ApplyUserUpdates(u, updates.value);
      UserUpdateEffect(u, d, expire, now);
      ValidAfterUserWrite(profiles, users, nextProfileId, row);
      users := users[id := row];
      return Ok(Redacted(row));
    }
  }
}
