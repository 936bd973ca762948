/** `POST /api/users/update-avatar`: the check ladder, the in-place update of
    the caller's avatar and the profile returned. */
module AvatarRoute {
  import opened Wrappers
  import opened Strings
  import opened Seqs
  import opened Records
  import opened UsersRoute
  import opened ProfileRoute

  /** `avatar || image || null`. */
  function ProfileImage(u: User): (r: Option<string>)
    ensures Truthy(u.avatar) ==> r == u.avatar
    ensures !Truthy(u.avatar) ==> r == OrNull(u.image)
  {
    if Truthy(u.avatar) then u.avatar else OrNull(u.image)
  }

  /** The whole handler on the user collection: no session is a 401, a
      missing or invalid id a 400, an empty `avatarUrl` a 400, all before any
      change; an id no user has is a 404 with nothing changed; otherwise the
      caller's avatar, image and update time are set and the profile shows
      the new avatar, with the same name and role fallbacks as the profile
      route. `validId` is `ObjectId.isValid`. */
  method UpdateAvatar(store: UserStore, session: Option<Session>, avatarUrl: Option<string>,
                      validId: string -> bool, now: int) returns (r: Result<Profile>)
    requires store.Valid()
    modifies store
    ensures store.Valid()
    ensures session.None? || session.value.user.None? ==>
      r.Failure? && r.error.status == 401 && store.users == old(store.users)
    ensures session.Some? && session.value.user.Some? ==>
      var id := session.value.user.value.id;
      if id.None? || !validId(id.value) || !Truthy(avatarUrl) then
        r.Failure? && r.error.status == 400 && store.users == old(store.users)
      else if forall i :: 0 <= i < |old(store.users)| ==> old(store.users)[i].id != id.value then
        r.Failure? && r.error.status == 404 && store.users == old(store.users)
      else
        store.users == WithAvatar(old(store.users), id.value, avatarUrl.value, now) &&
        exists u :: Find(store.users, HasId(id.value)) == Some(u) && r == Shape(u, avatarUrl) &&
                    u.avatar == avatarUrl
  {
    if session.None? || session.value.user.None? {
      return Failure(HttpError(401, "未登录"));
    }
    var userId := session.value.user.value.id;
    if userId.None? || !validId(userId.value) {
      return Failure(HttpError(400, "无效的用户ID格式"));
    }
    if !Truthy(avatarUrl) {
      return Failure(HttpError(400, "头像URL不能为空"));
    }
    ghost var before := store.users;
    var matched := store.SetAvatar(userId.value, avatarUrl.value, now);
    if matched == 0 {
      assert store.users == before;
      return Failure(HttpError(404, "用户不存在"));
    }
    var updatedUser := Find(store.users, HasId(userId.value)).value;
    AvatarSet(before, userId.value, avatarUrl.value, now);
    r := Shape(updatedUser, ProfileImage(updatedUser));
  }

  /** After the update, the user with the id is found and carries the new
      avatar, image and update time. */
  lemma AvatarSet(users: seq<User>, id: string, url: string, now: int)
    requires exists i :: 0 <= i < |users| && users[i].id == id
    ensures var u := Find(WithAvatar(users, id, url, now), HasId(id));
      u.Some? && u.value.id == id && u.value.avatar == Some(url) && u.value.image == Some(url) && u.value.updatedAt == Some(now)
  {
    var w := WithAvatar(users, id, url, now);
    var i :| 0 <= i < |users| && users[i].id == id;
    assert HasId(id)(w[i]);
    var u := Find(w, HasId(id));
    var k :| 0 <= k < |w| && w[k] == u.value && HasId(id)(w[k]) && forall j :: 0 <= j < k ==> !HasId(id)(w[j]);
  }
}
