/** `GET /api/users/profile`: which user the caller is, found by session id,
    cookie or session email, and the five fields of the profile returned. */
module ProfileRoute {
  import opened Wrappers
  import opened Strings
  import opened Seqs
  import opened Records

  /** The parts of the NextAuth session the handlers read. */
  datatype SessionUser = SessionUser(id: Option<string>, email: Option<string>)
  datatype Session = Session(user: Option<SessionUser>)

  /** What the profile holds: no password, no other field. */
  datatype Profile = Profile(id: string, name: string, email: Option<string>, image: Option<string>, role: string)

  /** `a || null`. */
  function OrNull(a: Option<string>): (r: Option<string>)
    ensures r.Some? <==> Truthy(a)
    ensures r.Some? ==> r == a
  {
    if Truthy(a) then a else None
  }

  /** The profile of a stored user with the given `image`: the name falls back
      to the username and then to the part of the email before the first '@';
      the role falls back to the permission and then to 'user'. A user without
      name, username and email cannot be shaped (the handler's 500). */
  function Shape(u: User, image: Option<string>): (r: Result<Profile>)
    ensures r.Failure? <==> !Truthy(u.name) && !Truthy(u.username) && u.email.None?
    ensures r.Failure? ==> r.error.status == 500
    ensures r.Success? ==> r.value.id == u.id && r.value.email == u.email && r.value.image == image
    ensures r.Success? ==> r.value.role == (if Truthy(u.role) then u.role.value
                                            else if Truthy(u.permission) then u.permission.value else "user")
    ensures r.Success? && Truthy(u.name) ==> r.value.name == u.name.value
    ensures r.Success? && !Truthy(u.name) && Truthy(u.username) ==> r.value.name == u.username.value
    ensures r.Success? && !Truthy(u.name) && !Truthy(u.username) ==>
      StartsWith(u.email.value, r.value.name) && '@' !in r.value.name &&
      (|r.value.name| == |u.email.value| || u.email.value[|r.value.name|] == '@')
  {
    var role := Or(u.role, Or(u.permission, "user"));
    if Truthy(u.name) then Success(Profile(u.id, u.name.value, u.email, image, role))
    else if Truthy(u.username) then Success(Profile(u.id, u.username.value, u.email, image, role))
    else if u.email.Some? then
      SplitHead(u.email.value, '@');
      Success(Profile(u.id, Split(u.email.value, '@')[0], u.email, image, role))
    else Failure(HttpError(500, "获取用户资料失败"))
  }

  /** The user id the handler works with: the session's id when it is set,
      otherwise the `user_id` cookie. */
  function CallerId(session: Option<Session>, cookie: Option<string>): (r: Option<string>)
    ensures session.Some? && session.value.user.Some? && Truthy(session.value.user.value.id) ==>
      r == session.value.user.value.id
    ensures !(session.Some? && session.value.user.Some? && Truthy(session.value.user.value.id)) ==>
      r == (if Truthy(cookie) then cookie else None)
  {
    if session.Some? && session.value.user.Some? && Truthy(session.value.user.value.id) then session.value.user.value.id
    else if Truthy(cookie) then cookie
    else None
  }

  function SessionEmail(session: Option<Session>): Option<string> {
    if session.Some? && session.value.user.Some? then session.value.user.value.email else None
  }

  function HasId(id: string): User -> bool {
    (u: User) => u.id == id
  }

  function HasEmail(email: string): User -> bool {
    (u: User) => u.email == Some(email)
  }

  /** `findOne({_id})`, then `findOne({email})` with the session email when
      the first finds nothing. */
  function Lookup(users: seq<User>, id: string, email: Option<string>): (r: Option<User>)
    ensures Find(users, HasId(id)).Some? ==> r == Find(users, HasId(id))
    ensures Find(users, HasId(id)).None? ==> r == (if Truthy(email) then Find(users, HasEmail(email.value)) else None)
  {
    var byId := Find(users, HasId(id));
    if byId.None? && Truthy(email) then Find(users, HasEmail(email.value)) else byId
  }

  /** The whole handler. `validId` is `ObjectId.isValid`. */
  function Get(session: Option<Session>, cookie: Option<string>, users: seq<User>, validId: string -> bool): (r: Result<Profile>)
    ensures CallerId(session, cookie).None? ==> r.Failure? && r.error.status == 401
    ensures CallerId(session, cookie).Some? && !validId(CallerId(session, cookie).value) ==>
      r.Failure? && r.error.status == 400
    ensures CallerId(session, cookie).Some? && validId(CallerId(session, cookie).value) ==>
      var found := Lookup(users, CallerId(session, cookie).value, SessionEmail(session));
      r == if found.None? then Failure(HttpError(404, "用户不存在")) else Shape(found.value, OrNull(found.value.avatar))
  {
    var userId := CallerId(session, cookie);
    if userId.None? then Failure(HttpError(401, "未登录或会话已过期"))
    else if !validId(userId.value) then Failure(HttpError(400, "无效的用户ID格式"))
    else
      var user := Lookup(users, userId.value, SessionEmail(session));
      if user.None? then Failure(HttpError(404, "用户不存在"))
      else Shape(user.value, OrNull(user.value.avatar))
  }

  /** A successful profile is that of a stored user: the one with the caller's
      id when there is one, otherwise the first with the session email. */
  lemma ProfileOfStoredUser(session: Option<Session>, cookie: Option<string>, users: seq<User>, validId: string -> bool)
    requires Get(session, cookie, users, validId).Success?
    ensures var p := Get(session, cookie, users, validId).value;
      var id := CallerId(session, cookie).value;
      exists i :: 0 <= i < |users| && users[i].id == p.id && users[i].email == p.email &&
                  p.image == OrNull(users[i].avatar) &&
                  (users[i].id == id || (SessionEmail(session).Some? && users[i].email == SessionEmail(session)))
  {
    var id := CallerId(session, cookie).value;
    var u := Lookup(users, id, SessionEmail(session)).value;
    var byId := Find(users, HasId(id));
    if byId.Some? {
      var i :| 0 <= i < |users| && users[i] == byId.value && HasId(id)(users[i]) && forall j :: 0 <= j < i ==> !HasId(id)(users[j]);
    } else {
      var e := SessionEmail(session).value;
      var i :| 0 <= i < |users| && users[i] == u && HasEmail(e)(users[i]) && forall j :: 0 <= j < i ==> !HasEmail(e)(users[j]);
    }
  }
}
