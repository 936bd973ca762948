/** `/api/users`: the listing newest first (`GET`) and the creation of a user
    with its uniqueness check and defaults (`POST`). */
module UsersRoute {
  import opened Wrappers
  import opened Strings
  import opened Seqs
  import opened Records

  /** `GET /api/users`: every user, newest first. */
  function List(users: seq<User>): (r: seq<User>)
    ensures multiset(r) == multiset(users)
    ensures SortedDesc(r, UserCreated)
  {
    SortDesc(users, UserCreated)
  }

  /** The body of a `POST`: only these fields are read. */
  datatype NewUser = NewUser(name: Option<string>, email: Option<string>, password: Option<string>,
                             role: Option<string>, status: Option<string>, avatar: Option<string>)

  predicate Complete(body: NewUser) {
    Truthy(body.name) && Truthy(body.email) && Truthy(body.password)
  }

  /** Some stored user already has the name or the email. */
  predicate Taken(users: seq<User>, name: string, email: string) {
    exists i :: 0 <= i < |users| && (users[i].name == Some(name) || users[i].email == Some(email))
  }

  /** The document a valid body is stored as. `hashed` is the bcrypt hash of
      the password. */
  function Record(body: NewUser, hashed: string, id: string, now: int): (u: User)
    requires Complete(body)
    ensures u.id == id && u.name == body.name && u.username == body.name && u.email == body.email
    ensures u.password == Some(hashed)
    ensures u.role == Some(Or(body.role, "user")) && u.status == Some(Or(body.status, "active"))
    ensures u.avatar == (if Truthy(body.avatar) then body.avatar else None)
    ensures u.permission == Some(if body.role == Some("admin") then "admin" else "user")
    ensures u.image.None? && u.updatedAt.None? && u.createdAt == now
  {
    User(id, body.name, body.name, body.email, Some(hashed), Some(Or(body.role, "user")),
         Some(Or(body.status, "active")), if Truthy(body.avatar) then body.avatar else None, None,
         Some(if body.role == Some("admin") then "admin" else "user"), now, None)
  }

  /** The stored permission is `admin` exactly when the stored role is. */
  lemma PermissionFollowsRole(body: NewUser, hashed: string, id: string, now: int)
    requires Complete(body)
    ensures var u := Record(body, hashed, id, now);
      u.permission == Some("admin") <==> u.role == Some("admin")
  {
  }

  /** No two users share an id, a name or an email. */
  predicate Unique(users: seq<User>) {
    forall i, j :: 0 <= i < j < |users| ==>
      users[i].id != users[j].id &&
      (users[i].name.Some? ==> users[i].name != users[j].name) &&
      (users[i].email.Some? ==> users[i].email != users[j].email)
  }

  /** Appending a record whose id is fresh and whose name and email are not
      taken keeps the collection free of shared ids, names and emails, so
      any sequence of successful creations does. */
  lemma InsertKeepsUnique(users: seq<User>, body: NewUser, hashed: string, id: string, now: int)
    requires Unique(users) && Complete(body)
    requires forall i :: 0 <= i < |users| ==> users[i].id != id
    requires !Taken(users, body.name.value, body.email.value)
    ensures Unique(users + [Record(body, hashed, id, now)])
  {
    var all := users + [Record(body, hashed, id, now)];
    forall i, j | 0 <= i < j < |all|
      ensures all[i].id != all[j].id && (all[i].name.Some? ==> all[i].name != all[j].name) &&
              (all[i].email.Some? ==> all[i].email != all[j].email)
    {
      if j == |users| {
        assert all[i] == users[i];
      }
    }
  }

  /** The `$set` of the avatar update on one user. */
  function SetFields(u: User, url: string, now: int): User {
    u.(avatar := Some(url), image := Some(url), updatedAt := Some(now))
  }

  /** The collection after the avatar update of the user with id `id`. */
  function WithAvatar(users: seq<User>, id: string, url: string, now: int): (r: seq<User>)
    ensures |r| == |users|
    ensures forall i :: 0 <= i < |users| ==> r[i] == if users[i].id == id then SetFields(users[i], url, now) else users[i]
    decreases |users|
  {
    if users == [] then []
    else [if users[0].id == id then SetFields(users[0], url, now) else users[0]] + WithAvatar(users[1..], id, url, now)
  }

  /** The avatar update keeps ids, names and emails unique. */
  lemma WithAvatarKeepsUnique(users: seq<User>, id: string, url: string, now: int)
    requires Unique(users)
    ensures Unique(WithAvatar(users, id, url, now))
  {
    var r := WithAvatar(users, id, url, now);
    assert forall i :: 0 <= i < |users| ==> r[i].id == users[i].id && r[i].name == users[i].name && r[i].email == users[i].email;
  }

  /** One of the first `n` users has the id `id`. */
  predicate HasUser(users: seq<User>, n: int, id: string)
    requires 0 <= n <= |users|
  {
    exists k :: 0 <= k < n && users[k].id == id
  }

  class UserStore {
    var users: seq<User>

    ghost predicate Valid()
      reads this
    {
      Unique(users)
    }

    constructor ()
      ensures Valid() && users == []
    {
      users := [];
    }

    /** `POST /api/users`: a field missing is a 400, a name or email in use is
        a 400, both without inserting; otherwise exactly one record is
        appended and its id returned with status 201. */
    method Post(body: NewUser, hash: string -> string, freshId: string, now: int) returns (r: Result<string>)
      requires Valid()
      requires forall i :: 0 <= i < |users| ==> users[i].id != freshId
      modifies this
      ensures Valid()
      ensures !Complete(body) ==> r.Failure? && r.error.status == 400 && users == old(users)
      ensures Complete(body) && Taken(old(users), body.name.value, body.email.value) ==>
        r.Failure? && r.error.status == 400 && users == old(users)
      ensures Complete(body) && !Taken(old(users), body.name.value, body.email.value) ==>
        r == Success(freshId) && users == old(users) + [Record(body, hash(body.password.value), freshId, now)]
    {
      if !Truthy(body.name) || !Truthy(body.email) || !Truthy(body.password) {
        return Failure(HttpError(400, "用户名、邮箱和密码不能为空"));
      }
      var existing := Find(users, (u: User) => u.name == body.name || u.email == body.email);
      if existing.Some? {
        return Failure(HttpError(400, "用户名或邮箱已存在"));
      }
      var hashedPassword := hash(body.password.value);
      var user := Record(body, hashedPassword, freshId, now);
      InsertKeepsUnique(users, body, hashedPassword, freshId, now);
      users := users + [user];
      r := Success(freshId);
    }

    /** The update of the user with the id, setting avatar and image to the
        URL and the update time to `now`: the number of users matched, and the
        collection after the update. */
    method SetAvatar(id: string, url: string, now: int) returns (matched: nat)
      requires Valid()
      modifies this
      ensures Valid()
      ensures matched == (if HasUser(old(users), |old(users)|, id) then 1 else 0)
      ensures users == WithAvatar(old(users), id, url, now)
    {
      WithAvatarKeepsUnique(users, id, url, now);
      ghost var target := WithAvatar(users, id, url, now);
      var us := users;
      matched := 0;
      var i := 0;
      while i < |us|
        invariant 0 <= i <= |us| == |users| == |target|
        invariant forall k :: 0 <= k < i ==> us[k] == target[k]
        invariant forall k :: i <= k < |us| ==> us[k] == users[k]
        invariant matched == (if HasUser(users, i, id) then 1 else 0)
      {
        assert HasUser(users, i + 1, id) <==> HasUser(users, i, id) || users[i].id == id;
        if us[i].id == id {
          us := us[i := SetFields(us[i], url, now)];
          matched := 1;
        }
        i := i + 1;
      }
      users := us;
    }
  }
}
