/** `POST /api/auth/check-permission`: whether the user with an email is an
    administrator, decided by its role alone. */
module PermissionRoute {
  import opened Wrappers
  import opened Strings
  import opened Seqs
  import opened Records
  import ProfileRoute
  import UsersRoute

  datatype Answer = Answer(hasPermission: bool, message: Option<string>)

  /** The whole handler: a falsy email is a 400; otherwise the first user with
      exactly that email is an administrator when its role is `admin`. */
  function Check(users: seq<User>, email: Option<string>): (r: Result<Answer>)
    ensures !Truthy(email) ==> r.Failure? && r.error.status == 400
    ensures Truthy(email) ==> r.Success?
    ensures r.Success? ==>
      (r.value.hasPermission <==> exists u :: Find(users, ProfileRoute.HasEmail(email.value)) == Some(u) && u.role == Some("admin"))
    ensures r.Success? ==> (r.value.hasPermission <==> r.value.message.None?)
  {
    if !Truthy(email) then Failure(HttpError(400, "需要提供电子邮件地址"))
    else
      var user := Find(users, ProfileRoute.HasEmail(email.value));
      if user.Some? && user.value.role == Some("admin") then Success(Answer(true, None))
      else Success(Answer(false, Some("您没有管理员权限")))
  }

  /** With emails unique, as the users route keeps them, the answer is yes
      exactly when some user has that email and the role `admin`. */
  lemma AdminIff(users: seq<User>, email: string)
    requires UsersRoute.Unique(users) && email != ""
    ensures Check(users, Some(email)).value.hasPermission <==>
      exists i :: 0 <= i < |users| && users[i].email == Some(email) && users[i].role == Some("admin")
  {
    var f := Find(users, ProfileRoute.HasEmail(email));
    assert Check(users, Some(email)).value.hasPermission <==> f.Some? && f.value.role == Some("admin");
    if exists i :: 0 <= i < |users| && users[i].email == Some(email) && users[i].role == Some("admin") {
      var i :| 0 <= i < |users| && users[i].email == Some(email) && users[i].role == Some("admin");
      EmailIsFirst(users, email, i);
    }
    if f.Some? && f.value.role == Some("admin") {
      var k :| 0 <= k < |users| && users[k] == f.value && ProfileRoute.HasEmail(email)(users[k]);
      assert users[k].email == Some(email) && users[k].role == Some("admin");
    }
  }

  /** With emails unique, the user found by email is the only one with it. */
  lemma EmailIsFirst(users: seq<User>, email: string, i: int)
    requires UsersRoute.Unique(users) && 0 <= i < |users| && users[i].email == Some(email)
    ensures Find(users, ProfileRoute.HasEmail(email)) == Some(users[i])
  {
    forall j | 0 <= j < i ensures !ProfileRoute.HasEmail(email)(users[j]) {
      assert users[j].email.Some? ==> users[j].email != users[i].email;
    }
    FindIsFirst(users, ProfileRoute.HasEmail(email), i);
  }

  /** The `permission` field is never read: giving every user any permission
      at all leaves every answer as it was. */
  lemma PermissionIgnored(users: seq<User>, perms: seq<Option<string>>, email: Option<string>)
    requires |perms| == |users|
    ensures Check(seq(|users|, i requires 0 <= i < |users| => users[i].(permission := perms[i])), email) == Check(users, email)
  {
    var other := seq(|users|, i requires 0 <= i < |users| => users[i].(permission := perms[i]));
    if Truthy(email) {
      SameEmails(users, other, email.value);
    }
  }

  lemma {:induction false} SameEmails(a: seq<User>, b: seq<User>, email: string)
    requires |a| == |b|
    requires forall i :: 0 <= i < |a| ==> a[i].email == b[i].email && a[i].role == b[i].role
    ensures Find(a, ProfileRoute.HasEmail(email)).Some? <==> Find(b, ProfileRoute.HasEmail(email)).Some?
    ensures Find(a, ProfileRoute.HasEmail(email)).Some? ==>
      Find(a, ProfileRoute.HasEmail(email)).value.role == Find(b, ProfileRoute.HasEmail(email)).value.role
    decreases |a|
  {
    if a != [] {
      SameEmails(a[1..], b[1..], email);
    }
  }

  /** A user whose permission says `admin` but whose role does not is refused. */
  lemma PermissionAloneRefused(email: string)
    requires email != ""
    ensures var u := User("1", None, None, Some(email), None, Some("user"), None, None, None, Some("admin"), 0, None);
      Check([u], Some(email)) == Success(Answer(false, Some("您没有管理员权限")))
  {
    var u := User("1", None, None, Some(email), None, Some("user"), None, None, None, Some("admin"), 0, None);
    assert ProfileRoute.HasEmail(email)(u);
  }
}
