/** The user context of the admin panel: who is signed in, whether they are
    an administrator, and the two local storage entries that mirror this. */
module UserContext {
  import opened Wrappers
  import opened Strings
  import ProfileRoute

  /** What the context holds as the current user: a profile from the profile
      route, or the basic information of a session. */
  datatype UserInfo =
    | Profiled(profile: ProfileRoute.Profile)
    | FromSession(id: string, name: string, email: string, image: string, provider: string)

  /** The session user as the session library reports it; any field may be missing. */
  datatype SessionData = SessionData(id: Option<string>, name: Option<string>, email: Option<string>,
                                     image: Option<string>, provider: Option<string>, role: Option<string>)

  datatype Status = Authenticated | Unauthenticated | Loading

  /** How the permission check ended: the route granted, it refused (or
      answered with an error status), or the request or its body failed. */
  datatype Outcome = Granted | Denied | Failed

  const UserInfoKey := "userInfo"
  const PermissionKey := "userPermission"

  /** The storage entry agrees with the flag. */
  predicate Mirrors(storage: map<string, string>, admin: bool) {
    admin == (PermissionKey in storage && storage[PermissionKey] == "admin")
  }

  /** Records the administrator flag in storage: set to 'admin', or removed. */
  function WithPermission(storage: map<string, string>, admin: bool): (m: map<string, string>)
    ensures Mirrors(m, admin)
    ensures admin ==> PermissionKey in m
    ensures m.Keys - {PermissionKey} == storage.Keys - {PermissionKey}
    ensures forall k :: k in storage && k != PermissionKey ==> k in m && m[k] == storage[k]
  {
    if admin then storage[PermissionKey := "admin"] else storage - {PermissionKey}
  }

  /** Removes both user entries and nothing else. */
  function Cleared(storage: map<string, string>): (m: map<string, string>)
    ensures UserInfoKey !in m && PermissionKey !in m
    ensures Mirrors(m, false)
    ensures forall k :: k != UserInfoKey && k != PermissionKey ==> (k in m <==> k in storage) && (k in m ==> m[k] == storage[k])
  {
    storage - {UserInfoKey, PermissionKey}
  }

  /** The basic information of a session user: missing fields become '' and a
      missing or empty provider is 'google'. */
  function SessionInfo(s: SessionData): (u: UserInfo)
    ensures u.FromSession?
    ensures (Truthy(s.id) ==> u.id == s.id.value) && (!Truthy(s.id) ==> u.id == "")
    ensures (Truthy(s.name) ==> u.name == s.name.value) && (!Truthy(s.name) ==> u.name == "")
    ensures (Truthy(s.image) ==> u.image == s.image.value) && (!Truthy(s.image) ==> u.image == "")
    ensures Truthy(s.email) ==> u.email == s.email.value
    ensures !Truthy(s.email) ==> u.email == ""
    ensures Truthy(s.provider) ==> u.provider == s.provider.value
    ensures !Truthy(s.provider) ==> u.provider == "google"
    ensures u.provider != ""
  {
    FromSession(Or(s.id, ""), Or(s.name, ""), Or(s.email, ""), Or(s.image, ""), Or(s.provider, "google"))
  }

  /** The administrator flag `initUserData` arrives at: reading the stored
      user comes first, and a stored user that does not parse throws before
      the stored permission is read. */
  function InitAdmin(storage: map<string, string>, parse: string -> Option<UserInfo>): (admin: bool)
    ensures admin ==> PermissionKey in storage && storage[PermissionKey] == "admin"
    ensures UserInfoKey in storage && storage[UserInfoKey] != "" && parse(storage[UserInfoKey]).None? ==> !admin
  {
    var storedUser := if UserInfoKey in storage then Some(storage[UserInfoKey]) else None;
    if Truthy(storedUser) && parse(storedUser.value).None? then false
    else PermissionKey in storage && storage[PermissionKey] == "admin"
  }

  /** When there is no stored user, or it parses, the flag mirrors storage. */
  lemma InitMirrors(storage: map<string, string>, parse: string -> Option<UserInfo>)
    requires UserInfoKey !in storage || storage[UserInfoKey] == "" || parse(storage[UserInfoKey]).Some?
    ensures Mirrors(storage, InitAdmin(storage, parse))
  {
  }

  function NeverParses(): string -> Option<UserInfo> {
    _ => None
  }

  /** A stored user that does not parse leaves a stored administrator without
      the flag, so the mirror does not hold after this initialisation. */
  lemma InitUnparsableUser()
    ensures var storage := map[UserInfoKey := "{", PermissionKey := "admin"];
      !InitAdmin(storage, NeverParses()) && !Mirrors(storage, InitAdmin(storage, NeverParses()))
  {
  }

  class Context {
    var user: Option<UserInfo>
    var isAdmin: bool
    var loading: bool
    /** The browser's local storage. */
    var storage: map<string, string>
    /** The sign-outs requested, by callback address. */
    var signOuts: seq<string>
    /** The pages the router was sent to. */
    var redirects: seq<string>
    /** `JSON.stringify` and `JSON.parse` of a user. */
    const encode: UserInfo -> string
    const parse: string -> Option<UserInfo>

    /** The flag mirrors the storage entry. */
    predicate Valid()
      reads this
    {
      Mirrors(storage, isAdmin)
    }

    /** Mounting the provider and running `initUserData` on the browser's
        storage. */
    constructor (storage: map<string, string>, encode: UserInfo -> string, parse: string -> Option<UserInfo>)
      ensures this.storage == storage && this.encode == encode && this.parse == parse
      ensures UserInfoKey in storage && storage[UserInfoKey] != "" ==> user == parse(storage[UserInfoKey])
      ensures !(UserInfoKey in storage && storage[UserInfoKey] != "") ==> user.None?
      ensures isAdmin == InitAdmin(storage, parse)
      ensures !loading && signOuts == [] && redirects == []
    {
      this.storage := storage;
      this.encode := encode;
      this.parse := parse;
      signOuts := [];
      redirects := [];
      user := None;
      isAdmin := false;
      loading := true;
      var storedUser := if UserInfoKey in storage then Some(storage[UserInfoKey]) else None;
      var storedPermission := if PermissionKey in storage then Some(storage[PermissionKey]) else None;
      var threw := false;
      if Truthy(storedUser) {
        var parsed := parse(storedUser.value);
        if parsed.None? {
          threw := true;
        }
        user := parsed;
      }
      if !threw && storedPermission == Some("admin") {
        isAdmin := true;
      }
      loading := false;
    }

    /** `fetchUserProfile` with the profile the route answered, or `None` when
        the response was not OK or the request failed. */
    method FetchUserProfile(reply: Option<ProfileRoute.Profile>) returns (r: Option<ProfileRoute.Profile>)
      modifies this
      ensures r == reply
      ensures reply.None? ==> user == old(user) && isAdmin == old(isAdmin) && storage == old(storage)
      ensures reply.Some? ==> user == Some(Profiled(reply.value)) && isAdmin == (reply.value.role == "admin") &&
                              storage == WithPermission(old(storage)[UserInfoKey := encode(Profiled(reply.value))], isAdmin)
      ensures reply.Some? ==> Valid()
      ensures old(Valid()) ==> Valid()
      ensures !loading && signOuts == old(signOuts) && redirects == old(redirects)
    {
      loading := true;
      r := None;
      if reply.Some? {
        var profile := reply.value;
        user := Some(Profiled(profile));
        storage := storage[UserInfoKey := encode(Profiled(profile))];
        if profile.role == "admin" {
          isAdmin := true;
          storage := storage[PermissionKey := "admin"];
        } else {
          isAdmin := false;
          storage := storage - {PermissionKey};
        }
        r := reply;
      }
      loading := false;
    }

    /** `verifyPermission(email)`: a grant sets the flag and the entry; a
        refusal clears both and signs out; a failed request changes nothing. */
    method VerifyPermission(email: string, outcome: Outcome) returns (granted: bool)
      modifies this
      ensures granted <==> outcome == Granted
      ensures outcome == Granted ==> isAdmin && storage == WithPermission(old(storage), true) && signOuts == old(signOuts)
      ensures outcome == Denied ==> !isAdmin && storage == WithPermission(old(storage), false) && signOuts == old(signOuts) + ["/login"]
      ensures outcome == Failed ==> isAdmin == old(isAdmin) && storage == old(storage) && signOuts == old(signOuts)
      ensures outcome != Failed ==> Valid()
      ensures old(Valid()) ==> Valid()
      ensures user == old(user) && redirects == old(redirects) && !loading
    {
      loading := true;
      granted := false;
      if outcome == Granted {
        isAdmin := true;
        storage := storage[PermissionKey := "admin"];
        granted := true;
      } else if outcome == Denied {
        isAdmin := false;
        storage := storage - {PermissionKey};
        signOuts := signOuts + ["/login"];
      }
      loading := false;
    }

    /** `handleSessionChange` for a session status, the session user, how a
        permission check would end, and the current path. */
    method SessionChange(status: Status, session: Option<SessionData>, outcome: Outcome, path: string)
      modifies this
      ensures status == Authenticated && session.Some? ==>
        var info := SessionInfo(session.value);
        user == Some(info) && UserInfoKey in storage && storage[UserInfoKey] == encode(info) && redirects == old(redirects)
      ensures status == Authenticated && session.Some? && session.value.role == Some("admin") ==>
        isAdmin && storage == WithPermission(old(storage)[UserInfoKey := encode(SessionInfo(session.value))], true) &&
        signOuts == old(signOuts)
      ensures status == Authenticated && session.Some? && session.value.role != Some("admin") && old(isAdmin) ==>
        isAdmin && storage == old(storage)[UserInfoKey := encode(SessionInfo(session.value))] && signOuts == old(signOuts)
      ensures status == Authenticated && session.Some? && session.value.role != Some("admin") && !old(isAdmin) ==>
        isAdmin == (outcome == Granted) &&
        (outcome == Failed ==> storage == old(storage)[UserInfoKey := encode(SessionInfo(session.value))]) &&
        (outcome != Failed ==> storage == WithPermission(old(storage)[UserInfoKey := encode(SessionInfo(session.value))], isAdmin)) &&
        signOuts == old(signOuts) + (if outcome == Denied then ["/login"] else [])
      ensures status == Unauthenticated ==>
        user.None? && !isAdmin && storage == Cleared(old(storage)) && signOuts == old(signOuts) &&
        redirects == old(redirects) + (if path != "/login" then ["/login"] else [])
      ensures status == Loading || (status == Authenticated && session.None?) ==>
        user == old(user) && isAdmin == old(isAdmin) && storage == old(storage) && signOuts == old(signOuts) &&
        redirects == old(redirects) && loading == old(loading)
      ensures status == Unauthenticated || (status == Authenticated && session.Some? && session.value.role == Some("admin")) ==> Valid()
      ensures old(Valid()) ==> Valid()
    {
      if status == Authenticated && session.Some? {
        var info := SessionInfo(session.value);
        user := Some(info);
        storage := storage[UserInfoKey := encode(info)];
        if session.value.role == Some("admin") {
          isAdmin := true;
          storage := storage[PermissionKey := "admin"];
        } else if !isAdmin {
          var _ := VerifyPermission(info.email, outcome);
        }
      } else if status == Unauthenticated {
        user := None;
        isAdmin := false;
        storage := storage - {UserInfoKey};
        storage := storage - {PermissionKey};
        if path != "/login" {
          redirects := redirects + ["/login"];
        }
      }
    }

    /** `logout`: clears both entries and the state, then signs out. */
    method Logout()
      modifies this
      ensures storage == Cleared(old(storage)) && user.None? && !isAdmin
      ensures signOuts == old(signOuts) + ["/login"]
      ensures redirects == old(redirects) && loading == old(loading)
      ensures Valid()
    {
      storage := storage - {UserInfoKey};
      storage := storage - {PermissionKey};
      user := None;
      isAdmin := false;
      signOuts := signOuts + ["/login"];
    }
  }
}
