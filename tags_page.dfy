/** The in-memory user table of the tags page: five sample users, edited,
    added to and deleted from without any request. */
module TagsPage {
  import opened Wrappers
  import opened Strings
  import Seqs

  datatype TagUser = TagUser(id: int, username: string, name: string, email: string, role: string,
                             status: string, avatar: Option<string>, createdAt: string)

  /** The values of the validated form. */
  datatype Values = Values(username: string, name: string, email: string, role: string, status: string)

  /** The sample users the page starts with, ids 1 to 5. */
  const InitialUsers: seq<TagUser> := [
    TagUser(1, "admin", "管理员", "admin@example.com", "admin", "active", None, "2023-03-01"),
    TagUser(2, "editor", "小明", "editor@example.com", "editor", "active", None, "2023-03-10"),
    TagUser(3, "user1", "张三", "user1@example.com", "user", "active", None, "2023-03-15"),
    TagUser(4, "user2", "李四", "user2@example.com", "user", "inactive", None, "2023-03-20"),
    TagUser(5, "guest", "访客", "guest@example.com", "guest", "active", None, "2023-03-25")
  ]

  /** `{ ...user, ...values }`: the form fields replace the user's; the id,
      avatar and creation date stay. */
  function Merge(u: TagUser, v: Values): (r: TagUser)
    ensures r.id == u.id && r.avatar == u.avatar && r.createdAt == u.createdAt
    ensures r.username == v.username && r.name == v.name && r.email == v.email && r.role == v.role && r.status == v.status
  {
    u.(username := v.username, name := v.name, email := v.email, role := v.role, status := v.status)
  }

  /** The edit branch of `handleSaveUser`: every user with the edited id gets
      the form values, every other user is kept, in place. */
  function Edited(users: seq<TagUser>, id: int, v: Values): (r: seq<TagUser>)
    ensures |r| == |users|
    ensures forall i :: 0 <= i < |r| ==> r[i].id == users[i].id
    ensures forall i :: 0 <= i < |r| && users[i].id != id ==> r[i] == users[i]
    ensures forall i :: 0 <= i < |r| && users[i].id == id ==> r[i] == Merge(users[i], v)
  {
    seq(|users|, i requires 0 <= i < |users| => if users[i].id == id then Merge(users[i], v) else users[i])
  }

  /** The user the add branch creates: id one past the current length, no
      avatar, and today's date. */
  function NewUser(count: nat, v: Values, today: string): (u: TagUser)
    ensures u.id == count + 1 && u.avatar.None? && u.createdAt == today
    ensures u.username == v.username && u.name == v.name && u.email == v.email && u.role == v.role && u.status == v.status
  {
    TagUser(count + 1, v.username, v.name, v.email, v.role, v.status, None, today)
  }

  /** The add branch: exactly one user appended after the others. */
  function Added(users: seq<TagUser>, v: Values, today: string): (r: seq<TagUser>)
    ensures |r| == |users| + 1 && r[..|users|] == users
    ensures r[|users|] == NewUser(|users|, v, today)
  {
    users + [NewUser(|users|, v, today)]
  }

  function IdIsNot(id: int): TagUser -> bool {
    (u: TagUser) => u.id != id
  }

  /** `handleDeleteUser(userId)`. */
  function Deleted(users: seq<TagUser>, id: int): seq<TagUser> {
    Seqs.Filter(users, IdIsNot(id))
  }

  /** A delete removes every user with the id and keeps the others, in order. */
  lemma DeletedSpec(users: seq<TagUser>, id: int, u: TagUser)
    ensures u in Deleted(users, id) <==> u in users && u.id != id
    ensures forall i :: 0 <= i < |Deleted(users, id)| ==> Deleted(users, id)[i].id != id
    ensures Seqs.IsSubseq(Deleted(users, id), users)
  {
    Seqs.FilterIsSubseq(users, IdIsNot(id));
    if u in users && u.id != id {
      var i :| 0 <= i < |users| && users[i] == u;
      assert IdIsNot(id)(users[i]);
    }
  }

  /** A user matches when its username, name or email contains the search
      text, ignoring case. */
  predicate Matches(u: TagUser, text: string) {
    ContainsCI(u.username, text) || ContainsCI(u.name, text) || ContainsCI(u.email, text)
  }

  function MatchesBy(text: string): TagUser -> bool {
    (u: TagUser) => Matches(u, text)
  }

  /** `filteredUsers`. */
  function Search(users: seq<TagUser>, text: string): seq<TagUser> {
    Seqs.Filter(users, MatchesBy(text))
  }

  /** A user is listed exactly when it matches, and the list keeps the order. */
  lemma SearchSpec(users: seq<TagUser>, text: string, u: TagUser)
    ensures u in Search(users, text) <==> u in users && Matches(u, text)
    ensures Seqs.IsSubseq(Search(users, text), users)
  {
    Seqs.FilterIsSubseq(users, MatchesBy(text));
    if u in users && Matches(u, text) {
      var i :| 0 <= i < |users| && users[i] == u;
      assert MatchesBy(text)(users[i]);
    }
  }

  /** Users numbered consecutively from `base`, as adding without deleting
      numbers them from 1. */
  predicate Numbered(users: seq<TagUser>, base: int) {
    forall i :: 0 <= i < |users| ==> users[i].id == base + i
  }

  /** Deleting one of the numbered ids removes exactly one user, and the last
      user stays last unless it is the one deleted. */
  lemma {:induction false} DeleteNumbered(users: seq<TagUser>, base: int, id: int)
    requires Numbered(users, base) && base <= id < base + |users|
    ensures |Deleted(users, id)| == |users| - 1
    ensures id != base + |users| - 1 ==> Deleted(users, id)[|users| - 2] == users[|users| - 1]
    decreases |users|
  {
    var rest := users[1..];
    assert Numbered(rest, base + 1) by {
      forall i | 0 <= i < |rest| ensures rest[i].id == base + 1 + i {
        assert rest[i] == users[i + 1];
      }
    }
    var n := |users|;
    if id == base {
      assert Deleted(users, id) == Deleted(rest, id);
      Seqs.FilterAll(rest, IdIsNot(id));
      if n >= 2 {
        assert rest[n - 2] == users[n - 1];
      }
    } else {
      var d := Deleted(rest, id);
      assert Deleted(users, id) == [users[0]] + d;
      DeleteNumbered(rest, base + 1, id);
      if id != base + n - 1 {
        assert d[n - 3] == rest[n - 2] == users[n - 1];
      }
    }
  }

  /** Ids do not stay unique: when the users are numbered 1 to n and any user
      but the last is deleted, the next user added gets id n, which the last
      user still has. */
  lemma IdCollision(users: seq<TagUser>, id: int, v: Values, today: string)
    requires Numbered(users, 1) && 1 <= id < |users|
    ensures var r := Added(Deleted(users, id), v, today);
      |r| == |users| && r[|r| - 1].id == |users| && r[|r| - 2] == users[|users| - 1] && r[|r| - 2].id == |users|
  {
    DeleteNumbered(users, 1, id);
  }

  /** The sample table is numbered 1 to 5, so deleting user 2 and adding one
      leaves two users with id 5. */
  lemma SampleCollision(v: Values, today: string)
    ensures var r := Added(Deleted(InitialUsers, 2), v, today);
      |r| == 5 && r[3].id == 5 && r[4].id == 5
  {
    assert Numbered(InitialUsers, 1);
    IdCollision(InitialUsers, 2, v, today);
  }

  class Page {
    var users: seq<TagUser>
    var modalVisible: bool
    var editingUser: Option<TagUser>
    var searchText: string

    constructor ()
      ensures users == InitialUsers && !modalVisible && editingUser.None? && searchText == ""
    {
      users := InitialUsers;
      modalVisible := false;
      editingUser := None;
      searchText := "";
    }

    method ShowAdd()
      modifies this
      ensures editingUser.None? && modalVisible && users == old(users) && searchText == old(searchText)
    {
      editingUser := None;
      modalVisible := true;
    }

    method ShowEdit(u: TagUser)
      modifies this
      ensures editingUser == Some(u) && modalVisible && users == old(users) && searchText == old(searchText)
    {
      editingUser := Some(u);
      modalVisible := true;
    }

    /** `handleSaveUser`: nothing happens until the form validates (`None`:
        it did not); then the edited user is merged or a new one appended,
        and the modal closes. */
    method Save(values: Option<Values>, today: string)
      modifies this
      ensures values.None? ==> users == old(users) && modalVisible == old(modalVisible)
      ensures values.Some? && old(editingUser).Some? ==> users == Edited(old(users), old(editingUser).value.id, values.value)
      ensures values.Some? && old(editingUser).None? ==> users == Added(old(users), values.value, today)
      ensures values.Some? ==> !modalVisible
      ensures editingUser == old(editingUser) && searchText == old(searchText)
    {
      if values.Some? {
        var v := values.value;
        if editingUser.Some? {
          var id := editingUser.value.id;
          users := seq(|users|, i requires 0 <= i < |users| reads this =>
                         if users[i].id == id then users[i].(username := v.username, name := v.name, email := v.email,
                                                             role := v.role, status := v.status)
                         else users[i]);
        } else {
          users := users + [TagUser(|users| + 1, v.username, v.name, v.email, v.role, v.status, None, today)];
        }
        modalVisible := false;
      }
    }

    /** `handleDeleteUser(userId)`. */
    method Delete(id: int)
      modifies this
      ensures users == Deleted(old(users), id)
      ensures modalVisible == old(modalVisible) && editingUser == old(editingUser) && searchText == old(searchText)
    {
      users := Seqs.Filter(users, IdIsNot(id));
    }

    /** The rows the table shows. */
    function Visible(): (r: seq<TagUser>)
      reads this
      ensures forall u :: u in r <==> u in users && Matches(u, searchText)
      ensures Seqs.IsSubseq(r, users)
    {
      assert forall u :: u in Search(users, searchText) <==> u in users && Matches(u, searchText) by {
        forall u ensures u in Search(users, searchText) <==> u in users && Matches(u, searchText) {
          SearchSpec(users, searchText, u);
        }
      }
      Seqs.FilterIsSubseq(users, MatchesBy(searchText));
      Search(users, searchText)
    }
  }
}
