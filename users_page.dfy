/** The user management page: the search filter over the loaded users, and
    saving the user form as an update or a creation. */
module UsersPage {
  import opened Wrappers
  import opened Strings
  import opened Records
  import Seqs

  /** A user is kept when its name or its email is non-empty and contains
      the search text, ignoring case. */
  predicate Matches(u: User, searchText: string) {
    (Truthy(u.name) && ContainsCI(u.name.value, searchText)) ||
    (Truthy(u.email) && ContainsCI(u.email.value, searchText))
  }

  function MatchesBy(searchText: string): User -> bool {
    (u: User) => Matches(u, searchText)
  }

  /** `filteredUsers`. */
  function Filtered(users: seq<User>, searchText: string): seq<User> {
    Seqs.Filter(users, MatchesBy(searchText))
  }

  /** A user is listed exactly when it is loaded and matches, and the listed
      users keep their order. */
  lemma FilteredSpec(users: seq<User>, searchText: string, u: User)
    ensures u in Filtered(users, searchText) <==> u in users && Matches(u, searchText)
    ensures Seqs.IsSubseq(Filtered(users, searchText), users)
  {
    Seqs.FilterIsSubseq(users, MatchesBy(searchText));
    if u in users && Matches(u, searchText) {
      var i :| 0 <= i < |users| && users[i] == u;
      assert MatchesBy(searchText)(users[i]);
    }
  }

  /** An empty search text keeps every user with a non-empty name or email. */
  lemma EmptySearch(users: seq<User>, u: User)
    ensures u in Filtered(users, "") <==> u in users && (Truthy(u.name) || Truthy(u.email))
  {
    FilteredSpec(users, "", u);
    assert ToLower("") == "";
    if Truthy(u.name) { assert StartsWith(ToLower(u.name.value), ""); }
    if Truthy(u.email) { assert StartsWith(ToLower(u.email.value), ""); }
  }

  /** The values of the user form. */
  datatype FormValues = FormValues(name: Option<string>, email: Option<string>, password: Option<string>,
                                   role: Option<string>, status: Option<string>, username: Option<string>)

  /** A request the page sends, with its address and body. */
  datatype Request = Put(url: string, body: FormValues) | Post(url: string, body: FormValues)

  /** The body of a save: the form values with username set to the name. */
  function SaveBody(values: FormValues): (b: FormValues)
    ensures b.username == b.name == values.name
    ensures b.email == values.email && b.password == values.password && b.role == values.role && b.status == values.status
  {
    values.(username := values.name)
  }

  class Page {
    var users: seq<User>
    var searchText: string
    var modalVisible: bool
    var editingUser: Option<User>
    var formLoading: bool
    /** The requests sent, oldest first. */
    var requests: seq<Request>
    /** How many times the list was fetched again. */
    var reloads: nat

    constructor ()
      ensures users == [] && searchText == "" && !modalVisible && editingUser.None? && !formLoading
      ensures requests == [] && reloads == 0
    {
      users := [];
      searchText := "";
      modalVisible := false;
      editingUser := None;
      formLoading := false;
      requests := [];
      reloads := 0;
    }

    /** `showAddUserModal`. */
    method ShowAdd()
      modifies this
      ensures editingUser.None? && modalVisible
      ensures users == old(users) && searchText == old(searchText) && requests == old(requests) && reloads == old(reloads)
      ensures formLoading == old(formLoading)
    {
      editingUser := None;
      modalVisible := true;
    }

    /** `showEditUserModal(user)`. */
    method ShowEdit(u: User)
      modifies this
      ensures editingUser == Some(u) && modalVisible
      ensures users == old(users) && searchText == old(searchText) && requests == old(requests) && reloads == old(reloads)
      ensures formLoading == old(formLoading)
    {
      editingUser := Some(u);
      modalVisible := true;
    }

    /** `handleSaveUser` with the form values, whether the form validated,
        and whether the response was OK. A form that fails validation sends
        nothing; an edit is a `PUT` to the user's address, anything else a
        `POST` to the collection; the list is fetched again and the modal
        closes only after an OK response. */
    method HandleSave(values: FormValues, valid: bool, ok: bool)
      modifies this
      ensures !valid ==> requests == old(requests) && reloads == old(reloads) && modalVisible == old(modalVisible)
      ensures valid && old(editingUser).Some? ==> requests == old(requests) + [Put("/api/users/" + old(editingUser).value.id, SaveBody(values))]
      ensures valid && old(editingUser).None? ==> requests == old(requests) + [Post("/api/users", SaveBody(values))]
      ensures valid && ok ==> reloads == old(reloads) + 1 && !modalVisible
      ensures valid && !ok ==> reloads == old(reloads) && modalVisible == old(modalVisible)
      ensures !formLoading
      ensures users == old(users) && searchText == old(searchText) && editingUser == old(editingUser)
    {
      if valid {
        var body := values.(username := values.name);
        formLoading := true;
        if editingUser.Some? {
          requests := requests + [Put("/api/users/" + editingUser.value.id, body)];
        } else {
          requests := requests + [Post("/api/users", body)];
        }
        if ok {
          reloads := reloads + 1;
          modalVisible := false;
        }
      }
      formLoading := false;
    }

    /** The rows the table shows. */
    function Visible(): (r: seq<User>)
      reads this
      ensures forall u :: u in r <==> u in users && Matches(u, searchText)
      ensures Seqs.IsSubseq(r, users)
    {
      assert forall u :: u in Filtered(users, searchText) <==> u in users && Matches(u, searchText) by {
        forall u ensures u in Filtered(users, searchText) <==> u in users && Matches(u, searchText) {
          FilteredSpec(users, searchText, u);
        }
      }
      Seqs.FilterIsSubseq(users, MatchesBy(searchText));
      Filtered(users, searchText)
    }
  }
}
