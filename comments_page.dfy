/** The comment management page: the comments of the selected article, the
    users keyed by id, and the display rules of the commenter, content and
    parent columns. */
module CommentsPage {
  import opened Wrappers
  import opened Strings
  import opened Records
  import Seqs
  import CommentsRoute

  /** The default `maxLength` of `truncateContent`. */
  const DefaultLength: nat := 20

  /** `truncateContent(content, maxLength)`: '' for missing or empty content,
      the text itself when it fits, and otherwise its first `maxLength`
      characters followed by '...'. */
  function Truncate(content: Option<string>, maxLength: nat): (r: string)
    ensures !Truthy(content) ==> r == ""
    ensures Truthy(content) && |content.value| <= maxLength ==> r == content.value
    ensures Truthy(content) && |content.value| > maxLength ==>
      |r| == maxLength + 3 && r[..maxLength] == content.value[..maxLength] && EndsWith(r, "...")
    ensures |r| <= maxLength + 3
  {
    if !Truthy(content) then ""
    else if |content.value| > maxLength then content.value[..maxLength] + "..."
    else content.value
  }

  /** The users map of `fetchUsers`, keyed by id; a later user with the same
      id replaces an earlier one. */
  function UsersById(users: seq<User>): map<string, User>
    decreases |users|
  {
    if users == [] then map[]
    else
      var last := users[|users| - 1];
      UsersById(users[..|users| - 1])[last.id := last]
  }

  /** `users[i]` is the last listed user with id `k`. */
  predicate LastWithId(users: seq<User>, i: int, k: string) {
    0 <= i < |users| && users[i].id == k && forall j :: i < j < |users| ==> users[j].id != k
  }

  /** Every listed id is a key of the users map, and only those. */
  lemma {:induction false} UsersByIdKeys(users: seq<User>, k: string)
    ensures k in UsersById(users) <==> exists i :: 0 <= i < |users| && users[i].id == k
    decreases |users|
  {
    if users != [] {
      var init := users[..|users| - 1];
      UsersByIdKeys(init, k);
      if k in UsersById(init) {
        var i :| 0 <= i < |init| && init[i].id == k;
        assert users[i] == init[i];
      }
      if exists i :: 0 <= i < |users| && users[i].id == k {
        var i :| 0 <= i < |users| && users[i].id == k;
        if i < |init| { assert init[i] == users[i]; }
      }
    }
  }

  /** Each key of the users map holds the last listed user with that id. */
  lemma {:induction false} UsersByIdLast(users: seq<User>, k: string)
    requires k in UsersById(users)
    ensures exists i :: LastWithId(users, i, k) && users[i] == UsersById(users)[k]
    decreases |users|
  {
    var init := users[..|users| - 1];
    var last := users[|users| - 1];
    if k == last.id {
      assert LastWithId(users, |users| - 1, k);
    } else {
      UsersByIdLast(init, k);
      var i :| LastWithId(init, i, k) && init[i] == UsersById(init)[k];
      assert users[i] == init[i];
      forall j | i < j < |users| ensures users[j].id != k {
        if j < |init| { assert users[j] == init[j]; }
      }
      assert LastWithId(users, i, k);
    }
  }

  /** The `forEach` of `fetchUsers`, filling the map one user at a time. */
  method BuildUsersMap(users: seq<User>) returns (m: map<string, User>)
    ensures m == UsersById(users)
  {
    m := map[];
    var i := 0;
    while i < |users|
      invariant 0 <= i <= |users|
      invariant m == UsersById(users[..i])
    {
      assert users[..i + 1][..i] == users[..i];
      m := m[users[i].id := users[i]];
      i := i + 1;
    }
    assert users[..|users|] == users;
  }

  /** The commenter column: the user's username, or its name when the
      username is empty, and '未知用户' when no loaded user has that id. */
  function Commenter(users: map<string, User>, userId: Option<string>): (r: string)
    ensures (userId.None? || userId.value !in users) ==> r == "未知用户"
    ensures userId.Some? && userId.value in users && Truthy(users[userId.value].username) ==> r == users[userId.value].username.value
    ensures userId.Some? && userId.value in users && !Truthy(users[userId.value].username) ==> r == Or(users[userId.value].name, "")
  {
    if userId.Some? && userId.value in users then
      var u := users[userId.value];
      if Truthy(u.username) then u.username.value else Or(u.name, "")
    else "未知用户"
  }

  /** With users loaded from a list, a commenter whose id no listed user has
      is unknown. */
  lemma CommenterNotLoaded(users: seq<User>, id: string)
    requires forall i :: 0 <= i < |users| ==> users[i].id != id
    ensures Commenter(UsersById(users), Some(id)) == "未知用户"
  {
    UsersByIdKeys(users, id);
  }

  /** With users loaded from a list, a commenter is named after the last
      listed user with the comment's user id. */
  lemma CommenterOfLoaded(users: seq<User>, i: nat)
    requires i < |users| && LastWithId(users, i, users[i].id)
    ensures var u := users[i];
      Commenter(UsersById(users), Some(u.id)) == (if Truthy(u.username) then u.username.value else Or(u.name, ""))
  {
    var id := users[i].id;
    UsersByIdKeys(users, id);
    UsersByIdLast(users, id);
    var i' :| LastWithId(users, i', id) && users[i'] == UsersById(users)[id];
    assert i' == i;
  }

  function HasId(id: string): Comment -> bool {
    (c: Comment) => c.id == id
  }

  /** `findParentComment(parentId)`: the first loaded comment with that id. */
  function FindParent(comments: seq<Comment>, parentId: string): (r: Option<Comment>)
    ensures r.None? <==> forall i :: 0 <= i < |comments| ==> comments[i].id != parentId
    ensures r.Some? ==> r.value in comments && r.value.id == parentId
  {
    Seqs.Find(comments, HasId(parentId))
  }

  /** The parent column: '-' without a parent, '已删除的评论' when the parent
      is not among the loaded comments, and its truncated content otherwise. */
  function ParentCell(comments: seq<Comment>, parentId: Option<string>): (r: string)
    ensures !Truthy(parentId) ==> r == "-"
    ensures Truthy(parentId) && (forall i :: 0 <= i < |comments| ==> comments[i].id != parentId.value) ==> r == "已删除的评论"
    ensures Truthy(parentId) && FindParent(comments, parentId.value).Some? ==>
      r == Truncate(Some(FindParent(comments, parentId.value).value.content), DefaultLength)
  {
    if !Truthy(parentId) then "-"
    else
      match FindParent(comments, parentId.value)
      case None => "已删除的评论"
      case Some(p) => Truncate(Some(p.content), DefaultLength)
  }

  /** A parent that is loaded shows at most 23 characters of the first
      loaded comment with its id. */
  lemma ParentCellOfLoaded(comments: seq<Comment>, i: nat)
    requires i < |comments| && comments[i].id != ""
    requires forall j :: 0 <= j < i ==> comments[j].id != comments[i].id
    ensures ParentCell(comments, Some(comments[i].id)) == Truncate(Some(comments[i].content), DefaultLength)
    ensures |ParentCell(comments, Some(comments[i].id))| <= DefaultLength + 3
  {
    var r := Seqs.Find(comments, HasId(comments[i].id));
    assert HasId(comments[i].id)(comments[i]);
    var k :| 0 <= k < |comments| && comments[k] == r.value && HasId(comments[i].id)(comments[k]) &&
             forall j :: 0 <= j < k ==> !HasId(comments[i].id)(comments[j]);
    assert k == i;
  }

  function MatchesSearch(searchText: string): Comment -> bool {
    (c: Comment) => ContainsCI(c.content, searchText)
  }

  /** The content column's filter: no filter for an empty search text,
      otherwise a case-insensitive `includes` on the content. */
  function ContentFilter(comments: seq<Comment>, searchText: string): (r: seq<Comment>)
    ensures searchText == "" ==> r == comments
  {
    if searchText == "" then comments else Seqs.Filter(comments, MatchesSearch(searchText))
  }

  /** A comment is shown exactly when it is loaded and its content contains
      the search text, ignoring case; the shown ones keep their order. */
  lemma ContentFilterSpec(comments: seq<Comment>, searchText: string, c: Comment)
    ensures c in ContentFilter(comments, searchText) <==> c in comments && ContainsCI(c.content, searchText)
    ensures Seqs.IsSubseq(ContentFilter(comments, searchText), comments)
  {
    ContentFilterKeepsOrder(comments, searchText);
    if searchText == "" {
      assert ToLower(searchText) == "";
      assert ContainsCI(c.content, searchText);
    } else {
      if c in comments && ContainsCI(c.content, searchText) {
        var i :| 0 <= i < |comments| && comments[i] == c;
        assert MatchesSearch(searchText)(comments[i]);
      }
    }
  }

  lemma ContentFilterKeepsOrder(comments: seq<Comment>, searchText: string)
    ensures Seqs.IsSubseq(ContentFilter(comments, searchText), comments)
  {
    if searchText == "" {
      Seqs.SubseqOfSelf(comments);
    } else {
      Seqs.FilterIsSubseq(comments, MatchesSearch(searchText));
    }
  }

  class Page {
    var selectedArticle: Option<string>
    /** The loaded comments of the selected article. */
    var comments: seq<Comment>
    /** The loaded users, by id. */
    var users: map<string, User>
    var searchText: string

    constructor ()
      ensures selectedArticle.None? && comments == [] && users == map[] && searchText == ""
    {
      selectedArticle := None;
      comments := [];
      users := map[];
      searchText := "";
    }

    /** `fetchUsers` with the user list the route answered, or `None` when
        the request failed. */
    method LoadUsers(reply: Option<seq<User>>)
      modifies this
      ensures reply.Some? ==> users == UsersById(reply.value)
      ensures reply.None? ==> users == old(users)
      ensures selectedArticle == old(selectedArticle) && comments == old(comments) && searchText == old(searchText)
    {
      if reply.Some? {
        users := BuildUsersMap(reply.value);
      }
    }

    /** Selecting an article (or clearing the selection) and the effect that
        follows: with an article, its comments are fetched from the store
        (`ok` false: the request failed and the list is kept); without one,
        the list is cleared. */
    method SelectArticle(article: Option<string>, store: seq<Comment>, ok: bool)
      modifies this
      ensures selectedArticle == article
      ensures Truthy(article) && ok ==> comments == CommentsRoute.List(store, article)
      ensures Truthy(article) && ok ==> forall i :: 0 <= i < |comments| ==> comments[i] in store && comments[i].postId == article.value
      ensures Truthy(article) && !ok ==> comments == old(comments)
      ensures !Truthy(article) ==> comments == []
      ensures users == old(users) && searchText == old(searchText)
    {
      selectedArticle := article;
      if Truthy(article) {
        if ok {
          comments := CommentsRoute.List(store, article);
          forall i | 0 <= i < |comments| ensures comments[i] in store && comments[i].postId == article.value {
            CommentsRoute.ListMembers(store, article, comments[i]);
          }
        }
      } else {
        comments := [];
      }
    }

    /** Typing in the search box. */
    method Search(text: string)
      modifies this
      ensures searchText == text
      ensures selectedArticle == old(selectedArticle) && comments == old(comments) && users == old(users)
    {
      searchText := text;
    }

    /** The rows the table shows. */
    function Visible(): (r: seq<Comment>)
      reads this
      ensures searchText == "" ==> r == comments
      ensures forall c :: c in r <==> c in comments && ContainsCI(c.content, searchText)
      ensures Seqs.IsSubseq(r, comments)
    {
      assert forall c :: c in ContentFilter(comments, searchText) <==> c in comments && ContainsCI(c.content, searchText) by {
        forall c ensures c in ContentFilter(comments, searchText) <==> c in comments && ContainsCI(c.content, searchText) {
          ContentFilterSpec(comments, searchText, c);
        }
      }
      ContentFilterKeepsOrder(comments, searchText);
      ContentFilter(comments, searchText)
    }
  }
}
