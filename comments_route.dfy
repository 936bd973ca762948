/** `/api/comments`: the listing filtered by post and ordered newest first
    (`GET`), and the creation of a comment with its defaults (`POST`). */
module CommentsRoute {
  import opened Wrappers
  import opened Strings
  import opened Seqs
  import opened Records

  function OnPost(postId: string): Comment -> bool {
    (c: Comment) => c.postId == postId
  }

  /** `GET /api/comments?postId=...`: the comments of that post, or all of
      them when no post is given, newest first. */
  function List(comments: seq<Comment>, postId: Option<string>): (r: seq<Comment>)
    ensures SortedDesc(r, CommentCreated)
    ensures multiset(r) == multiset(if Truthy(postId) then Filter(comments, OnPost(postId.value)) else comments)
  {
    SortDesc(if Truthy(postId) then Filter(comments, OnPost(postId.value)) else comments, CommentCreated)
  }

  /** A comment is listed exactly when it is stored and, when a post is
      given, belongs to that post. */
  lemma ListMembers(comments: seq<Comment>, postId: Option<string>, c: Comment)
    ensures c in List(comments, postId) <==> c in comments && (Truthy(postId) ==> c.postId == postId.value)
  {
    var src := if Truthy(postId) then Filter(comments, OnPost(postId.value)) else comments;
    MultisetMember(List(comments, postId), src, c);
    if Truthy(postId) && c in comments && c.postId == postId.value {
      var i :| 0 <= i < |comments| && comments[i] == c;
      assert OnPost(postId.value)(comments[i]);
    }
    if Truthy(postId) && c in src {
      var i :| 0 <= i < |src| && src[i] == c;
    }
  }

  /** The body of a `POST`: only these fields are read. */
  datatype NewComment = NewComment(postId: Option<string>, content: Option<string>,
                                   author: Option<Author>, status: Option<string>,
                                   parentId: Option<string>)

  const AnonymousAuthor := Author("匿名用户")

  /** The document a valid body is stored as, at time `now` under the id the
      store assigns: given author or the anonymous one, given status or
      `pending`, both timestamps `now`, and no parent or user. */
  function Record(body: NewComment, id: string, now: int): (c: Comment)
    requires Truthy(body.postId) && Truthy(body.content)
    ensures c.id == id && c.postId == body.postId.value && c.content == body.content.value
    ensures c.author == (if body.author.Some? then body.author.value else AnonymousAuthor)
    ensures c.status == Or(body.status, "pending")
    ensures c.parentId.None? && c.userId.None? && c.createdAt == now && c.updatedAt == now
  {
    Comment(id, body.postId.value, body.content.value,
            if body.author.Some? then body.author.value else AnonymousAuthor,
            Or(body.status, "pending"), None, None, now, now)
  }

  /** A parent id in the body is not stored. */
  lemma ParentNotKept(body: NewComment, id: string, now: int)
    requires Truthy(body.postId) && Truthy(body.content) && body.parentId.Some?
    ensures Record(body, id, now).parentId == None
  {
  }

  class CommentStore {
    var comments: seq<Comment>

    ghost predicate Valid()
      reads this
    {
      forall i, j :: 0 <= i < j < |comments| ==> comments[i].id != comments[j].id
    }

    constructor ()
      ensures Valid() && comments == []
    {
      comments := [];
    }

    /** `POST /api/comments`: a body without post id or content is a 400 and
        inserts nothing; otherwise exactly one record is appended and its id
        returned. `freshId` is the id the store assigns. */
    method Post(body: NewComment, freshId: string, now: int) returns (r: Result<string>)
      requires Valid()
      requires forall i :: 0 <= i < |comments| ==> comments[i].id != freshId
      modifies this
      ensures Valid()
      ensures !(Truthy(body.postId) && Truthy(body.content)) ==>
        r.Failure? && r.error.status == 400 && comments == old(comments)
      ensures Truthy(body.postId) && Truthy(body.content) ==>
        r == Success(freshId) && comments == old(comments) + [Record(body, freshId, now)]
    {
      if !Truthy(body.postId) || !Truthy(body.content) {
        return Failure(HttpError(400, "文章ID和评论内容为必填项"));
      }
      var commentData := Record(body, freshId, now);
      comments := comments + [commentData];
      r := Success(freshId);
    }
  }
}
