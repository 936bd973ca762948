/** `GET /api/comments/count`: the number of comments of each post. */
module CommentCountRoute {
  import opened Records
  import opened Grouping

  /** One output item: exactly the post id and its count. */
  datatype CommentCount = CommentCount(articleId: string, count: nat)

  function PostIds(comments: seq<Comment>): (ids: seq<string>)
    ensures |ids| == |comments| && forall i :: 0 <= i < |comments| ==> ids[i] == comments[i].postId
  {
    seq(|comments|, i requires 0 <= i < |comments| => comments[i].postId)
  }

  /** `$group` by `postId` with `$sum: 1`, projected to `articleId` and `count`. */
  function CommentCounts(comments: seq<Comment>): (r: seq<CommentCount>)
    ensures |r| == |GroupCount(PostIds(comments))|
    ensures forall i :: 0 <= i < |r| ==>
      r[i] == CommentCount(GroupCount(PostIds(comments))[i].key, GroupCount(PostIds(comments))[i].count)
  {
    var gs := GroupCount(PostIds(comments));
    seq(|gs|, i requires 0 <= i < |gs| => CommentCount(gs[i].key, gs[i].count))
  }

  function CountTotal(r: seq<CommentCount>): nat
    decreases |r|
  {
    if r == [] then 0 else CountTotal(r[..|r| - 1]) + r[|r| - 1].count
  }

  /** Every post that has comments appears exactly once; each count is the
      number of its comments and is never zero. */
  lemma CountsPerPost(comments: seq<Comment>)
    ensures var r := CommentCounts(comments);
      (forall i, j :: 0 <= i < j < |r| ==> r[i].articleId != r[j].articleId) &&
      (forall i :: 0 <= i < |r| ==> r[i].count == Occurrences(PostIds(comments), r[i].articleId) > 0) &&
      (forall k :: 0 <= k < |comments| ==> exists i :: 0 <= i < |r| && r[i].articleId == comments[k].postId)
  {
    CountsDistinct(comments);
    CountsAreOccurrences(comments);
    CountsCoverPosts(comments);
  }

  lemma CountsDistinct(comments: seq<Comment>)
    ensures var r := CommentCounts(comments);
      forall i, j :: 0 <= i < j < |r| ==> r[i].articleId != r[j].articleId
  {
    GroupCountGroups(PostIds(comments));
  }

  lemma CountsAreOccurrences(comments: seq<Comment>)
    ensures var r := CommentCounts(comments);
      forall i :: 0 <= i < |r| ==> r[i].count == Occurrences(PostIds(comments), r[i].articleId) > 0
  {
    GroupCountGroups(PostIds(comments));
  }

  lemma CountsCoverPosts(comments: seq<Comment>)
    ensures var r := CommentCounts(comments);
      forall k :: 0 <= k < |comments| ==> exists i :: 0 <= i < |r| && r[i].articleId == comments[k].postId
  {
    var ids := PostIds(comments);
    var r := CommentCounts(comments);
    var gs := GroupCount(ids);
    GroupCountGroups(ids);
    forall k | 0 <= k < |comments| ensures exists i :: 0 <= i < |r| && r[i].articleId == comments[k].postId {
      assert ids[k] == comments[k].postId;
      var i :| 0 <= i < |gs| && gs[i].key == ids[k];
      assert r[i].articleId == comments[k].postId;
    }
  }

  lemma {:induction false} CountTotalIsTotal(gs: seq<Group<string>>, r: seq<CommentCount>)
    requires |r| == |gs| && forall i :: 0 <= i < |r| ==> r[i].count == gs[i].count
    ensures CountTotal(r) == Total(gs)
    decreases |r|
  {
    if r != [] {
      CountTotalIsTotal(gs[..|gs| - 1], r[..|r| - 1]);
    }
  }

  /** The counts add up to the number of comments. */
  lemma CountsSumToTotal(comments: seq<Comment>)
    ensures CountTotal(CommentCounts(comments)) == |comments|
  {
    var gs := GroupCount(PostIds(comments));
    CountTotalIsTotal(gs, CommentCounts(comments));
    GroupCountTotal(PostIds(comments));
  }
}
