/** `/api/articles`: the creation of an article with its defaults (`POST`)
    and the listing newest first (`GET`). */
module ArticlesRoute {
  import opened Wrappers
  import opened Strings
  import opened Seqs
  import opened Records

  /** Eight hours in milliseconds: the stored time is shifted to Beijing time. */
  const BeijingOffset: int := 8 * 60 * 60 * 1000

  /** The body of a `POST`: only these fields are read. */
  datatype NewArticle = NewArticle(title: Option<string>, summary: Option<string>,
                                   tags: Option<seq<string>>, content: Option<string>)

  /** The document a valid body is stored as: the given title, content and
      tags (none given: `[]`), the summary or `''`, the creation time shifted
      by eight hours, and no status and no view count. */
  function Record(body: NewArticle, id: string, now: int): (a: Article)
    requires Truthy(body.title) && Truthy(body.content)
    ensures a.id == id && a.title == body.title.value && a.content == body.content.value
    ensures a.summary == Or(body.summary, "")
    ensures a.tags == (if body.tags.Some? then body.tags.value else [])
    ensures a.createdAt == now + 28800000
    ensures a.status.None? && a.viewCount.None?
  {
    Article(id, body.title.value, Or(body.summary, ""), body.tags.GetOr([]), body.content.value,
            now + BeijingOffset, None, None)
  }

  /** `GET /api/articles`: every article, newest first. */
  function List(articles: seq<Article>): (r: seq<Article>)
    ensures multiset(r) == multiset(articles)
    ensures SortedDesc(r, ArticleCreated)
  {
    SortDesc(articles, ArticleCreated)
  }

  class ArticleStore {
    var articles: seq<Article>

    ghost predicate Valid()
      reads this
    {
      forall i, j :: 0 <= i < j < |articles| ==> articles[i].id != articles[j].id
    }

    constructor ()
      ensures Valid() && articles == []
    {
      articles := [];
    }

    /** `POST /api/articles`: a body without title or content is a 400 and
        inserts nothing; otherwise exactly one record is appended and its id
        returned. */
    method Post(body: NewArticle, freshId: string, now: int) returns (r: Result<string>)
      requires Valid()
      requires forall i :: 0 <= i < |articles| ==> articles[i].id != freshId
      modifies this
      ensures Valid()
      ensures !(Truthy(body.title) && Truthy(body.content)) ==>
        r.Failure? && r.error.status == 400 && articles == old(articles)
      ensures Truthy(body.title) && Truthy(body.content) ==>
        r == Success(freshId) && articles == old(articles) + [Record(body, freshId, now)]
    {
      if !Truthy(body.title) || !Truthy(body.content) {
        return Failure(HttpError(400, "标题和内容不能为空"));
      }
      var beijingTime := now + BeijingOffset;
      var article := Article(freshId, body.title.value, Or(body.summary, ""), body.tags.GetOr([]),
                             body.content.value, beijingTime, None, None);
      articles := articles + [article];
      r := Success(freshId);
    }
  }
}
