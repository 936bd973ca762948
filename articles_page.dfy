/** The article list page: `handleEdit`, which hands an article over to the
    editor through session storage and then opens the editor. */
module ArticlesPage {
  import opened Wrappers
  import opened Strings
  import MarkdownEditor

  /** An article row as the list received it; any field may be missing. */
  datatype Row = Row(id: Option<string>, title: Option<string>, content: Option<string>,
                     summary: Option<string>, tags: Option<seq<string>>)

  /** The hand-off needs an id, a title and content. */
  predicate Complete(a: Row) {
    Truthy(a.id) && Truthy(a.title) && Truthy(a.content)
  }

  /** The five session storage entries written for an article. */
  function HandOff(session: map<string, string>, a: Row): (m: map<string, string>)
    requires Complete(a)
    ensures m.Keys == session.Keys + {"markdownContent", "articleTitle", "articleSummary", "articleTags", "editingArticleId"}
    ensures forall k :: k in session && k !in {"markdownContent", "articleTitle", "articleSummary", "articleTags", "editingArticleId"} ==> m[k] == session[k]
  {
    session["markdownContent" := a.content.value]["articleTitle" := a.title.value]
           ["articleSummary" := Or(a.summary, "")]["articleTags" := Join(a.tags.GetOr([]), ",")]
           ["editingArticleId" := a.id.value]
  }

  /** What the read-back check looks for. */
  predicate ReadBackOk(session: map<string, string>) {
    "markdownContent" in session && session["markdownContent"] != "" &&
    "articleTitle" in session && session["articleTitle"] != "" &&
    "editingArticleId" in session && session["editingArticleId"] != ""
  }

  /** Once the row is complete, the read-back check finds what was written. */
  lemma ReadBackNeverFails(session: map<string, string>, a: Row)
    requires Complete(a)
    ensures ReadBackOk(HandOff(session, a))
    ensures var m := HandOff(session, a);
      m["markdownContent"] == a.content.value && m["articleTitle"] == a.title.value &&
      m["editingArticleId"] == a.id.value && m["articleSummary"] == Or(a.summary, "")
  {
  }

  /** The stored tag field, parsed the way the editor parses it, gives the
      article's tags back when each is non-empty, free of commas and without
      white space at either end. */
  lemma HandOffTagsRoundTrip(session: map<string, string>, a: Row)
    requires Complete(a)
    requires forall i :: 0 <= i < |a.tags.GetOr([])| ==> MarkdownEditor.CleanTag(a.tags.GetOr([])[i])
    ensures MarkdownEditor.ParseTags(HandOff(session, a)["articleTags"]) == a.tags.GetOr([])
  {
    MarkdownEditor.ParseJoinedTags(a.tags.GetOr([]));
  }

  class ArticleList {
    /** The browser's session storage. */
    var session: map<string, string>
    /** The pages navigated to, oldest first. */
    var navigations: seq<string>

    constructor (session: map<string, string>)
      ensures this.session == session && navigations == []
    {
      this.session := session;
      navigations := [];
    }

    /** `handleEdit`: an incomplete row is refused before anything is
        written; otherwise the five entries are written, read back, and the
        editor is opened. */
    method HandleEdit(a: Row) returns (error: Option<string>)
      modifies this
      ensures !Complete(a) ==> error == Some("文章数据不完整") && session == old(session) && navigations == old(navigations)
      ensures Complete(a) ==> error.None? && session == HandOff(old(session), a) && navigations == old(navigations) + ["/write"]
    {
      if !Truthy(a.id) || !Truthy(a.title) || !Truthy(a.content) {
        return Some("文章数据不完整");
      }
      session := session["markdownContent" := a.content.value];
      session := session["articleTitle" := a.title.value];
      session := session["articleSummary" := Or(a.summary, "")];
      session := session["articleTags" := Join(a.tags.GetOr([]), ",")];
      session := session["editingArticleId" := a.id.value];
      ReadBackNeverFails(old(session), a);
      var ok := ReadBackOk(session);
      if ok {
        navigations := navigations + ["/write"];
        error := None;
      } else {
        error := Some("数据保存失败");
      }
    }
  }
}
