/** The settings page: a switch changes one flag of the `articles` object
    and posts the whole settings object. The copy it posts is shallow, so the
    nested `articles` object is shared with the page's current state. */
module SettingsPage {
  import opened SettingsRoute

  /** The three flags a switch can change. */
  const Switches: set<string> := {"defaultShowViewCount", "defaultShowCommentCount", "defaultAllowComments"}

  /** The nested `articles` object. */
  class ArticlesObject {
    var fields: map<string, Json>

    constructor (fields: map<string, Json>)
      ensures this.fields == fields
    {
      this.fields := fields;
    }
  }

  /** A settings object: its top-level fields other than `articles`, and a
      reference to its `articles` object. */
  class SettingsObject {
    var others: map<string, Json>
    var articles: ArticlesObject

    constructor (others: map<string, Json>, articles: ArticlesObject)
      ensures this.others == others && this.articles == articles
    {
      this.others := others;
      this.articles := articles;
    }

    /** `{ ...s }`: a new outer object sharing `s.articles`. */
    constructor Copy(s: SettingsObject)
      ensures others == s.others && articles == s.articles
    {
      others := s.others;
      articles := s.articles;
    }
  }

  /** `JSON.stringify` of a settings object. */
  function Body(s: SettingsObject): Json
    reads s, s.articles
  {
    JObj(s.others["articles" := JObj(s.articles.fields)])
  }

  /** The flags after a switch: a recognised key gets the new value, any
      other key changes nothing. */
  function Switched(fields: map<string, Json>, key: string, value: bool): (r: map<string, Json>)
    ensures key in Switches ==> key in r && r[key] == JBool(value)
    ensures forall k :: k != key ==> (k in r <==> k in fields) && (k in r ==> r[k] == fields[k])
    ensures key !in Switches ==> r == fields
  {
    if key in Switches then fields[key := JBool(value)] else fields
  }

  /** A switch keeps a valid `articles` object valid, so the route accepts
      what the page posts, and the route stores the switched value. */
  lemma SwitchedAccepted(fields: map<string, Json>, key: string, value: bool)
    requires AllFlags(JObj(fields))
    ensures AllFlags(JObj(Switched(fields, key, value)))
    ensures key in Switches ==> Cleaned(JObj(Switched(fields, key, value))).fields[key] == JBool(value)
  {
  }

  /** A posted body as the route receives it, and whether the page was
      showing its saving state when it went out. */
  datatype Post = Post(body: Json, whileSaving: bool)

  class Page {
    var settings: SettingsObject
    var saving: bool
    /** The POST requests sent, oldest first. */
    var posts: seq<Post>

    /** The initial state: all three flags on. */
    constructor ()
      ensures settings.others == map[] && !saving && posts == []
      ensures settings.articles.fields == map["defaultShowViewCount" := JBool(true), "defaultShowCommentCount" := JBool(true),
                                              "defaultAllowComments" := JBool(true)]
    {
      var a := new ArticlesObject(map["defaultShowViewCount" := JBool(true), "defaultShowCommentCount" := JBool(true),
                                      "defaultAllowComments" := JBool(true)]);
      settings := new SettingsObject(map[], a);
      saving := false;
      posts := [];
    }

    /** `updateSetting(key, value)` with the response status `ok`. The
        switched flag is written into the shared `articles` object before
        the request, so the current state shows it whether or not the
        request succeeds; the state is replaced by the copy only on success. */
    method UpdateSetting(key: string, value: bool, ok: bool)
      modifies this, settings.articles
      ensures settings.articles == old(settings.articles)
      ensures settings.articles.fields == Switched(old(settings.articles.fields), key, value)
      ensures settings.others == old(settings.others)
      ensures ok ==> fresh(settings)
      ensures !ok ==> settings == old(settings)
      ensures posts == old(posts) + [Post(JObj(old(settings.others)["articles" := JObj(settings.articles.fields)]), true)]
      ensures !saving
    {
      var update := new SettingsObject.Copy(settings);
      if key in Switches {
        update.articles.fields := update.articles.fields[key := JBool(value)];
      }
      saving := true;
      posts := posts + [Post(Body(update), saving)];
      if ok {
        settings := update;
      }
      saving := false;
    }
  }
}
