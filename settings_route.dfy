/** `/api/settings`: one settings document, created with defaults on first
    read (`GET`) and overwritten field-checked (`POST`). */
module SettingsRoute {
  import opened Wrappers

  /** A JSON value as the request body and the stored document hold it. */
  datatype Json = JNull | JBool(b: bool) | JNum(n: int) | JStr(s: string) | JObj(fields: map<string, Json>)

  /** JavaScript truthiness of a JSON value; an object is always truthy. */
  predicate Truthy(j: Json) {
    match j
    case JNull => false
    case JBool(b) => b
    case JNum(n) => n != 0
    case JStr(s) => s != ""
    case JObj(_) => true
  }

  /** `j[k]`: present only on an object that has the key. */
  function Field(j: Json, k: string): (r: Option<Json>)
    ensures r.Some? <==> j.JObj? && k in j.fields
  {
    if j.JObj? && k in j.fields then Some(j.fields[k]) else None
  }

  /** The field `k` of `j` is present and a boolean. */
  predicate IsBool(j: Json, k: string) {
    Field(j, k).Some? && Field(j, k).value.JBool?
  }

  const RequiredSettings: seq<string> := ["defaultShowViewCount", "defaultShowCommentCount", "defaultAllowComments"]

  /** Every required flag is a boolean. */
  predicate AllFlags(a: Json) {
    IsBool(a, "defaultShowViewCount") && IsBool(a, "defaultShowCommentCount") && IsBool(a, "defaultAllowComments")
  }

  lemma AllFlagsRequired(a: Json)
    ensures AllFlags(a) <==> forall i :: 0 <= i < |RequiredSettings| ==> IsBool(a, RequiredSettings[i])
  {
    if forall i :: 0 <= i < |RequiredSettings| ==> IsBool(a, RequiredSettings[i]) {
      assert IsBool(a, RequiredSettings[0]) && IsBool(a, RequiredSettings[1]) && IsBool(a, RequiredSettings[2]);
    }
  }

  /** The flags of a valid `articles` object, the other keys dropped. */
  function Cleaned(a: Json): (j: Json)
    requires AllFlags(a)
    ensures j.JObj? && j.fields.Keys == {"defaultShowViewCount", "defaultShowCommentCount", "defaultAllowComments"}
    ensures forall k :: k in j.fields ==> j.fields[k] == a.fields[k]
  {
    Flags(a.fields["defaultShowViewCount"].b, a.fields["defaultShowCommentCount"].b, a.fields["defaultAllowComments"].b)
  }

  /** The `articles` object holding exactly the three flags. */
  function Flags(view: bool, comment: bool, allow: bool): (j: Json)
    ensures j.JObj? && j.fields.Keys == {"defaultShowViewCount", "defaultShowCommentCount", "defaultAllowComments"}
    ensures IsBool(j, "defaultShowViewCount") && IsBool(j, "defaultShowCommentCount") && IsBool(j, "defaultAllowComments")
  {
    JObj(map["defaultShowViewCount" := JBool(view), "defaultShowCommentCount" := JBool(comment),
             "defaultAllowComments" := JBool(allow)])
  }

  /** The document inserted when the store is empty. */
  function Defaults(): map<string, Json> {
    map["articles" := Flags(true, true, true)]
  }

  /** The first required flag that is missing or not a boolean, checked in
      the order of the list; `None` when all three are booleans. */
  method FirstInvalid(articles: Json) returns (bad: Option<string>)
    ensures bad.None? <==> forall i :: 0 <= i < |RequiredSettings| ==> IsBool(articles, RequiredSettings[i])
    ensures bad.Some? ==> exists i :: 0 <= i < |RequiredSettings| && bad.value == RequiredSettings[i] &&
                                      !IsBool(articles, RequiredSettings[i]) &&
                                      forall j :: 0 <= j < i ==> IsBool(articles, RequiredSettings[j])
  {
    var i := 0;
    while i < |RequiredSettings|
      invariant 0 <= i <= |RequiredSettings|
      invariant forall j :: 0 <= j < i ==> IsBool(articles, RequiredSettings[j])
    {
      var setting := RequiredSettings[i];
      if !IsBool(articles, setting) {
        return Some(setting);
      }
      i := i + 1;
    }
    return None;
  }

  /** The settings a `GET` returns: the first document, or the defaults. */
  function Current(docs: seq<map<string, Json>>): map<string, Json> {
    if docs == [] then Defaults() else docs[0]
  }

  /** The upsert of the settings slot: the first document
      gets the new `articles` field and keeps its other fields; an empty store
      gets a document holding only `articles`. */
  function Upsert(docs: seq<map<string, Json>>, articles: Json): (r: seq<map<string, Json>>)
    ensures |r| == if docs == [] then 1 else |docs|
    ensures r[0] == (if docs == [] then map[] else docs[0])["articles" := articles]
    ensures r[1..] == if docs == [] then [] else docs[1..]
  {
    if docs == [] then
      assert map[]["articles" := articles] == map["articles" := articles];
      [map["articles" := articles]]
    else [docs[0]["articles" := articles]] + docs[1..]
  }

  /** A read after a write sees the written flags, whatever was stored before,
      and writing twice leaves what writing once does. */
  lemma ReadAfterWrite(docs: seq<map<string, Json>>, articles: Json, other: Json)
    ensures "articles" in Current(Upsert(docs, articles)) && Current(Upsert(docs, articles))["articles"] == articles
    ensures forall k :: k in Current(docs) && k != "articles" && docs != [] ==>
              k in Current(Upsert(docs, articles)) && Current(Upsert(docs, articles))[k] == Current(docs)[k]
    ensures Upsert(Upsert(docs, other), articles) == Upsert(docs, articles)
  {
    var m := if docs == [] then map[] else docs[0];
    assert m["articles" := other]["articles" := articles] == m["articles" := articles];
    var once := Upsert(docs, articles);
    var twice := Upsert(Upsert(docs, other), articles);
    assert |twice| == |once| && twice[0] == once[0] && twice[1..] == once[1..];
    assert twice == [twice[0]] + twice[1..] && once == [once[0]] + once[1..];
  }

  /** The `POST` response: the new flags. */
  datatype Saved = Saved(articles: Json)

  class SettingsStore {
    var docs: seq<map<string, Json>>

    /** The collection holds the one settings slot. */
    ghost predicate Valid()
      reads this
    {
      |docs| <= 1
    }

    constructor ()
      ensures Valid() && docs == []
    {
      docs := [];
    }

    /** `GET`: an empty store gets the defaults inserted and returned; otherwise
        the stored document is returned and nothing is inserted. */
    method Get() returns (settings: map<string, Json>)
      requires Valid()
      modifies this
      ensures Valid()
      ensures settings == Current(old(docs))
      ensures docs == if old(docs) == [] then [Defaults()] else old(docs)
    {
      if docs == [] {
        var defaultSettings := Defaults();
        docs := docs + [defaultSettings];
        return defaultSettings;
      }
      settings := docs[0];
    }

    /** `POST`: a falsy `articles` is a 400, the first flag that is not a
        boolean is a 400 naming it, both leaving the store alone; otherwise the
        three flags, and nothing else from the body, are upserted. */
    method Post(body: Json) returns (r: Result<Saved>)
      requires Valid()
      modifies this
      ensures Valid()
      ensures Field(body, "articles").None? || !Truthy(Field(body, "articles").value) ==>
        r == Failure(HttpError(400, "缺少文章设置字段")) && docs == old(docs)
      ensures Field(body, "articles").Some? && Truthy(Field(body, "articles").value) ==>
        var a := Field(body, "articles").value;
        if AllFlags(a) then
          r == Success(Saved(Cleaned(a))) && docs == Upsert(old(docs), Cleaned(a))
        else
          r.Failure? && r.error.status == 400 && docs == old(docs) &&
          exists i :: 0 <= i < |RequiredSettings| && !IsBool(a, RequiredSettings[i]) &&
            (forall j :: 0 <= j < i ==> IsBool(a, RequiredSettings[j])) &&
            r.error.message == "文章设置中缺少" + RequiredSettings[i] + "字段或类型不正确"
    {
      var articles := Field(body, "articles");
      if articles.None? || !Truthy(articles.value) {
        return Failure(HttpError(400, "缺少文章设置字段"));
      }
      var a := articles.value;
      var bad := FirstInvalid(a);
      if bad.Some? {
        AllFlagsRequired(a);
        return Failure(HttpError(400, "文章设置中缺少" + bad.value + "字段或类型不正确"));
      }
      AllFlagsRequired(a);
      var updateData := Cleaned(a);
      docs := Upsert(docs, updateData);
      r := Success(Saved(updateData));
    }
  }
}
