/** The article editor: form validation, the tag field, the inserted image
    link, the generated summary and tags, the status switch and the reset of
    the editor and of its saved draft. */
module MarkdownEditor {
  import opened Wrappers
  import opened Strings
  import Seqs
  import Grouping

  /** The characters the summary and the tag picker treat as Markdown
      syntax: `#`, `*`, a backquote, `_`, `[`, `]`, `(`, `)` and `>`. */
  predicate Markup(c: char) {
    c in "#*`_[]()>"
  }

  predicate NoMarkup(s: string) {
    forall i :: 0 <= i < |s| ==> !Markup(s[i])
  }

  /** Deleting every Markdown character. */
  function StripMarkup(s: string): (r: string)
    ensures |r| <= |s|
    ensures NoMarkup(r)
    decreases |s|
  {
    if s == [] then []
    else (if Markup(s[0]) then [] else [s[0]]) + StripMarkup(s[1..])
  }

  /** A text without Markdown characters is left as it is, and only such a
      text is. */
  lemma {:induction false} StripMarkupKeeps(s: string)
    ensures StripMarkup(s) == s <==> NoMarkup(s)
    decreases |s|
  {
    if s != [] {
      StripMarkupKeeps(s[1..]);
      if Markup(s[0]) {
        assert |StripMarkup(s)| < |s| by {
          assert StripMarkup(s) == StripMarkup(s[1..]);
        }
      } else {
        assert StripMarkup(s) == [s[0]] + StripMarkup(s[1..]);
        assert s == [s[0]] + s[1..];
        if StripMarkup(s) == s {
          assert StripMarkup(s[1..]) == s[1..];
        }
        if NoMarkup(s) {
          assert NoMarkup(s[1..]) by {
            forall i | 0 <= i < |s[1..]| ensures !Markup(s[1..][i]) {
              assert s[1..][i] == s[i + 1];
            }
          }
        }
      }
    }
  }

  /** Replacing every Markdown character by a space. */
  function BlankMarkup(s: string): (r: string)
    ensures |r| == |s| && NoMarkup(r)
  {
    seq(|s|, i requires 0 <= i < |s| => if Markup(s[i]) then ' ' else s[i])
  }

  const SummaryLength := 100

  /** The generated summary. */
  function Summary(content: string): (r: string)
    ensures |r| <= SummaryLength + 3
  {
    var plain := StripMarkup(content);
    Trim(Seqs.Take(plain, SummaryLength)) + (if |plain| > SummaryLength then "..." else "")
  }

  /** The summary is the first 100 characters of the content with its
      Markdown characters deleted, white space trimmed off both ends, and
      `...` after it exactly when the text without markup is longer. */
  lemma SummaryShape(content: string)
    ensures var r := Summary(content);
      var plain := StripMarkup(content);
      var dots := if |plain| > SummaryLength then "..." else "";
      |r| >= |dots| && r[|r| - |dots|..] == dots && TrimOf(r[..|r| - |dots|], Seqs.Take(plain, SummaryLength))
  {
    var plain := StripMarkup(content);
    var head := Seqs.Take(plain, SummaryLength);
    TrimIsSlice(head);
    var core := Trim(head);
    var dots := if |plain| > SummaryLength then "..." else "";
    assert (core + dots)[..|core|] == core;
  }

  /** A short text without Markdown characters and without white space at
      either end is its own summary. */
  lemma SummaryOfPlainText(s: string)
    requires NoMarkup(s) && Trimmed(s) && |s| <= SummaryLength
    ensures Summary(s) == s
  {
    StripMarkupKeeps(s);
    TrimKeepsTrimmed(s);
    assert StripMarkup(s) == s;
    assert Seqs.Take(s, SummaryLength) == s;
    assert Summary(s) == Trim(s) + "";
  }

  /** A summary gets `...` appended only when the text is longer than 100
      characters once its Markdown characters are gone. */
  lemma SummaryShortensLongText(content: string)
    requires |StripMarkup(content)| > SummaryLength
    ensures EndsWith(Summary(content), "...") && |Summary(content)| <= SummaryLength + 3
  {
  }

  /** No tag is empty, holds a comma or has white space at either end. */
  predicate CleanTag(t: string) {
    t != "" && ',' !in t && Trimmed(t)
  }

  function NonEmpty(): string -> bool {
    t => t != ""
  }

  function TrimAll(xs: seq<string>): (r: seq<string>)
    ensures |r| == |xs| && forall i :: 0 <= i < |xs| ==> r[i] == Trim(xs[i])
  {
    seq(|xs|, i requires 0 <= i < |xs| => Trim(xs[i]))
  }

  /** A trimmed non-empty part of a comma split is a clean tag. */
  lemma TrimmedPartClean(part: string)
    requires ',' !in part && Trim(part) != ""
    ensures CleanTag(Trim(part))
  {
    if ',' in Trim(part) {
      TrimChars(part, ',');
    }
  }

  /** The tag field as an array: split on `,`, each part trimmed, the empty
      parts dropped; an empty field gives no tags. */
  function ParseTags(field: string): (tags: seq<string>)
    ensures forall i :: 0 <= i < |tags| ==> CleanTag(tags[i])
    ensures field == "" ==> tags == []
  {
    if field == "" then []
    else
      var parts := Split(field, ',');
      var trimmed := TrimAll(parts);
      var tags := Seqs.Filter(trimmed, NonEmpty());
      assert forall i :: 0 <= i < |tags| ==> CleanTag(tags[i]) by {
        forall i | 0 <= i < |tags| ensures CleanTag(tags[i]) {
          var k :| 0 <= k < |trimmed| && trimmed[k] == tags[i];
          TrimmedPartClean(parts[k]);
        }
      }
      tags
  }

  /** Tags joined with `,` parse back to themselves when each is clean. */
  lemma ParseJoinedTags(tags: seq<string>)
    requires forall i :: 0 <= i < |tags| ==> CleanTag(tags[i])
    ensures ParseTags(Join(tags, ",")) == tags
  {
    if tags != [] {
      var field := Join(tags, ",");
      JoinStart(tags, ",");
      assert field != "" by {
        assert CleanTag(tags[0]);
      }
      SplitJoin(tags, ',');
      assert Split(field, ',') == tags;
      TrimmedTags(tags);
      Seqs.FilterAll(tags, NonEmpty());
    }
  }

  lemma TrimmedTags(tags: seq<string>)
    requires forall i :: 0 <= i < |tags| ==> CleanTag(tags[i])
    ensures TrimAll(tags) == tags
  {
    var r := TrimAll(tags);
    forall i | 0 <= i < |tags| ensures r[i] == tags[i] {
      assert CleanTag(tags[i]) && Trimmed(tags[i]);
      TrimKeepsTrimmed(tags[i]);
    }
    assert |r| == |tags|;
  }

  /** The image link goes after the text on a new line: the old text is kept
      as the start and the link is what follows the line break. */
  function InsertAtCursor(text: string, insertion: string): (r: string)
    ensures |r| == |text| + 1 + |insertion|
    ensures StartsWith(r, text) && r[|text|] == '\n' && r[|text| + 1..] == insertion
  {
    text + "\n" + insertion
  }

  /** `validateForm`: the message of the first failing check, title first. */
  function Validate(title: string, content: string): (r: Option<string>)
    ensures r.None? <==> !AllSpace(title) && !AllSpace(content)
    ensures AllSpace(title) ==> r == Some("请输入文章标题")
    ensures !AllSpace(title) && AllSpace(content) ==> r == Some("请输入文章内容")
  {
    if Trim(title) == "" then Some("请输入文章标题")
    else if Trim(content) == "" then Some("请输入文章内容")
    else None
  }

  const StopWords: seq<string> := ["this", "that", "than", "with", "from", "have", "what"]

  /** A word the tag picker counts. */
  predicate Keyword(w: string) {
    |w| > 3 && w !in StopWords
  }

  function KeywordBy(): string -> bool {
    w => Keyword(w)
  }

  predicate NoUpper(s: string) {
    forall i :: 0 <= i < |s| ==> !('A' <= s[i] <= 'Z')
  }

  /** The content lower-cased, its Markdown characters turned into spaces,
      split at white space, the short words and the stop words dropped. */
  function ContentWords(content: string): (r: seq<string>)
    ensures forall i :: 0 <= i < |r| ==> Keyword(r[i]) && NoSep(r[i], Space)
    ensures forall w :: w in SplitOn(BlankMarkup(ToLower(content)), Space) && Keyword(w) ==> w in r
  {
    var fields := SplitOn(BlankMarkup(ToLower(content)), Space);
    var r := Seqs.Filter(fields, KeywordBy());
    assert forall i :: 0 <= i < |r| ==> Keyword(r[i]) && NoSep(r[i], Space) by {
      forall i | 0 <= i < |r| ensures Keyword(r[i]) && NoSep(r[i], Space) {
        assert KeywordBy()(r[i]);
        var j :| 0 <= j < |fields| && fields[j] == r[i];
      }
    }
    assert forall w :: w in fields && Keyword(w) ==> w in r by {
      forall w | w in fields && Keyword(w) ensures w in r {
        var j :| 0 <= j < |fields| && fields[j] == w;
        assert KeywordBy()(fields[j]);
      }
    }
    r
  }

  /** Every counted word is lower case, longer than three characters, not a
      stop word, and free of white space and Markdown characters. */
  lemma ContentWordsShape(content: string, w: string)
    requires w in ContentWords(content)
    ensures Keyword(w) && NoUpper(w) && NoMarkup(w) && NoSep(w, Space)
  {
    var text := BlankMarkup(ToLower(content));
    var parts := SplitOn(text, Space);
    assert forall i :: 0 <= i < |text| ==> !('A' <= text[i] <= 'Z') && !Markup(text[i]);
    SplitOnKeeps(text, Space, c => !('A' <= c <= 'Z') && !Markup(c));
    var i :| 0 <= i < |ContentWords(content)| && ContentWords(content)[i] == w;
    var k :| 0 <= k < |parts| && parts[k] == w;
  }

  /** How often a word occurs among the counted words. */
  function Frequency(words: seq<string>): string -> int {
    w => Grouping.Occurrences(words, w)
  }

  /** The generated tags: the distinct words by non-increasing frequency,
      equally frequent words in order of first occurrence, the first three. */
  function TopTags(words: seq<string>): (r: seq<string>)
    ensures var n := |Grouping.DistinctKeys(words)|; |r| == if n < 3 then n else 3
  {
    Seqs.Take(Seqs.SortDesc(Grouping.DistinctKeys(words), Frequency(words)), 3)
  }

  /** At most three tags, distinct, each one of the words, by non-increasing
      frequency, and none only when there are no words. */
  lemma TopTagsShape(words: seq<string>)
    ensures var r := TopTags(words);
      |r| <= 3 && Grouping.Distinct(r) && (r == [] <==> words == []) &&
      (forall i :: 0 <= i < |r| ==> r[i] in words) &&
      forall i, j :: 0 <= i < j < |r| ==> Grouping.Occurrences(words, r[i]) >= Grouping.Occurrences(words, r[j])
  {
    var ks := Grouping.DistinctKeys(words);
    var sorted := Seqs.SortDesc(ks, Frequency(words));
    var r := TopTags(words);
    Grouping.PermutationDistinct(ks, sorted);
    forall i | 0 <= i < |r| ensures r[i] in words {
      Seqs.MultisetMember(sorted, ks, r[i]);
    }
    if words != [] {
      assert words[0] in ks;
      Seqs.MultisetMember(sorted, ks, words[0]);
    }
  }

  /** No word left out is more frequent than a tag, and a word is only left
      out when there are three tags. */
  lemma TopTagsBest(words: seq<string>, w: string)
    requires w in words && w !in TopTags(words)
    ensures var r := TopTags(words);
      |r| == 3 && forall i :: 0 <= i < |r| ==> Grouping.Occurrences(words, w) <= Grouping.Occurrences(words, r[i])
  {
    var ks := Grouping.DistinctKeys(words);
    var sorted := Seqs.SortDesc(ks, Frequency(words));
    var r := TopTags(words);
    var k :| 0 <= k < |words| && words[k] == w;
    assert w in ks;
    Seqs.MultisetMember(sorted, ks, w);
    var j :| 0 <= j < |sorted| && sorted[j] == w;
    assert j >= 3;
    forall i | 0 <= i < |r| ensures Grouping.Occurrences(words, w) <= Grouping.Occurrences(words, r[i]) {
      assert r[i] == sorted[i];
      assert Frequency(words)(sorted[i]) >= Frequency(words)(sorted[j]);
    }
  }

  /** `freq` counts exactly the words of `seen`. */
  ghost predicate Counts(freq: map<string, nat>, seen: seq<string>) {
    (forall w :: w in freq <==> w in seen) &&
    (forall w :: w in freq ==> freq[w] == Grouping.Occurrences(seen, w))
  }

  /** Counting one more word: one more for a known word, a first count of 1
      for a new one. */
  lemma CountsStep(freq: map<string, nat>, seen: seq<string>, w: string)
    requires Counts(freq, seen)
    ensures w in freq ==> Counts(freq[w := freq[w] + 1], seen + [w])
    ensures w !in freq ==> Counts(freq[w := 1], seen + [w])
  {
    forall v ensures Grouping.Occurrences(seen + [w], v) == Grouping.Occurrences(seen, v) + (if v == w then 1 else 0) {
      Grouping.OccurrencesSnoc(seen, w, v);
    }
  }

  /** `wordFreq`: one pass over the words, counting each in a dictionary
      whose keys come out in order of first occurrence. */
  method WordFreq(words: seq<string>) returns (freq: map<string, nat>, keys: seq<string>)
    ensures keys == Grouping.DistinctKeys(words)
    ensures forall w :: w in freq <==> w in words
    ensures forall w :: w in freq ==> freq[w] == Grouping.Occurrences(words, w)
  {
    freq, keys := map[], [];
    var i := 0;
    while i < |words|
      invariant 0 <= i <= |words|
      invariant keys == Grouping.DistinctKeys(words[..i])
      invariant Counts(freq, words[..i])
    {
      var w := words[i];
      assert words[..i + 1] == words[..i] + [w];
      Grouping.DistinctKeysSnoc(words[..i], w);
      CountsStep(freq, words[..i], w);
      if w in freq {
        freq := freq[w := freq[w] + 1];
      } else {
        keys := keys + [w];
        freq := freq[w := 1];
      }
      i := i + 1;
    }
    assert words[..i] == words;
  }

  /** The tag candidates of `generateSummaryAndTags`. */
  method TagCandidates(content: string) returns (tags: seq<string>)
    ensures tags == TopTags(ContentWords(content))
  {
    var words := ContentWords(content);
    var freq, keys := WordFreq(words);
    var count := w => if w in freq then freq[w] as int else 0;
    var sorted := Seqs.SortDesc(keys, count);
    tags := Seqs.Take(sorted, 3);
    Seqs.SortDescEquiv(keys, count, Frequency(words));
  }

  /** The editor's local storage keys of the saved draft. */
  const DraftKeys: set<string> := {"markdownContent", "articleTitle", "articleSummary", "articleTags",
                                   "articleCoverImage", "editingArticleId", "articleStatus"}

  /** The article the editor hands to its save callback. */
  datatype ArticleData = ArticleData(title: string, content: string, summary: string, tags: seq<string>,
                                     status: string, coverImage: string, id: Option<string>)

  datatype Publication = Refused(message: string) | Ready(data: ArticleData)

  class Editor {
    var markdown: string
    var title: string
    var summary: string
    var tags: string
    var status: string
    var coverImage: string
    var editingId: Option<string>
    /** The browser's local storage. */
    var storage: map<string, string>

    /** An empty editor over the given storage. */
    constructor (storage: map<string, string>)
      ensures markdown == "" && title == "" && summary == "" && tags == "" && coverImage == ""
      ensures status == "published" && editingId.None? && this.storage == storage
    {
      markdown, title, summary, tags, coverImage := "", "", "", "", "";
      status, editingId := "published", None;
      this.storage := storage;
    }

    /** The article `publishArticle` sends: nothing when validation fails,
        otherwise the title, content, summary, status and cover image as they
        stand, the tag field parsed, and the id of the article being edited,
        if any. */
    function Publish(): (p: Publication)
      reads this
      ensures p.Refused? <==> Validate(title, markdown).Some?
      ensures p.Refused? ==> p.message == Validate(title, markdown).value
      ensures p.Ready? ==> p.data.tags == ParseTags(tags) && p.data.title == title && p.data.content == markdown
      ensures p.Ready? ==> p.data.summary == summary && p.data.status == status && p.data.coverImage == coverImage
      ensures p.Ready? ==> (p.data.id.Some? <==> Truthy(editingId)) && (p.data.id.Some? ==> p.data.id == editingId)
    {
      match Validate(title, markdown)
      case Some(m) => Refused(m)
      case None =>
        Ready(ArticleData(title, markdown, summary, ParseTags(tags), status, coverImage,
                          if Truthy(editingId) then editingId else None))
    }

    /** The status switch. */
    method StatusChange(checked: bool)
      modifies this
      ensures status == (if checked then "published" else "draft")
      ensures markdown == old(markdown) && title == old(title) && summary == old(summary) && tags == old(tags)
      ensures coverImage == old(coverImage) && editingId == old(editingId) && storage == old(storage)
    {
      status := if checked then "published" else "draft";
    }

    /** An uploaded image: its Markdown link goes after the text. */
    method ImageUploaded(name: string, url: string)
      modifies this
      ensures markdown == InsertAtCursor(old(markdown), "![" + name + "](" + url + ")")
      ensures title == old(title) && summary == old(summary) && tags == old(tags) && status == old(status)
      ensures coverImage == old(coverImage) && editingId == old(editingId) && storage == old(storage)
    {
      markdown := InsertAtCursor(markdown, "![" + name + "](" + url + ")");
    }

    /** `clearArticleData`: every field emptied, no article being edited,
        status back to published, and the saved draft removed from storage
        with every other entry kept. */
    method ClearArticleData()
      modifies this
      ensures markdown == "" && title == "" && summary == "" && tags == "" && coverImage == ""
      ensures editingId.None? && status == "published"
      ensures storage == old(storage) - DraftKeys
      ensures forall k :: k in DraftKeys ==> k !in storage
    {
      markdown, title, summary, tags, coverImage := "", "", "", "", "";
      editingId, status := None, "published";
      storage := storage - DraftKeys;
    }

    /** `generateSummaryAndTags`: nothing happens for blank content (the
        warning); otherwise an empty summary gets the generated one and an
        empty tag field gets the generated tags when there are any. */
    method Generate() returns (warned: bool)
      modifies this
      ensures warned <==> AllSpace(old(markdown))
      ensures warned ==> summary == old(summary) && tags == old(tags)
      ensures !warned ==> summary == (if old(summary) == "" then Summary(markdown) else old(summary))
      ensures !warned ==> var top := TopTags(ContentWords(markdown));
        tags == (if old(tags) == "" && top != [] then Join(top, ",") else old(tags))
      ensures markdown == old(markdown) && title == old(title) && status == old(status)
      ensures coverImage == old(coverImage) && editingId == old(editingId) && storage == old(storage)
    {
      if Trim(markdown) == "" {
        return true;
      }
      warned := false;
      FillSummary();
      FillTags();
    }

    /** An empty summary gets the generated one. */
    method FillSummary()
      modifies this
      ensures summary == (if old(summary) == "" then Summary(markdown) else old(summary))
      ensures markdown == old(markdown) && title == old(title) && tags == old(tags) && status == old(status)
      ensures coverImage == old(coverImage) && editingId == old(editingId) && storage == old(storage)
    {
      if summary == "" {
        summary := Summary(markdown);
      }
    }

    /** An empty tag field gets the generated tags when there are any. */
    method FillTags()
      modifies this
      ensures var top := TopTags(ContentWords(markdown));
        tags == (if old(tags) == "" && top != [] then Join(top, ",") else old(tags))
      ensures markdown == old(markdown) && title == old(title) && summary == old(summary) && status == old(status)
      ensures coverImage == old(coverImage) && editingId == old(editingId) && storage == old(storage)
    {
      ghost var top := TopTags(ContentWords(markdown));
      if tags == "" {
        var candidates := TagCandidates(markdown);
        assert candidates == top;
        if |candidates| > 0 {
          tags := Join(candidates, ",");
        }
      }
    }
  }

  /** A word holds a comma only when the content does. */
  lemma CommaFreeWords(content: string, w: string)
    requires ',' !in content && w in ContentWords(content)
    ensures ',' !in w
  {
    var text := BlankMarkup(ToLower(content));
    var parts := SplitOn(text, Space);
    assert forall i :: 0 <= i < |text| ==> text[i] != ',' by {
      forall i | 0 <= i < |text| ensures text[i] != ',' {
        assert content[i] != ',';
      }
    }
    SplitOnKeeps(text, Space, c => c != ',');
    var i :| 0 <= i < |ContentWords(content)| && ContentWords(content)[i] == w;
    var k :| 0 <= k < |parts| && parts[k] == w;
  }

  /** For content without a comma, the generated tag field parses back to
      the generated tags. A word is only split at white space, so a comma
      inside a word would make it two tags once the field is parsed. */
  lemma GeneratedTagsParse(content: string)
    requires ',' !in content
    ensures ParseTags(Join(TopTags(ContentWords(content)), ",")) == TopTags(ContentWords(content))
  {
    var words := ContentWords(content);
    var top := TopTags(words);
    TopTagsShape(words);
    forall i | 0 <= i < |top| ensures CleanTag(top[i]) {
      ContentWordsShape(content, top[i]);
      CommaFreeWords(content, top[i]);
      assert !IsSpace(top[i][0]) && !IsSpace(top[i][|top[i]| - 1]) by {
        assert !IsSep(Space, top[i][0]) && !IsSep(Space, top[i][|top[i]| - 1]);
      }
    }
    ParseJoinedTags(top);
  }
}
