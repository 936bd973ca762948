/** `GET /api/dashboard`: seven independent read-only queries over the
    articles, each replaced by its default when it fails. */
module DashboardRoute {
  import opened Wrappers
  import opened Seqs
  import opened Records
  import opened Grouping

  /** The seven queries, in the order they are issued. */
  datatype DashQuery = TotalQ | PublishedQ | DraftQ | ViewsQ | TagsQ | RecentQ | PopularQ

  datatype Stats = Stats(totalArticles: nat, publishedArticles: nat, draftArticles: nat, totalViews: nat)

  datatype TagStat = TagStat(name: string, count: nat)

  /** The projection of a listed article. */
  datatype Digest = Digest(id: string, title: string, summary: string, createdAt: int,
                           viewCount: Option<nat>, tags: seq<string>)

  datatype Dashboard = Dashboard(stats: Stats, tagStats: seq<TagStat>,
                                 recentArticles: seq<Digest>, popularArticles: seq<Digest>)

  function HasStatus(s: string): Article -> bool {
    (a: Article) => a.status == Some(s)
  }

  /** `$sum: '$viewCount'`: a missing count adds nothing, so the sum is at
      least every single count and is 0 when no article has one. */
  function SumViews(articles: seq<Article>): (n: nat)
    ensures forall i :: 0 <= i < |articles| ==> articles[i].viewCount.GetOr(0) <= n
    ensures (forall i :: 0 <= i < |articles| ==> articles[i].viewCount.None?) ==> n == 0
    decreases |articles|
  {
    if articles == [] then 0
    else
      var init := articles[..|articles| - 1];
      assert forall i :: 0 <= i < |init| ==> init[i] == articles[i];
      SumViews(init) + articles[|articles| - 1].viewCount.GetOr(0)
  }

  /** The sum over two runs of articles is the sum of their sums. */
  lemma {:induction false} SumViewsAppend(a: seq<Article>, b: seq<Article>)
    ensures SumViews(a + b) == SumViews(a) + SumViews(b)
    decreases |b|
  {
    if b == [] {
      assert a + b == a;
    } else {
      var b' := b[..|b| - 1];
      assert (a + b)[..|a + b| - 1] == a + b';
      assert (a + b)[|a + b| - 1] == b[|b| - 1];
      SumViewsAppend(a, b');
    }
  }

  /** `$sum` does not depend on the order the articles are stored in. */
  lemma {:induction false} SumViewsPermutation(a: seq<Article>, b: seq<Article>)
    requires multiset(a) == multiset(b)
    ensures SumViews(a) == SumViews(b)
    decreases |a|
  {
    if a == [] {
      assert |b| == |multiset(b)| == 0;
    } else {
      var x := a[|a| - 1];
      var a' := a[..|a| - 1];
      assert a == a' + [x];
      assert x in multiset(b);
      var i :| 0 <= i < |b| && b[i] == x;
      var b1, b2 := b[..i], b[i + 1..];
      assert b == b1 + [x] + b2;
      RemoveOne(a', x, b1, b2);
      SumViewsPermutation(a', b1 + b2);
      SumViewsAppend(b1, b2);
      SumViewsAppend(b1 + [x], b2);
      SumViewsAppend(b1, [x]);
      SumViewsAppend(a', [x]);
      assert SumViews([x]) == x.viewCount.GetOr(0) by {
        assert [x][..0] == [];
      }
    }
  }

  lemma RemoveOne<T>(a: seq<T>, x: T, b1: seq<T>, b2: seq<T>)
    requires multiset(a + [x]) == multiset(b1 + [x] + b2)
    ensures multiset(a) == multiset(b1 + b2)
  {
    calc {
      multiset(a);
      multiset(a + [x]) - multiset{x};
      multiset(b1 + [x] + b2) - multiset{x};
      multiset(b1) + multiset(b2);
      multiset(b1 + b2);
    }
  }

  /** Every tag of every article (`$unwind: '$tags'`). */
  function AllTags(articles: seq<Article>): seq<string>
    decreases |articles|
  {
    if articles == [] then [] else articles[0].tags + AllTags(articles[1..])
  }

  function TagCount(g: Group<string>): int { g.count }

  /** The groups of the tag aggregation, after `$sort: {count: -1}` and `$limit: 10`. */
  function TopGroups(articles: seq<Article>): seq<Group<string>> {
    Take(SortDesc(GroupCount(AllTags(articles)), TagCount), 10)
  }

  /** The ten most used tags, most used first. */
  function TopTags(articles: seq<Article>): (r: seq<TagStat>)
    ensures |r| == |TopGroups(articles)| <= 10
    ensures forall i :: 0 <= i < |r| ==>
      r[i] == TagStat(TopGroups(articles)[i].key, TopGroups(articles)[i].count)
  {
    var top := TopGroups(articles);
    seq(|top|, i requires 0 <= i < |top| => TagStat(top[i].key, top[i].count))
  }

  /** A missing view count sorts below every count. */
  function ViewKey(a: Article): int { if a.viewCount.Some? then a.viewCount.value else -1 }

  function DigestOf(a: Article): Digest {
    Digest(a.id, a.title, a.summary, a.createdAt, a.viewCount, a.tags)
  }

  function Digests(s: seq<Article>): (r: seq<Digest>)
    ensures |r| == |s| && forall i :: 0 <= i < |s| ==> r[i] == DigestOf(s[i])
  {
    seq(|s|, i requires 0 <= i < |s| => DigestOf(s[i]))
  }

  /** The five latest (`createdAt`) or most viewed (`viewCount`) published articles. */
  function TopPublished(articles: seq<Article>, key: Article -> int): seq<Article> {
    Take(SortDesc(Filter(articles, HasStatus("published")), key), 5)
  }

  /** What each query answers when it succeeds. */
  datatype Answers = Answers(total: nat, published: nat, draft: nat, views: nat, tags: seq<TagStat>,
                             recent: seq<Digest>, popular: seq<Digest>)

  /** Published and draft articles are at most all articles, and the lists
      hold at most ten tags and five articles. */
  function Answer(articles: seq<Article>): (r: Answers)
    ensures r.total == |articles| && r.published + r.draft <= r.total
    ensures |r.tags| <= 10 && |r.recent| <= 5 && |r.popular| <= 5
  {
    DisjointCounts(articles, HasStatus("published"), HasStatus("draft"));
    Answers(|articles|, Count(articles, HasStatus("published")), Count(articles, HasStatus("draft")),
            SumViews(articles), TopTags(articles),
            Digests(TopPublished(articles, ArticleCreated)), Digests(TopPublished(articles, ViewKey)))
  }

  /** The settled results put together: a rejected query gives 0 or `[]`,
      and with no rejection every part is its query's answer. */
  function Assemble(a: Answers, failed: set<DashQuery>): (d: Dashboard)
    ensures failed == {} ==>
      d == Dashboard(Stats(a.total, a.published, a.draft, a.views), a.tags, a.recent, a.popular)
    ensures d.stats.totalArticles <= a.total && d.stats.publishedArticles <= a.published
    ensures d.stats.draftArticles <= a.draft && d.stats.totalViews <= a.views
    ensures |d.tagStats| <= |a.tags| && |d.recentArticles| <= |a.recent| && |d.popularArticles| <= |a.popular|
  {
    Dashboard(
      Stats(if TotalQ in failed then 0 else a.total,
            if PublishedQ in failed then 0 else a.published,
            if DraftQ in failed then 0 else a.draft,
            if ViewsQ in failed then 0 else a.views),
      if TagsQ in failed then [] else a.tags,
      if RecentQ in failed then [] else a.recent,
      if PopularQ in failed then [] else a.popular)
  }

  /** The response, where `failed` holds the queries that were rejected:
      with none rejected, the counts of all, published and draft articles,
      the view total, the top tags and the two top-five lists. */
  function Respond(articles: seq<Article>, failed: set<DashQuery>): (d: Dashboard)
    ensures failed == {} ==>
      d.stats == Stats(|articles|, Count(articles, HasStatus("published")), Count(articles, HasStatus("draft")), SumViews(articles)) &&
      d.tagStats == TopTags(articles) &&
      d.recentArticles == Digests(TopPublished(articles, ArticleCreated)) &&
      d.popularArticles == Digests(TopPublished(articles, ViewKey))
    ensures |d.tagStats| <= 10 && |d.recentArticles| <= 5 && |d.popularArticles| <= 5
  {
    Assemble(Answer(articles), failed)
  }

  /** With the three counts answered, published and draft articles together
      are at most all articles. */
  lemma PublishedPlusDraft(articles: seq<Article>, failed: set<DashQuery>)
    requires TotalQ !in failed
    ensures var s := Respond(articles, failed).stats;
      s.publishedArticles + s.draftArticles <= s.totalArticles
  {
    DisjointCounts(articles, HasStatus("published"), HasStatus("draft"));
  }

  /** A failed query gives its default and leaves every other result as it
      would have been. */
  lemma FailureIsolated(a: Answers, failed: set<DashQuery>, q: DashQuery)
    ensures var x := Assemble(a, failed);
      var y := Assemble(a, failed + {q});
      (q == TotalQ ==> y.stats.totalArticles == 0) &&
      (q == PublishedQ ==> y.stats.publishedArticles == 0) &&
      (q == DraftQ ==> y.stats.draftArticles == 0) &&
      (q == ViewsQ ==> y.stats.totalViews == 0) &&
      (q == TagsQ ==> y.tagStats == []) &&
      (q == RecentQ ==> y.recentArticles == []) &&
      (q == PopularQ ==> y.popularArticles == []) &&
      (q != TotalQ ==> y.stats.totalArticles == x.stats.totalArticles) &&
      (q != PublishedQ ==> y.stats.publishedArticles == x.stats.publishedArticles) &&
      (q != DraftQ ==> y.stats.draftArticles == x.stats.draftArticles) &&
      (q != ViewsQ ==> y.stats.totalViews == x.stats.totalViews) &&
      (q != TagsQ ==> y.tagStats == x.tagStats) &&
      (q != RecentQ ==> y.recentArticles == x.recentArticles) &&
      (q != PopularQ ==> y.popularArticles == x.popularArticles)
  {
  }

  /** The tag statistics list ten tags, or every tag when there are fewer,
      most used first, and each count is the number of occurrences of its
      tag over all articles. */
  lemma TagCountsSpec(articles: seq<Article>)
    ensures var n := |DistinctKeys(AllTags(articles))|;
      |TopTags(articles)| == (if n < 10 then n else 10)
    ensures var r := TopTags(articles);
      (forall i, j :: 0 <= i < j < |r| ==> r[i].count >= r[j].count) &&
      (forall i :: 0 <= i < |r| ==> r[i].count == Occurrences(AllTags(articles), r[i].name) > 0)
  {
    TopTagsLength(articles);
    TopTagsCounts(articles);
  }

  lemma TopTagsLength(articles: seq<Article>)
    ensures var n := |DistinctKeys(AllTags(articles))|;
      |TopTags(articles)| == (if n < 10 then n else 10)
  {
    var gs := GroupCount(AllTags(articles));
    assert |gs| == |DistinctKeys(AllTags(articles))|;
    assert |SortDesc(gs, TagCount)| == |gs|;
  }

  lemma TopTagsCounts(articles: seq<Article>)
    ensures var r := TopTags(articles);
      (forall i, j :: 0 <= i < j < |r| ==> r[i].count >= r[j].count) &&
      (forall i :: 0 <= i < |r| ==> r[i].count == Occurrences(AllTags(articles), r[i].name) > 0)
  {
    var gs := GroupCount(AllTags(articles));
    var sorted := SortDesc(gs, TagCount);
    var top := TopGroups(articles);
    GroupCountGroups(AllTags(articles));
    forall i | 0 <= i < |top| ensures top[i].count == Occurrences(AllTags(articles), top[i].key) > 0 {
      assert top[i] == sorted[i];
      assert sorted[i] in multiset(gs);
      var j :| 0 <= j < |gs| && gs[j] == sorted[i];
    }
    forall i, j | 0 <= i < j < |top| ensures top[i].count >= top[j].count {
      assert TagCount(sorted[i]) >= TagCount(sorted[j]);
    }
  }

  /** The listed tags are the most used: a tag that is used but not listed
      means ten are listed, and it is used no more often than the tenth. */
  lemma TagsAreTop(articles: seq<Article>, t: string)
    requires t in AllTags(articles)
    requires forall i :: 0 <= i < |TopTags(articles)| ==> TopTags(articles)[i].name != t
    ensures |TopTags(articles)| == 10
    ensures Occurrences(AllTags(articles), t) <= TopTags(articles)[9].count
  {
    var xs := AllTags(articles);
    var gs := GroupCount(xs);
    var top := TopGroups(articles);
    var r := TopTags(articles);
    var j := GroupOf(xs, t);
    var g := gs[j];
    forall i | 0 <= i < |top| ensures top[i] != g {
      assert r[i].name == top[i].key;
    }
    TopBest(gs, TagCount, 10, g);
    assert r[9].count == top[9].count;
  }

  /** The group of a key that occurs. */
  lemma GroupOf(xs: seq<string>, t: string) returns (j: nat)
    requires t in xs
    ensures j < |GroupCount(xs)| && GroupCount(xs)[j] == Group(t, Occurrences(xs, t))
  {
    var ks := DistinctKeys(xs);
    var k :| 0 <= k < |xs| && xs[k] == t;
    assert xs[k] in ks;
    j :| 0 <= j < |ks| && ks[j] == t;
  }

  /** No tag is listed twice. */
  lemma TagNamesDistinct(articles: seq<Article>)
    ensures var r := TopTags(articles);
      forall i, j :: 0 <= i < j < |r| ==> r[i].name != r[j].name
  {
    var gs := GroupCount(AllTags(articles));
    var sorted := SortDesc(gs, TagCount);
    var top := TopGroups(articles);
    GroupCountGroups(AllTags(articles));
    forall i, j | 0 <= i < j < |top| ensures top[i].key != top[j].key {
      assert top[i] == sorted[i] && top[j] == sorted[j];
      SortedKeysDistinct(gs, sorted, i, j);
    }
  }

  /** A permutation of groups with distinct keys has distinct keys. */
  lemma SortedKeysDistinct(gs: seq<Group<string>>, sorted: seq<Group<string>>, i: nat, j: nat)
    requires forall a, b :: 0 <= a < b < |gs| ==> gs[a].key != gs[b].key
    requires multiset(sorted) == multiset(gs) && i < j < |sorted|
    ensures sorted[i].key != sorted[j].key
  {
    if sorted[i].key == sorted[j].key {
      assert sorted[i] in multiset(gs) && sorted[j] in multiset(gs);
      var a :| 0 <= a < |gs| && gs[a] == sorted[i];
      var b :| 0 <= b < |gs| && gs[b] == sorted[j];
      assert a == b;
      assert multiset(gs)[gs[a]] == 1 by {
        GroupOnce(gs, a);
      }
      TwiceInMultiset(sorted, i, j);
    }
  }

  lemma {:induction false} GroupOnce(gs: seq<Group<string>>, a: nat)
    requires forall x, y :: 0 <= x < y < |gs| ==> gs[x].key != gs[y].key
    requires a < |gs|
    ensures multiset(gs)[gs[a]] == 1
    decreases |gs|
  {
    assert gs == [gs[0]] + gs[1..];
    if a == 0 {
      assert gs[0] !in gs[1..];
    } else {
      GroupOnce(gs[1..], a - 1);
      assert gs[a] == gs[1..][a - 1];
    }
  }

  /** The recent and popular lists: five published articles, or every one
      when there are fewer, newest first and most viewed first respectively. */
  lemma TopListsSpec(articles: seq<Article>, key: Article -> int)
    ensures var r := TopPublished(articles, key);
      var n := Count(articles, HasStatus("published"));
      |r| == (if n < 5 then n else 5) && SortedDesc(r, key) &&
      forall i :: 0 <= i < |r| ==> r[i] in articles && r[i].status == Some("published")
  {
    var sorted := SortDesc(Filter(articles, HasStatus("published")), key);
    var r := TopPublished(articles, key);
    forall i | 0 <= i < |r| ensures r[i] in articles && r[i].status == Some("published") {
      assert r[i] == sorted[i];
      SortedFilterMember(articles, HasStatus("published"), key, r[i]);
    }
  }

  /** The listed articles are the top five: a published article that is not
      listed means five are listed, and its key is no larger than the fifth. */
  lemma PublishedAreTop(articles: seq<Article>, key: Article -> int, a: Article)
    requires a in articles && a.status == Some("published")
    requires a !in TopPublished(articles, key)
    ensures |TopPublished(articles, key)| == 5
    ensures key(a) <= key(TopPublished(articles, key)[4])
  {
    var i :| 0 <= i < |articles| && articles[i] == a;
    assert HasStatus("published")(articles[i]);
    TopBest(Filter(articles, HasStatus("published")), key, 5, a);
  }
}
