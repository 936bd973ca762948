/** The visitor admin panel: its list and delete URLs and the handlers that
    change the page, tab, date range and filters and issue requests. */
module VisitorManager {
  import opened Wrappers
  import opened Seqs
  import opened QueryString
  import Strings

  /** The two ends of the range picker, as formatted `YYYY-MM-DD HH:mm:ss`
      strings; either may be unset. */
  datatype Range = Range(start: Option<string>, end: Option<string>)

  /** A range is picked and both of its ends are set. */
  predicate BothDates(d: Option<Range>) {
    d.Some? && d.value.start.Some? && d.value.end.Some?
  }

  /** The five filter inputs. */
  datatype Filters = Filters(ip: string, country: string, region: string, username: string, article: string)

  const NoFilters := Filters("", "", "", "", "")

  /** An optional parameter: sent, encoded, only when its input is non-empty. */
  function Opt(key: string, v: string, enc: string -> string): seq<Pair> {
    if v != "" then [(key, enc(v))] else []
  }

  function DatePairs(d: Option<Range>): seq<Pair> {
    if BothDates(d) then [("startDate", d.value.start.value), ("endDate", d.value.end.value)] else []
  }

  function ListHeadPairs(tab: string, page: nat, size: nat, d: Option<Range>): seq<Pair> {
    [("type", tab), ("page", Decimal(page)), ("pageSize", Decimal(size))] + DatePairs(d)
  }

  function ListFilterPairs(f: Filters, enc: string -> string): seq<Pair> {
    Opt("ipFilter", f.ip, enc) + Opt("country", f.country, enc) + Opt("region", f.region, enc) +
    Opt("username", f.username, enc) + Opt("article", f.article, enc)
  }

  /** The parameters of the list request, in the order they are appended. */
  function ListPairs(tab: string, page: nat, size: nat, d: Option<Range>, f: Filters, enc: string -> string): seq<Pair> {
    ListHeadPairs(tab, page, size, d) + ListFilterPairs(f, enc)
  }

  function ListUrl(tab: string, page: nat, size: nat, d: Option<Range>, f: Filters, enc: string -> string): string {
    "/api/visitors?" + QueryOf(ListPairs(tab, page, size, d, f, enc))
  }

  function DeleteFilterPairs(f: Filters, enc: string -> string): seq<Pair> {
    Opt("country", f.country, enc) + Opt("region", f.region, enc) + Opt("article", f.article, enc)
  }

  /** The parameters of the bulk delete request: the dates, then country,
      region and article. */
  function DeletePairs(d: Option<Range>, f: Filters, enc: string -> string): seq<Pair>
    requires BothDates(d)
  {
    DatePairs(d) + DeleteFilterPairs(f, enc)
  }

  function DeleteUrl(d: Option<Range>, f: Filters, enc: string -> string): string
    requires BothDates(d)
  {
    "/api/visitors?" + QueryOf(DeletePairs(d, f, enc))
  }

  lemma QueryOfOne(p: Pair)
    ensures QueryOf([p]) == Param(p)
  {
    assert Params([p]) == [Param(p)];
  }

  /** `/api/visitors?key=v`. */
  function Start(key: string, v: string): (url: string)
    ensures url == "/api/visitors?" + QueryOf([(key, v)])
  {
    QueryOfOne((key, v));
    "/api/visitors?" + key + "=" + v
  }

  /** An unconditional append; `pairs` is the parameter list the URL spells. */
  method Add(url: string, ghost pairs: seq<Pair>, key: string, v: string) returns (url': string, ghost pairs': seq<Pair>)
    requires |pairs| >= 1 && url == "/api/visitors?" + QueryOf(pairs)
    ensures pairs' == pairs + [(key, v)] && url' == "/api/visitors?" + QueryOf(pairs')
  {
    QueryOfSnoc(pairs, (key, v));
    url' := url + "&" + key + "=" + v;
    pairs' := pairs + [(key, v)];
  }

  /** A conditional, encoded append. */
  method Append(url: string, ghost pairs: seq<Pair>, key: string, v: string, enc: string -> string)
    returns (url': string, ghost pairs': seq<Pair>)
    requires |pairs| >= 1 && url == "/api/visitors?" + QueryOf(pairs)
    ensures pairs' == pairs + Opt(key, v, enc) && url' == "/api/visitors?" + QueryOf(pairs')
  {
    url', pairs' := url, pairs;
    if v != "" {
      url', pairs' := Add(url, pairs, key, enc(v));
    }
  }

  /** The appends of `fetchVisitors`, one after the other. */
  method BuildListUrl(tab: string, page: nat, size: nat, d: Option<Range>, f: Filters, enc: string -> string)
    returns (url: string)
    ensures url == ListUrl(tab, page, size, d, f, enc)
  {
    ghost var pairs;
    url, pairs := ListHead(tab, page, size, d);
    url, pairs := ListTail(url, pairs, f, enc);
  }

  /** The template with type, page and page size, then the dates. */
  method ListHead(tab: string, page: nat, size: nat, d: Option<Range>) returns (url: string, ghost pairs: seq<Pair>)
    ensures pairs == ListHeadPairs(tab, page, size, d)
    ensures url == "/api/visitors?" + QueryOf(pairs)
  {
    pairs := [("type", tab)];
    url := Start("type", tab);
    url, pairs := Add(url, pairs, "page", Decimal(page));
    url, pairs := Add(url, pairs, "pageSize", Decimal(size));
    if BothDates(d) {
      url, pairs := Add(url, pairs, "startDate", d.value.start.value);
      url, pairs := Add(url, pairs, "endDate", d.value.end.value);
    }
  }

  /** The five filter appends. */
  method ListTail(url: string, ghost pairs: seq<Pair>, f: Filters, enc: string -> string)
    returns (url': string, ghost pairs': seq<Pair>)
    requires |pairs| >= 1 && url == "/api/visitors?" + QueryOf(pairs)
    ensures pairs' == pairs + ListFilterPairs(f, enc) && url' == "/api/visitors?" + QueryOf(pairs')
  {
    ghost var o1, o2, o3, o4, o5 := Opt("ipFilter", f.ip, enc), Opt("country", f.country, enc),
      Opt("region", f.region, enc), Opt("username", f.username, enc), Opt("article", f.article, enc);
    url', pairs' := Append(url, pairs, "ipFilter", f.ip, enc);
    url', pairs' := Append(url', pairs', "country", f.country, enc);
    url', pairs' := Append(url', pairs', "region", f.region, enc);
    url', pairs' := Append(url', pairs', "username", f.username, enc);
    url', pairs' := Append(url', pairs', "article", f.article, enc);
    Regroup(pairs, o1, o2, o3, o4, o5);
  }

  lemma Regroup<T>(p: seq<T>, o1: seq<T>, o2: seq<T>, o3: seq<T>, o4: seq<T>, o5: seq<T>)
    ensures p + o1 + o2 + o3 + o4 + o5 == p + (o1 + o2 + o3 + o4 + o5)
  {
  }

  /** The appends of the bulk delete. */
  method BuildDeleteUrl(d: Option<Range>, f: Filters, enc: string -> string) returns (url: string)
    requires BothDates(d)
    ensures url == DeleteUrl(d, f, enc)
  {
    ghost var pairs: seq<Pair> := [("startDate", d.value.start.value)];
    url := Start("startDate", d.value.start.value);
    url, pairs := Add(url, pairs, "endDate", d.value.end.value);
    ghost var fixed := pairs;
    ghost var o1, o2, o3 := Opt("country", f.country, enc), Opt("region", f.region, enc), Opt("article", f.article, enc);
    url, pairs := Append(url, pairs, "country", f.country, enc);
    url, pairs := Append(url, pairs, "region", f.region, enc);
    url, pairs := Append(url, pairs, "article", f.article, enc);
    assert pairs == fixed + o1 + o2 + o3;
    assert pairs == fixed + (o1 + o2 + o3);
    assert fixed == DatePairs(d);
  }

  function Keys(pairs: seq<Pair>): (ks: seq<string>)
    ensures |ks| == |pairs|
    ensures forall i :: 0 <= i < |pairs| ==> ks[i] == pairs[i].0
  {
    seq(|pairs|, i requires 0 <= i < |pairs| => pairs[i].0)
  }

  lemma KeysAppend(a: seq<Pair>, b: seq<Pair>)
    ensures Keys(a + b) == Keys(a) + Keys(b)
  {
  }

  /** The key an optional append contributes. */
  function Sent(key: string, v: string): seq<string> {
    if v != "" then [key] else []
  }

  lemma OptKeys(key: string, v: string, enc: string -> string)
    ensures Keys(Opt(key, v, enc)) == Sent(key, v)
  {
  }

  function FixedKeys(d: Option<Range>): seq<string> {
    ["type", "page", "pageSize"] + (if BothDates(d) then ["startDate", "endDate"] else [])
  }

  lemma HeadKeys(tab: string, page: nat, size: nat, d: Option<Range>)
    ensures Keys(ListHeadPairs(tab, page, size, d)) == FixedKeys(d)
  {
    var head: seq<Pair> := [("type", tab), ("page", Decimal(page)), ("pageSize", Decimal(size))];
    KeysAppend(head, DatePairs(d));
  }

  function FilterKeys(f: Filters): seq<string> {
    Sent("ipFilter", f.ip) + Sent("country", f.country) + Sent("region", f.region) +
    Sent("username", f.username) + Sent("article", f.article)
  }

  lemma FilterKeysAre(f: Filters, enc: string -> string)
    ensures Keys(ListFilterPairs(f, enc)) == FilterKeys(f)
  {
    var o1, o2, o3, o4, o5 := Opt("ipFilter", f.ip, enc), Opt("country", f.country, enc),
      Opt("region", f.region, enc), Opt("username", f.username, enc), Opt("article", f.article, enc);
    KeysAppend(o1 + o2 + o3 + o4, o5);
    KeysAppend(o1 + o2 + o3, o4);
    KeysAppend(o1 + o2, o3);
    KeysAppend(o1, o2);
    OptKeys("ipFilter", f.ip, enc);
    OptKeys("country", f.country, enc);
    OptKeys("region", f.region, enc);
    OptKeys("username", f.username, enc);
    OptKeys("article", f.article, enc);
  }

  /** The keys of a list request: the fixed ones, then each filter whose
      input is non-empty. */
  lemma ListKeysAre(tab: string, page: nat, size: nat, d: Option<Range>, f: Filters, enc: string -> string)
    ensures Keys(ListPairs(tab, page, size, d, f, enc)) == FixedKeys(d) + FilterKeys(f)
  {
    KeysAppend(ListHeadPairs(tab, page, size, d), ListFilterPairs(f, enc));
    HeadKeys(tab, page, size, d);
    FilterKeysAre(f, enc);
  }

  const ListKeyOrder: seq<string> :=
    ["type", "page", "pageSize", "startDate", "endDate", "ipFilter", "country", "region", "username", "article"]

  lemma SentSubseq(key: string, v: string)
    ensures IsSubseq(Sent(key, v), [key])
  {
  }

  const FixedOrder: seq<string> := ["type", "page", "pageSize", "startDate", "endDate"]
  const FilterOrder: seq<string> := ["ipFilter", "country", "region", "username", "article"]

  lemma FixedOrdered(d: Option<Range>)
    ensures IsSubseq(FixedKeys(d), FixedOrder)
  {
    SubseqOfSelf(FixedOrder);
    if !BothDates(d) {
      var h := ["type", "page", "pageSize"];
      SubseqOfSelf(h);
      SubseqConcat(h, h, [], ["startDate", "endDate"]);
      assert h + [] == FixedKeys(d);
      assert h + ["startDate", "endDate"] == FixedOrder;
    }
  }

  /** One more optional key keeps the keys in order. */
  lemma SentStep(a: seq<string>, b: seq<string>, key: string, v: string)
    requires IsSubseq(a, b)
    ensures IsSubseq(a + Sent(key, v), b + [key])
  {
    SentSubseq(key, v);
    SubseqConcat(a, b, Sent(key, v), [key]);
  }

  lemma FilterOrdered(f: Filters)
    ensures IsSubseq(FilterKeys(f), FilterOrder)
  {
    var s1, s2, s3, s4, s5 := Sent("ipFilter", f.ip), Sent("country", f.country), Sent("region", f.region),
                              Sent("username", f.username), Sent("article", f.article);
    SentSubseq("ipFilter", f.ip);
    var o1: seq<string> := ["ipFilter"];
    SentStep(s1, o1, "country", f.country);
    var o2 := o1 + ["country"];
    SentStep(s1 + s2, o2, "region", f.region);
    var o3 := o2 + ["region"];
    SentStep(s1 + s2 + s3, o3, "username", f.username);
    var o4 := o3 + ["username"];
    SentStep(s1 + s2 + s3 + s4, o4, "article", f.article);
    assert o4 + ["article"] == FilterOrder;
  }

  lemma ListKeysSubseq(tab: string, page: nat, size: nat, d: Option<Range>, f: Filters, enc: string -> string)
    ensures IsSubseq(Keys(ListPairs(tab, page, size, d, f, enc)), ListKeyOrder)
  {
    ListKeysAre(tab, page, size, d, f, enc);
    FixedOrdered(d);
    FilterOrdered(f);
    SubseqConcat(FixedKeys(d), FixedOrder, FilterKeys(f), FilterOrder);
    assert ListKeyOrder == FixedOrder + FilterOrder;
  }

  lemma ListHeadFirst(tab: string, page: nat, size: nat, d: Option<Range>, f: Filters, enc: string -> string)
    ensures var ps := ListPairs(tab, page, size, d, f, enc);
      |ps| >= 3 && ps[..3] == [("type", tab), ("page", Decimal(page)), ("pageSize", Decimal(size))]
  {
    var head := [("type", tab), ("page", Decimal(page)), ("pageSize", Decimal(size))];
    var tail := DatePairs(d) + ListFilterPairs(f, enc);
    assert ListPairs(tab, page, size, d, f, enc) == head + tail;
    assert (head + tail)[..3] == head;
  }

  /** The list URL begins with type, page and page size in that order, then
      has the other keys in the fixed order, each at most once. */
  lemma ListKeysOrdered(tab: string, page: nat, size: nat, d: Option<Range>, f: Filters, enc: string -> string)
    ensures var ps := ListPairs(tab, page, size, d, f, enc);
      |ps| >= 3 && ps[..3] == [("type", tab), ("page", Decimal(page)), ("pageSize", Decimal(size))] &&
      IsSubseq(Keys(ps), ListKeyOrder)
  {
    ListKeysSubseq(tab, page, size, d, f, enc);
    ListHeadFirst(tab, page, size, d, f, enc);
  }

  /** The dates are sent exactly when both are set. */
  lemma ListDatesSent(tab: string, page: nat, size: nat, d: Option<Range>, f: Filters, enc: string -> string)
    ensures var ks := Keys(ListPairs(tab, page, size, d, f, enc));
      ("startDate" in ks <==> BothDates(d)) && ("endDate" in ks <==> BothDates(d))
  {
    ListKeysAre(tab, page, size, d, f, enc);
  }

  /** No filter key is among the fixed keys. */
  lemma FixedNoFilter(d: Option<Range>, k: string)
    requires k in ["ipFilter", "country", "region", "username", "article"]
    ensures k !in FixedKeys(d)
  {
  }

  lemma InSent(x: string, key: string, v: string)
    ensures x in Sent(key, v) <==> x == key && v != ""
  {
  }

  /** The filter whose key is `k` and whose input is `v` is sent exactly
      when `v` is non-empty. */
  lemma FilterSent(f: Filters, k: string, v: string)
    requires (k, v) in [("ipFilter", f.ip), ("country", f.country), ("region", f.region),
                        ("username", f.username), ("article", f.article)]
    ensures k in FilterKeys(f) <==> v != ""
  {
    var s1, s2, s3, s4, s5 := Sent("ipFilter", f.ip), Sent("country", f.country), Sent("region", f.region),
                              Sent("username", f.username), Sent("article", f.article);
    InSent(k, "ipFilter", f.ip);
    InSent(k, "country", f.country);
    InSent(k, "region", f.region);
    InSent(k, "username", f.username);
    InSent(k, "article", f.article);
    assert k in FilterKeys(f) <==> k in s1 || k in s2 || k in s3 || k in s4 || k in s5;
  }

  /** Each filter is sent exactly when its input is non-empty. */
  lemma ListFiltersSent(tab: string, page: nat, size: nat, d: Option<Range>, f: Filters, enc: string -> string)
    ensures var ks := Keys(ListPairs(tab, page, size, d, f, enc));
      ("ipFilter" in ks <==> f.ip != "") && ("country" in ks <==> f.country != "") &&
      ("region" in ks <==> f.region != "") && ("username" in ks <==> f.username != "") &&
      ("article" in ks <==> f.article != "")
  {
    ListKeysAre(tab, page, size, d, f, enc);
    FixedNoFilter(d, "ipFilter");
    FixedNoFilter(d, "country");
    FixedNoFilter(d, "region");
    FixedNoFilter(d, "username");
    FixedNoFilter(d, "article");
    FilterSent(f, "ipFilter", f.ip);
    FilterSent(f, "country", f.country);
    FilterSent(f, "region", f.region);
    FilterSent(f, "username", f.username);
    FilterSent(f, "article", f.article);
  }

  /** A filter that is sent carries the encoded input. */
  lemma ListFilterValue(tab: string, page: nat, size: nat, d: Option<Range>, f: Filters, enc: string -> string)
    ensures f.ip != "" ==> ("ipFilter", enc(f.ip)) in ListPairs(tab, page, size, d, f, enc)
    ensures f.username != "" ==> ("username", enc(f.username)) in ListPairs(tab, page, size, d, f, enc)
  {
    var o1, o2, o3, o4, o5 := Opt("ipFilter", f.ip, enc), Opt("country", f.country, enc),
      Opt("region", f.region, enc), Opt("username", f.username, enc), Opt("article", f.article, enc);
    assert ListFilterPairs(f, enc) == o1 + o2 + o3 + o4 + o5;
  }

  function DeleteFilterKeys(f: Filters): seq<string> {
    Sent("country", f.country) + Sent("region", f.region) + Sent("article", f.article)
  }

  lemma DeleteKeysAre(d: Option<Range>, f: Filters, enc: string -> string)
    requires BothDates(d)
    ensures Keys(DeletePairs(d, f, enc)) == ["startDate", "endDate"] + DeleteFilterKeys(f)
  {
    var o1, o2, o3 := Opt("country", f.country, enc), Opt("region", f.region, enc), Opt("article", f.article, enc);
    KeysAppend(DatePairs(d), o1 + o2 + o3);
    KeysAppend(o1 + o2, o3);
    KeysAppend(o1, o2);
    OptKeys("country", f.country, enc);
    OptKeys("region", f.region, enc);
    OptKeys("article", f.article, enc);
  }

  lemma DeleteFilterSent(f: Filters, k: string, v: string)
    requires (k, v) in [("country", f.country), ("region", f.region), ("article", f.article)]
    ensures k in DeleteFilterKeys(f) <==> v != ""
  {
    InSent(k, "country", f.country);
    InSent(k, "region", f.region);
    InSent(k, "article", f.article);
  }

  lemma DeleteNever(f: Filters, k: string)
    requires k == "ipFilter" || k == "username"
    ensures k !in ["startDate", "endDate"] + DeleteFilterKeys(f)
  {
    InSent(k, "country", f.country);
    InSent(k, "region", f.region);
    InSent(k, "article", f.article);
  }

  const DeleteOrder: seq<string> := ["startDate", "endDate", "country", "region", "article"]

  lemma DeleteOrdered(f: Filters)
    ensures IsSubseq(["startDate", "endDate"] + DeleteFilterKeys(f), DeleteOrder)
  {
    var s1, s2, s3 := Sent("country", f.country), Sent("region", f.region), Sent("article", f.article);
    var o0: seq<string> := ["startDate", "endDate"];
    SubseqOfSelf(o0);
    SentStep(o0, o0, "country", f.country);
    var o1 := o0 + ["country"];
    SentStep(o0 + s1, o1, "region", f.region);
    var o2 := o1 + ["region"];
    SentStep(o0 + s1 + s2, o2, "article", f.article);
    assert o2 + ["article"] == DeleteOrder;
    assert o0 + s1 + s2 + s3 == ["startDate", "endDate"] + DeleteFilterKeys(f);
  }

  lemma DeleteKeysSent(d: Option<Range>, f: Filters, enc: string -> string)
    requires BothDates(d)
    ensures var ks := Keys(DeletePairs(d, f, enc));
      "ipFilter" !in ks && "username" !in ks &&
      ("country" in ks <==> f.country != "") && ("region" in ks <==> f.region != "") &&
      ("article" in ks <==> f.article != "")
  {
    DeleteKeysAre(d, f, enc);
    DeleteNever(f, "ipFilter");
    DeleteNever(f, "username");
    DeleteFilterSent(f, "country", f.country);
    DeleteFilterSent(f, "region", f.region);
    DeleteFilterSent(f, "article", f.article);
  }

  lemma DeleteKeysFirst(d: Option<Range>, f: Filters, enc: string -> string)
    requires BothDates(d)
    ensures var ks := Keys(DeletePairs(d, f, enc));
      |ks| >= 2 && ks[..2] == ["startDate", "endDate"] && IsSubseq(ks, DeleteOrder)
  {
    DeleteKeysAre(d, f, enc);
    DeleteOrdered(f);
    var dates := ["startDate", "endDate"];
    assert (dates + DeleteFilterKeys(f))[..2] == dates;
  }

  /** The delete URL always carries both dates first, may carry country,
      region and article, and never carries the IP or user name filter. */
  lemma DeleteKeys(d: Option<Range>, f: Filters, enc: string -> string)
    requires BothDates(d)
    ensures var ks := Keys(DeletePairs(d, f, enc));
      |ks| >= 2 && ks[..2] == ["startDate", "endDate"] && "ipFilter" !in ks && "username" !in ks &&
      IsSubseq(ks, DeleteOrder) &&
      ("country" in ks <==> f.country != "") && ("region" in ks <==> f.region != "") &&
      ("article" in ks <==> f.article != "")
  {
    DeleteKeysSent(d, f, enc);
    DeleteKeysFirst(d, f, enc);
  }

  /** `encodeURIComponent` escapes `&` and `=` (section 2.1 of RFC 3986). */
  ghost predicate Escapes(enc: string -> string) {
    forall s :: '&' !in enc(s) && '=' !in enc(s)
  }

  predicate SafeText(s: string) {
    '&' !in s && '=' !in s
  }

  lemma DecimalSafe(n: nat)
    ensures SafeText(Decimal(n))
  {
  }

  lemma OptSafe(key: string, v: string, enc: string -> string)
    requires Escapes(enc) && SafeText(key)
    ensures forall i :: 0 <= i < |Opt(key, v, enc)| ==> Safe(Opt(key, v, enc)[i])
  {
  }

  lemma AllSafeAppend(a: seq<Pair>, b: seq<Pair>)
    requires forall i :: 0 <= i < |a| ==> Safe(a[i])
    requires forall i :: 0 <= i < |b| ==> Safe(b[i])
    ensures forall i :: 0 <= i < |a + b| ==> Safe((a + b)[i])
  {
  }

  lemma HeadPairsSafe(tab: string, page: nat, size: nat, d: Option<Range>)
    requires SafeText(tab)
    requires BothDates(d) ==> SafeText(d.value.start.value) && SafeText(d.value.end.value)
    ensures var hd := ListHeadPairs(tab, page, size, d);
      forall i :: 0 <= i < |hd| ==> Safe(hd[i])
  {
    DecimalSafe(page);
    DecimalSafe(size);
  }

  lemma FilterPairsSafe(f: Filters, enc: string -> string)
    requires Escapes(enc)
    ensures var fp := ListFilterPairs(f, enc);
      forall i :: 0 <= i < |fp| ==> Safe(fp[i])
  {
    var o1, o2, o3, o4, o5 := Opt("ipFilter", f.ip, enc), Opt("country", f.country, enc),
      Opt("region", f.region, enc), Opt("username", f.username, enc), Opt("article", f.article, enc);
    OptSafe("ipFilter", f.ip, enc);
    OptSafe("country", f.country, enc);
    OptSafe("region", f.region, enc);
    OptSafe("username", f.username, enc);
    OptSafe("article", f.article, enc);
    AllSafeAppend(o1, o2);
    AllSafeAppend(o1 + o2, o3);
    AllSafeAppend(o1 + o2 + o3, o4);
    AllSafeAppend(o1 + o2 + o3 + o4, o5);
  }

  lemma ListPairsSafe(tab: string, page: nat, size: nat, d: Option<Range>, f: Filters, enc: string -> string)
    requires Escapes(enc) && SafeText(tab)
    requires BothDates(d) ==> SafeText(d.value.start.value) && SafeText(d.value.end.value)
    ensures var ps := ListPairs(tab, page, size, d, f, enc);
      forall i :: 0 <= i < |ps| ==> Safe(ps[i])
  {
    HeadPairsSafe(tab, page, size, d);
    FilterPairsSafe(f, enc);
    AllSafeAppend(ListHeadPairs(tab, page, size, d), ListFilterPairs(f, enc));
  }

  /** With an escaping encoder and a tab and dates free of `&` and `=`, the
      list URL reads back as its parameter list. */
  lemma ListUrlReadsBack(tab: string, page: nat, size: nat, d: Option<Range>, f: Filters, enc: string -> string)
    requires Escapes(enc) && SafeText(tab)
    requires BothDates(d) ==> SafeText(d.value.start.value) && SafeText(d.value.end.value)
    ensures var url := ListUrl(tab, page, size, d, f, enc);
      Strings.StartsWith(url, "/api/visitors?") && ParseQuery(url[14..]) == ListPairs(tab, page, size, d, f, enc)
  {
    var ps := ListPairs(tab, page, size, d, f, enc);
    ListPairsSafe(tab, page, size, d, f, enc);
    ParseQueryOf(ps);
    var url := ListUrl(tab, page, size, d, f, enc);
    assert url[14..] == QueryOf(ps);
  }

  /** The reset as written fetches with the filters of before the reset:
      whenever a filter was set, its request differs from the one the cleared
      inputs describe. */
  lemma StaleReset(tab: string, size: nat, d: Option<Range>, f: Filters, enc: string -> string)
    requires Escapes(enc) && SafeText(tab)
    requires BothDates(d) ==> SafeText(d.value.start.value) && SafeText(d.value.end.value)
    requires f != NoFilters
    ensures ListUrl(tab, 1, size, d, f, enc) != ListUrl(tab, 1, size, d, NoFilters, enc)
  {
    ListUrlReadsBack(tab, 1, size, d, f, enc);
    ListUrlReadsBack(tab, 1, size, d, NoFilters, enc);
    assert |ListFilterPairs(f, enc)| > 0;
    assert |ListPairs(tab, 1, size, d, f, enc)| > |ListPairs(tab, 1, size, d, NoFilters, enc)|;
  }

  datatype Request = Get(url: string) | Delete(url: string)

  class VisitorPanel {
    var page: nat
    var pageSize: nat
    var activeTab: string
    var dateRange: Option<Range>
    var filters: Filters
    /** The requests sent, oldest first. */
    var requests: seq<Request>
    const encode: string -> string

    /** The state on mount, after the first list request. */
    constructor (encode: string -> string)
      ensures this.encode == encode
      ensures page == 1 && pageSize == 10 && activeTab == "all" && dateRange.None? && filters == NoFilters
      ensures requests == [Get(ListUrl("all", 1, 10, None, NoFilters, encode))]
    {
      this.encode := encode;
      page, pageSize, activeTab, dateRange, filters := 1, 10, "all", None, NoFilters;
      var url := BuildListUrl("all", 1, 10, None, NoFilters, encode);
      requests := [Get(url)];
    }

    /** `fetchVisitors(tab, page, size, dates)`: the filters are read from the
        current state. */
    method Fetch(tab: string, p: nat, size: nat, dates: Option<Range>)
      modifies this
      ensures requests == old(requests) + [Get(ListUrl(tab, p, size, dates, filters, encode))]
      ensures page == old(page) && pageSize == old(pageSize) && activeTab == old(activeTab)
      ensures dateRange == old(dateRange) && filters == old(filters)
    {
      var url := BuildListUrl(tab, p, size, dates, filters, encode);
      requests := requests + [Get(url)];
    }

    method TabChange(key: string)
      modifies this
      ensures activeTab == key && page == 1
      ensures pageSize == old(pageSize) && dateRange == old(dateRange) && filters == old(filters)
      ensures requests == old(requests) + [Get(ListUrl(key, 1, pageSize, dateRange, filters, encode))]
    {
      activeTab := key;
      page := 1;
      Fetch(key, 1, pageSize, dateRange);
    }

    method TableChange(current: nat, size: nat)
      modifies this
      ensures page == current && pageSize == size
      ensures activeTab == old(activeTab) && dateRange == old(dateRange) && filters == old(filters)
      ensures requests == old(requests) + [Get(ListUrl(activeTab, current, size, dateRange, filters, encode))]
    {
      page := current;
      pageSize := size;
      Fetch(activeTab, current, size, dateRange);
    }

    method DateRangeChange(dates: Option<Range>)
      modifies this
      ensures dateRange == dates && page == 1
      ensures activeTab == old(activeTab) && pageSize == old(pageSize) && filters == old(filters)
      ensures requests == old(requests) + [Get(ListUrl(activeTab, 1, pageSize, dates, filters, encode))]
    {
      dateRange := dates;
      Fetch(activeTab, 1, pageSize, dates);
      page := 1;
    }

    /** The five input handlers: each changes its own filter and sends nothing. */
    method SetIp(v: string)
      modifies this
      ensures filters == old(filters).(ip := v)
      ensures page == old(page) && pageSize == old(pageSize) && activeTab == old(activeTab)
      ensures dateRange == old(dateRange) && requests == old(requests)
    {
      filters := filters.(ip := v);
    }

    method SetCountry(v: string)
      modifies this
      ensures filters == old(filters).(country := v)
      ensures page == old(page) && pageSize == old(pageSize) && activeTab == old(activeTab)
      ensures dateRange == old(dateRange) && requests == old(requests)
    {
      filters := filters.(country := v);
    }

    method SetRegion(v: string)
      modifies this
      ensures filters == old(filters).(region := v)
      ensures page == old(page) && pageSize == old(pageSize) && activeTab == old(activeTab)
      ensures dateRange == old(dateRange) && requests == old(requests)
    {
      filters := filters.(region := v);
    }

    method SetUsername(v: string)
      modifies this
      ensures filters == old(filters).(username := v)
      ensures page == old(page) && pageSize == old(pageSize) && activeTab == old(activeTab)
      ensures dateRange == old(dateRange) && requests == old(requests)
    {
      filters := filters.(username := v);
    }

    method SetArticle(v: string)
      modifies this
      ensures filters == old(filters).(article := v)
      ensures page == old(page) && pageSize == old(pageSize) && activeTab == old(activeTab)
      ensures dateRange == old(dateRange) && requests == old(requests)
    {
      filters := filters.(article := v);
    }

    method ApplyFilters()
      modifies this
      ensures page == 1
      ensures pageSize == old(pageSize) && activeTab == old(activeTab) && dateRange == old(dateRange) && filters == old(filters)
      ensures requests == old(requests) + [Get(ListUrl(activeTab, 1, pageSize, dateRange, filters, encode))]
    {
      page := 1;
      Fetch(activeTab, 1, pageSize, dateRange);
    }

    /** `resetFilters` as written: the inputs are cleared, but the request is
        built from the filter values of the render the handler belongs to,
        that is, the values before the reset. */
    method ResetFiltersAsWritten()
      modifies this
      ensures filters == NoFilters && page == 1
      ensures pageSize == old(pageSize) && activeTab == old(activeTab) && dateRange == old(dateRange)
      ensures requests == old(requests) + [Get(ListUrl(activeTab, 1, pageSize, dateRange, old(filters), encode))]
    {
      var stale := filters;
      filters := NoFilters;
      page := 1;
      var url := BuildListUrl(activeTab, 1, pageSize, dateRange, stale, encode);
      requests := requests + [Get(url)];
    }

    /** The reset the handler is meant to be: every filter cleared, the tab and
        dates kept, and the request made for what the cleared inputs show. */
    method ResetFilters()
      modifies this
      ensures filters == NoFilters && page == 1
      ensures pageSize == old(pageSize) && activeTab == old(activeTab) && dateRange == old(dateRange)
      ensures requests == old(requests) + [Get(ListUrl(activeTab, page, pageSize, dateRange, filters, encode))]
    {
      filters := NoFilters;
      page := 1;
      Fetch(activeTab, 1, pageSize, dateRange);
    }

    /** `handleDeleteFilteredVisitors`: without both dates nothing is sent;
        otherwise the delete request goes out, and when it succeeds (`ok`) the
        list is reloaded from page 1. */
    method DeleteFiltered(ok: bool)
      modifies this
      ensures !BothDates(dateRange) ==> requests == old(requests) && page == old(page)
      ensures BothDates(dateRange) && !ok ==>
        requests == old(requests) + [Delete(DeleteUrl(dateRange, filters, encode))] && page == old(page)
      ensures BothDates(dateRange) && ok ==>
        requests == old(requests) + [Delete(DeleteUrl(dateRange, filters, encode)),
                                     Get(ListUrl(activeTab, 1, pageSize, dateRange, filters, encode))] && page == 1
      ensures pageSize == old(pageSize) && activeTab == old(activeTab) && dateRange == old(dateRange) && filters == old(filters)
    {
      if !BothDates(dateRange) {
        return;
      }
      var url := BuildDeleteUrl(dateRange, filters, encode);
      requests := requests + [Delete(url)];
      if ok {
        page := 1;
        Fetch(activeTab, 1, pageSize, dateRange);
      }
    }
  }
}
