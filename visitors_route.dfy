/** The visitor-log endpoint `/api/visitors`: the listing (`GET`) with its bot
    exclusion, optional filters, username pre-resolution, timestamp-descending
    pagination, cached geo enrichment and user/article joins, and the bulk
    delete (`DELETE`) over a time range. */
module VisitorsRoute {
  import opened Wrappers
  import opened Strings
  import opened Seqs
  import opened Records

  // ---------------------------------------------------------------------
  // User-agent exclusion

  /** Tokens whose presence (any case) marks an agent as a crawler. */
  const Denylist: seq<string> := ["bot", "crawler", "spider", "lighthouse", "headless",
    "monitor", "scraper", "phantom", "slurp", "baidu", "googlebot", "bingbot", "yandex"]
  /** Windows 7 and Windows XP agents are dropped as well. */
  const ExcludedSystems: seq<string> := ["Windows NT 6.1", "Windows NT 5."]
  /** An agent must name one of these operating systems ... */
  const OsTokens: seq<string> := ["Windows", "Macintosh", "Linux", "Android", "iOS", "iPhone", "iPad"]
  /** ... and one of these browsers. */
  const BrowserTokens: seq<string> := ["Chrome", "Firefox", "Safari", "Edge", "MSIE", "Opera", "Trident"]

  /** A case-insensitive alternation of literal tokens. */
  function ContainsAnyCI(s: string, tokens: seq<string>): (b: bool)
    ensures b <==> exists i :: 0 <= i < |tokens| && ContainsCI(s, tokens[i])
    decreases |tokens|
  {
    if tokens == [] then false
    else ContainsCI(s, tokens[0]) || ContainsAnyCI(s, tokens[1..])
  }

  /** The fixed part of the listing query: a present, non-empty agent that
      names no denied token and no excluded system, and names an operating
      system and a browser. */
  predicate HumanAgent(ua: Option<string>) {
    ua.Some? && ua.value != "" &&
    !ContainsAnyCI(ua.value, Denylist) && !ContainsAnyCI(ua.value, ExcludedSystems) &&
    ContainsAnyCI(ua.value, OsTokens) && ContainsAnyCI(ua.value, BrowserTokens)
  }

  /** An agent that names any denied token or excluded system is never listed. */
  lemma ExcludedAgent(ua: string, t: string)
    requires t in Denylist || t in ExcludedSystems
    requires ContainsCI(ua, t)
    ensures !HumanAgent(Some(ua))
  {
    if t in Denylist {
      var i :| 0 <= i < |Denylist| && Denylist[i] == t;
    } else {
      var i :| 0 <= i < |ExcludedSystems| && ExcludedSystems[i] == t;
    }
  }

  // ---------------------------------------------------------------------
  // Request and query

  type Pos = n: int | n >= 1 witness 1

  /** The query string of a listing request. A date is present when its
      parameter is given and parses; `page` and `pageSize` are the parsed
      positive integers (defaults 1 and 10 are applied by the caller). */
  datatype Params = Params(kind: Option<string>, startDate: Option<int>, endDate: Option<int>,
                           page: Pos, pageSize: Pos,
                           ipFilter: Option<string>, country: Option<string>,
                           region: Option<string>, username: Option<string>,
                           article: Option<string>)

  /** `geoInfo.country` and `geoInfo.region` of an entry, missing when the
      entry has no `geoInfo`. */
  function Country(e: VisitorLog): Option<string> {
    if e.geoInfo.Some? then e.geoInfo.value.country else None
  }

  function Region(e: VisitorLog): Option<string> {
    if e.geoInfo.Some? then e.geoInfo.value.region else None
  }

  /** The `userId` condition of the query: none, `$exists`/`$ne: null`, or `$in`. */
  datatype UserCond = AnyUser | HasUser | UserIn(ids: seq<string>)

  /** The query document assembled field by field. */
  datatype Query = Query(user: UserCond, from: Option<int>, to: Option<int>,
                         path: Option<string>, ip: Option<string>,
                         country: Option<string>, region: Option<string>)

  predicate UserOk(c: UserCond, userId: Option<string>) {
    match c
    case AnyUser => true
    case HasUser => userId.Some?
    case UserIn(ids) => userId.Some? && userId.value in ids
  }

  /** Evaluation of a query document against one entry. */
  predicate Matches(q: Query, e: VisitorLog) {
    HumanAgent(e.userAgent) && UserOk(q.user, e.userId) &&
    (q.from.Some? ==> q.from.value <= e.timestamp) &&
    (q.to.Some? ==> e.timestamp <= q.to.value) &&
    (q.path.Some? ==> FieldContainsCI(e.path, q.path.value)) &&
    (q.ip.Some? ==> FieldContainsCI(e.ip, q.ip.value)) &&
    (q.country.Some? ==> FieldContainsCI(Country(e), q.country.value)) &&
    (q.region.Some? ==> FieldContainsCI(Region(e), q.region.value))
  }

  /** Whether the username filter matched users: only then does it constrain `userId`. */
  predicate UsernameActive(p: Params, ids: seq<string>) {
    Truthy(p.username) && |ids| > 0
  }

  /** What a listing selects, stated filter by filter: every given filter must
      hold (AND), the bounds are inclusive, the text filters are
      case-insensitive, and `ids` are the users the username filter matched. */
  predicate Selected(p: Params, ids: seq<string>, e: VisitorLog) {
    HumanAgent(e.userAgent) &&
    (Or(p.kind, "all") == "users" ==> e.userId.Some?) &&
    (UsernameActive(p, ids) ==> e.userId.Some? && e.userId.value in ids) &&
    (p.startDate.Some? ==> p.startDate.value <= e.timestamp) &&
    (p.endDate.Some? ==> e.timestamp <= p.endDate.value) &&
    (Truthy(p.article) ==> FieldContainsCI(e.path, "/posts/" + p.article.value)) &&
    (Truthy(p.ipFilter) ==> FieldContainsCI(e.ip, p.ipFilter.value)) &&
    (Truthy(p.country) ==> FieldContainsCI(Country(e), p.country.value)) &&
    (Truthy(p.region) ==> FieldContainsCI(Region(e), p.region.value))
  }

  function SelectedBy(p: Params, ids: seq<string>): VisitorLog -> bool {
    e => Selected(p, ids, e)
  }

  function MatchesBy(q: Query): VisitorLog -> bool {
    e => Matches(q, e)
  }

  /** The query document a listing builds, field by field. */
  predicate Describes(q: Query, p: Params, ids: seq<string>) {
    q.user == (if UsernameActive(p, ids) then UserIn(ids) else if Or(p.kind, "all") == "users" then HasUser else AnyUser) &&
    q.from == p.startDate && q.to == p.endDate &&
    q.path == (if Truthy(p.article) then Some("/posts/" + p.article.value) else None) &&
    q.ip == (if Truthy(p.ipFilter) then p.ipFilter else None) &&
    q.country == (if Truthy(p.country) then p.country else None) &&
    q.region == (if Truthy(p.region) then p.region else None)
  }

  /** A document so built selects exactly what `Selected` describes. */
  lemma DescribesSelects(q: Query, p: Params, ids: seq<string>, e: VisitorLog)
    requires Describes(q, p, ids)
    ensures Matches(q, e) <==> Selected(p, ids, e)
  {
  }

  /** Builds the query document one condition at a time; a later `userId`
      condition replaces an earlier one. The document selects exactly what
      `Selected` describes. */
  method BuildQuery(p: Params, ids: seq<string>) returns (q: Query)
    ensures forall e :: Matches(q, e) <==> Selected(p, ids, e)
  {
    q := Query(AnyUser, None, None, None, None, None, None);
    if Or(p.kind, "all") == "users" {
      q := q.(user := HasUser);
    }
    if p.startDate.Some? || p.endDate.Some? {
      if p.startDate.Some? {
        q := q.(from := p.startDate);
      }
      if p.endDate.Some? {
        q := q.(to := p.endDate);
      }
    }
    if Truthy(p.article) {
      q := q.(path := Some("/posts/" + p.article.value));
    }
    assert q.path == (if Truthy(p.article) then Some("/posts/" + p.article.value) else None);
    assert q.from == p.startDate && q.to == p.endDate;
    if Truthy(p.username) && |ids| > 0 {
      q := q.(user := UserIn(ids));
    }
    assert q.user == (if UsernameActive(p, ids) then UserIn(ids) else if Or(p.kind, "all") == "users" then HasUser else AnyUser);
    if Truthy(p.ipFilter) {
      q := q.(ip := p.ipFilter);
    }
    assert q.ip == (if Truthy(p.ipFilter) then p.ipFilter else None);
    if Truthy(p.country) {
      q := q.(country := p.country);
    }
    assert q.country == (if Truthy(p.country) then p.country else None);
    if Truthy(p.region) {
      q := q.(region := p.region);
    }
    assert q.region == (if Truthy(p.region) then p.region else None);
    assert Describes(q, p, ids);
    forall e ensures Matches(q, e) <==> Selected(p, ids, e) {
      DescribesSelects(q, p, ids, e);
    }
  }

  /** Username pre-resolution: the ids of the users whose name or email
      contains the filter, case-insensitively, in store order. */
  predicate NameMatches(u: User, name: string) {
    FieldContainsCI(u.name, name) || FieldContainsCI(u.email, name)
  }

  /** `x` is the id of a user whose name or email matches. */
  predicate IdOfMatch(users: seq<User>, name: string, x: string) {
    exists j :: 0 <= j < |users| && users[j].id == x && NameMatches(users[j], name)
  }

  lemma IdOfMatchTail(users: seq<User>, name: string, x: string)
    requires users != [] && IdOfMatch(users[1..], name, x)
    ensures IdOfMatch(users, name, x)
  {
    var j :| 0 <= j < |users[1..]| && users[1..][j].id == x && NameMatches(users[1..][j], name);
    assert users[j + 1] == users[1..][j];
  }

  function MatchingUserIds(users: seq<User>, name: string): (ids: seq<string>)
    ensures forall i :: 0 <= i < |ids| ==> IdOfMatch(users, name, ids[i])
    ensures forall j :: 0 <= j < |users| && NameMatches(users[j], name) ==> users[j].id in ids
    decreases |users|
  {
    if users == [] then []
    else
      var rest := MatchingUserIds(users[1..], name);
      assert forall i :: 0 <= i < |rest| ==> IdOfMatch(users, name, rest[i]) by {
        forall i | 0 <= i < |rest| ensures IdOfMatch(users, name, rest[i]) {
          IdOfMatchTail(users, name, rest[i]);
        }
      }
      assert forall j :: 1 <= j < |users| ==> users[j] == users[1..][j - 1];
      if NameMatches(users[0], name) then
        var ids := [users[0].id] + rest;
        assert IdOfMatch(users, name, users[0].id);
        ids
      else rest
  }

  /** The ids the username filter resolves to (none when it is not given). */
  function ResolvedIds(p: Params, users: seq<User>): seq<string> {
    if Truthy(p.username) then MatchingUserIds(users, p.username.value) else []
  }

  /** A username filter that matches no user short-circuits the listing. */
  predicate ShortCircuit(p: Params, users: seq<User>) {
    Truthy(p.username) && ResolvedIds(p, users) == []
  }

  // ---------------------------------------------------------------------
  // Pagination

  function Min(a: int, b: int): int { if a <= b then a else b }

  function Timestamp(e: VisitorLog): int { e.timestamp }

  /** The number of entries before a page: `(page - 1) * size`. */
  function Skip(page: Pos, size: Pos): (n: nat)
    ensures n == (page - 1) * size
  {
    var before: nat := page - 1;
    before * size
  }

  /** How many of `n` entries page `page` holds: a full page, the rest, or
      none once the skip passes the end. */
  function Remaining(n: nat, page: Pos, size: Pos): nat {
    if Skip(page, size) < n then Min(size, n - Skip(page, size)) else 0
  }

  /** `r` is the run of `s` that starts at offset `off`. */
  predicate InOrderFrom<T(==)>(r: seq<T>, s: seq<T>, off: nat)
  {
    forall k :: 0 <= k < |r| ==> off + k < |s| && r[k] == s[off + k]
  }

  /** The entries of page `page`: the earlier pages' entries skipped, then at
      most `size` entries. */
  function Window<T(==)>(s: seq<T>, page: Pos, size: Pos): (w: seq<T>)
    ensures |w| <= size
    ensures |w| == Remaining(|s|, page, size)
    ensures InOrderFrom(w, s, Skip(page, size))
    ensures |w| == Min(size, |s| - Skip(page, size)) || (|w| == 0 && |s| <= Skip(page, size))
    ensures forall k :: 0 <= k < |w| ==> Skip(page, size) + k < |s| && w[k] == s[Skip(page, size) + k]
  {
    var start := Min(Skip(page, size), |s|);
    var end := Min(start + size, |s|);
    s[start..end]
  }

  /** `Math.ceil(total / size)` for a positive size: the fewest pages of
      `size` entries that hold `total` entries. */
  function CeilDiv(total: nat, size: Pos): (pages: nat)
    ensures pages * size >= total
    ensures pages == 0 || (pages - 1) * size < total
  {
    var q := (total + size - 1) / size;
    assert q * size <= total + size - 1 < (q + 1) * size;
    q
  }

  /** Every entry is on exactly one page, at the position its index gives, and
      that page is one of the `CeilDiv` pages. */
  lemma OnItsPage<T>(s: seq<T>, size: Pos, k: nat)
    requires k < |s|
    ensures k / size + 1 <= CeilDiv(|s|, size)
    ensures var w := Window(s, k / size + 1, size);
      k % size < |w| && w[k % size] == s[k]
  {
    var p, r := k / size, k % size;
    assert p * size + r == k;
    PageBound(|s|, size, k);
    PageSlot(s, size, p, r);
    assert Window(s, p + 1, size)[r] == s[k];
  }

  lemma PageBound(n: nat, size: Pos, k: nat)
    requires k < n
    ensures k / size + 1 <= CeilDiv(n, size)
  {
    var p := k / size;
    assert p * size <= k;
    MulOrder(CeilDiv(n, size), p, size);
  }

  lemma PageSlot<T>(s: seq<T>, size: Pos, p: nat, r: nat)
    requires r < size && p * size + r < |s|
    ensures var w := Window(s, p + 1, size);
      r < |w| && w[r] == s[p * size + r]
  {
    assert Skip(p + 1, size) == p * size;
  }

  lemma MulOrder(a: int, b: int, size: Pos)
    requires a * size > b * size
    ensures a > b
  {
    assert (a - b) * size == a * size - b * size > 0;
  }

  /** Pages after the last one are empty. */
  lemma PastLastPage<T>(s: seq<T>, page: Pos, size: Pos)
    requires page > CeilDiv(|s|, size)
    ensures Window(s, page, size) == []
  {
    var c := CeilDiv(|s|, size);
    assert (page - 1) * size >= c * size;
  }

  // ---------------------------------------------------------------------
  // Geo enrichment

  /** The fields read from an ip-api.com reply. */
  datatype IpApiReply = IpApiReply(status: Option<string>, country: Option<string>,
                                   countryCode: Option<string>, regionName: Option<string>,
                                   region: Option<string>, city: Option<string>)

  /** `getIpGeoLocation` on a reply: a `success` reply gives the location,
      with the region name preferred over the region code; any other reply
      gives nothing. */
  function GeoFromReply(d: IpApiReply): (g: Option<GeoInfo>)
    ensures g.Some? <==> d.status == Some("success")
    ensures g.Some? ==> g.value.country == d.country && g.value.countryCode == d.countryCode && g.value.city == d.city
    ensures g.Some? ==> g.value.region == (if Truthy(d.regionName) then d.regionName else d.region)
  {
    if d.status == Some("success") then
      Some(GeoInfo(d.country, d.countryCode, if Truthy(d.regionName) then d.regionName else d.region, d.city))
    else None
  }

  /** The geo service as an oracle: an address without a reply is a request
      that failed or threw, which the lookup turns into nothing. */
  function Lookup(geo: map<string, IpApiReply>, ip: string): Option<GeoInfo> {
    if ip in geo then GeoFromReply(geo[ip]) else None
  }

  /** An entry is looked up when it has an address and no country yet. */
  predicate NeedsGeo(v: VisitorLog) {
    Truthy(v.ip) && !(v.geoInfo.Some? && Truthy(v.geoInfo.value.country))
  }

  /** The location fetched for an entry, if it is looked up and the lookup succeeds. */
  function FetchedGeo(v: VisitorLog, geo: map<string, IpApiReply>): (g: Option<GeoInfo>)
    ensures g.Some? ==> NeedsGeo(v) && g == Lookup(geo, v.ip.value)
    ensures NeedsGeo(v) && Lookup(geo, v.ip.value).Some? ==> g.Some?
  {
    if NeedsGeo(v) then Lookup(geo, v.ip.value) else None
  }

  /** The entry as returned: with the fetched location, otherwise as stored. */
  function WithGeo(v: VisitorLog, geo: map<string, IpApiReply>): (r: VisitorLog)
    ensures r == v.(geoInfo := r.geoInfo)
    ensures r.geoInfo == if FetchedGeo(v, geo).Some? then FetchedGeo(v, geo) else v.geoInfo
  {
    match FetchedGeo(v, geo)
    case Some(g) => v.(geoInfo := Some(g))
    case None => v
  }

  function WithGeoAll(page: seq<VisitorLog>, geo: map<string, IpApiReply>): (r: seq<VisitorLog>)
    ensures |r| == |page| && forall i :: 0 <= i < |page| ==> r[i] == WithGeo(page[i], geo)
  {
    seq(|page|, i requires 0 <= i < |page| => WithGeo(page[i], geo))
  }

  /** The location written back for an entry: the fetched one, unless the
      store's `updateOne` for that id fails (`failing`). */
  function Written(v: VisitorLog, geo: map<string, IpApiReply>, failing: set<string>): Option<GeoInfo> {
    if v.id in failing then None else FetchedGeo(v, geo)
  }

  /** The write-back of a location to the entries with the id. */
  function SetGeo(logs: seq<VisitorLog>, id: string, g: GeoInfo): (r: seq<VisitorLog>)
    ensures |r| == |logs|
    ensures forall k :: 0 <= k < |logs| ==> r[k] == if logs[k].id == id then logs[k].(geoInfo := Some(g)) else logs[k]
  {
    seq(|logs|, k requires 0 <= k < |logs| => if logs[k].id == id then logs[k].(geoInfo := Some(g)) else logs[k])
  }

  /** The store after the write-backs for the entries of `page`, in order. */
  function GeoWrites(logs: seq<VisitorLog>, page: seq<VisitorLog>, geo: map<string, IpApiReply>,
                     failing: set<string>): (r: seq<VisitorLog>)
    ensures |r| == |logs|
    ensures forall k :: 0 <= k < |logs| ==> r[k].id == logs[k].id
    decreases |page|
  {
    if page == [] then logs
    else
      var prev := GeoWrites(logs, page[..|page| - 1], geo, failing);
      match Written(page[|page| - 1], geo, failing)
      case Some(g) => SetGeo(prev, page[|page| - 1].id, g)
      case None => prev
  }

  /** The last location written for `id` while processing `page`. */
  function LastWrite(page: seq<VisitorLog>, id: string, geo: map<string, IpApiReply>,
                     failing: set<string>): Option<GeoInfo>
    decreases |page|
  {
    if page == [] then None
    else
      var v := page[|page| - 1];
      if v.id == id && Written(v, geo, failing).Some? then Written(v, geo, failing)
      else LastWrite(page[..|page| - 1], id, geo, failing)
  }

  /** After the write-backs every stored entry is unchanged except for the
      `geoInfo` of an entry that got a location written, which holds that
      location. */
  lemma {:induction false} GeoWritesAt(logs: seq<VisitorLog>, page: seq<VisitorLog>,
                                       geo: map<string, IpApiReply>, failing: set<string>, k: nat)
    requires k < |logs|
    ensures |GeoWrites(logs, page, geo, failing)| == |logs|
    ensures GeoWrites(logs, page, geo, failing)[k] ==
      match LastWrite(page, logs[k].id, geo, failing)
      case Some(g) => logs[k].(geoInfo := Some(g))
      case None => logs[k]
    decreases |page|
  {
    if page != [] {
      GeoWritesAt(logs, page[..|page| - 1], geo, failing, k);
    }
  }

  predicate DistinctIds(s: seq<VisitorLog>) {
    forall i, j :: 0 <= i < j < |s| ==> s[i].id != s[j].id
  }

  /** One more entry of the page: its write-back, if any, applied last. */
  lemma GeoWritesStep(logs: seq<VisitorLog>, page: seq<VisitorLog>, i: nat,
                      geo: map<string, IpApiReply>, failing: set<string>)
    requires i < |page|
    ensures GeoWrites(logs, page[..i + 1], geo, failing) ==
      match Written(page[i], geo, failing)
      case Some(g) => SetGeo(GeoWrites(logs, page[..i], geo, failing), page[i].id, g)
      case None => GeoWrites(logs, page[..i], geo, failing)
  {
    assert page[..i + 1][..i] == page[..i];
  }

  lemma SetGeoKeepsDistinct(logs: seq<VisitorLog>, id: string, g: GeoInfo)
    requires DistinctIds(logs)
    ensures DistinctIds(SetGeo(logs, id, g))
  {
    var r := SetGeo(logs, id, g);
    assert forall k :: 0 <= k < |r| ==> r[k].id == logs[k].id;
  }

  /** With distinct ids, the location written for an entry of the page is the
      one fetched for it (and written successfully); an id outside the page
      gets nothing. */
  lemma {:induction false} LastWriteOf(page: seq<VisitorLog>, id: string,
                                       geo: map<string, IpApiReply>, failing: set<string>)
    requires DistinctIds(page)
    ensures LastWrite(page, id, geo, failing) ==
      if exists i :: 0 <= i < |page| && page[i].id == id
      then Written(page[IndexOf(page, id)], geo, failing) else None
    decreases |page|
  {
    if page != [] {
      var init := page[..|page| - 1];
      LastWriteOf(init, id, geo, failing);
      if page[|page| - 1].id != id {
        if exists i :: 0 <= i < |page| && page[i].id == id {
          var i :| 0 <= i < |page| && page[i].id == id;
          assert init[i].id == id;
          IndexOfPrefix(page, init, id);
        }
      } else {
        IndexOfLast(page, id);
      }
    }
  }

  /** The position of `id` in a page where it occurs. */
  function IndexOf(page: seq<VisitorLog>, id: string): (i: nat)
    requires exists i :: 0 <= i < |page| && page[i].id == id
    ensures i < |page| && page[i].id == id
    decreases |page|
  {
    if page[0].id == id then 0
    else
      assert exists i :: 0 <= i < |page[1..]| && page[1..][i].id == id by {
        var i :| 0 <= i < |page| && page[i].id == id;
        assert page[1..][i - 1].id == id;
      }
      1 + IndexOf(page[1..], id)
  }

  lemma IndexOfUnique(page: seq<VisitorLog>, id: string, i: nat)
    requires DistinctIds(page) && i < |page| && page[i].id == id
    ensures IndexOf(page, id) == i
  {
  }

  lemma IndexOfPrefix(page: seq<VisitorLog>, init: seq<VisitorLog>, id: string)
    requires DistinctIds(page) && |init| < |page| && init == page[..|init|]
    requires exists i :: 0 <= i < |init| && init[i].id == id
    ensures IndexOf(page, id) == IndexOf(init, id)
  {
    var j := IndexOf(init, id);
    assert page[j].id == id;
    IndexOfUnique(page, id, j);
  }

  lemma IndexOfLast(page: seq<VisitorLog>, id: string)
    requires DistinctIds(page) && |page| > 0 && page[|page| - 1].id == id
    ensures IndexOf(page, id) == |page| - 1
  {
    IndexOfUnique(page, id, |page| - 1);
  }

  /** Cache-once: an entry whose lookup succeeded with a country, and whose
      write succeeded, is not looked up again by a later request. */
  lemma GeoCachedOnce(logs: seq<VisitorLog>, page: seq<VisitorLog>,
                      geo: map<string, IpApiReply>, failing: set<string>, i: nat, k: nat)
    requires DistinctIds(page) && i < |page| && k < |logs|
    requires logs[k].id == page[i].id && logs[k].ip == page[i].ip
    requires page[i].id !in failing
    requires FetchedGeo(page[i], geo).Some? && Truthy(FetchedGeo(page[i], geo).value.country)
    ensures !NeedsGeo(GeoWrites(logs, page, geo, failing)[k])
  {
    GeoWritesAt(logs, page, geo, failing, k);
    LastWriteOf(page, page[i].id, geo, failing);
    IndexOfUnique(page, page[i].id, i);
  }

  // ---------------------------------------------------------------------
  // Joins

  /** The user fields attached to a returned entry. */
  datatype UserSummary = UserSummary(name: Option<string>, email: Option<string>, avatar: Option<string>)

  /** A returned entry: the stored entry (with its location), its `id`, and
      the joined user fields and article title when they were found. */
  datatype VisitorView = VisitorView(id: string, log: VisitorLog, user: Option<UserSummary>,
                                     articleTitle: Option<string>)

  /** A user id the page refers to that converts to an ObjectId. */
  predicate RequestedUser(page: seq<VisitorLog>, validId: string -> bool, id: string) {
    exists i :: 0 <= i < |page| && page[i].userId == Some(id) && id != "" && validId(id)
  }

  /** The users fetched for the page: `find({_id: {$in: ...}})`. */
  function FetchedUsers(users: seq<User>, page: seq<VisitorLog>, validId: string -> bool): seq<User> {
    Filter(users, (u: User) => RequestedUser(page, validId, u.id))
  }

  function UserFor(fetched: seq<User>, v: VisitorLog): Option<UserSummary> {
    if Truthy(v.userId) then
      match Find(fetched, (u: User) => u.id == v.userId.value)
      case Some(u) => Some(UserSummary(u.name, u.email, u.avatar))
      case None => None
    else None
  }

  /** User fields are attached exactly when the entry's (valid) user id is the
      id of a user, and they are that user's. */
  lemma UserJoin(users: seq<User>, page: seq<VisitorLog>, validId: string -> bool, i: nat)
    requires i < |page|
    ensures var r := UserFor(FetchedUsers(users, page, validId), page[i]);
      (r.Some? <==> Truthy(page[i].userId) && validId(page[i].userId.value) &&
                    exists j :: 0 <= j < |users| && users[j].id == page[i].userId.value) &&
      (r.Some? ==> exists j :: 0 <= j < |users| && users[j].id == page[i].userId.value &&
                              r.value == UserSummary(users[j].name, users[j].email, users[j].avatar))
  {
    var v := page[i];
    if Truthy(v.userId) {
      var id := v.userId.value;
      var f := (u: User) => RequestedUser(page, validId, u.id);
      var p := (u: User) => u.id == id;
      if validId(id) {
        assert RequestedUser(page, validId, id);
        FindAfterFilter(users, f, p);
      } else {
        var fetched := FetchedUsers(users, page, validId);
        assert forall j :: 0 <= j < |fetched| ==> !p(fetched[j]) by {
          forall j | 0 <= j < |fetched| ensures !p(fetched[j]) {
            assert f(fetched[j]);
          }
        }
      }
    }
  }

  /** The article id of a `/posts/{id}` path: the third `/`-separated field. */
  function ArticleIdOf(path: Option<string>): Option<string> {
    if path.Some? && StartsWith(path.value, "/posts/") then
      var parts := Split(path.value, '/');
      if |parts| >= 3 then Some(parts[2]) else None
    else None
  }

  /** For `/posts/` followed by `rest`, the article id is the part of `rest`
      before its first `/` (all of it when there is none). */
  lemma ArticleIdOfPosts(rest: string)
    ensures var id := ArticleIdOf(Some("/posts/" + rest));
      id.Some? && StartsWith(rest, id.value) && '/' !in id.value &&
      (|id.value| == |rest| || rest[|id.value|] == '/')
  {
    assert "/posts/" + rest == ['/'] + "posts" + ['/'] + rest;
    SplitPrefixed("posts", rest, '/');
    SplitHead(rest, '/');
    assert StartsWith("/posts/" + rest, "/posts/");
  }

  /** An article id the page refers to (empty ids are dropped). */
  predicate RequestedArticle(page: seq<VisitorLog>, id: string) {
    exists i :: 0 <= i < |page| && ArticleIdOf(page[i].path) == Some(id) && id != ""
  }

  function FetchedArticles(articles: seq<Article>, page: seq<VisitorLog>): seq<Article> {
    Filter(articles, (a: Article) => RequestedArticle(page, a.id))
  }

  function TitleFor(fetched: seq<Article>, v: VisitorLog): Option<string> {
    match ArticleIdOf(v.path)
    case Some(k) =>
      (match Find(fetched, (a: Article) => a.id == k)
       case Some(a) => Some(a.title)
       case None => None)
    case None => None
  }

  /** A title is attached exactly when the path is a `/posts/` path whose
      article id is non-empty and is the id of an article, and it is that
      article's title. */
  lemma TitleJoin(articles: seq<Article>, page: seq<VisitorLog>, i: nat)
    requires i < |page|
    ensures var r := TitleFor(FetchedArticles(articles, page), page[i]);
      (r.Some? <==> exists k :: ArticleIdOf(page[i].path) == Some(k) && k != "" &&
                               exists j :: 0 <= j < |articles| && articles[j].id == k) &&
      (r.Some? ==> exists j :: 0 <= j < |articles| && Some(articles[j].id) == ArticleIdOf(page[i].path) &&
                              r.value == articles[j].title)
  {
    var v := page[i];
    if ArticleIdOf(v.path).Some? {
      var k := ArticleIdOf(v.path).value;
      var f := (a: Article) => RequestedArticle(page, a.id);
      var p := (a: Article) => a.id == k;
      var fetched := FetchedArticles(articles, page);
      if k != "" {
        assert RequestedArticle(page, k);
        FindAfterFilter(articles, f, p);
      } else {
        assert forall j :: 0 <= j < |fetched| ==> !p(fetched[j]) by {
          forall j | 0 <= j < |fetched| ensures !p(fetched[j]) {
            assert f(fetched[j]);
          }
        }
      }
    }
  }

  function Views(page: seq<VisitorLog>, users: seq<User>, articles: seq<Article>,
                 validId: string -> bool): (r: seq<VisitorView>)
    ensures |r| == |page|
    ensures forall i :: 0 <= i < |page| ==> r[i].id == page[i].id && r[i].log == page[i]
  {
    var fu := FetchedUsers(users, page, validId);
    var fa := FetchedArticles(articles, page);
    seq(|page|, i requires 0 <= i < |page| =>
      VisitorView(page[i].id, page[i], UserFor(fu, page[i]), TitleFor(fa, page[i])))
  }

  // ---------------------------------------------------------------------
  // The listing

  /** The response body of a listing. */
  datatype Listing = Listing(visitors: seq<VisitorView>, total: nat, page: int,
                             pageSize: int, totalPages: nat)

  /** All selected entries, newest first (equal timestamps keep store order). */
  function Matching(logs: seq<VisitorLog>, p: Params, ids: seq<string>): (m: seq<VisitorLog>)
    ensures |m| == Count(logs, SelectedBy(p, ids))
    ensures multiset(m) == multiset(Filter(logs, SelectedBy(p, ids)))
    ensures SortedDesc(m, Timestamp)
    ensures forall k :: 0 <= k < |m| ==> m[k] in logs && SelectedBy(p, ids)(m[k])
  {
    var m := SortDesc(Filter(logs, SelectedBy(p, ids)), Timestamp);
    assert forall k :: 0 <= k < |m| ==> m[k] in logs && SelectedBy(p, ids)(m[k]) by {
      forall k | 0 <= k < |m| ensures m[k] in logs && SelectedBy(p, ids)(m[k]) {
        SortedFilterMember(logs, SelectedBy(p, ids), Timestamp, m[k]);
      }
    }
    m
  }

  /** The entries of the requested page, before enrichment: at most a page
      of them, taken in order from the page's offset into the selection. */
  function PageOf(logs: seq<VisitorLog>, p: Params, ids: seq<string>): (r: seq<VisitorLog>)
    ensures |r| <= p.pageSize
    ensures |r| == Remaining(|Matching(logs, p, ids)|, p.page, p.pageSize)
    ensures InOrderFrom(r, Matching(logs, p, ids), Skip(p.page, p.pageSize))
  {
    Window(Matching(logs, p, ids), p.page, p.pageSize)
  }

  /** The response of `GET /api/visitors` over the store `logs`: page and
      page size echoed; no entries and no total when the username filter
      matches no user; otherwise one view per entry of the page, the number
      of all selected entries and the number of pages they fill. */
  function Respond(logs: seq<VisitorLog>, p: Params, users: seq<User>, articles: seq<Article>,
                   geo: map<string, IpApiReply>, validId: string -> bool): (r: Listing)
    ensures r.page == p.page && r.pageSize == p.pageSize
    ensures ShortCircuit(p, users) ==> r.visitors == [] && r.total == 0 && r.totalPages == 0
    ensures !ShortCircuit(p, users) ==>
      r.total == Count(logs, SelectedBy(p, ResolvedIds(p, users))) &&
      r.totalPages == CeilDiv(r.total, p.pageSize) &&
      |r.visitors| == |PageOf(logs, p, ResolvedIds(p, users))| &&
      |r.visitors| == Remaining(r.total, p.page, p.pageSize)
  {
    if ShortCircuit(p, users) then Listing([], 0, p.page, p.pageSize, 0)
    else
      var ids := ResolvedIds(p, users);
      var m := Matching(logs, p, ids);
      var pg := WithGeoAll(Window(m, p.page, p.pageSize), geo);
      Listing(Views(pg, users, articles, validId), |m|, p.page, p.pageSize, CeilDiv(|m|, p.pageSize))
  }

  /** A username filter that matches no user answers an empty first-page-shaped
      response that echoes page and pageSize. */
  lemma ShortCircuitResponse(logs: seq<VisitorLog>, p: Params, users: seq<User>, articles: seq<Article>,
                             geo: map<string, IpApiReply>, validId: string -> bool)
    requires Truthy(p.username)
    requires forall j :: 0 <= j < |users| ==> !NameMatches(users[j], p.username.value)
    ensures Respond(logs, p, users, articles, geo, validId) == Listing([], 0, p.page, p.pageSize, 0)
  {
    NoMatchNoIds(users, p.username.value);
  }

  lemma {:induction false} NoMatchNoIds(users: seq<User>, name: string)
    requires forall j :: 0 <= j < |users| ==> !NameMatches(users[j], name)
    ensures MatchingUserIds(users, name) == []
    decreases |users|
  {
    if users != [] {
      NoMatchNoIds(users[1..], name);
    }
  }

  /** `total` counts every selected entry, whatever the page, and
      `totalPages` is its ceiling division by the page size. */
  lemma TotalCountsAll(logs: seq<VisitorLog>, p: Params, users: seq<User>, articles: seq<Article>,
                       geo: map<string, IpApiReply>, validId: string -> bool)
    requires !ShortCircuit(p, users)
    ensures var r := Respond(logs, p, users, articles, geo, validId);
      r.total == Count(logs, SelectedBy(p, ResolvedIds(p, users))) &&
      r.totalPages == CeilDiv(r.total, p.pageSize) && |r.visitors| <= p.pageSize &&
      r.page == p.page && r.pageSize == p.pageSize
  {
  }

  /** The entries of a page are selected stored entries. */
  lemma PageMember(logs: seq<VisitorLog>, p: Params, ids: seq<string>, k: nat)
    requires k < |PageOf(logs, p, ids)|
    ensures var e := PageOf(logs, p, ids)[k]; e in logs && Selected(p, ids, e)
  {
    var m := Matching(logs, p, ids);
    var w := Window(m, p.page, p.pageSize);
    var e := w[k];
    WindowMember(m, p.page, p.pageSize, k);
    SortedFilterMember(logs, SelectedBy(p, ids), Timestamp, e);
    assert SelectedBy(p, ids)(e);
  }

  lemma WindowMember<T>(s: seq<T>, page: Pos, size: Pos, k: nat)
    requires k < |Window(s, page, size)|
    ensures Window(s, page, size)[k] in s
  {
    var i := Skip(page, size) + k;
    assert Window(s, page, size)[k] == s[i];
  }

  /** A page of a sorted sequence is sorted. */
  lemma WindowSorted<T>(s: seq<T>, key: T -> int, page: Pos, size: Pos, j: nat, k: nat)
    requires SortedDesc(s, key) && j < k < |Window(s, page, size)|
    ensures key(Window(s, page, size)[j]) >= key(Window(s, page, size)[k])
  {
    var start := Skip(page, size);
    assert key(s[start + j]) >= key(s[start + k]);
  }

  /** The entries of a page are newest first. */
  lemma PageNewestFirst(logs: seq<VisitorLog>, p: Params, ids: seq<string>, j: nat, k: nat)
    requires j < k < |PageOf(logs, p, ids)|
    ensures PageOf(logs, p, ids)[j].timestamp >= PageOf(logs, p, ids)[k].timestamp
  {
    WindowSorted(Matching(logs, p, ids), Timestamp, p.page, p.pageSize, j, k);
  }

  /** The returned entries are the entries of the page, in page order, with
      their locations filled in. */
  lemma ReturnedArePage(logs: seq<VisitorLog>, p: Params, users: seq<User>, articles: seq<Article>,
                        geo: map<string, IpApiReply>, validId: string -> bool)
    requires !ShortCircuit(p, users)
    ensures var vs := Respond(logs, p, users, articles, geo, validId).visitors;
      var pg := PageOf(logs, p, ResolvedIds(p, users));
      |vs| == |pg| && forall k :: 0 <= k < |vs| ==> vs[k].log == WithGeo(pg[k], geo) && vs[k].id == pg[k].id
  {
    var ids := ResolvedIds(p, users);
    var pg := Window(Matching(logs, p, ids), p.page, p.pageSize);
    assert pg == PageOf(logs, p, ids);
    var wg := WithGeoAll(pg, geo);
    assert Respond(logs, p, users, articles, geo, validId).visitors == Views(wg, users, articles, validId);
  }

  /** Every returned entry is a stored entry that passed every filter and the
      agent exclusion, returned with its location filled in. */
  lemma ReturnedAreSelected(logs: seq<VisitorLog>, p: Params, users: seq<User>, articles: seq<Article>,
                            geo: map<string, IpApiReply>, validId: string -> bool, k: nat)
    requires k < |Respond(logs, p, users, articles, geo, validId).visitors|
    ensures var v := Respond(logs, p, users, articles, geo, validId).visitors[k];
      exists e :: e in logs && Selected(p, ResolvedIds(p, users), e) && v.log == WithGeo(e, geo) &&
                  v.id == e.id && HumanAgent(v.log.userAgent)
  {
    ReturnedArePage(logs, p, users, articles, geo, validId);
    PageMember(logs, p, ResolvedIds(p, users), k);
  }

  /** The returned entries are newest first. */
  lemma ReturnedNewestFirst(logs: seq<VisitorLog>, p: Params, users: seq<User>, articles: seq<Article>,
                            geo: map<string, IpApiReply>, validId: string -> bool, j: nat, k: nat)
    requires j < k < |Respond(logs, p, users, articles, geo, validId).visitors|
    ensures var vs := Respond(logs, p, users, articles, geo, validId).visitors;
      vs[j].log.timestamp >= vs[k].log.timestamp
  {
    ReturnedArePage(logs, p, users, articles, geo, validId);
    PageNewestFirst(logs, p, ResolvedIds(p, users), j, k);
  }

  /** Every stored entry that passes the query is among the matches, so it
      has a place in the listing. */
  lemma SelectedIsMatched(logs: seq<VisitorLog>, p: Params, ids: seq<string>, e: VisitorLog)
    requires e in logs && SelectedBy(p, ids)(e)
    ensures exists k :: 0 <= k < |Matching(logs, p, ids)| && Matching(logs, p, ids)[k] == e
  {
    var f := Filter(logs, SelectedBy(p, ids));
    var i :| 0 <= i < |logs| && logs[i] == e;
    assert e in f;
    MultisetMember(Matching(logs, p, ids), f, e);
  }

  /** The match at index `k` is returned by the listing's page `k / pageSize + 1`,
      at slot `k % pageSize`, with its location filled in. */
  lemma ListedOnItsPage(logs: seq<VisitorLog>, p: Params, users: seq<User>, articles: seq<Article>,
                        geo: map<string, IpApiReply>, validId: string -> bool, k: nat)
    requires !ShortCircuit(p, users)
    requires k < |Matching(logs, p, ResolvedIds(p, users))|
    requires p.page == k / p.pageSize + 1
    ensures var vs := Respond(logs, p, users, articles, geo, validId).visitors;
      var e := Matching(logs, p, ResolvedIds(p, users))[k];
      k % p.pageSize < |vs| && vs[k % p.pageSize].id == e.id && vs[k % p.pageSize].log == WithGeo(e, geo)
  {
    var ids := ResolvedIds(p, users);
    var j := k % p.pageSize;
    PageSlotOf(logs, p, ids, k);
    ReturnedArePage(logs, p, users, articles, geo, validId);
    var vs := Respond(logs, p, users, articles, geo, validId).visitors;
    assert vs[j].log == WithGeo(PageOf(logs, p, ids)[j], geo);
  }

  /** The match at index `k` sits at slot `k % pageSize` of page `k / pageSize + 1`. */
  lemma PageSlotOf(logs: seq<VisitorLog>, p: Params, ids: seq<string>, k: nat)
    requires k < |Matching(logs, p, ids)|
    requires p.page == k / p.pageSize + 1
    ensures k % p.pageSize < |PageOf(logs, p, ids)|
    ensures PageOf(logs, p, ids)[k % p.pageSize] == Matching(logs, p, ids)[k]
  {
    var m := Matching(logs, p, ids);
    assert PageOf(logs, p, ids) == Window(m, p.page, p.pageSize);
    OnPage(m, p.page, p.pageSize, k);
  }

  lemma OnPage<T>(s: seq<T>, page: Pos, size: Pos, k: nat)
    requires k < |s| && page == k / size + 1
    ensures k % size < |Window(s, page, size)| && Window(s, page, size)[k % size] == s[k]
  {
    OnItsPage(s, size, k);
  }

  // ---------------------------------------------------------------------
  // The store

  class VisitorLogStore {
    var logs: seq<VisitorLog>

    /** `_id` is unique within the collection. */
    ghost predicate Valid()
      reads this
    {
      DistinctIds(logs)
    }

    constructor (initial: seq<VisitorLog>)
      requires DistinctIds(initial)
      ensures Valid() && logs == initial
    {
      logs := initial;
    }

    /** The enrichment loop: each entry of the page is returned with its
        fetched location, and a fetched location is written back to the
        store unless the write fails; a failed write is only logged. */
    method EnrichGeo(page: seq<VisitorLog>, geo: map<string, IpApiReply>, failing: set<string>)
      returns (out: seq<VisitorLog>)
      requires Valid()
      modifies this
      ensures Valid()
      ensures out == WithGeoAll(page, geo)
      ensures logs == GeoWrites(old(logs), page, geo, failing)
    {
      out := [];
      var stored := logs;
      var i := 0;
      while i < |page|
        invariant 0 <= i <= |page|
        invariant DistinctIds(stored)
        invariant |out| == i && forall k :: 0 <= k < i ==> out[k] == WithGeo(page[k], geo)
        invariant stored == GeoWrites(old(logs), page[..i], geo, failing)
      {
        var visitor := page[i];
        GeoWritesStep(old(logs), page, i, geo, failing);
        var withGeo := visitor;
        if NeedsGeo(visitor) {
          var g := Lookup(geo, visitor.ip.value);
          if g.Some? {
            withGeo := withGeo.(geoInfo := g);
            if visitor.id !in failing {
              assert Written(visitor, geo, failing) == g;
              SetGeoKeepsDistinct(stored, visitor.id, g.value);
              stored := SetGeo(stored, visitor.id, g.value);
            }
          }
        }
        assert withGeo == WithGeo(visitor, geo);
        out := out + [withGeo];
        i := i + 1;
      }
      assert page[..i] == page;
      assert out == WithGeoAll(page, geo);
      logs := stored;
    }

    /** `GET /api/visitors`: answers the listing of the stored entries and
        leaves the store with the write-backs of the page's locations. */
    method Get(p: Params, users: seq<User>, articles: seq<Article>,
               geo: map<string, IpApiReply>, failing: set<string>, validId: string -> bool)
      returns (resp: Listing)
      requires Valid()
      modifies this
      ensures Valid()
      ensures resp == Respond(old(logs), p, users, articles, geo, validId)
      ensures logs == if ShortCircuit(p, users) then old(logs)
                      else GeoWrites(old(logs), PageOf(old(logs), p, ResolvedIds(p, users)), geo, failing)
    {
      var ids: seq<string> := [];
      if Truthy(p.username) {
        ids := MatchingUserIds(users, p.username.value);
        if |ids| == 0 && Truthy(p.username) {
          return Listing([], 0, p.page, p.pageSize, 0);
        }
      }
      var q := BuildQuery(p, ids);
      FilterEquiv(logs, MatchesBy(q), SelectedBy(p, ids));
      var found := Filter(logs, MatchesBy(q));
      var total := |found|;
      var visitors := Window(SortDesc(found, Timestamp), p.page, p.pageSize);
      var withGeo := EnrichGeo(visitors, geo, failing);
      resp := Listing(Views(withGeo, users, articles, validId), total, p.page, p.pageSize,
                      CeilDiv(total, p.pageSize));
    }

    /** `DELETE /api/visitors`. */
    method Delete(d: DeleteParams) returns (r: Result<nat>)
      requires Valid()
      modifies this
      ensures Valid()
      ensures d.startDate.None? || d.endDate.None? ==> r.Failure? && r.error.status == 400 && logs == old(logs)
      ensures d.startDate.Some? && d.endDate.Some? ==>
        r == Success(Count(old(logs), DoomedBy(d))) &&
        logs == Filter(old(logs), KeptBy(d))
    {
      if d.startDate.None? || d.endDate.None? {
        return Failure(HttpError(400, "必须提供开始和结束日期时间"));
      }
      var before := logs;
      var doomed := Count(logs, DoomedBy(d));
      logs := Filter(logs, KeptBy(d));
      FilterKeepsDistinct(before, KeptBy(d));
      r := Success(doomed);
    }
  }

  lemma {:induction false} FilterKeepsDistinct(s: seq<VisitorLog>, f: VisitorLog -> bool)
    requires DistinctIds(s)
    ensures DistinctIds(Filter(s, f))
    decreases |s|
  {
    if s != [] {
      var t := s[1..];
      TailDistinct(s);
      FilterKeepsDistinct(t, f);
      assert Filter(s, f) == (if f(s[0]) then [s[0]] else []) + Filter(t, f);
      if f(s[0]) {
        assert forall i :: 0 <= i < |t| ==> t[i].id != s[0].id by {
          forall i | 0 <= i < |t| ensures t[i].id != s[0].id {
            assert t[i] == s[i + 1];
          }
        }
        FilterAvoidsId(t, f, s[0].id);
        ConsDistinct(s[0], Filter(t, f));
      }
    }
  }

  lemma TailDistinct(s: seq<VisitorLog>)
    requires s != [] && DistinctIds(s)
    ensures DistinctIds(s[1..])
  {
    var t := s[1..];
    forall i, j | 0 <= i < j < |t| ensures t[i].id != t[j].id {
      assert t[i] == s[i + 1] && t[j] == s[j + 1];
    }
  }

  lemma FilterAvoidsId(t: seq<VisitorLog>, f: VisitorLog -> bool, id: string)
    requires forall i :: 0 <= i < |t| ==> t[i].id != id
    ensures forall i :: 0 <= i < |Filter(t, f)| ==> Filter(t, f)[i].id != id
  {
    var r := Filter(t, f);
    forall i | 0 <= i < |r| ensures r[i].id != id {
      var j :| 0 <= j < |t| && t[j] == r[i];
    }
  }

  lemma ConsDistinct(x: VisitorLog, r: seq<VisitorLog>)
    requires DistinctIds(r) && forall i :: 0 <= i < |r| ==> r[i].id != x.id
    ensures DistinctIds([x] + r)
  {
    var out := [x] + r;
    forall i, j | 0 <= i < j < |out| ensures out[i].id != out[j].id {
      assert out[j] == r[j - 1];
      if i > 0 {
        assert out[i] == r[i - 1];
      }
    }
  }

  // ---------------------------------------------------------------------
  // Bulk delete

  /** The query string of a delete request. */
  datatype DeleteParams = DeleteParams(startDate: Option<int>, endDate: Option<int>,
                                       country: Option<string>, region: Option<string>,
                                       article: Option<string>)

  /** What a delete removes: entries in the inclusive time range that match
      the optional country, region and article filters, with no agent test. */
  predicate DeleteSelected(d: DeleteParams, e: VisitorLog) {
    d.startDate.Some? && d.endDate.Some? &&
    d.startDate.value <= e.timestamp <= d.endDate.value &&
    (Truthy(d.country) ==> FieldContainsCI(Country(e), d.country.value)) &&
    (Truthy(d.region) ==> FieldContainsCI(Region(e), d.region.value)) &&
    (Truthy(d.article) ==> FieldContainsCI(e.path, "/posts/" + d.article.value))
  }

  function DoomedBy(d: DeleteParams): VisitorLog -> bool {
    e => DeleteSelected(d, e)
  }

  function KeptBy(d: DeleteParams): VisitorLog -> bool {
    e => !DeleteSelected(d, e)
  }

  /** The deleted and the remaining entries make up the old collection. */
  lemma DeleteSplits(logs: seq<VisitorLog>, d: DeleteParams)
    requires d.startDate.Some? && d.endDate.Some?
    ensures Count(logs, DoomedBy(d)) +
            |Filter(logs, KeptBy(d))| == |logs|
  {
    FilterSplitsCount(logs, DoomedBy(d), KeptBy(d));
  }

  /** Deletion applies no agent test: a crawler's entry inside the range is
      deleted although no listing ever returns it. */
  lemma DeleteIgnoresAgent(e: VisitorLog, from: int, to: int)
    requires from <= e.timestamp <= to && e.userAgent == Some("bot")
    ensures DeleteSelected(DeleteParams(Some(from), Some(to), None, None, None), e)
    ensures forall p, ids :: !Selected(p, ids, e)
  {
    ExcludedAgent("bot", "bot");
  }
}
