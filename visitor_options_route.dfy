/** `GET /api/visitors/options`: the distinct countries and regions of the
    visitor log, cleaned and sorted, and the dispatch on `type`. */
module VisitorOptionsRoute {
  import opened Wrappers
  import opened Strings
  import opened Records
  import Grouping
  import VisitorsRoute
  import Seqs

  /** JavaScript's default string order: by character code, a proper prefix first. */
  predicate LexLe(a: string, b: string)
    decreases |a|
  {
    a == [] || (b != [] && (a[0] < b[0] || (a[0] == b[0] && LexLe(a[1..], b[1..]))))
  }

  lemma {:induction false} LexTotal(a: string, b: string)
    ensures LexLe(a, b) || LexLe(b, a)
    decreases |a|
  {
    if a != [] && b != [] && a[0] == b[0] {
      LexTotal(a[1..], b[1..]);
    }
  }

  lemma {:induction false} LexTrans(a: string, b: string, c: string)
    requires LexLe(a, b) && LexLe(b, c)
    ensures LexLe(a, c)
    decreases |a|
  {
    if a != [] && b != [] && c != [] && a[0] == b[0] == c[0] {
      LexTrans(a[1..], b[1..], c[1..]);
    }
  }

  lemma {:induction false} LexAntisym(a: string, b: string)
    requires LexLe(a, b) && LexLe(b, a)
    ensures a == b
    decreases |a|
  {
    if a != [] {
      LexAntisym(a[1..], b[1..]);
      assert a == [a[0]] + a[1..] && b == [b[0]] + b[1..];
    }
  }

  predicate SortedAsc(s: seq<string>) {
    forall i, j :: 0 <= i < j < |s| ==> LexLe(s[i], s[j])
  }

  /** A string no larger than the head of a sorted list can go in front. */
  lemma SortedAscCons(y: string, t: seq<string>)
    requires SortedAsc(t) && (t == [] || LexLe(y, t[0]))
    ensures SortedAsc([y] + t)
  {
    var r := [y] + t;
    forall i, j | 0 <= i < j < |r| ensures LexLe(r[i], r[j]) {
      assert r[j] == t[j - 1];
      if i > 0 {
        assert r[i] == t[i - 1];
      } else if j > 1 {
        LexTrans(y, t[0], t[j - 1]);
      }
    }
  }

  function InsertAsc(x: string, s: seq<string>): (r: seq<string>)
    requires SortedAsc(s)
    ensures multiset(r) == multiset(s) + multiset{x}
    ensures SortedAsc(r)
    ensures |r| > 0 && (r[0] == x || (s != [] && r[0] == s[0]))
    decreases |s|
  {
    if s == [] || LexLe(x, s[0]) then
      SortedAscCons(x, s);
      [x] + s
    else
      LexTotal(x, s[0]);
      var rest := InsertAsc(x, s[1..]);
      assert s == [s[0]] + s[1..];
      SortedAscCons(s[0], rest);
      assert multiset([s[0]] + rest) == multiset{s[0]} + multiset(rest);
      [s[0]] + rest
  }

  /** `.sort()` on strings: a permutation in ascending order. */
  function SortAsc(s: seq<string>): (r: seq<string>)
    ensures multiset(r) == multiset(s)
    ensures SortedAsc(r)
    decreases |s|
  {
    if s == [] then []
    else
      assert s == [s[0]] + s[1..];
      InsertAsc(s[0], SortAsc(s[1..]))
  }

  /** `v && v.trim() !== ''`. */
  predicate Meaningful(v: string) {
    Trim(v) != ""
  }

  /** Some entry has country `x`. */
  predicate HasCountry(logs: seq<VisitorLog>, x: string) {
    exists k :: 0 <= k < |logs| && VisitorsRoute.Country(logs[k]) == Some(x)
  }

  /** Some entry that has a country has region `x`. */
  predicate HasRegion(logs: seq<VisitorLog>, x: string) {
    exists k :: 0 <= k < |logs| && VisitorsRoute.Country(logs[k]).Some? && VisitorsRoute.Region(logs[k]) == Some(x)
  }

  lemma HasCountryCons(logs: seq<VisitorLog>, x: string)
    requires logs != []
    ensures HasCountry(logs, x) <==> VisitorsRoute.Country(logs[0]) == Some(x) || HasCountry(logs[1..], x)
  {
    if HasCountry(logs, x) {
      var k :| 0 <= k < |logs| && VisitorsRoute.Country(logs[k]) == Some(x);
      if k > 0 { assert logs[1..][k - 1] == logs[k]; }
    }
    if HasCountry(logs[1..], x) {
      var k :| 0 <= k < |logs[1..]| && VisitorsRoute.Country(logs[1..][k]) == Some(x);
      assert logs[k + 1] == logs[1..][k];
    }
  }

  lemma HasRegionCons(logs: seq<VisitorLog>, x: string)
    requires logs != []
    ensures HasRegion(logs, x) <==>
      (VisitorsRoute.Country(logs[0]).Some? && VisitorsRoute.Region(logs[0]) == Some(x)) || HasRegion(logs[1..], x)
  {
    if HasRegion(logs, x) {
      var k :| 0 <= k < |logs| && VisitorsRoute.Country(logs[k]).Some? && VisitorsRoute.Region(logs[k]) == Some(x);
      if k > 0 { assert logs[1..][k - 1] == logs[k]; }
    }
    if HasRegion(logs[1..], x) {
      var k :| 0 <= k < |logs[1..]| && VisitorsRoute.Country(logs[1..][k]).Some? && VisitorsRoute.Region(logs[1..][k]) == Some(x);
      assert logs[k + 1] == logs[1..][k];
    }
  }

  /** The countries of the entries, as the `$addToSet` stage collects them:
      exactly the countries some entry has. */
  function CountryValues(logs: seq<VisitorLog>): (r: seq<string>)
    ensures forall x :: x in r <==> HasCountry(logs, x)
    decreases |logs|
  {
    if logs == [] then []
    else
      var rest := CountryValues(logs[1..]);
      var r := match VisitorsRoute.Country(logs[0])
        case Some(c) => [c] + rest
        case None => rest;
      assert forall x :: x in r <==> HasCountry(logs, x) by {
        forall x ensures x in r <==> HasCountry(logs, x) {
          HasCountryCons(logs, x);
        }
      }
      r
  }

  /** The regions of the entries that have a country: exactly those regions. */
  function RegionValues(logs: seq<VisitorLog>): (r: seq<string>)
    ensures forall x :: x in r <==> HasRegion(logs, x)
    decreases |logs|
  {
    if logs == [] then []
    else
      var rest := RegionValues(logs[1..]);
      var r := if VisitorsRoute.Country(logs[0]).Some? && VisitorsRoute.Region(logs[0]).Some? then
                 [VisitorsRoute.Region(logs[0]).value] + rest
               else rest;
      assert forall x :: x in r <==> HasRegion(logs, x) by {
        forall x ensures x in r <==> HasRegion(logs, x) {
          HasRegionCons(logs, x);
        }
      }
      r
  }

  function MeaningfulBy(): string -> bool {
    v => Meaningful(v)
  }

  /** The cleaned, sorted option list of a collected value list. */
  function Options(values: seq<string>): seq<string> {
    SortAsc(Seqs.Filter(Grouping.DistinctKeys(values), MeaningfulBy()))
  }

  /** An option list holds exactly the meaningful collected values, sorted,
      each once. */
  lemma OptionsSpec(values: seq<string>, x: string)
    ensures var r := Options(values);
      SortedAsc(r) && Grouping.Distinct(r) && (x in r <==> x in values && Meaningful(x))
  {
    var d := Grouping.DistinctKeys(values);
    var kept := Seqs.Filter(d, MeaningfulBy());
    var r := SortAsc(kept);
    Grouping.FilterDistinct(d, MeaningfulBy());
    Grouping.PermutationDistinct(kept, r);
    assert x in r <==> x in multiset(r);
    assert x in kept <==> x in multiset(kept);
    if x in values {
      var i :| 0 <= i < |values| && values[i] == x;
    }
    if x in d {
      var i :| 0 <= i < |d| && d[i] == x;
    }
    if x in kept {
      var i :| 0 <= i < |kept| && kept[i] == x;
    }
  }

  /** The geo option lists. */
  datatype GeoOptions = GeoOptions(countries: seq<string>, regions: seq<string>)

  /** The response of `GET /api/visitors/options?type=...`: `geo` gives the
      lists, `all` (also the default) gives empty lists, anything else is a 400. */
  function Respond(logs: seq<VisitorLog>, kind: Option<string>): (r: Result<GeoOptions>)
    ensures Or(kind, "all") == "geo" ==> r.Success?
    ensures Or(kind, "all") == "all" ==> r == Success(GeoOptions([], []))
    ensures Or(kind, "all") !in {"geo", "all"} ==> r.Failure? && r.error.status == 400
  {
    var t := Or(kind, "all");
    if t == "geo" then Success(GeoOptions(Options(CountryValues(logs)), Options(RegionValues(logs))))
    else if t == "all" then Success(GeoOptions([], []))
    else Failure(HttpError(400, "未知的选项类型"))
  }

  /** A country is offered exactly when some entry has it as its country and
      it is not blank; the list is sorted and duplicate-free, and it is empty
      when no entry has a meaningful country. */
  lemma CountryOptionsSpec(logs: seq<VisitorLog>, x: string)
    ensures var r := Respond(logs, Some("geo"));
      r.Success? && SortedAsc(r.value.countries) && Grouping.Distinct(r.value.countries) &&
      (x in r.value.countries <==>
         Meaningful(x) && exists k :: 0 <= k < |logs| && VisitorsRoute.Country(logs[k]) == Some(x))
  {
    var cs := CountryValues(logs);
    assert Respond(logs, Some("geo")).value.countries == Options(cs);
    OptionsSpec(cs, x);
  }

  /** A region is offered exactly when some entry that has a country has it as
      its region and it is not blank; a region of an entry without a country
      never appears. */
  lemma RegionOptionsSpec(logs: seq<VisitorLog>, x: string)
    ensures var r := Respond(logs, Some("geo"));
      r.Success? && SortedAsc(r.value.regions) && Grouping.Distinct(r.value.regions) &&
      (x in r.value.regions <==>
         Meaningful(x) && exists k :: 0 <= k < |logs| && VisitorsRoute.Country(logs[k]).Some? &&
                                      VisitorsRoute.Region(logs[k]) == Some(x))
  {
    var rs := RegionValues(logs);
    assert Respond(logs, Some("geo")).value.regions == Options(rs);
    OptionsSpec(rs, x);
  }
}
