/** The issue listing query `getIssues`: equality filters, parameter
    defaults, the database sort/skip/limit, the reporter-name join and
    the optional radius ranking. The database scan is a sequence of
    documents in natural order; the haversine distance is a parameter. */
module IssueQuery {
  import opened Common
  import opened IssueTypes
  import Sorting

  datatype SortField = ByCreatedAt | ByUpvotes
  datatype SortOrder = Asc | Desc

  /** A (latitude, longitude) pair in degrees. */
  datatype GeoPoint = GeoPoint(latitude: real, longitude: real)

  /** The query parameters; `None` is an absent parameter. */
  datatype Filters = Filters(
    status: Option<Status>,
    category: Option<string>,
    userId: Option<UserId>,
    latitude: Option<real>,
    longitude: Option<real>,
    radiusKm: Option<real>,
    page: Option<int>,
    limit: Option<int>,
    sortBy: Option<SortField>,
    sortOrder: Option<SortOrder>)

  /** One listed record: the issue, its reporter's display name and, for a
      radius query only, its distance from the reference point in km. */
  datatype Listed = Listed(issue: Issue, reportedByName: string, distance: Option<real>)

  datatype QueryResult = QueryResult(data: seq<Listed>, total: int, page: int, totalPages: int)

  const DefaultPage := 1
  const DefaultLimit := 20
  const DefaultRadiusKm := 100.0
  const PlaceholderName := "User"
  const NegativeSkip := "skip value must be non-negative"

  /** `filters.page || 1`. */
  function PageOf(f: Filters): int {
    if f.page.None? || f.page.value == 0 then DefaultPage else f.page.value
  }

  /** `filters.limit || 20`; never 0. */
  function LimitOf(f: Filters): (r: int)
    ensures r != 0
  {
    if f.limit.None? || f.limit.value == 0 then DefaultLimit else f.limit.value
  }

  /** `filters.radiusKm || 100`. */
  function RadiusOf(f: Filters): real {
    if f.radiusKm.None? || f.radiusKm.value == 0.0 then DefaultRadiusKm else f.radiusKm.value
  }

  /** `filters.sortBy || 'createdAt'`. */
  function SortFieldOf(f: Filters): SortField {
    f.sortBy.GetOr(ByCreatedAt)
  }

  /** Ascending only for an explicit `'asc'`. */
  function SortOrderOf(f: Filters): SortOrder {
    if f.sortOrder == Some(Asc) then Asc else Desc
  }

  /** `skip = (page - 1) * limit`. */
  function SkipOf(f: Filters): int {
    (PageOf(f) - 1) * LimitOf(f)
  }

  /** The database returns at most |limit| documents (a negative limit
      asks for one batch of that size). */
  function TakeOf(f: Filters): nat {
    var l := LimitOf(f);
    if l < 0 then -l else l
  }

  /** A radius query needs both coordinates. */
  predicate IsGeo(f: Filters) {
    f.latitude.Some? && f.longitude.Some?
  }

  function ReferenceOf(f: Filters): GeoPoint
    requires IsGeo(f)
  {
    GeoPoint(f.latitude.value, f.longitude.value)
  }

  /** The equality query: a status, a non-empty category and a non-empty
      owner id each constrain the record; absent ones do not. */
  predicate Matches(i: Issue, f: Filters) {
    && (f.status.Some? ==> i.status == f.status.value)
    && (Truthy(f.category) ==> i.category == f.category.value)
    && (Truthy(f.userId) ==> i.userId == f.userId.value)
  }

  /** The documents the equality query selects, in scan order. */
  function Matching(docs: seq<Issue>, f: Filters): (r: seq<Issue>)
    ensures forall k :: 0 <= k < |r| ==> Matches(r[k], f)
    ensures forall i :: i in r <==> i in docs && Matches(i, f)
  {
    Filter(docs, (i: Issue) => Matches(i, f))
  }

  /** The selection keeps each matching document as often as it is
      stored, so `countDocuments` is the length of the selection. */
  lemma MatchingCounts(docs: seq<Issue>, f: Filters, i: Issue)
    ensures multiset(Matching(docs, f))[i] == if Matches(i, f) then multiset(docs)[i] else 0
  {
    FilterCounts(docs, (i: Issue) => Matches(i, f), i);
  }

  /** The database order on an optional number: a missing value sorts
      lowest. */
  predicate NumberLe(a: Option<int>, b: Option<int>) {
    a.None? || (b.Some? && a.value <= b.value)
  }

  /** `a` may precede `b` under `.sort({ [field]: order })`. */
  predicate InOrder(field: SortField, order: SortOrder, a: Issue, b: Issue) {
    match (field, order)
    case (ByCreatedAt, Asc) => a.createdAt <= b.createdAt
    case (ByCreatedAt, Desc) => b.createdAt <= a.createdAt
    case (ByUpvotes, Asc) => NumberLe(a.upvotes, b.upvotes)
    case (ByUpvotes, Desc) => NumberLe(b.upvotes, a.upvotes)
  }

  function Comparator(field: SortField, order: SortOrder): (Issue, Issue) -> bool {
    (a: Issue, b: Issue) => InOrder(field, order, a, b)
  }

  lemma ComparatorIsPreorder(field: SortField, order: SortOrder)
    ensures Sorting.TotalPreorder(Comparator(field, order))
  {
  }

  /** The matching documents in the requested order. */
  function Ranked(docs: seq<Issue>, f: Filters): seq<Issue> {
    Sorting.SortBy(Matching(docs, f), Comparator(SortFieldOf(f), SortOrderOf(f)))
  }

  /** The database's skip/limit window. */
  function Window<T>(s: seq<T>, skip: nat, take: nat): (r: seq<T>)
    ensures |r| <= take
    ensures |r| == if skip >= |s| then 0 else Min(take, |s| - skip)
    ensures forall k :: 0 <= k < |r| ==> skip + k < |s| && r[k] == s[skip + k]
  {
    if skip >= |s| then [] else s[skip..skip + Min(take, |s| - skip)]
  }

  /** The requested page of the ranked matches: at most |limit| of them,
      the run that starts after the skipped ones. */
  function PageSlice(docs: seq<Issue>, f: Filters): (r: seq<Issue>)
    requires SkipOf(f) >= 0
    ensures |r| <= TakeOf(f)
    ensures |r| == if SkipOf(f) >= |Ranked(docs, f)| then 0 else Min(TakeOf(f), |Ranked(docs, f)| - SkipOf(f))
    ensures forall k :: 0 <= k < |r| ==> SkipOf(f) + k < |Ranked(docs, f)| && r[k] == Ranked(docs, f)[SkipOf(f) + k]
  {
    Window(Ranked(docs, f), SkipOf(f), TakeOf(f))
  }

  /** `Math.ceil(a / b)` for a non-zero integer divisor. */
  function CeilDiv(a: nat, b: int): (r: int)
    requires b != 0
    ensures b > 0 ==> (r - 1) * b < a <= r * b
    ensures b < 0 ==> r * b <= a < (r - 1) * b
  {
    if b > 0 then
      var q := (a + b - 1) / b;
      assert a + b - 1 == q * b + (a + b - 1) % b;
      assert (q - 1) * b == q * b - b;
      q
    else
      var q := a / (-b);
      assert a == q * (-b) + a % (-b);
      assert (-q) * b == q * (-b);
      assert (-q - 1) * b == q * (-b) + (-b);
      -q
  }

  /** `user?.name || 'User'` for the owner looked up in `names`. */
  function DisplayName(names: map<UserId, string>, uid: UserId): (r: string)
    ensures r != ""
    ensures uid in names && names[uid] != "" ==> r == names[uid]
    ensures !(uid in names && names[uid] != "") ==> r == PlaceholderName
  {
    if uid in names && names[uid] != "" then names[uid] else PlaceholderName
  }

  /** Attach the reporter name to each record. */
  function WithNames(s: seq<Issue>, names: map<UserId, string>): (r: seq<Listed>)
    ensures |r| == |s|
    ensures forall k :: 0 <= k < |s| ==>
              r[k] == Listed(s[k], DisplayName(names, s[k].userId), None)
  {
    seq(|s|, k requires 0 <= k < |s| => Listed(s[k], DisplayName(names, s[k].userId), None))
  }

  /** The point an issue is located at. */
  function PointOf(i: Issue): GeoPoint {
    GeoPoint(i.location.latitude, i.location.longitude)
  }

  /** Annotate each record with its distance from `ref`. */
  function WithDistance(s: seq<Listed>, ref: GeoPoint, dist: (GeoPoint, GeoPoint) -> real)
    : (r: seq<Listed>)
    ensures |r| == |s|
    ensures forall k :: 0 <= k < |s| ==>
              r[k] == s[k].(distance := Some(dist(ref, PointOf(s[k].issue))))
  {
    seq(|s|, k requires 0 <= k < |s| => s[k].(distance := Some(dist(ref, PointOf(s[k].issue)))))
  }

  function DistanceOf(l: Listed): real {
    l.distance.GetOr(0.0)
  }

  /** Ascending distance. */
  function Nearer(a: Listed, b: Listed): bool {
    DistanceOf(a) <= DistanceOf(b)
  }

  lemma NearerIsPreorder()
    ensures Sorting.TotalPreorder(Nearer)
  {
  }

  /** Keep the records within `radius`, nearest first; never more records
      than were given. */
  function RadiusRank(s: seq<Listed>, radius: real): (r: seq<Listed>)
    ensures |r| <= |s|
  {
    Sorting.SortBy(Filter(s, (l: Listed) => DistanceOf(l) <= radius), Nearer)
  }

  /** The radius branch's records: the requested page with names and
      distances, cut to the radius and ranked by distance. */
  function RadiusData(docs: seq<Issue>, f: Filters, names: map<UserId, string>,
                      dist: (GeoPoint, GeoPoint) -> real): seq<Listed>
    requires IsGeo(f) && SkipOf(f) >= 0
  {
    RadiusRank(WithDistance(WithNames(PageSlice(docs, f), names), ReferenceOf(f), dist), RadiusOf(f))
  }

  /** `getIssues` as written: the radius step ranks only the page that
      skip/limit selected. */
  function GetIssues(docs: seq<Issue>, f: Filters, names: map<UserId, string>,
                     dist: (GeoPoint, GeoPoint) -> real): (r: Result<QueryResult>)
    ensures r.Err? <==> SkipOf(f) < 0
    ensures r.Err? ==> r.error == Unexpected(NegativeSkip)
    ensures r.Ok? ==> r.value.page == PageOf(f) && |r.value.data| <= TakeOf(f)
  {
    var total := |Matching(docs, f)|;
    if SkipOf(f) < 0 then Err(Unexpected(NegativeSkip))
    else
      if IsGeo(f) then
        var ranked := RadiusData(docs, f, names, dist);
        Ok(QueryResult(ranked, |ranked|, PageOf(f), CeilDiv(|ranked|, LimitOf(f))))
      else
        Ok(QueryResult(WithNames(PageSlice(docs, f), names), total, PageOf(f), CeilDiv(total, LimitOf(f))))
  }

  /** The defaults: page 1 and limit 20 for an absent or zero value,
      creation time, descending unless 'asc' is asked for; the only error
      is a negative skip, which the database rejects. */
  lemma GetIssuesDefaults(docs: seq<Issue>, f: Filters, names: map<UserId, string>,
                          dist: (GeoPoint, GeoPoint) -> real)
    ensures (f.page.None? || f.page == Some(0)) ==> PageOf(f) == 1
    ensures (f.limit.None? || f.limit == Some(0)) ==> LimitOf(f) == 20
    ensures (f.radiusKm.None? || f.radiusKm == Some(0.0)) ==> RadiusOf(f) == 100.0
    ensures f.sortBy.None? ==> SortFieldOf(f) == ByCreatedAt
    ensures SortOrderOf(f) == Asc <==> f.sortOrder == Some(Asc)
    ensures GetIssues(docs, f, names, dist).Err? <==> (PageOf(f) - 1) * LimitOf(f) < 0
    ensures GetIssues(docs, f, names, dist).Ok? ==> GetIssues(docs, f, names, dist).value.page == PageOf(f)
  {
  }

  /** Every element of the page is a ranked match. */
  lemma PageSliceMembers(docs: seq<Issue>, f: Filters)
    requires SkipOf(f) >= 0
    ensures forall k :: 0 <= k < |PageSlice(docs, f)| ==>
              PageSlice(docs, f)[k] in docs && Matches(PageSlice(docs, f)[k], f)
  {
    var m := Matching(docs, f);
    var ranked := Ranked(docs, f);
    Sorting.SameMembers(ranked, m);
    var page := PageSlice(docs, f);
    forall k | 0 <= k < |page| ensures page[k] in docs && Matches(page[k], f) {
      assert page[k] == ranked[SkipOf(f) + k];
      assert page[k] in ranked;
    }
  }

  /** In both branches every returned record satisfies every supplied
      equality filter and comes from the store. */
  lemma GetIssuesSatisfiesFilters(docs: seq<Issue>, f: Filters, names: map<UserId, string>,
                                  dist: (GeoPoint, GeoPoint) -> real)
    requires GetIssues(docs, f, names, dist).Ok?
    ensures forall k :: 0 <= k < |GetIssues(docs, f, names, dist).value.data| ==>
              var i := GetIssues(docs, f, names, dist).value.data[k].issue;
              i in docs && Matches(i, f)
  {
    if IsGeo(f) {
      RadiusDataFromPage(docs, f, names, dist);
      assert GetIssues(docs, f, names, dist).value.data == RadiusData(docs, f, names, dist);
    } else {
      PageSliceMembers(docs, f);
      assert GetIssues(docs, f, names, dist).value.data == WithNames(PageSlice(docs, f), names);
    }
  }

  /** Every record the radius branch returns is a matching stored issue. */
  lemma RadiusDataFromPage(docs: seq<Issue>, f: Filters, names: map<UserId, string>,
                           dist: (GeoPoint, GeoPoint) -> real)
    requires IsGeo(f) && SkipOf(f) >= 0
    ensures forall k :: 0 <= k < |RadiusData(docs, f, names, dist)| ==>
              RadiusData(docs, f, names, dist)[k].issue in docs && Matches(RadiusData(docs, f, names, dist)[k].issue, f)
  {
    PageSliceMembers(docs, f);
    var page := PageSlice(docs, f);
    var annotated := WithDistance(WithNames(page, names), ReferenceOf(f), dist);
    var ranked := RadiusData(docs, f, names, dist);
    RadiusRankMembers(annotated, RadiusOf(f));
    forall k | 0 <= k < |ranked| ensures ranked[k].issue in docs && Matches(ranked[k].issue, f) {
      var j :| 0 <= j < |annotated| && annotated[j] == ranked[k];
      assert ranked[k].issue == page[j];
    }
  }

  /** Ranking only keeps records it was given. */
  lemma RadiusRankMembers(s: seq<Listed>, radius: real)
    ensures forall k :: 0 <= k < |RadiusRank(s, radius)| ==> RadiusRank(s, radius)[k] in s
  {
    RadiusRankOrder(s, radius);
  }

  /** Without a reference point: the result is the window
      [skip, skip + |limit|) of the matches sorted by the requested key,
      every record has its reporter name and no distance, at most |limit|
      records are returned, `total` counts all matches and `totalPages`
      is the ceiling of total / limit. */
  lemma ListingIsSortedWindow(docs: seq<Issue>, f: Filters, names: map<UserId, string>,
                              dist: (GeoPoint, GeoPoint) -> real)
    requires !IsGeo(f) && SkipOf(f) >= 0
    ensures var r := GetIssues(docs, f, names, dist);
            && r.Ok?
            && r.value.total == |Matching(docs, f)|
            && r.value.totalPages == CeilDiv(|Matching(docs, f)|, LimitOf(f))
            && |r.value.data| <= TakeOf(f)
            && |r.value.data| == (if SkipOf(f) >= |Ranked(docs, f)| then 0
                                  else Min(TakeOf(f), |Ranked(docs, f)| - SkipOf(f)))
            && forall k :: 0 <= k < |r.value.data| ==>
                 && SkipOf(f) + k < |Ranked(docs, f)|
                 && r.value.data[k].issue == Ranked(docs, f)[SkipOf(f) + k]
                 && r.value.data[k].reportedByName == DisplayName(names, r.value.data[k].issue.userId)
                 && r.value.data[k].distance.None?
  {
  }

  /** Without a reference point the matches are ranked by the requested
      key and direction, as a permutation of the matches, so the returned
      page is in that order too. */
  lemma ListingIsSorted(docs: seq<Issue>, f: Filters, names: map<UserId, string>,
                        dist: (GeoPoint, GeoPoint) -> real)
    requires !IsGeo(f) && SkipOf(f) >= 0
    ensures Sorting.Sorted(Ranked(docs, f), Comparator(SortFieldOf(f), SortOrderOf(f)))
    ensures multiset(Ranked(docs, f)) == multiset(Matching(docs, f))
    ensures var data := GetIssues(docs, f, names, dist).value.data;
            forall a, b :: 0 <= a < b < |data| ==>
              InOrder(SortFieldOf(f), SortOrderOf(f), data[a].issue, data[b].issue)
  {
    var field, order := SortFieldOf(f), SortOrderOf(f);
    var le := Comparator(field, order);
    ComparatorIsPreorder(field, order);
    Sorting.SortBySorted(Matching(docs, f), le);
    var ranked := Ranked(docs, f);
    assert forall a, b :: 0 <= a < b < |ranked| ==> InOrder(field, order, ranked[a], ranked[b]) by {
      forall a, b | 0 <= a < b < |ranked| ensures InOrder(field, order, ranked[a], ranked[b]) {
        assert le(ranked[a], ranked[b]);
      }
    }
    var page := PageSlice(docs, f);
    WindowInOrder(ranked, SkipOf(f), TakeOf(f), field, order);
    var data := WithNames(page, names);
    assert GetIssues(docs, f, names, dist).value.data == data;
    assert forall k :: 0 <= k < |data| ==> data[k].issue == page[k];
  }

  /** A window of a sequence in order is in order. */
  lemma WindowInOrder(s: seq<Issue>, skip: nat, take: nat, field: SortField, order: SortOrder)
    requires forall a, b :: 0 <= a < b < |s| ==> InOrder(field, order, s[a], s[b])
    ensures var w := Window(s, skip, take);
            forall a, b :: 0 <= a < b < |w| ==> InOrder(field, order, w[a], w[b])
  {
    var w := Window(s, skip, take);
    forall a, b | 0 <= a < b < |w| ensures InOrder(field, order, w[a], w[b]) {
      assert w[a] == s[skip + a] && w[b] == s[skip + b];
    }
  }

  /** With a reference point the result is the radius-ranked page: `total`
      is its length, `totalPages` the ceiling of that length over the
      limit, and it has no more records than the page. */
  lemma RadiusQueryTotals(docs: seq<Issue>, f: Filters, names: map<UserId, string>,
                          dist: (GeoPoint, GeoPoint) -> real)
    requires IsGeo(f) && SkipOf(f) >= 0
    ensures var data := RadiusData(docs, f, names, dist);
            GetIssues(docs, f, names, dist) ==
            Ok(QueryResult(data, |data|, PageOf(f), CeilDiv(|data|, LimitOf(f))))
    ensures |RadiusData(docs, f, names, dist)| <= |PageSlice(docs, f)| <= TakeOf(f)
  {
    RadiusRankOrder(WithDistance(WithNames(PageSlice(docs, f), names), ReferenceOf(f), dist), RadiusOf(f));
  }

  /** With a reference point: every returned record carries its distance,
      which is within the radius (100 km by default); records come
      nearest first; they are exactly the records of the requested page
      that lie within the radius; `total` is their number and
      `totalPages` the ceiling of that number over the limit. */
  lemma RadiusQueryRanksPage(docs: seq<Issue>, f: Filters, names: map<UserId, string>,
                             dist: (GeoPoint, GeoPoint) -> real)
    requires IsGeo(f) && SkipOf(f) >= 0
    ensures var data := RadiusData(docs, f, names, dist);
            forall k :: 0 <= k < |data| ==>
              && data[k].distance == Some(dist(ReferenceOf(f), PointOf(data[k].issue)))
              && DistanceOf(data[k]) <= RadiusOf(f)
              && data[k].issue in PageSlice(docs, f)
    ensures var data := RadiusData(docs, f, names, dist);
            forall a, b :: 0 <= a < b < |data| ==> DistanceOf(data[a]) <= DistanceOf(data[b])
    ensures var data := RadiusData(docs, f, names, dist);
            var page := PageSlice(docs, f);
            forall j :: 0 <= j < |page| && dist(ReferenceOf(f), PointOf(page[j])) <= RadiusOf(f) ==>
              exists k :: 0 <= k < |data| && data[k].issue == page[j]
    ensures var data := RadiusData(docs, f, names, dist);
            var annotated := WithDistance(WithNames(PageSlice(docs, f), names), ReferenceOf(f), dist);
            forall x :: multiset(data)[x] == if DistanceOf(x) <= RadiusOf(f) then multiset(annotated)[x] else 0
  {
    RankedPageSpec(PageSlice(docs, f), names, ReferenceOf(f), dist, RadiusOf(f));
  }

  /** Ranking an annotated page: each record carries its own distance from
      `ref`, lies within `radius` and comes from the page; records come
      nearest first; every page entry within the radius is present. */
  lemma RankedPageSpec(page: seq<Issue>, names: map<UserId, string>, ref: GeoPoint,
                       dist: (GeoPoint, GeoPoint) -> real, radius: real)
    ensures var data := RadiusRank(WithDistance(WithNames(page, names), ref, dist), radius);
            forall k :: 0 <= k < |data| ==>
              && data[k].distance == Some(dist(ref, PointOf(data[k].issue)))
              && DistanceOf(data[k]) <= radius
              && data[k].issue in page
    ensures var data := RadiusRank(WithDistance(WithNames(page, names), ref, dist), radius);
            forall a, b :: 0 <= a < b < |data| ==> DistanceOf(data[a]) <= DistanceOf(data[b])
    ensures var data := RadiusRank(WithDistance(WithNames(page, names), ref, dist), radius);
            forall j :: 0 <= j < |page| && dist(ref, PointOf(page[j])) <= radius ==>
              exists k :: 0 <= k < |data| && data[k].issue == page[j]
    ensures var annotated := WithDistance(WithNames(page, names), ref, dist);
            forall x :: multiset(RadiusRank(annotated, radius))[x] ==
              if DistanceOf(x) <= radius then multiset(annotated)[x] else 0
  {
    RankedPageMembers(page, names, ref, dist, radius);
    RadiusRankCounts(WithDistance(WithNames(page, names), ref, dist), radius);
  }

  /** The membership, order and completeness half of `RankedPageSpec`. */
  lemma RankedPageMembers(page: seq<Issue>, names: map<UserId, string>, ref: GeoPoint,
                          dist: (GeoPoint, GeoPoint) -> real, radius: real)
    ensures var data := RadiusRank(WithDistance(WithNames(page, names), ref, dist), radius);
            forall k :: 0 <= k < |data| ==>
              && data[k].distance == Some(dist(ref, PointOf(data[k].issue)))
              && DistanceOf(data[k]) <= radius
              && data[k].issue in page
    ensures var data := RadiusRank(WithDistance(WithNames(page, names), ref, dist), radius);
            forall a, b :: 0 <= a < b < |data| ==> DistanceOf(data[a]) <= DistanceOf(data[b])
    ensures var data := RadiusRank(WithDistance(WithNames(page, names), ref, dist), radius);
            forall j :: 0 <= j < |page| && dist(ref, PointOf(page[j])) <= radius ==>
              exists k :: 0 <= k < |data| && data[k].issue == page[j]
  {
    var annotated := WithDistance(WithNames(page, names), ref, dist);
    var ranked := RadiusRank(annotated, radius);
    RadiusRankOrder(annotated, radius);
    forall k | 0 <= k < |ranked|
      ensures && ranked[k].distance == Some(dist(ref, PointOf(ranked[k].issue)))
              && ranked[k].issue in page
    {
      var j :| 0 <= j < |annotated| && annotated[j] == ranked[k];
      assert ranked[k].issue == page[j];
    }
    forall j | 0 <= j < |page| && dist(ref, PointOf(page[j])) <= radius
      ensures exists k :: 0 <= k < |ranked| && ranked[k].issue == page[j]
    {
      assert DistanceOf(annotated[j]) <= radius;
      var k :| 0 <= k < |ranked| && ranked[k] == annotated[j];
    }
  }

  /** The radius step keeps exactly the records within the radius, nearest
      first. */
  lemma RadiusRankSpec(s: seq<Listed>, radius: real)
    ensures |RadiusRank(s, radius)| <= |s|
    ensures forall k :: 0 <= k < |RadiusRank(s, radius)| ==>
              DistanceOf(RadiusRank(s, radius)[k]) <= radius && RadiusRank(s, radius)[k] in s
    ensures forall a, b :: 0 <= a < b < |RadiusRank(s, radius)| ==>
              DistanceOf(RadiusRank(s, radius)[a]) <= DistanceOf(RadiusRank(s, radius)[b])
    ensures forall j :: 0 <= j < |s| && DistanceOf(s[j]) <= radius ==>
              exists k :: 0 <= k < |RadiusRank(s, radius)| && RadiusRank(s, radius)[k] == s[j]
    ensures forall x :: multiset(RadiusRank(s, radius))[x] ==
              if DistanceOf(x) <= radius then multiset(s)[x] else 0
  {
    RadiusRankOrder(s, radius);
    RadiusRankCounts(s, radius);
  }

  /** Ranking by distance counts each record within the radius as often as
      it occurs and drops the rest. */
  lemma RadiusRankCounts(s: seq<Listed>, radius: real)
    ensures forall x :: multiset(RadiusRank(s, radius))[x] ==
              if DistanceOf(x) <= radius then multiset(s)[x] else 0
  {
    forall x ensures multiset(RadiusRank(s, radius))[x] ==
                       if DistanceOf(x) <= radius then multiset(s)[x] else 0 {
      FilterCounts(s, (l: Listed) => DistanceOf(l) <= radius, x);
    }
  }

  /** Membership, bound, order and completeness of the radius step. */
  lemma RadiusRankOrder(s: seq<Listed>, radius: real)
    ensures |RadiusRank(s, radius)| <= |s|
    ensures forall k :: 0 <= k < |RadiusRank(s, radius)| ==>
              DistanceOf(RadiusRank(s, radius)[k]) <= radius && RadiusRank(s, radius)[k] in s
    ensures forall a, b :: 0 <= a < b < |RadiusRank(s, radius)| ==>
              DistanceOf(RadiusRank(s, radius)[a]) <= DistanceOf(RadiusRank(s, radius)[b])
    ensures forall j :: 0 <= j < |s| && DistanceOf(s[j]) <= radius ==>
              exists k :: 0 <= k < |RadiusRank(s, radius)| && RadiusRank(s, radius)[k] == s[j]
  {
    var kept := Filter(s, (l: Listed) => DistanceOf(l) <= radius);
    var ranked := RadiusRank(s, radius);
    NearerIsPreorder();
    Sorting.SortBySorted(kept, Nearer);
    Sorting.SameMembers(ranked, kept);
    forall k | 0 <= k < |ranked| ensures DistanceOf(ranked[k]) <= radius && ranked[k] in s {
      assert ranked[k] in ranked;
    }
    forall a, b | 0 <= a < b < |ranked| ensures DistanceOf(ranked[a]) <= DistanceOf(ranked[b]) {
      assert Nearer(ranked[a], ranked[b]);
    }
    forall j | 0 <= j < |s| && DistanceOf(s[j]) <= radius
      ensures exists k :: 0 <= k < |ranked| && ranked[k] == s[j]
    {
      assert s[j] in kept;
      assert s[j] in ranked;
    }
  }

  /** The radius search covers only the requested page: with two matching
      records both at distance 0 and a limit of 1, one record is returned
      and `total` is 1, although both lie within the radius. */
  lemma RadiusSearchSeesOnlyThePage(a: Issue, b: Issue, here: GeoPoint)
    requires a != b
    ensures var f := Filters(None, None, None, Some(here.latitude), Some(here.longitude),
                             None, None, Some(1), None, None);
            var zero := (p: GeoPoint, q: GeoPoint) => 0.0;
            var r := GetIssues([a, b], f, map[], zero);
            && |Matching([a, b], f)| == 2
            && r.Ok? && r.value.total == 1 && |r.value.data| == 1 && r.value.totalPages == 1
  {
    var f := Filters(None, None, None, Some(here.latitude), Some(here.longitude),
                     None, None, Some(1), None, None);
    var zero := (p: GeoPoint, q: GeoPoint) => 0.0;
    assert forall k :: 0 <= k < |[a, b]| ==> Matches([a, b][k], f);
    assert Matching([a, b], f) == [a, b];
    RadiusQueryTotals([a, b], f, map[], zero);
    RadiusQueryRanksPage([a, b], f, map[], zero);
    var page := PageSlice([a, b], f);
    assert |page| == 1;
    assert zero(ReferenceOf(f), PointOf(page[0])) <= RadiusOf(f);
    var data := RadiusData([a, b], f, map[], zero);
    assert exists k :: 0 <= k < |data| && data[k].issue == page[0];
  }

  /** A larger radius never returns fewer records. */
  lemma RadiusMonotone(s: seq<Listed>, r1: real, r2: real)
    requires r1 <= r2
    ensures |RadiusRank(s, r1)| <= |RadiusRank(s, r2)|
  {
    FilterWeakerKeepsMore(s, (l: Listed) => DistanceOf(l) <= r1, (l: Listed) => DistanceOf(l) <= r2);
  }
}
