/** The request side of the issue endpoints: turning the listing query
    string into `getIssues` parameters and its result into the response,
    the report schema and the creation call, and the image upload checks.
    `parseFloat` and `parseInt` are parameters; `None` stands for NaN. */
module IssueController {
  import opened Common
  import opened IssueTypes
  import opened IssueQuery
  import IssueService

  /** The point the pincode stub resolves every pincode to. */
  const PincodeLatitude := 72.23
  const PincodeLongitude := 22.8

  const PincodeUnresolved := "Unable to convert pincode to coordinates. Please provide latitude and longitude instead."
  const InvalidCoordinates := "Invalid latitude or longitude"

  /** The query parameters after the schema: the enums are parsed, the
      numbers are still text. */
  datatype ListingQuery = ListingQuery(
    status: Option<Status>,
    category: Option<string>,
    userId: Option<string>,
    pincode: Option<string>,
    latitude: Option<string>,
    longitude: Option<string>,
    radiusKm: Option<string>,
    page: Option<string>,
    limit: Option<string>,
    sortBy: Option<SortField>,
    sortOrder: Option<SortOrder>)

  /** `pincodeToCoordinates`, a stub that knows a single point. */
  function PincodeToCoordinates(pincode: string): Option<GeoPoint> {
    Some(GeoPoint(PincodeLatitude, PincodeLongitude))
  }

  /** The reference point: a pincode wins, then both coordinates if both
      are given and parse; otherwise none. */
  function ReferencePoint(q: ListingQuery, parseFloat: string -> Option<real>): (r: Result<Option<GeoPoint>>)
    ensures r.Err? ==> !Truthy(q.pincode) && r.error == ValidationError(InvalidCoordinates)
    ensures r == Ok(None) <==> !Truthy(q.pincode) && !(Truthy(q.latitude) && Truthy(q.longitude))
  {
    if Truthy(q.pincode) then
      match PincodeToCoordinates(q.pincode.value)
      case Some(p) => Ok(Some(p))
      case None => Err(ValidationError(PincodeUnresolved))
    else if Truthy(q.latitude) && Truthy(q.longitude) then
      var lat := parseFloat(q.latitude.value);
      var lon := parseFloat(q.longitude.value);
      if lat.None? || lon.None? then Err(ValidationError(InvalidCoordinates))
      else Ok(Some(GeoPoint(lat.value, lon.value)))
    else Ok(None)
  }

  /** The `getIssues` parameters of `fetchAllIssues`: absent radius, page
      and limit become 100, 1 and 20; present ones are parsed (NaN stays
      absent, which `getIssues` then defaults). */
  function ResolveListing(q: ListingQuery, parseFloat: string -> Option<real>, parseInt: string -> Option<int>)
    : (r: Result<Filters>)
    ensures r.Err? <==> ReferencePoint(q, parseFloat).Err?
    ensures r.Ok? ==> (IsGeo(r.value) <==> ReferencePoint(q, parseFloat).value.Some?)
  {
    match ReferencePoint(q, parseFloat)
    case Err(e) => Err(e)
    case Ok(reference) =>
      var latitude := if reference.Some? then Some(reference.value.latitude) else None;
      var longitude := if reference.Some? then Some(reference.value.longitude) else None;
      var radiusKm := if Truthy(q.radiusKm) then parseFloat(q.radiusKm.value) else Some(DefaultRadiusKm);
      var page := if Truthy(q.page) then parseInt(q.page.value) else Some(DefaultPage);
      var limit := if Truthy(q.limit) then parseInt(q.limit.value) else Some(DefaultLimit);
      Ok(Filters(q.status, q.category, q.userId, latitude, longitude, radiusKm, page, limit, q.sortBy, q.sortOrder))
  }

  /** A pincode takes precedence over coordinates and always resolves to
      the stub's point. */
  lemma PincodeTakesPrecedence(q: ListingQuery, parseFloat: string -> Option<real>, parseInt: string -> Option<int>)
    requires Truthy(q.pincode)
    ensures var r := ResolveListing(q, parseFloat, parseInt);
            r.Ok? && r.value.latitude == Some(PincodeLatitude) && r.value.longitude == Some(PincodeLongitude)
  {
  }

  /** Without a pincode: the query is a radius query exactly when both
      coordinates are given and parse, and it fails exactly when both are
      given and one does not parse. */
  lemma CoordinatesNeedBoth(q: ListingQuery, parseFloat: string -> Option<real>, parseInt: string -> Option<int>)
    requires !Truthy(q.pincode)
    ensures var r := ResolveListing(q, parseFloat, parseInt);
            var both := Truthy(q.latitude) && Truthy(q.longitude);
            && (r.Err? <==> both && (parseFloat(q.latitude.value).None? || parseFloat(q.longitude.value).None?))
            && (r.Err? ==> r.error == ValidationError(InvalidCoordinates))
            && (r.Ok? ==> (IsGeo(r.value) <==> both))
            && (r.Ok? && both ==> r.value.latitude == parseFloat(q.latitude.value)
                                  && r.value.longitude == parseFloat(q.longitude.value))
  {
  }

  /** Absent text parameters reach `getIssues` as radius 100 km, page 1 and
      limit 20, and the equality filters and sort keys pass unchanged. */
  lemma ListingDefaults(q: ListingQuery, parseFloat: string -> Option<real>, parseInt: string -> Option<int>)
    ensures var r := ResolveListing(q, parseFloat, parseInt);
            r.Ok? ==>
              && (!Truthy(q.radiusKm) ==> r.value.radiusKm == Some(100.0) && RadiusOf(r.value) == 100.0)
              && (!Truthy(q.page) ==> r.value.page == Some(1) && PageOf(r.value) == 1)
              && (!Truthy(q.limit) ==> r.value.limit == Some(20) && LimitOf(r.value) == 20)
              && r.value.status == q.status && r.value.category == q.category && r.value.userId == q.userId
              && r.value.sortBy == q.sortBy && r.value.sortOrder == q.sortOrder
  {
  }

  /** One issue of the listing response. */
  datatype IssueView = IssueView(
    id: IssueId,
    title: string,
    description: string,
    category: string,
    status: Status,
    userId: UserId,
    reportedByName: string,
    location: Location,
    uploadUrls: seq<string>,
    upvotes: int,
    upvotedBy: seq<UserId>,
    distance: Option<real>,
    createdAt: int,
    updatedAt: int)

  datatype Listing = Listing(count: int, page: int, totalPages: int, issues: seq<IssueView>)

  /** The response fields of one listed issue; absent vote fields read as
      0 and []. */
  function ViewOf(l: Listed): (v: IssueView)
    ensures v.upvotes == (if l.issue.upvotes.Some? then l.issue.upvotes.value else 0)
    ensures v.upvotedBy == (if l.issue.upvotedBy.Some? then l.issue.upvotedBy.value else [])
    ensures v.id == l.issue.id && v.reportedByName == l.reportedByName && v.distance == l.distance
  {
    IssueView(l.issue.id, l.issue.title, l.issue.description, l.issue.category, l.issue.status,
              l.issue.userId, l.reportedByName, l.issue.location, l.issue.uploadUrls,
              Upvotes(l.issue), Voters(l.issue), l.distance, l.issue.createdAt, l.issue.updatedAt)
  }

  /** `fetchAllIssues` over the stored documents. */
  function FetchAllIssues(q: ListingQuery, docs: seq<Issue>, names: map<UserId, string>,
                          dist: (GeoPoint, GeoPoint) -> real,
                          parseFloat: string -> Option<real>, parseInt: string -> Option<int>)
    : (r: Result<Listing>)
    ensures r.Err? <==> ResolveListing(q, parseFloat, parseInt).Err?
                        || GetIssues(docs, ResolveListing(q, parseFloat, parseInt).value, names, dist).Err?
    ensures r.Ok? ==> |r.value.issues| <= TakeOf(ResolveListing(q, parseFloat, parseInt).value)
  {
    match ResolveListing(q, parseFloat, parseInt)
    case Err(e) => Err(e)
    case Ok(f) =>
      match GetIssues(docs, f, names, dist)
      case Err(e) => Err(e)
      case Ok(res) =>
        Ok(Listing(res.total, res.page, res.totalPages, seq(|res.data|, k requires 0 <= k < |res.data| => ViewOf(res.data[k]))))
  }

  /** The response keeps the order and the number of the `getIssues`
      records, reports its total, page and page count, and every issue in
      it satisfies the query's equality filters. */
  lemma FetchAllIssuesReportsQuery(q: ListingQuery, docs: seq<Issue>, names: map<UserId, string>,
                                   dist: (GeoPoint, GeoPoint) -> real,
                                   parseFloat: string -> Option<real>, parseInt: string -> Option<int>)
    requires FetchAllIssues(q, docs, names, dist, parseFloat, parseInt).Ok?
    ensures var f := ResolveListing(q, parseFloat, parseInt).value;
            var res := GetIssues(docs, f, names, dist).value;
            var out := FetchAllIssues(q, docs, names, dist, parseFloat, parseInt).value;
            && out.count == res.total && out.page == res.page && out.totalPages == res.totalPages
            && |out.issues| == |res.data|
            && (forall k :: 0 <= k < |out.issues| ==> out.issues[k] == ViewOf(res.data[k]))
            && (forall k :: 0 <= k < |out.issues| ==>
                  && (q.status.Some? ==> out.issues[k].status == q.status.value)
                  && (Truthy(q.category) ==> out.issues[k].category == q.category.value)
                  && (Truthy(q.userId) ==> out.issues[k].userId == q.userId.value))
  {
    var f := ResolveListing(q, parseFloat, parseInt).value;
    GetIssuesSatisfiesFilters(docs, f, names, dist);
  }

  // ---------------------------------------------------------------------
  // Reporting an issue.

  const TitleMin := 5
  const DescriptionMin := 10

  /** The body of a report before the schema is applied. */
  datatype ReportBody = ReportBody(
    title: string,
    description: string,
    category: string,
    uploadUrls: Option<seq<string>>,
    latitude: real,
    longitude: real,
    address: string)

  /** A URL list passes when every entry is a URL. */
  predicate AllUrls(urls: seq<string>, isUrl: string -> bool) {
    forall k :: 0 <= k < |urls| ==> isUrl(urls[k])
  }

  /** Every check of the report schema. */
  predicate ReportValid(b: ReportBody, isUrl: string -> bool) {
    && |b.title| >= TitleMin
    && |b.description| >= DescriptionMin
    && |b.category| >= 1
    && (b.uploadUrls.Some? ==> AllUrls(b.uploadUrls.value, isUrl))
    && -90.0 <= b.latitude <= 90.0
    && -180.0 <= b.longitude <= 180.0
    && |b.address| >= 1
  }

  /** The report schema; a rejected body carries the message of the first
      failing field in schema order. */
  function ValidateReport(b: ReportBody, isUrl: string -> bool): (r: Result<ReportBody>)
    ensures r.Ok? <==> ReportValid(b, isUrl)
    ensures r.Err? ==> r.error.ValidationError?
    ensures r.Ok? ==> r.value == b.(uploadUrls := Some(b.uploadUrls.GetOr([])))
  {
    if |b.title| < TitleMin then Err(ValidationError("Title must be at least 5 characters"))
    else if |b.description| < DescriptionMin then Err(ValidationError("Description must be at least 10 characters"))
    else if |b.category| < 1 then Err(ValidationError("Category is required"))
    else if b.uploadUrls.Some? && !AllUrls(b.uploadUrls.value, isUrl) then Err(ValidationError("Invalid url"))
    else if b.latitude < -90.0 then Err(ValidationError("Number must be greater than or equal to -90"))
    else if b.latitude > 90.0 then Err(ValidationError("Number must be less than or equal to 90"))
    else if b.longitude < -180.0 then Err(ValidationError("Number must be greater than or equal to -180"))
    else if b.longitude > 180.0 then Err(ValidationError("Number must be less than or equal to 180"))
    else if |b.address| < 1 then Err(ValidationError("Address is required"))
    else Ok(b.(uploadUrls := Some(b.uploadUrls.GetOr([]))))
  }

  /** The fields of the `raiseIssue` response. */
  datatype ReportedIssue = ReportedIssue(
    id: IssueId,
    title: string,
    description: string,
    category: string,
    status: Status,
    location: Location,
    uploadUrls: seq<string>,
    createdAt: int)

  /** `raiseIssue`: a body that passes the schema is stored as a new open
      issue of the caller; a rejected body changes nothing. */
  method RaiseIssue(store: IssueService.IssueStore, userId: UserId, body: ReportBody,
                    isUrl: string -> bool, now: int) returns (r: Result<ReportedIssue>)
    requires store.Valid()
    modifies store
    ensures store.Valid()
    ensures r.Ok? <==> ReportValid(body, isUrl)
    ensures !ReportValid(body, isUrl) ==> r.error.ValidationError? && unchanged(store)
    ensures ReportValid(body, isUrl) ==>
              var data := IssueData(Open, userId, body.title, body.description,
                                                body.uploadUrls.GetOr([]), body.category,
                                                Location(body.latitude, body.longitude, body.address));
              var issue := IssueService.NewIssue(old(store.nextIssueId), data, now);
              && store.issues == old(store.issues)[issue.id := issue]
              && store.order == old(store.order) + [issue.id]
              && store.comments == old(store.comments)
              && r.value == ReportedIssue(issue.id, body.title, body.description, body.category, Open,
                                          data.location, data.uploadUrls, now)
  {
    var validated := ValidateReport(body, isUrl);
    if validated.Err? {
      return Err(validated.error);
    }
    var v := validated.value;
    var data := IssueData(Open, userId, v.title, v.description, v.uploadUrls.value, v.category,
                          Location(v.latitude, v.longitude, v.address));
    var issue := store.CreateIssue(data, now);
    r := Ok(ReportedIssue(issue.id, issue.title, issue.description, issue.category, issue.status,
                          issue.location, issue.uploadUrls, issue.createdAt));
  }

  // ---------------------------------------------------------------------
  // Uploading images.

  const MaxUploadBytes := 10 * 1024 * 1024
  const UploadsPrefix := "/uploads/"
  const NoImages := "No images uploaded"
  const TooLarge := "Total file size exceeds 10MB limit"

  /** An uploaded file: its client-side name and its size in bytes. */
  datatype UploadedFile = UploadedFile(originalName: string, size: nat)

  datatype UploadResult = UploadResult(uploadUrls: seq<string>, count: nat)

  /** `files.reduce((sum, file) => sum + file.size, 0)`. */
  function TotalSize(files: seq<UploadedFile>): nat {
    if files == [] then 0 else files[0].size + TotalSize(files[1..])
  }

  /** `uploadIssueImages`: an empty upload and an upload over 10 MB in
      total are rejected; otherwise each file gets one URL under
      `/uploads/`, in file order. The stored file name (clock reading,
      random text and extension) is the parameter `fileName`, given the
      file and its position. */
  method UploadIssueImages(files: seq<UploadedFile>, fileName: (nat, UploadedFile) -> string)
    returns (r: Result<UploadResult>)
    ensures files == [] ==> r == Err(ValidationError(NoImages))
    ensures files != [] && TotalSize(files) > MaxUploadBytes ==> r == Err(ValidationError(TooLarge))
    ensures r.Ok? <==> files != [] && TotalSize(files) <= MaxUploadBytes
    ensures r.Ok? ==>
              && r.value.count == |files| == |r.value.uploadUrls|
              && forall k :: 0 <= k < |files| ==> r.value.uploadUrls[k] == UploadsPrefix + fileName(k, files[k])
  {
    if files == [] {
      return Err(ValidationError(NoImages));
    }
    var totalSize := TotalSize(files);
    if totalSize > MaxUploadBytes {
      return Err(ValidationError(TooLarge));
    }
    var uploadUrls: seq<string> := [];
    for i := 0 to |files|
      invariant |uploadUrls| == i
      invariant forall k :: 0 <= k < i ==> uploadUrls[k] == UploadsPrefix + fileName(k, files[k])
    {
      var filename := fileName(i, files[i]);
      uploadUrls := uploadUrls + [UploadsPrefix + filename];
    }
    r := Ok(UploadResult(uploadUrls, |uploadUrls|));
  }
}
