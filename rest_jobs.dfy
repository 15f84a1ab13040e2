/** `ZAOBank_Mobile_REST_Jobs`: the paging and radius clamps, the status
    filter, the moderation filters of the plain listing and the order in which
    the job endpoints report their errors. `WP_Query` is modelled as a filter
    over the posts in query order followed by a page slice; the distance
    search itself belongs to the core plugin, so a located request answers
    with the arguments it hands over. */
module RestJobs {

  import opened Common
  import Geocoder
  import LocationPrivacy

  const CoreDependencyMissing := ErrorWithStatus("core_dependency_missing", 503)
  const JobNotFound := ErrorWithStatus("job_not_found", 404)
  const JobNotAvailable := ErrorWithStatus("job_not_available", 403)
  const NoLocation := ErrorWithStatus("no_location", 400)

  const DefaultPerPage := 20
  const MaxPerPage := 100
  const DefaultRadius: real := 25.0
  const DefaultMaxRadius: real := 100.0
  const DefaultUnit := "miles"

  const JobPostType := "timebank_job"
  const ProviderKey := "provider_user_id"
  const CompletedKey := "completed_at"

  // ---------------------------------------------------------------------------
  // Clamps

  /** PHP `(int)` of an integer parameter: a missing one is 0. */
  function IntParam(p: Option<int>): int
  {
    if p.Some? then p.value else 0
  }

  /** `max(1, (int) page ?: 1)`. */
  function Page(p: Option<int>): (n: int)
    ensures n >= 1
    ensures IntParam(p) >= 1 ==> n == IntParam(p)
    ensures IntParam(p) < 1 ==> n == 1
  {
    var v := if IntParam(p) == 0 then 1 else IntParam(p);
    if v < 1 then 1 else v
  }

  /** `min(100, max(1, (int) per_page ?: 20))`. */
  function PerPage(p: Option<int>): (n: int)
    ensures 1 <= n <= MaxPerPage
    ensures IntParam(p) == 0 ==> n == DefaultPerPage
    ensures 1 <= IntParam(p) <= MaxPerPage ==> n == IntParam(p)
    ensures IntParam(p) > MaxPerPage ==> n == MaxPerPage
    ensures IntParam(p) < 0 ==> n == 1
  {
    var v := if IntParam(p) == 0 then DefaultPerPage else IntParam(p);
    var atLeastOne := if v < 1 then 1 else v;
    if atLeastOne > MaxPerPage then MaxPerPage else atLeastOne
  }

  /** A number option read with a default (`None` when the option is absent). */
  function NumberOr(v: Option<real>, default: real): real
  {
    if v.Some? then v.value else default
  }

  /** The search radius: a missing or zero `radius` takes the `default_radius`
      option (25), and the result is capped at the `max_radius` option (100). */
  function Radius(radius: Option<real>, defaultOpt: Option<real>, maxOpt: Option<real>): (r: real)
    ensures r <= NumberOr(maxOpt, DefaultMaxRadius)
    ensures radius.Some? && radius.value != 0.0 && radius.value <= NumberOr(maxOpt, DefaultMaxRadius) ==>
      r == radius.value
    ensures (radius.None? || radius.value == 0.0) && NumberOr(defaultOpt, DefaultRadius) <= NumberOr(maxOpt, DefaultMaxRadius) ==>
      r == NumberOr(defaultOpt, DefaultRadius)
    ensures radius.Some? && radius.value != 0.0 ==>
      r <= radius.value && (r == radius.value || r == NumberOr(maxOpt, DefaultMaxRadius))
    ensures radius.None? || radius.value == 0.0 ==>
      r <= NumberOr(defaultOpt, DefaultRadius) && (r == NumberOr(defaultOpt, DefaultRadius) || r == NumberOr(maxOpt, DefaultMaxRadius))
    ensures radius.Some? && radius.value != 0.0 && radius.value > NumberOr(maxOpt, DefaultMaxRadius) ==>
      r == NumberOr(maxOpt, DefaultMaxRadius)
  {
    var wanted := if radius.None? || radius.value == 0.0 then NumberOr(defaultOpt, DefaultRadius) else radius.value;
    var cap := NumberOr(maxOpt, DefaultMaxRadius);
    if cap < wanted then cap else wanted
  }

  /** `unit ?: get_option('zaobank_mobile_distance_unit', 'miles')`. */
  function Unit(unit: Option<string>, unitOpt: Option<string>): (u: string)
    ensures unit.Some? && !EmptyStr(unit.value) ==> u == unit.value
    ensures (unit.None? || EmptyStr(unit.value)) && unitOpt.Some? ==> u == unitOpt.value
    ensures (unit.None? || EmptyStr(unit.value)) && unitOpt.None? ==> u == DefaultUnit
  {
    if unit.Some? && !EmptyStr(unit.value) then unit.value
    else if unitOpt.Some? then unitOpt.value else DefaultUnit
  }

  // ---------------------------------------------------------------------------
  // The status filter

  datatype Compare = Exists | NotExists

  /** One clause of a `meta_query`. */
  datatype MetaClause = MetaClause(key: string, compare: Compare)

  /** `get_status_meta_query`. */
  function StatusMetaQuery(status: string): seq<MetaClause>
  {
    match status
    case "available" => [MetaClause(ProviderKey, NotExists)]
    case "claimed" => [MetaClause(ProviderKey, Exists), MetaClause(CompletedKey, NotExists)]
    case "completed" => [MetaClause(CompletedKey, Exists)]
    case _ => []
  }

  predicate ClauseHolds(c: MetaClause, metaKeys: set<string>)
  {
    match c.compare
    case Exists => c.key in metaKeys
    case NotExists => c.key !in metaKeys
  }

  /** A post whose stored meta keys are `metaKeys` satisfies every clause. */
  predicate MetaMatches(q: seq<MetaClause>, metaKeys: set<string>)
  {
    forall i :: 0 <= i < |q| ==> ClauseHolds(q[i], metaKeys)
  }

  /** What each status filter selects: `available` has no provider, `claimed`
      has a provider and no completion, `completed` has a completion, and any
      other value selects everything. */
  lemma StatusFilterMeaning(status: string, metaKeys: set<string>)
    ensures status == "available" ==> (MetaMatches(StatusMetaQuery(status), metaKeys) <==> ProviderKey !in metaKeys)
    ensures status == "claimed" ==>
      (MetaMatches(StatusMetaQuery(status), metaKeys) <==> ProviderKey in metaKeys && CompletedKey !in metaKeys)
    ensures status == "completed" ==> (MetaMatches(StatusMetaQuery(status), metaKeys) <==> CompletedKey in metaKeys)
    ensures status !in {"available", "claimed", "completed"} ==> MetaMatches(StatusMetaQuery(status), metaKeys)
  {
    if status == "available" {
      assert StatusMetaQuery(status) == [MetaClause(ProviderKey, NotExists)];
      assert StatusMetaQuery(status)[0] == MetaClause(ProviderKey, NotExists);
    } else if status == "claimed" {
      assert StatusMetaQuery(status)[0] == MetaClause(ProviderKey, Exists);
      assert StatusMetaQuery(status)[1] == MetaClause(CompletedKey, NotExists);
    } else if status == "completed" {
      assert StatusMetaQuery(status) == [MetaClause(CompletedKey, Exists)];
      assert StatusMetaQuery(status)[0] == MetaClause(CompletedKey, Exists);
    }
  }

  /** For a job that is only ever completed after it was claimed, exactly one
      of the three status filters selects it. */
  lemma StatusesPartition(metaKeys: set<string>)
    requires CompletedKey in metaKeys ==> ProviderKey in metaKeys
    ensures var a := MetaMatches(StatusMetaQuery("available"), metaKeys);
            var c := MetaMatches(StatusMetaQuery("claimed"), metaKeys);
            var d := MetaMatches(StatusMetaQuery("completed"), metaKeys);
            (a && !c && !d) || (!a && c && !d) || (!a && !c && d)
  {
    StatusFilterMeaning("available", metaKeys);
    StatusFilterMeaning("claimed", metaKeys);
    StatusFilterMeaning("completed", metaKeys);
  }

  // ---------------------------------------------------------------------------
  // The query

  /** A post as the listing sees it. */
  datatype Post = Post(id: int, postType: string, status: string, metaKeys: set<string>, regions: set<int>)

  /** The `WP_Query` arguments the endpoints build; an empty `metaQuery` and an
      empty `notIn` stand for the absent keys. */
  datatype QueryArgs = QueryArgs(perPage: int, page: int, metaQuery: seq<MetaClause>, region: Option<int>, notIn: set<int>)

  datatype JobsRequest = JobsRequest(
    lat: Option<real>,
    lng: Option<real>,
    radius: Option<real>,
    unit: Option<string>,
    page: Option<int>,
    perPage: Option<int>,
    status: Option<string>,
    region: Option<int>)

  /** A moderation flag row. */
  datatype Flag = Flag(itemType: string, itemId: int, status: string)

  /** The site as the job endpoints see it: whether the core security and
      database classes exist, the core's visibility check, the flags, the
      options they read, the posts in query order and the location table. */
  datatype Site = Site(
    securityAvailable: bool,
    visible: int -> bool,
    databaseAvailable: bool,
    flags: seq<Flag>,
    autoHideFlagged: Option<OptValue>,
    defaultRadius: Option<real>,
    maxRadius: Option<real>,
    distanceUnit: Option<string>,
    posts: seq<Post>,
    locations: seq<Geocoder.LocationRow>)

  /** `get_hidden_job_ids`: the jobs with an open flag, unless auto-hiding is
      switched off (it is on while the option is absent) or the core database
      class is missing. */
  function HiddenJobIds(autoHide: Option<OptValue>, databaseAvailable: bool, flags: seq<Flag>): (ids: set<int>)
    ensures !(autoHide.None? || OptTruthy(autoHide)) || !databaseAvailable ==> ids == {}
    ensures (autoHide.None? || OptTruthy(autoHide)) && databaseAvailable ==>
      forall f :: f in flags && f.itemType == "job" && f.status == "open" ==> f.itemId in ids
    ensures forall x :: x in ids ==> exists f :: f in flags && f.itemType == "job" && f.status == "open" && f.itemId == x
  {
    if !(autoHide.None? || OptTruthy(autoHide)) || !databaseAvailable then {}
    else set f | f in flags && f.itemType == "job" && f.status == "open" :: f.itemId
  }

  /** The status, region and exclusion arguments both listings share. */
  function FilterArgs(req: JobsRequest, notIn: set<int>): (a: QueryArgs)
    ensures 1 <= a.perPage <= MaxPerPage && a.page >= 1
    ensures a.notIn == notIn
    ensures req.status.None? || EmptyStr(req.status.value) ==> a.metaQuery == []
    ensures req.status.Some? && !EmptyStr(req.status.value) ==> a.metaQuery == StatusMetaQuery(req.status.value)
    ensures a.region.Some? <==> IntParam(req.region) != 0
    ensures a.region.Some? ==> a.region.value == IntParam(req.region)
  {
    QueryArgs(PerPage(req.perPage), Page(req.page),
              if req.status.Some? && !EmptyStr(req.status.value) then StatusMetaQuery(req.status.value) else [],
              if IntParam(req.region) != 0 then Some(IntParam(req.region)) else None,
              notIn)
  }

  /** The listing query's selection: published jobs meeting the filters. */
  predicate Matches(args: QueryArgs, p: Post)
  {
    && p.postType == JobPostType
    && p.status == "publish"
    && MetaMatches(args.metaQuery, p.metaKeys)
    && (args.region.Some? ==> args.region.value in p.regions)
    && p.id !in args.notIn
  }

  /** The posts of `s` satisfying `f`, in order. */
  function Filter(s: seq<Post>, f: Post -> bool): (r: seq<Post>)
    ensures |r| <= |s|
    ensures forall x :: x in r <==> x in s && f(x)
    decreases |s|
  {
    if |s| == 0 then []
    else Filter(s[..|s| - 1], f) + (if f(s[|s| - 1]) then [s[|s| - 1]] else [])
  }

  function MatchesArgs(args: QueryArgs): Post -> bool
  {
    (p: Post) => Matches(args, p)
  }

  function IsVisible(visible: int -> bool): Post -> bool
  {
    (p: Post) => visible(p.id)
  }

  /** Page `page` of `found` with `perPage` posts per page. */
  function PageOf<T>(found: seq<T>, page: int, perPage: int): (r: seq<T>)
    requires page >= 1 && perPage >= 1
    ensures |r| <= perPage
    ensures forall x :: x in r ==> x in found
    ensures page == 1 ==> r == found[..if perPage <= |found| then perPage else |found|]
  {
    var start := (page - 1) * perPage;
    if start >= |found| then []
    else found[start..if start + perPage <= |found| then start + perPage else |found|]
  }

  /** `max_num_pages`: the fewest pages of `perPage` that hold `found` posts. */
  function Pages(found: nat, perPage: int): (n: nat)
    requires perPage >= 1
    ensures n * perPage >= found
    ensures found > 0 ==> (n - 1) * perPage < found
    ensures found == 0 ==> n == 0
  {
    if found == 0 then 0 else 1 + Pages(if found <= perPage then 0 else found - perPage, perPage)
  }

  /** Every found post is on exactly the page its position names, and that
      page is within the reported page count. */
  lemma {:induction false} PagesCoverFound<T>(found: seq<T>, perPage: int, k: nat)
    requires perPage >= 1 && k < |found|
    ensures 1 <= k / perPage + 1 <= Pages(|found|, perPage)
    ensures found[k] in PageOf(found, k / perPage + 1, perPage)
  {
    var q := k / perPage;
    var start := q * perPage;
    var n := Pages(|found|, perPage);
    DivisionBounds(k, perPage);
    assert start < n * perPage;
    MultiplyCancel(q, n, perPage);
    var end := if start + perPage <= |found| then start + perPage else |found|;
    assert (q + 1 - 1) * perPage == start;
    assert PageOf(found, q + 1, perPage) == found[start..end];
    assert found[start..end][k - start] == found[k];
  }

  lemma DivisionBounds(k: nat, d: int)
    requires d >= 1
    ensures 0 <= (k / d) * d <= k < (k / d) * d + d
  {
  }

  lemma MultiplyCancel(a: nat, b: nat, c: int)
    requires c >= 1 && a * c < b * c
    ensures a < b
  {
  }

  // ---------------------------------------------------------------------------
  // Responses

  /** The `search` echo of a located request. */
  datatype Search = Search(lat: real, lng: real, radius: real, unit: string)

  /** A located request hands `args` and `search` to the core's distance
      search; a plain one answers with the visible jobs of the page and the
      query's totals. */
  datatype JobsReply =
    | WithinRadius(args: QueryArgs, search: Search)
    | Listing(jobs: seq<Post>, total: nat, pages: nat)

  /** The arguments of the plain listing: the shared filters and the hidden jobs. */
  function ListingArgs(req: JobsRequest, site: Site): QueryArgs
  {
    FilterArgs(req, HiddenJobIds(site.autoHideFlagged, site.databaseAvailable, site.flags))
  }

  /** The answer of `get_jobs_without_distance`. */
  function ListingOf(req: JobsRequest, site: Site): (r: JobsReply)
    ensures r.Listing?
  {
    var args := ListingArgs(req, site);
    var found := Filter(site.posts, MatchesArgs(args));
    Listing(Filter(PageOf(found, args.page, args.perPage), IsVisible(site.visible)),
            |found|, Pages(|found|, args.perPage))
  }

  /** Every listed job is a published job of the query that passes the
      visibility check; every visible match on the page is listed; and a page
      never holds more than 100 jobs or more than the query found. */
  lemma {:induction false} ListingQualifies(req: JobsRequest, site: Site)
    ensures var r := ListingOf(req, site);
      && |r.jobs| <= PerPage(req.perPage) <= MaxPerPage
      && |r.jobs| <= r.total
      && (forall p :: p in r.jobs ==> p in site.posts && site.visible(p.id) && Matches(ListingArgs(req, site), p))
      && var args := ListingArgs(req, site);
         var page := PageOf(Filter(site.posts, MatchesArgs(args)), args.page, args.perPage);
         forall p :: p in page && site.visible(p.id) ==> p in r.jobs
  {
    var args := ListingArgs(req, site);
    var found := Filter(site.posts, MatchesArgs(args));
    var page := PageOf(found, args.page, args.perPage);
    var jobs := Filter(page, IsVisible(site.visible));
    assert |jobs| <= |page| <= |found|;
    forall p | p in jobs
      ensures p in site.posts && site.visible(p.id) && Matches(args, p)
    {
      assert p in page && IsVisible(site.visible)(p);
      assert p in found;
      assert MatchesArgs(args)(p);
    }
    forall p | p in page && site.visible(p.id)
      ensures p in jobs
    {
      assert IsVisible(site.visible)(p);
    }
  }

  /** While auto-hiding is on and the core database is present, no job with an
      open flag is listed. */
  lemma {:induction false} FlaggedJobsHidden(req: JobsRequest, site: Site, f: Flag)
    requires site.autoHideFlagged.None? || OptTruthy(site.autoHideFlagged)
    requires site.databaseAvailable
    requires f in site.flags && f.itemType == "job" && f.status == "open"
    ensures forall p :: p in ListingOf(req, site).jobs ==> p.id != f.itemId
  {
    ListingQualifies(req, site);
    assert f.itemId in ListingArgs(req, site).notIn;
  }

  /** `get_jobs_without_distance`: the visible posts of the query's page are
      collected one by one. */
  method ListJobs(req: JobsRequest, site: Site) returns (reply: JobsReply)
    ensures reply == ListingOf(req, site)
  {
    var args := ListingArgs(req, site);
    var found := Filter(site.posts, MatchesArgs(args));
    var page := PageOf(found, args.page, args.perPage);
    var jobs: seq<Post> := [];
    var i := 0;
    while i < |page|
      invariant 0 <= i <= |page|
      invariant jobs == Filter(page[..i], IsVisible(site.visible))
    {
      assert page[..i + 1][..i] == page[..i];
      if site.visible(page[i].id) {
        jobs := jobs + [page[i]];
      }
      i := i + 1;
    }
    assert page[..i] == page;
    reply := Listing(jobs, |found|, Pages(|found|, args.perPage));
  }

  /** `get_jobs`: a missing core security module is reported before anything
      else; with both coordinates the request becomes a radius search without
      the moderation filters, otherwise the plain listing answers. */
  method GetJobs(req: JobsRequest, site: Site) returns (r: Result<JobsReply>)
    ensures !site.securityAvailable ==> r == Err(CoreDependencyMissing)
    ensures site.securityAvailable && req.lat.Some? && req.lng.Some? ==>
      r == Ok(WithinRadius(FilterArgs(req, {}),
                           Search(req.lat.value, req.lng.value,
                                  Radius(req.radius, site.defaultRadius, site.maxRadius),
                                  Unit(req.unit, site.distanceUnit))))
    ensures site.securityAvailable && (req.lat.None? || req.lng.None?) ==> r == Ok(ListingOf(req, site))
  {
    if !site.securityAvailable {
      return Err(CoreDependencyMissing);
    }
    var unit := Unit(req.unit, site.distanceUnit);
    if req.lat.Some? && req.lng.Some? {
      var radius := Radius(req.radius, site.defaultRadius, site.maxRadius);
      r := Ok(WithinRadius(FilterArgs(req, {}), Search(req.lat.value, req.lng.value, radius, unit)));
    } else {
      var reply := ListJobs(req, site);
      r := Ok(reply);
    }
  }

  /** The arguments `get_job` hands to the distance calculator. */
  datatype DistanceQuery = DistanceQuery(fromLat: real, fromLng: real, toLat: real, toLng: real, unit: string)

  datatype JobReply = JobReply(job: Post, distance: Option<DistanceQuery>)

  function IdIs(id: int): Post -> bool
  {
    (p: Post) => p.id == id
  }

  /** `get_post($id)`. */
  function PostById(posts: seq<Post>, id: int): (p: Option<Post>)
    ensures p.Some? <==> exists i :: 0 <= i < |posts| && posts[i].id == id
    ensures p.Some? ==> p.value in posts && p.value.id == id
  {
    match FirstIndex(posts, IdIs(id))
    case Some(k) => Some(posts[k])
    case None => None
  }

  /** `get_job`: not a job (404), then the missing security module (503), then
      a hidden job (403); a located request on a geocoded job adds a distance. */
  function GetJob(id: int, lat: Option<real>, lng: Option<real>, site: Site): (r: Result<JobReply>)
    ensures PostById(site.posts, id).None? || PostById(site.posts, id).value.postType != JobPostType ==>
      r == Err(JobNotFound)
    ensures PostById(site.posts, id).Some? && PostById(site.posts, id).value.postType == JobPostType ==>
      && (!site.securityAvailable ==> r == Err(CoreDependencyMissing))
      && (site.securityAvailable && !site.visible(id) ==> r == Err(JobNotAvailable))
    ensures r.Ok? ==>
      && r.value.job.id == id && r.value.job.postType == JobPostType && r.value.job in site.posts
      && site.securityAvailable && site.visible(id)
    ensures r.Ok? ==> (r.value.distance.Some? <==>
                         lat.Some? && lng.Some? && Geocoder.Lookup(site.locations, Geocoder.JobKey(id)).Some?)
    ensures r.Ok? && r.value.distance.Some? ==>
      var loc := Geocoder.Lookup(site.locations, Geocoder.JobKey(id)).value;
      r.value.distance.value == DistanceQuery(lat.value, lng.value, loc.latitude, loc.longitude,
                                              Unit(None, site.distanceUnit))
  {
    match PostById(site.posts, id)
    case None => Err(JobNotFound)
    case Some(post) =>
      if post.postType != JobPostType then Err(JobNotFound)
      else if !site.securityAvailable then Err(CoreDependencyMissing)
      else if !site.visible(id) then Err(JobNotAvailable)
      else
        var distance :=
          if lat.Some? && lng.Some? then
            match Geocoder.Lookup(site.locations, Geocoder.JobKey(id))
            case Some(loc) =>
              Some(DistanceQuery(lat.value, lng.value, loc.latitude, loc.longitude, Unit(None, site.distanceUnit)))
            case None => None
          else None;
        Ok(JobReply(post, distance))
  }

  /** `get_nearby_jobs`: without a shared location the answer is `no_location`
      (checked before the security module); otherwise `get_jobs` runs with the
      user's stored coordinates. The route gives `unit` the default `miles`,
      so an omitted unit never reaches the site option here. */
  method GetNearbyJobs(userId: int, meta: map<int, LocationPrivacy.UserMeta>, req: JobsRequest, site: Site)
    returns (r: Result<JobsReply>)
    ensures LocationPrivacy.UserLocationOf(LocationPrivacy.MetaOf(meta, userId)).None? ==> r == Err(NoLocation)
    ensures LocationPrivacy.UserLocationOf(LocationPrivacy.MetaOf(meta, userId)).Some? && !site.securityAvailable ==>
      r == Err(CoreDependencyMissing)
    ensures LocationPrivacy.UserLocationOf(LocationPrivacy.MetaOf(meta, userId)).Some? && site.securityAvailable ==>
      var loc := LocationPrivacy.UserLocationOf(LocationPrivacy.MetaOf(meta, userId)).value;
      && r.Ok? && r.value.WithinRadius?
      && r.value.search.lat == loc.latitude && r.value.search.lng == loc.longitude
      && r.value.search.radius == Radius(req.radius, site.defaultRadius, site.maxRadius)
      && r.value.search.unit == (if req.unit.None? then DefaultUnit else Unit(req.unit, site.distanceUnit))
  {
    var location := LocationPrivacy.UserLocationOf(LocationPrivacy.MetaOf(meta, userId));
    if location.None? {
      return Err(NoLocation);
    }
    var unit := if req.unit.None? then Some(DefaultUnit) else req.unit;
    r := GetJobs(req.(lat := Some(location.value.latitude), lng := Some(location.value.longitude), unit := unit), site);
  }
}
