/** `ZAOBank_Geocoder`: the `zaobank_locations` table (one row per object,
    upserted by `(object_type, object_id)`), the API-key fallback, the mapping
    of Google location types to accuracies, the decisions of `geocode_address`
    and `geocode_job`, and the counters of `batch_geocode_jobs`. The HTTP
    request is a function from `(address, key)` to the decoded reply. */
module Geocoder {

  import opened Common

  /** `(object_type, object_id)`, the table's logical key. */
  datatype ObjectKey = ObjectKey(objectType: string, objectId: int)

  function JobKey(jobId: int): ObjectKey
  {
    ObjectKey("job", jobId)
  }

  datatype LocationRow = LocationRow(
    id: nat,
    key: ObjectKey,
    latitude: real,
    longitude: real,
    accuracy: string,
    address: Option<string>,
    geocodedAt: int,
    geocodeSource: Option<string>)

  /** The `$data` array `save_location` receives; absent keys are `None`. */
  datatype LocationData = LocationData(
    latitude: real,
    longitude: real,
    accuracy: Option<string>,
    address: Option<string>,
    geocodeSource: Option<string>)

  /** The row `save_location` writes: accuracy defaults to `exact`, address and
      source to null, and `geocoded_at` is the current time. */
  function RowFor(id: nat, key: ObjectKey, data: LocationData, now: int): (r: LocationRow)
    ensures r.id == id && r.key == key && r.geocodedAt == now
    ensures r.latitude == data.latitude && r.longitude == data.longitude
    ensures r.accuracy == if data.accuracy.Some? then data.accuracy.value else "exact"
    ensures r.address == data.address && r.geocodeSource == data.geocodeSource
  {
    LocationRow(id, key, data.latitude, data.longitude,
                if data.accuracy.Some? then data.accuracy.value else "exact",
                data.address, now, data.geocodeSource)
  }

  function KeyIs(key: ObjectKey): LocationRow -> bool
  {
    (r: LocationRow) => r.key == key
  }

  /** The row `SELECT ... WHERE object_type = %s AND object_id = %d` finds first. */
  function Lookup(rows: seq<LocationRow>, key: ObjectKey): (r: Option<LocationRow>)
    ensures r.Some? <==> exists i :: 0 <= i < |rows| && rows[i].key == key
    ensures r.Some? ==> r.value in rows && r.value.key == key
  {
    match FirstIndex(rows, KeyIs(key))
    case Some(k) => Some(rows[k])
    case None => None
  }

  /** `save_location`: rewrite the row of the key in place (keeping its id), or
      append a new row with the next id. */
  function Upsert(rows: seq<LocationRow>, nextId: nat, key: ObjectKey, data: LocationData, now: int): seq<LocationRow>
  {
    match FirstIndex(rows, KeyIs(key))
    case Some(k) => rows[k := RowFor(rows[k].id, key, data, now)]
    case None => rows + [RowFor(nextId, key, data, now)]
  }

  /** `delete_location`: every row of the key goes, the others stay in order. */
  function Without(rows: seq<LocationRow>, key: ObjectKey): (r: seq<LocationRow>)
    ensures |r| <= |rows|
    ensures forall x :: x in r <==> x in rows && x.key != key
    decreases |rows|
  {
    if |rows| == 0 then []
    else if rows[0].key == key then Without(rows[1..], key)
    else [rows[0]] + Without(rows[1..], key)
  }

  /** At most one row per key. */
  predicate UniqueKeys(rows: seq<LocationRow>)
  {
    forall i, j :: 0 <= i < j < |rows| ==> rows[i].key != rows[j].key
  }

  /** After an upsert the key reads back the saved data, every other key reads
      back what it did before, the table grows only for a new key, and keys
      stay unique. */
  lemma {:induction false} UpsertThenLookup(rows: seq<LocationRow>, nextId: nat, key: ObjectKey, data: LocationData,
                                            now: int, other: ObjectKey)
    ensures var after := Upsert(rows, nextId, key, data, now);
      && Lookup(after, key).Some?
      && Lookup(after, key).value == RowFor(Lookup(after, key).value.id, key, data, now)
      && (Lookup(rows, key).Some? ==> Lookup(after, key).value.id == Lookup(rows, key).value.id)
      && (Lookup(rows, key).None? ==> Lookup(after, key).value.id == nextId)
      && (other != key ==> Lookup(after, other) == Lookup(rows, other))
      && |after| == |rows| + (if Lookup(rows, key).Some? then 0 else 1)
      && (UniqueKeys(rows) ==> UniqueKeys(after))
  {
    match FirstIndex(rows, KeyIs(key))
    case Some(k) => UpsertReplaces(rows, nextId, key, data, now, other, k);
    case None => UpsertAppends(rows, nextId, key, data, now, other);
  }

  lemma {:induction false} UpsertReplaces(rows: seq<LocationRow>, nextId: nat, key: ObjectKey, data: LocationData,
                                          now: int, other: ObjectKey, k: nat)
    requires FirstIndex(rows, KeyIs(key)) == Some(k)
    ensures var after := Upsert(rows, nextId, key, data, now);
      && Lookup(after, key).Some?
      && Lookup(after, key).value == RowFor(Lookup(after, key).value.id, key, data, now)
      && (Lookup(rows, key).Some? ==> Lookup(after, key).value.id == Lookup(rows, key).value.id)
      && (Lookup(rows, key).None? ==> Lookup(after, key).value.id == nextId)
      && (other != key ==> Lookup(after, other) == Lookup(rows, other))
      && |after| == |rows| + (if Lookup(rows, key).Some? then 0 else 1)
      && (UniqueKeys(rows) ==> UniqueKeys(after))
  {
    var after := Upsert(rows, nextId, key, data, now);
    assert after[k].key == key;
    assert forall j :: 0 <= j < |rows| ==> after[j].key == rows[j].key;
    assert FirstIndex(after, KeyIs(key)) == Some(k);
    if other != key {
      assert forall j :: 0 <= j < |rows| && j != k ==> after[j] == rows[j];
      assert !KeyIs(other)(after[k]) && !KeyIs(other)(rows[k]);
      FirstIndexSameOutside(rows, after, k, KeyIs(other));
    }
  }

  lemma {:induction false} UpsertAppends(rows: seq<LocationRow>, nextId: nat, key: ObjectKey, data: LocationData,
                                         now: int, other: ObjectKey)
    requires FirstIndex(rows, KeyIs(key)).None?
    ensures var after := Upsert(rows, nextId, key, data, now);
      && Lookup(after, key).Some?
      && Lookup(after, key).value == RowFor(Lookup(after, key).value.id, key, data, now)
      && (Lookup(rows, key).Some? ==> Lookup(after, key).value.id == Lookup(rows, key).value.id)
      && (Lookup(rows, key).None? ==> Lookup(after, key).value.id == nextId)
      && (other != key ==> Lookup(after, other) == Lookup(rows, other))
      && |after| == |rows| + (if Lookup(rows, key).Some? then 0 else 1)
      && (UniqueKeys(rows) ==> UniqueKeys(after))
  {
    var after := Upsert(rows, nextId, key, data, now);
    FirstIndexAppend(rows, RowFor(nextId, key, data, now), KeyIs(key));
    if other != key {
      FirstIndexAppend(rows, RowFor(nextId, key, data, now), KeyIs(other));
      match FirstIndex(rows, KeyIs(other))
      case Some(m) => assert after[m] == rows[m];
      case None =>
    }
  }

  /** Two tables that differ at one index where neither satisfies `p` have the same first match. */
  lemma {:induction false} FirstIndexSameOutside<T>(a: seq<T>, b: seq<T>, k: nat, p: T -> bool)
    requires |a| == |b| && k < |a|
    requires forall j :: 0 <= j < |a| && j != k ==> a[j] == b[j]
    requires !p(a[k]) && !p(b[k])
    ensures FirstIndex(a, p) == FirstIndex(b, p)
  {
    var fa := FirstIndex(a, p);
    var fb := FirstIndex(b, p);
    if fa.Some? {
      assert p(b[fa.value]);
      assert fb.Some? && fb.value <= fa.value;
      assert p(a[fb.value]);
    }
  }

  /** After a delete the key reads back nothing; every other key reads back
      what it did before. */
  lemma {:induction false} DeleteThenLookup(rows: seq<LocationRow>, key: ObjectKey, other: ObjectKey)
    ensures Lookup(Without(rows, key), key).None?
    ensures other != key ==> Lookup(Without(rows, key), other) == Lookup(rows, other)
    decreases |rows|
  {
    if |rows| > 0 {
      DeleteThenLookup(rows[1..], key, other);
      var rest := Without(rows[1..], key);
      if other != key {
        if rows[0].key == key {
          assert Lookup(rows, other) == Lookup(rows[1..], other) by {
            assert FirstIndex(rows, KeyIs(other)) == (match FirstIndex(rows[1..], KeyIs(other))
              case None => None case Some(i) => Some(i + 1));
          }
        } else {
          var after := [rows[0]] + rest;
          assert after[1..] == rest;
          if rows[0].key == other {
            assert FirstIndex(after, KeyIs(other)) == Some(0);
          } else {
            assert FirstIndex(after, KeyIs(other)) == (match FirstIndex(rest, KeyIs(other))
              case None => None case Some(i) => Some(i + 1));
            assert FirstIndex(rows, KeyIs(other)) == (match FirstIndex(rows[1..], KeyIs(other))
              case None => None case Some(i) => Some(i + 1));
          }
        }
      }
    }
  }

  // ---------------------------------------------------------------------------
  // get_api_key, determine_accuracy, geocode_address

  /** `get_api_key`: the Formidable Geo key, else the plugin's own key, else null;
      a key PHP reads as empty does not count. */
  function GetApiKey(formidableKey: Option<string>, ownKey: Option<string>): (k: Option<string>)
    ensures k.Some? ==> !EmptyStr(k.value)
    ensures formidableKey.Some? && !EmptyStr(formidableKey.value) ==> k == formidableKey
    ensures !(formidableKey.Some? && !EmptyStr(formidableKey.value)) ==>
      k == (if ownKey.Some? && !EmptyStr(ownKey.value) then ownKey else None)
  {
    if formidableKey.Some? && !EmptyStr(formidableKey.value) then formidableKey
    else if ownKey.Some? && !EmptyStr(ownKey.value) then ownKey
    else None
  }

  /** The accuracies the geocoder records. */
  predicate KnownAccuracy(a: string)
  {
    a == "exact" || a == "address" || a == "city" || a == "unknown"
  }

  /** `determine_accuracy` on `geometry.location_type` (`None` when unset). */
  function DetermineAccuracy(locationType: Option<string>): (a: string)
    ensures KnownAccuracy(a)
    ensures a == "exact" <==> locationType == Some("ROOFTOP")
    ensures a == "address" <==> locationType == Some("RANGE_INTERPOLATED") || locationType == Some("GEOMETRIC_CENTER")
    ensures a == "city" <==> locationType == Some("APPROXIMATE")
  {
    match locationType
    case None => "unknown"
    case Some(t) =>
      if t == "ROOFTOP" then "exact"
      else if t == "RANGE_INTERPOLATED" || t == "GEOMETRIC_CENTER" then "address"
      else if t == "APPROXIMATE" then "city"
      else "unknown"
  }

  /** One entry of the reply's `results`. */
  datatype Place = Place(latitude: real, longitude: real, formattedAddress: string, locationType: Option<string>)

  /** What the HTTP call yields: a transport error, a body that does not decode
      to a truthy value, or the decoded `status` and `results`. */
  datatype Reply = TransportFailure(error: WpError) | Undecodable | Decoded(status: Option<string>, results: seq<Place>)

  datatype Geocoded = Geocoded(latitude: real, longitude: real, formattedAddress: string, accuracy: string)

  const NoApiKey := WpError("no_api_key", None)
  const GeocodeFailed := WpError("geocode_failed", None)
  const NoResults := WpError("no_results", None)

  /** `geocode_address`: no key, then the transport, then the API status, then an
      empty result list; otherwise the first result. */
  function GeocodeAddress(address: string, apiKey: Option<string>, fetch: (string, string) -> Reply): (r: Result<Geocoded>)
    ensures apiKey.None? || EmptyStr(apiKey.value) ==> r == Err(NoApiKey)
    ensures apiKey.Some? && !EmptyStr(apiKey.value) ==>
      var reply := fetch(address, apiKey.value);
      && (reply.TransportFailure? ==> r == Err(reply.error))
      && (reply.Undecodable? || (reply.Decoded? && reply.status != Some("OK")) ==> r == Err(GeocodeFailed))
      && (reply.Decoded? && reply.status == Some("OK") && |reply.results| == 0 ==> r == Err(NoResults))
      && (r.Ok? <==> reply.Decoded? && reply.status == Some("OK") && |reply.results| > 0)
    ensures r.Ok? ==>
      var first := fetch(address, apiKey.value).results[0];
      r.value == Geocoded(first.latitude, first.longitude, first.formattedAddress, DetermineAccuracy(first.locationType))
    ensures r.Ok? ==> KnownAccuracy(r.value.accuracy)
  {
    if apiKey.None? || EmptyStr(apiKey.value) then Err(NoApiKey)
    else match fetch(address, apiKey.value)
      case TransportFailure(e) => Err(e)
      case Undecodable => Err(GeocodeFailed)
      case Decoded(status, results) =>
        if status != Some("OK") then Err(GeocodeFailed)
        else if |results| == 0 then Err(NoResults)
        else
          var place := results[0];
          Ok(Geocoded(place.latitude, place.longitude, place.formattedAddress, DetermineAccuracy(place.locationType)))
  }

  /** Without a key the outcome is the same whatever the network would say: no
      request is made. */
  lemma NoKeyNoRequest(address: string, fetch1: (string, string) -> Reply, fetch2: (string, string) -> Reply)
    ensures GeocodeAddress(address, None, fetch1) == GeocodeAddress(address, None, fetch2) == Err(NoApiKey)
  {
  }

  /** With a key, the outcome depends on the network only through the one reply
      to this address and key. */
  lemma OneRequest(address: string, key: string, fetch1: (string, string) -> Reply, fetch2: (string, string) -> Reply)
    requires !EmptyStr(key)
    requires fetch1(address, key) == fetch2(address, key)
    ensures GeocodeAddress(address, Some(key), fetch1) == GeocodeAddress(address, Some(key), fetch2)
  {
  }

  // ---------------------------------------------------------------------------
  // batch_geocode_jobs: which posts it visits

  /** A published `timebank_job` post and its `location` field (`None` when unset). */
  datatype JobPost = JobPost(id: int, location: Option<string>)

  /** The posts whose `location` exists and is not the empty string, in query order. */
  function WithLocation(posts: seq<JobPost>): (r: seq<JobPost>)
    ensures |r| <= |posts|
    ensures forall j :: 0 <= j < |r| ==> r[j].location.Some? && r[j].location.value != "" && r[j] in posts
    ensures forall p :: p in posts && p.location.Some? && p.location.value != "" ==> p in r
    decreases |posts|
  {
    if |posts| == 0 then []
    else if posts[0].location.Some? && posts[0].location.value != "" then [posts[0]] + WithLocation(posts[1..])
    else WithLocation(posts[1..])
  }

  /** The posts `get_posts` returns for `posts_per_page = limit`. */
  function Selected(posts: seq<JobPost>, limit: int): (r: seq<JobPost>)
    requires limit >= 1
    ensures |r| <= limit
    ensures forall j :: 0 <= j < |r| ==> r[j].location.Some? && r[j].location.value != ""
    ensures |r| <= |WithLocation(posts)| && (|r| == limit || |r| == |WithLocation(posts)|)
    ensures r == WithLocation(posts)[..|r|]
  {
    var all := WithLocation(posts);
    if |all| <= limit then all else all[..limit]
  }

  datatype BatchResults = BatchResults(processed: nat, success: nat, errors: nat, skipped: nat)

  /** Which counter one visited job increments. */
  datatype Visit = Succeeded | Failed | Skipped

  /** How many of the jobs already have a row in `rows`. */
  function CountGeocoded(jobs: seq<JobPost>, rows: seq<LocationRow>): (n: nat)
    ensures n <= |jobs|
    decreases |jobs|
  {
    if |jobs| == 0 then 0
    else (if Lookup(rows, JobKey(jobs[0].id)).Some? then 1 else 0) + CountGeocoded(jobs[1..], rows)
  }

  /** The job's `location` field as `geocode_job` reads it; an unset field reads
      as empty. */
  function LocationField(job: JobPost): (s: string)
    ensures job.location.Some? ==> s == job.location.value
    ensures job.location.None? ==> EmptyStr(s)
  {
    if job.location.Some? then job.location.value else ""
  }

  /** What `geocode_job` saves for `location` geocoded as `g`. */
  function JobData(g: Geocoded, location: string): LocationData
  {
    LocationData(g.latitude, g.longitude, Some(g.accuracy), Some(location), Some("google"))
  }

  /** The table's rows and its next auto-increment id. */
  datatype TableState = TableState(rows: seq<LocationRow>, nextId: nat)

  /** One pass of the `foreach` of `batch_geocode_jobs` on the table `t`: the
      counter it increments and the table it leaves. */
  function VisitStep(t: TableState, job: JobPost, apiKey: Option<string>, fetch: (string, string) -> Reply, now: int)
    : (r: (Visit, TableState))
    ensures r.0 != Succeeded ==> r.1 == t
    ensures r.0 == Succeeded ==> r.1.nextId == t.nextId + 1 && Lookup(t.rows, JobKey(job.id)).None?
  {
    if Lookup(t.rows, JobKey(job.id)).Some? || EmptyStr(LocationField(job)) then (Skipped, t)
    else match GeocodeAddress(LocationField(job), apiKey, fetch)
      case Err(_) => (Failed, t)
      case Ok(g) =>
        (Succeeded, TableState(Upsert(t.rows, t.nextId, JobKey(job.id), JobData(g, LocationField(job)), now), t.nextId + 1))
  }

  /** `res` with `processed` and the counter of `v` incremented. */
  function Tally(res: BatchResults, v: Visit): BatchResults
  {
    match v
    case Succeeded => res.(processed := res.processed + 1, success := res.success + 1)
    case Failed => res.(processed := res.processed + 1, errors := res.errors + 1)
    case Skipped => res.(processed := res.processed + 1, skipped := res.skipped + 1)
  }

  /** The loop of `batch_geocode_jobs` over `jobs`, from counters `res` and table
      `t`: the final counters and table. */
  function RunBatch(jobs: seq<JobPost>, res: BatchResults, t: TableState, apiKey: Option<string>,
                    fetch: (string, string) -> Reply, now: int): (BatchResults, TableState)
    decreases |jobs|
  {
    if |jobs| == 0 then (res, t)
    else
      var step := VisitStep(t, jobs[0], apiKey, fetch, now);
      RunBatch(jobs[1..], Tally(res, step.0), step.1, apiKey, fetch, now)
  }

  /** Every job of the batch adds one to `processed` and one to exactly one of
      the other three counters; only a success adds a row. */
  lemma {:induction false} RunBatchCounts(jobs: seq<JobPost>, res: BatchResults, t: TableState, apiKey: Option<string>,
                                          fetch: (string, string) -> Reply, now: int)
    requires res.processed == res.success + res.errors + res.skipped
    ensures var (out, t') := RunBatch(jobs, res, t, apiKey, fetch, now);
      && out.processed == res.processed + |jobs|
      && out.processed == out.success + out.errors + out.skipped
      && out.success >= res.success && out.errors >= res.errors && out.skipped >= res.skipped
      && t'.nextId == t.nextId + (out.success - res.success)
    decreases |jobs|
  {
    if |jobs| > 0 {
      var step := VisitStep(t, jobs[0], apiKey, fetch, now);
      RunBatchCounts(jobs[1..], Tally(res, step.0), step.1, apiKey, fetch, now);
    }
  }

  // ---------------------------------------------------------------------------
  // The table

  class LocationTable {
    var rows: seq<LocationRow>
    /** The next auto-increment id. */
    var nextId: nat

    ghost predicate Valid()
      reads this
    {
      UniqueKeys(rows) && forall i :: 0 <= i < |rows| ==> rows[i].id < nextId
    }

    constructor ()
      ensures Valid() && rows == [] && nextId == 1
    {
      rows := [];
      nextId := 1;
    }

    /** `get_location`: the row of the key, or null. */
    function GetLocation(key: ObjectKey): (r: Option<LocationRow>)
      reads this
      ensures r == Lookup(rows, key)
    {
      Lookup(rows, key)
    }

    /** `save_location`: update the key's row or insert one. */
    method SaveLocation(key: ObjectKey, data: LocationData, now: int) returns (ok: bool)
      requires Valid()
      modifies this
      ensures Valid()
      ensures rows == Upsert(old(rows), old(nextId), key, data, now)
      ensures nextId == old(nextId) + (if Lookup(old(rows), key).Some? then 0 else 1)
      ensures ok
    {
      UpsertThenLookup(rows, nextId, key, data, now, key);
      var existing := FirstIndex(rows, KeyIs(key));
      if existing.Some? {
        var k := existing.value;
        rows := rows[k := RowFor(rows[k].id, key, data, now)];
      } else {
        rows := rows + [RowFor(nextId, key, data, now)];
        nextId := nextId + 1;
      }
      ok := true;
    }

    /** `delete_location`. */
    method DeleteLocation(key: ObjectKey) returns (ok: bool)
      requires Valid()
      modifies this
      ensures Valid()
      ensures rows == Without(old(rows), key) && nextId == old(nextId)
      ensures ok
    {
      WithoutKeepsUnique(rows, key);
      rows := Without(rows, key);
      ok := true;
    }

    /** `geocode_job` for a job whose `location` field is `location`. */
    method GeocodeJob(jobId: int, location: string, apiKey: Option<string>, fetch: (string, string) -> Reply, now: int)
      returns (r: Result<bool>)
      requires Valid()
      modifies this
      ensures Valid()
      ensures EmptyStr(location) ==> r == Ok(false) && unchanged(this)
      ensures !EmptyStr(location) && Lookup(old(rows), JobKey(jobId)).Some?
              && Lookup(old(rows), JobKey(jobId)).value.address == Some(location) ==>
        r == Ok(true) && unchanged(this)
      ensures !EmptyStr(location) && !(Lookup(old(rows), JobKey(jobId)).Some?
              && Lookup(old(rows), JobKey(jobId)).value.address == Some(location)) ==>
        match GeocodeAddress(location, apiKey, fetch)
        case Err(e) => r == Err(e) && unchanged(this)
        case Ok(g) => && r == Ok(true) && rows == Upsert(old(rows), old(nextId), JobKey(jobId), JobData(g, location), now)
                      && nextId == old(nextId) + (if Lookup(old(rows), JobKey(jobId)).Some? then 0 else 1)
      ensures KeysKept(old(rows), rows)
      ensures r.Ok? && !EmptyStr(location) ==> Lookup(rows, JobKey(jobId)).Some?
    {
      if EmptyStr(location) {
        return Ok(false);
      }
      var existing := GetLocation(JobKey(jobId));
      if existing.Some? && existing.value.address == Some(location) {
        return Ok(true);
      }
      var result := GeocodeAddress(location, apiKey, fetch);
      if result.Err? {
        return Err(result.error);
      }
      var g := result.value;
      var data := JobData(g, location);
      forall key | Lookup(rows, key).Some?
        ensures Lookup(Upsert(rows, nextId, JobKey(jobId), data, now), key).Some?
      {
        UpsertThenLookup(rows, nextId, JobKey(jobId), data, now, key);
      }
      assert KeysKept(rows, Upsert(rows, nextId, JobKey(jobId), data, now));
      UpsertThenLookup(rows, nextId, JobKey(jobId), data, now, JobKey(jobId));
      var _ := SaveLocation(JobKey(jobId), data, now);
      r := Ok(true);
    }

    /** One pass of the `foreach` in `batch_geocode_jobs`: a job that already has
        a row is skipped without a request; otherwise `geocode_job` decides. */
    method VisitJob(job: JobPost, apiKey: Option<string>, fetch: (string, string) -> Reply, now: int)
      returns (outcome: Visit)
      requires Valid()
      modifies this
      ensures Valid()
      ensures (outcome, TableState(rows, nextId)) == VisitStep(TableState(old(rows), old(nextId)), job, apiKey, fetch, now)
      ensures Lookup(old(rows), JobKey(job.id)).Some? ==> outcome == Skipped && unchanged(this)
      ensures KeysKept(old(rows), rows)
      ensures outcome != Failed && !EmptyStr(LocationField(job)) ==> Lookup(rows, JobKey(job.id)).Some?
    {
      var existing := GetLocation(JobKey(job.id));
      if existing.Some? {
        return Skipped;
      }
      var result := GeocodeJob(job.id, LocationField(job), apiKey, fetch, now);
      if result.Err? {
        outcome := Failed;
      } else if result.value {
        outcome := Succeeded;
      } else {
        outcome := Skipped;
      }
    }

    /** `batch_geocode_jobs`: the counters and the table are the fold of the
        selected jobs; each counts once as processed and once as exactly one of
        success, error or skipped; jobs that already have a row count as
        skipped. */
    method BatchGeocodeJobs(posts: seq<JobPost>, limit: int, apiKey: Option<string>,
                            fetch: (string, string) -> Reply, now: int)
      returns (res: BatchResults)
      requires limit >= 1
      requires Valid()
      modifies this
      ensures Valid()
      ensures (res, TableState(rows, nextId))
           == RunBatch(Selected(posts, limit), BatchResults(0, 0, 0, 0), TableState(old(rows), old(nextId)), apiKey, fetch, now)
      ensures res.processed == |Selected(posts, limit)| && res.processed <= limit
      ensures res.processed == res.success + res.errors + res.skipped
      ensures res.skipped >= CountGeocoded(Selected(posts, limit), old(rows))
      ensures KeysKept(old(rows), rows)
      ensures res.errors == 0 ==> AllGeocoded(Selected(posts, limit), rows)
    {
      var jobs := Selected(posts, limit);
      ghost var start := TableState(rows, nextId);
      res := VisitJobs(jobs, apiKey, fetch, now);
      RunBatchCounts(jobs, BatchResults(0, 0, 0, 0), start, apiKey, fetch, now);
      RunBatchKeeps(jobs, BatchResults(0, 0, 0, 0), start, apiKey, fetch, now);
    }

    /** The `foreach` of `batch_geocode_jobs`: one pass per job, in order. */
    method VisitJobs(jobs: seq<JobPost>, apiKey: Option<string>, fetch: (string, string) -> Reply, now: int)
      returns (res: BatchResults)
      requires Valid()
      modifies this
      ensures Valid()
      ensures (res, TableState(rows, nextId))
           == RunBatch(jobs, BatchResults(0, 0, 0, 0), TableState(old(rows), old(nextId)), apiKey, fetch, now)
    {
      ghost var start := TableState(rows, nextId);
      res := BatchResults(0, 0, 0, 0);
      var i := 0;
      while i < |jobs|
        invariant 0 <= i <= |jobs|
        invariant Valid()
        invariant RunBatch(jobs[i..], res, TableState(rows, nextId), apiKey, fetch, now)
               == RunBatch(jobs, BatchResults(0, 0, 0, 0), start, apiKey, fetch, now)
      {
        assert jobs[i..][1..] == jobs[i + 1..];
        var outcome := VisitJob(jobs[i], apiKey, fetch, now);
        res := Tally(res, outcome);
        i := i + 1;
      }
    }
  }

  /** Every key with a row in `before` still has one in `after`. */
  ghost predicate KeysKept(before: seq<LocationRow>, after: seq<LocationRow>)
  {
    forall key :: Lookup(before, key).Some? ==> Lookup(after, key).Some?
  }

  lemma KeysKeptTrans(a: seq<LocationRow>, b: seq<LocationRow>, c: seq<LocationRow>)
    requires KeysKept(a, b) && KeysKept(b, c)
    ensures KeysKept(a, c)
  {
  }

  /** Every job of `jobs` with a non-empty location has a row. */
  ghost predicate AllGeocoded(jobs: seq<JobPost>, rows: seq<LocationRow>)
  {
    forall j :: 0 <= j < |jobs| && !EmptyStr(LocationField(jobs[j])) ==>
      Lookup(rows, JobKey(jobs[j].id)).Some?
  }

  /** A pass of the loop loses no row, and a pass that does not fail leaves a
      job with a non-empty location with a row. */
  lemma VisitStepKeepsKeys(t: TableState, job: JobPost, apiKey: Option<string>, fetch: (string, string) -> Reply, now: int)
    ensures var step := VisitStep(t, job, apiKey, fetch, now);
      && KeysKept(t.rows, step.1.rows)
      && (step.0 != Failed && !EmptyStr(LocationField(job)) ==> Lookup(step.1.rows, JobKey(job.id)).Some?)
  {
    var step := VisitStep(t, job, apiKey, fetch, now);
    if step.0 == Succeeded {
      var data := JobData(GeocodeAddress(LocationField(job), apiKey, fetch).value, LocationField(job));
      assert step.1.rows == Upsert(t.rows, t.nextId, JobKey(job.id), data, now);
      forall key | Lookup(t.rows, key).Some?
        ensures Lookup(step.1.rows, key).Some?
      {
        UpsertThenLookup(t.rows, t.nextId, JobKey(job.id), data, now, key);
      }
      UpsertThenLookup(t.rows, t.nextId, JobKey(job.id), data, now, JobKey(job.id));
    }
  }

  /** Rows only accumulate, so a later table counts at least as many jobs as
      geocoded. */
  lemma {:induction false} CountGeocodedGrows(jobs: seq<JobPost>, before: seq<LocationRow>, after: seq<LocationRow>)
    requires KeysKept(before, after)
    ensures CountGeocoded(jobs, before) <= CountGeocoded(jobs, after)
    decreases |jobs|
  {
    if |jobs| > 0 {
      CountGeocodedGrows(jobs[1..], before, after);
    }
  }

  /** Over a batch no row is lost, every job that already had a row counts as
      skipped, and when no job fails every job with a non-empty location ends
      up with a row. */
  lemma {:induction false} RunBatchKeeps(jobs: seq<JobPost>, res: BatchResults, t: TableState, apiKey: Option<string>,
                                         fetch: (string, string) -> Reply, now: int)
    ensures var (out, t') := RunBatch(jobs, res, t, apiKey, fetch, now);
      && KeysKept(t.rows, t'.rows)
      && out.errors >= res.errors
      && out.skipped >= res.skipped + CountGeocoded(jobs, t.rows)
      && (out.errors == res.errors ==> AllGeocoded(jobs, t'.rows))
    decreases |jobs|
  {
    if |jobs| > 0 {
      var step := VisitStep(t, jobs[0], apiKey, fetch, now);
      var res1 := Tally(res, step.0);
      VisitStepKeepsKeys(t, jobs[0], apiKey, fetch, now);
      RunBatchKeeps(jobs[1..], res1, step.1, apiKey, fetch, now);
      var (out, t') := RunBatch(jobs[1..], res1, step.1, apiKey, fetch, now);
      assert RunBatch(jobs, res, t, apiKey, fetch, now) == (out, t');
      KeysKeptTrans(t.rows, step.1.rows, t'.rows);
      CountGeocodedGrows(jobs[1..], t.rows, step.1.rows);
      if out.errors == res.errors {
        assert step.0 != Failed;
        forall j | 0 <= j < |jobs| && !EmptyStr(LocationField(jobs[j]))
          ensures Lookup(t'.rows, JobKey(jobs[j].id)).Some?
        {
          if j > 0 {
            assert jobs[j] == jobs[1..][j - 1];
          }
        }
      }
    }
  }

  lemma {:induction false} WithoutKeepsUnique(rows: seq<LocationRow>, key: ObjectKey)
    requires UniqueKeys(rows)
    ensures UniqueKeys(Without(rows, key))
    decreases |rows|
  {
    if |rows| > 0 {
      WithoutKeepsUnique(rows[1..], key);
      var rest := Without(rows[1..], key);
      if rows[0].key != key {
        forall j | 0 <= j < |rest| ensures rest[j].key != rows[0].key {
          assert rest[j] in rows[1..];
        }
      }
    }
  }
}
