/** `ZAOBank_Mobile_REST_Location`: the coordinate validators and the
    settings, update and read endpoints over the privacy state, for the user
    the request authenticated as. */
module RestLocation {

  import opened Common
  import opened LocationPrivacy
  import Geocoder

  const InvalidParam := ErrorWithStatus("rest_invalid_param", 400)
  const EnableFirst := ErrorWithStatus("location_disabled", 400)

  /** The `latitude` validator; `v` is the parameter's number when it is numeric. */
  predicate ValidLatitude(v: Option<real>)
  {
    v.Some? && -90.0 <= v.value <= 90.0
  }

  /** The `longitude` validator. */
  predicate ValidLongitude(v: Option<real>)
  {
    v.Some? && -180.0 <= v.value <= 180.0
  }

  /** The settings `update_settings` asks for: an omitted `enabled` keeps the
      current flag, a falsy `precision` keeps the level in effect. */
  datatype Requested = Requested(enabled: bool, precision: string)

  function MergeSettings(enabledParam: Option<bool>, precisionParam: Option<string>, m: UserMeta): (q: Requested)
    ensures enabledParam.None? ==> q.enabled == m.enabled
    ensures enabledParam.Some? ==> q.enabled == enabledParam.value
    ensures precisionParam.None? || EmptyStr(precisionParam.value) ==> q.precision == Precision(m)
    ensures precisionParam.Some? && !EmptyStr(precisionParam.value) ==> q.precision == precisionParam.value
  {
    Requested(if enabledParam.Some? then enabledParam.value else m.enabled,
              if precisionParam.Some? && !EmptyStr(precisionParam.value) then precisionParam.value else Precision(m))
  }

  /** Turning sharing off goes through `disable_location`; everything else through `update_settings`. */
  predicate TurnsOff(m: UserMeta, q: Requested)
  {
    m.enabled && !q.enabled
  }

  /** The meta `update_settings` (the endpoint) leaves behind. */
  function SettingsRequestMeta(m: UserMeta, enabledParam: Option<bool>, precisionParam: Option<string>): (r: UserMeta)
    ensures r.enabled == MergeSettings(enabledParam, precisionParam, m).enabled
    ensures TurnsOff(m, MergeSettings(enabledParam, precisionParam, m)) ==>
      UserLocationOf(r).None? && Precision(r) == Precision(m)
  {
    var q := MergeSettings(enabledParam, precisionParam, m);
    if TurnsOff(m, q) then Disabled(m) else WithSettings(m, q.enabled, q.precision)
  }

  /** A request that names neither field changes nothing a client can read back. */
  lemma EmptySettingsRequestIsNeutral(m: UserMeta)
    ensures SettingsOf(SettingsRequestMeta(m, None, None)) == SettingsOf(m)
    ensures UserLocationOf(SettingsRequestMeta(m, None, None)) == UserLocationOf(m)
  {
  }

  /** A request naming a flag and a whitelisted level is what `get_settings`
      then reports; a location survives unless sharing was turned off. */
  lemma {:induction false} SettingsRequestTakesEffect(m: UserMeta, enabled: bool, precision: string)
    requires Whitelisted(precision)
    ensures var after := SettingsRequestMeta(m, Some(enabled), Some(precision));
      && SettingsOf(after).enabled == enabled
      && SettingsOf(after).precision == (if m.enabled && !enabled then Precision(m) else precision)
      && (enabled ==> UserLocationOf(after) == UserLocationOf(m.(enabled := true, precision := precision)))
  {
    assert !EmptyStr(precision);
  }

  /** What `get_location` answers. */
  datatype LocationReply = LocationReply(location: Option<UserLocation>, enabled: bool)

  /** `get_location`: the `enabled` field always reports the user's setting. */
  function GetLocation(m: UserMeta): (r: LocationReply)
    ensures r.location == UserLocationOf(m)
    ensures r.enabled == m.enabled
  {
    match UserLocationOf(m)
    case None => LocationReply(None, m.enabled)
    case Some(loc) => LocationReply(Some(loc), true)
  }

  /** The `location` part of a successful `update_location` answer. */
  datatype UpdatedLocation = UpdatedLocation(latitude: real, longitude: real, precision: string)

  /** `update_settings`: merges, then disables or updates, then reports the settings. */
  method UpdateSettings(store: PrivacyStore, userId: int, enabledParam: Option<bool>, precisionParam: Option<string>)
    returns (settings: Settings)
    requires store.Valid()
    modifies store, store.table
    ensures store.Valid()
    ensures var m := MetaOf(old(store.meta), userId);
      && store.meta == old(store.meta)[userId := SettingsRequestMeta(m, enabledParam, precisionParam)]
      && (TurnsOff(m, MergeSettings(enabledParam, precisionParam, m)) ==>
            store.table.rows == Geocoder.Without(old(store.table.rows), UserKey(userId))
            && store.table.nextId == old(store.table.nextId))
      && (!TurnsOff(m, MergeSettings(enabledParam, precisionParam, m)) ==> unchanged(store.table))
    ensures settings == SettingsOf(MetaOf(store.meta, userId))
  {
    var m := MetaOf(store.meta, userId);
    var q := MergeSettings(enabledParam, precisionParam, m);
    if TurnsOff(m, q) {
      var _ := store.DisableLocation(userId);
    } else {
      var _ := store.UpdateSettings(userId, q.enabled, q.precision);
    }
    settings := SettingsOf(MetaOf(store.meta, userId));
  }

  /** `update_location`: the validators, then the opt-in check (a 400 that
      writes nothing), then the privacy store's update. */
  method UpdateLocation(store: PrivacyStore, userId: int, latitude: Option<real>, longitude: Option<real>,
                        offset: Coordinates, now: int)
    returns (r: Result<UpdatedLocation>)
    requires store.Valid()
    modifies store, store.table
    ensures store.Valid()
    ensures !ValidLatitude(latitude) || !ValidLongitude(longitude) ==>
      r == Err(InvalidParam) && unchanged(store) && unchanged(store.table)
    ensures ValidLatitude(latitude) && ValidLongitude(longitude) && !MetaOf(old(store.meta), userId).enabled ==>
      r == Err(EnableFirst) && unchanged(store) && unchanged(store.table)
    ensures ValidLatitude(latitude) && ValidLongitude(longitude) && MetaOf(old(store.meta), userId).enabled ==>
      var m := MetaOf(old(store.meta), userId);
      var f := FuzzCoordinates(Coordinates(latitude.value, longitude.value), Precision(m), offset);
      && r == Ok(UpdatedLocation(f.latitude, f.longitude, Precision(m)))
      && store.meta == old(store.meta)[userId := Located(m, f, now)]
      && store.table.rows == Geocoder.Upsert(old(store.table.rows), old(store.table.nextId), UserKey(userId),
                                             UserRowData(f, Precision(m)), now)
      && store.table.nextId == old(store.table.nextId)
                               + (if Geocoder.Lookup(old(store.table.rows), UserKey(userId)).Some? then 0 else 1)
  {
    if !ValidLatitude(latitude) || !ValidLongitude(longitude) {
      return Err(InvalidParam);
    }
    if !MetaOf(store.meta, userId).enabled {
      return Err(EnableFirst);
    }
    // The store repeats the opt-in check, so its error branch cannot be taken here.
    var result := store.UpdateLocation(userId, Coordinates(latitude.value, longitude.value), offset, now);
    r := Ok(UpdatedLocation(result.value.latitude, result.value.longitude, Precision(MetaOf(store.meta, userId))));
  }
}
