/** `ZAOBank_Location_Privacy`: each user's opt-in flag, precision level and
    last shared coordinates (user meta), mirrored into the location table.
    Coordinates are reals; the random offset the `block` and `city` levels add
    is an argument. */
module LocationPrivacy {

  import opened Common
  import Geocoder

  /** `PRECISION_OFFSETS`: the fuzzing radius in metres of each precision level. */
  const PrecisionOffsets: map<string, int> := map["exact" := 0, "block" := 200, "city" := 5000]

  const DefaultPrecision: string := "block"

  const LocationDisabled := WpError("location_disabled", None)

  /** A key of `PRECISION_OFFSETS`. */
  predicate Whitelisted(precision: string)
  {
    precision in PrecisionOffsets
  }

  /** One user's location meta. `enabled` reads the stored flag as PHP does
      (absent is false); `precision` is the stored string ("" when absent). */
  datatype UserMeta = UserMeta(
    enabled: bool,
    precision: string,
    lastLat: Option<real>,
    lastLng: Option<real>,
    updatedAt: Option<int>)

  /** The meta of a user who never touched the settings. */
  const NoMeta := UserMeta(false, "", None, None, None)

  function MetaOf(meta: map<int, UserMeta>, userId: int): UserMeta
  {
    if userId in meta then meta[userId] else NoMeta
  }

  datatype Coordinates = Coordinates(latitude: real, longitude: real)

  /** What `get_user_location` returns. */
  datatype UserLocation = UserLocation(latitude: real, longitude: real, precision: string, updatedAt: Option<int>)

  /** What `get_settings` returns. */
  datatype Settings = Settings(enabled: bool, precision: string, hasLocation: bool)

  /** `get_precision`: the stored level when it is whitelisted, else `block`. */
  function Precision(m: UserMeta): (p: string)
    ensures Whitelisted(p)
    ensures Whitelisted(m.precision) ==> p == m.precision
    ensures !Whitelisted(m.precision) ==> p == DefaultPrecision
  {
    if Whitelisted(m.precision) then m.precision else DefaultPrecision
  }

  /** PHP `empty()` on a stored coordinate: absent, or zero (which is stored as "0"). */
  predicate EmptyCoordinate(c: Option<real>)
  {
    c.None? || c.value == 0.0
  }

  /** `get_user_location`: nothing while sharing is off or either coordinate is empty. */
  function UserLocationOf(m: UserMeta): (r: Option<UserLocation>)
    ensures r.Some? <==> m.enabled && !EmptyCoordinate(m.lastLat) && !EmptyCoordinate(m.lastLng)
    ensures r.Some? ==> r.value.latitude == m.lastLat.value && r.value.longitude == m.lastLng.value
                        && r.value.precision == Precision(m) && r.value.updatedAt == m.updatedAt
  {
    if !m.enabled || EmptyCoordinate(m.lastLat) || EmptyCoordinate(m.lastLng) then None
    else Some(UserLocation(m.lastLat.value, m.lastLng.value, Precision(m), m.updatedAt))
  }

  /** `get_settings`. */
  function SettingsOf(m: UserMeta): (s: Settings)
    ensures s.enabled == m.enabled && s.precision == Precision(m)
    ensures s.hasLocation <==> UserLocationOf(m).Some?
  {
    Settings(m.enabled, Precision(m), UserLocationOf(m) != None)
  }

  /** `fuzz_coordinates`: the coordinates unchanged for `exact` or an unknown
      level, otherwise the randomly offset ones. */
  function FuzzCoordinates(c: Coordinates, precision: string, offset: Coordinates): (r: Coordinates)
    ensures !Whitelisted(precision) || precision == "exact" ==> r == c
    ensures Whitelisted(precision) && precision != "exact" ==> r == offset
  {
    if !Whitelisted(precision) || precision == "exact" then c else offset
  }

  // ---------------------------------------------------------------------------
  // The meta each operation leaves behind

  /** `update_settings`: the flag is always written, the level only when whitelisted. */
  function WithSettings(m: UserMeta, enabled: bool, precision: string): UserMeta
  {
    m.(enabled := enabled, precision := if Whitelisted(precision) then precision else m.precision)
  }

  /** `update_location`'s meta writes. */
  function Located(m: UserMeta, c: Coordinates, now: int): UserMeta
  {
    m.(lastLat := Some(c.latitude), lastLng := Some(c.longitude), updatedAt := Some(now))
  }

  /** `clear_location`'s meta deletions. */
  function Cleared(m: UserMeta): UserMeta
  {
    m.(lastLat := None, lastLng := None, updatedAt := None)
  }

  /** `disable_location`: the flag off, then the location cleared. */
  function Disabled(m: UserMeta): UserMeta
  {
    Cleared(m.(enabled := false))
  }

  /** The location row `update_location` upserts for the user. */
  function UserRowData(c: Coordinates, precision: string): (d: Geocoder.LocationData)
    ensures d.accuracy == Some(precision) && d.geocodeSource == Some("device") && d.address.None?
  {
    Geocoder.LocationData(c.latitude, c.longitude, Some(precision), None, Some("device"))
  }

  function UserKey(userId: int): Geocoder.ObjectKey
  {
    Geocoder.ObjectKey("user", userId)
  }

  // ---------------------------------------------------------------------------
  // Properties of the meta transitions

  /** The effective level after `update_settings` is the requested one when
      whitelisted, and otherwise the one in effect before; the flag is the one given. */
  lemma SettingsPrecision(m: UserMeta, enabled: bool, precision: string)
    ensures Precision(WithSettings(m, enabled, precision)) == if Whitelisted(precision) then precision else Precision(m)
    ensures WithSettings(m, enabled, precision).enabled == enabled
    ensures UserLocationOf(WithSettings(m, true, precision)).Some? <==> UserLocationOf(m.(enabled := true)).Some?
  {
  }

  /** Clearing removes the location and keeps the flag and the level. */
  lemma ClearKeepsSettings(m: UserMeta)
    ensures UserLocationOf(Cleared(m)).None?
    ensures Cleared(m).enabled == m.enabled && Precision(Cleared(m)) == Precision(m)
    ensures SettingsOf(Cleared(m)) == Settings(m.enabled, Precision(m), false)
  {
  }

  /** Disabling leaves nothing to read back and keeps the level. */
  lemma DisableHidesLocation(m: UserMeta)
    ensures SettingsOf(Disabled(m)) == Settings(false, Precision(m), false)
    ensures UserLocationOf(Disabled(m)).None?
  {
  }

  /** A shared non-zero position reads back as stored, with the level in
      effect; at `exact` it is the position sent. */
  lemma LocatedReadsBack(m: UserMeta, c: Coordinates, offset: Coordinates, now: int)
    requires m.enabled
    requires var f := FuzzCoordinates(c, Precision(m), offset); f.latitude != 0.0 && f.longitude != 0.0
    ensures var f := FuzzCoordinates(c, Precision(m), offset);
            UserLocationOf(Located(m, f, now)) == Some(UserLocation(f.latitude, f.longitude, Precision(m), Some(now)))
    ensures Precision(m) == "exact" ==> FuzzCoordinates(c, Precision(m), offset) == c
  {
  }

  /** A position on the equator or the prime meridian is stored as "0" and
      reads back as no location at all. */
  lemma ZeroCoordinateReadsAsEmpty(m: UserMeta, c: Coordinates, now: int)
    requires c.latitude == 0.0 || c.longitude == 0.0
    ensures UserLocationOf(Located(m, c, now)).None?
  {
  }

  // ---------------------------------------------------------------------------
  // The state

  class PrivacyStore {
    /** User meta, by user id. */
    var meta: map<int, UserMeta>
    /** The shared `zaobank_locations` table. */
    const table: Geocoder.LocationTable

    ghost predicate Valid()
      reads this, table
    {
      table.Valid()
    }

    constructor (table: Geocoder.LocationTable)
      requires table.Valid()
      ensures Valid() && meta == map[] && this.table == table
    {
      meta := map[];
      this.table := table;
    }

    /** `update_settings`. */
    method UpdateSettings(userId: int, enabled: bool, precision: string) returns (ok: bool)
      modifies this
      ensures meta == old(meta)[userId := WithSettings(MetaOf(old(meta), userId), enabled, precision)]
      ensures ok
    {
      meta := meta[userId := WithSettings(MetaOf(meta, userId), enabled, precision)];
      ok := true;
    }

    /** `update_location`: refused while sharing is off; otherwise the (fuzzed)
        position is written to the meta and upserted as the user's row. */
    method UpdateLocation(userId: int, c: Coordinates, offset: Coordinates, now: int)
      returns (r: Result<Coordinates>)
      requires Valid()
      modifies this, table
      ensures Valid()
      ensures var m := MetaOf(old(meta), userId);
        && (!m.enabled ==> r == Err(LocationDisabled) && meta == old(meta) && unchanged(table))
        && (m.enabled ==>
              var f := FuzzCoordinates(c, Precision(m), offset);
              && r == Ok(f)
              && meta == old(meta)[userId := Located(m, f, now)]
              && table.rows == Geocoder.Upsert(old(table.rows), old(table.nextId), UserKey(userId),
                                               UserRowData(f, Precision(m)), now)
              && table.nextId == old(table.nextId)
                                 + (if Geocoder.Lookup(old(table.rows), UserKey(userId)).Some? then 0 else 1))
    {
      var m := MetaOf(meta, userId);
      if !m.enabled {
        return Err(LocationDisabled);
      }
      var precision := Precision(m);
      var f := FuzzCoordinates(c, precision, offset);
      meta := meta[userId := Located(m, f, now)];
      var _ := table.SaveLocation(UserKey(userId), UserRowData(f, precision), now);
      r := Ok(f);
    }

    /** `clear_location`. */
    method ClearLocation(userId: int) returns (ok: bool)
      requires Valid()
      modifies this, table
      ensures Valid()
      ensures meta == old(meta)[userId := Cleared(MetaOf(old(meta), userId))]
      ensures table.rows == Geocoder.Without(old(table.rows), UserKey(userId)) && table.nextId == old(table.nextId)
      ensures ok
    {
      meta := meta[userId := Cleared(MetaOf(meta, userId))];
      var _ := table.DeleteLocation(UserKey(userId));
      ok := true;
    }

    /** `disable_location`. */
    method DisableLocation(userId: int) returns (ok: bool)
      requires Valid()
      modifies this, table
      ensures Valid()
      ensures meta == old(meta)[userId := Disabled(MetaOf(old(meta), userId))]
      ensures table.rows == Geocoder.Without(old(table.rows), UserKey(userId)) && table.nextId == old(table.nextId)
      ensures ok
    {
      meta := meta[userId := MetaOf(meta, userId).(enabled := false)];
      ok := ClearLocation(userId);
    }
  }
}
