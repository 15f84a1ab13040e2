/** `ZAOBank_Mobile_REST_Config::check_version`: whether an app version is
    still supported and whether a newer one exists. PHP's `version_compare`
    is the parameter `atLeast`, with `atLeast(a, b)` meaning
    `version_compare(a, b, '>=')`. */
module RestConfig {

  import opened Common
  import JwtAuth

  /** `ZAOBANK_MOBILE_VERSION`. */
  const PluginVersion := "1.0.1"

  const MinVersionKey := "zaobank_mobile_min_app_version"
  const AppStoreKey := "zaobank_mobile_appstore_url"
  const TestFlightKey := "zaobank_mobile_testflight_url"
  const PlayStoreKey := "zaobank_mobile_playstore_url"
  const DefaultMinVersion := "1.0.0"
  const DefaultPlatform := "ios"

  const UpdateRequiredMessage := "Please update the app to continue."
  const UpdateAvailableMessage := "A new version is available."
  const UpToDateMessage := "App is up to date."

  /** PHP's string conversion of an option value, as `version_compare` sees it. */
  function OptionString(v: OptValue): string
  {
    match v
    case OStr(s) => s
    case OInt(i) => if i < 0 then "-" + Digits(-i) else Digits(i)
    case OBool(b) => if b then "1" else ""
  }

  /** The `update_url` key: absent, or present with the option read (`None` is PHP `false`). */
  datatype UpdateUrl = NoUpdateUrl | UpdateUrl(value: Option<OptValue>)

  /** The `check_version` response. */
  datatype VersionCheck = VersionCheck(
    compatible: bool,
    current: bool,
    appVersion: string,
    minVersion: OptValue,
    latestVersion: string,
    message: string,
    updateRequired: bool,
    updateAvailable: bool,
    updateUrl: UpdateUrl)

  /** `get_option('zaobank_mobile_min_app_version', '1.0.0')`. */
  function MinVersion(opts: map<string, OptValue>): (v: OptValue)
    ensures MinVersionKey !in opts ==> v == OStr(DefaultMinVersion)
    ensures MinVersionKey in opts ==> v == opts[MinVersionKey]
  {
    GetOptionOr(opts, MinVersionKey, OStr(DefaultMinVersion))
  }

  /** Where an outdated app is sent: iOS to the App Store URL, or the
      TestFlight URL while that one is empty; every other platform to the
      Play Store URL. */
  function UpdateUrlFor(platform: string, opts: map<string, OptValue>): (u: Option<OptValue>)
    ensures platform == "ios" && OptTruthy(GetOption(opts, AppStoreKey)) ==> u == GetOption(opts, AppStoreKey)
    ensures platform == "ios" && !OptTruthy(GetOption(opts, AppStoreKey)) ==> u == GetOption(opts, TestFlightKey)
    ensures platform != "ios" ==> u == GetOption(opts, PlayStoreKey)
  {
    if platform == "ios" then
      if OptTruthy(GetOption(opts, AppStoreKey)) then GetOption(opts, AppStoreKey) else GetOption(opts, TestFlightKey)
    else GetOption(opts, PlayStoreKey)
  }

  /** `check_version`. `rawVersion` is the request text, which the route passes
      through `sanitize_text_field`; `platform` is `None` when the request
      omits it (the route's default is `ios`). */
  function CheckVersion(rawVersion: string, platform: Option<string>, opts: map<string, OptValue>,
                        atLeast: (string, string) -> bool): (r: VersionCheck)
    ensures var appVersion := JwtAuth.SanitizeText(rawVersion);
      && r.compatible == atLeast(appVersion, OptionString(MinVersion(opts)))
      && r.current == atLeast(appVersion, PluginVersion)
      && r.appVersion == appVersion && r.minVersion == MinVersion(opts) && r.latestVersion == PluginVersion
    ensures r.updateRequired <==> !r.compatible
    ensures r.updateAvailable <==> r.compatible && !r.current
    ensures r.updateUrl.UpdateUrl? <==> r.updateRequired
    ensures r.updateRequired ==>
      && r.message == UpdateRequiredMessage
      && r.updateUrl.value == UpdateUrlFor(if platform.Some? then platform.value else DefaultPlatform, opts)
    ensures r.updateAvailable ==> r.message == UpdateAvailableMessage
    ensures r.compatible && r.current ==> r.message == UpToDateMessage
  {
    var appVersion := JwtAuth.SanitizeText(rawVersion);
    var compatible := atLeast(appVersion, OptionString(MinVersion(opts)));
    var current := atLeast(appVersion, PluginVersion);
    var base := VersionCheck(compatible, current, appVersion, MinVersion(opts), PluginVersion, "", false, false, NoUpdateUrl);
    if !compatible then
      var p := if platform.Some? then platform.value else DefaultPlatform;
      base.(message := UpdateRequiredMessage, updateRequired := true, updateUrl := UpdateUrl(UpdateUrlFor(p, opts)))
    else if !current then
      base.(message := UpdateAvailableMessage, updateAvailable := true)
    else
      base.(message := UpToDateMessage)
  }

  /** With a transitive order and a minimum no newer than the plugin, an app
      that is current is compatible: "update required" and "up to date" never
      meet, and exactly one of the three messages applies. */
  lemma {:induction false} CurrentAppIsCompatible(rawVersion: string, platform: Option<string>,
                                                  opts: map<string, OptValue>, atLeast: (string, string) -> bool)
    requires forall a, b, c :: atLeast(a, b) && atLeast(b, c) ==> atLeast(a, c)
    requires atLeast(PluginVersion, OptionString(MinVersion(opts)))
    ensures var r := CheckVersion(rawVersion, platform, opts, atLeast);
      && (r.current ==> r.compatible && !r.updateRequired && !r.updateAvailable && r.message == UpToDateMessage)
      && (r.updateRequired ==> !r.current)
  {
    var appVersion := JwtAuth.SanitizeText(rawVersion);
    var r := CheckVersion(rawVersion, platform, opts, atLeast);
    if r.current {
      assert atLeast(appVersion, PluginVersion);
      assert atLeast(appVersion, OptionString(MinVersion(opts)));
    }
  }

  /** The plugin's own version, checked on a site whose minimum it meets, is up to date. */
  lemma {:induction false} ShippedVersionIsUpToDate(platform: Option<string>, opts: map<string, OptValue>,
                                                    atLeast: (string, string) -> bool)
    requires atLeast(PluginVersion, PluginVersion)
    requires atLeast(PluginVersion, OptionString(MinVersion(opts)))
    ensures CheckVersion(PluginVersion, platform, opts, atLeast) ==
      VersionCheck(true, true, PluginVersion, MinVersion(opts), PluginVersion, UpToDateMessage, false, false, NoUpdateUrl)
  {
    JwtAuth.FoldSpacesKeepsPlain(PluginVersion, "");
    assert PluginVersion + "" == PluginVersion;
    JwtAuth.SanitizeKeepsClean(PluginVersion);
  }
}
