/** `ZAOBank_Mobile_Activator`: what activating the plugin writes to the
    options table. Table creation (`dbDelta`) and the rewrite-rule flush are
    outside the model; the generated secret is an argument. */
module Activator {

  import opened Common
  import RestConfig

  const SecretKey := "zaobank_mobile_jwt_secret"
  const ActivatedKey := "zaobank_mobile_activated"
  const VersionKey := "zaobank_mobile_version"
  const DbVersionKey := "zaobank_mobile_db_version"
  const SecretLength := 64

  /** The defaults `set_default_options` installs, in its order. */
  const DefaultOptions: seq<(string, OptValue)> := [
    ("zaobank_mobile_jwt_expiration", OInt(30)),
    ("zaobank_mobile_refresh_expiration", OInt(90)),
    ("zaobank_mobile_default_radius", OInt(25)),
    ("zaobank_mobile_max_radius", OInt(100)),
    ("zaobank_mobile_distance_unit", OStr("miles")),
    ("zaobank_mobile_min_app_version", OStr("1.0.0")),
    ("zaobank_mobile_latest_ios_version", OStr("1.0.0")),
    ("zaobank_mobile_latest_android_version", OStr("1.0.0")),
    ("zaobank_mobile_testflight_url", OStr("")),
    ("zaobank_mobile_appstore_url", OStr("")),
    ("zaobank_mobile_playstore_url", OStr(""))
  ]

  /** `add_option` for each pair in turn: a key already present keeps its value. */
  function AddDefaults(opts: map<string, OptValue>, defaults: seq<(string, OptValue)>): (r: map<string, OptValue>)
    ensures forall k :: k in opts ==> k in r && r[k] == opts[k]
    ensures forall k :: k in r ==> k in opts || exists i :: 0 <= i < |defaults| && defaults[i].0 == k
    ensures forall i :: 0 <= i < |defaults| ==> defaults[i].0 in r
    decreases |defaults|
  {
    if |defaults| == 0 then opts
    else
      var before := AddDefaults(opts, defaults[..|defaults| - 1]);
      var (k, v) := defaults[|defaults| - 1];
      if k in before then before else before[k := v]
  }

  /** For distinct keys, a key missing from `opts` receives its default. */
  lemma {:induction false} AddDefaultsFillsMissing(opts: map<string, OptValue>, defaults: seq<(string, OptValue)>, i: nat)
    requires i < |defaults|
    requires forall a, b :: 0 <= a < b < |defaults| ==> defaults[a].0 != defaults[b].0
    requires defaults[i].0 !in opts
    ensures AddDefaults(opts, defaults)[defaults[i].0] == defaults[i].1
    decreases |defaults|
  {
    var init := defaults[..|defaults| - 1];
    if i < |defaults| - 1 {
      assert init[i] == defaults[i];
      AddDefaultsFillsMissing(opts, init, i);
      assert defaults[|defaults| - 1].0 != defaults[i].0;
    }
  }

  /** Adding the same defaults a second time changes nothing. */
  lemma {:induction false} AddDefaultsIdempotent(opts: map<string, OptValue>, defaults: seq<(string, OptValue)>)
    ensures AddDefaults(AddDefaults(opts, defaults), defaults) == AddDefaults(opts, defaults)
  {
    var once := AddDefaults(opts, defaults);
    var twice := AddDefaults(once, defaults);
    assert twice.Keys == once.Keys;
  }

  /** The secret `generate_jwt_secret` leaves: a fresh one exactly when no
      secret is stored, because `add_option` does not replace a stored falsy
      value. */
  function WithSecret(opts: map<string, OptValue>, secret: string): (r: map<string, OptValue>)
    ensures SecretKey in opts ==> r == opts
    ensures SecretKey !in opts ==> r == opts[SecretKey := OStr(secret)]
  {
    // `if (!get_option(...))` skips a truthy secret; `add_option` then refuses any stored one.
    if OptTruthy(GetOption(opts, SecretKey)) || SecretKey in opts then opts else opts[SecretKey := OStr(secret)]
  }

  /** The options after `activate` with the given defaults: the stored
      database version, the defaults, the secret, then the activation flag and
      the plugin version. */
  function ActivatedWith(opts: map<string, OptValue>, secret: string, defaults: seq<(string, OptValue)>): map<string, OptValue>
  {
    var tables := opts[DbVersionKey := OStr(RestConfig.PluginVersion)];
    WithSecret(AddDefaults(tables, defaults), secret)
      [ActivatedKey := OBool(true)][VersionKey := OStr(RestConfig.PluginVersion)]
  }

  /** The options after `activate`. */
  function Activated(opts: map<string, OptValue>, secret: string): map<string, OptValue>
  {
    ActivatedWith(opts, secret, DefaultOptions)
  }

  /** The options table: `get_option`, `add_option`, `update_option`. */
  class SiteOptions {
    var opts: map<string, OptValue>

    constructor (opts: map<string, OptValue>)
      ensures this.opts == opts
    {
      this.opts := opts;
    }

    function Get(key: string): (v: Option<OptValue>)
      reads this
      ensures v == GetOption(opts, key)
    {
      GetOption(opts, key)
    }

    /** `add_option`: refuses a key that exists. */
    method Add(key: string, value: OptValue) returns (added: bool)
      modifies this
      ensures added <==> key !in old(opts)
      ensures opts == if added then old(opts)[key := value] else old(opts)
    {
      if key in opts {
        return false;
      }
      opts := opts[key := value];
      added := true;
    }

    /** `update_option`. */
    method Update(key: string, value: OptValue)
      modifies this
      ensures opts == old(opts)[key := value]
    {
      opts := opts[key := value];
    }
  }

  /** `set_default_options`: for each default, `add_option` when `get_option` is false. */
  method SetDefaultOptions(site: SiteOptions)
    modifies site
    ensures site.opts == AddDefaults(old(site.opts), DefaultOptions)
  {
    AddEach(site, DefaultOptions);
  }

  /** The `foreach` of `set_default_options` over `defaults`. */
  method AddEach(site: SiteOptions, defaults: seq<(string, OptValue)>)
    modifies site
    ensures site.opts == AddDefaults(old(site.opts), defaults)
  {
    var i := 0;
    while i < |defaults|
      invariant 0 <= i <= |defaults|
      invariant site.opts == AddDefaults(old(site.opts), defaults[..i])
    {
      assert defaults[..i + 1][..i] == defaults[..i];
      var (key, value) := defaults[i];
      if site.Get(key).None? {
        var _ := site.Add(key, value);
      }
      i := i + 1;
    }
    assert defaults[..i] == defaults;
  }

  /** `generate_jwt_secret`; `secret` stands for `wp_generate_password(64, true, true)`. */
  method GenerateJwtSecret(site: SiteOptions, secret: string)
    requires |secret| == SecretLength
    modifies site
    ensures site.opts == WithSecret(old(site.opts), secret)
  {
    if !OptTruthy(site.Get(SecretKey)) {
      var _ := site.Add(SecretKey, OStr(secret));
    }
  }

  /** `activate`. */
  method Activate(site: SiteOptions, secret: string)
    requires |secret| == SecretLength
    modifies site
    ensures site.opts == Activated(old(site.opts), secret)
  {
    site.Update(DbVersionKey, OStr(RestConfig.PluginVersion));
    SetDefaultOptions(site);
    GenerateJwtSecret(site, secret);
    site.Update(ActivatedKey, OBool(true));
    site.Update(VersionKey, OStr(RestConfig.PluginVersion));
  }

  lemma DefaultKeysDistinct()
    ensures forall a, b :: 0 <= a < b < |DefaultOptions| ==> DefaultOptions[a].0 != DefaultOptions[b].0
  {
  }

  /** No default shares its key with the secret, the activation flag or the version markers. */
  lemma DefaultKeysReserved()
    ensures forall i :: 0 <= i < |DefaultOptions| ==>
      DefaultOptions[i].0 !in {SecretKey, ActivatedKey, VersionKey, DbVersionKey}
  {
  }

  /** Activation never overwrites a stored option other than the activation
      flag and the two version markers, and always leaves a secret behind. */
  lemma {:induction false} ActivationKeepsSettings(opts: map<string, OptValue>, secret: string)
    requires |secret| == SecretLength
    ensures var after := Activated(opts, secret);
      && (forall k :: k in opts && k != ActivatedKey && k != VersionKey && k != DbVersionKey ==>
            k in after && after[k] == opts[k])
      && SecretKey in after
      && after[ActivatedKey] == OBool(true) && after[VersionKey] == OStr(RestConfig.PluginVersion)
  {
    KeepsSettingsWith(opts, secret, DefaultOptions);
  }

  lemma {:induction false} KeepsSettingsWith(opts: map<string, OptValue>, secret: string, defaults: seq<(string, OptValue)>)
    ensures var after := ActivatedWith(opts, secret, defaults);
      && (forall k :: k in opts && k != ActivatedKey && k != VersionKey && k != DbVersionKey ==>
            k in after && after[k] == opts[k])
      && SecretKey in after
      && DbVersionKey in after && after[DbVersionKey] == OStr(RestConfig.PluginVersion)
      && after[ActivatedKey] == OBool(true) && after[VersionKey] == OStr(RestConfig.PluginVersion)
      && forall i :: 0 <= i < |defaults| ==> defaults[i].0 in after
  {
    var tables := opts[DbVersionKey := OStr(RestConfig.PluginVersion)];
    var added := AddDefaults(tables, defaults);
    var secured := WithSecret(added, secret);
    assert forall k :: k in added ==> k in secured && secured[k] == added[k];
  }

  lemma {:induction false} InstallsDefaultsWith(opts: map<string, OptValue>, secret: string,
                                                defaults: seq<(string, OptValue)>, i: nat)
    requires i < |defaults|
    requires forall a, b :: 0 <= a < b < |defaults| ==> defaults[a].0 != defaults[b].0
    requires defaults[i].0 !in opts
    requires defaults[i].0 !in {SecretKey, ActivatedKey, VersionKey, DbVersionKey}
    ensures ActivatedWith(opts, secret, defaults)[defaults[i].0] == defaults[i].1
  {
    var tables := opts[DbVersionKey := OStr(RestConfig.PluginVersion)];
    AddDefaultsFillsMissing(tables, defaults, i);
  }

  /** Activation gives each missing option its default. */
  lemma {:induction false} ActivationInstallsDefaults(opts: map<string, OptValue>, secret: string, i: nat)
    requires |secret| == SecretLength
    requires i < |DefaultOptions|
    requires DefaultOptions[i].0 !in opts
    ensures Activated(opts, secret)[DefaultOptions[i].0] == DefaultOptions[i].1
  {
    DefaultKeysDistinct();
    DefaultKeysReserved();
    InstallsDefaultsWith(opts, secret, DefaultOptions, i);
  }

  /** Activating on a site without a secret stores the generated one, which
      is truthy, so the plugin then signs tokens with it. */
  lemma {:induction false} FreshSiteGetsSecret(opts: map<string, OptValue>, secret: string)
    requires |secret| == SecretLength
    requires SecretKey !in opts
    ensures GetOption(Activated(opts, secret), SecretKey) == Some(OStr(secret))
    ensures OptTruthy(GetOption(Activated(opts, secret), SecretKey))
  {
    DefaultKeysReserved();
    FreshSecretWith(opts, secret, DefaultOptions);
  }

  lemma {:induction false} FreshSecretWith(opts: map<string, OptValue>, secret: string, defaults: seq<(string, OptValue)>)
    requires SecretKey !in opts
    requires forall i :: 0 <= i < |defaults| ==> defaults[i].0 != SecretKey
    ensures GetOption(ActivatedWith(opts, secret, defaults), SecretKey) == Some(OStr(secret))
  {
    var tables := opts[DbVersionKey := OStr(RestConfig.PluginVersion)];
    assert SecretKey !in AddDefaults(tables, defaults);
  }

  /** A stored but empty secret survives activation: `generate_jwt_secret`
      calls `add_option`, which leaves an existing key alone. */
  lemma {:induction false} EmptySecretSurvives(opts: map<string, OptValue>, secret: string)
    requires |secret| == SecretLength
    requires SecretKey in opts && opts[SecretKey] == OStr("")
    ensures GetOption(Activated(opts, secret), SecretKey) == Some(OStr(""))
  {
    KeepsSettingsWith(opts, secret, DefaultOptions);
  }

  /** Activating a second time, with any secret, changes nothing. */
  lemma {:induction false} ActivateIdempotent(opts: map<string, OptValue>, secret1: string, secret2: string)
    requires |secret1| == SecretLength && |secret2| == SecretLength
    ensures Activated(Activated(opts, secret1), secret2) == Activated(opts, secret1)
  {
    IdempotentWith(opts, secret1, secret2, DefaultOptions);
  }

  lemma {:induction false} IdempotentWith(opts: map<string, OptValue>, secret1: string, secret2: string,
                                          defaults: seq<(string, OptValue)>)
    ensures ActivatedWith(ActivatedWith(opts, secret1, defaults), secret2, defaults) == ActivatedWith(opts, secret1, defaults)
  {
    var once := ActivatedWith(opts, secret1, defaults);
    KeepsSettingsWith(opts, secret1, defaults);
    // The database version is already stored, so re-storing it is no change;
    // every default key and the secret are already present, so nothing is added.
    var tables := once[DbVersionKey := OStr(RestConfig.PluginVersion)];
    assert tables == once;
    AddDefaultsNoop(once, defaults);
  }

  /** Defaults whose keys are all present add nothing. */
  lemma {:induction false} AddDefaultsNoop(opts: map<string, OptValue>, defaults: seq<(string, OptValue)>)
    requires forall i :: 0 <= i < |defaults| ==> defaults[i].0 in opts
    ensures AddDefaults(opts, defaults) == opts
  {
    var r := AddDefaults(opts, defaults);
    assert r.Keys == opts.Keys;
  }

  /** After activating a site that had never set a minimum app version, the
      version check compares against `1.0.0`. */
  lemma {:induction false} ActivatedMinimumVersion(opts: map<string, OptValue>, secret: string)
    requires |secret| == SecretLength
    requires RestConfig.MinVersionKey !in opts
    ensures RestConfig.MinVersion(Activated(opts, secret)) == OStr(RestConfig.DefaultMinVersion)
  {
    assert DefaultOptions[5] == (RestConfig.MinVersionKey, OStr("1.0.0"));
    ActivationInstallsDefaults(opts, secret, 5);
  }
}
