/** Shared vocabulary of the plugin model: optional values, WordPress errors,
    PHP string truthiness, the options table and the user directory. */
module Common {

  datatype Option<+T> = None | Some(value: T)

  /** A function result that is either a value or a WordPress error. */
  datatype Result<+T> = Ok(value: T) | Err(error: WpError)

  /** A `WP_Error`: its code and the `status` entry of its data, if any. */
  datatype WpError = WpError(code: string, status: Option<int>)

  function ErrorWithStatus(code: string, status: int): (e: WpError)
    ensures e.code == code && e.status == Some(status)
  {
    WpError(code, Some(status))
  }

  /** PHP `empty()` on a string: only "" and "0" are empty. */
  predicate EmptyStr(s: string)
  {
    s == "" || s == "0"
  }

  /** First index of `s` whose element satisfies `p`, if any. */
  function FirstIndex<T>(s: seq<T>, p: T -> bool): (k: Option<nat>)
    ensures k.Some? ==> k.value < |s| && p(s[k.value])
    ensures k.Some? ==> forall j :: 0 <= j < k.value ==> !p(s[j])
    ensures k.None? ==> forall j :: 0 <= j < |s| ==> !p(s[j])
    decreases |s|
  {
    if |s| == 0 then None
    else if p(s[0]) then Some(0)
    else match FirstIndex(s[1..], p)
      case None => None
      case Some(i) => Some(i + 1)
  }

  /** Appending an element changes the first match only when the prefix had none. */
  lemma {:induction false} FirstIndexAppend<T>(s: seq<T>, x: T, p: T -> bool)
    ensures FirstIndex(s + [x], p) ==
      if FirstIndex(s, p).Some? then FirstIndex(s, p)
      else if p(x) then Some(|s|) else None
  {
    var k := FirstIndex(s + [x], p);
    if FirstIndex(s, p).Some? {
      var i := FirstIndex(s, p).value;
      assert (s + [x])[i] == s[i];
      assert k.Some? && k.value <= i;
      assert forall j :: 0 <= j < i ==> (s + [x])[j] == s[j];
    } else if p(x) {
      assert (s + [x])[|s|] == x;
      assert forall j :: 0 <= j < |s| ==> (s + [x])[j] == s[j];
    } else {
      assert forall j :: 0 <= j < |s| + 1 ==> !p((s + [x])[j]);
    }
  }

  /** A stored site option (`wp_options` row value). */
  datatype OptValue = OStr(s: string) | OInt(i: int) | OBool(b: bool)

  /** PHP truthiness of a value read from the options table. */
  predicate OptTruthy(v: Option<OptValue>)
  {
    match v
    case None => false
    case Some(OStr(s)) => !EmptyStr(s)
    case Some(OInt(i)) => i != 0
    case Some(OBool(b)) => b
  }

  /** `get_option($key)`: the stored value, or PHP `false` (None) when absent. */
  function GetOption(opts: map<string, OptValue>, key: string): (v: Option<OptValue>)
    ensures v.Some? <==> key in opts
    ensures v.Some? ==> v.value == opts[key]
  {
    if key in opts then Some(opts[key]) else None
  }

  /** `get_option($key, $default)`. */
  function GetOptionOr(opts: map<string, OptValue>, key: string, default: OptValue): (v: OptValue)
    ensures key in opts ==> v == opts[key]
    ensures key !in opts ==> v == default
  {
    if key in opts then opts[key] else default
  }

  /** A WordPress user as the model needs it. */
  datatype UserProfile = UserProfile(login: string, email: string, displayName: string)

  /** `get_user_by('ID', $id)`: ids below 1 never resolve. */
  function FindUser(users: map<int, UserProfile>, id: int): (u: Option<UserProfile>)
    ensures u.Some? <==> id >= 1 && id in users
    ensures u.Some? ==> u.value == users[id]
  {
    if id >= 1 && id in users then Some(users[id]) else None
  }

  // ---------------------------------------------------------------------------
  // Decimal numerals

  /** PHP's decimal rendering of a natural number. */
  function Digits(n: nat): (s: string)
    ensures |s| >= 1
    decreases n
  {
    var d := ((n % 10) + '0' as int) as char;
    if n < 10 then [d] else Digits(n / 10) + [d]
  }

  /** A non-empty string of ASCII digits. */
  predicate IsDecimal(s: string)
  {
    |s| > 0 && forall i :: 0 <= i < |s| ==> '0' <= s[i] <= '9'
  }

  /** `intval` of a string of ASCII digits (leading zeros are ignored). */
  function DecimalValue(s: string): (n: nat)
    requires forall i :: 0 <= i < |s| ==> '0' <= s[i] <= '9'
  {
    if |s| == 0 then 0 else DecimalValue(s[..|s| - 1]) * 10 + (s[|s| - 1] as int - '0' as int)
  }

  /** Reading back a rendered number gives the number. */
  lemma {:induction false} DecimalOfDigits(n: nat)
    ensures IsDecimal(Digits(n)) && DecimalValue(Digits(n)) == n
    decreases n
  {
    if n >= 10 {
      DecimalOfDigits(n / 10);
      var s := Digits(n);
      assert s[..|s| - 1] == Digits(n / 10);
    }
  }
}
