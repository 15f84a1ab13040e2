/** The URL-safe, unpadded base64 of `ZAOBank_JWT_Tokens` (section 5 of RFC 4648),
    built the way the plugin builds it: standard `base64_encode`, then `+/` mapped
    to `-_`, then trailing `=` trimmed; and back: re-pad to a multiple of four,
    map `-_` to `+/`, then PHP's non-strict `base64_decode`, which skips `=` and
    every character outside the alphabet and never fails. */
module Base64Url {

  import opened Common

  type byte = bv8

  /** A six-bit group, the unit one base64 character carries. */
  type Sextet = x: bv8 | x < 64

  // ---------------------------------------------------------------------------
  // Bytes <-> sextets

  /** The sextets of `b`: four per three bytes, two or three for a short tail. */
  function Sextets(b: seq<byte>): (s: seq<Sextet>)
    ensures |s| == (|b| / 3) * 4 + (if |b| % 3 == 0 then 0 else |b| % 3 + 1)
    decreases |b|
  {
    if |b| == 0 then []
    else if |b| == 1 then [b[0] >> 2, (b[0] & 3) << 4]
    else if |b| == 2 then [b[0] >> 2, ((b[0] & 3) << 4) | (b[1] >> 4), (b[1] & 15) << 2]
    else [b[0] >> 2, ((b[0] & 3) << 4) | (b[1] >> 4), ((b[1] & 15) << 2) | (b[2] >> 6), b[2] & 63]
         + Sextets(b[3..])
  }

  /** What PHP's decoder makes of a run of sextets: three bytes per four, one
      byte for a tail of two, two for a tail of three, nothing for a lone sextet. */
  function FromSextets(s: seq<Sextet>): seq<byte>
    decreases |s|
  {
    if |s| < 2 then []
    else if |s| == 2 then [(s[0] << 2) | (s[1] >> 4)]
    else if |s| == 3 then [(s[0] << 2) | (s[1] >> 4), (s[1] << 4) | (s[2] >> 2)]
    else [(s[0] << 2) | (s[1] >> 4), (s[1] << 4) | (s[2] >> 2), (s[2] << 6) | s[3]]
         + FromSextets(s[4..])
  }

  lemma {:induction false} SextetsRoundTrip(b: seq<byte>)
    ensures FromSextets(Sextets(b)) == b
    decreases |b|
  {
    if |b| >= 3 {
      var s := Sextets(b);
      assert s[4..] == Sextets(b[3..]);
      SextetsRoundTrip(b[3..]);
      assert b == b[..3] + b[3..];
    }
  }

  // ---------------------------------------------------------------------------
  // Sextets <-> characters of the standard alphabet

  /** `A-Z a-z 0-9 + /`. */
  function StdChar(x: Sextet): char
  {
    if x < 26 then ('A' as int + x as int) as char
    else if x < 52 then ('a' as int + (x as int - 26)) as char
    else if x < 62 then ('0' as int + (x as int - 52)) as char
    else if x == 62 then '+'
    else '/'
  }

  /** The decoder's reverse table: the sextet of a standard-alphabet character. */
  function StdSextet(c: char): Option<Sextet>
  {
    if 'A' <= c <= 'Z' then Some((c as int - 'A' as int) as bv8)
    else if 'a' <= c <= 'z' then Some((c as int - 'a' as int + 26) as bv8)
    else if '0' <= c <= '9' then Some((c as int - '0' as int + 52) as bv8)
    else if c == '+' then Some(62)
    else if c == '/' then Some(63)
    else None
  }

  lemma StdSextetOfStdChar(x: Sextet)
    ensures StdSextet(StdChar(x)) == Some(x)
  {
  }

  // ---------------------------------------------------------------------------
  // The three steps of base64url_encode

  /** PHP `base64_encode`: standard alphabet, padded with `=` to a multiple of four. */
  function Base64Encode(b: seq<byte>): seq<char>
  {
    var s := Sextets(b);
    seq(|s|, i requires 0 <= i < |s| => StdChar(s[i])) + PadFor(|b|)
  }

  function PadFor(n: nat): seq<char>
  {
    if n % 3 == 1 then "==" else if n % 3 == 2 then "=" else ""
  }

  /** `strtr($s, "xy", "x'y'")`: every x becomes x' and every y becomes y'.
      The encoder swaps `+/` for `-_` and the decoder swaps them back. */
  function Strtr(s: seq<char>, x: char, x': char, y: char, y': char): (r: seq<char>)
    ensures |r| == |s|
  {
    seq(|s|, i requires 0 <= i < |s| => if s[i] == x then x' else if s[i] == y then y' else s[i])
  }

  /** Swapping back undoes a swap whenever the targets were not already in the text. */
  lemma StrtrUndo(s: seq<char>, x: char, x': char, y: char, y': char)
    requires x' != y'
    requires forall i :: 0 <= i < |s| ==> s[i] != x' && s[i] != y'
    ensures Strtr(Strtr(s, x, x', y, y'), x', x, y', y) == s
  {
    var t := Strtr(s, x, x', y, y');
    var back := Strtr(t, x', x, y', y);
    forall i | 0 <= i < |s| ensures back[i] == s[i] {
      assert t[i] == (if s[i] == x then x' else if s[i] == y then y' else s[i]);
    }
  }

  /** `rtrim($s, '=')`. */
  function TrimPad(s: seq<char>): seq<char>
    decreases |s|
  {
    if |s| > 0 && s[|s| - 1] == '=' then TrimPad(s[..|s| - 1]) else s
  }

  /** `base64url_encode`. */
  function Encode(b: seq<byte>): seq<char>
  {
    TrimPad(Strtr(Base64Encode(b), '+', '-', '/', '_'))
  }

  // ---------------------------------------------------------------------------
  // The three steps of base64url_decode

  /** Re-pad with `=` to a multiple of four. */
  function Repad(s: seq<char>): seq<char>
  {
    if |s| % 4 != 0 then s + seq(4 - |s| % 4, _ => '=') else s
  }

  /** The sextets the non-strict decoder keeps: `=` and unknown characters are skipped. */
  function KeptSextets(s: seq<char>): seq<Sextet>
    decreases |s|
  {
    if |s| == 0 then []
    else match StdSextet(s[0])
      case None => KeptSextets(s[1..])
      case Some(x) => [x] + KeptSextets(s[1..])
  }

  /** PHP `base64_decode($s)` in non-strict mode. */
  function Base64Decode(s: seq<char>): seq<byte>
  {
    FromSextets(KeptSextets(s))
  }

  /** `base64url_decode`. Total: PHP's non-strict decoder never reports failure. */
  function Decode(s: seq<char>): seq<byte>
  {
    Base64Decode(Strtr(Repad(s), '-', '+', '_', '/'))
  }

  // ---------------------------------------------------------------------------
  // Properties

  /** The URL alphabet: the characters `Encode` may emit. */
  predicate UrlChar(c: char)
  {
    ('A' <= c <= 'Z') || ('a' <= c <= 'z') || ('0' <= c <= '9') || c == '-' || c == '_'
  }

  function UrlChars(s: seq<Sextet>): (r: seq<char>)
    ensures |r| == |s|
  {
    seq(|s|, i requires 0 <= i < |s| => var c := StdChar(s[i]); if c == '+' then '-' else if c == '/' then '_' else c)
  }

  lemma {:induction false} TrimPadDropsPadding(u: seq<char>, pad: seq<char>)
    requires forall i :: 0 <= i < |u| ==> UrlChar(u[i])
    requires forall i :: 0 <= i < |pad| ==> pad[i] == '='
    ensures TrimPad(u + pad) == u
    decreases |pad|
  {
    if |pad| == 0 {
      assert u + pad == u;
      if |u| > 0 { assert UrlChar(u[|u| - 1]); }
    } else {
      assert (u + pad)[..|u + pad| - 1] == u + pad[..|pad| - 1];
      TrimPadDropsPadding(u, pad[..|pad| - 1]);
    }
  }

  /** The encoder emits exactly the URL characters of the sextets, with no padding. */
  lemma EncodeIsUrlChars(b: seq<byte>)
    ensures Encode(b) == UrlChars(Sextets(b))
    ensures forall i :: 0 <= i < |Encode(b)| ==> UrlChar(Encode(b)[i])
  {
    var s := Sextets(b);
    var std := seq(|s|, i requires 0 <= i < |s| => StdChar(s[i]));
    assert Base64Encode(b) == std + PadFor(|b|);
    assert Strtr(std + PadFor(|b|), '+', '-', '/', '_') == UrlChars(s) + PadFor(|b|);
    TrimPadDropsPadding(UrlChars(s), PadFor(|b|));
  }

  /** `base64url_encode` never emits `+`, `/`, `=` (nor the `.` that separates token segments). */
  lemma EncodeAlphabet(b: seq<byte>)
    ensures forall i :: 0 <= i < |Encode(b)| ==>
      Encode(b)[i] != '+' && Encode(b)[i] != '/' && Encode(b)[i] != '=' && Encode(b)[i] != '.'
  {
    EncodeIsUrlChars(b);
  }

  lemma {:induction false} KeptSextetsAppend(a: seq<char>, c: seq<char>)
    ensures KeptSextets(a + c) == KeptSextets(a) + KeptSextets(c)
    decreases |a|
  {
    if |a| > 0 {
      assert (a + c)[1..] == a[1..] + c;
      KeptSextetsAppend(a[1..], c);
    } else {
      assert a + c == c;
    }
  }

  lemma {:induction false} KeptSextetsOfStd(s: seq<Sextet>)
    ensures KeptSextets(seq(|s|, i requires 0 <= i < |s| => StdChar(s[i]))) == s
    decreases |s|
  {
    var cs := seq(|s|, i requires 0 <= i < |s| => StdChar(s[i]));
    if |s| > 0 {
      StdSextetOfStdChar(s[0]);
      assert cs[1..] == seq(|s[1..]|, i requires 0 <= i < |s[1..]| => StdChar(s[1..][i]));
      KeptSextetsOfStd(s[1..]);
      assert s == [s[0]] + s[1..];
    }
  }

  lemma {:induction false} KeptSextetsOfPadding(pad: seq<char>)
    requires forall i :: 0 <= i < |pad| ==> pad[i] == '='
    ensures KeptSextets(pad) == []
    decreases |pad|
  {
    if |pad| > 0 {
      KeptSextetsOfPadding(pad[1..]);
    }
  }

  /** `base64url_decode` inverts `base64url_encode` on every byte string. */
  lemma DecodeEncode(b: seq<byte>)
    ensures Decode(Encode(b)) == b
  {
    var s := Sextets(b);
    EncodeIsUrlChars(b);
    var u := UrlChars(s);
    var padded := Repad(u);
    var pad := padded[|u|..];
    assert padded == u + pad;
    assert forall i :: 0 <= i < |pad| ==> pad[i] == '=';
    var std := seq(|s|, i requires 0 <= i < |s| => StdChar(s[i]));
    assert Strtr(u + pad, '-', '+', '_', '/') == std + pad;
    KeptSextetsAppend(std, pad);
    KeptSextetsOfStd(s);
    KeptSextetsOfPadding(pad);
    assert KeptSextets(std + pad) == s;
    SextetsRoundTrip(b);
  }
}
