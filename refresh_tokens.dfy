/** `ZAOBank_JWT_Tokens`, refresh-token half: the `zaobank_mobile_refresh_tokens`
    table and the four operations on it. The table is a sequence of rows in
    insertion (auto-increment) order; time is an explicit argument; the random
    token and its salted hash are arguments, and `wp_check_password` is the
    store's `check` function. */
module RefreshTokens {

  import opened Common
  import JwtAuth

  const DaySeconds: int := 86400

  datatype Row = Row(
    id: nat,
    userId: int,
    tokenHash: string,
    deviceInfo: string,
    expiresAt: int,
    createdAt: int,
    lastUsedAt: Option<int>,
    revokedAt: Option<int>)

  /** What `generate_refresh_token` returns: the plaintext, its expiry and the row id. */
  datatype Issued = Issued(token: string, expiresAt: int, id: nat)

  const InvalidRefreshToken := WpError("invalid_refresh_token", None)

  /** `expires_at > now AND revoked_at IS NULL`. */
  predicate Live(r: Row, now: int)
  {
    r.expiresAt > now && r.revokedAt.None?
  }

  /** Rows `validate_refresh_token` accepts for `token` at `now`. */
  function LiveMatch(token: string, now: int, check: (string, string) -> bool): Row -> bool
  {
    (r: Row) => Live(r, now) && check(token, r.tokenHash)
  }

  /** Rows `revoke_refresh_token` accepts for `token`: expired ones included. */
  function UnrevokedMatch(token: string, check: (string, string) -> bool): Row -> bool
  {
    (r: Row) => r.revokedAt.None? && check(token, r.tokenHash)
  }

  /** The row `generate_refresh_token` inserts; the device text goes through
      `sanitize_text_field` first. */
  function NewRow(id: nat, userId: int, tokenHash: string, deviceInfo: string, now: int, days: int): (r: Row)
    ensures r.revokedAt.None? && r.lastUsedAt.None?
    ensures r.expiresAt - r.createdAt == days * DaySeconds
    ensures JwtAuth.NoBreaks(r.deviceInfo)
    ensures |r.deviceInfo| > 0 ==> !JwtAuth.IsTrimmed(r.deviceInfo[0]) && !JwtAuth.IsTrimmed(r.deviceInfo[|r.deviceInfo| - 1])
  {
    JwtAuth.SanitizeTextShape(deviceInfo);
    Row(id, userId, tokenHash, JwtAuth.SanitizeText(deviceInfo), now + days * DaySeconds, now, None, None)
  }

  /** Stamp `last_used_at` on row `k`. */
  function Touch(rows: seq<Row>, k: nat, now: int): seq<Row>
    requires k < |rows|
  {
    rows[k := rows[k].(lastUsedAt := Some(now))]
  }

  /** Stamp `revoked_at` on row `k`. */
  function RevokeAt(rows: seq<Row>, k: nat, now: int): seq<Row>
    requires k < |rows|
  {
    rows[k := rows[k].(revokedAt := Some(now))]
  }

  /** `UPDATE ... SET revoked_at = now WHERE user_id = u AND revoked_at IS NULL`. */
  function RevokeAllOf(rows: seq<Row>, userId: int, now: int): (r: seq<Row>)
    ensures |r| == |rows|
    ensures forall i :: 0 <= i < |rows| && rows[i].userId != userId ==> r[i] == rows[i]
    ensures forall i :: 0 <= i < |rows| && rows[i].revokedAt.Some? ==> r[i] == rows[i]
    ensures forall i :: 0 <= i < |rows| && rows[i].userId == userId ==> r[i].revokedAt.Some?
    ensures forall i :: 0 <= i < |rows| ==> r[i].(revokedAt := rows[i].revokedAt) == rows[i]
  {
    seq(|rows|, i requires 0 <= i < |rows| =>
      if rows[i].userId == userId && rows[i].revokedAt.None? then rows[i].(revokedAt := Some(now)) else rows[i])
  }

  /** The rows of `userId` still unrevoked: what `revoke_all_user_tokens` reports. */
  function CountUnrevoked(rows: seq<Row>, userId: int): (n: nat)
    ensures n <= |rows|
    ensures n == 0 <==> forall i :: 0 <= i < |rows| ==> !(rows[i].userId == userId && rows[i].revokedAt.None?)
    decreases |rows|
  {
    if |rows| == 0 then 0
    else (if rows[0].userId == userId && rows[0].revokedAt.None? then 1 else 0) + CountUnrevoked(rows[1..], userId)
  }

  /** No revocation is ever undone: every revoked row keeps its `revoked_at`. */
  ghost predicate RevocationsKept(before: seq<Row>, after: seq<Row>)
  {
    |before| <= |after| &&
    forall i :: 0 <= i < |before| && before[i].revokedAt.Some? ==> after[i].revokedAt == before[i].revokedAt
  }

  /** Every row but row `k` is unchanged. */
  ghost predicate SameExceptAt(before: seq<Row>, after: seq<Row>, k: nat)
  {
    |before| == |after| && forall i :: 0 <= i < |before| && i != k ==> after[i] == before[i]
  }

  // ---------------------------------------------------------------------------
  // The table

  class Store {
    /** `wp_check_password($token, $hash)`. */
    const check: (string, string) -> bool
    var rows: seq<Row>
    /** The next auto-increment id. */
    var nextId: nat

    ghost predicate Valid()
      reads this
    {
      && nextId >= 1
      && (forall i :: 0 <= i < |rows| ==> 1 <= rows[i].id < nextId)
      && (forall i, j :: 0 <= i < j < |rows| ==> rows[i].id < rows[j].id)
    }

    constructor (check: (string, string) -> bool)
      ensures Valid() && this.check == check && rows == [] && nextId == 1
    {
      this.check := check;
      rows := [];
      nextId := 1;
    }

    /** `generate_refresh_token`: one row holding the hash, never the plaintext. */
    method GenerateRefreshToken(userId: int, deviceInfo: string, token: string, tokenHash: string,
                                now: int, days: int) returns (issued: Issued)
      requires Valid()
      modifies this
      ensures Valid()
      ensures rows == old(rows) + [NewRow(old(nextId), userId, tokenHash, deviceInfo, now, days)]
      ensures nextId == old(nextId) + 1
      ensures issued == Issued(token, now + days * DaySeconds, old(nextId))
    {
      rows := rows + [NewRow(nextId, userId, tokenHash, deviceInfo, now, days)];
      issued := Issued(token, now + days * DaySeconds, nextId);
      nextId := nextId + 1;
    }

    /** `validate_refresh_token`: the first live row whose hash accepts the token
        gets `last_used_at = now` and its user is returned; otherwise nothing changes. */
    method ValidateRefreshToken(token: string, now: int) returns (r: Result<int>)
      requires Valid()
      modifies this
      ensures Valid() && nextId == old(nextId)
      ensures match FirstIndex(old(rows), LiveMatch(token, now, check))
        case None => r == Err(InvalidRefreshToken) && rows == old(rows)
        case Some(k) => r == Ok(old(rows)[k].userId) && rows == Touch(old(rows), k, now)
      ensures RevocationsKept(old(rows), rows)
    {
      var i := 0;
      while i < |rows|
        invariant 0 <= i <= |rows| && rows == old(rows)
        invariant forall j :: 0 <= j < i ==> !LiveMatch(token, now, check)(rows[j])
      {
        if Live(rows[i], now) && check(token, rows[i].tokenHash) {
          r := Ok(rows[i].userId);
          rows := Touch(rows, i, now);
          return;
        }
        i := i + 1;
      }
      r := Err(InvalidRefreshToken);
    }

    /** `revoke_refresh_token`: the first unrevoked row (expired or not) whose hash
        accepts the token gets `revoked_at = now`; reports whether one did. */
    method RevokeRefreshToken(token: string, now: int) returns (revoked: bool)
      requires Valid()
      modifies this
      ensures Valid() && nextId == old(nextId)
      ensures match FirstIndex(old(rows), UnrevokedMatch(token, check))
        case None => !revoked && rows == old(rows)
        case Some(k) => revoked && rows == RevokeAt(old(rows), k, now)
      ensures RevocationsKept(old(rows), rows)
    {
      var i := 0;
      while i < |rows|
        invariant 0 <= i <= |rows| && rows == old(rows)
        invariant forall j :: 0 <= j < i ==> !UnrevokedMatch(token, check)(rows[j])
      {
        if rows[i].revokedAt.None? && check(token, rows[i].tokenHash) {
          rows := RevokeAt(rows, i, now);
          return true;
        }
        i := i + 1;
      }
      revoked := false;
    }

    /** `revoke_all_user_tokens`: revokes every unrevoked row of the user and
        returns how many it revoked. */
    method RevokeAllUserTokens(userId: int, now: int) returns (count: nat)
      requires Valid()
      modifies this
      ensures Valid() && nextId == old(nextId)
      ensures rows == RevokeAllOf(old(rows), userId, now)
      ensures count == CountUnrevoked(old(rows), userId)
      ensures RevocationsKept(old(rows), rows)
    {
      count := CountUnrevoked(rows, userId);
      rows := RevokeAllOf(rows, userId, now);
    }
  }

  // ---------------------------------------------------------------------------
  // Properties of the table operations

  /** Validation touches at most one row and never its revocation. */
  lemma TouchChangesOnlyLastUsed(rows: seq<Row>, k: nat, now: int)
    requires k < |rows|
    ensures SameExceptAt(rows, Touch(rows, k, now), k)
    ensures Touch(rows, k, now)[k].(lastUsedAt := rows[k].lastUsedAt) == rows[k]
    ensures RevocationsKept(rows, Touch(rows, k, now))
  {
  }

  /** A freshly issued token validates, for the user it was issued to, as soon as
      it is issued, provided its lifetime is positive and no older live row
      accepts the same plaintext. */
  lemma {:induction false} IssueThenValidate(rows: seq<Row>, id: nat, userId: int, token: string, tokenHash: string,
                                             deviceInfo: string, now: int, days: int, check: (string, string) -> bool)
    requires check(token, tokenHash)
    requires days >= 1
    requires FirstIndex(rows, LiveMatch(token, now, check)).None?
    ensures var after := rows + [NewRow(id, userId, tokenHash, deviceInfo, now, days)];
            FirstIndex(after, LiveMatch(token, now, check)) == Some(|rows|) && after[|rows|].userId == userId
  {
    var row := NewRow(id, userId, tokenHash, deviceInfo, now, days);
    FirstIndexAppend(rows, row, LiveMatch(token, now, check));
    assert LiveMatch(token, now, check)(row);
  }

  /** A row issued with a lifetime of zero days or less is expired at its own
      creation: it can never validate at or after the second it was issued. */
  lemma ShortLivedRowNeverLive(id: nat, userId: int, tokenHash: string, deviceInfo: string, now: int, days: int, later: int)
    requires days <= 0 && later >= now
    ensures !Live(NewRow(id, userId, tokenHash, deviceInfo, now, days), later)
  {
  }

  /** Revocation of a token that only one row accepts makes it fail validation at
      any later time, and a second revocation finds nothing (returns false). */
  lemma {:induction false} RevokeIsFinal(rows: seq<Row>, token: string, now: int, later: int, check: (string, string) -> bool)
    requires FirstIndex(rows, UnrevokedMatch(token, check)).Some?
    requires forall i, j :: 0 <= i < j < |rows| && check(token, rows[i].tokenHash) ==> !check(token, rows[j].tokenHash)
    ensures var k := FirstIndex(rows, UnrevokedMatch(token, check)).value;
            var after := RevokeAt(rows, k, now);
            && FirstIndex(after, LiveMatch(token, later, check)).None?
            && FirstIndex(after, UnrevokedMatch(token, check)).None?
  {
    var k := FirstIndex(rows, UnrevokedMatch(token, check)).value;
    var after := RevokeAt(rows, k, now);
    forall j | 0 <= j < |after|
      ensures !LiveMatch(token, later, check)(after[j]) && !UnrevokedMatch(token, check)(after[j])
    {
      assert check(token, rows[k].tokenHash);
      if j < k {
        assert after[j] == rows[j];
      } else if j > k {
        assert after[j] == rows[j];
        assert !check(token, rows[j].tokenHash);
      } else {
        assert after[j].revokedAt.Some?;
      }
    }
  }

  /** After `revoke_all_user_tokens`, no token validates to that user any more,
      while the other users' tokens validate exactly as before. */
  lemma {:induction false} RevokeAllBlocksUser(rows: seq<Row>, userId: int, token: string, now: int, later: int,
                                               check: (string, string) -> bool)
    ensures var after := RevokeAllOf(rows, userId, now);
            forall i :: 0 <= i < |after| && LiveMatch(token, later, check)(after[i]) ==>
              after[i].userId != userId && rows[i] == after[i]
  {
    var after := RevokeAllOf(rows, userId, now);
    forall i | 0 <= i < |after| && LiveMatch(token, later, check)(after[i])
      ensures after[i].userId != userId && rows[i] == after[i]
    {
      assert after[i].(revokedAt := rows[i].revokedAt) == rows[i];
      assert after[i].userId == rows[i].userId;
      assert Live(after[i], later);
      assert rows[i].userId != userId;
    }
  }

  /** The revocation count of `revoke_all_user_tokens` is the number of rows it changes. */
  lemma {:induction false} RevokeAllCountsChanges(rows: seq<Row>, userId: int, now: int)
    ensures CountUnrevoked(rows, userId) == |ChangedIndices(rows, RevokeAllOf(rows, userId, now))|
    decreases |rows|
  {
    if |rows| > 0 {
      var after := RevokeAllOf(rows, userId, now);
      RevokeAllOfTail(rows, userId, now);
      RevokeAllCountsChanges(rows[1..], userId, now);
      ChangedIndicesCons(rows, after);
    }
  }

  lemma RevokeAllOfTail(rows: seq<Row>, userId: int, now: int)
    requires |rows| > 0
    ensures RevokeAllOf(rows, userId, now)[1..] == RevokeAllOf(rows[1..], userId, now)
  {
  }

  /** Indices at which two equally long tables differ, as a list. */
  function ChangedIndices(before: seq<Row>, after: seq<Row>): seq<nat>
    requires |before| == |after|
    decreases |before|
  {
    if |before| == 0 then []
    else (if before[0] != after[0] then [0] else [])
         + seq(|ChangedIndices(before[1..], after[1..])|, i requires 0 <= i < |ChangedIndices(before[1..], after[1..])| =>
               ChangedIndices(before[1..], after[1..])[i] + 1)
  }

  lemma ChangedIndicesCons(before: seq<Row>, after: seq<Row>)
    requires |before| == |after| > 0
    ensures |ChangedIndices(before, after)| ==
      (if before[0] != after[0] then 1 else 0) + |ChangedIndices(before[1..], after[1..])|
  {
  }
}
