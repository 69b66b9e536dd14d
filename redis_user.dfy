/**
 * The four cache facades over the shared store: verification codes,
 * the token blacklist, the user-profile cache and the per-IP e-mail rate
 * limit. Writers are methods on the store object; readers are functions
 * of the store's observable state, so that what a later read returns can
 * be stated about the state a write leaves behind.
 */
module RedisUser {
  import opened Wrappers
  import opened Errno
  import opened GoStrings
  import opened Kv
  import opened Collaborators

  const CodeTtl := 10 * Minute
  const BlacklistTtl := 72 * Hour
  const RateLimitTtl := 1 * Minute

  /** The value stored for a blacklisted token. */
  const BlacklistMark := "blacklisted"
  /** The value stored for a rate-limited address; only its presence matters. */
  const RateLimitMark := "1"

  const UserKeyPrefix := "user:"
  const RateLimitKeyPrefix := "email_rate_limit:"

  /** `fmt.Sprintf("%s_%d", code, time.Now().Unix())` with the clock in milliseconds. */
  function CodeValue(code: string, now: int): (value: string)
    ensures |value| > |code| && value[..|code|] == code && value[|code|] == '_'
    ensures value[|code| + 1..] == FormatInt(now / Second)
  {
    code + "_" + FormatInt(now / Second)
  }

  /** `fmt.Sprintf("user:%s", userId)`. */
  function UserKey(userId: string): (key: string)
    ensures |key| == |UserKeyPrefix| + |userId|
    ensures key[..|UserKeyPrefix|] == UserKeyPrefix && key[|UserKeyPrefix|..] == userId
  {
    UserKeyPrefix + userId
  }

  /** `fmt.Sprintf("email_rate_limit:%s", ip)`. */
  function RateLimitKey(ip: string): (key: string)
    ensures |key| == |RateLimitKeyPrefix| + |ip|
    ensures key[..|RateLimitKeyPrefix|] == RateLimitKeyPrefix && key[|RateLimitKeyPrefix|..] == ip
  {
    RateLimitKeyPrefix + ip
  }

  // ------------------------------------------------------- verification codes

  /**
   * GetCodeCache: the part before the single '_' of the value stored
   * under `key`. Any failed read, an absent or expired key included, is
   * the same read error; a value without exactly one '_' is a format error.
   */
  function GetCodeCache(v: View, key: string): (r: Result<string, Error>)
    ensures r.Ok? <==> v.Get(key).Hit? && Count(v.Get(key).value, '_') == 1
    ensures r.Ok? ==>
      var stored := v.Get(key).value;
      '_' !in r.value && |r.value| < |stored| && stored == r.value + "_" + stored[|r.value| + 1..]
      && '_' !in stored[|r.value| + 1..]
    ensures r.Err? ==>
      r.error == ErrNo(InternalRedisErrorCode, if v.Get(key).Hit? then CodeMalformed else CodeReadFailed)
  {
    match v.Get(key)
    case Hit(value) =>
      var parts := Split(value, '_');
      if |parts| != 2 then Err(ErrNo(InternalRedisErrorCode, CodeMalformed))
      else
        assert Join(parts, '_') == parts[0] + "_" + parts[1];
        assert '_' !in parts[1];
        Ok(parts[0])
    case _ => Err(ErrNo(InternalRedisErrorCode, CodeReadFailed))
  }

  /** PutCodeToCache: store `code_<unix seconds>` under the bare key for ten minutes. */
  method PutCodeToCache(rdb: Store, key: string, code: string) returns (err: Option<Error>)
    modifies rdb
    ensures rdb.Snapshot() == old(rdb.Snapshot()).Put(key, CodeValue(code, old(rdb.now)), CodeTtl)
    ensures err == if old(rdb.up) then None else Some(ErrNo(InternalRedisErrorCode, CodeWriteFailed))
  {
    var ok := rdb.Set(key, CodeValue(code, rdb.now), CodeTtl);
    err := if ok then None else Some(ErrNo(InternalRedisErrorCode, CodeWriteFailed));
  }

  /** DeleteCodeCache: remove the key unconditionally. */
  method DeleteCodeCache(rdb: Store, key: string) returns (err: Option<Error>)
    modifies rdb
    ensures rdb.Snapshot() == old(rdb.Snapshot()).Remove(key)
    ensures err == if old(rdb.up) then None else Some(ErrNo(InternalRedisErrorCode, CodeDeleteFailed))
  {
    var ok := rdb.Del(key);
    err := if ok then None else Some(ErrNo(InternalRedisErrorCode, CodeDeleteFailed));
  }

  /** A code without '_' reads back unchanged until its ten minutes are up. */
  lemma CodeRoundTrip(v: View, key: string, code: string, dt: nat)
    requires v.up && '_' !in code && dt < CodeTtl
    ensures GetCodeCache(v.Put(key, CodeValue(code, v.now), CodeTtl).After(dt), key) == Ok(code)
  {
    SplitAround(code, FormatInt(v.now / Second), '_');
  }

  /** Once the TTL has elapsed the code is gone, and reading it is a read error. */
  lemma CodeExpires(v: View, key: string, code: string, dt: nat)
    requires v.up && dt >= CodeTtl
    ensures GetCodeCache(v.Put(key, CodeValue(code, v.now), CodeTtl).After(dt), key)
         == Err(ErrNo(InternalRedisErrorCode, CodeReadFailed))
  {
  }

  /** After DeleteCodeCache, reading the code is a read error (whether or not the delete reached the store). */
  lemma CodeDeleted(v: View, key: string)
    ensures GetCodeCache(v.Remove(key), key) == Err(ErrNo(InternalRedisErrorCode, CodeReadFailed))
  {
  }

  /** A second PutCodeToCache for the same key replaces the first code. */
  lemma CodeLastWriteWins(v: View, key: string, first: string, second: string, gap: nat, dt: nat)
    requires v.up && '_' !in second && dt < CodeTtl
    ensures
      var w := v.Put(key, CodeValue(first, v.now), CodeTtl).After(gap);
      GetCodeCache(w.Put(key, CodeValue(second, w.now), CodeTtl).After(dt), key) == Ok(second)
  {
    var w := v.Put(key, CodeValue(first, v.now), CodeTtl).After(gap);
    CodeRoundTrip(w, key, second, dt);
  }

  /** A code that itself holds '_' is stored, but never reads back: the read is a format error. */
  lemma CodeWithSeparatorRejected(v: View, key: string, code: string, dt: nat)
    requires v.up && '_' in code && dt < CodeTtl
    ensures GetCodeCache(v.Put(key, CodeValue(code, v.now), CodeTtl).After(dt), key)
         == Err(ErrNo(InternalRedisErrorCode, CodeMalformed))
  {
    var stamp := FormatInt(v.now / Second);
    CountAppend(code + "_", stamp, '_');
    CountAppend(code, "_", '_');
    CountPositive(code, '_');
  }

  /**
   * The stored value keeps its issuance time: its second part is the
   * decimal Unix time, in seconds, of the write.
   */
  lemma CodeCarriesTimestamp(v: View, key: string, code: string)
    requires v.up && '_' !in code && v.now >= 0
    ensures
      var parts := Split(v.Put(key, CodeValue(code, v.now), CodeTtl).Get(key).value, '_');
      |parts| == 2 && parts[0] == code && AllDigits(parts[1]) && DigitsValue(parts[1]) == v.now / Second
  {
    SplitAround(code, FormatInt(v.now / Second), '_');
    DigitsRoundTrip(v.now / Second);
  }

  /** An absent key and an unreachable store give the same answer: a missing code is reported as a store error. */
  lemma MissingCodeLooksLikeOutage(v: View, key: string)
    requires v.up && key !in v.entries
    ensures GetCodeCache(v, key) == GetCodeCache(v.(up := false), key)
    ensures GetCodeCache(v, key).Err? && GetCodeCache(v, key).error.code != RedisKeyNotExist
  {
  }

  // ------------------------------------------------------------ token blacklist

  /** SetBlacklistToken: store the mark under the bare token for 72 hours. */
  method SetBlacklistToken(rdb: Store, token: string) returns (err: Option<Error>)
    modifies rdb
    ensures rdb.Snapshot() == old(rdb.Snapshot()).Put(token, BlacklistMark, BlacklistTtl)
    ensures err == if old(rdb.up) then None else Some(ErrNo(InternalRedisErrorCode, BlacklistWriteFailed))
  {
    var ok := rdb.Set(token, BlacklistMark, BlacklistTtl);
    err := if ok then None else Some(ErrNo(InternalRedisErrorCode, BlacklistWriteFailed));
  }

  /**
   * IsBlacklistToken: true exactly when the live value under the token is
   * the mark; an absent key or any other value is false; only a failing
   * store is an error.
   */
  function IsBlacklistToken(v: View, token: string): (r: Result<bool, Error>)
    ensures r.Err? <==> !v.up
    ensures r.Err? ==> r.error == ErrNo(InternalRedisErrorCode, BlacklistReadFailed)
    ensures r == Ok(true) <==> v.Get(token) == Hit(BlacklistMark)
  {
    match v.Get(token)
    case Nil => Ok(false)
    case Failed => Err(ErrNo(InternalRedisErrorCode, BlacklistReadFailed))
    case Hit(value) => Ok(value == BlacklistMark)
  }

  /** A blacklisted token stays blacklisted for exactly 72 hours. */
  lemma BlacklistWindow(v: View, token: string, dt: nat)
    requires v.up
    ensures IsBlacklistToken(v.Put(token, BlacklistMark, BlacklistTtl).After(dt), token) == Ok(dt < BlacklistTtl)
  {
    PutReadBack(v, token, BlacklistMark, BlacklistTtl, dt);
  }

  /** A token never written is not blacklisted. */
  lemma NeverBlacklisted(v: View, token: string)
    requires v.up && token !in v.entries
    ensures IsBlacklistToken(v, token) == Ok(false)
  {
  }

  /**
   * Blacklisting a token again, any time later, leaves the store exactly as
   * a single blacklisting at the later moment would: the second write
   * restarts the 72-hour window.
   */
  lemma BlacklistIdempotent(v: View, token: string, gap: nat, dt: nat)
    ensures v.Put(token, BlacklistMark, BlacklistTtl).After(gap).Put(token, BlacklistMark, BlacklistTtl)
         == v.After(gap).Put(token, BlacklistMark, BlacklistTtl)
    ensures v.up ==>
      IsBlacklistToken(v.Put(token, BlacklistMark, BlacklistTtl).After(gap).Put(token, BlacklistMark, BlacklistTtl).After(dt), token)
      == Ok(dt < BlacklistTtl)
  {
    var w := v.Put(token, BlacklistMark, BlacklistTtl).After(gap);
    if v.up {
      assert w.Put(token, BlacklistMark, BlacklistTtl).entries == v.After(gap).Put(token, BlacklistMark, BlacklistTtl).entries;
      BlacklistWindow(v.After(gap), token, dt);
    }
  }

  /** Blacklisting one token does not change the answer for any other. */
  lemma BlacklistOtherToken(v: View, token: string, other: string)
    requires token != other
    ensures IsBlacklistToken(v.Put(token, BlacklistMark, BlacklistTtl), other) == IsBlacklistToken(v, other)
  {
    PutOtherKey(v, token, other, BlacklistMark, BlacklistTtl);
  }

  /**
   * Codes and tokens share one bare key space: blacklisting a string that
   * is also an e-mail address turns its pending code into a format error.
   */
  lemma BlacklistShadowsCode(v: View, key: string)
    requires v.up
    ensures GetCodeCache(v.Put(key, BlacklistMark, BlacklistTtl), key) == Err(ErrNo(InternalRedisErrorCode, CodeMalformed))
  {
    assert v.Put(key, BlacklistMark, BlacklistTtl).Get(key) == Hit(BlacklistMark);
    CountAbsent(BlacklistMark, '_');
  }

  /** A pending code stored under a key does not count as a blacklist mark for that key. */
  lemma CodeIsNotBlacklistMark(v: View, key: string, code: string)
    requires v.up
    ensures IsBlacklistToken(v.Put(key, CodeValue(code, v.now), CodeTtl), key) == Ok(false)
  {
    var stored := CodeValue(code, v.now);
    assert stored[|code|] == '_';
    assert '_' !in BlacklistMark;
    assert v.Put(key, stored, CodeTtl).Get(key) == Hit(stored);
  }

  // --------------------------------------------------------- user-profile cache

  /**
   * SetUserInfoCache: encode the record and store it under "user:<id>" with
   * the caller's expiration; an encoding failure writes nothing.
   */
  method SetUserInfoCache(rdb: Store, codec: Codec, userId: string, data: UserRow, expiration: int)
    returns (err: Option<Error>)
    modifies rdb
    ensures codec.marshal(data).None? ==>
      rdb.Snapshot() == old(rdb.Snapshot()) && err == Some(ErrNo(InternalRedisErrorCode, ProfileEncodeFailed))
    ensures codec.marshal(data).Some? ==>
      rdb.Snapshot() == old(rdb.Snapshot()).Put(UserKey(userId), codec.marshal(data).value, expiration)
      && err == if old(rdb.up) then None else Some(ErrNo(InternalRedisErrorCode, ProfileWriteFailed))
  {
    var encoded := codec.marshal(data);
    if encoded.None? {
      return Some(ErrNo(InternalRedisErrorCode, ProfileEncodeFailed));
    }
    var ok := rdb.Set(UserKey(userId), encoded.value, expiration);
    err := if ok then None else Some(ErrNo(InternalRedisErrorCode, ProfileWriteFailed));
  }

  /**
   * GetUserInfoCache: a miss is `Ok(None)` (Go's `(nil, nil)`), a live value
   * that decodes is the decoded record, one that does not decode is a
   * decode error, and a failing store is a read error.
   */
  function GetUserInfoCache(v: View, codec: Codec, userId: string): (r: Result<Option<UserRow>, Error>)
    ensures r == Ok(None) <==> v.Get(UserKey(userId)).Nil?
    ensures r.Ok? && r.value.Some? ==>
      v.Get(UserKey(userId)).Hit? && codec.unmarshal(v.Get(UserKey(userId)).value) == r.value
    ensures r.Err? <==> !v.up || (v.Get(UserKey(userId)).Hit? && codec.unmarshal(v.Get(UserKey(userId)).value).None?)
    ensures r.Err? ==> r.error == ErrNo(InternalRedisErrorCode, if v.up then ProfileDecodeFailed else ProfileReadFailed)
  {
    match v.Get(UserKey(userId))
    case Nil => Ok(None)
    case Failed => Err(ErrNo(InternalRedisErrorCode, ProfileReadFailed))
    case Hit(value) =>
      match codec.unmarshal(value)
      case None => Err(ErrNo(InternalRedisErrorCode, ProfileDecodeFailed))
      case Some(user) => Ok(Some(user))
  }

  /** A stored profile reads back equal to what was stored, for as long as its TTL (none if not positive). */
  lemma UserInfoRoundTrip(v: View, codec: Codec, userId: string, data: UserRow, expiration: int, dt: nat)
    requires Faithful(codec) && codec.marshal(data).Some?
    requires v.up && (expiration > 0 ==> dt < expiration)
    ensures GetUserInfoCache(v.Put(UserKey(userId), codec.marshal(data).value, expiration).After(dt), codec, userId)
         == Ok(Some(data))
  {
  }

  /** An expired profile is a miss, not an error. */
  lemma UserInfoExpires(v: View, codec: Codec, userId: string, encoded: string, expiration: int, dt: nat)
    requires v.up && expiration > 0 && dt >= expiration
    ensures GetUserInfoCache(v.Put(UserKey(userId), encoded, expiration).After(dt), codec, userId) == Ok(None)
  {
  }

  /** A profile never cached is a miss, not an error. */
  lemma UserInfoNeverSet(v: View, codec: Codec, userId: string)
    requires v.up && UserKey(userId) !in v.entries
    ensures GetUserInfoCache(v, codec, userId) == Ok(None)
  {
  }

  // ------------------------------------------------------- e-mail rate limit

  /** SetEmailRateLimit: store "1" under "email_rate_limit:<ip>" for one minute. */
  method SetEmailRateLimit(rdb: Store, ip: string) returns (err: Option<Error>)
    modifies rdb
    ensures rdb.Snapshot() == old(rdb.Snapshot()).Put(RateLimitKey(ip), RateLimitMark, RateLimitTtl)
    ensures err == if old(rdb.up) then None else Some(ErrNo(InternalRedisErrorCode, RateLimitWriteFailed))
  {
    var ok := rdb.Set(RateLimitKey(ip), RateLimitMark, RateLimitTtl);
    err := if ok then None else Some(ErrNo(InternalRedisErrorCode, RateLimitWriteFailed));
  }

  /** CheckEmailRateLimit: whether the address's key exists; it has no error result. */
  function CheckEmailRateLimit(v: View, ip: string): (limited: bool)
    ensures limited <==> v.up && RateLimitKey(ip) in v.entries && Live(v.entries[RateLimitKey(ip)], v.now)
  {
    v.Exists(RateLimitKey(ip))
  }

  /** After SetEmailRateLimit the address is limited for exactly one minute, then free again. */
  lemma RateLimitWindow(v: View, ip: string, dt: nat)
    requires v.up
    ensures CheckEmailRateLimit(v.Put(RateLimitKey(ip), RateLimitMark, RateLimitTtl).After(dt), ip)
        <==> dt < RateLimitTtl
  {
    PutReadBack(v, RateLimitKey(ip), RateLimitMark, RateLimitTtl, dt);
  }

  lemma PrefixCancels(p: string, a: string, b: string)
    requires p + a == p + b
    ensures a == b
  {
    assert a == (p + a)[|p|..];
    assert b == (p + b)[|p|..];
  }

  /** Limiting one address leaves every other address as it was. */
  lemma RateLimitPerAddress(v: View, ip: string, other: string)
    requires ip != other
    ensures CheckEmailRateLimit(v.Put(RateLimitKey(ip), RateLimitMark, RateLimitTtl), other)
        == CheckEmailRateLimit(v, other)
  {
    if RateLimitKey(ip) == RateLimitKey(other) {
      PrefixCancels(RateLimitKeyPrefix, ip, other);
    }
    PutOtherKey(v, RateLimitKey(ip), RateLimitKey(other), RateLimitMark, RateLimitTtl);
  }

  /** Profile keys and rate-limit keys never collide. */
  lemma ProfileAndRateLimitKeysDisjoint(userId: string, ip: string)
    ensures UserKey(userId) != RateLimitKey(ip)
  {
    assert UserKey(userId)[0] == 'u';
    assert RateLimitKey(ip)[0] == 'e';
  }
}
