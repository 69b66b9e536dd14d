/**
 * The user service: registration, log-in and log-out, and the flows that
 * check an e-mailed verification code against the code cache before they
 * touch the database. The caller's user id and the Authorization header
 * are inputs; the store, the database and the pkg/utils helpers are the
 * collaborators of Kv and Collaborators.
 */
module UserService {
  import opened Wrappers
  import opened Errno
  import opened GoStrings
  import opened Kv
  import opened Collaborators
  import opened RedisUser

  // ------------------------------------------------------------- log-out

  predicate IsBearerScheme(field: string) {
    EqualFold(field, "Bearer")
  }

  /**
   * The token LoginOut revokes: the field after a leading "Bearer" (any
   * case), or else the first field of the header. None when the header is
   * empty or blank, or is a lone "Bearer".
   */
  function BearerToken(authorization: string): (token: Option<string>)
    ensures token.Some? ==> token.value != [] && NoSpace(token.value)
    ensures token.None? <==>
      AllSpace(authorization) || (|Fields(authorization)| == 1 && IsBearerScheme(Fields(authorization)[0]))
    ensures token.Some? ==>
      var parts := Fields(authorization);
      && |parts| >= 1
      && (IsBearerScheme(parts[0]) ==> |parts| >= 2 && token.value == parts[1])
      && (!IsBearerScheme(parts[0]) ==> token.value == parts[0])
  {
    if authorization == "" then None
    else
      var parts := Fields(authorization);
      if |parts| == 0 then None
      else if IsBearerScheme(parts[0]) then
        if |parts| < 2 then None else Some(parts[1])
      else Some(parts[0])
  }

  lemma BearerSchemeIsWord(scheme: string)
    requires IsBearerScheme(scheme)
    ensures scheme != [] && NoSpace(scheme)
  {
    forall i | 0 <= i < |scheme| ensures !IsSpace(scheme[i]) {
      assert LowerAscii(scheme[i]) == LowerAscii("Bearer"[i]);
    }
  }

  /** `Bearer <token>`, with any white space around and between, yields the token. */
  lemma BearerTokenOfScheme(pre: string, scheme: string, gap: string, token: string, rest: string)
    requires AllSpace(pre) && IsBearerScheme(scheme)
    requires gap != [] && AllSpace(gap)
    requires token != [] && NoSpace(token)
    requires rest == [] || IsSpace(rest[0])
    ensures BearerToken(pre + scheme + gap + token + rest) == Some(token)
  {
    var header := pre + scheme + gap + token + rest;
    SchemeAndTokenFields(pre, scheme, gap, token, rest);
    assert Fields(header)[0] == scheme && Fields(header)[1] == token;
  }

  lemma SchemeAndTokenFields(pre: string, scheme: string, gap: string, token: string, rest: string)
    requires AllSpace(pre) && IsBearerScheme(scheme)
    requires gap != [] && AllSpace(gap)
    requires token != [] && NoSpace(token)
    requires rest == [] || IsSpace(rest[0])
    ensures Fields(pre + scheme + gap + token + rest) == [scheme, token] + Fields(rest)
  {
    BearerSchemeIsWord(scheme);
    var afterScheme := gap + (token + rest);
    var body := scheme + afterScheme;
    GapThenWord(gap, token, rest);
    FieldsWord(scheme, afterScheme);
    ConsTwo(scheme, token, Fields(rest));
    FieldsSkipsSpace(pre, body);
    Regroup(pre, scheme, gap, token, rest);
  }

  lemma ConsTwo(a: string, b: string, tail: seq<string>)
    ensures [a] + ([b] + tail) == [a, b] + tail
  {
  }

  lemma Regroup(pre: string, scheme: string, gap: string, token: string, rest: string)
    ensures pre + scheme + gap + token + rest == pre + (scheme + (gap + (token + rest)))
  {
  }

  lemma GapThenWord(gap: string, token: string, rest: string)
    requires gap != [] && AllSpace(gap)
    requires token != [] && NoSpace(token)
    requires rest == [] || IsSpace(rest[0])
    ensures Fields(gap + (token + rest)) == [token] + Fields(rest)
    ensures IsSpace((gap + (token + rest))[0])
  {
    FieldsWord(token, rest);
    FieldsSkipsSpace(gap, token + rest);
  }

  /**
   * A header whose first word is not "Bearer" revokes that first word,
   * whatever follows it: `Basic dXNlcg==` blacklists `Basic`.
   */
  lemma FirstWordToken(pre: string, word: string, rest: string)
    requires AllSpace(pre)
    requires word != [] && NoSpace(word) && !IsBearerScheme(word)
    requires rest == [] || IsSpace(rest[0])
    ensures BearerToken(pre + word + rest) == Some(word)
  {
    FieldsWord(word, rest);
    FieldsSkipsSpace(pre, word + rest);
    assert pre + word + rest == pre + (word + rest);
  }

  /** "Bearer" with nothing after it revokes nothing. */
  lemma SchemeWithoutToken(pre: string, scheme: string, post: string)
    requires AllSpace(pre) && AllSpace(post) && IsBearerScheme(scheme)
    ensures BearerToken(pre + scheme + post) == None
  {
    BearerSchemeIsWord(scheme);
    FieldsSkipsSpace(post, []);
    assert post + [] == post;
    if post == [] {
      FieldsWord(scheme, []);
      assert scheme + [] == scheme;
    } else {
      FieldsWord(scheme, post);
    }
    FieldsSkipsSpace(pre, scheme + post);
    assert pre + scheme + post == pre + (scheme + post);
  }

  /**
   * LoginOut: blacklist the token of the Authorization header. A header
   * without a token writes nothing and succeeds; a failed write is
   * returned as SetBlacklistToken reported it.
   */
  method LoginOut(rdb: Store, authorization: string) returns (err: Option<Error>)
    modifies rdb
    ensures BearerToken(authorization).None? ==> err.None? && rdb.Snapshot() == old(rdb.Snapshot())
    ensures BearerToken(authorization).Some? ==>
      var token := BearerToken(authorization).value;
      rdb.Snapshot() == old(rdb.Snapshot()).Put(token, BlacklistMark, BlacklistTtl)
      && err == (if old(rdb.up) then None else Some(ErrNo(InternalRedisErrorCode, BlacklistWriteFailed)))
    ensures BearerToken(authorization).Some? && err.None? ==>
      IsBlacklistToken(rdb.Snapshot(), BearerToken(authorization).value) == Ok(true)
  {
    if authorization == "" {
      return None;
    }
    var parts := Fields(authorization);
    if |parts| == 0 {
      return None;
    }
    var token: string;
    if IsBearerScheme(parts[0]) {
      if |parts| < 2 {
        return None;
      }
      token := parts[1];
    } else {
      token := parts[0];
    }
    err := SetBlacklistToken(rdb, token);
    if err.None? {
      BlacklistWindow(old(rdb.Snapshot()), token, 0);
      assert old(rdb.Snapshot()).Put(token, BlacklistMark, BlacklistTtl).After(0) == rdb.Snapshot();
    }
  }

  // ------------------------------------------------------- registration

  /** Where a chain of early-return checks ends: all passed, or stopped with the error to return (possibly nil). */
  datatype Gate = Pass | Halt(err: Option<Error>)

  /**
   * The user name, password and e-mail checks, in that order; the first
   * that fails decides the error returned, and later checks do not matter.
   */
  function ValidateAccount(u: Utils, username: string, password: string, email: string): (g: Gate)
    ensures g.Pass? <==>
      u.verifyUsername(username).valid && u.verifyPassword(password).valid && u.verifyEmail(email).valid
    ensures !u.verifyUsername(username).valid ==> g == Halt(u.verifyUsername(username).err)
    ensures u.verifyUsername(username).valid && !u.verifyPassword(password).valid ==>
      g == Halt(u.verifyPassword(password).err)
    ensures u.verifyUsername(username).valid && u.verifyPassword(password).valid && !u.verifyEmail(email).valid ==>
      g == Halt(u.verifyEmail(email).err)
  {
    var name := u.verifyUsername(username);
    if !name.valid then Halt(name.err)
    else
      var pass := u.verifyPassword(password);
      if !pass.valid then Halt(pass.err)
      else
        var mail := u.verifyEmail(email);
        if !mail.valid then Halt(mail.err) else Pass
  }

  /** Register: validate, hash the password, create the user; nothing is created unless every step before succeeds. */
  method Register(db: Db, u: Utils, username: string, password: string, email: string) returns (err: Option<Error>)
    modifies db
    ensures ValidateAccount(u, username, password, email).Halt? ==>
      err == ValidateAccount(u, username, password, email).err && db.calls == old(db.calls)
    ensures ValidateAccount(u, username, password, email).Pass? && u.encryptPassword(password).Err? ==>
      err == Some(u.encryptPassword(password).error) && db.calls == old(db.calls)
    ensures ValidateAccount(u, username, password, email).Pass? && u.encryptPassword(password).Ok? ==>
      var call := CreateUser(username, u.encryptPassword(password).value, email);
      db.calls == old(db.calls) + [call] && err == db.respond(call).err
  {
    var gate := ValidateAccount(u, username, password, email);
    if gate.Halt? {
      return gate.err;
    }
    var hash := u.encryptPassword(password);
    if hash.Err? {
      return Some(hash.error);
    }
    var reply := db.Call(CreateUser(username, hash.value, email));
    err := reply.err;
  }

  /** LoginIn: look the user up by e-mail, compare the password, and return the record without its hash. */
  method LoginIn(db: Db, u: Utils, email: string, password: string) returns (r: Result<UserRow, Error>)
    modifies db
    ensures db.calls == old(db.calls) + [GetUserByEmail(email)]
    ensures
      var found := db.respond(GetUserByEmail(email));
      && (found.err.Some? ==> r == Err(found.err.value))
      && (found.err.None? && u.comparePassword(found.user.passwordHash, password).Some? ==>
            r == Err(u.comparePassword(found.user.passwordHash, password).value))
      && (found.err.None? && u.comparePassword(found.user.passwordHash, password).None? ==>
            r == Ok(found.user.(passwordHash := "")))
    ensures r.Ok? ==> r.value.passwordHash == ""
  {
    var found := db.Call(GetUserByEmail(email));
    if found.err.Some? {
      return Err(found.err.value);
    }
    var mismatch := u.comparePassword(found.user.passwordHash, password);
    if mismatch.Some? {
      return Err(mismatch.value);
    }
    r := Ok(found.user.(passwordHash := ""));
  }

  // --------------------------------------------- verification-code flows

  /**
   * SendVerifyEmail: draw a code, mail it, and only then cache it under
   * the address. `generated` is what utils.GenerateCode returned.
   */
  method SendVerifyEmail(rdb: Store, u: Utils, email: string, generated: Result<string, Error>)
    returns (err: Option<Error>)
    modifies rdb
    ensures generated.Err? ==> err == Some(generated.error) && rdb.Snapshot() == old(rdb.Snapshot())
    ensures generated.Ok? && u.mailSendCode(email, generated.value).Some? ==>
      err == u.mailSendCode(email, generated.value) && rdb.Snapshot() == old(rdb.Snapshot())
    ensures generated.Ok? && u.mailSendCode(email, generated.value).None? ==>
      rdb.Snapshot() == old(rdb.Snapshot()).Put(email, CodeValue(generated.value, old(rdb.now)), CodeTtl)
      && err == (if old(rdb.up) then None else Some(ErrNo(InternalRedisErrorCode, CodeWriteFailed)))
    ensures err.None? && '_' !in generated.value ==> GetCodeCache(rdb.Snapshot(), email) == Ok(generated.value)
  {
    if generated.Err? {
      return Some(generated.error);
    }
    var code := generated.value;
    var mailed := u.mailSendCode(email, code);
    if mailed.Some? {
      return mailed;
    }
    err := PutCodeToCache(rdb, email, code);
    if err.None? && '_' !in code {
      CodeRoundTrip(old(rdb.Snapshot()), email, code, 0);
      assert old(rdb.Snapshot()).Put(email, CodeValue(code, old(rdb.now)), CodeTtl).After(0) == rdb.Snapshot();
    }
  }

  /**
   * Where the common code check of VerifyEmail, UpdateEmail and
   * ResetPassword ends: a cache error is passed on as it is, a different
   * stored code is ServiceInvalidCode, and only an equal code passes.
   */
  function CheckCode(v: View, key: string, code: string): (g: Gate)
    ensures g.Pass? <==> GetCodeCache(v, key) == Ok(code)
    ensures GetCodeCache(v, key).Err? ==> g == Halt(Some(GetCodeCache(v, key).error))
    ensures GetCodeCache(v, key).Ok? && GetCodeCache(v, key).value != code ==>
      g == Halt(Some(ErrNo(ServiceInvalidCode, CodeMismatch)))
  {
    match GetCodeCache(v, key)
    case Err(e) => Halt(Some(e))
    case Ok(stored) => if stored != code then Halt(Some(ErrNo(ServiceInvalidCode, CodeMismatch))) else Pass
  }

  /** A code that was issued and not yet expired passes the check exactly when the request carries that same code. */
  lemma IssuedCodePasses(v: View, key: string, issued: string, supplied: string, dt: nat)
    requires v.up && '_' !in issued && dt < CodeTtl
    ensures CheckCode(v.Put(key, CodeValue(issued, v.now), CodeTtl).After(dt), key, supplied).Pass? <==> supplied == issued
  {
    CodeRoundTrip(v, key, issued, dt);
  }

  /** After ten minutes no code passes, the right one included. */
  lemma ExpiredCodeFails(v: View, key: string, issued: string, supplied: string, dt: nat)
    requires v.up && dt >= CodeTtl
    ensures CheckCode(v.Put(key, CodeValue(issued, v.now), CodeTtl).After(dt), key, supplied)
         == Halt(Some(ErrNo(InternalRedisErrorCode, CodeReadFailed)))
  {
    CodeExpires(v, key, issued, dt);
  }

  /**
   * The flows never delete a code after it matched, so the same code
   * passes again at any later moment within its ten minutes.
   */
  lemma CodeReusable(v: View, key: string, issued: string, first: nat, later: nat)
    requires v.up && '_' !in issued && first <= later < CodeTtl
    ensures
      var w := v.Put(key, CodeValue(issued, v.now), CodeTtl);
      CheckCode(w.After(first), key, issued).Pass? && CheckCode(w.After(later), key, issued).Pass?
  {
    IssuedCodePasses(v, key, issued, issued, first);
    IssuedCodePasses(v, key, issued, issued, later);
  }

  /**
   * VerifyEmail: if the cached code for the address matches, mark the
   * caller active. The cache is not written, so the code stays usable
   * until it expires.
   */
  method VerifyEmail(rdb: Store, db: Db, userId: int, email: string, code: string) returns (err: Option<Error>)
    modifies db
    ensures CheckCode(rdb.Snapshot(), email, code).Halt? ==>
      err == CheckCode(rdb.Snapshot(), email, code).err && db.calls == old(db.calls)
    ensures CheckCode(rdb.Snapshot(), email, code).Pass? ==>
      db.calls == old(db.calls) + [UpdateUserStatus(userId, "active")]
      && err == db.respond(UpdateUserStatus(userId, "active")).err
    ensures rdb.Snapshot() == old(rdb.Snapshot())
  {
    var gate := CheckCode(rdb.Snapshot(), email, code);
    if gate.Halt? {
      return gate.err;
    }
    var reply := db.Call(UpdateUserStatus(userId, "active"));
    err := reply.err;
  }

  /** UpdateEmail: if the code cached for the new address matches, store that address for the caller. */
  method UpdateEmail(rdb: Store, db: Db, userId: int, newEmail: string, code: string) returns (err: Option<Error>)
    modifies db
    ensures CheckCode(rdb.Snapshot(), newEmail, code).Halt? ==>
      err == CheckCode(rdb.Snapshot(), newEmail, code).err && db.calls == old(db.calls)
    ensures CheckCode(rdb.Snapshot(), newEmail, code).Pass? ==>
      db.calls == old(db.calls) + [UpdateUserEmail(userId, newEmail)]
      && err == db.respond(UpdateUserEmail(userId, newEmail)).err
    ensures rdb.Snapshot() == old(rdb.Snapshot())
  {
    var gate := CheckCode(rdb.Snapshot(), newEmail, code);
    if gate.Halt? {
      return gate.err;
    }
    var reply := db.Call(UpdateUserEmail(userId, newEmail));
    err := reply.err;
  }

  /**
   * ResetPassword: check the code first; only then hash the new password,
   * look the user up by e-mail and store the hash.
   */
  method ResetPassword(rdb: Store, db: Db, u: Utils, email: string, code: string, newPassword: string)
    returns (err: Option<Error>)
    modifies db
    ensures rdb.Snapshot() == old(rdb.Snapshot())
    ensures CheckCode(rdb.Snapshot(), email, code).Halt? ==>
      err == CheckCode(rdb.Snapshot(), email, code).err && db.calls == old(db.calls)
    ensures CheckCode(rdb.Snapshot(), email, code).Pass? && u.encryptPassword(newPassword).Err? ==>
      err == Some(u.encryptPassword(newPassword).error) && db.calls == old(db.calls)
    ensures CheckCode(rdb.Snapshot(), email, code).Pass? && u.encryptPassword(newPassword).Ok? ==>
      var found := db.respond(GetUserByEmail(email));
      var update := UpdateUserPassword(found.user.userId, u.encryptPassword(newPassword).value);
      && (found.err.Some? ==> err == found.err && db.calls == old(db.calls) + [GetUserByEmail(email)])
      && (found.err.None? ==>
            err == db.respond(update).err && db.calls == old(db.calls) + [GetUserByEmail(email), update])
  {
    var gate := CheckCode(rdb.Snapshot(), email, code);
    if gate.Halt? {
      return gate.err;
    }
    var hash := u.encryptPassword(newPassword);
    if hash.Err? {
      return Some(hash.error);
    }
    var found := db.Call(GetUserByEmail(email));
    if found.err.Some? {
      return found.err;
    }
    var reply := db.Call(UpdateUserPassword(found.user.userId, hash.value));
    err := reply.err;
  }

  // ------------------------------------------------------ profile updates

  /**
   * UpdatePassword: look the caller up, require the old password to match
   * (any mismatch becomes ServiceInvalidPassword), hash and store the new one.
   */
  method UpdatePassword(db: Db, u: Utils, userId: int, oldPassword: string, newPassword: string)
    returns (err: Option<Error>)
    modifies db
    ensures
      var found := db.respond(GetUserById(userId));
      && (found.err.Some? ==> err == found.err && db.calls == old(db.calls) + [GetUserById(userId)])
      && (found.err.None? && u.comparePassword(found.user.passwordHash, oldPassword).Some? ==>
            err == Some(ErrNo(ServiceInvalidPassword, OldPasswordMismatch))
            && db.calls == old(db.calls) + [GetUserById(userId)])
      && (found.err.None? && u.comparePassword(found.user.passwordHash, oldPassword).None?
          && u.encryptPassword(newPassword).Err? ==>
            err == Some(u.encryptPassword(newPassword).error) && db.calls == old(db.calls) + [GetUserById(userId)])
      && (found.err.None? && u.comparePassword(found.user.passwordHash, oldPassword).None?
          && u.encryptPassword(newPassword).Ok? ==>
            var update := UpdateUserPassword(found.user.userId, u.encryptPassword(newPassword).value);
            err == db.respond(update).err && db.calls == old(db.calls) + [GetUserById(userId), update])
  {
    var found := db.Call(GetUserById(userId));
    if found.err.Some? {
      return found.err;
    }
    if u.comparePassword(found.user.passwordHash, oldPassword).Some? {
      return Some(ErrNo(ServiceInvalidPassword, OldPasswordMismatch));
    }
    var hash := u.encryptPassword(newPassword);
    if hash.Err? {
      return Some(hash.error);
    }
    var reply := db.Call(UpdateUserPassword(found.user.userId, hash.value));
    err := reply.err;
  }

  /** UpdateMajor: look the caller up and store the new major for the id found. */
  method UpdateMajor(db: Db, userId: int, newMajorId: int) returns (err: Option<Error>)
    modifies db
    ensures
      var found := db.respond(GetUserById(userId));
      && (found.err.Some? ==> err == found.err && db.calls == old(db.calls) + [GetUserById(userId)])
      && (found.err.None? ==>
            var update := UpdateMajorId(found.user.userId, newMajorId);
            err == db.respond(update).err && db.calls == old(db.calls) + [GetUserById(userId), update])
  {
    var found := db.Call(GetUserById(userId));
    if found.err.Some? {
      return found.err;
    }
    var reply := db.Call(UpdateMajorId(found.user.userId, newMajorId));
    err := reply.err;
  }

  /** GetUserInfo: the record the database returns for the id, or its error. */
  method GetUserInfo(db: Db, userId: int) returns (r: Result<UserRow, Error>)
    modifies db
    ensures db.calls == old(db.calls) + [GetUserById(userId)]
    ensures
      var found := db.respond(GetUserById(userId));
      r == if found.err.Some? then Err(found.err.value) else Ok(found.user)
  {
    var found := db.Call(GetUserById(userId));
    if found.err.Some? {
      return Err(found.err.value);
    }
    r := Ok(found.user);
  }
}
