/**
 * The administrators' user service: creating a user, updating one with an
 * optional new password, and listing users a page at a time.
 */
module UserAdminService {
  import opened Wrappers
  import opened Errno
  import opened Collaborators
  import opened Paging
  import opened UserService

  /**
   * AdminAddUser: the same three checks as Register, in the same order,
   * then hash the password and create the user; the result is the new id,
   * or 0 with the error of the first step that failed.
   */
  method AdminAddUser(db: Db, u: Utils, username: string, password: string, email: string, roleId: int, status: string)
    returns (id: int, err: Option<Error>)
    modifies db
    ensures ValidateAccount(u, username, password, email).Halt? ==>
      id == 0 && err == ValidateAccount(u, username, password, email).err && db.calls == old(db.calls)
    ensures ValidateAccount(u, username, password, email).Pass? && u.encryptPassword(password).Err? ==>
      id == 0 && err == Some(u.encryptPassword(password).error) && db.calls == old(db.calls)
    ensures ValidateAccount(u, username, password, email).Pass? && u.encryptPassword(password).Ok? ==>
      var call := DbCall.AdminCreateUser(username, u.encryptPassword(password).value, email, roleId, status);
      && db.calls == old(db.calls) + [call]
      && (db.respond(call).err.Some? ==> id == 0 && err == db.respond(call).err)
      && (db.respond(call).err.None? ==> id == db.respond(call).id && err.None?)
  {
    var gate := ValidateAccount(u, username, password, email);
    if gate.Halt? {
      return 0, gate.err;
    }
    var hash := u.encryptPassword(password);
    if hash.Err? {
      return 0, Some(hash.error);
    }
    var reply := db.Call(DbCall.AdminCreateUser(username, hash.value, email, roleId, status));
    if reply.err.Some? {
      return 0, reply.err;
    }
    id, err := reply.id, None;
  }

  /** What AdminUpdateUser does with the optional password: leave it, replace it by a hash, or stop with an error. */
  datatype PasswordPlan = Keep | Replace(hash: string) | Stop(err: Option<Error>)

  /**
   * Only a supplied password is checked and hashed; an absent one is
   * forwarded as absent, and a supplied one never reaches the database in
   * clear.
   */
  function PlanPassword(u: Utils, password: Option<string>): (p: PasswordPlan)
    ensures p.Keep? <==> password.None?
    ensures p.Replace? <==>
      password.Some? && u.verifyPassword(password.value).valid && u.encryptPassword(password.value).Ok?
    ensures p.Replace? ==> p.hash == u.encryptPassword(password.value).value
    ensures password.Some? && !u.verifyPassword(password.value).valid ==> p == Stop(u.verifyPassword(password.value).err)
    ensures password.Some? && u.verifyPassword(password.value).valid && u.encryptPassword(password.value).Err? ==>
      p == Stop(Some(u.encryptPassword(password.value).error))
  {
    match password
    case None => Keep
    case Some(plain) =>
      var check := u.verifyPassword(plain);
      if !check.valid then Stop(check.err)
      else
        match u.encryptPassword(plain)
        case Err(e) => Stop(Some(e))
        case Ok(hash) => Replace(hash)
  }

  /**
   * AdminUpdateUser: a user the lookup cannot find is ServiceUserNotExist
   * before anything else; then the optional password is planned, and the
   * update carries the other fields unchanged.
   */
  method AdminUpdateUser(db: Db, u: Utils, userId: int, patch: UserPatch, password: Option<string>)
    returns (err: Option<Error>)
    modifies db
    ensures db.respond(GetUserById(userId)).err.Some? ==>
      err == Some(ErrNo(ServiceUserNotExist, UserMissing)) && db.calls == old(db.calls) + [GetUserById(userId)]
    ensures db.respond(GetUserById(userId)).err.None? && PlanPassword(u, password).Stop? ==>
      err == PlanPassword(u, password).err && db.calls == old(db.calls) + [GetUserById(userId)]
    ensures db.respond(GetUserById(userId)).err.None? && !PlanPassword(u, password).Stop? ==>
      var hash := if PlanPassword(u, password).Replace? then Some(PlanPassword(u, password).hash) else None;
      var update := DbCall.AdminUpdateUser(userId, patch, hash);
      db.calls == old(db.calls) + [GetUserById(userId), update] && err == db.respond(update).err
  {
    var found := db.Call(GetUserById(userId));
    if found.err.Some? {
      return Some(ErrNo(ServiceUserNotExist, UserMissing));
    }
    var plan := PlanPassword(u, password);
    if plan.Stop? {
      return plan.err;
    }
    var hash: Option<string> := if plan.Replace? then Some(plan.hash) else None;
    var reply := db.Call(DbCall.AdminUpdateUser(userId, patch, hash));
    err := reply.err;
  }

  /** user.AdminGetUserListReq: the paging fields the service normalises in place. */
  class AdminGetUserListReq {
    var pageNum: int
    var pageSize: int

    constructor (pageNum: int, pageSize: int)
      ensures this.pageNum == pageNum && this.pageSize == pageSize
    {
      this.pageNum, this.pageSize := pageNum, pageSize;
    }
  }

  /**
   * AdminGetUserList: default the paging fields of the request in place,
   * query that page, and convert each row; on a database error, no users
   * and a total of 0.
   */
  method AdminGetUserList<M>(db: Db, req: AdminGetUserListReq, toUser: Row -> M)
    returns (users: seq<M>, total: int, err: Option<Error>)
    modifies db, req
    ensures req.pageNum == PageOrDefault(old(req.pageNum), DefaultPageNum)
    ensures req.pageSize == PageOrDefault(old(req.pageSize), DefaultPageSize)
    ensures db.calls == old(db.calls) + [DbCall.AdminGetUserList(req.pageNum, req.pageSize)]
    ensures
      var reply := db.respond(DbCall.AdminGetUserList(req.pageNum, req.pageSize));
      && (reply.err.Some? ==> users == [] && total == 0 && err == reply.err)
      && (reply.err.None? ==>
            err.None? && total == reply.total && |users| == |reply.rows|
            && forall i :: 0 <= i < |users| ==> users[i] == toUser(reply.rows[i]))
  {
    if req.pageNum <= 0 {
      req.pageNum := 1;
    }
    if req.pageSize <= 0 {
      req.pageSize := 10;
    }
    var reply := db.Call(DbCall.AdminGetUserList(req.pageNum, req.pageSize));
    if reply.err.Some? {
      return [], 0, reply.err;
    }
    users := ConvertAll(reply.rows, toUser);
    total, err := reply.total, None;
  }
}
