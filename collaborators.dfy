/**
 * The collaborators the modelled code calls but that are not part of the
 * model: the helpers of pkg/utils, the relational database layer
 * (biz/dal/db) and encoding/json. Each is reduced to what the callers can
 * observe: the values it returns and, for the database, which calls were
 * issued in which order.
 */
module Collaborators {
  import opened Wrappers
  import opened Errno

  /** db.User, reduced to the columns the modelled code touches. */
  datatype UserRow = UserRow(userId: int, username: string, passwordHash: string, email: string, status: string)

  /** One row of a list query (courses, resources, comments, users), left opaque. */
  datatype Row = Row(id: int, payload: string)

  /**
   * encoding/json for db.User: `marshal` may fail, `unmarshal` rejects
   * byte strings that do not decode.
   */
  datatype Codec = Codec(marshal: UserRow -> Option<string>, unmarshal: string -> Option<UserRow>)

  /** Decoding what was encoded gives the record back. */
  ghost predicate Faithful(c: Codec) {
    forall u :: c.marshal(u).Some? ==> c.unmarshal(c.marshal(u).value) == Some(u)
  }

  /** What a `utils.VerifyX` helper returns: `(valid, err)`. */
  datatype Check = Check(valid: bool, err: Option<Error>)

  /** The helpers of pkg/utils, as functions of their arguments. */
  datatype Utils = Utils(
    verifyUsername: string -> Check,
    verifyPassword: string -> Check,
    verifyEmail: string -> Check,
    encryptPassword: string -> Result<string, Error>,
    comparePassword: (string, string) -> Option<Error>,    // (hash, plain password)
    mailSendCode: (string, string) -> Option<Error>)       // (address, code)

  /** db.CourseRating as the service builds it. */
  datatype RatingRecord = RatingRecord(
    userId: int, courseId: int, recommendation: real,
    difficulty: int, workload: int, usefulness: int, isVisible: bool)

  /** db.CourseComment as the service builds it. */
  datatype CommentRecord = CommentRecord(courseId: int, userId: int, content: string, parentId: int, status: string)

  /** The optional fields of an administrator's user update, forwarded unchanged. */
  datatype UserPatch = UserPatch(
    username: Option<string>, email: Option<string>, collegeId: Option<int>,
    majorId: Option<int>, roleId: Option<int>, status: Option<string>)

  /** A call into the database layer, with its arguments. */
  datatype DbCall =
    | CreateUser(username: string, passwordHash: string, email: string)
    | GetUserByEmail(email: string)
    | GetUserById(userId: int)
    | UpdateUserStatus(userId: int, status: string)
    | UpdateUserEmail(userId: int, email: string)
    | UpdateUserPassword(userId: int, passwordHash: string)
    | UpdateMajorId(userId: int, majorId: int)
    | AdminCreateUser(username: string, passwordHash: string, email: string, roleId: int, status: string)
    | AdminUpdateUser(userId: int, patch: UserPatch, newPasswordHash: Option<string>)
    | AdminGetUserList(pageNum: int, pageSize: int)
    | SearchCourses(keywords: string, grade: string, pageNum: int, pageSize: int)
    | GetCourseById(courseId: int)
    | GetCourseResources(courseId: int, resourceType: string, status: string, pageNum: int, pageSize: int)
    | GetCourseComments(courseId: int, sortBy: string, pageNum: int, pageSize: int)
    | SubmitCourseRating(rating: RatingRecord)
    | SubmitCourseComment(comment: CommentRecord)
    | DeleteCourseComment(commentId: int)
    | DeleteCourseRating(ratingId: int)
    | ReactCourseComment(userId: int, commentId: int, action: string)
    | AdminDeleteCourse(courseId: int)
    | AdminDeleteCourseComment(commentId: int)
    | AdminDeleteCourseRating(ratingId: int)

  /**
   * What a database call returns, as one record for all calls (Go's
   * multiple results): the error, and whichever of the other parts the
   * call produces.
   */
  datatype DbReply = DbReply(err: Option<Error>, user: UserRow, id: int, row: Row, rows: seq<Row>, total: int)

  /** The database: it answers each call through `respond` and records the calls made. */
  class Db {
    var calls: seq<DbCall>
    const respond: DbCall -> DbReply

    constructor (respond: DbCall -> DbReply)
      ensures calls == [] && this.respond == respond
    {
      calls := [];
      this.respond := respond;
    }

    method Call(c: DbCall) returns (r: DbReply)
      modifies this
      ensures calls == old(calls) + [c]
      ensures r == respond(c)
    {
      calls := calls + [c];
      r := respond(c);
    }
  }

  /**
   * The `for _, x := range rows { out = append(out, convert(x)) }` loop that
   * turns database rows into response models.
   */
  method ConvertAll<M>(rows: seq<Row>, convert: Row -> M) returns (out: seq<M>)
    ensures |out| == |rows|
    ensures forall i :: 0 <= i < |rows| ==> out[i] == convert(rows[i])
  {
    out := [];
    var i := 0;
    while i < |rows|
      invariant 0 <= i <= |rows|
      invariant |out| == i
      invariant forall k :: 0 <= k < i ==> out[k] == convert(rows[k])
    {
      out := out + [convert(rows[i])];
      i := i + 1;
    }
  }
}
