/**
 * The course service: paging and defaulting of the list endpoints, the
 * range checks on a rating, the fixed fields of a new comment, the guard on
 * a reaction, and the identifier guards of the administrators' deletions.
 * The current user's id, taken from the request context by the source, is a
 * parameter.
 */
module CourseService {
  import opened Wrappers
  import opened Errno
  import opened GoStrings
  import opened Collaborators
  import opened Paging

  /** A database failure as the course service reports it: code 50001 with the step that failed. */
  function DbFailure(err: Option<Error>, cause: Cause): (r: Option<Error>)
    ensures r.None? <==> err.None?
    ensures r.Some? ==> r.value.ErrNo? && r.value.code == InternalDatabaseErrorCode && r.value.cause == cause
  {
    if err.Some? then Some(ErrNo(InternalDatabaseErrorCode, cause)) else None
  }

  /** An optional text filter as Search passes it on: absent is "", present is trimmed. */
  function TrimmedOrEmpty(s: Option<string>): (r: string)
    ensures s.None? ==> r == []
    ensures s.Some? ==> r == TrimSpace(s.value)
    ensures r == [] || (!IsSpace(r[0]) && !IsSpace(r[|r| - 1]))
  {
    if s.Some? then TrimSpace(s.value) else []
  }

  /** course.SearchReq: the optional filters and the paging fields the service normalises in place. */
  class SearchReq {
    const keywords: Option<string>
    const grade: Option<string>
    var pageNum: int
    var pageSize: int

    constructor (keywords: Option<string>, grade: Option<string>, pageNum: int, pageSize: int)
      ensures this.keywords == keywords && this.grade == grade
      ensures this.pageNum == pageNum && this.pageSize == pageSize
    {
      this.keywords, this.grade := keywords, grade;
      this.pageNum, this.pageSize := pageNum, pageSize;
    }
  }

  /**
   * Search: trimmed filters, defaulted paging written back into the
   * request, one query, and every returned course converted in order.
   */
  method Search<M>(db: Db, req: SearchReq, toCourse: Row -> M) returns (courses: seq<M>, err: Option<Error>)
    modifies db, req
    ensures req.pageNum == PageOrDefault(old(req.pageNum), DefaultPageNum)
    ensures req.pageSize == PageOrDefault(old(req.pageSize), DefaultPageSize)
    ensures
      var call := SearchCourses(TrimmedOrEmpty(req.keywords), TrimmedOrEmpty(req.grade), req.pageNum, req.pageSize);
      && db.calls == old(db.calls) + [call]
      && err == DbFailure(db.respond(call).err, CourseSearchFailed)
      && (err.Some? ==> courses == [])
      && (err.None? ==>
            |courses| == |db.respond(call).rows|
            && forall i :: 0 <= i < |courses| ==> courses[i] == toCourse(db.respond(call).rows[i]))
  {
    var keywords := TrimmedOrEmpty(req.keywords);
    var grade := TrimmedOrEmpty(req.grade);
    if req.pageNum <= 0 {
      req.pageNum := 1;
    }
    if req.pageSize <= 0 {
      req.pageSize := 10;
    }
    var call := SearchCourses(keywords, grade, req.pageNum, req.pageSize);
    var reply := db.Call(call);
    if reply.err.Some? {
      return [], Some(ErrNo(InternalDatabaseErrorCode, CourseSearchFailed));
    }
    courses := ConvertAll(reply.rows, toCourse);
    err := None;
  }

  /** GetCourseDetail: one lookup; its failure is a database error. */
  method GetCourseDetail(db: Db, courseId: int) returns (course: Option<Row>, err: Option<Error>)
    modifies db
    ensures db.calls == old(db.calls) + [GetCourseById(courseId)]
    ensures err == DbFailure(db.respond(GetCourseById(courseId)).err, CourseDetailFailed)
    ensures course.Some? <==> err.None?
    ensures course.Some? ==> course.value == db.respond(GetCourseById(courseId)).row
  {
    var reply := db.Call(GetCourseById(courseId));
    if reply.err.Some? {
      return None, Some(ErrNo(InternalDatabaseErrorCode, CourseDetailFailed));
    }
    course, err := Some(reply.row), None;
  }

  /** course.GetCourseResourceListReq. */
  class ResourceListReq {
    const courseId: int
    const resourceType: Option<string>
    const status: Option<string>
    var pageNum: int
    var pageSize: int

    constructor (courseId: int, resourceType: Option<string>, status: Option<string>, pageNum: int, pageSize: int)
      ensures this.courseId == courseId && this.resourceType == resourceType && this.status == status
      ensures this.pageNum == pageNum && this.pageSize == pageSize
    {
      this.courseId, this.resourceType, this.status := courseId, resourceType, status;
      this.pageNum, this.pageSize := pageNum, pageSize;
    }
  }

  /** An optional filter as GetCourseResourceList passes it on: absent is "", present is kept as is (no trimming). */
  function ValueOrEmpty(s: Option<string>): (r: string)
    ensures s.None? ==> r == []
    ensures s.Some? ==> r == s.value
  {
    if s.Some? then s.value else []
  }

  /** GetCourseResourceList: untrimmed filters, defaulted paging, one query, every resource converted. */
  method GetCourseResourceList<M>(db: Db, req: ResourceListReq, toResource: Row -> M)
    returns (resources: seq<M>, err: Option<Error>)
    modifies db, req
    ensures req.pageNum == PageOrDefault(old(req.pageNum), DefaultPageNum)
    ensures req.pageSize == PageOrDefault(old(req.pageSize), DefaultPageSize)
    ensures
      var call := GetCourseResources(req.courseId, ValueOrEmpty(req.resourceType), ValueOrEmpty(req.status),
                                     req.pageNum, req.pageSize);
      && db.calls == old(db.calls) + [call]
      && err == DbFailure(db.respond(call).err, ResourceListFailed)
      && (err.Some? ==> resources == [])
      && (err.None? ==>
            |resources| == |db.respond(call).rows|
            && forall i :: 0 <= i < |resources| ==> resources[i] == toResource(db.respond(call).rows[i]))
  {
    var resourceType := ValueOrEmpty(req.resourceType);
    var status := ValueOrEmpty(req.status);
    if req.pageNum <= 0 {
      req.pageNum := 1;
    }
    if req.pageSize <= 0 {
      req.pageSize := 10;
    }
    var reply := db.Call(GetCourseResources(req.courseId, resourceType, status, req.pageNum, req.pageSize));
    if reply.err.Some? {
      return [], Some(ErrNo(InternalDatabaseErrorCode, ResourceListFailed));
    }
    resources := ConvertAll(reply.rows, toResource);
    err := None;
  }

  /** The order GetCourseComments falls back to. */
  const DefaultSortBy := "latest"

  /** An empty sort order becomes "latest"; any other, even one the database does not know, is passed on. */
  function SortOrDefault(sortBy: string): (r: string)
    ensures r != []
    ensures sortBy != [] ==> r == sortBy
    ensures sortBy == [] ==> r == DefaultSortBy
  {
    if sortBy == [] then DefaultSortBy else sortBy
  }

  /** course.GetCourseCommentsReq. */
  class CommentsReq {
    const courseId: int
    const sortBy: string
    var pageNum: int
    var pageSize: int

    constructor (courseId: int, sortBy: string, pageNum: int, pageSize: int)
      ensures this.courseId == courseId && this.sortBy == sortBy
      ensures this.pageNum == pageNum && this.pageSize == pageSize
    {
      this.courseId, this.sortBy := courseId, sortBy;
      this.pageNum, this.pageSize := pageNum, pageSize;
    }
  }

  /**
   * GetCourseComments: defaulted sort order (the request keeps its own),
   * defaulted paging written back, one query, every comment converted.
   */
  method GetCourseComments<M>(db: Db, req: CommentsReq, toComment: Row -> M)
    returns (comments: seq<M>, err: Option<Error>)
    modifies db, req
    ensures req.pageNum == PageOrDefault(old(req.pageNum), DefaultPageNum)
    ensures req.pageSize == PageOrDefault(old(req.pageSize), DefaultPageSize)
    ensures
      var call := DbCall.GetCourseComments(req.courseId, SortOrDefault(req.sortBy), req.pageNum, req.pageSize);
      && db.calls == old(db.calls) + [call]
      && err == DbFailure(db.respond(call).err, CommentListFailed)
      && (err.Some? ==> comments == [])
      && (err.None? ==>
            |comments| == |db.respond(call).rows|
            && forall i :: 0 <= i < |comments| ==> comments[i] == toComment(db.respond(call).rows[i]))
  {
    var sortBy := req.sortBy;
    if sortBy == [] {
      sortBy := DefaultSortBy;
    }
    if req.pageNum <= 0 {
      req.pageNum := 1;
    }
    if req.pageSize <= 0 {
      req.pageSize := 10;
    }
    var reply := db.Call(DbCall.GetCourseComments(req.courseId, sortBy, req.pageNum, req.pageSize));
    if reply.err.Some? {
      return [], Some(ErrNo(InternalDatabaseErrorCode, CommentListFailed));
    }
    comments := ConvertAll(reply.rows, toComment);
    err := None;
  }

  /** course.SubmitCourseRatingReq. */
  datatype RatingReq = RatingReq(courseId: int, rating: real, difficulty: int, workload: int, usefulness: int)

  /** A score on the one-to-five scale of difficulty, workload and usefulness. */
  predicate InScale(n: int) {
    1 <= n <= 5
  }

  /**
   * The checks of SubmitCourseRating and the record it builds: the rating
   * must lie in [0, 5], then difficulty, workload and usefulness each in
   * [1, 5], and the first check that fails names the error.
   */
  function BuildRating(userId: int, req: RatingReq): (r: Result<RatingRecord, Error>)
    ensures r.Ok? <==> 0.0 <= req.rating <= 5.0 && InScale(req.difficulty) && InScale(req.workload) && InScale(req.usefulness)
    ensures !(0.0 <= req.rating <= 5.0) ==> r == Err(RatingRangeInvalid)
    ensures 0.0 <= req.rating <= 5.0 && !InScale(req.difficulty) ==> r == Err(InvalidParameter(DifficultyOutOfRange))
    ensures 0.0 <= req.rating <= 5.0 && InScale(req.difficulty) && !InScale(req.workload) ==>
      r == Err(InvalidParameter(WorkloadOutOfRange))
    ensures 0.0 <= req.rating <= 5.0 && InScale(req.difficulty) && InScale(req.workload) && !InScale(req.usefulness) ==>
      r == Err(InvalidParameter(UsefulnessOutOfRange))
    ensures r.Ok? ==>
      && r.value.userId == userId && r.value.courseId == req.courseId
      && r.value.recommendation == req.rating
      && r.value.difficulty == req.difficulty && r.value.workload == req.workload
      && r.value.usefulness == req.usefulness
      && r.value.isVisible
  {
    if req.rating < 0.0 || req.rating > 5.0 then Err(RatingRangeInvalid)
    else if req.difficulty < 1 || req.difficulty > 5 then Err(InvalidParameter(DifficultyOutOfRange))
    else if req.workload < 1 || req.workload > 5 then Err(InvalidParameter(WorkloadOutOfRange))
    else if req.usefulness < 1 || req.usefulness > 5 then Err(InvalidParameter(UsefulnessOutOfRange))
    else Ok(RatingRecord(userId, req.courseId, req.rating, req.difficulty, req.workload, req.usefulness, true))
  }

  /** Every stored rating lies within the scales, and a rejected one is rejected whatever the user. */
  lemma RatingScalesHold(userId: int, other: int, req: RatingReq)
    ensures BuildRating(userId, req).Ok? ==>
      var rec := BuildRating(userId, req).value;
      0.0 <= rec.recommendation <= 5.0 && InScale(rec.difficulty) && InScale(rec.workload) && InScale(rec.usefulness)
    ensures BuildRating(userId, req).Err? ==> BuildRating(other, req) == BuildRating(userId, req)
  {
  }

  /** SubmitCourseRating: nothing reaches the database unless every range check passes. */
  method SubmitCourseRating(db: Db, userId: int, req: RatingReq) returns (saved: Option<Row>, err: Option<Error>)
    modifies db
    ensures BuildRating(userId, req).Err? ==>
      saved.None? && err == Some(BuildRating(userId, req).error) && db.calls == old(db.calls)
    ensures BuildRating(userId, req).Ok? ==>
      var call := DbCall.SubmitCourseRating(BuildRating(userId, req).value);
      && db.calls == old(db.calls) + [call]
      && err == DbFailure(db.respond(call).err, RatingSubmitFailed)
      && (saved.Some? <==> err.None?)
      && (saved.Some? ==> saved.value == db.respond(call).row)
  {
    var rating := BuildRating(userId, req);
    if rating.Err? {
      return None, Some(rating.error);
    }
    var reply := db.Call(DbCall.SubmitCourseRating(rating.value));
    if reply.err.Some? {
      return None, Some(ErrNo(InternalDatabaseErrorCode, RatingSubmitFailed));
    }
    saved, err := Some(reply.row), None;
  }

  /** course.SubmitCourseCommentReq. */
  datatype CommentReq = CommentReq(courseId: int, contents: string, parentId: int)

  /** The status every new comment is stored with. */
  const NormalStatus := "normal"

  /** The comment SubmitCourseComment stores: the request's fields, the caller as author, status "normal". */
  function BuildComment(userId: int, req: CommentReq): (c: CommentRecord)
    ensures c.userId == userId && c.status == NormalStatus
    ensures c.courseId == req.courseId && c.content == req.contents && c.parentId == req.parentId
  {
    CommentRecord(req.courseId, userId, req.contents, req.parentId, NormalStatus)
  }

  /** SubmitCourseComment: the built comment is stored and, on success, returned as built. */
  method SubmitCourseComment(db: Db, userId: int, req: CommentReq) returns (comment: Option<CommentRecord>, err: Option<Error>)
    modifies db
    ensures db.calls == old(db.calls) + [DbCall.SubmitCourseComment(BuildComment(userId, req))]
    ensures err == DbFailure(db.respond(DbCall.SubmitCourseComment(BuildComment(userId, req))).err, CommentSubmitFailed)
    ensures comment.Some? <==> err.None?
    ensures comment.Some? ==> comment.value == BuildComment(userId, req)
  {
    var c := BuildComment(userId, req);
    var reply := db.Call(DbCall.SubmitCourseComment(c));
    if reply.err.Some? {
      return None, Some(ErrNo(InternalDatabaseErrorCode, CommentSubmitFailed));
    }
    comment, err := Some(c), None;
  }

  /** DeleteCourseComment: the error received from the asynchronous delete, as a database error. */
  method DeleteCourseComment(db: Db, commentId: int) returns (err: Option<Error>)
    modifies db
    ensures db.calls == old(db.calls) + [DbCall.DeleteCourseComment(commentId)]
    ensures err == DbFailure(db.respond(DbCall.DeleteCourseComment(commentId)).err, CommentDeleteFailed)
  {
    var reply := db.Call(DbCall.DeleteCourseComment(commentId));
    err := if reply.err.Some? then Some(ErrNo(InternalDatabaseErrorCode, CommentDeleteFailed)) else None;
  }

  /** DeleteCourseRating: the error received from the asynchronous delete, as a database error. */
  method DeleteCourseRating(db: Db, ratingId: int) returns (err: Option<Error>)
    modifies db
    ensures db.calls == old(db.calls) + [DbCall.DeleteCourseRating(ratingId)]
    ensures err == DbFailure(db.respond(DbCall.DeleteCourseRating(ratingId)).err, RatingDeleteFailed)
  {
    var reply := db.Call(DbCall.DeleteCourseRating(ratingId));
    err := if reply.err.Some? then Some(ErrNo(InternalDatabaseErrorCode, RatingDeleteFailed)) else None;
  }

  /** The reactions a comment accepts. */
  const ReactionActions: set<string> := {"like", "dislike", "cancel_like", "cancel_dislike"}

  /**
   * The guards of ReactCourseComment: a positive comment id, then one of
   * the four actions; both failures carry the parameter-verification code,
   * the second with its own message.
   */
  function CheckReaction(commentId: int, action: string): (r: Option<Error>)
    ensures r.None? <==> commentId > 0 && action in ReactionActions
    ensures commentId <= 0 ==> r == Some(ErrNo(ParamVerifyErrorCode, ParamVerifyDefault))
    ensures commentId > 0 && action !in ReactionActions ==> r == Some(ErrNo(ParamVerifyErrorCode, ReactionActionInvalid))
  {
    if commentId <= 0 then Some(ErrNo(ParamVerifyErrorCode, ParamVerifyDefault))
    else if action !in ReactionActions then Some(ErrNo(ParamVerifyErrorCode, ReactionActionInvalid))
    else None
  }

  /** No upper-case ASCII letter occurs in `s`. */
  ghost predicate NoUpperAscii(s: string) {
    forall i :: 0 <= i < |s| ==> !('A' <= s[i] <= 'Z')
  }

  /** Every accepted action is lower case and starts and ends with a letter. */
  lemma ReactionActionsShape(action: string)
    requires action in ReactionActions
    ensures action != [] && NoUpperAscii(action)
    ensures 'a' <= action[0] <= 'z' && 'a' <= action[|action| - 1] <= 'z'
  {
    assert action == "like" || action == "dislike" || action == "cancel_like" || action == "cancel_dislike";
  }

  /**
   * The action is matched exactly, with no case folding and no trimming:
   * for a valid comment id, any action that holds an upper-case letter, or
   * that starts or ends with white space, is rejected as an invalid action.
   */
  lemma ReactionActionExact(commentId: int, action: string)
    requires commentId > 0
    requires !NoUpperAscii(action) || (action != [] && (IsSpace(action[0]) || IsSpace(action[|action| - 1])))
    ensures CheckReaction(commentId, action) == Some(ErrNo(ParamVerifyErrorCode, ReactionActionInvalid))
  {
    if action in ReactionActions {
      ReactionActionsShape(action);
      assert false;
    }
  }

  /** ReactCourseComment: after the guards, one asynchronous call whose error is returned unchanged. */
  method ReactCourseComment(db: Db, userId: int, commentId: int, action: string) returns (err: Option<Error>)
    modifies db
    ensures CheckReaction(commentId, action).Some? ==>
      err == CheckReaction(commentId, action) && db.calls == old(db.calls)
    ensures CheckReaction(commentId, action).None? ==>
      && db.calls == old(db.calls) + [DbCall.ReactCourseComment(userId, commentId, action)]
      && err == db.respond(DbCall.ReactCourseComment(userId, commentId, action)).err
  {
    var guard := CheckReaction(commentId, action);
    if guard.Some? {
      return guard;
    }
    var reply := db.Call(DbCall.ReactCourseComment(userId, commentId, action));
    err := reply.err;
  }

  /** The identifier guard shared by the administrators' deletions. */
  function CheckId(id: int, cause: Cause): (r: Option<Error>)
    ensures r.None? <==> id > 0
    ensures r.Some? ==> r.value == InvalidParameter(cause)
  {
    if id <= 0 then Some(InvalidParameter(cause)) else None
  }

  /** AdminDeleteCourse: a non-positive id is refused before the database is called; otherwise its error is returned unchanged. */
  method AdminDeleteCourse(db: Db, courseId: int) returns (err: Option<Error>)
    modifies db
    ensures courseId <= 0 ==> err == Some(InvalidParameter(CourseIdInvalid)) && db.calls == old(db.calls)
    ensures courseId > 0 ==>
      db.calls == old(db.calls) + [DbCall.AdminDeleteCourse(courseId)]
      && err == db.respond(DbCall.AdminDeleteCourse(courseId)).err
  {
    err := CheckId(courseId, CourseIdInvalid);
    if err.None? {
      var reply := db.Call(DbCall.AdminDeleteCourse(courseId));
      err := reply.err;
    }
  }

  /** AdminDeleteCourseComment: as AdminDeleteCourse, for a comment id. */
  method AdminDeleteCourseComment(db: Db, commentId: int) returns (err: Option<Error>)
    modifies db
    ensures commentId <= 0 ==> err == Some(InvalidParameter(CommentIdInvalid)) && db.calls == old(db.calls)
    ensures commentId > 0 ==>
      db.calls == old(db.calls) + [DbCall.AdminDeleteCourseComment(commentId)]
      && err == db.respond(DbCall.AdminDeleteCourseComment(commentId)).err
  {
    err := CheckId(commentId, CommentIdInvalid);
    if err.None? {
      var reply := db.Call(DbCall.AdminDeleteCourseComment(commentId));
      err := reply.err;
    }
  }

  /** AdminDeleteCourseRating: as AdminDeleteCourse, for a rating id. */
  method AdminDeleteCourseRating(db: Db, ratingId: int) returns (err: Option<Error>)
    modifies db
    ensures ratingId <= 0 ==> err == Some(InvalidParameter(RatingIdInvalid)) && db.calls == old(db.calls)
    ensures ratingId > 0 ==>
      db.calls == old(db.calls) + [DbCall.AdminDeleteCourseRating(ratingId)]
      && err == db.respond(DbCall.AdminDeleteCourseRating(ratingId)).err
  {
    err := CheckId(ratingId, RatingIdInvalid);
    if err.None? {
      var reply := db.Call(DbCall.AdminDeleteCourseRating(ratingId));
      err := reply.err;
    }
  }
}
