/**
 * The numeric error codes of the errno package and the error values the
 * services and cache facades return.
 *
 * Each Go `const ( X = base + iota; Y; Z )` group is written out as a base
 * code followed by its successors, one per line, in declaration order.
 */
module Errno {

  const SuccessCode := 10000

  // 200xx: parameter errors
  const ParamVerifyErrorCode := 20000
  const ParamMissingErrorCode := ParamVerifyErrorCode + 1
  const ParamMissingHeaderCode := ParamVerifyErrorCode + 2
  const ParamInvalidHeaderCode := ParamVerifyErrorCode + 3

  // 300xx: authentication errors
  const AuthInvalidCode := 30000
  const AuthAccessExpiredCode := AuthInvalidCode + 1
  const AuthRefreshExpiredCode := AuthInvalidCode + 2
  const AuthNoTokenCode := AuthInvalidCode + 3
  const AuthNoOperatePermissionCode := AuthInvalidCode + 4
  const AuthMissingTokenCode := AuthInvalidCode + 5
  const IllegalOperatorCode := AuthInvalidCode + 6

  // 500xx: internal errors
  const InternalServiceErrorCode := 50000
  const InternalDatabaseErrorCode := InternalServiceErrorCode + 1
  const InternalRedisErrorCode := InternalServiceErrorCode + 2
  const InternalNetworkErrorCode := InternalServiceErrorCode + 3
  const OSOperateErrorCode := InternalServiceErrorCode + 4
  const IOOperateErrorCode := InternalServiceErrorCode + 5
  const InsufficientStockErrorCode := InternalServiceErrorCode + 6
  const InternalRPCErrorCode := InternalServiceErrorCode + 7
  const InternalRocketmqErrorCode := InternalServiceErrorCode + 8

  // 600xx
  const UpYunFileErrorCode := 60000
  const RedisKeyNotExist := UpYunFileErrorCode + 1
  const RepeatedOperation := UpYunFileErrorCode + 2

  // 10xx: user service errors
  const ServiceUserExist := 1000
  const ServiceUserNotExist := ServiceUserExist + 1
  const ServiceInvalidUsername := ServiceUserExist + 2
  const ServiceInvalidPassword := ServiceUserExist + 3
  const ServiceInvalidEmail := ServiceUserExist + 4
  const ServiceInvalidCode := ServiceUserExist + 5
  const ErrRecordNotFound := ServiceUserExist + 6
  const UserLogOut := ServiceUserExist + 7
  const UserAlreadyLogin := ServiceUserExist + 8

  /** The groups, each in declaration order. */
  const ParamGroup: seq<int> :=
    [ParamVerifyErrorCode, ParamMissingErrorCode, ParamMissingHeaderCode, ParamInvalidHeaderCode]
  const AuthGroup: seq<int> :=
    [AuthInvalidCode, AuthAccessExpiredCode, AuthRefreshExpiredCode, AuthNoTokenCode,
     AuthNoOperatePermissionCode, AuthMissingTokenCode, IllegalOperatorCode]
  const InternalGroup: seq<int> :=
    [InternalServiceErrorCode, InternalDatabaseErrorCode, InternalRedisErrorCode,
     InternalNetworkErrorCode, OSOperateErrorCode, IOOperateErrorCode,
     InsufficientStockErrorCode, InternalRPCErrorCode, InternalRocketmqErrorCode]
  const UpYunGroup: seq<int> := [UpYunFileErrorCode, RedisKeyNotExist, RepeatedOperation]
  const UserGroup: seq<int> :=
    [ServiceUserExist, ServiceUserNotExist, ServiceInvalidUsername, ServiceInvalidPassword,
     ServiceInvalidEmail, ServiceInvalidCode, ErrRecordNotFound, UserLogOut, UserAlreadyLogin]

  /** Every numeric code of the package, in ascending order of value. */
  const AllCodes: seq<int> := UserGroup + [SuccessCode] + ParamGroup + AuthGroup + InternalGroup + UpYunGroup

  /** `g` is an iota group starting at `base`: its i-th member is `base + i`. */
  ghost predicate IotaFrom(g: seq<int>, base: int) {
    forall i :: 0 <= i < |g| ==> g[i] == base + i
  }

  ghost predicate StrictlyIncreasing(s: seq<int>) {
    forall i :: 0 <= i < |s| - 1 ==> s[i] < s[i + 1]
  }

  ghost predicate PairwiseDistinct(s: seq<int>) {
    forall i, j :: 0 <= i < j < |s| ==> s[i] != s[j]
  }

  /** What an error message tells apart among errors that share a code. */
  datatype Cause =
    | CodeReadFailed        // reading a verification code from the store failed (or the key was absent)
    | CodeMalformed         // the stored verification-code value does not have exactly one '_'
    | CodeWriteFailed
    | CodeDeleteFailed
    | BlacklistWriteFailed
    | BlacklistReadFailed
    | ProfileEncodeFailed
    | ProfileWriteFailed
    | ProfileReadFailed
    | ProfileDecodeFailed
    | RateLimitWriteFailed
    | CodeMismatch          // the request's code differs from the stored one
    | OldPasswordMismatch
    | UserMissing
    | CourseSearchFailed
    | CourseDetailFailed
    | ResourceListFailed
    | CommentListFailed
    | RatingSubmitFailed
    | CommentSubmitFailed
    | CommentDeleteFailed
    | RatingDeleteFailed
    | DifficultyOutOfRange
    | WorkloadOutOfRange
    | UsefulnessOutOfRange
    | ParamVerifyDefault    // the predeclared ParamVerifyError with its own message
    | ReactionActionInvalid
    | CourseIdInvalid
    | CommentIdInvalid
    | RatingIdInvalid

  /** The error values the modelled code returns. */
  datatype Error =
    | ErrNo(code: int, cause: Cause)   // errno.NewErrNo(code, message), and the predeclared ParamVerifyError
    | InvalidParameter(cause: Cause)   // errno.ServiceInvalidParameter, whose number is declared outside code.go
    | RatingRangeInvalid               // the predeclared errno.ValidationRatingRangeInvalidError
    | Opaque(id: nat)                  // an error made by a collaborator outside the model

  lemma {:induction false} IncreasingIsDistinct(s: seq<int>)
    requires StrictlyIncreasing(s)
    ensures PairwiseDistinct(s)
    ensures |s| > 0 ==> forall k :: 0 < k < |s| ==> s[0] < s[k]
  {
    if |s| > 1 {
      IncreasingIsDistinct(s[1..]);
    }
  }

  lemma ParamCodesConsecutive()
    ensures IotaFrom(ParamGroup, 20000)
    ensures ParamGroup[0] == ParamVerifyErrorCode == 20000 && ParamGroup[|ParamGroup| - 1] == ParamInvalidHeaderCode == 20003
  {
  }

  lemma AuthCodesConsecutive()
    ensures IotaFrom(AuthGroup, 30000)
    ensures AuthGroup[0] == AuthInvalidCode == 30000 && AuthGroup[|AuthGroup| - 1] == IllegalOperatorCode == 30006
  {
  }

  lemma InternalCodesConsecutive()
    ensures IotaFrom(InternalGroup, 50000)
    ensures InternalRedisErrorCode == 50002 && InternalDatabaseErrorCode == 50001
  {
  }

  lemma UserAndUpYunCodes()
    ensures IotaFrom(UserGroup, 1000) && IotaFrom(UpYunGroup, 60000)
    ensures ServiceInvalidCode == 1005 && ServiceUserNotExist == 1001 && RedisKeyNotExist == 60001
  {
  }

  /** No two codes of the package share a number, within or across groups. */
  lemma AllCodesDistinct()
    ensures PairwiseDistinct(AllCodes)
  {
    assert StrictlyIncreasing(AllCodes);
    IncreasingIsDistinct(AllCodes);
  }
}
