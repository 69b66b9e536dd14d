# LearnShare: the ephemeral credential cache and the services over it

This project models in Dafny the short-lived state that the LearnShare
back end keeps in Redis, and the service code that reads and writes it:

- one-time e-mail verification codes, stored as `code_<unix seconds>` under
  the bare address for ten minutes;
- the token blacklist, which stores the mark `blacklisted` under the bare
  token for 72 hours;
- the user-profile cache, which stores a JSON record under `user:<id>`;
- the per-address e-mail rate limit, which stores `1` under
  `email_rate_limit:<ip>` for one minute.

It also models the service operations around that state: the user
service, the administrators' user service and the course service. Most of
them are early-return chains of validation steps. The project also covers
the numeric error codes of the errno package.

The store is an in-memory map with a deadline per key and a clock, and a
flag says whether the store can be reached. Each read is a function of the
store's observable state (`Kv.View`). Each write is a method on the store
object (`Kv.Store`), specified as a transition of that state. This lets the
lemmas state what a later read returns after a given sequence of writes and
clock ticks.

The database layer, the `pkg/utils` helpers and `encoding/json` are
collaborators. The model sees only their results. The database object
records the calls made to it, in order, so each service contract says which
database calls happen and in which order, including "no call at all" on
every early-return path.

Modules, in dependency order:

- `Wrappers`: Option and Result.
- `Errno`: the error codes and the error values.
- `GoStrings`: the parts of Go's `strings`, `unicode` and `fmt` that the
  code uses.
- `Kv`: the store.
- `Collaborators`: the database, the helpers and the JSON codec.
- `Paging`: the paging defaults.
- `RedisUser`: `biz/dal/redis/user.go`.
- `UserService`: `biz/service/user.go`.
- `UserAdminService`: `biz/service/user_admin.go`.
- `CourseService`: `biz/service/course.go`.

## Where the code departs from single-use, namespaced, fail-closed credentials

- **A missing code looks like an outage.** `GetCodeCache` returns the same
  `InternalRedisErrorCode` error for an absent key, an expired key and an
  unreachable store. It never uses `RedisKeyNotExist`. See
  `RedisUser.MissingCodeLooksLikeOutage`. So a user who types a code after
  it expired gets a 50002 internal error, not an invalid-code error.
- **Codes are not single-use.** A one-time code would be invalidated by
  the flow that accepts it. Here no flow (`VerifyEmail`,
  `UpdateEmail`, `ResetPassword`) calls `DeleteCodeCache`. These methods do
  not even modify the store. A matching code therefore keeps working until
  its ten minutes are up (`UserService.CodeReusable`).
- **Codes and tokens share one key space.** They are stored under bare
  keys, with no namespace. Blacklisting a string that is also an address
  with a pending code turns that code into a format error
  (`RedisUser.BlacklistShadowsCode`).
- **A code that contains `_` is stored but never reads back**
  (`RedisUser.CodeWithSeparatorRejected`).
- **The stored timestamp is never used.** The code keeps its issuance time
  in the stored value (`RedisUser.CodeCarriesTimestamp`), but only the TTL
  decides expiry.
- **The rate-limit check has no error result.** `CheckEmailRateLimit`
  returns only a boolean, so a caller cannot tell a store failure from
  "not limited". What `IsKeyExist` answers on a failure is not part of this
  model; the model assumes "not limited" (see "## Left out").
- **A TTL of zero or less means no expiry.** This matters for
  `SetUserInfoCache`, whose expiration the caller supplies.

## Model

| member | source | states |
|---|---|---|
| Errno.ParamCodesConsecutive | pkg/errno/code.go:9-14 | the parameter codes are the iota group 20000..20003, in declaration order |
| Errno.AuthCodesConsecutive | pkg/errno/code.go:17-25 | the auth codes are the iota group 30000..30006, in declaration order |
| Errno.InternalCodesConsecutive | pkg/errno/code.go:30-40 | the internal codes are the iota group from 50000; the database code is 50001 and the Redis code is 50002 |
| Errno.UserAndUpYunCodes | pkg/errno/code.go:42-60 | the user codes are the iota group from 1000 (ServiceUserNotExist 1001, ServiceInvalidCode 1005); the 600xx group gives RedisKeyNotExist 60001 |
| Errno.AllCodesDistinct | pkg/errno/code.go:3-60 | no two numeric codes of the package are equal, within a group or across groups |
| GoStrings.Split | biz/dal/redis/user.go:20 | `strings.Split` on `_`: it yields one more piece than there are separators, no piece holds `_`, and joining the pieces gives back the input |
| GoStrings.FormatInt | biz/dal/redis/user.go:31 | `%d` yields a nonempty optional minus sign followed by digits, and never a `_` |
| GoStrings.DigitsRoundTrip | biz/dal/redis/user.go:31 | the decimal digits of a natural number read back as that number |
| GoStrings.Fields | biz/service/user.go:73 | `strings.Fields` yields nonempty pieces with no white space, and no pieces exactly when the input is all white space |
| GoStrings.EqualFold | biz/service/user.go:79 | equal strings match; a match has equal length; changing the case of ASCII letters keeps a match (with `EqualFoldIgnoresAsciiCase`) |
| GoStrings.EqualFoldIgnoresAsciiCase | biz/service/user.go:79 | a word whose ASCII letters are upper-cased anywhere still matches the word, so `BEARER` and `bearer` match `Bearer` |
| GoStrings.TrimSpace | biz/service/course.go:32-40 | the trimmed text has no white space at either end and is no longer than the input |
| GoStrings.TrimSpacePadded | biz/service/course.go:32-40 | trimming removes exactly the white space around a text that has none at its ends |
| Kv.ExpiryFor | biz/dal/redis/user.go:32-33 | a SET with a positive expiration sets a deadline exactly that far ahead; zero or a negative expiration sets none |
| Kv.View.Exists | biz/dal/redis/user.go:114-117 | EXISTS as `IsKeyExist` is assumed to answer: true exactly when the store is reachable and a live entry is present |
| Kv.View.Get | biz/dal/redis/user.go:60-66 | GET fails exactly when the store is unreachable; it hits exactly when a live entry exists, and then yields that entry's value |
| Kv.PutReadBack | biz/dal/redis/user.go:29-38 | a value written with a positive TTL reads back until the TTL has elapsed, and is absent from then on |
| Kv.PutOtherKey | biz/dal/redis/user.go:33 | a write to one key leaves the reads of every other key unchanged |
| Kv.Store.Set | biz/dal/redis/user.go:33 | `RDB.Set` with an expiration: the new state is the old one with the entry put, and it reports success exactly when the store was reachable |
| Kv.Store.Del | biz/dal/redis/user.go:42 | `RDB.Del`: the new state is the old one with the key removed, and it reports success exactly when the store was reachable |
| Collaborators.ConvertAll | biz/service/course.go:57-59 | the append loop gives one converted element per row, in the rows' order |
| Paging.PageOrDefault | biz/service/course.go:42-47 | a page parameter of zero or less becomes the default; a positive one is kept; the result is always positive |
| RedisUser.CodeValue | biz/dal/redis/user.go:30-31 | the stored value is the code, then `_`, then the `%d` of the Unix time in seconds |
| RedisUser.UserKey | biz/dal/redis/user.go:79 | the profile key is `user:` followed by the id, unchanged |
| RedisUser.RateLimitKey | biz/dal/redis/user.go:105 | the rate-limit key is `email_rate_limit:` followed by the address, unchanged |
| RedisUser.GetCodeCache | biz/dal/redis/user.go:14-26 | Ok exactly when a live value with exactly one `_` exists; the code is then the `_`-free part before that separator; otherwise a Redis-code error, a format error if a value existed and a read error if not |
| RedisUser.PutCodeToCache | biz/dal/redis/user.go:29-38 | stores `code_<unix seconds>` under the key with a ten-minute TTL; fails with the Redis code exactly when the store is unreachable |
| RedisUser.DeleteCodeCache | biz/dal/redis/user.go:41-47 | removes the key; fails with the Redis code exactly when the store is unreachable |
| RedisUser.CodeRoundTrip | biz/dal/redis/user.go:14-38 | a code without `_` that was put reads back unchanged at any moment within its ten minutes |
| RedisUser.CodeExpires | biz/dal/redis/user.go:15-32 | once ten minutes have passed, reading the code is the Redis read error |
| RedisUser.CodeDeleted | biz/dal/redis/user.go:14-47 | after a delete, reading the code is the Redis read error |
| RedisUser.CodeLastWriteWins | biz/dal/redis/user.go:29-38 | a second put for the same key replaces the first code |
| RedisUser.CodeWithSeparatorRejected | biz/dal/redis/user.go:20-31 | a code that contains `_` is stored, but reading it gives the format error |
| RedisUser.CodeCarriesTimestamp | biz/dal/redis/user.go:30-31 | the stored value splits into the code and the decimal Unix time, in seconds, of the write |
| RedisUser.MissingCodeLooksLikeOutage | biz/dal/redis/user.go:15-18 | an absent key gives the same error as an unreachable store, and that error is not RedisKeyNotExist |
| RedisUser.SetBlacklistToken | biz/dal/redis/user.go:50-56 | stores the mark under the bare token for 72 hours; fails with the Redis code exactly when the store is unreachable |
| RedisUser.IsBlacklistToken | biz/dal/redis/user.go:59-71 | an error exactly when the store is unreachable; true exactly when the live value is the mark; a miss or any other value is false |
| RedisUser.BlacklistWindow | biz/dal/redis/user.go:50-71 | a blacklisted token reads as blacklisted for exactly 72 hours |
| RedisUser.NeverBlacklisted | biz/dal/redis/user.go:60-64 | a token that was never written is not blacklisted (and this is not an error) |
| RedisUser.BlacklistIdempotent | biz/dal/redis/user.go:50-56 | blacklisting a token again at any later moment leaves the same store as a single blacklisting at that moment: the second call restarts the 72-hour window |
| RedisUser.BlacklistOtherToken | biz/dal/redis/user.go:50-71 | blacklisting one token leaves the answer for every other token unchanged |
| RedisUser.BlacklistShadowsCode | biz/dal/redis/user.go:14-56 | blacklisting a key that holds a pending code makes reading that code a format error |
| RedisUser.CodeIsNotBlacklistMark | biz/dal/redis/user.go:29-71 | a key that holds a pending code is not reported as a blacklisted token |
| RedisUser.SetUserInfoCache | biz/dal/redis/user.go:74-84 | an encoding failure writes nothing and is an error; otherwise the encoding is stored under `user:<id>` with the caller's expiration |
| RedisUser.GetUserInfoCache | biz/dal/redis/user.go:87-101 | a miss is `(nil, nil)`; a value that decodes yields the decoded record; a value that does not decode is a decode error; an unreachable store is a read error |
| RedisUser.UserInfoRoundTrip | biz/dal/redis/user.go:74-101 | with a faithful codec, a cached profile reads back equal to what was stored, for as long as its TTL runs |
| RedisUser.UserInfoExpires | biz/dal/redis/user.go:90-93 | an expired profile is a miss, not an error |
| RedisUser.UserInfoNeverSet | biz/dal/redis/user.go:90-93 | a profile that was never cached is a miss, not an error |
| RedisUser.SetEmailRateLimit | biz/dal/redis/user.go:104-111 | stores `1` under `email_rate_limit:<ip>` for one minute; fails with the Redis code exactly when the store is unreachable |
| RedisUser.CheckEmailRateLimit | biz/dal/redis/user.go:114-117 | limited exactly when the store is reachable and a live entry exists under the address's key |
| RedisUser.RateLimitWindow | biz/dal/redis/user.go:104-117 | after the limit is set, the address is limited for exactly one minute and free again after that |
| RedisUser.RateLimitPerAddress | biz/dal/redis/user.go:104-117 | limiting one address leaves every other address as it was |
| RedisUser.ProfileAndRateLimitKeysDisjoint | biz/dal/redis/user.go:79-105 | a profile key never equals a rate-limit key |
| UserService.BearerToken | biz/service/user.go:68-87 | no token exactly when the header is blank or is a lone `Bearer` in any case; otherwise the token is the second field when the first is `Bearer` in any case, and the first field when it is not; it is never empty and holds no white space |
| UserService.BearerTokenOfScheme | biz/service/user.go:79-83 | `Bearer <token>`, in any case and with any white space around, yields the token |
| UserService.FirstWordToken | biz/service/user.go:84-87 | a header whose first word is not `Bearer` revokes that first word, whatever follows it (`Basic dXNlcg==` revokes `Basic`) |
| UserService.SchemeWithoutToken | biz/service/user.go:79-82 | `Bearer` with nothing after it yields no token |
| UserService.LoginOut | biz/service/user.go:67-94 | without a token, nothing is written and there is no error; otherwise the token is blacklisted for 72 hours, the write's error is returned unchanged, and on success the token then reads as blacklisted |
| UserService.ValidateAccount | biz/service/user.go:27-37 | the username, password and e-mail checks are made in that order, and the first failing check's error is the result |
| UserService.Register | biz/service/user.go:25-51 | nothing reaches the database unless validation and hashing succeed; then one create with the hash, whose error is returned |
| UserService.LoginIn | biz/service/user.go:53-65 | one lookup by e-mail; its error, or the password-compare error, is returned unchanged; on success the user is returned with an empty password hash |
| UserService.SendVerifyEmail | biz/service/user.go:96-113 | the code is cached only after generation and mailing succeed, and on either failure the store is unchanged; after success a code without `_` reads back |
| UserService.CheckCode | biz/service/user.go:119-126 | a cache error is passed on before any comparison; a different code is ServiceInvalidCode; only an equal code passes |
| UserService.IssuedCodePasses | biz/service/user.go:119-126 | within its ten minutes, an issued code passes exactly when the request carries that code |
| UserService.ExpiredCodeFails | biz/service/user.go:119-122 | after ten minutes no code passes, and the error is the Redis read error |
| UserService.CodeReusable | biz/service/user.go:115-220 | a matching code passes again at any later moment within its ten minutes |
| UserService.VerifyEmail | biz/service/user.go:115-133 | no database call unless the code check passes; then one status update to "active"; the store is never written |
| UserService.UpdateEmail | biz/service/user.go:135-153 | the code cached for the new address must match before the one e-mail update; the store is never written |
| UserService.ResetPassword | biz/service/user.go:195-220 | the code check comes before hashing, and hashing before the lookup by e-mail; then one password update for the id found; the store is never written |
| UserService.UpdatePassword | biz/service/user.go:155-175 | a lookup failure is returned; an old-password mismatch is ServiceInvalidPassword; only then hash and update for the id found |
| UserService.UpdateMajor | biz/service/user.go:177-189 | a lookup failure is returned; otherwise one major update for the id found |
| UserService.GetUserInfo | biz/service/user.go:222-228 | the record the lookup returns, or its error |
| UserAdminService.AdminAddUser | biz/service/user_admin.go:23-52 | the same three checks in the same order; any failure is `(0, err)` with no database call; on success the id from the create call |
| UserAdminService.PlanPassword | biz/service/user_admin.go:62-72 | an absent password is left absent; a supplied one is checked and then hashed, and only its hash goes forward; each failure gives its own error |
| UserAdminService.AdminUpdateUser | biz/service/user_admin.go:54-82 | a lookup failure is ServiceUserNotExist before any update; then the password plan; then one update carrying the other fields unchanged |
| UserAdminService.AdminGetUserList | biz/service/user_admin.go:84-104 | the page fields are defaulted in place; one list query for that page; on error no users and a total of 0, otherwise every row converted in order |
| CourseService.DbFailure | biz/service/course.go:51-53 | a database failure becomes an error with the database code that names the failed step; no failure gives no error |
| CourseService.TrimmedOrEmpty | biz/service/course.go:32-40 | an absent filter becomes ""; a present one is trimmed, which by `GoStrings.TrimSpacePadded` strips exactly the white space around it |
| CourseService.Search | biz/service/course.go:29-62 | trimmed filters; the paging is defaulted in place; one query; a failure has the database code; otherwise every course converted in order |
| CourseService.GetCourseDetail | biz/service/course.go:64-72 | one lookup; a failure has the database code; otherwise the course |
| CourseService.ValueOrEmpty | biz/service/course.go:76-84 | an absent type or status becomes ""; a present one is passed on untrimmed |
| CourseService.GetCourseResourceList | biz/service/course.go:74-105 | the filters are defaulted; the paging is defaulted in place; one query; every resource is converted in order |
| CourseService.SortOrDefault | biz/service/course.go:109-112 | an empty sort order becomes "latest"; any other is passed through unchanged |
| CourseService.GetCourseComments | biz/service/course.go:107-134 | the sort order is defaulted and the paging is defaulted in place; one query; every comment is converted in order |
| CourseService.BuildRating | biz/service/course.go:139-161 | a rating outside [0,5] is rejected first, then difficulty, workload and usefulness outside [1,5], in that order; on success the record carries the rating as recommendation, the caller as user, and is visible |
| CourseService.RatingScalesHold | biz/service/course.go:139-161 | every accepted record lies within the scales, and a rejection does not depend on the user |
| CourseService.SubmitCourseRating | biz/service/course.go:136-169 | no database call unless every range check passes; then one submit, whose failure has the database code |
| CourseService.BuildComment | biz/service/course.go:175-181 | the comment carries the request's course, content and parent, the caller as author, and status "normal" |
| CourseService.SubmitCourseComment | biz/service/course.go:171-189 | one submit of the built comment; a failure has the database code; on success the comment is returned as built |
| CourseService.DeleteCourseComment | biz/service/course.go:191-199 | one delete; its error is wrapped with the database code |
| CourseService.DeleteCourseRating | biz/service/course.go:201-209 | one delete; its error is wrapped with the database code |
| CourseService.CheckReaction | biz/service/course.go:212-219 | a comment id of zero or less is rejected first; then only the four actions pass; both are parameter-verification errors |
| CourseService.ReactionActionExact | biz/service/course.go:215-219 | for a valid comment id, every action holding an upper-case letter, or starting or ending with white space, is rejected as an invalid action: no case folding or trimming happens |
| CourseService.ReactCourseComment | biz/service/course.go:211-228 | both guards run before any database call; then one call, whose error is returned unchanged |
| CourseService.CheckId | biz/service/course.go:232-234 | an id of zero or less is ServiceInvalidParameter |
| CourseService.AdminDeleteCourse | biz/service/course.go:231-242 | an id of zero or less is refused with no database call; otherwise the database's error is returned unchanged |
| CourseService.AdminDeleteCourseComment | biz/service/course.go:245-254 | the same guard, for a comment id |
| CourseService.AdminDeleteCourseRating | biz/service/course.go:257-266 | the same guard, for a rating id |

## Left out

- The Redis client, the network and `context` deadlines: the store is a local map that answers at once. A store failure is modelled as the whole store being unreachable; it lasts until the model makes the store reachable again (`Kv.Store.SetReachable`).
- Expiry at the exact deadline: an entry is treated as gone from the millisecond its TTL has fully elapsed (`now < deadline` is live). If the server still returns the value at the deadline itself, each window in the lemmas is one millisecond shorter than on the server.
- `time.Now()`: the store's clock is model state, in milliseconds, and it advances only through `Tick`.
- go-redis's `KeepTTL` expiration value (-1 ns): it is not modelled. Every expiration of zero or less means no expiry.
- `IsKeyExist` is not part of this model. `CheckEmailRateLimit` treats it as "a live entry exists", which is false when the store cannot be reached.
- JSON syntax: `encoding/json` is a pair of marshal and unmarshal functions. The round-trip lemma assumes the pair is faithful.
- The error message texts, including the `+err.Error()` suffixes: an error is its numeric code plus a symbolic cause that tells apart errors sharing a code.
- `ServiceInvalidParameter`, `ParamVerifyError` and `ValidationRatingRangeInvalidError` are not declared in `code.go`: they are separate error values. `ParamVerifyError` is taken to carry `ParamVerifyErrorCode`.
- The `pkg/utils` helpers (`VerifyUsername`, `VerifyPassword`, `VerifyEmail`, `EncryptPassword`, `ComparePassword`, `MailSendCode`) are uninterpreted functions. `GenerateCode`'s result is a parameter. The mail delivery itself is not modelled: only its error result is.
- The database layer (`biz/dal/db`): it is an object that answers each call through a fixed function and records the calls. The `To*Module` converters are opaque functions in the list loops (`Search`, `GetCourseResourceList`, `GetCourseComments`, `AdminGetUserList`). Where a single record is returned (`LoginIn`, `GetUserInfo`, `GetCourseDetail`, `SubmitCourseRating`, `SubmitCourseComment`), the model returns the row or record itself, that is, it takes the converter to be the identity. Ids filled in by the ORM on insert are not modelled: `SubmitCourseComment` returns the comment as built.
- The asynchronous deletes and reactions: the channel and goroutine are left out, and only the received error is modelled.
- Check-then-act races between concurrent requests (rate-limit check then set, code check then use): the model has one request at a time.
- `GetCourseImage`: it needs graphics, fonts, PNG and base64 libraries that are not part of this model.
- `uploadAvatarReq`: it returns an empty result and does nothing.
- The Hertz request context: the caller's uid and the Authorization header are inputs.
- CourseService.BuildRating: `Rating` is a real number, so a NaN rating is not modelled. The `uint8` conversions of difficulty, workload and usefulness are lossless after the range checks.
- Integer widths (`int32`, `int64` identifiers and page fields): modelled as unbounded integers. Nothing in the modelled code does arithmetic on them.
- The difference between a nil and an empty result slice: both are the empty sequence.
- GoStrings.EqualFold: compares ASCII case only. This is exact for the one use, against `Bearer`, whose letters have no non-ASCII case partner.
