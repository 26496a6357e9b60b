# tutor_app_back — authentication, gates and error classification in Dafny

This project models the decision logic of the tutor platform backend
(IbadT/tutor_app_back, Go), and proves properties about it:

- **Authentication service**, current and older copies: login, registration, token refresh and token validation.
  - Registration writes a user and then its profile. If the profile write fails, it deletes the user again.
  - Both copies are modelled, and the model proves they agree on a consistent store.
- **User store**: a class with three maps.
  - The maps are users by id, the unique email index, and profiles by user id.
  - Its methods are the repository writes the services use: create user, create profile, delete, password update and status update.
  - Each method is proved against a function on the store's value, `Tables`. The invariants and frame properties are proved about those functions.
- **Bearer gate and role gate** of the HTTP middleware.
  - The gate parses the `Authorization` header following the Bearer scheme of section 2.1 of RFC 6750, matched case-sensitively.
  - It writes the caller's identity into the request context.
  - A loop checks the role against the allowed list.
- **User and lesson services**: nil-id and missing-field guards, the admin-only lesson creation, and the password and status changes.
- **Error taxonomy**: the `APIError` record and its predefined constants.
  - Every `handle*Error` switch maps a service error to a response variant and status (400/401/403/409/500, section 15 of RFC 9110).
  - Both central error handlers are modelled.
- **Response conversions** of the handlers.
  - The list conversions are loops, proved to preserve length, order and contents.
  - The course conversion has optional student and tutor ids.

Collaborators the code calls but does not define are parameters: the password hasher, the token codec, UUID text conversion, `uuid.New` and `time.Now`. An `Env` record holds the first three. Whether a repository call fails is a boolean oracle parameter. A Go `error` is the datatype `SharedErrors.Failure`, one variant per dynamic type the handlers test for. A handler's response variant is identified by its HTTP status (`Responses.Reply`).

The code does not translate every store error into `ErrDatabaseError`:

- the lesson service returns the creator lookup's error unchanged (`LessonsService.CreateLessonSpec`);
- the lessons listing hands the repository's error to the handler (`LessonsService.LessonStore.GetLessons`);
- the lesson-creation handler sends every `APIError`, the 403 included, in its 401 variant (`LessonsHandlers.HandleCreateLessonError`).

## Model

| member | source | states |
|---|---|---|
| Store.UserByEmail | internal/infrastructure/repositories/auth.go:20-28 | a lookup by email finds the row the index names; on a consistent store it succeeds exactly when the email is indexed; a failing query is `QueryFailed`, no row is `RecordNotFound` |
| Store.UserById | internal/infrastructure/repositories/user.go:21-29 | a lookup by id succeeds exactly when the query works and the id is present, and then yields that row |
| Store.EmailTaken | internal/infrastructure/repositories/auth.go:35-43 | the existence count is positive exactly when some user row has the email (on a consistent store) |
| Store.StatusUpdates | internal/infrastructure/repositories/user.go:145-152 | the column map names only `is_active` and `is_verified`, each exactly when the request carries that flag, holding the flag's value |
| Store.StatusUpdatesEmpty | internal/infrastructure/repositories/user.go:147-156 | the column map is empty exactly when neither flag is given |
| Store.InsertUserValid | internal/infrastructure/repositories/auth.go:30-33 | inserting a row that violates neither the primary key nor the unique email keeps the store consistent |
| Store.RemoveUserValid | internal/infrastructure/repositories/user.go:51-53 | deleting a user by id keeps the store consistent |
| Store.RemoveUndoesInsert | internal/domain/auth/service.go:130-134 | deleting the user just inserted restores the store exactly |
| Store.UserStore.CreateUser | internal/infrastructure/repositories/auth.go:30-33 | the insert succeeds exactly when the query works and no unique constraint is violated; it then adds the row and its index entry, and otherwise changes nothing |
| Store.UserStore.CreateUserInfo | internal/infrastructure/repositories/user.go:66-69 | the profile insert stores the profile under its owner's id, or changes nothing on failure |
| Store.UserStore.Delete | internal/infrastructure/repositories/user.go:51-53 | the delete removes the row with that id and its index entry, or changes nothing on failure |
| Store.UserStore.UpdateUserPassword | internal/infrastructure/repositories/user.go:140-142 | only the password column of the row with that id is written |
| Store.UserStore.UpdateStudentStatus | internal/infrastructure/repositories/user.go:144-158 | with no flags it returns without a query and without change; otherwise it overwrites exactly the given flags of the student's row; the replacer id plays no part |
| SharedErrors.Predefined | internal/domain/shared/errors.go:21-70 | each predefined error carries the status of its kind (400 for bad request, invalid input and missing fields; 401 for unauthorized and invalid credentials; 409 for an existing user; 500 for internal, database and token errors) and no details |
| SharedErrors.PredefinedMessagesDistinct | internal/domain/shared/errors.go:21-70 | distinct predefined errors have distinct messages |
| SharedErrors.ErrorText | internal/domain/shared/errors.go:16-18 | `Error()` is the message: rebuilding an error from its code and text loses only the details |
| SharedErrors.NewAPIError | internal/domain/shared/errors.go:73-78 | a custom error keeps code and message and has empty details |
| SharedErrors.NewAPIErrorWithDetails | internal/domain/shared/errors.go:81-87 | code, message and details are all preserved; with empty details it equals `NewAPIError` |
| AuthService.Login | internal/domain/auth/service.go:45-72 | an empty field is a missing field before any lookup; an unknown email and a wrong password both give invalid credentials; other lookup failures are database errors; success means the stored hash matched and the tokens are the ones issued for the stored id and role |
| AuthService.LoginHidesUnknownEmail | internal/domain/auth/service.go:52-63 | an unknown email and a wrong password for a known email give the same answer |
| AuthService.RegisterSpec | internal/domain/auth/service.go:75-143 | missing fields, an unknown role, a failing existence check and a taken email are refused with their errors and leave the store unchanged; nothing is written unless every check passed |
| AuthService.RegisterSuccess | internal/domain/auth/service.go:99-143 | a successful registration adds exactly one fresh user holding the hasher's output and its profile (names and location from the request, empty avatar, bio and phone), and answers the tokens issued for the new id and role |
| AuthService.RegisterCompensates | internal/domain/auth/service.go:130-134 | a failed profile insert answers a database error whatever the delete does; a successful delete restores the store, a failed one leaves the user behind |
| AuthService.RegisterPreservesValid | internal/domain/auth/service.go:104-134 | every registration outcome keeps the store consistent |
| AuthService.RegisterThenLogin | internal/domain/auth/service.go:45-143 | after a successful registration, logging in with the same email and password succeeds (given a sound hasher) |
| AuthService.Register | internal/domain/auth/service.go:75-143 | the method's answer and the store it leaves are those of `RegisterSpec` |
| AuthService.ValidateToken | internal/domain/auth/service.go:185-213 | an empty token is a missing field; a rejected token or a missing, non-string or unparsable subject or role is invalid credentials with nil id and empty role; otherwise exactly the parsed subject and role |
| AuthService.RefreshToken | internal/domain/auth/service.go:146-182 | refresh fails exactly as validation does, and otherwise re-issues for exactly the validated subject and role or fails with a token error |
| AuthService.TypeClaimIgnored | internal/domain/auth/service.go:153-172 | changing the `type` claim changes neither validation nor refresh |
| AuthService.IssuedTokensValidate | internal/domain/auth/service.go:146-213 | both tokens of an issued pair validate to the issued subject and role, and either refreshes to the same pair |
| AuthService.LoginThenValidate | internal/domain/auth/service.go:45-72 | the access token of a successful login validates to the stored user's id and role |
| LegacyAuthService.LegacyLogin | internal/authService/service.go:28-55 | given the same hasher and token codec, the older login answers exactly as the current one |
| LegacyAuthService.LegacyRegisterSpec | internal/authService/service.go:57-121 | missing fields and unknown roles are refused first; a successful lookup means the email is taken, a failing query is a database error, and all leave the store unchanged |
| LegacyAuthService.LegacyRegisterAgrees | internal/authService/service.go:72-78 | on a consistent store the lookup-based and the count-based existence checks agree, so the two registrations agree entirely |
| LegacyAuthService.LegacyRegisterDanglingIndex | internal/authService/service.go:72-98 | a property of the model's representation only: the two existence checks can part only on a store value whose email index names a missing row, which the invariant and a unique index exclude |
| LegacyAuthService.LegacyRegister | internal/authService/service.go:57-121 | the method's answer and store are those of `LegacyRegisterSpec`, the delete's own error ignored |
| LegacyAuthService.SubjectOf | internal/authService/service.go:135-150 | a subject is found exactly when `sub` and `role` are strings and `sub` parses as a UUID |
| LegacyAuthService.LegacyRefreshToken | internal/authService/service.go:123-159 | given the same token codec, the older refresh answers exactly as the current one |
| AuthMiddleware.TrimPrefix | internal/app/middleware/auth.go:26 | with the prefix present, prefix plus result is the input; otherwise the input is unchanged |
| AuthMiddleware.Authenticate | internal/app/middleware/auth.go:15-32 | a missing header, a header without the exact "Bearer " prefix and a token validation rejects each get their own 401; otherwise the identity validation returns for the header minus one prefix |
| AuthMiddleware.BearerToken | internal/app/middleware/auth.go:21-32 | "Bearer " followed by a token is judged by that token alone |
| AuthMiddleware.BearerAloneRejected | internal/app/middleware/auth.go:26-32 | "Bearer " alone is an invalid token |
| AuthMiddleware.LowerCaseSchemeRejected | internal/app/middleware/auth.go:21-23 | a lower-case "bearer " is a malformed header whatever follows |
| AuthMiddleware.IssuedTokenAuthenticates | internal/app/middleware/auth.go:26-38 | an issued access token sent as a bearer token lets its subject through with its role |
| AuthMiddleware.Authorize | internal/app/middleware/auth.go:13-39 | the next handler runs exactly when `Authenticate` accepts, with `user_id` and `user_role` set to the identity; a rejection leaves the context unchanged |
| AuthMiddleware.RoleGate | internal/app/middleware/auth.go:46-60 | a missing or non-string role is a 401; otherwise the request passes exactly when the role is allowed, else 403 |
| AuthMiddleware.EmptyAllowedForbids | internal/app/middleware/auth.go:53-59 | an empty allowed list never lets a request through |
| AuthMiddleware.AuthorizedRoleGate | internal/app/middleware/auth.go:35-59 | behind the bearer gate, the role gate passes exactly the allowed validated roles and answers 403 otherwise |
| AuthMiddleware.RoleMiddleware | internal/app/middleware/auth.go:44-62 | the scan over the allowed roles decides as `RoleGate` |
| UserService.GuardedRead | internal/domain/user/service.go:34-44 | a nil id is invalid input whatever the repository holds; a repository error is a database error; otherwise the repository's value unchanged |
| UserService.NilIdNeverReaches | internal/domain/user/service.go:35-37 | a nil id gets the same answer whatever the repository would have answered |
| UserService.GetUserInfo | internal/domain/user/service.go:34-45 | succeeds exactly for a non-nil id the repository finds, with its value; fails with invalid input or a database error |
| UserService.GetUserStats | internal/domain/user/service.go:71-82 | as `GetUserInfo`, for statistics |
| UserService.GetUserAchievements | internal/domain/user/service.go:85-96 | as `GetUserInfo`, for achievements |
| UserService.GetUserBadges | internal/domain/user/service.go:99-110 | as `GetUserInfo`, for badges |
| UserService.UpdateUserInfo | internal/domain/user/service.go:48-68 | a nil id is invalid input; a missing request or an empty first name, last name or location is a missing field; after those checks a repository failure is a database error; success exactly when every check passes and the repository update works |
| UserService.UpdateUserInfoIgnoresOptionalFields | internal/domain/user/service.go:57-60 | bio and phone never affect the answer |
| UserService.PasswordChangeAsWritten | internal/domain/user/service.go:113-142 | the password change as written: a nil id is invalid input and a missing request a missing field; a failed or empty lookup is a database error; invalid credentials exactly when the current password matches the stored hash; after a mismatch, a hashing or write failure is a database error; success writes the new password's hash, and every failure leaves the store unchanged |
| UserService.PasswordChangeSpec | internal/domain/user/service.go:113-142 | as intended: nil id and missing request as written; a failed or empty lookup is a database error; invalid credentials exactly when the current password does not match; after a match, a hashing or write failure is a database error; success only after a match, storing the hasher's output of the new password; failures leave the store unchanged |
| UserService.AsWrittenInvertsCheck | internal/domain/user/service.go:127-129 | as written, a matching current password is refused and a non-matching one replaces the password; the intended version does the opposite |
| UserService.AsWrittenRefusesRightPassword | internal/domain/user/service.go:127-129 | a concrete store on which the right current password is refused as written and accepted as intended |
| UserService.SetPasswordFrame | internal/infrastructure/repositories/user.go:140-142 | a password write keeps the store consistent and changes only that user's password |
| UserService.PasswordChangeThenLogin | internal/domain/user/service.go:131-141 | after an intended change, the stored value is the new password's hash and login with the new password succeeds |
| UserService.UpdateUserPassword | internal/domain/user/service.go:113-142 | the method's answer and store are those of `PasswordChangeSpec` |
| UserService.StatusChangeSpec | internal/domain/user/service.go:144-159 | a nil id of either kind is invalid input and no flags is a missing field, both without a write; after those checks a repository failure is a database error; success exactly when both ids are set, a flag is given and the repository works, and then the student's row has exactly the given flag columns overwritten |
| UserService.StatusChangeFrame | internal/infrastructure/repositories/user.go:144-158 | a status change keeps the store consistent, touches only the student's row and in it only the flags given, and ignores the replacer id; after a success each given flag holds the requested value |
| UserService.UpdateStudentStatus | internal/domain/user/service.go:144-159 | the method's answer and store are those of `StatusChangeSpec` |
| LessonsService.CreateLessonSpec | internal/domain/lessons/service.go:30-41 | a lookup error is returned unchanged (not as an `APIError`); a non-admin creator is forbidden; only an admin's lesson is appended, exactly as given, and a failure leaves the table unchanged |
| LessonsService.OnlyCreatorRoleMatters | internal/domain/lessons/service.go:30-37 | only the stored role of the creator decides the answer |
| LessonsService.LessonStore.GetLessons | internal/domain/lessons/service.go:26-28 | the listing is the repository's list, or its error, unchanged |
| LessonsService.LessonStore.CreateLesson | internal/domain/lessons/service.go:30-41 | the method's answer and lessons table are those of `CreateLessonSpec` |
| Responses.Classify | internal/app/handlers/auth.go:81-96 | an `APIError` whose code passes through is sent with that status; any other `APIError` goes to the 500 variant keeping its code and message; a non-`APIError` is 500 "Internal server error" |
| Responses.ClassifyStatusBound | internal/app/handlers/auth.go:81-96 | the status is always a pass-through code or 500 |
| AuthHandlers.ToLoginRequest | internal/app/handlers/auth.go:25-29 | the login body is copied field for field |
| AuthHandlers.ToRegisterRequest | internal/app/handlers/auth.go:44-52 | the registration body is copied field for field |
| AuthHandlers.RequestCopiesInjective | internal/app/handlers/auth.go:25-52 | no part of a body is lost on the way to the service |
| AuthHandlers.HandleLoginError | internal/app/handlers/auth.go:81-96 | 400 and 401 pass through; other `APIError`s go to the 500 variant with their code; other errors are 500 "Internal server error" |
| AuthHandlers.HandleRegisterError | internal/app/handlers/auth.go:99-114 | 400 and 409 pass through; the rest is the 500 variant |
| AuthHandlers.HandleRefreshError | internal/app/handlers/auth.go:117-132 | 400 and 401 pass through; the rest is the 500 variant |
| AuthHandlers.Respond | internal/app/handlers/auth.go:31-39 | a success is the given status with the tokens unchanged; a failure goes through the error switch |
| AuthHandlers.PostAuthLogin | internal/app/handlers/auth.go:24-40 | login success is 200 with the service's tokens; failure is the login error switch |
| AuthHandlers.PostAuthRegister | internal/app/handlers/auth.go:43-63 | registration success is 201 with the tokens; failure is the register error switch |
| AuthHandlers.PostAuthRefreshToken | internal/app/handlers/auth.go:66-78 | refresh success is 200 with the tokens; failure is the refresh error switch |
| AuthHandlers.LoginStatuses | internal/app/handlers/auth.go:24-96 | a login is answered 200, 400 (exactly for an empty field), 401 (exactly for invalid credentials) or 500 (database or token failure) |
| AuthHandlers.RegisterStatuses | internal/app/handlers/auth.go:43-114 | a registration is answered 201, 400 (exactly for a missing field or unknown role), 409 (exactly for a taken email) or 500 |
| AuthHandlers.RefreshStatuses | internal/app/handlers/auth.go:66-132 | a refresh is answered 200, 400 (exactly for an empty token), 401 (exactly when validation fails) or 500 |
| LegacyAuthHandlers.HandleLoginError | internal/handlers/authHandlers.go:40-55 | 400 and 401 pass through; the rest is the 500 variant |
| LegacyAuthHandlers.HandleRegisterError | internal/handlers/authHandlers.go:82-97 | 400 and 409 pass through; the rest is the 500 variant |
| LegacyAuthHandlers.HandleRefreshError | internal/handlers/authHandlers.go:116-131 | 400 and 401 pass through; the rest is the 500 variant |
| LegacyAuthHandlers.PostAuthLogin | internal/handlers/authHandlers.go:20-37 | success is 200 with the older service's tokens; failure is the error switch |
| LegacyAuthHandlers.PostAuthRegister | internal/handlers/authHandlers.go:58-79 | success is 201 with the tokens; failure is the error switch |
| LegacyAuthHandlers.PostAuthRefreshToken | internal/handlers/authHandlers.go:100-113 | success is 200 with the tokens; failure is the error switch |
| LegacyAuthHandlers.LegacyEndpointsAgree | internal/handlers/authHandlers.go:20-113 | given the same hasher and token codec, the older and current endpoints give the same answers (registration on a consistent store) |
| UserHandlers.ToProfile | internal/app/handlers/user.go:34-42 | the profile response copies every profile field but the owner's id |
| UserHandlers.ToProfileForgetsOnlyOwner | internal/app/handlers/user.go:34-42 | two profiles give the same response exactly when they differ at most in the owner's id |
| UserHandlers.ToUpdateRequest | internal/app/handlers/user.go:50-56 | the update request copies the five body fields unchanged |
| UserHandlers.ToStats | internal/app/handlers/user.go:106-116 | the stats response copies every field unchanged |
| UserHandlers.ToStatsInjective | internal/app/handlers/user.go:106-116 | distinct statistics give distinct responses |
| UserHandlers.ToAchievementItem | internal/app/handlers/user.go:131-135 | id, user id and name copied |
| UserHandlers.ToBadgeItem | internal/app/handlers/user.go:153-157 | id, user id and name copied |
| UserHandlers.ConvertAchievements | internal/app/handlers/user.go:129-138 | one element per achievement, in order, each its conversion |
| UserHandlers.ConvertBadges | internal/app/handlers/user.go:151-160 | one element per badge, in order, each its conversion |
| UserHandlers.AchievementsRecoverable | internal/app/handlers/user.go:129-138 | the achievements can be read back from the response |
| UserHandlers.BadgesRecoverable | internal/app/handlers/user.go:151-160 | the badges can be read back from the response |
| UserHandlers.HandleReadError | internal/app/handlers/user.go:164-204 | only 401 passes through; every other `APIError`, 400 included, goes to the 500 variant with its code; other errors are 500 "Internal server error" |
| UserHandlers.HandleUpdateError | internal/app/handlers/user.go:83-95 | only 400 passes through; the rest is the 500 variant |
| UserHandlers.GetUsersProfileId | internal/app/handlers/user.go:26-43 | success is 200 with the converted profile; failure is the read error switch |
| UserHandlers.GetUsersIdStats | internal/app/handlers/user.go:98-117 | success is 200 with the converted statistics; failure is the read error switch |
| UserHandlers.GetUsersIdAchievements | internal/app/handlers/user.go:120-139 | success is 200 with one converted element per achievement, in order; failure is the read error switch |
| UserHandlers.GetUsersIdBadges | internal/app/handlers/user.go:142-161 | success is 200 with one converted element per badge, in order; failure is the read error switch |
| UserHandlers.PatchUsersProfileId | internal/app/handlers/user.go:46-66 | success is 200 "User profile updated successfully"; failure is the update error switch |
| UserHandlers.NilIdReadIsServerError | internal/app/handlers/user.go:69-81 | a nil id on a read endpoint is sent in the 500 variant carrying code 400 "Invalid input data" |
| UserHandlers.PatchStatuses | internal/app/handlers/user.go:46-95 | a profile update is answered 200, 400 (exactly for a nil id or a missing required field) or 500 (exactly for a repository failure after the checks) |
| LessonsHandlers.ToLessonItem | internal/app/handlers/lessons.go:30-38 | every lesson field but the course id copied |
| LessonsHandlers.ToLessonItemForgetsOnlyCourse | internal/app/handlers/lessons.go:30-38 | two lessons give the same element exactly when they differ at most in the course id |
| LessonsHandlers.ConvertLessons | internal/app/handlers/lessons.go:28-40 | one element per lesson, in order, each its conversion |
| LessonsHandlers.HandleGetLessonsError | internal/app/handlers/lessons.go:73-85 | only 401 passes through; the rest is the 500 variant |
| LessonsHandlers.HandleCreateLessonError | internal/app/handlers/lessons.go:64-71 | every `APIError`, whatever its code, is sent in the 401 variant with its own code and message; other errors are 500 |
| LessonsHandlers.GetLessons | internal/app/handlers/lessons.go:22-41 | success is 200 with one converted element per stored lesson, in order; a failure goes through the error switch |
| LessonsHandlers.GetLessonsFailureIs500 | internal/app/handlers/lessons.go:73-85 | a failing listing is always the plain 500 |
| LessonsHandlers.NewLesson | internal/app/handlers/lessons.go:45-54 | the lesson copies the body's five fields, takes the fresh id, and takes the two clock readings as its creation and update times |
| LessonsHandlers.CreateLessonReply | internal/app/handlers/lessons.go:55-61 | no error is 200 "Lesson created successfully"; an error goes through the create error switch |
| LessonsHandlers.CreateLessonStatuses | internal/app/handlers/lessons.go:43-71 | lesson creation is answered 200 exactly for an admin creator and a working store; a non-admin gets the 401 variant carrying 403 "Forbidden"; an unknown creator or failing lookup is a plain 500 |
| LessonsHandlers.PostLessonsCreaterId | internal/app/handlers/lessons.go:43-62 | the answer and the lessons table are those of `CreateLessonSpec` on the built lesson, through `CreateLessonReply` |
| CourseHandlers.ToCourseItem | internal/app/handlers/courses.go:31-52 | scalar fields copied; the student id present exactly when the student row is loaded, and then its id; likewise the tutor id |
| CourseHandlers.ToCourseItemIgnoresIdColumns | internal/app/handlers/courses.go:47-52 | the response ids come from the loaded rows, never from the id columns |
| CourseHandlers.ConvertCourses | internal/app/handlers/courses.go:29-55 | one element per course, in order, each its conversion |
| CourseHandlers.HandleCourseError | internal/app/handlers/courses.go:95-121 | only 401 passes through; the rest is the 500 variant; non-`APIError`s are 500 "Internal server error" |
| CourseHandlers.GetCourses | internal/app/handlers/courses.go:22-58 | success is 200 with one converted element per course, in order; failure is the error switch |
| CourseHandlers.GetCoursesCourseId | internal/app/handlers/courses.go:61-93 | success is 200 with the converted course; failure is the error switch |
| ErrorHandler.HandleError | internal/app/middleware/error_handler.go:12-48 | an `echo.HTTPError` is answered with its own code and message; an `APIError` with its code and message, and details exactly when non-empty; anything else 500 "Internal server error" |
| ErrorHandler.ApiErrorRecoverable | internal/app/middleware/error_handler.go:26-38 | the whole `APIError` can be read back from its answer, whose status equals its code |
| ErrorHandler.PredefinedAnswered | internal/app/middleware/error_handler.go:26-38 | every predefined error is answered with its own status and no details |
| LegacyErrorHandler.HandleError | internal/middleware/error_handler.go:11-38 | an `APIError` is answered with its own code and body; an `echo.HTTPError` with a string message becomes an `APIError` of the same code; anything else is 500 "Internal server error"; the status always equals the body's code |
| LegacyErrorHandler.HandleValidationError | internal/middleware/error_handler.go:41-54 | every `echo.HTTPError` becomes 400 "Validation failed" with the original message as details; anything else is answered as `HandleError` does |
| LegacyErrorHandler.ValidationRewritesEchoErrors | internal/middleware/error_handler.go:41-54 | on an `echo.HTTPError` the older handler keeps the code while the validation handler says 400 and moves the message into the details |

## Left out

- Password hashing (bcrypt) is not modelled. `Hash` and `Compare` are parameters, constrained only where a lemma requires a sound hasher.
- JWT signing and verification are not modelled: HS256, the secret, expiry, and the `iat`/`exp`/`type` claims. The token codec is a parameter; `Collaborators.TokensRoundTrip` states the round trip the lemmas rely on. Because of this, expired tokens and foreign signatures are left to the codec.
- `uuid.New`, `time.Now`, `uuid.Parse` and `uuid.UUID.String` are parameters. UUIDs are natural numbers, with 0 as `uuid.Nil`.
- Timestamps of the user row are left out. Lesson and course timestamps are opaque values, and the course rating (`float32`) is carried as its 32 bits without interpretation.
- UserService.UpdateUserInfo: the repository's struct-based `Updates` skips zero-valued fields by ORM rules not visible in the source. So only the answer is modelled, and the write's effect on the profile table is not.
- Read repositories (profile, statistics, achievements, badges, courses) are modelled as functions of the id. The course service is a pure pass-through, so the course handlers take its answer as input.
- AuthHandlers.PostAuthRegister and LegacyAuthHandlers.PostAuthRegister take the registration's answer as input, because registration changes the store. `AuthHandlers.RegisterStatuses` connects them to `AuthService.RegisterSpec`.
- A new user's `is_active` and `is_verified` take the column defaults (true and false) from the user struct's tags. The older service's user struct is assumed to create rows the same way.
- LegacyAuthService.LegacyLogin, LegacyAuthService.LegacyRefreshToken and LegacyAuthHandlers.LegacyEndpointsAgree give the older and the current service one `Env`, so one hasher and one token codec. In the source the older package has its own helpers (internal/authService/orm.go): its tokens carry no `type` claim, and it signs with the environment secret without the fallback secret of internal/infrastructure/external/jwt.go. The agreement is therefore proved only on the assumption that the two packages' hashers and codecs behave alike.
- The older error package (internal/errors) is not part of this model. Its `APIError` and constants are taken to be those of internal/domain/shared/errors.go.
- `ErrForbidden` is used by the lesson service but is not defined in the error file. The model gives it status 403 and the message "Forbidden".
- LegacyErrorHandler.HandleError: the Go code panics when an `echo.HTTPError`'s message is not a string. The model makes that case a precondition (`Answerable`) rather than modelling the panic.
- JSON encoding, `c.JSON`, `WriteErrorResponse` and logging are left out.
- The list handlers build their slices by appending to a nil slice, so an empty list encodes as JSON `null`. The model returns an empty sequence and does not distinguish the two.
- The conversions take addresses of loop-variable fields. The model assumes per-iteration loop variables (Go 1.22 and later); the module's Go version is not shown.
- Server wiring, routing and startup are left out. The route table attaches the bearer gate to groups but registers handlers on the root router, and never installs the role gate. Whether a route is guarded is therefore not modelled; the gates are modelled on their own.
- Concurrent requests are not modelled: two simultaneous registrations of one email, or a crash between the two registration writes. Each operation runs alone on the store.

## Findings

| source | as written | input that shows it | evidently intended | confidence | as-written member | corrected member |
|---|---|---|---|---|---|---|
| internal/domain/user/service.go:127-129 | the password change returns invalid credentials when the current password matches the stored hash, and replaces the password when it does not | a user whose stored hash is that of "old", asking to change "old" to "new": refused with 401 "Invalid credentials"; the same request with a wrong current password replaces the password | refuse when the current password does not match; change it when it does | high, not executed | UserService.PasswordChangeAsWritten, UserService.AsWrittenRefusesRightPassword | UserService.PasswordChangeSpec, UserService.UpdateUserPassword |
