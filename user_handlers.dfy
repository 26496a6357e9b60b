/** The user handlers of internal/app/handlers/user.go: the profile,
    stats, achievements and badges reads, the profile update, and their
    error switches. The list endpoints convert element by element in a
    loop, as the source does. */
module UserHandlers {
  import opened Wrappers
  import opened SharedErrors
  import opened Store
  import opened UserService
  import opened Responses

  /** The 200 body of `GET /users/profile/{id}`. */
  datatype ProfileResponse = ProfileResponse(
    id: Uuid, firstName: string, lastName: string, avatar: string,
    bio: string, location: string, phone: string)

  /** The body of `PATCH /users/profile/{id}`. */
  datatype PatchBody = PatchBody(firstName: string, lastName: string, bio: string, location: string, phone: string)

  /** The 200 body of `GET /users/{id}/stats`. */
  datatype StatsResponse = StatsResponse(
    id: Uuid, userId: Uuid, coursesCompleted: int, coursesInProgress: int,
    followers: int, following: int, level: int, xp: int, nextLevelXp: int)

  /** One element of the achievements and of the badges responses. */
  datatype AchievementItem = AchievementItem(id: Uuid, userId: Uuid, achievementName: string)
  datatype BadgeItem = BadgeItem(id: Uuid, userId: Uuid, badgeName: string)

  const ProfileUpdated: string := "User profile updated successfully"

  // ---- Conversions ----

  /** The profile response: every field of the stored profile except its
      owner's id. */
  function ToProfile(info: UserInfo): (p: ProfileResponse)
    ensures p.id == info.id && p.firstName == info.firstName && p.lastName == info.lastName
    ensures p.avatar == info.avatar && p.bio == info.bio && p.location == info.location && p.phone == info.phone
  {
    ProfileResponse(info.id, info.firstName, info.lastName, info.avatar, info.bio, info.location, info.phone)
  }

  /** Two profiles give the same response exactly when they differ at most
      in the owner's id. */
  lemma ToProfileForgetsOnlyOwner(info: UserInfo, info': UserInfo)
    ensures ToProfile(info) == ToProfile(info') <==> info.(userId := info'.userId) == info'
  {
  }

  /** The update request: the five body fields unchanged. */
  function ToUpdateRequest(b: PatchBody): (r: UpdateUserInfoRequest)
    ensures r.firstName == b.firstName && r.lastName == b.lastName && r.bio == b.bio
    ensures r.location == b.location && r.phone == b.phone
  {
    UpdateUserInfoRequest(b.firstName, b.lastName, b.bio, b.location, b.phone)
  }

  /** The stats response: every field unchanged. */
  function ToStats(s: UserStats): (r: StatsResponse)
    ensures r.id == s.id && r.userId == s.userId
    ensures r.coursesCompleted == s.coursesCompleted && r.coursesInProgress == s.coursesInProgress
    ensures r.followers == s.followers && r.following == s.following
    ensures r.level == s.level && r.xp == s.xp && r.nextLevelXp == s.nextLevelXp
  {
    StatsResponse(s.id, s.userId, s.coursesCompleted, s.coursesInProgress, s.followers, s.following, s.level, s.xp, s.nextLevelXp)
  }

  /** Distinct stats give distinct responses. */
  lemma ToStatsInjective(s: UserStats, s': UserStats)
    ensures ToStats(s) == ToStats(s') ==> s == s'
  {
  }

  function ToAchievementItem(a: UserAchievement): (r: AchievementItem)
    ensures r.id == a.id && r.userId == a.userId && r.achievementName == a.achievementName
  {
    AchievementItem(a.id, a.userId, a.achievementName)
  }

  function ToBadgeItem(b: UserBadge): (r: BadgeItem)
    ensures r.id == b.id && r.userId == b.userId && r.badgeName == b.badgeName
  {
    BadgeItem(b.id, b.userId, b.badgeName)
  }

  /** The achievements response: one element per achievement, in order. */
  method ConvertAchievements(xs: seq<UserAchievement>) returns (out: seq<AchievementItem>)
    ensures |out| == |xs|
    ensures forall i :: 0 <= i < |xs| ==> out[i] == ToAchievementItem(xs[i])
  {
    out := [];
    for k := 0 to |xs|
      invariant |out| == k
      invariant forall i :: 0 <= i < k ==> out[i] == ToAchievementItem(xs[i])
    {
      out := out + [ToAchievementItem(xs[k])];
    }
  }

  /** The badges response: one element per badge, in order. */
  method ConvertBadges(xs: seq<UserBadge>) returns (out: seq<BadgeItem>)
    ensures |out| == |xs|
    ensures forall i :: 0 <= i < |xs| ==> out[i] == ToBadgeItem(xs[i])
  {
    out := [];
    for k := 0 to |xs|
      invariant |out| == k
      invariant forall i :: 0 <= i < k ==> out[i] == ToBadgeItem(xs[i])
    {
      out := out + [ToBadgeItem(xs[k])];
    }
  }

  /** The achievements response loses nothing: the list it was made from
      can be read back from it. */
  lemma {:induction false} AchievementsRecoverable(xs: seq<UserAchievement>, out: seq<AchievementItem>)
    requires |out| == |xs|
    requires forall i :: 0 <= i < |xs| ==> out[i] == ToAchievementItem(xs[i])
    ensures xs == seq(|out|, i requires 0 <= i < |out| => UserAchievement(out[i].id, out[i].userId, out[i].achievementName))
  {
    var back := seq(|out|, i requires 0 <= i < |out| => UserAchievement(out[i].id, out[i].userId, out[i].achievementName));
    forall i | 0 <= i < |xs|
      ensures back[i] == xs[i]
    {
      assert out[i] == ToAchievementItem(xs[i]);
    }
  }

  /** The badges response loses nothing either. */
  lemma {:induction false} BadgesRecoverable(xs: seq<UserBadge>, out: seq<BadgeItem>)
    requires |out| == |xs|
    requires forall i :: 0 <= i < |xs| ==> out[i] == ToBadgeItem(xs[i])
    ensures xs == seq(|out|, i requires 0 <= i < |out| => UserBadge(out[i].id, out[i].userId, out[i].badgeName))
  {
    var back := seq(|out|, i requires 0 <= i < |out| => UserBadge(out[i].id, out[i].userId, out[i].badgeName));
    forall i | 0 <= i < |xs|
      ensures back[i] == xs[i]
    {
      assert out[i] == ToBadgeItem(xs[i]);
    }
  }

  // ---- Error switches ----

  /** The switch of the four read endpoints (`handleGetUserProfileError`,
      `handleGetUserStatsError`, `handleGetUserAchievementsError`,
      `handleGetUserBadgesError`): only 401 passes through; every other
      `APIError`, 400 included, goes to the 500 variant. */
  function HandleReadError<T>(err: Failure): (r: Reply<T>)
    ensures r.Problem?
    ensures r.status == if err.ApiFailure? && err.api.code == 401 then 401 else 500
    ensures r.body == if err.ApiFailure? then ErrorBody(err.api.code, err.api.message) else InternalErrorBody
  {
    Classify({401}, err)
  }

  /** `handleUpdateUserProfileError`: only 400 passes through. */
  function HandleUpdateError(err: Failure): (r: Reply<string>)
    ensures r.Problem?
    ensures r.status == if err.ApiFailure? && err.api.code == 400 then 400 else 500
    ensures r.body == if err.ApiFailure? then ErrorBody(err.api.code, err.api.message) else InternalErrorBody
  {
    Classify({400}, err)
  }

  // ---- Endpoints ----

  /** `GetUsersProfileId`. */
  function GetUsersProfileId(id: Uuid, repo: Uuid -> Result<UserInfo, DbError>): (r: Reply<ProfileResponse>)
    ensures var res := GetUserInfo(id, repo);
      && (res.Success? ==> r == Answer(200, ToProfile(res.value)))
      && (res.Failure? ==> r == HandleReadError(ApiFailure(res.error)))
  {
    match GetUserInfo(id, repo)
    case Success(info) => Answer(200, ToProfile(info))
    case Failure(e) => HandleReadError(ApiFailure(e))
  }

  /** `GetUsersIdStats`. */
  function GetUsersIdStats(id: Uuid, repo: Uuid -> Result<UserStats, DbError>): (r: Reply<StatsResponse>)
    ensures var res := GetUserStats(id, repo);
      && (res.Success? ==> r == Answer(200, ToStats(res.value)))
      && (res.Failure? ==> r == HandleReadError(ApiFailure(res.error)))
  {
    match GetUserStats(id, repo)
    case Success(s) => Answer(200, ToStats(s))
    case Failure(e) => HandleReadError(ApiFailure(e))
  }

  /** `GetUsersIdAchievements`. */
  method GetUsersIdAchievements(id: Uuid, repo: Uuid -> Result<seq<UserAchievement>, DbError>)
    returns (r: Reply<seq<AchievementItem>>)
    ensures var res := GetUserAchievements(id, repo);
      && (res.Failure? ==> r == HandleReadError(ApiFailure(res.error)))
      && (res.Success? ==>
            && r.Answer? && r.status == 200 && |r.payload| == |res.value|
            && forall i :: 0 <= i < |res.value| ==> r.payload[i] == ToAchievementItem(res.value[i]))
  {
    var res := GetUserAchievements(id, repo);
    if res.Failure? {
      return HandleReadError(ApiFailure(res.error));
    }
    var items := ConvertAchievements(res.value);
    return Answer(200, items);
  }

  /** `GetUsersIdBadges`. */
  method GetUsersIdBadges(id: Uuid, repo: Uuid -> Result<seq<UserBadge>, DbError>)
    returns (r: Reply<seq<BadgeItem>>)
    ensures var res := GetUserBadges(id, repo);
      && (res.Failure? ==> r == HandleReadError(ApiFailure(res.error)))
      && (res.Success? ==>
            && r.Answer? && r.status == 200 && |r.payload| == |res.value|
            && forall i :: 0 <= i < |res.value| ==> r.payload[i] == ToBadgeItem(res.value[i]))
  {
    var res := GetUserBadges(id, repo);
    if res.Failure? {
      return HandleReadError(ApiFailure(res.error));
    }
    var items := ConvertBadges(res.value);
    return Answer(200, items);
  }

  /** `PatchUsersProfileId`, with `repoFault` saying whether the
      repository update fails. */
  function PatchUsersProfileId(id: Uuid, body: PatchBody, repoFault: bool): (r: Reply<string>)
    ensures var res := UpdateUserInfo(id, Some(ToUpdateRequest(body)), repoFault);
      && (res.Pass? ==> r == Answer(200, ProfileUpdated))
      && (res.Fail? ==> r == HandleUpdateError(ApiFailure(res.error)))
  {
    match UpdateUserInfo(id, Some(ToUpdateRequest(body)), repoFault)
    case Pass => Answer(200, ProfileUpdated)
    case Fail(e) => HandleUpdateError(ApiFailure(e))
  }

  /** A nil id on a read endpoint is the service's 400 invalid input, yet
      it is sent in the 500 variant (with code 400 in the body). */
  lemma NilIdReadIsServerError(
    infoRepo: Uuid -> Result<UserInfo, DbError>, statsRepo: Uuid -> Result<UserStats, DbError>)
    ensures GetUsersProfileId(NilUuid, infoRepo) == Problem(500, ErrorBody(400, "Invalid input data"))
    ensures GetUsersIdStats(NilUuid, statsRepo) == Problem(500, ErrorBody(400, "Invalid input data"))
  {
  }

  /** End to end, a profile update is answered 200, 400 (a nil id or a
      missing field, before any write) or 500 (the repository). */
  lemma {:induction false} PatchStatuses(id: Uuid, body: PatchBody, repoFault: bool)
    ensures var r := PatchUsersProfileId(id, body, repoFault);
      && r.status in {200, 400, 500}
      && (r.status == 400 <==> id == NilUuid || body.firstName == "" || body.lastName == "" || body.location == "")
      && (r.status == 500 <==> !(id == NilUuid || body.firstName == "" || body.lastName == "" || body.location == "") && repoFault)
  {
    var res := UpdateUserInfo(id, Some(ToUpdateRequest(body)), repoFault);
    if res.Fail? {
      assert res.error in {ErrInvalidInput, ErrMissingFields, ErrDatabaseError};
    }
  }
}
