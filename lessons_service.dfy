/** The lessons service of internal/domain/lessons/service.go: an
    admin-only lesson creation and a pass-through listing. The lessons
    table is a `LessonStore` whose list grows by one on each successful
    create; the creator's role is read from the user tables. */
module LessonsService {
  import opened Wrappers
  import opened SharedErrors
  import opened Store

  /** `time.Time`, kept as an uninterpreted value. */
  datatype Timestamp = Timestamp(unixNanos: int)

  /** `lessons.Lesson`. */
  datatype Lesson = Lesson(
    id: Uuid, courseId: Uuid, title: string, description: string,
    videoUrl: string, duration: string, createdAt: Timestamp, updatedAt: Timestamp)

  const AdminRole: string := "admin"

  /** What `CreateLesson` answers, and the lessons table it leaves. */
  datatype LessonChange = LessonChange(err: Option<Failure>, lessons: seq<Lesson>)

  /** `CreateLesson`: the creator is looked up by id and a lookup error is
      answered as it is, not as an `APIError`; a creator whose stored role
      is not exactly "admin" is forbidden and the lessons table is not
      touched; for an admin the answer is the lessons repository's create
      of the lesson as given. */
  function CreateLessonSpec(t: Tables, lessons: seq<Lesson>, createrId: Uuid, lesson: Lesson,
                            lookupFault: bool, createFault: bool): (c: LessonChange)
    ensures UserById(t, createrId, lookupFault).Failure? ==>
      c == LessonChange(Some(DbFailure(UserById(t, createrId, lookupFault).error)), lessons)
    ensures UserById(t, createrId, lookupFault).Success? && t.users[createrId].role != AdminRole ==>
      c == LessonChange(Some(ApiFailure(ErrForbidden)), lessons)
    ensures c.err.None? <==>
      !lookupFault && createrId in t.users && t.users[createrId].role == AdminRole && !createFault
    ensures c.err.None? ==> c.lessons == lessons + [lesson]
    ensures c.err.Some? ==> c.lessons == lessons
  {
    match UserById(t, createrId, lookupFault)
    case Failure(e) => LessonChange(Some(DbFailure(e)), lessons)
    case Success(u) =>
      if u.role != AdminRole then LessonChange(Some(ApiFailure(ErrForbidden)), lessons)
      else if createFault then LessonChange(Some(DbFailure(QueryFailed)), lessons)
      else LessonChange(None, lessons + [lesson])
  }

  /** Only the stored role of the creator decides: two stores that agree
      on the creator's row (or both lack it) give the same answer. */
  lemma {:induction false} OnlyCreatorRoleMatters(t: Tables, t': Tables, lessons: seq<Lesson>, createrId: Uuid,
                                                  lesson: Lesson, lookupFault: bool, createFault: bool)
    requires (createrId in t.users) == (createrId in t'.users)
    requires createrId in t.users ==> t.users[createrId].role == t'.users[createrId].role
    ensures CreateLessonSpec(t, lessons, createrId, lesson, lookupFault, createFault)
         == CreateLessonSpec(t', lessons, createrId, lesson, lookupFault, createFault)
  {
    if !lookupFault && createrId in t.users {
      assert UserById(t, createrId, false).value.role == UserById(t', createrId, false).value.role;
    }
  }

  /** The lessons table. */
  class LessonStore {
    var lessons: seq<Lesson>

    constructor (lessons: seq<Lesson>)
      ensures this.lessons == lessons
    {
      this.lessons := lessons;
    }

    /** `GetLessons`: the repository's list (or its error), unchanged. */
    method GetLessons(fault: bool) returns (r: Result<seq<Lesson>, Failure>)
      ensures fault ==> r == Failure(DbFailure(QueryFailed))
      ensures !fault ==> r == Success(lessons)
    {
      if fault {
        return Failure(DbFailure(QueryFailed));
      }
      return Success(lessons);
    }

    /** `CreateLesson` on the lessons table, against `CreateLessonSpec`. */
    method CreateLesson(users: UserStore, createrId: Uuid, lesson: Lesson, lookupFault: bool, createFault: bool)
      returns (err: Option<Failure>)
      modifies this
      ensures var c := CreateLessonSpec(users.Snapshot(), old(lessons), createrId, lesson, lookupFault, createFault);
        err == c.err && lessons == c.lessons
    {
      var found := UserById(users.Snapshot(), createrId, lookupFault);
      if found.Failure? {
        return Some(DbFailure(found.error));
      }
      if found.value.role != AdminRole {
        return Some(ApiFailure(ErrForbidden));
      }
      if createFault {
        return Some(DbFailure(QueryFailed));
      }
      lessons := lessons + [lesson];
      return None;
    }
  }
}
