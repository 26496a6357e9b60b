/** The lesson handlers of internal/app/handlers/lessons.go: the listing
    conversion loop, lesson creation for a creator id, and the two error
    switches. `uuid.New` and `time.Now` arrive as parameters. */
module LessonsHandlers {
  import opened Wrappers
  import opened SharedErrors
  import opened Store
  import opened LessonsService
  import opened Responses

  /** One element of the `GET /lessons` response: the lesson without its
      course id. */
  datatype LessonItem = LessonItem(
    id: Uuid, title: string, description: string, videoUrl: string,
    duration: string, createdAt: Timestamp, updatedAt: Timestamp)

  /** The body of `POST /lessons/{creater_id}`. */
  datatype LessonBody = LessonBody(title: string, description: string, videoUrl: string, duration: string, courseId: Uuid)

  const LessonCreated: string := "Lesson created successfully"

  function ToLessonItem(l: Lesson): (r: LessonItem)
    ensures r.id == l.id && r.title == l.title && r.description == l.description
    ensures r.videoUrl == l.videoUrl && r.duration == l.duration
    ensures r.createdAt == l.createdAt && r.updatedAt == l.updatedAt
  {
    LessonItem(l.id, l.title, l.description, l.videoUrl, l.duration, l.createdAt, l.updatedAt)
  }

  /** Two lessons give the same element exactly when they differ at most
      in their course id. */
  lemma ToLessonItemForgetsOnlyCourse(l: Lesson, l': Lesson)
    ensures ToLessonItem(l) == ToLessonItem(l') <==> l.(courseId := l'.courseId) == l'
  {
  }

  /** The listing conversion: one element per lesson, in order. */
  method ConvertLessons(ls: seq<Lesson>) returns (out: seq<LessonItem>)
    ensures |out| == |ls|
    ensures forall i :: 0 <= i < |ls| ==> out[i] == ToLessonItem(ls[i])
  {
    out := [];
    for k := 0 to |ls|
      invariant |out| == k
      invariant forall i :: 0 <= i < k ==> out[i] == ToLessonItem(ls[i])
    {
      out := out + [ToLessonItem(ls[k])];
    }
  }

  /** `handleGetLessonsError`: only 401 passes through. */
  function HandleGetLessonsError(err: Failure): (r: Reply<seq<LessonItem>>)
    ensures r.Problem?
    ensures r.status == if err.ApiFailure? && err.api.code == 401 then 401 else 500
    ensures r.body == if err.ApiFailure? then ErrorBody(err.api.code, err.api.message) else InternalErrorBody
  {
    Classify({401}, err)
  }

  /** `handleCreateLessonError`: every `APIError`, whatever its code, is
      sent in the 401 variant with its own code and message; any other
      error is a 500. */
  function HandleCreateLessonError(err: Failure): (r: Reply<string>)
    ensures r.Problem?
    ensures err.ApiFailure? ==> r == Problem(401, ErrorBody(err.api.code, err.api.message))
    ensures !err.ApiFailure? ==> r == Problem(500, InternalErrorBody)
  {
    match err
    case ApiFailure(e) => Problem(401, ErrorBody(e.code, e.message))
    case _ => Problem(500, InternalErrorBody)
  }

  /** `GetLessons`: the store's lessons converted, or the error switch. */
  method GetLessons(store: LessonStore, fault: bool) returns (r: Reply<seq<LessonItem>>)
    ensures fault ==> r == HandleGetLessonsError(DbFailure(QueryFailed))
    ensures !fault ==> r.Answer? && r.status == 200 && |r.payload| == |store.lessons|
    ensures !fault ==> forall i :: 0 <= i < |store.lessons| ==> r.payload[i] == ToLessonItem(store.lessons[i])
  {
    var res := store.GetLessons(fault);
    if res.Failure? {
      return HandleGetLessonsError(res.error);
    }
    var items := ConvertLessons(res.value);
    return Answer(200, items);
  }

  /** A failing listing is a database error, never an `APIError`, so it
      is always the plain 500. */
  lemma GetLessonsFailureIs500()
    ensures HandleGetLessonsError(DbFailure(QueryFailed)) == Problem(500, InternalErrorBody)
  {
  }

  /** The lesson `PostLessonsCreaterId` builds: the body's five fields, a
      fresh id, and the two clock readings taken for creation and for
      update (two separate calls, which need not agree). */
  function NewLesson(body: LessonBody, id: Uuid, created: Timestamp, updated: Timestamp): (l: Lesson)
    ensures l.id == id && l.courseId == body.courseId && l.title == body.title
    ensures l.description == body.description && l.videoUrl == body.videoUrl && l.duration == body.duration
    ensures l.createdAt == created && l.updatedAt == updated
  {
    Lesson(id, body.courseId, body.title, body.description, body.videoUrl, body.duration, created, updated)
  }

  /** The answer to the service's result: 200 "Lesson created
      successfully", or the error switch. */
  function CreateLessonReply(err: Option<Failure>): (r: Reply<string>)
    ensures err.None? ==> r == Answer(200, LessonCreated)
    ensures err.Some? ==> r == HandleCreateLessonError(err.value)
  {
    if err.None? then Answer(200, LessonCreated) else HandleCreateLessonError(err.value)
  }

  /** End to end: an admin's lesson is created and answered 200; anybody
      else is answered in the 401 variant with the 403 error in the body;
      an unknown creator, or any database failure, is a plain 500. */
  lemma {:induction false} CreateLessonStatuses(t: Tables, lessons: seq<Lesson>, createrId: Uuid, body: LessonBody,
                                                id: Uuid, created: Timestamp, updated: Timestamp,
                                                lookupFault: bool, createFault: bool)
    ensures var c := CreateLessonSpec(t, lessons, createrId, NewLesson(body, id, created, updated), lookupFault, createFault);
      var r := CreateLessonReply(c.err);
      && (r.status == 200 <==> !lookupFault && createrId in t.users && t.users[createrId].role == AdminRole && !createFault)
      && (!lookupFault && createrId in t.users && t.users[createrId].role != AdminRole ==>
            r == Problem(401, ErrorBody(403, "Forbidden")))
      && ((lookupFault || createrId !in t.users) ==> r == Problem(500, InternalErrorBody))
  {
  }

  /** `PostLessonsCreaterId` over the lessons table. */
  method PostLessonsCreaterId(store: LessonStore, users: UserStore, createrId: Uuid, body: LessonBody,
                              id: Uuid, created: Timestamp, updated: Timestamp, lookupFault: bool, createFault: bool)
    returns (r: Reply<string>)
    modifies store
    ensures var c := CreateLessonSpec(users.Snapshot(), old(store.lessons), createrId,
                                      NewLesson(body, id, created, updated), lookupFault, createFault);
      r == CreateLessonReply(c.err) && store.lessons == c.lessons
  {
    var lesson := NewLesson(body, id, created, updated);
    var err := store.CreateLesson(users, createrId, lesson, lookupFault, createFault);
    if err.Some? {
      return HandleCreateLessonError(err.value);
    }
    return Answer(200, LessonCreated);
  }
}
