/** The course handlers of internal/app/handlers/courses.go: the course
    conversion, whose student and tutor ids are present only when the
    related row was loaded, the listing loop, and the two error switches.
    The rating, a `float32`, is carried as its 32 bits and never
    interpreted. */
module CourseHandlers {
  import opened Wrappers
  import opened SharedErrors
  import opened Store
  import opened LessonsService
  import opened Responses

  /** A `float32`, copied bit for bit. */
  datatype Float32 = Float32(bits: bv32)

  /** `courses.User`, the related student or tutor row. */
  datatype CourseUser = CourseUser(id: Uuid, firstName: string, lastName: string, email: string, avatar: string)

  /** `courses.Course`, with its optional related rows. */
  datatype Course = Course(
    id: Uuid, studentIdColumn: Uuid, tutorIdColumn: Uuid, title: string, description: string,
    progress: int, totalLessons: int, completedLessons: int, duration: string,
    studentsCount: int, rating: Float32, categoryId: Uuid,
    createdAt: Timestamp, updatedAt: Timestamp,
    student: Option<CourseUser>, tutor: Option<CourseUser>)

  /** One course of the response. */
  datatype CourseItem = CourseItem(
    id: Uuid, title: string, description: string, progress: int,
    totalLessons: int, completedLessons: int, duration: string,
    studentsCount: int, rating: Float32, categoryId: Uuid,
    createdAt: Timestamp, updatedAt: Timestamp,
    studentId: Option<Uuid>, tutorId: Option<Uuid>)

  /** The scalar fields of a course, unchanged. */
  predicate CopiesScalars(c: Course, r: CourseItem) {
    && r.id == c.id && r.title == c.title && r.description == c.description
    && r.progress == c.progress && r.totalLessons == c.totalLessons
    && r.completedLessons == c.completedLessons && r.duration == c.duration
    && r.studentsCount == c.studentsCount && r.rating == c.rating
    && r.categoryId == c.categoryId && r.createdAt == c.createdAt && r.updatedAt == c.updatedAt
  }

  /** The course conversion: the scalar fields unchanged; the student id
      present exactly when the student row was loaded, and then that row's
      id; likewise the tutor id. */
  function ToCourseItem(c: Course): (r: CourseItem)
    ensures CopiesScalars(c, r)
    ensures r.studentId.Some? <==> c.student.Some?
    ensures c.student.Some? ==> r.studentId == Some(c.student.value.id)
    ensures r.tutorId.Some? <==> c.tutor.Some?
    ensures c.tutor.Some? ==> r.tutorId == Some(c.tutor.value.id)
  {
    CourseItem(c.id, c.title, c.description, c.progress, c.totalLessons, c.completedLessons,
               c.duration, c.studentsCount, c.rating, c.categoryId, c.createdAt, c.updatedAt,
               if c.student.Some? then Some(c.student.value.id) else None,
               if c.tutor.Some? then Some(c.tutor.value.id) else None)
  }

  /** The student and tutor ids of the response come from the loaded
      rows alone: the id columns of the course are never read. */
  lemma ToCourseItemIgnoresIdColumns(c: Course, s: Uuid, t: Uuid)
    ensures ToCourseItem(c.(studentIdColumn := s, tutorIdColumn := t)) == ToCourseItem(c)
  {
  }

  /** The listing conversion, assigning the optional ids after the scalar
      fields as the source does: one element per course, in order. */
  method ConvertCourses(cs: seq<Course>) returns (out: seq<CourseItem>)
    ensures |out| == |cs|
    ensures forall i :: 0 <= i < |cs| ==> out[i] == ToCourseItem(cs[i])
  {
    out := [];
    for k := 0 to |cs|
      invariant |out| == k
      invariant forall i :: 0 <= i < k ==> out[i] == ToCourseItem(cs[i])
    {
      var c := cs[k];
      var item := CourseItem(c.id, c.title, c.description, c.progress, c.totalLessons, c.completedLessons,
                             c.duration, c.studentsCount, c.rating, c.categoryId, c.createdAt, c.updatedAt,
                             None, None);
      if c.student.Some? {
        item := item.(studentId := Some(c.student.value.id));
      }
      if c.tutor.Some? {
        item := item.(tutorId := Some(c.tutor.value.id));
      }
      out := out + [item];
    }
  }

  /** `handleGetCoursesError` and `handleGetCourseByIDError`: only 401
      passes through. */
  function HandleCourseError<T>(err: Failure): (r: Reply<T>)
    ensures r.Problem?
    ensures r.status == if err.ApiFailure? && err.api.code == 401 then 401 else 500
    ensures r.body == if err.ApiFailure? then ErrorBody(err.api.code, err.api.message) else InternalErrorBody
  {
    Classify({401}, err)
  }

  /** `GetCourses`, given the course service's answer. */
  method GetCourses(res: Result<seq<Course>, Failure>) returns (r: Reply<seq<CourseItem>>)
    ensures res.Failure? ==> r == HandleCourseError(res.error)
    ensures res.Success? ==>
      && r.Answer? && r.status == 200 && |r.payload| == |res.value|
      && forall i :: 0 <= i < |res.value| ==> r.payload[i] == ToCourseItem(res.value[i])
  {
    if res.Failure? {
      return HandleCourseError(res.error);
    }
    var items := ConvertCourses(res.value);
    return Answer(200, items);
  }

  /** `GetCoursesCourseId`, given the course service's answer. */
  function GetCoursesCourseId(res: Result<Course, Failure>): (r: Reply<CourseItem>)
    ensures res.Success? ==> r == Answer(200, ToCourseItem(res.value))
    ensures res.Failure? ==> r == HandleCourseError(res.error)
  {
    match res
    case Success(c) => Answer(200, ToCourseItem(c))
    case Failure(e) => HandleCourseError(e)
  }
}
