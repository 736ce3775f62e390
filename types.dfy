/** The course records the modelled code reads (only the fields it uses). */
module Types {
  import opened Wrappers

  datatype Lecture = Lecture(id: int, documentId: string, title: string, duration: nat, slug: string)

  datatype Module = Module(id: int, documentId: string, title: string, duration: nat, slug: string,
                           lectures: seq<Lecture>)

  datatype Course = Course(id: int, documentId: string, title: string, duration: nat, slug: string,
                           modules: seq<Module>)

  /** One enrolment: the course, where to resume it, and the lectures already watched. */
  datatype CourseStudent = CourseStudent(course: Course, currentLecture: Option<Lecture>,
                                         lecturesCompleted: seq<Lecture>)
}
