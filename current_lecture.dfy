/**
 * The resume-lecture hook: whether the user is enrolled in the course with
 * a given document id, and the request for the lecture to resume.
 */
module CurrentLecture {
  import opened Wrappers
  import opened JsValues
  import opened Types
  import opened AxiosErrors

  /**
   * `hasAccess`: the `find` over the enrolled courses by course document id;
   * an absent id matches no course.
   */
  function HasAccessById(courses: seq<CourseStudent>, documentId: Option<string>): (r: bool)
    ensures r <==> documentId.Some? && exists i :: 0 <= i < |courses| && courses[i].course.documentId == documentId.value
  {
    if documentId.None? || courses == [] then false
    else if courses[0].course.documentId == documentId.value then true
    else
      var rest := HasAccessById(courses[1..], documentId);
      assert forall i :: 1 <= i < |courses| ==> courses[i] == courses[1..][i - 1];
      if rest then
        var j :| 0 <= j < |courses[1..]| && courses[1..][j].course.documentId == documentId.value;
        assert courses[j + 1] == courses[1..][j];
        true
      else false
  }

  /** Enrolling more courses never takes access away. */
  lemma HasAccessByIdMonotone(courses: seq<CourseStudent>, more: seq<CourseStudent>, documentId: Option<string>)
    ensures HasAccessById(courses, documentId) ==> HasAccessById(courses + more, documentId)
  {
    if HasAccessById(courses, documentId) {
      var i :| 0 <= i < |courses| && courses[i].course.documentId == documentId.value;
      assert (courses + more)[i] == courses[i];
    }
  }

  /** The answer: the response's current lecture (None: null or absent), or a thrown error. */
  datatype CurrentLectureOutcome =
    | CurrentLectureReceived(currentLecture: Option<Lecture>)
    | CurrentLectureFailed(error: Thrown)

  const CURRENT_LECTURE_FALLBACK := "An error occurred"

  /** The hook's state. */
  class CurrentLectureHook {
    var currentLecture: Option<Lecture>
    var serverState: string

    constructor()
      ensures currentLecture == None && serverState == ""
    {
      currentLecture := None;
      serverState := "";
    }

    /**
     * The effect: a request only with a server, a non-empty document id and
     * access; success stores the response's lecture, failure stores the
     * error's message or "An error occurred" and keeps the lecture.
     */
    method LoadCurrentLecture(strapiSet: bool, documentId: Option<string>, courses: seq<CourseStudent>,
                              outcome: CurrentLectureOutcome)
      returns (requested: bool)
      modifies this
      ensures requested <==> strapiSet && documentId.Some? && documentId.value != "" && HasAccessById(courses, documentId)
      ensures !requested ==> currentLecture == old(currentLecture) && serverState == old(serverState)
      ensures requested && outcome.CurrentLectureReceived? ==>
        currentLecture == outcome.currentLecture && serverState == old(serverState)
      ensures requested && outcome.CurrentLectureFailed? ==>
        currentLecture == old(currentLecture) && serverState == ErrorMessageOr(outcome.error, CURRENT_LECTURE_FALLBACK)
    {
      requested := false;
      var hasAccess := HasAccessById(courses, documentId);
      if hasAccess {
        if !strapiSet || documentId.None? || documentId.value == "" || !hasAccess {
          return;
        }
        requested := true;
        match outcome {
          case CurrentLectureReceived(lecture) =>
            currentLecture := lecture;
          case CurrentLectureFailed(e) =>
            var errorMsg := CURRENT_LECTURE_FALLBACK;
            var strapiErrorMsg := GetStrapiError(e);
            if strapiErrorMsg != "" {
              errorMsg := strapiErrorMsg;
            }
            serverState := errorMsg;
        }
      }
    }
  }
}
