/**
 * The session/entitlement store: who the visitor is and which courses they
 * are enrolled in, kept in memory by a reducer and mirrored into two
 * localStorage records so that a reload restores it.
 */
module UserContext {
  import opened Wrappers
  import opened Types
  import opened JsValues

  const COURSESTORE_KEY := "maxCourse"
  const AUTH_KEY := "maxAuth"

  datatype LoginData = LoginData(username: string, email: string, token: string)

  /** The two persisted records, as the structured values their JSON encodes. */
  datatype Stored =
    | StoredAuth(auth: LoginData)
    | StoredCourses(courses: seq<CourseStudent>)

  /** Each key holds the record the store writes under it (anything else would not parse back). */
  predicate WellFormed(storage: map<string, Stored>) {
    && (AUTH_KEY in storage ==> storage[AUTH_KEY].StoredAuth?)
    && (COURSESTORE_KEY in storage ==> storage[COURSESTORE_KEY].StoredCourses?)
  }

  datatype State = State(isLoggedIn: bool, username: string, email: string, presetEmail: string,
                         token: string, courses: seq<CourseStudent>)

  const InitialState := State(false, "", "", "", "", [])

  /**
   * `init`: on the server the initial state; in the browser logged in exactly
   * when the auth record exists, with its identity, and the stored courses
   * (none when that record is absent). The preset email is never restored.
   */
  function Init(hasWindow: bool, storage: map<string, Stored>): (s: State)
    requires WellFormed(storage)
    ensures !hasWindow ==> s == InitialState
    ensures s.isLoggedIn <==> hasWindow && AUTH_KEY in storage
    ensures s.presetEmail == ""
    ensures hasWindow && AUTH_KEY in storage ==> LoginData(s.username, s.email, s.token) == storage[AUTH_KEY].auth
    ensures hasWindow && COURSESTORE_KEY in storage ==> s.courses == storage[COURSESTORE_KEY].courses
    ensures COURSESTORE_KEY !in storage ==> s.courses == []
    ensures AUTH_KEY !in storage ==> s.username == "" && s.email == "" && s.token == ""
  {
    if !hasWindow then InitialState
    else
      var coursesParse := if COURSESTORE_KEY in storage then storage[COURSESTORE_KEY].courses else [];
      var result := InitialState.(isLoggedIn := AUTH_KEY in storage, courses := coursesParse);
      if AUTH_KEY in storage then
        var loginParse := storage[AUTH_KEY].auth;
        result.(username := loginParse.username, email := loginParse.email, token := loginParse.token)
      else result
  }

  datatype Action =
    | Login(data: LoginData)
    | PresetEmail(email: string)
    | SetCourses(courses: seq<CourseStudent>)
    | Logout
    | EnrollCourses(payload: seq<Course>)
    | LessonComplete(course: string, lessonLink: string, lesson: string)

  /** The records ENROLL_COURSES builds by its `reduce`/`concat` fold: one fresh enrolment per course. */
  function NewEnrollments(payload: seq<Course>): (r: seq<CourseStudent>)
    ensures |r| == |payload|
  {
    if payload == [] then []
    else NewEnrollments(payload[..|payload| - 1]) + [CourseStudent(payload[|payload| - 1], None, [])]
  }

  lemma {:induction false} NewEnrollmentsShape(payload: seq<Course>)
    ensures |NewEnrollments(payload)| == |payload|
    ensures forall i :: 0 <= i < |payload| ==> NewEnrollments(payload)[i] == CourseStudent(payload[i], None, [])
  {
    if payload != [] {
      NewEnrollmentsShape(payload[..|payload| - 1]);
    }
  }

  /**
   * The in-memory transition of `reducer`: only LOGIN and LOGOUT touch the
   * identity, only SET_COURSES, ENROLL_COURSES and LOGOUT the courses, and
   * enrolling only adds to the end of the list.
   */
  function Reduce(s: State, a: Action): (r: State)
    ensures !(a.Login? || a.Logout?) ==>
      r.isLoggedIn == s.isLoggedIn && r.username == s.username && r.email == s.email && r.token == s.token
    ensures !(a.SetCourses? || a.EnrollCourses? || a.Logout?) ==> r.courses == s.courses
    ensures a.EnrollCourses? ==> s.courses <= r.courses && |r.courses| == |s.courses| + |a.payload|
    ensures !(a.PresetEmail? || a.Logout?) ==> r.presetEmail == s.presetEmail
  {
    match a
    case Login(d) => s.(isLoggedIn := true, username := d.username, email := d.email, token := d.token)
    case PresetEmail(e) => s.(presetEmail := e)
    case SetCourses(cs) => s.(courses := cs)
    case Logout => InitialState
    case EnrollCourses(p) => s.(courses := s.courses + NewEnrollments(p))
    case LessonComplete(_, _, _) => s
  }

  /**
   * The localStorage writes of `reducer`, from the storage and state before
   * the action: only the two store keys are ever written, and the auth
   * record is present afterwards exactly when LOGIN wrote it or it was
   * there and LOGOUT did not remove it.
   */
  function Persist(storage: map<string, Stored>, s: State, a: Action): (r: map<string, Stored>)
    ensures forall k :: k != AUTH_KEY && k != COURSESTORE_KEY ==>
      (k in r <==> k in storage) && (k in r ==> r[k] == storage[k])
    ensures AUTH_KEY in r <==> a.Login? || (AUTH_KEY in storage && !a.Logout?)
    ensures COURSESTORE_KEY in r <==> a.SetCourses? || a.EnrollCourses? || (COURSESTORE_KEY in storage && !a.Logout?)
  {
    match a
    case Login(d) => storage[AUTH_KEY := StoredAuth(LoginData(d.username, d.email, d.token))]
    case PresetEmail(_) => storage
    case SetCourses(cs) => storage[COURSESTORE_KEY := StoredCourses(cs)]
    case Logout => storage - {AUTH_KEY, COURSESTORE_KEY}
    case EnrollCourses(p) => storage[COURSESTORE_KEY := StoredCourses(s.courses + NewEnrollments(p))]
    case LessonComplete(_, _, _) => storage
  }

  /** A reload now would rebuild exactly this session, except the preset email. */
  ghost predicate Reloads(s: State, storage: map<string, Stored>) {
    WellFormed(storage) && Init(true, storage) == s.(presetEmail := "")
  }

  /** Right after start-up in the browser, a reload gives the same session back. */
  lemma InitReloads(storage: map<string, Stored>)
    requires WellFormed(storage)
    ensures Reloads(Init(true, storage), storage)
  {
  }

  /** Every action keeps memory and storage in step, so a reload at any time restores the session. */
  lemma ReduceKeepsReloads(s: State, storage: map<string, Stored>, a: Action)
    requires Reloads(s, storage)
    ensures Reloads(Reduce(s, a), Persist(storage, s, a))
  {
    var s', storage' := Reduce(s, a), Persist(storage, s, a);
    match a
    case Login(d) =>
      assert Init(true, storage').courses == s.courses;
    case SetCourses(cs) =>
      assert Init(true, storage').courses == cs;
    case EnrollCourses(p) =>
      assert Init(true, storage').courses == s'.courses;
    case Logout =>
      assert AUTH_KEY !in storage' && COURSESTORE_KEY !in storage';
    case PresetEmail(_) =>
    case LessonComplete(_, _, _) =>
  }

  /** Reload right after LOGIN: logged in with the identity just written, whether or not the course sync ran. */
  lemma ReloadAfterLogin(storage: map<string, Stored>, s: State, d: LoginData)
    requires WellFormed(storage)
    ensures WellFormed(Persist(storage, s, Login(d)))
    ensures var r := Init(true, Persist(storage, s, Login(d)));
      r.isLoggedIn && r.username == d.username && r.email == d.email && r.token == d.token
  {
  }

  /** LOGIN sets the identity and leaves the courses and the preset email alone. */
  lemma LoginKeepsCourses(s: State, d: LoginData)
    ensures var r := Reduce(s, Login(d));
      r.isLoggedIn && LoginData(r.username, r.email, r.token) == d
      && r.courses == s.courses && r.presetEmail == s.presetEmail
  {
  }

  /** LOGOUT forgets everything, in memory and in storage; a reload then finds no session and no courses. */
  lemma LogoutClears(storage: map<string, Stored>, s: State)
    requires WellFormed(storage)
    ensures Reduce(s, Logout) == InitialState
    ensures var storage' := Persist(storage, s, Logout);
      AUTH_KEY !in storage' && COURSESTORE_KEY !in storage'
      && (forall k :: k in storage && k != AUTH_KEY && k != COURSESTORE_KEY ==> k in storage' && storage'[k] == storage[k])
      && Init(true, storage') == InitialState
  {
  }

  /** After LOGOUT, a new LOGIN starts from no courses at all: nothing is merged across sessions. */
  lemma LogoutThenLoginHasNoCourses(s: State, d: LoginData)
    ensures Reduce(Reduce(s, Logout), Login(d)).courses == []
  {
  }

  /** SET_COURSES replaces the list wholesale and persists exactly the new list. */
  lemma SetCoursesReplaces(storage: map<string, Stored>, s: State, cs: seq<CourseStudent>)
    requires WellFormed(storage)
    ensures Reduce(s, SetCourses(cs)).courses == cs
    ensures Persist(storage, s, SetCourses(cs))[COURSESTORE_KEY] == StoredCourses(cs)
    ensures Init(true, Persist(storage, s, SetCourses(cs))).courses == cs
  {
  }

  /**
   * ENROLL_COURSES appends: the old list is kept as a prefix, one fresh
   * enrolment (no current lecture, nothing completed) follows per course in
   * payload order, and the whole new list is persisted.
   */
  lemma EnrollAppends(storage: map<string, Stored>, s: State, payload: seq<Course>)
    ensures var r := Reduce(s, EnrollCourses(payload)).courses;
      && s.courses <= r
      && |r| == |s.courses| + |payload|
      && (forall i :: 0 <= i < |payload| ==> r[|s.courses| + i] == CourseStudent(payload[i], None, []))
      && Persist(storage, s, EnrollCourses(payload))[COURSESTORE_KEY] == StoredCourses(r)
  {
    NewEnrollmentsShape(payload);
  }

  /** Enrolling in the same course twice gives two entries for it: there is no de-duplication. */
  lemma EnrollDoesNotDeduplicate(s: State, c: Course)
    ensures var r := Reduce(Reduce(s, EnrollCourses([c])), EnrollCourses([c])).courses;
      |r| == |s.courses| + 2 && r[|s.courses|] == r[|s.courses| + 1] == CourseStudent(c, None, [])
  {
    NewEnrollmentsShape([c]);
  }

  /** PRESET_EMAIL changes only the preset email, writes nothing, and does not survive a reload. */
  lemma PresetEmailInMemoryOnly(storage: map<string, Stored>, s: State, e: string)
    requires WellFormed(storage)
    ensures Reduce(s, PresetEmail(e)) == s.(presetEmail := e)
    ensures Persist(storage, s, PresetEmail(e)) == storage
    ensures Init(true, Persist(storage, s, PresetEmail(e))).presetEmail == ""
  {
  }

  /** LESSON_COMPLETE is declared but has no case in the reducer: nothing happens. */
  lemma LessonCompleteIgnored(storage: map<string, Stored>, s: State, course: string, link: string, lesson: string)
    ensures Reduce(s, LessonComplete(course, link, lesson)) == s
    ensures Persist(storage, s, LessonComplete(course, link, lesson)) == storage
  {
  }

  /** The answer of the my-learning request. */
  datatype CoursesOutcome =
    | CoursesReceived(courses: Option<seq<CourseStudent>>)  // None: the body has no `courses`
    | CoursesFailed(error: Thrown)

  /** The `UserProvider` component: the reducer's state and the browser's localStorage. */
  class UserProvider {
    var state: State
    var storage: map<string, Stored>

    ghost predicate Valid()
      reads this
    {
      Reloads(state, storage)
    }

    /** `useReducer(reducer, initialState, init)` */
    constructor(hasWindow: bool, storage0: map<string, Stored>)
      requires WellFormed(storage0)
      ensures state == Init(hasWindow, storage0) && storage == storage0
      ensures hasWindow ==> Valid()
    {
      state := Init(hasWindow, storage0);
      storage := storage0;
      if hasWindow {
        InitReloads(storage0);
      }
    }

    /** `dispatch`: each case writes its localStorage record(s), then takes its new state. */
    method Dispatch(a: Action)
      requires Valid()
      modifies this
      ensures state == Reduce(old(state), a)
      ensures storage == Persist(old(storage), old(state), a)
      ensures Valid()
    {
      ReduceKeepsReloads(state, storage, a);
      match a {
        case Login(d) =>
          storage := storage[AUTH_KEY := StoredAuth(LoginData(d.username, d.email, d.token))];
          state := state.(isLoggedIn := true, username := d.username, email := d.email, token := d.token);
        case PresetEmail(e) =>
          state := state.(presetEmail := e);
        case SetCourses(cs) =>
          storage := storage[COURSESTORE_KEY := StoredCourses(cs)];
          state := state.(courses := cs);
        case Logout =>
          storage := storage - {AUTH_KEY};
          storage := storage - {COURSESTORE_KEY};
          state := InitialState;
        case EnrollCourses(payload) =>
          var courses := state.courses + NewEnrollments(payload);
          storage := storage[COURSESTORE_KEY := StoredCourses(courses)];
          state := state.(courses := courses);
        case LessonComplete(_, _, _) =>
      }
    }

    /**
     * `fetchUserCourses`: nothing without a server address; a received
     * `courses` list (an empty one included) is dispatched as SET_COURSES; a
     * body without it, or a failure (only logged), changes nothing.
     */
    method FetchUserCourses(strapiSet: bool, outcome: CoursesOutcome) returns (requested: bool)
      requires Valid()
      modifies this
      ensures Valid()
      ensures requested == strapiSet
      ensures requested && outcome.CoursesReceived? && outcome.courses.Some? ==>
        var a := SetCourses(outcome.courses.value);
        state == Reduce(old(state), a) && storage == Persist(old(storage), old(state), a)
      ensures !(requested && outcome.CoursesReceived? && outcome.courses.Some?) ==>
        state == old(state) && storage == old(storage)
    {
      if !strapiSet {
        return false;
      }
      requested := true;
      match outcome {
        case CoursesReceived(courses) =>
          if courses.Some? {
            Dispatch(SetCourses(courses.value));
          }
        case CoursesFailed(_) =>
      }
    }

    /**
     * `setLogin`: LOGIN is dispatched (and persisted) first, then the course
     * list is synchronised; a failed sync keeps the old list and the new
     * session.
     */
    method SetLogin(data: LoginData, strapiSet: bool, outcome: CoursesOutcome) returns (requested: bool)
      requires Valid()
      modifies this
      ensures Valid()
      ensures requested == strapiSet
      ensures state.isLoggedIn && LoginData(state.username, state.email, state.token) == data
      ensures state == old(state).(isLoggedIn := true, username := data.username, email := data.email,
                                   token := data.token, courses := state.courses)
      ensures storage[AUTH_KEY] == StoredAuth(data)
      ensures storage ==
        if requested && outcome.CoursesReceived? && outcome.courses.Some?
        then old(storage)[AUTH_KEY := StoredAuth(data)][COURSESTORE_KEY := StoredCourses(state.courses)]
        else old(storage)[AUTH_KEY := StoredAuth(data)]
      ensures state.courses ==
        if requested && outcome.CoursesReceived? && outcome.courses.Some? then outcome.courses.value
        else old(state.courses)
    {
      Dispatch(Login(data));
      requested := FetchUserCourses(strapiSet, outcome);
    }

    /**
     * `refreshCourses`, and the start-up effect with the same guard: a sync
     * only when a token is held.
     */
    method RefreshCourses(strapiSet: bool, outcome: CoursesOutcome) returns (requested: bool)
      requires Valid()
      modifies this
      ensures Valid()
      ensures requested == (old(state.token) != "" && strapiSet)
      ensures old(state.token) == "" ==> state == old(state) && storage == old(storage)
      ensures state == old(state).(courses := state.courses)
      ensures state.courses ==
        if requested && outcome.CoursesReceived? && outcome.courses.Some? then outcome.courses.value
        else old(state.courses)
      ensures storage ==
        if requested && outcome.CoursesReceived? && outcome.courses.Some?
        then old(storage)[COURSESTORE_KEY := StoredCourses(state.courses)]
        else old(storage)
    {
      if state.token != "" {
        requested := FetchUserCourses(strapiSet, outcome);
      } else {
        requested := false;
      }
    }
  }
}
