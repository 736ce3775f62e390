# A verified model of the new-lms-remix storefront core

new-lms-remix is a React Router storefront for video courses served by a
Strapi CMS. This project models, in Dafny, the parts of it that make
decisions:

- the duration label on course cards (`formatSeconds`);
- the session and entitlement store (`UserProvider`: `init`, the
  `reducer` and its localStorage mirror, the course sync after login);
- the course sidebar's progress figures, lecture-duration label and
  completed-lectures fetch;
- the lecture page's access gate, play-auth request and "mark as
  watched at 90%" guard;
- the resume-lecture hook;
- extraction of the CMS error envelope from a thrown axios error;
- media URL resolution and the image component's choice;
- the four authentication forms: validation, submission and the
  welcome card;
- build-time prerender path generation;
- page-block dispatch.

Network requests are not performed. Each one is a parameter: its outcome,
meaning the answer's relevant fields or the thrown value. Whether the CMS
address `STRAPI` is configured is a boolean parameter `strapiSet`, because
`app/lib/strapi.ts` is not part of this model. Navigation is returned as
the target path. localStorage is a `map` field of the store.

JavaScript semantics are written out where the code relies on them:

- truthiness, where an empty array is truthy;
- a property read on a non-null value;
- `??` versus `||`;
- `String.prototype.trim` and `padStart`;
- `Math.round` of a percentage, computed exactly on integers as round-half-up;
- the `i` flag of the email pattern.

Files, one module each: `wrappers.dfy`, `js_values.dfy`, `text.dfy`,
`types.dfy`, `routes.dfy`, `strapi_config.dfy`, `axios_errors.dfy`,
`duration.dfy`, `strapi_image.dfy`, `user_context.dfy`,
`course_sidebar.dfy`, `lecture_details.dfy`, `current_lecture.dfy`,
`form_rules.dfy`, `register_form.dfy`, `login_form.dfy`,
`finish_register.dfy`, `finish_login.dfy`, `prerender.dfy`,
`render_component.dfy`.

Facts about the code that the model keeps:

- `formatSeconds(0)` is `"0s"` (the `seconds < 60` branch).
- The my-learning response is typed as a list of courses but stored as
  enrolment records. The model types it as enrolment records, which is
  what the rest of the application reads.
- `StrapiImage` renders nothing whenever the resolved URL is falsy: for a
  null URL, and also for an empty URL when the base is empty.
- LOGIN accepts an empty token: `isLoggedIn` is set from the action, not
  from the token.
- A password's length is JavaScript's `length`, in UTF-16 code units.

## Model

| member | source | states |
|---|---|---|
| Duration.FormatSeconds | app/lib/duration.ts:12-34 | from a minute on, the label is the trimmed display text of the whole hours and leftover minutes |
| Duration.Appended | app/lib/duration.ts:21-30 | the built string is never empty and ends in a space exactly for whole hours with no minutes, the one case the trim changes |
| Duration.Hours | app/lib/duration.ts:18 | `Math.floor(seconds / 3600)`: h·3600 ≤ s < h·3600 + 3600 |
| Duration.Minutes | app/lib/duration.ts:19 | `Math.floor((seconds % 3600) / 60)`: below 60, and m·60 ≤ s mod 3600 < m·60 + 60 |
| Duration.Decomposition | app/lib/duration.ts:18-19 | minutes < 60, and hours·3600 + minutes·60 ≤ s < hours·3600 + (minutes+1)·60 |
| Duration.FormatSecondsUnderMinute | app/lib/duration.ts:13-15 | below 60 seconds the label is the number followed by "s" |
| Duration.FormatSecondsShape | app/lib/duration.ts:17-33 | from 60 seconds the label is "<h>h <m>m", "<h>h" or "<m>m", and the minute count is at least 1 when there are no hours |
| Duration.TrimAppended | app/lib/duration.ts:22-33 | trimming the built string drops exactly the trailing space of "<h>h " |
| Duration.FormatSecondsTrimmed | app/lib/duration.ts:22-33 | the label is never empty and has no leading or trailing space |
| Duration.FormatSecondsMinutes | app/lib/duration.ts:18-30 | for 60 ≤ s < 3600 the label is exactly "<⌊s/60⌋>m", with ⌊s/60⌋ ≥ 1 |
| Duration.FormatSecondsExamplesUnderMinute | app/lib/duration.ts:5-15 | 45 gives "45s" and 0 gives "0s" |
| Duration.FormatSecondsExampleMinute | app/lib/duration.ts:6-30 | 75 gives "1m" |
| Duration.FormatSecondsExampleHours | app/lib/duration.ts:7-33 | 3675 gives "1h 1m" and 3600 gives "1h" |
| Duration.FormatSecondsDeterminesMinutes | app/lib/duration.ts:12-34 | from a minute on, two labels are equal iff the whole-minute counts are; below a minute, iff the seconds are; the two ranges never share a label |
| Duration.SameMinutesIff | app/lib/duration.ts:18-19 | two durations have the same whole hours and leftover minutes iff they have the same number of whole minutes |
| Duration.DisplayTextKind | app/lib/duration.ts:24-30 | each of the three label shapes is recognisable from its text |
| Duration.DisplayTextInjective | app/lib/duration.ts:24-30 | distinct (hours, minutes) pairs give distinct labels |
| Text.ParseNatToString | app/lib/duration.ts:14 | the decimal rendering of a number reads back as that number |
| Text.NatToStringInjective | app/lib/duration.ts:14 | distinct numbers render differently |
| Text.Utf16Length | app/components/forms/register-form.tsx:52 | a string's `length` in UTF-16 code units: between its character count and twice that, equal to it for text inside the Basic Multilingual Plane and twice it for text wholly outside |
| Text.TrimDropsTrailingSpace | app/lib/duration.ts:32-33 | `trim` removes a trailing space from text that has no surrounding whitespace |
| Text.TrimUnchanged | app/lib/duration.ts:32-33 | `trim` leaves text without surrounding whitespace alone |
| JsValues.Truthy | app/utils/axiosErrors.ts:29-35 | a truthy value is neither null nor undefined |
| JsValues.Get | app/utils/axiosErrors.ts:28-34 | a property read yields a value only if the object has that field |
| AxiosErrors.IsAxiosError | app/utils/axiosErrors.ts:6-8 | the flag test: the `isAxiosError` field is present and not undefined |
| AxiosErrors.AxiosFlagPresenceOnly | app/utils/axiosErrors.ts:6-8 | an error is an axios error iff it has an `isAxiosError` field that is not undefined; `false` still counts |
| AxiosErrors.ErrorObject | app/utils/axiosErrors.ts:27-34 | found iff the error is an axios error with a truthy response, response.data and response.data.error, and then it is exactly `response.data.error` |
| AxiosErrors.GetStrapiError | app/utils/axiosErrors.ts:26-42 | "" for a non-axios error; a string message of the envelope is returned exactly; a non-empty result is that message |
| AxiosErrors.GetStrapiErrorDetails | app/utils/axiosErrors.ts:44-60 | the envelope's details iff present and truthy, otherwise null |
| AxiosErrors.ErrorMessageOr | app/components/forms/register-form.tsx:96-102 | the catch blocks show the envelope message when non-empty, otherwise their fallback, which is never empty |
| AxiosErrors.Envelope | app/utils/axiosErrors.ts:10-24 | the error a failed CMS request throws is an axios error whose error object is found |
| AxiosErrors.EnvelopeMessageRoundTrip | app/utils/axiosErrors.ts:26-38 | the message put in an error envelope is the message read back |
| AxiosErrors.EnvelopeDetailsRoundTrip | app/utils/axiosErrors.ts:44-56 | the details put in an envelope are read back when truthy, null otherwise |
| AxiosErrors.NonStringMessageIgnored | app/utils/axiosErrors.ts:35-41 | a message that is not a string gives "" |
| AxiosErrors.MissingResponseIgnored | app/utils/axiosErrors.ts:29-41 | an axios error without a truthy response or data gives "" |
| AxiosErrors.EmptyMessageLikeNoMessage | app/utils/axiosErrors.ts:35-41 | an empty message and no envelope at all both end in the caller's fallback |
| StrapiConfig.InitialServerState | app/components/forms/register-form.tsx:22-27 | the initial server message is "" iff the CMS address is set |
| StrapiImage.StrapiApiUrl | app/components/StrapiImage.tsx:10 | the environment value when defined (even ""), otherwise "http://localhost:1337" |
| StrapiImage.GetStrapiMedia | app/components/StrapiImage.tsx:12-17 | null stays null; "data:", "http" and "//" URLs are unchanged; any other URL gets the base prepended, so it starts with the base and ends with the URL |
| StrapiImage.GetStrapiMediaIdempotent | app/components/StrapiImage.tsx:12-17 | with an absolute base, resolving a resolved URL changes nothing |
| StrapiImage.RelativeBaseNotIdempotent | app/components/StrapiImage.tsx:16 | with a relative base, resolving twice prepends the base twice |
| StrapiImage.RenderImage | app/components/StrapiImage.tsx:27-51 | nothing iff the resolved URL is null or ""; a plain img iff width or height is missing or 0; otherwise the sized Image with the resolved URL and both dimensions |
| Routes.LecturePathInjective | app/components/LectureDetails.tsx:200-213 | for slash-free course slugs, a lecture link determines its course and lecture slugs |
| Routes.CoursePathNotLecturePath | react-router.config.ts:50-55 | a course page never coincides with a lecture page |
| UserContext.Init | app/contexts/user-context.tsx:59-84 | on the server, the initial state; in the browser, logged in iff the auth record exists, with its identity (empty username, email and token without it), and the stored courses or none; never a preset email |
| UserContext.NewEnrollments | app/contexts/user-context.tsx:141-148 | the fold builds exactly one record per course |
| UserContext.Reduce | app/contexts/user-context.tsx:98-159 | only LOGIN and LOGOUT change the identity, only SET_COURSES, ENROLL_COURSES and LOGOUT the courses, only PRESET_EMAIL and LOGOUT the preset email; enrolling appends one record per course at the end |
| UserContext.Persist | app/contexts/user-context.tsx:103-150 | only the auth and course keys are written; the auth record exists afterwards iff LOGIN wrote it or it was there and LOGOUT did not remove it; likewise the course record for SET_COURSES and ENROLL_COURSES |
| UserContext.NewEnrollmentsShape | app/contexts/user-context.tsx:141-148 | the fold builds one record per course, in order, with no current lecture and nothing completed |
| UserContext.InitReloads | app/contexts/user-context.tsx:59-84 | right after start-up, memory and storage agree |
| UserContext.ReduceKeepsReloads | app/contexts/user-context.tsx:98-159 | every action keeps memory and storage in step, so a reload at any time restores the session except the preset email |
| UserContext.ReloadAfterLogin | app/contexts/user-context.tsx:103-118 | a reload after LOGIN is logged in with the same username, email and token |
| UserContext.LoginKeepsCourses | app/contexts/user-context.tsx:112-118 | LOGIN sets the identity and leaves courses and preset email untouched |
| UserContext.LogoutClears | app/contexts/user-context.tsx:133-139 | LOGOUT gives the initial state and removes exactly the two keys, so a reload finds no session |
| UserContext.LogoutThenLoginHasNoCourses | app/contexts/user-context.tsx:103-139 | logging out and in again starts with no courses |
| UserContext.SetCoursesReplaces | app/contexts/user-context.tsx:126-132 | SET_COURSES replaces the list and persists exactly the new list |
| UserContext.EnrollAppends | app/contexts/user-context.tsx:140-155 | ENROLL_COURSES keeps the old list as a prefix, grows it by the payload size with fresh records, and persists the result |
| UserContext.EnrollDoesNotDeduplicate | app/contexts/user-context.tsx:140-155 | enrolling the same course twice gives two records |
| UserContext.PresetEmailInMemoryOnly | app/contexts/user-context.tsx:120-125 | PRESET_EMAIL changes only the preset email, writes nothing, and does not survive a reload |
| UserContext.LessonCompleteIgnored | app/contexts/user-context.tsx:156-158 | LESSON_COMPLETE changes neither state nor storage |
| UserContext.UserProvider.constructor | app/contexts/user-context.tsx:167-168 | the state is `init` of the storage, and in the browser the invariant holds |
| UserContext.UserProvider.Dispatch | app/contexts/user-context.tsx:98-159 | the new state is the reducer's, the new storage is the reducer's writes, and the invariant is kept |
| UserContext.UserProvider.FetchUserCourses | app/contexts/user-context.tsx:170-200 | no request without a server; a received `courses` list, even an empty one, is dispatched as SET_COURSES; a missing list or a failure changes nothing |
| UserContext.UserProvider.SetLogin | app/contexts/user-context.tsx:215-222 | LOGIN is applied and persisted, then the sync; only the identity and the courses change, and only the auth and course records are written; a failed sync keeps the old courses and the new session |
| UserContext.UserProvider.RefreshCourses | app/contexts/user-context.tsx:223-227 | a sync only when a token is held; only the course list and its stored record can change, and without a token nothing changes |
| CourseSidebar.TotalLectures | app/components/CourseSidebar.tsx:80-83 | the total is 0 exactly when every module is empty |
| CourseSidebar.CompletedIn | app/components/CourseSidebar.tsx:87-89 | a module's completed count is positive only if one of its lectures' slugs is in the set |
| CourseSidebar.CompletedCount | app/components/CourseSidebar.tsx:84-91 | the course's completed count is positive only if some module's is |
| CourseSidebar.TotalIsLectureCount | app/components/CourseSidebar.tsx:80-83 | the total is the number of lectures over all modules |
| CourseSidebar.CompletedIsFilteredCount | app/components/CourseSidebar.tsx:84-91 | the completed count is the number of the course's lectures whose slug is in the completed set |
| CourseSidebar.CompletedCountBounds | app/components/CourseSidebar.tsx:80-91 | completed ≤ total; it equals total when every lecture is completed and 0 when none is |
| CourseSidebar.ForeignSlugsIgnored | app/components/CourseSidebar.tsx:84-91 | completed slugs that name no lecture of the course do not change the count |
| CourseSidebar.RoundPercent | app/components/CourseSidebar.tsx:93 | the rounded percentage is at most 100 when part ≤ whole, 100 when all are done and 0 when none are |
| CourseSidebar.RoundPercentCharacterised | app/components/CourseSidebar.tsx:93 | `Math.round(part/whole·100)` exactly: the result is q iff 100·part/whole lies in [q − ½, q + ½), so halves round up |
| CourseSidebar.ProgressPercentage | app/components/CourseSidebar.tsx:92-93 | 0 with no lectures, otherwise the rounded share; always within [0, 100] |
| CourseSidebar.ProgressExtremes | app/components/CourseSidebar.tsx:92-93 | 100 when every lecture is completed, 0 when none is |
| CourseSidebar.ModuleProgress | app/components/CourseSidebar.tsx:165-171 | the same rule per module; 0 for an empty module |
| CourseSidebar.ModuleProgressOfSingleModule | app/components/CourseSidebar.tsx:165-171 | for a one-module course, the module figure is the course figure |
| CourseSidebar.AtMostOneActive | app/components/CourseSidebar.tsx:244 | a lecture is active iff its slug is the current one, so with distinct slugs at most one is active |
| CourseSidebar.IsActive | app/components/CourseSidebar.tsx:244 | a lecture is active iff its slug is the current lecture's slug |
| CourseSidebar.FormatDuration | app/components/CourseSidebar.tsx:246-253 | "H:MM" with the minutes zero-padded when there are hours, otherwise "M:00" |
| CourseSidebar.FormatDurationIgnoresSeconds | app/components/CourseSidebar.tsx:246-253 | the seconds past the last whole minute never change the label |
| CourseSidebar.FormatDurationExamples | app/components/CourseSidebar.tsx:246-253 | 125 gives "2:00" and 3725 gives "1:02" |
| CourseSidebar.FormatDurationAmbiguous | app/components/CourseSidebar.tsx:246-253 | two minutes and two hours both give "2:00": the label does not tell minutes from hours |
| CourseSidebar.WholeMinuteParts | app/components/CourseSidebar.tsx:247-248 | dropping the seconds past the last whole minute keeps the hours and the minutes that `formatDuration` computes |
| CourseSidebar.SlugSet | app/components/CourseSidebar.tsx:54-56 | the `Set` built from the completed slugs holds exactly the listed slugs |
| CourseSidebar.Sidebar.constructor | app/components/CourseSidebar.tsx:24-27 | the sidebar starts with no completed lectures, loading |
| CourseSidebar.Sidebar.FetchCompletedLectures | app/components/CourseSidebar.tsx:29-65 | no request without a server, login or token; the set is replaced only by a received array; an error keeps it; loading always ends |
| LectureDetails.HasAccess | app/components/LectureDetails.tsx:39 | access iff some enrolment's course slug is the page's course slug |
| LectureDetails.HasAccessOnlySlugs | app/components/LectureDetails.tsx:39 | access depends only on the set of enrolled course slugs |
| LectureDetails.Qualifies | app/components/LectureDetails.tsx:143 | a reading qualifies iff the duration is non-zero and the played ratio is at least 0.9 |
| LectureDetails.Run | app/components/LectureDetails.tsx:138-148 | a run of time updates gives one firing decision per update, the guard staying set after a firing |
| LectureDetails.Fires | app/components/LectureDetails.tsx:138-148 | an update fires iff there is a player, the guard is unset, the duration is non-zero and the ratio is at least 0.9 |
| LectureDetails.RunFiresAtFirstQualifying | app/components/LectureDetails.tsx:138-148 | over a run of updates, an update fires iff the guard started unset and it is the first qualifying one |
| LectureDetails.RunFiresAtMostOnce | app/components/LectureDetails.tsx:138-148 | without a reset, check-lecture is triggered at most once |
| LectureDetails.RunFiresWhenQualifying | app/components/LectureDetails.tsx:138-148 | from a reset guard, a run that reaches 90% triggers it |
| LectureDetails.RunExample | app/components/LectureDetails.tsx:143 | at 10, 50, 89, 90, 95 and 99 of 100 seconds, only the update at 90 fires |
| LectureDetails.NeighbourLink | app/components/LectureDetails.tsx:193-219 | a prev/next link exists only for a neighbour and leads to "/courses/{course}/{lecture}" |
| LectureDetails.NeighbourLinksDistinct | app/components/LectureDetails.tsx:199-213 | prev and next with different slugs lead to different pages |
| LectureDetails.LecturePage.constructor | app/components/LectureDetails.tsx:40-52 | not rendering, no play-auth or video id, guard unset, server message as configured |
| LectureDetails.LecturePage.CheckAccess | app/components/LectureDetails.tsx:55-66 | before rendering: no access and not logged in goes to "/login-register", no access while logged in goes to the course page, access renders; once rendering, nothing |
| LectureDetails.LecturePage.LoadPlayAuth | app/components/LectureDetails.tsx:69-108 | the guard is reset; a request only with access and a server; missing fields become ""; a failure shows the message or "An error occurred" |
| LectureDetails.LecturePage.CheckLecture | app/components/LectureDetails.tsx:110-136 | nothing without a server; success refreshes the sidebar; failure shows the message or "An error checkLecture" and does not refresh |
| LectureDetails.LecturePage.HandleTimeUpdate | app/components/LectureDetails.tsx:138-148 | fires exactly as `Fires` says and sets the guard; when it fires, the check-lecture outcome: a refresh on success, the message on failure, nothing without a server; otherwise nothing else changes |
| CurrentLecture.HasAccessById | app/hooks/use-current-lecture.ts:15-17 | access iff some enrolment's course document id is the given one; none for an absent id |
| CurrentLecture.HasAccessByIdMonotone | app/hooks/use-current-lecture.ts:15-17 | more enrolments never remove access |
| CurrentLecture.CurrentLectureHook.constructor | app/hooks/use-current-lecture.ts:9-10 | no current lecture and an empty server message |
| CurrentLecture.CurrentLectureHook.LoadCurrentLecture | app/hooks/use-current-lecture.ts:19-50 | a request iff a server, a non-empty document id and access; success stores the lecture; failure stores the message or "An error occurred" and keeps the lecture |
| FormRules.EmailSplit | app/components/forms/register-form.tsx:42 | the pattern at a given "@" and "." position: a non-empty local part of `[A-Z0-9._%+-]`, a non-empty domain of `[A-Z0-9.-]`, then 2 to 4 letters, case-insensitively |
| FormRules.MatchesEmailPattern | app/components/forms/register-form.tsx:42 | the pattern's `test`: some split of the text fits |
| FormRules.IsValidEmail | app/components/forms/register-form.tsx:42 | the split at the first "@" and the last "." fits |
| FormRules.IsValidEmailMatchesPattern | app/components/forms/register-form.tsx:42 | the search-free decision agrees with the email pattern on every text, both ways |
| FormRules.SplitIsUnique | app/components/forms/register-form.tsx:42 | a matching split is always at the first "@" and the last "." |
| FormRules.ValidEmailExample | app/components/forms/register-form.tsx:42 | "a+b@x.y.Io" matches, letters of either case included |
| FormRules.InvalidEmailExamples | app/components/forms/register-form.tsx:42 | no "." after the "@", a 6-letter ending, or an empty local part fail |
| FormRules.TwoAtSignsRejected | app/components/forms/register-form.tsx:42 | a second "@" fails |
| FormRules.EmailError | app/components/forms/register-form.tsx:40-44 | "Email is required" for "", else "Invalid email address" iff the pattern fails |
| FormRules.PasswordError | app/components/forms/register-form.tsx:50-54 | "Password is required" for "", else the length message iff the `length` in UTF-16 code units is below 6 |
| FormRules.PasswordLengthInCodeUnits | app/components/forms/register-form.tsx:50-54 | three characters outside the Basic Multilingual Plane have length 6 and pass; "abc" is too short |
| FormRules.RequiredError | app/components/forms/register-form.tsx:46-48 | the given message iff the value is empty |
| RegisterForm.RegisterErrorsEmptyIffValid | app/components/forms/register-form.tsx:37-64 | the error map is empty iff the email matches, a name is given, the password is at least 6 UTF-16 code units long, and the confirmation equals it |
| RegisterForm.EmptyPasswordsBothRequired | app/components/forms/register-form.tsx:50-60 | two empty passwords draw both "required" messages |
| RegisterForm.Form.constructor | app/components/forms/register-form.tsx:21-35 | empty fields and errors, not loading, server message as configured |
| RegisterForm.Form.Edit | app/components/forms/register-form.tsx:128-195 | one field takes the typed value |
| RegisterForm.Form.Validate | app/components/forms/register-form.tsx:37-64 | records the first failing message per field (the password length counted in UTF-16 code units), and returns true iff every rule holds |
| RegisterForm.Form.OnSubmit | app/components/forms/register-form.tsx:66-106 | sends password, email and username iff valid with a server; success logs in and goes to "/profile"; failure shows the message or "An error occurred" |
| LoginForm.LoginErrorsEmptyIffValid | app/components/forms/login-form.tsx:35-50 | the error map is empty iff the email matches and a password is given |
| LoginForm.ShortPasswordAccepted | app/components/forms/login-form.tsx:44-46 | a one-character password passes, unlike at registration |
| LoginForm.InitialLoginData | app/components/forms/login-form.tsx:29-32 | the email starts as the preset email, the password as "" |
| LoginForm.Form.constructor | app/components/forms/login-form.tsx:21-33 | the initial data from the preset email, no errors, not loading |
| LoginForm.Form.Edit | app/components/forms/login-form.tsx:113-137 | one field takes the typed value |
| LoginForm.Form.Validate | app/components/forms/login-form.tsx:35-50 | records the email and password messages, and returns true iff none |
| LoginForm.Form.OnSubmit | app/components/forms/login-form.tsx:52-91 | sends the password and the email as identifier iff valid with a server; success logs in and goes to "/profile"; failure shows the message or "An error occurred" |
| FinishRegister.FinishRegisterErrorsEmptyIffValid | app/components/forms/finish-register.tsx:40-65 | the error map is empty iff the email matches, a name is given, the password is at least 6 UTF-16 code units long, and the confirmation equals it |
| FinishRegister.EmptyPasswordsNoConfirmError | app/components/forms/finish-register.tsx:53-61 | two empty passwords draw no confirmation error, only "Password is required" |
| FinishRegister.Welcome | app/components/forms/finish-register.tsx:112-122 | when logged in, "Welcome to the platform, {username}!" replaces the form |
| FinishRegister.WelcomeInjective | app/components/forms/finish-register.tsx:117 | different users get different greetings |
| FinishRegister.Form.constructor | app/components/forms/finish-register.tsx:24-38 | the email from the checkout, other fields empty |
| FinishRegister.Form.Edit | app/components/forms/finish-register.tsx:140-208 | only the name and the two passwords are editable; the email never changes |
| FinishRegister.Form.Validate | app/components/forms/finish-register.tsx:40-65 | records the first failing message per field (the password length counted in UTF-16 code units), and returns true iff every rule holds |
| FinishRegister.Form.OnSubmit | app/components/forms/finish-register.tsx:67-110 | when valid with a server, the PUT is sent, then the login only if it succeeded; the first failure shows its message or "An error occurred" |
| FinishLogin.FinishLoginErrorsEmptyIffValid | app/components/forms/finish-login.tsx:37-52 | the error map is empty iff the email matches and a password is given |
| FinishLogin.WelcomeBack | app/components/forms/finish-login.tsx:92-100 | when logged in, "Welcome back, {username}!" replaces the form |
| FinishLogin.WelcomeBackInjective | app/components/forms/finish-login.tsx:96 | different users get different greetings |
| FinishLogin.Form.constructor | app/components/forms/finish-login.tsx:23-35 | the email from the checkout, an empty password |
| FinishLogin.Form.EditPassword | app/components/forms/finish-login.tsx:118-143 | only the password is editable; the email never changes |
| FinishLogin.Form.Validate | app/components/forms/finish-login.tsx:37-52 | records the email and password messages, and returns true iff none |
| FinishLogin.Form.OnSubmit | app/components/forms/finish-login.tsx:54-90 | sends the password and the email as identifier iff valid with a server; success logs in; failure shows the message or "An error occurred" |
| Prerender.ModulePaths | react-router.config.ts:53-57 | a course's lecture pages, module by module |
| Prerender.CoursePaths | react-router.config.ts:50-57 | a course's page followed by its lecture pages |
| Prerender.DynamicPaths | react-router.config.ts:48-58 | the dynamic routes, course by course |
| Prerender.LecturePaths | react-router.config.ts:54-56 | one "/courses/{course}/{lecture}" per lecture, in order |
| Prerender.AppendLecturePaths | react-router.config.ts:54-56 | the innermost loop appends one lecture page per lecture, in order, and nothing else |
| Prerender.AppendCoursePaths | react-router.config.ts:50-57 | the body of the loop over courses appends the course page, then its modules' lecture pages in order |
| Prerender.Prerender | react-router.config.ts:25-65 | only the static paths with no URL, a non-ok answer or a throw; otherwise static paths then, course by course, the course page and its lecture pages in module and lecture order |
| Prerender.ModulePathsCount | react-router.config.ts:53-57 | a course contributes one lecture path per lecture |
| Prerender.DynamicPathsCount | react-router.config.ts:48-58 | the dynamic paths number Σ over courses of (1 + its lectures) |
| Prerender.ModulePathsMembers | react-router.config.ts:53-57 | a course's lecture paths are exactly the pages of its lectures |
| Prerender.DynamicPathsMembers | react-router.config.ts:48-58 | a path is dynamic iff it is a listed course's page or one of its lectures' pages |
| Prerender.RepeatedCourseRepeatsPages | react-router.config.ts:48-58 | a course listed twice yields its pages twice |
| RenderComponent.Field | app/lib/renderComponent.tsx:20 | a missing field reads as undefined |
| RenderComponent.RenderComponent | app/lib/renderComponent.tsx:5-23 | "block.hero" and "block.courses-listing-inline" give their component, anything else null; the key is the id; the props are every field except `__component`, `id`, `createdAt` and `updatedAt` |
| RenderComponent.TimestampsIgnored | app/lib/renderComponent.tsx:20-22 | changing `createdAt` or `updatedAt` never changes the element |
| RenderComponent.PropsRestoreBlock | app/lib/renderComponent.tsx:20-22 | the props plus the metadata fields are the whole block |
| RenderComponent.RenderComponents | app/lib/renderComponent.tsx:25-33 | same length as the input, and element i is block i rendered |

## Left out

- HTTP transport is not modelled: every axios and fetch call, including the URLs, headers and bearer tokens sent. Each request is an outcome parameter.
- JSON parsing is not modelled. A malformed localStorage string makes `JSON.parse` throw, and the store is assumed to hold what it wrote. `UserContext.Init` therefore requires `WellFormed`.
- Success bodies of the wrong shape are not modelled. A missing `user` in an auth response would throw inside the `try`. The model takes the typed shape.
- `app/lib/strapi.ts` is not part of this model. The `STRAPI` address is the boolean `strapiSet`.
- UserContext.UserProvider.Dispatch: requires the store's invariant, memory and storage in step. Start-up in the browser establishes it. Dispatching on the server, where localStorage does not exist, is not modelled.
- React scheduling is not modelled: effects, `useCallback`/`useMemo`, state batching and re-renders.
  - The `hasFired` guard is treated as updated at once. A stale closure that fires twice before a re-render is not captured.
  - Overlapping course syncs resolve last-write-wins, which is concurrency.
  - The start-up effect that re-fetches courses whenever the token changes is modelled only as `RefreshCourses`. It would fetch a second time after a login.
- LectureDetails.LecturePage.CheckLecture: the sidebar refresh is counted, not performed. The refresh itself is `CourseSidebar.Sidebar.FetchCompletedLectures`.
- Floating point is not modelled in general.
  - `Math.round` is computed exactly on integers, so rounding error in the float division is not reproduced.
  - The playback ratio is a Dafny `real`. NaN durations are not modelled, and an absent player is `None`.
- Durations are non-negative integers (`nat`), so fractional and negative inputs to `formatSeconds` and `formatDuration` are not modelled.
- Numbers in `JsValues.Js` are integers.
- Rendering is reduced to the decisions the code makes. Markup, class names, icons, the Mux player, console logging and `toLocaleDateString` are out.
- Navigation is returned as a target path, not performed.
- `CourseSidebar.Sidebar.FetchCompletedLectures` takes the slugs of the received array. An item without a `slug` would contribute `undefined`, which is not modelled.
- Pure presentation files and routes hold no decisions beyond those modelled, so they are out.
- `getStrapiError` on a thrown `null` or `undefined` would itself throw. `JsValues.Thrown` excludes those values.
- `react-router.config.ts` builds its paths in a loop. A throw partway through that loop is not modelled: a response is either received whole or fails before the loop.
